/** What the printed report says and in what order, told from the magnets alone. */
module ReportOrder {
  import opened PyText
  import opened Splitting
  import opened StableSort
  import opened DuplicateReport

  // ---- what the magnets say

  function Times(areas: seq<string>, area: string): nat {
    if areas == [] then 0
    else Times(areas[..|areas| - 1], area) + if areas[|areas| - 1] == area then 1 else 0
  }

  /** A magnet under an area, once for each time it names it. */
  function Repeated(m: Magnet, n: nat): seq<Magnet> {
    if n == 0 then [] else Repeated(m, n - 1) + [m]
  }

  /** The magnets of an area, in the order they were given. */
  function Under(ms: seq<Magnet>, area: string): seq<Magnet> {
    if ms == [] then []
    else Under(ms[..|ms| - 1], area) + Repeated(ms[|ms| - 1], Times(ms[|ms| - 1].areas, area))
  }

  function Sum(group: seq<Magnet>): nat {
    if group == [] then 0 else Sum(group[..|group| - 1]) + group[|group| - 1].count
  }

  /** All area names, in the order they are met. */
  function Met(ms: seq<Magnet>): seq<string> {
    if ms == [] then [] else Met(ms[..|ms| - 1]) + ms[|ms| - 1].areas
  }

  predicate MetBefore(met: seq<string>, a: string, b: string) {
    exists n :: 0 <= n < |met| && met[n] == a && b !in met[..n]
  }

  function OfCount(group: seq<Magnet>, count: nat): seq<Magnet> {
    if group == [] then []
    else OfCount(group[..|group| - 1], count) + if group[|group| - 1].count == count then [group[|group| - 1]] else []
  }

  /** Area a has the larger sum, or the same and is met first. */
  predicate ComesBefore(ms: seq<Magnet>, a: string, b: string) {
    a != b && (Sum(Under(ms, a)) > Sum(Under(ms, b))
               || (Sum(Under(ms, a)) == Sum(Under(ms, b)) && MetBefore(Met(ms), a, b)))
  }

  /** The areas that are met, each once, by falling sum, and where sums are equal in the order they are met. */
  ghost predicate AreasRanked(ms: seq<Magnet>, areas: seq<string>) {
    && (forall a :: a in areas <==> a in Met(ms))
    && forall i, j :: 0 <= i < j < |areas| ==> ComesBefore(ms, areas[i], areas[j])
  }

  /** The same magnets by falling count, and those of equal count in the order they were given. */
  ghost predicate GroupRanked(given: seq<Magnet>, group: seq<Magnet>) {
    && (forall i, j :: 0 <= i < j < |group| ==> group[i].count >= group[j].count)
    && (forall count: nat :: OfCount(group, count) == OfCount(given, count))
  }

  /** The count, right-aligned to two places, and the address. */
  predicate IsLine(line: string, m: Magnet) {
    line == "-   [" + (if m.count < 10 then " " else "") + Decimal(m.count) + " dupes] " + m.url
  }

  lemma IssueLineShows(m: Magnet)
    ensures IsLine(IssueLine(m), m)
  {
    assert |Decimal(m.count)| < 2 <==> m.count < 10;
    assert "-   [" + "" == "-   [";
  }

  /** A blank line, a heading, a blank line, and a line for each magnet. */
  predicate IsSection(lines: seq<string>, area: string, group: seq<Magnet>) {
    && |lines| == 3 + |group| && lines[0] == "" && lines[1] == "## " + area && lines[2] == ""
    && forall i :: 0 <= i < |group| ==> IsLine(lines[3 + i], group[i])
  }

  function Flat(sections: seq<seq<string>>): seq<string> {
    if sections == [] then [] else Flat(sections[..|sections| - 1]) + sections[|sections| - 1]
  }

  // ---- groups and sums

  lemma {:induction false} GroupJoined(a: seq<(string, Magnet)>, b: seq<(string, Magnet)>, area: string)
    ensures Group(a + b, area) == Group(a, area) + Group(b, area)
  {
    if b == [] {
      assert a + b == a;
    } else {
      GroupJoined(a, b[..|b| - 1], area);
      assert (a + b)[..|a + b| - 1] == a + b[..|b| - 1];
    }
  }

  lemma {:induction false} GroupTagged(areas: seq<string>, m: Magnet, area: string)
    ensures Group(Tagged(areas, m), area) == Repeated(m, Times(areas, area))
  {
    if areas != [] {
      GroupTagged(areas[..|areas| - 1], m, area);
      assert Tagged(areas, m)[..|areas| - 1] == Tagged(areas[..|areas| - 1], m);
    }
  }

  lemma {:induction false} GroupIsUnder(ms: seq<Magnet>, area: string)
    ensures Group(Mentions(ms), area) == Under(ms, area)
  {
    if ms != [] {
      var n := |ms| - 1;
      GroupIsUnder(ms[..n], area);
      GroupJoined(Mentions(ms[..n]), Tagged(ms[n].areas, ms[n]), area);
      GroupTagged(ms[n].areas, ms[n], area);
    }
  }

  lemma {:induction false} TotalIsSum(ps: seq<(string, Magnet)>, area: string)
    ensures Total(ps, area) == Sum(Group(ps, area))
  {
    if ps != [] {
      TotalIsSum(ps[..|ps| - 1], area);
      var front := Group(ps[..|ps| - 1], area);
      assert (front + [ps[|ps| - 1].1])[..|front|] == front;
      assert front + [] == front;
    }
  }

  lemma {:induction false} MentionsNameMet(ms: seq<Magnet>)
    ensures |Mentions(ms)| == |Met(ms)| && forall i :: 0 <= i < |Met(ms)| ==> Mentions(ms)[i].0 == Met(ms)[i]
  {
    if ms != [] {
      MentionsNameMet(ms[..|ms| - 1]);
    }
  }

  // ---- the order of areas

  /** Names in the order they are first met. */
  ghost predicate InMeetingOrder(keys: seq<string>, met: seq<string>) {
    && (forall a :: a in keys <==> a in met)
    && forall i, j :: 0 <= i < j < |keys| ==> keys[i] != keys[j] && MetBefore(met, keys[i], keys[j])
  }

  lemma {:induction false} KeysInMeetingOrder(ps: seq<(string, Magnet)>, met: seq<string>)
    requires |met| == |ps| && forall i :: 0 <= i < |ps| ==> ps[i].0 == met[i]
    ensures InMeetingOrder(AreaKeys(ps), met)
  {
    if ps != [] {
      var n := |ps| - 1;
      KeysInMeetingOrder(ps[..n], met[..n]);
      var keys := AreaKeys(ps[..n]);
      assert met == met[..n] + [met[n]];
      forall a, b | MetBefore(met[..n], a, b) ensures MetBefore(met, a, b) {
        var k :| 0 <= k < n && met[..n][k] == a && b !in met[..n][..k];
        assert met[..n][..k] == met[..k];
      }
      forall a | a in keys && met[n] !in keys ensures MetBefore(met, a, met[n]) {
        var k :| 0 <= k < n && met[..n][k] == a;
        assert forall i :: 0 <= i < k ==> met[i] in met[..n];
      }
    }
  }

  /** Two items with one key, in order, stand in the same order among the items with that key. */
  lemma {:induction false} KeepsOrder<T>(xs: seq<(int, T)>, i: nat, j: nat) returns (a: nat, b: nat)
    requires i < j < |xs| && xs[i].0 == xs[j].0
    ensures var same := WithKey(xs, xs[i].0); a < b < |same| && same[a] == xs[i] && same[b] == xs[j]
  {
    var rest := WithKey(xs[1..], xs[i].0);
    if i > 0 {
      a, b := KeepsOrder(xs[1..], i - 1, j - 1);
      if xs[0].0 == xs[i].0 {
        a, b := a + 1, b + 1;
      }
    } else {
      b := Finds(xs[1..], j - 1);
      a, b := 0, b + 1;
    }
  }

  lemma {:induction false} Finds<T>(xs: seq<(int, T)>, j: nat) returns (b: nat)
    requires j < |xs|
    ensures b < |WithKey(xs, xs[j].0)| && WithKey(xs, xs[j].0)[b] == xs[j]
  {
    if j == 0 {
      b := 0;
    } else {
      b := Finds(xs[1..], j - 1);
      if xs[0].0 == xs[j].0 {
        b := b + 1;
      }
    }
  }

  /** And the other way round. */
  lemma {:induction false} CameInOrder<T>(xs: seq<(int, T)>, key: int, a: nat, b: nat) returns (i: nat, j: nat)
    requires a < b < |WithKey(xs, key)|
    ensures i < j < |xs| && xs[i] == WithKey(xs, key)[a] && xs[j] == WithKey(xs, key)[b]
  {
    var rest := WithKey(xs[1..], key);
    if xs[0].0 != key {
      i, j := CameInOrder(xs[1..], key, a, b);
      i, j := i + 1, j + 1;
    } else if a > 0 {
      i, j := CameInOrder(xs[1..], key, a - 1, b - 1);
      i, j := i + 1, j + 1;
    } else {
      j := CameFrom(xs[1..], key, b - 1);
      i, j := 0, j + 1;
    }
  }

  lemma {:induction false} CameFrom<T>(xs: seq<(int, T)>, key: int, b: nat) returns (j: nat)
    requires b < |WithKey(xs, key)|
    ensures j < |xs| && xs[j] == WithKey(xs, key)[b]
  {
    if xs[0].0 == key && b == 0 {
      j := 0;
    } else {
      j := CameFrom(xs[1..], key, if xs[0].0 == key then b - 1 else b);
      j := j + 1;
    }
  }

  function Names(ranked: seq<(int, string)>): seq<string> {
    seq(|ranked|, i requires 0 <= i < |ranked| => ranked[i].1)
  }

  /** Ranking keyed names by falling key keeps distinct names distinct, and ties in their old order. */
  lemma RankedPair(xs: seq<(int, string)>, i: nat, j: nat) returns (a: nat, b: nat)
    requires i < j < |SortDesc(xs)|
    ensures SortDesc(xs)[i].0 >= SortDesc(xs)[j].0
    ensures SortDesc(xs)[i].0 == SortDesc(xs)[j].0 ==>
              a < b < |xs| && xs[a] == SortDesc(xs)[i] && xs[b] == SortDesc(xs)[j]
  {
    var ys := SortDesc(xs);
    SortDescSorts(xs);
    a, b := 0, 0;
    if ys[i].0 == ys[j].0 {
      SortDescIsStable(xs, ys[i].0);
      hide SortDesc;
      var c, d := KeepsOrder(ys, i, j);
      a, b := CameInOrder(xs, ys[i].0, c, d);
    }
  }

  lemma AreasAreRanked(ms: seq<Magnet>)
    ensures AreasRanked(ms, Names(RankedAreas(Mentions(ms))))
  {
    var areas := Names(RankedAreas(Mentions(ms)));
    RankedAreMet(ms);
    hide Names, RankedAreas, Sum, Under, MetBefore;
    forall i: nat, j: nat | i < j < |areas| ensures ComesBefore(ms, areas[i], areas[j]) {
      RankedInOrder(ms, i, j);
    }
  }

  lemma RankedAreMet(ms: seq<Magnet>)
    ensures forall a :: a in Names(RankedAreas(Mentions(ms))) <==> a in Met(ms)
  {
    var ps, met := Mentions(ms), Met(ms);
    var keys, ranked := AreaKeys(ps), RankedAreas(ps);
    var xs, areas := WithTotals(ps, keys), Names(ranked);
    MentionsNameMet(ms);
    KeysInMeetingOrder(ps, met);
    SortDescMembers(xs);
    hide SortDesc, AreaKeys, Mentions, Met, Total;
    forall a ensures a in areas <==> a in met {
      if a in met {
        var k :| 0 <= k < |keys| && keys[k] == a;
        assert xs[k] in xs && xs[k] in ranked;
        var n :| 0 <= n < |ranked| && ranked[n] == xs[k];
        assert areas[n] == a;
      }
      if a in areas {
        var n :| 0 <= n < |areas| && areas[n] == a;
        assert ranked[n] in ranked;
      }
    }
  }

  lemma RankedInOrder(ms: seq<Magnet>, i: nat, j: nat)
    requires i < j < |Names(RankedAreas(Mentions(ms)))|
    ensures var areas := Names(RankedAreas(Mentions(ms))); ComesBefore(ms, areas[i], areas[j])
  {
    var ps := Mentions(ms);
    var keys, ranked := AreaKeys(ps), RankedAreas(ps);
    var xs := WithTotals(ps, keys);
    MentionsNameMet(ms);
    KeysInMeetingOrder(ps, Met(ms));
    SortDescMembers(xs);
    var a, b := RankedPair(xs, i, j);
    assert ranked[i] in ranked && ranked[j] in ranked;
    hide SortDesc, AreaKeys, Mentions, Met, Total, Sum, Under, MetBefore;
    TotalOfArea(ms, ranked[i].1);
    TotalOfArea(ms, ranked[j].1);
    if ranked[i].0 == ranked[j].0 {
      assert keys[a] == ranked[i].1 && keys[b] == ranked[j].1;
    }
  }

  lemma TotalOfArea(ms: seq<Magnet>, area: string)
    ensures Total(Mentions(ms), area) == Sum(Under(ms, area))
  {
    TotalIsSum(Mentions(ms), area);
    GroupIsUnder(ms, area);
  }

  // ---- the order within an area

  function Magnets(xs: seq<(int, Magnet)>): seq<Magnet> {
    seq(|xs|, i requires 0 <= i < |xs| => xs[i].1)
  }

  predicate Counted(xs: seq<(int, Magnet)>) {
    forall i :: 0 <= i < |xs| ==> xs[i].0 == xs[i].1.count
  }

  lemma {:induction false} OfCountIsWithKey(xs: seq<(int, Magnet)>, count: nat)
    requires Counted(xs)
    ensures OfCount(Magnets(xs), count) == Magnets(WithKey(xs, count))
  {
    if xs != [] {
      var n := |xs| - 1;
      OfCountIsWithKey(xs[..n], count);
      WithKeyPush(xs[..n], xs[n], count);
      assert xs == xs[..n] + [xs[n]];
      assert Magnets(xs)[..n] == Magnets(xs[..n]);
    }
  }

  lemma GroupIsRanked(given: seq<Magnet>)
    ensures GroupRanked(given, Magnets(Ranked(given)))
  {
    var xs, ranked := WithCounts(given), Ranked(given);
    SortDescSorts(xs);
    SortDescMembers(xs);
    assert Counted(xs) && Magnets(xs) == given;
    assert Counted(ranked) by {
      forall i | 0 <= i < |ranked| ensures ranked[i].0 == ranked[i].1.count {
        assert ranked[i] in ranked;
      }
    }
    forall count: nat ensures OfCount(Magnets(ranked), count) == OfCount(given, count) {
      SortDescIsStable(xs, count);
      OfCountIsWithKey(xs, count);
      OfCountIsWithKey(ranked, count);
    }
  }

  // ---- the report

  function SectionsOf(ps: seq<(string, Magnet)>, ranked: seq<(int, string)>): seq<seq<string>> {
    seq(|ranked|, i requires 0 <= i < |ranked| => Section(ps, ranked[i].1))
  }

  lemma {:induction false} SectionsAreFlat(ps: seq<(string, Magnet)>, ranked: seq<(int, string)>)
    ensures Sections(ps, ranked) == Flat(SectionsOf(ps, ranked))
  {
    if ranked != [] {
      var n := |ranked| - 1;
      SectionsAreFlat(ps, ranked[..n]);
      assert SectionsOf(ps, ranked)[..n] == SectionsOf(ps, ranked[..n]);
    }
  }

  /** Section i of a report shows the magnets of area i, ranked. */
  ghost predicate Reports(section: seq<string>, ms: seq<Magnet>, area: string) {
    exists group :: GroupRanked(Under(ms, area), group) && IsSection(section, area, group)
  }

  ghost predicate AllReport(sections: seq<seq<string>>, ms: seq<Magnet>, areas: seq<string>) {
    |sections| == |areas| && forall i :: 0 <= i < |areas| ==> Reports(sections[i], ms, areas[i])
  }

  lemma SectionReports(ms: seq<Magnet>, area: string)
    ensures Reports(Section(Mentions(ms), area), ms, area)
  {
    GroupIsUnder(ms, area);
    GroupIsRanked(Under(ms, area));
    forall m ensures IsLine(IssueLine(m), m) {
      IssueLineShows(m);
    }
    hide GroupRanked, Ranked, IsLine, IssueLine;
    assert IsSection(Section(Mentions(ms), area), area, Magnets(Ranked(Under(ms, area))));
  }

  /**
    * The report is the introduction and one section for each area that a magnet names. Areas come by
    * falling sum of counts, the magnets of each by falling count, and ties in the order they were given.
    */
  lemma ReportIsRanked(ms: seq<Magnet>)
    ensures exists areas: seq<string>, sections: seq<seq<string>> ::
              && Report(ms) == Join([INTRO] + Flat(sections), '\n')
              && AreasRanked(ms, areas) && AllReport(sections, ms, areas)
  {
    var ps := Mentions(ms);
    var areas, sections := Names(RankedAreas(ps)), SectionsOf(ps, RankedAreas(ps));
    SectionsAreFlat(ps, RankedAreas(ps));
    hide AreasRanked, RankedAreas, AllReport, SectionsOf, Names, Join;
    AreasAreRanked(ms);
    SectionsReport(ms, RankedAreas(ps));
  }

  lemma SectionsReport(ms: seq<Magnet>, ranked: seq<(int, string)>)
    ensures AllReport(SectionsOf(Mentions(ms), ranked), ms, Names(ranked))
  {
    hide Section, Reports;
    forall i | 0 <= i < |ranked| ensures Reports(Section(Mentions(ms), ranked[i].1), ms, ranked[i].1) {
      SectionReports(ms, ranked[i].1);
    }
  }
}
