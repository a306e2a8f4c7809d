/** Reading a printed duplicate-magnet report back gives the magnets that were printed. */
module DuplicateRoundTrip {
  import opened Wrappers
  import opened PyText
  import opened Splitting
  import opened StableSort
  import opened DuplicateReport

  // ---- one printed line reads back

  /** What an issue's address looks like before its "/issues/NUMBER" end. */
  predicate ProperHost(host: string) {
    && '[' !in host && '\n' !in host
    && forall i :: 0 <= i < |host| - 1 && host[i] == '/' ==> host[i + 1] != 'i'
  }

  ghost predicate Proper(m: Magnet) {
    && (exists host :: ProperHost(host) && m.url == host + ISSUES + Decimal(m.number))
    && forall a :: a in m.areas ==> '\n' !in a
  }

  lemma RepositoryHostIsProper()
    ensures ProperHost("https://github.com/zed-industries/zed")
  {
  }

  lemma NoChar(s: string, c: char, pat: string)
    requires c !in s && pat != "" && pat[0] == c
    ensures forall i: nat :: !OccursAt(s, pat, i)
  {
    forall i: nat ensures !OccursAt(s, pat, i) {
      assert i + |pat| <= |s| ==> s[i..i + |pat|][0] == s[i];
    }
  }

  lemma BracketPiece(tail: string)
    requires '[' !in tail
    ensures SecondPiece("-   [" + tail, "[") == Some(tail)
  {
    var line := "-   [" + tail;
    assert line == "-   " + "[" + tail;
    NoChar(tail, '[', "[");
    forall i: nat | i < 4 ensures !OccursAt(line, "[", i) {
      assert line[i] == "-   "[i] && line[i..i + 1][0] == line[i];
    }
    SecondPieceIs("-   ", "[", tail);
  }

  lemma NumberPiece(front: string, host: string, number: string)
    requires '/' !in front && ProperHost(host) && '/' !in number
    ensures SecondPiece(front + host + ISSUES + number, ISSUES) == Some(number)
    ensures IndexOf(front + host + ISSUES + number, ISSUES).Some?
  {
    var head := front + host;
    var line := head + ISSUES + number;
    forall i: nat | i < |head| ensures !OccursAt(line, ISSUES, i) {
      if i + 8 <= |line| {
        assert line[i..i + 8][0] == line[i] && line[i..i + 8][1] == line[i + 1];
        if i < |front| {
          assert line[i] == front[i];
        } else {
          var j := i - |front|;
          assert line[i] == host[j] && (j + 1 < |host| ==> line[i + 1] == host[j + 1]);
        }
      }
    }
    NoChar(number, '/', ISSUES);
    SecondPieceIs(head, ISSUES, number);
  }

  lemma IssueLineChars(m: Magnet, host: string)
    requires ProperHost(host) && m.url == host + ISSUES + Decimal(m.number)
    ensures '[' !in m.url && '\n' !in m.url && '/' !in Decimal(m.number)
    ensures '[' !in Pad2(Decimal(m.count)) && '\n' !in Pad2(Decimal(m.count)) && '/' !in Pad2(Decimal(m.count))
  {
    DecimalParses(m.count);
    DecimalParses(m.number);
  }

  lemma IssueLineParts(m: Magnet, host: string)
    requires ProperHost(host) && m.url == host + ISSUES + Decimal(m.number)
    ensures SecondPiece(IssueLine(m), "[") == Some(Pad2(Decimal(m.count)) + " dupes] " + m.url)
    ensures SecondPiece(IssueLine(m), ISSUES) == Some(Decimal(m.number)) && IndexOf(IssueLine(m), ISSUES).Some?
  {
    IssueLineChars(m, host);
    hide ProperHost, Decimal, Pad2, SecondPiece, IndexOf;
    var count := Pad2(Decimal(m.count));
    var tail := count + " dupes] " + m.url;
    assert IssueLine(m) == "-   [" + tail;
    BracketPiece(tail);
    var front := "-   [" + count + " dupes] ";
    assert IssueLine(m) == front + host + ISSUES + Decimal(m.number) by {
      assert front + m.url == front + host + ISSUES + Decimal(m.number);
    }
    NumberPiece(front, host, Decimal(m.number));
  }

  lemma IssueLineIsOneLine(m: Magnet, host: string)
    requires ProperHost(host) && m.url == host + ISSUES + Decimal(m.number)
    ensures '\n' !in IssueLine(m) && |IssueLine(m)| > 0 && IssueLine(m)[0] == '-'
  {
    IssueLineChars(m, host);
  }

  lemma CountToken(m: Magnet)
    ensures ParseToken(Some(Pad2(Decimal(m.count)) + " dupes] " + m.url), false) == Some(m.count as int)
  {
    DecimalParses(m.count);
    var count := Decimal(m.count);
    var pad := if |count| < 2 then " " else "";
    var rest := " dupes] " + m.url;
    assert Pad2(count) + " dupes] " + m.url == pad + count + rest;
    TokenIs(pad, count, rest);
  }

  lemma NumberToken(number: nat)
    ensures ParseToken(Some(Decimal(number)), true) == Some(number as int)
  {
    DecimalParses(number);
    var digits := Decimal(number);
    assert digits == "" + digits + "";
    TokenIs("", digits, "");
    assert RStripParens(digits) == digits;
  }

  lemma IssueLineReads(m: Magnet)
    requires Proper(m)
    ensures ParseLine(IssueLine(m)) == Some((m.count as int, m.number as int))
    ensures '\n' !in IssueLine(m) && !("## " <= IssueLine(m))
  {
    var host :| ProperHost(host) && m.url == host + ISSUES + Decimal(m.number);
    IssueLineParts(m, host);
    IssueLineIsOneLine(m, host);
    CountToken(m);
    NumberToken(m.number);
  }

  // ---- the whole report reads back

  /** Folding what was read into the dictionary. */
  function AddAll(d: Dict, ts: seq<(string, int, int)>): Dict {
    if ts == [] then d
    else
      var t := ts[|ts| - 1];
      Add(AddAll(d, ts[..|ts| - 1]), t.0, t.1, t.2)
  }

  function SectionTriples(area: string, xs: seq<(int, Magnet)>): seq<(string, int, int)> {
    if Strip(area) == "" then []
    else seq(|xs|, i requires 0 <= i < |xs| => (Strip(area), xs[i].1.number as int, xs[i].1.count as int))
  }

  function Triples(ps: seq<(string, Magnet)>, areas: seq<(int, string)>): seq<(string, int, int)> {
    if areas == [] then []
    else
      var area := areas[|areas| - 1].1;
      Triples(ps, areas[..|areas| - 1]) + SectionTriples(area, Ranked(Group(ps, area)))
  }

  lemma ReadLast(st: State, lines: seq<string>, line: string)
    ensures ReadAll(st, lines + [line]) == Read(ReadAll(st, lines), line)
  {
    assert (lines + [line])[..|lines|] == lines;
  }

  lemma {:induction false} ReadAllJoined(st: State, a: seq<string>, b: seq<string>)
    ensures ReadAll(st, a + b) == ReadAll(ReadAll(st, a), b)
  {
    hide Read;
    if b == [] {
      assert a + b == a;
    } else {
      var n := |b| - 1;
      ReadAllJoined(st, a, b[..n]);
      ReadLast(st, a + b[..n], b[n]);
      ReadLast(ReadAll(st, a), b[..n], b[n]);
      assert a + b == a + b[..n] + [b[n]] && b == b[..n] + [b[n]];
    }
  }

  lemma {:induction false} AddAllJoined(d: Dict, a: seq<(string, int, int)>, b: seq<(string, int, int)>)
    ensures AddAll(d, a + b) == AddAll(AddAll(d, a), b)
  {
    if b == [] {
      assert a + b == a;
    } else {
      var n := |b| - 1;
      AddAllJoined(d, a, b[..n]);
      assert (a + b)[..|a| + n] == a + b[..n];
    }
  }

  lemma {:induction false} IssueLinesRead(st: State, area: string, xs: seq<(int, Magnet)>)
    requires st.area == Strip(area) && forall x :: x in xs ==> Proper(x.1)
    ensures ReadAll(st, IssueLines(xs)) == State(st.area, AddAll(st.magnets, SectionTriples(area, xs)))
  {
    hide IssueLine, Proper, Strip, Add, ParseLine;
    if xs != [] {
      var n := |xs| - 1;
      IssueLinesRead(st, area, xs[..n]);
      assert IssueLines(xs)[..n] == IssueLines(xs[..n]);
      assert xs[n] in xs;
      IssueLineReads(xs[n].1);
      if Strip(area) != "" {
        assert SectionTriples(area, xs)[..n] == SectionTriples(area, xs[..n]);
      }
    }
  }

  lemma SectionReads(st: State, ps: seq<(string, Magnet)>, area: string)
    requires forall p :: p in ps ==> Proper(p.1)
    ensures ReadAll(st, Section(ps, area)) ==
              State(Strip(area), AddAll(st.magnets, SectionTriples(area, Ranked(Group(ps, area)))))
  {
    var xs := Ranked(Group(ps, area));
    var head := ["", "## " + area, ""];
    ReadAllJoined(st, head, IssueLines(xs));
    assert head[..2] == ["", "## " + area] && head[..2][..1] == [""] && head[..2][..1][..0] == [];
    assert ("## " + area)[3..] == area;
    assert ReadAll(st, head[..2][..1]) == st;
    assert ReadAll(st, head[..2]) == st.(area := Strip(area));
    assert ReadAll(st, head) == st.(area := Strip(area));
    RankedMembers(ps, area);
    IssueLinesRead(st.(area := Strip(area)), area, xs);
  }

  lemma RankedMembers(ps: seq<(string, Magnet)>, area: string)
    ensures forall x :: x in Ranked(Group(ps, area)) <==> x.0 == x.1.count && (area, x.1) in ps
  {
    var group := Group(ps, area);
    SortDescMembers(WithCounts(group));
    GroupMembers(ps, area);
    forall x: (int, Magnet) ensures x in WithCounts(group) <==> x.0 == x.1.count && (area, x.1) in ps {
      if x.0 == x.1.count && (area, x.1) in ps {
        var i :| 0 <= i < |group| && group[i] == x.1;
        assert WithCounts(group)[i] == x;
      }
    }
  }

  lemma {:induction false} GroupMembers(ps: seq<(string, Magnet)>, area: string)
    ensures forall m :: m in Group(ps, area) <==> (area, m) in ps
  {
    if ps != [] {
      GroupMembers(ps[..|ps| - 1], area);
      assert ps == ps[..|ps| - 1] + [ps[|ps| - 1]];
    }
  }

  lemma {:induction false} SectionsRead(st: State, ps: seq<(string, Magnet)>, areas: seq<(int, string)>)
    requires forall p :: p in ps ==> Proper(p.1)
    ensures ReadAll(st, Sections(ps, areas)).magnets == AddAll(st.magnets, Triples(ps, areas))
  {
    if areas != [] {
      var n := |areas| - 1;
      SectionsRead(st, ps, areas[..n]);
      var before := Sections(ps, areas[..n]);
      ReadAllJoined(st, before, Section(ps, areas[n].1));
      SectionReads(ReadAll(st, before), ps, areas[n].1);
      AddAllJoined(st.magnets, Triples(ps, areas[..n]), SectionTriples(areas[n].1, Ranked(Group(ps, areas[n].1))));
    }
  }

  lemma RankedAreasMembers(ps: seq<(string, Magnet)>, a: string, m: Magnet)
    requires (a, m) in ps
    ensures exists k :: 0 <= k < |RankedAreas(ps)| && RankedAreas(ps)[k].1 == a
  {
    var keys := AreaKeys(ps);
    KeysMembers(ps);
    SortDescMembers(WithTotals(ps, keys));
    var i :| 0 <= i < |keys| && keys[i] == a;
    assert WithTotals(ps, keys)[i] in WithTotals(ps, keys);
    assert WithTotals(ps, keys)[i] in RankedAreas(ps);
  }

  /** The triples read are the magnet mentions, each under its stripped area if that is not blank. */
  lemma {:induction false} TriplesMembers(ps: seq<(string, Magnet)>, areas: seq<(int, string)>)
    ensures forall t :: t in Triples(ps, areas) ==> FromMention(ps, t)
    ensures forall k, m :: 0 <= k < |areas| && (areas[k].1, m) in ps && Strip(areas[k].1) != "" ==>
              TripleOf(areas[k].1, m) in Triples(ps, areas)
  {
    if areas != [] {
      var n := |areas| - 1;
      TriplesMembers(ps, areas[..n]);
      var area := areas[n].1;
      var xs := Ranked(Group(ps, area));
      RankedMembers(ps, area);
      var last := SectionTriples(area, xs);
      forall t | t in last ensures FromMention(ps, t) {
        var i :| 0 <= i < |last| && last[i] == t;
        assert xs[i] in xs;
        assert (area, xs[i].1) in ps && t == TripleOf(area, xs[i].1);
      }
      forall k, m | 0 <= k < |areas| && (areas[k].1, m) in ps && Strip(areas[k].1) != ""
        ensures TripleOf(areas[k].1, m) in Triples(ps, areas)
      {
        if k == n {
          assert (m.count as int, m) in xs;
          var i :| 0 <= i < |xs| && xs[i] == (m.count as int, m);
          assert last[i] == TripleOf(area, m);
        } else {
          assert areas[..n][k] == areas[k];
        }
      }
    }
  }

  function TripleOf(a: string, m: Magnet): (string, int, int) {
    (Strip(a), m.number as int, m.count as int)
  }

  ghost predicate FromMention(ps: seq<(string, Magnet)>, t: (string, int, int)) {
    exists p :: p in ps && Strip(p.0) != "" && t == TripleOf(p.0, p.1)
  }

  ghost predicate Named(ts: seq<(string, int, int)>, number: int, area: string) {
    exists i :: 0 <= i < |ts| && ts[i].1 == number && ts[i].0 == area
  }

  ghost predicate Mentioned(ts: seq<(string, int, int)>, number: int) {
    exists i :: 0 <= i < |ts| && ts[i].1 == number
  }

  /** What the dictionary holds after folding ts. */
  ghost predicate Holds(d: Dict, ts: seq<(string, int, int)>) {
    && Consistent(d)
    && (forall n :: n in d.at <==> Mentioned(ts, n))
    && (forall i :: 0 <= i < |ts| ==> ts[i].1 in d.at && d.at[ts[i].1].dupeCount == ts[i].2)
    && (forall n, a :: n in d.at ==> (a in d.at[n].areas <==> a != UNLABELED && Named(ts, n, a)))
  }

  lemma MentionedStep(ts: seq<(string, int, int)>, t: (string, int, int))
    ensures forall n :: Mentioned(ts + [t], n) <==> n == t.1 || Mentioned(ts, n)
    ensures forall n, a :: Named(ts + [t], n, a) <==> (n == t.1 && a == t.0) || Named(ts, n, a)
    ensures forall n, a :: Named(ts, n, a) ==> Mentioned(ts, n)
  {
    var all := ts + [t];
    assert all[|ts|] == t;
    forall n ensures Mentioned(all, n) <==> n == t.1 || Mentioned(ts, n) {
      if Mentioned(ts, n) {
        var i :| 0 <= i < |ts| && ts[i].1 == n;
        assert all[i].1 == n;
      }
    }
    forall n, a ensures Named(all, n, a) <==> (n == t.1 && a == t.0) || Named(ts, n, a) {
      if Named(ts, n, a) {
        var i :| 0 <= i < |ts| && ts[i].1 == n && ts[i].0 == a;
        assert all[i].1 == n && all[i].0 == a;
      }
    }
  }

  lemma AddHolds(d: Dict, ts: seq<(string, int, int)>, t: (string, int, int))
    requires Holds(d, ts)
    requires forall i :: 0 <= i < |ts| && ts[i].1 == t.1 ==> ts[i].2 == t.2
    ensures Holds(Add(d, t.0, t.1, t.2), ts + [t])
  {
    MentionedStep(ts, t);
    var d', all := Add(d, t.0, t.1, t.2), ts + [t];
    forall n, a | n in d'.at ensures a in d'.at[n].areas <==> a != UNLABELED && Named(all, n, a) {
    }
    forall i | 0 <= i < |all| ensures all[i].1 in d'.at && d'.at[all[i].1].dupeCount == all[i].2 {
      if i == |ts| && Mentioned(ts, t.1) {
        var j :| 0 <= j < |ts| && ts[j].1 == t.1;
      }
    }
  }

  /** A number must always come with the same count. */
  lemma {:induction false} AddAllMeaning(ts: seq<(string, int, int)>)
    requires forall i, j :: 0 <= i < j < |ts| && ts[i].1 == ts[j].1 ==> ts[i].2 == ts[j].2
    ensures Holds(AddAll(START.magnets, ts), ts)
  {
    if ts != [] {
      var k := |ts| - 1;
      AddAllMeaning(ts[..k]);
      AddHolds(AddAll(START.magnets, ts[..k]), ts[..k], ts[k]);
      assert ts == ts[..k] + [ts[k]];
    }
  }

  lemma {:induction false} MentionsMembers(ms: seq<Magnet>)
    ensures forall p :: p in Mentions(ms) <==> p.1 in ms && p.0 in p.1.areas
  {
    if ms != [] {
      var n := |ms| - 1;
      MentionsMembers(ms[..n]);
      assert ms == ms[..n] + [ms[n]];
      var last := Tagged(ms[n].areas, ms[n]);
      forall p: (string, Magnet) ensures p in last <==> p.1 == ms[n] && p.0 in ms[n].areas {
        if p.1 == ms[n] && p.0 in ms[n].areas {
          var i :| 0 <= i < |ms[n].areas| && ms[n].areas[i] == p.0;
          assert last[i] == p;
        }
      }
    }
  }

  predicate DistinctNumbers(ms: seq<Magnet>) {
    forall i, j :: 0 <= i < j < |ms| ==> ms[i].number != ms[j].number
  }

  /** The magnet appears under at least one heading the reader accepts. */
  predicate Visible(m: Magnet) {
    exists a :: a in m.areas && Strip(a) != ""
  }

  /** The record of a magnet: same number and count, and its areas as their headings read back. */
  ghost predicate RecordOf(r: Record, m: Magnet) {
    && r.number == m.number && r.dupeCount == m.count
    && forall a :: a in r.areas <==> a != UNLABELED && a != "" && exists b :: b in m.areas && Strip(b) == a
  }

  lemma ProseIsSkipped(line: string)
    requires line != "" && line[0] != '#'
    ensures ReadAll(START, [line]) == START
  {
    ReadLast(START, [], line);
    assert [] + [line] == [line];
  }

  lemma IntroductionIsProse()
    ensures |INTRO| > 0 && INTRO[0] == 'T' && '\n' !in INTRO
  {
    IntroductionStarts();
    IntroductionEnds();
    hide IntroStart, IntroEnd;
  }

  lemma IntroductionStarts()
    ensures |IntroStart()| > 0 && IntroStart()[0] == 'T' && '\n' !in IntroStart()
  {
  }

  lemma IntroductionEnds()
    ensures '\n' !in IntroEnd()
  {
  }

  lemma ReportReads(ms: seq<Magnet>)
    requires forall m :: m in ms ==> Proper(m)
    ensures ReadAll(START, ReportLines(ms)).magnets ==
              AddAll(START.magnets, Triples(Mentions(ms), RankedAreas(Mentions(ms))))
  {
    var ps := Mentions(ms);
    MentionsMembers(ms);
    IntroductionIsProse();
    ProseIsSkipped(INTRO);
    ReadAllJoined(START, [INTRO], Sections(ps, RankedAreas(ps)));
    SectionsRead(START, ps, RankedAreas(ps));
  }

  lemma ReportSplits(ms: seq<Magnet>)
    requires forall m :: m in ms ==> Proper(m)
    ensures Split(Report(ms), '\n') == ReportLines(ms)
  {
    var ps := Mentions(ms);
    MentionsMembers(ms);
    KeysMembers(ps);
    forall k | 0 <= k < |RankedAreas(ps)| ensures '\n' !in RankedAreas(ps)[k].1 {
      RankedAreaIsKey(ps, k);
    }
    SectionsSingleLines(ps, RankedAreas(ps));
    IntroductionIsProse();
    SplitUndoesJoin(ReportLines(ms), '\n');
  }

  lemma {:induction false} SectionsSingleLines(ps: seq<(string, Magnet)>, areas: seq<(int, string)>)
    requires (forall p :: p in ps ==> Proper(p.1)) && forall k :: 0 <= k < |areas| ==> '\n' !in areas[k].1
    ensures forall l :: l in Sections(ps, areas) ==> '\n' !in l
  {
    hide IssueLine, Proper, Ranked, Group, ParseLine;
    if areas != [] {
      var n := |areas| - 1;
      SectionsSingleLines(ps, areas[..n]);
      var xs := Ranked(Group(ps, areas[n].1));
      RankedMembers(ps, areas[n].1);
      forall l | l in IssueLines(xs) ensures '\n' !in l {
        var i :| 0 <= i < |xs| && l == IssueLine(xs[i].1);
        assert xs[i] in xs;
        IssueLineReads(xs[i].1);
      }
    }
  }

  /** The dictionary the reader ends up with, before sorting. */
  function ReadBack(ms: seq<Magnet>): Dict {
    ReadAll(START, ReportLines(ms)).magnets
  }

  lemma DictionaryIsExact(ms: seq<Magnet>)
    requires DistinctNumbers(ms) && forall m :: m in ms ==> Proper(m)
    ensures Consistent(ReadBack(ms))
    ensures forall n :: n in ReadBack(ms).at ==> exists m :: m in ms && Visible(m) && RecordOf(ReadBack(ms).at[n], m)
    ensures forall m :: m in ms && Visible(m) ==> m.number in ReadBack(ms).at && RecordOf(ReadBack(ms).at[m.number], m)
  {
    ReportReads(ms);
    var ps := Mentions(ms);
    var ts := Triples(ps, RankedAreas(ps));
    var d := ReadBack(ms);
    MentionsMembers(ms);
    TriplesMembers(ps, RankedAreas(ps));
    CountsAgree(ms, ts);
    AddAllMeaning(ts);
    forall n | n in d.at ensures exists m :: m in ms && Visible(m) && RecordOf(d.at[n], m) {
      var i :| 0 <= i < |ts| && ts[i].1 == n;
      assert ts[i] in ts && FromMention(ps, ts[i]);
      var p :| p in ps && Strip(p.0) != "" && ts[i] == TripleOf(p.0, p.1);
      RecordIsOfMagnet(ms, p.1, ts, d);
    }
    forall m | m in ms && Visible(m) ensures m.number in d.at && RecordOf(d.at[m.number], m) {
      VisibleIsMentioned(ms, m);
      RecordIsOfMagnet(ms, m, ts, d);
    }
  }

  lemma VisibleIsMentioned(ms: seq<Magnet>, m: Magnet)
    requires m in ms && Visible(m)
    ensures Mentioned(Triples(Mentions(ms), RankedAreas(Mentions(ms))), m.number)
  {
    var ps := Mentions(ms);
    var ts := Triples(ps, RankedAreas(ps));
    MentionsMembers(ms);
    var a :| a in m.areas && Strip(a) != "";
    assert (a, m) in ps;
    RankedAreasMembers(ps, a, m);
    TriplesMembers(ps, RankedAreas(ps));
    assert TripleOf(a, m) in ts;
  }

  lemma ParsedFrom(ms: seq<Magnet>)
    requires Split(Report(ms), '\n') == ReportLines(ms)
    ensures Consistent(ReadBack(ms)) && Parse(Report(ms)) == SortDesc(Entries(ReadBack(ms)))
  {
    hide ReportLines, Report, SortDesc, Entries;
  }

  /**
    * Reading the printed report back. Whatever the area names are, as long as each is one line,
    * the reader ends up with exactly one record for each magnet that has a non-blank area name,
    * none for anything else, and lists them by falling count.
    */
  lemma ReportRoundTrip(ms: seq<Magnet>)
    requires DistinctNumbers(ms) && forall m :: m in ms ==> Proper(m)
    ensures var rs := Parse(Report(ms));
            && Descending(rs)
            && (forall i, j :: 0 <= i < j < |rs| ==> rs[i].1.number != rs[j].1.number)
            && (forall i :: 0 <= i < |rs| ==>
                  rs[i].0 == rs[i].1.dupeCount && exists m :: m in ms && Visible(m) && RecordOf(rs[i].1, m))
            && (forall m :: m in ms && Visible(m) ==> exists i :: 0 <= i < |rs| && RecordOf(rs[i].1, m))
  {
    ReportSplits(ms);
    DictionaryIsExact(ms);
    EntriesSorted(ReadBack(ms));
    hide ReadBack, Report, RecordOf, Visible, Proper, SortDesc, Entries, Consistent, Descending;
    assert Parse(Report(ms)) == SortDesc(Entries(ReadBack(ms))) by { ParsedFrom(ms); }
    var rs, d := Parse(Report(ms)), ReadBack(ms);
    forall m | m in ms && Visible(m) ensures exists i :: 0 <= i < |rs| && RecordOf(rs[i].1, m) {
      var i :| 0 <= i < |rs| && rs[i].1 == d.at[m.number];
    }
  }

  lemma EntriesSorted(d: Dict)
    requires Consistent(d)
    ensures var rs := SortDesc(Entries(d));
            && Descending(rs)
            && (forall i, j :: 0 <= i < j < |rs| ==> rs[i].1.number != rs[j].1.number)
            && (forall i :: 0 <= i < |rs| ==>
                  rs[i].0 == rs[i].1.dupeCount && rs[i].1.number in d.at && rs[i].1 == d.at[rs[i].1.number])
            && (forall n :: n in d.at ==> exists i :: 0 <= i < |rs| && rs[i].1 == d.at[n])
  {
    SortDescSorts(Entries(d));
    DistinctStays(Entries(d), SortDesc(Entries(d)));
    EntriesRecorded(d);
    var rs := SortDesc(Entries(d));
    forall n | n in d.at ensures exists i :: 0 <= i < |rs| && rs[i].1 == d.at[n] {
      var i := RecordEntered(d, n);
      assert rs[i].1 == d.at[n];
    }
  }

  lemma EntriesRecorded(d: Dict)
    requires Consistent(d)
    ensures var rs := SortDesc(Entries(d));
            forall i :: 0 <= i < |rs| ==>
              rs[i].0 == rs[i].1.dupeCount && rs[i].1.number in d.at && rs[i].1 == d.at[rs[i].1.number]
  {
    var es := Entries(d);
    var rs := SortDesc(es);
    forall i | 0 <= i < |rs|
      ensures rs[i].0 == rs[i].1.dupeCount && rs[i].1.number in d.at && rs[i].1 == d.at[rs[i].1.number]
    {
      SortDescMember(es, rs[i]);
      assert rs[i] in rs && rs[i] in es;
    }
  }

  lemma RecordEntered(d: Dict, n: int) returns (i: nat)
    requires Consistent(d) && n in d.at
    ensures i < |SortDesc(Entries(d))| && SortDesc(Entries(d))[i].1 == d.at[n]
  {
    var k :| 0 <= k < |d.keys| && d.keys[k] == n;
    var entry := Entries(d)[k];
    SortDescMember(Entries(d), entry);
    i :| 0 <= i < |SortDesc(Entries(d))| && SortDesc(Entries(d))[i] == entry;
  }

  /** Reordering keeps numbers distinct. */
  lemma DistinctStays(es: seq<(int, Record)>, rs: seq<(int, Record)>)
    requires multiset(es) == multiset(rs)
    requires forall i, j :: 0 <= i < j < |es| ==> es[i].1.number != es[j].1.number
    ensures forall i, j :: 0 <= i < j < |rs| ==> rs[i].1.number != rs[j].1.number
  {
    forall i, j | 0 <= i < j < |rs| ensures rs[i].1.number != rs[j].1.number {
      if rs[i].1.number == rs[j].1.number {
        assert rs[i] in multiset(es) && rs[j] in multiset(es);
        assert rs[i] == rs[j];
        assert rs == rs[..i] + [rs[i]] + rs[i + 1..j] + [rs[j]] + rs[j + 1..];
        assert multiset(rs)[rs[i]] >= 2;
        OnceOnly(es, rs[i]);
      }
    }
  }

  lemma {:induction false} OnceOnly(es: seq<(int, Record)>, x: (int, Record))
    requires forall i, j :: 0 <= i < j < |es| ==> es[i].1.number != es[j].1.number
    ensures multiset(es)[x] <= 1
  {
    if es != [] {
      OnceOnly(es[1..], x);
      assert es == [es[0]] + es[1..];
      assert forall j :: 0 <= j < |es[1..]| ==> es[1..][j] == es[j + 1];
      if es[0] == x {
        assert x !in es[1..];
      }
    }
  }

  lemma CountsAgree(ms: seq<Magnet>, ts: seq<(string, int, int)>)
    requires DistinctNumbers(ms) && forall t :: t in ts ==> FromMention(Mentions(ms), t)
    ensures forall i, j :: 0 <= i < j < |ts| && ts[i].1 == ts[j].1 ==> ts[i].2 == ts[j].2
  {
    MentionsMembers(ms);
    forall i, j | 0 <= i < j < |ts| && ts[i].1 == ts[j].1 ensures ts[i].2 == ts[j].2 {
      assert ts[i] in ts && ts[j] in ts;
      var p :| p in Mentions(ms) && Strip(p.0) != "" && ts[i] == TripleOf(p.0, p.1);
      var q :| q in Mentions(ms) && Strip(q.0) != "" && ts[j] == TripleOf(q.0, q.1);
      SameNumberSameMagnet(ms, p.1, q.1);
    }
  }

  lemma SameNumberSameMagnet(ms: seq<Magnet>, m: Magnet, m': Magnet)
    requires DistinctNumbers(ms) && m in ms && m' in ms && m.number == m'.number
    ensures m == m'
  {
    var i :| 0 <= i < |ms| && ms[i] == m;
    var j :| 0 <= j < |ms| && ms[j] == m';
    assert i == j;
  }

  lemma RecordIsOfMagnet(ms: seq<Magnet>, m: Magnet, ts: seq<(string, int, int)>, d: Dict)
    requires DistinctNumbers(ms) && m in ms && m.number in d.at
    requires ts == Triples(Mentions(ms), RankedAreas(Mentions(ms)))
    requires Holds(d, ts)
    ensures RecordOf(d.at[m.number], m)
  {
    var ps := Mentions(ms);
    MentionsMembers(ms);
    TriplesMembers(ps, RankedAreas(ps));
    var k :| 0 <= k < |ts| && ts[k].1 == m.number;
    assert ts[k] in ts;
    var q :| q in ps && Strip(q.0) != "" && ts[k] == TripleOf(q.0, q.1);
    SameNumberSameMagnet(ms, q.1, m);
    forall a ensures Named(ts, m.number, a) <==> a != "" && exists b :: b in m.areas && Strip(b) == a {
      if Named(ts, m.number, a) {
        var i :| 0 <= i < |ts| && ts[i].1 == m.number && ts[i].0 == a;
        assert ts[i] in ts;
        var p :| p in ps && Strip(p.0) != "" && ts[i] == TripleOf(p.0, p.1);
        SameNumberSameMagnet(ms, p.1, m);
      }
      if a != "" && exists b :: b in m.areas && Strip(b) == a {
        var b :| b in m.areas && Strip(b) == a;
        assert (b, m) in ps;
        RankedAreasMembers(ps, b, m);
        var i :| 0 <= i < |ts| && ts[i] == TripleOf(b, m);
      }
    }
  }

  /** The areas come back as printed, "(unlabeled)" aside, exactly when no name is blank or padded. */
  lemma AreasSurviveIffTrimmed(r: Record, m: Magnet)
    requires RecordOf(r, m)
    ensures (forall a :: a in r.areas <==> a in m.areas && a != UNLABELED) <==>
              (forall a :: a in m.areas ==> a != "" && Strip(a) == a)
  {
    if forall a :: a in r.areas <==> a in m.areas && a != UNLABELED {
      forall a | a in m.areas ensures a != "" && Strip(a) == a {
        if a == UNLABELED {
          UnlabeledIsTrimmed();
        } else {
          assert a in r.areas;
          var b :| b in m.areas && Strip(b) == a;
          StripTwice(b);
        }
      }
    }
  }

  /** A padded area name comes back without its padding, as another name. */
  lemma PaddedAreaChanges(host: string, number: nat, count: nat)
    requires ProperHost(host)
    ensures var rs := Parse(Report([Padded(host, number, count)]));
            exists i :: 0 <= i < |rs| && rs[i].1.number == number
                        && "editor" in rs[i].1.areas && " editor" !in rs[i].1.areas
  {
    var m := Padded(host, number, count);
    var rs := Parse(Report([m]));
    EditorIsTrimmed();
    assert Proper(m) by {
      assert ProperHost(host) && m.url == host + ISSUES + Decimal(number);
    }
    assert m.areas[0] == " editor" && Visible(m);
    hide Strip, Proper, ProperHost, Parse, Report, Decimal, Descending, RecordOf;
    ReportRoundTrip([m]);
    assert [m][0] == m;
    var i :| 0 <= i < |rs| && RecordOf(rs[i].1, m);
    PaddedRecord(rs[i].1, m);
  }

  function Padded(host: string, number: nat, count: nat): Magnet {
    Magnet(number, host + ISSUES + Decimal(number), [" editor"], count)
  }

  lemma PaddedRecord(r: Record, m: Magnet)
    requires RecordOf(r, m) && m.areas == [" editor"]
    ensures r.number == m.number && "editor" in r.areas && " editor" !in r.areas
  {
    EditorIsTrimmed();
    hide Strip;
    assert m.areas[0] == " editor";
  }

  lemma EditorIsTrimmed()
    ensures Strip(" editor") == "editor" && "editor" != UNLABELED && "editor" != " editor" && '\n' !in " editor"
  {
    assert LStrip(" editor") == "editor" by {
      assert " editor"[1..] == "editor";
    }
  }

  lemma UnlabeledIsTrimmed()
    ensures Strip(UNLABELED) == UNLABELED
  {
  }
}
