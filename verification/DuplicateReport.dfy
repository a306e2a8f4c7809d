/**
  * The duplicate-magnet report: one script prints the magnets grouped by area, another reads the
  * printed text back and ungroups it.
  */
module DuplicateReport {
  import opened Wrappers
  import opened PyText
  import opened Splitting
  import opened StableSort

  /** An issue many others duplicate, as the printing script collects it. */
  datatype Magnet = Magnet(number: nat, url: string, areas: seq<string>, count: nat)

  /** A magnet as the reading script knows it. */
  datatype Record = Record(number: int, areas: seq<string>, dupeCount: int)

  const UNLABELED := "(unlabeled)"
  const INTRO := IntroStart() + IntroEnd()
  const ISSUES := "/issues/"

  function IntroStart(): string {
    "These are the issues " + "that are frequently re-reported. "
  }

  function IntroEnd(): string {
    "The list is generated " + "regularly by running a script."
  }

  // ---- the printer

  /** Every mention of a magnet under one of its areas, in the order the script meets them. */
  function Mentions(ms: seq<Magnet>): seq<(string, Magnet)> {
    if ms == [] then [] else Mentions(ms[..|ms| - 1]) + Tagged(ms[|ms| - 1].areas, ms[|ms| - 1])
  }

  function Tagged(areas: seq<string>, m: Magnet): seq<(string, Magnet)> {
    seq(|areas|, i requires 0 <= i < |areas| => (areas[i], m))
  }

  /** The keys of a dictionary filled in this order. */
  function AreaKeys(ps: seq<(string, Magnet)>): seq<string> {
    if ps == [] then []
    else
      var keys := AreaKeys(ps[..|ps| - 1]);
      if ps[|ps| - 1].0 in keys then keys else keys + [ps[|ps| - 1].0]
  }

  function Group(ps: seq<(string, Magnet)>, area: string): seq<Magnet> {
    if ps == [] then []
    else Group(ps[..|ps| - 1], area) + if ps[|ps| - 1].0 == area then [ps[|ps| - 1].1] else []
  }

  function Total(ps: seq<(string, Magnet)>, area: string): nat {
    if ps == [] then 0
    else Total(ps[..|ps| - 1], area) + if ps[|ps| - 1].0 == area then ps[|ps| - 1].1.count else 0
  }

  function WithTotals(ps: seq<(string, Magnet)>, keys: seq<string>): seq<(int, string)> {
    seq(|keys|, i requires 0 <= i < |keys| => (Total(ps, keys[i]) as int, keys[i]))
  }

  function RankedAreas(ps: seq<(string, Magnet)>): seq<(int, string)> {
    SortDesc(WithTotals(ps, AreaKeys(ps)))
  }

  function WithCounts(group: seq<Magnet>): seq<(int, Magnet)> {
    seq(|group|, i requires 0 <= i < |group| => (group[i].count as int, group[i]))
  }

  function Ranked(group: seq<Magnet>): seq<(int, Magnet)> {
    SortDesc(WithCounts(group))
  }

  /** Python's `:2d`. */
  function Pad2(s: string): string {
    if |s| < 2 then " " + s else s
  }

  function IssueLine(m: Magnet): string {
    "-   [" + Pad2(Decimal(m.count)) + " dupes] " + m.url
  }

  function IssueLines(xs: seq<(int, Magnet)>): seq<string> {
    seq(|xs|, i requires 0 <= i < |xs| => IssueLine(xs[i].1))
  }

  function Section(ps: seq<(string, Magnet)>, area: string): seq<string> {
    ["", "## " + area, ""] + IssueLines(Ranked(Group(ps, area)))
  }

  function Sections(ps: seq<(string, Magnet)>, areas: seq<(int, string)>): seq<string> {
    if areas == [] then []
    else Sections(ps, areas[..|areas| - 1]) + Section(ps, areas[|areas| - 1].1)
  }

  function ReportLines(ms: seq<Magnet>): seq<string> {
    [INTRO] + Sections(Mentions(ms), RankedAreas(Mentions(ms)))
  }

  function Report(ms: seq<Magnet>): string {
    Join(ReportLines(ms), '\n')
  }

  // ---- the reader

  /** A Python dictionary from issue numbers: it remembers the order its keys came in. */
  datatype Dict = Dict(keys: seq<int>, at: map<int, Record>)

  datatype State = State(area: string, magnets: Dict)

  predicate Consistent(d: Dict) {
    && (forall n <- d.at :: n in d.keys) && (forall i :: 0 <= i < |d.keys| ==> d.keys[i] in d.at)
    && (forall i, j :: 0 <= i < j < |d.keys| ==> d.keys[i] != d.keys[j])
    && (forall n <- d.at :: d.at[n].number == n)
  }

  function Add(d: Dict, area: string, number: int, count: int): (d': Dict)
    ensures Consistent(d) ==> Consistent(d')
  {
    if number in d.at then
      if area == UNLABELED then d
      else d.(at := d.at[number := d.at[number].(areas := d.at[number].areas + [area])])
    else
      Dict(d.keys + [number], d.at[number := Record(number, if area == UNLABELED then [] else [area], count)])
  }

  /** The count and the issue number on a line, unless it is not an issue line or does not parse. */
  function ParseLine(line: string): Option<(int, int)> {
    if line == "" || line[0] != '-' || IndexOf(line, ISSUES).None? then None
    else
      match (ParseToken(SecondPiece(line, "["), false), ParseToken(SecondPiece(line, ISSUES), true))
      case (Some(count), Some(number)) => Some((count, number))
      case _ => None
  }

  function ParseToken(piece: Option<string>, stripParens: bool): Option<int> {
    match piece
    case None => None
    case Some(p) =>
      match FirstToken(p)
      case None => None
      case Some(token) => ParseInt(if stripParens then RStripParens(token) else token)
  }

  function Read(st: State, line: string): (st': State)
    ensures Consistent(st.magnets) ==> Consistent(st'.magnets)
  {
    if "## " <= line then st.(area := Strip(line[3..]))
    else if st.area == "" then st
    else match ParseLine(line)
      case None => st
      case Some((count, number)) => st.(magnets := Add(st.magnets, st.area, number, count))
  }

  function ReadAll(st: State, lines: seq<string>): (st': State)
    ensures Consistent(st.magnets) ==> Consistent(st'.magnets)
  {
    if lines == [] then st else Read(ReadAll(st, lines[..|lines| - 1]), lines[|lines| - 1])
  }

  const START := State("", Dict([], map[]))

  function Entries(d: Dict): seq<(int, Record)>
    requires Consistent(d)
  {
    seq(|d.keys|, i requires 0 <= i < |d.keys| => (d.at[d.keys[i]].dupeCount, d.at[d.keys[i]]))
  }

  function Parse(body: string): seq<(int, Record)> {
    SortDesc(Entries(ReadAll(START, Split(body, '\n')).magnets))
  }

  // ---- the code

  ghost predicate Grouped(ps: seq<(string, Magnet)>, keys: seq<string>, byArea: map<string, seq<Magnet>>,
                          totals: map<string, nat>) {
    && keys == AreaKeys(ps)
    && (forall a :: a in byArea <==> a in keys) && (forall a :: a in totals <==> a in keys)
    && (forall a :: a in byArea ==> byArea[a] == Group(ps, a) && totals[a] == Total(ps, a))
  }

  lemma {:induction false} AbsentGroup(ps: seq<(string, Magnet)>, area: string)
    requires area !in AreaKeys(ps)
    ensures Group(ps, area) == [] && Total(ps, area) == 0
  {
    if ps != [] {
      AbsentGroup(ps[..|ps| - 1], area);
    }
  }

  lemma GroupedNone()
    ensures Grouped([], [], map[], map[])
  {
  }

  lemma GroupedStep(ps: seq<(string, Magnet)>, p: (string, Magnet), keys: seq<string>,
                    byArea: map<string, seq<Magnet>>, totals: map<string, nat>)
    requires Grouped(ps, keys, byArea, totals)
    ensures p.0 in byArea ==>
              Grouped(ps + [p], keys, byArea[p.0 := byArea[p.0] + [p.1]], totals[p.0 := totals[p.0] + p.1.count])
    ensures p.0 !in byArea ==>
              Grouped(ps + [p], keys + [p.0], byArea[p.0 := [p.1]], totals[p.0 := p.1.count])
  {
    assert (ps + [p])[..|ps|] == ps;
    if p.0 !in byArea {
      AbsentGroup(ps, p.0);
    }
  }

  method GroupByArea(ms: seq<Magnet>)
    returns (keys: seq<string>, byArea: map<string, seq<Magnet>>, totals: map<string, nat>)
    ensures Grouped(Mentions(ms), keys, byArea, totals)
  {
    GroupedNone();
    hide AreaKeys, Group, Total;
    keys, byArea, totals := [], map[], map[];
    ghost var ps: seq<(string, Magnet)> := [];
    for i := 0 to |ms|
      invariant ps == Mentions(ms[..i])
      invariant Grouped(ps, keys, byArea, totals)
    {
      var info := ms[i];
      ghost var before := ps;
      for j := 0 to |info.areas|
        invariant ps == before + Tagged(info.areas, info)[..j]
        invariant Grouped(ps, keys, byArea, totals)
      {
        var area := info.areas[j];
        GroupedStep(ps, (area, info), keys, byArea, totals);
        assert Tagged(info.areas, info)[..j + 1] == Tagged(info.areas, info)[..j] + [(area, info)];
        if area !in byArea {
          keys := keys + [area];
          byArea := byArea[area := []];
          totals := totals[area := 0];
        }
        byArea := byArea[area := byArea[area] + [info]];
        totals := totals[area := totals[area] + info.count];
        ps := ps + [(area, info)];
      }
      assert ms[..i + 1][..i] == ms[..i];
    }
    assert ms[..|ms|] == ms;
  }

  lemma {:induction false} KeysMembers(ps: seq<(string, Magnet)>)
    ensures forall a, m :: (a, m) in ps ==> a in AreaKeys(ps)
    ensures forall a :: a in AreaKeys(ps) ==> exists m :: (a, m) in ps
  {
    if ps != [] {
      var n := |ps| - 1;
      KeysMembers(ps[..n]);
      assert ps == ps[..n] + [ps[n]];
      forall a | a in AreaKeys(ps) ensures exists m :: (a, m) in ps {
        if a !in AreaKeys(ps[..n]) {
          assert (a, ps[n].1) in ps;
        }
      }
    }
  }

  lemma RankedAreaIsKey(ps: seq<(string, Magnet)>, k: nat)
    requires k < |RankedAreas(ps)|
    ensures RankedAreas(ps)[k].1 in AreaKeys(ps)
  {
    SortDescMembers(WithTotals(ps, AreaKeys(ps)));
    var ranked := RankedAreas(ps);
    assert ranked[k] in ranked;
  }

  method AppendSection(before: seq<string>, area: string, group: seq<Magnet>) returns (lines: seq<string>)
    ensures lines == before + (["", "## " + area, ""] + IssueLines(Ranked(group)))
  {
    var issues := Sort(WithCounts(group));
    lines := before + ["", "## " + area, ""];
    ghost var head := lines;
    for k := 0 to |issues|
      invariant lines == head + IssueLines(issues)[..k]
    {
      lines := lines + [IssueLine(issues[k].1)];
    }
  }

  method AppendSections(ghost ps: seq<(string, Magnet)>, before: seq<string>, ranked: seq<(int, string)>,
                        byArea: map<string, seq<Magnet>>)
    returns (lines: seq<string>)
    requires forall i :: 0 <= i < |ranked| ==> ranked[i].1 in byArea && byArea[ranked[i].1] == Group(ps, ranked[i].1)
    ensures lines == before + Sections(ps, ranked)
  {
    hide Ranked, Group, IssueLines;
    lines := before;
    ghost var done: seq<string> := [];
    for i := 0 to |ranked|
      invariant done == Sections(ps, ranked[..i]) && lines == before + done
    {
      var area := ranked[i].1;
      lines := AppendSection(lines, area, byArea[area]);
      assert ranked[..i + 1][..i] == ranked[..i];
      done := done + Section(ps, area);
    }
    assert ranked[..|ranked|] == ranked;
  }

  method BuildMarkdownBody(ms: seq<Magnet>) returns (body: string)
    ensures body == Report(ms)
  {
    var keys, byArea, totals := GroupByArea(ms);
    ghost var ps := Mentions(ms);
    var withTotals := seq(|keys|, i requires 0 <= i < |keys| && keys[i] in totals => (totals[keys[i]] as int, keys[i]));
    assert withTotals == WithTotals(ps, keys);
    var ranked := Sort(withTotals);
    forall i | 0 <= i < |ranked| ensures ranked[i].1 in byArea {
      RankedAreaIsKey(ps, i);
    }
    var lines := AppendSections(ps, [INTRO], ranked, byArea);
    body := Join(lines, '\n');
  }

  method ParseDuplicateMagnets(body: string) returns (magnetList: seq<(int, Record)>)
    ensures magnetList == Parse(body)
  {
    var keys: seq<int>, magnets: map<int, Record> := [], map[];
    var currentArea := "";  // stands for None as well: the reader treats both as no area
    var lines := Split(body, '\n');
    for ix := 0 to |lines|
      invariant State(currentArea, Dict(keys, magnets)) == ReadAll(START, lines[..ix])
    {
      var line := lines[ix];
      assert lines[..ix + 1][..ix] == lines[..ix];
      if "## " <= line {
        currentArea := Strip(line[3..]);
      } else if currentArea != "" {
        match ParseLine(line) {
          case None =>
          case Some((dupeCount, number)) =>
            var isUnlabeled := currentArea == UNLABELED;
            if number in magnets {
              if !isUnlabeled {
                var known := magnets[number];
                magnets := magnets[number := known.(areas := known.areas + [currentArea])];
              }
            } else {
              keys := keys + [number];
              magnets := magnets[number := Record(number, if isUnlabeled then [] else [currentArea], dupeCount)];
            }
        }
      }
    }
    assert lines[..|lines|] == lines;
    assert Consistent(Dict(keys, magnets));
    magnetList := Sort(Entries(Dict(keys, magnets)));
  }
}
