/** The excerpts a pending diff shows: changed hunks and revealed ranges, sorted and swept together. */
module ExcerptRanges {
  datatype Point = Point(row: nat, column: nat)

  /** A half-open range of buffer positions. */
  datatype Range = Range(start: Point, end: Point)

  predicate Le(p: Point, q: Point) {
    p.row < q.row || (p.row == q.row && p.column <= q.column)
  }

  predicate Lt(p: Point, q: Point) {
    !Le(q, p)
  }

  function Max(p: Point, q: Point): Point {
    if Le(p, q) then q else p
  }

  /** Anchors resolve in buffer order, so a range never ends before it starts. It may be empty. */
  predicate Ordered(rs: seq<Range>) {
    forall i :: 0 <= i < |rs| ==> Le(rs[i].start, rs[i].end)
  }

  /** The sort key: by start, longest first. */
  predicate KeyLe(a: Range, b: Range) {
    Lt(a.start, b.start) || (a.start == b.start && Le(b.end, a.end))
  }

  predicate SortedByKey(rs: seq<Range>) {
    forall i, j :: 0 <= i < j < |rs| ==> KeyLe(rs[i], rs[j])
  }

  function Insert(r: Range, rs: seq<Range>): seq<Range> {
    if rs == [] || KeyLe(r, rs[0]) then [r] + rs else [rs[0]] + Insert(r, rs[1..])
  }

  function Sorted(rs: seq<Range>): seq<Range> {
    if rs == [] then [] else Insert(rs[0], Sorted(rs[1..]))
  }

  function Widen(range: Range, next: Range): Range {
    Range(range.start, Max(range.end, next.end))
  }

  /** Sweeping on from a current range over the rest of a sorted list. */
  function Sweep(range: Range, rest: seq<Range>): seq<Range>
    decreases |rest|
  {
    if rest == [] then [range]
    else if Le(rest[0].start, range.end) then Sweep(Widen(range, rest[0]), rest[1..])
    else [range] + Sweep(rest[0], rest[1..])
  }

  function Merge(rs: seq<Range>): seq<Range> {
    if rs == [] then [] else Sweep(rs[0], rs[1..])
  }

  function Excerpts(rs: seq<Range>): seq<Range> {
    Merge(Sorted(rs))
  }

  ghost predicate Covers(rs: seq<Range>, p: Point) {
    exists i :: 0 <= i < |rs| && Le(rs[i].start, p) && Lt(p, rs[i].end)
  }

  /** Increasing order, with at least one uncovered position between neighbours. */
  predicate Separated(rs: seq<Range>) {
    Ordered(rs) && forall i, j :: 0 <= i < j < |rs| ==> Lt(rs[i].end, rs[j].start)
  }

  predicate NonEmpty(rs: seq<Range>) {
    forall i :: 0 <= i < |rs| ==> Lt(rs[i].start, rs[i].end)
  }

  ghost predicate SameCover(a: seq<Range>, b: seq<Range>) {
    forall p :: Covers(a, p) <==> Covers(b, p)
  }

  // ---- sorting

  lemma KeyIsTransitive()
    ensures forall a, b, c :: KeyLe(a, b) && KeyLe(b, c) ==> KeyLe(a, c)
    ensures forall a, b :: KeyLe(a, b) || KeyLe(b, a)
  {
  }

  lemma {:induction false} InsertSorts(r: Range, rs: seq<Range>)
    requires SortedByKey(rs)
    ensures SortedByKey(Insert(r, rs)) && multiset(Insert(r, rs)) == multiset{r} + multiset(rs)
  {
    hide Le, Lt;
    KeyIsTransitive();
    if rs != [] && !KeyLe(r, rs[0]) {
      InsertSorts(r, rs[1..]);
      var tail := Insert(r, rs[1..]);
      assert rs == [rs[0]] + rs[1..];
      forall j | 0 <= j < |tail| ensures KeyLe(rs[0], tail[j]) {
        assert tail[j] in multiset(tail);
        assert tail[j] == r || tail[j] in rs[1..];
      }
    }
  }

  lemma {:induction false} SortedSorts(rs: seq<Range>)
    ensures SortedByKey(Sorted(rs)) && multiset(Sorted(rs)) == multiset(rs)
  {
    if rs != [] {
      SortedSorts(rs[1..]);
      InsertSorts(rs[0], Sorted(rs[1..]));
      assert rs == [rs[0]] + rs[1..];
    }
  }

  lemma HeadIsLeast(a: seq<Range>, r: Range)
    requires SortedByKey(a) && r in a
    ensures KeyLe(a[0], r)
  {
  }

  lemma KeyIsAntisymmetric(r: Range, q: Range)
    requires KeyLe(r, q) && KeyLe(q, r)
    ensures r == q
  {
  }

  lemma TailOf(a: seq<Range>)
    requires a != []
    ensures multiset(a[1..]) == multiset(a) - multiset{a[0]}
    ensures SortedByKey(a) ==> SortedByKey(a[1..])
  {
    assert a == [a[0]] + a[1..];
  }

  /** The key determines the range, so sorting has one possible outcome, stable or not. */
  lemma {:induction false} SortingIsUnique(a: seq<Range>, b: seq<Range>)
    requires SortedByKey(a) && SortedByKey(b) && multiset(a) == multiset(b)
    ensures a == b
  {
    assert |a| == |multiset(a)| == |multiset(b)| == |b|;
    if a != [] {
      assert a[0] in multiset(b) && b[0] in multiset(a);
      HeadIsLeast(a, b[0]);
      HeadIsLeast(b, a[0]);
      KeyIsAntisymmetric(a[0], b[0]);
      hide KeyLe;
      TailOf(a);
      TailOf(b);
      SortingIsUnique(a[1..], b[1..]);
      assert a == [a[0]] + a[1..] && b == [b[0]] + b[1..];
    }
  }

  // ---- sweeping

  /** A current range that starts no later than the rest of a start-sorted list. */
  predicate Sweepable(range: Range, rest: seq<Range>) {
    && Le(range.start, range.end) && Ordered(rest)
    && (forall i :: 0 <= i < |rest| ==> Le(range.start, rest[i].start))
    && (forall i, j :: 0 <= i < j < |rest| ==> Le(rest[i].start, rest[j].start))
  }

  lemma SweepableStep(range: Range, rest: seq<Range>)
    requires Sweepable(range, rest) && rest != []
    ensures Sweepable(Widen(range, rest[0]), rest[1..]) && Sweepable(rest[0], rest[1..])
  {
  }

  lemma {:induction false} SweepSeparates(range: Range, rest: seq<Range>)
    requires Sweepable(range, rest)
    ensures |Sweep(range, rest)| > 0 && Sweep(range, rest)[0].start == range.start
    ensures Separated(Sweep(range, rest))
    decreases |rest|
  {
    if rest != [] {
      SweepableStep(range, rest);
      if Le(rest[0].start, range.end) {
        SweepSeparates(Widen(range, rest[0]), rest[1..]);
      } else {
        SweepSeparates(rest[0], rest[1..]);
        PrependSeparated(range, Sweep(rest[0], rest[1..]));
      }
    }
  }

  lemma PrependSeparated(range: Range, m: seq<Range>)
    requires Le(range.start, range.end) && Separated(m) && m != [] && Lt(range.end, m[0].start)
    ensures Separated([range] + m)
  {
    forall j | 0 <= j < |m| ensures Lt(range.end, m[j].start) {
      assert j > 0 ==> Lt(m[0].end, m[j].start) && Le(m[0].start, m[0].end);
    }
  }

  lemma {:induction false} SweepCovers(range: Range, rest: seq<Range>, p: Point)
    requires Sweepable(range, rest)
    ensures Covers(Sweep(range, rest), p) <==> Covers([range] + rest, p)
    decreases |rest|
  {
    if rest == [] {
      assert [range] + rest == [range];
    } else {
      var next, tail := rest[0], rest[1..];
      SweepableStep(range, rest);
      assert rest == [next] + tail;
      CoversHead(range, rest, p);
      CoversHead(next, tail, p);
      if Le(next.start, range.end) {
        SweepCovers(Widen(range, next), tail, p);
        CoversHead(Widen(range, next), tail, p);
      } else {
        SweepCovers(next, tail, p);
        CoversHead(range, Sweep(next, tail), p);
      }
    }
  }

  lemma CoversHead(range: Range, rest: seq<Range>, p: Point)
    ensures Covers([range] + rest, p) <==> (Le(range.start, p) && Lt(p, range.end)) || Covers(rest, p)
  {
    var all := [range] + rest;
    if Covers(rest, p) {
      var i :| 0 <= i < |rest| && Le(rest[i].start, p) && Lt(p, rest[i].end);
      assert all[i + 1] == rest[i];
    }
    if Le(range.start, p) && Lt(p, range.end) {
      assert all[0] == range;
    }
    if Covers(all, p) {
      var i :| 0 <= i < |all| && Le(all[i].start, p) && Lt(p, all[i].end);
      assert i > 0 ==> all[i] == rest[i - 1];
    }
  }

  lemma PermutedCover(a: seq<Range>, b: seq<Range>, p: Point)
    requires multiset(a) == multiset(b)
    ensures Covers(a, p) ==> Covers(b, p)
  {
    if Covers(a, p) {
      var i :| 0 <= i < |a| && Le(a[i].start, p) && Lt(p, a[i].end);
      assert a[i] in multiset(b);
    }
  }

  lemma PermutedOrdered(a: seq<Range>, b: seq<Range>)
    requires multiset(a) == multiset(b) && Ordered(a)
    ensures Ordered(b)
  {
    forall i | 0 <= i < |b| ensures Le(b[i].start, b[i].end) {
      assert b[i] in multiset(a);
    }
  }

  // ---- what the excerpts promise

  lemma SortedIsSweepable(sorted: seq<Range>)
    requires sorted != [] && SortedByKey(sorted) && Ordered(sorted)
    ensures Sweepable(sorted[0], sorted[1..])
  {
  }

  /** Excerpts come in increasing order with a strict gap between neighbours, and show what was asked for. */
  lemma ExcerptsAreSeparatedAndExact(rs: seq<Range>)
    requires Ordered(rs)
    ensures Separated(Excerpts(rs)) && SameCover(Excerpts(rs), rs)
  {
    SortedSorts(rs);
    var sorted := Sorted(rs);
    PermutedOrdered(rs, sorted);
    if sorted == [] {
      assert multiset(rs) == multiset{};
      assert |rs| == |multiset(rs)|;
    } else {
      SortedIsSweepable(sorted);
      SweepSeparates(sorted[0], sorted[1..]);
      forall p ensures Covers(Excerpts(rs), p) <==> Covers(rs, p) {
        assert sorted == [sorted[0]] + sorted[1..];
        SweepCovers(sorted[0], sorted[1..], p);
        PermutedCover(rs, sorted, p);
        PermutedCover(sorted, rs, p);
      }
    }
  }

  /** The order in which hunks and reveals arrive cannot be seen in the result. */
  lemma RevealOrderIsInvisible(a: seq<Range>, b: seq<Range>)
    requires multiset(a) == multiset(b)
    ensures Excerpts(a) == Excerpts(b)
  {
    SortedSorts(a);
    SortedSorts(b);
    SortingIsUnique(Sorted(a), Sorted(b));
  }

  lemma {:induction false} SeparatedIsFixed(rs: seq<Range>)
    requires Separated(rs)
    ensures Sorted(rs) == rs && Merge(rs) == rs
  {
    if rs != [] {
      var tail := rs[1..];
      SeparatedIsFixed(tail);
      assert forall i :: 0 <= i < |tail| ==> tail[i] == rs[i + 1];
      assert rs == [rs[0]] + tail;
    }
  }

  lemma ExcerptsIdempotent(rs: seq<Range>)
    requires Ordered(rs)
    ensures Excerpts(Excerpts(rs)) == Excerpts(rs)
  {
    ExcerptsAreSeparatedAndExact(rs);
    SeparatedIsFixed(Excerpts(rs));
  }

  /** A covered set has only one separated list of non-empty ranges. */
  lemma {:induction false} SeparatedFormIsUnique(a: seq<Range>, b: seq<Range>)
    requires Separated(a) && Separated(b) && NonEmpty(a) && NonEmpty(b) && SameCover(a, b)
    ensures a == b
  {
    if a == [] || b == [] {
      if a != [] { FirstIsCovered(a); assert false; }
      if b != [] { FirstIsCovered(b); assert false; }
    } else {
      FirstIsCovered(a);
      FirstIsCovered(b);
      assert a[0].start == b[0].start by {
        StartsNoEarlier(a, b);
        StartsNoEarlier(b, a);
      }
      EndsNoEarlier(a, b);
      EndsNoEarlier(b, a);
      assert a == [a[0]] + a[1..] && b == [b[0]] + b[1..];
      forall p ensures Covers(a[1..], p) <==> Covers(b[1..], p) {
        CoversHead(a[0], a[1..], p);
        CoversHead(b[0], b[1..], p);
        TailIsBeyond(a, p);
        TailIsBeyond(b, p);
      }
      SeparatedFormIsUnique(a[1..], b[1..]);
    }
  }

  lemma FirstIsCovered(a: seq<Range>)
    requires a != [] && NonEmpty(a)
    ensures Covers(a, a[0].start)
  {
  }

  lemma StartsNoEarlier(a: seq<Range>, b: seq<Range>)
    requires a != [] && Separated(a) && NonEmpty(a) && b != [] && Covers(a, b[0].start)
    ensures Le(a[0].start, b[0].start)
  {
  }

  lemma EndsNoEarlier(a: seq<Range>, b: seq<Range>)
    requires a != [] && b != [] && Separated(a) && NonEmpty(a) && NonEmpty(b) && SameCover(a, b)
    requires a[0].start == b[0].start
    ensures Le(b[0].end, a[0].end)
  {
    var p := a[0].end;
    if Lt(p, b[0].end) {
      assert Covers(b, p);
      assert false;
    }
  }

  lemma TailIsBeyond(a: seq<Range>, p: Point)
    requires a != [] && Separated(a)
    ensures Covers(a[1..], p) ==> Lt(a[0].end, p)
  {
  }

  lemma {:induction false} SweepKeepsNonEmpty(range: Range, rest: seq<Range>)
    requires Lt(range.start, range.end) && NonEmpty(rest)
    ensures NonEmpty(Sweep(range, rest))
    decreases |rest|
  {
    if rest != [] {
      if Le(rest[0].start, range.end) {
        SweepKeepsNonEmpty(Widen(range, rest[0]), rest[1..]);
      } else {
        SweepKeepsNonEmpty(rest[0], rest[1..]);
      }
    }
  }

  /** Canonical form: lists of non-empty ranges over the same positions give the same excerpts. */
  lemma ExcerptsAreCanonical(a: seq<Range>, b: seq<Range>)
    requires NonEmpty(a) && NonEmpty(b) && SameCover(a, b)
    ensures Excerpts(a) == Excerpts(b)
  {
    ExcerptsAreSeparatedAndExact(a);
    ExcerptsAreSeparatedAndExact(b);
    ExcerptsNonEmpty(a);
    ExcerptsNonEmpty(b);
    assert SameCover(Excerpts(a), Excerpts(b)) by {
      forall p ensures Covers(Excerpts(a), p) <==> Covers(Excerpts(b), p) {
        assert Covers(a, p) <==> Covers(b, p);
      }
    }
    SeparatedFormIsUnique(Excerpts(a), Excerpts(b));
  }

  lemma ExcerptsNonEmpty(a: seq<Range>)
    requires NonEmpty(a)
    ensures NonEmpty(Excerpts(a))
  {
    SortedSorts(a);
    var sorted := Sorted(a);
    forall i | 0 <= i < |sorted| ensures Lt(sorted[i].start, sorted[i].end) {
      assert sorted[i] in multiset(a);
    }
    if sorted != [] {
      SweepKeepsNonEmpty(sorted[0], sorted[1..]);
    }
  }

  // ---- the code

  /** `sort_unstable_by_key`: any sorted permutation will do. */
  method SortUnstableByKey(rs: seq<Range>) returns (sorted: seq<Range>)
    ensures SortedByKey(sorted) && multiset(sorted) == multiset(rs)
  {
    sorted := [];
    for i := 0 to |rs|
      invariant SortedByKey(sorted) && multiset(sorted) == multiset(rs[..i])
    {
      InsertSorts(rs[i], sorted);
      assert rs[..i + 1] == rs[..i] + [rs[i]];
      sorted := Insert(rs[i], sorted);
    }
    assert rs[..|rs|] == rs;
  }

  method ExcerptRanges(hunks: seq<Range>, revealed: seq<Range>) returns (merged: seq<Range>)
    ensures merged == Excerpts(hunks + revealed)
  {
    var ranges := SortUnstableByKey(hunks + revealed);
    SortedSorts(hunks + revealed);
    SortingIsUnique(ranges, Sorted(hunks + revealed));
    merged := MergeSorted(ranges);
  }

  method MergeSorted(ranges: seq<Range>) returns (merged: seq<Range>)
    ensures merged == Merge(ranges)
  {
    hide Sweep, Merge, Le, Max;
    merged := [];
    MergeOfNone();
    var ix := 0;
    ghost var all := Merge(ranges);
    ghost var ahead := all;  // what the rest of the sweep will push
    assert ranges[0..] == ranges;
    while ix < |ranges|
      invariant 0 <= ix <= |ranges|
      invariant merged + ahead == all && ahead == Merge(ranges[ix..])
    {
      var range := ranges[ix];
      SweepStarts(ranges, ix);
      ix := ix + 1;
      while ix < |ranges| && Le(ranges[ix].start, range.end)
        invariant ix <= |ranges|
        invariant ahead == Sweep(range, ranges[ix..])
      {
        SweepOn(range, ranges, ix);
        range := Range(range.start, Max(range.end, ranges[ix].end));
        ix := ix + 1;
      }
      SweepOn(range, ranges, ix);
      merged, ahead := merged + [range], ahead[1..];
    }
    assert ranges[ix..] == [];
  }

  lemma MergeOfNone()
    ensures Merge([]) == []
  {
  }

  lemma SweepStarts(ranges: seq<Range>, ix: nat)
    requires ix < |ranges|
    ensures Merge(ranges[ix..]) == Sweep(ranges[ix], ranges[ix + 1..])
  {
    assert ranges[ix..][1..] == ranges[ix + 1..];
  }

  /** One step of the sweep, seen from a position in the whole list. */
  lemma SweepOn(range: Range, ranges: seq<Range>, ix: nat)
    requires ix <= |ranges|
    ensures ix < |ranges| && Le(ranges[ix].start, range.end) ==>
              Sweep(range, ranges[ix..]) == Sweep(Widen(range, ranges[ix]), ranges[ix + 1..])
    ensures ix == |ranges| || !Le(ranges[ix].start, range.end) ==>
              Sweep(range, ranges[ix..]) == [range] + Merge(ranges[ix..])
  {
    if ix < |ranges| {
      assert ranges[ix..][1..] == ranges[ix + 1..];
    }
  }
}
