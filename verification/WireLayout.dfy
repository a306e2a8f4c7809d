/**
  * Where the parts of numbers, range lists, vendor fields and restrictions stand on the wire, bit by
  * bit, told without the encoders.
  */
module WireLayout {
  import opened BitStrings
  import opened ConsentVector
  import opened Restrictions

  // ---- numbers and bit fields

  /** n without its last k bits. */
  function Halved(n: nat, k: nat): nat {
    if k == 0 then n else Halved(n / 2, k - 1)
  }

  /** Bit i of n written with `width` bits, the highest first. */
  predicate BitOf(n: nat, width: nat, i: nat)
    requires i < width
  {
    Halved(n, width - 1 - i) % 2 == 1
  }

  predicate NumberAt(bits: Bits, at: nat, width: nat, n: int) {
    && at + width <= |bits| && n >= 0 && Halved(n, width) == 0
    && forall i: nat :: i < width ==> (bits[at + i] <==> BitOf(n, width, i))
  }

  /** One bit for each id from 1 to `width`. */
  predicate IdsAt(bits: Bits, at: nat, width: nat, ids: set<nat>) {
    at + width <= |bits| && forall i: nat :: 0 < i <= width ==> (bits[at + i - 1] <==> i in ids)
  }

  lemma {:induction false} BitsOfValue(b: Bits, i: nat)
    requires i < |b|
    ensures b[i] <==> BitOf(Value(b), |b|, i)
  {
    var n := |b| - 1;
    assert Value(b) / 2 == Value(b[..n]);
    if i < n {
      BitsOfValue(b[..n], i);
    }
  }

  lemma {:induction false} NothingLeft(b: Bits)
    ensures Halved(Value(b), |b|) == 0
  {
    if b != [] {
      assert Value(b) / 2 == Value(b[..|b| - 1]);
      NothingLeft(b[..|b| - 1]);
    }
  }

  lemma NumberStands(bits: Bits, at: nat, n: int, width: nat)
    requires EncodeInt(n, width).Ok? && At(bits, at, EncodeInt(n, width).value)
    ensures NumberAt(bits, at, width, n) && |EncodeInt(n, width).value| == width
  {
    var b := EncodeInt(n, width).value;
    IntRoundTrip(n, width);
    NothingLeft(b);
    hide EncodeInt, BitOf, Halved, Value;
    forall i: nat | i < width ensures bits[at + i] <==> BitOf(n, width, i) {
      BitsOfValue(b, i);
      assert bits[at + i] == bits[at..at + |b|][i];
    }
  }

  lemma IdsStand(bits: Bits, at: nat, ids: set<nat>, width: nat)
    requires At(bits, at, BitField(ids, width))
    ensures IdsAt(bits, at, width, ids)
  {
    forall i: nat | 0 < i <= width ensures bits[at + i - 1] <==> i in ids {
      assert bits[at + i - 1] == bits[at..at + width][i - 1] == BitField(ids, width)[i - 1];
    }
  }

  // ---- range lists

  function RangeSize(r: Range): nat {
    if r.first == r.last then 17 else 33
  }

  function RangesSize(rs: seq<Range>): nat {
    if rs == [] then 0 else RangeSize(rs[0]) + RangesSize(rs[1..])
  }

  /** Each range is a bit that says whether it has an end of its own, its first id, and that end. */
  predicate RangesAt(bits: Bits, at: nat, rs: seq<Range>)
    decreases |rs|
  {
    rs == [] ||
    (&& at < |bits| && (bits[at] <==> rs[0].first != rs[0].last)
     && NumberAt(bits, at + 1, 16, rs[0].first)
     && (rs[0].first != rs[0].last ==> NumberAt(bits, at + 17, 16, rs[0].last))
     && RangesAt(bits, at + RangeSize(rs[0]), rs[1..]))
  }

  lemma RangeStands(bits: Bits, at: nat, r: Range)
    requires EncodeRange(r).Ok? && At(bits, at, EncodeRange(r).value)
    ensures |EncodeRange(r).value| == RangeSize(r)
    ensures RangesAt(bits, at, [r])
  {
    hide EncodeInt, NumberAt;
    IntRoundTrip(r.first, VENDOR_BITS);
    var first := EncodeInt(r.first, VENDOR_BITS).value;
    var flag := [r.first != r.last];
    assert EncodeRange(r).value[..17] == flag + first;
    assert bits[at] == bits[at..at + |EncodeRange(r).value|][0];
    if r.first == r.last {
      AtSplits(bits, at, flag, first);
    } else {
      IntRoundTrip(r.last, VENDOR_BITS);
      var last := EncodeInt(r.last, VENDOR_BITS).value;
      AtSplits(bits, at, flag + first, last);
      AtSplits(bits, at, flag, first);
      NumberStands(bits, at + 17, r.last, VENDOR_BITS);
    }
    NumberStands(bits, at + 1, r.first, VENDOR_BITS);
    assert [r][1..] == [];
  }

  lemma {:induction false} RangesStand(bits: Bits, at: nat, rs: seq<Range>)
    requires EncodeRanges(rs).Ok? && At(bits, at, EncodeRanges(rs).value)
    ensures RangesAt(bits, at, rs) && |EncodeRanges(rs).value| == RangesSize(rs)
    decreases |rs|
  {
    hide EncodeRange, NumberAt;
    if rs != [] {
      var head, tail := EncodeRange(rs[0]).value, EncodeRanges(rs[1..]).value;
      AtSplits(bits, at, head, tail);
      RangeStands(bits, at, rs[0]);
      RangesStand(bits, at + |head|, rs[1..]);
      assert RangesAt(bits, at, [rs[0]]);
    }
  }

  predicate Covers(rs: seq<Range>, x: int) {
    exists i :: 0 <= i < |rs| && rs[i].first <= x <= rs[i].last
  }

  lemma {:induction false} CoversIff(rs: seq<Range>, x: nat)
    ensures Covers(rs, x) <==> x in AllIds(rs)
  {
    if rs != [] {
      CoversIff(rs[1..], x);
      if Covers(rs[1..], x) {
        var i :| 0 <= i < |rs[1..]| && rs[1..][i].first <= x <= rs[1..][i].last;
        assert rs[i + 1].first <= x <= rs[i + 1].last;
      }
      assert x in Ids(rs[0]) <==> rs[0].first <= x <= rs[0].last by {
        assert rs[0].first <= x <= rs[0].last ==> Within(x, rs[0].first, rs[0].last);
      }
      assert forall i :: 0 < i < |rs| ==> rs[i] == rs[1..][i - 1];
    }
  }

  // ---- vendor fields

  /** The unbroken runs of a set of ids: in order, with a gap between any two, and covering exactly the ids. */
  ghost predicate AreRuns(rs: seq<Range>, ids: set<nat>) {
    && (forall i :: 0 <= i < |rs| ==> rs[i].first <= rs[i].last)
    && Apart(rs)
    && (forall x: nat :: Covers(rs, x) <==> x in ids)
  }

  predicate EndsRun(r: Range, ids: set<nat>, l: nat) {
    r.first <= r.last <= l && r.last in ids && r.last + 1 !in ids
  }

  predicate Apart(rs: seq<Range>) {
    forall i, j :: 0 <= i < j < |rs| ==> rs[i].last + 1 < rs[j].first
  }

  lemma {:induction false} RunsAreApart(ids: set<nat>, l: nat)
    requires 0 !in ids
    ensures forall r :: r in RunsUpTo(ids, l) ==> EndsRun(r, ids, l)
    ensures Apart(RunsUpTo(ids, l))
  {
    if l > 0 {
      RunsAreApart(ids, l - 1);
      var rs := RunsUpTo(ids, l - 1);
      forall r | r in rs ensures EndsRun(r, ids, l - 1) && EndsRun(r, ids, l) {
      }
      if l in ids && l + 1 !in ids {
        RunIsUnbroken(ids, l);
        assert RunsUpTo(ids, l) == rs + [Range(RunStart(ids, l), l)];
        forall i | 0 <= i < |rs| ensures rs[i].last + 1 < RunStart(ids, l) {
          assert rs[i] in rs && rs[i].last + 1 !in ids;
        }
      }
    }
  }

  lemma RunsAreRuns(ids: set<nat>, max: nat)
    requires 0 !in ids && IsMax(ids, max)
    ensures AreRuns(RunsUpTo(ids, max), ids)
  {
    var rs := RunsUpTo(ids, max);
    RunsAreApart(ids, max);
    RunsHoldIds(ids, max);
    assert forall i :: 0 <= i < |rs| ==> rs[i] in rs;
    forall x: nat ensures Covers(rs, x) <==> x in ids {
      CoversIff(rs, x);
    }
  }

  /**
    * A vendor field: the largest id, a bit for the form, and then a bit for each id up to the largest,
    * or the number of runs and the runs.
    */
  ghost predicate VendorsAt(bits: Bits, at: nat, ids: set<nat>, end: nat) {
    exists max: nat ::
      && IsMax(ids, max) && NumberAt(bits, at, 16, max) && at + 16 < |bits|
      && if bits[at + 16] then RunsStandAt(bits, at + 17, ids, end)
         else IdsAt(bits, at + 17, max, ids) && end == at + 17 + max
  }

  ghost predicate RunsStandAt(bits: Bits, at: nat, ids: set<nat>, end: nat) {
    exists rs :: && AreRuns(rs, ids) && NumberAt(bits, at, 12, |rs|) && RangesAt(bits, at + 12, rs)
                 && end == at + 12 + RangesSize(rs)
  }

  lemma VendorsStand(bits: Bits, at: nat, ids: set<nat>, max: nat)
    requires 0 !in ids && IsMax(ids, max) && EncodeVendors(ids, max).Ok?
    requires At(bits, at, EncodeVendors(ids, max).value)
    ensures VendorsAt(bits, at, ids, at + |EncodeVendors(ids, max).value|)
  {
    hide EncodeInt, NumberAt, IsMax, EncodeRanges, RangesAt, IdsAt;
    var size, kind := EncodeInt(max, VENDOR_BITS).value, UsesRanges(ids, max);
    IntRoundTrip(max, VENDOR_BITS);
    var field := EncodeVendors(ids, max).value;
    assert field[16] == kind && bits[at + 16] == bits[at..at + |field|][16];
    if kind {
      var rs := RunsUpTo(ids, max);
      hide RunsUpTo, UsesRanges;
      IntRoundTrip(|rs|, COUNT_BITS);
      var count, body := EncodeInt(|rs|, COUNT_BITS).value, EncodeRanges(rs).value;
      AtSplits(bits, at, size + [true] + count, body);
      AtSplits(bits, at, size + [true], count);
      AtSplits(bits, at, size, [true]);
      NumberStands(bits, at + 17, |rs|, COUNT_BITS);
      RangesStand(bits, at + 29, rs);
      RunsAreRuns(ids, max);
      hide AreRuns;
      assert RunsStandAt(bits, at + 17, ids, at + |field|);
    } else {
      AtSplits(bits, at, size + [false], BitField(ids, max));
      AtSplits(bits, at, size, [false]);
      IdsStand(bits, at + 17, ids, max);
    }
    NumberStands(bits, at, max, VENDOR_BITS);
  }

  // ---- which form is chosen

  function Singles(rs: seq<Range>): nat {
    if rs == [] then 0 else Singles(rs[..|rs| - 1]) + if rs[|rs| - 1].first == rs[|rs| - 1].last then 1 else 0
  }

  lemma {:induction false} SizePush(rs: seq<Range>, r: Range)
    ensures RangesSize(rs + [r]) == RangesSize(rs) + RangeSize(r)
  {
    if rs == [] {
      assert [r][1..] == [] && RangesSize([]) == 0;
      assert RangesSize([r]) == RangeSize(r) + RangesSize([]);
    } else {
      SizePush(rs[1..], r);
      assert (rs + [r])[1..] == rs[1..] + [r];
    }
  }

  /** The estimate counts 16 bits for a run of one id, one too few, and half of a run still open. */
  lemma {:induction false} CostIsSize(ids: set<nat>, l: nat)
    requires 0 !in ids
    ensures var rs := RunsUpTo(ids, l);
            RangeCost(ids, l) == 29 + RangesSize(rs) - Singles(rs) + (if l in ids && l + 1 in ids then 17 else 0)
  {
    if l > 0 {
      CostIsSize(ids, l - 1);
      var rs := RunsUpTo(ids, l - 1);
      if l in ids && l + 1 !in ids {
        var r := Range(RunStart(ids, l), l);
        RunIsUnbroken(ids, l);
        SizePush(rs, r);
        assert (rs + [r])[..|rs|] == rs;
        assert r.first == r.last <==> l - 1 !in ids;
      }
    }
  }

  /**
    * The encoder means to take the shorter form. With ids above 45 it takes the range list exactly if
    * that is shorter than the bit field by more than it thinks: 16 bits, and one for every run of one id.
    */
  lemma RangesAreChosenIff(ids: set<nat>, max: nat)
    requires 0 !in ids && IsMax(ids, max)
    ensures var rs := RunsUpTo(ids, max);
            UsesRanges(ids, max) <==> max > 45 && 29 + RangesSize(rs) < 17 + max + 16 + Singles(rs)
  {
    if max > 0 {
      CostIsSize(ids, max - 1);
      var rs := RunsUpTo(ids, max - 1);
      var r := Range(RunStart(ids, max), max);
      assert RunsUpTo(ids, max) == rs + [r];
      RunIsUnbroken(ids, max);
      SizePush(rs, r);
      assert (rs + [r])[..|rs|] == rs;
    }
  }

  lemma {:induction false} NoRunsBetween(ids: set<nat>, a: nat, b: nat)
    requires a <= b && forall x :: a < x <= b ==> x !in ids
    ensures RunsUpTo(ids, b) == RunsUpTo(ids, a)
  {
    if a < b {
      NoRunsBetween(ids, a, b - 1);
    }
  }

  /** A run of one id after others adds 17 bits, of which the estimate counts 16. */
  lemma OneMoreSingle(ids: set<nat>, before: nat, l: nat)
    requires before < l && l in ids && l + 1 !in ids && forall x :: before < x < l ==> x !in ids
    requires 0 !in ids && (before == 0 || before + 1 < l)
    ensures var rs, more := RunsUpTo(ids, before), RunsUpTo(ids, l);
            |more| == |rs| + 1 && RangesSize(more) == RangesSize(rs) + 17 && Singles(more) == Singles(rs) + 1
  {
    NoRunsBetween(ids, before, l - 1);
    var rs := RunsUpTo(ids, before);
    assert l - 1 !in ids && RunStart(ids, l) == l;
    assert RunsUpTo(ids, l) == rs + [Range(RunStart(ids, l), l)];
    SizePush(rs, Range(l, l));
    assert (rs + [Range(l, l)])[..|rs|] == rs;
  }

  lemma NoRunsYet(ids: set<nat>)
    ensures var rs := RunsUpTo(ids, 0); rs == [] && RangesSize(rs) == 0 && Singles(rs) == 0
  {
  }

  lemma ThreeRuns(ids: set<nat>)
    requires ids == {2, 4, 46}
    ensures var rs := RunsUpTo(ids, 46); |rs| == 3 && RangesSize(rs) == 51 && Singles(rs) == 3
    ensures forall r :: r in RunsUpTo(ids, 46) ==> r.first < 65536 && r.last < 65536
  {
    hide RunsUpTo, RunStart, RangesSize, Singles;
    NoRunsYet(ids);
    OneMoreSingle(ids, 0, 2);
    OneMoreSingle(ids, 2, 4);
    OneMoreSingle(ids, 4, 46);
    RunsAreApart(ids, 46);
    assert forall r :: r in RunsUpTo(ids, 46) ==> EndsRun(r, ids, 46);
  }

  /** Vendors 2, 4 and 46 are written as three ranges, in 80 bits, although the bit field has 63. */
  lemma LongerFormIsChosen()
    ensures var ids: set<nat> := {2, 4, 46};
            && UsesRanges(ids, 46) && EncodeVendors(ids, 46).Ok?
            && |EncodeVendors(ids, 46).value| == 80 && 17 + |BitField(ids, 46)| == 63
  {
    var ids: set<nat> := {2, 4, 46};
    hide RunsUpTo, RunStart, RangesSize, Singles, EncodeInt, RangesStillPay, EncodeRanges;
    ThreeRuns(ids);
    RangesAreChosenIff(ids, 46);
    var rs := RunsUpTo(ids, 46);
    assert forall i :: 0 <= i < |rs| ==> rs[i] in rs;
    RangesEncoded(rs, 46);
  }

  lemma RangesEncoded(rs: seq<Range>, max: nat)
    requires |rs| < 4096 && max < 65536 && forall i :: 0 <= i < |rs| ==> rs[i].first < 65536 && rs[i].last < 65536
    ensures EncodeInt(max, 16).Ok? && EncodeInt(|rs|, 12).Ok? && EncodeRanges(rs).Ok?
    ensures |EncodeInt(max, 16).value| == 16 && |EncodeInt(|rs|, 12).value| == 12
    ensures |EncodeRanges(rs).value| == RangesSize(rs)
  {
    FieldSizes();
    IntFits(max, 16);
    IntFits(|rs|, 12);
    IntRoundTrip(max, 16);
    IntRoundTrip(|rs|, 12);
    RangesFit(rs);
    hide EncodeInt, EncodeRanges;
    var body := EncodeRanges(rs).value;
    assert body[0..|body|] == body;
    RangesStand(body, 0, rs);
  }

  // ---- restrictions

  /** The next vendor b after a is reached: none of the list is between them, but one is from b on. */
  ghost predicate Reached(a: nat, ids: set<nat>, listed: set<nat>) {
    exists b: nat, l: nat, v: nat ::
      && b in ids && l in listed && v in ids && a < b <= l <= v
      && forall x :: a < x < b ==> x !in ids && x !in listed
  }

  predicate EndsAt(rs: seq<Range>, x: int) {
    exists i :: 0 <= i < |rs| && rs[i].last == x
  }

  /** Ranges in order, each from one vendor to another or the same. */
  ghost predicate BetweenVendors(rs: seq<Range>, ids: set<nat>) {
    && (forall i :: 0 <= i < |rs| ==> rs[i].first <= rs[i].last && rs[i].first in ids && rs[i].last in ids)
    && (forall i, j :: 0 <= i < j < |rs| ==> rs[i].last < rs[j].first)
  }

  ghost predicate RightAt(rs: seq<Range>, a: nat, ids: set<nat>, listed: set<nat>) {
    Covers(rs, a) && (EndsAt(rs, a) <==> !Reached(a, ids, listed))
  }

  /** Such ranges over all vendors, ending exactly where the next is not reached. */
  ghost predicate Bridges(rs: seq<Range>, ids: set<nat>, listed: set<nat>) {
    && BetweenVendors(rs, ids)
    && (forall a :: a in ids ==> RightAt(rs, a, ids, listed))
  }

  predicate ClosesAt(vs: seq<nat>, listed: set<nat>, k: nat)
    requires k < |vs|
  {
    k == |vs| - 1 || vs[k + 1] > NextListed(listed, vs[k], vs[|vs| - 1])
  }

  /** Ranges over vs from position p on, the first of them open from c: in order and between vendors. */
  predicate InOrder(rs: seq<Range>, vs: seq<nat>, c: nat) {
    && (forall i :: 0 <= i < |rs| ==>
          c <= rs[i].first <= rs[i].last && rs[i].first in vs && rs[i].last in vs)
    && (forall i, j :: 0 <= i < j < |rs| ==> rs[i].last < rs[j].first)
  }

  lemma {:induction false} RangesAreInOrder(vs: seq<nat>, listed: set<nat>, p: nat, c: nat)
    requires p < |vs| && Increasing(vs) && c <= vs[p] && (c != 0 ==> c in vs)
    ensures InOrder(RangesFrom(vs, listed, p, c), vs, if c == 0 then vs[p] else c)
    decreases |vs| - p
  {
    hide NextListed;
    var first := if c == 0 then vs[p] else c;
    if p + 1 < |vs| {
      RangesAreInOrder(vs, listed, p + 1, if ClosesAt(vs, listed, p) then 0 else first);
    }
  }

  /** What the ranges from p on cover and end at, told in one predicate per position. */
  predicate EndsRight(rs: seq<Range>, vs: seq<nat>, listed: set<nat>, p: nat) {
    forall k :: p <= k < |vs| ==> Covers(rs, vs[k]) && (EndsAt(rs, vs[k]) <==> ClosesAt(vs, listed, k))
  }

  lemma {:induction false} RangesEndRight(vs: seq<nat>, listed: set<nat>, p: nat, c: nat)
    requires p < |vs| && Increasing(vs) && c <= vs[p] && (c != 0 ==> c in vs)
    ensures var rs, first := RangesFrom(vs, listed, p, c), if c == 0 then vs[p] else c;
            && EndsRight(rs, vs, listed, p)
            && (forall x :: first <= x <= vs[p] ==> Covers(rs, x)) && (forall x :: x < vs[p] ==> !EndsAt(rs, x))
    decreases |vs| - p
  {
    hide NextListed, Covers, EndsAt;
    var first := if c == 0 then vs[p] else c;
    if ClosesAt(vs, listed, p) {
      var rest := RangesFrom(vs, listed, p + 1, 0);
      PushedInFront(Range(first, vs[p]), rest);
      if p + 1 < |vs| {
        RangesEndRight(vs, listed, p + 1, 0);
      } else {
        assert rest == [];
        NoRanges();
      }
    } else {
      RangesEndRight(vs, listed, p + 1, first);
    }
  }

  lemma NoRanges()
    ensures forall x: int :: !Covers([], x) && !EndsAt([], x)
  {
  }

  lemma PushedInFront(r: Range, rs: seq<Range>)
    requires r.first <= r.last
    ensures forall x: int :: Covers([r] + rs, x) <==> r.first <= x <= r.last || Covers(rs, x)
    ensures forall x: int :: EndsAt([r] + rs, x) <==> x == r.last || EndsAt(rs, x)
  {
    var all := [r] + rs;
    assert all[0] == r && forall i :: 0 <= i < |rs| ==> all[i + 1] == rs[i];
    assert forall i :: 0 < i < |all| ==> all[i] == rs[i - 1];
  }

  ghost predicate AreVendors(vs: seq<nat>, ids: set<nat>) {
    Increasing(vs) && (forall i :: 0 <= i < |vs| ==> vs[i] in ids) && (forall x :: x in ids ==> x in vs)
  }

  lemma BridgedRangesBridge(ids: set<nat>, listed: set<nat>)
    requires 0 !in ids
    ensures Bridges(BridgedRanges(ids, listed), ids, listed)
  {
    var vs := Sorted(ids);
    AscendingIsSorted(ids, MaxOf(ids));
    VendorsAreIncreasing(ids);
    assert AreVendors(vs, ids);
    hide AreVendors, Bridges, Sorted, RangesFrom;
    RangesBridge(vs, ids, listed);
  }

  lemma RangesBridge(vs: seq<nat>, ids: set<nat>, listed: set<nat>)
    requires AreVendors(vs, ids)
    ensures Bridges(RangesFrom(vs, listed, 0, 0), ids, listed)
  {
    var rs := RangesFrom(vs, listed, 0, 0);
    hide RangesFrom, EndsRight, AreVendors, Increasing, RightAt, InOrder, BetweenVendors;
    VendorsIncrease(vs, ids);
    if vs == [] {
      NothingToBridge(ids, listed);
    } else {
      RangesAreInOrder(vs, listed, 0, 0);
      RangesEndRight(vs, listed, 0, 0);
      InOrderOfIds(rs, vs, ids);
      VendorsEndRight(rs, vs, ids, listed);
    }
  }

  lemma VendorsEndRight(rs: seq<Range>, vs: seq<nat>, ids: set<nat>, listed: set<nat>)
    requires AreVendors(vs, ids) && EndsRight(rs, vs, listed, 0)
    ensures forall a :: a in ids ==> RightAt(rs, a, ids, listed)
  {
    forall a | a in ids ensures RightAt(rs, a, ids, listed) {
      VendorEndsRight(rs, vs, ids, listed, a);
    }
  }

  lemma VendorsIncrease(vs: seq<nat>, ids: set<nat>)
    requires AreVendors(vs, ids)
    ensures Increasing(vs)
  {
  }

  lemma NothingToBridge(ids: set<nat>, listed: set<nat>)
    requires AreVendors([], ids)
    ensures Bridges(RangesFrom([], listed, 0, 0), ids, listed)
  {
    assert RangesFrom([], listed, 0, 0) == [];
    assert forall a :: a in ids ==> a in [];
  }

  lemma InOrderOfIds(rs: seq<Range>, vs: seq<nat>, ids: set<nat>)
    requires AreVendors(vs, ids) && vs != [] && InOrder(rs, vs, vs[0])
    ensures BetweenVendors(rs, ids)
  {
    forall i | 0 <= i < |rs| ensures rs[i].first in ids && rs[i].last in ids {
      var j :| 0 <= j < |vs| && vs[j] == rs[i].first;
      var k :| 0 <= k < |vs| && vs[k] == rs[i].last;
    }
  }

  lemma VendorEndsRight(rs: seq<Range>, vs: seq<nat>, ids: set<nat>, listed: set<nat>, a: nat)
    requires AreVendors(vs, ids) && EndsRight(rs, vs, listed, 0) && a in ids
    ensures RightAt(rs, a, ids, listed)
  {
    var k :| 0 <= k < |vs| && vs[k] == a;
    assert Covers(rs, vs[k]) && (EndsAt(rs, vs[k]) <==> ClosesAt(vs, listed, k));
    hide AreVendors, EndsRight, Covers, EndsAt, ClosesAt, Reached;
    ReachedUnlessCloses(vs, ids, listed, k);
    if Reached(a, ids, listed) {
      ClosesUnlessReached(vs, ids, listed, k);
    }
  }

  lemma ReachedUnlessCloses(vs: seq<nat>, ids: set<nat>, listed: set<nat>, k: nat)
    requires AreVendors(vs, ids) && k < |vs|
    ensures ClosesAt(vs, listed, k) || Reached(vs[k], ids, listed)
  {
    var last := vs[|vs| - 1];
    NextListedIsNext(listed, vs[k], vs[k] + 1, last);
    if !ClosesAt(vs, listed, k) {
      var b, l := vs[k + 1], NextListed(listed, vs[k], last);
      hide NextListed;
      assert b in ids && l in listed && last in ids && vs[k] < b <= l <= last;
      forall x | vs[k] < x < b ensures x !in ids && x !in listed {
        if x in ids {
          var j :| 0 <= j < |vs| && vs[j] == x;
          assert false;
        }
      }
    }
  }

  lemma ClosesUnlessReached(vs: seq<nat>, ids: set<nat>, listed: set<nat>, k: nat)
    requires AreVendors(vs, ids) && k < |vs| && Reached(vs[k], ids, listed)
    ensures !ClosesAt(vs, listed, k)
  {
    var last := vs[|vs| - 1];
    NextListedIsNext(listed, vs[k], vs[k] + 1, last);
    var b: nat, l: nat, v: nat :|
      && b in ids && l in listed && v in ids && vs[k] < b <= l <= v
      && forall x :: vs[k] < x < b ==> x !in ids && x !in listed;
    var n := NextListed(listed, vs[k], last);
    hide NextListed;
    var i :| 0 <= i < |vs| && vs[i] == v;
    var j :| 0 <= j < |vs| && vs[j] == b;
    assert l <= last && n in listed && b <= n;
    assert j > k && vs[k + 1] <= b;
  }

  ghost predicate EntriesAt(bits: Bits, at: nat, es: Entries, listed: set<nat>, end: nat)
    decreases |es|
  {
    if es == [] then end == at
    else
      && NumberAt(bits, at, 6, es[0].0.purposeId) && NumberAt(bits, at + 6, 2, es[0].0.kind)
      && exists rs ::
           && Bridges(rs, es[0].1, listed) && NumberAt(bits, at + 8, 12, |rs|) && RangesAt(bits, at + 20, rs)
           && EntriesAt(bits, at + 20 + RangesSize(rs), es[1..], listed, end)
  }

  /** The restrictions: how many there are, and for each its purpose, its kind and its bridged vendors. */
  ghost predicate RestrictionsAt(bits: Bits, at: nat, es: Entries, listed: set<nat>, end: nat) {
    NumberAt(bits, at, 12, |es|) && EntriesAt(bits, at + 12, es, listed, end)
  }

  lemma EntryStands(bits: Bits, at: nat, key: Restriction, ids: set<nat>, listed: set<nat>)
    requires EncodeEntry(key, ids, listed).Ok? && At(bits, at, EncodeEntry(key, ids, listed).value)
    ensures var rs := BridgedRanges(ids, listed);
            && NumberAt(bits, at, 6, key.purposeId) && NumberAt(bits, at + 6, 2, key.kind)
            && NumberAt(bits, at + 8, 12, |rs|) && RangesAt(bits, at + 20, rs)
            && |EncodeEntry(key, ids, listed).value| == 20 + RangesSize(rs)
  {
    hide EncodeInt, NumberAt, EncodeRanges, RangesAt;
    var rs := BridgedRanges(ids, listed);
    IntRoundTrip(key.purposeId, PURPOSE_BITS);
    IntRoundTrip(key.kind, KIND_BITS);
    IntRoundTrip(|rs|, COUNT_BITS);
    var purpose, kind := EncodeInt(key.purposeId, PURPOSE_BITS).value, EncodeInt(key.kind, KIND_BITS).value;
    var count, body := EncodeInt(|rs|, COUNT_BITS).value, EncodeRanges(rs).value;
    AtSplits(bits, at, purpose + kind + count, body);
    AtSplits(bits, at, purpose + kind, count);
    AtSplits(bits, at, purpose, kind);
    NumberStands(bits, at, key.purposeId, PURPOSE_BITS);
    NumberStands(bits, at + 6, key.kind, KIND_BITS);
    NumberStands(bits, at + 8, |rs|, COUNT_BITS);
    RangesStand(bits, at + 20, rs);
  }

  lemma {:induction false} EntriesStand(bits: Bits, at: nat, es: Entries, listed: set<nat>)
    requires EncodeEntries(es, listed).Ok? && At(bits, at, EncodeEntries(es, listed).value)
    requires forall i :: 0 <= i < |es| ==> 0 !in es[i].1
    ensures EntriesAt(bits, at, es, listed, at + |EncodeEntries(es, listed).value|)
    decreases |es|
  {
    hide EncodeEntry, NumberAt, RangesAt, Bridges, BridgedRanges;
    if es != [] {
      var head, tail := EncodeEntry(es[0].0, es[0].1, listed).value, EncodeEntries(es[1..], listed).value;
      AtSplits(bits, at, head, tail);
      EntryStands(bits, at, es[0].0, es[0].1, listed);
      BridgedRangesBridge(es[0].1, listed);
      EntriesStand(bits, at + |head|, es[1..], listed);
      var rs := BridgedRanges(es[0].1, listed);
      assert at + 20 + RangesSize(rs) == at + |head|;
    }
  }

  lemma RestrictionsStand(bits: Bits, at: nat, es: Entries, listed: set<nat>)
    requires WellFormed(es) && EncodeRestrictions(es, listed).Ok?
    requires At(bits, at, EncodeRestrictions(es, listed).value)
    ensures RestrictionsAt(bits, at, es, listed, at + |EncodeRestrictions(es, listed).value|)
  {
    hide EncodeInt, NumberAt, EncodeEntries, EntriesAt;
    IntRoundTrip(|es|, COUNT_BITS);
    AtSplits(bits, at, EncodeInt(|es|, COUNT_BITS).value, EncodeEntries(es, listed).value);
    NumberStands(bits, at, |es|, COUNT_BITS);
    EntriesStand(bits, at + 12, es, listed);
  }
}
