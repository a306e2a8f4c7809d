/**
  * Sets of purpose or vendor ids in a consent string: the vector that holds them, the fixed-width
  * bit field, and the vendor field that picks between a bit field and a list of ranges.
  */
module ConsentVector {
  import opened Wrappers
  import opened BitStrings

  ghost predicate IsMax(ids: set<nat>, max: nat) {
    && (forall i :: i in ids ==> i <= max)
    && (max in ids || (ids == {} && max == 0))
  }

  lemma MaxIsUnique(ids: set<nat>, a: nat, b: nat)
    requires IsMax(ids, a) && IsMax(ids, b)
    ensures a == b
  {
  }

  // ---- bit fields

  /** `FixedVectorEncoder.encode`: one bit for each id from 1 to n; larger ids are not written. */
  function BitField(ids: set<nat>, n: nat): Bits {
    seq(n, i requires 0 <= i => i + 1 in ids)
  }

  function IdsOfField(bits: Bits): set<nat> {
    set i | 0 <= i < |bits| && bits[i] :: i + 1
  }

  lemma FieldRoundTrip(ids: set<nat>, n: nat)
    ensures |BitField(ids, n)| == n
    ensures IdsOfField(BitField(ids, n)) == set i | i in ids && 0 < i <= n
  {
    forall i | i in ids && 0 < i <= n ensures i in IdsOfField(BitField(ids, n)) {
      assert BitField(ids, n)[i - 1];
    }
  }

  // ---- ranges

  datatype Range = Range(first: nat, last: nat)

  predicate Within(i: int, first: nat, last: int) {
    first <= i <= last
  }

  function Span(first: nat, last: int): set<nat> {
    set i: nat | first <= i <= last && Within(i, first, last)
  }

  function Ids(r: Range): set<nat> {
    Span(r.first, r.last)
  }

  function AllIds(rs: seq<Range>): set<nat> {
    if rs == [] then {} else Ids(rs[0]) + AllIds(rs[1..])
  }

  lemma {:induction false} AllIdsLast(rs: seq<Range>, r: Range)
    ensures AllIds(rs + [r]) == AllIds(rs) + Ids(r)
  {
    if rs == [] {
      assert [r][1..] == [];
    } else {
      AllIdsLast(rs[1..], r);
      assert (rs + [r])[1..] == rs[1..] + [r];
    }
  }

  /** The first id of the unbroken run that ends in l. */
  function RunStart(ids: set<nat>, l: nat): nat {
    if l > 0 && l - 1 in ids then RunStart(ids, l - 1) else l
  }

  /** The maximal runs of ids that end at or before l, in order. */
  function RunsUpTo(ids: set<nat>, l: nat): seq<Range> {
    if l == 0 then []
    else if l in ids && l + 1 !in ids then RunsUpTo(ids, l - 1) + [Range(RunStart(ids, l), l)]
    else RunsUpTo(ids, l - 1)
  }

  lemma {:induction false} RunIsUnbroken(ids: set<nat>, l: nat)
    requires l in ids && 0 !in ids
    ensures 0 < RunStart(ids, l) <= l && forall i :: RunStart(ids, l) <= i <= l ==> i in ids
    ensures RunStart(ids, l) - 1 !in ids
  {
    if l - 1 in ids {
      RunIsUnbroken(ids, l - 1);
    }
  }

  /** The finished runs hold exactly the ids below the run still open at l, if one is. */
  lemma {:induction false} RunsHoldIds(ids: set<nat>, l: nat)
    requires 0 !in ids
    ensures AllIds(RunsUpTo(ids, l)) ==
              set i | i in ids && i < if l in ids && l + 1 in ids then RunStart(ids, l) else l + 1
  {
    if l > 0 {
      RunsHoldIds(ids, l - 1);
      if l in ids {
        RunIsUnbroken(ids, l);
      }
      if l in ids && l + 1 !in ids {
        var r := Range(RunStart(ids, l), l);
        AllIdsLast(RunsUpTo(ids, l - 1), r);
        assert forall i :: i in ids && i <= l ==> i < RunStart(ids, l) || i in Ids(r);
      }
    }
  }

  // ---- the vendor field

  const VENDOR_BITS := 16
  const COUNT_BITS := 12

  /** The encoder's running estimate of the range form's size, once ids up to l are counted in. */
  function RangeCost(ids: set<nat>, l: nat): nat {
    if l == 0 then VENDOR_BITS + 1 + COUNT_BITS
    else RangeCost(ids, l - 1) +
         if l !in ids then 0
         else if l + 1 !in ids then 16
         else if l - 1 in ids then 0 else 17
  }

  /** The size test before id l + 1 is looked at. */
  predicate RangesStillPay(ids: set<nat>, max: nat, l: nat) {
    max > 45 && RangeCost(ids, l) < 17 + max
  }

  predicate UsesRanges(ids: set<nat>, max: nat) {
    max > 0 && RangesStillPay(ids, max, max - 1)
  }

  lemma {:induction false} CostGrows(ids: set<nat>, k: nat, l: nat)
    requires k <= l
    ensures RangeCost(ids, k) <= RangeCost(ids, l)
  {
    if k < l {
      CostGrows(ids, k, l - 1);
    }
  }

  function EncodeRange(r: Range): Outcome<Bits> {
    var first :- EncodeInt(r.first, VENDOR_BITS);
    if r.first == r.last then Ok([false] + first)
    else
      var last :- EncodeInt(r.last, VENDOR_BITS);
      Ok([true] + first + last)
  }

  function EncodeRanges(rs: seq<Range>): Outcome<Bits> {
    if rs == [] then Ok([])
    else match (EncodeRange(rs[0]), EncodeRanges(rs[1..]))
      case (Ok(head), Ok(tail)) => Ok(head + tail)
      case _ => Err
  }

  function EncodeVendors(ids: set<nat>, max: nat): Outcome<Bits> {
    var size :- EncodeInt(max, VENDOR_BITS);
    if UsesRanges(ids, max) then
      var rs := RunsUpTo(ids, max);
      var count :- EncodeInt(|rs|, COUNT_BITS);
      var body :- EncodeRanges(rs);
      Ok(size + [true] + count + body)
    else Ok(size + [false] + BitField(ids, max))
  }

  /** One range entry at a position: the range and the position after it. */
  function DecodeRange(bits: Bits, at: nat): Outcome<(Range, nat)> {
    var first :- DecodeInt(Substr(bits, at + 1, VENDOR_BITS), VENDOR_BITS);
    if Substr(bits, at, 1) == [true] then
      var last :- DecodeInt(Substr(bits, at + 17, VENDOR_BITS), VENDOR_BITS);
      Ok((Range(first, last), at + 33))
    else Ok((Range(first, first), at + 17))
  }

  /** `count` range entries; id 0 is refused, and a range that ends before it starts sets nothing. */
  function DecodeRanges(bits: Bits, at: nat, count: nat, ids: set<nat>): Outcome<(set<nat>, nat)>
    decreases count
  {
    if count == 0 then Ok((ids, at))
    else
      match DecodeRange(bits, at)
      case Err => Err
      case Ok((r, next)) => if 0 in Ids(r) then Err else DecodeRanges(bits, next, count - 1, ids + Ids(r))
  }

  function DecodeVendors(bits: Bits): Outcome<(set<nat>, nat)> {
    var size :- DecodeInt(Substr(bits, 0, VENDOR_BITS), VENDOR_BITS);
    var kind :- DecodeInt(Substr(bits, 16, 1), 1);
    if kind == 1 then
      var count :- DecodeInt(Substr(bits, 17, COUNT_BITS), COUNT_BITS);
      DecodeRanges(bits, 29, count, {})
    else
      var field := Substr(bits, 17, size);
      if |field| != size then Err else Ok((IdsOfField(field), 17 + size))
  }

  lemma RangeReads(bits: Bits, at: nat, r: Range)
    requires EncodeRange(r).Ok? && At(bits, at, EncodeRange(r).value)
    ensures DecodeRange(bits, at) == Ok((r, at + |EncodeRange(r).value|))
  {
    var first := EncodeInt(r.first, VENDOR_BITS).value;
    IntRoundTrip(r.first, VENDOR_BITS);
    if r.first == r.last {
      AtSplits(bits, at, [false], first);
      AtBit(bits, at, false);
    } else {
      var last := EncodeInt(r.last, VENDOR_BITS).value;
      IntRoundTrip(r.last, VENDOR_BITS);
      AtSplits(bits, at, [true] + first, last);
      AtSplits(bits, at, [true], first);
      AtBit(bits, at, true);
      IntReads(bits, at + 17, r.last, VENDOR_BITS);
    }
    IntReads(bits, at + 1, r.first, VENDOR_BITS);
  }

  lemma RangesStep(bits: Bits, at: nat, count: nat, ids: set<nat>, r: Range, next: nat)
    requires count > 0 && DecodeRange(bits, at) == Ok((r, next))
    ensures DecodeRanges(bits, at, count, ids) ==
              if 0 in Ids(r) then Err else DecodeRanges(bits, next, count - 1, ids + Ids(r))
  {
  }

  lemma HeadRangeReads(bits: Bits, at: nat, rs: seq<Range>, ids: set<nat>)
    requires rs != [] && EncodeRanges(rs).Ok? && At(bits, at, EncodeRanges(rs).value)
    ensures EncodeRanges(rs[1..]).Ok?
    ensures var next := at + |EncodeRanges(rs).value| - |EncodeRanges(rs[1..]).value|;
            && next >= at && At(bits, next, EncodeRanges(rs[1..]).value)
            && DecodeRanges(bits, at, |rs|, ids) ==
                 if 0 in Ids(rs[0]) then Err else DecodeRanges(bits, next, |rs| - 1, ids + Ids(rs[0]))
  {
    var head, tail := EncodeRange(rs[0]).value, EncodeRanges(rs[1..]).value;
    AtSplits(bits, at, head, tail);
    RangeReads(bits, at, rs[0]);
    RangesStep(bits, at, |rs|, ids, rs[0], at + |head|);
  }

  /** Any range list reads as the ids it covers, in whatever order; one that covers id 0 is refused. */
  lemma {:induction false} RangesRead(bits: Bits, at: nat, rs: seq<Range>, ids: set<nat>)
    requires EncodeRanges(rs).Ok? && At(bits, at, EncodeRanges(rs).value)
    ensures DecodeRanges(bits, at, |rs|, ids) ==
              if 0 in AllIds(rs) then Err else Ok((ids + AllIds(rs), at + |EncodeRanges(rs).value|))
    decreases |rs|
  {
    hide DecodeRange, EncodeRange, At;
    if rs == [] {
      assert ids + {} == ids;
    } else {
      HeadRangeReads(bits, at, rs, ids);
      var next := at + |EncodeRanges(rs).value| - |EncodeRanges(rs[1..]).value|;
      RangesRead(bits, next, rs[1..], ids + Ids(rs[0]));
      assert ids + Ids(rs[0]) + AllIds(rs[1..]) == ids + AllIds(rs);
    }
  }

  /**
    * A vendor field is self-delimiting: whatever bits follow it, it decodes to the ids that were
    * encoded and to its own length, in either form.
    */
  lemma VendorsRoundTrip(ids: set<nat>, max: nat, bits: Bits)
    requires 0 !in ids && IsMax(ids, max) && EncodeVendors(ids, max).Ok?
    requires At(bits, 0, EncodeVendors(ids, max).value)
    ensures DecodeVendors(bits) == Ok((ids, |EncodeVendors(ids, max).value|))
  {
    if UsesRanges(ids, max) {
      RangesHalf(ids, max, bits);
    } else {
      FieldHalf(ids, max, bits);
    }
    IntReads(bits, 0, max, VENDOR_BITS);
  }

  lemma RangesHalf(ids: set<nat>, max: nat, bits: Bits)
    requires 0 !in ids && IsMax(ids, max) && EncodeVendors(ids, max).Ok? && UsesRanges(ids, max)
    requires At(bits, 0, EncodeVendors(ids, max).value)
    ensures At(bits, 0, EncodeInt(max, VENDOR_BITS).value)
    ensures DecodeInt(Substr(bits, 16, 1), 1) == Ok(1)
    ensures DecodeInt(Substr(bits, 17, COUNT_BITS), COUNT_BITS) == Ok(|RunsUpTo(ids, max)|)
    ensures DecodeRanges(bits, 29, |RunsUpTo(ids, max)|, {}) == Ok((ids, |EncodeVendors(ids, max).value|))
  {
    var rs := RunsUpTo(ids, max);
    hide EncodeInt, DecodeInt, EncodeRanges, DecodeRanges, RunsUpTo;
    var size, count := EncodeInt(max, VENDOR_BITS).value, EncodeInt(|rs|, COUNT_BITS).value;
    var body := EncodeRanges(rs).value;
    IntRoundTrip(max, VENDOR_BITS);
    IntRoundTrip(|rs|, COUNT_BITS);
    FourParts(bits, size, true, count, body);
    IntReads(bits, 17, |rs|, COUNT_BITS);
    RunsHoldIds(ids, max);
    assert AllIds(rs) == ids == {} + ids;
    RangesRead(bits, 29, rs, {});
  }

  lemma FourParts(bits: Bits, size: Bits, kind: bool, count: Bits, body: Bits)
    requires |size| == 16 && |count| == 12 && At(bits, 0, size + [kind] + count + body)
    ensures At(bits, 0, size) && At(bits, 17, count) && At(bits, 29, body)
    ensures DecodeInt(Substr(bits, 16, 1), 1) == Ok(if kind then 1 else 0)
  {
    AtSplits(bits, 0, size + [kind] + count, body);
    AtSplits(bits, 0, size + [kind], count);
    AtSplits(bits, 0, size, [kind]);
    AtBit(bits, 16, kind);
  }

  lemma FieldHalf(ids: set<nat>, max: nat, bits: Bits)
    requires 0 !in ids && IsMax(ids, max) && EncodeVendors(ids, max).Ok? && !UsesRanges(ids, max)
    requires At(bits, 0, EncodeVendors(ids, max).value)
    ensures At(bits, 0, EncodeInt(max, VENDOR_BITS).value)
    ensures DecodeInt(Substr(bits, 16, 1), 1) == Ok(0)
    ensures |Substr(bits, 17, max)| == max && IdsOfField(Substr(bits, 17, max)) == ids
    ensures |EncodeVendors(ids, max).value| == 17 + max
  {
    var size, field := EncodeInt(max, VENDOR_BITS).value, BitField(ids, max);
    IntRoundTrip(max, VENDOR_BITS);
    AtSplits(bits, 0, size + [false], field);
    AtSplits(bits, 0, size, [false]);
    AtBit(bits, 16, false);
    FieldRoundTrip(ids, max);
    AtReads(bits, 17, field);
  }

  lemma {:induction false} RangesFit(rs: seq<Range>)
    requires forall i :: 0 <= i < |rs| ==> rs[i].first < 65536 && rs[i].last < 65536
    ensures EncodeRanges(rs).Ok?
  {
    if rs != [] {
      RangesFit(rs[1..]);
      FieldSizes();
      IntFits(rs[0].first, VENDOR_BITS);
      IntFits(rs[0].last, VENDOR_BITS);
    }
  }

  lemma {:induction false} RunsAreBelow(ids: set<nat>, l: nat)
    requires 0 !in ids
    ensures forall i :: 0 <= i < |RunsUpTo(ids, l)| ==> RunsUpTo(ids, l)[i].first <= RunsUpTo(ids, l)[i].last <= l
  {
    if l > 0 {
      RunsAreBelow(ids, l - 1);
      if l in ids {
        RunIsUnbroken(ids, l);
      }
    }
  }

  /** With a maximum that fits its field, only an overflowing list of ranges fails to encode. */
  lemma EncodingFailsIffTooManyRanges(ids: set<nat>, max: nat)
    requires 0 !in ids && IsMax(ids, max) && max < 65536
    ensures EncodeVendors(ids, max).Err? <==> UsesRanges(ids, max) && |RunsUpTo(ids, max)| >= 4096
  {
    FieldSizes();
    IntFits(max, VENDOR_BITS);
    IntFits(|RunsUpTo(ids, max)|, COUNT_BITS);
    RunsAreBelow(ids, max);
    RangesFit(RunsUpTo(ids, max));
  }

  // ---- the code

  method LargestOf(ids: set<nat>) returns (max: nat)
    ensures IsMax(ids, max)
  {
    max := 0;
    var (todo, seen) := (ids, {});
    while todo != {}
      invariant seen + todo == ids && IsMax(seen, max)
      decreases |todo|
    {
      var t :| t in todo;
      todo, seen := todo - {t}, seen + {t};
      max := if max > t then max else t;
    }
  }

  /** The position of the first id that is not positive, or the length if all are. */
  function FirstRefused(added: seq<int>): (k: nat)
    ensures k <= |added| && (forall i :: 0 <= i < k ==> added[i] > 0) && (k < |added| ==> added[k] <= 0)
  {
    if added == [] || added[0] <= 0 then 0 else 1 + FirstRefused(added[1..])
  }

  function FirstIds(added: seq<int>, k: nat): set<nat>
    requires k <= |added|
  {
    set i | 0 <= i < k && added[i] > 0 :: added[i] as nat
  }

  class Vector {
    var bitLength: nat
    var maxId: nat
    var ids: set<nat>

    ghost predicate Valid()
      reads this
    {
      0 !in ids && IsMax(ids, maxId)
    }

    constructor ()
      ensures Valid() && ids == {} && bitLength == 0
    {
      bitLength, maxId, ids := 0, 0, {};
    }

    /** Adding one id; anything but a positive id is refused. */
    method Set(id: int) returns (ok: bool)
      requires Valid()
      modifies this
      ensures Valid() && ok == (id > 0)
      ensures ids == old(ids) + if ok then {id} else {}
      ensures bitLength == if ok then 0 else old(bitLength)
    {
      ok := id > 0;
      if ok {
        ids := ids + {id};
        maxId := if maxId > id then maxId else id;
        bitLength := 0;
      }
    }

    /** Adding ids one by one, stopping at the first refused one; those before it stay added. */
    method SetMany(added: seq<int>) returns (ok: bool)
      requires Valid()
      modifies this
      ensures Valid() && (ok <==> FirstRefused(added) == |added|)
      ensures ids == old(ids) + FirstIds(added, FirstRefused(added))
      ensures bitLength == if FirstRefused(added) > 0 then 0 else old(bitLength)
    {
      ok := true;
      for k := 0 to |added|
        invariant ok && Valid() && k <= FirstRefused(added)
        invariant ids == old(ids) + FirstIds(added, k)
        invariant bitLength == if k > 0 then 0 else old(bitLength)
      {
        ok := Set(added[k]);
        if !ok {
          return;
        }
      }
    }

    /** Removing the largest id recomputes the maximum from what is left. */
    method Unset(id: nat)
      requires Valid()
      modifies this
      ensures Valid() && ids == old(ids) - {id} && bitLength == 0
    {
      ids := ids - {id};
      bitLength := 0;
      if id == maxId {
        maxId := LargestOf(ids);
      }
    }

    /** Emptying forgets the ids but keeps the recorded bit length. */
    method Empty()
      modifies this
      ensures Valid() && ids == {} && bitLength == old(bitLength)
    {
      ids, maxId := {}, 0;
    }
  }

  method EncodeFixedVector(e: Vector, numBits: nat) returns (bits: Bits)
    ensures bits == BitField(e.ids, numBits)
  {
    bits := [];
    for s := 1 to numBits + 1
      invariant bits == BitField(e.ids, s - 1)
    {
      bits := bits + [s in e.ids];
    }
  }

  method DecodeFixedVector(bits: Bits, numBits: nat) returns (r: Outcome<Vector>)
    ensures r.Err? <==> |bits| != numBits
    ensures r.Ok? ==> fresh(r.value) && r.value.Valid()
    ensures r.Ok? ==> r.value.ids == IdsOfField(bits) && r.value.bitLength == |bits|
  {
    if |bits| != numBits {
      return Err;
    }
    var v := new Vector();
    for s := 1 to numBits + 1
      invariant v.Valid() && fresh(v) && v.ids == IdsOfField(bits[..s - 1])
    {
      FieldStep(bits, s - 1);
      if bits[s - 1] {
        var _ := v.Set(s);
      }
    }
    assert bits[..numBits] == bits;
    v.bitLength := |bits|;
    r := Ok(v);
  }

  lemma FieldStep(bits: Bits, k: nat)
    requires k < |bits|
    ensures IdsOfField(bits[..k + 1]) == IdsOfField(bits[..k]) + if bits[k] then {k + 1} else {}
  {
    var (a, b) := (IdsOfField(bits[..k]), IdsOfField(bits[..k + 1]));
    forall i | i in b && i != k + 1 ensures i in a {
      assert bits[..k][i - 1];
    }
    forall i | i in a ensures i in b {
      assert bits[..k + 1][i - 1];
    }
    if bits[k] {
      assert bits[..k + 1][k];
    }
  }

  /** The encoder's single pass: it writes the bit field and collects ranges for as long as they pay. */
  method EncodeVendorVector(e: Vector) returns (r: Outcome<Bits>)
    requires e.Valid()
    ensures r == EncodeVendors(e.ids, e.maxId)
  {
    var ids, max := e.ids, e.maxId;
    var ranges: seq<Range> := [];
    var open: Option<nat> := None;
    var field: Bits := [];
    var useRanges := false;
    var fieldTotal := VENDOR_BITS + 1 + max;
    var minRanges := VENDOR_BITS * 2 + 1 + COUNT_BITS;
    var rangeTotal := VENDOR_BITS + 1 + COUNT_BITS;
    for l := 1 to max + 1
      invariant field == BitField(ids, l - 1)
      invariant useRanges == (l > 1 && RangesStillPay(ids, max, l - 2))
      invariant max > minRanges && (l == 1 || useRanges) ==>
                  && rangeTotal == RangeCost(ids, l - 1) && ranges == RunsUpTo(ids, l - 1)
                  && open == if l - 1 in ids && l in ids then Some(RunStart(ids, l - 1)) else None
      invariant max > minRanges && l > 1 && !useRanges ==> rangeTotal >= fieldTotal
    {
      var isSet := l in ids;
      field := field + [isSet];
      if l > 1 { CostGrows(ids, l - 2, l - 1); }
      useRanges := max > minRanges && rangeTotal < fieldTotal;
      if useRanges && isSet {
        if l + 1 in ids {
          if open.None? {
            open := Some(l);
            rangeTotal := rangeTotal + 1 + VENDOR_BITS;
          }
        } else {
          ranges := ranges + [Range(if open.Some? then open.value else l, l)];
          rangeTotal := rangeTotal + VENDOR_BITS;
          open := None;
        }
      }
    }
    if EncodeInt(max, VENDOR_BITS).Err? {
      return Err;
    }
    var bits := EncodeInt(max, VENDOR_BITS).value;
    if useRanges {
      bits := bits + [true];
      var list := BuildRangeEncoding(ranges);
      if list.Err? {
        return Err;
      }
      assert bits + list.value ==
             EncodeInt(max, VENDOR_BITS).value + [true] + EncodeInt(|ranges|, COUNT_BITS).value
             + EncodeRanges(ranges).value;
      r := Ok(bits + list.value);
    } else {
      r := Ok(bits + [false] + field);
    }
  }

  method BuildRangeEncoding(ranges: seq<Range>) returns (r: Outcome<Bits>)
    ensures r.Ok? <==> EncodeInt(|ranges|, COUNT_BITS).Ok? && EncodeRanges(ranges).Ok?
    ensures r.Ok? ==> r.value == EncodeInt(|ranges|, COUNT_BITS).value + EncodeRanges(ranges).value
  {
    if EncodeInt(|ranges|, COUNT_BITS).Err? {
      return Err;
    }
    var bits := EncodeInt(|ranges|, COUNT_BITS).value;
    ghost var all := EncodeRanges(ranges);
    ghost var ahead := all;  // what the remaining entries encode to
    ghost var total := if all.Ok? then bits + all.value else bits;
    assert ranges[0..] == ranges;
    for i := 0 to |ranges|
      invariant ahead == EncodeRanges(ranges[i..]) && (all.Ok? <==> ahead.Ok?)
      invariant all.Ok? ==> total == bits + ahead.value
    {
      EncodeRangesStep(ranges, i);
      var entry := EncodeRange(ranges[i]);
      if entry.Err? {
        return Err;
      }
      bits := bits + entry.value;
      ahead := EncodeRanges(ranges[i + 1..]);
    }
    r := Ok(bits);
  }

  lemma EncodeRangesStep(ranges: seq<Range>, i: nat)
    requires i < |ranges|
    ensures EncodeRange(ranges[i]).Err? ==> EncodeRanges(ranges[i..]).Err?
    ensures EncodeRange(ranges[i]).Ok? ==>
              EncodeRanges(ranges[i..]) ==
                match EncodeRanges(ranges[i + 1..])
                case Ok(tail) => Ok(EncodeRange(ranges[i]).value + tail)
                case Err => Err
  {
    assert ranges[i..][1..] == ranges[i + 1..];
  }

  method DecodeVendorVector(bits: Bits) returns (r: Outcome<Vector>)
    ensures r.Ok? <==> DecodeVendors(bits).Ok?
    ensures r.Ok? ==> fresh(r.value) && r.value.Valid() && DecodeVendors(bits) == Ok((r.value.ids, r.value.bitLength))
  {
    var size := DecodeInt(Substr(bits, 0, VENDOR_BITS), VENDOR_BITS);
    if size.Err? { return Err; }
    var kind := DecodeInt(Substr(bits, 16, 1), 1);
    if kind.Err? { return Err; }
    if kind.value == 1 {
      var count := DecodeInt(Substr(bits, 17, COUNT_BITS), COUNT_BITS);
      if count.Err? { return Err; }
      r := DecodeRangeList(bits, 29, count.value);
    } else {
      r := DecodeFixedVector(Substr(bits, 17, size.value), size.value);
      if r.Ok? {
        r.value.bitLength := 17 + size.value;
      }
    }
  }

  method DecodeRangeList(bits: Bits, start: nat, count: nat) returns (r: Outcome<Vector>)
    ensures r.Ok? <==> DecodeRanges(bits, start, count, {}).Ok?
    ensures r.Ok? ==> fresh(r.value) && r.value.Valid()
                      && DecodeRanges(bits, start, count, {}) == Ok((r.value.ids, r.value.bitLength))
  {
    hide DecodeRange;
    var s := start;
    var left := count;
    var v := new Vector();
    while left > 0
      invariant v.Valid() && fresh(v)
      invariant DecodeRanges(bits, start, count, {}) == DecodeRanges(bits, s, left, v.ids)
    {
      var entry := DecodeRange(bits, s);
      if entry.Err? { return Err; }
      var (range, next) := entry.value;
      var ok := SetRange(v, range);
      if !ok { return Err; }
      s, left := next, left - 1;
    }
    v.bitLength := s;
    r := Ok(v);
  }

  method SetRange(v: Vector, range: Range) returns (ok: bool)
    requires v.Valid()
    modifies v
    ensures v.Valid() && ok == (0 !in Ids(range))
    ensures ok ==> v.ids == old(v.ids) + Ids(range)
  {
    ok := true;
    var l := range.first;
    while l <= range.last
      invariant v.Valid() && v.ids == old(v.ids) + Span(range.first, l - 1)
      invariant l == range.first || (range.first < l <= range.last + 1 && 0 !in Ids(range))
    {
      ok := v.Set(l);
      if !ok {
        assert 0 in Ids(range);
        return;
      }
      l := l + 1;
    }
    assert v.ids == old(v.ids) + Ids(range);
  }
}
