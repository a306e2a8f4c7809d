/**
  * Publisher restrictions: for a purpose and a kind of restriction, the vendors it applies to.
  * The encoder writes vendor ranges that run across ids the vendor list does not have.
  */
module Restrictions {
  import opened Wrappers
  import opened BitStrings
  import opened ConsentVector

  datatype Restriction = Restriction(purposeId: int, kind: int) {
    /** Only a valid restriction can serve as a key. */
    predicate Valid() {
      purposeId > 0 && 0 <= kind <= 2
    }
  }

  /** The map from restrictions to vendors, in the order its keys were added. */
  type Entries = seq<(Restriction, set<nat>)>

  const PURPOSE_BITS := 6
  const KIND_BITS := 2

  predicate HasKey(es: Entries, key: Restriction) {
    exists i :: 0 <= i < |es| && es[i].0 == key
  }

  ghost predicate WellFormed(es: Entries) {
    && (forall i :: 0 <= i < |es| ==> es[i].0.Valid() && 0 !in es[i].1)
    && (forall i, j :: 0 <= i < j < |es| ==> es[i].0 != es[j].0)
  }

  /** The vendors under a restriction; none if it is not a key. */
  function Vendors(es: Entries, key: Restriction): set<nat> {
    if es == [] then {} else if es[0].0 == key then es[0].1 else Vendors(es[1..], key)
  }

  /** Adding vendors one after the other; the key appears with the first. */
  function AddVendors(es: Entries, key: Restriction, ids: set<nat>): Entries {
    if ids == {} then es
    else if es == [] then [(key, ids)]
    else if es[0].0 == key then [(key, es[0].1 + ids)] + es[1..]
    else [es[0]] + AddVendors(es[1..], key, ids)
  }

  // ---- encoding

  /** The ids of a finite set up to n, in increasing order. */
  function Ascending(ids: set<nat>, n: nat): seq<nat> {
    if n == 0 then [] else Ascending(ids, n - 1) + if n in ids then [n] else []
  }

  ghost function Sorted(ids: set<nat>): seq<nat> {
    Ascending(ids, MaxOf(ids))
  }

  ghost function MaxOf(ids: set<nat>): (max: nat)
    ensures IsMax(ids, max)
  {
    if ids == {} then 0
    else
      var x :| x in ids;
      var rest := MaxOf(ids - {x});
      assert ids == (ids - {x}) + {x};
      if rest > x then rest else x
  }

  /** The first listed id above s and not above last; s itself if there is none. */
  function NextListed(listed: set<nat>, s: nat, last: nat): nat {
    NextListedFrom(listed, s, s + 1, last)
  }

  function NextListedFrom(listed: set<nat>, s: nat, o: nat, last: nat): nat
    decreases last + 1 - o
  {
    if o > last then s else if o in listed then o else NextListedFrom(listed, s, o + 1, last)
  }

  /** Ranges over sorted vendors from position p on; c is the start of the open range, or 0. */
  function RangesFrom(vs: seq<nat>, listed: set<nat>, p: nat, c: nat): seq<Range>
    decreases |vs| - p
  {
    if p >= |vs| then []
    else
      var first := if c == 0 then vs[p] else c;
      if p == |vs| - 1 || vs[p + 1] > NextListed(listed, vs[p], vs[|vs| - 1])
      then [Range(first, vs[p])] + RangesFrom(vs, listed, p + 1, 0)
      else RangesFrom(vs, listed, p + 1, first)
  }

  ghost function BridgedRanges(ids: set<nat>, listed: set<nat>): seq<Range> {
    RangesFrom(Sorted(ids), listed, 0, 0)
  }

  ghost function EncodeEntry(key: Restriction, ids: set<nat>, listed: set<nat>): Outcome<Bits> {
    var rs := BridgedRanges(ids, listed);
    match (EncodeInt(key.purposeId, PURPOSE_BITS), EncodeInt(key.kind, KIND_BITS),
           EncodeInt(|rs|, COUNT_BITS), EncodeRanges(rs))
    case (Ok(purpose), Ok(kind), Ok(count), Ok(body)) => Ok(purpose + kind + count + body)
    case _ => Err
  }

  ghost function EncodeEntries(es: Entries, listed: set<nat>): Outcome<Bits> {
    if es == [] then Ok([])
    else match (EncodeEntry(es[0].0, es[0].1, listed), EncodeEntries(es[1..], listed))
      case (Ok(head), Ok(tail)) => Ok(head + tail)
      case _ => Err
  }

  ghost function EncodeRestrictions(es: Entries, listed: set<nat>): Outcome<Bits> {
    match (EncodeInt(|es|, COUNT_BITS), EncodeEntries(es, listed))
    case (Ok(count), Ok(body)) => Ok(count + body)
    case _ => Err
  }

  // ---- decoding

  /** Range entries of one restriction; a backward range or an invalid key is an error. */
  function DecodeEntryRanges(bits: Bits, at: nat, count: nat, key: Restriction, es: Entries): Outcome<(Entries, nat)>
    decreases count
  {
    if count == 0 then Ok((es, at))
    else
      match DecodeRange(bits, at)
      case Err => Err
      case Ok((r, next)) =>
        if r.last < r.first || !key.Valid() then Err
        else DecodeEntryRanges(bits, next, count - 1, key, AddVendors(es, key, Ids(r)))
  }

  function DecodeEntry(bits: Bits, at: nat, es: Entries): Outcome<(Entries, nat)> {
    match (DecodeInt(Substr(bits, at, PURPOSE_BITS), PURPOSE_BITS),
           DecodeInt(Substr(bits, at + 6, KIND_BITS), KIND_BITS),
           DecodeInt(Substr(bits, at + 8, COUNT_BITS), COUNT_BITS))
    case (Ok(purposeId), Ok(kind), Ok(count)) =>
      DecodeEntryRanges(bits, at + 20, count, Restriction(purposeId, kind), es)
    case _ => Err
  }

  function DecodeEntries(bits: Bits, at: nat, count: nat, es: Entries): Outcome<(Entries, nat)>
    decreases count
  {
    if count == 0 then Ok((es, at))
    else match DecodeEntry(bits, at, es)
      case Err => Err
      case Ok((more, next)) => DecodeEntries(bits, next, count - 1, more)
  }

  function DecodeRestrictions(bits: Bits): Outcome<(Entries, nat)> {
    match DecodeInt(Substr(bits, 0, COUNT_BITS), COUNT_BITS)
    case Err => Err
    case Ok(count) => DecodeEntries(bits, COUNT_BITS, count, [])
  }

  // ---- what the ranges cover

  lemma {:induction false} AscendingIsSorted(ids: set<nat>, n: nat)
    ensures var vs := Ascending(ids, n);
            && (forall i :: 0 <= i < |vs| ==> vs[i] in ids && 0 < vs[i] <= n)
            && (forall i, j :: 0 <= i < j < |vs| ==> vs[i] < vs[j])
            && (forall x :: x in ids && 0 < x <= n ==> x in vs)
  {
    if n > 0 {
      AscendingIsSorted(ids, n - 1);
    }
  }

  lemma {:induction false} NextListedIsNext(listed: set<nat>, s: nat, o: nat, last: nat)
    requires s < o
    ensures var n := NextListedFrom(listed, s, o, last);
            && (n == s || (o <= n <= last && n in listed))
            && (forall x :: o <= x <= last && x in listed ==> n != s && n <= x)
    decreases last + 1 - o
  {
    if o <= last && o !in listed {
      NextListedIsNext(listed, s, o + 1, last);
    }
  }

  ghost predicate Increasing(vs: seq<nat>) {
    forall i, j :: 0 <= i < j < |vs| ==> 0 < vs[i] < vs[j]
  }

  /**
    * Every vendor from p on is covered, and a covered id that the list has is a vendor. While a
    * range is open from c, no listed id between c and the current vendor may be a stranger.
    */
  lemma {:induction false} RangesCover(vs: seq<nat>, listed: set<nat>, p: nat, c: nat)
    requires p <= |vs| && Increasing(vs) && (|vs| > 0 ==> vs[0] > 0)
    requires c != 0 ==> p < |vs| && c <= vs[p] && forall x :: c <= x < vs[p] && x in listed ==> x in vs
    ensures var covered := AllIds(RangesFrom(vs, listed, p, c));
            && (forall k :: p <= k < |vs| ==> vs[k] in covered)
            && (forall x :: x in covered && x in listed ==> x in vs)
            && 0 !in covered
    ensures var rs := RangesFrom(vs, listed, p, c);
            (forall i :: 0 <= i < |rs| ==> rs[i].first <= rs[i].last) && (p < |vs| ==> rs != [])
    decreases |vs| - p
  {
    if p < |vs| {
      var first := if c == 0 then vs[p] else c;
      var last := vs[|vs| - 1];
      var n := NextListed(listed, vs[p], last);
      NextListedIsNext(listed, vs[p], vs[p] + 1, last);
      if p == |vs| - 1 || vs[p + 1] > n {
        RangesCover(vs, listed, p + 1, 0);
        var tail := RangesFrom(vs, listed, p + 1, 0);
        var r := Range(first, vs[p]);
        assert ([r] + tail)[1..] == tail;
        assert AllIds([r] + tail) == Ids(r) + AllIds(tail);
        assert vs[p] in Ids(r);
      } else {
        assert vs[p + 1] <= last;
        forall x | first <= x < vs[p + 1] && x in listed ensures x in vs {
          if x > vs[p] {
            assert false;
          }
        }
        RangesCover(vs, listed, p + 1, first);
        BridgeCoversVendor(vs, listed, p + 1, first, vs[p]);
      }
    }
  }

  /** The first range written covers everything from where it was opened. */
  lemma {:induction false} BridgeCoversVendor(vs: seq<nat>, listed: set<nat>, p: nat, c: nat, x: nat)
    requires p < |vs| && Increasing(vs) && 0 < c <= x <= vs[p]
    ensures x in AllIds(RangesFrom(vs, listed, p, c))
    decreases |vs| - p
  {
    if p == |vs| - 1 || vs[p + 1] > NextListed(listed, vs[p], vs[|vs| - 1]) {
      assert Within(x, c, vs[p]);
    } else {
      BridgeCoversVendor(vs, listed, p + 1, c, x);
    }
  }

  /** What a restriction's vendors become on the wire. */
  ghost function Bridged(ids: set<nat>, listed: set<nat>): set<nat> {
    AllIds(BridgedRanges(ids, listed))
  }

  lemma NothingFromNothing(listed: set<nat>)
    ensures RangesFrom([], listed, 0, 0) == [] && AllIds([]) == {}
  {
  }

  /** No vendor is lost, and no vendor of the list is added. */
  lemma BridgingAddsOnlyUnlisted(ids: set<nat>, listed: set<nat>)
    requires 0 !in ids
    ensures ids <= Bridged(ids, listed)
    ensures forall x :: x in listed ==> (x in Bridged(ids, listed) <==> x in ids)
    ensures 0 !in Bridged(ids, listed) && (Bridged(ids, listed) == {} <==> ids == {})
    ensures BridgedRanges(ids, listed) == [] <==> ids == {}
    ensures forall i :: 0 <= i < |BridgedRanges(ids, listed)| ==>
              BridgedRanges(ids, listed)[i].first <= BridgedRanges(ids, listed)[i].last
  {
    hide NextListed, RangesFrom, AllIds;
    var vs := Sorted(ids);
    AscendingIsSorted(ids, MaxOf(ids));
    RangesCover(vs, listed, 0, 0);
    NothingFromNothing(listed);
    assert forall x :: x in ids ==> x in vs;
    if ids != {} {
      var x :| x in ids;
      assert x in vs;
    }
  }

  /** Between two vendors that follow each other the encoder keeps a range open only if they are neighbours. */
  predicate NoGapBridgedFrom(vs: seq<nat>, listed: set<nat>, p: nat)
    decreases |vs| - p
  {
    p + 1 >= |vs|
    || ((vs[p + 1] > NextListed(listed, vs[p], vs[|vs| - 1]) || vs[p + 1] == vs[p] + 1)
        && NoGapBridgedFrom(vs, listed, p + 1))
  }

  lemma {:induction false} NothingAddedIff(vs: seq<nat>, listed: set<nat>, p: nat, c: nat)
    requires p < |vs| && Increasing(vs) && vs[0] > 0 && c <= vs[p]
    ensures (forall x :: x in AllIds(RangesFrom(vs, listed, p, c)) ==> x in vs) <==>
              (c != 0 ==> forall x :: c <= x <= vs[p] ==> x in vs) && NoGapBridgedFrom(vs, listed, p)
    decreases |vs| - p
  {
    hide NextListed;
    var first := if c == 0 then vs[p] else c;
    if p == |vs| - 1 || vs[p + 1] > NextListed(listed, vs[p], vs[|vs| - 1]) {
      if p + 1 < |vs| { NothingAddedIff(vs, listed, p + 1, 0); }
      var tail := RangesFrom(vs, listed, p + 1, 0);
      assert AllIds([Range(first, vs[p])] + tail) == Span(first, vs[p]) + AllIds(tail) by {
        assert ([Range(first, vs[p])] + tail)[1..] == tail;
      }
      assert forall x :: first <= x <= vs[p] <==> x in Span(first, vs[p]);
    } else {
      NothingAddedIff(vs, listed, p + 1, first);
      StretchIsWhole(vs, p, first);
    }
  }

  lemma StretchIsWhole(vs: seq<nat>, p: nat, first: nat)
    requires p + 1 < |vs| && Increasing(vs) && first <= vs[p]
    ensures (forall x :: first <= x <= vs[p + 1] ==> x in vs) <==>
              (forall x :: first <= x <= vs[p] ==> x in vs) && vs[p + 1] == vs[p] + 1
  {
    if forall x :: first <= x <= vs[p + 1] ==> x in vs {
      assert vs[p] + 1 in vs;
      var k :| 0 <= k < |vs| && vs[k] == vs[p] + 1;
      assert k == p + 1;
    }
  }

  ghost predicate NoGapBridged(ids: set<nat>, listed: set<nat>) {
    NoGapBridgedFrom(Sorted(ids), listed, 0)
  }

  /** A restriction's vendors come back exactly when no gap between them is bridged. */
  lemma BridgingAddsNothingIff(ids: set<nat>, listed: set<nat>)
    requires 0 !in ids
    ensures Bridged(ids, listed) == ids <==> NoGapBridged(ids, listed)
  {
    hide NextListed, NoGapBridgedFrom, RangesFrom;
    BridgingAddsOnlyUnlisted(ids, listed);
    VendorsAreIncreasing(ids);
    AscendingIsSorted(ids, MaxOf(ids));
    var vs := Sorted(ids);
    assert forall x :: x in ids <==> x in vs;
    if vs == [] {
      NoVendorsNoGap(listed);
    } else {
      NothingAddedIff(vs, listed, 0, 0);
    }
  }

  lemma NoVendorsNoGap(listed: set<nat>)
    ensures NoGapBridgedFrom([], listed, 0)
  {
  }

  // ---- round trip

  lemma {:induction false} AddTwice(es: Entries, key: Restriction, a: set<nat>, b: set<nat>)
    ensures AddVendors(AddVendors(es, key, a), key, b) == AddVendors(es, key, a + b)
  {
    if a == {} {
      assert a + b == b;
    } else if b == {} {
      assert a + b == a;
    } else if es == [] {
      assert [(key, a)][1..] == [];
    } else if es[0].0 == key {
      assert es[0].1 + a + b == es[0].1 + (a + b);
      assert ([(key, es[0].1 + a)] + es[1..])[1..] == es[1..];
    } else {
      AddTwice(es[1..], key, a, b);
      assert ([es[0]] + AddVendors(es[1..], key, a))[1..] == AddVendors(es[1..], key, a);
    }
  }

  lemma {:induction false} AddFresh(es: Entries, key: Restriction, ids: set<nat>)
    requires !HasKey(es, key)
    ensures AddVendors(es, key, ids) == es + if ids == {} then [] else [(key, ids)]
  {
    if ids != {} && es != [] {
      assert es[0].0 != key;
      forall i | 0 <= i < |es[1..]| ensures es[1..][i].0 != key {
        assert es[i + 1].0 != key;
      }
      AddFresh(es[1..], key, ids);
    }
  }

  lemma EntryRangesStep(bits: Bits, at: nat, count: nat, key: Restriction, es: Entries, r: Range, next: nat)
    requires count > 0 && DecodeRange(bits, at) == Ok((r, next))
    ensures DecodeEntryRanges(bits, at, count, key, es) ==
              if r.last < r.first || !key.Valid() then Err
              else DecodeEntryRanges(bits, next, count - 1, key, AddVendors(es, key, Ids(r)))
  {
  }

  lemma HeadEntryRangeReads(bits: Bits, at: nat, rs: seq<Range>, key: Restriction, es: Entries)
    requires rs != [] && EncodeRanges(rs).Ok? && At(bits, at, EncodeRanges(rs).value)
    ensures EncodeRanges(rs[1..]).Ok?
    ensures var next := at + |EncodeRanges(rs).value| - |EncodeRanges(rs[1..]).value|;
            && next >= at && At(bits, next, EncodeRanges(rs[1..]).value)
            && DecodeEntryRanges(bits, at, |rs|, key, es) ==
                 if rs[0].last < rs[0].first || !key.Valid() then Err
                 else DecodeEntryRanges(bits, next, |rs| - 1, key, AddVendors(es, key, Ids(rs[0])))
  {
    var head, tail := EncodeRange(rs[0]).value, EncodeRanges(rs[1..]).value;
    AtSplits(bits, at, head, tail);
    RangeReads(bits, at, rs[0]);
    EntryRangesStep(bits, at, |rs|, key, es, rs[0], at + |head|);
  }

  /** A range that ends before it starts. */
  predicate HasBackward(rs: seq<Range>) {
    exists i :: 0 <= i < |rs| && rs[i].last < rs[i].first
  }

  /** Any range list of a restriction reads as the ids it covers, but a backward range or an invalid key is refused. */
  lemma {:induction false} EntryRangesRead(bits: Bits, at: nat, rs: seq<Range>, key: Restriction, es: Entries)
    requires EncodeRanges(rs).Ok? && At(bits, at, EncodeRanges(rs).value)
    ensures DecodeEntryRanges(bits, at, |rs|, key, es) ==
              if HasBackward(rs) || (rs != [] && !key.Valid()) then Err
              else Ok((AddVendors(es, key, AllIds(rs)), at + |EncodeRanges(rs).value|))
    decreases |rs|
  {
    hide DecodeRange, EncodeRange;
    if rs != [] {
      HeadEntryRangeReads(bits, at, rs, key, es);
      var next := at + |EncodeRanges(rs).value| - |EncodeRanges(rs[1..]).value|;
      EntryRangesRead(bits, next, rs[1..], key, AddVendors(es, key, Ids(rs[0])));
      AddTwice(es, key, Ids(rs[0]), AllIds(rs[1..]));
      assert HasBackward(rs) <==> rs[0].last < rs[0].first || HasBackward(rs[1..]) by {
        assert forall i :: 0 < i < |rs| ==> rs[i] == rs[1..][i - 1];
      }
    }
  }

  lemma EntryHeadReads(bits: Bits, at: nat, key: Restriction, count: nat, body: Bits)
    requires EncodeInt(key.purposeId, PURPOSE_BITS).Ok? && EncodeInt(key.kind, KIND_BITS).Ok?
    requires EncodeInt(count, COUNT_BITS).Ok?
    requires At(bits, at, EncodeInt(key.purposeId, PURPOSE_BITS).value + EncodeInt(key.kind, KIND_BITS).value
                          + EncodeInt(count, COUNT_BITS).value + body)
    ensures DecodeInt(Substr(bits, at, PURPOSE_BITS), PURPOSE_BITS) == Ok(key.purposeId)
    ensures DecodeInt(Substr(bits, at + 6, KIND_BITS), KIND_BITS) == Ok(key.kind)
    ensures DecodeInt(Substr(bits, at + 8, COUNT_BITS), COUNT_BITS) == Ok(count)
    ensures At(bits, at + 20, body)
  {
    var purpose, kind := EncodeInt(key.purposeId, PURPOSE_BITS).value, EncodeInt(key.kind, KIND_BITS).value;
    var n := EncodeInt(count, COUNT_BITS).value;
    IntRoundTrip(key.purposeId, PURPOSE_BITS);
    IntRoundTrip(key.kind, KIND_BITS);
    IntRoundTrip(count, COUNT_BITS);
    AtSplits(bits, at, purpose + kind + n, body);
    AtSplits(bits, at, purpose + kind, n);
    AtSplits(bits, at, purpose, kind);
    IntReads(bits, at, key.purposeId, PURPOSE_BITS);
    IntReads(bits, at + 6, key.kind, KIND_BITS);
    IntReads(bits, at + 8, count, COUNT_BITS);
  }

  lemma EntryReads(bits: Bits, at: nat, key: Restriction, ids: set<nat>, listed: set<nat>, es: Entries)
    requires EncodeEntry(key, ids, listed).Ok? && At(bits, at, EncodeEntry(key, ids, listed).value)
    requires key.Valid() && 0 !in ids && !HasKey(es, key)
    ensures DecodeEntry(bits, at, es) ==
              Ok((es + WireEntry(key, ids, listed), at + |EncodeEntry(key, ids, listed).value|))
  {
    hide DecodeEntryRanges, EncodeRanges, EncodeInt, DecodeInt, Substr, AddVendors;
    var rs := BridgedRanges(ids, listed);
    IntRoundTrip(key.purposeId, PURPOSE_BITS);
    IntRoundTrip(key.kind, KIND_BITS);
    IntRoundTrip(|rs|, COUNT_BITS);
    EntryHeadReads(bits, at, key, |rs|, EncodeRanges(rs).value);
    BridgingAddsOnlyUnlisted(ids, listed);
    EntryRangesRead(bits, at + 20, rs, key, es);
    AddFresh(es, key, Bridged(ids, listed));
  }

  /** What decoding rebuilds of one entry: nothing, if it had no vendors. */
  ghost function WireEntry(key: Restriction, ids: set<nat>, listed: set<nat>): Entries {
    if ids == {} then [] else [(key, Bridged(ids, listed))]
  }

  /** The entries as decoding rebuilds them: bridged, and without those that had no vendors. */
  ghost function Carried(es: Entries, listed: set<nat>): Entries {
    if es == [] then []
    else WireEntry(es[0].0, es[0].1, listed) + Carried(es[1..], listed)
  }

  lemma HeadEntryReads(bits: Bits, at: nat, es: Entries, listed: set<nat>, done: Entries)
    requires es != [] && EncodeEntries(es, listed).Ok? && At(bits, at, EncodeEntries(es, listed).value)
    requires es[0].0.Valid() && 0 !in es[0].1 && !HasKey(done, es[0].0)
    ensures EncodeEntries(es[1..], listed).Ok?
    ensures var next := at + |EncodeEntries(es, listed).value| - |EncodeEntries(es[1..], listed).value|;
            && next >= at && At(bits, next, EncodeEntries(es[1..], listed).value)
            && DecodeEntries(bits, at, |es|, done) ==
                 DecodeEntries(bits, next, |es| - 1, done + WireEntry(es[0].0, es[0].1, listed))
  {
    hide EncodeEntry, DecodeEntry, WireEntry;
    var head, tail := EncodeEntry(es[0].0, es[0].1, listed).value, EncodeEntries(es[1..], listed).value;
    AtSplits(bits, at, head, tail);
    EntryReads(bits, at, es[0].0, es[0].1, listed, done);
  }

  lemma StillFresh(es: Entries, listed: set<nat>, done: Entries)
    requires es != [] && WellFormed(es) && forall i :: 0 <= i < |es| ==> !HasKey(done, es[i].0)
    ensures WellFormed(es[1..])
    ensures forall i :: 0 <= i < |es[1..]| ==> !HasKey(done + WireEntry(es[0].0, es[0].1, listed), es[1..][i].0)
  {
    assert forall i :: 0 <= i < |es| - 1 ==> es[1..][i] == es[i + 1];
    var more := done + WireEntry(es[0].0, es[0].1, listed);
    forall i | 0 <= i < |es[1..]| ensures !HasKey(more, es[1..][i].0) {
      assert !HasKey(done, es[i + 1].0) && es[0].0 != es[i + 1].0;
      forall j | 0 <= j < |more| ensures more[j].0 != es[i + 1].0 {
        assert j < |done| ==> more[j] == done[j];
      }
    }
  }

  lemma {:induction false} EntriesRead(bits: Bits, at: nat, es: Entries, listed: set<nat>, done: Entries)
    requires EncodeEntries(es, listed).Ok? && At(bits, at, EncodeEntries(es, listed).value)
    requires WellFormed(es) && forall i :: 0 <= i < |es| ==> !HasKey(done, es[i].0)
    ensures DecodeEntries(bits, at, |es|, done) ==
              Ok((done + Carried(es, listed), at + |EncodeEntries(es, listed).value|))
    decreases |es|
  {
    hide DecodeEntry, EncodeEntry, WireEntry, HasKey, At;
    if es == [] {
      assert done + [] == done;
    } else {
      HeadEntryReads(bits, at, es, listed, done);
      StillFresh(es, listed, done);
      var next := at + |EncodeEntries(es, listed).value| - |EncodeEntries(es[1..], listed).value|;
      var more := done + WireEntry(es[0].0, es[0].1, listed);
      EntriesRead(bits, next, es[1..], listed, more);
      assert more + Carried(es[1..], listed) == done + Carried(es, listed);
    }
  }

  lemma NoKeysYet()
    ensures forall key :: !HasKey([], key)
  {
  }

  /** The restrictions field is self-delimiting and carries every restriction that has vendors. */
  lemma RestrictionsRoundTrip(es: Entries, listed: set<nat>, bits: Bits)
    requires WellFormed(es) && EncodeRestrictions(es, listed).Ok?
    requires At(bits, 0, EncodeRestrictions(es, listed).value)
    ensures DecodeRestrictions(bits) == Ok((Carried(es, listed), |EncodeRestrictions(es, listed).value|))
  {
    hide EncodeInt, DecodeInt, EncodeEntries, DecodeEntries, Carried, HasKey;
    var count, body := EncodeInt(|es|, COUNT_BITS).value, EncodeEntries(es, listed).value;
    NoKeysYet();
    IntRoundTrip(|es|, COUNT_BITS);
    AtSplits(bits, 0, count, body);
    IntReads(bits, 0, |es|, COUNT_BITS);
    EntriesRead(bits, COUNT_BITS, es, listed, []);
    assert [] + Carried(es, listed) == Carried(es, listed);
  }

  /** The restrictions come back as they were exactly when each has vendors and no gap is bridged. */
  lemma {:induction false} CarriedUnchangedIff(es: Entries, listed: set<nat>)
    requires WellFormed(es)
    ensures Carried(es, listed) == es <==> forall i :: 0 <= i < |es| ==> es[i].1 != {} && NoGapBridged(es[i].1, listed)
    ensures |Carried(es, listed)| <= |es|
  {
    hide NoGapBridged, Bridged;
    if es != [] {
      assert forall i :: 0 <= i < |es| - 1 ==> es[1..][i] == es[i + 1];
      CarriedUnchangedIff(es[1..], listed);
      BridgingAddsNothingIff(es[0].1, listed);
      var head, tail := WireEntry(es[0].0, es[0].1, listed), Carried(es[1..], listed);
      assert es == [es[0]] + es[1..];
      if head + tail == es {
        assert |head| == 1 && head[0] == (head + tail)[0] && tail == (head + tail)[1..];
      }
    }
  }

  lemma {:induction false} CarriedVendors(es: Entries, listed: set<nat>, key: Restriction)
    requires WellFormed(es)
    ensures Vendors(Carried(es, listed), key) ==
              if Vendors(es, key) == {} then {} else Bridged(Vendors(es, key), listed)
    ensures 0 !in Vendors(es, key)
  {
    if es != [] {
      assert WellFormed(es[1..]) by {
        assert forall i :: 0 <= i < |es| - 1 ==> es[1..][i] == es[i + 1];
      }
      CarriedVendors(es[1..], listed, key);
      var tail := Carried(es[1..], listed);
      if es[0].1 != {} {
        assert ([(es[0].0, Bridged(es[0].1, listed))] + tail)[1..] == tail;
      } else {
        assert [] + tail == tail;
      }
      if es[0].0 == key {
        NoKeyNoVendors(es[1..], key);
        CarriedVendors(es[1..], listed, key);
      }
    }
  }

  lemma {:induction false} NoKeyNoVendors(es: Entries, key: Restriction)
    ensures (forall i :: 0 <= i < |es| ==> es[i].0 != key) ==> Vendors(es, key) == {}
  {
    if es != [] {
      NoKeyNoVendors(es[1..], key);
      assert forall i :: 0 <= i < |es[1..]| ==> es[1..][i] == es[i + 1];
    }
  }

  /** Under every restriction, decoding finds all vendors it had, and of the vendor list only those. */
  lemma DecodedRestrictionsAgreeOnListed(es: Entries, listed: set<nat>, key: Restriction)
    requires WellFormed(es) && EncodeRestrictions(es, listed).Ok?
    ensures var bits := EncodeRestrictions(es, listed).value;
            && DecodeRestrictions(bits).Ok?
            && var decoded := DecodeRestrictions(bits).value.0;
               && Vendors(es, key) <= Vendors(decoded, key)
               && forall x :: x in listed ==> (x in Vendors(decoded, key) <==> x in Vendors(es, key))
  {
    RestrictionsRoundTrip(es, listed, EncodeRestrictions(es, listed).value);
    CarriedVendors(es, listed, key);
    BridgingAddsOnlyUnlisted(Vendors(es, key), listed);
  }

  // ---- the code

  /** Where a vendor is added: at the first entry with the key, or as a new entry. */
  lemma {:induction false} AddedAt(es: Entries, key: Restriction, id: nat, i: nat)
    requires i <= |es| && (forall k :: 0 <= k < i ==> es[k].0 != key) && (i < |es| ==> es[i].0 == key)
    ensures AddVendors(es, key, {id}) ==
              if i < |es| then es[i := (key, es[i].1 + {id})] else es + [(key, {id})]
    ensures HasKey(es, key) <==> i < |es|
  {
    if es != [] && i > 0 {
      AddedAt(es[1..], key, id, i - 1);
    }
  }

  class PurposeRestrictionVector {
    var bitLength: nat
    var entries: Entries

    constructor ()
      ensures entries == [] && bitLength == 0
    {
      bitLength, entries := 0, [];
    }

    /** Adding a vendor on a vector with no vendor list attached; an invalid key is refused. */
    method Add(vendorId: nat, key: Restriction) returns (ok: bool)
      modifies this
      ensures ok == key.Valid()
      ensures entries == if ok then AddVendors(old(entries), key, {vendorId}) else old(entries)
      ensures bitLength == if ok && !HasKey(old(entries), key) then 0 else old(bitLength)
    {
      ok := key.Valid();
      if !ok {
        return;
      }
      var i := 0;
      while i < |entries| && entries[i].0 != key
        invariant i <= |entries| && entries == old(entries) && bitLength == old(bitLength)
        invariant forall k :: 0 <= k < i ==> entries[k].0 != key
      {
        i := i + 1;
      }
      AddedAt(entries, key, vendorId, i);
      if i < |entries| {
        entries := entries[i := (key, entries[i].1 + {vendorId})];
      } else {
        entries := entries + [(key, {vendorId})];
        bitLength := 0;
      }
    }
  }

  /** The ids between s and `last` are searched upwards for one the list has. */
  method FindNextListed(listed: set<nat>, s: nat, last: nat) returns (n: nat)
    ensures n == NextListed(listed, s, last)
  {
    var o := s + 1;
    while o <= last
      invariant NextListed(listed, s, last) == NextListedFrom(listed, s, o, last)
      decreases last + 1 - o
    {
      if o in listed {
        return o;
      }
      o := o + 1;
    }
    n := s;
  }

  method GetVendors(ids: set<nat>) returns (vs: seq<nat>)
    requires 0 !in ids
    ensures vs == Sorted(ids)
  {
    var max := LargestOf(ids);
    MaxIsUnique(ids, max, MaxOf(ids));
    vs := [];
    for n := 1 to max + 1
      invariant vs == Ascending(ids, n - 1)
    {
      vs := vs + if n in ids then [n] else [];
    }
  }

  lemma VendorsAreIncreasing(ids: set<nat>)
    ensures Increasing(Sorted(ids)) && forall i :: 0 <= i < |Sorted(ids)| ==> Sorted(ids)[i] > 0
  {
    AscendingIsSorted(ids, MaxOf(ids));
  }

  /** The encoder's loop over one restriction's sorted vendors. */
  method EncodeVendorRanges(ids: set<nat>, listed: set<nat>) returns (numEntries: nat, body: Outcome<Bits>)
    requires 0 !in ids
    ensures numEntries == |BridgedRanges(ids, listed)| && body == EncodeRanges(BridgedRanges(ids, listed))
  {
    hide EncodeRanges, NextListed, Sorted;
    var vendors := GetVendors(ids);
    VendorsAreIncreasing(ids);
    var startId := 0;
    numEntries := 0;
    var ranges: seq<Range> := [];
    ghost var all := BridgedRanges(ids, listed);
    ghost var ahead := all;
    for p := 0 to |vendors|
      invariant ahead == RangesFrom(vendors, listed, p, startId) && all == ranges + ahead
      invariant numEntries == |ranges| + if startId == 0 then 0 else 1
      invariant p == |vendors| ==> startId == 0
    {
      var vendorId := vendors[p];
      if startId == 0 {
        numEntries := numEntries + 1;
        startId := vendorId;
      }
      var next := FindNextListed(listed, vendorId, vendors[|vendors| - 1]);
      if p == |vendors| - 1 || vendors[p + 1] > next {
        ranges := ranges + [Range(startId, vendorId)];
        startId := 0;
        ahead := ahead[1..];
      }
    }
    assert ahead == [] && ranges == all;
    body := EncodeRanges(ranges);
  }

  method EncodeOneRestriction(key: Restriction, ids: set<nat>, listed: set<nat>) returns (r: Outcome<Bits>)
    requires 0 !in ids
    ensures r == EncodeEntry(key, ids, listed)
  {
    hide EncodeInt, EncodeRanges, BridgedRanges;
    var purpose, kind := EncodeInt(key.purposeId, PURPOSE_BITS), EncodeInt(key.kind, KIND_BITS);
    var numEntries, body := EncodeVendorRanges(ids, listed);
    var count := EncodeInt(numEntries, COUNT_BITS);
    if purpose.Err? || kind.Err? || count.Err? || body.Err? {
      return Err;
    }
    r := Ok(purpose.value + kind.value + count.value + body.value);
  }

  lemma EncodeEntriesStep(es: Entries, i: nat, listed: set<nat>)
    requires i < |es|
    ensures EncodeEntries(es[i..], listed) ==
              match (EncodeEntry(es[i].0, es[i].1, listed), EncodeEntries(es[i + 1..], listed))
              case (Ok(head), Ok(tail)) => Ok(head + tail)
              case _ => Err
  {
    hide EncodeEntry;
    assert es[i..][1..] == es[i + 1..];
  }

  method EncodeRestrictionVector(e: PurposeRestrictionVector, listed: set<nat>) returns (r: Outcome<Bits>)
    requires WellFormed(e.entries)
    ensures r == EncodeRestrictions(e.entries, listed)
  {
    hide EncodeInt, EncodeEntry, EncodeEntries;
    var es := e.entries;
    var count := EncodeInt(|es|, COUNT_BITS);
    if count.Err? { return Err; }
    var t := count.value;
    ghost var all := EncodeEntries(es, listed);
    ghost var ahead := all;
    assert es[0..] == es;
    for i := 0 to |es|
      invariant ahead == EncodeEntries(es[i..], listed) && (all.Ok? <==> ahead.Ok?)
      invariant all.Ok? ==> count.value + all.value == t + ahead.value
    {
      EncodeEntriesStep(es, i, listed);
      var entry := EncodeOneRestriction(es[i].0, es[i].1, listed);
      if entry.Err? { return Err; }
      t := t + entry.value;
      ahead := EncodeEntries(es[i + 1..], listed);
    }
    NoEntriesNoBits(listed);
    assert es[|es|..] == [] && t + [] == t;
    r := Ok(t);
  }

  lemma NoEntriesNoBits(listed: set<nat>)
    ensures EncodeEntries([], listed) == Ok([])
  {
  }

  method DecodeRestrictionVector(bits: Bits) returns (r: Outcome<PurposeRestrictionVector>)
    ensures r.Ok? <==> DecodeRestrictions(bits).Ok?
    ensures r.Ok? ==> fresh(r.value) && DecodeRestrictions(bits) == Ok((r.value.entries, r.value.bitLength))
  {
    hide DecodeEntryRanges, DecodeInt, Substr;
    var numRestrictions := DecodeInt(Substr(bits, 0, COUNT_BITS), COUNT_BITS);
    if numRestrictions.Err? { return Err; }
    var v := new PurposeRestrictionVector();
    var t: nat := COUNT_BITS;
    var left := numRestrictions.value;
    while left > 0
      invariant fresh(v) && DecodeRestrictions(bits) == DecodeEntries(bits, t, left, v.entries)
    {
      var purposeId := DecodeInt(Substr(bits, t, PURPOSE_BITS), PURPOSE_BITS);
      if purposeId.Err? { return Err; }
      var kind := DecodeInt(Substr(bits, t + 6, KIND_BITS), KIND_BITS);
      if kind.Err? { return Err; }
      var count := DecodeInt(Substr(bits, t + 8, COUNT_BITS), COUNT_BITS);
      if count.Err? { return Err; }
      var next := DecodeOneRestriction(v, bits, t + 20, count.value, Restriction(purposeId.value, kind.value));
      if next.Err? { return Err; }
      t := next.value;
      left := left - 1;
    }
    v.bitLength := t;
    r := Ok(v);
  }

  method DecodeOneRestriction(v: PurposeRestrictionVector, bits: Bits, start: nat, count: nat, key: Restriction)
    returns (next: Outcome<nat>)
    modifies v
    ensures next.Ok? <==> DecodeEntryRanges(bits, start, count, key, old(v.entries)).Ok?
    ensures next.Ok? ==> DecodeEntryRanges(bits, start, count, key, old(v.entries)) == Ok((v.entries, next.value))
  {
    hide DecodeRange, AddVendors;
    var t := start;
    var left := count;
    while left > 0
      invariant DecodeEntryRanges(bits, start, count, key, old(v.entries)) ==
                DecodeEntryRanges(bits, t, left, key, v.entries)
    {
      var entry := DecodeRange(bits, t);
      if entry.Err? { return Err; }
      var (range, after) := entry.value;
      if range.last < range.first { return Err; }
      var ok := AddRange(v, range, key);
      if !ok { return Err; }
      t, left := after, left - 1;
    }
    next := Ok(t);
  }

  method AddRange(v: PurposeRestrictionVector, range: Range, key: Restriction) returns (ok: bool)
    requires range.first <= range.last
    modifies v
    ensures ok == key.Valid()
    ensures ok ==> v.entries == AddVendors(old(v.entries), key, Ids(range))
  {
    ok := v.Add(range.first, key);
    if !ok {
      return;
    }
    assert Span(range.first, range.first) == {range.first};
    var m := range.first;
    while m < range.last
      invariant ok && range.first <= m <= range.last
      invariant v.entries == AddVendors(old(v.entries), key, Span(range.first, m))
    {
      AddTwice(old(v.entries), key, Span(range.first, m), {m + 1});
      assert Span(range.first, m + 1) == Span(range.first, m) + {m + 1};
      m := m + 1;
      ok := v.Add(m, key);
    }
  }
}
