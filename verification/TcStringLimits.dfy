/** Exactly which models can be written as consent strings: where each field's encoder fails. */
module TcStringLimits {
  import opened Wrappers
  import opened BitStrings
  import opened Base64Url
  import opened ConsentVector
  import opened Restrictions
  import opened TcString

  // ---- vendors and restrictions

  predicate RangeFits(r: ConsentVector.Range) {
    r.first < 65536 && r.last < 65536
  }

  lemma {:induction false} RangesEncodeIff(rs: seq<ConsentVector.Range>)
    ensures EncodeRanges(rs).Ok? <==> forall i :: 0 <= i < |rs| ==> RangeFits(rs[i])
  {
    hide EncodeInt;
    if rs != [] {
      RangesEncodeIff(rs[1..]);
      FieldSizes();
      IntFits(rs[0].first, VENDOR_BITS);
      IntFits(rs[0].last, VENDOR_BITS);
      assert forall i :: 0 < i < |rs| ==> rs[i] == rs[1..][i - 1];
    }
  }

  lemma VendorsEncodeIff(ids: set<nat>)
    requires 0 !in ids
    ensures EncodeVendors(ids, MaxOf(ids)).Ok? <==> VendorsFit(ids)
  {
    FieldSizes();
    var max := MaxOf(ids);
    IntFits(max, VENDOR_BITS);
    if max < 65536 {
      EncodingFailsIffTooManyRanges(ids, max);
    }
  }

  /** The largest id fits 16 bits, and a list of ranges that is chosen has a count of 12 bits. */
  ghost predicate VendorsFit(ids: set<nat>) {
    MaxOf(ids) < 65536 && (UsesRanges(ids, MaxOf(ids)) ==> |RunsUpTo(ids, MaxOf(ids))| < 4096)
  }

  /** The ranges over sorted vendors stay below the last of them, where the last range ends. */
  lemma {:induction false} RangesEnd(vs: seq<nat>, listed: set<nat>, p: nat, c: nat)
    requires p < |vs| && Increasing(vs) && c <= vs[p]
    ensures var rs, last := RangesFrom(vs, listed, p, c), vs[|vs| - 1];
            && rs != [] && rs[|rs| - 1].last == last
            && forall i :: 0 <= i < |rs| ==> rs[i].first <= last && rs[i].last <= last
    decreases |vs| - p
  {
    hide NextListed;
    if p < |vs| - 1 {
      var first := if c == 0 then vs[p] else c;
      RangesEnd(vs, listed, p + 1, 0);
      RangesEnd(vs, listed, p + 1, first);
    }
  }

  lemma BridgedEncodeIff(ids: set<nat>, listed: set<nat>)
    requires 0 !in ids
    ensures EncodeRanges(BridgedRanges(ids, listed)).Ok? <==> MaxOf(ids) < 65536
  {
    var max, vs := MaxOf(ids), Sorted(ids);
    RangesEncodeIff(BridgedRanges(ids, listed));
    AscendingIsSorted(ids, max);
    if ids != {} {
      assert max in vs;
      assert vs[|vs| - 1] == max;
      RangesEnd(vs, listed, 0, 0);
    }
  }

  ghost predicate EntryFits(e: (Restriction, set<nat>), listed: set<nat>) {
    e.0.purposeId < 64 && |BridgedRanges(e.1, listed)| < 4096 && MaxOf(e.1) < 65536
  }

  lemma EntryEncodesIff(e: (Restriction, set<nat>), listed: set<nat>)
    requires e.0.Valid() && 0 !in e.1
    ensures EncodeEntry(e.0, e.1, listed).Ok? <==> EntryFits(e, listed)
  {
    hide EncodeInt, BridgedRanges, MaxOf;
    FieldSizes();
    IntFits(e.0.purposeId, PURPOSE_BITS);
    IntFits(e.0.kind, KIND_BITS);
    IntFits(|BridgedRanges(e.1, listed)|, COUNT_BITS);
    BridgedEncodeIff(e.1, listed);
  }

  lemma {:induction false} EntriesEncodeIff(es: Entries, listed: set<nat>)
    requires WellFormed(es)
    ensures EncodeEntries(es, listed).Ok? <==> forall i :: 0 <= i < |es| ==> EntryFits(es[i], listed)
  {
    hide EncodeEntry, EntryFits;
    if es != [] {
      EntryEncodesIff(es[0], listed);
      assert forall i :: 0 < i < |es| ==> es[i] == es[1..][i - 1];
      EntriesEncodeIff(es[1..], listed);
    }
  }

  ghost predicate RestrictionsFit(es: Entries, listed: set<nat>) {
    |es| < 4096 && forall i :: 0 <= i < |es| ==> EntryFits(es[i], listed)
  }

  /** Restrictions fail to encode only on too many entries or ranges, or too large ids. */
  lemma RestrictionsEncodeIff(es: Entries, listed: set<nat>)
    requires WellFormed(es)
    ensures EncodeRestrictions(es, listed).Ok? <==> RestrictionsFit(es, listed)
  {
    hide EncodeInt, EncodeEntries;
    FieldSizes();
    IntFits(|es|, COUNT_BITS);
    EntriesEncodeIff(es, listed);
  }

  // ---- fields and whole models

  /** What each encoder asks of a field. Bit fields cut off what they cannot hold, so they ask nothing. */
  ghost predicate FieldFits(m: Model, f: Field, listed: set<nat>)
    requires Typed(m)
  {
    match EncoderOf(f)
    case IntEncoder => m[f].n < Pow2(Width(f, 0))
    case DateEncoder => 0 <= Tenths(m[f].n) < Pow2(36)
    case LangEncoder => |m[f].s| >= 2 && 'A' <= Upper(m[f].s[0]) <= 'Z' && 'A' <= Upper(m[f].s[1]) <= 'Z'
    case VendorVectorEncoder => VendorsFit(m[f].ids)
    case RestrictionEncoder => RestrictionsFit(m[f].entries, listed)
    case BooleanEncoder | FixedVectorEncoder => true
  }

  lemma CodeEncodesIff(s: string)
    ensures EncodeCode(s).Ok? <==> |s| >= 2 && 'A' <= Upper(s[0]) <= 'Z' && 'A' <= Upper(s[1]) <= 'Z'
  {
    hide EncodeInt;
    FieldSizes();
    if |s| >= 2 {
      IntFits(Upper(s[0]) as int - 'A' as int, 6);
      IntFits(Upper(s[1]) as int - 'A' as int, 6);
    }
  }

  lemma FieldEncodesIff(m: Model, f: Field, listed: set<nat>)
    requires Typed(m)
    ensures EncodeField(m, f, listed).Ok? <==> FieldFits(m, f, listed)
  {
    hide EncodeInt, EncodeCode, EncodeVendors, EncodeRestrictions, VendorsFit, RestrictionsFit, Pow2, Upper, Tenths;
    hide MaxOf;
    match EncoderOf(f)
    case IntEncoder => IntFits(m[f].n, Width(f, 0));
    case DateEncoder => IntFits(Tenths(m[f].n), 36);
    case LangEncoder => CodeEncodesIff(m[f].s);
    case VendorVectorEncoder => VendorsEncodeIff(m[f].ids);
    case RestrictionEncoder => RestrictionsEncodeIff(m[f].entries, listed);
    case BooleanEncoder =>
    case FixedVectorEncoder =>
  }

  lemma {:induction false} FieldsEncodeIff(m: Model, fs: seq<Field>, listed: set<nat>)
    requires Typed(m)
    ensures EncodeFields(m, fs, listed).Ok? <==> forall f :: f in fs ==> FieldFits(m, f, listed)
  {
    hide Typed, FieldFits, EncodeField;
    if fs != [] {
      FieldEncodesIff(m, fs[0], listed);
      FieldsEncodeIff(m, fs[1..], listed);
      assert fs == [fs[0]] + fs[1..];
    }
  }

  ghost predicate SegmentFits(m: Model, s: Segment, listed: set<nat>)
    requires Typed(m)
  {
    m[Version].n == 2 && forall f :: f in FieldsOf(s) ==> FieldFits(m, f, listed)
  }

  lemma SegmentEncodesIff(m: Model, s: Segment, listed: set<nat>)
    requires Typed(m)
    ensures EncodeSegment(m, s, listed).Ok? <==> SegmentFits(m, s, listed)
  {
    hide FieldFits, EncodeFields, FieldsOf, Encode;
    FieldsEncodeIff(m, FieldsOf(s), listed);
    if SegmentBits(m, s, listed).Ok? {
      SegmentStarts(m, s, listed);
      Base64RoundTrip(SegmentBits(m, s, listed).value);
    }
  }

  lemma {:induction false} SegmentsEncodeIff(m: Model, segments: seq<Segment>, listed: set<nat>)
    requires Typed(m)
    ensures EncodeSegments(m, segments, listed).Ok? <==> forall s :: s in segments ==> SegmentFits(m, s, listed)
  {
    hide Typed, SegmentFits, EncodeSegment;
    if segments != [] {
      SegmentEncodesIff(m, segments[0], listed);
      SegmentsEncodeIff(m, segments[1..], listed);
      assert segments == [segments[0]] + segments[1..];
    }
  }

  /** A model is written exactly when its version is 2 and every field of the segments fits its encoder. */
  lemma ModelEncodesIff(m: Model, segments: seq<Segment>, listed: set<nat>)
    requires Typed(m)
    ensures EncodeModel(m, segments, listed).Ok? <==> forall s :: s in segments ==> SegmentFits(m, s, listed)
  {
    hide EncodeSegments, SegmentFits;
    SegmentsEncodeIff(m, segments, listed);
  }

  // ---- there are such models

  function Plain(f: Field): Property {
    match EncoderOf(f)
    case IntEncoder => Num(if f.Version? then 2 else if f.CmpId? then 31 else 0)
    case DateEncoder => Num(0)
    case BooleanEncoder => Flag(false)
    case LangEncoder => Code("EN")
    case FixedVectorEncoder => IdSet({})
    case VendorVectorEncoder => IdSet({})
    case RestrictionEncoder => Restricted([])
  }

  /** A model without any consent is written in all its segments, and comes back unchanged. */
  lemma PlainModelRoundTrip(segments: seq<Segment>, listed: set<nat>, t: Model, f: Field)
    requires segments != [] && Blank(t)
    ensures var m := map g: Field | true :: Plain(g);
            && Typed(m) && EncodeModel(m, segments, listed).Ok?
            && DecodeModel(EncodeModel(m, segments, listed).value, t).Ok?
            && f in DecodeModel(EncodeModel(m, segments, listed).value, t).value
            && (Written(segments, f) ==> DecodeModel(EncodeModel(m, segments, listed).value, t).value[f] == m[f])
  {
    var m := map g: Field | true :: Plain(g);
    assert Typed(m);
    forall g: Field ensures FieldFits(m, g, listed) && FitsWire(m, g, listed) {
      PlainFits(m, g, listed);
    }
    hide Typed, FieldFits, FitsWire, EncodeModel, DecodeModel, Plain, FieldsOf, Written, Blank;
    ModelEncodesIff(m, segments, listed);
    assert m[CmpId].n == 31;
    TcStringRoundTrip(m, segments, listed, t, f);
    UnchangedIffFits(m, f, listed);
  }

  /** The same model with a CMP id of 0, the value it has before one is set, is written but not read. */
  lemma UnsetCmpIdIsRefused(listed: set<nat>, t: Model)
    requires Blank(t)
    ensures var m := (map g: Field | true :: Plain(g))[CmpId := Num(0)];
            && Typed(m) && EncodeModel(m, [Core], listed).Ok?
            && DecodeModel(EncodeModel(m, [Core], listed).value, t).Err?
  {
    var plain := map g: Field | true :: Plain(g);
    var m := plain[CmpId := Num(0)];
    assert Typed(plain) && Typed(m);
    forall g: Field ensures FieldFits(m, g, listed) {
      PlainFits(plain, g, listed);
      UnsetFits(plain, g, listed);
    }
    assert SegmentFits(m, Core, listed) && m[CmpId].n == 0;
    hide Typed, FieldFits, SegmentFits, EncodeModel, DecodeModel, Plain, FieldsOf, Written, Blank;
    ModelEncodesIff(m, [Core], listed);
    TcStringRoundTrip(m, [Core], listed, t, CmpId);
  }

  lemma UnsetFits(m: Model, f: Field, listed: set<nat>)
    requires Typed(m) && FieldFits(m, f, listed)
    ensures Typed(m[CmpId := Num(0)]) && FieldFits(m[CmpId := Num(0)], f, listed)
  {
    hide Pow2, VendorsFit, RestrictionsFit, Tenths, Upper;
    PowersArePositive(12);
  }

  lemma PlainFits(m: Model, f: Field, listed: set<nat>)
    requires Typed(m) && m[f] == Plain(f)
    ensures FieldFits(m, f, listed) && FitsWire(m, f, listed)
  {
    assert VendorsFit({}) && RestrictionsFit([], listed);
    hide Pow2, VendorsFit, RestrictionsFit, NoGapBridged, Tenths, WellFormed;
    match EncoderOf(f)
    case IntEncoder => PlainNumberFits(f);
    case DateEncoder => PlainDateFits();
    case _ =>
  }

  lemma PlainNumberFits(f: Field)
    requires EncoderOf(f).IntEncoder?
    ensures Plain(f).n < Pow2(Width(f, 0))
  {
    FieldSizes();
    hide Pow2;
  }

  lemma PlainDateFits()
    ensures 0 <= Tenths(0) < Pow2(36) && 0 % 100 == 0
  {
    PowersArePositive(36);
  }

}
