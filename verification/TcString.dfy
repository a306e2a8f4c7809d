/**
  * Consent strings of version 2: a model's fields written bit by bit into segments, each segment a
  * base64url string, the segments joined by dots.
  */
module TcString {
  import opened Wrappers
  import opened BitStrings
  import opened Base64Url
  import opened Splitting
  import opened ConsentVector
  import opened Restrictions

  datatype Field =
    | Version | Created | LastUpdated | CmpId | CmpVersion | ConsentScreen | ConsentLanguage
    | VendorListVersion | PolicyVersion | IsServiceSpecific | UseNonStandardTexts
    | SpecialFeatureOptins | PurposeConsents | PurposeLegitimateInterests | PurposeOneTreatment
    | PublisherCountryCode | VendorConsents | VendorLegitimateInterests | PublisherRestrictions
    | VendorsDisclosed | VendorsAllowed
    | PublisherConsents | PublisherLegitimateInterests | NumCustomPurposes
    | PublisherCustomConsents | PublisherCustomLegitimateInterests

  /** A field's value: a number (dates in milliseconds), a flag, a letter code, ids, or restrictions. */
  datatype Property =
    | Num(n: int) | Flag(b: bool) | Code(s: string) | IdSet(ids: set<nat>) | Restricted(entries: Entries)

  /** A consent model as the codec sees it: it gets and sets properties by field name. */
  type Model = map<Field, Property>

  datatype Encoder =
    | IntEncoder | DateEncoder | BooleanEncoder | LangEncoder
    | FixedVectorEncoder | VendorVectorEncoder | RestrictionEncoder

  function EncoderOf(f: Field): Encoder {
    match f
    case Created | LastUpdated => DateEncoder
    case ConsentLanguage | PublisherCountryCode => LangEncoder
    case IsServiceSpecific | UseNonStandardTexts | PurposeOneTreatment => BooleanEncoder
    case SpecialFeatureOptins | PurposeConsents | PurposeLegitimateInterests => FixedVectorEncoder
    case PublisherConsents | PublisherLegitimateInterests => FixedVectorEncoder
    case PublisherCustomConsents | PublisherCustomLegitimateInterests => FixedVectorEncoder
    case VendorConsents | VendorLegitimateInterests | VendorsDisclosed | VendorsAllowed => VendorVectorEncoder
    case PublisherRestrictions => RestrictionEncoder
    case _ => IntEncoder
  }

  predicate IsCustom(f: Field) {
    f.PublisherCustomConsents? || f.PublisherCustomLegitimateInterests?
  }

  /** Bit lengths; the custom purposes take theirs from the model, and self-sized fields have none. */
  function Width(f: Field, custom: nat): nat {
    match f
    case Created | LastUpdated => 36
    case CmpId | CmpVersion | ConsentLanguage | VendorListVersion | PublisherCountryCode | SpecialFeatureOptins => 12
    case PurposeConsents | PurposeLegitimateInterests | PublisherConsents | PublisherLegitimateInterests => 24
    case IsServiceSpecific | UseNonStandardTexts | PurposeOneTreatment => 1
    case PublisherCustomConsents | PublisherCustomLegitimateInterests => custom
    case _ => 6
  }

  predicate SelfSized(f: Field) {
    EncoderOf(f).VendorVectorEncoder? || EncoderOf(f).RestrictionEncoder?
  }

  /** Every field is present with a value of its kind, as the model's class sees to. */
  ghost predicate Typed(m: Model) {
    && (forall f: Field :: f in m)
    && (forall f: Field ::
          match EncoderOf(f)
          case IntEncoder => m[f].Num? && m[f].n >= 0
          case DateEncoder => m[f].Num?
          case BooleanEncoder => m[f].Flag?
          case LangEncoder => m[f].Code?
          case RestrictionEncoder => m[f].Restricted? && WellFormed(m[f].entries)
          case _ => m[f].IdSet? && 0 !in m[f].ids)
  }

  // ---- letter codes and dates

  function Upper(c: char): char {
    if 'a' <= c <= 'z' then (c as int - 'a' as int + 'A' as int) as char else c
  }

  function EncodeLetter(c: char): Outcome<Bits> {
    if 'A' <= Upper(c) <= 'Z' then EncodeInt(Upper(c) as int - 'A' as int, 6) else Err
  }

  /**
    * The first two characters of a code; there must be two, and they must be letters. For a code that is
    * too short the source writes text that is not bits, which only the segment's encoder refuses; here it
    * fails at once, as bits are all a field can be written as.
    */
  function EncodeCode(s: string): Outcome<Bits> {
    if |s| < 2 then Err
    else match (EncodeLetter(s[0]), EncodeLetter(s[1]))
      case (Ok(a), Ok(b)) => Ok(a + b)
      case _ => Err
  }

  function DecodeLetter(bits: Bits): Outcome<char> {
    match DecodeInt(bits, 6)
    case Ok(n) => if n < 64 then Ok(('A' as int + n) as char) else Err
    case Err => Err
  }

  function DecodeCode(bits: Bits): Outcome<string> {
    if |bits| != 12 then Err
    else match (DecodeLetter(bits[..6]), DecodeLetter(bits[6..]))
      case (Ok(a), Ok(b)) => Ok([a, b])
      case _ => Err
  }

  function UpperCode(s: string): string
    requires |s| >= 2
  {
    [Upper(s[0]), Upper(s[1])]
  }

  /** Dates travel in tenths of a second, rounded to the nearest. */
  function Tenths(ms: int): int {
    (ms + 50) / 100
  }

  // ---- fields

  ghost function EncodeField(m: Model, f: Field, listed: set<nat>): Outcome<Bits>
    requires Typed(m)
  {
    var width := Width(f, m[NumCustomPurposes].n);
    match EncoderOf(f)
    case IntEncoder => EncodeInt(m[f].n, width)
    case DateEncoder => EncodeInt(Tenths(m[f].n), width)
    case BooleanEncoder => Ok([m[f].b])
    case LangEncoder => EncodeCode(m[f].s)
    case FixedVectorEncoder => Ok(BitField(m[f].ids, width))
    case VendorVectorEncoder => EncodeVendors(m[f].ids, MaxOf(m[f].ids))
    case RestrictionEncoder => EncodeRestrictions(m[f].entries, listed)
  }

  /** What a property's setter accepts, and what it stores. */
  function Assigned(f: Field, v: Property): Outcome<Property> {
    if f.CmpId? && v.Num? && v.n <= 1 then Err
    else if f.PublisherCountryCode? && v.Code? then
      if |v.s| == 2 && 'A' <= v.s[0] <= 'z' && 'A' <= v.s[1] <= 'z' then Ok(Code(UpperCode(v.s))) else Err
    else Ok(v)
  }

  /** A field read at a position: its value and its length. */
  function DecodeField(bits: Bits, at: nat, f: Field, custom: nat): Outcome<(Property, nat)> {
    var width := Width(f, custom);
    var d := if !SelfSized(f) then Substr(bits, at, width) else if at <= |bits| then bits[at..] else [];
    match EncoderOf(f)
    case IntEncoder => (match DecodeInt(d, width) case Ok(n) => Ok((Num(n), width)) case Err => Err)
    case DateEncoder => (match DecodeInt(d, width) case Ok(n) => Ok((Num(100 * n), width)) case Err => Err)
    case BooleanEncoder => Ok((Flag(d == [true]), width))
    case LangEncoder => (match DecodeCode(d) case Ok(s) => Ok((Code(s), width)) case Err => Err)
    case FixedVectorEncoder => if |d| == width then Ok((IdSet(IdsOfField(d)), width)) else Err
    case VendorVectorEncoder =>
      (match DecodeVendors(d) case Ok((ids, length)) => Ok((IdSet(ids), length)) case Err => Err)
    case RestrictionEncoder =>
      (match DecodeRestrictions(d) case Ok((es, length)) => Ok((Restricted(es), length)) case Err => Err)
  }

  /** The value a field has after a trip through the wire. */
  ghost function Carried(m: Model, f: Field, listed: set<nat>): Property
    requires Typed(m)
  {
    match EncoderOf(f)
    case DateEncoder => Num(100 * Tenths(m[f].n))
    case LangEncoder => Code(if |m[f].s| >= 2 then UpperCode(m[f].s) else m[f].s)
    case FixedVectorEncoder => IdSet(set i | i in m[f].ids && 0 < i <= Width(f, m[NumCustomPurposes].n))
    case RestrictionEncoder => Restricted(Restrictions.Carried(m[f].entries, listed))
    case _ => m[f]
  }

  // ---- segments

  datatype Segment = Core | DisclosedVendors | AllowedVendors | PublisherTc

  function SegmentId(s: Segment): nat {
    match s case Core => 0 case DisclosedVendors => 1 case AllowedVendors => 2 case PublisherTc => 3
  }

  function SegmentOf(id: nat): Option<Segment> {
    if id == 0 then Some(Core) else if id == 1 then Some(DisclosedVendors)
    else if id == 2 then Some(AllowedVendors) else if id == 3 then Some(PublisherTc) else None
  }

  function FieldsOf(s: Segment): seq<Field> {
    match s
    case Core =>
      [Version, Created, LastUpdated, CmpId, CmpVersion, ConsentScreen, ConsentLanguage, VendorListVersion,
       PolicyVersion, IsServiceSpecific, UseNonStandardTexts, SpecialFeatureOptins, PurposeConsents,
       PurposeLegitimateInterests, PurposeOneTreatment, PublisherCountryCode, VendorConsents,
       VendorLegitimateInterests, PublisherRestrictions]
    case DisclosedVendors => [VendorsDisclosed]
    case AllowedVendors => [VendorsAllowed]
    case PublisherTc =>
      [PublisherConsents, PublisherLegitimateInterests, NumCustomPurposes, PublisherCustomConsents,
       PublisherCustomLegitimateInterests]
  }

  ghost function EncodeFields(m: Model, fs: seq<Field>, listed: set<nat>): Outcome<Bits>
    requires Typed(m)
  {
    if fs == [] then Ok([])
    else match (EncodeField(m, fs[0], listed), EncodeFields(m, fs[1..], listed))
      case (Ok(head), Ok(tail)) => Ok(head + tail)
      case _ => Err
  }

  function SegmentHead(s: Segment): Bits {
    if s.Core? then [] else [false, s.AllowedVendors? || s.PublisherTc?, s.DisclosedVendors? || s.PublisherTc?]
  }

  /** The segment type is written as a three-bit number. */
  lemma SegmentHeadIsId(s: Segment)
    ensures !s.Core? ==> EncodeInt(SegmentId(s), 3) == Ok(SegmentHead(s))
    ensures !s.Core? ==> Value(SegmentHead(s)) == SegmentId(s)
  {
    var h := SegmentHead(s);
    if !s.Core? {
      assert h[..2][..1][..0] == [] && h[..2] == [h[0], h[1]] && h[..2][..1] == [h[0]];
      assert Value(h[..2][..1]) == 0 && Value(h[..2]) == if h[1] then 1 else 0;
      IntDecodeRoundTrip(h);
    }
  }

  ghost function SegmentBits(m: Model, s: Segment, listed: set<nat>): Outcome<Bits>
    requires Typed(m)
  {
    if m[Version].n != 2 then Err
    else match EncodeFields(m, FieldsOf(s), listed)
      case Ok(bits) => Ok(SegmentHead(s) + bits)
      case Err => Err
  }

  ghost function EncodeSegment(m: Model, s: Segment, listed: set<nat>): Outcome<string>
    requires Typed(m)
  {
    match SegmentBits(m, s, listed)
    case Ok(bits) => Encode(bits)
    case Err => Err
  }

  /** Reading fields one after the other into t; a custom field of width 0 is left alone. */
  function DecodeFields(bits: Bits, at: nat, t: Model, fs: seq<Field>): Outcome<Model>
    decreases |fs|
  {
    if fs == [] then Ok(t)
    else
      var custom := CustomWidth(t);
      if IsCustom(fs[0]) && custom == 0 then DecodeFields(bits, at, t, fs[1..])
      else match DecodeField(bits, at, fs[0], custom)
        case Err => Err
        case Ok((v, length)) =>
          match Assigned(fs[0], v)
          case Err => Err
          case Ok(stored) => DecodeFields(bits, at + length, t[fs[0] := stored], fs[1..])
  }

  function CustomWidth(t: Model): nat {
    if NumCustomPurposes in t && t[NumCustomPurposes].Num? && t[NumCustomPurposes].n >= 0
    then t[NumCustomPurposes].n else 0
  }

  /** The segment type stands in the first three bits; the core's version begins with three zeros. */
  function SegmentTypeOf(text: string): Outcome<Segment> {
    if text == "" then Err
    else match Decode(text[..1])
      case Err => Err
      case Ok(bits) =>
        match DecodeInt(Substr(bits, 0, 3), 3)
        case Err => Err
        case Ok(id) => (match SegmentOf(id) case Some(s) => Ok(s) case None => Err)
  }

  function DecodeSegment(text: string, t: Model, s: Segment): Outcome<Model> {
    match Decode(text)
    case Err => Err
    case Ok(bits) =>
      if s.Core? then
        match DecodeInt(Substr(bits, 0, 6), 6)
        case Err => Err
        case Ok(version) => if version != 2 then Err else DecodeFields(bits, 0, t[Version := Num(2)], FieldsOf(s))
      else DecodeFields(bits, 3, t, FieldsOf(s))
  }

  ghost function EncodeSegments(m: Model, segments: seq<Segment>, listed: set<nat>): Outcome<seq<string>>
    requires Typed(m)
  {
    if segments == [] then Ok([])
    else match (EncodeSegment(m, segments[0], listed), EncodeSegments(m, segments[1..], listed))
      case (Ok(head), Ok(tail)) => Ok([head] + tail)
      case _ => Err
  }

  ghost function EncodeModel(m: Model, segments: seq<Segment>, listed: set<nat>): Outcome<string>
    requires Typed(m)
  {
    match EncodeSegments(m, segments, listed)
    case Ok(texts) => Ok(Join(texts, '.'))
    case Err => Err
  }

  function DecodeSegments(texts: seq<string>, t: Model): Outcome<Model> {
    if texts == [] then Ok(t)
    else match SegmentTypeOf(texts[0])
      case Err => Err
      case Ok(s) =>
        match DecodeSegment(texts[0], t, s)
        case Err => Err
        case Ok(t') => DecodeSegments(texts[1..], t')
  }

  function DecodeModel(text: string, t: Model): Outcome<Model> {
    DecodeSegments(Split(text, '.'), t)
  }

  // ---- one field

  lemma LetterRoundTrip(c: char)
    requires EncodeLetter(c).Ok?
    ensures |EncodeLetter(c).value| == 6 && DecodeLetter(EncodeLetter(c).value) == Ok(Upper(c))
  {
    IntRoundTrip(Upper(c) as int - 'A' as int, 6);
  }

  lemma CodeRoundTrip(s: string)
    requires EncodeCode(s).Ok?
    ensures |EncodeCode(s).value| == 12 && DecodeCode(EncodeCode(s).value) == Ok(UpperCode(s))
    ensures 'A' <= UpperCode(s)[0] <= 'Z' && 'A' <= UpperCode(s)[1] <= 'Z'
  {
    LetterRoundTrip(s[0]);
    LetterRoundTrip(s[1]);
    var a, b := EncodeLetter(s[0]).value, EncodeLetter(s[1]).value;
    assert (a + b)[..6] == a && (a + b)[6..] == b;
  }

  lemma SizedFieldReads(m: Model, f: Field, listed: set<nat>, d: Bits)
    requires Typed(m) && EncodeField(m, f, listed) == Ok(d) && !SelfSized(f)
    ensures |d| == Width(f, m[NumCustomPurposes].n)
    ensures DecodeField(d, 0, f, m[NumCustomPurposes].n) == Ok((Carried(m, f, listed), |d|))
  {
    hide EncodeInt, DecodeInt, EncodeCode, DecodeCode;
    var width := Width(f, m[NumCustomPurposes].n);
    match EncoderOf(f) {
      case IntEncoder => IntRoundTrip(m[f].n, width);
      case DateEncoder => IntRoundTrip(Tenths(m[f].n), width);
      case BooleanEncoder =>
      case LangEncoder => CodeRoundTrip(m[f].s); CodeNeedsTwo(m[f].s);
      case FixedVectorEncoder => FieldRoundTrip(m[f].ids, width);
    }
    assert Substr(d, 0, |d|) == d;
  }

  lemma CodeNeedsTwo(s: string)
    ensures EncodeCode(s).Ok? ==> |s| >= 2
  {
  }

  /** Every field, wherever it stands and whatever follows it, reads back with its own length. */
  lemma FieldReads(m: Model, f: Field, listed: set<nat>, bits: Bits, at: nat)
    requires Typed(m) && EncodeField(m, f, listed).Ok? && At(bits, at, EncodeField(m, f, listed).value)
    ensures DecodeField(bits, at, f, m[NumCustomPurposes].n) ==
              Ok((Carried(m, f, listed), |EncodeField(m, f, listed).value|))
  {
    var d := EncodeField(m, f, listed).value;
    if SelfSized(f) {
      hide EncodeVendors, DecodeVendors, EncodeRestrictions, DecodeRestrictions, EncodeInt, EncodeCode;
      AtSuffix(bits, at, d);
      if EncoderOf(f).VendorVectorEncoder? {
        VendorsRoundTrip(m[f].ids, MaxOf(m[f].ids), bits[at..]);
      } else {
        RestrictionsRoundTrip(m[f].entries, listed, bits[at..]);
      }
    } else {
      hide EncodeField, DecodeInt, DecodeCode, Carried;
      SizedFieldReads(m, f, listed, d);
      AtReads(bits, at, d);
      assert Substr(d, 0, |d|) == d;
    }
  }

  /** Everything the field holds can be written: full tenths, two capital letters, ids within the width. */
  ghost predicate FitsWire(m: Model, f: Field, listed: set<nat>)
    requires Typed(m)
  {
    match EncoderOf(f)
    case DateEncoder => m[f].n % 100 == 0
    case LangEncoder => |m[f].s| < 2 || (|m[f].s| == 2 && forall c :: c in m[f].s ==> !('a' <= c <= 'z'))
    case FixedVectorEncoder => forall i :: i in m[f].ids ==> i <= Width(f, m[NumCustomPurposes].n)
    case RestrictionEncoder =>
      forall i :: 0 <= i < |m[f].entries| ==> m[f].entries[i].1 != {} && NoGapBridged(m[f].entries[i].1, listed)
    case _ => true
  }

  lemma KeptIff(ids: set<nat>, width: nat)
    requires 0 !in ids
    ensures (set i | i in ids && 0 < i <= width) == ids <==> forall i :: i in ids ==> i <= width
  {
    var kept := set i | i in ids && 0 < i <= width;
    assert kept == ids <==> forall i :: i in ids ==> i in kept;
  }

  lemma UpperIff(c: char)
    ensures Upper(c) == c <==> !('a' <= c <= 'z')
  {
  }

  lemma UpperCodeIff(s: string)
    requires |s| >= 2
    ensures UpperCode(s) == s <==> |s| == 2 && forall c :: c in s ==> !('a' <= c <= 'z')
  {
    UpperIff(s[0]);
    UpperIff(s[1]);
    assert s[0] in s && s[1] in s;
    assert UpperCode(s)[0] == Upper(s[0]) && UpperCode(s)[1] == Upper(s[1]);
    if |s| == 2 {
      assert s == [s[0], s[1]];
    }
  }

  lemma CodeUnchangedIff(m: Model, f: Field, listed: set<nat>)
    requires Typed(m) && EncoderOf(f).LangEncoder?
    ensures Carried(m, f, listed) == m[f] <==> FitsWire(m, f, listed)
  {
    hide UpperCode;
    if |m[f].s| >= 2 {
      UpperCodeIff(m[f].s);
    }
  }

  lemma IdsUnchangedIff(m: Model, f: Field, listed: set<nat>)
    requires Typed(m) && EncoderOf(f).FixedVectorEncoder?
    ensures Carried(m, f, listed) == m[f] <==> FitsWire(m, f, listed)
  {
    hide Width;
    KeptIff(m[f].ids, Width(f, m[NumCustomPurposes].n));
  }

  lemma RestrictionsUnchangedIff(m: Model, f: Field, listed: set<nat>)
    requires Typed(m) && EncoderOf(f).RestrictionEncoder?
    ensures Carried(m, f, listed) == m[f] <==> FitsWire(m, f, listed)
  {
    hide NoGapBridged;
    CarriedUnchangedIff(m[f].entries, listed);
  }

  /** A field comes back as it was exactly when the wire can hold all of it. */
  lemma UnchangedIffFits(m: Model, f: Field, listed: set<nat>)
    requires Typed(m)
    ensures Carried(m, f, listed) == m[f] <==> FitsWire(m, f, listed)
  {
    if EncoderOf(f).LangEncoder? {
      hide FitsWire, Carried;
      CodeUnchangedIff(m, f, listed);
    } else if EncoderOf(f).FixedVectorEncoder? {
      hide FitsWire, Carried;
      IdsUnchangedIff(m, f, listed);
    } else if EncoderOf(f).RestrictionEncoder? {
      hide FitsWire, Carried;
      RestrictionsUnchangedIff(m, f, listed);
    }
  }

  // ---- a segment

  /** Copying a field as the wire carries it; the decoder leaves a zero-width custom field alone. */
  ghost function Copy(t: Model, m: Model, f: Field, listed: set<nat>): Model
    requires Typed(m)
  {
    if IsCustom(f) && m[NumCustomPurposes].n == 0 then t else t[f := Carried(m, f, listed)]
  }

  ghost function CopyAll(t: Model, m: Model, fs: seq<Field>, listed: set<nat>): Model
    requires Typed(m)
    decreases |fs|
  {
    if fs == [] then t else CopyAll(Copy(t, m, fs[0], listed), m, fs[1..], listed)
  }

  /** The custom purposes are only read once their number is known. */
  ghost predicate CountFirst(t: Model, m: Model, fs: seq<Field>)
    requires Typed(m)
  {
    || CustomWidth(t) == m[NumCustomPurposes].n
    || forall i :: 0 <= i < |fs| && IsCustom(fs[i]) ==> NumCustomPurposes in fs[..i]
  }

  lemma AssignedAsCarried(m: Model, f: Field, listed: set<nat>)
    requires Typed(m) && EncodeField(m, f, listed).Ok?
    ensures f.CmpId? && m[CmpId].n <= 1 ==> Assigned(f, Carried(m, f, listed)).Err?
    ensures !f.CmpId? || m[CmpId].n > 1 ==> Assigned(f, Carried(m, f, listed)) == Ok(Carried(m, f, listed))
  {
    hide EncodeInt, EncodeLetter;
    if f.PublisherCountryCode? {
      CodeRoundTrip(m[f].s);
    }
  }

  lemma CountFirstStep(t: Model, m: Model, fs: seq<Field>, listed: set<nat>)
    requires Typed(m) && fs != [] && CountFirst(t, m, fs)
    ensures CountFirst(Copy(t, m, fs[0], listed), m, fs[1..])
    ensures IsCustom(fs[0]) ==> CustomWidth(t) == m[NumCustomPurposes].n
  {
    var t' := Copy(t, m, fs[0], listed);
    if CustomWidth(t) == m[NumCustomPurposes].n || fs[0] == NumCustomPurposes {
      assert CustomWidth(t') == m[NumCustomPurposes].n;
    } else {
      forall i | 0 <= i < |fs[1..]| && IsCustom(fs[1..][i]) ensures NumCustomPurposes in fs[1..][..i] {
        assert fs[1..][i] == fs[i + 1] && NumCustomPurposes in fs[..i + 1];
        assert fs[..i + 1] == [fs[0]] + fs[1..][..i];
      }
    }
  }

  /** The decoder takes no CMP id of 0 or 1, although the encoder writes them. */
  ghost predicate Refused(m: Model, fs: seq<Field>)
    requires Typed(m)
  {
    CmpId in fs && m[CmpId].n <= 1
  }

  lemma {:induction false} FieldsRead(m: Model, fs: seq<Field>, listed: set<nat>, bits: Bits, at: nat, t: Model)
    requires Typed(m) && EncodeFields(m, fs, listed).Ok? && At(bits, at, EncodeFields(m, fs, listed).value)
    requires CountFirst(t, m, fs)
    ensures DecodeFields(bits, at, t, fs) == if Refused(m, fs) then Err else Ok(CopyAll(t, m, fs, listed))
    decreases |fs|
  {
    hide EncodeField, DecodeField, Carried, At, CustomWidth, Assigned, CountFirst;
    if fs != [] {
      var f := fs[0];
      var head, tail := EncodeField(m, f, listed).value, EncodeFields(m, fs[1..], listed).value;
      assert fs == [f] + fs[1..];
      AtSplits(bits, at, head, tail);
      CountFirstStep(t, m, fs, listed);
      FieldsRead(m, fs[1..], listed, bits, at + |head|, Copy(t, m, f, listed));
      if IsCustom(f) && CustomWidth(t) == 0 {
        EmptyCustomField(m, f, listed);
      } else {
        SameWidth(f, CustomWidth(t), m[NumCustomPurposes].n, bits, at);
        FieldReads(m, f, listed, bits, at);
        AssignedAsCarried(m, f, listed);
      }
    }
  }

  lemma EmptyCustomField(m: Model, f: Field, listed: set<nat>)
    requires Typed(m) && IsCustom(f) && m[NumCustomPurposes].n == 0
    ensures EncodeField(m, f, listed) == Ok([])
  {
    assert BitField(m[f].ids, 0) == [];
  }

  lemma SameWidth(f: Field, a: nat, b: nat, bits: Bits, at: nat)
    requires IsCustom(f) ==> a == b
    ensures DecodeField(bits, at, f, a) == DecodeField(bits, at, f, b)
  {
    assert Width(f, a) == Width(f, b);
  }

  lemma SegmentsCountFirst(t: Model, m: Model, s: Segment)
    requires Typed(m)
    ensures CountFirst(t, m, FieldsOf(s))
  {
    var fs := FieldsOf(s);
    if s.PublisherTc? {
      assert fs[..3][2] == NumCustomPurposes && fs[..4][2] == NumCustomPurposes;
    }
  }

  lemma VersionBits(bits: Bits)
    requires At(bits, 0, EncodeInt(2, 6).value) && EncodeInt(2, 6).Ok?
    ensures DecodeInt(Substr(bits, 0, 6), 6) == Ok(2)
    ensures |bits| >= 6 && bits[..3] == [false, false, false]
  {
    IntReads(bits, 0, 2, 6);
    IntRoundTrip(2, 6);
    assert Binary(2) == [true, false] by {
      assert Binary(1) == [true];
    }
    var e := EncodeInt(2, 6).value;
    assert bits[0..6] == e && e[0] == e[1] == e[2] == false;
    assert bits[0] == bits[0..6][0] && bits[1] == bits[0..6][1] && bits[2] == bits[0..6][2];
  }

  /** The first letter of a segment already tells its first three bits. */
  lemma FirstThreeBits(bits: Bits)
    requires |bits| >= 3
    ensures Encode(bits).Ok? && Encode(bits).value != ""
    ensures Decode(Encode(bits).value[..1]).Ok? && Substr(Decode(Encode(bits).value[..1]).value, 0, 3) == bits[..3]
  {
    var padded := Padded(bits);
    PaddingFillsGroups(|bits|);
    assert |padded| >= 6;
    FirstLetter(padded);
    var six := padded[..6];
    ValueBelow(six);
    FieldSizes();
    AlphabetIsOneToOne(Value(six));
    IntDecodeRoundTrip(six);
    var text := Encode(bits).value;
    assert text[..1] == [text[0]] && text[..1][..0] == "";
    assert Sextets(text[..1]) == Ok([] + six);
    assert six[..3] == bits[..3];
  }

  /** A segment is told by its first bits, and reads back unless it is a core with a CMP id of 0 or 1. */
  lemma SegmentReads(m: Model, s: Segment, listed: set<nat>, t: Model)
    requires Typed(m) && EncodeSegment(m, s, listed).Ok?
    ensures SegmentTypeOf(EncodeSegment(m, s, listed).value) == Ok(s)
    ensures DecodeSegment(EncodeSegment(m, s, listed).value, t, s) ==
              if s.Core? && m[CmpId].n <= 1 then Err
              else Ok(CopyAll(if s.Core? then t[Version := Num(2)] else t, m, FieldsOf(s), listed))
  {
    hide FieldsOf, EncodeFields, DecodeFields, CopyAll, Typed, Padded;
    var bits := SegmentBits(m, s, listed).value;
    SegmentStarts(m, s, listed);
    Base64RoundTrip(bits);
    SegmentTypeReads(bits, s);
    SegmentFieldsRead(m, s, listed, if s.Core? then t[Version := Num(2)] else t);
  }

  lemma SegmentTypeReads(bits: Bits, s: Segment)
    requires |bits| >= 3 && Value(bits[..3]) == SegmentId(s)
    ensures Encode(bits).Ok? && SegmentTypeOf(Encode(bits).value) == Ok(s)
  {
    hide Encode, Decode, Value;
    FirstThreeBits(bits);
  }

  lemma SegmentFieldsRead(m: Model, s: Segment, listed: set<nat>, t: Model)
    requires Typed(m) && SegmentBits(m, s, listed).Ok?
    ensures DecodeFields(Padded(SegmentBits(m, s, listed).value), if s.Core? then 0 else 3, t, FieldsOf(s)) ==
              if s.Core? && m[CmpId].n <= 1 then Err else Ok(CopyAll(t, m, FieldsOf(s), listed))
  {
    OnlyCoreHasCmpId(s);
    hide FieldsOf, EncodeFields, DecodeFields, CopyAll, Typed, CountFirst;
    var padded, head := Padded(SegmentBits(m, s, listed).value), SegmentHead(s);
    var body := EncodeFields(m, FieldsOf(s), listed).value;
    assert At(padded, |head|, body) by {
      assert padded[|head|..|head| + |body|] == body;
    }
    SegmentsCountFirst(t, m, s);
    FieldsRead(m, FieldsOf(s), listed, padded, |head|, t);
  }

  lemma OnlyCoreHasCmpId(s: Segment)
    ensures CmpId in FieldsOf(s) <==> s.Core?
  {
    assert s.Core? ==> FieldsOf(s)[3] == CmpId;
  }

  /** In particular the core's first three bits read as segment type 0. */
  lemma SegmentStarts(m: Model, s: Segment, listed: set<nat>)
    requires Typed(m) && SegmentBits(m, s, listed).Ok?
    ensures var bits := SegmentBits(m, s, listed).value;
            && |bits| >= 3 && Value(bits[..3]) == SegmentId(s)
            && (s.Core? ==> DecodeInt(Substr(Padded(bits), 0, 6), 6) == Ok(2))
  {
    var bits := SegmentBits(m, s, listed).value;
    if s.Core? {
      var rest := EncodeFields(m, FieldsOf(s)[1..], listed).value;
      assert EncodeField(m, Version, listed) == EncodeInt(2, 6);
      IntRoundTrip(2, 6);
      assert bits == EncodeInt(2, 6).value + rest;
      VersionBits(bits);
      VersionBits(Padded(bits));
      assert [false, false, false] == Zeros(3) + [];
      LeadingZeros(3, []);
    } else {
      SegmentHeadIsId(s);
      assert bits[..3] == SegmentHead(s);
    }
  }

  // ---- the whole string

  ghost function CopySegments(t: Model, m: Model, segments: seq<Segment>, listed: set<nat>): Model
    requires Typed(m)
    decreases |segments|
  {
    if segments == [] then t
    else CopySegments(CopyAll(if segments[0].Core? then t[Version := Num(2)] else t, m, FieldsOf(segments[0]), listed),
                      m, segments[1..], listed)
  }

  lemma {:induction false} SegmentsRead(m: Model, segments: seq<Segment>, listed: set<nat>, t: Model)
    requires Typed(m) && EncodeSegments(m, segments, listed).Ok?
    ensures DecodeSegments(EncodeSegments(m, segments, listed).value, t) ==
              if Core in segments && m[CmpId].n <= 1 then Err else Ok(CopySegments(t, m, segments, listed))
    ensures |EncodeSegments(m, segments, listed).value| == |segments|
    ensures forall text :: text in EncodeSegments(m, segments, listed).value ==> '.' !in text
    decreases |segments|
  {
    hide EncodeSegment, DecodeSegment, SegmentTypeOf, CopyAll, FieldsOf, Typed;
    if segments != [] {
      var texts := EncodeSegments(m, segments, listed).value;
      assert texts[1..] == EncodeSegments(m, segments[1..], listed).value;
      var s := segments[0];
      assert segments == [s] + segments[1..];
      var t0 := if s.Core? then t[Version := Num(2)] else t;
      SegmentReads(m, s, listed, t);
      SegmentHasNoDot(m, s, listed);
      SegmentsRead(m, segments[1..], listed, CopyAll(t0, m, FieldsOf(s), listed));
    }
  }

  lemma SegmentHasNoDot(m: Model, s: Segment, listed: set<nat>)
    requires Typed(m) && EncodeSegment(m, s, listed).Ok?
    ensures '.' !in EncodeSegment(m, s, listed).value
  {
    Base64RoundTrip(SegmentBits(m, s, listed).value);
  }

  ghost predicate Written(segments: seq<Segment>, f: Field) {
    exists i :: 0 <= i < |segments| && f in FieldsOf(segments[i])
  }

  lemma {:induction false} CopyAllMeaning(t: Model, m: Model, fs: seq<Field>, listed: set<nat>, f: Field)
    requires Typed(m) && f in t
    requires IsCustom(f) && m[NumCustomPurposes].n == 0 ==> t[f] == Carried(m, f, listed)
    ensures f in CopyAll(t, m, fs, listed)
    ensures CopyAll(t, m, fs, listed)[f] == if f in fs then Carried(m, f, listed) else t[f]
    decreases |fs|
  {
    hide Carried, Typed;
    if fs != [] {
      CopyAllMeaning(Copy(t, m, fs[0], listed), m, fs[1..], listed, f);
      if f in fs && f != fs[0] {
        assert fs == [fs[0]] + fs[1..];
      }
    }
  }

  lemma {:induction false} CopySegmentsMeaning(t: Model, m: Model, segments: seq<Segment>, listed: set<nat>, f: Field)
    requires Typed(m) && f in t && t[Version := Num(2)] == t && m[Version] == Num(2)
    requires IsCustom(f) && m[NumCustomPurposes].n == 0 ==> t[f] == Carried(m, f, listed)
    ensures f in CopySegments(t, m, segments, listed)
    ensures CopySegments(t, m, segments, listed)[f] == if Written(segments, f) then Carried(m, f, listed) else t[f]
    decreases |segments|
  {
    hide CopyAll, Typed, FieldsOf;
    if segments != [] {
      var fs := FieldsOf(segments[0]);
      var t' := CopyAll(t, m, fs, listed);
      CopyAllMeaning(t, m, fs, listed, f);
      CopyAllMeaning(t, m, fs, listed, Version);
      CopySegmentsMeaning(t', m, segments[1..], listed, f);
      assert Written(segments, f) <==> f in fs || Written(segments[1..], f) by {
        if Written(segments[1..], f) {
          var i :| 0 <= i < |segments[1..]| && f in FieldsOf(segments[1..][i]);
          assert f in FieldsOf(segments[i + 1]);
        }
        assert forall i :: 0 < i < |segments| ==> segments[i] == segments[1..][i - 1];
      }
    }
  }

  /** A fresh model to decode into: version 2, nothing custom yet. */
  ghost predicate Blank(t: Model) {
    && (forall f: Field :: f in t) && t[Version] == Num(2)
    && (forall f: Field :: IsCustom(f) ==> t[f] == IdSet({}))
  }

  /**
    * Whatever segments are asked for, an encoded consent string decodes exactly when no CMP id of 0
    * or 1 was written. Decoding then gives every field of those segments the value the wire carries
    * for it, and leaves every other field alone.
    */
  lemma TcStringRoundTrip(m: Model, segments: seq<Segment>, listed: set<nat>, t: Model, f: Field)
    requires Typed(m) && segments != [] && EncodeModel(m, segments, listed).Ok? && Blank(t)
    ensures var r := DecodeModel(EncodeModel(m, segments, listed).value, t);
            && (r.Ok? <==> m[CmpId].n > 1 || Core !in segments)
            && (r.Ok? ==> f in r.value && r.value[f] == if Written(segments, f) then Carried(m, f, listed) else t[f])
  {
    hide DecodeModel, EncodeModel, CopySegments, Carried, Written;
    StringReads(m, segments, listed, t);
    if IsCustom(f) && m[NumCustomPurposes].n == 0 {
      NothingCustom(m, f, listed);
    }
    assert t[Version := Num(2)] == t;
    CopySegmentsMeaning(t, m, segments, listed, f);
  }

  lemma StringReads(m: Model, segments: seq<Segment>, listed: set<nat>, t: Model)
    requires Typed(m) && segments != [] && EncodeModel(m, segments, listed).Ok?
    ensures DecodeModel(EncodeModel(m, segments, listed).value, t) ==
              if Core in segments && m[CmpId].n <= 1 then Err else Ok(CopySegments(t, m, segments, listed))
    ensures m[Version] == Num(2)
  {
    hide EncodeFields, DecodeSegments, CopySegments, Encode, FieldsOf;
    SegmentsRead(m, segments, listed, t);
    SplitUndoesJoin(EncodeSegments(m, segments, listed).value, '.');
    assert SegmentBits(m, segments[0], listed).Ok?;
  }

  lemma NothingCustom(m: Model, f: Field, listed: set<nat>)
    requires Typed(m) && IsCustom(f) && m[NumCustomPurposes].n == 0
    ensures Carried(m, f, listed) == IdSet({})
  {
    assert (set i | i in m[f].ids && 0 < i <= 0) == {};
  }
}
