/**
  * Where each field of a consent string stands, at literal positions, and how the bits are spelled:
  * what a reader needs to take a string apart without the decoder.
  */
module TcLayout {
  import opened BitStrings
  import opened Base64Url
  import opened Splitting
  import opened ConsentVector
  import opened Restrictions
  import opened WireLayout
  import opened TcString

  // ---- fields

  function NumOf(m: Model, f: Field): int {
    if f in m && m[f].Num? then m[f].n else 0
  }

  function FlagOf(m: Model, f: Field): bool {
    f in m && m[f].Flag? && m[f].b
  }

  function CodeOf(m: Model, f: Field): string {
    if f in m && m[f].Code? then m[f].s else ""
  }

  function IdsOf(m: Model, f: Field): set<nat> {
    if f in m && m[f].IdSet? then m[f].ids else {}
  }

  function EntriesOf(m: Model, f: Field): Entries {
    if f in m && m[f].Restricted? then m[f].entries else []
  }

  predicate FlagAt(bits: Bits, at: nat, b: bool) {
    at < |bits| && bits[at] == b
  }

  /** A date in tenths of a second, the nearest to `ms`. */
  ghost predicate DateAt(bits: Bits, at: nat, ms: int) {
    exists tenths: nat :: 100 * tenths - 50 <= ms < 100 * tenths + 50 && NumberAt(bits, at, 36, tenths)
  }

  /** A letter of either case as its place in the alphabet. */
  ghost predicate LetterAt(bits: Bits, at: nat, c: char) {
    exists k: nat :: k < 26 && c as int in {'A' as int + k, 'a' as int + k} && NumberAt(bits, at, 6, k)
  }

  ghost predicate CodeAt(bits: Bits, at: nat, s: string) {
    |s| >= 2 && LetterAt(bits, at, s[0]) && LetterAt(bits, at + 6, s[1])
  }

  /** What stands for a field that begins at `at` and ends at `end`. */
  ghost predicate FieldAt(bits: Bits, at: nat, m: Model, f: Field, listed: set<nat>, end: nat) {
    var width := Width(f, CustomWidth(m));
    && (!SelfSized(f) ==> end == at + width)
    && match EncoderOf(f)
       case IntEncoder => NumberAt(bits, at, width, NumOf(m, f))
       case DateEncoder => DateAt(bits, at, NumOf(m, f))
       case BooleanEncoder => FlagAt(bits, at, FlagOf(m, f))
       case LangEncoder => CodeAt(bits, at, CodeOf(m, f))
       case FixedVectorEncoder => IdsAt(bits, at, width, IdsOf(m, f))
       case VendorVectorEncoder => VendorsAt(bits, at, IdsOf(m, f), end)
       case RestrictionEncoder => RestrictionsAt(bits, at, EntriesOf(m, f), listed, end)
  }

  lemma LetterStands(bits: Bits, at: nat, c: char)
    requires EncodeLetter(c).Ok? && At(bits, at, EncodeLetter(c).value)
    ensures LetterAt(bits, at, c) && |EncodeLetter(c).value| == 6
  {
    hide EncodeInt, NumberAt;
    NumberStands(bits, at, Upper(c) as int - 'A' as int, 6);
  }

  lemma CodeStands(bits: Bits, at: nat, s: string)
    requires EncodeCode(s).Ok? && At(bits, at, EncodeCode(s).value)
    ensures CodeAt(bits, at, s) && |EncodeCode(s).value| == 12
  {
    hide EncodeLetter, LetterAt;
    var a, b := EncodeLetter(s[0]).value, EncodeLetter(s[1]).value;
    AtSplits(bits, at, a, b);
    LetterStands(bits, at, s[0]);
    LetterStands(bits, at + |a|, s[1]);
  }

  /** The accessors give what a typed model holds. */
  lemma TypedField(m: Model, f: Field)
    requires Typed(m)
    ensures f in m && CustomWidth(m) == m[NumCustomPurposes].n >= 0
    ensures match EncoderOf(f)
            case IntEncoder => m[f] == Num(NumOf(m, f)) && NumOf(m, f) >= 0
            case DateEncoder => m[f] == Num(NumOf(m, f))
            case BooleanEncoder => m[f] == Flag(FlagOf(m, f))
            case LangEncoder => m[f] == Code(CodeOf(m, f))
            case RestrictionEncoder => m[f] == Restricted(EntriesOf(m, f)) && WellFormed(EntriesOf(m, f))
            case _ => m[f] == IdSet(IdsOf(m, f)) && 0 !in IdsOf(m, f)
  {
  }

  lemma FieldStands(bits: Bits, at: nat, m: Model, f: Field, listed: set<nat>)
    requires Typed(m) && EncodeField(m, f, listed).Ok? && At(bits, at, EncodeField(m, f, listed).value)
    ensures FieldAt(bits, at, m, f, listed, at + |EncodeField(m, f, listed).value|)
  {
    hide EncodeInt, NumberAt, EncodeCode, CodeAt, BitField, IdsAt, EncodeVendors, VendorsAt, EncodeRestrictions;
    hide RestrictionsAt, IsMax, WellFormed, NumOf, FlagOf, CodeOf, IdsOf, EntriesOf, CustomWidth, Typed;
    TypedField(m, f);
    var width := CustomWidth(m);
    match EncoderOf(f) {
      case IntEncoder => NumberStands(bits, at, NumOf(m, f), Width(f, width));
      case DateEncoder => DateStands(bits, at, NumOf(m, f));
      case BooleanEncoder => assert bits[at] == bits[at..at + 1][0];
      case LangEncoder => CodeStands(bits, at, CodeOf(m, f));
      case FixedVectorEncoder =>
        IdsStand(bits, at, IdsOf(m, f), Width(f, width));
        FieldRoundTrip(IdsOf(m, f), Width(f, width));
      case VendorVectorEncoder => VendorsStand(bits, at, IdsOf(m, f), MaxOf(IdsOf(m, f)));
      case RestrictionEncoder => RestrictionsStand(bits, at, EntriesOf(m, f), listed);
    }
  }

  lemma DateStands(bits: Bits, at: nat, ms: int)
    requires EncodeInt(Tenths(ms), 36).Ok? && At(bits, at, EncodeInt(Tenths(ms), 36).value)
    ensures DateAt(bits, at, ms) && |EncodeInt(Tenths(ms), 36).value| == 36
  {
    assert Tenths(ms) >= 0;
    hide EncodeInt, NumberAt;
    NumberStands(bits, at, Tenths(ms), 36);
    assert NumberAt(bits, at, 36, Tenths(ms) as nat);
  }

  // ---- segments

  /** The core: sixteen fields at fixed positions, two vendor fields, and the restrictions to the end. */
  ghost predicate CoreAt(bits: Bits, m: Model, listed: set<nat>) {
    && NumberAt(bits, 0, 6, 2)
    && DateAt(bits, 6, NumOf(m, Created)) && DateAt(bits, 42, NumOf(m, LastUpdated))
    && NumberAt(bits, 78, 12, NumOf(m, CmpId)) && NumberAt(bits, 90, 12, NumOf(m, CmpVersion))
    && NumberAt(bits, 102, 6, NumOf(m, ConsentScreen)) && CodeAt(bits, 108, CodeOf(m, ConsentLanguage))
    && NumberAt(bits, 120, 12, NumOf(m, VendorListVersion)) && NumberAt(bits, 132, 6, NumOf(m, PolicyVersion))
    && FlagAt(bits, 138, FlagOf(m, IsServiceSpecific)) && FlagAt(bits, 139, FlagOf(m, UseNonStandardTexts))
    && IdsAt(bits, 140, 12, IdsOf(m, SpecialFeatureOptins))
    && IdsAt(bits, 152, 24, IdsOf(m, PurposeConsents)) && IdsAt(bits, 176, 24, IdsOf(m, PurposeLegitimateInterests))
    && FlagAt(bits, 200, FlagOf(m, PurposeOneTreatment)) && CodeAt(bits, 201, CodeOf(m, PublisherCountryCode))
    && CoreTailAt(bits, 213, m, listed)
  }

  /** Consents, then legitimate interests, then restrictions. */
  ghost predicate CoreTailAt(bits: Bits, at: nat, m: Model, listed: set<nat>) {
    exists a: nat, b: nat ::
      && VendorsAt(bits, at, IdsOf(m, VendorConsents), a) && VendorsAt(bits, a, IdsOf(m, VendorLegitimateInterests), b)
      && RestrictionsAt(bits, b, EntriesOf(m, PublisherRestrictions), listed, |bits|)
  }

  /** The publisher's segment: two fields for the standard purposes, a number, and two fields of that width. */
  ghost predicate PublisherAt(bits: Bits, m: Model) {
    var n := CustomWidth(m);
    && NumberAt(bits, 0, 3, 3)
    && IdsAt(bits, 3, 24, IdsOf(m, PublisherConsents)) && IdsAt(bits, 27, 24, IdsOf(m, PublisherLegitimateInterests))
    && NumberAt(bits, 51, 6, n) && IdsAt(bits, 57, n, IdsOf(m, PublisherCustomConsents))
    && IdsAt(bits, 57 + n, n, IdsOf(m, PublisherCustomLegitimateInterests)) && |bits| == 57 + 2 * n
  }

  ghost predicate SegmentAt(bits: Bits, m: Model, s: Segment, listed: set<nat>) {
    match s
    case Core => CoreAt(bits, m, listed)
    case DisclosedVendors => NumberAt(bits, 0, 3, 1) && VendorsAt(bits, 3, IdsOf(m, VendorsDisclosed), |bits|)
    case AllowedVendors => NumberAt(bits, 0, 3, 2) && VendorsAt(bits, 3, IdsOf(m, VendorsAllowed), |bits|)
    case PublisherTc => PublisherAt(bits, m)
  }

  /** The encoding of the fields from position k on stands at `at`. */
  ghost predicate RestAt(bits: Bits, at: nat, m: Model, fs: seq<Field>, k: nat, listed: set<nat>)
    requires Typed(m)
  {
    && k <= |fs| && EncodeFields(m, fs[k..], listed).Ok? && At(bits, at, EncodeFields(m, fs[k..], listed).value)
    && at + |EncodeFields(m, fs[k..], listed).value| == |bits|
  }

  lemma HeadAndTail(m: Model, fs: seq<Field>, k: nat, listed: set<nat>)
    requires Typed(m) && k < |fs| && EncodeFields(m, fs[k..], listed).Ok?
    ensures EncodeField(m, fs[k], listed).Ok? && EncodeFields(m, fs[k + 1..], listed).Ok?
    ensures EncodeFields(m, fs[k..], listed).value ==
              EncodeField(m, fs[k], listed).value + EncodeFields(m, fs[k + 1..], listed).value
  {
    hide EncodeField, Typed;
    assert fs[k..][0] == fs[k] && fs[k..][1..] == fs[k + 1..];
  }

  lemma RestSplits(bits: Bits, at: nat, m: Model, fs: seq<Field>, k: nat, listed: set<nat>)
    requires Typed(m) && RestAt(bits, at, m, fs, k, listed) && k < |fs|
    ensures EncodeField(m, fs[k], listed).Ok? && At(bits, at, EncodeField(m, fs[k], listed).value)
    ensures RestAt(bits, at + |EncodeField(m, fs[k], listed).value|, m, fs, k + 1, listed)
  {
    hide EncodeField, EncodeFields, Typed, At;
    HeadAndTail(m, fs, k, listed);
    AtSplits(bits, at, EncodeField(m, fs[k], listed).value, EncodeFields(m, fs[k + 1..], listed).value);
  }

  /** One field after another. */
  lemma NextField(bits: Bits, at: nat, m: Model, fs: seq<Field>, k: nat, f: Field, listed: set<nat>)
    returns (end: nat)
    requires Typed(m) && RestAt(bits, at, m, fs, k, listed) && k < |fs| && fs[k] == f
    ensures FieldAt(bits, at, m, f, listed, end) && RestAt(bits, end, m, fs, k + 1, listed)
  {
    hide EncodeField, EncodeFields, Typed, FieldAt, RestAt, At;
    RestSplits(bits, at, m, fs, k, listed);
    FieldStands(bits, at, m, f, listed);
    end := at + |EncodeField(m, f, listed).value|;
  }

  lemma NothingMore(bits: Bits, at: nat, m: Model, fs: seq<Field>, listed: set<nat>)
    requires Typed(m) && RestAt(bits, at, m, fs, |fs|, listed)
    ensures at == |bits|
  {
  }

  lemma FieldsStart(m: Model, s: Segment, listed: set<nat>)
    requires Typed(m) && SegmentBits(m, s, listed).Ok?
    ensures RestAt(SegmentBits(m, s, listed).value, if s.Core? then 0 else 3, m, FieldsOf(s), 0, listed)
    ensures !s.Core? ==> NumberAt(SegmentBits(m, s, listed).value, 0, 3, SegmentId(s))
    ensures NumOf(m, Version) == 2
  {
    assert m[Version].Num?;
    hide EncodeFields, FieldsOf, Typed, NumberAt;
    var bits, head := SegmentBits(m, s, listed).value, SegmentHead(s);
    assert FieldsOf(s)[0..] == FieldsOf(s);
    assert bits == head + EncodeFields(m, FieldsOf(s), listed).value;
    assert bits[|head|..] == EncodeFields(m, FieldsOf(s), listed).value;
    if !s.Core? {
      SegmentHeadIsId(s);
      assert bits[..3] == head;
      NumberStands(bits, 0, SegmentId(s), 3);
    }
  }

  lemma CoreFirst()
    ensures var fs := FieldsOf(Core);
            && |fs| == 19
            && fs[0] == Version && fs[1] == Created && fs[2] == LastUpdated && fs[3] == CmpId
            && fs[4] == CmpVersion && fs[5] == ConsentScreen && fs[6] == ConsentLanguage
            && fs[7] == VendorListVersion
  {
  }

  lemma CoreSecond()
    ensures var fs := FieldsOf(Core);
            && |fs| == 19
            && fs[8] == PolicyVersion && fs[9] == IsServiceSpecific && fs[10] == UseNonStandardTexts
            && fs[11] == SpecialFeatureOptins && fs[12] == PurposeConsents
            && fs[13] == PurposeLegitimateInterests && fs[14] == PurposeOneTreatment
            && fs[15] == PublisherCountryCode
  {
  }

  lemma CoreLast()
    ensures var fs := FieldsOf(Core);
            && |fs| == 19
            && fs[16] == VendorConsents && fs[17] == VendorLegitimateInterests
            && fs[18] == PublisherRestrictions
  {
  }

  lemma PublisherFields()
    ensures var fs := FieldsOf(PublisherTc);
            && |fs| == 5
            && fs[0] == PublisherConsents && fs[1] == PublisherLegitimateInterests
            && fs[2] == NumCustomPurposes && fs[3] == PublisherCustomConsents
            && fs[4] == PublisherCustomLegitimateInterests
  {
  }

  lemma CoreStands(m: Model, listed: set<nat>)
    requires Typed(m) && SegmentBits(m, Core, listed).Ok?
    ensures CoreAt(SegmentBits(m, Core, listed).value, m, listed)
  {
    CoreFirst();
    hide FieldsOf, RestAt, NumberAt, DateAt, CodeAt, FlagAt, IdsAt, CoreTailAt, SegmentBits, Typed;
    FieldsStart(m, Core, listed);
    var bits, fs := SegmentBits(m, Core, listed).value, FieldsOf(Core);
    var p1 := NextField(bits, 0, m, fs, 0, Version, listed);
    var p2 := NextField(bits, p1, m, fs, 1, Created, listed);
    var p3 := NextField(bits, p2, m, fs, 2, LastUpdated, listed);
    var p4 := NextField(bits, p3, m, fs, 3, CmpId, listed);
    var p5 := NextField(bits, p4, m, fs, 4, CmpVersion, listed);
    var p6 := NextField(bits, p5, m, fs, 5, ConsentScreen, listed);
    var p7 := NextField(bits, p6, m, fs, 6, ConsentLanguage, listed);
    var p8 := NextField(bits, p7, m, fs, 7, VendorListVersion, listed);
    CoreMiddle(bits, p8, m, listed);
  }

  lemma CoreMiddle(bits: Bits, at: nat, m: Model, listed: set<nat>)
    requires Typed(m) && RestAt(bits, at, m, FieldsOf(Core), 8, listed)
    ensures NumberAt(bits, at, 6, NumOf(m, PolicyVersion))
    ensures FlagAt(bits, at + 6, FlagOf(m, IsServiceSpecific)) && FlagAt(bits, at + 7, FlagOf(m, UseNonStandardTexts))
    ensures IdsAt(bits, at + 8, 12, IdsOf(m, SpecialFeatureOptins))
    ensures IdsAt(bits, at + 20, 24, IdsOf(m, PurposeConsents))
    ensures IdsAt(bits, at + 44, 24, IdsOf(m, PurposeLegitimateInterests))
    ensures FlagAt(bits, at + 68, FlagOf(m, PurposeOneTreatment))
    ensures CodeAt(bits, at + 69, CodeOf(m, PublisherCountryCode))
    ensures CoreTailAt(bits, at + 81, m, listed)
  {
    var fs := FieldsOf(Core);
    CoreSecond();
    hide FieldsOf, RestAt, NumberAt, DateAt, CodeAt, FlagAt, IdsAt, CoreTailAt, Typed;
    hide CustomWidth, NumOf, FlagOf, CodeOf, IdsOf;
    var p1 := NextField(bits, at, m, fs, 8, PolicyVersion, listed);
    var p2 := NextField(bits, p1, m, fs, 9, IsServiceSpecific, listed);
    var p3 := NextField(bits, p2, m, fs, 10, UseNonStandardTexts, listed);
    var p4 := NextField(bits, p3, m, fs, 11, SpecialFeatureOptins, listed);
    var p5 := NextField(bits, p4, m, fs, 12, PurposeConsents, listed);
    var p6 := NextField(bits, p5, m, fs, 13, PurposeLegitimateInterests, listed);
    var p7 := NextField(bits, p6, m, fs, 14, PurposeOneTreatment, listed);
    var p8 := NextField(bits, p7, m, fs, 15, PublisherCountryCode, listed);
    CoreTail(bits, p8, m, listed);
  }

  lemma CoreTail(bits: Bits, at: nat, m: Model, listed: set<nat>)
    requires Typed(m) && RestAt(bits, at, m, FieldsOf(Core), 16, listed)
    ensures CoreTailAt(bits, at, m, listed)
  {
    var fs := FieldsOf(Core);
    CoreLast();
    hide FieldsOf, RestAt, VendorsAt, RestrictionsAt, Typed;
    var a := NextField(bits, at, m, fs, 16, VendorConsents, listed);
    var b := NextField(bits, a, m, fs, 17, VendorLegitimateInterests, listed);
    var end := NextField(bits, b, m, fs, 18, PublisherRestrictions, listed);
    NothingMore(bits, end, m, fs, listed);
  }

  lemma PublisherStands(m: Model, listed: set<nat>)
    requires Typed(m) && SegmentBits(m, PublisherTc, listed).Ok?
    ensures PublisherAt(SegmentBits(m, PublisherTc, listed).value, m)
  {
    PublisherFields();
    hide FieldsOf, RestAt, NumberAt, IdsAt, SegmentBits, CustomWidth, NumOf, Typed;
    TypedField(m, NumCustomPurposes);
    FieldsStart(m, PublisherTc, listed);
    var bits, fs := SegmentBits(m, PublisherTc, listed).value, FieldsOf(PublisherTc);
    var p1 := NextField(bits, 3, m, fs, 0, PublisherConsents, listed);
    var p2 := NextField(bits, p1, m, fs, 1, PublisherLegitimateInterests, listed);
    var p3 := NextField(bits, p2, m, fs, 2, NumCustomPurposes, listed);
    var p4 := NextField(bits, p3, m, fs, 3, PublisherCustomConsents, listed);
    var p5 := NextField(bits, p4, m, fs, 4, PublisherCustomLegitimateInterests, listed);
    NothingMore(bits, p5, m, fs, listed);
  }

  /** Every segment that can be written is laid out as the predicates say. */
  lemma SegmentStands(m: Model, s: Segment, listed: set<nat>)
    requires Typed(m) && SegmentBits(m, s, listed).Ok?
    ensures SegmentAt(SegmentBits(m, s, listed).value, m, s, listed)
  {
    hide FieldsOf, SegmentBits, CoreAt, PublisherAt, NumberAt, VendorsAt, Typed;
    match s
    case Core => CoreStands(m, listed);
    case PublisherTc => PublisherStands(m, listed);
    case DisclosedVendors => VendorsSegmentStands(m, s, VendorsDisclosed, listed);
    case AllowedVendors => VendorsSegmentStands(m, s, VendorsAllowed, listed);
  }

  lemma VendorFields()
    ensures FieldsOf(DisclosedVendors) == [VendorsDisclosed] && FieldsOf(AllowedVendors) == [VendorsAllowed]
  {
  }

  lemma VendorsSegmentStands(m: Model, s: Segment, f: Field, listed: set<nat>)
    requires Typed(m) && SegmentBits(m, s, listed).Ok?
    requires (s.DisclosedVendors? && f.VendorsDisclosed?) || (s.AllowedVendors? && f.VendorsAllowed?)
    ensures var bits := SegmentBits(m, s, listed).value;
            NumberAt(bits, 0, 3, SegmentId(s)) && VendorsAt(bits, 3, IdsOf(m, f), |bits|)
  {
    hide FieldsOf, RestAt, NumberAt, VendorsAt, SegmentBits, CustomWidth, Typed;
    VendorFields();
    FieldsStart(m, s, listed);
    var bits, fs := SegmentBits(m, s, listed).value, FieldsOf(s);
    var end := NextField(bits, 3, m, fs, 0, f, listed);
    NothingMore(bits, end, m, fs, listed);
  }

  // ---- strings

  const ALPHABET := "ABCDEFGHIJKLMNOPQRSTUVWXYZ" + "abcdefghijklmnopqrstuvwxyz" + "0123456789-_"

  /** Character c stands for the six bits from 6 * k on; there are zeros after the last bit. */
  ghost predicate SpellsAt(c: char, bits: Bits, k: nat) {
    exists n: nat ::
      && n < |ALPHABET| && c == ALPHABET[n]
      && forall i: nat :: i < 6 ==> (BitOf(n, 6, i) <==> 6 * k + i < |bits| && bits[6 * k + i])
  }

  /** Six bits to a character, filled up to whole groups of four characters. */
  ghost predicate Spells(text: string, bits: Bits) {
    |text| == 4 * ((|bits| + 23) / 24) && forall k: nat :: k < |text| ==> SpellsAt(text[k], bits, k)
  }

  lemma AlphabetIsLetters(n: nat)
    requires n < 64
    ensures |ALPHABET| == 64 && ALPHABET[n] == Letter(n)
  {
  }

  lemma {:induction false} LettersSpell(bits: Bits, k: nat)
    requires |bits| % 6 == 0
    ensures |Letters(bits)| == |bits| / 6
    ensures k < |Letters(bits)| ==> SpellsAt(Letters(bits)[k], bits, k)
  {
    if bits != [] {
      var n := |bits| - 6;
      LettersSpell(bits[..n], k);
      if k < |Letters(bits[..n])| {
        SpellsOn(Letters(bits)[k], bits[..n], bits, k);
      } else if k == |Letters(bits[..n])| {
        LetterSpells(bits[n..], bits, k);
      }
    }
  }

  lemma SpellsOn(c: char, a: Bits, b: Bits, k: nat)
    requires a <= b && 6 * k + 6 <= |a| && SpellsAt(c, a, k)
    ensures SpellsAt(c, b, k)
  {
    hide BitOf;
    var n: nat :| n < |ALPHABET| && c == ALPHABET[n]
                  && forall i: nat :: i < 6 ==> (BitOf(n, 6, i) <==> 6 * k + i < |a| && a[6 * k + i]);
    forall i: nat | i < 6 ensures BitOf(n, 6, i) <==> 6 * k + i < |b| && b[6 * k + i] {
      assert a[6 * k + i] == b[6 * k + i];
    }
  }

  lemma LetterSpells(six: Bits, bits: Bits, k: nat)
    requires |six| == 6 && 6 * k + 6 == |bits| && bits[6 * k..] == six
    ensures SpellsAt(LetterOf(six), bits, k)
  {
    SextetOfLetter(six);
    AlphabetIsLetters(Value(six));
    hide BitOf, Value, Letter, LetterOf;
    forall i: nat | i < 6 ensures BitOf(Value(six), 6, i) <==> bits[6 * k + i] {
      BitsOfValue(six, i);
      assert bits[6 * k..][i] == bits[6 * k + i];
    }
  }

  lemma TextSpells(bits: Bits)
    requires bits != []
    ensures Encode(bits).Ok? && Spells(Encode(bits).value, bits)
  {
    var padded, text := Padded(bits), Encode(bits).value;
    PaddingFillsGroups(|bits|);
    LettersSpell(padded, 0);
    hide SpellsAt, Letters;
    forall k: nat | k < |text| ensures SpellsAt(text[k], bits, k) {
      LettersSpell(padded, k);
      PaddingSpells(text[k], bits, k);
    }
  }

  lemma PaddingSpells(c: char, bits: Bits, k: nat)
    requires SpellsAt(c, Padded(bits), k) && 6 * k + 6 <= |Padded(bits)|
    ensures SpellsAt(c, bits, k)
  {
    hide BitOf, Padding;
    var padded := Padded(bits);
    var n: nat :| n < |ALPHABET| && c == ALPHABET[n]
                  && forall i: nat :: i < 6 ==> (BitOf(n, 6, i) <==> 6 * k + i < |padded| && padded[6 * k + i]);
    forall i: nat | i < 6 ensures BitOf(n, 6, i) <==> 6 * k + i < |bits| && bits[6 * k + i] {
      assert padded[6 * k + i] <==> 6 * k + i < |bits| && bits[6 * k + i];
    }
  }

  /** A text that spells a segment of the model. */
  ghost predicate SpellsSegment(text: string, m: Model, s: Segment, listed: set<nat>) {
    exists bits: Bits :: Spells(text, bits) && SegmentAt(bits, m, s, listed)
  }

  lemma {:induction false} SegmentsAreSpelled(m: Model, segments: seq<Segment>, listed: set<nat>)
    requires Typed(m) && EncodeSegments(m, segments, listed).Ok?
    ensures var texts := EncodeSegments(m, segments, listed).value;
            && |texts| == |segments|
            && forall i :: 0 <= i < |texts| ==> SpellsSegment(texts[i], m, segments[i], listed)
    decreases |segments|
  {
    hide EncodeSegment, SpellsSegment, Typed;
    if segments != [] {
      SegmentIsSpelled(m, segments[0], listed);
      SegmentsAreSpelled(m, segments[1..], listed);
    }
  }

  lemma SegmentIsSpelled(m: Model, s: Segment, listed: set<nat>)
    requires Typed(m) && EncodeSegment(m, s, listed).Ok?
    ensures SpellsSegment(EncodeSegment(m, s, listed).value, m, s, listed)
  {
    SegmentStands(m, s, listed);
    hide SegmentBits, Spells, SegmentAt, Encode, Typed;
    TextSpells(SegmentBits(m, s, listed).value);
  }

  /**
    * A consent string is a text for each of the segments asked for, in that order and joined by dots,
    * and each text spells bits in which every field of the segment stands at its place.
    */
  lemma ConsentStringLayout(m: Model, segments: seq<Segment>, listed: set<nat>)
    requires Typed(m) && EncodeModel(m, segments, listed).Ok?
    ensures exists texts: seq<string> ::
              && EncodeModel(m, segments, listed).value == Join(texts, '.') && |texts| == |segments|
              && forall i :: 0 <= i < |texts| ==> SpellsSegment(texts[i], m, segments[i], listed)
  {
    hide EncodeSegments, SpellsSegment, Typed;
    SegmentsAreSpelled(m, segments, listed);
  }
}
