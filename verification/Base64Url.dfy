/** The alphabet of section 5 of RFC 4648 over bit strings padded with zeros to whole 24-bit groups. */
module Base64Url {
  import opened Wrappers
  import opened BitStrings

  const BASIS := 6
  const LCM := 24

  /** The alphabet: A-Z, a-z, 0-9, '-', '_'. */
  function Letter(i: nat): char
    requires i < 64
  {
    if i < 26 then ('A' as int + i) as char
    else if i < 52 then ('a' as int + i - 26) as char
    else if i < 62 then ('0' as int + i - 52) as char
    else if i == 62 then '-' else '_'
  }

  function Index(c: char): Option<nat> {
    if 'A' <= c <= 'Z' then Some(c as int - 'A' as int)
    else if 'a' <= c <= 'z' then Some(c as int - 'a' as int + 26)
    else if '0' <= c <= '9' then Some(c as int - '0' as int + 52)
    else if c == '-' then Some(62)
    else if c == '_' then Some(63)
    else None
  }

  lemma AlphabetIsOneToOne(i: nat)
    requires i < 64
    ensures Index(Letter(i)) == Some(i)
  {
  }

  lemma IndexBelow64(c: char)
    ensures Index(c).Some? ==> Index(c).value < 64
  {
  }

  function Padding(n: nat): nat {
    if n % LCM == 0 then 0 else LCM - n % LCM
  }

  lemma PaddingFillsGroups(n: nat)
    ensures (n + Padding(n)) % LCM == 0 && (n + Padding(n)) % BASIS == 0 && Padding(n) < LCM
  {
    var q, r := n / 24, n % 24;
    MultipleOf24(if r == 0 then q else q + 1);
  }

  lemma MultipleOf24(q: nat)
    ensures (24 * q) % 24 == 0 && (24 * q) % 6 == 0
  {
    var a := 24 * q;
    var r24, r6 := a % 24, a % 6;
    assert r24 == 24 * (q - a / 24) && -1 < q - a / 24 < 1;
    assert r6 == 6 * (4 * q - a / 6) && -1 < 4 * q - a / 6 < 1;
  }

  function Padded(bits: Bits): Bits {
    bits + Zeros(Padding(|bits|))
  }

  /** Six bits to a letter. */
  function Letters(bits: Bits): string {
    if |bits| < BASIS then "" else Letters(bits[..|bits| - BASIS]) + [LetterOf(bits[|bits| - BASIS..])]
  }

  function LetterOf(b: Bits): char {
    if |b| == BASIS && Value(b) < 64 then Letter(Value(b)) else 'A'
  }

  /** Every letter to its six bits; fails on a character outside the alphabet. */
  function Sextets(s: string): Outcome<Bits> {
    if s == "" then Ok([])
    else
      var front :- Sextets(s[..|s| - 1]);
      match Index(s[|s| - 1])
      case None => Err
      case Some(i) =>
        var six :- EncodeInt(i, BASIS);
        Ok(front + six)
  }

  function Encode(bits: Bits): Outcome<string> {
    if bits == [] then Err else Ok(Letters(Padded(bits)))
  }

  function Decode(s: string): Outcome<Bits> {
    if s == "" then Err else Sextets(s)
  }

  lemma SextetOfLetter(six: Bits)
    requires |six| == BASIS
    ensures Value(six) < 64 && LetterOf(six) == Letter(Value(six))
    ensures Index(LetterOf(six)) == Some(Value(six)) && EncodeInt(Value(six), BASIS) == Ok(six)
  {
    hide EncodeInt;
    ValueBelow(six);
    FieldSizes();
    AlphabetIsOneToOne(Value(six));
    IntDecodeRoundTrip(six);
  }

  lemma {:induction false} SextetsOfLetters(bits: Bits)
    requires |bits| % BASIS == 0
    ensures Sextets(Letters(bits)) == Ok(bits) && |Letters(bits)| == |bits| / BASIS
    ensures forall c :: c in Letters(bits) ==> Index(c).Some?
  {
    hide EncodeInt, LetterOf, Index;
    if bits != [] {
      var n := |bits| - BASIS;
      var six := bits[n..];
      SextetsOfLetters(bits[..n]);
      SextetOfLetter(six);
      assert Letters(bits)[..|Letters(bits)| - 1] == Letters(bits[..n]);
      assert bits == bits[..n] + six;
    }
  }

  /** Decoding gives back the bits, followed by zeros up to a whole number of 24-bit groups. */
  lemma Base64RoundTrip(bits: Bits)
    requires bits != []
    ensures Encode(bits).Ok? && Decode(Encode(bits).value) == Ok(Padded(bits))
    ensures |Padded(bits)| % LCM == 0 && |Padded(bits)| < |bits| + LCM
    ensures forall c :: c in Encode(bits).value ==> Index(c).Some?
  {
    PaddingFillsGroups(|bits|);
    SextetsOfLetters(Padded(bits));
  }

  /** The first letter carries the first six bits. */
  lemma {:induction false} FirstLetter(bits: Bits)
    requires |bits| >= BASIS && |bits| % BASIS == 0
    ensures Letters(bits) != "" && Letters(bits)[0] == LetterOf(bits[..BASIS])
  {
    if |bits| > BASIS {
      FirstLetter(bits[..|bits| - BASIS]);
      assert bits[..|bits| - BASIS][..BASIS] == bits[..BASIS];
    } else {
      assert bits[|bits| - BASIS..] == bits[..BASIS];
    }
  }

  method EncodeBits(bits: Bits) returns (r: Outcome<string>)
    ensures r == Encode(bits)
  {
    if bits == [] {
      return Err;
    }
    var t := |bits| % LCM;
    var e := bits + if t != 0 then Zeros(LCM - t) else [];
    assert e == Padded(bits);
    PaddingFillsGroups(|bits|);
    ghost var groups := |e| / BASIS;
    assert |e| == BASIS * groups;
    var text := WriteLetters(e, groups);
    r := Ok(text);
  }

  lemma NoLetters()
    ensures Letters([]) == ""
  {
  }

  method WriteLetters(e: Bits, ghost groups: nat) returns (text: string)
    requires |e| == BASIS * groups
    ensures text == Letters(e)
  {
    hide Letters, LetterOf, Value;
    NoLetters();
    assert e[..0] == [];
    text := "";
    var s := 0;
    ghost var done := 0;
    while s < |e|
      invariant s == BASIS * done <= |e| && text == Letters(e[..s])
    {
      AnotherLetter(e, s);
      text := text + [Letter(Value(e[s..s + BASIS]))];
      s, done := s + BASIS, done + 1;
    }
    assert e[..s] == e;
  }

  lemma AnotherLetter(e: Bits, s: nat)
    requires s + BASIS <= |e|
    ensures Value(e[s..s + BASIS]) < 64
    ensures Letters(e[..s + BASIS]) == Letters(e[..s]) + [Letter(Value(e[s..s + BASIS]))]
  {
    hide LetterOf, Value;
    var done := e[..s + BASIS];
    assert done[..|done| - BASIS] == e[..s] && done[|done| - BASIS..] == e[s..s + BASIS];
    SextetOfLetter(e[s..s + BASIS]);
  }

  method DecodeText(s: string) returns (r: Outcome<Bits>)
    ensures r == Decode(s)
  {
    if s == "" {
      return Err;
    }
    var bits: Bits := [];
    for i := 0 to |s|
      invariant Sextets(s[..i]) == Ok(bits)
    {
      assert s[..i + 1][..i] == s[..i];
      match Index(s[i]) {
        case None =>
          StaysBroken(s, i + 1);
          return Err;
        case Some(n) =>
          IndexBelow64(s[i]);
          FieldSizes();
          IntFits(n, BASIS);
          var b := Binary(n);
          bits := bits + (Zeros(BASIS - |b|) + b);
      }
    }
    assert s[..|s|] == s;
    r := Ok(bits);
  }

  lemma {:induction false} StaysBroken(s: string, i: nat)
    requires i <= |s| && Sextets(s[..i]).Err?
    ensures Sextets(s).Err?
  {
    if i == |s| {
      assert s[..i] == s;
    } else {
      assert s[..|s| - 1][..i] == s[..i];
      StaysBroken(s[..|s| - 1], i);
    }
  }
}
