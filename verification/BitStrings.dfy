/**
  * The strings of '0' and '1' that the consent-string codec works on, here as sequences of
  * booleans, with its integer encoder.
  */
module BitStrings {
  import opened Wrappers

  type Bits = seq<bool>

  function Zeros(n: nat): Bits {
    seq(n, _ => false)
  }

  /** `n.toString(2)`. */
  function Binary(n: nat): Bits {
    if n < 2 then [n == 1] else Binary(n / 2) + [n % 2 == 1]
  }

  /** `parseInt(bits, 2)`. */
  function Value(bits: Bits): nat {
    if bits == [] then 0
    else 2 * Value(bits[..|bits| - 1]) + if bits[|bits| - 1] then 1 else 0
  }

  function Pow2(n: nat): nat {
    if n == 0 then 1 else 2 * Pow2(n - 1)
  }

  function EncodeInt(n: int, width: nat): Outcome<Bits> {
    if n < 0 || |Binary(n)| > width then Err
    else Ok(Zeros(width - |Binary(n)|) + Binary(n))
  }

  function DecodeInt(bits: Bits, width: nat): Outcome<nat> {
    if |bits| != width then Err else Ok(Value(bits))
  }

  /** `s.substr(at, length)`, which stops early at the end of s. */
  function Substr(s: Bits, at: nat, length: nat): Bits {
    if at >= |s| then [] else if at + length <= |s| then s[at..at + length] else s[at..]
  }

  /** The bits e stand in s from position `at` on. */
  predicate At(s: Bits, at: nat, e: Bits) {
    at + |e| <= |s| && s[at..at + |e|] == e
  }

  lemma AtReads(s: Bits, at: nat, e: Bits)
    requires At(s, at, e)
    ensures Substr(s, at, |e|) == e
  {
  }

  lemma AtBit(s: Bits, at: nat, b: bool)
    requires At(s, at, [b])
    ensures Substr(s, at, 1) == [b] && DecodeInt(Substr(s, at, 1), 1) == Ok(if b then 1 else 0)
  {
    AtReads(s, at, [b]);
    assert [b][..0] == [] && Value([b]) == if b then 1 else 0;
  }

  lemma AtSplits(s: Bits, at: nat, x: Bits, y: Bits)
    requires At(s, at, x + y)
    ensures At(s, at, x) && At(s, at + |x|, y)
  {
    assert s[at..at + |x|] == (x + y)[..|x|] == x;
    assert s[at + |x|..at + |x| + |y|] == (x + y)[|x|..] == y;
  }

  lemma AtSuffix(s: Bits, at: nat, e: Bits)
    requires At(s, at, e)
    ensures At(s[at..], 0, e)
  {
  }

  /** An encoded integer reads back wherever it stands. */
  lemma IntReads(s: Bits, at: nat, n: int, width: nat)
    requires EncodeInt(n, width).Ok? && At(s, at, EncodeInt(n, width).value)
    ensures DecodeInt(Substr(s, at, width), width) == Ok(n)
  {
    IntRoundTrip(n, width);
    AtReads(s, at, EncodeInt(n, width).value);
  }

  lemma {:induction false} ValueOfBinary(n: nat)
    ensures Value(Binary(n)) == n
  {
    if n >= 2 {
      ValueOfBinary(n / 2);
      assert Binary(n)[..|Binary(n)| - 1] == Binary(n / 2);
    }
  }

  lemma {:induction false} LeadingZeros(k: nat, b: Bits)
    ensures Value(Zeros(k) + b) == Value(b)
  {
    if b == [] {
      assert Zeros(k) + b == Zeros(k);
      if k > 0 {
        assert Zeros(k)[..k - 1] == Zeros(k - 1);
        LeadingZeros(k - 1, []);
        assert Zeros(k - 1) + [] == Zeros(k - 1);
      }
    } else {
      var n := |b| - 1;
      assert (Zeros(k) + b)[..k + n] == Zeros(k) + b[..n];
      LeadingZeros(k, b[..n]);
    }
  }

  /** An encoded integer has the width asked for and decodes to itself, whatever follows it. */
  lemma IntRoundTrip(n: int, width: nat)
    requires EncodeInt(n, width).Ok?
    ensures |EncodeInt(n, width).value| == width
    ensures DecodeInt(EncodeInt(n, width).value, width) == Ok(n)
  {
    ValueOfBinary(n);
    LeadingZeros(width - |Binary(n)|, Binary(n));
  }

  lemma {:induction false} BinaryLength(n: nat, width: nat)
    ensures |Binary(n)| <= width <==> n < Pow2(width) && width > 0
    decreases n, width
  {
    if n >= 2 && width > 0 {
      BinaryLength(n / 2, width - 1);
      if width == 1 {
        assert |Binary(n / 2)| >= 1;
      }
    } else if width > 0 {
      PowersArePositive(width - 1);
    }
  }

  lemma PowersArePositive(n: nat)
    ensures Pow2(n) >= 1
  {
  }

  /** Encoding fails only on numbers the width cannot hold. */
  lemma IntFits(n: int, width: nat)
    requires width > 0
    ensures EncodeInt(n, width).Ok? <==> 0 <= n < Pow2(width)
  {
    if n >= 0 {
      BinaryLength(n, width);
    }
  }

  lemma FieldSizes()
    ensures Pow2(2) == 4 && Pow2(3) == 8 && Pow2(6) == 64 && Pow2(12) == 4096 && Pow2(16) == 65536
  {
    assert Pow2(5) == 32 && Pow2(8) == 256 && Pow2(10) == 1024 && Pow2(13) == 8192;
  }

  /** Bits of one length are determined by their value. */
  lemma {:induction false} ValueIsInjective(a: Bits, b: Bits)
    requires |a| == |b| && Value(a) == Value(b)
    ensures a == b
  {
    if a != [] {
      var n := |a| - 1;
      ValueIsInjective(a[..n], b[..n]);
      assert a == a[..n] + [a[n]] && b == b[..n] + [b[n]];
    }
  }

  lemma {:induction false} ValueBelow(b: Bits)
    ensures Value(b) < Pow2(|b|)
  {
    if b != [] {
      ValueBelow(b[..|b| - 1]);
    }
  }

  lemma IntDecodeRoundTrip(b: Bits)
    requires b != []
    ensures EncodeInt(Value(b), |b|) == Ok(b)
  {
    ValueBelow(b);
    IntFits(Value(b), |b|);
    IntRoundTrip(Value(b), |b|);
    ValueIsInjective(EncodeInt(Value(b), |b|).value, b);
  }
}
