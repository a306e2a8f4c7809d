/** The Python string operations the duplicate-magnet scripts use. */
module PyText {
  import opened Wrappers

  /** `str.isspace` for one character. */
  predicate IsSpace(c: char) {
    var n := c as int;
    || 0x09 <= n <= 0x0D || 0x1C <= n <= 0x20 || n == 0x85 || n == 0xA0 || n == 0x1680
    || 0x2000 <= n <= 0x200A || n == 0x2028 || n == 0x2029 || n == 0x202F || n == 0x205F || n == 0x3000
  }

  function LStrip(s: string): string {
    if s != "" && IsSpace(s[0]) then LStrip(s[1..]) else s
  }

  function RStrip(s: string): string {
    if s != "" && IsSpace(s[|s| - 1]) then RStrip(s[..|s| - 1]) else s
  }

  function Strip(s: string): string {
    RStrip(LStrip(s))
  }

  lemma {:induction false} RStripKeepsHead(s: string)
    requires s == "" || !IsSpace(s[0])
    ensures RStrip(s) == "" ==> s == ""
    ensures RStrip(s) != "" ==> RStrip(s)[0] == s[0]
    ensures RStrip(RStrip(s)) == RStrip(s)
  {
    if s != "" && IsSpace(s[|s| - 1]) {
      RStripKeepsHead(s[..|s| - 1]);
    }
  }

  lemma {:induction false} LStripHead(s: string)
    ensures LStrip(s) == "" || !IsSpace(LStrip(s)[0])
  {
    if s != "" && IsSpace(s[0]) {
      LStripHead(s[1..]);
    }
  }

  lemma StripTwice(s: string)
    ensures Strip(Strip(s)) == Strip(s)
  {
    LStripHead(s);
    RStripKeepsHead(LStrip(s));
  }

  predicate Blank(s: string) {
    forall i :: 0 <= i < |s| ==> IsSpace(s[i])
  }

  lemma {:induction false} LStripCuts(s: string)
    ensures exists a :: s == a + LStrip(s) && Blank(a)
  {
    if s != "" && IsSpace(s[0]) {
      LStripCuts(s[1..]);
      var a :| s[1..] == a + LStrip(s[1..]) && Blank(a);
      assert s == ([s[0]] + a) + LStrip(s) && Blank([s[0]] + a);
    } else {
      assert s == "" + LStrip(s) && Blank("");
    }
  }

  lemma {:induction false} RStripCuts(s: string)
    ensures exists b :: s == RStrip(s) + b && Blank(b)
    ensures RStrip(s) == "" || !IsSpace(RStrip(s)[|RStrip(s)| - 1])
  {
    if s != "" && IsSpace(s[|s| - 1]) {
      RStripCuts(s[..|s| - 1]);
      var b :| s[..|s| - 1] == RStrip(s[..|s| - 1]) + b && Blank(b);
      assert s == RStrip(s) + (b + [s[|s| - 1]]) && Blank(b + [s[|s| - 1]]);
    } else {
      assert s == RStrip(s) + "" && Blank("");
    }
  }

  predicate Trimmed(s: string) {
    s == "" || (!IsSpace(s[0]) && !IsSpace(s[|s| - 1]))
  }

  /** Stripping cuts blanks off both ends, and all of them. */
  lemma StripIsExact(s: string)
    ensures exists a, b :: s == a + Strip(s) + b && Blank(a) && Blank(b)
    ensures Trimmed(Strip(s)) && (Strip(s) == s <==> Trimmed(s))
  {
    LStripCuts(s);
    RStripCuts(LStrip(s));
    LStripHead(s);
    RStripKeepsHead(LStrip(s));
    hide LStrip, RStrip, Blank, IsSpace;
    StripCuts(s, LStrip(s), Strip(s));
    TrimmedStays(s);
  }

  lemma StripCuts(s: string, left: string, r: string)
    requires exists a :: s == a + left && Blank(a)
    requires exists b :: left == r + b && Blank(b)
    ensures exists a, b :: s == a + r + b && Blank(a) && Blank(b)
  {
    hide Blank;
    var a :| s == a + left && Blank(a);
    var b :| left == r + b && Blank(b);
    assert s == a + r + b;
  }

  lemma TrimmedStays(s: string)
    ensures Trimmed(s) ==> Strip(s) == s
  {
  }

  predicate OccursAt(s: string, pat: string, i: nat) {
    i + |pat| <= |s| && s[i..i + |pat|] == pat
  }

  function IndexOf(s: string, pat: string): Option<nat> {
    if OccursAt(s, pat, 0) then Some(0)
    else if s == "" then None
    else match IndexOf(s[1..], pat)
      case Some(i) => Some(i + 1)
      case None => None
  }

  /** `s.split(pat)[1]`, if there is such a piece. */
  function SecondPiece(s: string, pat: string): Option<string> {
    match IndexOf(s, pat)
    case None => None
    case Some(i) =>
      if i + |pat| <= |s| then
        var rest := s[i + |pat|..];
        match IndexOf(rest, pat)
        case Some(j) => if j <= |rest| then Some(rest[..j]) else None
        case None => Some(rest)
      else None
  }

  lemma OccursInTail(s: string, pat: string)
    requires s != ""
    ensures forall i: nat {:trigger OccursAt(s[1..], pat, i)} :: OccursAt(s[1..], pat, i) <==> OccursAt(s, pat, i + 1)
  {
    forall i: nat | i + 1 + |pat| <= |s| ensures OccursAt(s[1..], pat, i) <==> OccursAt(s, pat, i + 1) {
      assert s[1..][i..i + |pat|] == s[i + 1..i + 1 + |pat|];
    }
  }

  lemma {:induction false} FirstOccurrence(s: string, pat: string, k: nat)
    requires OccursAt(s, pat, k) && forall i: nat :: i < k ==> !OccursAt(s, pat, i)
    ensures IndexOf(s, pat) == Some(k)
  {
    if k > 0 {
      assert !OccursAt(s, pat, 0);
      OccursInTail(s, pat);
      assert OccursAt(s[1..], pat, k - 1);
      FirstOccurrence(s[1..], pat, k - 1);
    }
  }

  lemma {:induction false} NoOccurrence(s: string, pat: string)
    requires forall i: nat :: !OccursAt(s, pat, i)
    ensures IndexOf(s, pat) == None
  {
    if s != "" {
      OccursInTail(s, pat);
      NoOccurrence(s[1..], pat);
    }
  }

  lemma SecondPieceIs(head: string, pat: string, rest: string)
    requires forall i: nat :: i < |head| ==> !OccursAt(head + pat + rest, pat, i)
    requires forall i: nat :: !OccursAt(rest, pat, i)
    ensures SecondPiece(head + pat + rest, pat) == Some(rest)
  {
    var s := head + pat + rest;
    assert s[|head|..|head| + |pat|] == pat && s[|head| + |pat|..] == rest;
    FirstOccurrence(s, pat, |head|);
    NoOccurrence(rest, pat);
  }

  /** `s.split()[0]`, if there is any token. */
  function FirstToken(s: string): Option<string> {
    var t := UntilSpace(LStrip(s));
    if t == "" then None else Some(t)
  }

  function UntilSpace(s: string): string {
    if s == "" || IsSpace(s[0]) then "" else [s[0]] + UntilSpace(s[1..])
  }

  lemma {:induction false} TokenIs(pad: string, token: string, rest: string)
    requires token != "" && (forall c :: c in token ==> !IsSpace(c)) && (forall c :: c in pad ==> IsSpace(c))
    requires rest == "" || IsSpace(rest[0])
    ensures FirstToken(pad + token + rest) == Some(token)
  {
    if pad == "" {
      assert pad + token + rest == token + rest;
      TokenEnds(token, rest);
    } else {
      assert (pad + token + rest)[1..] == pad[1..] + token + rest;
      TokenIs(pad[1..], token, rest);
    }
  }

  lemma {:induction false} TokenEnds(token: string, rest: string)
    requires (forall c :: c in token ==> !IsSpace(c)) && (rest == "" || IsSpace(rest[0]))
    ensures UntilSpace(token + rest) == token
  {
    if token == "" {
      assert token + rest == rest;
    } else {
      assert (token + rest)[1..] == token[1..] + rest;
      TokenEnds(token[1..], rest);
    }
  }

  /** `s.rstrip(")")`. */
  function RStripParens(s: string): string {
    if s != "" && s[|s| - 1] == ')' then RStripParens(s[..|s| - 1]) else s
  }

  predicate IsDigit(c: char) {
    '0' <= c <= '9'
  }

  function Decimal(n: nat): string {
    if n < 10 then [DigitChar(n)] else Decimal(n / 10) + [DigitChar(n % 10)]
  }

  function DigitChar(d: nat): char
    requires d < 10
  {
    ('0' as int + d) as char
  }

  /** `int(s)` on ASCII decimals with an optional sign. */
  function ParseInt(s: string): Option<int> {
    if s != "" && s[0] == '-' then (match ParseNat(s[1..]) case Some(n) => Some(-n) case None => None)
    else if s != "" && s[0] == '+' then ParseNat(s[1..])
    else ParseNat(s)
  }

  function ParseNat(s: string): Option<int> {
    if s == "" || !IsDigit(s[|s| - 1]) then None
    else
      var d := s[|s| - 1] as int - '0' as int;
      if |s| == 1 then Some(d)
      else match ParseNat(s[..|s| - 1])
        case Some(n) => Some(10 * n + d)
        case None => None
  }

  lemma {:induction false} DecimalParses(n: nat)
    ensures Decimal(n) != "" && forall c :: c in Decimal(n) ==> IsDigit(c)
    ensures ParseNat(Decimal(n)) == Some(n) && ParseInt(Decimal(n)) == Some(n)
  {
    if n >= 10 {
      DecimalParses(n / 10);
      assert Decimal(n)[..|Decimal(n)| - 1] == Decimal(n / 10);
    }
    assert IsDigit(Decimal(n)[0]);
  }
}
