/**
  * UTF-8 as section 4 of RFC 3629 gives it: which byte strings are well formed, and where
  * a string may be cut. The thread's streaming buffer and the terminal's output limit share it.
  */
module Utf8 {
  type Byte = x: int | 0 <= x < 0x100
  type Bytes = seq<Byte>

  const NEWLINE: Byte := 0x0A

  predicate Tail(b: Byte) {
    0x80 <= b <= 0xBF
  }

  /** The length of the character that s starts with; 0 when s starts with none. */
  function CharLen(s: Bytes): nat {
    if |s| >= 1 && s[0] <= 0x7F then 1
    else if |s| >= 2 && 0xC2 <= s[0] <= 0xDF && Tail(s[1]) then 2
    else if |s| >= 3 && Lead3(s[0], s[1]) && Tail(s[2]) then 3
    else if |s| >= 4 && Lead4(s[0], s[1]) && Tail(s[2]) && Tail(s[3]) then 4
    else 0
  }

  predicate Lead3(a: Byte, b: Byte) {
    || (a == 0xE0 && 0xA0 <= b <= 0xBF)
    || (0xE1 <= a <= 0xEC && Tail(b))
    || (a == 0xED && 0x80 <= b <= 0x9F)
    || (0xEE <= a <= 0xEF && Tail(b))
  }

  predicate Lead4(a: Byte, b: Byte) {
    || (a == 0xF0 && 0x90 <= b <= 0xBF)
    || (0xF1 <= a <= 0xF3 && Tail(b))
    || (a == 0xF4 && 0x80 <= b <= 0x8F)
  }

  predicate Valid(s: Bytes)
    decreases |s|
  {
    s == [] || (CharLen(s) > 0 && Valid(s[CharLen(s)..]))
  }

  /** Rust's `str::is_char_boundary`: it looks at one byte only. */
  predicate IsBoundary(s: Bytes, i: nat) {
    i == 0 || i == |s| || (i < |s| && !Tail(s[i]))
  }

  /** Rust's `str::ceil_char_boundary`. */
  function CeilBoundary(s: Bytes, i: nat): nat
    decreases |s| - i
  {
    if i >= |s| then |s| else if IsBoundary(s, i) then i else CeilBoundary(s, i + 1)
  }

  /** The largest boundary not above i. */
  function FloorBoundary(s: Bytes, i: nat): (b: nat)
    ensures b <= i
  {
    if IsBoundary(s, i) || i == 0 then i else FloorBoundary(s, i - 1)
  }

  lemma FirstCharacter(s: Bytes, i: nat)
    requires CharLen(s) > 0
    ensures CharLen(s) <= |s|
    ensures 0 < i < CharLen(s) ==> Tail(s[i])
    ensures CharLen(s) <= i <= |s| ==> CharLen(s[..i]) == CharLen(s)
  {
  }

  /** Cutting at a position that passes the one-byte test leaves two well-formed halves. */
  lemma {:induction false} CutAtBoundary(s: Bytes, i: nat)
    requires Valid(s) && i <= |s| && IsBoundary(s, i)
    ensures Valid(s[..i]) && Valid(s[i..])
    decreases |s|
  {
    if i == 0 {
      assert s[0..] == s;
    } else {
      var n := CharLen(s);
      FirstCharacter(s, i);
      CutTail(s, n, i);
      CutAtBoundary(s[n..], i - n);
    }
  }

  lemma CutTail(s: Bytes, n: nat, i: nat)
    requires n <= i <= |s|
    ensures s[..i][n..] == s[n..][..i - n] && s[i..] == s[n..][i - n..]
    ensures IsBoundary(s, i) ==> IsBoundary(s[n..], i - n)
  {
  }

  lemma CharLenOfPrefix(a: Bytes, b: Bytes)
    requires CharLen(a) > 0
    ensures CharLen(a) <= |a| && CharLen(a + b) == CharLen(a)
  {
  }

  lemma {:induction false} JoinValid(a: Bytes, b: Bytes)
    requires Valid(a) && Valid(b)
    ensures Valid(a + b)
    decreases |a|
  {
    hide CharLen;
    if a == [] {
      assert a + b == b;
    } else {
      var n := CharLen(a);
      CharLenOfPrefix(a, b);
      JoinValid(a[n..], b);
      assert (a + b)[n..] == a[n..] + b;
    }
  }

  lemma {:induction false} NoFourTails(s: Bytes, i: nat)
    requires Valid(s) && i + 3 < |s|
    ensures !(Tail(s[i]) && Tail(s[i + 1]) && Tail(s[i + 2]) && Tail(s[i + 3]))
    decreases |s|
  {
    var n := CharLen(s);
    var rest := s[n..];
    if i >= n {
      NoFourTails(rest, i - n);
    } else if i > 0 {
      assert !Tail(rest[0]);
      assert s[n] == rest[0];
    }
  }

  /** Stepping back n times from i reaches the floor, or passes only tail bytes. */
  lemma {:induction false} StepBack(s: Bytes, i: nat, n: nat)
    requires n <= i < |s|
    ensures FloorBoundary(s, i) >= i - n || forall k :: i - n <= k <= i ==> Tail(s[k])
    decreases n
  {
    if n > 0 && FloorBoundary(s, i) < i {
      StepBack(s, i - 1, n - 1);
      assert FloorBoundary(s, i) == FloorBoundary(s, i - 1);
    }
  }

  lemma {:induction false} StepForward(s: Bytes, i: nat, n: nat)
    requires i + n < |s|
    ensures CeilBoundary(s, i) <= i + n || forall k :: i <= k <= i + n ==> Tail(s[k])
    decreases n
  {
    if n > 0 && CeilBoundary(s, i) > i {
      StepForward(s, i + 1, n - 1);
      assert CeilBoundary(s, i) == CeilBoundary(s, i + 1);
    }
  }

  /** A boundary is never more than three bytes away, in either direction. */
  lemma BoundaryIsNear(s: Bytes, i: nat)
    requires Valid(s) && i <= |s|
    ensures FloorBoundary(s, i) <= i <= FloorBoundary(s, i) + 3
    ensures i <= CeilBoundary(s, i) <= i + 3
  {
    hide Tail, Valid;
    CeilIsBoundary(s, i);
    if 3 <= i < |s| {
      StepBack(s, i, 3);
      NoFourTails(s, i - 3);
    }
    if i + 3 < |s| {
      StepForward(s, i, 3);
      NoFourTails(s, i);
    }
  }

  lemma CeilIsBoundary(s: Bytes, i: nat)
    ensures CeilBoundary(s, i) <= |s| && IsBoundary(s, CeilBoundary(s, i))
    ensures i <= |s| ==> i <= CeilBoundary(s, i)
    decreases |s| - i
  {
    if i < |s| && !IsBoundary(s, i) {
      CeilIsBoundary(s, i + 1);
    }
  }

  lemma FloorIsBoundary(s: Bytes, i: nat)
    ensures FloorBoundary(s, i) <= i && IsBoundary(s, FloorBoundary(s, i))
    ensures forall k :: FloorBoundary(s, i) < k <= i ==> !IsBoundary(s, k)
  {
  }
}
