/** Python's `sorted(..., reverse=True)` on keyed values: falling keys, equal keys in their old order. */
module StableSort {
  function InsertDesc<T>(x: (int, T), xs: seq<(int, T)>): seq<(int, T)> {
    if xs == [] || xs[0].0 < x.0 then [x] + xs else [xs[0]] + InsertDesc(x, xs[1..])
  }

  function SortDesc<T>(xs: seq<(int, T)>): seq<(int, T)> {
    if xs == [] then [] else InsertDesc(xs[|xs| - 1], SortDesc(xs[..|xs| - 1]))
  }

  predicate Descending<T>(xs: seq<(int, T)>) {
    forall i, j :: 0 <= i < j < |xs| ==> xs[i].0 >= xs[j].0
  }

  lemma {:induction false} InsertDescKeeps<T>(x: (int, T), xs: seq<(int, T)>)
    ensures multiset(InsertDesc(x, xs)) == multiset{x} + multiset(xs)
  {
    if xs != [] {
      InsertDescKeeps(x, xs[1..]);
      assert xs == [xs[0]] + xs[1..];
    }
  }

  lemma {:induction false} InsertDescSorts<T>(x: (int, T), xs: seq<(int, T)>, bound: int)
    requires Descending(xs) && x.0 <= bound && forall i :: 0 <= i < |xs| ==> xs[i].0 <= bound
    ensures Descending(InsertDesc(x, xs))
    ensures forall i :: 0 <= i < |InsertDesc(x, xs)| ==> InsertDesc(x, xs)[i].0 <= bound
  {
    if xs != [] && xs[0].0 >= x.0 {
      InsertDescSorts(x, xs[1..], xs[0].0);
    }
  }

  lemma {:induction false} SortDescSorts<T>(xs: seq<(int, T)>)
    ensures Descending(SortDesc(xs)) && multiset(SortDesc(xs)) == multiset(xs)
  {
    hide InsertDesc;
    if xs != [] {
      var n := |xs| - 1;
      var sorted := SortDesc(xs[..n]);
      SortDescSorts(xs[..n]);
      InsertDescKeeps(xs[n], sorted);
      assert xs == xs[..n] + [xs[n]];
      InsertDescSorts(xs[n], sorted, if sorted == [] || sorted[0].0 < xs[n].0 then xs[n].0 else sorted[0].0);
    }
  }

  /** The items with key k, in order. */
  function WithKey<T>(xs: seq<(int, T)>, k: int): seq<(int, T)> {
    if xs == [] then [] else (if xs[0].0 == k then [xs[0]] else []) + WithKey(xs[1..], k)
  }

  lemma {:induction false} WithKeyPush<T>(xs: seq<(int, T)>, x: (int, T), k: int)
    ensures WithKey(xs + [x], k) == WithKey(xs, k) + if x.0 == k then [x] else []
  {
    if xs == [] {
      assert xs + [x] == [x] && [x][1..] == [];
    } else {
      WithKeyPush(xs[1..], x, k);
      assert (xs + [x])[1..] == xs[1..] + [x];
    }
  }

  lemma {:induction false} NoneWithKey<T>(xs: seq<(int, T)>, k: int)
    requires forall i :: 0 <= i < |xs| ==> xs[i].0 != k
    ensures WithKey(xs, k) == []
  {
    if xs != [] {
      NoneWithKey(xs[1..], k);
    }
  }

  lemma {:induction false} InsertDescIsStable<T>(x: (int, T), xs: seq<(int, T)>, k: int)
    requires Descending(xs)
    ensures WithKey(InsertDesc(x, xs), k) == WithKey(xs, k) + if x.0 == k then [x] else []
  {
    if xs == [] || xs[0].0 < x.0 {
      assert ([x] + xs)[1..] == xs;
      if x.0 == k {
        NoneWithKey(xs, k);
      }
    } else {
      InsertDescIsStable(x, xs[1..], k);
      assert ([xs[0]] + InsertDesc(x, xs[1..]))[1..] == InsertDesc(x, xs[1..]);
    }
  }

  /** Items with equal keys keep their order. */
  lemma {:induction false} SortDescIsStable<T>(xs: seq<(int, T)>, k: int)
    ensures WithKey(SortDesc(xs), k) == WithKey(xs, k)
  {
    hide InsertDesc, Descending, WithKey;
    if xs != [] {
      var n := |xs| - 1;
      SortDescIsStable(xs[..n], k);
      SortDescSorts(xs[..n]);
      InsertDescIsStable(xs[n], SortDesc(xs[..n]), k);
      WithKeyPush(xs[..n], xs[n], k);
      assert xs == xs[..n] + [xs[n]];
    }
  }

  lemma SortDescMember<T>(xs: seq<(int, T)>, x: (int, T))
    ensures x in SortDesc(xs) <==> x in xs
  {
    SortDescSorts(xs);
    assert x in multiset(SortDesc(xs)) <==> x in multiset(xs);
  }

  lemma SortDescMembers<T>(xs: seq<(int, T)>)
    ensures forall x :: x in SortDesc(xs) <==> x in xs
  {
    forall x ensures x in SortDesc(xs) <==> x in xs {
      SortDescMember(xs, x);
    }
  }

  /** The loop behind `sorted` and `most_common`, whose algorithm is not part of this model. */
  method Sort<T>(xs: seq<(int, T)>) returns (sorted: seq<(int, T)>)
    ensures sorted == SortDesc(xs)
  {
    sorted := [];
    for i := 0 to |xs|
      invariant sorted == SortDesc(xs[..i])
    {
      assert xs[..i + 1][..i] == xs[..i];
      sorted := InsertDesc(xs[i], sorted);
    }
    assert xs[..|xs|] == xs;
  }
}
