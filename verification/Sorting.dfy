/** What `std::sort` promises: the same elements, in order. */
module Sorting {

  ghost predicate TotalOrder<T(!new)>(le: (T, T) -> bool) {
    && (forall a, b :: le(a, b) || le(b, a))
    && (forall a, b, c :: le(a, b) && le(b, c) ==> le(a, c))
  }

  ghost predicate IsSorted<T(!new)>(xs: seq<T>, le: (T, T) -> bool) {
    forall i, j :: 0 <= i < j < |xs| ==> le(xs[i], xs[j])
  }

  method Insert<T(!new)>(xs: seq<T>, x: T, le: (T, T) -> bool) returns (ys: seq<T>)
    requires TotalOrder(le) && IsSorted(xs, le)
    ensures IsSorted(ys, le) && multiset(ys) == multiset(xs) + multiset{x}
  {
    var k := |xs|;
    while k > 0 && !le(xs[k - 1], x)
      invariant 0 <= k <= |xs|
      invariant forall i :: k <= i < |xs| ==> le(x, xs[i])
    {
      k := k - 1;
    }
    ys := xs[..k] + [x] + xs[k..];
    assert xs == xs[..k] + xs[k..];
    Inserted(xs, x, k, le);
  }

  lemma Inserted<T(!new)>(xs: seq<T>, x: T, k: nat, le: (T, T) -> bool)
    requires TotalOrder(le) && IsSorted(xs, le) && k <= |xs|
    requires forall i :: k <= i < |xs| ==> le(x, xs[i])
    requires k > 0 ==> le(xs[k - 1], x)
    ensures IsSorted(xs[..k] + [x] + xs[k..], le)
  {
    var ys := xs[..k] + [x] + xs[k..];
    forall i, j | 0 <= i < j < |ys|
      ensures le(ys[i], ys[j])
    {
      if i < k && j == k {
        assert i < k - 1 ==> le(xs[i], xs[k - 1]);
      }
    }
  }

  method Sort<T(!new)>(xs: seq<T>, le: (T, T) -> bool) returns (ys: seq<T>)
    requires TotalOrder(le)
    ensures IsSorted(ys, le) && multiset(ys) == multiset(xs)
  {
    ys := [];
    for i := 0 to |xs|
      invariant IsSorted(ys, le) && multiset(ys) == multiset(xs[..i])
    {
      assert xs[..i + 1] == xs[..i] + [xs[i]];
      ys := Insert(ys, xs[i], le);
    }
    assert xs[..|xs|] == xs;
  }

  lemma SameElements<T>(xs: seq<T>, ys: seq<T>)
    requires multiset(xs) == multiset(ys)
    ensures |xs| == |ys| && forall x :: x in xs <==> x in ys
  {
    assert |multiset(xs)| == |multiset(ys)|;
    forall x
      ensures x in xs <==> x in ys
    {
      assert x in multiset(xs) <==> x in multiset(ys);
    }
  }
}
