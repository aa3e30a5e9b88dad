/** Definitions shared by several modules. */
module Basics {

  datatype Option<+T> = None | Some(value: T)

  /** A transaction or block hash. */
  type Hash = nat

  type Byte = x: nat | x < 256

  function Pow2(k: nat): (r: nat)
    ensures r >= 1
  {
    if k == 0 then 1 else 2 * Pow2(k - 1)
  }

  function Min(a: int, b: int): int {
    if a <= b then a else b
  }

  function Reversed<T>(xs: seq<T>): seq<T> {
    seq(|xs|, i requires 0 <= i < |xs| => xs[|xs| - 1 - i])
  }

  lemma Associates<T>(a: seq<T>, b: seq<T>, c: seq<T>)
    ensures (a + b) + c == a + (b + c)
  {
  }

  lemma SubsetSize<T>(a: set<T>, b: set<T>)
    requires a <= b
    ensures |a| <= |b|
  {
    assert b == a + (b - a);
  }

  // Bits of a number, lowest first

  predicate Bit(m: nat, i: nat)
    decreases i
  {
    if i == 0 then m % 2 == 1 else Bit(m / 2, i - 1)
  }

  /** Setting bit `r` above all others; nothing is set there, so adding is the same as or-ing. */
  function WithBit(m: nat, r: nat, on: bool): nat {
    if on then m + Pow2(r) else m
  }

  lemma {:induction false} WithBitKeeps(m: nat, r: nat, on: bool, i: nat)
    requires m < Pow2(r) && i < r
    ensures Bit(WithBit(m, r, on), i) == Bit(m, i)
    decreases i
  {
    if i > 0 {
      WithBitKeeps(m / 2, r - 1, on, i - 1);
      assert WithBit(m, r, on) / 2 == WithBit(m / 2, r - 1, on);
    }
  }

  lemma {:induction false} WithBitSets(m: nat, r: nat, on: bool)
    requires m < Pow2(r)
    ensures Bit(WithBit(m, r, on), r) == on
    ensures WithBit(m, r, on) < Pow2(r + 1)
    decreases r
  {
    if r > 0 {
      WithBitSets(m / 2, r - 1, on);
      assert WithBit(m, r, on) / 2 == WithBit(m / 2, r - 1, on);
    }
  }
}
