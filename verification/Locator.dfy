/** Block locators: hashes of a chain at distances that grow exponentially, by which another node
    finds where the chains part. */
module Locator {
  import opened Basics

  /** How far back entry `i` of a locator lies. */
  function DistanceAt(i: nat): nat {
    if i <= 11 then i else 9 + Pow2(i - 10)
  }

  /** The step taken after entry `i`. */
  function StepAt(i: nat): (r: nat)
    ensures r >= 1
  {
    if i <= 10 then 1 else Pow2(i - 10)
  }

  lemma Steps(i: nat)
    ensures DistanceAt(i + 1) == DistanceAt(i) + StepAt(i)
    ensures StepAt(i + 1) == if i >= 10 then 2 * StepAt(i) else StepAt(i)
  {
    assert Pow2(1) == 2 && Pow2(0) == 1;
  }

  lemma {:induction false} DistanceGrows(i: nat, j: nat)
    requires i < j
    ensures DistanceAt(i) < DistanceAt(j)
    decreases j
  {
    Steps(j - 1);
    if i < j - 1 {
      DistanceGrows(i, j - 1);
    }
  }

  /** Distances at most double from one entry to the next. */
  lemma Doubling(i: nat)
    requires i >= 1
    ensures DistanceAt(i + 1) <= 2 * DistanceAt(i)
  {
    Steps(i);
  }

  /** A chain from the genesis block, all of whose blocks are different. */
  ghost predicate Chain(chain: seq<Hash>) {
    chain != [] && forall i, j :: 0 <= i < j < |chain| ==> chain[i] != chain[j]
  }

  function Height(chain: seq<Hash>): nat
    requires chain != []
  {
    |chain| - 1
  }

  /** `n` entries at the distances of a locator, then the genesis block. */
  ghost predicate IsLocator(chain: seq<Hash>, have: seq<Hash>, n: nat)
    requires chain != []
  {
    && |have| == n + 1
    && (forall i :: 0 <= i < n ==> DistanceAt(i) <= Height(chain) && have[i] == chain[Height(chain) - DistanceAt(i)])
    && DistanceAt(n) > Height(chain)
    && have[n] == chain[0]
  }

  /** `CBlockLocator::Set` on the tip of a chain. */
  method Set(chain: seq<Hash>) returns (have: seq<Hash>, ghost n: nat)
    requires chain != []
    ensures IsLocator(chain, have, n) && n >= 1
  {
    have, n := [], 0;
    var at, step := |chain| - 1, 1;
    while at >= 0
      invariant |have| == n && step == StepAt(n)
      invariant at >= 0 ==> at == Height(chain) - DistanceAt(n)
      invariant at >= -1 && (at < 0 ==> n >= 1 && DistanceAt(n) > Height(chain))
      invariant forall i :: 0 <= i < n ==>
                DistanceAt(i) <= Height(chain) && have[i] == chain[Height(chain) - DistanceAt(i)]
      decreases at
    {
      have := have + [chain[at]];
      var i, from := 0, at;
      while at >= 0 && i < step
        invariant 0 <= i <= step && at == from - i && at >= -1
      {
        at, i := at - 1, i + 1;
      }
      Steps(n);
      if |have| > 10 {
        step := step * 2;
      }
      n := n + 1;
    }
    have := have + [chain[0]];
  }

  /** The first entry another node has in its main chain. */
  ghost predicate FirstKnown(have: seq<Hash>, known: Hash -> bool, i: nat) {
    && i <= |have|
    && (forall k :: 0 <= k < i ==> !known(have[k]))
    && (i < |have| ==> known(have[i]))
  }

  /** `GetDistanceBack`: the distance is retraced from the number of entries passed. */
  method GetDistanceBack(have: seq<Hash>, known: Hash -> bool) returns (distance: nat, ghost first: nat)
    ensures FirstKnown(have, known, first) && distance == DistanceAt(first)
  {
    distance, first := 0, 0;
    var step := 1;
    for i := 0 to |have|
      invariant first == i && distance == DistanceAt(i) && step == StepAt(i)
      invariant forall k :: 0 <= k < i ==> !known(have[k])
    {
      if known(have[i]) {
        return;
      }
      Steps(i);
      StepsBeyondTen(i);
      distance := distance + step;
      if distance > 10 {
        step := step * 2;
      }
      first := first + 1;
    }
  }

  lemma StepsBeyondTen(i: nat)
    ensures DistanceAt(i + 1) > 10 <==> i >= 10
  {
    if i > 10 {
      DistanceGrows(11, i + 1);
    }
  }

  /** `GetBlockIndex`: the first known entry, or the receiver's genesis block. */
  method GetBlockIndex(have: seq<Hash>, known: Hash -> bool, genesis: Hash) returns (block: Hash, ghost first: nat)
    ensures FirstKnown(have, known, first)
    ensures block == if first < |have| then have[first] else genesis
  {
    first := 0;
    for i := 0 to |have|
      invariant first == i && forall k :: 0 <= k < i ==> !known(have[k])
    {
      if known(have[i]) {
        return have[i], first;
      }
      first := first + 1;
    }
    block := genesis;
  }

  /** The receiver's main chain shares exactly the blocks at least `f` back. */
  ghost predicate ForksAt(chain: seq<Hash>, known: Hash -> bool, f: nat)
    requires chain != []
  {
    f <= Height(chain) && forall d :: 0 <= d <= Height(chain) ==> (Shared(chain, known, d) <==> d >= f)
  }

  ghost predicate Shared(chain: seq<Hash>, known: Hash -> bool, d: nat)
    requires d < |chain|
  {
    known(chain[|chain| - 1 - d])
  }

  /** How far back the block found lies. */
  ghost function FoundAt(chain: seq<Hash>, n: nat, first: nat): nat
    requires chain != []
  {
    if first < n then DistanceAt(first) else Height(chain)
  }

  /** The block found is at or behind the fork, and behind it by fewer blocks than the fork is back. */
  lemma Overshoot(chain: seq<Hash>, have: seq<Hash>, n: nat, known: Hash -> bool, f: nat, first: nat)
    requires Chain(chain) && IsLocator(chain, have, n) && n >= 1 && ForksAt(chain, known, f)
             && FirstKnown(have, known, first)
    ensures first <= n
    ensures FoundAt(chain, n, first) <= Height(chain) && have[first] == chain[Height(chain) - FoundAt(chain, n, first)]
    ensures f == 0 ==> FoundAt(chain, n, first) == 0
    ensures f > 0 ==> f <= FoundAt(chain, n, first) < 2 * f
  {
    assert Shared(chain, known, Height(chain));
    assert first <= n;
    assert Shared(chain, known, DistanceAt(0)) <==> f == 0;
    if first > 0 {
      var before := first - 1;
      assert !Shared(chain, known, DistanceAt(before));
      assert DistanceAt(before) < f;
      assert first < n ==> Shared(chain, known, DistanceAt(first));
      Steps(before);
      if before >= 1 {
        Doubling(before);
      }
    }
  }

  /** For every entry before the appended genesis block the retraced distance is the true one. */
  method Locate(chain: seq<Hash>, known: Hash -> bool, genesis: Hash, ghost f: nat)
    returns (block: Hash, distance: nat, ghost back: nat)
    requires Chain(chain) && ForksAt(chain, known, f)
    ensures back <= Height(chain) && block == chain[Height(chain) - back]
    ensures f == 0 ==> back == 0
    ensures f > 0 ==> f <= back < 2 * f
    ensures distance == back || (back == Height(chain) && distance > back)
  {
    var have;
    ghost var n, first, first';
    have, n := Set(chain);
    block, first := GetBlockIndex(have, known, genesis);
    distance, first' := GetDistanceBack(have, known);
    FirstUnique(have, known, first, first');
    Overshoot(chain, have, n, known, f, first);
    back := FoundAt(chain, n, first);
  }

  lemma FirstUnique(have: seq<Hash>, known: Hash -> bool, i: nat, j: nat)
    requires FirstKnown(have, known, i) && FirstKnown(have, known, j)
    ensures i == j
  {
  }
}
