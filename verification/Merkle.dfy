/** The merkle tree of a block, kept as one flat vector of levels, and merkle branches. */
module Merkle {
  import opened Basics

  /** The hash of the concatenation of two hashes. */
  type PairHash = (Hash, Hash) -> Hash

  // The tree as levels

  /** The level above: neighbours are hashed together, and a last node without one with itself. */
  function Above(h: PairHash, level: seq<Hash>): (r: seq<Hash>)
    ensures |r| == (|level| + 1) / 2
  {
    seq((|level| + 1) / 2, i requires 0 <= i < (|level| + 1) / 2 => h(level[2 * i], level[Min(2 * i + 1, |level| - 1)]))
  }

  lemma AboveAt(h: PairHash, level: seq<Hash>, i: nat)
    requires i < |Above(h, level)|
    ensures Above(h, level)[i] == h(level[2 * i], level[Min(2 * i + 1, |level| - 1)])
  {
  }

  /** The merkle root; zero for no transactions. */
  function Root(h: PairHash, level: seq<Hash>): Hash
    decreases |level|
  {
    if level == [] then 0 else if |level| == 1 then level[0] else Root(h, Above(h, level))
  }

  /** All levels, leaves first. */
  function Flat(h: PairHash, level: seq<Hash>): seq<Hash>
    decreases |level|
  {
    if |level| <= 1 then level else level + Flat(h, Above(h, level))
  }

  lemma {:induction false} FlatEndsInRoot(h: PairHash, level: seq<Hash>)
    requires level != []
    ensures Flat(h, level) != [] && Flat(h, level)[|Flat(h, level)| - 1] == Root(h, level)
    decreases |level|
  {
    if |level| > 1 {
      FlatEndsInRoot(h, Above(h, level));
    }
  }

  // Branches

  /** The other node of the pair `i` is in: `i ^ 1`, cut at the last node. */
  function Sibling(i: nat, size: nat): (r: nat)
    requires i < size
    ensures r < size
  {
    Min(if i % 2 == 0 then i + 1 else i - 1, size - 1)
  }

  /** The siblings on the way from leaf `i` to the root. */
  function Branch(h: PairHash, level: seq<Hash>, i: nat): seq<Hash>
    requires level == [] || i < |level|
    decreases |level|
  {
    if |level| <= 1 then [] else [level[Sibling(i, |level|)]] + Branch(h, Above(h, level), i / 2)
  }

  /** One step up a branch: the low bit of the index says on which side the node is. */
  function Climb(h: PairHash, hash: Hash, other: Hash, i: int): Hash {
    if i % 2 == 1 then h(other, hash) else h(hash, other)
  }

  function Climbed(h: PairHash, hash: Hash, branch: seq<Hash>, i: int): Hash
    decreases |branch|
  {
    if branch == [] then hash else Climbed(h, Climb(h, hash, branch[0], i), branch[1..], i / 2)
  }

  lemma ParentHash(h: PairHash, level: seq<Hash>, i: nat)
    requires i < |level| && |level| > 1
    ensures i / 2 < |Above(h, level)| && Sibling(i, |level|) < |level|
    ensures Above(h, level)[i / 2] == Climb(h, level[i], level[Sibling(i, |level|)], i)
  {
  }

  /** A branch leads from its leaf to the root. */
  lemma {:induction false} BranchReachesRoot(h: PairHash, level: seq<Hash>, i: nat)
    requires i < |level|
    ensures Climbed(h, level[i], Branch(h, level, i), i) == Root(h, level)
    decreases |level|
  {
    if |level| > 1 {
      var above, branch := Above(h, level), Branch(h, level, i);
      BranchReachesRoot(h, above, i / 2);
      ParentHash(h, level, i);
      assert branch[0] == level[Sibling(i, |level|)] && branch[1..] == Branch(h, above, i / 2);
      hide Above, Branch, Sibling, Climb;
    }
  }

  /** With an injective hash nothing but the leaf leads from its branch to the root. */
  lemma {:induction false} ClimbedInjective(h: PairHash, a: Hash, b: Hash, branch: seq<Hash>, i: int)
    requires Injective(h) && Climbed(h, a, branch, i) == Climbed(h, b, branch, i)
    ensures a == b
    decreases |branch|
  {
    if branch != [] {
      ClimbedInjective(h, Climb(h, a, branch[0], i), Climb(h, b, branch[0], i), branch[1..], i / 2);
    }
  }

  ghost predicate Injective(h: PairHash) {
    forall a, b, c, d {:trigger h(a, b), h(c, d)} :: h(a, b) == h(c, d) ==> a == c && b == d
  }

  /** `CheckMerkleBranch`: index -1 means that the transaction is in no block. */
  method CheckMerkleBranch(h: PairHash, leaf: Hash, branch: seq<Hash>, index: int) returns (hash: Hash)
    ensures index == -1 ==> hash == 0
    ensures index != -1 ==> hash == Climbed(h, leaf, branch, index)
  {
    if index == -1 {
      return 0;
    }
    hash := leaf;
    var i := index;
    for k := 0 to |branch|
      invariant Climbed(h, leaf, branch, index) == Climbed(h, hash, branch[k..], i)
    {
      assert branch[k..][1..] == branch[k + 1..];
      hash := Climb(h, hash, branch[k], i);
      i := i / 2;
    }
  }

  /** The hashing part of a block: its transactions and the cached tree. */
  class Block {
    const h: PairHash
    const txids: seq<Hash>
    var tree: seq<Hash>

    /** The cache is empty or right. */
    ghost predicate Valid()
      reads this
    {
      tree == [] || tree == Flat(h, txids)
    }

    constructor (hash: PairHash, ids: seq<Hash>)
      ensures Valid() && h == hash && txids == ids
    {
      h, txids, tree := hash, ids, [];
    }

    /** `BuildMerkleTree`: append level after level, each from the one before it. */
    method BuildMerkleTree() returns (root: Hash)
      modifies this
      ensures Valid() && tree == Flat(h, txids) && root == Root(h, txids)
    {
      tree := txids;
      var j, size := 0, |txids|;
      ghost var level := txids;
      while size > 1
        invariant size == |level| && 0 <= j <= j + size == |tree|
        invariant tree[j..] == level
        invariant tree[..j] + Flat(h, level) == Flat(h, txids)
        invariant Root(h, level) == Root(h, txids)
        decreases size
      {
        ghost var before := tree;
        BuildLevel(j, size);
        FlatStep(h, before, tree, j, level, Flat(h, txids));
        level := Above(h, level);
        j := j + size;
        size := (size + 1) / 2;
      }
      assert tree == tree[..j] + tree[j..];
      root := if tree == [] then 0 else tree[|tree| - 1];
      if txids != [] {
        FlatEndsInRoot(h, txids);
      }
    }

    /** The inner loop: append the level above the last `size` nodes. */
    method BuildLevel(j: nat, size: nat)
      requires size > 1 && j + size == |tree|
      modifies this
      ensures tree == old(tree) + Above(h, old(tree)[j..])
    {
      var i := 0;
      while i < size
        invariant 0 <= i <= size + 1 && i % 2 == 0
        invariant |tree| == |old(tree)| + i / 2
        invariant tree[..|old(tree)|] == old(tree)
        invariant forall k :: 0 <= k < i / 2 ==> tree[|old(tree)| + k] == Above(h, old(tree)[j..])[k]
      {
        var i2 := Min(i + 1, size - 1);
        assert tree[j + i] == old(tree)[j + i] && tree[j + i2] == old(tree)[j + i2];
        tree := tree + [h(tree[j + i], tree[j + i2])];
        i := i + 2;
      }
      assert tree[|old(tree)|..] == Above(h, old(tree)[j..]);
    }

    /** `GetMerkleBranch`. */
    method GetMerkleBranch(index: nat) returns (branch: seq<Hash>)
      requires Valid() && (txids == [] || index < |txids|)
      modifies this
      ensures Valid() && branch == Branch(h, txids, index)
    {
      if tree == [] {
        var _ := BuildMerkleTree();
      }
      branch := [];
      var j, size, i := 0, |txids|, index;
      ghost var level := txids;
      assert tree[0..] == tree;
      hide Flat, Above, Branch, OnWay;
      OnWayStart(h, tree, txids, index);
      while size > 1
        invariant size == |level| && tree == Flat(h, txids)
        invariant OnWay(h, tree, txids, index, j, level, i, branch)
        decreases size
      {
        OnWayNext(h, tree, txids, index, j, level, i, branch);
        branch := branch + [tree[j + Sibling(i, size)]];
        level := Above(h, level);
        i, j, size := i / 2, j + size, (size + 1) / 2;
      }
      OnWayEnd(h, tree, txids, index, j, level, i, branch);
    }

    /** A transaction's branch leads to the block's root. */
    method ProveInclusion(index: nat) returns (ok: bool)
      requires Valid() && index < |txids|
      modifies this
      ensures Valid() && ok
    {
      var branch := GetMerkleBranch(index);
      var hash := CheckMerkleBranch(h, txids[index], branch, index);
      var root := BuildMerkleTree();
      BranchReachesRoot(h, txids, index);
      ok := hash == root;
    }
  }

  /** The branch so far, with the rest of it still to come from `level` on. */
  ghost predicate OnWay(h: PairHash, tree: seq<Hash>, txids: seq<Hash>, index: nat, j: int, level: seq<Hash>, i: int,
                        branch: seq<Hash>) {
    && (txids == [] || index < |txids|)
    && 0 <= j <= |tree| && tree[j..] == Flat(h, level)
    && 0 <= i && (level == [] || i < |level|)
    && branch + Branch(h, level, i) == Branch(h, txids, index)
  }

  lemma OnWayStart(h: PairHash, tree: seq<Hash>, txids: seq<Hash>, index: nat)
    requires (txids == [] || index < |txids|) && tree == Flat(h, txids)
    ensures OnWay(h, tree, txids, index, 0, txids, index, [])
  {
    assert [] + Branch(h, txids, index) == Branch(h, txids, index);
  }

  lemma TakenLevel(tree: seq<Hash>, j: nat, level: seq<Hash>, rest: seq<Hash>, k: nat)
    requires j <= |tree| && tree[j..] == level + rest && k < |level|
    ensures j + |level| <= |tree| && tree[j + |level|..] == rest && tree[j + k] == level[k]
  {
    assert tree[j + |level|..] == tree[j..][|level|..];
    assert tree[j + k] == tree[j..][k];
  }

  lemma MovedOn(a: seq<Hash>, x: Hash, b: seq<Hash>)
    ensures a + ([x] + b) == (a + [x]) + b
  {
  }

  lemma OnWayNext(h: PairHash, tree: seq<Hash>, txids: seq<Hash>, index: nat, j: int, level: seq<Hash>, i: int,
                  branch: seq<Hash>)
    requires OnWay(h, tree, txids, index, j, level, i, branch) && |level| > 1
    ensures 0 <= i < |level| && 0 <= j && j + |level| <= |tree|
    ensures OnWay(h, tree, txids, index, j + |level|, Above(h, level), i / 2, branch + [tree[j + Sibling(i, |level|)]])
  {
    var k, above := Sibling(i, |level|), Above(h, level);
    assert Flat(h, level) == level + Flat(h, above) && Branch(h, level, i) == [level[k]] + Branch(h, above, i / 2);
    hide Flat, Branch, Above, Sibling;
    TakenLevel(tree, j, level, Flat(h, above), k);
    MovedOn(branch, level[k], Branch(h, above, i / 2));
  }

  lemma OnWayEnd(h: PairHash, tree: seq<Hash>, txids: seq<Hash>, index: nat, j: int, level: seq<Hash>, i: int,
                 branch: seq<Hash>)
    requires OnWay(h, tree, txids, index, j, level, i, branch) && |level| <= 1
    ensures branch == Branch(h, txids, index)
  {
  }

  lemma FlatStep(h: PairHash, before: seq<Hash>, after: seq<Hash>, j: nat, level: seq<Hash>, all: seq<Hash>)
    requires |level| > 1 && j + |level| == |before| && before[j..] == level
    requires after == before + Above(h, level) && before[..j] + Flat(h, level) == all
    ensures after[..j + |level|] + Flat(h, Above(h, level)) == all
    ensures after[j + |level|..] == Above(h, level)
  {
    assert before == before[..j] + level;
  }
}
