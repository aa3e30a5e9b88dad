/** Taking a block's transactions in an order in which no transaction comes before one it spends
    from: `PopLeafTransaction` and the loop around it. */
module PopLeaf {
  import opened Basics
  import opened Ledger

  /** A default-constructed transaction. */
  const EMPTY := Tx(0, User, [], [])

  /** `tx` spends an output of `parent`. */
  predicate SpendsFrom(tx: Tx, parent: Tx) {
    exists k :: 0 <= k < |tx.inputs| && tx.inputs[k].hash == parent.hash
  }

  /** Transactions of `txs`, each spending from the next. */
  ghost predicate IsChain(txs: seq<Tx>, chain: seq<Tx>) {
    && (forall i :: 0 <= i < |chain| ==> chain[i] in txs)
    && (forall i :: 0 <= i < |chain| - 1 ==> SpendsFrom(chain[i], chain[i + 1]))
  }

  /** `tx` spends from `ancestor`, directly or through others of `txs`. */
  ghost predicate Reaches(txs: seq<Tx>, tx: Tx, ancestor: Tx) {
    exists chain :: IsChain(txs, chain) && |chain| >= 2 && chain[0] == tx && chain[|chain| - 1] == ancestor
  }

  /** No transaction spends, directly or through others, from itself. */
  ghost predicate Acyclic(txs: seq<Tx>) {
    forall tx :: tx in txs ==> !Reaches(txs, tx, tx)
  }

  /** All that a transaction spends from, directly or through others. */
  ghost function Ancestors(txs: seq<Tx>, tx: Tx): set<Tx> {
    set p | p in txs && Reaches(txs, tx, p)
  }

  /** Without cycles a transaction has more ancestors than any it spends from. */
  lemma FewerAncestors(txs: seq<Tx>, tx: Tx, parent: Tx)
    requires Acyclic(txs) && tx in txs && parent in txs && SpendsFrom(tx, parent)
    ensures |Ancestors(txs, parent)| < |Ancestors(txs, tx)|
  {
    forall p | p in Ancestors(txs, parent)
      ensures p in Ancestors(txs, tx)
    {
      var chain :| IsChain(txs, chain) && |chain| >= 2 && chain[0] == parent && chain[|chain| - 1] == p;
      var longer := [tx] + chain;
      assert IsChain(txs, longer) && longer[|longer| - 1] == p;
    }
    var step := [tx, parent];
    assert IsChain(txs, step) && step[|step| - 1] == parent;
    assert parent in Ancestors(txs, tx) && parent !in Ancestors(txs, parent);
    ProperSubset(Ancestors(txs, parent), Ancestors(txs, tx), parent);
  }

  lemma ProperSubset(a: set<Tx>, b: set<Tx>, x: Tx)
    requires a <= b && x in b && x !in a
    ensures |a| < |b|
  {
    SubsetSize(a, b - {x});
  }

  /** A part of an acyclic list is acyclic. */
  lemma PartAcyclic(part: seq<Tx>, txs: seq<Tx>)
    requires Acyclic(txs) && forall t :: t in part ==> t in txs
    ensures Acyclic(part)
  {
    forall tx | tx in part && Reaches(part, tx, tx)
      ensures false
    {
      var chain :| IsChain(part, chain) && |chain| >= 2 && chain[0] == tx && chain[|chain| - 1] == tx;
      assert IsChain(txs, chain);
    }
  }

  /** Anything that goes down from every transaction to those it spends from rules cycles out. */
  lemma RankedIsAcyclic(txs: seq<Tx>, rank: Tx -> nat)
    requires forall tx, parent :: tx in txs && parent in txs && SpendsFrom(tx, parent) ==> rank(parent) < rank(tx)
    ensures Acyclic(txs)
  {
    forall tx | tx in txs && Reaches(txs, tx, tx)
      ensures false
    {
      var chain :| IsChain(txs, chain) && |chain| >= 2 && chain[0] == tx && chain[|chain| - 1] == tx;
      RankFalls(txs, rank, chain);
    }
  }

  lemma {:induction false} RankFalls(txs: seq<Tx>, rank: Tx -> nat, chain: seq<Tx>)
    requires forall tx, parent :: tx in txs && parent in txs && SpendsFrom(tx, parent) ==> rank(parent) < rank(tx)
    requires IsChain(txs, chain) && |chain| >= 2
    ensures rank(chain[|chain| - 1]) < rank(chain[0])
    decreases |chain|
  {
    var rest := chain[1..];
    assert rank(chain[1]) < rank(chain[0]);
    if |rest| == 1 {
      assert chain[|chain| - 1] == chain[1];
    } else {
      forall i | 0 <= i < |rest| - 1
        ensures SpendsFrom(rest[i], rest[i + 1])
      {
        assert SpendsFrom(chain[i + 1], chain[i + 1 + 1]);
      }
      RankFalls(txs, rank, rest);
    }
  }

  ghost predicate IsLeaf(tx: Tx, txs: seq<Tx>) {
    forall parent :: parent in txs ==> !SpendsFrom(tx, parent)
  }

  /** The loop over the inputs. */
  method FindInput(tx: Tx, parent: Tx) returns (found: bool)
    ensures found == SpendsFrom(tx, parent)
  {
    for k := 0 to |tx.inputs|
      invariant forall j :: 0 <= j < k ==> tx.inputs[j].hash != parent.hash
    {
      if tx.inputs[k].hash == parent.hash {
        return true;
      }
    }
    return false;
  }

  lemma SameMembers(a: seq<Tx>, x: Tx, b: seq<Tx>)
    requires multiset(a) + multiset{x} == multiset(b)
    ensures forall t :: t in b <==> t in a || t == x
  {
    forall t
      ensures t in b <==> t in a || t == x
    {
      assert t in b <==> t in multiset(b);
      assert t in a <==> t in multiset(a);
    }
  }

  lemma SwapKeeps(rest: seq<Tx>, x: Tx, i: nat, all: seq<Tx>)
    requires i < |rest| && multiset(rest) + multiset{x} == multiset(all)
    ensures multiset(rest[i := x]) + multiset{rest[i]} == multiset(all)
  {
  }

  /** Take the last transaction and, as long as one it spends from is left, trade it for that one. */
  method PopLeafTransaction(txs: seq<Tx>) returns (result: Tx, rest: seq<Tx>)
    requires Acyclic(txs)
    ensures txs == [] ==> result == EMPTY && rest == []
    ensures txs != [] ==> multiset(rest) + multiset{result} == multiset(txs)
    ensures txs != [] ==> IsLeaf(result, rest) && Acyclic(rest)
  {
    hide Acyclic, Ancestors;
    if txs == [] {
      return EMPTY, [];
    }
    result, rest := txs[|txs| - 1], txs[..|txs| - 1];
    assert txs == rest + [result];
    var i := 0;
    while i < |rest|
      invariant 0 <= i <= |rest|
      invariant multiset(rest) + multiset{result} == multiset(txs)
      invariant forall k :: 0 <= k < i ==> !SpendsFrom(result, rest[k])
      invariant result in txs
      decreases |Ancestors(txs, result)|, |rest| - i
    {
      SameMembers(rest, result, txs);
      var found := FindInput(result, rest[i]);
      if found {
        FewerAncestors(txs, result, rest[i]);
        SwapKeeps(rest, result, i, txs);
        result, rest := rest[i], rest[i := result];
        i := 0;
      } else {
        i := i + 1;
      }
    }
    SameMembers(rest, result, txs);
    PartAcyclic(rest, txs);
  }

  /** No transaction spends from a later one. */
  ghost predicate InOrder(order: seq<Tx>) {
    forall i, j :: 0 <= i < j < |order| ==> !SpendsFrom(order[i], order[j])
  }

  /** The loop of `WriteBFXTBlockTransactionsToDisk`: the order in which transactions are written. */
  method WriteOrder(txs: seq<Tx>) returns (order: seq<Tx>)
    requires Acyclic(txs)
    ensures multiset(order) == multiset(txs)
    ensures InOrder(order)
  {
    order := [];
    var left := txs;
    while left != []
      invariant multiset(order) + multiset(left) == multiset(txs)
      invariant Acyclic(left) && InOrder(order)
      invariant forall i :: 0 <= i < |order| ==> IsLeaf(order[i], left)
      decreases |left|
    {
      var tx, rest := PopLeafTransaction(left);
      Popped(order, left, tx, rest);
      order, left := order + [tx], rest;
    }
  }

  lemma Popped(order: seq<Tx>, left: seq<Tx>, tx: Tx, rest: seq<Tx>)
    requires multiset(rest) + multiset{tx} == multiset(left) && IsLeaf(tx, rest)
    requires InOrder(order) && forall i :: 0 <= i < |order| ==> IsLeaf(order[i], left)
    ensures |rest| < |left| && InOrder(order + [tx])
    ensures forall i :: 0 <= i < |order + [tx]| ==> IsLeaf((order + [tx])[i], rest)
    ensures multiset(order + [tx]) + multiset(rest) == multiset(order) + multiset(left)
  {
    SameMembers(rest, tx, left);
    assert |multiset(left)| == |multiset(rest)| + 1;
  }

  ghost function PlaceOf(txs: seq<Tx>, tx: Tx): (i: nat)
    requires tx in txs
    ensures i < |txs| && txs[i] == tx
  {
    var i :| 0 <= i < |txs| && txs[i] == tx; i
  }

  /** A block whose transactions spend only from earlier ones, as connecting it demands, is acyclic. */
  lemma OrderedIsAcyclic(txs: seq<Tx>)
    requires InOrder(txs) && forall i :: 0 <= i < |txs| ==> !SpendsFrom(txs[i], txs[i])
    ensures Acyclic(txs)
  {
    var rank: Tx -> nat := tx => if tx in txs then PlaceOf(txs, tx) else 0;
    forall tx, parent | tx in txs && parent in txs && SpendsFrom(tx, parent)
      ensures rank(parent) < rank(tx)
    {
      assert SpendsFrom(txs[rank(tx)], txs[rank(parent)]);
    }
    RankedIsAcyclic(txs, rank);
  }
}
