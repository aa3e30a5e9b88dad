/** Transactions, the transaction index kept on disk, and what connecting blocks to a chain
    means: the plain replay that the node's faster code paths are compared with. */
module Ledger {
  import opened Basics

  datatype OutPoint = OutPoint(hash: Hash, n: nat)

  /** A coinbase creates coins, a coinstake collects a stake reward, the others only move coins. */
  datatype Kind = CoinBase | CoinStake | User

  /** `outs` are the output values; `hash` is the transaction id. */
  datatype Tx = Tx(hash: Hash, kind: Kind, inputs: seq<OutPoint>, outs: seq<int>)

  datatype Block = Block(hash: Hash, txs: seq<Tx>)

  /** `CTxIndex`: the block holding the transaction and, per output, the block holding its spender. */
  datatype TxIndex = TxIndex(block: Hash, spent: seq<Option<Hash>>)

  type Index = map<Hash, TxIndex>

  /** The index entry of a transaction none of whose outputs is spent. */
  function Unspent(block: Hash, outputs: nat): (t: TxIndex)
    ensures |t.spent| == outputs
    ensures forall n :: 0 <= n < outputs ==> t.spent[n] == None
  {
    TxIndex(block, seq(outputs, _ => None))
  }

  predicate Exists(idx: Index, o: OutPoint) {
    o.hash in idx && o.n < |idx[o.hash].spent|
  }

  predicate IsSpent(idx: Index, o: OutPoint) {
    Exists(idx, o) && idx[o.hash].spent[o.n].Some?
  }

  /** Mark an existing output spent. */
  function Mark(idx: Index, o: OutPoint, blk: Hash): Index
    requires Exists(idx, o)
  {
    idx[o.hash := idx[o.hash].(spent := idx[o.hash].spent[o.n := Some(blk)])]
  }

  function Spend(idx: Index, o: OutPoint, blk: Hash): Option<Index> {
    if Exists(idx, o) && !IsSpent(idx, o) then Some(Mark(idx, o, blk)) else None
  }

  function SpendAll(idx: Index, os: seq<OutPoint>, blk: Hash): Option<Index> {
    if os == [] then Some(idx)
    else match SpendAll(idx, os[..|os| - 1], blk)
      case None => None
      case Some(mid) => Spend(mid, os[|os| - 1], blk)
  }

  /** The inputs a transaction spends: a coinbase has none. */
  function Spends(tx: Tx): seq<OutPoint> {
    if tx.kind.CoinBase? then [] else tx.inputs
  }

  function ConnectTx(idx: Index, tx: Tx, blk: Hash): Option<Index> {
    match SpendAll(idx, Spends(tx), blk)
    case None => None
    case Some(mid) => Some(mid[tx.hash := Unspent(blk, |tx.outs|)])
  }

  function ConnectTxs(idx: Index, txs: seq<Tx>, blk: Hash): Option<Index> {
    if txs == [] then Some(idx)
    else match ConnectTxs(idx, txs[..|txs| - 1], blk)
      case None => None
      case Some(mid) => ConnectTx(mid, txs[|txs| - 1], blk)
  }

  function ConnectBlocks(idx: Index, blocks: seq<Block>): Option<Index> {
    if blocks == [] then Some(idx)
    else match ConnectBlocks(idx, blocks[..|blocks| - 1])
      case None => None
      case Some(mid) => ConnectTxs(mid, blocks[|blocks| - 1].txs, blocks[|blocks| - 1].hash)
  }

  /** All inputs spent by a list of transactions, in order. */
  function AllSpends(txs: seq<Tx>): seq<OutPoint> {
    if txs == [] then [] else AllSpends(txs[..|txs| - 1]) + Spends(txs[|txs| - 1])
  }

  function AllTxs(blocks: seq<Block>): seq<Tx> {
    if blocks == [] then [] else AllTxs(blocks[..|blocks| - 1]) + blocks[|blocks| - 1].txs
  }

  function Ids(txs: seq<Tx>): (ids: set<Hash>) {
    set tx | tx in txs :: tx.hash
  }

  /** No two transactions share their id. */
  ghost predicate Distinct(txs: seq<Tx>) {
    forall i, j :: 0 <= i < j < |txs| ==> txs[i].hash != txs[j].hash
  }

  // Replaying a prefix

  lemma {:induction false} SpendAllPrefix(idx: Index, os: seq<OutPoint>, k: nat, blk: Hash)
    requires k <= |os| && SpendAll(idx, os, blk).Some?
    ensures SpendAll(idx, os[..k], blk).Some?
    decreases |os|
  {
    if k == |os| {
      assert os[..k] == os;
    } else {
      assert os[..|os| - 1][..k] == os[..k];
      SpendAllPrefix(idx, os[..|os| - 1], k, blk);
    }
  }

  lemma {:induction false} ConnectTxsPrefix(idx: Index, txs: seq<Tx>, k: nat, blk: Hash)
    requires k <= |txs| && ConnectTxs(idx, txs, blk).Some?
    ensures ConnectTxs(idx, txs[..k], blk).Some?
    decreases |txs|
  {
    if k == |txs| {
      assert txs[..k] == txs;
    } else {
      assert txs[..|txs| - 1][..k] == txs[..k];
      ConnectTxsPrefix(idx, txs[..|txs| - 1], k, blk);
    }
  }

  lemma {:induction false} ConnectBlocksPrefix(idx: Index, blocks: seq<Block>, k: nat)
    requires k <= |blocks| && ConnectBlocks(idx, blocks).Some?
    ensures ConnectBlocks(idx, blocks[..k]).Some?
    decreases |blocks|
  {
    if k == |blocks| {
      assert blocks[..k] == blocks;
    } else {
      assert blocks[..|blocks| - 1][..k] == blocks[..k];
      ConnectBlocksPrefix(idx, blocks[..|blocks| - 1], k);
    }
  }

  lemma SpendAllSnoc(idx: Index, os: seq<OutPoint>, k: nat, blk: Hash)
    requires k < |os|
    ensures SpendAll(idx, os[..k + 1], blk) ==
            match SpendAll(idx, os[..k], blk) { case None => None case Some(mid) => Spend(mid, os[k], blk) }
  {
    assert os[..k + 1][..k] == os[..k];
  }

  lemma ConnectTxsSnoc(idx: Index, txs: seq<Tx>, k: nat, blk: Hash)
    requires k < |txs|
    ensures ConnectTxs(idx, txs[..k + 1], blk) ==
            match ConnectTxs(idx, txs[..k], blk) { case None => None case Some(mid) => ConnectTx(mid, txs[k], blk) }
  {
    assert txs[..k + 1][..k] == txs[..k];
  }

  lemma ConnectBlocksSnoc(idx: Index, blocks: seq<Block>, k: nat)
    requires k < |blocks|
    ensures ConnectBlocks(idx, blocks[..k + 1]) ==
            match ConnectBlocks(idx, blocks[..k]) {
              case None => None
              case Some(mid) => ConnectTxs(mid, blocks[k].txs, blocks[k].hash) }
  {
    assert blocks[..k + 1][..k] == blocks[..k];
  }

  lemma ConnectBlocksLast(idx: Index, most: seq<Block>, last: Block)
    ensures ConnectBlocks(idx, most + [last]) ==
            match ConnectBlocks(idx, most) { case None => None case Some(mid) => ConnectTxs(mid, last.txs, last.hash) }
  {
    assert (most + [last])[..|most|] == most;
  }

  lemma OneTx(idx: Index, tx: Tx, blk: Hash)
    requires |Spends(tx)| <= 1
    ensures AllSpends([tx]) == Spends(tx)
    ensures ConnectTxs(idx, [tx], blk) == ConnectTx(idx, tx, blk)
    ensures SpendAll(idx, Spends(tx), blk) == if Spends(tx) == [] then Some(idx) else Spend(idx, Spends(tx)[0], blk)
  {
    assert [tx][..0] == [];
    if Spends(tx) != [] {
      assert Spends(tx)[..0] == [];
    }
  }

  /** Spending changes neither which transactions are indexed nor their output counts. */
  ghost predicate SameOutputs(a: Index, b: Index) {
    a.Keys == b.Keys && forall h :: h in a ==> |b[h].spent| == |a[h].spent|
  }

  lemma {:induction false} SpendAllShape(idx: Index, os: seq<OutPoint>, blk: Hash)
    requires SpendAll(idx, os, blk).Some?
    ensures SameOutputs(idx, SpendAll(idx, os, blk).value)
    ensures forall o :: o in os ==> Exists(idx, o)
    decreases |os|
  {
    if os != [] {
      SpendAllShape(idx, os[..|os| - 1], blk);
      var mid := SpendAll(idx, os[..|os| - 1], blk).value;
      assert Exists(mid, os[|os| - 1]);
      forall o | o in os
        ensures Exists(idx, o)
      {
        if o != os[|os| - 1] {
          assert o in os[..|os| - 1];
        }
      }
    }
  }

  /** After connecting, exactly the old and the connected transactions are indexed. */
  lemma {:induction false} ConnectTxsKeys(idx: Index, txs: seq<Tx>, blk: Hash)
    requires ConnectTxs(idx, txs, blk).Some?
    ensures ConnectTxs(idx, txs, blk).value.Keys == idx.Keys + Ids(txs)
    decreases |txs|
  {
    if txs != [] {
      var most, last := txs[..|txs| - 1], txs[|txs| - 1];
      ConnectTxsKeys(idx, most, blk);
      SpendAllShape(ConnectTxs(idx, most, blk).value, Spends(last), blk);
      assert txs == most + [last];
    }
  }

  lemma {:induction false} ConnectBlocksKeys(idx: Index, blocks: seq<Block>)
    requires ConnectBlocks(idx, blocks).Some?
    ensures ConnectBlocks(idx, blocks).value.Keys == idx.Keys + Ids(AllTxs(blocks))
    decreases |blocks|
  {
    if blocks != [] {
      var most, last := blocks[..|blocks| - 1], blocks[|blocks| - 1];
      ConnectBlocksKeys(idx, most);
      ConnectTxsKeys(ConnectBlocks(idx, most).value, last.txs, last.hash);
      assert Ids(AllTxs(blocks)) == Ids(AllTxs(most)) + Ids(last.txs);
    }
  }

  // Ids, inputs and transactions of parts of a chain

  function Hashes(os: seq<OutPoint>): set<Hash> {
    set o | o in os :: o.hash
  }

  lemma NoHashes(os: seq<OutPoint>)
    ensures Hashes(os[..0]) == {}
  {
  }

  lemma HashesSnoc(os: seq<OutPoint>, k: nat)
    requires k < |os|
    ensures Hashes(os[..k + 1]) == Hashes(os[..k]) + {os[k].hash}
  {
    assert os[..k + 1] == os[..k] + [os[k]];
  }

  lemma {:induction false} AllSpendsSnoc(txs: seq<Tx>, k: nat)
    requires k < |txs|
    ensures AllSpends(txs[..k + 1]) == AllSpends(txs[..k]) + Spends(txs[k])
    ensures forall o :: o in Spends(txs[k]) ==> o in AllSpends(txs)
    decreases |txs|
  {
    assert txs[..k + 1][..k] == txs[..k];
    if k + 1 < |txs| {
      assert txs[..|txs| - 1][k] == txs[k];
      AllSpendsSnoc(txs[..|txs| - 1], k);
    } else {
      assert txs[..k + 1] == txs;
    }
  }

  /** Every input is one of some transaction. */
  lemma {:induction false} SpenderOf(txs: seq<Tx>, o: OutPoint) returns (k: nat)
    requires o in AllSpends(txs)
    ensures k < |txs| && o in Spends(txs[k])
    decreases |txs|
  {
    if o in Spends(txs[|txs| - 1]) {
      k := |txs| - 1;
    } else {
      k := SpenderOf(txs[..|txs| - 1], o);
    }
  }

  lemma {:induction false} AllSpendsConcat(a: seq<Tx>, b: seq<Tx>)
    ensures AllSpends(a + b) == AllSpends(a) + AllSpends(b)
    decreases |b|
  {
    if b == [] {
      assert a + b == a;
    } else {
      hide AllSpends, Spends;
      var most, last := b[..|b| - 1], b[|b| - 1];
      AllSpendsConcat(a, most);
      SnocAssociates(a, b);
      AllSpendsLast(a + b, a + most, last);
      AllSpendsLast(b, most, last);
      Associates(AllSpends(a), AllSpends(most), Spends(last));
    }
  }

  lemma SnocAssociates<T>(a: seq<T>, b: seq<T>)
    requires b != []
    ensures a + b == (a + b[..|b| - 1]) + [b[|b| - 1]]
    ensures b == b[..|b| - 1] + [b[|b| - 1]]
  {
  }

  lemma AllSpendsLast(txs: seq<Tx>, most: seq<Tx>, last: Tx)
    requires txs == most + [last]
    ensures AllSpends(txs) == AllSpends(most) + Spends(last)
  {
    assert txs[..|txs| - 1] == most;
  }

  lemma AllTxsSnoc(blocks: seq<Block>, k: nat)
    requires k < |blocks|
    ensures AllTxs(blocks[..k + 1]) == AllTxs(blocks[..k]) + blocks[k].txs
  {
    assert blocks[..k + 1][..k] == blocks[..k];
  }

  /** With fresh and distinct ids the next transaction is not indexed yet. */
  lemma FreshTx(idx: Index, txs: seq<Tx>, k: nat)
    requires k < |txs| && Distinct(txs) && Ids(txs) !! idx.Keys
    ensures txs[k].hash !in idx.Keys + Ids(txs[..k])
    ensures Ids(txs[..k]) <= Ids(txs)
  {
    assert txs[k].hash in Ids(txs);
  }

  lemma {:induction false} AllTxsSplit(blocks: seq<Block>, k: nat)
    requires k <= |blocks|
    ensures AllTxs(blocks[..k]) <= AllTxs(blocks)
    decreases |blocks|
  {
    if k == |blocks| {
      assert blocks[..k] == blocks;
    } else {
      assert blocks[..|blocks| - 1][..k] == blocks[..k];
      AllTxsSplit(blocks[..|blocks| - 1], k);
    }
  }

  /** The transactions of the next block are distinct and not indexed yet. */
  lemma FreshBlock(idx: Index, blocks: seq<Block>, k: nat)
    requires k < |blocks| && Distinct(AllTxs(blocks)) && Ids(AllTxs(blocks)) !! idx.Keys
    ensures Distinct(blocks[k].txs)
    ensures Ids(blocks[k].txs) !! idx.Keys + Ids(AllTxs(blocks[..k]))
    ensures Ids(AllTxs(blocks[..k])) <= Ids(AllTxs(blocks)) && Ids(blocks[k].txs) <= Ids(AllTxs(blocks))
    ensures forall tx :: tx in blocks[k].txs ==> tx in AllTxs(blocks)
  {
    AllTxsSplit(blocks, k + 1);
    AllTxsSnoc(blocks, k);
    FreshPart(idx, AllTxs(blocks), AllTxs(blocks[..k]), blocks[k].txs);
  }

  lemma FreshPart(idx: Index, all: seq<Tx>, before: seq<Tx>, txs: seq<Tx>)
    requires before + txs <= all && Distinct(all) && Ids(all) !! idx.Keys
    ensures Distinct(txs)
    ensures Ids(txs) !! idx.Keys + Ids(before)
    ensures Ids(before) <= Ids(all) && Ids(txs) <= Ids(all)
    ensures forall tx :: tx in txs ==> tx in all
  {
    PartAt(all, before, txs);
    forall tx | tx in txs
      ensures tx in all
    {
      var i :| 0 <= i < |txs| && txs[i] == tx;
      assert all[|before| + i] == tx;
    }
    forall tx | tx in before
      ensures tx in all
    {
      var i :| 0 <= i < |before| && before[i] == tx;
      assert all[i] == tx;
    }
    forall i, j | 0 <= i < |txs| && 0 <= j < |before|
      ensures txs[i].hash != before[j].hash
    {
      assert all[|before| + i] == txs[i] && all[j] == before[j];
    }
    forall i, j | 0 <= i < j < |txs|
      ensures txs[i].hash != txs[j].hash
    {
      assert all[|before| + i] == txs[i] && all[|before| + j] == txs[j];
    }
  }

  lemma PartAt(all: seq<Tx>, before: seq<Tx>, txs: seq<Tx>)
    requires before + txs <= all
    ensures forall i :: 0 <= i < |before| ==> all[i] == before[i]
    ensures forall i :: 0 <= i < |txs| ==> all[|before| + i] == txs[i]
  {
    var both := before + txs;
    forall i | 0 <= i < |txs|
      ensures all[|before| + i] == txs[i]
    {
      assert both[|before| + i] == txs[i];
    }
    forall i | 0 <= i < |before|
      ensures all[i] == before[i]
    {
      assert both[i] == before[i];
    }
  }

  lemma IdsSnoc(txs: seq<Tx>, k: nat)
    requires k < |txs|
    ensures Ids(txs[..k + 1]) == Ids(txs[..k]) + {txs[k].hash}
    ensures Ids(txs[..k + 1]) <= Ids(txs)
  {
    assert txs[..k + 1] == txs[..k] + [txs[k]];
  }

  // What a replay decides

  ghost predicate AllDifferent(os: seq<OutPoint>) {
    forall i, j :: 0 <= i < j < |os| ==> os[i] != os[j]
  }

  /** No output is spent already, and none is spent twice. */
  ghost predicate NoDoubleSpend(idx: Index, os: seq<OutPoint>) {
    AllDifferent(os) && forall o :: o in os ==> !IsSpent(idx, o)
  }

  lemma {:induction false} SpendAllSpent(idx: Index, os: seq<OutPoint>, blk: Hash)
    requires SpendAll(idx, os, blk).Some?
    ensures forall o :: IsSpent(SpendAll(idx, os, blk).value, o) <==> IsSpent(idx, o) || o in os
    decreases |os|
  {
    if os != [] {
      var most, last := os[..|os| - 1], os[|os| - 1];
      SpendAllSpent(idx, most, blk);
      MarkSpent(SpendAll(idx, most, blk).value, last, blk);
      assert os == most + [last];
    }
  }

  lemma MarkSpent(idx: Index, o: OutPoint, blk: Hash)
    requires Exists(idx, o)
    ensures forall p :: IsSpent(Mark(idx, o, blk), p) <==> IsSpent(idx, p) || p == o
  {
    forall p
      ensures IsSpent(Mark(idx, o, blk), p) <==> IsSpent(idx, p) || p == o
    {
      if p.hash == o.hash && Exists(idx, p) && p.n != o.n {
        assert Mark(idx, o, blk)[p.hash].spent[p.n] == idx[p.hash].spent[p.n];
      }
    }
  }

  lemma {:induction false} SpendAllIff(idx: Index, os: seq<OutPoint>, blk: Hash)
    requires forall o :: o in os ==> Exists(idx, o)
    ensures SpendAll(idx, os, blk).Some? <==> NoDoubleSpend(idx, os)
    decreases |os|
  {
    if os != [] {
      var most, last := os[..|os| - 1], os[|os| - 1];
      assert os == most + [last];
      SpendAllIff(idx, most, blk);
      DifferentSnoc(most, last);
      if SpendAll(idx, most, blk).Some? {
        SpendAllSpent(idx, most, blk);
        SpendAllShape(idx, most, blk);
        assert Exists(idx, last);
      }
    }
  }

  lemma DifferentSnoc(os: seq<OutPoint>, o: OutPoint)
    ensures AllDifferent(os + [o]) <==> AllDifferent(os) && o !in os
  {
    var os' := os + [o];
    assert forall i :: 0 <= i < |os| ==> os'[i] == os[i];
    assert os'[|os|] == o;
  }

  /** After a replay exactly the outputs spent before and the inputs just spent are spent. */
  lemma {:induction false} ConnectTxsSpent(idx: Index, txs: seq<Tx>, blk: Hash)
    requires ConnectTxs(idx, txs, blk).Some? && Distinct(txs) && Ids(txs) !! idx.Keys
    ensures forall o :: IsSpent(ConnectTxs(idx, txs, blk).value, o) <==> IsSpent(idx, o) || o in AllSpends(txs)
    decreases |txs|
  {
    if txs != [] {
      var most, last := txs[..|txs| - 1], txs[|txs| - 1];
      assert txs == most + [last];
      assert last.hash in Ids(txs) && Ids(most) <= Ids(txs);
      ConnectTxsSpent(idx, most, blk);
      ConnectTxsKeys(idx, most, blk);
      var mid := ConnectTxs(idx, most, blk).value;
      SpendAllSpent(mid, Spends(last), blk);
      SpendAllShape(mid, Spends(last), blk);
      assert last.hash !in mid;
    }
  }

  /** Inputs that exist when their turn comes. */
  ghost predicate SpendsExist(idx: Index, txs: seq<Tx>, blk: Hash) {
    forall k, o :: 0 <= k < |txs| && o in Spends(txs[k]) && ConnectTxs(idx, txs[..k], blk).Some? ==>
      Exists(ConnectTxs(idx, txs[..k], blk).value, o)
  }

  /** Whether one more transaction can be replayed. */
  lemma ReplayLast(idx: Index, txs: seq<Tx>, most: seq<Tx>, last: Tx, blk: Hash)
    requires txs == most + [last] && ConnectTxs(idx, most, blk).Some? && SpendsExist(idx, txs, blk)
    requires Distinct(most) && Ids(most) !! idx.Keys
    ensures ConnectTxs(idx, txs, blk).Some? <==>
            AllDifferent(Spends(last)) && forall o :: o in Spends(last) ==> !IsSpent(idx, o) && o !in AllSpends(most)
  {
    hide IsSpent, AllDifferent, Exists, Distinct, Ids;
    var mid := ConnectTxs(idx, most, blk).value;
    assert txs[..|txs| - 1] == most;
    ConnectTxsSpent(idx, most, blk);
    assert forall o :: o in Spends(txs[|txs| - 1]) ==> Exists(mid, o);
    SpendAllIff(mid, Spends(last), blk);
  }

  /** Replaying transactions with fresh ids and existing inputs succeeds exactly when every
      input is unspent beforehand and no input is used twice. */
  lemma {:induction false} ReplayIff(idx: Index, txs: seq<Tx>, blk: Hash)
    requires Distinct(txs) && Ids(txs) !! idx.Keys && SpendsExist(idx, txs, blk)
    ensures ConnectTxs(idx, txs, blk).Some? <==> NoDoubleSpend(idx, AllSpends(txs))
    decreases |txs|
  {
    if txs != [] {
      var most, last := txs[..|txs| - 1], txs[|txs| - 1];
      assert txs == most + [last] && Ids(most) <= Ids(txs);
      SpendsExistPrefix(idx, txs, blk);
      ReplayIff(idx, most, blk);
      DoubleSpendConcat(idx, AllSpends(most), Spends(last));
      if ConnectTxs(idx, most, blk).Some? {
        ReplayLast(idx, txs, most, last, blk);
      }
      hide IsSpent, AllDifferent, NoDoubleSpend, SpendsExist, Distinct, Ids;
    }
  }

  lemma SpendsExistPrefix(idx: Index, txs: seq<Tx>, blk: Hash)
    requires txs != [] && SpendsExist(idx, txs, blk)
    ensures SpendsExist(idx, txs[..|txs| - 1], blk)
  {
    var most := txs[..|txs| - 1];
    forall k, o | 0 <= k < |most| && o in Spends(most[k]) && ConnectTxs(idx, most[..k], blk).Some?
      ensures Exists(ConnectTxs(idx, most[..k], blk).value, o)
    {
      assert most[..k] == txs[..k] && most[k] == txs[k];
    }
  }

  lemma DoubleSpendConcat(idx: Index, a: seq<OutPoint>, b: seq<OutPoint>)
    ensures NoDoubleSpend(idx, a + b) <==>
            NoDoubleSpend(idx, a) && AllDifferent(b) && forall o :: o in b ==> !IsSpent(idx, o) && o !in a
  {
    var ab := a + b;
    assert forall i :: 0 <= i < |a| ==> ab[i] == a[i];
    assert forall j :: 0 <= j < |b| ==> ab[|a| + j] == b[j];
    forall i, j | 0 <= i < j < |b|
      ensures b[i] != b[j] <==> ab[|a| + i] != ab[|a| + j]
    {
    }
    forall i, j | 0 <= i < |a| && 0 <= j < |b|
      ensures a[i] != b[j] <==> ab[i] != ab[|a| + j]
    {
    }
    if NoDoubleSpend(idx, a) && AllDifferent(b) && forall o :: o in b ==> !IsSpent(idx, o) && o !in a {
      forall i, j | 0 <= i < j < |ab|
        ensures ab[i] != ab[j]
      {
        if j >= |a| {
          assert ab[j] == b[j - |a|];
          if i >= |a| {
            assert ab[i] == b[i - |a|];
          } else {
            assert a[i] in a && b[j - |a|] in b;
          }
        }
      }
    }
  }
}
