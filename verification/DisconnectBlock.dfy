/** `DisconnectBlock`: taking a block off the tip of the chain again, as a reorganisation does.
    It undoes `ConnectBlock` exactly, up to index entries that were overwritten. */
module DisconnectBlock {
  import opened Basics
  import opened Ledger
  import opened Money

  /** Forget that an output was spent. */
  function Clear(idx: Index, o: OutPoint): Index
    requires Exists(idx, o)
  {
    idx[o.hash := idx[o.hash].(spent := idx[o.hash].spent[o.n := None])]
  }

  function ClearAll(idx: Index, os: seq<OutPoint>): Option<Index> {
    if os == [] then Some(idx)
    else match ClearAll(idx, os[..|os| - 1])
      case None => None
      case Some(mid) => if Exists(mid, os[|os| - 1]) then Some(Clear(mid, os[|os| - 1])) else None
  }

  /** `DisconnectInputs`. */
  function DisconnectTx(idx: Index, tx: Tx): Option<Index> {
    match ClearAll(idx, Spends(tx))
    case None => None
    case Some(mid) => Some(mid - {tx.hash})
  }

  /** The transactions of a block, last one first. */
  function DisconnectTxs(idx: Index, txs: seq<Tx>): Option<Index>
    decreases |txs|
  {
    if txs == [] then Some(idx)
    else match DisconnectTx(idx, txs[|txs| - 1])
      case None => None
      case Some(mid) => DisconnectTxs(mid, txs[..|txs| - 1])
  }

  function DisconnectBlocks(idx: Index, blocks: seq<Block>): Option<Index>
    decreases |blocks|
  {
    if blocks == [] then Some(idx)
    else match DisconnectTxs(idx, blocks[|blocks| - 1].txs)
      case None => None
      case Some(mid) => DisconnectBlocks(mid, blocks[..|blocks| - 1])
  }

  method ClearInputs(db: Index, os: seq<OutPoint>) returns (r: Option<Index>)
    ensures r == ClearAll(db, os)
  {
    var db': Index := db;
    var i := 0;
    while i < |os|
      invariant 0 <= i <= |os|
      invariant ClearAll(db, os[..i]) == Some(db')
    {
      var o := os[i];
      assert os[..i + 1][..i] == os[..i];
      if o.hash !in db' || o.n >= |db'[o.hash].spent| {
        ClearFails(db, os, i + 1);
        return None;
      }
      db' := db'[o.hash := db'[o.hash].(spent := db'[o.hash].spent[o.n := None])];
      i := i + 1;
    }
    assert os[..i] == os;
    return Some(db');
  }

  lemma {:induction false} ClearFails(idx: Index, os: seq<OutPoint>, k: nat)
    requires k <= |os| && ClearAll(idx, os[..k]).None?
    ensures ClearAll(idx, os).None?
    decreases |os|
  {
    if k == |os| {
      assert os[..k] == os;
    } else {
      assert os[..|os| - 1][..k] == os[..k];
      ClearFails(idx, os[..|os| - 1], k);
    }
  }

  /** `DisconnectBlock` on the transaction index. */
  method Disconnect(db: Index, b: Block) returns (r: Option<Index>)
    ensures r == DisconnectTxs(db, b.txs)
  {
    var db': Index := db;
    var i := |b.txs|;
    assert b.txs[..i] == b.txs;
    while i > 0
      invariant 0 <= i <= |b.txs|
      invariant DisconnectTxs(db', b.txs[..i]) == DisconnectTxs(db, b.txs)
    {
      i := i - 1;
      assert b.txs[..i + 1][..i] == b.txs[..i];
      var cleared := ClearInputs(db', Spends(b.txs[i]));
      if cleared.None? {
        return None;
      }
      db' := cleared.value - {b.txs[i].hash};
    }
    return Some(db');
  }

  lemma ClearMarked(idx: Index, o: OutPoint, blk: Hash)
    requires Exists(idx, o) && !IsSpent(idx, o)
    ensures Exists(Mark(idx, o, blk), o) && Clear(Mark(idx, o, blk), o) == idx
  {
    assert idx[o.hash].spent[o.n := Some(blk)][o.n := None] == idx[o.hash].spent;
  }

  /** Clearing one more output does not depend on the order. */
  lemma {:induction false} ClearCommutes(idx: Index, os: seq<OutPoint>, o: OutPoint)
    requires Exists(idx, o) && (forall p :: p in os ==> Exists(idx, p))
    ensures ClearAll(idx, os).Some? && SameOutputs(idx, ClearAll(idx, os).value)
    ensures ClearAll(Clear(idx, o), os) == Some(Clear(ClearAll(idx, os).value, o))
    decreases |os|
  {
    if os != [] {
      var most, last := os[..|os| - 1], os[|os| - 1];
      assert forall p :: p in most ==> p in os;
      ClearCommutes(idx, most, o);
      var mid := ClearAll(idx, most).value;
      assert Exists(idx, last);
      ClearSwap(mid, last, o);
    }
  }

  lemma ClearSwap(idx: Index, p: OutPoint, o: OutPoint)
    requires Exists(idx, p) && Exists(idx, o)
    ensures Exists(Clear(idx, o), p) && Exists(Clear(idx, p), o)
    ensures Clear(Clear(idx, o), p) == Clear(Clear(idx, p), o)
  {
    if p.hash == o.hash {
      assert idx[o.hash].spent[o.n := None][p.n := None] == idx[o.hash].spent[p.n := None][o.n := None];
    }
  }

  /** Clearing the inputs just spent restores the index. */
  lemma {:induction false} ClearSpent(idx: Index, os: seq<OutPoint>, blk: Hash)
    requires SpendAll(idx, os, blk).Some?
    ensures ClearAll(SpendAll(idx, os, blk).value, os) == Some(idx)
    decreases |os|
  {
    if os != [] {
      var most, last := os[..|os| - 1], os[|os| - 1];
      var mid := SpendAll(idx, most, blk).value;
      ClearSpent(idx, most, blk);
      ClearMarked(mid, last, blk);
      SpendAllShape(idx, most, blk);
      var done := Mark(mid, last, blk);
      ClearCommutes(done, most, last);
    }
  }

  /** Entries the inputs do not name can be set or removed beforehand or afterwards. */
  lemma {:induction false} ClearFrame(idx: Index, os: seq<OutPoint>, h: Hash, entry: TxIndex)
    requires h !in Hashes(os) && ClearAll(idx, os).Some?
    ensures ClearAll(idx[h := entry], os) == Some(ClearAll(idx, os).value[h := entry])
    ensures ClearAll(idx - {h}, os) == Some(ClearAll(idx, os).value - {h})
    decreases |os|
  {
    if os != [] {
      var most, last := os[..|os| - 1], os[|os| - 1];
      assert last in os && last.hash in Hashes(os);
      assert Hashes(most) <= Hashes(os);
      ClearFrame(idx, most, h, entry);
      var mid := ClearAll(idx, most).value;
      assert Clear(mid[h := entry], last) == Clear(mid, last)[h := entry];
      assert Clear(mid - {h}, last) == Clear(mid, last) - {h};
    }
  }

  /** A fully spent transaction cannot be named by an input that could be spent. */
  lemma NotNamed(idx: Index, os: seq<OutPoint>, blk: Hash, h: Hash)
    requires SpendAll(idx, os, blk).Some? && FullySpent(idx, h)
    ensures h !in Hashes(os)
  {
    SpendAllShape(idx, os, blk);
    SpendAllIff(idx, os, blk);
    forall o | o in os
      ensures o.hash != h
    {
      assert Exists(idx, o) && !IsSpent(idx, o);
    }
  }

  lemma DisconnectOne(idx: Index, tx: Tx, blk: Hash)
    requires ConnectTx(idx, tx, blk).Some? && FullySpent(idx, tx.hash)
    ensures DisconnectTx(ConnectTx(idx, tx, blk).value, tx) == Some(idx - {tx.hash})
  {
    var os, entry := Spends(tx), Unspent(blk, |tx.outs|);
    var mid := SpendAll(idx, os, blk).value;
    NotNamed(idx, os, blk, tx.hash);
    ClearSpent(idx, os, blk);
    ClearFrame(mid, os, tx.hash, entry);
    assert idx[tx.hash := entry] - {tx.hash} == idx - {tx.hash};
  }

  /** Clearing needs the entries it names, and leaves alone what is missing otherwise. */
  lemma {:induction false} ClearWithout(idx: Index, os: seq<OutPoint>, gone: set<Hash>)
    requires ClearAll(idx, os).Some?
    ensures ClearAll(idx - gone, os) == if Hashes(os) !! gone then Some(ClearAll(idx, os).value - gone) else None
    decreases |os|
  {
    if os == [] {
      assert Hashes(os) == {};
    } else {
      var most, last := os[..|os| - 1], os[|os| - 1];
      HashesSnoc(os, |os| - 1);
      assert os[..|os|] == os;
      ClearWithout(idx, most, gone);
      var mid := ClearAll(idx, most).value;
      if Hashes(most) !! gone && last.hash !in gone {
        assert Clear(mid - gone, last) == Clear(mid, last) - gone;
      }
    }
  }

  lemma {:induction false} SpendsNotNamed(idx: Index, txs: seq<Tx>, blk: Hash, h: Hash)
    requires ConnectTxs(idx, txs, blk).Some? && FullySpent(idx, h) && h !in Ids(txs)
    ensures h !in Hashes(AllSpends(txs))
    decreases |txs|
  {
    if txs != [] {
      var most, last := txs[..|txs| - 1], txs[|txs| - 1];
      assert Ids(most) <= Ids(txs);
      SpendsNotNamed(idx, most, blk, h);
      StaysFullySpent(idx, most, blk, h);
      NotNamed(ConnectTxs(idx, most, blk).value, Spends(last), blk, h);
    }
  }

  /** Disconnecting a block when some entries are gone: it fails exactly if the block spends from
      one of those, and otherwise undoes connecting it, except that the entries of transactions
      that the block overwrote are gone too. */
  lemma {:induction false} DisconnectWithout(idx: Index, txs: seq<Tx>, blk: Hash, gone: set<Hash>)
    requires ConnectTxs(idx, txs, blk).Some? && Distinct(txs)
    requires forall tx :: tx in txs ==> FullySpent(idx, tx.hash)
    ensures DisconnectTxs(ConnectTxs(idx, txs, blk).value - gone, txs) ==
            if Hashes(AllSpends(txs)) !! gone then Some(idx - (Ids(txs) + gone)) else None
    decreases |txs|
  {
    if txs == [] {
      assert Hashes(AllSpends(txs)) == {} && idx - (Ids(txs) + gone) == idx - gone;
    } else {
      hide FullySpent, Spends, DisconnectTx, ConnectTx;
      var most, last := txs[..|txs| - 1], txs[|txs| - 1];
      assert txs == most + [last];
      LastApart(txs, most, last, gone);
      assert forall tx :: tx in most ==> tx in txs;
      var mid := ConnectTxs(idx, most, blk).value;
      StaysFullySpent(idx, most, blk, last.hash);
      DisconnectOneWithout(mid, last, blk, gone);
      SpendsNotNamed(idx, most, blk, last.hash);
      DisconnectWithout(idx, most, blk, gone + {last.hash});
      hide ConnectTxs, Ids, Hashes, AllSpends, Distinct;
    }
  }

  lemma LastApart(txs: seq<Tx>, most: seq<Tx>, last: Tx, gone: set<Hash>)
    requires txs == most + [last] && Distinct(txs)
    ensures Distinct(most) && last.hash !in Ids(most) && Ids(most) + (gone + {last.hash}) == Ids(txs) + gone
    ensures Hashes(AllSpends(txs)) == Hashes(AllSpends(most)) + Hashes(Spends(last))
  {
    AllSpendsLast(txs, most, last);
  }

  lemma DisconnectOneWithout(idx: Index, tx: Tx, blk: Hash, gone: set<Hash>)
    requires ConnectTx(idx, tx, blk).Some? && FullySpent(idx, tx.hash)
    ensures DisconnectTx(ConnectTx(idx, tx, blk).value - gone, tx) ==
            if Hashes(Spends(tx)) !! gone then Some(idx - (gone + {tx.hash})) else None
  {
    var done := ConnectTx(idx, tx, blk).value;
    DisconnectOne(idx, tx, blk);
    ClearWithout(done, Spends(tx), gone);
    var cleared := ClearAll(done, Spends(tx)).value;
    assert cleared - gone - {tx.hash} == cleared - {tx.hash} - gone;
    assert idx - {tx.hash} - gone == idx - (gone + {tx.hash});
  }

  /** Disconnecting a block undoes connecting it, except that the entries of fully spent
      transactions the block overwrote are gone. */
  lemma DisconnectUndoes(idx: Index, txs: seq<Tx>, blk: Hash)
    requires ConnectTxs(idx, txs, blk).Some? && Distinct(txs)
    requires forall tx :: tx in txs ==> FullySpent(idx, tx.hash)
    ensures DisconnectTxs(ConnectTxs(idx, txs, blk).value, txs) == Some(idx - Ids(txs))
  {
    var done: Index := ConnectTxs(idx, txs, blk).value;
    DisconnectWithout(idx, txs, blk, {});
    assert done - {} == done && Ids(txs) + {} == Ids(txs);
  }

  /** So the index is restored exactly when no entry was overwritten ... */
  lemma UndoneExactly(idx: Index, txs: seq<Tx>, blk: Hash)
    requires ConnectTxs(idx, txs, blk).Some? && Distinct(txs)
    requires forall tx :: tx in txs ==> FullySpent(idx, tx.hash)
    ensures DisconnectTxs(ConnectTxs(idx, txs, blk).value, txs) == Some(idx) <==> Ids(txs) !! idx.Keys
  {
    DisconnectUndoes(idx, txs, blk);
    if Ids(txs) !! idx.Keys {
      assert idx - Ids(txs) == idx;
    } else {
      var h :| h in Ids(txs) && h in idx;
      assert h !in idx - Ids(txs);
    }
  }

  /** ... and in any case every output that was unspent is there and unspent again, and nothing
      else is. */
  lemma UndoneUnspent(idx: Index, txs: seq<Tx>, blk: Hash)
    requires ConnectTxs(idx, txs, blk).Some? && Distinct(txs)
    requires forall tx :: tx in txs ==> FullySpent(idx, tx.hash)
    ensures var back := DisconnectTxs(ConnectTxs(idx, txs, blk).value, txs);
            back.Some? && forall o :: (Exists(back.value, o) && !IsSpent(back.value, o)) <==>
                (Exists(idx, o) && !IsSpent(idx, o))
  {
    DisconnectUndoes(idx, txs, blk);
  }

  /** A fully spent transaction, overwritten: its entry does not come back. */
  lemma OverwriteLost() returns (idx: Index, txs: seq<Tx>, blk: Hash)
    ensures ConnectTxs(idx, txs, blk).Some? && forall tx :: tx in txs ==> FullySpent(idx, tx.hash)
    ensures DisconnectTxs(ConnectTxs(idx, txs, blk).value, txs) != Some(idx)
  {
    idx, txs, blk := map[1 := TxIndex(7, [Some(8)])], [Tx(1, CoinBase, [], [50])], 9;
    assert txs[..0] == [];
    UndoneExactly(idx, txs, blk);
    assert txs[0] in txs && 1 in Ids(txs);
  }

  // Whole branches

  /** When the turn of each block comes, it overwrites only fully spent transactions. */
  ghost predicate NoOverwrites(idx: Index, blocks: seq<Block>) {
    forall k :: 0 <= k < |blocks| ==> OverwritesSpent(idx, blocks, k)
  }

  ghost predicate OverwritesSpent(idx: Index, blocks: seq<Block>, k: nat)
    requires k < |blocks|
  {
    && Distinct(blocks[k].txs)
    && (ConnectBlocks(idx, blocks[..k]).Some? ==>
          forall tx :: tx in blocks[k].txs ==> FullySpent(ConnectBlocks(idx, blocks[..k]).value, tx.hash))
  }

  lemma NoOverwritesPrefix(idx: Index, blocks: seq<Block>)
    requires blocks != [] && NoOverwrites(idx, blocks)
    ensures NoOverwrites(idx, blocks[..|blocks| - 1]) && OverwritesSpent(idx, blocks, |blocks| - 1)
  {
    var most := blocks[..|blocks| - 1];
    forall k | 0 <= k < |most|
      ensures OverwritesSpent(idx, most, k)
    {
      assert OverwritesSpent(idx, blocks, k) && most[..k] == blocks[..k];
    }
  }

  /** No block spends from a transaction that is written again by a later block or is gone. */
  ghost predicate SpendsStay(blocks: seq<Block>, gone: set<Hash>) {
    && (forall k :: 0 <= k < |blocks| ==> Hashes(AllSpends(blocks[k].txs)) !! gone)
    && (forall k, l :: 0 <= k < l < |blocks| ==> Hashes(AllSpends(blocks[k].txs)) !! Ids(blocks[l].txs))
  }

  lemma SpendsStaySnoc(blocks: seq<Block>, gone: set<Hash>)
    requires blocks != []
    ensures var most, last := blocks[..|blocks| - 1], blocks[|blocks| - 1];
            SpendsStay(blocks, gone) <==>
            Hashes(AllSpends(last.txs)) !! gone && SpendsStay(most, gone + Ids(last.txs))
  {
    var most, last := blocks[..|blocks| - 1], blocks[|blocks| - 1];
    assert forall k :: 0 <= k < |most| ==> most[k] == blocks[k];
    if Hashes(AllSpends(last.txs)) !! gone && SpendsStay(most, gone + Ids(last.txs)) {
      forall k, l | 0 <= k < l < |blocks|
        ensures Hashes(AllSpends(blocks[k].txs)) !! Ids(blocks[l].txs)
      {
        assert Hashes(AllSpends(most[k].txs)) !! gone + Ids(last.txs);
        if l < |most| {
          assert Hashes(AllSpends(most[k].txs)) !! Ids(most[l].txs);
        }
      }
      forall k | 0 <= k < |blocks|
        ensures Hashes(AllSpends(blocks[k].txs)) !! gone
      {
        if k < |most| {
          assert Hashes(AllSpends(most[k].txs)) !! gone + Ids(last.txs);
        }
      }
    }
  }

  lemma {:induction false} BranchWithout(idx: Index, blocks: seq<Block>, gone: set<Hash>)
    requires ConnectBlocks(idx, blocks).Some? && NoOverwrites(idx, blocks)
    ensures DisconnectBlocks(ConnectBlocks(idx, blocks).value - gone, blocks) ==
            if SpendsStay(blocks, gone) then Some(idx - (Ids(AllTxs(blocks)) + gone)) else None
    decreases |blocks|
  {
    if blocks == [] {
      assert idx - (Ids(AllTxs(blocks)) + gone) == idx - gone;
    } else {
      var most, last := blocks[..|blocks| - 1], blocks[|blocks| - 1];
      NoOverwritesPrefix(idx, blocks);
      SpendsStaySnoc(blocks, gone);
      DisconnectWithout(ConnectBlocks(idx, most).value, last.txs, last.hash, gone);
      BranchWithout(idx, most, gone + Ids(last.txs));
      assert Ids(AllTxs(blocks)) == Ids(AllTxs(most)) + Ids(last.txs);
      assert Ids(AllTxs(most)) + (gone + Ids(last.txs)) == Ids(AllTxs(blocks)) + gone;
      assert Ids(last.txs) + gone == gone + Ids(last.txs);
      hide SpendsStay, NoOverwrites, DisconnectTxs, ConnectTxs;
    }
  }

  /** A connected branch can be disconnected exactly if no block of it spends from a transaction
      that a later block writes again; what is left are the entries with other ids. */
  lemma BranchUndoneIff(idx: Index, blocks: seq<Block>)
    requires ConnectBlocks(idx, blocks).Some? && NoOverwrites(idx, blocks)
    ensures DisconnectBlocks(ConnectBlocks(idx, blocks).value, blocks) ==
            if SpendsStay(blocks, {}) then Some(idx - Ids(AllTxs(blocks))) else None
  {
    var done: Index := ConnectBlocks(idx, blocks).value;
    BranchWithout(idx, blocks, {});
    assert done - {} == done && Ids(AllTxs(blocks)) + {} == Ids(AllTxs(blocks));
  }

  /** A branch that is connected and cannot be disconnected: the second block writes the id of a
      transaction again whose only output the first block spends. */
  lemma BranchStuck() returns (idx: Index, blocks: seq<Block>)
    ensures ConnectBlocks(idx, blocks).Some? && NoOverwrites(idx, blocks)
    ensures DisconnectBlocks(ConnectBlocks(idx, blocks).value, blocks).None?
  {
    var spender, again := Tx(2, User, [OutPoint(1, 0)], [50]), Tx(1, CoinBase, [], [50]);
    idx, blocks := map[1 := Unspent(7, 1)], [Block(8, [spender]), Block(9, [again])];
    var mid: Index := Mark(idx, OutPoint(1, 0), 8)[2 := Unspent(8, 1)];
    StuckConnects(idx, blocks, mid, spender, again);
    StuckSpends(blocks, spender, again);
    BranchUndoneIff(idx, blocks);
    hide *;
  }

  lemma StuckSpends(blocks: seq<Block>, spender: Tx, again: Tx)
    requires spender == Tx(2, User, [OutPoint(1, 0)], [50]) && again == Tx(1, CoinBase, [], [50])
    requires blocks == [Block(8, [spender]), Block(9, [again])]
    ensures !SpendsStay(blocks, {})
  {
    OneTx(map[], spender, 8);
    hide AllSpends;
    assert OutPoint(1, 0) in AllSpends(blocks[0].txs);
    assert 1 in Hashes(AllSpends(blocks[0].txs));
    assert again in blocks[1].txs && 1 in Ids(blocks[1].txs);
  }

  lemma StuckConnects(idx: Index, blocks: seq<Block>, mid: Index, spender: Tx, again: Tx)
    requires spender == Tx(2, User, [OutPoint(1, 0)], [50]) && again == Tx(1, CoinBase, [], [50])
    requires idx == map[1 := Unspent(7, 1)] && blocks == [Block(8, [spender]), Block(9, [again])]
    requires mid == Mark(idx, OutPoint(1, 0), 8)[2 := Unspent(8, 1)]
    ensures ConnectBlocks(idx, blocks).Some? && NoOverwrites(idx, blocks)
  {
    OneTx(idx, spender, 8);
    OneTx(mid, again, 9);
    ConnectBlocksLast(idx, [], blocks[0]);
    ConnectBlocksLast(idx, [blocks[0]], blocks[1]);
    assert [] + [blocks[0]] == [blocks[0]] && [blocks[0]] + [blocks[1]] == blocks;
    assert blocks[..0] == [] && blocks[..1] == [blocks[0]];
    assert mid[1].spent == [Some(8)] && FullySpent(mid, 1);
    hide ConnectTxs, SpendAll;
    assert OverwritesSpent(idx, blocks, 0) && OverwritesSpent(idx, blocks, 1);
  }

  /** A reorganisation that disconnects every block of the old branch is back at the index of
      the fork point, so connecting the new branch continues the plain replay from there. */
  lemma {:induction false} BranchUndone(idx: Index, blocks: seq<Block>)
    requires ConnectBlocks(idx, blocks).Some?
    requires Distinct(AllTxs(blocks)) && Ids(AllTxs(blocks)) !! idx.Keys
    ensures DisconnectBlocks(ConnectBlocks(idx, blocks).value, blocks) == Some(idx)
    decreases |blocks|
  {
    if blocks != [] {
      var most, last := blocks[..|blocks| - 1], blocks[|blocks| - 1];
      var mid := ConnectBlocks(idx, most).value;
      FreshBlock(idx, blocks, |blocks| - 1);
      AllTxsSplit(blocks, |blocks| - 1);
      var before := AllTxs(most);
      assert forall k :: 0 <= k < |before| ==> before[k] == AllTxs(blocks)[k];
      ConnectBlocksKeys(idx, most);
      UndoneExactly(mid, last.txs, last.hash);
      BranchUndone(idx, most);
    }
  }
}
