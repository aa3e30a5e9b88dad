/** Transaction ids never repeat along an accepted chain.  The coinbase of a block carries the
    block's height, and any other transaction spends an output that stays spent; so the cases in
    which disconnecting blocks would lose entries do not arise. */
module FreshIds {
  import opened Basics
  import opened Ledger
  import opened Money
  import opened ConnectBlock
  import opened DisconnectBlock

  /** What `CheckBlock` and `AcceptBlock` demand of a block at a height: its shape, inputs for every
      transaction but the coinbase, and the height at the start of the coinbase's script, which
      `heightOf` reads.  In `store` every id belongs to one transaction. */
  ghost predicate BlockRules(store: map<Hash, Tx>, heightOf: Tx -> nat, height: nat, b: Block) {
    && WellShaped(b) && AllStored(store, b.txs)
    && heightOf(b.txs[0]) == height
    && forall tx :: tx in b.txs ==> tx.kind.CoinBase? || tx.inputs != []
  }

  /** The rules hold for consecutive blocks from height `first` on. */
  ghost predicate ChainRules(store: map<Hash, Tx>, heightOf: Tx -> nat, first: nat, blocks: seq<Block>) {
    forall k :: 0 <= k < |blocks| ==> BlockRules(store, heightOf, first + k, blocks[k])
  }

  lemma ChainRulesPrefix(store: map<Hash, Tx>, heightOf: Tx -> nat, first: nat, blocks: seq<Block>, k: nat)
    requires ChainRules(store, heightOf, first, blocks) && k <= |blocks|
    ensures ChainRules(store, heightOf, first, blocks[..k])
  {
  }

  lemma {:induction false} InSomeBlock(blocks: seq<Block>, tx: Tx) returns (k: nat)
    requires tx in AllTxs(blocks)
    ensures k < |blocks| && tx in blocks[k].txs
    decreases |blocks|
  {
    var most, last := blocks[..|blocks| - 1], blocks[|blocks| - 1];
    if tx in last.txs {
      k := |blocks| - 1;
    } else {
      k := InSomeBlock(most, tx);
    }
  }

  /** After connecting blocks with fresh ids exactly the old spent outputs and their inputs are spent. */
  lemma {:induction false} ConnectBlocksSpent(idx: Index, blocks: seq<Block>)
    requires ConnectBlocks(idx, blocks).Some? && Distinct(AllTxs(blocks)) && Ids(AllTxs(blocks)) !! idx.Keys
    ensures forall o :: IsSpent(ConnectBlocks(idx, blocks).value, o) <==>
            IsSpent(idx, o) || o in AllSpends(AllTxs(blocks))
    decreases |blocks|
  {
    if blocks != [] {
      var most, last := blocks[..|blocks| - 1], blocks[|blocks| - 1];
      FreshBlock(idx, blocks, |blocks| - 1);
      FreshPart(idx, AllTxs(blocks), [], AllTxs(most));
      assert [] + AllTxs(most) == AllTxs(most);
      ConnectBlocksSpent(idx, most);
      ConnectBlocksKeys(idx, most);
      ConnectTxsSpent(ConnectBlocks(idx, most).value, last.txs, last.hash);
      AllSpendsConcat(AllTxs(most), last.txs);
    }
  }

  /** Every transaction's inputs are among those of the list. */
  lemma {:induction false} SpendsIn(txs: seq<Tx>, tx: Tx, o: OutPoint)
    requires tx in txs && o in Spends(tx)
    ensures o in AllSpends(txs)
  {
    var k :| 0 <= k < |txs| && txs[k] == tx;
    AllSpendsSnoc(txs, k);
  }

  /** The next transaction of a block that connects has an id not seen before. */
  lemma NextIsFresh(store: map<Hash, Tx>, heightOf: Tx -> nat, first: nat, most: seq<Block>, b: Block, k: nat)
    requires ChainRules(store, heightOf, first, most) && BlockRules(store, heightOf, first + |most|, b) && k < |b.txs|
    requires ConnectBlocks(map[], most).Some?
             && ConnectTxs(ConnectBlocks(map[], most).value, b.txs[..k + 1], b.hash).Some?
    requires Distinct(AllTxs(most) + b.txs[..k])
    ensures b.txs[k].hash !in Ids(AllTxs(most) + b.txs[..k])
  {
    var tx, before := b.txs[k], AllTxs(most) + b.txs[..k];
    if tx.hash in Ids(before) {
      var other :| other in before && other.hash == tx.hash;
      SameTx(store, heightOf, first, most, b, k, other);
      if tx.kind.CoinBase? {
        CoinbaseOnce(store, heightOf, first, most, b, k);
      } else {
        SpentOnce(most, b, k);
      }
      assert false;
    }
  }

  lemma SameTx(store: map<Hash, Tx>, heightOf: Tx -> nat, first: nat, most: seq<Block>, b: Block, k: nat, other: Tx)
    requires ChainRules(store, heightOf, first, most) && BlockRules(store, heightOf, first + |most|, b) && k < |b.txs|
    requires other in AllTxs(most) + b.txs[..k] && other.hash == b.txs[k].hash
    ensures other == b.txs[k]
  {
    if other in AllTxs(most) {
      var i := InSomeBlock(most, other);
      assert BlockRules(store, heightOf, first + i, most[i]);
    }
  }

  lemma HeightTells(store: map<Hash, Tx>, heightOf: Tx -> nat, height: nat, b: Block, tx: Tx)
    requires BlockRules(store, heightOf, height, b) && tx in b.txs && tx.kind.CoinBase?
    ensures heightOf(tx) == height
  {
    var p :| 0 <= p < |b.txs| && b.txs[p] == tx;
  }

  /** A coinbase cannot come again: it would stand at another height. */
  lemma CoinbaseOnce(store: map<Hash, Tx>, heightOf: Tx -> nat, first: nat, most: seq<Block>, b: Block, k: nat)
    requires ChainRules(store, heightOf, first, most) && BlockRules(store, heightOf, first + |most|, b) && k < |b.txs|
    requires b.txs[k].kind.CoinBase?
    ensures b.txs[k] !in AllTxs(most) + b.txs[..k]
  {
    assert k == 0;
    HeightTells(store, heightOf, first + |most|, b, b.txs[k]);
    if b.txs[k] in AllTxs(most) {
      var i := InSomeBlock(most, b.txs[k]);
      HeightTells(store, heightOf, first + i, most[i], b.txs[k]);
    }
  }

  /** Another transaction cannot come again: its inputs are spent. */
  lemma SpentOnce(most: seq<Block>, b: Block, k: nat)
    requires k < |b.txs| && !b.txs[k].kind.CoinBase? && b.txs[k].inputs != []
    requires ConnectBlocks(map[], most).Some?
             && ConnectTxs(ConnectBlocks(map[], most).value, b.txs[..k + 1], b.hash).Some?
    requires Distinct(AllTxs(most) + b.txs[..k])
    ensures b.txs[k] !in AllTxs(most) + b.txs[..k]
  {
    var tx, before := b.txs[k], AllTxs(most) + b.txs[..k];
    if tx in before {
      var o := tx.inputs[0];
      SpendsIn(before, tx, o);
      PrefixSpent(most, b, k);
      var mid := ConnectBlocks(map[], most).value;
      var idx := ConnectTxs(mid, b.txs[..k], b.hash).value;
      ConnectTxsSnoc(mid, b.txs, k, b.hash);
      SpendAllShape(idx, Spends(tx), b.hash);
      SpendAllIff(idx, Spends(tx), b.hash);
      assert false;
    }
  }

  lemma PrefixSpent(most: seq<Block>, b: Block, k: nat)
    requires k < |b.txs|
    requires ConnectBlocks(map[], most).Some?
             && ConnectTxs(ConnectBlocks(map[], most).value, b.txs[..k + 1], b.hash).Some?
    requires Distinct(AllTxs(most) + b.txs[..k])
    ensures ConnectTxs(ConnectBlocks(map[], most).value, b.txs[..k], b.hash).Some?
    ensures forall o :: o in AllSpends(AllTxs(most) + b.txs[..k]) ==>
              IsSpent(ConnectTxs(ConnectBlocks(map[], most).value, b.txs[..k], b.hash).value, o)
  {
    var mid, txs := ConnectBlocks(map[], most).value, b.txs[..k];
    ConnectTxsSnoc(mid, b.txs, k, b.hash);
    FreshPart(map[], AllTxs(most) + txs, AllTxs(most), txs);
    FreshPart(map[], AllTxs(most) + txs, [], AllTxs(most));
    assert [] + AllTxs(most) == AllTxs(most);
    ConnectBlocksSpent(map[], most);
    ConnectBlocksKeys(map[], most);
    ConnectTxsSpent(mid, txs, b.hash);
    AllSpendsConcat(AllTxs(most), txs);
  }

  lemma {:induction false} FreshInBlock(store: map<Hash, Tx>, heightOf: Tx -> nat, first: nat, most: seq<Block>,
                                        b: Block, k: nat)
    requires ChainRules(store, heightOf, first, most) && BlockRules(store, heightOf, first + |most|, b) && k <= |b.txs|
    requires ConnectBlocks(map[], most).Some? && ConnectTxs(ConnectBlocks(map[], most).value, b.txs, b.hash).Some?
    requires Distinct(AllTxs(most))
    ensures Distinct(AllTxs(most) + b.txs[..k])
    decreases k
  {
    if k == 0 {
      assert AllTxs(most) + b.txs[..0] == AllTxs(most);
    } else {
      FreshInBlock(store, heightOf, first, most, b, k - 1);
      ConnectTxsPrefix(ConnectBlocks(map[], most).value, b.txs, k, b.hash);
      NextIsFresh(store, heightOf, first, most, b, k - 1);
      DistinctMore(AllTxs(most) + b.txs[..k - 1], b.txs[k - 1]);
      SnocAssociates(AllTxs(most), b.txs[..k]);
      assert b.txs[..k][..k - 1] == b.txs[..k - 1];
      hide *;
    }
  }

  lemma DistinctMore(txs: seq<Tx>, tx: Tx)
    requires Distinct(txs) && tx.hash !in Ids(txs)
    ensures Distinct(txs + [tx])
  {
    forall i | 0 <= i < |txs|
      ensures txs[i].hash != tx.hash
    {
      assert txs[i] in txs;
    }
  }

  /** Along a chain that keeps the rules and connects from the empty index, no id comes twice. */
  lemma {:induction false} NoIdTwice(store: map<Hash, Tx>, heightOf: Tx -> nat, first: nat, blocks: seq<Block>)
    requires ChainRules(store, heightOf, first, blocks) && ConnectBlocks(map[], blocks).Some?
    ensures Distinct(AllTxs(blocks))
    decreases |blocks|
  {
    if blocks != [] {
      var most, last := blocks[..|blocks| - 1], blocks[|blocks| - 1];
      ChainRulesPrefix(store, heightOf, first, blocks, |blocks| - 1);
      NoIdTwice(store, heightOf, first, most);
      assert BlockRules(store, heightOf, first + |most|, last);
      FreshInBlock(store, heightOf, first, most, last, |last.txs|);
      assert last.txs[..|last.txs|] == last.txs;
    }
  }

  lemma {:induction false} ConnectBlocksConcat(idx: Index, a: seq<Block>, b: seq<Block>)
    ensures ConnectBlocks(idx, a + b) ==
            match ConnectBlocks(idx, a) { case None => None case Some(mid) => ConnectBlocks(mid, b) }
    decreases |b|
  {
    if b == [] {
      assert a + b == a;
    } else {
      var most, last := b[..|b| - 1], b[|b| - 1];
      ConnectBlocksConcat(idx, a, most);
      assert a + b == (a + most) + [last];
      ConnectBlocksLast(idx, a + most, last);
    }
  }

  lemma {:induction false} AllTxsConcat(a: seq<Block>, b: seq<Block>)
    ensures AllTxs(a + b) == AllTxs(a) + AllTxs(b)
    decreases |b|
  {
    if b == [] {
      assert a + b == a;
    } else {
      var most, last := b[..|b| - 1], b[|b| - 1];
      AllTxsConcat(a, most);
      assert (a + b)[..|a + b| - 1] == a + most;
    }
  }

  /** The blocks above any point of such a chain have ids of their own. */
  lemma FreshAbove(store: map<Hash, Tx>, heightOf: Tx -> nat, first: nat, below: seq<Block>, above: seq<Block>)
    requires ChainRules(store, heightOf, first, below + above) && ConnectBlocks(map[], below + above).Some?
    ensures ConnectBlocks(map[], below).Some?
    ensures ConnectBlocks(ConnectBlocks(map[], below).value, above) == ConnectBlocks(map[], below + above)
    ensures Distinct(AllTxs(above)) && Ids(AllTxs(above)) !! ConnectBlocks(map[], below).value.Keys
  {
    NoIdTwice(store, heightOf, first, below + above);
    ConnectBlocksConcat(map[], below, above);
    AllTxsConcat(below, above);
    ConnectBlocksKeys(map[], below);
    FreshPart(map[], AllTxs(below) + AllTxs(above), AllTxs(below), AllTxs(above));
  }

  /** No transaction of a connected chain spends from itself. */
  lemma SpendsOther(blocks: seq<Block>, tx: Tx, o: OutPoint)
    requires ConnectBlocks(map[], blocks).Some? && Distinct(AllTxs(blocks)) && tx in AllTxs(blocks) && o in Spends(tx)
    ensures o.hash != tx.hash
  {
    var k := InSomeBlock(blocks, tx);
    var txs := blocks[k].txs;
    var p :| 0 <= p < |txs| && txs[p] == tx;
    ConnectBlocksPrefix(map[], blocks, k + 1);
    ConnectBlocksSnoc(map[], blocks, k);
    ConnectBlocksKeys(map[], blocks[..k]);
    FreshBlock(map[], blocks, k);
    var below := ConnectBlocks(map[], blocks[..k]).value;
    ConnectTxsPrefix(below, txs, p + 1, blocks[k].hash);
    ConnectTxsSnoc(below, txs, p, blocks[k].hash);
    ConnectTxsKeys(below, txs[..p], blocks[k].hash);
    FreshTx(below, txs, p);
    SpendAllShape(ConnectTxs(below, txs[..p], blocks[k].hash).value, Spends(tx), blocks[k].hash);
  }

  /** A transaction of the next block that the chain has already: its first input is spent there. */
  lemma RepeatIsSpent(store: map<Hash, Tx>, heightOf: Tx -> nat, blocks: seq<Block>, b: Block, tx: Tx)
    requires ChainRules(store, heightOf, 1, blocks) && BlockRules(store, heightOf, 1 + |blocks|, b)
    requires ConnectBlocks(map[], blocks).Some? && tx in b.txs && tx.hash in ConnectBlocks(map[], blocks).value
    ensures Spends(tx) != [] && Spends(tx)[0].hash != tx.hash
    ensures IsSpent(ConnectBlocks(map[], blocks).value, Spends(tx)[0])
  {
    NoIdTwice(store, heightOf, 1, blocks);
    ConnectBlocksKeys(map[], blocks);
    var other :| other in AllTxs(blocks) && other.hash == tx.hash;
    var i := InSomeBlock(blocks, other);
    assert BlockRules(store, heightOf, 1 + i, blocks[i]);
    assert other == tx;
    if tx.kind.CoinBase? {
      HeightTells(store, heightOf, 1 + |blocks|, b, tx);
      HeightTells(store, heightOf, 1 + i, blocks[i], tx);
      assert false;
    }
    SpendsOther(blocks, tx, Spends(tx)[0]);
    SpendsIn(AllTxs(blocks), tx, Spends(tx)[0]);
    ConnectBlocksSpent(map[], blocks);
  }

  /** So a node can always go back: disconnecting the blocks above any point of the chain succeeds
      and gives the index that the chain had there. */
  lemma GoesBack(store: map<Hash, Tx>, heightOf: Tx -> nat, first: nat, below: seq<Block>, above: seq<Block>)
    requires ChainRules(store, heightOf, first, below + above) && ConnectBlocks(map[], below + above).Some?
    ensures DisconnectBlocks(ConnectBlocks(map[], below + above).value, above) == ConnectBlocks(map[], below)
  {
    FreshAbove(store, heightOf, first, below, above);
    BranchUndone(ConnectBlocks(map[], below).value, above);
  }
}
