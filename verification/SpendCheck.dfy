/** The side-branch double-spend check.  `VerifyInputsUnspent` decides whether a block spends
    only unspent outputs of its own branch without reorganising: it lays an overlay of
    modified index entries over the main chain's transaction index.  This module compares the
    verdict with a replay of the branch from the common ancestor. */
module SpendCheck {
  import opened Basics
  import opened Ledger
  import ConnectBlock

  /** What the check sees and what it stands for: the index `base` at the common ancestor, the
      index `db` of the whole main chain, the heights of the indexed blocks, the blocks that
      `IsInMainChain` answers yes for, and the number of outputs of every transaction id. */
  datatype Scene = Scene(
    base: Index,
    db: Index,
    heights: map<Hash, nat>,
    main: set<Hash>,
    forkHeight: nat,
    width: map<Hash, nat>)

  /** The main chain has grown from the common ancestor: entries below the fork are still
      there, and an output is marked spent by a main-chain block, at or below the fork exactly
      when it was spent at the fork. */
  ghost predicate SceneOk(s: Scene) {
    && (forall h :: h in s.base ==> h in s.db && h in s.width && |s.base[h].spent| == s.width[h])
    && (forall h :: h in s.db ==> h in s.width && |s.db[h].spent| == s.width[h])
    && (forall o :: Exists(s.db, o) ==> OutputOk(s, o))
  }

  ghost predicate OutputOk(s: Scene, o: OutPoint)
    requires Exists(s.db, o)
  {
    match s.db[o.hash].spent[o.n]
    case None => !IsSpent(s.base, o)
    case Some(b) => b in s.heights && b in s.main && (s.heights[b] > s.forkHeight <==> !IsSpent(s.base, o))
  }

  /** The output is spent on the main chain above the common ancestor. */
  ghost predicate SpentLater(s: Scene, o: OutPoint) {
    && IsSpent(s.db, o)
    && s.db[o.hash].spent[o.n].value in s.heights
    && s.heights[s.db[o.hash].spent[o.n].value] > s.forkHeight
  }

  /** What the overlay on top of the database says about an output. */
  ghost predicate ViewSpent(m: Index, db: Index, o: OutPoint) {
    if o.hash in m then IsSpent(m, o) else IsSpent(db, o)
  }

  // First pass: unspend

  /** The overlay differs from the database only in outputs spent later, and none of the
      inputs looked at so far is shown as spent later. */
  ghost predicate Unspending(s: Scene, m: Index, seen: seq<OutPoint>) {
    && (forall h :: h in m ==> h in s.db && |m[h].spent| == |s.db[h].spent|)
    && (forall o :: Exists(m, o) ==>
          m[o.hash].spent[o.n] == s.db[o.hash].spent[o.n] || (!IsSpent(m, o) && SpentLater(s, o)))
    && (forall o :: o in seen && SpentLater(s, o) ==> !ViewSpent(m, s.db, o))
  }

  /** The input names an output of the main chain, or a transaction of the branch. */
  ghost predicate Known(s: Scene, forkTxs: map<Hash, Tx>, o: OutPoint) {
    (o.hash in s.db || o.hash in forkTxs) && (o.hash in s.db ==> Exists(s.db, o))
  }

  method UnspendInputs(s: Scene, m: Index, forkTxs: map<Hash, Tx>, inputs: seq<OutPoint>, ghost seen: seq<OutPoint>)
    returns (r: Option<Index>)
    requires Unspending(s, m, seen)
    ensures r.Some? ==> Unspending(s, r.value, seen + inputs)
    ensures SceneOk(s) && (forall o :: o in inputs ==> Known(s, forkTxs, o)) ==> r.Some?
  {
    var overlay: Index := m;
    var i := 0;
    while i < |inputs|
      invariant 0 <= i <= |inputs|
      invariant Unspending(s, overlay, seen + inputs[..i])
    {
      var o := inputs[i];
      assert o in inputs;
      assert seen + inputs[..i + 1] == (seen + inputs[..i]) + [o];
      if o.hash !in overlay && o.hash !in s.db {
        if o.hash !in forkTxs {
          return None;
        }
      } else {
        var entry := if o.hash in overlay then overlay[o.hash] else s.db[o.hash];
        if o.n >= |entry.spent| {
          return None;
        }
        if entry.spent[o.n].Some? {
          var spender := entry.spent[o.n].value;
          if spender !in s.heights || spender !in s.main {
            return None;
          }
          if s.heights[spender] > s.forkHeight {
            overlay := overlay[o.hash := entry.(spent := entry.spent[o.n := None])];
          }
        }
      }
      i := i + 1;
    }
    assert inputs[..i] == inputs;
    return Some(overlay);
  }

  /** All transactions of the blocks, by id. */
  function ById(txs: seq<Tx>): map<Hash, Tx> {
    if txs == [] then map[] else ById(txs[..|txs| - 1])[txs[|txs| - 1].hash := txs[|txs| - 1]]
  }

  lemma {:induction false} ByIdKeys(txs: seq<Tx>)
    ensures ById(txs).Keys == Ids(txs)
    ensures forall h :: h in ById(txs) ==> ById(txs)[h] in txs && ById(txs)[h].hash == h
    decreases |txs|
  {
    if txs != [] {
      ByIdKeys(txs[..|txs| - 1]);
      assert txs == txs[..|txs| - 1] + [txs[|txs| - 1]];
    }
  }

  lemma ByIdNext(before: seq<Tx>, txs: seq<Tx>, i: nat)
    requires i < |txs|
    ensures ById(before + txs[..i + 1]) == ById(before + txs[..i])[txs[i].hash := txs[i]]
  {
    var more := before + txs[..i + 1];
    assert more[..|more| - 1] == before + txs[..i] && more[|more| - 1] == txs[i];
  }

  method CollectTxs(known: map<Hash, Tx>, txs: seq<Tx>, ghost before: seq<Tx>) returns (r: map<Hash, Tx>)
    requires known == ById(before)
    ensures r == ById(before + txs)
  {
    hide ById;
    r := known;
    var i := 0;
    assert before + txs[..0] == before;
    while i < |txs|
      invariant 0 <= i <= |txs|
      invariant r == ById(before + txs[..i])
    {
      ByIdNext(before, txs, i);
      r := r[txs[i].hash := txs[i]];
      i := i + 1;
    }
    assert txs[..i] == txs;
  }

  method UnspendTxs(s: Scene, m: Index, forkTxs: map<Hash, Tx>, txs: seq<Tx>, ghost seen: seq<OutPoint>)
    returns (r: Option<Index>)
    requires Unspending(s, m, seen)
    ensures r.Some? ==> Unspending(s, r.value, seen + AllSpends(txs))
    ensures SceneOk(s) && (forall o :: o in AllSpends(txs) ==> Known(s, forkTxs, o)) ==> r.Some?
  {
    var overlay: Index := m;
    var i := 0;
    assert seen + AllSpends(txs[..0]) == seen;
    hide Unspending, SceneOk, AllSpends;
    while i < |txs|
      invariant 0 <= i <= |txs|
      invariant Unspending(s, overlay, seen + AllSpends(txs[..i]))
    {
      AllSpendsSnoc(txs, i);
      assert seen + AllSpends(txs[..i + 1]) == seen + AllSpends(txs[..i]) + Spends(txs[i]);
      if txs[i].kind.CoinBase? {
        assert seen + AllSpends(txs[..i + 1]) == seen + AllSpends(txs[..i]);
      } else {
        var next := UnspendInputs(s, overlay, forkTxs, txs[i].inputs, seen + AllSpends(txs[..i]));
        if next.None? {
          return None;
        }
        overlay := next.value;
      }
      i := i + 1;
    }
    assert txs[..i] == txs;
    return Some(overlay);
  }

  /** Every input of the blocks names a main-chain output or a transaction of its own block
      or an earlier one. */
  ghost predicate AllKnown(s: Scene, blocks: seq<Block>) {
    forall k, o :: 0 <= k < |blocks| && o in AllSpends(blocks[k].txs) ==> Known(s, ById(AllTxs(blocks[..k + 1])), o)
  }

  method Unspend(s: Scene, blocks: seq<Block>) returns (r: Option<Index>, forkTxs: map<Hash, Tx>)
    ensures r.Some? ==> Unspending(s, r.value, AllSpends(AllTxs(blocks)))
    ensures r.Some? ==> forkTxs == ById(AllTxs(blocks))
    ensures SceneOk(s) && AllKnown(s, blocks) ==> r.Some?
  {
    var overlay: Index := map[];
    forkTxs := map[];
    var i := 0;
    while i < |blocks|
      invariant 0 <= i <= |blocks|
      invariant forkTxs == ById(AllTxs(blocks[..i]))
      invariant Unspending(s, overlay, AllSpends(AllTxs(blocks[..i])))
    {
      AllTxsSnoc(blocks, i);
      AllSpendsConcat(AllTxs(blocks[..i]), blocks[i].txs);
      forkTxs := CollectTxs(forkTxs, blocks[i].txs, AllTxs(blocks[..i]));
      var next := UnspendTxs(s, overlay, forkTxs, blocks[i].txs, AllSpends(AllTxs(blocks[..i])));
      if next.None? {
        return None, forkTxs;
      }
      overlay := next.value;
      i := i + 1;
    }
    assert blocks[..i] == blocks;
    return Some(overlay), forkTxs;
  }

  // Second pass: spend the branch again

  /** On every input of interest the overlay agrees with the replayed index `idx`; an output
      not created yet counts as unspent. */
  ghost predicate Agrees(s: Scene, refs: seq<OutPoint>, m: Index, idx: Index) {
    && (forall h :: h in m ==> h in s.width && |m[h].spent| == s.width[h])
    && (forall h :: h in idx ==> h in s.width && |idx[h].spent| == s.width[h])
    && (forall o :: o in refs ==> (ViewSpent(m, s.db, o) <==> IsSpent(idx, o)))
  }

  /** After the first pass the overlay shows the state at the common ancestor. */
  lemma UnspendAgrees(s: Scene, m: Index, refs: seq<OutPoint>)
    requires SceneOk(s) && Unspending(s, m, refs)
    ensures Agrees(s, refs, m, s.base)
  {
    forall o | o in refs
      ensures ViewSpent(m, s.db, o) <==> IsSpent(s.base, o)
    {
      if Exists(s.db, o) {
        assert OutputOk(s, o);
        if o.hash in m {
          assert Exists(m, o);
        }
      }
    }
  }

  /** The overlay with one output marked spent, taking the entry from the overlay, the
      database, or a fresh one. */
  lemma RespendStep(s: Scene, refs: seq<OutPoint>, m: Index, idx: Index, o: OutPoint, entry: TxIndex, mark: Hash,
                    blk: Hash)
    requires SceneOk(s) && Agrees(s, refs, m, idx) && Exists(idx, o)
    requires |entry.spent| == s.width[o.hash]
    requires if o.hash in m then entry == m[o.hash]
             else if o.hash in s.db then entry == s.db[o.hash]
             else forall n :: 0 <= n < |entry.spent| ==> entry.spent[n].None?
    ensures Agrees(s, refs, m[o.hash := entry.(spent := entry.spent[o.n := Some(mark)])], Mark(idx, o, blk))
  {
    var m' := m[o.hash := entry.(spent := entry.spent[o.n := Some(mark)])];
    var idx' := Mark(idx, o, blk);
    forall p | p in refs
      ensures ViewSpent(m', s.db, p) <==> IsSpent(idx', p)
    {
      assert ViewSpent(m, s.db, p) <==> IsSpent(idx, p);
      if p.hash == o.hash && p.n != o.n && p.n < |entry.spent| {
        assert idx'[p.hash].spent[p.n] == idx[p.hash].spent[p.n];
        assert m'[p.hash].spent[p.n] == entry.spent[p.n];
      }
    }
  }

  /** Indexing a transaction that is not indexed yet. */
  lemma CreateStep(s: Scene, refs: seq<OutPoint>, m: Index, idx: Index, tx: Tx, blk: Hash)
    requires Agrees(s, refs, m, idx) && tx.hash !in idx
    requires tx.hash in s.width && |tx.outs| == s.width[tx.hash]
    ensures Agrees(s, refs, m, idx[tx.hash := Unspent(blk, |tx.outs|)])
    ensures forall pos :: Agrees(s, refs, m[tx.hash := Unspent(pos, |tx.outs|)], idx)
  {
    var idx' := idx[tx.hash := Unspent(blk, |tx.outs|)];
    forall p | p in refs
      ensures IsSpent(idx', p) <==> IsSpent(idx, p)
    {
    }
  }

  /** The transactions are as wide as their ids say. */
  ghost predicate Widths(s: Scene, txs: seq<Tx>) {
    forall tx :: tx in txs ==> tx.hash in s.width && |tx.outs| == s.width[tx.hash]
  }

  /** The transaction ids that spending a branch leaves in the overlay: those named by inputs,
      and the branch's own transactions except coinbases. */
  function Queued(txs: seq<Tx>): set<Hash> {
    Hashes(AllSpends(txs)) + set tx | tx in txs && !tx.kind.CoinBase? :: tx.hash
  }

  function QueuedBy(tx: Tx): set<Hash> {
    Hashes(Spends(tx)) + if tx.kind.CoinBase? then {} else {tx.hash}
  }

  lemma QueuedConcat(a: seq<Tx>, b: seq<Tx>)
    ensures Queued(a + b) == Queued(a) + Queued(b)
  {
    AllSpendsConcat(a, b);
  }

  lemma QueuedSnoc(txs: seq<Tx>, k: nat)
    requires k < |txs|
    ensures Queued(txs[..k + 1]) == Queued(txs[..k]) + QueuedBy(txs[k])
  {
    AllSpendsSnoc(txs, k);
    assert txs[..k + 1] == txs[..k] + [txs[k]];
  }

  /** `mid` is the index after the first `k` inputs are spent. */
  ghost predicate SpentUpTo(idx: Index, os: seq<OutPoint>, k: nat, blk: Hash, mid: Index)
    requires k <= |os|
  {
    SpendAll(idx, os[..k], blk) == Some(mid)
  }

  lemma SpendNext(idx: Index, os: seq<OutPoint>, k: nat, blk: Hash, mid: Index)
    requires k < |os| && SpentUpTo(idx, os, k, blk, mid) && SpendAll(idx, os, blk).Some?
    ensures Exists(mid, os[k]) && !IsSpent(mid, os[k])
    ensures SpentUpTo(idx, os, k + 1, blk, Mark(mid, os[k], blk))
    ensures SameOutputs(idx, mid)
  {
    SpendAllPrefix(idx, os, k + 1, blk);
    SpendAllSnoc(idx, os, k, blk);
    SpendAllShape(idx, os[..k], blk);
  }

  /** `mid` is the index after the first `k` transactions are connected. */
  ghost predicate ConnectedUpTo(idx: Index, txs: seq<Tx>, k: nat, blk: Hash, mid: Index)
    requires k <= |txs|
  {
    ConnectTxs(idx, txs[..k], blk) == Some(mid)
  }

  method RespendInput(s: Scene, m: Index, forkTxs: map<Hash, Tx>, o: OutPoint,
                      ghost refs: seq<OutPoint>, ghost idx: Index, ghost blk: Hash, ghost valid: bool)
    returns (r: Option<Index>)
    requires valid ==> SceneOk(s) && Agrees(s, refs, m, idx) && Exists(idx, o) && idx.Keys <= s.db.Keys + forkTxs.Keys
    requires valid ==> forall h :: h in forkTxs ==> h in s.width && |forkTxs[h].outs| == s.width[h]
    ensures valid ==> r.Some? && Agrees(s, refs, r.value, Mark(idx, o, blk))
    ensures r.Some? ==> r.value.Keys == m.Keys + {o.hash}
  {
    var entry;
    if o.hash in m {
      entry := m[o.hash];
    } else if o.hash in s.db {
      entry := s.db[o.hash];
    } else if o.hash in forkTxs {
      entry := Unspent(0, |forkTxs[o.hash].outs|);
    } else {
      return None;
    }
    if o.n >= |entry.spent| {
      return None;
    }
    if valid {
      RespendStep(s, refs, m, idx, o, entry, entry.block, blk);
    }
    return Some(m[o.hash := entry.(spent := entry.spent[o.n := Some(entry.block)])]);
  }

  method RespendInputs(s: Scene, m: Index, forkTxs: map<Hash, Tx>, inputs: seq<OutPoint>,
                       ghost refs: seq<OutPoint>, ghost idx: Index, ghost blk: Hash, ghost valid: bool)
    returns (r: Option<Index>)
    requires valid ==> SceneOk(s) && Agrees(s, refs, m, idx) && SpendAll(idx, inputs, blk).Some?
    requires valid ==> idx.Keys <= s.db.Keys + forkTxs.Keys
    requires valid ==> forall h :: h in forkTxs ==> h in s.width && |forkTxs[h].outs| == s.width[h]
    ensures valid ==> r.Some? && Agrees(s, refs, r.value, SpendAll(idx, inputs, blk).value)
    ensures r.Some? ==> r.value.Keys == m.Keys + Hashes(inputs)
  {
    hide SceneOk, Agrees, Hashes;
    NoHashes(inputs);
    var overlay: Index := m;
    ghost var mid := idx;
    var i := 0;
    while i < |inputs|
      invariant 0 <= i <= |inputs|
      invariant valid ==> SpentUpTo(idx, inputs, i, blk, mid) && Agrees(s, refs, overlay, mid)
      invariant overlay.Keys == m.Keys + Hashes(inputs[..i])
    {
      HashesSnoc(inputs, i);
      if valid {
        SpendNext(idx, inputs, i, blk, mid);
      }
      var next := RespendInput(s, overlay, forkTxs, inputs[i], refs, mid, blk, valid);
      if next.None? {
        return None;
      }
      overlay := next.value;
      if valid {
        mid := Mark(mid, inputs[i], blk);
      }
      i := i + 1;
    }
    assert inputs[..i] == inputs;
    return Some(overlay);
  }

  method RespendTx(s: Scene, m: Index, forkTxs: map<Hash, Tx>, tx: Tx, blk: Hash,
                   ghost refs: seq<OutPoint>, ghost idx: Index, ghost valid: bool)
    returns (r: Option<Index>)
    requires valid ==> SceneOk(s) && Agrees(s, refs, m, idx) && ConnectTx(idx, tx, blk).Some?
    requires valid ==> idx.Keys <= s.db.Keys + forkTxs.Keys
    requires valid ==> forall h :: h in forkTxs ==> h in s.width && |forkTxs[h].outs| == s.width[h]
    requires valid ==> tx.hash in s.width && |tx.outs| == s.width[tx.hash] && tx.hash !in idx
    ensures valid ==> r.Some? && Agrees(s, refs, r.value, ConnectTx(idx, tx, blk).value)
    ensures r.Some? ==> r.value.Keys == m.Keys + QueuedBy(tx)
  {
    if tx.kind.CoinBase? {
      if valid {
        CreateStep(s, refs, m, idx, tx, blk);
      }
      return Some(m);
    }
    if valid {
      SpendAllShape(idx, Spends(tx), blk);
    }
    r := RespendInputs(s, m, forkTxs, tx.inputs, refs, idx, blk, valid);
    if r.Some? {
      if valid {
        CreateStep(s, refs, r.value, SpendAll(idx, Spends(tx), blk).value, tx, blk);
      }
      if tx.hash !in r.value {
        r := Some(r.value[tx.hash := Unspent(blk, |tx.outs|)]);
        if valid {
          CreateStep(s, refs, r.value, SpendAll(idx, Spends(tx), blk).value, tx, blk);
        }
      }
    }
  }

  method RespendTxs(s: Scene, m: Index, forkTxs: map<Hash, Tx>, txs: seq<Tx>, blk: Hash,
                    ghost refs: seq<OutPoint>, ghost idx: Index, ghost valid: bool)
    returns (r: Option<Index>)
    requires valid ==> SceneOk(s) && Agrees(s, refs, m, idx) && ConnectTxs(idx, txs, blk).Some?
    requires valid ==> idx.Keys <= s.db.Keys + forkTxs.Keys && Ids(txs) <= forkTxs.Keys
    requires valid ==> forall h :: h in forkTxs ==> h in s.width && |forkTxs[h].outs| == s.width[h]
    requires valid ==> Widths(s, txs) && Distinct(txs) && Ids(txs) !! idx.Keys
    ensures valid ==> r.Some? && Agrees(s, refs, r.value, ConnectTxs(idx, txs, blk).value)
    ensures r.Some? ==> r.value.Keys == m.Keys + Queued(txs)
  {
    assert Queued(txs[..0]) == {};
    hide SceneOk, Agrees, Queued, QueuedBy, Distinct, ConnectTx;
    var overlay: Index := m;
    ghost var mid := idx;
    var i := 0;
    while i < |txs|
      invariant 0 <= i <= |txs|
      invariant valid ==> ConnectedUpTo(idx, txs, i, blk, mid) && Agrees(s, refs, overlay, mid)
      invariant overlay.Keys == m.Keys + Queued(txs[..i])
    {
      if valid {
        NextTx(idx, txs, i, blk, mid);
      }
      QueuedSnoc(txs, i);
      assert overlay.Keys + QueuedBy(txs[i]) == m.Keys + Queued(txs[..i + 1]);
      var next := RespendTx(s, overlay, forkTxs, txs[i], blk, refs, mid, valid);
      if next.None? {
        return None;
      }
      overlay := next.value;
      if valid {
        mid := ConnectTx(mid, txs[i], blk).value;
      }
      i := i + 1;
    }
    assert txs[..i] == txs;
    return Some(overlay);
  }

  /** A replay that succeeds, seen at one of its transactions. */
  lemma NextTx(idx: Index, txs: seq<Tx>, k: nat, blk: Hash, mid: Index)
    requires k < |txs| && Distinct(txs) && Ids(txs) !! idx.Keys && ConnectTxs(idx, txs, blk).Some?
    requires ConnectedUpTo(idx, txs, k, blk, mid)
    ensures ConnectTx(mid, txs[k], blk).Some?
    ensures ConnectedUpTo(idx, txs, k + 1, blk, ConnectTx(mid, txs[k], blk).value)
    ensures mid.Keys <= idx.Keys + Ids(txs) && txs[k].hash !in mid
  {
    ConnectTxsSnoc(idx, txs, k, blk);
    ConnectTxsPrefix(idx, txs, k + 1, blk);
    ConnectTxsKeys(idx, txs[..k], blk);
    FreshTx(idx, txs, k);
  }

  /** `mid` is the index after the first `k` blocks are connected. */
  ghost predicate ReplayedUpTo(idx: Index, blocks: seq<Block>, k: nat, mid: Index)
    requires k <= |blocks|
  {
    ConnectBlocks(idx, blocks[..k]) == Some(mid)
  }

  lemma NextBlock(idx: Index, blocks: seq<Block>, k: nat, mid: Index)
    requires k < |blocks| && ConnectBlocks(idx, blocks).Some? && ReplayedUpTo(idx, blocks, k, mid)
    requires Distinct(AllTxs(blocks)) && Ids(AllTxs(blocks)) !! idx.Keys
    ensures ConnectTxs(mid, blocks[k].txs, blocks[k].hash).Some?
    ensures ReplayedUpTo(idx, blocks, k + 1, ConnectTxs(mid, blocks[k].txs, blocks[k].hash).value)
    ensures Distinct(blocks[k].txs) && Ids(blocks[k].txs) !! mid.Keys
    ensures mid.Keys <= idx.Keys + Ids(AllTxs(blocks)) && Ids(blocks[k].txs) <= Ids(AllTxs(blocks))
    ensures forall tx :: tx in blocks[k].txs ==> tx in AllTxs(blocks)
  {
    ConnectBlocksSnoc(idx, blocks, k);
    ConnectBlocksPrefix(idx, blocks, k + 1);
    ConnectBlocksKeys(idx, blocks[..k]);
    FreshBlock(idx, blocks, k);
  }

  lemma ReplayStart(idx: Index, blocks: seq<Block>)
    ensures ReplayedUpTo(idx, blocks, 0, idx)
  {
  }

  lemma ReplayDone(idx: Index, blocks: seq<Block>, mid: Index)
    requires ReplayedUpTo(idx, blocks, |blocks|, mid)
    ensures ConnectBlocks(idx, blocks) == Some(mid)
  {
    assert blocks[..|blocks|] == blocks;
  }

  lemma SceneKeys(s: Scene)
    requires SceneOk(s)
    ensures s.base.Keys <= s.db.Keys
  {
  }

  /** Spending the blocks has queued what they name. */
  ghost predicate QueuedFor(m: Index, overlay: Index, blocks: seq<Block>) {
    overlay.Keys == m.Keys + Queued(AllTxs(blocks))
  }

  lemma QueuedNone(m: Index, blocks: seq<Block>)
    ensures QueuedFor(m, m, blocks[..0])
  {
    assert Queued(AllTxs(blocks[..0])) == {};
  }

  lemma QueuedNext(m: Index, overlay: Index, next: Index, blocks: seq<Block>, i: nat)
    requires i < |blocks| && QueuedFor(m, overlay, blocks[..i])
    requires next.Keys == overlay.Keys + Queued(blocks[i].txs)
    ensures QueuedFor(m, next, blocks[..i + 1])
  {
    hide Queued, AllTxs;
    AllTxsSnoc(blocks, i);
    QueuedConcat(AllTxs(blocks[..i]), blocks[i].txs);
  }

  lemma QueuedAll(m: Index, overlay: Index, blocks: seq<Block>)
    requires QueuedFor(m, overlay, blocks[..|blocks|])
    ensures overlay.Keys == m.Keys + Queued(AllTxs(blocks))
  {
    assert blocks[..|blocks|] == blocks;
  }

  lemma WidthsPart(s: Scene, all: seq<Tx>, txs: seq<Tx>)
    requires Widths(s, all) && forall tx :: tx in txs ==> tx in all
    ensures Widths(s, txs)
  {
  }

  method Respend(s: Scene, m: Index, forkTxs: map<Hash, Tx>, blocks: seq<Block>, ghost refs: seq<OutPoint>,
                 ghost valid: bool)
    returns (r: Option<Index>)
    requires valid ==> SceneOk(s) && Agrees(s, refs, m, s.base) && ConnectBlocks(s.base, blocks).Some?
    requires valid ==> Ids(AllTxs(blocks)) <= forkTxs.Keys
    requires valid ==> forall h :: h in forkTxs ==> h in s.width && |forkTxs[h].outs| == s.width[h]
    requires valid ==> Widths(s, AllTxs(blocks)) && Distinct(AllTxs(blocks)) && Ids(AllTxs(blocks)) !! s.base.Keys
    ensures valid ==> r.Some? && Agrees(s, refs, r.value, ConnectBlocks(s.base, blocks).value)
    ensures r.Some? ==> r.value.Keys == m.Keys + Queued(AllTxs(blocks))
  {
    hide SceneOk, Agrees, Queued, Distinct, AllTxs, Ids, ReplayedUpTo, ConnectBlocks, ConnectTxs, AllSpends, Widths,
         QueuedFor;
    ReplayStart(s.base, blocks);
    QueuedNone(m, blocks);
    var overlay: Index := m;
    ghost var mid := s.base;
    var i := 0;
    while i < |blocks|
      invariant 0 <= i <= |blocks|
      invariant valid ==> ReplayedUpTo(s.base, blocks, i, mid) && Agrees(s, refs, overlay, mid)
      invariant QueuedFor(m, overlay, blocks[..i])
    {
      if valid {
        SceneKeys(s);
        NextBlock(s.base, blocks, i, mid);
        WidthsPart(s, AllTxs(blocks), blocks[i].txs);
      }
      var next := RespendTxs(s, overlay, forkTxs, blocks[i].txs, blocks[i].hash, refs, mid, valid);
      if next.None? {
        return None;
      }
      QueuedNext(m, overlay, next.value, blocks, i);
      overlay := next.value;
      if valid {
        mid := ConnectTxs(mid, blocks[i].txs, blocks[i].hash).value;
      }
      i := i + 1;
    }
    if valid {
      ReplayDone(s.base, blocks, mid);
    }
    QueuedAll(m, overlay, blocks);
    return Some(overlay);
  }

  // Third pass: spend the block's own inputs

  /** The overlay on top of the database has the output. */
  ghost predicate ViewExists(m: Index, db: Index, o: OutPoint) {
    if o.hash in m then Exists(m, o) else Exists(db, o)
  }

  /** The outputs are there, unspent, and no two are the same. */
  ghost predicate Free(m: Index, db: Index, os: seq<OutPoint>) {
    AllDifferent(os) && forall o :: o in os ==> ViewExists(m, db, o) && !ViewSpent(m, db, o)
  }

  /** The overlay `r` is `m` with the outputs `os` queued and marked spent. */
  ghost predicate SpentAlso(m: Index, db: Index, os: seq<OutPoint>, r: Index) {
    && r.Keys == m.Keys + Hashes(os)
    && (forall h :: h in r ==>
          if h in m then |r[h].spent| == |m[h].spent| else h in db && |r[h].spent| == |db[h].spent|)
    && (forall p :: ViewSpent(r, db, p) <==> ViewSpent(m, db, p) || p in os)
  }

  method CheckInput(m: Index, db: Index, o: OutPoint, blk: Hash) returns (r: Option<Index>)
    ensures r.Some? <==> ViewExists(m, db, o) && !ViewSpent(m, db, o)
    ensures r.Some? ==> SpentAlso(m, db, [o], r.value)
  {
    var entry;
    if o.hash in m {
      entry := m[o.hash];
    } else if o.hash in db {
      entry := db[o.hash];
    } else {
      return None;
    }
    if o.n >= |entry.spent| || entry.spent[o.n].Some? {
      return None;
    }
    MarkView(m, db, o, entry, blk);
    return Some(m[o.hash := entry.(spent := entry.spent[o.n := Some(blk)])]);
  }

  lemma MarkView(m: Index, db: Index, o: OutPoint, entry: TxIndex, blk: Hash)
    requires if o.hash in m then entry == m[o.hash] else o.hash in db && entry == db[o.hash]
    requires o.n < |entry.spent| && entry.spent[o.n].None?
    ensures SpentAlso(m, db, [o], m[o.hash := entry.(spent := entry.spent[o.n := Some(blk)])])
  {
    var r := m[o.hash := entry.(spent := entry.spent[o.n := Some(blk)])];
    assert Hashes([o]) == {o.hash};
    forall p
      ensures ViewSpent(r, db, p) <==> ViewSpent(m, db, p) || p in [o]
    {
      if p.hash == o.hash && p.n != o.n && p.n < |entry.spent| {
        assert r[p.hash].spent[p.n] == entry.spent[p.n];
      }
    }
  }

  lemma SpentAlsoNext(m: Index, db: Index, os: seq<OutPoint>, mid: Index, o: OutPoint, r: Index)
    requires SpentAlso(m, db, os, mid) && SpentAlso(mid, db, [o], r)
    ensures SpentAlso(m, db, os + [o], r)
  {
    assert Hashes(os + [o]) == Hashes(os) + Hashes([o]);
  }

  /** Outputs exist in both overlays, and those just spent are spent. */
  lemma SpentAlsoExists(m: Index, db: Index, os: seq<OutPoint>, r: Index, o: OutPoint)
    requires SpentAlso(m, db, os, r)
    ensures ViewExists(r, db, o) <==> ViewExists(m, db, o)
    ensures ViewSpent(r, db, o) <==> ViewSpent(m, db, o) || o in os
  {
  }

  method CheckInputs(m: Index, db: Index, inputs: seq<OutPoint>, blk: Hash) returns (r: Option<Index>)
    ensures r.Some? <==> Free(m, db, inputs)
    ensures r.Some? ==> SpentAlso(m, db, inputs, r.value)
  {
    assert inputs[..0] == [];
    hide ViewExists, ViewSpent, AllDifferent;
    var queue: Index := m;
    NoneSpent(m, db);
    var i := 0;
    while i < |inputs|
      invariant 0 <= i <= |inputs|
      invariant SpentAlso(m, db, inputs[..i], queue) && Free(m, db, inputs[..i])
    {
      hide SpentAlso;
      var o := inputs[i];
      assert inputs[..i + 1] == inputs[..i] + [o];
      SpentAlsoExists(m, db, inputs[..i], queue, o);
      DifferentSnoc(inputs[..i], o);
      var next := CheckInput(queue, db, o, blk);
      if next.None? {
        NotFree(m, db, inputs, i);
        return None;
      }
      SpentAlsoNext(m, db, inputs[..i], queue, o, next.value);
      queue := next.value;
      i := i + 1;
    }
    assert inputs[..i] == inputs;
    return Some(queue);
  }

  lemma NoneSpent(m: Index, db: Index)
    ensures SpentAlso(m, db, [], m) && Free(m, db, [])
  {
    assert Hashes([]) == {};
  }

  lemma NotFree(m: Index, db: Index, os: seq<OutPoint>, k: nat)
    requires k < |os| && !(ViewExists(m, db, os[k]) && !ViewSpent(m, db, os[k]) && os[k] !in os[..k])
    ensures !Free(m, db, os)
  {
    assert os[k] in os;
    if os[k] in os[..k] {
      var j :| 0 <= j < k && os[..k][j] == os[k];
      assert os[j] == os[k];
    }
  }

  /** The overlay once the transaction itself is queued, if it was not. */
  function Opened(m: Index, tx: Tx, blk: Hash): Index {
    if tx.hash in m then m else m[tx.hash := Unspent(blk, |tx.outs|)]
  }

  method CheckTx(m: Index, db: Index, tx: Tx, blk: Hash) returns (r: Option<Index>)
    ensures r.Some? <==> Free(Opened(m, tx, blk), db, Spends(tx))
    ensures r.Some? ==> SpentAlso(Opened(m, tx, blk), db, Spends(tx), r.value)
  {
    var queue := m;
    if tx.hash !in queue {
      queue := queue[tx.hash := Unspent(blk, |tx.outs|)];
    }
    if tx.kind.CoinBase? {
      NoneSpent(queue, db);
      return Some(queue);
    }
    r := CheckInputs(queue, db, tx.inputs, blk);
  }

  /** When transaction `k` of the block comes, the input can be looked up, and the output it names is there. */
  ghost predicate Found(width: map<Hash, nat>, known: set<Hash>, txs: seq<Tx>, k: nat, o: OutPoint)
    requires k < |txs|
  {
    o.hash in known + Ids(txs[..k + 1]) && o.hash in width && o.n < width[o.hash]
  }

  ghost predicate AllFound(width: map<Hash, nat>, known: set<Hash>, txs: seq<Tx>) {
    forall k, o :: 0 <= k < |txs| && o in Spends(txs[k]) ==> Found(width, known, txs, k, o)
  }

  /** What the check asks: every input can be looked up, none is spent on the branch, and none comes twice. */
  ghost predicate InputsFree(width: map<Hash, nat>, known: set<Hash>, idx: Index, txs: seq<Tx>) {
    AllFound(width, known, txs) && NoDoubleSpend(idx, AllSpends(txs))
  }

  lemma InputsFreeNext(width: map<Hash, nat>, known: set<Hash>, idx: Index, txs: seq<Tx>, k: nat)
    requires k < |txs|
    ensures InputsFree(width, known, idx, txs[..k + 1]) <==>
            && InputsFree(width, known, idx, txs[..k]) && AllDifferent(Spends(txs[k]))
            && forall o :: o in Spends(txs[k]) ==>
                 Found(width, known, txs, k, o) && !IsSpent(idx, o) && o !in AllSpends(txs[..k])
    ensures InputsFree(width, known, idx, txs) ==> InputsFree(width, known, idx, txs[..k + 1])
  {
    hide IsSpent, NoDoubleSpend, AllDifferent, Spends, AllSpends, Ids;
    AllSpendsSnoc(txs, k);
    DoubleSpendConcat(idx, AllSpends(txs[..k]), Spends(txs[k]));
    FoundNext(width, known, txs, k);
    if InputsFree(width, known, idx, txs) {
      AllSpendsRest(txs, k + 1);
      DoubleSpendConcat(idx, AllSpends(txs[..k + 1]), AllSpends(txs[k + 1..]));
    }
  }

  lemma AllSpendsRest(txs: seq<Tx>, k: nat)
    requires k <= |txs|
    ensures AllSpends(txs) == AllSpends(txs[..k]) + AllSpends(txs[k..])
  {
    hide AllSpends;
    AllSpendsConcat(txs[..k], txs[k..]);
    assert txs[..k] + txs[k..] == txs;
  }

  lemma FoundNext(width: map<Hash, nat>, known: set<Hash>, txs: seq<Tx>, k: nat)
    requires k < |txs|
    ensures AllFound(width, known, txs[..k + 1]) <==>
            AllFound(width, known, txs[..k]) && forall o :: o in Spends(txs[k]) ==> Found(width, known, txs, k, o)
    ensures AllFound(width, known, txs) ==> AllFound(width, known, txs[..k + 1])
  {
    hide Found, Spends;
    var most, some := txs[..k], txs[..k + 1];
    forall j, o | 0 <= j <= k
      ensures some[j] == txs[j] && (Found(width, known, some, j, o) <==> Found(width, known, txs, j, o))
    {
      FoundSame(width, known, some, txs, j, o);
    }
    forall j, o | 0 <= j < k
      ensures most[j] == txs[j] && (Found(width, known, most, j, o) <==> Found(width, known, txs, j, o))
    {
      FoundSame(width, known, most, txs, j, o);
    }
  }

  lemma FoundSame(width: map<Hash, nat>, known: set<Hash>, a: seq<Tx>, b: seq<Tx>, k: nat, o: OutPoint)
    requires a <= b && k < |a|
    ensures a[k] == b[k] && (Found(width, known, a, k, o) <==> Found(width, known, b, k, o))
  {
    assert a[..k + 1] == b[..k + 1];
  }

  /** A transaction that is on the branch or below it already has an input that is spent there. */
  ghost predicate FreshOrSpent(idx: Index, tx: Tx) {
    tx.hash !in idx || exists o :: o in Spends(tx) && o.hash != tx.hash && IsSpent(idx, o)
  }

  /** What the third pass is given: an overlay that shows of every input whether the replayed branch `idx` has
      spent it. */
  ghost predicate CheckReady(s: Scene, q: Index, txs: seq<Tx>, idx: Index) {
    && (forall h :: h in s.db ==> h in s.width && |s.db[h].spent| == s.width[h])
    && (forall h :: h in q ==> h in s.width && |q[h].spent| == s.width[h])
    && Widths(s, txs) && Distinct(txs)
    && (forall tx :: tx in txs ==> FreshOrSpent(idx, tx))
    && (forall o :: o in AllSpends(txs) ==> (ViewSpent(q, s.db, o) <==> IsSpent(idx, o)))
  }

  /** The state after `k` transactions have passed. */
  ghost predicate Checking(s: Scene, q: Index, txs: seq<Tx>, idx: Index, k: nat, queue: Index)
    requires k <= |txs|
  {
    && q.Keys + Hashes(AllSpends(txs[..k])) + Ids(txs[..k]) <= queue.Keys <= q.Keys + s.db.Keys + Ids(txs[..k])
    && (forall h :: h in queue ==> h in s.width && |queue[h].spent| == s.width[h])
    && (forall o :: o in AllSpends(txs) ==>
          (ViewSpent(queue, s.db, o) <==> IsSpent(idx, o) || o in AllSpends(txs[..k])))
    && InputsFree(s.width, q.Keys + s.db.Keys, idx, txs[..k])
  }

  lemma CheckStart(s: Scene, q: Index, txs: seq<Tx>, idx: Index)
    requires CheckReady(s, q, txs, idx)
    ensures Checking(s, q, txs, idx, 0, q)
  {
    assert txs[..0] == [];
  }

  /** Whether the next transaction passes. */
  lemma CheckDecides(s: Scene, q: Index, txs: seq<Tx>, idx: Index, k: nat, blk: Hash, queue: Index)
    requires k < |txs| && CheckReady(s, q, txs, idx) && Checking(s, q, txs, idx, k, queue)
    ensures Free(Opened(queue, txs[k], blk), s.db, Spends(txs[k])) <==>
            InputsFree(s.width, q.Keys + s.db.Keys, idx, txs[..k + 1])
  {
    InputsFreeNext(s.width, q.Keys + s.db.Keys, idx, txs, k);
    AllSpendsSnoc(txs, k);
    if txs[k].hash in idx {
      assert FreshOrSpent(idx, txs[k]);
      RepeatFails(s, txs, idx, k, blk, queue);
    } else {
      forall o | o in Spends(txs[k])
        ensures ViewExists(Opened(queue, txs[k], blk), s.db, o) <==> Found(s.width, q.Keys + s.db.Keys, txs, k, o)
        ensures ViewSpent(Opened(queue, txs[k], blk), s.db, o) <==> IsSpent(idx, o) || o in AllSpends(txs[..k])
      {
        OpenedExists(s, q, txs, idx, k, blk, queue, o);
        OpenedSpent(s, q, txs, idx, k, blk, queue, o);
      }
    }
  }

  /** A transaction that is repeated does not pass. */
  lemma RepeatFails(s: Scene, txs: seq<Tx>, idx: Index, k: nat, blk: Hash, queue: Index)
    requires k < |txs| && txs[k].hash in idx && FreshOrSpent(idx, txs[k])
    requires forall o :: o in Spends(txs[k]) && IsSpent(idx, o) ==> ViewSpent(queue, s.db, o)
    ensures !Free(Opened(queue, txs[k], blk), s.db, Spends(txs[k]))
    ensures exists o :: o in Spends(txs[k]) && IsSpent(idx, o)
  {
    var o :| o in Spends(txs[k]) && o.hash != txs[k].hash && IsSpent(idx, o);
    assert ViewSpent(Opened(queue, txs[k], blk), s.db, o);
  }

  /** Queueing a new transaction changes nothing about the inputs looked at before. */
  lemma OpenedSpent(s: Scene, q: Index, txs: seq<Tx>, idx: Index, k: nat, blk: Hash, queue: Index, o: OutPoint)
    requires k < |txs| && Checking(s, q, txs, idx, k, queue) && txs[k].hash !in idx && o in AllSpends(txs)
    ensures ViewSpent(Opened(queue, txs[k], blk), s.db, o) <==> IsSpent(idx, o) || o in AllSpends(txs[..k])
  {
    hide InputsFree, AllSpends;
    if o.hash == txs[k].hash && o in AllSpends(txs[..k]) {
      assert o.hash in Hashes(AllSpends(txs[..k]));
    }
  }

  /** It makes its own outputs known. */
  lemma OpenedExists(s: Scene, q: Index, txs: seq<Tx>, idx: Index, k: nat, blk: Hash, queue: Index, o: OutPoint)
    requires k < |txs| && CheckReady(s, q, txs, idx) && Checking(s, q, txs, idx, k, queue)
    ensures ViewExists(Opened(queue, txs[k], blk), s.db, o) <==> Found(s.width, q.Keys + s.db.Keys, txs, k, o)
  {
    hide InputsFree, FreshOrSpent, Distinct, AllSpends, IsSpent, ViewSpent;
    IdsSnoc(txs, k);
    assert txs[k] in txs;
    var m := Opened(queue, txs[k], blk);
    assert m.Keys + s.db.Keys == q.Keys + s.db.Keys + Ids(txs[..k + 1]);
    hide Ids;
  }

  lemma OpenedWidths(s: Scene, q: Index, txs: seq<Tx>, idx: Index, k: nat, blk: Hash, queue: Index)
    requires k < |txs| && CheckReady(s, q, txs, idx) && Checking(s, q, txs, idx, k, queue)
    ensures var m := Opened(queue, txs[k], blk);
            forall h :: h in m ==> h in s.width && |m[h].spent| == s.width[h]
  {
    hide InputsFree, FreshOrSpent, Distinct, AllSpends, IsSpent, ViewSpent, Ids;
    assert txs[k] in txs;
  }

  lemma CheckNext(s: Scene, q: Index, txs: seq<Tx>, idx: Index, k: nat, blk: Hash, queue: Index, next: Index)
    requires k < |txs| && CheckReady(s, q, txs, idx) && Checking(s, q, txs, idx, k, queue)
    requires InputsFree(s.width, q.Keys + s.db.Keys, idx, txs[..k + 1])
    requires SpentAlso(Opened(queue, txs[k], blk), s.db, Spends(txs[k]), next)
    ensures Checking(s, q, txs, idx, k + 1, next)
  {
    hide InputsFree, CheckReady, Checking, Ids, Hashes, AllSpends, Found, SpentAlso, Opened, ViewSpent, IsSpent;
    InputsFreeNext(s.width, q.Keys + s.db.Keys, idx, txs, k);
    NextIsNew(s, q, txs, idx, k, blk, queue);
    CheckedKeys(s, q, txs, idx, k, queue);
    SpentAlsoKeys(s, q, txs, idx, k, blk, queue, next);
    KeysNext(s, q, txs, k, blk, queue, next);
    forall o | o in AllSpends(txs)
      ensures ViewSpent(next, s.db, o) <==> IsSpent(idx, o) || o in AllSpends(txs[..k + 1])
    {
      AllSpendsSnoc(txs, k);
      OpenedSpent(s, q, txs, idx, k, blk, queue, o);
      SpentAlsoExists(Opened(queue, txs[k], blk), s.db, Spends(txs[k]), next, o);
    }
    CheckingIs(s, q, txs, idx, k + 1, next);
  }

  lemma NextIsNew(s: Scene, q: Index, txs: seq<Tx>, idx: Index, k: nat, blk: Hash, queue: Index)
    requires k < |txs| && CheckReady(s, q, txs, idx)
    requires forall o :: o in Spends(txs[k]) ==> !IsSpent(idx, o)
    ensures txs[k].hash !in idx
  {
    assert txs[k] in txs;
    assert FreshOrSpent(idx, txs[k]);
  }

  lemma CheckedKeys(s: Scene, q: Index, txs: seq<Tx>, idx: Index, k: nat, queue: Index)
    requires k <= |txs| && Checking(s, q, txs, idx, k, queue)
    ensures q.Keys + Hashes(AllSpends(txs[..k])) + Ids(txs[..k]) <= queue.Keys <= q.Keys + s.db.Keys + Ids(txs[..k])
  {
  }

  lemma SpentAlsoKeys(s: Scene, q: Index, txs: seq<Tx>, idx: Index, k: nat, blk: Hash, queue: Index, next: Index)
    requires k < |txs| && CheckReady(s, q, txs, idx) && Checking(s, q, txs, idx, k, queue)
    requires SpentAlso(Opened(queue, txs[k], blk), s.db, Spends(txs[k]), next)
    ensures next.Keys == Opened(queue, txs[k], blk).Keys + Hashes(Spends(txs[k]))
    ensures forall h :: h in next ==> h in s.width && |next[h].spent| == s.width[h]
  {
    OpenedWidths(s, q, txs, idx, k, blk, queue);
    hide Checking, Opened, ViewSpent, Distinct, FreshOrSpent, AllSpends;
  }

  lemma CheckingIs(s: Scene, q: Index, txs: seq<Tx>, idx: Index, k: nat, queue: Index)
    requires k <= |txs|
    requires q.Keys + Hashes(AllSpends(txs[..k])) + Ids(txs[..k]) <= queue.Keys
             <= q.Keys + s.db.Keys + Ids(txs[..k])
    requires forall h :: h in queue ==> h in s.width && |queue[h].spent| == s.width[h]
    requires forall o :: o in AllSpends(txs) ==>
               (ViewSpent(queue, s.db, o) <==> IsSpent(idx, o) || o in AllSpends(txs[..k]))
    requires InputsFree(s.width, q.Keys + s.db.Keys, idx, txs[..k])
    ensures Checking(s, q, txs, idx, k, queue)
  {
  }

  lemma KeysNext(s: Scene, q: Index, txs: seq<Tx>, k: nat, blk: Hash, queue: Index, next: Index)
    requires k < |txs| && next.Keys == Opened(queue, txs[k], blk).Keys + Hashes(Spends(txs[k]))
    requires q.Keys + Hashes(AllSpends(txs[..k])) + Ids(txs[..k]) <= queue.Keys
             <= q.Keys + s.db.Keys + Ids(txs[..k])
    requires forall o :: o in Spends(txs[k]) ==> Found(s.width, q.Keys + s.db.Keys, txs, k, o)
    ensures q.Keys + Hashes(AllSpends(txs[..k + 1])) + Ids(txs[..k + 1]) <= next.Keys
            <= q.Keys + s.db.Keys + Ids(txs[..k + 1])
  {
    IdsSnoc(txs, k);
    AllSpendsSnoc(txs, k);
    assert Hashes(AllSpends(txs[..k + 1])) == Hashes(AllSpends(txs[..k])) + Hashes(Spends(txs[k]));
  }

  method CheckTxs(s: Scene, q: Index, txs: seq<Tx>, blk: Hash, ghost idx: Index) returns (ok: bool)
    ensures CheckReady(s, q, txs, idx) ==> (ok <==> InputsFree(s.width, q.Keys + s.db.Keys, idx, txs))
  {
    hide CheckReady, Checking, InputsFree, Free, SpentAlso, Opened;
    ghost var valid := CheckReady(s, q, txs, idx);
    var queue: Index := q;
    var i := 0;
    if valid {
      CheckStart(s, q, txs, idx);
    }
    while i < |txs|
      invariant 0 <= i <= |txs|
      invariant valid ==> Checking(s, q, txs, idx, i, queue)
    {
      var next := CheckTx(queue, s.db, txs[i], blk);
      if valid {
        CheckDecides(s, q, txs, idx, i, blk, queue);
        InputsFreeNext(s.width, q.Keys + s.db.Keys, idx, txs, i);
      }
      if next.None? {
        return false;
      }
      if valid {
        CheckNext(s, q, txs, idx, i, blk, queue, next.value);
      }
      queue := next.value;
      i := i + 1;
    }
    assert txs[..i] == txs;
    if valid {
      CheckDone(s, q, txs, idx, queue);
    }
    return true;
  }

  lemma CheckDone(s: Scene, q: Index, txs: seq<Tx>, idx: Index, queue: Index)
    requires Checking(s, q, txs, idx, |txs|, queue)
    ensures InputsFree(s.width, q.Keys + s.db.Keys, idx, txs)
  {
    assert txs[..|txs|] == txs;
  }

  // The whole check

  /** The setting the check works in: a branch that replays from the common ancestor, with ids that do not occur
      below it or twice, and a block whose transactions are new or have an input that is spent already. */
  ghost predicate BranchReady(s: Scene, branch: seq<Block>, block: Block) {
    && SceneOk(s)
    && Widths(s, AllTxs(branch) + block.txs)
    && Distinct(AllTxs(branch)) && Ids(AllTxs(branch)) !! s.base.Keys
    && ConnectBlocks(s.base, branch).Some?
    && Distinct(block.txs)
    && (forall tx :: tx in block.txs ==> FreshOrSpent(ConnectBlocks(s.base, branch).value, tx))
  }

  /** `VerifyInputsUnspent`, exactly: it accepts the block if every input can be looked up in the database, in
      what the branch left in the overlay or in the block itself, none is spent on the branch, and none comes
      twice. */
  method VerifyInputsUnspent(s: Scene, branch: seq<Block>, block: Block) returns (ok: bool)
    ensures BranchReady(s, branch, block) ==>
              (ok <==> InputsFree(s.width, s.db.Keys + Queued(AllTxs(branch)),
                                  ConnectBlocks(s.base, branch).value, block.txs))
  {
    ghost var valid := BranchReady(s, branch, block);
    ghost var all := AllTxs(branch) + block.txs;
    ghost var refs := AllSpends(all);
    ghost var idx: Index := map[];
    var blocks := branch + [block];
    hide BranchReady, InputsFree, AllTxs, Queued, Agrees, SceneOk, Unspending, Widths, Distinct, Ids, ConnectBlocks;
    hide AllSpends, CheckReady, AllKnown;
    if valid {
      idx := ReadyIndex(s, branch, block);
      ReadyFacts(s, branch, block);
      ReadyKnown(s, branch, block);
    }
    var overlay, forkTxs := Unspend(s, blocks);
    if overlay.None? {
      return false;
    }
    if valid {
      UnspendAgrees(s, overlay.value, refs);
      ByIdKeys(all);
      ReadyWidths(s, branch, block, forkTxs);
    }
    OverlayKeys(s, overlay.value, AllSpends(AllTxs(blocks)));
    var replayed := Respend(s, overlay.value, forkTxs, branch, refs, valid);
    if replayed.None? {
      return false;
    }
    if valid {
      ReadyChecks(s, branch, block, replayed.value, idx);
    }
    ok := CheckTxs(s, replayed.value, block.txs, block.hash, idx);
    assert replayed.value.Keys + s.db.Keys == s.db.Keys + Queued(AllTxs(branch));
  }

  ghost function ReadyIndex(s: Scene, branch: seq<Block>, block: Block): (idx: Index)
    requires BranchReady(s, branch, block)
    ensures ConnectBlocks(s.base, branch) == Some(idx)
  {
    ConnectBlocks(s.base, branch).value
  }

  /** The parts of `BranchReady` that the passes need. */
  lemma ReadyFacts(s: Scene, branch: seq<Block>, block: Block)
    requires BranchReady(s, branch, block)
    ensures SceneOk(s) && AllTxs(branch + [block]) == AllTxs(branch) + block.txs
    ensures Widths(s, AllTxs(branch)) && Distinct(AllTxs(branch)) && Ids(AllTxs(branch)) !! s.base.Keys
    ensures Ids(AllTxs(branch)) <= Ids(AllTxs(branch) + block.txs)
  {
    assert (branch + [block])[..|branch|] == branch;
  }

  lemma ReadyWidths(s: Scene, branch: seq<Block>, block: Block, forkTxs: map<Hash, Tx>)
    requires BranchReady(s, branch, block) && forkTxs == ById(AllTxs(branch) + block.txs)
    ensures forall h :: h in forkTxs ==> h in s.width && |forkTxs[h].outs| == s.width[h]
  {
    ByIdKeys(AllTxs(branch) + block.txs);
  }

  lemma OverlayKeys(s: Scene, m: Index, seen: seq<OutPoint>)
    requires Unspending(s, m, seen)
    ensures m.Keys <= s.db.Keys
  {
  }

  lemma ReadyChecks(s: Scene, branch: seq<Block>, block: Block, q: Index, idx: Index)
    requires BranchReady(s, branch, block) && ConnectBlocks(s.base, branch) == Some(idx)
    requires Agrees(s, AllSpends(AllTxs(branch) + block.txs), q, idx)
    ensures CheckReady(s, q, block.txs, idx)
  {
    AllSpendsConcat(AllTxs(branch), block.txs);
    hide FreshOrSpent, IsSpent, ViewSpent, AllSpends;
  }

  /** An input that the first pass does not know cannot be looked up later either. */
  lemma ReadyKnown(s: Scene, branch: seq<Block>, block: Block)
    requires BranchReady(s, branch, block)
    ensures var idx := ConnectBlocks(s.base, branch).value;
            InputsFree(s.width, s.db.Keys + Queued(AllTxs(branch)), idx, block.txs) ==> AllKnown(s, branch + [block])
  {
    var blocks := branch + [block];
    var known := s.db.Keys + Queued(AllTxs(branch));
    if AllFound(s.width, known, block.txs) {
      forall k, o | 0 <= k < |blocks| && o in AllSpends(blocks[k].txs)
        ensures Known(s, ById(AllTxs(blocks[..k + 1])), o)
      {
        if k < |branch| {
          assert blocks[..k + 1] == branch[..k + 1];
          BlockKnown(s, branch, k);
        } else {
          assert blocks[..k + 1] == blocks && blocks[..k] == branch;
          LastKnown(s, branch, block, o);
        }
      }
    }
  }

  lemma LastKnown(s: Scene, branch: seq<Block>, block: Block, o: OutPoint)
    requires BranchReady(s, branch, block) && AllFound(s.width, s.db.Keys + Queued(AllTxs(branch)), block.txs)
    requires o in AllSpends(block.txs)
    ensures Known(s, ById(AllTxs(branch) + block.txs), o)
  {
    var all := AllTxs(branch) + block.txs;
    ByIdKeys(all);
    var i := SpenderOf(block.txs, o);
    assert Found(s.width, s.db.Keys + Queued(AllTxs(branch)), block.txs, i, o);
    IdsSnoc(block.txs, i);
    assert Ids(all) == Ids(AllTxs(branch)) + Ids(block.txs);
    BranchSpends(s, branch);
  }

  /** The inputs of the branch name main-chain transactions or its own. */
  lemma {:induction false} BranchSpends(s: Scene, branch: seq<Block>)
    requires SceneOk(s) && ConnectBlocks(s.base, branch).Some? && Widths(s, AllTxs(branch))
    ensures Hashes(AllSpends(AllTxs(branch))) <= s.db.Keys + Ids(AllTxs(branch))
    decreases |branch|
  {
    if branch != [] {
      var k := |branch| - 1;
      var most, last := branch[..k], branch[k];
      assert branch[..k + 1] == branch;
      AllTxsSnoc(branch, k);
      BlockKnown(s, branch, k);
      ByIdKeys(AllTxs(branch));
      hide SceneOk, ConnectTxs, AllTxs, AllSpends, ById;
      AllSpendsConcat(AllTxs(most), last.txs);
      assert Ids(AllTxs(branch)) == Ids(AllTxs(most)) + Ids(last.txs);
      BranchSpends(s, most);
    }
  }

  ghost predicate Fits(s: Scene, idx: Index) {
    forall h :: h in idx ==> h in s.width && |idx[h].spent| == s.width[h]
  }

  /** A successful replay keeps the entries' widths, and every input it spends exists. */
  lemma {:induction false} ReplayTxsFits(s: Scene, idx: Index, txs: seq<Tx>, blk: Hash)
    requires Fits(s, idx) && Widths(s, txs) && ConnectTxs(idx, txs, blk).Some?
    ensures Fits(s, ConnectTxs(idx, txs, blk).value)
    ensures forall o :: o in AllSpends(txs) ==>
            o.hash in idx.Keys + Ids(txs) && o.hash in s.width && o.n < s.width[o.hash]
    decreases |txs|
  {
    if txs != [] {
      var most, last := txs[..|txs| - 1], txs[|txs| - 1];
      assert txs == most + [last];
      assert Ids(most) <= Ids(txs);
      ReplayTxsFits(s, idx, most, blk);
      ConnectTxsKeys(idx, most, blk);
      SpendAllShape(ConnectTxs(idx, most, blk).value, Spends(last), blk);
    }
  }

  lemma {:induction false} ReplayFits(s: Scene, blocks: seq<Block>)
    requires Fits(s, s.base) && Widths(s, AllTxs(blocks)) && ConnectBlocks(s.base, blocks).Some?
    ensures Fits(s, ConnectBlocks(s.base, blocks).value)
    decreases |blocks|
  {
    if blocks != [] {
      var most, last := blocks[..|blocks| - 1], blocks[|blocks| - 1];
      ReplayFits(s, most);
      ReplayTxsFits(s, ConnectBlocks(s.base, most).value, last.txs, last.hash);
    }
  }

  lemma BlockKnown(s: Scene, branch: seq<Block>, k: nat)
    requires SceneOk(s) && k < |branch| && ConnectBlocks(s.base, branch).Some? && Widths(s, AllTxs(branch))
    ensures forall o :: o in AllSpends(branch[k].txs) ==> Known(s, ById(AllTxs(branch[..k + 1])), o)
  {
    ConnectBlocksPrefix(s.base, branch, k + 1);
    ConnectBlocksSnoc(s.base, branch, k);
    AllTxsSplit(branch, k + 1);
    AllTxsSnoc(branch, k);
    var txs := AllTxs(branch[..k]);
    assert forall tx :: tx in AllTxs(branch[..k + 1]) ==> tx in AllTxs(branch);
    assert forall tx :: tx in txs ==> tx in txs + branch[k].txs;
    ReplayFits(s, branch[..k]);
    ConnectBlocksKeys(s.base, branch[..k]);
    ReplayTxsFits(s, ConnectBlocks(s.base, branch[..k]).value, branch[k].txs, branch[k].hash);
    ByIdKeys(AllTxs(branch[..k + 1]));
  }

  // When the check decides what it promises

  /** Ids that do not occur below the common ancestor or twice above it. */
  ghost predicate BranchFresh(s: Scene, branch: seq<Block>, block: Block) {
    && SceneOk(s)
    && Widths(s, AllTxs(branch) + block.txs)
    && Distinct(AllTxs(branch) + block.txs)
    && Ids(AllTxs(branch) + block.txs) !! s.base.Keys
    && ConnectBlocks(s.base, branch).Some?
  }

  /** The inputs of a block name outputs of its own past: of the common ancestor's chain, of
      the branch, or of an earlier transaction of the block. */
  ghost predicate InputsExist(width: map<Hash, nat>, past: set<Hash>, txs: seq<Tx>) {
    forall k, o :: 0 <= k < |txs| && o in Spends(txs[k]) ==> InPast(width, past, txs, k, o)
  }

  ghost predicate InPast(width: map<Hash, nat>, past: set<Hash>, txs: seq<Tx>, k: nat, o: OutPoint)
    requires k < |txs|
  {
    o.hash in past + Ids(txs[..k]) && o.hash in width && o.n < width[o.hash]
  }

  lemma FreshFacts(s: Scene, branch: seq<Block>, block: Block)
    requires BranchFresh(s, branch, block)
    ensures Widths(s, AllTxs(branch)) && Distinct(AllTxs(branch)) && Ids(AllTxs(branch)) !! s.base.Keys
    ensures Widths(s, block.txs) && Distinct(block.txs)
    ensures ConnectBlocks(s.base, branch).value.Keys == s.base.Keys + Ids(AllTxs(branch))
    ensures Ids(block.txs) !! ConnectBlocks(s.base, branch).value.Keys
    ensures BranchReady(s, branch, block)
  {
    ConnectBlocksKeys(s.base, branch);
    FreshPart(s.base, AllTxs(branch) + block.txs, AllTxs(branch), block.txs);
    FreshPart(s.base, AllTxs(branch) + block.txs, [], AllTxs(branch));
    assert [] + AllTxs(branch) == AllTxs(branch);
  }

  /** The replay asks for more: that the inputs name outputs of the block's own past. */
  lemma ReplayIsUnspentCheck(s: Scene, branch: seq<Block>, block: Block)
    requires BranchFresh(s, branch, block)
    ensures var idx := ConnectBlocks(s.base, branch).value;
            ConnectTxs(idx, block.txs, block.hash).Some? <==>
            InputsExist(s.width, idx.Keys, block.txs) && NoDoubleSpend(idx, AllSpends(block.txs))
  {
    var idx, txs := ConnectBlocks(s.base, branch).value, block.txs;
    FreshFacts(s, branch, block);
    ReplayFits(s, branch);
    hide BranchFresh, BranchReady, SceneOk, Distinct, NoDoubleSpend, AllSpends, ConnectBlocks, AllTxs, IsSpent;
    if ConnectTxs(idx, txs, block.hash).Some? {
      ReplayedInPast(s, idx, txs, block.hash);
    }
    if InputsExist(s.width, idx.Keys, txs) {
      PastExists(s, idx, txs, block.hash);
      ReplayIff(idx, txs, block.hash);
    }
  }

  lemma ReplayedInPast(s: Scene, idx: Index, txs: seq<Tx>, blk: Hash)
    requires Fits(s, idx) && Widths(s, txs) && ConnectTxs(idx, txs, blk).Some?
    ensures InputsExist(s.width, idx.Keys, txs)
  {
    forall k, o | 0 <= k < |txs| && o in Spends(txs[k])
      ensures InPast(s.width, idx.Keys, txs, k, o)
    {
      ConnectTxsPrefix(idx, txs, k + 1, blk);
      ConnectTxsSnoc(idx, txs, k, blk);
      var mid := ConnectTxs(idx, txs[..k], blk).value;
      SpendAllShape(mid, Spends(txs[k]), blk);
      ConnectTxsKeys(idx, txs[..k], blk);
      assert forall tx :: tx in txs[..k] ==> tx in txs;
      ReplayTxsFits(s, idx, txs[..k], blk);
    }
  }

  lemma PastExists(s: Scene, idx: Index, txs: seq<Tx>, blk: Hash)
    requires Fits(s, idx) && Widths(s, txs) && InputsExist(s.width, idx.Keys, txs)
    ensures SpendsExist(idx, txs, blk)
  {
    forall k, o | 0 <= k < |txs| && o in Spends(txs[k]) && ConnectTxs(idx, txs[..k], blk).Some?
      ensures Exists(ConnectTxs(idx, txs[..k], blk).value, o)
    {
      assert InPast(s.width, idx.Keys, txs, k, o);
      ConnectTxsKeys(idx, txs[..k], blk);
      assert forall tx :: tx in txs[..k] ==> tx in txs;
      ReplayTxsFits(s, idx, txs[..k], blk);
    }
  }

  /** Check and replay differ in two ways only.  A block that passes the check replays exactly if its inputs name
      outputs of its own past; the check also takes outputs of the main chain that the branch does not have.  And
      a block that replays passes the check exactly if it spends no branch coinbase that was never queued. */
  lemma CheckVersusReplay(s: Scene, branch: seq<Block>, block: Block)
    requires BranchFresh(s, branch, block)
    ensures var idx := ConnectBlocks(s.base, branch).value;
            var passes := InputsFree(s.width, s.db.Keys + Queued(AllTxs(branch)), idx, block.txs);
            var replays := ConnectTxs(idx, block.txs, block.hash).Some?;
            && (passes ==> (replays <==> InputsExist(s.width, idx.Keys, block.txs)))
            && (replays ==> (passes <==> Hashes(AllSpends(block.txs)) !! Unqueued(s.db, AllTxs(branch))))
  {
    hide BranchFresh, NoDoubleSpend, AllSpends, ConnectBlocks, ConnectTxs, AllTxs, Queued, Unqueued, AllFound;
    ReplayIsUnspentCheck(s, branch, block);
    UnqueuedDecides(s, branch, block);
  }

  /** A block that passes the check has new ids. */
  lemma PassedIsFresh(s: Scene, branch: seq<Block>, block: Block)
    requires BranchReady(s, branch, block)
    requires NoDoubleSpend(ConnectBlocks(s.base, branch).value, AllSpends(block.txs))
    ensures BranchFresh(s, branch, block)
  {
    var idx := ConnectBlocks(s.base, branch).value;
    ConnectBlocksKeys(s.base, branch);
    forall tx | tx in block.txs
      ensures tx.hash !in idx
    {
      assert FreshOrSpent(idx, tx);
      forall o | o in Spends(tx)
        ensures o in AllSpends(block.txs)
      {
        var k :| 0 <= k < |block.txs| && block.txs[k] == tx;
        AllSpendsSnoc(block.txs, k);
      }
    }
    DistinctBoth(AllTxs(branch), block.txs);
  }

  lemma DistinctBoth(a: seq<Tx>, b: seq<Tx>)
    requires Distinct(a) && Distinct(b) && Ids(a) !! Ids(b)
    ensures Distinct(a + b)
  {
    forall i, j | 0 <= i < |a| && 0 <= j < |b|
      ensures a[i].hash != b[j].hash
    {
      assert a[i].hash in Ids(a) && b[j].hash in Ids(b);
    }
  }

  /** With inputs of the block's own past, one is missing from database and overlay exactly when it names an
      unqueued branch transaction. */
  lemma UnqueuedDecides(s: Scene, branch: seq<Block>, block: Block)
    requires BranchFresh(s, branch, block)
    ensures InputsExist(s.width, ConnectBlocks(s.base, branch).value.Keys, block.txs) ==>
              (AllFound(s.width, s.db.Keys + Queued(AllTxs(branch)), block.txs) <==>
               Hashes(AllSpends(block.txs)) !! Unqueued(s.db, AllTxs(branch)))
  {
    FreshFacts(s, branch, block);
    var txs, known := block.txs, s.db.Keys + Queued(AllTxs(branch));
    var past := ConnectBlocks(s.base, branch).value.Keys;
    SceneKeys(s);
    if InputsExist(s.width, past, txs) {
      forall k, o | 0 <= k < |txs| && o in Spends(txs[k])
        ensures Found(s.width, known, txs, k, o) <==> o.hash !in Unqueued(s.db, AllTxs(branch))
        ensures o.hash in Hashes(AllSpends(txs))
      {
        assert InPast(s.width, past, txs, k, o);
        IdsSnoc(txs, k);
        AllSpendsSnoc(txs, k);
        FoundUnless(s, branch, txs, k, o, past);
      }
      forall h | h in Hashes(AllSpends(txs))
        ensures exists k, o :: 0 <= k < |txs| && o in Spends(txs[k]) && o.hash == h
      {
        var o :| o in AllSpends(txs) && o.hash == h;
        var k := SpenderOf(txs, o);
      }
    }
  }

  lemma FoundUnless(s: Scene, branch: seq<Block>, txs: seq<Tx>, k: nat, o: OutPoint, past: set<Hash>)
    requires k < |txs| && InPast(s.width, past, txs, k, o) && past == s.base.Keys + Ids(AllTxs(branch))
    requires s.base.Keys <= s.db.Keys && Ids(txs) !! past
    ensures Found(s.width, s.db.Keys + Queued(AllTxs(branch)), txs, k, o) <==>
            o.hash !in Unqueued(s.db, AllTxs(branch))
  {
    IdsSnoc(txs, k);
    hide Queued;
  }

  /** The branch transactions that neither the database nor the overlay knows. */
  function Unqueued(db: Index, txs: seq<Tx>): set<Hash> {
    Ids(txs) - db.Keys - Queued(txs)
  }

  /** They are the coinbases that exist on the branch only and that no branch input names. */
  lemma UnqueuedAreCoinbases(db: Index, txs: seq<Tx>)
    requires Distinct(txs)
    ensures Unqueued(db, txs) ==
            set tx | tx in txs && tx.kind.CoinBase? && tx.hash !in db && tx.hash !in Hashes(AllSpends(txs)) :: tx.hash
  {
    forall a, b | a in txs && b in txs && a.hash == b.hash
      ensures a == b
    {
      var i :| 0 <= i < |txs| && txs[i] == a;
      var j :| 0 <= j < |txs| && txs[j] == b;
      assert i == j;
    }
  }

  /** A block that replays and spends no coinbase that only its branch has passes the check. */
  lemma NoBranchCoinbase(s: Scene, branch: seq<Block>, block: Block)
    requires BranchFresh(s, branch, block)
    requires forall tx :: tx in AllTxs(branch) && tx.kind.CoinBase? && tx.hash !in s.db ==>
             tx.hash !in Hashes(AllSpends(block.txs))
    ensures var idx := ConnectBlocks(s.base, branch).value;
            ConnectTxs(idx, block.txs, block.hash).Some? ==>
              InputsFree(s.width, s.db.Keys + Queued(AllTxs(branch)), idx, block.txs)
  {
    FreshFacts(s, branch, block);
    UnqueuedAreCoinbases(s.db, AllTxs(branch));
    CheckVersusReplay(s, branch, block);
    hide BranchFresh, InputsFree, ConnectTxs, ConnectBlocks;
  }

  // The two differences are real

  /** The main chain has a coinbase in its first block.  A block beside that one spends it: the check accepts,
      although the block's own chain does not have the coinbase. */
  method AcceptsForeignInput() returns (s: Scene, block: Block, ok: bool)
    ensures BranchFresh(s, [], block) && ConnectBlock.WellShaped(block)
    ensures ok && ConnectTxs(s.base, block.txs, block.hash).None?
  {
    var reward, spender := Tx(1, CoinBase, [], [50]), Tx(2, User, [OutPoint(0, 0)], [50]);
    block := Block(21, [reward, spender]);
    s := Scene(map[], map[0 := Unspent(20, 1)], map[20 := 1], {20}, 0, OneOutput(3));
    ForeignExample(s, block, reward, spender);
    FreshFacts(s, [], block);
    CheckVersusReplay(s, [], block);
    hide *;
    ok := VerifyInputsUnspent(s, [], block);
  }

  lemma ForeignExample(s: Scene, block: Block, reward: Tx, spender: Tx)
    requires reward == Tx(1, CoinBase, [], [50]) && spender == Tx(2, User, [OutPoint(0, 0)], [50])
    requires block == Block(21, [reward, spender])
    requires s == Scene(map[], map[0 := Unspent(20, 1)], map[20 := 1], {20}, 0, OneOutput(3))
    ensures BranchFresh(s, [], block) && ConnectBlock.WellShaped(block) && ConnectBlocks(s.base, []) == Some(map[])
    ensures InputsFree(s.width, s.db.Keys + Queued(AllTxs([])), map[], block.txs)
    ensures !InputsExist(s.width, {}, block.txs) && s.base == map[]
  {
    hide AllFound, AllSpends, InputsExist, Queued, Widths, OneOutput;
    var txs := block.txs;
    assert AllTxs([]) == [] && [] + txs == txs;
    ForeignSpends(s.width, s.db.Keys + Queued([]), reward, spender);
    ForeignWidths(s, reward, spender);
  }

  lemma ForeignWidths(s: Scene, reward: Tx, spender: Tx)
    requires reward == Tx(1, CoinBase, [], [50]) && spender == Tx(2, User, [OutPoint(0, 0)], [50])
    requires s == Scene(map[], map[0 := Unspent(20, 1)], map[20 := 1], {20}, 0, OneOutput(3))
    ensures Widths(s, [reward, spender]) && 0 in s.width && s.width[0] == 1
  {
  }

  lemma ForeignSpends(width: map<Hash, nat>, known: set<Hash>, reward: Tx, spender: Tx)
    requires reward == Tx(1, CoinBase, [], [50]) && spender == Tx(2, User, [OutPoint(0, 0)], [50])
    requires 0 in known && 0 in width && width[0] == 1
    ensures AllSpends([reward, spender]) == [OutPoint(0, 0)]
    ensures AllFound(width, known, [reward, spender]) && !InputsExist(width, {}, [reward, spender])
  {
    var txs := [reward, spender];
    assert txs[..1] == [reward] && [reward][..0] == [];
    assert AllSpends([reward]) == [];
    assert AllSpends(txs) == AllSpends([reward]) + Spends(spender);
    assert Ids(txs[..1]) == {1};
    assert OutPoint(0, 0) in Spends(txs[1]) && !InPast(width, {}, txs, 1, OutPoint(0, 0));
  }

  /** A block that holds only its coinbase. */
  function RewardBlock(i: nat): Block {
    Block(i + 1, [Tx(i, CoinBase, [], [50])])
  }

  function RewardBranch(n: nat): seq<Block> {
    if n == 0 then [] else RewardBranch(n - 1) + [RewardBlock(n - 1)]
  }

  /** The index after such a branch. */
  function RewardIndex(n: nat): (idx: Index)
    ensures forall h :: h in idx ==> h < n && |idx[h].spent| == 1
    ensures n > 0 ==> Exists(idx, OutPoint(0, 0)) && !IsSpent(idx, OutPoint(0, 0))
  {
    if n == 0 then map[] else RewardIndex(n - 1)[n - 1 := Unspent(n, 1)]
  }

  /** Each of the first `n` ids has one output. */
  function OneOutput(n: nat): (width: map<Hash, nat>)
    ensures forall h: nat :: h < n ==> h in width && width[h] == 1
  {
    if n == 0 then map[] else OneOutput(n - 1)[n - 1 := 1]
  }

  lemma AllTxsLast(most: seq<Block>, last: Block)
    ensures AllTxs(most + [last]) == AllTxs(most) + last.txs
  {
    assert (most + [last])[..|most|] == most;
  }

  lemma {:induction false} RewardBranchOk(n: nat)
    ensures |RewardBranch(n)| == n && forall i :: 0 <= i < n ==> RewardBranch(n)[i] == RewardBlock(i)
  {
    if n > 0 {
      RewardBranchOk(n - 1);
    }
  }

  lemma {:induction false} RewardTxsOk(n: nat)
    ensures |AllTxs(RewardBranch(n))| == n
    ensures forall i :: 0 <= i < n ==> AllTxs(RewardBranch(n))[i] == Tx(i, CoinBase, [], [50])
  {
    if n > 0 {
      RewardTxsOk(n - 1);
      AllTxsLast(RewardBranch(n - 1), RewardBlock(n - 1));
      hide AllTxs;
    }
  }

  lemma {:induction false} CoinbasesSpendNothing(txs: seq<Tx>)
    requires forall i :: 0 <= i < |txs| ==> txs[i].kind.CoinBase?
    ensures AllSpends(txs) == []
    decreases |txs|
  {
    if txs != [] {
      CoinbasesSpendNothing(txs[..|txs| - 1]);
    }
  }

  lemma {:induction false} RewardsConnect(n: nat)
    ensures ConnectBlocks(map[], RewardBranch(n)) == Some(RewardIndex(n))
  {
    if n > 0 {
      RewardsConnect(n - 1);
      var most, last := RewardBranch(n - 1), RewardBlock(n - 1);
      ConnectBlocksLast(map[], most, last);
      OneTx(RewardIndex(n - 1), last.txs[0], last.hash);
      hide ConnectBlocks, ConnectTxs, SpendAll;
    }
  }

  /** On a branch of any length, of blocks that are well-shaped, the next block spends the coinbase
      of the first, however deep that is buried.  The replay accepts it, the check does not. */
  method RejectsBranchCoinbase(n: nat) returns (s: Scene, branch: seq<Block>, block: Block, ok: bool)
    requires n >= 1
    ensures BranchFresh(s, branch, block) && |branch| == n
    ensures ConnectBlock.WellShaped(block) && forall b :: b in branch ==> ConnectBlock.WellShaped(b)
    ensures branch[0].txs != [] && branch[0].txs[0].hash in Hashes(AllSpends(block.txs))
    ensures ConnectTxs(ConnectBlocks(s.base, branch).value, block.txs, block.hash).Some?
    ensures !ok
  {
    var spender := Tx(n + 1, User, [OutPoint(0, 0)], [50]);
    branch, block := RewardBranch(n), Block(n + 1, [Tx(n, CoinBase, [], [50]), spender]);
    s := Scene(map[], map[], map[], {}, 0, OneOutput(n + 2));
    CoinbaseExample(n, s, branch, block);
    RewardsShaped(n);
    FreshFacts(s, branch, block);
    CheckVersusReplay(s, branch, block);
    hide *;
    ok := VerifyInputsUnspent(s, branch, block);
  }

  lemma RewardsShaped(n: nat)
    requires n >= 1
    ensures |RewardBranch(n)| == n && forall b :: b in RewardBranch(n) ==> ConnectBlock.WellShaped(b)
    ensures RewardBranch(n)[0].txs != [] && RewardBranch(n)[0].txs[0].hash == 0
  {
    RewardBranchOk(n);
    hide RewardBranch, AllTxs, ConnectBlock.WellShaped;
    forall b | b in RewardBranch(n)
      ensures ConnectBlock.WellShaped(b)
    {
      var i :| 0 <= i < n && RewardBranch(n)[i] == b;
      RewardShaped(i);
    }
  }

  lemma RewardShaped(i: nat)
    ensures ConnectBlock.WellShaped(RewardBlock(i))
  {
  }

  lemma RewardUnspent(n: nat)
    requires n >= 1
    ensures Exists(RewardIndex(n), OutPoint(0, 0)) && !IsSpent(RewardIndex(n), OutPoint(0, 0))
  {
  }

  lemma CoinbaseExample(n: nat, s: Scene, branch: seq<Block>, block: Block)
    requires n >= 1 && branch == RewardBranch(n)
    requires block == Block(n + 1, [Tx(n, CoinBase, [], [50]), Tx(n + 1, User, [OutPoint(0, 0)], [50])])
    requires s == Scene(map[], map[], map[], {}, 0, OneOutput(n + 2))
    ensures BranchFresh(s, branch, block) && ConnectBlock.WellShaped(block)
    ensures ConnectTxs(ConnectBlocks(s.base, branch).value, block.txs, block.hash).Some?
    ensures 0 in Hashes(AllSpends(block.txs)) && 0 in Unqueued(s.db, AllTxs(branch))
  {
    hide ConnectTxs, ConnectBlocks, RewardIndex, RewardBranch, OneOutput, AllSpends, AllTxs, Unqueued, Widths,
         Distinct, Ids;
    RewardsConnect(n);
    RewardUnspent(n);
    SpenderConnects(n, RewardIndex(n), block);
    ExampleIds(n, s, branch, block);
    ExampleUnqueued(n);
    assert OutPoint(0, 0) in AllSpends(block.txs);
  }

  lemma ExampleIds(n: nat, s: Scene, branch: seq<Block>, block: Block)
    requires n >= 1 && branch == RewardBranch(n)
    requires block == Block(n + 1, [Tx(n, CoinBase, [], [50]), Tx(n + 1, User, [OutPoint(0, 0)], [50])])
    requires s == Scene(map[], map[], map[], {}, 0, OneOutput(n + 2))
    ensures Widths(s, AllTxs(branch) + block.txs) && Distinct(AllTxs(branch) + block.txs)
    ensures Ids(AllTxs(branch) + block.txs) !! s.base.Keys && Distinct(block.txs)
  {
    RewardTxsOk(n);
    var txs, all := AllTxs(branch), AllTxs(branch) + block.txs;
    hide AllTxs, RewardBranch;
    forall i | 0 <= i < n + 2
      ensures all[i].hash == i && |all[i].outs| == 1
    {
      if i < n {
        assert all[i] == txs[i];
      }
    }
    assert txs[0] in txs && txs[0].hash == 0;
    assert 0 in Ids(txs);
  }

  lemma ExampleUnqueued(n: nat)
    requires n >= 1
    ensures 0 in Unqueued(map[], AllTxs(RewardBranch(n)))
  {
    RewardTxsOk(n);
    var txs := AllTxs(RewardBranch(n));
    CoinbasesSpendNothing(txs);
    hide AllTxs, RewardBranch, AllSpends;
    assert txs[0] in txs && txs[0].hash == 0;
    assert forall tx :: tx in txs ==> tx.kind.CoinBase?;
  }

  /** The reward and the spender on top of an index with output 0 of transaction 0 unspent. */
  lemma SpenderConnects(n: nat, idx: Index, block: Block)
    requires block == Block(n + 1, [Tx(n, CoinBase, [], [50]), Tx(n + 1, User, [OutPoint(0, 0)], [50])])
    requires n >= 1 && Exists(idx, OutPoint(0, 0)) && !IsSpent(idx, OutPoint(0, 0))
    ensures ConnectTxs(idx, block.txs, block.hash).Some? && AllSpends(block.txs) == [OutPoint(0, 0)]
  {
    var reward, spender := block.txs[0], block.txs[1];
    assert block.txs[..1] == [reward] && [reward][..0] == [];
    OneTx(idx, reward, block.hash);
    OneTx(idx[n := Unspent(block.hash, 1)], spender, block.hash);
  }

  // Why the main chain's index fits the scene

  /** `idx` has grown from `base` by connecting blocks from `later`: nothing was forgotten, and
      an output is marked by a later block exactly when it was unspent in `base`. */
  ghost predicate GrewFrom(base: Index, idx: Index, later: set<Hash>) {
    && (forall h :: h in base ==> h in idx && |idx[h].spent| == |base[h].spent|)
    && (forall o :: Exists(idx, o) ==> SpentSince(base, idx, later, o))
  }

  ghost predicate SpentSince(base: Index, idx: Index, later: set<Hash>, o: OutPoint)
    requires Exists(idx, o)
  {
    if IsSpent(base, o) then idx[o.hash].spent[o.n] == base[o.hash].spent[o.n]
    else idx[o.hash].spent[o.n].Some? ==> idx[o.hash].spent[o.n].value in later
  }

  lemma {:induction false} GrewBySpending(base: Index, idx: Index, later: set<Hash>, os: seq<OutPoint>, blk: Hash)
    requires GrewFrom(base, idx, later) && blk in later && SpendAll(idx, os, blk).Some?
    ensures GrewFrom(base, SpendAll(idx, os, blk).value, later)
    decreases |os|
  {
    if os != [] {
      var most, last := os[..|os| - 1], os[|os| - 1];
      GrewBySpending(base, idx, later, most, blk);
      GrewByMark(base, SpendAll(idx, most, blk).value, later, last, blk);
    }
  }

  lemma GrewByMark(base: Index, idx: Index, later: set<Hash>, o: OutPoint, blk: Hash)
    requires GrewFrom(base, idx, later) && blk in later && Exists(idx, o) && !IsSpent(idx, o)
    ensures GrewFrom(base, Mark(idx, o, blk), later)
  {
    var idx' := Mark(idx, o, blk);
    assert SpentSince(base, idx, later, o);
    forall p | Exists(idx', p)
      ensures SpentSince(base, idx', later, p)
    {
      assert SpentSince(base, idx, later, p);
      if p.hash == o.hash && p.n != o.n {
        assert idx'[p.hash].spent[p.n] == idx[p.hash].spent[p.n];
      }
    }
  }

  lemma {:induction false} GrewByTxs(base: Index, idx: Index, later: set<Hash>, txs: seq<Tx>, blk: Hash)
    requires GrewFrom(base, idx, later) && blk in later && ConnectTxs(idx, txs, blk).Some? && Ids(txs) !! base.Keys
    ensures GrewFrom(base, ConnectTxs(idx, txs, blk).value, later)
    decreases |txs|
  {
    if txs != [] {
      var most, last := txs[..|txs| - 1], txs[|txs| - 1];
      assert Ids(most) <= Ids(txs) && last.hash in Ids(txs);
      GrewByTxs(base, idx, later, most, blk);
      var mid := ConnectTxs(idx, most, blk).value;
      GrewBySpending(base, mid, later, Spends(last), blk);
      var spent, done := SpendAll(mid, Spends(last), blk).value, ConnectTxs(idx, txs, blk).value;
      forall o | Exists(done, o)
        ensures SpentSince(base, done, later, o)
      {
        if o.hash != last.hash {
          assert SpentSince(base, spent, later, o);
        }
      }
    }
  }

  lemma {:induction false} GrewByBlocks(base: Index, blocks: seq<Block>, later: set<Hash>)
    requires ConnectBlocks(base, blocks).Some? && Ids(AllTxs(blocks)) !! base.Keys
    requires forall b :: b in blocks ==> b.hash in later
    ensures GrewFrom(base, ConnectBlocks(base, blocks).value, later)
    decreases |blocks|
  {
    if blocks != [] {
      var most, last := blocks[..|blocks| - 1], blocks[|blocks| - 1];
      assert Ids(AllTxs(blocks)) == Ids(AllTxs(most)) + Ids(last.txs);
      GrewByBlocks(base, most, later);
      GrewByTxs(base, ConnectBlocks(base, most).value, later, last.txs, last.hash);
    }
  }

  /** The index of a main chain that was connected block by block from the common ancestor,
      without reusing a transaction id, is one the check is meant for. */
  lemma SceneFromChain(s: Scene, main: seq<Block>)
    requires ConnectBlocks(s.base, main) == Some(s.db)
    requires Ids(AllTxs(main)) !! s.base.Keys
    requires Fits(s, s.base) && Widths(s, AllTxs(main))
    requires forall b :: b in main ==> b.hash in s.heights && b.hash in s.main && s.heights[b.hash] > s.forkHeight
    requires forall o :: IsSpent(s.base, o) ==>
               && s.base[o.hash].spent[o.n].value in s.heights && s.base[o.hash].spent[o.n].value in s.main
               && s.heights[s.base[o.hash].spent[o.n].value] <= s.forkHeight
    ensures SceneOk(s)
  {
    var later := set b | b in main :: b.hash;
    GrewByBlocks(s.base, main, later);
    ReplayFits(s, main);
    forall o | Exists(s.db, o)
      ensures OutputOk(s, o)
    {
      assert SpentSince(s.base, s.db, later, o);
    }
  }
}
