/** The indexed blocks, the contents of those that are on disk, and the chains they make. */
module Archives {
  import opened Basics
  import opened BlockTree
  import opened Ledger
  import opened Money
  import opened ConnectBlock
  import opened DisconnectBlock
  import opened FreshIds
  import ChainState

  /** The block index, and the contents on disk.  In `store` every id belongs to one transaction, and
      `heightOf` reads the height at the start of a coinbase's script. */
  datatype Archive = Archive(
    store: map<Hash, Tx>,
    heightOf: Tx -> nat,
    t: Tree,
    root: Hash,
    contents: map<Hash, Block>)

  /** The block can be read; the genesis block, which is never connected, counts as well. */
  predicate Archived(a: Archive, b: Hash) {
    b == a.root || b in a.contents
  }

  /** The contents on disk keep the rules for single blocks, and no block was indexed on top of one that
      is not on disk. */
  ghost predicate ArchiveOk(a: Archive) {
    && WellFormed(a.t, a.root)
    && (forall h :: h in a.contents ==> h in a.t && h != a.root && ContentsOk(a, h))
    && (forall h :: h in a.t && a.t[h].prev.Some? ==> Archived(a, a.t[h].prev.value))
  }

  ghost predicate ContentsOk(a: Archive, h: Hash)
    requires h in a.t && h in a.contents
  {
    a.contents[h].hash == h && BlockRules(a.store, a.heightOf, a.t[h].height, a.contents[h])
  }

  lemma ArchiveTree(a: Archive)
    requires ArchiveOk(a)
    ensures WellFormed(a.t, a.root) && Archived(a, a.root)
  {
  }

  lemma ContentsHere(a: Archive, b: Hash)
    requires ArchiveOk(a) && b in a.t && b in a.contents
    ensures b != a.root && a.t[b].prev.Some? && a.t[b].prev.value in a.t && Archived(a, a.t[b].prev.value)
    ensures a.t[b].height == a.t[a.t[b].prev.value].height + 1
    ensures ContentsOk(a, b) && a.contents[b].hash == b && AllStored(a.store, a.contents[b].txs)
    ensures IsAncestor(a.t, a.root, a.t[b].prev.value, b)
  {
    assert LinkOk(a.t, a.root, b);
    PrevIsAncestor(a.t, a.root, b);
  }

  /** A block above another one has contents if it is on disk, and so has the one below. */
  lemma AboveHere(a: Archive, b: Hash)
    requires ArchiveOk(a) && b in a.t && a.t[b].prev.Some?
    ensures b != a.root && a.t[b].prev.value in a.t && Archived(a, a.t[b].prev.value)
    ensures Archived(a, b) <==> b in a.contents
  {
    assert LinkOk(a.t, a.root, b);
  }

  /** With a block all its ancestors are on disk. */
  lemma {:induction false} BelowArchived(a: Archive, b: Hash, tip: Hash)
    requires ArchiveOk(a) && tip in a.t && Archived(a, tip) && IsAncestor(a.t, a.root, b, tip)
    ensures b in a.t && Archived(a, b)
    decreases a.t[tip].height
  {
    assert LinkOk(a.t, a.root, tip);
    if b != tip {
      BelowArchived(a, b, a.t[tip].prev.value);
    }
  }

  /** A block that is not on disk has no block on top of it, and is on no chain that can be read. */
  lemma UnarchivedIsLeaf(a: Archive, b: Hash, tip: Hash)
    requires ArchiveOk(a) && b in a.t && !Archived(a, b) && tip in a.t && Archived(a, tip)
    ensures !IsAncestor(a.t, a.root, b, tip)
    ensures forall h :: h in a.t ==> a.t[h].prev != Some(b)
  {
    if IsAncestor(a.t, a.root, b, tip) {
      BelowArchived(a, b, tip);
    }
  }

  /** The contents of the blocks up to `tip`, lowest first. */
  function MainBlocks(a: Archive, tip: Hash): (blocks: seq<Block>)
    requires ArchiveOk(a) && tip in a.t && Archived(a, tip)
    ensures |blocks| == a.t[tip].height
    decreases a.t[tip].height
  {
    assert LinkOk(a.t, a.root, tip);
    if a.t[tip].prev.None? then []
    else
      MainBlocks(a, a.t[tip].prev.value) + [a.contents[tip]]
  }

  /** The index that a plain replay of the chain up to `tip` gives. */
  function Replay(a: Archive, tip: Hash): Option<Index>
    requires ArchiveOk(a) && tip in a.t && Archived(a, tip)
  {
    ConnectBlocks(map[], MainBlocks(a, tip))
  }

  lemma ReplayStep(a: Archive, b: Hash)
    requires ArchiveOk(a) && b in a.t && b in a.contents
    ensures a.t[b].prev.Some? && a.t[b].prev.value in a.t && Archived(a, a.t[b].prev.value)
    ensures MainBlocks(a, b) == MainBlocks(a, a.t[b].prev.value) + [a.contents[b]]
    ensures Replay(a, b) ==
            match Replay(a, a.t[b].prev.value)
            { case None => None case Some(idx) => ConnectTxs(idx, a.contents[b].txs, b) }
  {
    ContentsHere(a, b);
    ConnectBlocksLast(map[], MainBlocks(a, a.t[b].prev.value), a.contents[b]);
  }

  lemma {:induction false} MainRules(a: Archive, tip: Hash)
    requires ArchiveOk(a) && tip in a.t && Archived(a, tip)
    ensures ChainRules(a.store, a.heightOf, 1, MainBlocks(a, tip))
    decreases a.t[tip].height
  {
    assert LinkOk(a.t, a.root, tip);
    if tip != a.root {
      ContentsHere(a, tip);
      MainRules(a, a.t[tip].prev.value);
    }
  }

  /** `b` has all that is in `a`. */
  ghost predicate Grows(a: Archive, b: Archive) {
    && b.store == a.store && b.heightOf == a.heightOf && b.root == a.root
    && (forall h :: h in a.t ==> h in b.t && b.t[h] == a.t[h])
    && (forall h :: h in a.contents ==> h in b.contents && b.contents[h] == a.contents[h])
  }

  /** More blocks, or more contents, do not change a chain. */
  lemma {:induction false} MainExtends(a: Archive, b: Archive, tip: Hash)
    requires ArchiveOk(a) && ArchiveOk(b) && Grows(a, b) && tip in a.t && Archived(a, tip)
    ensures tip in b.t && Archived(b, tip) && MainBlocks(b, tip) == MainBlocks(a, tip)
    decreases a.t[tip].height
  {
    assert LinkOk(a.t, a.root, tip) && LinkOk(b.t, b.root, tip);
    if a.t[tip].prev.Some? {
      MainExtends(a, b, a.t[tip].prev.value);
    }
  }

  /** Disconnecting the last block of a chain that was connected cannot fail, and leads back. */
  lemma StepBack(a: Archive, b: Hash)
    requires ArchiveOk(a) && b in a.t && b in a.contents && Replay(a, b).Some?
    ensures a.t[b].prev.Some? && a.t[b].prev.value in a.t && Archived(a, a.t[b].prev.value)
    ensures Replay(a, a.t[b].prev.value).Some?
    ensures DisconnectTxs(Replay(a, b).value, a.contents[b].txs) == Replay(a, a.t[b].prev.value)
  {
    ReplayStep(a, b);
    MainRules(a, b);
    GoesBack(a.store, a.heightOf, 1, MainBlocks(a, a.t[b].prev.value), [a.contents[b]]);
    OneBlock(Replay(a, b).value, a.contents[b]);
  }

  lemma OneBlock(idx: Index, b: Block)
    ensures DisconnectBlocks(idx, [b]) == DisconnectTxs(idx, b.txs)
  {
    assert [b][..0] == [];
    match DisconnectTxs(idx, b.txs)
    case None =>
    case Some(mid) => assert DisconnectBlocks(mid, []) == Some(mid);
  }

  // The recorded supply

  /** The supply recorded for a block is the total of the outputs left unspent by its chain. */
  ghost predicate SupplyRight(a: Archive, supply: map<Hash, int>, b: Hash)
    requires ArchiveOk(a) && b in supply && Archived(a, b)
  {
    && b in a.t && (a.t[b].prev.Some? ==> a.t[b].prev.value in supply)
    && Replay(a, b).Some? && Stored(a.store, Replay(a, b).value)
    && supply[b] == UnspentTotal(a.store, Replay(a, b).value)
  }

  /** This holds for every block with a record that can still be read. */
  ghost predicate SuppliesRight(a: Archive, supply: map<Hash, int>)
    requires ArchiveOk(a)
  {
    forall b :: b in supply && Archived(a, b) ==> SupplyRight(a, supply, b)
  }

  lemma SupplyHere(a: Archive, supply: map<Hash, int>, b: Hash)
    requires ArchiveOk(a) && SuppliesRight(a, supply) && b in supply && Archived(a, b)
    ensures b in a.t && Replay(a, b).Some? && Stored(a.store, Replay(a, b).value)
    ensures supply[b] == UnspentTotal(a.store, Replay(a, b).value)
  {
    assert SupplyRight(a, supply, b);
  }

  /** With a block all its ancestors have been connected. */
  lemma {:induction false} SupplyBelow(a: Archive, supply: map<Hash, int>, b: Hash, tip: Hash)
    requires ArchiveOk(a) && SuppliesRight(a, supply)
    requires tip in supply && tip in a.t && Archived(a, tip) && IsAncestor(a.t, a.root, b, tip)
    ensures b in supply && b in a.t && Archived(a, b)
    decreases a.t[tip].height
  {
    assert SupplyRight(a, supply, tip) && LinkOk(a.t, a.root, tip);
    if b != tip {
      SupplyBelow(a, supply, b, a.t[tip].prev.value);
    }
  }

  lemma SupplyNext(a: Archive, supply: map<Hash, int>, b: Hash, idx: Index, s: Step, r: Connected)
    requires ArchiveOk(a) && SuppliesRight(a, supply) && b in a.t && b in a.contents
    requires a.t[b].prev.Some? && a.t[b].prev.value in supply && a.t[b].prev.value in a.t
    requires Archived(a, a.t[b].prev.value) && Replay(a, a.t[b].prev.value) == Some(idx)
    requires s.block == a.contents[b] && Accepts(a.store, idx, s)
    requires ConnectTxs(idx, s.block.txs, b) == Some(r.db)
    requires r.supply == supply[a.t[b].prev.value] + TotalOut(s.block.txs) - TotalIn(a.store, s.block.txs)
    ensures Replay(a, b) == Some(r.db)
    ensures SuppliesRight(a, supply[b := r.supply])
  {
    var p := a.t[b].prev.value;
    ReplayStep(a, b);
    ContentsHere(a, b);
    assert SupplyRight(a, supply, p);
    AcceptedConserves(a.store, idx, s, supply[p], r);
    var more := supply[b := r.supply];
    forall x | x in more && Archived(a, x)
      ensures SupplyRight(a, more, x)
    {
      if x != b {
        assert SupplyRight(a, supply, x);
      }
    }
  }

  /** More blocks, or more contents, do not change what is recorded. */
  lemma SuppliesExtend(a: Archive, b: Archive, supply: map<Hash, int>)
    requires ArchiveOk(a) && ArchiveOk(b) && Grows(a, b) && SuppliesRight(a, supply)
    requires forall h :: h in supply && Archived(b, h) ==> Archived(a, h)
    ensures SuppliesRight(b, supply)
  {
    forall h | h in supply && Archived(b, h)
      ensures SupplyRight(b, supply, h)
    {
      assert SupplyRight(a, supply, h);
      MainExtends(a, b, h);
    }
  }

  /** Nor do fewer. */
  lemma SuppliesShrink(a: Archive, b: Archive, supply: map<Hash, int>)
    requires ArchiveOk(a) && ArchiveOk(b) && Grows(a, b) && SuppliesRight(b, supply) && a.t == b.t
    ensures SuppliesRight(a, supply)
  {
    forall h | h in supply && Archived(a, h)
      ensures SupplyRight(a, supply, h)
    {
      assert SupplyRight(b, supply, h);
      MainExtends(a, b, h);
    }
  }

  // One more block

  /** The archive with `b` indexed on top of a block on disk, and its contents stored. */
  function WithBlock(a: Archive, b: ChainState.NewBlock, body: Block): Archive
    requires b.prev in a.t
  {
    a.(t := ChainState.Grown(a.t, b), contents := a.contents[b.hash := body])
  }

  /** The same without its contents. */
  function WithEntry(a: Archive, b: ChainState.NewBlock): Archive
    requires b.prev in a.t
  {
    a.(t := ChainState.Grown(a.t, b))
  }

  lemma EntryKeeps(a: Archive, b: ChainState.NewBlock)
    requires ArchiveOk(a) && b.hash !in a.t && b.prev in a.t && Archived(a, b.prev)
    ensures ArchiveOk(WithEntry(a, b)) && Grows(a, WithEntry(a, b)) && !Archived(WithEntry(a, b), b.hash)
  {
    ChainState.GrownWellFormed(a.t, a.root, b);
    var more := WithEntry(a, b);
    forall h | h in more.contents
      ensures h in more.t && h != more.root && ContentsOk(more, h)
    {
      assert ContentsOk(a, h);
    }
  }

  lemma BlockKeeps(a: Archive, b: ChainState.NewBlock, body: Block)
    requires ArchiveOk(a) && b.hash !in a.t && b.prev in a.t && Archived(a, b.prev) && body.hash == b.hash
    requires BlockRules(a.store, a.heightOf, a.t[b.prev].height + 1, body)
    ensures ArchiveOk(WithBlock(a, b, body)) && Grows(a, WithBlock(a, b, body))
    ensures Grows(WithEntry(a, b), WithBlock(a, b, body))
  {
    ChainState.GrownWellFormed(a.t, a.root, b);
    var more := WithBlock(a, b, body);
    hide BlockRules;
    forall h | h in more.contents
      ensures h in more.t && h != more.root && ContentsOk(more, h)
    {
      if h != b.hash {
        assert ContentsOk(a, h);
      }
    }
  }
}
