/** The side-branch check on a running node: the branch that `GetBlocksUpToCommonAncestorInMainChain`
    finds and the index on disk are what `VerifyInputsUnspent` is meant for. */
module BranchCheck {
  import opened Basics
  import opened BlockTree
  import opened Ledger
  import opened Money
  import opened FreshIds
  import opened Archives
  import opened SpendCheck

  ghost predicate Held(a: Archive, hashes: seq<Hash>) {
    forall i :: 0 <= i < |hashes| ==> hashes[i] in a.contents && a.contents[hashes[i]].hash == hashes[i]
  }

  /** The contents of blocks given highest first, lowest first. */
  function Contents(a: Archive, hashes: seq<Hash>): (blocks: seq<Block>)
    requires Held(a, hashes)
  {
    if hashes == [] then [] else Contents(a, hashes[1..]) + [a.contents[hashes[0]]]
  }

  lemma {:induction false} ContentIn(a: Archive, hashes: seq<Hash>, b: Block)
    requires Held(a, hashes) && b in Contents(a, hashes)
    ensures b.hash in hashes
  {
    if b != a.contents[hashes[0]] {
      ContentIn(a, hashes[1..], b);
    }
  }

  /** The loop that reads the contents of a branch: it fails if a block is not on disk or cannot be read. */
  method ReadBranch(a: Archive, inFork: seq<Hash>, readable: Hash -> bool, ghost path: seq<Hash>)
    returns (blocks: Option<seq<Block>>)
    requires inFork == Reversed(path) && forall h :: h in a.contents ==> a.contents[h].hash == h
    ensures blocks.Some? <==> forall h :: h in path ==> h in a.contents && readable(h)
    ensures blocks.Some? ==> Held(a, path) && blocks.value == Contents(a, path)
  {
    var read := [];
    assert path[|path|..] == [];
    for i := 0 to |inFork|
      invariant forall h :: h in path[|path| - i..] ==> readable(h)
      invariant Held(a, path[|path| - i..]) && read == Contents(a, path[|path| - i..])
    {
      ghost var rest := path[|path| - i - 1..];
      assert rest[1..] == path[|path| - i..] && rest[0] == inFork[i];
      assert inFork[i] == path[|path| - 1 - i] && inFork[i] in path;
      if inFork[i] !in a.contents || !readable(inFork[i]) {
        return None;
      }
      read := read + [a.contents[inFork[i]]];
    }
    assert path[0..] == path;
    blocks := Some(read);
  }

  lemma PathHeld(a: Archive, tip: Hash, base: Hash)
    requires ArchiveOk(a) && tip in a.t && Archived(a, tip) && IsAncestor(a.t, a.root, base, tip)
    ensures Held(a, Path(a.t, a.root, tip, base))
  {
    var path := Path(a.t, a.root, tip, base);
    forall i | 0 <= i < |path|
      ensures path[i] in a.contents && a.contents[path[i]].hash == path[i]
    {
      PathAt(a.t, a.root, tip, base, i);
      assert path[i] in path;
      BelowArchived(a, path[i], tip);
      AboveHere(a, path[i]);
      ContentsHere(a, path[i]);
    }
  }

  /** The branch below a new block can be read exactly if the block it is put on is on disk. */
  lemma BranchArchived(a: Archive, prev: Hash, base: Hash)
    requires ArchiveOk(a) && prev in a.t && IsAncestor(a.t, a.root, base, prev) && Archived(a, base)
    ensures Archived(a, prev) <==> forall h :: h in Path(a.t, a.root, prev, base) ==> h in a.contents
  {
    if Archived(a, prev) {
      PathHeld(a, prev, base);
    } else {
      PathHead(a.t, a.root, prev, base);
    }
  }

  /** A chain is the chain of any of its blocks and the blocks above that one. */
  lemma {:induction false} MainSplit(a: Archive, tip: Hash, base: Hash)
    requires ArchiveOk(a) && tip in a.t && Archived(a, tip) && IsAncestor(a.t, a.root, base, tip)
    ensures base in a.t && Archived(a, base) && Held(a, Path(a.t, a.root, tip, base))
    ensures MainBlocks(a, tip) == MainBlocks(a, base) + Contents(a, Path(a.t, a.root, tip, base))
    decreases a.t[tip].height
  {
    PathHeld(a, tip, base);
    BelowArchived(a, base, tip);
    if tip != base {
      ProperAncestor(a.t, a.root, base, tip);
      var below := a.t[tip].prev.value;
      AboveHere(a, tip);
      ReplayStep(a, tip);
      MainSplit(a, below, base);
      assert Path(a.t, a.root, tip, base)[1..] == Path(a.t, a.root, below, base);
      hide MainBlocks, Path, ArchiveOk, IsAncestor, Replay;
      Associates(MainBlocks(a, base), Contents(a, Path(a.t, a.root, below, base)), [a.contents[tip]]);
    }
  }

  /** The blocks of a chain are the ancestors of its tip. */
  lemma {:induction false} MainHashes(a: Archive, tip: Hash)
    requires ArchiveOk(a) && tip in a.t && Archived(a, tip)
    ensures forall b :: b in MainBlocks(a, tip) ==> b.hash in a.t && IsAncestor(a.t, a.root, b.hash, tip)
    decreases a.t[tip].height
  {
    assert LinkOk(a.t, a.root, tip);
    if tip != a.root {
      ContentsHere(a, tip);
      MainHashes(a, a.t[tip].prev.value);
      forall b | b in MainBlocks(a, tip)
        ensures b.hash in a.t && IsAncestor(a.t, a.root, b.hash, tip)
      {
        if b in MainBlocks(a, a.t[tip].prev.value) {
          AncestorTransitive(a.t, a.root, b.hash, a.t[tip].prev.value, tip);
        }
      }
    }
  }

  lemma {:induction false} RulesStored(store: map<Hash, Tx>, heightOf: Tx -> nat, first: nat, blocks: seq<Block>)
    requires ChainRules(store, heightOf, first, blocks)
    ensures AllStored(store, AllTxs(blocks))
  {
    forall tx | tx in AllTxs(blocks)
      ensures tx.hash in store && store[tx.hash] == tx
    {
      var k := InSomeBlock(blocks, tx);
      assert BlockRules(store, heightOf, first + k, blocks[k]);
    }
  }

  function OutputCounts(store: map<Hash, Tx>): map<Hash, nat> {
    map h | h in store :: |store[h].outs|
  }

  /** What the check sees: the index, the heights of all blocks, the main chain, and the number of outputs
      of every transaction. */
  function SceneOf(a: Archive, base: Index, db: Index, main: set<Hash>, ancestor: Hash): Scene
    requires ancestor in a.t
  {
    Scene(base, db, map h | h in a.t :: a.t[h].height, main, a.t[ancestor].height, OutputCounts(a.store))
  }

  /** An output spent in the index of a chain is marked with a block of that chain. */
  ghost predicate SpenderBelow(a: Archive, idx: Index, tip: Hash, o: OutPoint)
    requires WellFormed(a.t, a.root) && tip in a.t && IsSpent(idx, o)
  {
    idx[o.hash].spent[o.n].value in a.t && IsAncestor(a.t, a.root, idx[o.hash].spent[o.n].value, tip)
  }

  lemma SpentByChain(a: Archive, tip: Hash)
    requires ArchiveOk(a) && tip in a.t && Archived(a, tip) && Replay(a, tip).Some?
    ensures forall o :: IsSpent(Replay(a, tip).value, o) ==> SpenderBelow(a, Replay(a, tip).value, tip, o)
  {
    var blocks, idx := MainBlocks(a, tip), Replay(a, tip).value;
    var later := set b | b in blocks :: b.hash;
    GrewByBlocks(map[], blocks, later);
    MainHashes(a, tip);
    forall o | IsSpent(idx, o)
      ensures SpenderBelow(a, idx, tip, o)
    {
      assert SpentSince(map[], idx, later, o);
    }
  }

  /** `main` are the blocks of the chain up to `best`. */
  ghost predicate IsMain(a: Archive, main: set<Hash>, best: Hash)
    requires WellFormed(a.t, a.root) && best in a.t
  {
    forall h :: h in main <==> h in a.t && IsAncestor(a.t, a.root, h, best)
  }

  /** The index of the main chain and that of any of its blocks make a scene for the check; in particular
      every spender is a block of the main chain, so looking one up there never fails. */
  lemma SceneOfChain(a: Archive, supply: map<Hash, int>, best: Hash, main: set<Hash>, ancestor: Hash, base: Index,
                     db: Index)
    requires ArchiveOk(a) && SuppliesRight(a, supply) && best in supply && best in a.t && Archived(a, best)
    requires IsAncestor(a.t, a.root, ancestor, best) && ancestor in a.t && Archived(a, ancestor)
    requires Replay(a, best) == Some(db) && Replay(a, ancestor) == Some(base) && IsMain(a, main, best)
    ensures var s := SceneOf(a, base, db, main, ancestor);
            SceneOk(s) && SpendCheck.Fits(s, base)
  {
    hide ArchiveOk, WellFormed, IsAncestor, Path, Contents, Held, MainBlocks, SuppliesRight, ChainRules, SceneOk,
         IsMain;
    ArchiveTree(a);
    SupplyBelow(a, supply, ancestor, best);
    SupplyHere(a, supply, ancestor);
    MainSplit(a, best, ancestor);
    var s, blocks := SceneOf(a, base, db, main, ancestor), Contents(a, Path(a.t, a.root, best, ancestor));
    MainRules(a, best);
    RulesStored(a.store, a.heightOf, 1, MainBlocks(a, best));
    AllTxsConcat(MainBlocks(a, ancestor), blocks);
    FreshAbove(a.store, a.heightOf, 1, MainBlocks(a, ancestor), blocks);
    SpendersBelow(a, best, main, ancestor);
    BlocksAbove(a, best, main, ancestor);
    hide Replay, ConnectBlocks, AllTxs;
    SceneFromChain(s, blocks);
  }

  /** Outputs spent at `ancestor` are marked with main-chain blocks no higher than it. */
  lemma SpendersBelow(a: Archive, best: Hash, main: set<Hash>, ancestor: Hash)
    requires ArchiveOk(a) && best in a.t && IsMain(a, main, best)
    requires IsAncestor(a.t, a.root, ancestor, best) && ancestor in a.t && Archived(a, ancestor)
    requires Replay(a, ancestor).Some?
    ensures var base := Replay(a, ancestor).value;
            forall o :: IsSpent(base, o) ==>
              && base[o.hash].spent[o.n].value in a.t && base[o.hash].spent[o.n].value in main
              && a.t[base[o.hash].spent[o.n].value].height <= a.t[ancestor].height
  {
    SpentByChain(a, ancestor);
    var base := Replay(a, ancestor).value;
    forall o | IsSpent(base, o)
      ensures base[o.hash].spent[o.n].value in a.t && base[o.hash].spent[o.n].value in main
              && a.t[base[o.hash].spent[o.n].value].height <= a.t[ancestor].height
    {
      assert SpenderBelow(a, base, ancestor, o);
      AncestorBounds(a.t, a.root, base[o.hash].spent[o.n].value, ancestor);
      AncestorTransitive(a.t, a.root, base[o.hash].spent[o.n].value, ancestor, best);
    }
  }

  lemma BlocksAbove(a: Archive, best: Hash, main: set<Hash>, ancestor: Hash)
    requires ArchiveOk(a) && best in a.t && Archived(a, best) && IsMain(a, main, best)
    requires IsAncestor(a.t, a.root, ancestor, best) && ancestor in a.t
    ensures Held(a, Path(a.t, a.root, best, ancestor))
    ensures forall b :: b in Contents(a, Path(a.t, a.root, best, ancestor)) ==>
              b.hash in a.t && b.hash in main && a.t[b.hash].height > a.t[ancestor].height
  {
    PathHeld(a, best, ancestor);
    forall b | b in Contents(a, Path(a.t, a.root, best, ancestor))
      ensures b.hash in a.t && b.hash in main && a.t[b.hash].height > a.t[ancestor].height
    {
      ContentIn(a, Path(a.t, a.root, best, ancestor), b);
      BetweenHeights(a.t, a.root, ancestor, b.hash, best);
    }
  }

  /** The branch that `prev` ends and a block on top of it that keeps the rules are what the check works on. */
  lemma ReadyHere(a: Archive, prev: Hash, ancestor: Hash, block: Block, base: Index, db: Index, main: set<Hash>)
    requires ArchiveOk(a) && prev in a.t && Archived(a, prev) && Replay(a, prev).Some?
    requires BlockRules(a.store, a.heightOf, a.t[prev].height + 1, block)
    requires ancestor in a.t && Archived(a, ancestor) && IsAncestor(a.t, a.root, ancestor, prev)
    requires Replay(a, ancestor) == Some(base) && SceneOk(SceneOf(a, base, db, main, ancestor))
    ensures Held(a, Path(a.t, a.root, prev, ancestor))
    ensures var branch := Contents(a, Path(a.t, a.root, prev, ancestor));
            && BranchReady(SceneOf(a, base, db, main, ancestor), branch, block)
            && ConnectBlocks(base, branch) == Replay(a, prev)
  {
    hide SceneOk, ArchiveOk, WellFormed, IsAncestor, Path, Contents, Held, BranchReady, MainBlocks, ChainRules,
         ConnectBlocks, BlockRules;
    ArchiveTree(a);
    MainSplit(a, prev, ancestor);
    MainRules(a, prev);
    ChainReady(a.store, a.heightOf, MainBlocks(a, ancestor), Contents(a, Path(a.t, a.root, prev, ancestor)), block,
               SceneOf(a, base, db, main, ancestor));
  }

  /** The same for any chain, cut in two. */
  lemma ChainReady(store: map<Hash, Tx>, heightOf: Tx -> nat, below: seq<Block>, branch: seq<Block>, block: Block,
                   s: Scene)
    requires ChainRules(store, heightOf, 1, below + branch) && ConnectBlocks(map[], below + branch).Some?
    requires BlockRules(store, heightOf, 1 + |below + branch|, block)
    requires ConnectBlocks(map[], below) == Some(s.base) && SceneOk(s) && s.width == OutputCounts(store)
    ensures BranchReady(s, branch, block) && ConnectBlocks(s.base, branch) == ConnectBlocks(map[], below + branch)
  {
    hide SceneOk, ConnectBlocks, AllTxs, ChainRules, Ids, Widths;
    FreshAbove(store, heightOf, 1, below, branch);
    AllTxsConcat(below, branch);
    RulesStored(store, heightOf, 1, below + branch);
    StoredWidths(store, AllTxs(below), AllTxs(branch), block.txs, s);
    forall tx | tx in block.txs
      ensures FreshOrSpent(ConnectBlocks(s.base, branch).value, tx)
    {
      if tx.hash in ConnectBlocks(s.base, branch).value {
        RepeatIsSpent(store, heightOf, below + branch, block, tx);
        assert Spends(tx)[0] in Spends(tx);
      }
    }
  }

  lemma StoredWidths(store: map<Hash, Tx>, past: seq<Tx>, txs: seq<Tx>, more: seq<Tx>, s: Scene)
    requires AllStored(store, past + txs) && AllStored(store, more)
    requires s.width == OutputCounts(store)
    ensures Widths(s, txs + more)
  {
    forall tx | tx in txs + more
      ensures tx.hash in s.width && |tx.outs| == s.width[tx.hash]
    {
      assert tx in past + txs || tx in more;
    }
  }

  /** If the block replays, its ids are new. */
  lemma ReplayedIsFresh(store: map<Hash, Tx>, heightOf: Tx -> nat, below: seq<Block>, branch: seq<Block>, block: Block,
                        s: Scene)
    requires ChainRules(store, heightOf, 1, below + branch) && BlockRules(store, heightOf, 1 + |below + branch|, block)
    requires ConnectBlocks(map[], below) == Some(s.base) && BranchReady(s, branch, block)
    requires ConnectBlocks(map[], below + branch) == ConnectBlocks(s.base, branch)
    requires ConnectTxs(ConnectBlocks(s.base, branch).value, block.txs, block.hash).Some?
    ensures BranchFresh(s, branch, block)
  {
    hide ConnectTxs, ConnectBlocks, BlockRules, SceneOk;
    var above := branch + [block];
    assert below + above == (below + branch) + [block] && above[..|branch|] == branch;
    ConnectBlocksLast(map[], below + branch, block);
    FreshAbove(store, heightOf, 1, below, above);
    assert AllTxs(above) == AllTxs(branch) + block.txs;
  }

  /** What the check says of a block compared with the replay of its chain: a block that passes replays exactly
      if its inputs name outputs of its own chain, and a block that replays passes exactly if it spends no branch
      coinbase that was never queued. */
  lemma VerdictVersusReplay(a: Archive, prev: Hash, ancestor: Hash, block: Block, base: Index, db: Index,
                            main: set<Hash>, branch: seq<Block>)
    requires ArchiveOk(a) && prev in a.t && Archived(a, prev) && Replay(a, prev).Some?
    requires BlockRules(a.store, a.heightOf, a.t[prev].height + 1, block)
    requires ancestor in a.t && Archived(a, ancestor) && IsAncestor(a.t, a.root, ancestor, prev)
    requires Replay(a, ancestor) == Some(base) && SceneOk(SceneOf(a, base, db, main, ancestor))
    requires MainBlocks(a, prev) == MainBlocks(a, ancestor) + branch
    ensures var width := OutputCounts(a.store);
            var passes := InputsFree(width, db.Keys + Queued(AllTxs(branch)), Replay(a, prev).value, block.txs);
            var replays := ConnectTxs(Replay(a, prev).value, block.txs, block.hash).Some?;
            && (passes ==> (replays <==> InputsExist(width, Replay(a, prev).value.Keys, block.txs)))
            && (replays ==> (passes <==> Hashes(AllSpends(block.txs)) !! Unqueued(db, AllTxs(branch))))
  {
    hide SceneOk, ArchiveOk, WellFormed, IsAncestor, Path, Contents, Held, BranchReady, MainBlocks, ChainRules,
         ConnectBlocks, BlockRules, ConnectTxs, InputsExist, AllFound, BranchFresh, Unqueued, Hashes, AllSpends,
         NoDoubleSpend, Queued, AllTxs;
    var s := SceneOf(a, base, db, main, ancestor);
    ArchiveTree(a);
    ReadyHere(a, prev, ancestor, block, base, db, main);
    MainSplit(a, prev, ancestor);
    SameTail(MainBlocks(a, ancestor), branch, Contents(a, Path(a.t, a.root, prev, ancestor)));
    MainRules(a, prev);
    if NoDoubleSpend(Replay(a, prev).value, AllSpends(block.txs)) {
      PassedIsFresh(s, branch, block);
      CheckVersusReplay(s, branch, block);
    }
    if ConnectTxs(Replay(a, prev).value, block.txs, block.hash).Some? {
      ReplayedIsFresh(a.store, a.heightOf, MainBlocks(a, ancestor), branch, block, s);
      CheckVersusReplay(s, branch, block);
    }
  }

  lemma SameTail<T>(a: seq<T>, b: seq<T>, c: seq<T>)
    requires a + b == a + c
    ensures b == c
  {
    assert b == (a + b)[|a|..] && c == (a + c)[|a|..];
  }
}
