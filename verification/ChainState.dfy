/** The node's view of the block chain: the block tree, the main-chain links, the best
    block, the block-by-height cache and the synchronized checkpoint, with the operations
    that change them.  The database is reduced to the answers it gives. */
module ChainState {
  import opened Basics
  import opened BlockTree
  import opened MainChain

  /** What the database answers during one `SetBestChain`: whether the transaction can be
      begun and committed, and whether a block can be read and then disconnected, connected,
      or connected after the reorganisation. */
  datatype Storage = Storage(
    begins: bool,
    commits: bool,
    disconnects: Hash -> bool,
    connects: Hash -> bool,
    connectsLater: Hash -> bool)

  datatype CheckpointMode = Strict | Advisory | Permissive

  /** A block offered to the node; `work` is its own share of the chain trust. */
  datatype NewBlock = NewBlock(hash: Hash, prev: Hash, work: nat)

  /** A database as it answers inside a transaction of the caller: nothing is begun or committed. */
  function Within(db: Storage): Storage {
    db.(begins := true, commits := true)
  }

  /** What the parts outside this model answer while one message is processed: the checks
      that leave the chain alone and the start of `WriteToDisk`, the database for the block
      itself, and the reads, the database and the final write for a checkpoint. */
  datatype Answers = Answers(
    blockChecks: bool,
    modifierChecks: bool,
    storage: Storage,
    readsCheckpoint: bool,
    checkpointStorage: Storage,
    writesCheckpoint: bool)

  /** The messages that drive the node. */
  datatype Event =
    | BlockArrives(block: NewBlock, answers: Answers)
    | CheckpointArrives(checkpoint: Hash, signed: bool, answers: Answers)
    | PendingCheckpoint(answers: Answers)

  /** No postponed block fails to connect. */
  ghost predicate ConnectsAll(answers: Answers) {
    forall b :: answers.storage.connectsLater(b) && answers.checkpointStorage.connectsLater(b)
  }

  /** The lowest block of the branch ending in `top` that alone outweighs `trust`
      (or `top` itself): reorganising stops there, the blocks above are postponed. */
  ghost function SwitchPoint(t: Tree, root: Hash, top: Hash, trust: nat): (s: Hash)
    requires WellFormed(t, root) && top in t
    ensures s in t && IsAncestor(t, root, s, top)
    decreases t[top].height
  {
    assert LinkOk(t, root, top);
    if t[top].prev.Some? && t[t[top].prev.value].trust > trust then
      PrevIsAncestor(t, root, top);
      var s := SwitchPoint(t, root, t[top].prev.value, trust);
      AncestorTransitive(t, root, s, t[top].prev.value, top);
      s
    else
      top
  }

  /** The database lets the node leave `tip` for `top` when they part at `fork`. */
  ghost predicate CanSwitch(t: Tree, root: Hash, tip: Hash, fork: Hash, top: Hash, db: Storage)
    requires WellFormed(t, root) && tip in t && top in t
    requires IsAncestor(t, root, fork, tip) && IsAncestor(t, root, fork, top)
  {
    && (forall b :: b in Path(t, root, tip, fork) ==> db.disconnects(b))
    && (forall b :: b in Path(t, root, top, fork) ==> db.connects(b))
    && db.commits
  }

  /** The node can leave `tip` for `s` by way of `fork`, where they part. */
  ghost predicate SwitchesAt(t: Tree, root: Hash, tip: Hash, fork: Hash, s: Hash, db: Storage)
    requires WellFormed(t, root) && tip in t && s in t
  {
    IsGreatestCommonAncestor(t, root, fork, tip, s) && CanSwitch(t, root, tip, fork, s, db)
  }

  /** The node can make `top` its best block: by connecting it to the tip, or by switching to the
      lowest block of its branch that outweighs the best chain. */
  ghost predicate CanAdvance(t: Tree, root: Hash, tip: Hash, trust: nat, top: Hash, db: Storage)
    requires WellFormed(t, root) && tip in t && top in t
  {
    db.begins &&
    if t[top].prev == Some(tip) then db.connects(top) && db.commits
    else exists fork :: SwitchesAt(t, root, tip, fork, SwitchPoint(t, root, top, trust), db)
  }

  /** Every block that is postponed on the way to `top` is connected. */
  ghost predicate ConnectsRest(t: Tree, root: Hash, tip: Hash, trust: nat, top: Hash, db: Storage)
    requires WellFormed(t, root) && tip in t && top in t
  {
    || t[top].prev == Some(tip)
    || forall b :: b in Path(t, root, top, SwitchPoint(t, root, top, trust)) ==> db.connectsLater(b)
  }

  lemma GreatestUnique(t: Tree, root: Hash, a: Hash, b: Hash, x: Hash, y: Hash)
    requires WellFormed(t, root) && x in t && y in t
    requires IsGreatestCommonAncestor(t, root, a, x, y) && IsGreatestCommonAncestor(t, root, b, x, y)
    ensures a == b
  {
    AncestorBounds(t, root, a, b);
    AncestorBounds(t, root, b, a);
  }

  lemma AdvancesAt(t: Tree, root: Hash, tip: Hash, trust: nat, top: Hash, db: Storage, fork: Hash)
    requires WellFormed(t, root) && tip in t && top in t && t[top].prev != Some(tip) && db.begins
    requires IsGreatestCommonAncestor(t, root, fork, tip, SwitchPoint(t, root, top, trust))
    ensures CanAdvance(t, root, tip, trust, top, db) <==>
            CanSwitch(t, root, tip, fork, SwitchPoint(t, root, top, trust), db)
  {
    var s := SwitchPoint(t, root, top, trust);
    assert SwitchesAt(t, root, tip, fork, s, db) <==> CanSwitch(t, root, tip, fork, s, db);
    if CanAdvance(t, root, tip, trust, top, db) {
      var f :| SwitchesAt(t, root, tip, f, s, db);
      GreatestUnique(t, root, f, fork, tip, s);
    }
  }

  /** `c` is below both `x` and `y`. */
  ghost predicate Common(t: Tree, root: Hash, c: Hash, x: Hash, y: Hash)
    requires WellFormed(t, root) && x in t && y in t
  {
    c in t && IsAncestor(t, root, c, x) && IsAncestor(t, root, c, y)
  }

  lemma EmptyPath(t: Tree, root: Hash, tip: Hash)
    requires WellFormed(t, root) && tip in t
    ensures IsAncestor(t, root, tip, tip) && Path(t, root, tip, tip) == []
  {
  }

  /** The tree with one more block indexed. */
  function Grown(t: Tree, b: NewBlock): Tree
    requires b.prev in t
  {
    t[b.hash := Entry(Some(b.prev), t[b.prev].height + 1, t[b.prev].trust + b.work)]
  }

  lemma GrownWellFormed(t: Tree, root: Hash, b: NewBlock)
    requires WellFormed(t, root) && b.prev in t && b.hash !in t
    ensures WellFormed(Grown(t, b), root) && Extends(t, Grown(t, b))
  {
    forall h | h in Grown(t, b)
      ensures LinkOk(Grown(t, b), root, h)
    {
      if h != b.hash {
        assert LinkOk(t, root, h);
      }
    }
  }

  /** A new block on the checkpointed branch keeps the best block on it. */
  lemma GrownFinal(t: Tree, root: Hash, b: NewBlock, sync: Hash, tip: Hash)
    requires WellFormed(t, root) && b.prev in t && b.hash !in t && tip in t
    requires IsAncestor(t, root, sync, b.prev) && IsAncestor(t, root, sync, tip)
    ensures WellFormed(Grown(t, b), root)
    ensures IsAncestor(Grown(t, b), root, sync, tip) && IsAncestor(Grown(t, b), root, sync, b.hash)
  {
    GrownWellFormed(t, root, b);
    AncestorExtends(t, Grown(t, b), root, sync, tip);
    AncestorExtends(t, Grown(t, b), root, sync, b.prev);
  }

  class Chain {
    const genesis: Hash
    const testnet: bool
    const mode: CheckpointMode

    var index: Tree
    var next: Links
    var best: Hash
    var bestHeight: nat
    var bestTrust: nat
    var lastFound: Option<Hash>
    var syncCheckpoint: Hash
    var pendingCheckpoint: Hash
    var invalidCheckpoint: Hash

    /** What every operation keeps, whatever the database answers. */
    ghost predicate Valid()
      reads this
    {
      && WellFormed(index, genesis)
      && best in index
      && bestHeight == index[best].height
      && bestTrust == index[best].trust
      && LinksSound(index, genesis, next, best)
      && (lastFound.Some? ==> lastFound.value in index && IsAncestor(index, genesis, lastFound.value, best))
      && syncCheckpoint in index
    }

    /** Every block of the main chain below the tip has its `pnext`. */
    ghost predicate Complete()
      requires Valid()
      reads this
    {
      LinksComplete(index, genesis, next, best)
    }

    /** The best block has not left the checkpointed branch. */
    ghost predicate Final()
      requires Valid()
      reads this
    {
      IsAncestor(index, genesis, syncCheckpoint, best)
    }

    constructor (genesisHash: Hash, genesisTrust: nat, onTestnet: bool, checkpointMode: CheckpointMode)
      ensures genesis == genesisHash && testnet == onTestnet && mode == checkpointMode
      ensures Valid() && Complete() && Final()
      ensures index == map[genesisHash := Entry(None, 0, genesisTrust)]
      ensures best == genesisHash && syncCheckpoint == genesisHash && pendingCheckpoint == 0
    {
      genesis, testnet, mode := genesisHash, onTestnet, checkpointMode;
      index := map[genesisHash := Entry(None, 0, genesisTrust)];
      next := map[];
      best, bestHeight, bestTrust := genesisHash, 0, genesisTrust;
      lastFound := None;
      syncCheckpoint, pendingCheckpoint, invalidCheckpoint := genesisHash, 0, 0;
    }

    /** The walk at the start of `Reorganize`; its two null-pointer exits cannot be taken. */
    method FindFork(top: Hash) returns (fork: Hash)
      requires Valid() && top in index
      ensures IsGreatestCommonAncestor(index, genesis, fork, best, top)
    {
      fork := best;
      var longer := top;
      while fork != longer
        invariant fork in index && IsAncestor(index, genesis, fork, best)
        invariant longer in index && IsAncestor(index, genesis, longer, top)
        invariant forall c :: Common(index, genesis, c, best, top) ==> Common(index, genesis, c, fork, longer)
        decreases index[fork].height + index[longer].height
      {
        ghost var before := index[longer].height;
        while index[longer].height > index[fork].height
          invariant longer in index && IsAncestor(index, genesis, longer, top)
          invariant index[longer].height <= before
          invariant forall c :: Common(index, genesis, c, best, top) ==> Common(index, genesis, c, fork, longer)
          decreases index[longer].height
        {
          assert LinkOk(index, genesis, longer);
          forall c | Common(index, genesis, c, fork, longer)
            ensures Common(index, genesis, c, fork, index[longer].prev.value)
          {
            AncestorBounds(index, genesis, c, fork);
          }
          PrevIsAncestor(index, genesis, longer);
          AncestorTransitive(index, genesis, index[longer].prev.value, longer, top);
          longer := index[longer].prev.value;
        }
        if fork == longer {
          break;
        }
        StepFork(fork, longer);
        AncestorTransitive(index, genesis, index[fork].prev.value, fork, best);
        fork := index[fork].prev.value;
      }
      forall c | c in index && IsAncestor(index, genesis, c, best) && IsAncestor(index, genesis, c, top)
        ensures IsAncestor(index, genesis, c, fork)
      {
        assert Common(index, genesis, c, best, top);
      }
    }

    lemma StepFork(fork: Hash, longer: Hash)
      requires Valid() && fork in index && longer in index && fork != longer
      requires index[longer].height <= index[fork].height
      ensures index[fork].prev.Some? && index[fork].prev.value in index
      ensures index[index[fork].prev.value].height < index[fork].height
      ensures IsAncestor(index, genesis, index[fork].prev.value, fork)
      ensures forall c :: Common(index, genesis, c, fork, longer) ==>
                          Common(index, genesis, c, index[fork].prev.value, longer)
    {
      assert LinkOk(index, genesis, fork) && LinkOk(index, genesis, longer);
      PrevIsAncestor(index, genesis, fork);
      forall c | Common(index, genesis, c, fork, longer)
        ensures Common(index, genesis, c, index[fork].prev.value, longer)
      {
        AncestorBounds(index, genesis, c, longer);
      }
    }

    /** The loops that list what to disconnect and what to connect. */
    method CollectPath(tip: Hash, base: Hash) returns (path: seq<Hash>)
      requires Valid() && tip in index && IsAncestor(index, genesis, base, tip)
      ensures path == Path(index, genesis, tip, base)
    {
      path := [];
      var b := tip;
      while b != base
        invariant b in index && IsAncestor(index, genesis, base, b)
        invariant path + Path(index, genesis, b, base) == Path(index, genesis, tip, base)
        decreases index[b].height
      {
        ProperAncestor(index, genesis, base, b);
        assert LinkOk(index, genesis, b);
        path := path + [b];
        b := index[b].prev.value;
      }
    }

    method Unlink(path: seq<Hash>)
      requires forall x :: x in path ==> x in index
      modifies this`next
      ensures Unlinked(index, old(next), path, next)
    {
      var i := 0;
      while i < |path|
        invariant 0 <= i <= |path|
        invariant Unlinked(index, old(next), path[..i], next)
      {
        var x := path[i];
        assert path[..i + 1] == path[..i] + [x];
        assert x in path[..i + 1];
        if index[x].prev.Some? {
          next := next - {index[x].prev.value};
        }
        i := i + 1;
      }
      assert path[..i] == path;
    }

    method Link(path: seq<Hash>)
      requires forall x :: x in path ==> x in index
      modifies this`next
      ensures Linked(index, old(next), path, next)
    {
      var i := |path|;
      while i > 0
        invariant 0 <= i <= |path|
        invariant Linked(index, old(next), path[i..], next)
      {
        i := i - 1;
        var x := path[i];
        assert path[i..] == [x] + path[i + 1..];
        assert x in path[i..];
        if index[x].prev.Some? {
          next := next[index[x].prev.value := x];
        }
      }
      assert path[i..] == path;
    }

    /** The database half of `Reorganize`: disconnects newest first, connects oldest first. */
    method RewriteDatabase(leaving: seq<Hash>, joining: seq<Hash>, db: Storage) returns (ok: bool)
      ensures ok <==> && (forall b :: b in leaving ==> db.disconnects(b))
                      && (forall b :: b in joining ==> db.connects(b))
                      && db.commits
    {
      var i := 0;
      while i < |leaving|
        invariant 0 <= i <= |leaving|
        invariant forall k :: 0 <= k < i ==> db.disconnects(leaving[k])
      {
        if !db.disconnects(leaving[i]) {
          return false;
        }
        i := i + 1;
      }
      i := |joining|;
      while i > 0
        invariant 0 <= i <= |joining|
        invariant forall k :: i <= k < |joining| ==> db.connects(joining[k])
      {
        i := i - 1;
        if !db.connects(joining[i]) {
          return false;
        }
      }
      ok := db.commits;
    }

    /** `Reorganize`: the in-memory links change only after every database step succeeded. */
    method Reorganize(top: Hash, db: Storage) returns (ok: bool, ghost fork: Hash)
      requires Valid() && top in index
      modifies this`next
      ensures IsGreatestCommonAncestor(index, genesis, fork, best, top)
      ensures ok <==> CanSwitch(index, genesis, best, fork, top, db)
      ensures !ok ==> next == old(next)
      ensures ok ==> Relinked(index, genesis, old(next), fork, top, next)
      ensures ok && old(Complete()) ==> LinksComplete(index, genesis, next, top)
    {
      var base := FindFork(top);
      fork := base;
      hide LinksSound, LinksComplete, Relinked, IsGreatestCommonAncestor;
      var leaving := CollectPath(best, base);
      var joining := CollectPath(top, base);
      ok := RewriteDatabase(leaving, joining, db);
      if ok {
        Unlink(leaving);
        ghost var between := next;
        Link(joining);
        ReorganisedLinks(index, genesis, old(next), best, fork, between, top, next);
      }
    }

    /** Splits the branch ending in `top` at the first block that outweighs the best chain. */
    method Postpone(top: Hash) returns (mid: Hash, postponed: seq<Hash>)
      requires Valid() && top in index
      ensures mid == SwitchPoint(index, genesis, top, bestTrust)
      ensures postponed == Path(index, genesis, top, mid)
    {
      postponed := [];
      mid := top;
      assert LinkOk(index, genesis, mid);
      while index[mid].prev.Some? && index[index[mid].prev.value].trust > bestTrust
        invariant mid in index && IsAncestor(index, genesis, mid, top)
        invariant LinkOk(index, genesis, mid)
        invariant SwitchPoint(index, genesis, mid, bestTrust) == SwitchPoint(index, genesis, top, bestTrust)
        invariant postponed == Path(index, genesis, top, mid)
        decreases index[mid].height
      {
        PathSnoc(index, genesis, top, mid);
        postponed := postponed + [mid];
        mid := index[mid].prev.value;
        assert LinkOk(index, genesis, mid);
      }
    }

    /** Connects the postponed blocks, lowest first, until one fails. */
    method ConnectPostponed(mid: Hash, postponed: seq<Hash>, top: Hash, db: Storage)
      returns (complete: bool, reached: Hash)
      requires WellFormed(index, genesis) && mid in index && top in index && IsAncestor(index, genesis, mid, top)
      requires postponed == Path(index, genesis, top, mid)
      requires LinksSound(index, genesis, next, mid)
      modifies this`next
      ensures reached in index && IsAncestor(index, genesis, reached, top)
      ensures LinksSound(index, genesis, next, reached)
      ensures complete <==> reached == top
      ensures complete <==> forall b :: b in postponed ==> db.connectsLater(b)
      ensures LinksComplete(index, genesis, old(next), mid) ==> LinksComplete(index, genesis, next, reached)
    {
      hide WellFormed, IsAncestor, Path, LinksSound, LinksComplete;
      reached := mid;
      var i := |postponed|;
      if mid != top {
        PathHead(index, genesis, top, mid);
      } else {
        EmptyPath(index, genesis, top);
      }
      while i > 0
        invariant 0 <= i <= |postponed|
        invariant reached == if i < |postponed| then postponed[i] else mid
        invariant reached in index && IsAncestor(index, genesis, reached, top)
        invariant LinksSound(index, genesis, next, reached)
        invariant forall k :: i <= k < |postponed| ==> db.connectsLater(postponed[k])
        invariant LinksComplete(index, genesis, old(next), mid) ==> LinksComplete(index, genesis, next, reached)
      {
        var b := postponed[i - 1];
        PathAt(index, genesis, top, mid, i - 1);
        assert b in postponed && IsBetween(index, genesis, mid, b, top);
        if !db.connectsLater(b) {
          PrevIsAncestor(index, genesis, b);
          AncestorBounds(index, genesis, b, top);
          return false, reached;
        }
        LinkOneSound(index, genesis, next, reached, b);
        next := next[reached := b];
        reached := b;
        i := i - 1;
      }
      complete := true;
    }

    /** `SetBestChain` for a block other than the first: extends the best chain, or
        reorganises to the branch and connects its postponed blocks one by one. */
    method SetBestChain(top: Hash, db: Storage) returns (ok: bool, complete: bool, ghost fork: Hash)
      requires Valid() && top in index
      modifies this`next, this`best, this`bestHeight, this`bestTrust, this`lastFound
      ensures Valid()
      ensures ok <==> CanAdvance(index, genesis, old(best), old(bestTrust), top, db)
      ensures var s := SwitchPoint(index, genesis, top, old(bestTrust));
              db.begins && index[top].prev != Some(old(best)) ==>
                && IsGreatestCommonAncestor(index, genesis, fork, old(best), s)
                && (ok <==> CanSwitch(index, genesis, old(best), fork, s, db))
                && (ok ==> (complete <==> forall b :: b in Path(index, genesis, top, s) ==> db.connectsLater(b)))
      ensures db.begins && index[top].prev == Some(old(best)) ==> (ok <==> db.connects(top) && db.commits)
      ensures index[top].prev == Some(old(best)) ==> complete
      ensures !ok ==> next == old(next) && best == old(best) && lastFound == old(lastFound)
      ensures ok ==> best == top && lastFound == None
      ensures ok && old(Complete()) ==> (Complete() <==> complete)
    {
      complete := true;
      fork := best;
      if !db.begins {
        return false, complete, fork;
      }
      if index[top].prev == Some(best) {
        if !db.connects(top) || !db.commits {
          return false, complete, fork;
        }
        LinkOneSound(index, genesis, next, best, top);
        next := next[best := top];
      } else {
        var mid, postponed := Postpone(top);
        var switched;
        switched, fork := Reorganize(mid, db);
        AdvancesAt(index, genesis, best, bestTrust, top, db, fork);
        if !switched {
          return false, complete, fork;
        }
        complete, mid := ConnectPostponed(mid, postponed, top, db);
        LinksBelowTip(index, genesis, next, mid, top);
      }
      best := top;
      bestHeight := index[top].height;
      bestTrust := index[top].trust;
      lastFound := None;
      ok := true;
    }

    /** `FindBlockByHeight`: from genesis, the tip or the last block found, whichever starts
        closest, along `pprev` or `pnext`. */
    method FindBlockByHeight(height: nat) returns (b: Hash)
      requires Valid() && Complete() && height <= bestHeight
      modifies this`lastFound
      ensures Valid()
      ensures b in index && index[b].height == height && IsAncestor(index, genesis, b, best)
      ensures lastFound == Some(b)
    {
      b := if height < bestHeight / 2 then genesis else best;
      if lastFound.Some? && Distance(height, index[b].height) > Distance(height, index[lastFound.value].height) {
        b := lastFound.value;
      }
      RootIsAncestor(index, genesis, best);
      while index[b].height > height
        invariant b in index && IsAncestor(index, genesis, b, best)
        decreases index[b].height
      {
        assert LinkOk(index, genesis, b);
        PrevIsAncestor(index, genesis, b);
        AncestorTransitive(index, genesis, index[b].prev.value, b, best);
        b := index[b].prev.value;
      }
      while index[b].height < height
        invariant b in index && IsAncestor(index, genesis, b, best) && index[b].height <= height
        decreases height - index[b].height
      {
        assert LinkSound(index, genesis, next, best, b);
        PrevIsAncestor(index, genesis, next[b]);
        b := next[b];
      }
      lastFound := Some(b);
    }

    /** `GetBlocksUpToCommonAncestorInMainChain` for a block on top of `prev`. */
    method BranchOf(prev: Hash) returns (inFork: seq<Hash>, ancestor: Hash)
      requires Valid() && Complete() && prev in index
      ensures IsGreatestCommonAncestor(index, genesis, ancestor, best, prev)
      ensures inFork == Reversed(Path(index, genesis, prev, ancestor))
    {
      inFork := [];
      ancestor := prev;
      InMainChainIff(index, genesis, next, best);
      RootIsAncestor(index, genesis, best);
      while !InMainChain(next, best, ancestor)
        invariant ancestor in index && IsAncestor(index, genesis, ancestor, prev)
        invariant forall c :: Common(index, genesis, c, best, prev) ==> Common(index, genesis, c, best, ancestor)
        invariant inFork == Path(index, genesis, prev, ancestor)
        decreases index[ancestor].height
      {
        assert LinkOk(index, genesis, ancestor);
        PathSnoc(index, genesis, prev, ancestor);
        inFork := inFork + [ancestor];
        ancestor := index[ancestor].prev.value;
      }
      forall c | c in index && IsAncestor(index, genesis, c, best) && IsAncestor(index, genesis, c, prev)
        ensures IsAncestor(index, genesis, c, ancestor)
      {
        assert Common(index, genesis, c, best, prev);
      }
      inFork := Reversed(inFork);
    }

    /** The loops that trace back from a block to a given height. */
    method TraceBack(from: Hash, height: nat) returns (b: Hash)
      requires Valid() && from in index && height <= index[from].height
      ensures b in index && index[b].height == height && IsAncestor(index, genesis, b, from)
    {
      b := from;
      while index[b].height > height
        invariant b in index && height <= index[b].height && IsAncestor(index, genesis, b, from)
        decreases index[b].height
      {
        assert LinkOk(index, genesis, b);
        PrevIsAncestor(index, genesis, b);
        AncestorTransitive(index, genesis, index[b].prev.value, b, from);
        b := index[b].prev.value;
      }
    }

    /** `ValidateSyncCheckpoint`: only a proper descendant of the current checkpoint passes;
        a block that is neither above nor below it is remembered as conflicting. */
    method ValidateSyncCheckpoint(h: Hash) returns (ok: bool)
      requires Valid()
      modifies this`invalidCheckpoint
      ensures ok <==> h in index && h != syncCheckpoint && IsAncestor(index, genesis, syncCheckpoint, h)
      ensures invalidCheckpoint ==
              if h in index && !IsAncestor(index, genesis, syncCheckpoint, h)
                  && !IsAncestor(index, genesis, h, syncCheckpoint)
              then h else old(invalidCheckpoint)
    {
      if h !in index {
        return false;
      }
      if index[h].height <= index[syncCheckpoint].height {
        var b := TraceBack(syncCheckpoint, index[h].height);
        TraceDecides(h, syncCheckpoint, b);
        if b != h {
          invalidCheckpoint := h;
        }
        return false;
      }
      var b := TraceBack(h, index[syncCheckpoint].height);
      TraceDecides(syncCheckpoint, h, b);
      if b != syncCheckpoint {
        invalidCheckpoint := h;
        return false;
      }
      return true;
    }

    /** The ancestor of `upper` at the height of `lower` decides whether `lower` is one. */
    lemma TraceDecides(lower: Hash, upper: Hash, b: Hash)
      requires Valid() && lower in index && upper in index && index[lower].height <= index[upper].height
      requires b in index && index[b].height == index[lower].height && IsAncestor(index, genesis, b, upper)
      ensures IsAncestor(index, genesis, lower, upper) <==> b == lower
      ensures IsAncestor(index, genesis, upper, lower) ==> upper == lower
    {
      if IsAncestor(index, genesis, lower, upper) {
        AncestorsLinear(index, genesis, lower, b, upper);
        AncestorBounds(index, genesis, lower, b);
      }
      if IsAncestor(index, genesis, upper, lower) {
        AncestorBounds(index, genesis, upper, lower);
      }
    }

    /** `CheckSync`: whether a block on top of `prev` respects the synchronized checkpoint. */
    method CheckSync(hash: Hash, prev: Hash) returns (ok: bool)
      requires Valid() && prev in index
      ensures testnet ==> ok
      ensures !testnet && index[prev].height >= index[syncCheckpoint].height ==>
                (ok <==> IsAncestor(index, genesis, syncCheckpoint, prev))
      ensures !testnet && index[prev].height + 1 == index[syncCheckpoint].height ==> (ok <==> hash == syncCheckpoint)
      ensures !testnet && index[prev].height + 1 < index[syncCheckpoint].height ==> (ok <==> hash in index)
    {
      if testnet {
        return true;
      }
      var height := index[prev].height + 1;
      if height > index[syncCheckpoint].height {
        var b := TraceBack(prev, index[syncCheckpoint].height);
        TraceDecides(syncCheckpoint, prev, b);
        if b != syncCheckpoint {
          return false;
        }
      }
      if height == index[syncCheckpoint].height && hash != syncCheckpoint {
        return false;
      }
      if height < index[syncCheckpoint].height && hash !in index {
        return false;
      }
      return true;
    }

    /** What an attempt to adopt checkpoint `h` may do: at most move the best block onto the
        checkpoint's branch and then the checkpoint itself. */
    twostate predicate Adopted(h: Hash, ok: bool)
      requires old(Valid()) && Valid()
      reads this
    {
      && index == old(index)
      && (ok <==> syncCheckpoint != old(syncCheckpoint))
      && (ok ==> syncCheckpoint == h && IsAncestor(index, genesis, h, best))
      && (ok ==> IsAncestor(index, genesis, old(syncCheckpoint), h))
      && (best != old(best) ==> best == h && IsAncestor(index, genesis, old(syncCheckpoint), h))
      && (best == old(best) ==> next == old(next))
      && (old(Final()) ==> Final())
    }

    /** The checkpoint block can be brought into the main chain, if it is not there, and written. */
    ghost predicate CanAdopt(h: Hash, answers: Answers)
      requires Valid() && h in index
      reads this
    {
      && (InMainChain(next, best, h) ||
          (answers.readsCheckpoint && CanAdvance(index, genesis, best, bestTrust, h, answers.checkpointStorage)))
      && answers.writesCheckpoint
    }

    /** The common end of `ProcessSyncCheckpoint` and `AcceptPendingSyncCheckpoint`: make the
        validated checkpoint part of the main chain, then write it. */
    method AdoptCheckpoint(h: Hash, answers: Answers) returns (ok: bool)
      requires Valid() && h in index && h != syncCheckpoint && IsAncestor(index, genesis, syncCheckpoint, h)
      modifies this`next, this`best, this`bestHeight, this`bestTrust, this`lastFound
      modifies this`syncCheckpoint, this`invalidCheckpoint
      ensures Valid()
      ensures Adopted(h, ok)
      ensures ok <==> old(CanAdopt(h, answers))
      ensures old(InMainChain(next, best, h)) ==> best == old(best)
      ensures invalidCheckpoint == old(invalidCheckpoint) || (invalidCheckpoint == h && !ok)
      ensures ConnectsAll(answers) && old(Complete()) ==> Complete()
    {
      if InMainChain(next, best, h) {
        InMainChainIsAncestor(index, genesis, next, best, h);
      } else {
        if !answers.readsCheckpoint {
          return false;
        }
        var switched;
        var complete;
        ghost var fork;
        switched, complete, fork := SetBestChain(h, answers.checkpointStorage);
        if !switched {
          invalidCheckpoint := h;
          return false;
        }
      }
      if !answers.writesCheckpoint {
        return false;
      }
      syncCheckpoint := h;
      ok := true;
    }

    /** `AcceptPendingSyncCheckpoint`. */
    method AcceptPendingSyncCheckpoint(answers: Answers) returns (ok: bool)
      requires Valid()
      modifies this`next, this`best, this`bestHeight, this`bestTrust, this`lastFound
      modifies this`syncCheckpoint, this`pendingCheckpoint, this`invalidCheckpoint
      ensures Valid()
      ensures Adopted(old(pendingCheckpoint), ok)
      ensures ok <==> && old(pendingCheckpoint) != 0 && old(pendingCheckpoint) in index
                      && old(pendingCheckpoint) != old(syncCheckpoint)
                      && IsAncestor(index, genesis, old(syncCheckpoint), old(pendingCheckpoint))
                      && old(CanAdopt(pendingCheckpoint, answers))
      ensures ok ==> pendingCheckpoint == 0
      ensures pendingCheckpoint == 0 || pendingCheckpoint == old(pendingCheckpoint)
      ensures old(pendingCheckpoint) == 0 ==> best == old(best)
      ensures old(pendingCheckpoint) in index
              && !IsAncestor(index, genesis, old(syncCheckpoint), old(pendingCheckpoint)) ==>
                pendingCheckpoint == 0
      ensures ConnectsAll(answers) && old(Complete()) ==> Complete()
    {
      if pendingCheckpoint == 0 || pendingCheckpoint !in index {
        return false;
      }
      var valid := ValidateSyncCheckpoint(pendingCheckpoint);
      if !valid {
        pendingCheckpoint := 0;
        return false;
      }
      ok := AdoptCheckpoint(pendingCheckpoint, answers);
      if ok {
        pendingCheckpoint := 0;
      }
    }

    /** `ProcessSyncCheckpoint`: an unknown checkpoint block is kept pending. */
    method ProcessSyncCheckpoint(h: Hash, signed: bool, answers: Answers) returns (ok: bool)
      requires Valid()
      modifies this`next, this`best, this`bestHeight, this`bestTrust, this`lastFound
      modifies this`syncCheckpoint, this`pendingCheckpoint, this`invalidCheckpoint
      ensures Valid()
      ensures Adopted(h, ok)
      ensures ok <==> && signed && h in index && h != old(syncCheckpoint)
                      && IsAncestor(index, genesis, old(syncCheckpoint), h) && old(CanAdopt(h, answers))
      ensures ok ==> pendingCheckpoint == 0
      ensures !ok ==> pendingCheckpoint == if signed && h !in index then h else old(pendingCheckpoint)
      ensures ConnectsAll(answers) && old(Complete()) ==> Complete()
    {
      if !signed {
        return false;
      }
      if h !in index {
        pendingCheckpoint := h;
        return false;
      }
      var valid := ValidateSyncCheckpoint(h);
      if !valid {
        return false;
      }
      ok := AdoptCheckpoint(h, answers);
      if ok {
        pendingCheckpoint := 0;
      }
    }

    /** The part of `AddToBlockIndex` that enters a block into `mapBlockIndex`. */
    method Insert(b: NewBlock)
      requires Valid() && b.prev in index && b.hash !in index
      modifies this`index
      ensures Valid() && index == Grown(old(index), b)
      ensures old(Complete()) ==> Complete()
    {
      GrownWellFormed(index, genesis, b);
      LinksExtend(index, Grown(index, b), genesis, next, best);
      if lastFound.Some? {
        AncestorExtends(index, Grown(index, b), genesis, lastFound.value, best);
      }
      index := Grown(index, b);
    }

    /** `AddToBlockIndex` in the transaction of `WriteToDisk`: the block is indexed even when switching to
        it then fails. */
    method AddToBlockIndex(b: NewBlock, answers: Answers) returns (ok: bool)
      requires Valid() && b.prev in index
      modifies this`index, this`next, this`best, this`bestHeight, this`bestTrust, this`lastFound
      ensures Valid()
      ensures index == if b.hash !in old(index) && answers.modifierChecks
                       then Grown(old(index), b) else old(index)
      ensures best == old(best) || (best == b.hash && ok)
      ensures ok <==> && b.hash !in old(index) && answers.modifierChecks
                      && (index[b.hash].trust > old(bestTrust) ==>
                            CanAdvance(index, genesis, old(best), old(bestTrust), b.hash, Within(answers.storage)))
      ensures ok ==> best == if index[b.hash].trust > old(bestTrust) then b.hash else old(best)
      ensures best == old(best) ==> next == old(next)
      ensures ok && old(Complete()) ==>
                (Complete() <==> (best == b.hash ==>
                   ConnectsRest(index, genesis, old(best), old(bestTrust), b.hash, answers.storage)))
      ensures ConnectsAll(answers) && old(Complete()) ==> Complete()
    {
      if b.hash in index {
        return false;
      }
      if !answers.modifierChecks {
        return false;
      }
      Insert(b);
      if index[b.hash].trust > bestTrust {
        var complete;
        ghost var fork;
        ok, complete, fork := SetBestChain(b.hash, Within(answers.storage));
        if !ok {
          return;
        }
      }
      ok := true;
    }

    /** A new block on an indexed one, passing the checks outside this model; in strict mode, off the
        test network, on the branch of the checkpoint. */
    ghost predicate Indexes(b: NewBlock, answers: Answers)
      requires Valid()
      reads this
    {
      && b.hash !in index && b.prev in index && answers.blockChecks && answers.modifierChecks
      && (mode == Strict && !testnet ==> IsAncestor(index, genesis, syncCheckpoint, b.prev))
    }

    /** `AcceptBlock`: index a checked block, then look at the pending checkpoint again. */
    method AcceptBlock(b: NewBlock, answers: Answers) returns (ok: bool)
      requires Valid()
      modifies this`index, this`next, this`best, this`bestHeight, this`bestTrust, this`lastFound
      modifies this`syncCheckpoint, this`pendingCheckpoint, this`invalidCheckpoint
      ensures Valid()
      ensures index == old(index) || (b.hash !in old(index) && b.prev in old(index) && index == Grown(old(index), b))
      ensures index != old(index) <==> old(Indexes(b, answers))
      ensures ok <==> && old(Indexes(b, answers))
                      && (index[b.hash].trust > old(bestTrust) ==>
                            CanAdvance(index, genesis, old(best), old(bestTrust), b.hash, Within(answers.storage)))
      ensures ok && old(pendingCheckpoint) == 0 ==>
                && best == (if index[b.hash].trust > old(bestTrust) then b.hash else old(best))
                && pendingCheckpoint == 0
      ensures ok && old(pendingCheckpoint) == 0 && old(Complete()) ==>
                (Complete() <==> (best == b.hash ==>
                   ConnectsRest(index, genesis, old(best), old(bestTrust), b.hash, answers.storage)))
      ensures !old(Indexes(b, answers)) ==> best == old(best) && next == old(next)
      ensures best == old(best) || best == b.hash || best == old(pendingCheckpoint)
      ensures !ok ==> best == old(best) && next == old(next)
      ensures syncCheckpoint != old(syncCheckpoint) ==>
                ok && syncCheckpoint == old(pendingCheckpoint)
                    && IsAncestor(index, genesis, old(syncCheckpoint), syncCheckpoint)
      ensures mode == Strict && !testnet && old(Final()) ==> Final()
      ensures ConnectsAll(answers) && old(Complete()) ==> Complete()
    {
      hide CanAdvance, CanAdopt, ConnectsRest, LinksSound, LinksComplete, LinkOk, Extends;
      if b.hash in index || b.prev !in index || !answers.blockChecks {
        return false;
      }
      var satisfies := CheckSync(b.hash, b.prev);
      if IsAncestor(index, genesis, syncCheckpoint, b.prev) {
        AncestorBounds(index, genesis, syncCheckpoint, b.prev);
      }
      if mode == Strict && !satisfies {
        return false;
      }
      ok := AddToBlockIndex(b, answers);
      if mode == Strict && !testnet && old(Final()) && index != old(index) {
        GrownFinal(old(index), genesis, b, syncCheckpoint, old(best));
      }
      if ok {
        var adopted := AcceptPendingSyncCheckpoint(answers);
      }
    }

    /** One message. */
    method Handle(e: Event)
      requires Valid()
      modifies this
      ensures Valid()
      ensures Extends(old(index), index)
      ensures syncCheckpoint != old(syncCheckpoint) ==> IsAncestor(index, genesis, old(syncCheckpoint), syncCheckpoint)
      ensures mode == Strict && !testnet && old(Final()) ==> Final()
      ensures ConnectsAll(e.answers) && old(Complete()) ==> Complete()
    {
      var ok;
      match e
      case BlockArrives(b, answers) => ok := AcceptBlock(b, answers);
      case CheckpointArrives(h, signed, answers) => ok := ProcessSyncCheckpoint(h, signed, answers);
      case PendingCheckpoint(answers) => ok := AcceptPendingSyncCheckpoint(answers);
    }

    /** Checkpoint finality over any run: the checkpoints adopted one after the other only move
        up one branch of the tree, and the best block never leaves it.  If in addition every
        postponed block could be connected, the main-chain links stay exact. */
    method Run(events: seq<Event>) returns (syncs: seq<Hash>)
      requires Valid() && Final() && mode == Strict && !testnet
      modifies this
      ensures Valid() && Final()
      ensures |syncs| == |events| + 1 && syncs[0] == old(syncCheckpoint) && syncs[|events|] == syncCheckpoint
      ensures Rising(index, genesis, syncs)
      ensures Extends(old(index), index)
      ensures (forall k :: 0 <= k < |events| ==> ConnectsAll(events[k].answers)) && old(Complete()) ==> Complete()
    {
      syncs := [syncCheckpoint];
      var i := 0;
      while i < |events|
        invariant 0 <= i <= |events|
        invariant Valid() && Final()
        invariant |syncs| == i + 1 && syncs[0] == old(syncCheckpoint) && syncs[i] == syncCheckpoint
        invariant Rising(index, genesis, syncs)
        invariant Extends(old(index), index)
        invariant (forall k :: 0 <= k < |events| ==> ConnectsAll(events[k].answers)) && old(Complete()) ==> Complete()
      {
        ghost var t, before := index, syncs;
        Handle(events[i]);
        RisingStep(t, index, genesis, before, syncCheckpoint);
        syncs := syncs + [syncCheckpoint];
        i := i + 1;
      }
    }
  }

  /** Every block of the list is an ancestor of every later one. */
  ghost predicate Rising(t: Tree, root: Hash, hs: seq<Hash>) {
    && WellFormed(t, root)
    && (forall h :: h in hs ==> h in t)
    && (forall i, j :: 0 <= i < j < |hs| ==> IsAncestor(t, root, hs[i], hs[j]))
  }

  lemma RisingStep(t: Tree, t': Tree, root: Hash, hs: seq<Hash>, h: Hash)
    requires hs != [] && Rising(t, root, hs)
    requires WellFormed(t', root) && Extends(t, t') && h in t'
    requires IsAncestor(t', root, hs[|hs| - 1], h)
    ensures Rising(t', root, hs + [h])
  {
    var hs' := hs + [h];
    forall i, j | 0 <= i < j < |hs'|
      ensures IsAncestor(t', root, hs'[i], hs'[j])
    {
      var k := if j < |hs| then j else |hs| - 1;
      assert hs[k] in t;
      if i < k {
        AncestorExtends(t, t', root, hs[i], hs[k]);
      }
      if j == |hs| {
        AncestorTransitive(t', root, hs[i], hs[k], h);
      }
    }
  }

  function Distance(x: int, y: int): nat {
    if x < y then y - x else x - y
  }

  /** A run after which links are missing.  Block 2 is best, with much work; 3 and 4 are on a lighter branch.  A
      signed checkpoint makes 3 best.  Then 5 arrives on top of 4: the node reorganises to 4, connecting 5,
      which was postponed, fails, and 5 is best all the same. */
  method LosesLinks() returns (c: Chain, ok: bool)
    ensures c.Valid() && ok && c.best == 5 && !c.Complete()
  {
    hide WellFormed, LinksComplete, LinksSound, IsAncestor, CanAdvance, ConnectsRest, SwitchPoint, Path;
    c := ForkedChain();
    var db := Storage(true, true, _ => true, _ => true, b => b != 5);
    LateBlock(db);
    ok := c.AcceptBlock(NewBlock(5, 4, 1), Answers(true, true, db, true, db, true));
  }

  /** Blocks 2, 3 and 4 have arrived, and the checkpoint for 3. */
  method ForkedChain() returns (c: Chain)
    ensures fresh(c) && c.Valid() && c.Complete() && c.genesis == 1 && c.mode == Strict && !c.testnet
    ensures c.index == ForkedTree() && c.best == 3 && c.syncCheckpoint == 3 && c.pendingCheckpoint == 0
  {
    hide WellFormed, LinksComplete, LinksSound, IsAncestor, CanAdvance, ConnectsRest, SwitchPoint, Path;
    c := new Chain(1, 0, false, Strict);
    var db := Storage(true, true, _ => true, _ => true, _ => true);
    var answers := Answers(true, true, db, true, db, true);
    RootIsAncestor(c.index, 1, 1);
    FirstBlock(c.index, db);
    var r := c.AcceptBlock(NewBlock(2, 1, 10), answers);
    RootIsAncestor(c.index, 1, 1);
    r := c.AcceptBlock(NewBlock(3, 1, 1), answers);
    RootIsAncestor(c.index, 1, 3);
    r := c.AcceptBlock(NewBlock(4, 3, 1), answers);
    RootIsAncestor(c.index, 1, 3);
    CheckpointedBlock(db);
    r := c.ProcessSyncCheckpoint(3, true, answers);
  }

  function ForkedTree(): Tree {
    map[1 := Entry(None, 0, 0), 2 := Entry(Some(1), 1, 10), 3 := Entry(Some(1), 1, 1), 4 := Entry(Some(3), 2, 2)]
  }

  lemma FirstBlock(t: Tree, db: Storage)
    requires t == map[1 := Entry(None, 0, 0)] && db.connects(2)
    ensures WellFormed(Grown(t, NewBlock(2, 1, 10)), 1)
    ensures CanAdvance(Grown(t, NewBlock(2, 1, 10)), 1, 1, 0, 2, Within(db))
  {
    assert LinkOk(t, 1, 1);
    GrownWellFormed(t, 1, NewBlock(2, 1, 10));
  }

  lemma ForkedTreeOk()
    ensures WellFormed(ForkedTree(), 1)
  {
    var t := ForkedTree();
    assert LinkOk(t, 1, 1) && LinkOk(t, 1, 2) && LinkOk(t, 1, 3) && LinkOk(t, 1, 4);
  }

  /** The node can leave 2 for 3, which are both on the genesis block. */
  lemma CheckpointedBlock(db: Storage)
    requires db.begins && db.commits && forall b :: db.disconnects(b) && db.connects(b)
    ensures WellFormed(ForkedTree(), 1) && !IsAncestor(ForkedTree(), 1, 3, 2)
    ensures CanAdvance(ForkedTree(), 1, 2, 10, 3, db)
  {
    var t := ForkedTree();
    ForkedTreeOk();
    hide WellFormed;
    OnlyRootBelow(t, 2);
    OnlyRootBelow(t, 3);
    assert SwitchPoint(t, 1, 3, 10) == 3;
    assert IsGreatestCommonAncestor(t, 1, 1, 2, 3);
    assert SwitchesAt(t, 1, 2, 1, 3, db);
  }

  lemma OnlyRootBelow(t: Tree, b: Hash)
    requires WellFormed(t, 1) && b in t && t[b].prev == Some(1)
    ensures forall c :: IsAncestor(t, 1, c, b) <==> c == b || c == 1
  {
    forall c
      ensures IsAncestor(t, 1, c, b) <==> c == b || c == 1
    {
      assert IsAncestor(t, 1, c, b) <==> c == b || IsAncestor(t, 1, c, 1);
      assert IsAncestor(t, 1, c, 1) <==> c == 1;
    }
  }

  /** The node can leave 3 for 5 by way of 4, and 5 is postponed. */
  lemma LateBlock(db: Storage)
    requires (forall b :: db.disconnects(b) && db.connects(b)) && !db.connectsLater(5)
    ensures WellFormed(ForkedTree(), 1) && IsAncestor(ForkedTree(), 1, 3, 4)
    ensures var t := Grown(ForkedTree(), NewBlock(5, 4, 1));
            WellFormed(t, 1) && CanAdvance(t, 1, 3, 1, 5, Within(db)) && !ConnectsRest(t, 1, 3, 1, 5, db)
  {
    ForkedTreeOk();
    var t := Grown(ForkedTree(), NewBlock(5, 4, 1));
    GrownWellFormed(ForkedTree(), 1, NewBlock(5, 4, 1));
    hide WellFormed;
    PrevIsAncestor(ForkedTree(), 1, 4);
    PrevIsAncestor(t, 1, 4);
    assert SwitchPoint(t, 1, 4, 1) == 4;
    assert SwitchPoint(t, 1, 5, 1) == 4;
    assert IsGreatestCommonAncestor(t, 1, 3, 3, 4);
    assert SwitchesAt(t, 1, 3, 3, 4, Within(db));
    PathHead(t, 1, 5, 4);
  }
}
