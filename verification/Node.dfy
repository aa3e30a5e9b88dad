/** The block chain and the transaction index together: what memory and database hold while the node
    takes blocks in, extends its chain, reorganises and gives up half-way. */
module Node {
  import opened Basics
  import opened BlockTree
  import opened Ledger
  import opened Money
  import opened ConnectBlock
  import opened DisconnectBlock
  import opened FreshIds
  import opened Archives
  import BranchCheck
  import MainChain
  import ChainState
  import SpendCheck

  /** What the parts outside this model answer while the database is changed: whether a transaction begins
      and commits, for the switch itself and for each postponed block; whether a block can be read, and be
      read and disconnected; whether it is taken down as the best block; and what the other checks and the
      writes say while a block is connected. */
  datatype Env = Env(
    begins: bool,
    commits: bool,
    beginsLater: Hash -> bool,
    commitsLater: Hash -> bool,
    readable: Hash -> bool,
    leaves: Hash -> bool,
    writesBest: Hash -> bool,
    others: Hash -> Outside)

  /** A block arrives, `checked` if everything outside this model lets `AcceptBlock` go on to write it; or the
      node is to switch to a block, as a checkpoint asks for. */
  datatype Event =
    | Arrives(block: ChainState.NewBlock, body: Block, checked: bool, env: Env)
    | SwitchTo(top: Hash, env: Env)

  // When a block can be connected

  /** The block on disk passes the checks of `ConnectBlock` on top of the replayed chain below it. */
  ghost predicate PassesChecks(a: Archive, b: Hash, height: nat, env: Env)
    requires ArchiveOk(a) && b in a.t
  {
    && b in a.contents
    && (ContentsHere(a, b); Replay(a, a.t[b].prev.value).Some?)
    && Accepts(a.store, Replay(a, a.t[b].prev.value).value, Step(a.contents[b], height, env.others(b)))
  }

  /** And the database takes all that connecting it writes. */
  ghost predicate Linkable(a: Archive, b: Hash, height: nat, env: Env)
    requires ArchiveOk(a) && b in a.t
  {
    PassesChecks(a, b, height, env) && WritesAll(env.others(b), a.contents[b].txs)
  }

  /** A postponed block is read, connected and made the end of the chain on disk, `separate`ly if each block has
      a transaction of its own. */
  ghost predicate Joins(a: Archive, b: Hash, height: nat, separate: bool, env: Env)
    requires ArchiveOk(a) && b in a.t
  {
    && env.readable(b) && Linkable(a, b, height, env) && env.writesBest(b)
    && (separate ==> env.beginsLater(b) && env.commitsLater(b))
  }

  /** The index after an attempt to connect `b`, before anything is taken back: the old index, with the entries
      that were written before the first failure. */
  ghost function Left(a: Archive, b: Hash, height: nat, env: Env): Index
    requires ArchiveOk(a) && b in a.t && b in a.contents
    requires a.t[b].prev.Some? && a.t[b].prev.value in a.t && Archived(a, a.t[b].prev.value)
    requires Replay(a, a.t[b].prev.value).Some?
  {
    var idx, txs := Replay(a, a.t[b].prev.value).value, a.contents[b].txs;
    match ConnectTxs(idx, txs, b)
    case None => idx
    case Some(next) =>
      if PassesChecks(a, b, height, env) && env.others(b).records
      then Overlaid(idx, next, WrittenIds(TouchedIds(txs), env.others(b).writesEntry))
      else idx
  }

  /** The node can leave `tip` for `s`: all blocks down to the one where they part can be disconnected, and all
      blocks up from there can be read and connected. */
  ghost predicate LeavesFor(a: Archive, tip: Hash, fork: Hash, s: Hash, height: nat, env: Env)
    requires ArchiveOk(a) && tip in a.t && s in a.t
  {
    && IsGreatestCommonAncestor(a.t, a.root, fork, tip, s)
    && (forall b :: b in Path(a.t, a.root, tip, fork) ==> env.leaves(b))
    && (forall b :: b in Path(a.t, a.root, s, fork) ==> env.readable(b) && Linkable(a, b, height, env))
    && env.writesBest(s)
  }

  /** `SetBestChain` makes `top` the best block. */
  ghost predicate Advances(a: Archive, tip: Hash, top: Hash, separate: bool, env: Env)
    requires ArchiveOk(a) && tip in a.t && top in a.t
  {
    && (separate ==> env.begins && env.commits)
    && if a.t[top].prev == Some(tip) then Linkable(a, top, a.t[tip].height, env) && env.writesBest(top)
       else exists fork :: LeavesFor(a, tip, fork, ChainState.SwitchPoint(a.t, a.root, top, a.t[tip].trust),
                                     a.t[tip].height, env)
  }

  /** And every block that is postponed on the way joins. */
  ghost predicate RestJoins(a: Archive, tip: Hash, top: Hash, separate: bool, env: Env)
    requires ArchiveOk(a) && tip in a.t && top in a.t
  {
    || a.t[top].prev == Some(tip)
    || forall b :: b in Path(a.t, a.root, top, ChainState.SwitchPoint(a.t, a.root, top, a.t[tip].trust)) ==>
         Joins(a, b, a.t[tip].height, separate, env)
  }

  lemma RestIs(a: Archive, tip: Hash, top: Hash, separate: bool, env: Env, mid: Hash, postponed: seq<Hash>)
    requires ArchiveOk(a) && tip in a.t && top in a.t && a.t[top].prev != Some(tip)
    requires mid == ChainState.SwitchPoint(a.t, a.root, top, a.t[tip].trust)
    requires postponed == Path(a.t, a.root, top, mid)
    ensures RestJoins(a, tip, top, separate, env) <==>
            forall b :: b in postponed ==> b in a.t && Joins(a, b, a.t[tip].height, separate, env)
  {
  }

  lemma NotBegun(a: Archive, tip: Hash, top: Hash, env: Env)
    requires ArchiveOk(a) && tip in a.t && top in a.t && !env.begins
    ensures !Advances(a, tip, top, true, env)
  {
  }

  lemma AdvancesFrom(a: Archive, tip: Hash, top: Hash, separate: bool, env: Env, fork: Hash)
    requires ArchiveOk(a) && tip in a.t && top in a.t && a.t[top].prev != Some(tip)
    requires IsGreatestCommonAncestor(a.t, a.root, fork, tip,
                                      ChainState.SwitchPoint(a.t, a.root, top, a.t[tip].trust))
    ensures Advances(a, tip, top, separate, env) <==>
            && (separate ==> env.begins && env.commits)
            && LeavesFor(a, tip, fork, ChainState.SwitchPoint(a.t, a.root, top, a.t[tip].trust), a.t[tip].height, env)
  {
    ArchiveTree(a);
    hide ArchiveOk, Linkable, IsGreatestCommonAncestor, Path;
    var s := ChainState.SwitchPoint(a.t, a.root, top, a.t[tip].trust);
    if Advances(a, tip, top, separate, env) {
      var f :| LeavesFor(a, tip, f, s, a.t[tip].height, env);
      SameFork(a, tip, s, f, fork, env);
    }
  }

  lemma SameFork(a: Archive, tip: Hash, s: Hash, f: Hash, fork: Hash, env: Env)
    requires ArchiveOk(a) && tip in a.t && s in a.t && LeavesFor(a, tip, f, s, a.t[tip].height, env)
    requires IsGreatestCommonAncestor(a.t, a.root, fork, tip, s)
    ensures f == fork
  {
    ChainState.GreatestUnique(a.t, a.root, f, fork, tip, s);
  }

  lemma HashesRight(a: Archive)
    requires ArchiveOk(a)
    ensures forall h :: h in a.contents ==> a.contents[h].hash == h
  {
    forall h | h in a.contents
      ensures a.contents[h].hash == h
    {
      ContentsHere(a, h);
    }
  }

  /** Indexing and storing a block leaves the chains and supplies on record as they are. */
  lemma StaysRecorded(a: Archive, grown: Archive, supply: map<Hash, int>, best: Hash, b: Hash)
    requires ArchiveOk(a) && ArchiveOk(grown) && Grows(a, grown) && SuppliesRight(a, supply)
    requires b !in supply && forall h :: h in grown.contents ==> h in a.contents || h == b
    requires best in a.t && Archived(a, best)
    ensures SuppliesRight(grown, supply)
    ensures best in grown.t && Archived(grown, best) && Replay(grown, best) == Replay(a, best)
  {
    SuppliesExtend(a, grown, supply);
    MainExtends(a, grown, best);
  }

  /** So does giving up the contents again, whatever was recorded in between. */
  lemma GivenUp(a: Archive, bare: Archive, grown: Archive, supply: map<Hash, int>, best: Hash)
    requires ArchiveOk(a) && ArchiveOk(bare) && ArchiveOk(grown) && Grows(a, bare) && Grows(bare, grown)
    requires bare.t == grown.t && SuppliesRight(grown, supply)
    requires best in a.t && Archived(a, best)
    ensures SuppliesRight(bare, supply)
    ensures best in bare.t && Archived(bare, best) && Replay(bare, best) == Replay(a, best)
  {
    SuppliesShrink(bare, grown, supply);
    MainExtends(a, bare, best);
  }

  lemma WrittenSome(ids: set<Hash>, writes: Hash -> bool)
    ensures WrittenIds(ids, writes) <= ids
  {
  }

  lemma NoIds(idx: Index, next: Index)
    ensures Overlaid(idx, next, {}) == idx
  {
  }

  /** The transactions of a block that connects are new on its chain. */
  lemma FailedIsFresh(a: Archive, b: Hash)
    requires ArchiveOk(a) && b in a.t && b in a.contents && Replay(a, b).Some?
    ensures a.t[b].prev.Some? && a.t[b].prev.value in a.t && Archived(a, a.t[b].prev.value)
    ensures Replay(a, a.t[b].prev.value).Some?
    ensures Distinct(a.contents[b].txs) && Ids(a.contents[b].txs) !! Replay(a, a.t[b].prev.value).value.Keys
  {
    hide ArchiveOk, Distinct, Ids;
    ReplayStep(a, b);
    MainRules(a, b);
    FreshAbove(a.store, a.heightOf, 1, MainBlocks(a, a.t[b].prev.value), [a.contents[b]]);
    assert [a.contents[b]][..0] == [] && [] + a.contents[b].txs == a.contents[b].txs;
    assert AllTxs([a.contents[b]]) == a.contents[b].txs;
  }

  /** Old blocks stay, and which of them are on disk does not change. */
  ghost predicate SameArchived(a: Archive, b: Archive) {
    forall h :: h in a.t ==> h in b.t && b.t[h] == a.t[h] && (Archived(b, h) <==> Archived(a, h))
  }

  // Paths

  /** The block that is best when the blocks of a path above place `i` are off. */
  ghost function PathStop(path: seq<Hash>, base: Hash, i: nat): Hash {
    if i < |path| then path[i] else base
  }

  lemma PathEnds(t: Tree, root: Hash, tip: Hash, base: Hash)
    requires WellFormed(t, root) && tip in t && IsAncestor(t, root, base, tip)
    ensures PathStop(Path(t, root, tip, base), base, 0) == tip
  {
    if tip != base {
      PathHead(t, root, tip, base);
    }
  }

  /** What is left of a path tells where it stopped, and which of its blocks were reached. */
  lemma PathStops(t: Tree, root: Hash, path: seq<Hash>, tip: Hash, base: Hash, left: nat)
    requires WellFormed(t, root) && tip in t && IsAncestor(t, root, base, tip) && path == Path(t, root, tip, base)
    requires left <= |path|
    ensures var stop := PathStop(path, base, left);
            stop in t && IsAncestor(t, root, stop, tip) && (stop == tip <==> left == 0)
    ensures (forall b :: b in path ==> b in set i | left <= i < |path| :: path[i]) <==> left == 0
  {
    PathEnds(t, root, tip, base);
    AncestorBounds(t, root, base, tip);
    forall i | 0 <= i < |path|
      ensures path[i] in t && t[path[i]].height == t[tip].height - i && IsAncestor(t, root, path[i], tip)
    {
      PathHeight(t, root, tip, base, i);
    }
    if left > 0 {
      assert path[left - 1] in path;
      if left == |path| {
        PathHeight(t, root, tip, base, left - 1);
        PathAt(t, root, tip, base, left - 1);
        assert LinkOk(t, root, path[left - 1]);
      }
    }
  }

  lemma {:induction false} PathHeight(t: Tree, root: Hash, tip: Hash, base: Hash, i: nat)
    requires WellFormed(t, root) && tip in t && IsAncestor(t, root, base, tip) && i < |Path(t, root, tip, base)|
    ensures var b := Path(t, root, tip, base)[i];
            b in t && t[b].height == t[tip].height - i && IsAncestor(t, root, b, tip)
    decreases i
  {
    PathAt(t, root, tip, base, i);
    assert Path(t, root, tip, base)[i] in Path(t, root, tip, base);
    if i > 0 {
      PathHeight(t, root, tip, base, i - 1);
      PathAt(t, root, tip, base, i - 1);
      assert LinkOk(t, root, Path(t, root, tip, base)[i - 1]);
    }
  }

  class FullNode {
    const store: map<Hash, Tx>
    const heightOf: Tx -> nat
    const chain: ChainState.Chain
    var contents: map<Hash, Block>
    var db: Index
    var supply: map<Hash, int>

    function View(): Archive
      reads this`contents, chain`index
    {
      Archive(store, heightOf, chain.index, chain.genesis, contents)
    }

    /** Contents, rules and recorded supplies are in order. */
    ghost predicate Ordered()
      reads this`contents, this`supply, chain`index
    {
      && ArchiveOk(View()) && SuppliesRight(View(), supply)
      && forall h :: h in supply ==> h in chain.index
    }

    /** The chain up to `b` was connected and can still be read. */
    ghost predicate Connected(b: Hash)
      reads this`contents, this`supply, chain`index
    {
      Ordered() && b in supply && b in chain.index && Archived(View(), b) && Replay(View(), b).Some?
    }

    /** The index is the one that a plain replay of the chain up to `b` gives. */
    ghost predicate At(b: Hash)
      reads this, chain`index
    {
      Connected(b) && Replay(View(), b) == Some(db)
    }

    /** Connecting `failed` on top of the chain up to `reached` broke off, and what was written stayed. */
    ghost predicate Stopped(reached: Hash, failed: Hash, height: nat, env: Env)
      reads this, chain`index
    {
      && Connected(reached) && failed in chain.index && failed in contents
      && chain.index[failed].prev == Some(reached)
      && db == Left(View(), failed, height, env)
    }

    /** The index is that of the main chain. */
    ghost predicate Valid()
      reads this, chain
    {
      chain.Valid() && At(chain.best)
    }

    constructor (transactions: map<Hash, Tx>, heights: Tx -> nat, genesis: Hash, trust: nat, testnet: bool,
                 mode: ChainState.CheckpointMode)
      ensures Valid() && chain.Complete() && store == transactions && heightOf == heights
      ensures fresh(chain) && chain.genesis == genesis && chain.best == genesis
      ensures chain.index == map[genesis := Entry(None, 0, trust)]
      ensures contents == map[] && db == map[] && supply == map[genesis := 0]
    {
      var c := new ChainState.Chain(genesis, trust, testnet, mode);
      store, heightOf, chain := transactions, heights, c;
      contents, db, supply := map[], map[], map[genesis := 0];
      new;
      EmptyTotal(store);
    }

    lemma Tree(b: Hash)
      requires Connected(b)
      ensures ArchiveOk(View()) && WellFormed(chain.index, chain.genesis) && b in chain.index && Archived(View(), b)
    {
    }

    /** `ConnectBlock` for a block on top of the chain in the index. */
    method ConnectNext(b: Hash, env: Env, ghost keep: Hash) returns (done: bool)
      requires b in chain.index && b in contents && chain.index[b].prev.Some? && At(chain.index[b].prev.value)
      requires Connected(keep)
      modifies this`db, this`supply
      ensures Connected(keep) && Connected(chain.index[b].prev.value)
      ensures done <==> Linkable(View(), b, chain.bestHeight, env)
      ensures done ==> At(b)
      ensures Stopped(chain.index[b].prev.value, b, chain.bestHeight, env)
    {
      hide ArchiveOk, SuppliesRight, Replay, Accepts, ConnectTxs, TotalIn, TotalOut, WritesAll, Overlaid, WrittenIds;
      hide TouchedIds, ContentsOk;
      ContentsHere(View(), b);
      var p, body, out := chain.index[b].prev.value, contents[b], env.others(b);
      var r, written, left := Connect(store, db, body, supply[p], chain.bestHeight, out);
      if r.Some? {
        SupplyNext(View(), supply, b, db, Step(body, chain.bestHeight, out), r.value);
        supply := supply[b := r.value.supply];
      }
      db, done := left, written;
    }

    /** `ReadFromDisk` and `DisconnectBlock` for the last block of the chain in the index: once its contents
        are read and the writes taken, it cannot fail. */
    method DisconnectLast(b: Hash, env: Env) returns (done: bool)
      requires At(b) && chain.index[b].prev.Some?
      modifies this`db
      ensures done == env.leaves(b)
      ensures At(if done then chain.index[b].prev.value else b)
    {
      hide ArchiveOk, SuppliesRight, Replay;
      Tree(b);
      AboveHere(View(), b);
      PrevIsAncestor(chain.index, chain.genesis, b);
      SupplyBelow(View(), supply, chain.index[b].prev.value, b);
      StepBack(View(), b);
      if !env.leaves(b) {
        return false;
      }
      var r := Disconnect(db, contents[b]);
      db := r.value;
      done := true;
    }

    /** Disconnect a branch, newest block first. */
    method DisconnectAll(leaving: seq<Hash>, base: Hash, env: Env) returns (done: bool)
      requires Valid() && IsAncestor(chain.index, chain.genesis, base, chain.best)
      requires leaving == Path(chain.index, chain.genesis, chain.best, base)
      modifies this`db
      ensures Connected(chain.best)
      ensures done <==> forall b :: b in leaving ==> env.leaves(b)
      ensures done ==> At(base)
    {
      hide Connected, ArchiveOk, SuppliesRight, Replay, WellFormed, IsAncestor, Path, MainChain.LinksSound;
      Tree(chain.best);
      PathEnds(chain.index, chain.genesis, chain.best, base);
      for i := 0 to |leaving|
        invariant At(PathStop(leaving, base, i)) && Connected(chain.best)
        invariant forall k :: 0 <= k < i ==> env.leaves(leaving[k])
      {
        PathAt(chain.index, chain.genesis, chain.best, base, i);
        done := DisconnectLast(leaving[i], env);
        if !done {
          assert leaving[i] in leaving;
          return;
        }
      }
      done := true;
    }

    /** The contents of a path below a block on disk are on disk. */
    lemma PathArchived(top: Hash, base: Hash, i: nat)
      requires ArchiveOk(View()) && top in chain.index && Archived(View(), top)
      requires IsAncestor(chain.index, chain.genesis, base, top)
      requires i < |Path(chain.index, chain.genesis, top, base)|
      ensures var path := Path(chain.index, chain.genesis, top, base);
              && path[i] in path && path[i] in chain.index && path[i] in contents
              && chain.index[path[i]].prev == Some(PathStop(path, base, i + 1))
    {
      PathAt(chain.index, chain.genesis, top, base, i);
      var path := Path(chain.index, chain.genesis, top, base);
      assert path[i] in path;
      BelowArchived(View(), path[i], top);
      AboveHere(View(), path[i]);
    }

    /** Connect a branch, oldest block first. */
    method ConnectAll(joining: seq<Hash>, top: Hash, base: Hash, env: Env, ghost keep: Hash) returns (done: bool)
      requires Connected(keep) && At(base) && top in chain.index && Archived(View(), top)
      requires IsAncestor(chain.index, chain.genesis, base, top)
      requires joining == Path(chain.index, chain.genesis, top, base)
      modifies this`db, this`supply
      ensures Connected(keep)
      ensures done <==> forall b :: b in joining ==>
                b in chain.index && env.readable(b) && Linkable(View(), b, chain.bestHeight, env)
      ensures done ==> At(top)
    {
      hide Connected, Linkable, ArchiveOk, SuppliesRight, Replay, WellFormed, IsAncestor, Path;
      Tree(base);
      PathEnds(chain.index, chain.genesis, top, base);
      for i := |joining| downto 0
        invariant Connected(keep) && At(PathStop(joining, base, i))
        invariant forall k :: i <= k < |joining| ==> joining[k] in chain.index && env.readable(joining[k])
                                                     && Linkable(View(), joining[k], chain.bestHeight, env)
      {
        PathArchived(top, base, i);
        if !env.readable(joining[i]) {
          return false;
        }
        done := ConnectNext(joining[i], env, keep);
        if !done {
          return;
        }
      }
      done := true;
    }

    /** The loop over the postponed blocks, up to the first that fails; `left` blocks are left.  In a
        transaction of its own a failing block leaves nothing behind, otherwise what it wrote stays. */
    method ConnectPostponed(postponed: seq<Hash>, top: Hash, base: Hash, separate: bool, env: Env)
      returns (left: nat)
      requires At(base) && top in chain.index && Archived(View(), top)
      requires IsAncestor(chain.index, chain.genesis, base, top)
      requires postponed == Path(chain.index, chain.genesis, top, base)
      modifies this`db, this`supply
      ensures left <= |postponed| && Connected(PathStop(postponed, base, left))
      ensures forall k :: left <= k < |postponed| ==>
                postponed[k] in chain.index && Joins(View(), postponed[k], chain.bestHeight, separate, env)
      ensures left > 0 ==> postponed[left - 1] in chain.index
                           && !Joins(View(), postponed[left - 1], chain.bestHeight, separate, env)
      ensures left == 0 || separate || !env.readable(postponed[left - 1]) ==> At(PathStop(postponed, base, left))
      ensures left > 0 && !separate && env.readable(postponed[left - 1]) ==>
                Stopped(PathStop(postponed, base, left), postponed[left - 1], chain.bestHeight, env)
    {
      hide Connected, Linkable, ArchiveOk, SuppliesRight, Replay, WellFormed, IsAncestor, Path, Left;
      Tree(base);
      for i := |postponed| downto 0
        invariant At(PathStop(postponed, base, i))
        invariant forall k :: i <= k < |postponed| ==>
                    postponed[k] in chain.index && Joins(View(), postponed[k], chain.bestHeight, separate, env)
      {
        var b, saved := postponed[i], db;
        PathArchived(top, base, i);
        if !env.readable(b) || (separate && !env.beginsLater(b)) {
          return i + 1;
        }
        var done := ConnectNext(b, env, PathStop(postponed, base, i + 1));
        if !done || !env.writesBest(b) || (separate && !env.commitsLater(b)) {
          if separate {
            db := saved;
          }
          return i + 1;
        }
      }
      left := 0;
    }

    /** A postponed block `failed` was not connected on top of `reached`; in its own transaction it left
        nothing behind. */
    ghost predicate Short(top: Hash, height: nat, separate: bool, env: Env, reached: Hash, failed: Hash)
      reads this, chain`index
    {
      && Connected(reached) && top in chain.index && Archived(View(), top)
      && failed in chain.index && failed in contents
      && reached != top && IsAncestor(chain.index, chain.genesis, reached, top)
      && chain.index[failed].prev == Some(reached) && IsAncestor(chain.index, chain.genesis, failed, top)
      && !Joins(View(), failed, height, separate, env)
      && if separate || !env.readable(failed) then At(reached) else Stopped(reached, failed, height, env)
    }

    /** How `SetBestChain` ends.  If it fails, the chain is as before, and so is the index if the transaction
        was its own.  Otherwise `top` is best, and the index is that of its chain unless a postponed block
        failed. */
    twostate predicate Moved(new top: Hash, separate: bool, env: Env, ok: bool, complete: bool,
                             new reached: Hash, new failed: Hash)
      reads this, chain
    {
      && chain.Valid() && chain.index == old(chain.index)
      && chain.best == (if ok then top else old(chain.best))
      && (complete ==> reached == chain.best)
      && (!ok ==> && complete && Connected(chain.best) && chain.next == old(chain.next)
                  && (separate ==> At(chain.best) && db == old(db)))
      && (ok && complete ==> At(chain.best))
      && (!complete ==> Short(top, old(chain.bestHeight), separate, env, reached, failed))
    }

    /** The branch of `SetBestChain` for a block on top of the best one. */
    method Extend(top: Hash, separate: bool, env: Env) returns (ok: bool)
      requires Valid() && top in chain.index && top in contents && chain.index[top].prev == Some(chain.best)
      modifies this`db, this`supply
      modifies chain`next, chain`best, chain`bestHeight, chain`bestTrust, chain`lastFound
      ensures ok <==> old(Advances(View(), chain.best, top, separate, env))
      ensures Moved(top, separate, env, ok, true, chain.best, chain.best)
      ensures old(chain.Complete()) ==> chain.Complete()
    {
      hide Linkable, ArchiveOk, SuppliesRight, Replay, ChainState.CanSwitch, Left;
      hide MainChain.LinksSound, MainChain.LinksComplete, IsGreatestCommonAncestor, WellFormed;
      if separate && !env.begins {
        return false;
      }
      var saved := db;
      var done := ConnectNext(top, env, chain.best);
      done := done && env.writesBest(top) && (separate ==> env.commits);
      ghost var complete, fork;
      var storage := ChainState.Storage(true, true, _ => true, _ => done, _ => true);
      ok, complete, fork := chain.SetBestChain(top, storage);
      if !ok && separate {
        db := saved;
      }
    }

    /** The database work of a reorganisation. */
    method Rewrite(mid: Hash, env: Env) returns (done: bool, ghost fork: Hash)
      requires Valid() && mid in chain.index && Archived(View(), mid)
      modifies this`db, this`supply
      ensures Connected(chain.best) && IsGreatestCommonAncestor(chain.index, chain.genesis, fork, chain.best, mid)
      ensures done <==> LeavesFor(View(), chain.best, fork, mid, chain.bestHeight, env)
      ensures done ==> At(mid)
    {
      hide Connected, Linkable, ArchiveOk, SuppliesRight, Replay, MainChain.LinksSound, WellFormed, IsAncestor, Path;
      Tree(chain.best);
      var base := chain.FindFork(mid);
      fork := base;
      var leaving := chain.CollectPath(chain.best, base);
      var joining := chain.CollectPath(mid, base);
      done := DisconnectAll(leaving, base, env);
      if done {
        done := ConnectAll(joining, mid, base, env, chain.best);
        done := done && env.writesBest(mid);
      }
    }

    /** After the reorganisation to `mid`: connect the postponed blocks one by one; `later` are those that
        could be. */
    method Finish(postponed: seq<Hash>, top: Hash, mid: Hash, separate: bool, env: Env)
      returns (later: set<Hash>, ghost reached: Hash, ghost failed: Hash)
      requires At(mid) && top in chain.index && Archived(View(), top)
      requires IsAncestor(chain.index, chain.genesis, mid, top)
      requires postponed == Path(chain.index, chain.genesis, top, mid)
      modifies this`db, this`supply
      ensures (forall b :: b in postponed ==> b in later) <==>
              (forall b :: b in postponed ==> b in chain.index && Joins(View(), b, chain.bestHeight, separate, env))
      ensures if forall b :: b in postponed ==> b in later then reached == top && At(top)
              else Short(top, chain.bestHeight, separate, env, reached, failed)
    {
      hide Connected, ArchiveOk, Replay, WellFormed, IsAncestor, Path, Left, Joins, SuppliesRight;
      Tree(mid);
      var left := ConnectPostponed(postponed, top, mid, separate, env);
      reached, failed := PathStop(postponed, mid, left), top;
      PathStops(chain.index, chain.genesis, postponed, top, mid, left);
      if left > 0 {
        failed := postponed[left - 1];
        PathHeight(chain.index, chain.genesis, top, mid, left - 1);
        PathArchived(top, mid, left - 1);
      }
      later := set i | left <= i < |postponed| :: postponed[i];
    }

    /** The branch of `SetBestChain` for a block elsewhere: reorganise to the lowest block of its branch
        that outweighs the best chain, then connect the postponed blocks one by one. */
    method Switch(top: Hash, separate: bool, env: Env)
      returns (ok: bool, complete: bool, ghost reached: Hash, ghost failed: Hash)
      requires Valid() && top in chain.index && Archived(View(), top) && chain.index[top].prev != Some(chain.best)
      modifies this`db, this`supply
      modifies chain`next, chain`best, chain`bestHeight, chain`bestTrust, chain`lastFound
      ensures ok <==> old(Advances(View(), chain.best, top, separate, env))
      ensures ok ==> (complete <==> old(RestJoins(View(), chain.best, top, separate, env)))
      ensures Moved(top, separate, env, ok, complete, reached, failed)
      ensures old(chain.Complete()) ==> (chain.Complete() <==> complete)
    {
      hide Connected, Linkable, ArchiveOk, SuppliesRight, Replay, MainChain.LinksSound, MainChain.LinksComplete;
      hide WellFormed, IsAncestor, Path, IsGreatestCommonAncestor, LeavesFor, Advances, Short, Joins, RestJoins,
           ChainState.CanAdvance, ChainState.SwitchPoint;
      complete, reached, failed := true, chain.best, chain.best;
      Tree(chain.best);
      if separate && !env.begins {
        NotBegun(View(), chain.best, top, env);
        return false, complete, reached, failed;
      }
      var saved := db;
      var mid, postponed := chain.Postpone(top);
      BelowArchived(View(), mid, top);
      var done;
      ghost var fork;
      done, fork := Rewrite(mid, env);
      AdvancesFrom(View(), chain.best, top, separate, env, fork);
      if !done || (separate && !env.commits) {
        if separate {
          db := saved;
        }
        return false, complete, reached, failed;
      }
      RestIs(View(), chain.best, top, separate, env, mid, postponed);
      var later;
      later, reached, failed := Finish(postponed, top, mid, separate, env);
      ok, complete, fork := chain.SetBestChain(top,
          ChainState.Storage(true, true, _ => true, _ => true, b => b in later));
    }

    /** `SetBestChain` with its database work; `separate` is its parameter `createDbTransaction`. */
    method SetBestChain(top: Hash, separate: bool, env: Env)
      returns (ok: bool, complete: bool, ghost reached: Hash, ghost failed: Hash)
      requires Valid() && top in chain.index && top in contents
      modifies this`db, this`supply
      modifies chain`next, chain`best, chain`bestHeight, chain`bestTrust, chain`lastFound
      ensures ok <==> old(Advances(View(), chain.best, top, separate, env))
      ensures ok ==> (complete <==> old(RestJoins(View(), chain.best, top, separate, env)))
      ensures Moved(top, separate, env, ok, complete, reached, failed)
      ensures old(chain.Complete()) ==> (chain.Complete() <==> complete)
    {
      hide Advances, Short, Connected, ArchiveOk, Path, MainChain.LinksSound, MainChain.LinksComplete, WellFormed;
      if chain.index[top].prev == Some(chain.best) {
        ok := Extend(top, separate, env);
        complete, reached, failed := true, chain.best, chain.best;
      } else {
        ok, complete, reached, failed := Switch(top, separate, env);
      }
    }

    /** All blocks of the branch above `ancestor` can be read. */
    ghost predicate AllReadable(prev: Hash, ancestor: Hash, readable: Hash -> bool)
      requires WellFormed(chain.index, chain.genesis) && prev in chain.index
      requires IsAncestor(chain.index, chain.genesis, ancestor, prev)
      reads chain`index
    {
      forall b :: b in Path(chain.index, chain.genesis, prev, ancestor) ==> readable(b)
    }

    /** The branch can be read and replays, and the block on top of it keeps the rules. */
    ghost predicate Judged(prev: Hash, block: Block, readable: Hash -> bool, ancestor: Hash)
      requires ArchiveOk(View()) && prev in chain.index && IsAncestor(chain.index, chain.genesis, ancestor, prev)
      reads this`contents, chain`index
    {
      && Archived(View(), prev) && AllReadable(prev, ancestor, readable) && Replay(View(), prev).Some?
      && BlockRules(store, heightOf, chain.index[prev].height + 1, block)
    }

    /** What the side-branch check says of a block on top of `prev`, whose branch leaves the main chain at
        `ancestor`.  A branch that cannot be read, or ends in a block that is not on disk, is refused.  On top of a
        chain that replays, a block that keeps the rules passes exactly if its inputs can be looked up, none is
        spent on its chain, and none comes twice. */
    ghost predicate Verdict(prev: Hash, block: Block, readable: Hash -> bool, ok: bool, ancestor: Hash,
                            branch: seq<Block>)
      reads this, chain
    {
      && Valid() && prev in chain.index
      && IsGreatestCommonAncestor(chain.index, chain.genesis, ancestor, chain.best, prev)
      && Archived(View(), ancestor)
      && (ok ==> Archived(View(), prev) && AllReadable(prev, ancestor, readable))
      && (Archived(View(), prev) ==> MainBlocks(View(), prev) == MainBlocks(View(), ancestor) + branch)
      && (Judged(prev, block, readable, ancestor) ==>
            (ok <==> SpendCheck.InputsFree(BranchCheck.OutputCounts(store),
                                           db.Keys + SpendCheck.Queued(AllTxs(branch)),
                                           Replay(View(), prev).value, block.txs)))
    }

    /** `VerifyInputsUnspent` as `AcceptBlock` calls it, with the branch it finds itself and the index on
        disk. */
    method VerifyInputsUnspent(prev: Hash, block: Block, readable: Hash -> bool)
      returns (ok: bool, ghost ancestor: Hash, ghost branch: seq<Block>)
      requires Valid() && chain.Complete() && prev in chain.index
      ensures Verdict(prev, block, readable, ok, ancestor, branch)
    {
      hide Connected, ArchiveOk, MainChain.LinksSound, MainChain.LinksComplete, WellFormed, MainBlocks, Replay, Path;
      hide IsAncestor, BlockRules, SpendCheck.BranchReady, SpendCheck.SceneOk, BranchCheck.Held, BranchCheck.Contents,
           SpendCheck.Queued, SpendCheck.InputsFree, ConnectBlocks, AllTxs, Reversed;
      var a := View();
      Tree(chain.best);
      var inFork, parting := chain.BranchOf(prev);
      ancestor, branch := parting, [];
      BelowArchived(a, parting, chain.best);
      BranchCheck.BranchArchived(a, prev, parting);
      HashesRight(a);
      if Archived(a, prev) {
        BranchCheck.MainSplit(a, prev, parting);
        branch := BranchCheck.Contents(a, Path(a.t, a.root, prev, parting));
      }
      var blocks := BranchCheck.ReadBranch(a, inFork, readable, Path(a.t, a.root, prev, parting));
      if blocks.None? {
        return false, ancestor, branch;
      }
      var main := set h | h in chain.index && MainChain.InMainChain(chain.next, chain.best, h);
      SceneHere(parting, main);
      var base := Replay(a, parting).value;
      ok := SpendCheck.VerifyInputsUnspent(BranchCheck.SceneOf(a, base, db, main, parting), blocks.value, block);
      if Judged(prev, block, readable, parting) {
        BranchCheck.ReadyHere(a, prev, parting, block, base, db, main);
      }
    }

    /** Compared with the replay of the block's own chain: a block that passes replays exactly if its inputs name
        outputs of that chain, and a block that replays passes exactly if it spends no branch coinbase that was
        never queued. */
    lemma JudgedByReplay(prev: Hash, block: Block, readable: Hash -> bool, ok: bool, ancestor: Hash, branch: seq<Block>)
      requires Verdict(prev, block, readable, ok, ancestor, branch) && chain.Complete()
      requires Judged(prev, block, readable, ancestor)
      ensures var idx := Replay(View(), prev).value;
              var replays := ConnectTxs(idx, block.txs, block.hash).Some?;
              && (ok ==> (replays <==> SpendCheck.InputsExist(BranchCheck.OutputCounts(store), idx.Keys, block.txs)))
              && (replays ==> (ok <==> Hashes(AllSpends(block.txs)) !! SpendCheck.Unqueued(db, AllTxs(branch))))
    {
      hide Connected, ArchiveOk, MainChain.LinksSound, MainChain.LinksComplete, WellFormed, MainBlocks, Replay, Path;
      hide IsAncestor, BlockRules, SpendCheck.SceneOk, SpendCheck.Queued, SpendCheck.InputsFree, SpendCheck.InputsExist,
           SpendCheck.Unqueued, ConnectTxs, AllTxs, AllSpends, Hashes;
      var main := set h | h in chain.index && MainChain.InMainChain(chain.next, chain.best, h);
      Tree(chain.best);
      SceneHere(ancestor, main);
      var base := Replay(View(), ancestor).value;
      BranchCheck.VerdictVersusReplay(View(), prev, ancestor, block, base, db, main, branch);
    }

    /** What the check is given is what it is meant for. */
    lemma SceneHere(ancestor: Hash, main: set<Hash>)
      requires Valid() && chain.Complete() && IsAncestor(chain.index, chain.genesis, ancestor, chain.best)
      requires main == set h | h in chain.index && MainChain.InMainChain(chain.next, chain.best, h)
      ensures ancestor in chain.index && Archived(View(), ancestor) && Replay(View(), ancestor).Some?
      ensures SpendCheck.SceneOk(BranchCheck.SceneOf(View(), Replay(View(), ancestor).value, db, main, ancestor))
    {
      hide ArchiveOk, SuppliesRight, Replay, MainChain.LinksSound, MainChain.LinksComplete, WellFormed, IsAncestor;
      hide SpendCheck.SceneOk, SpendCheck.Fits, BranchCheck.IsMain;
      SupplyBelow(View(), supply, ancestor, chain.best);
      SupplyHere(View(), supply, ancestor);
      MainIsChain(main);
      BranchCheck.SceneOfChain(View(), supply, chain.best, main, ancestor, Replay(View(), ancestor).value, db);
    }

    lemma MainIsChain(main: set<Hash>)
      requires chain.Valid() && chain.Complete()
      requires main == set h | h in chain.index && MainChain.InMainChain(chain.next, chain.best, h)
      ensures BranchCheck.IsMain(View(), main, chain.best)
    {
      MainChain.InMainChainIff(chain.index, chain.genesis, chain.next, chain.best);
    }

    /** The checks of `CheckBlock` and `AcceptBlock` on a block's own contents. */
    method CheckContents(body: Block, height: nat) returns (ok: bool)
      requires AllStored(store, body.txs)
      ensures ok <==> BlockRules(store, heightOf, height, body)
    {
      ok := CheckShape(body);
      if !ok || heightOf(body.txs[0]) != height {
        return false;
      }
      for i := 0 to |body.txs|
        invariant forall k :: 0 <= k < i ==> body.txs[k].kind.CoinBase? || body.txs[k].inputs != []
      {
        if !body.txs[i].kind.CoinBase? && body.txs[i].inputs == [] {
          assert body.txs[i] in body.txs;
          return false;
        }
      }
    }

    /** The block enters block index and disk. */
    method IndexBlock(b: ChainState.NewBlock, body: Block)
      requires Valid() && b.hash !in chain.index && b.prev in chain.index && Archived(View(), b.prev)
      requires body.hash == b.hash && BlockRules(store, heightOf, chain.index[b.prev].height + 1, body)
      modifies this`contents, chain`index
      ensures Valid() && View() == WithBlock(old(View()), b, body)
      ensures old(chain.Complete()) ==> chain.Complete()
    {
      hide ArchiveOk, SuppliesRight, Replay, BlockRules, MainChain.LinksSound, MainChain.LinksComplete, WellFormed;
      BlockKeeps(View(), b, body);
      StaysRecorded(View(), WithBlock(View(), b, body), supply, chain.best, b.hash);
      chain.Insert(b);
      contents := contents[b.hash := body];
    }

    /** The transaction in which the block entered is given up. */
    method GiveUp(savedDb: Index, savedContents: map<Hash, Block>, ghost a: Archive, ghost b: ChainState.NewBlock,
                  ghost body: Block)
      requires chain.Valid() && Connected(chain.best)
      requires ArchiveOk(a) && b.hash !in a.t && b.prev in a.t && Archived(a, b.prev) && body.hash == b.hash
      requires BlockRules(a.store, a.heightOf, a.t[b.prev].height + 1, body)
      requires View() == WithBlock(a, b, body) && savedContents == a.contents
      requires chain.best in a.t && Archived(a, chain.best) && Replay(a, chain.best) == Some(savedDb)
      modifies this`contents, this`db
      ensures Valid() && db == savedDb && contents == savedContents
    {
      hide ArchiveOk, SuppliesRight, Replay, BlockRules, MainChain.LinksSound, WellFormed;
      BlockKeeps(a, b, body);
      EntryKeeps(a, b);
      GivenUp(a, WithEntry(a, b), View(), supply, chain.best);
      db, contents := savedDb, savedContents;
      assert View() == WithEntry(a, b);
    }

    /** What `WriteToDisk` does to index, contents and best block. */
    ghost predicate Entered(a: Archive, b: ChainState.NewBlock, body: Block, best: Hash, env: Env, ok: bool)
      reads this, chain
    {
      && ArchiveOk(a) && best in a.t && b.prev in a.t && ArchiveOk(WithBlock(a, b, body))
      && chain.Valid() && chain.index == ChainState.Grown(a.t, b)
      && var heavier := chain.index[b.hash].trust > a.t[best].trust;
      && (ok <==> (heavier ==> Advances(WithBlock(a, b, body), best, b.hash, false, env)))
      && contents == (if ok then a.contents[b.hash := body] else a.contents)
      && chain.best == (if ok && heavier then b.hash else best)
    }

    /** `WriteToDisk`, once its transaction has begun and taken the contents: the block is indexed, and becomes
        best if it outweighs the best chain and its branch can be connected.  If that fails, the transaction
        is given up, and with it the contents; the block stays in the block index. */
    method WriteToDisk(b: ChainState.NewBlock, body: Block, env: Env)
      returns (ok: bool, complete: bool, ghost reached: Hash, ghost failed: Hash)
      requires Valid() && b.hash !in chain.index && b.prev in chain.index && Archived(View(), b.prev)
      requires body.hash == b.hash && BlockRules(store, heightOf, chain.index[b.prev].height + 1, body)
      modifies this`contents, this`db, this`supply
      modifies chain`index, chain`next, chain`best, chain`bestHeight, chain`bestTrust, chain`lastFound
      ensures Entered(old(View()), b, body, old(chain.best), env, ok)
      ensures complete <==> (chain.best == b.hash ==>
                RestJoins(WithBlock(old(View()), b, body), old(chain.best), b.hash, false, env))
      ensures !ok ==> complete && db == old(db)
      ensures if complete then Valid() && reached == chain.best
              else ok && Short(chain.best, old(chain.bestHeight), false, env, reached, failed)
      ensures old(chain.Complete()) ==> (chain.Complete() <==> complete)
    {
      hide Connected, ArchiveOk, Replay, BlockRules, Short, Advances, RestJoins, MainChain.LinksSound;
      hide MainChain.LinksComplete, WellFormed, IsAncestor;
      ghost var a := View();
      Tree(chain.best);
      var savedDb, savedContents := db, contents;
      IndexBlock(b, body);
      Tree(chain.best);
      ok, complete, reached, failed := true, true, chain.best, chain.best;
      if chain.index[b.hash].trust > chain.bestTrust {
        ok, complete, reached, failed := SetBestChain(b.hash, false, env);
        if !ok {
          GiveUp(savedDb, savedContents, a, b, body);
        }
      }
    }

    /** A new block on an indexed one that keeps the rules for single blocks and passes the checks outside this
        model. */
    ghost predicate Offered(b: ChainState.NewBlock, body: Block, checked: bool)
      reads chain`index
    {
      && b.hash !in chain.index && b.prev in chain.index && body.hash == b.hash && checked
      && BlockRules(store, heightOf, chain.index[b.prev].height + 1, body)
    }

    /** `AcceptBlock`: what keeps the rules and passes the side-branch check is written. */
    method AcceptBlock(b: ChainState.NewBlock, body: Block, checked: bool, env: Env)
      returns (indexed: bool, complete: bool, ghost passed: bool, ghost ancestor: Hash, ghost branch: seq<Block>,
               ghost reached: Hash, ghost failed: Hash)
      requires Valid() && chain.Complete() && AllStored(store, body.txs)
      modifies this`contents, this`db, this`supply
      modifies chain`index, chain`next, chain`best, chain`bestHeight, chain`bestTrust, chain`lastFound
      ensures chain.Valid() && (chain.Complete() <==> complete)
      ensures old(Offered(b, body, checked)) ==>
                old(Verdict(b.prev, body, env.readable, passed, ancestor, branch))
      ensures indexed <==> old(Offered(b, body, checked)) && passed
      ensures indexed ==> Entered(old(View()), b, body, old(chain.best), env, b.hash in contents)
      ensures indexed ==> (complete <==> (chain.best == b.hash ==>
                RestJoins(WithBlock(old(View()), b, body), old(chain.best), b.hash, false, env)))
      ensures !indexed ==> complete && View() == old(View()) && chain.best == old(chain.best) && db == old(db)
      ensures if complete then Valid() && reached == chain.best
              else Short(chain.best, old(chain.bestHeight), false, env, reached, failed)
    {
      hide Connected, ArchiveOk, SuppliesRight, Replay, BlockRules, Short, Verdict, MainChain.LinksSound, AllStored,
           MainChain.LinksComplete, WellFormed, IsAncestor, Advances, RestJoins;
      indexed, complete, passed, ancestor, branch := false, true, false, chain.best, [];
      reached, failed := chain.best, chain.best;
      if b.hash in chain.index || b.prev !in chain.index || body.hash != b.hash || !checked {
        return;
      }
      var fits := CheckContents(body, chain.index[b.prev].height + 1);
      if !fits {
        return;
      }
      var ok;
      ok, ancestor, branch := VerifyInputsUnspent(b.prev, body, env.readable);
      passed := ok;
      if !ok {
        return;
      }
      VerdictArchived(b.prev, body, env.readable, ancestor, branch);
      indexed := true;
      NotStored(b.hash);
      ok, complete, reached, failed := WriteToDisk(b, body, env);
    }

    lemma VerdictArchived(prev: Hash, block: Block, readable: Hash -> bool, ancestor: Hash, branch: seq<Block>)
      requires Verdict(prev, block, readable, true, ancestor, branch)
      ensures Archived(View(), prev)
    {
    }

    lemma NotStored(h: Hash)
      requires Connected(chain.best) && h !in chain.index
      ensures h !in contents
    {
    }

    /** The index if a postponed block `failed`: that of the chain up to `reached`, or between it and that of
        the failed block, with the entries under `written` taken from the latter. */
    ghost predicate Torn(reached: Hash, failed: Hash, written: set<Hash>)
      reads this, chain
    {
      && Connected(reached) && chain.best in chain.index && Archived(View(), chain.best)
      && failed in chain.index && failed in contents
      && reached != chain.best && IsAncestor(chain.index, chain.genesis, reached, chain.best)
      && chain.index[failed].prev == Some(reached) && IsAncestor(chain.index, chain.genesis, failed, chain.best)
      && written <= TouchedIds(contents[failed].txs)
      && if written == {} then Replay(View(), reached) == Some(db)
         else Replay(View(), failed).Some?
              && db == Overlaid(Replay(View(), reached).value, Replay(View(), failed).value, written)
    }

    lemma ShortIsTorn(height: nat, separate: bool, env: Env, reached: Hash, failed: Hash) returns (written: set<Hash>)
      requires chain.best in chain.index && Short(chain.best, height, separate, env, reached, failed)
      ensures Torn(reached, failed, written)
    {
      hide ArchiveOk, SuppliesRight, Replay, PassesChecks, ConnectTxs, TouchedIds, Joins, Overlaid, WrittenIds;
      written := {};
      if !separate && env.readable(failed) {
        var idx, txs, out := Replay(View(), reached).value, contents[failed].txs, env.others(failed);
        ReplayStep(View(), failed);
        var next := ConnectTxs(idx, txs, failed);
        if next.Some? && PassesChecks(View(), failed, height, env) && out.records {
          written := WrittenIds(TouchedIds(txs), out.writesEntry);
          WrittenSome(TouchedIds(txs), out.writesEntry);
          NoIds(idx, next.value);
        }
      }
    }

    /** Such an index is a replay only if nothing or everything was written: that of the chain up to `reached`
        exactly in the first case, and that of the failed block exactly in the second. */
    lemma TornIff(reached: Hash, failed: Hash, written: set<Hash>)
      requires Torn(reached, failed, written)
      ensures Replay(View(), reached) == Some(db) <==> written == {}
      ensures Replay(View(), failed).Some? ==>
                (Replay(View(), failed) == Some(db) <==> written == TouchedIds(contents[failed].txs))
    {
      hide ArchiveOk, SuppliesRight, Replay, ConnectTxs, TouchedIds, Overlaid, MainBlocks, ChainRules, Distinct, Ids;
      hide AllTxs;
      ReplayStep(View(), failed);
      if Replay(View(), failed).Some? {
        var idx, txs := Replay(View(), reached).value, contents[failed].txs;
        FailedIsFresh(View(), failed);
        PartlyWrittenIff(idx, txs, failed, written);
        NoIds(idx, Replay(View(), failed).value);
      }
    }

    /** One event. */
    method Handle(e: Event)
      returns (complete: bool, ghost reached: Hash, ghost failed: Hash, ghost written: set<Hash>)
      requires Valid() && chain.Complete() && (e.Arrives? ==> AllStored(store, e.body.txs))
      modifies this`contents, this`db, this`supply
      modifies chain`index, chain`next, chain`best, chain`bestHeight, chain`bestTrust, chain`lastFound
      ensures chain.Valid() && (complete <==> chain.Complete()) && SameArchived(old(View()), View())
      ensures if complete then Valid() && reached == chain.best else Torn(reached, failed, written)
    {
      hide Connected, ArchiveOk, SuppliesRight, Replay, Short, Torn, Verdict, MainChain.LinksSound, AllStored, Advances;
      hide MainChain.LinksComplete, WellFormed, IsAncestor, Entered, BlockRules;
      complete, reached, failed, written := true, chain.best, chain.best, {};
      ghost var height := chain.bestHeight;
      if e.Arrives? {
        ghost var a, best := View(), chain.best;
        var indexed;
        ghost var passed, ancestor, branch;
        indexed, complete, passed, ancestor, branch, reached, failed := AcceptBlock(e.block, e.body, e.checked, e.env);
        if indexed {
          AfterWriting(a, e.block, e.body, best, e.env);
        }
      } else if e.top in chain.index && !MainChain.InMainChain(chain.next, chain.best, e.top)
                && e.top in contents && e.env.readable(e.top) {
        var ok;
        ok, complete, reached, failed := SetBestChain(e.top, true, e.env);
      }
      if !complete {
        written := ShortIsTorn(height, e.SwitchTo?, e.env, reached, failed);
      }
    }

    /** Any run of arriving blocks and of switches to other branches.  Until a postponed block fails to
        connect, the index is that of a plain replay of the main chain, and the supply recorded with the best
        block is the total of the unspent outputs; if one fails, the index is that of a lower block, but for
        what the failed block wrote.  A block that is not on disk never is again. */
    method Run(events: seq<Event>)
      returns (complete: bool, ghost reached: Hash, ghost failed: Hash, ghost written: set<Hash>)
      requires Valid() && chain.Complete()
      requires forall e :: e in events && e.Arrives? ==> AllStored(store, e.body.txs)
      modifies this`contents, this`db, this`supply
      modifies chain`index, chain`next, chain`best, chain`bestHeight, chain`bestTrust, chain`lastFound
      ensures chain.Valid() && (complete <==> chain.Complete()) && SameArchived(old(View()), View())
      ensures if complete then Valid() && reached == chain.best else Torn(reached, failed, written)
      ensures Connected(reached) && supply[reached] == UnspentTotal(store, Replay(View(), reached).value)
      ensures complete ==> ConnectBlocks(map[], MainBlocks(View(), chain.best)) == Some(db)
    {
      hide Connected, ArchiveOk, SuppliesRight, Replay, MainChain.LinksSound, MainChain.LinksComplete, WellFormed,
           IsAncestor, AllStored, Torn, ConnectBlocks, MainBlocks;
      complete, reached, failed, written := true, chain.best, chain.best, {};
      var i := 0;
      while i < |events| && complete
        invariant 0 <= i <= |events|
        invariant chain.Valid() && (complete <==> chain.Complete()) && SameArchived(old(View()), View())
        invariant if complete then Valid() && reached == chain.best else Torn(reached, failed, written)
        decreases |events| - i
      {
        complete, reached, failed, written := Handle(events[i]);
        i := i + 1;
      }
      Recorded(reached, complete, failed, written);
    }

    lemma Recorded(reached: Hash, complete: bool, failed: Hash, written: set<Hash>)
      requires if complete then At(reached) else Torn(reached, failed, written)
      ensures Connected(reached) && supply[reached] == UnspentTotal(store, Replay(View(), reached).value)
      ensures complete ==> ConnectBlocks(map[], MainBlocks(View(), reached)) == Some(db)
    {
      SupplyHere(View(), supply, reached);
    }

    /** Only the new block's contents can be new. */
    lemma AfterWriting(a: Archive, b: ChainState.NewBlock, body: Block, best: Hash, env: Env)
      requires store == a.store && heightOf == a.heightOf && chain.genesis == a.root && b.hash !in a.t
      requires Entered(a, b, body, best, env, b.hash in contents)
      ensures SameArchived(a, View())
    {
      hide ArchiveOk, Advances, MainChain.LinksSound, WellFormed, IsAncestor;
    }
  }

  // A block that nothing can be put on

  /** A block at `height` that holds only its coinbase. */
  function PlainBlock(hash: Hash, height: nat): Block {
    Block(hash, [Tx(10 + height, CoinBase, [], [50])])
  }

  function PlainStore(): map<Hash, Tx> {
    map[11 := Tx(11, CoinBase, [], [50]), 12 := Tx(12, CoinBase, [], [50])]
  }

  function HeightIn(tx: Tx): nat {
    if tx.hash < 10 then 0 else tx.hash - 10
  }

  /** Nothing outside this model objects, except to connecting block 2. */
  function ButForTwo(): Env {
    Env(true, true, _ => true, _ => true, _ => true, _ => true, _ => true,
        b => Outside(b != 2, _ => true, _ => 0, None, true, _ => true, true))
  }

  /** The node before any block arrives. */
  function StartArchive(): Archive {
    Archive(PlainStore(), HeightIn, map[1 := Entry(None, 0, 0)], 1, map[])
  }

  /** Block 2 arrives, is heavier than the genesis block and fails to connect: it is indexed but not on disk. */
  method LosesContents() returns (node: FullNode, indexed: bool)
    ensures indexed && fresh(node) && fresh(node.chain) && node.Valid() && node.chain.Complete()
    ensures node.View() == WithEntry(StartArchive(), ChainState.NewBlock(2, 1, 1))
  {
    hide ArchiveOk, Replay, SuppliesRight, Advances, WellFormed, IsAncestor, BlockRules, AllStored;
    hide MainChain.LinksSound, MainChain.LinksComplete, FullNode.Connected, FullNode.Verdict;
    PlainOk();
    node := new FullNode(PlainStore(), HeightIn, 1, 0, false, ChainState.Strict);
    var complete;
    ghost var passed, ancestor, branch, reached, failed;
    FirstPasses(node);
    indexed, complete, passed, ancestor, branch, reached, failed :=
      node.AcceptBlock(ChainState.NewBlock(2, 1, 1), PlainBlock(2, 1), true, ButForTwo());
    FirstFails();
  }

  lemma FirstPasses(node: FullNode)
    requires node.Valid() && node.View() == StartArchive() && node.chain.best == 1
    ensures forall passed, ancestor, branch ::
              node.Verdict(1, PlainBlock(2, 1), ButForTwo().readable, passed, ancestor, branch) ==> passed
  {
    forall passed, ancestor, branch |
      node.Verdict(1, PlainBlock(2, 1), ButForTwo().readable, passed, ancestor, branch)
      ensures passed
    {
      PlainOk();
      FirstFree(BranchCheck.OutputCounts(node.store), node.db.Keys + SpendCheck.Queued(AllTxs(branch)));
      hide BlockRules, SpendCheck.InputsFree, SpendCheck.Queued;
      assert Replay(node.View(), 1) == Some(map[]);
    }
  }

  lemma FirstFree(width: map<Hash, nat>, known: set<Hash>)
    ensures SpendCheck.InputsFree(width, known, map[], PlainBlock(2, 1).txs)
  {
    OneTx(map[], PlainBlock(2, 1).txs[0], 2);
  }

  lemma FirstFails()
    ensures var a := WithBlock(StartArchive(), ChainState.NewBlock(2, 1, 1), PlainBlock(2, 1));
            ArchiveOk(a) ==> !Advances(a, 1, 2, false, ButForTwo())
  {
  }

  /** Block 3 then arrives on top of block 2 and is refused, although the two replay. */
  method RefusesChild() returns (node: FullNode, first: bool, second: bool)
    ensures first && !second && node.Valid() && node.chain.Complete()
    ensures 2 in node.chain.index && !Archived(node.View(), 2) && 3 !in node.chain.index
    ensures ConnectBlocks(map[], [PlainBlock(2, 1), PlainBlock(3, 2)]).Some?
  {
    hide ArchiveOk, Replay, SuppliesRight, Advances, WellFormed, IsAncestor, BlockRules, AllStored, ConnectBlocks;
    hide MainChain.LinksSound, MainChain.LinksComplete, FullNode.Connected, FullNode.Verdict;
    PlainOk();
    node, first := LosesContents();
    var complete;
    ghost var passed, ancestor, branch, reached, failed;
    NeverPasses(node);
    second, complete, passed, ancestor, branch, reached, failed :=
      node.AcceptBlock(ChainState.NewBlock(3, 2, 1), PlainBlock(3, 2), true, ButForTwo());
  }

  lemma NeverPasses(node: FullNode)
    requires 2 in node.chain.index && !Archived(node.View(), 2)
    ensures forall passed, ancestor, branch ::
              node.Verdict(2, PlainBlock(3, 2), ButForTwo().readable, passed, ancestor, branch) ==> !passed
  {
  }

  lemma PlainOk()
    ensures AllStored(PlainStore(), PlainBlock(2, 1).txs) && AllStored(PlainStore(), PlainBlock(3, 2).txs)
    ensures BlockRules(PlainStore(), HeightIn, 1, PlainBlock(2, 1))
    ensures BlockRules(PlainStore(), HeightIn, 2, PlainBlock(3, 2))
    ensures ConnectBlocks(map[], [PlainBlock(2, 1), PlainBlock(3, 2)]).Some?
  {
    var a, b := PlainBlock(2, 1), PlainBlock(3, 2);
    OneTx(map[], a.txs[0], a.hash);
    OneTx(map[11 := Unspent(2, 1)], b.txs[0], b.hash);
    ConnectBlocksLast(map[], [], a);
    ConnectBlocksLast(map[], [a], b);
    assert [] + [a] == [a] && [a] + [b] == [a, b];
  }
}
