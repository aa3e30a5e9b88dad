/** How the `pnext` pointers mark the main chain of a block tree, and what relinking a
    branch does to them.  A missing key is a null `pnext`. */
module MainChain {
  import opened Basics
  import opened BlockTree

  type Links = map<Hash, Hash>

  /** Every `pnext` leads one step up, towards the tip. */
  ghost predicate LinksSound(t: Tree, root: Hash, next: Links, tip: Hash)
    requires WellFormed(t, root) && tip in t
  {
    forall b :: b in next ==> LinkSound(t, root, next, tip, b)
  }

  ghost predicate LinkSound(t: Tree, root: Hash, next: Links, tip: Hash, b: Hash)
    requires WellFormed(t, root) && tip in t && b in next
  {
    next[b] in t && t[next[b]].prev == Some(b) && IsAncestor(t, root, next[b], tip)
  }

  /** Every proper ancestor of the tip has its `pnext` set. */
  ghost predicate LinksComplete(t: Tree, root: Hash, next: Links, tip: Hash)
    requires WellFormed(t, root) && tip in t
  {
    forall b :: b in t && IsAncestor(t, root, b, tip) && b != tip ==> b in next
  }

  /** `CBlockIndex::IsInMainChain`. */
  predicate InMainChain(next: Links, tip: Hash, b: Hash) {
    b in next || b == tip
  }

  /** Sound links never call a block off the tip's chain a main-chain block. */
  lemma InMainChainIsAncestor(t: Tree, root: Hash, next: Links, tip: Hash, b: Hash)
    requires WellFormed(t, root) && tip in t && LinksSound(t, root, next, tip)
    requires InMainChain(next, tip, b)
    ensures b in t && IsAncestor(t, root, b, tip)
  {
    if b in next {
      assert LinkSound(t, root, next, tip, b);
      PrevIsAncestor(t, root, next[b]);
      AncestorTransitive(t, root, b, next[b], tip);
    }
  }

  /** With complete links, being in the main chain is being an ancestor of the tip. */
  lemma InMainChainIff(t: Tree, root: Hash, next: Links, tip: Hash)
    requires WellFormed(t, root) && tip in t
    requires LinksSound(t, root, next, tip) && LinksComplete(t, root, next, tip)
    ensures forall b :: b in t ==> (InMainChain(next, tip, b) <==> IsAncestor(t, root, b, tip))
  {
    forall b | b in t && InMainChain(next, tip, b)
      ensures IsAncestor(t, root, b, tip)
    {
      InMainChainIsAncestor(t, root, next, tip, b);
    }
  }

  /** Sound and complete links are determined by the tip. */
  lemma LinksUnique(t: Tree, root: Hash, n1: Links, n2: Links, tip: Hash)
    requires WellFormed(t, root) && tip in t
    requires LinksSound(t, root, n1, tip) && LinksComplete(t, root, n1, tip)
    requires LinksSound(t, root, n2, tip) && LinksComplete(t, root, n2, tip)
    ensures n1 == n2
  {
    forall b | b in n1
      ensures b in n2 && n1[b] == n2[b]
    {
      LinksAgree(t, root, n1, n2, tip, b);
    }
    forall b | b in n2
      ensures b in n1
    {
      LinksAgree(t, root, n2, n1, tip, b);
    }
  }

  lemma LinksAgree(t: Tree, root: Hash, n1: Links, n2: Links, tip: Hash, b: Hash)
    requires WellFormed(t, root) && tip in t && b in n1
    requires LinksSound(t, root, n1, tip)
    requires LinksSound(t, root, n2, tip) && LinksComplete(t, root, n2, tip)
    ensures b in n2 && n1[b] == n2[b]
  {
    assert LinkSound(t, root, n1, tip, b);
    InMainChainIsAncestor(t, root, n1, tip, b);
    if b == tip {
      PrevIsAncestor(t, root, n1[b]);
      AncestorBounds(t, root, n1[b], tip);
    }
    assert LinkSound(t, root, n2, tip, b);
    SiblingsEqual(t, root, n1[b], n2[b], tip);
  }

  /** `Unlinked` forgets the links into the blocks of `path`. */
  ghost predicate Unlinked(t: Tree, next: Links, path: seq<Hash>, next': Links) {
    && (forall b :: b in next' ==> b in next && next'[b] == next[b])
    && (forall b :: b in next && b !in next' ==> exists x :: x in path && x in t && t[x].prev == Some(b))
    && (forall x :: x in path && x in t && t[x].prev.Some? ==> t[x].prev.value !in next')
  }

  /** `Linked` adds a link into every block of `path`. */
  ghost predicate Linked(t: Tree, next: Links, path: seq<Hash>, next': Links) {
    && (forall b :: b in next ==> b in next')
    && (forall b :: b in next' ==> (b in next && next'[b] == next[b]) ||
                                   (next'[b] in path && next'[b] in t && t[next'[b]].prev == Some(b)))
    && (forall x :: x in path && x in t && t[x].prev.Some? ==> t[x].prev.value in next')
  }

  /** Unlinking the old branch leaves links that lead towards the fork point. */
  lemma UnlinkSound(t: Tree, root: Hash, next: Links, next': Links, tip: Hash, fork: Hash)
    requires WellFormed(t, root) && tip in t && fork in t && IsAncestor(t, root, fork, tip)
    requires LinksSound(t, root, next, tip)
    requires Unlinked(t, next, Path(t, root, tip, fork), next')
    ensures LinksSound(t, root, next', fork)
    ensures LinksComplete(t, root, next, tip) ==> LinksComplete(t, root, next', fork)
    ensures forall b :: b in t && IsAncestor(t, root, b, fork) && b != fork ==> (b in next <==> b in next')
  {
    forall b | b in next'
      ensures LinkSound(t, root, next', fork, b)
    {
      assert LinkSound(t, root, next, tip, b);
      var x := next[b];
      if x in Path(t, root, tip, fork) {
        assert false;
      }
      AncestorsLinear(t, root, fork, x, tip);
      AncestorsLinear(t, root, x, fork, tip);
    }
    forall b | b in t && IsAncestor(t, root, b, fork) && b != fork
      ensures b in next <==> b in next'
    {
      if b in next && b !in next' {
        var x :| x in Path(t, root, tip, fork) && x in t && t[x].prev == Some(b);
        assert IsBetween(t, root, fork, x, tip);
        ProperAncestor(t, root, fork, x);
        AncestorBounds(t, root, fork, b);
        AncestorBounds(t, root, b, fork);
        assert false;
      }
    }
    if LinksComplete(t, root, next, tip) {
      forall b | b in t && IsAncestor(t, root, b, fork) && b != fork
        ensures b in next'
      {
        AncestorTransitive(t, root, b, fork, tip);
        if b == tip {
          AncestorBounds(t, root, fork, tip);
          AncestorBounds(t, root, tip, fork);
        }
      }
    }
  }

  /** Linking the new branch makes its tip the tip. */
  lemma LinkSoundAfter(t: Tree, root: Hash, next: Links, next': Links, fork: Hash, tip: Hash)
    requires WellFormed(t, root) && tip in t && fork in t && IsAncestor(t, root, fork, tip)
    requires LinksSound(t, root, next, fork)
    requires Linked(t, next, Path(t, root, tip, fork), next')
    ensures LinksSound(t, root, next', tip)
    ensures LinksComplete(t, root, next, fork) ==> LinksComplete(t, root, next', tip)
    ensures forall b :: b in t && IsAncestor(t, root, fork, b) && IsAncestor(t, root, b, tip) && b != tip ==> b in next'
    ensures forall b :: b in t && IsAncestor(t, root, b, fork) && b != fork ==> (b in next <==> b in next')
  {
    forall b | b in next'
      ensures LinkSound(t, root, next', tip, b)
    {
      if b in next && next'[b] == next[b] {
        assert LinkSound(t, root, next, fork, b);
        AncestorTransitive(t, root, next[b], fork, tip);
      } else {
        assert IsBetween(t, root, fork, next'[b], tip);
      }
    }
    forall b | b in t && IsAncestor(t, root, fork, b) && IsAncestor(t, root, b, tip) && b != tip
      ensures b in next'
    {
      var x := ChildTowards(t, root, b, tip);
      PrevIsAncestor(t, root, x);
      AncestorTransitive(t, root, fork, b, x);
      AncestorBounds(t, root, fork, b);
      assert IsBetween(t, root, fork, x, tip);
      assert x in Path(t, root, tip, fork);
    }
    forall b | b in t && IsAncestor(t, root, b, fork) && b != fork
      ensures b in next <==> b in next'
    {
      if b in next' && b !in next {
        assert IsBetween(t, root, fork, next'[b], tip);
        ProperAncestor(t, root, fork, next'[b]);
        AncestorBounds(t, root, fork, b);
        AncestorBounds(t, root, b, fork);
        assert false;
      }
    }
    if LinksComplete(t, root, next, fork) {
      forall b | b in t && IsAncestor(t, root, b, tip) && b != tip
        ensures b in next'
      {
        AncestorsLinear(t, root, b, fork, tip);
        AncestorsLinear(t, root, fork, b, tip);
      }
    }
  }

  /** The links `next'` a reorganisation from a tip to `top`, parting at `fork`, may leave:
      they lead to `top`, all links above the fork are set, those below it are as before. */
  ghost predicate Relinked(t: Tree, root: Hash, next: Links, fork: Hash, top: Hash, next': Links)
    requires WellFormed(t, root) && fork in t && top in t
  {
    && LinksSound(t, root, next', top)
    && (forall b :: b in t && IsAncestor(t, root, fork, b) && IsAncestor(t, root, b, top) && b != top ==> b in next')
    && (forall b :: b in t && IsAncestor(t, root, b, fork) && b != fork ==> (b in next <==> b in next'))
  }

  lemma ReorganisedLinks(t: Tree, root: Hash, next: Links, tip: Hash, fork: Hash, between: Links, top: Hash,
                         next': Links)
    requires WellFormed(t, root) && tip in t && fork in t && top in t
    requires IsAncestor(t, root, fork, tip) && IsAncestor(t, root, fork, top)
    requires LinksSound(t, root, next, tip)
    requires Unlinked(t, next, Path(t, root, tip, fork), between)
    requires Linked(t, between, Path(t, root, top, fork), next')
    ensures Relinked(t, root, next, fork, top, next')
    ensures LinksComplete(t, root, next, tip) ==> LinksComplete(t, root, next', top)
  {
    UnlinkSound(t, root, next, between, tip, fork);
    LinkSoundAfter(t, root, between, next', fork, top);
  }

  /** The block above `b` on the way to `tip`. */
  lemma {:induction false} ChildTowards(t: Tree, root: Hash, b: Hash, tip: Hash) returns (x: Hash)
    requires WellFormed(t, root) && b in t && tip in t && IsAncestor(t, root, b, tip) && b != tip
    ensures x in t && t[x].prev == Some(b) && IsAncestor(t, root, x, tip)
    decreases t[tip].height
  {
    ProperAncestor(t, root, b, tip);
    PrevIsAncestor(t, root, tip);
    var p := t[tip].prev.value;
    if b == p {
      x := tip;
    } else {
      x := ChildTowards(t, root, b, p);
      AncestorTransitive(t, root, x, p, tip);
    }
  }

  /** Connecting one block on top of the tip. */
  lemma LinkOneSound(t: Tree, root: Hash, next: Links, tip: Hash, top: Hash)
    requires WellFormed(t, root) && tip in t && top in t && t[top].prev == Some(tip)
    requires LinksSound(t, root, next, tip)
    ensures LinksSound(t, root, next[tip := top], top)
    ensures LinksComplete(t, root, next, tip) <==> LinksComplete(t, root, next[tip := top], top)
  {
    var next' := next[tip := top];
    PrevIsAncestor(t, root, top);
    forall b | b in next'
      ensures LinkSound(t, root, next', top, b)
    {
      if b != tip {
        assert LinkSound(t, root, next, tip, b);
        AncestorTransitive(t, root, next[b], tip, top);
      }
    }
    forall b | b in t && b != tip && IsAncestor(t, root, b, tip)
      ensures b != top && IsAncestor(t, root, b, top)
    {
      AncestorTransitive(t, root, b, tip, top);
      AncestorBounds(t, root, b, tip);
    }
    forall b | b in t && b != top && IsAncestor(t, root, b, top)
      ensures IsAncestor(t, root, b, tip)
    {
      ProperAncestor(t, root, b, top);
    }
  }

  /** Links that lead towards a block below the tip also lead towards the tip, but the block
      itself is then missing from them. */
  lemma LinksBelowTip(t: Tree, root: Hash, next: Links, mid: Hash, tip: Hash)
    requires WellFormed(t, root) && tip in t && mid in t && IsAncestor(t, root, mid, tip)
    requires LinksSound(t, root, next, mid)
    ensures LinksSound(t, root, next, tip)
    ensures mid != tip ==> !LinksComplete(t, root, next, tip)
  {
    forall b | b in next
      ensures LinkSound(t, root, next, tip, b)
    {
      assert LinkSound(t, root, next, mid, b);
      AncestorTransitive(t, root, next[b], mid, tip);
    }
    if mid in next {
      assert LinkSound(t, root, next, mid, mid);
      PrevIsAncestor(t, root, next[mid]);
      AncestorBounds(t, root, next[mid], mid);
    }
  }

  /** Indexing a new block changes neither the links nor what they mean. */
  lemma LinksExtend(t: Tree, t': Tree, root: Hash, next: Links, tip: Hash)
    requires WellFormed(t, root) && WellFormed(t', root) && Extends(t, t') && tip in t
    requires LinksSound(t, root, next, tip)
    ensures LinksSound(t', root, next, tip)
    ensures LinksComplete(t, root, next, tip) <==> LinksComplete(t', root, next, tip)
  {
    forall b | b in next
      ensures LinkSound(t', root, next, tip, b)
    {
      assert LinkSound(t, root, next, tip, b);
      AncestorExtends(t, t', root, next[b], tip);
    }
    forall b
      ensures (b in t && IsAncestor(t, root, b, tip)) <==> (b in t' && IsAncestor(t', root, b, tip))
    {
      AncestorExtends(t, t', root, b, tip);
      if IsAncestor(t, root, b, tip) {
        AncestorBounds(t, root, b, tip);
      }
    }
  }
}
