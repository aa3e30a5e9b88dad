/** The block tree that `mapBlockIndex` holds: every indexed block points back to its
    predecessor, and the ancestor relation is what all chain-selection and checkpoint
    rules are stated in.  Blocks are named by their hash, so a pointer to a
    `CBlockIndex` is the hash it is indexed under. */
module BlockTree {
  import opened Basics

  /** The fields of a `CBlockIndex` that never change once the block is indexed. */
  datatype Entry = Entry(prev: Option<Hash>, height: nat, trust: nat)

  type Tree = map<Hash, Entry>

  /** Predecessors are indexed and one block lower; only the root has none. */
  ghost predicate WellFormed(t: Tree, root: Hash) {
    && root in t
    && t[root].prev.None?
    && (forall h :: h in t ==> LinkOk(t, root, h))
  }

  ghost predicate LinkOk(t: Tree, root: Hash, h: Hash)
    requires h in t
  {
    match t[h].prev
    case None => h == root && t[h].height == 0
    case Some(p) => p in t && t[h].height == t[p].height + 1
  }

  /** `a` is `b` or lies below it on the way to the root. */
  ghost predicate IsAncestor(t: Tree, root: Hash, a: Hash, b: Hash)
    requires WellFormed(t, root) && b in t
    decreases t[b].height
  {
    assert LinkOk(t, root, b);
    a == b || (t[b].prev.Some? && IsAncestor(t, root, a, t[b].prev.value))
  }

  lemma {:induction false} AncestorBounds(t: Tree, root: Hash, a: Hash, b: Hash)
    requires WellFormed(t, root) && b in t && IsAncestor(t, root, a, b)
    ensures a in t && t[a].height <= t[b].height
    ensures t[a].height == t[b].height ==> a == b
    decreases t[b].height
  {
    assert LinkOk(t, root, b);
    if a != b {
      AncestorBounds(t, root, a, t[b].prev.value);
    }
  }

  lemma {:induction false} AncestorTransitive(t: Tree, root: Hash, a: Hash, b: Hash, c: Hash)
    requires WellFormed(t, root) && b in t && c in t
    requires IsAncestor(t, root, a, b) && IsAncestor(t, root, b, c)
    ensures IsAncestor(t, root, a, c)
    decreases t[c].height
  {
    assert LinkOk(t, root, c);
    if b != c {
      AncestorTransitive(t, root, a, b, t[c].prev.value);
    }
  }

  /** The ancestors of a block form a chain: of two, the lower is an ancestor of the other. */
  lemma {:induction false} AncestorsLinear(t: Tree, root: Hash, a: Hash, b: Hash, c: Hash)
    requires WellFormed(t, root) && c in t
    requires IsAncestor(t, root, a, c) && IsAncestor(t, root, b, c)
    ensures a in t && b in t
    ensures t[a].height <= t[b].height ==> IsAncestor(t, root, a, b)
    decreases t[c].height
  {
    assert LinkOk(t, root, c);
    AncestorBounds(t, root, a, c);
    AncestorBounds(t, root, b, c);
    if b != c && a != c {
      AncestorsLinear(t, root, a, b, t[c].prev.value);
    }
  }

  lemma {:induction false} RootIsAncestor(t: Tree, root: Hash, b: Hash)
    requires WellFormed(t, root) && b in t
    ensures IsAncestor(t, root, root, b)
    decreases t[b].height
  {
    assert LinkOk(t, root, b);
    if b != root {
      RootIsAncestor(t, root, t[b].prev.value);
    }
  }

  /** A proper ancestor is an ancestor of the predecessor. */
  lemma ProperAncestor(t: Tree, root: Hash, a: Hash, b: Hash)
    requires WellFormed(t, root) && b in t && IsAncestor(t, root, a, b) && a != b
    ensures t[b].prev.Some? && t[b].prev.value in t && IsAncestor(t, root, a, t[b].prev.value)
  {
    assert LinkOk(t, root, b);
  }

  lemma PrevIsAncestor(t: Tree, root: Hash, b: Hash)
    requires WellFormed(t, root) && b in t && t[b].prev.Some?
    ensures t[b].prev.value in t && t[t[b].prev.value].height + 1 == t[b].height
    ensures IsAncestor(t, root, t[b].prev.value, b)
  {
    assert LinkOk(t, root, b);
    assert IsAncestor(t, root, t[b].prev.value, t[b].prev.value);
  }

  /** Two different ancestors of one block cannot share their predecessor. */
  lemma SiblingsEqual(t: Tree, root: Hash, x: Hash, y: Hash, c: Hash)
    requires WellFormed(t, root) && c in t && x in t && y in t
    requires IsAncestor(t, root, x, c) && IsAncestor(t, root, y, c)
    requires t[x].prev.Some? && t[x].prev == t[y].prev
    ensures x == y
  {
    assert LinkOk(t, root, x) && LinkOk(t, root, y);
    AncestorsLinear(t, root, x, y, c);
    AncestorBounds(t, root, x, y);
  }

  /** The tree after indexing a new leaf. */
  ghost predicate Extends(t: Tree, t': Tree) {
    forall h :: h in t ==> h in t' && t'[h] == t[h]
  }

  lemma {:induction false} AncestorExtends(t: Tree, t': Tree, root: Hash, a: Hash, b: Hash)
    requires WellFormed(t, root) && WellFormed(t', root) && Extends(t, t') && b in t
    ensures IsAncestor(t, root, a, b) <==> IsAncestor(t', root, a, b)
    decreases t[b].height
  {
    assert LinkOk(t, root, b);
    if t[b].prev.Some? {
      AncestorExtends(t, t', root, a, t[b].prev.value);
    }
  }

  /** The blocks from `tip` down to, but without, its ancestor `base`. */
  ghost function Path(t: Tree, root: Hash, tip: Hash, base: Hash): (p: seq<Hash>)
    requires WellFormed(t, root) && tip in t && IsAncestor(t, root, base, tip)
    ensures forall h :: h in p <==> IsBetween(t, root, base, h, tip)
    decreases t[tip].height
  {
    assert LinkOk(t, root, tip);
    if tip == base then
      assert forall h :: !IsBetween(t, root, base, h, tip) by {
        forall h | IsBetween(t, root, base, h, tip) ensures false { BetweenHeights(t, root, base, h, tip); }
      }
      []
    else
      ProperAncestor(t, root, base, tip);
      var rest := Path(t, root, t[tip].prev.value, base);
      PathStep(t, root, tip, base);
      [tip] + rest
  }

  /** `h` is on the way from `base` (excluded) to `tip` (included). */
  ghost predicate IsBetween(t: Tree, root: Hash, base: Hash, h: Hash, tip: Hash)
    requires WellFormed(t, root) && tip in t
  {
    h in t && h != base && IsAncestor(t, root, base, h) && IsAncestor(t, root, h, tip)
  }

  lemma BetweenHeights(t: Tree, root: Hash, base: Hash, h: Hash, tip: Hash)
    requires WellFormed(t, root) && tip in t && IsBetween(t, root, base, h, tip)
    ensures base in t && t[base].height < t[h].height <= t[tip].height
  {
    AncestorBounds(t, root, base, h);
    AncestorBounds(t, root, h, tip);
  }

  lemma PathStep(t: Tree, root: Hash, tip: Hash, base: Hash)
    requires WellFormed(t, root) && tip in t && IsAncestor(t, root, base, tip) && base != tip
    requires t[tip].prev.Some? && t[tip].prev.value in t
    ensures forall h :: IsBetween(t, root, base, h, tip) <==>
                        (h == tip || IsBetween(t, root, base, h, t[tip].prev.value))
  {
    var p := t[tip].prev.value;
    assert LinkOk(t, root, tip);
    forall h
      ensures IsBetween(t, root, base, h, tip) <==> (h == tip || IsBetween(t, root, base, h, p))
    {
      if IsBetween(t, root, base, h, tip) && h != tip {
        ProperAncestor(t, root, h, tip);
      }
      if IsBetween(t, root, base, h, p) {
        PrevIsAncestor(t, root, tip);
        AncestorTransitive(t, root, h, p, tip);
      }
    }
  }

  /** Each block of a path sits on the next one, the last on the base. */
  lemma {:induction false} PathAt(t: Tree, root: Hash, tip: Hash, base: Hash, i: nat)
    requires WellFormed(t, root) && tip in t && IsAncestor(t, root, base, tip)
    requires i < |Path(t, root, tip, base)|
    ensures var p := Path(t, root, tip, base);
            p[0] == tip && p[i] in t && t[p[i]].prev == Some(if i + 1 < |p| then p[i + 1] else base)
    decreases i
  {
    ProperAncestor(t, root, base, tip);
    var below := t[tip].prev.value;
    assert Path(t, root, tip, base) == [tip] + Path(t, root, below, base);
    if i > 0 {
      PathAt(t, root, below, base, i - 1);
    } else if below != base {
      PathHead(t, root, below, base);
    }
  }

  lemma PathHead(t: Tree, root: Hash, tip: Hash, base: Hash)
    requires WellFormed(t, root) && tip in t && IsAncestor(t, root, base, tip) && tip != base
    ensures Path(t, root, tip, base) != [] && Path(t, root, tip, base)[0] == tip
  {
  }

  /** Going one block further down appends that block to the path. */
  lemma {:induction false} PathSnoc(t: Tree, root: Hash, tip: Hash, base: Hash)
    requires WellFormed(t, root) && tip in t && IsAncestor(t, root, base, tip)
    requires base in t && t[base].prev.Some?
    ensures IsAncestor(t, root, t[base].prev.value, tip)
    ensures Path(t, root, tip, t[base].prev.value) == Path(t, root, tip, base) + [base]
    decreases t[tip].height
  {
    var below := t[base].prev.value;
    PrevIsAncestor(t, root, base);
    AncestorTransitive(t, root, below, base, tip);
    AncestorBounds(t, root, base, tip);
    assert below != tip;
    if tip == base {
      assert Path(t, root, tip, below) == [tip] + Path(t, root, below, below);
    } else {
      ProperAncestor(t, root, base, tip);
      PathSnoc(t, root, t[tip].prev.value, base);
    }
  }

  /** `f` is a common ancestor of `x` and `y`, and every common ancestor is below it. */
  ghost predicate IsGreatestCommonAncestor(t: Tree, root: Hash, f: Hash, x: Hash, y: Hash)
    requires WellFormed(t, root) && x in t && y in t
  {
    && f in t
    && IsAncestor(t, root, f, x)
    && IsAncestor(t, root, f, y)
    && (forall c :: c in t && IsAncestor(t, root, c, x) && IsAncestor(t, root, c, y) ==> IsAncestor(t, root, c, f))
  }
}
