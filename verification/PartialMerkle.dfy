/** Partial merkle trees (BIP 37): a set of transactions of a block with the hashes that prove
    they are in it, stored as a depth-first walk of flag bits and hashes. */
module PartialMerkle {
  import opened Basics
  import opened Merkle

  const MAX_BLOCK_SIZE := 1000000

  /** A lower bound on the size of a serialized transaction. */
  const MIN_TRANSACTION_SIZE := 60

  // The shape of the tree

  /** The number of nodes at a height of the tree over `n` leaves: n / 2^height, rounded up. */
  function Width(n: nat, height: nat): nat {
    (n + Pow2(height) - 1) / Pow2(height)
  }

  /** A node exists when its leftmost leaf does. */
  lemma InTree(n: nat, height: nat, pos: nat)
    ensures pos < Width(n, height) <==> pos * Pow2(height) < n
  {
    var p, w := Pow2(height), Width(n, height);
    assert w * p <= n + p - 1 < w * p + p by {
      DivisionBounds(n + p - 1, p);
    }
    if pos < w {
      MulMonotone(pos + 1, w, p);
    } else {
      MulMonotone(w, pos, p);
    }
  }

  lemma DivisionBounds(a: nat, p: nat)
    requires p >= 1
    ensures (a / p) * p <= a < (a / p) * p + p
  {
  }

  lemma MulMonotone(a: nat, b: nat, p: nat)
    requires a <= b
    ensures a * p <= b * p
    ensures (a + 1) * p == a * p + p
  {
  }

  /** Each level has half the nodes of the one below it, rounded up. */
  lemma WidthAbove(n: nat, height: nat)
    ensures Width(n, height + 1) == (Width(n, height) + 1) / 2
  {
    var w, below := Width(n, height + 1), Width(n, height);
    Doubled(w, height);
    InTree(n, height + 1, w);
    InTree(n, height, 2 * w);
    if w > 0 {
      Doubled(w - 1, height);
      InTree(n, height + 1, w - 1);
      InTree(n, height, 2 * (w - 1));
    }
  }

  lemma Doubled(pos: nat, height: nat)
    ensures pos * Pow2(height + 1) == (2 * pos) * Pow2(height)
  {
  }

  /** The same by halving, from the leaves up. */
  function Nodes(n: nat, height: nat): nat {
    if height == 0 then n else (Nodes(n, height - 1) + 1) / 2
  }

  /** The formula of `CalcTreeWidth` counts the nodes. */
  lemma {:induction false} WidthIsNodes(n: nat, height: nat)
    ensures Width(n, height) == Nodes(n, height)
  {
    if height > 0 {
      WidthIsNodes(n, height - 1);
      WidthAbove(n, height - 1);
    }
  }

  lemma {:induction false} NodesSome(n: nat, height: nat)
    ensures n >= 1 ==> Nodes(n, height) >= 1
  {
    if height > 0 {
      NodesSome(n, height - 1);
    }
  }

  /** The first leaf at or after a node. */
  function Start(n: nat, height: nat, pos: nat): (r: nat)
    ensures r <= n
  {
    Min(pos * Pow2(height), n)
  }

  /** The leaves below a node are those below its two children, if it has two. */
  lemma Children(n: nat, height: nat, pos: nat)
    requires height > 0 && pos < Nodes(n, height)
    ensures 2 * pos < Nodes(n, height - 1)
    ensures Start(n, height, pos) == Start(n, height - 1, 2 * pos) < Start(n, height - 1, 2 * pos + 1)
    ensures Start(n, height - 1, 2 * pos + 2) == Start(n, height, pos + 1)
    ensures 2 * pos + 1 < Nodes(n, height - 1) ==> Start(n, height - 1, 2 * pos + 1) < Start(n, height, pos + 1)
    ensures 2 * pos + 1 >= Nodes(n, height - 1) ==> Start(n, height - 1, 2 * pos + 1) == Start(n, height, pos + 1)
  {
    WidthIsNodes(n, height);
    WidthIsNodes(n, height - 1);
    Doubled(pos, height - 1);
    Doubled(pos + 1, height - 1);
    InTree(n, height - 1, 2 * pos);
    InTree(n, height - 1, 2 * pos + 1);
    MulMonotone(2 * pos, 2 * pos + 1, Pow2(height - 1));
    MulMonotone(2 * pos + 1, 2 * pos + 2, Pow2(height - 1));
  }

  lemma LeafStart(n: nat, pos: nat)
    requires pos < Nodes(n, 0)
    ensures Start(n, 0, pos) == pos < n && Start(n, 0, pos + 1) == pos + 1
  {
  }

  /** `CalcHash`: the hash of a node. */
  function CalcHash(h: PairHash, txids: seq<Hash>, height: nat, pos: nat): Hash
    requires pos < Nodes(|txids|, height)
  {
    if height == 0 then txids[pos]
    else
      Children(|txids|, height, pos);
      var left := CalcHash(h, txids, height - 1, 2 * pos);
      var right := if 2 * pos + 1 < Nodes(|txids|, height - 1) then CalcHash(h, txids, height - 1,
          2 * pos + 1) else left;
      h(left, right)
  }

  /** The levels of the tree by height. */
  ghost function Level(h: PairHash, txids: seq<Hash>, height: nat): (r: seq<Hash>)
    ensures |r| == Nodes(|txids|, height)
  {
    if height == 0 then txids
    else
      Above(h, Level(h, txids, height - 1))
  }

  lemma LevelNode(h: PairHash, txids: seq<Hash>, height: nat, pos: nat)
    requires height > 0 && pos < Nodes(|txids|, height) && 2 * pos < Nodes(|txids|, height - 1)
    ensures var below := Level(h, txids, height - 1);
            Level(h, txids, height)[pos] ==
                h(below[2 * pos], below[if 2 * pos + 1 < |below| then 2 * pos + 1 else 2 * pos])
  {
    hide Nodes, Above;
    AboveAt(h, Level(h, txids, height - 1), pos);
  }

  lemma LevelBase(h: PairHash, txids: seq<Hash>)
    ensures Level(h, txids, 0) == txids
  {
  }

  lemma {:induction false} CalcHashIsNode(h: PairHash, txids: seq<Hash>, height: nat, pos: nat)
    requires pos < Nodes(|txids|, height)
    ensures CalcHash(h, txids, height, pos) == Level(h, txids, height)[pos]
  {
    hide Nodes, Start, Pow2, Level;
    LevelBase(h, txids);
    if height > 0 {
      Children(|txids|, height, pos);
      LevelNode(h, txids, height, pos);
      CalcHashIsNode(h, txids, height - 1, 2 * pos);
      if 2 * pos + 1 < Nodes(|txids|, height - 1) {
        CalcHashIsNode(h, txids, height - 1, 2 * pos + 1);
      }
    }
  }

  /** The height at which the tree is down to one node. */
  function TopFrom(n: nat, height: nat): (top: nat)
    ensures top >= height && Nodes(n, top) <= 1
    ensures n >= 1 ==> Nodes(n, top) == 1
    decreases Nodes(n, height)
  {
    if Nodes(n, height) <= 1 then
      NodesSome(n, height);
      height
    else
      TopFrom(n, height + 1)
  }

  lemma {:induction false} RootFrom(h: PairHash, txids: seq<Hash>, height: nat)
    requires |txids| >= 1
    ensures Level(h, txids, TopFrom(|txids|, height))[0] == Root(h, Level(h, txids, height))
    decreases Nodes(|txids|, height)
  {
    if Nodes(|txids|, height) <= 1 {
      NodesSome(|txids|, height);
    } else {
      RootFrom(h, txids, height + 1);
    }
  }

  /** The hash of the top node is the block's merkle root. */
  lemma TopIsRoot(h: PairHash, txids: seq<Hash>)
    requires |txids| >= 1
    ensures CalcHash(h, txids, TopFrom(|txids|, 0), 0) == Root(h, txids)
  {
    CalcHashIsNode(h, txids, TopFrom(|txids|, 0), 0);
    RootFrom(h, txids, 0);
  }

  // Building

  ghost predicate Any(mask: seq<bool>, lo: nat, hi: nat)
    requires hi <= |mask|
  {
    exists p :: lo <= p < hi && mask[p]
  }

  /** Whether a node is above a match. */
  ghost predicate Marked(mask: seq<bool>, height: nat, pos: nat) {
    Any(mask, Start(|mask|, height, pos), Start(|mask|, height, pos + 1))
  }

  ghost function BuiltBits(mask: seq<bool>, height: nat, pos: nat): (r: seq<bool>)
    requires pos < Nodes(|mask|, height)
  {
    if height == 0 || !Marked(mask, height, pos) then [Marked(mask, height, pos)]
    else
      Children(|mask|, height, pos);
      [true] + BuiltBits(mask, height - 1, 2 * pos)
      + if 2 * pos + 1 < Nodes(|mask|, height - 1) then BuiltBits(mask, height - 1, 2 * pos + 1) else []
  }

  ghost function BuiltHashes(h: PairHash, txids: seq<Hash>, mask: seq<bool>, height: nat, pos: nat): (r: seq<Hash>)
    requires |mask| == |txids| && pos < Nodes(|mask|, height)
  {
    if height == 0 || !Marked(mask, height, pos) then [CalcHash(h, txids, height, pos)]
    else
      Children(|mask|, height, pos);
      BuiltHashes(h, txids, mask, height - 1, 2 * pos)
      + if 2 * pos + 1 < Nodes(|mask|, height - 1) then BuiltHashes(h, txids, mask, height - 1, 2 * pos + 1) else []
  }

  /** A marked node with two children. */
  lemma BuiltTwo(h: PairHash, txids: seq<Hash>, mask: seq<bool>, height: nat, pos: nat)
    requires |mask| == |txids| && pos < Nodes(|mask|, height) && height > 0 && Marked(mask, height, pos)
    requires 2 * pos + 1 < Nodes(|mask|, height - 1)
    ensures BuiltBits(mask, height, pos)
            == [true] + (BuiltBits(mask, height - 1, 2 * pos) + BuiltBits(mask, height - 1, 2 * pos + 1))
    ensures BuiltHashes(h, txids, mask, height, pos)
            == BuiltHashes(h, txids, mask, height - 1, 2 * pos) + BuiltHashes(h, txids, mask, height - 1, 2 * pos + 1)
    ensures CalcHash(h, txids, height, pos)
            == h(CalcHash(h, txids, height - 1, 2 * pos), CalcHash(h, txids, height - 1, 2 * pos + 1))
  {
    hide Start, Any, Marked;
  }

  /** A marked node whose right child would be beyond the end. */
  lemma BuiltOne(h: PairHash, txids: seq<Hash>, mask: seq<bool>, height: nat, pos: nat)
    requires |mask| == |txids| && pos < Nodes(|mask|, height) && height > 0 && Marked(mask, height, pos)
    requires 2 * pos + 1 >= Nodes(|mask|, height - 1)
    ensures BuiltBits(mask, height, pos) == [true] + BuiltBits(mask, height - 1, 2 * pos)
    ensures BuiltHashes(h, txids, mask, height, pos) == BuiltHashes(h, txids, mask, height - 1, 2 * pos)
    ensures CalcHash(h, txids, height, pos)
            == h(CalcHash(h, txids, height - 1, 2 * pos), CalcHash(h, txids, height - 1, 2 * pos))
  {
    hide Start, Any, Marked;
  }

  /** A leaf, or a node with nothing marked below it. */
  lemma BuiltEnd(h: PairHash, txids: seq<Hash>, mask: seq<bool>, height: nat, pos: nat)
    requires |mask| == |txids| && pos < Nodes(|mask|, height) && (height == 0 || !Marked(mask, height, pos))
    ensures BuiltBits(mask, height, pos) == [Marked(mask, height, pos)]
    ensures BuiltHashes(h, txids, mask, height, pos) == [CalcHash(h, txids, height, pos)]
  {
  }

  /** At least one bit per hash, and at most one hash per leaf. */
  lemma {:induction false} BuiltSizes(h: PairHash, txids: seq<Hash>, mask: seq<bool>, height: nat, pos: nat)
    requires |mask| == |txids| && pos < Nodes(|mask|, height)
    ensures 1 <= |BuiltHashes(h, txids, mask, height, pos)| <= |BuiltBits(mask, height, pos)|
    ensures |BuiltHashes(h, txids, mask, height, pos)| <= Start(|mask|, height, pos + 1) - Start(|mask|, height, pos)
    decreases height
  {
    hide *;
    if height == 0 {
      LeafStart(|mask|, pos);
      BuiltEnd(h, txids, mask, height, pos);
    } else {
      Children(|mask|, height, pos);
      if !Marked(mask, height, pos) {
        BuiltEnd(h, txids, mask, height, pos);
      } else {
        BuiltSizes(h, txids, mask, height - 1, 2 * pos);
        if 2 * pos + 1 < Nodes(|mask|, height - 1) {
          BuiltTwo(h, txids, mask, height, pos);
          BuiltSizes(h, txids, mask, height - 1, 2 * pos + 1);
        } else {
          BuiltOne(h, txids, mask, height, pos);
        }
      }
    }
  }

  // Extracting

  /** What a walk from a node gives: its hash, the matched transactions with their positions, and
      where the walk ends in the bits and in the hashes. */
  datatype Parsed = Bad | Good(hash: Hash, found: seq<Hash>, at: seq<nat>, bit: nat, next: nat)

  function Parse(h: PairHash, n: nat, bits: seq<bool>, hashes: seq<Hash>, height: nat, pos: nat, bit: nat,
                 next: nat): Parsed
    decreases height
  {
    if bit >= |bits| then Bad
    else if height == 0 || !bits[bit] then
      if next >= |hashes| then Bad
      else if height == 0 && bits[bit] then Good(hashes[next], [hashes[next]], [pos], bit + 1, next + 1)
      else Good(hashes[next], [], [], bit + 1, next + 1)
    else
      match Parse(h, n, bits, hashes, height - 1, 2 * pos, bit + 1, next)
      case Bad => Bad
      case Good(left, found, at, bit', next') =>
        if 2 * pos + 1 < Nodes(n, height - 1) then
          match Parse(h, n, bits, hashes, height - 1, 2 * pos + 1, bit', next')
          case Bad => Bad
          case Good(right, found', at', bit'', next'') => Good(h(left, right), found + found', at + at', bit'', next'')
        else
          Good(h(left, left), found, at, bit', next')
  }

  /** The matched transactions from position `lo` to `hi`. */
  ghost function Selected(txids: seq<Hash>, mask: seq<bool>, lo: nat, hi: nat): seq<Hash>
    requires |mask| == |txids| && lo <= hi <= |mask|
    decreases hi - lo
  {
    if lo == hi then [] else (if mask[lo] then [txids[lo]] else []) + Selected(txids, mask, lo + 1, hi)
  }

  lemma {:induction false} SelectedSplit(txids: seq<Hash>, mask: seq<bool>, lo: nat, mid: nat, hi: nat)
    requires |mask| == |txids| && lo <= mid <= hi <= |mask|
    ensures Selected(txids, mask, lo, hi) == Selected(txids, mask, lo, mid) + Selected(txids, mask, mid, hi)
    ensures mid == hi ==> Selected(txids, mask, lo, hi) == Selected(txids, mask, lo, mid)
    decreases mid - lo
  {
    if lo < mid {
      SelectedSplit(txids, mask, lo + 1, mid, hi);
    }
  }

  lemma {:induction false} SelectedNone(txids: seq<Hash>, mask: seq<bool>, lo: nat, hi: nat)
    requires |mask| == |txids| && lo <= hi <= |mask| && !Any(mask, lo, hi)
    ensures Selected(txids, mask, lo, hi) == []
    decreases hi - lo
  {
    if lo < hi {
      assert !mask[lo];
      SelectedNone(txids, mask, lo + 1, hi);
    }
  }

  /** `part` stands in `all` at position `i`. */
  ghost predicate Stands<T>(part: seq<T>, all: seq<T>, i: nat) {
    i + |part| <= |all| && all[i..i + |part|] == part
  }

  lemma StandsSplit<T>(a: seq<T>, b: seq<T>, all: seq<T>, i: nat)
    requires Stands(a + b, all, i)
    ensures Stands(a, all, i) && Stands(b, all, i + |a|)
  {
    assert all[i..i + |a|] == all[i..i + |a + b|][..|a|];
    assert all[i + |a|..i + |a| + |b|] == all[i..i + |a + b|][|a|..];
  }

  /** One step of a walk. */
  lemma ParseCases(h: PairHash, n: nat, bits: seq<bool>, hashes: seq<Hash>, height: nat, pos: nat, bit: nat, next: nat)
    ensures var all := Parse(h, n, bits, hashes, height, pos, bit, next);
            && (bit >= |bits| ==> all.Bad?)
            && (bit < |bits| && (height == 0 || !bits[bit]) ==>
                  if next >= |hashes| then all.Bad?
                  else if height == 0 && bits[bit] then all ==
                      Good(hashes[next], [hashes[next]], [pos], bit + 1, next + 1)
                  else all == Good(hashes[next], [], [], bit + 1, next + 1))
            && (bit < |bits| && height > 0 && bits[bit] ==>
                  var l := Parse(h, n, bits, hashes, height - 1, 2 * pos, bit + 1, next);
                  if l.Bad? then all.Bad?
                  else if 2 * pos + 1 < Nodes(n, height - 1) then
                    var r := Parse(h, n, bits, hashes, height - 1, 2 * pos + 1, l.bit, l.next);
                    if r.Bad? then all.Bad?
                    else all == Good(h(l.hash, r.hash), l.found + r.found, l.at + r.at, r.bit, r.next)
                  else all == Good(h(l.hash, l.hash), l.found, l.at, l.bit, l.next))
  {
    hide Nodes;
  }

  lemma StandsFits<T>(part: seq<T>, all: seq<T>, i: nat)
    requires Stands(part, all, i) && part != []
    ensures i < |all| && all[i] == part[0]
  {
  }

  /** The walk from a node recovers its hash and its matches, and ends behind what was built. */
  ghost predicate Recovered(h: PairHash, txids: seq<Hash>, mask: seq<bool>, bits: seq<bool>, hashes: seq<Hash>,
                            height: nat, pos: nat, bit: nat, next: nat)
    requires |mask| == |txids| && pos < Nodes(|mask|, height)
             && Start(|mask|, height, pos) <= Start(|mask|, height, pos + 1)
  {
    var r := Parse(h, |mask|, bits, hashes, height, pos, bit, next);
    && r.Good?
    && r.hash == CalcHash(h, txids, height, pos)
    && r.found == Selected(txids, mask, Start(|mask|, height, pos), Start(|mask|, height, pos + 1))
    && r.bit == bit + |BuiltBits(mask, height, pos)|
    && r.next == next + |BuiltHashes(h, txids, mask, height, pos)|
  }

  lemma StartOrder(n: nat, height: nat, pos: nat)
    ensures Start(n, height, pos) <= Start(n, height, pos + 1)
  {
    MulMonotone(pos, pos + 1, Pow2(height));
  }

  lemma ParseLeaf(h: PairHash, txids: seq<Hash>, mask: seq<bool>, bits: seq<bool>, hashes: seq<Hash>, pos: nat,
                  bit: nat, next: nat)
    requires |mask| == |txids| && pos < Nodes(|mask|, 0)
    requires Stands(BuiltBits(mask, 0, pos), bits, bit)
    requires Stands(BuiltHashes(h, txids, mask, 0, pos), hashes, next)
    ensures Start(|mask|, 0, pos) <= Start(|mask|, 0, pos + 1)
    ensures Recovered(h, txids, mask, bits, hashes, 0, pos, bit, next)
  {
    LeafStart(|mask|, pos);
    BuiltEnd(h, txids, mask, 0, pos);
    StandsFits(BuiltBits(mask, 0, pos), bits, bit);
    StandsFits(BuiltHashes(h, txids, mask, 0, pos), hashes, next);
    assert Selected(txids, mask, pos + 1, pos + 1) == [];
    assert Marked(mask, 0, pos) <==> mask[pos];
  }

  lemma ParseUnmarked(h: PairHash, txids: seq<Hash>, mask: seq<bool>, bits: seq<bool>, hashes: seq<Hash>, height: nat,
                      pos: nat, bit: nat, next: nat)
    requires |mask| == |txids| && pos < Nodes(|mask|, height) && height > 0 && !Marked(mask, height, pos)
    requires Stands(BuiltBits(mask, height, pos), bits, bit)
    requires Stands(BuiltHashes(h, txids, mask, height, pos), hashes, next)
    ensures Start(|mask|, height, pos) <= Start(|mask|, height, pos + 1)
    ensures Recovered(h, txids, mask, bits, hashes, height, pos, bit, next)
  {
    StartOrder(|mask|, height, pos);
    BuiltEnd(h, txids, mask, height, pos);
    StandsFits(BuiltBits(mask, height, pos), bits, bit);
    StandsFits(BuiltHashes(h, txids, mask, height, pos), hashes, next);
    SelectedNone(txids, mask, Start(|mask|, height, pos), Start(|mask|, height, pos + 1));
    hide Start, Pow2, Selected, CalcHash, BuiltBits, BuiltHashes;
  }

  /** Walking what was built below a node gives the node's hash and its matches. */
  lemma {:induction false} ParseBuilt(h: PairHash, txids: seq<Hash>, mask: seq<bool>, bits: seq<bool>,
                                      hashes: seq<Hash>,
                                      height: nat, pos: nat, bit: nat, next: nat)
    requires |mask| == |txids| && pos < Nodes(|mask|, height)
    requires Stands(BuiltBits(mask, height, pos), bits, bit)
    requires Stands(BuiltHashes(h, txids, mask, height, pos), hashes, next)
    ensures Start(|mask|, height, pos) <= Start(|mask|, height, pos + 1)
    ensures Recovered(h, txids, mask, bits, hashes, height, pos, bit, next)
    decreases height
  {
    hide *;
    StartOrder(|mask|, height, pos);
    if height == 0 {
      ParseLeaf(h, txids, mask, bits, hashes, pos, bit, next);
    } else if !Marked(mask, height, pos) {
      ParseUnmarked(h, txids, mask, bits, hashes, height, pos, bit, next);
    } else {
      var n := |mask|;
      Children(n, height, pos);
      var leftBits, leftHashes := BuiltBits(mask, height - 1, 2 * pos),
          BuiltHashes(h, txids, mask, height - 1, 2 * pos);
      if 2 * pos + 1 < Nodes(n, height - 1) {
        var rightBits, rightHashes := BuiltBits(mask, height - 1, 2 * pos + 1),
            BuiltHashes(h, txids, mask, height - 1, 2 * pos + 1);
        BuiltTwo(h, txids, mask, height, pos);
        StandsSplit([true], leftBits + rightBits, bits, bit);
        StandsSplit(leftBits, rightBits, bits, bit + 1);
        StandsSplit(leftHashes, rightHashes, hashes, next);
        ParseBuilt(h, txids, mask, bits, hashes, height - 1, 2 * pos, bit + 1, next);
        ParseBuilt(h, txids, mask, bits, hashes, height - 1, 2 * pos + 1, bit + 1 + |leftBits|, next + |leftHashes|);
        RecoveredTwo(h, txids, mask, bits, hashes, height, pos, bit, next);
      } else {
        BuiltOne(h, txids, mask, height, pos);
        StandsSplit([true], leftBits, bits, bit);
        ParseBuilt(h, txids, mask, bits, hashes, height - 1, 2 * pos, bit + 1, next);
        RecoveredOne(h, txids, mask, bits, hashes, height, pos, bit, next);
      }
    }
  }

  lemma RecoveredTwo(h: PairHash, txids: seq<Hash>, mask: seq<bool>, bits: seq<bool>, hashes: seq<Hash>,
                     height: nat, pos: nat, bit: nat, next: nat)
    requires |mask| == |txids| && pos < Nodes(|mask|, height) && height > 0 && Marked(mask, height, pos)
    requires Stands([true], bits, bit) && 2 * pos + 1 < Nodes(|mask|, height - 1)
    requires Start(|mask|, height - 1, 2 * pos) <= Start(|mask|, height - 1, 2 * pos + 1) <= Start(|mask|, height - 1,
             2 * pos + 2)
    requires Recovered(h, txids, mask, bits, hashes, height - 1, 2 * pos, bit + 1, next)
    requires Recovered(h, txids, mask, bits, hashes, height - 1, 2 * pos + 1,
             bit + 1 + |BuiltBits(mask, height - 1, 2 * pos)|,
                       next + |BuiltHashes(h, txids, mask, height - 1, 2 * pos)|)
    ensures Start(|mask|, height, pos) <= Start(|mask|, height, pos + 1)
    ensures Recovered(h, txids, mask, bits, hashes, height, pos, bit, next)
  {
    hide Start, Nodes, Marked, Parse, Selected, Stands, BuiltBits, BuiltHashes, CalcHash;
    var n := |mask|;
    StandsFits([true], bits, bit);
    Children(n, height, pos);
    BuiltTwo(h, txids, mask, height, pos);
    var l := Parse(h, n, bits, hashes, height - 1, 2 * pos, bit + 1, next);
    var r := Parse(h, n, bits, hashes, height - 1, 2 * pos + 1, l.bit, l.next);
    SelectedSplit(txids, mask, Start(n, height, pos), Start(n, height - 1, 2 * pos + 1), Start(n, height, pos + 1));
    ParseCases(h, n, bits, hashes, height, pos, bit, next);
  }

  lemma RecoveredOne(h: PairHash, txids: seq<Hash>, mask: seq<bool>, bits: seq<bool>, hashes: seq<Hash>,
                     height: nat, pos: nat, bit: nat, next: nat)
    requires |mask| == |txids| && pos < Nodes(|mask|, height) && height > 0 && Marked(mask, height, pos)
    requires Stands([true], bits, bit) && 2 * pos + 1 >= Nodes(|mask|, height - 1)
             && 2 * pos < Nodes(|mask|, height - 1)
    requires Start(|mask|, height - 1, 2 * pos) <= Start(|mask|, height - 1, 2 * pos + 1)
    requires Recovered(h, txids, mask, bits, hashes, height - 1, 2 * pos, bit + 1, next)
    ensures Start(|mask|, height, pos) <= Start(|mask|, height, pos + 1)
    ensures Recovered(h, txids, mask, bits, hashes, height, pos, bit, next)
  {
    hide Start, Nodes, Marked, Parse, Selected, Stands, BuiltBits, BuiltHashes, CalcHash;
    var n := |mask|;
    StandsFits([true], bits, bit);
    Children(n, height, pos);
    BuiltOne(h, txids, mask, height, pos);
    ParseCases(h, n, bits, hashes, height, pos, bit, next);
  }

  // What an accepted tree proves

  lemma CalcTwo(h: PairHash, txids: seq<Hash>, height: nat, pos: nat)
    requires pos < Nodes(|txids|, height) && height > 0 && 2 * pos + 1 < Nodes(|txids|, height - 1)
    ensures CalcHash(h, txids, height, pos)
            == h(CalcHash(h, txids, height - 1, 2 * pos), CalcHash(h, txids, height - 1, 2 * pos + 1))
  {
    hide Start;
  }

  lemma CalcOne(h: PairHash, txids: seq<Hash>, height: nat, pos: nat)
    requires pos < Nodes(|txids|, height) && height > 0 && 2 * pos + 1 >= Nodes(|txids|, height - 1)
    ensures 2 * pos < Nodes(|txids|, height - 1)
    ensures CalcHash(h, txids, height, pos)
            == h(CalcHash(h, txids, height - 1, 2 * pos), CalcHash(h, txids, height - 1, 2 * pos))
  {
    hide Start;
  }

  /** `found` are the leaves at the positions `at`, which increase from `lo` to below `hi`. */
  ghost predicate LeavesAt(txids: seq<Hash>, found: seq<Hash>, at: seq<nat>, lo: nat, hi: nat) {
    && |found| == |at|
    && hi <= |txids|
    && (forall k :: 0 <= k < |at| ==> lo <= at[k] < hi)
    && (forall k :: 0 <= k < |at| ==> found[k] == txids[at[k]])
    && (forall j, k :: 0 <= j < k < |at| ==> at[j] < at[k])
  }

  lemma LeavesJoin(txids: seq<Hash>, found: seq<Hash>, at: seq<nat>, found': seq<Hash>, at': seq<nat>, lo: nat,
                   mid: nat, hi: nat)
    requires LeavesAt(txids, found, at, lo, mid) && LeavesAt(txids, found', at', mid, hi) && lo <= mid <= hi
    ensures LeavesAt(txids, found + found', at + at', lo, hi)
  {
  }

  /** With an injective hash, a walk that ends in the hash of the block's node found leaves of that
      node and nothing else, whatever bits and hashes it was given. */
  lemma {:induction false} ParseSound(h: PairHash, txids: seq<Hash>, bits: seq<bool>, hashes: seq<Hash>, height: nat,
                                      pos: nat, bit: nat, next: nat)
    requires Injective(h) && pos < Nodes(|txids|, height)
    requires var r := Parse(h, |txids|, bits, hashes, height, pos, bit, next);
             r.Good? && r.hash == CalcHash(h, txids, height, pos)
    ensures var r := Parse(h, |txids|, bits, hashes, height, pos, bit, next);
            LeavesAt(txids, r.found, r.at, Start(|txids|, height, pos), Start(|txids|, height, pos + 1))
    decreases height
  {
    hide Nodes, Start, Parse, LeavesAt;
    var n := |txids|;
    ParseCases(h, n, bits, hashes, height, pos, bit, next);
    if height == 0 || !bits[bit] {
      SoundStop(h, txids, bits, hashes, height, pos, bit, next);
    } else {
      Children(n, height, pos);
      var l := Parse(h, n, bits, hashes, height - 1, 2 * pos, bit + 1, next);
      if 2 * pos + 1 < Nodes(n, height - 1) {
        var r := Parse(h, n, bits, hashes, height - 1, 2 * pos + 1, l.bit, l.next);
        CalcTwo(h, txids, height, pos);
        InjectiveAt(h, l.hash, r.hash, CalcHash(h, txids, height - 1, 2 * pos),
            CalcHash(h, txids, height - 1, 2 * pos + 1));
        ParseSound(h, txids, bits, hashes, height - 1, 2 * pos, bit + 1, next);
        ParseSound(h, txids, bits, hashes, height - 1, 2 * pos + 1, l.bit, l.next);
        LeavesJoin(txids, l.found, l.at, r.found, r.at,
                   Start(n, height, pos), Start(n, height - 1, 2 * pos + 1), Start(n, height, pos + 1));
      } else {
        CalcOne(h, txids, height, pos);
        InjectiveAt(h, l.hash, l.hash, CalcHash(h, txids, height - 1, 2 * pos),
            CalcHash(h, txids, height - 1, 2 * pos));
        ParseSound(h, txids, bits, hashes, height - 1, 2 * pos, bit + 1, next);
      }
    }
  }

  lemma InjectiveAt(h: PairHash, a: Hash, b: Hash, c: Hash, d: Hash)
    requires Injective(h) && h(a, b) == h(c, d)
    ensures a == c && b == d
  {
  }

  lemma SoundStop(h: PairHash, txids: seq<Hash>, bits: seq<bool>, hashes: seq<Hash>, height: nat, pos: nat, bit: nat,
                  next: nat)
    requires pos < Nodes(|txids|, height) && bit < |bits| && next < |hashes| && (height == 0 || !bits[bit])
    requires hashes[next] == CalcHash(h, txids, height, pos)
    ensures var r := Parse(h, |txids|, bits, hashes, height, pos, bit, next);
            r.Good? && LeavesAt(txids, r.found, r.at, Start(|txids|, height, pos), Start(|txids|, height, pos + 1))
  {
    if height == 0 {
      LeafStart(|txids|, pos);
    }
  }

  /** With an injective hash, the bits and the resulting hash fix the hashes that were used. */
  lemma {:induction false} ParseFixes(h: PairHash, n: nat, bits: seq<bool>, a: seq<Hash>, b: seq<Hash>, height: nat,
                                      pos: nat, bit: nat, next: nat)
    requires Injective(h)
    requires Parse(h, n, bits, a, height, pos, bit, next).Good? && Parse(h, n, bits, b, height, pos, bit, next).Good?
    requires Parse(h, n, bits, a, height, pos, bit, next).hash == Parse(h, n, bits, b, height, pos, bit, next).hash
    ensures Parse(h, n, bits, a, height, pos, bit, next) == Parse(h, n, bits, b, height, pos, bit, next)
    ensures var r := Parse(h, n, bits, a, height, pos, bit, next);
            next <= r.next <= |a| && r.next <= |b| && a[next..r.next] == b[next..r.next]
    decreases height
  {
    hide Nodes, Parse;
    ParseCases(h, n, bits, a, height, pos, bit, next);
    ParseCases(h, n, bits, b, height, pos, bit, next);
    if height > 0 && bits[bit] {
      var l := Parse(h, n, bits, a, height - 1, 2 * pos, bit + 1, next);
      var l' := Parse(h, n, bits, b, height - 1, 2 * pos, bit + 1, next);
      if 2 * pos + 1 < Nodes(n, height - 1) {
        var r := Parse(h, n, bits, a, height - 1, 2 * pos + 1, l.bit, l.next);
        InjectiveAt(h, l.hash, r.hash, l'.hash, Parse(h, n, bits, b, height - 1, 2 * pos + 1, l'.bit, l'.next).hash);
        ParseFixes(h, n, bits, a, b, height - 1, 2 * pos, bit + 1, next);
        ParseFixes(h, n, bits, a, b, height - 1, 2 * pos + 1, l.bit, l.next);
        assert a[next..r.next] == a[next..l.next] + a[l.next..r.next];
        assert b[next..r.next] == b[next..l.next] + b[l.next..r.next];
      } else {
        InjectiveAt(h, l.hash, l.hash, l'.hash, l'.hash);
        ParseFixes(h, n, bits, a, b, height - 1, 2 * pos, bit + 1, next);
      }
    }
  }

  /** The number of hashes is bounded by the matches times the height, as the size of the message is. */
  lemma {:induction false} FewHashes(h: PairHash, txids: seq<Hash>, mask: seq<bool>, height: nat, pos: nat)
    requires |mask| == |txids| && pos < Nodes(|mask|, height)
    ensures Start(|mask|, height, pos) <= Start(|mask|, height, pos + 1)
    ensures |BuiltHashes(h, txids, mask, height, pos)|
            <= 1 + |Selected(txids, mask, Start(|mask|, height, pos), Start(|mask|, height, pos + 1))| * height
    decreases height
  {
    hide Nodes, Start, BuiltHashes, BuiltBits, CalcHash, Selected, Any;
    var n := |mask|;
    StartOrder(n, height, pos);
    var matches := |Selected(txids, mask, Start(n, height, pos), Start(n, height, pos + 1))|;
    if height == 0 || !Marked(mask, height, pos) {
      BuiltEnd(h, txids, mask, height, pos);
    } else {
      Children(n, height, pos);
      FewHashes(h, txids, mask, height - 1, 2 * pos);
      var lo, mid, hi := Start(n, height, pos), Start(n, height - 1, 2 * pos + 1), Start(n, height, pos + 1);
      SelectedSplit(txids, mask, lo, mid, hi);
      SelectedSome(txids, mask, lo, hi);
      if 2 * pos + 1 < Nodes(n, height - 1) {
        FewHashes(h, txids, mask, height - 1, 2 * pos + 1);
        BuiltTwo(h, txids, mask, height, pos);
        MatchesTimes(|Selected(txids, mask, lo, mid)|, |Selected(txids, mask, mid, hi)|, height);
      } else {
        BuiltOne(h, txids, mask, height, pos);
        MatchesTimes(matches, 0, height);
      }
    }
  }

  lemma MatchesTimes(a: nat, b: nat, height: nat)
    requires height >= 1 && a + b >= 1
    ensures 2 + a * (height - 1) + b * (height - 1) <= 1 + (a + b) * height
  {
  }

  lemma {:induction false} SelectedSome(txids: seq<Hash>, mask: seq<bool>, lo: nat, hi: nat)
    requires |mask| == |txids| && lo <= hi <= |mask| && Any(mask, lo, hi)
    ensures |Selected(txids, mask, lo, hi)| >= 1
    decreases hi - lo
  {
    if !mask[lo] {
      SelectedSome(txids, mask, lo + 1, hi);
    }
  }

  // Bits in bytes

  function BitMask(k: nat): bv8
    requires k < 8
  {
    if k == 0 then 1 else if k == 1 then 2 else if k == 2 then 4 else if k == 3 then 8
    else if k == 4 then 16 else if k == 5 then 32 else if k == 6 then 64 else 128
  }

  predicate BitAt(bytes: seq<bv8>, p: nat)
    requires p < 8 * |bytes|
  {
    bytes[p / 8] & BitMask(p % 8) != 0
  }

  lemma OrBit(x: bv8, j: nat, k: nat)
    requires j < 8 && k < 8
    ensures (x | BitMask(j)) & BitMask(k) != 0 <==> j == k || x & BitMask(k) != 0
  {
  }

  function Padded(bits: seq<bool>): seq<bool> {
    bits + seq(8 * ((|bits| + 7) / 8) - |bits|, _ => false)
  }

  /** The first `q` bits are in the bytes, and nothing else. */
  ghost predicate Packs(bytes: seq<bv8>, bits: seq<bool>, q: nat) {
    && q <= |bits|
    && |bytes| == (|bits| + 7) / 8
    && (forall p :: 0 <= p < 8 * |bytes| ==> (BitAt(bytes, p) <==> p < q && bits[p]))
  }

  lemma PackNext(bytes: seq<bv8>, bits: seq<bool>, q: nat, byte: bv8)
    requires Packs(bytes, bits, q) && q < |bits|
    requires byte == bytes[q / 8] | if bits[q] then BitMask(q % 8) else 0
    ensures Packs(bytes[q / 8 := byte], bits, q + 1)
  {
    var after := bytes[q / 8 := byte];
    forall p | 0 <= p < 8 * |after|
      ensures BitAt(after, p) <==> p < q + 1 && bits[p]
    {
      hide Bit;
      assert BitAt(bytes, p) <==> p < q && bits[p];
      if p / 8 == q / 8 {
        OrBit(bytes[q / 8], q % 8, p % 8);
        assert p % 8 == q % 8 ==> p == q;
        assert bytes[q / 8] | 0 == bytes[q / 8];
      }
    }
  }

  /** The writing half: eight bits to a byte, lowest first, the rest zero. */
  method WriteBits(bits: seq<bool>) returns (bytes: seq<bv8>)
    ensures Packs(bytes, bits, |bits|)
  {
    bytes := seq((|bits| + 7) / 8, _ => 0);
    for q := 0 to |bits|
      invariant Packs(bytes, bits, q)
    {
      var byte := bytes[q / 8] | if bits[q] then BitMask(q % 8) else 0;
      PackNext(bytes, bits, q, byte);
      bytes := bytes[q / 8 := byte];
    }
  }

  /** The reading half: every bit of every byte. */
  method ReadBits(bytes: seq<bv8>) returns (bits: seq<bool>)
    ensures |bits| == 8 * |bytes|
    ensures forall p :: 0 <= p < |bits| ==> bits[p] == BitAt(bytes, p)
  {
    bits := [];
    for p := 0 to 8 * |bytes|
      invariant |bits| == p
      invariant forall q :: 0 <= q < p ==> bits[q] == BitAt(bytes, q)
    {
      bits := bits + [BitAt(bytes, p)];
    }
  }

  // The class

  /** What `ExtractMatches` demands of the contents. */
  predicate Accepted(h: PairHash, n: nat, bits: seq<bool>, hashes: seq<Hash>) {
    && 1 <= n <= MAX_BLOCK_SIZE / MIN_TRANSACTION_SIZE
    && |hashes| <= n
    && |hashes| <= |bits|
    && var r := Parse(h, n, bits, hashes, TopFrom(n, 0), 0, 0, 0);
       r.Good? && (r.bit + 7) / 8 == (|bits| + 7) / 8 && r.next == |hashes|
  }

  class PartialMerkleTree {
    const h: PairHash
    var n: nat
    var bits: seq<bool>
    var hashes: seq<Hash>
    var bad: bool

    /** Build from the transactions of a block and a mask that selects some of them. */
    constructor (hash: PairHash, txids: seq<Hash>, mask: seq<bool>)
      requires |mask| == |txids| >= 1
      ensures h == hash && n == |txids| && !bad
      ensures bits == BuiltBits(mask, TopFrom(n, 0), 0)
      ensures hashes == BuiltHashes(hash, txids, mask, TopFrom(n, 0), 0)
    {
      h, n, bits, hashes, bad := hash, |txids|, [], [], false;
      new;
      hide *;
      var height := Height();
      TraverseAndBuild(height, 0, txids, mask);
    }

    /** What a reader has after deserializing. */
    constructor FromContents(hash: PairHash, count: nat, flags: seq<bool>, list: seq<Hash>)
      ensures h == hash && n == count && bits == flags && hashes == list && !bad
    {
      h, n, bits, hashes, bad := hash, count, flags, list, false;
    }

    /** The loop that climbs to the top of the tree. */
    method Height() returns (height: nat)
      ensures height == TopFrom(n, 0)
    {
      height := 0;
      WidthIsNodes(n, 0);
      while Width(n, height) > 1
        invariant TopFrom(n, height) == TopFrom(n, 0)
        invariant Width(n, height) == Nodes(n, height)
        decreases Nodes(n, height)
      {
        height := height + 1;
        WidthIsNodes(n, height);
      }
    }

    /** The loop over the leaves of a node. */
    method ParentOfMatch(height: nat, pos: nat, mask: seq<bool>) returns (marked: bool)
      requires |mask| == n
      ensures marked == Marked(mask, height, pos)
    {
      marked := false;
      var p, end := pos * Pow2(height), (pos + 1) * Pow2(height);
      MulMonotone(pos, pos + 1, Pow2(height));
      while p < end && p < n
        invariant pos * Pow2(height) <= p
        invariant p <= n ==> Min(pos * Pow2(height), n) <= p <= end
        invariant p <= n ==> marked == Any(mask, Min(pos * Pow2(height), n), p)
        invariant p > n ==> p == pos * Pow2(height) && !marked
        decreases n - p
      {
        marked := marked || mask[p];
        p := p + 1;
      }
    }

    method TraverseAndBuild(height: nat, pos: nat, txids: seq<Hash>, mask: seq<bool>)
      requires |mask| == |txids| == n && pos < Nodes(n, height)
      modifies this`bits, this`hashes
      ensures bits == old(bits) + BuiltBits(mask, height, pos)
      ensures hashes == old(hashes) + BuiltHashes(h, txids, mask, height, pos)
      decreases height
    {
      hide Nodes, Start, Pow2, Marked, Width, CalcHash, BuiltBits, BuiltHashes;
      var marked := ParentOfMatch(height, pos, mask);
      bits := bits + [marked];
      if height == 0 || !marked {
        BuiltEnd(h, txids, mask, height, pos);
        hashes := hashes + [CalcHash(h, txids, height, pos)];
      } else {
        Children(n, height, pos);
        WidthIsNodes(n, height - 1);
        TraverseAndBuild(height - 1, 2 * pos, txids, mask);
        if 2 * pos + 1 < Width(n, height - 1) {
          BuiltTwo(h, txids, mask, height, pos);
          TraverseAndBuild(height - 1, 2 * pos + 1, txids, mask);
        } else {
          BuiltOne(h, txids, mask, height, pos);
        }
      }
    }

    /** The walk.  Running out of bits or hashes sets the failure flag and goes on with zero. */
    method TraverseAndExtract(height: nat, pos: nat, bit: nat, next: nat, found: seq<Hash>)
      returns (hash: Hash, bit': nat, next': nat, found': seq<Hash>)
      modifies this`bad
      ensures old(bad) ==> bad
      ensures var r := Parse(h, n, bits, hashes, height, pos, bit, next);
              if r.Bad? then bad
              else bad == old(bad) && hash == r.hash && found' == found + r.found && bit' == r.bit && next' == r.next
      decreases height
    {
      ParseCases(h, n, bits, hashes, height, pos, bit, next);
      hide Nodes, Width, Pow2, Parse;
      if bit >= |bits| {
        bad := true;
        return 0, bit, next, found;
      }
      var marked := bits[bit];
      if height == 0 || !marked {
        if next >= |hashes| {
          bad := true;
          return 0, bit + 1, next, found;
        }
        hash := hashes[next];
        return hash, bit + 1, next + 1, if height == 0 && marked then found + [hash] else found;
      }
      var left, right;
      left, bit', next', found' := TraverseAndExtract(height - 1, 2 * pos, bit + 1, next, found);
      WidthIsNodes(n, height - 1);
      if 2 * pos + 1 < Width(n, height - 1) {
        right, bit', next', found' := TraverseAndExtract(height - 1, 2 * pos + 1, bit', next', found');
      } else {
        right := left;
      }
      hash := h(left, right);
    }

    /** `ExtractMatches`: the merkle root, or zero if the contents are refused. */
    method ExtractMatches() returns (root: Hash, found: seq<Hash>)
      modifies this`bad
      ensures !old(bad) && Accepted(h, n, bits, hashes) ==>
                var r := Parse(h, n, bits, hashes, TopFrom(n, 0), 0, 0, 0); root == r.hash && found == r.found
      ensures old(bad) || !Accepted(h, n, bits, hashes) ==> root == 0
    {
      found := [];
      if n == 0 || n > MAX_BLOCK_SIZE / MIN_TRANSACTION_SIZE || |hashes| > n || |bits| < |hashes| {
        return 0, found;
      }
      var height := Height();
      var hash, bit, next;
      hash, bit, next, found := TraverseAndExtract(height, 0, 0, 0, found);
      if bad || (bit + 7) / 8 != (|bits| + 7) / 8 || next != |hashes| {
        return 0, found;
      }
      return hash, found;
    }
  }

  // The main results

  /** What is built, with its bits padded to whole bytes, is accepted and gives the root and the matches. */
  lemma RoundTrip(h: PairHash, txids: seq<Hash>, mask: seq<bool>)
    requires |mask| == |txids| && 1 <= |txids| <= MAX_BLOCK_SIZE / MIN_TRANSACTION_SIZE
    ensures var top := TopFrom(|txids|, 0);
            var bits, hashes := BuiltBits(mask, top, 0), BuiltHashes(h, txids, mask, top, 0);
            && Accepted(h, |txids|, Padded(bits), hashes)
            && Accepted(h, |txids|, bits, hashes)
            && (forall given :: given == bits || given == Padded(bits) ==>
                  var r := Parse(h, |txids|, given, hashes, top, 0, 0, 0);
                  r.Good? && r.hash == Root(h, txids) && r.found == Selected(txids, mask, 0, |txids|))
  {
    var n, top := |txids|, TopFrom(|txids|, 0);
    var bits, hashes := BuiltBits(mask, top, 0), BuiltHashes(h, txids, mask, top, 0);
    BuiltSizes(h, txids, mask, top, 0);
    TopIsRoot(h, txids);
    TopCovers(n);
    assert Stands(bits, bits, 0) && Stands(bits, Padded(bits), 0) && Stands(hashes, hashes, 0);
    ParseBuilt(h, txids, mask, bits, hashes, top, 0, 0, 0);
    ParseBuilt(h, txids, mask, Padded(bits), hashes, top, 0, 0, 0);
    hide BuiltBits, BuiltHashes, Parse, Start, CalcHash, Selected, Root, Nodes;
    assert (|bits| + 7) / 8 == (|Padded(bits)| + 7) / 8;
  }

  lemma TopCovers(n: nat)
    requires n >= 1
    ensures Start(n, TopFrom(n, 0), 0) == 0 && Start(n, TopFrom(n, 0), 1) == n
  {
    var top := TopFrom(n, 0);
    WidthIsNodes(n, top);
    InTree(n, top, 1);
  }

  /** With an injective hash and the true number of transactions, contents that give the block's
      root, other than zero, give transactions of the block in block order. */
  lemma Soundness(h: PairHash, txids: seq<Hash>, bits: seq<bool>, hashes: seq<Hash>)
    requires Injective(h) && Accepted(h, |txids|, bits, hashes)
    requires Parse(h, |txids|, bits, hashes, TopFrom(|txids|, 0), 0, 0, 0).hash == Root(h, txids)
    ensures var r := Parse(h, |txids|, bits, hashes, TopFrom(|txids|, 0), 0, 0, 0);
            LeavesAt(txids, r.found, r.at, 0, |txids|)
  {
    TopIsRoot(h, txids);
    TopCovers(|txids|);
    ParseSound(h, txids, bits, hashes, TopFrom(|txids|, 0), 0, 0, 0);
  }

  /** Changing any hash of an accepted tree changes its root or makes it refused. */
  lemma Tampering(h: PairHash, n: nat, bits: seq<bool>, a: seq<Hash>, b: seq<Hash>)
    requires Injective(h) && Accepted(h, n, bits, a) && Accepted(h, n, bits, b)
    requires Parse(h, n, bits, a, TopFrom(n, 0), 0, 0, 0).hash == Parse(h, n, bits, b, TopFrom(n, 0), 0, 0, 0).hash
    ensures a == b
  {
    ParseFixes(h, n, bits, a, b, TopFrom(n, 0), 0, 0, 0);
    assert a[0..|a|] == a && b[0..|b|] == b;
  }

  /** Build, write, read and extract. */
  method SendAndExtract(h: PairHash, txids: seq<Hash>, mask: seq<bool>) returns (root: Hash, found: seq<Hash>)
    requires |mask| == |txids| && 1 <= |txids| <= MAX_BLOCK_SIZE / MIN_TRANSACTION_SIZE
    ensures root == Root(h, txids) && found == Selected(txids, mask, 0, |txids|)
  {
    var sent := new PartialMerkleTree(h, txids, mask);
    var bytes := WriteBits(sent.bits);
    var bits := ReadBits(bytes);
    assert bits == Padded(sent.bits);
    var received := new PartialMerkleTree.FromContents(h, sent.n, bits, sent.hashes);
    RoundTrip(h, txids, mask);
    root, found := received.ExtractMatches();
  }

  /** Contents from anyone: a root that is the block's, other than zero, comes with leaves only. */
  method ExtractTrusted(tree: PartialMerkleTree, txids: seq<Hash>)
    returns (root: Hash, found: seq<Hash>, ghost at: seq<nat>)
    requires Injective(tree.h) && tree.n == |txids|
    modifies tree`bad
    ensures root == Root(tree.h, txids) != 0 ==> LeavesAt(txids, found, at, 0, |txids|)
  {
    ghost var bits, hashes := tree.bits, tree.hashes;
    root, found := tree.ExtractMatches();
    at := [];
    if root == Root(tree.h, txids) && root != 0 {
      Soundness(tree.h, txids, bits, hashes);
      at := Parse(tree.h, |txids|, bits, hashes, TopFrom(|txids|, 0), 0, 0, 0).at;
    }
  }
}
