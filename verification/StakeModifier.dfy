/** The stake modifier: which block of the recent past contributes each of its 64 bits, and how
    every block of the tree comes to store the modifier of its nearest generating ancestor. */
module StakeModifier {
  import opened Basics
  import opened Sorting

  const MODIFIER_INTERVAL := 600
  const INTERVAL_RATIO := 3
  const ROUNDS := 64

  /** An indexed block, with the modifier it stores and whether it generated it. */
  datatype Node = Node(
    prev: Option<Hash>,
    height: nat,
    time: nat,
    stake: bool,
    entropy: bool,
    proof: Hash,
    modifier: nat,
    generated: bool)

  type Nodes = map<Hash, Node>

  ghost predicate Tree(b: Nodes) {
    forall h :: h in b ==>
      if b[h].prev.None? then b[h].height == 0
      else b[h].prev.value in b && b[b[h].prev.value].height + 1 == b[h].height
  }

  // Inheritance

  /** The nearest ancestor-or-self that generated a modifier. */
  ghost function Nearest(b: Nodes, h: Hash): (r: Option<Hash>)
    requires Tree(b) && h in b
    ensures r.Some? ==> r.value in b && b[r.value].generated
    decreases b[h].height
  {
    if b[h].generated then Some(h)
    else if b[h].prev.None? then None
    else Nearest(b, b[h].prev.value)
  }

  /** Every block stores the modifier of its nearest generating ancestor-or-self. */
  ghost predicate Inherits(b: Nodes) {
    Tree(b) && forall h :: h in b ==> Nearest(b, h).Some? && b[h].modifier == b[Nearest(b, h).value].modifier
  }

  lemma {:induction false} NearestFrame(b: Nodes, c: Nodes, h: Hash)
    requires Tree(b) && Tree(c) && h in b && forall x :: x in b ==> x in c && c[x] == b[x]
    ensures Nearest(c, h) == Nearest(b, h)
    decreases b[h].height
  {
    if !b[h].generated && b[h].prev.Some? {
      NearestFrame(b, c, b[h].prev.value);
    }
  }

  /** `GetLastStakeModifier`: walk back to a generating block. */
  method GetLastStakeModifier(b: Nodes, start: Hash) returns (last: Option<Hash>)
    requires Tree(b) && start in b
    ensures last == Nearest(b, start)
  {
    var h := start;
    while b[h].prev.Some? && !b[h].generated
      invariant h in b && Nearest(b, h) == Nearest(b, start)
      decreases b[h].height
    {
      h := b[h].prev.value;
    }
    return if b[h].generated then Some(h) else None;
  }

  // The selection interval

  /** `GetStakeModifierSelectionIntervalSection`. */
  function Section(n: nat): nat
    requires n < ROUNDS
  {
    MODIFIER_INTERVAL * 63 / (63 + (63 - n) * (INTERVAL_RATIO - 1))
  }

  function Sections(n: nat): nat
    requires n <= ROUNDS
  {
    if n == 0 then 0 else Sections(n - 1) + Section(n - 1)
  }

  /** `GetStakeModifierSelectionInterval`. */
  method SelectionInterval() returns (total: nat)
    ensures total == Sections(ROUNDS)
  {
    total := 0;
    for n := 0 to ROUNDS
      invariant total == Sections(n)
    {
      total := total + Section(n);
    }
  }

  // The candidates

  datatype Candidate = Candidate(time: nat, hash: Hash)

  predicate Le(a: Candidate, b: Candidate) {
    a.time < b.time || (a.time == b.time && a.hash <= b.hash)
  }

  /** The blocks back from `h` up to the first one before `start`. */
  ghost function Recent(b: Nodes, h: Hash, start: int): seq<Candidate>
    requires Tree(b) && h in b
    decreases b[h].height
  {
    if b[h].time < start then []
    else [Candidate(b[h].time, h)] + if b[h].prev.None? then [] else Recent(b, b[h].prev.value, start)
  }

  /** `c` is a block with its time. */
  predicate Indexed(b: Nodes, c: Candidate) {
    c.hash in b && b[c.hash].time == c.time
  }

  ghost predicate Candidates(b: Nodes, cs: seq<Candidate>) {
    && (forall i :: 0 <= i < |cs| ==> Indexed(b, cs[i]))
    && (forall i, j :: 0 <= i < j < |cs| ==> cs[i].hash != cs[j].hash)
  }

  /** The candidates are indexed blocks, none twice. */
  lemma {:induction false} RecentDistinct(b: Nodes, h: Hash, start: int)
    requires Tree(b) && h in b
    ensures Candidates(b, Recent(b, h, start))
    ensures forall i :: 0 <= i < |Recent(b, h, start)| ==> b[Recent(b, h, start)[i].hash].height <= b[h].height
    decreases b[h].height
  {
    if b[h].time >= start && b[h].prev.Some? {
      RecentDistinct(b, b[h].prev.value, start);
    }
  }

  method CollectRecent(b: Nodes, prev: Hash, start: int) returns (cs: seq<Candidate>)
    requires Tree(b) && prev in b
    ensures cs == Recent(b, prev, start)
  {
    cs := [];
    var at := Some(prev);
    while at.Some? && b[at.value].time >= start
      invariant at.Some? ==> at.value in b
      invariant Recent(b, prev, start) == cs + if at.Some? then Recent(b, at.value, start) else []
      decreases if at.Some? then b[at.value].height + 1 else 0
    {
      cs := cs + [Candidate(b[at.value].time, at.value)];
      at := b[at.value].prev;
    }
  }

  lemma PermutedCandidates(b: Nodes, cs: seq<Candidate>, ds: seq<Candidate>)
    requires Candidates(b, cs) && multiset(cs) == multiset(ds)
    ensures Candidates(b, ds) && |cs| == |ds|
  {
    SameElements(cs, ds);
    forall i | 0 <= i < |ds|
      ensures Indexed(b, ds[i])
    {
      assert ds[i] in cs;
    }
    forall i, j | 0 <= i < j < |ds|
      ensures ds[i].hash != ds[j].hash
    {
      if ds[i].hash == ds[j].hash {
        assert ds[i] in cs && Indexed(b, ds[i]) && Indexed(b, ds[j]);
        Once(cs, ds[i], b);
        Twice(ds, i, j);
        assert false;
      }
    }
  }

  lemma {:induction false} Once(cs: seq<Candidate>, c: Candidate, b: Nodes)
    requires Candidates(b, cs)
    ensures multiset(cs)[c] <= 1
    decreases |cs|
  {
    if cs != [] {
      var most, last := cs[..|cs| - 1], cs[|cs| - 1];
      assert cs == most + [last];
      Once(most, c, b);
      if c == last {
        assert c !in most;
      }
    }
  }

  lemma Twice(ds: seq<Candidate>, i: nat, j: nat)
    requires i < j < |ds| && ds[i] == ds[j]
    ensures multiset(ds)[ds[i]] >= 2
  {
    assert ds == ds[..i] + [ds[i]] + ds[i + 1..j] + [ds[j]] + ds[j + 1..];
  }

  // One round

  /** The selection hash; a proof-of-stake block's is divided by 2^32. */
  function SelectionHash(b: Nodes, hash: (Hash, nat) -> Hash, modifier: nat, h: Hash): Hash
    requires h in b
  {
    if b[h].stake then hash(b[h].proof, modifier) / 0x1_0000_0000 else hash(b[h].proof, modifier)
  }

  /** Candidate `k` is the choice of a round: among the unselected ones up to the stop time the first
      of those with the least selection hash, or, if there are none, the earliest unselected one. */
  ghost predicate Choice(b: Nodes, hash: (Hash, nat) -> Hash, modifier: nat, cs: seq<Candidate>, selected: set<Hash>,
                         stop: int, k: nat)
    requires Candidates(b, cs)
  {
    && k < |cs| && cs[k].hash !in selected
    && (if exists j :: 0 <= j < |cs| && cs[j].hash !in selected && cs[j].time <= stop then
          && cs[k].time <= stop
          && (forall j :: 0 <= j < |cs| && cs[j].hash !in selected && cs[j].time <= stop ==>
                && SelectionHash(b, hash, modifier, cs[k].hash) <= SelectionHash(b, hash, modifier, cs[j].hash)
                && (j < k ==> SelectionHash(b, hash, modifier, cs[k].hash) < SelectionHash(b, hash, modifier,
                   cs[j].hash)))
        else forall j :: 0 <= j < k ==> cs[j].hash in selected)
  }

  /** `SelectBlockFromCandidates`. */
  method SelectBlock(b: Nodes, hash: (Hash, nat) -> Hash, modifier: nat, cs: seq<Candidate>, selected: set<Hash>,
                     stop: int)
    returns (k: Option<nat>)
    requires Candidates(b, cs) && IsSorted(cs, Le)
    ensures k.Some? <==> exists j :: 0 <= j < |cs| && cs[j].hash !in selected
    ensures k.Some? ==> Choice(b, hash, modifier, cs, selected, stop, k.value)
  {
    k := None;
    var best := 0;
    var i := 0;
    while i < |cs|
      invariant 0 <= i <= |cs|
      invariant k.None? ==> forall j :: 0 <= j < i ==> cs[j].hash in selected
      invariant k.Some? ==> k.value < i && cs[k.value].hash !in selected
      invariant k.Some? ==> best == SelectionHash(b, hash, modifier, cs[k.value].hash)
      invariant k.Some? && cs[k.value].time > stop ==> k.value == i - 1
      invariant k.Some? && cs[k.value].time > stop ==> forall j :: 0 <= j < k.value ==> cs[j].hash in selected
      invariant k.Some? && cs[k.value].time <= stop ==>
                forall j :: 0 <= j < i && cs[j].hash !in selected && cs[j].time <= stop ==>
                  && best <= SelectionHash(b, hash, modifier, cs[j].hash)
                  && (j < k.value ==> best < SelectionHash(b, hash, modifier, cs[j].hash))
    {
      assert Indexed(b, cs[i]);
      if k.Some? && cs[i].time > stop {
        Beyond(cs, i, stop);
        return;
      }
      if cs[i].hash !in selected {
        var s := SelectionHash(b, hash, modifier, cs[i].hash);
        if k.Some? && s < best {
          k, best := Some(i), s;
        } else if k.None? {
          k, best := Some(i), s;
        }
      }
      i := i + 1;
    }
  }

  lemma Beyond(cs: seq<Candidate>, i: nat, stop: int)
    requires IsSorted(cs, Le) && i < |cs| && cs[i].time > stop
    ensures forall j :: i <= j < |cs| ==> cs[j].time > stop
  {
  }

  // The whole computation

  /** The choices of the first rounds, and the bits they gave. */
  ghost predicate Chosen(b: Nodes, hash: (Hash, nat) -> Hash, modifier: nat, cs: seq<Candidate>, start: int,
                         choices: seq<nat>, bits: nat)
    requires Candidates(b, cs)
  {
    && |choices| <= ROUNDS
    && bits < Pow2(|choices|)
    && (forall r :: 0 <= r < |choices| ==> RoundOk(b, hash, modifier, cs, start, choices, bits, r))
  }

  /** Round `r` made its choice among what the rounds before left, and bit `r` is the entropy bit of the block chosen.
      */
  ghost predicate RoundOk(b: Nodes, hash: (Hash, nat) -> Hash, modifier: nat, cs: seq<Candidate>, start: int,
                          choices: seq<nat>, bits: nat, r: nat)
    requires Candidates(b, cs) && r < |choices| <= ROUNDS
  {
    && Choice(b, hash, modifier, cs, Selected(cs, choices[..r]), start + Sections(r + 1), choices[r])
    && Bit(bits, r) == b[cs[choices[r]].hash].entropy
  }

  /** The blocks selected by earlier choices. */
  function Selected(cs: seq<Candidate>, choices: seq<nat>): set<Hash> {
    set r | 0 <= r < |choices| && choices[r] < |cs| :: cs[choices[r]].hash
  }

  lemma SelectedNext(cs: seq<Candidate>, choices: seq<nat>, k: nat)
    requires k < |cs|
    ensures Selected(cs, choices + [k]) == Selected(cs, choices) + {cs[k].hash}
  {
    var more := choices + [k];
    assert more[|choices|] == k;
    assert forall r :: 0 <= r < |choices| ==> more[r] == choices[r];
    forall h | h in Selected(cs, choices)
      ensures h in Selected(cs, more)
    {
      var r :| 0 <= r < |choices| && choices[r] < |cs| && cs[choices[r]].hash == h;
      assert more[r] == choices[r];
    }
  }

  /** Fewer choices than candidates leave one unselected. */
  lemma OneLeft(b: Nodes, cs: seq<Candidate>, choices: seq<nat>)
    requires Candidates(b, cs) && |choices| < |cs|
    ensures exists j :: 0 <= j < |cs| && cs[j].hash !in Selected(cs, choices)
  {
    SelectedSize(cs, choices);
    HashesSize(b, cs);
    var all, selected := set j | 0 <= j < |cs| :: cs[j].hash, Selected(cs, choices);
    if all <= selected {
      SubsetSize(all, selected);
      assert false;
    }
    var h :| h in all && h !in selected;
  }

  lemma SelectedSame(cs: seq<Candidate>, choices: seq<nat>, k: nat)
    requires k >= |cs|
    ensures Selected(cs, choices + [k]) == Selected(cs, choices)
  {
    var more := choices + [k];
    assert forall r :: 0 <= r < |choices| ==> more[r] == choices[r];
    forall h | h in Selected(cs, choices)
      ensures h in Selected(cs, more)
    {
      var r :| 0 <= r < |choices| && choices[r] < |cs| && cs[choices[r]].hash == h;
      assert more[r] == choices[r];
    }
  }

  lemma {:induction false} SelectedSize(cs: seq<Candidate>, choices: seq<nat>)
    ensures |Selected(cs, choices)| <= |choices|
    decreases |choices|
  {
    if choices == [] {
      assert Selected(cs, choices) == {};
    } else {
      var most, last := choices[..|choices| - 1], choices[|choices| - 1];
      SelectedSize(cs, most);
      assert choices == most + [last];
      if last < |cs| {
        SelectedNext(cs, most, last);
      } else {
        SelectedSame(cs, most, last);
      }
      hide Selected;
    }
  }

  lemma {:induction false} HashesSize(b: Nodes, cs: seq<Candidate>)
    requires Candidates(b, cs)
    ensures |set j | 0 <= j < |cs| :: cs[j].hash| == |cs|
    decreases |cs|
  {
    if cs != [] {
      var most := cs[..|cs| - 1];
      HashesSize(b, most);
      assert (set j | 0 <= j < |cs| :: cs[j].hash) == (set j | 0 <= j < |most| :: most[j].hash) + {cs[|cs| - 1].hash};
    }
  }

  lemma ChosenNext(b: Nodes, hash: (Hash, nat) -> Hash, modifier: nat, cs: seq<Candidate>, start: int,
                   choices: seq<nat>, bits: nat, k: nat)
    requires Candidates(b, cs) && Chosen(b, hash, modifier, cs, start, choices, bits) && |choices| < ROUNDS
    requires Choice(b, hash, modifier, cs, Selected(cs, choices), start + Sections(|choices| + 1), k)
    ensures k < |cs|
    ensures Chosen(b, hash, modifier, cs, start, choices + [k], WithBit(bits, |choices|, b[cs[k].hash].entropy))
  {
    ChoiceIn(b, hash, modifier, cs, Selected(cs, choices), start + Sections(|choices| + 1), k);
    hide Choice, RoundOk, Bit, Pow2, Sections, Selected, WithBit, Indexed;
    var more, bits', n := choices + [k], WithBit(bits, |choices|, b[cs[k].hash].entropy), |choices|;
    WithBitSets(bits, n, b[cs[k].hash].entropy);
    forall r | 0 <= r < |more|
      ensures RoundOk(b, hash, modifier, cs, start, more, bits', r)
    {
      if r < n {
        RoundKept(b, hash, modifier, cs, start, choices, bits, k, r);
      } else {
        RoundMade(b, hash, modifier, cs, start, choices, bits, k);
      }
    }
  }

  lemma RoundKept(b: Nodes, hash: (Hash, nat) -> Hash, modifier: nat, cs: seq<Candidate>, start: int,
                  choices: seq<nat>, bits: nat, k: nat, r: nat)
    requires Candidates(b, cs) && r < |choices| < ROUNDS && bits < Pow2(|choices|) && k < |cs| && cs[k].hash in b
    requires RoundOk(b, hash, modifier, cs, start, choices, bits, r)
    ensures RoundOk(b, hash, modifier, cs, start, choices + [k], WithBit(bits, |choices|, b[cs[k].hash].entropy), r)
  {
    assert (choices + [k])[..r] == choices[..r];
    WithBitKeeps(bits, |choices|, b[cs[k].hash].entropy, r);
    hide Bit, Pow2, WithBit, Sections;
  }

  lemma RoundMade(b: Nodes, hash: (Hash, nat) -> Hash, modifier: nat, cs: seq<Candidate>, start: int,
                  choices: seq<nat>, bits: nat, k: nat)
    requires Candidates(b, cs) && |choices| < ROUNDS && bits < Pow2(|choices|) && k < |cs| && cs[k].hash in b
    requires Choice(b, hash, modifier, cs, Selected(cs, choices), start + Sections(|choices| + 1), k)
    ensures RoundOk(b, hash, modifier, cs, start, choices + [k], WithBit(bits, |choices|, b[cs[k].hash].entropy),
            |choices|)
  {
    hide Bit, Pow2, WithBit, Sections, Choice, Selected;
    assert (choices + [k])[..|choices|] == choices;
    WithBitSets(bits, |choices|, b[cs[k].hash].entropy);
  }

  lemma ChoiceIn(b: Nodes, hash: (Hash, nat) -> Hash, modifier: nat, cs: seq<Candidate>, selected: set<Hash>,
                 stop: int, k: nat)
    requires Candidates(b, cs) && Choice(b, hash, modifier, cs, selected, stop, k)
    ensures k < |cs| && cs[k].hash in b && cs[k].hash !in selected
  {
  }

  /** The rounds: each succeeds with a block not selected before. */
  method SelectBits(b: Nodes, hash: (Hash, nat) -> Hash, modifier: nat, cs: seq<Candidate>, start: int)
    returns (bits: nat, ghost choices: seq<nat>)
    requires Candidates(b, cs) && IsSorted(cs, Le)
    ensures |choices| == Min(ROUNDS, |cs|) && Chosen(b, hash, modifier, cs, start, choices, bits)
  {
    bits, choices := 0, [];
    var stop := start;
    var selected: set<Hash> := {};
    assert Chosen(b, hash, modifier, cs, start, choices, bits) && Selected(cs, choices) == {};
    hide Chosen, Selected, Choice;
    for round := 0 to Min(ROUNDS, |cs|)
      invariant |choices| == round && selected == Selected(cs, choices) && stop == start + Sections(round)
      invariant Chosen(b, hash, modifier, cs, start, choices, bits)
    {
      stop := stop + Section(round);
      OneLeft(b, cs, choices);
      var k := SelectBlock(b, hash, modifier, cs, selected, stop);
      ChosenNext(b, hash, modifier, cs, start, choices, bits, k.value);
      SelectedNext(cs, choices, k.value);
      bits := WithBit(bits, round, b[cs[k.value].hash].entropy);
      selected := selected + {cs[k.value].hash};
      choices := choices + [k.value];
    }
  }

  /** The last full modifier interval before a time. */
  function Boundary(time: nat): nat {
    time / MODIFIER_INTERVAL * MODIFIER_INTERVAL
  }

  /** How a new modifier came about: the sorted candidates and the choices among them. */
  datatype Trace = Trace(cs: seq<Candidate>, choices: seq<nat>)

  /** `bits` is the modifier made from the blocks before and including `prev`. */
  ghost predicate Generated(b: Nodes, hash: (Hash, nat) -> Hash, prev: Hash, old': nat, t: Trace, bits: nat)
    requires Tree(b) && prev in b
  {
    var start := Boundary(b[prev].time) - Sections(ROUNDS);
    && IsSorted(t.cs, Le) && multiset(t.cs) == multiset(Recent(b, prev, start))
    && Candidates(b, t.cs)
    && |t.choices| == Min(ROUNDS, |t.cs|)
    && Chosen(b, hash, old', t.cs, start, t.choices, bits)
    && (|t.cs| >= ROUNDS ==> start + Sections(|t.choices|) == Boundary(b[prev].time))
  }

  /** The second half of `ComputeNextStakeModifier`: a new modifier. */
  method Generate(b: Nodes, hash: (Hash, nat) -> Hash, prev: Hash, modifier: nat) returns (bits: nat, ghost t: Trace)
    requires Tree(b) && prev in b
    ensures Generated(b, hash, prev, modifier, t, bits)
  {
    hide Recent, Chosen, Candidates, Le, TotalOrder, IsSorted, Sections;
    var interval := SelectionInterval();
    var start := b[prev].time / MODIFIER_INTERVAL * MODIFIER_INTERVAL - interval;
    var recent := CollectRecent(b, prev, start);
    RecentDistinct(b, prev, start);
    OrderIsTotal();
    var cs := Sort(recent, Le);
    PermutedCandidates(b, recent, cs);
    ghost var choices;
    bits, choices := SelectBits(b, hash, modifier, cs, start);
    t := Trace(cs, choices);
  }

  /** `ComputeNextStakeModifier`: the modifier of the block after `prev`, and whether it is a new one. */
  method ComputeNextStakeModifier(b: Nodes, hash: (Hash, nat) -> Hash, prev: Option<Hash>)
    returns (r: Option<(nat, bool)>, ghost t: Trace)
    requires Tree(b) && (prev.Some? ==> prev.value in b)
    ensures prev.None? ==> r == Some((0, true))
    ensures prev.Some? ==> (r.None? <==> Nearest(b, prev.value).None?)
    ensures prev.Some? && r.Some? ==>
              var last := b[Nearest(b, prev.value).value];
              if last.time / MODIFIER_INTERVAL >= b[prev.value].time / MODIFIER_INTERVAL then r.value ==
                  (last.modifier, false)
              else r.value.1 && Generated(b, hash, prev.value, last.modifier, t, r.value.0)
  {
    t := Trace([], []);
    if prev.None? {
      return Some((0, true)), t;
    }
    var last := GetLastStakeModifier(b, prev.value);
    if last.None? {
      return None, t;
    }
    var modifier, time := b[last.value].modifier, b[prev.value].time;
    if b[last.value].time / MODIFIER_INTERVAL >= time / MODIFIER_INTERVAL {
      return Some((modifier, false)), t;
    }
    var bits;
    bits, t := Generate(b, hash, prev.value, modifier);
    r := Some((bits, true));
  }

  lemma OrderIsTotal()
    ensures TotalOrder(Le)
  {
  }

  // Every run

  lemma InheritsNext(b: Nodes, h: Hash, node: Node)
    requires Inherits(b) && h !in b
    requires if node.prev.None? then node.height == 0 && node.generated
             else && node.prev.value in b && node.height == b[node.prev.value].height + 1
                  && (node.generated || node.modifier == b[Nearest(b, node.prev.value).value].modifier)
    ensures Inherits(b[h := node])
  {
    var c := b[h := node];
    assert Tree(c);
    forall x | x in c
      ensures Nearest(c, x).Some? && c[x].modifier == c[Nearest(c, x).value].modifier
    {
      if x in b {
        NearestFrame(b, c, x);
      } else if !node.generated {
        NearestFrame(b, c, node.prev.value);
      }
    }
  }

  /** A block as it comes in, and whether `CheckStakeModifierCheckpoints` lets it through. */
  datatype Arrival = Arrival(hash: Hash, prev: Hash, time: nat, stake: bool, entropy: bool, proof: Hash, checked: bool)

  class StakeIndex {
    const hash: (Hash, nat) -> Hash
    var blocks: Nodes

    ghost predicate Valid()
      reads this
    {
      Inherits(blocks)
    }

    constructor (selectionHash: (Hash, nat) -> Hash)
      ensures Valid() && hash == selectionHash && blocks == map[]
    {
      hash, blocks := selectionHash, map[];
    }

    /** The modifier part of `AddToBlockIndex`: a block already indexed is refused, and so is one that the
        modifier checkpoints do not let through; every other one gets a modifier. */
    method Add(a: Arrival) returns (ok: bool, ghost t: Trace)
      requires Valid()
      modifies this
      ensures Valid() && (ok <==> a.hash !in old(blocks) && a.checked)
      ensures !ok ==> blocks == old(blocks)
      ensures ok ==> blocks.Keys == old(blocks).Keys + {a.hash} && forall h :: h in old(blocks) ==>
              blocks[h] == old(blocks)[h]
      ensures ok ==> blocks[a.hash].time == a.time && blocks[a.hash].proof == a.proof
      ensures ok ==> blocks[a.hash].stake == a.stake && blocks[a.hash].entropy == a.entropy
      ensures ok && a.prev !in old(blocks) ==> var n := blocks[a.hash]; n.prev == None && n.generated && n.modifier == 0
      ensures ok && a.prev in old(blocks) ==>
                var n, prev, last := blocks[a.hash], old(blocks)[a.prev],
                    old(blocks)[Nearest(old(blocks), a.prev).value];
                && n.prev == Some(a.prev)
                && (n.generated <==> last.time / MODIFIER_INTERVAL < prev.time / MODIFIER_INTERVAL)
                && (if n.generated then Generated(old(blocks), hash, a.prev, last.modifier, t,
                   n.modifier) else n.modifier == last.modifier)
    {
      t := Trace([], []);
      if a.hash in blocks {
        return false, t;
      }
      var prev := if a.prev in blocks then Some(a.prev) else None;
      var r;
      r, t := ComputeNextStakeModifier(blocks, hash, prev);
      if !a.checked {
        return false, t;
      }
      var height := if prev.Some? then blocks[a.prev].height + 1 else 0;
      var node := Node(prev, height, a.time, a.stake, a.entropy, a.proof, r.value.0, r.value.1);
      InheritsNext(blocks, a.hash, node);
      blocks := blocks[a.hash := node];
      ok := true;
    }

    /** Whatever blocks come in, in whatever order, every indexed block stores the modifier of its
        nearest generating ancestor-or-self. */
    method Run(arrivals: seq<Arrival>)
      requires Valid()
      modifies this
      ensures Valid() && forall h :: h in old(blocks) ==> h in blocks && blocks[h] == old(blocks)[h]
      ensures forall i :: 0 <= i < |arrivals| && arrivals[i].checked ==> arrivals[i].hash in blocks
    {
      for i := 0 to |arrivals|
        invariant Valid() && forall h :: h in old(blocks) ==> h in blocks && blocks[h] == old(blocks)[h]
        invariant forall k :: 0 <= k < i && arrivals[k].checked ==> arrivals[k].hash in blocks
      {
        var _, _ := Add(arrivals[i]);
      }
    }
  }
}
