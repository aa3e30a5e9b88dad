/** `CreateNewBlock`: filling a block from the memory pool by priority, parents first, within the
    size and signature-operation budgets. */
module Miner {
  import opened Basics
  import opened Ledger
  import opened Money
  import opened ConnectBlock

  /** What is set aside for the header and the coinbase. */
  const START_SIZE := 1000
  const START_SIGOPS := 100
  const MAX_BLOCK_SIGOPS := 20000

  /** Below this priority the block is filled by fee. */
  const HIGH_PRIORITY := (COIN * 144 / 250) as real

  /** The position the block under construction has in the index, `CDiskTxPos(1, 1)`. */
  const IN_MEMORY: Hash := 1

  /** The limits in force, and what the parts outside this model answer: finality, sizes,
      signature operations, timestamps, fees, confirmations of a transaction on disk, token
      symbols, scripts and maturity. */
  datatype Rules = Rules(
    maxSize: nat,
    prioritySize: nat,
    minSize: nat,
    minTxFee: int,
    final: Tx -> bool,
    size: Tx -> nat,
    sigOps: Tx -> nat,
    scriptSigOps: Tx -> nat,
    timely: Tx -> bool,
    minFee: (Tx, int) -> int,
    confirmations: Hash -> int,
    symbol: Tx -> Option<nat>,
    symbolChecks: Tx -> bool,
    out: Outside)

  ghost predicate RulesOk(rules: Rules) {
    rules.maxSize >= START_SIZE && forall tx :: rules.size(tx) > 0
  }

  /** `store` holds the transactions on disk and in the memory pool, `db` is the index of those on disk. */
  datatype World = World(store: map<Hash, Tx>, db: Index, mempool: map<Hash, Tx>)

  ghost predicate WorldOk(w: World) {
    forall h :: h in w.mempool ==> w.mempool[h].hash == h && h in w.store && w.store[h] == w.mempool[h]
  }

  /** `ReadFromDisk` of the transaction an input spends from. */
  predicate OnDisk(w: World, o: OutPoint) {
    o.hash in w.db && Readable(w.store, o)
  }

  /** The parents a transaction has to wait for. */
  function Needs(w: World, os: seq<OutPoint>): set<Hash> {
    set o | o in os && !OnDisk(w, o) :: o.hash
  }

  lemma NeedsNext(w: World, os: seq<OutPoint>, k: nat)
    requires k < |os|
    ensures Needs(w, os[..k + 1]) == Needs(w, os[..k]) + if OnDisk(w, os[k]) then {} else {os[k].hash}
  {
    assert os[..k + 1] == os[..k] + [os[k]];
    var a, b := Needs(w, os[..k + 1]), Needs(w, os[..k]) + if OnDisk(w, os[k]) then {} else {os[k].hash};
    forall h
      ensures h in a <==> h in b
    {
      if h in b && !OnDisk(w, os[k]) && h == os[k].hash {
        assert os[k] in os[..k + 1];
      }
    }
  }

  // Collecting the candidates

  datatype Candidate = Candidate(priority: real, feePerKb: real, tx: Tx)

  /** `COrphan`: a candidate and the parents it still waits for. */
  datatype Orphan = Orphan(candidate: Candidate, dependsOn: set<Hash>)

  type Waiting = map<Hash, Orphan>
  type Dependers = map<Hash, seq<Hash>>

  predicate Eligible(rules: Rules, tx: Tx) {
    tx.kind.User? && rules.final(tx)
  }

  /** All parents are on disk or in the memory pool. */
  predicate InputsKnown(w: World, os: seq<OutPoint>) {
    forall o :: o in os ==> OnDisk(w, o) || o.hash in w.mempool
  }

  /** Value times confirmations, over the inputs on disk. */
  function Weight(rules: Rules, w: World, os: seq<OutPoint>): real {
    if os == [] then 0.0
    else
      var last := os[|os| - 1];
      Weight(rules, w, os[..|os| - 1])
      + if OnDisk(w, last) then ValueOf(w.store, last) as real * rules.confirmations(last.hash) as real else 0.0
  }

  function CandidateOf(rules: Rules, w: World, tx: Tx): (c: Candidate)
    requires rules.size(tx) > 0
    ensures c.tx == tx
  {
    Candidate(
      Weight(rules, w, tx.inputs) / rules.size(tx) as real,
      (ValueIn(w.store, tx.inputs) - Sum(tx.outs)) as real / (rules.size(tx) as real / 1000.0),
      tx)
  }

  /** The loop over the inputs of one transaction: the parents it waits for, in order, and its figures. */
  method Inspect(rules: Rules, w: World, tx: Tx) returns (known: bool, parents: seq<Hash>, weight: real, total: int)
    ensures known <==> InputsKnown(w, tx.inputs)
    ensures known ==> weight == Weight(rules, w, tx.inputs) && total == ValueIn(w.store, tx.inputs)
    ensures known ==> forall h :: h in parents <==> h in Needs(w, tx.inputs)
  {
    parents, weight, total := [], 0.0, 0;
    for i := 0 to |tx.inputs|
      invariant forall k :: 0 <= k < i ==> OnDisk(w, tx.inputs[k]) || tx.inputs[k].hash in w.mempool
      invariant weight == Weight(rules, w, tx.inputs[..i]) && total == ValueIn(w.store, tx.inputs[..i])
      invariant forall h :: h in parents <==> h in Needs(w, tx.inputs[..i])
    {
      var o := tx.inputs[i];
      assert o in tx.inputs;
      NeedsNext(w, tx.inputs, i);
      assert tx.inputs[..i + 1][..i] == tx.inputs[..i];
      if !OnDisk(w, o) {
        if o.hash !in w.mempool {
          return false, parents, weight, total;
        }
        parents := parents + [o.hash];
      } else {
        weight := weight + ValueOf(w.store, o) as real * rules.confirmations(o.hash) as real;
      }
      total := total + ValueOf(w.store, o);
    }
    assert tx.inputs[..|tx.inputs|] == tx.inputs;
    known := true;
  }

  /** The transactions that can come into the block at all. */
  ghost predicate Collectable(rules: Rules, w: World, h: Hash) {
    h in w.mempool && Eligible(rules, w.mempool[h]) && InputsKnown(w, w.mempool[h].inputs)
  }

  /** Every collected transaction in `seen` is ready or waits for its parents, and its parents know. */
  ghost predicate Sorted(rules: Rules, w: World, seen: set<Hash>, ready: seq<Candidate>, waiting: Waiting,
                         dependers: Dependers)
    requires RulesOk(rules)
  {
    && (forall i :: 0 <= i < |ready| ==> IsReady(rules, w, seen, ready[i]))
    && (forall i, j :: 0 <= i < j < |ready| ==> ready[i].tx.hash != ready[j].tx.hash)
    && (forall h :: h in waiting ==> IsWaiting(rules, w, seen, waiting[h], h))
    && (forall h, p :: h in waiting && p in waiting[h].dependsOn ==> p in dependers && h in dependers[p])
    && (forall h :: h in seen && Collectable(rules, w, h) ==>
       h in waiting || CandidateOf(rules, w, w.mempool[h]) in ready)
  }

  ghost predicate IsReady(rules: Rules, w: World, seen: set<Hash>, c: Candidate)
    requires RulesOk(rules)
  {
    && c.tx.hash in seen && Collectable(rules, w, c.tx.hash)
    && c == CandidateOf(rules, w, w.mempool[c.tx.hash])
    && Needs(w, c.tx.inputs) == {}
  }

  ghost predicate IsWaiting(rules: Rules, w: World, seen: set<Hash>, o: Orphan, h: Hash)
    requires RulesOk(rules)
  {
    && h in seen && Collectable(rules, w, h)
    && o.candidate == CandidateOf(rules, w, w.mempool[h])
    && o.dependsOn == Needs(w, o.candidate.tx.inputs) != {}
  }

  /** `noted` has `h` with each of its parents, and is otherwise `dependers`. */
  ghost predicate Noted(dependers: Dependers, parents: seq<Hash>, h: Hash, noted: Dependers) {
    && (forall p :: p in dependers ==> p in noted && forall x :: x in dependers[p] ==> x in noted[p])
    && (forall p :: p in parents ==> p in noted && h in noted[p])
    && (forall p, x :: p in noted && x in noted[p] ==> x == h || (p in dependers && x in dependers[p]))
  }

  /** Note `h` with each of its parents, as often as an input names it. */
  method NoteParents(dependers: Dependers, parents: seq<Hash>, h: Hash) returns (noted: Dependers)
    ensures Noted(dependers, parents, h, noted)
  {
    noted := dependers;
    for i := 0 to |parents|
      invariant forall p :: p in dependers ==> p in noted && forall x :: x in dependers[p] ==> x in noted[p]
      invariant forall k :: 0 <= k < i ==> parents[k] in noted && h in noted[parents[k]]
      invariant forall p, x :: p in noted && x in noted[p] ==> x == h || (p in dependers && x in dependers[p])
    {
      var p := parents[i];
      var list := (if p in noted then noted[p] else []) + [h];
      assert h in list;
      noted := noted[p := list];
    }
  }

  lemma SeenMore(rules: Rules, w: World, seen: set<Hash>, ready: seq<Candidate>, waiting: Waiting, h: Hash)
    requires RulesOk(rules)
    requires forall i :: 0 <= i < |ready| ==> IsReady(rules, w, seen, ready[i])
    requires forall x :: x in waiting ==> IsWaiting(rules, w, seen, waiting[x], x)
    ensures forall i :: 0 <= i < |ready| ==> IsReady(rules, w, seen + {h}, ready[i]) && ready[i].tx.hash in seen
    ensures forall x :: x in waiting ==> IsWaiting(rules, w, seen + {h}, waiting[x], x) && x in seen
  {
    hide CandidateOf, Needs, Collectable;
    forall i | 0 <= i < |ready|
      ensures IsReady(rules, w, seen + {h}, ready[i]) && ready[i].tx.hash in seen
    {
      assert IsReady(rules, w, seen, ready[i]);
    }
    forall x | x in waiting
      ensures IsWaiting(rules, w, seen + {h}, waiting[x], x) && x in seen
    {
      assert IsWaiting(rules, w, seen, waiting[x], x);
    }
  }

  lemma SortedNext(rules: Rules, w: World, seen: set<Hash>, ready: seq<Candidate>, waiting: Waiting,
                   dependers: Dependers,
                   h: Hash, parents: seq<Hash>, noted: Dependers)
    requires RulesOk(rules) && WorldOk(w) && Sorted(rules, w, seen, ready, waiting, dependers)
    requires h !in seen && Collectable(rules, w, h)
    requires forall p :: p in parents <==> p in Needs(w, w.mempool[h].inputs)
    requires Noted(dependers, parents, h, noted)
    ensures var c := CandidateOf(rules, w, w.mempool[h]);
            if parents == [] then Sorted(rules, w, seen + {h}, ready + [c], waiting, dependers)
            else Sorted(rules, w, seen + {h}, ready, waiting[h := Orphan(c, Needs(w, w.mempool[h].inputs))], noted)
  {
    hide CandidateOf, Weight, Needs, InputsKnown;
    var c := CandidateOf(rules, w, w.mempool[h]);
    SeenMore(rules, w, seen, ready, waiting, h);
    if parents == [] {
      assert Needs(w, c.tx.inputs) == {} by {
        assert forall p :: p in Needs(w, c.tx.inputs) ==> p in parents;
      }
      assert IsReady(rules, w, seen + {h}, c);
      hide IsReady, IsWaiting;
    } else {
      assert parents[0] in Needs(w, c.tx.inputs);
      assert IsWaiting(rules, w, seen + {h}, Orphan(c, Needs(w, c.tx.inputs)), h);
      hide IsReady, IsWaiting;
    }
  }

  lemma SortedSkip(rules: Rules, w: World, seen: set<Hash>, ready: seq<Candidate>, waiting: Waiting,
                   dependers: Dependers, h: Hash)
    requires RulesOk(rules) && Sorted(rules, w, seen, ready, waiting, dependers) && !Collectable(rules, w, h)
    ensures Sorted(rules, w, seen + {h}, ready, waiting, dependers)
  {
    hide CandidateOf, Weight, Needs, InputsKnown;
    forall i | 0 <= i < |ready|
      ensures IsReady(rules, w, seen + {h}, ready[i])
    {
      assert IsReady(rules, w, seen, ready[i]);
    }
    forall x | x in waiting
      ensures IsWaiting(rules, w, seen + {h}, waiting[x], x)
    {
      assert IsWaiting(rules, w, seen, waiting[x], x);
    }
  }

  /** What is known of one transaction. */
  method Consider(rules: Rules, w: World, tx: Tx) returns (known: bool, parents: seq<Hash>, c: Candidate)
    requires rules.size(tx) > 0
    ensures known <==> Eligible(rules, tx) && InputsKnown(w, tx.inputs)
    ensures known ==> c == CandidateOf(rules, w, tx)
    ensures known ==> forall h :: h in parents <==> h in Needs(w, tx.inputs)
  {
    known, parents, c := false, [], Candidate(0.0, 0.0, tx);
    if Eligible(rules, tx) {
      var weight, total;
      known, parents, weight, total := Inspect(rules, w, tx);
      if known {
        var size := rules.size(tx) as real;
        c := Candidate(weight / size, (total - Sum(tx.outs)) as real / (size / 1000.0), tx);
      }
    }
  }

  lemma Moved(all: set<Hash>, left: set<Hash>, h: Hash)
    requires h in left && left <= all
    ensures all - (left - {h}) == (all - left) + {h}
  {
  }

  /** One round of the first loop of `CreateNewBlock`. */
  method CollectOne(rules: Rules, w: World, h: Hash, ready: seq<Candidate>, waiting: Waiting, dependers: Dependers,
                    ghost seen: set<Hash>)
    returns (ready': seq<Candidate>, waiting': Waiting, dependers': Dependers)
    requires RulesOk(rules) && WorldOk(w) && h in w.mempool && h !in seen
    requires Sorted(rules, w, seen, ready, waiting, dependers)
    ensures Sorted(rules, w, seen + {h}, ready', waiting', dependers')
  {
    hide Sorted, Noted, Needs, CandidateOf, InputsKnown, Eligible;
    ready', waiting', dependers' := ready, waiting, dependers;
    var tx := w.mempool[h];
    var known, parents, c := Consider(rules, w, tx);
    if !known {
      SortedSkip(rules, w, seen, ready, waiting, dependers, h);
      return;
    }
    var noted := NoteParents(dependers, parents, h);
    SortedNext(rules, w, seen, ready, waiting, dependers, h, parents, noted);
    if parents == [] {
      ready' := ready + [c];
    } else {
      waiting', dependers' := waiting[h := Orphan(c, Needs(w, tx.inputs))], noted;
    }
  }

  /** The first loop of `CreateNewBlock`, over the memory pool. */
  method Collect(rules: Rules, w: World) returns (ready: seq<Candidate>, waiting: Waiting, dependers: Dependers)
    requires RulesOk(rules) && WorldOk(w)
    ensures Sorted(rules, w, w.mempool.Keys, ready, waiting, dependers)
  {
    ready, waiting, dependers := [], map[], map[];
    var left := w.mempool.Keys;
    hide *;
    SortedEmpty(rules, w);
    assert left - left == {};
    while left != {}
      invariant left <= w.mempool.Keys && RulesOk(rules)
      invariant Sorted(rules, w, w.mempool.Keys - left, ready, waiting, dependers)
      decreases |left|
    {
      var h :| h in left;
      Moved(w.mempool.Keys, left, h);
      ready, waiting, dependers := CollectOne(rules, w, h, ready, waiting, dependers, w.mempool.Keys - left);
      left := left - {h};
    }
    assert w.mempool.Keys - left == w.mempool.Keys;
  }

  lemma SortedEmpty(rules: Rules, w: World)
    requires RulesOk(rules)
    ensures Sorted(rules, w, {}, [], map[], map[])
  {
  }

  // The priority queue

  /** `TxPriorityCompare`. */
  predicate Below(a: Candidate, b: Candidate, byFee: bool) {
    if byFee then a.feePerKb < b.feePerKb || (a.feePerKb == b.feePerKb && a.priority < b.priority)
    else a.priority < b.priority || (a.priority == b.priority && a.feePerKb < b.feePerKb)
  }

  /** Take a highest candidate off the queue. */
  method Pop(queue: seq<Candidate>, byFee: bool) returns (k: nat)
    requires queue != []
    ensures k < |queue| && forall i :: 0 <= i < |queue| ==> !Below(queue[k], queue[i], byFee)
  {
    k := 0;
    for i := 1 to |queue|
      invariant k < i && forall j :: 0 <= j < i ==> !Below(queue[k], queue[j], byFee)
    {
      if Below(queue[k], queue[i], byFee) {
        k := i;
      }
    }
  }

  // Deciding on one transaction

  function SizeOf(rules: Rules, txs: seq<Tx>): nat {
    if txs == [] then 0 else SizeOf(rules, txs[..|txs| - 1]) + rules.size(txs[|txs| - 1])
  }

  function SigOpsOf(rules: Rules, txs: seq<Tx>): nat {
    if txs == [] then 0
    else SigOpsOf(rules, txs[..|txs| - 1]) + rules.sigOps(txs[|txs| - 1]) + rules.scriptSigOps(txs[|txs| - 1])
  }

  /** A token may be issued once in a block. */
  predicate SymbolOk(rules: Rules, tx: Tx, issued: set<nat>) {
    rules.symbolChecks(tx) && (rules.symbol(tx).Some? ==> rules.symbol(tx).value !in issued)
  }

  /** The checks before the inputs are looked at. */
  predicate Fits(rules: Rules, size: int, sigOps: int, c: Candidate, byFee: bool) {
    && size + rules.size(c.tx) < rules.maxSize
    && sigOps + rules.sigOps(c.tx) < MAX_BLOCK_SIGOPS
    && rules.timely(c.tx)
    && !(byFee && c.feePerKb < rules.minTxFee as real && size + rules.size(c.tx) >= rules.minSize)
  }

  /** The transaction is let into the block after those in `block`. */
  ghost predicate Admits(rules: Rules, w: World, block: seq<Tx>, c: Candidate, byFee: bool, issued: set<nat>) {
    && Reaches(rules, w, block, c, byFee)
    && SymbolOk(rules, c.tx, issued)
    && TxAccepted(w.store, ConnectTxs(w.db, block, IN_MEMORY).value, c.tx, IN_MEMORY, rules.out)
  }

  /** The block under construction. */
  datatype Assembly = Assembly(
    block: seq<Tx>,
    pool: Index,
    size: int,
    sigOps: int,
    fees: int,
    byFee: bool,
    issued: set<nat>)

  /** The figures are those of the block, within the limits, and the block replays. */
  ghost predicate Tallies(rules: Rules, w: World, a: Assembly) {
    && a.size == START_SIZE + SizeOf(rules, a.block)
    && a.sigOps == START_SIGOPS + SigOpsOf(rules, a.block)
    && a.fees == Fees(w.store, a.block)
    && a.size <= rules.maxSize
    && (a.block != [] ==> a.size < rules.maxSize)
    && a.sigOps < MAX_BLOCK_SIGOPS
    && ConnectTxs(w.db, a.block, IN_MEMORY) == Some(View(w.db, a.pool))
    && SymbolsOnce(rules, a.block, a.issued)
  }

  ghost predicate SymbolsOnce(rules: Rules, block: seq<Tx>, issued: set<nat>) {
    && (forall i :: 0 <= i < |block| && rules.symbol(block[i]).Some? ==> rules.symbol(block[i]).value in issued)
    && (forall i, j :: 0 <= i < j < |block| && rules.symbol(block[i]).Some? ==>
       rules.symbol(block[i]) != rules.symbol(block[j]))
  }

  lemma TalliesNext(rules: Rules, w: World, a: Assembly, tx: Tx, pool: Index, issued: set<nat>, byFee: bool)
    requires Tallies(rules, w, a) && tx.kind.User?
    requires a.size + rules.size(tx) < rules.maxSize
             && a.sigOps + rules.sigOps(tx) + rules.scriptSigOps(tx) < MAX_BLOCK_SIGOPS
    requires ConnectTx(View(w.db, a.pool), tx, IN_MEMORY) == Some(View(w.db, pool))
    requires issued == a.issued + (if rules.symbol(tx).Some? then {rules.symbol(tx).value} else {})
             && SymbolOk(rules, tx, a.issued)
    ensures Tallies(rules, w,
            Assembly(a.block + [tx], pool, a.size + rules.size(tx),
                a.sigOps + rules.sigOps(tx) + rules.scriptSigOps(tx),
                                       a.fees + ValueIn(w.store, tx.inputs) - Sum(tx.outs), byFee, issued))
  {
    var more := a.block + [tx];
    assert more[..|more| - 1] == a.block && more[|more| - 1] == tx;
  }

  lemma FitsSize(rules: Rules, a: Assembly, c: Candidate)
    requires Fits(rules, a.size, a.sigOps, c, a.byFee)
    ensures a.size + rules.size(c.tx) < rules.maxSize
  {
  }

  /** From when on the block is filled by fee: a candidate that fits would take it past the priority
      size, or has no high priority. */
  predicate FillsByFee(rules: Rules, size: int, sigOps: int, c: Candidate, byFee: bool) {
    byFee || (Fits(rules, size, sigOps, c, byFee)
        && (size + rules.size(c.tx) >= rules.prioritySize || c.priority < HIGH_PRIORITY))
  }

  /** A candidate that gets as far as its token symbol takes the symbol, let in or not. */
  ghost predicate Reaches(rules: Rules, w: World, block: seq<Tx>, c: Candidate, byFee: bool) {
    var size, sigOps, idx := START_SIZE + SizeOf(rules, block), START_SIGOPS + SigOpsOf(rules, block),
        ConnectTxs(w.db, block, IN_MEMORY);
    && Fits(rules, size, sigOps, c, byFee)
    && idx.Some?
    && Fetchable(w.store, idx.value, c.tx.inputs)
    && ValueIn(w.store, c.tx.inputs) - Sum(c.tx.outs) >= rules.minFee(c.tx, size)
    && sigOps + rules.sigOps(c.tx) + rules.scriptSigOps(c.tx) < MAX_BLOCK_SIGOPS
  }

  ghost function IssuedAfter(rules: Rules, w: World, block: seq<Tx>, c: Candidate, byFee: bool,
                             issued: set<nat>): set<nat> {
    if Reaches(rules, w, block, c, byFee) && SymbolOk(rules, c.tx, issued) && rules.symbol(c.tx).Some?
    then issued + {rules.symbol(c.tx).value} else issued
  }

  /** One round of the second loop, from the size check to the bookkeeping. */
  method Decide(rules: Rules, w: World, a: Assembly, c: Candidate) returns (taken: bool, b: Assembly)
    requires RulesOk(rules) && Tallies(rules, w, a) && c.tx.kind.User?
    ensures Tallies(rules, w, b)
    ensures taken <==> Admits(rules, w, a.block, c, a.byFee, a.issued)
    ensures b.block == if taken then a.block + [c.tx] else a.block
    ensures b.byFee == FillsByFee(rules, a.size, a.sigOps, c, a.byFee)
    ensures b.issued == IssuedAfter(rules, w, a.block, c, a.byFee, a.issued)
  {
    hide TxAccepted, Fetchable, ConnectTxs, ConnectTx, SizeOf, SigOpsOf, Fees, View, ValueIn, Sum, Fits;
    var tx := c.tx;
    b := a;
    if !Fits(rules, a.size, a.sigOps, c, a.byFee) {
      return false, b;
    }
    if !a.byFee && (a.size + rules.size(tx) >= rules.prioritySize || c.priority < HIGH_PRIORITY) {
      b := b.(byFee := true);
    }
    var fetched := FetchInputs(w.store, w.db, a.pool, tx.inputs);
    if fetched.None? || ValueIn(w.store, tx.inputs) - Sum(tx.outs) < rules.minFee(tx, a.size) {
      return false, b;
    }
    if a.sigOps + rules.sigOps(tx) + rules.scriptSigOps(tx) >= MAX_BLOCK_SIGOPS || !SymbolOk(rules, tx, a.issued) {
      return false, b;
    }
    var issued := a.issued + if rules.symbol(tx).Some? then {rules.symbol(tx).value} else {};
    var pool, _ := ConnectOne(w.store, w.db, a.pool, tx, IN_MEMORY, rules.out);
    if pool.None? {
      return false, b.(issued := issued);
    }
    FitsSize(rules, a, c);
    TalliesNext(rules, w, a, tx, pool.value, issued, b.byFee);
    b := Assembly(a.block + [tx], pool.value, a.size + rules.size(tx),
        a.sigOps + rules.sigOps(tx) + rules.scriptSigOps(tx),
                  a.fees + ValueIn(w.store, tx.inputs) - Sum(tx.outs), b.byFee, issued);
    taken := true;
  }

  // Parents first

  /** Take `hash` off what the listed orphans wait for; those that wait for nothing more are released. */
  ghost predicate Released(list: seq<Hash>, hash: Hash, waiting: Waiting, waiting': Waiting, new': seq<Candidate>) {
    && waiting'.Keys == waiting.Keys
    && (forall h :: h in waiting ==>
          waiting'[h] ==
          waiting[h].(dependsOn := if h in list then waiting[h].dependsOn - {hash} else waiting[h].dependsOn))
    && (forall i :: 0 <= i < |new'| ==> IsReleased(list, hash, waiting, new'[i]))
    && (forall i, j :: 0 <= i < j < |new'| ==> new'[i].tx.hash != new'[j].tx.hash)
    && (forall h :: h in waiting && h in list && waiting[h].dependsOn == {hash} ==> waiting[h].candidate in new')
  }

  ghost predicate IsReleased(list: seq<Hash>, hash: Hash, waiting: Waiting, c: Candidate) {
    var h := c.tx.hash;
    h in list && h in waiting && c == waiting[h].candidate && waiting[h].dependsOn == {hash}
  }

  ghost predicate Keyed(waiting: Waiting) {
    forall h :: h in waiting ==> waiting[h].candidate.tx.hash == h
  }

  /** One orphan stops waiting for `hash`; it is released if it waits for nothing more. */
  function ReleaseStep(waiting: Waiting, h: Hash, hash: Hash): (r: (Waiting, seq<Candidate>)) {
    if h in waiting && waiting[h].dependsOn != {} then
      var o := waiting[h].(dependsOn := waiting[h].dependsOn - {hash});
      (waiting[h := o], if o.dependsOn == {} then [o.candidate] else [])
    else
      (waiting, [])
  }

  lemma ReleaseOne(list: seq<Hash>, i: nat, hash: Hash, waiting: Waiting, waiting': Waiting, new': seq<Candidate>)
    requires i < |list| && Keyed(waiting) && Released(list[..i], hash, waiting, waiting', new')
    ensures var r := ReleaseStep(waiting', list[i], hash);
            Released(list[..i + 1], hash, waiting, r.0, new' + r.1)
  {
    var h := list[i];
    assert list[..i + 1] == list[..i] + [h];
    forall k | 0 <= k < |new'|
      ensures IsReleased(list[..i + 1], hash, waiting, new'[k])
    {
      assert IsReleased(list[..i], hash, waiting, new'[k]);
    }
    if h in waiting' && waiting'[h].dependsOn != {} {
      var o := waiting'[h].(dependsOn := waiting'[h].dependsOn - {hash});
      if o.dependsOn == {} {
        assert waiting'[h].dependsOn == {hash};
        assert h !in list[..i];
        assert IsReleased(list[..i + 1], hash, waiting, o.candidate);
        forall k | 0 <= k < |new'|
          ensures new'[k].tx.hash != h
        {
          assert IsReleased(list[..i], hash, waiting, new'[k]);
        }
      }
    } else if h in waiting && waiting[h].dependsOn == {hash} {
      assert h in list[..i];
    }
  }

  /** The loop over the dependers of a transaction that came into the block. */
  method Release(list: seq<Hash>, hash: Hash, waiting: Waiting, queue: seq<Candidate>)
    returns (waiting': Waiting, queue': seq<Candidate>, ghost new': seq<Candidate>)
    requires Keyed(waiting)
    ensures Released(list, hash, waiting, waiting', new') && queue' == queue + new'
  {
    waiting', queue', new' := waiting, queue, [];
    assert Released(list[..0], hash, waiting, waiting', new');
    hide Released, ReleaseStep, Keyed;
    for i := 0 to |list|
      invariant Released(list[..i], hash, waiting, waiting', new') && queue' == queue + new'
    {
      ReleaseOne(list, i, hash, waiting, waiting', new');
      var r := ReleaseStep(waiting', list[i], hash);
      waiting', queue', new' := r.0, queue' + r.1, new' + r.1;
    }
    assert list[..|list|] == list;
  }

  ghost predicate IsQueued(rules: Rules, w: World, block: seq<Tx>, popped: set<Hash>, c: Candidate)
    requires RulesOk(rules)
  {
    var h := c.tx.hash;
    h !in popped && Collectable(rules, w, h) && c == CandidateOf(rules, w, w.mempool[h])
        && Needs(w, c.tx.inputs) <= Ids(block)
  }

  ghost predicate IsPending(rules: Rules, w: World, dependers: Dependers, block: seq<Tx>, popped: set<Hash>, o: Orphan,
                            h: Hash)
    requires RulesOk(rules)
  {
    && Collectable(rules, w, h) && o.candidate == CandidateOf(rules, w, w.mempool[h])
    && o.dependsOn == Needs(w, w.mempool[h].inputs) - Ids(block)
    && (o.dependsOn != {} ==> h !in popped)
    && (forall p :: p in Needs(w, w.mempool[h].inputs) ==> p in dependers && h in dependers[p])
  }

  ghost predicate QueueOk(rules: Rules, w: World, block: seq<Tx>, queue: seq<Candidate>, waiting: Waiting,
                          popped: set<Hash>)
    requires RulesOk(rules)
  {
    && (forall i :: 0 <= i < |queue| ==> IsQueued(rules, w, block, popped, queue[i]))
    && (forall i, j :: 0 <= i < j < |queue| ==> queue[i].tx.hash != queue[j].tx.hash)
    && (forall i :: 0 <= i < |queue| && queue[i].tx.hash in waiting ==> waiting[queue[i].tx.hash].dependsOn == {})
  }

  ghost predicate PendingOk(rules: Rules, w: World, dependers: Dependers, block: seq<Tx>, waiting: Waiting,
                            popped: set<Hash>)
    requires RulesOk(rules)
  {
    forall h :: h in waiting ==> IsPending(rules, w, dependers, block, popped, waiting[h], h)
  }

  /** Each transaction of the block comes after the parents it waits for. */
  ghost predicate ParentsFirst(w: World, block: seq<Tx>) {
    forall i :: 0 <= i < |block| ==> Needs(w, block[i].inputs) <= Ids(block[..i])
  }

  /** The block holds popped transactions of the memory pool, none twice, parents first. */
  ghost predicate BlockOk(rules: Rules, w: World, block: seq<Tx>, popped: set<Hash>) {
    && (forall i :: 0 <= i < |block| ==>
          block[i].hash in popped && Collectable(rules, w, block[i].hash) && w.mempool[block[i].hash] == block[i])
    && Distinct(block)
    && ParentsFirst(w, block)
  }

  /** No candidate is lost. */
  ghost predicate Covered(rules: Rules, w: World, queue: seq<Candidate>, waiting: Waiting, popped: set<Hash>)
    requires RulesOk(rules)
  {
    forall h :: Collectable(rules, w, h) ==>
      h in popped || CandidateOf(rules, w, w.mempool[h]) in queue || (h in waiting && waiting[h].dependsOn != {})
  }

  ghost predicate Scheduled(rules: Rules, w: World, dependers: Dependers, block: seq<Tx>, queue: seq<Candidate>,
                            waiting: Waiting, popped: set<Hash>)
    requires RulesOk(rules)
  {
    && popped <= w.mempool.Keys
    && QueueOk(rules, w, block, queue, waiting, popped)
    && PendingOk(rules, w, dependers, block, waiting, popped)
    && BlockOk(rules, w, block, popped)
    && Covered(rules, w, queue, waiting, popped)
  }

  lemma ScheduledStart(rules: Rules, w: World, ready: seq<Candidate>, waiting: Waiting, dependers: Dependers)
    requires RulesOk(rules) && WorldOk(w) && Sorted(rules, w, w.mempool.Keys, ready, waiting, dependers)
    ensures Scheduled(rules, w, dependers, [], ready, waiting, {})
  {
    hide CandidateOf, Needs, InputsKnown;
    forall i | 0 <= i < |ready|
      ensures IsQueued(rules, w, [], {}, ready[i]) && ready[i].tx.hash !in waiting
    {
      assert IsReady(rules, w, w.mempool.Keys, ready[i]);
      var h := ready[i].tx.hash;
      assert h in waiting ==> IsWaiting(rules, w, w.mempool.Keys, waiting[h], h);
    }
    forall h | h in waiting
      ensures IsPending(rules, w, dependers, [], {}, waiting[h], h) && waiting[h].dependsOn != {}
    {
      assert IsWaiting(rules, w, w.mempool.Keys, waiting[h], h);
      assert Needs(w, w.mempool[h].inputs) - Ids([]) == Needs(w, w.mempool[h].inputs);
    }
  }

  function Without<T>(xs: seq<T>, k: nat): seq<T>
    requires k < |xs|
  {
    xs[..k] + xs[k + 1..]
  }

  lemma PoppedQueue(rules: Rules, w: World, block: seq<Tx>, queue: seq<Candidate>, waiting: Waiting, popped: set<Hash>,
                    k: nat)
    requires RulesOk(rules) && QueueOk(rules, w, block, queue, waiting, popped) && k < |queue|
    ensures QueueOk(rules, w, block, Without(queue, k), waiting, popped + {queue[k].tx.hash})
  {
    hide CandidateOf, Needs, InputsKnown, Collectable;
    var rest, h := Without(queue, k), queue[k].tx.hash;
    forall i | 0 <= i < |rest|
      ensures IsQueued(rules, w, block, popped + {h}, rest[i])
    {
      var j := if i < k then i else i + 1;
      assert rest[i] == queue[j] && IsQueued(rules, w, block, popped, queue[j]);
      assert queue[j].tx.hash != h;
    }
  }

  /** A transaction that is not let in is only taken off the queue. */
  lemma ScheduledSkip(rules: Rules, w: World, dependers: Dependers, block: seq<Tx>, queue: seq<Candidate>,
                      waiting: Waiting, popped: set<Hash>, k: nat)
    requires RulesOk(rules) && WorldKeys(w) && Scheduled(rules, w, dependers, block, queue, waiting, popped)
             && k < |queue|
    ensures Scheduled(rules, w, dependers, block, Without(queue, k), waiting, popped + {queue[k].tx.hash})
  {
    hide CandidateOf, Needs, InputsKnown;
    PoppedQueue(rules, w, block, queue, waiting, popped, k);
    var h0 := queue[k].tx.hash;
    assert IsQueued(rules, w, block, popped, queue[k]);
    forall h | h in waiting
      ensures IsPending(rules, w, dependers, block, popped + {h0}, waiting[h], h)
    {
      assert IsPending(rules, w, dependers, block, popped, waiting[h], h);
    }
    CoveredPop(rules, w, queue, waiting, popped, k);
  }

  lemma CoveredPop(rules: Rules, w: World, queue: seq<Candidate>, waiting: Waiting, popped: set<Hash>, k: nat)
    requires RulesOk(rules) && WorldKeys(w) && Covered(rules, w, queue, waiting, popped) && k < |queue|
    ensures Covered(rules, w, Without(queue, k), waiting, popped + {queue[k].tx.hash})
  {
    hide CandidateOf;
    forall h | Collectable(rules, w, h) && h !in popped + {queue[k].tx.hash}
        && !(h in waiting && waiting[h].dependsOn != {})
      ensures CandidateOf(rules, w, w.mempool[h]) in Without(queue, k)
    {
      var c := CandidateOf(rules, w, w.mempool[h]);
      var i :| 0 <= i < |queue| && queue[i] == c;
      assert Without(queue, k)[if i < k then i else i - 1] == c;
    }
  }

  /** The memory pool is keyed by transaction id. */
  ghost predicate WorldKeys(w: World) {
    forall h :: h in w.mempool ==> w.mempool[h].hash == h
  }

  lemma IdsPlus(block: seq<Tx>, tx: Tx)
    ensures Ids(block + [tx]) == Ids(block) + {tx.hash}
  {
    var a, b := Ids(block + [tx]), Ids(block) + {tx.hash};
    forall h
      ensures h in a <==> h in b
    {
      if h in b {
        if h == tx.hash {
          assert tx in block + [tx];
        } else {
          var t :| t in block && t.hash == h;
          assert t in block + [tx];
        }
      }
    }
  }

  lemma BlockGrows(rules: Rules, w: World, block: seq<Tx>, popped: set<Hash>, tx: Tx)
    requires BlockOk(rules, w, block, popped) && Collectable(rules, w, tx.hash) && w.mempool[tx.hash] == tx
    requires tx.hash !in popped && Needs(w, tx.inputs) <= Ids(block)
    ensures BlockOk(rules, w, block + [tx], popped + {tx.hash})
  {
    hide Needs, Collectable;
    var more := block + [tx];
    forall i | 0 <= i < |more|
      ensures Needs(w, more[i].inputs) <= Ids(more[..i])
    {
      if i < |block| {
        assert more[..i] == block[..i];
      } else {
        assert more[..i] == block;
      }
    }
  }

  lemma PendingGrows(rules: Rules, w: World, dependers: Dependers, block: seq<Tx>, waiting: Waiting, popped: set<Hash>,
                     tx: Tx,
                     list: seq<Hash>, waiting': Waiting, new': seq<Candidate>)
    requires RulesOk(rules) && PendingOk(rules, w, dependers, block, waiting, popped)
    requires tx.hash in waiting ==> waiting[tx.hash].dependsOn == {}
    requires list == if tx.hash in dependers then dependers[tx.hash] else []
    requires Released(list, tx.hash, waiting, waiting', new')
    ensures PendingOk(rules, w, dependers, block + [tx], waiting', popped + {tx.hash})
  {
    hide CandidateOf, Needs, InputsKnown;
    IdsPlus(block, tx);
    forall h | h in waiting'
      ensures IsPending(rules, w, dependers, block + [tx], popped + {tx.hash}, waiting'[h], h)
    {
      assert h in waiting && IsPending(rules, w, dependers, block, popped, waiting[h], h);
      var needs := Needs(w, w.mempool[h].inputs);
      assert tx.hash in needs ==> h in list;
      assert waiting'[h].dependsOn == needs - Ids(block + [tx]);
    }
  }

  lemma QueueGrows(rules: Rules, w: World, dependers: Dependers, block: seq<Tx>, queue: seq<Candidate>,
                   waiting: Waiting, popped: set<Hash>, tx: Tx,
                   list: seq<Hash>, waiting': Waiting, new': seq<Candidate>)
    requires RulesOk(rules) && QueueOk(rules, w, block, queue, waiting, popped + {tx.hash})
    requires PendingOk(rules, w, dependers, block, waiting, popped)
             && (tx.hash in waiting ==> waiting[tx.hash].dependsOn == {})
    requires Released(list, tx.hash, waiting, waiting', new')
    ensures QueueOk(rules, w, block + [tx], queue + new', waiting', popped + {tx.hash})
  {
    hide CandidateOf, Needs, InputsKnown, Collectable;
    IdsPlus(block, tx);
    var all := queue + new';
    forall i | 0 <= i < |all|
      ensures IsQueued(rules, w, block + [tx], popped + {tx.hash}, all[i])
      ensures all[i].tx.hash in waiting' ==> waiting'[all[i].tx.hash].dependsOn == {}
    {
      if i < |queue| {
        assert IsQueued(rules, w, block, popped + {tx.hash}, queue[i]);
      } else {
        var c := new'[i - |queue|];
        assert IsReleased(list, tx.hash, waiting, c);
        assert IsPending(rules, w, dependers, block, popped, waiting[c.tx.hash], c.tx.hash);
      }
    }
    forall i, j | 0 <= i < j < |all|
      ensures all[i].tx.hash != all[j].tx.hash
    {
      if i < |queue| <= j {
        assert IsReleased(list, tx.hash, waiting, new'[j - |queue|]);
      }
    }
  }

  lemma CoveredGrows(rules: Rules, w: World, dependers: Dependers, block: seq<Tx>, queue: seq<Candidate>,
                     waiting: Waiting, popped: set<Hash>, tx: Tx,
                     list: seq<Hash>, waiting': Waiting, new': seq<Candidate>)
    requires RulesOk(rules) && Covered(rules, w, queue, waiting, popped)
             && PendingOk(rules, w, dependers, block, waiting, popped - {tx.hash})
    requires list == if tx.hash in dependers then dependers[tx.hash] else []
    requires Released(list, tx.hash, waiting, waiting', new')
    ensures Covered(rules, w, queue + new', waiting', popped)
  {
    hide CandidateOf, Needs, InputsKnown;
    forall h | Collectable(rules, w, h)
      ensures h in popped || CandidateOf(rules, w, w.mempool[h]) in queue + new'
              || (h in waiting' && waiting'[h].dependsOn != {})
    {
      if h in waiting && waiting[h].dependsOn != {} && waiting'[h].dependsOn == {} {
        assert IsPending(rules, w, dependers, block, popped - {tx.hash}, waiting[h], h);
        assert waiting[h].dependsOn == {tx.hash};
        assert waiting[h].candidate in new';
      }
    }
  }

  /** A transaction that is let in releases those that waited for it alone. */
  lemma ScheduledTake(rules: Rules, w: World, dependers: Dependers, block: seq<Tx>, queue: seq<Candidate>,
                      waiting: Waiting, popped: set<Hash>, k: nat,
                      list: seq<Hash>, waiting': Waiting, new': seq<Candidate>)
    requires RulesOk(rules) && WorldKeys(w) && Scheduled(rules, w, dependers, block, queue, waiting, popped)
             && k < |queue|
    requires list == if queue[k].tx.hash in dependers then dependers[queue[k].tx.hash] else []
    requires Released(list, queue[k].tx.hash, waiting, waiting', new')
    ensures Scheduled(rules, w, dependers, block + [queue[k].tx], Without(queue, k) + new', waiting',
            popped + {queue[k].tx.hash})
  {
    var tx := queue[k].tx;
    assert IsQueued(rules, w, block, popped, queue[k]);
    hide CandidateOf, Needs, InputsKnown, QueueOk, PendingOk, BlockOk, Covered, Released;
    PoppedQueue(rules, w, block, queue, waiting, popped, k);
    QueueTop(rules, w, block, queue, waiting, popped, k);
    BlockGrows(rules, w, block, popped, tx);
    PendingGrows(rules, w, dependers, block, waiting, popped, tx, list, waiting', new');
    QueueGrows(rules, w, dependers, block, Without(queue, k), waiting, popped, tx, list, waiting', new');
    CoveredPop(rules, w, queue, waiting, popped, k);
    assert popped + {tx.hash} - {tx.hash} == popped;
    CoveredGrows(rules, w, dependers, block, Without(queue, k), waiting, popped + {tx.hash}, tx, list, waiting', new');
  }

  lemma QueueTop(rules: Rules, w: World, block: seq<Tx>, queue: seq<Candidate>, waiting: Waiting, popped: set<Hash>,
                 k: nat)
    requires RulesOk(rules) && QueueOk(rules, w, block, queue, waiting, popped) && k < |queue|
    ensures queue[k].tx.hash in waiting ==> waiting[queue[k].tx.hash].dependsOn == {}
  {
  }

  // The whole

  /** What was decided on a candidate: after how many transactions of the block, by which order,
      with which token symbols issued, and whether it was let in. */
  datatype Decision = Decision(candidate: Candidate, at: nat, byFee: bool, issued: set<nat>, taken: bool)

  /** A candidate was let in exactly if it was admissible when it was looked at. */
  ghost predicate DecisionOk(rules: Rules, w: World, block: seq<Tx>, d: Decision) {
    && d.at <= |block|
    && (d.taken <==> Admits(rules, w, block[..d.at], d.candidate, d.byFee, d.issued))
    && (d.taken ==> d.at < |block| && block[d.at] == d.candidate.tx)
  }

  /** Among the candidates not decided on whose parents are all in the block, `c` is a highest. */
  ghost predicate BestReady(rules: Rules, w: World, block: seq<Tx>, decided: set<Hash>, c: Candidate, byFee: bool)
    requires RulesOk(rules)
  {
    forall h :: Collectable(rules, w, h) && h !in decided && Needs(w, w.mempool[h].inputs) <= Ids(block)
      ==> !Below(c, CandidateOf(rules, w, w.mempool[h]), byFee)
  }

  function Decided(log: seq<Decision>): set<Hash> {
    set i | 0 <= i < |log| :: log[i].candidate.tx.hash
  }

  /** What comes next in the log: the order and the issued symbols follow from the decision before. */
  ghost predicate Follows(rules: Rules, w: World, block: seq<Tx>, d: Decision, at: nat, byFee: bool, issued: set<nat>)
    requires d.at <= |block|
  {
    var before := block[..d.at];
    && at == d.at + (if d.taken then 1 else 0)
    && byFee == FillsByFee(rules, START_SIZE + SizeOf(rules, before), START_SIGOPS + SigOpsOf(rules, before),
       d.candidate, d.byFee)
    && issued == IssuedAfter(rules, w, before, d.candidate, d.byFee, d.issued)
  }

  /** The state of the loop after the last decision of the log. */
  ghost predicate At(rules: Rules, w: World, block: seq<Tx>, log: seq<Decision>, at: nat, byFee: bool,
                     issued: set<nat>) {
    if log == [] then at == 0 && byFee == (rules.prioritySize <= 0) && issued == {}
    else log[|log| - 1].at <= |block| && Follows(rules, w, block, log[|log| - 1], at, byFee, issued)
  }

  /** Decision `i` was on a highest ready candidate, in the state the earlier ones led to, and as it should be. */
  ghost predicate EntryOk(rules: Rules, w: World, block: seq<Tx>, log: seq<Decision>, i: nat)
    requires RulesOk(rules) && i < |log|
  {
    var d := log[i];
    && DecisionOk(rules, w, block, d)
    && At(rules, w, block, log[..i], d.at, d.byFee, d.issued)
    && BestReady(rules, w, block[..d.at], Decided(log[..i]), d.candidate, d.byFee)
  }

  /** One decision per popped transaction. */
  ghost predicate LogOk(rules: Rules, w: World, a: Assembly, popped: set<Hash>, log: seq<Decision>)
    requires RulesOk(rules)
  {
    && (forall i :: 0 <= i < |log| ==> EntryOk(rules, w, a.block, log, i))
    && popped == Decided(log)
    && At(rules, w, a.block, log, |a.block|, a.byFee, a.issued)
  }

  lemma FollowsFrame(rules: Rules, w: World, block: seq<Tx>, more: seq<Tx>, d: Decision, at: nat, byFee: bool,
                     issued: set<nat>)
    requires d.at <= |block| && block <= more && Follows(rules, w, block, d, at, byFee, issued)
    ensures Follows(rules, w, more, d, at, byFee, issued)
  {
    assert more[..d.at] == block[..d.at];
  }

  lemma AtFrame(rules: Rules, w: World, block: seq<Tx>, more: seq<Tx>, log: seq<Decision>, at: nat, byFee: bool,
                issued: set<nat>)
    requires block <= more && At(rules, w, block, log, at, byFee, issued)
    ensures At(rules, w, more, log, at, byFee, issued)
  {
    if log != [] {
      FollowsFrame(rules, w, block, more, log[|log| - 1], at, byFee, issued);
    }
  }

  lemma EntryFrame(rules: Rules, w: World, block: seq<Tx>, more: seq<Tx>, log: seq<Decision>, d: Decision, i: nat)
    requires RulesOk(rules) && block <= more && i < |log| && EntryOk(rules, w, block, log, i)
    ensures EntryOk(rules, w, more, log + [d], i)
  {
    var e := log[i];
    assert (log + [d])[i] == e && (log + [d])[..i] == log[..i];
    assert more[..e.at] == block[..e.at];
    AtFrame(rules, w, block, more, log[..i], e.at, e.byFee, e.issued);
    hide Admits, BestReady, At;
  }

  lemma DecidedNext(log: seq<Decision>, d: Decision)
    ensures Decided(log + [d]) == Decided(log) + {d.candidate.tx.hash}
  {
    var more := log + [d];
    assert more[|log|] == d && forall i :: 0 <= i < |log| ==> more[i] == log[i];
    forall h | h in Decided(log) + {d.candidate.tx.hash}
      ensures h in Decided(more)
    {
      if h in Decided(log) {
        var i :| 0 <= i < |log| && log[i].candidate.tx.hash == h;
        assert more[i].candidate.tx.hash == h;
      } else {
        assert more[|log|].candidate.tx.hash == h;
      }
    }
  }

  lemma NewEntry(rules: Rules, w: World, a: Assembly, b: Assembly, log: seq<Decision>, d: Decision)
    requires RulesOk(rules) && At(rules, w, a.block, log, |a.block|, a.byFee, a.issued)
    requires d == Decision(d.candidate, |a.block|, a.byFee, a.issued, d.taken)
    requires d.taken <==> Admits(rules, w, a.block, d.candidate, a.byFee, a.issued)
    requires b.block == if d.taken then a.block + [d.candidate.tx] else a.block
    requires BestReady(rules, w, a.block, Decided(log), d.candidate, a.byFee)
    ensures EntryOk(rules, w, b.block, log + [d], |log|)
  {
    var more := log + [d];
    assert more[|log|] == d && more[..|log|] == log && b.block[..|a.block|] == a.block;
    AtFrame(rules, w, a.block, b.block, log, d.at, d.byFee, d.issued);
    hide Admits, BestReady, At;
  }

  lemma LogNext(rules: Rules, w: World, a: Assembly, b: Assembly, popped: set<Hash>, log: seq<Decision>, d: Decision)
    requires RulesOk(rules) && LogOk(rules, w, a, popped, log) && Tallies(rules, w, a)
    requires d == Decision(d.candidate, |a.block|, a.byFee, a.issued, d.taken)
    requires d.taken <==> Admits(rules, w, a.block, d.candidate, a.byFee, a.issued)
    requires b.block == if d.taken then a.block + [d.candidate.tx] else a.block
    requires b.byFee == FillsByFee(rules, a.size, a.sigOps, d.candidate, a.byFee)
    requires b.issued == IssuedAfter(rules, w, a.block, d.candidate, a.byFee, a.issued)
    requires BestReady(rules, w, a.block, popped, d.candidate, a.byFee)
    ensures LogOk(rules, w, b, popped + {d.candidate.tx.hash}, log + [d])
  {
    hide Admits, BestReady, At, EntryOk, FillsByFee, IssuedAfter, Decided;
    NewEntry(rules, w, a, b, log, d);
    forall i | 0 <= i < |log|
      ensures EntryOk(rules, w, b.block, log + [d], i)
    {
      EntryFrame(rules, w, a.block, b.block, log, d, i);
    }
    DecidedNext(log, d);
    AtNext(rules, w, a, b, log, d);
  }

  lemma AtNext(rules: Rules, w: World, a: Assembly, b: Assembly, log: seq<Decision>, d: Decision)
    requires Tallies(rules, w, a) && d == Decision(d.candidate, |a.block|, a.byFee, a.issued, d.taken)
    requires b.block == if d.taken then a.block + [d.candidate.tx] else a.block
    requires b.byFee == FillsByFee(rules, a.size, a.sigOps, d.candidate, a.byFee)
    requires b.issued == IssuedAfter(rules, w, a.block, d.candidate, a.byFee, a.issued)
    ensures At(rules, w, b.block, log + [d], |b.block|, b.byFee, b.issued)
  {
    assert (log + [d])[|log + [d]| - 1] == d && b.block[..|a.block|] == a.block;
    hide FillsByFee, IssuedAfter;
  }

  /** The queue holds all candidates whose parents are in the block. */
  lemma PoppedIsBest(rules: Rules, w: World, dependers: Dependers, block: seq<Tx>, queue: seq<Candidate>,
                     waiting: Waiting, popped: set<Hash>,
                     k: nat, byFee: bool)
    requires RulesOk(rules) && Scheduled(rules, w, dependers, block, queue, waiting, popped) && k < |queue|
    requires forall i :: 0 <= i < |queue| ==> !Below(queue[k], queue[i], byFee)
    ensures BestReady(rules, w, block, popped, queue[k], byFee)
  {
    hide CandidateOf, Needs, InputsKnown, Below;
    forall h | Collectable(rules, w, h) && h !in popped && Needs(w, w.mempool[h].inputs) <= Ids(block)
      ensures !Below(queue[k], CandidateOf(rules, w, w.mempool[h]), byFee)
    {
      var c := CandidateOf(rules, w, w.mempool[h]);
      assert h in waiting ==> IsPending(rules, w, dependers, block, popped, waiting[h], h);
      assert c in queue;
      var i :| 0 <= i < |queue| && queue[i] == c;
    }
  }

  /** `CreateNewBlock`, from the memory pool to the filled block. */
  method CreateNewBlock(rules: Rules, w: World) returns (a: Assembly, ghost log: seq<Decision>)
    requires RulesOk(rules) && WorldOk(w)
    ensures Tallies(rules, w, a)
    ensures Distinct(a.block) && ParentsFirst(w, a.block)
    ensures forall i :: 0 <= i < |a.block| ==>
            Collectable(rules, w, a.block[i].hash) && w.mempool[a.block[i].hash] == a.block[i]
    ensures forall i :: 0 <= i < |log| ==> EntryOk(rules, w, a.block, log, i)
    ensures forall h :: Collectable(rules, w, h) ==> Settled(w, a.block, log, h)
  {
    var queue, waiting, dependers := Collect(rules, w);
    a, log := Assembly([], map[], START_SIZE, START_SIGOPS, 0, rules.prioritySize <= 0, {}), [];
    ghost var popped: set<Hash> := {};
    ScheduledStart(rules, w, queue, waiting, dependers);
    AssemblyStart(rules, w, a);
    hide *;
    while queue != []
      invariant RulesOk(rules) && Tallies(rules, w, a)
      invariant Scheduled(rules, w, dependers, a.block, queue, waiting, popped)
      invariant LogOk(rules, w, a, popped, log)
      decreases |w.mempool.Keys - popped|
    {
      ghost var before := popped;
      a, queue, waiting, popped, log := Round(rules, w, dependers, a, queue, waiting, popped, log);
      Shrinks(w.mempool.Keys, before, popped);
    }
    ScheduledEnd(rules, w, dependers, a, waiting, popped, log);
  }

  /** A candidate was decided on, or a parent it waits for is not in the block. */
  ghost predicate Settled(w: World, block: seq<Tx>, log: seq<Decision>, h: Hash)
    requires h in w.mempool
  {
    || h in Decided(log)
    || (exists p :: p in Needs(w, w.mempool[h].inputs) && p !in Ids(block))
  }

  lemma AssemblyStart(rules: Rules, w: World, a: Assembly)
    requires RulesOk(rules) && a == Assembly([], map[], START_SIZE, START_SIGOPS, 0, rules.prioritySize <= 0, {})
    ensures Tallies(rules, w, a) && LogOk(rules, w, a, {}, [])
  {
    assert View(w.db, map[]) == w.db;
  }

  lemma Shrinks(all: set<Hash>, before: set<Hash>, after: set<Hash>)
    requires after <= all && before < after
    ensures |all - after| < |all - before|
  {
    var more := all - before;
    assert more == (all - after) + (after - before);
    assert after - before != {};
  }

  /** One round of the second loop. */
  method Round(rules: Rules, w: World, dependers: Dependers, a: Assembly, queue: seq<Candidate>, waiting: Waiting,
               ghost popped: set<Hash>, ghost log: seq<Decision>)
    returns (b: Assembly, queue': seq<Candidate>, waiting': Waiting, ghost popped': set<Hash>,
            ghost log': seq<Decision>)
    requires RulesOk(rules) && WorldOk(w) && queue != [] && Tallies(rules, w, a)
    requires Scheduled(rules, w, dependers, a.block, queue, waiting, popped) && LogOk(rules, w, a, popped, log)
    ensures Tallies(rules, w, b)
    ensures Scheduled(rules, w, dependers, b.block, queue', waiting', popped') && LogOk(rules, w, b, popped', log')
    ensures popped < popped' <= w.mempool.Keys
  {
    var k := Pop(queue, a.byFee);
    var c := queue[k];
    PopFacts(rules, w, dependers, a.block, queue, waiting, popped, k);
    PoppedIsBest(rules, w, dependers, a.block, queue, waiting, popped, k, a.byFee);
    hide *;
    var taken;
    taken, b := Decide(rules, w, a, c);
    ghost var d := Decision(c, |a.block|, a.byFee, a.issued, taken);
    LogNext(rules, w, a, b, popped, log, d);
    log' := log + [d];
    popped' := popped + {c.tx.hash};
    if taken {
      var list := if c.tx.hash in dependers then dependers[c.tx.hash] else [];
      ghost var new';
      waiting', queue', new' := Release(list, c.tx.hash, waiting, queue[..k] + queue[k + 1..]);
      WithoutIs(queue, k);
      ScheduledTake(rules, w, dependers, a.block, queue, waiting, popped, k, list, waiting', new');
    } else {
      waiting', queue' := waiting, queue[..k] + queue[k + 1..];
      WithoutIs(queue, k);
      ScheduledSkip(rules, w, dependers, a.block, queue, waiting, popped, k);
    }
  }

  lemma WithoutIs<T>(xs: seq<T>, k: nat)
    requires k < |xs|
    ensures Without(xs, k) == xs[..k] + xs[k + 1..]
  {
  }

  lemma PopFacts(rules: Rules, w: World, dependers: Dependers, block: seq<Tx>, queue: seq<Candidate>, waiting: Waiting,
                 popped: set<Hash>, k: nat)
    requires RulesOk(rules) && WorldOk(w) && Scheduled(rules, w, dependers, block, queue, waiting, popped)
             && k < |queue|
    ensures queue[k].tx.kind.User? && queue[k].tx.hash !in popped && queue[k].tx.hash in w.mempool.Keys
    ensures popped <= w.mempool.Keys && Keyed(waiting) && WorldKeys(w)
  {
    hide CandidateOf, Needs, InputsKnown;
    assert IsQueued(rules, w, block, popped, queue[k]);
    forall h | h in waiting
      ensures waiting[h].candidate.tx.hash == h
    {
      assert IsPending(rules, w, dependers, block, popped, waiting[h], h);
    }
  }

  lemma ScheduledEnd(rules: Rules, w: World, dependers: Dependers, a: Assembly, waiting: Waiting, popped: set<Hash>,
                     log: seq<Decision>)
    requires RulesOk(rules) && Scheduled(rules, w, dependers, a.block, [], waiting, popped)
             && LogOk(rules, w, a, popped, log)
    ensures Distinct(a.block) && ParentsFirst(w, a.block)
    ensures forall i :: 0 <= i < |a.block| ==>
            Collectable(rules, w, a.block[i].hash) && w.mempool[a.block[i].hash] == a.block[i]
    ensures forall i :: 0 <= i < |log| ==> EntryOk(rules, w, a.block, log, i)
    ensures forall h :: Collectable(rules, w, h) ==> Settled(w, a.block, log, h)
  {
    hide CandidateOf, Needs, InputsKnown, EntryOk, At, Decided;
    forall h | Collectable(rules, w, h)
      ensures Settled(w, a.block, log, h)
    {
      if h !in popped {
        assert IsPending(rules, w, dependers, a.block, popped, waiting[h], h);
        var left := waiting[h].dependsOn;
        assert left != {};
        var p :| p in left;
        assert p in Needs(w, w.mempool[h].inputs) && p !in Ids(a.block);
      }
    }
  }

  /** When no memory pool transaction is on disk as well, every parent in the memory pool comes first. */
  lemma AllParentsFirst(w: World, block: seq<Tx>, i: nat, o: OutPoint)
    requires ParentsFirst(w, block) && i < |block| && o in block[i].inputs
    requires o.hash in w.mempool && o.hash !in w.db
    ensures exists j :: 0 <= j < i && block[j].hash == o.hash
  {
    assert o.hash in Needs(w, block[i].inputs);
    assert o.hash in Ids(block[..i]);
    var t :| t in block[..i] && t.hash == o.hash;
    var j :| 0 <= j < i && block[..i][j] == t;
    assert block[j].hash == o.hash;
  }

  /** The block spends nothing twice and nothing that is spent on disk. */
  lemma AssembledSpends(rules: Rules, w: World, a: Assembly)
    requires Tallies(rules, w, a)
    requires Distinct(a.block) && forall i :: 0 <= i < |a.block| ==> a.block[i].hash !in w.db
    ensures NoDoubleSpend(w.db, AllSpends(a.block)) && SpendsExist(w.db, a.block, IN_MEMORY)
  {
    ReplayedExist(w.db, a.block, IN_MEMORY);
    ReplayIff(w.db, a.block, IN_MEMORY);
  }

  lemma ReplayedExist(idx: Index, txs: seq<Tx>, blk: Hash)
    requires ConnectTxs(idx, txs, blk).Some?
    ensures SpendsExist(idx, txs, blk)
  {
    forall k, o | 0 <= k < |txs| && o in Spends(txs[k]) && ConnectTxs(idx, txs[..k], blk).Some?
      ensures Exists(ConnectTxs(idx, txs[..k], blk).value, o)
    {
      ConnectTxsPrefix(idx, txs, k + 1, blk);
      ConnectTxsSnoc(idx, txs, k, blk);
      hide ConnectTxs, Spends;
      SpendAllShape(ConnectTxs(idx, txs[..k], blk).value, Spends(txs[k]), blk);
    }
  }
}
