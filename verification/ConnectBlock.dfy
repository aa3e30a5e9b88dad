/** `ConnectBlock`: the node's way of moving the transaction index on along the chain, with the
    queue of pending index changes, the reward limits and the money supply it records. */
module ConnectBlock {
  import opened Basics
  import opened Ledger
  import opened Money

  const COIN := 100000000
  const CENT := 1000000
  const COIN_YEAR_REWARD := 12 * CENT
  const MAX_MONEY := 0x7fff_ffff_ffff_ffff

  predicate MoneyRange(v: int) {
    0 <= v <= MAX_MONEY
  }

  /** `GetProofOfWorkReward` without the fees. */
  function WorkSubsidy(bestHeight: nat): int {
    if bestHeight == 0 then 150000000 * COIN
    else if bestHeight > 1000 then 0
    else 2000 * COIN
  }

  /** `GetProofOfStakeReward` without the fees. */
  function StakeSubsidy(coinAge: nat): int {
    coinAge * COIN_YEAR_REWARD * 33 / (365 * 33 + 8)
  }

  /** What the parts outside this model answer: block checks other than the block's shape, the
      script, maturity and timestamp checks of a transaction, its minimum fee, the coin age of
      the coinstake if it can be computed; and whether the database takes the block's own record,
      the index entry of a transaction, and what is written last. */
  datatype Outside = Outside(
    blockChecks: bool,
    txChecks: Tx -> bool,
    minFee: Tx -> int,
    coinAge: Option<nat>,
    records: bool,
    writesEntry: Hash -> bool,
    finishes: bool)

  datatype Connected = Connected(db: Index, mint: int, supply: int)

  predicate IsProofOfStake(b: Block) {
    |b.txs| > 1 && b.txs[1].kind.CoinStake?
  }

  /** The part of `CheckBlock` about which transaction stands where. */
  ghost predicate WellShaped(b: Block) {
    && b.txs != [] && b.txs[0].kind.CoinBase?
    && (forall i :: 1 <= i < |b.txs| ==> !b.txs[i].kind.CoinBase?)
    && (IsProofOfStake(b) ==> b.txs[0].outs == [0] && forall i :: 2 <= i < |b.txs| ==> !b.txs[i].kind.CoinStake?)
    && Distinct(b.txs)
  }

  method CheckShape(b: Block) returns (ok: bool)
    ensures ok <==> WellShaped(b)
  {
    if b.txs == [] || !b.txs[0].kind.CoinBase? {
      return false;
    }
    for i := 1 to |b.txs|
      invariant forall k :: 1 <= k < i ==> !b.txs[k].kind.CoinBase?
    {
      if b.txs[i].kind.CoinBase? {
        return false;
      }
    }
    if IsProofOfStake(b) {
      if b.txs[0].outs != [0] {
        return false;
      }
      for i := 2 to |b.txs|
        invariant forall k :: 2 <= k < i ==> !b.txs[k].kind.CoinStake?
      {
        if b.txs[i].kind.CoinStake? {
          return false;
        }
      }
    }
    ok := CheckUnique(b.txs);
  }

  /** The duplicate-id check of `CheckBlock`: the set of ids is as large as the block. */
  method CheckUnique(txs: seq<Tx>) returns (ok: bool)
    ensures ok <==> Distinct(txs)
  {
    var unique: set<Hash> := {};
    for i := 0 to |txs|
      invariant unique == set k | 0 <= k < i :: txs[k].hash
      invariant |unique| == i <==> Distinct(txs[..i])
      invariant |unique| <= i
    {
      DistinctSnoc(txs, i);
      unique := unique + {txs[i].hash};
    }
    assert txs[..|txs|] == txs;
    return |unique| == |txs|;
  }

  lemma DistinctSnoc(txs: seq<Tx>, i: nat)
    requires i < |txs|
    ensures Distinct(txs[..i + 1]) <==> Distinct(txs[..i]) && txs[i].hash !in set k | 0 <= k < i :: txs[k].hash
  {
    var more := txs[..i + 1];
    assert forall k :: 0 <= k < i ==> more[k] == txs[k];
    assert more[i] == txs[i];
    if Distinct(more) {
      forall k | 0 <= k < i
        ensures txs[k].hash != txs[i].hash
      {
        assert more[k].hash != more[i].hash;
      }
      forall j, k | 0 <= j < k < i
        ensures txs[j].hash != txs[k].hash
      {
        assert more[j].hash != more[k].hash;
      }
    }
  }

  /** `CheckBIP30Attack`. */
  method CheckOverwrite(db: Index, h: Hash) returns (ok: bool)
    ensures ok <==> FullySpent(db, h)
  {
    if h in db {
      for n := 0 to |db[h].spent|
        invariant forall k :: 0 <= k < n ==> db[h].spent[k].Some?
      {
        if db[h].spent[n].None? {
          return false;
        }
      }
    }
    return true;
  }

  /** The index as the block sees it: pending changes over the database. */
  function View(db: Index, queue: Index): Index {
    db + queue
  }

  ghost predicate Fetchable(store: map<Hash, Tx>, idx: Index, os: seq<OutPoint>) {
    forall o :: o in os ==> Exists(idx, o) && Readable(store, o)
  }

  /** `FetchInputs`: the index entry of every transaction an input names, once. */
  method FetchInputs(store: map<Hash, Tx>, db: Index, queue: Index, os: seq<OutPoint>) returns (r: Option<Index>)
    ensures r.Some? <==> Fetchable(store, View(db, queue), os)
    ensures r.Some? ==> forall o :: o in os ==> o.hash in r.value
    ensures r.Some? ==> forall h :: h in r.value ==> h in View(db, queue) && r.value[h] == View(db, queue)[h]
  {
    var fetched: Index := map[];
    for i := 0 to |os|
      invariant forall k :: 0 <= k < i ==> os[k].hash in fetched
      invariant forall h :: h in fetched ==> h in store
      invariant forall h :: h in fetched ==> h in View(db, queue) && fetched[h] == View(db, queue)[h]
    {
      var h := os[i].hash;
      if h !in fetched {
        if h in queue {
          fetched := fetched[h := queue[h]];
        } else if h in db {
          fetched := fetched[h := db[h]];
        } else {
          assert !Exists(View(db, queue), os[i]);
          return None;
        }
        if h !in store {
          assert !Readable(store, os[i]);
          return None;
        }
      }
    }
    for i := 0 to |os|
      invariant forall k :: 0 <= k < i ==> os[k].n < |store[os[k].hash].outs| && os[k].n < |fetched[os[k].hash].spent|
    {
      var o := os[i];
      if o.n >= |store[o.hash].outs| || o.n >= |fetched[o.hash].spent| {
        assert !(Exists(View(db, queue), o) && Readable(store, o));
        return None;
      }
    }
    return Some(fetched);
  }

  /** Every input value and every running total of them is a valid amount. */
  ghost predicate AmountsOk(store: map<Hash, Tx>, os: seq<OutPoint>) {
    forall k :: 0 <= k < |os| ==> AmountOk(store, os, k)
  }

  ghost predicate AmountOk(store: map<Hash, Tx>, os: seq<OutPoint>, k: nat)
    requires k < |os|
  {
    MoneyRange(ValueOf(store, os[k])) && MoneyRange(ValueIn(store, os[..k + 1]))
  }

  /** A coinstake may pay out more than it spends here; every other transaction pays a fee. */
  predicate FeeOk(store: map<Hash, Tx>, tx: Tx, out: Outside) {
    var fee := ValueIn(store, tx.inputs) - Sum(tx.outs);
    tx.kind.CoinStake? || (fee >= 0 && fee >= out.minFee(tx) && MoneyRange(fee))
  }

  lemma ValueInSnoc(store: map<Hash, Tx>, os: seq<OutPoint>, k: nat)
    requires k < |os|
    ensures ValueIn(store, os[..k + 1]) == ValueIn(store, os[..k]) + ValueOf(store, os[k])
  {
    var more := os[..k + 1];
    assert more[..|more| - 1] == os[..k] && more[|more| - 1] == os[k];
    assert ValueIn(store, more) == ValueIn(store, more[..|more| - 1]) + ValueOf(store, more[|more| - 1]);
  }

  /** The value checks of `ConnectInputs`. */
  method SumInputs(store: map<Hash, Tx>, os: seq<OutPoint>) returns (ok: bool, total: int)
    ensures ok <==> AmountsOk(store, os)
    ensures ok ==> total == ValueIn(store, os)
  {
    total := 0;
    for i := 0 to |os|
      invariant total == ValueIn(store, os[..i])
      invariant forall k :: 0 <= k < i ==> AmountOk(store, os, k)
    {
      ValueInSnoc(store, os, i);
      total := total + ValueOf(store, os[i]);
      if !MoneyRange(ValueOf(store, os[i])) || !MoneyRange(total) {
        assert !AmountOk(store, os, i);
        return false, total;
      }
    }
    assert os[..|os|] == os;
    ok := true;
  }

  /** The fetched entries are those of the index. */
  ghost predicate FetchedFrom(fetched: Index, idx: Index, os: seq<OutPoint>) {
    && (forall o :: o in os ==> o.hash in fetched && Exists(idx, o))
    && (forall h :: h in fetched ==> h in idx && fetched[h] == idx[h])
  }

  lemma MarkView(db: Index, queue: Index, fetched: Index, os: seq<OutPoint>, k: nat, blk: Hash)
    requires k < |os| && FetchedFrom(fetched, View(db, queue), os)
    ensures Exists(fetched, os[k])
    ensures var entry := fetched[os[k].hash].(spent := fetched[os[k].hash].spent[os[k].n := Some(blk)]);
            && View(db, queue[os[k].hash := entry]) == Mark(View(db, queue), os[k], blk)
            && FetchedFrom(fetched[os[k].hash := entry], View(db, queue[os[k].hash := entry]), os)
  {
    assert os[k] in os;
    var entry := fetched[os[k].hash].(spent := fetched[os[k].hash].spent[os[k].n := Some(blk)]);
    assert db + queue[os[k].hash := entry] == (db + queue)[os[k].hash := entry];
  }

  /** The double-spend check of `ConnectInputs`, marking the inputs in the queue as it goes. */
  method MarkInputs(fetched: Index, queue: Index, os: seq<OutPoint>, blk: Hash, ghost db: Index)
    returns (r: Option<Index>)
    requires FetchedFrom(fetched, View(db, queue), os)
    ensures r.Some? <==> SpendAll(View(db, queue), os, blk).Some?
    ensures r.Some? ==> View(db, r.value) == SpendAll(View(db, queue), os, blk).value
    ensures r.Some? ==> r.value.Keys == queue.Keys + Hashes(os)
  {
    var inputs: Index, pending: Index := fetched, queue;
    var i := 0;
    while i < |os|
      invariant 0 <= i <= |os|
      invariant FetchedFrom(inputs, View(db, pending), os)
      invariant SpendAll(View(db, queue), os[..i], blk) == Some(View(db, pending))
      invariant pending.Keys == queue.Keys + Hashes(os[..i])
    {
      var o := os[i];
      HashesSnoc(os, i);
      MarkView(db, pending, inputs, os, i, blk);
      SpendAllSnoc(View(db, queue), os, i, blk);
      if inputs[o.hash].spent[o.n].Some? {
        if SpendAll(View(db, queue), os, blk).Some? {
          SpendAllPrefix(View(db, queue), os, i + 1, blk);
        }
        return None;
      }
      var entry := inputs[o.hash].(spent := inputs[o.hash].spent[o.n := Some(blk)]);
      inputs := inputs[o.hash := entry];
      pending := pending[o.hash := entry];
      i := i + 1;
    }
    assert os[..i] == os;
    return Some(pending);
  }

  /** `ConnectBlock` lets the transaction through at this point of the block. */
  ghost predicate TxAccepted(store: map<Hash, Tx>, idx: Index, tx: Tx, blk: Hash, out: Outside) {
    tx.kind.CoinBase? ||
    (&& Fetchable(store, idx, tx.inputs)
     && AmountsOk(store, tx.inputs)
     && out.txChecks(tx)
     && SpendAll(idx, tx.inputs, blk).Some?
     && FeeOk(store, tx, out))
  }

  lemma NoInputs(store: map<Hash, Tx>, db: Index, queue: Index, tx: Tx, blk: Hash)
    ensures SpendAll(View(db, queue), [], blk) == Some(View(db, queue)) && ValueIn(store, []) == 0 && Hashes([]) == {}
  {
  }

  /** One round of the loop in `ConnectBlock`; `value` is what the transaction spends. */
  method ConnectOne(store: map<Hash, Tx>, db: Index, queue: Index, tx: Tx, blk: Hash, out: Outside)
    returns (r: Option<Index>, value: int)
    ensures r.Some? <==> TxAccepted(store, View(db, queue), tx, blk, out)
    ensures r.Some? ==> ConnectTx(View(db, queue), tx, blk) == Some(View(db, r.value))
    ensures r.Some? ==> value == ValueIn(store, Spends(tx))
    ensures r.Some? ==> r.value.Keys == queue.Keys + Hashes(Spends(tx)) + {tx.hash}
  {
    hide View, AmountsOk, FeeOk, SpendAll, ValueIn, Hashes, Unspent;
    value := 0;
    NoInputs(store, db, queue, tx, blk);
    var pending: Index := queue;
    if !tx.kind.CoinBase? {
      var fetched := FetchInputs(store, db, queue, tx.inputs);
      if fetched.None? {
        return None, value;
      }
      var ok;
      ok, value := SumInputs(store, tx.inputs);
      if !ok || !out.txChecks(tx) {
        return None, value;
      }
      var marked := MarkInputs(fetched.value, queue, tx.inputs, blk, db);
      if marked.None? || !FeeOk(store, tx, out) {
        return None, value;
      }
      pending := marked.value;
    }
    var entry := Unspent(blk, |tx.outs|);
    QueueEntry(db, pending, tx.hash, entry);
    return Some(pending[tx.hash := entry]), value;
  }

  lemma QueueEntry(db: Index, queue: Index, h: Hash, entry: TxIndex)
    ensures View(db, queue[h := entry]) == View(db, queue)[h := entry]
  {
  }

  // The whole block

  /** Every transaction is let through in turn, and none overwrites an unspent one. */
  ghost predicate TxsAccepted(store: map<Hash, Tx>, db: Index, txs: seq<Tx>, blk: Hash, out: Outside) {
    if txs == [] then true
    else
      var most, last := txs[..|txs| - 1], txs[|txs| - 1];
      && TxsAccepted(store, db, most, blk, out)
      && FullySpent(db, last.hash)
      && ConnectTxs(db, most, blk).Some?
      && TxAccepted(store, ConnectTxs(db, most, blk).value, last, blk, out)
  }

  lemma TxsAcceptedSnoc(store: map<Hash, Tx>, db: Index, txs: seq<Tx>, k: nat, blk: Hash, out: Outside)
    requires k < |txs| && ConnectTxs(db, txs[..k], blk).Some?
    ensures TxsAccepted(store, db, txs[..k + 1], blk, out) <==>
            && TxsAccepted(store, db, txs[..k], blk, out) && FullySpent(db, txs[k].hash)
            && TxAccepted(store, ConnectTxs(db, txs[..k], blk).value, txs[k], blk, out)
  {
    assert txs[..k + 1][..k] == txs[..k];
  }

  lemma {:induction false} TxsAcceptedPrefix(store: map<Hash, Tx>, db: Index, txs: seq<Tx>, k: nat, blk: Hash,
                                             out: Outside)
    requires k <= |txs| && TxsAccepted(store, db, txs, blk, out)
    ensures TxsAccepted(store, db, txs[..k], blk, out)
    decreases |txs|
  {
    if k == |txs| {
      assert txs[..k] == txs;
    } else {
      assert txs[..|txs| - 1][..k] == txs[..k];
      TxsAcceptedPrefix(store, db, txs[..|txs| - 1], k, blk, out);
    }
  }

  /** What user transactions leave over for the block's creator. */
  function Fees(store: map<Hash, Tx>, txs: seq<Tx>): int {
    if txs == [] then 0
    else
      var last := txs[|txs| - 1];
      Fees(store, txs[..|txs| - 1]) + if last.kind.User? then ValueIn(store, last.inputs) - Sum(last.outs) else 0
  }

  /** What coinstakes pay out beyond what they spend. */
  function StakeExcess(store: map<Hash, Tx>, txs: seq<Tx>): int {
    if txs == [] then 0
    else
      var last := txs[|txs| - 1];
      StakeExcess(store, txs[..|txs| - 1]) + if last.kind.CoinStake? then Sum(last.outs) - ValueIn(store,
          last.inputs) else 0
  }

  function CoinbaseOut(txs: seq<Tx>): int {
    if txs == [] then 0
    else CoinbaseOut(txs[..|txs| - 1]) + if txs[|txs| - 1].kind.CoinBase? then Sum(txs[|txs| - 1].outs) else 0
  }

  lemma {:induction false} MoneyFlow(store: map<Hash, Tx>, txs: seq<Tx>)
    ensures TotalOut(txs) - TotalIn(store, txs) == CoinbaseOut(txs) + StakeExcess(store, txs) - Fees(store, txs)
    decreases |txs|
  {
    if txs != [] {
      MoneyFlow(store, txs[..|txs| - 1]);
    }
  }

  /** The limit on what a block's creator may collect: on the coinbase of a proof-of-work
      block, on the coinstake of a proof-of-stake block. */
  ghost predicate RewardOk(store: map<Hash, Tx>, b: Block, bestHeight: nat, out: Outside)
    requires b.txs != []
  {
    if IsProofOfStake(b) then
      out.coinAge.Some? && StakeExcess(store, b.txs) <= StakeSubsidy(out.coinAge.value) + Fees(store, b.txs)
    else
      Sum(b.txs[0].outs) <= WorkSubsidy(bestHeight) + Fees(store, b.txs)
  }

  /** The sums the loop keeps, after the first `k` transactions. */
  ghost predicate Tallied(store: map<Hash, Tx>, txs: seq<Tx>, k: nat, valueIn: int, valueOut: int, fees: int)
    requires k <= |txs|
  {
    && valueOut == TotalOut(txs[..k])
    && valueIn == TotalIn(store, txs[..k])
    && fees == Fees(store, txs[..k])
  }

  lemma TallyNext(store: map<Hash, Tx>, txs: seq<Tx>, k: nat, valueIn: int, valueOut: int, fees: int)
    requires k < |txs| && Tallied(store, txs, k, valueIn, valueOut, fees)
    ensures var tx := txs[k];
            var value := ValueIn(store, Spends(tx));
            Tallied(store, txs, k + 1, valueIn + value, valueOut + Sum(tx.outs),
                    fees + if tx.kind.User? then value - Sum(tx.outs) else 0)
    ensures StakeExcess(store, txs[..k + 1]) == StakeExcess(store, txs[..k]) +
            if txs[k].kind.CoinStake? then Sum(txs[k].outs) - ValueIn(store, Spends(txs[k])) else 0
    ensures CoinbaseOut(txs[..k + 1]) == CoinbaseOut(txs[..k]) + if txs[k].kind.CoinBase? then Sum(txs[k].outs) else 0
  {
    var more := txs[..k + 1];
    assert more[..|more| - 1] == txs[..k] && more[|more| - 1] == txs[k];
  }

  /** In a well-shaped block the last coinstake seen is the only one that counts. */
  lemma {:induction false} StakeOnce(store: map<Hash, Tx>, b: Block, k: nat)
    requires WellShaped(b) && k <= |b.txs|
    ensures IsProofOfStake(b) ==>
              StakeExcess(store, b.txs[..k]) ==
              if k <= 1 then 0 else Sum(b.txs[1].outs) - ValueIn(store, Spends(b.txs[1]))
    ensures k >= 1 ==> CoinbaseOut(b.txs[..k]) == Sum(b.txs[0].outs)
    decreases k
  {
    if k > 0 {
      StakeOnce(store, b, k - 1);
      TallyNext(store, b.txs, k - 1, TotalIn(store, b.txs[..k - 1]), TotalOut(b.txs[..k - 1]),
          Fees(store, b.txs[..k - 1]));
    }
  }

  /** The loop of `ConnectBlock` over the block's transactions. */
  method ConnectEach(store: map<Hash, Tx>, db: Index, b: Block, out: Outside)
    returns (r: Option<Index>, valueIn: int, valueOut: int, fees: int, stakeReward: int)
    requires WellShaped(b)
    ensures r.Some? <==> TxsAccepted(store, db, b.txs, b.hash, out)
    ensures r.Some? ==> ConnectTxs(db, b.txs, b.hash) == Some(View(db, r.value)) && r.value.Keys == TouchedIds(b.txs)
    ensures r.Some? ==> Tallied(store, b.txs, |b.txs|, valueIn, valueOut, fees)
    ensures r.Some? && IsProofOfStake(b) ==> stakeReward == StakeExcess(store, b.txs)
  {
    var queue: Index := map[];
    valueIn, valueOut, fees, stakeReward := 0, 0, 0, 0;
    ConnectStart(store, db, b, out);
    hide TxAccepted, TxsAccepted, ConnectTxs, ConnectTx, FullySpent, StakeExcess, Tallied, View, Sum, Distinct,
         TouchedIds;
    var i := 0;
    while i < |b.txs|
      invariant 0 <= i <= |b.txs|
      invariant ConnectTxs(db, b.txs[..i], b.hash) == Some(View(db, queue)) && queue.Keys == TouchedIds(b.txs[..i])
      invariant TxsAccepted(store, db, b.txs[..i], b.hash, out)
      invariant Tallied(store, b.txs, i, valueIn, valueOut, fees)
      invariant IsProofOfStake(b) ==> stakeReward == StakeExcess(store, b.txs[..i])
    {
      var tx := b.txs[i];
      TxsAcceptedSnoc(store, db, b.txs, i, b.hash, out);
      TallyNext(store, b.txs, i, valueIn, valueOut, fees);
      StakeOnce(store, b, i);
      var overwrites := CheckOverwrite(db, tx.hash);
      if !overwrites {
        Rejected(store, db, b.txs, i, b.hash, out);
        return None, valueIn, valueOut, fees, stakeReward;
      }
      var next, value := ConnectOne(store, db, queue, tx, b.hash, out);
      if next.None? {
        Rejected(store, db, b.txs, i, b.hash, out);
        return None, valueIn, valueOut, fees, stakeReward;
      }
      ConnectTxsSnoc(db, b.txs, i, b.hash);
      TouchedSnoc(b.txs, i);
      queue := next.value;
      valueIn, valueOut := valueIn + value, valueOut + Sum(tx.outs);
      if tx.kind.User? {
        fees := fees + value - Sum(tx.outs);
      }
      if tx.kind.CoinStake? {
        stakeReward := Sum(tx.outs) - value;
      }
      i := i + 1;
    }
    assert b.txs[..i] == b.txs;
    return Some(queue), valueIn, valueOut, fees, stakeReward;
  }

  // Writing the queue

  /** The ids whose index entry a block writes: its own and those it spends from. */
  function TouchedIds(txs: seq<Tx>): set<Hash> {
    Ids(txs) + Hashes(AllSpends(txs))
  }

  lemma TouchedSnoc(txs: seq<Tx>, k: nat)
    requires k < |txs|
    ensures TouchedIds(txs[..k + 1]) == TouchedIds(txs[..k]) + Hashes(Spends(txs[k])) + {txs[k].hash}
  {
    IdsSnoc(txs, k);
    AllSpendsSnoc(txs, k);
  }

  /** The ids that are written if they are taken in ascending order up to the first that fails. */
  ghost function WrittenIds(ids: set<Hash>, writes: Hash -> bool): set<Hash> {
    set h | h in ids && forall g :: g in ids && g <= h ==> writes(g)
  }

  /** `db` with the entries of `next` under some ids. */
  ghost function Overlaid(db: Index, next: Index, ids: set<Hash>): Index {
    db + map h | h in ids && h in next :: next[h]
  }

  method Least(ids: set<Hash>) returns (h: Hash)
    requires ids != {}
    ensures h in ids && forall g :: g in ids ==> h <= g
  {
    h :| h in ids;
    var rest := ids - {h};
    while rest != {}
      invariant rest < ids && h in ids && forall g :: g in ids && g !in rest ==> h <= g
      decreases |rest|
    {
      var g :| g in rest;
      rest := rest - {g};
      if g < h {
        h := g;
      }
    }
  }

  /** The queued ids outside `rest` are the lower ones, and their entries could be written. */
  ghost predicate Written(queue: Index, rest: set<Hash>, writes: Hash -> bool) {
    && rest <= queue.Keys
    && (forall g, h :: g in queue && g !in rest && h in rest ==> g < h)
    && (forall g :: g in queue && g !in rest ==> writes(g))
  }

  lemma WriteStart(db: Index, queue: Index, writes: Hash -> bool)
    ensures Written(queue, queue.Keys, writes)
    ensures Overlaid(db, View(db, queue), queue.Keys - queue.Keys) == db
  {
    assert queue.Keys - queue.Keys == {};
  }

  lemma WriteStep(db: Index, queue: Index, rest: set<Hash>, h: Hash, writes: Hash -> bool)
    requires Written(queue, rest, writes) && h in rest && (forall g :: g in rest ==> h <= g) && writes(h)
    ensures Written(queue, rest - {h}, writes)
    ensures Overlaid(db, View(db, queue), queue.Keys - rest)[h := queue[h]] ==
            Overlaid(db, View(db, queue), queue.Keys - (rest - {h}))
  {
    assert queue.Keys - (rest - {h}) == (queue.Keys - rest) + {h};
  }

  lemma WriteStops(queue: Index, rest: set<Hash>, writes: Hash -> bool)
    requires Written(queue, rest, writes)
    requires rest == {} || exists h :: h in rest && (forall g :: g in rest ==> h <= g) && !writes(h)
    ensures WrittenIds(queue.Keys, writes) == queue.Keys - rest
  {
  }

  /** The loop that writes the queued entries, lowest id first. */
  method WriteQueue(db: Index, queue: Index, writes: Hash -> bool) returns (done: bool, left: Index)
    ensures done <==> forall h :: h in queue ==> writes(h)
    ensures left == Overlaid(db, View(db, queue), WrittenIds(queue.Keys, writes))
  {
    hide View, Overlaid, WrittenIds, Written;
    left := db;
    var rest := queue.Keys;
    WriteStart(db, queue, writes);
    while rest != {}
      invariant Written(queue, rest, writes) && left == Overlaid(db, View(db, queue), queue.Keys - rest)
      decreases |rest|
    {
      var h := Least(rest);
      WrittenPart(queue, rest, writes);
      if !writes(h) {
        WriteStops(queue, rest, writes);
        return false, left;
      }
      WriteStep(db, queue, rest, h, writes);
      left := left[h := queue[h]];
      rest := rest - {h};
    }
    WrittenPart(queue, rest, writes);
    WriteStops(queue, rest, writes);
    done := true;
  }

  lemma WrittenPart(queue: Index, rest: set<Hash>, writes: Hash -> bool)
    requires Written(queue, rest, writes)
    ensures rest <= queue.Keys && forall g :: g in queue && g !in rest ==> writes(g)
  {
  }

  /** An entry that no transaction touches stays. */
  lemma {:induction false} UntouchedStay(idx: Index, txs: seq<Tx>, blk: Hash, h: Hash)
    requires ConnectTxs(idx, txs, blk).Some? && h !in TouchedIds(txs)
    ensures var next := ConnectTxs(idx, txs, blk).value;
            (h in next <==> h in idx) && (h in idx ==> next[h] == idx[h])
    decreases |txs|
  {
    if txs != [] {
      var k := |txs| - 1;
      TouchedSnoc(txs, k);
      assert txs[..k + 1] == txs;
      hide TouchedIds;
      UntouchedStay(idx, txs[..k], blk, h);
      UnspentFromStay(ConnectTxs(idx, txs[..k], blk).value, Spends(txs[k]), blk, h);
    }
  }

  lemma {:induction false} UnspentFromStay(idx: Index, os: seq<OutPoint>, blk: Hash, h: Hash)
    requires SpendAll(idx, os, blk).Some? && h !in Hashes(os)
    ensures var next := SpendAll(idx, os, blk).value;
            (h in next <==> h in idx) && (h in idx ==> next[h] == idx[h])
    decreases |os|
  {
    if os != [] {
      HashesSnoc(os, |os| - 1);
      assert os[..|os|] == os;
      UnspentFromStay(idx, os[..|os| - 1], blk, h);
    }
  }

  /** Connecting transactions with new ids changes every entry they touch. */
  lemma TouchedChange(idx: Index, txs: seq<Tx>, blk: Hash, h: Hash)
    requires ConnectTxs(idx, txs, blk).Some? && Distinct(txs) && Ids(txs) !! idx.Keys && h in TouchedIds(txs)
    ensures var next := ConnectTxs(idx, txs, blk).value;
            h in next && (h in idx ==> next[h] != idx[h])
  {
    ConnectTxsKeys(idx, txs, blk);
    if h !in Ids(txs) {
      var o :| o in AllSpends(txs) && o.hash == h;
      WasUnspent(idx, txs, blk, o);
      ConnectTxsSpent(idx, txs, blk);
    }
  }

  lemma WasUnspent(idx: Index, txs: seq<Tx>, blk: Hash, o: OutPoint)
    requires ConnectTxs(idx, txs, blk).Some? && Distinct(txs) && Ids(txs) !! idx.Keys && o in AllSpends(txs)
    ensures !IsSpent(idx, o)
  {
    hide IsSpent, Distinct, Ids, AllSpends, Exists, ConnectTxs, SpendAll, AllDifferent;
    var k := SpenderOf(txs, o);
    ConnectTxsPrefix(idx, txs, k + 1, blk);
    ConnectTxsSnoc(idx, txs, k, blk);
    var mid := ConnectTxs(idx, txs[..k], blk).value;
    assert [] + txs[..k] <= txs;
    FreshPart(idx, txs, [], txs[..k]);
    ConnectTxsSpent(idx, txs[..k], blk);
    SpendAllShape(mid, Spends(txs[k]), blk);
    SpendAllIff(mid, Spends(txs[k]), blk);
  }

  /** What part of a block's writes means: the index is the old one exactly if nothing was written, and
      the new one exactly if everything was. */
  lemma PartlyWrittenIff(idx: Index, txs: seq<Tx>, blk: Hash, ids: set<Hash>)
    requires ConnectTxs(idx, txs, blk).Some? && Distinct(txs) && Ids(txs) !! idx.Keys && ids <= TouchedIds(txs)
    ensures var next := ConnectTxs(idx, txs, blk).value;
            && (Overlaid(idx, next, ids) == idx <==> ids == {})
            && (Overlaid(idx, next, ids) == next <==> ids == TouchedIds(txs))
  {
    var next := ConnectTxs(idx, txs, blk).value;
    forall h | h in TouchedIds(txs)
      ensures h in next && (h in idx ==> next[h] != idx[h])
    {
      TouchedChange(idx, txs, blk, h);
    }
    forall h | h !in TouchedIds(txs)
      ensures (h in next <==> h in idx) && (h in idx ==> next[h] == idx[h])
    {
      UntouchedStay(idx, txs, blk, h);
    }
    hide TouchedIds, ConnectTxs;
    PartDiffers(idx, next, ids, TouchedIds(txs));
  }

  lemma PartDiffers(idx: Index, next: Index, ids: set<Hash>, touched: set<Hash>)
    requires ids <= touched
    requires forall h :: h in touched ==> h in next && (h in idx ==> next[h] != idx[h])
    requires forall h :: h !in touched ==> (h in next <==> h in idx) && (h in idx ==> next[h] == idx[h])
    ensures Overlaid(idx, next, ids) == idx <==> ids == {}
    ensures Overlaid(idx, next, ids) == next <==> ids == touched
  {
    var part := Overlaid(idx, next, ids);
    if ids != {} {
      var h :| h in ids;
      assert h in part && part[h] == next[h];
    }
    if ids == touched {
      assert part == next;
    } else {
      var h :| h in touched && h !in ids;
      assert h in part ==> part[h] == idx[h];
    }
  }

  /** Everything that `ConnectBlock` writes is taken. */
  ghost predicate WritesAll(out: Outside, txs: seq<Tx>) {
    out.records && out.finishes && forall h :: h in TouchedIds(txs) ==> out.writesEntry(h)
  }

  /** A block to connect, with what it is connected under. */
  datatype Step = Step(block: Block, bestHeight: nat, out: Outside)

  /** What the checks of `ConnectBlock` demand of a block. */
  ghost predicate Accepts(store: map<Hash, Tx>, db: Index, s: Step) {
    && WellShaped(s.block) && s.out.blockChecks && TxsAccepted(store, db, s.block.txs, s.block.hash, s.out)
    && RewardOk(store, s.block, s.bestHeight, s.out)
  }

  /** `ConnectBlock`: the checks pass exactly for the well-shaped blocks whose transactions are all let
      through and whose reward is within the limit; the index is then that of the plain replay, and the
      recorded supply moves by what the transactions create and spend.  If a write fails, `left` is what
      the index holds until the database transaction is given up: the entries written so far over the old. */
  method Connect(store: map<Hash, Tx>, db: Index, b: Block, prevSupply: int, bestHeight: nat, out: Outside)
    returns (r: Option<Connected>, done: bool, left: Index)
    ensures r.Some? <==> Accepts(store, db, Step(b, bestHeight, out))
    ensures r.Some? ==> ConnectTxs(db, b.txs, b.hash) == Some(r.value.db)
    ensures r.Some? ==> r.value.supply == prevSupply + TotalOut(b.txs) - TotalIn(store, b.txs)
    ensures r.Some? ==> r.value.mint == r.value.supply - prevSupply + Fees(store, b.txs)
    ensures done <==> r.Some? && WritesAll(out, b.txs)
    ensures done ==> left == r.value.db
    ensures left == if r.None? || !out.records then db
                    else Overlaid(db, r.value.db, WrittenIds(TouchedIds(b.txs), out.writesEntry))
  {
    hide TxsAccepted, ConnectTxs, StakeExcess, Tallied, Sum, Distinct, TouchedIds, WrittenIds, Overlaid;
    left := db;
    var shaped := CheckShape(b);
    if !shaped || !out.blockChecks {
      return None, false, db;
    }
    var queue, valueIn, valueOut, fees, stakeReward := ConnectEach(store, db, b, out);
    if queue.None? {
      return None, false, db;
    }
    TallyDone(store, b.txs, valueIn, valueOut, fees);
    if !IsProofOfStake(b) {
      if Sum(b.txs[0].outs) > WorkSubsidy(bestHeight) + fees {
        return None, false, db;
      }
    } else {
      if out.coinAge.None? || stakeReward > StakeSubsidy(out.coinAge.value) + fees {
        return None, false, db;
      }
    }
    r := Some(Connected(View(db, queue.value), valueOut - valueIn + fees, prevSupply + valueOut - valueIn));
    if !out.records {
      return r, false, db;
    }
    done, left := WriteQueue(db, queue.value, out.writesEntry);
    WrittenAll(db, queue.value, out.writesEntry);
    done := done && out.finishes;
  }

  /** Once all of the queue is written, the index is the one the block was checked against. */
  lemma WrittenAll(db: Index, queue: Index, writes: Hash -> bool)
    ensures (forall h :: h in queue ==> writes(h)) ==>
              Overlaid(db, View(db, queue), WrittenIds(queue.Keys, writes)) == View(db, queue)
  {
    if forall h :: h in queue ==> writes(h) {
      assert WrittenIds(queue.Keys, writes) == queue.Keys;
    }
  }

  lemma ConnectStart(store: map<Hash, Tx>, db: Index, b: Block, out: Outside)
    ensures ConnectTxs(db, b.txs[..0], b.hash) == Some(View(db, map[])) && TouchedIds(b.txs[..0]) == {}
    ensures TxsAccepted(store, db, b.txs[..0], b.hash, out)
    ensures Tallied(store, b.txs, 0, 0, 0, 0)
    ensures StakeExcess(store, b.txs[..0]) == 0
  {
    assert db + map[] == db;
  }

  lemma TallyDone(store: map<Hash, Tx>, txs: seq<Tx>, valueIn: int, valueOut: int, fees: int)
    requires Tallied(store, txs, |txs|, valueIn, valueOut, fees)
    ensures valueOut == TotalOut(txs) && valueIn == TotalIn(store, txs) && fees == Fees(store, txs)
  {
    assert txs[..|txs|] == txs;
  }

  lemma Rejected(store: map<Hash, Tx>, db: Index, txs: seq<Tx>, k: nat, blk: Hash, out: Outside)
    requires k < |txs| && !TxsAccepted(store, db, txs[..k + 1], blk, out)
    ensures !TxsAccepted(store, db, txs, blk, out)
  {
    if TxsAccepted(store, db, txs, blk, out) {
      TxsAcceptedPrefix(store, db, txs, k + 1, blk, out);
    }
  }

  /** No block creates more than its subsidy: the coinbase and the coinstake of an accepted
      block only collect what fees leave over and the subsidy.  A proof-of-work block is
      bounded up to what its coinstakes add, which the limit does not look at. */
  lemma SupplyGrowth(store: map<Hash, Tx>, b: Block, bestHeight: nat, out: Outside)
    requires WellShaped(b) && RewardOk(store, b, bestHeight, out)
    ensures var growth := TotalOut(b.txs) - TotalIn(store, b.txs);
            if IsProofOfStake(b) then growth <= StakeSubsidy(out.coinAge.value)
            else growth <= WorkSubsidy(bestHeight) + StakeExcess(store, b.txs)
    ensures !IsProofOfStake(b) && (forall i :: 0 <= i < |b.txs| ==> !b.txs[i].kind.CoinStake?) ==>
              StakeExcess(store, b.txs) == 0
  {
    MoneyFlow(store, b.txs);
    StakeOnce(store, b, |b.txs|);
    assert b.txs[..|b.txs|] == b.txs;
    if IsProofOfStake(b) {
      assert Sum(b.txs[0].outs) == 0 by {
        assert b.txs[0].outs[..0] == [];
      }
    }
    NoStake(store, b.txs);
  }

  lemma {:induction false} NoStake(store: map<Hash, Tx>, txs: seq<Tx>)
    ensures (forall i :: 0 <= i < |txs| ==> !txs[i].kind.CoinStake?) ==> StakeExcess(store, txs) == 0
    decreases |txs|
  {
    if txs != [] {
      NoStake(store, txs[..|txs| - 1]);
    }
  }

  /** A proof-of-work block stays within its subsidy exactly if coinbase and coinstakes together
      do; the limit in `RewardOk` looks at the coinbase alone. */
  lemma WorkGrowthIff(store: map<Hash, Tx>, b: Block, bestHeight: nat)
    requires WellShaped(b) && !IsProofOfStake(b)
    ensures TotalOut(b.txs) - TotalIn(store, b.txs) <= WorkSubsidy(bestHeight) <==>
            Sum(b.txs[0].outs) + StakeExcess(store, b.txs) <= WorkSubsidy(bestHeight) + Fees(store, b.txs)
  {
    MoneyFlow(store, b.txs);
    StakeOnce(store, b, |b.txs|);
    assert b.txs[..|b.txs|] == b.txs;
  }

  /** And the limit is not enough: a coinstake in third place is not looked at, so a proof-of-work
      block that creates any amount at all passes, whatever the height. */
  lemma WorkBlockExceeds(excess: nat, bestHeight: nat) returns (store: map<Hash, Tx>, db: Index, s: Step)
    requires excess < MAX_MONEY
    ensures Accepts(store, db, s) && !IsProofOfStake(s.block) && s.bestHeight == bestHeight
    ensures TotalOut(s.block.txs) - TotalIn(store, s.block.txs) == excess
  {
    var coinbase := Tx(3, CoinBase, [], [0]);
    var user := Tx(4, User, [OutPoint(1, 0)], [1]);
    var stake := Tx(5, CoinStake, [OutPoint(2, 0)], [0, 1 + excess]);
    var txs := [coinbase, user, stake];
    store := map[1 := Tx(1, User, [], [1]), 2 := Tx(2, User, [], [1]), 3 := coinbase, 4 := user, 5 := stake];
    db := map[1 := Unspent(0, 1), 2 := Unspent(0, 1)];
    s := Step(Block(9, txs), bestHeight, Outside(true, _ => true, _ => 0, None, true, _ => true, true));
    assert txs[..2] == [coinbase, user] && [coinbase, user][..1] == [coinbase] && [coinbase][..0] == [];
    ExampleAccepted(store, db, coinbase, user, stake, s.out);
    ExampleMoney(store, coinbase, user, stake);
    hide TxsAccepted, Fees, TotalOut, TotalIn, Sum;
  }

  lemma ExampleAccepted(store: map<Hash, Tx>, db: Index, coinbase: Tx, user: Tx, stake: Tx, out: Outside)
    requires coinbase.kind.CoinBase? && coinbase.hash == 3 && |coinbase.outs| == 1
    requires user == Tx(4, User, [OutPoint(1, 0)], [1])
    requires stake.kind.CoinStake? && stake.hash == 5 && stake.inputs == [OutPoint(2, 0)]
    requires 1 in store && 2 in store && store[1].outs == [1] && store[2].outs == [1]
    requires db == map[1 := Unspent(0, 1), 2 := Unspent(0, 1)]
    requires out == Outside(true, _ => true, _ => 0, None, true, _ => true, true)
    ensures TxsAccepted(store, db, [coinbase, user, stake], 9, out)
  {
    var i1: Index := db[3 := Unspent(9, 1)];
    var i2: Index := Mark(i1, OutPoint(1, 0), 9)[4 := Unspent(9, 1)];
    assert [coinbase, user, stake][..2] == [coinbase, user] && [coinbase, user][..1] == [coinbase]
           && [coinbase][..0] == [];
    SingleInput(store, i1, OutPoint(1, 0), 9);
    SingleInput(store, i2, OutPoint(2, 0), 9);
    assert ConnectTxs(db, [coinbase], 9) == Some(i1);
    assert ConnectTxs(db, [coinbase, user], 9) == Some(i2);
    assert TxAccepted(store, i1, user, 9, out) by {
      assert [1][..0] == [];
    }
    assert TxAccepted(store, i2, stake, 9, out);
    hide ConnectTxs, TxAccepted;
    assert TxsAccepted(store, db, [coinbase], 9, out);
    assert TxsAccepted(store, db, [coinbase, user], 9, out);
  }

  lemma ExampleMoney(store: map<Hash, Tx>, coinbase: Tx, user: Tx, stake: Tx)
    requires coinbase.kind.CoinBase? && coinbase.outs == [0]
    requires user == Tx(4, User, [OutPoint(1, 0)], [1])
    requires stake.kind.CoinStake? && stake.inputs == [OutPoint(2, 0)] && |stake.outs| == 2 && stake.outs[0] == 0
    requires 1 in store && 2 in store && store[1].outs == [1] && store[2].outs == [1]
    ensures var txs := [coinbase, user, stake];
            Sum(coinbase.outs) == 0 && Fees(store, txs) == 0 && TotalOut(txs) - TotalIn(store, txs) == stake.outs[1] - 1
  {
    var txs := [coinbase, user, stake];
    assert txs[..2] == [coinbase, user] && [coinbase, user][..1] == [coinbase] && [coinbase][..0] == [];
    SingleInput(store, map[], OutPoint(1, 0), 9);
    SingleInput(store, map[], OutPoint(2, 0), 9);
    assert [0][..0] == [] && [1][..0] == [] && stake.outs[..1] == [0];
    assert Sum([0]) == 0 && Sum([1]) == 1 && Sum(stake.outs) == stake.outs[1];
    hide Sum, ValueIn;
    assert TotalOut([coinbase]) == 0 && TotalIn(store, [coinbase]) == 0 && Fees(store, [coinbase]) == 0;
    assert TotalOut([coinbase, user]) == 1 && TotalIn(store, [coinbase, user]) == 1
           && Fees(store, [coinbase, user]) == 0;
  }

  lemma SingleInput(store: map<Hash, Tx>, idx: Index, o: OutPoint, blk: Hash)
    ensures SpendAll(idx, [o], blk) == Spend(idx, o, blk) && ValueIn(store, [o]) == ValueOf(store, o)
  {
    assert [o][..0] == [];
  }

  lemma {:induction false} AcceptedNotOverwriting(store: map<Hash, Tx>, db: Index, txs: seq<Tx>, blk: Hash,
                                                  out: Outside)
    requires TxsAccepted(store, db, txs, blk, out)
    ensures forall tx :: tx in txs ==> FullySpent(db, tx.hash)
    decreases |txs|
  {
    if txs != [] {
      AcceptedNotOverwriting(store, db, txs[..|txs| - 1], blk, out);
    }
  }

  /** Conservation along a chain: starting from the empty index, blocks are connected up to the first
      that is not acceptable, and the supply recorded with the tip is the total value of the unspent
      outputs. */
  method ConnectChain(store: map<Hash, Tx>, steps: seq<Step>) returns (db: Index, supply: int, ghost blocks: seq<Block>)
    requires forall k :: 0 <= k < |steps| ==> AllStored(store, steps[k].block.txs)
    ensures Stored(store, db) && supply == UnspentTotal(store, db)
    ensures |blocks| <= |steps| && forall k :: 0 <= k < |blocks| ==> blocks[k] == steps[k].block
    ensures ConnectBlocks(map[], blocks) == Some(db)
    ensures |blocks| < |steps| ==>
              !(Accepts(store, db, steps[|blocks|]) && WritesAll(steps[|blocks|].out, steps[|blocks|].block.txs))
  {
    db, supply, blocks := map[], 0, [];
    EmptyTotal(store);
    hide *;
    for i := 0 to |steps|
      invariant Stored(store, db) && supply == UnspentTotal(store, db)
      invariant |blocks| == i && forall k :: 0 <= k < i ==> blocks[k] == steps[k].block
      invariant ConnectBlocks(map[], blocks) == Some(db)
    {
      var s := steps[i];
      var r, done, left := Connect(store, db, s.block, supply, s.bestHeight, s.out);
      if !done {
        return;
      }
      AcceptedConserves(store, db, s, supply, r.value);
      BlocksGrow(blocks, s.block, db, r.value.db);
      blocks := blocks + [s.block];
      db, supply := r.value.db, r.value.supply;
    }
  }

  lemma EmptyTotal(store: map<Hash, Tx>)
    ensures Stored(store, map[]) && UnspentTotal(store, map[]) == 0
    ensures ConnectBlocks(map[], []) == Some(map[])
  {
  }

  lemma BlocksGrow(blocks: seq<Block>, b: Block, db: Index, db': Index)
    requires ConnectBlocks(map[], blocks) == Some(db) && ConnectTxs(db, b.txs, b.hash) == Some(db')
    ensures ConnectBlocks(map[], blocks + [b]) == Some(db')
  {
    assert (blocks + [b])[..|blocks|] == blocks;
  }

  /** Conservation for one accepted block. */
  lemma AcceptedConserves(store: map<Hash, Tx>, db: Index, s: Step, supply: int, c: Connected)
    requires Stored(store, db) && AllStored(store, s.block.txs) && supply == UnspentTotal(store, db)
    requires Accepts(store, db, s) && ConnectTxs(db, s.block.txs, s.block.hash) == Some(c.db)
    requires c.supply == supply + TotalOut(s.block.txs) - TotalIn(store, s.block.txs)
    ensures Stored(store, c.db) && c.supply == UnspentTotal(store, c.db)
  {
    AcceptedNotOverwriting(store, db, s.block.txs, s.block.hash, s.out);
    ConnectTotal(store, db, s.block.txs, s.block.hash);
  }
}
