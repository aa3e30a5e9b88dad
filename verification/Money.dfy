/** The money in the unspent outputs of a transaction index, and how connecting transactions
    changes it. */
module Money {
  import opened Basics
  import opened Ledger

  ghost function Total(values: map<Hash, int>): int
    decreases |values|
  {
    if values == map[] then 0
    else
      var h :| h in values;
      values[h] + Total(values - {h})
  }

  lemma {:induction false} TotalRemove(values: map<Hash, int>, h: Hash)
    requires h in values
    ensures Total(values) == values[h] + Total(values - {h})
    decreases |values|
  {
    var k :| k in values && Total(values) == values[k] + Total(values - {k});
    if k != h {
      TotalRemove(values - {k}, h);
      TotalRemove(values - {h}, k);
      assert values - {k} - {h} == values - {h} - {k};
    }
  }

  lemma TotalUpdate(values: map<Hash, int>, h: Hash, v: int)
    ensures Total(values[h := v]) == Total(values) - (if h in values then values[h] else 0) + v
  {
    TotalRemove(values[h := v], h);
    assert values[h := v] - {h} == values - {h};
    if h in values {
      TotalRemove(values, h);
    } else {
      assert values - {h} == values;
    }
  }

  function Sum(xs: seq<int>): int {
    if xs == [] then 0 else Sum(xs[..|xs| - 1]) + xs[|xs| - 1]
  }

  /** The value of the outputs not marked spent. */
  ghost function UnspentValue(outs: seq<int>, spent: seq<Option<Hash>>): int
    requires |outs| == |spent|
  {
    if outs == [] then 0
    else UnspentValue(outs[..|outs| - 1], spent[..|outs| - 1]) +
         if spent[|outs| - 1].None? then outs[|outs| - 1] else 0
  }

  lemma {:induction false} MarkedValue(outs: seq<int>, spent: seq<Option<Hash>>, n: nat, blk: Hash)
    requires |outs| == |spent| && n < |outs| && spent[n].None?
    ensures UnspentValue(outs, spent[n := Some(blk)]) == UnspentValue(outs, spent) - outs[n]
    decreases |outs|
  {
    var k := |outs| - 1;
    if n == k {
      assert spent[n := Some(blk)][..k] == spent[..k];
    } else {
      assert spent[n := Some(blk)][..k] == spent[..k][n := Some(blk)];
      MarkedValue(outs[..k], spent[..k], n, blk);
    }
  }

  lemma {:induction false} FreshValue(outs: seq<int>, spent: seq<Option<Hash>>)
    requires |outs| == |spent|
    ensures (forall n :: 0 <= n < |spent| ==> spent[n].None?) ==> UnspentValue(outs, spent) == Sum(outs)
    ensures (forall n :: 0 <= n < |spent| ==> spent[n].Some?) ==> UnspentValue(outs, spent) == 0
    decreases |outs|
  {
    if outs != [] {
      FreshValue(outs[..|outs| - 1], spent[..|outs| - 1]);
    }
  }

  /** Every indexed transaction can be read back, and is as wide as its index entry. */
  ghost predicate Stored(store: map<Hash, Tx>, idx: Index) {
    forall h :: h in idx ==> h in store && |store[h].outs| == |idx[h].spent|
  }

  ghost function Values(store: map<Hash, Tx>, idx: Index): map<Hash, int>
    requires Stored(store, idx)
  {
    map h | h in idx :: UnspentValue(store[h].outs, idx[h].spent)
  }

  /** The total value of all unspent outputs. */
  ghost function UnspentTotal(store: map<Hash, Tx>, idx: Index): int
    requires Stored(store, idx)
  {
    Total(Values(store, idx))
  }

  predicate Readable(store: map<Hash, Tx>, o: OutPoint) {
    o.hash in store && o.n < |store[o.hash].outs|
  }

  function ValueOf(store: map<Hash, Tx>, o: OutPoint): int {
    if Readable(store, o) then store[o.hash].outs[o.n] else 0
  }

  function ValueIn(store: map<Hash, Tx>, os: seq<OutPoint>): int {
    if os == [] then 0 else ValueIn(store, os[..|os| - 1]) + ValueOf(store, os[|os| - 1])
  }

  lemma MarkTotal(store: map<Hash, Tx>, idx: Index, o: OutPoint, blk: Hash)
    requires Stored(store, idx) && Exists(idx, o) && !IsSpent(idx, o)
    ensures Stored(store, Mark(idx, o, blk))
    ensures UnspentTotal(store, Mark(idx, o, blk)) == UnspentTotal(store, idx) - ValueOf(store, o)
  {
    var h := o.hash;
    MarkedValue(store[h].outs, idx[h].spent, o.n, blk);
    var v := UnspentValue(store[h].outs, idx[h].spent) - store[h].outs[o.n];
    TotalUpdate(Values(store, idx), h, v);
    assert Values(store, Mark(idx, o, blk)) == Values(store, idx)[h := v];
  }

  lemma {:induction false} SpendAllTotal(store: map<Hash, Tx>, idx: Index, os: seq<OutPoint>, blk: Hash)
    requires Stored(store, idx) && SpendAll(idx, os, blk).Some?
    ensures Stored(store, SpendAll(idx, os, blk).value)
    ensures UnspentTotal(store, SpendAll(idx, os, blk).value) == UnspentTotal(store, idx) - ValueIn(store, os)
    decreases |os|
  {
    if os != [] {
      var most, last := os[..|os| - 1], os[|os| - 1];
      SpendAllTotal(store, idx, most, blk);
      MarkTotal(store, SpendAll(idx, most, blk).value, last, blk);
    }
  }

  /** The transaction is not indexed, or all its outputs are spent: the rule of BIP 30. */
  predicate FullySpent(idx: Index, h: Hash) {
    h in idx ==> forall n :: 0 <= n < |idx[h].spent| ==> idx[h].spent[n].Some?
  }

  lemma CreateTotal(store: map<Hash, Tx>, idx: Index, tx: Tx, blk: Hash)
    requires Stored(store, idx) && tx.hash in store && store[tx.hash] == tx && FullySpent(idx, tx.hash)
    ensures Stored(store, idx[tx.hash := Unspent(blk, |tx.outs|)])
    ensures UnspentTotal(store, idx[tx.hash := Unspent(blk, |tx.outs|)]) == UnspentTotal(store, idx) + Sum(tx.outs)
  {
    var entry := Unspent(blk, |tx.outs|);
    FreshValue(tx.outs, entry.spent);
    if tx.hash in idx {
      FreshValue(tx.outs, idx[tx.hash].spent);
    }
    TotalUpdate(Values(store, idx), tx.hash, Sum(tx.outs));
    assert Values(store, idx[tx.hash := entry]) == Values(store, idx)[tx.hash := Sum(tx.outs)];
  }

  function TotalOut(txs: seq<Tx>): int {
    if txs == [] then 0 else TotalOut(txs[..|txs| - 1]) + Sum(txs[|txs| - 1].outs)
  }

  function TotalIn(store: map<Hash, Tx>, txs: seq<Tx>): int {
    if txs == [] then 0 else TotalIn(store, txs[..|txs| - 1]) + ValueIn(store, Spends(txs[|txs| - 1]))
  }

  /** Spent outputs stay spent unless their transaction is written again. */
  lemma {:induction false} StaysFullySpent(idx: Index, txs: seq<Tx>, blk: Hash, h: Hash)
    requires ConnectTxs(idx, txs, blk).Some? && FullySpent(idx, h) && h !in Ids(txs)
    ensures FullySpent(ConnectTxs(idx, txs, blk).value, h)
    decreases |txs|
  {
    if txs != [] {
      var most, last := txs[..|txs| - 1], txs[|txs| - 1];
      assert last.hash in Ids(txs) && Ids(most) <= Ids(txs);
      StaysFullySpent(idx, most, blk, h);
      var mid := ConnectTxs(idx, most, blk).value;
      FullySpentAfter(mid, Spends(last), blk, h);
    }
  }

  ghost predicate AllStored(store: map<Hash, Tx>, txs: seq<Tx>) {
    forall tx :: tx in txs ==> tx.hash in store && store[tx.hash] == tx
  }

  /** Connecting transactions moves money from inputs to outputs and nothing else: under the
      rule of BIP 30 and with distinct ids, no unspent output is overwritten. */
  lemma {:induction false} ConnectTotal(store: map<Hash, Tx>, idx: Index, txs: seq<Tx>, blk: Hash)
    requires Stored(store, idx) && AllStored(store, txs) && Distinct(txs) && ConnectTxs(idx, txs, blk).Some?
    requires forall tx :: tx in txs ==> FullySpent(idx, tx.hash)
    ensures Stored(store, ConnectTxs(idx, txs, blk).value)
    ensures UnspentTotal(store, ConnectTxs(idx, txs, blk).value) ==
            UnspentTotal(store, idx) + TotalOut(txs) - TotalIn(store, txs)
    decreases |txs|
  {
    if txs != [] {
      var most, last := txs[..|txs| - 1], txs[|txs| - 1];
      assert txs == most + [last];
      ConnectTotal(store, idx, most, blk);
      var mid := ConnectTxs(idx, most, blk).value;
      assert last.hash !in Ids(most);
      SpendAllTotal(store, mid, Spends(last), blk);
      StaysFullySpent(idx, most, blk, last.hash);
      FullySpentAfter(mid, Spends(last), blk, last.hash);
      CreateTotal(store, SpendAll(mid, Spends(last), blk).value, last, blk);
    }
  }

  lemma FullySpentAfter(idx: Index, os: seq<OutPoint>, blk: Hash, h: Hash)
    requires SpendAll(idx, os, blk).Some? && FullySpent(idx, h)
    ensures FullySpent(SpendAll(idx, os, blk).value, h)
  {
    SpendAllShape(idx, os, blk);
    SpendAllSpent(idx, os, blk);
    var done := SpendAll(idx, os, blk).value;
    if h in idx {
      forall n | 0 <= n < |done[h].spent|
        ensures done[h].spent[n].Some?
      {
        assert IsSpent(idx, OutPoint(h, n));
        assert IsSpent(done, OutPoint(h, n));
      }
    }
  }
}
