/** The median of the last eleven block times, which every new block has to exceed. */
module MedianTime {
  import opened Sorting

  const SPAN := 11

  predicate AtMost(a: int, b: int) {
    a <= b
  }

  /** The middle element of the sorted list. */
  ghost predicate IsMedian(xs: seq<int>, m: int) {
    exists s: seq<int> :: IsSorted(s, AtMost) && multiset(s) == multiset(xs) && Middle(s, m)
  }

  ghost predicate Middle(s: seq<int>, m: int) {
    s != [] && s[|s| / 2] == m
  }

  // How many elements are below a value

  ghost function Below(xs: seq<int>, m: int): nat {
    if xs == [] then 0 else Below(xs[..|xs| - 1], m) + if xs[|xs| - 1] < m then 1 else 0
  }

  lemma {:induction false} BelowSplit(a: seq<int>, b: seq<int>, m: int)
    ensures Below(a + b, m) == Below(a, m) + Below(b, m)
    decreases |b|
  {
    if b == [] {
      assert a + b == a;
    } else {
      assert (a + b)[..|a + b| - 1] == a + b[..|b| - 1];
      BelowSplit(a, b[..|b| - 1], m);
    }
  }

  lemma RemoveOne(ys: seq<int>, k: nat, m: int)
    requires k < |ys|
    ensures multiset(ys[..k] + ys[k + 1..]) == multiset(ys) - multiset{ys[k]}
    ensures Below(ys, m) == Below(ys[..k] + ys[k + 1..], m) + Below([ys[k]], m)
  {
    var x := ys[k];
    assert ys == ys[..k] + [x] + ys[k + 1..];
    hide Below;
    BelowSplit(ys[..k], ys[k + 1..], m);
    BelowSplit(ys[..k] + [x], ys[k + 1..], m);
    BelowSplit(ys[..k], [x], m);
  }

  lemma {:induction false} BelowPermutation(xs: seq<int>, ys: seq<int>, m: int)
    requires multiset(xs) == multiset(ys)
    ensures Below(xs, m) == Below(ys, m)
    decreases |xs|
  {
    SameElements(xs, ys);
    if xs != [] {
      var most, x := xs[..|xs| - 1], xs[|xs| - 1];
      assert xs == most + [x];
      assert x in ys;
      var k :| 0 <= k < |ys| && ys[k] == x;
      var rest := ys[..k] + ys[k + 1..];
      assert multiset(most) == multiset(xs) - multiset{x};
      RemoveOne(ys, k, m);
      hide Below;
      BelowPermutation(most, rest, m);
      BelowSplit(most, [x], m);
    }
  }

  lemma {:induction false} BelowSome(s: seq<int>, k: nat, m: int)
    requires IsSorted(s, AtMost) && k < |s| && s[k] < m
    ensures Below(s, m) >= k + 1
    decreases |s|
  {
    if k < |s| - 1 {
      BelowSome(s[..|s| - 1], k, m);
    } else if k > 0 {
      assert AtMost(s[k - 1], s[k]);
      BelowSome(s[..|s| - 1], k - 1, m);
    }
  }

  lemma {:induction false} BelowFew(s: seq<int>, k: nat, m: int)
    requires IsSorted(s, AtMost) && k < |s| && s[k] >= m
    ensures Below(s, m) <= k
    decreases |s|
  {
    if k < |s| - 1 {
      BelowFew(s[..|s| - 1], k, m);
      assert AtMost(s[k], s[|s| - 1]);
    } else {
      BelowBound(s[..|s| - 1], m);
    }
  }

  lemma {:induction false} BelowBound(s: seq<int>, m: int)
    ensures Below(s, m) <= |s|
  {
    if s != [] {
      BelowBound(s[..|s| - 1], m);
    }
  }

  /** A median has at most half of the elements below it, and is below nothing else that has. */
  lemma MedianCounts(xs: seq<int>, m: int)
    requires IsMedian(xs, m)
    ensures xs != [] && Below(xs, m) <= |xs| / 2
    ensures forall v :: v > m ==> Below(xs, v) >= |xs| / 2 + 1
  {
    var s: seq<int> :| IsSorted(s, AtMost) && multiset(s) == multiset(xs) && Middle(s, m);
    SameElements(s, xs);
    BelowFew(s, |s| / 2, m);
    BelowPermutation(s, xs, m);
    forall v | v > m
      ensures Below(xs, v) >= |xs| / 2 + 1
    {
      BelowSome(s, |s| / 2, v);
      BelowPermutation(s, xs, v);
    }
  }

  // Along a chain

  /** The times of the last eleven blocks, up to and including block `k`. */
  function Window(times: seq<int>, k: nat): seq<int>
    requires k < |times|
  {
    times[(if k < SPAN then 0 else k + 1 - SPAN)..k + 1]
  }

  /** One more block: the window grows, or slides, and the median does not decrease. */
  lemma MedianStep(times: seq<int>, k: nat, m: int, m': int)
    requires k + 1 < |times| && IsMedian(Window(times, k), m) && IsMedian(Window(times, k + 1), m')
    requires times[k + 1] > m
    ensures m <= m'
  {
    var w, w', t := Window(times, k), Window(times, k + 1), times[k + 1];
    MedianCounts(w, m);
    MedianCounts(w', m');
    WindowStep(times, k);
    BelowOne(t, m);
    hide IsMedian, Window, Below;
    if k + 1 < SPAN {
      BelowSplit(w, [t], m);
    } else {
      assert w == [w[0]] + w[1..];
      BelowSplit([w[0]], w[1..], m);
      BelowSplit(w[1..], [t], m);
    }
  }

  lemma BelowOne(t: int, m: int)
    requires t > m
    ensures Below([t], m) == 0
  {
    assert [t][..0] == [];
  }

  lemma WindowStep(times: seq<int>, k: nat)
    requires k + 1 < |times|
    ensures Window(times, k) != []
    ensures k + 1 < SPAN ==> Window(times, k + 1) == Window(times, k) + [times[k + 1]]
    ensures k + 1 >= SPAN ==>
            |Window(times, k)| == SPAN && Window(times, k + 1) == Window(times, k)[1..] + [times[k + 1]]
  {
    var a, b := Window(times, k), Window(times, k + 1);
    var from := if k < SPAN then 0 else k + 1 - SPAN;
    assert forall i :: 0 <= i < |a| ==> a[i] == times[from + i];
    if k + 1 >= SPAN {
      assert forall i :: 0 <= i < |b| ==> b[i] == times[k + 2 - SPAN + i];
    }
  }

  /** Sorting can always be done. */
  lemma {:induction false} MedianExists(xs: seq<int>) returns (m: int)
    requires xs != []
    ensures IsMedian(xs, m)
  {
    var s := SomeSorted(xs);
    MiddleIsMedian(s, xs);
    m := s[|s| / 2];
  }

  lemma SameItems(r: seq<int>, x: int, k: nat)
    requires k <= |r|
    ensures multiset(r[..k] + [x] + r[k..]) == multiset(r) + multiset{x}
  {
    assert r == r[..k] + r[k..];
  }

  lemma {:induction false} SomeSorted(xs: seq<int>) returns (s: seq<int>)
    ensures IsSorted(s, AtMost) && multiset(s) == multiset(xs)
    decreases |xs|
  {
    if xs == [] {
      s := [];
    } else {
      var most, x := xs[..|xs| - 1], xs[|xs| - 1];
      assert xs == most + [x];
      var r := SomeSorted(most);
      var k := |r|;
      while k > 0 && r[k - 1] > x
        invariant 0 <= k <= |r| && forall i :: k <= i < |r| ==> AtMost(x, r[i])
      {
        k := k - 1;
      }
      s := r[..k] + [x] + r[k..];
      Inserted(r, x, k, AtMost);
      SameItems(r, x, k);
      hide IsSorted, AtMost;
    }
  }

  /** Every block's time exceeds the median of the eleven blocks before it. */
  ghost predicate Exceeds(times: seq<int>) {
    forall k, m :: 0 <= k && k + 1 < |times| && IsMedian(Window(times, k), m) ==> After(times, k, m)
  }

  ghost predicate After(times: seq<int>, k: nat, m: int)
    requires k + 1 < |times|
  {
    times[k + 1] > m
  }

  /** Along such a chain the median never decreases. */
  lemma {:induction false} MedianMonotone(times: seq<int>, j: nat, k: nat, m: int, m': int)
    requires Exceeds(times) && j <= k < |times|
    requires IsMedian(Window(times, j), m) && IsMedian(Window(times, k), m')
    ensures m <= m'
    decreases k - j
  {
    hide IsMedian, Window;
    if j == k {
      MedianUnique(Window(times, j), m, m');
    } else {
      WindowSome(times, k - 1);
      var mid := MedianExists(Window(times, k - 1));
      MedianMonotone(times, j, k - 1, m, mid);
      assert After(times, k - 1, mid);
      MedianStep(times, k - 1, mid, m');
    }
  }

  lemma MedianUnique(xs: seq<int>, m: int, m': int)
    requires IsMedian(xs, m) && IsMedian(xs, m')
    ensures m == m'
  {
    MedianCounts(xs, m);
    MedianCounts(xs, m');
  }

  /** The loop that walks back at most eleven blocks. */
  method LastTimes(times: seq<int>, k: nat) returns (found: seq<int>)
    requires k < |times|
    ensures found == Window(times, k)
  {
    found := [];
    var i, at := 0, k;
    while i < SPAN && at >= 0
      invariant 0 <= i <= SPAN && at == k - i && at >= -1 && found == times[at + 1..k + 1]
    {
      found := [times[at]] + found;
      i, at := i + 1, at - 1;
    }
  }

  /** `GetMedianTimePast` of block `k` of a chain. */
  method GetMedianTimePast(times: seq<int>, k: nat) returns (m: int)
    requires k < |times|
    ensures IsMedian(Window(times, k), m)
  {
    hide *;
    WindowSome(times, k);
    var found := LastTimes(times, k);
    AtMostTotal();
    var s := Sort(found, AtMost);
    MiddleIsMedian(s, found);
    m := s[|s| / 2];
  }

  lemma WindowSome(times: seq<int>, k: nat)
    requires k < |times|
    ensures Window(times, k) != []
  {
  }

  lemma MiddleIsMedian(s: seq<int>, xs: seq<int>)
    requires IsSorted(s, AtMost) && multiset(s) == multiset(xs) && xs != []
    ensures s != [] && IsMedian(xs, s[|s| / 2])
  {
    SameElements(s, xs);
    assert Middle(s, s[|s| / 2]);
  }

  lemma AtMostTotal()
    ensures TotalOrder(AtMost)
  {
  }

  /** Whether an offered time is accepted on a chain of `n` blocks: it exceeds the median, and the
      other checks pass. */
  ghost predicate Answered(times: seq<int>, n: nat, n': nat, t: int, others: bool)
    requires 1 <= n <= |times|
  {
    exists m :: IsMedian(Window(times, n - 1), m) && Taken(times, n, n', t, others, m)
  }

  ghost predicate Taken(times: seq<int>, n: nat, n': nat, t: int, others: bool, m: int) {
    if t > m && others then n' == n + 1 && n < |times| && times[n] == t else n' == n
  }

  /** The timestamp check of `AcceptBlock`, block after block: whatever times are offered and
      whatever the other checks say, those accepted make a chain along which the median never
      decreases.  `lengths` are the lengths of the chain before each offer and at the end. */
  method AcceptTimes(genesis: int, offered: seq<int>, otherChecks: int -> bool)
    returns (times: seq<int>, ghost lengths: seq<nat>)
    ensures Exceeds(times) && times != [] && times[0] == genesis
    ensures forall j, k, m, m' | 0 <= j <= k < |times| ::
              IsMedian(Window(times, j), m) && IsMedian(Window(times, k), m') ==> m <= m'
    ensures |lengths| == |offered| + 1 && lengths[0] == 1 && lengths[|offered|] == |times|
    ensures forall i :: 0 <= i < |offered| ==>
            1 <= lengths[i] <= |times| && Answered(times, lengths[i], lengths[i + 1], offered[i], otherChecks(i))
  {
    times, lengths := [genesis], [1];
    assert Exceeds(times);
    hide *;
    HistoryStart(times, lengths, offered, otherChecks);
    for i := 0 to |offered|
      invariant Exceeds(times) && times != [] && times[0] == genesis
      invariant History(times, lengths, offered, otherChecks, i)
    {
      var limit := GetMedianTimePast(times, |times| - 1);
      HistoryNext(times, lengths, offered, otherChecks, i, limit);
      if offered[i] > limit && otherChecks(i) {
        ExceedsNext(times, offered[i], limit);
        times := times + [offered[i]];
      }
      lengths := lengths + [|times|];
    }
    HistoryEnd(times, lengths, offered, otherChecks);
    forall j, k, m, m' | 0 <= j <= k < |times| && IsMedian(Window(times, j), m) && IsMedian(Window(times, k), m')
      ensures m <= m'
    {
      MedianMonotone(times, j, k, m, m');
    }
  }

  /** The first `i` offers were answered as they should be. */
  ghost predicate History(times: seq<int>, lengths: seq<nat>, offered: seq<int>, otherChecks: int -> bool, i: nat) {
    && i <= |offered| && |lengths| == i + 1 && lengths[0] == 1 && lengths[i] == |times|
    && (forall k :: 0 <= k < i ==>
       1 <= lengths[k] <= |times| && Answered(times, lengths[k], lengths[k + 1], offered[k], otherChecks(k)))
  }

  lemma HistoryStart(times: seq<int>, lengths: seq<nat>, offered: seq<int>, otherChecks: int -> bool)
    requires |times| == 1 && lengths == [1]
    ensures History(times, lengths, offered, otherChecks, 0)
  {
  }

  lemma HistoryNext(times: seq<int>, lengths: seq<nat>, offered: seq<int>, otherChecks: int -> bool, i: nat, limit: int)
    requires History(times, lengths, offered, otherChecks, i) && i < |offered| && times != []
    requires IsMedian(Window(times, |times| - 1), limit)
    ensures var more := if offered[i] > limit && otherChecks(i) then times + [offered[i]] else times;
            History(more, lengths + [|more|], offered, otherChecks, i + 1)
  {
    hide Answered, IsMedian, Window;
    var more := if offered[i] > limit && otherChecks(i) then times + [offered[i]] else times;
    AnsweredNext(times, more, offered[i], otherChecks(i), limit);
    forall k | 0 <= k < i
      ensures 1 <= lengths[k] <= |more| && Answered(more, lengths[k], lengths[k + 1], offered[k], otherChecks(k))
    {
      AnsweredFrame(times, more, lengths[k], lengths[k + 1], offered[k], otherChecks(k));
    }
  }

  lemma HistoryEnd(times: seq<int>, lengths: seq<nat>, offered: seq<int>, otherChecks: int -> bool)
    requires History(times, lengths, offered, otherChecks, |offered|)
    ensures |lengths| == |offered| + 1 && lengths[0] == 1 && lengths[|offered|] == |times|
    ensures forall i :: 0 <= i < |offered| ==>
            1 <= lengths[i] <= |times| && Answered(times, lengths[i], lengths[i + 1], offered[i], otherChecks(i))
  {
  }

  lemma AnsweredNext(before: seq<int>, times: seq<int>, t: int, others: bool, m: int)
    requires before != [] && IsMedian(Window(before, |before| - 1), m)
    requires times == if t > m && others then before + [t] else before
    ensures Answered(times, |before|, |times|, t, others)
  {
    assert Window(times, |before| - 1) == Window(before, |before| - 1);
    assert Taken(times, |before|, |times|, t, others, m);
  }

  lemma AnsweredFrame(before: seq<int>, times: seq<int>, n: nat, n': nat, t: int, others: bool)
    requires 1 <= n <= |before| && before <= times && Answered(before, n, n', t, others)
    ensures Answered(times, n, n', t, others)
  {
    var m :| IsMedian(Window(before, n - 1), m) && Taken(before, n, n', t, others, m);
    assert Window(times, n - 1) == Window(before, n - 1);
    assert Taken(times, n, n', t, others, m);
  }

  lemma ExceedsNext(times: seq<int>, t: int, limit: int)
    requires Exceeds(times) && times != [] && IsMedian(Window(times, |times| - 1), limit) && t > limit
    ensures Exceeds(times + [t])
  {
    var more := times + [t];
    forall k, m | 0 <= k && k + 1 < |more| && IsMedian(Window(more, k), m)
      ensures After(more, k, m)
    {
      assert Window(more, k) == Window(times, k);
      if k + 1 < |times| {
        assert After(times, k, m);
      } else {
        MedianUnique(Window(times, k), m, limit);
      }
    }
  }
}
