/** The address manager's own consistency check, `Check_`: what exactly it accepts, and that it
    accepts every table on which the invariant of `AddrTables` holds. */
module AddrCheck {
  import opened AddrTables
  import opened Basics
  import AddrMan

  // What the check demands

  /** What the first loop demands of one entry.  An address without an id counts as having id 0. */
  ghost predicate EntryConsistent(t: Tables, id: int)
    requires id in t.infos
  {
    var info := t.infos[id];
    && (if info.inTried then info.lastSuccess > 0 && info.refCount == 0
        else 1 <= info.refCount <= NEW_BUCKETS_PER_ADDRESS)
    && (if info.service.ip in t.ids then t.ids[info.service.ip] == id else id == 0)
    && 0 <= info.randomPos < |t.random| && t.random[info.randomPos] == id
    && info.lastTry >= 0 && info.lastSuccess >= 0
  }

  /** The tried buckets list the tried entries, each once. */
  ghost predicate TriedConsistent(t: Tables) {
    && NoRepeats(Flat(t.tried))
    && (forall id :: id in Flat(t.tried) <==> id in TriedIds(t.infos))
  }

  /** The new buckets hold the new entries, each as often as its reference count says. */
  ghost predicate NewConsistent(t: Tables) {
    && (forall b, id :: 0 <= b < |t.news| && id in t.news[b] ==> id in NewIds(t.infos))
    && (forall id :: id in NewIds(t.infos) ==> |Buckets(t.news, id)| == t.infos[id].refCount)
  }

  ghost predicate EntriesConsistent(t: Tables) {
    forall id :: id in t.infos ==> EntryConsistent(t, id)
  }

  ghost predicate Consistent(t: Tables) {
    && |t.random| == t.triedCount + t.newCount
    && EntriesConsistent(t)
    && |TriedIds(t.infos)| == t.triedCount
    && |NewIds(t.infos)| == t.newCount
    && TriedConsistent(t)
    && NewConsistent(t)
  }

  function Flat(buckets: seq<seq<int>>): seq<int> {
    if buckets == [] then [] else Flat(buckets[..|buckets| - 1]) + buckets[|buckets| - 1]
  }

  lemma {:induction false} FlatPrefix(buckets: seq<seq<int>>, b: nat)
    requires b <= |buckets|
    ensures Flat(buckets[..b]) <= Flat(buckets)
    decreases |buckets|
  {
    if b < |buckets| {
      FlatPrefix(buckets[..|buckets| - 1], b);
      assert buckets[..|buckets| - 1][..b] == buckets[..b];
    } else {
      assert buckets[..b] == buckets;
    }
  }

  lemma FlatNext(buckets: seq<seq<int>>, b: nat)
    requires b < |buckets|
    ensures Flat(buckets[..b + 1]) == Flat(buckets[..b]) + buckets[b]
    ensures Flat(buckets[..b]) + buckets[b] <= Flat(buckets)
  {
    assert buckets[..b + 1][..b] == buckets[..b];
    FlatPrefix(buckets, b + 1);
  }

  // The entries

  /** The reference count of every new entry. */
  function RefCounts(infos: Infos): map<int, int> {
    map id | id in NewIds(infos) :: infos[id].refCount
  }

  /** The checks of the first loop on one entry, in their order. */
  method CheckEntry(t: Tables, id: int) returns (code: int)
    requires id in t.infos
    ensures code == 0 <==> EntryConsistent(t, id)
  {
    var info := t.infos[id];
    if info.inTried {
      if info.lastSuccess == 0 {
        return -1;
      }
      if info.refCount != 0 {
        return -2;
      }
    } else {
      if info.refCount < 0 || info.refCount > NEW_BUCKETS_PER_ADDRESS {
        return -3;
      }
      if info.refCount == 0 {
        return -4;
      }
    }
    if (if info.service.ip in t.ids then t.ids[info.service.ip] else 0) != id {
      return -5;
    }
    if info.randomPos < 0 || info.randomPos >= |t.random| || t.random[info.randomPos] != id {
      return -14;
    }
    if info.lastTry < 0 {
      return -6;
    }
    if info.lastSuccess < 0 {
      return -8;
    }
    return 0;
  }

  /** The first loop: check every entry and collect what the buckets should hold. */
  method CheckEntries(t: Tables) returns (code: int, left: set<int>, counts: map<int, int>)
    ensures code == 0 <==> EntriesConsistent(t)
    ensures code == 0 ==> left == TriedIds(t.infos) && counts == RefCounts(t.infos)
  {
    left, counts := {}, map[];
    var order := AddrMan.Ascending(t.infos.Keys);
    var i := 0;
    while i < |order|
      invariant 0 <= i <= |order|
      invariant forall k :: 0 <= k < i ==> order[k] in t.infos && EntryConsistent(t, order[k])
      invariant forall id :: id in left <==> id in order[..i] && id in t.infos && t.infos[id].inTried
      invariant forall id :: id in counts <==> id in order[..i] && id in t.infos && !t.infos[id].inTried
      invariant forall id :: id in counts ==> counts[id] == t.infos[id].refCount
    {
      var id := order[i];
      assert id in order;
      code := CheckEntry(t, id);
      if code != 0 {
        return;
      }
      if t.infos[id].inTried {
        left := left + {id};
      } else {
        counts := counts[id := t.infos[id].refCount];
      }
      i := i + 1;
    }
    assert order[..i] == order;
    code := 0;
    Collected(t, order, left, counts);
  }

  lemma Collected(t: Tables, order: seq<int>, left: set<int>, counts: map<int, int>)
    requires forall x :: x in order <==> x in t.infos.Keys
    requires forall k :: 0 <= k < |order| ==> order[k] in t.infos && EntryConsistent(t, order[k])
    requires forall id :: id in left <==> id in order && id in t.infos && t.infos[id].inTried
    requires forall id :: id in counts <==> id in order && id in t.infos && !t.infos[id].inTried
    requires forall id :: id in counts ==> counts[id] == t.infos[id].refCount
    ensures left == TriedIds(t.infos) && counts == RefCounts(t.infos) && EntriesConsistent(t)
  {
    var expected := RefCounts(t.infos);
    forall id | id in t.infos.Keys
      ensures id in order && EntryConsistent(t, id)
    {
      assert id in order;
    }
    forall id: int
      ensures id in NewIds(t.infos) <==> id in counts.Keys
      ensures id in TriedIds(t.infos) <==> id in left
    {
      assert id in t.infos <==> id in t.infos.Keys;
      assert id in counts.Keys <==> id in counts;
    }
    assert counts.Keys == NewIds(t.infos) && left == TriedIds(t.infos);
    assert counts.Keys == expected.Keys;
    assert forall id :: id in counts ==> counts[id] == expected[id];
  }

  // The tried buckets

  /** What is left of the tried entries once those in `seen` were met. */
  ghost predicate TriedLeft(t: Tables, seen: seq<int>, left: set<int>) {
    && NoRepeats(seen)
    && (forall id :: id in seen ==> id in TriedIds(t.infos))
    && (forall id :: id in left <==> id in TriedIds(t.infos) && id !in seen)
  }

  method CheckTried(t: Tables, all: set<int>) returns (ok: bool, left: set<int>)
    requires all == TriedIds(t.infos)
    ensures ok && left == {} <==> TriedConsistent(t)
  {
    hide TriedLeft, TriedConsistent, Flat, TriedIds;
    left := all;
    TriedStart(t);
    for b := 0 to |t.tried|
      invariant TriedLeft(t, Flat(t.tried[..b]), left)
    {
      ghost var before := Flat(t.tried[..b]);
      FlatNext(t.tried, b);
      assert before + t.tried[b][..0] == before;
      for i := 0 to |t.tried[b]|
        invariant TriedLeft(t, before + t.tried[b][..i], left)
      {
        var id := t.tried[b][i];
        if id !in left {
          PrefixMore(before, t.tried[b], i);
          TriedFails(t, before + t.tried[b], before + t.tried[b][..i], id, left);
          return false, left;
        }
        TriedMore(t, before + t.tried[b][..i], id, left);
        assert before + t.tried[b][..i] + [id] == before + t.tried[b][..i + 1];
        left := left - {id};
      }
      assert t.tried[b][..|t.tried[b]|] == t.tried[b];
    }
    assert t.tried[..|t.tried|] == t.tried;
    ok := true;
    TriedDone(t, left);
  }

  lemma TriedStart(t: Tables)
    ensures TriedLeft(t, Flat(t.tried[..0]), TriedIds(t.infos))
  {
  }

  lemma PrefixMore(before: seq<int>, bucket: seq<int>, i: nat)
    requires i < |bucket|
    ensures before + bucket[..i] + [bucket[i]] <= before + bucket
  {
  }

  lemma TriedMore(t: Tables, seen: seq<int>, id: int, left: set<int>)
    requires TriedLeft(t, seen, left) && id in left
    ensures TriedLeft(t, seen + [id], left - {id})
  {
  }

  lemma TriedFails(t: Tables, next: seq<int>, seen: seq<int>, id: int, left: set<int>)
    requires next <= Flat(t.tried) && seen + [id] <= next
    requires TriedLeft(t, seen, left) && id !in left
    ensures !TriedConsistent(t)
  {
    var flat := Flat(t.tried);
    assert flat[|seen|] == id && id in flat;
    if id in seen {
      var k :| 0 <= k < |seen| && seen[k] == id;
      assert flat[k] == id;
    }
  }

  lemma TriedDone(t: Tables, left: set<int>)
    requires TriedLeft(t, Flat(t.tried), left)
    ensures left == {} <==> TriedConsistent(t)
  {
    if left != {} {
      NonEmpty(left);
      var id :| id in left;
      assert id in TriedIds(t.infos) && id !in Flat(t.tried);
    }
  }

  // The new buckets

  /** The new buckets an id is in, among the first `b` and, if it is in `more`, one beyond. */
  ghost function Met(news: seq<set<int>>, b: nat, more: seq<int>, id: int): int
    requires b <= |news|
  {
    |Buckets(news[..b], id)| + if id in more then 1 else 0
  }

  /** What is left of the reference counts. */
  ghost predicate NewLeft(t: Tables, b: nat, more: seq<int>, left: map<int, int>)
    requires b <= |t.news|
  {
    && (forall k, id :: 0 <= k < b && id in t.news[k] ==> id in NewIds(t.infos))
    && (forall id :: id in more ==> id in NewIds(t.infos))
    && (forall id :: id in left ==> id in NewIds(t.infos))
    && (forall id :: id in NewIds(t.infos) ==> Met(t.news, b, more, id) <= t.infos[id].refCount)
    && (forall id :: id in NewIds(t.infos) ==> (id in left <==> Met(t.news, b, more, id) < t.infos[id].refCount))
    && (forall id :: id in left ==> left[id] == t.infos[id].refCount - Met(t.news, b, more, id))
  }

  lemma NewStart(t: Tables)
    requires EntriesConsistent(t)
    ensures NewLeft(t, 0, [], RefCounts(t.infos))
  {
    assert forall id :: Buckets(t.news[..0], id) == {};
  }

  method CheckNew(t: Tables, all: map<int, int>) returns (ok: bool, left: map<int, int>)
    requires EntriesConsistent(t) && all == RefCounts(t.infos)
    ensures ok && left == map[] <==> NewConsistent(t)
  {
    left := all;
    NewStart(t);
    hide NewLeft, NewConsistent, EntriesConsistent;
    for b := 0 to |t.news|
      invariant NewLeft(t, b, [], left)
    {
      var order := AddrMan.Ascending(t.news[b]);
      for i := 0 to |order|
        invariant NewLeft(t, b, order[..i], left)
      {
        var id := order[i];
        assert id in order;
        assert id !in order[..i];
        if id !in left {
          NewFails(t, b, order, i, left);
          return false, left;
        }
        NewMore(t, b, order[..i], id, left);
        assert order[..i] + [id] == order[..i + 1];
        left := left[id := left[id] - 1];
        if left[id] == 0 {
          left := left - {id};
        }
      }
      assert order[..|order|] == order;
      NewBucketDone(t, b, order, left);
    }
    ok := true;
    NewDone(t, left);
  }

  lemma NewMore(t: Tables, b: nat, done: seq<int>, id: int, left: map<int, int>)
    requires b < |t.news| && NewLeft(t, b, done, left) && id in left && id !in done
    ensures var less := left[id := left[id] - 1];
            NewLeft(t, b, done + [id], if less[id] == 0 then less - {id} else less)
  {
    assert forall x :: x in done + [id] <==> x in done || x == id;
  }

  lemma BucketsMore(news: seq<set<int>>, b: nat, id: int)
    requires b < |news|
    ensures |Buckets(news[..b + 1], id)| == |Buckets(news[..b], id)| + if id in news[b] then 1 else 0
    ensures |Buckets(news[..b + 1], id)| <= |Buckets(news, id)|
  {
    if id in news[b] {
      assert Buckets(news[..b + 1], id) == Buckets(news[..b], id) + {b};
    } else {
      assert Buckets(news[..b + 1], id) == Buckets(news[..b], id);
    }
    SubsetSize(Buckets(news[..b + 1], id), Buckets(news, id));
  }

  lemma NewFails(t: Tables, b: nat, order: seq<int>, i: nat, left: map<int, int>)
    requires b < |t.news| && i < |order| && order[i] in t.news[b] && order[i] !in order[..i]
    requires NewLeft(t, b, order[..i], left) && order[i] !in left
    ensures !NewConsistent(t)
  {
    var id := order[i];
    if id in NewIds(t.infos) {
      BucketsMore(t.news, b, id);
      assert Met(t.news, b, order[..i], id) == t.infos[id].refCount;
    }
  }

  lemma NewBucketDone(t: Tables, b: nat, order: seq<int>, left: map<int, int>)
    requires b < |t.news| && NewLeft(t, b, order, left)
    requires forall x :: x in order <==> x in t.news[b]
    ensures NewLeft(t, b + 1, [], left)
  {
    forall id
      ensures Met(t.news, b + 1, [], id) == Met(t.news, b, order, id)
    {
      BucketsMore(t.news, b, id);
    }
  }

  lemma NewDone(t: Tables, left: map<int, int>)
    requires NewLeft(t, |t.news|, [], left)
    ensures left == map[] <==> NewConsistent(t)
  {
    assert t.news[..|t.news|] == t.news;
    assert forall id :: id in NewIds(t.infos) ==> Met(t.news, |t.news|, [], id) == |Buckets(t.news, id)|;
    if left != map[] {
      NonEmpty(left.Keys);
      var id :| id in left.Keys;
      assert id in NewIds(t.infos);
    }
  }

  // The check

  /** `Check_`: zero means that no inconsistency was found. */
  method Check(t: Tables) returns (code: int)
    ensures code == 0 <==> Consistent(t)
  {
    if |t.random| != t.triedCount + t.newCount {
      return -7;
    }
    var left, counts;
    code, left, counts := CheckEntries(t);
    if code != 0 {
      return;
    }
    assert counts.Keys == NewIds(t.infos);
    if |left| != t.triedCount {
      return -9;
    }
    if |counts| != t.newCount {
      return -10;
    }
    var ok;
    ok, left := CheckTried(t, left);
    if !ok {
      return -11;
    }
    ok, counts := CheckNew(t, counts);
    if !ok {
      return -12;
    }
    if |left| != 0 {
      return -13;
    }
    if |counts| != 0 {
      return -15;
    }
    return 0;
  }

  lemma EntriesAgree(t: Tables, place: Service -> nat)
    requires Agree(t, place)
    ensures EntriesConsistent(t)
  {
    forall id | id in t.infos
      ensures EntryConsistent(t, id)
    {
      EntryAgrees(t, place, id);
    }
  }

  lemma EntryAgrees(t: Tables, place: Service -> nat, id: int)
    requires Agree(t, place) && id in t.infos
    ensures EntryConsistent(t, id)
  {
    hide NewOk, CountsOk;
    if !t.infos[id].inTried {
      NewCounted(t.infos, t.news, id);
    }
    IdsBelow(t.infos, t.idCount, t.triedCount, t.newCount);
  }

  lemma NewCounted(infos: Infos, news: seq<set<int>>, id: int)
    requires NewOk(infos, news, -1, 0) && id in infos && !infos[id].inTried
    ensures id != -1 ==> 1 <= infos[id].refCount <= NEW_BUCKETS_PER_ADDRESS
    ensures infos[id].refCount == |Buckets(news, id)|
  {
    assert RefCountOk(infos[id].refCount, news, id, -1, 0);
  }

  lemma NewAgrees(t: Tables, place: Service -> nat)
    requires Agree(t, place)
    ensures NewConsistent(t)
  {
    hide RandomOk, IdsOk, TriedOk, CountsOk, TimesOk;
    forall id | id in NewIds(t.infos)
      ensures |Buckets(t.news, id)| == t.infos[id].refCount
    {
      NewCounted(t.infos, t.news, id);
    }
  }

  lemma TriedAgrees(t: Tables, place: Service -> nat)
    requires Agree(t, place)
    ensures TriedConsistent(t)
  {
    hide RandomOk, IdsOk, NewOk, CountsOk, TimesOk;
    assert t.tried[..|t.tried|] == t.tried;
    FlatAgrees(t, place, |t.tried|);
    forall id | id in TriedIds(t.infos)
      ensures id in Flat(t.tried)
    {
      var b := place(t.infos[id].service);
      FlatNext(t.tried, b);
      assert id in Flat(t.tried[..b]) + t.tried[b];
    }
  }

  /** Whatever the operations keep, the check accepts. */
  lemma AgreeIsConsistent(t: Tables, place: Service -> nat)
    requires Agree(t, place)
    ensures Consistent(t)
  {
    hide RandomOk, IdsOk, TriedOk, NewOk, TimesOk, EntriesConsistent, TriedConsistent, NewConsistent;
    Capacity(t, place);
    EntriesAgree(t, place);
    TriedAgrees(t, place);
    NewAgrees(t, place);
  }

  /** But not only those: in these tables all is in order, except that the address of entry 0 is missing
      from `mapAddr`. */
  lemma ConsistentWithoutAddress(place: Service -> nat) returns (t: Tables)
    ensures Consistent(t) && RandomOk(t.infos, t.random) && TriedOk(t.infos, t.tried, place)
            && NewOk(t.infos, t.news, -1, 0)
    ensures CountsOk(t.infos, t.idCount, t.triedCount, t.newCount) && TimesOk(t.infos)
    ensures 0 in t.infos && t.ids == map[] && !Agree(t, place)
  {
    var news := seq(NEW_BUCKET_COUNT, i => if i == 0 then {0} else {});
    var tried := seq(TRIED_BUCKET_COUNT, _ => []);
    t := Tables(1, map[0 := Info(Service(5, 0), {}, 0, 0, 0, 0, 0, 1, false, 0)], map[], [0], 0, tried, 1, news);
    assert NewIds(t.infos) == {0} && TriedIds(t.infos) == {};
    FlatEmpty(tried);
    OneBucket(t.infos, news);
    assert EntryConsistent(t, 0) && !IdsOk(t.infos, t.ids);
    hide NewOk, Flat, Buckets;
  }

  lemma OneBucket(infos: Infos, news: seq<set<int>>)
    requires |news| == NEW_BUCKET_COUNT && forall b :: 0 <= b < |news| ==> news[b] == if b == 0 then {0} else {}
    requires infos.Keys == {0} && !infos[0].inTried && infos[0].refCount == 1
    ensures NewOk(infos, news, -1, 0) && |Buckets(news, 0)| == 1
  {
    assert Buckets(news, 0) == {0};
    assert RefCountOk(1, news, 0, -1, 0);
  }

  lemma {:induction false} FlatEmpty(buckets: seq<seq<int>>)
    requires forall b :: 0 <= b < |buckets| ==> buckets[b] == []
    ensures Flat(buckets) == []
  {
    if buckets != [] {
      FlatEmpty(buckets[..|buckets| - 1]);
    }
  }

  lemma {:induction false} FlatAgrees(t: Tables, place: Service -> nat, b: nat)
    requires TriedOk(t.infos, t.tried, place) && b <= |t.tried|
    ensures NoRepeats(Flat(t.tried[..b]))
    ensures forall id :: id in Flat(t.tried[..b]) ==> id in TriedIds(t.infos) && place(t.infos[id].service) < b
  {
    if b > 0 {
      FlatAgrees(t, place, b - 1);
      FlatNext(t.tried, b - 1);
      assert BucketOk(t.infos, t.tried[b - 1], b - 1, place);
      var before, bucket := Flat(t.tried[..b - 1]), t.tried[b - 1];
      forall i, j | 0 <= i < j < |before + bucket|
        ensures (before + bucket)[i] != (before + bucket)[j]
      {
        if i < |before| <= j {
          assert before[i] in before && bucket[j - |before|] in bucket;
        }
      }
    }
  }

  /** After any run of the operations the check finds nothing. */
  method CheckAfterRun(m: AddrMan.Manager, calls: seq<AddrMan.Call>) returns (code: int)
    requires m.Valid() && forall k :: 0 <= k < |calls| ==> calls[k].Allowed()
    modifies m
    ensures m.Valid() && code == 0
  {
    m.Run(calls);
    var t := Tables(m.idCount, m.infos, m.ids, m.random, m.triedCount, m.tried, m.newCount, m.news);
    AgreeIsConsistent(t, m.place);
    code := Check(t);
  }
}
