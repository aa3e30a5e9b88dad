/** The disk format of the address manager.  The file holds the entries and the new buckets;
    ids, the random order, the address map and the tried buckets are rebuilt by the reader.
    Writing consistent tables and reading them back gives consistent tables with the same
    entries in the same buckets, up to the numbering of the entries. */
module AddrDisk {
  import opened Basics
  import opened AddrTables
  import AddrMan

  /** The part of an entry that is written. */
  datatype Record = Record(service: Service, services: set<nat>, time: nat, source: Ip, lastSuccess: int, attempts: int)

  /** The values in the stream, in order. */
  datatype Item = Number(n: int) | Key(key: nat) | Address(record: Record)

  /** The bucket functions, given the secret key. */
  type TriedHash = nat -> (Service -> nat)
  type NewHash = nat -> ((Service, Ip) -> nat)

  function Saved(info: Info): Record {
    Record(info.service, info.services, info.time, info.source, info.lastSuccess, info.attempts)
  }

  function Loaded(r: Record, inTried: bool, randomPos: int): Info {
    Info(r.service, r.services, r.time, r.source, r.lastSuccess, 0, r.attempts, 0, inTried, randomPos)
  }

  /** A default-constructed entry. */
  const BLANK := Info(Service(0, 0), {}, 0, 0, 0, 0, 0, 0, false, -1)

  // What a file of consistent tables looks like

  ghost predicate Increasing(order: seq<int>) {
    forall i, j :: 0 <= i < j < |order| ==> order[i] < order[j]
  }

  ghost predicate Lists(order: seq<int>, ids: set<int>) {
    && Increasing(order)
    && |order| == |ids|
    && (forall i :: 0 <= i < |order| ==> order[i] in ids)
    && (forall x :: x in ids ==> x in order)
  }

  function Addresses(infos: Infos, order: seq<int>): seq<Item>
    requires forall i :: 0 <= i < |order| ==> order[i] in infos
  {
    seq(|order|, i requires 0 <= i < |order| => Address(Saved(infos[order[i]])))
  }

  function Numbers(xs: seq<int>): seq<Item> {
    seq(|xs|, i requires 0 <= i < |xs| => Number(xs[i]))
  }

  function Packed(lists: seq<seq<int>>): seq<Item> {
    if lists == [] then [] else [Number(|lists[0]|)] + Numbers(lists[0]) + Packed(lists[1..])
  }

  /** `list` names the entries of a new bucket by their position in `order`. */
  ghost predicate BucketListed(list: seq<int>, bucket: set<int>, order: seq<int>) {
    && NoRepeats(list)
    && (forall k :: 0 <= k < |list| ==> 0 <= list[k] < |order| && order[list[k]] in bucket)
    && (forall n :: 0 <= n < |order| && order[n] in bucket ==> n in list)
  }

  ghost predicate BucketsListed(lists: seq<seq<int>>, news: seq<set<int>>, order: seq<int>) {
    && |lists| == |news|
    && (forall b :: 0 <= b < |news| ==> BucketListed(lists[b], news[b], order))
  }

  function Header(key: nat, newCount: int, triedCount: int, buckets: int): seq<Item> {
    [Number(0), Key(key), Number(newCount), Number(triedCount), Number(buckets)]
  }

  /** The order of the entries and the lists of the new buckets in a file. */
  datatype Layout = Layout(newOrder: seq<int>, triedOrder: seq<int>, lists: seq<seq<int>>)

  ghost predicate LaidOut(t: Tables, l: Layout) {
    && Lists(l.newOrder, NewIds(t.infos))
    && Lists(l.triedOrder, TriedIds(t.infos))
    && BucketsListed(l.lists, t.news, l.newOrder)
  }

  ghost predicate IsFile(s: seq<Item>, key: nat, t: Tables, l: Layout) {
    && LaidOut(t, l)
    && s == Header(key, t.newCount, t.triedCount, NEW_BUCKET_COUNT)
            + (Addresses(t.infos, l.newOrder) + (Addresses(t.infos, l.triedOrder) + Packed(l.lists)))
  }

  // Writing

  /** The counters and marks the writer goes by are right. */
  ghost predicate Counted(t: Tables) {
    && (forall id :: id in t.infos ==> (t.infos[id].refCount != 0 <==> !t.infos[id].inTried))
    && t.newCount == |NewIds(t.infos)|
    && t.triedCount == |TriedIds(t.infos)|
  }

  lemma AgreeCounted(t: Tables, place: Service -> nat)
    requires Agree(t, place)
    ensures Counted(t)
  {
    forall id | id in t.infos && !t.infos[id].inTried
      ensures t.infos[id].refCount != 0
    {
      assert RefCountOk(t.infos[id].refCount, t.news, id, -1, 0);
    }
  }

  /** `order` is the part of `all` that lies in `ids`. */
  ghost predicate Picks(order: seq<int>, all: seq<int>, ids: set<int>) {
    && Increasing(order)
    && (forall i :: 0 <= i < |order| ==> order[i] in all && order[i] in ids)
    && (forall x :: x in all && x in ids ==> x in order)
  }

  lemma PickNext(order: seq<int>, all: seq<int>, i: nat, ids: set<int>)
    requires i < |all| && Increasing(all) && Picks(order, all[..i], ids)
    ensures Picks(if all[i] in ids then order + [all[i]] else order, all[..i + 1], ids)
  {
    assert all[..i + 1] == all[..i] + [all[i]];
    forall k | 0 <= k < |order|
      ensures order[k] < all[i]
    {
      assert order[k] in all[..i];
    }
  }

  /** A part that is as large as the whole is the whole. */
  lemma PickedAll(order: seq<int>, all: seq<int>, ids: set<int>)
    requires Picks(order, all, ids)
    requires |order| == |ids| || forall x :: x in ids ==> x in all
    ensures Lists(order, ids)
  {
    var picked := set k | 0 <= k < |order| :: order[k];
    DistinctLength(order);
    forall x | x in picked
      ensures x in ids
    {
      assert x in order;
    }
    if |order| != |ids| {
      forall x | x in ids
        ensures x in picked
      {
        assert x in order;
      }
    }
    assert ids == picked + (ids - picked);
    assert ids - picked == {};
    forall x | x in ids
      ensures x in order
    {
      assert x in picked;
    }
  }

  /** The new entries, with the position of each in the file. */
  method WriteNew(t: Tables) returns (out: seq<Item>, index: map<int, int>, ghost order: seq<int>)
    ensures Counted(t) ==> Lists(order, NewIds(t.infos)) && out == Addresses(t.infos, order)
    ensures Counted(t) ==> forall n :: 0 <= n < |order| ==> order[n] in index && index[order[n]] == n
  {
    out, index, order := [], map[], [];
    var all := AddrMan.Ascending(t.infos.Keys);
    var i, count := 0, 0;
    while i < |all|
      invariant 0 <= i <= |all| && count == |order|
      invariant forall k :: 0 <= k < |order| ==> order[k] in t.infos
      invariant out == Addresses(t.infos, order)
      invariant forall n :: 0 <= n < |order| ==> order[n] in index && index[order[n]] == n
      invariant forall n :: 0 <= n < |order| ==> order[n] in all[..i]
      invariant Counted(t) ==> Picks(order, all[..i], NewIds(t.infos))
    {
      if count == t.newCount {
        break;
      }
      var id := all[i];
      assert id in all && id !in all[..i];
      index := index[id := count];
      if Counted(t) {
        PickNext(order, all, i, NewIds(t.infos));
      }
      if t.infos[id].refCount != 0 {
        out := out + [Address(Saved(t.infos[id]))];
        order := order + [id];
        count := count + 1;
      }
      assert all[..i + 1] == all[..i] + [id];
      i := i + 1;
    }
    if Counted(t) {
      if i == |all| {
        assert all[..i] == all;
        PickedInAll(t.infos, all, NewIds(t.infos));
      }
      PickedAll(order, all[..i], NewIds(t.infos));
    }
  }

  lemma PickedInAll(infos: Infos, all: seq<int>, ids: set<int>)
    requires forall x :: x in all <==> x in infos.Keys
    requires ids <= infos.Keys
    ensures forall x :: x in ids ==> x in all
  {
  }

  /** The tried entries. */
  method WriteTried(t: Tables) returns (out: seq<Item>, ghost order: seq<int>)
    ensures Counted(t) ==> Lists(order, TriedIds(t.infos)) && out == Addresses(t.infos, order)
  {
    out, order := [], [];
    var all := AddrMan.Ascending(t.infos.Keys);
    var i, count := 0, 0;
    while i < |all|
      invariant 0 <= i <= |all| && count == |order|
      invariant forall k :: 0 <= k < |order| ==> order[k] in t.infos
      invariant out == Addresses(t.infos, order)
      invariant Counted(t) ==> Picks(order, all[..i], TriedIds(t.infos))
    {
      if count == t.triedCount {
        break;
      }
      var id := all[i];
      assert id in all;
      if Counted(t) {
        PickNext(order, all, i, TriedIds(t.infos));
      }
      if t.infos[id].inTried {
        out := out + [Address(Saved(t.infos[id]))];
        order := order + [id];
        count := count + 1;
      }
      i := i + 1;
    }
    if Counted(t) {
      if i == |all| {
        assert all[..i] == all;
        PickedInAll(t.infos, all, TriedIds(t.infos));
      }
      PickedAll(order, all[..i], TriedIds(t.infos));
    }
  }

  /** One new bucket as a list of positions in the file. */
  method WriteBucket(bucket: set<int>, index: map<int, int>, ghost order: seq<int>)
    returns (out: seq<Item>, ghost list: seq<int>)
    ensures out == Numbers(list) && |list| == |bucket|
    ensures Indexes(order, index) && (forall x :: x in bucket ==> x in order) ==> BucketListed(list, bucket, order)
  {
    out, list := [], [];
    var members := AddrMan.Ascending(bucket);
    for i := 0 to |members|
      invariant out == Numbers(list) && |list| == i
      invariant forall k :: 0 <= k < i ==> list[k] == At(index, members[k])
    {
      list := list + [At(index, members[i])];
      out := out + [Number(At(index, members[i]))];
    }
    if Indexes(order, index) && (forall x :: x in bucket ==> x in order) {
      Bucketed(bucket, index, order, members, list);
    }
  }

  /** Looking up a position; a missing one reads as 0. */
  function At(index: map<int, int>, id: int): int {
    if id in index then index[id] else 0
  }

  ghost predicate Indexes(order: seq<int>, index: map<int, int>) {
    && Increasing(order)
    && (forall n :: 0 <= n < |order| ==> order[n] in index && index[order[n]] == n)
  }

  lemma Bucketed(bucket: set<int>, index: map<int, int>, order: seq<int>, members: seq<int>, list: seq<int>)
    requires Indexes(order, index) && forall x :: x in bucket ==> x in order
    requires Increasing(members) && forall x :: x in members <==> x in bucket
    requires |list| == |members| && forall k :: 0 <= k < |list| ==> list[k] == At(index, members[k])
    ensures BucketListed(list, bucket, order)
  {
    forall k | 0 <= k < |list|
      ensures 0 <= list[k] < |order| && order[list[k]] == members[k] && members[k] in bucket
    {
      assert members[k] in members;
      var n :| 0 <= n < |order| && order[n] == members[k];
    }
    forall n | 0 <= n < |order| && order[n] in bucket
      ensures n in list
    {
      var x := order[n];
      assert x in members <==> x in bucket;
      var k :| 0 <= k < |members| && members[k] == x;
      assert list[k] == n;
    }
  }

  /** The new buckets, each with its size before it. */
  method WriteBuckets(news: seq<set<int>>, index: map<int, int>, ghost order: seq<int>)
    returns (out: seq<Item>, ghost lists: seq<seq<int>>)
    ensures out == Packed(lists) && |lists| == |news|
    ensures Indexes(order, index) && (forall b, x :: 0 <= b < |news| && x in news[b] ==> x in order)
            ==> BucketsListed(lists, news, order)
  {
    out, lists := [], [];
    for b := 0 to |news|
      invariant out == Packed(lists) && |lists| == b
      invariant Indexes(order, index) && (forall k, x :: 0 <= k < |news| && x in news[k] ==> x in order)
                ==> forall k :: 0 <= k < b ==> BucketListed(lists[k], news[k], order)
    {
      var part;
      ghost var list;
      part, list := WriteBucket(news[b], index, order);
      PackedSnoc(lists, list);
      out := out + ([Number(|news[b]|)] + part);
      lists := lists + [list];
    }
  }

  lemma {:induction false} PackedSnoc(lists: seq<seq<int>>, list: seq<int>)
    ensures Packed(lists + [list]) == Packed(lists) + ([Number(|list|)] + Numbers(list))
  {
    if lists == [] {
      assert lists + [list] == [list];
      assert [list][1..] == [];
    } else {
      PackedSnoc(lists[1..], list);
      assert (lists + [list])[1..] == lists[1..] + [list];
    }
  }

  lemma NewsInOrder(t: Tables, place: Service -> nat, newOrder: seq<int>)
    requires Agree(t, place) && Lists(newOrder, NewIds(t.infos))
    ensures |t.news| == NEW_BUCKET_COUNT && forall b, x :: 0 <= b < |t.news| && x in t.news[b] ==> x in newOrder
  {
    forall b, x | 0 <= b < |t.news| && x in t.news[b]
      ensures x in newOrder
    {
      assert x in NewIds(t.infos);
    }
  }

  /** The writing half of the serializer. */
  method Write(key: nat, t: Tables, ghost place: Service -> nat) returns (s: seq<Item>, ghost l: Layout)
    ensures Agree(t, place) ==> IsFile(s, key, t, l)
  {
    var news, index, trieds, buckets;
    ghost var newOrder, triedOrder, lists;
    news, index, newOrder := WriteNew(t);
    trieds, triedOrder := WriteTried(t);
    buckets, lists := WriteBuckets(t.news, index, newOrder);
    l := Layout(newOrder, triedOrder, lists);
    s := Header(key, t.newCount, t.triedCount, NEW_BUCKET_COUNT) + news + trieds + buckets;
    if Agree(t, place) {
      AgreeCounted(t, place);
      NewsInOrder(t, place, newOrder);
      hide Agree;
      assert IsFile(s, key, t, l);
    }
  }

  // Reading

  /** The first `n` entries of a file are in the tables; from entry `tried` on they are tried. */
  ghost predicate EntriesLoaded(t: Tables, order: seq<int>, tried: nat, n: nat, infos: Infos, ids: map<Ip, int>,
                                random: seq<int>) {
    && n <= |order| == |random| + (|order| - n)
    && (forall k :: 0 <= k < |order| ==> order[k] in t.infos)
    && (forall k :: k in infos <==> 0 <= k < n)
    && (forall k :: 0 <= k < n ==> infos[k] == Loaded(Saved(t.infos[order[k]]), k >= tried, k))
    && (forall k :: 0 <= k < n ==> random[k] == k)
    && (forall k :: 0 <= k < n ==> infos[k].service.ip in ids && ids[infos[k].service.ip] == k)
    && (forall a :: a in ids ==> 0 <= ids[a] < n && infos[ids[a]].service.ip == a)
  }

  lemma LoadEntry(t: Tables, order: seq<int>, tried: nat, n: nat, infos: Infos, ids: map<Ip, int>, random: seq<int>,
                  info: Info)
    requires EntriesLoaded(t, order, tried, n, infos, ids, random)
    requires IdsOk(t.infos, t.ids) && NoRepeats(order)
    requires n < |order| && info == Loaded(Saved(t.infos[order[n]]), n >= tried, |random|)
    ensures EntriesLoaded(t, order, tried, n + 1, infos[n := info], ids[info.service.ip := n], random + [n])
  {
    assert forall k :: 0 <= k < n ==> order[k] != order[n];
  }

  ghost predicate AllNew(t: Tables, order: seq<int>, tried: nat) {
    && IdsOk(t.infos, t.ids)
    && NoRepeats(order)
    && tried <= |order|
    && (forall k :: 0 <= k < |order| ==> order[k] in t.infos)
  }

  /** Read the new entries.  If the file has another number of new buckets, every entry goes into
      the bucket of its own source. */
  method ReadNew(input: seq<Item>, count: int, buckets: int, newPlace: (Service, Ip) -> nat,
                 ghost valid: bool, ghost t: Tables, ghost order: seq<int>, ghost tried: nat, ghost tail: seq<Item>)
    returns (ok: bool, rest: seq<Item>, infos: Infos, ids: map<Ip, int>, random: seq<int>, news: seq<set<int>>)
    requires forall s, src :: newPlace(s, src) < NEW_BUCKET_COUNT
    requires valid ==> AllNew(t, order, tried) && count == tried && buckets == NEW_BUCKET_COUNT
    requires valid ==> input == Addresses(t.infos, order[..tried]) + tail
    ensures |news| == NEW_BUCKET_COUNT
    ensures valid ==> ok && rest == tail && EntriesLoaded(t, order, tried, tried, infos, ids, random)
    ensures valid ==> forall b :: 0 <= b < |news| ==> news[b] == {}
  {
    ok, rest, infos, ids, random := true, input, map[], map[], [];
    news := seq(NEW_BUCKET_COUNT, _ => {});
    ghost var all := if valid then Addresses(t.infos, order[..tried]) else [];
    var n := 0;
    while n < count
      invariant 0 <= n && |news| == NEW_BUCKET_COUNT
      invariant valid ==> n <= tried && rest == all[n..] + tail
      invariant valid ==> EntriesLoaded(t, order, tried, n, infos, ids, random)
      invariant valid ==> forall b :: 0 <= b < |news| ==> news[b] == {}
    {
      if rest == [] || !rest[0].Address? {
        return false, rest, infos, ids, random, news;
      }
      var info := Loaded(rest[0].record, false, |random|);
      if valid {
        LoadEntry(t, order, tried, n, infos, ids, random, info);
      }
      rest, ids, random := rest[1..], ids[info.service.ip := n], random + [n];
      if buckets != NEW_BUCKET_COUNT {
        var b := newPlace(info.service, info.source);
        news := news[b := news[b] + {n}];
        info := info.(refCount := info.refCount + 1);
      }
      infos := infos[n := info];
      n := n + 1;
    }
  }

  /** The tried entries numbered below `n` are in the tried buckets. */
  ghost predicate TriedLoaded(t: Tables, order: seq<int>, first: nat, n: nat, tried: seq<seq<int>>,
                              place: Service -> nat)
    requires first <= n <= |order| && forall k :: 0 <= k < |order| ==> order[k] in t.infos
  {
    && |tried| == TRIED_BUCKET_COUNT
    && (forall b :: 0 <= b < |tried| ==> TriedBucketLoaded(t, order, first, n, tried[b], b, place))
    && (forall k :: first <= k < n ==> InItsBucket(t, order, k, tried, place))
  }

  ghost predicate TriedBucketLoaded(t: Tables, order: seq<int>, first: nat, n: nat, bucket: seq<int>, b: nat,
                                    place: Service -> nat)
    requires first <= n <= |order| && forall k :: 0 <= k < |order| ==> order[k] in t.infos
  {
    && NoRepeats(bucket)
    && |bucket| <= TRIED_BUCKET_SIZE
    && (forall i :: 0 <= i < |bucket| ==> first <= bucket[i] < n && place(t.infos[order[bucket[i]]].service) == b)
  }

  ghost predicate InItsBucket(t: Tables, order: seq<int>, k: nat, tried: seq<seq<int>>, place: Service -> nat)
    requires k < |order| && order[k] in t.infos
  {
    var b := place(t.infos[order[k]].service);
    b < |tried| && k in tried[b]
  }

  ghost predicate AllTried(t: Tables, order: seq<int>, first: nat, place: Service -> nat) {
    && AllNew(t, order, first)
    && TriedOk(t.infos, t.tried, place)
    && (forall k :: first <= k < |order| ==> t.infos[order[k]].inTried)
  }

  /** A bucket that is being rebuilt has room for every entry that was in it. */
  lemma RoomLeft(t: Tables, order: seq<int>, first: nat, n: nat, bucket: seq<int>, b: nat, place: Service -> nat)
    requires AllTried(t, order, first, place) && first <= n < |order| && b < |t.tried|
    requires TriedBucketLoaded(t, order, first, n, bucket, b, place) && place(t.infos[order[n]].service) == b
    ensures |bucket| < TRIED_BUCKET_SIZE
  {
    var full := t.tried[b];
    assert BucketOk(t.infos, full, b, place);
    var was := seq(|bucket|, i requires 0 <= i < |bucket| => order[bucket[i]]) + [order[n]];
    assert NoRepeats(was) by {
      forall i, j | 0 <= i < j < |was|
        ensures was[i] != was[j]
      {
        assert bucket[i] < n;
      }
    }
    forall i | 0 <= i < |was|
      ensures was[i] in full
    {
      assert was[i] == if i < |bucket| then order[bucket[i]] else order[n];
      assert t.infos[was[i]].inTried;
    }
    DistinctLength(was);
    DistinctLength(full);
    var small, large := set i | 0 <= i < |was| :: was[i], set i | 0 <= i < |full| :: full[i];
    forall x | x in small
      ensures x in large
    {
      assert x in full;
    }
    assert large == small + (large - small);
  }

  lemma LoadTried(t: Tables, order: seq<int>, first: nat, n: nat, tried: seq<seq<int>>, b: nat, place: Service -> nat)
    requires AllTried(t, order, first, place) && first <= n < |order|
    requires TriedLoaded(t, order, first, n, tried, place) && b == place(t.infos[order[n]].service) < |tried|
    ensures |tried[b]| < TRIED_BUCKET_SIZE
    ensures TriedLoaded(t, order, first, n + 1, tried[b := tried[b] + [n]], place)
  {
    assert TriedBucketLoaded(t, order, first, n, tried[b], b, place);
    RoomLeft(t, order, first, n, tried[b], b, place);
    var tried' := tried[b := tried[b] + [n]];
    forall c | 0 <= c < |tried'|
      ensures TriedBucketLoaded(t, order, first, n + 1, tried'[c], c, place)
    {
      assert TriedBucketLoaded(t, order, first, n, tried[c], c, place);
    }
    forall k | first <= k < n + 1
      ensures InItsBucket(t, order, k, tried', place)
    {
      if k < n {
        assert InItsBucket(t, order, k, tried, place);
      }
    }
  }

  lemma AddressesAt(infos: Infos, order: seq<int>, first: nat, n: nat)
    requires first + n < |order| && forall k :: 0 <= k < |order| ==> order[k] in infos
    ensures Addresses(infos, order[first..])[n] == Address(Saved(infos[order[first + n]]))
  {
  }

  lemma LoadTriedEntry(t: Tables, order: seq<int>, first: nat, n: nat, infos: Infos, ids: map<Ip, int>,
                       random: seq<int>, info: Info,
                       tried: seq<seq<int>>, b: nat, place: Service -> nat)
    requires AllTried(t, order, first, place) && first <= n < |order|
    requires EntriesLoaded(t, order, first, n, infos, ids, random)
    requires TriedLoaded(t, order, first, n, tried, place)
    requires info == Loaded(Saved(t.infos[order[n]]), true, |random|) && b == place(info.service) < |tried|
    ensures |tried[b]| < TRIED_BUCKET_SIZE
    ensures EntriesLoaded(t, order, first, n + 1, infos[n := info], ids[info.service.ip := n], random + [n])
    ensures TriedLoaded(t, order, first, n + 1, tried[b := tried[b] + [n]], place)
  {
    LoadEntry(t, order, first, n, infos, ids, random, info);
    LoadTried(t, order, first, n, tried, b, place);
  }

  /** What is to be read: `all` from position `n` on, then `tail`. */
  ghost predicate Remaining(rest: seq<Item>, all: seq<Item>, n: nat, tail: seq<Item>) {
    n <= |all| && rest == all[n..] + tail
  }

  lemma RemainingNext(rest: seq<Item>, all: seq<Item>, n: nat, tail: seq<Item>)
    requires Remaining(rest, all, n, tail) && n < |all|
    ensures rest != [] && rest[0] == all[n] && Remaining(rest[1..], all, n + 1, tail)
  {
  }

  /** The tables while the tried entries are read; `lost` counts those that found their bucket full. */
  datatype Reader = Reader(
    rest: seq<Item>,
    infos: Infos,
    ids: map<Ip, int>,
    random: seq<int>,
    tried: seq<seq<int>>,
    idCount: int,
    lost: int)

  predicate AtAddress(r: Reader) {
    r.rest != [] && r.rest[0].Address? && |r.tried| == TRIED_BUCKET_COUNT
  }

  /** Read one tried entry into its bucket. */
  function TriedStep(r: Reader, place: Service -> nat): Reader
    requires AtAddress(r) && forall s :: place(s) < TRIED_BUCKET_COUNT
  {
    var info := Loaded(r.rest[0].record, true, |r.random|);
    var b := place(info.service);
    if |r.tried[b]| < TRIED_BUCKET_SIZE then
      Reader(r.rest[1..], r.infos[r.idCount := info], r.ids[info.service.ip := r.idCount], r.random + [r.idCount],
             r.tried[b := r.tried[b] + [r.idCount]], r.idCount + 1, r.lost)
    else
      r.(rest := r.rest[1..], lost := r.lost + 1)
  }

  /** After `n` tried entries nothing is lost. */
  ghost predicate ReaderOk(t: Tables, order: seq<int>, first: nat, n: nat, r: Reader, tail: seq<Item>,
                           place: Service -> nat) {
    && AllTried(t, order, first, place)
    && first + n <= |order|
    && Remaining(r.rest, Addresses(t.infos, order[first..]), n, tail)
    && EntriesLoaded(t, order, first, first + n, r.infos, r.ids, r.random)
    && TriedLoaded(t, order, first, first + n, r.tried, place)
    && r.idCount == first + n
    && r.lost == 0
  }

  lemma TriedStepOk(t: Tables, order: seq<int>, first: nat, n: nat, r: Reader, tail: seq<Item>, place: Service -> nat)
    requires ReaderOk(t, order, first, n, r, tail, place) && first + n < |order|
    requires forall s :: place(s) < TRIED_BUCKET_COUNT
    ensures AtAddress(r) && ReaderOk(t, order, first, n + 1, TriedStep(r, place), tail, place)
  {
    var all := Addresses(t.infos, order[first..]);
    assert |r.tried| == TRIED_BUCKET_COUNT && forall k :: 0 <= k < |order| ==> order[k] in t.infos;
    hide EntriesLoaded, TriedLoaded, AllTried, Remaining;
    RemainingNext(r.rest, all, n, tail);
    AddressesAt(t.infos, order, first, n);
    var info := Loaded(r.rest[0].record, true, |r.random|);
    LoadTriedEntry(t, order, first, first + n, r.infos, r.ids, r.random, info, r.tried, place(info.service), place);
  }

  /** Read the tried entries. */
  method ReadTried(start: Reader, count: int, place: Service -> nat,
                   ghost valid: bool, ghost t: Tables, ghost order: seq<int>, ghost first: nat, ghost tail: seq<Item>)
    returns (ok: bool, r: Reader)
    requires |start.tried| == TRIED_BUCKET_COUNT && forall s :: place(s) < TRIED_BUCKET_COUNT
    requires valid ==> ReaderOk(t, order, first, 0, start, tail, place) && first + count == |order|
    ensures valid ==> ok && ReaderOk(t, order, first, count, r, tail, place) && r.rest == tail
  {
    ok, r := true, start;
    assert valid ==> count >= 0;
    hide ReaderOk;
    var n := 0;
    while n < count
      invariant 0 <= n && |r.tried| == TRIED_BUCKET_COUNT
      invariant valid ==> n <= count && ReaderOk(t, order, first, n, r, tail, place)
    {
      if valid {
        TriedStepOk(t, order, first, n, r, tail, place);
      }
      if !AtAddress(r) {
        return false, r;
      }
      r := TriedStep(r, place);
      n := n + 1;
    }
    if valid {
      ReaderDone(t, order, first, n, r, tail, place);
    }
  }

  lemma ReaderDone(t: Tables, order: seq<int>, first: nat, n: nat, r: Reader, tail: seq<Item>, place: Service -> nat)
    requires ReaderOk(t, order, first, n, r, tail, place) && first + n == |order|
    ensures r.rest == tail
  {
  }

  /** A bucket of numbers for a bucket of ids. */
  ghost predicate Restored(bucket: set<int>, was: set<int>, order: seq<int>) {
    forall n :: n in bucket <==> 0 <= n < |order| && order[n] in was
  }

  /** The new buckets below `b` hold what they held, bucket `b` holds `done`, and the rest is empty. */
  ghost predicate NewsLoaded(t: Tables, order: seq<int>, b: nat, done: seq<int>, news: seq<set<int>>) {
    && |news| == |t.news|
    && (forall k :: 0 <= k < b && k < |news| ==> Restored(news[k], t.news[k], order))
    && (forall n :: b < |news| ==> (n in news[b] <==> n in done))
    && (forall k :: b < k < |news| ==> news[k] == {})
  }

  /** Only reference counts changed, and they count the buckets. */
  ghost predicate RefsLoaded(infos0: Infos, infos: Infos, news: seq<set<int>>, count: nat) {
    && infos.Keys == infos0.Keys
    && (forall n :: n in infos ==> infos[n] == infos0[n].(refCount := infos[n].refCount))
    && (forall n :: 0 <= n < count ==> n in infos && infos[n].refCount == |Buckets(news, n)|)
    && (forall n :: n in infos && n >= count ==> infos[n].refCount == infos0[n].refCount)
  }

  /** The new entries are in at most four buckets. */
  ghost predicate AllListed(t: Tables, order: seq<int>, lists: seq<seq<int>>) {
    && |t.news| == NEW_BUCKET_COUNT
    && BucketsListed(lists, t.news, order)
    && (forall n :: 0 <= n < |order| ==> |Buckets(t.news, order[n])| <= NEW_BUCKETS_PER_ADDRESS)
  }

  /** Put the entry numbered `n` into new bucket `b`, unless it is in four buckets already. */
  function BucketStep(infos: Infos, news: seq<set<int>>, b: nat, n: int, same: bool): (r: (Infos, seq<set<int>>))
    requires same ==> b < |news|
    ensures |r.1| == |news|
  {
    var info := if n in infos then infos[n] else BLANK;
    if same && info.refCount < NEW_BUCKETS_PER_ADDRESS then
      (infos[n := info.(refCount := info.refCount + 1)], news[b := news[b] + {n}])
    else
      (infos[n := info], news)
  }

  /** Bucket `b` is being read: `i` of its entries are in place. */
  ghost predicate Filling(t: Tables, order: seq<int>, lists: seq<seq<int>>, b: nat, i: nat, start: Infos, infos: Infos,
                          news: seq<set<int>>) {
    && AllListed(t, order, lists)
    && b < |lists|
    && i <= |lists[b]|
    && NewsLoaded(t, order, b, lists[b][..i], news)
    && RefsLoaded(start, infos, news, |order|)
  }

  /** An entry that is still to come in bucket `b` is in fewer than four buckets so far. */
  lemma RoomForRef(t: Tables, order: seq<int>, lists: seq<seq<int>>, b: nat, i: nat, start: Infos, infos: Infos,
                   news: seq<set<int>>)
    requires b < |lists| && i < |lists[b]| && Filling(t, order, lists, b, i, start, infos, news)
    ensures var n := lists[b][i];
            0 <= n < |order| && n in infos && n !in news[b] && infos[n].refCount < NEW_BUCKETS_PER_ADDRESS
  {
    assert BucketListed(lists[b], t.news[b], order);
    var n := lists[b][i];
    assert n !in lists[b][..i];
    var now, was := Buckets(news, n), Buckets(t.news, order[n]);
    forall k | k in now
      ensures k in was && k != b
    {
      assert n in news[k];
      assert k < b ==> Restored(news[k], t.news[k], order);
    }
    assert order[n] in t.news[b];
    assert b in was && b !in now;
    assert was == (now + {b}) + (was - (now + {b}));
  }

  lemma FillNews(t: Tables, order: seq<int>, lists: seq<seq<int>>, b: nat, i: nat, news: seq<set<int>>)
    requires b < |lists| && i < |lists[b]| && b < |news| && NewsLoaded(t, order, b, lists[b][..i], news)
    ensures NewsLoaded(t, order, b, lists[b][..i + 1], news[b := news[b] + {lists[b][i]}])
  {
    assert lists[b][..i + 1] == lists[b][..i] + [lists[b][i]];
  }

  lemma FillRefs(start: Infos, infos: Infos, news: seq<set<int>>, count: nat, b: nat, n: nat)
    requires RefsLoaded(start, infos, news, count) && b < |news| && n < count && n !in news[b]
    ensures n in infos
    ensures RefsLoaded(start, infos[n := infos[n].(refCount := infos[n].refCount + 1)], news[b := news[b] + {n}], count)
  {
    BucketsInsert(news, b, n);
  }

  lemma FillNext(t: Tables, order: seq<int>, lists: seq<seq<int>>, b: nat, i: nat, start: Infos, infos: Infos,
                 news: seq<set<int>>)
    requires b < |lists| && i < |lists[b]| && Filling(t, order, lists, b, i, start, infos, news)
    ensures b < |news|
    ensures var r := BucketStep(infos, news, b, lists[b][i], true);
            Filling(t, order, lists, b, i + 1, start, r.0, r.1)
  {
    RoomForRef(t, order, lists, b, i, start, infos, news);
    FillNews(t, order, lists, b, i, news);
    FillRefs(start, infos, news, |order|, b, lists[b][i]);
  }

  /** The same, with what is still to be read. */
  ghost predicate FillingFrom(t: Tables, order: seq<int>, lists: seq<seq<int>>, b: nat, i: nat, start: Infos,
                              rest: seq<Item>, infos: Infos, news: seq<set<int>>, tail: seq<Item>) {
    Filling(t, order, lists, b, i, start, infos, news) && b < |lists| && Remaining(rest, Numbers(lists[b]), i, tail)
  }

  lemma FillFromStart(t: Tables, order: seq<int>, lists: seq<seq<int>>, b: nat, start: Infos,
                      rest: seq<Item>, infos: Infos, news: seq<set<int>>, tail: seq<Item>)
    requires Filling(t, order, lists, b, 0, start, infos, news) && b < |lists| && rest == Numbers(lists[b]) + tail
    ensures FillingFrom(t, order, lists, b, 0, start, rest, infos, news, tail)
  {
  }

  lemma FillFromNext(t: Tables, order: seq<int>, lists: seq<seq<int>>, b: nat, i: nat, start: Infos,
                     rest: seq<Item>, infos: Infos, news: seq<set<int>>, tail: seq<Item>)
    requires FillingFrom(t, order, lists, b, i, start, rest, infos, news, tail) && b < |lists| && i < |lists[b]|
    ensures rest != [] && rest[0].Number? && b < |news|
    ensures var r := BucketStep(infos, news, b, rest[0].n, true);
            FillingFrom(t, order, lists, b, i + 1, start, rest[1..], r.0, r.1, tail)
  {
    RemainingNext(rest, Numbers(lists[b]), i, tail);
    FillNext(t, order, lists, b, i, start, infos, news);
  }

  lemma FillFromDone(t: Tables, order: seq<int>, lists: seq<seq<int>>, b: nat, i: nat, start: Infos,
                     rest: seq<Item>, infos: Infos, news: seq<set<int>>, tail: seq<Item>)
    requires FillingFrom(t, order, lists, b, i, start, rest, infos, news, tail) && b < |lists| && i == |lists[b]|
    ensures rest == tail && Filling(t, order, lists, b, i, start, infos, news)
  {
  }

  /** Read the entries of one new bucket. */
  method ReadBucket(input: seq<Item>, size: int, b: nat, same: bool, infos0: Infos, news0: seq<set<int>>,
                    ghost valid: bool, ghost t: Tables, ghost order: seq<int>, ghost lists: seq<seq<int>>,
                    ghost start: Infos, ghost tail: seq<Item>)
    returns (ok: bool, rest: seq<Item>, infos: Infos, news: seq<set<int>>)
    requires same ==> b < |news0|
    requires valid ==> same && b < |lists| && size == |lists[b]| && Filling(t, order, lists, b, 0, start, infos0, news0)
    requires valid ==> input == Numbers(lists[b]) + tail
    ensures |news| == |news0|
    ensures valid ==> ok && rest == tail && Filling(t, order, lists, b, |lists[b]|, start, infos, news)
  {
    ok, rest, infos, news := true, input, infos0, news0;
    hide FillingFrom, BucketStep;
    if valid {
      FillFromStart(t, order, lists, b, start, rest, infos, news, tail);
    }
    var i := 0;
    while i < size
      invariant 0 <= i && |news| == |news0|
      invariant valid ==> i <= size && FillingFrom(t, order, lists, b, i, start, rest, infos, news, tail)
    {
      if valid {
        FillFromNext(t, order, lists, b, i, start, rest, infos, news, tail);
      }
      if rest == [] || !rest[0].Number? {
        return false, rest, infos, news;
      }
      var r := BucketStep(infos, news, b, rest[0].n, same);
      rest, infos, news, i := rest[1..], r.0, r.1, i + 1;
    }
    if valid {
      FillFromDone(t, order, lists, b, i, start, rest, infos, news, tail);
    }
  }

  lemma NextBucket(t: Tables, order: seq<int>, lists: seq<seq<int>>, b: nat, start: Infos, infos: Infos,
                   news: seq<set<int>>)
    requires b < |lists| && Filling(t, order, lists, b, |lists[b]|, start, infos, news)
    ensures NewsLoaded(t, order, b + 1, [], news) && RefsLoaded(start, infos, news, |order|)
  {
    var list := lists[b];
    assert list[..|list|] == list;
    assert BucketListed(list, t.news[b], order);
    forall n
      ensures n in news[b] <==> 0 <= n < |order| && order[n] in t.news[b]
    {
      assert n in news[b] <==> n in list;
      if n in list {
        var k :| 0 <= k < |list| && list[k] == n;
      }
    }
    assert Restored(news[b], t.news[b], order);
  }

  lemma FillStart(t: Tables, order: seq<int>, lists: seq<seq<int>>, b: nat, start: Infos, infos: Infos,
                  news: seq<set<int>>)
    requires AllListed(t, order, lists) && b < |lists|
    requires NewsLoaded(t, order, b, [], news) && RefsLoaded(start, infos, news, |order|)
    ensures Filling(t, order, lists, b, 0, start, infos, news)
  {
  }

  /** Read the new buckets. */
  method ReadBuckets(input: seq<Item>, buckets: int, infos0: Infos, news0: seq<set<int>>,
                     ghost valid: bool, ghost t: Tables, ghost order: seq<int>, ghost lists: seq<seq<int>>)
    returns (ok: bool, infos: Infos, news: seq<set<int>>)
    requires |news0| == NEW_BUCKET_COUNT
    requires valid ==> AllListed(t, order, lists) && buckets == NEW_BUCKET_COUNT && input == Packed(lists)
    requires valid ==> NewsLoaded(t, order, 0, [], news0) && RefsLoaded(infos0, infos0, news0, |order|)
    ensures valid ==> ok && NewsLoaded(t, order, NEW_BUCKET_COUNT, [], news) && RefsLoaded(infos0, infos, news, |order|)
  {
    var rest := input;
    ok, infos, news := true, infos0, news0;
    assert valid ==> |lists| == NEW_BUCKET_COUNT && lists[0..] == lists;
    hide NewsLoaded, RefsLoaded, AllListed, Filling, Numbers;
    var b := 0;
    while b < buckets
      invariant 0 <= b && |news| == NEW_BUCKET_COUNT
      invariant valid ==> b <= |lists| && rest == Packed(lists[b..])
      invariant valid ==> NewsLoaded(t, order, b, [], news) && RefsLoaded(infos0, infos, news, |order|)
    {
      assert valid ==> lists[b..][1..] == lists[b + 1..];
      if rest == [] || !rest[0].Number? {
        return false, infos, news;
      }
      var size := rest[0].n;
      ghost var tail := if valid then Packed(lists[b + 1..]) else [];
      if valid {
        FillStart(t, order, lists, b, infos0, infos, news);
      }
      ok, rest, infos, news := ReadBucket(rest[1..], size, b, buckets == NEW_BUCKET_COUNT, infos, news, valid, t,
          order, lists, infos0, tail);
      if !ok {
        return;
      }
      if valid {
        NextBucket(t, order, lists, b, infos0, infos, news);
      }
      b := b + 1;
    }
  }

  // The round trip

  /** `u` is `t` with the entry `order[k]` renumbered to `k`: the same entries with the same
      reference counts in the same tried and new buckets.  The time of the last try is not kept. */
  ghost predicate Renumbered(t: Tables, u: Tables, order: seq<int>) {
    && NoRepeats(order)
    && (forall k :: 0 <= k < |order| ==> order[k] in t.infos)
    && (forall id :: id in t.infos ==> id in order)
    && (forall k :: k in u.infos <==> 0 <= k < |order|)
    && (forall k :: 0 <= k < |order| ==> u.infos[k] == t.infos[order[k]].(lastTry := 0, randomPos := k))
    && |u.tried| == |t.tried|
    && (forall b :: 0 <= b < |t.tried| ==> NoRepeats(u.tried[b]) && SameTried(t.tried[b], u.tried[b], order))
    && |u.news| == |t.news|
    && (forall b :: 0 <= b < |t.news| ==> Restored(u.news[b], t.news[b], order))
    && u.triedCount == t.triedCount
    && u.newCount == t.newCount
  }

  ghost predicate SameTried(was: seq<int>, bucket: seq<int>, order: seq<int>) {
    forall k :: k in bucket <==> 0 <= k < |order| && order[k] in was
  }

  ghost function Order(l: Layout): seq<int> {
    l.newOrder + l.triedOrder
  }

  lemma LayoutListed(t: Tables, l: Layout, place: Service -> nat)
    requires Agree(t, place) && LaidOut(t, l)
    ensures AllListed(t, l.newOrder, l.lists)
  {
    forall n | 0 <= n < |l.newOrder|
      ensures |Buckets(t.news, l.newOrder[n])| <= NEW_BUCKETS_PER_ADDRESS
    {
      var id := l.newOrder[n];
      assert RefCountOk(t.infos[id].refCount, t.news, id, -1, 0);
    }
  }

  /** The new and the tried entries are all entries, each once. */
  lemma OrderAll(t: Tables, l: Layout)
    requires Lists(l.newOrder, NewIds(t.infos)) && Lists(l.triedOrder, TriedIds(t.infos))
    ensures NoRepeats(Order(l))
    ensures forall k :: 0 <= k < |Order(l)| ==> Order(l)[k] in t.infos
    ensures forall id :: id in t.infos ==> id in Order(l)
    ensures forall k :: 0 <= k < |Order(l)| ==> (k < |l.newOrder| <==> !t.infos[Order(l)[k]].inTried)
  {
    forall id | id in t.infos
      ensures id in Order(l)
    {
      if t.infos[id].inTried {
        assert id in TriedIds(t.infos);
      } else {
        assert id in NewIds(t.infos);
      }
    }
    assert forall i :: 0 <= i < |l.newOrder| ==> l.newOrder[i] in NewIds(t.infos);
    assert forall i :: 0 <= i < |l.triedOrder| ==> l.triedOrder[i] in TriedIds(t.infos);
  }

  lemma LayoutOrder(t: Tables, l: Layout, place: Service -> nat)
    requires Agree(t, place) && LaidOut(t, l)
    ensures AllTried(t, Order(l), |l.newOrder|, place) && AllListed(t, l.newOrder, l.lists)
    ensures |l.newOrder| == t.newCount && |l.triedOrder| == t.triedCount
    ensures forall id :: id in t.infos ==> id in Order(l)
    ensures forall k :: 0 <= k < |Order(l)| ==> (k < |l.newOrder| <==> !t.infos[Order(l)[k]].inTried)
  {
    LayoutListed(t, l, place);
    OrderAll(t, l);
    assert |l.newOrder| == t.newCount && |l.triedOrder| == t.triedCount;
    hide NewOk, IdsOk, TriedOk, BucketsListed, AllListed, Lists;
  }

  /** Everything the reader has put together. */
  ghost predicate Assembled(t: Tables, l: Layout, place: Service -> nat, loaded: Infos, u: Tables) {
    && EntriesLoaded(t, Order(l), |l.newOrder|, |Order(l)|, loaded, u.ids, u.random)
    && TriedLoaded(t, Order(l), |l.newOrder|, |Order(l)|, u.tried, place)
    && NewsLoaded(t, l.newOrder, NEW_BUCKET_COUNT, [], u.news)
    && RefsLoaded(loaded, u.infos, u.news, |l.newOrder|)
    && u.idCount == |Order(l)|
    && u.triedCount == t.triedCount
    && u.newCount == t.newCount
  }

  lemma AssembledBuckets(t: Tables, l: Layout, u: Tables, k: nat)
    requires k < |l.newOrder| && |t.news| == NEW_BUCKET_COUNT && NewsLoaded(t, l.newOrder, NEW_BUCKET_COUNT, [], u.news)
    ensures Buckets(u.news, k) == Buckets(t.news, l.newOrder[k])
  {
    forall b | 0 <= b < |u.news|
      ensures b in Buckets(u.news, k) <==> b in Buckets(t.news, l.newOrder[k])
    {
      assert Restored(u.news[b], t.news[b], l.newOrder);
    }
  }

  lemma NewCount(t: Tables, place: Service -> nat, id: int)
    requires Agree(t, place) && id in t.infos && !t.infos[id].inTried
    ensures |t.news| == NEW_BUCKET_COUNT && t.infos[id].refCount == |Buckets(t.news, id)|
  {
    hide RandomOk, IdsOk, TriedOk, CountsOk, TimesOk;
    assert RefCountOk(t.infos[id].refCount, t.news, id, -1, 0);
    IdsBelow(t.infos, t.idCount, t.triedCount, t.newCount);
  }

  lemma TriedCount(t: Tables, place: Service -> nat, id: int)
    requires Agree(t, place) && id in t.infos && t.infos[id].inTried
    ensures t.infos[id].refCount == 0
  {
    hide RandomOk, IdsOk, NewOk, CountsOk, TimesOk;
  }

  lemma AssembledInfo(t: Tables, l: Layout, place: Service -> nat, loaded: Infos, u: Tables, k: nat)
    requires Agree(t, place) && LaidOut(t, l) && Assembled(t, l, place, loaded, u) && k < |Order(l)|
    ensures k in u.infos && u.infos[k] == t.infos[Order(l)[k]].(lastTry := 0, randomPos := k)
  {
    hide RandomOk, IdsOk, TriedOk, NewOk, CountsOk, TimesOk, LaidOut, TriedLoaded, AllTried, AllListed;
    LayoutOrder(t, l, place);
    var id := Order(l)[k];
    assert k in loaded && loaded[k] == Loaded(Saved(t.infos[id]), k >= |l.newOrder|, k);
    if k < |l.newOrder| {
      NewCount(t, place, id);
      AssembledBuckets(t, l, u, k);
    } else {
      TriedCount(t, place, id);
    }
  }

  lemma AssembledNews(t: Tables, l: Layout, place: Service -> nat, loaded: Infos, u: Tables, b: nat)
    requires Agree(t, place) && LaidOut(t, l) && Assembled(t, l, place, loaded, u) && b < |t.news|
    ensures b < |u.news| && Restored(u.news[b], t.news[b], Order(l))
  {
    LayoutOrder(t, l, place);
    assert Restored(u.news[b], t.news[b], l.newOrder);
  }

  lemma AssembledTried(t: Tables, l: Layout, place: Service -> nat, loaded: Infos, u: Tables, b: nat)
    requires Agree(t, place) && LaidOut(t, l) && Assembled(t, l, place, loaded, u) && b < |t.tried|
    ensures b < |u.tried| && NoRepeats(u.tried[b]) && SameTried(t.tried[b], u.tried[b], Order(l))
  {
    LayoutOrder(t, l, place);
    var order, first := Order(l), |l.newOrder|;
    assert TriedBucketLoaded(t, order, first, |order|, u.tried[b], b, place);
    assert BucketOk(t.infos, t.tried[b], b, place);
    forall k
      ensures k in u.tried[b] <==> 0 <= k < |order| && order[k] in t.tried[b]
    {
      if k in u.tried[b] {
        var i :| 0 <= i < |u.tried[b]| && u.tried[b][i] == k;
        assert t.infos[order[k]].inTried;
      }
      if 0 <= k < |order| && order[k] in t.tried[b] {
        assert k >= first;
        assert InItsBucket(t, order, k, u.tried, place);
      }
    }
  }

  lemma AssembledRenumbered(t: Tables, l: Layout, place: Service -> nat, loaded: Infos, u: Tables)
    requires Agree(t, place) && LaidOut(t, l) && Assembled(t, l, place, loaded, u)
    ensures Renumbered(t, u, Order(l))
  {
    LayoutOrder(t, l, place);
    assert |t.tried| == |u.tried| && |u.news| == |t.news|;
    assert forall k :: k in u.infos <==> 0 <= k < |Order(l)| by {
      assert forall k :: k in u.infos <==> k in loaded;
    }
    hide Agree, LaidOut, Assembled, Restored, SameTried;
    forall k | 0 <= k < |Order(l)|
      ensures k in u.infos && u.infos[k] == t.infos[Order(l)[k]].(lastTry := 0, randomPos := k)
    {
      AssembledInfo(t, l, place, loaded, u, k);
    }
    forall b | 0 <= b < |t.news|
      ensures Restored(u.news[b], t.news[b], Order(l))
    {
      AssembledNews(t, l, place, loaded, u, b);
    }
    forall b | 0 <= b < |t.tried|
      ensures NoRepeats(u.tried[b]) && SameTried(t.tried[b], u.tried[b], Order(l))
    {
      AssembledTried(t, l, place, loaded, u, b);
    }
  }

  lemma {:induction false} InjectedSize(a: set<int>, order: seq<int>, c: set<int>)
    requires NoRepeats(order) && forall n :: n in a ==> 0 <= n < |order| && order[n] in c
    ensures |a| <= |c|
  {
    if |a| > 0 {
      NonEmpty(a);
      var n :| n in a;
      InjectedSize(a - {n}, order, c - {order[n]});
    }
  }

  lemma {:induction false} RangeSize(s: set<int>, lo: int, hi: int)
    requires lo <= hi && forall k :: k in s <==> lo <= k < hi
    ensures |s| == hi - lo
    decreases hi - lo
  {
    if lo < hi {
      RangeSize(s - {hi - 1}, lo, hi - 1);
    } else if |s| > 0 {
      NonEmpty(s);
      assert false;
    }
  }

  lemma RenumberedTried(t: Tables, u: Tables, order: seq<int>, place: Service -> nat)
    requires Agree(t, place) && Renumbered(t, u, order)
    ensures TriedOk(u.infos, u.tried, place)
  {
    forall b | 0 <= b < |u.tried|
      ensures BucketOk(u.infos, u.tried[b], b, place)
    {
      var was, bucket := t.tried[b], u.tried[b];
      assert BucketOk(t.infos, was, b, place);
      assert SameTried(was, bucket, order);
      var small, large := set i | 0 <= i < |bucket| :: bucket[i], set i | 0 <= i < |was| :: was[i];
      DistinctLength(bucket);
      DistinctLength(was);
      forall n | n in small
        ensures 0 <= n < |order| && order[n] in large
      {
        assert n in bucket;
      }
      InjectedSize(small, order, large);
    }
    forall k | k in u.infos && u.infos[k].inTried
      ensures 0 <= place(u.infos[k].service) < |u.tried| && k in u.tried[place(u.infos[k].service)]
    {
      var b, id := place(u.infos[k].service), order[k];
      assert id in t.infos && t.infos[id].inTried && id in t.tried[b];
      assert SameTried(t.tried[b], u.tried[b], order);
    }
  }

  lemma RenumberedNew(t: Tables, u: Tables, order: seq<int>, place: Service -> nat)
    requires Agree(t, place) && Renumbered(t, u, order)
    ensures NewOk(u.infos, u.news, -1, 0)
  {
    forall b | 0 <= b < |u.news|
      ensures |u.news[b]| <= NEW_BUCKET_SIZE
    {
      assert Restored(u.news[b], t.news[b], order);
      InjectedSize(u.news[b], order, t.news[b]);
    }
    forall b, k | 0 <= b < |u.news| && k in u.news[b]
      ensures k in u.infos && !u.infos[k].inTried
    {
      assert Restored(u.news[b], t.news[b], order);
      var id := order[k];
      assert id in t.news[b];
    }
    forall k | k in u.infos && !u.infos[k].inTried
      ensures RefCountOk(u.infos[k].refCount, u.news, k, -1, 0)
    {
      var id := order[k];
      assert RefCountOk(t.infos[id].refCount, t.news, id, -1, 0);
      forall b | 0 <= b < |u.news|
        ensures b in Buckets(u.news, k) <==> b in Buckets(t.news, id)
      {
        assert Restored(u.news[b], t.news[b], order);
      }
      assert Buckets(u.news, k) == Buckets(t.news, id);
    }
  }

  lemma AssembledIds(t: Tables, l: Layout, place: Service -> nat, loaded: Infos, u: Tables)
    requires Assembled(t, l, place, loaded, u)
    ensures IdsOk(u.infos, u.ids) && RandomOk(u.infos, u.random)
  {
    hide TriedLoaded, NewsLoaded;
    LoadedIds(t, Order(l), |l.newOrder|, loaded, u.infos, u.ids, u.random);
  }

  lemma LoadedIds(t: Tables, order: seq<int>, first: nat, loaded: Infos, infos: Infos, ids: map<Ip, int>,
                  random: seq<int>)
    requires EntriesLoaded(t, order, first, |order|, loaded, ids, random)
    requires infos.Keys == loaded.Keys
    requires forall k :: k in infos ==> infos[k] == loaded[k].(refCount := infos[k].refCount)
    ensures IdsOk(infos, ids) && RandomOk(infos, random)
  {
    assert forall k :: k in infos <==> k in loaded;
  }

  lemma RenumberedCounts(t: Tables, u: Tables, order: seq<int>, first: nat)
    requires Renumbered(t, u, order) && first <= |order|
    requires forall k :: 0 <= k < |order| ==> (k < first <==> !t.infos[order[k]].inTried)
    ensures |NewIds(u.infos)| == first && |TriedIds(u.infos)| == |order| - first
  {
    hide SameTried, Restored;
    RangeSize(NewIds(u.infos), 0, first);
    RangeSize(TriedIds(u.infos), first, |order|);
  }

  lemma RenumberedTimes(t: Tables, u: Tables, order: seq<int>)
    requires Renumbered(t, u, order) && TimesOk(t.infos)
    ensures TimesOk(u.infos) && forall k :: k in u.infos ==> 0 <= k < |order|
  {
    hide SameTried, Restored;
    forall k | k in u.infos
      ensures u.infos[k].lastTry >= 0 && u.infos[k].lastSuccess >= 0
    {
      var id := order[k];
      assert id in t.infos;
    }
  }

  lemma AssembledAgrees(t: Tables, l: Layout, place: Service -> nat, loaded: Infos, u: Tables)
    requires Agree(t, place) && LaidOut(t, l) && Assembled(t, l, place, loaded, u)
    ensures Agree(u, place)
  {
    AssembledRenumbered(t, l, place, loaded, u);
    LayoutOrder(t, l, place);
    var order, first := Order(l), |l.newOrder|;
    hide TriedOk, NewOk, IdsOk, RandomOk, TimesOk, LaidOut, Renumbered, EntriesLoaded, TriedLoaded, NewsLoaded,
         RefsLoaded, AllTried, AllListed;
    RenumberedTried(t, u, order, place);
    RenumberedNew(t, u, order, place);
    AssembledIds(t, l, place, loaded, u);
    RenumberedCounts(t, u, order, first);
    RenumberedTimes(t, u, order);
  }

  lemma ReaderStart(t: Tables, order: seq<int>, first: nat, place: Service -> nat, start: Reader, tail: seq<Item>)
    requires AllTried(t, order, first, place)
    requires EntriesLoaded(t, order, first, first, start.infos, start.ids, start.random)
    requires start.rest == Addresses(t.infos, order[first..]) + tail
    requires |start.tried| == TRIED_BUCKET_COUNT && forall b :: 0 <= b < |start.tried| ==> start.tried[b] == []
    requires start.idCount == first && start.lost == 0
    ensures ReaderOk(t, order, first, 0, start, tail, place)
  {
  }

  lemma BucketsStart(t: Tables, l: Layout, place: Service -> nat, r: Reader, tail: seq<Item>, news: seq<set<int>>)
    requires ReaderOk(t, Order(l), |l.newOrder|, |l.triedOrder|, r, tail, place)
    requires |news| == |t.news| && forall b :: 0 <= b < |news| ==> news[b] == {}
    ensures NewsLoaded(t, l.newOrder, 0, [], news) && RefsLoaded(r.infos, r.infos, news, |l.newOrder|)
  {
    forall n
      ensures Buckets(news, n) == {}
    {
    }
  }

  lemma AssembledWell(t: Tables, l: Layout, place: Service -> nat, loaded: Infos, u: Tables)
    requires Agree(t, place) && LaidOut(t, l) && Assembled(t, l, place, loaded, u)
    ensures Renumbered(t, u, Order(l)) && Agree(u, place)
  {
    AssembledRenumbered(t, l, place, loaded, u);
    AssembledAgrees(t, l, place, loaded, u);
  }

  lemma AllAssembled(t: Tables, l: Layout, place: Service -> nat, r: Reader, tail: seq<Item>, u: Tables)
    requires ReaderOk(t, Order(l), |l.newOrder|, |l.triedOrder|, r, tail, place)
    requires NewsLoaded(t, l.newOrder, NEW_BUCKET_COUNT, [], u.news)
             && RefsLoaded(r.infos, u.infos, u.news, |l.newOrder|)
    requires u == Tables(r.idCount, u.infos, r.ids, r.random, t.triedCount - r.lost, r.tried, t.newCount, u.news)
    ensures Assembled(t, l, place, r.infos, u)
  {
  }

  /** What the parts of a file after its header hold. */
  ghost predicate IsBody(body: seq<Item>, t: Tables, l: Layout, place: Service -> nat) {
    && Agree(t, place)
    && LaidOut(t, l)
    && AllTried(t, Order(l), |l.newOrder|, place)
    && AllListed(t, l.newOrder, l.lists)
    && |l.newOrder| == t.newCount
    && |l.triedOrder| == t.triedCount
    && body == Addresses(t.infos,
       Order(l)[..|l.newOrder|]) + (Addresses(t.infos, Order(l)[|l.newOrder|..]) + Packed(l.lists))
  }

  lemma BodyFacts(body: seq<Item>, t: Tables, l: Layout, place: Service -> nat)
    requires IsBody(body, t, l, place)
    ensures Agree(t, place) && LaidOut(t, l)
    ensures AllTried(t, Order(l), |l.newOrder|, place) && AllNew(t, Order(l), |l.newOrder|)
    ensures AllListed(t, l.newOrder, l.lists) && |t.news| == NEW_BUCKET_COUNT
    ensures |l.newOrder| == t.newCount && |l.triedOrder| == t.triedCount && |Order(l)| == t.newCount + t.triedCount
    ensures forall k :: 0 <= k < |Order(l)| ==> Order(l)[k] in t.infos
    ensures body == Addresses(t.infos,
            Order(l)[..|l.newOrder|]) + (Addresses(t.infos, Order(l)[|l.newOrder|..]) + Packed(l.lists))
  {
  }

  lemma FileParts(s: seq<Item>, key: nat, t: Tables, l: Layout, place: Service -> nat)
    requires Agree(t, place) && IsFile(s, key, t, l)
    ensures |s| >= 5 && s[0] == Number(0) && s[1] == Key(key)
    ensures s[2] == Number(t.newCount) && s[3] == Number(t.triedCount) && s[4] == Number(NEW_BUCKET_COUNT)
    ensures IsBody(s[5..], t, l, place)
  {
    LayoutOrder(t, l, place);
    assert Order(l)[..|l.newOrder|] == l.newOrder && Order(l)[|l.newOrder|..] == l.triedOrder;
    hide Agree, LaidOut, AllTried, AllListed, Packed;
    assert s[..5] == Header(key, t.newCount, t.triedCount, NEW_BUCKET_COUNT);
    assert s[..5][4] == s[4];
  }

  method NoBuckets() returns (none: seq<seq<int>>)
    ensures |none| == TRIED_BUCKET_COUNT && forall b :: 0 <= b < |none| ==> none[b] == []
  {
    none := seq(TRIED_BUCKET_COUNT, _ => []);
  }

  /** Read everything after the header. */
  method ReadBody(body: seq<Item>, newCount: int, triedCount: int, buckets: int,
                  place: Service -> nat, newPlace: (Service, Ip) -> nat,
                  ghost valid: bool, ghost t: Tables, ghost l: Layout)
    returns (r: Option<Tables>)
    requires forall a :: place(a) < TRIED_BUCKET_COUNT
    requires forall a, src :: newPlace(a, src) < NEW_BUCKET_COUNT
    requires valid ==> IsBody(body, t, l, place) && buckets == NEW_BUCKET_COUNT
    requires valid ==> newCount == t.newCount && triedCount == t.triedCount
    ensures valid ==> r.Some? && Renumbered(t, r.value, Order(l)) && Agree(r.value, place)
  {
    hide *;
    var none := NoBuckets();
    ghost var order, first := Order(l), |l.newOrder|;
    ghost var tail, middle := Packed(l.lists), [];
    if valid {
      BodyFacts(body, t, l, place);
      middle := Addresses(t.infos, order[first..]) + tail;
    }
    var ok, rest, infos, ids, random, news :=
      ReadNew(body, newCount, buckets, newPlace, valid, t, order, first, middle);
    if !ok {
      return None;
    }
    var start := Reader(rest, infos, ids, random, none, newCount, 0);
    if valid {
      ReaderStart(t, order, first, place, start, tail);
    }
    var reader;
    ok, reader := ReadTried(start, triedCount, place, valid, t, order, first, tail);
    if !ok {
      return None;
    }
    if valid {
      BucketsStart(t, l, place, reader, tail, news);
    }
    ok, infos, news := ReadBuckets(reader.rest, buckets, reader.infos, news, valid, t, l.newOrder, l.lists);
    if !ok {
      return None;
    }
    var u := Tables(
      reader.idCount, infos, reader.ids, reader.random, triedCount - reader.lost, reader.tried, newCount, news);
    if valid {
      AllAssembled(t, l, place, reader, tail, u);
      AssembledWell(t, l, place, reader.infos, u);
    }
    return Some(u);
  }

  /** The reading half of the serializer; a truncated or mistyped stream fails. */
  method Read(s: seq<Item>, triedHash: TriedHash, newHash: NewHash, ghost valid: bool, ghost key: nat, ghost t: Tables,
              ghost l: Layout)
    returns (r: Option<(nat, Tables)>)
    requires forall k, a :: triedHash(k)(a) < TRIED_BUCKET_COUNT
    requires forall k, a, src :: newHash(k)(a, src) < NEW_BUCKET_COUNT
    requires valid ==> Agree(t, triedHash(key)) && IsFile(s, key, t, l)
    ensures valid ==> r.Some? && r.value.0 == key
    ensures valid ==> Renumbered(t, r.value.1, Order(l)) && Agree(r.value.1, triedHash(key))
  {
    hide *;
    if valid {
      FileParts(s, key, t, l, triedHash(key));
    }
    if |s| < 5 || !s[0].Number? || !s[1].Key? || !s[2].Number? || !s[3].Number? || !s[4].Number? {
      return None;
    }
    var body := ReadBody(s[5..], s[2].n, s[3].n, s[4].n, triedHash(s[1].key), newHash(s[1].key), valid, t, l);
    if body.None? {
      return None;
    }
    return Some((s[1].key, body.value));
  }

  /** Saving consistent tables and loading them again, under the same key. */
  method SaveAndLoad(key: nat, t: Tables, triedHash: TriedHash, newHash: NewHash)
    returns (u: Tables, ghost order: seq<int>)
    requires forall k, a :: triedHash(k)(a) < TRIED_BUCKET_COUNT
    requires forall k, a, src :: newHash(k)(a, src) < NEW_BUCKET_COUNT
    requires Agree(t, triedHash(key))
    ensures Renumbered(t, u, order) && Agree(u, triedHash(key))
  {
    ghost var l;
    var s;
    s, l := Write(key, t, triedHash(key));
    var r := Read(s, triedHash, newHash, true, key, t, l);
    u, order := r.value.1, Order(l);
  }
}
