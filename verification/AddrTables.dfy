/** The redundant tables of the address manager and what it means that they agree: the
    invariant its own consistency check spells out, one predicate per group of tables, with
    the facts about single changes that the operations are built from. */
module AddrTables {
  import opened Basics

  const TRIED_BUCKET_COUNT := 64
  const TRIED_BUCKET_SIZE := 64
  const NEW_BUCKET_COUNT := 256
  const NEW_BUCKET_SIZE := 64
  const NEW_BUCKETS_PER_ADDRESS := 4

  type Ip = nat

  datatype Service = Service(ip: Ip, port: nat)

  /** `CAddrInfo`: an address with its statistics, the number of new buckets it is in, whether
      it is in the tried table, and its place in the random order. */
  datatype Info = Info(
    service: Service,
    services: set<nat>,
    time: nat,
    source: Ip,
    lastSuccess: int,
    lastTry: int,
    attempts: int,
    refCount: int,
    inTried: bool,
    randomPos: int)

  type Infos = map<int, Info>

  ghost predicate NoRepeats(xs: seq<int>) {
    forall i, j :: 0 <= i < j < |xs| ==> xs[i] != xs[j]
  }

  // The random order

  /** `random` lists every id once, and `randomPos` is the way back. */
  ghost predicate RandomOk(infos: Infos, random: seq<int>) {
    && (forall id :: id in infos ==> 0 <= infos[id].randomPos < |random| && random[infos[id].randomPos] == id)
    && (forall i :: 0 <= i < |random| ==> random[i] in infos && infos[random[i]].randomPos == i)
  }

  lemma {:induction false} RandomLength(infos: Infos, random: seq<int>)
    requires RandomOk(infos, random)
    ensures |random| == |infos|
    decreases |random|
  {
    var listed := set i | 0 <= i < |random| :: random[i];
    assert listed == infos.Keys by {
      forall id | id in infos
        ensures id in listed
      {
        assert random[infos[id].randomPos] == id;
      }
    }
    assert NoRepeats(random);
    DistinctLength(random);
  }

  lemma {:induction false} DistinctLength(xs: seq<int>)
    requires NoRepeats(xs)
    ensures |set i | 0 <= i < |xs| :: xs[i]| == |xs|
    decreases |xs|
  {
    if xs != [] {
      var most := xs[..|xs| - 1];
      DistinctLength(most);
      assert (set i | 0 <= i < |xs| :: xs[i]) == (set i | 0 <= i < |most| :: most[i]) + {xs[|xs| - 1]};
    }
  }

  /** `SwapRandom` on the table of infos. */
  function SwapInfos(infos: Infos, random: seq<int>, i: nat, j: nat): Infos
    requires i < |random| && j < |random| && random[i] in infos && random[j] in infos
  {
    if i == j then infos
    else infos[random[i] := infos[random[i]].(randomPos := j)][random[j] := infos[random[j]].(randomPos := i)]
  }

  function SwapSeq(xs: seq<int>, i: nat, j: nat): seq<int>
    requires i < |xs| && j < |xs|
  {
    xs[i := xs[j]][j := xs[i]]
  }

  lemma SwapRandomOk(infos: Infos, random: seq<int>, i: nat, j: nat)
    requires RandomOk(infos, random) && i < |random| && j < |random|
    ensures RandomOk(SwapInfos(infos, random, i, j), SwapSeq(random, i, j))
  {
  }

  // Addresses and ids

  /** `ids` finds the id of every known address and nothing else. */
  ghost predicate IdsOk(infos: Infos, ids: map<Ip, int>) {
    && (forall id :: id in infos ==> infos[id].service.ip in ids && ids[infos[id].service.ip] == id)
    && (forall a :: a in ids ==> ids[a] in infos && infos[ids[a]].service.ip == a)
  }

  // The tried table

  /** A tried bucket holds no id twice and only tried entries that hash to it. */
  ghost predicate BucketOk(infos: Infos, bucket: seq<int>, b: int, place: Service -> nat) {
    && |bucket| <= TRIED_BUCKET_SIZE
    && NoRepeats(bucket)
    && (forall id :: id in bucket ==> id in infos && infos[id].inTried && place(infos[id].service) == b)
  }

  ghost predicate TriedOk(infos: Infos, tried: seq<seq<int>>, place: Service -> nat) {
    && |tried| == TRIED_BUCKET_COUNT
    && (forall b :: 0 <= b < |tried| ==> BucketOk(infos, tried[b], b, place))
    && (forall id :: id in infos && infos[id].inTried ==>
          && 0 <= place(infos[id].service) < |tried|
          && id in tried[place(infos[id].service)]
          && infos[id].refCount == 0
          && infos[id].lastSuccess > 0)
  }

  // The new table

  /** The new buckets an id is in. */
  function Buckets(news: seq<set<int>>, id: int): (bs: set<int>) {
    set b | 0 <= b < |news| && id in news[b]
  }

  /** The reference count of every new entry is the number of its buckets; for the entry `p`
      in transit it is `d` ahead of them. */
  ghost predicate NewOk(infos: Infos, news: seq<set<int>>, p: int, d: int) {
    && |news| == NEW_BUCKET_COUNT
    && (forall b :: 0 <= b < |news| ==> |news[b]| <= NEW_BUCKET_SIZE)
    && (forall b, id :: 0 <= b < |news| && id in news[b] ==> id in infos && !infos[id].inTried)
    && (forall id :: id in infos && !infos[id].inTried ==> RefCountOk(infos[id].refCount, news, id, p, d))
  }

  ghost predicate RefCountOk(refCount: int, news: seq<set<int>>, id: int, p: int, d: int) {
    && refCount == |Buckets(news, id)| + (if id == p then d else 0)
    && refCount <= NEW_BUCKETS_PER_ADDRESS
    && (id != p ==> 1 <= refCount)
  }

  lemma BucketsInsert(news: seq<set<int>>, b: nat, id: int)
    requires b < |news| && id !in news[b]
    ensures |Buckets(news[b := news[b] + {id}], id)| == |Buckets(news, id)| + 1
    ensures forall x :: x != id ==> Buckets(news[b := news[b] + {id}], x) == Buckets(news, x)
  {
    assert Buckets(news[b := news[b] + {id}], id) == Buckets(news, id) + {b};
  }

  lemma BucketsErase(news: seq<set<int>>, b: nat, id: int)
    requires b < |news| && id in news[b]
    ensures |Buckets(news[b := news[b] - {id}], id)| == |Buckets(news, id)| - 1
    ensures forall x :: x != id ==> Buckets(news[b := news[b] - {id}], x) == Buckets(news, x)
  {
    assert Buckets(news[b := news[b] - {id}], id) == Buckets(news, id) - {b};
  }

  // Counters

  function TriedIds(infos: Infos): set<int> {
    set id | id in infos && infos[id].inTried
  }

  function NewIds(infos: Infos): set<int> {
    set id | id in infos && !infos[id].inTried
  }

  /** Ids are handed out in order, and the counters count. */
  ghost predicate CountsOk(infos: Infos, idCount: int, triedCount: int, newCount: int) {
    && (forall id :: id in infos ==> 0 <= id < idCount)
    && idCount >= 0
    && triedCount == |TriedIds(infos)|
    && newCount == |NewIds(infos)|
  }

  ghost predicate TimesOk(infos: Infos) {
    forall id :: id in infos ==> infos[id].lastTry >= 0 && infos[id].lastSuccess >= 0
  }

  // The whole

  datatype Tables = Tables(
    idCount: int,
    infos: Infos,
    ids: map<Ip, int>,
    random: seq<int>,
    triedCount: int,
    tried: seq<seq<int>>,
    newCount: int,
    news: seq<set<int>>)

  /** All tables agree, up to the reference count of the entry `p` in transit. */
  ghost predicate AgreeExcept(t: Tables, place: Service -> nat, p: int, d: int) {
    && RandomOk(t.infos, t.random)
    && IdsOk(t.infos, t.ids)
    && TriedOk(t.infos, t.tried, place)
    && NewOk(t.infos, t.news, p, d)
    && CountsOk(t.infos, t.idCount, t.triedCount, t.newCount)
    && TimesOk(t.infos)
  }

  /** What the consistency check of the address manager demands, together with the bucket
      sizes and the place of every tried entry. */
  ghost predicate Agree(t: Tables, place: Service -> nat) {
    AgreeExcept(t, place, -1, 0)
  }

  const EMPTY := Tables(0, map[], map[], [], 0, seq(TRIED_BUCKET_COUNT, _ => []), 0, seq(NEW_BUCKET_COUNT, _ => {}))

  lemma EmptyAgrees(place: Service -> nat)
    ensures Agree(EMPTY, place)
  {
  }

  // What each group of tables does not look at

  ghost predicate SameKeys(infos: Infos, infos': Infos) {
    infos'.Keys == infos.Keys
  }

  // Single facts from the parts

  lemma TriedPositive(infos: Infos, tried: seq<seq<int>>, place: Service -> nat)
    requires TriedOk(infos, tried, place)
    ensures forall id :: id in infos && infos[id].inTried ==> infos[id].lastSuccess > 0
  {
  }

  lemma TriedEntry(infos: Infos, tried: seq<seq<int>>, place: Service -> nat, k: nat, pos: nat)
    requires TriedOk(infos, tried, place) && k < |tried| && pos < |tried[k]|
    ensures tried[k][pos] in infos && infos[tried[k][pos]].inTried
  {
    assert BucketOk(infos, tried[k], k, place) && tried[k][pos] in tried[k];
  }

  lemma NewEntry(infos: Infos, news: seq<set<int>>, p: int, d: int, b: nat, id: int)
    requires NewOk(infos, news, p, d) && b < |news| && id in news[b]
    ensures id in infos && !infos[id].inTried && RefCountOk(infos[id].refCount, news, id, p, d)
  {
  }

  lemma RandomPlace(infos: Infos, random: seq<int>, id: int)
    requires RandomOk(infos, random) && id in infos
    ensures 0 <= infos[id].randomPos < |random| && random[infos[id].randomPos] == id
  {
  }

  lemma RandomEntry(infos: Infos, random: seq<int>, i: nat)
    requires RandomOk(infos, random) && i < |random|
    ensures random[i] in infos
  {
  }

  lemma IdsBelow(infos: Infos, idCount: int, triedCount: int, newCount: int)
    requires CountsOk(infos, idCount, triedCount, newCount)
    ensures idCount >= 0 && idCount !in infos && -1 !in infos
  {
  }

  lemma RandomFrame(infos: Infos, infos': Infos, random: seq<int>)
    requires RandomOk(infos, random) && SameKeys(infos, infos')
    requires forall x :: x in infos ==> infos'[x].randomPos == infos[x].randomPos
    ensures RandomOk(infos', random)
  {
  }

  lemma IdsFrame(infos: Infos, infos': Infos, ids: map<Ip, int>)
    requires IdsOk(infos, ids) && SameKeys(infos, infos')
    requires forall x :: x in infos ==> infos'[x].service == infos[x].service
    ensures IdsOk(infos', ids)
  {
  }

  lemma CountsFrame(infos: Infos, infos': Infos, idCount: int, triedCount: int, newCount: int)
    requires CountsOk(infos, idCount, triedCount, newCount) && SameKeys(infos, infos')
    requires forall x :: x in infos ==> infos'[x].inTried == infos[x].inTried
    ensures CountsOk(infos', idCount, triedCount, newCount)
  {
    forall x
      ensures x in TriedIds(infos') <==> x in TriedIds(infos)
      ensures x in NewIds(infos') <==> x in NewIds(infos)
    {
      if x in infos {
        assert x in infos'.Keys && infos'[x].inTried == infos[x].inTried;
      } else {
        assert x !in infos'.Keys;
      }
    }
    assert TriedIds(infos') == TriedIds(infos) && NewIds(infos') == NewIds(infos);
  }

  /** The tried table looks at tried entries only. */
  ghost predicate SameTried(infos: Infos, infos': Infos) {
    && (forall x :: x in infos && infos[x].inTried ==>
          x in infos' && infos'[x].inTried && infos'[x].service == infos[x].service &&
          infos'[x].refCount == infos[x].refCount && infos'[x].lastSuccess > 0)
    && (forall x :: x in infos' && infos'[x].inTried ==> x in infos && infos[x].inTried)
  }

  lemma TriedFrame(infos: Infos, infos': Infos, tried: seq<seq<int>>, place: Service -> nat)
    requires TriedOk(infos, tried, place) && SameTried(infos, infos')
    ensures TriedOk(infos', tried, place)
  {
    forall b | 0 <= b < |tried|
      ensures BucketOk(infos', tried[b], b, place)
    {
      assert BucketOk(infos, tried[b], b, place);
    }
  }

  /** The new table looks at new entries only. */
  ghost predicate SameNew(infos: Infos, infos': Infos) {
    && (forall x :: x in infos && !infos[x].inTried ==> x in infos' && !infos'[x].inTried)
    && (forall x :: x in infos' && !infos'[x].inTried ==>
          x in infos && !infos[x].inTried && infos'[x].refCount == infos[x].refCount)
  }

  lemma NewFrame(infos: Infos, infos': Infos, news: seq<set<int>>, p: int, d: int)
    requires NewOk(infos, news, p, d) && SameNew(infos, infos')
    ensures NewOk(infos', news, p, d)
  {
    forall id | id in infos' && !infos'[id].inTried
      ensures RefCountOk(infos'[id].refCount, news, id, p, d)
    {
      assert RefCountOk(infos[id].refCount, news, id, p, d);
    }
  }

  // Single changes

  /** Only statistics differ: nothing the tables refer to. */
  predicate SameStructure(a: Info, b: Info) {
    a.service == b.service && a.refCount == b.refCount && a.inTried == b.inTried && a.randomPos == b.randomPos
  }

  function Touched(t: Tables, id: int, info: Info): Tables {
    t.(infos := t.infos[id := info])
  }

  lemma TouchedAgrees(t: Tables, place: Service -> nat, p: int, d: int, id: int, info: Info)
    requires AgreeExcept(t, place, p, d) && id in t.infos && SameStructure(t.infos[id], info)
    requires info.lastTry >= 0 && info.lastSuccess >= 0 && (info.inTried ==> info.lastSuccess > 0)
    ensures AgreeExcept(Touched(t, id, info), place, p, d)
  {
    hide RandomOk, IdsOk, TriedOk, NewOk, CountsOk;
    var infos' := t.infos[id := info];
    TriedPositive(t.infos, t.tried, place);
    assert infos'.Keys == t.infos.Keys;
    RandomFrame(t.infos, infos', t.random);
    IdsFrame(t.infos, infos', t.ids);
    TriedFrame(t.infos, infos', t.tried, place);
    NewFrame(t.infos, infos', t.news, p, d);
    CountsFrame(t.infos, infos', t.idCount, t.triedCount, t.newCount);
  }

  /** The info `Create` stores. */
  function Fresh(info: Info, pos: nat): Info {
    info.(lastSuccess := 0, lastTry := 0, attempts := 0, refCount := 0, inTried := false, randomPos := pos)
  }

  /** `Create`: a new id at the end of the random order, in no bucket yet. */
  function Created(t: Tables, info: Info): Tables {
    t.(idCount := t.idCount + 1,
       infos := t.infos[t.idCount := Fresh(info, |t.random|)],
       ids := t.ids[info.service.ip := t.idCount],
       random := t.random + [t.idCount])
  }

  lemma CreatedAgrees(t: Tables, place: Service -> nat, info: Info)
    requires Agree(t, place) && info.service.ip !in t.ids
    ensures t.idCount !in t.infos
    ensures AgreeExcept(Created(t, info).(newCount := t.newCount + 1), place, t.idCount, 0)
    ensures Buckets(t.news, t.idCount) == {}
  {
    hide RandomOk, IdsOk, TriedOk, NewOk, CountsOk;
    IdsBelow(t.infos, t.idCount, t.triedCount, t.newCount);
    CreatedRandom(t.infos, t.random, t.idCount, info);
    CreatedIds(t.infos, t.ids, t.idCount, Fresh(info, |t.random|));
    CreatedNew(t.infos, t.news, t.idCount, Fresh(info, |t.random|));
    CreatedCounts(t.infos, t.idCount, t.triedCount, t.newCount, Fresh(info, |t.random|));
    TriedPositive(t.infos, t.tried, place);
    TriedFrame(t.infos, t.infos[t.idCount := Fresh(info, |t.random|)], t.tried, place);
  }

  lemma CreatedRandom(infos: Infos, random: seq<int>, id: int, info: Info)
    requires RandomOk(infos, random) && id !in infos
    ensures RandomOk(infos[id := Fresh(info, |random|)], random + [id])
  {
  }

  lemma CreatedIds(infos: Infos, ids: map<Ip, int>, id: int, info: Info)
    requires IdsOk(infos, ids) && id !in infos && info.service.ip !in ids
    ensures IdsOk(infos[id := info], ids[info.service.ip := id])
  {
  }

  lemma CreatedNew(infos: Infos, news: seq<set<int>>, id: int, info: Info)
    requires NewOk(infos, news, -1, 0) && id !in infos && id != -1 && -1 !in infos && !info.inTried
             && info.refCount == 0
    ensures Buckets(news, id) == {}
    ensures NewOk(infos[id := info], news, id, 0)
  {
    var infos' := infos[id := info];
    assert Buckets(news, id) == {};
    forall x | x in infos' && !infos'[x].inTried
      ensures RefCountOk(infos'[x].refCount, news, x, id, 0)
    {
      if x != id {
        assert RefCountOk(infos[x].refCount, news, x, -1, 0);
      }
    }
  }

  lemma CreatedCounts(infos: Infos, idCount: int, triedCount: int, newCount: int, info: Info)
    requires CountsOk(infos, idCount, triedCount, newCount) && !info.inTried
    ensures CountsOk(infos[idCount := info], idCount + 1, triedCount, newCount + 1)
  {
    var infos' := infos[idCount := info];
    assert idCount !in infos;
    assert NewIds(infos') == NewIds(infos) + {idCount};
    assert idCount !in NewIds(infos);
    assert TriedIds(infos') == TriedIds(infos);
  }

  /** The reference count of an entry changes. */
  function Counted(t: Tables, id: int, change: int): Tables
    requires id in t.infos
  {
    t.(infos := t.infos[id := t.infos[id].(refCount := t.infos[id].refCount + change)])
  }

  /** One more bucket is promised to a new entry. */
  lemma PromisedAgrees(t: Tables, place: Service -> nat, p: int, id: int)
    requires AgreeExcept(t, place, p, 0) && (p == -1 || p == id) && id != -1
    requires id in t.infos && !t.infos[id].inTried && t.infos[id].refCount < NEW_BUCKETS_PER_ADDRESS
    ensures AgreeExcept(Counted(t, id, 1), place, id, 1)
  {
    hide RandomOk, IdsOk, TriedOk, NewOk, CountsOk;
    var infos' := Counted(t, id, 1).infos;
    IdsBelow(t.infos, t.idCount, t.triedCount, t.newCount);
    PromisedNew(t.infos, infos', t.news, p, id);
    TriedPositive(t.infos, t.tried, place);
    assert infos'.Keys == t.infos.Keys;
    RandomFrame(t.infos, infos', t.random);
    IdsFrame(t.infos, infos', t.ids);
    TriedFrame(t.infos, infos', t.tried, place);
    CountsFrame(t.infos, infos', t.idCount, t.triedCount, t.newCount);
  }

  lemma PromisedNew(infos: Infos, infos': Infos, news: seq<set<int>>, p: int, id: int)
    requires NewOk(infos, news, p, 0) && (p == -1 || p == id) && id in infos && !infos[id].inTried && id != -1
    requires infos[id].refCount < NEW_BUCKETS_PER_ADDRESS && -1 !in infos
    requires infos' == infos[id := infos[id].(refCount := infos[id].refCount + 1)]
    ensures NewOk(infos', news, id, 1)
  {
    forall x | x in infos' && !infos'[x].inTried
      ensures RefCountOk(infos'[x].refCount, news, x, id, 1)
    {
      assert RefCountOk(infos[x].refCount, news, x, p, 0);
    }
  }

  /** The promised bucket is filled. */
  function Put(t: Tables, id: int, b: nat): Tables
    requires b < |t.news|
  {
    t.(news := t.news[b := t.news[b] + {id}])
  }

  lemma PutAgrees(t: Tables, place: Service -> nat, id: int, b: nat)
    requires AgreeExcept(t, place, id, 1) && b < |t.news| && id !in t.news[b] && |t.news[b]| < NEW_BUCKET_SIZE
    requires id in t.infos && !t.infos[id].inTried
    ensures Agree(Put(t, id, b), place)
  {
    BucketsInsert(t.news, b, id);
    PutNew(t.infos, t.news, id, b);
    hide RandomOk, IdsOk, TriedOk, NewOk, CountsOk;
  }

  lemma PutNew(infos: Infos, news: seq<set<int>>, id: int, b: nat)
    requires NewOk(infos, news, id, 1) && b < |news| && id !in news[b] && |news[b]| < NEW_BUCKET_SIZE
    requires id in infos && !infos[id].inTried
    ensures NewOk(infos, news[b := news[b] + {id}], -1, 0)
  {
    var news' := news[b := news[b] + {id}];
    BucketsInsert(news, b, id);
    forall x | x in infos && !infos[x].inTried
      ensures RefCountOk(infos[x].refCount, news', x, -1, 0)
    {
      assert RefCountOk(infos[x].refCount, news, x, id, 1);
    }
  }

  // Removing an entry from a new bucket

  /** The entry disappears from every table but the buckets. */
  function Deleted(t: Tables, id: int): Tables
    requires RandomOk(t.infos, t.random) && id in t.infos
  {
    var last, pos := |t.random| - 1, t.infos[id].randomPos;
    t.(infos := SwapInfos(t.infos, t.random, pos, last) - {id},
       random := SwapSeq(t.random, pos, last)[..last],
       ids := t.ids - {t.infos[id].service.ip},
       newCount := t.newCount - 1)
  }

  /** An entry gives up one of its new buckets; with the last one it is deleted. */
  function Dropped(t: Tables, id: int, b: nat): Tables
    requires RandomOk(t.infos, t.random) && id in t.infos && b < |t.news|
  {
    var counted := Counted(t, id, -1);
    RandomFrame(t.infos, counted.infos, t.random);
    var left := if counted.infos[id].refCount == 0 then Deleted(counted, id) else counted;
    left.(news := t.news[b := t.news[b] - {id}])
  }

  lemma SwapKeeps(infos: Infos, random: seq<int>, i: nat, j: nat)
    requires RandomOk(infos, random) && i < |random| && j < |random|
    ensures SameKeys(infos, SwapInfos(infos, random, i, j))
    ensures forall x :: x in infos ==>
              SwapInfos(infos, random, i, j)[x] == infos[x].(randomPos := SwapInfos(infos, random, i, j)[x].randomPos)
  {
  }

  lemma RandomPop(infos: Infos, random: seq<int>, id: int)
    requires RandomOk(infos, random) && random != [] && random[|random| - 1] == id
    ensures RandomOk(infos - {id}, random[..|random| - 1])
  {
  }

  lemma IdsErase(infos: Infos, ids: map<Ip, int>, id: int)
    requires IdsOk(infos, ids) && id in infos
    ensures IdsOk(infos - {id}, ids - {infos[id].service.ip})
  {
  }

  lemma CountsErase(infos: Infos, idCount: int, triedCount: int, newCount: int, id: int)
    requires CountsOk(infos, idCount, triedCount, newCount) && id in infos && !infos[id].inTried
    ensures CountsOk(infos - {id}, idCount, triedCount, newCount - 1)
  {
    assert NewIds(infos - {id}) == NewIds(infos) - {id};
    assert TriedIds(infos - {id}) == TriedIds(infos);
  }

  /** The new table after dropping an entry that has other buckets left. */
  lemma DropNew(infos: Infos, news: seq<set<int>>, p: int, d: int, id: int, b: nat)
    requires NewOk(infos, news, p, d) && b < |news| && id in news[b] && id != p && infos[id].refCount > 1
    ensures NewOk(infos[id := infos[id].(refCount := infos[id].refCount - 1)], news[b := news[b] - {id}], p, d)
  {
    var infos', news' := infos[id := infos[id].(refCount := infos[id].refCount - 1)], news[b := news[b] - {id}];
    BucketsErase(news, b, id);
    forall x | x in infos' && !infos'[x].inTried
      ensures RefCountOk(infos'[x].refCount, news', x, p, d)
    {
      assert RefCountOk(infos[x].refCount, news, x, p, d);
    }
  }

  /** The new table after dropping an entry's last bucket. */
  lemma DropLastNew(infos: Infos, infos': Infos, news: seq<set<int>>, p: int, d: int, id: int, b: nat)
    requires NewOk(infos, news, p, d) && b < |news| && id in news[b] && id != p && infos[id].refCount == 1
    requires infos'.Keys == infos.Keys - {id}
    requires forall x :: x in infos' ==>
             infos'[x].inTried == infos[x].inTried && infos'[x].refCount == infos[x].refCount
    ensures NewOk(infos', news[b := news[b] - {id}], p, d)
  {
    var news' := news[b := news[b] - {id}];
    BucketsErase(news, b, id);
    assert RefCountOk(infos[id].refCount, news, id, p, d);
    assert Buckets(news', id) == {};
    assert forall c :: 0 <= c < |news'| && id in news'[c] ==> c in Buckets(news', id);
    forall c, x | 0 <= c < |news'| && x in news'[c]
      ensures x in infos' && !infos'[x].inTried
    {
      assert x in news[c];
      assert x in infos.Keys - {id};
    }
    forall x | x in infos' && !infos'[x].inTried
      ensures RefCountOk(infos'[x].refCount, news', x, p, d)
    {
      assert x in infos.Keys - {id};
      assert RefCountOk(infos[x].refCount, news, x, p, d);
    }
  }

  /** What dropping an entry leaves alone. */
  lemma DroppedKeeps(t: Tables, place: Service -> nat, p: int, d: int, id: int, b: nat)
    requires AgreeExcept(t, place, p, d) && b < |t.news| && id in t.news[b] && id != p
    ensures var t' := Dropped(t, id, b);
            && t'.tried == t.tried && t'.idCount == t.idCount && t'.news == t.news[b := t.news[b] - {id}]
            && (t'.ids == t.ids || t'.ids == t.ids - {t.infos[id].service.ip})
            && (forall x :: x in t.infos && x != id ==>
               x in t'.infos && t'.infos[x] == t.infos[x].(randomPos := t'.infos[x].randomPos))
  {
    hide RandomOk, IdsOk, TriedOk, NewOk, CountsOk, TimesOk;
    NewEntry(t.infos, t.news, p, d, b, id);
    RandomPlace(t.infos, t.random, id);
    RandomFrame(t.infos, Counted(t, id, -1).infos, t.random);
    if t.infos[id].refCount == 1 {
      SwapKeeps(Counted(t, id, -1).infos, t.random, t.infos[id].randomPos, |t.random| - 1);
    }
  }

  lemma DroppedAgrees(t: Tables, place: Service -> nat, p: int, d: int, id: int, b: nat)
    requires AgreeExcept(t, place, p, d) && b < |t.news| && id in t.news[b] && id != p
    ensures AgreeExcept(Dropped(t, id, b), place, p, d)
  {
    hide RandomOk, IdsOk, TriedOk, NewOk, CountsOk, TimesOk;
    NewEntry(t.infos, t.news, p, d, b, id);
    if t.infos[id].refCount > 1 {
      DroppedOne(t, place, p, d, id, b);
    } else {
      DroppedLast(t, place, p, d, id, b);
    }
  }

  lemma DroppedOne(t: Tables, place: Service -> nat, p: int, d: int, id: int, b: nat)
    requires AgreeExcept(t, place, p, d) && b < |t.news| && id in t.news[b] && id != p
    requires t.infos[id].refCount > 1
    ensures AgreeExcept(Dropped(t, id, b), place, p, d)
  {
    hide RandomOk, IdsOk, TriedOk, NewOk, CountsOk;
    NewEntry(t.infos, t.news, p, d, b, id);
    var infos' := Counted(t, id, -1).infos;
    DropNew(t.infos, t.news, p, d, id, b);
    TriedPositive(t.infos, t.tried, place);
    assert infos'.Keys == t.infos.Keys;
    RandomFrame(t.infos, infos', t.random);
    IdsFrame(t.infos, infos', t.ids);
    TriedFrame(t.infos, infos', t.tried, place);
    CountsFrame(t.infos, infos', t.idCount, t.triedCount, t.newCount);
  }

  lemma DroppedLast(t: Tables, place: Service -> nat, p: int, d: int, id: int, b: nat)
    requires AgreeExcept(t, place, p, d) && b < |t.news| && id in t.news[b] && id != p
    requires t.infos[id].refCount == 1
    ensures AgreeExcept(Dropped(t, id, b), place, p, d)
  {
    hide RandomOk, IdsOk, TriedOk, NewOk, CountsOk, TimesOk;
    NewEntry(t.infos, t.news, p, d, b, id);
    RandomPlace(t.infos, t.random, id);
    var infos1 := Counted(t, id, -1).infos;
    var last, pos := |t.random| - 1, t.infos[id].randomPos;
    RandomFrame(t.infos, infos1, t.random);
    var infos2 := SwapInfos(infos1, t.random, pos, last);
    var random2 := SwapSeq(t.random, pos, last);
    SwapRandomOk(infos1, t.random, pos, last);
    SwapKeeps(infos1, t.random, pos, last);
    RandomPop(infos2, random2, id);
    DroppedTables(t, place, p, d, id, b, infos2);
    assert Dropped(t, id, b).infos == infos2 - {id};
  }

  /** Everything but the random order, once the entry has been swapped to its end. */
  lemma DroppedTables(t: Tables, place: Service -> nat, p: int, d: int, id: int, b: nat, infos2: Infos)
    requires AgreeExcept(t, place, p, d) && b < |t.news| && id in t.news[b] && id != p
    requires t.infos[id].refCount == 1 && SameKeys(t.infos, infos2)
    requires forall x :: x in t.infos && x != id ==> infos2[x] == t.infos[x].(randomPos := infos2[x].randomPos)
    requires infos2[id] == t.infos[id].(refCount := 0, randomPos := infos2[id].randomPos)
    ensures IdsOk(infos2 - {id}, t.ids - {t.infos[id].service.ip})
    ensures TriedOk(infos2 - {id}, t.tried, place)
    ensures NewOk(infos2 - {id}, t.news[b := t.news[b] - {id}], p, d)
    ensures CountsOk(infos2 - {id}, t.idCount, t.triedCount, t.newCount - 1)
    ensures TimesOk(infos2 - {id})
  {
    assert !t.infos[id].inTried;
    assert forall x :: x in t.infos ==>
           infos2[x].inTried == t.infos[x].inTried && infos2[x].service == t.infos[x].service;
    assert SameTried(t.infos, infos2 - {id}) by {
      hide RandomOk, IdsOk, CountsOk, NewOk;
    }
    assert TimesOk(infos2 - {id}) by {
      hide RandomOk, IdsOk, CountsOk, NewOk, TriedOk;
    }
    hide RandomOk, IdsOk, TriedOk, NewOk, CountsOk;
    IdsFrame(t.infos, infos2, t.ids);
    IdsErase(infos2, t.ids, id);
    TriedFrame(t.infos, infos2 - {id}, t.tried, place);
    DropLastNew(t.infos, infos2 - {id}, t.news, p, d, id, b);
    CountsFrame(t.infos, infos2, t.idCount, t.triedCount, t.newCount);
    CountsErase(infos2, t.idCount, t.triedCount, t.newCount, id);
  }

  // Moving an entry to the tried table

  /** The new buckets without an entry. */
  function Without(news: seq<set<int>>, id: int): (r: seq<set<int>>)
    ensures |r| == |news|
    ensures forall b :: 0 <= b < |news| ==> r[b] == news[b] - {id}
  {
    seq(|news|, b requires 0 <= b < |news| => news[b] - {id})
  }

  lemma WithoutBuckets(news: seq<set<int>>, id: int)
    ensures Buckets(Without(news, id), id) == {}
    ensures forall x :: x != id ==> Buckets(Without(news, id), x) == Buckets(news, x)
  {
    forall x | x != id
      ensures Buckets(Without(news, id), x) == Buckets(news, x)
    {
    }
  }

  /** A new entry becomes a tried one, at the end of its bucket. */
  function Promoted(t: Tables, id: int, k: nat): Tables
    requires id in t.infos && k < |t.tried|
  {
    t.(infos := t.infos[id := t.infos[id].(refCount := 0, inTried := true)],
       news := Without(t.news, id),
       tried := t.tried[k := t.tried[k] + [id]],
       triedCount := t.triedCount + 1,
       newCount := t.newCount - 1)
  }

  lemma PromotedNew(infos: Infos, news: seq<set<int>>, id: int)
    requires NewOk(infos, news, -1, 0) && id in infos
    ensures NewOk(infos[id := infos[id].(refCount := 0, inTried := true)], Without(news, id), -1, 0)
  {
    var infos', news' := infos[id := infos[id].(refCount := 0, inTried := true)], Without(news, id);
    WithoutBuckets(news, id);
    forall b | 0 <= b < |news'|
      ensures |news'[b]| <= NEW_BUCKET_SIZE
    {
      SmallerSet(news[b], id);
    }
    forall x | x in infos' && !infos'[x].inTried
      ensures RefCountOk(infos'[x].refCount, news', x, -1, 0)
    {
      assert RefCountOk(infos[x].refCount, news, x, -1, 0);
    }
  }

  lemma SmallerSet(s: set<int>, x: int)
    ensures |s - {x}| <= |s|
    ensures x in s ==> |s - {x}| == |s| - 1
  {
    if x !in s {
      assert s - {x} == s;
    }
  }

  lemma PromotedTried(infos: Infos, tried: seq<seq<int>>, place: Service -> nat, id: int)
    requires TriedOk(infos, tried, place) && id in infos && !infos[id].inTried && infos[id].lastSuccess > 0
    requires place(infos[id].service) < |tried| && |tried[place(infos[id].service)]| < TRIED_BUCKET_SIZE
    ensures var k := place(infos[id].service);
            TriedOk(infos[id := infos[id].(refCount := 0, inTried := true)], tried[k := tried[k] + [id]], place)
  {
    var k := place(infos[id].service);
    var infos', tried' := infos[id := infos[id].(refCount := 0, inTried := true)], tried[k := tried[k] + [id]];
    assert BucketOk(infos, tried[k], k, place);
    assert id !in tried[k];
    forall b | 0 <= b < |tried'|
      ensures BucketOk(infos', tried'[b], b, place)
    {
      assert BucketOk(infos, tried[b], b, place);
    }
  }

  lemma PromotedCounts(infos: Infos, idCount: int, triedCount: int, newCount: int, id: int)
    requires CountsOk(infos, idCount, triedCount, newCount) && id in infos && !infos[id].inTried
    ensures CountsOk(infos[id := infos[id].(refCount := 0, inTried := true)], idCount, triedCount + 1, newCount - 1)
  {
    var infos' := infos[id := infos[id].(refCount := 0, inTried := true)];
    assert TriedIds(infos') == TriedIds(infos) + {id} && id !in TriedIds(infos);
    assert NewIds(infos') == NewIds(infos) - {id} && id in NewIds(infos);
  }

  lemma PromotedAgrees(t: Tables, place: Service -> nat, id: int)
    requires Agree(t, place) && id in t.infos && !t.infos[id].inTried && t.infos[id].lastSuccess > 0
    requires place(t.infos[id].service) < |t.tried| && |t.tried[place(t.infos[id].service)]| < TRIED_BUCKET_SIZE
    ensures Agree(Promoted(t, id, place(t.infos[id].service)), place)
  {
    hide RandomOk, IdsOk, TriedOk, NewOk, CountsOk;
    var infos' := t.infos[id := t.infos[id].(refCount := 0, inTried := true)];
    RandomFrame(t.infos, infos', t.random);
    IdsFrame(t.infos, infos', t.ids);
    PromotedTried(t.infos, t.tried, place, id);
    PromotedNew(t.infos, t.news, id);
    PromotedCounts(t.infos, t.idCount, t.triedCount, t.newCount, id);
  }

  /** A new entry takes the tried slot of another one, which goes back to the new table. */
  function Exchanged(t: Tables, id: int, k: nat, pos: nat, b: nat): Tables
    requires k < |t.tried| && pos < |t.tried[k]| && id in t.infos && t.tried[k][pos] in t.infos && b < |t.news|
  {
    var out := t.tried[k][pos];
    var without := Without(t.news, id);
    t.(infos := t.infos[out := t.infos[out].(refCount := 1, inTried := false)]
                [id := t.infos[id].(refCount := 0, inTried := true)],
       news := without[b := without[b] + {out}],
       tried := t.tried[k := t.tried[k][pos := id]])
  }

  ghost function ExchangedInfos(infos: Infos, id: int, out: int): Infos
    requires id in infos && out in infos
  {
    infos[out := infos[out].(refCount := 1, inTried := false)][id := infos[id].(refCount := 0, inTried := true)]
  }

  lemma ExchangedTried(infos: Infos, tried: seq<seq<int>>, place: Service -> nat, id: int, pos: nat)
    requires TriedOk(infos, tried, place) && id in infos && !infos[id].inTried && infos[id].lastSuccess > 0
    requires place(infos[id].service) < |tried| && pos < |tried[place(infos[id].service)]|
    ensures var k := place(infos[id].service);
            tried[k][pos] in infos
                && TriedOk(ExchangedInfos(infos, id, tried[k][pos]), tried[k := tried[k][pos := id]], place)
  {
    var k := place(infos[id].service);
    var out := tried[k][pos];
    assert BucketOk(infos, tried[k], k, place) && out in tried[k];
    var infos', tried' := ExchangedInfos(infos, id, out), tried[k := tried[k][pos := id]];
    assert id !in tried[k] && out != id;
    forall b | 0 <= b < |tried'|
      ensures BucketOk(infos', tried'[b], b, place)
    {
      assert BucketOk(infos, tried[b], b, place);
      if b == k {
        ReplacedBucket(tried[k], pos, id);
      } else {
        assert out !in tried[b];
      }
    }
    forall x | x in infos' && infos'[x].inTried
      ensures x in tried'[place(infos'[x].service)]
    {
      if x == id {
        assert tried'[k][pos] == id;
      } else if place(infos[x].service) == k {
        var i :| 0 <= i < |tried[k]| && tried[k][i] == x;
        assert tried'[k][i] == x;
      }
    }
  }

  lemma ReplacedBucket(bucket: seq<int>, pos: nat, id: int)
    requires pos < |bucket| && id !in bucket
    requires NoRepeats(bucket)
    ensures NoRepeats(bucket[pos := id])
    ensures forall x :: x in bucket[pos := id] ==> x == id || (x in bucket && x != bucket[pos])
  {
    var bucket' := bucket[pos := id];
    forall x | x in bucket'
      ensures x == id || (x in bucket && x != bucket[pos])
    {
      var i :| 0 <= i < |bucket'| && bucket'[i] == x;
      if i != pos {
        assert bucket[i] == x;
      }
    }
  }

  /** A tried entry goes back into one new bucket. */
  lemma DemotedNew(infos: Infos, news: seq<set<int>>, out: int, b: nat)
    requires NewOk(infos, news, -1, 0) && out in infos && infos[out].inTried && out != -1
    requires b < |news| && |news[b]| < NEW_BUCKET_SIZE
    ensures NewOk(infos[out := infos[out].(refCount := 1, inTried := false)], news[b := news[b] + {out}], -1, 0)
  {
    var infos', news' := infos[out := infos[out].(refCount := 1, inTried := false)], news[b := news[b] + {out}];
    assert forall c :: 0 <= c < |news| ==> out !in news[c];
    assert Buckets(news, out) == {};
    BucketsInsert(news, b, out);
    forall x | x in infos' && !infos'[x].inTried
      ensures RefCountOk(infos'[x].refCount, news', x, -1, 0)
    {
      if x != out {
        assert RefCountOk(infos[x].refCount, news, x, -1, 0);
      }
    }
  }

  lemma ExchangedNew(infos: Infos, news: seq<set<int>>, id: int, out: int, b: nat)
    requires NewOk(infos, news, -1, 0) && id in infos && out in infos && infos[out].inTried && out != id && out != -1
    requires b < |news| && |news[b] - {id}| < NEW_BUCKET_SIZE
    ensures var without := Without(news, id);
            NewOk(ExchangedInfos(infos, id, out), without[b := without[b] + {out}], -1, 0)
  {
    hide NewOk;
    var infos1 := infos[id := infos[id].(refCount := 0, inTried := true)];
    PromotedNew(infos, news, id);
    DemotedNew(infos1, Without(news, id), out, b);
    assert ExchangedInfos(infos, id, out) == infos1[out := infos1[out].(refCount := 1, inTried := false)];
  }

  lemma DemotedCounts(infos: Infos, idCount: int, triedCount: int, newCount: int, out: int)
    requires CountsOk(infos, idCount, triedCount, newCount) && out in infos && infos[out].inTried
    ensures CountsOk(infos[out := infos[out].(refCount := 1, inTried := false)], idCount, triedCount - 1, newCount + 1)
  {
    var infos' := infos[out := infos[out].(refCount := 1, inTried := false)];
    assert TriedIds(infos') == TriedIds(infos) - {out} && out in TriedIds(infos);
    assert NewIds(infos') == NewIds(infos) + {out} && out !in NewIds(infos);
  }

  lemma ExchangedCounts(infos: Infos, idCount: int, triedCount: int, newCount: int, id: int, out: int)
    requires CountsOk(infos, idCount, triedCount, newCount)
    requires id in infos && !infos[id].inTried && out in infos && infos[out].inTried
    ensures CountsOk(ExchangedInfos(infos, id, out), idCount, triedCount, newCount)
  {
    hide CountsOk;
    DemotedCounts(infos, idCount, triedCount, newCount, out);
    PromotedCounts(infos[out := infos[out].(refCount := 1, inTried := false)], idCount, triedCount - 1, newCount + 1,
        id);
  }

  lemma ExchangedAgrees(t: Tables, place: Service -> nat, id: int, pos: nat, b: nat)
    requires Agree(t, place) && id in t.infos && !t.infos[id].inTried && t.infos[id].lastSuccess > 0
    requires place(t.infos[id].service) < |t.tried| && pos < |t.tried[place(t.infos[id].service)]|
    requires b < |t.news| && |t.news[b] - {id}| < NEW_BUCKET_SIZE
    ensures t.tried[place(t.infos[id].service)][pos] in t.infos
    ensures Agree(Exchanged(t, id, place(t.infos[id].service), pos, b), place)
  {
    hide RandomOk, IdsOk, TriedOk, NewOk, CountsOk;
    var k := place(t.infos[id].service);
    var out := t.tried[k][pos];
    TriedEntry(t.infos, t.tried, place, k, pos);
    IdsBelow(t.infos, t.idCount, t.triedCount, t.newCount);
    var infos' := ExchangedInfos(t.infos, id, out);
    assert infos'.Keys == t.infos.Keys;
    RandomFrame(t.infos, infos', t.random);
    IdsFrame(t.infos, infos', t.ids);
    ExchangedTried(t.infos, t.tried, place, id, pos);
    ExchangedNew(t.infos, t.news, id, out, b);
    ExchangedCounts(t.infos, t.idCount, t.triedCount, t.newCount, id, out);
  }

  // Capacity

  lemma OneMore(n: nat, limit: nat)
    ensures (n + 1) * limit == n * limit + limit
  {
  }

  lemma {:induction false} SizeOfUnion(parts: seq<set<int>>, limit: nat, whole: set<int>)
    requires forall b :: 0 <= b < |parts| ==> |parts[b]| <= limit
    requires forall x :: x in whole ==> exists b :: 0 <= b < |parts| && x in parts[b]
    ensures |whole| <= |parts| * limit
    decreases |parts|
  {
    if parts == [] {
      assert forall x :: x !in whole;
      assert whole == {};
    } else {
      var most, last := parts[..|parts| - 1], parts[|parts| - 1];
      var rest := whole - last;
      forall x | x in rest
        ensures exists b :: 0 <= b < |most| && x in most[b]
      {
        var b :| 0 <= b < |parts| && x in parts[b];
        assert b < |most| && most[b] == parts[b];
      }
      SizeOfUnion(most, limit, rest);
      SubsetSize(whole * last, last);
      assert whole == rest + whole * last && rest !! whole * last;
      OneMore(|most|, limit);
    }
  }

  lemma NonEmpty(s: set<int>)
    requires |s| > 0
    ensures exists x :: x in s
  {
    if !exists x :: x in s {
      assert false;
    }
  }

  /** The tables never hold more than 64 * 64 tried and 256 * 64 new addresses. */
  lemma Capacity(t: Tables, place: Service -> nat)
    requires Agree(t, place)
    ensures t.triedCount <= TRIED_BUCKET_COUNT * TRIED_BUCKET_SIZE
    ensures t.newCount <= NEW_BUCKET_COUNT * NEW_BUCKET_SIZE
    ensures |t.infos| == |t.random| == t.triedCount + t.newCount <= 20480
  {
    RandomLength(t.infos, t.random);
    assert t.infos.Keys == TriedIds(t.infos) + NewIds(t.infos) && TriedIds(t.infos) !! NewIds(t.infos);
    CapacityTried(t, place);
    CapacityNew(t, place);
  }

  lemma CapacityTried(t: Tables, place: Service -> nat)
    requires TriedOk(t.infos, t.tried, place)
    ensures |TriedIds(t.infos)| <= TRIED_BUCKET_COUNT * TRIED_BUCKET_SIZE
  {
    var parts := seq(|t.tried|, b requires 0 <= b < |t.tried| => set i | 0 <= i < |t.tried[b]| :: t.tried[b][i]);
    forall b | 0 <= b < |parts|
      ensures |parts[b]| <= TRIED_BUCKET_SIZE
    {
      assert BucketOk(t.infos, t.tried[b], b, place);
      DistinctLength(t.tried[b]);
    }
    forall x | x in TriedIds(t.infos)
      ensures exists b :: 0 <= b < |parts| && x in parts[b]
    {
      assert x in parts[place(t.infos[x].service)];
    }
    SizeOfUnion(parts, TRIED_BUCKET_SIZE, TriedIds(t.infos));
  }

  lemma CapacityNew(t: Tables, place: Service -> nat)
    requires NewOk(t.infos, t.news, -1, 0) && -1 !in t.infos
    ensures |NewIds(t.infos)| <= NEW_BUCKET_COUNT * NEW_BUCKET_SIZE
  {
    forall x | x in NewIds(t.infos)
      ensures exists b :: 0 <= b < |t.news| && x in t.news[b]
    {
      assert RefCountOk(t.infos[x].refCount, t.news, x, -1, 0);
      assert |Buckets(t.news, x)| > 0;
      NonEmpty(Buckets(t.news, x));
      var b :| b in Buckets(t.news, x);
      assert x in t.news[b];
    }
    SizeOfUnion(t.news, NEW_BUCKET_SIZE, NewIds(t.infos));
  }
}
