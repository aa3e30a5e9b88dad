/** The address manager: its operations on the tables of `AddrTables`, with every random draw
    and every bucket hash left open. */
module AddrMan {
  import opened Basics
  import opened AddrTables

  const TRIED_ENTRIES_INSPECT_ON_EVICT := 4
  const HORIZON_DAYS := 30
  const RETRIES := 3
  const MAX_FAILURES := 10
  const MIN_FAIL_DAYS := 7
  const GETADDR_MAX_PCT := 23
  const GETADDR_MAX := 2500

  /** `CAddress`: an address as received from a peer. */
  datatype Address = Address(service: Service, services: set<nat>, time: nat, routable: bool)

  /** `GetRandInt`: any value below the bound. */
  method RandInt(n: nat) returns (r: nat)
    requires n > 0
    ensures r < n
  {
    r :| 0 <= r < n;
  }

  /** Times are stored in 32 bits. */
  function Truncated(time: int): nat {
    time % 0x1_0000_0000
  }

  /** `IsTerrible`: the statistics are bad enough to delete the entry. */
  predicate IsTerrible(info: Info, now: int) {
    if info.lastTry != 0 && info.lastTry >= now - 60 then false
    else
      || info.time > now + 10 * 60
      || info.time == 0 || now - info.time > HORIZON_DAYS * 86400
      || (info.lastSuccess == 0 && info.attempts >= RETRIES)
      || (now - info.lastSuccess > MIN_FAIL_DAYS * 86400 && info.attempts >= MAX_FAILURES)
  }

  /** The elements of a set, smallest first: the order in which a `std::set` is walked. */
  method Ascending(s: set<int>) returns (order: seq<int>)
    ensures forall i, j :: 0 <= i < j < |order| ==> order[i] < order[j]
    ensures forall x :: x in order <==> x in s
    ensures |order| == |s|
  {
    order := [];
    var rest := s;
    while |rest| > 0
      invariant forall i, j :: 0 <= i < j < |order| ==> order[i] < order[j]
      invariant forall x :: x in s <==> x in order || x in rest
      invariant forall x, y :: x in order && y in rest ==> x < y
      invariant |order| + |rest| == |s|
      decreases |rest|
    {
      var least := Minimum(rest);
      forall i | 0 <= i < |order|
        ensures order[i] < least
      {
        assert order[i] in order;
      }
      order := order + [least];
      rest := rest - {least};
    }
  }

  method Minimum(s: set<int>) returns (m: int)
    requires |s| > 0
    ensures m in s && forall x :: x in s ==> m <= x
  {
    NonEmpty(s);
    m :| m in s;
    var rest := s - {m};
    while |rest| > 0
      invariant m in s && rest <= s
      invariant forall x :: x in s ==> x in rest || m <= x
      decreases |rest|
    {
      NonEmpty(rest);
      var y :| y in rest;
      if y < m {
        m := y;
      }
      rest := rest - {y};
    }
  }

  /** The same entries in another order. */
  ghost predicate Rearranged(a: seq<int>, b: seq<int>) {
    |a| == |b| && multiset(a) == multiset(b) && (NoRepeats(a) ==> NoRepeats(b))
  }

  lemma SwapRearranges(a: seq<int>, b: seq<int>, i: nat, j: nat)
    requires Rearranged(a, b) && i < |b| && j < |b|
    ensures Rearranged(a, SwapSeq(b, i, j))
  {
  }

  /** The first places of a list exchanged, one after the other, with the places drawn. */
  ghost function Shuffled(s: seq<int>, draws: seq<nat>): (r: seq<int>)
    ensures |r| == |s|
  {
    if draws == [] then s
    else
      var last := |draws| - 1;
      var most := Shuffled(s, draws[..last]);
      if last < |s| && draws[last] < |s| then SwapSeq(most, draws[last], last) else most
  }

  /** Entry `j` is the first of the least recently successful ones. */
  ghost predicate LeastRecent(infos: Infos, front: seq<int>, j: nat) {
    && j < |front| && (forall i :: 0 <= i < |front| ==> front[i] in infos)
    && (forall i :: 0 <= i < |front| ==> infos[front[j]].lastSuccess <= infos[front[i]].lastSuccess)
    && (forall i :: 0 <= i < j ==> infos[front[j]].lastSuccess < infos[front[i]].lastSuccess)
  }

  /** The first `|draws|` entries of the shuffled bucket have been drawn, each from the places not
      drawn before, and `pos` is where the least recently successful of them was found. */
  ghost predicate Drawn(infos: Infos, before: seq<int>, bucket: seq<int>, pos: nat, draws: seq<nat>, j: nat) {
    && |draws| <= |before| && (forall i :: 0 <= i < |draws| ==> i <= draws[i] < |before|)
    && bucket == Shuffled(before, draws)
    && j < |draws| && pos == draws[j] && LeastRecent(infos, bucket[..|draws|], j)
  }

  /** What `SelectTried` does with a bucket. */
  ghost predicate Selected(infos: Infos, before: seq<int>, bucket: seq<int>, pos: nat) {
    exists draws: seq<nat>, j: nat ::
      |draws| == Min(TRIED_ENTRIES_INSPECT_ON_EVICT, |before|) && Drawn(infos, before, bucket, pos, draws, j)
  }

  lemma SelectedFrame(infos: Infos, infos': Infos, before: seq<int>, bucket: seq<int>, pos: nat)
    requires Selected(infos, before, bucket, pos)
    requires forall x :: x in infos ==> x in infos' && infos'[x].lastSuccess == infos[x].lastSuccess
    ensures Selected(infos', before, bucket, pos)
  {
    var draws: seq<nat>, j: nat :|
      |draws| == Min(TRIED_ENTRIES_INSPECT_ON_EVICT, |before|) && Drawn(infos, before, bucket, pos, draws, j);
    forall i | 0 <= i < |draws|
      ensures bucket[..|draws|][i] in infos'
              && infos'[bucket[..|draws|][i]].lastSuccess == infos[bucket[..|draws|][i]].lastSuccess
    {
      var x := bucket[..|draws|][i];
      assert x in infos;
    }
    assert Drawn(infos', before, bucket, pos, draws, j);
  }

  /** The entry at the selected position is as old as the least recently successful one drawn. */
  ghost predicate AsOld(infos: Infos, bucket: seq<int>, pos: nat, n: nat) {
    && pos < |bucket| && bucket[pos] in infos
    && forall i :: 0 <= i < n && i < |bucket| && bucket[i] in infos ==>
         infos[bucket[pos]].lastSuccess <= infos[bucket[i]].lastSuccess
  }

  /** Whatever is drawn, the selected position holds a least recently successful entry. */
  ghost predicate AlwaysAsOld(infos: Infos, before: seq<int>) {
    forall bucket, pos: nat, draws: seq<nat>, j: nat ::
      Drawn(infos, before, bucket, pos, draws, j) && |draws| == TRIED_ENTRIES_INSPECT_ON_EVICT ==>
        AsOld(infos, bucket, pos, |draws|)
  }

  /** All entries of the bucket were last successful at the same time. */
  ghost predicate SameAge(infos: Infos, bucket: seq<int>)
    requires Known(infos, bucket)
  {
    forall a, b :: 0 <= a < |bucket| && 0 <= b < |bucket| ==>
        infos[bucket[a]].lastSuccess == infos[bucket[b]].lastSuccess
  }

  /** So `SelectTried` finds "the least recently tried" for certain exactly if there is nothing to
      choose: as soon as two entries of a bucket differ, some draw makes it select another one. */
  lemma SelectsLeastRecentIff(infos: Infos, before: seq<int>)
    requires |before| >= TRIED_ENTRIES_INSPECT_ON_EVICT && Known(infos, before)
    ensures AlwaysAsOld(infos, before) <==> SameAge(infos, before)
  {
    if SameAge(infos, before) {
      forall bucket, pos: nat, draws: seq<nat>, j: nat
        | Drawn(infos, before, bucket, pos, draws, j) && |draws| == TRIED_ENTRIES_INSPECT_ON_EVICT
        ensures AsOld(infos, bucket, pos, |draws|)
      {
        ShuffledKnown(infos, before, draws);
      }
    } else {
      var bucket, pos, draws, j := SelectsAnother(infos, before);
    }
  }

  /** Where the entry at place `i` of the shuffled bucket comes from. */
  lemma {:induction false} ShuffledFrom(s: seq<int>, draws: seq<nat>, i: nat) returns (k: nat)
    requires i < |s|
    ensures k < |s| && Shuffled(s, draws)[i] == s[k]
    decreases |draws|
  {
    if draws == [] {
      k := i;
    } else {
      var last := |draws| - 1;
      var swaps := last < |s| && draws[last] < |s|;
      k := ShuffledFrom(s, draws[..last], if swaps && i == last then draws[last] else if swaps
          && i == draws[last] then last else i);
    }
  }

  lemma ShuffledKnown(infos: Infos, s: seq<int>, draws: seq<nat>)
    requires Known(infos, s)
    ensures Known(infos, Shuffled(s, draws))
    ensures forall i :: 0 <= i < |s| && SameAge(infos, s) ==>
            infos[Shuffled(s, draws)[i]].lastSuccess == infos[s[0]].lastSuccess
  {
    forall i | 0 <= i < |s|
      ensures Shuffled(s, draws)[i] in infos
      ensures SameAge(infos, s) ==> infos[Shuffled(s, draws)[i]].lastSuccess == infos[s[0]].lastSuccess
    {
      var k := ShuffledFrom(s, draws, i);
    }
  }

  lemma ShuffledAbove(infos: Infos, s: seq<int>, draws: seq<nat>, least: int)
    requires Known(infos, s) && forall k :: 0 <= k < |s| ==> least <= infos[s[k]].lastSuccess
    ensures Known(infos, Shuffled(s, draws))
    ensures forall i :: 0 <= i < |s| ==> least <= infos[Shuffled(s, draws)[i]].lastSuccess
  {
    forall i | 0 <= i < |s|
      ensures Shuffled(s, draws)[i] in infos && least <= infos[Shuffled(s, draws)[i]].lastSuccess
    {
      var k := ShuffledFrom(s, draws, i);
    }
  }

  lemma SwapSame(s: seq<int>, i: nat)
    requires i < |s|
    ensures SwapSeq(s, i, i) == s
  {
  }

  /** The four draws, one after the other. */
  lemma ShuffledFour(s: seq<int>, a: nat, b: nat, c: nat, d: nat)
    requires |s| >= 4 && a < |s| && b < |s| && c < |s| && d < |s|
    ensures Shuffled(s, [a, b, c, d]) == SwapSeq(SwapSeq(SwapSeq(SwapSeq(s, a, 0), b, 1), c, 2), d, 3)
  {
    var draws: seq<nat> := [a, b, c, d];
    assert draws[..3] == [a, b, c] && draws[..3][..2] == [a, b] && draws[..3][..2][..1] == [a];
    assert [a, b, c][..2] == [a, b] && [a, b][..1] == [a] && [a][..0] == [];
    assert Shuffled(s, []) == s;
    assert Shuffled(s, [a]) == SwapSeq(s, a, 0);
    assert Shuffled(s, [a, b]) == SwapSeq(SwapSeq(s, a, 0), b, 1);
    assert Shuffled(s, [a, b, c]) == SwapSeq(SwapSeq(SwapSeq(s, a, 0), b, 1), c, 2);
  }

  /** A place of the bucket with the least time. */
  lemma {:induction false} OldestPlace(infos: Infos, s: seq<int>) returns (p: nat)
    requires s != [] && Known(infos, s)
    ensures p < |s| && forall k :: 0 <= k < |s| ==> infos[s[p]].lastSuccess <= infos[s[k]].lastSuccess
  {
    p := 0;
    for i := 1 to |s|
      invariant p < |s| && forall k :: 0 <= k < i ==> infos[s[p]].lastSuccess <= infos[s[k]].lastSuccess
    {
      if infos[s[i]].lastSuccess < infos[s[p]].lastSuccess {
        p := i;
      }
    }
  }

  /** A draw for which another entry is selected. */
  lemma SelectsAnother(infos: Infos, before: seq<int>) returns (bucket: seq<int>, pos: nat, draws: seq<nat>, j: nat)
    requires |before| >= TRIED_ENTRIES_INSPECT_ON_EVICT && Known(infos, before) && !SameAge(infos, before)
    ensures Drawn(infos, before, bucket, pos, draws, j) && |draws| == TRIED_ENTRIES_INSPECT_ON_EVICT
    ensures !AsOld(infos, bucket, pos, |draws|)
  {
    var p := OldestPlace(infos, before);
    var least := infos[before[p]].lastSuccess;
    if infos[before[0]].lastSuccess > least {
      draws, pos, j := [p, 1, 2, 3], p, 0;
      DisplacesFirst(infos, before, p);
    } else if infos[before[1]].lastSuccess > least {
      draws, pos := [2, 2, 2, 3], 2;
      j := DisplacesSecond(infos, before);
    } else {
      var q :| 0 <= q < |before| && infos[before[q]].lastSuccess > least;
      draws, pos, j := [1, q, 2, 3], 1, 0;
      DisplacesLater(infos, before, q);
    }
    bucket := Shuffled(before, draws);
    hide Drawn, AsOld, Shuffled;
  }

  /** If the first entry drawn is oldest and a younger one is where it was found, the latter is selected. */
  lemma FirstLost(infos: Infos, before: seq<int>, bucket: seq<int>, draws: seq<nat>)
    requires |draws| == 4 <= |before| && forall i :: 0 <= i < 4 ==> i <= draws[i] < |before|
    requires bucket == Shuffled(before, draws) && Known(infos, bucket)
    requires forall i :: 0 <= i < |bucket| ==> infos[bucket[0]].lastSuccess <= infos[bucket[i]].lastSuccess
    requires infos[bucket[0]].lastSuccess < infos[bucket[draws[0]]].lastSuccess
    ensures Drawn(infos, before, bucket, draws[0], draws, 0) && !AsOld(infos, bucket, draws[0], 4)
  {
  }

  /** The oldest entry, drawn first, changes places with the first entry, which is younger. */
  lemma DisplacesFirst(infos: Infos, before: seq<int>, p: nat)
    requires 1 <= p < |before| && |before| >= 4 && Known(infos, before)
    requires infos[before[p]].lastSuccess < infos[before[0]].lastSuccess
    requires forall k :: 0 <= k < |before| ==> infos[before[p]].lastSuccess <= infos[before[k]].lastSuccess
    ensures var draws: seq<nat> := [p, 1, 2, 3];
            Drawn(infos, before, Shuffled(before, draws), p, draws, 0)
                && !AsOld(infos, Shuffled(before, draws), p, |draws|)
  {
    ShuffledFour(before, p, 1, 2, 3);
    ShuffledAbove(infos, before, [p, 1, 2, 3], infos[before[p]].lastSuccess);
    hide Shuffled, Drawn, AsOld;
    var bucket := SwapSeq(before, p, 0);
    SwapSame(bucket, 1);
    SwapSame(bucket, 2);
    SwapSame(bucket, 3);
    FirstLost(infos, before, bucket, [p, 1, 2, 3]);
  }

  /** The first entry is oldest and the second younger: drawn second, the first changes places with it. */
  lemma DisplacesSecond(infos: Infos, before: seq<int>) returns (j: nat)
    requires |before| >= 4 && Known(infos, before)
    requires infos[before[0]].lastSuccess < infos[before[1]].lastSuccess
    requires forall k :: 0 <= k < |before| ==> infos[before[0]].lastSuccess <= infos[before[k]].lastSuccess
    ensures var draws: seq<nat> := [2, 2, 2, 3];
            Drawn(infos, before, Shuffled(before, draws), 2, draws, j)
                && !AsOld(infos, Shuffled(before, draws), 2, |draws|)
  {
    ShuffledFour(before, 2, 2, 2, 3);
    hide Shuffled;
    var bucket := SwapSeq(SwapSeq(before, 2, 0), 2, 1);
    SwapSame(bucket, 2);
    SwapSame(bucket, 3);
    assert bucket[0] == before[2] && bucket[1] == before[0] && bucket[2] == before[1];
    j := if infos[before[2]].lastSuccess == infos[before[0]].lastSuccess then 0 else 1;
    assert LeastRecent(infos, bucket[..4], j);
  }

  /** The first two entries are oldest: drawn first, the second changes places with the first, and
      then a younger one is moved to where it was found. */
  lemma DisplacesLater(infos: Infos, before: seq<int>, q: nat)
    requires 2 <= q < |before| && |before| >= 4 && Known(infos, before)
    requires infos[before[0]].lastSuccess == infos[before[1]].lastSuccess < infos[before[q]].lastSuccess
    requires forall k :: 0 <= k < |before| ==> infos[before[0]].lastSuccess <= infos[before[k]].lastSuccess
    ensures var draws: seq<nat> := [1, q, 2, 3];
            Drawn(infos, before, Shuffled(before, draws), 1, draws, 0)
                && !AsOld(infos, Shuffled(before, draws), 1, |draws|)
  {
    ShuffledFour(before, 1, q, 2, 3);
    ShuffledAbove(infos, before, [1, q, 2, 3], infos[before[0]].lastSuccess);
    hide Shuffled, Drawn, AsOld;
    var bucket := SwapSeq(SwapSeq(before, 1, 0), q, 1);
    SwapSame(bucket, 2);
    SwapSame(bucket, 3);
    FirstLost(infos, before, bucket, [1, q, 2, 3]);
  }

  /** A full tried bucket in which the first entry succeeded a second after all others. */
  lemma FullBucket() returns (infos: Infos, bucket: seq<int>)
    ensures |bucket| == TRIED_BUCKET_SIZE && BucketOk(infos, bucket, 0, _ => 0) && !AlwaysAsOld(infos, bucket)
  {
    bucket := seq(64, i => i);
    infos := map i: int | 0 <= i < 64 :: Info(Service(i, 0), {}, 0, 0, if i == 0 then 2 else 1, 0, 0, 0, true, i);
    assert infos[bucket[0]].lastSuccess != infos[bucket[1]].lastSuccess;
    SelectsLeastRecentIff(infos, bucket);
  }

  /** One more entry drawn. */
  lemma DrawnNext(infos: Infos, before: seq<int>, bucket: seq<int>, pos: nat, draws: seq<nat>, j: nat, p: nat)
    requires |draws| <= p < |before| && |bucket| == |before| && bucket[p] in infos
    requires if draws == [] then bucket == before else Drawn(infos, before, bucket, pos, draws, j)
    ensures var first := draws == [] || infos[bucket[p]].lastSuccess < infos[bucket[j]].lastSuccess;
            Drawn(infos, before, SwapSeq(bucket, p, |draws|), if first then p else pos,
                  draws + [p], if first then |draws| else j)
    ensures draws != [] ==> j < |draws| && SwapSeq(bucket, p, |draws|)[j] == bucket[j]
  {
    var n := |draws|;
    var more, next := draws + [p], SwapSeq(bucket, p, n);
    assert more[..n] == draws;
    assert next == Shuffled(before, more);
    assert forall i :: 0 <= i < n ==> next[..n + 1][i] == bucket[..n][i];
    assert next[..n + 1][n] == bucket[p];
  }

  /** Of four entries drawn from a bucket, `x` is one with the smallest time. */
  ghost predicate OldestDrawn(infos: Infos, bucket: set<int>, drawn: seq<int>, x: int) {
    && |drawn| == 4 && x in drawn && x in infos
    && forall i :: 0 <= i < 4 ==> drawn[i] in bucket && drawn[i] in infos && infos[x].time <= infos[drawn[i]].time
  }

  /** Every entry of a bucket has its info. */
  ghost predicate Known(infos: Infos, bucket: seq<int>) {
    forall i :: 0 <= i < |bucket| ==> bucket[i] in infos
  }

  /** Between two rounds of the loop of `SelectTried`. */
  ghost predicate Selecting(infos: Infos, before: seq<int>, bucket: seq<int>, pos: nat, draws: seq<nat>, j: nat,
                            oldest: Option<int>) {
    && Rearranged(before, bucket) && (oldest.None? <==> draws == [])
    && (if draws == [] then bucket == before else Drawn(infos, before, bucket, pos, draws, j))
    && (oldest.Some? ==> j < |bucket| && oldest.value == bucket[j] && oldest.value in infos)
  }

  lemma SelectingStart(infos: Infos, before: seq<int>)
    ensures Selecting(infos, before, before, 0, [], 0, None)
  {
  }

  lemma SelectingNext(infos: Infos, before: seq<int>, bucket: seq<int>, pos: nat, draws: seq<nat>, j: nat,
                      oldest: Option<int>, p: nat)
    requires Selecting(infos, before, bucket, pos, draws, j, oldest) && |draws| <= p < |bucket| == |before|
    requires Known(infos, before)
    ensures bucket[p] in infos && (oldest.Some? ==> oldest.value in infos)
    ensures var first := oldest.None? || infos[bucket[p]].lastSuccess < infos[oldest.value].lastSuccess;
            Selecting(infos, before, SwapSeq(bucket, p, |draws|), if first then p else pos, draws + [p],
                      if first then |draws| else j, if first then Some(bucket[p]) else oldest)
  {
    assert bucket[p] in multiset(bucket);
    var x := bucket[p];
    assert x in before;
    SwapRearranges(before, bucket, p, |draws|);
    DrawnNext(infos, before, bucket, pos, draws, j, p);
    hide Drawn, Rearranged;
  }

  lemma SelectingDone(infos: Infos, before: seq<int>, bucket: seq<int>, pos: nat, draws: seq<nat>, j: nat,
                      oldest: Option<int>)
    requires Selecting(infos, before, bucket, pos, draws, j, oldest) && before != []
    requires |draws| <= |before| && |draws| <= TRIED_ENTRIES_INSPECT_ON_EVICT
    requires |draws| == |before| || |draws| == TRIED_ENTRIES_INSPECT_ON_EVICT
    ensures Rearranged(before, bucket) && pos < |bucket| && Selected(infos, before, bucket, pos)
  {
  }

  lemma RearrangedTried(infos: Infos, tried: seq<seq<int>>, place: Service -> nat, k: nat, bucket: seq<int>)
    requires TriedOk(infos, tried, place) && k < |tried| && Rearranged(tried[k], bucket)
    ensures TriedOk(infos, tried[k := bucket], place)
  {
    assert forall x :: x in bucket <==> x in multiset(bucket);
    assert forall x :: x in tried[k] <==> x in multiset(tried[k]);
    assert BucketOk(infos, tried[k], k, place);
    var tried' := tried[k := bucket];
    forall b | 0 <= b < |tried'|
      ensures BucketOk(infos, tried'[b], b, place)
    {
      assert BucketOk(infos, tried[b], b, place);
    }
  }

  /** What `Add_` makes of an entry it already has. */
  function Refreshed(info: Info, addr: Address, penalty: nat, now: int): Info {
    var interval := if now - addr.time < 24 * 60 * 60 then 60 * 60 else 24 * 60 * 60;
    var time := if addr.time != 0
        && (info.time == 0 || info.time < addr.time - interval - penalty) then LessPenalty(addr.time, penalty)
                else info.time;
    info.(time := time, services := info.services + addr.services)
  }

  function LessPenalty(time: nat, penalty: nat): nat {
    if time < penalty then 0 else time - penalty
  }

  /** The entry, as refreshed, may get another bucket: the report is newer than what is known, the
      entry is untried and not in four buckets yet. */
  predicate MayGetBucket(info: Info, addr: Address) {
    && addr.time != 0 && (info.time == 0 || addr.time > info.time)
    && !info.inTried && info.refCount != NEW_BUCKETS_PER_ADDRESS
  }

  /** The tables after creating an entry for an unknown address, in no bucket yet. */
  function Introduced(t: Tables, addr: Address, source: Ip, penalty: nat): Tables {
    var made := Created(t,
        Info(addr.service, addr.services, addr.time, source, 0, 0, 0, 0, false, 0)).(newCount := t.newCount + 1);
    Touched(made, t.idCount, made.infos[t.idCount].(time := LessPenalty(made.infos[t.idCount].time, penalty)))
  }

  /** `u` is `t` with entry `id` in new bucket `b`; if the bucket was full, the entry `dropped` left it. */
  ghost predicate IsPut(t: Tables, id: int, b: nat, dropped: Option<int>, u: Tables) {
    b < |t.news| && id in t.infos &&
    if id in t.news[b] then u == t && dropped == None
    else match dropped
      case None => |t.news[b]| != NEW_BUCKET_SIZE && u == Put(Counted(t, id, 1), id, b)
      case Some(x) =>
        && |t.news[b]| == NEW_BUCKET_SIZE && x in t.news[b]
        && x in t.infos && RandomOk(Counted(t, id, 1).infos, t.random)
        && u == Put(Dropped(Counted(t, id, 1), x, b), id, b)
  }

  /** An entry after a connection to it succeeded. */
  function Succeeded(info: Info, time: int): Info {
    info.(lastSuccess := time, lastTry := time, time := Truncated(time), attempts := 0)
  }

  /** How an entry came into a full tried bucket: the new bucket it was found in, the shuffled tried
      bucket, the position it took, and the new bucket for the entry that was there. */
  datatype Promotion = Promotion(origin: nat, bucket: seq<int>, pos: nat, b: nat)

  lemma InNoBucket(news: seq<set<int>>, id: int)
    requires Buckets(news, id) == {}
    ensures forall b :: 0 <= b < |news| ==> id !in news[b]
  {
    forall b | 0 <= b < |news|
      ensures id !in news[b]
    {
      assert b !in Buckets(news, id);
    }
  }

  class Manager {
    /** `GetTriedBucket` and `GetNewBucket` under the manager's secret key. */
    const place: Service -> nat
    const newPlace: (Service, Ip) -> nat

    var idCount: int
    var infos: Infos
    var ids: map<Ip, int>
    var random: seq<int>
    var triedCount: int
    var tried: seq<seq<int>>
    var newCount: int
    var news: seq<set<int>>

    ghost function View(): Tables
      reads this
    {
      Tables(idCount, infos, ids, random, triedCount, tried, newCount, news)
    }

    /** The bucket functions stay within the tables. */
    ghost predicate Placed() {
      && (forall s :: place(s) < TRIED_BUCKET_COUNT)
      && (forall s, src :: newPlace(s, src) < NEW_BUCKET_COUNT)
    }

    ghost predicate Valid()
      reads this
    {
      Placed() && Agree(View(), place)
    }

    constructor (triedPlace: Service -> nat, otherPlace: (Service, Ip) -> nat)
      requires forall s :: triedPlace(s) < TRIED_BUCKET_COUNT
      requires forall s, src :: otherPlace(s, src) < NEW_BUCKET_COUNT
      ensures place == triedPlace && newPlace == otherPlace && Valid() && infos == map[]
    {
      place, newPlace := triedPlace, otherPlace;
      idCount, infos, ids, random := 0, map[], map[], [];
      triedCount, tried := 0, seq(TRIED_BUCKET_COUNT, _ => []);
      newCount, news := 0, seq(NEW_BUCKET_COUNT, _ => {});
      new;
      EmptyAgrees(place);
    }

    method Find(ip: Ip) returns (id: Option<int>)
      requires Valid()
      ensures id.Some? <==> ip in ids
      ensures id.Some? ==> id.value in infos && infos[id.value].service.ip == ip && ids[ip] == id.value
    {
      if ip !in ids {
        return None;
      }
      return Some(ids[ip]);
    }

    method SwapRandom(i: nat, j: nat)
      requires RandomOk(infos, random) && i < |random| && j < |random|
      modifies this`infos, this`random
      ensures infos == SwapInfos(old(infos), old(random), i, j)
      ensures random == SwapSeq(old(random), i, j)
    {
      if i == j {
        return;
      }
      var id1, id2 := random[i], random[j];
      infos := infos[id1 := infos[id1].(randomPos := j)];
      infos := infos[id2 := infos[id2].(randomPos := i)];
      random := random[i := id2];
      random := random[j := id1];
    }

    method Create(info: Info) returns (id: int)
      modifies this`idCount, this`infos, this`ids, this`random
      ensures id == old(idCount)
      ensures View() == Created(old(View()), info)
    {
      id := idCount;
      idCount := idCount + 1;
      infos := infos[id := Fresh(info, |random|)];
      ids := ids[info.service.ip := id];
      random := random + [id];
    }

    /** One round of the loop below: draw an entry, move it to place `i` and look at it. */
    method Draw(k: nat, i: nat, oldest: Option<int>, pos: nat, ghost before: seq<int>, ghost draws: seq<nat>,
                ghost j: nat)
      returns (oldest': Option<int>, pos': nat, ghost draws': seq<nat>, ghost j': nat)
      requires k < |tried| && |draws| == i < |tried[k]| == |before| && Known(infos, before)
      requires Selecting(infos, before, tried[k], pos, draws, j, oldest)
      modifies this`tried
      ensures |tried| == |old(tried)| && |tried[k]| == |before| && tried == old(tried)[k := tried[k]]
      ensures |draws'| == i + 1 && Selecting(infos, before, tried[k], pos', draws', j', oldest')
    {
      hide Selecting, Known;
      var draw := RandInt(|tried[k]| - i);
      var p := draw + i;
      var entry := tried[k][p];
      SelectingNext(infos, before, tried[k], pos, draws, j, oldest, p);
      tried := tried[k := tried[k][p := tried[k][i]][i := entry]];
      draws' := draws + [p];
      if oldest.None? || infos[entry].lastSuccess < infos[oldest.value].lastSuccess {
        return Some(entry), p, draws', i;
      }
      return oldest, pos, draws', j;
    }

    /** `SelectTried`: the position to evict from a bucket, which is shuffled on the way. */
    method SelectTried(k: nat) returns (pos: nat)
      requires k < |tried| && tried[k] != [] && Known(infos, tried[k])
      modifies this`tried
      ensures |tried| == |old(tried)| && tried == old(tried)[k := tried[k]]
      ensures Rearranged(old(tried)[k], tried[k])
      ensures pos < |tried[k]| && Selected(infos, old(tried)[k], tried[k], pos)
    {
      var oldest: Option<int> := None;
      pos := 0;
      var i := 0;
      ghost var draws: seq<nat>, j: nat := [], 0;
      SelectingStart(infos, tried[k]);
      hide Selecting, Known, Selected, Rearranged;
      while i < TRIED_ENTRIES_INSPECT_ON_EVICT && i < |tried[k]|
        invariant 0 <= i <= |old(tried)[k]| && |draws| == i <= TRIED_ENTRIES_INSPECT_ON_EVICT
        invariant |tried| == |old(tried)| && |tried[k]| == |old(tried)[k]| && tried == old(tried)[k := tried[k]]
        invariant Selecting(infos, old(tried)[k], tried[k], pos, draws, j, oldest)
      {
        oldest, pos, draws, j := Draw(k, i, oldest, pos, old(tried)[k], draws, j);
        i := i + 1;
      }
      SelectingDone(infos, old(tried)[k], tried[k], pos, draws, j, oldest);
    }

    lemma DropFacts(t: Tables, p: int, d: int, id: int, b: nat)
      requires AgreeExcept(t, place, p, d) && b < |t.news| && id in t.news[b]
      ensures RandomOk(t.infos, t.random) && id in t.infos && 0 <= t.infos[id].randomPos < |t.random|
    {
      NewEntry(t.infos, t.news, p, d, b, id);
      RandomPlace(t.infos, t.random, id);
    }

    /** The deletion step that `ShrinkNew` has twice. */
    method Drop(id: int, b: nat, ghost p: int, ghost d: int)
      requires AgreeExcept(View(), place, p, d) && b < |news| && id in news[b] && id != p
      modifies this`infos, this`random, this`ids, this`newCount, this`news
      ensures View() == Dropped(old(View()), id, b)
      ensures AgreeExcept(View(), place, p, d)
    {
      hide RandomOk, IdsOk, TriedOk, NewOk, CountsOk, TimesOk, AgreeExcept;
      DropFacts(View(), p, d, id, b);
      DroppedAgrees(View(), place, p, d, id, b);
      infos := infos[id := infos[id].(refCount := infos[id].refCount - 1)];
      RandomFrame(old(infos), infos, random);
      if infos[id].refCount == 0 {
        var ip := infos[id].service.ip;
        SwapRandom(infos[id].randomPos, |random| - 1);
        random := random[..|random| - 1];
        ids := ids - {ip};
        infos := infos - {id};
        newCount := newCount - 1;
      }
      news := news[b := news[b] - {id}];
    }

    /** `ShrinkNew`: makes room in a full bucket by dropping its first terrible entry, or else
        the least recently seen of four drawn at random. */
    method ShrinkNew(b: nat, now: int, ghost p: int, ghost d: int)
      returns (kind: int, ghost dropped: int, ghost drawn: seq<int>)
      requires AgreeExcept(View(), place, p, d) && b < |news| && |news[b]| > 0 && p !in news[b]
      modifies this`infos, this`random, this`ids, this`newCount, this`news
      ensures dropped in old(news)[b] && dropped in old(infos)
      ensures View() == Dropped(old(View()), dropped, b)
      ensures AgreeExcept(View(), place, p, d)
      ensures kind == 0 ==> IsTerrible(old(infos)[dropped], now) &&
                            forall x :: x in old(news)[b] && x in old(infos) && x < dropped ==>
                                !IsTerrible(old(infos)[x], now)
      ensures kind == 1 ==> forall x :: x in old(news)[b] && x in old(infos) ==> !IsTerrible(old(infos)[x], now)
      ensures kind == 1 ==> OldestDrawn(old(infos), old(news)[b], drawn, dropped)
      ensures kind == 0 || kind == 1
    {
      var order := Ascending(news[b]);
      assert forall x :: x in news[b] ==> x in infos;
      hide OldestDrawn;
      var i := 0;
      while i < |order|
        invariant 0 <= i <= |order|
        invariant forall k :: 0 <= k < i ==> order[k] in infos && !IsTerrible(infos[order[k]], now)
      {
        assert order[i] in news[b];
        if IsTerrible(infos[order[i]], now) {
          dropped := order[i];
          forall x | x in news[b] && x in infos && x < dropped
            ensures !IsTerrible(infos[x], now)
          {
            var k :| 0 <= k < |order| && order[k] == x;
            assert k < i;
          }
          Drop(order[i], b, p, d);
          return 0, dropped, [];
        }
        i := i + 1;
      }
      var oldest;
      oldest, drawn := OldestOfFour(order, news[b]);
      dropped := oldest;
      assert forall x :: x in news[b] ==> x in order;
      Drop(oldest, b, p, d);
      return 1, dropped, drawn;
    }

    /** Of the entries at four random places, one with the smallest time. */
    method OldestOfFour(order: seq<int>, ghost bucket: set<int>) returns (oldest: int, ghost drawn: seq<int>)
      requires order != [] && forall k :: 0 <= k < |order| ==> order[k] in infos && order[k] in bucket
      ensures oldest in bucket && OldestDrawn(infos, bucket, drawn, oldest)
    {
      var n0 := RandInt(|order|);
      var n1 := RandInt(|order|);
      var n2 := RandInt(|order|);
      var n3 := RandInt(|order|);
      ghost var at := [n0, n1, n2, n3];
      drawn := [order[n0], order[n1], order[n2], order[n3]];
      var found: Option<int> := None;
      var i := 0;
      while i < |order|
        invariant 0 <= i <= |order|
        invariant found.Some? ==> found.value in infos && found.value in drawn
        invariant forall j :: 0 <= j < 4 && at[j] < i ==> found.Some? && infos[found.value].time <= infos[drawn[j]].time
      {
        if i == n0 || i == n1 || i == n2 || i == n3 {
          assert i == at[0] || i == at[1] || i == at[2] || i == at[3];
          assert order[i] == drawn[0] || order[i] == drawn[1] || order[i] == drawn[2] || order[i] == drawn[3];
          if found.None? || infos[order[i]].time < infos[found.value].time {
            found := Some(order[i]);
          }
        }
        i := i + 1;
      }
      assert at[0] < |order|;
      oldest := found.value;
      assert forall j :: 0 <= j < 4 ==> at[j] < |order| && drawn[j] == order[at[j]];
    }

    lemma EntryFacts(t: Tables, id: int)
      requires Agree(t, place) && id in t.infos
      ensures t.infos[id].lastTry >= 0 && t.infos[id].lastSuccess >= 0
      ensures t.infos[id].inTried ==> t.infos[id].lastSuccess > 0
      ensures !t.infos[id].inTried ==> 1 <= t.infos[id].refCount <= NEW_BUCKETS_PER_ADDRESS
    {
      TriedPositive(t.infos, t.tried, place);
      if !t.infos[id].inTried {
        assert RefCountOk(t.infos[id].refCount, t.news, id, -1, 0);
      }
    }

    /** What `Add_` does to an entry it already has; whether it should get another bucket. */
    method Update(id: int, addr: Address, penalty: nat, now: int) returns (wanted: bool)
      requires Valid() && id in infos
      modifies this`infos
      ensures Valid()
      ensures View() == Touched(old(View()), id, Refreshed(old(infos)[id], addr, penalty, now))
      ensures wanted ==> MayGetBucket(infos[id], addr) && infos[id].refCount < NEW_BUCKETS_PER_ADDRESS
      ensures !wanted && MayGetBucket(infos[id], addr) ==> infos[id].refCount >= 1
    {
      hide RandomOk, IdsOk, TriedOk, NewOk, CountsOk, TimesOk, AgreeExcept;
      EntryFacts(View(), id);
      var info := infos[id];
      var online := now - addr.time < 24 * 60 * 60;
      var interval := if online then 60 * 60 else 24 * 60 * 60;
      if addr.time != 0 && (info.time == 0 || info.time < addr.time - interval - penalty) {
        info := info.(time := if addr.time < penalty then 0 else addr.time - penalty);
      }
      info := info.(services := info.services + addr.services);
      TouchedAgrees(View(), place, -1, 0, id, info);
      infos := infos[id := info];
      if addr.time == 0 || (info.time != 0 && addr.time <= info.time) {
        return false;
      }
      if info.inTried || info.refCount == NEW_BUCKETS_PER_ADDRESS {
        return false;
      }
      var factor := 1;
      for n := 0 to info.refCount
        invariant factor >= 1 && (n == 0 ==> factor == 1)
      {
        factor := factor * 2;
      }
      var draw := RandInt(factor);
      return !(factor > 1 && draw != 0);
    }

    /** The end of `Add_`: count the entry into bucket `b`, making room first if it is full. */
    method Place(id: int, b: nat, now: int, ghost p: int) returns (ghost dropped: Option<int>)
      requires AgreeExcept(View(), place, p, 0) && (p == -1 || p == id) && id != -1
      requires id in infos && !infos[id].inTried && infos[id].refCount < NEW_BUCKETS_PER_ADDRESS && b < |news|
      requires p == id ==> id !in news[b]
      modifies this`infos, this`random, this`ids, this`newCount, this`news
      ensures Agree(View(), place) && IsPut(old(View()), id, b, dropped, View())
      ensures id in infos && infos[id].service == old(infos)[id].service
      ensures id in news[b] && idCount == old(idCount) && tried == old(tried)
      ensures dropped.None? ==> ids == old(ids)
      ensures dropped.Some? ==> && dropped.value in old(infos) && dropped.value in old(news)[b] && dropped.value != id
                                && |old(news)[b]| == NEW_BUCKET_SIZE
                                && (ids == old(ids) || ids == old(ids) - {old(infos)[dropped.value].service.ip})
    {
      dropped := None;
      assert |news[b]| <= NEW_BUCKET_SIZE;
      hide RandomOk, IdsOk, TriedOk, NewOk, CountsOk, TimesOk, Dropped;
      if id !in news[b] {
        PromisedAgrees(View(), place, p, id);
        infos := infos[id := infos[id].(refCount := infos[id].refCount + 1)];
        assert View() == Counted(old(View()), id, 1);
        if |news[b]| == NEW_BUCKET_SIZE {
          ghost var before, x, drawn := View(), 0, [];
          var kind;
          kind, x, drawn := ShrinkNew(b, now, id, 1);
          DroppedKeeps(before, place, id, 1, x, b);
          SmallerSet(before.news[b], x);
          dropped := Some(x);
        }
        PutAgrees(View(), place, id, b);
        news := news[b := news[b] + {id}];
      }
    }

    /** `Add_`: learn of an address from a peer.  A new address always gets a bucket; a known
        one may get another.  At most one entry is lost for it, a new one from a full bucket. */
    method Add(addr: Address, source: Ip, penalty: nat, now: int)
      returns (isNew: bool, ghost wanted: bool, ghost dropped: Option<int>)
      requires Valid()
      modifies this`idCount, this`infos, this`random, this`ids, this`newCount, this`news
      ensures Valid()
      ensures isNew <==> addr.routable && addr.service.ip !in old(ids)
      ensures isNew ==> IsPut(Introduced(old(View()), addr, source, penalty), old(idCount),
              newPlace(addr.service, source), dropped, View())
      ensures addr.routable && !isNew ==>
                var id := old(ids)[addr.service.ip];
                var info := Refreshed(old(infos)[id], addr, penalty, now);
                var touched := Touched(old(View()), id, info);
                && (wanted ==>
                      MayGetBucket(info, addr) && IsPut(touched, id, newPlace(info.service, source), dropped, View()))
                && (!wanted ==> View() == touched && (MayGetBucket(info, addr) ==> info.refCount >= 1))
      ensures !addr.routable ==> View() == old(View())
      ensures dropped.Some? ==> dropped.value in old(infos) && !old(infos)[dropped.value].inTried
      ensures var with := if isNew then old(ids)[addr.service.ip := old(idCount)] else old(ids);
              ids == with || (dropped.Some? && ids == with - {old(infos)[dropped.value].service.ip})
    {
      wanted, dropped := false, None;
      if !addr.routable {
        return false, wanted, dropped;
      }
      var known := Find(addr.service.ip);
      if known.Some? {
        var id := known.value;
        var again := Update(id, addr, penalty, now);
        wanted := again;
        if again {
          assert id != -1;
          dropped := Place(id, newPlace(infos[id].service, source), now, -1);
          if dropped.Some? {
            WasNew(old(View()), dropped.value, newPlace(old(infos)[id].service, source));
          }
        }
        return false, wanted, dropped;
      }
      isNew := true;
      dropped := AddNew(addr, source, penalty, now);
    }

    /** An entry of a new bucket is a known, untried one. */
    lemma WasNew(t: Tables, id: int, b: nat)
      requires Agree(t, place) && b < |t.news| && id in t.news[b]
      ensures id in t.infos && !t.infos[id].inTried
    {
    }

    lemma NextId(t: Tables)
      requires Agree(t, place)
      ensures t.idCount >= 0 && t.idCount !in t.infos
    {
      IdsBelow(t.infos, t.idCount, t.triedCount, t.newCount);
    }

    /** The new entry of an address not known before; it is in no bucket yet. */
    method Introduce(addr: Address, source: Ip, penalty: nat) returns (id: int)
      requires Valid() && addr.service.ip !in ids
      modifies this`idCount, this`infos, this`random, this`ids, this`newCount
      ensures id == old(idCount) && View() == Introduced(old(View()), addr, source, penalty)
      ensures AgreeExcept(View(), place, id, 0) && id != -1 && id !in old(infos) && forall b :: 0 <= b < |news| ==>
              id !in news[b]
      ensures id in infos && infos[id].service == addr.service && !infos[id].inTried && infos[id].refCount == 0
      ensures ids == old(ids)[addr.service.ip := id] && forall x :: x in old(infos) ==>
              x in infos && infos[x] == old(infos)[x]
    {
      hide RandomOk, IdsOk, TriedOk, NewOk, CountsOk, TimesOk, AgreeExcept;
      var info := Info(addr.service, addr.services, addr.time, source, 0, 0, 0, 0, false, 0);
      CreatedAgrees(View(), place, info);
      NextId(View());
      InNoBucket(news, idCount);
      id := Create(info);
      newCount := newCount + 1;
      var time := infos[id].time - penalty;
      var touched := infos[id].(time := if time < 0 then 0 else time);
      TouchedAgrees(View(), place, id, 0, id, touched);
      infos := infos[id := touched];
      assert View() == Introduced(old(View()), addr, source, penalty);
    }

    method AddNew(addr: Address, source: Ip, penalty: nat, now: int) returns (ghost dropped: Option<int>)
      requires Valid() && addr.service.ip !in ids
      modifies this`idCount, this`infos, this`random, this`ids, this`newCount, this`news
      ensures Valid()
      ensures IsPut(Introduced(old(View()), addr, source, penalty), old(idCount), newPlace(addr.service, source),
              dropped, View())
      ensures dropped.Some? ==> dropped.value in old(infos) && !old(infos)[dropped.value].inTried
      ensures var with := old(ids)[addr.service.ip := old(idCount)];
              ids == with || (dropped.Some? && ids == with - {old(infos)[dropped.value].service.ip})
    {
      var id := Introduce(addr, source, penalty);
      var b := newPlace(infos[id].service, source);
      assert b < |news|;
      hide IsPut, Introduced;
      dropped := Place(id, b, now, id);
      if dropped.Some? {
        WasNew(old(View()), dropped.value, b);
      }
    }

    /** The first loop of `MakeTried`: take the entry out of every new bucket, counting down. */
    method LeaveNew(id: int)
      requires id in infos && infos[id].refCount == |Buckets(news, id)|
      modifies this`infos, this`news
      ensures news == Without(old(news), id)
      ensures infos == old(infos)[id := old(infos)[id].(refCount := 0)]
    {
      var i := 0;
      assert BucketsFrom(news, id, 0) == Buckets(news, id);
      while i < |news|
        invariant 0 <= i <= |news| == |old(news)|
        invariant ErasedUpTo(old(news), id, i, news)
        invariant infos == old(infos)[id := old(infos)[id].(refCount := |BucketsFrom(old(news), id, i)|)]
      {
        BucketsFromStep(old(news), id, i);
        ErasedStep(old(news), id, i, news);
        if id in news[i] {
          news := news[i := news[i] - {id}];
          infos := infos[id := infos[id].(refCount := infos[id].refCount - 1)];
        }
        i := i + 1;
      }
      assert BucketsFrom(old(news), id, i) == {};
      assert news == Without(old(news), id);
    }

    /** `MakeTried`: move an entry from the new to the tried table, into the bucket it hashes to;
        from a full bucket another entry goes back to the new table, for which there is room. */
    method MakeTried(id: int, origin: nat) returns (ghost bucket: seq<int>, ghost pos: nat, ghost b: nat)
      requires Valid() && id in infos && !infos[id].inTried && infos[id].lastSuccess > 0
      requires origin < |news| && id in news[origin]
      modifies this`infos, this`news, this`newCount, this`tried, this`triedCount
      ensures Valid()
      ensures infos.Keys == old(infos).Keys && id in infos
      ensures infos[id] == old(infos)[id].(refCount := 0, inTried := true)
      ensures var k := place(old(infos)[id].service);
              if |old(tried)[k]| < TRIED_BUCKET_SIZE then View() == Promoted(old(View()), id, k)
              else IsExchange(old(View()), id, k, origin, bucket, pos, b, View())
    {
      hide RandomOk, IdsOk, TriedOk, NewOk, CountsOk, TimesOk, AgreeExcept, Without, Selected, Rearranged, IsRefuge;
      var k := place(infos[id].service);
      TriedSize(View());
      bucket, pos, b := [], 0, 0;
      CountedBuckets(View(), id);
      BucketOf(View(), k);
      LeaveNew(id);
      newCount := newCount - 1;
      if |tried[k]| < TRIED_BUCKET_SIZE {
        Promote(id, k, old(View()));
        return;
      }
      bucket, pos, b := Evict(id, k, origin, old(View()));
    }

    /** The second half of `MakeTried`, for a bucket with room; `t` is the state before the first half. */
    method Promote(id: int, k: nat, ghost t: Tables)
      requires Placed() && Agree(t, place) && id in t.infos && !t.infos[id].inTried && t.infos[id].lastSuccess > 0
      requires k == place(t.infos[id].service) && k < |t.tried| && |t.tried[k]| < TRIED_BUCKET_SIZE
      requires View() == t.(infos := t.infos[id := t.infos[id].(refCount := 0)], news := Without(t.news, id),
               newCount := t.newCount - 1)
      modifies this`infos, this`tried, this`triedCount
      ensures Valid() && View() == Promoted(t, id, k)
    {
      hide AgreeExcept;
      PromotedAgrees(t, place, id);
      hide Without;
      tried, triedCount := tried[k := tried[k] + [id]], triedCount + 1;
      infos := infos[id := infos[id].(inTried := true)];
      assert View() == Promoted(t, id, k);
    }

    /** What an eviction may do to the tables `t`. */
    ghost predicate IsExchange(t: Tables, id: int, k: nat, origin: nat, bucket: seq<int>, pos: nat, b: nat,
                               t': Tables) {
      && k < |t.tried| && Rearranged(t.tried[k], bucket) && pos < |bucket| && bucket[pos] in t.infos && id in t.infos
      && Selected(t.infos, t.tried[k], bucket, pos)
      && b < |t.news| && IsRefuge(t, id, bucket[pos], origin, b)
      && t' == Exchanged(t.(tried := t.tried[k := bucket]), id, k, pos, b)
    }

    /** The new bucket for an evicted entry: that of its source or, if that is full even without the
        entry that comes in, the one the latter came from. */
    ghost predicate IsRefuge(t: Tables, id: int, out: int, origin: nat, b: nat)
      requires out in t.infos
    {
      var c := newPlace(t.infos[out].service, t.infos[out].source);
      if c < |t.news| && |t.news[c] - {id}| >= NEW_BUCKET_SIZE then b == origin else b == c
    }

    /** The second half of `MakeTried`, for a full bucket; `t` is the state before the first half. */
    method Evict(id: int, k: nat, origin: nat, ghost t: Tables)
      returns (ghost bucket: seq<int>, ghost pos: nat, ghost b: nat)
      requires Placed() && Agree(t, place) && id in t.infos && !t.infos[id].inTried && t.infos[id].lastSuccess > 0
      requires k == place(t.infos[id].service) && k < |t.tried| && |t.tried[k]| == TRIED_BUCKET_SIZE
      requires origin < |t.news| && id in t.news[origin]
      requires View() == t.(infos := t.infos[id := t.infos[id].(refCount := 0)], news := Without(t.news, id),
               newCount := t.newCount - 1)
      modifies this`infos, this`news, this`newCount, this`tried
      ensures Valid()
      ensures IsExchange(t, id, k, origin, bucket, pos, b, View())
    {
      BucketOf(t, k);
      var p := SelectTried(k);
      bucket, pos := tried[k], p;
      SelectedFrame(infos, t.infos, t.tried[k], bucket, p);
      hide RandomOk, IdsOk, TriedOk, NewOk, CountsOk, TimesOk, Rearranged, Selected, AgreeExcept, Exchanged, IsRefuge;
      b := Exchange(id, k, origin, p, t);
    }

    /** Entry `id` takes place `p` of tried bucket `k`, and the entry there goes back to a new bucket. */
    method Exchange(id: int, k: nat, origin: nat, p: nat, ghost t: Tables) returns (ghost b: nat)
      requires Placed() && Agree(t, place) && id in t.infos && !t.infos[id].inTried && t.infos[id].lastSuccess > 0
      requires k == place(t.infos[id].service) && k < |t.tried| == |tried| && |t.tried[k]| == TRIED_BUCKET_SIZE
      requires origin < |t.news| && id in t.news[origin]
      requires Rearranged(t.tried[k], tried[k]) && p < |tried[k]|
      requires View() == t.(infos := t.infos[id := t.infos[id].(refCount := 0)], news := Without(t.news, id),
               newCount := t.newCount - 1,
                            tried := t.tried[k := tried[k]])
      modifies this`infos, this`news, this`newCount, this`tried
      ensures Valid()
      ensures var out := old(tried)[k][p]; out in t.infos && b < |t.news| && IsRefuge(t, id, out, origin, b)
      ensures View() == Exchanged(t.(tried := t.tried[k := old(tried)[k]]), id, k, p, b)
    {
      hide RandomOk, IdsOk, TriedOk, NewOk, CountsOk, TimesOk, Rearranged, AgreeExcept;
      SizeOf(t, origin, id);
      RearrangedAgrees(t, k, tried[k]);
      ghost var t1 := t.(tried := t.tried[k := tried[k]]);
      var out := tried[k][p];
      OutOf(t, k, tried[k], p);
      assert tried == t1.tried && out in infos && infos[out] == t.infos[out];
      var c := newPlace(infos[out].service, infos[out].source);
      if |news[c]| >= NEW_BUCKET_SIZE {
        c := origin;
      }
      b := c;
      ExchangedAgrees(t1, place, id, p, c);
      ExchangeOrder(t.infos, id, out);
      hide Without;
      var evicted := infos[out := infos[out].(inTried := false, refCount := 1)];
      infos, news, newCount, tried :=
        evicted[id := evicted[id].(inTried := true)], news[c := news[c] + {out}], newCount + 1,
            tried[k := tried[k][p := id]];
    }

    /** The order in which the two infos are rewritten does not matter. */
    lemma ExchangeOrder(infos: Infos, id: int, out: int)
      requires id in infos && out in infos && id != out
      ensures var counted := infos[id := infos[id].(refCount := 0)];
              var evicted := counted[out := counted[out].(inTried := false, refCount := 1)];
              evicted[id := evicted[id].(inTried := true)] ==
              infos[out := infos[out].(refCount := 1, inTried := false)][id := infos[id].(refCount := 0,
                  inTried := true)]
    {
    }

    lemma OutOf(t: Tables, k: nat, bucket: seq<int>, p: nat)
      requires Agree(t, place) && k < |t.tried| && Rearranged(t.tried[k], bucket) && p < |bucket|
      ensures bucket[p] in t.infos && t.infos[bucket[p]].inTried
    {
      assert bucket[p] in multiset(bucket);
      assert bucket[p] in t.tried[k];
      BucketOf(t, k);
    }

    lemma SizeOf(t: Tables, origin: nat, id: int)
      requires Agree(t, place) && origin < |t.news| && id in t.news[origin]
      ensures |t.news| == NEW_BUCKET_COUNT && |Without(t.news, id)[origin]| < NEW_BUCKET_SIZE
    {
      SmallerSet(t.news[origin], id);
    }

    lemma RearrangedAgrees(t: Tables, k: nat, bucket: seq<int>)
      requires Agree(t, place) && k < |t.tried| && Rearranged(t.tried[k], bucket)
      ensures Agree(t.(tried := t.tried[k := bucket]), place)
    {
      RearrangedTried(t.infos, t.tried, place, k, bucket);
    }

    lemma CountedBuckets(t: Tables, id: int)
      requires Agree(t, place) && id in t.infos && !t.infos[id].inTried
      ensures t.infos[id].refCount == |Buckets(t.news, id)|
    {
      assert RefCountOk(t.infos[id].refCount, t.news, id, -1, 0);
    }

    lemma TriedSize(t: Tables)
      requires Agree(t, place)
      ensures |t.tried| == TRIED_BUCKET_COUNT
    {
    }

    lemma BucketOf(t: Tables, k: nat)
      requires Agree(t, place) && k < |t.tried|
      ensures |t.tried[k]| <= TRIED_BUCKET_SIZE
      ensures forall id :: id in t.tried[k] ==> id in t.infos && t.infos[id].inTried
      ensures Known(t.infos, t.tried[k])
    {
      assert BucketOk(t.infos, t.tried[k], k, place);
      forall i | 0 <= i < |t.tried[k]|
        ensures t.tried[k][i] in t.infos
      {
        var id := t.tried[k][i];
        assert id in t.infos;
      }
    }

    /** `Good_`: a connection succeeded.  A known address with the same port ends up in the tried
        table; no address is lost. */
    method Good(service: Service, time: int) returns (ghost how: Promotion)
      requires Valid() && time > 0
      modifies this`infos, this`news, this`newCount, this`tried, this`triedCount
      ensures Valid()
      ensures infos.Keys == old(infos).Keys
      ensures !Knows(service, old(View())) ==> View() == old(View())
      ensures Knows(service, old(View())) ==>
                var id := ids[service.ip];
                var touched := Touched(old(View()), id, Succeeded(old(infos)[id], time));
                if old(infos)[id].inTried then View() == touched else IsPromoted(touched, id, how, View())
      ensures Knows(service, old(View())) ==>
                var info := infos[ids[service.ip]];
                info.inTried && info.lastSuccess == time && info.lastTry == time && info.time == Truncated(time)
                    && info.attempts == 0
    {
      hide RandomOk, IdsOk, TriedOk, NewOk, CountsOk, TimesOk, AgreeExcept, IsExchange, Promoted;
      TriedSize(View());
      how := Promotion(0, [], 0, 0);
      var known := Find(service.ip);
      if known.None? {
        return;
      }
      var id := known.value;
      if infos[id].service != service {
        return;
      }
      var info := infos[id].(lastSuccess := time, lastTry := time, time := Truncated(time), attempts := 0);
      TouchedAgrees(View(), place, -1, 0, id, info);
      infos := infos[id := info];
      if info.inTried {
        return;
      }
      var origin := FindBucket(id);
      ghost var bucket, pos, b;
      bucket, pos, b := MakeTried(id, origin);
      how := Promotion(origin, bucket, pos, b);
    }

    /** `id` moves to its tried bucket; if that is full, it takes the place of another entry, which goes
        to a new bucket. */
    ghost predicate IsPromoted(t: Tables, id: int, how: Promotion, u: Tables) {
      id in t.infos && place(t.infos[id].service) < |t.tried| &&
      var k := place(t.infos[id].service);
      if |t.tried[k]| < TRIED_BUCKET_SIZE then u == Promoted(t, id, k)
      else IsExchange(t, id, k, how.origin, how.bucket, how.pos, how.b, u)
    }

    /** The manager has the address, with the same port. */
    ghost predicate Knows(service: Service, t: Tables) {
      service.ip in t.ids && t.ids[service.ip] in t.infos && t.infos[t.ids[service.ip]].service == service
    }

    /** The search in `Good_`, from a random bucket onwards; it cannot fail. */
    method FindBucket(id: int) returns (b: nat)
      requires Valid() && id in infos && !infos[id].inTried
      ensures b < |news| && id in news[b]
    {
      b := 0;
      var start := RandInt(|news|);
      assert RefCountOk(infos[id].refCount, news, id, -1, 0);
      var n := 0;
      while n < |news|
        invariant 0 <= n <= |news|
        invariant forall k :: 0 <= k < n ==> id !in news[Turn(k, start, |news|)]
      {
        b := Turn(n, start, |news|);
        if id in news[b] {
          return;
        }
        n := n + 1;
      }
      NoBucket(news, id, start);
      assert false;
    }

    /** `Attempt_`: a connection was tried. */
    method Attempt(service: Service, time: int)
      requires Valid() && time >= 0
      modifies this`infos
      ensures Valid()
      ensures !Knows(service, old(View())) ==> infos == old(infos)
      ensures Knows(service, old(View())) ==>
                var id := ids[service.ip];
                infos == old(infos)[id := old(infos)[id].(lastTry := time, attempts := old(infos)[id].attempts + 1)]
    {
      var known := Find(service.ip);
      if known.None? || infos[known.value].service != service {
        return;
      }
      var id := known.value;
      var info := infos[id].(lastTry := time, attempts := infos[id].attempts + 1);
      TouchedAgrees(View(), place, -1, 0, id, info);
      infos := infos[id := info];
    }

    /** `Connected_`: we are connected; remembered at most every twenty minutes. */
    method Connected(service: Service, time: int)
      requires Valid()
      modifies this`infos
      ensures Valid()
      ensures !Knows(service, old(View())) || time - old(infos)[ids[service.ip]].time <= 20 * 60 ==> infos == old(infos)
      ensures Knows(service, old(View())) && time - old(infos)[ids[service.ip]].time > 20 * 60 ==>
                var id := ids[service.ip];
                infos == old(infos)[id := old(infos)[id].(time := Truncated(time))]
    {
      var known := Find(service.ip);
      if known.None? || infos[known.value].service != service {
        return;
      }
      var id := known.value;
      if time - infos[id].time > 20 * 60 {
        var info := infos[id].(time := Truncated(time));
        TouchedAgrees(View(), place, -1, 0, id, info);
        infos := infos[id := info];
      }
    }

    /** `GetAddr_`: up to 23 percent of the addresses, and no more than 2500, all different. */
    method GetAddr() returns (addresses: seq<Service>)
      requires Valid()
      modifies this`infos, this`random
      ensures Valid()
      ensures |addresses| == Limit(|random|) && |random| == |old(random)|
      ensures Listed(infos, random, addresses)
      ensures forall i, j :: 0 <= i < j < |addresses| ==> addresses[i].ip != addresses[j].ip
      ensures OnlyMoved(old(infos), infos)
    {
      hide Agree, OnlyMoved, Listed;
      var nodes := GETADDR_MAX_PCT * |random| / 100;
      if nodes > GETADDR_MAX {
        nodes := GETADDR_MAX;
      }
      addresses := [];
      ListedNone(infos, random);
      var n := 0;
      while n < nodes
        invariant 0 <= n <= nodes && |random| == |old(random)|
        invariant Valid()
        invariant OnlyMoved(old(infos), infos)
        invariant |addresses| == n && Listed(infos, random, addresses)
      {
        var draw := RandInt(|random| - n);
        ghost var infos0, random0 := infos, random;
        Shuffle(n, draw + n);
        ListedNext(infos0, random0, infos, random, addresses);
        MovedTwice(old(infos), infos0, infos);
        addresses := addresses + [infos[random[n]].service];
        n := n + 1;
      }
      Different(View(), addresses);
    }

    lemma Different(t: Tables, addresses: seq<Service>)
      requires Agree(t, place) && Listed(t.infos, t.random, addresses)
      ensures forall i, j :: 0 <= i < j < |addresses| ==> addresses[i].ip != addresses[j].ip
    {
      forall i, j | 0 <= i < j < |addresses|
        ensures addresses[i].ip != addresses[j].ip
      {
        var x, y := t.random[i], t.random[j];
        assert t.infos[x].randomPos == i && t.infos[y].randomPos == j;
        assert t.ids[t.infos[x].service.ip] == x && t.ids[t.infos[y].service.ip] == y;
      }
    }

    /** One step of the shuffle: only places in the random order change. */
    method Shuffle(i: nat, j: nat)
      requires Valid() && i <= j < |random|
      modifies this`infos, this`random
      ensures Valid() && |random| == |old(random)|
      ensures OnlyMoved(old(infos), infos) && random[i] in infos
      ensures forall k :: 0 <= k < i ==> random[k] == old(random)[k]
    {
      SwapAgrees(View(), i, j);
      SwapRandom(i, j);
    }

    lemma SwapAgrees(t: Tables, i: nat, j: nat)
      requires Agree(t, place) && i < |t.random| && j < |t.random|
      ensures Agree(t.(infos := SwapInfos(t.infos, t.random, i, j), random := SwapSeq(t.random, i, j)), place)
      ensures SameKeys(t.infos, SwapInfos(t.infos, t.random, i, j))
      ensures forall x :: x in t.infos ==>
                SwapInfos(t.infos, t.random, i, j)[x] ==
                    t.infos[x].(randomPos := SwapInfos(t.infos, t.random, i, j)[x].randomPos)
    {
      hide RandomOk, IdsOk, TriedOk, NewOk, CountsOk;
      RandomEntry(t.infos, t.random, i);
      RandomEntry(t.infos, t.random, j);
      var infos' := SwapInfos(t.infos, t.random, i, j);
      TriedPositive(t.infos, t.tried, place);
      SwapRandomOk(t.infos, t.random, i, j);
      SwapKeeps(t.infos, t.random, i, j);
      IdsFrame(t.infos, infos', t.ids);
      TriedFrame(t.infos, infos', t.tried, place);
      NewFrame(t.infos, infos', t.news, -1, 0);
      CountsFrame(t.infos, infos', t.idCount, t.triedCount, t.newCount);
    }

    /** Any run of the operations keeps the tables in agreement, and with them the limits. */
    method Run(calls: seq<Call>)
      requires Valid()
      requires forall k :: 0 <= k < |calls| ==> calls[k].Allowed()
      modifies this
      ensures Valid()
      ensures |infos| <= 20480 && |random| == |infos| && triedCount + newCount == |infos|
    {
      for i := 0 to |calls|
        invariant Valid()
      {
        match calls[i]
        case Add(addr, source, penalty, now) =>
          ghost var wanted, dropped;
          var isNew;
          isNew, wanted, dropped := Add(addr, source, penalty, now);
        case Good(service, time) =>
          ghost var how := Good(service, time);
        case Attempt(service, time) => Attempt(service, time);
        case Connected(service, time) => Connected(service, time);
        case GetAddr => var addresses := GetAddr();
      }
      Capacity(View(), place);
    }
  }

  /** Entries have changed their place in the random order and nothing else. */
  ghost predicate OnlyMoved(infos: Infos, infos': Infos) {
    SameKeys(infos, infos') && forall x :: x in infos ==> infos'[x] == infos[x].(randomPos := infos'[x].randomPos)
  }

  lemma MovedTwice(a: Infos, b: Infos, c: Infos)
    requires OnlyMoved(a, b) && OnlyMoved(b, c)
    ensures OnlyMoved(a, c)
  {
    forall x | x in a
      ensures c[x] == a[x].(randomPos := c[x].randomPos)
    {
      assert x in b.Keys;
    }
  }

  /** The addresses are those of the first ids in the random order. */
  ghost predicate Listed(infos: Infos, random: seq<int>, addresses: seq<Service>) {
    |addresses| <= |random| &&
    forall i :: 0 <= i < |addresses| ==> random[i] in infos && addresses[i] == infos[random[i]].service
  }

  lemma ListedNone(infos: Infos, random: seq<int>)
    ensures Listed(infos, random, []) && OnlyMoved(infos, infos)
  {
  }

  lemma ListedNext(infos: Infos, random: seq<int>, infos': Infos, random': seq<int>, addresses: seq<Service>)
    requires Listed(infos, random, addresses) && OnlyMoved(infos, infos')
    requires |addresses| < |random'| == |random| && random'[|addresses|] in infos'
    requires forall k :: 0 <= k < |addresses| ==> random'[k] == random[k]
    ensures Listed(infos', random', addresses + [infos'[random'[|addresses|]].service])
  {
    forall i | 0 <= i < |addresses|
      ensures random'[i] in infos' && addresses[i] == infos'[random'[i]].service
    {
      assert random[i] in infos.Keys;
    }
  }

  function Limit(n: nat): nat {
    var nodes := GETADDR_MAX_PCT * n / 100;
    if nodes > GETADDR_MAX then GETADDR_MAX else nodes
  }

  /** A call of one operation; times of success are positive, times of attempts are not negative. */
  datatype Call =
    | Add(addr: Address, source: Ip, penalty: nat, now: int)
    | Good(service: Service, time: int)
    | Attempt(service: Service, time: int)
    | Connected(service: Service, time: int)
    | GetAddr
  {
    predicate Allowed() {
      match this
      case Good(_, time) => time > 0
      case Attempt(_, time) => time >= 0
      case _ => true
    }
  }

  /** The first `i` buckets no longer hold the entry, the others are untouched. */
  ghost predicate ErasedUpTo(news: seq<set<int>>, id: int, i: int, news': seq<set<int>>) {
    && |news'| == |news|
    && (forall b :: 0 <= b < |news| ==> news'[b] == if b < i then news[b] - {id} else news[b])
  }

  lemma ErasedStep(news: seq<set<int>>, id: int, i: nat, news': seq<set<int>>)
    requires i < |news| && ErasedUpTo(news, id, i, news')
    ensures news'[i] == news[i]
    ensures id in news[i] ==> ErasedUpTo(news, id, i + 1, news'[i := news'[i] - {id}])
    ensures id !in news[i] ==> ErasedUpTo(news, id, i + 1, news')
  {
    if id !in news[i] {
      assert news[i] - {id} == news[i];
    }
  }

  /** The `k`-th of `n` buckets, counted from `start` and around. */
  function Turn(k: nat, start: nat, n: nat): (b: nat)
    requires k < n && start < n
    ensures b < n && b == if k + start < n then k + start else k + start - n
  {
    ModOnce(k + start, n);
    (k + start) % n
  }

  lemma ModOnce(x: nat, n: nat)
    requires x < 2 * n
    ensures x % n == if x < n then x else x - n
  {
    var q := x / n;
    assert x == n * q + x % n;
    assert q >= 2 ==> n * q >= n * 2;
    assert q == 0 || q == 1;
  }

  /** A search through all buckets, wherever it starts, misses none. */
  lemma NoBucket(news: seq<set<int>>, id: int, start: nat)
    requires start < |news| && forall k :: 0 <= k < |news| ==> id !in news[Turn(k, start, |news|)]
    ensures Buckets(news, id) == {}
  {
    forall b | 0 <= b < |news|
      ensures id !in news[b]
    {
      var k := if b >= start then b - start else b - start + |news|;
      assert Turn(k, start, |news|) == b;
    }
  }

  lemma BucketsFromStep(news: seq<set<int>>, id: int, i: nat)
    requires i < |news|
    ensures |BucketsFrom(news, id, i)| == |BucketsFrom(news, id, i + 1)| + if id in news[i] then 1 else 0
  {
    if id in news[i] {
      assert BucketsFrom(news, id, i) == BucketsFrom(news, id, i + 1) + {i};
    } else {
      assert BucketsFrom(news, id, i) == BucketsFrom(news, id, i + 1);
    }
  }

  function BucketsFrom(news: seq<set<int>>, id: int, i: int): set<int>
    requires 0 <= i
  {
    set b | i <= b < |news| && id in news[b]
  }
}
