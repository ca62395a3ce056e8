/**
 The bounded time-to-live cache of src/api_cache.py.  Every reading of the monotonic clock is a
 parameter.  The dictionary is a map with the order of its keys: an assignment to a present key
 keeps its place, a new key goes last, and min takes the first of several earliest expiries.
 */
module TtlCache {
  import opened Collections
  import opened Options

  type Key = string

  /** A cached value may itself be the source's None. */
  type Payload = Option<string>

  datatype Entry = Entry(value: Payload, expires: real)
  type Store = map<Key, Entry>

  datatype Config = Config(defaultTtl: real, maxSize: int)

  datatype Cache = Cache(store: Store, order: seq<Key>, hits: nat, misses: nat, lastPrune: real)

  /** The order lists every key of the store once. */
  ghost predicate Listed(c: Cache) {
    Distinct(c.order) && forall k :: k in c.order <==> k in c.store
  }

  /** The keys that are in the store, in their order. */
  function Restrict(order: seq<Key>, store: Store): (r: seq<Key>)
    ensures forall k :: k in r <==> k in order && k in store
  {
    if order == [] then [] else (if order[0] in store then [order[0]] else []) + Restrict(order[1..], store)
  }

  /** The cache after deletions that leave this store. */
  function Left(c: Cache, store: Store): Cache {
    c.(store := store, order := Restrict(c.order, store))
  }

  lemma {:induction false} RestrictDistinct(order: seq<Key>, store: Store)
    requires Distinct(order)
    ensures Distinct(Restrict(order, store))
  {
    if order != [] {
      assert Distinct(order[1..]);
      RestrictDistinct(order[1..], store);
      assert order[0] !in order[1..];
    }
  }

  lemma {:induction false} RestrictTwice(order: seq<Key>, store: Store, less: Store)
    requires less.Keys <= store.Keys
    ensures Restrict(Restrict(order, store), less) == Restrict(order, less)
  {
    if order != [] {
      var k, rest := order[0], Restrict(order[1..], store);
      RestrictTwice(order[1..], store, less);
      if k in store {
        RestrictCons(k, rest, less);
      } else {
        assert [] + rest == rest;
      }
    }
  }

  lemma RestrictCons(k: Key, rest: seq<Key>, store: Store)
    ensures Restrict([k] + rest, store) == (if k in store then [k] else []) + Restrict(rest, store)
  {
    assert ([k] + rest)[1..] == rest;
  }

  lemma {:induction false} RestrictNothing(order: seq<Key>, store: Store)
    requires forall k :: k in order ==> k in store
    ensures Restrict(order, store) == order
  {
    if order != [] {
      assert order[0] in store && forall k :: k in order[1..] ==> k in order;
      RestrictNothing(order[1..], store);
    }
  }

  lemma LeftTwice(c: Cache, store: Store, less: Store)
    requires less.Keys <= store.Keys
    ensures Left(Left(c, store), less) == Left(c, less)
  {
    RestrictTwice(c.order, store, less);
  }

  lemma LeftListed(c: Cache, store: Store)
    requires Listed(c) && store.Keys <= c.store.Keys
    ensures Listed(Left(c, store))
  {
    RestrictDistinct(c.order, store);
  }

  /** The clock readings of one call, in the order they are taken. */
  datatype Times = Times(check: real, mark: real, sweep: real, look: real) {
    predicate Ordered() {
      check <= mark <= sweep <= look
    }
  }

  const PRUNE_INTERVAL := 60.0

  predicate Expired(e: Entry, now: real) {
    now > e.expires
  }

  function Live(store: Store, now: real): Store {
    map k | k in store && !Expired(store[k], now) :: store[k]
  }

  function Prune(c: Cache, now: real): Cache {
    Left(c, Live(c.store, now))
  }

  function PruneIfDue(c: Cache, t: Times): Cache {
    if t.check - c.lastPrune < PRUNE_INTERVAL then c else Prune(c.(lastPrune := t.mark), t.sweep)
  }

  function AfterGet(c: Cache, key: Key, t: Times): (Cache, Payload) {
    var p := PruneIfDue(c, t);
    if key !in p.store then (p.(misses := p.misses + 1), None)
    else if Expired(p.store[key], t.look) then (Left(p, p.store - {key}).(misses := p.misses + 1), None)
    else (p.(hits := p.hits + 1), p.store[key].value)
  }

  ghost predicate IsOldest(store: Store, victim: Key) {
    victim in store && forall k :: k in store ==> store[victim].expires <= store[k].expires
  }

  /** The first key in the order with the earliest expiry, if there is an entry. */
  function Oldest(store: Store, order: seq<Key>): (r: Option<Key>)
    ensures r.Some? ==> r.value in order && r.value in store
  {
    if order == [] then None
    else
      var rest := Oldest(store, order[1..]);
      if order[0] !in store then rest
      else if rest.None? || store[order[0]].expires <= store[rest.value].expires then Some(order[0])
      else rest
  }

  /** No listed entry expires earlier, and there is one unless none is listed. */
  lemma {:induction false} OldestIsLeast(store: Store, order: seq<Key>, k: Key)
    requires k in order && k in store
    ensures Oldest(store, order).Some? && store[Oldest(store, order).value].expires <= store[k].expires
  {
    if k != order[0] {
      OldestIsLeast(store, order[1..], k);
    } else if Oldest(store, order[1..]).Some? {
      OldestIsLeast(store, order[1..], Oldest(store, order[1..]).value);
    }
  }

  /** Every entry before the victim expires strictly later. */
  lemma {:induction false} OldestIsFirst(store: Store, order: seq<Key>) returns (i: nat)
    requires Oldest(store, order).Some?
    ensures i < |order| && order[i] == Oldest(store, order).value
    ensures forall l :: 0 <= l < i && order[l] in store ==> store[order[l]].expires > store[order[i]].expires
  {
    if order[0] in store && Oldest(store, order) == Some(order[0]) {
      i := 0;
    } else {
      var j := OldestIsFirst(store, order[1..]);
      assert forall l :: 1 <= l < |order| ==> order[l] == order[1..][l - 1];
      i := j + 1;
    }
  }

  /** Eviction takes place at capacity, and only from a store that holds something. */
  predicate Evicts(g: Config, c: Cache) {
    |c.store| >= g.maxSize && Oldest(c.store, c.order).Some?
  }

  function Victim(g: Config, c: Cache): Key
    requires Evicts(g, c)
  {
    Oldest(c.store, c.order).value
  }

  lemma VictimIsOldest(g: Config, c: Cache)
    requires Listed(c)
    ensures Evicts(g, c) <==> |c.store| >= g.maxSize && c.store != map[]
    ensures Evicts(g, c) ==> IsOldest(c.store, Victim(g, c))
  {
    if c.store == map[] {
      return;
    }
    var some :| some in c.store;
    OldestIsLeast(c.store, c.order, some);
    forall k | k in c.store ensures c.store[Oldest(c.store, c.order).value].expires <= c.store[k].expires {
      OldestIsLeast(c.store, c.order, k);
    }
  }

  function Room(g: Config, c: Cache): Cache {
    if Evicts(g, c) then Left(c, c.store - {Victim(g, c)}) else c
  }

  /** An assignment: a present key keeps its place and a new one goes last. */
  function Put(c: Cache, key: Key, e: Entry): Cache {
    c.(store := c.store[key := e], order := if key in c.store then c.order else c.order + [key])
  }

  function Deadline(g: Config, ttl: Option<real>, t: Times): real {
    t.look + if ttl.Some? then ttl.value else g.defaultTtl
  }

  function AfterSet(g: Config, c: Cache, key: Key, value: Payload, ttl: Option<real>, t: Times): Cache {
    Put(Room(g, PruneIfDue(c, t)), key, Entry(value, Deadline(g, ttl, t)))
  }

  // ---------------------------------------------------------------------------------------
  // Runs

  datatype Op =
    | Get(key: Key, t: Times)
    | Set(key: Key, value: Payload, ttl: Option<real>, t: Times)
    | Sweep(now: real)
    | Invalidate(key: Key)
    | Clear

  function Step(g: Config, c: Cache, op: Op): (Cache, Payload) {
    match op
    case Get(key, t) => AfterGet(c, key, t)
    case Set(key, value, ttl, t) => (AfterSet(g, c, key, value, ttl, t), None)
    case Sweep(now) => (Prune(c, now), None)
    case Invalidate(key) => (Left(c, c.store - {key}), None)
    case Clear => (Cache(map[], [], 0, 0, c.lastPrune), None)
  }

  /** The operation reads the clock no earlier than `clock`. */
  predicate Timely(op: Op, clock: real) {
    match op
    case Get(_, t) => t.Ordered() && clock <= t.check
    case Set(_, _, _, t) => t.Ordered() && clock <= t.check
    case Sweep(now) => clock <= now
    case _ => true
  }

  function Clock(op: Op, clock: real): real {
    match op
    case Get(_, t) => t.look
    case Set(_, _, _, t) => t.look
    case Sweep(now) => now
    case _ => clock
  }

  lemma StepListed(g: Config, c: Cache, op: Op)
    requires Listed(c)
    ensures Listed(Step(g, c, op).0)
  {
    match op
    case Get(key, t) =>
      DueListed(c, t);
      LeftListed(PruneIfDue(c, t), PruneIfDue(c, t).store - {key});
    case Set(key, value, ttl, t) =>
      DueListed(c, t);
      RoomListed(g, PruneIfDue(c, t));
      PutListed(Room(g, PruneIfDue(c, t)), key, Entry(value, Deadline(g, ttl, t)));
    case Sweep(now) =>
      LeftListed(c, Live(c.store, now));
    case Invalidate(key) =>
      LeftListed(c, c.store - {key});
    case Clear =>
  }

  lemma DueListed(c: Cache, t: Times)
    requires Listed(c)
    ensures Listed(PruneIfDue(c, t))
  {
    LeftListed(c, Live(c.store, t.sweep));
  }

  lemma PutListed(c: Cache, key: Key, e: Entry)
    requires Listed(c)
    ensures Listed(Put(c, key, e))
  {}

  lemma RoomListed(g: Config, c: Cache)
    requires Listed(c)
    ensures Listed(Room(g, c))
  {
    if Evicts(g, c) {
      LeftListed(c, c.store - {Victim(g, c)});
    }
  }

  /** The cache beside an unbounded map whose entries expire, and what was evicted since it was last set. */
  datatype Pair = Pair(cache: Cache, reference: Store, evicted: set<Key>, gets: nat, clock: real)

  function ReferenceGet(reference: Store, key: Key, now: real): Payload {
    if key in reference && !Expired(reference[key], now) then reference[key].value else None
  }

  function StepPair(g: Config, p: Pair, op: Op): Pair {
    var cache, clock := Step(g, p.cache, op).0, Clock(op, p.clock);
    match op
    case Get(_, _) => p.(cache := cache, gets := p.gets + 1, clock := clock)
    case Set(key, value, ttl, t) =>
      var due := PruneIfDue(p.cache, t);
      var lost := if Evicts(g, due) then p.evicted + {Victim(g, due)} else p.evicted;
      p.(cache := cache, reference := p.reference[key := Entry(value, Deadline(g, ttl, t))], evicted := lost - {key}, clock := clock)
    case Sweep(_) => p.(cache := cache, clock := clock)
    case Invalidate(key) => p.(cache := cache, reference := p.reference - {key}, evicted := p.evicted - {key})
    case Clear => Pair(cache, map[], {}, 0, clock)
  }

  function Capacity(g: Config): nat {
    if g.maxSize >= 1 then g.maxSize else 1
  }

  ghost predicate Bounded(g: Config, store: Store) {
    |store| <= Capacity(g)
  }

  ghost predicate KeyOk(p: Pair, k: Key) {
    && (k in p.cache.store ==> k in p.reference && p.reference[k] == p.cache.store[k])
    && (k in p.reference && k !in p.cache.store ==> k in p.evicted || Expired(p.reference[k], p.clock))
  }

  ghost predicate Inv(g: Config, p: Pair) {
    && (forall k :: KeyOk(p, k))
    && Bounded(g, p.cache.store) && Listed(p.cache)
    && p.cache.hits + p.cache.misses == p.gets
  }

  function Start(now: real): Pair {
    Pair(Cache(map[], [], 0, 0, now), map[], {}, 0, now)
  }

  lemma SubmapSize(a: Store, b: Store)
    requires a.Keys <= b.Keys
    ensures |a| <= |b|
  {
    SubsetSize(a.Keys, b.Keys);
    assert |a| == |a.Keys| && |b| == |b.Keys|;
  }

  lemma PruneShrinks(c: Cache, t: Times)
    ensures |PruneIfDue(c, t).store| <= |c.store|
  {
    SubmapSize(PruneIfDue(c, t).store, c.store);
  }

  lemma RemoveSize(store: Store, k: Key)
    ensures |store - {k}| == if k in store then |store| - 1 else |store|
  {
    assert (store - {k}).Keys == store.Keys - {k};
    assert |(store - {k}).Keys| == |store - {k}|;
  }

  lemma AddSize(store: Store, k: Key, e: Entry)
    ensures |store[k := e]| <= |store| + 1
  {
    assert store[k := e].Keys == store.Keys + {k};
    assert |store[k := e].Keys| == |store[k := e]|;
  }

  /** A write leaves the store within its bound, whatever the configured size. */
  lemma SetBounded(g: Config, c: Cache, key: Key, value: Payload, ttl: Option<real>, t: Times)
    requires Bounded(g, c.store) && Listed(c)
    ensures Bounded(g, AfterSet(g, c, key, value, ttl, t).store)
  {
    var due := PruneIfDue(c, t);
    PruneShrinks(c, t);
    DueListed(c, t);
    VictimIsOldest(g, due);
    if Evicts(g, due) {
      RemoveSize(due.store, Victim(g, due));
    }
    AddSize(Room(g, due).store, key, Entry(value, Deadline(g, ttl, t)));
  }

  /** Exactly when the configured size bounds the store after a write: when it is at least one. */
  lemma LimitHoldsExactly(g: Config, c: Cache, key: Key, value: Payload, ttl: Option<real>, t: Times)
    requires Bounded(g, c.store) && Listed(c)
    ensures |AfterSet(g, c, key, value, ttl, t).store| <= g.maxSize <==> g.maxSize >= 1
  {
    SetBounded(g, c, key, value, ttl, t);
    var after := AfterSet(g, c, key, value, ttl, t).store;
    assert key in after;
    assert |after| >= 1;
  }

  lemma StepBounded(g: Config, c: Cache, op: Op)
    requires Bounded(g, c.store) && Listed(c)
    ensures Bounded(g, Step(g, c, op).0.store)
  {
    match op
    case Get(key, t) =>
      PruneShrinks(c, t);
      RemoveSize(PruneIfDue(c, t).store, key);
    case Set(key, value, ttl, t) =>
      SetBounded(g, c, key, value, ttl, t);
    case Sweep(now) =>
      SubmapSize(Prune(c, now).store, c.store);
    case Invalidate(key) =>
      RemoveSize(c.store, key);
    case Clear =>
  }

  lemma StepKeepsKey(g: Config, p: Pair, op: Op, k: Key)
    requires KeyOk(p, k) && Timely(op, p.clock)
    ensures KeyOk(StepPair(g, p, op), k)
  {
    match op
    case Get(_, _) =>
    case Set(_, _, _, _) =>
    case Sweep(_) =>
    case Invalidate(_) =>
    case Clear =>
  }

  lemma StepKeepsCount(g: Config, p: Pair, op: Op)
    requires p.cache.hits + p.cache.misses == p.gets
    ensures StepPair(g, p, op).cache.hits + StepPair(g, p, op).cache.misses == StepPair(g, p, op).gets
  {}

  lemma StepKeepsInv(g: Config, p: Pair, op: Op)
    requires Inv(g, p) && Timely(op, p.clock)
    ensures Inv(g, StepPair(g, p, op))
  {
    StepBounded(g, p.cache, op);
    StepListed(g, p.cache, op);
    StepKeepsCount(g, p, op);
    var after := StepPair(g, p, op);
    assert after.cache == Step(g, p.cache, op).0;
    forall k ensures KeyOk(after, k) {
      assert KeyOk(p, k);
      StepKeepsKey(g, p, op, k);
    }
  }

  /** A get returns None or what the unbounded map returns, and exactly that unless the key was evicted. */
  lemma GetAgrees(g: Config, p: Pair, key: Key, t: Times)
    requires Inv(g, p) && Timely(Get(key, t), p.clock)
    ensures var r := AfterGet(p.cache, key, t).1;
            && (r == None || r == ReferenceGet(p.reference, key, t.look))
            && (key !in p.evicted ==> r == ReferenceGet(p.reference, key, t.look))
  {
    assert KeyOk(p, key);
  }

  function RunPair(g: Config, p: Pair, ops: seq<Op>): Pair
    decreases |ops|
  {
    if ops == [] then p else RunPair(g, StepPair(g, p, ops[0]), ops[1..])
  }

  /** The clock readings of a run follow one another. */
  predicate InTime(ops: seq<Op>, clock: real)
    decreases |ops|
  {
    ops == [] || (Timely(ops[0], clock) && InTime(ops[1..], Clock(ops[0], clock)))
  }

  /** Over every run: the store is part of the expiring map and bounded, and hits and misses add up to the gets. */
  lemma {:induction false} RunKeepsInv(g: Config, p: Pair, ops: seq<Op>)
    requires Inv(g, p) && InTime(ops, p.clock)
    ensures Inv(g, RunPair(g, p, ops))
    decreases |ops|
  {
    if ops != [] {
      StepKeepsInv(g, p, ops[0]);
      RunKeepsInv(g, StepPair(g, p, ops[0]), ops[1..]);
    }
  }

  lemma StartInv(g: Config, now: real)
    ensures Inv(g, Start(now))
  {
    assert Start(now).cache.store == map[];
  }

  // ---------------------------------------------------------------------------------------
  // When pruning can be observed

  /** What a get can still find at or after `now` is the same in both. */
  ghost predicate SameLive(a: Store, b: Store, now: real) {
    Live(a, now) == Live(b, now)
  }

  lemma SameLiveLater(a: Store, b: Store, now: real, later: real)
    requires SameLive(a, b, now) && now <= later
    ensures SameLive(a, b, later)
  {
    assert Live(a, later) == Live(Live(a, now), later);
    assert Live(b, later) == Live(Live(b, now), later);
  }

  lemma PruneSameLive(c: Cache, now: real)
    ensures SameLive(Prune(c, now).store, c.store, now)
  {}

  lemma DueSameLive(c: Cache, t: Times)
    requires t.Ordered()
    ensures SameLive(PruneIfDue(c, t).store, c.store, t.look)
  {
    if t.check - c.lastPrune >= PRUNE_INTERVAL {
      PruneSameLive(c, t.sweep);
      SameLiveLater(PruneIfDue(c, t).store, c.store, t.sweep, t.look);
    }
  }

  /** A full store evicts an expired entry if it has one. */
  lemma EvictsExpiredFirst(store: Store, victim: Key, now: real, k: Key)
    requires IsOldest(store, victim) && k in store && Expired(store[k], now)
    ensures Expired(store[victim], now)
  {}

  /** At capacity, the entry that has to go is live. */
  ghost predicate LosesLive(g: Config, c: Cache, now: real) {
    Evicts(g, c) && !Expired(c.store[Victim(g, c)], now)
  }

  /** If one of two caches with the same live entries has to give up a live one, both hold the same and must. */
  lemma LiveEvictionIsForced(g: Config, a: Cache, b: Cache, now: real)
    requires Bounded(g, a.store) && Bounded(g, b.store) && SameLive(a.store, b.store, now)
    requires Listed(a) && Listed(b) && LosesLive(g, a, now)
    ensures a.store == b.store && LosesLive(g, b, now)
  {
    var victim := Victim(g, a);
    VictimIsOldest(g, a);
    VictimIsOldest(g, b);
    forall k | k in a.store ensures !Expired(a.store[k], now) {
      if Expired(a.store[k], now) {
        EvictsExpiredFirst(a.store, victim, now, k);
      }
    }
    SameLiveAtCapacity(a.store, b.store, now);
  }

  lemma SameLiveAtCapacity(a: Store, b: Store, now: real)
    requires SameLive(a, b, now) && |b| <= |a| && forall k :: k in a ==> !Expired(a[k], now)
    ensures a == b
  {
    assert Live(a, now) == a;
    assert Live(b, now).Keys <= b.Keys;
    assert |a| == |a.Keys| && |b| == |b.Keys|;
    SubsetOfSameSize(a.Keys, b.Keys);
    assert Live(b, now) == b;
  }

  /** No two entries share the earliest deadline of a full store whose entries are all live. */
  ghost predicate TieFree(g: Config, c: Cache, now: real) {
    |c.store| >= g.maxSize && (forall k :: k in c.store ==> !Expired(c.store[k], now)) ==>
      forall k, l :: IsOldest(c.store, k) && IsOldest(c.store, l) ==> k == l
  }

  lemma TieFreeVictims(g: Config, a: Cache, b: Cache, now: real)
    requires Listed(a) && Listed(b) && a.store == b.store && TieFree(g, a, now) && LosesLive(g, a, now)
    ensures Evicts(g, b) && Victim(g, a) == Victim(g, b)
  {
    VictimIsOldest(g, a);
    VictimIsOldest(g, b);
    forall k | k in a.store ensures !Expired(a.store[k], now) {
      if Expired(a.store[k], now) {
        EvictsExpiredFirst(a.store, Victim(g, a), now, k);
      }
    }
  }

  lemma RoomSameLive(g: Config, a: Cache, b: Cache, now: real)
    requires Bounded(g, a.store) && Bounded(g, b.store) && SameLive(a.store, b.store, now)
    requires Listed(a) && Listed(b)
    requires LosesLive(g, a, now) && Evicts(g, b) ==> Victim(g, a) == Victim(g, b)
    ensures SameLive(Room(g, a).store, Room(g, b).store, now)
  {
    if LosesLive(g, a, now) {
      LiveEvictionIsForced(g, a, b, now);
    } else {
      if LosesLive(g, b, now) {
        LiveEvictionIsForced(g, b, a, now);
      }
      RoomLosesNothing(g, a, now);
      RoomLosesNothing(g, b, now);
    }
  }

  lemma RoomLosesNothing(g: Config, c: Cache, now: real)
    requires !LosesLive(g, c, now)
    ensures Live(Room(g, c).store, now) == Live(c.store, now)
  {
    if Evicts(g, c) {
      DropExpired(c.store, Victim(g, c), now);
    }
  }

  lemma DropExpired(store: Store, k: Key, now: real)
    ensures k in store && Expired(store[k], now) ==> Live(store - {k}, now) == Live(store, now)
  {}

  lemma WriteSameLive(a: Store, b: Store, key: Key, e: Entry, now: real)
    requires SameLive(a, b, now)
    ensures SameLive(a[key := e], b[key := e], now)
  {
    WriteLive(a, key, e, now);
    WriteLive(b, key, e, now);
  }

  lemma WriteLive(store: Store, key: Key, e: Entry, now: real)
    ensures Live(store[key := e], now) == if Expired(e, now) then Live(store, now) - {key} else Live(store, now)[key := e]
  {}

  lemma RemoveSameLive(a: Store, b: Store, key: Key, now: real)
    requires SameLive(a, b, now)
    ensures SameLive(a - {key}, b - {key}, now)
  {
    assert Live(a - {key}, now) == Live(a, now) - {key};
    assert Live(b - {key}, now) == Live(b, now) - {key};
  }

  lemma DifferentVictims(store: Store, v: Key, w: Key, key: Key, e: Entry, now: real)
    requires v in store && w in store && v != w && !Expired(store[v], now) && !Expired(store[w], now)
    ensures !SameLive((store - {v})[key := e], (store - {w})[key := e], now)
  {
    var storeA, storeB := (store - {v})[key := e], (store - {w})[key := e];
    assert v != key ==> v in Live(storeB, now) && v !in Live(storeA, now);
    assert w != key ==> w in Live(storeA, now) && w !in Live(storeB, now);
  }

  /**
   Exactly when a write into two caches with the same live entries leaves them so: when neither has
   to give up a live entry, or both give up the same one.
   */
  lemma WriteKeepsSameLiveExactly(g: Config, a: Cache, b: Cache, key: Key, e: Entry, now: real)
    requires Bounded(g, a.store) && Bounded(g, b.store) && SameLive(a.store, b.store, now)
    requires Listed(a) && Listed(b)
    ensures SameLive(Put(Room(g, a), key, e).store, Put(Room(g, b), key, e).store, now) <==>
            (LosesLive(g, a, now) && Evicts(g, b) ==> Victim(g, a) == Victim(g, b))
  {
    if LosesLive(g, a, now) {
      LiveEvictionIsForced(g, a, b, now);
    }
    if LosesLive(g, a, now) && Victim(g, a) != Victim(g, b) {
      DifferentVictims(a.store, Victim(g, a), Victim(g, b), key, e, now);
    } else {
      RoomSameLive(g, a, b, now);
      WriteSameLive(Room(g, a).store, Room(g, b).store, key, e, now);
    }
  }

  /** At the write, if this operation is one, no two live entries tie for eviction. */
  ghost predicate TieFreeAt(g: Config, c: Cache, op: Op) {
    op.Set? ==> TieFree(g, PruneIfDue(c, op.t), op.t.look)
  }

  /** Caches with the same live entries answer every operation alike and keep the same live entries. */
  lemma SameLiveStep(g: Config, a: Cache, b: Cache, op: Op, clock: real)
    requires Bounded(g, a.store) && Bounded(g, b.store) && Listed(a) && Listed(b)
    requires SameLive(a.store, b.store, clock) && Timely(op, clock) && TieFreeAt(g, a, op)
    ensures Step(g, a, op).1 == Step(g, b, op).1
    ensures SameLive(Step(g, a, op).0.store, Step(g, b, op).0.store, Clock(op, clock))
  {
    match op
    case Get(key, t) =>
      SameLiveGet(a, b, key, t, clock);
    case Set(key, value, ttl, t) =>
      SameLiveSet(g, a, b, key, value, ttl, t, clock);
    case Sweep(now) =>
      SameLiveLater(a.store, b.store, clock, now);
    case Invalidate(key) =>
      RemoveSameLive(a.store, b.store, key, clock);
    case Clear =>
  }

  lemma SameLiveSet(g: Config, a: Cache, b: Cache, key: Key, value: Payload, ttl: Option<real>, t: Times, clock: real)
    requires Bounded(g, a.store) && Bounded(g, b.store) && Listed(a) && Listed(b)
    requires SameLive(a.store, b.store, clock) && t.Ordered() && clock <= t.check && TieFree(g, PruneIfDue(a, t), t.look)
    ensures SameLive(AfterSet(g, a, key, value, ttl, t).store, AfterSet(g, b, key, value, ttl, t).store, t.look)
  {
    var dueA, dueB := PruneIfDue(a, t), PruneIfDue(b, t);
    SameLiveDue(a, b, t, clock);
    PruneShrinks(a, t);
    PruneShrinks(b, t);
    DueListed(a, t);
    DueListed(b, t);
    if LosesLive(g, dueA, t.look) {
      LiveEvictionIsForced(g, dueA, dueB, t.look);
      TieFreeVictims(g, dueA, dueB, t.look);
    }
    WriteKeepsSameLiveExactly(g, dueA, dueB, key, Entry(value, Deadline(g, ttl, t)), t.look);
  }

  lemma SameLiveDue(a: Cache, b: Cache, t: Times, clock: real)
    requires SameLive(a.store, b.store, clock) && t.Ordered() && clock <= t.check
    ensures SameLive(PruneIfDue(a, t).store, PruneIfDue(b, t).store, t.look)
  {
    DueSameLive(a, t);
    DueSameLive(b, t);
    SameLiveLater(a.store, b.store, clock, t.look);
  }

  lemma SameLiveGet(a: Cache, b: Cache, key: Key, t: Times, clock: real)
    requires SameLive(a.store, b.store, clock) && t.Ordered() && clock <= t.check
    ensures AfterGet(a, key, t).1 == AfterGet(b, key, t).1
    ensures SameLive(AfterGet(a, key, t).0.store, AfterGet(b, key, t).0.store, t.look)
  {
    SameLiveDue(a, b, t, clock);
    var storeA, storeB := PruneIfDue(a, t).store, PruneIfDue(b, t).store;
    assert key in Live(storeA, t.look) <==> key in Live(storeB, t.look);
    DropExpired(storeA, key, t.look);
    DropExpired(storeB, key, t.look);
  }

  function Results(g: Config, c: Cache, ops: seq<Op>): (r: seq<Payload>)
    ensures |r| == |ops|
    decreases |ops|
  {
    if ops == [] then [] else [Step(g, c, ops[0]).1] + Results(g, Step(g, c, ops[0]).0, ops[1..])
  }

  function After(g: Config, c: Cache, ops: seq<Op>): Cache
    decreases |ops|
  {
    if ops == [] then c else After(g, Step(g, c, ops[0]).0, ops[1..])
  }

  /** No write of the run finds a tie for eviction among live entries. */
  ghost predicate TieFreeRun(g: Config, c: Cache, ops: seq<Op>)
    decreases |ops|
  {
    ops == [] || (TieFreeAt(g, c, ops[0]) && TieFreeRun(g, Step(g, c, ops[0]).0, ops[1..]))
  }

  lemma {:induction false} SameLiveRun(g: Config, a: Cache, b: Cache, ops: seq<Op>, clock: real)
    requires Bounded(g, a.store) && Bounded(g, b.store) && Listed(a) && Listed(b)
    requires SameLive(a.store, b.store, clock) && InTime(ops, clock) && TieFreeRun(g, a, ops)
    ensures Results(g, a, ops) == Results(g, b, ops)
    decreases |ops|
  {
    if ops != [] {
      SameLiveStep(g, a, b, ops[0], clock);
      StepBounded(g, a, ops[0]);
      StepBounded(g, b, ops[0]);
      StepListed(g, a, ops[0]);
      StepListed(g, b, ops[0]);
      SameLiveRun(g, Step(g, a, ops[0]).0, Step(g, b, ops[0]).0, ops[1..], Clock(ops[0], clock));
    }
  }

  /** A prune, at whatever moment, changes no later result of a run without ties. */
  lemma PruningUnobservable(g: Config, c: Cache, now: real, ops: seq<Op>)
    requires Bounded(g, c.store) && Listed(c)
    requires InTime(ops, now) && TieFreeRun(g, c, ops)
    ensures Results(g, Prune(c, now), ops) == Results(g, c, ops)
  {
    SubmapSize(Prune(c, now).store, c.store);
    LeftListed(c, Live(c.store, now));
    PruneSameLive(c, now);
    SameLiveRun(g, c, Prune(c, now), ops, now);
  }

  ghost predicate DistinctDeadlines(store: Store) {
    forall k, l :: k in store && l in store && store[k].expires == store[l].expires ==> k == l
  }

  /** Every write has a deadline that no stored entry has, as with one ttl and a clock that moves on. */
  ghost predicate FreshDeadlines(g: Config, c: Cache, ops: seq<Op>)
    decreases |ops|
  {
    ops == [] ||
    (&& (ops[0].Set? ==> forall k :: k in c.store ==> c.store[k].expires != Deadline(g, ops[0].ttl, ops[0].t))
     && FreshDeadlines(g, Step(g, c, ops[0]).0, ops[1..]))
  }

  lemma DistinctStep(g: Config, c: Cache, op: Op)
    requires DistinctDeadlines(c.store)
    requires op.Set? ==> forall k :: k in c.store ==> c.store[k].expires != Deadline(g, op.ttl, op.t)
    ensures TieFreeAt(g, c, op) && DistinctDeadlines(Step(g, c, op).0.store)
  {}

  /** A condition on the deadlines alone: while they differ, there are no ties. */
  lemma {:induction false} DistinctDeadlinesTieFree(g: Config, c: Cache, ops: seq<Op>)
    requires DistinctDeadlines(c.store) && FreshDeadlines(g, c, ops)
    ensures TieFreeRun(g, c, ops)
    decreases |ops|
  {
    if ops != [] {
      DistinctStep(g, c, ops[0]);
      DistinctDeadlinesTieFree(g, Step(g, c, ops[0]).0, ops[1..]);
    }
  }

  // ---------------------------------------------------------------------------------------
  // Exactly when no run can observe a prune

  /** The keys of the live entries, in the order of the dictionary. */
  function LiveOrder(c: Cache, now: real): seq<Key> {
    Restrict(c.order, Live(c.store, now))
  }

  /** Same live entries in the same order, and pruning due at the same time. */
  ghost predicate Alike(g: Config, a: Cache, b: Cache, now: real) {
    && Bounded(g, a.store) && Bounded(g, b.store) && Listed(a) && Listed(b)
    && SameLive(a.store, b.store, now) && LiveOrder(a, now) == LiveOrder(b, now)
    && a.lastPrune == b.lastPrune
  }

  lemma LiveShrinks(store: Store, now: real, later: real)
    requires now <= later
    ensures Live(store, later).Keys <= Live(store, now).Keys <= store.Keys
  {}

  lemma LiveOrderLater(c: Cache, now: real, later: real)
    requires now <= later
    ensures LiveOrder(c, later) == Restrict(LiveOrder(c, now), Live(c.store, later))
  {
    LiveShrinks(c.store, now, later);
    RestrictTwice(c.order, Live(c.store, now), Live(c.store, later));
  }

  lemma AlikeLater(g: Config, a: Cache, b: Cache, now: real, later: real)
    requires Alike(g, a, b, now) && now <= later
    ensures Alike(g, a, b, later)
  {
    SameLiveLater(a.store, b.store, now, later);
    LiveOrderLater(a, now, later);
    LiveOrderLater(b, now, later);
  }

  /** Deletions keep the order of the live entries that stay. */
  lemma LeftLiveOrder(c: Cache, store: Store, now: real)
    requires Live(store, now).Keys <= Live(c.store, now).Keys
    ensures LiveOrder(Left(c, store), now) == Restrict(LiveOrder(c, now), Live(store, now))
  {
    LiveShrinks(store, now, now);
    RestrictTwice(c.order, store, Live(store, now));
    RestrictTwice(c.order, Live(c.store, now), Live(store, now));
  }

  /** Deletions that leave the same live entries keep two caches alike. */
  lemma LeftAlike(g: Config, a: Cache, b: Cache, storeA: Store, storeB: Store, now: real)
    requires Alike(g, a, b, now) && SameLive(storeA, storeB, now)
    requires storeA.Keys <= a.store.Keys && storeB.Keys <= b.store.Keys
    requires Live(storeA, now).Keys <= Live(a.store, now).Keys && Live(storeB, now).Keys <= Live(b.store, now).Keys
    ensures Alike(g, Left(a, storeA), Left(b, storeB), now)
  {
    SubmapSize(storeA, a.store);
    SubmapSize(storeB, b.store);
    LeftListed(a, storeA);
    LeftListed(b, storeB);
    LeftLiveOrder(a, storeA, now);
    LeftLiveOrder(b, storeB, now);
  }

  lemma PruneAlike(g: Config, a: Cache, b: Cache, now: real, sweep: real)
    requires Alike(g, a, b, now) && now <= sweep
    ensures Alike(g, Prune(a, sweep), Prune(b, sweep), sweep)
  {
    AlikeLater(g, a, b, now, sweep);
    assert Live(Live(a.store, sweep), sweep) == Live(a.store, sweep);
    assert Live(Live(b.store, sweep), sweep) == Live(b.store, sweep);
    LeftAlike(g, a, b, Live(a.store, sweep), Live(b.store, sweep), sweep);
  }

  lemma DueAlike(g: Config, a: Cache, b: Cache, t: Times, clock: real)
    requires Alike(g, a, b, clock) && t.Ordered() && clock <= t.check
    ensures Alike(g, PruneIfDue(a, t), PruneIfDue(b, t), t.look)
  {
    if t.check - a.lastPrune < PRUNE_INTERVAL {
      AlikeLater(g, a, b, clock, t.look);
    } else {
      PruneAlike(g, a.(lastPrune := t.mark), b.(lastPrune := t.mark), clock, t.sweep);
      AlikeLater(g, PruneIfDue(a, t), PruneIfDue(b, t), t.sweep, t.look);
    }
  }

  /** A cache whose entries are all live has the order of its live entries. */
  lemma AllLiveOrder(c: Cache, now: real)
    requires Listed(c) && Live(c.store, now) == c.store
    ensures LiveOrder(c, now) == c.order
  {
    RestrictNothing(c.order, c.store);
  }

  lemma AlikeVictims(g: Config, a: Cache, b: Cache, now: real)
    requires Alike(g, a, b, now) && LosesLive(g, a, now)
    ensures Evicts(g, b) && Victim(g, a) == Victim(g, b)
  {
    LiveEvictionIsForced(g, a, b, now);
    AllLiveAtCapacity(g, a, now);
    AllLiveOrder(a, now);
    AllLiveOrder(b, now);
  }

  lemma AllLiveAtCapacity(g: Config, c: Cache, now: real)
    requires Listed(c) && LosesLive(g, c, now)
    ensures Live(c.store, now) == c.store
  {
    VictimIsOldest(g, c);
    forall k | k in c.store ensures !Expired(c.store[k], now) {
      if Expired(c.store[k], now) {
        EvictsExpiredFirst(c.store, Victim(g, c), now, k);
      }
    }
  }

  lemma RoomAlike(g: Config, a: Cache, b: Cache, now: real)
    requires Alike(g, a, b, now)
    ensures Alike(g, Room(g, a), Room(g, b), now)
  {
    if LosesLive(g, a, now) {
      AlikeVictims(g, a, b, now);
    }
    RoomSameLive(g, a, b, now);
    RoomIsLeft(g, a, now);
    RoomIsLeft(g, b, now);
    LeftAlike(g, a, b, Room(g, a).store, Room(g, b).store, now);
  }

  lemma RoomIsLeft(g: Config, c: Cache, now: real)
    requires Listed(c)
    ensures Room(g, c) == Left(c, Room(g, c).store) && Room(g, c).store.Keys <= c.store.Keys
    ensures Live(Room(g, c).store, now).Keys <= Live(c.store, now).Keys
  {
    if !Evicts(g, c) {
      RestrictNothing(c.order, c.store);
    }
  }

  lemma {:induction false} RestrictAppend(order: seq<Key>, key: Key, store: Store)
    ensures Restrict(order + [key], store) == Restrict(order, store) + if key in store then [key] else []
  {
    if order == [] {
      assert order + [key] == [key] && [key][1..] == [];
    } else {
      assert (order + [key])[1..] == order[1..] + [key];
      RestrictAppend(order[1..], key, store);
    }
  }

  lemma {:induction false} RestrictAgrees(order: seq<Key>, store: Store, other: Store)
    requires forall k :: k in order ==> (k in store <==> k in other)
    ensures Restrict(order, store) == Restrict(order, other)
  {
    if order != [] {
      assert order[0] in order && forall k :: k in order[1..] ==> k in order;
      RestrictAgrees(order[1..], store, other);
    }
  }

  /** Where a write leaves its key among the live ones. */
  lemma PutLiveOrder(c: Cache, key: Key, e: Entry, now: real)
    requires Listed(c)
    ensures Expired(e, now) ==> LiveOrder(Put(c, key, e), now) == Restrict(LiveOrder(c, now), Live(c.store, now) - {key})
    ensures !Expired(e, now) && key in Live(c.store, now) ==> LiveOrder(Put(c, key, e), now) == LiveOrder(c, now)
    ensures !Expired(e, now) && key !in c.store ==> LiveOrder(Put(c, key, e), now) == LiveOrder(c, now) + [key]
  {
    var live, after := Live(c.store, now), Live(c.store[key := e], now);
    WriteLive(c.store, key, e, now);
    RestrictAppend(c.order, key, after);
    if Expired(e, now) {
      RestrictTwice(c.order, live, live - {key});
    } else if key in live || key !in c.store {
      RestrictAgrees(c.order, after, live);
    }
  }

  /** With at most one entry, a live write leaves its key alone or behind the other one. */
  lemma PutFewLiveOrder(c: Cache, key: Key, e: Entry, now: real)
    requires Listed(c) && |c.store| <= 1 && !Expired(e, now) && key !in Live(c.store, now)
    ensures LiveOrder(Put(c, key, e), now) == LiveOrder(c, now) + [key]
  {
    PutLiveOrder(c, key, e, now);
    if key in c.store {
      OnlyKey(c, key);
      assert Live(c.store, now) == map[];
      RestrictEmpty(c.order);
      var after := Live(c.store[key := e], now);
      assert after.Keys == {key};
      RestrictNothing(c.order, after);
    }
  }

  lemma OnlyKey(c: Cache, key: Key)
    requires Listed(c) && |c.store| <= 1 && key in c.store
    ensures c.store.Keys == {key} && c.order == [key]
  {
    assert |c.store| == |c.store.Keys|;
    SubsetOfSameSize({key}, c.store.Keys);
    assert key in c.order;
    assert c.order[0] in c.order && c.order[|c.order| - 1] in c.order;
  }

  lemma PutAlike(g: Config, a: Cache, b: Cache, key: Key, e: Entry, now: real)
    requires Alike(g, a, b, now) && |a.store| <= 1 && |b.store| <= 1
    requires Bounded(g, Put(a, key, e).store) && Bounded(g, Put(b, key, e).store)
    ensures Alike(g, Put(a, key, e), Put(b, key, e), now)
  {
    PutListed(a, key, e);
    PutListed(b, key, e);
    WriteSameLive(a.store, b.store, key, e, now);
    PutLiveOrder(a, key, e, now);
    PutLiveOrder(b, key, e, now);
    if !Expired(e, now) && key !in Live(a.store, now) {
      PutFewLiveOrder(a, key, e, now);
      PutFewLiveOrder(b, key, e, now);
    }
  }

  lemma RoomIsSmall(g: Config, c: Cache)
    requires g.maxSize <= 2 && Bounded(g, c.store) && Listed(c)
    ensures |Room(g, c).store| <= 1
  {
    VictimIsOldest(g, c);
    if Evicts(g, c) {
      RemoveSize(c.store, Victim(g, c));
    }
  }

  lemma SetAlike(g: Config, a: Cache, b: Cache, key: Key, value: Payload, ttl: Option<real>, t: Times, clock: real)
    requires g.maxSize <= 2 && Alike(g, a, b, clock) && t.Ordered() && clock <= t.check
    ensures Alike(g, AfterSet(g, a, key, value, ttl, t), AfterSet(g, b, key, value, ttl, t), t.look)
  {
    var dueA, dueB := PruneIfDue(a, t), PruneIfDue(b, t);
    DueAlike(g, a, b, t, clock);
    RoomAlike(g, dueA, dueB, t.look);
    RoomIsSmall(g, dueA);
    RoomIsSmall(g, dueB);
    SetBounded(g, a, key, value, ttl, t);
    SetBounded(g, b, key, value, ttl, t);
    PutAlike(g, Room(g, dueA), Room(g, dueB), key, Entry(value, Deadline(g, ttl, t)), t.look);
  }

  lemma GetAlike(g: Config, a: Cache, b: Cache, key: Key, t: Times, clock: real)
    requires Alike(g, a, b, clock) && t.Ordered() && clock <= t.check
    ensures Alike(g, AfterGet(a, key, t).0, AfterGet(b, key, t).0, t.look)
  {
    DueAlike(g, a, b, t, clock);
    MissAlike(g, PruneIfDue(a, t), PruneIfDue(b, t), key, t.look);
    GetDrops(a, key, t);
    GetDrops(b, key, t);
    CountersAlike(g, Dropped(PruneIfDue(a, t), key, t.look), Dropped(PruneIfDue(b, t), key, t.look),
                  AfterGet(a, key, t).0, AfterGet(b, key, t).0, t.look);
  }

  lemma CountersAlike(g: Config, a: Cache, b: Cache, a': Cache, b': Cache, now: real)
    requires Alike(g, a, b, now)
    requires a.(hits := a'.hits, misses := a'.misses) == a' && b.(hits := b'.hits, misses := b'.misses) == b'
    ensures Alike(g, a', b', now)
  {}

  lemma GetDrops(c: Cache, key: Key, t: Times)
    ensures var after, dropped := AfterGet(c, key, t).0, Dropped(PruneIfDue(c, t), key, t.look);
            dropped.(hits := after.hits, misses := after.misses) == after
  {}

  /** A get deletes an expired entry, which is not among the live ones. */
  function Dropped(c: Cache, key: Key, now: real): Cache {
    if key in c.store && Expired(c.store[key], now) then Left(c, c.store - {key}) else c
  }

  lemma MissAlike(g: Config, a: Cache, b: Cache, key: Key, now: real)
    requires Alike(g, a, b, now)
    ensures Alike(g, Dropped(a, key, now), Dropped(b, key, now), now)
  {
    DropExpired(a.store, key, now);
    DropExpired(b.store, key, now);
    RestrictNothing(a.order, a.store);
    RestrictNothing(b.order, b.store);
    LeftAlike(g, a, b, Dropped(a, key, now).store, Dropped(b, key, now).store, now);
  }

  /** With room for at most two entries, caches that are alike stay alike. */
  lemma StepAlike(g: Config, a: Cache, b: Cache, op: Op, clock: real)
    requires g.maxSize <= 2 && Alike(g, a, b, clock) && Timely(op, clock)
    ensures Alike(g, Step(g, a, op).0, Step(g, b, op).0, Clock(op, clock))
    ensures Step(g, a, op).1 == Step(g, b, op).1
  {
    match op
    case Get(key, t) =>
      GetAlike(g, a, b, key, t, clock);
      SameLiveGet(a, b, key, t, clock);
    case Set(key, value, ttl, t) =>
      SetAlike(g, a, b, key, value, ttl, t, clock);
    case Sweep(now) =>
      PruneAlike(g, a, b, clock, now);
    case Invalidate(key) =>
      RemoveSameLive(a.store, b.store, key, clock);
      LeftAlike(g, a, b, a.store - {key}, b.store - {key}, clock);
    case Clear =>
  }

  lemma {:induction false} AlikeRun(g: Config, a: Cache, b: Cache, ops: seq<Op>, clock: real)
    requires g.maxSize <= 2 && Alike(g, a, b, clock) && InTime(ops, clock)
    ensures Results(g, a, ops) == Results(g, b, ops)
    decreases |ops|
  {
    if ops != [] {
      StepAlike(g, a, b, ops[0], clock);
      AlikeRun(g, Step(g, a, ops[0]).0, Step(g, b, ops[0]).0, ops[1..], Clock(ops[0], clock));
    }
  }

  lemma PruneIsAlike(g: Config, c: Cache, now: real)
    requires Bounded(g, c.store) && Listed(c)
    ensures Alike(g, c, Prune(c, now), now)
  {
    var live := Live(c.store, now);
    assert Live(live, now) == live;
    SubmapSize(live, c.store);
    LeftListed(c, live);
    LeftLiveOrder(c, live, now);
    RestrictTwice(c.order, live, live);
  }

  // A prune that is due anyway

  lemma PruneTwice(c: Cache, now: real, later: real)
    requires now <= later
    ensures Prune(Prune(c, now), later) == Prune(c, later)
  {
    assert Live(Live(c.store, now), later) == Live(c.store, later);
    LiveShrinks(c.store, now, later);
    LeftTwice(c, Live(c.store, now), Live(c.store, later));
  }

  lemma PruneAfterDelete(c: Cache, key: Key, now: real)
    ensures Left(Prune(c, now), Live(c.store, now) - {key}) == Prune(Left(c, c.store - {key}), now)
  {
    var live, left := Live(c.store, now), c.store - {key};
    assert Live(left, now) == live - {key};
    LeftTwice(c, live, live - {key});
    LeftTwice(c, left, live - {key});
  }

  lemma DuePruneIfDue(c: Cache, now: real, t: Times)
    requires now - c.lastPrune >= PRUNE_INTERVAL && now <= t.check && t.Ordered()
    ensures PruneIfDue(Prune(c, now), t) == PruneIfDue(c, t)
  {
    PruneTwice(c.(lastPrune := t.mark), now, t.sweep);
  }

  /** All operations but an invalidation leave the same cache. */
  lemma DuePruneStep(g: Config, c: Cache, now: real, op: Op, clock: real)
    requires now - c.lastPrune >= PRUNE_INTERVAL && now <= clock && Timely(op, clock) && !op.Invalidate?
    ensures Step(g, Prune(c, now), op) == Step(g, c, op)
  {
    match op
    case Get(key, t) => DuePruneIfDue(c, now, t);
    case Set(key, value, ttl, t) => DuePruneIfDue(c, now, t);
    case Sweep(later) => PruneTwice(c, now, later);
    case Clear =>
  }

  /** A prune changes no result when the next get, set or sweep prunes anyway. */
  lemma {:induction false} DuePruneUnobservable(g: Config, c: Cache, now: real, ops: seq<Op>, clock: real)
    requires now - c.lastPrune >= PRUNE_INTERVAL && now <= clock && InTime(ops, clock)
    ensures Results(g, Prune(c, now), ops) == Results(g, c, ops)
    decreases |ops|
  {
    if ops != [] {
      ResultsNext(g, c, ops);
      ResultsNext(g, Prune(c, now), ops);
      if ops[0].Invalidate? {
        PruneAfterDelete(c, ops[0].key, now);
        DuePruneUnobservable(g, Step(g, c, ops[0]).0, now, ops[1..], clock);
      } else {
        DuePruneStep(g, c, now, ops[0], clock);
      }
    }
  }

  // A run that observes a prune

  ghost predicate Distinguished(g: Config, a: Cache, b: Cache, now: real) {
    exists ops :: InTime(ops, now) && Results(g, a, ops) != Results(g, b, ops)
  }

  lemma DistinguishedAfter(g: Config, a: Cache, b: Cache, op: Op, now: real)
    requires Timely(op, now) && Distinguished(g, Step(g, a, op).0, Step(g, b, op).0, Clock(op, now))
    ensures Distinguished(g, a, b, now)
  {
    var ops :| InTime(ops, Clock(op, now)) && Results(g, Step(g, a, op).0, ops) != Results(g, Step(g, b, op).0, ops);
    var longer := [op] + ops;
    assert longer[0] == op && longer[1..] == ops;
    ResultsNext(g, a, longer);
    ResultsNext(g, b, longer);
    assert Results(g, a, longer)[1..] == Results(g, Step(g, a, op).0, ops);
    assert Results(g, b, longer)[1..] == Results(g, Step(g, b, op).0, ops);
  }

  lemma DistinguishedNow(g: Config, a: Cache, b: Cache, op: Op, now: real)
    requires Timely(op, now) && Step(g, a, op).1 != Step(g, b, op).1
    ensures Distinguished(g, a, b, now)
  {
    ResultsNext(g, a, [op]);
    ResultsNext(g, b, [op]);
    assert Results(g, a, [op])[0] != Results(g, b, [op])[0];
    assert InTime([op][1..], Clock(op, now));
  }

  /** There is always a key that is not in use. */
  lemma {:induction false} LengthBound(keys: set<Key>) returns (n: nat)
    ensures forall k :: k in keys ==> |k| <= n
  {
    if keys == {} {
      n := 0;
    } else {
      var k :| k in keys;
      var m := LengthBound(keys - {k});
      n := if |k| <= m then m else |k|;
    }
  }

  lemma UnusedKey(keys: set<Key>) returns (key: Key)
    ensures key !in keys
  {
    var n := LengthBound(keys);
    key := seq(n + 1, i => 'x');
  }

  function At(now: real): Times {
    Times(now, now, now, now)
  }

  const SHARED_TTL := Some(1.0)
  const SOMETHING: Payload := Some("")

  function Shared(now: real): Entry {
    Entry(SOMETHING, now + 1.0)
  }

  /** The same entries with one deadline, and different keys in front. */
  ghost predicate TiedApart(g: Config, a: Cache, b: Cache, p: Key, q: Key, now: real) {
    && Listed(a) && Listed(b) && a.store == b.store && |a.store| <= g.maxSize
    && (forall k :: k in a.store ==> a.store[k] == Shared(now))
    && a.order != [] && b.order != [] && a.order[0] == p != q == b.order[0]
    && now - a.lastPrune < PRUNE_INTERVAL && now - b.lastPrune < PRUNE_INTERVAL
  }

  lemma FirstOfEquals(store: Store, order: seq<Key>, e: Entry)
    requires order != [] && order[0] in store && forall k :: k in store ==> store[k] == e
    ensures Oldest(store, order) == Some(order[0])
  {}

  /** A write of a new key when there is room. */
  lemma FreshWrite(g: Config, c: Cache, key: Key, now: real)
    requires now - c.lastPrune < PRUNE_INTERVAL && |c.store| < g.maxSize
    ensures AfterSet(g, c, key, SOMETHING, SHARED_TTL, At(now)) == Put(c, key, Shared(now))
  {}

  lemma FullRoom(g: Config, c: Cache, e: Entry)
    requires |c.store| >= g.maxSize && Listed(c) && c.order != [] && forall k :: k in c.store ==> c.store[k] == e
    ensures Room(g, c) == Left(c, c.store - {c.order[0]})
  {
    assert c.order[0] in c.order;
    FirstOfEquals(c.store, c.order, e);
  }

  /** A write of a new key when there is none. */
  lemma FullWrite(g: Config, c: Cache, key: Key, now: real)
    requires now - c.lastPrune < PRUNE_INTERVAL && |c.store| >= g.maxSize && Listed(c) && c.order != []
    requires forall k :: k in c.store ==> c.store[k] == Shared(now)
    ensures AfterSet(g, c, key, SOMETHING, SHARED_TTL, At(now)).store == (c.store - {c.order[0]})[key := Shared(now)]
    ensures AfterSet(g, c, key, SOMETHING, SHARED_TTL, At(now)).lastPrune == c.lastPrune
  {
    FullRoom(g, c, Shared(now));
  }

  /** Filled up with entries of the same deadline, the two caches evict different keys. */
  lemma {:induction false} TiedApartDistinguished(g: Config, a: Cache, b: Cache, p: Key, q: Key, now: real)
    requires g.maxSize >= 1 && TiedApart(g, a, b, p, q, now)
    ensures Distinguished(g, a, b, now)
    decreases g.maxSize - |a.store|
  {
    var key := UnusedKey(a.store.Keys);
    if |a.store| < g.maxSize {
      var op := Set(key, SOMETHING, SHARED_TTL, At(now));
      FreshWrite(g, a, key, now);
      FreshWrite(g, b, key, now);
      OneMoreTied(g, a, b, p, q, key, now);
      TiedApartDistinguished(g, Put(a, key, Shared(now)), Put(b, key, Shared(now)), p, q, now);
      DistinguishedAfter(g, a, b, op, now);
    } else {
      OneTooMany(g, a, b, p, q, key, now);
    }
  }

  lemma OneTooMany(g: Config, a: Cache, b: Cache, p: Key, q: Key, key: Key, now: real)
    requires TiedApart(g, a, b, p, q, now) && key !in a.store && |a.store| == g.maxSize
    ensures Distinguished(g, a, b, now)
  {
    var op := Set(key, SOMETHING, SHARED_TTL, At(now));
    assert a.order[0] in a.order && b.order[0] in b.order;
    FullWrite(g, a, key, now);
    FullWrite(g, b, key, now);
    GetNow(Step(g, a, op).0, p, now);
    GetNow(Step(g, b, op).0, p, now);
    DistinguishedNow(g, Step(g, a, op).0, Step(g, b, op).0, Get(p, At(now)), now);
    DistinguishedAfter(g, a, b, op, now);
  }

  lemma GetNow(c: Cache, key: Key, now: real)
    requires now - c.lastPrune < PRUNE_INTERVAL && (key in c.store ==> c.store[key] == Shared(now))
    ensures AfterGet(c, key, At(now)).1 == if key in c.store then SOMETHING else None
  {}

  lemma OneMoreTied(g: Config, a: Cache, b: Cache, p: Key, q: Key, key: Key, now: real)
    requires TiedApart(g, a, b, p, q, now) && key !in a.store && |a.store| < g.maxSize
    ensures TiedApart(g, Put(a, key, Shared(now)), Put(b, key, Shared(now)), p, q, now)
    ensures |Put(a, key, Shared(now)).store| == |a.store| + 1
  {
    AddNew(a.store, key, Shared(now));
    PutListed(a, key, Shared(now));
    PutListed(b, key, Shared(now));
  }

  lemma AddNew(store: Store, key: Key, e: Entry)
    requires key !in store
    ensures |store[key := e]| == |store| + 1
  {
    assert store[key := e].Keys == store.Keys + {key};
    assert |store[key := e].Keys| == |store[key := e]| && |store.Keys| == |store|;
  }

  /** An expired key that only one of two otherwise empty caches holds. */
  lemma StaleKeyDistinguished(g: Config, a: Cache, b: Cache, p: Key, now: real)
    requires g.maxSize >= 3 && Listed(a) && Listed(b) && a.store.Keys == {p} && b.store == map[]
    requires now - a.lastPrune < PRUNE_INTERVAL && now - b.lastPrune < PRUNE_INTERVAL
    ensures Distinguished(g, a, b, now)
  {
    var q := UnusedKey({p});
    var e := Shared(now);
    var a', b' := Put(a, q, e), Put(b, q, e);
    SingleAndEmpty(a, b, p);
    AddNew(a.store, q, e);
    AddNew(b.store, q, e);
    FreshWrite(g, a, q, now);
    FreshWrite(g, b, q, now);
    FreshWrite(g, a', p, now);
    FreshWrite(g, b', p, now);
    WritesTieApart(g, a, b, p, q, now);
    TiedApartDistinguished(g, Put(a', p, e), Put(b', p, e), p, q, now);
    DistinguishedAfter(g, a', b', Set(p, SOMETHING, SHARED_TTL, At(now)), now);
    DistinguishedAfter(g, a, b, Set(q, SOMETHING, SHARED_TTL, At(now)), now);
  }

  /** Written after q, the key p keeps its place at the front only where it was still held. */
  lemma WritesTieApart(g: Config, a: Cache, b: Cache, p: Key, q: Key, now: real)
    requires g.maxSize >= 3 && Listed(a) && Listed(b) && p != q
    requires a.store.Keys == {p} && a.order == [p] && b.store == map[] && b.order == []
    requires now - a.lastPrune < PRUNE_INTERVAL && now - b.lastPrune < PRUNE_INTERVAL
    ensures var e := Shared(now); TiedApart(g, Put(Put(a, q, e), p, e), Put(Put(b, q, e), p, e), p, q, now)
  {
    var e := Shared(now);
    var a', b' := Put(Put(a, q, e), p, e), Put(Put(b, q, e), p, e);
    assert a'.store == b'.store == map[p := e, q := e];
    assert a'.store.Keys == {p, q} && |a'.store| == |a'.store.Keys|;
    PutListed(a, q, e);
    PutListed(b, q, e);
    PutListed(Put(a, q, e), p, e);
    PutListed(Put(b, q, e), p, e);
  }

  lemma SingleAndEmpty(a: Cache, b: Cache, p: Key)
    requires Listed(a) && Listed(b) && a.store.Keys == {p} && b.store == map[]
    ensures |a.store| == 1 && a.order == [p] && b.order == []
  {
    assert |a.store| == |a.store.Keys|;
    OnlyKey(a, p);
    RestrictNothing(b.order, b.store);
    RestrictEmpty(b.order);
  }

  /** Two caches that differ by an expired key can be told apart: first all other keys go. */
  lemma {:induction false} ExpiredKeyDistinguished(g: Config, a: Cache, b: Cache, p: Key, now: real)
    requires g.maxSize >= 3 && Listed(a) && Listed(b) && p in a.store && p !in b.store && b.store.Keys <= a.store.Keys
    requires now - a.lastPrune < PRUNE_INTERVAL && now - b.lastPrune < PRUNE_INTERVAL
    ensures Distinguished(g, a, b, now)
    decreases a.store.Keys
  {
    if a.store.Keys == {p} {
      assert b.store.Keys == {};
      StaleKeyDistinguished(g, a, b, p, now);
    } else {
      var k :| k in a.store && k != p;
      LeftListed(a, a.store - {k});
      LeftListed(b, b.store - {k});
      ExpiredKeyDistinguished(g, Left(a, a.store - {k}), Left(b, b.store - {k}), p, now);
      DistinguishedAfter(g, a, b, Invalidate(k), now);
    }
  }

  /** The condition, which can be checked before the prune. */
  ghost predicate PruneSafe(g: Config, c: Cache, now: real) {
    || g.maxSize <= 2
    || now - c.lastPrune >= PRUNE_INTERVAL
    || forall k :: k in c.store ==> !Expired(c.store[k], now)
  }

  lemma PruneObserved(g: Config, c: Cache, now: real) returns (ops: seq<Op>)
    requires Listed(c) && !PruneSafe(g, c, now)
    ensures InTime(ops, now) && Results(g, Prune(c, now), ops) != Results(g, c, ops)
  {
    var p :| p in c.store && Expired(c.store[p], now);
    LeftListed(c, Live(c.store, now));
    ExpiredKeyDistinguished(g, c, Prune(c, now), p, now);
    ops :| InTime(ops, now) && Results(g, c, ops) != Results(g, Prune(c, now), ops);
  }

  lemma PruneSafeUnobservable(g: Config, c: Cache, now: real, ops: seq<Op>)
    requires Bounded(g, c.store) && Listed(c) && PruneSafe(g, c, now) && InTime(ops, now)
    ensures Results(g, Prune(c, now), ops) == Results(g, c, ops)
  {
    if g.maxSize <= 2 {
      PruneIsAlike(g, c, now);
      AlikeRun(g, c, Prune(c, now), ops, now);
    } else if now - c.lastPrune >= PRUNE_INTERVAL {
      DuePruneUnobservable(g, c, now, ops, now);
    } else {
      assert Live(c.store, now) == c.store;
      RestrictNothing(c.order, c.store);
    }
  }

  /**
   Exactly when no later run can observe a prune: when the cache holds at most two entries, when the
   next operation would prune anyway, or when nothing has expired.
   */
  lemma PruningUnobservableExactly(g: Config, c: Cache, now: real)
    requires Bounded(g, c.store) && Listed(c)
    ensures (forall ops :: InTime(ops, now) ==> Results(g, Prune(c, now), ops) == Results(g, c, ops))
            <==> PruneSafe(g, c, now)
  {
    if PruneSafe(g, c, now) {
      forall ops | InTime(ops, now) ensures Results(g, Prune(c, now), ops) == Results(g, c, ops) {
        PruneSafeUnobservable(g, c, now, ops);
      }
    } else {
      var ops := PruneObserved(g, c, now);
      assert InTime(ops, now) && Results(g, Prune(c, now), ops) != Results(g, c, ops);
    }
  }

  /**
   With a tie pruning can be observed.  The key a has expired; a write to it keeps its place at the
   front, or goes last once it has been pruned, and so a different entry is first when the store is
   full.
   */
  lemma PruningObservedAtTie(g: Config, c: Cache, ops: seq<Op>, a: Key, b: Key, d: Key, e: Key, x: string, t: Times)
    requires g == Config(300.0, 3) && a != b && a != d && a != e && b != d && b != e && d != e
    requires t == Times(2.0, 2.0, 2.0, 2.0)
    requires c == Cache(map[a := Entry(Some(x), 1.0)], [a], 0, 0, 0.0)
    requires ops == [Set(b, Some(x), None, t), Set(a, Some(x), None, t), Set(d, Some(x), None, t), Set(e, Some(x), None, t), Get(a, t)]
    ensures Listed(c) && Bounded(g, c.store) && InTime(ops, 2.0)
    ensures Results(g, c, ops)[4] == None && Results(g, Prune(c, 2.0), ops)[4] == Some(x)
  {
    PrunedEmpty(c, a);
    InTimeAtOnce(ops, t);
    assert c.store.Keys == {a} && |c.store| == |c.store.Keys|;
    TwoWrites(g, c, Prune(c, 2.0), a, b, x, t);
    TiedTail(g, a, b, a, d, e, x, t);
    TiedTail(g, b, a, a, d, e, x, t);
    LastOfFive(g, c, ops);
    LastOfFive(g, Prune(c, 2.0), ops);
  }

  lemma PrunedEmpty(c: Cache, a: Key)
    requires c.order == [a] && c.store.Keys == {a} && Expired(c.store[a], 2.0)
    ensures Prune(c, 2.0) == c.(store := map[], order := [])
  {
    assert Live(c.store, 2.0) == map[];
    RestrictEmpty(c.order);
  }

  lemma {:induction false} RestrictEmpty(order: seq<Key>)
    ensures Restrict(order, map[]) == []
  {
    if order != [] {
      RestrictEmpty(order[1..]);
    }
  }

  lemma {:induction false} InTimeAtOnce(ops: seq<Op>, t: Times)
    requires t == Times(2.0, 2.0, 2.0, 2.0) && forall op :: op in ops ==> (op.Get? || op.Set?) && op.t == t
    ensures InTime(ops, 2.0)
    decreases |ops|
  {
    if ops != [] {
      assert ops[0] in ops && forall op :: op in ops[1..] ==> op in ops;
      InTimeAtOnce(ops[1..], t);
    }
  }

  function Tied(first: Key, second: Key, x: string): Cache {
    Cache(map[first := Entry(Some(x), 302.0), second := Entry(Some(x), 302.0)], [first, second], 0, 0, 0.0)
  }

  /** From a tie, two more writes and a look for one of the two keys. */
  lemma TiedTail(g: Config, first: Key, second: Key, last: Key, d: Key, e: Key, x: string, t: Times)
    requires g == Config(300.0, 3) && first != second && first != d && first != e && second != d && second != e && d != e
    requires t == Times(2.0, 2.0, 2.0, 2.0) && (last == first || last == second)
    ensures var three := Step(g, Tied(first, second, x), Set(d, Some(x), None, t)).0;
            Step(g, Step(g, three, Set(e, Some(x), None, t)).0, Get(last, t)).1 == if last == first then None else Some(x)
  {
    ThirdWrite(g, first, second, d, x, t);
    FourthWrite(g, first, second, d, e, x, t);
    var three := Step(g, Tied(first, second, x), Set(d, Some(x), None, t)).0;
    GetAfter(g, Step(g, three, Set(e, Some(x), None, t)).0, last, x, t);
  }

  lemma LastOfFive(g: Config, c: Cache, ops: seq<Op>)
    requires |ops| == 5
    ensures var c2 := Step(g, Step(g, c, ops[0]).0, ops[1]).0;
            Results(g, c, ops)[4] == Step(g, Step(g, Step(g, c2, ops[2]).0, ops[3]).0, ops[4]).1
  {
    ResultsNext(g, c, ops);
    ResultsNext(g, Step(g, c, ops[0]).0, ops[1..]);
    var c2 := Step(g, Step(g, c, ops[0]).0, ops[1]).0;
    var rest := ops[1..][1..];
    assert rest == [ops[2], ops[3], ops[4]];
    ResultsNext(g, c2, rest);
    ResultsNext(g, Step(g, c2, ops[2]).0, rest[1..]);
    ResultsNext(g, Step(g, Step(g, c2, ops[2]).0, ops[3]).0, rest[1..][1..]);
  }

  lemma ResultsNext(g: Config, c: Cache, ops: seq<Op>)
    requires ops != []
    ensures Results(g, c, ops) == [Step(g, c, ops[0]).1] + Results(g, Step(g, c, ops[0]).0, ops[1..])
  {}

  lemma TwoWrites(g: Config, c: Cache, pruned: Cache, a: Key, b: Key, x: string, t: Times)
    requires g == Config(300.0, 3) && a != b && t == Times(2.0, 2.0, 2.0, 2.0)
    requires c == Cache(map[a := Entry(Some(x), 1.0)], [a], 0, 0, 0.0) && pruned == Cache(map[], [], 0, 0, 0.0)
    ensures AfterSet(g, AfterSet(g, c, b, Some(x), None, t), a, Some(x), None, t) == Tied(a, b, x)
    ensures AfterSet(g, AfterSet(g, pruned, b, Some(x), None, t), a, Some(x), None, t) == Tied(b, a, x)
  {
    var e := Entry(Some(x), 302.0);
    WriteBelow(g, c, b, x, t);
    WriteBelow(g, Cache(map[a := Entry(Some(x), 1.0), b := e], [a, b], 0, 0, 0.0), a, x, t);
    WriteBelow(g, pruned, b, x, t);
    WriteBelow(g, Cache(map[b := e], [b], 0, 0, 0.0), a, x, t);
    assert map[a := Entry(Some(x), 1.0), b := e][a := e] == map[a := e, b := e];
  }

  lemma WriteBelow(g: Config, c: Cache, key: Key, x: string, t: Times)
    requires g == Config(300.0, 3) && t == Times(2.0, 2.0, 2.0, 2.0) && c.lastPrune == 0.0
    requires |c.store| < 3
    ensures AfterSet(g, c, key, Some(x), None, t) == Put(c, key, Entry(Some(x), 302.0))
  {}

  function Full(first: Key, second: Key, d: Key, x: string): Cache {
    Put(Tied(first, second, x), d, Entry(Some(x), 302.0))
  }

  lemma ThirdWrite(g: Config, first: Key, second: Key, d: Key, x: string, t: Times)
    requires g == Config(300.0, 3) && first != second && first != d && second != d && t == Times(2.0, 2.0, 2.0, 2.0)
    ensures AfterSet(g, Tied(first, second, x), d, Some(x), None, t) == Full(first, second, d, x)
    ensures |Full(first, second, d, x).store| == 3
    ensures Oldest(Full(first, second, d, x).store, Full(first, second, d, x).order) == Some(first)
  {
    var c, full := Tied(first, second, x), Full(first, second, d, x);
    assert c.store.Keys == {first, second} && |c.store| == |c.store.Keys|;
    WriteBelow(g, c, d, x, t);
    assert full.store.Keys == {first, second, d} && |full.store| == |full.store.Keys|;
    assert full.order == [first, second, d] && full.order[1..] == [second, d];
  }

  /** With the first two entries tied, the fourth write evicts the first in the order. */
  lemma FourthWrite(g: Config, first: Key, second: Key, d: Key, e: Key, x: string, t: Times)
    requires g == Config(300.0, 3) && first != second && first != d && first != e && second != d && second != e && d != e
    requires t == Times(2.0, 2.0, 2.0, 2.0)
    ensures var after := AfterSet(g, Full(first, second, d, x), e, Some(x), None, t);
            && first !in after.store && Keeps(after, second, Entry(Some(x), 302.0)) && after.lastPrune == 0.0
  {
    ThirdWrite(g, first, second, d, x, t);
  }

  lemma GetAfter(g: Config, c: Cache, key: Key, x: string, t: Times)
    requires t == Times(2.0, 2.0, 2.0, 2.0) && c.lastPrune == 0.0
    requires key in c.store ==> c.store[key] == Entry(Some(x), 302.0)
    ensures Step(g, c, Get(key, t)).1 == if key in c.store then Some(x) else None
  {}

  // ---------------------------------------------------------------------------------------
  // A stored value stays

  ghost predicate Keeps(c: Cache, key: Key, e: Entry) {
    key in c.store && c.store[key] == e
  }

  /** The operation does not write, invalidate, clear or evict the key. */
  ghost predicate Spares(g: Config, c: Cache, op: Op, key: Key) {
    match op
    case Set(k, _, _, t) => k != key && (Evicts(g, PruneIfDue(c, t)) ==> Victim(g, PruneIfDue(c, t)) != key)
    case Invalidate(k) => k != key
    case Clear => false
    case _ => true
  }

  ghost predicate SparesRun(g: Config, c: Cache, ops: seq<Op>, key: Key)
    decreases |ops|
  {
    ops == [] || (Spares(g, c, ops[0], key) && SparesRun(g, Step(g, c, ops[0]).0, ops[1..], key))
  }

  function EndClock(ops: seq<Op>, clock: real): real
    decreases |ops|
  {
    if ops == [] then clock else EndClock(ops[1..], Clock(ops[0], clock))
  }

  lemma {:induction false} ClockRises(ops: seq<Op>, clock: real)
    requires InTime(ops, clock)
    ensures clock <= EndClock(ops, clock)
    decreases |ops|
  {
    if ops != [] {
      ClockRises(ops[1..], Clock(ops[0], clock));
    }
  }

  lemma StepKeeps(g: Config, c: Cache, op: Op, key: Key, e: Entry, clock: real)
    requires Keeps(c, key, e) && Timely(op, clock) && Clock(op, clock) <= e.expires && Spares(g, c, op, key)
    ensures Keeps(Step(g, c, op).0, key, e)
  {}

  lemma {:induction false} RunKeeps(g: Config, c: Cache, ops: seq<Op>, key: Key, e: Entry, clock: real)
    requires Keeps(c, key, e) && InTime(ops, clock) && EndClock(ops, clock) <= e.expires && SparesRun(g, c, ops, key)
    ensures Keeps(After(g, c, ops), key, e)
    decreases |ops|
  {
    if ops != [] {
      ClockRises(ops[1..], Clock(ops[0], clock));
      StepKeeps(g, c, ops[0], key, e, clock);
      RunKeeps(g, Step(g, c, ops[0]).0, ops[1..], key, e, Clock(ops[0], clock));
    }
  }

  /** What was stored is what a get finds until the deadline, whatever other keys see in between. */
  lemma StoredIsKept(g: Config, c: Cache, key: Key, value: Payload, ttl: Option<real>, t: Times, ops: seq<Op>, later: Times)
    requires t.Ordered() && later.Ordered()
    requires var written := AfterSet(g, c, key, value, ttl, t);
             InTime(ops, t.look) && SparesRun(g, written, ops, key) && EndClock(ops, t.look) <= later.check
    requires later.look <= Deadline(g, ttl, t)
    ensures AfterGet(After(g, AfterSet(g, c, key, value, ttl, t), ops), key, later).1 == value
  {
    RunKeeps(g, AfterSet(g, c, key, value, ttl, t), ops, key, Entry(value, Deadline(g, ttl, t)), t.look);
  }

  // ---------------------------------------------------------------------------------------
  // The operations in terms of deadlines

  /** A minute has passed since the last pruning. */
  ghost predicate MinutePassed(c: Cache, t: Times) {
    t.check - c.lastPrune >= 60.0
  }

  /** What a pruning at the start of an operation leaves: all entries, or those whose deadline has not passed. */
  ghost function Standing(c: Cache, t: Times): set<Key> {
    set k | k in c.store && (MinutePassed(c, t) ==> t.sweep <= c.store[k].expires)
  }

  ghost predicate Subset(a: Store, b: Store) {
    forall k :: k in a ==> k in b && b[k] == a[k]
  }

  lemma DueStands(c: Cache, t: Times)
    ensures var due := PruneIfDue(c, t);
            && due.store.Keys == Standing(c, t) && Subset(due.store, c.store)
            && due.lastPrune == (if MinutePassed(c, t) then t.mark else c.lastPrune)
            && due.hits == c.hits && due.misses == c.misses
  {}

  /** A read finds the entry exactly up to its deadline, and counts as a hit exactly then. */
  lemma GetExactly(c: Cache, key: Key, t: Times)
    requires t.Ordered()
    ensures var (after, value) := AfterGet(c, key, t);
            var found := key in c.store && t.look <= c.store[key].expires;
            && value == (if found then c.store[key].value else None)
            && after.hits == c.hits + (if found then 1 else 0) && after.misses == c.misses + (if found then 0 else 1)
            && after.store.Keys == (if found then Standing(c, t) else Standing(c, t) - {key}) && Subset(after.store, c.store)
            && after.lastPrune == (if MinutePassed(c, t) then t.mark else c.lastPrune)
  {
    DueStands(c, t);
  }

  /** The entry is stored; if the standing entries fill the cache, one with the earliest deadline goes. */
  ghost predicate Written(g: Config, c: Cache, standing: set<Key>, key: Key, e: Entry, after: Cache)
    requires standing <= c.store.Keys
  {
    && Keeps(after, key, e) && Subset(after.store - {key}, c.store)
    && after.hits == c.hits && after.misses == c.misses
    && if standing != {} && |standing| >= g.maxSize
       then exists victim :: Earliest(c, standing, victim) && after.store.Keys == standing - {victim} + {key}
       else after.store.Keys == standing + {key}
  }

  /** A write stores the value with its deadline, after a pruning if a minute has passed. */
  lemma SetExactly(g: Config, c: Cache, key: Key, value: Payload, ttl: Option<real>, t: Times)
    requires Listed(c)
    ensures var after := AfterSet(g, c, key, value, ttl, t);
            && Written(g, c, Standing(c, t), key, Entry(value, t.look + if ttl.Some? then ttl.value else g.defaultTtl), after)
            && after.lastPrune == (if MinutePassed(c, t) then t.mark else c.lastPrune)
  {
    var due := PruneIfDue(c, t);
    DueStands(c, t);
    DueListed(c, t);
    PutWrites(g, c, due, key, Entry(value, Deadline(g, ttl, t)));
  }

  lemma PutWrites(g: Config, c: Cache, due: Cache, key: Key, e: Entry)
    requires Listed(due) && Subset(due.store, c.store) && due.hits == c.hits && due.misses == c.misses
    ensures Written(g, c, due.store.Keys, key, e, Put(Room(g, due), key, e))
    ensures Put(Room(g, due), key, e).lastPrune == due.lastPrune
  {
    RoomExactly(g, due);
    assert |due.store| == |due.store.Keys|;
    var room := Room(g, due).store;
    PutKeys(c.store, due.store, room, key, e);
    if Evicts(g, due) {
      assert Earliest(c, due.store.Keys, Victim(g, due));
      assert room.Keys == due.store.Keys - {Victim(g, due)};
    }
  }

  lemma PutKeys(store: Store, due: Store, room: Store, key: Key, e: Entry)
    requires Subset(due, store) && Subset(room, due)
    ensures room[key := e].Keys == room.Keys + {key} && Subset(room[key := e] - {key}, store)
  {}

  lemma RoomExactly(g: Config, c: Cache)
    requires Listed(c)
    ensures Evicts(g, c) <==> |c.store| >= g.maxSize && c.store != map[]
    ensures Evicts(g, c) ==> Earliest(c, c.store.Keys, Victim(g, c)) && Room(g, c).store == c.store - {Victim(g, c)}
    ensures !Evicts(g, c) ==> Room(g, c).store == c.store
    ensures var room := Room(g, c); room.hits == c.hits && room.misses == c.misses && room.lastPrune == c.lastPrune
  {
    VictimIsOldest(g, c);
  }

  ghost predicate Earliest(c: Cache, keys: set<Key>, victim: Key)
    requires keys <= c.store.Keys
  {
    victim in keys && forall k :: k in keys ==> c.store[victim].expires <= c.store[k].expires
  }

  /** A written value is found by the next read exactly up to its time to live. */
  lemma SetThenGetExactly(g: Config, c: Cache, key: Key, value: string, ttl: Option<real>, t: Times, later: Times)
    requires Listed(c) && t.Ordered() && later.Ordered()
    ensures AfterGet(AfterSet(g, c, key, Some(value), ttl, t), key, later).1 ==
            if later.look - t.look <= (if ttl.Some? then ttl.value else g.defaultTtl) then Some(value) else None
  {
    SetExactly(g, c, key, Some(value), ttl, t);
    GetExactly(AfterSet(g, c, key, Some(value), ttl, t), key, later);
  }

  /** A sweep removes exactly what has expired, and an invalidation exactly its key. */
  lemma SweepExactly(g: Config, c: Cache, now: real, key: Key)
    ensures var swept := Step(g, c, Sweep(now)).0;
            swept.store.Keys == (set k | k in c.store && now <= c.store[k].expires) && Subset(swept.store, c.store)
    ensures Step(g, c, Invalidate(key)).0.store == c.store - {key}
    ensures Step(g, c, Clear).0 == Cache(map[], [], 0, 0, c.lastPrune)
  {}

  // ---------------------------------------------------------------------------------------
  // The class of the source

  /** The keys whose entries have expired, in their order. */
  function ExpiredKeys(store: Store, order: seq<Key>, now: real): (r: seq<Key>)
    ensures forall k :: k in r <==> k in order && k in store && Expired(store[k], now)
  {
    if order == [] then []
    else (if order[0] in store && Expired(store[order[0]], now) then [order[0]] else []) + ExpiredKeys(store, order[1..], now)
  }

  function Without(store: Store, keys: seq<Key>): Store {
    map k | k in store && k !in keys :: store[k]
  }

  lemma WithoutOneMore(store: Store, keys: seq<Key>, i: nat)
    requires i < |keys| && Distinct(keys) && keys[i] in store
    ensures Without(store, keys[..i + 1]) == Without(store, keys[..i]) - {keys[i]}
    ensures keys[i] in Without(store, keys[..i])
  {
    assert keys[..i + 1] == keys[..i] + [keys[i]];
  }

  lemma {:induction false} ExpiredDistinct(store: Store, order: seq<Key>, now: real)
    requires Distinct(order)
    ensures Distinct(ExpiredKeys(store, order, now))
  {
    if order != [] {
      assert Distinct(order[1..]);
      ExpiredDistinct(store, order[1..], now);
      assert order[0] !in order[1..];
    }
  }

  /** The first key with the earliest expiry, in one pass over the dictionary. */
  method FindOldest(store: Store, order: seq<Key>) returns (oldest: Key)
    requires order != [] && forall k :: k in order ==> k in store
    ensures Oldest(store, order) == Some(oldest)
  {
    oldest := order[0];
    assert order[..1] == [oldest];
    for i := 1 to |order|
      invariant oldest in store && Oldest(store, order[..i]) == Some(oldest)
    {
      assert order[i] in store;
      OldestAppend(store, order[..i], order[i]);
      assert order[..i + 1] == order[..i] + [order[i]];
      if store[order[i]].expires < store[oldest].expires {
        oldest := order[i];
      }
    }
    assert order[..|order|] == order;
  }

  class TTLCache {
    const config: Config
    var store: Store
    var order: seq<Key>
    var hits: nat
    var misses: nat
    var lastPrune: real

    constructor (config: Config, now: real)
      ensures this.config == config && State() == Cache(map[], [], 0, 0, now) && Valid()
    {
      this.config := config;
      store, order, hits, misses, lastPrune := map[], [], 0, 0, now;
    }

    function State(): Cache
      reads this
    {
      Cache(store, order, hits, misses, lastPrune)
    }

    ghost predicate Valid()
      reads this
    {
      Listed(State())
    }

    /** del: the entry and its place go. */
    method Delete(key: Key)
      requires Valid()
      modifies this`store, this`order
      ensures Valid() && State() == Left(old(State()), old(store) - {key})
    {
      LeftListed(State(), store - {key});
      store := store - {key};
      order := Restrict(order, store);
    }

    /** An assignment to a key: a new key goes last. */
    method Assign(key: Key, e: Entry)
      requires Valid()
      modifies this`store, this`order
      ensures Valid() && State() == Put(old(State()), key, e)
    {
      if key !in store {
        order := order + [key];
      }
      store := store[key := e];
    }

    /** Deletes the keys one by one and counts them. */
    method DeleteAll(keys: seq<Key>) returns (deleted: nat)
      requires Valid() && Distinct(keys) && forall k :: k in keys ==> k in store
      modifies this`store, this`order
      ensures Valid() && State() == Left(old(State()), Without(old(store), keys))
      ensures deleted == |keys| == |old(store)| - |store|
    {
      deleted := 0;
      RestrictNothing(order, store);
      assert Without(store, []) == store;
      assert keys[..0] == [];
      for i := 0 to |keys|
        invariant Valid() && deleted == i == |old(store)| - |store|
        invariant State() == Left(old(State()), Without(old(store), keys[..i]))
      {
        WithoutOneMore(old(store), keys, i);
        LeftTwice(old(State()), store, store - {keys[i]});
        RemoveSize(store, keys[i]);
        Delete(keys[i]);
        deleted := deleted + 1;
      }
      assert keys[..|keys|] == keys;
    }

    /** Removes the expired entries and counts them. */
    method PruneNow(now: real) returns (pruned: nat)
      requires Valid()
      modifies this`store, this`order
      ensures Valid() && State() == Prune(old(State()), now)
      ensures pruned == |old(store)| - |store|
    {
      var expired := ExpiredKeys(store, order, now);
      ExpiredDistinct(store, order, now);
      assert Without(store, expired) == Live(store, now);
      pruned := DeleteAll(expired);
    }

    method PruneWhenDue(t: Times)
      requires Valid()
      modifies this`store, this`order, this`lastPrune
      ensures Valid() && State() == PruneIfDue(old(State()), t)
    {
      if t.check - lastPrune < PRUNE_INTERVAL {
        return;
      }
      lastPrune := t.mark;
      var pruned := PruneNow(t.sweep);
    }

    method Lookup(key: Key, t: Times) returns (value: Payload)
      requires Valid()
      modifies this
      ensures Valid() && (State(), value) == AfterGet(old(State()), key, t)
    {
      PruneWhenDue(t);
      if key !in store {
        misses := misses + 1;
        return None;
      }
      var entry := store[key];
      if t.look > entry.expires {
        Delete(key);
        misses := misses + 1;
        return None;
      }
      hits := hits + 1;
      return entry.value;
    }

    /** Removes the first entry with the earliest expiry, if there is an entry. */
    method EvictOldest()
      requires Valid()
      modifies this`store, this`order
      ensures Valid()
      ensures State() == match Oldest(old(store), old(order))
                case None => old(State())
                case Some(victim) => Left(old(State()), old(store) - {victim})
    {
      if store == map[] {
        return;
      }
      var some :| some in store;
      assert some in order;
      var oldest := FindOldest(store, order);
      Delete(oldest);
    }

    method MakeRoom()
      requires Valid()
      modifies this`store, this`order
      ensures Valid() && State() == Room(config, old(State()))
    {
      if |store| >= config.maxSize {
        EvictOldest();
      }
    }

    method Store(key: Key, value: Payload, ttl: Option<real>, t: Times)
      requires Valid()
      modifies this
      ensures Valid() && State() == AfterSet(config, old(State()), key, value, ttl, t)
    {
      PruneWhenDue(t);
      var effective := if ttl.Some? then ttl.value else config.defaultTtl;
      MakeRoom();
      Assign(key, Entry(value, t.look + effective));
    }

    method Drop(key: Key)
      requires Valid()
      modifies this`store, this`order
      ensures Valid() && State() == Step(config, old(State()), Invalidate(key)).0
    {
      if key in store {
        Delete(key);
      } else {
        assert store - {key} == store;
        RestrictNothing(order, store);
      }
    }

    method Flush()
      requires Valid()
      modifies this
      ensures Valid() && State() == Step(config, old(State()), Clear).0
    {
      store, order, hits, misses := map[], [], 0, 0;
    }

    /** One call of another task. */
    method Perform(op: Op) returns (value: Payload)
      requires Valid()
      modifies this
      ensures Valid() && (State(), value) == Step(config, old(State()), op)
    {
      value := None;
      match op
      case Get(key, t) => value := Lookup(key, t);
      case Set(key, v, ttl, t) => Store(key, v, ttl, t);
      case Sweep(now) => var pruned := PruneNow(now);
      case Invalidate(key) => Drop(key);
      case Clear => Flush();
    }

    /**
     A hit is returned.  On a miss `fetched` is what the fetch yields, and it is kept unless it is
     None; while the fetch is awaited, other tasks run the operations `meanwhile`.
     */
    method GetOrFetch(key: Key, fetched: Payload, ttl: Option<real>, t: Times, meanwhile: seq<Op>, t': Times) returns (value: Payload)
      requires Valid()
      modifies this
      ensures Valid()
      ensures var (c, cached) := AfterGet(old(State()), key, t);
              if cached != None then value == cached && State() == c
              else
                && value == fetched
                && State() == if fetched == None then After(config, c, meanwhile)
                              else AfterSet(config, After(config, c, meanwhile), key, fetched, ttl, t')
    {
      value := Lookup(key, t);
      if value != None {
        return;
      }
      ghost var missed := State();
      for i := 0 to |meanwhile|
        invariant Valid()
        invariant After(config, State(), meanwhile[i..]) == After(config, missed, meanwhile)
      {
        assert meanwhile[i..][1..] == meanwhile[i + 1..];
        var other := Perform(meanwhile[i]);
      }
      value := fetched;
      if value != None {
        Store(key, value, ttl, t');
      }
    }
  }

  lemma {:induction false} OldestAppend(store: Store, order: seq<Key>, key: Key)
    requires key in store
    ensures Oldest(store, order + [key]) ==
            match Oldest(store, order)
            case None => Some(key)
            case Some(k) => if store[key].expires < store[k].expires then Some(key) else Some(k)
  {
    if order == [] {
      assert order + [key] == [key];
    } else {
      assert (order + [key])[1..] == order[1..] + [key];
      OldestAppend(store, order[1..], key);
    }
  }
}
