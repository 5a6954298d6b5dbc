// The in-memory caches of the dependency system.  A cache keeps, per key,
// the value, the time it was last read or written and an optional expiry
// time; it evicts the least recently accessed entry when full, and it
// records which keys were computed from which, so that invalidating a key
// also drops every entry recorded as depending on it, transitively.
// Wall-clock time is a parameter `now` of every operation that reads it.
module Caches {
  import opened Outcomes
  import opened Dicts

  const DefaultMaxSize := 1000
  const DefaultTtl := 600

  /** CACHE_SIZES: the fixed limits of the named caches; any other cache gets the size asked for. */
  function SizeFor(name: string, maxSize: int): int {
    if name == "embeddings_generation" then 100
    else if name == "key_generation" then 5000
    else if name == "default" then DefaultMaxSize
    else maxSize
  }

  function Max(a: int, b: int): int { if a < b then b else a }

  /** One entry: the value, its last access time and its expiry time (None: never). */
  datatype Entry<V> = Entry(value: V, accessTime: int, expiry: Option<int>)

  /** `dependencies[d]` lists the keys computed from d; `reverse_deps[k]` lists what k was computed from. */
  type Links = map<string, seq<string>>

  /** The part of a cache that removal, eviction and invalidation act on. */
  datatype Store<V> = Store(data: Dict<Entry<V>>, dependencies: Links, reverseDeps: Links)

  /** The test of `get`: no expiry, or not yet reached. */
  predicate Live<V>(e: Entry<V>, now: int) {
    e.expiry.None? || now < e.expiry.value
  }

  /** The test of `cleanup_expired`: an expiry that is set, truthy (not 0) and passed. */
  predicate Expired<V>(e: Entry<V>, now: int) {
    e.expiry.Some? && e.expiry.value != 0 && now > e.expiry.value
  }

  /** A read at key is a hit: the key is present and live. */
  predicate Hit<V>(d: Dict<Entry<V>>, key: string, now: int) {
    key in d.values && Live(d.values[key], now)
  }

  /**
   * `get` and `cleanup_expired` disagree only at the boundary: an entry read
   * exactly at its expiry time (or with the falsy expiry 0) is a miss for
   * `get` but is not removed by `cleanup_expired`.
   */
  lemma LiveOrExpired<V>(e: Entry<V>, now: int)
    ensures Expired(e, now) ==> !Live(e, now)
    ensures !Live(e, now) && !Expired(e, now) <==> e.expiry.Some? && (now == e.expiry.value || (e.expiry.value == 0 && now > 0))
  {
  }

  /** The expiry `set` stores: ttl 0 means none, None means the cache's default ttl. */
  function ExpiryFor(ttl: Option<int>, defaultTtl: int, now: int): (r: Option<int>)
    ensures r.None? <==> ttl == Some(0)
    ensures ttl.None? ==> r == Some(now + defaultTtl)
    ensures ttl.Some? && ttl.value != 0 ==> r == Some(now + ttl.value)
  {
    if ttl != Some(0) then Some(now + (if ttl.Some? then ttl.value else defaultTtl)) else None
  }

  /** `l.remove(x)`: the first occurrence of x taken out. */
  function RemoveFirst(l: seq<string>, x: string): (r: seq<string>)
    requires x in l
    ensures multiset(r) == multiset(l) - multiset{x}
    decreases |l|
  {
    assert l == [l[0]] + l[1..];
    if l[0] == x then l[1..] else [l[0]] + RemoveFirst(l[1..], x)
  }

  /** How often x is listed under d. */
  function Count(m: Links, d: string, x: string): nat {
    if d in m then multiset(m[d])[x] else 0
  }

  function ListAt(m: Links, k: string): seq<string> {
    if k in m then m[k] else []
  }

  /** x is listed under d. */
  predicate Dependent(m: Links, d: string, x: string) {
    d in m && x in m[d]
  }

  /** As often as x is listed under d, d is listed among x's sources: the links `set` records go both ways. */
  ghost predicate Linked(deps: Links, revs: Links) {
    forall d, x :: Count(deps, d, x) <= Count(revs, x, d)
  }

  /** One turn of `_remove_key`'s loop: key taken out of d's list, a list left empty deleted. */
  function UnlinkOne(deps: Links, d: string, key: string): Links {
    if d in deps && key in deps[d] then
      var rest := RemoveFirst(deps[d], key);
      if rest == [] then deps - {d} else deps[d := rest]
    else deps
  }

  /** `_remove_key`'s loop over the key's sources ds. */
  function Unlink(deps: Links, ds: seq<string>, key: string): Links
    decreases |ds|
  {
    if ds == [] then deps else UnlinkOne(Unlink(deps, ds[..|ds| - 1], key), ds[|ds| - 1], key)
  }

  /** `_remove_key`: the entry, the key's place in its sources' lists, and its own sources dropped. */
  function RemoveKeyFrom<V>(s: Store<V>, key: string): (r: Store<V>)
    requires Valid(s.data)
    ensures Valid(r.data) && r.data.values == s.data.values - {key}
  {
    Store(Remove(s.data, key),
          if key in s.reverseDeps then Unlink(s.dependencies, s.reverseDeps[key], key) else s.dependencies,
          s.reverseDeps - {key})
  }

  lemma UnlinkOneCount(deps: Links, d0: string, key: string, d: string, x: string)
    ensures Count(UnlinkOne(deps, d0, key), d, x)
            == if d == d0 && x == key then Max(0, Count(deps, d, x) - 1) else Count(deps, d, x)
  {
  }

  /** Unlinking removes the key from d's list once per time d is among the sources, and nothing else. */
  lemma {:induction false} UnlinkCount(deps: Links, ds: seq<string>, key: string, d: string, x: string)
    ensures Count(Unlink(deps, ds, key), d, x)
            == if x == key then Max(0, Count(deps, d, x) - multiset(ds)[d]) else Count(deps, d, x)
    decreases |ds|
  {
    if ds != [] {
      var init := ds[..|ds| - 1];
      assert ds == init + [ds[|ds| - 1]];
      UnlinkCount(deps, init, key, d, x);
      UnlinkOneCount(Unlink(deps, init, key), ds[|ds| - 1], key, d, x);
    }
  }

  /** Unlinking never adds a list. */
  lemma {:induction false} UnlinkKeys(deps: Links, ds: seq<string>, key: string)
    ensures Unlink(deps, ds, key).Keys <= deps.Keys
    decreases |ds|
  {
    if ds != [] {
      UnlinkKeys(deps, ds[..|ds| - 1], key);
    }
  }

  /** After `_remove_key`, the key is listed under no key, and every other listing is as before. */
  lemma RemoveKeyCount<V>(s: Store<V>, key: string, d: string, x: string)
    requires Valid(s.data) && Linked(s.dependencies, s.reverseDeps)
    ensures Count(RemoveKeyFrom(s, key).dependencies, d, x) == if x == key then 0 else Count(s.dependencies, d, x)
  {
    assert Count(s.dependencies, d, key) <= Count(s.reverseDeps, key, d);
    if key in s.reverseDeps {
      UnlinkCount(s.dependencies, s.reverseDeps[key], key, d, x);
    }
  }

  /** `_remove_key` keeps the links consistent, drops the key's own list of sources and adds no list. */
  lemma RemoveKeyLinks<V>(s: Store<V>, key: string)
    requires Valid(s.data) && Linked(s.dependencies, s.reverseDeps)
    ensures Linked(RemoveKeyFrom(s, key).dependencies, RemoveKeyFrom(s, key).reverseDeps)
    ensures key !in RemoveKeyFrom(s, key).reverseDeps
    ensures RemoveKeyFrom(s, key).dependencies.Keys <= s.dependencies.Keys
  {
    var r := RemoveKeyFrom(s, key);
    forall d, x ensures Count(r.dependencies, d, x) <= Count(r.reverseDeps, x, d) {
      RemoveKeyCount(s, key, d, x);
      assert Count(s.dependencies, d, x) <= Count(s.reverseDeps, x, d);
    }
    if key in s.reverseDeps {
      UnlinkKeys(s.dependencies, s.reverseDeps[key], key);
    }
  }

  /** The access time of the key at position j. */
  function Access<V>(d: Dict<Entry<V>>, j: nat): int
    requires Valid(d) && j < |d.order|
  {
    d.values[d.order[j]].accessTime
  }

  /**
   * `min(data, key=access time)` over the first n keys: the position of the
   * least recently accessed one, the first such in insertion order.
   */
  function LeastRecent<V>(d: Dict<Entry<V>>, n: nat): (i: nat)
    requires Valid(d) && 0 < n <= |d.order|
    ensures i < n
    ensures forall j | 0 <= j < n :: Access(d, i) <= Access(d, j)
    ensures forall j | 0 <= j < i :: Access(d, j) > Access(d, i)
    decreases n
  {
    if n == 1 then 0
    else
      var m := LeastRecent(d, n - 1);
      if Access(d, n - 1) < Access(d, m) then n - 1 else m
  }

  /** `_evict_lru`: nothing on an empty cache, else the least recently accessed key removed. */
  function EvictedFrom<V>(s: Store<V>): (r: Store<V>)
    requires Valid(s.data)
    ensures Valid(r.data)
  {
    if s.data.order == [] then s else RemoveKeyFrom(s, s.data.order[LeastRecent(s.data, |s.data.order|)])
  }

  /** Eviction removes exactly one entry of a non-empty cache, one accessed no later than any other. */
  lemma EvictsLeastRecent<V>(s: Store<V>)
    requires Valid(s.data) && s.data.order != []
    ensures exists k | k in s.data.values ::
      EvictedFrom(s).data.values == s.data.values - {k}
      && forall k' | k' in s.data.values :: s.data.values[k].accessTime <= s.data.values[k'].accessTime
  {
    var i := LeastRecent(s.data, |s.data.order|);
    var k := s.data.order[i];
    forall k' | k' in s.data.values ensures s.data.values[k].accessTime <= s.data.values[k'].accessTime {
      var j :| 0 <= j < |s.data.order| && s.data.order[j] == k';
      assert Access(s.data, i) <= Access(s.data, j);
    }
  }

  /** One turn of `set`'s loop: the key listed under dep, dep listed among the key's sources. */
  function RecordOne<V>(s: Store<V>, key: string, dep: string): Store<V> {
    s.(dependencies := s.dependencies[dep := ListAt(s.dependencies, dep) + [key]],
       reverseDeps := s.reverseDeps[key := ListAt(s.reverseDeps, key) + [dep]])
  }

  function Record<V>(s: Store<V>, key: string, deps: seq<string>): (r: Store<V>)
    ensures r.data == s.data
    decreases |deps|
  {
    if deps == [] then s else RecordOne(Record(s, key, deps[..|deps| - 1]), key, deps[|deps| - 1])
  }

  /** Recording lists the key under each dep once per time dep is given, and changes no other listing. */
  lemma {:induction false} RecordDepsCount<V>(s: Store<V>, key: string, deps: seq<string>, d: string, x: string)
    ensures Count(Record(s, key, deps).dependencies, d, x) == Count(s.dependencies, d, x) + if x == key then multiset(deps)[d] else 0
    decreases |deps|
  {
    if deps != [] {
      var init := deps[..|deps| - 1];
      assert deps == init + [deps[|deps| - 1]];
      RecordDepsCount(s, key, init, d, x);
    }
  }

  /** Recording appends the deps, in order, to the key's own list of sources, and changes no other list. */
  lemma {:induction false} RecordRevs<V>(s: Store<V>, key: string, deps: seq<string>)
    ensures ListAt(Record(s, key, deps).reverseDeps, key) == ListAt(s.reverseDeps, key) + deps
    ensures forall k | k != key :: ListAt(Record(s, key, deps).reverseDeps, k) == ListAt(s.reverseDeps, k)
    decreases |deps|
  {
    if deps != [] {
      var init := deps[..|deps| - 1];
      RecordRevs(s, key, init);
      assert ListAt(s.reverseDeps, key) + init + [deps[|deps| - 1]] == ListAt(s.reverseDeps, key) + deps;
    }
  }

  lemma RecordRevsCount<V>(s: Store<V>, key: string, deps: seq<string>, d: string, x: string)
    ensures Count(Record(s, key, deps).reverseDeps, x, d) == Count(s.reverseDeps, x, d) + if x == key then multiset(deps)[d] else 0
  {
    RecordRevs(s, key, deps);
    var r := Record(s, key, deps);
    assert Count(r.reverseDeps, x, d) == multiset(ListAt(r.reverseDeps, x))[d];
    assert Count(s.reverseDeps, x, d) == multiset(ListAt(s.reverseDeps, x))[d];
  }

  /** `set`: evict when full, store the entry at `now`, then record its dependencies. */
  function Stored<V>(s: Store<V>, maxSize: int, defaultTtl: int, key: string, value: V,
                     deps: Option<seq<string>>, ttl: Option<int>, now: int): (r: Store<V>)
    requires Valid(s.data)
    ensures Valid(r.data)
  {
    var s1 := if |s.data.order| >= maxSize then EvictedFrom(s) else s;
    var s2 := s1.(data := Put(s1.data, key, Entry(value, now, ExpiryFor(ttl, defaultTtl, now))));
    if deps.Some? && deps.value != [] then Record(s2, key, deps.value) else s2
  }

  /** Right after `set`, reading the key at `later` is a hit exactly while the new ttl has not run out. */
  lemma SetThenGet<V>(s: Store<V>, maxSize: int, defaultTtl: int, key: string, value: V,
                      deps: Option<seq<string>>, ttl: Option<int>, now: int, later: int)
    requires Valid(s.data)
    ensures var r := Stored(s, maxSize, defaultTtl, key, value, deps, ttl, now);
      key in r.data.values && r.data.values[key].value == value && r.data.values[key].accessTime == now
      && (Hit(r.data, key, later) <==> ttl == Some(0) || later < now + (if ttl.Some? then ttl.value else defaultTtl))
  {
  }

  /** `set` never takes a cache past its size limit (at least one entry always fits). */
  lemma SetSize<V>(s: Store<V>, maxSize: int, defaultTtl: int, key: string, value: V,
                   deps: Option<seq<string>>, ttl: Option<int>, now: int)
    requires Valid(s.data) && |s.data.order| <= Max(1, maxSize)
    ensures |Stored(s, maxSize, defaultTtl, key, value, deps, ttl, now).data.order| <= Max(1, maxSize)
  {
    var s1 := if |s.data.order| >= maxSize then EvictedFrom(s) else s;
    if |s.data.order| >= maxSize && s.data.order != [] {
      var k := s.data.order[LeastRecent(s.data, |s.data.order|)];
      assert k in s.data.order;
    }
    assert |s1.data.order| <= Max(1, maxSize) - (if |s.data.order| >= maxSize then 1 else 0) || s.data.order == [];
  }

  /** `set` keeps the links consistent and lists each dependency among the key's sources. */
  lemma SetLinks<V>(s: Store<V>, maxSize: int, defaultTtl: int, key: string, value: V,
                    deps: Option<seq<string>>, ttl: Option<int>, now: int)
    requires Valid(s.data) && Linked(s.dependencies, s.reverseDeps)
    ensures var r := Stored(s, maxSize, defaultTtl, key, value, deps, ttl, now);
      Linked(r.dependencies, r.reverseDeps)
      && (deps.Some? ==> forall dep | dep in deps.value :: Dependent(r.dependencies, dep, key) && Dependent(r.reverseDeps, key, dep))
  {
    var s1 := if |s.data.order| >= maxSize then EvictedFrom(s) else s;
    EvictKeepsLinks(s, maxSize);
    var s2 := s1.(data := Put(s1.data, key, Entry(value, now, ExpiryFor(ttl, defaultTtl, now))));
    assert Linked(s2.dependencies, s2.reverseDeps);
    if deps.Some? && deps.value != [] {
      RecordKeepsLinks(s2, key, deps.value);
      RecordListsDeps(s2, key, deps.value);
    }
  }

  /** Evicting the least recently used entry keeps the links consistent. */
  lemma EvictKeepsLinks<V>(s: Store<V>, maxSize: int)
    requires Valid(s.data) && Linked(s.dependencies, s.reverseDeps)
    ensures var s1 := if |s.data.order| >= maxSize then EvictedFrom(s) else s;
      Linked(s1.dependencies, s1.reverseDeps)
  {
    if |s.data.order| >= maxSize && s.data.order != [] {
      RemoveKeyLinks(s, s.data.order[LeastRecent(s.data, |s.data.order|)]);
    }
  }

  /** Recording a key's dependencies keeps the links consistent. */
  lemma RecordKeepsLinks<V>(s: Store<V>, key: string, deps: seq<string>)
    requires Linked(s.dependencies, s.reverseDeps)
    ensures Linked(Record(s, key, deps).dependencies, Record(s, key, deps).reverseDeps)
  {
    var r := Record(s, key, deps);
    forall d, x ensures Count(r.dependencies, d, x) <= Count(r.reverseDeps, x, d) {
      RecordDepsCount(s, key, deps, d, x);
      RecordRevsCount(s, key, deps, d, x);
      assert Count(s.dependencies, d, x) <= Count(s.reverseDeps, x, d);
    }
  }

  /** After recording, the key depends on each dep, and lists it among its sources. */
  lemma RecordListsDeps<V>(s: Store<V>, key: string, deps: seq<string>)
    ensures forall dep | dep in deps :: Dependent(Record(s, key, deps).dependencies, dep, key)
                                       && Dependent(Record(s, key, deps).reverseDeps, key, dep)
  {
    var r := Record(s, key, deps);
    forall dep | dep in deps ensures Dependent(r.dependencies, dep, key) && Dependent(r.reverseDeps, key, dep) {
      RecordDepsCount(s, key, deps, dep, key);
      RecordRevs(s, key, deps);
    }
  }

  /** The snapshot of `cleanup_expired`: the expired keys, in order. */
  function ExpiredAmong<V>(order: seq<string>, values: map<string, Entry<V>>, now: int): (r: seq<string>)
    requires forall k | k in order :: k in values
    ensures forall k :: k in r <==> k in order && Expired(values[k], now)
    decreases |order|
  {
    if order == [] then []
    else (if Expired(values[order[0]], now) then [order[0]] else []) + ExpiredAmong(order[1..], values, now)
  }

  /** `cleanup_expired`'s loop: each listed key still present and expired is removed. */
  function RemoveExpired<V>(s: Store<V>, ks: seq<string>, now: int): (r: Store<V>)
    requires Valid(s.data)
    ensures Valid(r.data)
    decreases |ks|
  {
    if ks == [] then s
    else
      var r := RemoveExpired(s, ks[..|ks| - 1], now);
      var k := ks[|ks| - 1];
      if k in r.data.values && Expired(r.data.values[k], now) then RemoveKeyFrom(r, k) else r
  }

  /** The entries a cleanup keeps: those neither listed nor expired. */
  lemma {:induction false} RemoveExpiredData<V>(s: Store<V>, ks: seq<string>, now: int)
    requires Valid(s.data)
    ensures RemoveExpired(s, ks, now).data.values
            == map k | k in s.data.values && !(k in ks && Expired(s.data.values[k], now)) :: s.data.values[k]
    decreases |ks|
  {
    if ks != [] {
      var init := ks[..|ks| - 1];
      RemoveExpiredData(s, init, now);
      assert forall k :: k in ks <==> k in init || k == ks[|ks| - 1];
    }
  }

  /** A cleanup keeps exactly the entries that are not expired. */
  lemma CleanupKeepsLive<V>(s: Store<V>, now: int)
    requires Valid(s.data)
    ensures RemoveExpired(s, ExpiredAmong(s.data.order, s.data.values, now), now).data.values
            == map k | k in s.data.values && !Expired(s.data.values[k], now) :: s.data.values[k]
  {
    RemoveExpiredData(s, ExpiredAmong(s.data.order, s.data.values, now), now);
  }

  /** `[k for k in keys if matches(k)]`: the keys the pattern selects, in order. */
  function Matching(keys: seq<string>, matches: string -> bool): (r: seq<string>)
    ensures forall k :: k in r <==> k in keys && matches(k)
    decreases |keys|
  {
    if keys == [] then [] else (if matches(keys[0]) then [keys[0]] else []) + Matching(keys[1..], matches)
  }

  /** The keys of ds not yet in processed, in order: what one invalidation step enqueues. */
  function Unvisited(ds: seq<string>, processed: set<string>): (r: seq<string>)
    ensures forall k :: k in r <==> k in ds && k !in processed
    decreases |ds|
  {
    if ds == [] then []
    else Unvisited(ds[..|ds| - 1], processed) + (if ds[|ds| - 1] !in processed then [ds[|ds| - 1]] else [])
  }

  /** One key invalidated: removed, then its own list of dependents dropped. */
  function InvalidateOne<V>(s: Store<V>, k: string): (r: Store<V>)
    requires Valid(s.data)
    ensures Valid(r.data) && r.data.values == s.data.values - {k}
  {
    var r := RemoveKeyFrom(s, k);
    r.(dependencies := r.dependencies - {k})
  }

  /** The keys of trail invalidated in turn. */
  function Invalidated<V>(s: Store<V>, trail: seq<string>): (r: Store<V>)
    requires Valid(s.data)
    ensures Valid(r.data)
    decreases |trail|
  {
    if trail == [] then s else InvalidateOne(Invalidated(s, trail[..|trail| - 1]), trail[|trail| - 1])
  }

  function Elements(s: seq<string>): set<string> {
    set x | x in s
  }

  /** Invalidation removes exactly the entries of the invalidated keys. */
  lemma {:induction false} InvalidatedData<V>(s: Store<V>, trail: seq<string>)
    requires Valid(s.data)
    ensures Invalidated(s, trail).data.values == s.data.values - Elements(trail)
    decreases |trail|
  {
    if trail != [] {
      var init, last := trail[..|trail| - 1], trail[|trail| - 1];
      assert trail == init + [last];
      InvalidatedData(s, init);
      InvalidatedSnoc(s, init, last);
      MinusSnoc(s.data.values, init, last);
    }
  }

  lemma InvalidatedSnoc<V>(s: Store<V>, init: seq<string>, last: string)
    requires Valid(s.data)
    ensures Invalidated(s, init + [last]).data.values == Invalidated(s, init).data.values - {last}
  {
    assert (init + [last])[..|init|] == init;
  }

  lemma MinusSnoc<V>(m: map<string, V>, init: seq<string>, last: string)
    ensures m - Elements(init + [last]) == (m - Elements(init)) - {last}
  {
    assert Elements(init + [last]) == Elements(init) + {last};
  }

  /** The keys listed as dependent on some key of ks. */
  function Reached(m: Links, ks: seq<string>): set<string>
    decreases |ks|
  {
    if ks == [] then {} else Reached(m, ks[..|ks| - 1]) + Elements(ListAt(m, ks[|ks| - 1]))
  }

  /** A key is reached exactly when it is listed under one of ks. */
  lemma {:induction false} ReachedMembers(m: Links, ks: seq<string>, x: string)
    ensures x in Reached(m, ks) <==> exists i | 0 <= i < |ks| :: Dependent(m, ks[i], x)
    decreases |ks|
  {
    if ks != [] {
      var init := ks[..|ks| - 1];
      ReachedMembers(m, init, x);
      if exists i | 0 <= i < |init| :: Dependent(m, init[i], x) {
        var i :| 0 <= i < |init| && Dependent(m, init[i], x);
        assert ks[i] == init[i];
      }
      if exists i | 0 <= i < |ks| :: Dependent(m, ks[i], x) {
        var i :| 0 <= i < |ks| && Dependent(m, ks[i], x);
        if i < |init| {
          assert init[i] == ks[i];
        }
      }
    }
  }

  /** Every key listed anywhere in m. */
  function AllDependents(m: Links): set<string> {
    set d, x | d in m && x in m[d] :: x
  }

  lemma {:induction false} ReachedWithin(m: Links, ks: seq<string>)
    ensures Reached(m, ks) <= AllDependents(m)
    decreases |ks|
  {
    if ks != [] {
      ReachedWithin(m, ks[..|ks| - 1]);
      var k := ks[|ks| - 1];
      forall x | x in ListAt(m, k) ensures x in AllDependents(m) {
        assert k in m && x in m[k];
      }
    }
  }

  /**
   * The work-queue state of `invalidate`: the processed keys are the trail,
   * each once; every matching key and every key reached from the trail is
   * processed or waiting; every trail key and every waiting key matched or
   * was reached from a key processed before it.
   */
  ghost predicate Frontier(deps0: Links, initial: seq<string>, trail: seq<string>, processed: set<string>, queue: seq<string>) {
    && processed == (set k | k in trail)
    && Distinct(trail)
    && (forall k | k in initial :: k in processed || k in queue)
    && (forall x | x in Reached(deps0, trail) :: x in processed || x in queue)
    && (forall i | 0 <= i < |trail| :: trail[i] in initial || trail[i] in Reached(deps0, trail[..i]))
    && (forall q | q in queue :: q in initial || q in Reached(deps0, trail))
  }

  /**
   * What invalidation has done to the lists so far: lists of unprocessed
   * keys still name their unprocessed dependents as the original did, no
   * list grew, processed keys are named nowhere and have no lists.
   */
  ghost predicate CountsKept(deps0: Links, deps: Links, revs: Links, processed: set<string>) {
    && (forall d, x | d !in processed && x !in processed :: Count(deps, d, x) == Count(deps0, d, x))
    && (forall d, x :: Count(deps, d, x) <= Count(deps0, d, x))
    && (forall d, x | x in processed :: Count(deps, d, x) == 0)
    && (forall k | k in processed :: k !in deps && k !in revs)
  }

  /** A waiting key already processed is skipped. */
  lemma FrontierSkip(deps0: Links, initial: seq<string>, trail: seq<string>, processed: set<string>, queue: seq<string>)
    requires Frontier(deps0, initial, trail, processed, queue) && queue != [] && queue[0] in processed
    ensures Frontier(deps0, initial, trail, processed, queue[1..])
  {
    assert forall q | q in queue :: q == queue[0] || q in queue[1..];
  }

  /** Processing a new key k whose current dependents are ds enqueues the unprocessed ones. */
  lemma FrontierStep(deps0: Links, initial: seq<string>, trail: seq<string>, processed: set<string>, queue: seq<string>,
                     ds: seq<string>)
    requires Frontier(deps0, initial, trail, processed, queue) && queue != [] && queue[0] !in processed
    requires forall x | x in ListAt(deps0, queue[0]) && x !in processed && x != queue[0] :: x in ds
    requires forall x | x in ds :: x in ListAt(deps0, queue[0])
    ensures Frontier(deps0, initial, trail + [queue[0]], processed + {queue[0]},
                     queue[1..] + Unvisited(ds, processed + {queue[0]}))
  {
    var k := queue[0];
    var trail' := trail + [k];
    var processed' := processed + {k};
    var queue' := queue[1..] + Unvisited(ds, processed');
    assert Reached(deps0, trail') == Reached(deps0, trail) + Elements(ListAt(deps0, k)) by {
      assert trail'[..|trail|] == trail;
    }
    assert processed' == (set x | x in trail');
    assert Distinct(trail') by {
      AppendDistinct(trail, [k]);
    }
    assert forall x | x in initial :: x in processed' || x in queue' by {
      assert forall q | q in queue :: q == k || q in queue[1..];
    }
    assert forall x | x in Reached(deps0, trail') :: x in processed' || x in queue' by {
      ReachedCovered(deps0, trail, processed, queue, k, ds, Reached(deps0, trail'));
    }
    assert forall i | 0 <= i < |trail'| :: trail'[i] in initial || trail'[i] in Reached(deps0, trail'[..i]) by {
      TrailGrows(deps0, initial, trail, k);
    }
    assert forall q | q in queue' :: q in initial || q in Reached(deps0, trail') by {
      assert forall q | q in queue[1..] :: q in queue;
    }
  }

  /** After processing k, every key reached from the trail is processed or waiting. */
  lemma ReachedCovered(deps0: Links, trail: seq<string>, processed: set<string>, queue: seq<string>, k: string,
                       ds: seq<string>, reached: set<string>)
    requires queue != [] && k == queue[0]
    requires reached == Reached(deps0, trail) + Elements(ListAt(deps0, k))
    requires forall x | x in Reached(deps0, trail) :: x in processed || x in queue
    requires forall x | x in ListAt(deps0, k) && x !in processed && x != k :: x in ds
    ensures forall x | x in reached :: x in processed + {k} || x in queue[1..] + Unvisited(ds, processed + {k})
  {
    assert forall q | q in queue :: q == k || q in queue[1..];
  }

  /** The key appended to the trail was waiting, so it matched or was reached from the trail before it. */
  lemma TrailGrows(deps0: Links, initial: seq<string>, trail: seq<string>, k: string)
    requires forall i | 0 <= i < |trail| :: trail[i] in initial || trail[i] in Reached(deps0, trail[..i])
    requires k in initial || k in Reached(deps0, trail)
    ensures forall i | 0 <= i < |trail + [k]| :: (trail + [k])[i] in initial || (trail + [k])[i] in Reached(deps0, (trail + [k])[..i])
  {
    var trail' := trail + [k];
    forall i | 0 <= i < |trail'|
      ensures trail'[i] in initial || trail'[i] in Reached(deps0, trail'[..i])
    {
      if i < |trail| {
        assert trail'[..i] == trail[..i];
      } else {
        assert trail'[..i] == trail;
      }
    }
  }

  /** Invalidating a new key k keeps the lists' bookkeeping and shows which dependents remain listed under k. */
  lemma CountsStep<V>(deps0: Links, s: Store<V>, k: string, processed: set<string>)
    requires Valid(s.data) && Linked(s.dependencies, s.reverseDeps)
    requires CountsKept(deps0, s.dependencies, s.reverseDeps, processed) && k !in processed
    ensures Linked(InvalidateOne(s, k).dependencies, InvalidateOne(s, k).reverseDeps)
    ensures CountsKept(deps0, InvalidateOne(s, k).dependencies, InvalidateOne(s, k).reverseDeps, processed + {k})
    ensures forall x | x in ListAt(deps0, k) && x !in processed && x != k :: x in ListAt(RemoveKeyFrom(s, k).dependencies, k)
    ensures forall x | x in ListAt(RemoveKeyFrom(s, k).dependencies, k) :: x in ListAt(deps0, k)
  {
    var r := RemoveKeyFrom(s, k);
    var t := InvalidateOne(s, k);
    RemoveKeyLinks(s, k);
    forall d, x ensures Count(r.dependencies, d, x) == if x == k then 0 else Count(s.dependencies, d, x) {
      RemoveKeyCount(s, k, d, x);
    }
    forall d, x ensures Count(t.dependencies, d, x) <= Count(t.reverseDeps, x, d) {
      assert Count(r.dependencies, d, x) <= Count(r.reverseDeps, x, d);
    }
    forall x | x in ListAt(deps0, k) && x !in processed && x != k ensures x in ListAt(r.dependencies, k) {
      assert Count(deps0, k, x) > 0;
    }
    forall x | x in ListAt(r.dependencies, k) ensures x in ListAt(deps0, k) {
      assert Count(r.dependencies, k, x) > 0;
    }
  }

  /** An insertion-ordered dictionary, links recorded both ways, and never more entries than the limit allows. */
  ghost predicate Consistent<V>(s: Store<V>, maxSize: int) {
    Valid(s.data) && Linked(s.dependencies, s.reverseDeps) && |s.data.order| <= Max(1, maxSize)
  }

  lemma RemoveKeyConsistent<V>(s: Store<V>, key: string, maxSize: int)
    requires Consistent(s, maxSize)
    ensures Consistent(RemoveKeyFrom(s, key), maxSize)
  {
    RemoveKeyLinks(s, key);
  }

  lemma StoredConsistent<V>(s: Store<V>, maxSize: int, defaultTtl: int, key: string, value: V,
                            deps: Option<seq<string>>, ttl: Option<int>, now: int)
    requires Consistent(s, maxSize)
    ensures Consistent(Stored(s, maxSize, defaultTtl, key, value, deps, ttl, now), maxSize)
  {
    SetSize(s, maxSize, defaultTtl, key, value, deps, ttl, now);
    SetLinks(s, maxSize, defaultTtl, key, value, deps, ttl, now);
  }

  lemma EvictedConsistent<V>(s: Store<V>, maxSize: int)
    requires Consistent(s, maxSize)
    ensures Consistent(EvictedFrom(s), maxSize)
  {
    if s.data.order != [] {
      RemoveKeyConsistent(s, s.data.order[LeastRecent(s.data, |s.data.order|)], maxSize);
    }
  }

  lemma {:induction false} CleanupConsistent<V>(s: Store<V>, ks: seq<string>, now: int, maxSize: int)
    requires Consistent(s, maxSize)
    ensures Consistent(RemoveExpired(s, ks, now), maxSize)
    decreases |ks|
  {
    if ks != [] {
      var init := ks[..|ks| - 1];
      CleanupConsistent(s, init, now, maxSize);
      RemoveKeyConsistent(RemoveExpired(s, init, now), ks[|ks| - 1], maxSize);
    }
  }

  /** `_remove_key` on the entries and the two link dictionaries. */
  method RemoveFromStore<V>(s: Store<V>, key: string) returns (r: Store<V>)
    requires Valid(s.data)
    ensures r == RemoveKeyFrom(s, key)
  {
    var deps, revs := s.dependencies, s.reverseDeps;
    if key in s.reverseDeps {
      deps := UnlinkAll(s.dependencies, s.reverseDeps[key], key);
      revs := s.reverseDeps - {key};
    }
    r := Store(Remove(s.data, key), deps, revs);
  }

  /** The loop of `_remove_key`: key taken out of the list of each of its sources ds. */
  method UnlinkAll(dependencies: Links, ds: seq<string>, key: string) returns (deps: Links)
    ensures deps == Unlink(dependencies, ds, key)
  {
    deps := dependencies;
    var i := 0;
    while i < |ds|
      invariant i <= |ds|
      invariant deps == Unlink(dependencies, ds[..i], key)
    {
      var d := ds[i];
      assert ds[..i + 1][..i] == ds[..i];
      assert Unlink(dependencies, ds[..i + 1], key) == UnlinkOne(deps, d, key);
      ghost var prev := deps;
      if d in deps && key in deps[d] {
        var rest := RemoveFirst(deps[d], key);
        if rest == [] {
          deps := deps - {d};
        } else {
          deps := deps[d := rest];
        }
      }
      assert deps == UnlinkOne(prev, d, key);
      i := i + 1;
    }
    assert ds[..i] == ds;
  }

  /** `_evict_lru` on the entries and the two link dictionaries. */
  method EvictFrom<V>(s: Store<V>) returns (r: Store<V>)
    requires Valid(s.data)
    ensures r == EvictedFrom(s)
  {
    if s.data.order == [] {
      return s;
    }
    var i := LeastRecent(s.data, |s.data.order|);
    r := RemoveFromStore(s, s.data.order[i]);
  }

  /** The loop of `set`: the key listed under each dependency, each dependency among the key's sources. */
  method RecordAll<V>(s: Store<V>, key: string, ds: seq<string>) returns (r: Store<V>)
    ensures r == Record(s, key, ds)
  {
    r := s;
    var i := 0;
    while i < |ds|
      invariant i <= |ds|
      invariant r == Record(s, key, ds[..i])
    {
      var dep := ds[i];
      r := r.(dependencies := r.dependencies[dep := ListAt(r.dependencies, dep) + [key]],
              reverseDeps := r.reverseDeps[key := ListAt(r.reverseDeps, key) + [dep]]);
      assert ds[..i + 1][..i] == ds[..i];
      i := i + 1;
    }
    assert ds[..i] == ds;
  }

  /** `set` on the entries and the two link dictionaries: evict when full, store, record the links. */
  method StoreSet<V>(s: Store<V>, maxSize: int, defaultTtl: int, key: string, value: V,
                     deps: Option<seq<string>>, ttl: Option<int>, now: int) returns (r: Store<V>)
    requires Valid(s.data)
    ensures r == Stored(s, maxSize, defaultTtl, key, value, deps, ttl, now)
  {
    r := s;
    if |s.data.order| >= maxSize {
      r := EvictFrom(s);
    }
    var expiry := ExpiryFor(ttl, defaultTtl, now);
    r := r.(data := Put(r.data, key, Entry(value, now, expiry)));
    if deps.Some? && deps.value != [] {
      r := RecordAll(r, key, deps.value);
    }
  }

  /** `cleanup_expired` on the entries and the two link dictionaries. */
  method CleanupStore<V>(s: Store<V>, now: int) returns (r: Store<V>)
    requires Valid(s.data)
    ensures r == RemoveExpired(s, ExpiredAmong(s.data.order, s.data.values, now), now)
  {
    var expired := ExpiredAmong(s.data.order, s.data.values, now);
    r := RemoveListed(s, expired, now);
  }

  /** The loop of `cleanup_expired` over the snapshot ks of expired keys. */
  method RemoveListed<V>(s: Store<V>, ks: seq<string>, now: int) returns (r: Store<V>)
    requires Valid(s.data)
    ensures r == RemoveExpired(s, ks, now)
  {
    r := s;
    var i := 0;
    while i < |ks|
      invariant i <= |ks|
      invariant r == RemoveExpired(s, ks[..i], now)
    {
      var k := ks[i];
      assert ks[..i + 1][..i] == ks[..i];
      if k in r.data.values && Expired(r.data.values[k], now) {
        r := RemoveFromStore(r, k);
      }
      i := i + 1;
    }
    assert ks[..i] == ks;
  }

  /**
   * What `invalidate` promises about the keys it invalidated, in the order
   * they were processed: each once; every matching key among them; every key
   * listed as dependent on one of them among them too; each one matched or
   * was listed under a key invalidated before it; exactly their entries
   * removed; and none of them still listed as anyone's dependent.
   */
  ghost predicate InvalidationOf<V>(s0: Store<V>, matches: string -> bool, trail: seq<string>, r: Store<V>)
    requires Valid(s0.data)
  {
    && r == Invalidated(s0, trail)
    && Distinct(trail)
    && (forall k | k in s0.data.values && matches(k) :: k in trail)
    && Reached(s0.dependencies, trail) <= Elements(trail)
    && (forall i | 0 <= i < |trail| ::
          (trail[i] in s0.data.values && matches(trail[i])) || trail[i] in Reached(s0.dependencies, trail[..i]))
    && r.data.values == s0.data.values - Elements(trail)
    && (forall d, x | x in trail :: !Dependent(r.dependencies, d, x))
  }

  /** Invalidating one more key keeps the store consistent and extends the invalidated prefix. */
  lemma InvalidateConsistent<V>(s0: Store<V>, trail: seq<string>, r: Store<V>, k: string, maxSize: int)
    requires Valid(s0.data) && r == Invalidated(s0, trail) && Consistent(r, maxSize)
    requires Linked(InvalidateOne(r, k).dependencies, InvalidateOne(r, k).reverseDeps)
    ensures Consistent(InvalidateOne(r, k), maxSize) && InvalidateOne(r, k) == Invalidated(s0, trail + [k])
  {
    assert (trail + [k])[..|trail|] == trail;
    RemoveKeyConsistent(r, k, maxSize);
  }

  /** The work-queue loop of `invalidate` on the entries and the two link dictionaries. */
  method InvalidateStore<V>(s0: Store<V>, maxSize: int, matches: string -> bool) returns (r: Store<V>, ghost trail: seq<string>)
    requires Consistent(s0, maxSize)
    ensures Consistent(r, maxSize) && InvalidationOf(s0, matches, trail, r)
  {
    ghost var deps0 := s0.dependencies;
    var initial := Matching(s0.data.order, matches);
    ghost var universe := Elements(initial) + AllDependents(deps0);
    var processed: set<string> := {};
    var queue := initial;
    r := s0;
    trail := [];
    while queue != []
      invariant Consistent(r, maxSize) && r == Invalidated(s0, trail)
      invariant Frontier(deps0, initial, trail, processed, queue)
      invariant CountsKept(deps0, r.dependencies, r.reverseDeps, processed)
      invariant processed <= universe
      decreases universe - processed, |queue|
    {
      var k := queue[0];
      ReachedWithin(deps0, trail);
      if k in processed {
        FrontierSkip(deps0, initial, trail, processed, queue);
        queue := queue[1..];
      } else {
        CountsStep(deps0, r, k, processed);
        InvalidateConsistent(s0, trail, r, k, maxSize);
        var removed := RemoveFromStore(r, k);
        var ds := ListAt(removed.dependencies, k);
        FrontierStep(deps0, initial, trail, processed, queue, ds);
        r := removed.(dependencies := removed.dependencies - {k});
        processed := processed + {k};
        queue := Enqueue(queue[1..], ds, processed);
        trail := trail + [k];
      }
    }
    InvalidationEnd(s0, matches, initial, trail, processed, r);
  }

  /** When the queue runs dry the work-queue state is what `invalidate` promises. */
  lemma InvalidationEnd<V>(s0: Store<V>, matches: string -> bool, initial: seq<string>, trail: seq<string>,
                           processed: set<string>, r: Store<V>)
    requires Valid(s0.data) && r == Invalidated(s0, trail)
    requires initial == Matching(s0.data.order, matches)
    requires Frontier(s0.dependencies, initial, trail, processed, [])
    requires CountsKept(s0.dependencies, r.dependencies, r.reverseDeps, processed)
    ensures InvalidationOf(s0, matches, trail, r)
  {
    InvalidatedData(s0, trail);
    forall d, x | x in trail ensures !Dependent(r.dependencies, d, x) {
      assert Count(r.dependencies, d, x) == 0;
    }
  }

  /** The inner loop of `invalidate`: the dependents not processed yet go to the back of the queue. */
  method Enqueue(queue: seq<string>, ds: seq<string>, processed: set<string>) returns (q: seq<string>)
    ensures q == queue + Unvisited(ds, processed)
  {
    q := queue;
    var i := 0;
    while i < |ds|
      invariant i <= |ds|
      invariant q == queue + Unvisited(ds[..i], processed)
    {
      assert ds[..i + 1][..i] == ds[..i];
      if ds[i] !in processed {
        q := q + [ds[i]];
      }
      i := i + 1;
    }
    assert ds[..i] == ds;
  }

  class Cache<V> {
    const name: string
    var data: Dict<Entry<V>>
    var dependencies: Links
    var reverseDeps: Links
    const creationTime: int
    const defaultTtl: int
    const maxSize: int
    var hits: nat
    var misses: nat

    function State(): Store<V>
      reads this
    {
      Store(data, dependencies, reverseDeps)
    }

    ghost predicate Valid()
      reads this
    {
      Consistent(State(), maxSize)
    }

    /** A new, empty cache created at `now`; the named caches get their fixed size. */
    constructor(name: string, ttl: int, maxSize: int, now: int)
      ensures Valid()
      ensures data == Dict([], map[]) && dependencies == map[] && reverseDeps == map[]
      ensures this.name == name && creationTime == now && defaultTtl == ttl && this.maxSize == SizeFor(name, maxSize)
      ensures hits == 0 && misses == 0
    {
      this.name := name;
      data := Dict([], map[]);
      dependencies := map[];
      reverseDeps := map[];
      creationTime := now;
      defaultTtl := ttl;
      this.maxSize := SizeFor(name, maxSize);
      hits := 0;
      misses := 0;
    }

    /** `stats`: hits, misses and the number of entries. */
    function Stats(): (r: (int, int, int))
      reads this
      ensures r.0 == hits && r.1 == misses
      ensures Valid() ==> r.2 == |data.values|
    {
      SizeIsKeyCount(data);
      (hits, misses, |data.order|)
    }

    /** `is_expired`: empty and older than its ttl. */
    function IsExpired(now: int): (r: bool)
      reads this
      ensures Valid() ==> (r <==> now - creationTime > defaultTtl && data.values == map[])
    {
      SizeIsKeyCount(data);
      now - creationTime > defaultTtl && data.order == []
    }

    method RemoveKey(key: string)
      requires Valid()
      modifies this
      ensures Valid() && State() == RemoveKeyFrom(old(State()), key)
      ensures hits == old(hits) && misses == old(misses)
    {
      RemoveKeyConsistent(State(), key, maxSize);
      var r := RemoveFromStore(State(), key);
      data, dependencies, reverseDeps := r.data, r.dependencies, r.reverseDeps;
    }

    method Get(key: string, now: int) returns (r: Option<V>)
      requires Valid()
      modifies this
      ensures Valid()
      ensures Hit(old(data), key, now) ==>
        r == Some(old(data.values[key].value))
        && data == Put(old(data), key, old(data.values[key]).(accessTime := now))
        && dependencies == old(dependencies) && reverseDeps == old(reverseDeps)
        && hits == old(hits) + 1 && misses == old(misses)
      ensures !Hit(old(data), key, now) ==>
        r == None && hits == old(hits) && misses == old(misses) + 1
        && State() == if key in old(data.values) then RemoveKeyFrom(old(State()), key) else old(State())
    {
      if key in data.values {
        var e := data.values[key];
        if e.expiry.None? || now < e.expiry.value {
          data := Put(data, key, e.(accessTime := now));
          hits := hits + 1;
          return Some(e.value);
        } else {
          RemoveKey(key);
        }
      }
      misses := misses + 1;
      return None;
    }

    method EvictLru()
      requires Valid()
      modifies this
      ensures Valid() && State() == EvictedFrom(old(State()))
      ensures hits == old(hits) && misses == old(misses)
    {
      EvictedConsistent(State(), maxSize);
      var r := EvictFrom(State());
      data, dependencies, reverseDeps := r.data, r.dependencies, r.reverseDeps;
    }

    method Set(key: string, value: V, deps: Option<seq<string>>, ttl: Option<int>, now: int)
      requires Valid()
      modifies this
      ensures Valid() && State() == Stored(old(State()), maxSize, defaultTtl, key, value, deps, ttl, now)
      ensures hits == old(hits) && misses == old(misses)
    {
      StoredConsistent(State(), maxSize, defaultTtl, key, value, deps, ttl, now);
      var r := StoreSet(State(), maxSize, defaultTtl, key, value, deps, ttl, now);
      data, dependencies, reverseDeps := r.data, r.dependencies, r.reverseDeps;
    }

    method CleanupExpired(now: int)
      requires Valid()
      modifies this
      ensures Valid() && State() == RemoveExpired(old(State()), ExpiredAmong(old(data.order), old(data.values), now), now)
      ensures data.values == map k | k in old(data.values) && !Expired(old(data.values)[k], now) :: old(data.values)[k]
      ensures hits == old(hits) && misses == old(misses)
    {
      CleanupKeepsLive(State(), now);
      CleanupConsistent(State(), ExpiredAmong(data.order, data.values, now), now, maxSize);
      var r := CleanupStore(State(), now);
      data, dependencies, reverseDeps := r.data, r.dependencies, r.reverseDeps;
    }

    /**
     * `invalidate`: the keys the pattern matches are removed, then, through
     * the work queue, every key listed as dependent on a removed key, each
     * key once.
     */
    method Invalidate(matches: string -> bool) returns (ghost trail: seq<string>)
      requires Valid()
      modifies this
      ensures Valid() && InvalidationOf(old(State()), matches, trail, State())
      ensures hits == old(hits) && misses == old(misses)
    {
      var r;
      r, trail := InvalidateStore(State(), maxSize, matches);
      data, dependencies, reverseDeps := r.data, r.dependencies, r.reverseDeps;
    }
  }

  /** The register of named caches. */
  class CacheManager<V> {
    var caches: map<string, Cache<V>>

    /** Every registered cache keeps its own invariant. */
    ghost predicate Valid()
      reads this, caches.Values
    {
      forall n | n in caches :: caches[n].Valid()
    }

    constructor()
      ensures Valid() && caches == map[]
    {
      caches := map[];
    }

    /** `get_cache`: the registered cache unless it is missing or expired, else a new one registered in its place. */
    method GetCache(name: string, ttl: int, now: int) returns (c: Cache<V>)
      requires Valid()
      modifies this
      ensures Valid() && c.Valid()
      ensures old(name in caches && !caches[name].IsExpired(now)) ==> c == old(caches[name]) && caches == old(caches)
      ensures old(name !in caches || caches[name].IsExpired(now)) ==>
        fresh(c) && c.Valid() && c.data.values == map[] && c.name == name && c.creationTime == now && c.defaultTtl == ttl && c.maxSize == SizeFor(name, DefaultMaxSize)
        && caches == old(caches)[name := c]
    {
      if name !in caches || caches[name].IsExpired(now) {
        c := new Cache(name, ttl, DefaultMaxSize, now);
        caches := caches[name := c];
      } else {
        c := caches[name];
      }
    }

    /** `clear_all`: no cache left. */
    method ClearAll()
      modifies this
      ensures Valid() && caches == map[]
    {
      caches := map[];
    }
  }
}
