/**
 The bounded response cache of middleware/cache.go. Each locked section is one atomic step on
 the pair of store and totalBytes; map iteration order is a choice of the step.
 */
module Cache {
  import opened Sets

  datatype Entry = Entry(body: string, contentType: string, status: int, exp: int, size: int)

  /** Caps of zero or less are off, as in CacheConfig after its defaults are filled in. */
  datatype Config = Config(maxEntries: int, maxBytes: int, expiration: int)

  datatype State = State(store: map<string, Entry>, total: int)

  function Floor(n: int): int {
    if n < 0 then 0 else n
  }

  /** delete(store, k) together with the subtraction that follows it everywhere. */
  function Drop(s: State, k: string): State
    requires k in s.store
  {
    State(s.store - {k}, Floor(s.total - s.store[k].size))
  }

  predicate Expired(e: Entry, now: int) {
    0 < e.exp < now
  }

  /** evictOne removes k: an expired entry if there is one, else any. */
  ghost predicate Evictable(s: State, now: int, k: string) {
    && k in s.store
    && (Expired(s.store[k], now) || forall j | j in s.store :: !Expired(s.store[j], now))
  }

  predicate Full(c: Config, s: State, size: int) {
    (c.maxEntries > 0 && |s.store| >= c.maxEntries) || (c.maxBytes > 0 && s.total + size > c.maxBytes)
  }

  /** Rounds of the eviction loop take s to t by removing the keys in order. */
  ghost predicate Evicted(c: Config, size: int, now: int, s: State, keys: seq<string>, t: State)
    decreases keys
  {
    if keys == [] then s == t
    else Full(c, s, size) && Evictable(s, now, keys[0]) && Evicted(c, size, now, Drop(s, keys[0]), keys[1..], t)
  }

  /** The whole loop: it stops when there is room, or when nothing is left to evict. */
  ghost predicate Evicts(c: Config, size: int, now: int, s: State, keys: seq<string>, t: State) {
    Evicted(c, size, now, s, keys, t) && (!Full(c, t, size) || t.store == map[])
  }

  lemma {:induction false} EvictedSnoc(c: Config, size: int, now: int, s: State, keys: seq<string>, t: State, k: string)
    requires Evicted(c, size, now, s, keys, t) && Full(c, t, size) && Evictable(t, now, k)
    ensures Evicted(c, size, now, s, keys + [k], Drop(t, k))
    decreases keys
  {
    if keys == [] {
      assert (keys + [k])[1..] == [];
    } else {
      assert (keys + [k])[1..] == keys[1..] + [k];
      EvictedSnoc(c, size, now, Drop(s, keys[0]), keys[1..], t, k);
    }
  }

  /** An entry about to be replaced no longer counts, though it is still in the store. */
  function Discount(s: State, key: string): State {
    if key in s.store then s.(total := Floor(s.total - s.store[key].size)) else s
  }

  function NewEntry(c: Config, key: string, now: int, status: int, contentType: string, body: string): Entry {
    Entry(body, contentType, status, now + c.expiration, |body| + |contentType| + |key|)
  }

  /** The store section of a request that started at now, with the keys evicted on the way. */
  ghost predicate Stores(c: Config, s: State, key: string, now: int, e: Entry, keys: seq<string>, u: State) {
    exists t :: Evicts(c, e.size, now, Discount(s, key), keys, t) && u == State(t.store[key := e], t.total + e.size)
  }

  /** The entries that have not expired. */
  function Unexpired(m: map<string, Entry>, now: int): map<string, Entry> {
    map k | k in m && !Expired(m[k], now) :: m[k]
  }

  /** The sweep removes exactly the expired entries. */
  ghost predicate Sweeps(s: State, now: int, u: State) {
    && u.store == Unexpired(s.store, now)
    && u.total == Floor(s.total - (Sum(s.store) - Sum(u.store)))
  }

  // ---- sums over the store ----

  ghost function Sum(m: map<string, Entry>): int
    decreases |m|
  {
    if m == map[] then 0 else
      var k :| k in m;
      m[k].size + Sum(m - {k})
  }

  lemma {:induction false} SumWithout(m: map<string, Entry>, k: string)
    requires k in m
    ensures Sum(m) == m[k].size + Sum(m - {k})
    decreases |m|
  {
    var j :| j in m && Sum(m) == m[j].size + Sum(m - {j});
    if j != k {
      SumWithout(m - {j}, k);
      SumWithout(m - {k}, j);
      assert m - {j} - {k} == m - {k} - {j};
    }
  }

  lemma SumWith(m: map<string, Entry>, k: string, e: Entry)
    ensures Sum(m[k := e]) == e.size + Sum(m - {k})
  {
    SumWithout(m[k := e], k);
    assert m[k := e] - {k} == m - {k};
  }

  // ---- the accounting invariant ----

  ghost predicate Sized(s: State) {
    forall k | k in s.store :: s.store[k].size >= 0
  }

  /** Never negative, never above the bytes held, and within the caps. */
  ghost predicate Bounded(c: Config, s: State) {
    && Sized(s)
    && 0 <= s.total <= Sum(s.store)
    && (c.maxEntries > 0 ==> |s.store| <= c.maxEntries)
    && (c.maxBytes > 0 ==> s.total <= c.maxBytes || |s.store| == 1)
  }

  lemma DropKeeps(c: Config, s: State, k: string)
    requires Bounded(c, s) && k in s.store
    ensures Bounded(c, Drop(s, k))
    ensures s.total == Sum(s.store) ==> Drop(s, k).total == Sum(Drop(s, k).store)
  {
    var u := Drop(s, k);
    SumWithout(s.store, k);
    SumNonNegative(u.store);
    assert |u.store| == |s.store| - 1;
    if |u.store| == 0 {
      assert u.store == map[];
    }
  }

  lemma {:induction false} SumNonNegative(m: map<string, Entry>)
    requires forall k | k in m :: m[k].size >= 0
    ensures Sum(m) >= 0
    decreases |m|
  {
    if m != map[] {
      var k :| k in m;
      SumWithout(m, k);
      SumNonNegative(m - {k});
    }
  }

  /** Inside the store section: total counts everything but the entry being replaced. */
  ghost predicate Running(s: State, key: string, exact: bool) {
    && Sized(s)
    && 0 <= s.total <= Sum(s.store - {key})
    && (exact ==> s.total == Sum(s.store - {key}))
  }

  lemma DiscountRuns(s: State, key: string)
    requires Sized(s) && 0 <= s.total <= Sum(s.store)
    ensures Running(Discount(s, key), key, s.total == Sum(s.store))
  {
    SumNonNegative(s.store - {key});
    if key in s.store {
      SumWithout(s.store, key);
    } else {
      assert s.store - {key} == s.store;
    }
  }

  lemma {:induction false} EvictsRuns(c: Config, size: int, now: int, s: State, keys: seq<string>, t: State,
      key: string, exact: bool)
    requires Evicted(c, size, now, s, keys, t) && Running(s, key, exact)
    ensures Running(t, key, exact && key !in keys)
    decreases keys
  {
    if keys != [] {
      var k := keys[0];
      DropRuns(s, k, key, exact);
      EvictsRuns(c, size, now, Drop(s, k), keys[1..], t, key, exact && key != k);
      assert key in keys <==> k == key || key in keys[1..];
    }
  }

  lemma DropRuns(s: State, k: string, key: string, exact: bool)
    requires Running(s, key, exact) && k in s.store
    ensures Running(Drop(s, k), key, exact && key != k)
  {
    var u := Drop(s, k);
    SumNonNegative(s.store - {key});
    SumNonNegative(u.store - {key});
    if k == key {
      assert u.store - {key} == s.store - {key};
    } else {
      SumWithout(s.store - {key}, k);
      assert u.store - {key} == s.store - {key} - {k};
    }
  }

  /** A store keeps the bounds, and keeps the count exact unless it evicts the entry it replaces. */
  lemma StoreKeeps(c: Config, s: State, key: string, now: int, e: Entry, keys: seq<string>, u: State)
    requires Bounded(c, s) && e.size >= 0 && Stores(c, s, key, now, e, keys, u)
    ensures Bounded(c, u)
    ensures s.total == Sum(s.store) && key !in keys ==> u.total == Sum(u.store)
  {
    var t :| Evicts(c, e.size, now, Discount(s, key), keys, t) && u == State(t.store[key := e], t.total + e.size);
    DiscountRuns(s, key);
    EvictsRuns(c, e.size, now, Discount(s, key), keys, t, key, s.total == Sum(s.store));
    SumWith(t.store, key, e);
    InsertFits(c, t, key, e);
  }

  lemma InsertFits(c: Config, t: State, key: string, e: Entry)
    requires !Full(c, t, e.size) || t.store == map[]
    ensures c.maxEntries > 0 ==> |t.store[key := e]| <= c.maxEntries
    ensures c.maxBytes > 0 ==> t.total + e.size <= c.maxBytes || |t.store[key := e]| == 1
  {
    var m := t.store[key := e];
    assert m.Keys == t.store.Keys + {key};
    assert |m.Keys| <= |t.store.Keys| + 1;
    if t.store == map[] {
      assert m.Keys == {key};
    }
  }

  // ---- how far the count drifts ----

  lemma {:induction false} EvictsDebt(c: Config, size: int, now: int, s: State, keys: seq<string>, t: State,
      key: string, debt: int)
    requires Evicted(c, size, now, s, keys, t) && Sized(s) && debt >= 0
    requires s.total == Floor(Sum(s.store - {key}) - debt)
    ensures key in keys ==> key in s.store
    ensures t.total == Floor(Sum(t.store - {key}) - debt - if key in keys then s.store[key].size else 0)
    decreases keys
  {
    if keys != [] {
      var k, u := keys[0], Drop(s, keys[0]);
      var more := if k == key then s.store[key].size else 0;
      DebtStep(s, k, key, debt);
      EvictsDebt(c, size, now, u, keys[1..], t, key, debt + more);
      assert key in keys <==> k == key || key in keys[1..];
    }
  }

  lemma DebtStep(s: State, k: string, key: string, debt: int)
    requires Sized(s) && debt >= 0 && k in s.store
    requires s.total == Floor(Sum(s.store - {key}) - debt)
    ensures var u := Drop(s, k);
      u.total == Floor(Sum(u.store - {key}) - debt - if k == key then s.store[key].size else 0)
  {
    var u := Drop(s, k);
    if k == key {
      assert u.store - {key} == s.store - {key};
    } else {
      SumWithout(s.store - {key}, k);
      assert u.store - {key} == s.store - {key} - {k};
    }
  }

  /**
   The count after a store, from an exact count: the bytes held, less the size of the replaced
   entry a second time when the loop happened to evict it.
   */
  lemma {:induction false} StoreTotal(c: Config, s: State, key: string, now: int, e: Entry, keys: seq<string>, u: State)
    requires Sized(s) && s.total == Sum(s.store) && Stores(c, s, key, now, e, keys, u)
    ensures key in keys ==> key in s.store
    ensures var others := Sum(u.store - {key});
      && u.total == e.size + Floor(others - if key in keys then s.store[key].size else 0)
      && Sum(u.store) == e.size + others
      && (u.total == Sum(u.store) <==> key !in keys || s.store[key].size == 0 || others == 0)
  {
    var t :| Evicts(c, e.size, now, Discount(s, key), keys, t) && u == State(t.store[key := e], t.total + e.size);
    StoredSum(t.store, u.store, key, e);
    LoopTotal(c, s, key, now, e.size, keys, t);
    Lost(Sum(t.store - {key}), if key in keys then s.store[key].size else 0);
  }

  /** What the eviction loop leaves of the count, and how many bytes it leaves beside the key. */
  lemma {:induction false} LoopTotal(c: Config, s: State, key: string, now: int, size: int, keys: seq<string>, t: State)
    requires Sized(s) && s.total == Sum(s.store) && Evicted(c, size, now, Discount(s, key), keys, t)
    ensures key in keys ==> key in s.store && s.store[key].size >= 0
    ensures t.total == Floor(Sum(t.store - {key}) - if key in keys then s.store[key].size else 0)
    ensures Sum(t.store - {key}) >= 0
  {
    LoopCount(c, Discount(s, key), s, key, now, size, keys, t);
    LeftNonNegative(c, size, now, Discount(s, key), keys, t, key);
  }

  lemma {:induction false} LoopCount(c: Config, d: State, s: State, key: string, now: int, size: int, keys: seq<string>,
      t: State)
    requires Sized(s) && s.total == Sum(s.store) && d == Discount(s, key) && Evicted(c, size, now, d, keys, t)
    ensures key in keys ==> key in s.store
    ensures t.total == Floor(Sum(t.store - {key}) - if key in keys then s.store[key].size else 0)
  {
    DiscountExact(s, key);
    EvictsDebt(c, size, now, d, keys, t, key, 0);
  }

  lemma {:induction false} LeftNonNegative(c: Config, size: int, now: int, s: State, keys: seq<string>, t: State,
      key: string)
    requires Evicted(c, size, now, s, keys, t) && Sized(s)
    ensures Sum(t.store - {key}) >= 0
  {
    EvictedPart(c, size, now, s, keys, t);
    SumNonNegative(t.store - {key});
  }

  lemma Lost(others: int, debt: int)
    requires others >= 0 && debt >= 0
    ensures Floor(others - debt) == others <==> debt == 0 || others == 0
  {
  }

  lemma {:induction false} StoredSum(m: map<string, Entry>, n: map<string, Entry>, key: string, e: Entry)
    requires n == m[key := e]
    ensures n - {key} == m - {key} && Sum(n) == e.size + Sum(n - {key})
  {
    SumWith(m, key, e);
    assert n - {key} == m - {key};
  }

  /** A store of a new key, or one that needs no room, keeps an exact count in every eviction order. */
  lemma {:induction false} ExactInEveryOrder(c: Config, s: State, key: string, now: int, e: Entry,
      keys: seq<string>, u: State)
    requires Sized(s) && s.total == Sum(s.store) && Stores(c, s, key, now, e, keys, u)
    requires key !in s.store || !Full(c, Discount(s, key), e.size)
    ensures u.total == Sum(u.store)
  {
    StoreTotal(c, s, key, now, e, keys, u);
  }

  /** Some eviction order makes the count wrong. */
  ghost predicate CanDrift(c: Config, s: State, key: string, now: int, e: Entry) {
    exists keys, u :: Stores(c, s, key, now, e, keys, u) && u.total != Sum(u.store)
  }

  /** All that can be in the store when the entry of key is evicted: expired entries go first. */
  function Beside(m: map<string, Entry>, key: string, now: int): map<string, Entry>
    requires key in m
  {
    if Expired(m[key], now) then m else Unexpired(m, now)
  }

  /** The state in which the round that evicts key finds the least. */
  ghost function AtKey(m: map<string, Entry>, key: string, now: int): State
    requires key in m
  {
    State(Beside(m, key, now), Sum(Beside(m, key, now) - {key}))
  }

  /** Entry b may outlast all others, and leaves room when that of key has been subtracted twice. */
  predicate CanStay(c: Config, m: map<string, Entry>, key: string, now: int, size: int, b: string)
    requires key in m
  {
    && b in m && b != key
    && (Expired(m[b], now) ==> forall j | j in m :: Expired(m[j], now))
    && !Full(c, State(map[b := m[b]], Floor(m[b].size - m[key].size)), size)
  }

  /** The loop can come to the entry of key, and stop before the store is empty. */
  ghost predicate AtRisk(c: Config, s: State, key: string, now: int, size: int) {
    && key in s.store
    && Full(c, AtKey(s.store, key, now), size)
    && exists b :: CanStay(c, s.store, key, now, size, b)
  }

  /** Before the store: some eviction order makes an exact count wrong, exactly when the entry is at risk. */
  lemma {:induction false} CanDriftIff(c: Config, s: State, key: string, now: int, e: Entry)
    requires s.total == Sum(s.store) && forall k | k in s.store :: s.store[k].size > 0
    ensures CanDrift(c, s, key, now, e) <==> AtRisk(c, s, key, now, e.size)
  {
    if CanDrift(c, s, key, now, e) {
      var keys, u :| Stores(c, s, key, now, e, keys, u) && u.total != Sum(u.store);
      DriftIsRisk(c, s, key, now, e, keys, u);
    }
    if AtRisk(c, s, key, now, e.size) {
      RiskIsDrift(c, s, key, now, e);
    }
  }

  // ---- a drift has been at risk ----

  lemma {:induction false} DriftIsRisk(c: Config, s: State, key: string, now: int, e: Entry,
      keys: seq<string>, u: State)
    requires s.total == Sum(s.store) && forall k | k in s.store :: s.store[k].size > 0
    requires Stores(c, s, key, now, e, keys, u) && u.total != Sum(u.store)
    ensures AtRisk(c, s, key, now, e.size)
  {
    var t := DriftRun(c, s, key, now, e, keys, u);
    DiscountExact(s, key);
    SumNonNegative(s.store - {key});
    FullAtKey(c, e.size, now, Discount(s, key), keys, t, key);
    EvictedPart(c, e.size, now, Discount(s, key), keys, t);
    var b := LastOne(c, e.size, now, Discount(s, key), keys, t);
    Stays(c, s, key, now, e.size, t, b);
  }

  /** What the loop of a drifting store left. */
  lemma {:induction false} DriftRun(c: Config, s: State, key: string, now: int, e: Entry,
      keys: seq<string>, u: State) returns (t: State)
    requires Sized(s) && s.total == Sum(s.store)
    requires Stores(c, s, key, now, e, keys, u) && u.total != Sum(u.store)
    ensures Evicts(c, e.size, now, Discount(s, key), keys, t) && key in keys && key in s.store && key !in t.store
    ensures t.store != map[] && t.total == Floor(Sum(t.store) - s.store[key].size)
  {
    StoreTotal(c, s, key, now, e, keys, u);
    t :| Evicts(c, e.size, now, Discount(s, key), keys, t) && u == State(t.store[key := e], t.total + e.size);
    DriftLeft(c, s, key, now, e, keys, t, u);
  }

  lemma {:induction false} DriftLeft(c: Config, s: State, key: string, now: int, e: Entry, keys: seq<string>,
      t: State, u: State)
    requires Sized(s) && s.total == Sum(s.store) && key in keys && key in s.store
    requires Evicted(c, e.size, now, Discount(s, key), keys, t)
    requires u == State(t.store[key := e], t.total + e.size) && Sum(u.store - {key}) != 0
    ensures key !in t.store && t.store != map[] && t.total == Floor(Sum(t.store) - s.store[key].size)
  {
    LoopTotal(c, s, key, now, e.size, keys, t);
    EvictedGone(c, e.size, now, Discount(s, key), keys, t, key);
    KeyGone(t.store, key);
    assert u.store - {key} == t.store - {key};
  }

  lemma KeyGone(m: map<string, Entry>, key: string)
    requires key !in m
    ensures m - {key} == m && (Sum(m) != 0 ==> m != map[])
  {
  }

  lemma {:induction false} Stays(c: Config, s: State, key: string, now: int, size: int, t: State, b: string)
    requires Sized(s) && key in s.store && key !in t.store && b in t.store && !Full(c, t, size)
    requires forall k | k in t.store :: k in s.store && t.store[k] == s.store[k]
    requires t.total == Floor(Sum(t.store) - s.store[key].size)
    requires Expired(t.store[b], now) ==> forall j | j in s.store :: Expired(s.store[j], now)
    ensures CanStay(c, s.store, key, now, size, b)
  {
    SumWithout(t.store, b);
    SumNonNegative(t.store - {b});
    FullGrows(c, map[b := s.store[b]], t.store, Floor(s.store[b].size - s.store[key].size), t.total, size);
  }

  lemma {:induction false} EvictedGone(c: Config, size: int, now: int, s: State, keys: seq<string>, t: State, k: string)
    requires Evicted(c, size, now, s, keys, t) && k in keys
    ensures k !in t.store
    decreases keys
  {
    if k in keys[1..] {
      EvictedGone(c, size, now, Drop(s, keys[0]), keys[1..], t, k);
    } else {
      EvictedPart(c, size, now, Drop(s, keys[0]), keys[1..], t);
    }
  }

  /** More entries and a higher count are no less full. */
  lemma {:induction false} FullGrows(c: Config, m: map<string, Entry>, n: map<string, Entry>, low: int, high: int, size: int)
    requires m.Keys <= n.Keys && low <= high
    ensures Full(c, State(m, low), size) ==> Full(c, State(n, high), size)
  {
    Subset(m.Keys, n.Keys);
    assert |m| == |m.Keys| && |n| == |n.Keys|;
  }

  /** The round that evicts key finds no room beside it. */
  lemma {:induction false} FullAtKey(c: Config, size: int, now: int, s: State, keys: seq<string>, t: State, key: string)
    requires Evicted(c, size, now, s, keys, t) && key in keys && key in s.store && Sized(s)
    requires s.total == Sum(s.store - {key})
    ensures Full(c, AtKey(s.store, key, now), size)
    decreases keys
  {
    var k := keys[0];
    if k == key {
      if !Expired(s.store[key], now) {
        assert Unexpired(s.store, now) == s.store;
      }
    } else {
      var u := Drop(s, k);
      SumWithout(s.store - {key}, k);
      assert u.store - {key} == s.store - {key} - {k};
      SumNonNegative(u.store - {key});
      FullAtKey(c, size, now, u, keys[1..], t, key);
      var m, n := Beside(u.store, key, now), Beside(s.store, key, now);
      SumPart(n - {key}, m - {key});
      FullGrows(c, m, n, Sum(m - {key}), Sum(n - {key}), size);
    }
  }

  /** An entry that is left, not expired unless all were. */
  lemma {:induction false} LastOne(c: Config, size: int, now: int, s: State, keys: seq<string>, t: State)
      returns (b: string)
    requires Evicted(c, size, now, s, keys, t) && t.store != map[]
    ensures b in t.store && (Expired(t.store[b], now) ==> forall j | j in s.store :: Expired(s.store[j], now))
  {
    EvictedPart(c, size, now, s, keys, t);
    if k :| k in t.store && !Expired(t.store[k], now) {
      b := k;
    } else {
      b :| b in t.store;
      AllExpired(c, size, now, s, keys, t, b);
    }
  }

  lemma {:induction false} AllExpired(c: Config, size: int, now: int, s: State, keys: seq<string>, t: State, b: string)
    requires Evicted(c, size, now, s, keys, t) && b in t.store
    requires forall j | j in t.store :: Expired(t.store[j], now)
    ensures forall j | j in s.store :: Expired(s.store[j], now)
    decreases keys
  {
    EvictedPart(c, size, now, s, keys, t);
    if keys != [] {
      AllExpired(c, size, now, Drop(s, keys[0]), keys[1..], t, b);
      assert Evictable(s, now, keys[0]) && Expired(s.store[b], now);
      assert forall j | j in s.store :: j == keys[0] || j in Drop(s, keys[0]).store;
    }
  }

  // ---- an entry at risk can drift ----

  lemma {:induction false} RiskIsDrift(c: Config, s: State, key: string, now: int, e: Entry)
    requires s.total == Sum(s.store) && forall k | k in s.store :: s.store[k].size > 0
    requires AtRisk(c, s, key, now, e.size)
    ensures CanDrift(c, s, key, now, e)
  {
    var b :| CanStay(c, s.store, key, now, e.size, b);
    var keys, v := RiskRun(c, s, key, now, e.size, b);
    EvictedPart(c, e.size, now, Discount(s, key), keys, v);
    RunDrifts(c, s, key, now, e, keys, v, b);
  }

  lemma {:induction false} RunDrifts(c: Config, s: State, key: string, now: int, e: Entry, keys: seq<string>,
      v: State, b: string)
    requires s.total == Sum(s.store) && forall k | k in s.store :: s.store[k].size > 0
    requires Evicts(c, e.size, now, Discount(s, key), keys, v) && key in keys && key in s.store
    requires b in v.store && b != key && forall k | k in v.store :: v.store[k].size > 0
    ensures CanDrift(c, s, key, now, e)
  {
    var u := State(v.store[key := e], v.total + e.size);
    assert Stores(c, s, key, now, e, keys, u);
    StoreTotal(c, s, key, now, e, keys, u);
    StoredSum(v.store, u.store, key, e);
    SumWithout(v.store - {key}, b);
    SumNonNegative(v.store - {key} - {b});
  }

  /** The order: what has expired, unless the entry has too; the entry; and others than b until there is room. */
  lemma {:induction false} RiskRun(c: Config, s: State, key: string, now: int, size: int, b: string)
      returns (keys: seq<string>, v: State)
    requires Sized(s) && s.total == Sum(s.store)
    requires AtRisk(c, s, key, now, size) && CanStay(c, s.store, key, now, size, b)
    ensures Evicts(c, size, now, Discount(s, key), keys, v) && key in keys && b in v.store
  {
    var t := Drop(AtKey(s.store, key, now), key);
    var first := ToKey(c, s, key, now, size);
    AfterKey(s.store, key, now, b, t);
    var rest;
    rest, v := AllButOne(c, size, now, t, b, s.store[key].size);
    EvictedJoin(c, size, now, Discount(s, key), first, t, rest, v);
    keys := first + rest;
  }

  lemma {:induction false} ToKey(c: Config, s: State, key: string, now: int, size: int) returns (keys: seq<string>)
    requires Sized(s) && s.total == Sum(s.store) && key in s.store && Full(c, AtKey(s.store, key, now), size)
    ensures Evicted(c, size, now, Discount(s, key), keys, Drop(AtKey(s.store, key, now), key)) && key in keys
  {
    DiscountExact(s, key);
    SumNonNegative(s.store - {key});
    var first := ExpiredFirst(c, size, now, Discount(s, key), key);
    EvictedSnoc(c, size, now, Discount(s, key), first, AtKey(s.store, key, now), key);
    keys := first + [key];
    assert keys[|first|] == key;
  }

  lemma {:induction false} AfterKey(m: map<string, Entry>, key: string, now: int, b: string, t: State)
    requires key in m && b in m && b != key && forall k | k in m :: m[k].size >= 0
    requires Expired(m[b], now) ==> forall j | j in m :: Expired(m[j], now)
    requires t == Drop(AtKey(m, key, now), key)
    ensures Sized(t) && t.total == Floor(Sum(t.store) - m[key].size)
    ensures b in t.store && t.store[b] == m[b]
    ensures Expired(t.store[b], now) ==> forall j | j in t.store :: Expired(t.store[j], now)
  {
  }

  lemma {:induction false} EvictedJoin(c: Config, size: int, now: int, s: State, js: seq<string>, t: State,
      ks: seq<string>, u: State)
    requires Evicted(c, size, now, s, js, t) && Evicted(c, size, now, t, ks, u)
    ensures Evicted(c, size, now, s, js + ks, u)
    decreases js
  {
    if js == [] {
      assert js + ks == ks;
    } else {
      assert (js + ks)[1..] == js[1..] + ks;
      EvictedJoin(c, size, now, Drop(s, js[0]), js[1..], t, ks, u);
    }
  }

  /** If key has not expired, all that have can go before it. */
  lemma {:induction false} ExpiredFirst(c: Config, size: int, now: int, s: State, key: string) returns (keys: seq<string>)
    requires key in s.store && Sized(s) && s.total == Sum(s.store - {key})
    requires Full(c, AtKey(s.store, key, now), size)
    ensures Evicted(c, size, now, s, keys, AtKey(s.store, key, now))
    decreases |s.store|
  {
    var m := Beside(s.store, key, now);
    keys := [];
    if Expired(s.store[key], now) || forall k | k in s.store :: !Expired(s.store[k], now) {
      assert m == s.store;
    } else {
      var k :| k in s.store && Expired(s.store[k], now);
      var u := Drop(s, k);
      ExpiredGoes(c, size, now, s, key, k);
      var rest := ExpiredFirst(c, size, now, u, key);
      keys := [k] + rest;
      OneRoundMore(c, size, now, s, k, rest, AtKey(s.store, key, now));
    }
  }

  lemma {:induction false} ExpiredGoes(c: Config, size: int, now: int, s: State, key: string, k: string)
    requires key in s.store && Sized(s) && s.total == Sum(s.store - {key}) && !Expired(s.store[key], now)
    requires Full(c, AtKey(s.store, key, now), size)
    requires k in s.store && Expired(s.store[k], now)
    ensures var u := Drop(s, k); u.total == Sum(u.store - {key}) && Unexpired(u.store, now) == Unexpired(s.store, now)
    ensures |Drop(s, k).store| < |s.store| && Full(c, s, size)
  {
    var m, u := Unexpired(s.store, now), Drop(s, k);
    SumWithout(s.store - {key}, k);
    assert u.store - {key} == s.store - {key} - {k};
    SumNonNegative(u.store - {key});
    SumPart(s.store - {key}, m - {key});
    FullGrows(c, m, s.store, Sum(m - {key}), s.total, size);
  }

  /** The loop can go on without touching b until there is room. */
  lemma {:induction false} AllButOne(c: Config, size: int, now: int, s: State, b: string, debt: int)
      returns (keys: seq<string>, t: State)
    requires b in s.store && Sized(s) && debt >= 0 && s.total == Floor(Sum(s.store) - debt)
    requires Expired(s.store[b], now) ==> forall j | j in s.store :: Expired(s.store[j], now)
    requires !Full(c, State(map[b := s.store[b]], Floor(s.store[b].size - debt)), size)
    ensures Evicts(c, size, now, s, keys, t) && b in t.store
    decreases |s.store|
  {
    keys, t := [], s;
    if Full(c, s, size) {
      var k := OtherOne(c, size, now, s, b, debt);
      var u := Drop(s, k);
      SumWithout(s.store, k);
      assert |u.store| < |s.store|;
      var rest;
      rest, t := AllButOne(c, size, now, u, b, debt);
      keys := [k] + rest;
      OneRoundMore(c, size, now, s, k, rest, t);
    }
  }

  lemma {:induction false} OneRoundMore(c: Config, size: int, now: int, s: State, k: string, keys: seq<string>, t: State)
    requires Full(c, s, size) && Evictable(s, now, k) && Evicted(c, size, now, Drop(s, k), keys, t)
    ensures Evicted(c, size, now, s, [k] + keys, t)
  {
    assert ([k] + keys)[1..] == keys;
  }

  lemma {:induction false} OtherOne(c: Config, size: int, now: int, s: State, b: string, debt: int) returns (k: string)
    requires b in s.store && Full(c, s, size) && s.total == Floor(Sum(s.store) - debt)
    requires Expired(s.store[b], now) ==> forall j | j in s.store :: Expired(s.store[j], now)
    requires !Full(c, State(map[b := s.store[b]], Floor(s.store[b].size - debt)), size)
    ensures k != b && Evictable(s, now, k)
  {
    Alone(s.store, b);
    if j :| j in s.store && j != b && Expired(s.store[j], now) {
      k := j;
    } else {
      k :| k in s.store && k != b;
    }
  }

  lemma {:induction false} Alone(m: map<string, Entry>, b: string)
    requires b in m
    ensures (forall j | j in m :: j == b) ==> m == map[b := m[b]] && Sum(m) == m[b].size
  {
    SumWithout(m, b);
    if forall j | j in m :: j == b {
      assert m == map[b := m[b]] && m - {b} == map[];
    }
  }

  lemma DiscountExact(s: State, key: string)
    requires Sized(s) && s.total == Sum(s.store)
    ensures Discount(s, key).total == Floor(Sum(s.store - {key}))
  {
    SumNonNegative(s.store - {key});
    if key in s.store {
      SumWithout(s.store, key);
    } else {
      assert s.store - {key} == s.store;
    }
  }

  lemma {:induction false} SumPart(m: map<string, Entry>, n: map<string, Entry>)
    requires n.Keys <= m.Keys && (forall k | k in n :: n[k] == m[k])
    requires forall k | k in m :: m[k].size >= 0
    ensures Sum(n) <= Sum(m)
    decreases |m|
  {
    if m.Keys == n.Keys {
      assert m == n;
    } else {
      var k :| k in m && k !in n;
      SumWithout(m, k);
      SumPart(m - {k}, n);
    }
  }

  lemma SweepKeeps(c: Config, s: State, now: int, u: State)
    requires Bounded(c, s) && Sweeps(s, now, u)
    ensures Bounded(c, u)
    ensures s.total == Sum(s.store) ==> u.total == Sum(u.store)
  {
    SumPart(s.store, u.store);
    SumNonNegative(u.store);
    assert u.store.Keys <= s.store.Keys;
    Subset(u.store.Keys, s.store.Keys);
    if |s.store| == 1 && |u.store| != 1 {
      assert |u.store.Keys| == 0;
      assert u.store == map[];
    }
  }

  // ---- any number of requests, interleaved ----

  /** Where a request stands between its locked sections; now is read once, when it starts. */
  datatype Phase = Looking(key: string, now: int) | Dropping(key: string, now: int) | Handling(key: string, now: int) | Answered

  datatype Event =
    | Stored(key: string, status: int, contentType: string, body: string, start: int)
    | Hit(key: string, status: int, contentType: string, body: string, now: int)

  /** exact is the history of whether no store ever evicted the entry it was replacing. */
  datatype World = World(cache: State, requests: map<nat, Phase>, log: seq<Event>, exact: bool)

  const INITIAL := World(State(map[], 0), map[], [], true)

  predicate Live(e: Entry, now: int) {
    e.exp == 0 || e.exp > now
  }

  datatype Step =
    | Arrive(id: nat, key: string, now: int)
    | Look(id: nat)
    | DropStale(id: nat)
    | Finish(id: nat, status: int, contentType: string, body: string, evicted: seq<string>)
    | Sweep(now: int)

  ghost predicate Next(c: Config, w: World, step: Step, u: World) {
    match step
    case Arrive(id, key, now) =>
      id !in w.requests && u == w.(requests := w.requests[id := Looking(key, now)])
    case Look(id) =>
      && id in w.requests && w.requests[id].Looking?
      && var r := w.requests[id];
      if r.key in w.cache.store && Live(w.cache.store[r.key], r.now) then
        var e := w.cache.store[r.key];
        u == w.(requests := w.requests[id := Answered], log := w.log + [Hit(r.key, e.status, e.contentType, e.body, r.now)])
      else if r.key in w.cache.store && w.cache.store[r.key].exp > 0 then
        u == w.(requests := w.requests[id := Dropping(r.key, r.now)])
      else
        u == w.(requests := w.requests[id := Handling(r.key, r.now)])
    case DropStale(id) =>
      && id in w.requests && w.requests[id].Dropping?
      && var r := w.requests[id];
      u == w.(requests := w.requests[id := Handling(r.key, r.now)], cache := DroppedIfStale(w.cache, r.key, r.now))
    case Finish(id, status, contentType, body, evicted) =>
      && id in w.requests && w.requests[id].Handling?
      && var r := w.requests[id];
      if status >= 400 then
        u == w.(requests := w.requests[id := Answered])
      else
        && Stores(c, w.cache, r.key, r.now, NewEntry(c, r.key, r.now, status, contentType, body), evicted, u.cache)
        && u == w.(requests := w.requests[id := Answered], cache := u.cache,
          log := w.log + [Stored(r.key, status, contentType, body, r.now)], exact := w.exact && r.key !in evicted)
    case Sweep(now) =>
      Sweeps(w.cache, now, u.cache) && u == w.(cache := u.cache)
  }

  function DroppedIfStale(s: State, key: string, now: int): State {
    if key in s.store && s.store[key].exp <= now then Drop(s, key) else s
  }

  ghost predicate Run(c: Config, steps: seq<Step>, ws: seq<World>) {
    && |ws| == |steps| + 1 && ws[0] == INITIAL
    && forall i | 0 <= i < |steps| :: Next(c, ws[i], steps[i], ws[i + 1])
  }

  /** Event i is the last of the first n that stored something under k. */
  ghost predicate Latest(log: seq<Event>, n: nat, k: string, i: int) {
    && 0 <= i < n <= |log| && log[i].Stored? && log[i].key == k
    && forall j | i < j < n && log[j].Stored? :: log[j].key != k
  }

  /** Entry e under key k is what the last request to store there has stored. */
  ghost predicate Logged(c: Config, log: seq<Event>, k: string, e: Entry) {
    exists i :: Latest(log, |log|, k, i) && Source(c, log[i], k, e)
  }

  predicate Source(c: Config, x: Event, k: string, e: Entry)
    requires x.Stored?
  {
    && x.key == k && x.status == e.status && x.contentType == e.contentType && x.body == e.body
    && x.status < 400 && e.exp == x.start + c.expiration && e.size == |x.body| + |x.contentType| + |x.key|
  }

  /** The event at n answers with what was last stored under the key before it, not yet expired. */
  ghost predicate Honest(c: Config, log: seq<Event>, n: nat)
    requires n < |log| && log[n].Hit?
  {
    exists i :: Latest(log, n, log[n].key, i) && Answers(c, log[i], log[n])
  }

  predicate Answers(c: Config, x: Event, h: Event)
    requires x.Stored? && h.Hit?
  {
    && x.key == h.key && x.status == h.status && x.contentType == h.contentType && x.body == h.body
    && x.status < 400
    && (h.now < x.start + c.expiration || x.start + c.expiration == 0)
  }

  ghost predicate EntriesLogged(c: Config, m: map<string, Entry>, log: seq<Event>) {
    forall k | k in m :: Logged(c, log, k, m[k])
  }

  ghost predicate HitsHonest(c: Config, log: seq<Event>) {
    forall n | 0 <= n < |log| && log[n].Hit? :: Honest(c, log, n)
  }

  ghost predicate Inv(c: Config, w: World) {
    && Bounded(c, w.cache)
    && (w.exact ==> w.cache.total == Sum(w.cache.store))
    && EntriesLogged(c, w.cache.store, w.log)
    && HitsHonest(c, w.log)
  }

  lemma EntriesStayLogged(c: Config, m: map<string, Entry>, log: seq<Event>, x: Event)
    requires EntriesLogged(c, m, log) && (x.Stored? ==> x.key !in m)
    ensures EntriesLogged(c, m, log + [x])
  {
    var more := log + [x];
    forall k | k in m ensures Logged(c, more, k, m[k]) {
      var i :| Latest(log, |log|, k, i) && Source(c, log[i], k, m[k]);
      assert more[i] == log[i] && Latest(more, |more|, k, i);
    }
  }

  lemma HitsStayHonest(c: Config, log: seq<Event>, x: Event)
    requires HitsHonest(c, log)
    requires x.Hit? ==> exists i :: Latest(log, |log|, x.key, i) && Answers(c, log[i], x)
    ensures HitsHonest(c, log + [x])
  {
    var more := log + [x];
    forall n | 0 <= n < |more| && more[n].Hit? ensures Honest(c, more, n) {
      if n < |log| {
        assert more[n] == log[n];
        var i :| Latest(log, n, log[n].key, i) && Answers(c, log[i], log[n]);
        assert more[i] == log[i] && Latest(more, n, more[n].key, i);
      } else {
        var i :| Latest(log, |log|, x.key, i) && Answers(c, log[i], x);
        assert more[i] == log[i] && Latest(more, n, x.key, i);
      }
    }
  }

  lemma LookKeeps(c: Config, w: World, id: nat, u: World)
    requires Inv(c, w) && Next(c, w, Look(id), u)
    ensures Inv(c, u)
  {
    var r := w.requests[id];
    if r.key in w.cache.store && Live(w.cache.store[r.key], r.now) {
      var e := w.cache.store[r.key];
      var h := Hit(r.key, e.status, e.contentType, e.body, r.now);
      var i :| Latest(w.log, |w.log|, r.key, i) && Source(c, w.log[i], r.key, e);
      assert Answers(c, w.log[i], h);
      HitsStayHonest(c, w.log, h);
      EntriesStayLogged(c, w.cache.store, w.log, h);
    }
  }

  lemma {:induction false} EvictedPart(c: Config, size: int, now: int, s: State, keys: seq<string>, t: State)
    requires Evicted(c, size, now, s, keys, t)
    ensures forall k | k in t.store :: k in s.store && t.store[k] == s.store[k]
    decreases keys
  {
    if keys != [] {
      EvictedPart(c, size, now, Drop(s, keys[0]), keys[1..], t);
    }
  }

  lemma FinishKeeps(c: Config, w: World, step: Step, u: World)
    requires step.Finish? && Inv(c, w) && Next(c, w, step, u) && step.status < 400
    ensures Inv(c, u)
  {
    var r := w.requests[step.id];
    var e := NewEntry(c, r.key, r.now, step.status, step.contentType, step.body);
    var x := Stored(r.key, step.status, step.contentType, step.body, r.now);
    StoreKeeps(c, w.cache, r.key, r.now, e, step.evicted, u.cache);
    HitsStayHonest(c, w.log, x);
    StoreIsLogged(c, w.cache, r.key, r.now, e, step.evicted, u.cache, w.log, x);
  }

  lemma StoreIsLogged(c: Config, s: State, key: string, now: int, e: Entry, keys: seq<string>, u: State,
      log: seq<Event>, x: Event)
    requires Stores(c, s, key, now, e, keys, u) && EntriesLogged(c, s.store, log)
    requires x.Stored? && Source(c, x, key, e)
    ensures EntriesLogged(c, u.store, log + [x])
  {
    var t :| Evicts(c, e.size, now, Discount(s, key), keys, t) && u == State(t.store[key := e], t.total + e.size);
    EvictedPart(c, e.size, now, Discount(s, key), keys, t);
    EntriesStayLogged(c, t.store - {key}, log, x);
    NewestLogged(c, log, x, key, e);
    assert forall k | k in u.store && k != key :: k in t.store - {key} && u.store[k] == (t.store - {key})[k];
  }

  lemma NewestLogged(c: Config, log: seq<Event>, x: Event, key: string, e: Entry)
    requires x.Stored? && Source(c, x, key, e)
    ensures Logged(c, log + [x], key, e)
  {
    assert (log + [x])[|log|] == x && Latest(log + [x], |log + [x]|, key, |log|);
  }

  lemma StepKeeps(c: Config, w: World, step: Step, u: World)
    requires Inv(c, w) && Next(c, w, step, u)
    ensures Inv(c, u)
  {
    match step
    case Arrive(_, _, _) =>
    case Look(id) => LookKeeps(c, w, id, u);
    case DropStale(id) =>
      var r := w.requests[id];
      if r.key in w.cache.store && w.cache.store[r.key].exp <= r.now {
        DropKeeps(c, w.cache, r.key);
      }
    case Finish(_, status, _, _, _) =>
      if status < 400 {
        FinishKeeps(c, w, step, u);
      }
    case Sweep(now) => SweepKeeps(c, w.cache, now, u.cache);
  }

  /** Accounting and hits, in every interleaving of any number of requests and sweeps. */
  lemma {:induction false} RunsAreSafe(c: Config, steps: seq<Step>, ws: seq<World>, n: nat)
    requires Run(c, steps, ws) && n < |ws|
    ensures Inv(c, ws[n])
  {
    if n > 0 {
      RunsAreSafe(c, steps, ws, n - 1);
      StepKeeps(c, ws[n - 1], steps[n - 1], ws[n]);
    }
  }

  /** With a positive clock and expiration, no hit is as old as its entry's expiry. */
  lemma HitsAreFresh(c: Config, steps: seq<Step>, ws: seq<World>, n: nat, h: nat)
    requires Run(c, steps, ws) && n < |ws| && h < |ws[n].log| && ws[n].log[h].Hit?
    requires c.expiration >= 0 && forall i | 0 <= i < h && ws[n].log[i].Stored? :: ws[n].log[i].start > 0
    ensures exists i :: Latest(ws[n].log, h, ws[n].log[h].key, i) && AnswersInTime(c, ws[n].log[i], ws[n].log[h])
  {
    RunsAreSafe(c, steps, ws, n);
    assert Honest(c, ws[n].log, h);
    var i :| Latest(ws[n].log, h, ws[n].log[h].key, i) && Answers(c, ws[n].log[i], ws[n].log[h]);
    assert AnswersInTime(c, ws[n].log[i], ws[n].log[h]);
  }

  predicate AnswersInTime(c: Config, x: Event, h: Event)
    requires x.Stored? && h.Hit?
  {
    Answers(c, x, h) && h.now < x.start + c.expiration
  }

  // ---- what is answered and what goes, from when it was stored ----

  /** The entry under a key is that of the last request that stored there. */
  lemma {:induction false} EntryIsLatest(c: Config, steps: seq<Step>, ws: seq<World>, n: nat, k: string, i: int)
    requires Run(c, steps, ws) && n < |ws| && k in ws[n].cache.store && Latest(ws[n].log, |ws[n].log|, k, i)
    ensures Source(c, ws[n].log[i], k, ws[n].cache.store[k])
  {
    RunsAreSafe(c, steps, ws, n);
    var w := ws[n];
    assert Logged(c, w.log, k, w.cache.store[k]);
    var m :| Latest(w.log, |w.log|, k, m) && Source(c, w.log[m], k, w.cache.store[k]);
    assert m == i;
  }

  lemma {:induction false} EntryHasLatest(c: Config, steps: seq<Step>, ws: seq<World>, n: nat, k: string) returns (i: int)
    requires Run(c, steps, ws) && n < |ws| && k in ws[n].cache.store
    ensures Latest(ws[n].log, |ws[n].log|, k, i)
  {
    RunsAreSafe(c, steps, ws, n);
    assert Logged(c, ws[n].log, k, ws[n].cache.store[k]);
    i :| Latest(ws[n].log, |ws[n].log|, k, i) && Source(c, ws[n].log[i], k, ws[n].cache.store[k]);
  }

  /**
   A request that looks is answered from the store exactly when there is an entry and the expiration has
   not passed since the start of the request that stored it (a sum of zero is no expiry), and with what
   that request stored; else it goes on to its handler.
   */
  lemma {:induction false} LookIsHitIff(c: Config, steps: seq<Step>, ws: seq<World>, n: nat, id: nat)
    requires Run(c, steps, ws) && n < |steps| && steps[n] == Look(id)
    ensures id in ws[n].requests && ws[n].requests[id].Looking? && id in ws[n + 1].requests
    ensures var w, u, r := ws[n], ws[n + 1], ws[n].requests[id];
      && (u.requests[id] == Answered <==>
          r.key in w.cache.store &&
          exists i :: Latest(w.log, |w.log|, r.key, i) &&
            (r.now < w.log[i].start + c.expiration || w.log[i].start + c.expiration == 0))
      && (u.requests[id] != Answered ==> u.log == w.log && u.requests[id] in {Dropping(r.key, r.now), Handling(r.key, r.now)})
    ensures var w, u, r := ws[n], ws[n + 1], ws[n].requests[id];
      forall i | Latest(w.log, |w.log|, r.key, i) && u.requests[id] == Answered ::
        u.log == w.log + [Hit(r.key, w.log[i].status, w.log[i].contentType, w.log[i].body, r.now)]
  {
    assert Next(c, ws[n], steps[n], ws[n + 1]);
    var w, r := ws[n], ws[n].requests[id];
    if r.key in w.cache.store {
      var m := EntryHasLatest(c, steps, ws, n, r.key);
      forall i | Latest(w.log, |w.log|, r.key, i)
        ensures i == m && Source(c, w.log[i], r.key, w.cache.store[r.key])
      {
        EntryIsLatest(c, steps, ws, n, r.key, i);
      }
    }
  }

  /** A response is stored exactly if its status is below 400, and the entry then holds it. */
  lemma {:induction false} FinishStoresIff(c: Config, steps: seq<Step>, ws: seq<World>, n: nat)
    requires Run(c, steps, ws) && n < |steps| && steps[n].Finish?
    ensures steps[n].id in ws[n].requests && ws[n].requests[steps[n].id].Handling?
    ensures var step := steps[n]; var r, w, u := ws[n].requests[step.id], ws[n], ws[n + 1];
      if step.status < 400 then
        && u.log == w.log + [Stored(r.key, step.status, step.contentType, step.body, r.now)]
        && r.key in u.cache.store
        && var e := u.cache.store[r.key];
        && e.body == step.body && e.contentType == step.contentType && e.status == step.status
        && e.exp == r.now + c.expiration && e.size == |step.body| + |step.contentType| + |r.key|
      else u.log == w.log && u.cache == w.cache
  {
    assert Next(c, ws[n], steps[n], ws[n + 1]);
  }

  /** The ticker removes exactly the entries whose expiry is set and has passed. */
  lemma {:induction false} SweepIff(c: Config, steps: seq<Step>, ws: seq<World>, n: nat, now: int, k: string, i: int)
    requires Run(c, steps, ws) && n < |steps| && steps[n] == Sweep(now)
    requires k in ws[n].cache.store && Latest(ws[n].log, |ws[n].log|, k, i)
    ensures k in ws[n + 1].cache.store <==> !(0 < ws[n].log[i].start + c.expiration < now)
    ensures k in ws[n + 1].cache.store ==> ws[n + 1].cache.store[k] == ws[n].cache.store[k]
  {
    EntryIsLatest(c, steps, ws, n, k, i);
    assert Next(c, ws[n], steps[n], ws[n + 1]);
  }

  /** A request that saw a stale entry removes what is there then, exactly if that has expired by its own start. */
  lemma {:induction false} DropStaleIff(c: Config, steps: seq<Step>, ws: seq<World>, n: nat, id: nat, i: int)
    requires Run(c, steps, ws) && n < |steps| && steps[n] == DropStale(id)
    requires id in ws[n].requests && ws[n].requests[id].Dropping? && ws[n].requests[id].key in ws[n].cache.store
    requires Latest(ws[n].log, |ws[n].log|, ws[n].requests[id].key, i)
    ensures var r := ws[n].requests[id]; r.key in ws[n + 1].cache.store <==> r.now < ws[n].log[i].start + c.expiration
    ensures forall k | k in ws[n].cache.store && k != ws[n].requests[id].key ::
      k in ws[n + 1].cache.store && ws[n + 1].cache.store[k] == ws[n].cache.store[k]
  {
    EntryIsLatest(c, steps, ws, n, ws[n].requests[id].key, i);
    assert Next(c, ws[n], steps[n], ws[n + 1]);
  }

  /** While an entry is left that has expired, only such entries are evicted. */
  lemma {:induction false} EvictedHadExpired(c: Config, size: int, now: int, s: State, keys: seq<string>, t: State,
      b: string)
    requires Evicted(c, size, now, s, keys, t) && b in t.store && Expired(t.store[b], now)
    ensures forall k | k in keys :: k in s.store && Expired(s.store[k], now)
    decreases keys
  {
    EvictedPart(c, size, now, s, keys, t);
    if keys != [] {
      var u := Drop(s, keys[0]);
      EvictedHadExpired(c, size, now, u, keys[1..], t, b);
      assert Evictable(s, now, keys[0]) && Expired(s.store[b], now);
      forall k | k in keys ensures k in s.store && Expired(s.store[k], now) {
        assert k == keys[0] || k in keys[1..];
      }
    }
  }

  /** If a store evicts j and leaves k, whose expiry has passed, then that of j has passed too. */
  lemma {:induction false} ExpiredGoFirst(c: Config, steps: seq<Step>, ws: seq<World>, n: nat, j: string, k: string,
      i: int, m: int)
    requires Run(c, steps, ws) && n < |steps| && steps[n].Finish? && steps[n].status < 400
    requires steps[n].id in ws[n].requests && ws[n].requests[steps[n].id].Handling?
    requires j in steps[n].evicted && Latest(ws[n].log, |ws[n].log|, j, i)
    requires k in ws[n].cache.store && k in ws[n + 1].cache.store && k !in steps[n].evicted
    requires Latest(ws[n].log, |ws[n].log|, k, m) && k != ws[n].requests[steps[n].id].key
    ensures var now := ws[n].requests[steps[n].id].now;
      0 < ws[n].log[m].start + c.expiration < now ==> 0 < ws[n].log[i].start + c.expiration < now
  {
    var w, step := ws[n], steps[n];
    var r := w.requests[step.id];
    assert Next(c, w, step, ws[n + 1]);
    EntryIsLatest(c, steps, ws, n, k, m);
    var e := NewEntry(c, r.key, r.now, step.status, step.contentType, step.body);
    var t :| Evicts(c, e.size, r.now, Discount(w.cache, r.key), step.evicted, t) &&
      ws[n + 1].cache == State(t.store[r.key := e], t.total + e.size);
    EvictedPart(c, e.size, r.now, Discount(w.cache, r.key), step.evicted, t);
    if Expired(t.store[k], r.now) {
      EvictedHadExpired(c, e.size, r.now, Discount(w.cache, r.key), step.evicted, t, k);
      EntryIsLatest(c, steps, ws, n, j, i);
    }
  }

  /** Nothing is evicted without need: before the last eviction a cap was in the way of the new entry. */
  lemma {:induction false} LastEvictionNeeded(c: Config, s: State, key: string, now: int, e: Entry, keys: seq<string>,
      u: State) returns (v: State)
    requires Stores(c, s, key, now, e, keys, u) && keys != []
    ensures Evicted(c, e.size, now, Discount(s, key), keys[..|keys| - 1], v)
    ensures (c.maxEntries > 0 && |v.store| >= c.maxEntries) || (c.maxBytes > 0 && v.total + e.size > c.maxBytes)
  {
    var t :| Evicts(c, e.size, now, Discount(s, key), keys, t) && u == State(t.store[key := e], t.total + e.size);
    v := BeforeLast(c, e.size, now, Discount(s, key), keys, t);
  }

  lemma {:induction false} BeforeLast(c: Config, size: int, now: int, s: State, keys: seq<string>, t: State)
      returns (v: State)
    requires Evicted(c, size, now, s, keys, t) && keys != []
    ensures Evicted(c, size, now, s, keys[..|keys| - 1], v) && Full(c, v, size)
    decreases keys
  {
    if |keys| == 1 {
      v := s;
      assert keys[..0] == [];
    } else {
      v := BeforeLast(c, size, now, Drop(s, keys[0]), keys[1..], t);
      assert keys[..|keys| - 1][1..] == keys[1..][..|keys[1..]| - 1];
    }
  }

  // ---- a run in which the count drifts ----

  const TWO_ENTRIES := Config(2, 0, 10)

  /** A request for key that misses and is about to run its handler. */
  function Missed(w: World, id: nat, key: string): World {
    w.(requests := w.requests[id := Handling(key, 1)])
  }

  function Answering(w: World, id: nat, key: string, s: State, evicted: seq<string>): World {
    World(s, w.requests[id := Answered], w.log + [Stored(key, 200, "", "x", 1)], w.exact && key !in evicted)
  }

  function Kept(key: string): Entry {
    NewEntry(TWO_ENTRIES, key, 1, 200, "", "x")
  }

  lemma {:induction false} Misses(w: World, id: nat, key: string)
    requires id !in w.requests && key !in w.cache.store
    ensures var v := w.(requests := w.requests[id := Looking(key, 1)]);
      Next(TWO_ENTRIES, w, Arrive(id, key, 1), v) && Next(TWO_ENTRIES, v, Look(id), Missed(w, id, key))
  {
    var v := w.(requests := w.requests[id := Looking(key, 1)]);
    assert v.requests[id := Handling(key, 1)] == w.requests[id := Handling(key, 1)];
  }

  lemma {:induction false} Finishes(w: World, id: nat, key: string, s: State, evicted: seq<string>)
    requires id in w.requests && w.requests[id] == Handling(key, 1)
    requires Stores(TWO_ENTRIES, w.cache, key, 1, Kept(key), evicted, s)
    ensures Next(TWO_ENTRIES, w, Finish(id, 200, "", "x", evicted), Answering(w, id, key, s, evicted))
  {
  }

  lemma {:induction false} StoresWithRoom(s: State, key: string)
    requires key !in s.store && |s.store| < 2
    ensures Stores(TWO_ENTRIES, s, key, 1, Kept(key), [], State(s.store[key := Kept(key)], s.total + Kept(key).size))
  {
    assert Evicted(TWO_ENTRIES, Kept(key).size, 1, s, [], s);
  }

  lemma {:induction false} StoresOver(s: State, key: string, u: State)
    requires key in s.store && |s.store| == 2 && s.store[key].exp >= 1 && (forall k | k in s.store :: !Expired(s.store[k], 1))
    requires u == State((s.store - {key})[key := Kept(key)],
      Floor(Floor(s.total - s.store[key].size) - s.store[key].size) + Kept(key).size)
    ensures Stores(TWO_ENTRIES, s, key, 1, Kept(key), [key], u)
  {
    var d := Discount(s, key);
    var t := Drop(d, key);
    assert [key][1..] == [] && Evicted(TWO_ENTRIES, Kept(key).size, 1, t, [], t);
    assert t.store.Keys == s.store.Keys - {key} && |s.store.Keys| == 2 && |t.store| == |t.store.Keys|;
    assert Evicted(TWO_ENTRIES, Kept(key).size, 1, d, [key], t);
  }

  lemma {:induction false} RunOn(c: Config, steps: seq<Step>, ws: seq<World>, step: Step, u: World)
    requires Run(c, steps, ws) && Next(c, ws[|steps|], step, u)
    ensures Run(c, steps + [step], ws + [u])
  {
    var ts, vs := steps + [step], ws + [u];
    forall i | 0 <= i < |ts| ensures Next(c, vs[i], ts[i], vs[i + 1]) {
      if i < |steps| {
        assert Next(c, ws[i], steps[i], ws[i + 1]);
      }
    }
  }

  lemma {:induction false} MissOn(steps: seq<Step>, ws: seq<World>, id: nat,
      key: string) returns (ts: seq<Step>, vs: seq<World>)
    requires Run(TWO_ENTRIES, steps, ws) && id !in ws[|steps|].requests && key !in ws[|steps|].cache.store
    ensures Run(TWO_ENTRIES, ts, vs) && vs[|ts|] == Missed(ws[|steps|], id, key)
  {
    var w := ws[|steps|];
    var v := w.(requests := w.requests[id := Looking(key, 1)]);
    Misses(w, id, key);
    RunOn(TWO_ENTRIES, steps, ws, Arrive(id, key, 1), v);
    RunOn(TWO_ENTRIES, steps + [Arrive(id, key, 1)], ws + [v], Look(id), Missed(w, id, key));
    ts, vs := steps + [Arrive(id, key, 1)] + [Look(id)], ws + [v] + [Missed(w, id, key)];
  }

  lemma {:induction false} FinishOn(steps: seq<Step>, ws: seq<World>, id: nat, key: string, s: State,
      evicted: seq<string>)
    returns (ts: seq<Step>, vs: seq<World>)
    requires Run(TWO_ENTRIES, steps, ws) && id in ws[|steps|].requests && ws[|steps|].requests[id] == Handling(key, 1)
    requires Stores(TWO_ENTRIES, ws[|steps|].cache, key, 1, Kept(key), evicted, s)
    ensures Run(TWO_ENTRIES, ts, vs) && vs[|ts|] == Answering(ws[|steps|], id, key, s, evicted)
  {
    var w := ws[|steps|];
    Finishes(w, id, key, s, evicted);
    var step := Finish(id, 200, "", "x", evicted);
    RunOn(TWO_ENTRIES, steps, ws, step, Answering(w, id, key, s, evicted));
    ts, vs := steps + [step], ws + [Answering(w, id, key, s, evicted)];
  }

  function Holding(a: string, b: string, total: int): State {
    State(map[a := Kept(a), b := Kept(b)], total)
  }

  lemma {:induction false} FirstStores(a: string, b: string)
    requires |a| == |b| == 1 && a != b
    ensures Stores(TWO_ENTRIES, State(map[], 0), a, 1, Kept(a), [], State(map[a := Kept(a)], 2))
    ensures Stores(TWO_ENTRIES, State(map[a := Kept(a)], 2), b, 1, Kept(b), [], Holding(a, b, 4))
  {
    var s := State(map[a := Kept(a)], 2);
    StoresWithRoom(State(map[], 0), a);
    assert State(map[], 0).store[a := Kept(a)] == s.store;
    StoresWithRoom(s, b);
    assert s.store[b := Kept(b)] == Holding(a, b, 4).store;
  }

  lemma {:induction false} LastStore(a: string, b: string)
    requires |a| == |b| == 1 && a != b
    ensures Stores(TWO_ENTRIES, Holding(a, b, 4), a, 1, Kept(a), [a], Holding(a, b, 2))
  {
    var s := Holding(a, b, 4);
    assert s.store.Keys == {a, b} && |s.store| == |s.store.Keys| == 2;
    assert (s.store - {a})[a := Kept(a)] == s.store;
    StoresOver(s, a, Holding(a, b, 2));
  }

  lemma {:induction false} BytesHeld(a: string, b: string)
    requires |a| == |b| == 1 && a != b
    ensures Sum(Holding(a, b, 4).store) == 4
  {
    var m := map[a := Kept(a)];
    SumWith(map[], a, Kept(a));
    SumWith(m, b, Kept(b));
    assert m - {b} == m && m[b := Kept(b)] == Holding(a, b, 4).store;
  }

  /**
   Two requests for one key miss before either has stored; a second key fills the cache in
   between, and the later store of the first evicts the entry it replaces.
   */
  lemma {:induction false} CountCanDriftInARun(a: string, b: string) returns (steps: seq<Step>, ws: seq<World>)
    requires |a| == |b| == 1 && a != b
    ensures Run(TWO_ENTRIES, steps, ws)
    ensures ws[|steps|].cache.total < Sum(ws[|steps|].cache.store)
  {
    FirstStores(a, b);
    LastStore(a, b);
    BytesHeld(a, b);
    steps, ws := [], [INITIAL];
    steps, ws := MissOn(steps, ws, 0, a);
    steps, ws := MissOn(steps, ws, 1, a);
    steps, ws := FinishOn(steps, ws, 0, a, State(map[a := Kept(a)], 2), []);
    steps, ws := MissOn(steps, ws, 2, b);
    steps, ws := FinishOn(steps, ws, 2, b, Holding(a, b, 4), []);
    steps, ws := FinishOn(steps, ws, 1, a, Holding(a, b, 2), [a]);
  }

  // ---- the middleware's own state ----

  class Cache {
    const config: Config
    var store: map<string, Entry>
    var totalBytes: int

    ghost function Now(): State
      reads this
    {
      State(store, totalBytes)
    }

    constructor (config: Config)
      ensures this.config == config && Now() == INITIAL.cache
    {
      this.config := config;
      store := map[];
      totalBytes := 0;
    }

    method Delete(k: string)
      requires k in store
      modifies this
      ensures Now() == Drop(old(Now()), k)
    {
      var size := store[k].size;
      store := store - {k};
      totalBytes := totalBytes - size;
      if totalBytes < 0 {
        totalBytes := 0;
      }
    }

    /** The read section: a live entry, or whether a stale one was seen. */
    method Lookup(key: string, now: int) returns (hit: bool, stale: bool, status: int, contentType: string,
        body: string)
      ensures hit <==> key in store && (store[key].exp == 0 || now < store[key].exp)
      ensures hit ==> status == store[key].status && contentType == store[key].contentType && body == store[key].body
      ensures stale <==> !hit && key in store && store[key].exp > 0
    {
      hit, stale, status, contentType, body := false, false, 0, "", "";
      if key in store {
        var e := store[key];
        if e.exp == 0 || e.exp > now {
          return true, false, e.status, e.contentType, e.body;
        }
        stale := e.exp > 0 && e.exp <= now;
      }
    }

    /** The write section of a request that saw a stale entry. */
    method DeleteStale(key: string, now: int)
      modifies this
      ensures Now() == DroppedIfStale(old(Now()), key, now)
    {
      if key in store && store[key].exp <= now {
        Delete(key);
      }
    }

    method EvictOne(now: int) returns (ok: bool, ghost gone: string)
      modifies this
      ensures ok <==> old(store) != map[]
      ensures ok ==> Evictable(old(Now()), now, gone) && Now() == Drop(old(Now()), gone)
      ensures !ok ==> Now() == old(Now())
    {
      gone := "";
      var rest := store.Keys;
      while rest != {}
        invariant rest <= store.Keys && Now() == old(Now())
        invariant forall j | j in store && j !in rest :: !Expired(store[j], now)
        decreases |rest|
      {
        var k :| k in rest;
        if store[k].exp > 0 && store[k].exp < now {
          gone := k;
          Delete(k);
          return true, gone;
        }
        rest := rest - {k};
      }
      if store.Keys != {} {
        var k :| k in store;
        gone := k;
        Delete(k);
        return true, gone;
      }
      return false, gone;
    }

    /** The eviction loop; keys are those it removes, in order. */
    method MakeRoom(size: int, now: int) returns (ghost keys: seq<string>)
      modifies this
      ensures Evicts(config, size, now, old(Now()), keys, Now())
    {
      keys := [];
      while
        (config.maxEntries > 0 && |store| >= config.maxEntries) || (config.maxBytes > 0 && totalBytes + size > config.maxBytes)
        invariant Evicted(config, size, now, old(Now()), keys, Now())
        decreases |store|
      {
        ghost var t := Now();
        var ok, gone := EvictOne(now);
        if !ok {
          return;
        }
        EvictedSnoc(config, size, now, old(Now()), keys, t, gone);
        keys := keys + [gone];
      }
    }

    /** The write section after the handler. */
    method Store(key: string, now: int, status: int, contentType: string,
        body: string) returns (ghost keys: seq<string>)
      modifies this
      ensures Stores(config, old(Now()), key, now, NewEntry(config, key, now, status, contentType, body), keys, Now())
    {
      ghost var s := Now();
      var e := NewEntry(config, key, now, status, contentType, body);
      if key in store {
        totalBytes := totalBytes - store[key].size;
        if totalBytes < 0 {
          totalBytes := 0;
        }
      }
      assert Now() == Discount(s, key);
      keys := MakeRoom(e.size, now);
      ghost var t := Now();
      store := store[key := e];
      totalBytes := totalBytes + e.size;
      StoresBy(config, s, key, now, e, keys, t, Now());
    }

    /** One round of the background ticker. */
    method SweepExpired(now: int)
      requires Sized(Now()) && totalBytes >= 0
      modifies this
      ensures Sweeps(old(Now()), now, Now())
    {
      var rest := store.Keys;
      ghost var m := store;
      while rest != {}
        invariant rest <= store.Keys <= m.Keys
        invariant forall k | k in store :: store[k] == m[k]
        invariant forall k | k in m && k !in rest :: k !in store <==> Expired(m[k], now)
        invariant totalBytes == Floor(old(totalBytes) - (Sum(m) - Sum(store)))
      {
        var k :| k in rest;
        ghost var s := Now();
        rest := rest - {k};
        if store[k].exp > 0 && store[k].exp < now {
          Delete(k);
          OneLess(m, s, k, old(totalBytes));
        }
      }
      assert store == Unexpired(m, now);
    }
  }

  lemma StoresBy(c: Config, s: State, key: string, now: int, e: Entry, keys: seq<string>, t: State, u: State)
    requires Evicts(c, e.size, now, Discount(s, key), keys, t) && u == State(t.store[key := e], t.total + e.size)
    ensures Stores(c, s, key, now, e, keys, u)
  {
  }

  lemma {:induction false} OneLess(m: map<string, Entry>, s: State, k: string, was: int)
    requires k in s.store && s.store[k].size >= 0
    requires s.total == Floor(was - (Sum(m) - Sum(s.store)))
    ensures Drop(s, k).total == Floor(was - (Sum(m) - Sum(Drop(s, k).store)))
  {
    SumWithout(s.store, k);
  }
}
