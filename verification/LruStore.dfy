/**
 The response cache (ai/cache.py): an LRU store with expiry, and the counters in front of it.

 The `OrderedDict` is a sequence of entries with distinct keys, least recently used first.  The clock
 is read once per call, so each operation carries the time it read.
 */
module LruStore {
  import opened Common

  type Key = string
  type Value = string

  datatype Entry = Entry(key: Key, expiresAt: real, value: Value)

  datatype Op =
    | Get(key: Key, now: real)
    | Set(key: Key, now: real, value: Value, ttl: real)

  predicate HasKey(es: seq<Entry>, key: Key) {
    es != [] && (es[0].key == key || HasKey(es[1..], key))
  }

  predicate Distinct(es: seq<Entry>) {
    es == [] || (!HasKey(es[1..], es[0].key) && Distinct(es[1..]))
  }

  function Find(es: seq<Entry>, key: Key): Option<Entry> {
    if es == [] then None else if es[0].key == key then Some(es[0]) else Find(es[1..], key)
  }

  function Without(es: seq<Entry>, key: Key): seq<Entry> {
    if es == [] then [] else if es[0].key == key then Without(es[1..], key) else [es[0]] + Without(es[1..], key)
  }

  /** Drop entries from the old end until the capacity is respected. */
  function Evicted(es: seq<Entry>, capacity: nat): seq<Entry> {
    if |es| > capacity then es[|es| - capacity..] else es
  }

  function Apply(es: seq<Entry>, capacity: nat, op: Op): seq<Entry> {
    match op
    case Get(key, now) =>
      (match Find(es, key)
       case None => es
       case Some(e) => if now >= e.expiresAt then Without(es, key) else Without(es, key) + [e])
    case Set(key, now, value, ttl) => Evicted(Without(es, key) + [Entry(key, now + ttl, value)], capacity)
  }

  function Answer(es: seq<Entry>, op: Op): Option<Value> {
    match op
    case Set(_, _, _, _) => None
    case Get(key, now) =>
      match Find(es, key)
      case None => None
      case Some(e) => if now >= e.expiresAt then None else Some(e.value)
  }

  /** The entries after a trace of operations, and what each of them answered. */
  function Exec(es: seq<Entry>, capacity: nat, ops: seq<Op>): seq<Entry>
    decreases |ops|
  {
    if ops == [] then es else Exec(Apply(es, capacity, ops[0]), capacity, ops[1..])
  }

  function Answers(es: seq<Entry>, capacity: nat, ops: seq<Op>): (r: seq<Option<Value>>)
    ensures |r| == |ops|
    decreases |ops|
  {
    if ops == [] then [] else [Answer(es, ops[0])] + Answers(Apply(es, capacity, ops[0]), capacity, ops[1..])
  }

  predicate Fits(es: seq<Entry>, capacity: nat) {
    Distinct(es) && |es| <= capacity
  }

  // ---------------------------------------------------------------- the store, updated in place

  class MemoryStore {
    var entries: seq<Entry>
    const maxEntries: nat

    ghost predicate Valid()
      reads this
    {
      Fits(entries, maxEntries)
    }

    constructor (maxEntries: nat)
      ensures Valid() && entries == [] && this.maxEntries == maxEntries
    {
      this.entries := [];
      this.maxEntries := maxEntries;
    }

    method Get(key: Key, now: real) returns (r: Option<Value>)
      requires Valid()
      modifies this
      ensures Valid()
      ensures entries == Apply(old(entries), maxEntries, Op.Get(key, now))
      ensures r == Answer(old(entries), Op.Get(key, now))
    {
      FitsKept(entries, maxEntries, Op.Get(key, now));
      match Find(entries, key)
      case None =>
        r := None;
      case Some(e) =>
        entries := Without(entries, key);
        r := None;
        if now < e.expiresAt {
          entries := entries + [e];
          r := Some(e.value);
        }
    }

    method Set(key: Key, value: Value, ttl: real, now: real)
      requires Valid()
      modifies this
      ensures Valid() && entries == Apply(old(entries), maxEntries, Op.Set(key, now, value, ttl))
    {
      FitsKept(entries, maxEntries, Op.Set(key, now, value, ttl));
      entries := Without(entries, key) + [Entry(key, now + ttl, value)];
      ghost var all := entries;
      while |entries| > maxEntries
        invariant Evicted(entries, maxEntries) == Evicted(all, maxEntries)
      {
        entries := entries[1..];
      }
    }
  }

  /** Counts hits and misses in front of a store. */
  class ResponseCache {
    const store: MemoryStore
    const ttl: real
    var hits: nat
    var misses: nat

    constructor (store: MemoryStore, ttl: real)
      ensures this.store == store && this.ttl == ttl && hits == 0 && misses == 0
    {
      this.store, this.ttl, this.hits, this.misses := store, ttl, 0, 0;
    }

    method Get(key: Key, now: real) returns (r: Option<Value>)
      requires store.Valid()
      modifies this, store
      ensures store.Valid() && store.entries == Apply(old(store.entries), store.maxEntries, Op.Get(key, now))
      ensures r == Answer(old(store.entries), Op.Get(key, now))
      ensures hits == old(hits) + (if r.Some? then 1 else 0) && misses == old(misses) + (if r.None? then 1 else 0)
    {
      r := store.Get(key, now);
      if r.None? { misses := misses + 1; } else { hits := hits + 1; }
    }

    method Set(key: Key, value: Value, now: real)
      requires store.Valid()
      modifies store
      ensures store.Valid()
      ensures store.entries == Apply(old(store.entries), store.maxEntries, Op.Set(key, now, value, ttl))
    {
      store.Set(key, value, ttl, now);
    }
  }

  // ---------------------------------------------------------------- basic facts

  lemma {:induction false} WithoutKey(es: seq<Entry>, key: Key, k: Key)
    ensures HasKey(Without(es, key), k) <==> HasKey(es, k) && k != key
    ensures k != key ==> Find(Without(es, key), k) == Find(es, k)
    ensures Find(es, k).Some? <==> HasKey(es, k)
    ensures Find(es, k).Some? ==> Find(es, k).value.key == k
    ensures !HasKey(es, key) ==> Without(es, key) == es
  {
    if es != [] {
      WithoutKey(es[1..], key, k);
      if es[0].key != key {
        assert Without(es, key)[1..] == Without(es[1..], key);
      }
    }
  }

  lemma {:induction false} WithoutFits(es: seq<Entry>, key: Key)
    requires Distinct(es)
    ensures Distinct(Without(es, key))
    ensures |Without(es, key)| == |es| - (if HasKey(es, key) then 1 else 0)
  {
    if es != [] {
      WithoutFits(es[1..], key);
      WithoutKey(es[1..], key, es[0].key);
      if es[0].key != key {
        assert Without(es, key)[1..] == Without(es[1..], key);
      }
    }
  }

  lemma {:induction false} AppendKey(es: seq<Entry>, e: Entry, k: Key)
    ensures HasKey(es + [e], k) <==> HasKey(es, k) || e.key == k
    ensures Find(es + [e], k) == if HasKey(es, k) then Find(es, k) else if e.key == k then Some(e) else None
  {
    if es != [] {
      AppendKey(es[1..], e, k);
      assert (es + [e])[1..] == es[1..] + [e];
    }
  }

  lemma {:induction false} AppendDistinct(es: seq<Entry>, e: Entry)
    requires Distinct(es) && !HasKey(es, e.key)
    ensures Distinct(es + [e])
  {
    if es != [] {
      AppendDistinct(es[1..], e);
      AppendKey(es[1..], e, es[0].key);
      assert (es + [e])[1..] == es[1..] + [e];
    }
  }

  /** Moving an entry to the young end, as both a hit and a `set` do. */
  lemma TouchedFits(es: seq<Entry>, e: Entry)
    requires Distinct(es)
    ensures Distinct(Without(es, e.key) + [e])
    ensures |Without(es, e.key) + [e]| == |es| + (if HasKey(es, e.key) then 0 else 1)
  {
    WithoutFits(es, e.key);
    WithoutKey(es, e.key, e.key);
    AppendDistinct(Without(es, e.key), e);
  }

  lemma FitsKept(es: seq<Entry>, capacity: nat, op: Op)
    requires Fits(es, capacity)
    ensures Fits(Apply(es, capacity, op), capacity)
  {
    WithoutFits(es, op.key);
    WithoutKey(es, op.key, op.key);
    match op
    case Get(key, now) => if HasKey(es, key) { TouchedFits(es, Find(es, key).value); }
    case Set(key, now, value, ttl) => TouchedFits(es, Entry(key, now + ttl, value));
  }

  // ---------------------------------------------------------------- a small store inside a large one

  /** `a` is `b` with some entries left out. */
  predicate Sub(a: seq<Entry>, b: seq<Entry>) {
    a == [] || (b != [] && if a[0] == b[0] then Sub(a[1..], b[1..]) else Sub(a, b[1..]))
  }

  lemma {:induction false} SubTail(a: seq<Entry>, b: seq<Entry>)
    requires Sub(a, b) && a != []
    ensures Sub(a[1..], b)
    decreases |b|
  {
    if a[0] == b[0] {
      if a[1..] != [] {
        if a[1] == b[0] { SubTail(a[1..], b[1..]); }
      }
    } else {
      SubTail(a, b[1..]);
      if a[1..] != [] && a[1] == b[0] { SubTail(a[1..], b[1..]); }
    }
  }

  lemma SubCons(a: seq<Entry>, b: seq<Entry>, y: Entry)
    requires Sub(a, b)
    ensures Sub(a, [y] + b)
  {
    assert ([y] + b)[1..] == b;
    if a != [] && a[0] == y { SubTail(a, b); }
  }

  lemma {:induction false} SubAppend(a: seq<Entry>, b: seq<Entry>, e: Entry)
    requires Sub(a, b)
    ensures Sub(a, b + [e]) && Sub(a + [e], b + [e])
    decreases |b|
  {
    if b == [] {
      assert a + [e] == [e] && b + [e] == [e];
    } else {
      assert (b + [e])[1..] == b[1..] + [e];
      if a == [] {
        SubAppend(a, b[1..], e);
        assert a + [e] == [e] && [b[0]] + (b[1..] + [e]) == b + [e];
        SubCons([e], b[1..] + [e], b[0]);
      } else if a[0] == b[0] {
        SubAppend(a[1..], b[1..], e);
        assert (a + [e])[1..] == a[1..] + [e];
      } else {
        SubAppend(a, b[1..], e);
      }
    }
  }

  lemma {:induction false} SubWithout(a: seq<Entry>, b: seq<Entry>, key: Key)
    requires Sub(a, b)
    ensures Sub(Without(a, key), Without(b, key))
    decreases |b|
  {
    if a != [] {
      if a[0] == b[0] {
        SubWithout(a[1..], b[1..], key);
        if a[0].key != key {
          assert Without(a, key)[1..] == Without(a[1..], key);
          assert Without(b, key)[1..] == Without(b[1..], key);
        }
      } else {
        SubWithout(a, b[1..], key);
        if b[0].key != key { SubCons(Without(a, key), Without(b[1..], key), b[0]); }
      }
    }
  }

  lemma {:induction false} SubFind(a: seq<Entry>, b: seq<Entry>, key: Key)
    requires Sub(a, b) && Distinct(b)
    ensures HasKey(a, key) ==> HasKey(b, key) && Find(a, key) == Find(b, key)
    decreases |b|
  {
    if a != [] {
      if a[0] == b[0] {
        SubFind(a[1..], b[1..], key);
      } else {
        SubFind(a, b[1..], key);
      }
    }
  }

  /** The small store holds a subsequence of the large one's entries and has no more room left. */
  predicate Nested(small: seq<Entry>, c: nat, large: seq<Entry>, C: nat) {
    Fits(small, c) && Fits(large, C) && Sub(small, large) && c - |small| <= C - |large|
  }

  lemma NestedAfterEviction(s: seq<Entry>, c: nat, l: seq<Entry>, C: nat)
    requires Fits(s, c + 1) && Fits(l, C + 1) && Sub(s, l) && c - |s| <= C - |l|
    ensures Nested(Evicted(s, c), c, Evicted(l, C), C)
  {
    if |s| > c {
      assert Evicted(s, c) == s[1..];
      SubTail(s, l);
      if |l| > C {
        assert Evicted(l, C) == l[1..];
        if s[0] != l[0] { SubTail(s, l[1..]); }
      }
    }
  }

  lemma NestedAfterTouch(small: seq<Entry>, c: nat, large: seq<Entry>, C: nat, e: Entry)
    requires Nested(small, c, large, C)
    ensures Nested(Evicted(Without(small, e.key) + [e], c), c, Evicted(Without(large, e.key) + [e], C), C)
  {
    TouchedFits(small, e);
    TouchedFits(large, e);
    SubFind(small, large, e.key);
    SubWithout(small, large, e.key);
    SubAppend(Without(small, e.key), Without(large, e.key), e);
    NestedAfterEviction(Without(small, e.key) + [e], c, Without(large, e.key) + [e], C);
  }

  lemma NestedAfterExpiry(small: seq<Entry>, c: nat, large: seq<Entry>, C: nat, key: Key)
    requires Nested(small, c, large, C) && HasKey(large, key)
    ensures Nested(Without(small, key), c, Without(large, key), C)
  {
    WithoutFits(small, key);
    WithoutFits(large, key);
    SubWithout(small, large, key);
  }

  /** A hit in the large store only: the small one does not move. */
  lemma NestedAfterLargeHit(small: seq<Entry>, c: nat, large: seq<Entry>, C: nat, e: Entry)
    requires Nested(small, c, large, C) && HasKey(large, e.key) && !HasKey(small, e.key)
    ensures Nested(small, c, Without(large, e.key) + [e], C)
  {
    TouchedFits(large, e);
    WithoutKey(small, e.key, e.key);
    SubWithout(small, large, e.key);
    SubAppend(small, Without(large, e.key), e);
  }

  lemma NestedGet(small: seq<Entry>, c: nat, large: seq<Entry>, C: nat, op: Op)
    requires Nested(small, c, large, C) && op.Get?
    ensures Nested(Apply(small, c, op), c, Apply(large, C, op), C)
    ensures Answer(small, op).Some? ==> Answer(large, op) == Answer(small, op)
  {
    var key := op.key;
    SubFind(small, large, key);
    WithoutKey(small, key, key);
    WithoutKey(large, key, key);
    if HasKey(large, key) {
      var e := Find(large, key).value;
      if op.now >= e.expiresAt {
        NestedAfterExpiry(small, c, large, C, key);
      } else if HasKey(small, key) {
        TouchedFits(small, e);
        TouchedFits(large, e);
        NestedAfterTouch(small, c, large, C, e);
      } else {
        NestedAfterLargeHit(small, c, large, C, e);
      }
    }
  }

  lemma NestedStep(small: seq<Entry>, c: nat, large: seq<Entry>, C: nat, op: Op)
    requires Nested(small, c, large, C)
    ensures Nested(Apply(small, c, op), c, Apply(large, C, op), C)
    ensures Answer(small, op).Some? ==> Answer(large, op) == Answer(small, op)
  {
    match op
    case Get(_, _) => NestedGet(small, c, large, C, op);
    case Set(key, now, value, ttl) => NestedAfterTouch(small, c, large, C, Entry(key, now + ttl, value));
  }

  function Hits(answers: seq<Option<Value>>): nat {
    if answers == [] then 0 else (if answers[0].Some? then 1 else 0) + Hits(answers[1..])
  }

  /** Run on the same trace, the small store stays a subsequence of the large one, every hit in the small
      store is the same hit in the large one, and so the large one never hits less often. */
  lemma {:induction false} LargerStoreHitsMore(small: seq<Entry>, c: nat, large: seq<Entry>, C: nat, ops: seq<Op>)
    requires Nested(small, c, large, C)
    ensures Nested(Exec(small, c, ops), c, Exec(large, C, ops), C)
    ensures forall i :: 0 <= i < |ops| ==>
              Answers(small, c, ops)[i].Some? ==> Answers(large, C, ops)[i] == Answers(small, c, ops)[i]
    ensures Hits(Answers(small, c, ops)) <= Hits(Answers(large, C, ops))
    decreases |ops|
  {
    if ops != [] {
      NestedStep(small, c, large, C, ops[0]);
      LargerStoreHitsMore(Apply(small, c, ops[0]), c, Apply(large, C, ops[0]), C, ops[1..]);
      assert Answers(small, c, ops)[1..] == Answers(Apply(small, c, ops[0]), c, ops[1..]);
      assert Answers(large, C, ops)[1..] == Answers(Apply(large, C, ops[0]), C, ops[1..]);
    }
  }

  /** Both stores start empty, whatever their capacities. */
  lemma EmptyStoresAreNested(c: nat, C: nat)
    requires c <= C
    ensures Nested([], c, [], C)
  {
  }

  /** So of two caches that start empty and see the same trace, the larger one misses nothing the smaller one hits. */
  lemma LargerCacheHitsMore(c: nat, C: nat, ops: seq<Op>)
    requires c <= C
    ensures forall i :: 0 <= i < |ops| ==>
              Answers([], c, ops)[i].Some? ==> Answers([], C, ops)[i] == Answers([], c, ops)[i]
    ensures Hits(Answers([], c, ops)) <= Hits(Answers([], C, ops))
  {
    EmptyStoresAreNested(c, C);
    LargerStoreHitsMore([], c, [], C, ops);
  }

  // ---------------------------------------------------------------- what a hit returns

  predicate Holds(es: seq<Entry>, key: Key, value: Value) {
    Find(es, key).Some? ==> Find(es, key).value.value == value
  }

  lemma {:induction false} SuffixHolds(es: seq<Entry>, n: nat, key: Key, value: Value)
    requires n <= |es| && Distinct(es) && Holds(es, key, value)
    ensures Holds(es[n..], key, value) && Distinct(es[n..])
  {
    if n > 0 {
      assert es[n..] == es[1..][n - 1..];
      WithoutKey(es[1..], key, key);
      SuffixHolds(es[1..], n - 1, key, value);
    } else {
      assert es[0..] == es;
    }
  }

  lemma TouchHolds(es: seq<Entry>, e: Entry, key: Key, value: Value)
    requires Distinct(es) && Holds(es, key, value) && (e.key == key ==> e.value == value)
    ensures Holds(Without(es, e.key) + [e], key, value) && Distinct(Without(es, e.key) + [e])
  {
    WithoutKey(es, e.key, key);
    TouchedFits(es, e);
    AppendKey(Without(es, e.key), e, key);
    WithoutKey(Without(es, e.key), e.key, key);
  }

  lemma GetHolds(es: seq<Entry>, capacity: nat, op: Op, key: Key, value: Value)
    requires Distinct(es) && Holds(es, key, value) && op.Get?
    ensures Holds(Apply(es, capacity, op), key, value) && Distinct(Apply(es, capacity, op))
  {
    WithoutFits(es, op.key);
    WithoutKey(es, op.key, key);
    WithoutKey(es, op.key, op.key);
    WithoutKey(Without(es, op.key), op.key, key);
    if Find(es, op.key).Some? { TouchHolds(es, Find(es, op.key).value, key, value); }
  }

  /** No operation but a set of the key itself changes what is stored under it. */
  lemma StepHolds(es: seq<Entry>, capacity: nat, op: Op, key: Key, value: Value)
    requires Distinct(es) && Holds(es, key, value) && (op.Set? ==> op.key != key || op.value == value)
    ensures Holds(Apply(es, capacity, op), key, value) && Distinct(Apply(es, capacity, op))
  {
    match op
    case Get(_, _) => GetHolds(es, capacity, op, key, value);
    case Set(k, now, v, ttl) =>
      var e := Entry(k, now + ttl, v);
      TouchHolds(es, e, key, value);
      var all := Without(es, k) + [e];
      SuffixHolds(all, if |all| > capacity then |all| - capacity else 0, key, value);
      assert all[0..] == all;
  }

  /** A hit returns the value of the last set of its key, whatever happened to other keys since. */
  lemma {:induction false} HitsAreLatest(es: seq<Entry>, capacity: nat, key: Key, value: Value, ops: seq<Op>, get: Op)
    requires Distinct(es) && Holds(es, key, value) && get.Get? && get.key == key
    requires forall i :: 0 <= i < |ops| && ops[i].Set? ==> ops[i].key != key
    ensures Answer(Exec(es, capacity, ops), get).Some? ==> Answer(Exec(es, capacity, ops), get).value == value
    decreases |ops|
  {
    if ops != [] {
      StepHolds(es, capacity, ops[0], key, value);
      HitsAreLatest(Apply(es, capacity, ops[0]), capacity, key, value, ops[1..], get);
    }
  }

  // ---------------------------------------------------------------- what a miss of a live entry means

  /** The entries younger than the one under `key`. */
  function Younger(es: seq<Entry>, key: Key): seq<Entry> {
    if es == [] then [] else if es[0].key == key then es[1..] else Younger(es[1..], key)
  }

  function KeysOf(es: seq<Entry>): set<Key> {
    if es == [] then {} else {es[0].key} + KeysOf(es[1..])
  }

  lemma {:induction false} KeysOfFacts(es: seq<Entry>, k: Key)
    ensures k in KeysOf(es) <==> HasKey(es, k)
    ensures Distinct(es) ==> |KeysOf(es)| == |es|
  {
    if es != [] {
      KeysOfFacts(es[1..], k);
      KeysOfFacts(es[1..], es[0].key);
    }
  }

  lemma {:induction false} YoungerFacts(es: seq<Entry>, key: Key, other: Key, e: Entry)
    requires HasKey(es, key) && Distinct(es) && other != key
    ensures Younger(Without(es, other), key) == Without(Younger(es, key), other)
    ensures Younger(es + [e], key) == Younger(es, key) + [e]
    ensures Distinct(Younger(es, key)) && !HasKey(Younger(es, key), key)
  {
    if es[0].key == key {
      assert (es + [e])[1..] == es[1..] + [e];
      assert Without(es, other)[1..] == Without(es[1..], other);
    } else {
      YoungerFacts(es[1..], key, other, e);
      assert (es + [e])[1..] == es[1..] + [e];
      if es[0].key != other { assert Without(es, other)[1..] == Without(es[1..], other); }
    }
  }

  lemma {:induction false} KeysAfterMove(es: seq<Entry>, key: Key, e: Entry)
    ensures KeysOf(Without(es, key)) <= KeysOf(es)
    ensures KeysOf(es + [e]) == KeysOf(es) + {e.key}
  {
    if es == [] {
      assert es + [e] == [e] && [e][1..] == [];
    } else {
      KeysAfterMove(es[1..], key, e);
      assert (es + [e])[1..] == es[1..] + [e];
      if es[0].key != key { assert Without(es, key)[1..] == Without(es[1..], key); }
    }
  }

  /** The keys other than `key` that the trace sets or hits. */
  function Touched(es: seq<Entry>, capacity: nat, ops: seq<Op>, key: Key): set<Key>
    decreases |ops|
  {
    if ops == [] then {}
    else
      (if ops[0].key != key && (ops[0].Set? || Answer(es, ops[0]).Some?) then {ops[0].key} else {})
      + Touched(Apply(es, capacity, ops[0]), capacity, ops[1..], key)
  }

  /** Either the entry is there, unexpired, behind touched keys only, or a full store of others was touched. */
  predicate Accounted(es: seq<Entry>, capacity: nat, key: Key, expiry: real, touched: set<Key>) {
    match Find(es, key)
    case Some(e) => e.expiresAt == expiry && KeysOf(Younger(es, key)) <= touched
    case None => |touched| >= capacity
  }

  /** Before eviction: the entry stays, and only the touched key can become younger than it. */
  lemma AccountedBeforeEviction(es: seq<Entry>, capacity: nat, key: Key, expiry: real, touched: set<Key>, e: Entry)
    requires Fits(es, capacity) && Accounted(es, capacity, key, expiry, touched) && e.key != key && HasKey(es, key)
    ensures var all := Without(es, e.key) + [e];
            HasKey(all, key) && Distinct(all) && Accounted(all, capacity, key, expiry, touched + {e.key})
  {
    var moved := Without(es, e.key);
    TouchedFits(es, e);
    WithoutFits(es, e.key);
    WithoutKey(es, e.key, key);
    AppendKey(moved, e, key);
    YoungerFacts(es, key, e.key, e);
    YoungerFacts(moved, key, e.key, e);
    KeysAfterMove(Younger(es, key), e.key, e);
    KeysAfterMove(Younger(moved, key), e.key, e);
  }

  lemma AccountedAfterEviction(all: seq<Entry>, capacity: nat, key: Key, expiry: real, touched: set<Key>)
    requires Distinct(all) && HasKey(all, key) && |all| <= capacity + 1
    requires Accounted(all, capacity, key, expiry, touched)
    ensures Accounted(Evicted(all, capacity), capacity, key, expiry, touched)
  {
    if |all| > capacity {
      assert Evicted(all, capacity) == all[1..];
      WithoutKey(all[1..], key, key);
      if all[0].key == key {
        KeysOfFacts(all[1..], key);
        SubsetSize(KeysOf(all[1..]), touched);
      }
    }
  }

  lemma AccountedAfterTouch(es: seq<Entry>, capacity: nat, key: Key, expiry: real, touched: set<Key>, e: Entry)
    requires Fits(es, capacity) && Accounted(es, capacity, key, expiry, touched) && e.key != key && HasKey(es, key)
    ensures Accounted(Evicted(Without(es, e.key) + [e], capacity), capacity, key, expiry, touched + {e.key})
  {
    TouchedFits(es, e);
    AccountedBeforeEviction(es, capacity, key, expiry, touched, e);
    AccountedAfterEviction(Without(es, e.key) + [e], capacity, key, expiry, touched + {e.key});
  }

  lemma SubsetSize(a: set<Key>, b: set<Key>)
    requires a <= b
    ensures |a| <= |b|
  {
    assert b == a + (b - a);
  }

  /** Other keys are touched, or nothing happens to the entries around the one under `key`. */
  lemma AccountedStep(es: seq<Entry>, capacity: nat, key: Key, expiry: real, touched: set<Key>, op: Op)
    requires Fits(es, capacity) && Accounted(es, capacity, key, expiry, touched)
    requires op.now < expiry && (op.key == key ==> op.Get? && Answer(es, op).None?)
    ensures var now := if op.key != key && (op.Set? || Answer(es, op).Some?) then touched + {op.key} else touched;
            Accounted(Apply(es, capacity, op), capacity, key, expiry, now)
  {
    WithoutKey(es, op.key, key);
    WithoutKey(es, op.key, op.key);
    if HasKey(es, key) {
      if op.Set? {
        AccountedAfterTouch(es, capacity, key, expiry, touched, Entry(op.key, op.now + op.ttl, op.value));
      } else if HasKey(es, op.key) {
        var e := Find(es, op.key).value;
        if op.now < e.expiresAt {
          TouchedFits(es, e);
          AccountedAfterTouch(es, capacity, key, expiry, touched, e);
        } else {
          YoungerFacts(es, key, op.key, e);
          KeysAfterMove(Younger(es, key), op.key, e);
        }
      }
    } else {
      SubsetSize(touched, touched + {op.key});
      if op.key != key {
        var e := if op.Set? then Entry(op.key, op.now + op.ttl, op.value)
                 else if HasKey(es, op.key) then Find(es, op.key).value else Entry(op.key, 0.0, "");
        AppendKey(Without(es, op.key), e, key);
        var all := Without(es, op.key) + [e];
        TouchedFits(es, e);
        if |all| > capacity { assert Evicted(all, capacity) == all[1..]; }
      }
    }
  }

  lemma {:induction false} AccountedRun(es: seq<Entry>, capacity: nat, key: Key, expiry: real, touched: set<Key>,
                                        ops: seq<Op>)
    requires Fits(es, capacity) && Accounted(es, capacity, key, expiry, touched)
    requires forall i :: 0 <= i < |ops| ==> ops[i].now < expiry
    requires forall i :: 0 <= i < |ops| && ops[i].key == key ==> ops[i].Get? && Answers(es, capacity, ops)[i].None?
    ensures Fits(Exec(es, capacity, ops), capacity)
    ensures Accounted(Exec(es, capacity, ops), capacity, key, expiry, touched + Touched(es, capacity, ops, key))
    decreases |ops|
  {
    if ops == [] {
      assert touched + {} == touched;
    } else {
      assert Answers(es, capacity, ops)[0] == Answer(es, ops[0]);
      AccountedStep(es, capacity, key, expiry, touched, ops[0]);
      FitsKept(es, capacity, ops[0]);
      var es', now := Apply(es, capacity, ops[0]),
        if ops[0].key != key && (ops[0].Set? || Answer(es, ops[0]).Some?) then touched + {ops[0].key} else touched;
      assert Answers(es, capacity, ops)[1..] == Answers(es', capacity, ops[1..]);
      AccountedRun(es', capacity, key, expiry, now, ops[1..]);
      assert touched + Touched(es, capacity, ops, key) == now + Touched(es', capacity, ops[1..], key);
    }
  }

  /** The entry a touch - a `set`, or a `get` that hits - leaves under its key. */
  function TouchedEntry(es: seq<Entry>, touch: Op): Entry
    requires touch.Set? || Find(es, touch.key).Some?
  {
    if touch.Set? then Entry(touch.key, touch.now + touch.ttl, touch.value) else Find(es, touch.key).value
  }

  /** After its key is touched, and while the entry is unexpired, `get` misses it only if at least a whole store
      of other keys was set or hit since.  The clock does not go back. */
  lemma {:induction false} MissMeansFullTurnover(es: seq<Entry>, capacity: nat, touch: Op, ops: seq<Op>, get: Op)
    requires Fits(es, capacity) && (touch.Set? || Answer(es, touch).Some?)
    requires get.Get? && get.key == touch.key && get.now < TouchedEntry(es, touch).expiresAt
    requires forall i :: 0 <= i < |ops| ==> ops[i].now <= get.now
    requires var es0 := Apply(es, capacity, touch);
             forall i :: 0 <= i < |ops| && ops[i].key == get.key ==> ops[i].Get? && Answers(es0, capacity, ops)[i].None?
    ensures var es0 := Apply(es, capacity, touch);
            Answer(Exec(es0, capacity, ops), get).None? ==> |Touched(es0, capacity, ops, get.key)| >= capacity
  {
    var es0, e := Apply(es, capacity, touch), TouchedEntry(es, touch);
    WithoutKey(es, touch.key, touch.key);
    TouchedFits(es, e);
    FitsKept(es, capacity, touch);
    StartsAccounted(es, capacity, e);
    assert es0 == Evicted(Without(es, e.key) + [e], capacity);
    AccountedRun(es0, capacity, get.key, e.expiresAt, {}, ops);
    assert {} + Touched(es0, capacity, ops, get.key) == Touched(es0, capacity, ops, get.key);
    WithoutKey(Exec(es0, capacity, ops), get.key, get.key);
  }

  lemma {:induction false} StartsAccounted(es: seq<Entry>, capacity: nat, e: Entry)
    requires Fits(es, capacity)
    ensures Accounted(Evicted(Without(es, e.key) + [e], capacity), capacity, e.key, e.expiresAt, {})
  {
    var rest := Without(es, e.key);
    TouchedFits(es, e);
    WithoutKey(es, e.key, e.key);
    AppendedLast(rest, e);
    if |rest + [e]| > capacity {
      assert Evicted(rest + [e], capacity) == (rest + [e])[1..];
      if rest != [] {
        assert (rest + [e])[1..] == rest[1..] + [e];
        AppendedLast(rest[1..], e);
      }
    }
  }

  lemma {:induction false} AppendedLast(es: seq<Entry>, e: Entry)
    requires !HasKey(es, e.key)
    ensures HasKey(es + [e], e.key) && Find(es + [e], e.key) == Some(e) && Younger(es + [e], e.key) == []
  {
    if es == [] {
      assert es + [e] == [e];
    } else {
      AppendedLast(es[1..], e);
      assert (es + [e])[1..] == es[1..] + [e];
    }
  }
}
