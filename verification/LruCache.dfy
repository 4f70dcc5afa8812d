/** The SDK's response cache: insertion order is recency, and a bigger cache never misses what a smaller one hits. */
module LruCache {
  import opened Subsequences

  /** `staleUntil` is a clock reading, plus nothing when stale serving is off. */
  datatype CacheEntry<T> = CacheEntry(value: T, expiresAt: int, staleUntil: int)
  datatype Slot<K, T> = Slot(key: K, entry: CacheEntry<T>)
  datatype Hit<T> = Miss | Hit(value: T, stale: bool)

  /** One call with the clock reading it sees. */
  datatype Op<K, T> =
    | Get(key: K, now: int)
    | Set(key: K, value: T, ttlMs: int, staleWhileRevalidate: bool, now: int)
    | Invalidate(key: K)
    | Clear

  // ----- what a call does to the ordered entries -----

  predicate Has<K(==), T>(slots: seq<Slot<K, T>>, key: K) {
    exists i :: 0 <= i < |slots| && slots[i].key == key
  }

  function Find<K(==), T>(slots: seq<Slot<K, T>>, key: K): CacheEntry<T>
    requires Has(slots, key)
  {
    if slots[0].key == key then slots[0].entry
    else
      assert Has(slots[1..], key) by {
        var i :| 0 <= i < |slots| && slots[i].key == key;
        assert slots[1..][i - 1].key == key;
      }
      Find(slots[1..], key)
  }

  /** `Map.delete`. */
  function Without<K(==), T>(slots: seq<Slot<K, T>>, key: K): seq<Slot<K, T>> {
    if |slots| == 0 then []
    else if slots[0].key == key then Without(slots[1..], key)
    else [slots[0]] + Without(slots[1..], key)
  }

  predicate Dead<T>(e: CacheEntry<T>, now: int) {
    e.expiresAt <= now && e.staleUntil <= now
  }

  function NewEntry<T>(value: T, ttlMs: int, staleWhileRevalidate: bool, now: int): CacheEntry<T> {
    CacheEntry(value, now + ttlMs, now + if staleWhileRevalidate then ttlMs * 2 else 0)
  }

  function Evict<K, T>(slots: seq<Slot<K, T>>, maxEntries: int): seq<Slot<K, T>> {
    if |slots| >= maxEntries && |slots| > 0 then slots[1..] else slots
  }

  function Step<K(==), T>(slots: seq<Slot<K, T>>, maxEntries: int, op: Op<K, T>): (seq<Slot<K, T>>, Hit<T>) {
    match op
    case Get(key, now) =>
      if !Has(slots, key) then (slots, Miss)
      else
        var e := Find(slots, key);
        if Dead(e, now) then (Without(slots, key), Miss)
        else (Without(slots, key) + [Slot(key, e)], Hit(e.value, e.expiresAt <= now))
    case Set(key, value, ttlMs, swr, now) =>
      (Evict(Without(slots, key), maxEntries) + [Slot(key, NewEntry(value, ttlMs, swr, now))], Miss)
    case Invalidate(key) => (Without(slots, key), Miss)
    case Clear => ([], Miss)
  }

  class SimpleCache<K(==), T> {
    /** The JavaScript `Map`, in insertion order. */
    var entries: seq<Slot<K, T>>
    const maxEntries: int

    constructor (maxEntries: int)
      ensures entries == [] && this.maxEntries == maxEntries
    {
      this.maxEntries := maxEntries;
      entries := [];
    }

    method Delete(key: K)
      modifies this
      ensures entries == Without(old(entries), key)
    {
      var kept := [];
      var i := |entries|;
      while i > 0
        invariant 0 <= i <= |entries|
        invariant kept == Without(entries[i..], key)
        invariant entries == old(entries)
      {
        i := i - 1;
        assert entries[i..][1..] == entries[i + 1..];
        if entries[i].key != key {
          kept := [entries[i]] + kept;
        }
      }
      entries := kept;
    }

    method Get(key: K, now: int) returns (r: Hit<T>)
      modifies this
      ensures (entries, r) == Step(old(entries), maxEntries, Op.Get(key, now))
    {
      if !Has(entries, key) {
        return Miss;
      }
      var entry := Find(entries, key);
      if entry.expiresAt <= now && entry.staleUntil <= now {
        Delete(key);
        return Miss;
      }
      Delete(key);
      entries := entries + [Slot(key, entry)];
      return Hit(entry.value, entry.expiresAt <= now);
    }

    method Set(key: K, value: T, ttlMs: int, staleWhileRevalidate: bool, now: int)
      modifies this
      ensures entries == Step(old(entries), maxEntries, Op.Set(key, value, ttlMs, staleWhileRevalidate, now)).0
    {
      Delete(key);
      if |entries| >= maxEntries {
        if |entries| > 0 {
          entries := entries[1..];
        }
      }
      entries := entries + [Slot(key, CacheEntry(value, now + ttlMs, now + if staleWhileRevalidate then ttlMs * 2 else 0))];
    }

    method Invalidate(key: K)
      modifies this
      ensures entries == Step(old(entries), maxEntries, Op.Invalidate(key)).0
    {
      Delete(key);
    }

    method Clear()
      modifies this
      ensures entries == Step(old(entries), maxEntries, Op<K, T>.Clear).0
    {
      entries := [];
    }
  }

  // ----- runs -----

  function Run<K(==), T>(maxEntries: int, ops: seq<Op<K, T>>): seq<Slot<K, T>> {
    if |ops| == 0 then [] else Step(Run(maxEntries, ops[..|ops| - 1]), maxEntries, ops[|ops| - 1]).0
  }

  /** The reply to the last call of a history. */
  function LastReply<K(==), T>(maxEntries: int, ops: seq<Op<K, T>>): Hit<T>
    requires |ops| > 0
  {
    Step(Run(maxEntries, ops[..|ops| - 1]), maxEntries, ops[|ops| - 1]).1
  }

  /** The arguments of a `set` and the time it was made. */
  datatype Written<T> = Written(value: T, ttlMs: int, staleWhileRevalidate: bool, at: int)

  function EntryOf<T>(w: Written<T>): CacheEntry<T> {
    NewEntry(w.value, w.ttlMs, w.staleWhileRevalidate, w.at)
  }

  /** The reference: what was last set for each key and not invalidated since, with no capacity and no clock. */
  function LastSet<K(==), T>(ops: seq<Op<K, T>>): map<K, Written<T>> {
    if |ops| == 0 then map[]
    else
      var m := LastSet(ops[..|ops| - 1]);
      match ops[|ops| - 1]
      case Get(_, _) => m
      case Set(key, value, ttlMs, swr, now) => m[key := Written(value, ttlMs, swr, now)]
      case Invalidate(key) => m - {key}
      case Clear => map[]
  }

  ghost predicate Unique<K, T>(slots: seq<Slot<K, T>>) {
    forall i, j :: 0 <= i < j < |slots| ==> slots[i].key != slots[j].key
  }

  /** A cache of capacity 0 or less still keeps the entry it was last given. */
  function Capacity(maxEntries: int): nat {
    if maxEntries < 1 then 1 else maxEntries
  }

  // ----- agreement with the reference -----

  lemma {:induction false} WithoutExact<K, T>(slots: seq<Slot<K, T>>, key: K)
    requires Unique(slots)
    ensures Unique(Without(slots, key)) && !Has(Without(slots, key), key)
    ensures forall s :: s in Without(slots, key) ==> s in slots && s.key != key
    ensures forall s :: s in slots && s.key != key ==> s in Without(slots, key)
    ensures |Without(slots, key)| == |slots| - (if Has(slots, key) then 1 else 0)
  {
    hide Has;
    HasNone<K, T>(key);
    if |slots| > 0 {
      var rest := slots[1..];
      WithoutExact(rest, key);
      assert slots == [slots[0]] + rest;
      var kept := Without(rest, key);
      assert Without(slots, key) == if slots[0].key == key then kept else [slots[0]] + kept;
      HasTail(slots, key);
      if slots[0].key == key {
        UniqueHead(slots);
      } else {
        assert forall s :: s in Without(slots, key) <==> s == slots[0] || s in kept;
        HasTail(Without(slots, key), key);
        UniqueCons(slots[0], rest, kept);
      }
    }
  }

  lemma HasNone<K, T>(key: K)
    ensures !Has<K, T>([], key)
  {
  }

  /** The first key does not occur again. */
  lemma UniqueHead<K, T>(slots: seq<Slot<K, T>>)
    requires |slots| > 0 && Unique(slots)
    ensures forall s :: s in slots[1..] ==> s.key != slots[0].key
    ensures !Has(slots[1..], slots[0].key)
  {
    forall s | s in slots[1..]
      ensures s.key != slots[0].key
    {
      var i :| 0 <= i < |slots[1..]| && slots[1..][i] == s;
      assert slots[i + 1] == s;
    }
  }

  lemma UniqueCons<K, T>(first: Slot<K, T>, rest: seq<Slot<K, T>>, kept: seq<Slot<K, T>>)
    requires Unique([first] + rest) && Unique(kept) && forall s :: s in kept ==> s in rest
    ensures Unique([first] + kept)
  {
    UniqueHead([first] + rest);
    assert ([first] + rest)[1..] == rest;
    assert forall i :: 0 <= i < |kept| ==> kept[i] in kept;
  }

  lemma HasTail<K, T>(slots: seq<Slot<K, T>>, key: K)
    requires |slots| > 0
    ensures Has(slots, key) <==> slots[0].key == key || Has(slots[1..], key)
  {
    if Has(slots[1..], key) {
      var i :| 0 <= i < |slots[1..]| && slots[1..][i].key == key;
      assert slots[i + 1].key == key;
    }
    if Has(slots, key) && slots[0].key != key {
      var i :| 0 <= i < |slots| && slots[i].key == key;
      assert slots[1..][i - 1].key == key;
    }
  }

  lemma {:induction false} FindExact<K, T>(slots: seq<Slot<K, T>>, key: K)
    requires Has(slots, key)
    ensures Slot(key, Find(slots, key)) in slots
  {
    HasTail(slots, key);
    if slots[0].key != key {
      FindExact(slots[1..], key);
    }
  }

  lemma SetExact<K, T>(slots: seq<Slot<K, T>>, maxEntries: int, key: K, e: CacheEntry<T>)
    requires Unique(slots) && |slots| <= Capacity(maxEntries)
    ensures var after := Evict(Without(slots, key), maxEntries) + [Slot(key, e)];
            && Unique(after) && |after| <= Capacity(maxEntries)
            && forall s :: s in after ==> s == Slot(key, e) || (s in slots && s.key != key)
  {
    WithoutExact(slots, key);
    var kept := Evict(Without(slots, key), maxEntries);
    assert forall i :: 0 <= i < |kept| ==> kept[i] in Without(slots, key);
  }

  lemma GetExact<K, T>(slots: seq<Slot<K, T>>, maxEntries: int, key: K, now: int)
    requires Unique(slots) && Has(slots, key)
    ensures var after := Step(slots, maxEntries, Get(key, now)).0;
            && Unique(after) && |after| <= |slots|
            && forall s :: s in after ==> s in slots
  {
    WithoutExact(slots, key);
    FindExact(slots, key);
    var kept := Without(slots, key);
    forall i | 0 <= i < |kept|
      ensures kept[i].key != key
    {
      assert kept[i] in kept;
    }
  }

  /** In any history the cache stays within capacity and holds, for each key it holds, the entry last set for it. */
  lemma {:induction false} HoldsOnlyLastSet<K, T>(maxEntries: int, ops: seq<Op<K, T>>)
    ensures Unique(Run(maxEntries, ops)) && |Run(maxEntries, ops)| <= Capacity(maxEntries)
    ensures forall s :: s in Run(maxEntries, ops) ==> s.key in LastSet(ops) && EntryOf(LastSet(ops)[s.key]) == s.entry
  {
    if |ops| > 0 {
      var before := ops[..|ops| - 1];
      var slots := Run(maxEntries, before);
      HoldsOnlyLastSet(maxEntries, before);
      match ops[|ops| - 1]
      case Get(key, now) =>
        if Has(slots, key) {
          GetExact(slots, maxEntries, key, now);
        }
      case Set(key, value, ttlMs, swr, now) => SetExact(slots, maxEntries, key, NewEntry(value, ttlMs, swr, now));
      case Invalidate(key) => WithoutExact(slots, key);
      case Clear =>
    }
  }

  /**
   * A hit is the value last set for the key. Unless the clock ran backwards it is inside its time to live, or, when
   * marked stale, inside twice that and set with stale serving on.
   */
  lemma HitIsLastSet<K, T>(maxEntries: int, ops: seq<Op<K, T>>, key: K, now: int)
    requires LastReply(maxEntries, ops + [Get(key, now)]).Hit?
    ensures key in LastSet(ops)
    ensures var w, r := LastSet(ops)[key], LastReply(maxEntries, ops + [Get(key, now)]);
            && r.value == w.value
            && (r.stale <==> w.at + w.ttlMs <= now)
            && (r.stale && w.at <= now ==> w.staleWhileRevalidate && now < w.at + 2 * w.ttlMs)
  {
    assert (ops + [Get(key, now)])[..|ops|] == ops;
    HoldsOnlyLastSet(maxEntries, ops);
    FindExact(Run(maxEntries, ops), key);
  }

  /** The last `set` of a key is inside its time to live, or inside twice that and made with stale serving on. */
  predicate Servable<T>(w: Written<T>, now: int) {
    now < w.at + w.ttlMs || (w.staleWhileRevalidate && now < w.at + 2 * w.ttlMs)
  }

  /** A `get` of a held key hits exactly while its last `set` can be served, and says which of the two it is. */
  lemma GetHitsIff<K, T>(maxEntries: int, ops: seq<Op<K, T>>, key: K, now: int)
    requires Has(Run(maxEntries, ops), key)
    ensures key in LastSet(ops)
    ensures var w, r := LastSet(ops)[key], LastReply(maxEntries, ops + [Get(key, now)]);
            w.at <= now ==> r == if Servable(w, now) then Hit(w.value, now >= w.at + w.ttlMs) else Miss
  {
    assert (ops + [Get(key, now)])[..|ops|] == ops;
    HoldsOnlyLastSet(maxEntries, ops);
    FindExact(Run(maxEntries, ops), key);
  }

  /** A key that is not held misses; a held key that cannot be served is dropped by the `get`. */
  lemma GetMissDrops<K, T>(maxEntries: int, ops: seq<Op<K, T>>, key: K, now: int)
    requires LastReply(maxEntries, ops + [Get(key, now)]).Miss?
    ensures !Has(Run(maxEntries, ops + [Get(key, now)]), key)
  {
    assert (ops + [Get(key, now)])[..|ops|] == ops;
    HoldsOnlyLastSet(maxEntries, ops);
    WithoutExact(Run(maxEntries, ops), key);
  }

  // ----- inclusion -----

  lemma {:induction false} SubWithout<K, T>(small: seq<Slot<K, T>>, large: seq<Slot<K, T>>, key: K)
    requires SubSequence(small, large)
    ensures SubSequence(Without(small, key), Without(large, key))
  {
    if |small| > 0 {
      if small[0] == large[0] {
        SubWithout(small[1..], large[1..], key);
        if large[0].key != key {
          assert ([small[0]] + Without(small[1..], key))[1..] == Without(small[1..], key);
          assert ([large[0]] + Without(large[1..], key))[1..] == Without(large[1..], key);
        }
      } else {
        SubWithout(small, large[1..], key);
        if large[0].key != key {
          assert ([large[0]] + Without(large[1..], key))[1..] == Without(large[1..], key);
          SubDrop(Without(small, key), [large[0]] + Without(large[1..], key));
        }
      }
    }
  }

  /** The smaller cache's content is a subsequence of the larger one's, behind it by no more than the gap in capacity. */
  ghost predicate Included<K, T>(small: seq<Slot<K, T>>, n: int, large: seq<Slot<K, T>>, m: int) {
    && Unique(small) && Unique(large)
    && |small| <= Capacity(n) && |large| <= Capacity(m)
    && SubSequence(small, large)
    && |large| - |small| <= Capacity(m) - Capacity(n)
  }

  lemma SubHas<K, T>(small: seq<Slot<K, T>>, large: seq<Slot<K, T>>, key: K)
    requires SubSequence(small, large) && Unique(large) && Has(small, key)
    ensures Has(large, key) && Find(small, key) == Find(large, key)
  {
    SubWithin(small, large);
    FindExact(small, key);
    var i :| 0 <= i < |large| && large[i] == Slot(key, Find(small, key));
    assert Has(large, key);
    FindExact(large, key);
  }

  lemma SetKeepsInclusion<K, T>(small: seq<Slot<K, T>>, n: int, large: seq<Slot<K, T>>, m: int, key: K, e: CacheEntry<T>)
    requires n <= m && Included(small, n, large, m)
    ensures Included(Evict(Without(small, key), n) + [Slot(key, e)], n, Evict(Without(large, key), m) + [Slot(key, e)], m)
  {
    SetExact(small, n, key, e);
    SetExact(large, m, key, e);
    WithoutExact(small, key);
    WithoutExact(large, key);
    SubWithout(small, large, key);
    if Has(small, key) {
      SubHas(small, large, key);
    }
    var a, b := Without(small, key), Without(large, key);
    SubWithin(a, b);
    if |a| > 0 {
      SubTail(a, b);
    }
    if |b| > 0 {
      if |a| >= n && |a| > 0 && |b| < m {
        SubDrop(a[1..], b);
      }
      if |a| < n && |b| >= m {
        FullWhenBehind(a, b);
      }
    }
    SubSnoc(Evict(a, n), Evict(b, m), Slot(key, e));
  }

  lemma StepKeepsInclusion<K, T>(small: seq<Slot<K, T>>, n: int, large: seq<Slot<K, T>>, m: int, op: Op<K, T>)
    requires n <= m && Included(small, n, large, m)
    ensures Included(Step(small, n, op).0, n, Step(large, m, op).0, m)
    ensures Step(small, n, op).1.Hit? ==> Step(large, m, op).1 == Step(small, n, op).1
  {
    match op
    case Set(key, value, ttlMs, swr, now) => SetKeepsInclusion(small, n, large, m, key, NewEntry(value, ttlMs, swr, now));
    case Invalidate(key) => DropKeepsInclusion(small, n, large, m, key);
    case Clear =>
    case Get(key, now) => GetKeepsInclusion(small, n, large, m, key, now);
  }

  lemma GetKeepsInclusion<K, T>(small: seq<Slot<K, T>>, n: int, large: seq<Slot<K, T>>, m: int, key: K, now: int)
    requires n <= m && Included(small, n, large, m)
    ensures Included(Step(small, n, Get(key, now)).0, n, Step(large, m, Get(key, now)).0, m)
    ensures Step(small, n, Get(key, now)).1.Hit? ==> Step(large, m, Get(key, now)).1 == Step(small, n, Get(key, now)).1
  {
    hide Unique, SubSequence, Has, Without, Find;
    DropKeepsInclusion(small, n, large, m, key);
    WithoutExact(small, key);
    WithoutExact(large, key);
    if Has(small, key) {
      SubHas(small, large, key);
      AppendUnique(Without(small, key), key, Find(small, key));
      AppendUnique(Without(large, key), key, Find(large, key));
      SubSnoc(Without(small, key), Without(large, key), Slot(key, Find(small, key)));
    } else if Has(large, key) {
      WithoutAbsent(small, key);
      AppendUnique(Without(large, key), key, Find(large, key));
      AddKeepsSub(small, Without(large, key), Slot(key, Find(large, key)));
    }
  }

  lemma AppendUnique<K, T>(slots: seq<Slot<K, T>>, key: K, e: CacheEntry<T>)
    requires Unique(slots) && !Has(slots, key)
    ensures Unique(slots + [Slot(key, e)])
  {
  }

  lemma DropKeepsInclusion<K, T>(small: seq<Slot<K, T>>, n: int, large: seq<Slot<K, T>>, m: int, key: K)
    requires Included(small, n, large, m)
    ensures Included(Without(small, key), n, Without(large, key), m)
  {
    WithoutExact(small, key);
    WithoutExact(large, key);
    SubWithout(small, large, key);
    if Has(small, key) {
      SubHas(small, large, key);
    }
  }

  lemma {:induction false} WithoutAbsent<K, T>(slots: seq<Slot<K, T>>, key: K)
    requires !Has(slots, key)
    ensures Without(slots, key) == slots
  {
    if |slots| > 0 {
      HasTail(slots, key);
      WithoutAbsent(slots[1..], key);
    }
  }

  /**
   * Run one history with two capacities: the smaller cache's order is a subsequence of the larger one's, and every hit
   * in the smaller one is the same hit in the larger one.
   */
  lemma {:induction false} BiggerCacheIncludesSmaller<K, T>(n: int, m: int, ops: seq<Op<K, T>>)
    requires n <= m
    ensures Included(Run(n, ops), n, Run(m, ops), m)
    ensures |ops| > 0 && LastReply(n, ops).Hit? ==> LastReply(m, ops) == LastReply(n, ops)
  {
    if |ops| > 0 {
      BiggerCacheIncludesSmaller(n, m, ops[..|ops| - 1]);
      StepKeepsInclusion(Run(n, ops[..|ops| - 1]), n, Run(m, ops[..|ops| - 1]), m, ops[|ops| - 1]);
    }
  }
}
