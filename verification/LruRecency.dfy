/** What "least recently used" means: how long a key that was just set or hit stays in the cache. */
module LruRecency {
  import opened FiniteSets
  import opened LruCache

  ghost function KeysOf<K, T>(slots: seq<Slot<K, T>>): set<K> {
    set s | s in slots :: s.key
  }

  /** The keys that a history sets or looks up. */
  function Touched<K(==), T>(ops: seq<Op<K, T>>): set<K> {
    if |ops| == 0 then {}
    else
      var front, last := Touched(ops[..|ops| - 1]), ops[|ops| - 1];
      if last.Get? || last.Set? then front + {last.key} else front
  }

  /** A call about another key. */
  predicate Spares<K(==), T>(op: Op<K, T>, key: K) {
    !op.Clear? && op.key != key
  }

  /** The key is held, and the keys used since are at least `low` and at most `high`. */
  ghost predicate Kept<K, T>(slots: seq<Slot<K, T>>, slot: Slot<K, T>, low: set<K>, high: set<K>) {
    exists i :: 0 <= i < |slots| && slots[i] == slot && low <= KeysOf(slots[i + 1..]) <= high
  }

  lemma Split<K, T>(slots: seq<Slot<K, T>>, slot: Slot<K, T>, low: set<K>, high: set<K>)
    returns (pre: seq<Slot<K, T>>, post: seq<Slot<K, T>>)
    requires Kept(slots, slot, low, high)
    ensures slots == pre + [slot] + post && low <= KeysOf(post) <= high
  {
    var i :| 0 <= i < |slots| && slots[i] == slot && low <= KeysOf(slots[i + 1..]) <= high;
    pre, post := slots[..i], slots[i + 1..];
  }

  lemma Joined<K, T>(pre: seq<Slot<K, T>>, slot: Slot<K, T>, post: seq<Slot<K, T>>, low: set<K>, high: set<K>)
    requires low <= KeysOf(post) <= high
    ensures Kept(pre + [slot] + post, slot, low, high)
  {
    var slots := pre + [slot] + post;
    assert slots[|pre|] == slot && slots[|pre| + 1..] == post;
  }

  lemma {:induction false} WithoutConcat<K, T>(a: seq<Slot<K, T>>, b: seq<Slot<K, T>>, key: K)
    ensures Without(a + b, key) == Without(a, key) + Without(b, key)
  {
    if |a| == 0 {
      assert a + b == b;
    } else {
      assert (a + b)[1..] == a[1..] + b;
      WithoutConcat(a[1..], b, key);
    }
  }

  lemma {:induction false} WithoutKeys<K, T>(slots: seq<Slot<K, T>>, key: K)
    ensures KeysOf(Without(slots, key)) == KeysOf(slots) - {key}
  {
    if |slots| > 0 {
      WithoutKeys(slots[1..], key);
      assert slots == [slots[0]] + slots[1..];
      KeysConcat([slots[0]], slots[1..]);
      KeysConcat([slots[0]], Without(slots[1..], key));
      assert KeysOf([slots[0]]) == {slots[0].key};
    }
  }

  lemma KeysConcat<K, T>(a: seq<Slot<K, T>>, b: seq<Slot<K, T>>)
    ensures KeysOf(a + b) == KeysOf(a) + KeysOf(b)
  {
  }

  lemma WithoutOther<K, T>(slot: Slot<K, T>, key: K)
    requires key != slot.key
    ensures Without([slot], key) == [slot]
  {
    assert Without([slot], key) == [slot] + Without([], key);
  }

  lemma WithoutKeeps<K, T>(slots: seq<Slot<K, T>>, slot: Slot<K, T>, low: set<K>, high: set<K>, key: K)
    requires Kept(slots, slot, low, high) && key != slot.key
    ensures Kept(Without(slots, key), slot, low - {key}, high - {key})
  {
    var pre, post := Split(slots, slot, low, high);
    hide Without, KeysOf, Kept;
    WithoutConcat(pre + [slot], post, key);
    WithoutConcat(pre, [slot], key);
    WithoutOther(slot, key);
    WithoutKeys(post, key);
    Joined(Without(pre, key), slot, Without(post, key), low - {key}, high - {key});
  }

  lemma AppendKeeps<K, T>(slots: seq<Slot<K, T>>, slot: Slot<K, T>, low: set<K>, high: set<K>, s: Slot<K, T>)
    requires Kept(slots, slot, low, high)
    ensures Kept(slots + [s], slot, low + {s.key}, high + {s.key})
  {
    var pre, post := Split(slots, slot, low, high);
    KeysConcat(post, [s]);
    assert KeysOf([s]) == {s.key};
    assert slots + [s] == pre + [slot] + (post + [s]);
    Joined(pre, slot, post + [s], low + {s.key}, high + {s.key});
  }

  /** As many slots as keys. */
  lemma {:induction false} KeysCount<K, T>(slots: seq<Slot<K, T>>)
    requires Unique(slots)
    ensures |KeysOf(slots)| == |slots|
  {
    if |slots| > 0 {
      var first, rest := slots[0], slots[1..];
      KeysCount(rest);
      UniqueHead(slots);
      assert first.key !in KeysOf(rest);
      assert slots == [first] + rest;
      KeysConcat([first], rest);
      assert KeysOf([first]) == {first.key};
      hide KeysOf;
    }
  }

  lemma KeptSize<K, T>(pre: seq<Slot<K, T>>, slot: Slot<K, T>, post: seq<Slot<K, T>>, low: set<K>, high: set<K>)
    requires Unique(pre + [slot] + post) && low <= KeysOf(post) <= high
    ensures |low| <= |post| <= |high|
  {
    var all := pre + [slot] + post;
    assert all[|pre| + 1..] == post;
    KeysCount(post);
    SubsetSize(low, KeysOf(post));
    SubsetSize(KeysOf(post), high);
  }

  /** Eviction drops the key only when it is the first, which takes as many keys used since as there is room for. */
  lemma EvictKeeps<K, T>(slots: seq<Slot<K, T>>, maxEntries: int, slot: Slot<K, T>, low: set<K>, high: set<K>)
    requires Kept(slots, slot, low, high) && Unique(slots)
    ensures |high| + 1 < Capacity(maxEntries) ==> Kept(Evict(slots, maxEntries), slot, low, high)
    ensures Kept(Evict(slots, maxEntries), slot, low, high) || !Has(Evict(slots, maxEntries), slot.key)
  {
    var pre, post := Split(slots, slot, low, high);
    KeptSize(pre, slot, post, low, high);
    hide Kept, KeysOf, Unique, Has;
    if |pre| > 0 {
      assert slots[1..] == pre[1..] + [slot] + post;
      Joined(pre[1..], slot, post, low, high);
    } else {
      assert slots[0] == slot;
      UniqueHead(slots);
    }
  }

  lemma StepKeeps<K, T>(slots: seq<Slot<K, T>>, maxEntries: int, op: Op<K, T>, slot: Slot<K, T>, used: set<K>)
    requires Kept(slots, slot, {}, used) && Unique(slots) && Spares(op, slot.key)
    requires op.Set? ==> |used + {op.key}| < Capacity(maxEntries)
    ensures Kept(Step(slots, maxEntries, op).0, slot, {}, if op.Get? || op.Set? then used + {op.key} else used)
  {
    hide Kept, Unique, Without;
    var rest := Without(slots, op.key);
    WithoutKeeps(slots, slot, {}, used, op.key);
    Loosen(rest, slot, {} - {op.key}, used - {op.key}, {}, used);
    Loosen(slots, slot, {}, used, {}, used + {op.key});
    Loosen(rest, slot, {}, used, {}, used + {op.key});
    match op
    case Get(key, now) =>
      if Has(slots, key) {
        var moved := Slot(key, Find(slots, key));
        AppendKeeps(rest, slot, {}, used, moved);
        Loosen(rest + [moved], slot, {} + {key}, used + {key}, {}, used + {key});
      }
    case Set(key, value, ttlMs, swr, now) =>
      var made := Slot(key, NewEntry(value, ttlMs, swr, now));
      WithoutExact(slots, key);
      assert used + {key} == (used - {key}) + {key};
      EvictKeeps(rest, maxEntries, slot, {} - {key}, used - {key});
      AppendKeeps(Evict(rest, maxEntries), slot, {} - {key}, used - {key}, made);
      Loosen(Evict(rest, maxEntries) + [made], slot, ({} - {key}) + {key}, (used - {key}) + {key}, {}, used + {key});
    case Invalidate(_) =>
  }

  lemma Loosen<K, T>(slots: seq<Slot<K, T>>, slot: Slot<K, T>, low: set<K>, high: set<K>, lower: set<K>, higher: set<K>)
    requires Kept(slots, slot, low, high) && lower <= low && high <= higher
    ensures Kept(slots, slot, lower, higher)
  {
  }

  lemma KeptIsHeld<K, T>(slots: seq<Slot<K, T>>, slot: Slot<K, T>, low: set<K>, high: set<K>)
    requires Kept(slots, slot, low, high)
    ensures slot in slots && Has(slots, slot.key)
  {
    var i :| 0 <= i < |slots| && slots[i] == slot && low <= KeysOf(slots[i + 1..]) <= high;
  }

  /** A `set`, and a `get` that hits, make their key the most recent one. */
  lemma TouchMovesToTheEnd<K, T>(maxEntries: int, ops: seq<Op<K, T>>)
    requires |ops| > 0
    requires var op := ops[|ops| - 1]; op.Set? || (op.Get? && LastReply(maxEntries, ops).Hit?)
    ensures var slots := Run(maxEntries, ops);
            |slots| > 0 && slots[|slots| - 1].key == ops[|ops| - 1].key && slots[|slots| - 1] in slots
  {
    hide Without, Find, Has;
  }

  lemma StartsKept<K, T>(slots: seq<Slot<K, T>>, slot: Slot<K, T>)
    requires |slots| > 0 && slots[|slots| - 1] == slot
    ensures Kept(slots, slot, {}, {})
  {
    var pre, post: seq<Slot<K, T>> := slots[..|slots| - 1], [];
    assert slots == pre + [slot] + post;
    Joined(pre, slot, post, {}, {});
  }

  lemma TouchedGrows<K, T>(ops: seq<Op<K, T>>)
    requires |ops| > 0
    ensures |Touched(ops[..|ops| - 1])| <= |Touched(ops)|
  {
    SubsetSize(Touched(ops[..|ops| - 1]), Touched(ops));
  }

  /** A key just used stays, with its entry, while fewer than `Capacity` other keys are set or looked up. */
  lemma {:induction false} RecentlyUsedIsKept<K, T>(maxEntries: int, ops: seq<Op<K, T>>, more: seq<Op<K, T>>, slot: Slot<K, T>)
    requires var slots := Run(maxEntries, ops); |slots| > 0 && slots[|slots| - 1] == slot
    requires forall i :: 0 <= i < |more| ==> Spares(more[i], slot.key)
    requires |Touched(more)| < Capacity(maxEntries)
    ensures Kept(Run(maxEntries, ops + more), slot, {}, Touched(more))
    ensures slot in Run(maxEntries, ops + more)
  {
    hide Kept, Unique, Step;
    if |more| == 0 {
      assert ops + more == ops;
      StartsKept(Run(maxEntries, ops), slot);
    } else {
      var front := more[..|more| - 1];
      assert (ops + more)[..|ops + more| - 1] == ops + front;
      TouchedGrows(more);
      RecentlyUsedIsKept(maxEntries, ops, front, slot);
      HoldsOnlyLastSet(maxEntries, ops + front);
      StepKeeps(Run(maxEntries, ops + front), maxEntries, more[|more| - 1], slot, Touched(front));
    }
    KeptIsHeld(Run(maxEntries, ops + more), slot, {}, Touched(more));
  }

  lemma SetKeeps<K, T>(slots: seq<Slot<K, T>>, maxEntries: int, op: Op<K, T>, slot: Slot<K, T>, used: set<K>)
    requires op.Set? && op.key != slot.key && Unique(slots) && (Has(slots, slot.key) ==> Kept(slots, slot, used, used))
    ensures var after := Step(slots, maxEntries, op).0;
            Has(after, slot.key) ==> Kept(after, slot, used + {op.key}, used + {op.key})
  {
    hide Kept, Unique, Without, Has;
    var rest := Without(slots, op.key);
    var made := Slot(op.key, NewEntry(op.value, op.ttlMs, op.staleWhileRevalidate, op.now));
    WithoutExact(slots, op.key);
    HasSnoc(Evict(rest, maxEntries), made, slot.key);
    if Has(slots, slot.key) {
      WithoutKeeps(slots, slot, used, used, op.key);
      EvictKeeps(rest, maxEntries, slot, used - {op.key}, used - {op.key});
      if Kept(Evict(rest, maxEntries), slot, used - {op.key}, used - {op.key}) {
        AppendKeeps(Evict(rest, maxEntries), slot, used - {op.key}, used - {op.key}, made);
        assert (used - {op.key}) + {op.key} == used + {op.key};
      }
    } else if Has(Evict(rest, maxEntries), slot.key) {
      HasInside(slots, Evict(rest, maxEntries), slot.key);
    }
  }

  lemma HasSnoc<K, T>(slots: seq<Slot<K, T>>, s: Slot<K, T>, key: K)
    ensures Has(slots + [s], key) <==> Has(slots, key) || s.key == key
  {
    if Has(slots, key) {
      var i :| 0 <= i < |slots| && slots[i].key == key;
      assert (slots + [s])[i].key == key;
    }
    assert (slots + [s])[|slots|] == s;
  }

  lemma HasInside<K, T>(slots: seq<Slot<K, T>>, part: seq<Slot<K, T>>, key: K)
    requires (forall s :: s in part ==> s in slots) && Has(part, key)
    ensures Has(slots, key)
  {
    var i :| 0 <= i < |part| && part[i].key == key;
    assert part[i] in part;
    var j :| 0 <= j < |slots| && slots[j] == part[i];
  }

  lemma {:induction false} SetsPushOut<K, T>(maxEntries: int, ops: seq<Op<K, T>>, more: seq<Op<K, T>>, slot: Slot<K, T>)
    requires var slots := Run(maxEntries, ops); |slots| > 0 && slots[|slots| - 1] == slot
    requires forall i :: 0 <= i < |more| ==> more[i].Set? && more[i].key != slot.key
    ensures var slots := Run(maxEntries, ops + more);
            Has(slots, slot.key) ==> Kept(slots, slot, Touched(more), Touched(more))
  {
    hide Kept, Unique, Step, Has;
    if |more| == 0 {
      assert ops + more == ops;
      StartsKept(Run(maxEntries, ops), slot);
    } else {
      var front := more[..|more| - 1];
      assert (ops + more)[..|ops + more| - 1] == ops + front;
      SetsPushOut(maxEntries, ops, front, slot);
      HoldsOnlyLastSet(maxEntries, ops + front);
      SetKeeps(Run(maxEntries, ops + front), maxEntries, more[|more| - 1], slot, Touched(front));
    }
  }

  /** While other keys are set, a key just used is still held exactly when fewer than `Capacity` of them were different. */
  lemma LeastRecentlyUsedGoesIff<K, T>(maxEntries: int, ops: seq<Op<K, T>>, more: seq<Op<K, T>>, slot: Slot<K, T>)
    requires var slots := Run(maxEntries, ops); |slots| > 0 && slots[|slots| - 1] == slot
    requires forall i :: 0 <= i < |more| ==> more[i].Set? && more[i].key != slot.key
    ensures Has(Run(maxEntries, ops + more), slot.key) <==> |Touched(more)| < Capacity(maxEntries)
  {
    var slots := Run(maxEntries, ops + more);
    HoldsOnlyLastSet(maxEntries, ops + more);
    SetsPushOut(maxEntries, ops, more, slot);
    if Has(slots, slot.key) {
      var pre, post := Split(slots, slot, Touched(more), Touched(more));
      KeptSize(pre, slot, post, Touched(more), Touched(more));
    }
    if |Touched(more)| < Capacity(maxEntries) {
      RecentlyUsedIsKept(maxEntries, ops, more, slot);
      KeptIsHeld(slots, slot, {}, Touched(more));
    }
  }

  lemma {:induction false} LastSetStays<K, T>(ops: seq<Op<K, T>>, more: seq<Op<K, T>>, key: K)
    requires key in LastSet(ops) && forall i :: 0 <= i < |more| ==> Spares(more[i], key)
    ensures key in LastSet(ops + more) && LastSet(ops + more)[key] == LastSet(ops)[key]
  {
    if |more| == 0 {
      assert ops + more == ops;
    } else {
      assert (ops + more)[..|ops + more| - 1] == ops + more[..|more| - 1];
      LastSetStays(ops, more[..|more| - 1], key);
    }
  }

  /**
   * The guarantee a caller has: after a `set`, and any calls about fewer than `Capacity` other keys, a `get` answers with the
   * value while it can be served, fresh or stale, and misses from then on.
   */
  lemma SetIsServed<K, T>(maxEntries: int, ops: seq<Op<K, T>>, more: seq<Op<K, T>>, key: K, w: Written<T>, now: int)
    requires forall i :: 0 <= i < |more| ==> Spares(more[i], key)
    requires |Touched(more)| < Capacity(maxEntries) && w.at <= now
    ensures var made := Set(key, w.value, w.ttlMs, w.staleWhileRevalidate, w.at);
            LastReply(maxEntries, ops + [made] + more + [Get(key, now)])
            == if Servable(w, now) then Hit(w.value, now >= w.at + w.ttlMs) else Miss
  {
    var after := ops + [Set(key, w.value, w.ttlMs, w.staleWhileRevalidate, w.at)];
    var slots := Run(maxEntries, after);
    assert after[..|after| - 1] == ops;
    TouchMovesToTheEnd(maxEntries, after);
    var slot := slots[|slots| - 1];
    hide Run, LastReply, Has, Touched, Servable;
    RecentlyUsedIsKept(maxEntries, after, more, slot);
    KeptIsHeld(Run(maxEntries, after + more), slot, {}, Touched(more));
    LastSetStays(after, more, key);
    GetHitsIff(maxEntries, after + more, key, now);
  }
}
