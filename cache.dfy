/**
 * `CacheService`: an in-memory map from string keys to values stamped with an expiry time.
 * Expiry is lazy: an entry stays in the map until `get` finds it expired or `set` overwrites
 * it. `now` is `Date.now()` at the moment of the call.
 */
module Cache {
  import opened Common

  /** `Data<T>`: the stored value and the time after which it is stale. */
  datatype Entry<V> = Entry(value: V, expireAt: int)

  /** An entry is live at `now` up to and including its expiry time. */
  predicate IsLive<V>(e: Entry<V>, now: int) {
    e.expireAt >= now
  }

  /** What `get(key)` returns at `now`. */
  function Lookup<V>(m: map<string, Entry<V>>, key: string, now: int): (r: Option<V>)
    ensures r.Some? <==> key in m && IsLive(m[key], now)
    ensures r.Some? ==> r.value == m[key].value
  {
    if key in m && IsLive(m[key], now) then Some(m[key].value) else None
  }

  /** The map after `get(key)` at `now`: an expired entry under `key` is dropped, nothing else. */
  function Evicted<V>(m: map<string, Entry<V>>, key: string, now: int): (r: map<string, Entry<V>>)
    ensures key in m && !IsLive(m[key], now) ==> r == m - {key}
    ensures !(key in m && !IsLive(m[key], now)) ==> r == m
  {
    if key in m && !IsLive(m[key], now) then m - {key} else m
  }

  /** What one `wrap` does: the value it returns, whether it called `fn`, and the map after it. */
  datatype WrapOutcome<V> = WrapOutcome(value: V, called: bool, after: map<string, Entry<V>>)

  /**
   * `wrap(key, fn, ttl)` at `now`, where `fnValue` is what `fn()` would resolve to: a live
   * entry is returned as it is, without calling `fn` and without touching the map; otherwise
   * `fn`'s value is stored for `ttl` milliseconds and returned.
   */
  function Wrapped<V>(m: map<string, Entry<V>>, key: string, fnValue: V, ttl: int, now: int): (w: WrapOutcome<V>)
    ensures w.called <==> Lookup(m, key, now).None?
    ensures !w.called ==> w.value == Lookup(m, key, now).value && w.after == m
    ensures w.called ==> w.value == fnValue && w.after == m[key := Entry(fnValue, now + ttl)]
  {
    if key in m && m[key].expireAt >= now then WrapOutcome(m[key].value, false, m)
    else WrapOutcome(fnValue, true, m[key := Entry(fnValue, now + ttl)])
  }

  /** After `set`, `get` yields the stored value until `now + ttl` and null after it; other keys are unaffected. */
  lemma SetThenLookup<V>(m: map<string, Entry<V>>, key: string, value: V, ttl: int, now: int, t: int, other: string)
    requires other != key
    ensures Lookup(m[key := Entry(value, now + ttl)], key, t) == if t <= now + ttl then Some(value) else None
    ensures Lookup(m[key := Entry(value, now + ttl)], other, t) == Lookup(m, other, t)
  {
  }

  /** `set` on a key already present overwrites it: the map still has one entry per key. */
  lemma SetOverwritesInPlace<V>(m: map<string, Entry<V>>, key: string, e: Entry<V>)
    ensures |m[key := e]| == if key in m then |m| else |m| + 1
  {
    if key in m {
      assert m[key := e].Keys == m.Keys;
    } else {
      assert m[key := e].Keys == m.Keys + {key};
    }
  }

  /** After `delete`, `get` of that key is null and every other key reads as before. */
  lemma DeleteThenLookup<V>(m: map<string, Entry<V>>, key: string, t: int, other: string)
    requires other != key
    ensures Lookup(m - {key}, key, t) == None
    ensures Lookup(m - {key}, other, t) == Lookup(m, other, t)
  {
  }

  /** Lazy eviction cannot be observed: from `now` on, every key reads the same with or without it. */
  lemma EvictionIsInvisible<V>(m: map<string, Entry<V>>, key: string, now: int, t: int, other: string)
    requires now <= t
    ensures Lookup(Evicted(m, key, now), other, t) == Lookup(m, other, t)
  {
  }

  /**
   * `wrap` remembers what it computed, null included: a second `wrap` of the same key within
   * the ttl of a computed value, or at a time no later than a first `wrap` that hit, returns
   * the first one's value without calling `fn` and without changing the map.
   */
  lemma {:induction false} WrapTwice<V>(m: map<string, Entry<V>>, key: string, v1: V, v2: V, ttl: int, t1: int, t2: int)
    ensures var w1 := Wrapped(m, key, v1, ttl, t1);
            var w2 := Wrapped(w1.after, key, v2, ttl, t2);
            (w1.called && t2 <= t1 + ttl) || (!w1.called && t2 <= t1) ==>
              !w2.called && w2.value == w1.value && w2.after == w1.after
  {
    var w1 := Wrapped(m, key, v1, ttl, t1);
    if w1.called {
      assert w1.after[key] == Entry(v1, t1 + ttl);
    } else {
      assert key in m && m[key].expireAt >= t1;
    }
  }

  /** A computed value is visible to `get` from the same moment until its ttl runs out. */
  lemma WrapThenLookup<V>(m: map<string, Entry<V>>, key: string, v: V, ttl: int, now: int, t: int)
    requires Wrapped(m, key, v, ttl, now).called && t <= now + ttl
    ensures Lookup(Wrapped(m, key, v, ttl, now).after, key, t) == Some(v)
  {
  }

  class CacheService<V> {
    var inMemory: map<string, Entry<V>>

    constructor ()
      ensures inMemory == map[]
    {
      inMemory := map[];
    }

    /** `get`: null for an absent or expired key; an expired entry is removed on the way. */
    method Get(key: string, now: int) returns (r: Option<V>)
      modifies this
      ensures r == Lookup(old(inMemory), key, now)
      ensures key !in old(inMemory) ==> inMemory == old(inMemory)
      ensures key in old(inMemory) && !IsLive(old(inMemory)[key], now) ==> inMemory == old(inMemory) - {key}
      ensures key in old(inMemory) && IsLive(old(inMemory)[key], now) ==> inMemory == old(inMemory)
    {
      if key !in inMemory {
        return None;
      }
      var data := inMemory[key];
      if data.expireAt < now {
        inMemory := inMemory - {key};
        return None;
      }
      r := Some(data.value);
    }

    /** `set`: stores `value` under `key`, replacing any entry, expiring `ttlMs` from now. */
    method Set(key: string, value: V, ttlMs: int, now: int)
      modifies this
      ensures inMemory == old(inMemory)[key := Entry(value, now + ttlMs)]
    {
      inMemory := inMemory[key := Entry(value, now + ttlMs)];
    }

    method Delete(key: string)
      modifies this
      ensures inMemory == old(inMemory) - {key}
    {
      inMemory := inMemory - {key};
    }

    /**
     * `wrap`: the live cached value, or else `fn`'s value (`fnValue`), which is then cached.
     * `called` tells whether `fn` was invoked.
     */
    method Wrap(key: string, fnValue: V, ttlMs: int, now: int) returns (r: V, called: bool)
      modifies this
      ensures var w := Wrapped(old(inMemory), key, fnValue, ttlMs, now);
              r == w.value && called == w.called && inMemory == w.after
    {
      if key in inMemory && inMemory[key].expireAt >= now {
        return inMemory[key].value, false;
      }
      r, called := fnValue, true;
      Set(key, r, ttlMs, now);
    }

    method Reset()
      modifies this
      ensures inMemory == map[]
    {
      inMemory := map[];
    }
  }
}
