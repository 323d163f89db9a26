/** The in-process cache with TTL expiry and least-recently-used eviction (cache/local.go). */
module LocalCache {

  datatype Entry<+V> = Entry(value: V, expiresAt: int, lastAccess: int)
  datatype Lookup<+V> = Hit(value: V) | Miss

  /** Keys that have not expired at `now`; an entry is still good at its expiry instant. */
  function Live<V>(entries: map<string, Entry<V>>, now: int): map<string, Entry<V>> {
    map k | k in entries && now <= entries[k].expiresAt :: entries[k]
  }

  ghost predicate LeastRecent<V>(entries: map<string, Entry<V>>, k: string) {
    k in entries && forall j :: j in entries ==> entries[k].lastAccess <= entries[j].lastAccess
  }

  /** Room for one more entry: nothing if there is room, else the expired entries go, and if that is
      not enough exactly one least recently used entry goes too. */
  ghost predicate MadeRoom<V>(before: map<string, Entry<V>>, after: map<string, Entry<V>>, maxSize: nat, now: int) {
    if |before| < maxSize then after == before
    else
      var live := Live(before, now);
      if |live| < maxSize then after == live
      else exists victim :: LeastRecent(live, victim) && after == live - {victim}
  }

  class Cache<V> {
    const maxSize: nat
    var entries: map<string, Entry<V>>

    ghost predicate Valid()
      reads this
    {
      maxSize > 0 && |entries| <= maxSize
    }

    constructor (maxSize: int)
      ensures Valid() && entries == map[]
      ensures this.maxSize == if maxSize <= 0 then 10000 else maxSize
    {
      this.maxSize := if maxSize <= 0 then 10000 else maxSize;
      entries := map[];
    }

    /** A hit returns an unexpired value and refreshes its access time; an expired entry is dropped. */
    method Get(key: string, now: int) returns (r: Lookup<V>)
      requires Valid()
      modifies this
      ensures Valid()
      ensures key in old(entries) && now <= old(entries)[key].expiresAt ==>
                && r == Hit(old(entries)[key].value)
                && entries == old(entries)[key := old(entries)[key].(lastAccess := now)]
      ensures !(key in old(entries) && now <= old(entries)[key].expiresAt) ==>
                r == Miss && entries == old(entries) - {key}
    {
      if key !in entries {
        return Miss;
      }
      var entry := entries[key];
      if now > entry.expiresAt {
        entries := entries - {key};
        return Miss;
      }
      SizeOfUpdate(entries, key, entry.(lastAccess := now));
      entries := entries[key := entry.(lastAccess := now)];
      return Hit(entry.value);
    }

    /** The new entry is stored, the bound holds, and every other entry that went away was expired or
        the least recently used one. */
    method Set(key: string, value: V, ttl: int, now: int)
      requires Valid()
      modifies this
      ensures Valid()
      ensures key in old(entries) ==> entries == old(entries)[key := Entry(value, now + ttl, now)]
      ensures key !in old(entries) ==>
                exists room :: MadeRoom(old(entries), room, maxSize, now)
                  && entries == room[key := Entry(value, now + ttl, now)]
    {
      if key !in entries && |entries| >= maxSize {
        EvictExpired(now);
        if |entries| >= maxSize {
          EvictLRU();
        }
      }
      ghost var room := entries;
      SizeOfUpdate(entries, key, Entry(value, now + ttl, now));
      entries := entries[key := Entry(value, now + ttl, now)];
      assert key !in old(entries) ==> MadeRoom(old(entries), room, maxSize, now);
    }

    method Delete(key: string)
      requires Valid()
      modifies this
      ensures Valid() && entries == old(entries) - {key}
    {
      entries := entries - {key};
    }

    /** Sweep: exactly the expired entries go. */
    method EvictExpired(now: int)
      requires Valid()
      modifies this
      ensures Valid() && entries == Live(old(entries), now)
    {
      var todo := entries.Keys;
      while todo != {}
        invariant todo <= entries.Keys
        invariant entries.Keys <= old(entries).Keys
        invariant forall k :: k in entries ==> entries[k] == old(entries)[k]
        invariant forall k :: k in old(entries) && k !in todo ==> (k in entries <==> now <= old(entries)[k].expiresAt)
        decreases todo
      {
        var k :| k in todo;
        if now > entries[k].expiresAt {
          entries := entries - {k};
        }
        todo := todo - {k};
      }
      KeysBoundSize(entries, old(entries));
    }

    /** One least recently accessed entry goes. */
    method EvictLRU()
      requires Valid()
      modifies this
      ensures Valid()
      ensures old(entries) == map[] ==> entries == map[]
      ensures old(entries) != map[] ==>
                exists victim :: LeastRecent(old(entries), victim) && entries == old(entries) - {victim}
    {
      var oldestKey := "";
      var oldestTime := 0;
      var first := true;
      var todo := entries.Keys;
      while todo != {}
        invariant todo <= entries.Keys && entries == old(entries)
        invariant first <==> todo == entries.Keys
        invariant !first ==> oldestKey in entries && entries[oldestKey].lastAccess == oldestTime
        invariant !first ==> forall k :: k in entries.Keys - todo ==> oldestTime <= entries[k].lastAccess
        decreases todo
      {
        var k :| k in todo;
        if first || entries[k].lastAccess < oldestTime {
          oldestKey, oldestTime := k, entries[k].lastAccess;
          first := false;
        }
        todo := todo - {k};
      }
      if !first {
        assert LeastRecent(old(entries), oldestKey);
        entries := entries - {oldestKey};
      }
    }
  }

  lemma SizeOfUpdate<V>(m: map<string, Entry<V>>, k: string, e: Entry<V>)
    ensures |m[k := e]| == |m| + if k in m then 0 else 1
  {
    if k in m {
      assert m[k := e].Keys == m.Keys;
    } else {
      assert m[k := e].Keys == m.Keys + {k};
    }
  }

  lemma KeysBoundSize<V>(a: map<string, Entry<V>>, b: map<string, Entry<V>>)
    requires a.Keys <= b.Keys
    ensures |a| <= |b|
  {
    assert b.Keys == a.Keys + (b.Keys - a.Keys);
  }

  /** A value can leave the cache on a Set only if the cache was full; an unexpired one only if it was full of unexpired
      entries and this one was the least recently used of them. */
  lemma OnlyStaleOrOldestLeave<V>(before: map<string, Entry<V>>, after: map<string, Entry<V>>, maxSize: nat, now: int,
      k: string)
    requires MadeRoom(before, after, maxSize, now) && k in before && k !in after
    ensures |before| >= maxSize
    ensures now > before[k].expiresAt || (|Live(before, now)| >= maxSize && LeastRecent(Live(before, now), k))
  {
  }
}
