/** The process-wide TTL cache of public reads (client.py): lookup, store and pruning. */
module ReadCache {
  import opened Common

  /** A payload: the identity of the Python object, and when its data was loaded. */
  datatype Value = Value(ref: nat, born: real)

  /** `delay` is the time the data spent between its sources, outside any cache. */
  datatype Entry = Entry(stored: real, value: Value, ttl: real, delay: real)

  type Cache = map<string, Entry>

  const PRUNE_INTERVAL: real := 60.0

  predicate Fresh(e: Entry, now: real, ttl: real) {
    now - e.stored < ttl
  }

  function Hit(cache: Cache, key: string, now: real, ttl: real): Option<Entry> {
    if key in cache && Fresh(cache[key], now, ttl) then Some(cache[key]) else None
  }

  predicate PruneDue(lastPrune: real, now: real) {
    now - lastPrune >= PRUNE_INTERVAL
  }

  function Pruned(cache: Cache, now: real): Cache {
    map k | k in cache && Fresh(cache[k], now, cache[k].ttl) :: cache[k]
  }

  function Stored(cache: Cache, lastPrune: real, key: string, entry: Entry): Cache {
    var added := cache[key := entry];
    if PruneDue(lastPrune, entry.stored) then Pruned(added, entry.stored) else added
  }

  /** A store drops an entry exactly when pruning is due and a lookup under the entry's own TTL would miss it. */
  lemma StoreDropsExactlyTheMisses(cache: Cache, lastPrune: real, key: string, entry: Entry, k: string)
    requires entry.ttl > 0.0
    ensures var after := Stored(cache, lastPrune, key, entry);
            && Hit(after, key, entry.stored, entry.ttl) == Some(entry)
            && (k != key && k in cache ==>
                  && (k !in after <==> PruneDue(lastPrune, entry.stored) && Hit(cache, k, entry.stored, cache[k].ttl).None?)
                  && (k in after ==> after[k] == cache[k]))
            && (k != key && k !in cache ==> k !in after)
  {
  }

  /** A store never loses a hit: whatever a lookup under the entry's own TTL finds later, it finds after the store. */
  lemma StoreLosesNoHit(cache: Cache, lastPrune: real, key: string, entry: Entry, k: string, later: real)
    requires k in cache && k != key && later >= entry.stored
    ensures Hit(Stored(cache, lastPrune, key, entry), k, later, cache[k].ttl) == Hit(cache, k, later, cache[k].ttl)
  {
  }

  /** The module's dictionary and prune timestamp. */
  class PublicReads {
    var cache: Cache
    var lastPrune: real

    constructor ()
      ensures cache == map[] && lastPrune == 0.0
    {
      cache, lastPrune := map[], 0.0;
    }

    method Get(key: string, ttl: real, now: real) returns (found: Option<Entry>)
      ensures found == Hit(cache, key, now, ttl)
    {
      if key in cache {
        var cached := cache[key];
        if now - cached.stored < ttl {
          return Some(cached);
        }
      }
      return None;
    }

    /** Stores the entry and, at most once per interval, deletes the expired keys one by one. */
    method Put(key: string, entry: Entry)
      modifies this
      ensures cache == Stored(old(cache), old(lastPrune), key, entry)
      ensures lastPrune == if PruneDue(old(lastPrune), entry.stored) then entry.stored else old(lastPrune)
    {
      cache := cache[key := entry];
      var now := entry.stored;
      if now - lastPrune < PRUNE_INTERVAL {
        return;
      }
      lastPrune := now;
      var before := cache;
      var expired := set k | k in cache && !Fresh(cache[k], now, cache[k].ttl);
      ghost var all := expired;
      while expired != {}
        invariant expired <= all && lastPrune == now
        invariant cache == map k | k in before && k !in all - expired :: before[k]
        decreases expired
      {
        var k :| k in expired;
        cache := cache - {k};
        expired := expired - {k};
      }
      assert cache == Pruned(before, now);
    }

    method Reset()
      modifies this
      ensures cache == map[] && lastPrune == 0.0
    {
      cache, lastPrune := map[], 0.0;
    }
  }
}
