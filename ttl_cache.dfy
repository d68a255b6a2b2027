/** The in-process TTL cache of the nearby-disasters handler
    (app/chatbot/api/nearby_disasters/route.ts): a map from key to value and expiry time. The
    clock is an input. */
module TtlCache {
  import opened Wrappers

  datatype Record<V> = Record(expires: int, value: V)

  /** What `cacheGet` answers at time `now`: a value whose expiry is not strictly before `now`. */
  function Lookup<V>(entries: map<string, Record<V>>, key: string, now: int): (r: Option<V>)
    ensures r.Some? <==> key in entries && !(entries[key].expires < now)
    ensures r.Some? ==> r.value == entries[key].value
  {
    if key in entries && !(entries[key].expires < now) then Some(entries[key].value) else None
  }

  /** The map after `cacheGet`: an expired entry for the key is deleted, nothing else changes. */
  function AfterGet<V>(entries: map<string, Record<V>>, key: string, now: int): (r: map<string, Record<V>>)
    ensures key in entries && entries[key].expires < now ==> r == entries - {key}
    ensures !(key in entries && entries[key].expires < now) ==> r == entries
    ensures forall k :: k != key ==> (k in r <==> k in entries) && (k in r ==> r[k] == entries[k])
  {
    if key in entries && entries[key].expires < now then entries - {key} else entries
  }

  class Cache<V> {
    var entries: map<string, Record<V>>

    constructor ()
      ensures entries == map[]
    {
      entries := map[];
    }

    /** Reading a key at time `now`. */
    method Get(key: string, now: int) returns (r: Option<V>)
      modifies this
      ensures r == Lookup(old(entries), key, now)
      ensures entries == AfterGet(old(entries), key, now)
    {
      if key !in entries {
        return None;
      }
      var rec := entries[key];
      if rec.expires < now {
        entries := entries - {key};
        return None;
      }
      return Some(rec.value);
    }

    /** Storing a value with a lifetime at time `now`: overwrites any entry for the key. */
    method Set(key: string, value: V, ttlMs: int, now: int)
      modifies this
      ensures entries == old(entries)[key := Record(now + ttlMs, value)]
    {
      entries := entries[key := Record(now + ttlMs, value)];
    }
  }

  /** After a set at time `t`, a get returns the value at every `now <= t + ttl` (the expiry test
      is strict) and nothing afterwards. */
  lemma SetThenGet<V>(entries: map<string, Record<V>>, key: string, value: V, ttlMs: int, t: int, now: int)
    ensures var e := entries[key := Record(t + ttlMs, value)];
      (now <= t + ttlMs ==> Lookup(e, key, now) == Some(value)) &&
      (now > t + ttlMs ==> Lookup(e, key, now) == None && AfterGet(e, key, now) == entries - {key})
  {
    var e := entries[key := Record(t + ttlMs, value)];
    if now > t + ttlMs {
      assert e - {key} == entries - {key};
    }
  }

  /** Setting one key leaves every other key's answer alone. */
  lemma SetIsolated<V>(entries: map<string, Record<V>>, key: string, other: string, value: V, ttlMs: int, t: int, now: int)
    requires other != key
    ensures Lookup(entries[key := Record(t + ttlMs, value)], other, now) == Lookup(entries, other, now)
  {
  }
}
