/** backend/app/core/cache.py: the JSON cache whose `add` is the lock primitive of the workers. */
module JsonCache {
  import opened Wrappers
  import opened Redis

  class Cache<V> {
    var now: int
    var keys: Keyspace<string, V>

    constructor ()
      ensures keys == map[]
    {
      now, keys := 0, map[];
    }

    /** `get`. */
    method Get(key: string) returns (value: Option<V>)
      ensures value.Some? <==> Live(keys, key, now)
      ensures value.Some? ==> value.value == keys[key].value
    {
      value := if key in keys && keys[key].LiveAt(now) then Some(keys[key].value) else None;
    }

    /** `set`: unconditional, with expiry. */
    method Set(key: string, value: V, ttl: nat)
      modifies this`keys
      ensures keys == old(keys)[key := Timed(value, Some(now + ttl))]
    {
      keys := keys[key := Timed(value, Some(now + ttl))];
    }

    /** `add`: SET NX EX.  Of all callers that find a live key, none changes it. */
    method Add(key: string, value: V, ttl: nat) returns (added: bool)
      modifies this`keys
      ensures added <==> !old(Live(keys, key, now))
      ensures keys == if added then old(keys)[key := Timed(value, Some(now + ttl))] else old(keys)
    {
      added := !(key in keys && keys[key].LiveAt(now));
      if added {
        keys := keys[key := Timed(value, Some(now + ttl))];
      }
    }

    /** `delete`: whoever holds the key, it is gone. */
    method Delete(key: string)
      modifies this`keys
      ensures keys == old(keys) - {key}
    {
      keys := keys - {key};
    }
  }
}
