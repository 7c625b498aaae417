/**
  The part of Redis the backend relies on: keys that carry an optional expiry
  instant.  A key whose instant has passed behaves as if it were absent; the
  model keeps it in the map and every reader consults `Live`.
 */
module Redis {
  import opened Wrappers

  datatype Timed<+V> = Timed(value: V, expires: Option<int>)
  {
    predicate LiveAt(now: int) {
      expires.None? || now < expires.value
    }
  }

  type Keyspace<K(==), V> = map<K, Timed<V>>

  predicate Live<K, V>(keys: Keyspace<K, V>, key: K, now: int) {
    key in keys && keys[key].LiveAt(now)
  }

  /** GET and EXISTS. */
  function Get<K, V>(keys: Keyspace<K, V>, key: K, now: int): Option<V> {
    if Live(keys, key, now) then Some(keys[key].value) else None
  }

  /** SETEX with a positive TTL. */
  function SetEx<K, V>(keys: Keyspace<K, V>, key: K, ttl: int, value: V, now: int): Keyspace<K, V> {
    keys[key := Timed(value, Some(now + ttl))]
  }
}
