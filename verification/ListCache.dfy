/** frontend/app/utils/list-cache.ts and workspace-list-stale.ts: module-level state shared by every list. */
module ListCache {
  import opened Wrappers

  const LIST_CACHE_TTL_MS := 30_000

  datatype Entry<+D> = Entry(data: D, ts: int)

  datatype Hit<+D> = Hit(data: D, isFresh: bool)

  /** `readListCache` on values. */
  function Lookup<K, D>(store: map<K, Entry<D>>, key: K, now: int): Option<Hit<D>> {
    if key in store then Some(Hit(store[key].data, now - store[key].ts < LIST_CACHE_TTL_MS)) else None
  }

  /** What was written is found with its data, and is fresh for exactly thirty seconds; nothing else is found. */
  lemma WrittenIsFresh<K, D>(store: map<K, Entry<D>>, key: K, data: D, written: int, other: K, now: int)
    ensures
      var hit := Lookup(store[key := Entry(data, written)], other, now);
      && (hit.Some? <==> other == key || other in store)
      && (hit.Some? ==> hit.value.data == if other == key then data else store[other].data)
      && (hit.Some? ==> (hit.value.isFresh <==> now < (if other == key then written else store[other].ts) + 30_000))
  {
  }

  class Cache<K(==), D> {
    var now: int
    var store: map<K, Entry<D>>

    constructor ()
      ensures store == map[]
    {
      now, store := 0, map[];
    }

    /** `readListCache`. */
    method Read(key: K) returns (hit: Option<Hit<D>>)
      ensures hit == Lookup(store, key, now)
      ensures hit.Some? <==> key in store
      ensures hit.Some? ==> hit.value.data == store[key].data && (hit.value.isFresh <==> now < store[key].ts + 30_000)
    {
      if key !in store {
        return None;
      }
      var entry := store[key];
      return Some(Hit(entry.data, now - entry.ts < LIST_CACHE_TTL_MS));
    }

    /** `writeListCache`. */
    method Write(key: K, data: D)
      modifies this`store
      ensures store == old(store)[key := Entry(data, now)]
    {
      store := store[key := Entry(data, now)];
    }

    /** `clearListCache`. */
    method Clear()
      modifies this`store
      ensures store == map[]
    {
      store := map[];
    }
  }

  class StaleKeys {
    var keys: set<string>

    constructor ()
      ensures keys == {}
    {
      keys := {};
    }

    /** `markListStale`: empty keys are ignored. */
    method Mark(marked: seq<string>)
      modifies this
      ensures keys == old(keys) + (set key | key in marked && key != "")
    {
      for i := 0 to |marked|
        invariant keys == old(keys) + (set key | key in marked[..i] && key != "")
      {
        assert marked[..i + 1] == marked[..i] + [marked[i]];
        if marked[i] != "" {
          keys := keys + {marked[i]};
        }
      }
      assert marked[..|marked|] == marked;
    }

    /** `consumeListStale`: a hit when any of the keys was marked, and none of them stays marked. */
    method Consume(asked: seq<string>) returns (hit: bool)
      modifies this
      ensures hit <==> exists key :: key in asked && key != "" && key in old(keys)
      ensures keys == old(keys) - (set key | key in asked && key != "")
    {
      hit := false;
      for i := 0 to |asked|
        invariant hit <==> exists key :: key in asked[..i] && key != "" && key in old(keys)
        invariant keys == old(keys) - (set key | key in asked[..i] && key != "")
      {
        var key := asked[i];
        assert asked[..i + 1] == asked[..i] + [key];
        if key != "" && key in keys {
          keys := keys - {key};
          hit := true;
        }
      }
      assert asked[..|asked|] == asked;
    }
  }
}
