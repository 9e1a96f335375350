/**
 * The part of `Rails.cache` the controller uses: `fetch(key, expires_in:,
 * skip_nil: true) { block }`. A live entry is returned without running the
 * block. Otherwise an expired entry is dropped, the block runs once, and its
 * value is stored with expiry `now + expires_in` unless it is nil.
 */
module Cache {
  import opened Common

  datatype Entry<V> = Entry(value: V, expiresAt: int)

  /** An entry for `key` exists and has not yet expired at `now`. */
  predicate Live<V>(entries: map<string, Entry<V>>, key: string, now: int)
  {
    key in entries && now < entries[key].expiresAt
  }

  class Store<V> {
    var entries: map<string, Entry<V>>

    constructor ()
      ensures entries == map[]
    {
      entries := map[];
    }

    /**
     * `fetch` with `skip_nil: true`. The block gives the value to cache (nil for
     * none) and a note of what it did; `note` is nil exactly when the block did
     * not run.
     */
    method Fetch<N>(key: string, now: int, expiresIn: nat, block: () -> (Option<V>, N))
      returns (value: Option<V>, note: Option<N>)
      modifies this
      ensures Live(old(entries), key, now) ==>
        value == Some(old(entries)[key].value) && note == None && entries == old(entries)
      ensures !Live(old(entries), key, now) ==> note == Some(block().1) && value == block().0
      ensures !Live(old(entries), key, now) && value.Some? ==>
        entries == old(entries)[key := Entry(value.value, now + expiresIn)]
      ensures !Live(old(entries), key, now) && value.None? ==> entries == old(entries) - {key}
    {
      if Live(entries, key, now) {
        value, note := Some(entries[key].value), None;
        return;
      }
      entries := entries - {key};
      var result := block();
      value, note := result.0, Some(result.1);
      if value.Some? {
        entries := entries[key := Entry(value.value, now + expiresIn)];
      }
    }
  }
}
