/** `IDistributedCache` as the weather proxy and the weather API's data
    service use it: a string value per key, read with `GetString` (null for
    a missing key) and written with `SetString`. */
module DistributedCaches {
  import opened Wrappers
  import opened CacheWrapper

  class DistributedCache {
    /** The cached string of every key that has one. */
    var entries: map<string, string>

    constructor (entries: map<string, string>)
      ensures this.entries == entries
    {
      this.entries := entries;
    }

    /** `GetString(key)`: the cached value, or null. */
    method GetString(key: string) returns (value: Option<string>)
      ensures value == Get(entries, key)
      ensures value.Some? <==> key in entries
    {
      value := if key in entries then Some(entries[key]) else None;
    }

    /** `SetString(key, value)`: replaces the value of `key` and no other. */
    method SetString(key: string, value: string)
      modifies this
      ensures entries == old(entries)[key := value]
      ensures Get(entries, key) == Some(value)
      ensures forall k :: k != key ==> Get(entries, k) == Get(old(entries), k)
    {
      entries := entries[key := value];
    }
  }
}
