/** A `HashMap<String, String>` that its holders update in place. */
module PropertyMaps {
  import opened Wrappers

  class PropertyMap {
    var entries: map<string, string>

    /** `new HashMap<>(initial)`, or `new HashMap<>()` with the empty map. */
    constructor (initial: map<string, string>)
      ensures entries == initial
    {
      entries := initial;
    }

    /** `get`: the value under `key`, or `None` (Java's `null`). */
    function Get(key: string): (r: Option<string>)
      reads this
      ensures r == Lookup(entries, key)
    {
      Lookup(entries, key)
    }

    /** `put`: `key` now maps to `value`; every other entry stays. */
    method Put(key: string, value: string)
      modifies this
      ensures entries == old(entries)[key := value]
    {
      entries := entries[key := value];
    }

    /** `remove`: drops `key` and answers the value it had, if any. */
    method Remove(key: string) returns (previous: Option<string>)
      modifies this
      ensures previous == Lookup(old(entries), key)
      ensures entries == old(entries) - {key}
    {
      previous := Lookup(entries, key);
      entries := entries - {key};
    }
  }
}
