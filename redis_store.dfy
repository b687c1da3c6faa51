/**
 * The redis server both scripts talk to, reduced to what they use of it: a
 * flat mapping from key to value, written by SET and read by GET.
 */
module RedisStore {
  import opened Wrappers

  /** GET on a store whose contents are `entries`: the value, or nil. */
  function Fetch(entries: map<string, string>, key: string): (v: Option<string>)
    ensures v.Some? <==> key in entries
    ensures v.Some? ==> v.value == entries[key]
  {
    if key in entries then Some(entries[key]) else None
  }

  /** The connection `r`; its state is the server's contents. */
  class Store {
    var entries: map<string, string>

    constructor (initial: map<string, string>)
      ensures entries == initial
    {
      entries := initial;
    }

    /** SET overwrites unconditionally and touches no other key. */
    method Set(key: string, value: string)
      modifies this
      ensures entries == old(entries)[key := value]
      ensures key in entries && entries[key] == value
      ensures forall k :: k in old(entries) && k != key ==> k in entries && entries[k] == old(entries)[k]
    {
      entries := entries[key := value];
    }

    /** GET reads only. */
    method Get(key: string) returns (v: Option<string>)
      ensures v.Some? <==> key in entries
      ensures v.Some? ==> v.value == entries[key]
    {
      v := Fetch(entries, key);
    }
  }
}
