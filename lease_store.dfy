/**
 * The external key/value store the relay code reaches through `RedisUtil` and
 * Redisson buckets: string keys holding a string value and a time to live.
 * Expiry is explicit: `Elapse` stands for the passing of wall-clock time.
 */
module LeaseStore {

  /** A stored value and the seconds it has left to live. */
  datatype Lease = Lease(value: string, ttl: nat)

  /** The entries left after `seconds` pass: those that run out are gone. */
  function Aged(entries: map<string, Lease>, seconds: nat): (r: map<string, Lease>)
    ensures forall k :: k in r <==> k in entries && entries[k].ttl > seconds
    ensures forall k :: k in r ==> r[k] == entries[k].(ttl := entries[k].ttl - seconds)
  {
    map k | k in entries && entries[k].ttl > seconds :: entries[k].(ttl := entries[k].ttl - seconds)
  }

  class Store {
    var entries: map<string, Lease>

    constructor (initial: map<string, Lease>)
      ensures entries == initial
    {
      entries := initial;
    }

    /** `RBucket.trySet(value, ttl, SECONDS)`: set only if the key is absent. */
    method TrySet(key: string, value: string, ttl: nat) returns (ok: bool)
      modifies this
      ensures ok <==> key !in old(entries)
      ensures entries == if ok then old(entries)[key := Lease(value, ttl)] else old(entries)
    {
      ok := key !in entries;
      if ok {
        entries := entries[key := Lease(value, ttl)];
      }
    }

    /** `RBucket.set(value, ttl, SECONDS)`: set unconditionally. */
    method Set(key: string, value: string, ttl: nat)
      modifies this
      ensures entries == old(entries)[key := Lease(value, ttl)]
    {
      entries := entries[key := Lease(value, ttl)];
    }

    /** `RBucket.expire(ttl, SECONDS)`: a new time to live for a present key. */
    method Expire(key: string, ttl: nat) returns (ok: bool)
      modifies this
      ensures ok <==> key in old(entries)
      ensures entries == if ok then old(entries)[key := old(entries)[key].(ttl := ttl)] else old(entries)
    {
      ok := key in entries;
      if ok {
        entries := entries[key := entries[key].(ttl := ttl)];
      }
    }

    /** `RBucket.isExists()`. */
    method IsExists(key: string) returns (b: bool)
      ensures b <==> key in entries
    {
      b := key in entries;
    }

    /** `RedisUtil.deleteObject(key)`. */
    method Delete(key: string)
      modifies this
      ensures entries == old(entries) - {key}
    {
      entries := entries - {key};
    }

    /** Time passes: expired entries disappear. */
    method Elapse(seconds: nat)
      modifies this
      ensures entries == Aged(old(entries), seconds)
    {
      entries := Aged(entries, seconds);
    }
  }
}
