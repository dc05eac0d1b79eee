/**
 * The Redis client the handlers use (`lac.RedisClient`), as a map from key
 * to value and expiry time. A failure of the server or the connection is a
 * parameter of each call.
 */
module Redis {
  import opened Wrappers
  import opened Json

  /** A stored value and the instant (nanoseconds) it expires, or `None` for no expiry. */
  datatype Entry = Entry(value: Document, expiresAt: Option<int>)

  /** Redis counts a key as expired only once the time is past its expiry instant (`keyIsExpired`). */
  predicate Live(e: Entry, now: int) {
    e.expiresAt.None? || now <= e.expiresAt.value
  }

  /** What `GET key` finds at `now`: the value of a live entry, nothing for a missing or expired key. */
  function Lookup(entries: map<string, Entry>, key: string, now: int): (r: Option<Document>)
    ensures r.Some? <==> key in entries && Live(entries[key], now)
    ensures r.Some? ==> r.value == entries[key].value
  {
    if key in entries && Live(entries[key], now) then Some(entries[key].value) else None
  }

  /** The expiry `SET key value ttl` gives: `now + ttl` for a positive `ttl`, none otherwise. */
  function ExpiryFor(ttl: int, now: int): Option<int> {
    if ttl > 0 then Some(now + ttl) else None
  }

  /** After a write, the written key holds the new entry and every other key reads as before. */
  lemma LookupAfterSet(entries: map<string, Entry>, key: string, e: Entry, other: string, now: int)
    ensures Lookup(entries[key := e], other, now) ==
            if other == key then (if Live(e, now) then Some(e.value) else None) else Lookup(entries, other, now)
  {
  }

  /** After a delete, the deleted key is absent and every other key reads as before. */
  lemma LookupAfterDel(entries: map<string, Entry>, key: string, other: string, now: int)
    ensures Lookup(entries - {key}, other, now) == if other == key then None else Lookup(entries, other, now)
  {
  }

  class RedisClient {
    var entries: map<string, Entry>

    constructor ()
      ensures entries == map[]
    {
      entries := map[];
    }

    /** `Set(ctx, key, value, ttl).Err()`; `fault` is the error the server or connection returns, if any. */
    method Set(key: string, value: Document, ttl: int, now: int, fault: Option<string>) returns (err: Option<string>)
      modifies this
      ensures err == fault
      ensures fault.Some? ==> entries == old(entries)
      ensures fault.None? ==> entries == old(entries)[key := Entry(value, ExpiryFor(ttl, now))]
    {
      err := fault;
      if fault.None? {
        entries := entries[key := Entry(value, ExpiryFor(ttl, now))];
      }
    }

    /** `Del(ctx, key).Err()`: deleting an absent key is not an error. */
    method Del(key: string, fault: Option<string>) returns (err: Option<string>)
      modifies this
      ensures err == fault
      ensures fault.Some? ==> entries == old(entries)
      ensures fault.None? ==> entries == old(entries) - {key}
    {
      err := fault;
      if fault.None? {
        entries := entries - {key};
      }
    }

    /**
     * `Get(ctx, key).Result()`: `None` stands for any error, the `redis.Nil`
     * of a missing or expired key as well as a failure (`fails`).
     */
    method Get(key: string, now: int, fails: bool) returns (r: Option<Document>)
      ensures fails ==> r == None
      ensures !fails ==> r == Lookup(entries, key, now)
    {
      if fails {
        r := None;
      } else {
        r := Lookup(entries, key, now);
      }
    }
  }
}
