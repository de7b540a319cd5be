/**
 * `CacheService`: an in-process dictionary from key to (serialized value, expiration).
 * Entries expire strictly at their expiration time and are evicted lazily, by the
 * read that finds them expired. Every failure is logged and swallowed: a failed read
 * is a miss, a failed write leaves the dictionary as it was.
 *
 * Serialization is modelled as the identity on values (a JSON round trip of the DTOs
 * is faithful); whether the serializer or deserializer throws is a parameter.
 */
module CacheService {

  import opened Wrappers
  import opened Clock

  /** One dictionary entry: the cached value and when it stops being served. */
  datatype Entry<V> = Entry(value: V, expiration: DateTime)

  type Entries<V> = map<string, Entry<V>>

  /** The expiration `SetAsync` uses when the caller passes none. */
  const DefaultExpirationMinutes: int := 5

  /** An entry is served while the clock is strictly before its expiration. */
  predicate Live<V>(m: Entries<V>, key: string, now: DateTime) {
    key in m && now < m[key].expiration
  }

  /**
   * `GetAsync`: the value and the dictionary afterwards. A live entry is returned
   * unless deserializing it throws; an expired one is removed; a missing key is a miss.
   */
  function Lookup<V>(m: Entries<V>, key: string, now: DateTime, deserializeFails: bool): (r: (Option<V>, Entries<V>))
    ensures r.0.Some? <==> Live(m, key, now) && !deserializeFails
    ensures r.0.Some? ==> r.0.value == m[key].value
    ensures forall k :: k in r.1 <==> k in m && (k != key || Live(m, key, now))
    ensures forall k | k in r.1 :: r.1[k] == m[k]
  {
    if key !in m then (None, m)
    else if now < m[key].expiration then
      (if deserializeFails then None else Some(m[key].value), m)
    else (None, m - {key})
  }

  /**
   * `SetAsync`: stores `value` under `key` until `now + ttl` (five minutes when `ttl`
   * is `None`). A serializer failure, or an expiration outside the `DateTime` range,
   * throws inside the `try` and leaves the dictionary unchanged.
   */
  function Store<V>(m: Entries<V>, key: string, value: V, ttl: Option<int>, now: DateTime, serializeFails: bool): (r: Entries<V>)
    ensures var span := if ttl.Some? then ttl.value else FromMinutes(DefaultExpirationMinutes);
      if !serializeFails && 0 <= now + span <= MaxTicks
      then key in r && r[key] == Entry(value, now + span)
      else r == m
    ensures forall k | k != key :: (k in r <==> k in m) && (k in r ==> r[k] == m[k])
  {
    if serializeFails then m
    else
      var span := if ttl.Some? then ttl.value else FromMinutes(DefaultExpirationMinutes);
      match AddTicks(now, span)
      case None => m
      case Some(expiration) => m[key := Entry(value, expiration)]
  }

  /** The in-memory cache: a dictionary from key to value and expiration. */
  class MemoryCache<V> {
    var entries: Entries<V>

    /** A new cache is empty. */
    constructor ()
      ensures entries == map[]
    {
      entries := map[];
    }

    method Get(key: string, now: DateTime, deserializeFails: bool) returns (r: Option<V>)
      modifies this
      ensures (r, entries) == Lookup(old(entries), key, now, deserializeFails)
    {
      if key in entries {
        var item := entries[key];
        if now < item.expiration {
          if deserializeFails {
            return None;
          }
          return Some(item.value);
        } else {
          entries := entries - {key};
        }
      }
      return None;
    }

    method Set(key: string, value: V, ttl: Option<int>, now: DateTime, serializeFails: bool)
      modifies this
      ensures entries == Store(old(entries), key, value, ttl, now, serializeFails)
    {
      if serializeFails {
        return;
      }
      var span := if ttl.Some? then ttl.value else FromMinutes(DefaultExpirationMinutes);
      var expiration := AddTicks(now, span);
      if expiration.None? {
        return;
      }
      entries := entries[key := Entry(value, expiration.value)];
    }

    /** `RemoveAsync`: removing a missing key is not an error. */
    method Remove(key: string)
      modifies this
      ensures entries == old(entries) - {key}
    {
      entries := entries - {key};
    }

    /** `RemoveByPatternAsync` only logs the pattern: no entry is removed. */
    method RemoveByPattern(pattern: string)
      ensures entries == old(entries)
    {
    }
  }

  /** What a read returns after a successful write, at every later instant. */
  lemma SetThenGet<V>(m: Entries<V>, key: string, value: V, span: int, now: DateTime, later: DateTime)
    requires 0 <= now + span <= MaxTicks && now <= later
    ensures var m1 := Store(m, key, value, Some(span), now, false);
      var (r, m2) := Lookup(m1, key, later, false);
      && (later < now + span ==> r == Some(value) && m2 == m1)
      && (now + span <= later ==> r == None && key !in m2)
  {
  }

  /** Expiry is strict: at exactly the expiration instant the entry is already gone. */
  lemma ExpiredAtExpiration<V>(m: Entries<V>, key: string, deserializeFails: bool)
    requires key in m
    ensures Lookup(m, key, m[key].expiration, deserializeFails) == (None, m - {key})
  {
  }

  /** Without arguments the entry lives exactly five minutes. */
  lemma DefaultLifetimeIsFiveMinutes<V>(m: Entries<V>, key: string, value: V, now: DateTime)
    requires now + 5 * TicksPerMinute <= MaxTicks
    ensures Store(m, key, value, None, now, false)[key].expiration == now + 5 * TicksPerMinute
  {
  }

  /** A failed read of a live entry keeps it; only an expired read evicts. */
  lemma FailedReadKeepsEntry<V>(m: Entries<V>, key: string, now: DateTime)
    requires Live(m, key, now)
    ensures Lookup(m, key, now, true) == (None, m)
  {
  }

  /**
   * Reads and writes of other keys never disturb a key: whatever happens at `other`,
   * whether `key` is served at `now` is unchanged.
   */
  lemma OtherKeysUnaffected<V>(m: Entries<V>, key: string, other: string, value: V, ttl: Option<int>, now: DateTime, t: DateTime, fails: bool)
    requires key != other
    ensures Live(Store(m, other, value, ttl, t, fails), key, now) <==> Live(m, key, now)
    ensures Live(Lookup(m, other, t, fails).1, key, now) <==> Live(m, key, now)
    ensures Live(m - {other}, key, now) <==> Live(m, key, now)
  {
  }
}
