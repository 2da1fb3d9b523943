/**
 The cache object: an entry map that `Set` and `Delete` update in place, and
 the list of one-shot timers that `Set` arms.  Each method is one atomic step;
 its contract ties the new state to the transition of the same name in
 `CacheModel`.
 */
module TtlCache {
  import opened CacheModel

  class Cache<K(==, !new), V> {
    var items: map<K, Item<V>>
    var pending: seq<Timer<K>>

    /** The cache's state as a value. */
    function Model(): CacheState<K, V>
      reads this
    {
      CacheState(items, pending)
    }

    /** The object invariant: every stored entry has its deletion timer armed. */
    ghost predicate Valid()
      reads this
    {
      TimersArmed(Model())
    }

    /** `New`: an empty cache, with no timer armed. */
    constructor ()
      ensures Valid()
      ensures Model() == Empty()
    {
      items := map[];
      pending := [];
      EmptyHasTimersArmed<K, V>();
    }

    /**
     Stores `Item(value, now + ttl)` under `key`, replacing any earlier entry,
     and arms one timer that will delete `key` at `now + ttl`.
     */
    method Set(key: K, value: V, ttl: int, now: int)
      requires Valid()
      modifies this
      ensures Valid()
      ensures Model() == AfterSet(old(Model()), key, value, ttl, now)
    {
      SetKeepsTimersArmed(Model(), key, value, ttl, now);
      var item := Item(value, now + ttl);
      items := items[key := item];
      pending := pending + [(item.expiration, key)];
    }

    /**
     Returns the value under `key` unless the key is absent or its expiration
     is strictly before `now`.  An expired entry is left in place.
     */
    method Get(key: K, now: int) returns (r: Option<V>)
      ensures r.Some? <==> key in items && items[key].expiration >= now
      ensures r.Some? ==> r.value == items[key].value
      ensures r == Lookup(Model(), key, now)
    {
      if key !in items {
        return None;
      }
      var item := items[key];
      if Before(item.expiration, now) {
        return None;
      }
      return Some(item.value);
    }

    /** Removes any entry under `key`; armed timers are not cancelled. */
    method Delete(key: K)
      requires Valid()
      modifies this
      ensures Valid()
      ensures Model() == AfterDelete(old(Model()), key)
    {
      DeleteKeepsTimersArmed(Model(), key);
      items := items - {key};
    }

    /**
     The `i`-th armed timer goes off at `now`, no earlier than its fire time:
     it calls `Delete` on its key, with no check of which entry is there, and
     is consumed.
     */
    method Fire(i: nat, now: int)
      requires Valid()
      requires i < |pending| && pending[i].0 <= now
      modifies this
      ensures Valid()
      ensures Model() == AfterFire(old(Model()), i)
    {
      FireKeepsTimersArmed(Model(), i);
      var key := pending[i].1;
      Delete(key);
      pending := pending[..i] + pending[i + 1..];
    }
  }

  /**
   The race on one cache object: `Set(key, v1, 10ms)` at 0, `Set(key, v2,
   1000ms)` at 5ms, a `Get` at 30ms, the first timer fires at 30ms, a `Get`
   at 30ms again.  The first read finds `v2`; the second finds nothing.
   */
  method RaceOnOneCache<K(==, !new), V>(key: K, v1: V, v2: V) returns (before: Option<V>, after: Option<V>)
    ensures before == Some(v2)
    ensures after == None
  {
    var c := new Cache<K, V>();
    c.Set(key, v1, 10_000_000, 0);
    c.Set(key, v2, 1_000_000_000, 5_000_000);
    before := c.Get(key, 30_000_000);
    c.Fire(0, 30_000_000);
    after := c.Get(key, 30_000_000);
  }
}
