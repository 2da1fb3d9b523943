/**
 The state of the TTL cache as a value, and the effect of each of its
 operations on that value.  Time is an integer count of nanoseconds that the
 caller passes in; the timers that `Set` arms are an explicit list of
 scheduled deletions.
 */
module CacheModel {

  datatype Option<T> = None | Some(value: T)

  /** One stored entry: the value and the absolute time after which it is stale. */
  datatype Item<V> = Item(value: V, expiration: int)

  /** A scheduled deletion: the time the one-shot timer fires and the key it deletes. */
  type Timer<K> = (int, K)

  /** The entry map and the timers armed so far and not yet fired. */
  datatype CacheState<K(==), V> = CacheState(items: map<K, Item<V>>, pending: seq<Timer<K>>)

  /** Key `k` has the same entry, or is absent, in both maps. */
  ghost predicate SameEntry<K(!new), V>(m: map<K, Item<V>>, m': map<K, Item<V>>, k: K)
  {
    (k in m <==> k in m') && (k in m ==> m[k] == m'[k])
  }

  /** Go's `time.Time.Before`: strictly earlier. */
  predicate Before(t: int, u: int)
  {
    t < u
  }

  /** The cache that `New` returns. */
  function Empty<K(!new), V>(): (s: CacheState<K, V>)
    ensures forall k, now :: Lookup(s, k, now).None?
    ensures s.pending == []
  {
    CacheState(map[], [])
  }

  /** What `Get(key)` answers at time `now`; it never changes the state. */
  function Lookup<K(!new), V>(s: CacheState<K, V>, key: K, now: int): (r: Option<V>)
    ensures r.Some? <==> key in s.items && s.items[key].expiration >= now
    ensures r.Some? ==> r.value == s.items[key].value
  {
    if key !in s.items then None
    else if Before(s.items[key].expiration, now) then None
    else Some(s.items[key].value)
  }

  /** The state after `Set(key, value, ttl)` at time `now`. */
  function AfterSet<K(!new), V>(s: CacheState<K, V>, key: K, value: V, ttl: int, now: int): (r: CacheState<K, V>)
    ensures key in r.items && r.items[key] == Item(value, now + ttl)
    ensures forall k :: k != key ==> SameEntry(s.items, r.items, k)
    ensures |r.pending| == |s.pending| + 1
    ensures r.pending[..|s.pending|] == s.pending
    ensures r.pending[|s.pending|] == (now + ttl, key)
  {
    var expiration := now + ttl;
    CacheState(s.items[key := Item(value, expiration)], s.pending + [(expiration, key)])
  }

  /** The state after `Delete(key)`: the entry is gone, armed timers stay armed. */
  function AfterDelete<K(!new), V>(s: CacheState<K, V>, key: K): (r: CacheState<K, V>)
    ensures key !in r.items
    ensures forall k :: k != key ==> SameEntry(s.items, r.items, k)
    ensures r.pending == s.pending
  {
    CacheState(s.items - {key}, s.pending)
  }

  /**
   The state after the `i`-th armed timer fires: it deletes its key, whatever
   entry is stored there now, and is consumed; the other timers stay in order.
   */
  function AfterFire<K(!new), V>(s: CacheState<K, V>, i: nat): (r: CacheState<K, V>)
    requires i < |s.pending|
    ensures s.pending[i].1 !in r.items
    ensures forall k :: k != s.pending[i].1 ==> SameEntry(s.items, r.items, k)
    ensures |r.pending| == |s.pending| - 1
    ensures forall j :: 0 <= j < i ==> r.pending[j] == s.pending[j]
    ensures forall j :: i <= j < |r.pending| ==> r.pending[j] == s.pending[j + 1]
  {
    CacheState(AfterDelete(s, s.pending[i].1).items, s.pending[..i] + s.pending[i + 1..])
  }

  // ---------------------------------------------------------------------
  // Reading after writing

  /** After `Set`, the key reads back its value until `now + ttl` inclusive, and not-found after. */
  lemma LookupAfterSet<K(!new), V>(s: CacheState<K, V>, key: K, value: V, ttl: int, now: int, t: int)
    ensures Lookup(AfterSet(s, key, value, ttl, now), key, t) == if t <= now + ttl then Some(value) else None
  {
  }

  /** Read-your-write: immediately after `Set`, `Get` finds the value exactly when `ttl >= 0`. */
  lemma ReadYourWrite<K(!new), V>(s: CacheState<K, V>, key: K, value: V, ttl: int, now: int)
    ensures Lookup(AfterSet(s, key, value, ttl, now), key, now) == if ttl >= 0 then Some(value) else None
  {
  }

  /** `Set` on one key does not change what any other key reads. */
  lemma SetLeavesOtherKeys<K(!new), V>(s: CacheState<K, V>, key: K, value: V, ttl: int, now: int, k: K, t: int)
    requires k != key
    ensures Lookup(AfterSet(s, key, value, ttl, now), k, t) == Lookup(s, k, t)
  {
  }

  /** A second `Set` replaces the first entry outright: nothing of it survives. */
  lemma SetOverwrites<K(!new), V>(s: CacheState<K, V>, key: K, v1: V, ttl1: int, now1: int, v2: V, ttl2: int, now2: int)
    ensures AfterSet(AfterSet(s, key, v1, ttl1, now1), key, v2, ttl2, now2).items
         == AfterSet(s, key, v2, ttl2, now2).items
  {
  }

  // ---------------------------------------------------------------------
  // Deleting

  /** After `Delete(key)`, `Get(key)` is not-found at every time, and other keys read as before. */
  lemma LookupAfterDelete<K(!new), V>(s: CacheState<K, V>, key: K, k: K, t: int)
    ensures Lookup(AfterDelete(s, key), k, t) == if k == key then None else Lookup(s, k, t)
  {
  }

  /** Deleting an absent key changes nothing. */
  lemma DeleteAbsentIsNoop<K(!new), V>(s: CacheState<K, V>, key: K)
    requires key !in s.items
    ensures AfterDelete(s, key) == s
  {
  }

  /** A second `Delete` of the same key changes nothing. */
  lemma DeleteIdempotent<K(!new), V>(s: CacheState<K, V>, key: K)
    ensures AfterDelete(AfterDelete(s, key), key) == AfterDelete(s, key)
  {
  }

  // ---------------------------------------------------------------------
  // Timers

  /**
   Every stored entry has a timer armed for its key at its expiration time:
   what `Set` arms in the same step as it stores the entry.
   */
  ghost predicate TimersArmed<K(!new), V>(s: CacheState<K, V>)
  {
    forall k :: k in s.items ==> (s.items[k].expiration, k) in s.pending
  }

  lemma EmptyHasTimersArmed<K(!new), V>()
    ensures TimersArmed(Empty<K, V>())
  {
  }

  lemma SetKeepsTimersArmed<K(!new), V>(s: CacheState<K, V>, key: K, value: V, ttl: int, now: int)
    requires TimersArmed(s)
    ensures TimersArmed(AfterSet(s, key, value, ttl, now))
  {
  }

  lemma DeleteKeepsTimersArmed<K(!new), V>(s: CacheState<K, V>, key: K)
    requires TimersArmed(s)
    ensures TimersArmed(AfterDelete(s, key))
  {
  }

  /**
   Firing a timer keeps every other entry's timer armed: the fired timer's own
   key is gone from the map, and a timer of another key is not the one consumed.
   */
  lemma FireKeepsTimersArmed<K(!new), V>(s: CacheState<K, V>, i: nat)
    requires i < |s.pending|
    requires TimersArmed(s)
    ensures TimersArmed(AfterFire(s, i))
  {
  }

  /**
   Once every timer due by time `t` has fired, no entry that is stale at `t`
   is still physically stored: every stored entry still reads as found at `t`.
   This rests on `Set` arming the timer for exactly the entry's expiration.
   */
  lemma NothingStaleOnceDueTimersFired<K(!new), V>(s: CacheState<K, V>, t: int)
    requires TimersArmed(s)
    requires forall j :: 0 <= j < |s.pending| ==> s.pending[j].0 > t
    ensures forall k :: k in s.items ==> Lookup(s, k, t) == Some(s.items[k].value)
  {
  }

  /**
   The race of delete-by-key timers: `Set(key, v1, ttl1)` then
   `Set(key, v2, ttl2)`; when the first timer fires at a time `now` at which
   `v2` has not yet expired, it deletes `v2`, and `Get(key)` is not-found.
   */
  lemma StaleTimerDeletesNewerValue<K(!new), V>(s: CacheState<K, V>, key: K, v1: V, ttl1: int, now1: int,
                                          v2: V, ttl2: int, now2: int, now: int)
    requires now1 + ttl1 <= now <= now2 + ttl2
    ensures var s2 := AfterSet(AfterSet(s, key, v1, ttl1, now1), key, v2, ttl2, now2);
            && s2.pending[|s.pending|] == (now1 + ttl1, key)
            && Lookup(s2, key, now) == Some(v2)
            && Lookup(AfterFire(s2, |s.pending|), key, now) == None
  {
  }
}
