/**
 Runs of the cache: a sequence of `Set`, `Delete` and timer firings applied
 one after another, each as one atomic step.  `Get` is not an event, since it
 changes nothing; a `Get` at any point of a run is `Lookup` on the state
 reached there.
 */
module CacheTraces {
  import opened CacheModel

  datatype Event<K, V> =
    | SetEvent(key: K, value: V, ttl: int, now: int)
    | DeleteEvent(key: K)
    | FireEvent(index: nat, now: int)

  /**
   A timer fires only if it is armed and its time has come.  The `now` values
   of a run need not increase: runs in which time goes backwards are admitted
   too, which only widens the set of runs the lemmas below cover.
   */
  predicate Enabled<K(!new), V>(s: CacheState<K, V>, e: Event<K, V>)
  {
    e.FireEvent? ==> e.index < |s.pending| && s.pending[e.index].0 <= e.now
  }

  function Step<K(!new), V>(s: CacheState<K, V>, e: Event<K, V>): CacheState<K, V>
    requires Enabled(s, e)
  {
    match e
    case SetEvent(key, value, ttl, now) => AfterSet(s, key, value, ttl, now)
    case DeleteEvent(key) => AfterDelete(s, key)
    case FireEvent(index, _) => AfterFire(s, index)
  }

  /** Every event of `evs` is enabled in the state the events before it reach from `s`. */
  predicate Admissible<K(!new), V>(s: CacheState<K, V>, evs: seq<Event<K, V>>)
    decreases |evs|
  {
    evs == [] || (Enabled(s, evs[0]) && Admissible(Step(s, evs[0]), evs[1..]))
  }

  function Run<K(!new), V>(s: CacheState<K, V>, evs: seq<Event<K, V>>): CacheState<K, V>
    requires Admissible(s, evs)
    decreases |evs|
  {
    if evs == [] then s else Run(Step(s, evs[0]), evs[1..])
  }

  /** No event of `evs` is a `Set` of `key`. */
  ghost predicate NeverSets<K, V>(evs: seq<Event<K, V>>, key: K)
  {
    forall j :: 0 <= j < |evs| ==> !(evs[j].SetEvent? && evs[j].key == key)
  }

  /** Every step keeps every stored entry's timer armed. */
  lemma StepKeepsTimersArmed<K(!new), V>(s: CacheState<K, V>, e: Event<K, V>)
    requires Enabled(s, e) && TimersArmed(s)
    ensures TimersArmed(Step(s, e))
  {
  }

  lemma {:induction false} RunKeepsTimersArmed<K(!new), V>(s: CacheState<K, V>, evs: seq<Event<K, V>>)
    requires Admissible(s, evs) && TimersArmed(s)
    ensures TimersArmed(Run(s, evs))
    decreases |evs|
  {
    if evs != [] {
      StepKeepsTimersArmed(s, evs[0]);
      RunKeepsTimersArmed(Step(s, evs[0]), evs[1..]);
    }
  }

  /**
   Without a `Set` of `key`, a run can only remove the entry under `key`: it
   either keeps the entry it started with or ends with none.
   */
  lemma {:induction false} UnsetKeyIsKeptOrRemoved<K(!new), V>(s: CacheState<K, V>, evs: seq<Event<K, V>>, key: K)
    requires Admissible(s, evs) && NeverSets(evs, key)
    ensures key in Run(s, evs).items ==> key in s.items && Run(s, evs).items[key] == s.items[key]
    decreases |evs|
  {
    if evs != [] {
      assert !(evs[0].SetEvent? && evs[0].key == key);
      assert NeverSets(evs[1..], key) by {
        forall j | 0 <= j < |evs[1..]|
          ensures !(evs[1..][j].SetEvent? && evs[1..][j].key == key)
        {
          assert evs[1..][j] == evs[j + 1];
        }
      }
      UnsetKeyIsKeptOrRemoved(Step(s, evs[0]), evs[1..], key);
    }
  }

  /** Absence before insertion: a key no event sets is not-found at every time. */
  lemma NeverSetIsNeverFound<K(!new), V>(evs: seq<Event<K, V>>, key: K, t: int)
    requires Admissible(Empty(), evs) && NeverSets(evs, key)
    ensures Lookup(Run(Empty(), evs), key, t) == None
  {
    UnsetKeyIsKeptOrRemoved(Empty(), evs, key);
  }

  /**
   Expiry: after `Set(key, value, ttl)` at `now`, and until the next `Set` of
   `key`, `Get(key)` at any time later than `now + ttl` is not-found, whatever
   deletions and timer firings happened in between.
   */
  lemma ExpiredIsNeverFound<K(!new), V>(s: CacheState<K, V>, key: K, value: V, ttl: int, now: int,
                                        evs: seq<Event<K, V>>, t: int)
    requires Admissible(AfterSet(s, key, value, ttl, now), evs) && NeverSets(evs, key)
    requires t > now + ttl
    ensures Lookup(Run(AfterSet(s, key, value, ttl, now), evs), key, t) == None
  {
    UnsetKeyIsKeptOrRemoved(AfterSet(s, key, value, ttl, now), evs, key);
  }

  /**
   Physical cleanup: in any run from a new cache, once every timer due by
   time `t` has fired, every entry still stored is live at `t`; an entry
   stale at `t` has been removed, not only hidden by `Get`.  This rests on
   each timer's deadline being exactly its entry's expiration.
   */
  lemma DueTimersLeaveNothingStale<K(!new), V>(evs: seq<Event<K, V>>, t: int)
    requires Admissible(Empty(), evs)
    requires forall j :: 0 <= j < |Run(Empty(), evs).pending| ==> Run(Empty(), evs).pending[j].0 > t
    ensures forall k :: k in Run(Empty(), evs).items ==> Lookup(Run(Empty(), evs), k, t) == Some(Run(Empty(), evs).items[k].value)
  {
    EmptyHasTimersArmed<K, V>();
    RunKeepsTimersArmed(Empty(), evs);
    NothingStaleOnceDueTimersFired(Run(Empty(), evs), t);
  }

  /**
   The race of delete-by-key timers, as a run on a new cache: `Set("a", 1, 10ms)` at 0,
   `Set("a", 2, 1000ms)` at 5ms; at 30ms the first timer fires and removes
   the value 2, so `Get("a")` is not-found although 2 expires only at 1005ms.
   */
  lemma RaceScenario()
    ensures var evs := [SetEvent("a", 1, 10_000_000, 0), SetEvent("a", 2, 1_000_000_000, 5_000_000)];
            && Admissible(Empty(), evs)
            && Lookup(Run(Empty(), evs), "a", 30_000_000) == Some(2)
            && Admissible(Empty(), evs + [FireEvent(0, 30_000_000)])
            && Lookup(Run(Empty(), evs + [FireEvent(0, 30_000_000)]), "a", 30_000_000) == None
  {
    var evs: seq<Event<string, int>> := [SetEvent("a", 1, 10_000_000, 0), SetEvent("a", 2, 1_000_000_000, 5_000_000)];
    var s0 := Empty<string, int>();
    var s1 := AfterSet(s0, "a", 1, 10_000_000, 0);
    var s2 := AfterSet(s1, "a", 2, 1_000_000_000, 5_000_000);
    assert s2.pending[0] == (10_000_000, "a");
    var s3 := AfterFire(s2, 0);
    var all := evs + [FireEvent(0, 30_000_000)];
    assert all[1..][1..] == [FireEvent(0, 30_000_000)];
    assert Run(s2, [FireEvent(0, 30_000_000)]) == s3;
    assert Run(s1, all[1..]) == s3;
    assert evs[1..][1..] == [];
    assert Run(s0, evs) == s2;
  }
}
