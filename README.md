# TTL cache, modelled in Dafny

This is a model of a small Go package, `cache`. The package is an in-memory key-value cache in which every entry has a time-to-live. A `Cache` holds a map from key to `Item{Value, Expiration}`. `New` returns an empty cache. `Set(key, value, ttl)` does three things:

- it stamps the entry with `Expiration = now + ttl`;
- it stores the entry, overwriting any earlier entry for that key;
- it arms a one-shot timer (`time.AfterFunc`) that calls `Delete(key)` once `ttl` has passed.

`Get(key)` returns not-found when the key is absent, or when the stored expiration is strictly before the current time. `Get` never removes anything. `Delete(key)` removes the key unconditionally.

The model has three modules:

- `CacheModel` (cache_model.dfy): the cache state as a value, `CacheState(items, pending)`. `items` maps each key to an `Item(value, expiration)`. `pending` is the list of armed timers, each a pair of fire time and key. The module gives the effect of each operation as a function: `Empty`, `Lookup`, `AfterSet`, `AfterDelete` and `AfterFire`. It also defines the invariant `TimersArmed`: every stored entry has a timer armed for its key at its expiration time. The one-step properties are proved here, including the race between timers.
- `CacheTraces` (cache_traces.dfy): runs, meaning sequences of `Set`, `Delete` and timer firings, each applied as one atomic step. This module holds the properties of whole runs: absence before insertion, expiry, physical cleanup once the due timers have fired (under the simplification that a timer's deadline is exactly the entry's expiration; see "## Left out"), and the race scenario on concrete values.
- `TtlCache` (cache.dfy): the class `Cache`, with the fields `items` and `pending` that its methods update in place. Every mutating method keeps `Valid()`. Its `ensures` equates the new `Model()` with the matching `CacheModel` transition applied to the old one. `Get` has no `modifies` clause, so it changes neither the map nor the timers, even when it meets an expired entry. `Fire(i, now)` stands for the runtime running the `i`-th timer's callback.

Time is an integer number of nanoseconds, passed to each operation as `now`. Keys and values are the type parameters `K` and `V`. The timer callback deletes by key only, as the Go code does: it does not check that the stored entry is the one it was armed for. `StaleTimerDeletesNewerValue`, `RaceScenario` and `RaceOnOneCache` state the consequence. An earlier `Set`'s timer deletes a later `Set`'s value before that value has expired.

`Get` tests `Expiration.Before(now)` (main.go:44), which is strict, so an entry whose expiration equals `now` is still returned.

## Model

| member | source | states |
|---|---|---|
| `CacheModel.Empty` | main.go:20-22 | a new cache answers not-found for every key at every time and has no timer armed |
| `CacheModel.Lookup` | main.go:38-48 | `Get` finds a value exactly when the key is present and its expiration is not before `now` (an expiration equal to `now` is found), and then returns the stored value |
| `CacheModel.AfterSet` | main.go:25-35 | `Set` stores exactly `Item(value, now + ttl)` under the key, leaves every other key's entry as it was, keeps the earlier timers in place and appends exactly one timer `(now + ttl, key)` |
| `CacheModel.AfterDelete` | main.go:51-53 | `Delete` leaves the key absent, leaves every other key's entry as it was, and cancels no timer |
| `CacheModel.AfterFire` | main.go:32-34 | a firing timer removes whatever entry is under its key, leaves other keys alone, and is consumed while the other timers stay in order |
| `CacheModel.LookupAfterSet` | main.go:26-47 | after `Set` at `now`, `Get` of that key at time `t` returns the value when `t <= now + ttl` and not-found otherwise |
| `CacheModel.ReadYourWrite` | main.go:28-47 | immediately after `Set`, `Get` returns the value when `ttl >= 0` and not-found when `ttl < 0` |
| `CacheModel.SetLeavesOtherKeys` | main.go:30 | `Set` on one key does not change what `Get` answers for any other key at any time |
| `CacheModel.SetOverwrites` | main.go:30 | a second `Set` on a key leaves the same map as if the first had never happened: it replaces the entry, it does not merge with it |
| `CacheModel.LookupAfterDelete` | main.go:51-53 | after `Delete(key)`, `Get(key)` is not-found at every time and other keys answer as before |
| `CacheModel.DeleteAbsentIsNoop` | main.go:52 | deleting an absent key changes nothing |
| `CacheModel.DeleteIdempotent` | main.go:52 | a second `Delete` of the same key changes nothing |
| `CacheModel.EmptyHasTimersArmed` | main.go:20-22 | a new cache satisfies the invariant that every entry has its timer armed |
| `CacheModel.SetKeepsTimersArmed` | main.go:26-34 | `Set` keeps that invariant: the new entry's timer is armed at its own expiration, and the other entries' timers stay |
| `CacheModel.DeleteKeepsTimersArmed` | main.go:51-53 | `Delete` keeps that invariant |
| `CacheModel.FireKeepsTimersArmed` | main.go:32-34 | a firing timer keeps that invariant: its own key is gone, and no other entry loses its timer |
| `CacheModel.NothingStaleOnceDueTimersFired` | main.go:28-34 | with the invariant, once no timer due by `t` is left, every stored entry is still found at `t`: stale entries have been physically removed (this relies on a timer's deadline being exactly its entry's expiration) |
| `CacheModel.StaleTimerDeletesNewerValue` | main.go:30-34 | after `Set(k, v1, ttl1)` then `Set(k, v2, ttl2)`, while `v2` is unexpired `Get` finds `v2`, but once the first timer fires `Get` is not-found |
| `CacheTraces.StepKeepsTimersArmed` | main.go:25-53 | every `Set`, `Delete` and timer firing keeps every entry's timer armed |
| `CacheTraces.RunKeepsTimersArmed` | main.go:25-53 | every run of such steps keeps every entry's timer armed |
| `CacheTraces.UnsetKeyIsKeptOrRemoved` | main.go:30-53 | in a run with no `Set` of a key, that key either keeps its starting entry unchanged or ends up absent |
| `CacheTraces.NeverSetIsNeverFound` | main.go:20-42 | in any run from a new cache, a key that no `Set` names is not-found at every time |
| `CacheTraces.ExpiredIsNeverFound` | main.go:26-46 | after `Set(key, value, ttl)` at `now`, and until the next `Set` of that key, `Get(key)` at any time after `now + ttl` is not-found, whatever deletions and firings come between |
| `CacheTraces.DueTimersLeaveNothingStale` | main.go:28-34 | in any run from a new cache, once every timer due by `t` has fired, every entry still stored is live at `t` (this relies on a timer's deadline being exactly its entry's expiration) |
| `CacheTraces.RaceScenario` | main.go:25-47 | `Set("a", 1, 10ms)` at 0, then `Set("a", 2, 1000ms)` at 5ms: at 30ms `Get("a")` returns 2, and after the first timer fires at 30ms it is not-found |
| `TtlCache.Cache.constructor` | main.go:20-22 | `New` yields the empty state, with the invariant established |
| `TtlCache.Cache.Set` | main.go:25-35 | the new state is `AfterSet` of the old one; the invariant is kept |
| `TtlCache.Cache.Get` | main.go:38-48 | returns the value exactly when the key is present and its expiration is not before `now`, otherwise not-found; it modifies nothing |
| `TtlCache.Cache.Delete` | main.go:51-53 | the new state is `AfterDelete` of the old one; the invariant is kept |
| `TtlCache.Cache.Fire` | main.go:32-34 | a due timer's callback: the new state is `AfterFire` of the old one; the invariant is kept |
| `TtlCache.RaceOnOneCache` | main.go:25-53 | on one cache object, the race scenario: `Get` finds the second value before the first timer fires and nothing after |

## Left out

- Thread safety of `sync.Map` and linearizability under concurrent callers are not modelled. Each operation is one atomic step on a plain map.
- `time.Now()` and the goroutine behind `time.AfterFunc` are not modelled. The current time is the parameter `now`. A timer is an entry of `pending` that fires when a caller runs `Fire`, and `Fire` requires only that the timer's time has come.
- The runtime's promise that every timer eventually fires is not modelled (a liveness property). Physical cleanup is stated conditionally: once the due timers have fired (`NothingStaleOnceDueTimersFired`, `DueTimersLeaveNothingStale`).
- A timer's fire time is taken to be exactly `now + ttl`. In Go, `AfterFunc` (main.go:32) starts counting a moment after `time.Now()` was read for the expiration (main.go:28).
- NothingStaleOnceDueTimersFired and DueTimersLeaveNothingStale depend on that exact fire time. In Go, between an entry's expiration and its timer's deadline the stale entry is still stored with no timer due yet, so these two lemmas do not hold of the Go timing in that window.
- Go's `interface{}` values and the `item.(Item)` type assertion are not modelled. Keys and values are type parameters instead.
- The wall-clock versus monotonic distinction of `time.Time` is not modelled, and neither is overflow in `time.Time.Add`. Time is an unbounded integer.
