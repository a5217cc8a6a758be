# Zoic in-memory LRU cache and performance counters, in Dafny

This project models two parts of the Zoic response cache:

- **The LRU cache** that the repository's LRU tests drive:
  - a lookup table from key to list node (`cache`);
  - a doubly linked recency list with `head` (most recently used) and `tail` (least recently used), linked by `prev`/`next`;
  - an entry counter (`length`).

  `put` inserts at the head and evicts from the tail once more than `capacity` entries are live. `get` moves a live entry to the head, while an expired entry is unlinked and reported absent. `delete` unlinks an entry and relinks its neighbours.
- **`PerfMetrics`**, the per-cache counter object. It tracks:
  - the entry count and the bytes used;
  - reads and writes;
  - the last and the total hit latency, and the same for misses.

  `updateLatency` accepts only the tags `hit` and `miss`; any other tag throws a `TypeError`.

The modules are:

- `Recency` (recency.dfy) is the meaning of the cache as a value. It is the list of live entries from head to tail. `Put`, `Get`, `Remove` and `MoveToFront` are defined on that list, and lemmas state what each of them does to the lookup table and to the order.
- `Arena` (arena.dfy) covers the linked structure. Nodes sit in slots and refer to each other by integer handles, with `Nil` meaning null. The lemmas show that unlinking a node and pushing a node at the head keep the forward and backward links in agreement, and keep the table and the list in agreement. `WalkForward` and `WalkBackward` follow `next` from the head and `prev` from the tail.
- `Lru` (lru.dfy) is the class `LruCache`. It holds the table, `head`, `tail`, `length` and the slots in fields that its methods update. `Put`, `Get` and `Delete` are proved to change `Contents()`, the head-to-tail entry list, exactly as `Recency.Put`, `Recency.Get` and `Recency.Remove` do. The read-only `Lookup`, `KeysFromHead` and `KeysFromTail` are proved to agree with `Contents()`. These six, and `AddNew`, `EvictTail` and `MoveToHead`, keep the invariant `Valid()`:
  - the links agree both ways;
  - the table maps exactly the listed keys to their nodes;
  - `length` equals the number of listed entries, which is at most `capacity`.

  The steps `put` is built from (`Discard`, `Allocate`, `LinkHead`, `InsertHead`) keep only `Sound()`, which is `Valid()` without the capacity bound: the list may hold one entry too many until `EvictTail` runs. The lowest-level link updates `Unlink` and `PushFront` require only the link agreement and state their effect on the slots, `head`, `tail` and the ghost list of handles; `Arena.UnlinkSpec` and `Arena.PushFrontSpec` prove the links agree afterwards, and the table and `length` are repaired by their callers.
- `LruScenarios` (scenarios.dfy) replays each test case of src/tests/lru_test.ts on a `LruCache`. After every call it states the resulting head-to-tail list, the keys seen walking from either end, and the table lookups the test checks.
- `Metrics` (metrics.dfy) is the class `PerfMetrics`. Each method is tied to a pure `Step` on a `Counters` snapshot. `Run` folds `Step` over a sequence of calls, and lemmas about `Step` and `Run` give the frame conditions, the round trips and the totals.

## How the constructor is read

`new LRU(a, metrics, b)` is modelled as `LruCache(ttl := a, capacity := b)`:

- `a` is a time to live in seconds. An entry put at instant `now` (in ms) expires from `now + 1000 * a`.
- `b` is the number of entries kept live.

Reading the first argument as a byte capacity contradicts the tests:

- `new LRU(50, …, 6)` ends holding six 10-byte entries (src/tests/lru_test.ts:7, 98-104).
- `new LRU(1, …, 8)` returns a fresh 10-byte entry (src/tests/lru_test.ts:119-127) and loses it after 1001 ms.

The model follows the tests.

## Model

| member | source | states |
|---|---|---|
| Lru.LruCache.constructor | src/tests/lru_test.ts:7 | a new cache is empty: no entries, `head` and `tail` null, empty table, `length` 0, with the given TTL and entry capacity |
| Lru.LruCache.Put | src/tests/lru_test.ts:10-22 | `put` changes the head-to-tail entry list exactly as `Recency.Put` does (drop an older entry with that key, insert at the head with expiry `now + 1000*ttl`, evict from the tail beyond capacity) and keeps table, links and length consistent and within capacity |
| Lru.LruCache.AddNew | src/tests/lru_test.ts:78-93 | inserting a key not in the table puts it at the head, then trims the list to the capacity from the tail |
| Lru.LruCache.InsertHead | src/tests/lru_test.ts:78-82 | a new node for a key not in the table becomes the head, in front of the unchanged old list |
| Lru.LruCache.LinkHead | src/tests/lru_test.ts:78-82 | linking a free node at the head prepends its entry to the list and maps its key to that node in the table |
| Lru.LruCache.Allocate | src/tests/lru_test.ts:10-14 | a new node gets a fresh handle outside the list; the listed entries do not change |
| Lru.LruCache.EvictTail | src/tests/lru_test.ts:85-104 | with one entry over capacity, removing the tail leaves exactly the first `capacity` entries, in order, and restores `length <= capacity` |
| Lru.LruCache.Get | src/tests/lru_test.ts:26-38 | `get` returns what `Recency.Get` returns and leaves the list it describes: a live entry's value, moved to the head; nothing for a missing key (no change); nothing for an expired entry, which is unlinked |
| Lru.LruCache.MoveToHead | src/tests/lru_test.ts:26-33 | moving a listed node to the head gives `MoveToFront` of the list and leaves the table unchanged |
| Lru.LruCache.Delete | src/tests/lru_test.ts:41-75 | `delete` removes the key's entry from the list and the table and keeps the others in order; an absent key changes nothing |
| Lru.LruCache.Discard | src/tests/lru_test.ts:41-75 | unlinking the node at list position `i` removes position `i` from the list and its key from the table, keeping the node's slot out of the list |
| Lru.LruCache.Unlink | src/tests/lru_test.ts:41-75 | unlinking relinks the neighbours (`prev.next`, `next.prev`) and moves `head`/`tail` when the node was at an end |
| Lru.LruCache.PushFront | src/tests/lru_test.ts:78-82 | pushing a node at the head links it before the old head and makes it the tail too when the list was empty |
| Lru.LruCache.Lookup | src/tests/lru_test.ts:15-19 | reading `cache[key]` through the table yields exactly the list's entry for that key, or nothing |
| Lru.LruCache.KeysFromHead | src/tests/lru_test.ts:28-33 | following `next` from `head` visits the listed keys head to tail and ends at null |
| Lru.LruCache.KeysFromTail | src/tests/lru_test.ts:105-110 | following `prev` from `tail` visits the reverse of following `next` from `head` |
| Lru.LruCache.ContentsUnique | src/tests/lru_test.ts:15-19 | no key is listed twice, and a key is in the table exactly when it is in the list |
| Arena.WalkForward | src/tests/lru_test.ts:28-33 | the forward walk over consistent links returns the keys of the listed nodes in list order |
| Arena.WalkBackward | src/tests/lru_test.ts:105-110 | the backward walk over consistent links returns the reversed key list |
| Arena.UnlinkSpec | src/tests/lru_test.ts:41-75 | unlinking any listed node from consistent links gives consistent links for the list without it, with `head`/`tail` moved only when it was at an end |
| Arena.DiscardSpec | src/tests/lru_test.ts:41-75 | unlinking a node and dropping its key from the table keeps links and table consistent, and the entries become the old entries without that position |
| Arena.PushFrontSpec | src/tests/lru_test.ts:78-82 | pushing a free node at the head keeps links consistent and prepends its entry |
| Arena.InsertSpec | src/tests/lru_test.ts:78-82 | pushing a free node for a new key and adding it to the table keeps links and table consistent |
| Arena.IndexedLookup | src/tests/lru_test.ts:15-19 | in a consistent structure, listed keys are unique and the table maps a key exactly to the node where the list holds it |
| Recency.Put | src/tests/lru_test.ts:10-22 | `put` as a value: the list never exceeds the capacity, grows by at most one, and for a positive capacity starts with the new entry; `PutSpec`, `PutFreshBelowCapacity`, `PutFreshAtCapacity` and `PutAllKeepsNewest` give the rest |
| Recency.Get | src/tests/lru_test.ts:26-38 | `get` as a value: the list never grows; a returned value comes from a live entry with that key, now at the head, with the length unchanged; a missing key changes nothing; `GetSpec`, `GetLive` and `GetExpired` give the rest |
| Recency.Remove | src/tests/lru_test.ts:41-75 | `delete` as a value: the list shrinks by one exactly when the key is present; `RemoveSpec` gives the lookups |
| Recency.MoveToFront | src/tests/lru_test.ts:26-33 | moving position `i` to the head keeps the length and puts that entry first; `MoveToFrontSpec` gives the multiset and the lookups |
| Metrics.Step | src/performanceMetrics.ts:27-47 | the effect of one call on the counters; the only error is `TypeError('Hit or miss not specified')`, and `StepFrame` gives when it occurs and which fields a call writes |
| Metrics.Run | src/performanceMetrics.ts:27-47 | a sequence of calls, stopping at the first throw; the only error it ends with is the unknown-tag `TypeError`, and `RunThrows`, `RunTotals` and `RunEntries` give the rest |
| Recency.RemoveSpec | src/tests/lru_test.ts:41-75 | after `delete(k)`, `k` is gone, every other key looks up the same entry, keys stay unique, and the length drops by one exactly when `k` was present |
| Recency.PutSpec | src/tests/lru_test.ts:10-22 | after `put`, keys are unique, the length is within capacity, and the new entry is the head and what its key looks up |
| Recency.PutFreshBelowCapacity | src/tests/lru_test.ts:78-82 | a new key put below capacity goes in front of the unchanged list |
| Recency.PutFreshAtCapacity | src/tests/lru_test.ts:86-93 | a new key put at capacity goes in front and pushes out exactly the old tail |
| Recency.PutAllKeepsNewest | src/tests/lru_test.ts:85-104 | a run of puts of distinct keys leaves exactly the most recent `capacity` keys, newest first |
| Recency.MoveToFrontSpec | src/tests/lru_test.ts:26-38 | moving an entry to the head keeps the same entries (as a multiset), unique keys and every lookup |
| Recency.GetSpec | src/tests/lru_test.ts:26-38 | `get` returns the live looked-up value or nothing, keeps keys unique and never grows the list |
| Recency.GetLive | src/tests/lru_test.ts:26-38 | `get` of a live key returns its value, puts its entry at the head with the rest in their old order, and changes no lookup |
| Recency.GetExpired | src/tests/lru_test.ts:121-123 | `get` of an expired key returns nothing and removes its entry |
| Recency.PutThenGet | src/tests/lru_test.ts:117-127 | a `get` right after a `put` returns the value before its expiry and nothing from then on, leaving the rest of the list |
| LruScenarios.AddsNewItems | src/tests/lru_test.ts:7-22 | five puts into `LRU(50, 6)` leave item5..item1 head to tail, each key mapped to its value, `length` 5 |
| LruScenarios.FiveItemsLookedUp | src/tests/lru_test.ts:15-19 | each of the five items looks up its own body |
| LruScenarios.GetsItem3 | src/tests/lru_test.ts:26 | `get('item3')` on item5..item1 returns item3's value and gives item3, item5, item4, item2, item1 |
| LruScenarios.GetsAndMovesToHead | src/tests/lru_test.ts:25-39 | after `get('item3')` the list is item3, item5, item4, item2, item1 and the head holds the returned value |
| LruScenarios.DeletesFront | src/tests/lru_test.ts:41-53 | deleting the head leaves item5, item4, item2, item1 and removes item3 from the table |
| LruScenarios.FourItemsSeen | src/tests/lru_test.ts:44-52 | both walks and the four lookups agree with item5, item4, item2, item1 |
| LruScenarios.DeletesEnd | src/tests/lru_test.ts:55-65 | deleting the tail leaves item5, item4, item2 |
| LruScenarios.ThreeItemsWalked | src/tests/lru_test.ts:58-64 | both walks and the lookups agree with item5, item4, item2 |
| LruScenarios.DeletesMiddle | src/tests/lru_test.ts:67-75 | deleting a middle key leaves item5, item2 |
| LruScenarios.AddsAfterDeletes | src/tests/lru_test.ts:77-83 | putting item666 after the deletes gives item666, item5, item2 and nothing after the tail |
| LruScenarios.EvictsOverCapacity | src/tests/lru_test.ts:85-93 | eight more puts into a 6-entry cache leave item99, item90, item80, item70, item60, item50 |
| LruScenarios.EvictionsSeen | src/tests/lru_test.ts:94-114 | the evicted item30 and item40 look up nothing |
| LruScenarios.EvictionsLookedUp | src/tests/lru_test.ts:94-114 | the table returns nothing for item30 and item40 and the put bodies for the survivors |
| LruScenarios.EvictionsWalked | src/tests/lru_test.ts:98-110 | following `next` from the head gives item99..item50, and following `prev` from the tail gives item50..item99 |
| LruScenarios.SharedCacheTests | src/tests/lru_test.ts:6-115 | the shared-cache test cases run in order on one cache |
| LruScenarios.ExpiresEntry | src/tests/lru_test.ts:117-128 | with a 1-second TTL, `get` 1001 ms after a `put` returns nothing and leaves the list empty; a later put is returned 99 ms after it |
| Metrics.PerfMetrics.constructor | src/performanceMetrics.ts:15-25 | a new object has cache type LRU and every counter 0 |
| Metrics.PerfMetrics.AddEntry | src/performanceMetrics.ts:27 | `addEntry` returns the old entry count, adds one to it and changes no other field |
| Metrics.PerfMetrics.DeleteEntry | src/performanceMetrics.ts:28 | `deleteEntry` returns the old entry count, subtracts one and changes no other field |
| Metrics.PerfMetrics.ReadProcessed | src/performanceMetrics.ts:29 | `readProcessed` returns the old read count, adds one and changes no other field |
| Metrics.PerfMetrics.WriteProcessed | src/performanceMetrics.ts:30 | `writeProcessed` returns the old write count, adds one and changes no other field |
| Metrics.PerfMetrics.ClearEntries | src/performanceMetrics.ts:31 | `clearEntires` sets the entry count to 0, returns 0 and changes no other field |
| Metrics.PerfMetrics.IncreaseBytes | src/performanceMetrics.ts:32 | `increaseBytes(n)` adds `n` to the bytes used, returns the new value and changes no other field |
| Metrics.PerfMetrics.DecreaseBytes | src/performanceMetrics.ts:33 | `decreaseBytes(n)` subtracts `n` from the bytes used, returns the new value and changes no other field |
| Metrics.PerfMetrics.UpdateLatency | src/performanceMetrics.ts:34-47 | `hit` adds to the hit total and sets the current hit latency; `miss` does the same for misses; any other tag throws `TypeError('Hit or miss not specified')` and changes nothing |
| Metrics.StepFrame | src/performanceMetrics.ts:27-47 | a call throws exactly when it is a latency update with an unknown tag, and a call that returns writes only its own fields |
| Metrics.BytesRoundTrip | src/performanceMetrics.ts:32-33 | `increaseBytes(n)` then `decreaseBytes(n)`, in either order, restores every counter |
| Metrics.EntriesRoundTrip | src/performanceMetrics.ts:27-28 | `addEntry` then `deleteEntry`, in either order, restores every counter |
| Metrics.ClearIdempotent | src/performanceMetrics.ts:31 | clearing twice is the same as clearing once, and it leaves the entry count 0 |
| Metrics.RunThrows | src/performanceMetrics.ts:34-47 | a sequence of calls throws exactly when one of its latency tags is neither `hit` nor `miss` |
| Metrics.RunTotals | src/performanceMetrics.ts:29-44 | after calls that do not throw, each latency total, the bytes used and the read and write counts equal their start plus what the calls added |
| Metrics.RunEntries | src/performanceMetrics.ts:27-28 | after calls without `clearEntires`, the entry count is the start plus additions minus deletions |
| Metrics.IncreaseThenDecrease | src/performanceMetrics.ts:32-33 | on the object, `increaseBytes(n)` followed by `decreaseBytes(n)` leaves every field as it was |
| Metrics.ClearTwice | src/performanceMetrics.ts:31 | on the object, clearing twice leaves the entry count 0 and every other field, `cacheType` included, as it was |

## Left out

- src/lru.ts, the cache's own implementation, is not part of this model. The cache is reconstructed from what the tests assert about `cache`, `list.head`/`list.tail`, `prev`/`next` and `length`.
- The calls the cache makes into its `PerfMetrics` (entry, byte, read, write and latency bookkeeping) are not modelled. That wiring is in src/lru.ts, and no test asserts it.
- Node references become integer handles into a `seq` of nodes held in a field, not JavaScript objects or a Dafny `array`. Each link update replaces the whole sequence value rather than writing one node object in place. Nodes are allocated by appending, and an unlinked node stays in the sequence, unreachable, as a collected object would in JavaScript. Aliasing between node objects is therefore not modelled.
- Lru.LruCache.Put: putting a key that is already present is modelled as delete-then-insert at the head with the new value. No test exercises it, so this behaviour is a choice.
- The expiry boundary is a choice: an entry counts as expired from `putTime + 1000 * ttl` ms inclusive. The tests only pin 1001 ms as expired and 99 ms as live for a 1-second TTL.
- Eviction by a byte budget is not modelled. The per-entry size is carried as data, and eviction counts entries only, which is what the tests show.
- Wall-clock waiting (`setTimeout`/`await`) is replaced by an explicit `now` parameter in milliseconds.
- Cached values are opaque. The scenarios use a body and status pair, and `headers` is dropped.
- Numbers are unbounded integers. Floating-point latencies and byte counts are not modelled.
- The LFU and Redis back ends named by `cacheType` are not modelled: their code is not part of this model, and Redis is a network client.
- The Deno test harness (`describe`/`it`, the std assertion imports) is test plumbing and is not modelled. Each `it` block becomes a method, and those methods are chained on one cache as the shared `lru` is.
