# easycache in Dafny

A model of easycache, an in-memory key-value cache for Go with four eviction
strategies behind one engine contract, and of the `Cache` front end that picks an
engine from its configuration, keeps hit and miss counters, makes room before a
size-limited Set, and watches memory.

- **FIFO** (`fifo.dfy`). A map plus a list of keys in insertion order. Evict drops
  the oldest key.
- **LRU** (`lru.dfy`). A map plus a list of keys, most recent first. Get and Set move
  a key to the front. Evict drops the back.
- **LFU** (`lfu.dfy`). A map of items `(value, frequency, index)` plus a binary
  min-heap of keys ordered by frequency. Get and Set of an existing key raise its
  frequency and fix the heap. Evict pops the least frequently used key. The heap
  operations are Go's `container/heap` algorithm (push, pop, remove, fix, up,
  down). They are written twice:
  - as pure functions on a `State` value (`Raised`, `Sunk`, `Settled`, `Pushed`,
    `Popped`, `Removed`, `Fixed`);
  - as methods with loops on the `LFU` class (`Up`, `Down`, `HeapPush`, ...), each
    proved equal to its function.

  The heap order itself is stated on plain frequency sequences in `heaporder.dfy`.
- **Basic** (`basic.dfy`). A map of items with an expiry instant. It is the only
  strategy that expires items:
  - Get and Has find an item up to and including its expiry instant;
  - Len counts only items whose expiry is strictly later;
  - Evict sweeps items whose expiry is strictly earlier.
- **Engine** (`engine.dfy`). The engine contract. A `Snapshot` holds the state of any
  of the four engines, and the contract is stated once on it: `Contents` is what Get
  finds at `now`, and `AfterGet`, `AfterSet`, ... give the new state. The `Engine`
  datatype holds the concrete object, dispatches each call to it, and is proved
  against `Snapshot`.
- **Cache** (`cache.dfy`, `config.dfy`, `metrics.dfy`).
  - The configuration and its defaults. A non-positive cleanup interval is replaced
    by the default.
  - Engine selection.
  - Get with hit and miss counting.
  - Set, which makes room for a new key in a full FIFO, LRU or LFU cache and gives
    a Basic item the configured time to live.
  - Delete, Has, Len and Evict.
  - The memory watch.

  The invariant `Cache.Fits` holds between calls: the engine is well formed, it
  matches the configured policy, and a size-limited FIFO, LRU or LFU cache never
  holds more than MaxSize items.
- **Scenarios** (`scenarios.dfy`). The repository's engine tests, stated as lemmas on
  concrete states.

Time is the integer parameter `now` (nanoseconds). Each call reads it once. Memory
readings are the `alloc` fields of a sequence of `Tick`s.

## Model

| member | source | states |
|---|---|---|
| KeyList.Without | lru/lru.go:74-85 | Removing a key from a key list keeps every other key. It removes all occurrences of that key. With no duplicates, the length drops by exactly one when the key was there. |
| KeyList.WithoutAt | fifo/fifo.go:69-80 | In a duplicate-free list, removing the key at position i is the list with that one position cut out. |
| KeyList.ToFront | lru/lru.go:40-53 | Moving a key to the front puts it first. No key is lost or added. No duplicates arise. |
| KeyList.KeyCount | fifo/fifo.go:90-94 | A duplicate-free key list has as many entries as the set of keys it lists. So the list length is the map size. |
| Fifo.EmptyInv | fifo/fifo.go:31-37 | New starts with an empty map and an empty eviction list, and these agree. |
| Fifo.SetContract | fifo/fifo.go:51-63 | Set makes Get return the new value and leaves every other key alone. An existing key keeps its place in the order. A new key joins the end of the eviction list, and the size grows by one. |
| Fifo.DeleteContract | fifo/fifo.go:69-80 | Delete of an absent key changes nothing. Otherwise it removes exactly that key from the map and its one position from the list. Every other value is kept. |
| Fifo.EvictContract | fifo/fifo.go:104-118 | Evict on an empty cache changes nothing. Otherwise it removes the first-inserted key, which is in the map, and nothing else. |
| Fifo.FIFO.constructor | fifo/fifo.go:31-37 | New gives an empty cache with the given maximum size. |
| Fifo.FIFO.Get | fifo/fifo.go:39-49 | Get finds a value exactly when the key is stored, and returns the stored value. |
| Fifo.FIFO.Set | fifo/fifo.go:51-63 | The new state is `AfterSet` of the old one, and the invariant is kept. |
| Fifo.FIFO.SetWithTTL | fifo/fifo.go:65-67 | The expiry is ignored: the same as Set. |
| Fifo.FIFO.Delete | fifo/fifo.go:69-80 | The new state is `AfterDelete` of the old one, and the invariant is kept. |
| Fifo.FIFO.Has | fifo/fifo.go:82-88 | Has is true exactly when the key is stored. |
| Fifo.FIFO.Len | fifo/fifo.go:90-94 | Len is the map size, which equals the eviction-list length. |
| Fifo.FIFO.IsExpirable | fifo/fifo.go:96-98 | FIFO never expires items. |
| Fifo.FIFO.IsExpired | fifo/fifo.go:100-102 | No key is ever expired. |
| Fifo.FIFO.Evict | fifo/fifo.go:104-118 | The new state is `AfterEvict` of the old one, and the invariant is kept. |
| Lru.GetContract | lru/lru.go:40-53 | Get of an absent key returns nothing and changes nothing. Get of a stored key returns its value and moves it to the front. The contents are unchanged. |
| Lru.SetContract | lru/lru.go:55-68 | Set stores the value and puts the key first. An existing key leaves its old place. A new key pushes the rest back, and the size grows by one. |
| Lru.DeleteContract | lru/lru.go:74-85 | Delete of an absent key changes nothing. Otherwise it removes exactly that key from the map and its one position from the list. |
| Lru.EvictContract | lru/lru.go:102-116 | Evict on an empty cache changes nothing. Otherwise it removes the least recently used key, the back of the list, and nothing else. |
| Lru.LRU.constructor | lru/lru.go:32-38 | New gives an empty cache with the given maximum size. |
| Lru.LRU.Get | lru/lru.go:40-53 | Get returns `Lookup` of the old state and leaves `AfterGet` of it. |
| Lru.LRU.Set | lru/lru.go:55-68 | The new state is `AfterSet` of the old one, and the invariant is kept. |
| Lru.LRU.SetWithTTL | lru/lru.go:70-72 | The expiry is ignored: the same as Set. |
| Lru.LRU.Delete | lru/lru.go:74-85 | The new state is `AfterDelete` of the old one. |
| Lru.LRU.Has | lru/lru.go:87-93 | Has is true exactly when the key is stored, and it does not touch the order. |
| Lru.LRU.Len | lru/lru.go:95-100 | Len is the map size, which equals the list length. |
| Lru.LRU.Evict | lru/lru.go:102-116 | The new state is `AfterEvict` of the old one. |
| Lru.LRU.IsExpirable | lru/lru.go:118-120 | LRU never expires items. |
| Lru.LRU.IsExpired | lru/lru.go:122-124 | No key is ever expired. |
| HeapOrder.Swap | lfu/lfu.go:118-122 | A swap exchanges two positions, keeps the rest, and is a permutation. |
| HeapOrder.RiseStep | lfu/lfu.go:124-129 | One step of `up`: swapping a smaller child with its parent moves the single order violation one level up. |
| HeapOrder.RiseStop | lfu/lfu.go:124-129 | When `up` stops at the root or under a parent that is not larger, the heap is ordered. |
| HeapOrder.SinkStep | lfu/lfu.go:131-137 | One step of `down`: swapping a parent with its smaller child moves the violation one level down. That child's edge is then in order. |
| HeapOrder.SinkStop | lfu/lfu.go:131-137 | When `down` stops because no child is smaller, only an upward violation can remain. |
| HeapOrder.HoleAt | lfu/lfu.go:72-80 | Overwriting one slot of an ordered heap leaves at most one violation around it. |
| HeapOrder.AppendedRises | lfu/lfu.go:124-129 | Appending to an ordered heap leaves at most one violation, at the new last slot. |
| HeapOrder.LastIntoHole | lfu/lfu.go:131-137 | Swapping the last element into slot i and dropping it leaves at most one violation, at i. |
| HeapOrder.RootIsMinimal | lfu/lfu.go:99-106 | In an ordered heap the root is no larger than any element. |
| HeapOrder.OrderedShorter | lfu/lfu.go:131-137 | Dropping the last element keeps a heap ordered. |
| Lfu.Freqs | lfu/lfu.go:114-116 | The heap's frequency sequence: slot i holds the frequency of the item keyed at slot i. |
| Lfu.Swapped | lfu/lfu.go:118-122 | The heap's Swap exchanges two keys. Every item's index follows its key, and the key set is unchanged. |
| Lfu.SwappedSame | lfu/lfu.go:118-122 | Swap changes no value and no frequency. |
| Lfu.SwappedPlaced | lfu/lfu.go:118-122 | After a swap every item's index still names its heap slot. |
| Lfu.SwappedFreqs | lfu/lfu.go:118-122 | The frequency sequence is swapped the same way. |
| Lfu.Raised | lfu/lfu.go:124-129 | `up` moves keys only within the heap and keeps its size and key set. |
| Lfu.SmallerChild | lfu/lfu.go:131-137 | The child `down` compares against is a child of i, inside the heap. |
| Lfu.Sunk | lfu/lfu.go:131-137 | `down` keeps the size. It stops at or after i and before n, and it reports a move only when it swapped something. |
| Lfu.Settled | lfu/lfu.go:72-80 | Fixing a slot (down, then up if nothing moved) keeps the size. |
| Lfu.Appended | lfu/lfu.go:124-129 | The heap's Push appends the key with index n, and appends its frequency to the sequence. |
| Lfu.TakeLast | lfu/lfu.go:131-137 | The heap's Pop returns the last key and shortens the slice by exactly it. |
| Lfu.RaisedOrders | lfu/lfu.go:124-129 | `up` from the single violation gives an ordered heap. |
| Lfu.SunkOrders | lfu/lfu.go:131-137 | `down` from the single violation leaves either a heap that `up` must finish, when nothing moved, or an ordered heap. |
| Lfu.SmallerChildLeast | lfu/lfu.go:131-137 | The chosen child has the least frequency among i's children. |
| Lfu.SinkRound | lfu/lfu.go:131-137 | One round of `down` on the item model keeps the single-violation shape. |
| Lfu.SettledOrders | lfu/lfu.go:72-80 | Fix from a single violation gives an ordered heap. |
| Lfu.RaisedPlaced | lfu/lfu.go:118-122 | `up` keeps every item's index equal to its slot. |
| Lfu.SunkPlaced | lfu/lfu.go:118-122 | `down` keeps every item's index equal to its slot. |
| Lfu.RaisedSame | lfu/lfu.go:124-129 | `up` changes no value or frequency. |
| Lfu.SunkSame | lfu/lfu.go:131-137 | `down` changes no value or frequency. |
| Lfu.SettledSame | lfu/lfu.go:72-80 | Fix changes no value or frequency. |
| Lfu.RaisedTail | lfu/lfu.go:124-129 | `up` from slot j leaves the slots after j untouched. |
| Lfu.SunkTail | lfu/lfu.go:131-137 | `down` within the first n slots leaves the slots from n on untouched. |
| Lfu.SettledPlaced | lfu/lfu.go:72-80 | Fix keeps every index equal to its slot. |
| Lfu.DropLast | lfu/lfu.go:131-137 | Taking the last key off a heap whose prefix is ordered, and dropping its map entry, gives a valid LFU state. |
| Lfu.PoppedContract | lfu/lfu.go:99-106 | heap.Pop returns the root key and keeps every item. Dropping it from the map gives a valid state. |
| Lfu.LastSettledPlaced | lfu/lfu.go:72-80 | Moving the last key into slot i and fixing i keeps the indices right. |
| Lfu.LastSettledSame | lfu/lfu.go:72-80 | That move changes no item, and it leaves the removed key in the last slot. |
| Lfu.LastSettledOrdered | lfu/lfu.go:72-80 | That move leaves the shortened heap ordered. |
| Lfu.SwappedLast | lfu/lfu.go:72-80 | Swapping slot i with the last slot leaves a single violation at i. |
| Lfu.RemovedContract | lfu/lfu.go:72-80 | heap.Remove at slot i returns the key that was there and keeps every item. Dropping that key gives a valid state. |
| Lfu.InvWellFormed | lfu/lfu.go:18-29 | A valid state has a map and a heap that list the same keys. |
| Lfu.EmptyInv | lfu/lfu.go:31-40 | New gives a valid empty state. |
| Lfu.AccessedFixed | lfu/lfu.go:42-52 | Raising a stored key's frequency by one, optionally with a new value, and fixing its slot gives a valid state. Only that key's count and value change. |
| Lfu.AccessedPlaced | lfu/lfu.go:42-52 | Changing a stored item's value or frequency keeps the indices right. |
| Lfu.PushedInv | lfu/lfu.go:60-65 | Pushing a new key keeps the state valid and adds exactly that key with its value and frequency. |
| Lfu.GetContract | lfu/lfu.go:42-52 | Get finds exactly the stored keys and returns their value. Get of a stored key raises its frequency by one, and nothing else changes. A miss changes nothing. |
| Lfu.SetContract | lfu/lfu.go:54-66 | Set stores the value and keeps the state valid. An existing key's frequency rises by one, and a new key starts at 1. |
| Lfu.DroppedKey | lfu/lfu.go:72-80 | Dropping a key from the map drops it from the contents and the counts. |
| Lfu.DeleteContract | lfu/lfu.go:72-80 | Delete removes exactly that key and keeps the state valid. |
| Lfu.RootLeast | lfu/lfu.go:99-106 | In a non-empty valid state the root key is stored and has the least frequency of all. |
| Lfu.EvictContract | lfu/lfu.go:99-106 | Evict on an empty cache changes nothing. Otherwise it removes one key of least frequency, and only it. |
| Lfu.PlacedSizes | lfu/lfu.go:87-89 | When every index names its slot, the map and the heap have the same size. |
| Lfu.SetThenGetA | tests/lfu_test.go:25-37 | Set then Get of A in an empty cache gives A with frequency 2 at the root. |
| Lfu.SetCAsWritten | lfu/lfu.go:54-66 | The as-written Set leaves the new key C at the root, but with index 1. |
| Lfu.DeleteCAfterDefect | lfu/lfu.go:72-80 | Delete of C in that state removes A's heap slot and keeps C's. |
| Lfu.AfterSetAsWritten | lfu/lfu.go:54-66 | Set as written is the corrected Set for a key already stored. For a new key it differs only in the key's recorded index, which it sets to the last slot. |
| Lfu.SetAsWrittenBreaksDelete | lfu/lfu.go:64 | Set A, Get A, Set C, Delete C with the as-written Set: Get C still finds nothing, but the heap keeps C and loses A. |
| Lfu.LFU.constructor | lfu/lfu.go:31-40 | New gives a valid empty LFU with the given maximum size. |
| Lfu.LFU.Child | lfu/lfu.go:131-137 | The child chosen in `down` is `SmallerChild`. |
| Lfu.LFU.Swap | lfu/lfu.go:118-122 | The new state is `Swapped` of the old one. |
| Lfu.LFU.PushLast | lfu/lfu.go:124-129 | The new state is `Appended` of the old one. |
| Lfu.LFU.PopLast | lfu/lfu.go:131-137 | The new state and the returned key are `TakeLast` of the old state. |
| Lfu.LFU.Up | lfu/lfu.go:124-129 | The loop's result is `Raised` of the old state. |
| Lfu.LFU.Down | lfu/lfu.go:131-137 | The loop's result is `Sunk` of the old state. It reports a move exactly when the element sank. |
| Lfu.LFU.HeapPush | lfu/lfu.go:124-129 | The new state is `Pushed` of the old one. |
| Lfu.LFU.HeapPop | lfu/lfu.go:131-137 | The new state and the returned key are `Popped` of the old state. |
| Lfu.LFU.HeapRemove | lfu/lfu.go:72-80 | The new state and the returned key are `Removed` of the old state. |
| Lfu.LFU.HeapFix | lfu/lfu.go:42-52 | The new state is `Fixed` of the old one. |
| Lfu.LFU.Settle | lfu/lfu.go:72-80 | The new state is `Settled` of the old one. |
| Lfu.LFU.Get | lfu/lfu.go:42-52 | Get returns `Lookup` of the old state and leaves `AfterGet` of it. The invariant is kept. |
| Lfu.LFU.Set | lfu/lfu.go:54-66 | The new state is `AfterSet` of the old one, with the index fixed as described under Findings. The invariant is kept. |
| Lfu.LFU.SetWithTTL | lfu/lfu.go:68-70 | The expiry is ignored: the same as Set. |
| Lfu.LFU.Delete | lfu/lfu.go:72-80 | The new state is `AfterDelete` of the old one. |
| Lfu.LFU.Has | lfu/lfu.go:82-85 | Has is true exactly when Get would find the key. |
| Lfu.LFU.Len | lfu/lfu.go:87-89 | Len is the map size, which equals the heap size. |
| Lfu.LFU.IsExpirable | lfu/lfu.go:91-93 | LFU never expires items. |
| Lfu.LFU.IsExpired | lfu/lfu.go:95-97 | No key is ever expired. |
| Lfu.LFU.Evict | lfu/lfu.go:99-106 | The new state is `AfterEvict` of the old one. |
| Basic.CountedAmongAdd | basic/basic.go:102-115 | Visiting one more key raises the count by one exactly when that item expires after `now`. |
| Basic.GetContract | basic/basic.go:44-55 | Get finds a key exactly when it is stored and does not expire before `now`, and returns its value. A miss on an expired item deletes it. Nothing else changes. |
| Basic.SetThenGet | basic/basic.go:57-77 | After a Set whose expiry is not earlier than `now`, Get at `now` returns the value and changes nothing. |
| Basic.SetOtherKey | basic/basic.go:57-77 | A Set leaves what Get returns for every other key unchanged. |
| Basic.ExpiryBoundary | basic/basic.go:44-115 | At its exact expiry instant an item is still found by Get, yet Len does not count it. |
| Basic.CountedBounds | basic/basic.go:102-115 | Len counts only stored keys, at most all of them. It counts exactly the keys Get finds whose expiry is not now. |
| Basic.SweptContract | basic/basic.go:117-127 | Evict keeps exactly the items that do not expire before `now`, unchanged. Sweeping twice is the same as once. |
| Basic.SweepUnobservable | basic/basic.go:154-166 | The sweep changes neither what Get returns nor what Len counts at the same instant. |
| Basic.Basic.constructor | basic/basic.go:32-42 | New gives an empty map with the given limits. |
| Basic.Basic.Get | basic/basic.go:44-55 | Get returns `Lookup` and leaves `AfterGet`, which deletes an expired item. |
| Basic.Basic.Set | basic/basic.go:57-66 | Set stores the value to expire at now plus the time to live. |
| Basic.Basic.SetWithTTL | basic/basic.go:68-77 | SetWithTTL stores the value to expire at the given instant. |
| Basic.Basic.Delete | basic/basic.go:79-84 | Delete removes the key. |
| Basic.Basic.Has | basic/basic.go:86-100 | Has is true exactly when the key is stored and does not expire before `now`. That is exactly when Get finds it. |
| Basic.Basic.Len | basic/basic.go:102-115 | Len counts the items that expire strictly after `now`. |
| Basic.Basic.Evict | basic/basic.go:117-127 | The new map is the swept map. |
| Basic.Basic.IsExpirable | basic/basic.go:129-131 | Basic always expires items. |
| Basic.Basic.IsExpired | basic/basic.go:133-143 | A key is expired exactly when it is absent or expires before `now`, that is, exactly when Get would miss. |
| Engine.Empty | cache/cache.go:72-81 | The empty engine of the Basic kind is an empty map with the given time to live. |
| Engine.EmptyContract | cache/cache.go:72-81 | A new engine of each kind is well formed, has that kind, and holds nothing. |
| Engine.GetContract | engine/engine.go:10-12 | Get finds a key exactly when it is in the observable contents, with its value. The engine stays well formed. |
| Engine.SetContract | engine/engine.go:14-16 | Set makes the contents map the key to the value. For Basic this holds with a non-negative time to live. |
| Engine.SetWithTTLContract | engine/engine.go:18-20 | SetWithTTL does the same for an expiry not earlier than `now`. The non-expiring engines ignore the expiry. |
| Engine.DeleteContract | engine/engine.go:22-23 | Delete removes exactly the key from the contents and keeps the kind. |
| Engine.DeletedFifo | fifo/fifo.go:69-80 | FIFO's Delete removes the key from its map. |
| Engine.DeletedLru | lru/lru.go:74-85 | LRU's Delete removes the key from its map. |
| Engine.GetStored | engine/engine.go:10-12 | Get never adds stored items, and changes no count on a non-expiring engine. |
| Engine.SetStored | engine/engine.go:14-16 | On a non-expiring engine Set adds one stored item exactly when the key was absent. |
| Engine.DeleteStored | engine/engine.go:22-23 | Delete never adds stored items. |
| Engine.HasContract | engine/engine.go:25-27 | Has is true exactly when Get would find the key. |
| Engine.LenContract | engine/engine.go:29-30 | On FIFO, LRU and LFU, Len is the number of stored items. On Basic it counts the found items whose expiry is not now. |
| Engine.ExpiredContract | engine/engine.go:35-36 | IsExpired is true exactly on an expiring engine whose contents lack the key. |
| Engine.AddedNew | engine/engine.go:14-16 | Adding a new key to a map that lost one entry restores the size. |
| Engine.EvictContract | engine/engine.go:38-39 | Evict only removes entries and keeps the kind. A non-empty FIFO, LRU or LFU loses exactly one key. |
| Engine.RemovedOne | engine/engine.go:38-39 | Removing a present key lowers the size by one. |
| Engine.EvictedLfu | lfu/lfu.go:99-106 | LFU's Evict only removes entries and keeps the state valid. |
| Engine.EvictedBasic | basic/basic.go:117-127 | Basic's Evict changes nothing observable and never grows the map. |
| Engine.Engine.Get | engine/engine.go:10-12 | Dispatch returns `Lookup` of the old snapshot and leaves `AfterGet` of it. |
| Engine.Engine.Set | engine/engine.go:14-16 | The new snapshot is `AfterSet` of the old one. |
| Engine.Engine.SetWithTTL | engine/engine.go:18-20 | The new snapshot is `AfterSetWithTTL` of the old one. |
| Engine.Engine.Delete | engine/engine.go:22-23 | The new snapshot is `AfterDelete` of the old one. |
| Engine.Engine.Has | engine/engine.go:25-27 | The result is `Present`. |
| Engine.Engine.Len | engine/engine.go:29-30 | The result is `Size`. |
| Engine.Engine.IsExpirable | engine/engine.go:32-33 | True exactly for the Basic engine. |
| Engine.Engine.IsExpired | engine/engine.go:35-36 | The result is `ExpiredAt`. |
| Engine.Engine.Evict | engine/engine.go:38-39 | The new snapshot is `AfterEvict` of the old one. |
| CacheConfig.Default | cache/config.go:40-50 | The defaults: the Basic policy, no size limit, a 60-second TTL and a 120-second cleanup interval. The memory watch and metrics are off. |
| CacheConfig.Resolve | cache/cache.go:58-65 | No configuration gives the defaults. A given one is kept, except that a non-positive cleanup interval becomes the default. The interval is always positive. |
| CacheConfig.ResolveIdempotent | cache/cache.go:58-65 | Resolving twice is resolving once, and the defaults resolve to themselves. |
| CacheMetrics.Rate | cache/metrics.go:40-49 | The hit rate lies in [0, 1]. It is 0 with no lookups and is hits over lookups otherwise. |
| CacheMetrics.Metrics.constructor | cache/metrics.go:17-22 | Both counters start at 0. |
| CacheMetrics.Metrics.IncrementHits | cache/metrics.go:24-26 | Hits rise by one, and misses are unchanged. |
| CacheMetrics.Metrics.IncrementMisses | cache/metrics.go:28-30 | Misses rise by one, and hits are unchanged. |
| CacheMetrics.Metrics.Hits | cache/metrics.go:32-34 | Returns the hit count. |
| CacheMetrics.Metrics.Misses | cache/metrics.go:36-38 | Returns the miss count. |
| CacheMetrics.Metrics.HitRate | cache/metrics.go:40-49 | Returns `Rate` of the counters. |
| CacheMetrics.Metrics.MissRate | cache/metrics.go:51-53 | One minus the hit rate. It is misses over lookups, and 1 (not 0) before any lookup. |
| CacheMetrics.Metrics.GetMetrics | cache/metrics.go:55-57 | Returns the counters object itself. |
| Cache.Selected | cache/cache.go:72-81 | LRU, FIFO and LFU select their engines. Every other policy value selects Basic. |
| Cache.SetOutcome | cache/cache.go:161-192 | Whichever branch Set takes, the engine stays well formed and keeps the kind New selected. |
| Cache.SetStores | cache/cache.go:161-192 | Set keeps the engine well formed and of its kind. |
| Cache.SetStoresWithTTL | cache/cache.go:162-171 | On Basic, with a non-negative time to live, Set maps the key to the value in the contents. |
| Cache.SetStoresPlain | cache/cache.go:173-191 | Without eviction, Set maps the key to the value and changes nothing else. |
| Cache.SetStoresEvicting | cache/cache.go:183-191 | With eviction, Get finds the new value afterwards. |
| Cache.EvictsRoom | cache/cache.go:173-185 | Eviction happens only for an absent key in a non-empty cache. |
| Cache.EvictedThenSet | cache/cache.go:183-191 | Evicting one key, then adding a new one, keeps the count. The result holds the new key and otherwise only old entries. |
| Cache.SetBounded | cache/cache.go:183-185 | Set never takes a size-limited FIFO, LRU or LFU cache past MaxSize. |
| Cache.NewFits | cache/cache.go:58-86 | A new cache satisfies the invariant `Fits`. |
| Cache.GetFits | cache/cache.go:125-154 | Get keeps `Fits`. |
| Cache.SetFits | cache/cache.go:161-192 | Set keeps `Fits`. |
| Cache.DeleteFits | cache/cache.go:199-201 | Delete keeps `Fits`. |
| Cache.EvictFits | cache/cache.go:219-221 | Evict keeps `Fits`. |
| Cache.OverLimitAsWritten | cache/cache.go:105-111 | The source's comparison, in 64-bit unsigned arithmetic. It fires exactly from ((limit * MiB mod 2^64) + 1) MiB allocated, so below a limit of 2^44 from (limit * MiB + 1) MiB. |
| Cache.OverLimit | cache/cache.go:105-111 | The corrected comparison in one unit. It fires exactly from (limit + 1) MiB allocated. |
| Cache.OverLimitMissed | cache/cache.go:105-111 | A 1 MiB limit with 1 GiB allocated: the corrected comparison fires, and the one as written does not. |
| Cache.Watched | cache/cache.go:107-116 | The watch loop, with either comparison, keeps the engine well formed and of its kind. |
| Cache.WatchedContract | cache/cache.go:93-117 | For either comparison, the watch never adds items. A FIFO, LRU or LFU engine loses exactly one item per over-limit tick until it is empty. |
| Cache.OversAsWrittenFewer | cache/cache.go:105-111 | Below a limit of 2^44, the comparison as written fires on no more ticks than the corrected one. So the watch as written never evicts more. |
| Cache.WatchMissed | cache/cache.go:93-117 | A non-empty FIFO, LRU or LFU engine, a 1 MiB limit and one tick at 1 GiB: the watch as written keeps every item, and the corrected watch evicts one. |
| Cache.Cache.constructor | cache/cache.go:58-86 | The configuration is resolved, and the engine is the empty one selected by the policy with the configured TTL. The counters are zero, and the invariant holds. |
| Cache.Cache.Get | cache/cache.go:125-154 | Returns the engine's `Lookup`. The engine becomes `AfterGet`. With metrics on, a hit counts a hit and a miss counts a miss. |
| Cache.Cache.Find | cache/cache.go:126-147 | The engine part of Get: the result is `Lookup`. The expired branch cannot be reached once the engine found the key. |
| Cache.Cache.Count | cache/cache.go:128-151 | The counter part of Get and Set: with metrics on, one hit or one miss. The engine is unchanged. |
| Cache.Cache.Set | cache/cache.go:161-192 | The engine becomes `SetOutcome`. With metrics on, the hit count rises by one. Misses are unchanged. |
| Cache.Cache.Store | cache/cache.go:161-191 | The engine part of Set is `SetOutcome`, and the invariant holds. |
| Cache.Cache.SetNew | cache/cache.go:183-191 | For a new key in a non-expiring engine: evict when full, then set. |
| Cache.Cache.Delete | cache/cache.go:199-201 | The engine becomes `AfterDelete`. |
| Cache.Cache.Has | cache/cache.go:207-209 | Has is the engine's `Present`. |
| Cache.Cache.Len | cache/cache.go:215-217 | Len is the engine's `Size`. |
| Cache.Cache.Evict | cache/cache.go:219-221 | The engine becomes `AfterEvict`. |
| Cache.Cache.Metrics | cache/cache.go:227-229 | Returns the counters object. |
| Cache.Cache.CheckMemoryUsage | cache/cache.go:93-117 | With a limit and a positive interval set, the engine becomes `Watched` over the ticks with the source's comparison as written. Otherwise it is unchanged. The counters are unchanged either way. |
| Scenarios.Tested | tests/cache_test.go:19-25 | A test configuration resolves to itself with the 10-second cleanup interval. |
| Scenarios.FifoEviction | tests/fifo_test.go:26-34 | With MaxSize 2, setting A, B and C evicts A and keeps B and C. |
| Scenarios.FifoSetAB | tests/fifo_test.go:26-34 | The states after setting A and then B. |
| Scenarios.FifoSetC | tests/fifo_test.go:26-34 | Setting C in the full cache leaves B and C in that order. |
| Scenarios.BasicSetGet | tests/cache_test.go:28-42 | Set A and B, then Get finds both, and an unknown key is not found. |
| Scenarios.BasicDelete | tests/cache_test.go:45-51 | After Delete, Get misses. |
| Scenarios.BasicHas | tests/cache_test.go:54-59 | Has finds a stored key and not an unknown one. |
| Scenarios.BasicLen | tests/cache_test.go:62-67 | Two fresh items give a Len of 2. |
| Scenarios.BasicZeroTTL | basic/basic.go:57-66 | With a TTL of 0, Set stores the item expiring at `now`. Get finds it at `now`, Len does not count it, and one nanosecond later Get misses. |
| Scenarios.LruEviction | tests/lru_test.go:25-36 | With MaxSize 2: set A and B, get A, set C. B is evicted, and A and C stay. |
| Scenarios.LruSetAB | tests/lru_test.go:25-36 | The states after setting A and then B. |
| Scenarios.LruGetA | tests/lru_test.go:25-36 | Get A moves A to the front. |
| Scenarios.LruSetC | tests/lru_test.go:25-36 | Setting C evicts B, the back of the list. |
| Scenarios.LfuEviction | tests/lfu_test.go:25-37 | With MaxSize 2: set A and B, get A twice, set C. B is evicted, and A and C stay. |
| Scenarios.LfuStatesInv | tests/lfu_test.go:25-37 | Every intermediate state is a valid LFU state. |
| Scenarios.LfuSetAB | tests/lfu_test.go:25-37 | The states after setting A and then B. |
| Scenarios.LfuPushA | tests/lfu_test.go:25-37 | Setting A in an empty cache. |
| Scenarios.LfuPushB | tests/lfu_test.go:25-37 | Setting B next to A. |
| Scenarios.LfuGetA | tests/lfu_test.go:25-37 | Each Get of A raises its frequency and keeps B at the root. |
| Scenarios.LfuSetC | tests/lfu_test.go:25-37 | Setting C evicts B, the least frequently used key. |
| Scenarios.LfuEvictB | tests/lfu_test.go:25-37 | Evict removes B and leaves A alone. |
| Scenarios.LfuPushC | tests/lfu_test.go:25-37 | Pushing C puts it at the root, above A. |
| Scenarios.LfuSetCAsWritten | lfu/lfu.go:54-66 | The source's Set of C at the end of the LFU test puts C at the root and keeps the same contents. But C and A both record slot 1, so the indices no longer match the slots. |

## Left out

- Locks, atomics and goroutines are not modelled, and each call is one atomic step. This covers:
  - `startCleanup` and `cleanupExpiredItems` in basic/basic.go:145-166. Their sweep is the same as Evict's, and `Basic.SweepUnobservable` shows it changes nothing observable.
  - the `go` statements in New and Get;
  - the `RUnlock` and `Lock` in Get's expired branch.
- The clock is a parameter. `time.Now` becomes `now`, read once per call. For that reason the expired branch of `Cache.Get` (cache/cache.go:135-147) is unreachable in the model. Once the engine has found a key at `now`, IsExpired at the same `now` is false.
- Tickers are not modelled. The memory watch runs over a finite sequence of `Tick` readings of `runtime.ReadMemStats`. The unbounded `for range ticker.C` loop is cut to that many ticks.
- `container/list` is a sequence of keys, and list element pointers are not modelled.
- The source of `container/heap` (Go's standard library) is not part of this model. Its `up`, `down`, `Push`, `Pop`, `Remove` and `Fix` are modelled after Go's published algorithm.
- `down`'s guard against `int` overflow of `2*i+1` is left out, because integers are unbounded.
- LFU items are records in the map, keyed by the heap's key sequence. The model does not capture aliasing of `*cacheItem` pointers.
- `Lfu.LFU.Set`, `Lfu.SetContract`: they model the corrected index assignment listed under Findings, not lfu/lfu.go:64 as written. `Lfu.AfterSetAsWritten` models the line as written.
- `Engine.SetContract`, `Engine.Engine.Set`, `Engine.Engine.SetWithTTL`: for an LFU engine they reach the corrected Set, not lfu/lfu.go:64 as written.
- `Cache.SetOutcome`, `Cache.SetStores`, `Cache.SetFits`, `Cache.SetBounded`, `Cache.Cache.Set`, `Cache.Cache.Store`, `Cache.Cache.SetNew`: for an LFU engine they reach the corrected Set. The new key's recorded index is right where the source's would be stale.
- `Lfu.LFU.SetWithTTL`: it is Set with the expiry ignored, so it reaches the corrected Set, not lfu/lfu.go:64 as written.
- `Engine.SetWithTTLContract`: for an LFU engine it proves the invariant and contents after the corrected Set, not after lfu/lfu.go:64 as written.
- `Cache.SetStoresPlain`: for an LFU engine it is stated about the corrected Set, not lfu/lfu.go:64 as written.
- `Cache.SetStoresEvicting`: for an LFU engine it is stated about the corrected Set, not lfu/lfu.go:64 as written.
- `Cache.EvictedThenSet`: for an LFU engine it is stated about the corrected Set, not lfu/lfu.go:64 as written.
- `Scenarios.LfuSetC`, `Scenarios.LfuPushC`, `Scenarios.LfuEviction`: they state the LFU test's end state under the corrected Set, with C recording slot 0. `Scenarios.LfuSetCAsWritten` states the source's end state, where C records slot 1.
- Hit rates are exact rationals (`real`), not `float64`. The counters do not wrap at 2^63.
- Durations and instants are unbounded integers, with no `int64` overflow. The 64-bit wrap is modelled only in the memory comparison (`Cache.OverLimitAsWritten`).
- `Cache.Cache.constructor` returns the resolved configuration. It does not model New writing the cleanup interval back through the caller's pointer.
- The documentation of `defaultConfig` (cache/config.go:38-39) says a 10-second cleanup interval. The code uses 120 seconds, and the model follows the code.
- The TTL's documentation (cache/config.go:17-18 and basic/basic.go:14) says a TTL of 0 means items never expire. The code stores an expiry of now + 0, so a Basic item is gone one nanosecond after its Set. The model follows the code (`Scenarios.BasicZeroTTL`). A never-expiring Basic engine is not modelled.
- `Cache.Cache.Set` counts a hit on every Set with metrics enabled, as the code does. The source never counts a miss there.
- With the Basic policy, the front end ignores MaxSize, as the code does, since eviction is only for non-expiring engines.
- Benchmarks (tests/benchmark_test.go) are not modelled.
- Values are strings in the front end (`Cache.Cache`), not `any`. The engines are generic.

## Findings

| source | as written | input that shows it | evidently intended | confidence | as-written member | corrected member |
|---|---|---|---|---|---|---|
| lfu/lfu.go:64 | After `heap.Push` the new item's index is overwritten with `Len()-1`, although `up` may have moved the item to another slot. | Set A, Get A, Set C, Delete C: C's index says slot 1 while C sits at the root, so Delete removes A's slot and leaves C in the heap. | Keep the index `heap.Push` maintains (remove line 64). | high; not executed | Lfu.SetAsWrittenBreaksDelete | Lfu.SetContract |
| cache/cache.go:105-111 | The limit is scaled to bytes (`MemoryLimits * 1024 * 1024`, 64-bit) but compared with the allocation in MiB. | MemoryLimits 1, 1 GiB allocated: 1024 MiB is not above 1048576, so nothing is evicted. | Compare both sides in one unit: the allocation in MiB against the limit in MiB. cache/config.go:25-27 calls the limit bytes, but the scaling at line 105 treats it as MiB, and the corrected comparison does the same. The watch (`Cache.Watched`, `Cache.WatchedContract`) is proved for both comparisons, and `Cache.Cache.CheckMemoryUsage` uses the one as written. | high; not executed | Cache.WatchMissed | Cache.OverLimit |
