/** The cache front end: a struct holding the settings, one engine chosen by the
    eviction policy, and the hit and miss counters. Set evicts one item first when a
    new key would take a size-limited FIFO, LRU or LFU cache past MaxSize; with a
    Basic engine every Set stores with an instant of `now` plus the time to live.
    The clock is the parameter `now`, read once per call. */
module Cache {
  import opened Wrappers
  import opened CacheConfig
  import opened CacheMetrics
  import Engine
  import Fifo
  import Lru
  import Lfu
  import Basic

  /** The engine New builds for a policy: the three named policies choose their
      engine, and every other value, Basic included, chooses Basic. */
  function Selected(policy: int): (k: Engine.Kind)
    ensures k == Engine.FifoKind <==> policy == FifoPolicy
    ensures k == Engine.LruKind <==> policy == LruPolicy
    ensures k == Engine.LfuKind <==> policy == LfuPolicy
    ensures k == Engine.BasicKind <==> policy != FifoPolicy && policy != LruPolicy && policy != LfuPolicy
  {
    if policy == LruPolicy then Engine.LruKind
    else if policy == FifoPolicy then Engine.FifoKind
    else if policy == LfuPolicy then Engine.LfuKind
    else Engine.BasicKind
  }

  /** Whether Set of this key makes room first: the engine does not expire items, the
      key is new, there is a limit, and the engine already holds that many. */
  predicate Evicts(s: Engine.Snapshot<string>, c: Config, key: string, now: int)
  {
    !Engine.Expirable(s) && !Engine.Present(s, key, now) && c.maxSize > 0 && Engine.Size(s, now) >= c.maxSize
  }

  /** What Set leaves in the engine. */
  function SetOutcome(s: Engine.Snapshot<string>, c: Config, key: string, value: string, now: int): (t: Engine.Snapshot<string>)
    requires Engine.Inv(s)
    ensures Engine.Inv(t) && Engine.KindOf(t) == Engine.KindOf(s)
  {
    if Engine.Expirable(s) then
      Engine.SetWithTTLContract(s, key, value, now + c.ttl, now);
      Engine.AfterSetWithTTL(s, key, value, now + c.ttl)
    else if Engine.Present(s, key, now) then
      Engine.SetContract(s, key, value, now);
      Engine.AfterSet(s, key, value, now)
    else if c.maxSize > 0 && Engine.Size(s, now) >= c.maxSize then
      Engine.EvictContract(s, now);
      Engine.SetContract(Engine.AfterEvict(s, now), key, value, now);
      Engine.AfterSet(Engine.AfterEvict(s, now), key, value, now)
    else
      Engine.SetContract(s, key, value, now);
      Engine.AfterSet(s, key, value, now)
  }

  /** A size-limited FIFO, LRU or LFU cache holds at most MaxSize items. */
  ghost predicate Bounded(s: Engine.Snapshot<string>, c: Config)
  {
    c.maxSize > 0 && !Engine.Expirable(s) ==> Engine.Stored(s) <= c.maxSize
  }

  /** Set stores the value so that Get finds it at once (for Basic, when the time to
      live is not negative). Without eviction every other key keeps its value; with
      eviction exactly one other key gives way, so the count is unchanged. */
  lemma SetStores(s: Engine.Snapshot<string>, c: Config, key: string, value: string, now: int)
    requires Engine.Inv(s)
    requires Engine.Expirable(s) ==> c.ttl >= 0
    ensures Engine.Inv(SetOutcome(s, c, key, value, now))
    ensures Engine.KindOf(SetOutcome(s, c, key, value, now)) == Engine.KindOf(s)
    ensures Engine.Lookup(SetOutcome(s, c, key, value, now), key, now) == Some(value)
    ensures !Evicts(s, c, key, now) ==>
      Engine.Contents(SetOutcome(s, c, key, value, now), now) == Engine.Contents(s, now)[key := value]
    ensures Evicts(s, c, key, now) ==>
      && key !in Engine.Contents(s, now)
      && Engine.SubMap(Engine.Contents(SetOutcome(s, c, key, value, now), now) - {key}, Engine.Contents(s, now))
      && |Engine.Contents(SetOutcome(s, c, key, value, now), now)| == |Engine.Contents(s, now)|
  {
    if Engine.Expirable(s) {
      SetStoresWithTTL(s, c, key, value, now);
    } else if Evicts(s, c, key, now) {
      SetStoresEvicting(s, c, key, value, now);
    } else {
      SetStoresPlain(s, c, key, value, now);
    }
  }

  lemma SetStoresWithTTL(s: Engine.Snapshot<string>, c: Config, key: string, value: string, now: int)
    requires Engine.Inv(s) && Engine.Expirable(s) && c.ttl >= 0
    ensures Engine.Inv(SetOutcome(s, c, key, value, now))
    ensures Engine.KindOf(SetOutcome(s, c, key, value, now)) == Engine.KindOf(s)
    ensures Engine.Contents(SetOutcome(s, c, key, value, now), now) == Engine.Contents(s, now)[key := value]
    ensures Engine.Lookup(SetOutcome(s, c, key, value, now), key, now) == Some(value)
  {
    Engine.SetWithTTLContract(s, key, value, now + c.ttl, now);
    Engine.GetContract(SetOutcome(s, c, key, value, now), key, now);
  }

  lemma SetStoresPlain(s: Engine.Snapshot<string>, c: Config, key: string, value: string, now: int)
    requires Engine.Inv(s) && !Engine.Expirable(s) && !Evicts(s, c, key, now)
    ensures Engine.Inv(SetOutcome(s, c, key, value, now))
    ensures Engine.KindOf(SetOutcome(s, c, key, value, now)) == Engine.KindOf(s)
    ensures Engine.Contents(SetOutcome(s, c, key, value, now), now) == Engine.Contents(s, now)[key := value]
    ensures Engine.Lookup(SetOutcome(s, c, key, value, now), key, now) == Some(value)
  {
    assert SetOutcome(s, c, key, value, now) == Engine.AfterSet(s, key, value, now);
    Engine.SetContract(s, key, value, now);
    Engine.GetContract(Engine.AfterSet(s, key, value, now), key, now);
  }

  lemma SetStoresEvicting(s: Engine.Snapshot<string>, c: Config, key: string, value: string, now: int)
    requires Engine.Inv(s) && Evicts(s, c, key, now)
    ensures Engine.Inv(SetOutcome(s, c, key, value, now))
    ensures Engine.KindOf(SetOutcome(s, c, key, value, now)) == Engine.KindOf(s)
    ensures Engine.Lookup(SetOutcome(s, c, key, value, now), key, now) == Some(value)
    ensures key !in Engine.Contents(s, now)
    ensures Engine.SubMap(Engine.Contents(SetOutcome(s, c, key, value, now), now) - {key}, Engine.Contents(s, now))
    ensures |Engine.Contents(SetOutcome(s, c, key, value, now), now)| == |Engine.Contents(s, now)|
  {
    EvictsRoom(s, c, key, now);
    EvictedThenSet(s, key, value, now);
    assert SetOutcome(s, c, key, value, now) == Engine.AfterSet(Engine.AfterEvict(s, now), key, value, now);
  }

  /** When Set evicts, the key is new and the engine is not empty. */
  lemma EvictsRoom(s: Engine.Snapshot<string>, c: Config, key: string, now: int)
    requires Engine.Inv(s) && Evicts(s, c, key, now)
    ensures key !in Engine.Contents(s, now) && |Engine.Contents(s, now)| > 0
  {
    Engine.HasContract(s, key, now);
    Engine.LenContract(s, now);
  }

  /** Evict followed by Set of a new key: one other key gave way to it. */
  lemma EvictedThenSet(s: Engine.Snapshot<string>, key: string, value: string, now: int)
    requires Engine.Inv(s) && !Engine.Expirable(s)
    requires key !in Engine.Contents(s, now) && |Engine.Contents(s, now)| > 0
    ensures Engine.Inv(Engine.AfterEvict(s, now))
    ensures var t := Engine.AfterSet(Engine.AfterEvict(s, now), key, value, now);
      && Engine.Inv(t) && Engine.KindOf(t) == Engine.KindOf(s)
      && Engine.Lookup(t, key, now) == Some(value)
      && Engine.SubMap(Engine.Contents(t, now) - {key}, Engine.Contents(s, now))
      && |Engine.Contents(t, now)| == |Engine.Contents(s, now)|
  {
    Engine.EvictContract(s, now);
    var e := Engine.AfterEvict(s, now);
    Engine.SetContract(e, key, value, now);
    Engine.GetContract(Engine.AfterSet(e, key, value, now), key, now);
    Engine.AddedNew(Engine.Contents(s, now), Engine.Contents(e, now), key, value);
  }

  /** Set never takes a size-limited FIFO, LRU or LFU cache past MaxSize. */
  lemma SetBounded(s: Engine.Snapshot<string>, c: Config, key: string, value: string, now: int)
    requires Engine.Inv(s) && Bounded(s, c)
    ensures Bounded(SetOutcome(s, c, key, value, now), c)
  {
    var t := SetOutcome(s, c, key, value, now);
    if Engine.Expirable(s) {
      Engine.SetWithTTLContract(s, key, value, now + c.ttl, now);
    } else if Engine.Present(s, key, now) {
      Engine.SetStored(s, key, value, now);
    } else if c.maxSize > 0 && Engine.Size(s, now) >= c.maxSize {
      Engine.LenContract(s, now);
      Engine.EvictContract(s, now);
      var e := Engine.AfterEvict(s, now);
      Engine.HasContract(s, key, now);
      Engine.HasContract(e, key, now);
      Engine.SetStored(e, key, value, now);
    } else {
      Engine.LenContract(s, now);
      Engine.SetStored(s, key, value, now);
    }
  }

  /** What the facade keeps true of its engine between calls: the engine's own
      invariant, the strategy the settings select, the settings' time to live for
      Basic, and the size limit for FIFO, LRU and LFU. */
  ghost predicate Fits(s: Engine.Snapshot<string>, c: Config)
  {
    && Engine.Inv(s)
    && c.cleanupInterval > 0
    && Engine.KindOf(s) == Selected(c.evictionPolicy)
    && (s.BasicSnap? ==> s.ttl == c.ttl)
    && Bounded(s, c)
  }

  /** A new cache fits its settings once New has resolved them. */
  lemma NewFits(c: Config)
    requires c.cleanupInterval > 0
    ensures Fits(Engine.Empty(Selected(c.evictionPolicy), c.ttl), c)
  {
    Engine.EmptyContract<string>(Selected(c.evictionPolicy), c.ttl, 0);
  }

  lemma GetFits(s: Engine.Snapshot<string>, c: Config, key: string, now: int)
    requires Fits(s, c)
    ensures Fits(Engine.AfterGet(s, key, now), c)
  {
    Engine.GetContract(s, key, now);
    Engine.GetStored(s, key, now);
  }

  lemma SetFits(s: Engine.Snapshot<string>, c: Config, key: string, value: string, now: int)
    requires Fits(s, c)
    ensures Fits(SetOutcome(s, c, key, value, now), c)
  {
    SetBounded(s, c, key, value, now);
    if Engine.Expirable(s) {
      Engine.SetWithTTLContract(s, key, value, now + c.ttl, now);
    } else if Engine.Present(s, key, now) {
      Engine.SetContract(s, key, value, now);
    } else if c.maxSize > 0 && Engine.Size(s, now) >= c.maxSize {
      Engine.EvictContract(s, now);
      Engine.SetContract(Engine.AfterEvict(s, now), key, value, now);
    } else {
      Engine.SetContract(s, key, value, now);
    }
  }

  lemma DeleteFits(s: Engine.Snapshot<string>, c: Config, key: string)
    requires Fits(s, c)
    ensures Fits(Engine.AfterDelete(s, key), c)
  {
    Engine.DeleteContract(s, key, 0);
    Engine.DeleteStored(s, key, 0);
  }

  lemma EvictFits(s: Engine.Snapshot<string>, c: Config, now: int)
    requires Fits(s, c)
    ensures Fits(Engine.AfterEvict(s, now), c)
  {
    Engine.EvictContract(s, now);
  }

  // ---------------------------------------------------------------------------
  // The memory watch.

  const MiB: nat := 1024 * 1024
  const Word: nat := 0x1_0000_0000_0000_0000

  /** Whether New's goroutine watches memory at all: a limit and a positive interval. */
  predicate WatchesMemory(c: Config)
  {
    c.memoryLimits != 0 && c.memoryCheckInterval > 0
  }

  /** The comparison as the source writes it, in unsigned 64-bit arithmetic: the
      allocated bytes turned into MiB against the limit turned from MiB into bytes.
      For a limit of L MiB it fires from (L * MiB + 1) MiB on, and for a limit whose
      product wraps, against the wrapped product. */
  function OverLimitAsWritten(limits: Uint64, alloc: Uint64): (r: bool)
    ensures r <==> alloc >= ((limits * MiB) % Word + 1) * MiB
    ensures limits < 0x1000_0000_0000 ==> (r <==> alloc >= (limits * MiB + 1) * MiB)
  {
    QuotientAtLeast(alloc, MiB, (limits * MiB) % Word + 1);
    alloc / MiB > (limits * MiB) % Word
  }

  /** The comparison in one unit, the allocated MiB against the limit in MiB: it
      fires once the allocation reaches a whole MiB past the limit. */
  function OverLimit(limits: Uint64, alloc: Uint64): (r: bool)
    ensures r <==> alloc >= (limits + 1) * MiB
  {
    QuotientAtLeast(alloc, MiB, limits + 1);
    alloc / MiB > limits
  }

  /** For a positive divisor, a quotient reaches q exactly from q times the divisor. */
  lemma QuotientAtLeast(a: nat, d: nat, q: nat)
    requires d > 0
    ensures a / d >= q <==> a >= q * d
  {
    var r := a / d;
    assert a == d * r + a % d && 0 <= a % d < d;
    if r >= q {
      assert d * r >= d * q;
    } else {
      assert r + 1 <= q;
      assert d * (r + 1) <= d * q;
    }
  }

  /** A limit of 1 MiB with 1 GiB allocated: the watch should evict, but as written
      it does not. */
  lemma OverLimitMissed()
    ensures OverLimit(1, 1024 * MiB)
    ensures !OverLimitAsWritten(1, 1024 * MiB)
  {
  }

  /** Which comparison a watch makes: the source's, or the one in a single unit. */
  datatype Comparison = AsWritten | InMiB

  predicate Exceeds(cmp: Comparison, limits: Uint64, alloc: Uint64)
  {
    match cmp
    case AsWritten => OverLimitAsWritten(limits, alloc)
    case InMiB => OverLimit(limits, alloc)
  }

  /** One ticker tick: the allocated bytes read at that instant. */
  datatype Tick = Tick(alloc: Uint64, now: int)

  /** What the watch loop leaves after the given ticks: an eviction at every tick whose
      reading is over the limit by the given comparison. */
  function Watched(s: Engine.Snapshot<string>, cmp: Comparison, limits: Uint64, ticks: seq<Tick>): (t: Engine.Snapshot<string>)
    requires Engine.Inv(s)
    ensures Engine.Inv(t) && Engine.KindOf(t) == Engine.KindOf(s)
    decreases |ticks|
  {
    if ticks == [] then s
    else
      Engine.EvictContract(s, ticks[0].now);
      var u := if Exceeds(cmp, limits, ticks[0].alloc) then Engine.AfterEvict(s, ticks[0].now) else s;
      Watched(u, cmp, limits, ticks[1..])
  }

  /** How many ticks read over the limit by the given comparison. */
  function Overs(cmp: Comparison, limits: Uint64, ticks: seq<Tick>): nat
  {
    if ticks == [] then 0
    else (if Exceeds(cmp, limits, ticks[0].alloc) then 1 else 0) + Overs(cmp, limits, ticks[1..])
  }

  /** The watch never adds items; a FIFO, LRU or LFU engine loses exactly one per tick
      over the limit until it is empty. */
  lemma {:induction false} WatchedContract(s: Engine.Snapshot<string>, cmp: Comparison, limits: Uint64, ticks: seq<Tick>)
    requires Engine.Inv(s)
    ensures Engine.Stored(Watched(s, cmp, limits, ticks)) <= Engine.Stored(s)
    ensures !Engine.Expirable(s) ==>
      Engine.Stored(Watched(s, cmp, limits, ticks)) == if Engine.Stored(s) >= Overs(cmp, limits, ticks) then Engine.Stored(s) - Overs(cmp, limits, ticks) else 0
    decreases |ticks|
  {
    if ticks != [] {
      Engine.EvictContract(s, ticks[0].now);
      var over := Exceeds(cmp, limits, ticks[0].alloc);
      var u := if over then Engine.AfterEvict(s, ticks[0].now) else s;
      assert Watched(s, cmp, limits, ticks) == Watched(u, cmp, limits, ticks[1..]);
      assert Overs(cmp, limits, ticks) == (if over then 1 else 0) + Overs(cmp, limits, ticks[1..]);
      WatchedContract(u, cmp, limits, ticks[1..]);
    }
  }

  /** Below a limit of about 16 TiB, the watch as written fires on a subset of the
      ticks the corrected one fires on, so it never evicts more. */
  lemma {:induction false} OversAsWrittenFewer(limits: Uint64, ticks: seq<Tick>)
    requires limits < 0x1000_0000_0000
    ensures Overs(AsWritten, limits, ticks) <= Overs(InMiB, limits, ticks)
    decreases |ticks|
  {
    if ticks != [] {
      var a := ticks[0].alloc;
      if OverLimitAsWritten(limits, a) {
        assert (limits + 1) * MiB <= (limits * MiB + 1) * MiB;
      }
      OversAsWrittenFewer(limits, ticks[1..]);
    }
  }

  /** A FIFO, LRU or LFU engine holding items, a limit of 1 MiB and one tick with
      1 GiB allocated: the watch as written keeps every item; the corrected watch
      evicts one. */
  lemma WatchMissed(s: Engine.Snapshot<string>, now: int)
    requires Engine.Inv(s) && !Engine.Expirable(s) && Engine.Stored(s) > 0
    ensures Watched(s, AsWritten, 1, [Tick(1024 * MiB, now)]) == s
    ensures Engine.Stored(Watched(s, InMiB, 1, [Tick(1024 * MiB, now)])) == Engine.Stored(s) - 1
  {
    var ticks := [Tick(1024 * MiB, now)];
    OverLimitMissed();
    assert ticks[1..] == [];
    assert Overs(InMiB, 1, ticks) == 1;
    WatchedContract(s, InMiB, 1, ticks);
  }

  // ---------------------------------------------------------------------------
  // The struct.

  class Cache {
    const config: Config
    const engine: Engine.Engine<string>
    const metrics: Metrics

    ghost function Repr(): set<object>
    {
      engine.Repr() + {metrics}
    }

    ghost predicate Valid()
      reads engine.Repr()
    {
      metrics !in engine.Repr() && Fits(engine.Snap(), config)
    }

    /** New: the settings resolved, zeroed counters and an empty engine of the
        selected kind. The memory watch runs as CheckMemoryUsage. */
    constructor (cfg: Option<Config>)
      ensures Valid() && fresh(Repr())
      ensures config == Resolve(cfg)
      ensures engine.Snap() == Engine.Empty(Selected(config.evictionPolicy), config.ttl)
      ensures metrics.hits == 0 && metrics.misses == 0
    {
      var c := Resolve(cfg);
      config := c;
      metrics := new Metrics();
      if c.evictionPolicy == LruPolicy {
        var e := new Lru.LRU(c.maxSize);
        engine := Engine.LruEngine(e);
      } else if c.evictionPolicy == FifoPolicy {
        var e := new Fifo.FIFO(c.maxSize);
        engine := Engine.FifoEngine(e);
      } else if c.evictionPolicy == LfuPolicy {
        var e := new Lfu.LFU(c.maxSize);
        engine := Engine.LfuEngine(e);
      } else {
        var e := new Basic.Basic(c.maxSize, c.ttl, c.cleanupInterval);
        engine := Engine.BasicEngine(e);
      }
      new;
      NewFits(c);
    }

    /** Get: the engine's answer; a miss or a hit is counted when metrics are on. */
    method Get(key: string, now: int) returns (r: Option<string>)
      requires Valid()
      modifies Repr()
      ensures Valid()
      ensures r == Engine.Lookup(old(engine.Snap()), key, now)
      ensures engine.Snap() == Engine.AfterGet(old(engine.Snap()), key, now)
      ensures metrics.hits == old(metrics.hits) + if config.metrics && r.Some? then 1 else 0
      ensures metrics.misses == old(metrics.misses) + if config.metrics && r.None? then 1 else 0
    {
      r := Find(key, now);
      Count(r.Some?);
    }

    /** The engine's part of Get. */
    method Find(key: string, now: int) returns (r: Option<string>)
      requires Valid()
      modifies engine.Repr()
      ensures Valid()
      ensures r == Engine.Lookup(old(engine.Snap()), key, now)
      ensures engine.Snap() == Engine.AfterGet(old(engine.Snap()), key, now)
    {
      ghost var s0 := engine.Snap();
      Engine.GetContract(s0, key, now);
      GetFits(s0, config, key, now);
      r := engine.Get(key, now);
      if r.None? {
        return;
      }
      var expirable := engine.IsExpirable();
      if expirable {
        Engine.ExpiredContract(engine.Snap(), key, now);
        var expired := engine.IsExpired(key, now);
        if expired {
          // With one reading of the clock the engine's Get has just found the key
          // live, so it is not expired.
          assert false;
        }
      }
    }

    /** Counts a hit or a miss when metrics are on; the engine is untouched. */
    method Count(hit: bool)
      requires Valid()
      modifies metrics
      ensures Valid() && engine.Snap() == old(engine.Snap())
      ensures metrics.hits == old(metrics.hits) + if config.metrics && hit then 1 else 0
      ensures metrics.misses == old(metrics.misses) + if config.metrics && !hit then 1 else 0
    {
      if config.metrics {
        if hit {
          metrics.IncrementHits();
        } else {
          metrics.IncrementMisses();
        }
      }
    }

    /** Set: as SetOutcome; every Set counts a hit when metrics are on. */
    method Set(key: string, value: string, now: int)
      requires Valid()
      modifies Repr()
      ensures Valid()
      ensures engine.Snap() == SetOutcome(old(engine.Snap()), config, key, value, now)
      ensures metrics.hits == old(metrics.hits) + if config.metrics then 1 else 0
      ensures metrics.misses == old(metrics.misses)
    {
      Store(key, value, now);
      Count(true);
    }

    /** The engine's part of Set: a Basic cache stores with the configured time to
        live; the others overwrite a held key or go through SetNew. */
    method Store(key: string, value: string, now: int)
      requires Valid()
      modifies engine.Repr()
      ensures Valid()
      ensures engine.Snap() == SetOutcome(old(engine.Snap()), config, key, value, now)
    {
      ghost var s0 := engine.Snap();
      SetFits(s0, config, key, value, now);
      var expirable := engine.IsExpirable();
      if expirable {
        engine.SetWithTTL(key, value, now + config.ttl);
      } else {
        var has := engine.Has(key, now);
        if has {
          engine.Set(key, value, now);
        } else {
          SetNew(key, value, now);
        }
      }
    }

    /** The part of Set for a key the FIFO, LRU or LFU cache does not hold: one
        eviction first when the cache is at MaxSize. */
    method SetNew(key: string, value: string, now: int)
      requires Valid() && !Engine.Expirable(engine.Snap()) && !Engine.Present(engine.Snap(), key, now)
      modifies engine.Repr()
      ensures engine.Snap() == SetOutcome(old(engine.Snap()), config, key, value, now)
      ensures Valid()
    {
      ghost var s0 := engine.Snap();
      SetFits(s0, config, key, value, now);
      var n := Len(now);
      if config.maxSize > 0 && n >= config.maxSize {
        Evict(now);
      }
      engine.Set(key, value, now);
    }

    method Delete(key: string)
      requires Valid()
      modifies Repr()
      ensures Valid()
      ensures engine.Snap() == Engine.AfterDelete(old(engine.Snap()), key)
      ensures metrics.hits == old(metrics.hits) && metrics.misses == old(metrics.misses)
    {
      DeleteFits(engine.Snap(), config, key);
      engine.Delete(key);
    }

    method Has(key: string, now: int) returns (r: bool)
      requires Valid()
      ensures r <==> Engine.Present(engine.Snap(), key, now)
    {
      r := engine.Has(key, now);
    }

    method Len(now: int) returns (n: int)
      requires Valid()
      ensures n == Engine.Size(engine.Snap(), now)
    {
      n := engine.Len(now);
    }

    method Evict(now: int)
      requires Valid()
      modifies engine.Repr()
      ensures Valid()
      ensures engine.Snap() == Engine.AfterEvict(old(engine.Snap()), now)
    {
      EvictFits(engine.Snap(), config, now);
      engine.Evict(now);
    }

    method Metrics() returns (m: Metrics)
      ensures m == metrics
    {
      m := metrics;
    }

    /** The memory watch over a run of ticks: nothing when the settings switch it off;
        otherwise an eviction at every tick over the limit. */
    method CheckMemoryUsage(ticks: seq<Tick>)
      requires Valid()
      modifies Repr()
      ensures Valid()
      ensures engine.Snap() ==
        if WatchesMemory(config) then Watched(old(engine.Snap()), AsWritten, config.memoryLimits, ticks) else old(engine.Snap())
      ensures metrics.hits == old(metrics.hits) && metrics.misses == old(metrics.misses)
    {
      if config.memoryLimits == 0 {
        return;
      }
      if config.memoryCheckInterval <= 0 {
        return;
      }
      var maxMem := (config.memoryLimits * MiB) % Word;
      var i := 0;
      while i < |ticks|
        invariant 0 <= i <= |ticks|
        invariant Valid()
        invariant Watched(engine.Snap(), AsWritten, config.memoryLimits, ticks[i..]) == Watched(old(engine.Snap()), AsWritten, config.memoryLimits, ticks)
        invariant metrics.hits == old(metrics.hits) && metrics.misses == old(metrics.misses)
      {
        var t := ticks[i];
        EvictFits(engine.Snap(), config, t.now);
        assert ticks[i..][1..] == ticks[i + 1..];
        var memAlloc := t.alloc / MiB;
        if memAlloc > maxMem {
          engine.Evict(t.now);
        }
        i := i + 1;
      }
    }
  }
}
