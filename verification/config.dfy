/** The cache's settings. Durations are integers in nanoseconds, as Go's
    `time.Duration`; the policy is an integer, as the source's `EvictionPolicy`. */
module CacheConfig {
  import opened Wrappers

  const Second: int := 1_000_000_000

  /** The eviction policies, numbered as the source's constants. */
  const BasicPolicy: int := 0
  const FifoPolicy: int := 1
  const LruPolicy: int := 2
  const LfuPolicy: int := 3

  /** Go's `uint64`. */
  type Uint64 = x: nat | x < 0x1_0000_0000_0000_0000

  /** MaxSize 0 means no limit; MemoryLimits 0 means memory is not watched. */
  datatype Config = Config(
    evictionPolicy: int,
    maxSize: int,
    ttl: int,
    cleanupInterval: int,
    memoryLimits: Uint64,
    memoryCheckInterval: int,
    metrics: bool)

  /** The settings used when none are given: Basic, no size limit, a time to live of
      60 seconds, a cleanup every 120 seconds, no memory watch, no metrics. */
  function Default(): (c: Config)
    ensures c.evictionPolicy == BasicPolicy && c.maxSize == 0 && c.ttl == 60 * Second
    ensures c.cleanupInterval == 120 * Second
    ensures c.memoryLimits == 0 && c.memoryCheckInterval == 0 && !c.metrics
  {
    Config(BasicPolicy, 0, 60 * Second, 120 * Second, 0, 0, false)
  }

  /** The settings New works with: the defaults when none are given, and a cleanup
      interval of 10 seconds in place of one that is not positive. */
  function Resolve(cfg: Option<Config>): (c: Config)
    ensures c.cleanupInterval > 0
    ensures cfg.None? ==> c == Default()
    ensures cfg.Some? ==> c == cfg.value.(cleanupInterval := c.cleanupInterval)
    ensures cfg.Some? && cfg.value.cleanupInterval > 0 ==> c == cfg.value
    ensures cfg.Some? && cfg.value.cleanupInterval <= 0 ==> c.cleanupInterval == 10 * Second
  {
    var d := if cfg.None? then Default() else cfg.value;
    if d.cleanupInterval <= 0 then d.(cleanupInterval := 10 * Second) else d
  }

  /** Resolving settings that New already resolved changes nothing, and the defaults
      are already resolved. */
  lemma ResolveIdempotent(cfg: Option<Config>)
    ensures Resolve(Some(Resolve(cfg))) == Resolve(cfg)
    ensures Resolve(Some(Default())) == Default()
  {
  }
}
