/** Hit and miss counters. The source updates them atomically; here every call is
    one step. Rates are exact quotients (`real`), not floating point. */
module CacheMetrics {

  /** The share of hits among all counted lookups, 0 when nothing was counted. */
  function Rate(hits: nat, misses: nat): (r: real)
    ensures 0.0 <= r <= 1.0
    ensures hits + misses == 0 ==> r == 0.0
    ensures hits + misses > 0 ==> r * (hits + misses) as real == hits as real
    ensures hits + misses > 0 && misses == 0 ==> r == 1.0
  {
    if hits == 0 && misses == 0 then 0.0
    else hits as real / (hits + misses) as real
  }

  class Metrics {
    var hits: nat
    var misses: nat

    constructor ()
      ensures hits == 0 && misses == 0
    {
      hits := 0;
      misses := 0;
    }

    method IncrementHits()
      modifies this
      ensures hits == old(hits) + 1 && misses == old(misses)
    {
      hits := hits + 1;
    }

    method IncrementMisses()
      modifies this
      ensures misses == old(misses) + 1 && hits == old(hits)
    {
      misses := misses + 1;
    }

    method Hits() returns (n: nat)
      ensures n == hits
    {
      n := hits;
    }

    method Misses() returns (n: nat)
      ensures n == misses
    {
      n := misses;
    }

    method HitRate() returns (r: real)
      ensures r == Rate(hits, misses)
    {
      var h := Hits();
      var m := Misses();
      if h == 0 && m == 0 {
        return 0.0;
      }
      r := h as real / (h + m) as real;
    }

    /** One minus the hit rate: with nothing counted yet this is 1, not 0. */
    method MissRate() returns (r: real)
      ensures r == 1.0 - Rate(hits, misses)
      ensures 0.0 <= r <= 1.0
      ensures hits + misses == 0 ==> r == 1.0
      ensures hits + misses > 0 ==> r * (hits + misses) as real == misses as real
    {
      var h := HitRate();
      r := 1.0 - h;
    }

    method GetMetrics() returns (m: Metrics)
      ensures m == this
    {
      m := this;
    }
  }
}
