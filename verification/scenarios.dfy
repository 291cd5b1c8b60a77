/** The repository's tests as statements about the model: each test's settings and
    its calls on the front end, all at one instant `now`, written out state by
    state, and what the test expects afterwards. */
module Scenarios {
  import opened Wrappers
  import opened CacheConfig
  import Engine
  import Cache
  import KeyList
  import Basic
  import Fifo
  import Lru
  import Lfu

  /** The settings a test passes to New, with every field it leaves out at zero. */
  function Tested(policy: int, maxSize: int, ttl: int): (c: Config)
    ensures c == Config(policy, maxSize, ttl, 10 * Second, 0, 0, false)
  {
    Resolve(Some(Config(policy, maxSize, ttl, 0, 0, 0, false)))
  }

  /** FIFO with MaxSize 2: Set A, B and C; the third Set evicts A, the first in. */
  lemma FifoEviction(now: int)
    ensures var c := Tested(FifoPolicy, 2, 0);
      && Engine.Empty<string>(Cache.Selected(c.evictionPolicy), c.ttl) == Engine.FifoSnap(Fifo.Empty())
      && Cache.SetOutcome(Engine.FifoSnap(Fifo.Empty<string>()), c, "A", "Item A", now) == FifoA()
      && Cache.SetOutcome(FifoA(), c, "B", "Item B", now) == FifoAB()
      && Cache.SetOutcome(FifoAB(), c, "C", "Item C", now) == FifoBC()
      && !Engine.Present(FifoBC(), "A", now) && Engine.Present(FifoBC(), "B", now) && Engine.Present(FifoBC(), "C", now)
  {
    FifoSetAB(now);
    FifoSetC(now);
  }

  function FifoA(): Engine.Snapshot<string>
  {
    Engine.FifoSnap(Fifo.State(map["A" := "Item A"], ["A"]))
  }

  function FifoAB(): Engine.Snapshot<string>
  {
    Engine.FifoSnap(Fifo.State(map["A" := "Item A", "B" := "Item B"], ["A", "B"]))
  }

  function FifoBC(): Engine.Snapshot<string>
  {
    Engine.FifoSnap(Fifo.State(map["B" := "Item B", "C" := "Item C"], ["B", "C"]))
  }

  lemma FifoSetAB(now: int)
    ensures Cache.SetOutcome(Engine.FifoSnap(Fifo.Empty<string>()), Tested(FifoPolicy, 2, 0), "A", "Item A", now) == FifoA()
    ensures Cache.SetOutcome(FifoA(), Tested(FifoPolicy, 2, 0), "B", "Item B", now) == FifoAB()
  {
  }

  /** The engine is full, so C's Set first evicts A from the front of the queue. */
  lemma FifoSetC(now: int)
    ensures Cache.SetOutcome(FifoAB(), Tested(FifoPolicy, 2, 0), "C", "Item C", now) == FifoBC()
  {
  }

  // ---------------------------------------------------------------------------
  // The Basic tests: MaxSize 3 and a time to live of 60 seconds.

  function BasicTested(): Config
  {
    Tested(BasicPolicy, 3, 60 * Second)
  }

  function BasicA(now: int): Engine.Snapshot<string>
  {
    Engine.BasicSnap(map["A" := Basic.Item("Item A", now + 60 * Second)], 60 * Second)
  }

  function BasicAB(now: int): Engine.Snapshot<string>
  {
    Engine.BasicSnap(map["A" := Basic.Item("Item A", now + 60 * Second),
                         "B" := Basic.Item("Item B", now + 60 * Second)], 60 * Second)
  }

  /** Set A and B, then Get finds A and B with their values, and not X. */
  lemma BasicSetGet(now: int)
    ensures var c := BasicTested();
      && Engine.Empty<string>(Cache.Selected(c.evictionPolicy), c.ttl) == Engine.BasicSnap(map[], 60 * Second)
      && Cache.SetOutcome(Engine.BasicSnap(map[], 60 * Second), c, "A", "Item A", now) == BasicA(now)
      && Cache.SetOutcome(BasicA(now), c, "B", "Item B", now) == BasicAB(now)
      && Engine.Lookup(BasicAB(now), "A", now) == Some("Item A")
      && Engine.AfterGet(BasicAB(now), "A", now) == BasicAB(now)
      && Engine.Lookup(BasicAB(now), "B", now) == Some("Item B")
      && Engine.AfterGet(BasicAB(now), "B", now) == BasicAB(now)
      && Engine.Lookup(BasicAB(now), "X", now) == None
  {
  }

  /** Set A, Delete A, and Get no longer finds A. */
  lemma BasicDelete(now: int)
    ensures var c := BasicTested();
      && Cache.SetOutcome(Engine.BasicSnap(map[], 60 * Second), c, "A", "Item A", now) == BasicA(now)
      && Engine.AfterDelete(BasicA(now), "A") == Engine.BasicSnap(map[], 60 * Second)
      && Engine.Lookup<string>(Engine.BasicSnap(map[], 60 * Second), "A", now) == None
  {
  }

  /** Set A; Has reports A and not B. */
  lemma BasicHas(now: int)
    ensures Engine.Present(BasicA(now), "A", now) && !Engine.Present(BasicA(now), "B", now)
  {
  }

  /** Set A and B; Len is 2. */
  lemma BasicLen(now: int)
    ensures Engine.Size(BasicAB(now), now) == 2
  {
    var b := BasicAB(now).basic;
    assert Basic.Counted(b, now) == {"A", "B"} by {
      forall k ensures k in Basic.Counted(b, now) <==> k in {"A", "B"} {
      }
    }
  }

  /** A Basic cache whose time to live is 0 (which its settings describe as "never
      expire"): a Set at `now` stores the item expiring at `now` itself, so Get finds
      it at `now`, Len does not count it even then, and one nanosecond later it is
      gone. */
  lemma BasicZeroTTL(now: int)
    ensures var t := Cache.SetOutcome(Engine.BasicSnap(map[], 0), Tested(BasicPolicy, 0, 0), "A", "Item A", now);
      && t == Engine.BasicSnap(map["A" := Basic.Item("Item A", now)], 0)
      && Engine.Lookup(t, "A", now) == Some("Item A")
      && Engine.Size(t, now) == 0
      && Engine.Lookup(t, "A", now + 1) == None
  {
    var b := map["A" := Basic.Item("Item A", now)];
    assert Basic.Counted(b, now) == {} by {
      forall k ensures k !in Basic.Counted(b, now) {
      }
    }
  }

  /** LRU with MaxSize 2: Set A and B, Get A, Set C; the third Set evicts B, the
      least recently used. */
  lemma LruEviction(now: int)
    ensures var c := Tested(LruPolicy, 2, 0);
      && Engine.Empty<string>(Cache.Selected(c.evictionPolicy), c.ttl) == Engine.LruSnap(Lru.Empty())
      && Cache.SetOutcome(Engine.LruSnap(Lru.Empty<string>()), c, "A", "Item A", now) == LruA()
      && Cache.SetOutcome(LruA(), c, "B", "Item B", now) == LruBA()
      && Engine.AfterGet(LruBA(), "A", now) == LruAB()
      && Cache.SetOutcome(LruAB(), c, "C", "Item C", now) == LruCA()
      && !Engine.Present(LruCA(), "B", now) && Engine.Present(LruCA(), "A", now) && Engine.Present(LruCA(), "C", now)
  {
    LruSetAB(now);
    LruGetA(now);
    LruSetC(now);
  }

  function LruA(): Engine.Snapshot<string>
  {
    Engine.LruSnap(Lru.State(map["A" := "Item A"], ["A"]))
  }

  function LruBA(): Engine.Snapshot<string>
  {
    Engine.LruSnap(Lru.State(map["A" := "Item A", "B" := "Item B"], ["B", "A"]))
  }

  function LruAB(): Engine.Snapshot<string>
  {
    Engine.LruSnap(Lru.State(map["A" := "Item A", "B" := "Item B"], ["A", "B"]))
  }

  function LruCA(): Engine.Snapshot<string>
  {
    Engine.LruSnap(Lru.State(map["A" := "Item A", "C" := "Item C"], ["C", "A"]))
  }

  lemma LruSetAB(now: int)
    ensures Cache.SetOutcome(Engine.LruSnap(Lru.Empty<string>()), Tested(LruPolicy, 2, 0), "A", "Item A", now) == LruA()
    ensures Cache.SetOutcome(LruA(), Tested(LruPolicy, 2, 0), "B", "Item B", now) == LruBA()
  {
  }

  lemma LruGetA(now: int)
    ensures Engine.AfterGet(LruBA(), "A", now) == LruAB()
  {
    assert KeyList.Without(["B", "A"], "A") == ["B"] by {
      assert ["B", "A"][1..] == ["A"];
    }
  }

  lemma LruSetC(now: int)
    ensures Cache.SetOutcome(LruAB(), Tested(LruPolicy, 2, 0), "C", "Item C", now) == LruCA()
  {
  }

  /** LFU with MaxSize 2: Set A and B, Get A twice, Set C; the third Set evicts B,
      used once against A's three uses. */
  lemma LfuEviction(now: int)
    ensures var c := Tested(LfuPolicy, 2, 0);
      && Engine.Empty<string>(Cache.Selected(c.evictionPolicy), c.ttl) == Engine.LfuSnap(Lfu.Empty())
      && Lfu.Inv(Lfu.Empty<string>())
      && Cache.SetOutcome(Engine.LfuSnap(Lfu.Empty<string>()), c, "A", "Item A", now) == Engine.LfuSnap(LfuA())
      && Lfu.Inv(LfuA())
      && Cache.SetOutcome(Engine.LfuSnap(LfuA()), c, "B", "Item B", now) == Engine.LfuSnap(LfuAB())
      && Lfu.Inv(LfuAB())
      && Engine.AfterGet(Engine.LfuSnap(LfuAB()), "A", now) == Engine.LfuSnap(LfuBA(2))
      && Lfu.Inv(LfuBA(2))
      && Engine.AfterGet(Engine.LfuSnap(LfuBA(2)), "A", now) == Engine.LfuSnap(LfuBA(3))
      && Lfu.Inv(LfuBA(3))
      && Cache.SetOutcome(Engine.LfuSnap(LfuBA(3)), c, "C", "Item C", now) == Engine.LfuSnap(LfuCA())
      && !Engine.Present(Engine.LfuSnap(LfuCA()), "B", now)
      && Engine.Present(Engine.LfuSnap(LfuCA()), "A", now)
      && Engine.Present(Engine.LfuSnap(LfuCA()), "C", now)
  {
    LfuSetAB(now);
    LfuGetA();
    LfuSetC(now);
    LfuStatesInv();
  }

  /** Every state of the LFU run keeps the engine's invariant. */
  lemma LfuStatesInv()
    ensures Lfu.Inv(LfuA()) && Lfu.Inv(LfuAB()) && Lfu.Inv(LfuBA(2)) && Lfu.Inv(LfuBA(3))
  {
    Lfu.EmptyInv<string>();
    LfuSetAB(0);
    Lfu.SetContract(Lfu.Empty<string>(), "A", "Item A");
    Lfu.SetContract(LfuA(), "B", "Item B");
    LfuGetA();
    Lfu.GetContract(LfuAB(), "A");
    Lfu.GetContract(LfuBA(2), "A");
  }

  /** A alone, used once. */
  function LfuA(): Lfu.State<string>
  {
    Lfu.State(map["A" := Lfu.Item("Item A", 1, 0)], ["A"])
  }

  /** A and B, each used once, A at the root. */
  function LfuAB(): Lfu.State<string>
  {
    Lfu.State(map["A" := Lfu.Item("Item A", 1, 0), "B" := Lfu.Item("Item B", 1, 1)], ["A", "B"])
  }

  /** A used `n` times, B once, B at the root. */
  function LfuBA(n: int): Lfu.State<string>
  {
    Lfu.State(map["A" := Lfu.Item("Item A", n, 1), "B" := Lfu.Item("Item B", 1, 0)], ["B", "A"])
  }

  /** A alone after B's eviction. */
  function LfuA3(): Lfu.State<string>
  {
    Lfu.State(map["A" := Lfu.Item("Item A", 3, 0)], ["A"])
  }

  /** C, used once, at the root; A, used three times, below it. */
  function LfuCA(): Lfu.State<string>
  {
    Lfu.State(map["A" := Lfu.Item("Item A", 3, 1), "C" := Lfu.Item("Item C", 1, 0)], ["C", "A"])
  }

  lemma LfuSetAB(now: int)
    ensures Cache.SetOutcome(Engine.LfuSnap(Lfu.Empty<string>()), Tested(LfuPolicy, 2, 0), "A", "Item A", now) == Engine.LfuSnap(LfuA())
    ensures Cache.SetOutcome(Engine.LfuSnap(LfuA()), Tested(LfuPolicy, 2, 0), "B", "Item B", now) == Engine.LfuSnap(LfuAB())
    ensures Lfu.AfterSet(Lfu.Empty(), "A", "Item A") == LfuA()
    ensures Lfu.AfterSet(LfuA(), "B", "Item B") == LfuAB()
  {
    LfuPushA();
    LfuPushB();
  }

  lemma LfuPushA()
    ensures Lfu.AfterSet(Lfu.Empty(), "A", "Item A") == LfuA()
  {
  }

  /** B, as frequently used as A, stays below it. */
  lemma LfuPushB()
    ensures Lfu.AfterSet(LfuA(), "B", "Item B") == LfuAB()
  {
  }

  /** The first Get moves A below B; the second leaves the heap as it is. */
  lemma LfuGetA()
    ensures Lfu.AfterGet(LfuAB(), "A") == LfuBA(2)
    ensures Lfu.AfterGet(LfuBA(2), "A") == LfuBA(3)
  {
  }

  /** Evict pops B, the root; the new key C then rises above A. */
  lemma LfuSetC(now: int)
    ensures Lfu.AfterEvict(LfuBA(3)) == LfuA3()
    ensures Cache.SetOutcome(Engine.LfuSnap(LfuBA(3)), Tested(LfuPolicy, 2, 0), "C", "Item C", now) == Engine.LfuSnap(LfuCA())
  {
    LfuEvictB();
    LfuPushC();
  }

  lemma LfuEvictB()
    ensures Lfu.AfterEvict(LfuBA(3)) == LfuA3()
  {
  }

  lemma LfuPushC()
    ensures Lfu.AfterSet(LfuA3(), "C", "Item C") == LfuCA()
  {
  }

  /** The source's own Set of C (with the index assignment after heap.Push as
      written): C still rises to the root, so Has gives the answers the test expects,
      but C records slot 1, which A records as well. */
  lemma LfuSetCAsWritten()
    ensures var t := Lfu.AfterSetAsWritten(LfuA3(), "C", "Item C");
      && t == Lfu.State(map["A" := Lfu.Item("Item A", 3, 1), "C" := Lfu.Item("Item C", 1, 1)], ["C", "A"])
      && t.data["C"].index == 1 && t.data["A"].index == 1
      && !Lfu.Placed(t)
      && Lfu.Contents(t) == Lfu.Contents(LfuCA())
  {
    LfuPushC();
    var t := Lfu.AfterSetAsWritten(LfuA3(), "C", "Item C");
    assert t.heap[0] in t.data && t.data[t.heap[0]].index != 0;
  }
}
