/** The engine contract every caching strategy fulfils: Get, Set, SetWithTTL, Delete,
    Has, Len, IsExpirable, IsExpired and Evict. An engine is one of the four strategies;
    its contents at an instant are a `Snapshot`, a value on which the contract is stated
    once for all four. What a caller can observe at `now` is `Contents`: the keys Get
    would find and their values. */
module Engine {
  import opened Wrappers
  import Fifo
  import Lru
  import Lfu
  import Basic

  /** The contents of an engine of each strategy; a Basic engine also carries its
      time to live, which its Set adds to `now`. */
  datatype Snapshot<V> =
    | FifoSnap(fifo: Fifo.State<V>)
    | LruSnap(lru: Lru.State<V>)
    | LfuSnap(lfu: Lfu.State<V>)
    | BasicSnap(basic: map<string, Basic.Item<V>>, ttl: int)

  ghost predicate Inv<V>(s: Snapshot<V>)
  {
    match s
    case FifoSnap(f) => f.Inv()
    case LruSnap(l) => l.Inv()
    case LfuSnap(q) => Lfu.Inv(q)
    case BasicSnap(_, _) => true
  }

  /** Whether the strategy expires items: only Basic does. */
  predicate Expirable<V>(s: Snapshot<V>)
  {
    s.BasicSnap?
  }

  /** What a caller observes at `now`: every key Get finds, with its value. */
  function Contents<V>(s: Snapshot<V>, now: int): map<string, V>
  {
    match s
    case FifoSnap(f) => f.data
    case LruSnap(l) => l.data
    case LfuSnap(q) => Lfu.Contents(q)
    case BasicSnap(b, _) => map k | k in b && !Basic.Expired(b[k], now) :: b[k].value
  }

  /** What Get returns. */
  function Lookup<V>(s: Snapshot<V>, key: string, now: int): Option<V>
  {
    match s
    case FifoSnap(f) => Fifo.Lookup(f, key)
    case LruSnap(l) => Lru.Lookup(l, key)
    case LfuSnap(q) => Lfu.Lookup(q, key)
    case BasicSnap(b, _) => Basic.Lookup(b, key, now)
  }

  /** What Has returns. */
  predicate Present<V>(s: Snapshot<V>, key: string, now: int)
  {
    match s
    case FifoSnap(f) => key in f.data
    case LruSnap(l) => key in l.data
    case LfuSnap(q) => key in q.data
    case BasicSnap(b, _) => key in b && !Basic.Expired(b[key], now)
  }

  /** What Len returns. */
  function Size<V>(s: Snapshot<V>, now: int): int
  {
    match s
    case FifoSnap(f) => |f.data|
    case LruSnap(l) => |l.data|
    case LfuSnap(q) => |q.data|
    case BasicSnap(b, _) => |Basic.Counted(b, now)|
  }

  /** How many items the engine holds, expired or not. */
  function Stored<V>(s: Snapshot<V>): nat
  {
    match s
    case FifoSnap(f) => |f.data|
    case LruSnap(l) => |l.data|
    case LfuSnap(q) => |q.data|
    case BasicSnap(b, _) => |b|
  }

  /** What IsExpired returns: the three strategies without expiry never report a key
      expired; Basic reports a missing key as expired. */
  predicate ExpiredAt<V>(s: Snapshot<V>, key: string, now: int)
  {
    match s
    case BasicSnap(b, _) => key !in b || Basic.Expired(b[key], now)
    case _ => false
  }

  function AfterGet<V>(s: Snapshot<V>, key: string, now: int): Snapshot<V>
    requires Inv(s)
  {
    match s
    case FifoSnap(f) => s
    case LruSnap(l) => LruSnap(Lru.AfterGet(l, key))
    case LfuSnap(q) => Lfu.InvWellFormed(q); LfuSnap(Lfu.AfterGet(q, key))
    case BasicSnap(b, ttl) => BasicSnap(Basic.AfterGet(b, key, now), ttl)
  }

  function AfterSet<V>(s: Snapshot<V>, key: string, value: V, now: int): Snapshot<V>
    requires Inv(s)
  {
    match s
    case FifoSnap(f) => FifoSnap(Fifo.AfterSet(f, key, value))
    case LruSnap(l) => LruSnap(Lru.AfterSet(l, key, value))
    case LfuSnap(q) => Lfu.InvWellFormed(q); LfuSnap(Lfu.AfterSet(q, key, value))
    case BasicSnap(b, ttl) => BasicSnap(b[key := Basic.Item(value, now + ttl)], ttl)
  }

  /** SetWithTTL: the strategies without expiry ignore the instant and Set. */
  function AfterSetWithTTL<V>(s: Snapshot<V>, key: string, value: V, expiresAt: int): Snapshot<V>
    requires Inv(s)
  {
    match s
    case BasicSnap(b, ttl) => BasicSnap(b[key := Basic.Item(value, expiresAt)], ttl)
    case _ => AfterSet(s, key, value, expiresAt)
  }

  function AfterDelete<V>(s: Snapshot<V>, key: string): Snapshot<V>
    requires Inv(s)
  {
    match s
    case FifoSnap(f) => FifoSnap(Fifo.AfterDelete(f, key))
    case LruSnap(l) => LruSnap(Lru.AfterDelete(l, key))
    case LfuSnap(q) => Lfu.InvWellFormed(q); LfuSnap(Lfu.AfterDelete(q, key))
    case BasicSnap(b, ttl) => BasicSnap(b - {key}, ttl)
  }

  function AfterEvict<V>(s: Snapshot<V>, now: int): Snapshot<V>
    requires Inv(s)
  {
    match s
    case FifoSnap(f) => FifoSnap(Fifo.AfterEvict(f))
    case LruSnap(l) => LruSnap(Lru.AfterEvict(l))
    case LfuSnap(q) => Lfu.InvWellFormed(q); LfuSnap(Lfu.AfterEvict(q))
    case BasicSnap(b, ttl) => BasicSnap(Basic.Swept(b, now), ttl)
  }

  /** A new engine of each strategy is empty. */
  function Empty<V>(kind: Kind, ttl: int): (s: Snapshot<V>)
    ensures kind == BasicKind ==> s == BasicSnap(map[], ttl)
  {
    match kind
    case FifoKind => FifoSnap(Fifo.Empty())
    case LruKind => LruSnap(Lru.Empty())
    case LfuKind => LfuSnap(Lfu.Empty())
    case BasicKind => BasicSnap(map[], ttl)
  }

  datatype Kind = BasicKind | FifoKind | LruKind | LfuKind

  function KindOf<V>(s: Snapshot<V>): Kind
  {
    match s
    case FifoSnap(_) => FifoKind
    case LruSnap(_) => LruKind
    case LfuSnap(_) => LfuKind
    case BasicSnap(_, _) => BasicKind
  }

  // ---------------------------------------------------------------------------
  // The contract, for every strategy.

  /** A new engine keeps the invariant and holds nothing. */
  lemma EmptyContract<V>(kind: Kind, ttl: int, now: int)
    ensures Inv(Empty<V>(kind, ttl)) && KindOf(Empty<V>(kind, ttl)) == kind
    ensures Contents(Empty<V>(kind, ttl), now) == map[] && Size(Empty<V>(kind, ttl), now) == 0
  {
    match kind
    case FifoKind => Fifo.EmptyInv<V>();
    case LruKind =>
    case LfuKind => Lfu.EmptyInv<V>();
    case BasicKind =>
      assert Basic.Counted<V>(map[], now) == {};
  }

  /** Get returns a value exactly for the keys the caller can observe, and that key's
      value; it changes nothing observable (LRU and LFU only reorder, Basic only drops
      an expired key), and keeps the invariant. */
  lemma GetContract<V>(s: Snapshot<V>, key: string, now: int)
    requires Inv(s)
    ensures Lookup(s, key, now).Some? <==> key in Contents(s, now)
    ensures Lookup(s, key, now).Some? ==> Lookup(s, key, now).value == Contents(s, now)[key]
    ensures Inv(AfterGet(s, key, now))
    ensures Contents(AfterGet(s, key, now), now) == Contents(s, now)
    ensures KindOf(AfterGet(s, key, now)) == KindOf(s)
  {
    match s
    case FifoSnap(f) =>
    case LruSnap(l) => Lru.GetContract(l, key);
    case LfuSnap(q) => Lfu.GetContract(q, key);
    case BasicSnap(b, ttl) =>
      Basic.GetContract(b, key, now);
  }

  /** Set stores the value under the key, whether it was there or not, and leaves the
      other keys as they were; for Basic this holds when the time to live is not
      negative (with a negative one the item is expired as soon as it is stored). */
  lemma SetContract<V>(s: Snapshot<V>, key: string, value: V, now: int)
    requires Inv(s)
    requires Expirable(s) ==> s.ttl >= 0
    ensures Inv(AfterSet(s, key, value, now))
    ensures Contents(AfterSet(s, key, value, now), now) == Contents(s, now)[key := value]
    ensures KindOf(AfterSet(s, key, value, now)) == KindOf(s)
  {
    match s
    case FifoSnap(f) =>
      Fifo.SetContract(f, key, value);
      assert Fifo.AfterSet(f, key, value).data == f.data[key := value];
    case LruSnap(l) => Lru.SetContract(l, key, value);
    case LfuSnap(q) => Lfu.SetContract(q, key, value);
    case BasicSnap(b, ttl) =>
  }

  /** SetWithTTL stores the value; in a Basic engine an instant already past at `now`
      stores an item that is expired at once, so the key is then not observable. */
  lemma SetWithTTLContract<V>(s: Snapshot<V>, key: string, value: V, expiresAt: int, now: int)
    requires Inv(s)
    ensures Inv(AfterSetWithTTL(s, key, value, expiresAt))
    ensures !Expirable(s) || expiresAt >= now ==>
      Contents(AfterSetWithTTL(s, key, value, expiresAt), now) == Contents(s, now)[key := value]
    ensures Expirable(s) && expiresAt < now ==>
      Contents(AfterSetWithTTL(s, key, value, expiresAt), now) == Contents(s, now) - {key}
    ensures KindOf(AfterSetWithTTL(s, key, value, expiresAt)) == KindOf(s)
  {
    if !Expirable(s) {
      SetContract(s, key, value, expiresAt);
    }
  }

  /** Delete removes exactly the key; an absent key changes nothing observable. */
  lemma DeleteContract<V>(s: Snapshot<V>, key: string, now: int)
    requires Inv(s)
    ensures Inv(AfterDelete(s, key))
    ensures Contents(AfterDelete(s, key), now) == Contents(s, now) - {key}
    ensures KindOf(AfterDelete(s, key)) == KindOf(s)
  {
    match s
    case FifoSnap(f) => DeletedFifo(f, key);
    case LruSnap(l) => DeletedLru(l, key);
    case LfuSnap(q) => Lfu.DeleteContract(q, key);
    case BasicSnap(b, ttl) =>
  }

  lemma DeletedFifo<V>(f: Fifo.State<V>, key: string)
    requires f.Inv()
    ensures Fifo.AfterDelete(f, key).Inv() && Fifo.AfterDelete(f, key).data == f.data - {key}
  {
    Fifo.DeleteContract(f, key);
  }

  lemma DeletedLru<V>(l: Lru.State<V>, key: string)
    requires l.Inv()
    ensures Lru.AfterDelete(l, key).Inv() && Lru.AfterDelete(l, key).data == l.data - {key}
  {
    Lru.DeleteContract(l, key);
  }

  /** How Get, Set and Delete change the number of items held: Get only drops an
      expired Basic item, Set of a new key to one of the three policies adds one, and
      Delete never adds. */
  lemma GetStored<V>(s: Snapshot<V>, key: string, now: int)
    requires Inv(s)
    ensures Stored(AfterGet(s, key, now)) <= Stored(s)
    ensures !Expirable(s) ==> Stored(AfterGet(s, key, now)) == Stored(s)
  {
    GetContract(s, key, now);
    match s
    case BasicSnap(b, ttl) =>
      if key in b {
        RemovedOne(b, key);
      }
    case _ =>
      LenContract(s, now);
      LenContract(AfterGet(s, key, now), now);
  }

  lemma SetStored<V>(s: Snapshot<V>, key: string, value: V, now: int)
    requires Inv(s) && !Expirable(s)
    ensures Stored(AfterSet(s, key, value, now)) == if Present(s, key, now) then Stored(s) else Stored(s) + 1
  {
    SetContract(s, key, value, now);
    HasContract(s, key, now);
    LenContract(s, now);
    LenContract(AfterSet(s, key, value, now), now);
  }

  lemma DeleteStored<V>(s: Snapshot<V>, key: string, now: int)
    requires Inv(s)
    ensures Stored(AfterDelete(s, key)) <= Stored(s)
  {
    DeleteContract(s, key, now);
    match s
    case BasicSnap(b, ttl) =>
      if key in b {
        RemovedOne(b, key);
      }
    case _ =>
      LenContract(s, now);
      LenContract(AfterDelete(s, key), now);
      var c := Contents(s, now);
      if key in c {
        RemovedOne(c, key);
      } else {
        assert c - {key} == c;
      }
  }

  /** Has answers whether the key is observable, which is whether Get finds it. */
  lemma HasContract<V>(s: Snapshot<V>, key: string, now: int)
    requires Inv(s)
    ensures Present(s, key, now) <==> key in Contents(s, now)
    ensures Present(s, key, now) <==> Lookup(s, key, now).Some?
  {
    match s
    case LfuSnap(q) =>
    case _ =>
  }

  /** Len counts the observable keys, which for the three policies are all the items
      held. Basic leaves out the keys whose instant is exactly `now`, so it never
      counts more than are observable, nor more than it holds. */
  lemma LenContract<V>(s: Snapshot<V>, now: int)
    requires Inv(s)
    ensures !Expirable(s) ==> Size(s, now) == |Contents(s, now)| == Stored(s)
    ensures Expirable(s) ==> 0 <= Size(s, now) <= |Contents(s, now)| <= Stored(s)
    ensures Expirable(s) ==> forall k :: k in Contents(s, now) && s.basic[k].expiresAt != now <==>
      k in Basic.Counted(s.basic, now)
  {
    match s
    case FifoSnap(f) =>
    case LruSnap(l) =>
    case LfuSnap(q) =>
      assert Lfu.Contents(q).Keys == q.data.Keys;
    case BasicSnap(b, ttl) =>
      var c := Contents(s, now);
      assert Basic.Counted(b, now) <= c.Keys <= b.Keys;
      Basic.SubsetSize(Basic.Counted(b, now), c.Keys);
      Basic.SubsetSize(c.Keys, b.Keys);
  }

  /** Only Basic expires items, and it reports expired exactly the keys that are not
      observable. */
  lemma ExpiredContract<V>(s: Snapshot<V>, key: string, now: int)
    requires Inv(s)
    ensures ExpiredAt(s, key, now) <==> Expirable(s) && key !in Contents(s, now)
  {
  }

  /** `m` holds some of the keys of `n`, each with the same value. */
  ghost predicate SubMap<V>(m: map<string, V>, n: map<string, V>)
  {
    m.Keys <= n.Keys && forall k :: k in m ==> m[k] == n[k]
  }

  /** Adding a key absent from `m` to a map that lacks exactly one of `m`'s keys. */
  lemma AddedNew<V>(m: map<string, V>, n: map<string, V>, key: string, value: V)
    requires SubMap(n, m) && key !in m && |n| == |m| - 1
    ensures SubMap(n[key := value] - {key}, m) && |n[key := value]| == |m|
  {
    assert n[key := value] - {key} == n;
  }

  /** Evict removes and never adds, changes no remaining value, and keeps the
      invariant. The three policies remove exactly one key when there is one (which
      one is each policy's own contract); Basic removes only items already expired,
      so nothing observable changes. */
  lemma EvictContract<V>(s: Snapshot<V>, now: int)
    requires Inv(s)
    ensures Inv(AfterEvict(s, now)) && KindOf(AfterEvict(s, now)) == KindOf(s)
    ensures SubMap(Contents(AfterEvict(s, now), now), Contents(s, now))
    ensures !Expirable(s) && |Contents(s, now)| > 0 ==>
      |Contents(AfterEvict(s, now), now)| == |Contents(s, now)| - 1
    ensures !Expirable(s) && |Contents(s, now)| == 0 ==> AfterEvict(s, now) == s
    ensures Expirable(s) ==> Contents(AfterEvict(s, now), now) == Contents(s, now)
    ensures !Expirable(s) ==> Stored(AfterEvict(s, now)) == if Stored(s) > 0 then Stored(s) - 1 else 0
    ensures Stored(AfterEvict(s, now)) <= Stored(s)
  {
    match s
    case FifoSnap(f) =>
      Fifo.EvictContract(f);
      if |f.data| > 0 {
        RemovedOne(f.data, f.evictionList[0]);
      }
    case LruSnap(l) =>
      Lru.EvictContract(l);
      if |l.data| > 0 {
        RemovedOne(l.data, l.evictionList[|l.evictionList| - 1]);
      }
    case LfuSnap(q) =>
      Lfu.InvWellFormed(q);
      EvictedLfu(q);
    case BasicSnap(b, ttl) => EvictedBasic(b, now);
  }

  lemma RemovedOne<V>(m: map<string, V>, k: string)
    requires k in m
    ensures |m - {k}| == |m| - 1 && SubMap(m - {k}, m)
  {
    assert (m - {k}).Keys == m.Keys - {k};
  }

  lemma EvictedLfu<V>(q: Lfu.State<V>)
    requires Lfu.Inv(q) && Lfu.WellFormed(q)
    ensures Lfu.Inv(Lfu.AfterEvict(q))
    ensures SubMap(Lfu.Contents(Lfu.AfterEvict(q)), Lfu.Contents(q))
    ensures |Lfu.Contents(q)| == |q.data|
    ensures |q.data| > 0 ==> |Lfu.Contents(Lfu.AfterEvict(q))| == |Lfu.AfterEvict(q).data| == |q.data| - 1
    ensures |q.data| == 0 ==> Lfu.AfterEvict(q) == q
  {
    Lfu.EvictContract(q);
    assert Lfu.Contents(q).Keys == q.data.Keys;
    if |q.data| > 0 {
      RemovedOne(Lfu.Contents(q), q.heap[0]);
      assert Lfu.Contents(Lfu.AfterEvict(q)).Keys == Lfu.AfterEvict(q).data.Keys;
    }
  }

  lemma EvictedBasic<V>(b: map<string, Basic.Item<V>>, now: int)
    ensures Contents(BasicSnap(Basic.Swept(b, now), 0), now) == Contents(BasicSnap(b, 0), now)
    ensures |Basic.Swept(b, now)| <= |b|
  {
    Basic.SweptContract(b, now);
    Basic.SubsetSize(Basic.Swept(b, now).Keys, b.Keys);
  }

  // ---------------------------------------------------------------------------
  // The engines as one value: a reference to the strategy's struct.

  datatype Engine<V> =
    | FifoEngine(fifo: Fifo.FIFO<V>)
    | LruEngine(lru: Lru.LRU<V>)
    | LfuEngine(lfu: Lfu.LFU<V>)
    | BasicEngine(basic: Basic.Basic<V>)
  {
    /** The struct behind the engine. */
    ghost function Obj(): object
    {
      match this
      case FifoEngine(e) => e
      case LruEngine(e) => e
      case LfuEngine(e) => e
      case BasicEngine(e) => e
    }

    ghost function Repr(): set<object>
    {
      {Obj()}
    }

    /** The engine's contents. */
    ghost function Snap(): Snapshot<V>
      reads Repr()
    {
      match this
      case FifoEngine(e) => FifoSnap(e.View())
      case LruEngine(e) => LruSnap(e.View())
      case LfuEngine(e) => LfuSnap(e.View())
      case BasicEngine(e) => BasicSnap(e.data, e.ttl)
    }

    ghost predicate Valid()
      reads Repr()
    {
      Inv(Snap())
    }

    method Get(key: string, now: int) returns (r: Option<V>)
      requires Valid()
      modifies Repr()
      ensures Valid() && Snap() == AfterGet(old(Snap()), key, now)
      ensures r == Lookup(old(Snap()), key, now)
    {
      match this
      case FifoEngine(e) => r := e.Get(key);
      case LruEngine(e) => r := e.Get(key);
      case LfuEngine(e) => r := e.Get(key);
      case BasicEngine(e) => r := e.Get(key, now);
    }

    method Set(key: string, value: V, now: int)
      requires Valid()
      modifies Repr()
      ensures Valid() && Snap() == AfterSet(old(Snap()), key, value, now)
    {
      match this
      case FifoEngine(e) => e.Set(key, value);
      case LruEngine(e) => e.Set(key, value);
      case LfuEngine(e) => e.Set(key, value);
      case BasicEngine(e) => e.Set(key, value, now);
    }

    method SetWithTTL(key: string, value: V, expiresAt: int)
      requires Valid()
      modifies Repr()
      ensures Valid() && Snap() == AfterSetWithTTL(old(Snap()), key, value, expiresAt)
    {
      match this
      case FifoEngine(e) => e.SetWithTTL(key, value, expiresAt);
      case LruEngine(e) => e.SetWithTTL(key, value, expiresAt);
      case LfuEngine(e) => e.SetWithTTL(key, value, expiresAt);
      case BasicEngine(e) => e.SetWithTTL(key, value, expiresAt);
    }

    method Delete(key: string)
      requires Valid()
      modifies Repr()
      ensures Valid() && Snap() == AfterDelete(old(Snap()), key)
    {
      match this
      case FifoEngine(e) => e.Delete(key);
      case LruEngine(e) => e.Delete(key);
      case LfuEngine(e) => e.Delete(key);
      case BasicEngine(e) => e.Delete(key);
    }

    method Has(key: string, now: int) returns (r: bool)
      requires Valid()
      ensures r <==> Present(Snap(), key, now)
    {
      match this
      case FifoEngine(e) => r := e.Has(key);
      case LruEngine(e) => r := e.Has(key);
      case LfuEngine(e) => r := e.Has(key);
      case BasicEngine(e) => r := e.Has(key, now);
    }

    method Len(now: int) returns (n: int)
      requires Valid()
      ensures n == Size(Snap(), now)
    {
      match this
      case FifoEngine(e) => n := e.Len();
      case LruEngine(e) => n := e.Len();
      case LfuEngine(e) => n := e.Len();
      case BasicEngine(e) => n := e.Len(now);
    }

    method IsExpirable() returns (r: bool)
      ensures r <==> this.BasicEngine?
    {
      match this
      case FifoEngine(e) => r := e.IsExpirable();
      case LruEngine(e) => r := e.IsExpirable();
      case LfuEngine(e) => r := e.IsExpirable();
      case BasicEngine(e) => r := e.IsExpirable();
    }

    method IsExpired(key: string, now: int) returns (r: bool)
      requires Valid()
      ensures r <==> ExpiredAt(Snap(), key, now)
    {
      match this
      case FifoEngine(e) => r := e.IsExpired(key);
      case LruEngine(e) => r := e.IsExpired(key);
      case LfuEngine(e) => r := e.IsExpired(key);
      case BasicEngine(e) => r := e.IsExpired(key, now);
    }

    method Evict(now: int)
      requires Valid()
      modifies Repr()
      ensures Valid() && Snap() == AfterEvict(old(Snap()), now)
    {
      match this
      case FifoEngine(e) => e.Evict();
      case LruEngine(e) => e.Evict();
      case LfuEngine(e) => e.Evict();
      case BasicEngine(e) => e.Evict(now);
    }
  }
}
