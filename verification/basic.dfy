/** The Basic engine: a map from key to an item that carries its expiry instant,
    with no eviction policy other than expiry. Instants are integers (nanoseconds);
    the clock reading that the source takes with `time.Now()` is the parameter `now`.
    An item is expired at `now` when `now` is after its instant; at the instant itself
    it is still live for Get, Has and IsExpired, but Len counts only items whose
    instant is after `now`, and Evict removes only items whose instant is before it. */
module Basic {
  import opened Wrappers

  /** The record behind one `*cacheItem`; its key is its map key. */
  datatype Item<V> = Item(value: V, expiresAt: int)

  /** `time.Now().After(item.expiresAt)`. */
  predicate Expired<V>(item: Item<V>, now: int)
  {
    now > item.expiresAt
  }

  /** What Get returns at `now`. */
  function Lookup<V>(data: map<string, Item<V>>, key: string, now: int): Option<V>
  {
    if key !in data || Expired(data[key], now) then None else Some(data[key].value)
  }

  /** Get: a missing or expired key is deleted (deleting a missing key does nothing). */
  function AfterGet<V>(data: map<string, Item<V>>, key: string, now: int): map<string, Item<V>>
  {
    if key !in data || Expired(data[key], now) then data - {key} else data
  }

  /** The keys Len counts at `now`: those whose instant is after `now`. */
  function Counted<V>(data: map<string, Item<V>>, now: int): set<string>
  {
    set k | k in data && data[k].expiresAt > now
  }

  /** The keys among `ks` that Len counts at `now`. */
  ghost function CountedAmong<V>(data: map<string, Item<V>>, ks: set<string>, now: int): set<string>
  {
    set k | k in ks && k in data && data[k].expiresAt > now
  }

  /** Taking one more key into account adds it to the counted keys exactly when its
      instant is after `now`. */
  lemma CountedAmongAdd<V>(data: map<string, Item<V>>, ks: set<string>, k: string, now: int)
    requires k in data && k !in ks
    ensures |CountedAmong(data, ks + {k}, now)| ==
      |CountedAmong(data, ks, now)| + if data[k].expiresAt > now then 1 else 0
  {
    if data[k].expiresAt > now {
      assert CountedAmong(data, ks + {k}, now) == CountedAmong(data, ks, now) + {k};
    } else {
      assert CountedAmong(data, ks + {k}, now) == CountedAmong(data, ks, now);
    }
  }

  /** What Evict and one round of the cleanup sweep leave: every item whose instant is
      not before `now`. */
  function Swept<V>(data: map<string, Item<V>>, now: int): map<string, Item<V>>
  {
    map k | k in data && !(data[k].expiresAt < now) :: data[k]
  }

  /** Get returns a key's value exactly when the key is present and not expired, and
      then leaves the map as it is; otherwise the key is gone afterwards and nothing
      else changes. */
  lemma GetContract<V>(data: map<string, Item<V>>, key: string, now: int)
    ensures Lookup(data, key, now).Some? <==> key in data && data[key].expiresAt >= now
    ensures Lookup(data, key, now).Some? ==>
      Lookup(data, key, now).value == data[key].value && AfterGet(data, key, now) == data
    ensures Lookup(data, key, now).None? ==>
      key !in AfterGet(data, key, now) && AfterGet(data, key, now) == data - {key}
  {
  }

  /** A value stored with an instant that is not before `now` is found at `now`; a
      Set with a non-negative time to live is such a store. */
  lemma SetThenGet<V>(data: map<string, Item<V>>, key: string, value: V, expiresAt: int, now: int)
    requires expiresAt >= now
    ensures Lookup(data[key := Item(value, expiresAt)], key, now) == Some(value)
    ensures AfterGet(data[key := Item(value, expiresAt)], key, now) == data[key := Item(value, expiresAt)]
  {
  }

  /** A store under one key does not change what Get finds under another. */
  lemma SetOtherKey<V>(data: map<string, Item<V>>, key: string, other: string, item: Item<V>, now: int)
    requires other != key
    ensures Lookup(data[key := item], other, now) == Lookup(data, other, now)
  {
  }

  /** At the instant itself an item is found by Get and Has and is not expired, but
      Len does not count it. */
  lemma ExpiryBoundary<V>(data: map<string, Item<V>>, key: string, now: int)
    requires key in data && data[key].expiresAt == now
    ensures Lookup(data, key, now) == Some(data[key].value)
    ensures !Expired(data[key], now)
    ensures key !in Counted(data, now)
  {
  }

  /** Len never counts more keys than are stored, and counts every key Get would find
      except those at their instant. */
  lemma CountedBounds<V>(data: map<string, Item<V>>, now: int)
    ensures Counted(data, now) <= data.Keys && |Counted(data, now)| <= |data|
    ensures forall k :: k in Counted(data, now) <==>
      Lookup(data, k, now).Some? && data[k].expiresAt != now
  {
    var c := Counted(data, now);
    assert c <= data.Keys;
    SubsetSize(c, data.Keys);
  }

  lemma {:induction false} SubsetSize(a: set<string>, b: set<string>)
    requires a <= b
    ensures |a| <= |b|
    decreases |b|
  {
    if a != {} {
      var x :| x in a;
      SubsetSize(a - {x}, b - {x});
    }
  }

  /** The sweep removes exactly the items whose instant is before `now`, keeps the
      others unchanged, and a second sweep at the same instant removes nothing. */
  lemma SweptContract<V>(data: map<string, Item<V>>, now: int)
    ensures forall k :: k in Swept(data, now) <==> k in data && data[k].expiresAt >= now
    ensures forall k :: k in Swept(data, now) ==> Swept(data, now)[k] == data[k]
    ensures Swept(Swept(data, now), now) == Swept(data, now)
  {
  }

  /** At the instant it runs, the sweep changes nothing that Get, Has or Len report:
      it only drops items that are already expired. */
  lemma SweepUnobservable<V>(data: map<string, Item<V>>, now: int)
    ensures forall k :: Lookup(Swept(data, now), k, now) == Lookup(data, k, now)
    ensures Counted(Swept(data, now), now) == Counted(data, now)
  {
    forall k ensures Lookup(Swept(data, now), k, now) == Lookup(data, k, now) {
      if k in data && data[k].expiresAt < now {
        assert Expired(data[k], now);
      }
    }
  }

  class Basic<V> {
    var data: map<string, Item<V>>
    const maxSize: int
    const ttl: int
    const cleanupInterval: int

    /** New: an empty map and the three settings; `maxSize` is kept but no operation
        reads it. The cleanup goroutine is not part of this model. */
    constructor (maxSize: int, ttl: int, cleanupInterval: int)
      ensures data == map[]
      ensures this.maxSize == maxSize && this.ttl == ttl && this.cleanupInterval == cleanupInterval
    {
      data := map[];
      this.maxSize := maxSize;
      this.ttl := ttl;
      this.cleanupInterval := cleanupInterval;
    }

    method Get(key: string, now: int) returns (r: Option<V>)
      modifies this
      ensures r == Lookup(old(data), key, now)
      ensures data == AfterGet(old(data), key, now)
    {
      if key !in data || now > data[key].expiresAt {
        data := data - {key};
        return None;
      }
      r := Some(data[key].value);
    }

    /** The item expires `ttl` after `now`. */
    method Set(key: string, value: V, now: int)
      modifies this
      ensures data == old(data)[key := Item(value, now + ttl)]
    {
      data := data[key := Item(value, now + ttl)];
    }

    method SetWithTTL(key: string, value: V, expiresAt: int)
      modifies this
      ensures data == old(data)[key := Item(value, expiresAt)]
    {
      data := data[key := Item(value, expiresAt)];
    }

    method Delete(key: string)
      modifies this
      ensures data == old(data) - {key}
    {
      data := data - {key};
    }

    /** Present and not expired; the map is not changed. */
    method Has(key: string, now: int) returns (r: bool)
      ensures r <==> key in data && data[key].expiresAt >= now
      ensures r <==> Lookup(data, key, now).Some?
    {
      if key !in data {
        return false;
      }
      if now > data[key].expiresAt {
        return false;
      }
      return true;
    }

    /** Counts, over the map in some order, the items whose instant is after `now`. */
    method Len(now: int) returns (count: int)
      ensures count == |Counted(data, now)|
    {
      count := 0;
      var rest := data.Keys;
      ghost var done: set<string> := {};
      while rest != {}
        invariant rest !! done && rest + done == data.Keys
        invariant count == |CountedAmong(data, done, now)|
        decreases |rest|
      {
        var k :| k in rest;
        CountedAmongAdd(data, done, k, now);
        if data[k].expiresAt > now {
          count := count + 1;
        }
        rest := rest - {k};
        done := done + {k};
      }
      assert CountedAmong(data, done, now) == Counted(data, now);
    }

    /** Removes, over the map in some order, every item whose instant is before `now`. */
    method Evict(now: int)
      modifies this
      ensures data == Swept(old(data), now)
    {
      var rest := data.Keys;
      while rest != {}
        invariant rest <= old(data).Keys
        invariant data == map k | k in old(data) && (k in rest || !(old(data)[k].expiresAt < now)) :: old(data)[k]
        decreases |rest|
      {
        var k :| k in rest;
        if data[k].expiresAt < now {
          data := data - {k};
        }
        rest := rest - {k};
      }
    }

    method IsExpirable() returns (r: bool)
      ensures r
    {
      r := true;
    }

    /** A missing key counts as expired. */
    method IsExpired(key: string, now: int) returns (r: bool)
      ensures r <==> Lookup(data, key, now).None?
      ensures r <==> key !in data || Expired(data[key], now)
    {
      if key !in data {
        return true;
      }
      return now > data[key].expiresAt;
    }
  }
}
