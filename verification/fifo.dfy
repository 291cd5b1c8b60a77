/** The FIFO engine: a map from key to value plus a queue of keys in insertion
    order. New keys join the back, updates keep their place, reads never reorder,
    and Evict drops the front. */
module Fifo {
  import opened Wrappers
  import opened KeyList

  /** A FIFO engine's contents: `data` is the map, `evictionList` the queue, front first. */
  datatype State<V> = State(data: map<string, V>, evictionList: seq<string>)
  {
    /** The map and the queue hold the same keys, each key once in the queue. */
    ghost predicate Inv()
    {
      NoDup(evictionList) && forall k :: k in data <==> k in evictionList
    }
  }

  function Empty<V>(): State<V>
  {
    State(map[], [])
  }

  /** What Get returns. Get changes nothing. */
  function Lookup<V>(s: State<V>, key: string): Option<V>
  {
    if key in s.data then Some(s.data[key]) else None
  }

  /** Set: an existing key gets the new value where it stands; a new key is queued at the back. */
  function AfterSet<V>(s: State<V>, key: string, value: V): State<V>
  {
    if key in s.data then State(s.data[key := value], s.evictionList)
    else State(s.data[key := value], s.evictionList + [key])
  }

  /** Delete: an absent key changes nothing; otherwise the key leaves the map and the queue. */
  function AfterDelete<V>(s: State<V>, key: string): State<V>
  {
    if key !in s.data then s
    else State(s.data - {key}, Without(s.evictionList, key))
  }

  /** Evict: nothing on an empty engine; otherwise the front of the queue leaves both. */
  function AfterEvict<V>(s: State<V>): State<V>
  {
    if |s.data| == 0 then s
    else if s.evictionList == [] then s
    else State(s.data - {s.evictionList[0]}, s.evictionList[1..])
  }

  lemma EmptyInv<V>()
    ensures Empty<V>().Inv() && |Empty<V>().data| == 0
  {
  }

  /** Set keeps the invariant and stores the value; a new key joins the back and the
      size grows by one, an existing key keeps its place and the size. */
  lemma SetContract<V>(s: State<V>, key: string, value: V)
    requires s.Inv()
    ensures var t := AfterSet(s, key, value);
      && t.Inv()
      && Lookup(t, key) == Some(value)
      && (forall k :: k != key ==> Lookup(t, k) == Lookup(s, k))
      && (key in s.data ==> t.evictionList == s.evictionList && |t.data| == |s.data|)
      && (key !in s.data ==> t.evictionList == s.evictionList + [key] && |t.data| == |s.data| + 1)
  {
    var t := AfterSet(s, key, value);
    if key !in s.data {
      assert key !in s.evictionList;
      assert NoDup(t.evictionList) by {
        forall i, j | 0 <= i < j < |t.evictionList| ensures t.evictionList[i] != t.evictionList[j] {
          if j == |s.evictionList| { assert t.evictionList[i] in s.evictionList; }
        }
      }
    }
  }

  /** Delete of an absent key is a no-op; otherwise exactly that key leaves, the
      others keep their values and their order, and the size drops by one. */
  lemma DeleteContract<V>(s: State<V>, key: string)
    requires s.Inv()
    ensures var t := AfterDelete(s, key);
      && t.Inv()
      && (key !in s.data ==> t == s)
      && (key in s.data ==>
            && t.data.Keys == s.data.Keys - {key}
            && (forall k :: k in t.data ==> t.data[k] == s.data[k])
            && |t.data| == |s.data| - 1
            && exists i :: 0 <= i < |s.evictionList| && s.evictionList[i] == key
                 && t.evictionList == s.evictionList[..i] + s.evictionList[i + 1..])
  {
    if key in s.data {
      var t := AfterDelete(s, key);
      var i :| 0 <= i < |s.evictionList| && s.evictionList[i] == key;
      WithoutAt(s.evictionList, i);
      assert t.evictionList == s.evictionList[..i] + s.evictionList[i + 1..];
      assert t.data.Keys == s.data.Keys - {key};
    }
  }

  /** Evict on an empty engine is a no-op; otherwise it removes exactly the front key,
      the earliest inserted key still present, and the size drops by one. */
  lemma EvictContract<V>(s: State<V>)
    requires s.Inv()
    ensures var t := AfterEvict(s);
      && t.Inv()
      && (|s.data| == 0 ==> t == s)
      && (|s.data| > 0 ==>
            && |s.evictionList| > 0
            && s.evictionList[0] in s.data
            && t.data == s.data - {s.evictionList[0]}
            && t.evictionList == s.evictionList[1..]
            && |t.data| == |s.data| - 1)
  {
    if |s.data| > 0 {
      var k :| k in s.data;
      assert k in s.evictionList;
      var l := s.evictionList;
      assert l[0] !in l[1..] by {
        forall j | 0 <= j < |l[1..]|
          ensures l[1..][j] != l[0]
        {
          assert l[1..][j] == l[j + 1];
        }
      }
      assert Without(l, l[0]) == l[1..];
    }
  }

  class FIFO<V> {
    const maxSize: int
    var data: map<string, V>
    var evictionList: seq<string>

    /** The engine's contents as a value. */
    ghost function View(): State<V>
      reads this
    {
      State(data, evictionList)
    }

    ghost predicate Valid()
      reads this
    {
      View().Inv()
    }

    constructor (maxSize: int)
      ensures Valid() && View() == Empty() && this.maxSize == maxSize
    {
      this.maxSize := maxSize;
      data := map[];
      evictionList := [];
    }

    method Get(key: string) returns (r: Option<V>)
      requires Valid()
      ensures r.Some? <==> key in data
      ensures r.Some? ==> r.value == data[key]
    {
      if key !in data {
        return None;
      }
      return Some(data[key]);
    }

    method Set(key: string, value: V)
      requires Valid()
      modifies this
      ensures Valid() && View() == AfterSet(old(View()), key, value)
    {
      SetContract(View(), key, value);
      if key in data {
        data := data[key := value];
        return;
      }
      evictionList := evictionList + [key];
      data := data[key := value];
    }

    /** The expiry instant is ignored: this is Set. */
    method SetWithTTL(key: string, value: V, expiresAt: int)
      requires Valid()
      modifies this
      ensures Valid() && View() == AfterSet(old(View()), key, value)
    {
      Set(key, value);
    }

    method Delete(key: string)
      requires Valid()
      modifies this
      ensures Valid() && View() == AfterDelete(old(View()), key)
    {
      DeleteContract(View(), key);
      if key !in data {
        return;
      }
      evictionList := Without(evictionList, key);
      data := data - {key};
    }

    method Has(key: string) returns (r: bool)
      requires Valid()
      ensures r <==> key in data
    {
      r := key in data;
    }

    /** The number of entries, which is also the length of the eviction list. */
    method Len() returns (n: int)
      requires Valid()
      ensures n == |data| == |evictionList|
    {
      KeyCount(evictionList, data.Keys);
      n := |data|;
    }

    method IsExpirable() returns (r: bool)
      ensures !r
    {
      r := false;
    }

    method IsExpired(key: string) returns (r: bool)
      ensures !r
    {
      r := false;
    }

    method Evict()
      requires Valid()
      modifies this
      ensures Valid() && View() == AfterEvict(old(View()))
    {
      EvictContract(View());
      if |data| == 0 {
        return;
      }
      if evictionList != [] {
        var front := evictionList[0];
        data := data - {front};
        evictionList := evictionList[1..];
      }
    }
  }
}
