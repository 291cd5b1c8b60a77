/** The LRU engine: a map from key to value plus a recency list of keys, most
    recently used at the front. Get and Set bring a key to the front, a new key
    is pushed to the front, and Evict drops the back. */
module Lru {
  import opened Wrappers
  import opened KeyList

  /** An LRU engine's contents: `data` is the map, `evictionList` the recency list, front first. */
  datatype State<V> = State(data: map<string, V>, evictionList: seq<string>)
  {
    /** The map and the list hold the same keys, each key once in the list. */
    ghost predicate Inv()
    {
      NoDup(evictionList) && forall k :: k in data <==> k in evictionList
    }
  }

  function Empty<V>(): State<V>
  {
    State(map[], [])
  }

  /** What Get returns. */
  function Lookup<V>(s: State<V>, key: string): Option<V>
  {
    if key in s.data then Some(s.data[key]) else None
  }

  /** Get: a present key moves to the front; an absent key changes nothing. */
  function AfterGet<V>(s: State<V>, key: string): State<V>
  {
    if key !in s.data then s
    else State(s.data, ToFront(s.evictionList, key))
  }

  /** Set: the key, new or not, is at the front afterwards and holds the new value. */
  function AfterSet<V>(s: State<V>, key: string, value: V): State<V>
  {
    if key in s.data then State(s.data[key := value], ToFront(s.evictionList, key))
    else State(s.data[key := value], [key] + s.evictionList)
  }

  /** Delete: an absent key changes nothing; otherwise the key leaves the map and the list. */
  function AfterDelete<V>(s: State<V>, key: string): State<V>
  {
    if key !in s.data then s
    else State(s.data - {key}, Without(s.evictionList, key))
  }

  /** Evict: nothing on an empty engine; otherwise the back of the list leaves both. */
  function AfterEvict<V>(s: State<V>): State<V>
  {
    if |s.data| == 0 then s
    else if s.evictionList == [] then s
    else
      var back := s.evictionList[|s.evictionList| - 1];
      State(s.data - {back}, s.evictionList[..|s.evictionList| - 1])
  }


  /** Get of a present key returns its value and puts it at the front, keeping the
      key set and the relative order of the others; an absent key changes nothing. */
  lemma GetContract<V>(s: State<V>, key: string)
    requires s.Inv()
    ensures var t := AfterGet(s, key);
      && t.Inv()
      && t.data == s.data
      && (key !in s.data ==> t == s && Lookup(s, key) == None)
      && (key in s.data ==>
            && Lookup(s, key) == Some(s.data[key])
            && t.evictionList[0] == key
            && t.evictionList[1..] == Without(s.evictionList, key))
  {
  }

  /** Set stores the value and leaves the key at the front; an existing key keeps the
      size, a new key grows it by one and the others keep their order behind it. */
  lemma SetContract<V>(s: State<V>, key: string, value: V)
    requires s.Inv()
    ensures var t := AfterSet(s, key, value);
      && t.Inv()
      && t.data == s.data[key := value]
      && t.evictionList[0] == key
      && (key in s.data ==> |t.data| == |s.data| && t.evictionList[1..] == Without(s.evictionList, key))
      && (key !in s.data ==> |t.data| == |s.data| + 1 && t.evictionList[1..] == s.evictionList)
  {
    var t := AfterSet(s, key, value);
    if key !in s.data {
      assert key !in s.evictionList;
      assert t.evictionList[1..] == s.evictionList;
      assert NoDup(t.evictionList) by {
        forall i, j | 0 <= i < j < |t.evictionList| ensures t.evictionList[i] != t.evictionList[j] {
          if i == 0 { assert t.evictionList[j] in s.evictionList; }
        }
      }
    }
  }

  /** Delete of an absent key is a no-op; otherwise exactly that key leaves both
      structures and the others keep their values and their order. */
  lemma DeleteContract<V>(s: State<V>, key: string)
    requires s.Inv()
    ensures var t := AfterDelete(s, key);
      && t.Inv()
      && (key !in s.data ==> t == s)
      && (key in s.data ==>
            && t.data.Keys == s.data.Keys - {key}
            && (forall k :: k in t.data ==> t.data[k] == s.data[k])
            && |t.data| == |s.data| - 1
            && exists i :: 0 <= i < |s.evictionList| && s.evictionList[i] == key
                 && t.evictionList == s.evictionList[..i] + s.evictionList[i + 1..])
  {
    if key in s.data {
      var t := AfterDelete(s, key);
      var i :| 0 <= i < |s.evictionList| && s.evictionList[i] == key;
      WithoutAt(s.evictionList, i);
      assert t.evictionList == s.evictionList[..i] + s.evictionList[i + 1..];
      assert t.data.Keys == s.data.Keys - {key};
    }
  }

  /** Evict on an empty engine is a no-op; otherwise it removes exactly the back key,
      the least recently used, and the size drops by one. */
  lemma EvictContract<V>(s: State<V>)
    requires s.Inv()
    ensures var t := AfterEvict(s);
      && t.Inv()
      && (|s.data| == 0 ==> t == s)
      && (|s.data| > 0 ==>
            && |s.evictionList| > 0
            && s.evictionList[|s.evictionList| - 1] in s.data
            && t.data == s.data - {s.evictionList[|s.evictionList| - 1]}
            && t.evictionList == s.evictionList[..|s.evictionList| - 1]
            && |t.data| == |s.data| - 1)
  {
    if |s.data| > 0 {
      var k :| k in s.data;
      assert k in s.evictionList;
      var l := s.evictionList;
      var n := |l| - 1;
      WithoutAt(l, n);
      assert l[..n] + l[n + 1..] == l[..n];
    }
  }

  class LRU<V> {
    const maxSize: int
    var data: map<string, V>
    var evictionList: seq<string>

    /** The engine's contents as a value. */
    ghost function View(): State<V>
      reads this
    {
      State(data, evictionList)
    }

    ghost predicate Valid()
      reads this
    {
      View().Inv()
    }

    constructor (maxSize: int)
      ensures Valid() && View() == Empty() && this.maxSize == maxSize
    {
      this.maxSize := maxSize;
      data := map[];
      evictionList := [];
    }

    method Get(key: string) returns (r: Option<V>)
      requires Valid()
      modifies this
      ensures Valid() && View() == AfterGet(old(View()), key) && r == Lookup(old(View()), key)
    {
      GetContract(View(), key);
      if key !in data {
        return None;
      }
      evictionList := ToFront(evictionList, key);
      r := Some(data[key]);
    }

    method Set(key: string, value: V)
      requires Valid()
      modifies this
      ensures Valid() && View() == AfterSet(old(View()), key, value)
    {
      SetContract(View(), key, value);
      if key in data {
        evictionList := ToFront(evictionList, key);
        data := data[key := value];
        return;
      }
      evictionList := [key] + evictionList;
      data := data[key := value];
    }

    /** The expiry instant is ignored: this is Set. */
    method SetWithTTL(key: string, value: V, expiresAt: int)
      requires Valid()
      modifies this
      ensures Valid() && View() == AfterSet(old(View()), key, value)
    {
      Set(key, value);
    }

    method Delete(key: string)
      requires Valid()
      modifies this
      ensures Valid() && View() == AfterDelete(old(View()), key)
    {
      DeleteContract(View(), key);
      if key !in data {
        return;
      }
      data := data - {key};
      evictionList := Without(evictionList, key);
    }

    method Has(key: string) returns (r: bool)
      requires Valid()
      ensures r <==> key in data
    {
      r := key in data;
    }

    /** The number of entries, which is also the length of the eviction list. */
    method Len() returns (n: int)
      requires Valid()
      ensures n == |data| == |evictionList|
    {
      KeyCount(evictionList, data.Keys);
      n := |data|;
    }

    method Evict()
      requires Valid()
      modifies this
      ensures Valid() && View() == AfterEvict(old(View()))
    {
      EvictContract(View());
      if |data| == 0 {
        return;
      }
      if evictionList != [] {
        var back := evictionList[|evictionList| - 1];
        data := data - {back};
        evictionList := evictionList[..|evictionList| - 1];
      }
    }

    method IsExpirable() returns (r: bool)
      ensures !r
    {
      r := false;
    }

    method IsExpired(key: string) returns (r: bool)
      ensures !r
    {
      r := false;
    }
  }
}
