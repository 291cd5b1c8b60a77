/** The LFU engine: a map from key to item plus a binary min-heap of the items
    ordered by access frequency, run by Go's `container/heap` algorithm. Each item
    stores its own heap slot in `index`, which the heap's Swap and Push keep
    current. Get and Set count an access and restore the heap with Fix; a new key
    starts at frequency 1 and is pushed; Evict pops the root.

    The heap slice holds pointers to items that the map also holds. Here a slot
    holds the item's key, which names the same record in `data`: while the map and
    the heap agree, each key names exactly one item. */
module Lfu {
  import opened Wrappers
  import opened HeapOrder
  import opened KeyList

  /** The record behind one `*cacheItem`; its key is its map key. */
  datatype Item<V> = Item(value: V, frequency: int, index: int)

  /** An LFU engine's contents: the map, and the heap slice as the keys of the items
      in slot order. */
  datatype State<V> = State(data: map<string, Item<V>>, heap: seq<string>)

  /** Every slot names an item of the map, so Less can compare any two slots. */
  ghost predicate Slotted<V>(s: State<V>)
  {
    forall i :: 0 <= i < |s.heap| ==> s.heap[i] in s.data
  }

  /** Slotted, and every item's index is some slot, so Fix and Remove do not panic. */
  ghost predicate WellFormed<V>(s: State<V>)
  {
    Slotted(s) && forall k :: k in s.data ==> 0 <= s.data[k].index < |s.heap|
  }

  /** Map and heap agree: the item in each slot records that slot, and each item
      sits in the slot it records. */
  ghost predicate Placed<V>(s: State<V>)
  {
    && (forall i :: 0 <= i < |s.heap| ==> s.heap[i] in s.data && s.data[s.heap[i]].index == i)
    && (forall k {:trigger k in s.data} :: k in s.data ==> 0 <= s.data[k].index < |s.heap| && s.heap[s.data[k].index] == k)
  }

  /** The frequencies in slot order. */
  function Freqs<V>(s: State<V>): (f: seq<int>)
    requires Slotted(s)
    ensures |f| == |s.heap|
    ensures forall i :: 0 <= i < |s.heap| ==> f[i] == s.data[s.heap[i]].frequency
  {
    seq(|s.heap|, i requires 0 <= i < |s.heap| => s.data[s.heap[i]].frequency)
  }

  /** The engine invariant: map and heap agree and the heap is ordered by frequency. */
  ghost predicate Inv<V>(s: State<V>)
  {
    Placed(s) && Ordered(Freqs(s), |s.heap|)
  }

  /** The two states hold the same items, up to their recorded slots. */
  ghost predicate SameItems<V>(s: State<V>, t: State<V>)
  {
    && s.data.Keys == t.data.Keys
    && forall k :: k in s.data ==>
         s.data[k].value == t.data[k].value && s.data[k].frequency == t.data[k].frequency
  }

  /** The stored values. */
  function Contents<V>(s: State<V>): map<string, V>
  {
    map k | k in s.data :: s.data[k].value
  }

  /** The access count of every key. */
  function Counts<V>(s: State<V>): map<string, int>
  {
    map k | k in s.data :: s.data[k].frequency
  }

  function Empty<V>(): State<V>
  {
    State(map[], [])
  }

  // ---------------------------------------------------------------------------
  // lfuHeap's Less, Swap, Push and Pop, and container/heap's up, down, Push, Pop,
  // Remove and Fix, as functions of the state.

  /** lfuHeap.Less: slot i holds a less frequently used item than slot j. */
  function LessAt<V>(s: State<V>, i: nat, j: nat): bool
    requires Slotted(s) && i < |s.heap| && j < |s.heap|
  {
    s.data[s.heap[i]].frequency < s.data[s.heap[j]].frequency
  }

  /** lfuHeap.Swap: exchange two slots, then record i in the item now at i and j in
      the item now at j. */
  function Swapped<V>(s: State<V>, i: nat, j: nat): (t: State<V>)
    requires Slotted(s) && i < |s.heap| && j < |s.heap|
    ensures t.heap == s.heap[i := s.heap[j]][j := s.heap[i]]
    ensures Slotted(t) && t.data.Keys == s.data.Keys
  {
    var h := s.heap[i := s.heap[j]][j := s.heap[i]];
    var d := s.data[h[i] := s.data[h[i]].(index := i)];
    State(d[h[j] := d[h[j]].(index := j)], h)
  }

  /** Swap changes no item's value or frequency. */
  lemma SwappedSame<V>(s: State<V>, i: nat, j: nat)
    requires Slotted(s) && i < |s.heap| && j < |s.heap|
    ensures SameItems(s, Swapped(s, i, j))
  {
  }

  /** Swap keeps map and heap in agreement: both items it moves record their new
      slots. */
  lemma SwappedPlaced<V>(s: State<V>, i: nat, j: nat)
    requires Placed(s) && i < |s.heap| && j < |s.heap|
    ensures Placed(Swapped(s, i, j))
  {
    var t := Swapped(s, i, j);
    var h := t.heap;
    forall m | 0 <= m < |h| ensures h[m] in t.data && t.data[h[m]].index == m {
      if m != i && m != j {
        assert h[m] == s.heap[m];
        assert s.heap[m] != s.heap[i] && s.heap[m] != s.heap[j];
      }
    }
    forall k | k in t.data ensures 0 <= t.data[k].index < |h| && h[t.data[k].index] == k {
      if k != h[i] && k != h[j] {
        var x := s.data[k].index;
        assert s.heap[x] == k && x != i && x != j;
      }
    }
  }

  /** The frequencies trade places with their slots. */
  lemma SwappedFreqs<V>(s: State<V>, i: nat, j: nat)
    requires Slotted(s) && i < |s.heap| && j < |s.heap|
    ensures Freqs(Swapped(s, i, j)) == Swap(Freqs(s), i, j)
  {
  }

  /** container/heap's up: while slot j holds a less frequently used item than its
      parent, exchange them and continue at the parent. Go stops when the parent
      index equals j, which happens at j == 0; here the loop stops at 0 outright. */
  function Raised<V>(s: State<V>, j: nat): (t: State<V>)
    requires Slotted(s) && j < |s.heap|
    ensures Slotted(t) && |t.heap| == |s.heap| && t.data.Keys == s.data.Keys
    decreases j
  {
    if j == 0 then s
    else
      var i := Parent(j);
      if !LessAt(s, j, i) then s
      else
        Raised(Swapped(s, i, j), i)
  }

  /** The child of i that down moves on to: the left child, or the right one if its
      item is strictly less frequently used. */
  function SmallerChild<V>(s: State<V>, i: nat, n: nat): (j: nat)
    requires Slotted(s) && 2 * i + 1 < n <= |s.heap|
    ensures 0 < j < n && Parent(j) == i
  {
    if 2 * i + 2 < n && LessAt(s, 2 * i + 2, 2 * i + 1) then 2 * i + 2 else 2 * i + 1
  }

  /** container/heap's down over the first n slots: while slot i has a child within n
      whose item is less frequently used, exchange i with the smaller child (the right
      one only if strictly smaller) and continue there. Gives the final slot; Go's down
      reports whether it moved, that is whether the final slot is beyond i0. */
  function Sunk<V>(s: State<V>, i: nat, n: nat): (r: (State<V>, nat))
    requires Slotted(s) && i <= n <= |s.heap|
    ensures Slotted(r.0) && |r.0.heap| == |s.heap|
    ensures i <= r.1 <= n && (r.1 == i ==> r.0 == s)
    decreases n - i
  {
    var j1 := 2 * i + 1;
    if j1 >= n then (s, i)
    else
      var j := SmallerChild(s, i, n);
      if !LessAt(s, j, i) then (s, i)
      else
        Sunk(Swapped(s, i, j), j, n)
  }

  lemma SameItemsTrans<V>(s: State<V>, t: State<V>, u: State<V>)
    requires SameItems(s, t) && SameItems(t, u)
    ensures SameItems(s, u)
  {
  }

  /** Sift down from i over the first n slots, and if nothing moved, sift up: the
      step that Fix and Remove share. */
  function Settled<V>(s: State<V>, i: nat, n: nat): (t: State<V>)
    requires Slotted(s) && i < n <= |s.heap|
    ensures Slotted(t) && |t.heap| == |s.heap|
  {
    var r := Sunk(s, i, n);
    if r.1 > i then r.0 else Raised(s, i)
  }

  /** container/heap's Fix: settle slot i within the whole heap. */
  function Fixed<V>(s: State<V>, i: nat): (t: State<V>)
    requires Slotted(s) && i < |s.heap|
  {
    Settled(s, i, |s.heap|)
  }

  /** lfuHeap.Push: the new item records the next slot, which is appended. (In the
      source the map receives the item only after heap.Push returns; both hold the
      same record, so entering it in the map first changes nothing observable.) */
  function Appended<V>(s: State<V>, key: string, item: Item<V>): (t: State<V>)
    requires key !in s.data
    ensures t.heap == s.heap + [key] && t.data.Keys == s.data.Keys + {key}
    ensures t.data[key] == item.(index := |s.heap|)
    ensures Slotted(s) ==> Slotted(t) && Freqs(t) == Freqs(s) + [item.frequency]
    ensures Placed(s) ==> Placed(t)
  {
    State(s.data[key := item.(index := |s.heap|)], s.heap + [key])
  }

  /** container/heap's Push: append, then sift the new slot up. */
  function Pushed<V>(s: State<V>, key: string, item: Item<V>): (t: State<V>)
    requires Slotted(s) && key !in s.data
  {
    var a := Appended(s, key, item);
    Raised(a, |s.heap|)
  }

  /** lfuHeap.Pop: drop the last slot and give back the key it held. The item keeps
      its map entry and its now stale index. */
  function TakeLast<V>(s: State<V>): (r: (State<V>, string))
    requires |s.heap| > 0
    ensures r.0.data == s.data && r.0.heap + [r.1] == s.heap
  {
    (State(s.data, s.heap[..|s.heap| - 1]), s.heap[|s.heap| - 1])
  }

  /** container/heap's Pop: move the root to the last slot, sift the new root down
      over the others, and take the last slot. */
  function Popped<V>(s: State<V>): (r: (State<V>, string))
    requires Slotted(s) && |s.heap| > 0
  {
    var n := |s.heap| - 1;
    var t := Swapped(s, 0, n);
    TakeLast(Sunk(t, 0, n).0)
  }

  /** container/heap's Remove: unless i is already the last slot n, swap i with n and
      restore the order of the slots before n from i (down, else up); then take the
      last slot. */
  function Removed<V>(s: State<V>, i: nat): (r: (State<V>, string))
    requires Slotted(s) && i < |s.heap|
  {
    var n := |s.heap| - 1;
    if n != i then TakeLast(Settled(Swapped(s, i, n), i, n)) else TakeLast(s)
  }

  // ---------------------------------------------------------------------------
  // The engine's operations.

  /** What Get returns. */
  function Lookup<V>(s: State<V>, key: string): Option<V>
  {
    if key in s.data then Some(s.data[key].value) else None
  }

  /** Get: a present key's frequency goes up by one and the heap is fixed at its slot. */
  function AfterGet<V>(s: State<V>, key: string): State<V>
    requires WellFormed(s)
  {
    if key !in s.data then s
    else Fixed(Accessed(s, key, s.data[key].value), s.data[key].index)
  }

  /** One access to a present key: its item takes the value and its frequency goes up
      by one, in the same slot (Get passes the value the item already holds). */
  function Accessed<V>(s: State<V>, key: string, value: V): State<V>
    requires key in s.data
  {
    State(s.data[key := s.data[key].(value := value, frequency := s.data[key].frequency + 1)], s.heap)
  }

  /** Set: an existing item takes the value, counts an access and is fixed in the heap;
      a new key gets an item of frequency 1 pushed onto the heap. */
  function AfterSet<V>(s: State<V>, key: string, value: V): State<V>
    requires WellFormed(s)
  {
    if key in s.data then Fixed(Accessed(s, key, value), s.data[key].index)
    else
      Pushed(s, key, Item(value, 1, 0))
  }

  /** Delete: an absent key changes nothing; otherwise the slot the item records is
      removed from the heap and the key from the map. */
  function AfterDelete<V>(s: State<V>, key: string): State<V>
    requires WellFormed(s)
  {
    if key !in s.data then s
    else
      var t := Removed(s, s.data[key].index).0;
      State(t.data - {key}, t.heap)
  }

  /** Evict: nothing on an empty engine; otherwise the heap's root is popped and its
      key leaves the map. */
  function AfterEvict<V>(s: State<V>): State<V>
    requires WellFormed(s)
  {
    if |s.data| == 0 then s
    else
      assert |s.heap| > 0 by {
        var k :| k in s.data;
      }
      var r := Popped(s);
      State(r.0.data - {r.1}, r.0.heap)
  }

  /** Set as the source writes it: after heap.Push has sifted the new item into
      place, its index is overwritten with the last slot. */
  function AfterSetAsWritten<V>(s: State<V>, key: string, value: V): (t: State<V>)
    requires WellFormed(s)
    ensures key in s.data ==> t == AfterSet(s, key, value)
    ensures key !in s.data ==>
      && t.heap == AfterSet(s, key, value).heap
      && key in AfterSet(s, key, value).data
      && t.data == AfterSet(s, key, value).data[key := AfterSet(s, key, value).data[key].(index := |s.heap|)]
  {
    if key in s.data then AfterSet(s, key, value)
    else
      var t := Pushed(s, key, Item(value, 1, 0));
      State(t.data[key := t.data[key].(index := |t.heap| - 1)], t.heap)
  }

  // ---------------------------------------------------------------------------
  // Heap order through the sifts.

  lemma SameItemsContents<V>(s: State<V>, t: State<V>)
    requires SameItems(s, t)
    ensures Contents(s) == Contents(t) && Counts(s) == Counts(t)
  {
  }

  /** Storing an item under a key changes that key's value and count only. */
  lemma StoredItem<V>(s: State<V>, key: string, item: Item<V>, heap: seq<string>)
    ensures Contents(State(s.data[key := item], heap)) == Contents(s)[key := item.value]
    ensures Counts(State(s.data[key := item], heap)) == Counts(s)[key := item.frequency]
  {
  }

  /** Sifting up from a slot that may be smaller than its parent, with every other
      edge ordered, orders the first n slots. */
  lemma {:induction false} RaisedOrders<V>(s: State<V>, j: nat, n: nat)
    requires Slotted(s) && j < n <= |s.heap|
    requires RisingAt(Freqs(s), n, j)
    ensures Ordered(Freqs(Raised(s, j)), n)
    decreases j
  {
    var f := Freqs(s);
    if j == 0 {
      RiseStop(f, n, j);
    } else {
      var i := Parent(j);
      if !LessAt(s, j, i) {
        RiseStop(f, n, j);
      } else {
        RiseStep(f, n, j);
        SwappedFreqs(s, i, j);
        RaisedOrders(Swapped(s, i, j), i, n);
      }
    }
  }

  /** Sifting down from a slot that may be larger than its children: if it moved, the
      first n slots are ordered; if not, only the slot's edge to its parent may be
      out of order. */
  lemma {:induction false} SunkOrders<V>(s: State<V>, i: nat, n: nat)
    requires Slotted(s) && i <= n <= |s.heap|
    requires SinkingAt(Freqs(s), n, i)
    ensures Sunk(s, i, n).1 == i ==> RisingAt(Freqs(s), n, i)
    ensures Sunk(s, i, n).1 > i ==> Ordered(Freqs(Sunk(s, i, n).0), n)
    decreases n - i
  {
    var j1 := 2 * i + 1;
    if j1 >= n {
      assert Sunk(s, i, n) == (s, i);
      SinkStop(Freqs(s), n, i);
    } else {
      var j := SmallerChild(s, i, n);
      if !LessAt(s, j, i) {
        assert Sunk(s, i, n) == (s, i);
        SmallerChildLeast(s, i, n, j);
        SinkStop(Freqs(s), n, i);
      } else {
        var u := Swapped(s, i, j);
        assert Sunk(s, i, n) == Sunk(u, j, n);
        SinkRound(s, i, n, j);
        SunkOrders(u, j, n);
        if Sunk(u, j, n).1 == j {
          RiseStop(Freqs(u), n, j);
        }
      }
    }
  }

  /** The child that down picks is no larger than any child of i. */
  lemma SmallerChildLeast<V>(s: State<V>, i: nat, n: nat, j: nat)
    requires Slotted(s) && i < n <= |s.heap| && 2 * i + 1 < n
    requires j == SmallerChild(s, i, n)
    ensures forall d :: 0 < d < n && Parent(d) == i ==> Freqs(s)[j] <= Freqs(s)[d]
  {
    var f := Freqs(s);
    forall d | 0 < d < n && Parent(d) == i ensures f[j] <= f[d] {
      assert d == 2 * i + 1 || d == 2 * i + 2;
    }
  }

  /** One round of down on the state: the exchange with the smaller child leaves a
      sift-down state at the child, whose edge from i is ordered. */
  lemma SinkRound<V>(s: State<V>, i: nat, n: nat, j: nat)
    requires Slotted(s) && i < n <= |s.heap| && 2 * i + 1 < n
    requires j == SmallerChild(s, i, n)
    requires LessAt(s, j, i) && SinkingAt(Freqs(s), n, i)
    ensures SinkingAt(Freqs(Swapped(s, i, j)), n, j) && Edge(Freqs(Swapped(s, i, j)), j)
  {
    SmallerChildLeast(s, i, n, j);
    SinkStep(Freqs(s), n, i, j);
    SwappedFreqs(s, i, j);
  }

  /** Fix after one slot's frequency has changed restores the order. */
  lemma SettledOrders<V>(s: State<V>, i: nat, n: nat)
    requires Slotted(s) && i < n <= |s.heap|
    requires SinkingAt(Freqs(s), n, i)
    ensures Ordered(Freqs(Settled(s, i, n)), n)
  {
    SunkOrders(s, i, n);
    if Sunk(s, i, n).1 == i {
      RaisedOrders(s, i, n);
    }
  }

  lemma {:induction false} RaisedPlaced<V>(s: State<V>, j: nat)
    requires Placed(s) && j < |s.heap|
    ensures Placed(Raised(s, j))
    decreases j
  {
    if j > 0 && LessAt(s, j, Parent(j)) {
      SwappedPlaced(s, Parent(j), j);
      RaisedPlaced(Swapped(s, Parent(j), j), Parent(j));
    }
  }

  lemma {:induction false} SunkPlaced<V>(s: State<V>, i: nat, n: nat)
    requires Placed(s) && i <= n <= |s.heap|
    ensures Placed(Sunk(s, i, n).0)
    decreases n - i
  {
    var j1 := 2 * i + 1;
    if j1 >= n {
      assert Sunk(s, i, n) == (s, i);
    } else {
      var j := SmallerChild(s, i, n);
      if LessAt(s, j, i) {
        assert Sunk(s, i, n) == Sunk(Swapped(s, i, j), j, n);
        SwappedPlaced(s, i, j);
        SunkPlaced(Swapped(s, i, j), j, n);
      } else {
        assert Sunk(s, i, n) == (s, i);
      }
    }
  }

  lemma {:induction false} RaisedSame<V>(s: State<V>, j: nat)
    requires Slotted(s) && j < |s.heap|
    ensures SameItems(s, Raised(s, j))
    decreases j
  {
    if j > 0 && LessAt(s, j, Parent(j)) {
      var u := Swapped(s, Parent(j), j);
      RaisedSame(u, Parent(j));
      SwappedSame(s, Parent(j), j);
      SameItemsTrans(s, u, Raised(u, Parent(j)));
    }
  }

  lemma {:induction false} SunkSame<V>(s: State<V>, i: nat, n: nat)
    requires Slotted(s) && i <= n <= |s.heap|
    ensures SameItems(s, Sunk(s, i, n).0)
    decreases n - i
  {
    var j1 := 2 * i + 1;
    if j1 >= n {
      assert Sunk(s, i, n) == (s, i);
    } else {
      var j := SmallerChild(s, i, n);
      if LessAt(s, j, i) {
        var u := Swapped(s, i, j);
        assert Sunk(s, i, n) == Sunk(u, j, n);
        SunkSame(u, j, n);
        SwappedSame(s, i, j);
        SameItemsTrans(s, u, Sunk(u, j, n).0);
      } else {
        assert Sunk(s, i, n) == (s, i);
      }
    }
  }

  lemma SettledSame<V>(s: State<V>, i: nat, n: nat)
    requires Slotted(s) && i < n <= |s.heap|
    ensures SameItems(s, Settled(s, i, n))
  {
    SunkSame(s, i, n);
    RaisedSame(s, i);
  }

  /** Sift-up from j leaves the slots after j alone. */
  lemma {:induction false} RaisedTail<V>(s: State<V>, j: nat, k: nat)
    requires Slotted(s) && j < k < |s.heap|
    ensures Raised(s, j).heap[k] == s.heap[k]
    decreases j
  {
    if j > 0 && LessAt(s, j, Parent(j)) {
      RaisedTail(Swapped(s, Parent(j), j), Parent(j), k);
    }
  }

  /** Sift-down over the first n slots leaves the others alone. */
  lemma {:induction false} SunkTail<V>(s: State<V>, i: nat, n: nat, k: nat)
    requires Slotted(s) && i <= n <= k < |s.heap|
    ensures Sunk(s, i, n).0.heap[k] == s.heap[k]
    decreases n - i
  {
    var j1 := 2 * i + 1;
    if j1 < n {
      var j := SmallerChild(s, i, n);
      if LessAt(s, j, i) {
        assert Sunk(s, i, n) == Sunk(Swapped(s, i, j), j, n);
        SunkTail(Swapped(s, i, j), j, n, k);
      }
    }
  }

  lemma SettledPlaced<V>(s: State<V>, i: nat, n: nat)
    requires Placed(s) && i < n <= |s.heap|
    ensures Placed(Settled(s, i, n))
  {
    SunkPlaced(s, i, n);
    RaisedPlaced(s, i);
  }

  /** Taking the last slot of an agreeing heap whose other slots are ordered, and
      removing its key from the map, leaves an engine that keeps the invariant. */
  lemma DropLast<V>(t: State<V>)
    requires Placed(t) && |t.heap| > 0 && Ordered(Freqs(t), |t.heap| - 1)
    ensures Inv(State(t.data - {TakeLast(t).1}, TakeLast(t).0.heap))
  {
    var n := |t.heap| - 1;
    var k := t.heap[n];
    var u := State(t.data - {k}, t.heap[..n]);
    forall m | 0 <= m < n ensures u.heap[m] in u.data && u.data[u.heap[m]].index == m {
      assert t.data[t.heap[m]].index == m;
    }
    assert Placed(u);
    OrderedPrefix(Freqs(t), Freqs(u), n);
  }

  /** Pop gives back the root's key and leaves the others ordered. */
  lemma PoppedContract<V>(s: State<V>)
    requires Inv(s) && |s.heap| > 0
    ensures Popped(s).1 == s.heap[0]
    ensures SameItems(s, Popped(s).0)
    ensures Inv(State(Popped(s).0.data - {s.heap[0]}, Popped(s).0.heap))
  {
    var n := |s.heap| - 1;
    var t := Swapped(s, 0, n);
    var u := Sunk(t, 0, n).0;
    SwappedPlaced(s, 0, n);
    SunkPlaced(t, 0, n);
    if 0 < n {
      LastIntoHole(Freqs(s), n, 0);
      SwappedFreqs(s, 0, n);
      SunkOrders(t, 0, n);
      if Sunk(t, 0, n).1 == 0 {
        RiseStop(Freqs(t), n, 0);
      }
    }
    assert Popped(s) == TakeLast(u);
    SunkTail(t, 0, n, n);
    SunkSame(t, 0, n);
    SwappedSame(s, 0, n);
    SameItemsTrans(s, t, u);
    DropLast(u);
  }

  /** Swapping slot i with the last slot n and settling i among the slots before n
      keeps map and heap in agreement. */
  lemma LastSettledPlaced<V>(s: State<V>, i: nat, n: nat)
    requires Placed(s) && i < n && n == |s.heap| - 1
    ensures Placed(Settled(Swapped(s, i, n), i, n))
  {
    SwappedPlaced(s, i, n);
    SettledPlaced(Swapped(s, i, n), i, n);
  }

  /** ... keeps every item, and brings slot i's key to slot n. */
  lemma LastSettledSame<V>(s: State<V>, i: nat, n: nat)
    requires Slotted(s) && i < n && n == |s.heap| - 1
    ensures SameItems(s, Settled(Swapped(s, i, n), i, n))
    ensures Settled(Swapped(s, i, n), i, n).heap[n] == s.heap[i]
  {
    var t1 := Swapped(s, i, n);
    SunkTail(t1, i, n, n);
    RaisedTail(t1, i, n);
    SettledSame(t1, i, n);
    SwappedSame(s, i, n);
    SameItemsTrans(s, t1, Settled(t1, i, n));
  }

  /** ... and orders the slots before n. */
  lemma LastSettledOrdered<V>(s: State<V>, i: nat, n: nat)
    requires Slotted(s) && i < n && n == |s.heap| - 1 && Ordered(Freqs(s), |s.heap|)
    ensures Ordered(Freqs(Settled(Swapped(s, i, n), i, n)), n)
  {
    SwappedLast(s, i);
    SettledOrders(Swapped(s, i, n), i, n);
  }

  /** Exchanging slot i with the last slot leaves the slots before the last ordered
      except around i. */
  lemma SwappedLast<V>(s: State<V>, i: nat)
    requires Slotted(s) && i < |s.heap| - 1 && Ordered(Freqs(s), |s.heap|)
    ensures SinkingAt(Freqs(Swapped(s, i, |s.heap| - 1)), |s.heap| - 1, i)
  {
    LastIntoHole(Freqs(s), |s.heap| - 1, i);
    SwappedFreqs(s, i, |s.heap| - 1);
  }

  /** Remove(i) gives back slot i's key and leaves the others ordered. */
  lemma RemovedContract<V>(s: State<V>, i: nat)
    requires Inv(s) && i < |s.heap|
    ensures Removed(s, i).1 == s.heap[i]
    ensures SameItems(s, Removed(s, i).0)
    ensures Inv(State(Removed(s, i).0.data - {s.heap[i]}, Removed(s, i).0.heap))
  {
    var n := |s.heap| - 1;
    if n != i {
      var u := Settled(Swapped(s, i, n), i, n);
      assert Removed(s, i) == TakeLast(u);
      LastSettledPlaced(s, i, n);
      LastSettledSame(s, i, n);
      LastSettledOrdered(s, i, n);
      DropLast(u);
    } else {
      OrderedShorter(Freqs(s), n);
      DropLast(s);
    }
  }

  // ---------------------------------------------------------------------------
  // What the operations promise.

  /** An engine that keeps the invariant is well formed. */
  lemma InvWellFormed<V>(s: State<V>)
    requires Inv(s)
    ensures WellFormed(s)
  {
  }

  /** The empty engine keeps the invariant. */
  lemma EmptyInv<V>()
    ensures Inv(Empty<V>())
  {
  }

  /** An access followed by Fix at the item's slot keeps the invariant, stores the
      value and counts the access. */
  lemma AccessedFixed<V>(s: State<V>, key: string, value: V)
    requires Inv(s) && key in s.data
    ensures Inv(Fixed(Accessed(s, key, value), s.data[key].index))
    ensures Contents(Fixed(Accessed(s, key, value), s.data[key].index)) == Contents(s)[key := value]
    ensures Counts(Fixed(Accessed(s, key, value), s.data[key].index)) ==
      Counts(s)[key := s.data[key].frequency + 1]
  {
    var i := s.data[key].index;
    var item := s.data[key].(value := value, frequency := s.data[key].frequency + 1);
    var t := Accessed(s, key, value);
    StoredItem(s, key, item, s.heap);
    AccessedPlaced(s, key, value);
    assert Freqs(t) == Freqs(s)[i := item.frequency];
    HoleAt(Freqs(s), |s.heap|, i, item.frequency);
    SettledOrders(t, i, |s.heap|);
    SettledPlaced(t, i, |s.heap|);
    SettledSame(t, i, |s.heap|);
    SameItemsContents(t, Fixed(t, i));
  }

  lemma AccessedPlaced<V>(s: State<V>, key: string, value: V)
    requires Placed(s) && key in s.data
    ensures Placed(Accessed(s, key, value))
  {
  }

  /** Push of a new key keeps the invariant. */
  lemma PushedInv<V>(s: State<V>, key: string, item: Item<V>)
    requires Inv(s) && key !in s.data
    ensures Inv(Pushed(s, key, item))
    ensures Contents(Pushed(s, key, item)) == Contents(s)[key := item.value]
    ensures Counts(Pushed(s, key, item)) == Counts(s)[key := item.frequency]
  {
    var n := |s.heap|;
    var a := Appended(s, key, item);
    StoredItem(s, key, item.(index := n), s.heap + [key]);
    AppendedRises(Freqs(s), item.frequency);
    RaisedOrders(a, n, n + 1);
    RaisedPlaced(a, n);
    RaisedSame(a, n);
    SameItemsContents(a, Raised(a, n));
  }

  /** Get returns a present key's value and counts one access to it; an absent key
      changes nothing. The invariant is kept. */
  lemma GetContract<V>(s: State<V>, key: string)
    requires Inv(s)
    ensures Inv(AfterGet(s, key))
    ensures Lookup(s, key).Some? <==> key in Contents(s)
    ensures key in s.data ==> Lookup(s, key) == Some(Contents(s)[key])
    ensures Contents(AfterGet(s, key)) == Contents(s)
    ensures key in s.data ==> Counts(AfterGet(s, key)) == Counts(s)[key := s.data[key].frequency + 1]
    ensures key !in s.data ==> AfterGet(s, key) == s
  {
    if key in s.data {
      AccessedFixed(s, key, s.data[key].value);
      assert Contents(s)[key := s.data[key].value] == Contents(s);
    }
  }

  /** Set stores the value; an existing key counts one more access, a new key starts
      at one. The invariant is kept. */
  lemma SetContract<V>(s: State<V>, key: string, value: V)
    requires Inv(s)
    ensures Inv(AfterSet(s, key, value))
    ensures Contents(AfterSet(s, key, value)) == Contents(s)[key := value]
    ensures Counts(AfterSet(s, key, value)) ==
      Counts(s)[key := if key in s.data then s.data[key].frequency + 1 else 1]
  {
    if key in s.data {
      AccessedFixed(s, key, value);
    } else {
      PushedInv(s, key, Item(value, 1, 0));
    }
  }

  /** Dropping a key from the map drops its value and count and nothing else. */
  lemma DroppedKey<V>(t: State<V>, key: string, heap: seq<string>)
    ensures Contents(State(t.data - {key}, heap)) == Contents(t) - {key}
    ensures Counts(State(t.data - {key}, heap)) == Counts(t) - {key}
  {
  }

  /** Delete removes the key and nothing else; an absent key changes nothing. The
      invariant is kept. */
  lemma DeleteContract<V>(s: State<V>, key: string)
    requires Inv(s)
    ensures Inv(AfterDelete(s, key))
    ensures Contents(AfterDelete(s, key)) == Contents(s) - {key}
    ensures Counts(AfterDelete(s, key)) == Counts(s) - {key}
    ensures key !in s.data ==> AfterDelete(s, key) == s
  {
    if key in s.data {
      var i := s.data[key].index;
      var t := Removed(s, i).0;
      assert AfterDelete(s, key) == State(t.data - {key}, t.heap);
      assert s.heap[i] == key;
      DroppedKey(t, key, t.heap);
      RemovedContract(s, i);
      SameItemsContents(s, t);
    }
  }

  /** The item at the root of an ordered heap is a least frequently used one. */
  lemma RootLeast<V>(s: State<V>)
    requires Inv(s) && |s.data| > 0
    ensures |s.heap| > 0 && s.heap[0] in s.data
    ensures forall k :: k in s.data ==> s.data[s.heap[0]].frequency <= s.data[k].frequency
  {
    var k0 :| k0 in s.data;
    assert |s.heap| > 0;
    forall k | k in s.data ensures s.data[s.heap[0]].frequency <= s.data[k].frequency {
      RootIsMinimal(Freqs(s), |s.heap|, s.data[k].index);
    }
  }

  /** Evict removes a least frequently used key, the one at the heap's root, and
      nothing else; an empty engine is left as it is. The invariant is kept. */
  lemma EvictContract<V>(s: State<V>)
    requires Inv(s)
    ensures Inv(AfterEvict(s))
    ensures |s.data| == 0 ==> AfterEvict(s) == s
    ensures |s.data| > 0 ==>
      && |s.heap| > 0 && s.heap[0] in s.data
      && (forall k :: k in s.data ==> s.data[s.heap[0]].frequency <= s.data[k].frequency)
      && Contents(AfterEvict(s)) == Contents(s) - {s.heap[0]}
      && Counts(AfterEvict(s)) == Counts(s) - {s.heap[0]}
  {
    if |s.data| > 0 {
      RootLeast(s);
      var t := Popped(s).0;
      assert AfterEvict(s) == State(t.data - {Popped(s).1}, t.heap);
      PoppedContract(s);
      DroppedKey(t, s.heap[0], t.heap);
      SameItemsContents(s, t);
    }
  }

  /** Set of "A" then Get of "A" from empty leave A alone at the root, counted twice. */
  lemma SetThenGetA<V>(v: V)
    ensures AfterGet(AfterSet(Empty(), "A", v), "A") == State(map["A" := Item(v, 2, 0)], ["A"])
  {
    var e := Empty<V>();
    EmptyInv<V>();
    SetContract(e, "A", v);
    var a := AfterSet(e, "A", v);
    GetContract(a, "A");
    var s0 := AfterGet(a, "A");
    assert Counts(s0) == map["A" := 2];
    assert Contents(s0) == map["A" := v];
    assert s0.data.Keys == {"A"};
    var x := s0.data["A"].index;
    assert 0 <= x < |s0.heap|;
    forall m | 0 <= m < |s0.heap| ensures s0.heap[m] == "A" && m == x {
      assert s0.heap[m] in s0.data;
    }
    assert s0.heap == ["A"];
    assert s0.data["A"] == Item(v, 2, 0);
  }

  /** The source's Set of a new key "C" on that state: C rises to the root, yet is
      then made to record slot 1, where A now sits and which A records too. */
  lemma SetCAsWritten<V>(v: V)
    ensures AfterSetAsWritten(State(map["A" := Item(v, 2, 0)], ["A"]), "C", v)
      == State(map["A" := Item(v, 2, 1), "C" := Item(v, 1, 1)], ["C", "A"])
  {
    var s0 := State(map["A" := Item(v, 2, 0)], ["A"]);
    var p := Appended(s0, "C", Item(v, 1, 0));
    assert p.heap == ["A", "C"];
    assert LessAt(p, 1, 0);
    var q := Swapped(p, 0, 1);
    assert q.heap == ["C", "A"];
    assert Raised(p, 1) == Raised(q, 0) == q;
    assert q.data == map["A" := Item(v, 2, 1), "C" := Item(v, 1, 0)];
  }

  /** Delete of "C" on that state removes slot 1, A's slot, from the heap. */
  lemma DeleteCAfterDefect<V>(v: V)
    ensures AfterDelete(State(map["A" := Item(v, 2, 1), "C" := Item(v, 1, 1)], ["C", "A"]), "C")
      == State(map["A" := Item(v, 2, 1)], ["C"])
  {
    var s1 := State(map["A" := Item(v, 2, 1), "C" := Item(v, 1, 1)], ["C", "A"]);
    assert s1.data - {"C"} == map["A" := Item(v, 2, 1)];
  }

  /** The defect of the source's Set: a new key whose item rises past its parent is
      left recording the last slot, which the item that went down also records.
      Deleting the new key then removes the other key's slot from the heap: the
      deleted key stays in the heap and the remaining key has left it. */
  lemma SetAsWrittenBreaksDelete<V>(v: V)
    ensures var s0 := AfterGet(AfterSet(Empty(), "A", v), "A");
      var s1 := AfterSetAsWritten(s0, "C", v);
      && s1.heap == ["C", "A"]
      && s1.data["C"].index == 1 && s1.data["A"].index == 1
      && !Placed(s1) && WellFormed(s1)
      && AfterDelete(s1, "C").data.Keys == {"A"}
      && AfterDelete(s1, "C").heap == ["C"]
  {
    SetThenGetA(v);
    SetCAsWritten(v);
    DeleteCAfterDefect(v);
    var s1 := State(map["A" := Item(v, 2, 1), "C" := Item(v, 1, 1)], ["C", "A"]);
    assert s1.heap[0] in s1.data && s1.data[s1.heap[0]].index != 0;
    assert map["A" := Item(v, 2, 1)].Keys == {"A"};
  }

  /** Every item is in the heap exactly once, so the map and the heap have the same
      size. */
  lemma PlacedSizes<V>(s: State<V>)
    requires Placed(s)
    ensures |s.data| == |s.heap|
  {
    assert NoDup(s.heap) by {
      forall i, j | 0 <= i < j < |s.heap| ensures s.heap[i] != s.heap[j] {
        assert s.data[s.heap[i]].index == i && s.data[s.heap[j]].index == j;
      }
    }
    forall k ensures k in s.data.Keys <==> k in s.heap {
      if k in s.data {
        assert s.heap[s.data[k].index] == k;
      }
    }
    KeyCount(s.heap, s.data.Keys);
  }

  // ---------------------------------------------------------------------------
  // The engine as the source writes it: a struct whose map and heap slice the
  // methods update in place.

  class LFU<V> {
    const maxSize: int
    var data: map<string, Item<V>>
    var heap: seq<string>

    ghost function View(): State<V>
      reads this
    {
      State(data, heap)
    }

    ghost predicate Valid()
      reads this
    {
      Inv(View())
    }

    /** New: an empty map and an empty heap (heap.Init of an empty heap does nothing). */
    constructor (maxSize: int)
      ensures Valid() && View() == Empty() && this.maxSize == maxSize
    {
      this.maxSize := maxSize;
      data := map[];
      heap := [];
      new;
      EmptyInv<V>();
    }

    /** lfuHeap.Less. */
    function Less(i: nat, j: nat): bool
      reads this
      requires Slotted(View()) && i < |heap| && j < |heap|
    {
      data[heap[i]].frequency < data[heap[j]].frequency
    }

    /** The child of i that down moves on to: the left one, or the right one if it
        is strictly less. */
    function Child(i: nat, n: nat): (j: nat)
      reads this
      requires Slotted(View()) && 2 * i + 1 < n <= |heap|
      ensures j == SmallerChild(View(), i, n)
    {
      if 2 * i + 2 < n && Less(2 * i + 2, 2 * i + 1) then 2 * i + 2 else 2 * i + 1
    }

    /** lfuHeap.Swap. */
    method Swap(i: nat, j: nat)
      requires Slotted(View()) && i < |heap| && j < |heap|
      modifies this
      ensures View() == Swapped(old(View()), i, j)
    {
      heap := heap[i := heap[j]][j := heap[i]];
      data := data[heap[i] := data[heap[i]].(index := i)];
      data := data[heap[j] := data[heap[j]].(index := j)];
    }

    /** lfuHeap.Push. */
    method PushLast(key: string, item: Item<V>)
      requires key !in data
      modifies this
      ensures View() == Appended(old(View()), key, item)
    {
      data := data[key := item.(index := |heap|)];
      heap := heap + [key];
    }

    /** lfuHeap.Pop. */
    method PopLast() returns (key: string)
      requires |heap| > 0
      modifies this
      ensures (View(), key) == TakeLast(old(View()))
    {
      key := heap[|heap| - 1];
      heap := heap[..|heap| - 1];
    }

    /** container/heap's up. */
    method Up(j0: nat)
      requires Slotted(View()) && j0 < |heap|
      modifies this
      ensures View() == Raised(old(View()), j0)
    {
      var j: nat := j0;
      while j > 0
        invariant Slotted(View()) && j < |heap| == |old(heap)|
        invariant Raised(View(), j) == Raised(old(View()), j0)
        decreases j
      {
        var i := (j - 1) / 2;
        if !Less(j, i) {
          break;
        }
        Swap(i, j);
        j := i;
      }
    }

    /** container/heap's down over the first n slots; reports whether slot i0's item
        moved. */
    method Down(i0: nat, n: nat) returns (moved: bool)
      requires Slotted(View()) && i0 <= n <= |heap|
      modifies this
      ensures View() == Sunk(old(View()), i0, n).0
      ensures moved <==> Sunk(old(View()), i0, n).1 > i0
    {
      var i := i0;
      while true
        invariant Slotted(View()) && i0 <= i <= n <= |heap| == |old(heap)|
        invariant Sunk(View(), i, n) == Sunk(old(View()), i0, n)
        decreases n - i
      {
        if 2 * i + 1 >= n {
          break;
        }
        var j := Child(i, n);
        if !Less(j, i) {
          break;
        }
        assert Sunk(View(), i, n) == Sunk(Swapped(View(), i, j), j, n);
        Swap(i, j);
        i := j;
      }
      moved := i > i0;
    }

    /** container/heap's Push. */
    method HeapPush(key: string, item: Item<V>)
      requires Slotted(View()) && key !in data
      modifies this
      ensures View() == Pushed(old(View()), key, item)
    {
      PushLast(key, item);
      Up(|heap| - 1);
    }

    /** container/heap's Pop. */
    method HeapPop() returns (key: string)
      requires Slotted(View()) && |heap| > 0
      modifies this
      ensures (View(), key) == Popped(old(View()))
    {
      var n := |heap| - 1;
      Swap(0, n);
      var _ := Down(0, n);
      key := PopLast();
    }

    /** container/heap's Remove. */
    method HeapRemove(i: nat) returns (key: string)
      requires Slotted(View()) && i < |heap|
      modifies this
      ensures View() == Removed(old(View()), i).0 && key == Removed(old(View()), i).1
    {
      var n := |heap| - 1;
      if n != i {
        Swap(i, n);
        Settle(i, n);
      }
      key := PopLast();
    }

    /** container/heap's Fix. */
    method HeapFix(i: nat)
      requires Slotted(View()) && i < |heap|
      modifies this
      ensures View() == Fixed(old(View()), i)
    {
      Settle(i, |heap|);
    }

    /** The step Fix and Remove share: down from i within n, and up if nothing moved. */
    method Settle(i: nat, n: nat)
      requires Slotted(View()) && i < n <= |heap|
      modifies this
      ensures View() == Settled(old(View()), i, n)
    {
      var moved := Down(i, n);
      if !moved {
        Up(i);
      }
    }

    method Get(key: string) returns (r: Option<V>)
      requires Valid()
      modifies this
      ensures Valid() && View() == AfterGet(old(View()), key)
      ensures r == Lookup(old(View()), key)
    {
      if key !in data {
        return None;
      }
      ghost var s0 := View();
      var item := data[key];
      data := data[key := item.(frequency := item.frequency + 1)];
      assert View() == Accessed(s0, key, item.value);
      HeapFix(item.index);
      AccessedFixed(s0, key, item.value);
      r := Some(item.value);
    }

    method Set(key: string, value: V)
      requires Valid()
      modifies this
      ensures Valid() && View() == AfterSet(old(View()), key, value)
    {
      ghost var s0 := View();
      if key in data {
        var item := data[key];
        data := data[key := item.(value := value, frequency := item.frequency + 1)];
        assert View() == Accessed(s0, key, value);
        HeapFix(item.index);
        AccessedFixed(s0, key, value);
        return;
      }
      HeapPush(key, Item(value, 1, 0));
      PushedInv(s0, key, Item(value, 1, 0));
    }

    /** The deadline is ignored: the engine does not expire entries. */
    method SetWithTTL(key: string, value: V, expiresAt: int)
      requires Valid()
      modifies this
      ensures Valid() && View() == AfterSet(old(View()), key, value)
    {
      Set(key, value);
    }

    method Delete(key: string)
      requires Valid()
      modifies this
      ensures Valid() && View() == AfterDelete(old(View()), key)
    {
      DeleteContract(View(), key);
      if key !in data {
        return;
      }
      var _ := HeapRemove(data[key].index);
      data := data - {key};
    }

    method Has(key: string) returns (r: bool)
      requires Valid()
      ensures r <==> Lookup(View(), key).Some?
    {
      r := key in data;
    }

    /** The number of entries, which is also the number of heap slots. */
    method Len() returns (n: int)
      requires Valid()
      ensures n == |data| == |heap|
    {
      PlacedSizes(View());
      n := |data|;
    }

    method IsExpirable() returns (r: bool)
      ensures !r
    {
      r := false;
    }

    method IsExpired(key: string) returns (r: bool)
      ensures !r
    {
      r := false;
    }

    method Evict()
      requires Valid()
      modifies this
      ensures Valid() && View() == AfterEvict(old(View()))
    {
      EvictContract(View());
      if |data| == 0 {
        return;
      }
      var key := HeapPop();
      data := data - {key};
    }
  }
}
