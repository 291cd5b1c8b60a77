/** The min-heap order that Go's `container/heap` keeps over a slice, stated on the
    sequence of priorities (for the LFU engine: the items' access frequencies, in
    slot order). Slot k > 0 has parent (k - 1) / 2. The predicates describe the
    states that the sift-up and sift-down loops pass through. */
module HeapOrder {

  /** Exchanging slots i and j. */
  function Swap(f: seq<int>, i: nat, j: nat): (g: seq<int>)
    requires i < |f| && j < |f|
    ensures |g| == |f| && g[i] == f[j] && g[j] == f[i]
    ensures forall k :: 0 <= k < |f| && k != i && k != j ==> g[k] == f[k]
    ensures multiset(g) == multiset(f)
  {
    f[i := f[j]][j := f[i]]
  }

  function Parent(k: nat): nat
    requires 0 < k
  {
    (k - 1) / 2
  }

  /** The edge from slot k's parent into k is ordered. */
  ghost predicate Edge(f: seq<int>, k: nat)
    requires 0 < k < |f|
  {
    f[Parent(k)] <= f[k]
  }

  /** Among the first n slots, no slot is smaller than its parent. */
  ghost predicate Ordered(f: seq<int>, n: nat)
    requires n <= |f|
  {
    forall k :: 0 < k < n ==> Edge(f, k)
  }

  /** The parent of h is no larger than any child of h (vacuous for the root). */
  ghost predicate Bridged(f: seq<int>, n: nat, h: nat)
    requires h <= n <= |f|
  {
    0 < h ==> forall c :: 0 < c < n && Parent(c) == h ==> f[Parent(h)] <= f[c]
  }

  /** The state of sift-up at slot j: every edge is ordered except possibly the one
      from j's parent into j, and j's parent is no larger than j's children. */
  ghost predicate RisingAt(f: seq<int>, n: nat, j: nat)
    requires j <= n <= |f|
  {
    && (forall k :: 0 < k < n && k != j ==> Edge(f, k))
    && Bridged(f, n, j)
  }

  /** The state of sift-down at slot i: every edge that does not touch i is ordered,
      and i's parent is no larger than i's children. */
  ghost predicate SinkingAt(f: seq<int>, n: nat, i: nat)
    requires i <= n <= |f|
  {
    && (forall k :: 0 < k < n && k != i && Parent(k) != i ==> Edge(f, k))
    && Bridged(f, n, i)
  }

  /** One round of sift-up: j is smaller than its parent, so they trade places and
      the loop continues at the parent. */
  lemma RiseStep(f: seq<int>, n: nat, j: nat)
    requires 0 < j < n <= |f|
    requires RisingAt(f, n, j) && f[j] < f[Parent(j)]
    ensures RisingAt(Swap(f, Parent(j), j), n, Parent(j))
  {
    var p := Parent(j);
    var g := Swap(f, p, j);
    forall k | 0 < k < n && k != p
      ensures Edge(g, k)
    {
      var q := Parent(k);
      if k == j {
        assert g[q] == f[j] && g[k] == f[p];
      } else if q == j {
        assert k != p && g[q] == f[p] && g[k] == f[k];
        assert f[Parent(j)] <= f[k];
      } else if q == p {
        assert Edge(f, k);
        assert g[q] == f[j] && g[k] == f[k];
      } else {
        assert Edge(f, k);
        assert g[q] == f[q] && g[k] == f[k];
      }
    }
    if 0 < p {
      var pp := Parent(p);
      assert pp < p < j && g[pp] == f[pp];
      assert Edge(f, p);
      forall c | 0 < c < n && Parent(c) == p
        ensures g[pp] <= g[c]
      {
        if c == j {
          assert g[c] == f[p];
        } else {
          assert Edge(f, c);
          assert g[c] == f[c];
        }
      }
    }
  }

  /** Sift-up stops at the root or where the parent is no larger: the heap is ordered. */
  lemma RiseStop(f: seq<int>, n: nat, j: nat)
    requires j <= n <= |f|
    requires RisingAt(f, n, j)
    requires 0 < j < n ==> f[Parent(j)] <= f[j]
    ensures Ordered(f, n)
  {
    forall k | 0 < k < n
      ensures Edge(f, k)
    {
    }
  }

  /** One round of sift-down: the smaller child c of i is smaller than i, so they trade
      places; the loop continues at c, and the edge into c is now ordered. */
  lemma SinkStep(f: seq<int>, n: nat, i: nat, c: nat)
    requires i < n <= |f|
    requires c == 2 * i + 1 || c == 2 * i + 2
    requires c < n && f[c] < f[i]
    requires forall d :: 0 < d < n && Parent(d) == i ==> f[c] <= f[d]
    requires SinkingAt(f, n, i)
    ensures SinkingAt(Swap(f, i, c), n, c)
    ensures Edge(Swap(f, i, c), c)
  {
    var g := Swap(f, i, c);
    assert Parent(c) == i;
    forall k | 0 < k < n && k != c && Parent(k) != c
      ensures Edge(g, k)
    {
      var q := Parent(k);
      if k == i {
        assert q != c && g[k] == f[c] && g[q] == f[q];
        assert f[Parent(i)] <= f[c];
      } else if q == i {
        assert f[c] <= f[k];
        assert g[q] == f[c] && g[k] == f[k];
      } else {
        assert Edge(f, k);
        assert g[q] == f[q] && g[k] == f[k];
      }
    }
    forall d | 0 < d < n && Parent(d) == c
      ensures g[Parent(c)] <= g[d]
    {
      assert d != i && d != c && Parent(d) != i;
      assert Edge(f, d);
      assert g[d] == f[d];
    }
  }

  /** Sift-down stops when i has no child within n or no child smaller than i: what is
      left is the state sift-up expects at i. */
  lemma SinkStop(f: seq<int>, n: nat, i: nat)
    requires i <= n <= |f|
    requires SinkingAt(f, n, i)
    requires forall d :: 0 < d < n && Parent(d) == i ==> f[i] <= f[d]
    ensures RisingAt(f, n, i)
  {
    forall k | 0 < k < n && k != i
      ensures Edge(f, k)
    {
    }
  }

  /** Overwriting one slot of an ordered heap leaves a sift-down state at that slot. */
  lemma HoleAt(f: seq<int>, n: nat, i: nat, x: int)
    requires i < n <= |f|
    requires Ordered(f, n)
    ensures SinkingAt(f[i := x], n, i)
  {
    var g := f[i := x];
    forall k | 0 < k < n && k != i && Parent(k) != i
      ensures Edge(g, k)
    {
      assert Edge(f, k);
    }
    if 0 < i {
      assert Edge(f, i);
      forall c | 0 < c < n && Parent(c) == i
        ensures g[Parent(i)] <= g[c]
      {
        assert Edge(f, c);
      }
    }
  }

  /** Appending to an ordered heap leaves a sift-up state at the new last slot. */
  lemma AppendedRises(f: seq<int>, x: int)
    requires Ordered(f, |f|)
    ensures RisingAt(f + [x], |f| + 1, |f|)
  {
    var g := f + [x];
    forall k | 0 < k < |f| + 1 && k != |f|
      ensures Edge(g, k)
    {
      assert Edge(f, k);
      assert g[Parent(k)] == f[Parent(k)] && g[k] == f[k];
    }
  }

  /** Moving the last slot n into slot i of an ordered heap of n + 1 slots leaves a
      sift-down state at i among the first n slots. */
  lemma LastIntoHole(f: seq<int>, n: nat, i: nat)
    requires i < n < |f|
    requires Ordered(f, n + 1)
    ensures SinkingAt(Swap(f, i, n), n, i)
  {
    var g := Swap(f, i, n);
    forall k | 0 < k < n && k != i && Parent(k) != i
      ensures Edge(g, k)
    {
      assert Edge(f, k);
    }
    if 0 < i {
      assert Edge(f, i);
      forall c | 0 < c < n && Parent(c) == i
        ensures g[Parent(i)] <= g[c]
      {
        assert Edge(f, c);
      }
    }
  }

  /** Order among the first n slots does not depend on anything after them. */
  lemma OrderedPrefix(f: seq<int>, g: seq<int>, n: nat)
    requires n <= |f| && n <= |g| && f[..n] == g[..n]
    requires Ordered(f, n)
    ensures Ordered(g, n)
  {
    forall k | 0 < k < n
      ensures Edge(g, k)
    {
      assert Edge(f, k);
      assert f[k] == f[..n][k] == g[..n][k] == g[k];
      assert f[Parent(k)] == f[..n][Parent(k)] == g[..n][Parent(k)] == g[Parent(k)];
    }
  }

  /** In an ordered heap the root is a minimum. */
  lemma {:induction false} RootIsMinimal(f: seq<int>, n: nat, k: nat)
    requires k < n <= |f|
    requires Ordered(f, n)
    ensures f[0] <= f[k]
    decreases k
  {
    if k > 0 {
      assert Edge(f, k);
      RootIsMinimal(f, n, Parent(k));
    }
  }

  /** Order over n slots implies order over fewer. */
  lemma OrderedShorter(f: seq<int>, n: nat)
    requires n < |f| && Ordered(f, n + 1)
    ensures Ordered(f, n)
  {
  }
}
