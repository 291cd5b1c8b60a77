/** The doubly linked `container/list` that FIFO and LRU keep beside their map,
    abstracted to the sequence of keys it holds, front first. */
module KeyList {

  /** No key occurs twice. */
  ghost predicate NoDup(s: seq<string>)
  {
    forall i, j :: 0 <= i < j < |s| ==> s[i] != s[j]
  }

  /** `list.Remove` of the element that holds `k`: every other key stays, in order. */
  function Without(s: seq<string>, k: string): (r: seq<string>)
    ensures forall x :: x in r <==> x in s && x != k
    ensures k !in s ==> r == s
    ensures NoDup(s) ==> NoDup(r)
    ensures NoDup(s) && k in s ==> |r| == |s| - 1
  {
    if s == [] then []
    else if s[0] == k then Without(s[1..], k)
    else
      var rest := Without(s[1..], k);
      assert NoDup(s) ==> NoDup(s[1..]) && s[0] !in s[1..];
      assert NoDup(s) ==> NoDup([s[0]] + rest) by {
        if NoDup(s) {
          forall i, j | 0 <= i < j < |[s[0]] + rest| ensures ([s[0]] + rest)[i] != ([s[0]] + rest)[j] {
            if i == 0 { assert ([s[0]] + rest)[j] in rest; }
          }
        }
      }
      [s[0]] + rest
  }

  /** Removing the key at position `i` of a duplicate-free list closes the gap and keeps the order. */
  lemma {:induction false} WithoutAt(s: seq<string>, i: nat)
    requires NoDup(s) && i < |s|
    ensures Without(s, s[i]) == s[..i] + s[i + 1..]
  {
    var t := s[1..];
    assert NoDup(t);
    if i == 0 {
      assert s[0] !in t;
      assert Without(s, s[0]) == Without(t, s[0]) == t;
    } else {
      assert s[0] != s[i] && t[i - 1] == s[i];
      WithoutAt(t, i - 1);
      assert Without(s, s[i]) == [s[0]] + Without(t, s[i]);
      assert t[..i - 1] == s[1..i] && t[i..] == s[i + 1..];
      assert s[..i] == [s[0]] + s[1..i];
    }
  }

  /** `list.MoveToFront` / `list.PushFront` of `k`: `k` first, the others in their old order. */
  function ToFront(s: seq<string>, k: string): (r: seq<string>)
    ensures |r| > 0 && r[0] == k
    ensures forall x :: x in r <==> x in s || x == k
    ensures NoDup(s) ==> NoDup(r)
  {
    [k] + Without(s, k)
  }

  /** A key set holding exactly the keys of a list without duplicates is as large as
      the list: the map beside the list has one entry per element. */
  lemma {:induction false} KeyCount(s: seq<string>, m: set<string>)
    requires NoDup(s) && forall k :: k in m <==> k in s
    ensures |m| == |s|
    decreases |s|
  {
    if s != [] {
      var t := s[1..];
      forall k ensures k in m - {s[0]} <==> k in t {
        if k in t {
          var j :| 0 <= j < |t| && t[j] == k;
          assert s[j + 1] == k;
        }
        if k in s && k != s[0] {
          var j :| 0 <= j < |s| && s[j] == k;
          assert t[j - 1] == k;
        }
      }
      KeyCount(t, m - {s[0]});
    }
  }
}
