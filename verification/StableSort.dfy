/** Stable sorting by an integer key, as Python's `sorted` does. */
module StableSort {

  ghost predicate SortedBy<T(!new)>(s: seq<T>, key: T -> int) {
    forall j, k :: 0 <= j < k < |s| ==> key(s[j]) <= key(s[k])
  }

  /** The elements with one key, in order. */
  function WithKey<T>(s: seq<T>, key: T -> int, v: int): seq<T> {
    if s == [] then []
    else WithKey(s[..|s| - 1], key, v) + (if key(s[|s| - 1]) == v then [s[|s| - 1]] else [])
  }

  /** Place `x` after every element whose key is not larger. */
  function Insert<T>(s: seq<T>, x: T, key: T -> int): seq<T> {
    if s == [] || key(s[|s| - 1]) <= key(x) then s + [x]
    else Insert(s[..|s| - 1], x, key) + [s[|s| - 1]]
  }

  function Sort<T>(s: seq<T>, key: T -> int): seq<T> {
    if s == [] then [] else Insert(Sort(s[..|s| - 1], key), s[|s| - 1], key)
  }

  lemma WithKeyAppend<T>(s: seq<T>, x: T, key: T -> int, v: int)
    ensures WithKey(s + [x], key, v) == WithKey(s, key, v) + (if key(x) == v then [x] else [])
  {
    assert (s + [x])[..|s|] == s;
  }

  lemma {:induction false} InsertMembers<T(!new)>(s: seq<T>, x: T, key: T -> int)
    ensures multiset(Insert(s, x, key)) == multiset(s) + multiset{x}
  {
    if s != [] && key(s[|s| - 1]) > key(x) {
      InsertMembers(s[..|s| - 1], x, key);
      assert s[..|s| - 1] + [s[|s| - 1]] == s;
    }
  }

  lemma {:induction false} InsertSorted<T(!new)>(s: seq<T>, x: T, key: T -> int)
    requires SortedBy(s, key)
    ensures SortedBy(Insert(s, x, key), key)
  {
    if s != [] && key(s[|s| - 1]) > key(x) {
      var n := |s| - 1;
      var r := Insert(s[..n], x, key);
      InsertSorted(s[..n], x, key);
      InsertMembers(s[..n], x, key);
      forall k | 0 <= k < |r| ensures key(r[k]) <= key(s[n]) {
        assert r[k] in multiset(r);
        assert r[k] == x || r[k] in s[..n];
      }
    }
  }

  lemma {:induction false} InsertStable<T(!new)>(s: seq<T>, x: T, key: T -> int, v: int)
    requires SortedBy(s, key)
    ensures WithKey(Insert(s, x, key), key, v) == WithKey(s, key, v) + (if key(x) == v then [x] else [])
  {
    if s == [] || key(s[|s| - 1]) <= key(x) {
      WithKeyAppend(s, x, key, v);
    } else {
      var n := |s| - 1;
      InsertStable(s[..n], x, key, v);
      WithKeyAppend(Insert(s[..n], x, key), s[n], key, v);
    }
  }

  lemma {:induction false} SortIsSorted<T(!new)>(s: seq<T>, key: T -> int)
    ensures SortedBy(Sort(s, key), key) && multiset(Sort(s, key)) == multiset(s)
  {
    if s != [] {
      var front, x := s[..|s| - 1], s[|s| - 1];
      SortIsSorted(front, key);
      InsertMembers(Sort(front, key), x, key);
      InsertSorted(Sort(front, key), x, key);
      assert front + [x] == s;
    }
  }

  /** The result is sorted, is a permutation, and keeps the order of equal keys. */
  lemma {:induction false} SortCorrect<T(!new)>(s: seq<T>, key: T -> int, v: int)
    ensures SortedBy(Sort(s, key), key) && multiset(Sort(s, key)) == multiset(s)
    ensures WithKey(Sort(s, key), key, v) == WithKey(s, key, v)
  {
    if s != [] {
      var n := |s| - 1;
      SortCorrect(s[..n], key, v);
      InsertStable(Sort(s[..n], key), s[n], key, v);
    }
    SortIsSorted(s, key);
  }

  lemma SortAppendLargest<T>(s: seq<T>, x: T, key: T -> int)
    requires Sort(s, key) == s && (s == [] || key(s[|s| - 1]) <= key(x))
    ensures Sort(s + [x], key) == s + [x]
  {
    assert (s + [x])[..|s|] == s;
  }

  lemma SortedFront<T(!new)>(s: seq<T>, x: T, key: T -> int)
    requires SortedBy(s + [x], key)
    ensures SortedBy(s, key) && (s == [] || key(s[|s| - 1]) <= key(x))
  {
    var more := s + [x];
    assert more[|s|] == x && forall k :: 0 <= k < |s| ==> more[k] == s[k];
  }

  lemma {:induction false} SortedUnchanged<T(!new)>(s: seq<T>, key: T -> int)
    requires SortedBy(s, key)
    ensures Sort(s, key) == s
  {
    if s != [] {
      var front, x := s[..|s| - 1], s[|s| - 1];
      assert front + [x] == s;
      SortedFront(front, x, key);
      SortedUnchanged(front, key);
      SortAppendLargest(front, x, key);
    }
  }
}
