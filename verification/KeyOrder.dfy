/** Python's `min`, `max` and `sorted` over the keys of a dictionary. */
module KeyOrder {

  ghost predicate IsLeast(k: int, keys: set<int>) {
    k in keys && forall j <- keys :: k <= j
  }

  ghost predicate IsGreatest(k: int, keys: set<int>) {
    k in keys && forall j <- keys :: j <= k
  }

  lemma SomeElement(keys: set<int>)
    ensures keys == {} || exists k :: k in keys
  {
    if forall k :: k !in keys {
      assert keys == {};
    }
  }

  /** Python's `min` over dictionary keys. */
  method LeastKey(keys: set<int>) returns (k: int)
    requires keys != {}
    ensures IsLeast(k, keys)
  {
    SomeElement(keys);
    k :| k in keys;
    var rest := keys - {k};
    while rest != {}
      invariant rest <= keys && k in keys && forall j <- keys :: j in rest || k <= j
      decreases rest
    {
      SomeElement(rest);
      var j :| j in rest;
      rest := rest - {j};
      if j < k { k := j; }
    }
  }

  method GreatestKey(keys: set<int>) returns (k: int)
    requires keys != {}
    ensures IsGreatest(k, keys)
  {
    SomeElement(keys);
    k :| k in keys;
    var rest := keys - {k};
    while rest != {}
      invariant rest <= keys && k in keys && forall j <- keys :: j in rest || j <= k
      decreases rest
    {
      SomeElement(rest);
      var j :| j in rest;
      rest := rest - {j};
      if j > k { k := j; }
    }
  }

  /** Python's `sorted` over dictionary keys. */
  method SortedKeys(keys: set<int>) returns (s: seq<int>)
    ensures forall k :: k in s <==> k in keys
    ensures forall i, j :: 0 <= i < j < |s| ==> s[i] < s[j]
  {
    s := [];
    var rest := keys;
    while rest != {}
      invariant rest <= keys
      invariant forall k :: k in s <==> k in keys && k !in rest
      invariant forall i, j :: 0 <= i < |s| && j in rest ==> s[i] < j
      invariant forall i, j :: 0 <= i < j < |s| ==> s[i] < s[j]
      decreases rest
    {
      var k := LeastKey(rest);
      rest := rest - {k};
      s := s + [k];
    }
  }
}
