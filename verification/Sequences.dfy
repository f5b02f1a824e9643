/** Slices shared by the bounded stores. */
module Sequences {

  /** Python's `s[-limit:]`, including its reading of zero and negative limits. */
  function LastSlice<T>(s: seq<T>, limit: int): seq<T> {
    if limit > 0 then s[if limit <= |s| then |s| - limit else 0..]
    else s[if -limit <= |s| then -limit else |s|..]
  }

  function Reversed<T>(s: seq<T>): (r: seq<T>)
    ensures |r| == |s| && forall k :: 0 <= k < |s| ==> r[k] == s[|s| - 1 - k]
  {
    if s == [] then [] else Reversed(s[1..]) + [s[0]]
  }

  /** The newest `limit` elements, newest first; a limit below one leaves out that many of the oldest instead. */
  lemma ListingAt<T>(s: seq<T>, limit: int)
    ensures var r := Reversed(LastSlice(s, limit)); var wanted := if limit > 0 then limit else |s| + limit;
            && |r| == (if wanted > |s| then |s| else if wanted < 0 then 0 else wanted)
            && forall k :: 0 <= k < |r| ==> r[k] == s[|s| - 1 - k]
  {}

  /** Appending to a bounded suffix gives the bounded suffix of the longer sequence. */
  lemma SuffixStep<T>(s: seq<T>, x: T, max: int)
    requires max > 0
    ensures LastSlice(LastSlice(s, max) + [x], max) == LastSlice(s + [x], max)
  {
    var a, b := LastSlice(LastSlice(s, max) + [x], max), LastSlice(s + [x], max);
    assert |a| == |b| && forall k :: 0 <= k < |a| ==> a[k] == b[k];
    assert a == b;
  }

  function Sum(s: seq<real>): real {
    if s == [] then 0.0 else Sum(s[..|s| - 1]) + s[|s| - 1]
  }

  lemma SumAppend(s: seq<real>, x: real)
    ensures Sum(s + [x]) == Sum(s) + x
  {
    assert (s + [x])[..|s|] == s;
  }

  lemma {:induction false} SumConcat(a: seq<real>, b: seq<real>)
    ensures Sum(a + b) == Sum(a) + Sum(b)
  {
    if b == [] {
      assert a + b == a;
    } else {
      var n := |b| - 1;
      assert a + b == (a + b[..n]) + [b[n]];
      SumConcat(a, b[..n]);
      SumAppend(a + b[..n], b[n]);
    }
  }
}
