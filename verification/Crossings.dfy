/** Where a sequence of spreads crosses zero, as the signal rule reads it: a spread of zero counts as either side. */
module Crossings {

  /** At `n` the spread turns positive, past the warm-up. */
  predicate Rises(d: seq<real>, warmUp: nat, n: int) {
    warmUp < n < |d| && d[n - 1] <= 0.0 < d[n]
  }

  predicate Falls(d: seq<real>, warmUp: nat, n: int) {
    warmUp < n < |d| && d[n - 1] >= 0.0 > d[n]
  }

  /** Two rises with no fall between them. */
  ghost predicate RisesTwice(d: seq<real>, warmUp: nat) {
    exists i, j :: RisesAgain(d, warmUp, i, j)
  }

  ghost predicate RisesAgain(d: seq<real>, warmUp: nat, i: int, j: int) {
    i < j && Rises(d, warmUp, i) && Rises(d, warmUp, j) && forall m :: i < m < j ==> !Falls(d, warmUp, m)
  }

  /** From above, the spread comes to exactly zero, stays there, and goes back up. */
  ghost predicate TouchesFromAbove(d: seq<real>, warmUp: nat) {
    exists q, p, j :: Touch(d, warmUp, q, p, j)
  }

  ghost predicate Touch(d: seq<real>, warmUp: nat, q: int, p: int, j: int) {
    && warmUp <= q < p < j - 1 && j < |d|
    && d[q] <= 0.0 < d[p] && d[j] > 0.0
    && (forall m :: p < m < j ==> d[m] == 0.0)
  }

  /** The last rise at or before `p`. */
  lemma {:induction false} LastRise(d: seq<real>, warmUp: nat, q: int, p: int) returns (i: int)
    requires warmUp <= q < p < |d| && d[q] <= 0.0 < d[p]
    ensures q < i <= p && Rises(d, warmUp, i) && forall m :: i <= m <= p ==> d[m] > 0.0
    decreases p - q
  {
    if d[p - 1] <= 0.0 {
      i := p;
    } else {
      i := LastRise(d, warmUp, q, p - 1);
    }
  }

  lemma {:induction false} FirstNotPositive(d: seq<real>, i: int, j: int) returns (m: int)
    requires 0 <= i < j < |d| && d[i] > 0.0 >= d[j]
    ensures i < m <= j && d[m] <= 0.0 && d[m - 1] > 0.0
    decreases j - i
  {
    if d[i + 1] <= 0.0 { m := i + 1; } else { m := FirstNotPositive(d, i + 1, j); }
  }

  /** From a zero, and with no fall on the way, the spread stays at zero until it turns positive. */
  lemma {:induction false} ZeroUntilPositive(d: seq<real>, warmUp: nat, m: int, j: int) returns (k: int)
    requires warmUp <= m < j < |d| && d[m] == 0.0 && d[j] > 0.0
    requires forall n :: m < n < j ==> !Falls(d, warmUp, n)
    ensures m < k <= j && d[k] > 0.0 && forall n :: m <= n < k ==> d[n] == 0.0
    decreases j - m
  {
    if d[m + 1] > 0.0 {
      k := m + 1;
    } else {
      assert !Falls(d, warmUp, m + 1);
      k := ZeroUntilPositive(d, warmUp, m + 1, j);
    }
  }

  /** Two rises follow each other without a fall exactly when the spread touches zero from above and goes back up. */
  lemma RisesTwiceExactly(d: seq<real>, warmUp: nat)
    ensures RisesTwice(d, warmUp) <==> TouchesFromAbove(d, warmUp)
  {
    if TouchesFromAbove(d, warmUp) {
      var q, p, j :| Touch(d, warmUp, q, p, j);
      var i := LastRise(d, warmUp, q, p);
      assert RisesAgain(d, warmUp, i, j);
    }
    if RisesTwice(d, warmUp) {
      var i, j :| RisesAgain(d, warmUp, i, j);
      var m := FirstNotPositive(d, i, j - 1);
      assert !Falls(d, warmUp, m);
      var k := ZeroUntilPositive(d, warmUp, m, j);
      assert Touch(d, warmUp, i - 1, m - 1, k);
    }
  }

  function Negated(d: seq<real>): (r: seq<real>)
    ensures |r| == |d| && forall n :: 0 <= n < |d| ==> r[n] == -d[n]
  {
    seq(|d|, n requires 0 <= n < |d| => -d[n])
  }
}
