/** Floor division of integers. */
module Division {

  lemma ScaleOrder(a: int, b: int, d: int)
    requires a <= b && d >= 0
    ensures a * d <= b * d
  {
    assert (b - a) * d >= 0;
  }

  lemma OrderByProduct(a: int, b: int, d: int)
    requires d > 0 && a * d < b * d
    ensures a < b
  {
    if b <= a { ScaleOrder(b, a, d); }
  }

  lemma FloorStep(a: int, b: int, d: int, k: int)
    requires d > 0 && a + k * d <= b
    ensures a / d + k <= b / d
  {
    var x, y := a / d, b / d;
    assert x * d <= a && b < y * d + d;
    assert (x + k) * d == x * d + k * d && (y + 1) * d == y * d + d;
    OrderByProduct(x + k, y + 1, d);
  }

  lemma ExactQuotient(x: int, d: int)
    requires d > 0
    ensures x * d / d == x
  {
    var q, p := x * d / d, x * d;
    assert q * d <= p < q * d + d by { assert q == p / d; }
    assert (q + 1) * d == q * d + d && (x + 1) * d == x * d + d;
    OrderByProduct(x, q + 1, d);
    OrderByProduct(q, x + 1, d);
  }

  lemma FloorSum(a: int, b: int, d: int)
    requires d > 0
    ensures a / d + b / d <= (a + b) / d <= a / d + b / d + 1
  {
    FloorWithin(a, d, a / d);
    FloorWithin(b, d, b / d);
    FloorWithin(a + b, d, (a + b) / d);
    Between(a / d, b / d, (a + b) / d, d, a, b);
  }

  lemma FloorWithin(a: int, d: int, x: int)
    requires d > 0 && x == a / d
    ensures x * d <= a < x * d + d
  {}

  lemma Between(x: int, y: int, z: int, d: int, a: int, b: int)
    requires d > 0 && x * d <= a < x * d + d && y * d <= b < y * d + d && z * d <= a + b < z * d + d
    ensures x + y <= z <= x + y + 1
  {
    assert (x + y) * d == x * d + y * d && (x + y + 2) * d == x * d + y * d + d + d && (z + 1) * d == z * d + d;
    OrderByProduct(x + y, z + 1, d);
    OrderByProduct(z, x + y + 2, d);
  }
}
