/** Facts about products of reals. */
module Reals {

  /** Multiplying by a positive number keeps the order. */
  lemma ProductOrder(x: real, y: real, r: real)
    requires r > 0.0
    ensures x <= y <==> x * r <= y * r
    ensures x == y <==> x * r == y * r
  {
    assert (y - x) * r == y * r - x * r;
  }

  /** Quotients compare as the crosswise products do. */
  lemma QuotientOrder(x: real, y: real, x': real, y': real)
    requires y > 0.0 && y' > 0.0
    ensures x / y <= x' / y' <==> x * y' <= x' * y
    ensures x / y == x' / y' <==> x * y' == x' * y
  {
    var q, q', r := x / y, x' / y', y * y';
    assert x == q * y && x' == q' * y';
    assert r > 0.0;
    ProductOrder(q, q', r);
    assert x * y' == q * r && x' * y == q' * r;
  }
}
