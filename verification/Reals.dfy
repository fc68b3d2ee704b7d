/** Arithmetic on reals that several modules share. */
module Reals {

  function Max(a: real, b: real): real {
    if a < b then b else a
  }

  function Min(a: real, b: real): real {
    if b < a then b else a
  }

  lemma ProductPositive(x: real, y: real)
    requires x >= 0.0 && y >= 0.0
    ensures x * y >= 0.0
  {
  }

  lemma Scale(q: real, x: real, y: real)
    requires q >= 0.0 && x <= y
    ensures q * x <= q * y
  {
  }

  lemma ScaleRight(x: real, y: real, q: real)
    requires q >= 0.0 && x <= y
    ensures x * q <= y * q
  {
  }

  lemma ScaleRightStrictly(x: real, y: real, q: real)
    requires q > 0.0 && x < y
    ensures x * q < y * q
  {
  }

  lemma ScaleBoth(x: real, y: real, q: real, r: real)
    requires 0.0 <= q <= r && 0.0 <= x <= y
    ensures x * q <= y * r
  {
    Scale(q, x, y);
    Scale(y, q, r);
  }

  lemma ScaleStrictly(q: real, x: real, y: real)
    requires q > 0.0 && x < y
    ensures q * x < q * y
  {
  }

  lemma QuotientTimes(x: real, d: real)
    requires d > 0.0
    ensures x / d * d == x
    ensures x > 0.0 ==> x / d > 0.0
  {
  }

  /** Products with one positive factor are ordered as the other factors are. */
  lemma ProductsOrdered(x: real, y: real, q: real, xq: real, yq: real)
    requires q > 0.0 && xq == x * q && yq == y * q
    ensures x < y <==> xq < yq
  {
    var d := y - x;
    assert d * q == yq - xq;
    if d > 0.0 {
      assert d * q > 0.0;
    } else {
      assert d * q <= 0.0;
    }
  }

  lemma Grows(x: real, m: real, xm: real)
    requires x >= 0.0 && m >= 1.0 && xm == x * m
    ensures xm >= x
  {
    assert xm - x == x * (m - 1.0);
    assert x * (m - 1.0) >= 0.0 by {
      ProductPositive(x, m - 1.0);
    }
  }
}
