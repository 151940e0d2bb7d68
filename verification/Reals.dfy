/** Products and quotients of reals. */
module Reals {

  function Mul(a: real, b: real): real {
    a * b
  }

  function Square(x: real): real {
    Mul(x, x)
  }

  lemma MulNotNegative(a: real, b: real)
    requires a >= 0.0 && b >= 0.0
    ensures Mul(a, b) >= 0.0
  {
  }

  lemma MulPositive(a: real, b: real)
    requires a > 0.0 && b > 0.0
    ensures Mul(a, b) > 0.0
  {
  }

  lemma MulMonotone(x: real, y: real, z: real)
    requires x <= y && z >= 0.0
    ensures Mul(x, z) <= Mul(y, z)
  {
    MulNotNegative(y - x, z);
    assert (y - x) * z == y * z - x * z;
  }

  lemma SquareOfNegation(x: real)
    ensures Square(-x) == Square(x)
  {
    assert (-x) * (-x) == x * x;
  }

  lemma SquareSign(x: real)
    ensures if x == 0.0 then Square(x) == 0.0 else Square(x) > 0.0
  {
    if x > 0.0 {
      MulPositive(x, x);
    } else if x < 0.0 {
      MulPositive(-x, -x);
      SquareOfNegation(x);
    }
  }

  lemma SquareGrows(r: real, d: real)
    ensures 0.0 <= r <= d ==> Square(r) <= Square(d)
  {
    if 0.0 <= r <= d {
      MulMonotone(r, d, r);
      MulMonotone(r, d, d);
      assert Mul(d, r) == Mul(r, d);
    }
  }

  lemma QuotientNotNegative(a: real, b: real)
    requires a >= 0.0 && b > 0.0
    ensures a / b >= 0.0
  {
  }

  lemma QuotientMonotone(x: real, y: real, c: real)
    requires c > 0.0 && x < y
    ensures x / c < y / c
  {
  }

  lemma QuotientApart(x: real, y: real, c: real)
    requires c > 0.0
    ensures x / c - y / c == (x - y) / c
  {
  }
}
