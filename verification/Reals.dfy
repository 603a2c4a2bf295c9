/** Real arithmetic: named products and quotients, and what math.Sqrt is taken to be. */
module Reals {
  function Times(x: real, y: real): real {
    x * y
  }

  function Ratio(x: real, y: real): real
    requires y != 0.0
  {
    x / y
  }

  function Square(x: real): real {
    Times(x, x)
  }

  /** An exact square root. */
  ghost predicate IsSqrt(sqrt: real -> real) {
    forall x: real :: x >= 0.0 ==> sqrt(x) >= 0.0 && Square(sqrt(x)) == x
  }

  lemma SquareZero(x: real)
    ensures Square(x) >= 0.0 && (Square(x) == 0.0 <==> x == 0.0)
  {
    if x > 0.0 {
      PositiveProduct(x, x);
    } else if x < 0.0 {
      PositiveProduct(-x, -x);
    }
  }

  lemma PositiveProduct(x: real, y: real)
    requires x > 0.0 && y > 0.0
    ensures Times(x, y) > 0.0
  {
  }
}
