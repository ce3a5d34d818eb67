/** Absolute values, squares and products of reals, each fact in the form the solver can use. */
module RealArithmetic {
  function Abs(r: real): real {
    if r < 0.0 then -r else r
  }

  function Square(x: real): real {
    x * x
  }

  lemma SquareNotNegative(x: real)
    ensures Square(x) >= 0.0
  {
  }

  lemma SquareMirrored(x: real)
    ensures Square(-x) == Square(x)
  {
  }

  lemma SquareGrows(x: real, y: real)
    requires 0.0 <= x < y
    ensures Square(x) < Square(y)
  {
    PositiveProduct(y - x, y + x, Square(y) - Square(x));
  }

  lemma PositiveProduct(a: real, b: real, product: real)
    requires a > 0.0 && b > 0.0 && product == a * b
    ensures product > 0.0
  {
  }

  lemma ProductNotNegative(a: real, b: real, product: real)
    requires a >= 0.0 && b >= 0.0 && product == a * b
    ensures product >= 0.0
  {
  }
}
