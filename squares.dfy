/** Squares of reals, the terms of a squared magnitude. */
module Squares {

  function Square(c: real): real {
    c * c
  }

  /** A square is never negative, and it is 0 only for 0. */
  lemma SquareSign(c: real)
    ensures Square(c) >= 0.0
    ensures c != 0.0 ==> Square(c) > 0.0
  {
    if c < 0.0 {
      assert Square(c) == Square(-c);
      ProductOfPositives(-c, -c, Square(-c));
    } else if c > 0.0 {
      ProductOfPositives(c, c, Square(c));
    }
  }

  // The product is passed as q so that the solver reasons about an ordinary
  // variable rather than about the product itself.
  lemma ProductOfPositives(c: real, d: real, q: real)
    requires c > 0.0 && d > 0.0
    requires q == c * d
    ensures q > 0.0
  {
  }
}
