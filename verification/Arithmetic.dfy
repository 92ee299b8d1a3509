/** Facts about real products that the solver does not find by itself. */
module Arithmetic {

  lemma Product(x: real, y: real)
    requires x >= 0.0 && y >= 0.0
    ensures x * y >= 0.0
  {
  }
}
