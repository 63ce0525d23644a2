/** Clamping, and signs of products, over exact reals. */
module Reals {
  function Clamp(v: real, lo: real, hi: real): real
  {
    if v < lo then lo else if v > hi then hi else v
  }

  lemma ProductPositive(x: real, y: real)
    requires x > 0.0 && y > 0.0
    ensures x * y > 0.0
  {
  }

  lemma ProductNonNegative(x: real, y: real)
    requires x >= 0.0 && y >= 0.0
    ensures x * y >= 0.0
  {
  }

  lemma SignOfProduct(x: real, y: real)
    requires y > 0.0
    ensures (x > 0.0 <==> x * y > 0.0) && (x < 0.0 <==> x * y < 0.0)
  {
    if x > 0.0 {
      ProductPositive(x, y);
    } else if x < 0.0 {
      ProductPositive(-x, y);
    }
  }
}
