/**
 `Math.min`, and order facts about multiplying reals by a positive factor,
 used by the scaled bin measure and by the percentage cell.
 */
module Arith {

  /** `Math.min`. */
  function Min(a: int, b: int): int
  {
    if a < b then a else b
  }

  /** Multiplying by a positive factor keeps a strict order. */
  lemma ScaleStrict(a: real, b: real, t: real)
    requires a < b && t > 0.0
    ensures a * t < b * t
  {
    assert (b - a) * t > 0.0;
  }

  /** Multiplying by a positive factor keeps a weak order. */
  lemma ScaleWeak(a: real, b: real, t: real)
    requires a <= b && t > 0.0
    ensures a * t <= b * t
  {
    assert (b - a) * t >= 0.0;
  }

  /** Dividing by a positive factor keeps a weak order. */
  lemma DivideWeak(a: real, b: real, t: real)
    requires a <= b && t > 0.0
    ensures a / t <= b / t
  {
    var p := a / t;
    var q := b / t;
    assert p * t == a;
    assert q * t == b;
    if p > q {
      ScaleStrict(q, p, t);
    }
  }
}
