/** Division and remainder by a positive step: the facts Z3 does not find alone. */
module Arith {

  lemma {:induction false} MulAtLeast(d: int, t: int)
    requires d >= 1 && t > 0
    ensures d * t >= t
  {
    assert (d - 1) * t >= 0;
    assert d * t == (d - 1) * t + t;
  }

  /** Quotient and remainder are determined by `x == q * t + r` with `0 <= r < t`. */
  lemma {:induction false} DivModUnique(x: int, q: int, r: int, t: int)
    requires t > 0 && 0 <= r < t && x == q * t + r
    ensures x / t == q && x % t == r
  {
    var q', r' := x / t, x % t;
    assert x == q' * t + r';
    if q' < q {
      MulAtLeast(q - q', t);
    } else if q < q' {
      MulAtLeast(q' - q, t);
    }
  }
}
