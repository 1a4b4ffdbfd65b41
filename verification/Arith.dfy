/** Products and quotients. */
module Arith {
  lemma MulLe(a: int, b: int, t: int)
    requires a <= b && t >= 0
    ensures a * t <= b * t
  {
    assert b * t - a * t == (b - a) * t;
  }

  /** Cancelling a positive factor. */
  lemma MulLess(a: int, b: int, t: int)
    requires a * t < b * t && t > 0
    ensures a < b
  {
    if a >= b {
      MulLe(b, a, t);
    }
  }

  lemma FloorMeans(x: nat, t: nat)
    requires t > 0
    ensures x / t >= 0 && (x / t) * t <= x < (x / t + 1) * t
  {
    assert x == t * (x / t) + x % t;
  }

  lemma FloorIs(x: nat, t: nat, q: nat)
    requires t > 0 && q * t <= x < (q + 1) * t
    ensures x / t == q
  {
    FloorMeans(x, t);
    FloorUnique(x, t, x / t, q);
    FloorUnique(x, t, q, x / t);
  }

  lemma FloorUnique(x: nat, t: nat, p: nat, q: nat)
    requires p * t <= x && x < (q + 1) * t
    ensures p <= q
  {
    MulLess(p, q + 1, t);
  }

  lemma MulDivMod(i: int, t: nat)
    requires t > 0
    ensures (i * t) % t == 0 && (i * t) / t == i
  {
    var q, r := (i * t) / t, (i * t) % t;
    assert i * t == t * q + r;
    assert (i - q) * t == r;
    if i - q >= 1 {
      MulLe(1, i - q, t);
    } else if i - q <= -1 {
      MulLe(i - q, -1, t);
    }
  }
}
