/** Division by a run-time constant through a multiply and a shift, in 32-bit arithmetic. */
module DivByModel {
  import opened Types
  import opened Arith
  import opened Bits

  // ---- arithmetic

  lemma DivTwice(x: nat, a: nat, b: nat)
    requires a > 0 && b > 0
    ensures a * b > 0 && (x / a) / b == x / (a * b)
  {
    MulLe(1, a, b);
    FloorMeans(x, a);
    FloorMeans(x / a, b);
    Chain(x, a, b, x / a, (x / a) / b);
    FloorIs(x, a * b, (x / a) / b);
  }

  lemma Chain(x: nat, a: nat, b: nat, u: nat, v: nat)
    requires u * a <= x < (u + 1) * a && v * b <= u < (v + 1) * b
    ensures v * (a * b) <= x < (v + 1) * (a * b)
  {
    MulLe(v * b, u, a);
    MulLe(u + 1, (v + 1) * b, a);
    Commute(v, a, b);
    Commute(v + 1, a, b);
  }

  lemma Commute(v: int, a: int, b: int)
    ensures (v * b) * a == v * (a * b)
  {
  }

  /** Granlund and Montgomery's condition: m approximates t / d from above closely enough for every n. */
  lemma MagicExact(n: nat, d: nat, m: nat, t: nat, e: nat)
    requires d > 0 && t > 0 && m * d == t + e && n * e < t
    ensures (n * m) / t == n / d
  {
    FloorMeans(n, d);
    Spread(n, d, m, t, e);
    Below(n, d, n * m, t, n / d);
    Above(n, d, n * m, t, n / d);
    FloorIs(n * m, t, n / d);
  }

  lemma Spread(n: nat, d: nat, m: nat, t: nat, e: nat)
    requires m * d == t + e && n * e < t
    ensures n * t <= (n * m) * d < (n + 1) * t
  {
    assert (n * m) * d == n * (m * d);
    assert n * (t + e) == n * t + n * e;
    MulLe(0, n, e);
  }

  lemma Below(n: nat, d: nat, x: nat, t: nat, q: nat)
    requires d > 0 && t > 0 && n * t <= x * d && q * d <= n
    ensures q * t <= x
  {
    MulLe(q * d, n, t);
    Commute(q, d, t);
    Commute(q, t, d);
    assert d * t == t * d;
    MulLess(q * t, x + 1, d);
  }

  lemma Above(n: nat, d: nat, x: nat, t: nat, q: nat)
    requires d > 0 && t > 0 && x * d < (n + 1) * t && n < (q + 1) * d
    ensures x < (q + 1) * t
  {
    MulLe(n + 1, (q + 1) * d, t);
    Commute(q + 1, d, t);
    Commute(q + 1, t, d);
    assert d * t == t * d;
    MulLess(x, (q + 1) * t, d);
  }

  // ---- the divider

  datatype DivBy = DivBy(magic: nat, shift: nat, add: bool)

  predicate IsPow2(d: nat)
    requires d >= 1
  {
    d == Pow2(FloorLog2(d))
  }

  /** Clearing the lowest set bit leaves nothing exactly for powers of two, whose trailing zeros are the logarithm. */
  lemma {:induction false} OneBit(d: nat)
    requires d >= 1
    ensures And(d, d - 1) == 0 <==> IsPow2(d)
    ensures IsPow2(d) ==> Ctz(d) == FloorLog2(d)
  {
    if d % 2 == 1 {
      AndSelf(d / 2);
      if d > 1 {
        OneBitOdd(d);
      }
    } else {
      assert (d - 1) / 2 == d / 2 - 1;
      OneBit(d / 2);
    }
  }

  lemma OneBitOdd(d: nat)
    requires d > 1 && d % 2 == 1
    ensures !IsPow2(d)
  {
    assert FloorLog2(d) == 1 + FloorLog2(d / 2);
    assert Pow2(FloorLog2(d)) == 2 * Pow2(FloorLog2(d / 2));
  }

  /** High half of a 64-bit product. */
  function High32(m: nat, n: nat): nat {
    MulLe(0, m, n);
    m * n / TWO32
  }

  function Shr(n: nat, k: nat): nat {
    FloorMeans(n, Pow2(k));
    n / Pow2(k)
  }

  function Divide(v: DivBy, n: nat): nat {
    if v.magic == 0 then Shr(n, v.shift)
    else
      var q := Low32(High32(v.magic, n));
      if v.add then Shr(Low32(Low32(n + TWO32 - q) / 2 + q), v.shift)
      else Shr(q, v.shift)
  }

  /** The quotient never reaches the top of the word, so adding one cannot wrap to the shift-only sentinel. */
  lemma QuotientRoom(d: nat, p: nat, w: nat)
    requires 1 <= p < d && p + 1 < w
    ensures (w * p) / d <= w - 2
  {
    FloorMeans(w * p, d);
    var u := (w * p) / d;
    Room(p, w);
    MulLe(p + 1, d, w - 1);
    assert d * (w - 1) == (w - 1) * d;
    MulLess(u, w - 1, d);
  }

  lemma Room(p: nat, w: nat)
    requires p + 1 < w
    ensures w * p < (p + 1) * (w - 1)
  {
    assert (p + 1) * (w - 1) == w * p + w - p - 1;
  }

  /** A 32-bit magic times a 32-bit n, shifted down, is at most n. */
  lemma HighProduct(m: nat, n: nat)
    requires m < TWO32
    ensures High32(m, n) <= n
  {
    MulLe(m, TWO32, n);
    MulLe(0, m, n);
  }

  /** The error times any 32-bit dividend stays below the power of two. */
  lemma ErrorSmall(n: nat, e: nat, p: nat)
    requires n < TWO32 && e <= p && p > 0
    ensures n * e < TWO32 * p
  {
    MulLe(e, p, n);
    MulLe(n + 1, TWO32, p);
    assert n * e == e * n && n * p == p * n && (n + 1) * p == n * p + p;
  }

  lemma PlainCase(v: DivBy, d: nat, l: nat, n: nat, e: nat)
    requires d >= 1 && n < TWO32 && v.shift == l && !v.add && 0 < v.magic < TWO32
    requires v.magic * d == TWO32 * Pow2(l) + e && e <= Pow2(l)
    ensures Divide(v, n) == n / d
  {
    var m, p := v.magic, Pow2(l);
    ErrorSmall(n, e, p);
    MagicExact(n, d, m, TWO32 * p, e);
    HighProduct(m, n);
    MulLe(0, m, n);
    DivTwice(m * n, TWO32, p);
    assert m * n == n * m;
  }

  lemma AddCase(v: DivBy, d: nat, l: nat, n: nat, e: nat)
    requires d >= 1 && n < TWO32 && v.shift == l && v.add && 0 < v.magic < TWO32
    requires (v.magic + TWO32) * d == TWO32 * (2 * Pow2(l)) + e && e <= 2 * Pow2(l)
    ensures Divide(v, n) == n / d
  {
    var m, p := v.magic + TWO32, Pow2(l);
    ErrorSmall(n, e, 2 * p);
    MagicExact(n, d, m, TWO32 * (2 * p), e);
    MulLe(0, m, n);
    assert m * n == n * m;
    DivTwice(m * n, TWO32, 2 * p);
    Averaged(v.magic, n);
    DivTwice(n + High32(v.magic, n), 2, p);
  }

  /** The overflow-free average recovers the 33-bit product's high part. */
  lemma Averaged(magic: nat, n: nat)
    requires magic < TWO32 && n < TWO32
    ensures var q := High32(magic, n);
            && q <= n && ((magic + TWO32) * n) / TWO32 == n + q
            && Low32(Low32(n + TWO32 - Low32(q)) / 2 + Low32(q)) == (n + q) / 2
  {
    HighProduct(magic, n);
    assert (magic + TWO32) * n == magic * n + TWO32 * n;
  }

  /** The rounding error of the doubled quotient, with the carry the code computes from the wrapped remainder. */
  lemma Doubled(t: nat, d: nat, proposed: nat, rem: nat)
    requires 0 < d < TWO32 && t == proposed * d + rem && rem < d
    ensures var rem2 := Low32(rem + rem);
            (rem2 >= d || rem2 < rem) <==> 2 * rem >= d
    ensures (2 * t) / d == 2 * proposed + if 2 * rem >= d then 1 else 0
  {
    var q := 2 * proposed + if 2 * rem >= d then 1 else 0;
    assert 2 * t == (2 * proposed) * d + 2 * rem;
    assert q * d <= 2 * t < (q + 1) * d by {
      assert (2 * proposed + 1) * d == (2 * proposed) * d + d;
      assert (2 * proposed + 2) * d == (2 * proposed) * d + 2 * d;
    }
    FloorIs(2 * t, d, q);
  }

  /** For every divisor and every 32-bit dividend the multiply-and-shift is the quotient. */
  method Construct(d: nat) returns (v: DivBy)
    requires 1 <= d < TWO32
    ensures forall n :: 0 <= n < TWO32 ==> Divide(v, n) == n / d
    ensures v.magic < TWO32 && v.shift < 32
    ensures v.magic == 0 <==> IsPow2(d)
  {
    Pow32();
    LogBound(d, 32);
    var l := FloorLog2(d);
    OneBit(d);
    if And(d, d - 1) == 0 {
      return DivBy(0, Ctz(d), false);
    }
    v := Magic(d, l);
  }

  method Magic(d: nat, l: nat) returns (v: DivBy)
    requires 1 <= d < TWO32 && l == FloorLog2(d) < 32 && !IsPow2(d)
    ensures forall n :: 0 <= n < TWO32 ==> Divide(v, n) == n / d
    ensures 0 < v.magic < TWO32 && v.shift == l
  {
    var twoToN := TWO32 * Pow2(l);
    Remainder(d, l, twoToN);
    var proposed := Low32(twoToN / d);
    var rem := Low32(twoToN - proposed * d);
    var e := d - rem;
    if e < Pow2(l) {
      v := DivBy(Low32(proposed + 1), l, false);
      Close(proposed, d, twoToN, rem);
      forall n | 0 <= n < TWO32 ensures Divide(v, n) == n / d {
        PlainCase(v, d, l, n, e);
      }
    } else {
      var rem2 := Low32(rem + rem);
      var doubled := Low32(Low32(proposed + proposed) + if rem2 >= d || rem2 < rem then 1 else 0);
      v := DivBy(Low32(doubled + 1), l, true);
      var err := DoubledMagic(d, l, twoToN, proposed, rem, v.magic);
      forall n | 0 <= n < TWO32 ensures Divide(v, n) == n / d {
        AddCase(v, d, l, n, err);
      }
    }
  }

  lemma Remainder(d: nat, l: nat, t: nat)
    requires 1 <= d < TWO32 && l == FloorLog2(d) < 32 && !IsPow2(d) && t == TWO32 * Pow2(l)
    ensures 0 <= t / d <= TWO32 - 2 && 0 <= t - (t / d) * d < d
  {
    FloorMeans(t, d);
    assert (t / d + 1) * d == (t / d) * d + d;
    SmallPower(l);
    QuotientRoom(d, Pow2(l), TWO32);
  }

  lemma SmallPower(l: nat)
    requires l < 32
    ensures Pow2(l) <= TWO32 / 2
  {
    Pow32();
    Pow2Add(l, 31 - l);
    MulLe(1, Pow2(31 - l), Pow2(l));
    assert Pow2(32) == 2 * Pow2(31);
  }

  lemma Close(proposed: nat, d: nat, t: nat, rem: nat)
    requires t == proposed * d + rem && rem < d
    ensures (proposed + 1) * d == t + (d - rem)
  {
  }

  lemma DoubledMagic(d: nat, l: nat, t: nat, proposed: nat, rem: nat, magic: nat) returns (e: nat)
    requires 1 <= d < TWO32 && l == FloorLog2(d) < 32 && !IsPow2(d) && t == TWO32 * Pow2(l)
    requires t == proposed * d + rem && rem < d && proposed <= TWO32 - 2
    requires var rem2 := Low32(rem + rem);
             magic == Low32(Low32(Low32(proposed + proposed) + if rem2 >= d || rem2 < rem then 1 else 0) + 1)
    ensures 0 < magic < TWO32
    ensures (magic + TWO32) * d == TWO32 * (2 * Pow2(l)) + e && e <= 2 * Pow2(l)
  {
    DoubledQuotient(d, l, t, proposed, rem);
    Truncated((2 * t) / d, proposed, if 2 * rem >= d then 1 else 0);
    e := RoundUp(2 * t, d);
  }

  lemma DoubledQuotient(d: nat, l: nat, t: nat, proposed: nat, rem: nat)
    requires 1 <= d < TWO32 && l == FloorLog2(d) < 32 && !IsPow2(d) && t == TWO32 * Pow2(l)
    requires t == proposed * d + rem && rem < d
    ensures var rem2 := Low32(rem + rem);
            (rem2 >= d || rem2 < rem) <==> 2 * rem >= d
    ensures TWO32 <= (2 * t) / d <= 2 * TWO32 - 2
    ensures (2 * t) / d == 2 * proposed + if 2 * rem >= d then 1 else 0
  {
    Doubled(t, d, proposed, rem);
    SmallPower(l);
    assert 2 * t == TWO32 * (2 * Pow2(l));
    DoubledRange(d, Pow2(l), (2 * t) / d);
  }

  lemma RoundUp(x: nat, d: nat) returns (e: nat)
    requires d > 0
    ensures (x / d + 1) * d == x + e && e <= d
  {
    FloorMeans(x, d);
    assert (x / d + 1) * d == (x / d) * d + d;
    e := (x / d + 1) * d - x;
  }

  /** The 33rd bit is exactly what truncation drops. */
  lemma Truncated(u: nat, proposed: nat, carry: nat)
    requires u == 2 * proposed + carry && carry <= 1 && TWO32 <= u <= 2 * TWO32 - 2
    ensures Low32(Low32(Low32(proposed + proposed) + carry) + 1) == u + 1 - TWO32
  {
  }

  lemma DoubledRange(d: nat, p: nat, u: nat)
    requires 1 <= p < d < 2 * p && p <= TWO32 / 2 && u == (TWO32 * (2 * p)) / d
    ensures TWO32 <= u <= 2 * TWO32 - 2
  {
    FloorMeans(TWO32 * (2 * p), d);
    MulLe(d, 2 * p, TWO32);
    FloorUnique(TWO32 * (2 * p), d, TWO32, u);
    assert TWO32 * (2 * p) == (2 * TWO32) * p;
    QuotientRoom(d, p, 2 * TWO32);
  }
}
