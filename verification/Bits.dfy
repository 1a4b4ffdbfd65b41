/** Machine words as natural numbers, read bit by bit. */
module Bits {
  import opened Types
  import opened Arith

  function Pow2(k: nat): (r: nat)
    ensures r >= 1
  {
    if k == 0 then 1 else 2 * Pow2(k - 1)
  }

  function FloorLog2(d: nat): (r: nat)
    requires d >= 1
    ensures Pow2(r) <= d < 2 * Pow2(r)
  {
    if d == 1 then 0 else 1 + FloorLog2(d / 2)
  }

  lemma {:induction false} Pow2Add(a: nat, b: nat)
    ensures Pow2(a + b) == Pow2(a) * Pow2(b)
  {
    if b > 0 {
      Pow2Add(a, b - 1);
      MulAssoc(Pow2(a), Pow2(b - 1));
    }
  }

  lemma MulAssoc(x: nat, y: nat)
    ensures x * (2 * y) == 2 * (x * y)
  {
  }

  lemma Pow32()
    ensures Pow2(32) == TWO32
  {
    assert Pow2(8) == 256;
    Pow2Add(8, 8);
    Pow2Add(16, 16);
  }

  /** What fits k bits has its leading bit below position k. */
  lemma {:induction false} LogBound(d: nat, k: nat)
    requires 1 <= d && d < Pow2(k)
    ensures FloorLog2(d) < k
  {
    if d > 1 {
      LogBound(d / 2, k - 1);
    }
  }

  /** Bitwise and. */
  function And(a: nat, b: nat): nat {
    if a == 0 then 0 else 2 * And(a / 2, b / 2) + if a % 2 == 1 && b % 2 == 1 then 1 else 0
  }

  /** Count of trailing zero bits. */
  function Ctz(d: nat): nat
    requires d >= 1
  {
    if d % 2 == 1 then 0 else 1 + Ctz(d / 2)
  }

  lemma {:induction false} AndSelf(a: nat)
    ensures And(a, a) == a
  {
    if a > 0 {
      AndSelf(a / 2);
    }
  }

  function Or(a: nat, b: nat): nat
    decreases a + b
  {
    if a == 0 then b else 2 * Or(a / 2, b / 2) + if a % 2 == 1 || b % 2 == 1 then 1 else 0
  }

  /** Bit k of a word. */
  predicate Bit(w: nat, k: nat) {
    if k == 0 then w % 2 == 1 else Bit(w / 2, k - 1)
  }

  lemma {:induction false} BitZero(k: nat)
    ensures !Bit(0, k)
  {
    if k > 0 {
      BitZero(k - 1);
    }
  }

  lemma {:induction false} BitAnd(a: nat, b: nat, k: nat)
    ensures Bit(And(a, b), k) <==> Bit(a, k) && Bit(b, k)
  {
    if a == 0 {
      BitZero(k);
    } else if k > 0 {
      BitAnd(a / 2, b / 2, k - 1);
      assert And(a, b) / 2 == And(a / 2, b / 2);
    }
  }

  lemma {:induction false} BitOr(a: nat, b: nat, k: nat)
    ensures Bit(Or(a, b), k) <==> Bit(a, k) || Bit(b, k)
  {
    if a == 0 {
      BitZero(k);
    } else if k > 0 {
      BitOr(a / 2, b / 2, k - 1);
      assert Or(a, b) / 2 == Or(a / 2, b / 2);
    }
  }

  lemma {:induction false} BitPow2(b: nat, k: nat)
    ensures Bit(Pow2(b), k) <==> k == b
  {
    if b == 0 {
      if k > 0 {
        BitZero(k - 1);
      }
    } else if k > 0 {
      BitPow2(b - 1, k - 1);
    }
  }

  /** A word with its low n bits complemented. */
  lemma {:induction false} BitNot(x: nat, n: nat, k: nat)
    requires x < Pow2(n) && k < n
    ensures Bit(Pow2(n) - 1 - x, k) <==> !Bit(x, k)
  {
    if k > 0 {
      assert (Pow2(n) - 1 - x) / 2 == Pow2(n - 1) - 1 - x / 2;
      BitNot(x / 2, n - 1, k - 1);
    }
  }

  lemma {:induction false} BitLow(b: nat, k: nat)
    ensures Bit(Pow2(b) - 1, k) <==> k < b
  {
    if b == 0 {
      BitZero(k);
    } else if k > 0 {
      assert (Pow2(b) - 1) / 2 == Pow2(b - 1) - 1;
      BitLow(b - 1, k - 1);
    }
  }

  /** A nonzero word has a set bit, and its leading one is the last. */
  lemma {:induction false} TopBit(w: nat, k: nat)
    requires w > 0
    ensures Bit(w, FloorLog2(w)) && (Bit(w, k) ==> k <= FloorLog2(w))
  {
    if w > 1 {
      TopBit(w / 2, if k == 0 then 0 else k - 1);
    } else if k > 0 {
      BitZero(k - 1);
    }
  }

  lemma {:induction false} LowBit(w: nat, k: nat)
    requires w > 0
    ensures Bit(w, Ctz(w)) && (Bit(w, k) ==> k >= Ctz(w))
  {
    if w % 2 == 0 {
      LowBit(w / 2, if k == 0 then 0 else k - 1);
    }
  }

  lemma {:induction false} AndBound(a: nat, b: nat)
    ensures And(a, b) <= a
  {
    if a > 0 {
      AndBound(a / 2, b / 2);
    }
  }

  lemma {:induction false} OrBound(a: nat, b: nat, n: nat)
    requires a < Pow2(n) && b < Pow2(n)
    ensures Or(a, b) < Pow2(n)
  {
    if a > 0 {
      OrBound(a / 2, b / 2, n - 1);
    }
  }

  lemma {:induction false} Pow2Mono(a: nat, b: nat)
    requires a < b
    ensures 2 * Pow2(a) <= Pow2(b)
  {
    if a + 1 < b {
      Pow2Mono(a, b - 1);
    }
  }

  lemma {:induction false} CtzBound(w: nat)
    requires w > 0
    ensures Ctz(w) <= FloorLog2(w)
  {
    TopBit(w, 0);
    LowBit(w, FloorLog2(w));
  }

  lemma {:induction false} AndZero(a: nat)
    ensures And(a, 0) == 0
  {
    if a > 0 {
      AndZero(a / 2);
    }
  }

  lemma {:induction false} MaskRest(x: nat, k: nat) returns (q: nat)
    ensures x == Pow2(k) * q + And(x, Pow2(k) - 1) && And(x, Pow2(k) - 1) < Pow2(k)
  {
    if k == 0 {
      AndZero(x);
      q := x;
    } else {
      q := MaskRest(x / 2, k - 1);
      AndStep(x, Pow2(k - 1));
      RestStep(x, Pow2(k - 1), q, And(x / 2, Pow2(k - 1) - 1));
    }
  }

  lemma RestStep(x: nat, p: nat, q: nat, r: nat)
    requires x / 2 == p * q + r && r < p
    ensures x == (2 * p) * q + (2 * r + x % 2) && 2 * r + x % 2 < 2 * p
  {
    assert (2 * p) * q == 2 * (p * q);
  }

  /** Masking with a power of two less one is the remainder. */
  lemma MaskIsMod(x: nat, k: nat)
    ensures And(x, Pow2(k) - 1) == x % Pow2(k)
  {
    var q := MaskRest(x, k);
    ModIs(x, Pow2(k), q, And(x, Pow2(k) - 1));
  }

  lemma AndStep(x: nat, p: nat)
    requires p > 0
    ensures And(x, 2 * p - 1) == 2 * And(x / 2, p - 1) + x % 2
  {
    HalfMask(p);
  }

  lemma HalfMask(p: nat)
    requires p > 0
    ensures (2 * p - 1) / 2 == p - 1 && (2 * p - 1) % 2 == 1
  {
  }

  lemma ModIs(x: nat, t: nat, q: nat, r: nat)
    requires r < t && x == t * q + r
    ensures x % t == r
  {
    assert (q + 1) * t == t * q + t;
    FloorIs(x, t, q);
  }

  /** Adding one under the mask wraps to zero at the end. */
  lemma StepIsMask(i: nat, k: nat)
    requires i < Pow2(k)
    ensures And(i + 1, Pow2(k) - 1) == if i + 1 == Pow2(k) then 0 else i + 1
  {
    MaskIsMod(i + 1, k);
    ModIs(i + 1, Pow2(k), if i + 1 == Pow2(k) then 1 else 0, if i + 1 == Pow2(k) then 0 else i + 1);
  }

  // ---- fields of a word

  /** Or-ing a multiple of 2^k with what fits below it is addition. */
  lemma {:induction false} OrFields(q: nat, low: nat, k: nat)
    requires low < Pow2(k)
    ensures Or(low, q * Pow2(k)) == low + q * Pow2(k)
  {
    if k == 0 {
      assert q * Pow2(0) == q;
    } else {
      var p := Pow2(k - 1);
      OrFields(q, low / 2, k - 1);
      DoubledProduct(q, p);
      assert (q * Pow2(k)) / 2 == q * p && (q * Pow2(k)) % 2 == 0;
      OrStep(low, q * Pow2(k));
    }
  }

  lemma DoubledProduct(q: nat, p: nat)
    ensures q * (2 * p) == 2 * (q * p)
  {
  }

  lemma OrStep(a: nat, b: nat)
    ensures Or(a, b) == 2 * Or(a / 2, b / 2) + if a % 2 == 1 || b % 2 == 1 then 1 else 0
  {
    if a == 0 {
      assert Or(0, b / 2) == b / 2;
    }
  }

  lemma {:induction false} OrComm(a: nat, b: nat)
    ensures Or(a, b) == Or(b, a)
    decreases a + b
  {
    if a + b > 0 {
      OrStep(a, b);
      OrStep(b, a);
      OrComm(a / 2, b / 2);
    }
  }

  /** A single-bit mask tests that bit. */
  lemma {:induction false} AndBit(x: nat, k: nat)
    ensures And(x, Pow2(k)) != 0 <==> Bit(x, k)
  {
    if x == 0 {
      BitZero(k);
    } else if k == 0 {
      assert And(x / 2, 0) == 0 by {
        AndZero(x / 2);
      }
    } else {
      AndBit(x / 2, k - 1);
    }
  }

  /** Bits from k on are the quotient's. */
  lemma {:induction false} BitAbove(q: nat, low: nat, k: nat, i: nat)
    requires low < Pow2(k)
    ensures Bit(low + q * Pow2(k), k + i) <==> Bit(q, i)
  {
    if k == 0 {
      assert q * Pow2(0) == q;
    } else {
      var p := Pow2(k - 1);
      DoubledProduct(q, p);
      assert (low + q * Pow2(k)) / 2 == low / 2 + q * p;
      BitAbove(q, low / 2, k - 1, i);
    }
  }

  /** Clearing the low k bits of an n-bit word. */
  lemma {:induction false} AndHigh(q: nat, low: nat, k: nat, n: nat)
    requires k <= n && low < Pow2(k) && low + q * Pow2(k) < Pow2(n)
    ensures Pow2(k) <= Pow2(n) && And(low + q * Pow2(k), Pow2(n) - Pow2(k)) == q * Pow2(k)
  {
    if k == 0 {
      assert q * Pow2(0) == q;
      MaskIsMod(q, n);
      ModIs(q, Pow2(n), 0, q);
    } else {
      var p, x := Pow2(k - 1), low + q * Pow2(k);
      DoubledProduct(q, p);
      assert x / 2 == low / 2 + q * p;
      AndHigh(q, low / 2, k - 1, n - 1);
      assert (Pow2(n) - Pow2(k)) / 2 == Pow2(n - 1) - p && (Pow2(n) - Pow2(k)) % 2 == 0;
      AndDoubled(x, Pow2(n - 1) - p);
    }
  }

  lemma AndDoubled(x: nat, m: nat)
    ensures And(x, 2 * m) == 2 * And(x / 2, m)
  {
  }

  /** The field below bit k. */
  lemma LowField(q: nat, low: nat, k: nat)
    requires low < Pow2(k)
    ensures And(low + q * Pow2(k), Pow2(k) - 1) == low
  {
    MaskIsMod(low + q * Pow2(k), k);
    assert low + q * Pow2(k) == Pow2(k) * q + low;
    ModIs(low + q * Pow2(k), Pow2(k), q, low);
  }

  /** A flag above the field. */
  lemma FlagField(q: nat, low: nat, k: nat, i: nat)
    requires low < Pow2(k)
    ensures And(low + q * Pow2(k), Pow2(k + i)) != 0 <==> Bit(q, i)
  {
    AndBit(low + q * Pow2(k), k + i);
    BitAbove(q, low, k, i);
  }

  /** Or-ing in one flag above what is there. */
  lemma OrFlag(low: nat, k: nat, on: bool)
    requires low < Pow2(k)
    ensures Or(low, if on then Pow2(k) else 0) == low + if on then Pow2(k) else 0
  {
    OrFields(if on then 1 else 0, low, k);
  }

  lemma TwoFlags(low: nat, k: nat, on: bool, above: bool)
    requires low < Pow2(k)
    ensures Or(Or(low, if on then Pow2(k) else 0), if above then Pow2(k + 1) else 0)
         == low + (if on then Pow2(k) else 0) + if above then Pow2(k + 1) else 0
  {
    OrFlag(low, k, on);
    OrFlag(low + if on then Pow2(k) else 0, k + 1, above);
  }

  /** Rewriting the field below bit k of an n-bit word with the low bits of x. */
  lemma SetField(q: nat, low: nat, x: nat, k: nat, n: nat)
    requires k <= n && low < Pow2(k) && low + q * Pow2(k) < Pow2(n)
    ensures Pow2(k) <= Pow2(n)
    ensures Or(And(low + q * Pow2(k), Pow2(n) - Pow2(k)), And(x, Pow2(k) - 1)) == x % Pow2(k) + q * Pow2(k)
  {
    AndHigh(q, low, k, n);
    MaskIsMod(x, k);
    OrComm(q * Pow2(k), x % Pow2(k));
    OrFields(q, x % Pow2(k), k);
  }
}
