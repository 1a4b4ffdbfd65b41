/** A two-level bitmap over price levels: 64-bit words and one summary bit per word. */
module LevelBitsModel {
  import opened Bits
  import BandState

  /** Bits of a word. */
  const WIDTH: nat := 64

  /** Index i's bit in a vector of 64-bit words. */
  ghost predicate Has(words: seq<nat>, i: int) {
    0 <= i && i / 64 < |words| && Bit(words[i / 64], i % 64)
  }

  ghost function Members(words: seq<nat>): set<nat> {
    set i: nat | i < 64 * |words| && Has(words, i)
  }

  ghost predicate WordsOk(words: seq<nat>) {
    forall w :: 0 <= w < |words| ==> words[w] < Pow2(WIDTH)
  }

  /** A summary bit is set exactly for the words that are not zero. */
  ghost predicate Summary(l0: seq<nat>, l1: seq<nat>) {
    && |l0| <= 64 * |l1|
    && forall w: nat :: Has(l1, w) <==> w < |l0| && l0[w] != 0
  }

  /** A nonzero word has a member. */
  lemma NonZero(w: nat, k: nat)
    requires Bit(w, k)
    ensures w != 0
  {
    BitZero(k);
  }

  /** Setting and clearing single bits, read back. */
  lemma SetBit(words: seq<nat>, i: nat)
    requires WordsOk(words) && i / 64 < |words|
    ensures var out := words[i / 64 := Or(words[i / 64], Pow2(i % 64))];
            WordsOk(out) && forall j :: Has(out, j) <==> Has(words, j) || j == i
  {
    var w, b := i / 64, i % 64;
    SetWord(words[w], b, b);
    var out := words[w := Or(words[w], Pow2(b))];
    forall j ensures Has(out, j) <==> Has(words, j) || j == i {
      if 0 <= j && j / 64 == w {
        SetWord(words[w], b, j % 64);
      }
    }
  }

  function Without(word: nat, b: nat): (r: nat)
    requires b < 64 && word < Pow2(WIDTH)
    ensures r <= word
  {
    Pow2Mono(b, WIDTH);
    AndBound(word, Pow2(WIDTH) - 1 - Pow2(b));
    And(word, Pow2(WIDTH) - 1 - Pow2(b))
  }

  lemma ClearWord(word: nat, b: nat, k: nat)
    requires b < 64 && k < 64 && word < Pow2(WIDTH)
    ensures Bit(Without(word, b), k) <==> Bit(word, k) && k != b
  {
    Pow2Mono(b, WIDTH);
    BitAnd(word, Pow2(WIDTH) - 1 - Pow2(b), k);
    BitNot(Pow2(b), WIDTH, k);
    BitPow2(b, k);
  }

  lemma SetWord(word: nat, b: nat, k: nat)
    requires b < 64 && word < Pow2(WIDTH)
    ensures Or(word, Pow2(b)) < Pow2(WIDTH) && (Bit(Or(word, Pow2(b)), k) <==> Bit(word, k) || k == b)
  {
    Pow2Mono(b, WIDTH);
    OrBound(word, Pow2(b), WIDTH);
    BitOr(word, Pow2(b), k);
    BitPow2(b, k);
  }

  lemma ClearBit(words: seq<nat>, i: nat)
    requires WordsOk(words) && i / 64 < |words|
    ensures var out := words[i / 64 := Without(words[i / 64], i % 64)];
            WordsOk(out) && forall j :: Has(out, j) <==> Has(words, j) && j != i
  {
    var w, b := i / 64, i % 64;
    var out := words[w := Without(words[w], b)];
    forall j ensures Has(out, j) <==> Has(words, j) && j != i {
      if 0 <= j && j / 64 == w {
        ClearWord(words[w], b, j % 64);
      }
    }
  }

  // ---- scanning

  /** Index of the leading one: 63 minus the count of leading zeros. */
  function TopIndex(word: nat): (r: nat)
    requires 0 < word < Pow2(WIDTH)
    ensures r < 64
  {
    LogBound(word, WIDTH);
    FloorLog2(word)
  }

  function LowIndex(word: nat): (r: nat)
    requires 0 < word < Pow2(WIDTH)
    ensures r < 64
  {
    LogBound(word, WIDTH);
    CtzBound(word);
    Ctz(word)
  }

  /** Bits of a word up to and including b. */
  function UpTo(word: nat, b: nat): nat {
    And(word, Pow2(b + 1) - 1)
  }

  function Below(word: nat, b: nat): nat {
    And(word, Pow2(b) - 1)
  }

  /** Bits of a word from b on: the mask is all ones shifted left by b. */
  function From(word: nat, b: nat): nat
    requires b <= 64
  {
    if b < 64 then Pow2Mono(b, WIDTH); And(word, Pow2(WIDTH) - Pow2(b)) else 0
  }

  lemma UpToBits(word: nat, b: nat, k: nat)
    ensures UpTo(word, b) <= word && (Bit(UpTo(word, b), k) <==> Bit(word, k) && k <= b)
  {
    AndBound(word, Pow2(b + 1) - 1);
    BitAnd(word, Pow2(b + 1) - 1, k);
    BitLow(b + 1, k);
  }

  lemma BelowBits(word: nat, b: nat, k: nat)
    ensures Below(word, b) <= word && (Bit(Below(word, b), k) <==> Bit(word, k) && k < b)
  {
    AndBound(word, Pow2(b) - 1);
    BitAnd(word, Pow2(b) - 1, k);
    BitLow(b, k);
  }

  lemma HighMask(b: nat, k: nat)
    requires b < 64 && k < 64
    ensures Pow2(b) < Pow2(WIDTH) && (Bit(Pow2(WIDTH) - Pow2(b), k) <==> k >= b)
  {
    Pow2Mono(b, WIDTH);
    BitNot(Pow2(b) - 1, WIDTH, k);
    BitLow(b, k);
  }

  lemma MaskedFrom(word: nat, b: nat, k: nat)
    requires b < 64 && k < 64
    ensures var m := Pow2(WIDTH) - Pow2(b);
            m >= 0 && And(word, m) <= word && (Bit(And(word, m), k) <==> Bit(word, k) && k >= b)
  {
    HighMask(b, k);
    AndBound(word, Pow2(WIDTH) - Pow2(b));
    BitAnd(word, Pow2(WIDTH) - Pow2(b), k);
  }

  lemma FromBits(word: nat, b: nat, k: nat)
    requires b <= 64 && k < 64
    ensures From(word, b) <= word && (Bit(From(word, b), k) <==> Bit(word, k) && k >= b)
  {
    if b < 64 {
      MaskedFrom(word, b, k);
    } else {
      BitZero(k);
    }
  }

  /** r is the greatest member at or below i; -1 says there is none. */
  ghost predicate IsPrev(words: seq<nat>, i: int, r: int) {
    && (r == -1 || (r <= i && Has(words, r)))
    && forall j :: Has(words, j) && j <= i ==> j <= r
  }

  ghost predicate IsNext(words: seq<nat>, i: int, r: int) {
    && (r == -1 || (i <= r && Has(words, r)))
    && forall j :: Has(words, j) && j >= i ==> r != -1 && r <= j
  }

  lemma HasAt(words: seq<nat>, w: nat, t: nat)
    requires w < |words| && t < 64 && Bit(words[w], t)
    ensures Has(words, 64 * w + t)
  {
    assert (64 * w + t) / 64 == w && (64 * w + t) % 64 == t;
  }

  /** The leading member of word w up to bit b. */
  lemma TopMember(words: seq<nat>, w: nat, b: nat)
    requires WordsOk(words) && w < |words| && b < 64
    ensures var m := UpTo(words[w], b); m != 0 ==>
              m < Pow2(WIDTH) && TopIndex(m) <= b && Has(words, 64 * w + TopIndex(m))
  {
    var m := UpTo(words[w], b);
    UpToBits(words[w], b, 0);
    if m != 0 {
      TopBit(m, 0);
      UpToBits(words[w], b, TopIndex(m));
      HasAt(words, w, TopIndex(m));
    }
  }

  lemma NotAboveTop(words: seq<nat>, w: nat, b: nat, j: int)
    requires WordsOk(words) && w < |words| && b < 64 && Has(words, j) && 64 * w <= j <= 64 * w + b
    ensures var m := UpTo(words[w], b); 0 < m < Pow2(WIDTH) && j <= 64 * w + TopIndex(m)
  {
    var m, k := UpTo(words[w], b), j - 64 * w;
    assert j / 64 == w && j % 64 == k;
    UpToBits(words[w], b, k);
    NonZero(m, k);
    TopBit(m, k);
  }

  /** The members of word w up to bit b decide, if there are any. */
  lemma PrevInWord(words: seq<nat>, w: nat, m: nat, b: nat)
    requires WordsOk(words) && w < |words| && b < 64 && m == UpTo(words[w], b)
    ensures m != 0 ==> m < Pow2(WIDTH) && IsPrev(words, 64 * w + b, 64 * w + TopIndex(m))
    ensures m == 0 ==> forall j :: Has(words, j) && j <= 64 * w + b ==> j < 64 * w
  {
    TopMember(words, w, b);
    forall j | Has(words, j) && 64 * w <= j <= 64 * w + b ensures 0 < m < Pow2(WIDTH) && j <= 64 * w + TopIndex(m) {
      NotAboveTop(words, w, b, j);
    }
  }

  lemma LowMember(words: seq<nat>, w: nat, b: nat)
    requires WordsOk(words) && w < |words| && b <= 64
    ensures var m := From(words[w], b); m != 0 ==>
              m < Pow2(WIDTH) && LowIndex(m) >= b && Has(words, 64 * w + LowIndex(m))
  {
    var m := From(words[w], b);
    FromBits(words[w], b, 0);
    if m != 0 {
      LowBit(m, 0);
      FromBits(words[w], b, LowIndex(m));
      HasAt(words, w, LowIndex(m));
    }
  }

  lemma NotBelowLow(words: seq<nat>, w: nat, b: nat, j: int)
    requires WordsOk(words) && w < |words| && b <= 64 && Has(words, j) && 64 * w + b <= j < 64 * w + 64
    ensures var m := From(words[w], b); 0 < m < Pow2(WIDTH) && j >= 64 * w + LowIndex(m)
  {
    var m, k := From(words[w], b), j - 64 * w;
    assert j / 64 == w && j % 64 == k;
    FromBits(words[w], b, k);
    NonZero(m, k);
    LowBit(m, k);
  }

  lemma NextInWord(words: seq<nat>, w: nat, m: nat, b: nat)
    requires WordsOk(words) && w < |words| && b <= 64 && m == From(words[w], b)
    ensures m != 0 ==> m < Pow2(WIDTH) && IsNext(words, 64 * w + b, 64 * w + LowIndex(m))
    ensures m == 0 ==> forall j :: Has(words, j) && j >= 64 * w + b ==> j >= 64 * w + 64
  {
    LowMember(words, w, b);
    forall j | Has(words, j) && 64 * w + b <= j < 64 * w + 64 ensures 0 < m < Pow2(WIDTH) && j >= 64 * w + LowIndex(m) {
      NotBelowLow(words, w, b, j);
    }
  }

  /** A member's word is not zero, so the summary lists it. */
  lemma WordListed(l0: seq<nat>, l1: seq<nat>, j: int)
    requires Summary(l0, l1) && Has(l0, j)
    ensures Has(l1, j / 64) && 64 * (j / 64) <= j < 64 * (j / 64) + 64
  {
    NonZero(l0[j / 64], j % 64);
  }

  lemma WholeWordTop(words: seq<nat>, w: nat)
    requires WordsOk(words) && w < |words| && words[w] != 0
    ensures Has(words, 64 * w + TopIndex(words[w]))
    ensures forall j :: Has(words, j) && j / 64 == w ==> j <= 64 * w + TopIndex(words[w])
  {
    TopBit(words[w], 0);
    HasAt(words, w, TopIndex(words[w]));
    forall j | Has(words, j) && j / 64 == w ensures j <= 64 * w + TopIndex(words[w]) {
      TopBit(words[w], j % 64);
    }
  }

  lemma WholeWordLow(words: seq<nat>, w: nat)
    requires WordsOk(words) && w < |words| && words[w] != 0
    ensures Has(words, 64 * w + LowIndex(words[w]))
    ensures forall j :: Has(words, j) && j / 64 == w ==> 64 * w + LowIndex(words[w]) <= j
  {
    LowBit(words[w], 0);
    HasAt(words, w, LowIndex(words[w]));
    forall j | Has(words, j) && j / 64 == w ensures 64 * w + LowIndex(words[w]) <= j {
      LowBit(words[w], j % 64);
    }
  }

  /** The last nonzero word below w, found in the summary, holds the previous member. */
  lemma PrevBySummary(l0: seq<nat>, l1: seq<nat>, w: nat, i: nat, ww: int)
    requires WordsOk(l0) && Summary(l0, l1) && IsPrev(l1, w - 1, ww) && ww >= -1 && 64 * w <= i + 1
    requires forall j :: Has(l0, j) && j <= i ==> j < 64 * w
    ensures ww >= 0 ==> ww < |l0| && 0 < l0[ww] < Pow2(WIDTH) && IsPrev(l0, i, 64 * ww + TopIndex(l0[ww]))
    ensures ww == -1 ==> IsPrev(l0, i, -1)
  {
    forall j | Has(l0, j) && j <= i ensures j / 64 <= ww {
      WordListed(l0, l1, j);
    }
    if ww >= 0 {
      WholeWordTop(l0, ww);
    }
  }

  /** The first nonzero word from w on, found in the summary, holds the next member. */
  lemma NextBySummary(l0: seq<nat>, l1: seq<nat>, w: nat, i: nat, ww: int)
    requires WordsOk(l0) && Summary(l0, l1) && IsNext(l1, w, ww) && ww >= -1 && i <= 64 * w
    requires forall j :: Has(l0, j) && j >= i ==> j >= 64 * w
    ensures ww >= 0 ==> ww < |l0| && 0 < l0[ww] < Pow2(WIDTH) && IsNext(l0, i, 64 * ww + LowIndex(l0[ww]))
    ensures ww == -1 ==> IsNext(l0, i, -1)
  {
    forall j | Has(l0, j) && j >= i ensures ww >= 0 && j / 64 >= ww {
      WordListed(l0, l1, j);
    }
    if ww >= 0 {
      WholeWordLow(l0, ww);
    }
  }

  // ---- stepping through the summary

  /** m holds exactly the bits of word w below cut. */
  ghost predicate LowPart(words: seq<nat>, w: nat, cut: nat, m: nat) {
    && w < |words| && cut <= 64 && m <= words[w]
    && forall k: nat :: k < 64 ==> (Bit(m, k) <==> Bit(words[w], k) && k < cut)
  }

  /** m holds exactly the bits of word w from cut on. */
  ghost predicate HighPart(words: seq<nat>, w: nat, cut: nat, m: nat) {
    && w < |words| && cut <= 64 && m <= words[w]
    && forall k: nat :: k < 64 ==> (Bit(m, k) <==> Bit(words[w], k) && k >= cut)
  }

  lemma LowPartPrev(words: seq<nat>, w: nat, cut: nat, m: nat)
    requires WordsOk(words) && LowPart(words, w, cut, m)
    ensures m != 0 ==> m < Pow2(WIDTH) && TopIndex(m) < cut && Has(words, 64 * w + TopIndex(m))
    ensures forall j :: Has(words, j) && 64 * w <= j < 64 * w + cut ==> 0 < m < Pow2(WIDTH) && j <= 64 * w + TopIndex(m)
  {
    if m != 0 {
      TopBit(m, 0);
      HasAt(words, w, TopIndex(m));
    }
    forall j | Has(words, j) && 64 * w <= j < 64 * w + cut ensures 0 < m < Pow2(WIDTH) && j <= 64 * w + TopIndex(m) {
      assert Bit(m, j % 64);
      NonZero(m, j % 64);
      TopBit(m, j % 64);
    }
  }

  lemma HighPartNext(words: seq<nat>, w: nat, cut: nat, m: nat)
    requires WordsOk(words) && HighPart(words, w, cut, m)
    ensures m != 0 ==> m < Pow2(WIDTH) && LowIndex(m) >= cut && Has(words, 64 * w + LowIndex(m))
    ensures forall j :: Has(words, j) && 64 * w + cut <= j < 64 * w + 64 ==>
              0 < m < Pow2(WIDTH) && j >= 64 * w + LowIndex(m)
  {
    if m != 0 {
      LowBit(m, 0);
      HasAt(words, w, LowIndex(m));
    }
    forall j | Has(words, j) && 64 * w + cut <= j < 64 * w + 64
      ensures 0 < m < Pow2(WIDTH) && j >= 64 * w + LowIndex(m) {
      assert Bit(m, j % 64);
      NonZero(m, j % 64);
      LowBit(m, j % 64);
    }
  }

  lemma BelowPart(words: seq<nat>, w: nat, cut: nat)
    requires w < |words| && cut <= 64
    ensures LowPart(words, w, cut, Below(words[w], cut))
  {
    BelowBits(words[w], cut, 0);
    forall k: nat | k < 64 ensures Bit(Below(words[w], cut), k) <==> Bit(words[w], k) && k < cut {
      BelowBits(words[w], cut, k);
    }
  }

  lemma FromPart(words: seq<nat>, w: nat, cut: nat)
    requires w < |words| && cut <= 64
    ensures HighPart(words, w, cut, From(words[w], cut))
  {
    FromBits(words[w], cut, 0);
    forall k: nat | k < 64 ensures Bit(From(words[w], cut), k) <==> Bit(words[w], k) && k >= cut {
      FromBits(words[w], cut, k);
    }
  }

  lemma PrevIs(words: seq<nat>, i: nat, r: int)
    requires IsPrev(words, i, r) && r >= -1
    ensures r == BandState.Prev(Members(words), i)
  {
    var q := BandState.Prev(Members(words), i);
    if r != -1 {
      assert r in Members(words);
    }
    if q != -1 {
      assert Has(words, q);
    }
  }

  lemma NextIs(words: seq<nat>, i: nat, r: int)
    requires IsNext(words, i, r) && r >= -1
    ensures r == BandState.Next(Members(words), i, 64 * |words|)
  {
    var q := BandState.Next(Members(words), i, 64 * |words|);
    if r != -1 {
      assert r in Members(words);
    }
    if q != -1 {
      assert Has(words, q);
    }
  }

  function ZeroWords(n: nat): seq<nat> {
    seq(n, _ => 0)
  }

  lemma ZeroHas(n: nat)
    ensures WordsOk(ZeroWords(n)) && forall j :: !Has(ZeroWords(n), j)
  {
    forall j ensures !Has(ZeroWords(n), j) {
      if 0 <= j {
        BitZero(j % 64);
      }
    }
  }

  class LevelBits {
    var l0: seq<nat>
    var l1: seq<nat>

    ghost predicate Valid()
      reads this
    {
      WordsOk(l0) && WordsOk(l1) && Summary(l0, l1)
    }

    constructor ()
      ensures Valid() && Members(l0) == {}
    {
      l0, l1 := [], [];
    }

    method Reset(ticks: nat)
      modifies this
      ensures Valid() && Members(l0) == {} && ticks <= 64 * |l0| && |l0| > 0
    {
      var w0 := (ticks + 63) / 64;
      var w1 := (w0 + 63) / 64;
      l0 := ZeroWords(if w0 == 0 then 1 else w0);
      l1 := ZeroWords(if w1 == 0 then 1 else w1);
      ZeroHas(|l0|);
      ZeroHas(|l1|);
    }

    method ClearAll()
      requires Valid()
      modifies this
      ensures Valid() && Members(l0) == {} && |l0| == old(|l0|)
    {
      l0 := ZeroWords(|l0|);
      l1 := ZeroWords(|l1|);
      ZeroHas(|l0|);
      ZeroHas(|l1|);
    }

    method Set(i: nat)
      requires Valid() && i / 64 < |l0|
      modifies this
      ensures Valid() && Members(l0) == old(Members(l0)) + {i} && |l0| == old(|l0|)
    {
      SetBit(l0, i);
      SetBit(l1, i / 64);
      l0 := l0[i / 64 := Or(l0[i / 64], Pow2(i % 64))];
      l1 := l1[i / 4096 := Or(l1[i / 4096], Pow2((i / 64) % 64))];
      assert Has(l0, i);
      NonZero(l0[i / 64], i % 64);
    }

    method Clear(i: nat)
      requires Valid() && i / 64 < |l0|
      modifies this
      ensures Valid() && Members(l0) == old(Members(l0)) - {i} && |l0| == old(|l0|)
    {
      ClearBit(l0, i);
      ClearBit(l1, i / 64);
      var w := i / 64;
      l0 := l0[w := Without(l0[w], i % 64)];
      if l0[w] == 0 {
        l1 := l1[w / 64 := Without(l1[w / 64], w % 64)];
      }
    }

    /** The last nonzero word before w. */
    method LastWordBelow(w: nat) returns (ww: int)
      requires Valid() && w < |l0|
      ensures ww >= -1 && IsPrev(l1, w - 1, ww)
    {
      var w1: nat := w / 64;
      ghost var cut: nat := w % 64;
      var m1: nat := Below(l1[w1], w % 64);
      BelowPart(l1, w1, cut);
      while true
        invariant LowPart(l1, w1, cut, m1) && 64 * w1 + cut <= w
        invariant forall j :: Has(l1, j) && j < w ==> j < 64 * w1 + cut
        decreases w1
      {
        LowPartPrev(l1, w1, cut, m1);
        if m1 != 0 {
          return 64 * w1 + TopIndex(m1);
        }
        if w1 == 0 {
          return -1;
        }
        w1 := w1 - 1;
        m1, cut := l1[w1], 64;
      }
    }

    /** The first nonzero word after w. */
    method FirstWordAbove(w: nat) returns (ww: int)
      requires Valid() && w < |l0|
      ensures ww >= -1 && IsNext(l1, w + 1, ww)
    {
      var w1: nat := w / 64;
      ghost var cut: nat := w % 64 + 1;
      var m1: nat := if w % 64 == 63 then 0 else From(l1[w1], w % 64 + 1);
      FromPart(l1, w1, cut);
      while true
        invariant HighPart(l1, w1, cut, m1) && w + 1 <= 64 * w1 + cut
        invariant forall j :: Has(l1, j) && j > w ==> j >= 64 * w1 + cut
        decreases |l1| - w1
      {
        HighPartNext(l1, w1, cut, m1);
        if m1 != 0 {
          return 64 * w1 + LowIndex(m1);
        }
        w1 := w1 + 1;
        if w1 >= |l1| {
          return -1;
        }
        m1, cut := l1[w1], 0;
      }
    }

    /** The greatest member at or below i. */
    method Prev(i: nat) returns (r: int)
      requires Valid() && i / 64 < |l0|
      ensures r == BandState.Prev(Members(l0), i)
    {
      var w, b := i / 64, i % 64;
      var m := UpTo(l0[w], b);
      PrevInWord(l0, w, m, b);
      if m != 0 {
        r := 64 * w + TopIndex(m);
      } else {
        var ww := LastWordBelow(w);
        PrevBySummary(l0, l1, w, i, ww);
        r := if ww == -1 then -1 else 64 * ww + TopIndex(l0[ww]);
      }
      PrevIs(l0, i, r);
    }

    /** The least member at or above i; any bound on the members, such as the grid's number of levels, gives it. */
    method Next(i: nat) returns (r: int)
      requires Valid() && i / 64 < |l0|
      ensures r == BandState.Next(Members(l0), i, 64 * |l0|)
      ensures forall n :: BandState.Within(Members(l0), n) ==> r == BandState.Next(Members(l0), i, n)
    {
      var w, b := i / 64, i % 64;
      var m := From(l0[w], b);
      NextInWord(l0, w, m, b);
      if m != 0 {
        r := 64 * w + LowIndex(m);
      } else {
        var ww := FirstWordAbove(w);
        NextBySummary(l0, l1, w + 1, i, ww);
        r := if ww == -1 then -1 else 64 * ww + LowIndex(l0[ww]);
      }
      NextIs(l0, i, r);
      forall n | BandState.Within(Members(l0), n) ensures r == BandState.Next(Members(l0), i, n) {
        BandState.NextAnyBound(Members(l0), i, n, 64 * |l0|);
      }
    }
  }
}
