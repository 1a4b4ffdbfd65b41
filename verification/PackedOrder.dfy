/** The eight-byte order record: shares, side and ownership share one 32-bit word. */
module PackedOrder {
  import opened Types
  import opened Bits
  import BandTotals
  import BookBuilderModel

  /** The shares field, then the side's bit, then ownership's. */
  const MASK: nat := 0x3FFF_FFFF
  const SELL: nat := 0x4000_0000
  const OWN: nat := 0x8000_0000

  datatype Packed = Packed(price: int, bits: nat)

  function Clamp(shares: nat): (r: nat)
    ensures r <= MASK
  {
    if shares > MASK then MASK else shares
  }

  function Make(price: int, shares: nat, side: Side, own: bool): Packed {
    Packed(price, Or(Or(Clamp(shares), if side.Sell? then SELL else 0), if own then OWN else 0))
  }

  function Shares(p: Packed): nat {
    And(p.bits, MASK)
  }

  function SideOf(p: Packed): Side {
    if And(p.bits, SELL) != 0 then Sell else Buy
  }

  predicate Own(p: Packed) {
    And(p.bits, OWN) != 0
  }

  /** Keeps the other fields and stores the low bits of shares. */
  function SetShares(p: Packed, shares: nat): Packed {
    p.(bits := Or(And(p.bits, TWO32 - SELL), And(shares, MASK)))
  }

  /** The record the book reasons with. */
  function Unpack(p: Packed): BandTotals.Resting {
    BandTotals.Resting(p.price, Shares(p), SideOf(p), Own(p))
  }

  /** Bit k is the side's. */
  ghost predicate SideBit(k: nat) {
    Pow2(k) == SELL && Pow2(k + 1) == OWN && Pow2(k + 2) == TWO32
  }

  lemma Thirty() returns (k: nat)
    ensures SideBit(k)
  {
    k := 30;
    assert Pow2(6) == 64;
    Pow2Add(6, 6);
    Pow2Add(12, 12);
    Pow2Add(24, 6);
  }

  /** A word with these shares below these flags. */
  function Word(low: nat, flags: nat): nat {
    low + flags * SELL
  }

  function Flags(side: Side, own: bool): nat {
    (if side.Sell? then 1 else 0) + if own then 2 else 0
  }

  lemma MakeWord(price: int, shares: nat, side: Side, own: bool)
    ensures Make(price, shares, side, own).bits == Word(Clamp(shares), Flags(side, own))
  {
    var k := Thirty();
    TwoFlags(Clamp(shares), k, side.Sell?, own);
  }

  /** A word read field by field. */
  lemma Fields(p: Packed, low: nat, flags: nat)
    requires low <= MASK && p.bits == Word(low, flags)
    ensures Shares(p) == low && (SideOf(p) == Sell <==> Bit(flags, 0)) && (Own(p) <==> Bit(flags, 1))
  {
    var k := Thirty();
    LowField(flags, low, k);
    FlagField(flags, low, k, 0);
    FlagField(flags, low, k, 1);
  }

  lemma FlagBits(side: Side, own: bool)
    ensures (Bit(Flags(side, own), 0) <==> side.Sell?) && (Bit(Flags(side, own), 1) <==> own)
  {
    assert Bit(Flags(side, own), 1) == Bit(Flags(side, own) / 2, 0);
  }

  /** Packing and reading back gives the saturating record the book reasons with, whatever the inputs. */
  lemma MakeReads(price: int, shares: nat, side: Side, own: bool)
    ensures Unpack(Make(price, shares, side, own)) == BookBuilderModel.Record(price, shares, side, own)
  {
    MakeWord(price, shares, side, own);
    Fields(Make(price, shares, side, own), Clamp(shares), Flags(side, own));
    FlagBits(side, own);
  }

  /** The record holds the shares exactly when they number below 2^30. */
  lemma MakeExact(price: int, shares: nat, side: Side, own: bool)
    ensures Shares(Make(price, shares, side, own)) == shares <==> shares <= MASK
  {
    MakeReads(price, shares, side, own);
  }

  /**
   * Writing the shares of any record disturbs no other field; counts below 2^30 are stored exactly,
   * larger ones modulo it.
   */
  lemma SetSharesReads(p: Packed, shares: nat)
    requires p.bits < TWO32
    ensures Unpack(SetShares(p, shares)) == Unpack(p).(shares := shares % SELL)
  {
    var k := Thirty();
    var low, flags := p.bits % SELL, p.bits / SELL;
    Fields(p, low, flags);
    SetField(flags, low, shares, k, k + 2);
    Fields(SetShares(p, shares), shares % SELL, flags);
  }
}
