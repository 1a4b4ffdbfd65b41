/** Value types shared by the matching engine, the venue and the feed-driven book. */
module Types {
  datatype Side = Buy | Sell

  function Opposite(s: Side): (r: Side)
    ensures r != s
  {
    if s.Buy? then Sell else Buy
  }

  /** Sentinel for "no best price"; every price the system handles is above it. */
  const NO_PRICE: int := -0x8000_0000

  /** Sentinel handle: end of an intrusive list. */
  const NIL: nat := 0xFFFF_FFFF

  const TWO32: nat := 0x1_0000_0000

  function Min(a: nat, b: nat): nat {
    if a < b then a else b
  }

  datatype Option<T> = None | Some(value: T)

  /** Truncation to 32 bits. */
  function Low32(x: int): (r: nat)
    ensures r < TWO32 && (0 <= x < TWO32 ==> r == x)
  {
    x % TWO32
  }

  const TWO64: nat := 0x1_0000_0000_0000_0000

  /** Truncation to 64 bits, by taking off whole multiples: the remainder, see Low64IsMod. */
  function Low64(x: nat): (r: nat)
    ensures r < TWO64 && (x < TWO64 ==> r == x)
  {
    if x < TWO64 then x else Low64(x - TWO64)
  }

  lemma {:induction false} Low64IsMod(x: nat)
    ensures Low64(x) == x % TWO64
  {
    if x >= TWO64 {
      Low64IsMod(x - TWO64);
    }
  }

  /** The families of predicates that are kept folded. */
  datatype Seal =
    | BandSeal | SplitSeal | VenueSeal | FeedSeal | LedgerSeal | PacketSeal
    | ReadSeal | MatchSeal | TableSeal | DeskSeal | CrossSeal

  /**
   * Marks a proof that looks inside a folded predicate. Such a predicate has the form
   * `forall k :: Look(seal, k) ==> fact`; large proofs then treat it as one name until a lemma opens it.
   */
  predicate Look(seal: Seal, k: nat) {
    true
  }
}
