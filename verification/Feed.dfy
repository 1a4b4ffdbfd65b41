/** The reference meaning of the market-data feed: a plain map from order reference to order. */
module Feed {
  import opened Types

  /** Prices are wire prices. */
  datatype Itch =
    | AddOrder(ref: nat, side: Side, shares: nat, price: int)
    | OrderExecuted(ref: nat, shares: nat)
    | OrderCancel(ref: nat, shares: nat)
    | OrderDelete(ref: nat)
    | OrderReplace(orig: nat, ref: nat, shares: nat, price: int)
    | TradeNonCross(price: int)
    | CrossTrade(shares: nat, price: int)

  datatype Shown = Shown(side: Side, price: int, shares: nat)

  type Book = map<nat, Shown>

  function Reduce(b: Book, ref: nat, gone: nat): Book {
    if ref !in b then b
    else if gone >= b[ref].shares then b - {ref}
    else b[ref := b[ref].(shares := b[ref].shares - gone)]
  }

  function Apply(b: Book, m: Itch): Book {
    match m
    case AddOrder(ref, side, shares, price) => if shares == 0 then b else b[ref := Shown(side, price, shares)]
    case OrderExecuted(ref, gone) => Reduce(b, ref, gone)
    case OrderCancel(ref, gone) => Reduce(b, ref, gone)
    case OrderDelete(ref) => b - {ref}
    case OrderReplace(orig, ref, shares, price) =>
      if orig !in b then b
      else if shares == 0 then b - {orig}
      else (b - {orig})[ref := Shown(b[orig].side, price, shares)]
    case TradeNonCross(_) => b
    case CrossTrade(_, _) => b
  }

  function Fold(b: Book, s: seq<Itch>): Book
    decreases |s|
  {
    if s == [] then b else Fold(Apply(b, s[0]), s[1..])
  }

  lemma {:induction false} FoldSnoc(b: Book, s: seq<Itch>, m: Itch)
    ensures Fold(b, s + [m]) == Apply(Fold(b, s), m)
    decreases |s|
  {
    if s == [] {
      assert [] + [m] == [m] && [m][1..] == [];
    } else {
      assert (s + [m])[1..] == s[1..] + [m];
      FoldSnoc(Apply(b, s[0]), s[1..], m);
    }
  }

  /** What every reader of a feed may rely on: new references are nonzero and unused, prices not negative. */
  predicate Fresh(b: Book, m: Itch) {
    match m
    case AddOrder(ref, _, _, price) => ref > 0 && ref !in b && price >= 0
    case OrderReplace(orig, ref, _, price) => orig in b ==> ref > 0 && ref !in b - {orig} && price >= 0
    case TradeNonCross(price) => price >= 0
    case _ => true
  }

  /** Every message was fresh when it was sent. */
  ghost predicate Clean(s: seq<Itch>)
    decreases |s|
  {
    s == [] || (Clean(s[..|s| - 1]) && Fresh(Fold(map[], s[..|s| - 1]), s[|s| - 1]))
  }

  /** The messages sent so far are well formed and leave exactly the book b. */
  ghost predicate Shows(s: seq<Itch>, b: Book) {
    forall k: nat {:trigger Look(FeedSeal, k)} :: Look(FeedSeal, k) ==> Fold(map[], s) == b && Clean(s)
  }

  lemma ShowsMeans(s: seq<Itch>, b: Book)
    requires Shows(s, b)
    ensures Fold(map[], s) == b && Clean(s)
  {
    assert Look(FeedSeal, 0);
  }

  lemma ShowsOneMore(s: seq<Itch>, b: Book, m: Itch)
    requires Shows(s, b) && Fresh(b, m)
    ensures Shows(s + [m], Apply(b, m))
  {
    ShowsMeans(s, b);
    FoldSnoc(map[], s, m);
    assert (s + [m])[..|s|] == s;
  }

  lemma ShowsLast(s: seq<Itch>, m: Itch, b: Book, b': Book)
    requires Shows(s, b) && Shows(s + [m], b')
    ensures Fresh(b, m)
  {
    ShowsMeans(s, b);
    ShowsMeans(s + [m], b');
    assert (s + [m])[..|s|] == s;
  }
}
