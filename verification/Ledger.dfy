/**
 * The order-entry ledger: what a client may conclude about its orders from the OUCH messages the
 * venue sent it, and when a message is one a correct venue may send.
 */
module Ledger {
  import opened Types
  import Matcher

  datatype RejectReason = InvalidSide | InvalidQuantity | InvalidSymbol | InvalidPrice | ReplaceNotAllowed

  datatype CancelReason = UserRequested | Ioc | Closed

  /** Prices are wire prices. */
  datatype Ack =
    | Accepted(user: nat, side: Side, price: int, qty: nat, dead: bool)
    | Replaced(orig: nat, user: nat, side: Side, price: int, qty: nat, dead: bool)
    | Executed(user: nat, qty: nat, price: int)
    | Canceled(user: nat, qty: nat, reason: CancelReason)
    | Rejected(user: nat, why: RejectReason)
    | CancelReject(user: nat)

  /** An open client order. */
  datatype Open = Open(side: Side, price: int, qty: nat)

  type Book = map<nat, Open>

  function Reduce(l: Book, u: nat, q: nat): Book {
    if u !in l then l
    else if q >= l[u].qty then l - {u}
    else l[u := l[u].(qty := l[u].qty - q)]
  }

  function Apply(l: Book, a: Ack): Book {
    match a
    case Accepted(u, side, price, qty, _) => l[u := Open(side, price, qty)]
    case Replaced(o, u, side, price, qty, _) => (l - {o})[u := Open(side, price, qty)]
    case Executed(u, q, _) => Reduce(l, u, q)
    case Canceled(u, q, _) => Reduce(l, u, q)
    case Rejected(_, _) => l
    case CancelReject(_) => l
  }

  /** The message is consistent with the client's open orders: known order, no overfill, no fill through the limit. */
  predicate Consistent(l: Book, a: Ack) {
    match a
    case Accepted(u, _, _, qty, _) => u !in l && qty > 0
    case Replaced(o, u, side, _, qty, _) => o in l && u !in l - {o} && qty > 0 && side == l[o].side
    case Executed(u, q, p) => u in l && 0 < q <= l[u].qty && Matcher.Crosses(l[u].side, l[u].price, p)
    case Canceled(u, q, _) => u in l && 0 < q <= l[u].qty
    case Rejected(u, _) => true
    case CancelReject(_) => true
  }

  function Fold(l: Book, s: seq<Ack>): Book
    decreases |s|
  {
    if s == [] then l else Fold(Apply(l, s[0]), s[1..])
  }

  ghost predicate Sound(l: Book, s: seq<Ack>)
    decreases |s|
  {
    s == [] || (Consistent(l, s[0]) && Sound(Apply(l, s[0]), s[1..]))
  }

  lemma {:induction false} FoldConcat(l: Book, s: seq<Ack>, t: seq<Ack>)
    ensures Fold(l, s + t) == Fold(Fold(l, s), t)
    ensures Sound(l, s + t) <==> Sound(l, s) && Sound(Fold(l, s), t)
    decreases |s|
  {
    if s == [] {
      assert s + t == t;
    } else {
      assert (s + t)[1..] == s[1..] + t;
      FoldConcat(Apply(l, s[0]), s[1..], t);
    }
  }

  /** Sending one more consistent message. */
  lemma FoldSnoc(l: Book, s: seq<Ack>, a: Ack)
    ensures Fold(l, s + [a]) == Apply(Fold(l, s), a)
    ensures Sound(l, s + [a]) <==> Sound(l, s) && Consistent(Fold(l, s), a)
  {
    FoldConcat(l, s, [a]);
    assert [a][1..] == [];
  }

  // ---- conservation of shares

  function OpenQty(l: Book, u: nat): nat {
    if u in l then l[u].qty else 0
  }

  /** Shares entering under user ref u by this message: an accept, or a replace to u. */
  function Entered(a: Ack, u: nat): nat {
    match a
    case Accepted(v, _, _, qty, _) => if v == u then qty else 0
    case Replaced(_, v, _, _, qty, _) => if v == u then qty else 0
    case _ => 0
  }

  function Filled(a: Ack, u: nat): nat {
    match a
    case Executed(v, q, _) => if v == u then q else 0
    case _ => 0
  }

  function Cancelled(a: Ack, u: nat): nat {
    match a
    case Canceled(v, q, _) => if v == u then q else 0
    case _ => 0
  }

  /** Shares of u given up because a replace retired the order. */
  function Retired(l: Book, a: Ack, u: nat): nat {
    match a
    case Replaced(o, _, _, _, _, _) => if o == u then OpenQty(l, u) else 0
    case _ => 0
  }

  datatype Totals = Totals(entered: nat, filled: nat, cancelled: nat, retired: nat)

  function Tally(l: Book, s: seq<Ack>, u: nat): Totals
    decreases |s|
  {
    if s == [] then Totals(0, 0, 0, 0)
    else
      var t := Tally(Apply(l, s[0]), s[1..], u);
      Totals(t.entered + Entered(s[0], u), t.filled + Filled(s[0], u), t.cancelled + Cancelled(s[0], u),
             t.retired + Retired(l, s[0], u))
  }

  /** Every share a user ref ever had is executed, cancelled, retired by a replace, or still open. */
  lemma {:induction false} Conservation(l: Book, s: seq<Ack>, u: nat)
    requires Sound(l, s)
    ensures var t := Tally(l, s, u);
            OpenQty(l, u) + t.entered == t.filled + t.cancelled + t.retired + OpenQty(Fold(l, s), u)
    decreases |s|
  {
    if s != [] {
      Conservation(Apply(l, s[0]), s[1..], u);
    }
  }

  // ---- a whole message history

  /** Every message of the history was consistent when sent, and together they leave exactly the open orders l. */
  ghost predicate Told(s: seq<Ack>, l: Book) {
    forall k: nat {:trigger Look(LedgerSeal, k)} :: Look(LedgerSeal, k) ==> Sound(map[], s) && Fold(map[], s) == l
  }

  lemma ToldMeans(s: seq<Ack>, l: Book)
    requires Told(s, l)
    ensures Sound(map[], s) && Fold(map[], s) == l
  {
    assert Look(LedgerSeal, 0);
  }

  lemma ToldOneMore(s: seq<Ack>, l: Book, a: Ack)
    requires Told(s, l) && Consistent(l, a)
    ensures Told(s + [a], Apply(l, a))
  {
    ToldMeans(s, l);
    FoldSnoc(map[], s, a);
  }

  /** Conservation over a whole history: every share is executed, cancelled, retired by a replace, or open. */
  lemma ToldConserves(s: seq<Ack>, l: Book, u: nat)
    requires Told(s, l)
    ensures var t := Tally(map[], s, u); t.entered == t.filled + t.cancelled + t.retired + OpenQty(l, u)
  {
    ToldMeans(s, l);
    Conservation(map[], s, u);
  }
}
