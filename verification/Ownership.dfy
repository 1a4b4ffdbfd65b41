/**
 * Whose orders the feed-driven book holds. An order is the session's own if the reference under which
 * it first came in was; a replacement belongs to whoever owned the order it replaces.
 */
module Ownership {
  import opened Types
  import opened BandTotals
  import opened Sums
  import Feed

  /** For each resting order, the reference it first came in under, through any number of replacements. */
  type Firsts = map<nat, nat>

  /** Read off the feed alone: only an add brings a new origin in, a replacement hands it on. */
  function FirstsAfter(t: Firsts, b: Feed.Book, m: Feed.Itch): Firsts {
    match m
    case AddOrder(ref, _, shares, _) => if shares == 0 then t else t[ref := ref]
    case OrderReplace(orig, ref, shares, _) =>
      if orig !in t then t else if shares == 0 then t - {orig} else (t - {orig})[ref := t[orig]]
    case _ => map ref | ref in t && ref in Feed.Apply(b, m) :: t[ref]
  }

  /** The plain book the orders stand for; own orders included. */
  ghost function Plain(orders: Orders): Feed.Book {
    map ref | ref in orders :: Feed.Shown(orders[ref].side, orders[ref].price, orders[ref].shares)
  }

  /** Exactly the orders that came in at or above the session's first reference are marked as own. */
  ghost predicate OwnedBy(orders: Orders, t: Firsts, min: nat) {
    t.Keys == orders.Keys && forall ref :: ref in orders ==> (orders[ref].own <==> min != 0 && t[ref] >= min)
  }

  /** Shares everybody else shows at a price, counted on the feed's book and the origins. */
  ghost function Depth(b: Feed.Book, t: Firsts, min: nat, side: Side, price: int): nat {
    SumOver(b.Keys, map ref | ref in b ::
      if b[ref].side == side && b[ref].price == price && !(ref in t && min != 0 && t[ref] >= min)
      then b[ref].shares else 0)
  }

  /** The totals the level arrays show are that depth. */
  lemma DepthTotal(orders: Orders, t: Firsts, min: nat, side: Side, price: int)
    requires OwnedBy(orders, t, min)
    ensures Total(orders, Level(side, price)) == Depth(Plain(orders), t, min, side, price)
  {
    var b := Plain(orders);
    var w := map ref | ref in b ::
      if b[ref].side == side && b[ref].price == price && !(ref in t && min != 0 && t[ref] >= min)
      then b[ref].shares else 0;
    assert b.Keys == orders.Keys;
    SumSame(orders.Keys, Weights(orders, Level(side, price)), w);
  }

  /** An add that is kept: its own reference decides. */
  lemma OwnedAdd(orders: Orders, t: Firsts, min: nat, ref: nat, side: Side, shares: nat, price: int, r: Resting)
    requires OwnedBy(orders, t, min) && (r.own <==> min != 0 && ref >= min) && shares > 0
    ensures OwnedBy(orders[ref := r], FirstsAfter(t, Plain(orders), Feed.AddOrder(ref, side, shares, price)), min)
  {
  }

  /** A replacement: the origin, and with it the owner, is handed on. */
  lemma OwnedReplace(orders: Orders, t: Firsts, min: nat, orig: nat, ref: nat, shares: nat, price: int, r: Resting)
    requires OwnedBy(orders, t, min) && orig in orders && (r.own <==> orders[orig].own) && shares > 0
    ensures OwnedBy((orders - {orig})[ref := r],
                    FirstsAfter(t, Plain(orders), Feed.OrderReplace(orig, ref, shares, price)),
                    min)
  {
  }

  /** Anything that leaves the remaining orders' owners alone. */
  lemma OwnedKept(orders: Orders, orders': Orders, t: Firsts, t': Firsts, min: nat)
    requires OwnedBy(orders, t, min) && t'.Keys == orders'.Keys
    requires forall ref :: ref in orders' ==> ref in orders && orders'[ref].own == orders[ref].own
    requires forall ref :: ref in t' ==> ref in t && t'[ref] == t[ref]
    ensures OwnedBy(orders', t', min)
  {
  }

  /** What one message does to the orders: a fresh add is the only thing that looks at its reference. */
  ghost predicate Moves(orders: Orders, m: Feed.Itch, min: nat, orders': Orders) {
    match m
    case AddOrder(ref, side, shares, price) =>
      orders' == if shares == 0 then orders else orders[ref := Resting(price, shares, side, min != 0 && ref >= min)]
    case OrderExecuted(ref, gone) => Loses(orders, ref, gone, orders')
    case OrderCancel(ref, gone) => Loses(orders, ref, gone, orders')
    case OrderDelete(ref) => orders' == orders - {ref}
    case OrderReplace(orig, ref, shares, price) =>
      orders' ==
        if orig !in orders then orders
        else if shares == 0 then orders - {orig}
        else (orders - {orig})[ref := Resting(price, shares, orders[orig].side, orders[orig].own)]
    case TradeNonCross(_) => orders' == orders
    case CrossTrade(_, _) => orders' == orders
  }

  ghost predicate Loses(orders: Orders, ref: nat, gone: nat, orders': Orders) {
    orders' ==
      if ref !in orders then orders
      else if gone >= orders[ref].shares then orders - {ref}
      else orders[ref := orders[ref].(shares := orders[ref].shares - gone)]
  }

  lemma LosesPlain(orders: Orders, ref: nat, gone: nat, orders': Orders)
    requires Loses(orders, ref, gone, orders')
    ensures Plain(orders') == Feed.Reduce(Plain(orders), ref, gone)
    ensures forall r :: r in orders' ==> r in orders && orders'[r].own == orders[r].own
  {
  }

  lemma LosesOwned(orders: Orders, m: Feed.Itch, ref: nat, gone: nat, min: nat, orders': Orders, t: Firsts)
    requires OwnedBy(orders, t, min) && Loses(orders, ref, gone, orders')
    requires m == Feed.OrderExecuted(ref, gone) || m == Feed.OrderCancel(ref, gone)
    ensures OwnedBy(orders', FirstsAfter(t, Plain(orders), m), min)
    ensures Plain(orders') == Feed.Apply(Plain(orders), m)
  {
    LosesPlain(orders, ref, gone, orders');
    var t' := FirstsAfter(t, Plain(orders), m);
    assert t'.Keys == Plain(orders').Keys;
    OwnedKept(orders, orders', t, t', min);
  }

  /** A message that moves the orders so keeps the marks right. */
  lemma MovesOwned(orders: Orders, m: Feed.Itch, min: nat, orders': Orders, t: Firsts)
    requires Moves(orders, m, min, orders') && OwnedBy(orders, t, min)
    ensures OwnedBy(orders', FirstsAfter(t, Plain(orders), m), min)
    ensures Plain(orders') == Feed.Apply(Plain(orders), m)
  {
    match m
    case AddOrder(ref, side, shares, price) =>
      if shares > 0 {
        OwnedAdd(orders, t, min, ref, side, shares, price, orders'[ref]);
      }
    case OrderReplace(orig, ref, shares, price) =>
      if orig in orders && shares > 0 {
        OwnedReplace(orders, t, min, orig, ref, shares, price, orders'[ref]);
      }
    case OrderExecuted(ref, gone) => LosesOwned(orders, m, ref, gone, min, orders', t);
    case OrderCancel(ref, gone) => LosesOwned(orders, m, ref, gone, min, orders', t);
    case _ =>
      OwnedKept(orders, orders', t, FirstsAfter(t, Plain(orders), m), min);
  }
}
