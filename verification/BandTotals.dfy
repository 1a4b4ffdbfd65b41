/** The price grid of the feed-driven book and the share totals its arrays must show. */
module BandTotals {
  import opened Types
  import opened Sums
  import opened Arith

  datatype Resting = Resting(price: int, shares: nat, side: Side, own: bool)

  type Orders = map<nat, Resting>

  /** The levels lo, lo + tick, ... (n of them). */
  datatype Grid = Grid(lo: int, n: nat, tick: nat)

  function PriceAt(g: Grid, i: int): int {
    g.lo + i * g.tick
  }

  function High(g: Grid): int {
    PriceAt(g, g.n - 1)
  }

  /** Inside the band and on its grid. */
  predicate InBand(g: Grid, p: int)
    requires g.tick > 0
  {
    g.lo <= p <= High(g) && (p - g.lo) % g.tick == 0
  }

  function Idx(g: Grid, p: int): int
    requires g.tick > 0
  {
    (p - g.lo) / g.tick
  }

  /** Level index and price determine each other. */
  lemma GridIndex(g: Grid, p: int)
    requires g.tick > 0 && InBand(g, p)
    ensures 0 <= Idx(g, p) < g.n && PriceAt(g, Idx(g, p)) == p
  {
    var d, t := p - g.lo, g.tick;
    assert d == t * (d / t) + d % t;
    if d / t >= g.n {
      MulLe(g.n, d / t, t);
    }
  }

  lemma GridPrice(g: Grid, i: int)
    requires g.tick > 0 && 0 <= i < g.n
    ensures InBand(g, PriceAt(g, i)) && Idx(g, PriceAt(g, i)) == i
  {
    MulLe(i, g.n - 1, g.tick);
    MulDivMod(i, g.tick);
  }

  /** Prices are strictly increasing along the grid. */
  lemma GridMono(g: Grid, i: int, j: int)
    requires g.tick > 0
    ensures i < j ==> PriceAt(g, i) < PriceAt(g, j)
    ensures PriceAt(g, i) == PriceAt(g, j) ==> i == j
  {
    if i < j {
      MulLe(i + 1, j, g.tick);
    } else if j < i {
      MulLe(j + 1, i, g.tick);
    }
  }

  // ---- totals over the resting orders

  datatype Filter =
    | Level(side: Side, price: int)
    | OffGrid(g: Grid)
    | Dropped(side: Side, g: Grid, upto: int, keepLo: int, keepHi: int)

  /** Own orders never count. */
  ghost predicate Matches(f: Filter, r: Resting) {
    && !r.own
    && match f
       case Level(side, price) => r.side == side && r.price == price
       case OffGrid(g) => g.tick > 0 && !InBand(g, r.price)
       case Dropped(side, g, upto, keepLo, keepHi) =>
         && r.side == side && g.tick > 0 && InBand(g, r.price)
         && Idx(g, r.price) < upto && !(keepLo <= Idx(g, r.price) < keepHi)
  }

  ghost function Weight(f: Filter, r: Resting): nat {
    if Matches(f, r) then r.shares else 0
  }

  ghost function Weights(orders: Orders, f: Filter): map<nat, nat> {
    map ref | ref in orders :: Weight(f, orders[ref])
  }

  /** Shares of the orders that match. */
  ghost function Total(orders: Orders, f: Filter): nat {
    SumOver(orders.Keys, Weights(orders, f))
  }

  lemma TotalEmpty(f: Filter)
    ensures Total(map[], f) == 0
  {
  }

  lemma TotalRemove(orders: Orders, ref: nat, f: Filter)
    requires ref in orders
    ensures Total(orders, f) == Total(orders - {ref}, f) + Weight(f, orders[ref])
  {
    var rest := orders - {ref};
    SumTake(orders.Keys, Weights(orders, f), ref);
    assert rest.Keys == orders.Keys - {ref};
    SumSame(rest.Keys, Weights(orders, f), Weights(rest, f));
  }

  lemma TotalPut(orders: Orders, ref: nat, r: Resting, f: Filter)
    requires ref !in orders
    ensures Total(orders[ref := r], f) == Total(orders, f) + Weight(f, r)
  {
    TotalRemove(orders[ref := r], ref, f);
    assert orders[ref := r] - {ref} == orders;
  }

  lemma TotalSet(orders: Orders, ref: nat, r: Resting, f: Filter)
    requires ref in orders
    ensures Total(orders[ref := r], f) + Weight(f, orders[ref]) == Total(orders, f) + Weight(f, r)
  {
    TotalRemove(orders[ref := r], ref, f);
    TotalRemove(orders, ref, f);
    assert orders[ref := r] - {ref} == orders - {ref};
  }

  /** A matching order's shares are part of the total. */
  lemma TotalAtLeast(orders: Orders, ref: nat, f: Filter)
    requires ref in orders
    ensures Weight(f, orders[ref]) <= Total(orders, f)
  {
    TotalRemove(orders, ref, f);
  }

  /** Where every order counts in exactly one of two ways, the totals add up. */
  lemma {:induction false} TotalSplit(orders: Orders, f: Filter, a: Filter, b: Filter)
    requires forall ref :: ref in orders ==> Weight(f, orders[ref]) == Weight(a, orders[ref]) + Weight(b, orders[ref])
    ensures Total(orders, f) == Total(orders, a) + Total(orders, b)
    decreases |orders|
  {
    if orders != map[] {
      var ref :| ref in orders;
      TotalRemove(orders, ref, f);
      TotalRemove(orders, ref, a);
      TotalRemove(orders, ref, b);
      Smaller(orders, ref);
      TotalSplit(orders - {ref}, f, a, b);
    }
  }

  lemma Smaller(orders: Orders, ref: nat)
    requires ref in orders
    ensures |orders - {ref}| < |orders|
  {
    assert (orders - {ref}).Keys == orders.Keys - {ref};
  }

  lemma {:induction false} TotalNone(orders: Orders, f: Filter)
    requires forall ref :: ref in orders ==> Weight(f, orders[ref]) == 0
    ensures Total(orders, f) == 0
    decreases |orders|
  {
    if orders != map[] {
      var ref :| ref in orders;
      TotalRemove(orders, ref, f);
      Smaller(orders, ref);
      TotalNone(orders - {ref}, f);
    }
  }

  lemma {:induction false} TotalSame(orders: Orders, f: Filter, g: Filter)
    requires forall ref :: ref in orders ==> Weight(f, orders[ref]) == Weight(g, orders[ref])
    ensures Total(orders, f) == Total(orders, g)
    decreases |orders|
  {
    if orders != map[] {
      var ref :| ref in orders;
      TotalRemove(orders, ref, f);
      TotalRemove(orders, ref, g);
      Smaller(orders, ref);
      TotalSame(orders - {ref}, f, g);
    }
  }
}
