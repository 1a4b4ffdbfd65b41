/** What one order entering, shrinking or leaving does to the two sides and the parked shares. */
module BandOps {
  import opened Types
  import opened BandTotals
  import opened BandState

  /** Shares the arrays cannot show, and a price range that covers them. */
  datatype Parked = Parked(shares: nat, lo: int, hi: int)

  const NOTHING_PARKED: Parked := Parked(0, NO_PRICE, NO_PRICE)

  function Park(p: Parked, price: int, shares: nat): Parked {
    Parked(p.shares + shares,
           if p.lo == NO_PRICE || price < p.lo then price else p.lo,
           if p.hi == NO_PRICE || price > p.hi then price else p.hi)
  }

  function Unpark(p: Parked, shares: nat): Parked {
    if shares >= p.shares then NOTHING_PARKED else p.(shares := p.shares - shares)
  }

  ghost predicate OrdersOk(orders: Orders) {
    forall ref :: ref in orders ==> orders[ref].shares > 0 && orders[ref].price >= 0
  }

  /** The parked range holds this price. */
  predicate Covers(p: Parked, price: int) {
    p.lo <= price <= p.hi
  }

  ghost predicate RangeOk(p: Parked, g: Grid, orders: Orders)
    requires g.tick > 0
  {
    && (p.shares == 0 <==> p.lo == NO_PRICE) && (p.shares == 0 <==> p.hi == NO_PRICE)
    && forall ref :: ref in orders && !orders[ref].own && !InBand(g, orders[ref].price) ==> Covers(p, orders[ref].price)
  }

  ghost predicate ParkedOk(p: Parked, g: Grid, orders: Orders)
    requires g.tick > 0
  {
    match p
    case Parked(shares, _, _) => shares == Total(orders, OffGrid(g)) && RangeOk(p, g, orders)
  }

  /** The band starts on a multiple of the tick. */
  ghost predicate OnTick(lo: int, tick: nat)
    requires tick > 0
  {
    forall k: nat {:trigger Look(BandSeal, k)} :: Look(BandSeal, k) ==> lo % tick == 0
  }

  ghost predicate GridOk(g: Grid) {
    match g
    case Grid(lo, _, tick) => tick > 0 && lo >= 0 && OnTick(lo, tick)
  }

  /** The banded view agrees with the plain map of orders. */
  ghost predicate BookOk(g: Grid, bid: Half, ask: Half, p: Parked, orders: Orders) {
    match p
    case Parked(_, _, _) => forall k: nat {:trigger Look(BandSeal, k)} :: Look(BandSeal, k) ==>
      GridOk(g) && HalfOk(bid, Buy, g, orders) && HalfOk(ask, Sell, g, orders) && ParkedOk(p, g, orders)
          && OrdersOk(orders)
  }

  lemma BookMeans(g: Grid, bid: Half, ask: Half, p: Parked, orders: Orders)
    requires BookOk(g, bid, ask, p, orders)
    ensures GridOk(g) && HalfOk(bid, Buy, g, orders) && HalfOk(ask, Sell, g, orders) && ParkedOk(p, g, orders)
            && OrdersOk(orders)
  {
    assert Look(BandSeal, 0);
  }

  lemma PriceOk(g: Grid, bid: Half, ask: Half, p: Parked, orders: Orders, ref: nat)
    requires BookOk(g, bid, ask, p, orders) && ref in orders
    ensures orders[ref].shares > 0 && orders[ref].price >= 0
  {
    BookMeans(g, bid, ask, p, orders);
  }

  /** Dropping `gone` shares of r turns orders into orders'. */
  ghost predicate Gone(orders: Orders, orders': Orders, r: Resting, gone: nat) {
    forall f {:trigger Total(orders', f)} {:trigger Total(orders, f)} ::
      Total(orders, f) == Total(orders', f) + if Matches(f, r) then gone else 0
  }

  lemma PutGone(orders: Orders, ref: nat, r: Resting)
    requires ref !in orders
    ensures Gone(orders[ref := r], orders, r, r.shares)
  {
    forall f ensures Total(orders[ref := r], f) == Total(orders, f) + if Matches(f, r) then r.shares else 0 {
      TotalPut(orders, ref, r, f);
    }
  }

  lemma RemoveGone(orders: Orders, ref: nat)
    requires ref in orders
    ensures Gone(orders, orders - {ref}, orders[ref], orders[ref].shares)
  {
    forall f ensures Total(orders, f) == Total(orders - {ref}, f) + if Matches(f, orders[ref]) then orders[ref].shares
        else 0 {
      TotalRemove(orders, ref, f);
    }
  }

  lemma ShrinkGone(orders: Orders, ref: nat, gone: nat)
    requires ref in orders && gone <= orders[ref].shares
    ensures var r := orders[ref]; Gone(orders, orders[ref := r.(shares := r.shares - gone)], r, gone)
  {
    var r := orders[ref];
    var r' := r.(shares := r.shares - gone);
    forall f ensures Total(orders, f) == Total(orders[ref := r'], f) + if Matches(f, r) then gone else 0 {
      TotalSet(orders, ref, r', f);
      assert Matches(f, r) == Matches(f, r');
    }
  }

  // ---- an order's shares entering

  /** Whether the order counts at a level of this side. */
  predicate Counts(g: Grid, side: Side, r: Resting)
    requires g.tick > 0
  {
    !r.own && r.side == side && InBand(g, r.price)
  }

  function PutHalf(h: Half, side: Side, g: Grid, r: Resting): Half
    requires g.tick > 0 && |h.size| == g.n
  {
    if Counts(g, side, r) then GridIndex(g, r.price); AddHalf(h, side, g, r.price, r.shares) else h
  }

  function PutParked(p: Parked, g: Grid, r: Resting): Parked
    requires g.tick > 0
  {
    if !r.own && !InBand(g, r.price) then Park(p, r.price, r.shares) else p
  }

  lemma PutHalfOk(h: Half, side: Side, g: Grid, orders: Orders, orders': Orders, r: Resting)
    requires GridOk(g) && HalfOk(h, side, g, orders) && Gone(orders', orders, r, r.shares) && r.shares > 0
    ensures HalfOk(PutHalf(h, side, g, r), side, g, orders')
  {
    if Counts(g, side, r) {
      assert Delta(orders, orders', side, r.price, r.shares);
      AddHalfOk(h, side, g, orders, orders', r.price, r.shares);
    } else {
      SameLevels(h, side, g, orders, orders', r, r.shares);
    }
  }

  /** A level the order does not count at keeps its total. */
  lemma SameLevels(h: Half, side: Side, g: Grid, orders: Orders, orders': Orders, r: Resting, gone: nat)
    requires g.tick > 0 && HalfOk(h, side, g, orders) && !Counts(g, side, r)
    requires Gone(orders', orders, r, gone) || Gone(orders, orders', r, gone)
    ensures HalfOk(h, side, g, orders')
  {
    forall i | 0 <= i < |h.size| ensures h.size[i] == Total(orders', Level(side, PriceAt(g, i))) {
      GridPrice(g, i);
      assert h.size[i] == Total(orders, Level(side, PriceAt(g, i)));
      assert !Matches(Level(side, PriceAt(g, i)), r);
    }
  }

  lemma PutParkedOk(p: Parked, g: Grid, orders: Orders, ref: nat, r: Resting)
    requires GridOk(g) && ParkedOk(p, g, orders) && OrdersOk(orders) && ref !in orders && r.shares > 0 && r.price >= 0
    ensures ParkedOk(PutParked(p, g, r), g, orders[ref := r])
  {
    TotalPut(orders, ref, r, OffGrid(g));
  }

  lemma PutBookOk(g: Grid, bid: Half, ask: Half, p: Parked, orders: Orders, ref: nat, r: Resting)
    requires BookOk(g, bid, ask, p, orders) && ref !in orders && r.shares > 0 && r.price >= 0
    ensures g.tick > 0 && |bid.size| == g.n && |ask.size| == g.n
    ensures BookOk(g, PutHalf(bid, Buy, g, r), PutHalf(ask, Sell, g, r), PutParked(p, g, r), orders[ref := r])
  {
    BookMeans(g, bid, ask, p, orders);
    PutGone(orders, ref, r);
    PutHalfOk(bid, Buy, g, orders, orders[ref := r], r);
    PutHalfOk(ask, Sell, g, orders, orders[ref := r], r);
    PutParkedOk(p, g, orders, ref, r);
  }

  // ---- an order's shares leaving

  function CutHalf(h: Half, side: Side, g: Grid, r: Resting, gone: nat): Half
    requires g.tick > 0 && |h.size| == g.n
  {
    if Counts(g, side, r) then GridIndex(g, r.price); TakeHalf(h, side, g, r.price, gone) else h
  }

  function CutParked(p: Parked, g: Grid, r: Resting, gone: nat): Parked
    requires g.tick > 0
  {
    if !r.own && !InBand(g, r.price) then Unpark(p, gone) else p
  }

  lemma CutHalfOk(h: Half, side: Side, g: Grid, orders: Orders, orders': Orders, r: Resting, gone: nat)
    requires GridOk(g) && HalfOk(h, side, g, orders) && Gone(orders, orders', r, gone)
    ensures HalfOk(CutHalf(h, side, g, r, gone), side, g, orders')
  {
    if Counts(g, side, r) {
      assert Delta(orders, orders', side, r.price, 0 - gone);
      TakeHalfOk(h, side, g, orders, orders', r.price, gone);
    } else {
      SameLevels(h, side, g, orders, orders', r, gone);
    }
  }

  /** Orders left behind keep their side and price, and each has shares. */
  ghost predicate Shrunk(orders: Orders, orders': Orders) {
    forall ref :: ref in orders' ==>
      && ref in orders && orders'[ref].shares > 0
      && orders'[ref].price == orders[ref].price && orders'[ref].own == orders[ref].own
  }

  lemma CutParkedOk(p: Parked, g: Grid, orders: Orders, orders': Orders, r: Resting, gone: nat)
    requires GridOk(g) && ParkedOk(p, g, orders) && Gone(orders, orders', r, gone) && Shrunk(orders, orders')
    ensures ParkedOk(CutParked(p, g, r, gone), g, orders')
  {
    assert Total(orders, OffGrid(g)) == Total(orders', OffGrid(g)) + if Matches(OffGrid(g), r) then gone else 0;
    var p' := CutParked(p, g, r, gone);
    if p'.shares == 0 {
      forall ref | ref in orders' ensures orders'[ref].own || InBand(g, orders'[ref].price) {
        TotalAtLeast(orders', ref, OffGrid(g));
      }
    }
  }

  lemma CutBookOk(g: Grid, bid: Half, ask: Half, p: Parked, orders: Orders, orders': Orders, r: Resting, gone: nat)
    requires BookOk(g, bid, ask, p, orders) && Gone(orders, orders', r, gone) && Shrunk(orders, orders')
    ensures g.tick > 0 && |bid.size| == g.n && |ask.size| == g.n
    ensures BookOk(g, CutHalf(bid, Buy, g, r, gone), CutHalf(ask, Sell, g, r, gone), CutParked(p, g, r, gone), orders')
  {
    BookMeans(g, bid, ask, p, orders);
    CutHalfOk(bid, Buy, g, orders, orders', r, gone);
    CutHalfOk(ask, Sell, g, orders, orders', r, gone);
    CutParkedOk(p, g, orders, orders', r, gone);
  }

  /** Orders after `gone` shares left order ref, which goes with its last share. */
  function Left(orders: Orders, ref: nat, gone: nat): Orders
    requires ref in orders && gone <= orders[ref].shares
  {
    var r := orders[ref];
    if gone == r.shares then orders - {ref} else orders[ref := r.(shares := r.shares - gone)]
  }

  lemma LeftBookOk(g: Grid, bid: Half, ask: Half, p: Parked, orders: Orders, ref: nat, gone: nat)
    requires BookOk(g, bid, ask, p, orders) && ref in orders && gone <= orders[ref].shares
    ensures g.tick > 0 && |bid.size| == g.n && |ask.size| == g.n
    ensures var r := orders[ref];
            BookOk(g, CutHalf(bid, Buy, g, r, gone), CutHalf(ask, Sell, g, r, gone), CutParked(p, g, r, gone),
                   Left(orders, ref, gone))
  {
    BookMeans(g, bid, ask, p, orders);
    if gone == orders[ref].shares {
      RemoveGone(orders, ref);
    } else {
      ShrinkGone(orders, ref, gone);
    }
    CutBookOk(g, bid, ask, p, orders, Left(orders, ref, gone), orders[ref], gone);
  }

  // ---- the top of the book

  /** Best price of a side and the size shown there. */
  datatype Edge = Edge(price: int, size: nat)

  function EdgeOf(h: Half, g: Grid): Edge
    requires g.tick > 0
  {
    Edge(h.best, if h.best != NO_PRICE && 0 <= Idx(g, h.best) < |h.size| then h.size[Idx(g, h.best)] else 0)
  }

  /** Joining the best level or improving on it. */
  predicate AtTop(h: Half, side: Side, price: int) {
    h.best == NO_PRICE || AtLeast(side, price, h.best)
  }

  lemma PutEdge(h: Half, side: Side, g: Grid, r: Resting)
    requires g.tick > 0 && |h.size| == g.n && BestOk(h, side, g) && !(Counts(g, side, r) && AtTop(h, side, r.price))
    ensures EdgeOf(PutHalf(h, side, g, r), g) == EdgeOf(h, g)
  {
    if Counts(g, side, r) {
      GridIndex(g, r.price);
      GridIndex(g, h.best);
    }
  }

  lemma CutEdge(h: Half, side: Side, g: Grid, r: Resting, gone: nat)
    requires g.tick > 0 && |h.size| == g.n && BestOk(h, side, g) && !(Counts(g, side, r) && r.price == h.best)
    ensures EdgeOf(CutHalf(h, side, g, r, gone), g) == EdgeOf(h, g)
  {
    if Counts(g, side, r) {
      GridIndex(g, r.price);
      if h.best != NO_PRICE {
        GridIndex(g, h.best);
      }
    }
  }

  /** Array lengths, bitmaps and best prices fit the grid. */
  ghost predicate Shaped(g: Grid, bid: Half, ask: Half) {
    match g
    case Grid(_, n, tick) =>
      && tick > 0 && |bid.size| == n && |ask.size| == n && BitsOk(bid.size, bid.bits) && BitsOk(ask.size, ask.bits)
      && BestOk(bid, Buy, g) && BestOk(ask, Sell, g)
  }

  lemma BookShaped(g: Grid, bid: Half, ask: Half, p: Parked, orders: Orders)
    requires BookOk(g, bid, ask, p, orders)
    ensures Shaped(g, bid, ask)
  {
    BookMeans(g, bid, ask, p, orders);
  }

  /** Unless the order joins or improves a best level, both edges stay. */
  lemma PutEdges(g: Grid, bid: Half, ask: Half, r: Resting)
    requires Shaped(g, bid, ask)
    ensures (Counts(g, Buy, r) && AtTop(bid, Buy, r.price)) || EdgeOf(PutHalf(bid, Buy, g, r), g) == EdgeOf(bid, g)
    ensures (Counts(g, Sell, r) && AtTop(ask, Sell, r.price)) || EdgeOf(PutHalf(ask, Sell, g, r), g) == EdgeOf(ask, g)
  {
    if !(Counts(g, Buy, r) && AtTop(bid, Buy, r.price)) {
      PutEdge(bid, Buy, g, r);
    }
    if !(Counts(g, Sell, r) && AtTop(ask, Sell, r.price)) {
      PutEdge(ask, Sell, g, r);
    }
  }

  /** Unless the order rests at a best level, both edges stay. */
  lemma CutEdges(g: Grid, bid: Half, ask: Half, r: Resting, gone: nat)
    requires Shaped(g, bid, ask)
    ensures (Counts(g, Buy, r) && r.price == bid.best) || EdgeOf(CutHalf(bid, Buy, g, r, gone), g) == EdgeOf(bid, g)
    ensures (Counts(g, Sell, r) && r.price == ask.best) || EdgeOf(CutHalf(ask, Sell, g, r, gone), g) == EdgeOf(ask, g)
  {
    if !(Counts(g, Buy, r) && r.price == bid.best) {
      CutEdge(bid, Buy, g, r, gone);
    }
    if !(Counts(g, Sell, r) && r.price == ask.best) {
      CutEdge(ask, Sell, g, r, gone);
    }
  }

  // ---- the view is determined by the orders

  /** The side a full rebuild from the orders must give. */
  ghost function Built(side: Side, g: Grid, orders: Orders): Half {
    var size := seq(g.n, i => Total(orders, Level(side, PriceAt(g, i))));
    var bits := set i: nat | i < g.n && size[i] != 0;
    var j := if side.Buy? then Prev(bits, g.n - 1) else Next(bits, 0, g.n);
    Half(size, bits, if j == -1 then NO_PRICE else PriceAt(g, j))
  }

  /** The invariant leaves no freedom: sizes, bitmap and best price are those of a rebuild. */
  lemma BuiltUnique(h: Half, side: Side, g: Grid, orders: Orders)
    requires GridOk(g) && HalfOk(h, side, g, orders)
    ensures h == Built(side, g, orders)
  {
    var b := Built(side, g, orders);
    assert h.size == b.size;
    assert h.bits == b.bits;
    var j := if side.Buy? then Prev(b.bits, g.n - 1) else Next(b.bits, 0, g.n);
    if j != -1 {
      GridPrice(g, j);
      if h.best != NO_PRICE {
        GridIndex(g, h.best);
      }
    }
  }

  /** Best price in the orders' own terms: the extreme price on the grid at which others rest. */
  lemma BestMeans(h: Half, side: Side, g: Grid, orders: Orders, ref: nat)
    requires GridOk(g) && HalfOk(h, side, g, orders) && OrdersOk(orders)
    requires ref in orders && Counts(g, side, orders[ref])
    ensures h.best != NO_PRICE && AtLeast(side, h.best, orders[ref].price)
  {
    var r := orders[ref];
    GridIndex(g, r.price);
    TotalAtLeast(orders, ref, Level(side, r.price));
    assert h.size[Idx(g, r.price)] == Total(orders, Level(side, PriceAt(g, Idx(g, r.price))));
    assert Idx(g, r.price) in h.bits;
    GridIndex(g, h.best);
    GridMono(g, Idx(g, r.price), Idx(g, h.best));
    GridMono(g, Idx(g, h.best), Idx(g, r.price));
  }

  /** A best price is some resting order's price. */
  lemma BestIsHeld(h: Half, side: Side, g: Grid, orders: Orders)
    requires GridOk(g) && HalfOk(h, side, g, orders) && h.best != NO_PRICE
    ensures exists ref :: ref in orders && Counts(g, side, orders[ref]) && orders[ref].price == h.best
  {
    var i := Idx(g, h.best);
    GridIndex(g, h.best);
    assert h.size[i] == Total(orders, Level(side, PriceAt(g, i)));
    if forall ref :: ref in orders ==> Weight(Level(side, h.best), orders[ref]) == 0 {
      TotalNone(orders, Level(side, h.best));
    } else {
      var ref :| ref in orders && Weight(Level(side, h.best), orders[ref]) != 0;
      assert Counts(g, side, orders[ref]);
    }
  }

  lemma BestExtreme(g: Grid, bid: Half, ask: Half, p: Parked, orders: Orders, side: Side)
    requires g.tick > 0 && BookOk(g, bid, ask, p, orders)
    ensures var best := if side.Buy? then bid.best else ask.best;
            && (forall ref :: ref in orders && Counts(g, side, orders[ref]) ==>
                  best != NO_PRICE && AtLeast(side, best, orders[ref].price))
            && (best != NO_PRICE ==>
                  exists ref :: ref in orders && Counts(g, side, orders[ref]) && orders[ref].price == best)
  {
    BookMeans(g, bid, ask, p, orders);
    var h := if side.Buy? then bid else ask;
    forall ref | ref in orders && Counts(g, side, orders[ref])
      ensures h.best != NO_PRICE && AtLeast(side, h.best, orders[ref].price) {
      BestMeans(h, side, g, orders, ref);
    }
    if h.best != NO_PRICE {
      BestIsHeld(h, side, g, orders);
    }
  }
}
