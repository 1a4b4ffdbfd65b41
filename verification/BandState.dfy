/** One side of the banded book: level sizes, their bitmap and the tracked best price. */
module BandState {
  import opened Types
  import opened BandTotals

  /** Greatest member at or below i, or -1: what the level bitmap's `prev` answers. */
  function Prev(bits: set<nat>, i: int): (r: int)
    ensures r == -1 ==> forall j :: j in bits ==> j > i
    ensures r != -1 ==> 0 <= r <= i && r in bits && forall j :: j in bits && j <= i ==> j <= r
    decreases i + 1
  {
    if i < 0 then -1 else if i in bits then i else Prev(bits, i - 1)
  }

  /** Least member at or above i and below n, or -1: what the level bitmap's `next` answers. */
  function Next(bits: set<nat>, i: nat, n: nat): (r: int)
    ensures r == -1 ==> forall j :: j in bits && j >= i ==> j >= n
    ensures r != -1 ==> i <= r < n && r in bits && forall j :: j in bits && j >= i ==> j >= r
    decreases n - i
  {
    if i >= n then -1 else if i in bits then i else Next(bits, i + 1, n)
  }

  /** Every member is below n. */
  ghost predicate Within(bits: set<nat>, n: nat) {
    forall j :: j in bits ==> j < n
  }

  /** Any bound that contains the members gives the same answer. */
  lemma NextAnyBound(bits: set<nat>, i: nat, n: nat, m: nat)
    requires Within(bits, n) && Within(bits, m)
    ensures Next(bits, i, n) == Next(bits, i, m)
  {
  }

  datatype Half = Half(size: seq<nat>, bits: set<nat>, best: int)

  function EmptyHalf(n: nat): Half {
    Half(seq(n, _ => 0), {}, NO_PRICE)
  }

  /** At least as good a price for this side. */
  predicate AtLeast(side: Side, p: int, q: int) {
    if side.Buy? then p >= q else p <= q
  }

  ghost predicate BitsOk(size: seq<nat>, bits: set<nat>) {
    && (forall i :: i in bits ==> i < |size| && size[i] != 0)
    && (forall i :: 0 <= i < |size| && size[i] != 0 ==> i in bits)
  }

  /** The tracked best is the extreme non-empty level. */
  ghost predicate BestOk(h: Half, side: Side, g: Grid)
    requires g.tick > 0
  {
    if h.best == NO_PRICE then h.bits == {}
    else InBand(g, h.best) && Idx(g, h.best) in h.bits && forall j :: j in h.bits ==> AtLeast(side, Idx(g, h.best), j)
  }

  /** Every level shows exactly the shares of the others' orders resting there. */
  ghost predicate LevelsOk(size: seq<nat>, side: Side, g: Grid, orders: Orders) {
    && |size| == g.n
    && forall i :: 0 <= i < |size| ==> size[i] == Total(orders, Level(side, PriceAt(g, i)))
  }

  ghost predicate HalfOk(h: Half, side: Side, g: Grid, orders: Orders)
    requires g.tick > 0
  {
    match h
    case Half(size, bits, _) => LevelsOk(size, side, g, orders) && BitsOk(size, bits) && BestOk(h, side, g)
  }

  /** Going from orders to orders' the total at (side, price) changes by delta and no other level does. */
  ghost predicate Delta(orders: Orders, orders': Orders, side: Side, price: int, delta: int) {
    forall p :: Total(orders', Level(side, p)) == Total(orders, Level(side, p)) + (if p == price then delta else 0)
  }

  // ---- adding shares

  function AddHalf(h: Half, side: Side, g: Grid, price: int, shares: nat): Half
    requires g.tick > 0 && 0 <= Idx(g, price) < |h.size|
  {
    var i := Idx(g, price);
    Half(h.size[i := h.size[i] + shares], h.bits + {i}, if h.best == NO_PRICE
         || AtLeast(side, price, h.best) then price else h.best)
  }

  lemma AddLevels(size: seq<nat>, side: Side, g: Grid, orders: Orders, orders': Orders, price: int, delta: int)
    requires g.tick > 0 && LevelsOk(size, side, g, orders) && InBand(g, price)
             && Delta(orders, orders', side, price, delta)
    requires 0 <= Idx(g, price) < g.n && size[Idx(g, price)] + delta >= 0
    ensures LevelsOk(size[Idx(g, price) := size[Idx(g, price)] + delta], side, g, orders')
  {
    var i := Idx(g, price);
    GridIndex(g, price);
    var size' := size[i := size[i] + delta];
    forall j | 0 <= j < |size'| ensures size'[j] == Total(orders', Level(side, PriceAt(g, j))) {
      GridMono(g, i, j);
    }
  }

  lemma AddHalfOk(h: Half, side: Side, g: Grid, orders: Orders, orders': Orders, price: int, shares: nat)
    requires g.tick > 0 && g.lo > NO_PRICE && HalfOk(h, side, g, orders) && InBand(g, price) && shares > 0
    requires Delta(orders, orders', side, price, shares)
    ensures 0 <= Idx(g, price) < |h.size| && HalfOk(AddHalf(h, side, g, price, shares), side, g, orders')
  {
    GridIndex(g, price);
    AddLevels(h.size, side, g, orders, orders', price, shares);
    AddBits(h.size, h.bits, Idx(g, price), shares);
    AddBest(h, AddHalf(h, side, g, price, shares), side, g, price);
  }

  lemma AddBits(size: seq<nat>, bits: set<nat>, i: nat, shares: nat)
    requires BitsOk(size, bits) && i < |size| && shares > 0
    ensures BitsOk(size[i := size[i] + shares], bits + {i})
  {
  }

  lemma AddBest(h: Half, h': Half, side: Side, g: Grid, price: int)
    requires g.tick > 0 && g.lo > NO_PRICE && BestOk(h, side, g) && InBand(g, price)
    requires 0 <= Idx(g, price) < g.n && h'.bits == h.bits + {Idx(g, price)}
    requires h'.best == if h.best == NO_PRICE || AtLeast(side, price, h.best) then price else h.best
    ensures BestOk(h', side, g)
  {
    if h.best != NO_PRICE {
      GridIndex(g, price);
      GridIndex(g, h.best);
      GridMono(g, Idx(g, price), Idx(g, h.best));
      GridMono(g, Idx(g, h.best), Idx(g, price));
    }
  }

  // ---- removing shares

  /** The next best level once the best one emptied. */
  function Rescan(bits: set<nat>, side: Side, g: Grid, best: int): int
    requires g.tick > 0 && InBand(g, best)
  {
    GridIndex(g, best);
    var j := if side.Buy? then Prev(bits, Idx(g, best)) else Next(bits, Idx(g, best), g.n);
    if j == -1 then NO_PRICE else PriceAt(g, j)
  }

  function TakeHalf(h: Half, side: Side, g: Grid, price: int, shares: nat): Half
    requires g.tick > 0 && 0 <= Idx(g, price) < |h.size| && InBand(g, price)
  {
    var i := Idx(g, price);
    var left := if shares >= h.size[i] then 0 else h.size[i] - shares;
    var bits := if left == 0 then h.bits - {i} else h.bits;
    Half(h.size[i := left], bits, if left == 0 && price == h.best then Rescan(bits, side, g, price) else h.best)
  }

  lemma TakeHalfOk(h: Half, side: Side, g: Grid, orders: Orders, orders': Orders, price: int, shares: nat)
    requires g.tick > 0 && g.lo > NO_PRICE && HalfOk(h, side, g, orders) && InBand(g, price)
    requires Delta(orders, orders', side, price, 0 - shares)
    ensures 0 <= Idx(g, price) < |h.size| && HalfOk(TakeHalf(h, side, g, price, shares), side, g, orders')
  {
    GridIndex(g, price);
    var i := Idx(g, price);
    assert h.size[i] == Total(orders, Level(side, PriceAt(g, i)));
    assert h.size[i] - shares == Total(orders', Level(side, price));
    AddLevels(h.size, side, g, orders, orders', price, 0 - shares);
    TakeBest(h, side, g, price, shares);
  }

  lemma TakeBest(h: Half, side: Side, g: Grid, price: int, shares: nat)
    requires g.tick > 0 && g.lo > NO_PRICE && BitsOk(h.size, h.bits) && BestOk(h, side, g) && InBand(g, price)
    requires |h.size| == g.n && 0 <= Idx(g, price) < g.n && h.size[Idx(g, price)] >= shares
    ensures var h' := TakeHalf(h, side, g, price, shares); BitsOk(h'.size, h'.bits) && BestOk(h', side, g)
  {
    var h' := TakeHalf(h, side, g, price, shares);
    if h'.size[Idx(g, price)] == 0 {
      if price == h.best {
        RescanBest(h'.bits, side, g, price, h');
      } else if h.best != NO_PRICE {
        GridIndex(g, price);
        GridIndex(g, h.best);
      }
    }
  }

  lemma RescanBest(bits: set<nat>, side: Side, g: Grid, best: int, h': Half)
    requires g.tick > 0 && g.lo > NO_PRICE && InBand(g, best)
             && (forall j :: j in bits ==> j < g.n && AtLeast(side, Idx(g, best), j))
    requires h'.bits == bits && h'.best == Rescan(bits, side, g, best)
    ensures BestOk(h', side, g)
  {
    GridIndex(g, best);
    var j := if side.Buy? then Prev(bits, Idx(g, best)) else Next(bits, Idx(g, best), g.n);
    if j != -1 {
      GridPrice(g, j);
    }
  }
}
