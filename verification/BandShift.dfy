/** Moving the level arrays to a new band in place. */
module BandShift {
  import opened Types
  import opened Arith
  import opened BandTotals
  import opened BandState
  import opened BandOps

  /** How many levels the new band starts above the old one. */
  function Offset(g: Grid, g': Grid): int
    requires g.tick > 0
  {
    Idx(g, g'.lo)
  }

  /** Both bands lie on one tick grid. */
  ghost predicate Aligned(g: Grid, g': Grid) {
    GridOk(g) && GridOk(g') && g.tick == g'.tick && g.n > 0 && g'.n > 0
  }

  lemma AlignedLo(g: Grid)
    requires GridOk(g)
    ensures g.lo == (g.lo / g.tick) * g.tick
  {
    assert Look(BandSeal, 0);
    assert g.lo == g.tick * (g.lo / g.tick) + g.lo % g.tick;
  }

  lemma OffsetPrice(g: Grid, g': Grid, j: int)
    requires Aligned(g, g')
    ensures PriceAt(g', j) == PriceAt(g, j + Offset(g, g'))
  {
    AlignedLo(g);
    AlignedLo(g');
    var a, b, t := g.lo / g.tick, g'.lo / g.tick, g.tick;
    assert g'.lo - g.lo == (b - a) * t;
    MulDivMod(b - a, t);
    assert (j + (b - a)) * t == j * t + (b - a) * t;
  }

  /** First surviving old level, its new index, and how many survive. */
  datatype Cut = Cut(from: nat, to: nat, len: nat)

  function Survivors(g: Grid, g': Grid): Cut
    requires g.tick > 0
  {
    var lo := if g.lo >= g'.lo then g.lo else g'.lo;
    var hi := if High(g) <= High(g') then High(g) else High(g');
    if lo <= hi then
      MulLe(0, 1, g.tick);
      Nonneg(lo - g.lo, g.tick);
      Nonneg(lo - g'.lo, g.tick);
      Nonneg(hi - lo, g.tick);
      Cut((lo - g.lo) / g.tick, (lo - g'.lo) / g.tick, (hi - lo) / g.tick + 1)
    else Cut(0, 0, 0)
  }

  lemma Nonneg(x: int, t: nat)
    requires x >= 0 && t > 0
    ensures x / t >= 0
  {
  }

  /** In level counts: old indices [from, from + len) are those the new band also has. */
  lemma SurvivorsExact(g: Grid, g': Grid)
    requires Aligned(g, g')
    ensures var c, k := Survivors(g, g'), Offset(g, g');
            && (c.len > 0 ==> c.from == c.to + k && c.from + c.len <= g.n && c.to + c.len <= g'.n)
            && forall i {:trigger Kept(c, i)} :: Kept(c, i) <==> 0 <= i < g.n && 0 <= i - k < g'.n
  {
    var c, k, t := Survivors(g, g'), Offset(g, g'), g.tick;
    var a := if k <= 0 then 0 else k;
    var b := if g.n - 1 <= g'.n - 1 + k then g.n - 1 else g'.n - 1 + k;
    OffsetPrice(g, g', 0);
    OffsetPrice(g, g', g'.n - 1);
    GridMono(g, 0, k);
    GridMono(g, k, 0);
    GridMono(g, g.n - 1, g'.n - 1 + k);
    GridMono(g, g'.n - 1 + k, g.n - 1);
    var lo := if g.lo >= g'.lo then g.lo else g'.lo;
    var hi := if High(g) <= High(g') then High(g) else High(g');
    assert lo == PriceAt(g, a) && hi == PriceAt(g, b);
    GridMono(g, a, b);
    GridMono(g, b, a);
    assert lo <= hi <==> a <= b;
    if a <= b {
      assert lo - g.lo == a * t;
      MulDivMod(a, t);
      Difference(a, k, t);
      assert lo - g'.lo == (a - k) * t;
      MulDivMod(a - k, t);
      Difference(b, a, t);
      assert hi - lo == (b - a) * t;
      MulDivMod(b - a, t);
      assert c == Cut(a, a - k, b - a + 1);
    }
  }

  lemma Difference(a: int, b: int, t: int)
    ensures a * t - b * t == (a - b) * t
  {
  }

  predicate Kept(c: Cut, i: int) {
    c.from <= i < c.from + c.len
  }

  /** memmove and fill, as sequence surgery. */
  function Moved(levels: seq<nat>, c: Cut, n: nat): (r: seq<nat>)
    requires c.from + c.len <= |levels| && c.to + c.len <= n
    ensures |r| == n
    ensures forall j :: 0 <= j < n ==> r[j] == if c.to <= j < c.to + c.len then levels[j - c.to + c.from] else 0
  {
    seq(c.to, _ => 0) + levels[c.from..c.from + c.len] + seq(n - c.to - c.len, _ => 0)
  }

  // ---- the shifted levels are the rebuilt ones

  /** No order outside the old band would fall inside the new one. */
  ghost predicate NoneEnter(g: Grid, g': Grid, orders: Orders)
    requires g.tick > 0 && g'.tick > 0
  {
    forall ref :: ref in orders && !orders[ref].own && !InBand(g, orders[ref].price) ==> !InBand(g', orders[ref].price)
  }

  /** A parked range clear of the new band lets nothing in. */
  lemma ClearRange(p: Parked, g: Grid, g': Grid, orders: Orders)
    requires GridOk(g) && GridOk(g') && ParkedOk(p, g, orders) && OrdersOk(orders)
    requires p.shares == 0 || High(g') < p.lo || g'.lo > p.hi
    ensures NoneEnter(g, g', orders)
  {
    forall ref | ref in orders && !orders[ref].own && !InBand(g, orders[ref].price)
      ensures !InBand(g', orders[ref].price)
    {
      assert Covers(p, orders[ref].price);
    }
  }

  lemma ShiftedLevels(levels: seq<nat>, side: Side, g: Grid, g': Grid, orders: Orders)
    requires Aligned(g, g') && LevelsOk(levels, side, g, orders) && NoneEnter(g, g', orders)
    ensures var c := Survivors(g, g');
            c.from + c.len <= |levels| && c.to + c.len <= g'.n && LevelsOk(Moved(levels, c, g'.n), side, g', orders)
  {
    var c, k := Survivors(g, g'), Offset(g, g');
    SurvivorsExact(g, g');
    var out := Moved(levels, c, g'.n);
    forall j | 0 <= j < g'.n ensures out[j] == Total(orders, Level(side, PriceAt(g', j))) {
      OffsetPrice(g, g', j);
      if Kept(c, j + k) {
        assert out[j] == levels[j + k];
      } else {
        EmptyLevel(side, g, g', orders, j);
      }
    }
  }

  /** A level only the new band has is empty. */
  lemma EmptyLevel(side: Side, g: Grid, g': Grid, orders: Orders, j: nat)
    requires Aligned(g, g') && NoneEnter(g, g', orders) && j < g'.n && !(0 <= j + Offset(g, g') < g.n)
    ensures Total(orders, Level(side, PriceAt(g', j))) == 0
  {
    var p := PriceAt(g', j);
    GridPrice(g', j);
    OffsetPrice(g, g', j);
    if InBand(g, p) {
      GridIndex(g, p);
      GridMono(g, Idx(g, p), j + Offset(g, g'));
    }
    TotalNone(orders, Level(side, p));
  }

  // ---- the shifted-out shares are parked

  function DropFilter(side: Side, g: Grid, upto: int, c: Cut): Filter {
    Dropped(side, g, upto, c.from, c.from + c.len)
  }

  lemma DropNone(side: Side, g: Grid, c: Cut, orders: Orders)
    requires g.tick > 0
    ensures Total(orders, DropFilter(side, g, 0, c)) == 0
  {
    forall ref | ref in orders ensures Weight(DropFilter(side, g, 0, c), orders[ref]) == 0 {
      if InBand(g, orders[ref].price) {
        GridIndex(g, orders[ref].price);
      }
    }
    TotalNone(orders, DropFilter(side, g, 0, c));
  }

  /** One more old level scanned. */
  lemma DropStep(side: Side, g: Grid, c: Cut, orders: Orders, i: nat)
    requires g.tick > 0 && i < g.n
    ensures Total(orders, DropFilter(side, g, i + 1, c))
         == Total(orders, DropFilter(side, g, i, c)) + if Kept(c, i) then 0
             else Total(orders, Level(side, PriceAt(g, i)))
  {
    var f, f' := DropFilter(side, g, i, c), DropFilter(side, g, i + 1, c);
    GridPrice(g, i);
    forall ref | ref in orders
      ensures Weight(f', orders[ref]) == Weight(f, orders[ref]) + if Kept(c, i) then 0
              else Weight(Level(side, PriceAt(g, i)), orders[ref])
    {
      if InBand(g, orders[ref].price) {
        GridIndex(g, orders[ref].price);
      }
    }
    if Kept(c, i) {
      TotalSame(orders, f', f);
    } else {
      TotalSplit(orders, f', f, Level(side, PriceAt(g, i)));
    }
  }

  /** Total of the levels scanned so far that do not survive. */
  ghost function DroppedSum(levels: seq<nat>, c: Cut, i: nat): nat
    requires i <= |levels|
  {
    if i == 0 then 0 else DroppedSum(levels, c, i - 1) + if Kept(c, i - 1) then 0 else levels[i - 1]
  }

  lemma {:induction false} DroppedSumTotal(levels: seq<nat>, side: Side, g: Grid, c: Cut, orders: Orders, i: nat)
    requires g.tick > 0 && LevelsOk(levels, side, g, orders) && i <= |levels|
    ensures DroppedSum(levels, c, i) == Total(orders, DropFilter(side, g, i, c))
  {
    if i == 0 {
      DropNone(side, g, c, orders);
    } else {
      DroppedSumTotal(levels, side, g, c, orders, i - 1);
      DropStep(side, g, c, orders, i - 1);
    }
  }

  /** What is off the new grid was off the old one or was shifted out of it. */
  lemma {:induction false} OffGridSplit(g: Grid, g': Grid, orders: Orders, c: Cut)
    requires Aligned(g, g') && NoneEnter(g, g', orders) && c == Survivors(g, g')
    ensures Total(orders, OffGrid(g'))
         == Total(orders, OffGrid(g)) + Total(orders, DropFilter(Buy, g, g.n, c))
             + Total(orders, DropFilter(Sell, g, g.n, c))
    decreases |orders|
  {
    if orders == map[] {
    } else {
      var ref :| ref in orders;
      var b, s := DropFilter(Buy, g, g.n, c), DropFilter(Sell, g, g.n, c);
      OffGridWeight(g, g', orders[ref], c);
      TotalRemove(orders, ref, OffGrid(g'));
      TotalRemove(orders, ref, OffGrid(g));
      TotalRemove(orders, ref, b);
      TotalRemove(orders, ref, s);
      Smaller(orders, ref);
      OffGridSplit(g, g', orders - {ref}, c);
    }
  }

  lemma OffGridWeight(g: Grid, g': Grid, r: Resting, c: Cut)
    requires Aligned(g, g') && c == Survivors(g, g') && (!r.own && !InBand(g, r.price) ==> !InBand(g', r.price))
    ensures Weight(OffGrid(g'), r)
         == Weight(OffGrid(g), r) + Weight(DropFilter(Buy, g, g.n, c), r) + Weight(DropFilter(Sell, g, g.n, c), r)
  {
    if !r.own && InBand(g, r.price) {
      SurvivorInBand(g, g', r.price, c);
    }
  }

  /** An old level survives exactly when its price is in the new band. */
  lemma SurvivorInBand(g: Grid, g': Grid, p: int, c: Cut)
    requires Aligned(g, g') && c == Survivors(g, g') && InBand(g, p)
    ensures 0 <= Idx(g, p) < g.n
    ensures Kept(c, Idx(g, p)) <==> InBand(g', p)
  {
    var i, k := Idx(g, p), Offset(g, g');
    GridIndex(g, p);
    SurvivorsExact(g, g');
    OffsetPrice(g, g', i - k);
    if 0 <= i - k < g'.n {
      GridPrice(g', i - k);
    } else if InBand(g', p) {
      GridIndex(g', p);
      GridMono(g', Idx(g', p), i - k);
    }
  }

  // ---- the parked range

  /** The range covers every price whose level was scanned and dropped while holding shares. */
  ghost predicate CoversDropped(p: Parked, levels: seq<nat>, g: Grid, c: Cut, i: nat)
    requires i <= |levels|
  {
    forall j :: 0 <= j < i && !Kept(c, j) && levels[j] != 0 ==> Covers(p, PriceAt(g, j))
  }

  /** Ranges only widen. */
  ghost predicate Widens(p: Parked, p': Parked) {
    && p'.shares >= p.shares
    && forall price :: price >= 0 && Covers(p, price) ==> Covers(p', price)
  }

  predicate RangeShape(p: Parked) {
    (p.shares == 0 <==> p.lo == NO_PRICE) && (p.shares == 0 <==> p.hi == NO_PRICE)
  }

  lemma ParkWidens(p: Parked, price: int, shares: nat)
    requires RangeShape(p) && price >= 0 && shares > 0
    ensures var p' := Park(p, price, shares); RangeShape(p') && Covers(p', price) && Widens(p, p')
  {
  }

  /** After both sides were shifted the parked account is that of the new band. */
  lemma ShiftedParked(p0: Parked, p: Parked, bids: seq<nat>, asks: seq<nat>, g: Grid, g': Grid, orders: Orders)
    requires Aligned(g, g') && NoneEnter(g, g', orders) && OrdersOk(orders) && ParkedOk(p0, g, orders)
    requires LevelsOk(bids, Buy, g, orders) && LevelsOk(asks, Sell, g, orders)
    requires RangeShape(p) && Widens(p0, p)
    requires var c := Survivors(g, g'); CoversDropped(p, bids, g, c, g.n) && CoversDropped(p, asks, g, c, g.n)
    requires var c := Survivors(g, g'); p.shares == p0.shares + DroppedSum(bids, c, g.n) + DroppedSum(asks, c, g.n)
    ensures ParkedOk(p, g', orders)
  {
    ShiftedShares(bids, asks, g, g', orders);
    forall ref | ref in orders && !orders[ref].own && !InBand(g', orders[ref].price)
      ensures Covers(p, orders[ref].price)
    {
      StillCovered(p0, p, bids, asks, g, g', orders, ref);
    }
  }

  lemma ShiftedShares(bids: seq<nat>, asks: seq<nat>, g: Grid, g': Grid, orders: Orders)
    requires Aligned(g, g') && NoneEnter(g, g', orders)
    requires LevelsOk(bids, Buy, g, orders) && LevelsOk(asks, Sell, g, orders)
    ensures var c := Survivors(g, g');
            Total(orders, OffGrid(g')) == Total(orders, OffGrid(g)) + DroppedSum(bids, c, g.n)
                + DroppedSum(asks, c, g.n)
  {
    var c := Survivors(g, g');
    DroppedSumTotal(bids, Buy, g, c, orders, g.n);
    DroppedSumTotal(asks, Sell, g, c, orders, g.n);
    OffGridSplit(g, g', orders, c);
  }

  lemma StillCovered(p0: Parked, p: Parked, bids: seq<nat>, asks: seq<nat>, g: Grid, g': Grid, orders: Orders, ref: nat)
    requires Aligned(g, g') && OrdersOk(orders) && RangeOk(p0, g, orders) && Widens(p0, p)
    requires LevelsOk(bids, Buy, g, orders) && LevelsOk(asks, Sell, g, orders)
    requires var c := Survivors(g, g'); CoversDropped(p, bids, g, c, g.n) && CoversDropped(p, asks, g, c, g.n)
    requires ref in orders && !orders[ref].own && !InBand(g', orders[ref].price)
    ensures Covers(p, orders[ref].price)
  {
    if InBand(g, orders[ref].price) {
      if orders[ref].side.Buy? {
        DroppedCovered(p, bids, g, g', orders, ref);
      } else {
        DroppedCovered(p, asks, g, g', orders, ref);
      }
    }
  }

  lemma DroppedCovered(p: Parked, levels: seq<nat>, g: Grid, g': Grid, orders: Orders, ref: nat)
    requires Aligned(g, g') && OrdersOk(orders) && ref in orders && LevelsOk(levels, orders[ref].side, g, orders)
    requires !orders[ref].own && InBand(g, orders[ref].price) && !InBand(g', orders[ref].price)
    requires CoversDropped(p, levels, g, Survivors(g, g'), g.n)
    ensures Covers(p, orders[ref].price)
  {
    var r := orders[ref];
    var i := Idx(g, r.price);
    SurvivorInBand(g, g', r.price, Survivors(g, g'));
    GridIndex(g, r.price);
    TotalAtLeast(orders, ref, Level(r.side, r.price));
    assert levels[i] == Total(orders, Level(r.side, PriceAt(g, i)));
  }

  // ---- the best price after a shift

  /** What the best price becomes: kept while its level still shows shares, else searched for. */
  function Refound(best: int, size: seq<nat>, bits: set<nat>, side: Side, g: Grid): int
    requires g.tick > 0 && |size| == g.n
  {
    if best == NO_PRICE || !InBand(g, best) || (GridIndex(g, best); size[Idx(g, best)] == 0) then
      var j := if side.Buy? then Prev(bits, g.n - 1) else Next(bits, 0, g.n);
      if j == -1 then NO_PRICE else PriceAt(g, j)
    else best
  }

  lemma RefoundBest(h: Half, h': Half, side: Side, g: Grid, g': Grid, orders: Orders)
    requires Aligned(g, g') && NoneEnter(g, g', orders) && OrdersOk(orders)
    requires HalfOk(h, side, g, orders) && LevelsOk(h'.size, side, g', orders) && BitsOk(h'.size, h'.bits)
    requires h'.best == Refound(h.best, h'.size, h'.bits, side, g')
    ensures HalfOk(h', side, g', orders)
  {
    if h.best == NO_PRICE || !InBand(g', h.best) || (GridIndex(g', h.best); h'.size[Idx(g', h.best)] == 0) {
      var j := if side.Buy? then Prev(h'.bits, g'.n - 1) else Next(h'.bits, 0, g'.n);
      if j != -1 {
        GridPrice(g', j);
      }
    } else {
      GridIndex(g', h.best);
      forall j | j in h'.bits ensures AtLeast(side, Idx(g', h.best), j) {
        StillBest(h, side, g, g', orders, h'.size, j);
      }
    }
  }

  lemma StillBest(h: Half, side: Side, g: Grid, g': Grid, orders: Orders, size: seq<nat>, j: nat)
    requires Aligned(g, g') && NoneEnter(g, g', orders) && OrdersOk(orders)
    requires HalfOk(h, side, g, orders) && LevelsOk(size, side, g', orders)
    requires InBand(g', h.best) && j < |size| && size[j] != 0
    ensures AtLeast(side, Idx(g', h.best), j)
  {
    var p := PriceAt(g', j);
    GridPrice(g', j);
    GridIndex(g', h.best);
    if forall ref :: ref in orders ==> Weight(Level(side, p), orders[ref]) == 0 {
      TotalNone(orders, Level(side, p));
    } else {
      var ref :| ref in orders && Weight(Level(side, p), orders[ref]) != 0;
      BestMeans(h, side, g, orders, ref);
      GridMono(g', Idx(g', h.best), j);
      GridMono(g', j, Idx(g', h.best));
    }
  }

  lemma KeepCovered(p: Parked, p': Parked, levels: seq<nat>, g: Grid, c: Cut)
    requires GridOk(g) && |levels| == g.n && Widens(p, p') && CoversDropped(p, levels, g, c, g.n)
    ensures CoversDropped(p', levels, g, c, g.n)
  {
    forall j | 0 <= j < g.n && !Kept(c, j) && levels[j] != 0 ensures Covers(p', PriceAt(g, j)) {
      MulLe(0, j, g.tick);
      assert Covers(p, PriceAt(g, j));
    }
  }

  /** Empty arrays agree with no orders. */
  lemma EmptyBook(g: Grid, bid: Half, ask: Half, p: Parked)
    requires GridOk(g) && bid == EmptyHalf(g.n) && ask == EmptyHalf(g.n) && p == NOTHING_PARKED
    ensures BookOk(g, bid, ask, p, map[])
  {
    forall f ensures Total(map[], f) == 0 {
      TotalEmpty(f);
    }
  }

  // ---- choosing the new band

  /** The band centred on a price: the grid below it, at least `band` ticks to either side. */
  function BandAround(price: int, tick: nat, band: nat): (g: Grid)
    requires price >= 0 && tick > 0 && band >= 1
    ensures GridOk(g) && g.n == 2 * band + 1 && g.tick == tick && g.lo <= price <= High(g)
  {
    var span := band * tick;
    var aligned := price - price % tick;
    var lo := if aligned - span > 0 then aligned - span else 0;
    MulLe(1, band, tick);
    AlignedBelow(price, tick, band);
    assert High(Grid(lo, 2 * band + 1, tick)) == lo + (2 * band) * tick;
    Difference(2 * band, band, tick);
    Grid(lo, 2 * band + 1, tick)
  }

  lemma AlignedBelow(price: int, tick: nat, band: nat)
    requires price >= 0 && tick > 0
    ensures (price - price % tick - band * tick) % tick == 0
  {
    var q := price / tick;
    assert price == tick * q + price % tick;
    Difference(q, band, tick);
    MulDivMod(q - band, tick);
  }

  // ---- the two paths, as wholes

  /** What sliding one side's array gives: levels moved, dropped shares parked. */
  ghost predicate SlidTo(levels: seq<nat>, out: seq<nat>, p: Parked, p': Parked, g: Grid, g': Grid)
    requires Aligned(g, g') && |levels| == g.n
  {
    match p
    case Parked(_, _, _) => forall k: nat {:trigger Look(BandSeal, k)} :: Look(BandSeal, k) ==>
      var c := Survivors(g, g');
      && c.from + c.len <= |levels| && c.to + c.len <= g'.n && out == Moved(levels, c, g'.n)
      && CoversDropped(p', levels, g, c, g.n) && p'.shares == p.shares + DroppedSum(levels, c, g.n)
      && Widens(p, p')
  }

  /** What a shift reads off the invariant. */
  lemma SlideReady(g: Grid, bid: Half, ask: Half, p: Parked, orders: Orders)
    requires BookOk(g, bid, ask, p, orders)
    ensures |bid.size| == g.n && |ask.size| == g.n && RangeShape(p)
  {
    BookMeans(g, bid, ask, p, orders);
  }

  /** The bitmap mirrors the moved levels and the best price was found again. */
  ghost predicate Settled(best: int, size: seq<nat>, bits: set<nat>, best': int, side: Side, g: Grid)
    requires g.tick > 0 && |size| == g.n
  {
    forall k: nat {:trigger Look(BandSeal, k)} :: Look(BandSeal, k) ==>
        BitsOk(size, bits) && best' == Refound(best, size, bits, side, g)
  }

  lemma SlideOk(g: Grid, g': Grid, bid: Half, ask: Half, p0: Parked, p1: Parked, p2: Parked, bid': Half, ask': Half,
                orders: Orders)
    requires BookOk(g, bid, ask, p0, orders) && Aligned(g, g') && |bid.size| == g.n && |ask.size| == g.n
    requires p0.shares == 0 || High(g') < p0.lo || g'.lo > p0.hi
    requires |bid'.size| == g'.n && |ask'.size| == g'.n && RangeShape(p2)
    requires SlidTo(bid.size, bid'.size, p0, p1, g, g') && SlidTo(ask.size, ask'.size, p1, p2, g, g')
    requires Settled(bid.best, bid'.size, bid'.bits, bid'.best, Buy, g')
             && Settled(ask.best, ask'.size, ask'.bits, ask'.best, Sell, g')
    ensures BookOk(g', bid', ask', p2, orders)
  {
    BookMeans(g, bid, ask, p0, orders);
    ClearRange(p0, g, g', orders);
    SlideParked(g, g', bid.size, bid'.size, ask.size, ask'.size, p0, p1, p2, orders);
    SlideSide(g, g', bid, bid', Buy, p0, p1, orders);
    SlideSide(g, g', ask, ask', Sell, p1, p2, orders);
  }

  lemma SlideSide(g: Grid, g': Grid, h: Half, h': Half, side: Side, p: Parked, p': Parked, orders: Orders)
    requires Aligned(g, g') && OrdersOk(orders) && HalfOk(h, side, g, orders) && NoneEnter(g, g', orders)
             && |h.size| == g.n && |h'.size| == g'.n
    requires SlidTo(h.size, h'.size, p, p', g, g') && Settled(h.best, h'.size, h'.bits, h'.best, side, g')
    ensures HalfOk(h', side, g', orders)
  {
    assert Look(BandSeal, 0);
    ShiftedLevels(h.size, side, g, g', orders);
    RefoundBest(h, h', side, g, g', orders);
  }

  lemma SlideParked(g: Grid, g': Grid, bids: seq<nat>, bids': seq<nat>, asks: seq<nat>, asks': seq<nat>,
                    p0: Parked, p1: Parked, p2: Parked, orders: Orders)
    requires Aligned(g, g') && OrdersOk(orders) && NoneEnter(g, g', orders) && ParkedOk(p0, g, orders)
    requires LevelsOk(bids, Buy, g, orders) && LevelsOk(asks, Sell, g, orders)
    requires RangeShape(p2) && SlidTo(bids, bids', p0, p1, g, g') && SlidTo(asks, asks', p1, p2, g, g')
    ensures ParkedOk(p2, g', orders)
  {
    assert Look(BandSeal, 0);
    KeepCovered(p1, p2, bids, g, Survivors(g, g'));
    ShiftedParked(p0, p2, bids, asks, g, g', orders);
  }
}
