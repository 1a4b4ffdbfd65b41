/** The feed-driven book: level arrays over a moving price band, kept in step with the order map. */
module BookBuilderModel {
  import opened Types
  import opened Arith
  import opened BandTotals
  import opened BandState
  import opened BandOps
  import opened BandShift
  import opened Ownership
  import Feed

  /** Largest share count the packed order record holds. */
  const SHARES_MASK: nat := 0x3FFF_FFFF

  datatype Config = Config(tickWire: nat, subDollarTick: int, bandTicks: nat, maxBandTicks: nat, ownRefMin: nat,
                           anchorPrice: int)

  datatype Input = Message(m: Feed.Itch) | ClearBook

  datatype Top = Top(bid: Edge, ask: Edge, low: int, high: int)

  /** Best prices, sizes there and band edges, from the orders alone. */
  ghost function BuiltTop(g: Grid, orders: Orders): Top
    requires g.tick > 0
  {
    Top(EdgeOf(Built(Buy, g, orders), g), EdgeOf(Built(Sell, g, orders), g), g.lo, High(g))
  }

  /** The record kept for an order: shares saturate. */
  function Record(price: int, shares: nat, side: Side, own: bool): Resting {
    Resting(price, Min(shares, SHARES_MASK), side, own)
  }

  /** What the feed promises: new references are fresh and nonzero, share counts fit, prices are not negative. */
  ghost predicate WellFormed(b: Feed.Book, m: Feed.Itch) {
    match m
    case AddOrder(ref, _, shares, price) => shares > 0 ==> ref > 0 && ref !in b && shares <= SHARES_MASK && price >= 0
    case OrderReplace(orig, ref, shares, price) =>
      orig in b && shares > 0 ==> ref > 0 && (ref !in b || ref == orig) && shares <= SHARES_MASK && price >= 0
    case TradeNonCross(price) => price >= 0
    case _ => true
  }

  ghost function After(b: Feed.Book, input: Input): Feed.Book {
    match input
    case Message(m) => Feed.Apply(b, m)
    case ClearBook => map[]
  }

  ghost function AfterAll(b: Feed.Book, inputs: seq<Input>): Feed.Book
    decreases |inputs|
  {
    if inputs == [] then b else AfterAll(After(b, inputs[0]), inputs[1..])
  }

  ghost predicate AllWellFormed(b: Feed.Book, inputs: seq<Input>)
    decreases |inputs|
  {
    inputs == [] || ((inputs[0].Message? ==> WellFormed(b, inputs[0].m))
                     && AllWellFormed(After(b, inputs[0]), inputs[1..]))
  }

  /** Where each resting order came from, after a run. */
  ghost function FirstsAfterAll(t: Firsts, b: Feed.Book, inputs: seq<Input>): Firsts
    decreases |inputs|
  {
    if inputs == [] then t
    else
      FirstsAfterAll(if inputs[0].Message? then FirstsAfter(t, b, inputs[0].m) else map[], After(b, inputs[0]),
                     inputs[1..])
  }

  /** The price lies in the band, whose tick is no coarser than the price asks for: below one dollar the finer one. */
  ghost predicate Reaches(g: Grid, price: int, base: int, subDollar: int) {
    g.lo <= price <= High(g) && g.tick <= if 0 < subDollar && price < 10000 then subDollar else base
  }

  /** From band g to g' because of a trade: the price is reached, and a band that reached it stayed. */
  ghost predicate Followed(g: Grid, g': Grid, price: int, base: int, subDollar: int) {
    Reaches(g', price, base, subDollar) && (Reaches(g, price, base, subDollar) ==> g' == g)
  }

  function Zeros(n: nat): seq<nat> {
    seq(n, _ => 0)
  }

  lemma BlockSlides(s: seq<nat>, c: Cut)
    requires c.from + c.len <= |s| && c.to + c.len <= |s|
    ensures var r := s[..c.to] + s[c.from..c.from + c.len] + s[c.to + c.len..];
            |r| == |s| && r[c.to..c.to + c.len] == s[c.from..c.from + c.len]
    ensures c.len == 0 ==> s[c.to..c.to + c.len] == s[c.from..c.from + c.len]
  {
  }

  lemma BlockFramed(s: seq<nat>, c: Cut)
    requires c.to + c.len <= |s|
    ensures var r := Zeros(c.to) + s[c.to..];
            && |r| == |s|
            && r[..c.to + c.len] + Zeros(|r| - c.to - c.len) == Zeros(c.to) + s[c.to..c.to + c.len]
                 + Zeros(|s| - c.to - c.len)
  {
  }

  lemma BlockTrimmed(levels: seq<nat>, c: Cut, n: nat, m: nat)
    requires c.from + c.len <= |levels| && c.to + c.len <= n <= m
    ensures var r := Zeros(c.to) + levels[c.from..c.from + c.len] + Zeros(m - c.to - c.len);
            |r| == m && r[..n] == Moved(levels, c, n) && (n == m ==> r == Moved(levels, c, n))
  {
  }

  /** The orders put back so far and those still to come. */
  ghost predicate Splits(done: Orders, todo: Orders, orders: Orders) {
    forall k: nat {:trigger Look(SplitSeal, k)} :: Look(SplitSeal, k) ==>
        done.Keys !! todo.Keys && done + todo == orders && OrdersOk(todo)
  }

  lemma SplitStart(orders: Orders)
    requires OrdersOk(orders)
    ensures Splits(map[], orders, orders)
  {
    assert map[] + orders == orders;
  }

  lemma SplitStep(done: Orders, todo: Orders, orders: Orders, ref: nat)
    requires Splits(done, todo, orders) && ref in todo
    ensures ref !in done && todo[ref].shares > 0 && todo[ref].price >= 0 && |todo - {ref}| < |todo|
    ensures Splits(done[ref := todo[ref]], todo - {ref}, orders)
  {
    assert Look(SplitSeal, 0);
    Smaller(todo, ref);
    MoveOver(done, todo, ref);
    var todo' := todo - {ref};
    assert todo'.Keys == todo.Keys - {ref};
  }

  lemma MoveOver(done: Orders, todo: Orders, ref: nat)
    requires done.Keys !! todo.Keys && ref in todo
    ensures done[ref := todo[ref]] + (todo - {ref}) == done + todo
  {
  }

  lemma SplitEnd(done: Orders, orders: Orders)
    requires Splits(done, map[], orders)
    ensures done == orders
  {
    assert Look(SplitSeal, 0);
  }

  class BookBuilder {
    const bandTicks: nat
    const maxBandTicks: nat
    const baseTick: nat
    const subDollarTick: int
    const ownRefMin: nat
    var anchored: bool
    var grid: Grid
    var bidSize: seq<nat>
    var bidBits: set<nat>
    var bestBid: int
    var askSize: seq<nat>
    var askBits: set<nat>
    var bestAsk: int
    var parked: Parked
    var orders: Orders
    var topVersion: nat
    var reanchors: nat
    var outOfBandAdds: nat

    ghost function Bid(): Half
      reads this
    {
      Half(bidSize, bidBits, bestBid)
    }

    ghost function Ask(): Half
      reads this
    {
      Half(askSize, askBits, bestAsk)
    }

    ghost function HalfOf(side: Side): Half
      reads this
    {
      if side.Buy? then Bid() else Ask()
    }

    predicate OwnRef(ref: nat) {
      ownRefMin != 0 && ref >= ownRefMin
    }

    /** An add by someone else that joins or improves the best level of its side. */
    ghost predicate Improves(m: Feed.Itch)
      reads this
      requires grid.tick > 0
    {
      m.AddOrder? && m.shares > 0 && anchored && !OwnRef(m.ref) && InBand(grid, m.price)
          && AtTop(HalfOf(m.side), m.side, m.price)
    }

    /** The arrays, bitmaps, best prices and parked account all agree with the order map. */
    ghost predicate Valid()
      reads this
    {
      && bandTicks >= 1 && baseTick > 0 && GridOk(grid)
      && BookOk(grid, Bid(), Ask(), parked, orders)
      && (if anchored then grid.n > 0 else grid.n == 0 && grid.lo == 0 && orders == map[])
    }

    /** The top is the one a rebuild of the orders on the current band shows. */
    lemma TopIsBuilt()
      requires Valid()
      ensures TopOf() == BuiltTop(grid, orders)
    {
      BookMeans(grid, Bid(), Ask(), parked, orders);
      BuiltUnique(Bid(), Buy, grid, orders);
      BuiltUnique(Ask(), Sell, grid, orders);
    }

    /** What the session compares before it re-quotes. */
    ghost function TopOf(): Top
      reads this
      requires grid.tick > 0
    {
      Top(EdgeOf(Bid(), grid), EdgeOf(Ask(), grid), grid.lo, High(grid))
    }

    constructor (cfg: Config)
      requires cfg.tickWire > 0 && cfg.bandTicks >= 1 && (cfg.anchorPrice == NO_PRICE || cfg.anchorPrice >= 0)
      ensures Valid() && orders == map[] && ownRefMin == cfg.ownRefMin
      ensures anchored <==> cfg.anchorPrice != NO_PRICE
      ensures bandTicks == cfg.bandTicks && maxBandTicks == cfg.maxBandTicks
      ensures baseTick == cfg.tickWire && subDollarTick == cfg.subDollarTick
      ensures anchored ==>
                && grid.lo <= cfg.anchorPrice <= High(grid)
                && grid.tick == (if 0 < subDollarTick && cfg.anchorPrice < 10000 then subDollarTick else baseTick)
    {
      bandTicks, maxBandTicks := cfg.bandTicks, cfg.maxBandTicks;
      baseTick, subDollarTick := cfg.tickWire, cfg.subDollarTick;
      ownRefMin, anchored, grid := cfg.ownRefMin, false, Grid(0, 0, cfg.tickWire);
      bidSize, bidBits, bestBid := [], {}, NO_PRICE;
      askSize, askBits, bestAsk := [], {}, NO_PRICE;
      parked, orders, topVersion, reanchors, outOfBandAdds := NOTHING_PARKED, map[], 0, 0, 0;
      new;
      if cfg.anchorPrice != NO_PRICE {
        ghost var band := Anchor(cfg.anchorPrice, true);
      }
    }

    function TickFor(price: int): nat {
      if subDollarTick > 0 && price < 10000 then subDollarTick else baseTick
    }

    predicate InRange(price: int)
      reads this
    {
      grid.lo <= price <= High(grid)
    }

    predicate NeedsAnchor(price: int)
      reads this
    {
      !InRange(price) || TickFor(price) < grid.tick
    }

    // ---- levels

    method AddLevel(side: Side, price: int, shares: nat)
      requires grid.tick > 0 && InBand(grid, price) && |bidSize| == grid.n && |askSize| == grid.n
      requires BitsOk(bidSize, bidBits) && BitsOk(askSize, askBits)
      modifies this`bidSize, this`bidBits, this`bestBid, this`askSize, this`askBits, this`bestAsk, this`topVersion
      ensures Bid() == PutHalf(old(Bid()), Buy, grid, Resting(price, shares, side, false))
      ensures Ask() == PutHalf(old(Ask()), Sell, grid, Resting(price, shares, side, false))
      ensures topVersion == old(topVersion) + if AtTop(if side.Buy? then old(Bid()) else old(Ask()), side, price)
              then 1 else 0
    {
      GridIndex(grid, price);
      var i := Idx(grid, price);
      if side.Buy? {
        if bidSize[i] == 0 {
          bidBits := bidBits + {i};
        }
        bidSize := bidSize[i := bidSize[i] + shares];
        if bestBid == NO_PRICE || price >= bestBid {
          topVersion := topVersion + 1;
          bestBid := price;
        }
        assert bidBits == old(bidBits) + {i};
      } else {
        if askSize[i] == 0 {
          askBits := askBits + {i};
        }
        askSize := askSize[i := askSize[i] + shares];
        if bestAsk == NO_PRICE || price <= bestAsk {
          topVersion := topVersion + 1;
          bestAsk := price;
        }
        assert askBits == old(askBits) + {i};
      }
    }

    method AddShares(side: Side, price: int, shares: nat)
      requires Shaped(grid, Bid(), Ask())
      modifies this`bidSize, this`bidBits, this`bestBid, this`askSize, this`askBits, this`bestAsk, this`topVersion,
               this`parked, this`outOfBandAdds
      ensures Bid() == PutHalf(old(Bid()), Buy, grid, Resting(price, shares, side, false))
      ensures Ask() == PutHalf(old(Ask()), Sell, grid, Resting(price, shares, side, false))
      ensures parked == PutParked(old(parked), grid, Resting(price, shares, side, false))
      ensures topVersion >= old(topVersion) && (topVersion == old(topVersion) ==> TopOf() == old(TopOf()))
      ensures InBand(grid, price) && AtTop(old(HalfOf(side)), side, price) ==>
                topVersion == old(topVersion) + 1 && HalfOf(side).best == price
    {
      if !InBand(grid, price) {
        outOfBandAdds := outOfBandAdds + 1;
        parked := Park(parked, price, shares);
        return;
      }
      PutEdges(grid, Bid(), Ask(), Resting(price, shares, side, false));
      AddLevel(side, price, shares);
    }

    method RemoveShares(side: Side, price: int, shares: nat)
      requires Shaped(grid, Bid(), Ask())
      modifies this`bidSize, this`bidBits, this`bestBid, this`askSize, this`askBits, this`bestAsk, this`topVersion,
               this`parked
      ensures Bid() == CutHalf(old(Bid()), Buy, grid, Resting(price, shares, side, false), shares)
      ensures Ask() == CutHalf(old(Ask()), Sell, grid, Resting(price, shares, side, false), shares)
      ensures parked == CutParked(old(parked), grid, Resting(price, shares, side, false), shares)
      ensures topVersion >= old(topVersion) && (topVersion == old(topVersion) ==> TopOf() == old(TopOf()))
    {
      if !InBand(grid, price) {
        parked := Unpark(parked, shares);
        return;
      }
      CutEdges(grid, Bid(), Ask(), Resting(price, shares, side, false), shares);
      TakeLevel(side, price, shares);
    }

    method TakeLevel(side: Side, price: int, shares: nat)
      requires grid.tick > 0 && InBand(grid, price) && |bidSize| == grid.n && |askSize| == grid.n
      modifies this`bidSize, this`bidBits, this`bestBid, this`askSize, this`askBits, this`bestAsk, this`topVersion
      ensures Bid() == CutHalf(old(Bid()), Buy, grid, Resting(price, shares, side, false), shares)
      ensures Ask() == CutHalf(old(Ask()), Sell, grid, Resting(price, shares, side, false), shares)
      ensures topVersion == old(topVersion) + if price == old(if side.Buy? then bestBid else bestAsk) then 1 else 0
    {
      GridIndex(grid, price);
      var i := Idx(grid, price);
      topVersion := topVersion + if price == (if side.Buy? then bestBid else bestAsk) then 1 else 0;
      if side.Buy? {
        bidSize := bidSize[i := if shares >= bidSize[i] then 0 else bidSize[i] - shares];
        if bidSize[i] == 0 {
          bidBits := bidBits - {i};
          if price == bestBid {
            bestBid := Rescan(bidBits, Buy, grid, bestBid);
          }
        }
      } else {
        askSize := askSize[i := if shares >= askSize[i] then 0 else askSize[i] - shares];
        if askSize[i] == 0 {
          askBits := askBits - {i};
          if price == bestAsk {
            bestAsk := Rescan(askBits, Sell, grid, bestAsk);
          }
        }
      }
    }

    // ---- moving the band

    /** Parks what falls off the old band and moves the rest. */
    method ShiftLevels(levels: seq<nat>, next: Grid, account: Parked) returns (out: seq<nat>, p: Parked)
      requires Aligned(grid, next) && |levels| == grid.n && RangeShape(account)
      ensures SlidTo(levels, out, account, p, grid, next) && |out| == next.n && RangeShape(p)
    {
      var c := Survivors(grid, next);
      SurvivorsExact(grid, next);
      p := account;
      var i := 0;
      while i < |levels|
        invariant 0 <= i <= |levels|
        invariant RangeShape(p) && Widens(account, p) && CoversDropped(p, levels, grid, c, i)
        invariant p.shares == account.shares + DroppedSum(levels, c, i)
      {
        if !Kept(c, i) && levels[i] != 0 {
          MulLe(0, i, grid.tick);
          ParkWidens(p, PriceAt(grid, i), levels[i]);
          p := Park(p, PriceAt(grid, i), levels[i]);
        }
        i := i + 1;
      }
      out := MoveLevels(levels, c, next.n);
    }

    /** Grow, slide the surviving block, zero both ends, trim. */
    method MoveLevels(levels: seq<nat>, c: Cut, n: nat) returns (out: seq<nat>)
      requires c.from + c.len <= |levels| && c.to + c.len <= n
      ensures out == Moved(levels, c, n)
    {
      out := levels;
      if n > |out| {
        out := out + Zeros(n - |out|);
      }
      assert out[c.from..c.from + c.len] == levels[c.from..c.from + c.len];
      BlockSlides(out, c);
      if c.len > 0 && c.to != c.from {
        out := out[..c.to] + out[c.from..c.from + c.len] + out[c.to + c.len..];
      }
      assert out[c.to..c.to + c.len] == levels[c.from..c.from + c.len];
      BlockFramed(out, c);
      out := Zeros(c.to) + out[c.to..];
      out := out[..c.to + c.len] + Zeros(|out| - c.to - c.len);
      BlockTrimmed(levels, c, n, |out|);
      if n < |out| {
        out := out[..n];
      }
    }

    method RebuildBits(levels: seq<nat>) returns (bits: set<nat>)
      ensures BitsOk(levels, bits)
    {
      bits := {};
      var i := 0;
      while i < |levels|
        invariant 0 <= i <= |levels|
        invariant forall j :: j in bits ==> j < i && levels[j] != 0
        invariant forall j :: 0 <= j < i && levels[j] != 0 ==> j in bits
      {
        if levels[i] != 0 {
          bits := bits + {i};
        }
        i := i + 1;
      }
    }

    method Settle(size: seq<nat>, was: int, side: Side, next: Grid) returns (bits: set<nat>, best: int)
      requires next.tick > 0 && |size| == next.n
      ensures Settled(was, size, bits, best, side, next)
    {
      bits := RebuildBits(size);
      best := Refound(was, size, bits, side, next);
    }

    /** Both sides slid to the new band, found without looking at the orders. */
    method Slide(next: Grid) returns (bid: Half, ask: Half, p: Parked)
      requires Aligned(grid, next) && BookOk(grid, Bid(), Ask(), parked, orders)
      requires parked.shares == 0 || High(next) < parked.lo || next.lo > parked.hi
      ensures BookOk(next, bid, ask, p, orders)
    {
      SlideReady(grid, Bid(), Ask(), parked, orders);
      var bids, p1 := ShiftLevels(bidSize, next, parked);
      var asks, p2 := ShiftLevels(askSize, next, p1);
      p := p2;
      var bidBits', bestBid' := Settle(bids, bestBid, Buy, next);
      var askBits', bestAsk' := Settle(asks, bestAsk, Sell, next);
      bid, ask := Half(bids, bidBits', bestBid'), Half(asks, askBits', bestAsk');
      SlideOk(grid, next, Bid(), Ask(), parked, p1, p2, bid, ask, orders);
    }

    /** The fast path: slide the arrays, park what falls off. */
    method Shift(next: Grid)
      requires Valid() && anchored && Aligned(grid, next)
      requires parked.shares == 0 || High(next) < parked.lo || next.lo > parked.hi
      modifies this`grid, this`bidSize, this`bidBits, this`bestBid, this`askSize, this`askBits, this`bestAsk,
               this`parked
      ensures Valid() && grid == next
    {
      var bid, ask, p := Slide(next);
      bidSize, bidBits, bestBid := bid.size, bid.bits, bid.best;
      askSize, askBits, bestAsk := ask.size, ask.bits, ask.best;
      grid, parked := next, p;
      assert Bid() == bid && Ask() == ask;
    }

    method Reset(next: Grid)
      requires GridOk(next)
      modifies this`grid, this`bidSize, this`bidBits, this`bestBid, this`askSize, this`askBits, this`bestAsk,
               this`parked, this`anchored
      ensures grid == next && anchored && BookOk(grid, Bid(), Ask(), parked, map[])
    {
      grid, anchored := next, true;
      bidSize, bidBits, bestBid := Zeros(next.n), {}, NO_PRICE;
      askSize, askBits, bestAsk := Zeros(next.n), {}, NO_PRICE;
      parked := NOTHING_PARKED;
      EmptyBook(next, Bid(), Ask(), parked);
    }

    /** The slow path: empty the arrays and put every order back. */
    method Rebuild(next: Grid)
      requires bandTicks >= 1 && baseTick > 0 && GridOk(next) && next.n > 0 && OrdersOk(orders)
      modifies this`grid, this`bidSize, this`bidBits, this`bestBid, this`askSize, this`askBits, this`bestAsk,
               this`parked, this`anchored, this`topVersion, this`outOfBandAdds
      ensures Valid() && grid == next && anchored && topVersion >= old(topVersion)
    {
      Reset(next);
      ghost var done: Orders := map[];
      var todo := orders;
      SplitStart(orders);
      while todo != map[]
        invariant grid == next && anchored && topVersion >= old(topVersion) && Splits(done, todo, orders)
        invariant BookOk(grid, Bid(), Ask(), parked, done)
        decreases |todo|
      {
        var ref :| ref in todo;
        SplitStep(done, todo, orders, ref);
        PutBack(todo[ref], ref, done);
        done := done[ref := todo[ref]];
        todo := todo - {ref};
      }
      SplitEnd(done, orders);
    }

    method PutBack(r: Resting, ghost ref: nat, ghost done: Orders)
      requires BookOk(grid, Bid(), Ask(), parked, done) && ref !in done && r.shares > 0 && r.price >= 0
      modifies this`bidSize, this`bidBits, this`bestBid, this`askSize, this`askBits, this`bestAsk, this`topVersion,
               this`parked
      ensures BookOk(grid, Bid(), Ask(), parked, done[ref := r]) && topVersion >= old(topVersion)
    {
      PutBookOk(grid, Bid(), Ask(), parked, done, ref, r);
      BookShaped(grid, Bid(), Ask(), parked, done);
      if r.own {
        return;
      }
      if InBand(grid, r.price) {
        AddLevel(r.side, r.price, r.shares);
      } else {
        parked := Park(parked, r.price, r.shares);
      }
    }

    /** Shifts where the ticks agree and no parked share could come into view; rebuilds otherwise. */
    method MoveTo(next: Grid)
      requires Valid() && GridOk(next) && next.n > 0
      modifies this
      ensures Valid() && anchored && grid == next && orders == old(orders) && topVersion >= old(topVersion)
    {
      if anchored && next.tick == grid.tick && (parked.shares == 0 || High(next) < parked.lo || next.lo > parked.hi) {
        Shift(next);
      } else {
        BookMeans(grid, Bid(), Ask(), parked, orders);
        Rebuild(next);
      }
    }

    /**
     * Re-centres the band: a tick no coarser than before or than the price asks for, below one dollar the
     * finer one, and as many of them to either side. Either path leaves the one view that the orders and
     * the new grid determine.
     */
    method Anchor(price: int, trusted: bool) returns (ghost band: nat)
      requires Valid() && price >= 0
      modifies this
      ensures Valid() && anchored && orders == old(orders) && !NeedsAnchor(price)
      ensures var tick := if 0 < subDollarTick && price < 10000 then subDollarTick else baseTick;
              grid.tick == if old(anchored) && old(grid.tick) < tick then old(grid.tick) else tick
      ensures grid.n == 2 * band + 1 && grid.lo == (if price - price % grid.tick - band * grid.tick > 0
                                                    then price - price % grid.tick - band * grid.tick else 0)
      ensures var least := if maxBandTicks != 0 && bandTicks > maxBandTicks then maxBandTicks else bandTicks;
              band >= least && (maxBandTicks != 0 ==> band <= maxBandTicks) && (!trusted ==> band == least)
      ensures Bid() == Built(Buy, grid, orders) && Ask() == Built(Sell, grid, orders)
      ensures parked.shares == Total(orders, OffGrid(grid))
      ensures old(anchored) ==> grid.tick <= old(grid.tick)
      ensures topVersion > old(topVersion)
    {
      topVersion := topVersion + 1;
      var tick := if anchored && grid.tick < TickFor(price) then grid.tick else TickFor(price);
      var width := bandTicks;
      var byPrice: nat := *;
      if trusted && byPrice > width {
        width := byPrice;
      }
      if maxBandTicks != 0 && width > maxBandTicks {
        width := maxBandTicks;
      }
      band := width;
      var next := BandAround(price, tick, width);
      reanchors := reanchors + if anchored then 1 else 0;
      MoveTo(next);
      BookMeans(grid, Bid(), Ask(), parked, orders);
      BuiltUnique(Bid(), Buy, grid, orders);
      BuiltUnique(Ask(), Sell, grid, orders);
    }

    method OnTradePrice(price: int)
      requires Valid() && price >= 0
      modifies this
      ensures Valid() && orders == old(orders) && !NeedsAnchor(price)
      ensures Followed(old(grid), grid, price, baseTick, subDollarTick)
      ensures old(Reaches(grid, price, baseTick, subDollarTick)) ==> topVersion == old(topVersion)
      ensures topVersion >= old(topVersion) && (topVersion == old(topVersion) ==> TopOf() == old(TopOf()))
    {
      if NeedsAnchor(price) {
        ghost var band := Anchor(price, true);
      }
    }

    // ---- queries

    method SizeAt(side: Side, price: int) returns (size: nat)
      requires Valid()
      ensures size == if InBand(grid, price) then Total(orders, Level(side, price)) else 0
    {
      BookMeans(grid, Bid(), Ask(), parked, orders);
      if !InBand(grid, price) {
        return 0;
      }
      GridIndex(grid, price);
      size := if side.Buy? then bidSize[Idx(grid, price)] else askSize[Idx(grid, price)];
    }

    /** The extreme price on the band's grid at which someone else rests, if there is one. */
    method BestPrice(side: Side) returns (best: int)
      requires Valid()
      ensures forall ref :: ref in orders && Counts(grid, side, orders[ref]) ==>
                best != NO_PRICE && AtLeast(side, best, orders[ref].price)
      ensures best != NO_PRICE ==>
                exists ref :: ref in orders && Counts(grid, side, orders[ref]) && orders[ref].price == best
    {
      best := if side.Buy? then bestBid else bestAsk;
      BestExtreme(grid, Bid(), Ask(), parked, orders, side);
    }

    // ---- messages

    method OnAddOrder(ref: nat, side: Side, shares: nat, price: int)
      requires Valid() && WellFormed(Plain(orders), Feed.AddOrder(ref, side, shares, price))
      modifies this
      ensures Valid() && Plain(orders) == Feed.Apply(old(Plain(orders)), Feed.AddOrder(ref, side, shares, price))
      ensures shares == 0 ==> orders == old(orders)
      ensures shares > 0 ==>
                orders == old(orders)[ref := Resting(price, shares, side, ownRefMin != 0 && ref >= ownRefMin)]
      ensures old(anchored) || shares == 0 ==> grid == old(grid)
      ensures !old(anchored) && shares > 0 ==> anchored && grid.lo <= price <= High(grid)
      ensures topVersion >= old(topVersion) && (topVersion == old(topVersion) ==> TopOf() == old(TopOf()))
      ensures old(Improves(Feed.AddOrder(ref, side, shares, price))) ==>
                topVersion == old(topVersion) + 1 && HalfOf(side).best == price
    {
      if shares == 0 {
        return;
      }
      var own := OwnRef(ref);
      if !anchored {
        FirstAnchor(price);
      }
      Insert(ref, Record(price, shares, side, own));
    }

    method FirstAnchor(price: int)
      requires Valid() && !anchored && price >= 0
      modifies this
      ensures Valid() && anchored && orders == old(orders) && grid.lo <= price <= High(grid)
      ensures topVersion > old(topVersion)
    {
      ghost var band := Anchor(price, false);
    }

    /** A fresh order goes into the map and, unless it is ours, into its level or the parked account. */
    method Insert(ref: nat, r: Resting)
      requires Valid() && anchored && ref !in orders && r.shares > 0 && r.price >= 0
      modifies this
      ensures Valid() && anchored && orders == old(orders)[ref := r] && grid == old(grid)
      ensures topVersion >= old(topVersion) && (topVersion == old(topVersion) ==> TopOf() == old(TopOf()))
      ensures !r.own && old(InBand(grid, r.price) && AtTop(HalfOf(r.side), r.side, r.price)) ==>
                topVersion == old(topVersion) + 1 && HalfOf(r.side).best == r.price
    {
      PutBookOk(grid, Bid(), Ask(), parked, orders, ref, r);
      BookShaped(grid, Bid(), Ask(), parked, orders);
      orders := orders[ref := r];
      if r.own {
        return;
      }
      AddShares(r.side, r.price, r.shares);
    }

    method OnOrderReplace(orig: nat, ref: nat, shares: nat, price: int)
      requires Valid() && WellFormed(Plain(orders), Feed.OrderReplace(orig, ref, shares, price))
      modifies this
      ensures Valid() && Plain(orders) == Feed.Apply(old(Plain(orders)), Feed.OrderReplace(orig, ref, shares, price))
      ensures orders ==
                if orig !in old(orders) then old(orders)
                else if shares == 0 then old(orders) - {orig}
                else (old(orders) - {orig})[ref := Resting(price, shares, old(orders)[orig].side,
                                                           old(orders)[orig].own)]
      ensures grid == old(grid)
      ensures topVersion >= old(topVersion) && (topVersion == old(topVersion) ==> TopOf() == old(TopOf()))
    {
      if orig !in orders {
        return;
      }
      var r := orders[orig];
      RemoveOrder(orig);
      if shares == 0 {
        return;
      }
      Insert(ref, Record(price, shares, r.side, r.own));
    }

    method ReduceOrder(ref: nat, cut: nat, trade: bool)
      requires Valid()
      modifies this
      ensures Valid() && Plain(orders) == Feed.Reduce(old(Plain(orders)), ref, cut)
      ensures orders ==
                if ref !in old(orders) then old(orders)
                else if cut >= old(orders)[ref].shares then old(orders) - {ref}
                else old(orders)[ref := old(orders)[ref].(shares := old(orders)[ref].shares - cut)]
      ensures !trade || ref !in old(orders) ==> grid == old(grid)
      ensures trade && ref in old(orders) ==>
                Followed(old(grid), grid, old(orders)[ref].price, baseTick, subDollarTick)
      ensures topVersion >= old(topVersion) && (topVersion == old(topVersion) ==> TopOf() == old(TopOf()))
    {
      if ref !in orders {
        return;
      }
      var r := orders[ref];
      PriceOk(grid, Bid(), Ask(), parked, orders, ref);
      if trade {
        OnTradePrice(r.price);
      }
      var gone := if cut < r.shares then cut else r.shares;
      Withdraw(ref, gone);
    }

    /** `gone` shares leave order ref, which goes with its last share. */
    method Withdraw(ref: nat, gone: nat)
      requires Valid() && ref in orders && gone <= orders[ref].shares
      modifies this
      ensures Valid() && anchored == old(anchored) && grid == old(grid)
      ensures orders == Left(old(orders), ref, gone)
      ensures topVersion >= old(topVersion) && (topVersion == old(topVersion) ==> TopOf() == old(TopOf()))
    {
      var r := orders[ref];
      LeftBookOk(grid, Bid(), Ask(), parked, orders, ref, gone);
      BookShaped(grid, Bid(), Ask(), parked, orders);
      if !r.own {
        RemoveShares(r.side, r.price, gone);
      }
      orders := orders[ref := r.(shares := r.shares - gone)];
      if gone == r.shares {
        orders := orders - {ref};
      }
      assert orders == Left(old(orders), ref, gone);
    }

    method RemoveOrder(ref: nat)
      requires Valid()
      modifies this
      ensures Valid() && anchored == old(anchored) && orders == old(orders) - {ref} && grid == old(grid)
      ensures topVersion >= old(topVersion) && (topVersion == old(topVersion) ==> TopOf() == old(TopOf()))
    {
      if ref in orders {
        Withdraw(ref, orders[ref].shares);
      }
    }

    method Clear()
      requires Valid()
      modifies this
      ensures Valid() && orders == map[] && grid == old(grid)
      ensures topVersion > old(topVersion)
    {
      BookMeans(grid, Bid(), Ask(), parked, orders);
      topVersion := topVersion + 1;
      if orders == map[] && parked.shares == 0 {
        bestBid, bestAsk := NO_PRICE, NO_PRICE;
        return;
      }
      bidSize, bidBits, bestBid := Zeros(|bidSize|), {}, NO_PRICE;
      askSize, askBits, bestAsk := Zeros(|askSize|), {}, NO_PRICE;
      orders, parked := map[], NOTHING_PARKED;
      EmptyBook(grid, Bid(), Ask(), parked);
    }

    method Apply(m: Feed.Itch)
      requires Valid() && WellFormed(Plain(orders), m)
      modifies this
      ensures Valid() && Plain(orders) == Feed.Apply(old(Plain(orders)), m)
      ensures Moves(old(orders), m, ownRefMin, orders)
      ensures match m
              case AddOrder(_, _, _, _) => old(anchored) ==> grid == old(grid)
              case OrderExecuted(ref, _) =>
                if ref in old(orders) then Followed(old(grid), grid, old(orders)[ref].price, baseTick, subDollarTick)
                else grid == old(grid)
              case TradeNonCross(price) => Followed(old(grid), grid, price, baseTick, subDollarTick)
              case CrossTrade(shares, price) =>
                if shares > 0 && price > 0 then Followed(old(grid), grid, price, baseTick, subDollarTick)
                else grid == old(grid)
              case _ => grid == old(grid)
      ensures topVersion >= old(topVersion) && (topVersion == old(topVersion) ==> TopOf() == old(TopOf()))
      ensures old(Improves(m)) ==> topVersion == old(topVersion) + 1 && HalfOf(m.side).best == m.price
    {
      match m
      case AddOrder(ref, side, shares, price) => OnAddOrder(ref, side, shares, price);
      case OrderExecuted(ref, shares) => ReduceOrder(ref, shares, true);
      case OrderCancel(ref, shares) => ReduceOrder(ref, shares, false);
      case OrderDelete(ref) => RemoveOrder(ref);
      case OrderReplace(orig, ref, shares, price) => OnOrderReplace(orig, ref, shares, price);
      case TradeNonCross(price) => OnTradePrice(price);
      case CrossTrade(shares, price) =>
        if shares > 0 && price > 0 {
          OnTradePrice(price);
        }
    }

    /**
     * Any run of messages and clears, from any reachable state: the book ends as the plain map the feed
     * describes, the orders marked as ours are those that came in under our references, through any
     * number of replacements, and every level shows exactly what everybody else has resting there. An
     * unchanged version means an unchanged top.
     */
    method ApplyAll(inputs: seq<Input>, ghost firsts: Firsts)
      requires Valid() && AllWellFormed(Plain(orders), inputs) && OwnedBy(orders, firsts, ownRefMin)
      modifies this
      ensures Valid() && Plain(orders) == AfterAll(old(Plain(orders)), inputs)
      ensures var t := FirstsAfterAll(firsts, old(Plain(orders)), inputs);
              OwnedBy(orders, t, ownRefMin) && forall side, price :: Shows(t, side, price)
      ensures topVersion >= old(topVersion) && (topVersion == old(topVersion) ==> TopOf() == old(TopOf()))
      ensures topVersion % TWO32 == old(topVersion) % TWO32 && topVersion - old(topVersion) < TWO32 ==>
                TopOf() == old(TopOf())
    {
      var i := 0;
      ghost var t := firsts;
      while i < |inputs|
        invariant 0 <= i <= |inputs| && Valid() && AllWellFormed(Plain(orders), inputs[i..])
        invariant AfterAll(Plain(orders), inputs[i..]) == AfterAll(old(Plain(orders)), inputs)
        invariant OwnedBy(orders, t, ownRefMin)
        invariant FirstsAfterAll(t, Plain(orders), inputs[i..]) == FirstsAfterAll(firsts, old(Plain(orders)), inputs)
        invariant topVersion >= old(topVersion) && (topVersion == old(topVersion) ==> TopOf() == old(TopOf()))
        decreases |inputs| - i
      {
        assert inputs[i..][0] == inputs[i] && inputs[i..][1..] == inputs[i + 1..];
        t := One(inputs[i], t);
        i := i + 1;
      }
      assert inputs[i..] == [];
      DepthShown(t);
    }

    /** One input, with the origins it leaves. */
    method One(input: Input, ghost t: Firsts) returns (ghost t': Firsts)
      requires Valid() && (input.Message? ==> WellFormed(Plain(orders), input.m)) && OwnedBy(orders, t, ownRefMin)
      modifies this
      ensures Valid() && Plain(orders) == After(old(Plain(orders)), input) && OwnedBy(orders, t', ownRefMin)
      ensures t' == if input.Message? then FirstsAfter(t, old(Plain(orders)), input.m) else map[]
      ensures topVersion >= old(topVersion) && (topVersion == old(topVersion) ==> TopOf() == old(TopOf()))
    {
      match input {
        case Message(m) =>
          Apply(m);
          MovesOwned(old(orders), m, ownRefMin, orders, t);
          t' := FirstsAfter(t, old(Plain(orders)), m);
        case ClearBook =>
          Clear();
          t' := map[];
      }
    }

    /** The level at a price of the band's grid shows the depth counted on the feed's book. */
    ghost predicate Shows(t: Firsts, side: Side, price: int)
      reads this
      requires grid.tick > 0
    {
      InBand(grid, price) ==>
        && 0 <= Idx(grid, price) < |HalfOf(side).size|
        && HalfOf(side).size[Idx(grid, price)] == Depth(Plain(orders), t, ownRefMin, side, price)
    }

    lemma DepthShown(t: Firsts)
      requires Valid() && OwnedBy(orders, t, ownRefMin)
      ensures forall side, price :: Shows(t, side, price)
    {
      BookMeans(grid, Bid(), Ask(), parked, orders);
      forall side, price ensures Shows(t, side, price) {
        if InBand(grid, price) {
          GridIndex(grid, price);
          DepthTotal(orders, t, ownRefMin, side, price);
        }
      }
    }
  }
}
