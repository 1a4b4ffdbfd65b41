/** The simulated exchange venue: tape orders and client orders in one matching engine. */
module VenueModel {
  import Arith
  import opened Reports
  import opened Types
  import opened Fifo
  import opened Flatten
  import opened EngineState
  import opened Engine
  import opened VenueState
  import opened ShadowState
  import opened CrossTrace
  import Matcher
  import Ledger
  import Feed

  datatype Symbol = Symbol(name: string)

  datatype OuchSide = B | S | SShort | SExempt | OtherSide

  datatype EnterOrder = EnterOrder(user: nat, side: OuchSide, qty: nat, symbol: Symbol, price: nat, ioc: bool)

  function ParseSide(s: OuchSide): Option<Side> {
    match s
    case B => Some(Buy)
    case S => Some(Sell)
    case SShort => Some(Sell)
    case SExempt => Some(Sell)
    case OtherSide => None
  }

  /**
   * The first reply to an order rejects or accepts it; fills follow an accept, and an immediate
   * order's last may be its cancel.
   */
  ghost predicate Answered(o: EnterOrder, oe0: seq<Ledger.Ack>, oe1: seq<Ledger.Ack>) {
    match o
    case EnterOrder(user, side, qty, _, price, ioc) =>
      && oe0 < oe1
      && var a := oe1[|oe0|];
         || (a.Rejected? && a.user == user && oe1 == oe0 + [a])
         || (side != OtherSide && a == Ledger.Accepted(user, if side == B then Buy else Sell, price, qty, ioc)
             && if ioc then LapsesAfter(oe0 + [a], oe1, user) else ExecsAfter(oe0 + [a], oe1))
  }

  /** b is a followed by executions only. */
  ghost predicate ExecsAfter(a: seq<Ledger.Ack>, b: seq<Ledger.Ack>) {
    && a <= b
    && forall i :: |a| <= i < |b| ==> b[i].Executed?
  }

  /** b is a followed by end-of-day cancels only. */
  ghost predicate ClosesAfter(a: seq<Ledger.Ack>, b: seq<Ledger.Ack>) {
    && a <= b
    && forall i :: |a| <= i < |b| ==> b[i].Canceled? && b[i].reason == Ledger.Closed
  }

  lemma ClosesTrans(a: seq<Ledger.Ack>, b: seq<Ledger.Ack>, c: seq<Ledger.Ack>)
    requires ClosesAfter(a, b) && ClosesAfter(b, c)
    ensures ClosesAfter(a, c)
  {
  }

  lemma ExecsTrans(a: seq<Ledger.Ack>, b: seq<Ledger.Ack>, c: seq<Ledger.Ack>)
    requires ExecsAfter(a, b) && ExecsAfter(b, c)
    ensures ExecsAfter(a, c)
  {
  }

  /** The pool when only the first i hits have been booked. */
  ghost function Booked(pool0: seq<Order>, pool: seq<Order>, hits: seq<nat>, i: nat): seq<Order>
    requires |pool0| == |pool| && i <= |hits|
  {
    seq(|pool0|, x requires 0 <= x < |pool0| => if x in hits[..i] then pool[x] else pool0[x])
  }

  /** Booking the next hit is one fill of the resting order it names. */
  lemma BookedStep(d: Desk, pool0: seq<Order>, pool: seq<Order>, hits: seq<nat>, ts: seq<Matcher.Trade>, id: nat,
                   side: Side, i: nat)
    requires Progress(pool0, pool, hits, ts, id, side) && i < |hits|
    requires DeskOk(d, Booked(pool0, pool, hits, i))
    ensures var t := ts[i];
            && PoolFill(d, Booked(pool0, pool, hits, i), Booked(pool0, pool, hits, i + 1), t.restingId, t.qty)
            && t.qty > 0 && t.price == d.live[t.restingId].tick
            && (t.restingFilled <==> t.qty == Booked(pool0, pool, hits, i)[d.live[t.restingId].handle].qty)
  {
    var p, p' := Booked(pool0, pool, hits, i), Booked(pool0, pool, hits, i + 1);
    DeskMeans(d, p);
    var h := hits[i];
    assert HitOk(pool0[h], pool[h], ts[i], id, side);
    assert h !in hits[..i];
    assert p[h] == pool0[h];
    assert ts[i].restingId in d.live && d.live[ts[i].restingId].handle == h;
    assert Rests(ts[i].restingId, d.live[ts[i].restingId], p);
    assert hits[..i + 1] == hits[..i] + [h];
    assert p'[h] == pool[h];
  }

  /** With nothing booked the pool is the old one; with everything booked it is the new one. */
  lemma BookedEnds(d: Desk, pool0: seq<Order>, pool: seq<Order>, hits: seq<nat>, ts: seq<Matcher.Trade>, id: nat,
                   side: Side)
    requires Progress(pool0, pool, hits, ts, id, side)
    ensures Booked(pool0, pool, hits, 0) == pool0
    ensures forall x :: 0 <= x < |pool| ==> Same(Booked(pool0, pool, hits, |hits|)[x], pool[x])
  {
    assert hits[..|hits|] == hits;
  }

  lemma CrossWire(side: Side, limit: int, price: int, w: nat)
    requires Matcher.Crosses(side, limit, price)
    ensures Matcher.Crosses(side, Wire(limit, w), Wire(price, w))
  {
    WireMono(limit, price, w);
    WireMono(price, limit, w);
  }

  /** Links do not matter to the books either. */
  lemma BooksSame(d: Desk, next: nat, oe: seq<Ledger.Ack>, pool: seq<Order>, pool': seq<Order>, p: Pending)
    requires BooksOk(d, next, oe, pool, p)
    requires |pool| == |pool'| && forall x :: 0 <= x < |pool| ==> Same(pool[x], pool'[x])
    ensures BooksOk(d, next, oe, pool', p)
    ensures forall md :: FeedIs(d, md, pool) ==> FeedIs(d, md, pool')
  {
    DeskSame(d, pool, pool');
  }

  /** Shares of one order, 0 if it is not there. */
  function OpenIn(q: map<nat, nat>, ref: nat): nat {
    if ref in q then q[ref] else 0
  }

  /** Orders only left: everything still live is as it was. */
  ghost predicate Shrunk(a: map<nat, LiveOrder>, b: map<nat, LiveOrder>) {
    forall r :: r in b ==> r in a && a[r] == b[r]
  }

  /** An order joins without locking anybody when nothing opposite satisfies its price. */
  lemma UnlockedJoin(live: map<nat, LiveOrder>, ref: nat, lo: LiveOrder)
    requires Unlocked(live) && ref !in live
    requires forall b :: b in live && live[b].side != lo.side && (lo.client || live[b].client) ==>
               !Matcher.Crosses(lo.side, lo.tick, live[b].tick)
    ensures Unlocked(live[ref := lo])
  {
  }

  lemma UnlockedShrunk(a: map<nat, LiveOrder>, b: map<nat, LiveOrder>)
    requires Unlocked(a) && Shrunk(a, b)
    ensures Unlocked(b)
  {
  }

  lemma UncrossedLive(d: Desk, pool: seq<Order>, side: Side, tick: int)
    requires DeskOk(d, pool) && Uncrossed(pool, side, tick)
    ensures forall b :: b in d.live && d.live[b].side != side ==> !Matcher.Crosses(side, tick, d.live[b].tick)
  {
    DeskMeans(d, pool);
    forall b | b in d.live && d.live[b].side != side ensures !Matcher.Crosses(side, tick, d.live[b].tick) {
      assert Rests(b, d.live[b], pool);
    }
  }

  /** Somebody on the other side rests at a price the limit satisfies. */
  ghost predicate Reached(live: map<nat, LiveOrder>, side: Side, limit: int) {
    exists r :: r in live && live[r].side != side && if side.Buy? then live[r].tick <= limit else live[r].tick >= limit
  }

  class Venue {
    const engine: OrderBook
    const symbol: Symbol
    const wirePerTick: nat
    const firstRef: nat
    var live: map<nat, LiveOrder>
    var byUserRef: map<nat, nat>
    var clientRefs: seq<nat>
    var nextOrderRef: nat
    var md: seq<Feed.Itch>
    var oe: seq<Ledger.Ack>

    ghost function D(): Desk
      reads this
    {
      Desk(live, byUserRef, clientRefs, firstRef, wirePerTick)
    }

    /** Tables and sent messages agree with the given pool, an accepted order p being matched. */
    ghost predicate Books(pool: seq<Order>, p: Pending)
      reads this
    {
      BooksOk(D(), nextOrderRef, oe, pool, p)
    }

    ghost predicate Published(pool: seq<Order>)
      reads this
    {
      FeedIs(D(), md, pool)
    }

    ghost predicate Valid()
      reads this, engine
    {
      && engine.Valid() && 0 <= engine.minPrice
      && Books(engine.pool, NoOrder)
      && Unlocked(live)
    }

    /** The feed sent so far folds to exactly the resting orders the venue itself announced. */
    ghost predicate FeedOk()
      reads this, engine
    {
      Published(engine.pool)
    }

    constructor (name: Symbol, lo: int, hi: int, wire: nat, first: nat)
      requires 0 <= lo <= hi && wire > 0
      ensures Valid() && FeedOk() && live == map[] && fresh(engine)
      ensures symbol == name && wirePerTick == wire && oe == [] && md == [] && byUserRef == map[] && clientRefs == []
      ensures engine.minPrice == lo && engine.maxPrice == hi
              && nextOrderRef == firstRef == if first == 0 then 1 else first
    {
      engine := new OrderBook(lo, hi);
      symbol, wirePerTick := name, wire;
      firstRef := if first == 0 then 1 else first;
      nextOrderRef := if first == 0 then 1 else first;
      live, byUserRef, clientRefs, md, oe := map[], map[], [], [], [];
    }

    method DropClient(ref: nat, ghost pool: seq<Order>)
      requires DeskOk(D(), pool) && ref in live && live[ref].client
      modifies this`live, this`byUserRef, this`clientRefs
      ensures D() == Gone(old(D()), ref, clientRefs)
      ensures Removed(old(clientRefs), clientRefs, ref)
      ensures forall i :: 0 <= i < |old(clientRefs)| && old(clientRefs)[i] == ref ==>
                clientRefs == SwapRemove(old(clientRefs), i)
    {
      DeskMeans(D(), pool);
      ghost var cs := clientRefs;
      byUserRef := byUserRef - {live[ref].userRef};
      live := live - {ref};
      for i := 0 to |clientRefs|
        invariant clientRefs == cs
        invariant forall j :: 0 <= j < i ==> cs[j] != ref
      {
        if clientRefs[i] == ref {
          SwapRemoved(cs, i);
          clientRefs := clientRefs[i := clientRefs[|clientRefs| - 1]];
          clientRefs := clientRefs[..|clientRefs| - 1];
          return;
        }
      }
      assert false;
    }

    /** Takes a filled order off the tables. */
    method DropFilled(ref: nat, ghost pool: seq<Order>)
      requires DeskOk(D(), pool) && ref in live
      modifies this`live, this`byUserRef, this`clientRefs
      ensures D() == Gone(old(D()), ref, clientRefs)
      ensures old(live)[ref].client ==> Removed(old(clientRefs), clientRefs, ref)
    {
      if live[ref].client {
        DropClient(ref, pool);
      } else {
        live := live - {ref};
      }
    }

    method EmitTrade(t: Matcher.Trade, aggClient: bool, aggUser: nat, ghost p: Pending)
      requires t.restingId in live && aggClient == p.Working? && (aggClient ==> p.user == aggUser)
      modifies this`md, this`oe
      ensures md == old(md) + [Feed.OrderExecuted(t.restingId, t.qty)]
      ensures oe == old(oe) + TradeAcks(live[t.restingId], t.qty, Wire(t.price, wirePerTick), p)
      ensures oe == old(oe) + LegAcks(live, t, wirePerTick, aggClient, aggUser)
      ensures ExecsAfter(old(oe), oe)
      ensures var price := t.price * wirePerTick;
              oe == old(oe) + (if aggClient then [Ledger.Executed(aggUser, t.qty, price)] else [])
                    + (if live[t.restingId].client then [Ledger.Executed(live[t.restingId].userRef, t.qty, price)]
                       else [])
    {
      md := md + [Feed.OrderExecuted(t.restingId, t.qty)];
      if aggClient {
        oe := oe + [Ledger.Executed(aggUser, t.qty, Wire(t.price, wirePerTick))];
      }
      var lo := live[t.restingId];
      if lo.client {
        oe := oe + [Ledger.Executed(lo.userRef, t.qty, Wire(t.price, wirePerTick))];
      }
    }

    /** Books one trade of the engine: publish it, tell the clients on either side, drop a filled order. */
    method HandleTrade(t: Matcher.Trade, aggClient: bool, aggUser: nat, ghost p: Pending,
                       ghost pool: seq<Order>, ghost pool': seq<Order>)
      requires Books(pool, p) && PoolFill(D(), pool, pool', t.restingId, t.qty) && t.qty > 0
      requires t.restingFilled <==> t.qty == pool[live[t.restingId].handle].qty
      requires t.price == live[t.restingId].tick
      requires p.Working? ==> t.qty <= p.left && Matcher.Crosses(p.side, p.price, Wire(t.price, wirePerTick))
      requires aggClient == p.Working? && (aggClient ==> p.user == aggUser)
      modifies this`live, this`byUserRef, this`clientRefs, this`md, this`oe
      ensures Books(pool', After(p, t.qty))
      ensures old(Published(pool)) ==> Published(pool')
      ensures ExecsAfter(old(oe), oe) && Shrunk(old(live), live)
      ensures md == old(md) + [Print(t)] && oe == old(oe) + LegAcks(old(live), t, wirePerTick, aggClient, aggUser)
      ensures md == old(md) + [Feed.OrderExecuted(t.restingId, t.qty)]
      ensures var lo, price := old(live)[t.restingId], t.price * wirePerTick;
              oe == old(oe) + (if aggClient then [Ledger.Executed(aggUser, t.qty, price)] else [])
                    + (if lo.client then [Ledger.Executed(lo.userRef, t.qty, price)] else [])
      ensures live == if t.restingFilled then old(live) - {t.restingId} else old(live)
    {
      ghost var d := D();
      EmitTrade(t, aggClient, aggUser, p);
      if t.restingFilled {
        DropFilled(t.restingId, pool);
      }
      TradeBooks(d, nextOrderRef, old(oe), old(md), pool, pool', p, t.restingId, t.qty, clientRefs);
    }

    /** Books the i-th trade of an engine call. */
    method BookTrade(ts: seq<Matcher.Trade>, i: nat, aggClient: bool, aggUser: nat, ghost p: Pending, ghost id: nat,
                     ghost side: Side,
                     ghost limit: int, ghost pool0: seq<Order>, ghost pool: seq<Order>, ghost hits: seq<nat>)
      requires Progress(pool0, pool, hits, ts, id, side) && i < |ts| && Books(Booked(pool0, pool, hits, i), p)
      requires aggClient == p.Working?
      requires p.Working? ==>
                 p.user == aggUser && p.side == side && p.price == Wire(limit, wirePerTick) && ts[i].qty <= p.left
      requires Matcher.Crosses(side, limit, ts[i].price)
      modifies this`live, this`byUserRef, this`clientRefs, this`md, this`oe
      ensures Books(Booked(pool0, pool, hits, i + 1), After(p, ts[i].qty))
      ensures old(Published(Booked(pool0, pool, hits, i))) ==> Published(Booked(pool0, pool, hits, i + 1))
      ensures ExecsAfter(old(oe), oe) && Shrunk(old(live), live) && ts[i].restingId in old(live)
      ensures md == old(md) + [Print(ts[i])]
              && oe == old(oe) + LegAcks(old(live), ts[i], wirePerTick, aggClient, aggUser)
    {
      BookedStep(D(), pool0, pool, hits, ts, id, side, i);
      CrossWire(side, limit, ts[i].price, wirePerTick);
      HandleTrade(ts[i], aggClient, aggUser, p, Booked(pool0, pool, hits, i), Booked(pool0, pool, hits, i + 1));
    }

    /** Books all trades of one engine call, in order. */
    method BookTrades(ts: seq<Matcher.Trade>, aggClient: bool, aggUser: nat, ghost p: Pending, ghost id: nat,
                      ghost side: Side,
                      ghost limit: int, ghost pool0: seq<Order>, ghost pool: seq<Order>, ghost hits: seq<nat>)
      returns (ghost w: Pending)
      requires Books(pool0, p) && Progress(pool0, pool, hits, ts, id, side)
      requires aggClient == p.Working?
      requires p.Working? ==>
                 && p.user == aggUser && p.side == side
                 && p.price == Wire(limit, wirePerTick) && Matcher.Traded(ts) <= p.left
      requires forall i :: 0 <= i < |ts| ==> Matcher.Crosses(side, limit, ts[i].price)
      modifies this`live, this`byUserRef, this`clientRefs, this`md, this`oe
      ensures Books(pool, w) && Worked(p, w, Matcher.Traded(ts))
      ensures old(Published(pool0)) ==> Published(pool)
      ensures ExecsAfter(old(oe), oe) && Shrunk(old(live), live)
      ensures Reported(old(live), ts, |ts|, wirePerTick, aggClient, aggUser, old(md), old(oe), md, oe)
    {
      BookedEnds(D(), pool0, pool, hits, ts, id, side);
      w := p;
      ghost var total := Matcher.Traded(ts);
      ghost var rest := total;
      assert ts[0..] == ts;
      ReportStart(live, ts, wirePerTick, aggClient, aggUser, md, oe);
      for i := 0 to |ts|
        invariant Books(Booked(pool0, pool, hits, i), w)
        invariant rest == Matcher.Traded(ts[i..]) && rest <= total
        invariant Worked(p, w, total - rest)
        invariant old(Published(pool0)) ==> Published(Booked(pool0, pool, hits, i))
        invariant ExecsAfter(old(oe), oe) && Shrunk(old(live), live)
        invariant Reported(old(live), ts, i, wirePerTick, aggClient, aggUser, old(md), old(oe), md, oe)
      {
        ghost var oe1, md1, live1 := oe, md, live;
        ghost var next := Matcher.Traded(ts[i + 1..]);
        Matcher.TradedNext(ts, i);
        BookTrade(ts, i, aggClient, aggUser, w, id, side, limit, pool0, pool, hits);
        w := After(w, ts[i].qty);
        rest := next;
        ExecsTrans(old(oe), oe1, oe);
        ReportStep(old(live), live1, ts, i, wirePerTick, aggClient, aggUser, old(md), old(oe), md1, oe1);
      }
      assert ts[|ts|..] == [] && rest == 0;
      BooksSame(D(), nextOrderRef, oe, Booked(pool0, pool, hits, |hits|), pool, w);
    }

    method Enlist(ref: nat, lo: LiveOrder)
      modifies this`live, this`byUserRef, this`clientRefs
      ensures D() == Joined(old(D()), ref, lo)
    {
      live := live[ref := lo];
      if lo.client {
        byUserRef := byUserRef[lo.userRef := ref];
        clientRefs := clientRefs + [ref];
      }
    }

    /** Announces and tracks an order the engine just put to rest at slot h. */
    method Announce(ref: nat, lo: LiveOrder, qty: nat, ghost pool: seq<Order>, ghost p: Pending)
      requires Books(pool, p) && PoolJoin(pool, engine.pool, ref, lo, qty) && qty > 0 && lo.tick >= 0
      requires ref !in live && firstRef <= ref < nextOrderRef && Unlocked(live) && Uncrossed(pool, lo.side, lo.tick)
      requires if lo.client then p.Working? && p.user == lo.userRef && p.side == lo.side
               && p.price == Wire(lo.tick, wirePerTick) && p.left == qty
               else p.NoOrder?
      modifies this`live, this`byUserRef, this`clientRefs, this`md
      ensures Books(engine.pool, NoOrder) && Unlocked(live) && oe == old(oe) && nextOrderRef == old(nextOrderRef)
      ensures old(Published(pool)) ==> Published(engine.pool)
      ensures md == old(md) + [Feed.AddOrder(ref, lo.side, qty, Wire(lo.tick, wirePerTick))]
              && D() == Joined(old(D()), ref, lo)
    {
      ghost var d := D();
      UncrossedLive(D(), pool, lo.side, lo.tick);
      UnlockedJoin(live, ref, lo);
      md := md + [Feed.AddOrder(ref, lo.side, qty, Wire(lo.tick, wirePerTick))];
      Enlist(ref, lo);
      JoinBooks(d, nextOrderRef, oe, pool, engine.pool, p, ref, lo, qty);
      if FeedIs(d, old(md), pool) {
        AnnounceFeed(d, old(md), pool, engine.pool, ref, lo, qty);
      }
    }

    /** What the reference matcher makes of an order, given the opposite side as it rests. */
    ghost function Matched(ref: nat, side: Side, tick: int, qty: nat): Matcher.Outcome
      reads this, engine
    {
      Matcher.Match(engine.Book(Opposite(side)), ref, side, tick, qty)
    }

    /** Shares still open of each live order. */
    ghost function Held(): map<nat, nat>
      reads this, engine
    {
      Quantities(live, engine.pool)
    }

    /** The resting orders are those that working m left behind. */
    ghost predicate LeftBy(m: Matcher.Outcome, side: Side, live0: map<nat, LiveOrder>, q0: map<nat, nat>)
      reads this, engine
    {
      Leaves(m, side, engine.Book(Opposite(side)), live0, q0, live, Held())
    }

    /** Runs the engine's match and books every trade it reports. */
    method MatchAndBook(ref: nat, side: Side, tick: int, qty: nat, client: bool, user: nat, ghost p: Pending)
      returns (rem: nat, ghost w: Pending)
      requires engine.Valid() && 0 <= engine.minPrice && Books(engine.pool, p) && Unlocked(live)
      requires qty > 0 && engine.InRange(tick) && client == p.Working?
      requires client ==> p == Working(user, side, Wire(tick, wirePerTick), qty)
      modifies this`live, this`byUserRef, this`clientRefs, this`md, this`oe, engine
      ensures engine.Valid() && |engine.pool| == |old(engine.pool)| && Books(engine.pool, w) && Unlocked(live)
      ensures rem <= qty && Worked(p, w, qty - rem) && nextOrderRef == old(nextOrderRef)
      ensures rem > 0 ==> Uncrossed(engine.pool, side, tick)
      ensures old(FeedOk()) ==> FeedOk()
      ensures ExecsAfter(old(oe), oe) && Shrunk(old(live), live)
      ensures var m := old(Matched(ref, side, tick, qty));
              && rem == m.rem && Processed(old(live), m, wirePerTick, client, user, [], [], old(md), old(oe), md, oe)
              && LeftBy(m, side, old(live), old(Held()))
    {
      ghost var pool0 := engine.pool;
      var ts;
      ghost var hits;
      rem, ts, hits := engine.Match(ref, side, tick, qty);
      w := BookTrades(ts, client, user, p, ref, side, tick, pool0, engine.pool, hits);
      UnlockedShrunk(old(live), live);
      MatchKeepsSide(old(D()), D(), pool0, engine.pool, hits, ts, ref, side);
      ReportEnd(old(live), ts, wirePerTick, client, user, old(md), old(oe), md, oe);
    }

    /** Matches an order and rests what is left of it. */
    method ProcessOrder(ref: nat, side: Side, tick: int, qty: nat, client: bool, user: nat, ghost p: Pending)
      requires engine.Valid() && 0 <= engine.minPrice && |engine.pool| < NIL && Books(engine.pool, p) && Unlocked(live)
      requires ref !in live && firstRef <= ref < nextOrderRef
      requires client ==> qty > 0 && engine.InRange(tick) && p == Working(user, side, Wire(tick, wirePerTick), qty)
      requires !client ==> p.NoOrder?
      modifies this, engine
      ensures engine.Valid() && Books(engine.pool, NoOrder) && Unlocked(live)
      ensures old(FeedOk()) ==> FeedOk()
      ensures ExecsAfter(old(oe), oe) && nextOrderRef == old(nextOrderRef)
      ensures qty == 0 || !engine.InRange(tick) ==>
                md == old(md) && oe == old(oe) && live == old(live) && Held() == old(Held())
      ensures qty > 0 && engine.InRange(tick) ==>
                var m := old(Matched(ref, side, tick, qty));
                LeftBy(m, side, old(live), old(Held())) &&
                Processed(old(live), m, wirePerTick, client, user, Remainder(m, ref, side, Wire(tick, wirePerTick)),
                          [], old(md), old(oe), md, oe)
    {
      if qty == 0 || !engine.InRange(tick) {
        return;
      }
      ghost var m := Matched(ref, side, tick, qty);
      var rem;
      ghost var w;
      rem, w := MatchAndBook(ref, side, tick, qty, client, user, p);
      ProcessedThenFeed(old(live), m, wirePerTick, client, user, Remainder(m, ref, side, Wire(tick, wirePerTick)),
                        old(md), old(oe), md, oe);
      RestRemainder(ref, side, tick, rem, client, user, w, m, old(live), old(Held()));
    }

    /** Rests and announces what is left, if anything. */
    method RestRemainder(ref: nat, side: Side, tick: int, rem: nat, client: bool, user: nat, ghost w: Pending,
                         ghost m: Matcher.Outcome, ghost live0: map<nat, LiveOrder>, ghost q0: map<nat, nat>)
      requires engine.Valid() && 0 <= engine.minPrice && |engine.pool| < NIL && Books(engine.pool, w) && Unlocked(live)
      requires ref !in live && firstRef <= ref < nextOrderRef && engine.InRange(tick) && client == w.Working?
      requires client ==> w == Working(user, side, Wire(tick, wirePerTick), rem)
      requires rem > 0 ==> Uncrossed(engine.pool, side, tick)
      requires LeftBy(m, side, live0, q0)
      modifies this, engine
      ensures LeftBy(m, side, live0, q0)
      ensures engine.Valid() && Books(engine.pool, NoOrder) && Unlocked(live)
      ensures old(FeedOk()) ==> FeedOk()
      ensures oe == old(oe) && nextOrderRef == old(nextOrderRef)
      ensures md == old(md) + if rem > 0 then [Feed.AddOrder(ref, side, rem, Wire(tick, wirePerTick))] else []
    {
      if rem > 0 {
        ghost var d, mid := D(), engine.pool;
        var h := engine.Place(ref, side, tick, rem);
        var lo := LiveOrder(h, side, tick, client, if client then user else 0);
        Announce(ref, lo, rem, mid, w);
        JoinKeepsSide(live0, q0, d, D(), mid, engine.pool, side, ref, lo, rem);
      } else {
        DoneBooks(D(), nextOrderRef, oe, engine.pool, w);
      }
    }

    /** Matches an immediate-or-cancel order and cancels what is left of it. */
    method ProcessImmediate(ref: nat, side: Side, tick: int, qty: nat, user: nat, ghost p: Pending)
      requires engine.Valid() && 0 <= engine.minPrice && Books(engine.pool, p) && Unlocked(live)
      requires qty > 0 && engine.InRange(tick) && p == Working(user, side, Wire(tick, wirePerTick), qty)
      modifies this, engine
      ensures engine.Valid() && Books(engine.pool, NoOrder) && Unlocked(live)
      ensures old(FeedOk()) ==> FeedOk()
      ensures nextOrderRef == old(nextOrderRef) && Shrunk(old(live), live)
      ensures var m := old(Matched(ref, side, tick, qty));
              LeftBy(m, side, old(live), old(Held())) &&
              Processed(old(live), m, wirePerTick, true, user, [], Expiry(m, user), old(md), old(oe), md, oe)
    {
      var rem;
      ghost var w;
      ghost var m := Matched(ref, side, tick, qty);
      rem, w := MatchAndBook(ref, side, tick, qty, true, user, p);
      Expire(user, rem, w, m, old(live), old(md), old(oe));
    }

    /** Cancels what an immediate order could not trade. */
    method Expire(user: nat, rem: nat, ghost w: Pending, ghost m: Matcher.Outcome, ghost live0: map<nat, LiveOrder>,
                  ghost md0: seq<Feed.Itch>, ghost oe0: seq<Ledger.Ack>)
      requires Books(engine.pool, w) && w.Working? && w.user == user && w.left == rem == m.rem
      requires Processed(live0, m, wirePerTick, true, user, [], [], md0, oe0, md, oe)
      modifies this`oe
      ensures Books(engine.pool, NoOrder) && (old(FeedOk()) ==> FeedOk())
      ensures Processed(live0, m, wirePerTick, true, user, [], Expiry(m, user), md0, oe0, md, oe)
    {
      ProcessedThenAck(live0, m, wirePerTick, true, user, Expiry(m, user), md0, oe0, md, oe);
      if rem > 0 {
        ExpireBooks(D(), nextOrderRef, oe, engine.pool, w);
        oe := oe + [Ledger.Canceled(user, rem, Ledger.Ioc)];
      } else {
        DoneBooks(D(), nextOrderRef, oe, engine.pool, w);
      }
    }

    /** A wire price has at most one tick, its quotient. */
    lemma OnlyTick(wire: nat)
      requires wirePerTick > 0
      ensures forall k :: Wire(k, wirePerTick) == wire ==> wire % wirePerTick == 0 && wire / wirePerTick == k
    {
      forall k | Wire(k, wirePerTick) == wire ensures wire % wirePerTick == 0 && wire / wirePerTick == k {
        Arith.MulDivMod(k, wirePerTick);
      }
    }

    /** The tick of a wire price on the grid and inside the venue's range. */
    function ValidPrice(wire: nat): (t: Option<int>)
      requires wirePerTick > 0
      ensures t.Some? ==> engine.InRange(t.value) && Wire(t.value, wirePerTick) == wire
      ensures t.None? ==> forall k :: engine.InRange(k) ==> Wire(k, wirePerTick) != wire
    {
      OnlyTick(wire);
      if wire % wirePerTick != 0 then None
      else if wire / wirePerTick < engine.minPrice || wire / wirePerTick > engine.maxPrice then None
      else Some(wire / wirePerTick)
    }

    method Refuse(a: Ledger.Ack)
      requires Valid() && (a.Rejected? || a.CancelReject?)
      modifies this`oe
      ensures Valid() && oe == old(oe) + [a] && (old(FeedOk()) ==> FeedOk()) && Held() == old(Held())
    {
      RefuseBooks(D(), nextOrderRef, oe, engine.pool, a);
      oe := oe + [a];
    }

    /** Some tick in the venue's range has this wire price. */
    ghost predicate OnGrid(wire: nat) {
      exists k :: engine.minPrice <= k <= engine.maxPrice && Wire(k, wirePerTick) == wire
    }

    /**
     * A new order. It is refused for an unknown side, else for no shares, else for another symbol, else for
     * a price off the grid, and then nothing else happens; otherwise it is accepted, a buy exactly for side
     * B, and worked.
     */
    method OnEnterOrder(o: EnterOrder)
      requires Valid() && |engine.pool| < NIL && o.user > 0 && o.user !in byUserRef
      modifies this, engine
      ensures Valid() && (old(FeedOk()) ==> FeedOk())
      ensures Answered(o, old(oe), oe)
      ensures var why :=
                if o.side != B && o.side != S && o.side != SShort && o.side != SExempt then Some(Ledger.InvalidSide)
                else if o.qty == 0 then Some(Ledger.InvalidQuantity)
                else if o.symbol != symbol then Some(Ledger.InvalidSymbol)
                else if !OnGrid(o.price) then Some(Ledger.InvalidPrice)
                else None;
              if why.Some? then
                && oe == old(oe) + [Ledger.Rejected(o.user, why.value)]
                && md == old(md) && live == old(live) && Held() == old(Held())
              else
                var side, tick := if o.side == B then Buy else Sell, o.price / wirePerTick;
                && |oe| > |old(oe)| && oe[|old(oe)|] == Ledger.Accepted(o.user, side, o.price, o.qty, o.ioc)
                && Served(o, side, old(Matched(nextOrderRef, side, tick, o.qty)), old(nextOrderRef), old(live),
                          old(md), old(oe), md, oe)
                && (o.ioc ==> Shrunk(old(live), live))
                && LeftBy(old(Matched(nextOrderRef, side, tick, o.qty)), side, old(live), old(Held()))
    {
      var side, tick := ParseSide(o.side), ValidPrice(o.price);
      var why: Option<Ledger.RejectReason> := None;
      if side.None? {
        why := Some(Ledger.InvalidSide);
      } else if o.qty == 0 {
        why := Some(Ledger.InvalidQuantity);
      } else if o.symbol != symbol {
        why := Some(Ledger.InvalidSymbol);
      } else if tick.None? {
        why := Some(Ledger.InvalidPrice);
      }
      if why.Some? {
        Refuse(Ledger.Rejected(o.user, why.value));
        return;
      }
      Enter(o, side.value, tick.value);
    }

    /** Allocates the next order ref. */
    method NewRef(ghost pool: seq<Order>, ghost p: Pending) returns (ref: nat)
      requires Books(pool, p)
      modifies this`nextOrderRef
      ensures Books(pool, p) && firstRef <= ref < nextOrderRef && ref !in live && ref == old(nextOrderRef)
    {
      ref := nextOrderRef;
      nextOrderRef := nextOrderRef + 1;
    }

    /** Allocates the next order ref and tells the client. */
    method Accept(a: Ledger.Ack) returns (ref: nat)
      requires Valid() && a.Accepted? && a.user !in byUserRef && a.qty > 0
      modifies this`nextOrderRef, this`oe
      ensures Books(engine.pool, Working(a.user, a.side, a.price, a.qty)) && oe == old(oe) + [a]
      ensures firstRef <= ref < nextOrderRef && ref !in live && ref == old(nextOrderRef)
      ensures old(FeedOk()) ==> FeedOk()
    {
      ref := NewRef(engine.pool, NoOrder);
      AcceptBooks(D(), nextOrderRef, oe, engine.pool, a);
      oe := oe + [a];
    }

    /**
     * All that an accepted order causes to be sent: the accept, one pair of reports per trade of the
     * reference matcher, and the remainder's fate, resting or cancelled.
     */
    ghost predicate Served(o: EnterOrder, side: Side, m: Matcher.Outcome, ref: nat, live0: map<nat, LiveOrder>,
                           md0: seq<Feed.Itch>, oe0: seq<Ledger.Ack>, md1: seq<Feed.Itch>, oe1: seq<Ledger.Ack>)
    {
      Processed(live0, m, wirePerTick, true, o.user, if o.ioc then [] else Remainder(m, ref, side, o.price),
                if o.ioc then Expiry(m, o.user) else [], md0,
                oe0 + [Ledger.Accepted(o.user, side, o.price, o.qty, o.ioc)], md1, oe1)
    }

    /** An order that passed every check is accepted, then matched. */
    method Enter(o: EnterOrder, side: Side, tick: int)
      requires Valid() && |engine.pool| < NIL && o.user !in byUserRef && o.qty > 0
      requires engine.InRange(tick) && Wire(tick, wirePerTick) == o.price
      modifies this, engine
      ensures Valid() && (old(FeedOk()) ==> FeedOk())
      ensures Served(o, side, old(Matched(nextOrderRef, side, tick, o.qty)), old(nextOrderRef), old(live), old(md),
                     old(oe), md, oe)
      ensures var was := old(oe) + [Ledger.Accepted(o.user, side, o.price, o.qty, o.ioc)];
              if o.ioc then LapsesAfter(was, oe, o.user) else ExecsAfter(was, oe)
      ensures o.ioc ==> Shrunk(old(live), live)
      ensures LeftBy(old(Matched(nextOrderRef, side, tick, o.qty)), side, old(live), old(Held()))
    {
      var ref := Accept(Ledger.Accepted(o.user, side, o.price, o.qty, o.ioc));
      ghost var p := Working(o.user, side, o.price, o.qty);
      if o.ioc {
        ghost var m, md0, oe0 := Matched(ref, side, tick, o.qty), md, oe;
        ProcessImmediate(ref, side, tick, o.qty, o.user, p);
        ImmediateLapses(old(live), m, wirePerTick, o.user, md0, oe0, md, oe);
      } else {
        ProcessOrder(ref, side, tick, o.qty, true, o.user, p);
      }
    }

    method InjectSynthetic(side: Side, tick: int, qty: nat) returns (ref: nat)
      requires Valid() && |engine.pool| < NIL
      modifies this, engine
      ensures Valid() && (old(FeedOk()) ==> FeedOk())
      ensures ExecsAfter(old(oe), oe) && ref == old(nextOrderRef)
      ensures qty == 0 || !engine.InRange(tick) ==>
                md == old(md) && oe == old(oe) && live == old(live) && Held() == old(Held())
      ensures qty > 0 && engine.InRange(tick) ==>
                var m := old(Matched(nextOrderRef, side, tick, qty));
                LeftBy(m, side, old(live), old(Held())) &&
                Processed(old(live), m, wirePerTick, false, 0, Remainder(m, ref, side, Wire(tick, wirePerTick)), [],
                          old(md), old(oe), md, oe)
    {
      ref := NewRef(engine.pool, NoOrder);
      ProcessOrder(ref, side, tick, qty, false, 0, NoOrder);
    }

    /** Shares left of a live order. */
    function QtyOf(ref: nat): nat
      requires ref in live && live[ref].handle < |engine.pool|
      reads this, engine
    {
      engine.pool[live[ref].handle].qty
    }

    /** Every live order holds shares in the slot its entry names. */
    lemma LiveQty(ref: nat)
      requires Valid() && ref in live
      ensures live[ref].handle < |engine.pool| && QtyOf(ref) > 0
      ensures Rests(ref, live[ref], engine.pool) && ref < nextOrderRef && UsersOk(live, byUserRef, clientRefs)
      ensures live[ref].client ==>
                ref >= firstRef && live[ref].userRef in byUserRef && byUserRef[live[ref].userRef] == ref
      ensures engine.InRange(live[ref].tick)
    {
      DeskMeans(D(), engine.pool);
      assert Rests(ref, live[ref], engine.pool);
      engine.RestingInRange(live[ref].handle);
    }

    /** Removes shares of a live order from the engine; a full removal cancels it. */
    method EngineTake(ref: nat, qty: nat)
      requires Valid() && ref in live && live[ref].handle < |engine.pool| && 0 < qty <= QtyOf(ref)
      modifies engine
      ensures engine.Valid() && PoolFill(D(), old(engine.pool), engine.pool, ref, qty)
      ensures old(QtyOf(ref)) == qty ==> Dequeued(old(engine.Snapshot()), engine.Snapshot(), live[ref].handle)
      ensures old(QtyOf(ref)) > qty ==> engine.bidQ == old(engine.bidQ) && engine.askQ == old(engine.askQ)
      ensures old(QtyOf(ref)) == qty ==>
                var s := Opposite(old(engine.pool)[live[ref].handle].side); engine.Best(s) == old(engine.Best(s))
    {
      var h := live[ref].handle;
      var cur := engine.pool[h].qty;
      if qty >= cur {
        var _ := engine.Cancel(h);
      } else {
        var _ := engine.Reduce(h, cur - qty);
      }
    }

    /** A client order loses shares: engine, tables, ledger and feed move together. */
    method TakeFromClient(ref: nat, qty: nat, a: Ledger.Ack, m: Feed.Itch)
      requires Valid() && ref in live && live[ref].client && live[ref].handle < |engine.pool| && 0 < qty <= QtyOf(ref)
      requires Takes(a, live[ref].userRef, qty, Wire(live[ref].tick, wirePerTick))
      requires m == Feed.OrderExecuted(ref, qty) || m == Feed.OrderCancel(ref, qty)
               || (m == Feed.OrderDelete(ref) && qty == QtyOf(ref))
      modifies this`live, this`byUserRef, this`clientRefs, this`md, this`oe, engine
      ensures Valid() && (old(FeedOk()) ==> FeedOk())
      ensures D() == FillDesk(old(D()), old(engine.pool), ref, qty, clientRefs)
      ensures PoolFill(old(D()), old(engine.pool), engine.pool, ref, qty)
      ensures oe == old(oe) + [a] && md == old(md) + [m]
      ensures if old(QtyOf(ref)) == qty
              then Dequeued(old(engine.Snapshot()), engine.Snapshot(), old(live)[ref].handle)
                   && Removed(old(clientRefs), clientRefs, ref)
                   && forall i :: 0 <= i < |old(clientRefs)| && old(clientRefs)[i] == ref ==>
                        clientRefs == SwapRemove(old(clientRefs), i)
              else engine.bidQ == old(engine.bidQ) && engine.askQ == old(engine.askQ)
    {
      ghost var d, pool := D(), engine.pool;
      var full := qty >= QtyOf(ref);
      EngineTake(ref, qty);
      md := md + [m];
      oe := oe + [a];
      if full {
        DropClient(ref, pool);
      }
      FillClientBooks(d, nextOrderRef, old(oe), pool, engine.pool, NoOrder, ref, qty, clientRefs, a);
      UnlockedShrunk(old(live), live);
      if FeedIs(d, old(md), pool) {
        TakeFeed(d, old(md), pool, engine.pool, ref, qty, clientRefs, m);
      }
    }

    method FillClient(ref: nat, qty: nat)
      requires Valid() && ref in live && live[ref].client && live[ref].handle < |engine.pool| && 0 < qty <= QtyOf(ref)
      modifies this`live, this`byUserRef, this`clientRefs, this`md, this`oe, engine
      ensures Valid() && (old(FeedOk()) ==> FeedOk())
      ensures D() == FillDesk(old(D()), old(engine.pool), ref, qty, clientRefs)
      ensures PoolFill(old(D()), old(engine.pool), engine.pool, ref, qty)
      ensures oe == old(oe) + [Ledger.Executed(old(live)[ref].userRef, qty, Wire(old(live)[ref].tick, wirePerTick))]
      ensures if old(QtyOf(ref)) == qty
              then Dequeued(old(engine.Snapshot()), engine.Snapshot(), old(live)[ref].handle)
                   && Removed(old(clientRefs), clientRefs, ref)
                   && forall i :: 0 <= i < |old(clientRefs)| && old(clientRefs)[i] == ref ==>
                        clientRefs == SwapRemove(old(clientRefs), i)
              else engine.bidQ == old(engine.bidQ) && engine.askQ == old(engine.askQ)
    {
      TakeFromClient(ref, qty, Ledger.Executed(live[ref].userRef, qty, Wire(live[ref].tick, wirePerTick)),
                     Feed.OrderExecuted(ref, qty));
    }

    /** Cancels an order down to `intended` shares; 0 cancels it outright. */
    method OnCancelOrder(user: nat, intended: nat)
      requires Valid()
      modifies this, engine
      ensures Valid() && (old(FeedOk()) ==> FeedOk())
      ensures var l := old(LedgerOf(D(), engine.pool));
              oe == old(oe) + [if user in l && intended < l[user].qty
                               then Ledger.Canceled(user, l[user].qty - intended, Ledger.UserRequested)
                               else Ledger.CancelReject(user)]
      ensures user in old(byUserRef) && intended < OpenIn(old(Held()), old(byUserRef)[user]) ==>
                var ref := old(byUserRef)[user];
                var gone := OpenIn(old(Held()), ref) - intended;
                && md == old(md) + [if intended == 0 then Feed.OrderDelete(ref) else Feed.OrderCancel(ref, gone)]
                && Held() == Less(old(Held()), ref, gone)
      ensures user !in old(byUserRef) || intended >= OpenIn(old(Held()), old(byUserRef)[user]) ==>
                md == old(md) && live == old(live) && Held() == old(Held())
    {
      if user !in byUserRef {
        Refuse(Ledger.CancelReject(user));
        return;
      }
      CancelOpen(user, byUserRef[user], intended);
    }

    /** An open order is live, and ledger, engine and quantities agree on its shares. */
    lemma OpenHeld(user: nat)
      requires Valid() && user in byUserRef
      ensures var ref, l := byUserRef[user], LedgerOf(D(), engine.pool);
              && ref in live && live[ref].client && live[ref].userRef == user && live[ref].handle < |engine.pool|
              && user in l && l[user].qty == QtyOf(ref) == OpenIn(Held(), ref)
    {
      DeskMeans(D(), engine.pool);
      LiveQty(byUserRef[user]);
      ClientInLedger(D(), engine.pool, byUserRef[user]);
    }

    /** A cancel for an open order. */
    method CancelOpen(user: nat, ref: nat, intended: nat)
      requires Valid() && user in byUserRef && byUserRef[user] == ref
      modifies this, engine
      ensures Valid() && (old(FeedOk()) ==> FeedOk())
      ensures var l := old(LedgerOf(D(), engine.pool)); user in l && l[user].qty == OpenIn(old(Held()), ref)
      ensures var open := OpenIn(old(Held()), ref);
              if intended < open then
                && oe == old(oe) + [Ledger.Canceled(user, open - intended, Ledger.UserRequested)]
                && md == old(md) + [if intended == 0 then Feed.OrderDelete(ref)
                                    else Feed.OrderCancel(ref, open - intended)]
                && Held() == Less(old(Held()), ref, open - intended)
              else
                && oe == old(oe) + [Ledger.CancelReject(user)]
                && md == old(md) && live == old(live) && Held() == old(Held())
    {
      OpenHeld(user);
      if intended >= QtyOf(ref) {
        Refuse(Ledger.CancelReject(user));
      } else {
        CancelDown(ref, intended);
      }
    }

    /** Takes a client order down to `intended` shares; the feed hears a delete or a partial cancel. */
    method CancelDown(ref: nat, intended: nat)
      requires Valid() && ref in live && live[ref].client && live[ref].handle < |engine.pool| && intended < QtyOf(ref)
      modifies this, engine
      ensures Valid() && (old(FeedOk()) ==> FeedOk())
      ensures var gone := old(QtyOf(ref)) - intended;
              && oe == old(oe) + [Ledger.Canceled(old(live)[ref].userRef, gone, Ledger.UserRequested)]
              && md == old(md) + [if intended == 0 then Feed.OrderDelete(ref) else Feed.OrderCancel(ref, gone)]
              && Held() == Less(old(Held()), ref, gone)
    {
      var gone := QtyOf(ref) - intended;
      var m := if intended == 0 then Feed.OrderDelete(ref) else Feed.OrderCancel(ref, gone);
      TakeFromClient(ref, gone, Ledger.Canceled(live[ref].userRef, gone, Ledger.UserRequested), m);
      FillQuantities(old(D()), D(), old(engine.pool), engine.pool, ref, gone);
    }

    /** Withdraws an order; the tables stay in step exactly when it is not a client's, whose entries nobody clears. */
    method CancelSynthetic(ref: nat)
      requires Valid()
      modifies this, engine
      ensures Valid() <==> ref !in old(live) || !old(live)[ref].client
      ensures (old(FeedOk()) ==> FeedOk()) && oe == old(oe)
      ensures live == old(live) - {ref} && Held() == old(Held()) - {ref}
      ensures md == old(md) + if ref in old(live) then [Feed.OrderDelete(ref)] else []
    {
      if ref !in live {
        return;
      }
      LiveQty(ref);
      ghost var d, pool, qty := D(), engine.pool, QtyOf(ref);
      EngineTake(ref, QtyOf(ref));
      live := live - {ref};
      md := md + [Feed.OrderDelete(ref)];
      FillQuantities(d, D(), pool, engine.pool, ref, qty);
      if FeedIs(d, old(md), pool) {
        WithdrawFeed(d, D(), old(md), pool, engine.pool, ref);
      }
      WithdrawBooks(d, D(), nextOrderRef, oe, pool, engine.pool, ref);
      UnlockedShrunk(old(live), live);
    }

    predicate IsMarketable(side: Side, tick: int)
      reads engine
    {
      if side.Buy? then engine.bestAsk != NO_PRICE && tick >= engine.bestAsk
      else engine.bestBid != NO_PRICE && tick <= engine.bestBid
    }

    /** The engine's best price tells whether anybody can be traded with. */
    lemma MarketableMeans(side: Side, tick: int)
      requires Valid()
      ensures IsMarketable(side, tick) <==> Reached(live, side, tick)
    {
      engine.Marketable(side, tick);
      DeskMeans(D(), engine.pool);
      if h :| 0 <= h < |engine.pool| && engine.pool[h].qty > 0 && engine.pool[h].side != side
              && Matcher.Crosses(side, tick, engine.pool[h].price) {
        var r := engine.pool[h].id;
        assert Rests(r, live[r], engine.pool);
      }
      if r :| r in live && live[r].side != side && if side.Buy? then live[r].tick <= tick else live[r].tick >= tick {
        assert Rests(r, live[r], engine.pool);
      }
    }

    /** Takes the order a replace retires off the book and tells the client; the feed still owes its delete. */
    method Retire(ref: nat, a: Ledger.Ack)
      requires Valid() && ref in live && live[ref].client
      requires a.Replaced? && a.orig == live[ref].userRef && a.side == live[ref].side && a.qty > 0
      requires a.user !in byUserRef || a.user == a.orig
      modifies this`live, this`byUserRef, this`clientRefs, this`oe, engine
      ensures engine.Valid() && |engine.pool| == |old(engine.pool)| && Unlocked(live)
      ensures Books(engine.pool, Working(a.user, a.side, a.price, a.qty)) && oe == old(oe) + [a]
      ensures old(FeedOk()) ==> FeedIs(D(), md + [Feed.OrderDelete(ref)], engine.pool)
      ensures engine.Best(Opposite(a.side)) == old(engine.Best(Opposite(a.side)))
      ensures engine.Book(Opposite(a.side)) == old(engine.Book(Opposite(a.side))) && live == old(live) - {ref}
      ensures Held() == old(Held()) - {ref}
    {
      LiveQty(ref);
      ghost var d, pool, qty := D(), engine.pool, QtyOf(ref);
      TakeOff(ref);
      oe := oe + [a];
      ReplaceBooks(d, nextOrderRef, old(oe), pool, engine.pool, ref, clientRefs, a);
      UnlockedShrunk(old(live), live);
      if FeedIs(d, md, pool) {
        LeaveFeed(d, md, pool, engine.pool, ref, clientRefs);
      }
    }

    /** Takes a client order off the engine and the tables; the other side does not notice. */
    method TakeOff(ref: nat)
      requires Valid() && ref in live && live[ref].client && live[ref].handle < |engine.pool| && QtyOf(ref) > 0
      modifies this`live, this`byUserRef, this`clientRefs, engine
      ensures engine.Valid() && PoolFill(old(D()), old(engine.pool), engine.pool, ref, old(QtyOf(ref)))
      ensures D() == Gone(old(D()), ref, clientRefs) && Removed(old(clientRefs), clientRefs, ref)
              && Held() == old(Held()) - {ref}
      ensures var s := Opposite(old(live)[ref].side);
              engine.Best(s) == old(engine.Best(s)) && engine.Book(s) == old(engine.Book(s))
    {
      LiveQty(ref);
      ghost var d, pool, s := D(), engine.pool, engine.Snapshot();
      EngineTake(ref, QtyOf(ref));
      OtherSideFlat(s, engine.Snapshot(), live[ref].handle);
      DropClient(ref, pool);
      FillQuantities(d, D(), pool, engine.pool, ref, old(QtyOf(ref)));
    }

    /** Adds an order that cannot trade: nothing is matched, it just rests. */
    method AddQuietly(ref: nat, side: Side, tick: int, qty: nat, ghost p: Pending, ghost feed: seq<Feed.Itch>)
      returns (h: nat, ghost mid: seq<Order>)
      requires engine.Valid() && 0 <= engine.minPrice && |engine.pool| < NIL && Books(engine.pool, p)
      requires !IsMarketable(side, tick) && qty > 0 && engine.InRange(tick)
      modifies engine
      ensures engine.Valid() && Books(mid, p) && Placed(mid, engine.pool, h, ref, side, tick, qty)
      ensures forall b :: b in live && live[b].side != side ==> !Matcher.Crosses(side, tick, live[b].tick)
      ensures FeedIs(D(), feed, old(engine.pool)) ==> FeedIs(D(), feed, mid)
      ensures Leaves(old(Matched(ref, side, tick, qty)), side, engine.Book(Opposite(side)), live, old(Held()), live,
                     Quantities(live, mid))
    {
      engine.NotMarketable(ref, side, tick, qty);
      var ts;
      ghost var hits, rem;
      h, ts, hits, mid, rem := engine.Add(ref, side, tick, qty);
      BooksSame(D(), nextOrderRef, oe, old(engine.pool), mid, p);
      UncrossedLive(D(), mid, side, tick);
      SameKeepsSide(D(), old(engine.pool), mid, side);
    }

    /** Rests a replacement that cannot trade and publishes it as one replace message. */
    method RestReplacement(origRef: nat, newRef: nat, side: Side, tick: int, qty: nat, user: nat, ghost p: Pending,
                           ghost shown: bool, ghost feed: Feed.Book)
      requires engine.Valid() && 0 <= engine.minPrice && |engine.pool| < NIL && Books(engine.pool, p) && Unlocked(live)
      requires newRef !in live && firstRef <= newRef < nextOrderRef && !IsMarketable(side, tick)
      requires qty > 0 && engine.InRange(tick) && p == Working(user, side, Wire(tick, wirePerTick), qty)
      requires shown ==> FeedIs(D(), md + [Feed.OrderDelete(origRef)], engine.pool)
      requires shown ==> Feed.Shows(md, feed) && origRef in feed && feed[origRef].side == side
      modifies this, engine
      ensures engine.Valid() && Books(engine.pool, NoOrder) && Unlocked(live) && oe == old(oe)
      ensures shown ==> FeedOk()
      ensures md == old(md) + [Feed.OrderReplace(origRef, newRef, qty, Wire(tick, wirePerTick))]
      ensures LeftBy(old(Matched(newRef, side, tick, qty)), side, old(live), old(Held()))
    {
      ghost var m, q0 := Matched(newRef, side, tick, qty), Held();
      var h;
      ghost var mid;
      h, mid := AddQuietly(newRef, side, tick, qty, p, md + [Feed.OrderDelete(origRef)]);
      ListReplacement(origRef, newRef, LiveOrder(h, side, tick, true, user), qty, p, shown, feed, mid, m, q0);
    }

    /** Tracks a replacement the engine put to rest and publishes it. */
    method ListReplacement(origRef: nat, newRef: nat, lo: LiveOrder, qty: nat, ghost p: Pending, ghost shown: bool,
                           ghost feed: Feed.Book,
                           ghost mid: seq<Order>, ghost m: Matcher.Outcome, ghost q0: map<nat, nat>)
      requires Books(mid, p) && PoolJoin(mid, engine.pool, newRef, lo, qty) && Unlocked(live) && qty > 0 && lo.client
               && lo.tick >= 0
      requires newRef !in live && firstRef <= newRef < nextOrderRef
               && p == Working(lo.userRef, lo.side, Wire(lo.tick, wirePerTick), qty)
      requires forall b :: b in live && live[b].side != lo.side ==> !Matcher.Crosses(lo.side, lo.tick, live[b].tick)
      requires shown ==> FeedIs(D(), md + [Feed.OrderDelete(origRef)], mid)
      requires shown ==> Feed.Shows(md, feed) && origRef in feed && feed[origRef].side == lo.side
      requires Leaves(m, lo.side, engine.Book(Opposite(lo.side)), live, q0, live, Quantities(live, mid))
      modifies this`live, this`byUserRef, this`clientRefs, this`md
      ensures Books(engine.pool, NoOrder) && Unlocked(live) && (shown ==> FeedOk())
      ensures md == old(md) + [Feed.OrderReplace(origRef, newRef, qty, Wire(lo.tick, wirePerTick))]
      ensures LeftBy(m, lo.side, old(live), q0)
    {
      ghost var d := D();
      UnlockedJoin(live, newRef, lo);
      md := md + [Feed.OrderReplace(origRef, newRef, qty, Wire(lo.tick, wirePerTick))];
      Enlist(newRef, lo);
      JoinBooks(d, nextOrderRef, oe, mid, engine.pool, p, newRef, lo, qty);
      JoinKeepsSide(old(live), q0, d, D(), mid, engine.pool, lo.side, newRef, lo, qty);
      if shown {
        AnnounceFeed(d, old(md) + [Feed.OrderDelete(origRef)], mid, engine.pool, newRef, lo, qty);
        ReplaceFeed(D(), old(md), feed, engine.pool, origRef, newRef, lo.side, qty, Wire(lo.tick, wirePerTick));
      }
    }

    /** Publishes the delete and sends a replacement that can trade through the matcher. */
    method Resubmit(origRef: nat, newRef: nat, side: Side, tick: int, qty: nat, user: nat, ghost p: Pending,
                    ghost shown: bool)
      requires engine.Valid() && 0 <= engine.minPrice && |engine.pool| < NIL && Books(engine.pool, p) && Unlocked(live)
      requires newRef !in live && firstRef <= newRef < nextOrderRef
      requires qty > 0 && engine.InRange(tick) && p == Working(user, side, Wire(tick, wirePerTick), qty)
      requires shown ==> FeedIs(D(), md + [Feed.OrderDelete(origRef)], engine.pool)
      modifies this, engine
      ensures engine.Valid() && Books(engine.pool, NoOrder) && Unlocked(live) && ExecsAfter(old(oe), oe)
      ensures shown ==> FeedOk()
      ensures var m := old(Matched(newRef, side, tick, qty));
              LeftBy(m, side, old(live), old(Held())) &&
              Processed(old(live), m, wirePerTick, true, user, Remainder(m, newRef, side, Wire(tick, wirePerTick)), [],
                        old(md) + [Feed.OrderDelete(origRef)], old(oe), md, oe)
    {
      md := md + [Feed.OrderDelete(origRef)];
      ProcessOrder(newRef, side, tick, qty, true, user, p);
    }

    /**
     * All that an accepted replace causes to be sent: the acknowledgement, and either one replace
     * message or, if the new price can trade, a delete and the reports of the matcher's trades.
     */
    ghost predicate Replacement(origRef: nat, a: Ledger.Ack, marketable: bool, m: Matcher.Outcome, ref: nat,
                                live0: map<nat, LiveOrder>,
                                md0: seq<Feed.Itch>, oe0: seq<Ledger.Ack>, md1: seq<Feed.Itch>, oe1: seq<Ledger.Ack>)
      requires a.Replaced?
    {
      match m
      case Outcome(_, _, _) =>
        if marketable then
          Processed(live0 - {origRef}, m, wirePerTick, true, a.user, Remainder(m, ref, a.side, a.price), [],
                    md0 + [Feed.OrderDelete(origRef)], oe0 + [a], md1, oe1)
        else md1 == md0 + [Feed.OrderReplace(origRef, ref, a.qty, a.price)] && oe1 == oe0 + [a]
    }

    method OnReplaceOrder(origUser: nat, newUser: nat, qty: nat, price: nat)
      requires Valid() && |engine.pool| < NIL && newUser > 0 && (newUser !in byUserRef || newUser == origUser)
      modifies this, engine
      ensures Valid() && (old(FeedOk()) ==> FeedOk())
      ensures old(oe) < oe
      ensures var a := oe[|old(oe)|];
              var l := old(LedgerOf(D(), engine.pool));
              if origUser !in l then oe == old(oe) + [Ledger.Rejected(newUser, Ledger.ReplaceNotAllowed)]
              else if qty == 0 then oe == old(oe) + [Ledger.Rejected(newUser, Ledger.InvalidQuantity)]
              else if !OnGrid(price) then oe == old(oe) + [Ledger.Rejected(newUser, Ledger.InvalidPrice)]
              else
                && a == Ledger.Replaced(origUser, newUser, l[origUser].side, price, qty, false)
                && ExecsAfter(old(oe) + [a], oe)
      ensures origUser in old(byUserRef) && qty > 0 && OnGrid(price) ==>
                var origRef := old(byUserRef)[origUser];
                && origRef in old(live)
                && var side, tick := old(live)[origRef].side, price / wirePerTick;
                   && Replacement(origRef, Ledger.Replaced(origUser, newUser, side, price, qty, false),
                                  Reached(old(live), side, tick),
                                  old(Matched(nextOrderRef, side, tick, qty)), old(nextOrderRef), old(live), old(md),
                                  old(oe), md, oe)
                   && LeftBy(old(Matched(nextOrderRef, side, tick, qty)), side, old(live) - {origRef},
                             old(Held()) - {origRef})
      ensures origUser !in old(byUserRef) || qty == 0 || !OnGrid(price) ==>
                md == old(md) && live == old(live) && Held() == old(Held())
    {
      if origUser !in byUserRef {
        Refuse(Ledger.Rejected(newUser, Ledger.ReplaceNotAllowed));
        return;
      }
      var origRef := byUserRef[origUser];
      if qty == 0 {
        Refuse(Ledger.Rejected(newUser, Ledger.InvalidQuantity));
        return;
      }
      var tick := ValidPrice(price);
      if tick.None? {
        Refuse(Ledger.Rejected(newUser, Ledger.InvalidPrice));
        return;
      }
      DeskMeans(D(), engine.pool);
      LiveQty(origRef);
      ClientInLedger(D(), engine.pool, origRef);
      MarketableMeans(live[origRef].side, tick.value);
      Replace(origRef, newUser, tick.value, qty, price);
    }

    method Replace(origRef: nat, newUser: nat, tick: int, qty: nat, price: nat)
      requires Valid() && |engine.pool| < NIL && qty > 0 && engine.InRange(tick) && Wire(tick, wirePerTick) == price
      requires origRef in live && live[origRef].client && (newUser !in byUserRef || newUser == live[origRef].userRef)
      modifies this, engine
      ensures Valid() && (old(FeedOk()) ==> FeedOk())
      ensures var a := Ledger.Replaced(old(live)[origRef].userRef, newUser, old(live)[origRef].side, price, qty, false);
              ExecsAfter(old(oe) + [a], oe)
      ensures var side := old(live)[origRef].side;
              Replacement(origRef, Ledger.Replaced(old(live)[origRef].userRef, newUser, side, price, qty, false),
                          old(IsMarketable(side, tick)),
                          old(Matched(nextOrderRef, side, tick, qty)), old(nextOrderRef), old(live), old(md), old(oe),
                          md, oe)
      ensures var side := old(live)[origRef].side;
              LeftBy(old(Matched(nextOrderRef, side, tick, qty)), side, old(live) - {origRef}, old(Held()) - {origRef})
    {
      LiveQty(origRef);
      var orig := live[origRef];
      ghost var shown := FeedOk();
      ghost var feed := FeedOf(D(), engine.pool);
      ShownInFeed(D(), engine.pool, origRef);
      ghost var p := Working(newUser, orig.side, price, qty);
      Retire(origRef, Ledger.Replaced(orig.userRef, newUser, orig.side, price, qty, false));
      Reenter(origRef, Ledger.Replaced(orig.userRef, newUser, orig.side, price, qty, false), tick, p, shown, feed,
              old(live), old(oe));
    }

    /** The replacement gets its own reference and is matched, or rests where it cannot trade. */
    method Reenter(origRef: nat, a: Ledger.Ack, tick: int, ghost p: Pending, ghost shown: bool, ghost feed: Feed.Book,
                   ghost live0: map<nat, LiveOrder>, ghost oe0: seq<Ledger.Ack>)
      requires engine.Valid() && 0 <= engine.minPrice && |engine.pool| < NIL && Books(engine.pool, p) && Unlocked(live)
      requires a.Replaced? && a.qty > 0 && engine.InRange(tick) && Wire(tick, wirePerTick) == a.price
      requires p == Working(a.user, a.side, a.price, a.qty) && live == live0 - {origRef} && oe == oe0 + [a]
      requires shown ==> FeedIs(D(), md + [Feed.OrderDelete(origRef)], engine.pool)
      requires shown ==> Feed.Shows(md, feed) && origRef in feed && feed[origRef].side == a.side
      modifies this, engine
      ensures Valid() && (shown ==> FeedOk()) && ExecsAfter(old(oe), oe)
      ensures Replacement(origRef, a, old(IsMarketable(a.side, tick)), old(Matched(nextOrderRef, a.side, tick, a.qty)),
                          old(nextOrderRef),
                          live0, old(md), oe0, md, oe)
      ensures LeftBy(old(Matched(nextOrderRef, a.side, tick, a.qty)), a.side, old(live), old(Held()))
    {
      var newRef := NewRef(engine.pool, p);
      if IsMarketable(a.side, tick) {
        Resubmit(origRef, newRef, a.side, tick, a.qty, a.user, p, shown);
      } else {
        RestReplacement(origRef, newRef, a.side, tick, a.qty, a.user, p, shown, feed);
      }
    }

    // ---- the tape

    /** Among the clients opposite to a tape order that its price satisfies, the first listed with the best tick. */
    method BestCrossing(side: Side, tick: int) returns (best: nat, ghost at: nat)
      requires Valid()
      ensures best == 0 ==> forall r :: r in live && live[r].client ==> !Opposes(live, side, tick, r)
      ensures best != 0 ==> BestOpen(live, side, tick, best)
      ensures best != 0 ==> FirstBest(live, side, tick, clientRefs, at) && clientRefs[at] == best
    {
      best, at := 0, 0;
      for i := 0 to |clientRefs|
        invariant forall j :: 0 <= j < i ==> clientRefs[j] in live
        invariant best == 0 ==> forall j :: 0 <= j < i ==> !Opposes(live, side, tick, clientRefs[j])
        invariant best != 0 ==> at < i && clientRefs[at] == best && live[best].client && Opposes(live, side, tick, best)
        invariant best != 0 ==> forall j :: 0 <= j < i && Opposes(live, side, tick, clientRefs[j]) ==>
                                  Matcher.Crosses(side, live[clientRefs[j]].tick, live[best].tick)
        invariant best != 0 ==> forall j :: 0 <= j < at && Opposes(live, side, tick, clientRefs[j]) ==>
                                  live[clientRefs[j]].tick != live[best].tick
      {
        var ref := clientRefs[i];
        LiveQtyOfClient(i);
        var l := live[ref];
        if l.side != side && Matcher.Crosses(side, tick, l.tick) {
          if best == 0 || (if side.Buy? then l.tick < live[best].tick else l.tick > live[best].tick) {
            best, at := ref, i;
          }
        }
      }
      DeskMeans(D(), engine.pool);
      forall r | r in live && live[r].client ensures exists j :: 0 <= j < |clientRefs| && clientRefs[j] == r {
        assert r in clientRefs;
      }
    }

    lemma LiveQtyOfClient(i: nat)
      requires Valid() && i < |clientRefs|
      ensures clientRefs[i] > 0 && clientRefs[i] in live && live[clientRefs[i]].client
    {
      DeskMeans(D(), engine.pool);
      assert clientRefs[i] in clientRefs;
      LiveQty(clientRefs[i]);
    }

    /** The venue after client fills only: no order joined, tape and synthetic orders are untouched. */
    ghost predicate OthersStay(a: map<nat, LiveOrder>)
      reads this
    {
      Shrunk(a, live) && forall r :: r in a && !a[r].client ==> r in live
    }

    /** Where a crossing stands with this many shares to go. */
    ghost function At(left: nat): Scene
      reads this, engine
    {
      Scene(clientRefs, Held(), left)
    }

    /**
     * A tape order arriving across client orders fills them, best price first and equal prices in list
     * order; hits and scenes are the run, which the start determines.
     */
    method CrossClients(side: Side, tick: int, shares: nat)
      returns (qty: nat, ghost trail: Trail)
      requires Valid()
      modifies this`live, this`byUserRef, this`clientRefs, this`md, this`oe, engine
      ensures Valid() && (old(FeedOk()) ==> FeedOk()) && |engine.pool| == |old(engine.pool)|
      ensures qty <= shares && ExecsAfter(old(oe), oe) && OthersStay(old(live))
      ensures qty > 0 ==> forall r :: r in live && live[r].client && live[r].side != side ==>
                !Matcher.Crosses(side, tick, live[r].tick)
      ensures Crossed(old(live), old(Quantities(live, engine.pool)), side, tick, shares, D(), engine.pool, qty)
      ensures var rule := BestPrice(old(live), side, tick);
              Ran(rule, old(live), wirePerTick, trail, old(At(shares)), old(oe), oe) && trail.now == At(qty)
              && Over(rule, At(qty))
    {
      ghost var live0, q0, start, oe0 := live, Quantities(live, engine.pool), At(shares), oe;
      RanStart(BestPrice(live0, side, tick), live0, wirePerTick, start, oe0);
      CrossingStart(D(), engine.pool, side, tick, shares);
      qty, trail := CrossLoop(side, tick, shares, live0, q0, start, oe0);
      CrossingEnd(live0, q0, side, tick, shares, D(), engine.pool, qty);
      CrossingOver(live0, side, tick, D(), engine.pool, qty);
    }

    /** One client after another, until the shares or the crossed clients run out. */
    method CrossLoop(side: Side, tick: int, shares: nat, ghost live0: map<nat, LiveOrder>, ghost q0: map<nat, nat>,
                     ghost start: Scene, ghost oe0: seq<Ledger.Ack>)
      returns (qty: nat, ghost trail: Trail)
      requires Valid() && OthersStay(live0) && ExecsAfter(oe0, oe)
      requires CrossingAt(live0, q0, side, tick, shares, D(), engine.pool, shares)
      requires Ran(BestPrice(live0, side, tick), live0, wirePerTick, Standing(start), start, oe0, oe)
               && start == At(shares)
      modifies this`live, this`byUserRef, this`clientRefs, this`md, this`oe, engine
      ensures Valid() && (old(FeedOk()) ==> FeedOk()) && |engine.pool| == |old(engine.pool)|
      ensures qty <= shares && ExecsAfter(oe0, oe) && OthersStay(live0)
      ensures CrossingAt(live0, q0, side, tick, shares, D(), engine.pool, qty)
      ensures Ran(BestPrice(live0, side, tick), live0, wirePerTick, trail, start, oe0, oe) && trail.now == At(qty)
      ensures qty == 0 || forall r :: r in live && live[r].client ==> !Opposes(live, side, tick, r)
    {
      qty, trail := shares, Standing(start);
      while qty > 0
        invariant Valid() && (old(FeedOk()) ==> FeedOk()) && |engine.pool| == |old(engine.pool)|
        invariant qty <= shares && ExecsAfter(oe0, oe) && OthersStay(live0)
        invariant CrossingAt(live0, q0, side, tick, shares, D(), engine.pool, qty)
        invariant Ran(BestPrice(live0, side, tick), live0, wirePerTick, trail, start, oe0, oe) && trail.now == At(qty)
        decreases qty
      {
        var best;
        ghost var at;
        best, at := BestCrossing(side, tick);
        if best == 0 {
          return;
        }
        qty, trail := CrossOne(best, at, qty, live0, q0, side, tick, shares, trail, start, oe0);
      }
    }

    /** Fills a client as far as the shares go. */
    method FillUpTo(ref: nat, qty: nat) returns (fill: nat)
      requires Valid() && ref in live && live[ref].client && live[ref].handle < |engine.pool| && qty > 0
      modifies this`live, this`byUserRef, this`clientRefs, this`md, this`oe, engine
      ensures Valid() && (old(FeedOk()) ==> FeedOk()) && |engine.pool| == |old(engine.pool)|
      ensures 0 < fill == Min(qty, old(QtyOf(ref))) && ExecsAfter(old(oe), oe) && OthersStay(old(live))
      ensures D() == FillDesk(old(D()), old(engine.pool), ref, fill, clientRefs)
      ensures PoolFill(old(D()), old(engine.pool), engine.pool, ref, fill)
      ensures oe == old(oe) + [Ledger.Executed(old(live)[ref].userRef, fill, Wire(old(live)[ref].tick, wirePerTick))]
      ensures fill == old(QtyOf(ref)) ==>
                forall i :: 0 <= i < |old(clientRefs)| && old(clientRefs)[i] == ref ==>
                    clientRefs == SwapRemove(old(clientRefs), i)
    {
      LiveQty(ref);
      fill := Min(qty, QtyOf(ref));
      FillClient(ref, fill);
    }

    /** Fills the best-priced crossing client. */
    method CrossOne(ref: nat, ghost at: nat, qty: nat, ghost live0: map<nat, LiveOrder>, ghost q0: map<nat, nat>,
                    ghost side: Side, ghost tick: int, ghost shares: nat, ghost trail: Trail, ghost start: Scene,
                    ghost oe0: seq<Ledger.Ack>)
      returns (left: nat, ghost trail': Trail)
      requires Ran(BestPrice(live0, side, tick), live0, wirePerTick, trail, start, oe0, oe) && trail.now == At(qty)
      requires Valid() && qty > 0 && BestOpen(live, side, tick, ref) && ExecsAfter(oe0, oe) && OthersStay(live0)
      requires FirstBest(live, side, tick, clientRefs, at) && clientRefs[at] == ref
      requires CrossingAt(live0, q0, side, tick, shares, D(), engine.pool, qty)
      modifies this`live, this`byUserRef, this`clientRefs, this`md, this`oe, engine
      ensures Valid() && (old(FeedOk()) ==> FeedOk()) && |engine.pool| == |old(engine.pool)|
      ensures left < qty && ExecsAfter(oe0, oe) && OthersStay(live0)
      ensures CrossingAt(live0, q0, side, tick, shares, D(), engine.pool, left)
      ensures Ran(BestPrice(live0, side, tick), live0, wirePerTick, trail', start, oe0, oe) && trail'.now == At(left)
    {
      LiveQty(ref);
      FirstBestSame(live0, side, tick, D(), engine.pool, at);
      var fill := FillUpTo(ref, qty);
      left := qty - fill;
      ExecsTrans(oe0, old(oe), oe);
      CrossingStep(live0, q0, side, tick, shares, old(D()), D(), old(engine.pool), engine.pool, ref, qty, fill);
      FillsOk(BestPrice(live0, side, tick), old(D()), D(), old(engine.pool), engine.pool, at, ref, qty, fill, left);
      RanMore(BestPrice(live0, side, tick), live0, wirePerTick, trail, start, oe0, old(oe), Hit(at, ref, fill),
              At(left));
      trail' := Onward(trail, Hit(at, ref, fill), At(left));
    }

    /** A tape order loses shares; the tape announced it, the venue does not. */
    method TakeFromReal(ref: nat, qty: nat)
      requires Valid() && ref in live && ref < firstRef && live[ref].handle < |engine.pool| && 0 < qty
      modifies this`live, engine
      ensures Valid() && (old(FeedOk()) ==> FeedOk()) && |engine.pool| == |old(engine.pool)|
      ensures live == if qty >= old(QtyOf(ref)) then old(live) - {ref} else old(live)
      ensures Quantities(live, engine.pool) == Less(old(Quantities(live, engine.pool)), ref, qty)
    {
      LiveQty(ref);
      ghost var d, pool, q := D(), engine.pool, Min(qty, QtyOf(ref));
      var full := qty >= QtyOf(ref);
      EngineTake(ref, Min(qty, QtyOf(ref)));
      if full {
        live := live - {ref};
      }
      FillOtherBooks(d, nextOrderRef, oe, pool, engine.pool, NoOrder, ref, q);
      UnlockedShrunk(old(live), live);
      FillQuantities(d, D(), pool, engine.pool, ref, q);
      if FeedIs(d, md, pool) {
        Fill(d, pool, engine.pool, ref, q, clientRefs);
      }
    }

    /** A tape order fills the clients it crosses, best price first, and rests what is left. */
    method MirrorAdd(ref: nat, side: Side, wirePrice: nat, qty: nat) returns (ghost rem: nat, ghost trail: Trail)
      requires Valid() && |engine.pool| < NIL && 0 < ref < firstRef && ref !in live
      modifies this, engine
      ensures Valid() && (old(FeedOk()) ==> FeedOk())
      ensures ExecsAfter(old(oe), oe)
      ensures match ValidPrice(wirePrice)
              case None => oe == old(oe) && md == old(md) && live == old(live) && engine.pool == old(engine.pool)
              case Some(tick) =>
                && TapeAdded(old(live), old(Quantities(live, engine.pool)), side, tick, qty, D(), engine.pool, rem, ref)
                && var rule := BestPrice(old(live), side, tick);
                   Ran(rule, old(live), wirePerTick, trail, old(At(qty)), old(oe), oe)
                   && Over(rule, trail.now) && trail.now.left == rem
    {
      var tick := ValidPrice(wirePrice);
      rem, trail := 0, Standing(At(qty));
      if tick.None? {
        return;
      }
      var left := qty;
      if clientRefs != [] {
        left, trail := CrossClients(side, tick.value, qty);
      } else {
        RanStart(BestPrice(live, side, tick.value), live, wirePerTick, At(qty), oe);
        ClientsListed(D(), engine.pool);
        CrossingStart(D(), engine.pool, side, tick.value, qty);
        CrossingEnd(live, Quantities(live, engine.pool), side, tick.value, qty, D(), engine.pool, qty);
      }
      rem := left;
      if left == 0 {
        return;
      }
      PlaceReal(ref, side, tick.value, left, old(live), old(Quantities(live, engine.pool)), qty);
    }

    method PlaceReal(ref: nat, side: Side, tick: int, qty: nat, ghost live0: map<nat, LiveOrder>,
                     ghost q0: map<nat, nat>, ghost shares: nat)
      requires Valid() && |engine.pool| < NIL && 0 < ref < firstRef && ref !in live && ref !in live0 && qty > 0
               && engine.InRange(tick)
      requires forall r :: r in live && live[r].client && live[r].side != side ==>
                 !Matcher.Crosses(side, tick, live[r].tick)
      requires Crossed(live0, q0, side, tick, shares, D(), engine.pool, qty)
      modifies this, engine
      ensures Valid() && (old(FeedOk()) ==> FeedOk()) && oe == old(oe)
      ensures TapeAdded(live0, q0, side, tick, shares, D(), engine.pool, qty, ref)
    {
      ghost var d, pool := D(), engine.pool;
      var h := engine.Place(ref, side, tick, qty);
      var lo := LiveOrder(h, side, tick, false, 0);
      UnlockedJoin(live, ref, lo);
      Enlist(ref, lo);
      JoinBooks(d, nextOrderRef, oe, pool, engine.pool, NoOrder, ref, lo, qty);
      CrossedJoin(live0, q0, side, tick, shares, d, D(), pool, engine.pool, qty, ref, lo);
      if FeedIs(d, md, pool) {
        AnnounceFeed(d, md, pool, engine.pool, ref, lo, qty);
      }
    }

    /** A tape order loses the cancelled shares, or goes; nothing else changes. */
    method MirrorCancel(ref: nat, shares: nat)
      requires Valid() && ref < firstRef
      modifies this, engine
      ensures Valid() && (old(FeedOk()) ==> FeedOk()) && oe == old(oe)
      ensures Quantities(live, engine.pool) == Less(old(Quantities(live, engine.pool)), ref, shares)
    {
      if ref !in live {
        return;
      }
      Deplete(ref, shares);
    }

    method Deplete(ref: nat, shares: nat)
      requires Valid() && ref in live && ref < firstRef
      modifies this`live, engine
      ensures Valid() && (old(FeedOk()) ==> FeedOk())
      ensures Quantities(live, engine.pool) == Less(old(Quantities(live, engine.pool)), ref, shares)
      ensures forall x :: x != ref ==> (x in live <==> x in old(live))
    {
      LiveQty(ref);
      if shares > 0 {
        TakeFromReal(ref, shares);
      }
    }

    method MirrorDelete(ref: nat)
      requires Valid() && ref < firstRef
      modifies this, engine
      ensures Valid() && (old(FeedOk()) ==> FeedOk()) && oe == old(oe) && live == old(live) - {ref}
      ensures |engine.pool| == |old(engine.pool)| && nextOrderRef == old(nextOrderRef) && clientRefs == old(clientRefs)
      ensures Quantities(live, engine.pool) == old(Quantities(live, engine.pool)) - {ref}
    {
      if ref !in live {
        return;
      }
      LiveQty(ref);
      TakeFromReal(ref, QtyOf(ref));
    }

    /** A tape replace is a delete and an add under the new reference; the side is inherited. */
    method MirrorReplace(origRef: nat, newRef: nat, shares: nat, wirePrice: nat)
      returns (ghost rem: nat, ghost trail: Trail)
      requires Valid() && |engine.pool| < NIL && origRef < firstRef && 0 < newRef < firstRef
               && (newRef !in live || newRef == origRef)
      modifies this, engine
      ensures Valid() && (old(FeedOk()) ==> FeedOk())
      ensures ExecsAfter(old(oe), oe)
      ensures origRef !in old(live) ==>
                oe == old(oe) && md == old(md) && live == old(live) && engine.pool == old(engine.pool)
      ensures origRef in old(live) ==>
                match ValidPrice(wirePrice)
                case None => oe == old(oe) && live == old(live) - {origRef}
                case Some(tick) =>
                  var live0, q0, side := old(live) - {origRef}, old(Held()) - {origRef}, old(live)[origRef].side;
                  && TapeAdded(live0, q0, side, tick, shares, D(), engine.pool, rem, newRef)
                  && var rule := BestPrice(live0, side, tick);
                     Ran(rule, live0, wirePerTick, trail, Scene(old(clientRefs), q0, shares), old(oe), oe)
                     && Over(rule, trail.now) && trail.now.left == rem
    {
      rem, trail := 0, Standing(At(shares));
      if origRef !in live {
        return;
      }
      var side := live[origRef].side;
      MirrorDelete(origRef);
      rem, trail := MirrorAdd(newRef, side, wirePrice, shares);
    }

    /** The same-side clients that a tape execution at this tick would have filled before the tape order. */
    ghost function Eligible(side: Side, tick: int, realRef: nat): set<nat>
      requires engine.minPrice <= engine.maxPrice
      reads this, engine
    {
      EligibleIn(live, engine.Snapshot(), side, tick, realRef)
    }

    method IsEligible(side: Side, tick: int, ref: nat, realRef: nat) returns (b: bool)
      requires Valid() && ref in live && live[ref].client && engine.InRange(tick)
      ensures b <==> ref in Eligible(side, tick, realRef)
      ensures b <==> live[ref].side == side
                     && (|| (if side.Buy? then live[ref].tick > tick else live[ref].tick < tick)
                         || (live[ref].tick == tick && AheadAt(engine.Snapshot(), side, tick - engine.minPrice, ref,
                                                               realRef)))
    {
      var l := live[ref];
      if l.side != side {
        return false;
      }
      if if side.Sell? then l.tick < tick else l.tick > tick {
        return true;
      }
      if l.tick != tick {
        return false;
      }
      b := engine.AheadInLevel(side, tick, ref, realRef);
    }

    /** Fills one eligible client; nobody's eligibility changes. */
    method ShadowHit(ref: nat, fill: nat, side: Side, tick: int, realRef: nat, i: nat)
      requires Valid() && i < |clientRefs| && clientRefs[i] == ref && ref in live && live[ref].client
      requires live[ref].handle < |engine.pool| && 0 < fill <= QtyOf(ref)
      requires realRef in live && !live[realRef].client && engine.InRange(tick)
      modifies this`live, this`byUserRef, this`clientRefs, this`md, this`oe, engine
      ensures Valid() && (old(FeedOk()) ==> FeedOk())
      ensures D() == FillDesk(old(D()), old(engine.pool), ref, fill, clientRefs)
      ensures PoolFill(old(D()), old(engine.pool), engine.pool, ref, fill)
      ensures fill == old(QtyOf(ref)) ==>
                && clientRefs == SwapRemove(old(clientRefs), i)
                && |clientRefs| == |old(clientRefs)| - 1 && clientRefs[..i] == old(clientRefs)[..i]
      ensures fill < old(QtyOf(ref)) ==> clientRefs == old(clientRefs)
      ensures oe == old(oe) + [Ledger.Executed(old(live)[ref].userRef, fill, Wire(old(live)[ref].tick, wirePerTick))]
      ensures ExecsAfter(old(oe), oe) && OthersStay(old(live))
      ensures forall r :: r in live ==> (r in Eligible(side, tick, realRef)
                                         <==> r in old(Eligible(side, tick, realRef)))
    {
      LiveQty(ref);
      LiveQty(realRef);
      ghost var s, h := engine.Snapshot(), live[ref].handle;
      FillClient(ref, fill);
      EligibleStable(old(live), live, s, engine.Snapshot(), h, side, tick, realRef);
      SwapPrefix(old(clientRefs), i);
    }

    /**
     * A tape execution also fills the clients that were ahead of the tape order: in all exactly the
     * executed shares or everything eligible, whichever is less, and nobody else; each time the first
     * listed of those still eligible, as far as its shares go.
     */
    method ShadowFill(side: Side, tick: int, realRef: nat, shares: nat) returns (ghost qty: nat, ghost trail: Trail)
      requires Valid() && realRef in live && !live[realRef].client && engine.InRange(tick)
      modifies this`live, this`byUserRef, this`clientRefs, this`md, this`oe, engine
      ensures Valid() && (old(FeedOk()) ==> FeedOk()) && ExecsAfter(old(oe), oe) && OthersStay(old(live))
      ensures ShadowDone(old(Eligible(side, tick, realRef)), old(Quantities(live, engine.pool)), shares, D(),
                         engine.pool, qty)
      ensures var rule := FirstOf(old(Eligible(side, tick, realRef)));
              Ran(rule, old(live), wirePerTick, trail, old(At(shares)), old(oe), oe) && trail.now == At(qty)
              && Over(rule, At(qty))
    {
      ghost var el, live0, start, oe0 := Eligible(side, tick, realRef), live, At(shares), oe;
      ghost var q0 := Quantities(live, engine.pool);
      ShadowStart(el, shares, D(), engine.pool);
      RanStart(FirstOf(el), live0, wirePerTick, start, oe0);
      var i: nat, left: nat := 0, shares;
      trail := Standing(start);
      while i < |clientRefs| && left > 0
        invariant Valid() && (old(FeedOk()) ==> FeedOk()) && ExecsAfter(oe0, oe) && OthersStay(live0)
        invariant realRef in live && !live[realRef].client
        invariant Shadow(el, q0, shares, D(), engine.pool, i, left)
        invariant forall r :: r in live ==> (r in Eligible(side, tick, realRef) <==> r in el)
        invariant Ran(FirstOf(el), live0, wirePerTick, trail, start, oe0, oe) && trail.now == At(left)
        decreases |clientRefs| - i
      {
        i, left, trail := ShadowOne(side, tick, realRef, i, left, el, q0, shares, live0, trail, start, oe0);
      }
      qty := left;
      DeskMeans(D(), engine.pool);
      ShadowEnd(el, q0, shares, D(), engine.pool, i, left);
      ShadowOver(el, q0, shares, D(), engine.pool, i, left);
    }

    /** One position of the client list. */
    method ShadowOne(side: Side, tick: int, realRef: nat, i: nat, left: nat, ghost el: set<nat>,
                     ghost q0: map<nat, nat>, ghost shares: nat, ghost live0: map<nat, LiveOrder>, ghost trail: Trail,
                     ghost start: Scene, ghost oe0: seq<Ledger.Ack>)
      returns (i': nat, left': nat, ghost trail': Trail)
      requires Valid() && realRef in live && !live[realRef].client && engine.InRange(tick) && i < |clientRefs|
               && left > 0
      requires Shadow(el, q0, shares, D(), engine.pool, i, left)
      requires forall r :: r in live ==> (r in Eligible(side, tick, realRef) <==> r in el)
      requires ExecsAfter(oe0, oe) && OthersStay(live0)
      requires Ran(FirstOf(el), live0, wirePerTick, trail, start, oe0, oe) && trail.now == At(left)
      modifies this`live, this`byUserRef, this`clientRefs, this`md, this`oe, engine
      ensures Valid() && (old(FeedOk()) ==> FeedOk()) && ExecsAfter(oe0, oe) && OthersStay(live0)
      ensures Shadow(el, q0, shares, D(), engine.pool, i', left') && |clientRefs| - i' < |old(clientRefs)| - i
      ensures forall r :: r in live ==> (r in Eligible(side, tick, realRef) <==> r in el)
      ensures realRef in live && !live[realRef].client
      ensures Ran(FirstOf(el), live0, wirePerTick, trail', start, oe0, oe) && trail'.now == At(left')
    {
      LiveQtyOfClient(i);
      var ok := IsEligible(side, tick, clientRefs[i], realRef);
      if !ok {
        ShadowSkip(el, q0, shares, D(), engine.pool, i, left);
        return i + 1, left, trail;
      }
      i', left', trail' := ShadowTake(side, tick, realRef, i, left, el, q0, shares, live0, trail, start, oe0);
    }

    /** The client at position i is eligible and is filled. */
    method ShadowTake(side: Side, tick: int, realRef: nat, i: nat, left: nat, ghost el: set<nat>,
                      ghost q0: map<nat, nat>, ghost shares: nat, ghost live0: map<nat, LiveOrder>, ghost trail: Trail,
                      ghost start: Scene, ghost oe0: seq<Ledger.Ack>)
      returns (i': nat, left': nat, ghost trail': Trail)
      requires Valid() && realRef in live && !live[realRef].client && engine.InRange(tick) && i < |clientRefs|
               && left > 0
      requires clientRefs[i] in live && live[clientRefs[i]].client && clientRefs[i] in el
      requires Shadow(el, q0, shares, D(), engine.pool, i, left)
      requires forall r :: r in live ==> (r in Eligible(side, tick, realRef) <==> r in el)
      requires ExecsAfter(oe0, oe) && OthersStay(live0)
      requires Ran(FirstOf(el), live0, wirePerTick, trail, start, oe0, oe) && trail.now == At(left)
      modifies this`live, this`byUserRef, this`clientRefs, this`md, this`oe, engine
      ensures Valid() && (old(FeedOk()) ==> FeedOk()) && ExecsAfter(oe0, oe) && OthersStay(live0)
      ensures Shadow(el, q0, shares, D(), engine.pool, i', left') && |clientRefs| - i' < |old(clientRefs)| - i
      ensures forall r :: r in live ==> (r in Eligible(side, tick, realRef) <==> r in el)
      ensures realRef in live && !live[realRef].client
      ensures Ran(FirstOf(el), live0, wirePerTick, trail', start, oe0, oe) && trail'.now == At(left')
    {
      var ref := clientRefs[i];
      LiveQty(ref);
      var cur := QtyOf(ref);
      var fill := Min(left, cur);
      ghost var d, pool, was, oe1 := D(), engine.pool, At(left), oe;
      ShadowChosen(el, q0, shares, d, pool, i, left);
      ShadowHit(ref, fill, side, tick, realRef, i);
      ShadowStep(el, q0, shares, d, D(), pool, engine.pool, i, left, fill);
      i' := if fill < cur then i + 1 else i;
      left' := left - fill;
      ExecsTrans(oe0, oe1, oe);
      FillsOk(FirstOf(el), d, D(), pool, engine.pool, i, ref, left, fill, left');
      RanMore(FirstOf(el), live0, wirePerTick, trail, start, oe0, oe1, Hit(i, ref, fill), At(left'));
      trail' := Onward(trail, Hit(i, ref, fill), At(left'));
    }

    /** A tape execution fills the clients ahead of the tape order, then takes its shares off that order. */
    method MirrorExecute(ref: nat, shares: nat) returns (ghost left: nat, ghost trail: Trail)
      requires Valid() && ref < firstRef
      modifies this, engine
      ensures Valid() && (old(FeedOk()) ==> FeedOk()) && ExecsAfter(old(oe), oe)
      ensures ref !in old(live) ==>
                oe == old(oe) && md == old(md) && live == old(live) && engine.pool == old(engine.pool)
      ensures ref in old(live) ==>
                && TapeExecuted(old(Eligible(live[ref].side, live[ref].tick, ref)), old(Quantities(live, engine.pool)),
                                ref, shares, D(), engine.pool)
                && var rule := FirstOf(old(Eligible(live[ref].side, live[ref].tick, ref)));
                   Ran(rule, old(live), wirePerTick, trail, old(At(shares)), old(oe), oe)
                   && Over(rule, trail.now) && trail.now.left == left
    {
      left, trail := shares, Standing(At(shares));
      if ref !in live {
        return;
      }
      LiveQty(ref);
      ghost var el, q0 := Eligible(live[ref].side, live[ref].tick, ref), Quantities(live, engine.pool);
      left, trail := ShadowAll(live[ref].side, live[ref].tick, ref, shares);
      ghost var d, pool := D(), engine.pool;
      Deplete(ref, shares);
      TapeExecutedEnd(el, q0, ref, shares, d, D(), pool, engine.pool, left);
    }

    /** Shadow fills, skipped when there are no clients. */
    method ShadowAll(side: Side, tick: int, realRef: nat, shares: nat) returns (ghost left: nat, ghost trail: Trail)
      requires Valid() && realRef in live && !live[realRef].client && engine.InRange(tick)
      modifies this`live, this`byUserRef, this`clientRefs, this`md, this`oe, engine
      ensures Valid() && (old(FeedOk()) ==> FeedOk()) && ExecsAfter(old(oe), oe) && OthersStay(old(live))
      ensures ShadowDone(old(Eligible(side, tick, realRef)), old(Quantities(live, engine.pool)), shares, D(),
                         engine.pool, left)
      ensures var rule := FirstOf(old(Eligible(side, tick, realRef)));
              Ran(rule, old(live), wirePerTick, trail, old(At(shares)), old(oe), oe)
              && Over(rule, trail.now) && trail.now.left == left
    {
      if clientRefs != [] {
        left, trail := ShadowFill(side, tick, realRef, shares);
      } else {
        ClientsListed(D(), engine.pool);
        left, trail := shares, Standing(At(shares));
        ShadowStart(Eligible(side, tick, realRef), shares, D(), engine.pool);
        ShadowEnd(Eligible(side, tick, realRef), Quantities(live, engine.pool), shares, D(), engine.pool, 0, shares);
        RanStart(FirstOf(Eligible(side, tick, realRef)), live, wirePerTick, At(shares), oe);
      }
    }

    /** End of day: every client order is cancelled and deleted from the feed, then everything is cleared. */
    method ResetDay()
      requires Valid()
      modifies this, engine
      ensures Valid() && live == map[] && byUserRef == map[] && clientRefs == []
      ensures ClosesAfter(old(oe), oe)
      ensures old(FeedOk()) ==> (FeedOk() <==> forall r :: r in old(live) && r >= firstRef ==> old(live)[r].client)
    {
      while clientRefs != []
        invariant Valid() && OthersStay(old(live)) && (old(FeedOk()) ==> FeedOk())
        invariant ClosesAfter(old(oe), oe)
        decreases |clientRefs|
      {
        ghost var oe1 := oe;
        CloseLast();
        ClosesTrans(old(oe), oe1, oe);
      }
      ghost var was := live;
      assert forall r :: r in was ==> r in old(live) && !old(live)[r].client by {
        ClientsListed(D(), engine.pool);
      }
      ClearAll(was);
    }

    method CloseLast()
      requires Valid() && clientRefs != []
      modifies this`live, this`byUserRef, this`clientRefs, this`md, this`oe, engine
      ensures Valid() && OthersStay(old(live)) && (old(FeedOk()) ==> FeedOk()) && |clientRefs| < |old(clientRefs)|
      ensures ClosesAfter(old(oe), oe)
    {
      var ref := clientRefs[|clientRefs| - 1];
      LiveQtyOfClient(|clientRefs| - 1);
      LiveQty(ref);
      TakeFromClient(ref, QtyOf(ref), Ledger.Canceled(live[ref].userRef, QtyOf(ref), Ledger.Closed),
                     Feed.OrderDelete(ref));
    }

    method ClearAll(ghost was: map<nat, LiveOrder>)
      requires Valid() && clientRefs == [] && was == live
      modifies this, engine
      ensures Valid() && live == map[] && byUserRef == map[] && clientRefs == [] && oe == old(oe) && md == old(md)
      ensures old(FeedOk()) ==> (FeedOk() <==> forall r :: r in was ==> r < firstRef)
    {
      ghost var d, pool := D(), engine.pool;
      engine.Clear();
      live, byUserRef := map[], map[];
      ClearedBooks(d, D(), nextOrderRef, oe, pool);
      if FeedIs(d, md, pool) {
        ClearedFeed(d, D(), md, pool);
      }
    }
  }
}
