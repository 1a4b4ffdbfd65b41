/**
 * The whole loop: an order manager and an exchange session joined by two FIFO channels. Every step of
 * these objects is a step of the protocol, so what the protocol promises holds of them.
 */
module Trading {
  import opened Types
  import opened OmsSpec
  import opened Protocol
  import opened ProtocolProof
  import opened OrderManagerModel
  import opened Exchange
  import opened Routing
  import Ledger
  import Session
  import VenueModel

  /** Prices on their way to the venue are not negative. */
  predicate Priced(s: seq<Request>) {
    forall i :: 0 <= i < |s| && !s[i].Cancel? ==> s[i].price >= 0
  }

  /** The one state a quote of slot k leads to. */
  ghost function AfterQuote(s: Sys, k: nat, want: bool, price: int, qty: nat): Sys
    requires k < |s.oms.slots|
  {
    var (o, req) := Reconcile(s.oms, k, want, price, qty);
    s.(oms := o, toVenue := if req.Some? then s.toVenue + [req.value] else s.toVenue,
       owner := if o.next != s.oms.next then s.owner[s.oms.next := k] else s.owner)
  }

  /** State s describes the two machines and the two channels. */
  ghost predicate Describes(s: Sys, oms: Oms, toVenue: seq<Request>, toOms: seq<Ack>, open: Ledger.Book) {
    match s
    case Sys(o, v, m, l, _, _, _) => o == oms && v == toVenue && m == toOms && l == open && Inv(s) && Priced(toVenue)
  }

  lemma QuoteDescribes(s: Sys, o: Oms, tv: seq<Request>, to: seq<Ack>, open: Ledger.Book, k: nat, want: bool,
                       price: int, qty: nat)
    requires Describes(s, o, tv, to, open) && k < |o.slots| && Free(o.slots, o.next) && price >= 0
    ensures Next(s, Quote(k, want, price, qty), AfterQuote(s, k, want, price, qty))
    ensures var (o', r) := Reconcile(o, k, want, price, qty);
            && Describes(AfterQuote(s, k, want, price, qty), o', if r.Some? then tv + [r.value] else tv, to, open)
            && |o'.slots| == |o.slots|
  {
    QuoteInv(s, AfterQuote(s, k, want, price, qty), k, want, price, qty);
  }

  /** The quote step of one side of a symbol. */
  function SideStep(sym: nat, t: Targets, side: Side): Step {
    Quote(SlotOf(sym, side), Wanted(t, side), PriceOf(t, side), QtyOf(t, side))
  }

  lemma SideDescribes(s: Sys, o: Oms, tv: seq<Request>, to: seq<Ack>, open: Ledger.Book, sym: nat, t: Targets,
                      side: Side)
    returns (s': Sys)
    requires Describes(s, o, tv, to, open) && 2 * sym + 1 < |o.slots| && Free(o.slots, o.next) && t.bidPrice >= 0
             && t.askPrice >= 0
    ensures Next(s, SideStep(sym, t, side), s')
    ensures var (o', r) := ReconcileSide(o, sym, t, side);
            Describes(s', o', tv + Emitted(r), to, open)
  {
    s' := AfterQuote(s, SlotOf(sym, side), Wanted(t, side), PriceOf(t, side), QtyOf(t, side));
    QuoteDescribes(s, o, tv, to, open, SlotOf(sym, side), Wanted(t, side), PriceOf(t, side), QtyOf(t, side));
    assert tv + [] == tv;
  }

  /** Both sides, one after the other. */
  lemma BothDescribe(s: Sys, o: Oms, tv: seq<Request>, to: seq<Ack>, open: Ledger.Book, sym: nat, t: Targets,
                     first: Side) returns (mid: Sys, end: Sys)
    requires Describes(s, o, tv, to, open) && 2 * sym + 1 < |o.slots| && TwoFree(o) && t.bidPrice >= 0
             && t.askPrice >= 0
    ensures Next(s, SideStep(sym, t, first), mid) && Next(mid, SideStep(sym, t, Opposite(first)), end)
    ensures var (o1, r1) := ReconcileSide(o, sym, t, first);
            var (o2, r2) := ReconcileSide(o1, sym, t, Opposite(first));
            Describes(end, o2, tv + (Emitted(r1) + Emitted(r2)), to, open) && Free(o1.slots, o1.next)
  {
    var (o1, r1) := ReconcileSide(o, sym, t, first);
    var (o2, r2) := ReconcileSide(o1, sym, t, Opposite(first));
    FreeAfter(o, sym, t, first);
    mid := SideDescribes(s, o, tv, to, open, sym, t, first);
    end := SideDescribes(mid, o1, tv + Emitted(r1), to, open, sym, t, Opposite(first));
    ConcatAssoc(tv, Emitted(r1), Emitted(r2));
  }

  lemma ConcatAssoc(a: seq<Request>, b: seq<Request>, c: seq<Request>)
    ensures a + b + c == a + (b + c)
  {
  }

  ghost function AfterAck(s: Sys): Sys
    requires s.toOms != [] && |s.oms.slots| == 2 * |s.oms.pos|
  {
    s.(oms := Receive(s.oms, s.toOms[0]), toOms := s.toOms[1..], seen := Ledger.Apply(s.seen, s.toOms[0]))
  }

  lemma DeliverDescribes(s: Sys, o: Oms, tv: seq<Request>, to: seq<Ack>, open: Ledger.Book)
    requires Describes(s, o, tv, to, open) && to != [] && |o.slots| == 2 * |o.pos|
    ensures Next(s, Deliver, AfterAck(s)) && Describes(AfterAck(s), Receive(o, to[0]), tv, to[1..], open)
  {
    StepInv(s, Deliver, AfterAck(s));
  }

  ghost function AfterReply(s: Sys, acks: seq<Ack>): Sys
    requires s.toVenue != []
  {
    s.(toVenue := s.toVenue[1..], toOms := s.toOms + acks, ledger := Ledger.Fold(s.ledger, acks),
       traded := Bump(s.traded, acks, s.owner))
  }

  lemma ServeDescribes(s: Sys, o: Oms, tv: seq<Request>, to: seq<Ack>, open: Ledger.Book, acks: seq<Ack>)
    requires Describes(s, o, tv, to, open) && tv != [] && Reply(open, tv[0], acks)
    ensures Next(s, Protocol.Serve(acks), AfterReply(s, acks))
            && Describes(AfterReply(s, acks), o, tv[1..], to + acks, Ledger.Fold(open, acks))
  {
    ServeInv(s, AfterReply(s, acks), acks);
  }

  /** What the channel's invariant says of the request about to be served. */
  lemma HeadDescribes(s: Sys, o: Oms, tv: seq<Request>, to: seq<Ack>, open: Ledger.Book)
    requires Describes(s, o, tv, to, open) && tv != []
    ensures Acceptable(open, tv[0]) && (tv[0].Cancel? || tv[0].price >= 0) && |o.slots| == 2 * |o.pos| > 0
    ensures tv[0].Enter? ==> tv[0].slot < |o.slots|
  {
    HeadAcceptable(s);
  }

  ghost function AfterTape(s: Sys, acks: seq<Ack>): Sys {
    s.(toOms := s.toOms + acks, ledger := Ledger.Fold(s.ledger, acks), traded := Bump(s.traded, acks, s.owner))
  }

  lemma TapeDescribes(s: Sys, o: Oms, tv: seq<Request>, to: seq<Ack>, open: Ledger.Book, acks: seq<Ack>)
    requires Describes(s, o, tv, to, open) && AllExecuted(acks) && Ledger.Sound(open, acks)
    ensures Next(s, Protocol.Tape(acks), AfterTape(s, acks))
            && Describes(AfterTape(s, acks), o, tv, to + acks, Ledger.Fold(open, acks))
  {
    TapeInv(s, AfterTape(s, acks), acks);
  }

  class TradingLoop {
    const oms: OrderManager
    const exchange: ExchangeSession
    /** The name of each of the order manager's symbols. */
    const names: seq<VenueModel.Symbol>
    var toVenue: seq<Request>
    var toOms: seq<Ack>
    ghost var sys: Sys

    ghost predicate Valid()
      reads this, oms, exchange, exchange.repr
    {
      && this !in exchange.repr && oms !in exchange.repr && |names| == |oms.positions|
      && oms.Valid() && exchange.Valid()
      && Describes(sys, oms.View(), toVenue, toOms, All(exchange.books, exchange.home))
    }

    constructor (names: seq<VenueModel.Symbol>, firstUserRef: nat, exchange: ExchangeSession)
      requires exchange.Valid() && All(exchange.books, exchange.home) == map[] && firstUserRef < TWO32
      ensures Valid() && this.exchange == exchange && Init(sys, |names|, firstUserRef) && toVenue == [] && toOms == []
    {
      var o := new OrderManager(|names|, firstUserRef);
      this.oms, this.exchange, this.names := o, exchange, names;
      toVenue, toOms := [], [];
      sys := Sys(o.View(), [], [], map[], map[], map[], seq(|names|, _ => 0));
      new;
      InitInv(sys, |names|, firstUserRef);
    }

    /** Both sides of a symbol, the ask first exactly when the new bid would reach it: two quote steps. */
    method QuoteSymbol(sym: nat, t: Targets) returns (out: seq<Request>, ghost mid: Sys)
      requires Valid() && 2 * sym + 1 < |oms.slots| && TwoFree(oms.View()) && t.bidPrice >= 0 && t.askPrice >= 0
      modifies this, oms
      ensures Valid()
      ensures var first := FirstSide(old(oms.slots)[2 * sym + 1], t);
              Next(old(sys), SideStep(sym, t, first), mid) && Next(mid, SideStep(sym, t, Opposite(first)), sys)
      ensures toVenue == old(toVenue) + out
      ensures AskedBoth(old(oms.slots)[2 * sym], old(oms.slots)[2 * sym + 1], sym, old(oms.nextUserRef), t, out)
    {
      ghost var first, end := FirstSide(oms.slots[2 * sym + 1], t), sys;
      mid, end := BothDescribe(sys, oms.View(), toVenue, toOms, All(exchange.books, exchange.home), sym, t, first);
      out := oms.ReconcileSymbol(sym, t);
      Queue(toVenue + out, toOms, end);
    }

    /** The order manager takes the oldest acknowledgement. */
    method DeliverAck()
      requires Valid() && toOms != []
      modifies this, oms
      ensures Valid() && Next(old(sys), Deliver, sys)
    {
      DeliverDescribes(sys, oms.View(), toVenue, toOms, All(exchange.books, exchange.home));
      oms.OnAck(toOms[0]);
      Queue(toVenue, toOms[1..], AfterAck(sys));
    }

    /**
     * The exchange takes the oldest request. An entry goes to the first venue that trades its slot's symbol,
     * which accepts it, as a buy for a bid slot, if its price is on that venue's grid; no other venue changes.
     */
    method ServeRequest() returns (acks: seq<Ack>, ghost w: nat)
      requires Valid() && toVenue != []
      requires forall i :: 0 <= i < |exchange.venues| ==> |exchange.venues[i].engine.pool| < NIL
      modifies this, exchange.repr
      ensures Valid() && Next(old(sys), Protocol.Serve(acks), sys)
      ensures w < |exchange.venues| && exchange.venues[w].oe == old(exchange.venues[w].oe) + acks
      ensures exchange.OthersStay(w) && |acks| > 0
      ensures var r := old(toVenue[0]);
              r.Enter? ==>
                && r.slot / 2 < |names| && exchange.Meant(names[r.slot / 2], w)
                && (exchange.venues[w].symbol == names[r.slot / 2] && r.qty > 0
                    && exchange.venues[w].OnGrid(r.price) ==>
                      acks[0] == Ledger.Accepted(r.user, if r.slot % 2 == 0 then Buy else Sell, r.price, r.qty, false))
      ensures var r, l := old(toVenue[0]), old(All(exchange.books, exchange.home));
              r.Replace? && r.orig in l && r.qty > 0 && exchange.venues[w].OnGrid(r.price) ==>
                acks[0] == Ledger.Replaced(r.orig, r.user, l[r.orig].side, r.price, r.qty, false)
    {
      HeadDescribes(sys, oms.View(), toVenue, toOms, All(exchange.books, exchange.home));
      var r := toVenue[0];
      var sym := if r.Enter? then names[r.slot / 2] else names[0];
      acks, w := exchange.DispatchRequest(r, sym);
      ServeDescribes(sys, oms.View(), toVenue, toOms, old(All(exchange.books, exchange.home)), acks);
      Queue(toVenue[1..], toOms + acks, AfterReply(sys, acks));
    }

    /** Sets both channels to what the state describes. */
    method Queue(requests: seq<Request>, acks: seq<Ack>, ghost s: Sys)
      requires this !in exchange.repr && oms !in exchange.repr && |names| == |oms.positions| && oms.Valid()
               && exchange.Valid()
      requires Describes(s, oms.View(), requests, acks, All(exchange.books, exchange.home))
      modifies this
      ensures Valid() && sys == s && toVenue == requests && toOms == acks
    {
      sys, toVenue, toOms := s, requests, acks;
    }

    /** The tape moves at some venue. */
    method PlayTape(w: nat, e: Session.TapeEvent) returns (acks: seq<Ack>)
      requires Valid() && w < |exchange.venues| && Session.TapeOk(exchange.venues[w], e)
      modifies this, exchange.repr
      ensures Valid() && Next(old(sys), Protocol.Tape(acks), sys)
    {
      acks := exchange.Tape(w, e);
      TapeDescribes(sys, oms.View(), toVenue, toOms, old(All(exchange.books, exchange.home)), acks);
      Queue(toVenue, toOms + acks, AfterTape(sys, acks));
    }

    /**
     * With both channels empty the slots show exactly the venues' open orders, and no acknowledgement
     * was ever unknown.
     */
    lemma Agreement()
      requires Valid()
      ensures oms.unknown == 0
      ensures toVenue == [] && toOms == [] ==>
                Agree(sys) && sys.ledger == All(exchange.books, exchange.home) && sys.oms == oms.View()
    {
      if toVenue == [] && toOms == [] {
        QuietAgree(sys);
      }
    }
  }
}
