/** The exchange session: order-entry messages dispatched to one venue per symbol. */
module Exchange {
  import opened Types
  import opened VenueModel
  import opened Routing
  import opened OmsSpec
  import opened Protocol
  import Ledger
  import Session

  /** Venue v is sound and its open client orders are b. */
  ghost predicate Keeps(v: Venue, b: Ledger.Book)
    reads v, v.engine
  {
    forall k: nat {:trigger Look(VenueSeal, k)} :: Look(VenueSeal, k) ==> v.Valid() && b == Session.Open(v)
  }

  lemma KeepsMeans(v: Venue, b: Ledger.Book)
    requires Keeps(v, b)
    ensures v.Valid() && b == Session.Open(v)
  {
    assert Look(VenueSeal, 0);
  }

  method AskVenue(v: Venue, ghost b: Ledger.Book, m: Session.Ouch) returns (acks: seq<Ledger.Ack>)
    requires Keeps(v, b) && |v.engine.pool| < NIL && Session.Fits(b, m)
    modifies v, v.engine
    ensures Session.Answer(b, m, acks) && Keeps(v, Ledger.Fold(b, acks)) && v.oe == old(v.oe) + acks
    ensures |acks| > 0 && Session.Decided(v, b, m, acks[0])
  {
    KeepsMeans(v, b);
    acks := Session.Serve(v, m);
  }

  method PlayVenue(v: Venue, ghost b: Ledger.Book, e: Session.TapeEvent) returns (acks: seq<Ledger.Ack>)
    requires Keeps(v, b) && Session.TapeOk(v, e)
    modifies v, v.engine
    ensures AllExecuted(acks) && Ledger.Sound(b, acks) && Keeps(v, Ledger.Fold(b, acks)) && v.oe == old(v.oe) + acks
  {
    KeepsMeans(v, b);
    acks := Session.Tape(v, e);
  }

  /** The open order a message other than an entry is about. */
  function Named(m: Session.Ouch): nat
    requires !m.Entering?
  {
    match m
    case Replacing(orig, _, _, _) => orig
    case Cancelling(u, _) => u
  }

  class ExchangeSession {
    const venues: seq<Venue>
    var refVenue: seq<RefVenue>
    /** The venue each user ref was last sent to. */
    ghost var home: map<nat, nat>
    /** Each venue's open client orders. */
    ghost var books: seq<Ledger.Book>
    ghost const repr: set<object>

    /** The venues share nothing. */
    ghost predicate Apart() {
      && (forall i :: 0 <= i < |venues| ==> venues[i] in repr && venues[i].engine in repr)
      && (forall i, j :: 0 <= i < j < |venues| ==> venues[i] != venues[j] && venues[i].engine != venues[j].engine)
    }

    ghost predicate Valid()
      reads this, repr
    {
      && this in repr && Apart() && |books| == |venues| > 0
      && (forall i :: 0 <= i < |venues| ==> Keeps(venues[i], books[i]))
      && RingOk(refVenue, home, |venues|) && Homed(books, home)
    }

    constructor (venues: seq<Venue>)
      requires |venues| > 0 && forall i :: 0 <= i < |venues| ==> venues[i].Valid() && venues[i].byUserRef == map[]
      requires forall i, j :: 0 <= i < j < |venues| ==> venues[i] != venues[j] && venues[i].engine != venues[j].engine
      ensures Valid() && this.venues == venues && All(books, home) == map[] && fresh(repr - Parts(venues))
    {
      this.venues := venues;
      refVenue := seq(REF_RING, _ => RefVenue(0, 0));
      home, books := map[], seq(|venues|, _ => map[]);
      repr := Parts(venues) + {this};
      new;
      forall i | 0 <= i < |venues| ensures Keeps(venues[i], books[i]) {
        Session.OpenTold(venues[i]);
        assert Session.Open(venues[i]).Keys == {};
      }
    }

    /** Venues that did not change keep their orders. */
    twostate lemma OthersKeep(w: nat)
      requires |old(books)| == |venues|
      requires forall i :: 0 <= i < |venues| && i != w ==> old(Keeps(venues[i], books[i]))
      requires forall i :: 0 <= i < |venues| && i != w ==> unchanged(venues[i])
      requires forall i :: 0 <= i < |venues| && i != w ==> unchanged(venues[i].engine)
      ensures forall i :: 0 <= i < |venues| && i != w ==> Keeps(venues[i], old(books)[i])
    {
      forall i | 0 <= i < |venues| && i != w ensures Keeps(venues[i], old(books)[i]) {
        assert old(Keeps(venues[i], books[i]));
      }
    }

    lemma Distinct(i: nat, w: nat)
      requires Apart() && i < |venues| && w < |venues| && i != w
      ensures venues[i] != venues[w] && venues[i].engine != venues[w].engine
    {
      if w < i {
        assert venues[w] != venues[i];
      }
    }

    /** Records venue w's new orders. */
    ghost method Record(w: nat, l: Ledger.Book)
      requires |books| == |venues| && w < |venues| && Keeps(venues[w], l)
      requires forall i :: 0 <= i < |venues| && i != w ==> Keeps(venues[i], books[i])
      modifies this`books
      ensures books == old(books)[w := l] && forall i :: 0 <= i < |venues| ==> Keeps(venues[i], books[i])
    {
      books := books[w := l];
      OthersKeep(w);
      assert old(Keeps(venues[w], l));
    }

    /** The first venue of that symbol, or the very first if there is none. */
    ghost predicate Meant(sym: Symbol, w: nat)
      requires w < |venues|
    {
      if exists i :: 0 <= i < |venues| && venues[i].symbol == sym
      then venues[w].symbol == sym && forall i :: 0 <= i < w ==> venues[i].symbol != sym
      else w == 0
    }

    method VenueForSymbol(sym: Symbol) returns (w: nat)
      requires Valid()
      ensures w < |venues| && Meant(sym, w)
    {
      for i := 0 to |venues|
        invariant forall j :: 0 <= j < i ==> venues[j].symbol != sym
      {
        if venues[i].symbol == sym {
          return i;
        }
      }
      return 0;
    }

    /** In every reachable state, the venue that holds an open user ref, whatever the ring has overwritten. */
    method VenueForUserRef(user: nat) returns (w: nat)
      requires Valid()
      ensures w < |venues| && forall v :: 0 <= v < |venues| && user in venues[v].byUserRef ==> w == v
      ensures user in All(books, home) ==> home[user] == w
    {
      Holders(user);
      var r := refVenue[user % REF_RING];
      if r.userRef == user {
        return r.venue;
      }
      for i := 0 to |venues|
        invariant forall j :: 0 <= j < i ==> user !in venues[j].byUserRef
      {
        if user in venues[i].byUserRef {
          return i;
        }
      }
      return 0;
    }

    /** A user ref is open at a venue exactly if that venue's table has it, and then it is remembered there. */
    lemma Holders(user: nat)
      requires Valid()
      ensures forall v :: 0 <= v < |venues| && user in venues[v].byUserRef ==> user in home && home[user] == v
      ensures user in All(books, home) ==> home[user] < |venues| && user in venues[home[user]].byUserRef
    {
      forall v | 0 <= v < |venues| ensures user in venues[v].byUserRef <==> user in books[v] {
        KeepsMeans(venues[v], books[v]);
        Session.OpenTold(venues[v]);
      }
    }

    method RememberUserRef(user: nat, w: nat)
      requires RingOk(refVenue, home, |venues|) && user > 0 && w < |venues|
      modifies this`refVenue, this`home
      ensures RingOk(refVenue, home, |venues|) && home == old(home)[user := w]
    {
      RingRemember(refVenue, home, |venues|, user, w);
      refVenue := refVenue[user % REF_RING := RefVenue(user, w)];
      home := home[user := w];
    }

    /** Where a message goes: by symbol when it enters an order, by the order it names otherwise. */
    method Route(m: Session.Ouch) returns (w: nat)
      requires Valid()
      ensures w < |venues| && Routed(books, home, m, w)
      ensures m.Entering? ==> Meant(m.order.symbol, w)
      ensures !m.Entering? ==> forall v :: 0 <= v < |venues| && Named(m) in venues[v].byUserRef ==> w == v
    {
      match m {
        case Entering(o) => w := VenueForSymbol(o.symbol);
        case Replacing(o, _, _, _) => w := VenueForUserRef(o);
        case Cancelling(u, _) => w := VenueForUserRef(u);
      }
    }

    /** The venue's answer; the other venues do not notice. */
    method Ask(w: nat, m: Session.Ouch) returns (acks: seq<Ledger.Ack>)
      requires Apart() && |books| == |venues| && w < |venues|
               && (forall i :: 0 <= i < |venues| ==> Keeps(venues[i], books[i]))
      requires |venues[w].engine.pool| < NIL && Session.Fits(books[w], m)
      modifies venues[w], venues[w].engine
      ensures Session.Answer(books[w], m, acks) && Keeps(venues[w], Ledger.Fold(books[w], acks))
      ensures venues[w].oe == old(venues[w].oe) + acks
      ensures |acks| > 0 && Session.Decided(venues[w], books[w], m, acks[0])
      ensures forall i :: 0 <= i < |venues| && i != w ==> Keeps(venues[i], books[i])
      ensures OthersStay(w)
    {
      acks := AskVenue(venues[w], books[w], m);
      forall i | 0 <= i < |venues| && i != w ensures venues[i] != venues[w] && venues[i].engine != venues[w].engine {
        Distinct(i, w);
      }
      OthersKeep(w);
    }

    /** Every other venue is as it was, orders, messages and all. */
    twostate predicate OthersStay(w: nat)
      reads this, venues, set v: Venue | v in venues :: v.engine
    {
      forall i :: 0 <= i < |venues| && i != w ==> unchanged(venues[i]) && unchanged(venues[i].engine)
    }

    /** Remembers a new user ref and hands the message to the venue. */
    method ServeAt(w: nat, m: Session.Ouch) returns (acks: seq<Ledger.Ack>)
      requires Valid() && w < |venues| && |venues[w].engine.pool| < NIL
      requires Session.Fits(All(books, home), m) && Routed(books, home, m, w)
      modifies repr
      ensures Valid() && Session.Answer(old(All(books, home)), m, acks)
              && All(books, home) == Ledger.Fold(old(All(books, home)), acks)
      ensures venues[w].oe == old(venues[w].oe) + acks && books == old(books)[w := books[w]] && OthersStay(w)
      ensures |acks| > 0 && Session.Decided(venues[w], old(All(books, home)), m, acks[0])
    {
      ghost var books0, home0 := books, home;
      FitsAt(books, home, m, w);
      match m {
        case Entering(o) => RememberUserRef(o.user, w);
        case Replacing(_, u, _, _) => RememberUserRef(u, w);
        case Cancelling(_, _) =>
      }
      acks := Ask(w, m);
      RoutedAnswer(books0, home0, w, m, acks);
      DecidedByAll(venues[w], books0, home0, w, m, acks[0]);
      Record(w, Ledger.Fold(books[w], acks));
    }

    /**
     * One order-entry message, from any client. An entry goes to the first venue of its symbol, and anything
     * else to the venue whose table holds the order it names; no other venue changes at all. An entry is
     * accepted exactly if nothing is wrong with it at that venue. Together the venues answer like a single
     * one holding all orders.
     */
    method DispatchOuch(m: Session.Ouch) returns (acks: seq<Ledger.Ack>, ghost w: nat)
      requires Valid() && (forall i :: 0 <= i < |venues| ==> |venues[i].engine.pool| < NIL)
               && Session.Fits(All(books, home), m)
      modifies repr
      ensures Valid() && Session.Answer(old(All(books, home)), m, acks)
              && All(books, home) == Ledger.Fold(old(All(books, home)), acks)
      ensures w < |venues| && venues[w].oe == old(venues[w].oe) + acks && books == old(books)[w := books[w]]
      ensures OthersStay(w)
      ensures |acks| > 0 && Session.Decided(venues[w], old(All(books, home)), m, acks[0])
      ensures m.Entering? ==> Meant(m.order.symbol, w)
      ensures !m.Entering? ==> forall v :: 0 <= v < |venues| && Named(m) in old(venues[v].byUserRef) ==> w == v
    {
      var at := Route(m);
      w := at;
      acks := ServeAt(at, m);
    }

    /** Open orders hold shares. */
    lemma OpenShares()
      requires Valid()
      ensures forall u :: u in All(books, home) ==> All(books, home)[u].qty > 0
    {
      forall u | u in All(books, home) ensures All(books, home)[u].qty > 0 {
        var w := home[u];
        KeepsMeans(venues[w], books[w]);
        Session.OpenTold(venues[w]);
      }
    }

    /** A request of the order manager: the answer is one the protocol assumes. */
    method DispatchRequest(r: Request, sym: Symbol) returns (acks: seq<Ledger.Ack>, ghost w: nat)
      requires Valid() && (forall i :: 0 <= i < |venues| ==> |venues[i].engine.pool| < NIL)
      requires (r.Enter? || r.Replace? ==> r.price >= 0) && Acceptable(All(books, home), r)
      modifies repr
      ensures Valid() && Reply(old(All(books, home)), r, acks)
              && All(books, home) == Ledger.Fold(old(All(books, home)), acks)
      ensures w < |venues| && venues[w].oe == old(venues[w].oe) + acks && OthersStay(w)
      ensures r.Enter? ==> Meant(sym, w)
      ensures r.Enter? && venues[w].symbol == sym && r.qty > 0 && venues[w].OnGrid(r.price) ==>
                acks[0] == Ledger.Accepted(r.user, if r.slot % 2 == 0 then Buy else Sell, r.price, r.qty, false)
      ensures r.Replace? && r.orig in old(All(books, home)) && r.qty > 0 && venues[w].OnGrid(r.price) ==>
                acks[0] == Ledger.Replaced(r.orig, r.user, old(All(books, home))[r.orig].side, r.price, r.qty, false)
    {
      ghost var l := All(books, home);
      OpenShares();
      acks, w := DispatchOuch(Session.Message(r, sym));
      Session.AnswerReply(l, r, sym, acks);
    }

    method Play(w: nat, e: Session.TapeEvent) returns (acks: seq<Ledger.Ack>)
      requires Apart() && |books| == |venues| && w < |venues|
               && (forall i :: 0 <= i < |venues| ==> Keeps(venues[i], books[i]))
      requires Session.TapeOk(venues[w], e)
      modifies venues[w], venues[w].engine
      ensures AllExecuted(acks) && Ledger.Sound(books[w], acks) && Keeps(venues[w], Ledger.Fold(books[w], acks))
      ensures venues[w].oe == old(venues[w].oe) + acks && OthersStay(w)
      ensures forall i :: 0 <= i < |venues| && i != w ==> Keeps(venues[i], books[i])
    {
      acks := PlayVenue(venues[w], books[w], e);
      forall i | 0 <= i < |venues| && i != w ensures venues[i] != venues[w] && venues[i].engine != venues[w].engine {
        Distinct(i, w);
      }
      OthersKeep(w);
    }

    /** One tape event at one venue: a tape step of the protocol over all open orders. */
    method Tape(w: nat, e: Session.TapeEvent) returns (acks: seq<Ledger.Ack>)
      requires Valid() && w < |venues| && Session.TapeOk(venues[w], e)
      modifies repr
      ensures Valid() && AllExecuted(acks) && Ledger.Sound(old(All(books, home)), acks)
      ensures All(books, home) == Ledger.Fold(old(All(books, home)), acks)
      ensures venues[w].oe == old(venues[w].oe) + acks && OthersStay(w)
    {
      ghost var books0 := books;
      acks := Play(w, e);
      RoutedFills(books0, home, w, acks);
      Record(w, Ledger.Fold(books[w], acks));
    }
  }

  ghost function Parts(venues: seq<Venue>): set<object> {
    (set v: Venue | v in venues :: v as object) + (set v: Venue | v in venues :: v.engine as object)
  }

  /** The venue a message is routed to decides as all open orders together would have it. */
  lemma DecidedByAll(v: Venue, books: seq<Ledger.Book>, home: map<nat, nat>, w: nat, m: Session.Ouch, a: Ledger.Ack)
    requires Homed(books, home) && w < |books| && Routed(books, home, m, w) && Session.Decided(v, books[w], m, a)
    ensures Session.Decided(v, All(books, home), m, a)
  {
    SplitOff(books, home, w);
  }

  /** What all venues together may take, the venue it is sent to may take. */
  lemma FitsAt(books: seq<Ledger.Book>, home: map<nat, nat>, m: Session.Ouch, w: nat)
    requires Homed(books, home) && w < |books| && Session.Fits(All(books, home), m)
    ensures Session.Fits(books[w], m)
  {
    SplitOff(books, home, w);
  }
}
