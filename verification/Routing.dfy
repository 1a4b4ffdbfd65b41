/**
 * Several venues behind one order-entry session. A replace or cancel carries no symbol, so the
 * session finds the venue through a hint ring with a scan behind it; with that, any number of
 * venues looks to the order manager like one.
 */
module Routing {
  import opened OmsSpec
  import opened Protocol
  import opened Session
  import Ledger

  const REF_RING: nat := 4096

  datatype RefVenue = RefVenue(userRef: nat, venue: nat)

  /** Every hint names the venue its user ref was last sent to. */
  ghost predicate RingOk(ring: seq<RefVenue>, home: map<nat, nat>, venues: nat) {
    && |ring| == REF_RING && 0 !in home
    && forall i :: 0 <= i < |ring| ==>
         && ring[i].venue < venues
         && (ring[i].userRef != 0 ==>
               ring[i].userRef % REF_RING == i && ring[i].userRef in home && home[ring[i].userRef] == ring[i].venue)
  }

  lemma RingRemember(ring: seq<RefVenue>, home: map<nat, nat>, venues: nat, user: nat, venue: nat)
    requires RingOk(ring, home, venues) && user > 0 && venue < venues
    ensures RingOk(ring[user % REF_RING := RefVenue(user, venue)], home[user := venue], venues)
  {
  }

  // ---- many books as one

  /** Every open order is open only at the venue its user ref was last sent to. */
  ghost predicate Homed(books: seq<Ledger.Book>, home: map<nat, nat>) {
    forall w, u {:trigger u in books[w]} :: 0 <= w < |books| && u in books[w] ==> u in home && home[u] == w
  }

  /** All venues' open orders. */
  ghost function All(books: seq<Ledger.Book>, home: map<nat, nat>): Ledger.Book {
    map u | u in home && home[u] < |books| && u in books[home[u]] :: books[home[u]][u]
  }

  /** All open orders but those of venue w. */
  ghost function Others(books: seq<Ledger.Book>, home: map<nat, nat>, w: nat): Ledger.Book {
    map u | u in home && home[u] < |books| && home[u] != w && u in books[home[u]] :: books[home[u]][u]
  }

  /** The orders of one venue beside the orders of all the others. */
  function Beside(a: Ledger.Book, b: Ledger.Book): Ledger.Book {
    b + a
  }

  lemma SplitOff(books: seq<Ledger.Book>, home: map<nat, nat>, w: nat)
    requires Homed(books, home) && w < |books|
    ensures All(books, home) == Beside(books[w], Others(books, home, w)) && books[w].Keys !! Others(books, home, w).Keys
  {
    assert forall u :: u in books[w] ==> u in home && home[u] == w;
  }

  /** One venue's orders change; only x may be new there, and x is remembered for that venue. */
  lemma PutBack(books: seq<Ledger.Book>, home: map<nat, nat>, home': map<nat, nat>, w: nat, l: Ledger.Book)
    requires Homed(books, home) && w < |books|
    requires forall u :: u in l ==> u in home' && home'[u] == w
    requires home.Keys <= home'.Keys
    requires forall u :: u in home' && (u !in home || home'[u] != home[u]) ==>
               home'[u] == w && u !in Others(books, home, w)
    ensures Homed(books[w := l], home') && All(books[w := l], home') == Beside(l, Others(books, home, w))
  {
    PutHome(books, home, home', w, l);
    SplitOff(books[w := l], home', w);
    assert Others(books[w := l], home', w) == Others(books, home, w);
  }

  lemma PutHome(books: seq<Ledger.Book>, home: map<nat, nat>, home': map<nat, nat>, w: nat, l: Ledger.Book)
    requires Homed(books, home) && w < |books|
    requires forall u :: u in l ==> u in home' && home'[u] == w
    requires home.Keys <= home'.Keys
    requires forall u :: u in home' && (u !in home || home'[u] != home[u]) ==>
               home'[u] == w && u !in Others(books, home, w)
    ensures Homed(books[w := l], home')
  {
    var books' := books[w := l];
    forall v, u | 0 <= v < |books'| && u in books'[v] ensures u in home' && home'[u] == v {
      if v != w {
        assert u in books[v];
        assert u in Others(books, home, w);
      }
    }
  }

  /** Messages of one venue mean the same whether or not other venues hold other orders. */
  lemma {:induction false} FrameAcks(a: Ledger.Book, b: Ledger.Book, s: seq<Ack>)
    requires a.Keys !! b.Keys && Ledger.Sound(a, s)
    requires forall i :: 0 <= i < |s| && (s[i].Accepted? || s[i].Replaced?) ==> s[i].user !in b
    ensures Ledger.Sound(Beside(a, b), s)
    ensures Ledger.Fold(a, s).Keys !! b.Keys
    ensures Ledger.Fold(Beside(a, b), s) == Beside(Ledger.Fold(a, s), b)
    decreases |s|
  {
    if s != [] {
      var a' := Ledger.Apply(a, s[0]);
      FrameOne(a, b, s[0]);
      FrameAcks(a', b, s[1..]);
    }
  }

  lemma FrameOne(a: Ledger.Book, b: Ledger.Book, m: Ack)
    requires a.Keys !! b.Keys && Ledger.Consistent(a, m) && (m.Accepted? || m.Replaced? ==> m.user !in b)
    ensures Ledger.Consistent(Beside(a, b), m)
    ensures Ledger.Apply(a, m).Keys !! b.Keys
    ensures Ledger.Apply(Beside(a, b), m) == Beside(Ledger.Apply(a, m), b)
  {
  }

  /** Only messages that open an order under x can add one. */
  lemma {:induction false} FoldOpens(l: Ledger.Book, s: seq<Ack>, xs: set<nat>)
    requires forall i :: 0 <= i < |s| && (s[i].Accepted? || s[i].Replaced?) ==> s[i].user in xs
    ensures forall u :: u in Ledger.Fold(l, s) ==> u in l || u in xs
    decreases |s|
  {
    if s != [] {
      FoldOpens(Ledger.Apply(l, s[0]), s[1..], xs);
    }
  }

  // ---- routing

  /** A message about an open order goes to the venue that holds it. */
  ghost predicate Routed(books: seq<Ledger.Book>, home: map<nat, nat>, m: Ouch, w: nat) {
    match m
    case Entering(_) => true
    case Replacing(o, _, _, _) => o in All(books, home) ==> home[o] == w
    case Cancelling(u, _) => u in All(books, home) ==> home[u] == w
  }

  /** New user refs are remembered with the venue they are sent to. */
  function Remembered(home: map<nat, nat>, m: Ouch, w: nat): map<nat, nat> {
    match m
    case Entering(o) => home[o.user := w]
    case Replacing(_, u, _, _) => home[u := w]
    case Cancelling(_, _) => home
  }

  /** The refs an answer can open. */
  function NewRefs(m: Ouch): set<nat> {
    match m
    case Entering(o) => {o.user}
    case Replacing(_, u, _, _) => {u}
    case Cancelling(_, _) => {}
  }

  lemma AnswerOpens(l: Ledger.Book, m: Ouch, acks: seq<Ack>)
    requires Answer(l, m, acks)
    ensures forall i :: 0 <= i < |acks| && (acks[i].Accepted? || acks[i].Replaced?) ==> acks[i].user in NewRefs(m)
  {
    forall i | 1 <= i < |acks| ensures !acks[i].Accepted? && !acks[i].Replaced? {
      assert acks[i] == acks[1..][i - 1];
    }
  }

  /** A new ref is not open at any other venue. */
  lemma NewElsewhere(books: seq<Ledger.Book>, home: map<nat, nat>, m: Ouch, w: nat)
    requires Homed(books, home) && w < |books| && Fits(All(books, home), m) && Routed(books, home, m, w)
    ensures forall u :: u in NewRefs(m) ==> u !in Others(books, home, w)
  {
    SplitOff(books, home, w);
  }

  /** Beside orders of other venues an answer is still one. */
  lemma FrameAnswer(a: Ledger.Book, b: Ledger.Book, m: Ouch, acks: seq<Ack>)
    requires a.Keys !! b.Keys && Answer(a, m, acks) && (forall u :: u in NewRefs(m) ==> u !in b)
    requires m.Cancelling? ==> m.user !in b
    ensures Answer(Beside(a, b), m, acks) && Ledger.Fold(Beside(a, b), acks) == Beside(Ledger.Fold(a, acks), b)
  {
    AnswerOpens(a, m, acks);
    FrameAcks(a, b, acks);
  }

  /**
   * A venue's answer to a message routed to it is an answer of the one big venue that holds all orders,
   * and afterwards every open order is again only at the venue it was last sent to.
   */
  lemma RoutedAnswer(books: seq<Ledger.Book>, home: map<nat, nat>, w: nat, m: Ouch, acks: seq<Ack>)
    requires Homed(books, home) && w < |books| && Fits(All(books, home), m) && Routed(books, home, m, w)
    requires Answer(books[w], m, acks)
    ensures Answer(All(books, home), m, acks)
    ensures var books', home' := books[w := Ledger.Fold(books[w], acks)], Remembered(home, m, w);
            Homed(books', home') && All(books', home') == Ledger.Fold(All(books, home), acks)
  {
    var a, b := books[w], Others(books, home, w);
    SplitOff(books, home, w);
    NewElsewhere(books, home, m, w);
    FrameAnswer(a, b, m, acks);
    AnswerOpens(a, m, acks);
    FoldOpens(a, acks, NewRefs(m));
    PutBack(books, home, Remembered(home, m, w), w, Ledger.Fold(a, acks));
  }

  /** Fills at one venue are fills of the one big venue. */
  lemma RoutedFills(books: seq<Ledger.Book>, home: map<nat, nat>, w: nat, acks: seq<Ack>)
    requires Homed(books, home) && w < |books| && AllExecuted(acks) && Ledger.Sound(books[w], acks)
    ensures Ledger.Sound(All(books, home), acks)
    ensures var books' := books[w := Ledger.Fold(books[w], acks)];
            Homed(books', home) && All(books', home) == Ledger.Fold(All(books, home), acks)
  {
    var a, b := books[w], Others(books, home, w);
    SplitOff(books, home, w);
    FrameAcks(a, b, acks);
    FoldOpens(a, acks, {});
    PutBack(books, home, home, w, Ledger.Fold(a, acks));
  }
}
