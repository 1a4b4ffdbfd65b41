/**
 * The session's gate before the strategy: a message that left the top version where the last quote
 * saw it is not quoted again, and an acknowledgement marks the book dirty so that the next one is.
 */
module QuoteGate {
  import opened Types
  import opened BookBuilderModel
  import opened Ownership
  import opened BandTotals
  import opened BandOps
  import Feed

  /** The mark an acknowledgement leaves; it is also a possible version. */
  const DIRTY: nat := 0xFFFF_FFFF

  /** What the session remembers: the version last quoted, unless an acknowledgement came since. */
  function Mark(quoted: nat, acked: bool): nat {
    if acked then DIRTY else Low32(quoted)
  }

  predicate Skips(mark: nat, version: nat) {
    Low32(version) == mark
  }

  /**
   * With fewer than 2^32 changes since the last quote, a changed top or a requested quote is lost
   * exactly when the book is marked dirty and its version has the value of the mark.
   */
  lemma LostExactly(quoted: nat, version: nat, acked: bool, same: bool)
    requires quoted <= version < quoted + TWO32 && (version == quoted ==> same)
    ensures Skips(Mark(quoted, acked), version) && !(same && !acked) <==> acked && Low32(version) == DIRTY
  {
    if Low32(quoted) == Low32(version) {
      assert (version - quoted) % TWO32 == 0;
    }
  }

  /** A quote at version 2^32 - 2, an acknowledgement and one change of the top: the change is skipped. */
  lemma LostInput()
    ensures Skips(Mark(0xFFFF_FFFE, true), 0xFFFF_FFFE + 1)
    ensures !Skips(Mark(0xFFFF_FFFE, false), 0xFFFF_FFFE + 1)
  {
  }

  // ---- runs

  datatype Event = Book(m: Feed.Itch) | ClearBook | AckIn | QuoteNow

  ghost function BookAfter(b: Feed.Book, e: Event): Feed.Book {
    match e
    case Book(m) => Feed.Apply(b, m)
    case ClearBook => map[]
    case AckIn => b
    case QuoteNow => b
  }

  ghost predicate EventsOk(b: Feed.Book, es: seq<Event>)
    decreases |es|
  {
    es == [] || ((es[0].Book? ==> WellFormed(b, es[0].m)) && EventsOk(BookAfter(b, es[0]), es[1..]))
  }

  /** The book after a run. */
  ghost function BookAfterAll(b: Feed.Book, es: seq<Event>): Feed.Book
    decreases |es|
  {
    if es == [] then b else BookAfterAll(BookAfter(b, es[0]), es[1..])
  }

  /** What the session remembers of the last quote, and whether an acknowledgement came since. */
  datatype Gate = Gate(quoted: nat, top: Top, acked: bool)

  /** The book's version, its band, its orders and the first reference that is our own. */
  datatype View = View(version: nat, grid: Grid, orders: Orders, ownMin: nat)

  /** The top that a rebuild of the orders shows. */
  ghost function Shown(v: View): Top {
    if v.grid.tick > 0 then BuiltTop(v.grid, v.orders) else Top(Edge(NO_PRICE, 0), Edge(NO_PRICE, 0), 0, 0)
  }

  datatype Moment = Moment(gate: Gate, view: View)

  /** The gate passes over a message that leaves the book at this version. */
  ghost predicate PassesOver(g: Gate, version: nat) {
    Skips(Mark(g.quoted, g.acked), version)
  }

  /** The event makes the strategy quote. */
  ghost predicate QuotesAt(a: Moment, e: Event, b: Moment) {
    e.QuoteNow? || (e.Book? && !PassesOver(a.gate, b.view.version))
  }

  /**
   * One event: the orders change as the feed says, versions only grow, an unchanged version means an
   * unchanged top, and the gate does its part.
   */
  ghost predicate Follows(a: Moment, e: Event, b: Moment) {
    && a.view.version <= b.view.version && (a.view.version == b.view.version ==> Shown(a.view) == Shown(b.view))
    && Plain(b.view.orders) == BookAfter(Plain(a.view.orders), e)
    && match e
       case Book(m) =>
         && Moves(a.view.orders, m, a.view.ownMin, b.view.orders) && b.view.ownMin == a.view.ownMin
         && b.gate == if QuotesAt(a, e, b) then Gate(b.view.version, Shown(b.view), false) else a.gate
       case ClearBook => b.gate == a.gate && a.view.version < b.view.version && b.view.orders == map[]
       case AckIn => b == Moment(a.gate.(acked := true), a.view)
       case QuoteNow => b == Moment(Gate(a.view.version, Shown(a.view), false), a.view)
  }

  ghost predicate Path(path: seq<Moment>, es: seq<Event>) {
    |path| == |es| + 1 && forall i :: 0 <= i < |es| ==> Follows(path[i], es[i], path[i + 1])
  }

  /** Quotes made along a path. */
  ghost function Quotes(path: seq<Moment>, es: seq<Event>, n: nat): nat
    requires |path| == |es| + 1 && n <= |es|
  {
    if n == 0 then 0 else Quotes(path, es, n - 1) + if QuotesAt(path[n - 1], es[n - 1], path[n]) then 1 else 0
  }

  /** The remembered quote is not ahead of the book, and at its version the top is the remembered one. */
  ghost predicate Remembers(m: Moment) {
    m.gate.quoted <= m.view.version && (m.gate.quoted == m.view.version ==> m.gate.top == Shown(m.view))
  }

  lemma {:induction false} PathRemembers(path: seq<Moment>, es: seq<Event>, i: nat)
    requires Path(path, es) && Remembers(path[0]) && i < |path|
    ensures Remembers(path[i])
  {
    if i > 0 {
      PathRemembers(path, es, i - 1);
      assert Follows(path[i - 1], es[i - 1], path[i]);
    }
  }

  /**
   * Anywhere in any run: a message whose change of the top, or whose requested quote, is passed over
   * is one that finds the book marked dirty at the version of the mark, and every such message is.
   */
  lemma PathLosesExactly(path: seq<Moment>, es: seq<Event>, i: nat)
    requires Path(path, es) && Remembers(path[0]) && i < |es| && es[i].Book?
    requires path[i + 1].view.version < path[i].gate.quoted + TWO32
    ensures var g, v := path[i].gate, path[i + 1].view;
            !QuotesAt(path[i], es[i], path[i + 1]) && !(Shown(v) == g.top && !g.acked) <==>
              g.acked && Low32(v.version) == DIRTY
  {
    PathRemembers(path, es, i);
    var a, b := path[i], path[i + 1];
    assert Follows(a, es[i], b);
    LostExactly(a.gate.quoted, b.view.version, a.gate.acked, Shown(b.view) == a.gate.top);
  }

  /**
   * What the gate remembers at moment i: the book as it was at the last quote, and exactly whether an
   * acknowledgement came after it.
   */
  lemma {:induction false} LastQuote(path: seq<Moment>, es: seq<Event>, i: nat) returns (j: nat)
    requires Path(path, es) && i < |path|
    ensures j <= i && forall k :: j <= k < i ==> !QuotesAt(path[k], es[k], path[k + 1])
    ensures j > 0 ==>
              && QuotesAt(path[j - 1], es[j - 1], path[j])
              && path[j].gate == Gate(path[j].view.version, Shown(path[j].view), false)
    ensures path[i].gate.quoted == path[j].gate.quoted && path[i].gate.top == path[j].gate.top
    ensures path[i].gate.acked <==> path[j].gate.acked || exists k :: j <= k < i && es[k].AckIn?
  {
    if i == 0 {
      j := 0;
    } else {
      assert Follows(path[i - 1], es[i - 1], path[i]);
      if QuotesAt(path[i - 1], es[i - 1], path[i]) {
        j := i;
      } else {
        j := LastQuote(path, es, i - 1);
        if es[i - 1].AckIn? {
          assert es[i - 1].AckIn?;
        }
      }
    }
  }

  class HotBook {
    const book: BookBuilder
    var topSeen: nat
    var quotes: nat
    var forgets: nat
    /** Version and top at the last quote, and whether an acknowledgement came since. */
    ghost var quoted: nat
    ghost var quotedTop: Top
    ghost var acked: bool

    ghost predicate Valid()
      reads this, book
    {
      && book.Valid() && quoted <= book.topVersion && topSeen == Mark(quoted, acked)
      && (quoted == book.topVersion ==> quotedTop == book.TopOf())
    }

    ghost function Now(): Moment
      reads this, book
    {
      Moment(Gate(quoted, quotedTop, acked), View(book.topVersion, book.grid, book.orders, book.ownRefMin))
    }

    constructor (book: BookBuilder)
      requires book.Valid()
      ensures Valid() && this.book == book && !acked && quotes == 0
    {
      this.book := book;
      topSeen, quotes, forgets := 0, 0, 0;
      quoted, quotedTop, acked := 0, book.TopOf(), false;
    }

    /** Hands the book to the strategy and remembers its version. */
    method Quote()
      requires Valid()
      modifies this
      ensures Valid() && quoted == book.topVersion && quotedTop == book.TopOf() && !acked
      ensures quotes == old(quotes) + 1 && forgets == old(forgets)
    {
      topSeen := Low32(book.topVersion);
      quotes := quotes + 1;
      quoted, quotedTop, acked := book.topVersion, book.TopOf(), false;
    }

    /** An acknowledgement for this symbol asks for a fresh quote. */
    method OnAck()
      requires Valid()
      modifies this
      ensures Valid() && acked && quoted == old(quoted) && quotedTop == old(quotedTop)
      ensures quotes == old(quotes) && forgets == old(forgets)
    {
      topSeen := DIRTY;
      acked := true;
    }

    method Clear()
      requires Valid()
      modifies this, book
      ensures Valid() && book.orders == map[] && acked == old(acked) && quoted == old(quoted)
      ensures quotedTop == old(quotedTop) && quotes == old(quotes) && forgets == old(forgets)
      ensures book.topVersion > old(book.topVersion)
    {
      book.Clear();
    }

    /** Applies one message and quotes unless the gate sees nothing new. */
    method OnMessage(m: Feed.Itch) returns (skipped: bool)
      requires Valid() && WellFormed(Plain(book.orders), m)
      modifies this, book
      ensures Valid() && Plain(book.orders) == Feed.Apply(old(Plain(book.orders)), m)
      ensures Moves(old(book.orders), m, book.ownRefMin, book.orders)
      ensures skipped <==> Low32(book.topVersion) == old(topSeen)
      ensures book.topVersion < old(quoted) + TWO32 ==>
                (skipped && !(book.TopOf() == old(quotedTop) && !old(acked)) <==>
                   old(acked) && Low32(book.topVersion) == DIRTY)
      ensures !skipped ==> quoted == book.topVersion && !acked && quotes == old(quotes) + 1
      ensures forgets == old(forgets) + if !skipped && old(topSeen) == DIRTY then 1 else 0
      ensures book.topVersion >= old(book.topVersion)
              && (book.topVersion == old(book.topVersion) ==> book.TopOf() == old(book.TopOf()))
      ensures !skipped ==> quotedTop == book.TopOf()
      ensures skipped ==>
                quoted == old(quoted) && acked == old(acked) && quotes == old(quotes) && quotedTop == old(quotedTop)
      ensures old(book.Improves(m)) ==>
                book.topVersion == old(book.topVersion) + 1 && book.HalfOf(m.side).best == m.price
    {
      book.Apply(m);
      skipped := Low32(book.topVersion) == topSeen;
      if book.topVersion < quoted + TWO32 {
        LostExactly(quoted, book.topVersion, acked, book.TopOf() == quotedTop);
      }
      if !skipped {
        if topSeen == DIRTY {
          forgets := forgets + 1;
        }
        Quote();
      }
    }

    /**
     * Any run of messages, clears, acknowledgements and forced quotes: the moments it passes through, from
     * the state before to the state after, follow one another, and the quotes made are those they call for.
     */
    method Run(es: seq<Event>) returns (ghost path: seq<Moment>)
      requires Valid() && EventsOk(Plain(book.orders), es)
      modifies this, book
      ensures Valid() && Plain(book.orders) == BookAfterAll(old(Plain(book.orders)), es)
      ensures Path(path, es) && path[0] == old(Now()) && Remembers(path[0]) && path[|es|] == Now()
      ensures quotes == old(quotes) + Quotes(path, es, |es|)
    {
      path := [Now()];
      NowRemembers();
      var i := 0;
      while i < |es|
        invariant 0 <= i <= |es| && Valid() && EventsOk(Plain(book.orders), es[i..])
        invariant BookAfterAll(Plain(book.orders), es[i..]) == BookAfterAll(old(Plain(book.orders)), es)
        invariant |path| == i + 1 && path[0] == old(Now()) && path[i] == Now()
        invariant Path(path, es[..i]) && quotes == old(quotes) + Quotes(path, es[..i], i)
        decreases |es| - i
      {
        assert es[i..][0] == es[i] && es[i..][1..] == es[i + 1..];
        One(es[i]);
        PathSnoc(path, es, i, Now());
        path := path + [Now()];
        i := i + 1;
      }
      assert es[i..] == [] && es[..i] == es;
    }

    method One(e: Event)
      requires Valid() && (e.Book? ==> WellFormed(Plain(book.orders), e.m))
      modifies this, book
      ensures Valid() && Plain(book.orders) == BookAfter(old(Plain(book.orders)), e)
      ensures Follows(old(Now()), e, Now())
      ensures quotes == old(quotes) + if QuotesAt(old(Now()), e, Now()) then 1 else 0
    {
      book.TopIsBuilt();
      match e {
        case Book(m) =>
          var _ := OnMessage(m);
        case ClearBook => Clear();
        case AckIn => OnAck();
        case QuoteNow => Quote();
      }
      book.TopIsBuilt();
    }

    lemma NowRemembers()
      requires Valid()
      ensures Remembers(Now())
    {
      book.TopIsBuilt();
    }
  }

  /** One more event extends a path and its count of quotes. */
  lemma PathSnoc(path: seq<Moment>, es: seq<Event>, i: nat, m: Moment)
    requires i < |es| && Path(path, es[..i]) && Follows(path[i], es[i], m)
    ensures Path(path + [m], es[..i + 1])
    ensures Quotes(path + [m], es[..i + 1], i + 1) == Quotes(path, es[..i], i) + if QuotesAt(path[i], es[i], m) then 1
            else 0
  {
    PathGrows(path, es, i, m);
    QuotesSame(path, es[..i], path + [m], es[..i + 1], i);
  }

  lemma PathGrows(path: seq<Moment>, es: seq<Event>, i: nat, m: Moment)
    requires i < |es| && Path(path, es[..i]) && Follows(path[i], es[i], m)
    ensures Path(path + [m], es[..i + 1])
  {
    var path', es' := path + [m], es[..i + 1];
    forall k | 0 <= k < |es'| ensures Follows(path'[k], es'[k], path'[k + 1]) {
      if k < i {
        assert es'[k] == es[..i][k] && path'[k] == path[k] && path'[k + 1] == path[k + 1];
        assert Follows(path[k], es[..i][k], path[k + 1]);
      }
    }
  }

  lemma {:induction false} QuotesSame(path: seq<Moment>, es: seq<Event>, path': seq<Moment>, es': seq<Event>, n: nat)
    requires |path| == |es| + 1 && |path'| == |es'| + 1 && n <= |es| && path <= path' && es <= es'
    ensures Quotes(path', es', n) == Quotes(path, es, n)
  {
    if n > 0 {
      QuotesSame(path, es, path', es', n - 1);
    }
  }

  /**
   * The failing run on a real book: from version 2^32 - 2 a better bid arrives after an
   * acknowledgement and is not quoted.
   */
  method LostTop(h: HotBook, ref: nat, shares: nat, price: int) returns (skipped: bool)
    requires h.Valid() && h.quoted == h.book.topVersion && Low32(h.book.topVersion) == 0xFFFF_FFFE
    requires var m := Feed.AddOrder(ref, Buy, shares, price);
             WellFormed(Plain(h.book.orders), m) && h.book.Improves(m) && price != h.book.bestBid
    modifies h, h.book
    ensures skipped && h.book.bestBid == price != old(h.book.bestBid) && h.quotes == old(h.quotes)
  {
    h.OnAck();
    skipped := h.OnMessage(Feed.AddOrder(ref, Buy, shares, price));
  }
}
