/**
 * The venue's own tables beside the engine pool: the live map, the user-ref map and the client
 * list, what they must agree on, and what each elementary change does to the two views derived
 * from them (the client ledger and the published book).
 */
module VenueState {
  import opened Types
  import opened Fifo
  import Ledger
  import Feed

  datatype LiveOrder = LiveOrder(handle: nat, side: Side, tick: int, client: bool, userRef: nat)

  /** The tables; `base` is the venue's first own order ref, tape refs lie below it. */
  datatype Desk = Desk(live: map<nat, LiveOrder>, byUser: map<nat, nat>, clients: seq<nat>, base: nat, wire: nat)

  function Wire(tick: int, w: nat): int {
    tick * w
  }

  /** The live entry for ref names the pool slot that holds it. */
  ghost predicate Rests(ref: nat, lo: LiveOrder, pool: seq<Order>) {
    && ref > 0 && lo.handle < |pool|
    && var o := pool[lo.handle]; o.qty > 0 && o.id == ref && o.side == lo.side && o.price == lo.tick
  }

  ghost predicate LiveOk(live: map<nat, LiveOrder>, pool: seq<Order>) {
    && (forall ref :: ref in live ==> Rests(ref, live[ref], pool))
    && (forall h :: 0 <= h < |pool| && pool[h].qty > 0 ==> pool[h].id in live && live[pool[h].id].handle == h)
  }

  ghost predicate UsersOk(live: map<nat, LiveOrder>, byUser: map<nat, nat>, clients: seq<nat>) {
    && (forall u :: u in byUser ==> byUser[u] in live && live[byUser[u]].client && live[byUser[u]].userRef == u)
    && (forall ref :: ref in live && live[ref].client ==>
          live[ref].userRef in byUser && byUser[live[ref].userRef] == ref)
    && NoDup(clients)
    && (forall ref :: ref in clients <==> ref in live && live[ref].client)
  }

  ghost predicate Agree(d: Desk, pool: seq<Order>) {
    && LiveOk(d.live, pool)
    && UsersOk(d.live, d.byUser, d.clients)
    && (forall ref :: ref in d.live && d.live[ref].client ==> ref >= d.base)
  }

  /** Live map, user-ref map, client list and pool describe the same orders. */
  ghost predicate DeskOk(d: Desk, pool: seq<Order>) {
    match d
    case Desk(_, _, _, _, _) => forall k: nat {:trigger Look(DeskSeal, k)} :: Look(DeskSeal, k) ==> Agree(d, pool)
  }

  lemma DeskMeans(d: Desk, pool: seq<Order>)
    requires DeskOk(d, pool)
    ensures Agree(d, pool)
  {
    assert Look(DeskSeal, 0);
  }

  /** No client order is locked or crossed with an opposite order; tape orders may cross each other. */
  ghost predicate Unlocked(live: map<nat, LiveOrder>) {
    forall a, b :: a in live && b in live && live[a].side.Buy? && live[b].side.Sell?
                   && (live[a].client || live[b].client) ==>
      live[a].tick < live[b].tick
  }

  function OpenOf(d: Desk, ref: nat, pool: seq<Order>): Ledger.Open {
    if ref in d.live && d.live[ref].handle < |pool|
    then Ledger.Open(d.live[ref].side, Wire(d.live[ref].tick, d.wire), pool[d.live[ref].handle].qty)
    else Ledger.Open(Buy, 0, 0)
  }

  /** The client's open orders, by user ref, as the venue holds them. */
  function LedgerOf(d: Desk, pool: seq<Order>): Ledger.Book {
    map u | u in d.byUser :: OpenOf(d, d.byUser[u], pool)
  }

  function ShownOf(d: Desk, ref: nat, pool: seq<Order>): Feed.Shown {
    var o := OpenOf(d, ref, pool); Feed.Shown(o.side, o.price, o.qty)
  }

  /** The resting orders the venue itself announced, by order ref. */
  function FeedOf(d: Desk, pool: seq<Order>): Feed.Book {
    map ref | ref in d.live && ref >= d.base :: ShownOf(d, ref, pool)
  }

  /** Slots other than h hold the same orders. */
  ghost predicate Elsewhere(pool: seq<Order>, pool': seq<Order>, h: nat) {
    |pool| <= |pool'| && forall x :: 0 <= x < |pool| && x != h ==> Same(pool[x], pool'[x])
  }

  /** Links do not matter to the desk. */
  lemma DeskSame(d: Desk, pool: seq<Order>, pool': seq<Order>)
    requires |pool| == |pool'| && forall x :: 0 <= x < |pool| ==> Same(pool[x], pool'[x])
    requires DeskOk(d, pool)
    ensures DeskOk(d, pool') && LedgerOf(d, pool') == LedgerOf(d, pool) && FeedOf(d, pool') == FeedOf(d, pool)
  {
    DeskMeans(d, pool);
    assert forall ref :: ref in d.live ==> Rests(ref, d.live[ref], pool);
    assert forall ref :: OpenOf(d, ref, pool') == OpenOf(d, ref, pool);
  }

  // ---- losing shares without leaving

  /** Order ref loses q of its shares and stays. */
  lemma Shrink(d: Desk, pool: seq<Order>, pool': seq<Order>, ref: nat, q: nat)
    requires DeskOk(d, pool) && ref in d.live && |pool| == |pool'|
    requires var h := d.live[ref].handle;
             h < |pool| && Elsewhere(pool, pool', h) && q < pool[h].qty
                 && Same(pool'[h], pool[h].(qty := pool[h].qty - q))
    ensures DeskOk(d, pool')
    ensures LedgerOf(d, pool') == if d.live[ref].client then Ledger.Reduce(LedgerOf(d, pool), d.live[ref].userRef, q)
            else LedgerOf(d, pool)
    ensures FeedOf(d, pool') == Feed.Reduce(FeedOf(d, pool), ref, q)
  {
    DeskMeans(d, pool);
    assert Rests(ref, d.live[ref], pool);
    ShrinkLive(d.live, pool, pool', ref, q);
    OthersKeep(d, d, pool, pool', ref);
    ShrinkLedger(d, pool, pool', ref);
  }

  lemma ShrinkLedger(d: Desk, pool: seq<Order>, pool': seq<Order>, ref: nat)
    requires UsersOk(d.live, d.byUser, d.clients) && ref in d.live
    requires forall r :: r in d.live && r != ref ==> OpenOf(d, r, pool') == OpenOf(d, r, pool)
    ensures LedgerOf(d, pool') == if d.live[ref].client
            then LedgerOf(d, pool)[d.live[ref].userRef := OpenOf(d, ref, pool')] else LedgerOf(d, pool)
  {
    forall u | u in d.byUser && d.byUser[u] != ref
      ensures OpenOf(d, d.byUser[u], pool') == OpenOf(d, d.byUser[u], pool)
    {
      assert d.byUser[u] in d.live;
    }
  }

  lemma ShrinkLive(live: map<nat, LiveOrder>, pool: seq<Order>, pool': seq<Order>, ref: nat, q: nat)
    requires LiveOk(live, pool) && ref in live && |pool| == |pool'|
    requires var h := live[ref].handle;
             h < |pool| && Elsewhere(pool, pool', h) && q < pool[h].qty
                 && Same(pool'[h], pool[h].(qty := pool[h].qty - q))
    ensures LiveOk(live, pool')
  {
    forall r | r in live ensures Rests(r, live[r], pool') {
      assert Rests(r, live[r], pool);
    }
    forall x | 0 <= x < |pool'| && pool'[x].qty > 0 ensures pool'[x].id in live && live[pool'[x].id].handle == x {
      assert pool[x].qty > 0;
    }
  }

  /** Orders other than ref read the same when only ref's slot changed. */
  lemma OthersKeep(d: Desk, d': Desk, pool: seq<Order>, pool': seq<Order>, ref: nat)
    requires LiveOk(d.live, pool) && ref in d.live && Elsewhere(pool, pool', d.live[ref].handle)
    requires d'.wire == d.wire && forall r :: r in d.live && r != ref ==> r in d'.live && d'.live[r] == d.live[r]
    ensures forall r :: r in d.live && r != ref ==> OpenOf(d', r, pool') == OpenOf(d, r, pool)
  {
    forall r | r in d.live && r != ref ensures OpenOf(d', r, pool') == OpenOf(d, r, pool) {
      assert Rests(r, d.live[r], pool) && Rests(ref, d.live[ref], pool);
    }
  }

  // ---- leaving

  function Gone(d: Desk, ref: nat, clients: seq<nat>): Desk
    requires ref in d.live
  {
    if d.live[ref].client then d.(live := d.live - {ref}, byUser := d.byUser - {d.live[ref].userRef},
                                  clients := clients)
    else d.(live := d.live - {ref})
  }

  /** clients' is clients without ref. */
  ghost predicate Removed(clients: seq<nat>, clients': seq<nat>, ref: nat) {
    NoDup(clients') && forall r :: r in clients' <==> r in clients && r != ref
  }

  function SwapRemove(s: seq<nat>, i: nat): seq<nat>
    requires i < |s|
  {
    s[i := s[|s| - 1]][..|s| - 1]
  }

  lemma SwapPrefix(s: seq<nat>, i: nat)
    requires i < |s|
    ensures |SwapRemove(s, i)| == |s| - 1 && SwapRemove(s, i)[..i] == s[..i]
  {
  }

  lemma SwapRemoved(s: seq<nat>, i: nat)
    requires i < |s| && NoDup(s)
    ensures Removed(s, SwapRemove(s, i), s[i])
  {
    var t := SwapRemove(s, i);
    forall r ensures r in t <==> r in s && r != s[i] {
      if r in s && r != s[i] {
        var j :| 0 <= j < |s| && s[j] == r;
        assert t[if j == |s| - 1 then i else j] == r;
      }
    }
  }

  /** Order ref leaves the book altogether. */
  lemma Leave(d: Desk, pool: seq<Order>, pool': seq<Order>, ref: nat, clients: seq<nat>)
    requires DeskOk(d, pool) && ref in d.live && |pool| == |pool'|
    requires d.live[ref].handle < |pool| && Elsewhere(pool, pool', d.live[ref].handle)
             && pool'[d.live[ref].handle].qty == 0
    requires d.live[ref].client ==> Removed(d.clients, clients, ref)
    ensures var d' := Gone(d, ref, clients);
            && DeskOk(d', pool')
            && LedgerOf(d', pool') == (if d.live[ref].client then LedgerOf(d, pool) - {d.live[ref].userRef}
                                       else LedgerOf(d, pool))
            && FeedOf(d', pool') == FeedOf(d, pool) - {ref}
  {
    DeskMeans(d, pool);
    var d' := Gone(d, ref, clients);
    LeaveLive(d.live, pool, pool', ref);
    LeaveUsers(d, ref, clients);
    OthersKeep(d, d', pool, pool', ref);
    LeaveLedger(d, d', pool, pool', ref);
  }

  lemma LeaveUsers(d: Desk, ref: nat, clients: seq<nat>)
    requires UsersOk(d.live, d.byUser, d.clients) && ref in d.live
    requires d.live[ref].client ==> Removed(d.clients, clients, ref)
    ensures var d' := Gone(d, ref, clients); UsersOk(d'.live, d'.byUser, d'.clients)
  {
  }

  lemma LeaveLedger(d: Desk, d': Desk, pool: seq<Order>, pool': seq<Order>, ref: nat)
    requires UsersOk(d.live, d.byUser, d.clients) && ref in d.live && d' == Gone(d, ref, d'.clients)
    requires forall r :: r in d.live && r != ref ==> OpenOf(d', r, pool') == OpenOf(d, r, pool)
    ensures LedgerOf(d', pool') == if d.live[ref].client then LedgerOf(d, pool) - {d.live[ref].userRef}
            else LedgerOf(d, pool)
  {
    forall u | u in d'.byUser ensures OpenOf(d', d'.byUser[u], pool') == OpenOf(d, d.byUser[u], pool) {
      assert d.byUser[u] != ref;
    }
  }

  lemma LeaveLive(live: map<nat, LiveOrder>, pool: seq<Order>, pool': seq<Order>, ref: nat)
    requires LiveOk(live, pool) && ref in live && |pool| == |pool'|
    requires live[ref].handle < |pool| && Elsewhere(pool, pool', live[ref].handle) && pool'[live[ref].handle].qty == 0
    ensures LiveOk(live - {ref}, pool')
  {
    forall r | r in live && r != ref ensures Rests(r, live[r], pool') {
      assert Rests(r, live[r], pool) && Rests(ref, live[ref], pool);
    }
    forall x | 0 <= x < |pool'| && pool'[x].qty > 0
      ensures pool'[x].id in live && pool'[x].id != ref && live[pool'[x].id].handle == x {
      assert pool[x].qty > 0;
    }
  }

  // ---- joining

  function Joined(d: Desk, ref: nat, lo: LiveOrder): Desk {
    if lo.client then d.(live := d.live[ref := lo], byUser := d.byUser[lo.userRef := ref], clients := d.clients + [ref])
    else d.(live := d.live[ref := lo])
  }

  /** A new order joins the book at slot lo.handle. */
  lemma Join(d: Desk, pool: seq<Order>, pool': seq<Order>, ref: nat, lo: LiveOrder, qty: nat)
    requires DeskOk(d, pool) && ref !in d.live && ref > 0 && qty > 0
    requires lo.client ==> lo.userRef !in d.byUser && ref >= d.base
    requires lo.handle < |pool'| && Same(pool'[lo.handle], Order(ref, lo.tick, qty, lo.side, 0, 0))
    requires if lo.handle < |pool| then |pool'| == |pool| && pool[lo.handle].qty == 0
             else |pool'| == |pool| + 1 && lo.handle == |pool|
    requires Elsewhere(pool, pool', lo.handle)
    ensures var d' := Joined(d, ref, lo);
            var o := Ledger.Open(lo.side, Wire(lo.tick, d.wire), qty);
            && DeskOk(d', pool')
            && LedgerOf(d', pool') == (if lo.client then LedgerOf(d, pool)[lo.userRef := o] else LedgerOf(d, pool))
            && FeedOf(d', pool') == (if ref >= d.base then FeedOf(d, pool)[ref := Feed.Shown(o.side, o.price, o.qty)]
                                     else FeedOf(d, pool))
  {
    DeskMeans(d, pool);
    var d' := Joined(d, ref, lo);
    JoinLive(d.live, pool, pool', ref, lo);
    JoinUsers(d, ref, lo);
    JoinKeep(d, d', pool, pool', ref, lo);
    JoinLedger(d, d', pool, pool', ref, lo);
    JoinFeed(d, d', pool, pool', ref, lo);
  }

  lemma JoinKeep(d: Desk, d': Desk, pool: seq<Order>, pool': seq<Order>, ref: nat, lo: LiveOrder)
    requires LiveOk(d.live, pool) && ref !in d.live && d' == Joined(d, ref, lo)
    requires lo.handle < |pool| ==> pool[lo.handle].qty == 0
    requires Elsewhere(pool, pool', lo.handle)
    ensures forall r :: r in d.live ==> OpenOf(d', r, pool') == OpenOf(d, r, pool)
  {
    forall r | r in d.live ensures OpenOf(d', r, pool') == OpenOf(d, r, pool) {
      assert Rests(r, d.live[r], pool);
    }
  }

  lemma JoinFeed(d: Desk, d': Desk, pool: seq<Order>, pool': seq<Order>, ref: nat, lo: LiveOrder)
    requires ref !in d.live && d' == Joined(d, ref, lo)
    requires forall r :: r in d.live ==> OpenOf(d', r, pool') == OpenOf(d, r, pool)
    ensures FeedOf(d', pool') == if ref >= d.base then FeedOf(d, pool)[ref := ShownOf(d', ref, pool')]
            else FeedOf(d, pool)
  {
  }

  lemma JoinUsers(d: Desk, ref: nat, lo: LiveOrder)
    requires UsersOk(d.live, d.byUser, d.clients) && ref !in d.live && (lo.client ==> lo.userRef !in d.byUser)
    ensures var d' := Joined(d, ref, lo); UsersOk(d'.live, d'.byUser, d'.clients)
  {
    assert ref !in d.clients;
    if lo.client {
      var cs := d.clients + [ref];
      forall i, j | 0 <= i < j < |cs| ensures cs[i] != cs[j] {
        assert cs[i] in d.clients;
      }
    }
  }

  lemma JoinLedger(d: Desk, d': Desk, pool: seq<Order>, pool': seq<Order>, ref: nat, lo: LiveOrder)
    requires UsersOk(d.live, d.byUser, d.clients) && ref !in d.live && d' == Joined(d, ref, lo)
    requires forall r :: r in d.live ==> OpenOf(d', r, pool') == OpenOf(d, r, pool)
    ensures LedgerOf(d', pool') == if lo.client then LedgerOf(d, pool)[lo.userRef := OpenOf(d', ref, pool')]
            else LedgerOf(d, pool)
  {
    forall u | u in d.byUser && (lo.client ==> u != lo.userRef)
      ensures OpenOf(d', d'.byUser[u], pool') == OpenOf(d, d.byUser[u], pool)
    {
      assert d.byUser[u] in d.live;
    }
  }

  lemma JoinLive(live: map<nat, LiveOrder>, pool: seq<Order>, pool': seq<Order>, ref: nat, lo: LiveOrder)
    requires LiveOk(live, pool) && ref !in live && ref > 0
    requires lo.handle < |pool'| && pool'[lo.handle].qty > 0
             && Same(pool'[lo.handle], Order(ref, lo.tick, pool'[lo.handle].qty, lo.side, 0, 0))
    requires if lo.handle < |pool| then |pool'| == |pool| && pool[lo.handle].qty == 0
             else |pool'| == |pool| + 1 && lo.handle == |pool|
    requires Elsewhere(pool, pool', lo.handle)
    ensures LiveOk(live[ref := lo], pool')
  {
    forall r | r in live ensures Rests(r, live[r], pool') {
      assert Rests(r, live[r], pool);
    }
    forall x | 0 <= x < |pool'| && x != lo.handle && pool'[x].qty > 0
      ensures pool'[x].id in live && live[pool'[x].id].handle == x {
      assert Same(pool[x], pool'[x]);
    }
  }

  // ---- the desk together with what was sent

  /** An accepted client order still being matched: it is in the ledger but not yet in the tables. */
  datatype Pending = NoOrder | Working(user: nat, side: Side, price: int, left: nat)

  function Plus(l: Ledger.Book, p: Pending): Ledger.Book {
    if p.NoOrder? || p.left == 0 then l else l[p.user := Ledger.Open(p.side, p.price, p.left)]
  }

  /** The tables agree with the pool, and the messages sent so far fold to exactly the open client orders. */
  ghost predicate BooksOk(d: Desk, next: nat, oe: seq<Ledger.Ack>, pool: seq<Order>, p: Pending) {
    match d
    case Desk(live, byUser, _, base, wire) =>
      && DeskOk(d, pool)
      && 0 < wire && 0 < base <= next
      && (forall ref :: ref in live ==> ref < next)
      && (p.Working? ==> p.user !in byUser)
      && Ledger.Told(oe, Plus(LedgerOf(d, pool), p))
  }

  ghost predicate FeedIs(d: Desk, md: seq<Feed.Itch>, pool: seq<Order>) {
    match d
    case Desk(_, _, _, _, _) => Feed.Shows(md, FeedOf(d, pool))
  }

  /** The desk after order ref lost q shares. */
  function FillDesk(d: Desk, pool: seq<Order>, ref: nat, q: nat, clients: seq<nat>): Desk
    requires ref in d.live && d.live[ref].handle < |pool|
  {
    if q >= pool[d.live[ref].handle].qty then Gone(d, ref, clients) else d
  }

  /** pool' is pool after order ref lost q shares. */
  ghost predicate PoolFill(d: Desk, pool: seq<Order>, pool': seq<Order>, ref: nat, q: nat) {
    && ref in d.live && d.live[ref].handle < |pool| == |pool'|
    && var h := d.live[ref].handle;
       && Elsewhere(pool, pool', h)
       && q <= pool[h].qty && Same(pool'[h], pool[h].(qty := pool[h].qty - q))
  }

  /** Losing shares, whether or not the order survives: both views reduce by the same amount. */
  lemma Fill(d: Desk, pool: seq<Order>, pool': seq<Order>, ref: nat, q: nat, clients: seq<nat>)
    requires DeskOk(d, pool) && PoolFill(d, pool, pool', ref, q)
    requires d.live[ref].client && q == pool[d.live[ref].handle].qty ==> Removed(d.clients, clients, ref)
    ensures var d' := FillDesk(d, pool, ref, q, clients);
            && DeskOk(d', pool')
            && LedgerOf(d', pool') == (if d.live[ref].client
                                       then Ledger.Reduce(LedgerOf(d, pool), d.live[ref].userRef, q)
                                           else LedgerOf(d, pool))
            && FeedOf(d', pool') == Feed.Reduce(FeedOf(d, pool), ref, q)
  {
    DeskMeans(d, pool);
    if q == pool[d.live[ref].handle].qty {
      Leave(d, pool, pool', ref, clients);
      assert FeedOf(d, pool) - {ref} == Feed.Reduce(FeedOf(d, pool), ref, q);
    } else {
      Shrink(d, pool, pool', ref, q);
    }
  }

  lemma WireMono(a: int, b: int, w: nat)
    ensures a <= b ==> Wire(a, w) <= Wire(b, w)
  {
    if a <= b {
      assert (b - a) * w >= 0;
    }
  }

  /** A fill published on the feed keeps the published book in step. */
  lemma FillFeed(d: Desk, md: seq<Feed.Itch>, pool: seq<Order>, pool': seq<Order>, ref: nat, q: nat, clients: seq<nat>)
    requires DeskOk(d, pool) && PoolFill(d, pool, pool', ref, q)
    requires d.live[ref].client && q == pool[d.live[ref].handle].qty ==> Removed(d.clients, clients, ref)
    requires FeedIs(d, md, pool)
    ensures FeedIs(FillDesk(d, pool, ref, q, clients), md + [Feed.OrderExecuted(ref, q)], pool')
  {
    Fill(d, pool, pool', ref, q, clients);
    Feed.ShowsOneMore(md, FeedOf(d, pool), Feed.OrderExecuted(ref, q));
  }

  /** Message a takes q shares off user ref u: an execution at its own price, or a cancel. */
  predicate Takes(a: Ledger.Ack, u: nat, q: nat, price: int) {
    a == Ledger.Executed(u, q, price) || (a.Canceled? && a.user == u && a.qty == q)
  }

  /** A resting client order loses shares, and its owner is told. */
  lemma FillClientBooks(d: Desk, next: nat, oe: seq<Ledger.Ack>, pool: seq<Order>, pool': seq<Order>, p: Pending,
                        ref: nat, q: nat, clients: seq<nat>, a: Ledger.Ack)
    requires BooksOk(d, next, oe, pool, p) && PoolFill(d, pool, pool', ref, q) && 0 < q && d.live[ref].client
    requires q == pool[d.live[ref].handle].qty ==> Removed(d.clients, clients, ref)
    requires Takes(a, d.live[ref].userRef, q, Wire(d.live[ref].tick, d.wire))
    ensures BooksOk(FillDesk(d, pool, ref, q, clients), next, oe + [a], pool', p)
  {
    Fill(d, pool, pool', ref, q, clients);
    var u := d.live[ref].userRef;
    ClientInLedger(d, pool, ref);
    PlusReduce(LedgerOf(d, pool), p, u, q);
    Ledger.ToldOneMore(oe, Plus(LedgerOf(d, pool), p), a);
  }

  lemma ClientInLedger(d: Desk, pool: seq<Order>, ref: nat)
    requires DeskOk(d, pool) && ref in d.live && d.live[ref].client
    ensures var u := d.live[ref].userRef;
            && u in d.byUser && d.byUser[u] == ref && d.live[ref].handle < |pool|
            && LedgerOf(d, pool)[u] == Ledger.Open(d.live[ref].side, Wire(d.live[ref].tick, d.wire),
                                                   pool[d.live[ref].handle].qty)
  {
    DeskMeans(d, pool);
    assert Rests(ref, d.live[ref], pool);
  }

  /** The client list covers the user-ref map and every client order. */
  lemma ClientsListed(d: Desk, pool: seq<Order>)
    requires DeskOk(d, pool)
    ensures forall u :: u in d.byUser ==> d.byUser[u] in d.clients
    ensures forall r :: r in d.live && d.live[r].client ==> r in d.clients
  {
    DeskMeans(d, pool);
  }

  /** Tables emptied when no client order was open: nobody needs to be told. */
  lemma ClearedBooks(d: Desk, d': Desk, next: nat, oe: seq<Ledger.Ack>, pool: seq<Order>)
    requires BooksOk(d, next, oe, pool, NoOrder) && d.clients == []
    requires d' == Desk(map[], map[], [], d.base, d.wire)
    ensures BooksOk(d', next, oe, [], NoOrder)
  {
    ClientsListed(d, pool);
    assert d.byUser.Keys == {};
    assert LedgerOf(d', []) == LedgerOf(d, pool);
  }

  lemma PlusReduce(l: Ledger.Book, p: Pending, u: nat, q: nat)
    requires u in l && (p.Working? ==> p.user !in l)
    ensures Plus(l, p)[u] == l[u] && Ledger.Reduce(Plus(l, p), u, q) == Plus(Ledger.Reduce(l, u, q), p)
  {
  }

  /** A fill of a resting tape or synthetic order: nobody to tell. */
  lemma FillOtherBooks(d: Desk, next: nat, oe: seq<Ledger.Ack>, pool: seq<Order>, pool': seq<Order>, p: Pending,
                       ref: nat, q: nat)
    requires BooksOk(d, next, oe, pool, p) && PoolFill(d, pool, pool', ref, q) && !d.live[ref].client
    ensures BooksOk(FillDesk(d, pool, ref, q, d.clients), next, oe, pool', p)
  {
    Fill(d, pool, pool', ref, q, d.clients);
  }

  /** An order taken off the book and the live table alone: only a client's leaves a user ref that names nothing. */
  lemma WithdrawBooks(d: Desk, d': Desk, next: nat, oe: seq<Ledger.Ack>, pool: seq<Order>, pool': seq<Order>, ref: nat)
    requires BooksOk(d, next, oe, pool, NoOrder) && ref in d.live && d.live[ref].handle < |pool|
    requires PoolFill(d, pool, pool', ref, pool[d.live[ref].handle].qty) && d' == d.(live := d.live - {ref})
    ensures BooksOk(d', next, oe, pool', NoOrder) <==> !d.live[ref].client
  {
    if d.live[ref].client {
      DeskMeans(d, pool);
      assert d.byUser[d.live[ref].userRef] == ref;
      if DeskOk(d', pool') {
        DeskMeans(d', pool');
      }
    } else {
      FillOtherBooks(d, next, oe, pool, pool', NoOrder, ref, pool[d.live[ref].handle].qty);
    }
  }

  /** A fill of the working aggressor, told to its owner. */
  lemma FillWorkingBooks(d: Desk, next: nat, oe: seq<Ledger.Ack>, pool: seq<Order>, p: Pending, q: nat, price: int)
    requires BooksOk(d, next, oe, pool, p) && p.Working? && 0 < q <= p.left
    requires Ledger.Matcher.Crosses(p.side, p.price, price)
    ensures BooksOk(d, next, oe + [Ledger.Executed(p.user, q, price)], pool, p.(left := p.left - q))
  {
    Ledger.ToldOneMore(oe, Plus(LedgerOf(d, pool), p), Ledger.Executed(p.user, q, price));
    assert p.user !in LedgerOf(d, pool);
    assert Ledger.Reduce(Plus(LedgerOf(d, pool), p), p.user, q) == Plus(LedgerOf(d, pool), p.(left := p.left - q));
  }

  /** Accepting an order puts it to work. */
  lemma AcceptBooks(d: Desk, next: nat, oe: seq<Ledger.Ack>, pool: seq<Order>, a: Ledger.Ack)
    requires BooksOk(d, next, oe, pool, NoOrder) && a.Accepted? && a.user !in d.byUser && a.qty > 0
    ensures BooksOk(d, next, oe + [a], pool, Working(a.user, a.side, a.price, a.qty))
  {
    Ledger.ToldOneMore(oe, LedgerOf(d, pool), a);
  }

  /** A refusal changes nothing. */
  lemma RefuseBooks(d: Desk, next: nat, oe: seq<Ledger.Ack>, pool: seq<Order>, a: Ledger.Ack)
    requires BooksOk(d, next, oe, pool, NoOrder) && (a.Rejected? || a.CancelReject?)
    ensures BooksOk(d, next, oe + [a], pool, NoOrder)
  {
    Ledger.ToldOneMore(oe, LedgerOf(d, pool), a);
  }

  /** The unfilled part of a working immediate order is cancelled. */
  lemma ExpireBooks(d: Desk, next: nat, oe: seq<Ledger.Ack>, pool: seq<Order>, p: Pending)
    requires BooksOk(d, next, oe, pool, p) && p.Working? && p.left > 0
    ensures BooksOk(d, next, oe + [Ledger.Canceled(p.user, p.left, Ledger.Ioc)], pool, NoOrder)
  {
    Ledger.ToldOneMore(oe, Plus(LedgerOf(d, pool), p), Ledger.Canceled(p.user, p.left, Ledger.Ioc));
    assert p.user !in LedgerOf(d, pool);
    assert Ledger.Reduce(Plus(LedgerOf(d, pool), p), p.user, p.left) == LedgerOf(d, pool);
  }

  lemma DoneBooks(d: Desk, next: nat, oe: seq<Ledger.Ack>, pool: seq<Order>, p: Pending)
    requires BooksOk(d, next, oe, pool, p) && (p.Working? ==> p.left == 0)
    ensures BooksOk(d, next, oe, pool, NoOrder)
  {
  }

  ghost predicate PoolJoin(pool: seq<Order>, pool': seq<Order>, ref: nat, lo: LiveOrder, qty: nat) {
    && lo.handle < |pool'| && Same(pool'[lo.handle], Order(ref, lo.tick, qty, lo.side, 0, 0))
    && (if lo.handle < |pool| then |pool'| == |pool| && pool[lo.handle].qty == 0
        else |pool'| == |pool| + 1 && lo.handle == |pool|)
    && Elsewhere(pool, pool', lo.handle)
  }

  /** The working order's remainder comes to rest, or a tape or synthetic order does. */
  lemma JoinBooks(d: Desk, next: nat, oe: seq<Ledger.Ack>, pool: seq<Order>, pool': seq<Order>, p: Pending, ref: nat,
                  lo: LiveOrder, qty: nat)
    requires BooksOk(d, next, oe, pool, p) && PoolJoin(pool, pool', ref, lo, qty)
    requires 0 < ref < next && ref !in d.live && qty > 0
    requires if lo.client then p == Working(lo.userRef, lo.side, Wire(lo.tick, d.wire), qty)
             && ref >= d.base else p.NoOrder?
    ensures BooksOk(Joined(d, ref, lo), next, oe, pool', NoOrder)
  {
    Join(d, pool, pool', ref, lo, qty);
  }

  /** The new order is announced. */
  lemma AnnounceFeed(d: Desk, md: seq<Feed.Itch>, pool: seq<Order>, pool': seq<Order>, ref: nat, lo: LiveOrder,
                     qty: nat)
    requires DeskOk(d, pool) && PoolJoin(pool, pool', ref, lo, qty) && FeedIs(d, md, pool)
    requires ref > 0 && ref !in d.live && qty > 0 && lo.tick >= 0
             && (lo.client ==> lo.userRef !in d.byUser && ref >= d.base)
    ensures FeedIs(Joined(d, ref, lo),
                   if ref >= d.base then md + [Feed.AddOrder(ref, lo.side, qty, Wire(lo.tick, d.wire))] else md, pool')
  {
    Join(d, pool, pool', ref, lo, qty);
    WireMono(0, lo.tick, d.wire);
    Feed.ShowsOneMore(md, FeedOf(d, pool), Feed.AddOrder(ref, lo.side, qty, Wire(lo.tick, d.wire)));
  }

  /** An order that left is deleted from the feed. */
  lemma LeaveFeed(d: Desk, md: seq<Feed.Itch>, pool: seq<Order>, pool': seq<Order>, ref: nat, clients: seq<nat>)
    requires DeskOk(d, pool) && ref in d.live && d.live[ref].handle < |pool| && FeedIs(d, md, pool)
    requires PoolFill(d, pool, pool', ref, pool[d.live[ref].handle].qty)
    requires d.live[ref].client ==> Removed(d.clients, clients, ref)
    ensures FeedIs(Gone(d, ref, clients), md + [Feed.OrderDelete(ref)], pool')
  {
    Leave(d, pool, pool', ref, clients);
    Feed.ShowsOneMore(md, FeedOf(d, pool), Feed.OrderDelete(ref));
  }

  /** The feed only asks for the live table, so it stays right whoever's order it was. */
  lemma WithdrawFeed(d: Desk, d': Desk, md: seq<Feed.Itch>, pool: seq<Order>, pool': seq<Order>, ref: nat)
    requires DeskOk(d, pool) && ref in d.live && d.live[ref].handle < |pool| && FeedIs(d, md, pool)
    requires PoolFill(d, pool, pool', ref, pool[d.live[ref].handle].qty) && d' == d.(live := d.live - {ref})
    ensures FeedIs(d', md + [Feed.OrderDelete(ref)], pool')
  {
    DeskMeans(d, pool);
    OthersKeep(d, d', pool, pool', ref);
    assert FeedOf(d', pool') == FeedOf(d, pool) - {ref};
    Feed.ShowsOneMore(md, FeedOf(d, pool), Feed.OrderDelete(ref));
  }

  /** A client order is retired by a replace and its successor goes to work. */
  lemma ReplaceBooks(d: Desk, next: nat, oe: seq<Ledger.Ack>, pool: seq<Order>, pool': seq<Order>, ref: nat,
                     clients: seq<nat>, a: Ledger.Ack)
    requires BooksOk(d, next, oe, pool, NoOrder) && ref in d.live && d.live[ref].client && d.live[ref].handle < |pool|
    requires PoolFill(d, pool, pool', ref, pool[d.live[ref].handle].qty) && Removed(d.clients, clients, ref)
    requires a.Replaced? && a.orig == d.live[ref].userRef && a.side == d.live[ref].side && a.qty > 0
    requires a.user !in d.byUser || a.user == a.orig
    ensures BooksOk(Gone(d, ref, clients), next, oe + [a], pool', Working(a.user, a.side, a.price, a.qty))
  {
    Leave(d, pool, pool', ref, clients);
    ClientInLedger(d, pool, ref);
    Ledger.ToldOneMore(oe, LedgerOf(d, pool), a);
  }

  // ---- whole steps

  /** What the clients hear of one trade: the working aggressor first, then the resting owner. */
  function TradeAcks(lo: LiveOrder, q: nat, price: int, p: Pending): seq<Ledger.Ack> {
    (if p.Working? then [Ledger.Executed(p.user, q, price)] else [])
        + (if lo.client then [Ledger.Executed(lo.userRef, q, price)] else [])
  }

  function After(p: Pending, q: nat): Pending
    requires p.Working? ==> q <= p.left
  {
    if p.Working? then p.(left := p.left - q) else p
  }

  /** w is p with q shares fewer left to work. */
  ghost predicate Worked(p: Pending, w: Pending, q: int) {
    if p.Working? then w.Working? && w.user == p.user && w.side == p.side && w.price == p.price && w.left == p.left - q
    else w.NoOrder?
  }

  lemma TradeBooks(d: Desk, next: nat, oe: seq<Ledger.Ack>, md: seq<Feed.Itch>, pool: seq<Order>, pool': seq<Order>,
                   p: Pending,
                   ref: nat, q: nat, clients: seq<nat>)
    requires BooksOk(d, next, oe, pool, p) && PoolFill(d, pool, pool', ref, q) && 0 < q
    requires d.live[ref].client && q == pool[d.live[ref].handle].qty ==> Removed(d.clients, clients, ref)
    requires p.Working? ==> q <= p.left && Ledger.Matcher.Crosses(p.side, p.price, Wire(d.live[ref].tick, d.wire))
    ensures BooksOk(FillDesk(d, pool, ref, q, clients), next,
                    oe + TradeAcks(d.live[ref], q, Wire(d.live[ref].tick, d.wire), p), pool', After(p, q))
    ensures FeedIs(d, md, pool) ==> FeedIs(FillDesk(d, pool, ref, q, clients), md + [Feed.OrderExecuted(ref, q)], pool')
  {
    if FeedIs(d, md, pool) {
      FillFeed(d, md, pool, pool', ref, q, clients);
    }
    var price := Wire(d.live[ref].tick, d.wire);
    var oe1 := oe + (if p.Working? then [Ledger.Executed(p.user, q, price)] else []);
    if p.Working? {
      FillWorkingBooks(d, next, oe, pool, p, q, price);
    } else {
      assert oe1 == oe;
    }
    if d.live[ref].client {
      var a := Ledger.Executed(d.live[ref].userRef, q, price);
      FillClientBooks(d, next, oe1, pool, pool', After(p, q), ref, q, clients, a);
      assert oe1 + [a] == oe + TradeAcks(d.live[ref], q, price, p);
    } else {
      FillOtherBooks(d, next, oe1, pool, pool', After(p, q), ref, q);
      assert oe1 == oe + TradeAcks(d.live[ref], q, price, p);
    }
  }

  /** Execute, cancel and delete all publish the loss of q shares. */
  lemma TakeFeed(d: Desk, md: seq<Feed.Itch>, pool: seq<Order>, pool': seq<Order>, ref: nat, q: nat, clients: seq<nat>,
                 m: Feed.Itch)
    requires DeskOk(d, pool) && PoolFill(d, pool, pool', ref, q) && 0 < q && FeedIs(d, md, pool)
    requires d.live[ref].client && q == pool[d.live[ref].handle].qty ==> Removed(d.clients, clients, ref)
    requires m == Feed.OrderExecuted(ref, q) || m == Feed.OrderCancel(ref, q)
             || (m == Feed.OrderDelete(ref) && q == pool[d.live[ref].handle].qty)
    ensures FeedIs(FillDesk(d, pool, ref, q, clients), md + [m], pool')
  {
    if m.OrderDelete? {
      LeaveFeed(d, md, pool, pool', ref, clients);
    } else {
      Fill(d, pool, pool', ref, q, clients);
      Feed.ShowsOneMore(md, FeedOf(d, pool), m);
    }
  }

  /** One replace message does what a delete followed by an add would. */
  lemma ReplaceFeed(d: Desk, md: seq<Feed.Itch>, b: Feed.Book, pool: seq<Order>, orig: nat, ref: nat, side: Side,
                    qty: nat, price: int)
    requires FeedIs(d, md + [Feed.OrderDelete(orig)] + [Feed.AddOrder(ref, side, qty, price)], pool) && qty > 0
    requires Feed.Shows(md, b) && orig in b && b[orig].side == side
    ensures FeedIs(d, md + [Feed.OrderReplace(orig, ref, qty, price)], pool)
  {
    var b1 := Feed.Apply(b, Feed.OrderDelete(orig));
    Feed.ShowsOneMore(md, b, Feed.OrderDelete(orig));
    Feed.ShowsLast(md + [Feed.OrderDelete(orig)], Feed.AddOrder(ref, side, qty, price), b1, FeedOf(d, pool));
    Feed.ShowsOneMore(md + [Feed.OrderDelete(orig)], b1, Feed.AddOrder(ref, side, qty, price));
    Feed.ShowsMeans(md + [Feed.OrderDelete(orig)] + [Feed.AddOrder(ref, side, qty, price)], FeedOf(d, pool));
    Feed.ShowsMeans(md + [Feed.OrderDelete(orig)] + [Feed.AddOrder(ref, side, qty, price)],
                    Feed.Apply(b1, Feed.AddOrder(ref, side, qty, price)));
    Feed.ShowsOneMore(md, b, Feed.OrderReplace(orig, ref, qty, price));
  }

  lemma ShownInFeed(d: Desk, pool: seq<Order>, ref: nat)
    requires DeskOk(d, pool) && ref in d.live && ref >= d.base
    ensures var b := FeedOf(d, pool); ref in b && b[ref].side == d.live[ref].side
  {
    DeskMeans(d, pool);
    assert Rests(ref, d.live[ref], pool);
  }

  /** Once every order is gone, the feed is right exactly if the venue had announced none of them. */
  lemma ClearedFeed(d: Desk, d': Desk, md: seq<Feed.Itch>, pool: seq<Order>)
    requires FeedIs(d, md, pool) && d'.live == map[]
    ensures FeedIs(d', md, []) <==> forall r :: r in d.live ==> r < d.base
  {
    assert FeedOf(d', []) == map[];
    if r :| r in d.live && r >= d.base {
      assert r in FeedOf(d, pool);
      if FeedIs(d', md, []) {
        Feed.ShowsMeans(md, FeedOf(d, pool));
        Feed.ShowsMeans(md, map[]);
      }
    } else {
      assert FeedOf(d, pool) == map[];
    }
  }
}
