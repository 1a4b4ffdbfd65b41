/** Queue positions and client quantities while clients are being filled one after another. */
module ShadowState {
  import opened Types
  import opened Fifo
  import opened EngineState
  import opened Engine
  import opened VenueState
  import Sums
  import Matcher
  import Flatten

  ghost predicate SameIds(pool: seq<Order>, pool': seq<Order>) {
    |pool| == |pool'| && forall x :: 0 <= x < |pool| ==> pool[x].id == pool'[x].id
  }

  lemma AheadSame(pool: seq<Order>, pool': seq<Order>, hs: seq<nat>, a: nat, b: nat)
    requires InPool(pool, hs) && SameIds(pool, pool')
    ensures Ahead(pool', hs, a, b) <==> Ahead(pool, hs, a, b)
  {
  }

  /** Taking a third order out of the queue does not change who is ahead of whom. */
  lemma AheadWithout(pool: seq<Order>, hs: seq<nat>, k: nat, a: nat, b: nat)
    requires InPool(pool, hs) && k < |hs| && pool[hs[k]].id != a && pool[hs[k]].id != b
    ensures InPool(pool, Without(hs, k)) && (Ahead(pool, Without(hs, k), a, b) <==> Ahead(pool, hs, a, b))
  {
    var hs' := Without(hs, k);
    assert forall i :: 0 <= i < |hs'| ==> hs'[i] == hs[if i < k then i else i + 1];
    if Ahead(pool, hs, a, b) {
      var i :| 0 <= i < |hs| && pool[hs[i]].id == a && forall j :: 0 <= j < i ==> pool[hs[j]].id != b;
      var i' := if i < k then i else i - 1;
      assert hs'[i'] == hs[i];
    }
    if Ahead(pool, hs', a, b) {
      var i' :| 0 <= i' < |hs'| && pool[hs'[i']].id == a && forall j :: 0 <= j < i' ==> pool[hs'[j]].id != b;
      var i := if i' < k then i' else i' + 1;
      assert hs[i] == hs'[i'];
      forall j | 0 <= j < i ensures pool[hs[j]].id != b {
        if j != k {
          assert hs'[if j < k then j else j - 1] == hs[j];
        }
      }
    }
  }

  /** Order a is ahead of order b at level i of one side. */
  ghost predicate AheadAt(s: Snap, side: Side, i: int, a: nat, b: nat) {
    && 0 <= i < |s.Qs(side)| && InPool(s.pool, s.Qs(side)[i])
    && Ahead(s.pool, s.Qs(side)[i], a, b)
  }

  /** Filling or removing a third order keeps relative positions everywhere. */
  lemma AheadStable(s: Snap, s': Snap, h: nat, side: Side, i: int, a: nat, b: nat)
    requires Core(s) && Core(s') && 0 <= i < s.n == s'.n && SameIds(s.pool, s'.pool)
    requires h < |s.pool|
    requires (Dequeued(s, s', h) && s.pool[h].id != a && s.pool[h].id != b) || (s'.bq == s.bq && s'.aq == s.aq)
    ensures AheadAt(s', side, i, a, b) <==> AheadAt(s, side, i, a, b)
  {
    var hs, hs' := s.Qs(side)[i], s'.Qs(side)[i];
    assert LevelAt(s.pool, s.Lv(side), s.Qs(side), side, s.lo, i);
    if hs' == hs {
      AheadSame(s.pool, s'.pool, hs, a, b);
    } else {
      var k :| Queued(s, h, k) && DequeuedAt(s, s', h, k);
      AheadWithout(s.pool, hs, k, a, b);
      AheadSame(s.pool, s'.pool, hs', a, b);
    }
  }

  /** The same-side clients that a tape execution at this tick would have filled before the tape order. */
  ghost function EligibleIn(live: map<nat, LiveOrder>, s: Snap, side: Side, tick: int, realRef: nat): set<nat> {
    set r | r in live && live[r].client && live[r].side == side &&
            (Better(side, live[r].tick, tick) || (live[r].tick == tick && AheadAt(s, side, tick - s.lo, r, realRef)))
  }

  /** Filling one client changes nobody else's eligibility. */
  lemma EligibleStable(live: map<nat, LiveOrder>, live': map<nat, LiveOrder>, s: Snap, s': Snap, h: nat, side: Side,
                       tick: int, realRef: nat)
    requires Core(s) && Core(s') && 0 <= tick - s.lo < s.n == s'.n && s.lo == s'.lo && SameIds(s.pool, s'.pool)
    requires h < |s.pool| && s.pool[h].id != realRef
    requires (Dequeued(s, s', h) && s.pool[h].id !in live') || (s'.bq == s.bq && s'.aq == s.aq)
    requires forall r :: r in live' ==> r in live && live[r] == live'[r]
    ensures forall r :: r in live' ==>
              (r in EligibleIn(live', s', side, tick, realRef) <==> r in EligibleIn(live, s, side, tick, realRef))
  {
    forall r | r in live' ensures r in EligibleIn(live', s', side, tick, realRef)
        <==> r in EligibleIn(live, s, side, tick, realRef) {
      AheadStable(s, s', h, side, tick - s.lo, r, realRef);
    }
  }

  /** Shares still open of each live order. */
  function Quantities(live: map<nat, LiveOrder>, pool: seq<Order>): map<nat, nat> {
    map r | r in live && live[r].handle < |pool| :: pool[live[r].handle].qty
  }

  /**
   * Part-way through handing out `shares` to the orders `el`: qty is what is left to hand out, q0
   * the quantities at the start.
   */
  ghost predicate Paid(el: set<nat>, q0: map<nat, nat>, shares: nat, live: map<nat, LiveOrder>, pool: seq<Order>,
                       qty: nat) {
    var q := Quantities(live, pool);
    && el <= q0.Keys && qty <= shares
    && live.Keys <= q.Keys && q.Keys <= q0.Keys
    && (shares - qty) + Sums.SumOver(el * live.Keys, q) == Sums.SumOver(el, q0)
    && (forall r :: r in q0 && r !in el ==> r in q && q[r] == q0[r])
  }

  /** A shadow fill at position i of the client list: the eligible orders before it are used up. */
  ghost predicate Shadow(el: set<nat>, q0: map<nat, nat>, shares: nat, d: Desk, pool: seq<Order>, i: nat, qty: nat) {
    match d
    case Desk(live, _, clients, _, _) =>
      && Paid(el, q0, shares, live, pool, qty) && i <= |clients|
      && (qty > 0 ==> forall j :: 0 <= j < i ==> clients[j] !in el)
  }

  /**
   * A finished shadow fill: exactly the executed shares, or everything eligible if that is less,
   * came off the eligible orders, and every other order kept its quantity.
   */
  ghost predicate ShadowDone(el: set<nat>, q0: map<nat, nat>, shares: nat, d: Desk, pool: seq<Order>, qty: nat) {
    match d
    case Desk(live, _, _, _, _) =>
      var q := Quantities(live, pool);
      && el <= q0.Keys && el * live.Keys <= q.Keys && qty <= shares
      && shares - qty == Min(shares, Sums.SumOver(el, q0))
      && Sums.SumOver(el * live.Keys, q) == Sums.SumOver(el, q0) - (shares - qty)
      && forall r :: r in q0 && r !in el ==> r in q && q[r] == q0[r]
  }

  lemma ShadowStart(el: set<nat>, shares: nat, d: Desk, pool: seq<Order>)
    requires DeskOk(d, pool) && el <= d.live.Keys
    ensures Shadow(el, Quantities(d.live, pool), shares, d, pool, 0, shares)
  {
    DeskMeans(d, pool);
    assert forall r :: r in d.live ==> Rests(r, d.live[r], pool);
    assert el * d.live.Keys == el;
  }

  /** An ineligible client is passed over. */
  lemma ShadowSkip(el: set<nat>, q0: map<nat, nat>, shares: nat, d: Desk, pool: seq<Order>, i: nat, qty: nat)
    requires Shadow(el, q0, shares, d, pool, i, qty) && i < |d.clients| && d.clients[i] !in el
    ensures Shadow(el, q0, shares, d, pool, i + 1, qty)
  {
  }

  /** One eligible client is filled; a full fill swap-removes it, a partial one exhausts the shares. */
  lemma ShadowStep(el: set<nat>, q0: map<nat, nat>, shares: nat, d: Desk, d': Desk, pool: seq<Order>, pool': seq<Order>,
                   i: nat, qty: nat, fill: nat)
    requires DeskOk(d, pool) && DeskOk(d', pool') && i < |d.clients| && d.clients[i] in d.live
             && d.live[d.clients[i]].client
    requires Shadow(el, q0, shares, d, pool, i, qty) && d.clients[i] in el && qty > 0
    requires PoolFill(d, pool, pool', d.clients[i], fill) && 0 < fill <= qty
    requires fill == qty || fill == pool[d.live[d.clients[i]].handle].qty
    requires d' == FillDesk(d, pool, d.clients[i], fill, d'.clients)
    requires fill == pool[d.live[d.clients[i]].handle].qty ==>
               |d'.clients| == |d.clients| - 1 && i <= |d'.clients| && d'.clients[..i] == d.clients[..i]
    ensures var full := fill == pool[d.live[d.clients[i]].handle].qty;
            Shadow(el, q0, shares, d', pool', if full then i else i + 1, qty - fill)
  {
    PaidStep(el, q0, shares, d, d', pool, pool', d.clients[i], qty, fill);
    if fill == pool[d.live[d.clients[i]].handle].qty {
      forall j | 0 <= j < i ensures d'.clients[j] == d.clients[j] {
        assert d'.clients[..i][j] == d.clients[..i][j];
      }
    }
  }

  /** Filling one of the orders moves its shares from what is open to what was handed out. */
  lemma PaidStep(el: set<nat>, q0: map<nat, nat>, shares: nat, d: Desk, d': Desk, pool: seq<Order>, pool': seq<Order>,
                 r: nat, qty: nat, fill: nat)
    requires DeskOk(d, pool) && r in d.live && r in el && fill <= qty
    requires Paid(el, q0, shares, d.live, pool, qty)
    requires PoolFill(d, pool, pool', r, fill) && d' == FillDesk(d, pool, r, fill, d'.clients)
    ensures Paid(el, q0, shares, d'.live, pool', qty - fill)
  {
    var q, q' := Quantities(d.live, pool), Quantities(d'.live, pool');
    var full := fill == q[r];
    FillQuantities(d, d', pool, pool', r, fill);
    var s, s' := el * d.live.Keys, el * d'.live.Keys;
    Sums.SumTake(s, q, r);
    assert s - {r} == if full then s' else s' - {r};
    Sums.SumSame(s - {r}, q, q');
    if !full {
      Sums.SumTake(s', q', r);
    }
  }

  /** Quantities once k shares of ref are gone. */
  function Less(q: map<nat, nat>, ref: nat, k: nat): map<nat, nat> {
    if ref !in q then q else if k >= q[ref] then q - {ref} else q[ref := q[ref] - k]
  }

  /** A fill changes the quantity of the order filled and of no other. */
  lemma FillQuantities(d: Desk, d': Desk, pool: seq<Order>, pool': seq<Order>, ref: nat, fill: nat)
    requires DeskOk(d, pool) && PoolFill(d, pool, pool', ref, fill)
             && d'.live == FillDesk(d, pool, ref, fill, d'.clients).live
    ensures Quantities(d'.live, pool') == Less(Quantities(d.live, pool), ref, fill)
    ensures d'.live.Keys <= Quantities(d'.live, pool').Keys
  {
    Apart(d, pool, d.live[ref].handle);
  }

  /** Every live order has a slot of its own. */
  lemma Apart(d: Desk, pool: seq<Order>, h: nat)
    requires DeskOk(d, pool)
    ensures forall x :: x in d.live ==> d.live[x].handle < |pool| && pool[d.live[x].handle].qty > 0
    ensures forall x :: x in d.live && d.live[x].handle == h ==> pool[h].id == x
  {
    DeskMeans(d, pool);
    forall x | x in d.live ensures Rests(x, d.live[x], pool) {
    }
  }

  /** At the end either the shares or the eligible orders are used up. */
  lemma ShadowEnd(el: set<nat>, q0: map<nat, nat>, shares: nat, d: Desk, pool: seq<Order>, i: nat, qty: nat)
    requires Shadow(el, q0, shares, d, pool, i, qty) && (i == |d.clients| || qty == 0)
    requires forall r :: r in el && r in d.live ==> r in d.clients
    ensures ShadowDone(el, q0, shares, d, pool, qty)
  {
    if qty > 0 {
      assert el * d.live.Keys == {};
    }
  }

  // ---- a tape order crossing clients

  /** The clients opposite to a tape order whose prices it satisfies. */
  ghost function Crossing(live: map<nat, LiveOrder>, side: Side, tick: int): set<nat> {
    set r | r in live && live[r].client && live[r].side != side && Matcher.Crosses(side, tick, live[r].tick)
  }

  /** Whoever lost shares had at least as good a price as anyone crossing who is still open. */
  ghost predicate PriceFirst(live0: map<nat, LiveOrder>, q0: map<nat, nat>, q: map<nat, nat>, side: Side, tick: int) {
    forall s, r {:trigger live0[s], live0[r]} ::
      (s in Crossing(live0, side, tick) && r in Crossing(live0, side, tick) && r in q && s in q0
       && (s !in q || q[s] < q0[s])) ==>
        Matcher.Crosses(side, live0[r].tick, live0[s].tick)
  }

  /** Part-way through crossing: the accounts balance and price priority was kept. */
  ghost predicate CrossingAt(live0: map<nat, LiveOrder>, q0: map<nat, nat>, side: Side, tick: int, shares: nat,
                             d: Desk, pool: seq<Order>, qty: nat) {
    match d
    case Desk(live, _, _, _, _) =>
      && Paid(Crossing(live0, side, tick), q0, shares, live, pool, qty)
      && PriceFirst(live0, q0, Quantities(live, pool), side, tick)
      && forall r :: r in live ==> r in live0 && live[r] == live0[r]
  }

  lemma CrossingStart(d: Desk, pool: seq<Order>, side: Side, tick: int, shares: nat)
    requires DeskOk(d, pool)
    ensures CrossingAt(d.live, Quantities(d.live, pool), side, tick, shares, d, pool, shares)
  {
    ShadowStart(Crossing(d.live, side, tick), shares, d, pool);
  }

  /** Among the crossing clients, one with the best price. */
  ghost predicate BestOpen(live: map<nat, LiveOrder>, side: Side, tick: int, best: nat) {
    && best in live && live[best].client && live[best].side != side && Matcher.Crosses(side, tick, live[best].tick)
    && forall r :: r in live && live[r].client && live[r].side != side ==>
         Matcher.Crosses(side, live[r].tick, live[best].tick)
  }

  lemma CrossingStep(live0: map<nat, LiveOrder>, q0: map<nat, nat>, side: Side, tick: int, shares: nat, d: Desk,
                     d': Desk,
                     pool: seq<Order>, pool': seq<Order>, best: nat, qty: nat, fill: nat)
    requires CrossingAt(live0, q0, side, tick, shares, d, pool, qty) && DeskOk(d, pool) && 0 < fill <= qty
    requires BestOpen(d.live, side, tick, best)
    requires PoolFill(d, pool, pool', best, fill) && d' == FillDesk(d, pool, best, fill, d'.clients)
    ensures CrossingAt(live0, q0, side, tick, shares, d', pool', qty - fill)
  {
    PaidStep(Crossing(live0, side, tick), q0, shares, d, d', pool, pool', best, qty, fill);
    FillQuantities(d, d', pool, pool', best, fill);
    PriceFirstStep(live0, q0, side, tick, d.live, Quantities(d.live, pool), Quantities(d'.live, pool'), best, fill);
  }

  lemma PriceFirstStep(live0: map<nat, LiveOrder>, q0: map<nat, nat>, side: Side, tick: int, live: map<nat, LiveOrder>,
                       q: map<nat, nat>, q': map<nat, nat>, best: nat, fill: nat)
    requires PriceFirst(live0, q0, q, side, tick) && q' == Less(q, best, fill) && q.Keys <= live.Keys
    requires forall r :: r in live ==> r in live0 && live[r] == live0[r]
    requires best in live && forall r :: r in live && live[r].client && live[r].side != side ==>
               Matcher.Crosses(side, live[r].tick, live[best].tick)
    ensures PriceFirst(live0, q0, q', side, tick)
  {
  }

  /**
   * A finished crossing: exactly the shares, or everything crossing if that is less, best prices
   * first, nobody else.
   */
  ghost predicate Crossed(live0: map<nat, LiveOrder>, q0: map<nat, nat>, side: Side, tick: int, shares: nat, d: Desk,
                          pool: seq<Order>, rem: nat) {
    match d
    case Desk(_, _, _, _, _) =>
      && ShadowDone(Crossing(live0, side, tick), q0, shares, d, pool, rem)
      && PriceFirst(live0, q0, Quantities(d.live, pool), side, tick)
  }

  lemma CrossingEnd(live0: map<nat, LiveOrder>, q0: map<nat, nat>, side: Side, tick: int, shares: nat, d: Desk,
                    pool: seq<Order>, qty: nat)
    requires CrossingAt(live0, q0, side, tick, shares, d, pool, qty)
    requires qty == 0 || forall r :: r in d.live && d.live[r].client && d.live[r].side != side ==>
               !Matcher.Crosses(side, tick, d.live[r].tick)
    ensures Crossed(live0, q0, side, tick, shares, d, pool, qty)
  {
    if qty > 0 {
      assert Crossing(live0, side, tick) * d.live.Keys == {};
    }
  }

  /** After a tape order arrived: the crossing is done, and what it left rests under ref. */
  ghost predicate TapeAdded(live0: map<nat, LiveOrder>, q0: map<nat, nat>, side: Side, tick: int, shares: nat, d: Desk,
                            pool: seq<Order>, rem: nat, ref: nat) {
    match d
    case Desk(live, _, _, _, _) =>
      && Crossed(live0, q0, side, tick, shares, d, pool, rem) && (ref in live <==> rem > 0)
      && (rem > 0 ==> live[ref].side == side && live[ref].tick == tick && !live[ref].client)
      && (rem > 0 ==> ref in Quantities(live, pool) && Quantities(live, pool)[ref] == rem)
  }

  /** The tape order's remainder joins without disturbing the accounts. */
  lemma CrossedJoin(live0: map<nat, LiveOrder>, q0: map<nat, nat>, side: Side, tick: int, shares: nat, d: Desk,
                    d': Desk,
                    pool: seq<Order>, pool': seq<Order>, rem: nat, ref: nat, lo: LiveOrder)
    requires Crossed(live0, q0, side, tick, shares, d, pool, rem) && DeskOk(d, pool)
    requires ref !in d.live && ref !in live0 && d' == Joined(d, ref, lo) && PoolJoin(pool, pool', ref, lo, rem)
    ensures Crossed(live0, q0, side, tick, shares, d', pool', rem)
    ensures ref in Quantities(d'.live, pool') && Quantities(d'.live, pool')[ref] == rem
  {
    var el := Crossing(live0, side, tick);
    var q, q' := Quantities(d.live, pool), Quantities(d'.live, pool');
    JoinQuantities(d, d', pool, pool', ref, lo, rem);
    assert el * d'.live.Keys == el * d.live.Keys;
    Sums.SumSame(el * d.live.Keys, q, q');
    PriceFirstJoin(live0, q0, side, tick, q, q', ref, rem);
  }

  lemma PriceFirstJoin(live0: map<nat, LiveOrder>, q0: map<nat, nat>, side: Side, tick: int, q: map<nat, nat>,
                       q': map<nat, nat>, ref: nat, rem: nat)
    requires PriceFirst(live0, q0, q, side, tick) && q' == q[ref := rem] && ref !in live0
    ensures PriceFirst(live0, q0, q', side, tick)
  {
  }

  lemma JoinQuantities(d: Desk, d': Desk, pool: seq<Order>, pool': seq<Order>, ref: nat, lo: LiveOrder, qty: nat)
    requires DeskOk(d, pool) && ref !in d.live && d' == Joined(d, ref, lo) && PoolJoin(pool, pool', ref, lo, qty)
    ensures Quantities(d'.live, pool') == Quantities(d.live, pool)[ref := qty]
  {
    Apart(d, pool, lo.handle);
  }

  // ---- a tape execution

  /** Clients ahead of the tape order got the executed shares, the tape order lost them, nobody else changed. */
  ghost predicate TapeExecuted(el: set<nat>, q0: map<nat, nat>, ref: nat, shares: nat, d: Desk, pool: seq<Order>) {
    match d
    case Desk(live, _, _, _, _) =>
      var q := Quantities(live, pool);
      && el <= q0.Keys && el * live.Keys <= q.Keys && ref in q0
      && Sums.SumOver(el * live.Keys, q) == Sums.SumOver(el, q0) - Min(shares, Sums.SumOver(el, q0))
      && (forall r :: r in q0 && r !in el && r != ref ==> r in q && q[r] == q0[r])
      && (if shares >= q0[ref] then ref !in q else ref in q && q[ref] == q0[ref] - shares)
  }

  lemma TapeExecutedEnd(el: set<nat>, q0: map<nat, nat>, ref: nat, shares: nat, d: Desk, d': Desk, pool: seq<Order>,
                        pool': seq<Order>, left: nat)
    requires ShadowDone(el, q0, shares, d, pool, left) && ref in q0 && ref !in el
    requires Quantities(d'.live, pool') == Less(Quantities(d.live, pool), ref, shares)
    requires forall x :: x != ref ==> (x in d'.live <==> x in d.live)
    ensures TapeExecuted(el, q0, ref, shares, d', pool')
  {
    assert el * d'.live.Keys == el * d.live.Keys;
    Sums.SumSame(el * d.live.Keys, Quantities(d.live, pool), Quantities(d'.live, pool'));
  }

  // ---- what a match leaves

  /** Every order of this side is still there with its shares. */
  ghost predicate KeepsSide(live0: map<nat, LiveOrder>, q0: map<nat, nat>, live: map<nat, LiveOrder>, q: map<nat, nat>,
                            side: Side) {
    forall r :: r in live0 && live0[r].side == side ==>
        r in live && live[r] == live0[r] && r in q0 && r in q && q[r] == q0[r]
  }

  /**
   * The resting orders after an order of this side was worked: the opposite side is the reference
   * matcher's remaining book, whoever the orders belong to, and its own side is untouched.
   */
  ghost predicate Leaves(m: Matcher.Outcome, side: Side, opposite: seq<Entry>,
                         live0: map<nat, LiveOrder>, q0: map<nat, nat>, live: map<nat, LiveOrder>, q: map<nat, nat>) {
    match m
    case Outcome(book, _, _) => opposite == book && KeepsSide(live0, q0, live, q, side)
  }

  /** A match hits the opposite side only. */
  lemma MatchKeepsSide(d0: Desk, d: Desk, pool0: seq<Order>, pool: seq<Order>, hits: seq<nat>, ts: seq<Matcher.Trade>,
                       id: nat, side: Side)
    requires DeskOk(d0, pool0) && DeskOk(d, pool) && Flatten.Progress(pool0, pool, hits, ts, id, side)
    requires forall r :: r in d.live ==> r in d0.live && d.live[r] == d0.live[r]
    ensures KeepsSide(d0.live, Quantities(d0.live, pool0), d.live, Quantities(d.live, pool), side)
  {
    DeskMeans(d0, pool0);
    DeskMeans(d, pool);
    forall r | r in d0.live && d0.live[r].side == side
      ensures r in d.live && d0.live[r].handle < |pool0| && pool[d0.live[r].handle].qty == pool0[d0.live[r].handle].qty
    {
      var h := d0.live[r].handle;
      assert Rests(r, d0.live[r], pool0);
      assert h !in hits;
      assert Same(pool0[h], pool[h]);
    }
  }

  /** Nor does a pool that holds the same orders. */
  lemma SameKeepsSide(d: Desk, pool: seq<Order>, pool': seq<Order>, side: Side)
    requires DeskOk(d, pool) && |pool| == |pool'| && forall x :: 0 <= x < |pool| ==> Same(pool[x], pool'[x])
    ensures KeepsSide(d.live, Quantities(d.live, pool), d.live, Quantities(d.live, pool'), side)
  {
    Apart(d, pool, 0);
  }

  /** A joining order disturbs none that was there. */
  lemma JoinKeepsSide(live0: map<nat, LiveOrder>, q0: map<nat, nat>, d: Desk, d': Desk, pool: seq<Order>,
                      pool': seq<Order>,
                      side: Side, ref: nat, lo: LiveOrder, qty: nat)
    requires KeepsSide(live0, q0, d.live, Quantities(d.live, pool), side) && DeskOk(d, pool)
    requires ref !in d.live && d' == Joined(d, ref, lo) && PoolJoin(pool, pool', ref, lo, qty)
    ensures KeepsSide(live0, q0, d'.live, Quantities(d'.live, pool'), side)
  {
    JoinQuantities(d, d', pool, pool', ref, lo, qty);
  }
}
