/** The price-time-priority limit order book. */
module Engine {
  import opened Types
  import opened Fifo
  import opened EngineState
  import opened Matcher
  import opened Flatten

  /** Slot h of pool' holds a new order; every other slot holds what it held in pool. */
  ghost predicate Placed(pool: seq<Order>, pool': seq<Order>, h: nat, id: nat, side: Side, price: int, qty: nat) {
    && h < |pool'| && Same(pool'[h], Order(id, price, qty, side, 0, 0))
    && (if h < |pool| then |pool'| == |pool| && pool[h].qty == 0 else |pool'| == |pool| + 1 && h == |pool|)
    && forall x :: 0 <= x < |pool| && x != h ==> Same(pool[x], pool'[x])
  }

  /** Order a is met before order b when the FIFO hs is walked from its head. */
  ghost predicate Ahead(pool: seq<Order>, hs: seq<nat>, a: nat, b: nat)
    requires InPool(pool, hs)
  {
    exists i :: 0 <= i < |hs| && pool[hs[i]].id == a && forall j :: 0 <= j < i ==> pool[hs[j]].id != b
  }

  class OrderBook {
    const minPrice: int
    const maxPrice: int
    var bestBid: int
    var bestAsk: int
    var bidLevels: seq<Level>
    var askLevels: seq<Level>
    var pool: seq<Order>
    var freeHead: nat
    ghost var bidQ: seq<seq<nat>>
    ghost var askQ: seq<seq<nat>>
    ghost var fl: seq<nat>

    ghost function Snapshot(): Snap
      requires minPrice <= maxPrice
      reads this
    {
      Snap(minPrice, maxPrice - minPrice + 1, bidLevels, askLevels, bidQ, askQ, pool, freeHead, fl)
    }

    ghost predicate Valid()
      reads this
    {
      NO_PRICE < minPrice <= maxPrice && Tracked(Snapshot(), bestBid, bestAsk)
    }

    constructor (lo: int, hi: int)
      requires NO_PRICE < lo <= hi
      ensures Valid() && minPrice == lo && maxPrice == hi && pool == []
    {
      minPrice, maxPrice := lo, hi;
      bestBid, bestAsk := NO_PRICE, NO_PRICE;
      bidLevels := EmptyLevels(hi - lo + 1);
      askLevels := EmptyLevels(hi - lo + 1);
      bidQ, askQ, fl := EmptyQueues(hi - lo + 1), EmptyQueues(hi - lo + 1), [];
      pool, freeHead := [], NIL;
      new;
      EmptyCore(lo, hi - lo + 1);
    }

    predicate InRange(p: int) {
      minPrice <= p <= maxPrice
    }

    predicate Resting(h: nat)
      reads this
    {
      h < |pool| && pool[h].qty > 0
    }

    ghost function Q(s: Side): seq<seq<nat>>
      reads this
    {
      if s.Buy? then bidQ else askQ
    }

    function Levels(s: Side): seq<Level>
      reads this
    {
      if s.Buy? then bidLevels else askLevels
    }

    /** The handles queued at a level, oldest first. */
    ghost function Queue(s: Side, p: int): (hs: seq<nat>)
      requires Valid() && InRange(p)
      reads this
      ensures InPool(pool, hs)
    {
      assert LevelAt(pool, Levels(s), Q(s), s, minPrice, p - minPrice);
      Q(s)[p - minPrice]
    }

    function Best(s: Side): int
      reads this
    {
      if s.Buy? then bestBid else bestAsk
    }

    /** The slots other than h hold the orders they held. */
    twostate predicate OthersSame(h: nat)
      reads this
    {
      && |old(pool)| <= |pool|
      && forall x :: 0 <= x < |old(pool)| && x != h ==> Same(old(pool)[x], pool[x])
    }

    method SetLevel(s: Side, i: nat, lvl: Level)
      requires i < |Levels(s)|
      modifies this`bidLevels, this`askLevels
      ensures Levels(s) == old(Levels(s))[i := lvl]
      ensures Levels(Opposite(s)) == old(Levels(Opposite(s)))
    {
      if s.Buy? {
        bidLevels := bidLevels[i := lvl];
      } else {
        askLevels := askLevels[i := lvl];
      }
    }

    method Alloc() returns (h: nat)
      requires FreeOk(pool, freeHead, fl) && |pool| < NIL
      modifies this`pool, this`freeHead, this`fl
      ensures h < |pool| <= NIL && FreeOk(pool, freeHead, fl) && h !in fl
      ensures forall x :: x in old(fl) && x != h ==> x in fl
      ensures if h < |old(pool)| then pool == old(pool) && pool[h].qty == 0
              else |pool| == |old(pool)| + 1 && h == |old(pool)| && pool[..h] == old(pool)
    {
      if freeHead != NIL {
        FreePop(pool, freeHead, fl);
        h := freeHead;
        freeHead := pool[h].next;
        fl := fl[1..];
      } else {
        FreeIsEmpty(pool, freeHead, fl);
        FreeFrame(pool, pool + [Order(0, 0, 0, Buy, 0, 0)], freeHead, fl);
        pool := pool + [Order(0, 0, 0, Buy, 0, 0)];
        h := |pool| - 1;
      }
    }

    /** Writes order o into the allocated slot h and links it at the back of its level. */
    method LinkTail(h: nat, o: Order, ghost s: Snap)
      requires minPrice <= maxPrice && o.qty > 0 && InRange(o.price) && o.prev == o.next == NIL
      requires Core(s) && Allocated(s, pool, freeHead, fl, h)
      requires Snapshot() == s.(pool := pool, freeHead := freeHead, fl := fl)
      modifies this`pool, this`bidLevels, this`askLevels, this`bidQ, this`askQ
      ensures Core(Snapshot())
      ensures |pool| == |old(pool)| && Same(pool[h], o)
      ensures forall x :: 0 <= x < |s.pool| && x != h ==> Same(s.pool[x], pool[x])
      ensures Q(o.side) == s.Qs(o.side)[o.price - minPrice := s.Qs(o.side)[o.price - minPrice] + [h]]
      ensures Q(Opposite(o.side)) == s.Qs(Opposite(o.side))
    {
      ghost var i := o.price - minPrice;
      RestedCore(s, pool, freeHead, fl, h, o);
      var lvl := Levels(o.side)[o.price - minPrice];
      ghost var want := RestPool(pool, lvl.tail, h, o);
      ghost var lvl' := RestLevel(lvl, h, o.qty);
      pool := pool[h := o];
      if lvl.tail == NIL {
        lvl := lvl.(head := h, tail := h);
      } else {
        pool := pool[lvl.tail := pool[lvl.tail].(next := h)];
        pool := pool[h := pool[h].(prev := lvl.tail)];
        lvl := lvl.(tail := h);
      }
      assert pool == want;
      lvl := lvl.(totalQty := lvl.totalQty + o.qty, count := lvl.count + 1);
      SetLevel(o.side, o.price - minPrice, lvl);
      if o.side.Buy? {
        bidQ := bidQ[i := bidQ[i] + [h]];
      } else {
        askQ := askQ[i := askQ[i] + [h]];
      }
      assert Snapshot() == s.Put(o.side, i, lvl', s.Qs(o.side)[i] + [h]).(pool := want, freeHead := freeHead, fl := fl);
    }

    method Rest(id: nat, side: Side, price: int, qty: nat) returns (h: nat)
      requires Valid() && qty > 0 && InRange(price) && |pool| < NIL
      modifies this
      ensures Valid() && h < NIL && Placed(old(pool), pool, h, id, side, price, qty)
      ensures Q(side) == old(Q(side))[price - minPrice := old(Q(side))[price - minPrice] + [h]]
      ensures Q(Opposite(side)) == old(Q(Opposite(side)))
    {
      ghost var s := Snapshot();
      h := Alloc();
      LinkTail(h, Order(id, price, qty, side, NIL, NIL), s);
      RaiseBest(side, price, s.Qs(side), h);
    }

    /** Re-establishes the tracked best price after h was appended to the level at p. */
    method RaiseBest(s: Side, p: int, ghost q: seq<seq<nat>>, ghost h: nat)
      requires NO_PRICE < minPrice <= maxPrice && Core(Snapshot()) && InRange(p)
      requires |q| == maxPrice - minPrice + 1 && Q(s) == q[p - minPrice := q[p - minPrice] + [h]]
      requires BestOk(q, s, Best(s), minPrice) && BestOk(Q(Opposite(s)), Opposite(s), Best(Opposite(s)), minPrice)
      modifies this`bestBid, this`bestAsk
      ensures Valid()
    {
      BestAfterRest(q, s, Best(s), minPrice, p, h);
      if s.Buy? {
        if bestBid == NO_PRICE || p > bestBid {
          bestBid := p;
        }
      } else {
        if bestAsk == NO_PRICE || p < bestAsk {
          bestAsk := p;
        }
      }
    }

    method RescanBestBid()
      requires |bidLevels| == |bidQ| && SideOk(pool, bidLevels, bidQ, Buy, minPrice)
      requires NO_PRICE < minPrice && minPrice <= bestBid && bestBid - minPrice < |bidQ|
      requires forall i :: bestBid - minPrice < i < |bidQ| ==> bidQ[i] == []
      modifies this`bestBid
      ensures BestOk(bidQ, Buy, bestBid, minPrice)
    {
      var p := bestBid;
      while p >= minPrice
        invariant minPrice - 1 <= p && p - minPrice < |bidQ|
        invariant forall i :: p - minPrice < i < |bidQ| ==> bidQ[i] == []
      {
        assert LevelAt(pool, bidLevels, bidQ, Buy, minPrice, p - minPrice);
        TotalZero(pool, bidLevels[p - minPrice], bidQ[p - minPrice], Buy, p);
        if bidLevels[p - minPrice].totalQty > 0 {
          bestBid := p;
          return;
        }
        p := p - 1;
      }
      bestBid := NO_PRICE;
    }

    method RescanBestAsk()
      requires |askLevels| == |askQ| && SideOk(pool, askLevels, askQ, Sell, minPrice)
      requires NO_PRICE < minPrice && minPrice <= bestAsk && bestAsk - minPrice < |askQ| == maxPrice - minPrice + 1
      requires forall i :: 0 <= i < bestAsk - minPrice ==> askQ[i] == []
      modifies this`bestAsk
      ensures BestOk(askQ, Sell, bestAsk, minPrice)
    {
      var p := bestAsk;
      while p <= maxPrice
        invariant minPrice <= p <= maxPrice + 1
        invariant forall i :: 0 <= i < p - minPrice ==> askQ[i] == []
      {
        assert LevelAt(pool, askLevels, askQ, Sell, minPrice, p - minPrice);
        TotalZero(pool, askLevels[p - minPrice], askQ[p - minPrice], Sell, p);
        if askLevels[p - minPrice].totalQty > 0 {
          bestAsk := p;
          return;
        }
        p := p + 1;
      }
      bestAsk := NO_PRICE;
    }

    /** Unlinks slot h from its level and pushes it on the free list. */
    method TakeOut(h: nat, ghost k: nat)
      requires minPrice <= maxPrice && Unlinkable(Snapshot(), h, k)
      modifies this`pool, this`freeHead, this`fl, this`bidLevels, this`askLevels, this`bidQ, this`askQ
      ensures Snapshot() == old(Unlinked(Snapshot(), h, k))
    {
      ghost var s := Snapshot();
      ghost var s' := Unlinked(s, h, k);
      var o := pool[h];
      ghost var i := o.price - minPrice;
      var lvl := Levels(o.side)[o.price - minPrice];
      if o.prev != NIL {
        pool := pool[o.prev := pool[o.prev].(next := o.next)];
      } else {
        lvl := lvl.(head := o.next);
      }
      if o.next != NIL {
        pool := pool[o.next := pool[o.next].(prev := o.prev)];
      } else {
        lvl := lvl.(tail := o.prev);
      }
      lvl := lvl.(totalQty := lvl.totalQty - o.qty, count := lvl.count - 1);
      SetLevel(o.side, o.price - minPrice, lvl);
      pool := pool[h := pool[h].(qty := 0, next := freeHead)];
      freeHead := h;
      fl := [h] + fl;
      if o.side.Buy? {
        bidQ := bidQ[i := Without(bidQ[i], k)];
      } else {
        askQ := askQ[i := Without(askQ[i], k)];
      }
      assert pool == s'.pool;
    }

    /** Re-establishes the tracked best price after orders left the level at p. */
    method FixBest(s: Side, p: int, ghost q: seq<seq<nat>>)
      requires NO_PRICE < minPrice <= maxPrice && Core(Snapshot()) && InRange(p)
      requires OnlyAt(q, Q(s), p - minPrice) && q[p - minPrice] != []
      requires BestOk(q, s, Best(s), minPrice) && BestOk(Q(Opposite(s)), Opposite(s), Best(Opposite(s)), minPrice)
      modifies this`bestBid, this`bestAsk
      ensures Valid() && Best(Opposite(s)) == old(Best(Opposite(s)))
    {
      assert LevelAt(pool, Levels(s), Q(s), s, minPrice, p - minPrice);
      TotalZero(pool, Levels(s)[p - minPrice], Q(s)[p - minPrice], s, p);
      if Levels(s)[p - minPrice].totalQty == 0 {
        if s.Buy? && p == bestBid {
          RescanBestBid();
        } else if s.Sell? && p == bestAsk {
          RescanBestAsk();
        }
      }
    }

    method Cancel(h: nat) returns (removed: nat)
      requires Valid()
      modifies this
      ensures Valid() && |pool| == |old(pool)| && OthersSame(h)
      ensures removed == if old(Resting(h)) then old(pool)[h].qty else 0
      ensures h < |pool| ==> Same(pool[h], old(pool)[h].(qty := 0))
      ensures !old(Resting(h)) ==> pool == old(pool) && bidQ == old(bidQ) && askQ == old(askQ)
      ensures old(Resting(h)) ==> Dequeued(old(Snapshot()), Snapshot(), h)
      ensures h < |pool| ==> var s := Opposite(old(pool)[h].side); Best(s) == old(Best(s))
    {
      if h >= |pool| || pool[h].qty == 0 {
        return 0;
      }
      removed := pool[h].qty;
      ghost var k := FindQueued(Snapshot(), h);
      Extract(h, k);
    }

    /** Takes a resting order out of its queue and finds the best price again. */
    method Extract(h: nat, ghost k: nat)
      requires Valid() && Queued(Snapshot(), h, k)
      modifies this
      ensures Valid() && |pool| == |old(pool)| && OthersSame(h) && Same(pool[h], old(pool)[h].(qty := 0))
      ensures Dequeued(old(Snapshot()), Snapshot(), h)
      ensures var s := Opposite(old(pool)[h].side); Best(s) == old(Best(s))
    {
      ghost var s := Snapshot();
      UnlinkedCore(s, h, k);
      UnlinkPoolFacts(s, h, k);
      UnlinkedQueues(s, h, k);
      var p, sd := pool[h].price, pool[h].side;
      TakeOut(h, k);
      FixBest(sd, p, s.Qs(sd));
    }

    method Reduce(h: nat, newQty: nat) returns (delta: nat)
      requires Valid()
      modifies this
      ensures Valid() && |pool| == |old(pool)| && OthersSame(h)
      ensures delta == if old(Resting(h)) && newQty < old(pool)[h].qty then old(pool)[h].qty - newQty else 0
      ensures h < |pool| ==> Same(pool[h], old(pool)[h].(qty := old(pool)[h].qty - delta))
      ensures newQty > 0 || !old(Resting(h)) ==> bidQ == old(bidQ) && askQ == old(askQ)
      ensures newQty == 0 && old(Resting(h)) ==> Dequeued(old(Snapshot()), Snapshot(), h)
    {
      if h >= |pool| || pool[h].qty == 0 || newQty >= pool[h].qty {
        return 0;
      }
      if newQty == 0 {
        delta := Cancel(h);
        return;
      }
      ghost var s := Snapshot();
      ghost var k := FindQueued(s, h);
      ReducedCore(s, h, k, newQty);
      delta := LowerQty(h, newQty, k);
    }

    method LowerQty(h: nat, newQty: nat, ghost k: nat) returns (delta: nat)
      requires minPrice <= maxPrice && Unlinkable(Snapshot(), h, k) && 0 < newQty <= pool[h].qty
      modifies this`pool, this`bidLevels, this`askLevels
      ensures Snapshot() == old(Reduced(Snapshot(), h, k, newQty))
      ensures delta == old(pool)[h].qty - newQty
    {
      ghost var q := Q(pool[h].side);
      var o := pool[h];
      delta := o.qty - newQty;
      pool := pool[h := o.(qty := newQty)];
      var lvl := Levels(o.side)[o.price - minPrice];
      SetLevel(o.side, o.price - minPrice, lvl.(totalQty := lvl.totalQty - delta));
      assert q[o.price - minPrice := q[o.price - minPrice]] == q;
    }

    /** The price-time queue of one side, best level first and oldest first within a level. */
    ghost function Book(s: Side): seq<Entry>
      reads this
    {
      Flat(pool, Q(s), s, 0)
    }

    /** One iteration of `matchLevel`: the head h of the level at p trades. */
    method HitHead(opp: Side, p: int, aggId: nat, qty: nat, ghost h: nat) returns (t: Trade)
      requires minPrice <= maxPrice && InRange(p) && Hittable(Snapshot(), h, opp, p) && qty > 0
      modifies this`pool, this`freeHead, this`fl, this`bidLevels, this`askLevels, this`bidQ, this`askQ
      ensures t == HitTrade(old(pool)[h], Min(qty, old(pool)[h].qty), aggId)
      ensures Snapshot() == AfterHit(old(Snapshot()), h, t.qty)
    {
      var rh := Levels(opp)[p - minPrice].head;
      var r := pool[rh];
      var fill := if qty < r.qty then qty else r.qty;
      var filled := fill == r.qty;
      t := Trade(r.id, aggId, r.price, fill, Opposite(opp), filled);
      if filled {
        PopHead(opp, p);
      } else {
        TrimHead(opp, p, fill);
      }
    }

    /** The head loses part of its shares and keeps its place. */
    method TrimHead(opp: Side, p: int, fill: nat)
      requires minPrice <= maxPrice && InRange(p) && 0 <= p - minPrice < |Levels(opp)|
      requires Hittable(Snapshot(), Levels(opp)[p - minPrice].head, opp, p)
               && 0 < fill < pool[Levels(opp)[p - minPrice].head].qty
      modifies this`pool, this`bidLevels, this`askLevels
      ensures var h := old(Levels(opp)[p - minPrice].head);
              Snapshot() == Reduced(old(Snapshot()), h, 0, old(pool)[h].qty - fill)
    {
      ghost var q := Q(opp);
      var lvl := Levels(opp)[p - minPrice];
      var r := pool[lvl.head];
      pool := pool[lvl.head := r.(qty := r.qty - fill)];
      SetLevel(opp, p - minPrice, lvl.(totalQty := lvl.totalQty - fill));
      assert q[p - minPrice := q[p - minPrice]] == q;
    }

    /** The head is filled: its successor becomes head and its slot goes on the free list. */
    method PopHead(opp: Side, p: int)
      requires minPrice <= maxPrice && InRange(p) && 0 <= p - minPrice < |Levels(opp)|
      requires Hittable(Snapshot(), Levels(opp)[p - minPrice].head, opp, p)
      modifies this`pool, this`freeHead, this`fl, this`bidLevels, this`askLevels, this`bidQ, this`askQ
      ensures Snapshot() == Unlinked(old(Snapshot()), old(Levels(opp)[p - minPrice].head), 0)
    {
      var lvl := Levels(opp)[p - minPrice];
      var rh := lvl.head;
      var r := pool[rh];
      PopPool(pool, rh, freeHead);
      pool := pool[rh := r.(qty := 0)];
      lvl := lvl.(totalQty := lvl.totalQty - r.qty, head := r.next, count := lvl.count - 1);
      if lvl.head != NIL {
        pool := pool[lvl.head := pool[lvl.head].(prev := NIL)];
      } else {
        lvl := lvl.(tail := NIL);
      }
      pool := pool[rh := pool[rh].(next := freeHead)];
      freeHead, fl := rh, [rh] + fl;
      if opp.Buy? {
        bidQ := bidQ[p - minPrice := Without(bidQ[p - minPrice], 0)];
      } else {
        askQ := askQ[p - minPrice := Without(askQ[p - minPrice], 0)];
      }
      SetLevel(opp, p - minPrice, lvl);
    }

    method HasOrders(s: Side, p: int) returns (b: bool)
      requires minPrice <= maxPrice && InRange(p) && Core(Snapshot())
      ensures b <==> Q(s)[p - minPrice] != []
    {
      HeadOfLevel(Snapshot(), s, p);
      b := Levels(s)[p - minPrice].head != NIL;
    }

    /** One iteration of the level loop, tied to one step of the reference matcher. */
    method MatchHead(p: int, aggId: nat, side: Side, qty: nat, ghost r0: Run) returns (t: Trade, ghost r: Run)
      requires minPrice <= maxPrice && InRange(p) && Running(Snapshot(), r0) && qty > 0
      requires r0.aggId == aggId && r0.side == side && r0.qty == qty
      requires Q(Opposite(side))[p - minPrice] != []
      requires Front(Q(Opposite(side)), Opposite(side), p - minPrice) && Crosses(side, r0.limit, p)
      modifies this`pool, this`freeHead, this`fl, this`bidLevels, this`askLevels, this`bidQ, this`askQ
      ensures Running(Snapshot(), r) && 0 < t.qty <= qty
      ensures r == r0.(qty := qty - t.qty, ts := r0.ts + [t], hits := r.hits)
      ensures OnlyAt(old(Q(Opposite(side))), Q(Opposite(side)), p - minPrice)
      ensures Q(side) == old(Q(side))
    {
      ghost var s := Snapshot();
      RunStep(s, r0, p);
      ghost var h := Q(Opposite(side))[p - minPrice][0];
      t := HitHead(Opposite(side), p, aggId, qty, h);
      r := NextRun(s, r0, h);
    }

    /** Trades against the level at p until it or the aggressor is exhausted. */
    method MatchLevel(p: int, aggId: nat, side: Side, qty: nat, ghost r0: Run)
      returns (rem: nat, ts: seq<Trade>, ghost r: Run)
      requires minPrice <= maxPrice && InRange(p) && Running(Snapshot(), r0)
      requires r0.aggId == aggId && r0.side == side && r0.qty == qty
      requires Front(Q(Opposite(side)), Opposite(side), p - minPrice) && Crosses(side, r0.limit, p)
      modifies this`pool, this`freeHead, this`fl, this`bidLevels, this`askLevels, this`bidQ, this`askQ
      ensures Running(Snapshot(), r) && r == r0.(qty := rem, ts := r0.ts + ts, hits := r.hits)
      ensures OnlyAt(old(Q(Opposite(side))), Q(Opposite(side)), p - minPrice)
      ensures Q(side) == old(Q(side))
      ensures rem == 0 || Q(Opposite(side))[p - minPrice] == []
      ensures rem <= qty && (qty > 0 && old(Q(Opposite(side)))[p - minPrice] != [] ==> rem < qty)
    {
      var opp := Opposite(side);
      rem, ts, r := qty, [], r0;
      assert r0.ts + [] == r0.ts;
      ghost var q0 := Q(opp);
      var more := HasOrders(opp, p);
      while rem > 0 && more
        invariant Running(Snapshot(), r) && r == r0.(qty := rem, ts := r0.ts + ts, hits := r.hits)
        invariant OnlyAt(q0, Q(opp), p - minPrice) && Q(side) == old(Q(side))
        invariant more <==> Q(opp)[p - minPrice] != []
        invariant rem == qty || rem < qty
        invariant rem == qty ==> more == (q0[p - minPrice] != [])
        decreases rem
      {
        var t;
        t, r := MatchHead(p, aggId, side, rem, r);
        assert r0.ts + ts + [t] == r0.ts + (ts + [t]);
        rem := rem - t.qty;
        ts := ts + [t];
        more := HasOrders(opp, p);
      }
    }

    /** One iteration of the price loop: trade at the best level, then rescan if it emptied. */
    method MatchBest(aggId: nat, side: Side, qty: nat, ghost r0: Run)
      returns (rem: nat, ts: seq<Trade>, ghost r: Run)
      requires Valid() && Running(Snapshot(), r0) && qty > 0
      requires r0.aggId == aggId && r0.side == side && r0.qty == qty
      requires Best(Opposite(side)) != NO_PRICE && Crosses(side, r0.limit, Best(Opposite(side)))
      modifies this
      ensures Valid() && Running(Snapshot(), r) && r == r0.(qty := rem, ts := r0.ts + ts, hits := r.hits)
      ensures Q(side) == old(Q(side)) && rem < qty
    {
      ghost var q := Q(Opposite(side));
      var p := Best(Opposite(side));
      rem, ts, r := MatchLevel(p, aggId, side, qty, r0);
      FixBest(Opposite(side), p, q);
    }

    /**
     * Price-time matching of an incoming order: exactly the reference matcher on the opposite
     * side's queue. Out-of-range prices and zero quantities are ignored and report no remainder.
     */
    method Match(id: nat, side: Side, price: int, qty: nat) returns (rem: nat, ts: seq<Trade>, ghost hits: seq<nat>)
      requires Valid()
      modifies this
      ensures Valid()
      ensures qty == 0 || !InRange(price) ==> rem == 0 && ts == [] && hits == [] && Snapshot() == old(Snapshot())
      ensures qty > 0 && InRange(price) ==>
                Matcher.Match(old(Book(Opposite(side))), id, side, price, qty) == Outcome(Book(Opposite(side)), ts, rem)
      ensures qty > 0 && InRange(price) ==> Traded(ts) + rem == qty
      ensures forall i :: 0 <= i < |ts| ==> Crosses(side, price, ts[i].price)
      ensures Q(side) == old(Q(side))
      ensures Progress(old(pool), pool, hits, ts, id, side)
      ensures rem > 0 ==> Uncrossed(pool, side, price) && AllFilled(ts)
    {
      ghost var opp := Opposite(side);
      if qty == 0 || price < minPrice || price > maxPrice {
        return 0, [], [];
      }
      rem, ts := qty, [];
      ghost var r := Run(pool, Book(opp), qty, id, side, price, qty, [], []);
      RunStart(Snapshot(), r);
      FlatPositive(Snapshot(), opp);
      while rem > 0 && Best(Opposite(side)) != NO_PRICE && Crosses(side, price, Best(Opposite(side)))
        invariant Valid() && Running(Snapshot(), r) && Q(side) == old(Q(side))
        invariant r == Run(old(pool), old(Book(opp)), qty, id, side, price, rem, ts, r.hits)
        decreases rem
      {
        var more: seq<Trade>;
        rem, more, r := MatchBest(id, side, rem, r);
        ts := ts + more;
      }
      hits := r.hits;
      RunEnd(Snapshot(), r, Best(opp));
      MatchFacts(r.f0, id, side, price, qty);
    }

    lemma RestingInRange(h: nat)
      requires Valid() && Resting(h)
      ensures InRange(pool[h].price)
    {
      assert Homed(pool[h], h, bidQ, askQ, fl, minPrice);
    }

    /** Against a best price that does not satisfy the limit the reference matcher does nothing. */
    lemma NotMarketable(id: nat, side: Side, price: int, qty: nat)
      requires Valid() && (Best(Opposite(side)) == NO_PRICE || !Crosses(side, price, Best(Opposite(side))))
      ensures Matcher.Match(Book(Opposite(side)), id, side, price, qty) == Outcome(Book(Opposite(side)), [], qty)
    {
      var opp := Opposite(side);
      if Book(opp) != [] {
        FlatEntry(pool, Levels(opp), Q(opp), opp, minPrice, 0, 0);
        BestIsBest(Snapshot(), Best(opp), Book(opp)[0].h);
      }
    }

    /** The tracked best opposite price satisfies a limit exactly when some opposite order does. */
    lemma Marketable(side: Side, price: int)
      requires Valid()
      ensures Best(Opposite(side)) != NO_PRICE && Crosses(side, price, Best(Opposite(side))) <==>
                exists h :: 0 <= h < |pool| && pool[h].qty > 0 && pool[h].side != side
                            && Crosses(side, price, pool[h].price)
    {
      var opp := Opposite(side);
      var best := Best(opp);
      if best != NO_PRICE {
        assert LevelAt(pool, Levels(opp), Q(opp), opp, minPrice, best - minPrice);
        var h := Q(opp)[best - minPrice][0];
        assert Node(pool[h], Q(opp)[best - minPrice], 0, opp, best);
      }
      forall h | 0 <= h < |pool| && pool[h].qty > 0 && pool[h].side != side
        ensures best != NO_PRICE && !Better(opp, pool[h].price, best)
      {
        BestIsBest(Snapshot(), best, h);
      }
    }

    /** The order in slot h queues last at its level; no other queue of the side changes. */
    ghost predicate AtTail(q: seq<seq<nat>>, q': seq<seq<nat>>, price: int, h: nat) {
      0 <= price - minPrice < |q| && q' == q[price - minPrice := q[price - minPrice] + [h]]
    }

    /** Rests an order; the other side reads out as before. */
    method RestBeside(id: nat, side: Side, price: int, qty: nat) returns (h: nat)
      requires Valid() && qty > 0 && InRange(price) && |pool| < NIL
      modifies this
      ensures Valid() && h < NIL && Placed(old(pool), pool, h, id, side, price, qty)
      ensures AtTail(old(Q(side)), Q(side), price, h) && Q(Opposite(side)) == old(Q(Opposite(side)))
      ensures Book(Opposite(side)) == old(Book(Opposite(side)))
    {
      ghost var s := Snapshot();
      h := Rest(id, side, price, qty);
      FlatKept(s, Snapshot(), Opposite(side));
    }

    /** Matches, then rests what is left; `mid` is the pool between the two. */
    method Add(id: nat, side: Side, price: int, qty: nat)
      returns (h: nat, ts: seq<Trade>, ghost hits: seq<nat>, ghost mid: seq<Order>, ghost rem: nat)
      requires Valid() && |pool| < NIL
      modifies this
      ensures Valid()
      ensures Progress(old(pool), mid, hits, ts, id, side)
      ensures qty > 0 && InRange(price) ==>
                Matcher.Match(old(Book(Opposite(side))), id, side, price, qty) == Outcome(Book(Opposite(side)), ts, rem)
      ensures qty == 0 || !InRange(price) ==> rem == 0 && ts == []
      ensures qty > 0 && InRange(price) ==> Traded(ts) + rem == qty
      ensures forall i :: 0 <= i < |ts| ==> Crosses(side, price, ts[i].price)
      ensures h == NIL <==> rem == 0
      ensures rem == 0 ==> pool == mid && Q(side) == old(Q(side))
      ensures rem > 0 ==> AtTail(old(Q(side)), Q(side), price, h)
      ensures rem > 0 ==> Placed(mid, pool, h, id, side, price, rem) && Uncrossed(mid, side, price) && AllFilled(ts)
    {
      if qty == 0 || price < minPrice || price > maxPrice {
        return NIL, [], [], pool, 0;
      }
      var left;
      left, ts, hits := Match(id, side, price, qty);
      mid, rem := pool, left;
      if left > 0 {
        h := RestBeside(id, side, price, left);
      } else {
        h := NIL;
      }
    }

    /** Rests without matching: how a tape order joins the book. */
    method Place(id: nat, side: Side, price: int, qty: nat) returns (h: nat)
      requires Valid() && |pool| < NIL
      modifies this
      ensures Valid()
      ensures qty == 0 || !InRange(price) ==> h == NIL && Snapshot() == old(Snapshot())
      ensures qty > 0 && InRange(price) ==> h != NIL && Placed(old(pool), pool, h, id, side, price, qty)
      ensures qty > 0 && InRange(price) ==>
                AtTail(old(Q(side)), Q(side), price, h) && Q(Opposite(side)) == old(Q(Opposite(side)))
      ensures Book(Opposite(side)) == old(Book(Opposite(side)))
    {
      if qty == 0 || price < minPrice || price > maxPrice {
        return NIL;
      }
      h := RestBeside(id, side, price, qty);
    }

    method Clear()
      requires Valid()
      modifies this
      ensures Valid() && pool == []
    {
      var n := maxPrice - minPrice + 1;
      bidLevels, askLevels := EmptyLevels(n), EmptyLevels(n);
      bidQ, askQ, fl := EmptyQueues(n), EmptyQueues(n), [];
      pool, freeHead := [], NIL;
      bestBid, bestAsk := NO_PRICE, NO_PRICE;
      EmptyCore(minPrice, n);
    }

    /** Walks the level's list: does order a come before order b? */
    method AheadInLevel(s: Side, p: int, a: nat, b: nat) returns (ahead: bool)
      requires Valid() && InRange(p)
      ensures ahead <==> Ahead(pool, Queue(s, p), a, b)
    {
      ghost var hs := Queue(s, p);
      assert LevelAt(pool, Levels(s), Q(s), s, minPrice, p - minPrice);
      var h := Levels(s)[p - minPrice].head;
      ghost var i := 0;
      while h != NIL
        invariant 0 <= i <= |hs| && h == At(hs, i)
        invariant forall j :: 0 <= j < i ==> pool[hs[j]].id != a && pool[hs[j]].id != b
        decreases |hs| - i
      {
        assert i < |hs|;
        assert Node(pool[hs[i]], hs, i, s, p);
        if pool[h].id == a {
          return true;
        }
        if pool[h].id == b {
          return false;
        }
        h := pool[h].next;
        i := i + 1;
      }
      assert i == |hs|;
      return false;
    }
  }
}
