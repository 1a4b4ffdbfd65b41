/**
 * The matching engine's state: one pool of order slots, two arrays of price levels, tracked best
 * prices. The ghost queues say which slots each level's FIFO visits.
 */
module EngineState {
  import opened Types
  import opened Fifo

  ghost predicate LevelAt(pool: seq<Order>, levels: seq<Level>, q: seq<seq<nat>>, side: Side, lo: int, i: int)
    requires 0 <= i < |q| == |levels|
  {
    LevelOk(pool, levels[i], q[i], side, lo + i)
  }

  ghost predicate SideOk(pool: seq<Order>, levels: seq<Level>, q: seq<seq<nat>>, side: Side, lo: int) {
    && |levels| == |q|
    && forall i :: 0 <= i < |q| ==> LevelAt(pool, levels, q, side, lo, i)
  }

  /** Slot h sits in its own level's FIFO when it holds shares, and on the free list otherwise. */
  ghost predicate Homed(o: Order, h: nat, bq: seq<seq<nat>>, aq: seq<seq<nat>>, fl: seq<nat>, lo: int) {
    if o.qty == 0 then h in fl
    else
      var q := if o.side.Buy? then bq else aq;
      0 <= o.price - lo < |q| && h in q[o.price - lo]
  }

  ghost predicate Covered(pool: seq<Order>, bq: seq<seq<nat>>, aq: seq<seq<nat>>, fl: seq<nat>, lo: int) {
    forall h {:trigger Homed(pool[h], h, bq, aq, fl, lo)} :: 0 <= h < |pool| ==> Homed(pool[h], h, bq, aq, fl, lo)
  }

  /** Level i is strictly better than level j for a resting order on this side. */
  predicate Better(side: Side, i: int, j: int) {
    if side.Buy? then i > j else i < j
  }

  ghost predicate BestOk(q: seq<seq<nat>>, side: Side, best: int, lo: int) {
    if best == NO_PRICE then forall i :: 0 <= i < |q| ==> q[i] == []
    else
      && 0 <= best - lo < |q|
      && q[best - lo] != []
      && forall i :: 0 <= i < |q| && Better(side, i, best - lo) ==> q[i] == []
  }

  /** Only the queue at index i differs. */
  ghost predicate OnlyAt(q: seq<seq<nat>>, q': seq<seq<nat>>, i: int) {
    |q| == |q'| && 0 <= i < |q| && forall k :: 0 <= k < |q| && k != i ==> q'[k] == q[k]
  }

  /** Appending at price p makes p best exactly when it beats the old best. */
  lemma BestAfterRest(q: seq<seq<nat>>, side: Side, best: int, lo: int, p: int, h: nat)
    requires NO_PRICE < lo && 0 <= p - lo < |q| && BestOk(q, side, best, lo)
    ensures BestOk(q[p - lo := q[p - lo] + [h]], side,
                   if best == NO_PRICE || Better(side, p, best) then p else best, lo)
  {
    var q' := q[p - lo := q[p - lo] + [h]];
    assert q'[p - lo] != [];
    assert forall i :: 0 <= i < |q| && i != p - lo ==> q'[i] == q[i];
  }

  /** Only slots of the level (side, price), or slots that held no shares, differ. */
  ghost predicate Touches(pool: seq<Order>, pool': seq<Order>, side: Side, price: int) {
    && |pool| <= |pool'|
    && forall x :: 0 <= x < |pool| && pool[x].qty > 0 && !(pool[x].side == side && pool[x].price == price) ==>
         pool'[x] == pool[x]
  }

  lemma SideUpdate(pool: seq<Order>, pool': seq<Order>, levels: seq<Level>, q: seq<seq<nat>>, side: Side, lo: int,
                   i: int, lvl: Level, hs: seq<nat>)
    requires SideOk(pool, levels, q, side, lo)
    requires 0 <= i < |q| && LevelOk(pool', lvl, hs, side, lo + i)
    requires Touches(pool, pool', side, lo + i)
    ensures SideOk(pool', levels[i := lvl], q[i := hs], side, lo)
  {
    var levels', q' := levels[i := lvl], q[i := hs];
    forall j | 0 <= j < |q| ensures LevelAt(pool', levels', q', side, lo, j) {
      assert LevelAt(pool, levels, q, side, lo, j);
      if j != i {
        LevelUntouched(pool, pool', levels[j], q[j], side, lo + j, side, lo + i);
      }
    }
  }

  lemma SideUntouched(pool: seq<Order>, pool': seq<Order>, levels: seq<Level>, q: seq<seq<nat>>, s: Side, lo: int,
                      side: Side, price: int)
    requires SideOk(pool, levels, q, s, lo)
    requires s != side && Touches(pool, pool', side, price)
    ensures SideOk(pool', levels, q, s, lo)
  {
    forall j | 0 <= j < |q| ensures LevelAt(pool', levels, q, s, lo, j) {
      assert LevelAt(pool, levels, q, s, lo, j);
      LevelUntouched(pool, pool', levels[j], q[j], s, lo + j, side, price);
    }
  }

  lemma LevelUntouched(pool: seq<Order>, pool': seq<Order>, lvl: Level, hs: seq<nat>, s: Side, p: int,
                       side: Side, price: int)
    requires LevelOk(pool, lvl, hs, s, p)
    requires (s != side || p != price) && Touches(pool, pool', side, price)
    ensures LevelOk(pool', lvl, hs, s, p)
  {
    forall i | 0 <= i < |hs| ensures pool'[hs[i]] == pool[hs[i]] {
      assert Node(pool[hs[i]], hs, i, s, p);
    }
    LevelFrame(pool, pool', lvl, hs, s, p);
  }

  /** Emptying a slot of one level keeps every slot homed. */
  lemma CoveredUnlink(pool: seq<Order>, pool': seq<Order>, bq: seq<seq<nat>>, aq: seq<seq<nat>>, fl: seq<nat>, lo: int,
                      h: nat, k: nat)
    requires Covered(pool, bq, aq, fl, lo)
    requires h < |pool| == |pool'| && pool[h].qty > 0 && pool'[h].qty == 0
    requires forall x :: 0 <= x < |pool| && x != h ==> Same(pool[x], pool'[x])
    requires var q := if pool[h].side.Buy? then bq else aq;
             var i := pool[h].price - lo;
             0 <= i < |q| && k < |q[i]| && q[i][k] == h
    ensures var i := pool[h].price - lo;
            if pool[h].side.Buy? then Covered(pool', bq[i := Without(bq[i], k)], aq, [h] + fl, lo)
            else Covered(pool', bq, aq[i := Without(aq[i], k)], [h] + fl, lo)
  {
    var i := pool[h].price - lo;
    var q := if pool[h].side.Buy? then bq else aq;
    var hs := q[i];
    var hs' := Without(hs, k);
    forall x | x in hs && x != h ensures x in hs' {
      var j :| 0 <= j < |hs| && hs[j] == x;
      assert hs'[if j < k then j else j - 1] == x;
    }
    forall x | 0 <= x < |pool|
      ensures Homed(pool'[x], x, if pool[h].side.Buy? then bq[i := hs'] else bq,
                    if pool[h].side.Buy? then aq else aq[i := hs'], [h] + fl, lo)
    {
      assert Homed(pool[x], x, bq, aq, fl, lo);
      if x != h {
        assert Same(pool[x], pool'[x]);
      }
    }
  }

  /** Filling a free slot with an order appended to its level keeps every slot homed. */
  lemma CoveredRest(pool: seq<Order>, pool': seq<Order>, bq: seq<seq<nat>>, aq: seq<seq<nat>>,
                    fl: seq<nat>, fl': seq<nat>, lo: int, h: nat)
    requires Covered(pool, bq, aq, fl, lo)
    requires h < |pool'| && (h < |pool| ==> pool[h].qty == 0)
    requires |pool'| == |pool| || (|pool'| == |pool| + 1 && h == |pool|)
    requires forall x :: 0 <= x < |pool| && x != h ==> Same(pool[x], pool'[x])
    requires forall x :: x in fl && x != h ==> x in fl'
    requires pool'[h].qty > 0
    requires var q := if pool'[h].side.Buy? then bq else aq; 0 <= pool'[h].price - lo < |q|
    ensures var i := pool'[h].price - lo;
            if pool'[h].side.Buy? then Covered(pool', bq[i := bq[i] + [h]], aq, fl', lo)
            else Covered(pool', bq, aq[i := aq[i] + [h]], fl', lo)
  {
    var i := pool'[h].price - lo;
    forall x | 0 <= x < |pool'| && x != h
      ensures if pool'[h].side.Buy? then Homed(pool'[x], x, bq[i := bq[i] + [h]], aq, fl', lo)
              else Homed(pool'[x], x, bq, aq[i := aq[i] + [h]], fl', lo)
    {
      assert Homed(pool[x], x, bq, aq, fl, lo);
      assert Same(pool[x], pool'[x]);
    }
  }

  // ---- whole-engine snapshots and the three ways an operation changes them

  /** Everything the engine stores except the best prices, with the queues it threads. */
  datatype Snap = Snap(lo: int, n: nat, bl: seq<Level>, al: seq<Level>, bq: seq<seq<nat>>, aq: seq<seq<nat>>,
                       pool: seq<Order>, freeHead: nat, fl: seq<nat>)
  {
    function Lv(s: Side): seq<Level> { if s.Buy? then bl else al }
    function Qs(s: Side): seq<seq<nat>> { if s.Buy? then bq else aq }

    function Put(s: Side, i: nat, lvl: Level, hs: seq<nat>): Snap
      requires i < |Lv(s)| && i < |Qs(s)|
    {
      if s.Buy? then this.(bl := bl[i := lvl], bq := bq[i := hs])
      else this.(al := al[i := lvl], aq := aq[i := hs])
    }
  }

  ghost predicate Core(s: Snap) {
    match s
    case Snap(lo, n, bl, al, bq, aq, pool, freeHead, fl) =>
      && |bq| == |aq| == n
      && |pool| <= NIL
      && SideOk(pool, bl, bq, Buy, lo)
      && SideOk(pool, al, aq, Sell, lo)
      && FreeOk(pool, freeHead, fl)
      && Covered(pool, bq, aq, fl, lo)
  }

  /** A well-formed engine whose tracked best prices are the extreme non-empty levels. */
  ghost predicate Tracked(s: Snap, bestBid: int, bestAsk: int) {
    match s
    case Snap(lo, _, _, _, bq, aq, _, _, _) => Core(s) && BestOk(bq, Buy, bestBid, lo) && BestOk(aq, Sell, bestAsk, lo)
  }

  function EmptyLevels(n: nat): seq<Level> { seq(n, _ => Level(0, NIL, NIL, 0)) }

  function EmptyQueues(n: nat): seq<seq<nat>> { seq(n, _ => []) }

  lemma EmptyCore(lo: int, n: nat)
    ensures Core(Snap(lo, n, EmptyLevels(n), EmptyLevels(n), EmptyQueues(n), EmptyQueues(n), [], NIL, []))
  {
    forall i, s: Side | 0 <= i < n ensures LevelAt([], EmptyLevels(n), EmptyQueues(n), s, lo, i) {
    }
  }

  /** Replacing one level, over a pool that changed only there, keeps both sides well formed. */
  lemma SidesPut(s: Snap, pool': seq<Order>, side: Side, i: nat, lvl: Level, hs: seq<nat>)
    requires Core(s) && i < s.n
    requires LevelOk(pool', lvl, hs, side, s.lo + i)
    requires Touches(s.pool, pool', side, s.lo + i)
    ensures var t := s.Put(side, i, lvl, hs);
            SideOk(pool', t.bl, t.bq, Buy, s.lo) && SideOk(pool', t.al, t.aq, Sell, s.lo)
  {
    SideUpdate(s.pool, pool', s.Lv(side), s.Qs(side), side, s.lo, i, lvl, hs);
    SideUntouched(s.pool, pool', s.Lv(Opposite(side)), s.Qs(Opposite(side)), Opposite(side), s.lo, side, s.lo + i);
  }

  /** Slot h is position k of its level's queue. */
  ghost predicate Queued(s: Snap, h: nat, k: nat) {
    && h < |s.pool| && s.pool[h].qty > 0
    && |s.Lv(s.pool[h].side)| == |s.Qs(s.pool[h].side)|
    && 0 <= s.pool[h].price - s.lo < |s.Qs(s.pool[h].side)|
    && k < |s.Qs(s.pool[h].side)[s.pool[h].price - s.lo]|
    && s.Qs(s.pool[h].side)[s.pool[h].price - s.lo][k] == h
  }

  lemma FindQueued(s: Snap, h: nat) returns (k: nat)
    requires Core(s) && h < |s.pool| && s.pool[h].qty > 0
    ensures Queued(s, h, k)
  {
    assert Homed(s.pool[h], h, s.bq, s.aq, s.fl, s.lo);
    k :| 0 <= k < |s.Qs(s.pool[h].side)[s.pool[h].price - s.lo]|
        && s.Qs(s.pool[h].side)[s.pool[h].price - s.lo][k] == h;
  }

  /** What a queued slot knows about its level. */
  lemma QueuedFacts(s: Snap, h: nat, k: nat)
    requires Core(s) && Queued(s, h, k)
    ensures var o := s.pool[h];
            var i := o.price - s.lo;
            var hs := s.Qs(o.side)[i];
            && LevelOk(s.pool, s.Lv(o.side)[i], hs, o.side, o.price)
            && Node(o, hs, k, o.side, o.price)
            && o.qty <= s.Lv(o.side)[i].totalQty && 0 < s.Lv(o.side)[i].count
            && (o.prev != NIL ==> Neighbour(s.pool, o.prev, h, hs, o.side, o.price))
            && (o.next != NIL ==> Neighbour(s.pool, o.next, h, hs, o.side, o.price) && o.next != o.prev)
  {
    var o := s.pool[h];
    var i := o.price - s.lo;
    assert LevelAt(s.pool, s.Lv(o.side), s.Qs(o.side), o.side, s.lo, i);
    NodeFacts(s.pool, s.Lv(o.side)[i], s.Qs(o.side)[i], o.side, o.price, k);
  }

  /** The pool after `unlink` and `free` of slot h. */
  function UnlinkPool(pool: seq<Order>, h: nat, freeHead: nat): seq<Order>
    requires h < |pool|
    requires pool[h].prev == NIL || pool[h].prev < |pool|
    requires pool[h].next == NIL || pool[h].next < |pool|
  {
    var o := pool[h];
    var p1 := if o.prev == NIL then pool else pool[o.prev := pool[o.prev].(next := o.next)];
    var p2 := if o.next == NIL then p1 else p1[o.next := p1[o.next].(prev := o.prev)];
    p2[h := p2[h].(qty := 0, next := freeHead)]
  }

  function UnlinkLevel(lvl: Level, o: Order): Level
    requires o.qty <= lvl.totalQty && 0 < lvl.count
  {
    Level(lvl.totalQty - o.qty, if o.prev == NIL then o.next else lvl.head,
          if o.next == NIL then o.prev else lvl.tail, lvl.count - 1)
  }

  /** Slot h can be taken out: its links and its level's counters are in bounds. */
  ghost predicate Unlinkable(s: Snap, h: nat, k: nat) {
    && Queued(s, h, k)
    && var o := s.pool[h];
       var lvl := s.Lv(o.side)[o.price - s.lo];
       && (o.prev == NIL || (o.prev < |s.pool| && o.prev != h))
       && (o.next == NIL || (o.next < |s.pool| && o.next != h && o.next != o.prev))
       && o.qty <= lvl.totalQty && 0 < lvl.count
  }

  /** The whole engine after slot h, at position k of its queue, is taken out. */
  ghost function Unlinked(s: Snap, h: nat, k: nat): Snap
    requires Unlinkable(s, h, k)
  {
    var o := s.pool[h];
    var i := o.price - s.lo;
    s.Put(o.side, i, UnlinkLevel(s.Lv(o.side)[i], o), Without(s.Qs(o.side)[i], k))
    .(pool := UnlinkPool(s.pool, h, s.freeHead), freeHead := h, fl := [h] + s.fl)
  }

  lemma UnlinkPoolFacts(s: Snap, h: nat, k: nat)
    requires Core(s) && Queued(s, h, k)
    ensures var o := s.pool[h];
            && (o.prev == NIL || o.prev < |s.pool|) && (o.next == NIL || o.next < |s.pool|)
            && var pool' := UnlinkPool(s.pool, h, s.freeHead);
               && Bridged(s.pool, pool', h)
               && Touches(s.pool, pool', o.side, o.price)
               && pool'[h].qty == 0 && pool'[h].next == s.freeHead && pool'[h].(qty := o.qty, next := o.next) == o
               && (forall x :: 0 <= x < |s.pool| && x != h ==> Same(s.pool[x], pool'[x]))
               && (forall x :: 0 <= x < |s.pool| && s.pool[x].qty == 0 ==> pool'[x] == s.pool[x])
  {
    QueuedFacts(s, h, k);
  }

  lemma UnlinkedCore(s: Snap, h: nat, k: nat)
    requires Core(s) && Queued(s, h, k)
    ensures Unlinkable(s, h, k) && Core(Unlinked(s, h, k))
  {
    QueuedFacts(s, h, k);
    UnlinkPoolFacts(s, h, k);
    var o := s.pool[h];
    var i := o.price - s.lo;
    var pool' := UnlinkPool(s.pool, h, s.freeHead);
    var lvl := s.Lv(o.side)[i];
    var hs := s.Qs(o.side)[i];
    LevelUnlink(s.pool, pool', lvl, UnlinkLevel(lvl, o), hs, o.side, o.price, k);
    SidesPut(s, pool', o.side, i, UnlinkLevel(lvl, o), Without(hs, k));
    FreeIsEmpty(s.pool, s.freeHead, s.fl);
    FreePush(s.pool, pool', s.freeHead, s.fl, h);
    CoveredUnlink(s.pool, pool', s.bq, s.aq, s.fl, s.lo, h, k);
  }

  /** The queues of s' are those of s with h taken out of its own level. */
  ghost predicate Dequeued(s: Snap, s': Snap, h: nat) {
    exists k :: Queued(s, h, k) && DequeuedAt(s, s', h, k)
  }

  ghost predicate DequeuedAt(s: Snap, s': Snap, h: nat, k: nat)
    requires Queued(s, h, k)
  {
    var o := s.pool[h];
    var i := o.price - s.lo;
    s'.Qs(o.side) == s.Qs(o.side)[i := Without(s.Qs(o.side)[i], k)] && s'.Qs(Opposite(o.side)) == s.Qs(Opposite(o.side))
  }

  /** Unlinking the head of a queue, step by step. */
  lemma PopPool(pool: seq<Order>, h: nat, freeHead: nat)
    requires h < |pool| && pool[h].prev == NIL && (pool[h].next == NIL || (pool[h].next < |pool| && pool[h].next != h))
    ensures var next := pool[h].next;
            var p1 := pool[h := pool[h].(qty := 0)];
            var p2 := if next == NIL then p1 else p1[next := p1[next].(prev := NIL)];
            p2[h := p2[h].(next := freeHead)] == UnlinkPool(pool, h, freeHead)
  {
  }

  /** Only the order's own level changes, and it was not empty. */
  lemma UnlinkedQueues(s: Snap, h: nat, k: nat)
    requires Core(s) && Unlinkable(s, h, k)
    ensures var s', o := Unlinked(s, h, k), s.pool[h];
            && OnlyAt(s.Qs(o.side), s'.Qs(o.side), o.price - s.lo) && s.Qs(o.side)[o.price - s.lo] != []
            && s'.Qs(Opposite(o.side)) == s.Qs(Opposite(o.side)) && Dequeued(s, s', h)
  {
    var s' := Unlinked(s, h, k);
    assert DequeuedAt(s, s', h, k);
  }

  /** The whole engine after slot h's quantity is lowered in place. */
  ghost function Reduced(s: Snap, h: nat, k: nat, newQty: nat): Snap
    requires Queued(s, h, k) && 0 < newQty <= s.pool[h].qty
    requires s.pool[h].qty <= s.Lv(s.pool[h].side)[s.pool[h].price - s.lo].totalQty
  {
    var o := s.pool[h];
    var i := o.price - s.lo;
    var lvl := s.Lv(o.side)[i];
    s.Put(o.side, i, lvl.(totalQty := lvl.totalQty - (o.qty - newQty)), s.Qs(o.side)[i])
    .(pool := s.pool[h := o.(qty := newQty)])
  }

  lemma ReducedCore(s: Snap, h: nat, k: nat, newQty: nat)
    requires Core(s) && Queued(s, h, k) && 0 < newQty <= s.pool[h].qty
    ensures Unlinkable(s, h, k) && Core(Reduced(s, h, k, newQty))
  {
    QueuedFacts(s, h, k);
    var o := s.pool[h];
    var i := o.price - s.lo;
    var pool' := s.pool[h := o.(qty := newQty)];
    var lvl := s.Lv(o.side)[i];
    var lvl' := lvl.(totalQty := lvl.totalQty - (o.qty - newQty));
    var hs := s.Qs(o.side)[i];
    LevelReduce(s.pool, pool', lvl, lvl', hs, o.side, o.price, k, newQty);
    SidesPut(s, pool', o.side, i, lvl', hs);
    FreeIsEmpty(s.pool, s.freeHead, s.fl);
    FreeFrame(s.pool, pool', s.freeHead, s.fl);
    assert s.Qs(o.side)[i := hs] == s.Qs(o.side);
    CoveredReduce(s.pool, s.bq, s.aq, s.fl, s.lo, h, newQty);
  }

  lemma CoveredReduce(pool: seq<Order>, bq: seq<seq<nat>>, aq: seq<seq<nat>>, fl: seq<nat>, lo: int, h: nat,
                      newQty: nat)
    requires Covered(pool, bq, aq, fl, lo) && h < |pool| && 0 < newQty <= pool[h].qty
    ensures Covered(pool[h := pool[h].(qty := newQty)], bq, aq, fl, lo)
  {
    var pool' := pool[h := pool[h].(qty := newQty)];
    forall x | 0 <= x < |pool| ensures Homed(pool'[x], x, bq, aq, fl, lo) {
      assert Homed(pool[x], x, bq, aq, fl, lo);
    }
  }

  /** What `alloc` leaves behind: h is off the free list, nothing else moved. */
  ghost predicate Allocated(s: Snap, pool: seq<Order>, freeHead: nat, fl: seq<nat>, h: nat) {
    && h < |pool| <= NIL && FreeOk(pool, freeHead, fl) && h !in fl
    && (forall x :: x in s.fl && x != h ==> x in fl)
    && (if h < |s.pool| then pool == s.pool && pool[h].qty == 0
        else |pool| == |s.pool| + 1 && h == |s.pool| && pool[..h] == s.pool)
  }

  function RestPool(pool: seq<Order>, tail: nat, h: nat, o: Order): seq<Order>
    requires h < |pool| && (tail == NIL || tail < |pool|)
  {
    var p1 := pool[h := o.(prev := tail, next := NIL)];
    if tail == NIL then p1 else p1[tail := p1[tail].(next := h)]
  }

  function RestLevel(lvl: Level, h: nat, qty: nat): Level {
    Level(lvl.totalQty + qty, if lvl.tail == NIL then h else lvl.head, h, lvl.count + 1)
  }

  lemma RestFacts(s: Snap, pool1: seq<Order>, freeHead: nat, fl: seq<nat>, h: nat, o: Order)
    requires Core(s) && Allocated(s, pool1, freeHead, fl, h)
    requires o.qty > 0 && 0 <= o.price - s.lo < s.n
    ensures var i := o.price - s.lo;
            var lvl := s.Lv(o.side)[i];
            && (lvl.tail == NIL || lvl.tail < |s.pool|) && lvl.tail != h
            && LevelOk(s.pool, lvl, s.Qs(o.side)[i], o.side, o.price)
            && LevelOk(pool1, lvl, s.Qs(o.side)[i], o.side, o.price)
            && h !in s.Qs(o.side)[i]
            && var pool2 := RestPool(pool1, lvl.tail, h, o);
               && Touches(s.pool, pool2, o.side, o.price)
               && (forall x :: 0 <= x < |s.pool| && x != h ==> Same(s.pool[x], pool2[x]))
               && (forall x :: 0 <= x < |pool1| && x in fl ==> pool2[x] == pool1[x])
  {
    var i := o.price - s.lo;
    var lvl := s.Lv(o.side)[i];
    var hs := s.Qs(o.side)[i];
    assert LevelAt(s.pool, s.Lv(o.side), s.Qs(o.side), o.side, s.lo, i);
    forall j | 0 <= j < |hs| ensures hs[j] < |s.pool| && hs[j] != h && pool1[hs[j]] == s.pool[hs[j]] {
      assert Node(s.pool[hs[j]], hs, j, o.side, o.price);
    }
    LevelFrame(s.pool, pool1, lvl, hs, o.side, o.price);
    if hs != [] {
      assert Node(s.pool[hs[|hs| - 1]], hs, |hs| - 1, o.side, o.price);
    }
    FreeIsEmpty(pool1, freeHead, fl);
  }

  /** The engine after slot h receives order o at the back of its level. */
  lemma RestedCore(s: Snap, pool1: seq<Order>, freeHead: nat, fl: seq<nat>, h: nat, o: Order)
    requires Core(s) && Allocated(s, pool1, freeHead, fl, h)
    requires o.qty > 0 && 0 <= o.price - s.lo < s.n
    ensures var i := o.price - s.lo;
            var lvl := s.Lv(o.side)[i];
            && (lvl.tail == NIL || lvl.tail < |pool1|) && lvl.tail != h
            && var pool2 := RestPool(pool1, lvl.tail, h, o);
               && Core(s.Put(o.side, i, RestLevel(lvl, h, o.qty), s.Qs(o.side)[i] + [h])
                       .(pool := pool2, freeHead := freeHead, fl := fl))
               && forall x :: 0 <= x < |s.pool| && x != h ==> Same(s.pool[x], pool2[x])
  {
    RestFacts(s, pool1, freeHead, fl, h, o);
    var i := o.price - s.lo;
    var lvl := s.Lv(o.side)[i];
    var hs := s.Qs(o.side)[i];
    var pool2 := RestPool(pool1, lvl.tail, h, o);
    LevelAppend(pool1, pool2, lvl, RestLevel(lvl, h, o.qty), hs, o.side, o.price, h);
    SidesPut(s, pool2, o.side, i, RestLevel(lvl, h, o.qty), hs + [h]);
    FreeFrame(pool1, pool2, freeHead, fl);
    CoveredRest(s.pool, pool2, s.bq, s.aq, s.fl, fl, s.lo, h);
  }
}
