/** One side of the engine read out as a single price-time queue. */
module Flatten {
  import opened Types
  import opened Fifo
  import opened EngineState
  import opened Matcher

  /** Array index of the j-th best level of n: lowest price first for sells, highest first for buys. */
  function Idx(side: Side, j: int, n: nat): int {
    if side.Sell? then j else n - 1 - j
  }

  /** The orders of the j-th best level onwards, best level first, oldest first within a level. */
  ghost function Flat(pool: seq<Order>, q: seq<seq<nat>>, side: Side, j: nat): seq<Entry>
    requires j <= |q|
    decreases |q| - j
  {
    if j == |q| then [] else Recs(pool, q[Idx(side, j, |q|)]) + Flat(pool, q, side, j + 1)
  }

  /** Levels from rank j on are untouched when neither their queues nor their orders change. */
  lemma {:induction false} FlatFrame(pool: seq<Order>, pool': seq<Order>, q: seq<seq<nat>>, q': seq<seq<nat>>,
                                     side: Side, j: nat)
    requires j <= |q| == |q'|
    requires forall k :: j <= k < |q| ==> q'[Idx(side, k, |q|)] == q[Idx(side, k, |q|)]
    requires forall k, h :: j <= k < |q| && h in q[Idx(side, k, |q|)] ==> EntryOf(pool, h) == EntryOf(pool', h)
    ensures Flat(pool, q, side, j) == Flat(pool', q', side, j)
    decreases |q| - j
  {
    if j < |q| {
      var hs := q[Idx(side, j, |q|)];
      assert forall i :: 0 <= i < |hs| ==> hs[i] in hs;
      assert Recs(pool, hs) == Recs(pool', hs);
      FlatFrame(pool, pool', q, q', side, j + 1);
    }
  }

  lemma {:induction false} FlatSkip(pool: seq<Order>, q: seq<seq<nat>>, side: Side, i: nat, j: nat)
    requires i <= j <= |q|
    requires forall k :: i <= k < j ==> q[Idx(side, k, |q|)] == []
    ensures Flat(pool, q, side, i) == Flat(pool, q, side, j)
    decreases j - i
  {
    if i < j {
      FlatSkip(pool, q, side, i + 1, j);
    }
  }

  /** Every entry read out from rank j on is a resting order at that rank or worse. */
  lemma {:induction false} FlatEntry(pool: seq<Order>, levels: seq<Level>, q: seq<seq<nat>>, side: Side, lo: int,
                                     j: nat, i: nat)
    requires SideOk(pool, levels, q, side, lo) && j <= |q| && i < |Flat(pool, q, side, j)|
    ensures var e := Flat(pool, q, side, j)[i];
            && e.h < |pool| && e == EntryOf(pool, e.h) && e.qty > 0 && pool[e.h].side == side
            && (if side.Sell? then e.price >= lo + j else e.price <= lo + |q| - 1 - j)
    decreases |q| - j
  {
    var x := Idx(side, j, |q|);
    var hs := q[x];
    if i < |hs| {
      assert LevelAt(pool, levels, q, side, lo, x);
      assert Node(pool[hs[i]], hs, i, side, lo + x);
    } else {
      FlatEntry(pool, levels, q, side, lo, j + 1, i - |hs|);
    }
  }

  lemma FlatPositive(s: Snap, side: Side)
    requires Core(s)
    ensures Positive(Flat(s.pool, s.Qs(side), side, 0))
  {
    var f := Flat(s.pool, s.Qs(side), side, 0);
    forall i | 0 <= i < |f| ensures f[i].qty > 0 {
      FlatEntry(s.pool, s.Lv(side), s.Qs(side), side, s.lo, 0, i);
    }
  }

  /** The read-out respects price priority. */
  lemma {:induction false} FlatSorted(pool: seq<Order>, levels: seq<Level>, q: seq<seq<nat>>, side: Side, lo: int,
                                      j: nat)
    requires SideOk(pool, levels, q, side, lo) && j <= |q|
    ensures Sorted(Flat(pool, q, side, j), side)
    decreases |q| - j
  {
    if j < |q| {
      FlatSorted(pool, levels, q, side, lo, j + 1);
      var x := Idx(side, j, |q|);
      var hs := q[x];
      assert LevelAt(pool, levels, q, side, lo, x);
      var f, t := Flat(pool, q, side, j), Flat(pool, q, side, j + 1);
      forall i | 0 <= i < |hs| ensures f[i].price == lo + x {
        assert Node(pool[hs[i]], hs, i, side, lo + x);
      }
      forall i | 0 <= i < |t| ensures if side.Sell? then t[i].price >= lo + x else t[i].price <= lo + x {
        FlatEntry(pool, levels, q, side, lo, j + 1, i);
      }
      assert forall i :: |hs| <= i < |f| ==> f[i] == t[i - |hs|];
    }
  }

  /** No level better than index i holds orders. */
  ghost predicate Front(q: seq<seq<nat>>, side: Side, i: int) {
    forall k :: 0 <= k < |q| && Better(side, k, i) ==> q[k] == []
  }

  lemma FlatFront(pool: seq<Order>, q: seq<seq<nat>>, side: Side, i: nat)
    requires i < |q| && Front(q, side, i)
    ensures 0 <= Idx(side, i, |q|) < |q|
    ensures Flat(pool, q, side, 0) == Recs(pool, q[i]) + Flat(pool, q, side, Idx(side, i, |q|) + 1)
  {
    FlatSkip(pool, q, side, 0, Idx(side, i, |q|));
  }

  /** The orders behind level i do not notice what happens to slot h of level i. */
  lemma FlatBehind(s: Snap, pool': seq<Order>, hs: seq<nat>, side: Side, i: nat, h: nat)
    requires Core(s) && i < s.n && |s.pool| == |pool'|
    requires h < |s.pool| && s.pool[h].side == side && s.pool[h].price == s.lo + i
    requires forall x :: 0 <= x < |s.pool| && x != h ==> Same(s.pool[x], pool'[x])
    ensures var j := Idx(side, i, s.n);
            0 <= j < s.n && Flat(s.pool, s.Qs(side), side, j + 1) == Flat(pool', s.Qs(side)[i := hs], side, j + 1)
  {
    BehindSame(s, pool', side, i, h);
    FlatFrame(s.pool, pool', s.Qs(side), s.Qs(side)[i := hs], side, Idx(side, i, s.n) + 1);
  }

  lemma BehindSame(s: Snap, pool': seq<Order>, side: Side, i: nat, h: nat)
    requires Core(s) && i < s.n && |s.pool| == |pool'|
    requires h < |s.pool| && s.pool[h].side == side && s.pool[h].price == s.lo + i
    requires forall x :: 0 <= x < |s.pool| && x != h ==> Same(s.pool[x], pool'[x])
    ensures var q := s.Qs(side);
            forall k, x :: Idx(side, i, |q|) + 1 <= k < |q| && x in q[Idx(side, k, |q|)] ==>
              EntryOf(s.pool, x) == EntryOf(pool', x)
  {
    var q := s.Qs(side);
    forall k, x | Idx(side, i, |q|) + 1 <= k < |q| && x in q[Idx(side, k, |q|)]
      ensures EntryOf(s.pool, x) == EntryOf(pool', x)
    {
      OtherLevel(s, side, Idx(side, k, |q|), x);
    }
  }

  /** A slot queued at level z rests at level z's price. */
  lemma OtherLevel(s: Snap, side: Side, z: int, x: nat)
    requires Core(s) && 0 <= z < s.n && x in s.Qs(side)[z]
    ensures x < |s.pool| && s.pool[x].qty > 0 && s.pool[x].side == side && s.pool[x].price == s.lo + z
  {
    var q := s.Qs(side);
    assert LevelAt(s.pool, s.Lv(side), q, side, s.lo, z);
    var m :| 0 <= m < |q[z]| && q[z][m] == x;
    assert Node(s.pool[q[z][m]], q[z], m, side, s.lo + z);
  }

  /** The rest of the front level reads the same after its head changed. */
  lemma RecsTail(s: Snap, pool': seq<Order>, h: nat, i: nat)
    requires Core(s) && Queued(s, h, 0) && i == s.pool[h].price - s.lo && |s.pool| == |pool'|
    requires forall x :: 0 <= x < |s.pool| && x != h ==> Same(s.pool[x], pool'[x])
    ensures var hs := s.Qs(s.pool[h].side)[i];
            Recs(s.pool, hs) == [EntryOf(s.pool, h)] + Recs(pool', hs[1..])
  {
    var hs := s.Qs(s.pool[h].side)[i];
    assert LevelAt(s.pool, s.Lv(s.pool[h].side), s.Qs(s.pool[h].side), s.pool[h].side, s.lo, i);
    forall m | 0 <= m < |hs[1..]| ensures EntryOf(s.pool, hs[m + 1]) == EntryOf(pool', hs[1..][m]) {
      assert hs[m + 1] != hs[0];
      assert Same(s.pool[hs[m + 1]], pool'[hs[m + 1]]);
    }
  }

  /** Before and after a change at the front level the read-outs share everything behind that level. */
  lemma FlatSplice(s: Snap, pool': seq<Order>, hs: seq<nat>, h: nat) returns (t: seq<Entry>)
    requires Core(s) && Queued(s, h, 0) && |s.pool| == |pool'|
    requires Front(s.Qs(s.pool[h].side), s.pool[h].side, s.pool[h].price - s.lo)
    requires forall x :: 0 <= x < |s.pool| && x != h ==> Same(s.pool[x], pool'[x])
    ensures var sd := s.pool[h].side; var i := s.pool[h].price - s.lo; var q := s.Qs(sd);
            && Flat(s.pool, q, sd, 0) == [EntryOf(s.pool, h)] + Recs(pool', q[i][1..]) + t
            && Flat(pool', q[i := hs], sd, 0) == Recs(pool', hs) + t
  {
    var sd, i := s.pool[h].side, s.pool[h].price - s.lo;
    var q := s.Qs(sd);
    FlatFront(s.pool, q, sd, i);
    FlatFront(pool', q[i := hs], sd, i);
    FlatBehind(s, pool', hs, sd, i, h);
    RecsTail(s, pool', h, i);
    t := Flat(s.pool, q, sd, Idx(sd, i, s.n) + 1);
  }

  /** Taking the head order out of the front level drops the first entry of the read-out. */
  lemma FlatUnlinkHead(s: Snap, h: nat)
    requires Core(s) && Queued(s, h, 0)
    requires Front(s.Qs(s.pool[h].side), s.pool[h].side, s.pool[h].price - s.lo)
    ensures Unlinkable(s, h, 0)
    ensures var sd := s.pool[h].side; var s' := Unlinked(s, h, 0);
            Flat(s.pool, s.Qs(sd), sd, 0) == [EntryOf(s.pool, h)] + Flat(s'.pool, s'.Qs(sd), sd, 0)
  {
    UnlinkedCore(s, h, 0);
    UnlinkPoolFacts(s, h, 0);
    var sd, i, s' := s.pool[h].side, s.pool[h].price - s.lo, Unlinked(s, h, 0);
    var hs := s.Qs(sd)[i];
    assert Without(hs, 0) == hs[1..];
    var t := FlatSplice(s, s'.pool, hs[1..], h);
  }

  /** Reducing the head order of the front level reduces the first entry of the read-out. */
  lemma FlatReduceHead(s: Snap, h: nat, newQty: nat)
    requires Core(s) && Queued(s, h, 0) && 0 < newQty <= s.pool[h].qty
    requires Front(s.Qs(s.pool[h].side), s.pool[h].side, s.pool[h].price - s.lo)
    ensures Unlinkable(s, h, 0)
    ensures var sd := s.pool[h].side; var s' := Reduced(s, h, 0, newQty);
            var f := Flat(s.pool, s.Qs(sd), sd, 0);
            && f != [] && f[0] == EntryOf(s.pool, h)
            && Flat(s'.pool, s'.Qs(sd), sd, 0) == [f[0].(qty := newQty)] + f[1..]
  {
    QueuedFacts(s, h, 0);
    var sd, i, s' := s.pool[h].side, s.pool[h].price - s.lo, Reduced(s, h, 0, newQty);
    var hs := s.Qs(sd)[i];
    assert s.Qs(sd)[i := hs] == s.Qs(sd);
    var t := FlatSplice(s, s'.pool, hs, h);
    RecsCons(s'.pool, hs);
    Respliced(EntryOf(s.pool, h), EntryOf(s'.pool, h), Recs(s'.pool, hs[1..]), t);
  }

  lemma RecsCons(pool: seq<Order>, hs: seq<nat>)
    requires hs != []
    ensures Recs(pool, hs) == [EntryOf(pool, hs[0])] + Recs(pool, hs[1..])
  {
  }

  lemma Respliced(e: Entry, e': Entry, b: seq<Entry>, t: seq<Entry>)
    ensures [e'] + b + t == [e'] + ([e] + b + t)[1..]
  {
    assert ([e] + b + t)[1..] == b + t;
  }

  // ---- what a run of hits did to the pool

  /** Trade t took t.qty shares from the order that was o0 and is now o. */
  ghost predicate HitOk(o0: Order, o: Order, t: Trade, aggId: nat, side: Side) {
    && o0.side == Opposite(side)
    && t == Trade(o0.id, aggId, o0.price, t.qty, side, o.qty == 0)
    && 0 < t.qty <= o0.qty
    && Same(o, o0.(qty := o0.qty - t.qty))
  }

  /** The trades hit distinct slots `hits`, in order, and no other order changed. */
  ghost predicate Progress(pool0: seq<Order>, pool: seq<Order>, hits: seq<nat>, ts: seq<Trade>, aggId: nat,
                           side: Side) {
    && |pool| == |pool0| && |hits| == |ts| && NoDup(hits) && InPool(pool, hits)
    && (forall x :: 0 <= x < |pool| && x !in hits ==> Same(pool0[x], pool[x]))
    && (forall i :: 0 <= i < |hits| ==> HitOk(pool0[hits[i]], pool[hits[i]], ts[i], aggId, side))
  }

  ghost predicate AllFilled(ts: seq<Trade>) {
    forall i :: 0 <= i < |ts| ==> ts[i].restingFilled
  }

  lemma ProgressStep(pool0: seq<Order>, pool: seq<Order>, pool': seq<Order>, hits: seq<nat>, ts: seq<Trade>,
                     aggId: nat, side: Side, h: nat, t: Trade)
    requires Progress(pool0, pool, hits, ts, aggId, side)
    requires AllFilled(ts)
    requires h < |pool| == |pool'| && pool[h].qty > 0 && HitOk(pool[h], pool'[h], t, aggId, side)
    requires forall x :: 0 <= x < |pool| && x != h ==> Same(pool[x], pool'[x])
    ensures Progress(pool0, pool', hits + [h], ts + [t], aggId, side)
  {
    forall i | 0 <= i < |hits| ensures hits[i] != h && Same(pool[hits[i]], pool'[hits[i]]) {
      assert HitOk(pool0[hits[i]], pool[hits[i]], ts[i], aggId, side);
    }
    assert h !in hits;
    assert Same(pool0[h], pool[h]);
    var hits', ts' := hits + [h], ts + [t];
    forall i | 0 <= i < |hits'| ensures HitOk(pool0[hits'[i]], pool'[hits'[i]], ts'[i], aggId, side) {
      if i < |hits| {
        assert HitOk(pool0[hits[i]], pool[hits[i]], ts[i], aggId, side);
      }
    }
  }

  /** The engine after one hit of `fill` shares on the head h of its level. */
  ghost function AfterHit(s: Snap, h: nat, fill: nat): Snap
    requires Unlinkable(s, h, 0) && 0 < fill <= s.pool[h].qty
  {
    if fill == s.pool[h].qty then Unlinked(s, h, 0) else Reduced(s, h, 0, s.pool[h].qty - fill)
  }

  /** h heads the level at (side, p), and its links and counters are in bounds. */
  ghost predicate Hittable(s: Snap, h: nat, side: Side, p: int) {
    && Unlinkable(s, h, 0)
    && s.pool[h].side == side && s.pool[h].price == p
    && s.Lv(side)[p - s.lo].head == h && s.pool[h].prev == NIL
  }

  /** A level's head pointer is nil exactly when its queue is empty. */
  lemma HeadOfLevel(s: Snap, side: Side, p: int)
    requires Core(s) && 0 <= p - s.lo < s.n
    ensures s.Lv(side)[p - s.lo].head == NIL <==> s.Qs(side)[p - s.lo] == []
  {
    assert LevelAt(s.pool, s.Lv(side), s.Qs(side), side, s.lo, p - s.lo);
  }

  lemma HeadIsHittable(s: Snap, side: Side, p: int)
    requires Core(s) && 0 <= p - s.lo < s.n && s.Qs(side)[p - s.lo] != []
    ensures Hittable(s, s.Qs(side)[p - s.lo][0], side, p)
  {
    var h := s.Qs(side)[p - s.lo][0];
    OtherLevel(s, side, p - s.lo, h);
    QueuedFacts(s, h, 0);
  }

  function HitTrade(o: Order, fill: nat, aggId: nat): Trade {
    Trade(o.id, aggId, o.price, fill, Opposite(o.side), fill == o.qty)
  }

  /** One hit keeps the engine well formed and is one step of the reference matcher. */
  lemma HitStep(s: Snap, h: nat, aggId: nat, limit: int, qty: nat)
    requires Core(s) && Queued(s, h, 0) && qty > 0
    requires var o := s.pool[h];
             Front(s.Qs(o.side), o.side, o.price - s.lo) && Crosses(Opposite(o.side), limit, o.price)
    ensures Unlinkable(s, h, 0)
    ensures var o := s.pool[h];
            var fill := Min(qty, o.qty);
            var s' := AfterHit(s, h, fill);
            && Core(s')
            && Resumes(Flat(s.pool, s.Qs(o.side), o.side, 0), qty, Flat(s'.pool, s'.Qs(o.side), o.side, 0), qty - fill,
                       [HitTrade(o, fill, aggId)], aggId, Opposite(o.side), limit)
  {
    QueuedFacts(s, h, 0);
    var o := s.pool[h];
    var fill := Min(qty, o.qty);
    var f := Flat(s.pool, s.Qs(o.side), o.side, 0);
    var s' := AfterHit(s, h, fill);
    var f' := Flat(s'.pool, s'.Qs(o.side), o.side, 0);
    HitFlat(s, h, fill);
    ResumesHit(EntryOf(s.pool, h), f[1..], f', qty, HitTrade(o, fill, aggId), aggId, Opposite(o.side), limit);
  }

  /** The read-out after one hit. */
  lemma HitFlat(s: Snap, h: nat, fill: nat)
    requires Core(s) && Queued(s, h, 0) && 0 < fill <= s.pool[h].qty
    requires Front(s.Qs(s.pool[h].side), s.pool[h].side, s.pool[h].price - s.lo)
    ensures Unlinkable(s, h, 0)
    ensures var o := s.pool[h];
            var e := EntryOf(s.pool, h);
            var f := Flat(s.pool, s.Qs(o.side), o.side, 0);
            var s' := AfterHit(s, h, fill);
            && Core(s')
            && f != [] && f == [e] + f[1..]
            && Flat(s'.pool, s'.Qs(o.side), o.side, 0) == if fill == e.qty then f[1..]
                 else [e.(qty := e.qty - fill)] + f[1..]
  {
    QueuedFacts(s, h, 0);
    var o := s.pool[h];
    if fill == o.qty {
      UnlinkedCore(s, h, 0);
      FlatUnlinkHead(s, h);
    } else {
      ReducedCore(s, h, 0, o.qty - fill);
      FlatReduceHead(s, h, o.qty - fill);
    }
  }

  /** What one hit did to the pool and the queues. */
  lemma HitPool(s: Snap, h: nat, aggId: nat, fill: nat)
    requires Core(s) && Queued(s, h, 0) && 0 < fill <= s.pool[h].qty
    ensures Unlinkable(s, h, 0)
    ensures var o := s.pool[h];
            var i := o.price - s.lo;
            var s' := AfterHit(s, h, fill);
            && |s'.pool| == |s.pool|
            && HitOk(o, s'.pool[h], HitTrade(o, fill, aggId), aggId, Opposite(o.side))
            && (forall x :: 0 <= x < |s.pool| && x != h ==> Same(s.pool[x], s'.pool[x]))
            && s'.Qs(o.side) == s.Qs(o.side)[i := s'.Qs(o.side)[i]]
            && s'.Qs(Opposite(o.side)) == s.Qs(Opposite(o.side))
            && (fill == o.qty || s'.Qs(o.side)[i] == s.Qs(o.side)[i])
  {
    QueuedFacts(s, h, 0);
    if fill == s.pool[h].qty {
      UnlinkPoolFacts(s, h, 0);
    }
  }

  /** An aggressor part-way through the book: where it started and what it has done so far. */
  datatype Run = Run(pool0: seq<Order>, f0: seq<Entry>, qty0: nat, aggId: nat, side: Side, limit: int,
                     qty: nat, ts: seq<Trade>, hits: seq<nat>)

  /** The trades so far hit distinct orders, and the reference matcher resumes from here. */
  ghost predicate Running(s: Snap, r: Run) {
    match r
    case Run(pool0, f0, qty0, aggId, side, limit, qty, ts, hits) =>
      && Core(s)
      && Progress(pool0, s.pool, hits, ts, aggId, side)
      && (qty > 0 ==> AllFilled(ts))
      && Resumes(f0, qty0, Flat(s.pool, s.Qs(Opposite(side)), Opposite(side), 0), qty, ts, aggId, side, limit)
  }

  /** The run after its next hit, on slot h. */
  ghost function NextRun(s: Snap, r: Run, h: nat): Run
    requires h < |s.pool|
  {
    var fill := Min(r.qty, s.pool[h].qty);
    r.(qty := r.qty - fill, ts := r.ts + [HitTrade(s.pool[h], fill, r.aggId)], hits := r.hits + [h])
  }

  lemma RunStep(s: Snap, r: Run, p: int)
    requires Running(s, r) && r.qty > 0
    requires 0 <= p - s.lo < s.n && s.Qs(Opposite(r.side))[p - s.lo] != []
    requires Front(s.Qs(Opposite(r.side)), Opposite(r.side), p - s.lo) && Crosses(r.side, r.limit, p)
    ensures var opp := Opposite(r.side);
            var h := s.Qs(opp)[p - s.lo][0];
            && Hittable(s, h, opp, p)
            && var s' := AfterHit(s, h, Min(r.qty, s.pool[h].qty));
               && Running(s', NextRun(s, r, h))
               && s'.Qs(opp) == s.Qs(opp)[p - s.lo := s'.Qs(opp)[p - s.lo]] && s'.Qs(r.side) == s.Qs(r.side)
  {
    var opp := Opposite(r.side);
    HeadIsHittable(s, opp, p);
    var h := s.Qs(opp)[p - s.lo][0];
    var fill := Min(r.qty, s.pool[h].qty);
    HitStep(s, h, r.aggId, r.limit, r.qty);
    HitPool(s, h, r.aggId, fill);
    var s', r' := AfterHit(s, h, fill), NextRun(s, r, h);
    var t := HitTrade(s.pool[h], fill, r.aggId);
    ProgressStep(r.pool0, s.pool, s'.pool, r.hits, r.ts, r.aggId, r.side, h, t);
    ResumesTrans(r.f0, r.qty0, Flat(s.pool, s.Qs(opp), opp, 0), r.qty, Flat(s'.pool, s'.Qs(opp), opp, 0), r'.qty, r.ts,
                 [t],
                 r.aggId, r.side, r.limit);
  }

  /** No resting order opposite to `side` satisfies the limit. */
  ghost predicate Uncrossed(pool: seq<Order>, side: Side, limit: int) {
    forall h :: 0 <= h < |pool| && pool[h].qty > 0 && pool[h].side != side ==> !Crosses(side, limit, pool[h].price)
  }

  lemma RunStart(s: Snap, r: Run)
    requires Core(s)
    requires r == Run(s.pool, Flat(s.pool, s.Qs(Opposite(r.side)), Opposite(r.side), 0), r.qty, r.aggId, r.side,
                      r.limit, r.qty, [], [])
    ensures Running(s, r)
  {
    ResumesStart(r.f0, r.qty, r.aggId, r.side, r.limit);
  }

  /** A run that can go no further is what the reference matcher computes. */
  lemma RunEnd(s: Snap, r: Run, best: int)
    requires Running(s, r) && NO_PRICE < s.lo && BestOk(s.Qs(Opposite(r.side)), Opposite(r.side), best, s.lo)
    requires r.qty == 0 || best == NO_PRICE || !Crosses(r.side, r.limit, best)
    ensures Match(r.f0, r.aggId, r.side, r.limit, r.qty0)
            == Outcome(Flat(s.pool, s.Qs(Opposite(r.side)), Opposite(r.side), 0), r.ts, r.qty)
    ensures r.qty > 0 ==> Uncrossed(s.pool, r.side, r.limit)
  {
    var opp := Opposite(r.side);
    var q := s.Qs(opp);
    var f := Flat(s.pool, q, opp, 0);
    if r.qty > 0 {
      forall h | 0 <= h < |s.pool| && s.pool[h].qty > 0 && s.pool[h].side != r.side
        ensures !Crosses(r.side, r.limit, s.pool[h].price)
      {
        BestIsBest(s, best, h);
      }
      if f != [] {
        FlatEntry(s.pool, s.Lv(opp), q, opp, s.lo, 0, 0);
      }
    }
    ResumesEnd(r.f0, r.qty0, f, r.qty, r.ts, r.aggId, r.side, r.limit);
  }

  /** No resting order beats the tracked best price of its side. */
  lemma BestIsBest(s: Snap, best: int, h: nat)
    requires Core(s) && h < |s.pool| && s.pool[h].qty > 0
    requires BestOk(s.Qs(s.pool[h].side), s.pool[h].side, best, s.lo)
    ensures best != NO_PRICE && !Better(s.pool[h].side, s.pool[h].price, best)
  {
    assert Homed(s.pool[h], h, s.bq, s.aq, s.fl, s.lo);
  }

  /** A side whose queues and orders did not change reads out the same. */
  lemma FlatKept(s: Snap, s': Snap, side: Side)
    requires Core(s) && s'.Qs(side) == s.Qs(side) && |s.pool| <= |s'.pool|
    requires forall x :: 0 <= x < |s.pool| && s.pool[x].qty > 0 && s.pool[x].side == side ==>
               Same(s.pool[x], s'.pool[x])
    ensures Flat(s'.pool, s'.Qs(side), side, 0) == Flat(s.pool, s.Qs(side), side, 0)
  {
    var q := s.Qs(side);
    forall k, x | 0 <= k < |q| && x in q[Idx(side, k, |q|)] ensures EntryOf(s.pool, x) == EntryOf(s'.pool, x) {
      OtherLevel(s, side, Idx(side, k, |q|), x);
    }
    FlatFrame(s.pool, s'.pool, q, s'.Qs(side), side, 0);
  }

  /** Taking an order off one side leaves the read-out of the other side as it was. */
  lemma OtherSideFlat(s: Snap, s': Snap, h: nat)
    requires Core(s) && Dequeued(s, s', h) && h < |s.pool| == |s'.pool|
    requires forall x :: 0 <= x < |s.pool| && x != h ==> Same(s.pool[x], s'.pool[x])
    ensures var opp := Opposite(s.pool[h].side);
            Flat(s'.pool, s'.Qs(opp), opp, 0) == Flat(s.pool, s.Qs(opp), opp, 0)
  {
    FlatKept(s, s', Opposite(s.pool[h].side));
  }
}
