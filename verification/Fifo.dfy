/**
 * Doubly linked FIFOs and the free list threaded through one pool of order slots.
 *
 * A list is described by the ghost sequence of handles it visits; every lemma here says what one
 * pointer update does to that sequence and that lists over other handles do not notice.
 */
module Fifo {
  import opened Types

  datatype Order = Order(id: nat, price: int, qty: nat, side: Side, prev: nat, next: nat)

  datatype Level = Level(totalQty: nat, head: nat, tail: nat, count: nat)

  /** What a resting order is, apart from its links. */
  datatype Entry = Entry(h: nat, id: nat, price: int, qty: nat)

  function At(hs: seq<nat>, i: int): nat {
    if 0 <= i < |hs| then hs[i] else NIL
  }

  ghost predicate NoDup(hs: seq<nat>) {
    forall i, j :: 0 <= i < j < |hs| ==> hs[i] != hs[j]
  }

  ghost predicate InPool(pool: seq<Order>, hs: seq<nat>) {
    forall i :: 0 <= i < |hs| ==> hs[i] < |pool|
  }

  ghost predicate Node(o: Order, hs: seq<nat>, i: int, side: Side, price: int) {
    && o.qty > 0
    && o.side == side
    && o.price == price
    && o.prev == At(hs, i - 1)
    && o.next == At(hs, i + 1)
  }

  // The explicit trigger stops each node from dragging in its neighbours' nodes.
  ghost predicate Nodes(pool: seq<Order>, hs: seq<nat>, side: Side, price: int)
    requires InPool(pool, hs)
  {
    forall i {:trigger Node(pool[hs[i]], hs, i, side, price)} ::
      0 <= i < |hs| ==> Node(pool[hs[i]], hs, i, side, price)
  }

  ghost function Total(pool: seq<Order>, hs: seq<nat>): nat
    requires InPool(pool, hs)
  {
    if hs == [] then 0 else pool[hs[0]].qty + Total(pool, hs[1..])
  }

  /** The level at (side, price) is exactly the FIFO `hs`: links, total, count, head and tail. */
  ghost predicate LevelOk(pool: seq<Order>, lvl: Level, hs: seq<nat>, side: Side, price: int) {
    && InPool(pool, hs)
    && NoDup(hs)
    && Nodes(pool, hs, side, price)
    && lvl == Level(Total(pool, hs), At(hs, 0), At(hs, |hs| - 1), |hs|)
  }

  ghost predicate FreeNode(o: Order, fl: seq<nat>, i: int) {
    o.qty == 0 && o.next == At(fl, i + 1)
  }

  /** The free list visits exactly `fl`, all of it with quantity 0. */
  ghost predicate FreeOk(pool: seq<Order>, freeHead: nat, fl: seq<nat>) {
    && InPool(pool, fl)
    && NoDup(fl)
    && freeHead == At(fl, 0)
    && (forall i {:trigger FreeNode(pool[fl[i]], fl, i)} :: 0 <= i < |fl| ==> FreeNode(pool[fl[i]], fl, i))
  }

  /** Two slots hold the same order; only links may differ. */
  ghost predicate Same(a: Order, b: Order) {
    a.id == b.id && a.price == b.price && a.qty == b.qty && a.side == b.side
  }

  function EntryOf(pool: seq<Order>, h: nat): Entry {
    if h < |pool| then Entry(h, pool[h].id, pool[h].price, pool[h].qty) else Entry(h, 0, 0, 0)
  }

  function Recs(pool: seq<Order>, hs: seq<nat>): (r: seq<Entry>)
    ensures |r| == |hs|
  {
    seq(|hs|, i requires 0 <= i < |hs| => EntryOf(pool, hs[i]))
  }

  function Without(hs: seq<nat>, k: nat): seq<nat>
    requires k < |hs|
  {
    hs[..k] + hs[k + 1..]
  }

  // ---- totals

  lemma {:induction false} TotalSame(pool: seq<Order>, pool': seq<Order>, hs: seq<nat>)
    requires InPool(pool, hs) && InPool(pool', hs)
    requires forall i :: 0 <= i < |hs| ==> pool[hs[i]].qty == pool'[hs[i]].qty
    ensures Total(pool, hs) == Total(pool', hs)
  {
    if hs != [] {
      assert forall i :: 0 <= i < |hs[1..]| ==> hs[1..][i] == hs[i + 1];
      TotalSame(pool, pool', hs[1..]);
    }
  }

  lemma {:induction false} TotalSnoc(pool: seq<Order>, hs: seq<nat>, h: nat)
    requires InPool(pool, hs) && h < |pool|
    ensures Total(pool, hs + [h]) == Total(pool, hs) + pool[h].qty
  {
    if hs == [] {
      assert [h][1..] == [];
    } else {
      assert (hs + [h])[1..] == hs[1..] + [h];
      TotalSnoc(pool, hs[1..], h);
    }
  }

  lemma {:induction false} TotalWithout(pool: seq<Order>, hs: seq<nat>, k: nat)
    requires InPool(pool, hs) && k < |hs|
    ensures InPool(pool, Without(hs, k))
    ensures Total(pool, hs) == Total(pool, Without(hs, k)) + pool[hs[k]].qty
  {
    if k == 0 {
      assert Without(hs, 0) == hs[1..];
    } else {
      TotalWithout(pool, hs[1..], k - 1);
      assert Without(hs, k)[1..] == Without(hs[1..], k - 1);
    }
  }

  /** A FIFO of live orders is empty exactly when its total is 0. */
  lemma TotalZero(pool: seq<Order>, lvl: Level, hs: seq<nat>, side: Side, price: int)
    requires LevelOk(pool, lvl, hs, side, price)
    ensures lvl.totalQty == 0 <==> hs == []
  {
    if hs != [] {
      assert Node(pool[hs[0]], hs, 0, side, price);
    }
  }

  /** A neighbour named by a link really is another order of the same level. */
  ghost predicate Neighbour(pool: seq<Order>, x: nat, h: nat, hs: seq<nat>, side: Side, price: int) {
    x < |pool| && x != h && x in hs && pool[x].qty > 0 && pool[x].side == side && pool[x].price == price
  }

  lemma NodeFacts(pool: seq<Order>, lvl: Level, hs: seq<nat>, side: Side, price: int, k: nat)
    requires LevelOk(pool, lvl, hs, side, price) && k < |hs|
    ensures var o := pool[hs[k]];
            && Node(o, hs, k, side, price)
            && o.qty <= lvl.totalQty && 0 < lvl.count
            && (o.prev != NIL ==> Neighbour(pool, o.prev, hs[k], hs, side, price))
            && (o.next != NIL ==> Neighbour(pool, o.next, hs[k], hs, side, price) && o.next != o.prev)
  {
    assert Node(pool[hs[k]], hs, k, side, price);
    TotalWithout(pool, hs, k);
    if k > 0 {
      assert Node(pool[hs[k - 1]], hs, k - 1, side, price);
    }
    if k + 1 < |hs| {
      assert Node(pool[hs[k + 1]], hs, k + 1, side, price);
    }
  }

  // ---- list updates

  /** A list survives any pool change that keeps the slots it visits. */
  lemma LevelFrame(pool: seq<Order>, pool': seq<Order>, lvl: Level, hs: seq<nat>, side: Side, price: int)
    requires LevelOk(pool, lvl, hs, side, price)
    requires |pool| <= |pool'|
    requires forall i :: 0 <= i < |hs| ==> pool'[hs[i]] == pool[hs[i]]
    ensures LevelOk(pool', lvl, hs, side, price)
  {
    TotalSame(pool, pool', hs);
    forall i | 0 <= i < |hs| ensures Node(pool'[hs[i]], hs, i, side, price) {
      assert Node(pool[hs[i]], hs, i, side, price);
    }
  }

  /** Appending a fresh slot at the tail: the pool and level the engine's `rest` leaves behind. */
  lemma LevelAppend(pool: seq<Order>, pool': seq<Order>, lvl: Level, lvl': Level, hs: seq<nat>,
                    side: Side, price: int, h: nat)
    requires LevelOk(pool, lvl, hs, side, price)
    requires h < |pool| == |pool'| && h < NIL && h !in hs && |pool| <= NIL
    requires pool'[h].qty > 0 && pool'[h].side == side && pool'[h].price == price
    requires pool'[h].prev == lvl.tail && pool'[h].next == NIL
    requires lvl.tail != NIL ==> lvl.tail < |pool| && pool'[lvl.tail] == pool[lvl.tail].(next := h)
    requires forall x :: 0 <= x < |pool| && x != h && x != lvl.tail ==> pool'[x] == pool[x]
    requires lvl' == Level(lvl.totalQty + pool'[h].qty, if lvl.tail == NIL then h else lvl.head, h, lvl.count + 1)
    ensures LevelOk(pool', lvl', hs + [h], side, price)
  {
    var hs' := hs + [h];
    assert NoDup(hs');
    TotalSnoc(pool', hs, h);
    forall i | 0 <= i < |hs| ensures pool'[hs[i]].qty == pool[hs[i]].qty {
      assert Node(pool[hs[i]], hs, i, side, price);
    }
    TotalSame(pool, pool', hs);
    assert hs != [] ==> lvl.tail == hs[|hs| - 1] && hs[|hs| - 1] < NIL;
    forall i | 0 <= i < |hs'| ensures Node(pool'[hs'[i]], hs', i, side, price) {
      if i < |hs| {
        assert hs'[i] == hs[i];
        assert Node(pool[hs[i]], hs, i, side, price);
        assert i < |hs| - 1 ==> hs[i] != hs[|hs| - 1];
      }
    }
  }

  /** pool' is pool with h's neighbours linked to each other; h itself may change. */
  ghost predicate Bridged(pool: seq<Order>, pool': seq<Order>, h: nat)
    requires h < |pool|
  {
    var o := pool[h];
    && |pool| == |pool'|
    && (o.prev != NIL ==> o.prev < |pool| && pool'[o.prev] == pool[o.prev].(next := o.next))
    && (o.next != NIL ==> o.next < |pool| && pool'[o.next] == pool[o.next].(prev := o.prev))
    && (forall x :: 0 <= x < |pool| && x != h && x != o.prev && x != o.next ==> pool'[x] == pool[x])
  }

  /** Unlinking position k: neighbours bridged, the slot itself free to change. */
  lemma LevelUnlink(pool: seq<Order>, pool': seq<Order>, lvl: Level, lvl': Level, hs: seq<nat>,
                    side: Side, price: int, k: nat)
    requires LevelOk(pool, lvl, hs, side, price)
    requires |pool| <= NIL && k < |hs| && Bridged(pool, pool', hs[k])
    requires var o := pool[hs[k]];
             && o.qty <= lvl.totalQty && 0 < lvl.count
             && lvl' == Level(lvl.totalQty - o.qty, if o.prev == NIL then o.next else lvl.head,
                              if o.next == NIL then o.prev else lvl.tail, lvl.count - 1)
    ensures LevelOk(pool', lvl', Without(hs, k), side, price)
  {
    NoDupWithout(hs, k);
    UnlinkNodes(pool, pool', hs, side, price, k);
    TotalWithout(pool, hs, k);
    TotalSame(pool, pool', Without(hs, k));
    assert Node(pool[hs[k]], hs, k, side, price);
  }

  lemma NoDupWithout(hs: seq<nat>, k: nat)
    requires NoDup(hs) && k < |hs|
    ensures NoDup(Without(hs, k)) && hs[k] !in Without(hs, k)
  {
    var hs' := Without(hs, k);
    assert forall i :: 0 <= i < |hs'| ==> hs'[i] == hs[if i < k then i else i + 1];
  }

  lemma UnlinkNodes(pool: seq<Order>, pool': seq<Order>, hs: seq<nat>, side: Side, price: int, k: nat)
    requires InPool(pool, hs) && NoDup(hs) && |pool| <= NIL && k < |hs|
    requires Nodes(pool, hs, side, price)
    requires Bridged(pool, pool', hs[k])
    ensures var hs' := Without(hs, k);
            && InPool(pool, hs') && InPool(pool', hs')
            && Nodes(pool', hs', side, price)
            && forall i :: 0 <= i < |hs'| ==> pool[hs'[i]].qty == pool'[hs'[i]].qty
  {
    var hs' := Without(hs, k);
    forall i | 0 <= i < |hs'|
      ensures hs'[i] < |pool| && Node(pool'[hs'[i]], hs', i, side, price) && pool'[hs'[i]].qty == pool[hs'[i]].qty
    {
      UnlinkNode(pool, pool', hs, side, price, k, if i < k then i else i + 1);
    }
  }

  /** One surviving node of LevelUnlink. */
  lemma UnlinkNode(pool: seq<Order>, pool': seq<Order>, hs: seq<nat>, side: Side, price: int, k: nat, s: nat)
    requires InPool(pool, hs) && NoDup(hs) && |pool| <= NIL && k < |hs| && s < |hs| && s != k
    requires Nodes(pool, hs, side, price)
    requires Bridged(pool, pool', hs[k])
    ensures var hs' := Without(hs, k);
            var i := if s < k then s else s - 1;
            hs'[i] == hs[s] && Node(pool'[hs[s]], hs', i, side, price) && pool'[hs[s]].qty == pool[hs[s]].qty
  {
    assert Node(pool[hs[k]], hs, k, side, price) && Node(pool[hs[s]], hs, s, side, price);
    assert hs[s] != hs[k];
    assert k > 0 && s != k - 1 ==> hs[k - 1] != hs[s];
    assert k + 1 < |hs| && s != k + 1 ==> hs[k + 1] != hs[s];
  }

  /** Shrinking the quantity of one order in place. */
  lemma LevelReduce(pool: seq<Order>, pool': seq<Order>, lvl: Level, lvl': Level, hs: seq<nat>,
                    side: Side, price: int, k: nat, newQty: nat)
    requires LevelOk(pool, lvl, hs, side, price)
    requires |pool| == |pool'| && k < |hs| && 0 < newQty <= pool[hs[k]].qty
    requires pool' == pool[hs[k] := pool[hs[k]].(qty := newQty)]
    requires pool[hs[k]].qty - newQty <= lvl.totalQty
    requires lvl' == lvl.(totalQty := lvl.totalQty - (pool[hs[k]].qty - newQty))
    ensures LevelOk(pool', lvl', hs, side, price)
  {
    var hs' := Without(hs, k);
    TotalWithout(pool, hs, k);
    TotalWithout(pool', hs, k);
    forall i | 0 <= i < |hs'| ensures pool[hs'[i]].qty == pool'[hs'[i]].qty {
      assert hs'[i] == hs[if i < k then i else i + 1];
    }
    TotalSame(pool, pool', hs');
    forall i | 0 <= i < |hs| ensures Node(pool'[hs[i]], hs, i, side, price) {
      assert Node(pool[hs[i]], hs, i, side, price);
    }
  }

  lemma FreeIsEmpty(pool: seq<Order>, freeHead: nat, fl: seq<nat>)
    requires FreeOk(pool, freeHead, fl)
    ensures forall x :: x in fl ==> x < |pool| && pool[x].qty == 0
  {
    forall x | x in fl ensures x < |pool| && pool[x].qty == 0 {
      var i :| 0 <= i < |fl| && fl[i] == x;
      assert FreeNode(pool[fl[i]], fl, i);
    }
  }

  lemma FreeFrame(pool: seq<Order>, pool': seq<Order>, freeHead: nat, fl: seq<nat>)
    requires FreeOk(pool, freeHead, fl)
    requires |pool| <= |pool'|
    requires forall x :: 0 <= x < |pool| && x in fl ==> pool'[x] == pool[x]
    ensures FreeOk(pool', freeHead, fl)
  {
    forall i | 0 <= i < |fl| ensures FreeNode(pool'[fl[i]], fl, i) {
      assert FreeNode(pool[fl[i]], fl, i);
    }
  }

  /** Taking the first slot off the free list. */
  lemma FreePop(pool: seq<Order>, freeHead: nat, fl: seq<nat>)
    requires FreeOk(pool, freeHead, fl) && fl != []
    ensures freeHead == fl[0] && freeHead !in fl[1..] && pool[freeHead].qty == 0
    ensures FreeOk(pool, pool[freeHead].next, fl[1..])
  {
    assert FreeNode(pool[fl[0]], fl, 0);
    forall i | 0 <= i < |fl[1..]| ensures FreeNode(pool[fl[1..][i]], fl[1..], i) {
      assert FreeNode(pool[fl[i + 1]], fl, i + 1);
    }
  }

  /** Pushing an emptied slot on the free list. */
  lemma FreePush(pool: seq<Order>, pool': seq<Order>, freeHead: nat, fl: seq<nat>, h: nat)
    requires FreeOk(pool, freeHead, fl)
    requires |pool| == |pool'| && h < |pool| && h !in fl
    requires pool'[h].qty == 0 && pool'[h].next == freeHead
    requires forall x :: 0 <= x < |pool| && x in fl ==> pool'[x] == pool[x]
    ensures FreeOk(pool', h, [h] + fl)
  {
    var fl' := [h] + fl;
    forall i | 0 <= i < |fl'| ensures FreeNode(pool'[fl'[i]], fl', i) {
      if i > 0 {
        assert FreeNode(pool[fl[i - 1]], fl, i - 1);
        assert fl'[i] == fl[i - 1] && fl[i - 1] in fl;
      }
    }
  }
}
