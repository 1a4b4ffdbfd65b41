/** The order manager's mutable state: quote slots, accounts, the user-ref hint ring. */
module OrderManagerModel {
  import opened Types
  import opened OmsSpec
  import Ledger

  const REF_RING: nat := 4096

  datatype Targets = Targets(quoteBid: bool, bidPrice: int, bidQty: nat, quoteAsk: bool, askPrice: int, askQty: nat)

  /** The side reconciled first: the ask when the new bid would reach it. */
  function FirstSide(ask: Slot, t: Targets): Side {
    if t.quoteBid && ask.state != Idle && t.bidPrice >= ask.price then Sell else Buy
  }

  function Wanted(t: Targets, side: Side): bool {
    if side.Buy? then t.quoteBid else t.quoteAsk
  }

  function PriceOf(t: Targets, side: Side): int {
    if side.Buy? then t.bidPrice else t.askPrice
  }

  function QtyOf(t: Targets, side: Side): nat {
    if side.Buy? then t.bidQty else t.askQty
  }

  /** One side of a symbol against its targets. */
  function ReconcileSide(o: Oms, sym: nat, t: Targets, side: Side): (r: (Oms, Option<Request>))
    requires 2 * sym + 1 < |o.slots|
    ensures |r.0.slots| == |o.slots|
  {
    Reconcile(o, SlotOf(sym, side), Wanted(t, side), PriceOf(t, side), QtyOf(t, side))
  }

  /** The next two user refs are in use nowhere. */
  ghost predicate TwoFree(o: Oms) {
    Free(o.slots, o.next) && Free(o.slots, NextRef(o.next))
  }

  lemma FreeAfter(o: Oms, sym: nat, t: Targets, side: Side)
    requires 2 * sym + 1 < |o.slots| && TwoFree(o)
    ensures var o' := ReconcileSide(o, sym, t, side).0; Free(o'.slots, o'.next)
  {
    var o' := ReconcileSide(o, sym, t, side).0;
    forall i | 0 <= i < |o'.slots| ensures !Carries(o'.slots[i], o'.next) {
      assert !Carries(o.slots[i], o.next) && !Carries(o.slots[i], NextRef(o.next));
    }
  }

  function Emitted(r: Option<Request>): seq<Request> {
    if r.Some? then [r.value] else []
  }

  /** The user ref after one request: an entry or a replace takes one, and 0 is skipped at the wrap. */
  function RefAfter(ref: nat, r: Option<Request>): nat {
    if r == None || r.value.Cancel? then ref else if ref == 0xFFFF_FFFF then 1 else ref + 1
  }

  /**
   * What the two sides of a symbol ask for, in order: the ask goes first exactly when the new bid would
   * reach the price the ask rests at, so that the two never cross.
   */
  ghost predicate AskedBoth(bid: Slot, ask: Slot, sym: nat, ref: nat, t: Targets, out: seq<Request>) {
    var toBid, toAsk := Target(t.quoteBid, t.bidPrice, t.bidQty), Target(t.quoteAsk, t.askPrice, t.askQty);
    if t.quoteBid && ask.state != Idle && t.bidPrice >= ask.price then
      exists a, b ::
        && Asked(ask, 2 * sym + 1, ref, toAsk, a) && Asked(bid, 2 * sym, RefAfter(ref, a), toBid, b)
        && out == Emitted(a) + Emitted(b)
    else
      exists a, b ::
        && Asked(bid, 2 * sym, ref, toBid, b) && Asked(ask, 2 * sym + 1, RefAfter(ref, b), toAsk, a)
        && out == Emitted(b) + Emitted(a)
  }

  lemma SymbolAsks(o: Oms, sym: nat, t: Targets)
    requires 2 * sym + 1 < |o.slots|
    ensures var first := FirstSide(o.slots[2 * sym + 1], t);
            var (o1, r1) := ReconcileSide(o, sym, t, first);
            var (o2, r2) := ReconcileSide(o1, sym, t, Opposite(first));
            AskedBoth(o.slots[2 * sym], o.slots[2 * sym + 1], sym, o.next, t, Emitted(r1) + Emitted(r2))
  {
    var toBid, toAsk := Target(t.quoteBid, t.bidPrice, t.bidQty), Target(t.quoteAsk, t.askPrice, t.askQty);
    var first := FirstSide(o.slots[2 * sym + 1], t);
    var (o1, r1) := ReconcileSide(o, sym, t, first);
    ReconcileAsks(o, SlotOf(sym, first), if first.Buy? then toBid else toAsk);
    ReconcileAsks(o1, SlotOf(sym, Opposite(first)), if first.Buy? then toAsk else toBid);
    assert o1.next == RefAfter(o.next, r1);
  }

  datatype RefSide = RefSide(userRef: nat, slot: nat)

  /** Refs in use fit the counter, and no ref is used by two slots or twice by one. */
  ghost predicate RefsOk(slots: seq<Slot>) {
    && (forall i, ref: nat :: 0 <= i < |slots| && Carries(slots[i], ref) ==> 0 < ref < TWO32)
    && (forall i, j, ref: nat ::
          0 <= i < |slots| && 0 <= j < |slots| && Carries(slots[i], ref) && Carries(slots[j], ref) ==> i == j)
    && (forall i :: 0 <= i < |slots| && slots[i].state == PendingReplace ==> slots[i].userRef != slots[i].pendingRef)
  }

  /** A slot may drop refs. */
  lemma RefsUpdate(slots: seq<Slot>, k: nat, s: Slot)
    requires RefsOk(slots) && k < |slots|
    requires forall ref: nat :: Carries(s, ref) ==> Carries(slots[k], ref)
    requires s.state == PendingReplace ==> s.userRef != s.pendingRef
    ensures RefsOk(slots[k := s])
  {
    var t := slots[k := s];
    forall i, ref: nat | 0 <= i < |t| && Carries(t[i], ref) ensures Carries(slots[i], ref) {
    }
  }

  /** The slot takes ref for a new order or for the replacement of its live one. */
  predicate Takes(was: Slot, s: Slot, ref: nat) {
    match s.state
    case PendingNew => was.state == Idle && s.userRef == ref
    case PendingReplace => was.state == Live && s.userRef == was.userRef && s.pendingRef == ref
    case _ => false
  }

  /** Taking a ref keeps the refs apart exactly when no slot uses it: the counter has not lapped an order. */
  lemma RefsTaken(slots: seq<Slot>, k: nat, s: Slot, ref: nat)
    requires RefsOk(slots) && k < |slots| && 0 < ref < TWO32 && Takes(slots[k], s, ref)
    ensures RefsOk(slots[k := s]) <==> Free(slots, ref)
  {
    var t := slots[k := s];
    if Free(slots, ref) {
      forall i, r: nat | 0 <= i < |t| && Carries(t[i], r) ensures Carries(slots[i], r) || (i == k && r == ref) {
        assert i == k && r != ref ==> Carries(slots[k], r);
      }
    } else {
      var j :| 0 <= j < |slots| && Carries(slots[j], ref);
      assert Carries(t[k], ref);
      assert j != k ==> Carries(t[j], ref);
    }
  }

  // ---- what an acknowledgement means

  /** An accepted entry rests with the venue's quantity, or settles if it arrives dead. */
  ghost predicate HeardAccepted(o: Oms, u: nat, qty: nat, dead: bool, o': Oms) {
    && (forall k :: 0 <= k < |o.slots| && o.slots[k].state == PendingNew && o.slots[k].userRef == u ==>
          o' == o.(slots := o.slots[k := if dead then Slot(Idle, 0, 0, 0, 0, 0)
                                         else o.slots[k].(state := Live, qty := qty, leaves := qty)]))
    && ((forall k :: 0 <= k < |o.slots| ==> !(o.slots[k].state == PendingNew && o.slots[k].userRef == u)) ==>
          o' == o.(unknown := o.unknown + 1))
  }

  /** A replacement takes its predecessor's place, or settles the slot if it arrives dead. */
  ghost predicate HeardReplaced(o: Oms, u: nat, price: int, qty: nat, dead: bool, o': Oms) {
    && (forall k :: 0 <= k < |o.slots| && o.slots[k].state == PendingReplace && o.slots[k].pendingRef == u ==>
          o' == o.(slots := o.slots[k := if dead then Slot(Idle, 0, 0, 0, 0, 0)
                                    else Slot(Live, u, 0, price, qty, qty)]))
    && ((forall k :: 0 <= k < |o.slots| ==> !(o.slots[k].state == PendingReplace && o.slots[k].pendingRef == u)) ==>
          o' == o.(unknown := o.unknown + 1))
  }

  /** A fill moves the symbol's position, up on the bid and down on the ask, and takes shares off the slot. */
  ghost predicate HeardExecuted(o: Oms, u: nat, qty: nat, o': Oms)
    requires |o.slots| == 2 * |o.pos|
  {
    && (forall k :: 0 <= k < |o.slots| && o.slots[k].state != Idle && o.slots[k].userRef == u ==>
          var s, left := o.slots[k], if qty >= o.slots[k].leaves then 0 else o.slots[k].leaves - qty;
          && o'.slots == o.slots[k := if left == 0
                                 && s.state == Live then Slot(Idle, 0, 0, 0, 0, 0) else s.(leaves := left)]
          && o'.pos == o.pos[k / 2 := if k % 2 == 0 then o.pos[k / 2] + qty else o.pos[k / 2] - qty]
          && o'.unknown == o.unknown && o'.next == o.next)
    && ((forall k :: 0 <= k < |o.slots| ==> !(o.slots[k].state != Idle && o.slots[k].userRef == u)) ==>
          o' == o.(unknown := o.unknown + 1))
  }

  /** A cancel takes shares off; with none left, or when it was asked for, the slot settles. */
  ghost predicate HeardCanceled(o: Oms, u: nat, qty: nat, o': Oms) {
    && (forall k :: 0 <= k < |o.slots| && o.slots[k].state != Idle && o.slots[k].userRef == u ==>
          var s, left := o.slots[k], if qty >= o.slots[k].leaves then 0 else o.slots[k].leaves - qty;
          o' == o.(slots := o.slots[k :=
            if left == 0 || s.state == PendingCancel then Slot(Idle, 0, 0, 0, 0, 0)
            else if s.state == PendingNew then s.(leaves := left, state := Live) else s.(leaves := left)]))
    && ((forall k :: 0 <= k < |o.slots| ==> !(o.slots[k].state != Idle && o.slots[k].userRef == u)) ==>
          o' == o.(unknown := o.unknown + 1))
  }

  /** A refused replace leaves the old order resting, if it has shares left; a refused entry settles its slot. */
  ghost predicate HeardRejected(o: Oms, u: nat, o': Oms) {
    && (forall k :: 0 <= k < |o.slots| && o.slots[k].state == PendingReplace && o.slots[k].pendingRef == u ==>
          o' == o.(slots := o.slots[k := if o.slots[k].leaves > 0 then o.slots[k].(state := Live, pendingRef := 0)
                                         else Slot(Idle, 0, 0, 0, 0, 0)]))
    && (forall k :: 0 <= k < |o.slots| && o.slots[k].state != Idle && o.slots[k].userRef == u ==>
          o' == o.(slots := o.slots[k := Slot(Idle, 0, 0, 0, 0, 0)]))
    && ((forall k :: 0 <= k < |o.slots| ==> !Carries(o.slots[k], u)) ==> o' == o.(unknown := o.unknown + 1))
  }

  /** A refused cancel leaves the order resting, if it has shares left. */
  ghost predicate HeardCancelReject(o: Oms, u: nat, o': Oms) {
    && (forall k :: 0 <= k < |o.slots| && o.slots[k].state == PendingCancel && o.slots[k].userRef == u ==>
          o' == o.(slots := o.slots[k := if o.slots[k].leaves > 0 then o.slots[k].(state := Live)
                                         else Slot(Idle, 0, 0, 0, 0, 0)]))
    && ((forall k :: 0 <= k < |o.slots| ==> !(o.slots[k].state == PendingCancel && o.slots[k].userRef == u)) ==>
          o' == o.(unknown := o.unknown + 1))
  }

  /** Slot by slot, what a message says of the slot that carries its ref; one about no slot is counted as unknown. */
  ghost predicate Heard(o: Oms, a: Ledger.Ack, o': Oms)
    requires |o.slots| == 2 * |o.pos|
  {
    match a
    case Accepted(u, _, _, qty, dead) => HeardAccepted(o, u, qty, dead, o')
    case Replaced(_, u, _, price, qty, dead) => HeardReplaced(o, u, price, qty, dead, o')
    case Executed(u, qty, _) => HeardExecuted(o, u, qty, o')
    case Canceled(u, qty, _) => HeardCanceled(o, u, qty, o')
    case Rejected(u, _) => HeardRejected(o, u, o')
    case CancelReject(u) => HeardCancelReject(o, u, o')
  }

  /** The scans find the one slot that uses a ref. */
  lemma ScanFinds(slots: seq<Slot>, u: nat)
    requires RefsOk(slots)
    ensures forall k :: 0 <= k < |slots| && Holds(slots[k], u) ==>
              FindRef(slots, u, 0) == Some(k) && FindPending(slots, u, 0) == None
    ensures forall k :: 0 <= k < |slots| && Awaits(slots[k], u) ==>
              FindPending(slots, u, 0) == Some(k) && FindRef(slots, u, 0) == None
  {
    forall k | 0 <= k < |slots| && Holds(slots[k], u)
      ensures FindRef(slots, u, 0) == Some(k) && FindPending(slots, u, 0) == None
    {
      assert Carries(slots[k], u) && Carries(slots[FindRef(slots, u, 0).value], u);
      assert forall j :: 0 <= j < |slots| && Awaits(slots[j], u) ==> Carries(slots[j], u);
    }
    forall k | 0 <= k < |slots| && Awaits(slots[k], u)
      ensures FindPending(slots, u, 0) == Some(k) && FindRef(slots, u, 0) == None
    {
      assert Carries(slots[k], u) && Carries(slots[FindPending(slots, u, 0).value], u);
      assert forall j :: 0 <= j < |slots| && Holds(slots[j], u) ==> Carries(slots[j], u);
    }
  }

  lemma ReceiveHeard(o: Oms, a: Ledger.Ack)
    requires |o.slots| == 2 * |o.pos| && RefsOk(o.slots)
    ensures Heard(o, a, Receive(o, a))
  {
    ScanFinds(o.slots, a.user);
  }

  class OrderManager {
    var slots: seq<Slot>
    var nextUserRef: nat
    var positions: seq<int>
    var refs: seq<RefSide>
    var unknown: nat

    predicate Shaped()
      reads this
    {
      |slots| == 2 * |positions| && |refs| == REF_RING && 0 < nextUserRef < TWO32
    }

    ghost predicate Valid()
      reads this
    {
      Shaped() && RefsOk(slots)
    }

    function View(): Oms
      reads this
    {
      Oms(slots, nextUserRef, positions, unknown)
    }

    constructor (symbols: nat, firstUserRef: nat)
      requires firstUserRef < TWO32
      ensures Valid() && View() == Oms(seq(2 * symbols, _ => SETTLED), if firstUserRef == 0 then 1 else firstUserRef,
                                       seq(symbols, _ => 0), 0)
    {
      slots := seq(2 * symbols, _ => SETTLED);
      positions := seq(symbols, _ => 0);
      refs := seq(REF_RING, _ => RefSide(0, 0));
      nextUserRef := if firstUserRef == 0 then 1 else firstUserRef;
      unknown := 0;
    }

    /** Takes the next user ref, skipping 0 when the counter wraps, and remembers whose it is. */
    method AllocRef(k: nat) returns (ref: nat)
      requires 0 < nextUserRef < TWO32 && |refs| == REF_RING
      modifies this`nextUserRef, this`refs
      ensures ref == old(nextUserRef) && 0 < nextUserRef < TWO32 && |refs| == REF_RING
      ensures nextUserRef == NextRef(ref)
      ensures refs[ref % REF_RING] == RefSide(ref, k)
    {
      ref := nextUserRef;
      nextUserRef := (nextUserRef + 1) % TWO32;
      if nextUserRef == 0 {
        nextUserRef := 1;
      }
      refs := refs[ref % REF_RING := RefSide(ref, k)];
    }

    /** Ring hit if the hinted slot really holds the ref, otherwise a scan: always the scan's answer. */
    method SlotByRef(ref: nat) returns (k: Option<nat>)
      requires Valid()
      ensures k == FindRef(slots, ref, 0)
    {
      var hint := refs[ref % REF_RING];
      if hint.userRef == ref && hint.slot < |slots| && Holds(slots[hint.slot], ref) {
        assert Carries(slots[hint.slot], ref);
        assert Carries(slots[FindRef(slots, ref, 0).value], ref);
        return Some(hint.slot);
      }
      var i := 0;
      while i < |slots|
        invariant 0 <= i <= |slots|
        invariant FindRef(slots, ref, 0) == FindRef(slots, ref, i)
      {
        if Holds(slots[i], ref) {
          return Some(i);
        }
        i := i + 1;
      }
      return None;
    }

    method SlotByPending(ref: nat) returns (k: Option<nat>)
      ensures k == FindPending(slots, ref, 0)
    {
      var i := 0;
      while i < |slots|
        invariant 0 <= i <= |slots|
        invariant FindPending(slots, ref, 0) == FindPending(slots, ref, i)
      {
        if Awaits(slots[i], ref) {
          return Some(i);
        }
        i := i + 1;
      }
      return None;
    }

    /** One side of a symbol against its target; refs stay apart exactly when the one taken, if any, was free. */
    method ReconcileSlot(k: nat, want: bool, price: int, qty: nat) returns (out: Option<Request>)
      requires Shaped() && k < |slots|
      modifies this
      ensures Shaped() && (View(), out) == Reconcile(old(View()), k, want, price, qty)
      ensures var s, ref := old(slots)[k], old(nextUserRef);
              && (s.state == Idle && want && qty > 0 ==>
                    out == Some(Enter(ref, k, price, qty))
                        && slots == old(slots)[k := Slot(PendingNew, ref, 0, price, qty, qty)])
              && (s.state == Live && !(want && qty > 0) ==>
                    out == Some(Cancel(s.userRef)) && slots == old(slots)[k := s.(state := PendingCancel)])
              && (s.state == Live && want && qty > 0 && (price != s.price || qty != s.leaves) ==>
                    && out == Some(Replace(s.userRef, ref, price, qty))
                    && slots == old(slots)[k := s.(state := PendingReplace, pendingRef := ref)])
              && (out == None <==>
                    || s.state == PendingNew || s.state == PendingReplace || s.state == PendingCancel
                    || (s.state == Idle && !(want && qty > 0))
                    || (s.state == Live && want && qty > 0 && price == s.price && qty == s.leaves))
              && (out == None ==> slots == old(slots))
              && nextUserRef == (if out == None
                                 || out.value.Cancel? then ref else if ref == 0xFFFF_FFFF then 1 else ref + 1)
              && positions == old(positions) && unknown == old(unknown)
      ensures old(Valid()) ==> (Valid() <==> nextUserRef == old(nextUserRef) || old(Free(slots, nextUserRef)))
    {
      ghost var valid := Valid();
      var s := slots[k];
      var wanted := want && qty != 0;
      match s.state {
        case Idle =>
          if !wanted {
            return None;
          }
          var ref := AllocRef(k);
          if valid {
            RefsTaken(slots, k, Slot(PendingNew, ref, 0, price, qty, qty), ref);
          }
          slots := slots[k := Slot(PendingNew, ref, 0, price, qty, qty)];
          return Some(Enter(ref, k, price, qty));
        case Live =>
          if !wanted {
            if valid {
              RefsUpdate(slots, k, s.(state := PendingCancel));
            }
            slots := slots[k := s.(state := PendingCancel)];
            return Some(Cancel(s.userRef));
          }
          if price == s.price && qty == s.leaves {
            return None;
          }
          var ref := AllocRef(k);
          if valid {
            RefsTaken(slots, k, s.(state := PendingReplace, pendingRef := ref), ref);
          }
          slots := slots[k := s.(state := PendingReplace, pendingRef := ref)];
          return Some(Replace(s.userRef, ref, price, qty));
        case PendingNew => return None;
        case PendingReplace => return None;
        case PendingCancel => return None;
      }
    }

    method ReconcileOne(sym: nat, t: Targets, side: Side) returns (out: seq<Request>)
      requires Shaped() && 2 * sym + 1 < |slots|
      modifies this
      ensures Shaped() && View() == ReconcileSide(old(View()), sym, t, side).0
      ensures out == Emitted(ReconcileSide(old(View()), sym, t, side).1)
      ensures old(Valid()) && old(Free(slots, nextUserRef)) ==> Valid()
    {
      var r := ReconcileSlot(SlotOf(sym, side), Wanted(t, side), PriceOf(t, side), QtyOf(t, side));
      out := Emitted(r);
    }

    /** Both sides of a symbol, the ask first when the new bid would reach the resting ask. */
    method ReconcileSymbol(sym: nat, t: Targets) returns (out: seq<Request>)
      requires Shaped() && 2 * sym + 1 < |slots|
      modifies this
      ensures Shaped()
      ensures var first := FirstSide(old(slots)[2 * sym + 1], t);
              var (o1, r1) := ReconcileSide(old(View()), sym, t, first);
              var (o2, r2) := ReconcileSide(o1, sym, t, Opposite(first));
              && View() == o2 && out == Emitted(r1) + Emitted(r2)
              && (old(Valid()) && old(Free(slots, nextUserRef)) && Free(o1.slots, o1.next) ==> Valid())
      ensures AskedBoth(old(slots)[2 * sym], old(slots)[2 * sym + 1], sym, old(nextUserRef), t, out)
    {
      SymbolAsks(View(), sym, t);
      var first := FirstSide(slots[2 * sym + 1], t);
      var a := ReconcileOne(sym, t, first);
      var b := ReconcileOne(sym, t, Opposite(first));
      out := a + b;
    }

    /** Writes slot k back; it may only have dropped refs. */
    method Store(k: nat, s: Slot)
      requires Valid() && k < |slots| && (forall ref: nat :: Carries(s, ref) ==> Carries(slots[k], ref))
               && s.state != PendingReplace
      modifies this`slots
      ensures Valid() && slots == old(slots)[k := s]
    {
      RefsUpdate(slots, k, s);
      slots := slots[k := s];
    }

    method UnknownAck()
      requires Valid()
      modifies this`unknown
      ensures Valid() && View() == Unknown(old(View()))
    {
      unknown := unknown + 1;
    }

    method HandleAccepted(ref: nat, qty: nat, dead: bool)
      requires Valid()
      modifies this
      ensures Valid() && View() == OnAccepted(old(View()), ref, qty, dead)
    {
      var k := SlotByRef(ref);
      if k.None? || slots[k.value].state != PendingNew {
        UnknownAck();
        return;
      }
      if dead {
        Store(k.value, SETTLED);
      } else {
        Store(k.value, slots[k.value].(qty := qty, leaves := qty, state := Live));
      }
    }

    method HandleReplaced(ref: nat, price: int, qty: nat, dead: bool)
      requires Valid()
      modifies this
      ensures Valid() && View() == OnReplaced(old(View()), ref, price, qty, dead)
    {
      var k := SlotByPending(ref);
      if k.None? {
        UnknownAck();
        return;
      }
      Store(k.value, if dead then SETTLED else Slot(Live, ref, 0, price, qty, qty));
    }

    method HandleExecuted(ref: nat, qty: nat)
      requires Valid()
      modifies this
      ensures Valid() && View() == OnExecuted(old(View()), ref, qty)
    {
      var k := SlotByRef(ref);
      if k.None? {
        UnknownAck();
        return;
      }
      var s := slots[k.value];
      var sym := k.value / 2;
      if SideOf(k.value) == Buy {
        positions := positions[sym := positions[sym] + qty];
      } else {
        positions := positions[sym := positions[sym] - qty];
      }
      var left := Less(s.leaves, qty);
      if left == 0 && s.state == Live {
        Store(k.value, SETTLED);
      } else {
        RefsUpdate(slots, k.value, s.(leaves := left));
        slots := slots[k.value := s.(leaves := left)];
      }
    }

    method HandleCanceled(ref: nat, qty: nat)
      requires Valid()
      modifies this
      ensures Valid() && View() == OnCanceled(old(View()), ref, qty)
    {
      var k := SlotByRef(ref);
      if k.None? {
        UnknownAck();
        return;
      }
      var s := slots[k.value];
      var left := Less(s.leaves, qty);
      if left == 0 || s.state == PendingCancel {
        Store(k.value, SETTLED);
        return;
      }
      var s' := s.(leaves := left, state := if s.state == PendingNew then Live else s.state);
      RefsUpdate(slots, k.value, s');
      slots := slots[k.value := s'];
    }

    method HandleRejected(ref: nat)
      requires Valid()
      modifies this
      ensures Valid() && View() == OnRejected(old(View()), ref)
    {
      var p := SlotByPending(ref);
      if p.Some? {
        Store(p.value, Resume(slots[p.value]));
        return;
      }
      var k := SlotByRef(ref);
      if k.None? {
        UnknownAck();
        return;
      }
      Store(k.value, SETTLED);
    }

    method HandleCancelReject(ref: nat)
      requires Valid()
      modifies this
      ensures Valid() && View() == OnCancelReject(old(View()), ref)
    {
      var k := SlotByRef(ref);
      if k.None? || slots[k.value].state != PendingCancel {
        UnknownAck();
        return;
      }
      if slots[k.value].leaves > 0 {
        Store(k.value, slots[k.value].(state := Live));
      } else {
        Store(k.value, SETTLED);
      }
    }

    /** Every acknowledgement moves the state exactly as the specification says. */
    method OnAck(a: Ledger.Ack)
      requires Valid()
      modifies this
      ensures Valid() && View() == Receive(old(View()), a) && Heard(old(View()), a, View())
    {
      ReceiveHeard(View(), a);
      match a {
        case Accepted(u, _, _, qty, dead) => HandleAccepted(u, qty, dead);
        case Replaced(_, u, _, price, qty, dead) => HandleReplaced(u, price, qty, dead);
        case Executed(u, qty, _) => HandleExecuted(u, qty);
        case Canceled(u, qty, _) => HandleCanceled(u, qty);
        case Rejected(u, _) => HandleRejected(u);
        case CancelReject(u) => HandleCancelReject(u);
      }
    }
  }
}
