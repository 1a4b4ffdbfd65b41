/**
 * The order manager as a function of its messages: one quote slot per symbol and side, driven by
 * the strategy's targets on one side and the venue's acknowledgements on the other.
 */
module OmsSpec {
  import opened Types
  import Ledger

  datatype QuoteState = Idle | PendingNew | Live | PendingReplace | PendingCancel

  datatype Slot = Slot(state: QuoteState, userRef: nat, pendingRef: nat, price: int, qty: nat, leaves: nat)

  const SETTLED := Slot(Idle, 0, 0, 0, 0, 0)

  /** Slot 2 * sym is the symbol's bid, slot 2 * sym + 1 its ask. */
  function SideOf(k: nat): Side {
    if k % 2 == 0 then Buy else Sell
  }

  function SlotOf(sym: nat, side: Side): (k: nat)
    ensures SideOf(k) == side && k / 2 == sym
  {
    if side.Buy? then 2 * sym else 2 * sym + 1
  }

  datatype Request =
    | Enter(user: nat, slot: nat, price: int, qty: nat)
    | Replace(orig: nat, user: nat, price: int, qty: nat)
    | Cancel(user: nat)

  datatype Oms = Oms(slots: seq<Slot>, next: nat, pos: seq<int>, unknown: nat)

  predicate Holds(s: Slot, ref: nat) {
    s.state != Idle && s.userRef == ref
  }

  predicate Awaits(s: Slot, ref: nat) {
    s.state == PendingReplace && s.pendingRef == ref
  }

  /** The slot uses the ref, for its order or for a pending replacement. */
  predicate Carries(s: Slot, ref: nat) {
    Holds(s, ref) || Awaits(s, ref)
  }

  /** No slot uses the ref. */
  ghost predicate Free(slots: seq<Slot>, ref: nat) {
    forall i :: 0 <= i < |slots| ==> !Carries(slots[i], ref)
  }

  /** The first slot from i on that holds the user ref: the plain scan the hint ring speeds up. */
  function FindRef(slots: seq<Slot>, ref: nat, i: nat): (r: Option<nat>)
    requires i <= |slots|
    ensures r.Some? ==> i <= r.value < |slots| && Holds(slots[r.value], ref) && forall j :: i <= j < r.value ==>
              !Holds(slots[j], ref)
    ensures r.None? ==> forall j :: i <= j < |slots| ==> !Holds(slots[j], ref)
    decreases |slots| - i
  {
    if i == |slots| then None else if Holds(slots[i], ref) then Some(i) else FindRef(slots, ref, i + 1)
  }

  function FindPending(slots: seq<Slot>, ref: nat, i: nat): (r: Option<nat>)
    requires i <= |slots|
    ensures r.Some? ==> i <= r.value < |slots| && Awaits(slots[r.value], ref) && forall j :: i <= j < r.value ==>
              !Awaits(slots[j], ref)
    ensures r.None? ==> forall j :: i <= j < |slots| ==> !Awaits(slots[j], ref)
    decreases |slots| - i
  {
    if i == |slots| then None else if Awaits(slots[i], ref) then Some(i) else FindPending(slots, ref, i + 1)
  }

  function Put(o: Oms, k: nat, s: Slot): Oms
    requires k < |o.slots|
  {
    o.(slots := o.slots[k := s])
  }

  function Unknown(o: Oms): Oms {
    o.(unknown := o.unknown + 1)
  }

  function Less(leaves: nat, qty: nat): nat {
    if qty >= leaves then 0 else leaves - qty
  }

  /** The 32-bit counter's successor; 0 is never a user ref. */
  function NextRef(ref: nat): nat {
    if ref + 1 == TWO32 then 1 else ref + 1
  }

  /** What one slot does about its target, and the request it sends, if any. */
  function Reconcile(o: Oms, k: nat, want: bool, price: int, qty: nat): (r: (Oms, Option<Request>))
    requires k < |o.slots|
  {
    var s := o.slots[k];
    var wanted := want && qty > 0;
    match s.state
    case Idle =>
      if !wanted then (o, None)
      else (Put(o, k, Slot(PendingNew, o.next, 0, price, qty, qty)).(next := NextRef(o.next)),
            Some(Enter(o.next, k, price, qty)))
    case Live =>
      if !wanted then (Put(o, k, s.(state := PendingCancel)), Some(Cancel(s.userRef)))
      else if price == s.price && qty == s.leaves then (o, None)
      else (Put(o, k, s.(state := PendingReplace, pendingRef := o.next)).(next := NextRef(o.next)),
            Some(Replace(s.userRef, o.next, price, qty)))
    case PendingNew => (o, None)
    case PendingReplace => (o, None)
    case PendingCancel => (o, None)
  }

  datatype Target = Target(want: bool, price: int, qty: nat)

  predicate Desired(t: Target) {
    t.want && t.qty > 0
  }

  /**
   * What slot k asks for, given its target and the next free ref: an entry when it is idle and something is
   * wanted, a cancel when it rests and nothing is, a replace when it rests differently; nothing while an
   * answer is due or when it shows the target already.
   */
  ghost predicate Asked(s: Slot, k: nat, ref: nat, t: Target, r: Option<Request>) {
    match s.state
    case Idle => r == if Desired(t) then Some(Enter(ref, k, t.price, t.qty)) else None
    case Live =>
      r == if !Desired(t) then Some(Cancel(s.userRef))
           else if t.price == s.price && t.qty == s.leaves then None
           else Some(Replace(s.userRef, ref, t.price, t.qty))
    case PendingNew => r == None
    case PendingReplace => r == None
    case PendingCancel => r == None
  }

  /** The slot's state after asking. */
  ghost predicate Pends(s: Slot, ref: nat, t: Target, r: Option<Request>, s': Slot) {
    if r == None then s' == s
    else match s.state
    case Idle => s' == Slot(PendingNew, ref, 0, t.price, t.qty, t.qty)
    case _ => s' == if Desired(t) then s.(state := PendingReplace, pendingRef := ref) else s.(state := PendingCancel)
  }

  lemma ReconcileAsks(o: Oms, k: nat, t: Target)
    requires k < |o.slots|
    ensures var (o', r) := Reconcile(o, k, t.want, t.price, t.qty);
            && Asked(o.slots[k], k, o.next, t, r) && |o'.slots| == |o.slots| && o'.pos == o.pos
               && o'.unknown == o.unknown
            && Pends(o.slots[k], o.next, t, r, o'.slots[k]) && o'.slots == o.slots[k := o'.slots[k]]
            && o'.next == if r == None || r.value.Cancel? then o.next else NextRef(o.next)
  {
  }

  /** Back to Live while shares are left, settled otherwise: how a refusal ends a pending request. */
  function Resume(s: Slot): Slot {
    if s.leaves > 0 then s.(state := Live, pendingRef := 0) else SETTLED
  }

  function Moved(pos: seq<int>, k: nat, qty: nat): seq<int>
    requires k / 2 < |pos|
  {
    pos[k / 2 := if SideOf(k) == Buy then pos[k / 2] + qty else pos[k / 2] - qty]
  }

  function OnAccepted(o: Oms, ref: nat, qty: nat, dead: bool): Oms {
    var k := FindRef(o.slots, ref, 0);
    if k.None? || o.slots[k.value].state != PendingNew then Unknown(o)
    else if dead then Put(o, k.value, SETTLED)
    else Put(o, k.value, o.slots[k.value].(qty := qty, leaves := qty, state := Live))
  }

  function OnReplaced(o: Oms, ref: nat, price: int, qty: nat, dead: bool): Oms {
    var k := FindPending(o.slots, ref, 0);
    if k.None? then Unknown(o)
    else if dead then Put(o, k.value, SETTLED)
    else Put(o, k.value, Slot(Live, ref, 0, price, qty, qty))
  }

  function OnExecuted(o: Oms, ref: nat, qty: nat): Oms
    requires |o.slots| == 2 * |o.pos|
  {
    var k := FindRef(o.slots, ref, 0);
    if k.None? then Unknown(o)
    else
      var s := o.slots[k.value];
      var left := Less(s.leaves, qty);
      Put(o, k.value, if left == 0 && s.state == Live then SETTLED
          else s.(leaves := left)).(pos := Moved(o.pos, k.value, qty))
  }

  function OnCanceled(o: Oms, ref: nat, qty: nat): Oms {
    var k := FindRef(o.slots, ref, 0);
    if k.None? then Unknown(o)
    else
      var s := o.slots[k.value];
      var left := Less(s.leaves, qty);
      if left == 0 || s.state == PendingCancel then Put(o, k.value, SETTLED)
      else Put(o, k.value, s.(leaves := left, state := if s.state == PendingNew then Live else s.state))
  }

  function OnRejected(o: Oms, ref: nat): Oms {
    var p := FindPending(o.slots, ref, 0);
    if p.Some? then Put(o, p.value, Resume(o.slots[p.value]))
    else
      var k := FindRef(o.slots, ref, 0);
      if k.None? then Unknown(o) else Put(o, k.value, SETTLED)
  }

  function OnCancelReject(o: Oms, ref: nat): Oms {
    var k := FindRef(o.slots, ref, 0);
    if k.None? || o.slots[k.value].state != PendingCancel then Unknown(o)
    else if o.slots[k.value].leaves > 0 then Put(o, k.value, o.slots[k.value].(state := Live))
    else Put(o, k.value, SETTLED)
  }

  function Receive(o: Oms, a: Ledger.Ack): Oms
    requires |o.slots| == 2 * |o.pos|
  {
    match a
    case Accepted(u, _, _, qty, dead) => OnAccepted(o, u, qty, dead)
    case Replaced(_, u, _, price, qty, dead) => OnReplaced(o, u, price, qty, dead)
    case Executed(u, qty, _) => OnExecuted(o, u, qty)
    case Canceled(u, qty, _) => OnCanceled(o, u, qty)
    case Rejected(u, _) => OnRejected(o, u)
    case CancelReject(u) => OnCancelReject(o, u)
  }
}
