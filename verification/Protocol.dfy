/**
 * The order protocol: the order manager and the venue as two machines joined by two FIFO channels,
 * with tape fills racing replaces and cancels. The venue is any machine whose replies are those the
 * venue model is proved to give.
 */
module Protocol {
  import opened Types
  import opened OmsSpec
  import Ledger

  type Ack = Ledger.Ack

  // ---- the venue's half

  ghost predicate AllExecuted(s: seq<Ack>) {
    forall i :: 0 <= i < |s| ==> s[i].Executed?
  }

  /** What a venue holding open orders l may answer to a request. */
  ghost predicate Reply(l: Ledger.Book, r: Request, acks: seq<Ack>) {
    && Ledger.Sound(l, acks) && |acks| > 0
    && match r
       case Enter(u, k, price, qty) =>
         || (acks[0].Rejected? && acks[0].user == u && |acks| == 1)
         || (acks[0] == Ledger.Accepted(u, SideOf(k), price, qty, false) && AllExecuted(acks[1..]))
       case Replace(o, u, price, qty) =>
         || (acks[0].Rejected? && acks[0].user == u && |acks| == 1)
         || (o in l && acks[0] == Ledger.Replaced(o, u, l[o].side, price, qty, false) && AllExecuted(acks[1..]))
       case Cancel(u) =>
         acks == [if u in l then Ledger.Canceled(u, l[u].qty, Ledger.UserRequested) else Ledger.CancelReject(u)]
  }

  /** What the venue demands of a request: a nonzero user ref that is not in use. */
  predicate Acceptable(l: Ledger.Book, r: Request) {
    match r
    case Enter(u, _, _, _) => u > 0 && u !in l
    case Replace(o, u, _, _) => u > 0 && (u !in l || u == o)
    case Cancel(_) => true
  }

  // ---- the joined system

  /**
   * `seen` is what the delivered messages amount to, `owner` remembers which slot each user ref was
   * allocated for, `traded` is the venue's net executed quantity per symbol.
   */
  datatype Sys = Sys(oms: Oms, toVenue: seq<Request>, toOms: seq<Ack>, ledger: Ledger.Book,
                     seen: Ledger.Book, owner: map<nat, nat>, traded: seq<int>)

  datatype Step =
    | Quote(k: nat, want: bool, price: int, qty: nat)
    | Deliver
    | Serve(acks: seq<Ack>)
    | Tape(acks: seq<Ack>)

  /** Net executed quantity of one symbol in a batch of messages. */
  function Net(s: seq<Ack>, owner: map<nat, nat>, sym: nat): int {
    if s == [] then 0
    else
      (if s[0].Executed? && s[0].user in owner && owner[s[0].user] / 2 == sym
       then (if SideOf(owner[s[0].user]) == Buy then s[0].qty else -(s[0].qty as int)) else 0)
      + Net(s[1..], owner, sym)
  }

  function Bump(traded: seq<int>, s: seq<Ack>, owner: map<nat, nat>): seq<int> {
    seq(|traded|, sym requires 0 <= sym < |traded| => traded[sym] + Net(s, owner, sym))
  }

  ghost predicate Init(s: Sys, syms: nat, first: nat) {
    && s.oms == Oms(seq(2 * syms, _ => SETTLED), if first == 0 then 1 else first, seq(syms, _ => 0), 0)
    && s == Sys(s.oms, [], [], map[], map[], map[], seq(syms, _ => 0))
  }

  /** A user ref is taken only while no slot uses it: the wrapping counter has not lapped an open order. */
  ghost predicate Next(s: Sys, step: Step, s': Sys) {
    match step
    case Quote(k, want, price, qty) =>
      && k < |s.oms.slots|
      && var (o, req) := Reconcile(s.oms, k, want, price, qty);
         && (o.next != s.oms.next ==> Free(s.oms.slots, s.oms.next))
         && s' == s.(oms := o, toVenue := if req.Some? then s.toVenue + [req.value] else s.toVenue,
                  owner := if o.next != s.oms.next then s.owner[s.oms.next := k] else s.owner)
    case Deliver =>
      && s.toOms != [] && |s.oms.slots| == 2 * |s.oms.pos|
      && s' == s.(oms := Receive(s.oms, s.toOms[0]), toOms := s.toOms[1..], seen := Ledger.Apply(s.seen, s.toOms[0]))
    case Serve(acks) =>
      && s.toVenue != [] && Reply(s.ledger, s.toVenue[0], acks)
      && s' == s.(toVenue := s.toVenue[1..], toOms := s.toOms + acks, ledger := Ledger.Fold(s.ledger, acks),
                  traded := Bump(s.traded, acks, s.owner))
    case Tape(acks) =>
      && AllExecuted(acks) && Ledger.Sound(s.ledger, acks)
      && s' == s.(toOms := s.toOms + acks, ledger := Ledger.Fold(s.ledger, acks),
                  traded := Bump(s.traded, acks, s.owner))
  }

  // ---- the invariant

  datatype Key = Req(user: nat) | Can(user: nat)

  function ReqKey(r: Request): Key {
    match r
    case Enter(u, _, _, _) => Req(u)
    case Replace(_, u, _, _) => Req(u)
    case Cancel(u) => Can(u)
  }

  /** The request a message answers, if any. */
  function AckKey(a: Ack): Option<Key> {
    match a
    case Accepted(u, _, _, _, _) => Some(Req(u))
    case Replaced(_, u, _, _, _, _) => Some(Req(u))
    case Rejected(u, _) => Some(Req(u))
    case Canceled(u, _, _) => Some(Can(u))
    case CancelReject(u) => Some(Can(u))
    case Executed(_, _, _) => None
  }

  /** The request a slot is waiting on. */
  function SlotKey(s: Slot): Option<Key> {
    match s.state
    case PendingNew => Some(Req(s.userRef))
    case PendingReplace => Some(Req(s.pendingRef))
    case PendingCancel => Some(Can(s.userRef))
    case Idle => None
    case Live => None
  }

  function AckKeys(s: seq<Ack>): seq<Key> {
    if s == [] then [] else (if AckKey(s[0]).Some? then [AckKey(s[0]).value] else []) + AckKeys(s[1..])
  }

  function ReqKeys(s: seq<Request>): seq<Key> {
    seq(|s|, i requires 0 <= i < |s| => ReqKey(s[i]))
  }

  /** All requests not yet answered to the order manager, oldest first. */
  function Outstanding(s: Sys): seq<Key> {
    AckKeys(s.toOms) + ReqKeys(s.toVenue)
  }

  ghost predicate Distinct(ks: seq<Key>) {
    forall i, j :: 0 <= i < j < |ks| ==> ks[i] != ks[j]
  }

  /** Slot k and the delivered part of the ledger tell the same story. */
  ghost predicate SlotOk(k: nat, s: Slot, seen: Ledger.Book, owner: map<nat, nat>) {
    && (s.state != Idle ==> s.userRef in owner && owner[s.userRef] == k)
    && match s.state
       case Idle => s == SETTLED
       case PendingNew => s.userRef !in seen && s.qty > 0
       case Live => s.userRef in seen && s.leaves > 0
       case PendingReplace =>
         (s.userRef in seen <==> s.leaves > 0) && s.pendingRef in owner && owner[s.pendingRef] == k
             && s.pendingRef != s.userRef && s.pendingRef !in seen
       case PendingCancel => s.userRef in seen <==> s.leaves > 0
  }

  /** An open order is held by the slot it was allocated for, with the same price and quantity. */
  ghost predicate OpenOk(u: nat, seen: Ledger.Book, slots: seq<Slot>, owner: map<nat, nat>)
    requires u in seen
  {
    && u in owner && owner[u] < |slots|
    && var s := slots[owner[u]];
       && s.userRef == u && s.state in {Live, PendingReplace, PendingCancel}
       && s.price == seen[u].price && s.leaves == seen[u].qty && seen[u].side == SideOf(owner[u])
  }

  /** A request in flight is the one its slot is waiting on. */
  ghost predicate ReqOk(r: Request, slots: seq<Slot>, owner: map<nat, nat>) {
    var u := ReqKey(r).user;
    && u in owner && owner[u] < |slots|
    && var s := slots[owner[u]];
       && SlotKey(s) == Some(ReqKey(r))
       && match r
          case Enter(_, k, price, qty) => s.state == PendingNew && k == owner[u] && price == s.price && qty > 0
          case Replace(o, _, _, _) => s.state == PendingReplace && s.userRef == o
          case Cancel(_) => true
  }

  /** An answer in flight answers the request its slot is waiting on. */
  ghost predicate AckOk(a: Ack, slots: seq<Slot>, owner: map<nat, nat>) {
    && a.user in owner && owner[a.user] < |slots|
    && var s := slots[owner[a.user]];
       match a
       case Executed(_, _, _) => true
       case Accepted(u, side, price, _, dead) =>
         s.state == PendingNew && s.userRef == u && price == s.price && side == SideOf(owner[u]) && !dead
       case Replaced(o, u, _, _, _, dead) => s.state == PendingReplace && s.userRef == o && s.pendingRef == u && !dead
       case Rejected(u, _) => SlotKey(s) == Some(Req(u))
       case Canceled(u, _, _) => SlotKey(s) == Some(Can(u))
       case CancelReject(u) => SlotKey(s) == Some(Can(u))
  }

  /** Every cancel in flight is for the whole order. */
  ghost predicate FullCancels(l: Ledger.Book, s: seq<Ack>)
    decreases |s|
  {
    s == [] || ((s[0].Canceled? ==> s[0].user in l && s[0].qty == l[s[0].user].qty)
                && FullCancels(Ledger.Apply(l, s[0]), s[1..]))
  }

  ghost predicate OmsOk(o: Oms, seen: Ledger.Book, owner: map<nat, nat>) {
    && |o.slots| == 2 * |o.pos|
    && o.unknown == 0
    && (forall u :: u in owner ==> 0 < u && owner[u] < |o.slots|)
    && (forall k :: 0 <= k < |o.slots| ==> SlotOk(k, o.slots[k], seen, owner))
    && (forall u :: u in seen ==> OpenOk(u, seen, o.slots, owner))
    && 0 < o.next
  }

  ghost predicate KeysOk(ks: seq<Key>, slots: seq<Slot>) {
    && Distinct(ks)
    && forall k :: 0 <= k < |slots| && SlotKey(slots[k]).Some? ==> SlotKey(slots[k]).value in ks
  }

  ghost predicate FlightOk(s: Sys) {
    && (forall i :: 0 <= i < |s.toVenue| ==> ReqOk(s.toVenue[i], s.oms.slots, s.owner))
    && (forall i :: 0 <= i < |s.toOms| ==> AckOk(s.toOms[i], s.oms.slots, s.owner))
  }

  ghost predicate LedgerOk(s: Sys) {
    && Ledger.Sound(s.seen, s.toOms) && FullCancels(s.seen, s.toOms)
    && s.ledger == Ledger.Fold(s.seen, s.toOms)
    && |s.traded| == |s.oms.pos|
    && forall sym :: 0 <= sym < |s.traded| ==> s.oms.pos[sym] + Net(s.toOms, s.owner, sym) == s.traded[sym]
  }

  ghost predicate Inv(s: Sys) {
    match s
    case Sys(oms, _, _, _, seen, owner, _) =>
      && OmsOk(oms, seen, owner)
      && KeysOk(Outstanding(s), oms.slots)
      && FlightOk(s)
      && LedgerOk(s)
  }

  lemma InitInv(s: Sys, syms: nat, first: nat)
    requires Init(s, syms, first)
    ensures Inv(s)
  {
  }
}
