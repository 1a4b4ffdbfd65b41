/** Every step of the joined system keeps the protocol invariant. */
module ProtocolProof {
  import opened Types
  import opened OmsSpec
  import opened Protocol
  import Ledger

  // ---- looking slots up

  /** The slot that holds a user ref is the one the scan finds. */
  lemma FindOwn(o: Oms, seen: Ledger.Book, owner: map<nat, nat>, k: nat, ref: nat)
    requires OmsOk(o, seen, owner) && k < |o.slots| && Holds(o.slots[k], ref)
    ensures FindRef(o.slots, ref, 0) == Some(k)
  {
    var r := FindRef(o.slots, ref, 0);
    assert SlotOk(k, o.slots[k], seen, owner);
    if r.Some? {
      assert SlotOk(r.value, o.slots[r.value], seen, owner);
    }
  }

  lemma FindOwnPending(o: Oms, seen: Ledger.Book, owner: map<nat, nat>, k: nat, ref: nat)
    requires OmsOk(o, seen, owner) && k < |o.slots| && Awaits(o.slots[k], ref)
    ensures FindPending(o.slots, ref, 0) == Some(k)
  {
    var r := FindPending(o.slots, ref, 0);
    assert SlotOk(k, o.slots[k], seen, owner);
    if r.Some? {
      assert SlotOk(r.value, o.slots[r.value], seen, owner);
    }
  }

  lemma NotPending(o: Oms, seen: Ledger.Book, owner: map<nat, nat>, ref: nat)
    requires OmsOk(o, seen, owner) && ref in owner && owner[ref] < |o.slots| && !Awaits(o.slots[owner[ref]], ref)
    ensures FindPending(o.slots, ref, 0) == None
  {
    forall j | 0 <= j < |o.slots| ensures !Awaits(o.slots[j], ref) {
      assert SlotOk(j, o.slots[j], seen, owner);
    }
  }

  // ---- changing one slot

  /** Outside slot k nothing is known differently. */
  ghost predicate Aside(seen: Ledger.Book, seen': Ledger.Book, owner: map<nat, nat>, k: nat) {
    && (forall u :: u in seen' ==> u in owner)
    && forall u :: u in owner && owner[u] != k ==> (u in seen <==> u in seen') && (u in seen ==> seen'[u] == seen[u])
  }

  lemma SlotUpdate(o: Oms, o': Oms, seen: Ledger.Book, seen': Ledger.Book, owner: map<nat, nat>, k: nat)
    requires OmsOk(o, seen, owner) && k < |o.slots| == |o'.slots| && |o'.pos| == |o.pos|
    requires o'.slots == o.slots[k := o'.slots[k]] && o'.unknown == 0 && o'.next == o.next
    requires SlotOk(k, o'.slots[k], seen', owner) && Aside(seen, seen', owner, k)
    requires forall u :: u in seen' && u in owner && owner[u] == k ==> OpenOk(u, seen', o'.slots, owner)
    ensures OmsOk(o', seen', owner)
  {
    forall j | 0 <= j < |o'.slots| ensures SlotOk(j, o'.slots[j], seen', owner) {
      assert SlotOk(j, o.slots[j], seen, owner);
    }
    forall u | u in seen' ensures OpenOk(u, seen', o'.slots, owner) {
      if owner[u] != k {
        assert OpenOk(u, seen, o.slots, owner);
      }
    }
  }

  lemma {:induction false} AckKeyIn(s: seq<Ack>, i: nat)
    requires i < |s| && AckKey(s[i]).Some?
    ensures AckKey(s[i]).value in AckKeys(s)
  {
    if i > 0 {
      AckKeyIn(s[1..], i - 1);
    }
  }

  /** Slots may differ at k only in ways no message in flight can see. */
  ghost predicate Quiet(s: Slot, s': Slot) {
    && SlotKey(s) == SlotKey(s')
    && (SlotKey(s).Some? ==>
          s'.state == s.state && s'.userRef == s.userRef && s'.pendingRef == s.pendingRef && s'.price == s.price)
  }

  lemma FlightQuiet(r: Request, slots: seq<Slot>, slots': seq<Slot>, owner: map<nat, nat>)
    requires |slots| == |slots'| && forall j :: 0 <= j < |slots| ==> Quiet(slots[j], slots'[j])
    ensures ReqOk(r, slots, owner) ==> ReqOk(r, slots', owner)
  {
  }

  lemma AckQuiet(a: Ack, slots: seq<Slot>, slots': seq<Slot>, owner: map<nat, nat>)
    requires |slots| == |slots'| && forall j :: 0 <= j < |slots| ==> Quiet(slots[j], slots'[j])
    ensures AckOk(a, slots, owner) ==> AckOk(a, slots', owner)
  {
  }

  /** Messages about other requests do not notice that slot k's request was answered. */
  lemma FlightOther(slots: seq<Slot>, slots': seq<Slot>, owner: map<nat, nat>, k: nat, key: Key)
    requires k < |slots| == |slots'| && slots' == slots[k := slots'[k]] && SlotKey(slots[k]) == Some(key)
    ensures forall r :: ReqOk(r, slots, owner) && ReqKey(r) != key ==> ReqOk(r, slots', owner)
    ensures forall a :: AckOk(a, slots, owner) && AckKey(a) != Some(key) ==> AckOk(a, slots', owner)
  {
    forall r | ReqOk(r, slots, owner) && ReqKey(r) != key ensures ReqOk(r, slots', owner) {
      assert owner[ReqKey(r).user] != k;
    }
    forall a | AckOk(a, slots, owner) && AckKey(a) != Some(key) ensures AckOk(a, slots', owner) {
      if !a.Executed? {
        assert owner[a.user] != k;
      }
    }
  }

  // ---- delivering a message

  /** s' is s after the first message was delivered and slot k changed. */
  ghost predicate Delivered(s: Sys, s': Sys, k: nat) {
    && s.toOms != [] && k < |s.oms.slots| == |s'.oms.slots|
    && s'.oms.slots == s.oms.slots[k := s'.oms.slots[k]]
    && s' == s.(oms := s'.oms, toOms := s.toOms[1..], seen := Ledger.Apply(s.seen, s.toOms[0]))
  }

  /** An answer ends the request its slot was waiting on; nobody else's request is affected. */
  lemma Answered(s: Sys, s': Sys, k: nat)
    requires OmsOk(s.oms, s.seen, s.owner) && KeysOk(Outstanding(s), s.oms.slots) && FlightOk(s) && Delivered(s, s', k)
    requires AckKey(s.toOms[0]).Some? && SlotKey(s.oms.slots[k]) == AckKey(s.toOms[0])
             && SlotKey(s'.oms.slots[k]) == None
    ensures KeysOk(Outstanding(s'), s'.oms.slots) && FlightOk(s')
  {
    var key := AckKey(s.toOms[0]).value;
    var ks, ks' := Outstanding(s), Outstanding(s');
    assert AckKeys(s.toOms) == [key] + AckKeys(s'.toOms);
    assert ks == [key] + ks';
    forall j | 0 <= j < |s.oms.slots| && SlotKey(s.oms.slots[j]) == Some(key) ensures j == k {
      KeyOwner(s.oms, s.seen, s.owner, j);
      KeyOwner(s.oms, s.seen, s.owner, k);
    }
    AnsweredKeys(ks, ks', key, s.oms.slots, s'.oms.slots, k);
    AnsweredFlight(s, s', k, key);
  }

  /** The key a slot waits on names the slot. */
  lemma KeyOwner(o: Oms, seen: Ledger.Book, owner: map<nat, nat>, k: nat)
    requires OmsOk(o, seen, owner) && k < |o.slots| && SlotKey(o.slots[k]).Some?
    ensures SlotKey(o.slots[k]).value.user in owner && owner[SlotKey(o.slots[k]).value.user] == k
  {
    assert SlotOk(k, o.slots[k], seen, owner);
  }

  lemma AnsweredFlight(s: Sys, s': Sys, k: nat, key: Key)
    requires FlightOk(s) && Delivered(s, s', k) && SlotKey(s.oms.slots[k]) == Some(key)
    requires Outstanding(s) == [key] + Outstanding(s') && Distinct(Outstanding(s))
    ensures FlightOk(s')
  {
    var ks, ks' := Outstanding(s), Outstanding(s');
    forall i | 0 <= i < |ks'| ensures ks'[i] != key {
      assert ks'[i] == ks[i + 1] && ks[0] == key;
    }
    FlightOther(s.oms.slots, s'.oms.slots, s.owner, k, key);
    forall i | 0 <= i < |s'.toVenue| ensures ReqOk(s'.toVenue[i], s'.oms.slots, s'.owner) {
      assert ks'[|AckKeys(s'.toOms)| + i] == ReqKey(s'.toVenue[i]);
    }
    forall i | 0 <= i < |s'.toOms| ensures AckOk(s'.toOms[i], s'.oms.slots, s'.owner) {
      assert s'.toOms[i] == s.toOms[i + 1];
      if AckKey(s'.toOms[i]).Some? {
        AckKeyIn(s'.toOms, i);
        assert AckKey(s'.toOms[i]).value in ks';
      }
    }
  }

  lemma AnsweredKeys(ks: seq<Key>, ks': seq<Key>, key: Key, slots: seq<Slot>, slots': seq<Slot>, k: nat)
    requires KeysOk(ks, slots) && ks == [key] + ks' && k < |slots| == |slots'| && slots' == slots[k := slots'[k]]
    requires SlotKey(slots[k]) == Some(key) && SlotKey(slots'[k]) == None
    requires forall j :: 0 <= j < |slots| && j != k ==> SlotKey(slots[j]) != Some(key)
    ensures KeysOk(ks', slots')
  {
    assert forall i :: 0 <= i < |ks'| ==> ks'[i] == ks[i + 1];
    forall j | 0 <= j < |slots'| && SlotKey(slots'[j]).Some? ensures SlotKey(slots'[j]).value in ks' {
      assert SlotKey(slots[j]).value in ks;
    }
  }

  /** The ledger side of delivering a message that is not a fill. */
  lemma DeliveredLedger(s: Sys, s': Sys, k: nat)
    requires LedgerOk(s) && Delivered(s, s', k) && s'.oms.pos == s.oms.pos && !s.toOms[0].Executed?
    ensures LedgerOk(s')
  {
    forall sym | 0 <= sym < |s.traded| ensures s'.oms.pos[sym] + Net(s'.toOms, s'.owner, sym) == s'.traded[sym] {
      assert s.oms.pos[sym] + Net(s.toOms, s.owner, sym) == s.traded[sym];
    }
  }

  lemma DeliverAccepted(s: Sys, s': Sys)
    requires Inv(s) && Next(s, Deliver, s') && s.toOms[0].Accepted?
    ensures Inv(s')
  {
    var a := s.toOms[0];
    assert AckOk(a, s.oms.slots, s.owner) && Ledger.Consistent(s.seen, a);
    var k := s.owner[a.user];
    FindOwn(s.oms, s.seen, s.owner, k, a.user);
    SlotUpdate(s.oms, s'.oms, s.seen, s'.seen, s.owner, k);
    Answered(s, s', k);
    DeliveredLedger(s, s', k);
  }

  lemma DeliverReplaced(s: Sys, s': Sys)
    requires Inv(s) && Next(s, Deliver, s') && s.toOms[0].Replaced?
    ensures Inv(s')
  {
    var a := s.toOms[0];
    assert AckOk(a, s.oms.slots, s.owner) && Ledger.Consistent(s.seen, a);
    var k := s.owner[a.user];
    assert SlotOk(k, s.oms.slots[k], s.seen, s.owner);
    assert OpenOk(a.orig, s.seen, s.oms.slots, s.owner);
    FindOwnPending(s.oms, s.seen, s.owner, k, a.user);
    SlotUpdate(s.oms, s'.oms, s.seen, s'.seen, s.owner, k);
    Answered(s, s', k);
    DeliveredLedger(s, s', k);
  }

  lemma DeliverCanceled(s: Sys, s': Sys)
    requires Inv(s) && Next(s, Deliver, s') && s.toOms[0].Canceled?
    ensures Inv(s')
  {
    var a := s.toOms[0];
    assert AckOk(a, s.oms.slots, s.owner) && Ledger.Consistent(s.seen, a);
    var k := s.owner[a.user];
    FindOwn(s.oms, s.seen, s.owner, k, a.user);
    SlotUpdate(s.oms, s'.oms, s.seen, s'.seen, s.owner, k);
    Answered(s, s', k);
    DeliveredLedger(s, s', k);
  }

  lemma DeliverRejected(s: Sys, s': Sys)
    requires Inv(s) && Next(s, Deliver, s') && s.toOms[0].Rejected?
    ensures Inv(s')
  {
    var a := s.toOms[0];
    assert AckOk(a, s.oms.slots, s.owner);
    var k := s.owner[a.user];
    assert SlotOk(k, s.oms.slots[k], s.seen, s.owner);
    if s.oms.slots[k].state == PendingReplace {
      FindOwnPending(s.oms, s.seen, s.owner, k, a.user);
    } else {
      NotPending(s.oms, s.seen, s.owner, a.user);
      FindOwn(s.oms, s.seen, s.owner, k, a.user);
    }
    RefusedSlot(s, s', k);
  }

  lemma DeliverCancelReject(s: Sys, s': Sys)
    requires Inv(s) && Next(s, Deliver, s') && s.toOms[0].CancelReject?
    ensures Inv(s')
  {
    var a := s.toOms[0];
    assert AckOk(a, s.oms.slots, s.owner);
    var k := s.owner[a.user];
    assert SlotOk(k, s.oms.slots[k], s.seen, s.owner);
    FindOwn(s.oms, s.seen, s.owner, k, a.user);
    RefusedSlot(s, s', k);
  }

  /** A refusal leaves the ledger alone; the slot goes back to Live or settles. */
  lemma RefusedSlot(s: Sys, s': Sys, k: nat)
    requires Inv(s) && Delivered(s, s', k) && (s.toOms[0].Rejected? || s.toOms[0].CancelReject?)
    requires s'.oms == s.oms.(slots := s'.oms.slots) && SlotKey(s.oms.slots[k]) == AckKey(s.toOms[0])
    requires var o := s.oms.slots[k];
             s'.oms.slots[k] == if o.state == PendingNew || o.leaves == 0 then SETTLED
                                else o.(state := Live, pendingRef := s'.oms.slots[k].pendingRef)
    ensures Inv(s')
  {
    assert SlotOk(k, s.oms.slots[k], s.seen, s.owner);
    forall u | u in s.seen && u in s.owner && s.owner[u] == k ensures OpenOk(u, s'.seen, s'.oms.slots, s.owner) {
      assert OpenOk(u, s.seen, s.oms.slots, s.owner);
    }
    SlotUpdate(s.oms, s'.oms, s.seen, s'.seen, s.owner, k);
    Answered(s, s', k);
    DeliveredLedger(s, s', k);
  }

  /** Between two slots no message in flight can tell apart, everything in flight stays as it was. */
  lemma QuietFlight(s: Sys, s': Sys, k: nat)
    requires FlightOk(s) && KeysOk(Outstanding(s), s.oms.slots) && Delivered(s, s', k)
    requires s.toOms[0].Executed? && Quiet(s.oms.slots[k], s'.oms.slots[k])
    ensures FlightOk(s') && KeysOk(Outstanding(s'), s'.oms.slots)
  {
    assert AckKeys(s.toOms) == AckKeys(s'.toOms);
    assert Outstanding(s) == Outstanding(s');
    forall i | 0 <= i < |s'.toVenue| ensures ReqOk(s'.toVenue[i], s'.oms.slots, s'.owner) {
      FlightQuiet(s.toVenue[i], s.oms.slots, s'.oms.slots, s.owner);
    }
    forall i | 0 <= i < |s'.toOms| ensures AckOk(s'.toOms[i], s'.oms.slots, s'.owner) {
      assert s'.toOms[i] == s.toOms[i + 1];
      AckQuiet(s.toOms[i + 1], s.oms.slots, s'.oms.slots, s.owner);
    }
    forall j | 0 <= j < |s'.oms.slots| && SlotKey(s'.oms.slots[j]).Some?
      ensures SlotKey(s'.oms.slots[j]).value in Outstanding(s') {
      assert SlotKey(s.oms.slots[j]).Some?;
    }
  }

  lemma DeliverExecuted(s: Sys, s': Sys)
    requires Inv(s) && Next(s, Deliver, s') && s.toOms[0].Executed?
    ensures Inv(s')
  {
    ExecutedSlot(s, s');
    QuietFlight(s, s', s.owner[s.toOms[0].user]);
    forall sym | 0 <= sym < |s.traded| ensures s'.oms.pos[sym] + Net(s'.toOms, s'.owner, sym) == s'.traded[sym] {
      assert s.oms.pos[sym] + Net(s.toOms, s.owner, sym) == s.traded[sym];
    }
  }

  /** A fill finds the slot its order was allocated for and leaves it in step with the ledger. */
  lemma ExecutedSlot(s: Sys, s': Sys)
    requires Inv(s) && Next(s, Deliver, s') && s.toOms[0].Executed?
    ensures var a := s.toOms[0];
            && a.user in s.owner && s.owner[a.user] < |s.oms.slots|
            && var k := s.owner[a.user];
               && FindRef(s.oms.slots, a.user, 0) == Some(k) && OmsOk(s'.oms, s'.seen, s'.owner)
               && Delivered(s, s', k) && Quiet(s.oms.slots[k], s'.oms.slots[k])
  {
    var a := s.toOms[0];
    assert Ledger.Consistent(s.seen, a);
    assert OpenOk(a.user, s.seen, s.oms.slots, s.owner);
    var k := s.owner[a.user];
    assert SlotOk(k, s.oms.slots[k], s.seen, s.owner);
    FindOwn(s.oms, s.seen, s.owner, k, a.user);
    forall u | u in s.seen && u in s.owner && s.owner[u] == k ensures u == a.user {
      assert OpenOk(u, s.seen, s.oms.slots, s.owner);
    }
    SlotUpdate(s.oms, s'.oms, s.seen, s'.seen, s.owner, k);
  }

  // ---- the venue's steps

  lemma {:induction false} AckKeysConcat(s: seq<Ack>, t: seq<Ack>)
    ensures AckKeys(s + t) == AckKeys(s) + AckKeys(t)
  {
    if s == [] {
      assert s + t == t;
    } else {
      assert (s + t)[1..] == s[1..] + t && (s + t)[0] == s[0];
      AckKeysConcat(s[1..], t);
      var head: seq<Key> := if AckKey(s[0]).Some? then [AckKey(s[0]).value] else [];
      Regroup(head, AckKeys(s[1..]), AckKeys(t));
    }
  }

  lemma Regroup(a: seq<Key>, b: seq<Key>, c: seq<Key>)
    ensures (a + b) + c == a + (b + c)
  {
  }

  lemma {:induction false} AckKeysExecuted(s: seq<Ack>)
    requires AllExecuted(s)
    ensures AckKeys(s) == []
  {
    if s != [] {
      AckKeysExecuted(s[1..]);
    }
  }

  lemma {:induction false} NetConcat(s: seq<Ack>, t: seq<Ack>, owner: map<nat, nat>, sym: nat)
    ensures Net(s + t, owner, sym) == Net(s, owner, sym) + Net(t, owner, sym)
  {
    if s == [] {
      assert s + t == t;
    } else {
      assert (s + t)[1..] == s[1..] + t;
      NetConcat(s[1..], t, owner, sym);
    }
  }

  lemma {:induction false} FullConcat(l: Ledger.Book, s: seq<Ack>, t: seq<Ack>)
    requires FullCancels(l, s) && FullCancels(Ledger.Fold(l, s), t)
    ensures FullCancels(l, s + t)
    decreases |s|
  {
    if s == [] {
      assert s + t == t;
    } else {
      assert (s + t)[1..] == s[1..] + t;
      FullConcat(Ledger.Apply(l, s[0]), s[1..], t);
    }
  }

  lemma {:induction false} FullExecuted(l: Ledger.Book, s: seq<Ack>)
    requires AllExecuted(s)
    ensures FullCancels(l, s)
    decreases |s|
  {
    if s != [] {
      FullExecuted(Ledger.Apply(l, s[0]), s[1..]);
    }
  }

  /** Fills concern orders that are open or were opened in the same batch. */
  lemma {:induction false} FillsKnown(l: Ledger.Book, s: seq<Ack>, owner: map<nat, nat>)
    requires Ledger.Sound(l, s) && (forall u :: u in l ==> u in owner)
    requires forall i :: 0 <= i < |s| && !s[i].Executed? ==> s[i].user in owner
    ensures forall i :: 0 <= i < |s| ==> s[i].user in owner
    ensures forall u :: u in Ledger.Fold(l, s) ==> u in owner
    decreases |s|
  {
    if s != [] {
      FillsKnown(Ledger.Apply(l, s[0]), s[1..], owner);
    }
  }

  /** The venue sends a batch of messages. */
  ghost predicate Sent(s: Sys, s': Sys, acks: seq<Ack>) {
    s' == s.(toVenue := s'.toVenue, toOms := s.toOms + acks, ledger := Ledger.Fold(s.ledger, acks),
             traded := Bump(s.traded, acks, s.owner))
  }

  lemma SentLedger(s: Sys, s': Sys, acks: seq<Ack>)
    requires LedgerOk(s) && Sent(s, s', acks) && Ledger.Sound(s.ledger, acks) && FullCancels(s.ledger, acks)
    ensures LedgerOk(s')
  {
    Ledger.FoldConcat(s.seen, s.toOms, acks);
    FullConcat(s.seen, s.toOms, acks);
    forall sym | 0 <= sym < |s'.traded| ensures s'.oms.pos[sym] + Net(s'.toOms, s'.owner, sym) == s'.traded[sym] {
      NetConcat(s.toOms, acks, s.owner, sym);
    }
  }

  /** Every open order at the venue was allocated by the order manager. */
  lemma LedgerOwned(s: Sys)
    requires Inv(s)
    ensures forall u :: u in s.ledger ==> u in s.owner
  {
    forall u | u in s.seen ensures u in s.owner {
      assert OpenOk(u, s.seen, s.oms.slots, s.owner);
    }
    forall i | 0 <= i < |s.toOms| ensures s.toOms[i].user in s.owner {
      assert AckOk(s.toOms[i], s.oms.slots, s.owner);
    }
    FillsKnown(s.seen, s.toOms, s.owner);
  }

  lemma TapeInv(s: Sys, s': Sys, acks: seq<Ack>)
    requires Inv(s) && Next(s, Tape(acks), s')
    ensures Inv(s')
  {
    FullExecuted(s.ledger, acks);
    SentLedger(s, s', acks);
    AckKeysConcat(s.toOms, acks);
    AckKeysExecuted(acks);
    assert Outstanding(s') == Outstanding(s);
    TapeFlight(s, acks);
  }

  /** Fills of open orders are about refs the order manager allocated. */
  lemma TapeFlight(s: Sys, acks: seq<Ack>)
    requires Inv(s) && AllExecuted(acks) && Ledger.Sound(s.ledger, acks)
    ensures forall i :: 0 <= i < |s.toOms + acks| ==> AckOk((s.toOms + acks)[i], s.oms.slots, s.owner)
  {
    LedgerOwned(s);
    FillsKnown(s.ledger, acks, s.owner);
    forall i | 0 <= i < |s.toOms + acks| ensures AckOk((s.toOms + acks)[i], s.oms.slots, s.owner) {
      if i < |s.toOms| {
        assert AckOk(s.toOms[i], s.oms.slots, s.owner);
      } else {
        assert (s.toOms + acks)[i] == acks[i - |s.toOms|];
      }
    }
  }

  /** The answer to a request takes its place in the order of outstanding requests. */
  lemma ReplyKeys(l: Ledger.Book, r: Request, acks: seq<Ack>)
    requires Reply(l, r, acks)
    ensures AckKeys(acks) == [ReqKey(r)] && FullCancels(l, acks)
    ensures forall i :: 1 <= i < |acks| ==> acks[i].Executed?
  {
    if !r.Cancel? && |acks| > 1 {
      AckKeysExecuted(acks[1..]);
      FullExecuted(Ledger.Apply(l, acks[0]), acks[1..]);
      assert forall i :: 1 <= i < |acks| ==> acks[i] == acks[1..][i - 1];
    } else if |acks| == 1 {
      assert acks[1..] == [];
    }
  }

  /** The first message of a reply answers the request the slot is waiting on. */
  lemma ReplyHead(l: Ledger.Book, r: Request, acks: seq<Ack>, slots: seq<Slot>, owner: map<nat, nat>)
    requires Reply(l, r, acks) && ReqOk(r, slots, owner)
    ensures AckOk(acks[0], slots, owner)
  {
  }

  lemma ServeInv(s: Sys, s': Sys, acks: seq<Ack>)
    requires Inv(s) && Next(s, Serve(acks), s')
    ensures Inv(s')
  {
    var r := s.toVenue[0];
    assert ReqOk(r, s.oms.slots, s.owner);
    ReplyKeys(s.ledger, r, acks);
    ReplyHead(s.ledger, r, acks, s.oms.slots, s.owner);
    SentLedger(s, s', acks);
    ServeKeys(s, s', acks);
    LedgerOwned(s);
    FillsKnown(s.ledger, acks, s.owner);
    ServeFlight(s, s', acks);
  }

  lemma ServeKeys(s: Sys, s': Sys, acks: seq<Ack>)
    requires s.toVenue != [] && s'.toVenue == s.toVenue[1..] && s'.toOms == s.toOms + acks
             && AckKeys(acks) == [ReqKey(s.toVenue[0])]
    ensures Outstanding(s') == Outstanding(s)
  {
    AckKeysConcat(s.toOms, acks);
    assert ReqKeys(s.toVenue) == [ReqKey(s.toVenue[0])] + ReqKeys(s'.toVenue);
  }

  lemma ServeFlight(s: Sys, s': Sys, acks: seq<Ack>)
    requires FlightOk(s) && Sent(s, s', acks) && s.toVenue != [] && s'.toVenue == s.toVenue[1..]
    requires acks != [] && AckOk(acks[0], s.oms.slots, s.owner)
    requires forall i :: 1 <= i < |acks| ==> acks[i].Executed?
    requires forall i :: 0 <= i < |acks| ==> acks[i].user in s.owner
    requires forall u :: u in s.owner ==> s.owner[u] < |s.oms.slots|
    ensures FlightOk(s')
  {
    forall i | 0 <= i < |s'.toVenue| ensures ReqOk(s'.toVenue[i], s'.oms.slots, s'.owner) {
      assert s'.toVenue[i] == s.toVenue[i + 1];
    }
    forall i | 0 <= i < |s'.toOms| ensures AckOk(s'.toOms[i], s'.oms.slots, s'.owner) {
      if i < |s.toOms| {
        assert AckOk(s.toOms[i], s.oms.slots, s.owner);
      } else {
        assert s'.toOms[i] == acks[i - |s.toOms|];
      }
    }
  }

  // ---- the order manager's step

  /** Allocating a fresh ref disturbs nothing that refers to older refs. */
  lemma {:induction false} NetGrows(s: seq<Ack>, owner: map<nat, nat>, u: nat, k: nat, sym: nat)
    requires forall i :: 0 <= i < |s| ==> s[i].user != u
    ensures Net(s, owner[u := k], sym) == Net(s, owner, sym)
  {
    if s != [] {
      NetGrows(s[1..], owner, u, k, sym);
    }
  }

  /** No message in flight carries the ref. */
  ghost predicate Unmentioned(s: Sys, ref: nat) {
    && (forall i :: 0 <= i < |s.toVenue| ==> ReqKey(s.toVenue[i]).user != ref)
    && (forall i :: 0 <= i < |s.toOms| ==> s.toOms[i].user != ref)
  }

  /** Every message in flight to the order manager is about a ref its slot uses. */
  lemma AckCarried(s: Sys, i: nat)
    requires Inv(s) && i < |s.toOms|
    ensures var u := s.toOms[i].user; u in s.owner && s.owner[u] < |s.oms.slots| && Carries(s.oms.slots[s.owner[u]], u)
  {
    var u := s.toOms[i].user;
    assert AckOk(s.toOms[i], s.oms.slots, s.owner);
    if s.toOms[i].Executed? {
      OpenWhenFilled(s.seen, s.toOms, i);
      OpenedBefore(s.seen, s.toOms[..i], u);
      if u in s.seen {
        assert OpenOk(u, s.seen, s.oms.slots, s.owner);
      } else {
        assert s.toOms == s.toOms[..i] + s.toOms[i..];
        AckKeysConcat(s.toOms[..i], s.toOms[i..]);
        assert Req(u) in Outstanding(s);
        KeyHeld(s, Req(u));
      }
    }
  }

  lemma OpenWhenFilled(l: Ledger.Book, acks: seq<Ack>, i: nat)
    requires Ledger.Sound(l, acks) && i < |acks| && acks[i].Executed?
    ensures acks[i].user in Ledger.Fold(l, acks[..i])
  {
    assert acks == acks[..i] + acks[i..];
    Ledger.FoldConcat(l, acks[..i], acks[i..]);
  }

  /** A ref no slot uses is in no message in flight, though it may have been used long before. */
  lemma FreeUnmentioned(s: Sys, ref: nat)
    requires Inv(s) && Free(s.oms.slots, ref)
    ensures Unmentioned(s, ref)
  {
    forall i | 0 <= i < |s.toVenue| ensures ReqKey(s.toVenue[i]).user != ref {
      assert ReqOk(s.toVenue[i], s.oms.slots, s.owner);
    }
    forall i | 0 <= i < |s.toOms| ensures s.toOms[i].user != ref {
      AckCarried(s, i);
    }
  }

  /** Slot k, waiting on nothing, sends a request: messages in flight do not refer to it. */
  lemma FlightSend(s: Sys, s': Sys, k: nat, ref: nat)
    requires FlightOk(s) && k < |s.oms.slots| == |s'.oms.slots| && SlotKey(s.oms.slots[k]) == None
    requires s'.oms.slots == s.oms.slots[k := s'.oms.slots[k]] && s'.toOms == s.toOms
    requires s'.owner == s.owner || (s'.owner == s.owner[ref := k] && Unmentioned(s, ref))
    requires s.toVenue <= s'.toVenue && |s'.toVenue| == |s.toVenue| + 1
    requires ReqOk(s'.toVenue[|s.toVenue|], s'.oms.slots, s'.owner)
    ensures FlightOk(s')
  {
    forall i | 0 <= i < |s'.toVenue| ensures ReqOk(s'.toVenue[i], s'.oms.slots, s'.owner) {
      if i < |s.toVenue| {
        assert ReqOk(s.toVenue[i], s.oms.slots, s.owner) && s'.toVenue[i] == s.toVenue[i];
      }
    }
    forall i | 0 <= i < |s'.toOms| ensures AckOk(s'.toOms[i], s'.oms.slots, s'.owner) {
      assert AckOk(s.toOms[i], s.oms.slots, s.owner);
    }
  }

  lemma KeysSend(s: Sys, s': Sys, k: nat)
    requires KeysOk(Outstanding(s), s.oms.slots) && k < |s.oms.slots| == |s'.oms.slots|
    requires s'.oms.slots == s.oms.slots[k := s'.oms.slots[k]] && s'.toOms == s.toOms
    requires s.toVenue <= s'.toVenue && |s'.toVenue| == |s.toVenue| + 1
    requires var key := ReqKey(s'.toVenue[|s.toVenue|]); SlotKey(s'.oms.slots[k]) == Some(key) && key !in Outstanding(s)
    ensures KeysOk(Outstanding(s'), s'.oms.slots)
  {
    var key := ReqKey(s'.toVenue[|s.toVenue|]);
    var ks, ks' := Outstanding(s), Outstanding(s');
    assert ReqKeys(s'.toVenue) == ReqKeys(s.toVenue) + [key];
    assert ks' == ks + [key];
    forall i, j | 0 <= i < j < |ks'| ensures ks'[i] != ks'[j] {
      assert ks'[i] == ks[i] && ks[i] in ks;
    }
    forall j | 0 <= j < |s'.oms.slots| && SlotKey(s'.oms.slots[j]).Some? ensures SlotKey(s'.oms.slots[j]).value in ks' {
      if j != k {
        assert SlotKey(s.oms.slots[j]).value in ks;
      }
    }
  }

  /** Every outstanding key belongs to a slot that waits on it. */
  lemma KeyHeld(s: Sys, key: Key)
    requires FlightOk(s) && key in Outstanding(s)
    ensures key.user in s.owner && s.owner[key.user] < |s.oms.slots|
            && SlotKey(s.oms.slots[s.owner[key.user]]) == Some(key)
  {
    if key in AckKeys(s.toOms) {
      var i := AckOfKey(s.toOms, key);
      assert AckOk(s.toOms[i], s.oms.slots, s.owner);
    } else {
      var j :| 0 <= j < |ReqKeys(s.toVenue)| && ReqKeys(s.toVenue)[j] == key;
      assert ReqOk(s.toVenue[j], s.oms.slots, s.owner);
    }
  }

  lemma {:induction false} AckOfKey(s: seq<Ack>, key: Key) returns (i: nat)
    requires key in AckKeys(s)
    ensures i < |s| && AckKey(s[i]) == Some(key)
  {
    if AckKey(s[0]) == Some(key) {
      i := 0;
    } else {
      var j := AckOfKey(s[1..], key);
      i := j + 1;
    }
  }

  /** The slot table after slot k sent a request, a fresh ref having been allocated for it or not. */
  lemma OmsSend(o: Oms, o': Oms, seen: Ledger.Book, owner: map<nat, nat>, owner': map<nat, nat>, k: nat)
    requires OmsOk(o, seen, owner) && k < |o.slots| == |o'.slots| && o'.pos == o.pos && o'.unknown == 0
    requires o'.slots == o.slots[k := o'.slots[k]] && SlotOk(k, o'.slots[k], seen, owner')
    requires (owner' == owner && o'.next == o.next)
             || (owner' == owner[o.next := k] && 0 < o'.next && Free(o.slots, o.next))
    requires o.slots[k].userRef in seen ==>
               o'.slots[k].(state := Live, pendingRef := 0) == o.slots[k].(state := Live, pendingRef := 0)
    requires o.slots[k].state in {Idle, Live}
             && (o.slots[k].state == Live ==> o'.slots[k].state in {PendingReplace, PendingCancel})
    ensures OmsOk(o', seen, owner')
  {
    forall j | 0 <= j < |o'.slots| ensures SlotOk(j, o'.slots[j], seen, owner') {
      assert SlotOk(j, o.slots[j], seen, owner);
    }
    forall u | u in seen ensures OpenOk(u, seen, o'.slots, owner') {
      assert OpenOk(u, seen, o.slots, owner);
    }
  }

  lemma QuoteLedger(s: Sys, s': Sys, k: nat)
    requires LedgerOk(s) && FlightOk(s)
    requires s' == s.(oms := s'.oms, toVenue := s'.toVenue, owner := s'.owner) && s'.oms.pos == s.oms.pos
    requires s'.owner == s.owner || (Unmentioned(s, s.oms.next) && s'.owner == s.owner[s.oms.next := k])
    ensures LedgerOk(s')
  {
    forall sym | 0 <= sym < |s.traded| ensures s'.oms.pos[sym] + Net(s'.toOms, s'.owner, sym) == s'.traded[sym] {
      assert s.oms.pos[sym] + Net(s.toOms, s.owner, sym) == s.traded[sym];
      if s'.owner != s.owner {
        NetGrows(s.toOms, s.owner, s.oms.next, k, sym);
      }
    }
  }

  /** A key not waited on by slot k, or of a ref no slot uses, is not outstanding. */
  lemma KeyFresh(s: Sys, k: nat, key: Key)
    requires FlightOk(s) && k < |s.oms.slots| && SlotKey(s.oms.slots[k]) == None
    requires (key.user in s.owner ==> s.owner[key.user] == k) || Free(s.oms.slots, key.user)
    ensures key !in Outstanding(s)
  {
    if key in Outstanding(s) {
      KeyHeld(s, key);
    }
  }

  lemma QuoteTable(s: Sys, s': Sys, k: nat, want: bool, price: int, qty: nat)
    requires Inv(s) && Next(s, Quote(k, want, price, qty), s') && Reconcile(s.oms, k, want, price, qty).1.Some?
    ensures OmsOk(s'.oms, s'.seen, s'.owner)
  {
    assert SlotOk(k, s.oms.slots[k], s.seen, s.owner);
    OmsSend(s.oms, s'.oms, s.seen, s.owner, s'.owner, k);
  }

  /** The request a slot sends is the one it then waits on. */
  lemma SentReq(o: Oms, k: nat, want: bool, price: int, qty: nat, owner: map<nat, nat>)
    requires k < |o.slots| && Reconcile(o, k, want, price, qty).1.Some?
    requires o.slots[k].state != Idle ==> o.slots[k].userRef in owner && owner[o.slots[k].userRef] == k
    ensures var (o', r) := Reconcile(o, k, want, price, qty);
            && ReqOk(r.value, o'.slots, if o'.next != o.next then owner[o.next := k] else owner)
            && SlotKey(o.slots[k]) == None && SlotKey(o'.slots[k]) == Some(ReqKey(r.value))
            && o'.slots == o.slots[k := o'.slots[k]]
  {
  }

  lemma QuoteFlight(s: Sys, s': Sys, req: Request, k: nat)
    requires Inv(s) && k < |s.oms.slots| == |s'.oms.slots| && SlotKey(s.oms.slots[k]) == None
    requires s'.oms.slots == s.oms.slots[k := s'.oms.slots[k]] && s'.toOms == s.toOms && s'.toVenue == s.toVenue + [req]
    requires s'.owner == s.owner || (s'.owner == s.owner[s.oms.next := k] && Unmentioned(s, s.oms.next))
    requires ReqOk(req, s'.oms.slots, s'.owner) && SlotKey(s'.oms.slots[k]) == Some(ReqKey(req))
    requires (ReqKey(req).user in s.owner ==> s.owner[ReqKey(req).user] == k) || Free(s.oms.slots, ReqKey(req).user)
    ensures FlightOk(s') && KeysOk(Outstanding(s'), s'.oms.slots)
  {
    assert s'.toVenue[|s.toVenue|] == req;
    KeyFresh(s, k, ReqKey(req));
    FlightSend(s, s', k, s.oms.next);
    KeysSend(s, s', k);
  }

  lemma QuoteInv(s: Sys, s': Sys, k: nat, want: bool, price: int, qty: nat)
    requires Inv(s) && Next(s, Quote(k, want, price, qty), s')
    ensures Inv(s')
  {
    var (o, req) := Reconcile(s.oms, k, want, price, qty);
    if req.None? {
      assert s' == s;
    } else {
      if o.next != s.oms.next {
        FreeUnmentioned(s, s.oms.next);
      }
      assert SlotOk(k, s.oms.slots[k], s.seen, s.owner);
      SentReq(s.oms, k, want, price, qty, s.owner);
      QuoteTable(s, s', k, want, price, qty);
      QuoteFlight(s, s', req.value, k);
      QuoteLedger(s, s', k);
    }
  }

  // ---- all runs

  lemma StepInv(s: Sys, step: Step, s': Sys)
    requires Inv(s) && Next(s, step, s')
    ensures Inv(s')
  {
    match step
    case Quote(k, want, price, qty) => QuoteInv(s, s', k, want, price, qty);
    case Serve(acks) => ServeInv(s, s', acks);
    case Tape(acks) => TapeInv(s, s', acks);
    case Deliver =>
      match s.toOms[0]
      case Accepted(_, _, _, _, _) => DeliverAccepted(s, s');
      case Replaced(_, _, _, _, _, _) => DeliverReplaced(s, s');
      case Executed(_, _, _) => DeliverExecuted(s, s');
      case Canceled(_, _, _) => DeliverCanceled(s, s');
      case Rejected(_, _) => DeliverRejected(s, s');
      case CancelReject(_) => DeliverCancelReject(s, s');
  }

  /** A run: any interleaving of quoting, delivery, venue replies and tape fills. */
  ghost predicate Run(states: seq<Sys>, steps: seq<Step>, syms: nat, first: nat) {
    && |states| == |steps| + 1 && Init(states[0], syms, first)
    && forall i :: 0 <= i < |steps| ==> Next(states[i], steps[i], states[i + 1])
  }

  lemma {:induction false} RunInv(states: seq<Sys>, steps: seq<Step>, syms: nat, first: nat, i: nat)
    requires Run(states, steps, syms, first) && i < |states|
    ensures Inv(states[i])
  {
    if i == 0 {
      InitInv(states[0], syms, first);
    } else {
      RunInv(states, steps, syms, first, i - 1);
      StepInv(states[i - 1], steps[i - 1], states[i]);
    }
  }

  /** No acknowledgement is ever unknown, in any state of any run. */
  lemma EveryAckIsRecognised(states: seq<Sys>, steps: seq<Step>, syms: nat, first: nat, i: nat)
    requires Run(states, steps, syms, first) && i < |states|
    ensures states[i].oms.unknown == 0
  {
    RunInv(states, steps, syms, first, i);
  }

  /** An outstanding request was sent for slot k. */
  predicate WaitsFor(s: Sys, key: Key, k: nat) {
    key.user in s.owner && s.owner[key.user] == k
  }

  /** Each slot has at most one unanswered request, and exactly one while it is pending. */
  lemma OneRequestPerSlot(states: seq<Sys>, steps: seq<Step>, syms: nat, first: nat, i: nat, k: nat)
    requires Run(states, steps, syms, first) && i < |states| && k < |states[i].oms.slots|
    ensures var s := states[i];
            var ks := Outstanding(s);
            && (forall a, b :: 0 <= a < |ks| && 0 <= b < |ks| && WaitsFor(s, ks[a], k) && WaitsFor(s, ks[b], k) ==>
                  a == b)
            && (s.oms.slots[k].state in {PendingNew, PendingReplace, PendingCancel} <==>
                exists a :: 0 <= a < |ks| && WaitsFor(s, ks[a], k))
  {
    RunInv(states, steps, syms, first, i);
    var s := states[i];
    var ks := Outstanding(s);
    forall a | 0 <= a < |ks| ensures ks[a].user in s.owner && SlotKey(s.oms.slots[s.owner[ks[a].user]]) == Some(ks[a]) {
      assert ks[a] in ks;
      KeyHeld(s, ks[a]);
    }
    if SlotKey(s.oms.slots[k]).Some? {
      assert SlotKey(s.oms.slots[k]).value in ks;
      var a :| 0 <= a < |ks| && ks[a] == SlotKey(s.oms.slots[k]).value;
      KeyOwner(s.oms, s.seen, s.owner, k);
    }
  }

  /** The order manager never sends a request the venue's interface forbids. */
  lemma RequestsAcceptable(states: seq<Sys>, steps: seq<Step>, syms: nat, first: nat, i: nat)
    requires Run(states, steps, syms, first) && i < |states| && states[i].toVenue != []
    ensures Acceptable(states[i].ledger, states[i].toVenue[0])
  {
    RunInv(states, steps, syms, first, i);
    HeadAcceptable(states[i]);
  }

  lemma HeadAcceptable(s: Sys)
    requires Inv(s) && s.toVenue != []
    ensures Acceptable(s.ledger, s.toVenue[0]) && ReqOk(s.toVenue[0], s.oms.slots, s.owner)
  {
    var r := s.toVenue[0];
    assert ReqOk(r, s.oms.slots, s.owner);
    var key := ReqKey(r);
    assert SlotOk(s.owner[key.user], s.oms.slots[s.owner[key.user]], s.seen, s.owner);
    var ks, n := Outstanding(s), |AckKeys(s.toOms)|;
    assert ks[n] == key;
    forall j | 0 <= j < n ensures AckKeys(s.toOms)[j] != key {
      assert ks[j] == AckKeys(s.toOms)[j];
    }
    if key.user in s.ledger {
      OpenedBefore(s.seen, s.toOms, key.user);
    }
  }

  /** An order open after a batch was open before it or opened by a message of the batch. */
  lemma {:induction false} OpenedBefore(l: Ledger.Book, s: seq<Ack>, u: nat)
    requires u in Ledger.Fold(l, s)
    ensures u in l || Req(u) in AckKeys(s)
    decreases |s|
  {
    if s != [] {
      OpenedBefore(Ledger.Apply(l, s[0]), s[1..], u);
    }
  }

  /**
   * The two machines agree: a slot is Live exactly on the venue's user ref, price and remaining
   * quantity, Idle exactly when the venue holds nothing for it, and the position equals what the
   * venue executed.
   */
  ghost predicate Agree(s: Sys) {
    && (forall k :: 0 <= k < |s.oms.slots| ==>
          var q := s.oms.slots[k];
          && q.state in {Idle, Live}
          && (q.state == Live ==>
                q.userRef in s.ledger && s.ledger[q.userRef] == Ledger.Open(if k % 2 == 0 then Buy else Sell, q.price,
                        q.leaves))
          && (q.state == Idle ==> forall u :: u in s.ledger && u in s.owner ==> s.owner[u] != k))
    && (forall u :: u in s.ledger ==>
          u in s.owner && s.owner[u] < |s.oms.slots| && s.oms.slots[s.owner[u]].userRef == u)
    && s.oms.pos == s.traded
  }

  /** Whenever both channels are empty the two machines agree. */
  lemma QuiescentAgreement(states: seq<Sys>, steps: seq<Step>, syms: nat, first: nat, i: nat)
    requires Run(states, steps, syms, first) && i < |states| && states[i].toVenue == [] && states[i].toOms == []
    ensures Agree(states[i])
  {
    RunInv(states, steps, syms, first, i);
    QuietAgree(states[i]);
  }

  lemma QuietAgree(s: Sys)
    requires Inv(s) && s.toVenue == [] && s.toOms == []
    ensures Agree(s)
  {
    assert s.ledger == s.seen;
    forall u | u in s.ledger ensures OpenOk(u, s.seen, s.oms.slots, s.owner) {
    }
    forall k | 0 <= k < |s.oms.slots|
      ensures SlotOk(k, s.oms.slots[k], s.seen, s.owner) && SlotKey(s.oms.slots[k]) == None {
    }
  }
}
