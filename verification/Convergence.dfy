/**
 * Asking works: a slot given a target and left to it ends up showing the target on the venue, or nothing
 * at all if nothing is wanted.
 */
module Convergence {
  import opened Types
  import opened OmsSpec
  import opened Protocol
  import opened ProtocolProof
  import Ledger

  // ---- on the way to a target

  /** The slot shows the target: a live order at its price with its shares open, or nothing. */
  predicate Showing(s: Slot, t: Target) {
    if Desired(t) then s.state == Live && s.price == t.price && s.leaves == t.qty else s.state == Idle
  }

  /** Whatever is under way for an entry under ref u is for the target. */
  ghost predicate Entering(s: Sys, u: nat, t: Target) {
    && (forall i :: 0 <= i < |s.toVenue| && s.toVenue[i].Enter? && s.toVenue[i].user == u ==>
          s.toVenue[i].price == t.price && s.toVenue[i].qty == t.qty)
    && (forall i :: 0 <= i < |s.toOms| && s.toOms[i].Accepted? && s.toOms[i].user == u ==> s.toOms[i].qty == t.qty)
  }

  /** Whatever is under way for a replacement under ref u is for the target. */
  ghost predicate Replacing(s: Sys, u: nat, t: Target) {
    && (forall i :: 0 <= i < |s.toVenue| && s.toVenue[i].Replace? && s.toVenue[i].user == u ==>
          s.toVenue[i].price == t.price && s.toVenue[i].qty == t.qty)
    && (forall i :: 0 <= i < |s.toOms| && s.toOms[i].Replaced? && s.toOms[i].user == u ==>
          s.toOms[i].price == t.price && s.toOms[i].qty == t.qty)
  }

  /** The slot shows the target or waits for the answer that will make it. */
  ghost predicate Heading(s: Sys, k: nat, t: Target)
    requires k < |s.oms.slots|
  {
    var x := s.oms.slots[k];
    match x.state
    case Idle => Showing(x, t)
    case Live => Showing(x, t)
    case PendingNew => Desired(t) && x.price == t.price && Entering(s, x.userRef, t)
    case PendingReplace => Desired(t) && Replacing(s, x.pendingRef, t)
    case PendingCancel => !Desired(t)
  }

  /** The step keeps the slot's target and brings it neither a fill nor a refusal. */
  ghost predicate Smooth(s: Sys, step: Step, k: nat, t: Target) {
    match step
    case Quote(j, want, price, qty) => j == k ==> Target(want, price, qty) == t
    case Deliver =>
      s.toOms != [] && s.toOms[0].user in s.owner && s.owner[s.toOms[0].user] == k ==>
        !s.toOms[0].Executed? && !s.toOms[0].Rejected? && !s.toOms[0].CancelReject?
    case Serve(_) => true
    case Tape(_) => true
  }

  /** A slot with nothing pending that is given a target sets out for it. */
  lemma SetsOut(s: Sys, s': Sys, k: nat, t: Target)
    requires Inv(s) && Next(s, Quote(k, t.want, t.price, t.qty), s') && s.oms.slots[k].state in {Idle, Live}
    ensures Heading(s', k, t)
  {
    ReconcileAsks(s.oms, k, t);
    if Free(s.oms.slots, s.oms.next) {
      FreeUnmentioned(s, s.oms.next);
    }
  }

  lemma HeadingQuote(s: Sys, s': Sys, j: nat, t': Target, k: nat, t: Target)
    requires Inv(s) && Next(s, Quote(j, t'.want, t'.price, t'.qty), s') && k < |s.oms.slots| && Heading(s, k, t)
    requires j == k ==> t' == t
    ensures Heading(s', k, t)
  {
    ReconcileAsks(s.oms, j, t');
  }

  /** A ref names at most one slot, the one it was allocated for. */
  lemma FoundOwner(s: Sys, u: nat)
    requires Inv(s)
    ensures var r := FindRef(s.oms.slots, u, 0); r.Some? ==> u in s.owner && s.owner[u] == r.value
    ensures var r := FindPending(s.oms.slots, u, 0); r.Some? ==> u in s.owner && s.owner[u] == r.value
  {
    forall i | 0 <= i < |s.oms.slots| ensures SlotOk(i, s.oms.slots[i], s.seen, s.owner) {
    }
  }

  lemma HeadingDeliver(s: Sys, s': Sys, k: nat, t: Target)
    requires Inv(s) && Next(s, Deliver, s') && k < |s.oms.slots| && Heading(s, k, t) && Smooth(s, Deliver, k, t)
    ensures |s'.oms.slots| == |s.oms.slots| && Heading(s', k, t)
  {
    var a := s.toOms[0];
    assert AckOk(a, s.oms.slots, s.owner);
    FoundOwner(s, a.user);
    if s.owner[a.user] != k {
      assert s'.oms.slots[k] == s.oms.slots[k];
    }
  }

  lemma HeadingServe(s: Sys, s': Sys, acks: seq<Ack>, k: nat, t: Target)
    requires Inv(s) && Next(s, Serve(acks), s') && k < |s.oms.slots| && Heading(s, k, t)
    ensures Heading(s', k, t)
  {
    forall i | |s.toOms| < i < |s'.toOms| ensures !s'.toOms[i].Accepted? && !s'.toOms[i].Replaced? {
      assert s'.toOms[i] == acks[1..][i - |s.toOms| - 1];
    }
  }

  lemma HeadingStep(s: Sys, step: Step, s': Sys, k: nat, t: Target)
    requires Inv(s) && Next(s, step, s') && k < |s.oms.slots| && Heading(s, k, t) && Smooth(s, step, k, t)
    ensures |s'.oms.slots| == |s.oms.slots| && Heading(s', k, t)
  {
    match step
    case Quote(j, want, price, qty) =>
      ReconcileAsks(s.oms, j, Target(want, price, qty));
      HeadingQuote(s, s', j, Target(want, price, qty), k, t);
    case Deliver => HeadingDeliver(s, s', k, t);
    case Serve(acks) => HeadingServe(s, s', acks, k, t);
    case Tape(acks) =>
      forall i | |s.toOms| <= i < |s'.toOms| ensures s'.toOms[i].Executed? {
        assert s'.toOms[i] == acks[i - |s.toOms|];
      }
  }

  lemma HeadingAt(states: seq<Sys>, steps: seq<Step>, syms: nat, first: nat, i: nat, k: nat, t: Target)
    requires Run(states, steps, syms, first) && i + 1 < |states| && k < |states[i].oms.slots|
    requires Heading(states[i], k, t) && Smooth(states[i], steps[i], k, t)
    ensures |states[i + 1].oms.slots| == |states[i].oms.slots| && Heading(states[i + 1], k, t)
  {
    RunInv(states, steps, syms, first, i);
    assert Next(states[i], steps[i], states[i + 1]);
    HeadingStep(states[i], steps[i], states[i + 1], k, t);
  }

  lemma {:induction false} StaysHeading(states: seq<Sys>, steps: seq<Step>, syms: nat, first: nat, i: nat, j: nat,
                                        k: nat,
                                        t: Target)
    requires Run(states, steps, syms, first) && i <= j < |states| && k < |states[i].oms.slots|
             && Heading(states[i], k, t)
    requires forall m :: i <= m < j ==> Smooth(states[m], steps[m], k, t)
    ensures |states[j].oms.slots| == |states[i].oms.slots| && Heading(states[j], k, t)
    decreases j
  {
    if i < j {
      StaysHeading(states, steps, syms, first, i, j - 1, k, t);
      HeadingAt(states, steps, syms, first, j - 1, k, t);
    }
  }

  /**
   * In any run: from the moment a slot with nothing pending is given a target, if it keeps the target and
   * hears of no fill and no refusal, then whenever both channels are empty it shows the target and the
   * venue holds exactly that order for it, or, with nothing wanted, the venue holds nothing for it.
   */
  lemma Converges(states: seq<Sys>, steps: seq<Step>, syms: nat, first: nat, i: nat, j: nat, k: nat, t: Target)
    requires Run(states, steps, syms, first) && i < j < |states| && k < |states[i].oms.slots|
    requires steps[i] == Quote(k, t.want, t.price, t.qty) && states[i].oms.slots[k].state in {Idle, Live}
    requires forall m :: i < m < j ==> Smooth(states[m], steps[m], k, t)
    requires states[j].toVenue == [] && states[j].toOms == []
    ensures var s := states[j];
            && k < |s.oms.slots| && Showing(s.oms.slots[k], t)
            && (Desired(t) ==>
                  s.oms.slots[k].userRef in s.ledger
                  && s.ledger[s.oms.slots[k].userRef] == Ledger.Open(if k % 2 == 0 then Buy else Sell, t.price, t.qty))
            && (!Desired(t) ==> forall u :: u in s.ledger && u in s.owner ==> s.owner[u] != k)
  {
    RunInv(states, steps, syms, first, i);
    assert Next(states[i], steps[i], states[i + 1]);
    ReconcileAsks(states[i].oms, k, t);
    SetsOut(states[i], states[i + 1], k, t);
    StaysHeading(states, steps, syms, first, i + 1, j, k, t);
    QuiescentAgreement(states, steps, syms, first, j);
  }
}
