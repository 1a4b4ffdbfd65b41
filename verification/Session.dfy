/** The venue model answers the order manager's requests exactly as the protocol assumes. */
module Session {
  import opened Types
  import opened VenueState
  import opened VenueModel
  import opened Reports
  import OmsSpec
  import Protocol
  import Ledger

  /** The message histories before and after a call bound a sound batch of replies. */
  lemma Batch(before: seq<Ledger.Ack>, l: Ledger.Book, after: seq<Ledger.Ack>, l': Ledger.Book)
    requires Ledger.Told(before, l) && Ledger.Told(after, l') && before <= after
    ensures var acks := after[|before|..]; Ledger.Sound(l, acks) && l' == Ledger.Fold(l, acks)
  {
    var acks := after[|before|..];
    assert after == before + acks;
    Ledger.ToldMeans(before, l);
    Ledger.ToldMeans(after, l');
    Ledger.FoldConcat(map[], before, acks);
  }

  lemma ExecsTail(before: seq<Ledger.Ack>, a: Ledger.Ack, after: seq<Ledger.Ack>)
    requires ExecsAfter(before + [a], after)
    ensures before <= after && var acks := after[|before|..];
                               |acks| > 0 && acks[0] == a && Protocol.AllExecuted(acks[1..])
  {
    var acks := after[|before|..];
    assert (before + [a])[|before|] == a;
    forall i | 0 <= i < |acks[1..]| ensures acks[1..][i].Executed? {
      assert acks[1..][i] == after[|before| + 1 + i];
    }
  }

  /** The venue's open client orders, by user ref. */
  ghost function Open(v: Venue): Ledger.Book
    reads v, v.engine
  {
    LedgerOf(v.D(), v.engine.pool)
  }

  lemma OpenTold(v: Venue)
    requires v.Valid()
    ensures Ledger.Told(v.oe, Open(v))
    ensures forall u :: u in Open(v) ==> Open(v)[u].qty > 0
    ensures forall u :: u in Open(v) <==> u in v.byUserRef
  {
    DeskMeans(v.D(), v.engine.pool);
    forall u | u in Open(v) ensures Open(v)[u].qty > 0 {
      assert Rests(v.byUserRef[u], v.live[v.byUserRef[u]], v.engine.pool);
    }
  }

  // ---- order-entry messages

  datatype Ouch =
    | Entering(order: EnterOrder)
    | Replacing(orig: nat, user: nat, price: nat, qty: nat)
    | Cancelling(user: nat, intended: nat)

  /** What the venue demands of a message: a nonzero user ref that is not in use. */
  predicate Fits(l: Ledger.Book, m: Ouch) {
    match m
    case Entering(o) => o.user > 0 && o.user !in l
    case Replacing(o, u, _, _) => u > 0 && (u !in l || u == o)
    case Cancelling(_, _) => true
  }

  /** What a venue holding open orders l may answer: an immediate order never stays, a cancel may leave some shares. */
  ghost predicate Answer(l: Ledger.Book, m: Ouch, acks: seq<Ledger.Ack>) {
    match m
    case Entering(o) =>
      && Ledger.Sound(l, acks) && |acks| > 0
      && (|| (acks[0].Rejected? && acks[0].user == o.user && |acks| == 1)
          || (&& o.side != OtherSide
              && acks[0] == Ledger.Accepted(o.user, if o.side == B then Buy else Sell, o.price, o.qty, o.ioc)
              && if o.ioc then LapsesAfter([], acks[1..], o.user) && o.user !in Ledger.Fold(l, acks)
                 else Protocol.AllExecuted(acks[1..])))
    case Replacing(o, u, price, qty) => Protocol.Reply(l, OmsSpec.Replace(o, u, price, qty), acks)
    case Cancelling(u, intended) =>
      Ledger.Sound(l, acks) && acks == [CancelAck(l, u, intended)]
  }

  function CancelAck(l: Ledger.Book, u: nat, intended: nat): Ledger.Ack {
    if u in l && intended < l[u].qty then Ledger.Canceled(u, l[u].qty - intended, Ledger.UserRequested)
        else Ledger.CancelReject(u)
  }

  /** The first answer to an entry at venue v: the first thing wrong with it, or the accept. */
  ghost predicate Verdict(v: Venue, o: EnterOrder, a: Ledger.Ack) {
    if o.side == OtherSide then a == Ledger.Rejected(o.user, Ledger.InvalidSide)
    else if o.qty == 0 then a == Ledger.Rejected(o.user, Ledger.InvalidQuantity)
    else if o.symbol != v.symbol then a == Ledger.Rejected(o.user, Ledger.InvalidSymbol)
    else if !v.OnGrid(o.price) then a == Ledger.Rejected(o.user, Ledger.InvalidPrice)
    else a == Ledger.Accepted(o.user, if o.side == B then Buy else Sell, o.price, o.qty, o.ioc)
  }

  /** The first answer to a message at venue v, where l holds the order it names if anybody does. */
  ghost predicate Decided(v: Venue, l: Ledger.Book, m: Ouch, a: Ledger.Ack) {
    match m
    case Entering(o) => Verdict(v, o, a)
    case Replacing(o, u, price, qty) =>
      if o !in l then a == Ledger.Rejected(u, Ledger.ReplaceNotAllowed)
      else if qty == 0 then a == Ledger.Rejected(u, Ledger.InvalidQuantity)
      else if !v.OnGrid(price) then a == Ledger.Rejected(u, Ledger.InvalidPrice)
      else a == Ledger.Replaced(o, u, l[o].side, price, qty, false)
    case Cancelling(u, intended) => a == CancelAck(l, u, intended)
  }

  /** The message an order manager's request is sent as; an entry also names its symbol. */
  function Message(r: OmsSpec.Request, sym: Symbol): Ouch
    requires r.Enter? || r.Replace? ==> r.price >= 0
  {
    match r
    case Enter(u, k, price, qty) => Entering(EnterOrder(u, if OmsSpec.SideOf(k) == Buy then B else S, qty, sym, price,
                                                        false))
    case Replace(o, u, price, qty) => Replacing(o, u, price, qty)
    case Cancel(u) => Cancelling(u, 0)
  }

  /** To the order manager's own requests these are the answers the protocol assumes. */
  lemma AnswerReply(l: Ledger.Book, r: OmsSpec.Request, sym: Symbol, acks: seq<Ledger.Ack>)
    requires (r.Enter? || r.Replace? ==> r.price >= 0) && Answer(l, Message(r, sym), acks)
    requires forall u :: u in l ==> l[u].qty > 0
    ensures Protocol.Reply(l, r, acks)
  {
  }

  lemma EnterAnswer(before: seq<Ledger.Ack>, l: Ledger.Book, after: seq<Ledger.Ack>, l': Ledger.Book, o: EnterOrder)
    requires Ledger.Told(before, l) && Ledger.Told(after, l') && Answered(o, before, after)
    requires o.ioc && after[|before|].Accepted? ==> o.user !in l'
    ensures var acks := after[|before|..];
            Answer(l, Entering(o), acks) && l' == Ledger.Fold(l, acks) && after == before + acks
  {
    Batch(before, l, after, l');
    if after[|before|].Accepted? {
      if o.ioc {
        LapsesTail(before, after[|before|], after, o.user);
      } else {
        ExecsTail(before, after[|before|], after);
      }
    }
  }

  lemma LapsesTail(before: seq<Ledger.Ack>, a: Ledger.Ack, after: seq<Ledger.Ack>, user: nat)
    requires LapsesAfter(before + [a], after, user)
    ensures before <= after && var acks := after[|before|..];
                               |acks| > 0 && acks[0] == a && LapsesAfter([], acks[1..], user)
  {
    var acks := after[|before|..];
    assert (before + [a])[|before|] == a;
    forall i | 0 <= i < |acks[1..]|
      ensures acks[1..][i] == after[|before| + 1 + i]
    {
    }
  }

  lemma ReplaceAnswer(before: seq<Ledger.Ack>, l: Ledger.Book, after: seq<Ledger.Ack>, l': Ledger.Book, o: nat, u: nat,
                      price: nat, qty: nat)
    requires Ledger.Told(before, l) && Ledger.Told(after, l') && before < after
    requires var a := after[|before|];
             || (a.Rejected? && a.user == u && after == before + [a])
             || (o in l && a == Ledger.Replaced(o, u, l[o].side, price, qty, false) && ExecsAfter(before + [a], after))
    ensures var acks := after[|before|..];
            Answer(l, Replacing(o, u, price, qty), acks) && l' == Ledger.Fold(l, acks) && after == before + acks
  {
    Batch(before, l, after, l');
    if after[|before|].Replaced? {
      ExecsTail(before, after[|before|], after);
    }
  }

  /** What a tape event sends to the clients is a tape step of the protocol. */
  lemma TapeBatch(before: seq<Ledger.Ack>, l: Ledger.Book, after: seq<Ledger.Ack>, l': Ledger.Book)
    requires Ledger.Told(before, l) && Ledger.Told(after, l') && ExecsAfter(before, after)
    ensures var acks := after[|before|..];
            Protocol.AllExecuted(acks) && Ledger.Sound(l, acks) && l' == Ledger.Fold(l, acks) && after == before + acks
  {
    Batch(before, l, after, l');
  }

  lemma CancelAnswer(before: seq<Ledger.Ack>, l: Ledger.Book, after: seq<Ledger.Ack>, l': Ledger.Book, u: nat,
                     intended: nat)
    requires Ledger.Told(before, l) && Ledger.Told(after, l')
    requires after == before + [CancelAck(l, u, intended)]
    ensures var acks := after[|before|..];
            Answer(l, Cancelling(u, intended), acks) && l' == Ledger.Fold(l, acks) && after == before + acks
  {
    Batch(before, l, after, l');
  }

  /** If no order was added, a user ref that was not open is not open now. */
  lemma StillClosed(v: Venue, live0: map<nat, LiveOrder>, open0: set<nat>, u: nat)
    requires v.Valid() && u !in open0 && Shrunk(live0, v.live)
    requires forall ref :: ref in live0 && live0[ref].client ==> live0[ref].userRef in open0
    ensures u !in Open(v)
  {
    OpenTold(v);
    if u in v.byUserRef {
      v.OpenHeld(u);
    }
  }

  lemma ClientsOpen(v: Venue)
    requires v.Valid()
    ensures forall ref :: ref in v.live && v.live[ref].client ==> v.live[ref].userRef in v.byUserRef
  {
    DeskMeans(v.D(), v.engine.pool);
  }

  method ServeEnter(v: Venue, o: EnterOrder) returns (acks: seq<Ledger.Ack>)
    requires v.Valid() && |v.engine.pool| < NIL && Fits(Open(v), Entering(o))
    modifies v, v.engine
    ensures v.Valid() && v.oe == old(v.oe) + acks
    ensures Answer(old(Open(v)), Entering(o), acks) && Open(v) == Ledger.Fold(old(Open(v)), acks)
    ensures |acks| > 0 && Verdict(v, o, acks[0])
  {
    OpenTold(v);
    ClientsOpen(v);
    ghost var before, l, live0, open0 := v.oe, Open(v), v.live, v.byUserRef.Keys;
    var n := |v.oe|;
    v.OnEnterOrder(o);
    OpenTold(v);
    if o.ioc && v.oe[n].Accepted? {
      StillClosed(v, live0, open0, o.user);
    }
    EnterAnswer(before, l, v.oe, Open(v), o);
    acks := v.oe[n..];
  }

  method ServeReplace(v: Venue, o: nat, u: nat, price: nat, qty: nat) returns (acks: seq<Ledger.Ack>)
    requires v.Valid() && |v.engine.pool| < NIL && Fits(Open(v), Replacing(o, u, price, qty))
    modifies v, v.engine
    ensures v.Valid() && v.oe == old(v.oe) + acks
    ensures Answer(old(Open(v)), Replacing(o, u, price, qty), acks) && Open(v) == Ledger.Fold(old(Open(v)), acks)
    ensures |acks| > 0 && Decided(v, old(Open(v)), Replacing(o, u, price, qty), acks[0])
  {
    OpenTold(v);
    ghost var before, l := v.oe, Open(v);
    var n := |v.oe|;
    v.OnReplaceOrder(o, u, qty, price);
    OpenTold(v);
    ReplaceAnswer(before, l, v.oe, Open(v), o, u, price, qty);
    acks := v.oe[n..];
  }

  /** The cancel's answer alone. */
  method AskCancel(v: Venue, u: nat, intended: nat)
    requires v.Valid()
    modifies v, v.engine
    ensures v.Valid() && v.oe == old(v.oe) + [CancelAck(old(Open(v)), u, intended)]
  {
    v.OnCancelOrder(u, intended);
  }

  method ServeCancel(v: Venue, u: nat, intended: nat) returns (acks: seq<Ledger.Ack>)
    requires v.Valid()
    modifies v, v.engine
    ensures v.Valid() && v.oe == old(v.oe) + acks
    ensures Answer(old(Open(v)), Cancelling(u, intended), acks) && Open(v) == Ledger.Fold(old(Open(v)), acks)
  {
    OpenTold(v);
    ghost var before, l := v.oe, Open(v);
    var n := |v.oe|;
    AskCancel(v, u, intended);
    OpenTold(v);
    CancelAnswer(before, l, v.oe, Open(v), u, intended);
    acks := v.oe[n..];
  }

  /** Hands one order-entry message to the venue and collects its replies. */
  method Serve(v: Venue, m: Ouch) returns (acks: seq<Ledger.Ack>)
    requires v.Valid() && |v.engine.pool| < NIL && Fits(Open(v), m)
    modifies v, v.engine
    ensures v.Valid() && v.oe == old(v.oe) + acks
    ensures Answer(old(Open(v)), m, acks) && Open(v) == Ledger.Fold(old(Open(v)), acks)
    ensures |acks| > 0 && Decided(v, old(Open(v)), m, acks[0])
  {
    match m {
      case Entering(o) => acks := ServeEnter(v, o);
      case Replacing(o, u, price, qty) => acks := ServeReplace(v, o, u, price, qty);
      case Cancelling(u, intended) => acks := ServeCancel(v, u, intended);
    }
  }

  // ---- the tape

  datatype TapeEvent =
    | TapeAdd(ref: nat, side: Side, price: nat, qty: nat)
    | TapeExecute(ref: nat, shares: nat)
    | TapeCancel(ref: nat, shares: nat)
    | TapeDelete(ref: nat)
    | TapeReplace(orig: nat, ref: nat, shares: nat, price: nat)
    | Inject(side: Side, tick: int, qty: nat)
    | Withdraw(ref: nat)

  /** Tape references lie below the venue's own and new ones are unused; only synthetic orders are withdrawn. */
  ghost predicate TapeOk(v: Venue, e: TapeEvent)
    reads v, v.engine
  {
    match e
    case TapeAdd(ref, _, _, _) => |v.engine.pool| < NIL && 0 < ref < v.firstRef && ref !in v.live
    case TapeExecute(ref, _) => ref < v.firstRef
    case TapeCancel(ref, _) => ref < v.firstRef
    case TapeDelete(ref) => ref < v.firstRef
    case TapeReplace(orig, ref, _, _) =>
      |v.engine.pool| < NIL && orig < v.firstRef && 0 < ref < v.firstRef && (ref !in v.live || ref == orig)
    case Inject(_, _, _) => |v.engine.pool| < NIL
    case Withdraw(ref) => ref in v.live ==> !v.live[ref].client
  }

  /** Applies one event of the tape or the background flow; clients hear fills only. */
  method PlayTape(v: Venue, e: TapeEvent)
    requires v.Valid() && TapeOk(v, e)
    modifies v, v.engine
    ensures v.Valid() && ExecsAfter(old(v.oe), v.oe)
  {
    match e {
      case TapeAdd(ref, side, price, qty) =>
        ghost var rem, trail := v.MirrorAdd(ref, side, price, qty);
      case TapeExecute(ref, shares) =>
        ghost var left, trail := v.MirrorExecute(ref, shares);
      case TapeCancel(ref, shares) => v.MirrorCancel(ref, shares);
      case TapeDelete(ref) => v.MirrorDelete(ref);
      case TapeReplace(orig, ref, shares, price) =>
        ghost var rem, trail := v.MirrorReplace(orig, ref, shares, price);
      case Inject(side, tick, qty) =>
        var _ := v.InjectSynthetic(side, tick, qty);
      case Withdraw(ref) => v.CancelSynthetic(ref);
    }
  }

  /** What any such event sends to the clients is a tape step of the protocol. */
  method Tape(v: Venue, e: TapeEvent) returns (acks: seq<Ledger.Ack>)
    requires v.Valid() && TapeOk(v, e)
    modifies v, v.engine
    ensures v.Valid() && v.oe == old(v.oe) + acks
    ensures Protocol.AllExecuted(acks) && Ledger.Sound(old(Open(v)), acks) && Open(v) == Ledger.Fold(old(Open(v)), acks)
  {
    OpenTold(v);
    ghost var before, l := v.oe, Open(v);
    var n := |v.oe|;
    PlayTape(v, e);
    OpenTold(v);
    TapeBatch(before, l, v.oe, Open(v));
    acks := v.oe[n..];
  }
}
