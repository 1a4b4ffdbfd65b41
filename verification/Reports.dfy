/** What the venue tells the feed and the clients about a run of trades. */
module Reports {
  import opened Types
  import opened VenueState
  import Matcher
  import Feed
  import Ledger

  /** One execution message per trade, in trade order. */
  function Prints(ts: seq<Matcher.Trade>): seq<Feed.Itch> {
    if ts == [] then [] else Prints(ts[..|ts| - 1]) + [Print(ts[|ts| - 1])]
  }

  function Print(t: Matcher.Trade): Feed.Itch {
    Feed.OrderExecuted(t.restingId, t.qty)
  }

  /** A client aggressor hears first, then the client whose order was hit. */
  function LegAcks(live: map<nat, LiveOrder>, t: Matcher.Trade, w: nat, client: bool, user: nat): seq<Ledger.Ack> {
    (if client then [Ledger.Executed(user, t.qty, Wire(t.price, w))] else []) +
    (if t.restingId in live && live[t.restingId].client
     then [Ledger.Executed(live[t.restingId].userRef, t.qty, Wire(t.price, w))] else [])
  }

  function Acks(live: map<nat, LiveOrder>, ts: seq<Matcher.Trade>, w: nat, client: bool, user: nat): seq<Ledger.Ack> {
    if ts == [] then [] else Acks(live, ts[..|ts| - 1], w, client, user) + LegAcks(live, ts[|ts| - 1], w, client, user)
  }

  /** From (md0, oe0) the first n trades were reported, and nothing else. */
  ghost predicate Reported(live: map<nat, LiveOrder>, ts: seq<Matcher.Trade>, n: nat, w: nat, client: bool, user: nat,
                           md0: seq<Feed.Itch>, oe0: seq<Ledger.Ack>, md: seq<Feed.Itch>, oe: seq<Ledger.Ack>) {
    n <= |ts| && md == md0 + Prints(ts[..n]) && oe == oe0 + Acks(live, ts[..n], w, client, user)
  }

  lemma ReportStart(live: map<nat, LiveOrder>, ts: seq<Matcher.Trade>, w: nat, client: bool, user: nat,
                    md: seq<Feed.Itch>, oe: seq<Ledger.Ack>)
    ensures Reported(live, ts, 0, w, client, user, md, oe, md, oe)
  {
  }

  lemma ReportStep(live: map<nat, LiveOrder>, now: map<nat, LiveOrder>, ts: seq<Matcher.Trade>, n: nat, w: nat,
                   client: bool, user: nat,
                   md0: seq<Feed.Itch>, oe0: seq<Ledger.Ack>, md: seq<Feed.Itch>, oe: seq<Ledger.Ack>)
    requires Reported(live, ts, n, w, client, user, md0, oe0, md, oe) && n < |ts|
    requires ts[n].restingId in now && ts[n].restingId in live && now[ts[n].restingId] == live[ts[n].restingId]
    ensures Reported(live, ts, n + 1, w, client, user, md0, oe0, md + [Print(ts[n])],
                     oe + LegAcks(now, ts[n], w, client, user))
  {
    assert ts[..n + 1][..n] == ts[..n];
  }

  lemma ReportEnd(live: map<nat, LiveOrder>, ts: seq<Matcher.Trade>, w: nat, client: bool, user: nat,
                  md0: seq<Feed.Itch>, oe0: seq<Ledger.Ack>, md: seq<Feed.Itch>, oe: seq<Ledger.Ack>)
    requires Reported(live, ts, |ts|, w, client, user, md0, oe0, md, oe)
    ensures forall m: Matcher.Outcome :: m.trades == ts ==>
              Processed(live, m, w, client, user, [], [], md0, oe0, md, oe)
  {
    assert ts[..|ts|] == ts;
  }

  /** The trades of m were reported, then exactly these last messages. */
  ghost predicate Processed(live: map<nat, LiveOrder>, m: Matcher.Outcome, w: nat, client: bool, user: nat,
                            lastMd: seq<Feed.Itch>, lastOe: seq<Ledger.Ack>,
                            md0: seq<Feed.Itch>, oe0: seq<Ledger.Ack>, md: seq<Feed.Itch>, oe: seq<Ledger.Ack>) {
    match m
    case Outcome(_, ts, _) => md == md0 + Prints(ts) + lastMd && oe == oe0 + Acks(live, ts, w, client, user) + lastOe
  }

  lemma ProcessedThenFeed(live: map<nat, LiveOrder>, m: Matcher.Outcome, w: nat, client: bool, user: nat,
                          last: seq<Feed.Itch>,
                          md0: seq<Feed.Itch>, oe0: seq<Ledger.Ack>, md: seq<Feed.Itch>, oe: seq<Ledger.Ack>)
    requires Processed(live, m, w, client, user, [], [], md0, oe0, md, oe)
    ensures Processed(live, m, w, client, user, last, [], md0, oe0, md + last, oe)
  {
  }

  lemma ProcessedThenAck(live: map<nat, LiveOrder>, m: Matcher.Outcome, w: nat, client: bool, user: nat,
                         last: seq<Ledger.Ack>,
                         md0: seq<Feed.Itch>, oe0: seq<Ledger.Ack>, md: seq<Feed.Itch>, oe: seq<Ledger.Ack>)
    requires Processed(live, m, w, client, user, [], [], md0, oe0, md, oe)
    ensures Processed(live, m, w, client, user, [], last, md0, oe0, md, oe + last)
  {
  }

  /** The remainder of an order that stays is announced. */
  function Remainder(m: Matcher.Outcome, ref: nat, side: Side, price: int): seq<Feed.Itch> {
    if m.rem > 0 then [Feed.AddOrder(ref, side, m.rem, price)] else []
  }

  /** The remainder of an immediate order is cancelled. */
  function Expiry(m: Matcher.Outcome, user: nat): seq<Ledger.Ack> {
    if m.rem > 0 then [Ledger.Canceled(user, m.rem, Ledger.Ioc)] else []
  }

  /** b is a followed by executions and at most one cancel, the last message, for the user's immediate order. */
  ghost predicate LapsesAfter(a: seq<Ledger.Ack>, b: seq<Ledger.Ack>, user: nat) {
    && a <= b
    && forall i :: |a| <= i < |b| ==>
         b[i].Executed? || (i == |b| - 1 && b[i].Canceled? && b[i].user == user && b[i].reason == Ledger.Ioc)
  }

  lemma {:induction false} AcksExecuted(live: map<nat, LiveOrder>, ts: seq<Matcher.Trade>, w: nat, client: bool,
                                        user: nat)
    ensures forall i :: 0 <= i < |Acks(live, ts, w, client, user)| ==> Acks(live, ts, w, client, user)[i].Executed?
  {
    if ts != [] {
      var most, last := ts[..|ts| - 1], ts[|ts| - 1];
      AcksExecuted(live, most, w, client, user);
      assert Acks(live, ts, w, client, user) == Acks(live, most, w, client, user)
             + LegAcks(live, last, w, client, user);
    }
  }

  lemma ImmediateLapses(live: map<nat, LiveOrder>, m: Matcher.Outcome, w: nat, user: nat,
                        md0: seq<Feed.Itch>, oe0: seq<Ledger.Ack>, md: seq<Feed.Itch>, oe: seq<Ledger.Ack>)
    requires Processed(live, m, w, true, user, [], Expiry(m, user), md0, oe0, md, oe)
    ensures LapsesAfter(oe0, oe, user)
  {
    AcksExecuted(live, m.trades, w, true, user);
    var acks := Acks(live, m.trades, w, true, user);
    assert oe == oe0 + (acks + Expiry(m, user));
    forall i | |oe0| <= i < |oe|
      ensures oe[i].Executed? || (i == |oe| - 1 && oe[i].Canceled? && oe[i].user == user && oe[i].reason == Ledger.Ioc)
    {
      assert oe[i] == (acks + Expiry(m, user))[i - |oe0|];
      assert i - |oe0| < |acks| ==> acks[i - |oe0|].Executed?;
    }
  }
}
