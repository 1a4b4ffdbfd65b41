/**
 * The reference matcher: one side of the book as a plain sequence in price-time order, hit from
 * the front. The engine's level arrays, linked lists and rescans are proved to compute this.
 */
module Matcher {
  import opened Types
  import opened Fifo

  datatype Trade = Trade(restingId: nat, aggressorId: nat, price: int, qty: nat, aggressorSide: Side,
                         restingFilled: bool)

  datatype Outcome = Outcome(book: seq<Entry>, trades: seq<Trade>, rem: nat)

  /** A resting order at price p satisfies an aggressor with this limit. */
  predicate Crosses(side: Side, limit: int, p: int) {
    if side.Buy? then limit >= p else limit <= p
  }

  function Match(b: seq<Entry>, aggId: nat, side: Side, limit: int, qty: nat): Outcome
    decreases |b|
  {
    if qty == 0 || b == [] || !Crosses(side, limit, b[0].price) then Outcome(b, [], qty)
    else if qty < b[0].qty then
      Outcome([b[0].(qty := b[0].qty - qty)] + b[1..], [Trade(b[0].id, aggId, b[0].price, qty, side, false)], 0)
    else
      var r := Match(b[1..], aggId, side, limit, qty - b[0].qty);
      Outcome(r.book, [Trade(b[0].id, aggId, b[0].price, b[0].qty, side, true)] + r.trades, r.rem)
  }

  ghost function Traded(ts: seq<Trade>): nat {
    if ts == [] then 0 else ts[0].qty + Traded(ts[1..])
  }

  lemma TradedNext(ts: seq<Trade>, i: nat)
    requires i < |ts|
    ensures Traded(ts[i..]) == ts[i].qty + Traded(ts[i + 1..])
  {
    assert ts[i..][1..] == ts[i + 1..];
  }

  /** Price priority: nobody queued later has a better price for the aggressor. */
  ghost predicate Sorted(b: seq<Entry>, restingSide: Side) {
    forall i, j :: 0 <= i < j < |b| ==> if restingSide.Buy? then b[i].price >= b[j].price else b[i].price <= b[j].price
  }

  /** Every trade hits the front of the queue at its own price, and only the last can be partial. */
  lemma {:induction false} MatchTrades(b: seq<Entry>, aggId: nat, side: Side, limit: int, qty: nat)
    requires Positive(b)
    ensures var r := Match(b, aggId, side, limit, qty);
            && |r.trades| <= |b|
            && (forall i :: 0 <= i < |r.trades| ==>
                  && r.trades[i].restingId == b[i].id && r.trades[i].price == b[i].price
                  && r.trades[i].aggressorId == aggId && r.trades[i].aggressorSide == side
                  && (if side.Buy? then r.trades[i].price <= limit else r.trades[i].price >= limit)
                  && 0 < r.trades[i].qty <= b[i].qty
                  && (r.trades[i].restingFilled <==> r.trades[i].qty == b[i].qty)
                  && (i + 1 < |r.trades| ==> r.trades[i].restingFilled))
            && (r.rem > 0 ==> forall i :: 0 <= i < |r.trades| ==> r.trades[i].restingFilled)
    decreases |b|
  {
    if !(qty == 0 || b == [] || !Crosses(side, limit, b[0].price)) && qty >= b[0].qty {
      MatchTrades(b[1..], aggId, side, limit, qty - b[0].qty);
    }
  }

  /** Fills plus remainder equal the incoming quantity. */
  lemma {:induction false} MatchConserves(b: seq<Entry>, aggId: nat, side: Side, limit: int, qty: nat)
    ensures var r := Match(b, aggId, side, limit, qty); Traded(r.trades) + r.rem == qty
    decreases |b|
  {
    if !(qty == 0 || b == [] || !Crosses(side, limit, b[0].price)) && qty >= b[0].qty {
      MatchConserves(b[1..], aggId, side, limit, qty - b[0].qty);
    }
  }

  ghost predicate Positive(b: seq<Entry>) {
    forall i :: 0 <= i < |b| ==> b[i].qty > 0
  }

  lemma MatchFacts(b: seq<Entry>, aggId: nat, side: Side, limit: int, qty: nat)
    requires Positive(b)
    ensures var r := Match(b, aggId, side, limit, qty);
            Traded(r.trades) + r.rem == qty && forall i :: 0 <= i < |r.trades| ==>
                Crosses(side, limit, r.trades[i].price)
  {
    MatchConserves(b, aggId, side, limit, qty);
    MatchTrades(b, aggId, side, limit, qty);
  }

  /** What is left is the untouched tail of the queue, its head possibly reduced. */
  lemma {:induction false} MatchLeaves(b: seq<Entry>, aggId: nat, side: Side, limit: int, qty: nat)
    requires Positive(b)
    ensures var r := Match(b, aggId, side, limit, qty);
            var n := |r.trades|;
            if n > 0 && !r.trades[n - 1].restingFilled
            then n <= |b| && r.trades[n - 1].qty < b[n - 1].qty &&
                 r.book == [b[n - 1].(qty := b[n - 1].qty - r.trades[n - 1].qty)] + b[n..]
            else n <= |b| && r.book == b[n..]
    decreases |b|
  {
    if !(qty == 0 || b == [] || !Crosses(side, limit, b[0].price)) && qty >= b[0].qty {
      MatchLeaves(b[1..], aggId, side, limit, qty - b[0].qty);
      var r := Match(b[1..], aggId, side, limit, qty - b[0].qty);
      var t := Trade(b[0].id, aggId, b[0].price, b[0].qty, side, true);
      assert Match(b, aggId, side, limit, qty) == Outcome(r.book, [t] + r.trades, r.rem);
      assert |r.trades| <= |b[1..]| && b[1..][|r.trades|..] == b[|r.trades| + 1..];
      if |r.trades| > 0 {
        assert ([t] + r.trades)[|r.trades|] == r.trades[|r.trades| - 1];
        assert b[1..][|r.trades| - 1] == b[|r.trades|];
      }
    }
  }

  /** In a price-sorted queue a positive remainder means nothing left crosses the limit. */
  lemma {:induction false} MatchExhausts(b: seq<Entry>, aggId: nat, side: Side, limit: int, qty: nat)
    requires Sorted(b, Opposite(side))
    ensures var r := Match(b, aggId, side, limit, qty);
            r.rem > 0 ==> forall i :: 0 <= i < |r.book| ==> !Crosses(side, limit, r.book[i].price)
    decreases |b|
  {
    if !(qty == 0 || b == [] || !Crosses(side, limit, b[0].price)) && qty >= b[0].qty {
      MatchExhausts(b[1..], aggId, side, limit, qty - b[0].qty);
    } else if qty > 0 && b != [] && !Crosses(side, limit, b[0].price) {
      forall i | 0 <= i < |b| ensures !Crosses(side, limit, b[i].price) {
        assert i > 0 ==> if side.Sell? then b[0].price >= b[i].price else b[0].price <= b[i].price;
      }
    }
  }

  /** Matching `qty0` against f0 has produced `ts` and goes on as matching `qty` against f. */
  ghost predicate Resumes(f0: seq<Entry>, qty0: nat, f: seq<Entry>, qty: nat, ts: seq<Trade>, aggId: nat, side: Side,
                          limit: int) {
    forall k: nat {:trigger Look(MatchSeal, k)} :: Look(MatchSeal, k) ==>
      var r := Match(f, aggId, side, limit, qty);
      Match(f0, aggId, side, limit, qty0) == Outcome(r.book, ts + r.trades, r.rem)
  }

  lemma ResumesStart(f: seq<Entry>, qty: nat, aggId: nat, side: Side, limit: int)
    ensures Resumes(f, qty, f, qty, [], aggId, side, limit)
  {
    var r := Match(f, aggId, side, limit, qty);
    assert [] + r.trades == r.trades;
  }

  /** The front order takes what it can; the rest of the queue goes on. */
  lemma ResumesHit(e: Entry, rest: seq<Entry>, f': seq<Entry>, qty: nat, t: Trade, aggId: nat, side: Side, limit: int)
    requires qty > 0 && e.qty > 0 && Crosses(side, limit, e.price)
    requires var fill := Min(qty, e.qty);
             && t == Trade(e.id, aggId, e.price, fill, side, fill == e.qty)
             && f' == if fill == e.qty then rest else [e.(qty := e.qty - fill)] + rest
    ensures Resumes([e] + rest, qty, f', qty - t.qty, [t], aggId, side, limit)
  {
    assert ([e] + rest)[1..] == rest;
  }

  lemma ResumesTrans(f0: seq<Entry>, qty0: nat, f1: seq<Entry>, qty1: nat, f2: seq<Entry>, qty2: nat, ts: seq<Trade>,
                     t: seq<Trade>,
                     aggId: nat, side: Side, limit: int)
    requires Resumes(f0, qty0, f1, qty1, ts, aggId, side, limit)
    requires Resumes(f1, qty1, f2, qty2, t, aggId, side, limit)
    ensures Resumes(f0, qty0, f2, qty2, ts + t, aggId, side, limit)
  {
    var r := Match(f2, aggId, side, limit, qty2);
    assert ts + (t + r.trades) == (ts + t) + r.trades;
  }

  /** Where nothing is left to do, the trades so far are the whole result. */
  lemma ResumesEnd(f0: seq<Entry>, qty0: nat, f: seq<Entry>, qty: nat, ts: seq<Trade>, aggId: nat, side: Side,
                   limit: int)
    requires Resumes(f0, qty0, f, qty, ts, aggId, side, limit)
    requires qty == 0 || f == [] || !Crosses(side, limit, f[0].price)
    ensures Match(f0, aggId, side, limit, qty0) == Outcome(f, ts, qty)
  {
    assert Look(MatchSeal, 0);
    assert ts + [] == ts;
  }
}
