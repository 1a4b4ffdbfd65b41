/** The ring of recent order sends, matched to transmit stamps by wrapping 32-bit byte positions. */
module SendRing {
  import opened Types

  const RING: nat := 256
  const HALF: int := 0x8000_0000

  datatype TxRef = TxRef(key: nat, userRef: nat)

  /** A send: the stream position of its last byte, and the order it belongs to. */
  datatype Send = Send(pos: nat, userRef: nat)

  /** Difference of two 32-bit keys, read as a signed number. */
  function SignedDiff(a: int, b: int): int {
    var d := Low32(a - b);
    if d < HALF then d else d - TWO32
  }

  /** Positions less than 2^31 bytes apart compare correctly through their wrapped keys. */
  lemma DiffExact(a: nat, b: nat)
    requires -HALF <= a - b < HALF
    ensures SignedDiff(Low32(a), Low32(b)) == a - b
  {
    var k := a / TWO32 - b / TWO32;
    assert a == TWO32 * (a / TWO32) + Low32(a) && b == TWO32 * (b / TWO32) + Low32(b);
    assert Low32(a) - Low32(b) == (a - b) - TWO32 * k;
    assert k == -1 || k == 0 || k == 1;
  }

  /** Ring slot of the i-th pending send. */
  function SlotOf(read: nat, i: nat): (r: nat)
    ensures r < RING
  {
    Low32(read + i) % RING
  }

  lemma SlotIs(read: nat, i: nat)
    ensures SlotOf(read, i) == (read + i) % RING
  {
  }

  lemma SlotsApart(read: nat, i: nat, j: nat)
    requires i < j < i + RING
    ensures SlotOf(read, i) != SlotOf(read, j)
  {
    SlotIs(read, i);
    SlotIs(read, j);
  }

  lemma SlotShift(read: nat, i: nat)
    ensures SlotOf(Low32(read + 1), i) == SlotOf(read, i + 1)
  {
  }

  lemma SlotOfEnd(read: nat, n: nat)
    ensures Low32(read + n) % RING == SlotOf(read, n) && Low32(Low32(read + n) + 1) == Low32(read + n + 1)
  {
    WrapStep(read + n);
  }

  lemma WrapStep(x: nat)
    ensures Low32(Low32(x) + 1) == Low32(x + 1)
  {
  }

  /** The window of the ring from read on shows the pending sends, oldest first. */
  ghost predicate Window(refs: seq<TxRef>, read: nat, pending: seq<Send>) {
    && |refs| == RING && |pending| <= RING
    && forall i {:trigger pending[i]} :: 0 <= i < |pending| ==>
         refs[SlotOf(read, i)] == TxRef(Low32(pending[i].pos), pending[i].userRef)
  }

  lemma WindowDrop(refs: seq<TxRef>, read: nat, pending: seq<Send>)
    requires Window(refs, read, pending) && pending != []
    ensures Window(refs, Low32(read + 1), pending[1..])
  {
    forall i | 0 <= i < |pending[1..]|
      ensures refs[SlotOf(Low32(read + 1), i)] == TxRef(Low32(pending[1..][i].pos), pending[1..][i].userRef) {
      SlotShift(read, i);
      assert pending[1..][i] == pending[i + 1];
    }
  }

  lemma WindowPush(refs: seq<TxRef>, read: nat, pending: seq<Send>, s: Send)
    requires Window(refs, read, pending) && |pending| < RING
    ensures Window(refs[SlotOf(read, |pending|) := TxRef(Low32(s.pos), s.userRef)], read, pending + [s])
  {
    forall i | 0 <= i < |pending| ensures SlotOf(read, i) != SlotOf(read, |pending|) {
      SlotsApart(read, i, |pending|);
    }
  }

  /** Positions grow, end at the bytes sent, and start after whatever was consumed. */
  ghost predicate Ordered(pending: seq<Send>, consumed: int, bytes: nat) {
    && (forall i, j :: 0 <= i < j < |pending| ==> pending[i].pos < pending[j].pos)
    && (forall i :: 0 <= i < |pending| ==> consumed < pending[i].pos < bytes)
    && consumed < bytes
  }

  lemma OrderedPush(pending: seq<Send>, consumed: int, bytes: nat, s: Send)
    requires Ordered(pending, consumed, bytes) && s.pos >= bytes
    ensures Ordered(pending + [s], consumed, s.pos + 1)
  {
  }

  lemma OrderedDrop(pending: seq<Send>, consumed: int, bytes: nat)
    requires Ordered(pending, consumed, bytes) && pending != []
    ensures Ordered(pending[1..], pending[0].pos, bytes) && consumed < pending[0].pos
  {
  }

  /** Counters are compared after wrapping. */
  lemma WindowCount(read: nat, n: nat)
    requires read < TWO32 && n <= RING
    ensures Low32(Low32(read + n) - read) == n
  {
  }

  lemma CountDrop(read: nat, n: nat)
    requires n > 0
    ensures Low32(Low32(read + 1) + (n - 1)) == Low32(read + n)
  {
  }

  /** Positions near enough to compare through wrapped keys. */
  ghost predicate Near(pending: seq<Send>, pos: nat) {
    forall i {:trigger pending[i]} :: 0 <= i < |pending| ==> -HALF <= pending[i].pos - pos < HALF
  }

  /** The sends after position pos. */
  function After(pending: seq<Send>, pos: nat): seq<Send> {
    if pending == [] || pending[0].pos > pos then pending else After(pending[1..], pos)
  }

  /** What is left is exactly the later sends. */
  lemma {:induction false} AfterIs(pending: seq<Send>, pos: nat, consumed: int, bytes: nat)
    requires Ordered(pending, consumed, bytes)
    ensures forall s :: s in After(pending, pos) <==> s in pending && s.pos > pos
  {
    if pending != [] && pending[0].pos <= pos {
      assert pending == [pending[0]] + pending[1..];
      AfterIs(pending[1..], pos, pending[0].pos, bytes);
    }
  }

  /** What is left of all after dropping sends before pos. */
  ghost predicate Skipping(all: seq<Send>, cur: seq<Send>, pos: nat) {
    && |cur| <= |all| && cur == all[|all| - |cur|..]
    && forall i :: 0 <= i < |all| - |cur| ==> all[i].pos < pos
  }

  lemma SkipOne(all: seq<Send>, cur: seq<Send>, pos: nat)
    requires Skipping(all, cur, pos) && cur != [] && cur[0].pos < pos
    ensures Skipping(all, cur[1..], pos)
  {
    assert cur[0] == all[|all| - |cur|];
  }

  lemma {:induction false} AfterSkip(all: seq<Send>, k: nat, pos: nat)
    requires k <= |all| && forall i :: 0 <= i < k ==> all[i].pos <= pos
    ensures After(all, pos) == After(all[k..], pos)
    decreases k
  {
    if k > 0 {
      AfterSkip(all[1..], k - 1, pos);
      assert all[1..][k - 1..] == all[k..];
    } else {
      assert all[0..] == all;
    }
  }

  /** Nothing ends at pos: the rest is exactly the later sends. */
  lemma SkipEnd(all: seq<Send>, cur: seq<Send>, pos: nat, consumed: int, bytes: nat)
    requires Skipping(all, cur, pos) && Ordered(cur, consumed, bytes) && (cur == [] || cur[0].pos > pos)
    ensures After(all, pos) == cur && forall i :: 0 <= i < |all| ==> all[i].pos != pos
  {
    AfterSkip(all, |all| - |cur|, pos);
    forall i | 0 <= i < |all| ensures all[i].pos != pos {
      if i >= |all| - |cur| {
        assert all[i] == cur[i - (|all| - |cur|)];
      }
    }
  }

  /** The head ends at pos: behind it are exactly the later sends. */
  lemma MatchEnd(all: seq<Send>, cur: seq<Send>, pos: nat, consumed: int, bytes: nat)
    requires Skipping(all, cur, pos) && Ordered(cur, consumed, bytes) && cur != [] && cur[0].pos == pos
    ensures After(all, pos) == cur[1..] && 0 <= |all| - |cur| < |all| && all[|all| - |cur|] == cur[0]
  {
    var k := |all| - |cur|;
    assert all[k] == cur[0];
    AfterSkip(all, k + 1, pos);
    assert all[k + 1..] == cur[1..];
    if cur[1..] != [] {
      assert cur[1..][0] == cur[1];
    }
  }

  /** Some pending send ends at this position. */
  ghost predicate Ends(pending: seq<Send>, pos: nat) {
    exists i :: 0 <= i < |pending| && pending[i].pos == pos
  }

  // ---- runs

  /** A stamp read without a key carries this one, which is therefore taken for none. */
  const NO_KEY: nat := 0xFFFF_FFFF

  datatype Event = SendOrder(size: nat, userRef: nat) | Stamp(pos: nat)

  /** Pending sends and bytes sent. */
  datatype Log = Log(pending: seq<Send>, bytes: nat)

  /** A full window forgets its oldest send. */
  ghost function Sent(l: Log, size: nat, userRef: nat): Log
    requires size > 0
  {
    Log((if |l.pending| == RING then l.pending[1..] else l.pending) + [Send(l.bytes + size - 1, userRef)],
        l.bytes + size)
  }

  /** The stamp reaches the ring exactly if its key is not the mark for none. */
  predicate Heard(pos: nat) {
    Low32(pos) != NO_KEY
  }

  ghost function Next(l: Log, e: Event): Log
    requires e.SendOrder? ==> e.size > 0
  {
    match e
    case SendOrder(size, userRef) => Sent(l, size, userRef)
    case Stamp(pos) => if Heard(pos) then l.(pending := After(l.pending, pos)) else l
  }

  /** Sends carry bytes, and stamps lie near what is pending. */
  ghost predicate EventsOk(l: Log, es: seq<Event>)
    decreases |es|
  {
    es == [] || ((match es[0] case SendOrder(size, _) => size > 0 case Stamp(pos) => Near(l.pending, pos))
                 && EventsOk(Next(l, es[0]), es[1..]))
  }

  /** The first pending send that ends at pos, if there is one. */
  ghost function EndingAt(pending: seq<Send>, pos: nat): seq<Send> {
    if pending == [] then [] else if pending[0].pos == pos then [pending[0]] else EndingAt(pending[1..], pos)
  }

  lemma {:induction false} EndingAtNone(pending: seq<Send>, pos: nat)
    requires !Ends(pending, pos)
    ensures EndingAt(pending, pos) == []
  {
    if pending != [] {
      assert pending[0].pos != pos;
      forall i | 0 <= i < |pending[1..]| ensures pending[1..][i].pos != pos {
        assert pending[1..][i] == pending[i + 1];
      }
      EndingAtNone(pending[1..], pos);
    }
  }

  lemma {:induction false} EndingAtIs(pending: seq<Send>, s: Send, consumed: int, bytes: nat)
    requires Ordered(pending, consumed, bytes) && s in pending
    ensures EndingAt(pending, s.pos) == [s]
  {
    var i :| 0 <= i < |pending| && pending[i] == s;
    if i > 0 {
      OrderedDrop(pending, consumed, bytes);
      assert pending[1..][i - 1] == s;
      EndingAtIs(pending[1..], s, pending[0].pos, bytes);
    }
  }

  /** What an event must match: the pending send a heard stamp ends. */
  ghost function Hit(l: Log, e: Event): seq<Send> {
    if e.Stamp? && Heard(e.pos) then EndingAt(l.pending, e.pos) else []
  }

  ghost function Hits(l: Log, es: seq<Event>): seq<Send>
    requires EventsOk(l, es)
    decreases |es|
  {
    if es == [] then []
    else Hit(l, es[0]) + Hits(Next(l, es[0]), es[1..])
  }

  /** Whose sends they are. */
  ghost function Users(hits: seq<Send>): (r: seq<nat>)
    ensures |r| == |hits|
  {
    seq(|hits|, i requires 0 <= i < |hits| => hits[i].userRef)
  }

  lemma UsersJoin(a: seq<Send>, b: seq<Send>)
    ensures Users(a + b) == Users(a) + Users(b)
  {
  }

  /** A stamp that reads as none matches nothing. */
  lemma Deaf(l: Log, pos: nat)
    requires Near(l.pending, pos) && !Heard(pos)
    ensures EventsOk(l, [Stamp(pos)]) && Hits(l, [Stamp(pos)]) == []
  {
    assert [Stamp(pos)][1..] == [] && Next(l, Stamp(pos)) == l;
  }

  lemma SendFirst(l: Log, size: nat, user: nat, rest: seq<Event>)
    requires size > 0 && EventsOk(Sent(l, size, user), rest)
    ensures EventsOk(l, [SendOrder(size, user)] + rest)
    ensures Hits(l, [SendOrder(size, user)] + rest) == Hits(Sent(l, size, user), rest)
  {
    var es := [SendOrder(size, user)] + rest;
    assert es[0] == SendOrder(size, user) && es[1..] == rest && Next(l, es[0]) == Sent(l, size, user);
  }

  /** The swallowed stamp: a first send of 2^32 bytes ends at position 2^32 - 1, and its stamp matches nothing. */
  lemma SwallowedInput(user: nat)
    ensures var es := [SendOrder(TWO32, user)] + [Stamp(TWO32 - 1)];
            && Sent(Log([], 0), TWO32, user).pending == [Send(TWO32 - 1, user)]
            && EventsOk(Log([], 0), es) && Hits(Log([], 0), es) == []
  {
    var l := Sent(Log([], 0), TWO32, user);
    assert Near(l.pending, TWO32 - 1) && !Heard(TWO32 - 1);
    Deaf(l, TWO32 - 1);
    SendFirst(Log([], 0), TWO32, user, [Stamp(TWO32 - 1)]);
  }

  /** Strictly increasing within (above, upto]. */
  ghost predicate Rising(hits: seq<Send>, above: int, upto: int) {
    && (forall i :: 0 <= i < |hits| ==> above < hits[i].pos <= upto)
    && (forall i, j :: 0 <= i < j < |hits| ==> hits[i].pos < hits[j].pos)
  }

  lemma RisingMore(hits: seq<Send>, above: int, upto: int, more: seq<Send>, upto': int)
    requires Rising(hits, above, upto) && above <= upto <= upto' && |more| <= 1
             && (more != [] ==> upto < more[0].pos == upto')
    ensures Rising(hits + more, above, upto')
  {
  }

  /** The matches so far and those still due make up all of them. */
  ghost predicate Due(hits: seq<Send>, l: Log, es: seq<Event>, all: seq<Send>) {
    EventsOk(l, es) && hits + Hits(l, es) == all
  }

  lemma DueStep(hits: seq<Send>, l: Log, es: seq<Event>, i: nat, all: seq<Send>)
    requires i < |es| && Due(hits, l, es[i..], all)
    ensures match es[i] case SendOrder(size, _) => size > 0 case Stamp(pos) => Near(l.pending, pos)
    ensures Due(hits + Hit(l, es[i]), Next(l, es[i]), es[i + 1..], all)
  {
    assert es[i..][0] == es[i] && es[i..][1..] == es[i + 1..];
    assert hits + (Hit(l, es[i]) + Hits(Next(l, es[i]), es[i + 1..])) == all;
  }

  class SendLog {
    var refs: seq<TxRef>
    var txSeq: nat
    var txRead: nat
    var txBytes: nat
    var skipped: nat
    var unmatched: nat
    /** Sends not yet consumed or overwritten, oldest first. */
    ghost var pending: seq<Send>
    /** Greatest position consumed so far. */
    ghost var consumed: int

    ghost predicate Valid()
      reads this
    {
      && txRead < TWO32 && txSeq == Low32(txRead + |pending|)
      && Window(refs, txRead, pending) && Ordered(pending, consumed, txBytes)
    }

    constructor ()
      ensures Valid() && pending == [] && txBytes == 0
    {
      refs := seq(RING, _ => TxRef(0, 0));
      txSeq, txRead, txBytes, skipped, unmatched := 0, 0, 0, 0, 0;
      pending, consumed := [], -1;
    }

    /** A full ring forgets its oldest send; the new one joins at the end. */
    method OrderSend(size: nat, userRef: nat)
      requires Valid() && size > 0
      modifies this
      ensures Valid() && txBytes == old(txBytes) + size && skipped == old(skipped) && unmatched == old(unmatched)
      ensures Log(pending, txBytes) == Sent(old(Log(pending, txBytes)), size, userRef)
      ensures pending == (if |old(pending)| == 256 then old(pending)[1..] else old(pending))
                         + [Send(old(txBytes) + size - 1, userRef)]
      ensures consumed >= old(consumed)
    {
      WindowCount(txRead, |pending|);
      if Low32(txSeq - txRead) == RING {
        Advance();
      }
      Push(size, userRef);
    }

    method Push(size: nat, userRef: nat)
      requires Valid() && size > 0 && |pending| < RING
      modifies this
      ensures Valid() && txBytes == old(txBytes) + size && pending == old(pending) + [Send(txBytes - 1, userRef)]
      ensures skipped == old(skipped) && unmatched == old(unmatched) && consumed == old(consumed)
    {
      var s := Send(txBytes + size - 1, userRef);
      WindowPush(refs, txRead, pending, s);
      OrderedPush(pending, consumed, txBytes, s);
      SlotOfEnd(txRead, |pending|);
      txBytes := txBytes + size;
      refs := refs[txSeq % RING := TxRef(Low32(txBytes - 1), userRef)];
      txSeq := Low32(txSeq + 1);
      pending := pending + [s];
    }

    /** What the head of the ring says about a stamp near the pending positions. */
    lemma HeadKey(pos: nat)
      requires Valid() && Near(pending, pos)
      ensures txRead == txSeq <==> pending == []
      ensures pending != [] ==> var r := refs[txRead % RING];
              && r.userRef == pending[0].userRef && SignedDiff(r.key, Low32(pos)) == pending[0].pos - pos
              && (r.key == Low32(pos) <==> pending[0].pos == pos)
    {
      if pending != [] {
        SlotIs(txRead, 0);
        assert refs[SlotOf(txRead, 0)] == TxRef(Low32(pending[0].pos), pending[0].userRef);
        DiffExact(pending[0].pos, pos);
      }
    }

    /** Drops the oldest pending send. */
    method Advance()
      requires Valid() && pending != []
      modifies this
      ensures Valid() && pending == old(pending)[1..] && consumed == old(pending)[0].pos && txBytes == old(txBytes)
      ensures skipped == old(skipped) && unmatched == old(unmatched)
    {
      WindowDrop(refs, txRead, pending);
      OrderedDrop(pending, consumed, txBytes);
      CountDrop(txRead, |pending|);
      txRead := Low32(txRead + 1);
      consumed, pending := pending[0].pos, pending[1..];
    }

    /** Passes over the sends that end before the stamp. */
    method SkipOlder(key: nat, ghost pos: nat)
      requires Valid() && key == Low32(pos) && Near(pending, pos)
      modifies this
      ensures Valid() && txBytes == old(txBytes) && unmatched == old(unmatched) && consumed >= old(consumed)
      ensures Skipping(old(pending), pending, pos) && Near(pending, pos) && (pending != [] ==> pending[0].pos >= pos)
    {
      while txRead != txSeq && SignedDiff(refs[txRead % RING].key, key) < 0
        invariant Valid() && txBytes == old(txBytes) && unmatched == old(unmatched) && consumed >= old(consumed)
        invariant Skipping(old(pending), pending, pos) && Near(pending, pos)
        decreases |pending|
      {
        HeadKey(pos);
        SkipOne(old(pending), pending, pos);
        Advance();
        skipped := skipped + 1;
      }
      HeadKey(pos);
    }

    /**
     * A stamp for stream position pos, given only as its wrapped key: consumes exactly the sends up
     * to pos and matches exactly the send that ends there.
     */
    method OrderCompleteTx(key: nat, ghost pos: nat) returns (matched: bool, userRef: nat)
      requires Valid() && key == Low32(pos)
      requires Near(pending, pos)
      modifies this
      ensures Valid() && pending == After(old(pending), pos) && txBytes == old(txBytes)
      ensures forall s :: s in pending <==> s in old(pending) && s.pos > pos
      ensures matched <==> Ends(old(pending), pos)
      ensures consumed >= old(consumed)
      ensures matched ==> Send(pos, userRef) in old(pending) && pos > old(consumed) && consumed == pos
      ensures unmatched == old(unmatched) + if matched then 0 else 1
    {
      AfterIs(pending, pos, consumed, txBytes);
      matched, userRef := TakeUpTo(key, pos);
    }

    /** Skips the sends before the stamp and takes the one it ends, if it is there. */
    method TakeUpTo(key: nat, ghost pos: nat) returns (matched: bool, userRef: nat)
      requires Valid() && key == Low32(pos)
      requires Near(pending, pos)
      modifies this
      ensures Valid() && pending == After(old(pending), pos) && txBytes == old(txBytes)
      ensures matched <==> Ends(old(pending), pos)
      ensures consumed >= old(consumed)
      ensures matched ==> Send(pos, userRef) in old(pending) && pos > old(consumed) && consumed == pos
      ensures unmatched == old(unmatched) + if matched then 0 else 1
    {
      matched, userRef := false, 0;
      SkipOlder(key, pos);
      HeadKey(pos);
      if txRead == txSeq || refs[txRead % RING].key != key {
        unmatched := unmatched + 1;
        SkipEnd(old(pending), pending, pos, consumed, txBytes);
        return;
      }
      MatchEnd(old(pending), pending, pos, consumed, txBytes);
      matched, userRef := true, refs[txRead % RING].userRef;
      Advance();
    }

    /** One stamp off the error queue: dropped when its key reads as none. */
    method DrainStamp(key: nat, ghost pos: nat) returns (matched: bool, userRef: nat)
      requires Valid() && key == Low32(pos) && Near(pending, pos)
      modifies this
      ensures Valid() && Log(pending, txBytes) == Next(old(Log(pending, txBytes)), Stamp(pos))
              && consumed >= old(consumed)
      ensures matched <==> Ends(old(pending), pos) && pos % TWO32 != TWO32 - 1
      ensures matched ==> Send(pos, userRef) in old(pending) && pos > old(consumed) && consumed == pos
    {
      matched, userRef := false, 0;
      if key != NO_KEY {
        matched, userRef := OrderCompleteTx(key, pos);
      }
    }

    method One(e: Event) returns (users: seq<nat>, ghost hits: seq<Send>)
      requires Valid() && (match e case SendOrder(size, _) => size > 0 case Stamp(pos) => Near(pending, pos))
      modifies this
      ensures Valid() && Log(pending, txBytes) == Next(old(Log(pending, txBytes)), e) && consumed >= old(consumed)
      ensures hits == Hit(old(Log(pending, txBytes)), e) && |hits| <= 1 && users == Users(hits)
      ensures hits != [] ==> old(consumed) < hits[0].pos == consumed
    {
      users, hits := [], [];
      match e {
        case SendOrder(size, userRef) => OrderSend(size, userRef);
        case Stamp(pos) =>
          var matched, userRef := DrainStamp(Low32(pos), pos);
          if matched {
            users, hits := [userRef], [Send(pos, userRef)];
            EndingAtIs(old(pending), Send(pos, userRef), old(consumed), old(txBytes));
          } else if Heard(pos) {
            EndingAtNone(old(pending), pos);
          }
      }
    }

    /** Any run of sends and stamps: the matches are exactly those due, and no send is matched twice. */
    method Run(es: seq<Event>) returns (users: seq<nat>, ghost hits: seq<Send>)
      requires Valid() && EventsOk(Log(pending, txBytes), es)
      modifies this
      ensures Valid() && hits == Hits(old(Log(pending, txBytes)), es) && users == Users(hits)
      ensures Rising(hits, old(consumed), consumed)
    {
      users, hits := [], [];
      ghost var all := Hits(Log(pending, txBytes), es);
      assert es[0..] == es && [] + all == all;
      var i := 0;
      while i < |es|
        invariant 0 <= i <= |es| && Valid() && users == Users(hits)
        invariant Due(hits, Log(pending, txBytes), es[i..], all)
        invariant Rising(hits, old(consumed), consumed) && consumed >= old(consumed)
        decreases |es| - i
      {
        DueStep(hits, Log(pending, txBytes), es, i, all);
        ghost var was := consumed;
        var u;
        ghost var h;
        u, h := One(es[i]);
        RisingMore(hits, old(consumed), was, h, consumed);
        UsersJoin(hits, h);
        users, hits := users + u, hits + h;
        i := i + 1;
      }
      assert es[i..] == [] && hits + [] == hits;
    }
  }
}
