/** The market-data path: packets filled in place, sent when full or flushed, and tracked on receipt. */
module MarketData {
  import opened Types
  import opened Mold

  // ---- what a run of packets carries

  /** All messages of the packets in order. */
  function Stream(pkts: seq<Bytes>): seq<Numbered> {
    if pkts == [] then [] else Stream(pkts[..|pkts| - 1]) + Decode(pkts[|pkts| - 1])
  }

  /** Each packet starts where the one before ended: the numbers run from first up to next. */
  predicate Contiguous(pkts: seq<Bytes>, first: nat, next: nat) {
    if pkts == [] then first == next
    else
      var p := pkts[|pkts| - 1];
      && |p| >= HEADER && 0 < CountOf(p) < END_OF_SESSION && next == SequenceOf(p) + CountOf(p)
      && Contiguous(pkts[..|pkts| - 1], first, SequenceOf(p))
  }

  lemma NumberJoin(first: nat, a: seq<Bytes>, b: seq<Bytes>)
    ensures Number(first, a) + Number(first + |a|, b) == Number(first, a + b)
  {
  }

  /** The packets carry done, numbered from 1. */
  ghost predicate Carries(sent: seq<Bytes>, done: seq<Bytes>) {
    forall k: nat {:trigger Look(PacketSeal, k)} :: Look(PacketSeal, k) ==>
        Stream(sent) == Number(1, done) && Contiguous(sent, 1, 1 + |done|)
  }

  lemma CarriesMeans(sent: seq<Bytes>, done: seq<Bytes>)
    requires Carries(sent, done)
    ensures Stream(sent) == Number(1, done) && Contiguous(sent, 1, 1 + |done|)
  {
    assert Look(PacketSeal, 0);
  }

  /** One more packet extends the stream and the numbering. */
  lemma SendOne(sent: seq<Bytes>, session: Bytes, done: seq<Bytes>, ms: seq<Bytes>)
    requires |session| == SESSION_LEN && Sendable(1 + |done|, ms) && Carries(sent, done)
    ensures Carries(sent + [Packet(session, 1 + |done|, ms)], done + ms)
  {
    var p := Packet(session, 1 + |done|, ms);
    CarriesMeans(sent, done);
    SentOk(session, 1 + |done|, ms);
    Snoc(sent, p, 1, 1 + |done|);
    NumberJoin(1, done, ms);
  }

  lemma SentOk(session: Bytes, first: nat, ms: seq<Bytes>)
    requires |session| == SESSION_LEN && Sendable(first, ms)
    ensures var p := Packet(session, first, ms);
            SequenceOf(p) == first && 0 < CountOf(p) == |ms| < END_OF_SESSION && Decode(p) == Number(first, ms)
  {
    HeaderReads(session, first, ms);
    DecodePacket(session, first, ms);
  }

  lemma Snoc(pkts: seq<Bytes>, p: Bytes, first: nat, next: nat)
    requires |p| >= HEADER && 0 < CountOf(p) < END_OF_SESSION && SequenceOf(p) == next && Contiguous(pkts, first, next)
    ensures Stream(pkts + [p]) == Stream(pkts) + Decode(p) && Contiguous(pkts + [p], first, next + CountOf(p))
  {
    assert (pkts + [p])[..|pkts|] == pkts;
  }

  // ---- filling a buffer

  class Packer {
    const session: Bytes
    var buf: array<byte>
    var cap: nat
    var len: nat
    var count: nat
    var nextSeq: nat
    var firstSeq: nat
    /** The messages in the buffer. */
    ghost var pending: seq<Bytes>

    ghost predicate Valid()
      reads this, buf
    {
      && |session| == SESSION_LEN && HEADER <= len <= cap <= buf.Length < 0x1_0000
      && count == |pending| < END_OF_SESSION && nextSeq == firstSeq + count
      && Fits(pending) && buf[HEADER..len] == Frame(pending)
    }

    constructor (session: Bytes, buf: array<byte>, firstSeq: nat)
      requires |session| == SESSION_LEN && HEADER <= buf.Length < 0x1_0000
      ensures Valid() && this.buf == buf && pending == [] && nextSeq == firstSeq && this.session == session
              && cap == buf.Length
    {
      this.session, this.buf, this.cap, this.len := session, buf, buf.Length, HEADER;
      this.count, this.nextSeq, this.firstSeq, this.pending := 0, firstSeq, firstSeq, [];
    }

    method Reset(capacity: nat)
      requires |session| == SESSION_LEN && HEADER <= capacity <= buf.Length < 0x1_0000
      modifies this
      ensures Valid() && buf == old(buf) && pending == [] && cap == capacity && nextSeq == old(nextSeq)
    {
      cap, len, count, firstSeq, pending := capacity, HEADER, 0, nextSeq, [];
    }

    /** Takes the message exactly when its bytes and the count still fit. */
    method Append(msg: Bytes) returns (ok: bool)
      requires Valid()
      modifies this, buf
      ensures Valid() && buf == old(buf) && cap == old(cap) && firstSeq == old(firstSeq)
      ensures ok <==> old(len) + 2 + |msg| <= cap && old(count) < END_OF_SESSION - 1
      ensures pending == if ok then old(pending) + [msg] else old(pending)
      ensures !ok ==> len == old(len)
    {
      if len + 2 + |msg| > cap || count >= END_OF_SESSION - 1 {
        return false;
      }
      ghost var body := buf[HEADER..len];
      CopyIn(len, U16(|msg|));
      CopyIn(len + 2, msg);
      assert buf[HEADER..len + 2 + |msg|] == body + Block(msg);
      FrameSnoc(pending, msg);
      pending := pending + [msg];
      len, count, nextSeq := len + 2 + |msg|, count + 1, nextSeq + 1;
      return true;
    }

    /** Copies bytes into the buffer at a position. */
    method CopyIn(at: nat, s: Bytes)
      requires at + |s| <= buf.Length
      modifies buf
      ensures buf[..] == old(buf[..at]) + s + old(buf[at + |s|..])
    {
      var i := 0;
      while i < |s|
        invariant 0 <= i <= |s|
        invariant buf[..at] == old(buf[..at]) && buf[at..at + i] == s[..i] && buf[at + i..] == old(buf[at + i..])
      {
        buf[at + i] := s[i];
        i := i + 1;
      }
      assert s[..i] == s;
      assert buf[..] == buf[..at] + buf[at..at + |s|] + buf[at + |s|..];
    }

    /** Writes the header; the bytes are then the packet of the pending messages. */
    method Finalize() returns (p: Bytes)
      requires Valid()
      modifies buf
      ensures Valid() && p == Packet(session, firstSeq, pending)
      ensures firstSeq < TWO64 ==> WirePacket(p, session, firstSeq, pending)
    {
      if firstSeq < TWO64 {
        PacketWire(session, firstSeq, pending);
      }
      CopyIn(0, Header(session, firstSeq, count));
      assert buf[..] == Header(session, firstSeq, count) + old(buf[HEADER..]);
      assert buf[..][HEADER..len] == old(buf[HEADER..])[..len - HEADER] == old(buf[HEADER..len]);
      p := buf[..len];
    }
  }

  // ---- the sending session

  const BUFFER: nat := 2048

  /** Payload limit: the configured one, lowered to what a frame holds, unless out of bounds. */
  function MdCapacity(configured: nat, frame: nat): (cap: nat)
    ensures HEADER + 64 <= cap <= BUFFER
    ensures frame > 0 && (configured == 0 || frame < configured) ==>
              cap == if HEADER + 64 <= frame <= BUFFER then frame else BUFFER
    ensures frame == 0 || 0 < configured <= frame ==>
              cap == if HEADER + 64 <= configured <= BUFFER then configured else BUFFER
  {
    var wanted := if frame > 0 && (configured == 0 || frame < configured) then frame else configured;
    if wanted < HEADER + 64 || wanted > BUFFER then BUFFER else wanted
  }

  datatype Op = Message(msg: Bytes) | Flush

  /** The messages that fit a packet at all; the rest are dropped. */
  function Accepted(cap: nat, ops: seq<Op>): seq<Bytes> {
    if ops == [] then []
    else Accepted(cap, ops[..|ops| - 1]) + AcceptedOne(cap, ops[|ops| - 1])
  }

  function AcceptedOne(cap: nat, op: Op): seq<Bytes> {
    if op.Message? && HEADER + 2 + |op.msg| <= cap then [op.msg] else []
  }

  lemma AcceptedSnoc(cap: nat, ops: seq<Op>, i: nat)
    requires i < |ops|
    ensures Accepted(cap, ops[..i + 1]) == Accepted(cap, ops[..i]) + AcceptedOne(cap, ops[i])
  {
    assert ops[..i + 1][..i] == ops[..i];
  }

  function Messages(ops: seq<Op>): seq<Bytes> {
    if ops == [] then [] else Messages(ops[..|ops| - 1]) + match ops[|ops| - 1] case Message(m) => [m] case Flush => []
  }

  /** Messages of at most 62 bytes are never dropped. */
  lemma {:induction false} ShortAccepted(cap: nat, ops: seq<Op>)
    requires cap >= HEADER + 64 && forall i :: 0 <= i < |ops| && ops[i].Message? ==> |ops[i].msg| <= 62
    ensures Accepted(cap, ops) == Messages(ops)
    decreases |ops|
  {
    if ops != [] {
      ShortAccepted(cap, ops[..|ops| - 1]);
    }
  }

  class MdSession {
    const capacity: nat
    const packer: Packer
    var mdOpen: bool
    /** Packets handed to the network so far. */
    var sent: seq<Bytes>
    ghost var done: seq<Bytes>

    ghost predicate Valid()
      reads this, packer, packer.buf
    {
      && packer.Valid() && HEADER + 64 <= capacity <= packer.buf.Length
      && Carries(sent, done)
      && (if mdOpen then packer.cap == capacity && packer.firstSeq == 1 + |done| else packer.nextSeq == 1 + |done|)
    }

    /** Every message accepted so far: sent, or waiting in the open packet. */
    ghost function Taken(): seq<Bytes>
      reads this, packer
    {
      if mdOpen then done + packer.pending else done
    }

    constructor (session: Bytes, configured: nat, frame: nat)
      requires |session| == SESSION_LEN
      ensures Valid() && fresh(packer) && fresh(packer.buf) && Taken() == [] && sent == []
              && capacity == MdCapacity(configured, frame)
    {
      var buf := new byte[BUFFER](_ => 0);
      packer := new Packer(session, buf, 1);
      capacity, mdOpen, sent, done := MdCapacity(configured, frame), false, [], [];
    }

    /** Sends the open packet if it holds anything; afterwards everything taken has been sent. */
    method FlushMarketData()
      requires Valid() && 1 + |Taken()| < Span(SEQ_BYTES)
      modifies this, packer.buf
      ensures Valid() && !mdOpen && Taken() == old(Taken()) && packer.buf == old(packer.buf)
    {
      if mdOpen && packer.count > 0 {
        Emit();
      }
      mdOpen := false;
    }

    method Emit()
      requires Valid() && mdOpen && packer.count > 0 && packer.firstSeq < Span(SEQ_BYTES)
      modifies this`sent, this`done, packer.buf
      ensures packer.Valid() && Carries(sent, done) && done == old(Taken())
    {
      var p := packer.Finalize();
      SendOne(sent, packer.session, done, packer.pending);
      sent, done := sent + [p], done + packer.pending;
    }

    method Open()
      requires Valid() && !mdOpen
      modifies this, packer
      ensures Valid() && mdOpen && Taken() == old(Taken()) && packer.pending == [] && packer.buf == old(packer.buf)
              && done == old(done)
      ensures packer.len == HEADER
    {
      packer.Reset(capacity);
      mdOpen := true;
    }

    /** Adds a message to the open packet, starting another when it does not fit. */
    method AppendMarketData(itch: Bytes)
      requires Valid() && 1 + |Taken()| < Span(SEQ_BYTES)
      modifies this, packer, packer.buf
      ensures Valid() && packer.buf == old(packer.buf)
      ensures Taken() == old(Taken()) + AcceptedOne(capacity, Message(itch))
    {
      if !mdOpen {
        Open();
      }
      var ok := Offer(itch);
      if !ok {
        StartOver(itch);
      }
    }

    /** Tries the open packet; a refused message leaves everything as it was. */
    method Offer(itch: Bytes) returns (ok: bool)
      requires Valid() && mdOpen
      modifies packer, packer.buf
      ensures Valid() && packer.buf == old(packer.buf) && Taken() == old(Taken()) + if ok then [itch] else []
      ensures ok ==> HEADER + 2 + |itch| <= capacity
      ensures !ok && old(packer.len) == HEADER && old(packer.pending) == [] ==> HEADER + 2 + |itch| > capacity
    {
      ok := packer.Append(itch);
    }

    method StartOver(itch: Bytes)
      requires Valid() && 1 + |Taken()| < Span(SEQ_BYTES)
      modifies this, packer, packer.buf
      ensures Valid() && packer.buf == old(packer.buf)
      ensures Taken() == old(Taken()) + AcceptedOne(capacity, Message(itch))
    {
      FlushMarketData();
      Open();
      var ok := Offer(itch);
    }

    method Do(op: Op)
      requires Valid() && 1 + |Taken()| < Span(SEQ_BYTES)
      modifies this, packer, packer.buf
      ensures Valid() && packer.buf == old(packer.buf)
      ensures Taken() == old(Taken()) + AcceptedOne(capacity, op)
    {
      match op {
        case Message(m) => AppendMarketData(m);
        case Flush => FlushMarketData();
      }
    }

    /** Any interleaving of messages and flushes, then a last flush: the packets carry exactly the accepted messages. */
    method Publish(ops: seq<Op>)
      requires Valid() && Taken() == [] && |ops| + 1 < Span(SEQ_BYTES)
      modifies this, packer, packer.buf
      ensures Valid() && Carries(sent, Accepted(capacity, ops))
    {
      var i := 0;
      while i < |ops|
        invariant 0 <= i <= |ops| && Valid() && packer.buf == old(packer.buf)
        invariant Taken() == Accepted(capacity, ops[..i]) && |Taken()| <= i
      {
        AcceptedSnoc(capacity, ops, i);
        Do(ops[i]);
        i := i + 1;
      }
      assert ops[..i] == ops;
      FlushMarketData();
    }
  }

  // ---- the receiver

  datatype Verdict = InOrder | Gap | Stale

  class SequenceTracker {
    var expected: nat
    var gaps: nat
    var missed: nat
    var stale: nat
    var started: bool

    constructor ()
      ensures !started && gaps == 0 && missed == 0 && stale == 0
    {
      expected, gaps, missed, stale, started := 0, 0, 0, 0, false;
    }

    /** Until the 64-bit numbers wrap `expected` never moves back, and only numbers never seen are counted as missed. */
    method OnPacket(seqNo: nat, count: nat) returns (v: Verdict)
      modifies this
      ensures started
      ensures var advance := if count == 0 || count == END_OF_SESSION then 0 else count;
              var next := Low64(seqNo + advance);
              && expected == (if v == Stale then old(expected) else next)
              && (v == InOrder <==>
                    !old(started) || seqNo == old(expected)
                        || (seqNo < old(expected) && advance > 0 && next > old(expected)))
              && (old(started) && seqNo + advance < TWO64 ==> expected >= old(expected))
              && (old(started) && seqNo + advance < TWO64 && v == Stale ==> seqNo + advance <= old(expected))
      ensures v == Gap <==> old(started) && seqNo > old(expected)
      ensures gaps == old(gaps) + (if v == Gap then 1 else 0) && stale == old(stale) + (if v == Stale then 1 else 0)
      ensures missed == old(missed) + if v == Gap then seqNo - old(expected) else 0
    {
      var carries := count != 0 && count != END_OF_SESSION;
      var advance := if carries then count else 0;
      if !started {
        started, expected := true, Low64(seqNo + advance);
        return InOrder;
      }
      if seqNo == expected {
        expected := Low64(expected + advance);
        return InOrder;
      }
      if seqNo > expected {
        gaps, missed, expected := gaps + 1, missed + (seqNo - expected), Low64(seqNo + advance);
        return Gap;
      }
      if carries && Low64(seqNo + advance) > expected {
        expected := Low64(seqNo + advance);
        return InOrder;
      }
      stale := stale + 1;
      return Stale;
    }

    ghost function Faults(): (nat, nat, nat)
      reads this
    {
      (gaps, missed, stale)
    }

    /** Packet i of a contiguous run. */
    method ReceiveAt(pkts: seq<Bytes>, ghost first: nat, ghost next: nat, i: nat)
      returns (v: Verdict, ms: seq<Numbered>)
      requires Chain(pkts, first, next) && i < |pkts| && (started ==> Ready(pkts, first, next, i, expected))
      modifies this
      ensures v == InOrder && ms == Decode(pkts[i]) && Faults() == old(Faults())
      ensures started && Ready(pkts, first, next, i + 1, expected)
    {
      assert Look(PacketSeal, 0);
      ChainStep(pkts, first, next, i);
      v := OnPacket(SequenceOf(pkts[i]), CountOf(pkts[i]));
      ghost var offs;
      ms, offs := ForEachMessage(pkts[i]);
    }

    /** A contiguous run of packets is in order throughout and yields the stream. */
    method Receive(pkts: seq<Bytes>, ghost first: nat, ghost next: nat)
      returns (out: seq<Numbered>, verdicts: seq<Verdict>)
      requires Contiguous(pkts, first, next) && (started ==> expected == first)
      modifies this
      ensures out == Stream(pkts) && |verdicts| == |pkts| && forall i :: 0 <= i < |pkts| ==> verdicts[i] == InOrder
      ensures (pkts != [] ==> started && expected == Low64(next)) && Faults() == old(Faults())
    {
      out, verdicts := [], [];
      var i := 0;
      ChainStart(pkts, first, next);
      while i < |pkts|
        invariant 0 <= i == |verdicts| <= |pkts| && out == Stream(pkts[..i])
        invariant forall j :: 0 <= j < i ==> verdicts[j] == InOrder
        invariant Faults() == old(Faults()) && (i > 0 ==> started)
        invariant started ==> Ready(pkts, first, next, i, expected)
      {
        StreamSnoc(pkts, i);
        var v, ms := ReceiveAt(pkts, first, next, i);
        out, verdicts := out + ms, verdicts + [v];
        i := i + 1;
      }
      assert pkts[..i] == pkts;
      assert Look(PacketSeal, 0);
    }
  }

  /** Where packet i starts; past the last packet, where the run ends. */
  function StartOf(pkts: seq<Bytes>, first: nat, next: nat, i: nat): nat {
    if pkts == [] then first else if i >= |pkts| then next else if |pkts[i]| < HEADER then 0 else SequenceOf(pkts[i])
  }

  /** What the tracker expects before packet i. */
  function Due(pkts: seq<Bytes>, first: nat, next: nat, i: nat): nat {
    if i == 0 then first else Low64(StartOf(pkts, first, next, i))
  }

  ghost predicate Ready(pkts: seq<Bytes>, first: nat, next: nat, i: nat, expected: nat) {
    forall k: nat {:trigger Look(PacketSeal, k)} :: Look(PacketSeal, k) ==> expected == Due(pkts, first, next, i)
  }

  ghost predicate Chain(pkts: seq<Bytes>, first: nat, next: nat) {
    forall k: nat {:trigger Look(PacketSeal, k)} :: Look(PacketSeal, k) ==> Linked(pkts, first, next)
  }

  ghost predicate Linked(pkts: seq<Bytes>, first: nat, next: nat) {
    && StartOf(pkts, first, next, 0) == first
    && forall i {:trigger pkts[i]} :: 0 <= i < |pkts| ==>
         && |pkts[i]| >= HEADER && 0 < CountOf(pkts[i]) < END_OF_SESSION
         && StartOf(pkts, first, next, i + 1) == SequenceOf(pkts[i]) + CountOf(pkts[i])
  }

  /** Read forwards: each packet ends where the one after it starts. */
  lemma {:induction false} ContiguousLinked(pkts: seq<Bytes>, first: nat, next: nat)
    requires Contiguous(pkts, first, next)
    ensures Linked(pkts, first, next)
    decreases |pkts|
  {
    if pkts != [] {
      var n := |pkts| - 1;
      var front, last := pkts[..n], SequenceOf(pkts[n]);
      ContiguousLinked(front, first, last);
      forall i | 0 <= i < |pkts|
        ensures |pkts[i]| >= HEADER && 0 < CountOf(pkts[i]) < END_OF_SESSION
        ensures StartOf(pkts, first, next, i + 1) == SequenceOf(pkts[i]) + CountOf(pkts[i])
      {
        if i < n {
          assert front[i] == pkts[i];
          assert StartOf(front, first, last, i + 1) == StartOf(pkts, first, next, i + 1);
        }
      }
      assert StartOf(front, first, last, 0) == StartOf(pkts, first, next, 0);
    }
  }

  lemma ChainStart(pkts: seq<Bytes>, first: nat, next: nat)
    requires Contiguous(pkts, first, next)
    ensures Chain(pkts, first, next) && StartOf(pkts, first, next, 0) == first
  {
    ContiguousLinked(pkts, first, next);
  }

  lemma ChainLink(pkts: seq<Bytes>, first: nat, next: nat, i: nat)
    requires Chain(pkts, first, next) && i < |pkts|
    ensures |pkts[i]| >= HEADER && 0 < CountOf(pkts[i]) < END_OF_SESSION
            && SequenceOf(pkts[i]) == StartOf(pkts, first, next, i) < TWO64
    ensures StartOf(pkts, first, next, i + 1) == SequenceOf(pkts[i]) + CountOf(pkts[i])
            && (i == 0 ==> SequenceOf(pkts[i]) == first)
  {
    assert Look(PacketSeal, 0);
    SequenceFits(pkts[i]);
  }

  lemma ChainStep(pkts: seq<Bytes>, first: nat, next: nat, i: nat)
    requires Chain(pkts, first, next) && i < |pkts|
    ensures |pkts[i]| >= HEADER && 0 < CountOf(pkts[i]) < END_OF_SESSION
            && SequenceOf(pkts[i]) == Due(pkts, first, next, i)
    ensures Due(pkts, first, next, i + 1) == Low64(SequenceOf(pkts[i]) + CountOf(pkts[i]))
  {
    ChainLink(pkts, first, next, i);
  }

  lemma StreamSnoc(pkts: seq<Bytes>, i: nat)
    requires i < |pkts|
    ensures Stream(pkts[..i + 1]) == Stream(pkts[..i]) + Decode(pkts[i])
  {
    assert pkts[..i + 1][..i] == pkts[..i];
  }

  /** Sender to receiver: any stream of short messages, flushed anywhere, arrives whole, in order and without a gap. */
  method Deliver(session: Bytes, configured: nat, frame: nat, ops: seq<Op>)
    returns (out: seq<Numbered>, verdicts: seq<Verdict>)
    requires |session| == SESSION_LEN && |ops| + 1 < Span(SEQ_BYTES)
    ensures out == Number(1, Accepted(MdCapacity(configured, frame), ops))
    ensures (forall i :: 0 <= i < |ops| && ops[i].Message? ==> |ops[i].msg| <= 62) ==> out == Number(1, Messages(ops))
    ensures forall i :: 0 <= i < |verdicts| ==> verdicts[i] == InOrder
  {
    var sender := new MdSession(session, configured, frame);
    sender.Publish(ops);
    CarriesMeans(sender.sent, Accepted(sender.capacity, ops));
    var tracker := new SequenceTracker();
    out, verdicts := tracker.Receive(sender.sent, 1, 1 + |Accepted(sender.capacity, ops)|);
    if forall i :: 0 <= i < |ops| && ops[i].Message? ==> |ops[i].msg| <= 62 {
      ShortAccepted(sender.capacity, ops);
    }
  }
}
