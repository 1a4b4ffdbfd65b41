/** MoldUDP64 framing: a packet's bytes and what they decode to. */
module Mold {
  import opened Types

  type byte = x: int | 0 <= x < 256

  type Bytes = seq<byte>

  const HEADER: nat := 20
  const SEQ_BYTES: nat := 8
  const SESSION_LEN: nat := 10
  const END_OF_SESSION: nat := 0xFFFF

  // ---- big-endian numbers

  function Span(n: nat): (r: nat)
    ensures r >= 1
  {
    if n == 0 then 1 else 256 * Span(n - 1)
  }

  function BigEndian(v: nat, n: nat): (s: Bytes)
    ensures |s| == n
  {
    if n == 0 then [] else BigEndian(v / 256, n - 1) + [v % 256]
  }

  function Value(s: Bytes): nat {
    if s == [] then 0 else 256 * Value(s[..|s| - 1]) + s[|s| - 1]
  }

  /** A number that fits reads back as written. */
  lemma {:induction false} BigEndianValue(v: nat, n: nat)
    requires v < Span(n)
    ensures Value(BigEndian(v, n)) == v
  {
    if n > 0 {
      BigEndianValue(v / 256, n - 1);
      var s := BigEndian(v, n);
      assert s[..|s| - 1] == BigEndian(v / 256, n - 1);
    }
  }

  // ---- the wire form, byte by byte

  /** The number the two bytes at that place stand for, most significant first. */
  function TwoBytes(p: Bytes, at: nat): nat
    requires at + 2 <= |p|
  {
    (p[at] as int) * 0x100 + p[at + 1] as int
  }

  /** The number the eight bytes at that place stand for, most significant first. */
  function EightBytes(p: Bytes, at: nat): nat
    requires at + 8 <= |p|
  {
    TwoBytes(p, at) * 0x1_0000_0000_0000 + TwoBytes(p, at + 2) * 0x1_0000_0000
    + TwoBytes(p, at + 4) * 0x1_0000 + TwoBytes(p, at + 6)
  }

  /** From that place on, the bytes are the messages from i on, each behind its two-byte length, and nothing else. */
  ghost predicate Laid(p: Bytes, at: nat, ms: seq<Bytes>, i: nat)
    requires i <= |ms|
    decreases |ms| - i
  {
    if i == |ms| then at == |p|
    else
      && at + 2 + |ms[i]| <= |p| && TwoBytes(p, at) == |ms[i]| && p[at + 2..at + 2 + |ms[i]|] == ms[i]
      && Laid(p, at + 2 + |ms[i]|, ms, i + 1)
  }

  /** A whole packet: session, first sequence number, count, messages. */
  ghost predicate WirePacket(p: Bytes, session: Bytes, first: nat, ms: seq<Bytes>) {
    forall k: nat {:trigger Look(ReadSeal, k)} :: Look(ReadSeal, k) ==>
      |p| >= 20 && p[..10] == session && EightBytes(p, 10) == first && TwoBytes(p, 18) == |ms| && Laid(p, 20, ms, 0)
  }

  lemma WireMeans(p: Bytes, session: Bytes, first: nat, ms: seq<Bytes>)
    requires WirePacket(p, session, first, ms)
    ensures |p| >= 20 && p[..10] == session && EightBytes(p, 10) == first && TwoBytes(p, 18) == |ms|
            && Laid(p, 20, ms, 0)
  {
    assert Look(ReadSeal, 0);
  }

  lemma ValueTwo(p: Bytes, at: nat)
    requires at + 2 <= |p|
    ensures Value(p[at..at + 2]) == TwoBytes(p, at)
  {
    var s := p[at..at + 2];
    assert s[..1][..0] == [] && s[..1][0] == p[at];
    assert Value(s[..1]) == s[0];
  }

  lemma ValueJoin(s: Bytes, n: nat)
    requires n + 2 <= |s|
    ensures Value(s[..n + 2]) == Value(s[..n]) * 0x1_0000 + TwoBytes(s, n)
  {
    assert s[..n + 2][..n + 1] == s[..n + 1] && s[..n + 1][..n] == s[..n];
    assert Value(s[..n + 1]) == 256 * Value(s[..n]) + s[n];
  }

  lemma ValueEight(p: Bytes, at: nat)
    requires at + 8 <= |p|
    ensures Value(p[at..at + 8]) == EightBytes(p, at)
  {
    var s := p[at..at + 8];
    assert s[..0] == [] && s[..8] == s;
    ValueJoin(s, 0);
    ValueJoin(s, 2);
    ValueJoin(s, 4);
    ValueJoin(s, 6);
  }

  function U16(v: nat): (s: Bytes)
    ensures |s| == 2
  {
    BigEndian(v, 2)
  }

  lemma U16Value(v: nat)
    requires v < 0x1_0000
    ensures Value(U16(v)) == v
  {
    assert Span(2) == 0x1_0000;
    BigEndianValue(v, 2);
  }

  // ---- message blocks

  /** Each message behind its two-byte length. */
  function Frame(ms: seq<Bytes>): Bytes {
    if ms == [] then [] else Frame(ms[..|ms| - 1]) + Block(ms[|ms| - 1])
  }

  lemma FrameSnoc(ms: seq<Bytes>, m: Bytes)
    ensures Frame(ms + [m]) == Frame(ms) + Block(m)
  {
    assert (ms + [m])[..|ms|] == ms;
  }

  function Block(m: Bytes): Bytes {
    U16(|m|) + m
  }

  predicate Fits(ms: seq<Bytes>) {
    forall i :: 0 <= i < |ms| ==> |ms[i]| < 0x1_0000
  }

  /** What a reader takes from a body that claims count messages, stopping where the bytes run out. */
  function Parse(body: Bytes, count: nat): seq<Bytes>
    decreases count
  {
    if count == 0 || |body| < 2 then []
    else
      var len := Value(body[..2]);
      if |body| < 2 + len then [] else [body[2..2 + len]] + Parse(body[2 + len..], count - 1)
  }

  /** A framed message in front is read off first. */
  lemma ParseHead(m: Bytes, rest: Bytes, count: nat)
    requires |m| < 0x1_0000 && count > 0
    ensures Parse(Block(m) + rest, count) == [m] + Parse(rest, count - 1)
  {
    var body := Block(m) + rest;
    U16Value(|m|);
    assert body[..2] == U16(|m|);
    assert body[2..2 + |m|] == m;
    assert body[2 + |m|..] == rest;
  }

  lemma {:induction false} FrameHead(ms: seq<Bytes>)
    requires ms != []
    ensures Frame(ms) == Block(ms[0]) + Frame(ms[1..])
    decreases |ms|
  {
    var n := |ms| - 1;
    if n == 0 {
      assert ms[..0] == [] && ms[1..] == [];
    } else {
      FrameHead(ms[..n]);
      assert ms[..n][1..] == ms[1..][..n - 1];
      Regroup(Block(ms[0]), Frame(ms[1..][..n - 1]), Block(ms[n]));
    }
  }

  lemma Regroup(a: Bytes, b: Bytes, c: Bytes)
    ensures (a + b) + c == a + (b + c)
  {
  }

  /** Reading back a framed run gives the run. */
  lemma {:induction false} ParseFrame(ms: seq<Bytes>)
    requires Fits(ms)
    ensures Parse(Frame(ms), |ms|) == ms
    decreases |ms|
  {
    if ms != [] {
      FrameHead(ms);
      ParseHead(ms[0], Frame(ms[1..]), |ms|);
      ParseFrame(ms[1..]);
      assert [ms[0]] + ms[1..] == ms;
    }
  }

  // ---- packets

  datatype Numbered = Numbered(seqNo: nat, msg: Bytes)

  /** Messages numbered from first on, in 64 bits. */
  function Number(first: nat, ms: seq<Bytes>): (r: seq<Numbered>)
    ensures |r| == |ms|
  {
    seq(|ms|, i requires 0 <= i < |ms| => Numbered(Low64(first + i), ms[i]))
  }

  function Header(session: Bytes, first: nat, count: nat): (h: Bytes)
    requires |session| == SESSION_LEN
    ensures |h| == HEADER
  {
    session + BigEndian(first, SEQ_BYTES) + U16(count)
  }

  function Packet(session: Bytes, first: nat, ms: seq<Bytes>): (p: Bytes)
    requires |session| == SESSION_LEN
    ensures |p| >= HEADER
  {
    Header(session, first, |ms|) + Frame(ms)
  }

  function SequenceOf(p: Bytes): nat
    requires |p| >= HEADER
  {
    Value(p[10..18])
  }

  function CountOf(p: Bytes): nat
    requires |p| >= HEADER
  {
    Value(p[18..20])
  }

  lemma {:induction false} ValueBound(s: Bytes)
    ensures Value(s) < Span(|s|)
  {
    if s != [] {
      ValueBound(s[..|s| - 1]);
    }
  }

  lemma SequenceFits(p: Bytes)
    requires |p| >= HEADER
    ensures SequenceOf(p) < TWO64
  {
    ValueBound(p[10..18]);
    assert Span(4) == TWO32 && Span(8) == 0x1_0000_0000 * Span(4);
  }

  /** The messages of a packet with their sequence numbers; heartbeats and end-of-session carry none. */
  function Decode(p: Bytes): seq<Numbered> {
    if |p| < HEADER || CountOf(p) == 0 || CountOf(p) == END_OF_SESSION then []
    else Number(SequenceOf(p), Parse(p[HEADER..], CountOf(p)))
  }

  /** Sequence numbers fit their eight bytes and the count is neither of the two markers. */
  predicate Sendable(first: nat, ms: seq<Bytes>) {
    first < Span(SEQ_BYTES) && 1 <= |ms| < END_OF_SESSION && Fits(ms)
  }

  lemma HeaderLies(session: Bytes, first: nat, ms: seq<Bytes>)
    requires |session| == SESSION_LEN
    ensures var p := Packet(session, first, ms);
            && p[..10] == session && p[10..18] == BigEndian(first, SEQ_BYTES) && p[18..20] == U16(|ms|)
            && p[HEADER..] == Frame(ms)
  {
  }

  lemma HeaderReads(session: Bytes, first: nat, ms: seq<Bytes>)
    requires |session| == SESSION_LEN && Sendable(first, ms)
    ensures var p := Packet(session, first, ms);
            SequenceOf(p) == first && CountOf(p) == |ms| && p[HEADER..] == Frame(ms)
  {
    HeaderLies(session, first, ms);
    BigEndianValue(first, SEQ_BYTES);
    U16Value(|ms|);
  }

  /** Encoding then decoding is the identity, with contiguous sequence numbers. */
  lemma DecodePacket(session: Bytes, first: nat, ms: seq<Bytes>)
    requires |session| == SESSION_LEN && Sendable(first, ms)
    ensures Decode(Packet(session, first, ms)) == Number(first, ms)
  {
    HeaderReads(session, first, ms);
    ParseFrame(ms);
  }

  /** A framed message somewhere in the bytes. */
  lemma BlockLies(head: Bytes, m: Bytes, rest: Bytes)
    requires |m| < 0x1_0000
    ensures var p, at := head + (Block(m) + rest), |head|;
            && p == (head + Block(m)) + rest && |head + Block(m)| == at + 2 + |m| <= |p|
            && TwoBytes(p, at) == |m| && p[at + 2..at + 2 + |m|] == m
  {
    var p := head + (Block(m) + rest);
    U16Value(|m|);
    assert p[|head|..|head| + 2] == U16(|m|);
    ValueTwo(p, |head|);
  }

  /** The framed messages lie in the bytes one after the other. */
  lemma {:induction false} FrameLaid(head: Bytes, ms: seq<Bytes>, i: nat)
    requires Fits(ms) && i <= |ms|
    ensures Laid(head + Frame(ms[i..]), |head|, ms, i)
    decreases |ms| - i
  {
    if i < |ms| {
      var rest := Frame(ms[i + 1..]);
      assert ms[i..][1..] == ms[i + 1..];
      FrameHead(ms[i..]);
      BlockLies(head, ms[i], rest);
      FrameLaid(head + Block(ms[i]), ms, i + 1);
    } else {
      assert Frame(ms[i..]) == [];
    }
  }

  /** The bytes sent: numbers most significant byte first, messages in order behind their lengths. */
  lemma PacketWire(session: Bytes, first: nat, ms: seq<Bytes>)
    requires |session| == SESSION_LEN && first < TWO64 && |ms| < 0x1_0000 && Fits(ms)
    ensures WirePacket(Packet(session, first, ms), session, first, ms)
  {
    var p := Packet(session, first, ms);
    assert Span(4) == TWO32 && Span(8) == 0x1_0000_0000 * Span(4);
    BigEndianValue(first, SEQ_BYTES);
    U16Value(|ms|);
    HeaderLies(session, first, ms);
    ValueEight(p, 10);
    ValueTwo(p, 18);
    assert ms[0..] == ms;
    FrameLaid(Header(session, first, |ms|), ms, 0);
  }

  /** All bytes of the length-prefixed message at off are there. */
  predicate Whole(p: Bytes, off: nat) {
    off + 2 <= |p| && off + 2 + Value(p[off..off + 2]) <= |p|
  }

  /** The next message at off, if the bytes for it are all there. */
  method NextMessage(p: Bytes, off: nat) returns (ok: bool, next: nat, msg: Bytes)
    requires off <= |p|
    ensures ok <==> Whole(p, off)
    ensures ok <==> off + 2 <= |p| && off + 2 + TwoBytes(p, off) <= |p|
    ensures ok ==>
              && next == off + 2 + Value(p[off..off + 2]) == off + 2 + TwoBytes(p, off)
              && msg == p[off + 2..next]
    ensures !ok ==> next == off
  {
    if off + 2 <= |p| {
      ValueTwo(p, off);
    }
    ok, next, msg := false, off, [];
    if off + 2 > |p| {
      return;
    }
    var len := Value(p[off..off + 2]);
    if off + 2 + len > |p| {
      return;
    }
    ok, next, msg := true, off + 2 + len, p[off + 2..off + 2 + len];
  }

  /** What is there to be read at off. */
  lemma ParseAt(p: Bytes, off: nat, count: nat)
    requires off <= |p| && count > 0
    ensures !Whole(p, off) ==> Parse(p[off..], count) == []
    ensures Whole(p, off) ==>
              var next := off + 2 + Value(p[off..off + 2]);
              Parse(p[off..], count) == [p[off + 2..next]] + Parse(p[next..], count - 1)
  {
    if off + 2 <= |p| {
      assert p[off..][..2] == p[off..off + 2];
      var next := off + 2 + Value(p[off..off + 2]);
      if next <= |p| {
        assert p[off..][2..next - off] == p[off + 2..next];
        assert p[off..][next - off..] == p[next..];
      }
    }
  }

  /**
   * What the bytes of a packet say, read most significant byte first: the sequence number at 10, the count at
   * 18, the first message at 20, each message behind its two-byte length, numbered on from the sequence
   * number; reading ends with the count or where the bytes run out. A count of 0 or 0xFFFF carries nothing.
   */
  ghost predicate Says(p: Bytes, out: seq<Numbered>, offs: seq<nat>) {
    if |p| < 20 || TwoBytes(p, 18) == 0 || TwoBytes(p, 18) == 0xFFFF then out == []
    else Body(p, EightBytes(p, 10), TwoBytes(p, 18), out, offs)
  }

  ghost predicate Body(p: Bytes, first: nat, count: nat, out: seq<Numbered>, offs: seq<nat>) {
    && Blocks(p, first, out, offs) && |out| <= count
    && (|out| == count || |p| < offs[|out|] + 2 || |p| < offs[|out|] + 2 + TwoBytes(p, offs[|out|]))
  }

  /** Message i lies between two offsets, behind its length. */
  ghost predicate Blocks(p: Bytes, first: nat, out: seq<Numbered>, offs: seq<nat>) {
    && |offs| == |out| + 1 && offs[0] == 20
    && forall i :: 0 <= i < |out| ==> BlockAt(p, offs[i], offs[i + 1], Low64(first + i), out[i])
  }

  ghost predicate BlockAt(p: Bytes, at: nat, next: nat, seqNo: nat, m: Numbered) {
    at + 2 <= next <= |p| && TwoBytes(p, at) == next - at - 2 && m == Numbered(seqNo, p[at + 2..next])
  }

  /** The messages handed to the reader, one by one. */
  method ForEachMessage(p: Bytes) returns (out: seq<Numbered>, ghost offs: seq<nat>)
    ensures out == Decode(p) && Says(p, out, offs)
  {
    out, offs := [], [];
    if |p| < HEADER {
      return;
    }
    var first, count := SequenceOf(p), CountOf(p);
    ValueTwo(p, 18);
    ValueEight(p, 10);
    if count == 0 || count == END_OF_SESSION {
      return;
    }
    out, offs := ReadBody(p, first, count);
  }

  /** After got, reading on at off gives the rest of what the packet's body holds. */
  ghost predicate Reading(p: Bytes, off: nat, got: seq<Bytes>, count: nat) {
    && HEADER <= off <= |p| && |got| <= count
    && forall k: nat {:trigger Look(ReadSeal, k)} :: Look(ReadSeal, k) ==>
         got + Parse(p[off..], count - |got|) == Parse(p[HEADER..], count)
  }

  lemma ReadingStart(p: Bytes, count: nat)
    requires |p| >= HEADER
    ensures Reading(p, HEADER, [], count)
  {
  }

  lemma ReadingStep(p: Bytes, off: nat, got: seq<Bytes>, count: nat)
    requires Reading(p, off, got, count) && |got| < count && Whole(p, off)
    ensures var next := off + 2 + Value(p[off..off + 2]); Reading(p, next, got + [p[off + 2..next]], count)
  {
    assert Look(ReadSeal, 0);
    ParseAt(p, off, count - |got|);
    var next := off + 2 + Value(p[off..off + 2]);
    var msg, rest := p[off + 2..next], Parse(p[next..], count - |got| - 1);
    RegroupMessages(got, [msg], rest);
  }

  lemma RegroupMessages(a: seq<Bytes>, b: seq<Bytes>, c: seq<Bytes>)
    ensures (a + b) + c == a + (b + c)
  {
  }

  /** Nothing is left to read. */
  lemma ReadingEnd(p: Bytes, off: nat, got: seq<Bytes>, count: nat)
    requires Reading(p, off, got, count) && (|got| == count || !Whole(p, off))
    ensures got == Parse(p[HEADER..], count)
  {
    assert Look(ReadSeal, 0);
    if |got| < count {
      ParseAt(p, off, count - |got|);
    }
  }

  method ReadBody(p: Bytes, first: nat, count: nat) returns (out: seq<Numbered>, ghost offs: seq<nat>)
    requires |p| >= HEADER
    ensures out == Number(first, Parse(p[HEADER..], count)) && Body(p, first, count, out, offs)
  {
    out, offs := [], [HEADER];
    var off := HEADER;
    ghost var got: seq<Bytes> := [];
    ReadingStart(p, count);
    while |out| < count
      invariant Reading(p, off, got, count) && out == Number(first, got)
      invariant Blocks(p, first, out, offs) && offs[|out|] == off
      decreases count - |out|
    {
      var ok, next, msg := NextMessage(p, off);
      if !ok {
        break;
      }
      ReadingStep(p, off, got, count);
      NumberSnoc(first, got, msg);
      BlocksSnoc(p, first, out, offs, next);
      out := out + [Numbered(Low64(first + |out|), msg)];
      got, off, offs := got + [msg], next, offs + [next];
    }
    ReadingEnd(p, off, got, count);
  }

  lemma BlocksSnoc(p: Bytes, first: nat, out: seq<Numbered>, offs: seq<nat>, next: nat)
    requires Blocks(p, first, out, offs) && offs[|out|] + 2 <= next <= |p|
    requires TwoBytes(p, offs[|out|]) == next - offs[|out|] - 2
    ensures Blocks(p, first, out + [Numbered(Low64(first + |out|), p[offs[|out|] + 2..next])], offs + [next])
  {
    var out', offs' := out + [Numbered(Low64(first + |out|), p[offs[|out|] + 2..next])], offs + [next];
    forall i | 0 <= i < |out'| ensures BlockAt(p, offs'[i], offs'[i + 1], Low64(first + i), out'[i]) {
      if i < |out| {
        assert BlockAt(p, offs[i], offs[i + 1], Low64(first + i), out[i]);
      }
    }
  }

  lemma NumberSnoc(first: nat, ms: seq<Bytes>, m: Bytes)
    ensures Number(first, ms + [m]) == Number(first, ms) + [Numbered(Low64(first + |ms|), m)]
  {
  }
}
