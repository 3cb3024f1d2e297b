/** The length-prefixed stream of rasp/node/client.js: onData takes apart what postMessage framed,
    however the stream was cut. */
module FrameStream {
  import opened Bytes

  const HEADER_SIZE: nat := 4

  /** readUInt32BE */
  function ReadBE(b: seq<byte>): nat
    requires |b| >= 4
  {
    ((b[0] as int * 256 + b[1] as int) * 256 + b[2] as int) * 256 + b[3] as int
  }

  /** writeUInt32BE */
  function WriteBE(n: nat): (r: seq<byte>)
    requires n < TWO32
    ensures |r| == 4
  {
    [n / 0x100_0000, n / 0x1_0000 % 256, n / 256 % 256, n % 256]
  }

  lemma ReadWrite(n: nat, rest: seq<byte>)
    requires n < TWO32
    ensures ReadBE(WriteBE(n) + rest) == n
  {
    var a := n / 256;
    var b := a / 256;
    assert n / 0x1_0000 == b && n / 0x100_0000 == b / 256;
  }

  lemma WriteRead(b: seq<byte>)
    requires |b| == 4
    ensures ReadBE(b) < TWO32 && WriteBE(ReadBE(b)) == b
  {
    var x, y := b[0] as int * 256 + b[1] as int, b[2] as int * 256 + b[3] as int;
    assert ReadBE(b) == x * 0x1_0000 + y;
    Halves(x, y);
    Quarters(b[0] as int, b[1] as int);
    Quarters(b[2] as int, b[3] as int);
  }

  lemma Halves(x: nat, y: nat)
    requires x < 0x1_0000 && y < 0x1_0000
    ensures var n := x * 0x1_0000 + y;
      n < TWO32 && n / 0x1_0000 == x && n / 0x100_0000 == x / 256 && n / 256 % 256 == y / 256 && n % 256 == y % 256
  {
  }

  lemma Quarters(x: nat, y: nat)
    requires x < 256 && y < 256
    ensures (x * 256 + y) / 256 == x && (x * 256 + y) % 256 == y
  {
  }

  /** The order of the bytes as they stand on the wire. */
  predicate WireLess(a: seq<byte>, b: seq<byte>)
    requires |a| == |b|
  {
    |a| > 0 && (a[0] < b[0] || (a[0] == b[0] && WireLess(a[1..], b[1..])))
  }

  /** The greater number has the greater bytes, the first of them counting most.  With the two round
      trips this leaves big endian only. */
  lemma BigEndian(a: seq<byte>, b: seq<byte>)
    requires |a| == 4 && |b| == 4
    ensures ReadBE(a) < ReadBE(b) <==> WireLess(a, b)
  {
    assert WireLess(a[1..], b[1..]) <==>
      a[1] < b[1] || (a[1] == b[1] && (a[2] < b[2] || (a[2] == b[2] && a[3] < b[3])))
    by {
      assert a[1..][1..] == a[2..] && b[1..][1..] == b[2..] && a[2..][1..] == a[3..] && b[2..][1..] == b[3..];
      assert WireLess(a[3..], b[3..]) <==> a[3] < b[3];
    }
  }

  lemma BigEndianWritten(n: nat, m: nat)
    requires n < TWO32 && m < TWO32
    ensures n < m <==> WireLess(WriteBE(n), WriteBE(m))
  {
    hide ReadBE, WriteBE;
    ReadWrite(n, []);
    ReadWrite(m, []);
    assert WriteBE(n) + [] == WriteBE(n) && WriteBE(m) + [] == WriteBE(m);
    BigEndian(WriteBE(n), WriteBE(m));
  }

  /** A whole frame stands at the front of the buffer. */
  predicate Complete(b: seq<byte>) { |b| >= HEADER_SIZE && |b| >= ReadBE(b) + HEADER_SIZE }

  function FrameSize(b: seq<byte>): nat
    requires Complete(b)
  {
    HEADER_SIZE + ReadBE(b)
  }

  /** The payloads of a stream, and the incomplete frame left at its end. */
  function Payloads(b: seq<byte>): seq<seq<byte>> {
    if Complete(b) then [b[HEADER_SIZE..FrameSize(b)]] + Payloads(b[FrameSize(b)..]) else []
  }

  function Rest(b: seq<byte>): seq<byte> { if Complete(b) then Rest(b[FrameSize(b)..]) else b }

  class Client {
    var buffer: seq<byte>
    ghost var emitted: seq<seq<byte>>

    constructor ()
      ensures buffer == [] && emitted == []
    {
      buffer, emitted := [], [];
    }

    /** onData, with the emitted payloads in their order. */
    method OnData(data: seq<byte>) returns (messages: seq<seq<byte>>)
      modifies this
      ensures messages == Payloads(old(buffer) + data) && buffer == Rest(old(buffer) + data)
      ensures emitted == old(emitted) + messages
    {
      buffer := buffer + data;
      messages := [];
      ghost var all := buffer;
      while true
        invariant messages + Payloads(buffer) == Payloads(all) && Rest(buffer) == Rest(all) && emitted == old(emitted)
        decreases |buffer|
      {
        if |buffer| < HEADER_SIZE { break; }
        var length := ReadBE(buffer);
        if |buffer| < length + HEADER_SIZE { break; }
        var message := buffer[HEADER_SIZE..HEADER_SIZE + length];
        assert messages + Payloads(buffer) == messages + [message] + Payloads(buffer[HEADER_SIZE + length..]);
        messages := messages + [message];
        buffer := buffer[HEADER_SIZE + length..];
      }
      assert messages + [] == messages;
      emitted := emitted + messages;
    }
  }

  // ------------------------------------------------------------------------------------------
  // Cutting the stream does not matter.
  // ------------------------------------------------------------------------------------------

  lemma CompleteGrows(a: seq<byte>, b: seq<byte>)
    requires Complete(a)
    ensures Complete(a + b) && FrameSize(a + b) == FrameSize(a)
    ensures (a + b)[HEADER_SIZE..FrameSize(a)] == a[HEADER_SIZE..FrameSize(a)]
      && (a + b)[FrameSize(a)..] == a[FrameSize(a)..] + b
  {
  }

  lemma {:induction false} CutAnywhere(a: seq<byte>, b: seq<byte>)
    ensures Payloads(a + b) == Payloads(a) + Payloads(Rest(a) + b) && Rest(a + b) == Rest(Rest(a) + b)
    decreases |a|
  {
    if Complete(a) {
      CompleteGrows(a, b);
      CutAnywhere(a[FrameSize(a)..], b);
    } else {
      assert [] + Payloads(a + b) == Payloads(a + b);
    }
  }

  function Concat(chunks: seq<seq<byte>>): seq<byte> {
    if chunks == [] then [] else chunks[0] + Concat(chunks[1..])
  }

  /** What a client emits and keeps when the chunks come in one by one. */
  function Fed(buffer: seq<byte>, chunks: seq<seq<byte>>): (seq<seq<byte>>, seq<byte>)
    decreases |chunks|
  {
    if chunks == [] then ([], buffer)
    else
      var b := buffer + chunks[0];
      var (ms, r) := Fed(Rest(b), chunks[1..]);
      (Payloads(b) + ms, r)
  }

  /** For every way of cutting a stream into chunks: the same payloads in the same order, and the
      same incomplete rest, as for the uncut stream. */
  lemma {:induction false} ChunksDoNotMatter(buffer: seq<byte>, chunks: seq<seq<byte>>)
    requires !Complete(buffer)
    ensures Fed(buffer, chunks) == (Payloads(buffer + Concat(chunks)), Rest(buffer + Concat(chunks)))
    decreases |chunks|
  {
    if chunks == [] {
      assert buffer + [] == buffer;
    } else {
      var b, c := buffer + chunks[0], Concat(chunks[1..]);
      RestIncomplete(b);
      ChunksDoNotMatter(Rest(b), chunks[1..]);
      CutAnywhere(b, c);
      assert buffer + (chunks[0] + c) == b + c;
    }
  }

  lemma {:induction false} RestIncomplete(b: seq<byte>)
    ensures !Complete(Rest(b))
    decreases |b|
  {
    if Complete(b) { RestIncomplete(b[FrameSize(b)..]); }
  }

  /** The framing in postMessage. */
  function Framed(payload: seq<byte>): seq<byte>
    requires |payload| < TWO32
  {
    WriteBE(|payload|) + payload
  }

  /** What a short payload looks like on the wire. */
  lemma ShortFrame(p: seq<byte>)
    requires |p| < 256
    ensures Framed(p) == [0, 0, 0, |p|] + p
  {
  }

  function FramedAll(ps: seq<seq<byte>>): seq<byte>
    requires forall p :: p in ps ==> |p| < TWO32
  {
    if ps == [] then [] else Framed(ps[0]) + FramedAll(ps[1..])
  }

  /** onData inverts the framing, and an unfinished frame behind stays in the buffer. */
  lemma {:induction false} Inverts(ps: seq<seq<byte>>, tail: seq<byte>)
    requires (forall p :: p in ps ==> |p| < TWO32) && !Complete(tail)
    ensures Payloads(FramedAll(ps) + tail) == ps && Rest(FramedAll(ps) + tail) == tail
    decreases |ps|
  {
    hide Complete, FrameSize, Framed, ReadBE;
    if ps == [] {
      assert [] + tail == tail;
    } else {
      var p, more := ps[0], FramedAll(ps[1..]) + tail;
      assert FramedAll(ps) + tail == Framed(p) + more;
      hide FramedAll, Payloads, Rest;
      Inverts(ps[1..], tail);
      FirstPayload(p, more);
      assert [p] + ps[1..] == ps;
    }
  }

  lemma FirstPayload(p: seq<byte>, more: seq<byte>)
    requires |p| < TWO32
    ensures Payloads(Framed(p) + more) == [p] + Payloads(more) && Rest(Framed(p) + more) == Rest(more)
  {
    hide Complete, FrameSize, Framed, ReadBE;
    FrontFrame(p, more);
  }

  lemma FrontFrame(p: seq<byte>, more: seq<byte>)
    requires |p| < TWO32
    ensures var b := Framed(p) + more;
      Complete(b) && FrameSize(b) == 4 + |p| && b[HEADER_SIZE..FrameSize(b)] == p && b[FrameSize(b)..] == more
  {
    hide ReadBE, WriteBE;
    ReadWrite(|p|, p + more);
    assert Framed(p) + more == WriteBE(|p|) + (p + more);
  }
}
