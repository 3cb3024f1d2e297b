/** The agent's fast frame decoder, agent/plugin/plugin.go, and its agreement with the generated one. */
module Receive {
  import opened Bytes
  import opened Options
  import opened V = Varint
  import opened Wire
  import opened MessageLoop
  import opened Messages
  import opened Encoding
  import opened RoundTrips

  /** What ReceiveData does: a record and what is left of the stream, an error, or a slice bound
      below zero. */
  datatype Outcome = Received(rec: EncodedRecord, rest: seq<byte>, length: nat) | Failed(error: Error) | Panicked

  /** A varint and the one byte behind it, the tag of the next field. */
  datatype Scan = Scan(v: nat, eaten: nat, rest: seq<byte>)

  function VarintThenTag(s: seq<byte>): (r: Result<Scan>)
    ensures r.Ok? ==> r.value.v < TWO64
  {
    match V.Decode(s, 0)
    case Err(e) => Err(e)
    case Ok(x) => if x.next >= |s| then Err(UnexpectedEof) else Ok(Scan(x.v, x.next, s[x.next + 1..]))
  }

  /** The data field: its length varint is read and dropped, the frame length says how much follows. */
  function Payloads(s: seq<byte>, l: nat, te: nat, rec: EncodedRecord): (o: Outcome)
    ensures o.Received? ==> o.length == l
  {
    match V.Decode(s, 0)
    case Err(e) => Failed(e)
    case Ok(x) =>
      if l < te + x.next then Panicked
      else
        var ne := l - (te + x.next);
        if x.next + ne > |s| then Failed(UnexpectedEof)
        else Received(rec.(data := s[x.next..x.next + ne]), s[x.next + ne..], l)
  }

  function Frame(s: seq<byte>, pooled: EncodedRecord): Outcome {
    if |s| < 5 then Failed(UnexpectedEof)
    else
      var l := GetU32(s, 0);
      match VarintThenTag(s[5..])
      case Err(e) => Failed(e)
      case Ok(dt) =>
        match VarintThenTag(dt.rest)
        case Err(e) => Failed(e)
        case Ok(ts) =>
          var te := 1 + (dt.eaten + 1) + (ts.eaten + 1);
          var rec := pooled.(dataType := ToInt32(dt.v), timestamp := ToInt64(ts.v));
          if te < l then Payloads(ts.rest, l, te, rec) else Received(rec, ts.rest, l)
  }

  class Plugin {
    var stream: seq<byte>
    var txCnt: nat
    var txBytes: nat

    /** readVarint of agent/plugin/protocol.go, one byte of the stream at a time. */
    method ReadVarint() returns (r: Result<nat>, eaten: nat)
      modifies this`stream
      ensures r == match V.Decode(old(stream), 0) { case Ok(x) => Ok(x.v) case Err(e) => Err(e) }
      ensures r.Ok? ==> eaten == V.Decode(old(stream), 0).value.next && stream == old(stream)[eaten..]
    {
      hide V.Digits, V.After;
      ghost var d := stream;
      var varint: nat, p: nat, shift: nat := 0, 1, 0;
      ghost var full: nat, k: nat := 0, 10;
      eaten := 0;
      V.AfterNothing(V.Digits(d, 0, 10));
      while true
        invariant shift == 7 * (10 - k) && k <= 10 && varint == full % TWO64
        invariant eaten <= |d| && stream == d[eaten..]
        invariant V.Digits(d, 0, 10) == V.After(full, p, V.Digits(d, eaten, k))
        decreases k
      {
        V.NoDigits(d, eaten, k, full, p);
        if shift >= 64 { return Err(Overflow), eaten; }
        if |stream| == 0 { return Err(UnexpectedEof), eaten; }
        var b := stream[0];
        var x := b % 128 * p;
        V.ShiftedIn(full, varint, x);
        V.MoreDigits(d, eaten, k, full, p, x);
        stream := stream[1..];
        eaten := eaten + 1;
        varint := (varint + x) % TWO64;
        if b < 128 { return Ok(varint), eaten; }
        full, k := full + x, k - 1;
        p, shift := 128 * p, shift + 7;
      }
    }

    /** Discard(1) */
    method DiscardOne() returns (ok: bool)
      modifies this`stream
      ensures ok == (|old(stream)| > 0) && (ok ==> stream == old(stream)[1..])
    {
      ok := |stream| > 0;
      if ok { stream := stream[1..]; }
    }

    /** One varint field and the tag of the next. */
    method ReadField() returns (r: Result<nat>, eaten: nat)
      modifies this`stream
      ensures match VarintThenTag(old(stream))
        case Err(e) => r == Err(e)
        case Ok(x) => r == Ok(x.v) && eaten == x.eaten && stream == x.rest
    {
      hide V.Decode;
      ghost var s := stream;
      r, eaten := ReadVarint();
      if r.Err? { return; }
      var ok := DiscardOne();
      if !ok { return Err(UnexpectedEof), eaten; }
      assert stream == s[eaten + 1..];
    }

    /** The length varint of the data field, and as many bytes as the frame has left. */
    method ReadData(l: nat, te: nat, rec: EncodedRecord) returns (o: Outcome)
      modifies this`stream
      ensures o == Payloads(old(stream), l, te, rec) && (o.Received? ==> stream == o.rest)
    {
      hide V.Decode;
      ghost var s := stream;
      var n, e := ReadVarint();
      if n.Err? { return Failed(n.error); }
      if l < te + e { return Panicked; }
      var ne := l - (te + e);
      if |stream| < ne { return Failed(UnexpectedEof); }
      assert s[e..][..ne] == s[e..e + ne] && s[e..][ne..] == s[e + ne..];
      o := Received(rec.(data := stream[..ne]), stream[ne..], l);
      stream := stream[ne..];
    }

    /** ReceiveData, into a pooled record whose old contents may be anything. */
    method ReceiveData(pooled: EncodedRecord) returns (o: Outcome)
      modifies this
      ensures o == Frame(old(stream), pooled)
      ensures o.Received? ==>
        stream == o.rest && txCnt == (old(txCnt) + 1) % TWO64 && txBytes == (old(txBytes) + o.length) % TWO64
      ensures !o.Received? ==> txCnt == old(txCnt) && txBytes == old(txBytes)
    {
      hide VarintThenTag, Payloads, GetU32;
      if |stream| < 4 { return Failed(UnexpectedEof); }
      var l := GetU32(stream, 0);
      stream := stream[4..];
      var ok := DiscardOne();
      if !ok { return Failed(UnexpectedEof); }
      assert stream == old(stream)[5..];
      var te := 1;
      var dt, e := ReadField();
      if dt.Err? { return Failed(dt.error); }
      te := te + e + 1;
      var rec := pooled.(dataType := ToInt32(dt.value));
      var ts;
      ts, e := ReadField();
      if ts.Err? { return Failed(ts.error); }
      te := te + e + 1;
      rec := rec.(timestamp := ToInt64(ts.value));
      o := Received(rec, stream, l);
      if te < l { o := ReadData(l, te, rec); }
      if o.Received? { txCnt, txBytes := (txCnt + 1) % TWO64, (txBytes + l) % TWO64; }
    }
  }

  // ------------------------------------------------------------------------------------------
  // Agreement.
  // ------------------------------------------------------------------------------------------

  lemma VarintThenTagReads(v: nat, tag: byte, rest: seq<byte>)
    requires v < TWO64
    ensures VarintThenTag(V.Encode(v) + ([tag] + rest)) == Ok(Scan(v, |V.Encode(v)|, rest))
  {
    hide V.Decode, V.Encode;
    var s := V.Encode(v) + ([tag] + rest);
    V.RoundTrip(s, 0, v);
    assert s[|V.Encode(v)| + 1..] == rest;
  }

  /** A frame as the plugin library writes it: the length of the Record in four bytes, then the Record. */
  function FrameBytes(r: seq<byte>): seq<byte>
    requires |r| < TWO32
  {
    Word(|r|) + r
  }

  lemma RecordSpelled(m: Record, data: seq<byte>, more: seq<byte>)
    requires m.dataType != 0 && m.timestamp != 0 && m.data.Some?
    ensures RecordBytes(m, data) + more == [0x8] + (V.Encode(Unsigned(m.dataType)) + ([0x10]
      + (V.Encode(Unsigned(m.timestamp)) + ([0x1a] + (LengthPrefixed(data) + more)))))
  {
    hide V.Encode, LengthPrefixed;
    var x, y, z := V.Encode(Unsigned(m.dataType)), V.Encode(Unsigned(m.timestamp)), LengthPrefixed(data);
    assert RecordBytes(m, data) == [0x8] + x + ([0x10] + y) + ([0x1a] + z);
  }

  lemma FrameShape(m: Record, data: seq<byte>, more: seq<byte>)
    requires m.dataType != 0 && m.timestamp != 0 && m.data.Some? && |RecordBytes(m, data)| < TWO32
    ensures var s := FrameBytes(RecordBytes(m, data)) + more;
      var t := V.Encode(Unsigned(m.timestamp)) + ([0x1a] + (LengthPrefixed(data) + more));
      && |s| >= 5 && GetU32(s, 0) == |RecordBytes(m, data)| && s[5..] == V.Encode(Unsigned(m.dataType)) + ([0x10] + t)
  {
    hide V.Encode, Word, GetU32, RecordBytes, LengthPrefixed;
    var l := |RecordBytes(m, data)|;
    var s := FrameBytes(RecordBytes(m, data)) + more;
    var t := V.Encode(Unsigned(m.timestamp)) + ([0x1a] + (LengthPrefixed(data) + more));
    assert s[0..4] == Word(l);
    WordReads(s, 0, l);
    RecordSpelled(m, data, more);
    assert s == Word(l) + (RecordBytes(m, data) + more);
    assert s[5..] == (RecordBytes(m, data) + more)[1..];
  }

  /** For every Record with nonzero type and time stamp and a payload, ReceiveData takes exactly the
      four length bytes and the Record off the stream, and yields its type, its time stamp and the
      bytes of its payload, whatever the pooled record held. */
  lemma ReceivesFrame(m: Record, data: seq<byte>, more: seq<byte>, pooled: EncodedRecord)
    requires m.dataType != 0 && m.timestamp != 0 && m.data.Some? && |RecordBytes(m, data)| < TWO32
    ensures Frame(FrameBytes(RecordBytes(m, data)) + more, pooled)
      == Received(EncodedRecord(m.dataType, m.timestamp, data), more, |RecordBytes(m, data)|)
  {
    hide V.Decode, V.Encode, VarintThenTag, Payloads, Word, GetU32;
    var dt, ts := Unsigned(m.dataType), Unsigned(m.timestamp);
    FrameShape(m, data, more);
    VarintThenTagReads(dt, 0x10, V.Encode(ts) + ([0x1a] + (LengthPrefixed(data) + more)));
    VarintThenTagReads(ts, 0x1a, LengthPrefixed(data) + more);
    SignedRoundTrip(m.dataType);
    SignedRoundTrip(m.timestamp);
    var te, l := 3 + |V.Encode(dt)| + |V.Encode(ts)|, |RecordBytes(m, data)|;
    PayloadsRead(data, more, l, te, EncodedRecord(m.dataType, m.timestamp, pooled.data));
  }

  lemma PayloadsRead(data: seq<byte>, more: seq<byte>, l: nat, te: nat, rec: EncodedRecord)
    requires |data| < TWO64 && l == te + |LengthPrefixed(data)|
    ensures Payloads(LengthPrefixed(data) + more, l, te, rec) == Received(rec.(data := data), more, l)
  {
    hide V.Decode, V.Encode;
    var s, e := LengthPrefixed(data) + more, V.Encode(|data|);
    assert s[0..|e|] == e;
    V.RoundTrip(s, 0, |data|);
    assert s[|e|..|e| + |data|] == data && s[|e| + |data|..] == more;
  }

  // ------------------------------------------------------------------------------------------
  // Any stream at all.
  // ------------------------------------------------------------------------------------------

  /** Behind four length bytes and a tag a varint x, a tag, a varint y and a tag, all there. */
  predicate Begins(s: seq<byte>, x: Read, y: Read) {
    && |s| >= 5 && V.Decode(s, 5) == Ok(x) && x.next < |s| && V.Decode(s, x.next + 1) == Ok(y) && y.next < |s|
  }

  lemma TailDecodes(s: seq<byte>, i: nat)
    requires i <= |s|
    ensures V.Decode(s[i..], 0) ==
      match V.Decode(s, i) { case Ok(x) => Ok(Read(x.v, x.next - i)) case Err(e) => Err(e) }
  {
    hide V.Decode;
    assert s == s[..i] + s[i..];
    V.Shift(s[..i], s[i..], 0);
  }

  lemma TailThenTag(s: seq<byte>, i: nat)
    requires i <= |s|
    ensures VarintThenTag(s[i..]) == match V.Decode(s, i) {
      case Err(e) => Err(e)
      case Ok(x) => if x.next >= |s| then Err(UnexpectedEof) else Ok(Scan(x.v, x.next - i, s[x.next + 1..])) }
  {
    hide V.Decode;
    TailDecodes(s, i);
    if V.Decode(s, i).Ok? && V.Decode(s, i).value.next < |s| {
      var x := V.Decode(s, i).value;
      assert s[i..][x.next - i + 1..] == s[x.next + 1..];
    }
  }

  /** ReceiveData on any stream that gets that far.  The third tag is its last byte so far, so a frame
      that is at most that long is taken with everything up to that tag, and the data of the pooled
      record stay; a longer one is taken exactly, and its data are what stands behind their length. */
  lemma FrameExactly(s: seq<byte>, pooled: EncodedRecord, x: Read, y: Read)
    requires Begins(s, x, y)
    ensures var l, at := GetU32(s, 0), y.next + 1;
      var rec := pooled.(dataType := ToInt32(x.v), timestamp := ToInt64(y.v));
      Frame(s, pooled) ==
        if at >= 4 + l then Received(rec, s[at..], l)
        else
          match V.Decode(s, at)
          case Err(e) => Failed(e)
          case Ok(z) =>
            if 4 + l < z.next then Panicked
            else if 4 + l > |s| then Failed(UnexpectedEof)
            else Received(rec.(data := s[z.next..4 + l]), s[4 + l..], l)
  {
    hide V.Decode, VarintThenTag, GetU32;
    TailThenTag(s, 5);
    TailThenTag(s, x.next + 1);
    var at := y.next + 1;
    TailDecodes(s, at);
    if V.Decode(s, at).Ok? {
      var z, l := V.Decode(s, at).value, GetU32(s, 0);
      if z.next <= 4 + l <= |s| {
        assert s[at..][z.next - at..4 + l - at] == s[z.next..4 + l] && s[at..][4 + l - at..] == s[4 + l..];
      }
    }
  }

  /** The first or the second varint of a stream is too long. */
  predicate Overflows(s: seq<byte>) {
    && |s| >= 5
    && match V.Decode(s, 5) {
         case Err(e) => e == Overflow
         case Ok(x) => x.next < |s| && V.Decode(s, x.next + 1) == Err(Overflow)
       }
  }

  /** And on any other it fails: with an overflow of the varint it stopped at, or with the end of the stream. */
  lemma FrameFails(s: seq<byte>, pooled: EncodedRecord)
    requires forall x, y :: !Begins(s, x, y)
    ensures Frame(s, pooled) == Failed(if Overflows(s) then Overflow else UnexpectedEof)
  {
    hide V.Decode, VarintThenTag, GetU32;
    if |s| >= 5 {
      TailThenTag(s, 5);
      if V.Decode(s, 5).Ok? && V.Decode(s, 5).value.next < |s| {
        var x := V.Decode(s, 5).value;
        TailThenTag(s, x.next + 1);
        if V.Decode(s, x.next + 1).Ok? { assert !Begins(s, x, V.Decode(s, x.next + 1).value); }
      }
    }
  }

  /** A Record without a payload is not taken exactly: the first byte of the next frame goes with it, and
      the record received has the data of whatever the pooled record held before. */
  lemma WithoutPayload(m: Record, next: byte, more: seq<byte>, pooled: EncodedRecord)
    requires m.dataType != 0 && m.timestamp != 0 && m.data.None?
    ensures |RecordBytes(m, [])| < TWO32
    ensures Frame(FrameBytes(RecordBytes(m, [])) + ([next] + more), pooled)
      == Received(EncodedRecord(m.dataType, m.timestamp, pooled.data), more, |RecordBytes(m, [])|)
  {
    hide V.Decode, V.Encode, Word, GetU32, VarintThenTag;
    var dt, ts := Unsigned(m.dataType), Unsigned(m.timestamp);
    var a, b := V.Encode(dt), V.Encode(ts);
    TenBytes(dt);
    TenBytes(ts);
    var r := RecordBytes(m, []);
    assert r == [0x8] + a + ([0x10] + b);
    var s := FrameBytes(r) + ([next] + more);
    assert s[0..4] == Word(|r|);
    WordReads(s, 0, |r|);
    assert s[5..] == a + ([0x10] + (b + ([next] + more)));
    VarintThenTagReads(dt, 0x10, b + ([next] + more));
    VarintThenTagReads(ts, next, more);
    SignedRoundTrip(m.dataType);
    SignedRoundTrip(m.timestamp);
  }

  /** The four length bytes of a short frame. */
  lemma ShortFrameBytes(r: seq<byte>)
    requires |r| < 256
    ensures FrameBytes(r) == [|r|, 0, 0, 0] + r
  {
  }

  /** The generated decoder, given the same Record, agrees. */
  lemma AgreesWithUnmarshal(m: Record, data: seq<byte>, more: seq<byte>, pooled: EncodedRecord)
    requires m.dataType != 0 && m.timestamp != 0 && m.data.Some? && |RecordBytes(m, data)| < TWO32
    requires ParsePayload(data, NO_PAYLOAD) == Ok(m.data.value)
    ensures var o := Frame(FrameBytes(RecordBytes(m, data)) + more, pooled);
      && ParseRecord(RecordBytes(m, data), Record(0, 0, None)) == Ok(m)
      && o.Received? && o.rec.dataType == m.dataType && o.rec.timestamp == m.timestamp
      && ParsePayload(o.rec.data, NO_PAYLOAD) == Ok(m.data.value)
  {
    hide ParsePayload, ParseRecord, RecordBytes, Frame;
    ReceivesFrame(m, data, more, pooled);
    RecordReads(m, data);
  }

  /** Marshalling the received record again gives the Record's own bytes exactly if it has any data. */
  lemma ReMarshal(m: Record, data: seq<byte>)
    requires m.dataType != 0 && m.timestamp != 0 && m.data.Some?
    ensures EncodedBytes(EncodedRecord(m.dataType, m.timestamp, data)) == RecordBytes(m, data) <==> data != []
  {
    hide IntField;
    if data == [] {
      assert |RecordBytes(m, data)| > |EncodedBytes(EncodedRecord(m.dataType, m.timestamp, data))|;
    }
  }

  /** From the plugin to the server: a Record framed, received, packaged among others, marshalled and
      unmarshalled twice is the Record that was sent. */
  lemma EndToEnd(m: Record, ks: seq<text>, more: seq<byte>, pooled: EncodedRecord, p: PackagedData, i: nat)
    requires m.dataType != 0 && m.timestamp != 0 && m.data.Some? && Order(ks, m.data.value.fields)
    requires |RecordBytes(m, PayloadBytes(ks, m.data.value))| < TWO32
    requires var o := Frame(FrameBytes(RecordBytes(m, PayloadBytes(ks, m.data.value))) + more, pooled);
      o.Received? && i < |p.records| && p.records[i] == o.rec
    requires |PackagedBytes(p)| < TWO63
    ensures var q := ParsePackaged(PackagedBytes(p), NO_PACKAGE);
      && q.Ok? && i < |q.value.records|
      && q.value.records[i].dataType == m.dataType && q.value.records[i].timestamp == m.timestamp
      && ParsePayload(q.value.records[i].data, NO_PAYLOAD) == Ok(m.data.value)
  {
    hide ParsePayload, ParsePackaged, PackagedBytes, PayloadBytes, RecordBytes, Frame;
    var data := PayloadBytes(ks, m.data.value);
    RecordFits(m, data);
    PayloadRoundTrip(ks, m.data.value);
    ReceivesFrame(m, data, more, pooled);
    PackagedRoundTrip(p);
  }

  lemma RecordFits(m: Record, data: seq<byte>)
    requires m.data.Some?
    ensures |data| <= |RecordBytes(m, data)|
  {
    hide IntField;
  }
}
