/** MarshalToSizedBuffer and Unmarshal of agent/proto/grpc.pb.go as they run: the writers fill a
    buffer from its end, the readers loop over an index. */
module Codec {
  import opened Bytes
  import opened Options
  import opened V = Varint
  import opened Wire
  import opened MessageLoop
  import opened Messages
  import opened Encoding
  import opened RoundTrips

  // ------------------------------------------------------------------------------------------
  // Writing backwards.
  // ------------------------------------------------------------------------------------------

  /** A length and a tag in front of what is already there. */
  method Announce(a: array<byte>, i: nat, tag: byte, n: nat) returns (j: nat)
    requires 1 + Sov(n) <= i <= a.Length
    modifies a
    ensures j == i - (1 + |V.Encode(n)|) && a[..] == Splice(old(a[..]), j, [tag] + V.Encode(n))
  {
    hide Splice, V.Encode, Sov;
    SovIsLength(n);
    ghost var was := a[..];
    j := EncodeVarint(a, i, n);
    SpliceFront(was, j, V.Encode(n), [tag]);
    j := j - 1;
    Put(a, j, tag);
  }

  method PutChunk(a: array<byte>, i: nat, tag: byte, s: seq<byte>) returns (j: nat)
    requires ChunkSize(|s|) <= i <= a.Length
    modifies a
    ensures j == i - |ChunkField(tag, s)| && a[..] == Splice(old(a[..]), j, ChunkField(tag, s))
  {
    hide Splice, V.Encode, Sov;
    SovIsLength(|s|);
    ghost var was := a[..];
    j := i - |s|;
    Copy(a, j, s);
    SpliceFront(was, j, s, [tag] + V.Encode(|s|));
    assert [tag] + V.Encode(|s|) + s == ChunkField(tag, s);
    j := Announce(a, j, tag, |s|);
  }

  method PutBytes(a: array<byte>, i: nat, tag: byte, s: seq<byte>) returns (j: nat)
    requires BytesSize(s) <= i <= a.Length
    modifies a
    ensures j == i - |BytesField(tag, s)| && a[..] == Splice(old(a[..]), j, BytesField(tag, s))
  {
    hide ChunkField, ChunkSize;
    j := i;
    SpliceNothing(a[..], i);
    if |s| > 0 { j := PutChunk(a, i, tag, s); }
  }

  method PutInt(a: array<byte>, i: nat, tag: byte, x: int64) returns (j: nat)
    requires IntSize(x) <= i <= a.Length
    modifies a
    ensures j == i - |IntField(tag, x)| && a[..] == Splice(old(a[..]), j, IntField(tag, x))
  {
    hide Splice, V.Encode, Sov;
    j := i;
    SpliceNothing(a[..], i);
    if x != 0 { j := Announce(a, i, tag, Unsigned(x)); }
  }

  method MarshalEncodedTo(m: EncodedRecord, a: array<byte>, end: nat) returns (j: nat)
    requires EncodedSize(m) <= end <= a.Length
    modifies a
    ensures j == end - |EncodedBytes(m)| && a[..] == Splice(old(a[..]), j, EncodedBytes(m))
  {
    hide Splice, IntField, BytesField, IntSize, BytesSize;
    ghost var was := a[..];
    ghost var x, y, z := IntField(0x8, m.dataType), IntField(0x10, m.timestamp), BytesField(0x1a, m.data);
    IntLength(0x8, m.dataType);
    IntLength(0x10, m.timestamp);
    BytesLength(0x1a, m.data);
    j := PutBytes(a, end, 0x1a, m.data);
    SpliceFront(was, j, z, y);
    j := PutInt(a, j, 0x10, m.timestamp);
    SpliceFront(was, j, y + z, x);
    j := PutInt(a, j, 0x8, m.dataType);
    assert x + (y + z) == EncodedBytes(m);
  }

  /** EncodedRecord.Marshal: the buffer of Size() bytes is filled exactly. */
  method MarshalEncoded(m: EncodedRecord) returns (out: seq<byte>)
    ensures out == EncodedBytes(m)
  {
    EncodedLength(m);
    hide Splice, EncodedBytes, EncodedSize;
    var size := EncodedSize(m);
    var a := new byte[size](_ => 0);
    SpliceWhole(a[..], EncodedBytes(m));
    var j := MarshalEncodedTo(m, a, size);
    out := a[..size - j];
  }

  lemma SpliceWhole(d: seq<byte>, b: seq<byte>)
    requires |d| == |b|
    ensures Splice(d, 0, b) == b
  {
  }

  // Payload: the map is walked in any order, last entry first.

  lemma {:induction false} FieldsAppend(ks: seq<text>, js: seq<text>, fields: map<text, text>)
    requires (forall k :: k in ks ==> k in fields) && (forall k :: k in js ==> k in fields)
    ensures (forall k :: k in ks + js ==> k in fields)
      && FieldsBytes(ks + js, fields) == FieldsBytes(ks, fields) + FieldsBytes(js, fields)
    decreases |ks|
  {
    hide ChunkField, EntryBytes;
    if ks == [] {
      assert ks + js == js;
    } else {
      assert (ks + js)[1..] == ks[1..] + js;
      FieldsAppend(ks[1..], js, fields);
    }
  }

  lemma {:induction false} SomeOrder(keys: set<text>) returns (ks: seq<text>)
    ensures Distinct(ks) && forall k :: k in ks <==> k in keys
    decreases keys
  {
    ks := [];
    if keys != {} {
      var k :| k in keys;
      var rest := SomeOrder(keys - {k});
      ks := [k] + rest;
    }
  }

  lemma DistinctTogether(ks: seq<text>, js: seq<text>)
    requires Distinct(ks) && Distinct(js) && forall k :: k in ks ==> k !in js
    ensures Distinct(ks + js)
  {
    forall i, j | 0 <= i < j < |ks + js| ensures (ks + js)[i] != (ks + js)[j] {
      if i < |ks| <= j { assert ks[i] in ks && js[j - |ks|] in js; }
    }
  }

  /** Whatever part js of the map is written, there is room for one entry more. */
  lemma RoomForEntry(m: Payload, js: seq<text>, todo: set<text>, k: text, room: nat)
    requires k in todo && todo <= m.fields.Keys && Distinct(js) && forall x :: x in js <==> x in m.fields && x !in todo
    requires forall ks :: Order(ks, m.fields) ==> |PayloadBytes(ks, m)| <= room
    ensures |FieldsBytes([k] + js, m.fields)| <= room
  {
    hide FieldsBytes;
    var rest := SomeOrder(todo - {k});
    var ks := rest + ([k] + js);
    DistinctTogether([k], js);
    DistinctTogether(rest, [k] + js);
    assert forall x :: x in ks <==> x in rest || x == k || x in js;
    assert Order(ks, m.fields);
    FieldsAppend(rest, [k] + js, m.fields);
    assert |PayloadBytes(ks, m)| <= room;
  }

  method MarshalPayloadTo(m: Payload, a: array<byte>, end: nat) returns (j: nat, ghost ks: seq<text>)
    requires end <= a.Length && forall ks :: Order(ks, m.fields) ==> |PayloadBytes(ks, m)| <= end
    modifies a
    ensures Order(ks, m.fields) && j == end - |PayloadBytes(ks, m)|
    ensures a[..] == Splice(old(a[..]), j, PayloadBytes(ks, m))
  {
    hide Splice, ChunkField, EntryBytes;
    ghost var was := a[..];
    SpliceNothing(was, end);
    j, ks := end, [];
    var todo := m.fields.Keys;
    while todo != {}
      invariant todo <= m.fields.Keys && Distinct(ks) && forall x :: x in ks <==> x in m.fields && x !in todo
      invariant j == end - |FieldsBytes(ks, m.fields)| && a.Length == |was|
      invariant a[..] == Splice(was, j, FieldsBytes(ks, m.fields))
      decreases todo
    {
      var k :| k in todo;
      RoomForEntry(m, ks, todo, k, end);
      assert ([k] + ks)[1..] == ks;
      SpliceFront(was, j, FieldsBytes(ks, m.fields), ChunkField(0xa, EntryBytes(k, m.fields[k])));
      j := PutEntry(a, j, k, m.fields[k]);
      ks, todo := [k] + ks, todo - {k};
    }
  }

  method PutEntry(a: array<byte>, i: nat, k: text, v: text) returns (j: nat)
    requires |ChunkField(0xa, EntryBytes(k, v))| <= i <= a.Length
    modifies a
    ensures j == i - |ChunkField(0xa, EntryBytes(k, v))|
      && a[..] == Splice(old(a[..]), j, ChunkField(0xa, EntryBytes(k, v)))
  {
    hide Splice, V.Encode, Sov;
    ghost var was := a[..];
    ghost var x, y, e := ChunkField(0xa, k), ChunkField(0x12, v), EntryBytes(k, v);
    SovIsLength(|k|);
    SovIsLength(|v|);
    SovIsLength(|e|);
    j := PutChunk(a, i, 0x12, v);
    SpliceFront(was, j, y, x);
    j := PutChunk(a, j, 0xa, k);
    SpliceFront(was, j, e, [0xa] + V.Encode(|e|));
    assert [0xa] + V.Encode(|e|) + e == ChunkField(0xa, e);
    j := Announce(a, j, 0xa, i - j);
  }

  /** Payload.Marshal: some order of the keys, and exactly Size() bytes. */
  method MarshalPayload(m: Payload) returns (out: seq<byte>)
    ensures exists ks :: Order(ks, m.fields) && out == PayloadBytes(ks, m)
  {
    hide Splice, FieldsBytes;
    var size := PayloadSize(m);
    var a := new byte[size](_ => 0);
    ghost var was := a[..];
    var j;
    ghost var ks;
    j, ks := MarshalPayloadTo(m, a, size);
    SpliceWhole(was, PayloadBytes(ks, m));
    out := a[..size - j];
  }

  /** n is the Size of the payload, if there is one. */
  ghost predicate PayloadHas(m: Record, n: nat) {
    m.data.Some? ==> forall ks :: Order(ks, m.data.value.fields) ==> |PayloadBytes(ks, m.data.value)| == n
  }

  /** What a Record marshals to when its payload is walked in the order ks. */
  function RecordBytesIn(m: Record, ks: seq<text>): seq<byte>
    requires m.data.Some? ==> forall k :: k in ks ==> k in m.data.value.fields
  {
    RecordBytes(m, if m.data.None? then [] else PayloadBytes(ks, m.data.value))
  }

  ghost predicate RecordOrder(ks: seq<text>, m: Record) { m.data.Some? ==> Order(ks, m.data.value.fields) }

  method MarshalRecordTo(m: Record, a: array<byte>, end: nat, ghost n: nat) returns (j: nat, ghost ks: seq<text>)
    requires PayloadHas(m, n) && RecordSize(m, n) <= end <= a.Length
    modifies a
    ensures RecordOrder(ks, m) && j == end - |RecordBytesIn(m, ks)|
      && a[..] == Splice(old(a[..]), j, RecordBytesIn(m, ks))
  {
    hide Splice, IntField, IntSize, V.Encode, FieldsBytes, Sov;
    ghost var was := a[..];
    ghost var x, y, z := IntField(0x8, m.dataType), IntField(0x10, m.timestamp), [];
    IntLength(0x8, m.dataType);
    IntLength(0x10, m.timestamp);
    SovIsLength(n);
    j, ks := end, [];
    SpliceNothing(was, end);
    if m.data.Some? {
      j, ks := MarshalPayloadTo(m.data.value, a, end);
      ghost var data := PayloadBytes(ks, m.data.value);
      SpliceFront(was, j, data, [0x1a] + V.Encode(n));
      z := ChunkField(0x1a, data);
      assert [0x1a] + V.Encode(n) + data == z;
      j := Announce(a, j, 0x1a, end - j);
    }
    SpliceFront(was, j, z, y);
    j := PutInt(a, j, 0x10, m.timestamp);
    SpliceFront(was, j, y + z, x);
    j := PutInt(a, j, 0x8, m.dataType);
    assert x + (y + z) == RecordBytesIn(m, ks);
  }

  /** Record.Marshal */
  method MarshalRecord(m: Record) returns (out: seq<byte>)
    ensures exists ks :: RecordOrder(ks, m) && out == RecordBytesIn(m, ks)
  {
    hide Splice, IntField, IntSize, FieldsBytes, ChunkField, ChunkSize;
    var n := 0;
    if m.data.Some? { n := PayloadSize(m.data.value); }
    var size := RecordSize(m, n);
    var a := new byte[size](_ => 0);
    ghost var was := a[..];
    var j;
    ghost var ks;
    j, ks := MarshalRecordTo(m, a, size, n);
    RecordLength(m, if m.data.None? then [] else PayloadBytes(ks, m.data.value));
    SpliceWhole(was, RecordBytesIn(m, ks));
    out := a[..size - j];
  }

  // PackagedData: each list from its last element.

  method PutTexts(a: array<byte>, i: nat, tag: byte, ss: seq<text>) returns (j: nat)
    requires TextsSize(ss) <= i <= a.Length
    modifies a
    ensures j == i - |RepeatedField(tag, ss)| && a[..] == Splice(old(a[..]), j, RepeatedField(tag, ss))
  {
    hide Splice, ChunkField, ChunkSize;
    ghost var was := a[..];
    SpliceNothing(was, i);
    TextsLength(tag, ss);
    j := i;
    var n := |ss|;
    while n > 0
      invariant 0 <= n <= |ss| && a.Length == |was| && j == i - |RepeatedField(tag, ss[n..])|
      invariant a[..] == Splice(was, j, RepeatedField(tag, ss[n..]))
    {
      n := n - 1;
      assert ss[n..][1..] == ss[n + 1..];
      TextsTail(ss, n);
      TextsLength(tag, ss[n..]);
      ChunkLength(tag, ss[n]);
      SpliceFront(was, j, RepeatedField(tag, ss[n + 1..]), ChunkField(tag, ss[n]));
      j := PutChunk(a, j, tag, ss[n]);
    }
    assert ss[0..] == ss;
  }

  lemma {:induction false} TextsTail(ss: seq<text>, n: nat)
    requires n <= |ss|
    ensures TextsSize(ss[n..]) <= TextsSize(ss)
    decreases n
  {
    if n == 0 { assert ss[0..] == ss; } else {
      assert ss[1..][n - 1..] == ss[n..];
      TextsTail(ss[1..], n - 1);
    }
  }

  lemma {:induction false} RecordsTail(rs: seq<EncodedRecord>, n: nat)
    requires n <= |rs|
    ensures RecordsSize(rs[n..]) <= RecordsSize(rs)
    decreases n
  {
    if n == 0 { assert rs[0..] == rs; } else {
      assert rs[1..][n - 1..] == rs[n..];
      RecordsTail(rs[1..], n - 1);
    }
  }

  method PutRecord(a: array<byte>, i: nat, m: EncodedRecord) returns (j: nat)
    requires ChunkSize(EncodedSize(m)) <= i <= a.Length
    modifies a
    ensures j == i - |ChunkField(0xa, EncodedBytes(m))|
      && a[..] == Splice(old(a[..]), j, ChunkField(0xa, EncodedBytes(m)))
  {
    hide Splice, EncodedBytes, EncodedSize, V.Encode, Sov;
    EncodedLength(m);
    ghost var was, e := a[..], EncodedBytes(m);
    SovIsLength(|e|);
    j := MarshalEncodedTo(m, a, i);
    SpliceFront(was, j, e, [0xa] + V.Encode(|e|));
    assert [0xa] + V.Encode(|e|) + e == ChunkField(0xa, e);
    j := Announce(a, j, 0xa, i - j);
  }

  method PutRecords(a: array<byte>, i: nat, rs: seq<EncodedRecord>) returns (j: nat)
    requires RecordsSize(rs) <= i <= a.Length
    modifies a
    ensures j == i - |RecordsBytes(rs)| && a[..] == Splice(old(a[..]), j, RecordsBytes(rs))
  {
    hide Splice, ChunkField, ChunkSize, EncodedBytes, EncodedSize;
    ghost var was := a[..];
    SpliceNothing(was, i);
    j := i;
    var n := |rs|;
    while n > 0
      invariant 0 <= n <= |rs| && a.Length == |was| && j == i - |RecordsBytes(rs[n..])|
      invariant a[..] == Splice(was, j, RecordsBytes(rs[n..]))
    {
      n := n - 1;
      assert rs[n..][1..] == rs[n + 1..];
      RecordsTail(rs, n);
      RecordsLength(rs[n..]);
      EncodedLength(rs[n]);
      ChunkLength(0xa, EncodedBytes(rs[n]));
      SpliceFront(was, j, RecordsBytes(rs[n + 1..]), ChunkField(0xa, EncodedBytes(rs[n])));
      j := PutRecord(a, j, rs[n]);
    }
    assert rs[0..] == rs;
  }

  /** hostname, version, product */
  function StringsBytes(m: PackagedData): seq<byte> {
    BytesField(0x3a, m.hostname) + (BytesField(0x42, m.version) + BytesField(0x4a, m.product))
  }

  method PutStrings(a: array<byte>, i: nat, m: PackagedData) returns (j: nat)
    requires |StringsBytes(m)| <= i <= a.Length
    modifies a
    ensures j == i - |StringsBytes(m)| && a[..] == Splice(old(a[..]), j, StringsBytes(m))
  {
    hide Splice, BytesField, BytesSize;
    ghost var was, x, y, z := a[..], BytesField(0x3a, m.hostname), BytesField(0x42, m.version),
      BytesField(0x4a, m.product);
    BytesLength(0x3a, m.hostname);
    BytesLength(0x42, m.version);
    BytesLength(0x4a, m.product);
    j := PutBytes(a, i, 0x4a, m.product);
    SpliceFront(was, j, z, y);
    j := PutBytes(a, j, 0x42, m.version);
    SpliceFront(was, j, y + z, x);
    j := PutBytes(a, j, 0x3a, m.hostname);
  }

  /** The four address lists, with `rest` behind them. */
  function ListsBytes(m: PackagedData, rest: seq<byte>): seq<byte> {
    RepeatedField(0x1a, m.intranetIpv4) + (RepeatedField(0x22, m.extranetIpv4)
    + (RepeatedField(0x2a, m.intranetIpv6) + (RepeatedField(0x32, m.extranetIpv6) + rest)))
  }

  method PutLists(a: array<byte>, i: nat, m: PackagedData) returns (j: nat)
    requires |ListsBytes(m, [])| <= i <= a.Length
    modifies a
    ensures j == i - |ListsBytes(m, [])| && a[..] == Splice(old(a[..]), j, ListsBytes(m, []))
  {
    hide Splice, RepeatedField, TextsSize;
    ghost var was := a[..];
    ghost var w, x, y, z := RepeatedField(0x1a, m.intranetIpv4), RepeatedField(0x22, m.extranetIpv4),
      RepeatedField(0x2a, m.intranetIpv6), RepeatedField(0x32, m.extranetIpv6);
    TextsLength(0x1a, m.intranetIpv4);
    TextsLength(0x22, m.extranetIpv4);
    TextsLength(0x2a, m.intranetIpv6);
    TextsLength(0x32, m.extranetIpv6);
    assert z + [] == z;
    j := PutTexts(a, i, 0x32, m.extranetIpv6);
    SpliceFront(was, j, z, y);
    j := PutTexts(a, j, 0x2a, m.intranetIpv6);
    SpliceFront(was, j, y + z, x);
    j := PutTexts(a, j, 0x22, m.extranetIpv4);
    SpliceFront(was, j, x + (y + z), w);
    j := PutTexts(a, j, 0x1a, m.intranetIpv4);
  }

  lemma PackagedParts(m: PackagedData)
    ensures PackagedBytes(m) ==
      RecordsBytes(m.records) + (BytesField(0x12, m.agentId) + (ListsBytes(m, []) + StringsBytes(m)))
  {
    hide RecordsBytes, BytesField, RepeatedField;
    assert ListsBytes(m, []) + StringsBytes(m) == ListsBytes(m, StringsBytes(m));
  }

  /** PackagedData.Marshal */
  method MarshalPackaged(m: PackagedData) returns (out: seq<byte>)
    ensures out == PackagedBytes(m)
  {
    hide Splice, BytesField, RecordsBytes, ListsBytes, StringsBytes, BytesSize, PackagedBytes, PackagedSize,
         RecordsSize;
    PackagedLength(m);
    PackagedParts(m);
    RecordsLength(m.records);
    BytesLength(0x12, m.agentId);
    var size := PackagedSize(m);
    var a := new byte[size](_ => 0);
    ghost var was := a[..];
    ghost var r, x, y, z := RecordsBytes(m.records), BytesField(0x12, m.agentId), ListsBytes(m, []), StringsBytes(m);
    var j := PutStrings(a, size, m);
    SpliceFront(was, j, z, y);
    j := PutLists(a, j, m);
    SpliceFront(was, j, y + z, x);
    j := PutBytes(a, j, 0x12, m.agentId);
    SpliceFront(was, j, x + (y + z), r);
    j := PutRecords(a, j, m.records);
    SpliceWhole(was, PackagedBytes(m));
    out := a[..size - j];
  }

  // ------------------------------------------------------------------------------------------
  // Reading.
  // ------------------------------------------------------------------------------------------

  /** The tag at i: field number, wire type and the index behind. */
  method ReadTag(d: seq<byte>, i: nat) returns (tag: Result<Read>, num: int, wt: nat)
    ensures tag == V.Decode(d, i) && (tag.Ok? ==> num == ToInt32(tag.value.v / 8) && wt == tag.value.v % 8)
  {
    tag := ReadVarint(d, i);
    if tag.Ok? { num, wt := ToInt32(tag.value.v / 8), tag.value.v % 8; } else { num, wt := 0, 0; }
  }

  /** The default case of every switch. */
  method SkipUnknown(d: seq<byte>, i: nat) returns (r: Result<nat>)
    requires i <= |d|
    ensures r == match Skip(d[i..]) {
      case Err(e) => Err(e)
      case Ok(n) => if i + n >= TWO63 then Err(InvalidLength) else if i + n > |d| then Err(UnexpectedEof) else Ok(i + n)
    }
  {
    hide Skip;
    var n := SkipGrpc(d[i..]);
    if n.Err? { return Err(n.error); }
    if i + n.value >= TWO63 { return Err(InvalidLength); }
    if i + n.value > |d| { return Err(UnexpectedEof); }
    return Ok(i + n.value);
  }

  /** EncodedRecord.Unmarshal, into m0. */
  method UnmarshalEncoded(d: seq<byte>, m0: EncodedRecord) returns (r: Result<EncodedRecord>)
    ensures r == ParseEncoded(d, m0)
  {
    hide Proper, Nearby, Shifts, V.Decode, Delimited, Skip;
    EncodedSound();
    var i, m := 0, m0;
    while i < |d|
      invariant 0 <= i <= |d| && Parse(EncodedField, d, i, m) == ParseEncoded(d, m0)
      decreases |d| - i
    {
      var tag, num, wt := ReadTag(d, i);
      if tag.Err? { return Err(tag.error); }
      var j := tag.value.next;
      if wt == 4 { return Err(EndGroup); }
      if num <= 0 { return Err(IllegalTag); }
      match num {
        case 1 =>
          if wt != 0 { return Err(WrongWireType); }
          var x := ReadVarint(d, j);
          if x.Err? { return Err(x.error); }
          i, m := x.value.next, m.(dataType := ToInt32(x.value.v));
        case 2 =>
          if wt != 0 { return Err(WrongWireType); }
          var x := ReadVarint(d, j);
          if x.Err? { return Err(x.error); }
          i, m := x.value.next, m.(timestamp := ToInt64(x.value.v));
        case 3 =>
          if wt != 2 { return Err(WrongWireType); }
          var s := ReadDelimited(d, j);
          if s.Err? { return Err(s.error); }
          i, m := s.value.end, m.(data := d[s.value.start..s.value.end]);
        case _ =>
          var n := SkipUnknown(d, i);
          if n.Err? { return Err(n.error); }
          i := n.value;
      }
    }
    return Ok(m);
  }

  /** The loop over one map entry. */
  method ReadEntry(d: seq<byte>, start: nat, post: nat) returns (r: Result<Pair>)
    requires start <= |d| && post <= |d|
    ensures r == Entry(d, start, post, Pair([], []))
  {
    hide V.Decode, Delimited, Skip;
    var i, p := start, Pair([], []);
    while i < post
      invariant start <= i <= |d| && Entry(d, i, post, p) == Entry(d, start, post, Pair([], []))
      decreases |d| - i
    {
      var tag, num, wt := ReadTag(d, i);
      if tag.Err? { return Err(tag.error); }
      if num == 1 || num == 2 {
        var s := ReadDelimited(d, tag.value.next);
        if s.Err? { return Err(s.error); }
        var t := d[s.value.start..s.value.end];
        p := if num == 1 then p.(key := t) else p.(value := t);
        i := s.value.end;
      } else {
        var n := SkipGrpc(d[i..]);
        if n.Err? { return Err(n.error); }
        if i + n.value >= TWO63 { return Err(InvalidLength); }
        if i + n.value > post { return Err(UnexpectedEof); }
        i := i + n.value;
      }
    }
    return Ok(p);
  }

  /** Payload.Unmarshal, into m0. */
  method UnmarshalPayload(d: seq<byte>, m0: Payload) returns (r: Result<Payload>)
    ensures r == ParsePayload(d, m0)
  {
    hide Proper, Nearby, Shifts, V.Decode, Delimited, Skip, Entry;
    PayloadSound();
    var i, m := 0, m0;
    while i < |d|
      invariant 0 <= i <= |d| && Parse(PayloadField, d, i, m) == ParsePayload(d, m0)
      decreases |d| - i
    {
      var tag, num, wt := ReadTag(d, i);
      if tag.Err? { return Err(tag.error); }
      var j := tag.value.next;
      if wt == 4 { return Err(EndGroup); }
      if num <= 0 { return Err(IllegalTag); }
      match num {
        case 1 =>
          if wt != 2 { return Err(WrongWireType); }
          var s := ReadDelimited(d, j);
          if s.Err? { return Err(s.error); }
          var p := ReadEntry(d, s.value.start, s.value.end);
          if p.Err? { return Err(p.error); }
          i, m := s.value.end, m.(fields := m.fields[p.value.key := p.value.value]);
        case _ =>
          var n := SkipUnknown(d, i);
          if n.Err? { return Err(n.error); }
          i := n.value;
      }
    }
    return Ok(m);
  }

  /** Record.Unmarshal, into m0; a payload met twice is merged. */
  method UnmarshalRecord(d: seq<byte>, m0: Record) returns (r: Result<Record>)
    ensures r == ParseRecord(d, m0)
  {
    hide Proper, Nearby, Shifts, V.Decode, Delimited, Skip, ParsePayload;
    RecordSound();
    var i, m := 0, m0;
    while i < |d|
      invariant 0 <= i <= |d| && Parse(RecordField, d, i, m) == ParseRecord(d, m0)
      decreases |d| - i
    {
      var tag, num, wt := ReadTag(d, i);
      if tag.Err? { return Err(tag.error); }
      var j := tag.value.next;
      if wt == 4 { return Err(EndGroup); }
      if num <= 0 { return Err(IllegalTag); }
      match num {
        case 1 =>
          if wt != 0 { return Err(WrongWireType); }
          var x := ReadVarint(d, j);
          if x.Err? { return Err(x.error); }
          i, m := x.value.next, m.(dataType := ToInt32(x.value.v));
        case 2 =>
          if wt != 0 { return Err(WrongWireType); }
          var x := ReadVarint(d, j);
          if x.Err? { return Err(x.error); }
          i, m := x.value.next, m.(timestamp := ToInt64(x.value.v));
        case 3 =>
          if wt != 2 { return Err(WrongWireType); }
          var s := ReadDelimited(d, j);
          if s.Err? { return Err(s.error); }
          var p := UnmarshalPayload(d[s.value.start..s.value.end], if m.data.None? then NO_PAYLOAD else m.data.value);
          if p.Err? { return Err(p.error); }
          i, m := s.value.end, m.(data := Some(p.value));
        case _ =>
          var n := SkipUnknown(d, i);
          if n.Err? { return Err(n.error); }
          i := n.value;
      }
    }
    return Ok(m);
  }

  /** PackagedData.Unmarshal, into m0. */
  method UnmarshalPackaged(d: seq<byte>, m0: PackagedData) returns (r: Result<PackagedData>)
    ensures r == ParsePackaged(d, m0)
  {
    hide Proper, Nearby, Shifts, V.Decode, Delimited, Skip, ParseEncoded, WithText;
    PackagedSound();
    var i, m := 0, m0;
    while i < |d|
      invariant 0 <= i <= |d| && Parse(PackagedField, d, i, m) == ParsePackaged(d, m0)
      decreases |d| - i
    {
      var tag, num, wt := ReadTag(d, i);
      if tag.Err? { return Err(tag.error); }
      var j := tag.value.next;
      if wt == 4 { return Err(EndGroup); }
      if num <= 0 { return Err(IllegalTag); }
      if num == 1 {
        if wt != 2 { return Err(WrongWireType); }
        var s := ReadDelimited(d, j);
        if s.Err? { return Err(s.error); }
        var x := UnmarshalEncoded(d[s.value.start..s.value.end], NO_RECORD);
        if x.Err? { return Err(x.error); }
        i, m := s.value.end, m.(records := m.records + [x.value]);
      } else if 2 <= num <= 9 {
        if wt != 2 { return Err(WrongWireType); }
        var s := ReadDelimited(d, j);
        if s.Err? { return Err(s.error); }
        i, m := s.value.end, WithText(m, num, d[s.value.start..s.value.end]);
      } else {
        var n := SkipUnknown(d, i);
        if n.Err? { return Err(n.error); }
        i := n.value;
      }
    }
    return Ok(m);
  }
}
