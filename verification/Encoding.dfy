/** The bytes each message marshals to, front to back, and their number. */
module Encoding {
  import opened Bytes
  import opened Options
  import opened V = Varint
  import opened Wire
  import opened Messages

  /** A varint field under a one-byte tag; zero is not written. */
  function IntField(tag: byte, x: int64): seq<byte> { if x == 0 then [] else [tag] + V.Encode(Unsigned(x)) }

  /** A length-delimited field under a one-byte tag. */
  function ChunkField(tag: byte, s: seq<byte>): seq<byte> { [tag] + LengthPrefixed(s) }

  /** A bytes or string field; an empty one is not written. */
  function BytesField(tag: byte, s: seq<byte>): seq<byte> { if s == [] then [] else ChunkField(tag, s) }

  function RepeatedField(tag: byte, ss: seq<text>): seq<byte> {
    if ss == [] then [] else ChunkField(tag, ss[0]) + RepeatedField(tag, ss[1..])
  }

  function EncodedBytes(m: EncodedRecord): seq<byte> {
    IntField(0x8, m.dataType) + IntField(0x10, m.timestamp) + BytesField(0x1a, m.data)
  }

  /** A map entry: key and value are always written. */
  function EntryBytes(k: text, v: text): seq<byte> { ChunkField(0xa, k) + ChunkField(0x12, v) }

  /** The entries of a map in the order `ks` of its keys. */
  function FieldsBytes(ks: seq<text>, fields: map<text, text>): seq<byte>
    requires forall k :: k in ks ==> k in fields
  {
    if ks == [] then [] else ChunkField(0xa, EntryBytes(ks[0], fields[ks[0]])) + FieldsBytes(ks[1..], fields)
  }

  /** ks lists the keys of the map, each once. */
  ghost predicate Order(ks: seq<text>, fields: map<text, text>) {
    && (forall k :: k in ks <==> k in fields)
    && (forall i, j :: 0 <= i < j < |ks| ==> ks[i] != ks[j])
  }

  function PayloadBytes(ks: seq<text>, m: Payload): seq<byte>
    requires forall k :: k in ks ==> k in m.fields
  {
    FieldsBytes(ks, m.fields)
  }

  /** A Record whose payload marshals to `data`. */
  function RecordBytes(m: Record, data: seq<byte>): seq<byte> {
    IntField(0x8, m.dataType) + IntField(0x10, m.timestamp) + (if m.data.None? then [] else ChunkField(0x1a, data))
  }

  function RecordsBytes(rs: seq<EncodedRecord>): seq<byte> {
    if rs == [] then [] else ChunkField(0xa, EncodedBytes(rs[0])) + RecordsBytes(rs[1..])
  }

  function PackagedBytes(m: PackagedData): seq<byte> {
    RecordsBytes(m.records) + (BytesField(0x12, m.agentId)
    + (RepeatedField(0x1a, m.intranetIpv4) + (RepeatedField(0x22, m.extranetIpv4)
    + (RepeatedField(0x2a, m.intranetIpv6) + (RepeatedField(0x32, m.extranetIpv6)
    + (BytesField(0x3a, m.hostname) + (BytesField(0x42, m.version) + BytesField(0x4a, m.product))))))))
  }

  // ------------------------------------------------------------------------------------------
  // Size().
  // ------------------------------------------------------------------------------------------

  function IntSize(x: int64): nat { if x == 0 then 0 else 1 + Sov(Unsigned(x)) }
  function ChunkSize(n: nat): nat { 1 + n + Sov(n) }
  function BytesSize(s: seq<byte>): nat { if |s| > 0 then ChunkSize(|s|) else 0 }

  function EncodedSize(m: EncodedRecord): nat { IntSize(m.dataType) + IntSize(m.timestamp) + BytesSize(m.data) }

  function EntrySize(k: text, v: text): nat { 1 + |k| + Sov(|k|) + 1 + |v| + Sov(|v|) }

  lemma ChunkLength(tag: byte, s: seq<byte>)
    ensures |ChunkField(tag, s)| == ChunkSize(|s|)
  {
    SovIsLength(|s|);
  }

  lemma EntryLength(k: text, v: text)
    ensures |EntryBytes(k, v)| == EntrySize(k, v)
  {
    hide ChunkField;
    ChunkLength(0xa, k);
    ChunkLength(0x12, v);
  }

  lemma IntLength(tag: byte, x: int64)
    ensures |IntField(tag, x)| == IntSize(x)
  {
    SovIsLength(Unsigned(x));
  }

  lemma BytesLength(tag: byte, s: seq<byte>)
    ensures |BytesField(tag, s)| == BytesSize(s)
  {
    ChunkLength(tag, s);
  }

  /** EncodedRecord.Size is the number of bytes it marshals to. */
  lemma EncodedLength(m: EncodedRecord)
    ensures |EncodedBytes(m)| == EncodedSize(m)
  {
    hide IntField, BytesField, IntSize, BytesSize;
    IntLength(0x8, m.dataType);
    IntLength(0x10, m.timestamp);
    BytesLength(0x1a, m.data);
  }

  // A map may be walked in a different order each time.

  function Without(ks: seq<text>, i: nat): seq<text>
    requires i < |ks|
  {
    ks[..i] + ks[i + 1..]
  }

  ghost predicate Distinct(ks: seq<text>) { forall i, j :: 0 <= i < j < |ks| ==> ks[i] != ks[j] }

  ghost predicate SameKeys(ks: seq<text>, js: seq<text>) {
    Distinct(ks) && Distinct(js) && forall k :: k in ks <==> k in js
  }

  lemma {:induction false} TakeOut(ks: seq<text>, i: nat, fields: map<text, text>)
    requires i < |ks| && forall k :: k in ks ==> k in fields
    ensures forall k :: k in Without(ks, i) ==> k in fields
    ensures |FieldsBytes(ks, fields)| ==
      |ChunkField(0xa, EntryBytes(ks[i], fields[ks[i]]))| + |FieldsBytes(Without(ks, i), fields)|
    decreases i
  {
    hide ChunkField, EntryBytes;
    if i == 0 {
      assert Without(ks, 0) == ks[1..];
    } else {
      TakeOut(ks[1..], i - 1, fields);
      assert Without(ks, i) == [ks[0]] + Without(ks[1..], i - 1);
    }
  }

  lemma Drop(ks: seq<text>, js: seq<text>, i: nat)
    requires SameKeys(ks, js) && ks != [] && i < |js| && js[i] == ks[0]
    ensures SameKeys(ks[1..], Without(js, i))
  {
    var rs, ws := ks[1..], Without(js, i);
    forall k | k in rs ensures k in ws {
      assert k in ks && k in js;
      var p :| 0 <= p < |js| && js[p] == k;
      assert ws[if p < i then p else p - 1] == k;
    }
    forall k | k in ws ensures k in rs {
      var q :| 0 <= q < |ws| && ws[q] == k;
      var p := if q < i then q else q + 1;
      assert js[p] == k && k in ks;
    }
  }

  lemma SomeKey(js: seq<text>)
    ensures js == [] || exists k :: k in js
  {
    if js != [] { assert js[0] in js; }
  }

  lemma {:induction false} AnyOrder(ks: seq<text>, js: seq<text>, fields: map<text, text>)
    requires SameKeys(ks, js) && (forall k :: k in ks ==> k in fields) && (forall k :: k in js ==> k in fields)
    ensures |FieldsBytes(ks, fields)| == |FieldsBytes(js, fields)|
    decreases |ks|
  {
    hide ChunkField, EntryBytes;
    if ks == [] {
      SomeKey(js);
    } else {
      assert ks[0] in js;
      var i :| 0 <= i < |js| && js[i] == ks[0];
      TakeOut(js, i, fields);
      Drop(ks, js, i);
      AnyOrder(ks[1..], Without(js, i), fields);
    }
  }

  /** Payload.Size walks the map in some order and counts the bytes of every order. */
  method PayloadSize(m: Payload) returns (n: nat)
    ensures forall ks :: Order(ks, m.fields) ==> n == |PayloadBytes(ks, m)|
  {
    hide ChunkField, EntryBytes;
    n := 0;
    ghost var js: seq<text> := [];
    var todo := m.fields.Keys;
    while todo != {}
      invariant todo <= m.fields.Keys && (forall k :: k in js <==> k in m.fields && k !in todo) && Distinct(js)
      invariant n == |FieldsBytes(js, m.fields)|
      decreases todo
    {
      var k :| k in todo;
      var v := m.fields[k];
      var size := EntrySize(k, v);
      EntryLength(k, v);
      ChunkLength(0xa, EntryBytes(k, v));
      n := n + size + 1 + Sov(size);
      assert ([k] + js)[1..] == js;
      js, todo := [k] + js, todo - {k};
    }
    forall ks | Order(ks, m.fields) ensures n == |PayloadBytes(ks, m)| { AnyOrder(ks, js, m.fields); }
  }

  /** Record.Size, for a payload of n bytes. */
  function RecordSize(m: Record, n: nat): nat {
    IntSize(m.dataType) + IntSize(m.timestamp) + (if m.data.None? then 0 else ChunkSize(n))
  }

  lemma RecordLength(m: Record, data: seq<byte>)
    ensures |RecordBytes(m, data)| == RecordSize(m, |data|)
  {
    hide IntField, ChunkField, IntSize, ChunkSize;
    IntLength(0x8, m.dataType);
    IntLength(0x10, m.timestamp);
    ChunkLength(0x1a, data);
  }

  function TextsSize(ss: seq<text>): nat { if ss == [] then 0 else ChunkSize(|ss[0]|) + TextsSize(ss[1..]) }
  function RecordsSize(rs: seq<EncodedRecord>): nat {
    if rs == [] then 0 else ChunkSize(EncodedSize(rs[0])) + RecordsSize(rs[1..])
  }

  function PackagedSize(m: PackagedData): nat {
    RecordsSize(m.records) + BytesSize(m.agentId) + TextsSize(m.intranetIpv4) + TextsSize(m.extranetIpv4)
    + TextsSize(m.intranetIpv6) + TextsSize(m.extranetIpv6) + BytesSize(m.hostname) + BytesSize(m.version)
    + BytesSize(m.product)
  }

  lemma {:induction false} TextsLength(tag: byte, ss: seq<text>)
    ensures |RepeatedField(tag, ss)| == TextsSize(ss)
  {
    hide ChunkField, ChunkSize;
    if ss != [] {
      ChunkLength(tag, ss[0]);
      TextsLength(tag, ss[1..]);
    }
  }

  lemma {:induction false} RecordsLength(rs: seq<EncodedRecord>)
    ensures |RecordsBytes(rs)| == RecordsSize(rs)
  {
    hide ChunkField, ChunkSize, EncodedBytes, EncodedSize;
    if rs != [] {
      EncodedLength(rs[0]);
      ChunkLength(0xa, EncodedBytes(rs[0]));
      RecordsLength(rs[1..]);
    }
  }

  /** PackagedData.Size is the number of bytes it marshals to. */
  lemma PackagedLength(m: PackagedData)
    ensures |PackagedBytes(m)| == PackagedSize(m)
  {
    hide RecordsBytes, RepeatedField, BytesField, RecordsSize, TextsSize, BytesSize;
    RecordsLength(m.records);
    BytesLength(0x12, m.agentId);
    TextsLength(0x1a, m.intranetIpv4);
    TextsLength(0x22, m.extranetIpv4);
    TextsLength(0x2a, m.intranetIpv6);
    TextsLength(0x32, m.extranetIpv6);
    BytesLength(0x3a, m.hostname);
    BytesLength(0x42, m.version);
    BytesLength(0x4a, m.product);
  }
}
