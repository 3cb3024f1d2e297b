/** Unmarshal after Marshal: every message decodes to itself, with its map in any order. */
module RoundTrips {
  import opened Bytes
  import opened Options
  import opened V = Varint
  import opened Wire
  import opened MessageLoop
  import opened Messages
  import opened Encoding

  // ------------------------------------------------------------------------------------------
  // A message of one field.
  // ------------------------------------------------------------------------------------------

  lemma ShortTag(d: seq<byte>, i: nat, tag: byte)
    requires i < |d| && d[i] == tag < 128
    ensures V.Decode(d, i) == Ok(Read(tag, i + 1)) && ToInt32(tag / 8) == tag / 8
  {
  }

  lemma OneField<M(!new)>(f: Handler<M>, d: seq<byte>, tag: byte, m: M, m': M)
    requires Proper(f) && |d| > 0 && d[0] == tag && 8 <= tag < 128 && tag % 8 != 4
    requires f(d, 1, tag / 8, tag % 8, m) == Known(Ok(At(m', |d|)))
    ensures Parse(f, d, 0, m) == Ok(m')
  {
    hide Proper, V.Decode;
    ShortTag(d, 0, tag);
    assert Step(f, d, 0, m) == Ok(At(m', |d|));
  }

  lemma IntBody(tag: byte, x: int64)
    requires x != 0
    ensures var d := IntField(tag, x); |d| > 0 && d[0] == tag && VarintBody(d, 1, 0) == Ok(Read(Unsigned(x), |d|))
  {
    hide V.Decode, V.Encode;
    var d := IntField(tag, x);
    assert d[1..] == V.Encode(Unsigned(x));
    V.RoundTrip(d, 1, Unsigned(x));
  }

  lemma ChunkReads(tag: byte, s: seq<byte>)
    requires |ChunkField(tag, s)| < TWO63
    ensures var d := ChunkField(tag, s);
      && |d| > 0 && d[0] == tag && ChunkBody(d, 1, 2) == Ok(Span(1 + |V.Encode(|s|)|, |d|))
      && d[1 + |V.Encode(|s|)|..|d|] == s
  {
    hide V.Encode, Delimited;
    var d := ChunkField(tag, s);
    assert d[1..] == LengthPrefixed(s);
    DelimitedReads(d, 1, s);
  }

  /** Appending b to an accepted message a. */
  lemma Then<M(!new)>(f: Handler<M>, a: seq<byte>, b: seq<byte>, m: M, m1: M, m2: M)
    requires Sound(f) && |a + b| < TWO63 && Parse(f, a, 0, m) == Ok(m1) && Parse(f, b, 0, m1) == Ok(m2)
    ensures Parse(f, a + b, 0, m) == Ok(m2)
  {
    hide Parse, Proper, Nearby, Shifts;
    Concatenation(f, a, b, m);
  }

  // ------------------------------------------------------------------------------------------
  // EncodedRecord.
  // ------------------------------------------------------------------------------------------

  lemma EncodedType(x: int32, m: EncodedRecord)
    ensures ParseEncoded(IntField(0x8, x), m) == Ok(if x == 0 then m else m.(dataType := x))
  {
    hide Proper, Nearby, Shifts, IntField, VarintBody;
    EncodedSound();
    IntEmpty(0x8, x);
    if x != 0 {
      IntBody(0x8, x);
      SignedRoundTrip(x);
      OneField(EncodedField, IntField(0x8, x), 0x8, m, m.(dataType := x));
    }
  }

  lemma IntEmpty(tag: byte, x: int64)
    ensures x == 0 ==> IntField(tag, x) == []
  {
  }

  lemma EncodedStamp(x: int64, m: EncodedRecord)
    ensures ParseEncoded(IntField(0x10, x), m) == Ok(if x == 0 then m else m.(timestamp := x))
  {
    hide Proper, Nearby, Shifts, IntField, VarintBody;
    EncodedSound();
    IntEmpty(0x10, x);
    if x != 0 {
      IntBody(0x10, x);
      SignedRoundTrip(x);
      OneField(EncodedField, IntField(0x10, x), 0x10, m, m.(timestamp := x));
    }
  }

  lemma EncodedData(s: seq<byte>, m: EncodedRecord)
    requires |BytesField(0x1a, s)| < TWO63
    ensures ParseEncoded(BytesField(0x1a, s), m) == Ok(if s == [] then m else m.(data := s))
  {
    hide Proper, Nearby, Shifts, ChunkField, ChunkBody;
    EncodedSound();
    if s != [] {
      ChunkReads(0x1a, s);
      OneField(EncodedField, ChunkField(0x1a, s), 0x1a, m, m.(data := s));
    }
  }

  /** EncodedRecord: decoding what was marshalled gives the record back, negative fields included. */
  lemma EncodedRoundTrip(m: EncodedRecord)
    requires |EncodedBytes(m)| < TWO63
    ensures ParseEncoded(EncodedBytes(m), NO_RECORD) == Ok(m)
  {
    hide Sound, Parse, IntField, BytesField;
    EncodedSound();
    var a, b, c := IntField(0x8, m.dataType), IntField(0x10, m.timestamp), BytesField(0x1a, m.data);
    var m1 := EncodedRecord(m.dataType, 0, []);
    var m2 := EncodedRecord(m.dataType, m.timestamp, []);
    EncodedType(m.dataType, NO_RECORD);
    EncodedStamp(m.timestamp, m1);
    EncodedData(m.data, m2);
    Then(EncodedField, a, b, NO_RECORD, m1, m2);
    Then(EncodedField, a + b, c, NO_RECORD, m2, m);
  }

  // ------------------------------------------------------------------------------------------
  // Payload.
  // ------------------------------------------------------------------------------------------

  /** One string of a map entry, read from where it stands. */
  lemma EntryString(d: seq<byte>, i: nat, tag: byte, s: text, p: Pair)
    requires |d| < TWO63 && Has(d, i, ChunkField(tag, s)) && (tag == 0xa || tag == 0x12)
    ensures Entry(d, i, |d|, p)
      == Entry(d, i + |ChunkField(tag, s)|, |d|, if tag == 0xa then p.(key := s) else p.(value := s))
  {
    hide V.Decode, V.Encode, Delimited, Skip;
    HasParts(d, i, [tag], LengthPrefixed(s));
    assert d[i] == d[i..i + 1][0];
    ShortTag(d, i, tag);
    DelimitedReads(d, i + 1, s);
  }

  lemma EntryReads(d: seq<byte>, i: nat, k: text, v: text)
    requires |d| < TWO63 && Has(d, i, EntryBytes(k, v)) && i + |EntryBytes(k, v)| == |d|
    ensures Entry(d, i, |d|, Pair([], [])) == Ok(Pair(k, v))
  {
    hide ChunkField, Entry, Has;
    var a, b := ChunkField(0xa, k), ChunkField(0x12, v);
    HasParts(d, i, a, b);
    EntryString(d, i, 0xa, k, Pair([], []));
    EntryString(d, i + |a|, 0x12, v, Pair(k, []));
    EntryEnd(d, Pair(k, v));
  }

  lemma EntryEnd(d: seq<byte>, p: Pair)
    ensures Entry(d, |d|, |d|, p) == Ok(p)
  {
  }

  lemma EntryField(k: text, v: text, m: Payload)
    requires |ChunkField(0xa, EntryBytes(k, v))| < TWO63
    ensures ParsePayload(ChunkField(0xa, EntryBytes(k, v)), m) == Ok(Payload(m.fields[k := v]))
  {
    hide Proper, Nearby, Shifts, ChunkField, ChunkBody, Entry, EntryBytes;
    PayloadSound();
    var e := EntryBytes(k, v);
    var d := ChunkField(0xa, e);
    ChunkReads(0xa, e);
    EntryReads(d, 1 + |V.Encode(|e|)|, k, v);
    OneField(PayloadField, d, 0xa, m, Payload(m.fields[k := v]));
  }

  /** The map with the keys ks set as in `fields`. */
  function Updated(base: map<text, text>, ks: seq<text>, fields: map<text, text>): map<text, text>
    requires forall k :: k in ks ==> k in fields
    decreases |ks|
  {
    if ks == [] then base else Updated(base[ks[0] := fields[ks[0]]], ks[1..], fields)
  }

  lemma {:induction false} UpdatedAt(base: map<text, text>, ks: seq<text>, fields: map<text, text>, k: text)
    requires forall k :: k in ks ==> k in fields
    ensures k in Updated(base, ks, fields) <==> k in base || k in ks
    ensures k in ks ==> Updated(base, ks, fields)[k] == fields[k]
    ensures k in base && k !in ks ==> Updated(base, ks, fields)[k] == base[k]
    decreases |ks|
  {
    if ks != [] {
      UpdatedAt(base[ks[0] := fields[ks[0]]], ks[1..], fields, k);
      assert k in ks <==> k == ks[0] || k in ks[1..];
    }
  }

  lemma {:induction false} FieldsReads(ks: seq<text>, fields: map<text, text>, m: Payload)
    requires (forall k :: k in ks ==> k in fields) && |FieldsBytes(ks, fields)| < TWO63
    ensures ParsePayload(FieldsBytes(ks, fields), m) == Ok(Payload(Updated(m.fields, ks, fields)))
    decreases |ks|
  {
    hide Sound, ChunkField, EntryBytes;
    PayloadSound();
    if ks == [] {
      hide Proper, Nearby, Shifts;
    } else {
      var k, v := ks[0], fields[ks[0]];
      var m1 := Payload(m.fields[k := v]);
      EntryField(k, v, m);
      FieldsReads(ks[1..], fields, m1);
      Then(PayloadField, ChunkField(0xa, EntryBytes(k, v)), FieldsBytes(ks[1..], fields), m, m1,
        Payload(Updated(m1.fields, ks[1..], fields)));
    }
  }

  /** Payload: whatever the order the map was walked in. */
  lemma PayloadRoundTrip(ks: seq<text>, m: Payload)
    requires Order(ks, m.fields) && |PayloadBytes(ks, m)| < TWO63
    ensures ParsePayload(PayloadBytes(ks, m), NO_PAYLOAD) == Ok(m)
  {
    hide ParsePayload, FieldsBytes;
    FieldsReads(ks, m.fields, NO_PAYLOAD);
    var r := Updated(map[], ks, m.fields);
    forall k ensures (k in r <==> k in m.fields) && (k in r ==> r[k] == m.fields[k]) {
      UpdatedAt(map[], ks, m.fields, k);
    }
    assert r == m.fields;
  }

  // ------------------------------------------------------------------------------------------
  // Record.
  // ------------------------------------------------------------------------------------------

  lemma RecordType(x: int32, m: Record)
    ensures ParseRecord(IntField(0x8, x), m) == Ok(if x == 0 then m else m.(dataType := x))
  {
    hide Proper, Nearby, Shifts, IntField, VarintBody, ParsePayload;
    RecordSound();
    IntEmpty(0x8, x);
    if x != 0 {
      IntBody(0x8, x);
      SignedRoundTrip(x);
      OneField(RecordField, IntField(0x8, x), 0x8, m, m.(dataType := x));
    }
  }

  lemma RecordStamp(x: int64, m: Record)
    ensures ParseRecord(IntField(0x10, x), m) == Ok(if x == 0 then m else m.(timestamp := x))
  {
    hide Proper, Nearby, Shifts, IntField, VarintBody, ParsePayload;
    RecordSound();
    IntEmpty(0x10, x);
    if x != 0 {
      IntBody(0x10, x);
      SignedRoundTrip(x);
      OneField(RecordField, IntField(0x10, x), 0x10, m, m.(timestamp := x));
    }
  }

  lemma RecordData(data: seq<byte>, p: Payload, m: Record)
    requires m.data.None? && |ChunkField(0x1a, data)| < TWO63 && ParsePayload(data, NO_PAYLOAD) == Ok(p)
    ensures ParseRecord(ChunkField(0x1a, data), m) == Ok(m.(data := Some(p)))
  {
    hide Proper, Nearby, Shifts, ChunkField, ChunkBody, ParsePayload;
    RecordSound();
    ChunkReads(0x1a, data);
    OneField(RecordField, ChunkField(0x1a, data), 0x1a, m, m.(data := Some(p)));
  }

  lemma ParseNothing(m: Record)
    ensures ParseRecord([], m) == Ok(m)
  {
    hide Sound;
  }

  /** Any bytes that decode to the payload will do inside a Record. */
  lemma RecordReads(m: Record, data: seq<byte>)
    requires |RecordBytes(m, data)| < TWO63
    requires m.data.Some? ==> ParsePayload(data, NO_PAYLOAD) == Ok(m.data.value)
    ensures ParseRecord(RecordBytes(m, data), Record(0, 0, None)) == Ok(m)
  {
    hide Sound, Parse, IntField, ChunkField, ParsePayload;
    RecordSound();
    var a, b, c := IntField(0x8, m.dataType), IntField(0x10, m.timestamp), if m.data.None? then []
      else ChunkField(0x1a, data);
    var m0, m1, m2 := Record(0, 0, None), Record(m.dataType, 0, None), Record(m.dataType, m.timestamp, None);
    RecordType(m.dataType, m0);
    RecordStamp(m.timestamp, m1);
    if m.data.Some? { RecordData(data, m.data.value, m2); } else { ParseNothing(m2); }
    Then(RecordField, a, b, m0, m1, m2);
    Then(RecordField, a + b, c, m0, m2, m);
  }

  /** Record: the same, with its payload marshalled in any order of its keys. */
  lemma RecordRoundTrip(m: Record, ks: seq<text>)
    requires m.data.Some? ==> Order(ks, m.data.value.fields)
    requires var data := if m.data.None? then [] else PayloadBytes(ks, m.data.value); |RecordBytes(m, data)| < TWO63
    ensures var data := if m.data.None? then [] else PayloadBytes(ks, m.data.value);
      ParseRecord(RecordBytes(m, data), Record(0, 0, None)) == Ok(m)
  {
    hide ParseRecord, ParsePayload, PayloadBytes;
    if m.data.Some? {
      RecordLength(m, PayloadBytes(ks, m.data.value));
      PayloadRoundTrip(ks, m.data.value);
      RecordReads(m, PayloadBytes(ks, m.data.value));
    } else {
      RecordReads(m, []);
    }
  }

  // ------------------------------------------------------------------------------------------
  // PackagedData.
  // ------------------------------------------------------------------------------------------

  lemma PackagedText(tag: byte, s: text, m: PackagedData)
    requires tag % 8 == 2 && 2 <= tag / 8 <= 9 && |ChunkField(tag, s)| < TWO63
    ensures ParsePackaged(ChunkField(tag, s), m) == Ok(WithText(m, tag / 8, s))
  {
    hide Proper, Nearby, Shifts, ChunkField, ChunkBody, ParseEncoded, WithText;
    PackagedSound();
    ChunkReads(tag, s);
    OneField(PackagedField, ChunkField(tag, s), tag, m, WithText(m, tag / 8, s));
  }

  lemma PackagedRecord(x: EncodedRecord, m: PackagedData)
    requires |ChunkField(0xa, EncodedBytes(x))| < TWO63
    ensures ParsePackaged(ChunkField(0xa, EncodedBytes(x)), m) == Ok(m.(records := m.records + [x]))
  {
    hide Proper, Nearby, Shifts, ChunkField, ChunkBody, ParseEncoded, EncodedBytes;
    PackagedSound();
    ChunkReads(0xa, EncodedBytes(x));
    ChunkLength(0xa, EncodedBytes(x));
    EncodedRoundTrip(x);
    OneField(PackagedField, ChunkField(0xa, EncodedBytes(x)), 0xa, m, m.(records := m.records + [x]));
  }

  lemma PackagedNothing(m: PackagedData)
    ensures ParsePackaged([], m) == Ok(m)
  {
    hide Sound;
  }

  lemma PackagedThen(a: seq<byte>, b: seq<byte>, m: PackagedData, m1: PackagedData, m2: PackagedData)
    requires |a + b| < TWO63 && ParsePackaged(a, m) == Ok(m1) && ParsePackaged(b, m1) == Ok(m2)
    ensures ParsePackaged(a + b, m) == Ok(m2)
  {
    hide Sound, Parse;
    PackagedSound();
    Then(PackagedField, a, b, m, m1, m2);
  }

  lemma {:induction false} PackagedRecords(rs: seq<EncodedRecord>, m: PackagedData)
    requires |RecordsBytes(rs)| < TWO63
    ensures ParsePackaged(RecordsBytes(rs), m) == Ok(m.(records := m.records + rs))
    decreases |rs|
  {
    hide ParsePackaged, ChunkField, EncodedBytes;
    if rs == [] {
      PackagedNothing(m);
      assert m.records + [] == m.records;
    } else {
      var m1 := m.(records := m.records + [rs[0]]);
      PackagedRecord(rs[0], m);
      PackagedRecords(rs[1..], m1);
      assert m.records + [rs[0]] + rs[1..] == m.records + rs;
      PackagedThen(ChunkField(0xa, EncodedBytes(rs[0])), RecordsBytes(rs[1..]), m, m1, m.(records := m.records + rs));
    }
  }

  /** m with all of ss appended to its repeated field `num`. */
  function WithTexts(m: PackagedData, num: int, ss: seq<text>): PackagedData
    decreases |ss|
  {
    if ss == [] then m else WithTexts(WithText(m, num, ss[0]), num, ss[1..])
  }

  lemma {:induction false} PackagedTexts(tag: byte, ss: seq<text>, m: PackagedData)
    requires tag % 8 == 2 && 2 <= tag / 8 <= 9 && |RepeatedField(tag, ss)| < TWO63
    ensures ParsePackaged(RepeatedField(tag, ss), m) == Ok(WithTexts(m, tag / 8, ss))
    decreases |ss|
  {
    hide ParsePackaged, ChunkField, WithText;
    if ss == [] {
      PackagedNothing(m);
    } else {
      var m1 := WithText(m, tag / 8, ss[0]);
      PackagedText(tag, ss[0], m);
      PackagedTexts(tag, ss[1..], m1);
      PackagedThen(ChunkField(tag, ss[0]), RepeatedField(tag, ss[1..]), m, m1, WithTexts(m, tag / 8, ss));
    }
  }

  lemma {:induction false} Appended(m: PackagedData, ss: seq<text>)
    ensures WithTexts(m, 3, ss) == m.(intranetIpv4 := m.intranetIpv4 + ss)
    ensures WithTexts(m, 4, ss) == m.(extranetIpv4 := m.extranetIpv4 + ss)
    ensures WithTexts(m, 5, ss) == m.(intranetIpv6 := m.intranetIpv6 + ss)
    ensures WithTexts(m, 6, ss) == m.(extranetIpv6 := m.extranetIpv6 + ss)
    decreases |ss|
  {
    if ss == [] {
      assert m.intranetIpv4 + [] == m.intranetIpv4 && m.extranetIpv4 + [] == m.extranetIpv4;
      assert m.intranetIpv6 + [] == m.intranetIpv6 && m.extranetIpv6 + [] == m.extranetIpv6;
    } else {
      forall n | 3 <= n <= 6 { Appended(WithText(m, n, ss[0]), ss[1..]); }
      assert [ss[0]] + ss[1..] == ss;
      assert forall xs: seq<text> :: xs + [ss[0]] + ss[1..] == xs + ([ss[0]] + ss[1..]);
    }
  }

  lemma PackagedBytesField(tag: byte, s: text, m: PackagedData)
    requires tag % 8 == 2 && 2 <= tag / 8 <= 9 && |BytesField(tag, s)| < TWO63
    ensures ParsePackaged(BytesField(tag, s), m) == Ok(if s == [] then m else WithText(m, tag / 8, s))
  {
    hide ParsePackaged, ChunkField, WithText;
    if s == [] { PackagedNothing(m); } else { PackagedText(tag, s, m); }
  }

  const NO_PACKAGE := PackagedData([], [], [], [], [], [], [], [], [])

  /** The three plain strings at the end. */
  lemma PackagedTail(m: PackagedData, m6: PackagedData)
    requires m6 == m.(hostname := [], version := [], product := [])
    requires |BytesField(0x3a, m.hostname) + (BytesField(0x42, m.version) + BytesField(0x4a, m.product))| < TWO63
    ensures ParsePackaged(BytesField(0x3a, m.hostname) + (BytesField(0x42, m.version) + BytesField(0x4a, m.product)),
      m6) == Ok(m)
  {
    hide ParsePackaged, BytesField;
    var a, b, c := BytesField(0x3a, m.hostname), BytesField(0x42, m.version), BytesField(0x4a, m.product);
    var m7, m8 := m.(version := [], product := []), m.(product := []);
    PackagedBytesField(0x3a, m.hostname, m6);
    PackagedBytesField(0x42, m.version, m7);
    PackagedBytesField(0x4a, m.product, m8);
    PackagedThen(b, c, m7, m8, m);
    PackagedThen(a, b + c, m6, m7, m);
  }

  lemma PackagedLists(m: PackagedData, m2: PackagedData, rest: seq<byte>)
    requires m2 ==
      m.(intranetIpv4 := [], extranetIpv4 := [], intranetIpv6 := [], extranetIpv6 := [], hostname := [], version := [],
        product := [])
    requires ParsePackaged(rest, m.(hostname := [], version := [], product := [])) == Ok(m)
    requires |RepeatedField(0x1a, m.intranetIpv4) + (RepeatedField(0x22, m.extranetIpv4)
      + (RepeatedField(0x2a, m.intranetIpv6) + (RepeatedField(0x32, m.extranetIpv6) + rest)))| < TWO63
    ensures ParsePackaged(RepeatedField(0x1a, m.intranetIpv4) + (RepeatedField(0x22, m.extranetIpv4)
      + (RepeatedField(0x2a, m.intranetIpv6) + (RepeatedField(0x32, m.extranetIpv6) + rest))), m2) == Ok(m)
  {
    hide ParsePackaged, RepeatedField, WithTexts;
    var a, b, c, d := RepeatedField(0x1a, m.intranetIpv4), RepeatedField(0x22, m.extranetIpv4),
      RepeatedField(0x2a, m.intranetIpv6), RepeatedField(0x32, m.extranetIpv6);
    var m3 := m2.(intranetIpv4 := m.intranetIpv4);
    var m4 := m3.(extranetIpv4 := m.extranetIpv4);
    var m5 := m4.(intranetIpv6 := m.intranetIpv6);
    var m6 := m5.(extranetIpv6 := m.extranetIpv6);
    PackagedTexts(0x1a, m.intranetIpv4, m2);
    Appended(m2, m.intranetIpv4);
    assert [] + m.intranetIpv4 == m.intranetIpv4;
    PackagedTexts(0x22, m.extranetIpv4, m3);
    Appended(m3, m.extranetIpv4);
    assert [] + m.extranetIpv4 == m.extranetIpv4;
    PackagedTexts(0x2a, m.intranetIpv6, m4);
    Appended(m4, m.intranetIpv6);
    assert [] + m.intranetIpv6 == m.intranetIpv6;
    PackagedTexts(0x32, m.extranetIpv6, m5);
    Appended(m5, m.extranetIpv6);
    assert [] + m.extranetIpv6 == m.extranetIpv6;
    PackagedThen(d, rest, m5, m6, m);
    PackagedThen(c, d + rest, m4, m5, m);
    PackagedThen(b, c + (d + rest), m3, m4, m);
    PackagedThen(a, b + (c + (d + rest)), m2, m3, m);
  }

  /** PackagedData: the records, the four lists in their order, and the plain strings. */
  lemma PackagedRoundTrip(m: PackagedData)
    requires |PackagedBytes(m)| < TWO63
    ensures ParsePackaged(PackagedBytes(m), NO_PACKAGE) == Ok(m)
  {
    hide ParsePackaged, BytesField, RepeatedField, RecordsBytes;
    var tail := BytesField(0x3a, m.hostname) + (BytesField(0x42, m.version) + BytesField(0x4a, m.product));
    var m1 := NO_PACKAGE.(records := m.records);
    var m2 := m1.(agentId := m.agentId);
    PackagedTail(m, m.(hostname := [], version := [], product := []));
    PackagedLists(m, m2, tail);
    var lists := RepeatedField(0x1a, m.intranetIpv4) + (RepeatedField(0x22, m.extranetIpv4)
      + (RepeatedField(0x2a, m.intranetIpv6) + (RepeatedField(0x32, m.extranetIpv6) + tail)));
    PackagedBytesField(0x12, m.agentId, m1);
    PackagedThen(BytesField(0x12, m.agentId), lists, m1, m2, m);
    PackagedRecords(m.records, NO_PACKAGE);
    assert [] + m.records == m.records;
    PackagedThen(RecordsBytes(m.records), BytesField(0x12, m.agentId) + lists, NO_PACKAGE, m1, m);
  }

  // ------------------------------------------------------------------------------------------
  // Unknown fields.
  // ------------------------------------------------------------------------------------------

  /** k is a field boundary of d: decoding d into m comes by it. */
  ghost predicate EncodedBoundary(d: seq<byte>, k: nat, m: EncodedRecord) {
    EncodedSound(); ComesBy(EncodedField, d, 0, k, m)
  }
  ghost predicate RecordBoundary(d: seq<byte>, k: nat, m: Record) { RecordSound(); ComesBy(RecordField, d, 0, k, m) }
  ghost predicate PackagedBoundary(d: seq<byte>, k: nat, m: PackagedData) {
    PackagedSound(); ComesBy(PackagedField, d, 0, k, m)
  }
  ghost predicate PayloadBoundary(d: seq<byte>, k: nat, m: Payload) {
    PayloadSound(); ComesBy(PayloadField, d, 0, k, m)
  }

  /** Inserting any well-formed field of a number the message does not know, at any field boundary,
      leaves the decoded value (or the rejection) as it was. */
  lemma EncodedIgnoresUnknown(a: seq<byte>, x: Field, b: seq<byte>, m: EncodedRecord)
    requires WellFormed(x) && x.num > 3 && |a + FieldBytes(x) + b| < TWO63
    requires EncodedBoundary(a + b, |a|, m)
    ensures Agree(ParseEncoded(a + FieldBytes(x) + b, m), ParseEncoded(a + b, m))
  {
    EncodedSound();
    FieldsContained();
    hide Proper, Nearby, Shifts, Contained, FieldBytes, WellFormed, Parse, ComesBy;
    IgnoredAtBoundary(EncodedField, a, x, b, m);
  }

  lemma RecordIgnoresUnknown(a: seq<byte>, x: Field, b: seq<byte>, m: Record)
    requires WellFormed(x) && x.num > 3 && |a + FieldBytes(x) + b| < TWO63
    requires RecordBoundary(a + b, |a|, m)
    ensures Agree(ParseRecord(a + FieldBytes(x) + b, m), ParseRecord(a + b, m))
  {
    RecordSound();
    FieldsContained();
    hide Proper, Nearby, Shifts, Contained, FieldBytes, WellFormed, Parse, ComesBy;
    IgnoredAtBoundary(RecordField, a, x, b, m);
  }

  lemma PackagedIgnoresUnknown(a: seq<byte>, x: Field, b: seq<byte>, m: PackagedData)
    requires WellFormed(x) && x.num > 9 && |a + FieldBytes(x) + b| < TWO63
    requires PackagedBoundary(a + b, |a|, m)
    ensures Agree(ParsePackaged(a + FieldBytes(x) + b, m), ParsePackaged(a + b, m))
  {
    PackagedSound();
    FieldsContained();
    hide Proper, Nearby, Shifts, Contained, FieldBytes, WellFormed, Parse, ComesBy;
    IgnoredAtBoundary(PackagedField, a, x, b, m);
  }

  /** A map entry may read strings beyond its own end, so for a Payload the part in front of the
      insertion must be accepted on its own: then none of its entries reaches beyond it. */
  lemma PayloadIgnoresUnknown(a: seq<byte>, x: Field, b: seq<byte>, m: Payload)
    requires WellFormed(x) && x.num > 1 && |a + FieldBytes(x) + b| < TWO63 && ParsePayload(a, m).Ok?
    ensures Agree(ParsePayload(a + FieldBytes(x) + b, m), ParsePayload(a + b, m))
  {
    PayloadSound();
    hide Proper, Nearby, Shifts, FieldBytes, WellFormed, Parse;
    UnknownFieldIgnored(PayloadField, a, x, b, m);
  }

  /** Without that it fails: the entry 12 01 of length two takes its one value byte from behind. */
  lemma OverrunningEntry()
    ensures var a, b, x: Field := [0xa, 2, 0x12, 1], [0x10, 0], Word64(3, 0);
      && WellFormed(x) && PayloadBoundary(a + b, |a|, NO_PAYLOAD) && ParsePayload(a, NO_PAYLOAD).Err?
      && ParsePayload(a + b, NO_PAYLOAD) == Ok(Payload(map[[] := [0x10]]))
      && ParsePayload(a + FieldBytes(x) + b, NO_PAYLOAD) == Ok(Payload(map[[] := [0x18]]))
  {
    hide ParsePayload, PayloadBoundary;
    assert V.Encode(24) == [24] && V.Encode(0) == [0];
    assert FieldBytes(Word64(3, 0)) == [0x18, 0];
    assert [0xa, 2, 0x12, 1] + [0x10, 0] == [0xa, 2, 0x12, 1, 0x10, 0];
    assert [0xa, 2, 0x12, 1] + [0x18, 0] + [0x10, 0] == [0xa, 2, 0x12, 1, 0x18, 0, 0x10, 0];
    OverrunAlone();
    OverrunBefore();
    OverrunAfter();
  }

  lemma OverrunAlone()
    ensures ParsePayload([0xa, 2, 0x12, 1], NO_PAYLOAD).Err?
  {
    hide Proper, Nearby, Shifts, V.Decode;
    PayloadSound();
    var a: seq<byte> := [0xa, 2, 0x12, 1];
    ShortTag(a, 0, 0xa);
    ShortTag(a, 1, 2);
    ShortTag(a, 2, 0x12);
    ShortTag(a, 3, 1);
    assert Entry(a, 2, 4, Pair([], [])).Err?;
    assert Step(PayloadField, a, 0, NO_PAYLOAD).Err?;
  }

  lemma OverrunBefore()
    ensures var d := [0xa, 2, 0x12, 1, 0x10, 0];
      ParsePayload(d, NO_PAYLOAD) == Ok(Payload(map[[] := [0x10]])) && PayloadBoundary(d, 4, NO_PAYLOAD)
  {
    hide Proper, Nearby, Shifts, Step;
    PayloadSound();
    var d: seq<byte> := [0xa, 2, 0x12, 1, 0x10, 0];
    var m1 := Payload(map[[] := [0x10]]);
    OverrunStep(d, 0x10);
    SmallUnknown(d, 4, m1);
    assert Parse(PayloadField, d, 4, m1) == Ok(m1);
  }

  lemma OverrunAfter()
    ensures ParsePayload([0xa, 2, 0x12, 1, 0x18, 0, 0x10, 0], NO_PAYLOAD) == Ok(Payload(map[[] := [0x18]]))
  {
    hide Proper, Nearby, Shifts, Step;
    PayloadSound();
    var d: seq<byte> := [0xa, 2, 0x12, 1, 0x18, 0, 0x10, 0];
    var m1 := Payload(map[[] := [0x18]]);
    OverrunStep(d, 0x18);
    SmallUnknown(d, 4, m1);
    SmallUnknown(d, 6, m1);
    assert Parse(PayloadField, d, 6, m1) == Ok(m1);
    assert Parse(PayloadField, d, 4, m1) == Ok(m1);
  }

  /** And the condition is not necessary: if a later entry sets the same key, what was read beyond
      the end does not show. */
  lemma OverwrittenOverrun()
    ensures var a, b, x: Field := [0xa, 2, 0x12, 1], [0x10, 0, 0xa, 0], Word64(3, 0);
      && ParsePayload(a, NO_PAYLOAD).Err?
      && ParsePayload(a + FieldBytes(x) + b, NO_PAYLOAD) == ParsePayload(a + b, NO_PAYLOAD) ==
         Ok(Payload(map[[] := []]))
  {
    hide ParsePayload;
    assert V.Encode(24) == [24] && V.Encode(0) == [0];
    assert FieldBytes(Word64(3, 0)) == [0x18, 0];
    assert [0xa, 2, 0x12, 1] + [0x10, 0, 0xa, 0] == [0xa, 2, 0x12, 1, 0x10, 0, 0xa, 0];
    assert [0xa, 2, 0x12, 1] + [0x18, 0] + [0x10, 0, 0xa, 0] == [0xa, 2, 0x12, 1, 0x18, 0, 0x10, 0, 0xa, 0];
    OverrunAlone();
    OverwrittenBefore();
    OverwrittenAfter();
  }

  lemma OverwrittenBefore()
    ensures ParsePayload([0xa, 2, 0x12, 1, 0x10, 0, 0xa, 0], NO_PAYLOAD) == Ok(Payload(map[[] := []]))
  {
    hide Proper, Nearby, Shifts, Step;
    PayloadSound();
    var d: seq<byte> := [0xa, 2, 0x12, 1, 0x10, 0, 0xa, 0];
    var m1, m2 := Payload(map[[] := [0x10]]), Payload(map[[] := []]);
    OverrunStep(d, 0x10);
    SmallUnknown(d, 4, m1);
    EmptyEntry(d, 6, m1);
    assert m1.fields[[] := []] == m2.fields;
    assert Parse(PayloadField, d, 8, m2) == Ok(m2);
    assert Parse(PayloadField, d, 6, m1) == Ok(m2);
    assert Parse(PayloadField, d, 4, m1) == Ok(m2);
  }

  lemma OverwrittenAfter()
    ensures ParsePayload([0xa, 2, 0x12, 1, 0x18, 0, 0x10, 0, 0xa, 0], NO_PAYLOAD) == Ok(Payload(map[[] := []]))
  {
    hide Proper, Nearby, Shifts, Step;
    PayloadSound();
    var d: seq<byte> := [0xa, 2, 0x12, 1, 0x18, 0, 0x10, 0, 0xa, 0];
    var m1, m2 := Payload(map[[] := [0x18]]), Payload(map[[] := []]);
    OverrunStep(d, 0x18);
    SmallUnknown(d, 4, m1);
    SmallUnknown(d, 6, m1);
    EmptyEntry(d, 8, m1);
    assert m1.fields[[] := []] == m2.fields;
    assert Parse(PayloadField, d, 10, m2) == Ok(m2);
    assert Parse(PayloadField, d, 8, m1) == Ok(m2);
    assert Parse(PayloadField, d, 6, m1) == Ok(m2);
    assert Parse(PayloadField, d, 4, m1) == Ok(m2);
  }

  lemma EmptyEntry(d: seq<byte>, i: nat, m: Payload)
    requires i + 2 <= |d| < 20 && d[i] == 0xa && d[i + 1] == 0
    ensures Step(PayloadField, d, i, m) == Ok(At(Payload(m.fields[[] := []]), i + 2))
  {
    hide V.Decode;
    ShortTag(d, i, 0xa);
    ShortTag(d, i + 1, 0);
    assert Entry(d, i + 2, i + 2, Pair([], [])) == Ok(Pair([], []));
  }

  lemma OverrunStep(d: seq<byte>, c: byte)
    requires 5 <= |d| < 20 && d[..5] == [0xa, 2, 0x12, 1, c]
    ensures Step(PayloadField, d, 0, NO_PAYLOAD) == Ok(At(Payload(map[[] := [c]]), 4))
  {
    hide V.Decode;
    assert d[0] == d[..5][0] && d[1] == d[..5][1] && d[2] == d[..5][2] && d[3] == d[..5][3] && d[4] == d[..5][4];
    ShortTag(d, 0, 0xa);
    ShortTag(d, 1, 2);
    ShortTag(d, 2, 0x12);
    ShortTag(d, 3, 1);
    assert d[4..5] == [c];
    assert Entry(d, 5, 4, Pair([], [c])) == Ok(Pair([], [c]));
    assert Entry(d, 2, 4, Pair([], [])) == Ok(Pair([], [c]));
  }

  lemma SmallUnknown(d: seq<byte>, i: nat, m: Payload)
    requires i + 2 <= |d| < 20 && (d[i] == 0x10 || d[i] == 0x18) && d[i + 1] == 0
    ensures Step(PayloadField, d, i, m) == Ok(At(m, i + 2))
  {
    hide V.Decode;
    ShortTag(d, i, d[i]);
    var s := d[i..];
    ShortTag(s, 0, d[i]);
    ShortTag(s, 1, 0);
    assert Skip(s) == Ok(2);
  }
}
