/** What the messages mean field by field, after agent/proto/grpc.proto: every list of well-formed
    fields, in any order, repeated, unknown or of a wrong wire type, decodes to what its fields say;
    and what is marshalled is such a list, with the numbers of the schema. */
module FieldMeaning {
  import opened Bytes
  import opened Options
  import opened V = Varint
  import opened Wire
  import opened MessageLoop
  import opened Messages
  import opened Encoding

  // ------------------------------------------------------------------------------------------
  // The schema.
  // ------------------------------------------------------------------------------------------

  /** EncodedRecord: int32 data_type = 1; int64 timestamp = 2; bytes data = 3. */
  function EncodedTakes(x: Field, m: EncodedRecord): Result<EncodedRecord>
    requires WellFormed(x)
  {
    match x.num
    case 1 => if x.Word64? then Ok(m.(dataType := ToInt32(x.v))) else Err(WrongWireType)
    case 2 => if x.Word64? then Ok(m.(timestamp := ToInt64(x.v))) else Err(WrongWireType)
    case 3 => if x.Chunk? then Ok(m.(data := x.bytes)) else Err(WrongWireType)
    case _ => Ok(m)
  }

  /** Record: the same with Payload data = 3, which is merged if it comes again. */
  function RecordTakes(x: Field, m: Record): Result<Record>
    requires WellFormed(x)
  {
    match x.num
    case 1 => if x.Word64? then Ok(m.(dataType := ToInt32(x.v))) else Err(WrongWireType)
    case 2 => if x.Word64? then Ok(m.(timestamp := ToInt64(x.v))) else Err(WrongWireType)
    case 3 =>
      if !x.Chunk? then Err(WrongWireType)
      else
        (match ParsePayload(x.bytes, if m.data.Some? then m.data.value else NO_PAYLOAD)
         case Err(e) => Err(e)
         case Ok(p) => Ok(m.(data := Some(p))))
    case _ => Ok(m)
  }

  /** PackagedData: repeated EncodedRecord records = 1; string agent_id = 2; the four repeated lists of
      addresses = 3 to 6; string hostname = 7; string version = 8; string product = 9. */
  function PackagedTakes(x: Field, m: PackagedData): Result<PackagedData> {
    if x.num > 9 then Ok(m)
    else if !x.Chunk? then Err(WrongWireType)
    else
      match x.num
      case 1 =>
        (match ParseEncoded(x.bytes, NO_RECORD)
         case Err(e) => Err(e)
         case Ok(r) => Ok(m.(records := m.records + [r])))
      case 2 => Ok(m.(agentId := x.bytes))
      case 3 => Ok(m.(intranetIpv4 := m.intranetIpv4 + [x.bytes]))
      case 4 => Ok(m.(extranetIpv4 := m.extranetIpv4 + [x.bytes]))
      case 5 => Ok(m.(intranetIpv6 := m.intranetIpv6 + [x.bytes]))
      case 6 => Ok(m.(extranetIpv6 := m.extranetIpv6 + [x.bytes]))
      case 7 => Ok(m.(hostname := x.bytes))
      case 8 => Ok(m.(version := x.bytes))
      case 9 => Ok(m.(product := x.bytes))
      case _ => Ok(m)
  }

  function EncodedMeans(fs: Fields, m: EncodedRecord): Result<EncodedRecord>
    requires AllWellFormed(fs)
  {
    if fs.Nil? then Ok(m)
    else match EncodedTakes(fs.head, m) case Err(e) => Err(e) case Ok(m') => EncodedMeans(fs.tail, m')
  }

  function RecordMeans(fs: Fields, m: Record): Result<Record>
    requires AllWellFormed(fs)
  {
    if fs.Nil? then Ok(m)
    else match RecordTakes(fs.head, m) case Err(e) => Err(e) case Ok(m') => RecordMeans(fs.tail, m')
  }

  function PackagedMeans(fs: Fields, m: PackagedData): Result<PackagedData> {
    if fs.Nil? then Ok(m)
    else match PackagedTakes(fs.head, m) case Err(e) => Err(e) case Ok(m') => PackagedMeans(fs.tail, m')
  }

  // ------------------------------------------------------------------------------------------
  // One field.
  // ------------------------------------------------------------------------------------------

  function WireType(x: Field): nat {
    match x
    case Word64(_, _) => 0
    case Fixed64(_, _) => 1
    case Chunk(_, _) => 2
    case Group(_, _) => 3
    case Fixed32(_, _) => 5
  }

  function BodyBytes(x: Field): seq<byte> {
    match x
    case Word64(_, v) => V.Encode(v)
    case Fixed64(_, s) => s
    case Chunk(_, s) => LengthPrefixed(s)
    case Group(n, fs) => AllBytes(fs) + Tag(n, 4)
    case Fixed32(_, s) => s
  }

  lemma TagAndBody(x: Field)
    ensures FieldBytes(x) == Tag(x.num, WireType(x)) + BodyBytes(x)
  {
    hide V.Encode, LengthPrefixed;
  }

  /** The tag of the field at i, and what the two kinds of body make of what follows. */
  lemma FieldReads(d: seq<byte>, i: nat, x: Field)
    requires |d| < TWO63 && WellFormed(x) && Has(d, i, FieldBytes(x))
    ensures var j, end := i + |Tag(x.num, WireType(x))|, i + |FieldBytes(x)|;
      && V.Decode(d, i) == Ok(Read(8 * x.num + WireType(x), j))
      && (8 * x.num + WireType(x)) % 8 == WireType(x) && ToInt32((8 * x.num + WireType(x)) / 8) == x.num
      && VarintBody(d, j, WireType(x)) == (if x.Word64? then Ok(Read(x.v, end)) else Err(WrongWireType))
      && (if x.Chunk?
           then ChunkBody(d, j, 2) == Ok(Span(end - |x.bytes|, end)) && end <= |d| && d[end - |x.bytes|..end] == x.bytes
          else ChunkBody(d, j, WireType(x)) == Err(WrongWireType))
  {
    hide V.Decode, V.Encode, Tag, Has;
    TagAndBody(x);
    HasParts(d, i, Tag(x.num, WireType(x)), BodyBytes(x));
    TagReads(d, i, x.num, WireType(x));
    var j := i + |Tag(x.num, WireType(x))|;
    match x
    case Word64(_, v) => ReadsBack(d, j, v);
    case Chunk(_, s) => DelimitedReads(d, j, s); InsideOf(d, i, FieldBytes(x));
    case _ =>
  }

  lemma ReadsBack(d: seq<byte>, j: nat, v: nat)
    requires v < TWO64 && Has(d, j, V.Encode(v))
    ensures V.Decode(d, j) == Ok(Read(v, j + |V.Encode(v)|))
  {
    hide V.Decode, V.Encode;
    V.RoundTrip(d, j, v);
  }

  lemma InsideOf(d: seq<byte>, i: nat, s: seq<byte>)
    requires Has(d, i, s)
    ensures i + |s| <= |d|
  {
  }

  /** An unknown one is jumped over. */
  lemma FieldSkipped<M(!new)>(d: seq<byte>, i: nat, x: Field, m: M)
    requires |d| < TWO63 && WellFormed(x) && Has(d, i, FieldBytes(x))
    ensures i <= |d| && Skipped(d, i, m) == Ok(At(m, i + |FieldBytes(x)|))
  {
    hide FieldBytes;
    var e := d[i..];
    assert e[0..0 + |FieldBytes(x)|] == d[i..i + |FieldBytes(x)|];
    SkipsField(e, 0, x, 0);
  }

  /** What a step is to give for a field that ends at `next`. */
  predicate Gives<M(==)>(r: Result<At<M>>, t: Result<M>, next: nat) {
    match t
    case Ok(m) => r == Ok(At(m, next))
    case Err(e) => r == Err(e)
  }

  lemma EncodedStep(d: seq<byte>, i: nat, x: Field, m: EncodedRecord)
    requires |d| < TWO63 && WellFormed(x) && Has(d, i, FieldBytes(x))
    ensures i <= |d| && Gives(Step(EncodedField, d, i, m), EncodedTakes(x, m), i + |FieldBytes(x)|)
  {
    hide V.Decode, FieldBytes, Tag, VarintBody, ChunkBody, Skipped, Has;
    FieldReads(d, i, x);
    FieldSkipped(d, i, x, m);
  }

  lemma RecordStep(d: seq<byte>, i: nat, x: Field, m: Record)
    requires |d| < TWO63 && WellFormed(x) && Has(d, i, FieldBytes(x))
    ensures i <= |d| && Gives(Step(RecordField, d, i, m), RecordTakes(x, m), i + |FieldBytes(x)|)
  {
    hide V.Decode, FieldBytes, Tag, VarintBody, ChunkBody, Skipped, Has, ParsePayload;
    FieldReads(d, i, x);
    FieldSkipped(d, i, x, m);
  }

  lemma PackagedStep(d: seq<byte>, i: nat, x: Field, m: PackagedData)
    requires |d| < TWO63 && WellFormed(x) && Has(d, i, FieldBytes(x))
    ensures i <= |d| && Gives(Step(PackagedField, d, i, m), PackagedTakes(x, m), i + |FieldBytes(x)|)
  {
    hide V.Decode, FieldBytes, Tag, VarintBody, ChunkBody, Skipped, Has, ParseEncoded;
    FieldReads(d, i, x);
    FieldSkipped(d, i, x, m);
  }

  // ------------------------------------------------------------------------------------------
  // Whole messages.
  // ------------------------------------------------------------------------------------------

  lemma HasFirst(d: seq<byte>, i: nat, fs: Fields)
    requires Has(d, i, AllBytes(fs)) && fs.Cons?
    ensures Has(d, i, FieldBytes(fs.head)) && Has(d, i + |FieldBytes(fs.head)|, AllBytes(fs.tail))
    ensures |AllBytes(fs)| == |FieldBytes(fs.head)| + |AllBytes(fs.tail)| && i < |d|
  {
    hide FieldBytes;
    HasParts(d, i, FieldBytes(fs.head), AllBytes(fs.tail));
  }

  lemma {:induction false} EncodedFrom(d: seq<byte>, i: nat, fs: Fields, m: EncodedRecord)
    requires Proper(EncodedField) && |d| < TWO63 && AllWellFormed(fs) && Has(d, i, AllBytes(fs))
      && i + |AllBytes(fs)| == |d|
    ensures Parse(EncodedField, d, i, m) == EncodedMeans(fs, m)
    decreases fs
  {
    hide Proper, Step, FieldBytes, Has, EncodedTakes, WellFormed;
    if fs.Cons? {
      HasFirst(d, i, fs);
      EncodedStep(d, i, fs.head, m);
      var t := EncodedTakes(fs.head, m);
      if t.Ok? { EncodedFrom(d, i + |FieldBytes(fs.head)|, fs.tail, t.value); }
    }
  }

  lemma {:induction false} RecordFrom(d: seq<byte>, i: nat, fs: Fields, m: Record)
    requires Proper(RecordField) && |d| < TWO63 && AllWellFormed(fs) && Has(d, i, AllBytes(fs))
      && i + |AllBytes(fs)| == |d|
    ensures Parse(RecordField, d, i, m) == RecordMeans(fs, m)
    decreases fs
  {
    hide Proper, Step, FieldBytes, Has, RecordTakes, WellFormed;
    if fs.Cons? {
      HasFirst(d, i, fs);
      RecordStep(d, i, fs.head, m);
      var t := RecordTakes(fs.head, m);
      if t.Ok? { RecordFrom(d, i + |FieldBytes(fs.head)|, fs.tail, t.value); }
    }
  }

  lemma {:induction false} PackagedFrom(d: seq<byte>, i: nat, fs: Fields, m: PackagedData)
    requires Proper(PackagedField) && |d| < TWO63 && AllWellFormed(fs) && Has(d, i, AllBytes(fs))
      && i + |AllBytes(fs)| == |d|
    ensures Parse(PackagedField, d, i, m) == PackagedMeans(fs, m)
    decreases fs
  {
    hide Proper, Step, FieldBytes, Has, PackagedTakes, WellFormed;
    if fs.Cons? {
      HasFirst(d, i, fs);
      PackagedStep(d, i, fs.head, m);
      var t := PackagedTakes(fs.head, m);
      if t.Ok? { PackagedFrom(d, i + |FieldBytes(fs.head)|, fs.tail, t.value); }
    }
  }

  lemma HasAll(fs: Fields)
    ensures Has(AllBytes(fs), 0, AllBytes(fs))
  {
  }

  /** Any list of well-formed fields decodes to what the fields mean, or fails with the error of the
      first that has none. */
  lemma EncodedMeaning(fs: Fields, m: EncodedRecord)
    requires AllWellFormed(fs) && |AllBytes(fs)| < TWO63
    ensures ParseEncoded(AllBytes(fs), m) == EncodedMeans(fs, m)
  {
    hide Proper, Parse, Has, EncodedMeans, AllBytes;
    EncodedSound();
    HasAll(fs);
    EncodedFrom(AllBytes(fs), 0, fs, m);
  }

  lemma RecordMeaning(fs: Fields, m: Record)
    requires AllWellFormed(fs) && |AllBytes(fs)| < TWO63
    ensures ParseRecord(AllBytes(fs), m) == RecordMeans(fs, m)
  {
    hide Proper, Parse, Has, RecordMeans, AllBytes;
    RecordSound();
    HasAll(fs);
    RecordFrom(AllBytes(fs), 0, fs, m);
  }

  lemma PackagedMeaning(fs: Fields, m: PackagedData)
    requires AllWellFormed(fs) && |AllBytes(fs)| < TWO63
    ensures ParsePackaged(AllBytes(fs), m) == PackagedMeans(fs, m)
  {
    hide Proper, Parse, Has, PackagedMeans, AllBytes;
    PackagedSound();
    HasAll(fs);
    PackagedFrom(AllBytes(fs), 0, fs, m);
  }

  // ------------------------------------------------------------------------------------------
  // Payload: map<string, string> fields = 1, an entry with key = 1 and value = 2.
  // ------------------------------------------------------------------------------------------

  /** A part of a Payload: a map entry, given by its fields, or some other field. */
  datatype Part = MapEntry(es: Fields) | Other(x: Field)

  /** Key and value of an entry are strings; anything else in it is unknown. */
  predicate EntryFields(es: Fields) {
    es.Nil? || (WellFormed(es.head) && (es.head.num <= 2 ==> es.head.Chunk?) && EntryFields(es.tail))
  }

  predicate GoodPart(p: Part) {
    match p
    case MapEntry(es) => EntryFields(es)
    case Other(x) => WellFormed(x) && (x.num == 1 ==> !x.Chunk?)
  }

  predicate GoodParts(ps: seq<Part>) { forall i :: 0 <= i < |ps| ==> GoodPart(ps[i]) }

  function PartField(p: Part): Field { match p case MapEntry(es) => Chunk(1, AllBytes(es)) case Other(x) => x }

  function PartsBytes(ps: seq<Part>): seq<byte> {
    if ps == [] then [] else FieldBytes(PartField(ps[0])) + PartsBytes(ps[1..])
  }

  function EntryTakes(x: Field, p: Pair): Pair {
    if !x.Chunk? then p else if x.num == 1 then p.(key := x.bytes) else if x.num == 2 then p.(value := x.bytes) else p
  }

  /** The last key and the last value of an entry count; a missing one is empty. */
  function EntryMeans(es: Fields, p: Pair): Pair {
    if es.Nil? then p else EntryMeans(es.tail, EntryTakes(es.head, p))
  }

  function PayloadMeans(ps: seq<Part>, m: Payload): Result<Payload> {
    if ps == [] then Ok(m)
    else
      match ps[0]
      case MapEntry(es) =>
        var p := EntryMeans(es, Pair([], []));
        PayloadMeans(ps[1..], Payload(m.fields[p.key := p.value]))
      case Other(x) => if x.num == 1 then Err(WrongWireType) else PayloadMeans(ps[1..], m)
  }

  lemma {:induction false} EntryFrom(d: seq<byte>, i: nat, post: nat, es: Fields, p: Pair)
    requires |d| < TWO63 && EntryFields(es) && Has(d, i, AllBytes(es)) && i + |AllBytes(es)| == post <= |d|
    ensures Entry(d, i, post, p) == Ok(EntryMeans(es, p))
    decreases es
  {
    hide FieldBytes, Has, WellFormed, EntryTakes, V.Decode, Delimited;
    if es.Cons? {
      var x := es.head;
      HasFirst(d, i, es);
      EntryStep(d, i, post, x, p);
      EntryFrom(d, i + |FieldBytes(x)|, post, es.tail, EntryTakes(x, p));
    }
  }

  lemma EntryStep(d: seq<byte>, i: nat, post: nat, x: Field, p: Pair)
    requires |d| < TWO63 && WellFormed(x) && Has(d, i, FieldBytes(x)) && (x.num <= 2 ==> x.Chunk?)
    requires i + |FieldBytes(x)| <= post <= |d|
    ensures Entry(d, i, post, p) == Entry(d, i + |FieldBytes(x)|, post, EntryTakes(x, p))
  {
    hide V.Decode, FieldBytes, Has, Tag, Skip;
    FieldReads(d, i, x);
    FieldSkipped(d, i, x, p);
  }

  lemma PayloadStep(d: seq<byte>, i: nat, part: Part, m: Payload)
    requires |d| < TWO63 && GoodPart(part) && Has(d, i, FieldBytes(PartField(part)))
    ensures i <= |d|
    ensures var t := match part
        case MapEntry(es) => (var p := EntryMeans(es, Pair([], [])); Ok(Payload(m.fields[p.key := p.value])))
        case Other(x) => if x.num == 1 then Err(WrongWireType) else Ok(m);
      Gives(Step(PayloadField, d, i, m), t, i + |FieldBytes(PartField(part))|)
  {
    hide V.Decode, FieldBytes, Tag, VarintBody, ChunkBody, Skipped, Has, Entry, AllBytes;
    var x := PartField(part);
    FieldReads(d, i, x);
    FieldSkipped(d, i, x, m);
    if part.MapEntry? {
      var end := i + |FieldBytes(x)|;
      EntryThere(d, end - |x.bytes|, end, part.es);
      EntryFrom(d, end - |x.bytes|, end, part.es, Pair([], []));
    }
  }

  lemma EntryThere(d: seq<byte>, j: nat, end: nat, es: Fields)
    requires j <= end <= |d| && d[j..end] == AllBytes(es)
    ensures Has(d, j, AllBytes(es))
  {
  }

  lemma {:induction false} PayloadFrom(d: seq<byte>, i: nat, ps: seq<Part>, m: Payload)
    requires Proper(PayloadField) && |d| < TWO63 && GoodParts(ps) && Has(d, i, PartsBytes(ps))
      && i + |PartsBytes(ps)| == |d|
    ensures Parse(PayloadField, d, i, m) == PayloadMeans(ps, m)
    decreases |ps|
  {
    hide Proper, Step, FieldBytes, Has, GoodPart, EntryMeans;
    if ps != [] {
      var b := FieldBytes(PartField(ps[0]));
      HasParts(d, i, b, PartsBytes(ps[1..]));
      InsideOf(d, i, b);
      PayloadStep(d, i, ps[0], m);
      match ps[0] {
        case MapEntry(es) =>
          var p := EntryMeans(es, Pair([], []));
          PayloadFrom(d, i + |b|, ps[1..], Payload(m.fields[p.key := p.value]));
        case Other(x) => if x.num != 1 { PayloadFrom(d, i + |b|, ps[1..], m); }
      }
    }
  }

  lemma PayloadMeaning(ps: seq<Part>, m: Payload)
    requires GoodParts(ps) && |PartsBytes(ps)| < TWO63
    ensures ParsePayload(PartsBytes(ps), m) == PayloadMeans(ps, m)
  {
    hide Proper, Parse, PayloadMeans, PartsBytes, GoodParts;
    PayloadSound();
    var d := PartsBytes(ps);
    assert d[0..0 + |d|] == d;
    PayloadFrom(d, 0, ps, m);
  }

  // ------------------------------------------------------------------------------------------
  // What is marshalled, as fields with the numbers of the schema.
  // ------------------------------------------------------------------------------------------

  function IntIn(num: nat, x: int64, rest: Fields): Fields {
    if x == 0 then rest else Cons(Word64(num, Unsigned(x)), rest)
  }

  function BytesIn(num: nat, s: seq<byte>, rest: Fields): Fields { if s == [] then rest else Cons(Chunk(num, s), rest) }

  function TextsIn(num: nat, ss: seq<text>, rest: Fields): Fields {
    if ss == [] then rest else Cons(Chunk(num, ss[0]), TextsIn(num, ss[1..], rest))
  }

  function EncodedFields(m: EncodedRecord): Fields {
    IntIn(1, m.dataType, IntIn(2, m.timestamp, BytesIn(3, m.data, Nil)))
  }

  /** A Record whose payload marshals to `data`. */
  function RecordFields(m: Record, data: seq<byte>): Fields {
    IntIn(1, m.dataType, IntIn(2, m.timestamp, if m.data.None? then Nil else Cons(Chunk(3, data), Nil)))
  }

  function RecordsIn(rs: seq<EncodedRecord>, rest: Fields): Fields {
    if rs == [] then rest else Cons(Chunk(1, AllBytes(EncodedFields(rs[0]))), RecordsIn(rs[1..], rest))
  }

  function PackagedFields(m: PackagedData): Fields {
    RecordsIn(m.records, BytesIn(2, m.agentId, TextsIn(3, m.intranetIpv4, TextsIn(4, m.extranetIpv4,
      TextsIn(5, m.intranetIpv6, TextsIn(6, m.extranetIpv6,
      BytesIn(7, m.hostname, BytesIn(8, m.version, BytesIn(9, m.product, Nil)))))))))
  }

  function PayloadParts(ks: seq<text>, fields: map<text, text>): seq<Part>
    requires forall k :: k in ks ==> k in fields
  {
    if ks == [] then []
    else [MapEntry(Cons(Chunk(1, ks[0]), Cons(Chunk(2, fields[ks[0]]), Nil)))] + PayloadParts(ks[1..], fields)
  }

  lemma SmallTag(num: nat, wt: nat)
    requires num < 16 && wt < 8
    ensures Tag(num, wt) == [8 * num + wt]
  {
  }

  lemma IntInBytes(num: nat, x: int64, rest: Fields)
    requires 1 <= num < 16
    ensures AllBytes(IntIn(num, x, rest)) == IntField(8 * num, x) + AllBytes(rest)
  {
    hide V.Encode;
    SmallTag(num, 0);
    assert [] + AllBytes(rest) == AllBytes(rest);
  }

  lemma BytesInBytes(num: nat, s: seq<byte>, rest: Fields)
    requires 1 <= num < 16
    ensures AllBytes(BytesIn(num, s, rest)) == BytesField(8 * num + 2, s) + AllBytes(rest)
    ensures AllBytes(Cons(Chunk(num, s), rest)) == ChunkField(8 * num + 2, s) + AllBytes(rest)
  {
    hide V.Encode;
    SmallTag(num, 2);
    assert [] + AllBytes(rest) == AllBytes(rest);
  }

  lemma {:induction false} TextsInBytes(num: nat, ss: seq<text>, rest: Fields)
    requires 1 <= num < 16
    ensures AllBytes(TextsIn(num, ss, rest)) == RepeatedField(8 * num + 2, ss) + AllBytes(rest)
    decreases |ss|
  {
    hide ChunkField, BytesField, FieldBytes;
    if ss == [] {
      assert [] + AllBytes(rest) == AllBytes(rest);
    } else {
      TextsInBytes(num, ss[1..], rest);
      BytesInBytes(num, ss[0], TextsIn(num, ss[1..], rest));
    }
  }

  /** The bytes of an EncodedRecord ... */
  lemma EncodedSchema(m: EncodedRecord)
    ensures EncodedBytes(m) == AllBytes(EncodedFields(m))
  {
    hide IntField, BytesField, AllBytes, IntIn, BytesIn;
    var c := BytesIn(3, m.data, Nil);
    IntInBytes(1, m.dataType, IntIn(2, m.timestamp, c));
    IntInBytes(2, m.timestamp, c);
    BytesInBytes(3, m.data, Nil);
    NoFields();
  }

  lemma NoFields()
    ensures AllBytes(Nil) == []
  {
  }

  /** ... of a Record ... */
  lemma RecordSchema(m: Record, data: seq<byte>)
    ensures RecordBytes(m, data) == AllBytes(RecordFields(m, data))
  {
    hide IntField, ChunkField, AllBytes, IntIn;
    var c := if m.data.None? then Nil else Cons(Chunk(3, data), Nil);
    IntInBytes(1, m.dataType, IntIn(2, m.timestamp, c));
    IntInBytes(2, m.timestamp, c);
    BytesInBytes(3, data, Nil);
    NoFields();
  }

  lemma {:induction false} RecordsInBytes(rs: seq<EncodedRecord>, rest: Fields)
    ensures AllBytes(RecordsIn(rs, rest)) == RecordsBytes(rs) + AllBytes(rest)
    decreases |rs|
  {
    hide ChunkField, BytesField, FieldBytes, EncodedBytes, EncodedFields;
    if rs == [] {
      assert [] + AllBytes(rest) == AllBytes(rest);
    } else {
      RecordsInBytes(rs[1..], rest);
      EncodedSchema(rs[0]);
      BytesInBytes(1, AllBytes(EncodedFields(rs[0])), RecordsIn(rs[1..], rest));
    }
  }

  /** ... of a PackagedData ... */
  lemma PackagedSchema(m: PackagedData)
    ensures PackagedBytes(m) == AllBytes(PackagedFields(m))
  {
    hide RecordsBytes, BytesField, RepeatedField, AllBytes, RecordsIn, BytesIn, TextsIn;
    var h := BytesIn(8, m.version, BytesIn(9, m.product, Nil));
    var g := BytesIn(7, m.hostname, h);
    var f := TextsIn(6, m.extranetIpv6, g);
    var e := TextsIn(5, m.intranetIpv6, f);
    var d := TextsIn(4, m.extranetIpv4, e);
    var c := TextsIn(3, m.intranetIpv4, d);
    var b := BytesIn(2, m.agentId, c);
    RecordsInBytes(m.records, b);
    BytesInBytes(2, m.agentId, c);
    TextsInBytes(3, m.intranetIpv4, d);
    TextsInBytes(4, m.extranetIpv4, e);
    TextsInBytes(5, m.intranetIpv6, f);
    TextsInBytes(6, m.extranetIpv6, g);
    BytesInBytes(7, m.hostname, h);
    BytesInBytes(8, m.version, BytesIn(9, m.product, Nil));
    BytesInBytes(9, m.product, Nil);
    NoFields();
    assert BytesField(0x4a, m.product) + [] == BytesField(0x4a, m.product);
  }

  /** ... and of a Payload, in the order ks of its keys. */
  lemma {:induction false} PayloadSchema(ks: seq<text>, fields: map<text, text>)
    requires forall k :: k in ks ==> k in fields
    ensures FieldsBytes(ks, fields) == PartsBytes(PayloadParts(ks, fields))
    decreases |ks|
  {
    hide ChunkField, FieldBytes, BytesField;
    if ks != [] {
      var k, v := ks[0], fields[ks[0]];
      PayloadSchema(ks[1..], fields);
      BytesInBytes(1, k, Cons(Chunk(2, v), Nil));
      BytesInBytes(2, v, Nil);
      NoFields();
      assert ChunkField(0x12, v) + [] == ChunkField(0x12, v);
      var es := Cons(Chunk(1, k), Cons(Chunk(2, v), Nil));
      assert AllBytes(es) == EntryBytes(k, v);
      BytesInBytes(1, AllBytes(es), Nil);
      assert FieldBytes(Chunk(1, AllBytes(es))) + [] == FieldBytes(Chunk(1, AllBytes(es)));
      assert ChunkField(0xa, AllBytes(es)) + [] == ChunkField(0xa, AllBytes(es));
      assert PayloadParts(ks, fields)[1..] == PayloadParts(ks[1..], fields);
    }
  }

  // ------------------------------------------------------------------------------------------
  // What is rejected.
  // ------------------------------------------------------------------------------------------

  /** A field cut short is rejected, wherever it is cut. */
  lemma CutShort<M(!new)>(f: Handler<M>, d: seq<byte>, k: nat, m: M)
    requires Sound(f) && 0 < k < |d| && Step(f, d, 0, m).Ok? && Step(f, d, 0, m).value.next == |d|
    ensures Parse(f, d[..k], 0, m).Err?
  {
    hide Step, Proper, Nearby, Shifts;
    var a := d[..k];
    assert a + d[k..] == d;
    if Step(f, a, 0, m).Ok? {
      StepMoves(f, a, 0, m);
      StepLocal(f, a, d[k..], 0, m);
    }
  }

  /** So is a tag with the field number zero, and one that ends a group, behind any message. */
  lemma StrayTag<M(!new)>(f: Handler<M>, a: seq<byte>, wt: byte, num: nat, b: seq<byte>, m: M)
    requires Sound(f) && wt < 8 && num < 16 && (num == 0 || wt == 4) && |a + ([8 * num + wt] + b)| < TWO63
      && Parse(f, a, 0, m).Ok?
    ensures Parse(f, a + ([8 * num + wt] + b), 0, m).Err?
  {
    hide Proper, Nearby, Shifts, V.Decode;
    var u := [8 * num + wt] + b;
    var m1 := Parse(f, a, 0, m).value;
    OneByte(u, 8 * num + wt);
    assert Step(f, u, 0, m1).Err?;
    Concatenation(f, a, u, m);
  }

  lemma OneByte(d: seq<byte>, v: byte)
    requires |d| > 0 && d[0] == v < 128
    ensures V.Decode(d, 0) == Ok(Read(v, 1)) && ToInt32(v / 8) == v / 8
  {
  }
}
