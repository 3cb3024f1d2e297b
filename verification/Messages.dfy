/** The messages of agent/proto/grpc.pb.go that carry events, and the switch of each decoder.
    Strings are their bytes; an absent and an empty byte field are the same value. */
module Messages {
  import opened Bytes
  import opened Options
  import opened V = Varint
  import opened Wire
  import opened MessageLoop

  type text = seq<byte>

  datatype EncodedRecord = EncodedRecord(dataType: int32, timestamp: int64, data: seq<byte>)
  datatype Payload = Payload(fields: map<text, text>)
  datatype Record = Record(dataType: int32, timestamp: int64, data: Option<Payload>)
  datatype PackagedData = PackagedData(records: seq<EncodedRecord>, agentId: text,
                                       intranetIpv4: seq<text>, extranetIpv4: seq<text>,
                                       intranetIpv6: seq<text>, extranetIpv6: seq<text>,
                                       hostname: text, version: text, product: text)

  const NO_RECORD := EncodedRecord(0, 0, [])
  const NO_PAYLOAD := Payload(map[])

  // ------------------------------------------------------------------------------------------
  // Reading one field.
  // ------------------------------------------------------------------------------------------

  /** The body of a varint field. */
  function VarintBody(d: seq<byte>, j: nat, wt: nat): (r: Result<Read>)
    ensures r.Ok? ==> j < r.value.next <= |d| && r.value.v < TWO64
  {
    if wt != 0 then Err(WrongWireType) else V.Decode(d, j)
  }

  /** The body of a length-delimited field. */
  function ChunkBody(d: seq<byte>, j: nat, wt: nat): (r: Result<Span>)
    ensures r.Ok? ==> j < r.value.start <= r.value.end <= |d|
  {
    if wt != 2 then Err(WrongWireType) else Delimited(d, j)
  }

  function EncodedField(d: seq<byte>, j: nat, num: int, wt: nat, m: EncodedRecord): Handled<EncodedRecord> {
    if num == 1 then
      match VarintBody(d, j, wt)
      case Err(e) => Known(Err(e))
      case Ok(x) => Known(Ok(At(m.(dataType := ToInt32(x.v)), x.next)))
    else if num == 2 then
      match VarintBody(d, j, wt)
      case Err(e) => Known(Err(e))
      case Ok(x) => Known(Ok(At(m.(timestamp := ToInt64(x.v)), x.next)))
    else if num == 3 then
      match ChunkBody(d, j, wt)
      case Err(e) => Known(Err(e))
      case Ok(s) => Known(Ok(At(m.(data := d[s.start..s.end]), s.end)))
    else Unknown
  }

  datatype Pair = Pair(key: text, value: text)

  /** The inner loop over a map entry that ends at `post`.  Its string reads are bounded by d, not by
      the entry, and it looks at no wire type. */
  function Entry(d: seq<byte>, i: nat, post: nat, p: Pair): Result<Pair>
    requires i <= |d| && post <= |d|
    decreases |d| - i
  {
    if i >= post then Ok(p)
    else
      match V.Decode(d, i)
      case Err(e) => Err(e)
      case Ok(tag) =>
        var num := ToInt32(tag.v / 8);
        if num == 1 || num == 2 then
          match Delimited(d, tag.next)
          case Err(e) => Err(e)
          case Ok(s) =>
            var t := d[s.start..s.end];
            Entry(d, s.end, post, if num == 1 then p.(key := t) else p.(value := t))
        else
          match Skip(d[i..])
          case Err(e) => Err(e)
          case Ok(n) =>
            if i + n >= TWO63 then Err(InvalidLength)
            else if i + n > post then Err(UnexpectedEof)
            else Entry(d, i + n, post, p)
  }

  function PayloadField(d: seq<byte>, j: nat, num: int, wt: nat, m: Payload): Handled<Payload> {
    if num == 1 then
      match ChunkBody(d, j, wt)
      case Err(e) => Known(Err(e))
      case Ok(s) =>
        match Entry(d, s.start, s.end, Pair([], []))
        case Err(e) => Known(Err(e))
        case Ok(p) => Known(Ok(At(m.(fields := m.fields[p.key := p.value]), s.end)))
    else Unknown
  }

  // ------------------------------------------------------------------------------------------
  // The switches of EncodedRecord and Payload are sound.
  // ------------------------------------------------------------------------------------------

  lemma VarintBodyLocal(a: seq<byte>, b: seq<byte>, j: nat, wt: nat)
    ensures VarintBody(a, j, wt).Ok? ==> VarintBody(a + b, j, wt) == VarintBody(a, j, wt)
    ensures VarintBody(a + b, |a| + j, wt) == Moved(VarintBody(b, j, wt), |a|)
  {
    hide V.Decode;
    if VarintBody(a, j, wt).Ok? { V.Local(a, b, j); }
    V.Shift(a, b, j);
  }

  lemma ChunkBodyLocal(a: seq<byte>, b: seq<byte>, j: nat, wt: nat)
    ensures ChunkBody(a, j, wt).Ok? ==> ChunkBody(a + b, j, wt) == ChunkBody(a, j, wt)
    ensures ChunkBody(a, j, wt).Ok? ==>
      (a + b)[ChunkBody(a, j, wt).value.start..ChunkBody(a, j, wt).value.end] ==
        a[ChunkBody(a, j, wt).value.start..ChunkBody(a, j, wt).value.end]
  {
    if ChunkBody(a, j, wt).Ok? { DelimitedLocal(a, b, j); }
  }

  lemma ChunkBodyShift(a: seq<byte>, b: seq<byte>, j: nat, wt: nat)
    requires |a + b| < TWO63
    ensures ChunkBody(a + b, |a| + j, wt).Ok? <==> ChunkBody(b, j, wt).Ok?
    ensures ChunkBody(b, j, wt).Ok? ==>
      var s := ChunkBody(b, j, wt).value;
      && ChunkBody(a + b, |a| + j, wt).value == Span(|a| + s.start, |a| + s.end)
      && (a + b)[|a| + s.start..|a| + s.end] == b[s.start..s.end]
  {
    DelimitedShift(a, b, j);
  }

  lemma EncodedLocal(a: seq<byte>, b: seq<byte>, j: nat, num: int, wt: nat, m: EncodedRecord)
    ensures var h := EncodedField(a, j, num, wt, m);
      if h.Unknown? then EncodedField(a + b, j, num, wt, m).Unknown?
      else h.r.Ok? ==> EncodedField(a + b, j, num, wt, m) == h
  {
    hide VarintBody, ChunkBody;
    VarintBodyLocal(a, b, j, wt);
    ChunkBodyLocal(a, b, j, wt);
  }

  lemma EncodedShift(a: seq<byte>, b: seq<byte>, j: nat, num: int, wt: nat, m: EncodedRecord)
    requires |a + b| < TWO63
    ensures SameShifted(EncodedField(a + b, |a| + j, num, wt, m), EncodedField(b, j, num, wt, m), |a|)
  {
    hide VarintBody, ChunkBody;
    VarintBodyLocal(a, b, j, wt);
    ChunkBodyShift(a, b, j, wt);
  }

  lemma EncodedSound()
    ensures Sound(EncodedField)
  {
    forall a: seq<byte>, b: seq<byte>, j: nat, num: int, wt: nat, m: EncodedRecord
      ensures var h := EncodedField(a, j, num, wt, m);
        if h.Unknown? then EncodedField(a + b, j, num, wt, m).Unknown?
        else h.r.Ok? ==> EncodedField(a + b, j, num, wt, m) == h
    {
      EncodedLocal(a, b, j, num, wt, m);
    }
    forall a: seq<byte>, b: seq<byte>, j: nat, num: int, wt: nat, m: EncodedRecord | |a + b| < TWO63
      ensures SameShifted(EncodedField(a + b, |a| + j, num, wt, m), EncodedField(b, j, num, wt, m), |a|)
    {
      EncodedShift(a, b, j, num, wt, m);
    }
  }

  lemma {:induction false} EntryLocal(a: seq<byte>, b: seq<byte>, i: nat, post: nat, p: Pair)
    requires i <= |a| && post <= |a| && Entry(a, i, post, p).Ok?
    ensures Entry(a + b, i, post, p) == Entry(a, i, post, p)
    decreases |a| - i
  {
    hide V.Decode, Delimited, Skip;
    if i < post {
      V.Local(a, b, i);
      var tag := V.Decode(a, i).value;
      var num := ToInt32(tag.v / 8);
      if num == 1 || num == 2 {
        DelimitedLocal(a, b, tag.next);
        var s := Delimited(a, tag.next).value;
        var t := a[s.start..s.end];
        assert (a + b)[s.start..s.end] == t;
        EntryLocal(a, b, s.end, post, if num == 1 then p.(key := t) else p.(value := t));
      } else {
        var n := Skip(a[i..]).value;
        SkipHere(a, b, i);
        EntryLocal(a, b, i + n, post, p);
      }
    }
  }

  lemma SkipHere(a: seq<byte>, b: seq<byte>, i: nat)
    requires i <= |a| && Skip(a[i..]).Ok? && i + Skip(a[i..]).value <= |a|
    ensures Skip((a + b)[i..]) == Skip(a[i..])
  {
    SkipLocal(a[i..], b, 0, 0);
    assert (a + b)[i..] == a[i..] + b;
  }

  lemma {:induction false} EntryShift(a: seq<byte>, b: seq<byte>, i: nat, post: nat, p: Pair)
    requires |a + b| < TWO63 && i <= |b| && post <= |b|
    ensures Agree(Entry(a + b, |a| + i, |a| + post, p), Entry(b, i, post, p))
    decreases |b| - i
  {
    hide V.Decode, Delimited, Skip;
    if i < post {
      V.Shift(a, b, i);
      assert (a + b)[|a| + i..] == b[i..];
      if V.Decode(b, i).Ok? {
        var tag := V.Decode(b, i).value;
        var num := ToInt32(tag.v / 8);
        if num == 1 || num == 2 {
          DelimitedShift(a, b, tag.next);
          if Delimited(b, tag.next).Ok? {
            var s := Delimited(b, tag.next).value;
            var t := b[s.start..s.end];
            assert (a + b)[|a| + s.start..|a| + s.end] == t;
            EntryShift(a, b, s.end, post, if num == 1 then p.(key := t) else p.(value := t));
          }
        } else {
          EntrySkipShift(a, b, i, post, p);
        }
      }
    }
  }

  lemma {:induction false} EntrySkipShift(a: seq<byte>, b: seq<byte>, i: nat, post: nat, p: Pair)
    requires |a + b| < TWO63 && i < post <= |b| && V.Decode(b, i).Ok?
    requires var num := ToInt32(V.Decode(b, i).value.v / 8); num != 1 && num != 2
    ensures Agree(Entry(a + b, |a| + i, |a| + post, p), Entry(b, i, post, p))
    decreases |b| - i, 0
  {
    hide V.Decode, Delimited, SkipFrom;
    V.Shift(a, b, i);
    assert (a + b)[|a| + i..] == b[i..];
    if Skip(b[i..]).Ok? && i + Skip(b[i..]).value <= post {
      EntryShift(a, b, i + Skip(b[i..]).value, post, p);
    }
  }

  lemma PayloadLocal(a: seq<byte>, b: seq<byte>, j: nat, num: int, wt: nat, m: Payload)
    ensures var h := PayloadField(a, j, num, wt, m);
      if h.Unknown? then PayloadField(a + b, j, num, wt, m).Unknown?
      else h.r.Ok? ==> PayloadField(a + b, j, num, wt, m) == h
  {
    hide ChunkBody, Entry;
    ChunkBodyLocal(a, b, j, wt);
    if num == 1 && ChunkBody(a, j, wt).Ok? {
      var s := ChunkBody(a, j, wt).value;
      if Entry(a, s.start, s.end, Pair([], [])).Ok? { EntryLocal(a, b, s.start, s.end, Pair([], [])); }
    }
  }

  lemma PayloadShift(a: seq<byte>, b: seq<byte>, j: nat, num: int, wt: nat, m: Payload)
    requires |a + b| < TWO63
    ensures SameShifted(PayloadField(a + b, |a| + j, num, wt, m), PayloadField(b, j, num, wt, m), |a|)
  {
    hide ChunkBody, Entry;
    ChunkBodyShift(a, b, j, wt);
    if num == 1 && ChunkBody(b, j, wt).Ok? {
      var s := ChunkBody(b, j, wt).value;
      EntryShift(a, b, s.start, s.end, Pair([], []));
    }
  }

  lemma PayloadSound()
    ensures Sound(PayloadField)
  {
    hide ChunkBody, Entry;
    forall a: seq<byte>, b: seq<byte>, j: nat, num: int, wt: nat, m: Payload
      ensures var h := PayloadField(a, j, num, wt, m);
        if h.Unknown? then PayloadField(a + b, j, num, wt, m).Unknown?
        else h.r.Ok? ==> PayloadField(a + b, j, num, wt, m) == h
    {
      PayloadLocal(a, b, j, num, wt, m);
    }
    forall a: seq<byte>, b: seq<byte>, j: nat, num: int, wt: nat, m: Payload | |a + b| < TWO63
      ensures SameShifted(PayloadField(a + b, |a| + j, num, wt, m), PayloadField(b, j, num, wt, m), |a|)
    {
      PayloadShift(a, b, j, num, wt, m);
    }
  }

  // ------------------------------------------------------------------------------------------
  // Record and PackagedData, which nest the two.
  // ------------------------------------------------------------------------------------------

  /** Payload.Unmarshal into m. */
  function ParsePayload(d: seq<byte>, m: Payload): Result<Payload> {
    PayloadSound();
    Parse(PayloadField, d, 0, m)
  }

  /** EncodedRecord.Unmarshal into m. */
  function ParseEncoded(d: seq<byte>, m: EncodedRecord): Result<EncodedRecord> {
    EncodedSound();
    Parse(EncodedField, d, 0, m)
  }

  function RecordField(d: seq<byte>, j: nat, num: int, wt: nat, m: Record): Handled<Record> {
    if num == 1 then
      match VarintBody(d, j, wt)
      case Err(e) => Known(Err(e))
      case Ok(x) => Known(Ok(At(m.(dataType := ToInt32(x.v)), x.next)))
    else if num == 2 then
      match VarintBody(d, j, wt)
      case Err(e) => Known(Err(e))
      case Ok(x) => Known(Ok(At(m.(timestamp := ToInt64(x.v)), x.next)))
    else if num == 3 then
      match ChunkBody(d, j, wt)
      case Err(e) => Known(Err(e))
      case Ok(s) =>
        match ParsePayload(d[s.start..s.end], if m.data.None? then NO_PAYLOAD else m.data.value)
        case Err(e) => Known(Err(e))
        case Ok(p) => Known(Ok(At(m.(data := Some(p)), s.end)))
    else Unknown
  }

  /** What a string of field `num` does to m. */
  function WithText(m: PackagedData, num: int, s: text): PackagedData {
    match num
    case 2 => m.(agentId := s)
    case 3 => m.(intranetIpv4 := m.intranetIpv4 + [s])
    case 4 => m.(extranetIpv4 := m.extranetIpv4 + [s])
    case 5 => m.(intranetIpv6 := m.intranetIpv6 + [s])
    case 6 => m.(extranetIpv6 := m.extranetIpv6 + [s])
    case 7 => m.(hostname := s)
    case 8 => m.(version := s)
    case 9 => m.(product := s)
    case _ => m
  }

  function PackagedField(d: seq<byte>, j: nat, num: int, wt: nat, m: PackagedData): Handled<PackagedData> {
    if num == 1 then
      match ChunkBody(d, j, wt)
      case Err(e) => Known(Err(e))
      case Ok(s) =>
        match ParseEncoded(d[s.start..s.end], NO_RECORD)
        case Err(e) => Known(Err(e))
        case Ok(x) => Known(Ok(At(m.(records := m.records + [x]), s.end)))
    else if 2 <= num <= 9 then
      match ChunkBody(d, j, wt)
      case Err(e) => Known(Err(e))
      case Ok(s) => Known(Ok(At(WithText(m, num, d[s.start..s.end]), s.end)))
    else Unknown
  }

  lemma RecordSound()
    ensures Sound(RecordField)
  {
    hide VarintBody, ChunkBody, ParsePayload;
    forall a: seq<byte>, b: seq<byte>, j: nat, num: int, wt: nat, m: Record
      ensures var h := RecordField(a, j, num, wt, m);
        if h.Unknown? then RecordField(a + b, j, num, wt, m).Unknown?
        else h.r.Ok? ==> RecordField(a + b, j, num, wt, m) == h
    {
      VarintBodyLocal(a, b, j, wt);
      ChunkBodyLocal(a, b, j, wt);
    }
    forall a: seq<byte>, b: seq<byte>, j: nat, num: int, wt: nat, m: Record | |a + b| < TWO63
      ensures SameShifted(RecordField(a + b, |a| + j, num, wt, m), RecordField(b, j, num, wt, m), |a|)
    {
      VarintBodyLocal(a, b, j, wt);
      ChunkBodyShift(a, b, j, wt);
    }
  }

  lemma PackagedSound()
    ensures Sound(PackagedField)
  {
    hide VarintBody, ChunkBody, ParseEncoded, WithText;
    forall a: seq<byte>, b: seq<byte>, j: nat, num: int, wt: nat, m: PackagedData
      ensures var h := PackagedField(a, j, num, wt, m);
        if h.Unknown? then PackagedField(a + b, j, num, wt, m).Unknown?
        else h.r.Ok? ==> PackagedField(a + b, j, num, wt, m) == h
    {
      ChunkBodyLocal(a, b, j, wt);
    }
    forall a: seq<byte>, b: seq<byte>, j: nat, num: int, wt: nat, m: PackagedData | |a + b| < TWO63
      ensures SameShifted(PackagedField(a + b, |a| + j, num, wt, m), PackagedField(b, j, num, wt, m), |a|)
    {
      ChunkBodyShift(a, b, j, wt);
    }
  }

  // ------------------------------------------------------------------------------------------
  // These three read no byte behind the field they are in.  (Payload does: see Entry.)
  // ------------------------------------------------------------------------------------------

  lemma BodiesInside(a: seq<byte>, b: seq<byte>, j: nat, wt: nat)
    ensures var r := VarintBody(a + b, j, wt); r.Ok? && r.value.next <= |a| ==> VarintBody(a, j, wt) == r
    ensures var s := ChunkBody(a + b, j, wt);
      s.Ok? && s.value.end <= |a| ==>
        ChunkBody(a, j, wt) == s && a[s.value.start..s.value.end] == (a + b)[s.value.start..s.value.end]
  {
    hide V.Decode, Delimited;
    if VarintBody(a + b, j, wt).Ok? && VarintBody(a + b, j, wt).value.next <= |a| { V.Inside(a, b, j); }
    if ChunkBody(a + b, j, wt).Ok? && ChunkBody(a + b, j, wt).value.end <= |a| { DelimitedInside(a, b, j); }
  }

  lemma FieldsContained()
    ensures Contained(EncodedField) && Contained(RecordField) && Contained(PackagedField)
  {
    hide VarintBody, ChunkBody, ParsePayload, ParseEncoded, WithText;
    forall a: seq<byte>, b: seq<byte>, j: nat, wt: nat
      ensures var r := VarintBody(a + b, j, wt); r.Ok? && r.value.next <= |a| ==> VarintBody(a, j, wt) == r
      ensures var s := ChunkBody(a + b, j, wt);
        s.Ok? && s.value.end <= |a| ==>
          ChunkBody(a, j, wt) == s && a[s.value.start..s.value.end] == (a + b)[s.value.start..s.value.end]
    {
      BodiesInside(a, b, j, wt);
    }
  }

  function ParseRecord(d: seq<byte>, m: Record): Result<Record> {
    RecordSound();
    Parse(RecordField, d, 0, m)
  }

  function ParsePackaged(d: seq<byte>, m: PackagedData): Result<PackagedData> {
    PackagedSound();
    Parse(PackagedField, d, 0, m)
  }
}
