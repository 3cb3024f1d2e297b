/** The message loop of the generated decoders: tags, length-delimited fields and the skipping of
    unknown fields, over any message type. */
module Wire {
  import opened Bytes
  import opened V = Varint

  // ------------------------------------------------------------------------------------------
  // Length-delimited fields.
  // ------------------------------------------------------------------------------------------

  datatype Span = Span(start: nat, end: nat)

  /** A length varint at j and the bytes it announces, which must lie inside d. */
  function Delimited(d: seq<byte>, j: nat): (r: Result<Span>)
    ensures r.Ok? ==> j < r.value.start <= r.value.end <= |d|
  {
    match V.Decode(d, j)
    case Err(e) => Err(e)
    case Ok(len) =>
      if len.v >= TWO63 || len.next + len.v >= TWO63 then Err(InvalidLength)
      else if len.next + len.v > |d| then Err(UnexpectedEof)
      else Ok(Span(len.next, len.next + len.v))
  }

  method ReadDelimited(d: seq<byte>, j: nat) returns (r: Result<Span>)
    ensures r == Delimited(d, j)
  {
    var len := ReadVarint(d, j);
    if len.Err? { return Err(len.error); }
    var n := len.value.v;
    if n >= TWO63 { return Err(InvalidLength); }
    var post := len.value.next + n;
    if post >= TWO63 { return Err(InvalidLength); }
    if post > |d| { return Err(UnexpectedEof); }
    return Ok(Span(len.value.next, post));
  }

  /** d has s at index i. */
  predicate Has(d: seq<byte>, i: nat, s: seq<byte>) { i + |s| <= |d| && d[i..i + |s|] == s }

  lemma HasParts(d: seq<byte>, i: nat, s: seq<byte>, t: seq<byte>)
    ensures Has(d, i, s + t) <==> Has(d, i, s) && Has(d, i + |s|, t)
  {
    if Has(d, i, s + t) {
      assert d[i..i + |s|] == d[i..i + |s + t|][..|s|] == s;
      assert d[i + |s|..i + |s| + |t|] == d[i..i + |s + t|][|s|..] == t;
    }
    if Has(d, i, s) && Has(d, i + |s|, t) {
      assert d[i..i + |s + t|] == d[i..i + |s|] + d[i + |s|..i + |s| + |t|];
    }
  }

  /** A field of bytes: its length, then the bytes. */
  function LengthPrefixed(s: seq<byte>): seq<byte> { V.Encode(|s|) + s }

  lemma DelimitedReads(d: seq<byte>, j: nat, s: seq<byte>)
    requires |d| < TWO63 && Has(d, j, LengthPrefixed(s))
    ensures Delimited(d, j) == Ok(Span(j + |V.Encode(|s|)|, j + |LengthPrefixed(s)|))
    ensures d[j + |V.Encode(|s|)|..j + |LengthPrefixed(s)|] == s
  {
    hide V.Decode, V.Encode;
    HasParts(d, j, V.Encode(|s|), s);
    V.RoundTrip(d, j, |s|);
  }

  /** Whatever length is announced: one that reaches 2^63 is invalid, one that reaches beyond d ends it. */
  lemma DelimitedExactly(d: seq<byte>, j: nat, v: nat)
    requires v < TWO64 && Has(d, j, V.Encode(v))
    ensures var end := j + |V.Encode(v)| + v;
      Delimited(d, j) ==
        if end >= TWO63 then Err(InvalidLength) else if end > |d| then Err(UnexpectedEof)
        else Ok(Span(end - v, end))
  {
    hide V.Decode, V.Encode;
    V.RoundTrip(d, j, v);
  }

  lemma DelimitedLocal(a: seq<byte>, b: seq<byte>, j: nat)
    requires Delimited(a, j).Ok?
    ensures Delimited(a + b, j) == Delimited(a, j)
  {
    V.Local(a, b, j);
  }

  lemma DelimitedInside(a: seq<byte>, b: seq<byte>, j: nat)
    requires Delimited(a + b, j).Ok? && Delimited(a + b, j).value.end <= |a|
    ensures Delimited(a, j) == Delimited(a + b, j)
  {
    V.Inside(a, b, j);
  }

  lemma DelimitedShift(a: seq<byte>, b: seq<byte>, j: nat)
    requires |a + b| < TWO63
    ensures Delimited(a + b, |a| + j).Ok? <==> Delimited(b, j).Ok?
    ensures Delimited(b, j).Ok? ==>
      Delimited(a + b, |a| + j).value == Span(|a| + Delimited(b, j).value.start, |a| + Delimited(b, j).value.end)
  {
    V.Shift(a, b, j);
  }

  // ------------------------------------------------------------------------------------------
  // skipGrpc.
  // ------------------------------------------------------------------------------------------

  datatype Place = Place(i: nat, depth: nat)

  /** What follows a tag of wire type wt, at nesting depth `depth`. */
  function SkipBody(d: seq<byte>, j: nat, wt: nat, depth: nat): (r: Result<Place>)
    ensures r.Ok? ==> r.value.i >= j
  {
    if wt == 0 then
      match V.Decode(d, j)
      case Err(e) => Err(e)
      case Ok(x) => Ok(Place(x.next, depth))
    else if wt == 1 then Ok(Place(j + 8, depth))
    else if wt == 2 then
      match V.Decode(d, j)
      case Err(e) => Err(e)
      case Ok(x) => if x.v >= TWO63 then Err(InvalidLength) else Ok(Place(x.next + x.v, depth))
    else if wt == 3 then Ok(Place(j, depth + 1))
    else if wt == 4 then if depth == 0 then Err(UnexpectedEndOfGroup) else Ok(Place(j, depth - 1))
    else if wt == 5 then Ok(Place(j + 4, depth))
    else Err(IllegalWireType)
  }

  function SkipFrom(d: seq<byte>, i: nat, depth: nat): (r: Result<nat>)
    ensures r.Ok? ==> r.value > i
    decreases |d| - i
  {
    if i >= |d| then Err(UnexpectedEof)
    else
      match V.Decode(d, i)
      case Err(e) => Err(e)
      case Ok(tag) =>
        match SkipBody(d, tag.next, tag.v % 8, depth)
        case Err(e) => Err(e)
        case Ok(at) =>
          if at.i >= TWO63 then Err(InvalidLength)
          else if at.depth == 0 then Ok(at.i)
          else SkipFrom(d, at.i, at.depth)
  }

  /** The length of the field at the start of d, which may reach beyond d. */
  function Skip(d: seq<byte>): (r: Result<nat>)
    ensures r.Ok? ==> r.value > 0
  {
    SkipFrom(d, 0, 0)
  }

  method SkipGrpc(d: seq<byte>) returns (r: Result<nat>)
    ensures r == Skip(d)
  {
    hide V.Decode;
    var i, depth := 0, 0;
    while i < |d|
      invariant Skip(d) == SkipFrom(d, i, depth)
      decreases |d| - i
    {
      var tag := ReadVarint(d, i);
      if tag.Err? { return Err(tag.error); }
      var j := tag.value.next;
      match tag.value.v % 8 {
        case 0 =>
          var x := ReadVarint(d, j);
          if x.Err? { return Err(x.error); }
          j := x.value.next;
        case 1 => j := j + 8;
        case 2 =>
          var x := ReadVarint(d, j);
          if x.Err? { return Err(x.error); }
          if x.value.v >= TWO63 { return Err(InvalidLength); }
          j := x.value.next + x.value.v;
        case 3 => depth := depth + 1;
        case 4 =>
          if depth == 0 { return Err(UnexpectedEndOfGroup); }
          depth := depth - 1;
        case 5 => j := j + 4;
        case _ => return Err(IllegalWireType);
      }
      if j >= TWO63 { return Err(InvalidLength); }
      if depth == 0 { return Ok(j); }
      i := j;
    }
    return Err(UnexpectedEof);
  }

  lemma {:induction false} SkipLocal(a: seq<byte>, b: seq<byte>, i: nat, depth: nat)
    requires SkipFrom(a, i, depth).Ok? && SkipFrom(a, i, depth).value <= |a|
    ensures SkipFrom(a + b, i, depth) == SkipFrom(a, i, depth)
    decreases |a| - i
  {
    hide V.Decode;
    V.Local(a, b, i);
    var tag := V.Decode(a, i).value;
    if tag.v % 8 == 0 || tag.v % 8 == 2 { V.Local(a, b, tag.next); }
    var at := SkipBody(a, tag.next, tag.v % 8, depth).value;
    if at.depth != 0 { SkipLocal(a, b, at.i, at.depth); }
  }

  lemma {:induction false} SkipInside(a: seq<byte>, b: seq<byte>, i: nat, depth: nat)
    requires SkipFrom(a + b, i, depth).Ok? && SkipFrom(a + b, i, depth).value <= |a|
    ensures SkipFrom(a, i, depth) == SkipFrom(a + b, i, depth)
    decreases |a| - i
  {
    hide V.Decode;
    var tag := V.Decode(a + b, i).value;
    var at := SkipBody(a + b, tag.next, tag.v % 8, depth).value;
    V.Inside(a, b, i);
    if tag.v % 8 == 0 || tag.v % 8 == 2 { V.Inside(a, b, tag.next); }
    if at.depth != 0 { SkipInside(a, b, at.i, at.depth); }
  }

  // ------------------------------------------------------------------------------------------
  // Well-formed fields, groups included, are skipped exactly.
  // ------------------------------------------------------------------------------------------

  datatype Fields = Nil | Cons(head: Field, tail: Fields)
  datatype Field = Word64(num: nat, v: nat) | Fixed64(num: nat, bytes: seq<byte>) | Chunk(num: nat, bytes: seq<byte>)
                 | Group(num: nat, body: Fields) | Fixed32(num: nat, bytes: seq<byte>)

  predicate WellFormed(f: Field) {
    && 1 <= f.num < 0x8000_0000
    && match f
       case Word64(_, v) => v < TWO64
       case Fixed64(_, s) => |s| == 8
       case Fixed32(_, s) => |s| == 4
       case Chunk(_, s) => true
       case Group(_, fs) => AllWellFormed(fs)
  }

  predicate AllWellFormed(fs: Fields) { fs.Nil? || (WellFormed(fs.head) && AllWellFormed(fs.tail)) }

  function Tag(num: nat, wt: nat): seq<byte> { V.Encode(8 * num + wt) }

  function FieldBytes(f: Field): (r: seq<byte>)
    ensures |r| > 0
  {
    match f
    case Word64(n, v) => Tag(n, 0) + V.Encode(v)
    case Fixed64(n, s) => Tag(n, 1) + s
    case Chunk(n, s) => Tag(n, 2) + LengthPrefixed(s)
    case Group(n, fs) => Tag(n, 3) + AllBytes(fs) + Tag(n, 4)
    case Fixed32(n, s) => Tag(n, 5) + s
  }

  function AllBytes(fs: Fields): seq<byte> { if fs.Nil? then [] else FieldBytes(fs.head) + AllBytes(fs.tail) }

  lemma TagReads(d: seq<byte>, i: nat, num: nat, wt: nat)
    requires 1 <= num < 0x8000_0000 && wt < 8 && Has(d, i, Tag(num, wt))
    ensures V.Decode(d, i) == Ok(Read(8 * num + wt, i + |Tag(num, wt)|))
    ensures (8 * num + wt) % 8 == wt && ToInt32((8 * num + wt) / 8) == num
  {
    hide V.Decode, V.Encode;
    V.RoundTrip(d, i, 8 * num + wt);
    assert (8 * num + wt) / 8 == num && (8 * num + wt) % 8 == wt;
  }

  /** The state of skipGrpc behind a whole field. */
  function SkipOn(d: seq<byte>, i: nat, depth: nat): Result<nat> {
    if depth == 0 then Ok(i) else SkipFrom(d, i, depth)
  }

  lemma SkipStep(d: seq<byte>, i: nat, depth: nat)
    requires i < |d| && V.Decode(d, i).Ok?
    requires var tag := V.Decode(d, i).value;
      SkipBody(d, tag.next, tag.v % 8, depth).Ok? && SkipBody(d, tag.next, tag.v % 8, depth).value.i < TWO63
    ensures var tag := V.Decode(d, i).value; var at := SkipBody(d, tag.next, tag.v % 8, depth).value;
      SkipFrom(d, i, depth) == SkipOn(d, at.i, at.depth)
  {
    hide V.Decode, SkipBody;
  }

  lemma {:induction false} SkipsField(d: seq<byte>, i: nat, f: Field, depth: nat)
    requires |d| < TWO63 && WellFormed(f) && Has(d, i, FieldBytes(f))
    ensures SkipFrom(d, i, depth) == SkipOn(d, i + |FieldBytes(f)|, depth)
    decreases f
  {
    hide V.Decode, V.Encode, SkipFrom, Has, Tag, LengthPrefixed;
    if f.Group? {
      var n, fs := f.num, f.body;
      var j := i + |Tag(n, 3)|;
      var k := j + |AllBytes(fs)|;
      HasParts(d, i, Tag(n, 3) + AllBytes(fs), Tag(n, 4));
      HasParts(d, i, Tag(n, 3), AllBytes(fs));
      TagReads(d, i, n, 3);
      SkipStep(d, i, depth);
      SkipsFields(d, j, fs, depth + 1);
      TagReads(d, k, n, 4);
      SkipStep(d, k, depth + 1);
    } else {
      SkipsFlat(d, i, f, depth);
    }
  }

  /** Whatever length a field announces, skipping it goes there, unless that is 2^63 or beyond. */
  lemma SkipsAnnounced(d: seq<byte>, i: nat, num: nat, v: nat, depth: nat)
    requires 1 <= num < 0x8000_0000 && v < TWO64 && Has(d, i, Tag(num, 2) + V.Encode(v))
    ensures var end := i + |Tag(num, 2) + V.Encode(v)| + v;
      SkipFrom(d, i, depth) == if end >= TWO63 then Err(InvalidLength) else SkipOn(d, end, depth)
  {
    hide V.Decode, V.Encode, SkipOn, Tag;
    HasParts(d, i, Tag(num, 2), V.Encode(v));
    TagReads(d, i, num, 2);
    V.RoundTrip(d, i + |Tag(num, 2)|, v);
    assert i < |d|;
    if i + |Tag(num, 2) + V.Encode(v)| + v < TWO63 { SkipStep(d, i, depth); }
  }

  lemma SkipsFlat(d: seq<byte>, i: nat, f: Field, depth: nat)
    requires |d| < TWO63 && WellFormed(f) && !f.Group? && Has(d, i, FieldBytes(f))
    ensures SkipFrom(d, i, depth) == SkipOn(d, i + |FieldBytes(f)|, depth)
  {
    hide V.Decode, V.Encode, SkipFrom, SkipOn, Tag;
    match f
    case Word64(n, v) =>
      HasParts(d, i, Tag(n, 0), V.Encode(v));
      TagReads(d, i, n, 0);
      V.RoundTrip(d, i + |Tag(n, 0)|, v);
      SkipStep(d, i, depth);
    case Fixed64(n, s) =>
      HasParts(d, i, Tag(n, 1), s);
      TagReads(d, i, n, 1);
      SkipStep(d, i, depth);
    case Chunk(n, s) =>
      HasParts(d, i, Tag(n, 2), LengthPrefixed(s));
      TagReads(d, i, n, 2);
      HasParts(d, i + |Tag(n, 2)|, V.Encode(|s|), s);
      V.RoundTrip(d, i + |Tag(n, 2)|, |s|);
      SkipStep(d, i, depth);
    case Fixed32(n, s) =>
      HasParts(d, i, Tag(n, 5), s);
      TagReads(d, i, n, 5);
      SkipStep(d, i, depth);
  }

  lemma {:induction false} SkipsFields(d: seq<byte>, i: nat, fs: Fields, depth: nat)
    requires |d| < TWO63 && AllWellFormed(fs) && Has(d, i, AllBytes(fs)) && depth > 0
    ensures SkipFrom(d, i, depth) == SkipFrom(d, i + |AllBytes(fs)|, depth)
    decreases fs
  {
    hide Has, SkipFrom, FieldBytes, WellFormed, V.Encode;
    if fs.Cons? {
      HasParts(d, i, FieldBytes(fs.head), AllBytes(fs.tail));
      SkipsField(d, i, fs.head, depth);
      SkipsFields(d, i + |FieldBytes(fs.head)|, fs.tail, depth);
    }
  }
}
