/** The field loop every generated Unmarshal runs, over any message type M: a handler knows some
    field numbers, everything else is skipped.  The main result is that a message followed by more
    fields decodes as the message, then the fields. */
module MessageLoop {
  import opened Bytes
  import opened V = Varint
  import opened Wire

  datatype At<M> = At(m: M, next: nat)
  datatype Handled<M> = Known(r: Result<At<M>>) | Unknown

  /** The switch of one message type: the body at index j of field `num` with wire type `wt`. */
  type Handler<!M> = (seq<byte>, nat, int, nat, M) -> Handled<M>

  /** One round of the loop. */
  function Step<M>(f: Handler<M>, d: seq<byte>, i: nat, m: M): Result<At<M>>
    requires i <= |d|
  {
    match V.Decode(d, i)
    case Err(e) => Err(e)
    case Ok(tag) =>
      var num, wt := ToInt32(tag.v / 8), tag.v % 8;
      if wt == 4 then Err(EndGroup)
      else if num <= 0 then Err(IllegalTag)
      else
        match f(d, tag.next, num, wt, m)
        case Known(r) => r
        case Unknown => Skipped(d, i, m)
  }

  /** The default case: an unknown field is jumped over. */
  function Skipped<M>(d: seq<byte>, i: nat, m: M): Result<At<M>>
    requires i <= |d|
  {
    match Skip(d[i..])
    case Err(e) => Err(e)
    case Ok(n) =>
      if i + n >= TWO63 then Err(InvalidLength)
      else if i + n > |d| then Err(UnexpectedEof)
      else Ok(At(m, i + n))
  }

  /** Whatever length an unknown field announces: at 2^63 and beyond it is invalid, beyond d it ends it. */
  lemma SkippedExactly<M>(d: seq<byte>, i: nat, m: M, num: nat, v: nat)
    requires 1 <= num < 0x8000_0000 && v < TWO64 && Has(d, i, Tag(num, 2) + V.Encode(v))
    ensures var end := i + |Tag(num, 2) + V.Encode(v)| + v;
      Skipped(d, i, m) ==
        if end >= TWO63 then Err(InvalidLength) else if end > |d| then Err(UnexpectedEof) else Ok(At(m, end))
  {
    hide SkipFrom, V.Encode, Tag;
    var t := Tag(num, 2) + V.Encode(v);
    assert d[i..][0..|t|] == d[i..i + |t|];
    SkipsAnnounced(d[i..], 0, num, v, 0);
  }

  /** A handler moves forward and stays inside d. */
  ghost predicate Proper<M(!new)>(f: Handler<M>) {
    forall d: seq<byte>, j: nat, num: int, wt: nat, m: M ::
      var h := f(d, j, num, wt, m); h.Known? && h.r.Ok? ==> j <= h.r.value.next <= |d|
  }

  /** What it reads does not depend on the bytes behind ... */
  ghost predicate Nearby<M(!new)>(f: Handler<M>) {
    forall a: seq<byte>, b: seq<byte>, j: nat, num: int, wt: nat, m: M ::
      var h := f(a, j, num, wt, m);
      if h.Unknown? then f(a + b, j, num, wt, m).Unknown?
      else h.r.Ok? ==> f(a + b, j, num, wt, m) == h
  }

  ghost predicate SameShifted<M(!new)>(g: Handled<M>, h: Handled<M>, n: nat) {
    && (g.Unknown? <==> h.Unknown?)
    && (h.Known? ==> (g.r.Ok? <==> h.r.Ok?) && (h.r.Ok? ==> g.r.value == At(h.r.value.m, n + h.r.value.next)))
  }

  /** ... nor on those in front. */
  ghost predicate Shifts<M(!new)>(f: Handler<M>) {
    forall a: seq<byte>, b: seq<byte>, j: nat, num: int, wt: nat, m: M :: |a + b| < TWO63 ==>
      SameShifted(f(a + b, |a| + j, num, wt, m), f(b, j, num, wt, m), |a|)
  }

  ghost predicate Sound<M(!new)>(f: Handler<M>) { Proper(f) && Nearby(f) && Shifts(f) }

  lemma StepMoves<M(!new)>(f: Handler<M>, d: seq<byte>, i: nat, m: M)
    requires Proper(f) && i <= |d| && Step(f, d, i, m).Ok?
    ensures i < Step(f, d, i, m).value.next <= |d|
  {
    hide V.Decode;
    var tag := V.Decode(d, i).value;
    var h := f(d, tag.next, ToInt32(tag.v / 8), tag.v % 8, m);
  }

  /** The whole loop. */
  function Parse<M(!new)>(f: Handler<M>, d: seq<byte>, i: nat, m: M): Result<M>
    requires Proper(f) && i <= |d|
    decreases |d| - i
  {
    if i == |d| then Ok(m)
    else
      match Step(f, d, i, m)
      case Err(e) => Err(e)
      case Ok(at) => StepMoves(f, d, i, m); Parse(f, d, at.next, at.m)
  }

  // ------------------------------------------------------------------------------------------
  // Messages concatenate.
  // ------------------------------------------------------------------------------------------

  /** The same value, or a failure on both sides. */
  predicate Agree<M(==)>(r: Result<M>, s: Result<M>) { if r.Ok? then s == r else s.Err? }

  lemma SkippedLocal<M(!new)>(a: seq<byte>, b: seq<byte>, i: nat, m: M)
    requires i <= |a| && Skipped(a, i, m).Ok?
    ensures Skipped(a + b, i, m) == Skipped(a, i, m)
  {
    SkipLocal(a[i..], b, 0, 0);
    assert (a + b)[i..] == a[i..] + b;
  }

  lemma StepLocal<M(!new)>(f: Handler<M>, a: seq<byte>, b: seq<byte>, i: nat, m: M)
    requires Nearby(f) && i <= |a| && Step(f, a, i, m).Ok?
    ensures Step(f, a + b, i, m) == Step(f, a, i, m)
  {
    hide V.Decode, Skipped;
    V.Local(a, b, i);
    var tag := V.Decode(a, i).value;
    var h := f(a, tag.next, ToInt32(tag.v / 8), tag.v % 8, m);
    assert h.Unknown? ==> f(a + b, tag.next, ToInt32(tag.v / 8), tag.v % 8, m).Unknown?;
    if h.Unknown? { SkippedLocal(a, b, i, m); }
  }

  lemma StepShift<M(!new)>(f: Handler<M>, a: seq<byte>, b: seq<byte>, i: nat, m: M)
    requires Shifts(f) && |a + b| < TWO63 && i <= |b|
    ensures Step(f, a + b, |a| + i, m).Ok? <==> Step(f, b, i, m).Ok?
    ensures Step(f, b, i, m).Ok? ==>
      Step(f, a + b, |a| + i, m).value == At(Step(f, b, i, m).value.m, |a| + Step(f, b, i, m).value.next)
  {
    hide V.Decode;
    V.Shift(a, b, i);
    assert (a + b)[|a| + i..] == b[i..];
    if V.Decode(b, i).Ok? {
      var tag := V.Decode(b, i).value;
      var num, wt := ToInt32(tag.v / 8), tag.v % 8;
      assert SameShifted(f(a + b, |a| + tag.next, num, wt, m), f(b, tag.next, num, wt, m), |a|);
    }
  }

  /** Reading on behind a whole message. */
  lemma {:induction false} ParseFront<M(!new)>(f: Handler<M>, a: seq<byte>, b: seq<byte>, i: nat, m: M)
    requires Proper(f) && Nearby(f) && i <= |a| && Parse(f, a, i, m).Ok?
    ensures Parse(f, a + b, i, m) == Parse(f, a + b, |a|, Parse(f, a, i, m).value)
    decreases |a| - i
  {
    hide Step, Proper, Nearby;
    if i < |a| {
      StepLocal(f, a, b, i, m);
      StepMoves(f, a, i, m);
      var at := Step(f, a, i, m).value;
      ParseFront(f, a, b, at.next, at.m);
    }
  }

  lemma {:induction false} ParseBack<M(!new)>(f: Handler<M>, a: seq<byte>, b: seq<byte>, i: nat, m: M)
    requires Proper(f) && Shifts(f) && |a + b| < TWO63 && i <= |b|
    ensures Agree(Parse(f, a + b, |a| + i, m), Parse(f, b, i, m))
    decreases |b| - i
  {
    hide Step, Proper, Shifts;
    if i < |b| {
      StepShift(f, a, b, i, m);
      if Step(f, b, i, m).Ok? {
        StepMoves(f, b, i, m);
        var at := Step(f, b, i, m).value;
        ParseBack(f, a, b, at.next, at.m);
      }
    }
  }

  /** Decoding a message and then more fields is decoding the fields onto the message. */
  lemma Concatenation<M(!new)>(f: Handler<M>, a: seq<byte>, b: seq<byte>, m: M)
    requires Sound(f) && |a + b| < TWO63 && Parse(f, a, 0, m).Ok?
    ensures Agree(Parse(f, a + b, 0, m), Parse(f, b, 0, Parse(f, a, 0, m).value))
  {
    hide Parse, Proper, Nearby, Shifts;
    ParseFront(f, a, b, 0, m);
    ParseBack(f, a, b, 0, Parse(f, a, 0, m).value);
  }

  // ------------------------------------------------------------------------------------------
  // Unknown fields.
  // ------------------------------------------------------------------------------------------

  /** No field of this number is known, whatever its bytes. */
  ghost predicate Foreign<M(!new)>(f: Handler<M>, num: nat) {
    forall d: seq<byte>, j: nat, wt: nat, m: M :: f(d, j, num, wt, m).Unknown?
  }

  lemma FieldTag(d: seq<byte>, i: nat, x: Field)
    requires WellFormed(x) && Has(d, i, FieldBytes(x))
    ensures V.Decode(d, i).Ok? && V.Decode(d, i).value.v % 8 != 4 && ToInt32(V.Decode(d, i).value.v / 8) == x.num
  {
    hide V.Decode, V.Encode, Has;
    var wt := match x case Word64(_, _) => 0 case Fixed64(_, _) => 1 case Chunk(_, _) => 2 case Group(_, _) => 3
      case Fixed32(_, _) => 5;
    var rest := match x
      case Word64(_, v) => V.Encode(v)
      case Fixed64(_, s) => s
      case Chunk(_, s) => LengthPrefixed(s)
      case Group(n, fs) => AllBytes(fs) + Tag(n, 4)
      case Fixed32(_, s) => s;
    assert FieldBytes(x) == Tag(x.num, wt) + rest;
    HasParts(d, i, Tag(x.num, wt), rest);
    TagReads(d, i, x.num, wt);
  }

  /** A message that is one unknown field decodes to nothing. */
  lemma ForeignAlone<M(!new)>(f: Handler<M>, x: Field, m: M)
    requires Proper(f) && WellFormed(x) && Foreign(f, x.num) && |FieldBytes(x)| < TWO63
    ensures Parse(f, FieldBytes(x), 0, m) == Ok(m)
  {
    hide V.Decode, V.Encode, FieldBytes, Proper;
    var d := FieldBytes(x);
    assert d[0..] == d && d[..|d|] == d;
    FieldTag(d, 0, x);
    SkipsField(d, 0, x, 0);
    var tag := V.Decode(d, 0).value;
    assert f(d, tag.next, ToInt32(tag.v / 8), tag.v % 8, m).Unknown?;
    assert Step(f, d, 0, m) == Ok(At(m, |d|));
  }

  /** Inserting an unknown field behind a message that stands on its own changes nothing. */
  lemma UnknownFieldIgnored<M(!new)>(f: Handler<M>, a: seq<byte>, x: Field, b: seq<byte>, m: M)
    requires Sound(f) && WellFormed(x) && Foreign(f, x.num) && |a + FieldBytes(x) + b| < TWO63
    requires Parse(f, a, 0, m).Ok?
    ensures Agree(Parse(f, a + FieldBytes(x) + b, 0, m), Parse(f, a + b, 0, m))
  {
    hide Parse, Proper, Nearby, Shifts, FieldBytes, Foreign;
    var u, m1 := FieldBytes(x), Parse(f, a, 0, m).value;
    ForeignAlone(f, x, m1);
    Concatenation(f, a, u + b, m);
    assert a + (u + b) == a + u + b;
    Concatenation(f, u, b, m1);
    Concatenation(f, a, b, m);
  }

  // ------------------------------------------------------------------------------------------
  // Field boundaries.
  // ------------------------------------------------------------------------------------------

  /** The handler reads no byte behind the index it returns. */
  ghost predicate Contained<M(!new)>(f: Handler<M>) {
    forall a: seq<byte>, b: seq<byte>, j: nat, num: int, wt: nat, m: M ::
      var h := f(a + b, j, num, wt, m);
      if h.Unknown? then f(a, j, num, wt, m).Unknown? else h.r.Ok? && h.r.value.next <= |a| ==> f(a, j, num, wt, m) == h
  }

  /** The loop over d comes by index k: a field boundary. */
  ghost predicate ComesBy<M(!new)>(f: Handler<M>, d: seq<byte>, i: nat, k: nat, m: M)
    requires Proper(f) && i <= |d|
    decreases |d| - i
  {
    i == k || (i < k && i < |d| && Step(f, d, i, m).Ok?
      && (StepMoves(f, d, i, m); ComesBy(f, d, Step(f, d, i, m).value.next, k, Step(f, d, i, m).value.m)))
  }

  lemma {:induction false} Passed<M(!new)>(f: Handler<M>, d: seq<byte>, i: nat, k: nat, m: M)
    requires Proper(f) && i <= |d| && ComesBy(f, d, i, k, m)
    ensures i <= k <= |d|
    decreases |d| - i
  {
    hide Step, Proper;
    if i < k {
      StepMoves(f, d, i, m);
      Passed(f, d, Step(f, d, i, m).value.next, k, Step(f, d, i, m).value.m);
    }
  }

  lemma StepInside<M(!new)>(f: Handler<M>, a: seq<byte>, b: seq<byte>, i: nat, m: M)
    requires Contained(f) && i <= |a| && Step(f, a + b, i, m).Ok? && Step(f, a + b, i, m).value.next <= |a| && Proper(f)
    ensures Step(f, a, i, m) == Step(f, a + b, i, m)
  {
    hide V.Decode, Skip;
    var tag := V.Decode(a + b, i).value;
    var h := f(a + b, tag.next, ToInt32(tag.v / 8), tag.v % 8, m);
    assert (a + b)[i..] == a[i..] + b;
    if h.Unknown? {
      TagInSkip(a + b, i);
      V.Inside(a, b, i);
      assert f(a, tag.next, ToInt32(tag.v / 8), tag.v % 8, m).Unknown?;
      SkipThere(a, b, i);
    } else {
      V.Inside(a, b, i);
      assert f(a, tag.next, ToInt32(tag.v / 8), tag.v % 8, m) == h;
    }
  }

  lemma SkipThere(a: seq<byte>, b: seq<byte>, i: nat)
    requires i <= |a| && Skip((a + b)[i..]).Ok? && i + Skip((a + b)[i..]).value <= |a|
    ensures Skip(a[i..]) == Skip((a + b)[i..])
  {
    assert (a + b)[i..] == a[i..] + b;
    SkipInside(a[i..], b, 0, 0);
  }

  /** The tag is part of what is skipped. */
  lemma TagInSkip(d: seq<byte>, i: nat)
    requires i <= |d| && V.Decode(d, i).Ok? && Skip(d[i..]).Ok?
    ensures V.Decode(d, i).value.next <= i + Skip(d[i..]).value
  {
    hide V.Decode, SkipBody;
    assert d == d[..i] + d[i..];
    V.Shift(d[..i], d[i..], 0);
    var tag := V.Decode(d[i..], 0).value;
    var at := SkipBody(d[i..], tag.next, tag.v % 8, 0).value;
    assert SkipFrom(d[i..], 0, 0).value >= at.i;
  }

  /** If the handler is contained, what lies before a field boundary stands on its own ... */
  lemma {:induction false} BoundaryStands<M(!new)>(f: Handler<M>, a: seq<byte>, b: seq<byte>, i: nat, m: M)
    requires Proper(f) && Contained(f) && i <= |a| && ComesBy(f, a + b, i, |a|, m)
    ensures Parse(f, a, i, m).Ok?
    decreases |a| - i
  {
    hide Step, Proper, Contained;
    if i < |a| {
      StepMoves(f, a + b, i, m);
      var at := Step(f, a + b, i, m).value;
      Passed(f, a + b, at.next, |a|, at.m);
      StepInside(f, a, b, i, m);
      BoundaryStands(f, a, b, at.next, at.m);
    }
  }

  /** ... so an unknown field can be put in at every field boundary. */
  lemma IgnoredAtBoundary<M(!new)>(f: Handler<M>, a: seq<byte>, x: Field, b: seq<byte>, m: M)
    requires Sound(f) && Contained(f) && WellFormed(x) && Foreign(f, x.num) && |a + FieldBytes(x) + b| < TWO63
    requires ComesBy(f, a + b, 0, |a|, m)
    ensures Agree(Parse(f, a + FieldBytes(x) + b, 0, m), Parse(f, a + b, 0, m))
  {
    hide Parse, Proper, Nearby, Shifts, Contained, FieldBytes, Foreign, ComesBy;
    BoundaryStands(f, a, b, 0, m);
    UnknownFieldIgnored(f, a, x, b, m);
  }
}
