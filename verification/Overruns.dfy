/** Map entries that read beyond a field boundary: exactly when an unknown field may be inserted there.

    The inner loop over a map entry bounds its string reads by the whole message, not by the entry, so
    the last read of an entry may reach beyond the entry, and beyond the field boundary behind it. */
module Overruns {
  import opened Bytes
  import opened V = Varint
  import opened Wire
  import opened MessageLoop
  import opened Messages
  import opened RoundTrips

  // ------------------------------------------------------------------------------------------
  // What the fields of `a` do, whatever follows them.
  // ------------------------------------------------------------------------------------------

  /** What one entry of `a` reads: strings inside a only; a last string from start to end, which is
      beyond a; a last string whose tag or length varint, at i, is cut off by the end of a; or what
      is rejected whatever follows. */
  datatype Reading = Inside(p: Pair) | Past(p: Pair, isKey: bool, start: nat, end: nat) | Cut(tag: bool, i: nat)
      | Rejected

  function ReadEntry(a: seq<byte>, i: nat, post: nat, p: Pair): (r: Reading)
    requires i <= |a| && post <= |a|
    ensures r.Past? ==> r.start <= |a| < r.end < TWO63
    ensures r.Cut? ==> r.i <= |a| && (r.tag ==> r.i < |a|) && V.Decode(a, r.i) == Err(UnexpectedEof)
    decreases |a| - i
  {
    if i >= post then Inside(p)
    else
      match V.Decode(a, i)
      case Err(e) => if e.UnexpectedEof? then Cut(true, i) else Rejected
      case Ok(tag) =>
        var num := ToInt32(tag.v / 8);
        if num == 1 || num == 2 then
          match V.Decode(a, tag.next)
          case Err(e) => if e.UnexpectedEof? then Cut(false, tag.next) else Rejected
          case Ok(len) =>
            if len.v >= TWO63 || len.next + len.v >= TWO63 then Rejected
            else if len.next + len.v > |a| then Past(p, num == 1, len.next, len.next + len.v)
            else ReadEntry(a, len.next + len.v, post, With(p, num == 1, a[len.next..len.next + len.v]))
        else
          match Skip(a[i..])
          case Err(_) => Rejected
          case Ok(n) => if i + n > post || i + n >= TWO63 then Rejected else ReadEntry(a, i + n, post, p)
  }

  function With(p: Pair, isKey: bool, t: text): Pair { if isKey then p.(key := t) else p.(value := t) }

  /** A varint that is rejected, or complete, stays so. */
  lemma {:induction false} DigitsOverflow(a: seq<byte>, b: seq<byte>, i: nat, k: nat)
    requires Digits(a, i, k) == Err(Overflow)
    ensures Digits(a + b, i, k) == Err(Overflow)
    decreases k
  {
    if k > 0 { DigitsOverflow(a, b, i + 1, k - 1); }
  }

  lemma {:induction false} DigitsErr(a: seq<byte>, i: nat, k: nat)
    ensures Digits(a, i, k).Err? ==> Digits(a, i, k).error in {Overflow, UnexpectedEof}
    decreases k
  {
    if k > 0 && i < |a| && a[i] >= 128 { DigitsErr(a, i + 1, k - 1); }
  }

  lemma DecodeStays(a: seq<byte>, b: seq<byte>, i: nat)
    requires V.Decode(a, i) != Err(UnexpectedEof)
    ensures V.Decode(a + b, i) == V.Decode(a, i)
  {
    if V.Decode(a, i).Ok? {
      V.Local(a, b, i);
    } else {
      DigitsErr(a, i, 10);
      DigitsOverflow(a, b, i, 10);
    }
  }

  /** e is what reading r gives on the message d. */
  predicate Reads(r: Reading, e: Result<Pair>, d: seq<byte>) {
    match r
    case Inside(q) => e == Ok(q)
    case Past(q, isKey, start, end) => if start <= end <= |d| then e == Ok(With(q, isKey, d[start..end])) else e.Err?
    case Cut(_, _) => true
    case Rejected => e.Err?
  }

  /** The entry, read with anything behind it: a string, ... */
  lemma {:induction false} StringReads(a: seq<byte>, b: seq<byte>, i: nat, post: nat, p: Pair)
    requires i < post <= |a| && V.Decode(a, i).Ok? && V.Decode(a + b, i) == V.Decode(a, i)
    requires ToInt32(V.Decode(a, i).value.v / 8) == 1 || ToInt32(V.Decode(a, i).value.v / 8) == 2
    ensures Reads(ReadEntry(a, i, post, p), Entry(a + b, i, post, p), a + b)
    decreases |a| - i, 0
  {
    hide V.Decode, Skip;
    var tag := V.Decode(a, i).value;
    var isKey := ToInt32(tag.v / 8) == 1;
    if V.Decode(a, tag.next) != Err(UnexpectedEof) {
      DecodeStays(a, b, tag.next);
      if V.Decode(a, tag.next).Ok? {
        var len := V.Decode(a, tag.next).value;
        var end := len.next + len.v;
        if len.v < TWO63 && end < TWO63 && end <= |a| {
          var t := a[len.next..end];
          assert (a + b)[len.next..end] == t;
          assert ReadEntry(a, i, post, p) == ReadEntry(a, end, post, With(p, isKey, t));
          assert Entry(a + b, i, post, p) == Entry(a + b, end, post, With(p, isKey, t));
          hide Reads;
          EntryReads(a, b, end, post, With(p, isKey, t));
        }
      }
    }
  }

  /** ... something else, ... */
  lemma {:induction false} OtherReads(a: seq<byte>, b: seq<byte>, i: nat, post: nat, p: Pair)
    requires i < post <= |a| && V.Decode(a, i).Ok? && V.Decode(a + b, i) == V.Decode(a, i)
    requires ToInt32(V.Decode(a, i).value.v / 8) != 1 && ToInt32(V.Decode(a, i).value.v / 8) != 2
    ensures Reads(ReadEntry(a, i, post, p), Entry(a + b, i, post, p), a + b)
    decreases |a| - i, 0
  {
    hide V.Decode, Skip;
    SkipBoth(a, b, i, post);
    if Skip(a[i..]).Ok? && i + Skip(a[i..]).value <= post && i + Skip(a[i..]).value < TWO63 {
      var next := i + Skip(a[i..]).value;
      assert ReadEntry(a, i, post, p) == ReadEntry(a, next, post, p);
      assert Entry(a + b, i, post, p) == Entry(a + b, next, post, p);
      hide Reads;
      EntryReads(a, b, next, post, p);
    }
  }

  /** ... or the end. */
  lemma {:induction false} EntryReads(a: seq<byte>, b: seq<byte>, i: nat, post: nat, p: Pair)
    requires i <= |a| && post <= |a|
    ensures Reads(ReadEntry(a, i, post, p), Entry(a + b, i, post, p), a + b)
    decreases |a| - i, 1
  {
    hide V.Decode, Skip;
    if i < post && V.Decode(a, i) != Err(UnexpectedEof) {
      DecodeStays(a, b, i);
      if V.Decode(a, i).Ok? {
        var num := ToInt32(V.Decode(a, i).value.v / 8);
        hide Reads, ReadEntry, Entry;
        if num == 1 || num == 2 { StringReads(a, b, i, post, p); } else { OtherReads(a, b, i, post, p); }
      }
    }
  }

  lemma SkipBoth(a: seq<byte>, b: seq<byte>, i: nat, post: nat)
    requires i <= |a| && post <= |a|
    ensures var r := Skip((a + b)[i..]);
      (r.Ok? && i + r.value <= post <==> Skip(a[i..]).Ok? && i + Skip(a[i..]).value <= post)
      && (r.Ok? && i + r.value <= post ==> Skip(a[i..]) == r)
  {
    hide Skip;
    if Skip(a[i..]).Ok? && i + Skip(a[i..]).value <= post { SkipHere(a, b, i); }
    if Skip((a + b)[i..]).Ok? && i + Skip((a + b)[i..]).value <= post { SkipThere(a, b, i); }
  }

  /** What a map entry writes; an open key or value is the bytes from start to end of the message. */
  datatype Write = Plain(key: text, value: text) | OpenValue(key: text, start: nat, end: nat)
      | OpenKey(start: nat, end: nat, value: text)

  /** The field at i of `a`: nothing that ends inside a, or a field that ends at next. */
  datatype First = Stop | Jump(next: nat) | Set(w: Write, next: nat) | CutHere(tag: bool, i: nat, next: nat)

  function FirstField(a: seq<byte>, i: nat): (r: First)
    requires i <= |a|
    ensures !r.Stop? ==> i < r.next <= |a|
    ensures r.Set? ==> Reaches(r.w, |a|)
    ensures r.CutHere? ==> r.i <= |a| && (r.tag ==> r.i < |a|) && V.Decode(a, r.i) == Err(UnexpectedEof)
  {
    match V.Decode(a, i)
    case Err(_) => Stop
    case Ok(tag) =>
      var num, wt := ToInt32(tag.v / 8), tag.v % 8;
      if wt == 4 || num <= 0 then Stop
      else if num == 1 then
        match ChunkBody(a, tag.next, wt)
        case Err(_) => Stop
        case Ok(s) =>
          match ReadEntry(a, s.start, s.end, Pair([], []))
          case Inside(p) => Set(Plain(p.key, p.value), s.end)
          case Past(p, isKey, start, end) =>
            Set(if isKey then OpenKey(start, end, p.value) else OpenValue(p.key, start, end), s.end)
          case Cut(t, j) => CutHere(t, j, s.end)
          case Rejected => Stop
      else
        match Skipped(a, i, NO_PAYLOAD)
        case Err(_) => Stop
        case Ok(at) => Jump(at.next)
  }

  /** An open string begins inside the first n bytes and ends beyond them. */
  predicate Reaches(w: Write, n: nat) { !w.Plain? ==> w.start <= n < w.end < TWO63 }

  /** Its bytes are there. */
  predicate Fits(w: Write, n: nat) { !w.Plain? ==> w.start <= w.end <= n }

  function Put(m: Payload, w: Write, d: seq<byte>): Payload
    requires Fits(w, |d|)
  {
    match w
    case Plain(k, v) => Payload(m.fields[k := v])
    case OpenValue(k, start, end) => Payload(m.fields[k := d[start..end]])
    case OpenKey(start, end, v) => Payload(m.fields[d[start..end] := v])
  }

  /** One round of the message loop over a, with anything behind it. */
  lemma FirstStep(a: seq<byte>, b: seq<byte>, i: nat, m: Payload)
    requires i < |a|
    ensures var r := Step(PayloadField, a + b, i, m);
      match FirstField(a, i)
      case Stop => r.Ok? ==> r.value.next > |a|
      case Jump(next) => r == Ok(At(m, next))
      case Set(w, next) => if Fits(w, |a + b|) then r == Ok(At(Put(m, w, a + b), next)) else r.Err?
      case CutHere(_, _, next) => r.Ok? ==> r.value.next == next
  {
    hide V.Decode, Skip, Entry, ReadEntry;
    var r := Step(PayloadField, a + b, i, m);
    assert (a + b)[i..] == a[i..] + b;
    if V.Decode(a, i).Err? {
      NoTag(a, b, i, m);
    } else {
      V.Local(a, b, i);
      var tag := V.Decode(a, i).value;
      var num, wt := ToInt32(tag.v / 8), tag.v % 8;
      if wt != 4 && num == 1 {
        EntryStep(a, b, i, m);
      } else if wt != 4 && num > 0 {
        SkipBoth(a, b, i, |a|);
      }
    }
  }

  lemma NoTag(a: seq<byte>, b: seq<byte>, i: nat, m: Payload)
    requires i < |a| && V.Decode(a, i).Err?
    ensures Step(PayloadField, a + b, i, m).Ok? ==> Step(PayloadField, a + b, i, m).value.next > |a|
  {
    hide V.Decode, Skip, Entry;
    if V.Decode(a + b, i).Ok? {
      if V.Decode(a + b, i).value.next <= |a| { V.Inside(a, b, i); }
      if Skip((a + b)[i..]).Ok? { TagInSkip(a + b, i); }
    }
  }

  lemma EntryStep(a: seq<byte>, b: seq<byte>, i: nat, m: Payload)
    requires i < |a| && V.Decode(a, i).Ok? && V.Decode(a + b, i) == V.Decode(a, i)
    requires var tag := V.Decode(a, i).value; tag.v % 8 != 4 && ToInt32(tag.v / 8) == 1
    ensures var r := Step(PayloadField, a + b, i, m);
      match FirstField(a, i)
      case Stop => r.Ok? ==> r.value.next > |a|
      case Jump(_) => false
      case Set(w, next) => if Fits(w, |a + b|) then r == Ok(At(Put(m, w, a + b), next)) else r.Err?
      case CutHere(_, _, next) => r.Ok? ==> r.value.next == next
  {
    hide V.Decode, Entry, ReadEntry, Delimited;
    var tag := V.Decode(a, i).value;
    var j := tag.next;
    if tag.v % 8 == 2 {
      if Delimited(a, j).Ok? {
        DelimitedLocal(a, b, j);
        var s := Delimited(a, j).value;
        EntryReads(a, b, s.start, s.end, Pair([], []));
      } else if Delimited(a + b, j).Ok? && Delimited(a + b, j).value.end <= |a| {
        DelimitedInside(a, b, j);
      }
    }
  }

  /** The whole of `a`: its writes, if every string's tag and length lie inside it. */
  datatype Scan = Writes(ws: seq<Write>) | CutOff(tag: bool, i: nat) | Bad

  function ScanFrom(a: seq<byte>, i: nat): (r: Scan)
    requires i <= |a|
    ensures r.Writes? ==> forall j :: 0 <= j < |r.ws| ==> Reaches(r.ws[j], |a|)
    ensures r.CutOff? ==> r.i <= |a| && (r.tag ==> r.i < |a|) && V.Decode(a, r.i) == Err(UnexpectedEof)
    decreases |a| - i
  {
    if i == |a| then Writes([])
    else
      match FirstField(a, i)
      case Stop => Bad
      case Jump(next) => ScanFrom(a, next)
      case CutHere(tag, j, _) => CutOff(tag, j)
      case Set(w, next) =>
        var rest := ScanFrom(a, next);
        if rest.Writes? then Writes([w] + rest.ws) else rest
  }

  predicate AllFit(ws: seq<Write>, n: nat) { forall j :: 0 <= j < |ws| ==> Fits(ws[j], n) }

  function PutAll(m: Payload, ws: seq<Write>, d: seq<byte>): Payload
    requires AllFit(ws, |d|)
    decreases |ws|
  {
    if |ws| == 0 then m else PutAll(Put(m, ws[0], d), ws[1..], d)
  }

  /** Decoding a, and then whatever follows. */
  lemma {:induction false} ScanRuns(a: seq<byte>, b: seq<byte>, i: nat, m: Payload)
    requires Proper(PayloadField) && i <= |a| && ScanFrom(a, i).Writes? && AllFit(ScanFrom(a, i).ws, |a + b|)
    ensures Parse(PayloadField, a + b, i, m) == Parse(PayloadField, a + b, |a|, PutAll(m, ScanFrom(a, i).ws, a + b))
    decreases |a| - i
  {
    hide Proper, Step, FirstField, Put;
    if i < |a| {
      FirstStep(a, b, i, m);
      match FirstField(a, i) {
        case Jump(next) => ScanRuns(a, b, next, m);
        case Set(w, next) =>
          var rest := ScanFrom(a, next).ws;
          var ws := [w] + rest;
          assert ws[0] == w && ws[1..] == rest;
          assert AllFit(rest, |a + b|) by {
            forall j | 0 <= j < |rest| ensures Fits(rest[j], |a + b|) { assert Fits(ws[j + 1], |a + b|); }
          }
          ScanRuns(a, b, next, Put(m, w, a + b));
      }
    }
  }

  /** If the loop comes by the end of a, the scan of a succeeds, as far as it goes. */
  lemma {:induction false} BoundaryScans(a: seq<byte>, b: seq<byte>, i: nat, m: Payload)
    requires Proper(PayloadField) && i <= |a| && ComesBy(PayloadField, a + b, i, |a|, m)
    ensures !ScanFrom(a, i).Bad?
    ensures ScanFrom(a, i).Writes? ==> AllFit(ScanFrom(a, i).ws, |a + b|)
    decreases |a| - i
  {
    hide Proper, Step, FirstField;
    if i < |a| {
      FirstStep(a, b, i, m);
      var at := Step(PayloadField, a + b, i, m).value;
      StepMoves(PayloadField, a + b, i, m);
      Passed(PayloadField, a + b, at.next, |a|, at.m);
      var f := FirstField(a, i);
      if f.Jump? || f.Set? { BoundaryScans(a, b, f.next, at.m); }
    }
  }

  // ------------------------------------------------------------------------------------------
  // What follows the boundary only adds to the map.
  // ------------------------------------------------------------------------------------------

  lemma StepAdds(d: seq<byte>, i: nat, f: map<text, text>, g: map<text, text>)
    requires i <= |d|
    ensures var r := Step(PayloadField, d, i, Payload(g));
      match r
      case Err(e) => Step(PayloadField, d, i, Payload(f + g)) == r
      case Ok(at) => Step(PayloadField, d, i, Payload(f + g)) == Ok(At(Payload(f + at.m.fields), at.next))
  {
    hide V.Decode, ChunkBody, Entry;
    if V.Decode(d, i).Ok? {
      var tag := V.Decode(d, i).value;
      var num, wt := ToInt32(tag.v / 8), tag.v % 8;
      if num == 1 && ChunkBody(d, tag.next, wt).Ok? {
        var s := ChunkBody(d, tag.next, wt).value;
        var e := Entry(d, s.start, s.end, Pair([], []));
        if e.Ok? { assert (f + g)[e.value.key := e.value.value] == f + g[e.value.key := e.value.value]; }
      }
    }
  }

  lemma {:induction false} ParseAdds(d: seq<byte>, i: nat, f: map<text, text>, g: map<text, text>)
    requires Proper(PayloadField) && i <= |d|
    ensures var r := Parse(PayloadField, d, i, Payload(g));
      match r
      case Err(e) => Parse(PayloadField, d, i, Payload(f + g)) == r
      case Ok(m) => Parse(PayloadField, d, i, Payload(f + g)) == Ok(Payload(f + m.fields))
    decreases |d| - i
  {
    hide Proper, Step;
    if i < |d| {
      StepAdds(d, i, f, g);
      if Step(PayloadField, d, i, Payload(g)).Ok? {
        StepMoves(PayloadField, d, i, Payload(g));
        var at := Step(PayloadField, d, i, Payload(g)).value;
        ParseAdds(d, at.next, f, at.m.fields);
      }
    }
  }

  /** Decoding b onto m adds what b holds. */
  lemma Adds(b: seq<byte>, m: Payload)
    ensures var r := ParsePayload(b, NO_PAYLOAD);
      match r
      case Err(e) => ParsePayload(b, m) == r
      case Ok(w) => ParsePayload(b, m) == Ok(Payload(m.fields + w.fields))
  {
    PayloadSound();
    hide Proper, Nearby, Shifts, Parse;
    assert m.fields + map[] == m.fields;
    ParseAdds(b, 0, m.fields, map[]);
  }

  predicate Unknown(x: Field) { WellFormed(x) && x.num > 1 }

  /** Behind the boundary, an inserted unknown field makes no difference. */
  lemma Behind(a: seq<byte>, x: Field, b: seq<byte>, m: Payload)
    requires Unknown(x) && |a + FieldBytes(x) + b| < TWO63 && Proper(PayloadField)
    ensures Agree(Parse(PayloadField, a + FieldBytes(x) + b, |a|, m), ParsePayload(b, m))
    ensures Agree(Parse(PayloadField, a + b, |a|, m), ParsePayload(b, m))
  {
    PayloadSound();
    hide Proper, Nearby, Shifts, FieldBytes, Parse;
    var u := FieldBytes(x);
    assert a + u + b == a + (u + b);
    ParseBack(PayloadField, a, u + b, 0, m);
    ParseBack(PayloadField, a, b, 0, m);
    ForeignAlone(PayloadField, x, m);
    Concatenation(PayloadField, u, b, m);
  }

  // ------------------------------------------------------------------------------------------
  // The writes of a, with one or another message behind it.
  // ------------------------------------------------------------------------------------------

  predicate WritesKey(w: Write, k: text) { !w.OpenKey? && w.key == k }

  /** Key k is written again, in ws or behind. */
  predicate Later(ws: seq<Write>, again: map<text, text>, k: text) {
    k in again || exists i :: 0 <= i < |ws| && WritesKey(ws[i], k)
  }

  /** Every value that reaches beyond a is overwritten. */
  predicate Overwritten(ws: seq<Write>, again: map<text, text>) {
    forall j :: 0 <= j < |ws| && ws[j].OpenValue? ==> Later(ws[j + 1..], again, ws[j].key)
  }

  predicate NoOpenKey(ws: seq<Write>) { forall j :: 0 <= j < |ws| ==> !ws[j].OpenKey? }

  /** The same keys, and the same values but for those written again. */
  predicate Alike(f: map<text, text>, g: map<text, text>, ws: seq<Write>, again: map<text, text>) {
    f.Keys == g.Keys && forall k :: k in f && !Later(ws, again, k) ==> f[k] == g[k]
  }

  lemma {:induction false} WrittenAlike(m: Payload, m': Payload, ws: seq<Write>, d: seq<byte>, d': seq<byte>,
                                        again: map<text, text>)
    requires AllFit(ws, |d|) && AllFit(ws, |d'|) && NoOpenKey(ws) && Overwritten(ws, again)
    requires Alike(m.fields, m'.fields, ws, again)
    ensures Alike(PutAll(m, ws, d).fields, PutAll(m', ws, d').fields, [], again)
    decreases |ws|
  {
    if |ws| > 0 {
      var rest := ws[1..];
      assert forall j :: 0 <= j < |rest| ==> rest[j] == ws[j + 1] && rest[j + 1..] == ws[j + 2..];
      var m1, m1' := Put(m, ws[0], d), Put(m', ws[0], d');
      var k := ws[0].key;
      assert m1.fields.Keys == m.fields.Keys + {k};
      forall q | q in m1.fields && !Later(rest, again, q) ensures m1.fields[q] == m1'.fields[q] {
        if q != k && Later(ws, again, q) { LaterHere(ws, again, q); }
      }
      WrittenAlike(m1, m1', rest, d, d', again);
    }
  }

  lemma LaterHere(ws: seq<Write>, again: map<text, text>, k: text)
    requires |ws| > 0 && !WritesKey(ws[0], k) && Later(ws, again, k)
    ensures Later(ws[1..], again, k)
  {
    if k !in again {
      var i :| 0 <= i < |ws| && WritesKey(ws[i], k);
      assert ws[1..][i - 1] == ws[i];
    }
  }

  /** The last write to a key decides. */
  lemma {:induction false} LastWrite(m: Payload, ws: seq<Write>, d: seq<byte>, j: nat)
    requires AllFit(ws, |d|) && NoOpenKey(ws) && j < |ws| && ws[j].OpenValue?
    requires forall i :: j < i < |ws| ==> !WritesKey(ws[i], ws[j].key)
    ensures ws[j].key in PutAll(m, ws, d).fields && PutAll(m, ws, d).fields[ws[j].key] == d[ws[j].start..ws[j].end]
    decreases |ws|
  {
    var rest := ws[1..];
    if j > 0 {
      assert rest[j - 1] == ws[j];
      LastWrite(Put(m, ws[0], d), rest, d, j - 1);
    } else {
      Untouched(Put(m, ws[0], d), rest, d, ws[0].key);
    }
  }

  lemma {:induction false} Untouched(m: Payload, ws: seq<Write>, d: seq<byte>, k: text)
    requires AllFit(ws, |d|) && k in m.fields
    requires NoOpenKey(ws) && forall i :: 0 <= i < |ws| ==> !WritesKey(ws[i], k)
    ensures k in PutAll(m, ws, d).fields && PutAll(m, ws, d).fields[k] == m.fields[k]
    decreases |ws|
  {
    if |ws| > 0 { Untouched(Put(m, ws[0], d), ws[1..], d, k); }
  }

  /** A key once written stays. */
  lemma {:induction false} KeyStays(m: Payload, ws: seq<Write>, d: seq<byte>, k: text)
    requires AllFit(ws, |d|)
    requires k in m.fields || exists j :: 0 <= j < |ws| && ws[j].OpenKey? && d[ws[j].start..ws[j].end] == k
    ensures k in PutAll(m, ws, d).fields
    decreases |ws|
  {
    if |ws| > 0 {
      var m1 := Put(m, ws[0], d);
      if k !in m1.fields {
        var j :| 0 <= j < |ws| && ws[j].OpenKey? && d[ws[j].start..ws[j].end] == k;
        assert ws[1..][j - 1] == ws[j];
      }
      KeyStays(m1, ws[1..], d, k);
    }
  }

  // ------------------------------------------------------------------------------------------
  // A tag or length cut by the boundary: some field completes it to something unreadable.
  // ------------------------------------------------------------------------------------------

  /** What the bytes from i on contribute when the varint is cut by the end of a. */
  function Partial(a: seq<byte>, i: nat): nat
    requires i <= |a|
    decreases |a| - i
  {
    if i == |a| then 0 else a[i] % 128 + 128 * Partial(a, i + 1)
  }

  lemma {:induction false} PartialSmall(a: seq<byte>, i: nat)
    requires i <= |a|
    ensures Partial(a, i) < Pow128(|a| - i)
    decreases |a| - i
  {
    if i < |a| { PartialSmall(a, i + 1); }
  }

  lemma {:induction false} DigitsCut(a: seq<byte>, c: seq<byte>, i: nat, n: nat)
    requires i <= |a| && Digits(a, i, n) == Err(UnexpectedEof)
    ensures |a| - i < n
    ensures var r := Digits(c, 0, n - (|a| - i));
      Digits(a + c, i, n) == match r
        case Ok(x) => Ok(Read(Partial(a, i) + Pow128(|a| - i) * x.v, |a| + x.next))
        case Err(e) => Err(e)
    decreases |a| - i
  {
    if i == |a| {
      DigitsShift(a, c, 0, n);
    } else {
      DigitsCut(a, c, i + 1, n - 1);
      assert a[i] >= 128 && (a + c)[i] == a[i] && a[i] % 128 == a[i] - 128;
      var r := Digits(c, 0, n - (|a| - i));
      if r.Ok? { CutSum(a[i] - 128, Partial(a, i + 1), Pow128(|a| - i - 1), r.value.v); }
    }
  }

  lemma CutSum(c: nat, q: nat, p: nat, v: nat)
    ensures c + 128 * (q + p * v) == c + 128 * q + 128 * p * v
  {
    assert 128 * (p * v) == 128 * p * v;
  }

  lemma {:induction false} DigitsTooMany(d: seq<byte>, i: nat, v: nat, k: nat)
    requires k < |V.Encode(v)| && i + |V.Encode(v)| <= |d| && d[i..i + |V.Encode(v)|] == V.Encode(v)
    ensures Digits(d, i, k) == Err(Overflow)
    decreases k
  {
    if k > 0 {
      var n := |V.Encode(v)|;
      assert d[i] == d[i..i + n][0] == V.Encode(v)[0];
      assert d[i + 1..i + n] == d[i..i + n][1..] == V.Encode(v)[1..] == V.Encode(v / 128);
      DigitsTooMany(d, i + 1, v / 128, k - 1);
    }
  }

  /** The cut varint, completed by the tag T of an inserted field. */
  lemma Completed(a: seq<byte>, u: seq<byte>, i: nat, T: nat)
    requires i <= |a| && V.Decode(a, i) == Err(UnexpectedEof) && Has(u, 0, V.Encode(T))
    ensures var k := |a| - i; var n := |V.Encode(T)|;
      && k < 10 && Partial(a, i) < Pow128(k)
      && (k + n > 10 ==> V.Decode(a + u, i).Err?)
      && (k + n <= 10 ==> V.Decode(a + u, i) == Ok(Read((Partial(a, i) + Pow128(k) * T) % TWO64, |a| + n)))
  {
    hide Digits, Partial, Pow128, V.Encode;
    var k, n := |a| - i, |V.Encode(T)|;
    DigitsErr(a, i, 10);
    assert Digits(a, i, 10) == Err(UnexpectedEof);
    DigitsCut(a, u, i, 10);
    PartialSmall(a, i);
    if k + n > 10 { DigitsTooMany(u, 0, T, 10 - k); } else { DigitsOfEncode(u, 0, T, 10 - k); }
  }

  /** A string whose tag or length varint is at j cannot be read. */
  predicate Unreadable(d: seq<byte>, tag: bool, j: nat, post: nat) {
    if tag then
      match V.Decode(d, j)
      case Err(_) => true
      case Ok(t) => if ToInt32(t.v / 8) == 1 || ToInt32(t.v / 8) == 2 then Delimited(d, t.next).Err? else t.next > post
    else Delimited(d, j).Err?
  }

  lemma {:induction false} EntryCut(a: seq<byte>, u: seq<byte>, i: nat, post: nat, p: Pair)
    requires i <= |a| && post <= |a| && ReadEntry(a, i, post, p).Cut?
    requires Unreadable(a + u, ReadEntry(a, i, post, p).tag, ReadEntry(a, i, post, p).i, |a|)
    ensures Entry(a + u, i, post, p).Err?
    decreases |a| - i
  {
    hide V.Decode, Skip;
    if V.Decode(a, i) == Err(UnexpectedEof) {
      if V.Decode(a + u, i).Ok? && Skip((a + u)[i..]).Ok? { TagInSkip(a + u, i); }
    } else {
      DecodeStays(a, u, i);
      var tag := V.Decode(a, i).value;
      var num := ToInt32(tag.v / 8);
      if num == 1 || num == 2 {
        if V.Decode(a, tag.next) != Err(UnexpectedEof) {
          DecodeStays(a, u, tag.next);
          var len := V.Decode(a, tag.next).value;
          var t := a[len.next..len.next + len.v];
          assert (a + u)[len.next..len.next + len.v] == t;
          EntryCut(a, u, len.next + len.v, post, With(p, num == 1, t));
        }
      } else {
        SkipBoth(a, u, i, post);
        EntryCut(a, u, i + Skip(a[i..]).value, post, p);
      }
    }
  }

  /** A field whose tag, behind k bytes of a cut varint, makes it unreadable. */
  function Breaker(tag: bool, k: nat): Field {
    if tag then (if k <= 4 then Word64(2, 0) else Word64(0x200_0000, TWO63))
    else Word64(if k <= 4 then 0x4000_0000 else 0x200_0000, 0)
  }

  lemma Powers()
    ensures Pow128(0) == 1 && Pow128(1) == 128 && Pow128(2) == 0x4000 && Pow128(3) == 0x20_0000
    ensures Pow128(4) == 0x1000_0000 && Pow128(5) == 0x8_0000_0000
  {
    assert Pow128(3) == 128 * Pow128(2);
    assert Pow128(5) == 128 * Pow128(4);
  }

  lemma BreakerTags()
    ensures |V.Encode(16)| == 1 && |V.Encode(0)| == 1 && |V.Encode(TWO63)| <= 10
    ensures |V.Encode(0x1000_0000)| == 5 && |V.Encode(0x2_0000_0000)| == 5
  {
    TenBytes(TWO63);
    assert |V.Encode(0x1000_0000)| == 2 + |V.Encode(0x4000)|;
    assert |V.Encode(0x4000)| == 3;
    assert |V.Encode(0x2_0000_0000)| == 2 + |V.Encode(0x8_0000)|;
    assert |V.Encode(0x8_0000)| == 3;
  }

  lemma OtherNumber(q: nat, p: nat)
    requires q < p && 128 <= p <= 0x1000_0000
    ensures (q + p * 16) % TWO64 == q + p * 16 && ToInt32((q + p * 16) / 8) > 2
  {
    assert (q + p * 16) / 8 == q / 8 + 2 * p;
  }

  lemma BreaksTag(a: seq<byte>, b: seq<byte>, i: nat)
    requires i < |a| && V.Decode(a, i) == Err(UnexpectedEof) && |a + b| + 16 < TWO63
    ensures var x := Breaker(true, |a| - i);
      Unknown(x) && |FieldBytes(x)| <= 15 && Unreadable(a + FieldBytes(x) + b, true, i, |a|)
  {
    hide V.Decode, V.Encode, Delimited, Pow128, Partial;
    Powers();
    BreakerTags();
    var k := |a| - i;
    var x := Breaker(true, k);
    var T := 8 * x.num;
    assert FieldBytes(x) == V.Encode(T) + V.Encode(x.v);
    var u := FieldBytes(x) + b;
    assert u[..|V.Encode(T)|] == V.Encode(T);
    Completed(a, u, i, T);
    assert a + u == a + FieldBytes(x) + b;
    if k <= 4 {
      assert k == 1 || k == 2 || k == 3 || k == 4;
      OtherNumber(Partial(a, i), Pow128(k));
    } else if k == 5 {
      assert (a + u)[|a| + 5..|a| + 5 + |V.Encode(TWO63)|] == V.Encode(TWO63);
      V.RoundTrip(a + u, |a| + 5, TWO63);
      LongLength(a + u, |a| + 5);
    }
  }

  lemma LongLength(d: seq<byte>, j: nat)
    requires V.Decode(d, j).Ok?
      && (V.Decode(d, j).value.v >= TWO63 || V.Decode(d, j).value.next + V.Decode(d, j).value.v > |d|)
    ensures Delimited(d, j).Err?
  {
  }

  lemma BreaksLength(a: seq<byte>, b: seq<byte>, i: nat)
    requires i <= |a| && V.Decode(a, i) == Err(UnexpectedEof) && |a + b| + 16 < 0x2_0000_0000
    ensures var x := Breaker(false, |a| - i);
      Unknown(x) && |FieldBytes(x)| <= 15 && Unreadable(a + FieldBytes(x) + b, false, i, |a|)
  {
    hide V.Decode, V.Encode, Delimited, Pow128, Partial;
    Powers();
    BreakerTags();
    var k := |a| - i;
    var x := Breaker(false, k);
    var T := 8 * x.num;
    assert FieldBytes(x) == V.Encode(T) + V.Encode(0);
    var u := FieldBytes(x) + b;
    assert u[..|V.Encode(T)|] == V.Encode(T);
    Completed(a, u, i, T);
    assert a + u == a + FieldBytes(x) + b;
    if k <= 4 {
      var v := Partial(a, i) + Pow128(k) * T;
      assert k == 0 || k == 1 || k == 2 || k == 3 || k == 4;
      assert T <= v < TWO63;
      LongLength(a + u, i);
    } else if k == 5 {
      assert Pow128(5) * T == TWO63;
      LongLength(a + u, i);
    } else {
      assert V.Decode(a + u, i).Err?;
      NoLength(a + u, i);
    }
  }

  lemma NoLength(d: seq<byte>, j: nat)
    requires V.Decode(d, j).Err?
    ensures Delimited(d, j).Err?
  {
  }

  lemma CutStep(a: seq<byte>, u: seq<byte>, i: nat, m: Payload)
    requires i < |a| && FirstField(a, i).CutHere?
    requires Unreadable(a + u, FirstField(a, i).tag, FirstField(a, i).i, |a|)
    ensures Step(PayloadField, a + u, i, m).Err?
  {
    hide V.Decode, Skip, Entry, ReadEntry, Delimited, Unreadable;
    V.Local(a, u, i);
    var tag := V.Decode(a, i).value;
    var s := ChunkBody(a, tag.next, tag.v % 8).value;
    DelimitedLocal(a, u, tag.next);
    EntryCut(a, u, s.start, s.end, Pair([], []));
  }

  /** The loop fails at the cut. */
  lemma {:induction false} CutFails(a: seq<byte>, b: seq<byte>, u: seq<byte>, i: nat, m: Payload, m': Payload)
    requires Proper(PayloadField) && i <= |a| && ComesBy(PayloadField, a + b, i, |a|, m) && |b| <= |u|
    requires ScanFrom(a, i).CutOff? && Unreadable(a + u, ScanFrom(a, i).tag, ScanFrom(a, i).i, |a|)
    ensures Parse(PayloadField, a + u, i, m').Err?
    decreases |a| - i
  {
    hide Proper, Step, FirstField, Put, Unreadable;
    FirstStep(a, b, i, m);
    FirstStep(a, u, i, m');
    var at := Step(PayloadField, a + b, i, m).value;
    StepMoves(PayloadField, a + b, i, m);
    Passed(PayloadField, a + b, at.next, |a|, at.m);
    match FirstField(a, i) {
      case Jump(next) => CutFails(a, b, u, next, at.m, m');
      case CutHere(_, _, _) => CutStep(a, u, i, m');
      case Set(w, next) => CutFails(a, b, u, next, at.m, Put(m', w, a + u));
    }
  }

  /** With more behind a, the loop still comes by its end, or fails before. */
  lemma {:induction false} StillComesBy(a: seq<byte>, b: seq<byte>, u: seq<byte>, i: nat, m: Payload, m': Payload)
    returns (to: Payload)
    requires Proper(PayloadField) && i <= |a| && ComesBy(PayloadField, a + b, i, |a|, m)
    ensures Parse(PayloadField, a + u, i, m').Err?
      || Parse(PayloadField, a + u, i, m') == Parse(PayloadField, a + u, |a|, to)
    decreases |a| - i
  {
    hide Proper, Step, FirstField, Put;
    to := m';
    if i < |a| {
      FirstStep(a, b, i, m);
      FirstStep(a, u, i, m');
      var at := Step(PayloadField, a + b, i, m).value;
      StepMoves(PayloadField, a + b, i, m);
      Passed(PayloadField, a + b, at.next, |a|, at.m);
      var r := Step(PayloadField, a + u, i, m');
      if r.Ok? {
        StepMoves(PayloadField, a + u, i, m');
        to := StillComesBy(a, b, u, at.next, at.m, r.value.m);
      }
    }
  }

  // ------------------------------------------------------------------------------------------
  // Main results.
  // ------------------------------------------------------------------------------------------

  /** No unknown field, inserted between a and b, changes what the message decodes to. */
  ghost predicate Harmless(a: seq<byte>, b: seq<byte>, m: Payload) {
    forall x: Field :: Unknown(x) && |a + FieldBytes(x) + b| < TWO63 ==>
      Agree(ParsePayload(a + FieldBytes(x) + b, m), ParsePayload(a + b, m))
  }

  /** No tag or length in a is cut off by its end, and every value that reaches beyond a is written
      again, later in a or in b. */
  predicate Undisturbed(a: seq<byte>, b: seq<byte>) {
    ParsePayload(b, NO_PAYLOAD).Ok? ==>
      ScanFrom(a, 0).Writes? && Overwritten(ScanFrom(a, 0).ws, ParsePayload(b, NO_PAYLOAD).value.fields)
  }

  /** The decoded message, from the writes of a and what b adds. */
  lemma FromWrites(a: seq<byte>, x: Field, b: seq<byte>, m: Payload)
    requires Unknown(x) && |a + FieldBytes(x) + b| < TWO63 && PayloadBoundary(a + b, |a|, m)
    requires ScanFrom(a, 0).Writes? && ParsePayload(b, NO_PAYLOAD).Ok?
    ensures var ws := ScanFrom(a, 0).ws; var again := ParsePayload(b, NO_PAYLOAD).value.fields;
      && AllFit(ws, |a + b|) && AllFit(ws, |a + FieldBytes(x) + b|)
      && ParsePayload(a + b, m) == Ok(Payload(PutAll(m, ws, a + b).fields + again))
      && ParsePayload(a + FieldBytes(x) + b, m) == Ok(Payload(PutAll(m, ws, a + FieldBytes(x) + b).fields + again))
  {
    PayloadSound();
    hide Proper, Nearby, Shifts, FieldBytes, Parse, ComesBy, ScanFrom, PutAll;
    BoundaryScans(a, b, 0, m);
    var ws := ScanFrom(a, 0).ws;
    var u := FieldBytes(x) + b;
    assert a + u == a + FieldBytes(x) + b;
    forall j | 0 <= j < |ws| ensures Fits(ws[j], |a + u|) { assert Fits(ws[j], |a + b|); }
    ScanRuns(a, b, 0, m);
    ScanRuns(a, u, 0, m);
    Behind(a, x, b, PutAll(m, ws, a + b));
    Behind(a, x, b, PutAll(m, ws, a + u));
    Adds(b, PutAll(m, ws, a + b));
    Adds(b, PutAll(m, ws, a + u));
  }

  /** If the rest is rejected, so is the message, with or without the field. */
  lemma RejectedRest(a: seq<byte>, x: Field, b: seq<byte>, m: Payload)
    requires Unknown(x) && |a + FieldBytes(x) + b| < TWO63 && PayloadBoundary(a + b, |a|, m)
    requires ParsePayload(b, NO_PAYLOAD).Err?
    ensures ParsePayload(a + b, m).Err? && ParsePayload(a + FieldBytes(x) + b, m).Err?
  {
    PayloadSound();
    hide Proper, Nearby, Shifts, FieldBytes, Parse, ComesBy;
    var u := FieldBytes(x) + b;
    assert a + u == a + FieldBytes(x) + b;
    var to := StillComesBy(a, b, b, 0, m, m);
    Behind(a, x, b, to);
    Adds(b, to);
    to := StillComesBy(a, b, u, 0, m, m);
    Behind(a, x, b, to);
    Adds(b, to);
  }

  /** Such a boundary takes any unknown field. */
  lemma UndisturbedIgnoresUnknown(a: seq<byte>, x: Field, b: seq<byte>, m: Payload)
    requires Unknown(x) && |a + FieldBytes(x) + b| < TWO63 && PayloadBoundary(a + b, |a|, m)
    requires Undisturbed(a, b) && (ScanFrom(a, 0).Writes? ==> NoOpenKey(ScanFrom(a, 0).ws))
    ensures Agree(ParsePayload(a + FieldBytes(x) + b, m), ParsePayload(a + b, m))
  {
    hide FieldBytes, ParsePayload, PayloadBoundary, ScanFrom;
    if ParsePayload(b, NO_PAYLOAD).Err? {
      RejectedRest(a, x, b, m);
    } else {
      FromWrites(a, x, b, m);
      var ws, again := ScanFrom(a, 0).ws, ParsePayload(b, NO_PAYLOAD).value.fields;
      var d := a + FieldBytes(x) + b;
      WrittenAlike(m, m, ws, d, a + b, again);
      var f, g := PutAll(m, ws, d).fields, PutAll(m, ws, a + b).fields;
      assert f + again == g + again by {
        forall k | k in f + again ensures k in g + again && (f + again)[k] == (g + again)[k] {
          assert k !in again ==> !Later([], again, k);
        }
      }
    }
  }

  /** And only such a boundary does: cut varints are completed to something unreadable, and a value
      that is not written again shows the first byte of the field. */
  lemma CutHarms(a: seq<byte>, b: seq<byte>, m: Payload)
    requires PayloadBoundary(a + b, |a|, m) && |a + b| + 16 < 0x2_0000_0000
    requires ParsePayload(b, NO_PAYLOAD).Ok? && ScanFrom(a, 0).CutOff?
    ensures !Harmless(a, b, m)
  {
    PayloadSound();
    hide Proper, Nearby, Shifts, FieldBytes, Parse, ComesBy, ScanFrom, Unreadable;
    var c := ScanFrom(a, 0);
    if c.tag { BreaksTag(a, b, c.i); } else { BreaksLength(a, b, c.i); }
    var x := Breaker(c.tag, |a| - c.i);
    var u := FieldBytes(x) + b;
    assert a + u == a + FieldBytes(x) + b;
    CutFails(a, b, u, 0, m, m);
    assert ParsePayload(a + b, m).Ok? by { CutAccepted(a, b, m); }
  }

  lemma CutAccepted(a: seq<byte>, b: seq<byte>, m: Payload)
    requires PayloadBoundary(a + b, |a|, m) && |a + b| + 16 < TWO63 && ParsePayload(b, NO_PAYLOAD).Ok?
    ensures ParsePayload(a + b, m).Ok?
  {
    PayloadSound();
    hide Proper, Nearby, Shifts, Parse, Step;
    var to := ComesThere(a, b, 0, m);
    ParseBack(PayloadField, a, b, 0, to);
    Adds(b, to);
  }

  lemma {:induction false} ComesThere(a: seq<byte>, b: seq<byte>, i: nat, m: Payload) returns (to: Payload)
    requires Proper(PayloadField) && i <= |a| && ComesBy(PayloadField, a + b, i, |a|, m)
    ensures Parse(PayloadField, a + b, i, m) == Parse(PayloadField, a + b, |a|, to)
    decreases |a| - i
  {
    hide Proper, Step;
    to := m;
    if i < |a| {
      var at := Step(PayloadField, a + b, i, m).value;
      StepMoves(PayloadField, a + b, i, m);
      Passed(PayloadField, a + b, at.next, |a|, at.m);
      to := ComesThere(a, b, at.next, at.m);
    }
  }

  /** Two unknown fields, one of which begins with another byte than b. */
  function Other(b: seq<byte>): Field
    requires |b| > 0
  {
    Word64(if b[0] == 16 then 3 else 2, 0)
  }

  lemma OtherDiffers(b: seq<byte>)
    requires |b| > 0
    ensures Unknown(Other(b)) && |FieldBytes(Other(b))| == 2 && FieldBytes(Other(b))[0] != b[0]
  {
    assert V.Encode(16) == [16] && V.Encode(24) == [24] && V.Encode(0) == [0];
  }

  lemma ValueHarms(a: seq<byte>, b: seq<byte>, m: Payload, j: nat)
    requires PayloadBoundary(a + b, |a|, m) && |a + b| + 16 < TWO63
    requires ParsePayload(b, NO_PAYLOAD).Ok? && ScanFrom(a, 0).Writes? && NoOpenKey(ScanFrom(a, 0).ws)
    requires var ws := ScanFrom(a, 0).ws;
      j < |ws| && ws[j].OpenValue? && !Later(ws[j + 1..], ParsePayload(b, NO_PAYLOAD).value.fields, ws[j].key)
    ensures !Harmless(a, b, m)
  {
    var ws := ScanFrom(a, 0).ws;
    var w := ws[j];
    assert Reaches(w, |a|);
    BoundaryFits(a, b, m, j);
    hide FieldBytes, ParsePayload, PayloadBoundary, ScanFrom, Other, Unknown;
    var x := Other(b);
    OtherDiffers(b);
    FromWrites(a, x, b, m);
    var d := a + FieldBytes(x) + b;
    forall i | j < i < |ws| ensures !WritesKey(ws[i], w.key) { assert ws[j + 1..][i - j - 1] == ws[i]; }
    LastWrite(m, ws, a + b, j);
    LastWrite(m, ws, d, j);
    assert (a + b)[w.start..w.end][|a| - w.start] == b[0] && d[w.start..w.end][|a| - w.start] == FieldBytes(x)[0];
    assert ParsePayload(a + b, m).value.fields[w.key] != ParsePayload(d, m).value.fields[w.key];
  }

  lemma BoundaryFits(a: seq<byte>, b: seq<byte>, m: Payload, j: nat)
    requires PayloadBoundary(a + b, |a|, m) && ScanFrom(a, 0).Writes? && j < |ScanFrom(a, 0).ws|
    ensures Fits(ScanFrom(a, 0).ws[j], |a + b|)
  {
    PayloadSound();
    hide Proper, Nearby, Shifts, ComesBy, ScanFrom;
    BoundaryScans(a, b, 0, m);
  }

  /** For a boundary no key reaches beyond: an unknown field can be inserted between a and b if and only
      if no tag or length in a is cut off there and every value reaching beyond is written again (or
      the rest is rejected anyway). */
  lemma WithoutOpenKeys(a: seq<byte>, b: seq<byte>, m: Payload)
    requires PayloadBoundary(a + b, |a|, m) && |a + b| + 16 < 0x2_0000_0000
    requires ScanFrom(a, 0).Writes? ==> NoOpenKey(ScanFrom(a, 0).ws)
    ensures Harmless(a, b, m) <==> Undisturbed(a, b)
  {
    hide FieldBytes, ParsePayload, ScanFrom, Overwritten;
    if Undisturbed(a, b) {
      hide PayloadBoundary;
      forall x: Field | Unknown(x) && |a + FieldBytes(x) + b| < TWO63
        ensures Agree(ParsePayload(a + FieldBytes(x) + b, m), ParsePayload(a + b, m))
      {
        UndisturbedIgnoresUnknown(a, x, b, m);
      }
    } else if ScanFrom(a, 0).Writes? {
      var ws := ScanFrom(a, 0).ws;
      var j := NotOverwritten(ws, ParsePayload(b, NO_PAYLOAD).value.fields);
      ValueHarms(a, b, m, j);
    } else {
      PayloadSound();
      hide Proper, Nearby, Shifts, ComesBy, Harmless;
      BoundaryScans(a, b, 0, m);
      CutHarms(a, b, m);
    }
  }

  lemma NotOverwritten(ws: seq<Write>, again: map<text, text>) returns (j: nat)
    requires !Overwritten(ws, again)
    ensures j < |ws| && ws[j].OpenValue? && !Later(ws[j + 1..], again, ws[j].key)
  {
    j :| 0 <= j < |ws| && ws[j].OpenValue? && !Later(ws[j + 1..], again, ws[j].key);
  }

  /** The writes of a leave the same message in front of b and in front of any unknown field and b. */
  ghost predicate SameWrites(a: seq<byte>, b: seq<byte>, m: Payload, ws: seq<Write>, again: map<text, text>) {
    && AllFit(ws, |a + b|)
    && forall x: Field :: Unknown(x) && |a + FieldBytes(x) + b| < TWO63 ==>
         AllFit(ws, |a + FieldBytes(x) + b|)
         && PutAll(m, ws, a + FieldBytes(x) + b).fields + again == PutAll(m, ws, a + b).fields + again
  }

  /** For every boundary, keys that reach beyond it included: an unknown field can be inserted if and
      only if nothing is cut off there and the writes of a come to the same whatever is inserted. */
  lemma PayloadIgnoresUnknownByWrites(a: seq<byte>, b: seq<byte>, m: Payload)
    requires PayloadBoundary(a + b, |a|, m) && |a + b| + 16 < 0x2_0000_0000 && ParsePayload(b, NO_PAYLOAD).Ok?
    ensures Harmless(a, b, m) <==>
      ScanFrom(a, 0).Writes? && SameWrites(a, b, m, ScanFrom(a, 0).ws, ParsePayload(b, NO_PAYLOAD).value.fields)
  {
    hide FieldBytes, ParsePayload, ScanFrom, PutAll;
    if ScanFrom(a, 0).Writes? {
      var ws, again := ScanFrom(a, 0).ws, ParsePayload(b, NO_PAYLOAD).value.fields;
      forall j | 0 <= j < |ws| ensures Fits(ws[j], |a + b|) { BoundaryFits(a, b, m, j); }
      hide PayloadBoundary;
      forall x: Field | Unknown(x) && |a + FieldBytes(x) + b| < TWO63
        ensures AllFit(ws, |a + FieldBytes(x) + b|)
        ensures ParsePayload(a + b, m) == Ok(Payload(PutAll(m, ws, a + b).fields + again))
        ensures ParsePayload(a + FieldBytes(x) + b, m) ==
          Ok(Payload(PutAll(m, ws, a + FieldBytes(x) + b).fields + again))
      {
        FromWrites(a, x, b, m);
      }
    } else {
      PayloadSound();
      hide Proper, Nearby, Shifts, ComesBy, Harmless;
      BoundaryScans(a, b, 0, m);
      CutHarms(a, b, m);
    }
  }

  /** A key that reaches beyond the boundary: inserting x makes it another key of the message, so the
      boundary can be harmless only if every key it could become is in the message already. */
  lemma OpenKeyShows(a: seq<byte>, x: Field, b: seq<byte>, m: Payload, j: nat)
    requires Unknown(x) && |a + FieldBytes(x) + b| < TWO63 && PayloadBoundary(a + b, |a|, m)
    requires ParsePayload(b, NO_PAYLOAD).Ok? && ScanFrom(a, 0).Writes? && j < |ScanFrom(a, 0).ws|
    requires ScanFrom(a, 0).ws[j].OpenKey? && Harmless(a, b, m)
    ensures var w := ScanFrom(a, 0).ws[j]; var d := a + FieldBytes(x) + b;
      w.start <= |a| < w.end <= |a + b| && ParsePayload(a + b, m).Ok?
        && d[w.start..w.end] in ParsePayload(a + b, m).value.fields
  {
    var ws := ScanFrom(a, 0).ws;
    assert Reaches(ws[j], |a|);
    hide FieldBytes, ParsePayload, PayloadBoundary, ScanFrom, Unknown;
    FromWrites(a, x, b, m);
    assert Fits(ws[j], |a + b|);
    var d := a + FieldBytes(x) + b;
    KeyStays(m, ws, d, d[ws[j].start..ws[j].end]);
  }

  // ------------------------------------------------------------------------------------------
  // How many keys that takes.
  // ------------------------------------------------------------------------------------------

  /** The bytes an unknown field can begin with: there are 150 of them. */
  predicate Opens(c: byte) { c >= 16 && c % 8 in {0, 1, 2, 3, 5} }

  function OpeningByte(i: nat): (c: byte)
    requires i < 150
    ensures Opens(c)
  {
    16 + 8 * (i / 5) + if i % 5 == 4 then 5 else i % 5
  }

  function Opening(c: byte): Field
    requires Opens(c)
  {
    var num := c / 8;
    if c % 8 == 0 then Word64(num, 0)
    else if c % 8 == 1 then Fixed64(num, seq(8, _ => 0))
    else if c % 8 == 2 then Chunk(num, [])
    else if c % 8 == 3 then Group(num, Nil)
    else Fixed32(num, seq(4, _ => 0))
  }

  lemma EncodeShort(v: nat)
    ensures v < 0x4000 ==> |V.Encode(v)| <= 2
    ensures V.Encode(v)[0] == if v < 128 then v else v % 128 + 128
  {
  }

  lemma TagOpens(num: nat, wt: nat)
    requires num > 1 && wt in {0, 1, 2, 3, 5}
    ensures Opens(Tag(num, wt)[0]) && (num < 32 ==> |Tag(num, wt)| <= 2 && Tag(num, wt)[0] == 8 * num + wt)
  {
    EncodeShort(8 * num + wt);
    LowBits(num, wt);
    hide V.Encode;
    var c := Tag(num, wt)[0];
    assert c % 8 == wt && c >= 16;
  }

  lemma LowBits(num: nat, wt: nat)
    requires wt < 8
    ensures (8 * num + wt) % 128 == 8 * (num % 16) + wt
    ensures (8 * num + wt) % 8 == wt && (8 * (num % 16) + wt + 128) % 8 == wt
  {
    assert num == 16 * (num / 16) + num % 16;
    Mod128(num / 16, 8 * (num % 16) + wt);
    Mod8(num, wt);
    Mod8(num % 16 + 16, wt);
  }

  lemma Mod128(q: nat, k: nat)
    requires k < 128
    ensures (128 * q + k) % 128 == k
  {
  }

  lemma Mod8(q: nat, k: nat)
    requires k < 8
    ensures (8 * q + k) % 8 == k
  {
  }

  function WireType(x: Field): nat {
    match x case Word64(_, _) => 0 case Fixed64(_, _) => 1 case Chunk(_, _) => 2 case Group(_, _) => 3
      case Fixed32(_, _) => 5
  }

  lemma BeginsWithTag(x: Field)
    ensures FieldBytes(x)[0] == Tag(x.num, WireType(x))[0]
  {
    hide V.Encode;
  }

  /** Every unknown field begins with one of them, */
  lemma OpensWith(x: Field)
    requires Unknown(x)
    ensures Opens(FieldBytes(x)[0])
  {
    hide Opens, FieldBytes, Tag;
    TagOpens(x.num, WireType(x));
    BeginsWithTag(x);
  }

  /** and with each of them some unknown field begins. */
  lemma OpeningBegins(c: byte)
    requires Opens(c)
    ensures Unknown(Opening(c)) && FieldBytes(Opening(c))[0] == c && |FieldBytes(Opening(c))| <= 16
  {
    var num := c / 8;
    assert c == 8 * num + c % 8 && 2 <= num < 32;
    TagOpens(num, c % 8);
    assert Opening(c).num == num && WireType(Opening(c)) == c % 8;
    OpeningShort(c);
    BeginsWithTag(Opening(c));
    hide FieldBytes, Tag;
    assert AllWellFormed(Nil);
    assert WellFormed(Opening(c));
  }

  lemma OpeningShort(c: byte)
    requires Opens(c)
    ensures |FieldBytes(Opening(c))| <= 16
  {
    var num := c / 8;
    EncodeShort(8 * num + c % 8);
    EncodeShort(8 * num + 4);
    EncodeShort(0);
    hide V.Encode;
  }

  lemma OpeningDistinct(i: nat, j: nat)
    requires i < j < 150
    ensures OpeningByte(i) != OpeningByte(j)
  {
  }

  /** Different elements of a finite set are at most as many as it has. */
  lemma {:induction false} DistinctIn(ks: seq<text>, all: set<text>)
    requires (forall i :: 0 <= i < |ks| ==> ks[i] in all) && (forall i, j :: 0 <= i < j < |ks| ==> ks[i] != ks[j])
    ensures |ks| <= |all|
  {
    if ks != [] {
      var n := |ks| - 1;
      DistinctIn(ks[..n], all - {ks[n]});
    }
  }

  /** So a message in front of which a key reaches beyond the boundary, and which takes every unknown
      field there, has at least 150 keys. */
  lemma OpenKeyNeedsKeys(a: seq<byte>, b: seq<byte>, m: Payload, j: nat)
    requires PayloadBoundary(a + b, |a|, m) && |a + b| + 16 < TWO63
    requires ParsePayload(b, NO_PAYLOAD).Ok? && ScanFrom(a, 0).Writes? && j < |ScanFrom(a, 0).ws|
    requires ScanFrom(a, 0).ws[j].OpenKey? && Harmless(a, b, m)
    ensures ParsePayload(a + b, m).Ok? && |ParsePayload(a + b, m).value.fields| >= 150
  {
    hide FieldBytes, ParsePayload, PayloadBoundary, ScanFrom, Unknown, Harmless, Opens, OpeningByte, Opening;
    var w := ScanFrom(a, 0).ws[j];
    OpeningKey(a, b, m, j, OpeningByte(0));
    var ks := seq(150, (i: nat) requires i < 150 => BecomesKey(a, b, w, OpeningByte(i)));
    forall i | 0 <= i < 150
      ensures ks[i] in ParsePayload(a + b, m).value.fields.Keys && |ks[i]| > |a| - w.start
        && ks[i][|a| - w.start] == OpeningByte(i)
    {
      OpeningKey(a, b, m, j, OpeningByte(i));
    }
    forall i, k | 0 <= i < k < 150 ensures ks[i] != ks[k] { OpeningDistinct(i, k); }
    DistinctIn(ks, ParsePayload(a + b, m).value.fields.Keys);
  }

  /** The key w becomes with a field that begins with c behind a. */
  function BecomesKey(a: seq<byte>, b: seq<byte>, w: Write, c: byte): text
    requires Opens(c)
  {
    var d := a + FieldBytes(Opening(c)) + b;
    if w.OpenKey? && w.start <= w.end <= |d| then d[w.start..w.end] else []
  }

  lemma OpeningKey(a: seq<byte>, b: seq<byte>, m: Payload, j: nat, c: byte)
    requires PayloadBoundary(a + b, |a|, m) && |a + b| + 16 < TWO63 && Opens(c)
    requires ParsePayload(b, NO_PAYLOAD).Ok? && ScanFrom(a, 0).Writes? && j < |ScanFrom(a, 0).ws|
    requires ScanFrom(a, 0).ws[j].OpenKey? && Harmless(a, b, m)
    ensures var w := ScanFrom(a, 0).ws[j]; var k := BecomesKey(a, b, w, c);
      && ParsePayload(a + b, m).Ok? && k in ParsePayload(a + b, m).value.fields
      && w.start <= |a| && |k| > |a| - w.start && k[|a| - w.start] == c
  {
    hide FieldBytes, ParsePayload, PayloadBoundary, ScanFrom, Unknown, Harmless, Opens, Opening;
    OpeningBegins(c);
    OpenKeyShows(a, Opening(c), b, m, j);
  }

  /** The decoded message has fewer keys than an open key takes. */
  predicate FewKeys(a: seq<byte>, b: seq<byte>, m: Payload) {
    ParsePayload(a + b, m).Ok? ==> |ParsePayload(a + b, m).value.fields| < 150
  }

  /** No key reaches beyond the boundary. */
  predicate KeysInside(a: seq<byte>) { ScanFrom(a, 0).Writes? ==> NoOpenKey(ScanFrom(a, 0).ws) }

  /** The exact condition, for every message of fewer than 150 keys and, whatever it has, for every
      boundary no key reaches beyond: nothing is cut off at the boundary, no key reaches beyond it,
      and every value that does is written again (or the rest is rejected anyway). */
  lemma PayloadIgnoresUnknownExactly(a: seq<byte>, b: seq<byte>, m: Payload)
    requires PayloadBoundary(a + b, |a|, m) && |a + b| + 16 < 0x2_0000_0000
    ensures FewKeys(a, b, m) || KeysInside(a) ==>
      (Harmless(a, b, m) <==> Undisturbed(a, b) && (ParsePayload(b, NO_PAYLOAD).Ok? ==> KeysInside(a)))
  {
    hide FieldBytes, ParsePayload, PayloadBoundary, ScanFrom, Harmless, Overwritten;
    if ParsePayload(b, NO_PAYLOAD).Ok? && ScanFrom(a, 0).Writes? && !NoOpenKey(ScanFrom(a, 0).ws) {
      var j :| 0 <= j < |ScanFrom(a, 0).ws| && ScanFrom(a, 0).ws[j].OpenKey?;
      if Harmless(a, b, m) { OpenKeyNeedsKeys(a, b, m, j); }
    } else if ParsePayload(b, NO_PAYLOAD).Ok? {
      WithoutOpenKeys(a, b, m);
    } else {
      assert Harmless(a, b, m) by { RejectedIsHarmless(a, b, m); }
    }
  }

  lemma RejectedIsHarmless(a: seq<byte>, b: seq<byte>, m: Payload)
    requires PayloadBoundary(a + b, |a|, m) && ParsePayload(b, NO_PAYLOAD).Err?
    ensures Harmless(a, b, m)
  {
    hide FieldBytes, ParsePayload, PayloadBoundary, Unknown;
    forall x: Field | Unknown(x) && |a + FieldBytes(x) + b| < TWO63
      ensures Agree(ParsePayload(a + FieldBytes(x) + b, m), ParsePayload(a + b, m))
    {
      RejectedRest(a, x, b, m);
    }
  }

  predicate HasByteKeys(m: Payload) { forall c: byte :: Opens(c) ==> [c] in m.fields && m.fields[[c]] == [] }

  /** And 150 are enough: onto a message that has a key of one byte for each of them, with an empty
      value, the entry 0a 01, whose key is the one byte behind it, changes nothing, and no field put
      in between is noticed. */
  lemma CoveredKey(b: seq<byte>, m: Payload)
    requires |b| > 0 && Opens(b[0]) && HasByteKeys(m)
    ensures var a := [0xa, 2, 0xa, 1];
      && PayloadBoundary(a + b, |a|, m) && Harmless(a, b, m)
      && ScanFrom(a, 0).Writes? && !NoOpenKey(ScanFrom(a, 0).ws)
  {
    hide *;
    CoveredScan();
    CoveredNoticed();
    CoveredIgnores(b, m);
    CoveredBoundary(b, m);
  }

  /** Only the bytes a string reaches matter. */
  lemma {:induction false} PutAllLocal(m: Payload, ws: seq<Write>, d: seq<byte>, d': seq<byte>, n: nat)
    requires AllFit(ws, n) && n <= |d| && n <= |d'| && d[..n] == d'[..n]
    ensures AllFit(ws, |d|) && AllFit(ws, |d'|) && PutAll(m, ws, d) == PutAll(m, ws, d')
    decreases |ws|
  {
    assert forall j :: 0 <= j < |ws| ==> Fits(ws[j], n);
    if ws != [] {
      var w := ws[0];
      if !w.Plain? {
        assert d[w.start..w.end] == d[..n][w.start..w.end] && d'[w.start..w.end] == d'[..n][w.start..w.end];
      }
      PutAllLocal(Put(m, w, d), ws[1..], d, d', n);
    }
  }

  /** The writes of a leave the same message in front of b and in front of the byte c. */
  ghost predicate SameFrom(a: seq<byte>, b: seq<byte>, m: Payload, ws: seq<Write>, again: map<text, text>, c: byte)
    requires AllFit(ws, |a + b|) && AllFit(ws, |a + [c]|)
  {
    PutAll(m, ws, a + [c]).fields + again == PutAll(m, ws, a + b).fields + again
  }

  /** Strings that reach one byte beyond the boundary, whatever keys the message has: an unknown field can
      be inserted if and only if the writes of a come to the same with each of the 150 bytes it can
      begin with. */
  lemma PayloadIgnoresUnknownByOpenings(a: seq<byte>, b: seq<byte>, m: Payload)
    requires PayloadBoundary(a + b, |a|, m) && |a + b| + 16 < 0x2_0000_0000 && ParsePayload(b, NO_PAYLOAD).Ok?
    requires ScanFrom(a, 0).Writes? && AllFit(ScanFrom(a, 0).ws, |a| + 1)
    ensures var ws, again := ScanFrom(a, 0).ws, ParsePayload(b, NO_PAYLOAD).value.fields;
      && AllFit(ws, |a + b|)
      && (Harmless(a, b, m) <==> forall c: byte :: Opens(c) ==> SameFrom(a, b, m, ws, again, c))
  {
    hide FieldBytes, ParsePayload, ScanFrom, PutAll, Unknown, Opens, Opening, AllFit, PayloadBoundary, Harmless;
    var ws, again := ScanFrom(a, 0).ws, ParsePayload(b, NO_PAYLOAD).value.fields;
    PayloadIgnoresUnknownByWrites(a, b, m);
    ScanFits(a, b, m);
    forall x: Field | Unknown(x) && |a + FieldBytes(x) + b| < TWO63
      ensures Opens(FieldBytes(x)[0]) && AllFit(ws, |a + FieldBytes(x) + b|)
      ensures PutAll(m, ws, a + FieldBytes(x) + b) == PutAll(m, ws, a + [FieldBytes(x)[0]])
    {
      OpensWith(x);
      var u := FieldBytes(x);
      assert (a + u + b)[..|a| + 1] == (a + [u[0]])[..|a| + 1];
      PutAllLocal(m, ws, a + u + b, a + [u[0]], |a| + 1);
    }
    forall c: byte | Opens(c)
      ensures Unknown(Opening(c)) && |a + FieldBytes(Opening(c)) + b| < TWO63 && FieldBytes(Opening(c))[0] == c
    {
      OpeningBegins(c);
    }
  }

  lemma ScanFits(a: seq<byte>, b: seq<byte>, m: Payload)
    requires PayloadBoundary(a + b, |a|, m) && ScanFrom(a, 0).Writes?
    ensures AllFit(ScanFrom(a, 0).ws, |a + b|)
  {
    hide ScanFrom, PayloadBoundary;
    var ws := ScanFrom(a, 0).ws;
    forall j | 0 <= j < |ws| ensures Fits(ws[j], |a + b|) { BoundaryFits(a, b, m, j); }
  }

  // ------------------------------------------------------------------------------------------
  // A message of just these keys.
  // ------------------------------------------------------------------------------------------

  /** The first k of these keys, with empty values, as a map and as the entries of a message. */
  function FirstKeys(k: nat): map<text, text>
    requires k <= 150
  {
    if k == 0 then map[] else FirstKeys(k - 1)[[OpeningByte(k - 1)] := []]
  }

  function KeyEntry(c: byte): seq<byte> { [0xa, 5, 0xa, 1, c, 0x12, 0] }

  function KeyEntries(k: nat): (r: seq<byte>)
    requires k <= 150
    ensures |r| == 7 * k
  {
    if k == 0 then [] else KeyEntries(k - 1) + KeyEntry(OpeningByte(k - 1))
  }

  const OPEN_ENTRY: seq<byte> := [0xa, 2, 0xa, 1]

  lemma {:induction false} FirstKeysHave(k: nat, i: nat)
    requires k <= 150 && i < 150
    ensures var key := [OpeningByte(i)]; key in FirstKeys(k) <==> i < k
    ensures var key := [OpeningByte(i)]; i < k ==> FirstKeys(k)[key] == []
  {
    if k > 0 {
      FirstKeysHave(k - 1, i);
      if i < k - 1 { OpeningDistinct(i, k - 1); } else if i > k - 1 { OpeningDistinct(k - 1, i); }
    }
  }

  lemma {:induction false} FirstKeysCount(k: nat)
    requires k <= 150
    ensures |FirstKeys(k)| == k
  {
    if k > 0 {
      FirstKeysCount(k - 1);
      FirstKeysHave(k - 1, k - 1);
      var f, key := FirstKeys(k - 1), [OpeningByte(k - 1)];
      assert f[key := []].Keys == f.Keys + {key};
    }
  }

  /** For every byte an unknown field can begin with there is a key. */
  lemma OpeningIndex(c: byte) returns (i: nat)
    requires Opens(c)
    ensures i < 150 && OpeningByte(i) == c
  {
    i := (c - 16) / 8 * 5 + if c % 8 == 5 then 4 else c % 8;
  }

  lemma AllKeysThere()
    ensures HasByteKeys(Payload(FirstKeys(150)))
  {
    hide FirstKeys, OpeningByte, Opens;
    forall c: byte | Opens(c) ensures [c] in FirstKeys(150) && FirstKeys(150)[[c]] == [] {
      var i := OpeningIndex(c);
      FirstKeysHave(150, i);
    }
  }

  /** Entry k of the message. */
  lemma {:induction false} EntryThere(n: nat, k: nat)
    requires k < n <= 150
    ensures KeyEntries(n)[7 * k..7 * k + 7] == KeyEntry(OpeningByte(k))
  {
    hide OpeningByte;
    var e := KeyEntries(n - 1);
    assert KeyEntries(n) == e + KeyEntry(OpeningByte(n - 1));
    if k < n - 1 {
      EntryThere(n - 1, k);
      assert KeyEntries(n)[7 * k..7 * k + 7] == e[7 * k..7 * k + 7];
    } else {
      assert (e + KeyEntry(OpeningByte(k)))[|e|..] == KeyEntry(OpeningByte(k));
    }
  }

  lemma KeyFirst(a: seq<byte>, i: nat, c: byte)
    requires i + 7 <= |a| < TWO32 && a[i..i + 7] == KeyEntry(c)
    ensures FirstField(a, i) == Set(Plain([c], []), i + 7)
  {
    hide V.Decode;
    var e := a[i..i + 7];
    assert a[i] == e[0] && a[i + 1] == e[1] && a[i + 2] == e[2] && a[i + 3] == e[3] && a[i + 4] == e[4];
    assert a[i + 5] == e[5] && a[i + 6] == e[6];
    ShortTag(a, i, 0xa);
    ShortTag(a, i + 1, 5);
    ShortTag(a, i + 2, 0xa);
    ShortTag(a, i + 3, 1);
    ShortTag(a, i + 5, 0x12);
    ShortTag(a, i + 6, 0);
    var p := Pair([c], []);
    assert ReadEntry(a, i + 7, i + 7, p) == Inside(p);
    assert a[i + 4..i + 5] == [c] && a[i + 7..i + 7] == [];
    assert ReadEntry(a, i + 5, i + 7, p) == Inside(p);
    assert ReadEntry(a, i + 2, i + 7, Pair([], [])) == Inside(p);
  }

  lemma OpenFirst(a: seq<byte>, i: nat)
    requires i + 4 == |a| < TWO32 && a[i..] == OPEN_ENTRY
    ensures FirstField(a, i) == Set(OpenKey(i + 4, i + 5, []), i + 4)
  {
    hide V.Decode;
    var e := a[i..];
    assert a[i] == e[0] && a[i + 1] == e[1] && a[i + 2] == e[2] && a[i + 3] == e[3];
    ShortTag(a, i, 0xa);
    ShortTag(a, i + 1, 2);
    ShortTag(a, i + 2, 0xa);
    ShortTag(a, i + 3, 1);
    assert ReadEntry(a, i + 2, i + 4, Pair([], [])) == Past(Pair([], []), true, i + 4, i + 5);
  }

  /** The message: 150 entries, and one whose key is the byte behind it. */
  function Front(): (a: seq<byte>)
    ensures |a| == 1054 && a[1050..] == OPEN_ENTRY
  {
    KeyEntries(150) + OPEN_ENTRY
  }

  lemma FrontEntry(k: nat)
    requires k < 150
    ensures FirstField(Front(), 7 * k) == Set(Plain([OpeningByte(k)], []), 7 * k + 7)
  {
    hide KeyEntries, OpeningByte, FirstField;
    EntryThere(150, k);
    assert Front()[7 * k..7 * k + 7] == KeyEntries(150)[7 * k..7 * k + 7];
    KeyFirst(Front(), 7 * k, OpeningByte(k));
  }

  lemma FrontOpen()
    ensures FirstField(Front(), 1050) == Set(OpenKey(1054, 1055, []), 1054)
  {
    hide KeyEntries, FirstField;
    OpenFirst(Front(), 1050);
  }

  /** The scan of it ends with an open key. */
  lemma {:induction false} FrontScan(k: nat)
    requires k <= 150
    ensures var r := ScanFrom(Front(), 7 * k); r.Writes? && r.ws != [] && r.ws[|r.ws| - 1] == OpenKey(1054, 1055, [])
    decreases 150 - k
  {
    hide FirstField, Front, OpeningByte;
    FrontLength();
    if k == 150 {
      FrontOpen();
      assert ScanFrom(Front(), 1054) == Writes([]);
    } else {
      FrontEntry(k);
      FrontScan(k + 1);
    }
  }

  lemma FrontLength()
    ensures |Front()| == 1054
  {
  }

  /** Decoding it from entry k on, whatever follows, if that begins like an unknown field. */
  lemma {:induction false} FrontParse(b: seq<byte>, k: nat)
    requires k <= 150 && |b| > 0 && Opens(b[0]) && Proper(PayloadField)
    ensures var d, m := Front() + b, Payload(FirstKeys(k));
      && Parse(PayloadField, d, 7 * k, m) == Parse(PayloadField, d, 1054, Payload(FirstKeys(150)))
      && ComesBy(PayloadField, d, 7 * k, 1054, m)
    decreases 150 - k
  {
    hide Proper, FirstField, Step, FirstKeys, OpeningByte, Front, Opens;
    FrontLength();
    var d, m := Front() + b, Payload(FirstKeys(k));
    FirstStep(Front(), b, 7 * k, m);
    if k == 150 {
      FrontOpen();
      OpenAgain(b);
      assert Step(PayloadField, d, 1050, m) == Ok(At(m, 1054));
    } else {
      FrontEntry(k);
      KeysGrow(k);
      assert Step(PayloadField, d, 7 * k, m) == Ok(At(Payload(FirstKeys(k + 1)), 7 * k + 7));
      FrontParse(b, k + 1);
    }
  }

  lemma KeysGrow(k: nat)
    requires k < 150
    ensures FirstKeys(k + 1) == FirstKeys(k)[[OpeningByte(k)] := []]
  {
  }

  /** The open key is there already. */
  lemma OpenAgain(b: seq<byte>)
    requires |b| > 0 && Opens(b[0])
    ensures (Front() + b)[1054..1055] == [b[0]] && FirstKeys(150)[[b[0]] := []] == FirstKeys(150)
  {
    hide FirstKeys, Opens;
    AllKeysThere();
    assert FirstKeys(150)[[b[0]] := []] == FirstKeys(150);
  }

  /** So the bound of 150 is sharp: this message has just 150 keys, one of them reaches beyond the
      boundary behind it, and no unknown field put in there is noticed. */
  lemma FewKeysIsSharp(c: byte)
    requires Opens(c)
    ensures var a, b := Front(), FieldBytes(Opening(c));
      && PayloadBoundary(a + b, |a|, NO_PAYLOAD) && Harmless(a, b, NO_PAYLOAD)
      && ParsePayload(b, NO_PAYLOAD).Ok? && !KeysInside(a)
      && ParsePayload(a + b, NO_PAYLOAD).Ok? && |ParsePayload(a + b, NO_PAYLOAD).value.fields| == 150
  {
    hide FieldBytes, ParsePayload, PayloadBoundary, Harmless, Opens, Opening, Front, ScanFrom;
    FrontLength();
    OpeningBegins(c);
    FrontBoundary(Opening(c));
    FrontIgnores(FieldBytes(Opening(c)));
    FrontScan(0);
    FirstKeysCount(150);
  }

  lemma UnknownAlone(x: Field, m: Payload)
    requires Unknown(x) && |FieldBytes(x)| < TWO63 && Proper(PayloadField)
    ensures ParsePayload(FieldBytes(x), m) == Ok(m)
  {
    ForeignAlone(PayloadField, x, m);
    hide Proper, FieldBytes, Parse;
  }

  lemma FrontBoundary(x: Field)
    requires Unknown(x) && |FieldBytes(x)| <= 16
    ensures var a, b := Front(), FieldBytes(x);
      && PayloadBoundary(a + b, 1054, NO_PAYLOAD) && ParsePayload(b, NO_PAYLOAD).Ok?
      && ParsePayload(a + b, NO_PAYLOAD) == Ok(Payload(FirstKeys(150)))
  {
    hide Proper, Nearby, Shifts, FieldBytes, Parse, ComesBy, Opens, FirstKeys, Front, Unknown;
    PayloadSound();
    OpensWith(x);
    NoKeysYet();
    FrontLength();
    UnknownAlone(x, NO_PAYLOAD);
    UnknownAlone(x, Payload(FirstKeys(150)));
    FrontParse(FieldBytes(x), 0);
    Behind(Front(), x, FieldBytes(x), Payload(FirstKeys(150)));
  }

  lemma NoKeysYet()
    ensures Payload(FirstKeys(0)) == NO_PAYLOAD
  {
  }

  lemma FrontIgnores(b: seq<byte>)
    requires |b| > 0 && Opens(b[0])
    ensures Harmless(Front(), b, NO_PAYLOAD)
  {
    PayloadSound();
    NoKeysYet();
    hide Proper, Nearby, Shifts, FieldBytes, Parse, ComesBy, FirstKeys, Front, Agree, Unknown, Opens;
    FrontLength();
    FrontParse(b, 0);
    var a := Front();
    forall x: Field | Unknown(x) && |a + FieldBytes(x) + b| < TWO63
      ensures Agree(ParsePayload(a + FieldBytes(x) + b, NO_PAYLOAD), ParsePayload(a + b, NO_PAYLOAD))
    {
      OpensWith(x);
      FrontParse(FieldBytes(x) + b, 0);
      Stepped(a, x, b, NO_PAYLOAD, Payload(FirstKeys(150)));
    }
  }

  lemma CoveredNoticed()
    ensures !NoOpenKey([OpenKey(4, 5, [])])
  {
    assert [OpenKey(4, 5, [])][0].OpenKey?;
  }

  lemma CoveredBoundary(b: seq<byte>, m: Payload)
    requires |b| > 0 && Opens(b[0]) && HasByteKeys(m)
    ensures var a := [0xa, 2, 0xa, 1]; PayloadBoundary(a + b, |a|, m)
  {
    PayloadSound();
    hide Proper, Nearby, Shifts, Parse, ComesBy, HasByteKeys, Opens;
    CoveredParse(b, m);
  }

  lemma CoveredIgnores(b: seq<byte>, m: Payload)
    requires |b| > 0 && Opens(b[0]) && HasByteKeys(m)
    ensures var a := [0xa, 2, 0xa, 1]; Harmless(a, b, m)
  {
    var a: seq<byte> := [0xa, 2, 0xa, 1];
    PayloadSound();
    hide Proper, Nearby, Shifts, FieldBytes, Parse, ComesBy, HasByteKeys, ParsePayload, Agree, Unknown, Opens;
    CoveredParse(b, m);
    forall x: Field | Unknown(x) && |a + FieldBytes(x) + b| < TWO63
      ensures Agree(ParsePayload(a + FieldBytes(x) + b, m), ParsePayload(a + b, m))
    {
      OpensWith(x);
      CoveredParse(FieldBytes(x) + b, m);
      Stepped(a, x, b, m, m);
    }
  }

  lemma Stepped(a: seq<byte>, x: Field, b: seq<byte>, m: Payload, m': Payload)
    requires Unknown(x) && |a + FieldBytes(x) + b| < TWO63 && Proper(PayloadField)
    requires ParsePayload(a + b, m) == Parse(PayloadField, a + b, |a|, m')
    requires ParsePayload(a + (FieldBytes(x) + b), m) == Parse(PayloadField, a + (FieldBytes(x) + b), |a|, m')
    ensures Agree(ParsePayload(a + FieldBytes(x) + b, m), ParsePayload(a + b, m))
  {
    hide Proper, FieldBytes, Parse;
    assert a + (FieldBytes(x) + b) == a + FieldBytes(x) + b;
    Behind(a, x, b, m');
  }

  lemma CoveredParse(b: seq<byte>, m: Payload)
    requires |b| > 0 && Opens(b[0]) && HasByteKeys(m) && Proper(PayloadField)
    ensures var a := [0xa, 2, 0xa, 1];
      && ParsePayload(a + b, m) == Parse(PayloadField, a + b, |a|, m) && ComesBy(PayloadField, a + b, 0, |a|, m)
  {
    hide Proper, Step, Opens;
    CoveredStep(b, m);
  }

  lemma CoveredScan()
    ensures ScanFrom([0xa, 2, 0xa, 1], 0) == Writes([OpenKey(4, 5, [])])
  {
    hide FirstField;
    CoveredFirst();
    assert ScanFrom([0xa, 2, 0xa, 1], 4) == Writes([]);
  }

  lemma CoveredStep(b: seq<byte>, m: Payload)
    requires |b| > 0 && Opens(b[0]) && HasByteKeys(m)
    ensures var a := [0xa, 2, 0xa, 1]; Step(PayloadField, a + b, 0, m) == Ok(At(m, 4))
  {
    var a: seq<byte> := [0xa, 2, 0xa, 1];
    hide FirstField, Step;
    CoveredFirst();
    FirstStep(a, b, 0, m);
    assert (a + b)[4..5] == [b[0]];
    assert m.fields[[b[0]] := []] == m.fields;
  }

  lemma CoveredFirst()
    ensures FirstField([0xa, 2, 0xa, 1], 0) == Set(OpenKey(4, 5, []), 4)
  {
    hide FirstField;
    assert OPEN_ENTRY[0..] == OPEN_ENTRY;
    OpenFirst(OPEN_ENTRY, 0);
  }
}
