/** The flat buffer of one file-notify node (driver/LKM/src/filter.c): one segment per volume uuid,
    each a tag, its size, the uuid and a list of 4-aligned (mask, NUL-terminated name) entries. */
module MaskLayout {
  import opened Bytes

  const SOMASK: nat := 24
  const SONAME: nat := 28
  const TAG: seq<byte> := [0x7c, 0x2d, 0x3e, 0x3a]

  datatype Entry = Entry(name: seq<byte>, mask: bv32)
  datatype Segment = Segment(uuid: seq<byte>, entries: seq<Entry>)

  /** The bits of a and b together, and those of a without b. */
  function Plus(a: bv32, b: bv32): bv32 { a | b }
  function Minus(a: bv32, b: bv32): bv32 { a & !b }

  /** The masks have a bit in common. */
  predicate Meets(a: bv32, b: bv32) { a & b != 0 }

  // ------------------------------------------------------------------------------------------
  // The bytes.
  // ------------------------------------------------------------------------------------------

  function MaskWord(m: bv32): (r: seq<byte>)
    ensures |r| == 4
  {
    Word(m as nat)
  }

  function MaskAt(d: seq<byte>, i: nat): bv32
    requires i + 4 <= |d|
  {
    GetU32(d, i) as bv32
  }

  lemma MaskReads(d: seq<byte>, i: nat, m: bv32)
    requires i + 4 <= |d| && d[i..i + 4] == MaskWord(m)
    ensures MaskAt(d, i) == m
  {
    WordReads(d, i, m as nat);
  }

  function Zeros(n: nat): seq<byte> { seq(n, _ => 0) }

  /** The length of an entry whose name has n bytes. */
  function EntryLen(n: nat): (r: nat)
    ensures r % 4 == 0 && n + 5 <= r <= n + 8
  {
    Align4(4 + n + 1)
  }

  function EntryBytes(e: Entry): (r: seq<byte>)
    ensures |r| == EntryLen(|e.name|)
  {
    MaskWord(e.mask) + e.name + Zeros(EntryLen(|e.name|) - 4 - |e.name|)
  }

  function EntriesBytes(es: seq<Entry>): seq<byte> {
    if es == [] then [] else EntryBytes(es[0]) + EntriesBytes(es[1..])
  }

  function SegmentLen(s: Segment): nat { SOMASK + |EntriesBytes(s.entries)| }

  function Header(len: nat, uuid: seq<byte>): seq<byte>
    requires len < TWO32
  {
    TAG + Word(len) + uuid
  }

  function SegmentBytes(s: Segment): seq<byte>
    requires SegmentLen(s) < TWO32
  {
    Header(SegmentLen(s), s.uuid) + EntriesBytes(s.entries)
  }

  function Flatten(segs: seq<Segment>): seq<byte>
    requires forall s :: s in segs ==> SegmentLen(s) < TWO32
  {
    if segs == [] then [] else SegmentBytes(segs[0]) + Flatten(segs[1..])
  }

  // ------------------------------------------------------------------------------------------
  // Well-formed stores.
  // ------------------------------------------------------------------------------------------

  ghost predicate GoodEntries(es: seq<Entry>) {
    && (forall i :: 0 <= i < |es| ==> 0 !in es[i].name)
    && (forall i, j :: 0 <= i < j < |es| ==> es[i].name != es[j].name)
  }

  ghost predicate GoodSegment(s: Segment) {
    |s.uuid| == 16 && s.entries != [] && SegmentLen(s) < TWO32 && GoodEntries(s.entries)
  }

  ghost predicate GoodStore(segs: seq<Segment>) {
    && (forall i :: 0 <= i < |segs| ==> GoodSegment(segs[i]))
    && (forall i, j :: 0 <= i < j < |segs| ==> segs[i].uuid != segs[j].uuid)
  }

  type Key = (seq<byte>, seq<byte>)

  ghost predicate Here(segs: seq<Segment>, i: int, j: int, u: seq<byte>, n: seq<byte>) {
    0 <= i < |segs| && 0 <= j < |segs[i].entries| && segs[i].uuid == u && segs[i].entries[j].name == n
  }

  /** The store holds exactly the masks of m. */
  ghost predicate Represents(segs: seq<Segment>, m: map<Key, bv32>) {
    && (forall i, j, u, n :: Here(segs, i, j, u, n) ==> (u, n) in m && m[(u, n)] == segs[i].entries[j].mask)
    && (forall u, n :: (u, n) in m ==> exists i, j :: Here(segs, i, j, u, n))
  }

  // ------------------------------------------------------------------------------------------
  // Splitting.
  // ------------------------------------------------------------------------------------------

  lemma {:induction false} EntriesJoin(xs: seq<Entry>, ys: seq<Entry>)
    ensures EntriesBytes(xs + ys) == EntriesBytes(xs) + EntriesBytes(ys)
    decreases |xs|
  {
    hide EntryBytes;
    if xs == [] {
      assert xs + ys == ys;
    } else {
      assert (xs + ys)[1..] == xs[1..] + ys;
      EntriesJoin(xs[1..], ys);
    }
  }

  ghost predicate Short(segs: seq<Segment>) { forall s :: s in segs ==> SegmentLen(s) < TWO32 }

  lemma {:induction false} FlattenJoin(xs: seq<Segment>, ys: seq<Segment>)
    requires Short(xs) && Short(ys)
    ensures Short(xs + ys) && Flatten(xs + ys) == Flatten(xs) + Flatten(ys)
    decreases |xs|
  {
    hide SegmentBytes, SegmentLen;
    if xs == [] {
      assert xs + ys == ys;
    } else {
      assert (xs + ys)[1..] == xs[1..] + ys;
      FlattenJoin(xs[1..], ys);
    }
  }

  lemma OneSegment(s: Segment)
    requires SegmentLen(s) < TWO32
    ensures Flatten([s]) == SegmentBytes(s)
  {
    hide SegmentBytes, SegmentLen;
    assert [s][1..] == [];
    assert Flatten([s]) == SegmentBytes(s) + Flatten([s][1..]);
  }

  lemma Cut<T>(xs: seq<T>, k: nat)
    requires k < |xs|
    ensures xs == xs[..k] + [xs[k]] + xs[k + 1..]
  {
  }

  lemma FlattenThree(xs: seq<Segment>, s: Segment, ys: seq<Segment>)
    requires Short(xs) && Short(ys) && SegmentLen(s) < TWO32
    ensures Short(xs + [s] + ys) && Flatten(xs + [s] + ys) == Flatten(xs) + SegmentBytes(s) + Flatten(ys)
  {
    hide SegmentBytes, SegmentLen, Flatten;
    OneSegment(s);
    FlattenJoin(xs, [s]);
    FlattenJoin(xs + [s], ys);
  }

  lemma ShortParts(segs: seq<Segment>, k: nat)
    requires Short(segs) && k < |segs|
    ensures Short(segs[..k]) && Short(segs[k + 1..]) && SegmentLen(segs[k]) < TWO32
  {
    hide SegmentLen;
  }

  /** The buffer around segment k. */
  lemma Around(segs: seq<Segment>, k: nat)
    requires Short(segs) && k < |segs|
    ensures Short(segs[..k]) && Short(segs[k + 1..])
    ensures Flatten(segs) == Flatten(segs[..k]) + SegmentBytes(segs[k]) + Flatten(segs[k + 1..])
  {
    hide SegmentBytes, SegmentLen, Flatten, Short;
    ShortParts(segs, k);
    Cut(segs, k);
    FlattenThree(segs[..k], segs[k], segs[k + 1..]);
  }

  lemma Replaced(segs: seq<Segment>, k: nat, s: Segment)
    requires Short(segs) && k < |segs| && SegmentLen(s) < TWO32
    ensures Short(segs[k := s]) && Short(segs[..k]) && Short(segs[k + 1..])
    ensures Flatten(segs[k := s]) == Flatten(segs[..k]) + SegmentBytes(s) + Flatten(segs[k + 1..])
  {
    hide SegmentBytes, SegmentLen, Flatten;
    var t := segs[k := s];
    assert t[..k] == segs[..k] && t[k + 1..] == segs[k + 1..];
    Around(t, k);
  }

  lemma OneEntry(e: Entry)
    ensures EntriesBytes([e]) == EntryBytes(e)
  {
    hide EntryBytes;
    assert [e][1..] == [];
    assert EntriesBytes([e]) == EntryBytes(e) + EntriesBytes([e][1..]);
  }

  lemma EntriesThree(xs: seq<Entry>, e: Entry, ys: seq<Entry>)
    ensures EntriesBytes(xs + [e] + ys) == EntriesBytes(xs) + EntryBytes(e) + EntriesBytes(ys)
  {
    hide EntryBytes, EntriesBytes;
    OneEntry(e);
    EntriesJoin(xs, [e]);
    EntriesJoin(xs + [e], ys);
  }

  /** The entries around entry q. */
  lemma AroundEntry(es: seq<Entry>, q: nat)
    requires q < |es|
    ensures EntriesBytes(es) == EntriesBytes(es[..q]) + EntryBytes(es[q]) + EntriesBytes(es[q + 1..])
  {
    hide EntryBytes, EntriesBytes;
    Cut(es, q);
    EntriesThree(es[..q], es[q], es[q + 1..]);
  }

  /** Where segment k starts. */
  function Offset(segs: seq<Segment>, k: nat): nat
    requires k <= |segs| && forall s :: s in segs ==> SegmentLen(s) < TWO32
  {
    |Flatten(segs[..k])|
  }

  /** Where entry q of segment k starts. */
  function Item(segs: seq<Segment>, k: nat, q: nat): nat
    requires k < |segs| && q <= |segs[k].entries| && forall s :: s in segs ==> SegmentLen(s) < TWO32
  {
    Offset(segs, k) + SOMASK + |EntriesBytes(segs[k].entries[..q])|
  }

  // ------------------------------------------------------------------------------------------
  // What each edit of the store is on the bytes.
  // ------------------------------------------------------------------------------------------

  lemma ResizeHeader(p: seq<byte>, len: nat, len': nat, uuid: seq<byte>, e: seq<byte>, c: seq<byte>)
    requires len < TWO32 && len' < TWO32
    ensures Splice(p + (Header(len, uuid) + e) + c, |p| + 4, Word(len')) == p + (Header(len', uuid) + e) + c
  {
    hide Word;
    var d := p + TAG + Word(len) + (uuid + e + c);
    assert p + (Header(len, uuid) + e) + c == d;
    assert p + (Header(len', uuid) + e) + c == p + TAG + Word(len') + (uuid + e + c);
    assert d[..|p| + 4] == p + TAG && d[|p| + 8..] == uuid + e + c;
  }

  /** Everything in front of entry q of segment k, if that segment is said to have length len ... */
  function Before(segs: seq<Segment>, k: nat, q: nat, len: nat): seq<byte>
    requires k < |segs| && q <= |segs[k].entries| && len < TWO32 && forall s :: s in segs ==> SegmentLen(s) < TWO32
  {
    Flatten(segs[..k]) + Header(len, segs[k].uuid) + EntriesBytes(segs[k].entries[..q])
  }

  /** ... and everything behind it. */
  function Behind(segs: seq<Segment>, k: nat, q: nat): seq<byte>
    requires k < |segs| && q < |segs[k].entries| && forall s :: s in segs ==> SegmentLen(s) < TWO32
  {
    EntriesBytes(segs[k].entries[q + 1..]) + Flatten(segs[k + 1..])
  }

  lemma Regroup(p: seq<byte>, h: seq<byte>, x: seq<byte>, b: seq<byte>, y: seq<byte>, c: seq<byte>)
    ensures p + (h + (x + b + y)) + c == (p + h + x) + b + (y + c)
  {
  }

  lemma HeaderLength(len: nat, uuid: seq<byte>)
    requires len < TWO32
    ensures |Header(len, uuid)| == 8 + |uuid|
  {
  }

  lemma AroundItem(segs: seq<Segment>, k: nat, q: nat)
    requires Short(segs) && k < |segs| && |segs[k].uuid| == 16 && q < |segs[k].entries|
    ensures Flatten(segs) ==
      Before(segs, k, q, SegmentLen(segs[k])) + EntryBytes(segs[k].entries[q]) + Behind(segs, k, q)
    ensures |Before(segs, k, q, SegmentLen(segs[k]))| == Item(segs, k, q)
  {
    hide Flatten, EntriesBytes, EntryBytes, SegmentLen, Header, SegmentBytes;
    var s := segs[k];
    AroundEntry(s.entries, q);
    Around(segs, k);
    SegmentSpelled(s, EntriesBytes(s.entries));
    HeaderLength(SegmentLen(s), s.uuid);
    var p, h, c := Flatten(segs[..k]), Header(SegmentLen(s), s.uuid), Flatten(segs[k + 1..]);
    var x, b, y := EntriesBytes(s.entries[..q]), EntryBytes(s.entries[q]), EntriesBytes(s.entries[q + 1..]);
    Regroup(p, h, x, b, y, c);
  }

  /** A new mask for an entry is written over the old one. */
  lemma SetMaskBytes(segs: seq<Segment>, k: nat, q: nat, v: bv32)
    requires Short(segs) && k < |segs| && |segs[k].uuid| == 16 && q < |segs[k].entries|
    ensures var s := segs[k]; var s' := s.(entries := s.entries[q := s.entries[q].(mask := v)]);
      && SegmentLen(s') == SegmentLen(s) && Short(segs[k := s'])
      && Item(segs, k, q) + 4 <= |Flatten(segs)|
      && Flatten(segs[k := s']) == Splice(Flatten(segs), Item(segs, k, q), MaskWord(v))
  {
    hide Flatten, MaskWord, Zeros, Word, EntriesBytes, EntryBytes, SegmentLen, Header;
    var s := segs[k];
    var e' := s.entries[q].(mask := v);
    var es' := s.entries[q := e'];
    var s' := s.(entries := es');
    SameLength(s, q, e');
    assert es'[..q] == s.entries[..q] && es'[q + 1..] == s.entries[q + 1..];
    assert segs[k := s'][..k] == segs[..k] && segs[k := s'][k + 1..] == segs[k + 1..];
    AroundItem(segs, k, q);
    AroundItem(segs[k := s'], k, q);
    EntryMask(s.entries[q], v);
    SpliceMid(Before(segs, k, q, SegmentLen(s)), EntryBytes(s.entries[q]), Behind(segs, k, q), MaskWord(v));
  }

  lemma SameLength(s: Segment, q: nat, e: Entry)
    requires q < |s.entries| && |e.name| == |s.entries[q].name|
    ensures SegmentLen(s.(entries := s.entries[q := e])) == SegmentLen(s)
  {
    hide EntriesBytes;
    var es' := s.entries[q := e];
    AroundEntry(s.entries, q);
    AroundEntry(es', q);
    assert es'[..q] == s.entries[..q] && es'[q + 1..] == s.entries[q + 1..];
  }

  lemma EntryMask(e: Entry, v: bv32)
    ensures EntryBytes(e.(mask := v)) == Splice(EntryBytes(e), 0, MaskWord(v))
  {
    hide MaskWord, Zeros;
  }

  lemma SpliceMid(a: seq<byte>, b: seq<byte>, c: seq<byte>, w: seq<byte>)
    requires |w| <= |b|
    ensures Splice(a + b + c, |a|, w) == a + Splice(b, 0, w) + c
  {
  }

  /** A new entry goes in front of the others, and the segment grows. */
  lemma AddEntryBytes(segs: seq<Segment>, k: nat, e: Entry)
    requires Short(segs) && k < |segs| && |segs[k].uuid| == 16 && SegmentLen(segs[k]) + EntryLen(|e.name|) < TWO32
    ensures var s := segs[k]; var s' := s.(entries := [e] + s.entries); var d := Flatten(segs);
      var t := Offset(segs, k);
      && SegmentLen(s') == SegmentLen(s) + EntryLen(|e.name|) && Short(segs[k := s'])
      && t + SOMASK <= |d|
      && Flatten(segs[k := s']) ==
         Splice(d[..t + SOMASK] + EntryBytes(e) + d[t + SOMASK..], t + 4, Word(SegmentLen(s')))
  {
    hide Flatten, Word;
    var s := segs[k];
    var s' := s.(entries := [e] + s.entries);
    OneEntry(e);
    EntriesJoin([e], s.entries);
    Around(segs, k);
    Replaced(segs, k, s');
    hide EntriesBytes, EntryBytes, SegmentLen;
    var d, p, h, c := Flatten(segs), Flatten(segs[..k]), Header(SegmentLen(s), s.uuid), Flatten(segs[k + 1..]);
    var b, x := EntriesBytes(s.entries), EntryBytes(e);
    assert d == (p + h) + (b + c);
    assert d[..|p| + SOMASK] == p + h && d[|p| + SOMASK..] == b + c;
    assert d[..|p| + SOMASK] + x + d[|p| + SOMASK..] == p + (h + (x + b)) + c;
    ResizeHeader(p, SegmentLen(s), SegmentLen(s'), s.uuid, x + b, c);
  }

  /** A new segment goes in at a segment boundary. */
  lemma AddSegmentBytes(segs: seq<Segment>, p: nat, s: Segment)
    requires Short(segs) && p <= |segs| && SegmentLen(s) < TWO32
    ensures var d := Flatten(segs); var o := Offset(segs, p); var segs' := segs[..p] + [s] + segs[p..];
      && Short(segs') && o <= |d| && Flatten(segs') == d[..o] + SegmentBytes(s) + d[o..]
  {
    hide Flatten, SegmentBytes, SegmentLen;
    assert segs == segs[..p] + segs[p..];
    FlattenJoin(segs[..p], segs[p..]);
    OneSegment(s);
    FlattenJoin(segs[..p], [s]);
    FlattenJoin(segs[..p] + [s], segs[p..]);
  }

  /** An entry is cut out, and the segment shrinks. */
  lemma DropEntryBytes(segs: seq<Segment>, k: nat, q: nat)
    requires Short(segs) && k < |segs| && |segs[k].uuid| == 16 && q < |segs[k].entries|
    ensures var s := segs[k]; var el := EntryLen(|s.entries[q].name|);
      var s' := s.(entries := s.entries[..q] + s.entries[q + 1..]);
      && SegmentLen(s') == SegmentLen(s) - el && Short(segs[k := s'])
      && Offset(segs, k) + 8 <= Item(segs, k, q) && Item(segs, k, q) + el <= |Flatten(segs)|
      && var d := Splice(Flatten(segs), Offset(segs, k) + 4, Word(SegmentLen(s')));
         Flatten(segs[k := s']) == d[..Item(segs, k, q)] + d[Item(segs, k, q) + el..]
  {
    hide Flatten, Word, EntriesBytes, EntryBytes, SegmentLen;
    var s := segs[k];
    var s' := s.(entries := s.entries[..q] + s.entries[q + 1..]);
    DropLength(s, q);
    AroundItem(segs, k, q);
    EntriesJoin(s.entries[..q], s.entries[q + 1..]);
    Replaced(segs, k, s');
    var p, c := Flatten(segs[..k]), Flatten(segs[k + 1..]);
    var x, b, y := EntriesBytes(s.entries[..q]), EntryBytes(s.entries[q]), EntriesBytes(s.entries[q + 1..]);
    DropMiddle(p, SegmentLen(s), SegmentLen(s'), s.uuid, x, b, y + c);
    SegmentSpelled(s', x + y);
    assert p + (Header(SegmentLen(s'), s.uuid) + (x + y)) + c == p + Header(SegmentLen(s'), s.uuid) + x + (y + c);
  }

  lemma SegmentSpelled(s: Segment, e: seq<byte>)
    requires SegmentLen(s) < TWO32 && EntriesBytes(s.entries) == e
    ensures SegmentBytes(s) == Header(SegmentLen(s), s.uuid) + e
  {
  }

  lemma DropLength(s: Segment, q: nat)
    requires q < |s.entries|
    ensures SegmentLen(s.(entries := s.entries[..q] + s.entries[q + 1..])) ==
      SegmentLen(s) - EntryLen(|s.entries[q].name|)
  {
    hide EntriesBytes;
    AroundEntry(s.entries, q);
    EntriesJoin(s.entries[..q], s.entries[q + 1..]);
  }

  lemma DropMiddle(p: seq<byte>, len: nat, len': nat, uuid: seq<byte>, x: seq<byte>, b: seq<byte>, z: seq<byte>)
    requires len < TWO32 && len' < TWO32 && |uuid| == 16
    ensures var i := |p| + SOMASK + |x|;
      var d := Splice(p + Header(len, uuid) + x + b + z, |p| + 4, Word(len'));
      d[..i] + d[i + |b|..] == p + Header(len', uuid) + x + z
  {
    hide Word;
    ResizeHeader(p, len, len', uuid, x + b, z);
    assert p + Header(len, uuid) + x + b + z == p + (Header(len, uuid) + (x + b)) + z;
    var d := p + (Header(len', uuid) + (x + b)) + z;
    assert d == (p + Header(len', uuid) + x) + (b + z);
  }

  /** A segment is cut out. */
  lemma DropSegmentBytes(segs: seq<Segment>, k: nat)
    requires Short(segs) && k < |segs| && |segs[k].uuid| == 16
    ensures var d := Flatten(segs); var t := Offset(segs, k); var len := SegmentLen(segs[k]);
      && Short(segs[..k] + segs[k + 1..]) && t + len <= |d|
      && Flatten(segs[..k] + segs[k + 1..]) == d[..t] + d[t + len..]
  {
    hide Flatten, EntriesBytes, Word;
    Around(segs, k);
    FlattenJoin(segs[..k], segs[k + 1..]);
  }
}
