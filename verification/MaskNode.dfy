/** struct file_notify_node: lookup, insert and remove on the flat buffer, edited in place. */
module MaskNode {
  import opened Bytes
  import opened MaskLayout
  import opened MaskMap
  import opened MaskShelf

  // ------------------------------------------------------------------------------------------
  // Reading the buffer.
  // ------------------------------------------------------------------------------------------

  lemma ReadsSegment(segs: seq<Segment>, k: nat)
    requires GoodStore(segs) && k < |segs| && Short(segs)
    ensures var d, t := Flatten(segs), Offset(segs, k);
      && t + SOMASK <= |d| && d[t..t + 4] == TAG && GetU32(d, t + 4) == SegmentLen(segs[k])
      && d[t + 8..t + SOMASK] == segs[k].uuid
      && t + SegmentLen(segs[k]) == Offset(segs, k + 1) <= |d| && SegmentLen(segs[k]) >= SOMASK + 8
      && (k + 1 == |segs| ==> Offset(segs, k + 1) == |d|)
  {
    hide Flatten, SegmentBytes, EntriesBytes, GoodSegment, SegmentLen, GetU32;
    GoodFacts(segs, k);
    var s := segs[k];
    Around(segs, k);
    NextOffset(segs, k);
    SegmentSpelled(s, EntriesBytes(s.entries));
    HeaderReads(Flatten(segs[..k]), SegmentLen(s), s.uuid, EntriesBytes(s.entries), Flatten(segs[k + 1..]));
  }

  lemma GoodFacts(segs: seq<Segment>, k: nat)
    requires GoodStore(segs) && k < |segs|
    ensures |segs[k].uuid| == 16 && SegmentLen(segs[k]) == SOMASK + |EntriesBytes(segs[k].entries)|
      && SOMASK + 8 <= SegmentLen(segs[k]) < TWO32
  {
    hide GoodEntries, EntriesBytes;
    assert GoodSegment(segs[k]);
    FirstEntry(segs[k].entries);
  }

  lemma NextOffset(segs: seq<Segment>, k: nat)
    requires GoodStore(segs) && k < |segs| && Short(segs)
    ensures Offset(segs, k) + SegmentLen(segs[k]) == Offset(segs, k + 1)
    ensures k + 1 == |segs| ==> Offset(segs, k + 1) == |Flatten(segs)|
  {
    hide Flatten, GoodSegment, SegmentLen, SegmentBytes;
    var s := segs[k];
    GoodFacts(segs, k);
    ShortParts(segs, k);
    OneSegment(s);
    FlattenJoin(segs[..k], [s]);
    assert segs[..k] + [s] == segs[..k + 1];
    SegmentSpelled(s, EntriesBytes(s.entries));
    HeaderLength(SegmentLen(s), s.uuid);
    if k + 1 == |segs| { assert segs[..k + 1] == segs; }
  }

  lemma FirstEntry(es: seq<Entry>)
    requires es != []
    ensures |EntriesBytes(es)| >= 8
  {
  }

  lemma HeaderReads(p: seq<byte>, len: nat, uuid: seq<byte>, e: seq<byte>, c: seq<byte>)
    requires len < TWO32 && |uuid| == 16
    ensures var d := p + (Header(len, uuid) + e) + c; var t := |p|;
      && t + SOMASK <= |d| && d[t..t + 4] == TAG && GetU32(d, t + 4) == len && d[t + 8..t + SOMASK] == uuid
      && |Header(len, uuid)| == SOMASK
  {
    hide Word, GetU32;
    var d, t := p + (Header(len, uuid) + e) + c, |p|;
    assert d[t + 4..t + 8] == Word(len);
    WordReads(d, t + 4, len);
  }

  lemma ReadsEntry(segs: seq<Segment>, k: nat, q: nat)
    requires GoodStore(segs) && k < |segs| && q < |segs[k].entries| && Short(segs)
    ensures var d, i, e := Flatten(segs), Item(segs, k, q), segs[k].entries[q]; var n := |e.name|;
      && i + EntryLen(n) == Item(segs, k, q + 1) <= |d| && MaskAt(d, i) == e.mask
      && d[i + 4..i + 4 + n] == e.name && d[i + 4 + n] == 0
      && (forall j :: i + 4 <= j < i + 4 + n ==> d[j] != 0)
  {
    hide Flatten, SegmentLen, Before, Behind, EntriesBytes, EntryBytes, GoodEntries;
    assert GoodSegment(segs[k]);
    var e, es := segs[k].entries[q], segs[k].entries;
    AroundItem(segs, k, q);
    NoZero(es, q);
    assert es[..q + 1] == es[..q] + [e];
    EntriesJoin(es[..q], [e]);
    OneEntry(e);
    EntryReads(Before(segs, k, q, SegmentLen(segs[k])), e, Behind(segs, k, q));
  }

  lemma NoZero(es: seq<Entry>, q: nat)
    requires GoodEntries(es) && q < |es|
    ensures 0 !in es[q].name
  {
  }

  lemma EntryReads(a: seq<byte>, e: Entry, c: seq<byte>)
    requires 0 !in e.name
    ensures var d, i, n := a + EntryBytes(e) + c, |a|, |e.name|;
      && MaskAt(d, i) == e.mask && d[i + 4..i + 4 + n] == e.name && d[i + 4 + n] == 0
      && (forall j :: i + 4 <= j < i + 4 + n ==> d[j] != 0)
  {
    hide MaskWord, MaskAt;
    var d, i, n := a + EntryBytes(e) + c, |a|, |e.name|;
    assert d[i..i + 4] == MaskWord(e.mask);
    MaskReads(d, i, e.mask);
    assert d[i + 4..i + 4 + n] == e.name;
    assert forall j :: i + 4 <= j < i + 4 + n ==> d[j] == e.name[j - i - 4];
  }

  /** The segment ends where its last entry does. */
  lemma EntriesEnd(segs: seq<Segment>, k: nat)
    requires Short(segs) && k < |segs|
    ensures Item(segs, k, |segs[k].entries|) == Offset(segs, k) + SegmentLen(segs[k])
  {
    hide Flatten, EntriesBytes;
    assert segs[k].entries[..|segs[k].entries|] == segs[k].entries;
  }

  /** strlen */
  method StrLen(d: seq<byte>, i: nat) returns (n: nat)
    requires exists k :: i <= k < |d| && d[k] == 0
    ensures i + n < |d| && d[i + n] == 0 && forall j :: i <= j < i + n ==> d[j] != 0
  {
    n := 0;
    while d[i + n] != 0
      invariant i + n < |d| && forall j :: i <= j < i + n ==> d[j] != 0
      invariant exists k :: i + n <= k < |d| && d[k] == 0
      decreases |d| - n
    {
      n := n + 1;
    }
  }

  /** memcmp */
  function Compare(a: seq<byte>, b: seq<byte>): int
    requires |a| == |b|
    decreases |a|
  {
    if a == [] then 0 else if a[0] != b[0] then a[0] - b[0] else Compare(a[1..], b[1..])
  }

  lemma {:induction false} CompareZero(a: seq<byte>, b: seq<byte>)
    requires |a| == |b|
    ensures Compare(a, b) == 0 <==> a == b
    decreases |a|
  {
    if a != [] {
      CompareZero(a[1..], b[1..]);
      assert a == [a[0]] + a[1..] && b == [b[0]] + b[1..];
    }
  }

  /** The order of uuids: the first byte that differs decides. */
  predicate LexLess(a: seq<byte>, b: seq<byte>)
    requires |a| == |b|
  {
    exists i :: 0 <= i < |a| && a[i] < b[i] && a[..i] == b[..i]
  }

  lemma {:induction false} CompareLess(a: seq<byte>, b: seq<byte>)
    requires |a| == |b|
    ensures Compare(a, b) < 0 <==> LexLess(a, b)
    ensures Compare(a, b) > 0 <==> LexLess(b, a)
    decreases |a|
  {
    if a != [] {
      CompareLess(a[1..], b[1..]);
      LexFirst(a, b);
      LexFirst(b, a);
    }
  }

  lemma LexFirst(a: seq<byte>, b: seq<byte>)
    requires |a| == |b| > 0
    ensures LexLess(a, b) <==> a[0] < b[0] || (a[0] == b[0] && LexLess(a[1..], b[1..]))
  {
    if LexLess(a, b) && a[0] >= b[0] {
      var i :| 0 <= i < |a| && a[i] < b[i] && a[..i] == b[..i];
      assert a[..i][0] == b[..i][0];
      assert a[1..][i - 1] < b[1..][i - 1] && a[1..][..i - 1] == a[..i][1..] && b[1..][..i - 1] == b[..i][1..];
    }
    if a[0] < b[0] { assert a[..0] == b[..0]; }
    if a[0] == b[0] && LexLess(a[1..], b[1..]) {
      var i :| 0 <= i < |a| - 1 && a[1..][i] < b[1..][i] && a[1..][..i] == b[1..][..i];
      assert a[..i + 1] == [a[0]] + a[1..][..i] && b[..i + 1] == [b[0]] + b[1..][..i];
      assert a[i + 1] < b[i + 1];
    }
  }

  lemma LexThrough(a: seq<byte>, b: seq<byte>, c: seq<byte>)
    requires |a| == |b| == |c| && LexLess(a, b) && LexLess(b, c)
    ensures LexLess(a, c)
  {
    var i :| 0 <= i < |a| && a[i] < b[i] && a[..i] == b[..i];
    var j :| 0 <= j < |a| && b[j] < c[j] && b[..j] == c[..j];
    var k := if i < j then i else j;
    assert a[..k] == a[..i][..k] && b[..k] == b[..i][..k] && b[..k] == b[..j][..k] && c[..k] == c[..j][..k];
    if i < j { assert b[..j][i] == c[..j][i]; }
    if j < i { assert a[..i][j] == b[..i][j]; }
  }

  /** What the search for a uuid reports: the segment, or the last one looked at and how it compared. */
  datatype Found = Found(hit: bool, any: bool, tag: nat, len: nat, ret: int)

  /** The uuid is greater than that of the segment exactly if ret is, and less exactly if ret is. */
  predicate Compared(ret: int, uuid: seq<byte>, s: Segment)
    requires |uuid| == 16
  {
    |s.uuid| == 16 && (ret > 0 <==> LexLess(s.uuid, uuid)) && (ret < 0 <==> LexLess(uuid, s.uuid))
  }

  /** The first loop of _mask_lookup.  mask_strstr always matches at its first comparison, and the
      sanity check in front never fails. */
  method FindSegment(d: seq<byte>, uuid: seq<byte>, ghost segs: seq<Segment>)
    returns (f: Found, bad: bool, ghost k: nat)
    requires GoodStore(segs) && Short(segs) && d == Flatten(segs) && |uuid| == 16
    ensures !bad
    ensures f.hit ==>
      k < |segs| && segs[k].uuid == uuid && f.any && f.tag == Offset(segs, k) && f.len == SegmentLen(segs[k])
        && f.ret == 0
    ensures !f.hit ==> (forall q :: 0 <= q < |segs| ==> segs[q].uuid != uuid) && f.ret != 0 && (f.any <==> segs != [])
    ensures !f.hit && f.any ==> f.tag == Offset(segs, |segs| - 1)
    ensures !f.hit && f.any ==>
      Compared(f.ret, uuid, segs[|segs| - 1])
  {
    hide LexLess, GoodStore, Offset, Flatten, SegmentLen, GetU32, Compare;
    k, bad := 0, false;
    f := Found(false, false, 0, 0, -1);
    EmptyStore(segs);
    if |d| <= SONAME {
      if segs != [] { ReadsSegment(segs, 0); }
      return;
    }
    ReadsSegment(segs, 0);
    if d[..4] != TAG || GetU32(d, 4) == 0 || GetU32(d, 4) > |d| { bad := true; return; }
    var s := 0;
    while s < |d|
      invariant k <= |segs| && s == Offset(segs, k) <= |d| && (k == |segs| ==> s == |d|) && (k < |segs| ==> s < |d|)
      invariant !f.hit && (forall q :: 0 <= q < k ==> segs[q].uuid != uuid) && (f.any <==> k > 0) && f.ret != 0
      invariant k > 0 ==> f.tag == Offset(segs, k - 1)
      invariant k > 0 ==> Compared(f.ret, uuid, segs[k - 1])
      decreases |d| - s
    {
      ReadsSegment(segs, k);
      if k + 1 < |segs| { ReadsSegment(segs, k + 1); }
      var tag := s;
      var len := GetU32(d, tag + 4);
      s := s + len;
      var rc := Compare(uuid, d[tag + 8..tag + SOMASK]);
      CompareZero(uuid, segs[k].uuid);
      CompareLess(uuid, segs[k].uuid);
      if rc == 0 {
        f := Found(true, true, tag, len, 0);
        return;
      }
      f := Found(false, true, tag, len, if rc < 0 then -1 else 1);
      k := k + 1;
    }
  }

  lemma EmptyStore(segs: seq<Segment>)
    requires Short(segs)
    ensures Offset(segs, 0) == 0 && (segs == [] ==> |Flatten(segs)| == 0)
  {
    assert segs[..0] == [];
  }

  /** The entry answers a query for this name and, unless only the name counts, these mask bits. */
  predicate Answers(e: Entry, name: seq<byte>, mask: bv32, byName: bool) {
    e.name == name && (byName || Meets(e.mask, mask))
  }

  /** One entry of the list: the length of its name, and whether it answers. */
  method ReadEntry(d: seq<byte>, at: nat, name: seq<byte>, mask: bv32, byName: bool, ghost e: Entry)
    returns (n: nat, hit: bool)
    requires at + 4 + |e.name| < |d| && MaskAt(d, at) == e.mask
    requires d[at + 4..at + 4 + |e.name|] == e.name && d[at + 4 + |e.name|] == 0
    requires forall j :: at + 4 <= j < at + 4 + |e.name| ==> d[j] != 0
    ensures n == |e.name| && (hit <==> Answers(e, name, mask, byName))
  {
    hide MaskAt, Meets;
    n := StrLen(d, at + 4);
    assert n == |e.name|;
    hit := false;
    if !byName && !Meets(MaskAt(d, at), mask) { return; }
    hit := |name| == n && d[at + 4..at + 4 + n] == name;
  }

  /** The second loop of _mask_lookup: over the entries of the segment at `tag`. */
  method FindItem(d: seq<byte>, tag: nat, len: nat, name: seq<byte>, mask: bv32, byName: bool, ghost segs: seq<Segment>,
                  ghost k: nat)
    returns (hit: bool, item: nat, ghost q: nat)
    requires GoodStore(segs) && Short(segs) && d == Flatten(segs) && k < |segs| && tag == Offset(segs, k)
      && len == SegmentLen(segs[k])
    ensures hit ==> q < |segs[k].entries| && Answers(segs[k].entries[q], name, mask, byName) && item == Item(segs, k, q)
    ensures hit <==> exists j :: 0 <= j < |segs[k].entries| && Answers(segs[k].entries[j], name, mask, byName)
  {
    hide GoodEntries, Flatten, EntriesBytes, MaskAt, Item, SegmentLen, Offset, Answers;
    assert GoodSegment(segs[k]);
    ghost var es := segs[k].entries;
    FirstItem(segs, k);
    q, hit, item := 0, false, 0;
    var i := SOMASK;
    while true
      invariant q < |es| && tag + i == Item(segs, k, q)
      invariant forall j :: 0 <= j < q ==> !Answers(es[j], name, mask, byName)
      decreases |es| - q
    {
      ReadsEntry(segs, k, q);
      var n, yes := ReadEntry(d, tag + i, name, mask, byName, es[q]);
      if yes { return true, tag + i, q; }
      i := i + 4 + Align4(n + 1);
      q := q + 1;
      PastEntry(segs, k, q);
      if i >= len { return; }
    }
  }

  lemma FirstItem(segs: seq<Segment>, k: nat)
    requires Short(segs) && k < |segs|
    ensures Item(segs, k, 0) == Offset(segs, k) + SOMASK
  {
    hide Flatten;
    assert segs[k].entries[..0] == [];
  }

  /** There is another entry exactly if the segment has not ended. */
  lemma PastEntry(segs: seq<Segment>, k: nat, q: nat)
    requires GoodStore(segs) && Short(segs) && k < |segs| && q <= |segs[k].entries|
    ensures Item(segs, k, q) < Offset(segs, k) + SegmentLen(segs[k]) <==> q < |segs[k].entries|
  {
    hide Flatten, SegmentLen, EntriesBytes;
    EntriesEnd(segs, k);
    if q < |segs[k].entries| {
      var es := segs[k].entries;
      assert es == es[..q] + es[q..];
      EntriesJoin(es[..q], es[q..]);
      FirstEntry(es[q..]);
      SegmentLenIs(segs[k]);
    }
  }

  lemma SegmentLenIs(s: Segment)
    ensures SegmentLen(s) == SOMASK + |EntriesBytes(s.entries)|
  {
  }

  // ------------------------------------------------------------------------------------------
  // Editing the buffer in place.
  // ------------------------------------------------------------------------------------------

  /** memmove of the live bytes from `at` on, up by n. */
  method OpenGap(a: array<byte>, used: nat, at: nat, n: nat)
    requires at <= used && used + n <= a.Length
    modifies a
    ensures a[..at] == old(a[..at]) && a[at + n..used + n] == old(a[at..used])
  {
    forall k | at <= k < used { a[k + n] := a[k]; }
  }

  /** memmove of the live bytes behind at + n, down by n, and memset of what they leave. */
  method CloseGap(a: array<byte>, used: nat, at: nat, n: nat)
    requires at + n <= used <= a.Length
    modifies a
    ensures a[..used - n] == old(a[..used])[..at] + old(a[..used])[at + n..]
  {
    forall k | at + n <= k < used { a[k - n] := a[k]; }
    forall k | used - n <= k < used { a[k] := 0; }
  }

  /** A write inside the live bytes. */
  method CopyLive(a: array<byte>, used: nat, i: nat, w: seq<byte>)
    requires i + |w| <= used <= a.Length
    modifies a
    ensures a[..used] == Splice(old(a[..used]), i, w)
  {
    Copy(a, i, w);
  }

  method WriteEntry(a: array<byte>, at: nat, e: Entry)
    requires at + EntryLen(|e.name|) <= a.Length
    modifies a
    ensures a[..] == Splice(old(a[..]), at, EntryBytes(e))
  {
    hide MaskWord, Splice, EntryLen, Zeros;
    ghost var was := a[..];
    var pad := EntryLen(|e.name|) - 4 - |e.name|;
    Copy(a, at, MaskWord(e.mask));
    SpliceBack(was, at, MaskWord(e.mask), e.name);
    Copy(a, at + 4, e.name);
    ZerosLength(pad);
    SpliceBack(was, at, MaskWord(e.mask) + e.name, Zeros(pad));
    Copy(a, at + 4 + |e.name|, Zeros(pad));
  }

  lemma ZerosLength(n: nat)
    ensures |Zeros(n)| == n
  {
  }

  /** Once a gap is open, filling it. */
  lemma GapFilled(d: seq<byte>, b: seq<byte>, at: nat, x: seq<byte>)
    requires at <= |d| && |d| + |x| <= |b| && b[..at] == d[..at] && b[at + |x|..|d| + |x|] == d[at..]
    ensures Splice(b, at, x)[..|d| + |x|] == d[..at] + x + d[at..]
  {
    var c := Splice(b, at, x);
    assert c[..at] == b[..at] && c[at..at + |x|] == x && c[at + |x|..] == b[at + |x|..];
    assert c[at + |x|..|d| + |x|] == d[at..];
    assert c[..|d| + |x|] == c[..at] + c[at..at + |x|] + c[at + |x|..|d| + |x|];
  }

  /** memmove of count bytes from `from` up by n, in a buffer of `size` bytes, touches no other byte. */
  predicate MoveInside(size: nat, from: nat, n: nat, count: nat) {
    forall k :: from <= k < from + count ==> ByteInside(k, n, size)
  }

  predicate ByteInside(k: nat, n: nat, size: nat) { k < size && k + n < size }

  lemma MoveInsideExactly(size: nat, from: nat, n: nat, count: nat)
    requires count > 0
    ensures MoveInside(size, from, n, count) <==> from + n + count <= size
  {
    if MoveInside(size, from, n, count) { assert ByteInside(from + count - 1, n, size); }
  }

  /** The same memmove with its count taken from t instead of at: if that leaves the buffer, only the
      live bytes are moved here. */
  method OpenGapFrom(a: array<byte>, used: nat, t: nat, at: nat, n: nat) returns (inside: bool)
    requires t < at <= used && used + n <= a.Length
    modifies a
    ensures a[..at] == old(a[..at]) && a[at + n..used + n] == old(a[at..used])
    ensures inside <==> MoveInside(a.Length, at, n, used - t)
    ensures inside <==> at + n + (used - t) <= a.Length
  {
    hide MoveInside;
    MoveInsideExactly(a.Length, at, n, used - t);
    inside := at + n + (used - t) <= a.Length;
    var end := if inside then at + (used - t) else used;
    forall k | at <= k < end { a[k + n] := a[k]; }
  }

  /** The entry goes in at p, the segment size at t + 4 is rewritten.  The move counts its bytes from
      the tag at t and not from p: it takes SOMASK bytes more than there are live ones along, and
      stays inside the buffer exactly if there is room for those too. */
  method AddEntryAt(a: array<byte>, used: nat, t: nat, len: nat, e: Entry) returns (inside: bool)
    requires t + SOMASK <= used && used + EntryLen(|e.name|) <= a.Length && len < TWO32
    modifies a
    ensures var d, p := old(a[..used]), t + SOMASK;
      a[..used + EntryLen(|e.name|)] == Splice(d[..p] + EntryBytes(e) + d[p..], t + 4, Word(len))
    ensures inside <==> MoveInside(a.Length, t + SOMASK, EntryLen(|e.name|), used - t)
    ensures inside <==> used + SOMASK + EntryLen(|e.name|) <= a.Length
  {
    hide EntryLen, EntryBytes, Word, Splice, MoveInside;
    ghost var d := a[..used];
    var p, n := t + SOMASK, EntryLen(|e.name|);
    CopyLive(a, used, t + 4, Word(len));
    ghost var d' := a[..used];
    assert a[..used][..p] == a[..p] && a[..used][p..] == a[p..used];
    inside := OpenGapFrom(a, used, t, p, n);
    GapFilled(d', a[..], p, EntryBytes(e));
    WriteEntry(a, p, e);
    EarlyWord(d, p, t + 4, EntryBytes(e), Word(len));
  }

  /** Words written in front of the gap may be written before or after. */
  lemma EarlyWord(d: seq<byte>, p: nat, i: nat, x: seq<byte>, w: seq<byte>)
    requires i + |w| <= p <= |d|
    ensures var d' := Splice(d, i, w); d'[..p] + x + d'[p..] == Splice(d[..p] + x + d[p..], i, w)
  {
  }

  /** A segment with one entry goes in at a boundary. */
  method AddSegmentAt(a: array<byte>, used: nat, at: nat, uuid: seq<byte>, e: Entry)
    requires at <= used && |uuid| == 16 && used + SOMASK + EntryLen(|e.name|) <= a.Length < TWO32
    modifies a
    ensures SegmentLen(Segment(uuid, [e])) == SOMASK + EntryLen(|e.name|)
    ensures var d := old(a[..used]);
      a[..used + SOMASK + EntryLen(|e.name|)] == d[..at] + SegmentBytes(Segment(uuid, [e])) + d[at..]
  {
    hide EntryLen, EntryBytes, Word, SegmentBytes, SegmentLen, Splice, Header;
    ghost var d, s := a[..used], Segment(uuid, [e]);
    OneEntry(e);
    SegmentLenIs(s);
    var len := SOMASK + EntryLen(|e.name|);
    SegmentSpelled(s, EntryBytes(e));
    HeaderLength(len, uuid);
    if at < used { OpenGap(a, used, at, len); }
    ghost var b := a[..];
    GapFilled(d, b, at, SegmentBytes(s));
    Copy(a, at, TAG);
    SpliceBack(b, at, TAG, Word(len));
    Copy(a, at + 4, Word(len));
    SpliceBack(b, at, TAG + Word(len), uuid);
    Copy(a, at + 8, uuid);
    HeaderIs(len, uuid);
    SpliceBack(b, at, Header(len, uuid), EntryBytes(e));
    WriteEntry(a, at + SOMASK, e);
  }

  lemma HeaderIs(len: nat, uuid: seq<byte>)
    requires len < TWO32
    ensures Header(len, uuid) == TAG + Word(len) + uuid
  {
  }

  // ------------------------------------------------------------------------------------------
  // The node.
  // ------------------------------------------------------------------------------------------

  /** The live bytes d are the store segs, which holds the map m. */
  ghost predicate Holds(d: seq<byte>, segs: seq<Segment>, m: map<Key, bv32>) {
    GoodStore(segs) && Short(segs) && d == Flatten(segs) && Represents(segs, m)
  }

  /** The last segment has the least uuid. */
  ghost predicate LastIsLeast(segs: seq<Segment>) {
    && (forall k :: 0 <= k < |segs| ==> |segs[k].uuid| == 16)
    && forall k :: 0 <= k < |segs| - 1 ==> LexLess(segs[|segs| - 1].uuid, segs[k].uuid)
  }

  ghost predicate SameUuids(a: seq<Segment>, b: seq<Segment>) {
    |a| == |b| && forall k :: 0 <= k < |a| ==> a[k].uuid == b[k].uuid
  }

  lemma StillLeast(a: seq<Segment>, b: seq<Segment>)
    requires LastIsLeast(a) && SameUuids(a, b)
    ensures LastIsLeast(b)
  {
    hide LexLess;
    forall k | 0 <= k < |b| - 1 ensures LexLess(b[|b| - 1].uuid, b[k].uuid) {
      assert LexLess(a[|a| - 1].uuid, a[k].uuid) && a[k].uuid == b[k].uuid && a[|a| - 1].uuid == b[|a| - 1].uuid;
    }
  }

  /** A new segment goes in front of the last if its uuid is greater, and behind it if it is less. */
  lemma PlacedLeast(segs: seq<Segment>, s: Segment, p: nat)
    requires LastIsLeast(segs) && |s.uuid| == 16 && p <= |segs|
    requires if segs != [] && LexLess(segs[|segs| - 1].uuid, s.uuid) then p == |segs| - 1 else p == |segs|
    requires segs == [] || LexLess(segs[|segs| - 1].uuid, s.uuid) || LexLess(s.uuid, segs[|segs| - 1].uuid)
    ensures LastIsLeast(WithSegment(segs, p, s))
  {
    hide LexLess;
    var t, n := WithSegment(segs, p, s), |segs|;
    forall k | 0 <= k < n ensures LexLess(t[n].uuid, t[k].uuid) {
      if p == n && k < n - 1 { LexThrough(s.uuid, segs[n - 1].uuid, segs[k].uuid); }
    }
  }

  predicate HasUuid(segs: seq<Segment>, uuid: seq<byte>) { exists k :: 0 <= k < |segs| && segs[k].uuid == uuid }

  class Node {
    var data: array<byte>
    var used: nat
    ghost var segs: seq<Segment>
    ghost var contents: map<Key, bv32>

    ghost predicate Valid()
      reads this, data
    {
      used <= data.Length < MAX_SIZE && Holds(data[..used], segs, contents)
    }

    /** The node without its bytes. */
    ghost function View(): Shelf
      reads this
    {
      Shelf(contents, used, data.Length)
    }

    constructor ()
      ensures Valid() && fresh(data) && View() == NEW_SHELF && LastIsLeast(segs)
    {
      data := new byte[LIMIT](_ => 0);
      used, segs, contents := 0, [], map[];
    }

    /** _mask_lookup: whether the entry is there, and where. */
    method Lookup(uuid: seq<byte>, name: seq<byte>, mask: bv32, byName: bool)
      returns (hit: bool, f: Found, item: nat, ghost k: nat, ghost q: nat)
      requires Valid() && |uuid| == 16
      ensures f.hit ==>
        k < |segs| && segs[k].uuid == uuid && f.any && f.tag == Offset(segs, k) && f.len == SegmentLen(segs[k])
          && f.ret == 0
      ensures !f.hit ==> (forall j :: 0 <= j < |segs| ==> segs[j].uuid != uuid) && f.ret != 0 && (f.any <==> segs != [])
      ensures !f.hit && f.any ==> f.tag == Offset(segs, |segs| - 1) && Compared(f.ret, uuid, segs[|segs| - 1])
      ensures hit ==>
        f.hit && q < |segs[k].entries| && Answers(segs[k].entries[q], name, mask, byName) && item == Item(segs, k, q)
      ensures !hit && f.hit ==> forall j :: 0 <= j < |segs[k].entries| ==>
        !Answers(segs[k].entries[j], name, mask, byName)
    {
      hide GoodStore, Flatten, SegmentLen, Represents, Answers, LexLess;
      var bad;
      f, bad, k := FindSegment(data[..used], uuid, segs);
      hit, item, q := false, 0, 0;
      if f.hit { hit, item, q := FindItem(data[..used], f.tag, f.len, name, mask, byName, segs, k); }
    }

    /** mask_lookup: true exactly if the entry is stored with one of the queried bits. */
    method Check(uuid: seq<byte>, name: seq<byte>, mask: bv32) returns (r: bool)
      requires Valid() && |uuid| == 16
      ensures r <==> (uuid, name) in contents && Meets(contents[(uuid, name)], mask)
    {
      hide GoodStore, Flatten, SegmentLen, Represents, Meets, Answers, Short, Offset, Item;
      var f, item;
      ghost var k, q;
      r, f, item, k, q := Lookup(uuid, name, mask, false);
      LookupMeans(segs, contents, uuid, name, mask, r, f.hit, k, q);
    }

    /** The entry is there: its mask grows (or shrinks, but not to nothing). */
    method SetMask(item: nat, v: bv32, ghost k: nat, ghost q: nat)
      requires Valid() && k < |segs| && q < |segs[k].entries| && item == Item(segs, k, q)
      modifies this`segs, this`contents, data
      ensures Valid() && contents == old(contents[(segs[k].uuid, segs[k].entries[q].name) := v])
        && SameUuids(old(segs), segs)
    {
      hide Holds, Item, MaskWord;
      HoldsSet(data[..used], segs, contents, k, q, v);
      CopyLive(data, used, item, MaskWord(v));
      contents := contents[(segs[k].uuid, segs[k].entries[q].name) := v];
      segs := WithMask(segs, k, q, v);
    }

    method AddEntry(f: Found, e: Entry, ghost k: nat) returns (inside: bool)
      requires Valid() && k < |segs| && f.tag == Offset(segs, k) && f.len == SegmentLen(segs[k]) && 0 !in e.name
      requires forall j :: 0 <= j < |segs[k].entries| ==> segs[k].entries[j].name != e.name
      requires used + EntryLen(|e.name|) <= data.Length
      modifies this`used, this`segs, this`contents, data
      ensures Valid() && old((segs[k].uuid, e.name) !in contents)
        && contents == old(contents[(segs[k].uuid, e.name) := e.mask])
      ensures inside <==> used + SOMASK <= data.Length
      ensures used == old(used) + EntryLen(|e.name|) && SameUuids(old(segs), segs)
    {
      hide Holds, Offset, SegmentLen, EntryLen, EntryBytes, Word;
      HoldsEntry(data[..used], segs, contents, k, e);
      var n := EntryLen(|e.name|);
      inside := AddEntryAt(data, used, f.tag, f.len + n, e);
      contents := contents[(segs[k].uuid, e.name) := e.mask];
      used, segs := used + n, WithEntry(segs, k, e);
    }

    method AddSegment(at: nat, uuid: seq<byte>, e: Entry, ghost p: nat)
      requires Valid() && p <= |segs| && |uuid| == 16 && 0 !in e.name && (p < |segs| ==> at == Offset(segs, p))
        && (p == |segs| ==> at == used)
      requires forall k :: 0 <= k < |segs| ==> segs[k].uuid != uuid
      requires used + SOMASK + EntryLen(|e.name|) <= data.Length
      modifies this`used, this`segs, this`contents, data
      ensures Valid() && old((uuid, e.name) !in contents) && contents == old(contents)[(uuid, e.name) := e.mask]
      ensures used == old(used) + SOMASK + EntryLen(|e.name|) && segs == WithSegment(old(segs), p, Segment(uuid, [e]))
    {
      hide Holds, Offset, SegmentLen, EntryLen, SegmentBytes;
      SegmentOne(uuid, e);
      HoldsSegment(data[..used], segs, contents, p, uuid, e);
      AddSegmentAt(data, used, at, uuid, e);
      contents := contents[(uuid, e.name) := e.mask];
      used, segs := used + SOMASK + EntryLen(|e.name|), WithSegment(segs, p, Segment(uuid, [e]));
    }

    /** One round of _mask_insert: done, or there is no room. */
    method TryInsert(uuid: seq<byte>, name: seq<byte>, mask: bv32) returns (done: bool, inside: bool)
      requires Valid() && |uuid| == 16 && 0 !in name
      modifies this`used, this`segs, this`contents, data
      ensures Valid()
      ensures done ==> contents == old(contents)[(uuid, name) := Plus(Bits(old(contents), (uuid, name)), mask)]
      ensures !done ==> used == old(used) && segs == old(segs) && contents == old(contents)
      ensures done <==> old(used) + Needed(old(contents), (uuid, name)) <= data.Length
      ensures done ==> used == old(used) + Needed(old(contents), (uuid, name))
      ensures old(LastIsLeast(segs)) ==> LastIsLeast(segs)
      ensures done ==>
        (inside <==> (uuid, name) in old(contents) || !Known(old(contents), uuid) || used + SOMASK <= data.Length)
    {
      hide Holds, SegmentLen, Offset, Item, EntryLen, Plus, MaskAt, LastIsLeast, LexLess, SameUuids, WithSegment,
           Needed;
      PlusNothing(mask);
      var hit, f, item;
      ghost var k, q;
      ghost var was := segs;
      NeededIs(contents, uuid, name);
      hit, f, item, k, q := Lookup(uuid, name, mask, true);
      HoldsKey(data[..used], segs, contents, uuid, name, mask, hit, f.hit, k, q);
      HoldsUuid(data[..used], segs, contents, uuid);
      if hit {
        HoldsSet(data[..used], segs, contents, k, q, 0);
        SetMask(item, Plus(MaskAt(data[..used], item), mask), k, q);
        if LastIsLeast(was) { StillLeast(was, segs); }
        return true, true;
      }
      inside := true;
      if f.ret == 0 {
        if used + EntryLen(|name|) > data.Length { return false, true; }
        assert segs[k].uuid == uuid;
        inside := AddEntry(f, Entry(name, mask), k);
        if LastIsLeast(was) { StillLeast(was, segs); }
      } else {
        if used + SOMASK + EntryLen(|name|) > data.Length { return false, true; }
        var middle := f.any && f.ret > 0;
        AddSegment(if middle then f.tag else used, uuid, Entry(name, mask), if middle then |segs| - 1 else |segs|);
        if LastIsLeast(was) {
          PlacedLeast(was, Segment(uuid, [Entry(name, mask)]), if middle then |was| - 1 else |was|);
        }
      }
      return true, inside;
    }

    /** _mask_realloc: twice the size, if there is memory; the live bytes move over. */
    method Grow(alloc: nat -> bool) returns (ok: bool)
      requires Valid() && forall n :: n >= MAX_SIZE ==> !alloc(n)
      modifies this`data
      ensures Valid() && ok == alloc(NextSize(old(data.Length)))
      ensures ok ==> fresh(data) && data.Length == NextSize(old(data.Length))
      ensures !ok ==> data == old(data)
    {
      hide Holds;
      ghost var d := data[..used];
      var size := if data.Length != 0 then data.Length * 2 else LIMIT;
      ok := alloc(size);
      if !ok { return; }
      var buf := new byte[size](_ => 0);
      forall i | 0 <= i < used { buf[i] := data[i]; }
      assert buf[..used] == d;
      data := buf;
    }

    /** _mask_insert: the bits are added to those stored under the key, and nothing else changes.
        `alloc(n)` says whether an allocation of n bytes would succeed.  It fails exactly if one of the
        buffers it asks for before there is room cannot be had.  The bytes moved lie inside the buffer
        exactly if the name is not a new one of a known uuid or leaves SOMASK bytes free. */
    method Insert(uuid: seq<byte>, name: seq<byte>, mask: bv32, alloc: nat -> bool) returns (ok: bool, inside: bool)
      requires Valid() && |uuid| == 16 && 0 !in name && forall n :: n >= MAX_SIZE ==> !alloc(n)
      modifies this, data
      ensures Valid() && (data == old(data) || fresh(data))
      ensures ok <==> Takes(old(View()), (uuid, name), alloc)
      ensures View() == PutIn(old(View()), (uuid, name), mask, alloc)
      ensures old(LastIsLeast(segs)) ==> LastIsLeast(segs)
      ensures ok ==>
        (inside <==> (uuid, name) in old(contents) || !Known(old(contents), uuid) || used + SOMASK <= data.Length)
    {
      hide Holds, Plus, EntryLen, Needed, LastIsLeast;
      ghost var need := used + Needed(contents, (uuid, name));
      while true
        invariant Valid() && contents == old(contents) && segs == old(segs) && used == old(used)
          && (data == old(data) || fresh(data))
        invariant Grown(old(data.Length), need, alloc) == Grown(data.Length, need, alloc)
        decreases need - data.Length
      {
        var done;
        done, inside := TryInsert(uuid, name, mask);
        if done { return true, inside; }
        var grown := Grow(alloc);
        if !grown { return false, true; }
      }
    }

    /** _mask_remove: the bits are taken from those stored under the key; an entry left without bits
        goes, and a segment left without entries. */
    method Remove(uuid: seq<byte>, name: seq<byte>, mask: bv32) returns (ok: bool)
      requires Valid() && |uuid| == 16
      modifies this`used, this`segs, this`contents, data
      ensures Valid() && ok == ((uuid, name) in old(contents))
      ensures View() == TakenOut(old(View()), (uuid, name), mask)
      ensures used == 0 <==> contents == map[]
    {
      hide Holds, SegmentLen, Offset, Item, EntryLen, Minus, MaskAt, Answers;
      var hit, f, item;
      ghost var k, q;
      hit, f, item, k, q := Lookup(uuid, name, mask, true);
      HoldsKey(data[..used], segs, contents, uuid, name, mask, hit, f.hit, k, q);
      if !hit {
        HoldsNothing(data[..used], segs, contents);
        return false;
      }
      HoldsSet(data[..used], segs, contents, k, q, 0);
      HoldsAlone(data[..used], segs, contents, k, q);
      var v := Minus(MaskAt(data[..used], item), mask);
      if v != 0 {
        SetMask(item, v, k, q);
      } else {
        DropEntry(f, item, EntryLen(|name|), k, q);
      }
      HoldsNothing(data[..used], segs, contents);
      return true;
    }

    /** The last part of _mask_remove. */
    method DropEntry(f: Found, item: nat, len: nat, ghost k: nat, ghost q: nat)
      requires Valid() && k < |segs| && q < |segs[k].entries| && item == Item(segs, k, q)
      requires f.tag == Offset(segs, k) && f.len == SegmentLen(segs[k]) && len == EntryLen(|segs[k].entries[q].name|)
      modifies this`used, this`segs, this`contents, data
      ensures Valid() && contents == old(contents - {(segs[k].uuid, segs[k].entries[q].name)})
      ensures old(used) == used + len + old(if |segs[k].entries| == 1 then SOMASK else 0)
    {
      hide Holds, SegmentLen, Offset, Item, EntryLen;
      HoldsCounts(data[..used], segs, contents, k, q);
      if f.len - len == SOMASK { CutSegment(f, len, k); } else { CutEntry(f, item, len, k, q); }
    }

    method CutSegment(f: Found, len: nat, ghost k: nat)
      requires Valid() && k < |segs| && |segs[k].entries| == 1
      requires f.tag == Offset(segs, k) && f.len == SegmentLen(segs[k]) == len + SOMASK
        && (f.len == used ==> f.tag == 0)
      modifies this`used, this`segs, this`contents, data
      ensures Valid() && contents == old(contents - {(segs[k].uuid, segs[k].entries[0].name)})
      ensures old(used) == used + len + SOMASK
    {
      hide Holds, SegmentLen, Offset, Word;
      HoldsDropSegment(data[..used], segs, contents, k, Word(SOMASK));
      CopyLive(data, used, f.tag + 4, Word(SOMASK));
      var n := len + SOMASK;
      if used > n {
        CloseGap(data, used, f.tag, n);
        used := used - n;
      } else {
        ghost var d := data[..used];
        assert d[..0] + d[used..] == [];
        forall i | 0 <= i < data.Length { data[i] := 0; }
        used := 0;
      }
      contents := contents - {(segs[k].uuid, segs[k].entries[0].name)};
      segs := WithoutSegment(segs, k);
    }

    method CutEntry(f: Found, item: nat, len: nat, ghost k: nat, ghost q: nat)
      requires Valid() && k < |segs| && q < |segs[k].entries| && |segs[k].entries| > 1 && item == Item(segs, k, q)
      requires f.tag == Offset(segs, k) && f.len == SegmentLen(segs[k]) && len == EntryLen(|segs[k].entries[q].name|)
      modifies this`used, this`segs, this`contents, data
      ensures Valid() && contents == old(contents - {(segs[k].uuid, segs[k].entries[q].name)})
      ensures old(used) == used + len
    {
      hide Holds, SegmentLen, Offset, Item, EntryLen, Word;
      HoldsDropEntry(data[..used], segs, contents, k, q);
      CopyLive(data, used, f.tag + 4, Word(f.len - len));
      CloseGap(data, used, item, len);
      contents := contents - {(segs[k].uuid, segs[k].entries[q].name)};
      used, segs := used - len, WithoutEntry(segs, k, q);
    }
  }

  /** The move does not always stay inside: two names of one uuid on a fresh node, the second of which
      leaves less than SOMASK bytes free. */
  method MoveRunsOut(uuid: seq<byte>, mask: bv32, alloc: nat -> bool) returns (node: Node, ok: bool, inside: bool)
    requires |uuid| == 16 && forall n :: n >= MAX_SIZE ==> !alloc(n)
    ensures node.Valid() && ok && !inside && node.used == 500 && node.data.Length == LIMIT
  {
    hide Holds, Takes, PutIn, Known;
    var one, two: seq<byte> := seq(215, _ => 65), seq(251, _ => 65);
    TwoNames(uuid, one, two, mask, alloc);
    node := new Node();
    ok, inside := node.Insert(uuid, one, mask, alloc);
    ok, inside := node.Insert(uuid, two, mask, alloc);
  }

  lemma TwoNames(uuid: seq<byte>, one: seq<byte>, two: seq<byte>, mask: bv32, alloc: nat -> bool)
    requires |one| == 215 && |two| == 251
    ensures var s := PutIn(NEW_SHELF, (uuid, one), mask, alloc); var s' := PutIn(s, (uuid, two), mask, alloc);
      && Takes(s, (uuid, two), alloc) && (uuid, two) !in s.contents && Known(s.contents, uuid)
      && s'.used == 500 && s'.size == LIMIT
  {
    hide Plus;
    assert EntryLen(215) == 220 && EntryLen(251) == 256;
    hide EntryLen;
    var s := PutIn(NEW_SHELF, (uuid, one), mask, alloc);
    assert s.used == 244 && s.size == LIMIT && (uuid, one) in s.contents;
  }

  lemma NeededIs(m: map<Key, bv32>, uuid: seq<byte>, name: seq<byte>)
    ensures (uuid, name) in m ==> Needed(m, (uuid, name)) == 0
    ensures (uuid, name) !in m && Known(m, uuid) ==> Needed(m, (uuid, name)) == EntryLen(|name|)
    ensures (uuid, name) !in m && !Known(m, uuid) ==> Needed(m, (uuid, name)) == SOMASK + EntryLen(|name|)
  {
  }

  lemma PlusNothing(m: bv32)
    ensures Plus(0, m) == m
  {
  }

  lemma SegmentOne(uuid: seq<byte>, e: Entry)
    ensures SegmentLen(Segment(uuid, [e])) == SOMASK + EntryLen(|e.name|)
  {
    hide EntriesBytes;
    OneEntry(e);
  }

  lemma LookupMeans(segs: seq<Segment>, m: map<Key, bv32>, uuid: seq<byte>, name: seq<byte>, mask: bv32, hit: bool,
                    seg: bool, k: nat, q: nat)
    requires GoodStore(segs) && Represents(segs, m)
    requires seg ==> k < |segs| && segs[k].uuid == uuid
    requires !seg ==> forall j :: 0 <= j < |segs| ==> segs[j].uuid != uuid
    requires hit ==> seg && q < |segs[k].entries| && Answers(segs[k].entries[q], name, mask, false)
    requires !hit && seg ==> forall j :: 0 <= j < |segs[k].entries| ==> !Answers(segs[k].entries[j], name, mask, false)
    ensures hit <==> (uuid, name) in m && Meets(m[(uuid, name)], mask)
  {
    hide GoodSegment, Meets;
    if hit {
      assert Here(segs, k, q, uuid, name);
    } else if (uuid, name) in m {
      var i, j :| Here(segs, i, j, uuid, name);
      assert i == k;
      assert !Answers(segs[k].entries[j], name, mask, false);
    }
  }

  // ------------------------------------------------------------------------------------------
  // Bytes, segments and map change together.
  // ------------------------------------------------------------------------------------------

  lemma HoldsSet(d: seq<byte>, segs: seq<Segment>, m: map<Key, bv32>, k: nat, q: nat, v: bv32)
    requires Holds(d, segs, m) && k < |segs| && q < |segs[k].entries|
    ensures var i, key := Item(segs, k, q), (segs[k].uuid, segs[k].entries[q].name);
      && i + 4 <= |d| && MaskAt(d, i) == segs[k].entries[q].mask && key in m && m[key] == segs[k].entries[q].mask
      && Holds(Splice(d, i, MaskWord(v)), WithMask(segs, k, q, v), m[key := v])
  {
    hide GoodSegment, Flatten, SegmentLen, MaskWord, MaskAt, Item;
    assert GoodSegment(segs[k]);
    assert Here(segs, k, q, segs[k].uuid, segs[k].entries[q].name);
    UuidLength(segs, k);
    SetMaskBytes(segs, k, q, v);
    MaskSet(segs, m, k, q, v);
    ReadsEntry(segs, k, q);
  }

  lemma UuidLength(segs: seq<Segment>, k: nat)
    requires GoodStore(segs) && k < |segs|
    ensures |segs[k].uuid| == 16
  {
    assert GoodSegment(segs[k]);
  }

  lemma HoldsEntry(d: seq<byte>, segs: seq<Segment>, m: map<Key, bv32>, k: nat, e: Entry)
    requires Holds(d, segs, m) && k < |segs| && 0 !in e.name && |d| + EntryLen(|e.name|) < TWO32
    requires forall j :: 0 <= j < |segs[k].entries| ==> segs[k].entries[j].name != e.name
    ensures var t := Offset(segs, k); var p := t + SOMASK; var len := SegmentLen(segs[k]) + EntryLen(|e.name|);
      && p <= |d| && len < TWO32 && (segs[k].uuid, e.name) !in m
      && Holds(Splice(d[..p] + EntryBytes(e) + d[p..], t + 4, Word(len)), WithEntry(segs, k, e),
           m[(segs[k].uuid, e.name) := e.mask])
  {
    hide GoodSegment, Flatten, SegmentLen, EntryBytes, Word, GetU32, EntryLen;
    UuidLength(segs, k);
    ReadsSegment(segs, k);
    AddEntryBytes(segs, k, e);
    EntryAdded(segs, m, k, e);
  }

  lemma HoldsSegment(d: seq<byte>, segs: seq<Segment>, m: map<Key, bv32>, p: nat, uuid: seq<byte>, e: Entry)
    requires Holds(d, segs, m) && p <= |segs| && |uuid| == 16 && 0 !in e.name && SegmentLen(Segment(uuid, [e])) < TWO32
    requires forall k :: 0 <= k < |segs| ==> segs[k].uuid != uuid
    ensures var o := Offset(segs, p); var s := Segment(uuid, [e]);
      && o <= |d| && (p == |segs| ==> o == |d|) && (uuid, e.name) !in m
      && Holds(d[..o] + SegmentBytes(s) + d[o..], WithSegment(segs, p, s), m[(uuid, e.name) := e.mask])
  {
    hide GoodSegment, Flatten, SegmentLen, SegmentBytes;
    AddSegmentBytes(segs, p, Segment(uuid, [e]));
    SegmentAdded(segs, m, p, uuid, e);
    if p == |segs| { assert segs[..p] == segs; }
  }

  lemma HoldsKey(d: seq<byte>, segs: seq<Segment>, m: map<Key, bv32>, uuid: seq<byte>, name: seq<byte>, mask: bv32,
                 hit: bool, seg: bool, k: nat, q: nat)
    requires Holds(d, segs, m)
    requires seg ==> k < |segs| && segs[k].uuid == uuid
    requires !seg ==> forall j :: 0 <= j < |segs| ==> segs[j].uuid != uuid
    requires hit ==> seg && q < |segs[k].entries| && Answers(segs[k].entries[q], name, mask, true)
    requires !hit && seg ==> forall j :: 0 <= j < |segs[k].entries| ==> !Answers(segs[k].entries[j], name, mask, true)
    ensures hit <==> (uuid, name) in m
    ensures hit ==> segs[k].entries[q].name == name
  {
    hide GoodSegment, Flatten;
    if hit { assert Here(segs, k, q, uuid, name); }
    assert forall i, j :: Here(segs, i, j, uuid, name) && seg ==> i == k;
  }

  /** A uuid has a segment exactly if the map has a key with it. */
  lemma HoldsUuid(d: seq<byte>, segs: seq<Segment>, m: map<Key, bv32>, uuid: seq<byte>)
    requires Holds(d, segs, m)
    ensures HasUuid(segs, uuid) <==> Known(m, uuid)
  {
    hide Flatten;
    if HasUuid(segs, uuid) {
      var k :| 0 <= k < |segs| && segs[k].uuid == uuid;
      assert GoodSegment(segs[k]);
      assert Here(segs, k, 0, uuid, segs[k].entries[0].name);
    }
    if Known(m, uuid) {
      var name :| (uuid, name) in m;
      var i, j :| Here(segs, i, j, uuid, name);
    }
  }

  /** An entry is the only one of its segment exactly if the map has no other key with its uuid. */
  lemma HoldsAlone(d: seq<byte>, segs: seq<Segment>, m: map<Key, bv32>, k: nat, q: nat)
    requires Holds(d, segs, m) && k < |segs| && q < |segs[k].entries|
    ensures var uuid, name := segs[k].uuid, segs[k].entries[q].name;
      |segs[k].entries| == 1 <==> !Known(m - {(uuid, name)}, uuid)
  {
    hide Flatten;
    var uuid, name := segs[k].uuid, segs[k].entries[q].name;
    assert GoodSegment(segs[k]);
    if |segs[k].entries| > 1 {
      var p := if q == 0 then 1 else 0;
      assert Here(segs, k, p, uuid, segs[k].entries[p].name);
      assert (uuid, segs[k].entries[p].name) in m - {(uuid, name)};
    } else {
      assert forall i, j, n :: Here(segs, i, j, uuid, n) ==> i == k && n == name;
    }
  }

  /** The buffer is empty exactly if the map is. */
  lemma HoldsNothing(d: seq<byte>, segs: seq<Segment>, m: map<Key, bv32>)
    requires Holds(d, segs, m)
    ensures |d| == 0 <==> m == map[]
  {
    if segs == [] {
      assert forall i, j, u, n :: !Here(segs, i, j, u, n);
      NoKeys(m);
    } else {
      hide Flatten, GetU32, SegmentLen;
      ReadsSegment(segs, 0);
      assert GoodSegment(segs[0]);
      assert Here(segs, 0, 0, segs[0].uuid, segs[0].entries[0].name);
    }
  }

  lemma NoKeys(m: map<Key, bv32>)
    requires forall u, n :: (u, n) !in m
    ensures m == map[]
  {
    forall key: Key ensures key !in m { assert key == (key.0, key.1); }
  }

  /** What _mask_remove computes from the sizes. */
  lemma HoldsCounts(d: seq<byte>, segs: seq<Segment>, m: map<Key, bv32>, k: nat, q: nat)
    requires Holds(d, segs, m) && k < |segs| && q < |segs[k].entries|
    ensures var len, el, t := SegmentLen(segs[k]), EntryLen(|segs[k].entries[q].name|), Offset(segs, k);
      && SOMASK <= len - el && len < TWO32 && t + SOMASK <= |d| && t + len <= |d| && Item(segs, k, q) + el <= t + len
      && (len - el == SOMASK <==> |segs[k].entries| == 1)
      && (len == |d| ==> t == 0)
  {
    hide GoodSegment, Flatten, EntryLen, GetU32, EntriesBytes;
    var es := segs[k].entries;
    ReadsSegment(segs, k);
    LenBound(segs, k);
    EntriesEnd(segs, k);
    AroundEntry(es, q);
    if |es| > 1 {
      DropLength(segs[k], q);
      FirstEntry(es[..q] + es[q + 1..]);
    } else {
      assert es[..q] == [] && es[q + 1..] == [];
      NoEntries();
    }
  }

  lemma NoEntries()
    ensures EntriesBytes([]) == []
  {
  }

  lemma LenBound(segs: seq<Segment>, k: nat)
    requires GoodStore(segs) && k < |segs|
    ensures SegmentLen(segs[k]) < TWO32
  {
    assert GoodSegment(segs[k]);
  }

  lemma HoldsDropEntry(d: seq<byte>, segs: seq<Segment>, m: map<Key, bv32>, k: nat, q: nat)
    requires Holds(d, segs, m) && k < |segs| && q < |segs[k].entries| && |segs[k].entries| > 1
    ensures var el := EntryLen(|segs[k].entries[q].name|); var len := SegmentLen(segs[k]) - el;
      && 0 <= len < TWO32 && Offset(segs, k) + 8 <= |d| && Item(segs, k, q) + el <= |d|
      && var d' := Splice(d, Offset(segs, k) + 4, Word(len));
         Holds(d'[..Item(segs, k, q)] + d'[Item(segs, k, q) + el..], WithoutEntry(segs, k, q),
               m - {(segs[k].uuid, segs[k].entries[q].name)})
  {
    hide GoodSegment, Flatten, SegmentLen, Word, EntryLen, Item;
    UuidLength(segs, k);
    LenBound(segs, k);
    DropEntryBytes(segs, k, q);
    EntryDropped(segs, m, k, q);
  }

  /** The size word of a segment that is cut out does not matter any more. */
  lemma HoldsDropSegment(d: seq<byte>, segs: seq<Segment>, m: map<Key, bv32>, k: nat, w: seq<byte>)
    requires Holds(d, segs, m) && k < |segs| && |segs[k].entries| == 1 && |w| == 4
    ensures var t, len := Offset(segs, k), SegmentLen(segs[k]);
      && t + 8 <= t + len <= |d|
      && var d' := Splice(d, t + 4, w);
         Holds(d'[..t] + d'[t + len..], WithoutSegment(segs, k), m - {(segs[k].uuid, segs[k].entries[0].name)})
  {
    hide GoodSegment, Flatten, SegmentLen, GetU32;
    UuidLength(segs, k);
    ReadsSegment(segs, k);
    DropSegmentBytes(segs, k);
    SegmentDropped(segs, m, k);
    var t, len := Offset(segs, k), SegmentLen(segs[k]);
    var d' := Splice(d, t + 4, w);
    assert d'[..t] == d[..t] && d'[t + len..] == d[t + len..];
  }
}
