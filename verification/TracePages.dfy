/** Pages of trace events and the queue they hold: the rest of the reader page, then the ring pages
    from head to tail. */
module TracePages {
  import opened Bytes
  import opened TraceEvent

  /** struct buffer_page with its data page. */
  datatype Page = Page(data: seq<byte>, write: nat, read: nat, entries: nat, commit: nat, stamp: nat)

  /** The committed bytes of a page are whole events. */
  predicate Whole(p: Page) {
    |p.data| == PAGE && p.commit <= PAGE && p.stamp < TWO64 && Tiled(p.data, 0, p.commit)
  }

  function Contents(p: Page): seq<Event>
    requires Whole(p)
  {
    Decode(p.data, 0, p.commit, p.stamp)
  }

  /** A page the writer has left: everything written is committed and counted. */
  predicate Left(p: Page) {
    Whole(p) && p.write == p.commit && p.commit > 0 && p.entries == |Contents(p)|
  }

  /** The running stamp the reader starts from on its page: tb_get_reader_page takes the page stamp
      when nothing has been read yet. */
  function Base(p: Page, readStamp: nat): nat { if p.read == 0 then p.stamp else readStamp }

  predicate Readable(p: Page, readStamp: nat) {
    && |p.data| == PAGE && p.read <= p.commit <= PAGE && p.stamp < TWO64 && readStamp < TWO64
    && Tiled(p.data, p.read, p.commit)
  }

  function Rest(p: Page, readStamp: nat): seq<Event>
    requires Readable(p, readStamp)
  {
    Decode(p.data, p.read, p.commit, Base(p, readStamp))
  }

  predicate RingWhole(pages: seq<Page>, o: seq<nat>, k: nat) {
    k <= |o| && forall i :: 0 <= i < k ==> o[i] < |pages| && Whole(pages[o[i]])
  }

  /** The events on the first k pages of the ring, in order. */
  function RingEvents(pages: seq<Page>, o: seq<nat>, k: nat): seq<Event>
    requires RingWhole(pages, o, k)
  {
    if k == 0 then [] else RingEvents(pages, o, k - 1) + Contents(pages[o[k - 1]])
  }

  /** Only the pages in question matter. */
  lemma {:induction false} RingSame(pages: seq<Page>, o: seq<nat>, pages': seq<Page>, o': seq<nat>, k: nat)
    requires RingWhole(pages, o, k) && k <= |o'|
    requires forall i :: 0 <= i < k ==> o'[i] < |pages'| && pages'[o'[i]] == pages[o[i]]
    ensures RingWhole(pages', o', k) && RingEvents(pages', o', k) == RingEvents(pages, o, k)
  {
    if k > 0 { RingSame(pages, o, pages', o', k - 1); }
  }

  /** Taking the oldest page off the front. */
  lemma {:induction false} RingFront(pages: seq<Page>, o: seq<nat>, k: nat)
    requires RingWhole(pages, o, k) && k > 0
    ensures RingWhole(pages, o[1..], k - 1)
    ensures RingEvents(pages, o, k) == Contents(pages[o[0]]) + RingEvents(pages, o[1..], k - 1)
  {
    if k > 1 {
      RingFront(pages, o, k - 1);
      assert o[1..][k - 2] == o[k - 1];
    } else {
      assert RingEvents(pages, o, 0) == [];
    }
  }

  /** The events of each page from the head to the tail, one page after the other. */
  function PageList(pages: seq<Page>, o: seq<nat>, t: int): (r: seq<seq<Event>>)
    ensures |r| == if t < 0 then 0 else t + 1
  {
    seq(if t < 0 then 0 else t + 1, (i: nat) => if i < |o| && o[i] < |pages| && Whole(pages[o[i]])
      then Contents(pages[o[i]]) else [])
  }

  function Flat(list: seq<seq<Event>>): seq<Event> {
    if list == [] then [] else Flat(list[..|list| - 1]) + list[|list| - 1]
  }

  lemma {:induction false} FlatSplit(a: seq<seq<Event>>, b: seq<seq<Event>>)
    ensures Flat(a + b) == Flat(a) + Flat(b)
  {
    if b == [] {
      assert a + b == a;
    } else {
      var n := |b| - 1;
      FlatSplit(a, b[..n]);
      assert (a + b)[..|a| + n] == a + b[..n];
      assert Flat(a) + (Flat(b[..n]) + b[n]) == Flat(a) + Flat(b[..n]) + b[n];
    }
  }

  lemma {:induction false} PageListFlat(pages: seq<Page>, o: seq<nat>, t: int)
    requires t >= -1 && RingWhole(pages, o, t + 1)
    ensures Flat(PageList(pages, o, t)) == RingEvents(pages, o, t + 1)
    decreases t + 1
  {
    if t >= 0 {
      PageListFlat(pages, o, t - 1);
      assert PageList(pages, o, t)[..t] == PageList(pages, o, t - 1);
    }
  }

  // ------------------------------------------------------------------------------------------
  // Subsequences.
  // ------------------------------------------------------------------------------------------

  /** a keeps some of the elements of b, in order. */
  predicate Subseq<T(==)>(a: seq<T>, b: seq<T>) {
    if |a| == 0 then true
    else if |b| == 0 then false
    else (a[|a| - 1] == b[|b| - 1] && Subseq(a[..|a| - 1], b[..|b| - 1])) || Subseq(a, b[..|b| - 1])
  }

  lemma SubseqAppend<T>(a: seq<T>, b: seq<T>, x: T)
    requires Subseq(a, b)
    ensures Subseq(a + [x], b + [x])
  {
    assert (a + [x])[..|a|] == a && (b + [x])[..|b|] == b;
  }

  lemma {:induction false} SubseqShorter<T>(a: seq<T>, b: seq<T>)
    requires Subseq(a, b) && |a| > 0
    ensures Subseq(a[..|a| - 1], b)
    decreases |b|
  {
    if a[|a| - 1] == b[|b| - 1] && Subseq(a[..|a| - 1], b[..|b| - 1]) {
      SubseqSkip(a[..|a| - 1], b);
    } else {
      SubseqShorter(a, b[..|b| - 1]);
      SubseqSkip(a[..|a| - 1], b);
    }
  }

  lemma SubseqSkip<T>(a: seq<T>, b: seq<T>)
    requires |b| > 0 && Subseq(a, b[..|b| - 1])
    ensures Subseq(a, b)
  {
  }

  /** Dropping a stretch from the middle. */
  lemma {:induction false} SubseqDrop<T>(x: seq<T>, y: seq<T>, z: seq<T>, b: seq<T>)
    requires Subseq(x + y + z, b)
    ensures Subseq(x + z, b)
    decreases |b|, |y|
  {
    var a := x + y + z;
    if |y| == 0 {
      assert a == x + z;
    } else if |z| == 0 {
      SubseqShorter(a, b);
      assert a[..|a| - 1] == x + y[..|y| - 1] + z;
      SubseqDrop(x, y[..|y| - 1], z, b);
    } else {
      var z' := z[..|z| - 1];
      assert a[..|a| - 1] == x + y + z' && (x + z)[..|x + z| - 1] == x + z';
      if a[|a| - 1] == b[|b| - 1] && Subseq(a[..|a| - 1], b[..|b| - 1]) {
        SubseqDrop(x, y, z', b[..|b| - 1]);
      } else {
        SubseqDrop(x, y, z, b[..|b| - 1]);
        SubseqSkip(x + z, b);
      }
    }
  }

  // ------------------------------------------------------------------------------------------
  // One event more.
  // ------------------------------------------------------------------------------------------

  /** A reservation on the tail page: where it starts, its time header, the size of its data event,
      the clock value it was taken at and the write stamp found then. */
  datatype Reservation = None | Open(pos: nat, st: Stamp, size: nat, delta: nat, ts: nat, after: nat)

  function Total(r: Reservation): nat { if r.None? then 0 else StampLen(r.st) + r.size }

  /** The header bytes of an open reservation are in place behind the committed ones. */
  predicate Reserved(p: Page, r: Reservation) {
    && |p.data| == PAGE && p.write == p.commit + Total(r) <= PAGE
    && (r.Open? ==>
          && r.pos == p.commit && GoodSize(r.size) && r.delta < TWO27 && r.ts < TWO64 && p.entries > 0
          && |EventHeader(r.st, r.size, r.delta)| <= Total(r)
          && p.data[r.pos..r.pos + |EventHeader(r.st, r.size, r.delta)|] == EventHeader(r.st, r.size, r.delta))
  }

  /** The data area of an open reservation. */
  function Area(p: Page, r: Reservation): seq<byte>
    requires r.Open? && Reserved(p, r)
  {
    p.data[r.pos + |EventHeader(r.st, r.size, r.delta)|..p.write]
  }

  /** Committing the reservation appends exactly its event, read from `from` with running stamp `base`. */
  lemma CommitAppends(p: Page, r: Reservation, from: nat, base: nat)
    requires r.Open? && Reserved(p, r) && from <= p.commit && Tiled(p.data, from, p.commit) && base < TWO64
    requires StampAt(p.data, from, p.commit, base) < TWO64
    ensures Tiled(p.data, from, p.write)
    ensures var stamp := StampAt(p.data, from, p.commit, base);
      && Decode(p.data, from, p.write, base)
         == Decode(p.data, from, p.commit, base) + [Event(Area(p, r), Recovered(r.st, r.delta, stamp))]
      && StampAt(p.data, from, p.write, base) == Recovered(r.st, r.delta, stamp)
  {
    hide Word, GetU32, TypeLen, TimeDelta, EventLength, DataLength, EventHeader, EventAt, Tiled, Decode, StampAt;
    var stamp := StampAt(p.data, from, p.commit, base);
    ReservedEvent(p.data, p.commit, r.st, r.size, r.delta, stamp);
    Join(p.data, from, p.commit, p.write, base);
  }

  lemma {:induction false} StampBounded(d: seq<byte>, i: nat, end: nat, stamp: nat)
    requires Tiled(d, i, end) && stamp < TWO64
    ensures StampAt(d, i, end, stamp) < TWO64
    decreases end - i
  {
    if i < end {
      assert StampAfter(d, i, stamp) < TWO64 by { HeaderBound(d, i); }
      StampBounded(d, i + EventLength(d, i), end, StampAfter(d, i, stamp));
    }
  }

  lemma HeaderBound(d: seq<byte>, i: nat)
    requires i + 8 <= |d|
    ensures HeaderTime(d, i) < TWO59
  {
    assert GetU32(d, i) < TWO32 && GetU32(d, i + 4) < TWO32;
  }

  /** Padding out the end of a page adds no event. */
  lemma PadAppendsNothing(d: seq<byte>, from: nat, pos: nat, base: nat)
    requires |d| == PAGE && from <= pos <= PAGE - MIN_SIZE && Tiled(d, from, pos)
    ensures var e := Splice(d, pos, PadHeader(PAGE - pos));
      && Tiled(e, from, PAGE)
      && Decode(e, from, PAGE, base) == Decode(d, from, pos, base)
      && StampAt(e, from, PAGE, base) == StampAt(d, from, pos, base)
  {
    var e := Splice(d, pos, PadHeader(PAGE - pos));
    SameTiling(d, e, from, pos, base);
    assert e[pos..pos + 8] == PadHeader(PAGE - pos);
    PaddedEnd(e, pos, StampAt(e, from, pos, base));
    Join(e, from, pos, PAGE, base);
  }
}
