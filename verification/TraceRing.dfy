/** The per-CPU trace ring as the driver uses it, one call at a time and in overwrite mode: reserve,
    fill, commit or discard on the writing side, peek, consume and the emptiness test on the
    reading side.  The links are those of HeadProtocol and are moved by its steps. */
module TraceRing {
  import opened Bytes
  import opened TraceEvent
  import opened TracePages
  import opened TraceQueue
  import opened TraceState
  import opened RingMoves
  import HP = HeadProtocol

  /** What tb_buffer_peek hands back. */
  datatype Peeked = Nothing | Pad | Data(ev: Event)

  // ------------------------------------------------------------------------------------------
  // The link updates, one shared-memory access after the other.
  // ------------------------------------------------------------------------------------------

  /** tb_set_head_page: follow the links from the last known head to the link flagged HEAD.  One
      round is enough, so the give-up warning cannot be reached. */
  method FindHead(h: HP.State, ghost o: seq<nat>, ghost t: int) returns (head: nat)
    requires Idle(h, o, t)
    ensures |o| > 0 && head == o[0]
  {
    IdleFacts(h, o, t);
    hide Idle;
    ghost var j :| 0 <= j < |o| && o[j] == h.headHint;
    var start, rounds := h.headHint, 0;
    head := start;
    ghost var k := j;
    ScanLook(h, o, t, j);
    while rounds < 3 && HP.IsHeadPage(h, head, h.prev[head]) == HP.NORMAL
      invariant rounds == 0 && 0 <= j < |o| && head == o[j]
      invariant j != 0 ==> 0 < k <= j && start == o[k]
      invariant head < |h.prev| && h.prev[head] < |h.next| && head < |h.next|
      decreases if j == 0 then 0 else |o| - j
    {
      ScanLook(h, o, t, j);
      head := h.next[head].to;
      j := if j == |o| - 1 then 0 else j + 1;
      ScanLook(h, o, t, j);
      if head == start { rounds := rounds + 1; }
    }
    ScanLook(h, o, t, j);
  }

  /** The page swap of tb_get_reader_page. */
  method SwapLinks(h: HP.State, ghost o: seq<nat>, ghost t: int) returns (h': HP.State, head: nat)
    requires Idle(h, o, t) && t >= 0
    ensures |o| >= 2 && head == o[0] && h'.reader == head && h'.tail == h.tail && head != h.reader
    ensures Idle(h', HP.Rotate(o, h.reader), t - 1)
  {
    head := FindHead(h, o, t);
    IdleFacts(h, o, t);
    ScanEnds(h, o, t);
    h' := h.(headHint := head, r := HP.Found(head));
    SwapMoves(h', o, t);
    hide Idle, HP.ReaderStep, HP.InBounds, HP.Inv;
    h' := HP.ReaderStep(h');
    h' := HP.ReaderStep(h');
    h' := HP.ReaderStep(h');
    h' := HP.ReaderStep(h');
  }

  /** tb_move_tail: on to the next page, pushing the head first if it is the next page. */
  method TailLinks(h: HP.State, ghost o: seq<nat>, ghost t: int) returns (h': HP.State, next: nat, pushed: bool)
    requires Idle(h, o, t)
    ensures |o| >= 2 && -1 <= t < |o| && (pushed <==> t == |o| - 1)
    ensures h'.reader == h.reader && h'.tail == next
    ensures pushed ==> next == o[0] && Idle(h', HP.Rotate(o, o[0]), t)
    ensures !pushed ==> next == o[t + 1] && Idle(h', o, t + 1)
  {
    hide Idle, Follows, AtHead, HP.Rotate;
    h', next, pushed := LookNext(h, o, t);
    if pushed { h' := PushSteps(h', next, o, t); }
    h' := FollowSteps(h', if pushed then HP.Rotate(o, o[0]) else o, if pushed then t - 1 else t);
  }

  /** The writer saw that the next page is the head page, and the commit page is not the reader page. */
  ghost predicate AtHead(h: HP.State, next: nat, o: seq<nat>, t: int) {
    && h.w == HP.SawHead(next) && |o| >= 2 && next == o[0] && t == |o| - 1 && HP.InBounds(h) && h.r.Reading?
    && HP.InBounds(HP.WriterStep(h)) && HP.Inv(HP.WriterStep(HP.WriterStep(h)), o, t, t)
    && HP.WriterStep(HP.WriterStep(h)) == h.(w := HP.Handle(next))
  }

  /** The next page, and whether it is the head page. */
  method LookNext(h: HP.State, ghost o: seq<nat>, ghost t: int) returns (h': HP.State, next: nat, pushed: bool)
    requires Idle(h, o, t)
    ensures |o| >= 2 && -1 <= t < |o| && (pushed <==> t == |o| - 1) && h'.reader == h.reader && h'.r.Reading?
    ensures if pushed then AtHead(h', next, o, t) && next == o[0]
      else Follows(h', o, t) && h'.w == HP.TailMoving(next) && next == o[t + 1]
  {
    IdleFacts(h, o, t);
    ghost var n := |o|;
    if t == n - 1 {
      FullApproach(h, o, t);
    } else {
      FreeMove(h, o, t);
    }
    hide Idle, Follows, HP.WriterStep, HP.InBounds, HP.Inv;
    h' := HP.WriterStep(h);
    next := h'.w.n;
    h' := HP.WriterStep(h');
    pushed := h'.w.SawHead?;
  }

  /** Publishing the next page as tail, and tb_set_commit_to_write behind it. */
  method FollowSteps(h: HP.State, ghost o: seq<nat>, ghost t: int) returns (h': HP.State)
    requires Follows(h, o, t) && h.r.Reading?
    ensures h' == h.(tail := h.w.n, commit := h.w.n, w := HP.Writing) && Idle(h', o, t + 1)
  {
    hide Idle, Paused, HP.WriterStep, HP.InBounds;
    h' := HP.WriterStep(h);
    h' := HP.WriterStep(h');
    h' := HP.WriterStep(h');
    h' := HP.WriterStep(h');
    h' := HP.WriterStep(h');
  }

  /** From where the next page was seen to be the head page to where the tail can move there:
      tb_handle_head_page. */
  method PushSteps(h: HP.State, next: nat, ghost o: seq<nat>, ghost t: int) returns (h': HP.State)
    requires AtHead(h, next, o, t)
    ensures |o| > 0 && h'.reader == h.reader && h'.w == HP.TailMoving(next)
    ensures h'.r.Reading? && Follows(h', HP.Rotate(o, o[0]), t - 1)
  {
    hide Idle, Follows, HP.WriterStep, HP.InBounds, HP.Inv;
    h' := HP.WriterStep(h);
    h' := HP.WriterStep(h');
    FullPush(h', o, t);
    h' := HP.WriterStep(h');
    h' := HP.WriterStep(h');
    h' := HP.WriterStep(h');
    h' := HP.WriterStep(h');
    Follow(h', HP.Rotate(o, o[0]), t - 1);
  }

  /** tb_reset_tail for a reservation of `total` bytes that overshot the page, and the commit that
      follows: the page is left filled to its end, or cut where no event fits any more. */
  method ResetTail(p: Page, total: nat) returns (p': Page)
    requires |p.data| == PAGE && p.write == p.commit <= PAGE < p.write + total
    ensures p' == LeftPage(p)
  {
    var pos := p.write;
    p' := p.(write := pos + total);
    if pos > PAGE - MIN_SIZE {
      if pos + HDR <= PAGE { p' := p'.(data := Splice(p.data, pos, Word(PADDING))); }
      p' := p'.(write := p'.write - total);
    } else {
      p' := p'.(data := Splice(p.data, pos, PadHeader(PAGE - pos)), write := p'.write - (pos + total - PAGE));
    }
    p' := p'.(commit := p'.write);
  }

  /** The links, the pages and the lost count tb_move_tail leaves. */
  method TurnedPages(h: HP.State, pages: seq<Page>, overrun: nat, total: nat, ghost ts: nat, ghost r: Ring)
    returns (h': HP.State, pages': seq<Page>, overrun': nat, next: nat, pushed: bool)
    requires Ok(r.(pages := pages, h := h, overrun := overrun)) && r.open.None?
    requires h.tail < |pages| && pages[h.tail].write + total > PAGE
    ensures |r.o| > 0 && MovedTo(r.(pages := pages, h := h, overrun := overrun),
      r.(pages := pages', h := h', overrun := overrun', beforeStamp := r.writeStamp,
      o := if pushed then HP.Rotate(r.o, r.o[0]) else r.o, t := if pushed then r.t else r.t + 1,
      timed := r.timed && r.lastTs <= ts, lastTs := ts), ts, next, pushed)
  {
    hide Idle, Core, HP.Rotate, LeftPage, Cleared;
    ghost var s := r.(pages := pages, h := h, overrun := overrun);
    TailFacts(s);
    h', next, pushed := TailLinks(h, s.o, s.t);
    MovedBounds(s, h', next, pushed);
    var left := ResetTail(pages[h.tail], total);
    overrun' := if pushed then overrun + pages[next].entries else overrun;
    pages' := pages[next := Cleared(pages[next])];
    pages' := pages'[h.tail := left];
  }

  /** __tb_reserve_next on the tail page: choose the time header, claim the bytes, and if they fit
      write the event's header. */
  method ReserveNext(p: Page, before: nat, after: nat, size: nat, ts: nat)
    returns (total: nat, st: Stamp, delta: nat, p': Page)
    requires ts < TWO64 && GoodSize(size) && |p.data| == PAGE
    ensures total == StampLen(ChooseStamp(p.write, before, after, ts)) + size
    ensures p.write + total > PAGE ==> p' == p
    ensures p.write + total <= PAGE ==>
      && p' == ReservedPage(p, size, before, after, ts)
      && st == ChooseStamp(p.write, before, after, ts) && delta == ChooseDelta(p.write, before, after, ts)
  {
    var w := p.write;
    var force, gap := before != after && w != 0, Gap(ts, after);
    var extend := force || gap >= TWO27;
    total := if extend then size + TIME_LEN else size;
    st, delta, p' := NoStamp, 0, p;
    if w + total > PAGE { return; }
    delta := if force then ts else if w == 0 then 0 else gap;
    if extend {
      st := if force then Absolute(ts) else Extend(if delta > TWO59 then 0 else delta);
      delta := 0;
    }
    p' := p'.(data := Splice(p'.data, w, EventHeader(st, size, delta)), write := w + total, entries := p'.entries + 1);
    if w == 0 { p' := p'.(stamp := ts); }
  }

  /** tb_event_discard, tb_decrement_entry and tb_try_to_discard, from the bytes on the page: what to
      take back from the write stamp, and the page. */
  method UndoReserve(p: Page, res: Reservation) returns (undone: bool, delta: nat, p': Page)
    requires res.Open? && Reserved(p, res)
    ensures undone && delta == (if res.st.Extend? then Stored(res.st) else 0) && p' == DiscardedPage(p, res)
  {
    hide DataEvent, DiscardDelta, EventLength, EventHeader, Word;
    DiscardReads(p, res);
    var at := DataEvent(p.data, res.pos);
    p' := p.(data := DiscardData(p.data, at), entries := p.entries - 1);
    var end := DataEvent(p'.data, res.pos) + EventLength(p'.data, DataEvent(p'.data, res.pos));
    delta := DiscardDelta(p'.data, res.pos);
    undone := p'.write == end;
    if undone { p' := p'.(write := res.pos); }
  }

  // ------------------------------------------------------------------------------------------
  // struct tb_per_cpu and its operations.
  // ------------------------------------------------------------------------------------------

  type Clock = n: nat | n < TWO64

  class PerCpu {
    var pages: seq<Page>
    var h: HP.State
    var readStamp: nat
    var writeStamp: nat
    var beforeStamp: nat
    var open: Reservation
    var entries: nat
    var overrun: nat
    var readCount: nat
    var produced: nat
    var rejected: nat
    var discarded: nat
    ghost var o: seq<nat>
    ghost var t: int
    ghost var log: seq<Event>
    ghost var delivered: seq<Event>
    ghost var timed: bool
    ghost var lastTs: nat
    ghost var small: bool

    ghost function Snap(): Ring
      reads this
    {
      Ring(pages, h, readStamp, writeStamp, beforeStamp, open, entries, overrun, readCount,
           produced, rejected, discarded, o, t, log, delivered, timed, lastTs, small)
    }

    ghost predicate Valid()
      reads this
    {
      Ok(Snap()) && Settled(Snap())
    }

    /** Every committed event not yet consumed, oldest first. */
    ghost function Events(): seq<Event>
      requires Valid()
      reads this
    {
      Queue(Snap())
    }

    /** tb_allocate_cpu_ring for a ring of `size` bytes: at least two pages, and the reader page. */
    constructor (size: nat)
      ensures Valid() && open.None? && Events() == [] && log == [] && delivered == [] && timed && lastTs == 0 && small
        && rejected == 0
      ensures discarded == 0 && beforeStamp == writeStamp && t == 0 && h.reader < |pages| && pages[h.reader].commit == 0
      ensures |pages| >= 3 && (|pages| - 1) * PAGE >= size && writeStamp == 0 && TailWrite(Snap()) == 0
    {
      hide Ok, Settled, Queue;
      var n := (size + PAGE - 1) / PAGE;
      if n < 2 { n := 2; }
      pages, h := seq(n + 1, _ => BlankPage()), HP.Initial(n);
      readStamp, writeStamp, beforeStamp, open := 0, 0, 0, None;
      entries, overrun, readCount, produced, rejected, discarded := 0, 0, 0, 0, 0, 0;
      o, t, log, delivered, timed, lastTs, small := seq(n, (i: nat) => i), 0, [], [], true, 0, true;
      new;
      BlankOk(n);
      assert Snap() == Blank(n);
    }

    /** tb_num_of_entries */
    function NumEntries(): int
      reads this
    {
      entries - (overrun + readCount)
    }

    /** Every committed event is delivered, unread or counted as lost, in order; every produced one
        is rejected, discarded, committed or open. */
    lemma Balance()
      requires Valid()
      ensures Subseq(delivered + Events(), log) && |log| == |delivered| + |Events()| + overrun
      ensures NumEntries() == |Events()|
      ensures produced == rejected + discarded + |log| + (if open.Open? then 1 else 0)
    {
      hide Idle, QueueOk, Shape, Timed, Queue, Subseq;
    }

    // ----------------------------------------------------------------------------------------
    // Reading.
    // ----------------------------------------------------------------------------------------

    /** The spent reader page goes onto the ring in place of the head page. */
    method SwapPages()
      requires Valid() && t >= 0 && pages[h.reader].read == pages[h.reader].commit
      requires (small && discarded == 0 ==> entries > 0) && Events() != []
      modifies this`pages, this`h, this`o, this`t
      ensures Valid() && Events() == old(Events()) && t == old(t) - 1 && KeepsTail(old(Snap()), Snap())
      ensures h.reader < |pages| && pages[h.reader].read == 0 && (pages[h.reader].commit > 0 || t == -1)
    {
      hide Idle, Core, Settled, Queue, Swapped, KeepsTail, Cleared, HP.Rotate;
      ghost var s := Snap();
      var spent := h.reader;
      var links, head := SwapLinks(h, o, t);
      SwapFacts(s);
      SwappedOk(s, links);
      SwappedIs(s, links);
      var pages' := pages[spent := Cleared(pages[spent])];
      pages' := pages'[head := pages'[head].(read := 0)];
      pages, h := pages', links;
      o, t := HP.Rotate(o, spent), t - 1;
    }

    /** There is something to read on the reader page, and the running stamp is set for it. */
    ghost predicate Ready()
      reads this
    {
      h.reader < |pages| && pages[h.reader].read < pages[h.reader].commit
        && readStamp == Base(pages[h.reader], readStamp)
      && EventHere(pages[h.reader])
    }

    /** The type of the event at the read index. */
    ghost function Kind(): nat
      requires Ready()
      reads this
    {
      TypeLen(pages[h.reader].data, pages[h.reader].read)
    }

    /** Nothing is left on the reader page, not even padding. */
    ghost predicate Spent()
      reads this
    {
      h.reader < |pages| && pages[h.reader].read == pages[h.reader].commit
    }

    /** tb_get_reader_page: find a page with something to read.  Two rounds of its loop are enough,
        so the warning about a fourth is unreachable. */
    method GetReaderPage() returns (found: bool, loops: nat)
      requires Valid()
      modifies this`pages, this`h, this`o, this`t, this`readStamp
      ensures Valid() && Events() == old(Events()) && loops <= 2 && KeepsTail(old(Snap()), Snap())
      ensures h.reader < |pages| && (found ==> Ready()) && (!found ==> Events() == [] && Spent())
      ensures t <= old(t) && (t == old(t) ==> pages == old(pages) && h == old(h))
      ensures old(h.reader < |pages| && pages[h.reader].read < pages[h.reader].commit) ==> found && t == old(t)
      ensures pages[h.reader].read != 0 ==> readStamp == old(readStamp)
    {
      hide Idle, Core, Settled, Queue, EventHere, KeepsTail;
      ReaderFacts(Snap());
      ghost var was := Snap();
      KeepsTailHere(was);
      loops := 1;
      found := false;
      while pages[h.reader].read == pages[h.reader].commit && h.commit != h.reader && NumEntries() != 0 && loops < 3
        invariant Valid() && h.reader < |pages| && Events() == old(Events()) && 1 <= loops <= 2 && !found
          && KeepsTail(was, Snap())
        invariant pages[h.reader].read <= pages[h.reader].commit
        invariant loops == 1 ==> t == old(t)
        invariant readStamp == old(readStamp)
        invariant old(pages[h.reader].read < pages[h.reader].commit) ==> loops == 1
        invariant t <= old(t) && (t == old(t) ==> pages == old(pages) && h == old(h))
        invariant loops == 2 ==> pages[h.reader].read < pages[h.reader].commit || h.commit == h.reader
        decreases 3 - loops
      {
        ReaderFacts(Snap());
        ghost var s := Snap();
        SwapPages();
        KeepsTailOn(was, s, Snap());
        ReaderFacts(Snap());
        loops := loops + 1;
      }
      ReaderFacts(Snap());
      ghost var s := Snap();
      if pages[h.reader].read < pages[h.reader].commit {
        found := true;
        StampedOk(s);
        hide Stamped;
        if pages[h.reader].read == 0 { readStamp := pages[h.reader].stamp; }
        assert Snap() == Stamped(s) by { StampedIs(s); }
        KeepsTailOn(was, s, Snap());
      }
    }

    /** tb_advance_reader: step over the event at the read index, and count it if it is data. */
    method Advance()
      requires Valid() && Ready()
      modifies this`pages, this`readStamp, this`readCount, this`delivered
      ensures Valid() && h.reader < |pages| && KeepsTail(old(Snap()), Snap())
      ensures var p := old(pages[h.reader]);
        && EventHere(p) && pages == old(pages)[h.reader := p.(read := p.read + EventLength(p.data, p.read))]
        && readStamp == StampAfter(p.data, p.read, old(readStamp))
        && if TypeLen(p.data, p.read) <= DATA_MAX
           then old(Events()) == [EventOf(p, old(readStamp))] + Events()
                && delivered == old(delivered) + [EventOf(p, old(readStamp))]
           else old(Events()) == Events() && delivered == old(delivered)
    {
      hide Idle, Core, Settled, Queue, Advanced, TypeLen, EventLength, StampAfter, EventOf, EventHere, KeepsTail;
      ghost var s := Snap();
      AdvancedOk(s);
      AdvancedIs(s);
      var p := pages[h.reader];
      assert p.read + 8 <= |p.data| && EventLength(p.data, p.read) >= 8 by { EventHereFacts(p); }
      if TypeLen(p.data, p.read) <= DATA_MAX {
        readCount := readCount + 1;
        delivered := delivered + [EventOf(p, readStamp)];
      }
      readStamp := StampAfter(p.data, p.read, readStamp);
      pages := pages[h.reader := p.(read := p.read + EventLength(p.data, p.read))];
      assert Snap() == Advanced(s);
    }

    /** The time-header branches of tb_buffer_peek.  A time header is always followed by its data
        event, so the loop there runs at most twice. */
    method SkipTime() returns (ts: nat)
      requires Valid() && Ready()
      modifies this`pages, this`h, this`o, this`t, this`readStamp, this`readCount, this`delivered
      ensures Valid() && Ready() && Events() == old(Events()) && delivered == old(delivered)
        && KeepsTail(old(Snap()), Snap())
      ensures t == old(t) && h == old(h) && pages[h.reader].read >= old(pages[h.reader].read)
      ensures Kind() <= PADDING
      ensures ts != 0 ==> ts == (readStamp + TimeDelta(pages[h.reader].data, pages[h.reader].read)) % TWO64
    {
      hide Idle, Core, Settled, Queue, TypeLen, TimeDelta, EventLength, StampAfter, HeaderTime, EventHere, EventOf,
           Body, DataStart, DataLength, KeepsTail;
      ts := 0;
      var p := pages[h.reader];
      ghost var s := Snap();
      KeepsTailHere(s);
      PeekFacts(s);
      if TypeLen(p.data, p.read) > PADDING {
        if TypeLen(p.data, p.read) == TIME_STAMP { ts := HeaderTime(p.data, p.read); }
        Advance();
        ghost var s1 := Snap();
        var found, loops := GetReaderPage();
        KeepsTailOn(s, s1, Snap());
      }
    }

    /** tb_buffer_peek: look at the next event. */
    method BufferPeek() returns (r: Peeked)
      requires Valid()
      modifies this`pages, this`h, this`o, this`t, this`readStamp, this`readCount, this`delivered
      ensures Valid() && Events() == old(Events()) && delivered == old(delivered) && h.reader < |pages|
        && KeepsTail(old(Snap()), Snap())
      ensures r.Nothing? ==> Events() == [] && Spent()
      ensures !r.Nothing? ==> Ready()
      ensures r.Pad? ==> Kind() == PADDING
      ensures r.Data? ==> Kind() <= DATA_MAX
      ensures r.Data? ==> r.ev == EventOf(pages[h.reader], readStamp) && Events() != [] && Events()[0] == r.ev
      ensures t < old(t)
        || (t == old(t) && h == old(h)
            && pages[h.reader].read >= old(if h.reader < |pages| then pages[h.reader].read else 0))
    {
      hide Idle, Core, Settled, Queue, TypeLen, TimeDelta, EventLength, StampAfter, HeaderTime, EventHere, EventOf,
           Body, DataStart, DataLength, Advanced, KeepsTail;
      ghost var s := Snap();
      var found, loops := GetReaderPage();
      if !found { return Nothing; }
      ghost var s1 := Snap();
      var ts := SkipTime();
      KeepsTailOn(s, s1, Snap());
      var p := pages[h.reader];
      PeekFacts(Snap());
      if TypeLen(p.data, p.read) == PADDING { return Pad; }
      if ts == 0 { ts := (readStamp + TimeDelta(p.data, p.read)) % TWO64; }
      AdvancedOk(Snap());
      r := Data(Event(Body(p.data, p.read), ts));
    }

    method SkipPad()
      requires Valid() && Ready() && Kind() == PADDING
      modifies this`pages, this`readStamp, this`readCount, this`delivered
      ensures Valid() && Events() == old(Events()) && delivered == old(delivered) && KeepsTail(old(Snap()), Snap())
      ensures h.reader < |pages| && old(pages[h.reader].read) < pages[h.reader].read <= PAGE
    {
      hide KeepsTail, Idle, Core, Settled, Queue, TypeLen, EventLength, StampAfter, EventHere, EventOf;
      EventHereFacts(pages[h.reader]);
      Advance();
      ReaderFacts(Snap());
    }

    /** Step over padding and look again. */
    method PeekPast() returns (r: Peeked)
      requires Valid() && Ready() && Kind() == PADDING
      modifies this`pages, this`h, this`o, this`t, this`readStamp, this`readCount, this`delivered
      ensures Valid() && Events() == old(Events()) && delivered == old(delivered) && h.reader < |pages|
        && KeepsTail(old(Snap()), Snap())
      ensures r.Nothing? ==> Events() == [] && Spent()
      ensures !r.Nothing? ==> Ready()
      ensures r.Pad? ==> Kind() == PADDING
      ensures r.Data? ==> Kind() <= DATA_MAX && Events() != [] && Events()[0] == r.ev
      ensures -1 <= t && pages[h.reader].read <= PAGE
      ensures t < old(t) || (t == old(t) && pages[h.reader].read > old(pages[h.reader].read))
    {
      hide Idle, Core, Settled, Queue, TypeLen, EventLength, StampAfter, EventHere, EventOf, KeepsTail;
      ghost var s := Snap();
      SkipPad();
      ghost var s1 := Snap();
      r := BufferPeek();
      KeepsTailOn(s, s1, Snap());
      ReaderFacts(Snap());
    }

    /** The loop of tb_peek and of tb_consume: step over padding until there is an event. */
    method NextEvent() returns (r: Peeked)
      requires Valid()
      modifies this`pages, this`h, this`o, this`t, this`readStamp, this`readCount, this`delivered
      ensures Valid() && Events() == old(Events()) && delivered == old(delivered) && KeepsTail(old(Snap()), Snap())
      ensures r == if Events() == [] then Nothing else Data(Events()[0])
      ensures if r.Data? then Ready() && Kind() <= DATA_MAX else Spent()
    {
      hide Idle, Core, Settled, Queue, TypeLen, EventLength, StampAfter, EventHere, EventOf, KeepsTail;
      ghost var was := Snap();
      r := BufferPeek();
      ReaderFacts(Snap());
      while r.Pad?
        invariant Valid() && Events() == old(Events()) && delivered == old(delivered) && h.reader < |pages|
          && KeepsTail(was, Snap())
        invariant t >= -1 && pages[h.reader].read <= PAGE
        invariant r.Nothing? ==> Events() == [] && Spent()
        invariant !r.Nothing? ==> Ready()
        invariant r.Data? ==> Events() != [] && Events()[0] == r.ev && Kind() <= DATA_MAX
        invariant r.Pad? ==> Kind() == PADDING
        decreases t + 1, PAGE - pages[h.reader].read
      {
        ghost var s := Snap();
        r := PeekPast();
        KeepsTailOn(was, s, Snap());
      }
    }

    /** tb_peek: the oldest unread event, without consuming it. */
    method Peek() returns (r: Peeked)
      requires Valid()
      modifies this`pages, this`h, this`o, this`t, this`readStamp, this`readCount, this`delivered
      ensures Valid() && Events() == old(Events()) && delivered == old(delivered)
      ensures r == if Events() == [] then Nothing else Data(Events()[0])
      ensures KeepsTail(old(Snap()), Snap()) && (open.Open? ==> Reservation() == old(Reservation()))
      ensures r.Data? ==> OnReader(Snap()) != [] && OnReader(Snap())[0] == r.ev
    {
      hide Idle, Core, Settled, Queue, KeepsTail, Area, Tail, OnReader, EventHere, TypeLen;
      ghost var s := Snap();
      r := NextEvent();
      if open.Open? { KeepsArea(s, Snap()); }
      if r.Data? { OnReaderFirst(Snap()); }
    }

    /** tb_consume: take the oldest unread event, its bytes and its time stamp. */
    method Consume() returns (r: Peeked)
      requires Valid()
      modifies this`pages, this`h, this`o, this`t, this`readStamp, this`readCount, this`delivered
      ensures Valid()
      ensures r == if old(Events()) == [] then Nothing else Data(old(Events())[0])
      ensures Events() == if old(Events()) == [] then [] else old(Events())[1..]
      ensures delivered == old(delivered) + (if r.Data? then [r.ev] else [])
      ensures KeepsTail(old(Snap()), Snap()) && (open.Open? ==> Reservation() == old(Reservation()))
      ensures if r.Data? then h.reader < |pages| && pages[h.reader].commit > 0 else Spent()
    {
      hide Idle, Core, Settled, Queue, TypeLen, EventLength, StampAfter, EventHere, EventOf, KeepsTail, Area, Tail;
      ghost var s := Snap();
      r := NextEvent();
      if r.Data? {
        ghost var s1 := Snap();
        Advance();
        KeepsTailOn(s, s1, Snap());
      }
      if open.Open? { KeepsArea(s, Snap()); }
    }

    /** tb_per_cpu_empty.  It never misses an event.  With nothing unread it says so exactly when
        the reader page holds no unread padding and the tail is not past the head page.  With
        small requests the second is never in the way, and without discards the first only
        while a reservation is open. */
    method IsEmpty() returns (r: bool)
      requires Valid()
      modifies this`h
      ensures Valid() && Events() == old(Events()) && h.reader == old(h.reader) < |pages| && h.tail == old(h.tail)
      ensures r ==> Events() == []
      ensures open.Open? ==> Reservation() == old(Reservation())
      ensures Events() == [] ==> (r <==> Spent() && t <= 0)
      ensures small && Events() == [] ==> (r <==> pages[h.reader].read == pages[h.reader].commit)
      ensures small && discarded == 0 && open.None? ==> (r <==> Events() == [])
    {
      hide Idle, Core, Settled, Queue, Unread;
      ghost var s := Snap();
      var head := FindHead(h, o, t);
      ScanEnds(h, o, t);
      HintOk(s, head);
      EmptyFacts(s, head);
      h := h.(headHint := head);
      assert Snap() == s.(h := s.h.(headHint := head));
      var reader := pages[h.reader];
      if reader.read != reader.commit { return false; }
      if h.commit == h.reader { return true; }
      if h.commit != head { return false; }
      return pages[h.commit].commit == 0;
    }

    // ----------------------------------------------------------------------------------------
    // Writing.
    // ----------------------------------------------------------------------------------------

    /** Bookkeeping of the history fields: where the ring stands, and what the clock said. */
    ghost method Note(o': seq<nat>, t': int, timed': bool, ts: nat)
      modifies this`o, this`t, this`timed, this`lastTs
      ensures Snap() == old(Snap()).(o := o', t := t', timed := timed', lastTs := ts)
    {
      o, t, timed, lastTs := o', t', timed', ts;
    }

    /** The body of tb_move_tail: links, statistics and the two pages it touches. */
    method TurnPage(total: nat, ts: nat) returns (ghost next: nat, ghost pushed: bool)
      requires Ok(Snap()) && open.None? && h.tail < |pages| && pages[h.tail].write + total > PAGE
      modifies this`pages, this`h, this`overrun, this`beforeStamp, this`o, this`t, this`timed, this`lastTs
      ensures MovedTo(old(Snap()), Snap(), ts, next, pushed)
    {
      hide Ok, MovedTo, HP.Rotate;
      ghost var s := Snap();
      var links, pages', overrun', next', pushed' := TurnedPages(h, pages, overrun, total, ts, s);
      next, pushed := next', pushed';
      pages, h, overrun, beforeStamp := pages', links, overrun', writeStamp;
      Note(if pushed then HP.Rotate(o, o[0]) else o, if pushed then t else t + 1, timed && lastTs <= ts, ts);
    }

    /** tb_move_tail, for a reservation of `total` bytes that overshot the tail page at clock ts.
        The ring loses exactly the events of its oldest page, and only if every page was in use;
        what is on the reader page stays. */
    method MoveTail(total: nat, ts: nat)
      requires Ok(Snap()) && open.None? && ts < TWO64 && h.tail < |pages| && pages[h.tail].write + total > PAGE
      requires small ==> pages[h.tail].commit > 0
      modifies this`pages, this`h, this`overrun, this`beforeStamp, this`o, this`t, this`timed, this`lastTs
      ensures Ok(Snap()) && h.tail < |pages| && pages[h.tail].write == 0 && h.reader == old(h.reader)
      ensures OnReader(Snap()) == old(OnReader(Snap()))
      ensures old(OnRing(Snap())) == old(Lost(Snap())) + OnRing(Snap())
      ensures overrun == old(overrun) + |old(Lost(Snap()))|
      ensures timed == (old(timed) && old(lastTs) <= ts) && lastTs == ts && beforeStamp == writeStamp
      ensures ReaderLeft(old(Snap()), Snap()) && Turned(old(pages), old(o), old(t), pages, o, t, 1)
    {
      hide Idle, Core, OnReader, OnRing, Lost, MovedTo, ReaderLeft, Turned;
      ghost var s := Snap();
      ghost var next, pushed := TurnPage(total, ts);
      Moved(s, Snap(), ts, next, pushed);
      MovedReader(s, Snap(), ts, next, pushed);
      MovedTurned(s, Snap(), ts, next, pushed);
    }

    /** One round of tb_reserve_next_event at clock ts: the event is reserved on the tail page, or
        the tail moves on. */
    method TryReserve(size: nat, ts: nat) returns (done: bool)
      requires Ok(Snap()) && open.None? && GoodSize(size) && ts < TWO64 && (small ==> size + TIME_LEN <= PAGE)
      modifies this`pages, this`h, this`open, this`writeStamp, this`overrun, this`beforeStamp, this`o, this`t,
        this`timed, this`lastTs
      ensures Round(old(Snap()), Snap(), size, ts, done)
    {
      hide Idle, Core, OnReader, OnRing, Lost, Reserving, ReservedPage, ChooseStamp, ChooseDelta, Round, ReaderLeft,
           FitsFresh, Turned;
      ghost var s := Snap();
      TailFacts(s);
      var p := pages[h.tail];
      var total, st, delta, p' := ReserveNext(p, beforeStamp, writeStamp, size, ts);
      done := p.write + total <= PAGE;
      if done {
        ghost var timed' := timed && ClockOk(p.write, beforeStamp, writeStamp, lastTs, ts);
        RoundDone(s, size, ts, timed');
        pages, open := pages[h.tail := p'], Open(p.write, st, size, delta, ts, writeStamp);
        writeStamp, beforeStamp := ts, ts;
        Note(o, t, timed', ts);
      } else {
        MoveTail(total, ts);
        RoundMoved(s, Snap(), size, ts);
      }
    }

    /** tb_reserve_next_event: rounds until one succeeds, at most a thousand.  `clock(k)` is the
        clock's value in round k. */
    method ReserveNextEvent(size: nat, clock: nat -> Clock) returns (ok: bool, ghost lost: seq<Event>, ghost round: nat)
      requires Ok(Snap()) && open.None? && GoodSize(size) && (small ==> size + TIME_LEN <= PAGE)
      modifies this`pages, this`h, this`open, this`writeStamp, this`overrun, this`beforeStamp, this`o, this`t,
        this`timed, this`lastTs
      ensures Rounds(old(Snap()), Snap(), size, clock, round + 1, ok, lost, round)
      ensures round < 1000 && (!ok ==> round == 999)
    {
      hide Ok, Round, Rounds;
      ghost var was := Snap();
      RoundsStart(was, size, clock);
      ok, lost, round := false, [], 0;
      var loops := 0;
      while loops < 1000 && !ok
        invariant loops <= 1000 && Rounds(was, Snap(), size, clock, loops, ok, lost, round)
        invariant Ok(Snap()) && (!ok ==> open.None?) && (loops > 0 ==> round == loops - 1) && (loops == 0 ==> !ok)
      {
        ghost var s := Snap();
        ok := TryReserve(size, clock(loops));
        lost := RoundsOn(was, s, Snap(), size, clock, loops, ok, lost, round);
        round := loops;
        loops := loops + 1;
      }
    }

    /** tb_lock_reserve: room for `length` bytes of data, or a rejection.  Whatever had to make room
        (`lost`) is the oldest part of what was on the ring and is counted by overrun; what is on
        the reader page stays.  A request that leaves room for a time header always succeeds and
        costs the ring at most its oldest page. */
    method Reserve(length: nat, clock: nat -> Clock) returns (ok: bool, ghost lost: seq<Event>, ghost round: nat)
      requires Valid() && open.None?
      modifies this`pages, this`h, this`open, this`writeStamp, this`overrun, this`beforeStamp, this`produced,
        this`rejected,
        this`o, this`t, this`timed, this`lastTs, this`small
      ensures Valid() && produced == old(produced) + 1 && rejected == old(rejected) + (if ok then 0 else 1)
      ensures OnReader(Snap()) == old(OnReader(Snap())) && old(OnRing(Snap())) == lost + OnRing(Snap())
      ensures overrun == old(overrun) + |lost|
      ensures if ok then open.Open? && open.ts == clock(round) && length <= |Area(Tail(Snap()), open)| else open.None?
      ensures length > MAX_DATA ==> !ok && lost == []
      ensures length <= MAX_DATA - TIME_LEN ==> ok && (lost == [] || lost == old(Lost(Snap())))
      ensures small == (old(small) && (length <= MAX_DATA - TIME_LEN || length > MAX_DATA))
      ensures !ok && length <= MAX_DATA ==> forall k :: 1 <= k < 1000 ==>
        !FitsFresh(CalcLength(length), clock(k), old(writeStamp))
      ensures ok && (round > 0 || old(TailWrite(Snap())) == 0) ==>
        FitsFresh(CalcLength(length), clock(round), old(writeStamp))
      ensures Turned(old(pages), old(o), old(t), pages, o, t,
        if ok then round else if length > MAX_DATA then 0 else 1000)
      ensures lastTs == old(lastTs) || lastTs == clock(round)
      ensures writeStamp == if ok then clock(round) else old(writeStamp)
      ensures ok || old(beforeStamp == writeStamp) ==> beforeStamp == writeStamp
      ensures old(timed) && InTime(clock, old(Snap()), ok && round == 0) ==> timed
      ensures ok ==> open.size == CalcLength(length) && ReaderSide(old(Snap()), Snap(), CalcLength(length), round == 0)
    {
      hide ReaderSide, Turned, Ok, Settled, OnReader, OnRing, Lost, CalcLength, Area, Reserved, MadeRoom, AtMostOnePage,
           FitsFresh, Rounds, InTime;
      ghost var s := Snap();
      CountProduced(length);
      ghost var m := Snap();
      if length > MAX_DATA {
        ok, lost, round := false, [], 0;
        MadeNone(Snap());
        TurnedHere(Snap());
      } else {
        CalcLengthGood(length);
        CalcLengthSmall(length);
        ok, lost, round := ReserveNextEvent(CalcLength(length), clock);
        RoundsGive(s, m, Snap(), CalcLength(length), clock, ok, lost, round);
      }
      AlikeMade(s, m, Snap(), lost);
      if ok { RoomFor(Snap(), length); } else { CountRejected(s, lost); }
      MadeGives(s, Snap(), lost);
      Settles(s, Snap());
    }

    /** The data area of the open reservation. */
    ghost function Reservation(): seq<byte>
      requires Valid() && open.Open?
      reads this
    {
      Area(Tail(Snap()), open)
    }

    /** How much data area that is: tb_event_data_length. */
    function AreaLength(): nat
      requires Valid() && open.Open?
      reads this
      ensures AreaLength() == |Reservation()|
    {
      hide Idle, QueueOk, Shape, Accounted, Timed;
      TailFacts(Snap());
      open.size - |DataHeader(open.size, if open.st.NoStamp? then open.delta else 0)|
    }

    /** The event a commit would make of the open reservation. */
    ghost function Pending(): Event
      requires Valid() && open.Open?
      reads this
    {
      OpenEvent(Snap())
    }

    /** The caller writes into the data area it was given. */
    method Fill(at: nat, bytes: seq<byte>)
      requires Valid() && open.Open? && at + |bytes| <= |Reservation()|
      modifies this`pages
      ensures Valid() && Events() == old(Events()) && Reservation() == Splice(old(Reservation()), at, bytes)
      ensures OnlyPage(old(pages), pages, h.tail)
    {
      hide Ok, Settled, Filling, Splice, Queue, Area, AreaStart;
      ghost var s := Snap();
      Fills(s, at, bytes);
      var p := pages[h.tail];
      pages := pages[h.tail := p.(data := Splice(p.data, AreaStart(open) + at, bytes))];
      FillingGives(s, Snap(), at, bytes);
    }

    /** tb_unlock_commit: the reservation becomes the newest event to read, with the bytes of its
        area and, while the clock behaves, the clock value taken when it was reserved. */
    method Commit()
      requires Valid() && open.Open?
      modifies this`pages, this`open, this`entries, this`log
      ensures Valid() && open.None? && Events() == old(Events()) + [old(Pending())]
        && log == old(log) + [old(Pending())]
      ensures old(Pending().body) == old(Reservation()) && (timed ==> old(Pending()).ts == old(open.ts))
      ensures TailCommit(Snap()) == old(TailWrite(Snap())) && SameReader(old(Snap()), Snap())
        && OnlyPage(old(pages), pages, h.tail)
    {
      hide Ok, Settled, Committing, Queue, OpenEvent;
      ghost var s := Snap();
      Commits(s);
      ReaderBound(s);
      var p := pages[h.tail];
      log := log + [Pending()];
      pages, open, entries := pages[h.tail := p.(commit := p.write)], None, entries + 1;
      CommittingGives(s, Snap());
    }

    /** tb_discard_commit: the reservation is taken off the page again and nothing else is lost. */
    method Discard()
      requires Valid() && open.Open?
      modifies this`pages, this`open, this`discarded, this`writeStamp, this`beforeStamp
      ensures Valid() && open.None? && Events() == old(Events()) && discarded == old(discarded) + 1
      ensures OnlyPage(old(pages), pages, h.tail)
    {
      hide Ok, Settled, Discarding, Queue, Reserved, DiscardedPage;
      ghost var s := Snap();
      Discards(s);
      var p := pages[h.tail];
      var undone, delta, p' := UndoReserve(p, open);
      pages, open, discarded := pages[h.tail := p'], None, discarded + 1;
      if undone {
        writeStamp := TakeBack(writeStamp, delta);
        if delta == 0 { beforeStamp := 0; }
      }
      DiscardingGives(s, Snap());
    }

    method CountProduced(length: nat)
      requires Ok(Snap())
      modifies this`produced, this`small
      ensures produced == old(produced) + 1
        && small == (old(small) && (length <= MAX_DATA - TIME_LEN || length > MAX_DATA))
      ensures Ok(Snap()) && Alike(old(Snap()), Snap())
    {
      hide Ok, Alike;
      ghost var small' := small && (length <= MAX_DATA - TIME_LEN || length > MAX_DATA);
      Recounted(Snap(), produced + 1, rejected, small');
      produced, small := produced + 1, small';
    }

    method CountRejected(ghost s: Ring, ghost lost: seq<Event>)
      requires MadeRoom(s, Snap(), lost)
      modifies this`rejected
      ensures rejected == old(rejected) + 1 && MadeRoom(s, Snap(), lost)
    {
      hide Ok, MadeRoom;
      MadeGives(s, Snap(), lost);
      Recounted(Snap(), produced, rejected + 1, small);
      MadeAlike(s, Snap(), Snap().(rejected := rejected + 1), lost);
      rejected := rejected + 1;
    }
  }

  /** tb_commit on the tail page with nobody nested. */
  lemma Commits(s: Ring)
    requires Ok(s) && Settled(s) && s.open.Open?
    ensures s.h.tail < |s.pages|
      && Committing(s, s.(pages := s.pages[s.h.tail := s.pages[s.h.tail].(commit := s.pages[s.h.tail].write)],
      open := None, entries := s.entries + 1, log := s.log + [OpenEvent(s)]))
  {
    hide Idle, QueueOk, Shape, Accounted, Timed;
    TailFacts(s);
    CommittedOk(s);
  }

  /** What a commit leaves of s: one more event to read, the one that was reserved. */
  ghost predicate Committing(s: Ring, s': Ring) {
    && Ok(s) && s.open.Open? && Ok(s') && Settled(s') && s'.open.None?
    && Queue(s') == Queue(s) + [OpenEvent(s)] && s'.log == s.log + [OpenEvent(s)]
    && (s.timed ==> OpenEvent(s).ts == s.open.ts)
  }

  lemma OpenFacts(s: Ring)
    requires Ok(s) && s.open.Open?
    ensures GoodSize(s.open.size) && s.open.delta < TWO27
  {
    hide Idle, Shape, Accounted, Timed, QueueOk, EventHeader;
  }

  lemma FilledIs(s: Ring, at: nat, bytes: seq<byte>)
    requires -1 <= s.t < |s.o| && TailId(s.o, s.t, s.h.reader) == s.h.tail < |s.pages| && s.open.Open?
      && GoodSize(s.open.size)
    requires s.open.delta < TWO27 && AreaStart(s.open) + at + |bytes| <= |s.pages[s.h.tail].data|
    ensures Filled(s, at, bytes) ==
      s.(pages := s.pages[s.h.tail := s.pages[s.h.tail].(data := Splice(s.pages[s.h.tail].data, AreaStart(s.open) + at,
        bytes))])
  {
    hide Splice, AreaStart;
  }

  lemma Fills(s: Ring, at: nat, bytes: seq<byte>)
    requires Ok(s) && Settled(s) && s.open.Open? && at + |bytes| <= |Area(Tail(s), s.open)|
    ensures s.h.tail < |s.pages| && GoodSize(s.open.size) && s.open.delta < TWO27
      && AreaStart(s.open) + at + |bytes| <= |s.pages[s.h.tail].data|
    ensures Filling(s,
      s.(pages := s.pages[s.h.tail := s.pages[s.h.tail].(data := Splice(s.pages[s.h.tail].data, AreaStart(s.open) + at,
        bytes))]), at, bytes)
  {
    TailFacts(s);
    OpenFacts(s);
    hide Idle, Core, Splice, EventHeader, Settled, Queue, Area, Reserved, AreaStart, GoodSize, Tail;
    FilledOk(s, at, bytes);
    FilledIs(s, at, bytes);
  }

  ghost predicate Filling(s: Ring, s': Ring, at: nat, bytes: seq<byte>) {
    && Ok(s) && s.open.Open? && Ok(s') && Settled(s') && Queue(s') == Queue(s) && s'.open == s.open
    && at + |bytes| <= |Area(Tail(s), s.open)|
    && Area(Tail(s'), s.open) == Splice(Area(Tail(s), s.open), at, bytes)
  }

  lemma Discards(s: Ring)
    requires Ok(s) && Settled(s) && s.open.Open?
    ensures s.h.tail < |s.pages| && Reserved(s.pages[s.h.tail], s.open)
    ensures var delta := if s.open.st.Extend? then Stored(s.open.st) else 0;
      Discarding(s, s.(pages := s.pages[s.h.tail := DiscardedPage(s.pages[s.h.tail], s.open)],
        open := None, discarded := s.discarded + 1,
        writeStamp := TakeBack(s.writeStamp, delta), beforeStamp := if delta == 0 then 0 else s.beforeStamp))
  {
    hide Idle, QueueOk, Shape, Accounted, Timed, DiscardedPage, Reserved;
    TailFacts(s);
    DiscardedOk(s);
  }

  ghost predicate Discarding(s: Ring, s': Ring) {
    Ok(s) && Ok(s') && Settled(s') && Queue(s') == Queue(s) && s'.open.None?
  }

  lemma FillingGives(s: Ring, s': Ring, at: nat, bytes: seq<byte>)
    requires Filling(s, s', at, bytes)
    ensures Ok(s) && Ok(s') && Settled(s') && Queue(s') == Queue(s) && s.open.Open? && s'.open == s.open
    ensures at + |bytes| <= |Area(Tail(s), s.open)|
      && Area(Tail(s'), s.open) == Splice(Area(Tail(s), s.open), at, bytes)
  {
    hide Idle, QueueOk, Shape, Accounted, Timed, Splice;
  }

  lemma CommittingGives(s: Ring, s': Ring)
    requires Committing(s, s')
    ensures Ok(s) && Ok(s') && Settled(s') && s.open.Open? && Queue(s') == Queue(s) + [OpenEvent(s)]
    ensures OpenEvent(s).body == Area(Tail(s), s.open) && (s.timed ==> OpenEvent(s).ts == s.open.ts)
  {
    hide Idle, QueueOk, Shape, Accounted, Timed;
  }

  lemma DiscardingGives(s: Ring, s': Ring)
    requires Discarding(s, s')
    ensures Ok(s) && Ok(s') && Settled(s') && Queue(s') == Queue(s) && s'.open.None?
  {
    hide Idle, QueueOk, Shape, Accounted, Timed;
  }

  /** The same events in the same places. */
  ghost predicate Alike(s: Ring, s': Ring) {
    && Ok(s) && Ok(s') && OnReader(s') == OnReader(s) && OnRing(s') == OnRing(s) && Lost(s') == Lost(s)
    && s'.overrun == s.overrun
  }

  lemma MadeAlike(s: Ring, m: Ring, s': Ring, lost: seq<Event>)
    requires MadeRoom(s, m, lost) && Alike(m, s')
    ensures MadeRoom(s, s', lost)
  {
    hide Idle, QueueOk, TailOk, Timed, Accounted, Shape, OnReader, OnRing, Lost;
  }

  lemma AlikeMade(s: Ring, m: Ring, s': Ring, lost: seq<Event>)
    requires Alike(s, m) && MadeRoom(m, s', lost)
    ensures MadeRoom(s, s', lost) && (AtMostOnePage(m, lost) ==> AtMostOnePage(s, lost))
  {
    hide Idle, QueueOk, TailOk, Timed, Accounted, Shape, OnReader, OnRing, Lost;
  }

  /** From s to s' the ring lost exactly its oldest events `lost`, and counted them. */
  ghost predicate MadeRoom(s: Ring, s': Ring, lost: seq<Event>) {
    && Ok(s) && Ok(s') && OnReader(s') == OnReader(s) && OnRing(s) == lost + OnRing(s')
    && s'.overrun == s.overrun + |lost|
  }

  ghost predicate AtMostOnePage(s: Ring, lost: seq<Event>) { Ok(s) && (lost == [] || lost == Lost(s)) }

  lemma MadeNone(s: Ring)
    requires Ok(s)
    ensures MadeRoom(s, s, []) && AtMostOnePage(s, [])
  {
    hide Idle, QueueOk, TailOk, Timed, Accounted, Shape, OnReader, OnRing;
    assert OnRing(s) == [] + OnRing(s);
  }

  lemma MadeMore(s: Ring, m: Ring, s': Ring, done: bool, lost: seq<Event>, first: bool) returns (lost': seq<Event>)
    requires MadeRoom(s, m, lost) && Ok(m) && Ok(s') && OnReader(s') == OnReader(m) && (first ==> s == m && lost == [])
    requires done ==> s'.overrun == m.overrun && OnRing(s') == OnRing(m)
    requires !done ==> s'.overrun == m.overrun + |Lost(m)| && OnRing(m) == Lost(m) + OnRing(s')
    ensures MadeRoom(s, s', lost')
    ensures AtMostOnePage(s, lost) && (first || done) ==> AtMostOnePage(s, lost')
  {
    hide Idle, QueueOk, TailOk, Timed, Accounted, Shape, OnReader, OnRing, Lost;
    lost' := if done then lost else lost + Lost(m);
    if !done {
      assert lost + (Lost(m) + OnRing(s')) == lost + Lost(m) + OnRing(s');
      if first { assert [] + Lost(m) == Lost(m); }
    }
  }

  lemma MadeGives(s: Ring, s': Ring, lost: seq<Event>)
    requires MadeRoom(s, s', lost)
    ensures Ok(s) && Ok(s') && OnReader(s') == OnReader(s) && OnRing(s) == lost + OnRing(s')
      && s'.overrun == s.overrun + |lost|
    ensures AtMostOnePage(s, lost) ==> lost == [] || lost == Lost(s)
  {
    hide Idle, QueueOk, TailOk, Timed, Accounted, Shape, OnReader, OnRing, Lost;
  }

  /** Other counts of produced and rejected, and a less small request, make no difference to the ring. */
  lemma Recounted(s: Ring, produced: nat, rejected: nat, small: bool)
    requires Ok(s) && (small ==> s.small)
    ensures var s' := s.(produced := produced, rejected := rejected, small := small); Ok(s') && Alike(s, s')
  {
    hide Idle, QueueOk, TailOk, Timed, Accounted;
  }

  lemma RoomFor(s: Ring, length: nat)
    requires Ok(s) && s.open.Open? && length <= MAX_DATA && s.open.size == CalcLength(length)
    ensures -1 <= s.t < |s.o| && TailId(s.o, s.t, s.h.reader) < |s.pages| && Reserved(Tail(s), s.open)
    ensures length <= |Area(Tail(s), s.open)|
  {
    hide Idle, Shape, Accounted, Timed, CalcLength;
    CalcLengthGood(length);
  }

  lemma Settles(s: Ring, s': Ring)
    requires Ok(s) && Settled(s) && s.open.None? && Ok(s')
    requires s'.entries == s.entries && s'.discarded == s.discarded && s'.produced == s.produced + 1
    requires s'.rejected == s.rejected + (if s'.open.None? then 1 else 0)
    requires s'.open.None? && s'.small ==> s'.t == s.t && s'.o == s.o && s'.pages == s.pages && s'.h == s.h && s.small
    ensures Settled(s')
  {
    hide Idle, Shape, Accounted, Timed, QueueOk, TailOk;
  }

  /** An event of this size fits on an empty page: with a time header, or because it needs none. */
  predicate FitsFresh(size: nat, ts: nat, after: nat)
    requires ts < TWO64
  {
    size + TIME_LEN <= PAGE || Gap(ts, after) < TWO27
  }

  lemma FitsWithHeader(size: nat)
    ensures size + TIME_LEN <= PAGE ==> forall ts: Clock, after :: FitsFresh(size, ts, after)
  {
  }

  lemma FreshStamp(before: nat, after: nat, ts: nat)
    requires ts < TWO64
    ensures StampLen(ChooseStamp(0, before, after, ts)) == if Gap(ts, after) < TWO27 then 0 else TIME_LEN
  {
  }

  predicate OnlyPage(pages: seq<Page>, pages': seq<Page>, i: nat) {
    i < |pages| == |pages'| && pages' == pages[i := pages'[i]]
  }

  function TailWrite(s: Ring): nat { if s.h.tail < |s.pages| then s.pages[s.h.tail].write else 0 }

  function TailCommit(s: Ring): nat { if s.h.tail < |s.pages| then s.pages[s.h.tail].commit else 0 }

  /** The tail has left the reader page, or was not on it; a page it leaves is padded to its end. */
  ghost predicate ReaderLeft(s: Ring, s': Ring) {
    && s.h.reader < |s.pages| && s'.h.reader == s.h.reader < |s'.pages| && s'.h.tail != s'.h.reader
    && var p, p' := s.pages[s.h.reader], s'.pages[s.h.reader];
       p'.read == p.read && p'.commit == if s.h.tail != s.h.reader || p.commit > PAGE - MIN_SIZE then p.commit else PAGE
  }

  /** What reserving does to the reader page: nothing if the event fits where the tail is, and
      otherwise the tail moves on. */
  ghost predicate ReaderSide(s: Ring, s': Ring, size: nat, here: bool) {
    if here then TailWrite(s) + size <= PAGE && s'.h.tail == s.h.tail && SameReader(s, s') else ReaderLeft(s, s')
  }

  ghost predicate SameReader(s: Ring, s': Ring) {
    s.h.reader < |s.pages| && s'.h.reader == s.h.reader < |s'.pages|
    && (s.h.tail != s.h.reader ==> s'.pages[s.h.reader] == s.pages[s.h.reader])
  }

  /** The tail went k pages on, or to the last page of the ring and around from there. */
  ghost predicate Turned(pages: seq<Page>, o: seq<nat>, t: int, pages': seq<Page>, o': seq<nat>, t': int, k: nat) {
    && |o'| == |o| >= 2 && t' == (if t + k < |o| then t + k else |o| - 1)
    && Aged(PageList(pages, o, t), PageList(pages', o', t'), |o|, k)
  }

  lemma TurnedNot(s: Ring, s': Ring)
    requires QueueOf(s) && QueueOf(s') && s'.o == s.o && s'.t == s.t && s'.h.reader == s.h.reader
      && s'.readStamp == s.readStamp
    requires |s'.pages| == |s.pages| && s'.pages == s.pages[TailId(s.o, s.t, s.h.reader) := Tail(s')]
      && Queue(s') == Queue(s)
    ensures Turned(s.pages, s.o, s.t, s'.pages, s'.o, s'.t, 0)
  {
    Bounds(s);
    hide QueueOf, Queue, OnReader, PageList, Tail;
    TailGrows(s, s', []);
    var list := PageList(s.pages, s.o, s.t);
    assert s.t >= 0 ==> list[s.t] + [] == list[s.t];
    AgedNot(PageList(s.pages, s.o, s.t), |s.o|);
  }

  lemma TurnedHere(s: Ring)
    requires Ok(s)
    ensures Turned(s.pages, s.o, s.t, s.pages, s.o, s.t, 0)
  {
    hide Idle, TailOk, Accounted, Shape, Timed, PageList;
    Bounds(s);
    AgedNot(PageList(s.pages, s.o, s.t), |s.o|);
  }

  lemma ReservedTurned(s: Ring, s': Ring, size: nat, ts: nat)
    requires Ok(s) && Reserving(s, s', size, ts) && s'.o == s.o && s'.t == s.t && s'.readStamp == s.readStamp
    requires |s'.pages| == |s.pages| && s.h.tail < |s.pages| && s'.pages == s.pages[s.h.tail := s'.pages[s.h.tail]]
    ensures Turned(s.pages, s.o, s.t, s'.pages, s'.o, s'.t, 0)
  {
    hide Idle, QueueOk, TailOk, Accounted, Shape, Timed, OnReader, OnRing, Turned, Queue;
    QueueParts(s);
    QueueParts(s');
    TurnedNot(s, s');
  }

  lemma TurnedOn(s: Ring, s1: Ring, s2: Ring, k: nat, j: nat)
    requires Turned(s.pages, s.o, s.t, s1.pages, s1.o, s1.t, k) && Turned(s1.pages, s1.o, s1.t, s2.pages, s2.o, s2.t, j)
    ensures Turned(s.pages, s.o, s.t, s2.pages, s2.o, s2.t, k + j)
  {
    hide Aged, PageList;
    AgedOn(PageList(s.pages, s.o, s.t), PageList(s1.pages, s1.o, s1.t), PageList(s2.pages, s2.o, s2.t), |s.o|, k, j);
  }

  lemma MovedTurned(s: Ring, s': Ring, ts: nat, next: nat, pushed: bool)
    requires Ok(s) && s.open.None? && MovedTo(s, s', ts, next, pushed)
    ensures Turned(s.pages, s.o, s.t, s'.pages, s'.o, s'.t, 1)
  {
    hide Ok, PageList, MovedFrom, Idle, HP.Rotate;
    MovedPlaces(s, s', ts, next, pushed);
    MovedNewest(s, s', ts, next, pushed);
    MovedOthers(s, s', ts, next, pushed);
    var list, list' := PageList(s.pages, s.o, s.t), PageList(s'.pages, s'.o, s'.t);
    assert list' == (list + Blanks(1))[if pushed then 1 else 0..];
  }

  lemma MovedPlaces(s: Ring, s': Ring, ts: nat, next: nat, pushed: bool)
    requires MovedTo(s, s', ts, next, pushed)
    ensures |s'.o| == |s.o| >= 2 && -1 <= s.t < |s.o| && (pushed <==> s.t == |s.o| - 1)
      && s'.t == (if pushed then s.t else s.t + 1)
    ensures s'.o[s'.t] == next && forall i :: 0 <= i < s'.t ==> s'.o[i] == s.o[if pushed then i + 1 else i]
  {
    hide Idle, Cleared, LeftPage;
  }

  lemma MovedNewest(s: Ring, s': Ring, ts: nat, next: nat, pushed: bool)
    requires Ok(s) && MovedTo(s, s', ts, next, pushed) && s'.t >= 0 && s'.t < |s'.o| && s'.o[s'.t] == next
    ensures PageList(s'.pages, s'.o, s'.t)[s'.t] == []
  {
    hide Idle, TailOk, Accounted, Shape, Timed;
    TailFacts(s);
    assert next != s.h.tail by { NextIsOther(s, s', ts, next, pushed); }
    assert |s.pages[next].data| == PAGE && s.pages[next].stamp < TWO64;
    ClearedEmpty(s.pages[next]);
    hide Cleared, LeftPage, Contents, Whole, QueueOk;
  }

  lemma NextIsOther(s: Ring, s': Ring, ts: nat, next: nat, pushed: bool)
    requires Ok(s) && MovedTo(s, s', ts, next, pushed)
    ensures next != s.h.tail && next != s.h.reader
    ensures forall i :: 0 <= i <= s.t && s.o[i] == next ==> pushed && i == 0
    ensures forall i :: 0 <= i < s.t ==> s.o[i] != s.h.tail
  {
    hide Idle, TailOk, Accounted, Shape, Timed, MovedFrom, Left, Whole, Readable;
    TailFacts(s);
  }

  lemma MovedOthers(s: Ring, s': Ring, ts: nat, next: nat, pushed: bool)
    requires Ok(s) && s.open.None? && MovedTo(s, s', ts, next, pushed)
    requires |s'.o| == |s.o| && s'.t == (if pushed then s.t else s.t + 1)
      && forall i :: 0 <= i < s'.t ==> s'.o[i] == s.o[if pushed then i + 1 else i]
    ensures forall i :: 0 <= i < s'.t ==>
      PageList(s'.pages, s'.o, s'.t)[i] == PageList(s.pages, s.o, s.t)[if pushed then i + 1 else i]
  {
    hide Idle, Accounted, Shape, Timed;
    Bounds(s);
    TailFacts(s);
    NextIsOther(s, s', ts, next, pushed);
    if s.t >= 0 {
      LeftPageKeeps(s.pages[s.h.tail]);
      assert Whole(LeftPage(s.pages[s.h.tail]));
    }
    hide Cleared, LeftPage, Contents, Whole, Left, Readable, Reserved, QueueOk;
    forall i | 0 <= i < s'.t
      ensures PageList(s'.pages, s'.o, s'.t)[i] == PageList(s.pages, s.o, s.t)[if pushed then i + 1 else i]
    {
      var k := s'.o[i];
      assert k != next;
      assert k != s.h.tail ==> s'.pages[k] == s.pages[k];
    }
  }

  lemma ReaderSideOn(s: Ring, s1: Ring, s2: Ring, size: nat, done: bool)
    requires ReaderSide(s, s1, size, false) && ReaderSide(s1, s2, size, done)
    ensures ReaderSide(s, s2, size, false)
  {
  }

  lemma MovedReader(s: Ring, s': Ring, ts: nat, next: nat, pushed: bool)
    requires Ok(s) && MovedTo(s, s', ts, next, pushed)
    ensures ReaderLeft(s, s')
  {
    IdleFacts(s.h, s.o, s.t);
    hide Idle, TailOk, Accounted, Shape, Timed, QueueOk, Cleared, PadHeader, Splice, Word;
    Bounds(s);
    assert next != s.h.reader;
  }

  /** The clock keeps the stamps of one call on s exact: it does not go back, and if the event goes
      onto the page the tail is on, the distance from the last one can be recorded. */
  ghost predicate InTime(clock: nat -> Clock, s: Ring, here: bool) {
    && (forall k :: s.lastTs <= clock(k)) && (forall j, k :: 0 <= j <= k ==> clock(j) <= clock(k))
    && (here ==> ClockOk(TailWrite(s), s.beforeStamp, s.writeStamp, s.lastTs, clock(0)))
  }

  /** One round of tb_reserve_next_event at clock ts, from s to s': done, or the tail moved on and the
      ring lost its oldest page if it was full. */
  ghost predicate Round(s: Ring, s': Ring, size: nat, ts: nat, done: bool) {
    && ts < TWO64 && Ok(s) && Ok(s') && OnReader(s') == OnReader(s) && s'.h.reader == s.h.reader
    && (if done then
          && s'.open.Open? && s'.open.size == size && s'.open.ts == ts && s'.overrun == s.overrun
          && OnRing(s') == OnRing(s)
        else
          && s'.open.None? && TailWrite(s') == 0 && s'.overrun == s.overrun + |Lost(s)|
          && OnRing(s) == Lost(s) + OnRing(s'))
    && (TailWrite(s) == 0 ==> (done <==> FitsFresh(size, ts, s.writeStamp)))
    && s'.lastTs == ts && s'.beforeStamp == s'.writeStamp == (if done then ts else s.writeStamp)
    && s'.timed ==
       (s.timed && (if done then ClockOk(TailWrite(s), s.beforeStamp, s.writeStamp, s.lastTs, ts) else s.lastTs <= ts))
    && ReaderSide(s, s', size, done) && Turned(s.pages, s.o, s.t, s'.pages, s'.o, s'.t, if done then 0 else 1)
  }

  lemma RoundDone(s: Ring, size: nat, ts: nat, timed': bool)
    requires Ok(s) && s.open.None? && GoodSize(size) && ts < TWO64 && s.h.tail < |s.pages|
      && |s.pages[s.h.tail].data| == PAGE
    requires var p := s.pages[s.h.tail];
      p.write + StampLen(ChooseStamp(p.write, s.beforeStamp, s.writeStamp, ts)) + size <= PAGE
    requires timed' == (s.timed && ClockOk(s.pages[s.h.tail].write, s.beforeStamp, s.writeStamp, s.lastTs, ts))
    ensures var p := s.pages[s.h.tail];
      Round(s, s.(pages := s.pages[s.h.tail := ReservedPage(p, size, s.beforeStamp, s.writeStamp, ts)],
        open := Open(p.write, ChooseStamp(p.write, s.beforeStamp, s.writeStamp, ts), size,
          ChooseDelta(p.write, s.beforeStamp, s.writeStamp, ts), ts, s.writeStamp),
        writeStamp := ts, beforeStamp := ts, timed := timed', lastTs := ts), size, ts, true)
  {
    hide Idle, Core, OnReader, OnRing, Lost, ReservedPage, ChooseDelta, ClockOk, Turned;
    Reserves(s, size, ts, timed');
    FreshStamp(s.beforeStamp, s.writeStamp, ts);
    ReaderBound(s);
    var p := s.pages[s.h.tail];
    ReservedTurned(s, s.(pages := s.pages[s.h.tail := ReservedPage(p, size, s.beforeStamp, s.writeStamp, ts)],
        open := Open(p.write, ChooseStamp(p.write, s.beforeStamp, s.writeStamp, ts), size,
          ChooseDelta(p.write, s.beforeStamp, s.writeStamp, ts), ts, s.writeStamp),
        writeStamp := ts, beforeStamp := ts, timed := timed', lastTs := ts), size, ts);
  }

  lemma ReaderBound(s: Ring)
    requires Ok(s)
    ensures s.h.reader < |s.pages|
  {
    hide Idle, TailOk, Accounted, Shape, Timed;
    Bounds(s);
  }

  lemma RoundMoved(s: Ring, s': Ring, size: nat, ts: nat)
    requires Ok(s) && Ok(s') && s'.open.None? && ts < TWO64 && s.h.tail < |s.pages| && TailWrite(s') == 0
      && s'.h.reader == s.h.reader
    requires s.pages[s.h.tail].write + StampLen(ChooseStamp(s.pages[s.h.tail].write, s.beforeStamp, s.writeStamp, ts))
      + size > PAGE
    requires OnReader(s') == OnReader(s) && OnRing(s) == Lost(s) + OnRing(s') && s'.overrun == s.overrun + |Lost(s)|
    requires s'.timed == (s.timed && s.lastTs <= ts) && s'.lastTs == ts
      && s'.beforeStamp == s'.writeStamp == s.writeStamp && ReaderLeft(s, s')
    requires size <= PAGE && Turned(s.pages, s.o, s.t, s'.pages, s'.o, s'.t, 1)
    ensures Round(s, s', size, ts, false)
  {
    hide Ok, OnReader, OnRing, Lost, ReaderLeft, ChooseStamp, Turned;
    FreshStamp(s.beforeStamp, s.writeStamp, ts);
  }

  /** The rounds of tb_reserve_next_event so far, from `was` to s. */
  ghost predicate Rounds(was: Ring, s: Ring, size: nat, clock: nat -> Clock, loops: nat, ok: bool, lost: seq<Event>,
                         round: nat) {
    && MadeRoom(was, s, lost)
    && (if ok then s.open.Open? && s.open.size == size && s.open.ts == clock(round) else s.open.None?)
    && (loops == 0 ==> s == was && lost == [] && !ok)
    && (loops > 0 && !ok ==> TailWrite(s) == 0)
    && (size + TIME_LEN <= PAGE ==> AtMostOnePage(was, lost) && (loops > 1 ==> ok))
    && (loops > 0 ==> round == loops - 1 && s.lastTs == clock(round) && s.beforeStamp == s.writeStamp)
    && (loops > 0 ==> ReaderSide(was, s, size, ok && round == 0))
    && Turned(was.pages, was.o, was.t, s.pages, s.o, s.t, if ok then round else loops)
    && s.writeStamp == (if ok then clock(round) else was.writeStamp)
    && (forall k :: 1 <= k < (if ok then round else loops) ==> !FitsFresh(size, clock(k), was.writeStamp))
    && (ok && (round > 0 || TailWrite(was) == 0) ==> FitsFresh(size, clock(round), was.writeStamp))
    && (was.timed && InTime(clock, was, ok && round == 0) ==> s.timed)
  }

  lemma RoundsStart(s: Ring, size: nat, clock: nat -> Clock)
    requires Ok(s) && s.open.None?
    ensures Rounds(s, s, size, clock, 0, false, [], 0)
  {
    hide Ok, InTime, Turned;
    MadeNone(s);
    TurnedHere(s);
  }

  lemma RoundsOn(was: Ring, s: Ring, s': Ring, size: nat, clock: nat -> Clock, loops: nat, done: bool, lost: seq<Event>,
                 round: nat)
    returns (lost': seq<Event>)
    requires Rounds(was, s, size, clock, loops, false, lost, round) && Round(s, s', size, clock(loops), done)
    ensures Rounds(was, s', size, clock, loops + 1, done, lost', loops) && Ok(s') && (!done ==> s'.open.None?)
  {
    hide Ok, OnReader, OnRing, Lost, FitsFresh, ReaderSide, Turned;
    FitsWithHeader(size);
    TurnedOn(was, s, s', loops, if done then 0 else 1);
    lost' := MadeMore(was, s, s', done, lost, loops == 0);
    if loops > 0 { ReaderSideOn(was, s, s', size, done); }
    if was.timed && InTime(clock, was, done && loops == 0) { StillTimed(was, s, clock, loops, round); }
    hide MadeRoom, AtMostOnePage, InTime;
  }

  lemma StillTimed(was: Ring, s: Ring, clock: nat -> Clock, loops: nat, round: nat)
    requires forall k :: was.lastTs <= clock(k)
    requires forall j, k :: 0 <= j <= k ==> clock(j) <= clock(k)
    requires if loops == 0 then s == was else round == loops - 1 && s.lastTs == clock(round) && TailWrite(s) == 0
    ensures s.lastTs <= clock(loops)
    ensures loops > 0 ==>
      ClockOk(TailWrite(s), s.beforeStamp, s.writeStamp, s.lastTs, clock(loops)) && InTime(clock, was, false)
  {
  }

  lemma RoundsGive(s: Ring, m: Ring, s': Ring, size: nat, clock: nat -> Clock, ok: bool, lost: seq<Event>, round: nat)
    requires Rounds(m, s', size, clock, round + 1, ok, lost, round) && (!ok ==> round == 999)
    requires s.h == m.h && s.pages == m.pages && s.o == m.o && s.t == m.t && s.timed == m.timed && s.lastTs == m.lastTs
      && s.beforeStamp == m.beforeStamp && s.writeStamp == m.writeStamp
    ensures MadeRoom(m, s', lost) && Ok(s')
    ensures if ok then s'.open.Open? && s'.open.size == size && s'.open.ts == clock(round) else s'.open.None?
    ensures size + TIME_LEN <= PAGE ==> ok && AtMostOnePage(m, lost)
    ensures s'.lastTs == clock(round) && s'.beforeStamp == s'.writeStamp == (if ok then clock(round) else s.writeStamp)
    ensures !ok ==> forall k :: 1 <= k < 1000 ==> !FitsFresh(size, clock(k), s.writeStamp)
    ensures ok && (round > 0 || TailWrite(s) == 0) ==> FitsFresh(size, clock(round), s.writeStamp)
    ensures Turned(s.pages, s.o, s.t, s'.pages, s'.o, s'.t, if ok then round else 1000)
    ensures s.timed && InTime(clock, s, ok && round == 0) ==> s'.timed
    ensures ReaderSide(s, s', size, ok && round == 0)
  {
    hide Ok, FitsFresh, OnReader, OnRing, AtMostOnePage;
    assert InTime(clock, s, ok && round == 0) ==> InTime(clock, m, ok && round == 0);
  }

  /** What a successful round of tb_reserve_next_event leaves of s. */
  ghost predicate Reserving(s: Ring, s': Ring, size: nat, ts: nat) {
    && QueueOf(s) && Ok(s') && OnReader(s') == OnReader(s) && OnRing(s') == OnRing(s)
    && s'.h == s.h && s'.overrun == s.overrun && s'.open.Open? && s'.open.size == size && s'.open.ts == ts
  }

  lemma Reserves(s: Ring, size: nat, ts: nat, timed': bool)
    requires Ok(s) && s.open.None? && GoodSize(size) && ts < TWO64 && s.h.tail < |s.pages|
      && |s.pages[s.h.tail].data| == PAGE
    requires var p := s.pages[s.h.tail];
      p.write + StampLen(ChooseStamp(p.write, s.beforeStamp, s.writeStamp, ts)) + size <= PAGE
    requires timed' == (s.timed && ClockOk(s.pages[s.h.tail].write, s.beforeStamp, s.writeStamp, s.lastTs, ts))
    ensures var p := s.pages[s.h.tail];
      Reserving(s, s.(pages := s.pages[s.h.tail := ReservedPage(p, size, s.beforeStamp, s.writeStamp, ts)],
        open := Open(p.write, ChooseStamp(p.write, s.beforeStamp, s.writeStamp, ts), size,
          ChooseDelta(p.write, s.beforeStamp, s.writeStamp, ts), ts, s.writeStamp),
        writeStamp := ts, beforeStamp := ts, timed := timed', lastTs := ts), size, ts)
  {
    hide Idle, QueueOk, TailOk, Accounted, Shape, Timed, OnReader, OnRing, ReservedPage, ChooseStamp, ChooseDelta;
    TailFacts(s);
    ReservationOk(s, size, ts);
  }

  lemma TailFacts(s: Ring)
    requires Ok(s)
    ensures s.h.tail < |s.pages| && |s.pages[s.h.tail].data| == PAGE && s.pages[s.h.tail].commit <= PAGE
    ensures s.open.None? ==> s.pages[s.h.tail].write == s.pages[s.h.tail].commit
    ensures -1 <= s.t < |s.o| && TailId(s.o, s.t, s.h.reader) == s.h.tail && Tail(s) == s.pages[s.h.tail]
  {
    hide Idle, Shape, Accounted, Timed;
  }

  /** The links TailLinks leaves. */
  ghost predicate MovedLinks(s: Ring, links: HP.State, next: nat, pushed: bool) {
    && links.reader == s.h.reader && links.tail == next && |s.o| >= 2 && -1 <= s.t < |s.o|
    && (pushed <==> s.t == |s.o| - 1)
    && (pushed ==> next == s.o[0] && Idle(links, HP.Rotate(s.o, s.o[0]), s.t))
    && (!pushed ==> next == s.o[s.t + 1] && Idle(links, s.o, s.t + 1))
  }

  ghost predicate CanMove(s: Ring) {
    && |s.o| >= 2 && -1 <= s.t < |s.o| - 1 && s.h.reader < |s.pages|
    && (forall i :: 0 <= i < |s.o| ==> s.o[i] < |s.pages|)
    && TailId(s.o, s.t, s.h.reader) < |s.pages| && |Tail(s).data| == PAGE && Tail(s).commit <= PAGE
  }

  lemma MovedBounds(s: Ring, links: HP.State, next: nat, pushed: bool)
    requires Ok(s) && MovedLinks(s, links, next, pushed)
    ensures next < |s.pages|
  {
    hide Idle, QueueOk, TailOk, Accounted, Shape, Timed;
    Bounds(s);
  }

  /** What tb_move_tail leaves of a ring s, field by field. */
  ghost predicate MovedFrom(s: Ring, s': Ring, ts: nat, next: nat, pushed: bool)
    requires next < |s.pages| && s.h.tail < |s.pages| && |s.pages[s.h.tail].data| == PAGE
      && s.pages[s.h.tail].commit <= PAGE
    requires |s.o| > 0
  {
    && s'.pages == s.pages[next := Cleared(s.pages[next])][s.h.tail := LeftPage(s.pages[s.h.tail])]
    && s'.overrun == (if pushed then s.overrun + s.pages[next].entries else s.overrun)
    && s'.o == (if pushed then HP.Rotate(s.o, s.o[0]) else s.o) && s'.t == (if pushed then s.t else s.t + 1)
    && s'.beforeStamp == s.writeStamp && s'.timed == (s.timed && s.lastTs <= ts) && s'.lastTs == ts
    && s'.readStamp == s.readStamp && s'.writeStamp == s.writeStamp && s'.open == s.open && s'.entries == s.entries
    && s'.readCount == s.readCount && s'.produced == s.produced && s'.rejected == s.rejected
    && s'.discarded == s.discarded && s'.log == s.log && s'.delivered == s.delivered && s'.small == s.small
  }

  ghost predicate MovedTo(s: Ring, s': Ring, ts: nat, next: nat, pushed: bool) {
    && MovedLinks(s, s'.h, next, pushed) && next < |s.pages| && s.h.tail < |s.pages|
    && |s.pages[s.h.tail].data| == PAGE && s.pages[s.h.tail].commit <= PAGE && MovedFrom(s, s', ts, next, pushed)
  }

  lemma Moved(s: Ring, s': Ring, ts: nat, next: nat, pushed: bool)
    requires Ok(s) && s.open.None? && ts < TWO64 && s.h.tail < |s.pages| && (s.small ==> s.pages[s.h.tail].commit > 0)
    requires MovedTo(s, s', ts, next, pushed)
    ensures Ok(s') && s'.h.tail < |s'.pages| && s'.pages[s'.h.tail].write == 0 && s'.h.reader == s.h.reader
    ensures OnReader(s') == OnReader(s) && OnRing(s) == Lost(s) + OnRing(s') && s'.overrun == s.overrun + |Lost(s)|
    ensures s'.timed == (s.timed && s.lastTs <= ts) && s'.lastTs == ts && s'.beforeStamp == s.writeStamp
  {
    hide Idle, Core, Queue, Pushed, Onward, OnReader, OnRing, Lost, HP.Rotate, LeftPage, Cleared;
    MovedOk(s, s'.h, ts, next, pushed);
    MovedIs(s, s'.h, ts, next, pushed);
    assert s' == Onward(Pushed(s), s'.h, ts);
  }

  lemma MovedOk(s: Ring, links: HP.State, ts: nat, next: nat, pushed: bool)
    requires Ok(s) && s.open.None? && ts < TWO64 && s.h.tail < |s.pages| && (s.small ==> s.pages[s.h.tail].commit > 0)
    requires MovedLinks(s, links, next, pushed)
    ensures |s.o| > 0 && s.o[0] < |s.pages| && CanMove(Pushed(s))
    ensures var s' := Onward(Pushed(s), links, ts);
      && Ok(s') && s'.h.tail < |s'.pages| && s'.pages[s'.h.tail].write == 0
      && OnReader(s') == OnReader(s) && OnRing(s) == Lost(s) + OnRing(s') && s'.overrun == s.overrun + |Lost(s)|
  {
    hide Idle, QueueOk, TailOk, Accounted, Shape, Timed, Rest, RingEvents, Lost, LeftPage, Cleared;
    TailFacts(s);
    Bounds(s);
    PushedCore(s);
    var q := Pushed(s);
    Bounds(q);
    OnwardCore(q, links, ts);
    MovedPlace(s, q, next, pushed);
  }

  /** tb_move_tail, spelled out on the fields. */
  lemma MovedIs(s: Ring, links: HP.State, ts: nat, next: nat, pushed: bool)
    requires Ok(s) && MovedLinks(s, links, next, pushed) && |s.o| > 0 && s.o[0] < |s.pages| && CanMove(Pushed(s))
    ensures next < |s.pages| && s.h.tail < |s.pages| && |s.pages[s.h.tail].data| == PAGE
      && s.pages[s.h.tail].commit <= PAGE
    ensures MovedFrom(s, Onward(Pushed(s), links, ts), ts, next, pushed) && Onward(Pushed(s), links, ts).h == links
  {
    hide Idle, Core, LeftPage, Cleared;
    TailFacts(s);
    MovedPages(s, next, pushed);
  }

  lemma MovedPages(s: Ring, next: nat, pushed: bool)
    requires Core(s) && |s.o| >= 2 && s.o[0] < |s.pages| && CanMove(Pushed(s))
      && s.h.tail == TailId(s.o, s.t, s.h.reader)
    requires (pushed <==> s.t == |s.o| - 1) && -1 <= s.t < |s.o| && next == if pushed then s.o[0] else s.o[s.t + 1]
    ensures next < |s.pages| && s.h.tail < |s.pages| && |s.pages[s.h.tail].data| == PAGE
      && s.pages[s.h.tail].commit <= PAGE
    ensures var q := Pushed(s);
      MovedOn(q.pages, q.o, q.t, q.h.reader) ==
        s.pages[next := Cleared(s.pages[next])][s.h.tail := LeftPage(s.pages[s.h.tail])]
  {
    hide TailOk, Accounted, Shape, Timed, LeftPage, Cleared, QueueOk;
    Bounds(s);
    var q := Pushed(s);
    PushedQueue(s);
    MovedPlace(s, q, next, pushed);
    TailSane(s);
    var a, b := Cleared(s.pages[next]), LeftPage(s.pages[s.h.tail]);
    assert s.pages[next := a][s.h.tail := b] == s.pages[s.h.tail := b][next := a];
  }

  lemma MovedPlace(s: Ring, q: Ring, next: nat, pushed: bool)
    requires QueueOf(s) && |s.o| > 0 && s.o[0] < |s.pages| && q == Pushed(s) && QueueOf(q) && q.t < |q.o| - 1
      && s.h.tail == TailId(s.o, s.t, s.h.reader)
    requires pushed <==> s.t == |s.o| - 1
    requires next == if pushed then s.o[0] else s.o[s.t + 1]
    ensures q.o[q.t + 1] == next && TailId(q.o, q.t, q.h.reader) == s.h.tail && next != s.h.tail
  {
  }

  /** The last known head is a hint only. */
  lemma HintOk(s: Ring, head: nat)
    requires Ok(s) && Settled(s) && |s.o| > 0 && head == s.o[0] && Idle(s.h.(headHint := head), s.o, s.t)
    ensures var s' := s.(h := s.h.(headHint := head)); Ok(s') && Settled(s') && Queue(s') == Queue(s)
  {
    hide Idle, TailOk, Accounted, Timed, QueueOk, Dense;
  }

  /** What tb_per_cpu_empty answers. */
  predicate SeemsEmpty(s: Ring, head: nat)
    requires s.h.reader < |s.pages| && s.h.commit < |s.pages|
  {
    var reader := s.pages[s.h.reader];
    reader.read == reader.commit
      && (s.h.commit == s.h.reader || (s.h.commit == head && s.pages[s.h.commit].commit == 0))
  }

  /** What that tells. */
  lemma EmptyFacts(s: Ring, head: nat)
    requires Ok(s) && Settled(s) && |s.o| > 0 && head == s.o[0]
    ensures s.h.reader < |s.pages| && s.h.commit < |s.pages|
    ensures SeemsEmpty(s, head) ==> Queue(s) == []
    ensures Queue(s) == [] ==>
      (SeemsEmpty(s, head) <==> s.pages[s.h.reader].read == s.pages[s.h.reader].commit && s.t <= 0)
    ensures s.small && Queue(s) == [] ==>
      (SeemsEmpty(s, head) <==> s.pages[s.h.reader].read == s.pages[s.h.reader].commit)
    ensures s.small && s.discarded == 0 && s.open.None? ==> (SeemsEmpty(s, head) <==> Queue(s) == [])
  {
    CommitIsTail(s);
    if s.t == -1 { EmptyOnReader(s, head); } else { EmptyOnRing(s, head); }
    hide Ok, Settled, Queue, SeemsEmpty;
  }

  lemma CommitIsTail(s: Ring)
    requires Ok(s)
    ensures s.h.commit == s.h.tail < |s.pages| && s.h.reader < |s.pages| && (s.h.commit == s.h.reader <==> s.t == -1)
    ensures s.t >= 0 ==> s.t < |s.o| && s.h.commit == s.o[s.t] && (|s.o| > 0 && s.h.commit == s.o[0] ==> s.t == 0)
  {
    IdleFacts(s.h, s.o, s.t);
    TailFacts(s);
    ReaderBound(s);
    hide Idle, Core;
  }

  lemma EmptyOnReader(s: Ring, head: nat)
    requires Ok(s) && s.t == -1 && |s.o| > 0 && head == s.o[0] && s.h.reader < |s.pages| && s.h.commit < |s.pages|
    ensures SeemsEmpty(s, head) <==> Queue(s) == []
    ensures SeemsEmpty(s, head) <==> s.pages[s.h.reader].read == s.pages[s.h.reader].commit
  {
    CommitIsTail(s);
    hide Idle, Accounted, Timed;
    var reader := s.pages[s.h.reader];
    assert RingEvents(s.pages, s.o, 0) == [];
    if reader.read == reader.commit { RestNone(reader, s.readStamp); }
    else { DenseHasEvent(reader.data, reader.read, reader.commit, Base(reader, s.readStamp)); }
  }

  lemma EmptyOnRing(s: Ring, head: nat)
    requires Ok(s) && Settled(s) && s.t >= 0 && |s.o| > 0 && head == s.o[0] && s.h.reader < |s.pages|
      && s.h.commit < |s.pages|
    ensures SeemsEmpty(s, head) ==> Queue(s) == []
    ensures Queue(s) == [] ==>
      (SeemsEmpty(s, head) <==> s.pages[s.h.reader].read == s.pages[s.h.reader].commit && s.t <= 0)
    ensures s.small && Queue(s) == [] ==>
      (SeemsEmpty(s, head) <==> s.pages[s.h.reader].read == s.pages[s.h.reader].commit)
    ensures s.small && s.discarded == 0 && s.open.None? ==> (SeemsEmpty(s, head) <==> Queue(s) == [])
  {
    CommitIsTail(s);
    hide Idle, Accounted, Timed;
    var reader, tail := s.pages[s.h.reader], s.pages[s.h.commit];
    if reader.read == reader.commit { RestNone(reader, s.readStamp); }
    if tail.commit > 0 { DenseHasEvent(tail.data, 0, tail.commit, tail.stamp); }
    if s.t == 0 && tail.commit == 0 {
      EmptyPage(tail.data, tail.data, tail.stamp, tail.stamp);
      assert RingEvents(s.pages, s.o, 1) == RingEvents(s.pages, s.o, 0) + Contents(tail);
    }
    RingEventsLast(s);
  }

  lemma RingEventsLast(s: Ring)
    requires QueueOf(s) && s.t >= 0
    ensures Contents(s.pages[s.o[s.t]]) != [] ==> Queue(s) != []
    ensures s.t > 0 && Contents(s.pages[s.o[0]]) != [] ==> Queue(s) != []
    ensures s.t == 0 && Contents(s.pages[s.o[0]]) == [] ==> OnRing(s) == []
  {
    RingFront(s.pages, s.o, s.t + 1);
    hide Contents, Whole, Readable;
  }

  /** What the event at the read index tells tb_buffer_peek. */
  lemma PeekFacts(s: Ring)
    requires Ok(s) && s.h.reader < |s.pages| && s.pages[s.h.reader].read < s.pages[s.h.reader].commit
    ensures var p := s.pages[s.h.reader];
      && EventHere(p) && p.read + 8 <= |p.data| && s.readStamp < TWO64
      && (TypeLen(p.data, p.read) <= DATA_MAX ==>
            && DataStart(p.data, p.read) <= p.read + DataLength(p.data, p.read) <= |p.data|
            && EventOf(p, s.readStamp) ==
               Event(Body(p.data, p.read), (s.readStamp + TimeDelta(p.data, p.read)) % TWO64))
      && (TypeLen(p.data, p.read) > PADDING ==>
            && TypeLen(p.data, p.read) <= TIME_STAMP
            && EventLength(p.data, p.read) == TIME_LEN && p.read + 16 <= p.commit <= |p.data|
            && TypeLen(p.data, p.read + 8) <= DATA_MAX && TimeDelta(p.data, p.read + 8) == 0
            && HeaderTime(p.data, p.read) < TWO59
            && (TypeLen(p.data, p.read) == TIME_STAMP ==>
                 StampAfter(p.data, p.read, s.readStamp) == HeaderTime(p.data, p.read)))
  {
    hide Idle, Shape, TailOk, Timed, Accounted;
    var p := s.pages[s.h.reader];
    ReadableEvent(p, s.readStamp);
    HeaderBound(p.data, p.read);
  }

  /** A data event at the read index is the first unread event. */
  lemma OnReaderFirst(s: Ring)
    requires Ok(s) && s.h.reader < |s.pages| && s.pages[s.h.reader].read < s.pages[s.h.reader].commit
      && EventHere(s.pages[s.h.reader])
    requires TypeLen(s.pages[s.h.reader].data, s.pages[s.h.reader].read) <= DATA_MAX
    ensures OnReader(s) != [] && Queue(s) != [] && Queue(s)[0] == OnReader(s)[0]
  {
    hide Idle, Shape, TailOk, Timed, Accounted;
    var p := s.pages[s.h.reader];
    ReadableEvent(p, s.readStamp);
    QueueParts(s);
  }

  lemma EventHereFacts(p: Page)
    requires EventHere(p)
    ensures p.read + 8 <= |p.data| && EventLength(p.data, p.read) >= 8
      && p.read + EventLength(p.data, p.read) <= p.commit
  {
  }

  lemma AdvancedIs(s: Ring)
    requires s.h.reader < |s.pages| && EventHere(s.pages[s.h.reader])
    ensures var p := s.pages[s.h.reader]; var data := TypeLen(p.data, p.read) <= DATA_MAX;
      Advanced(s) == s.(pages := s.pages[s.h.reader := p.(read := p.read + EventLength(p.data, p.read))],
                        readStamp := StampAfter(p.data, p.read, s.readStamp),
                        readCount := if data then s.readCount + 1 else s.readCount,
                        delivered := if data then s.delivered + [EventOf(p, s.readStamp)] else s.delivered)
  {
  }

  lemma StampedIs(s: Ring)
    requires s.h.reader < |s.pages|
    ensures Stamped(s) ==
      s.(readStamp := if s.pages[s.h.reader].read == 0 then s.pages[s.h.reader].stamp else s.readStamp)
  {
  }

  /** What the tests of tb_get_reader_page tell. */
  lemma ReaderFacts(s: Ring)
    requires Ok(s)
    ensures s.h.reader < |s.pages| && s.pages[s.h.reader].read <= s.pages[s.h.reader].commit <= PAGE
    ensures s.h.commit == s.h.reader <==> s.t == -1
    ensures s.t >= -1
    ensures s.pages[s.h.reader].read < s.pages[s.h.reader].commit ==> EventHere(s.pages[s.h.reader])
    ensures s.entries - (s.overrun + s.readCount) == |Queue(s)|
    ensures s.t == -1 && s.pages[s.h.reader].read == s.pages[s.h.reader].commit ==> Queue(s) == []
    ensures s.entries - (s.overrun + s.readCount) != 0 ==> s.entries > 0
  {
    IdleFacts(s.h, s.o, s.t);
    hide Idle, Shape, TailOk, Timed, Subseq, EventHere;
    if s.pages[s.h.reader].read < s.pages[s.h.reader].commit { ReadableEvent(s.pages[s.h.reader], s.readStamp); }
    if s.t == -1 && s.pages[s.h.reader].read == s.pages[s.h.reader].commit {
      RestNone(s.pages[s.h.reader], s.readStamp);
      assert RingEvents(s.pages, s.o, 0) == [];
    }
  }

  lemma SwapFacts(s: Ring)
    requires Ok(s)
    ensures s.h.reader < |s.pages| && |s.o| >= 2 && s.o[0] < |s.pages| && s.o[0] != s.h.reader && -1 <= s.t < |s.o|
    ensures s.t > 0 ==> s.pages[s.o[0]].commit > 0
  {
    hide Idle, Shape, TailOk, Accounted, Timed;
    if s.t > 0 { assert Left(s.pages[s.o[0]]); }
  }

  lemma SwappedIs(s: Ring, links: HP.State)
    requires s.h.reader < |s.pages| && |s.o| > 0 && s.o[0] < |s.pages| && s.o[0] != s.h.reader
    ensures Swapped(s, links) ==
      s.(pages := s.pages[s.h.reader := Cleared(s.pages[s.h.reader])][s.o[0] := s.pages[s.o[0]].(read := 0)],
         h := links, o := HP.Rotate(s.o, s.h.reader), t := s.t - 1)
  {
  }

  // ------------------------------------------------------------------------------------------
  // tb_per_cpu_empty can miss that a ring is empty.
  // ------------------------------------------------------------------------------------------

  /** The first reservation on a fresh ring lies on an empty page. */
  lemma FirstReserved(s: Ring)
    requires Ok(s) && s.open.Open? && s.discarded == 0 && s.log == [] && s.small
    ensures s.t == 0 && TailCommit(s) == 0 && s.open.size <= TailWrite(s) <= s.open.size + TIME_LEN
  {
    TailFacts(s);
    hide Idle, QueueOk, Timed;
  }

  lemma OnlyReader(s: Ring)
    requires Ok(s) && s.t == -1
    ensures s.h.tail == s.h.reader && s.h.reader < |s.pages|
  {
    TailFacts(s);
    hide Idle, Core;
  }

  lemma TailKept(s: Ring, s': Ring)
    requires Ok(s) && Ok(s') && KeepsTail(s, s') && s.h.reader < |s.pages| && s.pages[s.h.reader].commit == 0
      && s.t == 0
    requires s'.h.reader < |s'.pages| && s'.pages[s'.h.reader].commit > 0
    ensures TailCommit(s') == TailCommit(s) && s'.h.tail == s'.h.reader < |s'.pages|
  {
    hide Ok, KeepsTail;
    TailFacts(s);
    TailFacts(s');
    SameTailGives(s, s');
    OnlyReader(s');
  }

  lemma SameTailGives(s: Ring, s': Ring)
    requires KeepsTail(s, s')
    ensures -1 <= s'.t <= s.t < |s.o| && s'.t < |s'.o| && TailId(s.o, s.t, s.h.reader) < |s.pages|
      && TailId(s'.o, s'.t, s'.h.reader) < |s'.pages|
    ensures Tail(s').commit == Tail(s).commit
    ensures s'.t == s.t ==>
      s'.h == s.h && s.h.reader < |s.pages| && s.h.reader < |s'.pages|
        && s'.pages[s.h.reader].commit == s.pages[s.h.reader].commit
  {
    hide Passes;
    Bounds(s);
    Bounds(s');
  }

  /** A reservation does not touch a reader page the tail is not on. */
  lemma ReaderKept(s: Ring, s': Ring, size: nat, here: bool)
    requires ReaderSide(s, s', size, here) && s.h.tail != s.h.reader
    ensures s'.h.reader == s.h.reader < |s'.pages| && s.h.reader < |s.pages|
    ensures s'.pages[s.h.reader].commit == s.pages[s.h.reader].commit && s'.h.tail != s'.h.reader
  {
  }

  lemma NotOnReader(s: Ring)
    requires Ok(s) && s.t == 0
    ensures s.h.tail != s.h.reader < |s.pages|
  {
    IdleFacts(s.h, s.o, s.t);
    ReaderBound(s);
    hide Idle, Core;
  }

  /** An event of 4000 bytes, written ... */
  method WriteOne(clock: nat -> Clock) returns (ring: PerCpu)
    ensures fresh(ring) && ring.Valid() && ring.open.None? && ring.small && ring.discarded == 0 && |ring.Events()| == 1
    ensures ring.t == 0 && 4008 <= TailCommit(ring.Snap()) <= 4016
    ensures ring.h.reader < |ring.pages| && ring.pages[ring.h.reader].commit == 0
  {
    hide Ok, Settled, Queue, OnReader, OnRing, Lost, Area, Tail, Reserved, OpenEvent, ReaderSide, InTime, FitsFresh;
    ring := new PerCpu(0);
    ghost var s := ring.Snap();
    NotOnReader(s);
    var ok, lost, round := ring.Reserve(4000, clock);
    assert CalcLength(4000) == 4008;
    hide CalcLength;
    FirstReserved(ring.Snap());
    ReaderKept(s, ring.Snap(), 4008, round == 0);
    MadeEmpty(s, ring.Snap(), lost);
    ring.Commit();
  }

  lemma MadeEmpty(s: Ring, s': Ring, lost: seq<Event>)
    requires Ok(s) && Ok(s') && Queue(s) == [] && OnReader(s') == OnReader(s) && OnRing(s) == lost + OnRing(s')
    ensures Queue(s') == []
  {
    hide Idle, QueueOk, TailOk, Accounted, Shape, Timed, Rest, RingEvents;
    assert |OnRing(s)| == |lost| + |OnRing(s')| && |Queue(s)| == |OnReader(s)| + |OnRing(s)|;
  }

  /** ... and consumed: the tail is then on the reader page, all of which is read. */
  method WriteAndRead(clock: nat -> Clock) returns (ring: PerCpu)
    ensures fresh(ring) && ring.Valid() && ring.open.None? && ring.small && ring.discarded == 0 && ring.Events() == []
    ensures ring.h.tail == ring.h.reader < |ring.pages| && 4008 <= ring.pages[ring.h.reader].commit <= 4016
  {
    hide Ok, Settled, Queue, Area, Tail, Reserved, KeepsTail;
    ring := WriteOne(clock);
    ghost var s := ring.Snap();
    var r := ring.Consume();
    TailKept(s, ring.Snap());
  }

  /** The next event does not fit there: the page is padded to its end, and while the new reservation
      is open, the ring holds no event and yet is not reported empty. */
  method EmptyMissed(clock: nat -> Clock) returns (ring: PerCpu, r: bool)
    ensures ring.Valid() && ring.open.Open? && ring.small && ring.discarded == 0
    ensures ring.Events() == [] && !r
  {
    hide Ok, Settled, Queue, OnReader, OnRing, Lost, Area, Tail, Reserved, InTime, FitsFresh;
    ring := WriteAndRead(clock);
    r := ring.IsEmpty();
    ghost var s := ring.Snap();
    var ok, lost, round := ring.Reserve(4000, clock);
    assert CalcLength(4000) == 4008;
    MadeEmpty(s, ring.Snap(), lost);
    assert s.pages[s.h.reader].read == s.pages[s.h.reader].commit;
    TailFacts(s);
    assert TailWrite(s) >= 4008;
    assert ReaderLeft(s, ring.Snap());
    r := ring.IsEmpty();
  }

  /** A request that leaves no room for a time header is turned down if every clock reading needs
      one, and by then the tail is past the head page ... */
  method Overlarge(size: nat, clock: nat -> Clock) returns (ring: PerCpu)
    requires forall k :: clock(k) >= TWO27
    ensures fresh(ring) && ring.Valid() && ring.open.None? && ring.discarded == 0 && ring.log == []
      && ring.rejected == 1
    ensures ring.Events() == [] && ring.t >= 1
  {
    hide Ok, Settled, Queue, OnReader, OnRing, Lost, Area, Tail, Reserved, InTime, ReaderSide, TailWrite, FitsFresh;
    ring := new PerCpu(size);
    ghost var s := ring.Snap();
    NeedsHeader(clock);
    var ok, lost, round := ring.Reserve(4072, clock);
    MadeEmpty(s, ring.Snap(), lost);
  }

  lemma NeedsHeader(clock: nat -> Clock)
    requires forall k :: clock(k) >= TWO27
    ensures CalcLength(4072) == PAGE && forall k :: !FitsFresh(CalcLength(4072), clock(k), 0)
  {
  }

  /** ... so that nothing was ever committed, there is nothing to consume, no reservation is open, and
      the ring is not reported empty. */
  method EmptyMissedForLarge(size: nat, clock: nat -> Clock) returns (ring: PerCpu, got: Peeked, r: bool)
    requires forall k :: clock(k) >= TWO27
    ensures ring.Valid() && ring.open.None? && ring.discarded == 0 && ring.log == [] && ring.rejected == 1
    ensures got.Nothing? && ring.Events() == [] && ring.Spent() && !r
  {
    hide Ok, Settled, Queue, KeepsTail;
    ring := Overlarge(size, clock);
    ghost var s := ring.Snap();
    got := ring.Consume();
    EmptyStays(s, ring.Snap());
    r := ring.IsEmpty();
  }

  lemma EmptyStays(s: Ring, s': Ring)
    requires KeepsTail(s, s') && Queue(s) == []
    ensures s'.t == s.t
  {
    hide Queue, OnRing, QueueOf;
  }
}
