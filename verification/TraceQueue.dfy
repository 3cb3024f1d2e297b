/** How each change to the pages of the ring changes the queue of unread events. */
module TraceQueue {
  import opened Bytes
  import opened TraceEvent
  import opened TracePages
  import HP = HeadProtocol

  /** The pages in read order: `reader`, then o[0] .. o[t]; the tail is o[t], or `reader` if t is -1. */
  ghost predicate Ordered(pages: seq<Page>, o: seq<nat>, t: int, reader: nat) {
    && |o| >= 2 && |pages| == |o| + 1 && -1 <= t < |o|
    && reader < |pages| && reader !in o
    && (forall i :: 0 <= i < |o| ==> o[i] < |pages|)
    && HP.Distinct(o)
  }

  ghost predicate QueueOk(pages: seq<Page>, o: seq<nat>, t: int, reader: nat, rs: nat) {
    && Ordered(pages, o, t, reader)
    && (forall p :: 0 <= p < |pages| ==> |pages[p].data| == PAGE && pages[p].stamp < TWO64)
    && Readable(pages[reader], rs)
    && RingWhole(pages, o, t + 1)
    && (forall i :: 0 <= i < t ==> Left(pages[o[i]]))
  }

  function TailId(o: seq<nat>, t: int, reader: nat): nat
    requires -1 <= t < |o|
  {
    if t == -1 then reader else o[t]
  }

  /** Every committed event not yet consumed, oldest first. */
  ghost function Unread(pages: seq<Page>, o: seq<nat>, t: int, reader: nat, rs: nat): seq<Event>
    requires QueueOk(pages, o, t, reader, rs)
  {
    Rest(pages[reader], rs) + RingEvents(pages, o, t + 1)
  }

  /** The running stamp at the commit index of the tail page. */
  ghost function TailStamp(pages: seq<Page>, o: seq<nat>, t: int, reader: nat, rs: nat): nat
    requires QueueOk(pages, o, t, reader, rs)
  {
    if t == -1 then StampAt(pages[reader].data, pages[reader].read, pages[reader].commit, Base(pages[reader], rs))
    else StampAt(pages[o[t]].data, 0, pages[o[t]].commit, pages[o[t]].stamp)
  }

  /** The tail page: committed up to `commit`, with at most one reservation behind it. */
  ghost predicate TailOk(p: Page, t: int, res: Reservation) {
    && Reserved(p, res)
    && (t >= 0 ==> Whole(p) && p.entries == |Contents(p)| + (if res.Open? then 1 else 0))
  }

  // ------------------------------------------------------------------------------------------
  // The writer.
  // ------------------------------------------------------------------------------------------

  /** Writing behind the commit index of the tail page is invisible. */
  ghost predicate Behind(p: Page, p': Page) {
    && |p'.data| == PAGE && p'.commit == p.commit && p'.read == p.read && p'.stamp < TWO64
    && (p.commit > 0 ==> p'.stamp == p.stamp)
    && SameBytes(p.data, p'.data, 0, p.commit)
  }

  lemma WriteBehind(pages: seq<Page>, o: seq<nat>, t: int, reader: nat, rs: nat, p': Page)
    requires QueueOk(pages, o, t, reader, rs) && Behind(pages[TailId(o, t, reader)], p')
    ensures var pages' := pages[TailId(o, t, reader) := p'];
      && QueueOk(pages', o, t, reader, rs)
      && Unread(pages', o, t, reader, rs) == Unread(pages, o, t, reader, rs)
      && RingEvents(pages', o, t + 1) == RingEvents(pages, o, t + 1)
      && (p'.commit > 0 ==> TailStamp(pages', o, t, reader, rs) == TailStamp(pages, o, t, reader, rs))
      && (t >= 0 ==> Contents(p') == Contents(pages[o[t]]))
  {
    var k := TailId(o, t, reader);
    var p, pages' := pages[k], pages[k := p'];
    hide Left, Decode, StampAt, Tiled;
    if t == -1 {
      SameTiling(p.data, p'.data, p.read, p.commit, Base(p, rs));
      EmptyPage(p.data, p'.data, Base(p, rs), Base(p', rs));
      RingSame(pages, o, pages', o, 0);
    } else {
      SameTiling(p.data, p'.data, 0, p.commit, p.stamp);
      EmptyPage(p.data, p'.data, p.stamp, p'.stamp);
      RingSame(pages, o, pages', o, t);
      assert Whole(p');
    }
  }

  lemma EmptyPage(d: seq<byte>, e: seq<byte>, a: nat, b: nat)
    ensures Tiled(d, 0, 0) && Tiled(e, 0, 0) && Decode(d, 0, 0, a) == Decode(e, 0, 0, b) == []
  {
  }

  lemma CommitWhole(p: Page, res: Reservation)
    requires Whole(p) && res.Open? && Reserved(p, res)
    ensures var p' := p.(commit := p.write);
      var stamp := Recovered(res.st, res.delta, StampAt(p.data, 0, p.commit, p.stamp));
      && Whole(p') && Reserved(p', None)
      && Contents(p') == Contents(p) + [Event(Area(p, res), stamp)]
      && StampAt(p'.data, 0, p'.commit, p'.stamp) == stamp
  {
    hide Decode, StampAt, Tiled, EventHeader;
    StampBounded(p.data, 0, p.commit, p.stamp);
    CommitAppends(p, res, 0, p.stamp);
  }

  lemma CommitRest(p: Page, rs: nat, res: Reservation)
    requires Readable(p, rs) && res.Open? && Reserved(p, res)
    ensures var p' := p.(commit := p.write);
      var stamp := Recovered(res.st, res.delta, StampAt(p.data, p.read, p.commit, Base(p, rs)));
      && Readable(p', rs) && Reserved(p', None)
      && Rest(p', rs) == Rest(p, rs) + [Event(Area(p, res), stamp)]
      && StampAt(p'.data, p'.read, p'.commit, Base(p', rs)) == stamp
  {
    hide Decode, StampAt, Tiled, EventHeader;
    StampBounded(p.data, p.read, p.commit, Base(p, rs));
    CommitAppends(p, res, p.read, Base(p, rs));
  }

  /** Committing the reservation appends its event to the queue. */
  lemma CommitTail(pages: seq<Page>, o: seq<nat>, t: int, reader: nat, rs: nat, res: Reservation)
    requires QueueOk(pages, o, t, reader, rs) && res.Open? && TailOk(pages[TailId(o, t, reader)], t, res)
    ensures var k := TailId(o, t, reader); var p := pages[k];
      var pages' := pages[k := p.(commit := p.write)];
      var ev := Event(Area(p, res), Recovered(res.st, res.delta, TailStamp(pages, o, t, reader, rs)));
      && QueueOk(pages', o, t, reader, rs) && TailOk(pages'[k], t, None)
      && Unread(pages', o, t, reader, rs) == Unread(pages, o, t, reader, rs) + [ev]
      && TailStamp(pages', o, t, reader, rs) == ev.ts
  {
    if t == -1 { CommitReader(pages, o, reader, rs, res); } else { CommitRing(pages, o, t, reader, rs, res); }
    hide QueueOk, TailOk, Area, Recovered, TailStamp, Unread;
  }

  lemma CommitReader(pages: seq<Page>, o: seq<nat>, reader: nat, rs: nat, res: Reservation)
    requires QueueOk(pages, o, -1, reader, rs) && res.Open? && TailOk(pages[reader], -1, res)
    ensures var p := pages[reader]; var pages' := pages[reader := p.(commit := p.write)];
      var ev := Event(Area(p, res), Recovered(res.st, res.delta, TailStamp(pages, o, -1, reader, rs)));
      && QueueOk(pages', o, -1, reader, rs) && TailOk(pages'[reader], -1, None)
      && Unread(pages', o, -1, reader, rs) == Unread(pages, o, -1, reader, rs) + [ev]
      && TailStamp(pages', o, -1, reader, rs) == ev.ts
  {
    var p := pages[reader];
    CommitRest(p, rs, res);
    hide Left, Reserved, Whole, Readable, Recovered, Area, Rest, Contents, StampAt;
    var pages' := pages[reader := p.(commit := p.write)];
    RingSame(pages, o, pages', o, 0);
    assert RingEvents(pages, o, 0) == [] && RingEvents(pages', o, 0) == [];
    hide RingEvents;
  }

  lemma CommitRing(pages: seq<Page>, o: seq<nat>, t: nat, reader: nat, rs: nat, res: Reservation)
    requires QueueOk(pages, o, t, reader, rs) && res.Open? && TailOk(pages[o[t]], t, res)
    ensures var p := pages[o[t]]; var pages' := pages[o[t] := p.(commit := p.write)];
      var ev := Event(Area(p, res), Recovered(res.st, res.delta, TailStamp(pages, o, t, reader, rs)));
      && QueueOk(pages', o, t, reader, rs) && TailOk(pages'[o[t]], t, None)
      && Unread(pages', o, t, reader, rs) == Unread(pages, o, t, reader, rs) + [ev]
      && TailStamp(pages', o, t, reader, rs) == ev.ts
  {
    var p := pages[o[t]];
    CommitWhole(p, res);
    hide Left, Reserved, Whole, Readable, Recovered, Area, Rest, Contents, StampAt;
    var pages' := pages[o[t] := p.(commit := p.write)];
    RingSame(pages, o, pages', o, t);
    assert RingEvents(pages, o, t + 1) == RingEvents(pages, o, t) + Contents(p);
    assert RingEvents(pages', o, t + 1) == RingEvents(pages', o, t) + Contents(pages'[o[t]]);
    hide RingEvents;
  }

  /** A page after tb_reset_tail and the commit that follows: filled with padding when an event
      could still have fitted, else cut where it is (with a null event behind the cut, if there is room). */
  function LeftPage(p: Page): Page
    requires |p.data| == PAGE && p.commit <= PAGE
  {
    if p.commit > PAGE - MIN_SIZE then
      p.(data := if p.commit + HDR <= PAGE then Splice(p.data, p.commit, Word(PADDING)) else p.data, write := p.commit)
    else p.(data := Splice(p.data, p.commit, PadHeader(PAGE - p.commit)), write := PAGE, commit := PAGE)
  }

  /** Where a page ends that the writer has left: at its end, or behind its last event, if no other has
      room there; and if a header has, it is that of a null event. */
  lemma LeftPageEnds(p: Page)
    requires |p.data| == PAGE && p.commit <= PAGE
    ensures var q := LeftPage(p);
      && q.write == q.commit && (q.commit == PAGE || PAGE - MIN_SIZE < q.commit == p.commit)
      && (PAGE - MIN_SIZE < q.commit <= PAGE - HDR ==> q.data[q.commit..q.commit + 4] == [29, 0, 0, 0])
  {
    SmallWord(PADDING);
    hide Word;
  }

  lemma LeftPageKeeps(p: Page)
    requires Whole(p) && p.entries == |Contents(p)|
    ensures Left(LeftPage(p)) && Contents(LeftPage(p)) == Contents(p)
  {
    hide Decode, StampAt, Tiled, Word;
    if p.commit <= PAGE - MIN_SIZE {
      PadAppendsNothing(p.data, 0, p.commit, p.stamp);
    } else {
      SameTiling(p.data, LeftPage(p).data, 0, p.commit, p.stamp);
    }
  }

  lemma LeftPageRest(p: Page, rs: nat)
    requires Readable(p, rs)
    ensures Readable(LeftPage(p), rs) && Rest(LeftPage(p), rs) == Rest(p, rs)
  {
    hide Decode, StampAt, Tiled, Word;
    if p.commit <= PAGE - MIN_SIZE {
      PadAppendsNothing(p.data, p.read, p.commit, Base(p, rs));
    } else {
      SameTiling(p.data, LeftPage(p).data, p.read, p.commit, Base(p, rs));
    }
  }

  /** tb_tail_page_update: the page about to become the tail. */
  function Cleared(p: Page): Page { p.(write := 0, entries := 0, commit := 0) }

  /** The pages after the tail has moved to o[t + 1]. */
  function MovedOn(pages: seq<Page>, o: seq<nat>, t: int, reader: nat): seq<Page>
    requires -1 <= t < |o| - 1 && TailId(o, t, reader) < |pages| && o[t + 1] < |pages|
    requires |pages[TailId(o, t, reader)].data| == PAGE && pages[TailId(o, t, reader)].commit <= PAGE
  {
    pages[TailId(o, t, reader) := LeftPage(pages[TailId(o, t, reader)])][o[t + 1] := Cleared(pages[o[t + 1]])]
  }

  lemma MoveOffReader(pages: seq<Page>, o: seq<nat>, reader: nat, rs: nat)
    requires QueueOk(pages, o, -1, reader, rs)
    ensures var pages' := MovedOn(pages, o, -1, reader);
      && QueueOk(pages', o, 0, reader, rs)
      && RingEvents(pages', o, 1) == [] && Rest(pages'[reader], rs) == Rest(pages[reader], rs)
  {
    var p, n := pages[reader], o[0];
    var pages' := MovedOn(pages, o, -1, reader);
    ClearedEmpty(pages[n]);
    LeftPageRest(p, rs);
    assert |LeftPage(p).data| == PAGE;
    hide Left, Whole, Readable, Contents, Rest, LeftPage;
    assert RingEvents(pages', o, 1) == RingEvents(pages', o, 0) + Contents(pages'[n]);
  }

  /** Same contents on the last page, and an empty page behind it. */
  lemma RingExtend(pages: seq<Page>, pages': seq<Page>, o: seq<nat>, t: nat)
    requires t + 1 < |o| && RingWhole(pages, o, t + 1) && RingWhole(pages', o, t + 2)
    requires forall i :: 0 <= i < t ==> pages'[o[i]] == pages[o[i]]
    requires Contents(pages'[o[t]]) == Contents(pages[o[t]]) && Contents(pages'[o[t + 1]]) == []
    ensures RingEvents(pages', o, t + 2) == RingEvents(pages, o, t + 1)
  {
    RingSame(pages, o, pages', o, t);
    hide Whole, Contents;
    assert RingEvents(pages', o, t + 1) == RingEvents(pages, o, t + 1);
  }

  lemma LeftBehind(pages: seq<Page>, pages': seq<Page>, o: seq<nat>, t: nat, reader: nat, rs: nat)
    requires QueueOk(pages, o, t, reader, rs) && t + 1 < |o| && |pages'| == |pages|
    requires Left(pages'[o[t]]) && pages'[o[t]].stamp < TWO64 && Whole(pages'[o[t + 1]])
    requires forall p :: 0 <= p < |pages| && p != o[t] && p != o[t + 1] ==> pages'[p] == pages[p]
    ensures QueueOk(pages', o, t + 1, reader, rs) && pages'[reader] == pages[reader]
    ensures forall i :: 0 <= i < t ==> pages'[o[i]] == pages[o[i]]
  {
    hide Contents, Readable, Tiled;
  }

  lemma MoveOffRing(pages: seq<Page>, o: seq<nat>, t: int, reader: nat, rs: nat)
    requires QueueOk(pages, o, t, reader, rs) && 0 <= t < |o| - 1 && pages[o[t]].entries == |Contents(pages[o[t]])|
    ensures var pages' := MovedOn(pages, o, t, reader);
      && QueueOk(pages', o, t + 1, reader, rs)
      && RingEvents(pages', o, t + 2) == RingEvents(pages, o, t + 1)
      && Rest(pages'[reader], rs) == Rest(pages[reader], rs)
  {
    var p, n := pages[o[t]], o[t + 1];
    var pages' := MovedOn(pages, o, t, reader);
    ClearedEmpty(pages[n]);
    LeftPageKeeps(p);
    assert |LeftPage(p).data| == PAGE && Whole(LeftPage(p));
    hide Left, Whole, Readable, Contents, Rest, LeftPage, Cleared, RingEvents;
    LeftBehind(pages, pages', o, t, reader, rs);
    RingExtend(pages, pages', o, t);
  }

  /** Moving the tail to the next page leaves the queue as it is. */
  lemma MoveOn(pages: seq<Page>, o: seq<nat>, t: int, reader: nat, rs: nat)
    requires QueueOk(pages, o, t, reader, rs) && t < |o| - 1 && TailOk(pages[TailId(o, t, reader)], t, None)
    ensures var pages' := MovedOn(pages, o, t, reader);
      && QueueOk(pages', o, t + 1, reader, rs) && TailOk(pages'[o[t + 1]], t + 1, None)
      && pages'[o[t + 1]] == Cleared(pages[o[t + 1]])
      && RingEvents(pages', o, t + 2) == RingEvents(pages, o, t + 1)
      && Rest(pages'[reader], rs) == Rest(pages[reader], rs)
  {
    ClearedEmpty(pages[o[t + 1]]);
    if t == -1 { MoveOffReader(pages, o, reader, rs); } else { MoveOffRing(pages, o, t, reader, rs); }
    hide Left, Whole, Readable, Contents, Rest, LeftPage;
  }

  /** If every page had an event before the move, so does every page the tail has left. */
  lemma MovedNonempty(pages: seq<Page>, o: seq<nat>, t: int, reader: nat, rs: nat, i: nat)
    requires QueueOk(pages, o, t, reader, rs) && t < |o| - 1 && TailOk(pages[TailId(o, t, reader)], t, None)
    requires QueueOk(MovedOn(pages, o, t, reader), o, t + 1, reader, rs) && i <= t
    requires Contents(pages[o[i]]) != []
    ensures Contents(MovedOn(pages, o, t, reader)[o[i]]) != []
  {
    if i == t { LeftPageKeeps(pages[o[t]]); }
    hide Left, Whole, Readable, Contents, Rest, LeftPage;
    assert MovedOn(pages, o, t, reader)[o[i]] == if i == t then LeftPage(pages[o[t]]) else pages[o[i]];
  }

  lemma ClearedEmpty(p: Page)
    requires |p.data| == PAGE && p.stamp < TWO64
    ensures Whole(Cleared(p)) && Contents(Cleared(p)) == [] && TailOk(Cleared(p), 0, None)
  {
  }

  /** Pushing the head of a full ring drops exactly the events of its oldest page. */
  lemma DropHead(pages: seq<Page>, o: seq<nat>, t: int, reader: nat, rs: nat)
    requires QueueOk(pages, o, t, reader, rs) && t == |o| - 1
    ensures var o' := HP.Rotate(o, o[0]);
      && QueueOk(pages, o', t - 1, reader, rs)
      && TailId(o', t - 1, reader) == TailId(o, t, reader)
      && RingEvents(pages, o, t + 1) == Contents(pages[o[0]]) + RingEvents(pages, o', t)
      && pages[o[0]].entries == |Contents(pages[o[0]])|
      && TailStamp(pages, o', t - 1, reader, rs) == TailStamp(pages, o, t, reader, rs)
  {
    assert Left(pages[o[0]]) && pages[o[0]].entries == |Contents(pages[o[0]])|;
    hide Decode, StampAt, Tiled, Left, Whole, Readable, Contents, RingEvents, HP.Distinct;
    TurnedOk(pages, o, t, reader, rs);
    TurnedEvents(pages, o);
  }

  lemma TurnedOk(pages: seq<Page>, o: seq<nat>, t: int, reader: nat, rs: nat)
    requires QueueOk(pages, o, t, reader, rs) && t == |o| - 1
    ensures var o' := HP.Rotate(o, o[0]);
      QueueOk(pages, o', t - 1, reader, rs) && TailId(o', t - 1, reader) == TailId(o, t, reader)
  {
    hide Left, Whole, Readable, HP.Distinct;
    TurnDistinct(o);
  }

  lemma TurnedEvents(pages: seq<Page>, o: seq<nat>)
    requires |o| >= 2 && RingWhole(pages, o, |o|)
    ensures var o' := HP.Rotate(o, o[0]);
      RingWhole(pages, o', |o| - 1)
        && RingEvents(pages, o, |o|) == Contents(pages[o[0]]) + RingEvents(pages, o', |o| - 1)
  {
    hide Whole, Contents;
    RingFront(pages, o, |o|);
    RingSame(pages, o[1..], pages, HP.Rotate(o, o[0]), |o| - 1);
  }

  lemma TurnDistinct(o: seq<nat>)
    requires |o| >= 2 && HP.Distinct(o)
    ensures var o' := HP.Rotate(o, o[0]);
      HP.Distinct(o') && (forall x :: x in o' ==> x in o)
  {
  }

  // ------------------------------------------------------------------------------------------
  // The reader.
  // ------------------------------------------------------------------------------------------

  /** Swapping the exhausted reader page for the head page leaves the queue as it is. */
  lemma SwapReader(pages: seq<Page>, o: seq<nat>, t: int, reader: nat, rs: nat)
    requires QueueOk(pages, o, t, reader, rs) && t >= 0 && pages[reader].read == pages[reader].commit
    ensures var o', reader' := HP.Rotate(o, reader), o[0];
      var pages' := pages[reader := Cleared(pages[reader])][reader' := pages[reader'].(read := 0)];
      && QueueOk(pages', o', t - 1, reader', rs)
      && TailId(o', t - 1, reader') == TailId(o, t, reader)
      && Rest(pages[reader], rs) == []
      && Unread(pages', o', t - 1, reader', rs) == Unread(pages, o, t, reader, rs)
      && TailStamp(pages', o', t - 1, reader', rs) == TailStamp(pages, o, t, reader, rs)
  {
    var o', reader' := HP.Rotate(o, reader), o[0];
    var pages' := pages[reader := Cleared(pages[reader])][reader' := pages[reader'].(read := 0)];
    RestNone(pages[reader], rs);
    hide Decode, StampAt, Tiled;
    assert Rest(pages'[reader'], rs) == Contents(pages[o[0]]);
    RingFront(pages, o, t + 1);
    RingSame(pages, o[1..], pages', o', t);
    assert Ordered(pages', o', t - 1, reader') by { SwapDistinct(o, reader); }
  }

  lemma RestNone(p: Page, rs: nat)
    requires Readable(p, rs) && p.read == p.commit
    ensures Rest(p, rs) == []
  {
  }

  lemma SwapDistinct(o: seq<nat>, reader: nat)
    requires |o| >= 2 && reader !in o && HP.Distinct(o)
    ensures var o' := HP.Rotate(o, reader);
      HP.Distinct(o') && o[0] !in o'
  {
  }

  /** The reader page p, once the reader has stepped over the event at the read index: a data event
      is the first of what was left, anything else yields nothing. */
  ghost predicate StepsTo(p: Page, rs: nat, p': Page, rs': nat) {
    && Readable(p, rs) && Readable(p', rs') && p.read + 8 <= PAGE && EventLength(p.data, p.read) >= 8
    && p' == p.(read := p.read + EventLength(p.data, p.read)) && rs' == StampAfter(p.data, p.read, rs) == Base(p', rs')
    && StampAt(p'.data, p'.read, p'.commit, rs') == StampAt(p.data, p.read, p.commit, rs)
    && if TypeLen(p.data, p.read) <= DATA_MAX
       then DataStart(p.data, p.read) <= p.read + DataLength(p.data, p.read) <= |p.data|
            && Rest(p, rs) == [Event(Body(p.data, p.read), rs')] + Rest(p', rs')
       else Rest(p, rs) == Rest(p', rs')
  }

  lemma AdvancePage(p: Page, rs: nat) returns (p': Page, rs': nat)
    requires Readable(p, rs) && p.read < p.commit && rs == Base(p, rs)
    ensures StepsTo(p, rs, p', rs')
  {
    HeaderBound(p.data, p.read);
    p', rs' := p.(read := p.read + EventLength(p.data, p.read)), StampAfter(p.data, p.read, rs);
    hide GetU32, TypeLen, TimeDelta, HeaderTime;
  }

  /** Stepping over the event at the read index. */
  lemma AdvanceReader(pages: seq<Page>, o: seq<nat>, t: int, reader: nat, rs: nat) returns (p': Page, rs': nat)
    requires QueueOk(pages, o, t, reader, rs) && pages[reader].read < pages[reader].commit
    requires rs == Base(pages[reader], rs)
    ensures StepsTo(pages[reader], rs, p', rs')
    ensures var pages' := pages[reader := p'];
      && QueueOk(pages', o, t, reader, rs')
      && RingEvents(pages', o, t + 1) == RingEvents(pages, o, t + 1)
      && TailStamp(pages', o, t, reader, rs') == TailStamp(pages, o, t, reader, rs)
  {
    p', rs' := AdvancePage(pages[reader], rs);
    hide Left, Whole, Readable, Rest, EventLength, TypeLen, StampAfter, Body, StampAt, RingEvents;
    OtherReader(pages, o, t, reader, rs, p', rs');
    hide QueueOk, Base;
  }

  /** Another reader page, of which as much is committed, in the place of the first. */
  lemma OtherReader(pages: seq<Page>, o: seq<nat>, t: int, reader: nat, rs: nat, p': Page, rs': nat)
    requires QueueOk(pages, o, t, reader, rs) && Readable(p', rs')
    requires var p := pages[reader];
      StampAt(p'.data, p'.read, p'.commit, Base(p', rs')) == StampAt(p.data, p.read, p.commit, Base(p, rs))
    ensures var pages' := pages[reader := p'];
      && QueueOk(pages', o, t, reader, rs')
      && RingEvents(pages', o, t + 1) == RingEvents(pages, o, t + 1)
      && TailStamp(pages', o, t, reader, rs') == TailStamp(pages, o, t, reader, rs)
  {
    assert |p'.data| == PAGE && p'.stamp < TWO64;
    hide Left, Whole, Readable, StampAt, Base;
    RingSame(pages, o, pages[reader := p'], o, t + 1);
    hide RingEvents;
  }

  // ------------------------------------------------------------------------------------------
  // Pages without padding.
  // ------------------------------------------------------------------------------------------

  /** Whole events, none of them padding. */
  predicate Dense(d: seq<byte>, i: nat, end: nat)
    decreases end - i
  {
    || i == end
    || (EventAt(d, i, end) && TypeLen(d, i) != PADDING && EventLength(d, i) >= 8 && i + EventLength(d, i) <= end
        && Dense(d, i + EventLength(d, i), end))
  }

  lemma DenseHasEvent(d: seq<byte>, i: nat, end: nat, stamp: nat)
    requires Tiled(d, i, end) && Dense(d, i, end) && i < end
    ensures Decode(d, i, end, stamp) != []
  {
    if TypeLen(d, i) > DATA_MAX {
      assert TypeLen(d, i + 8) <= DATA_MAX && EventLength(d, i) == 8;
    }
  }

  lemma {:induction false} DenseJoin(d: seq<byte>, i: nat, mid: nat, end: nat)
    requires Dense(d, i, mid) && Dense(d, mid, end) && i <= mid <= end <= PAGE && end <= |d|
    ensures Dense(d, i, end)
    decreases mid - i
  {
    hide GetU32, TypeLen, TimeDelta;
    if i < mid {
      EventAtGrows(d, i, mid, end);
      DenseJoin(d, i + EventLength(d, i), mid, end);
    }
  }

  lemma {:induction false} DenseSame(d: seq<byte>, e: seq<byte>, i: nat, end: nat)
    requires Dense(d, i, end) && SameBytes(d, e, i, end) && i <= end
    ensures Dense(e, i, end)
    decreases end - i
  {
    hide GetU32, TypeLen, TimeDelta;
    if i < end {
      SameEvent(d, e, i, end);
      DenseSame(d, e, i + EventLength(d, i), end);
    }
  }

  lemma DenseReserved(p: Page, res: Reservation)
    requires res.Open? && Reserved(p, res)
    ensures Dense(p.data, p.commit, p.write)
  {
    var d, i, st := p.data, p.commit, res.st;
    hide Word, GetU32, TypeLen, TimeDelta, DataLength, EventLength, DataHeader, TimeHeader;
    if st.NoStamp? {
      DataHeaderReads(d, i, res.size, res.delta);
      assert Dense(d, p.write, p.write);
    } else {
      var v := if st.Extend? then st.delta else st.ts;
      var ty := if st.Extend? then TIME_EXTEND else TIME_STAMP;
      HeaderSplit(d, i, TimeHeader(ty, v), DataHeader(res.size, 0));
      TimeHeaderMod(d, i, ty, v);
      DataHeaderReads(d, i + 8, res.size, 0);
      assert Dense(d, p.write, p.write);
      assert Dense(d, i + 8, p.write);
    }
  }
}
