/** The state of one per-CPU trace ring between calls, and what each call does to it. */
module TraceState {
  import opened Bytes
  import opened TraceEvent
  import opened TracePages
  import opened TraceQueue
  import opened RingMoves
  import HP = HeadProtocol

  /** struct tb_per_cpu, with the history the invariant speaks of:
      o, t       the ring pages in link order, head first, and where the tail is (-1: reader page)
      log        every event ever committed
      delivered  every event ever consumed
      timed      the clock has behaved so far; lastTs is its last value
      small      no reservation was within 8 bytes of the largest */
  datatype Ring = Ring(pages: seq<Page>, h: HP.State, readStamp: nat, writeStamp: nat, beforeStamp: nat,
                       open: Reservation, entries: nat, overrun: nat, readCount: nat,
                       produced: nat, rejected: nat, discarded: nat,
                       o: seq<nat>, t: int, log: seq<Event>, delivered: seq<Event>,
                       timed: bool, lastTs: nat, small: bool)

  ghost predicate QueueOf(s: Ring) { QueueOk(s.pages, s.o, s.t, s.h.reader, s.readStamp) }

  /** Every committed event not yet consumed, oldest first. */
  ghost function Queue(s: Ring): seq<Event>
    requires QueueOf(s)
  {
    Unread(s.pages, s.o, s.t, s.h.reader, s.readStamp)
  }

  /** The part of it on the reader page, which the writer cannot overwrite ... */
  ghost function OnReader(s: Ring): seq<Event>
    requires QueueOf(s)
  {
    Rest(s.pages[s.h.reader], s.readStamp)
  }

  /** ... and the part on the ring. */
  ghost function OnRing(s: Ring): seq<Event>
    requires QueueOf(s)
  {
    RingEvents(s.pages, s.o, s.t + 1)
  }

  ghost function Stamp(s: Ring): nat
    requires QueueOf(s)
  {
    TailStamp(s.pages, s.o, s.t, s.h.reader, s.readStamp)
  }

  function Tail(s: Ring): Page
    requires -1 <= s.t < |s.o| && TailId(s.o, s.t, s.h.reader) < |s.pages|
  {
    s.pages[TailId(s.o, s.t, s.h.reader)]
  }

  // ------------------------------------------------------------------------------------------
  // The invariant, piece by piece.
  // ------------------------------------------------------------------------------------------

  /** Every committed event is delivered, still unread or counted by overrun, in commit order. */
  ghost predicate Accounted(log: seq<Event>, delivered: seq<Event>, unread: seq<Event>, entries: nat, overrun: nat,
                            read: nat) {
    && entries == |log| && read == |delivered|
    && |log| == |delivered| + |unread| + overrun
    && Subseq(delivered + unread, log)
  }

  /** The tail page holds no padding; with small requests every page the writer left holds an event. */
  ghost predicate Shape(s: Ring)
    requires QueueOf(s)
  {
    var p, r := Tail(s), s.pages[s.h.reader];
    && Dense(p.data, if s.t == -1 then p.read else 0, p.commit)
    && (s.small ==> forall i :: 0 <= i < s.t ==> Contents(s.pages[s.o[i]]) != [])
    && (s.discarded == 0 && s.entries == 0 ==> p.commit == 0)
    && (s.small && s.discarded == 0 && s.entries == 0 ==> s.t == 0 && r.read == r.commit)
  }

  /** While the clock behaves, the running stamp at the tail is the write stamp, or the two stamps
      differ and the next event will carry an absolute one. */
  ghost predicate Timed(commit: nat, stamp: nat, res: Reservation, writeStamp: nat, beforeStamp: nat, lastTs: nat) {
    && writeStamp <= lastTs < TWO64 && beforeStamp <= lastTs
    && if res.None? then
         commit > 0 ==> stamp <= writeStamp && (beforeStamp == writeStamp ==> stamp == writeStamp)
       else
         && Recovered(res.st, res.delta, stamp) == res.ts == writeStamp == beforeStamp && res.after <= res.ts
         && (res.st.Extend? ==> Stored(res.st) <= res.ts)
         && (commit > 0 ==> stamp <= res.after && (res.st.Extend? ==> Stored(res.st) + res.after == res.ts))
  }

  ghost predicate Ok(s: Ring) {
    && Idle(s.h, s.o, s.t)
    && Core(s)
    && s.h.tail == TailId(s.o, s.t, s.h.reader)
  }

  ghost predicate Core(s: Ring) {
    && QueueOf(s)
    && TailOk(Tail(s), s.t, s.open)
    && Accounted(s.log, s.delivered, Queue(s), s.entries, s.overrun, s.readCount)
    && Shape(s)
    && (s.timed ==> Timed(Tail(s).commit, Stamp(s), s.open, s.writeStamp, s.beforeStamp, s.lastTs))
  }

  /** Between calls: with small requests the tail page is empty only before the first event, after a
      discard, or under a reservation; and every produced event has one fate. */
  ghost predicate Settled(s: Ring)
    requires QueueOf(s)
  {
    && (s.small && s.discarded == 0 && s.open.None? && s.entries > 0 ==> Tail(s).commit > 0)
    && s.produced == s.rejected + s.discarded + s.entries + (if s.open.Open? then 1 else 0)
  }

  lemma Bounds(s: Ring)
    requires QueueOf(s)
    ensures |s.o| >= 2 && |s.pages| == |s.o| + 1 && -1 <= s.t < |s.o| && s.h.reader < |s.pages|
    ensures forall i :: 0 <= i < |s.o| ==> s.o[i] < |s.pages|
    ensures s.t >= 0 ==> TailId(s.o, s.t, s.h.reader) == s.o[s.t] != s.h.reader
    ensures Readable(s.pages[s.h.reader], s.readStamp)
  {
  }

  /** The page a ring starts with. */
  function BlankPage(): Page { Page(seq(PAGE, _ => 0), 0, 0, 0, 0, 0) }

  /** The ring tb_allocate_cpu_ring makes of n pages and a reader page. */
  function Blank(n: nat): Ring
    requires n >= 2
  {
    Ring(seq(n + 1, _ => BlankPage()), HP.Initial(n), 0, 0, 0, None, 0, 0, 0, 0, 0, 0,
         seq(n, (i: nat) => i), 0, [], [], true, 0, true)
  }

  lemma BlankFacts()
    ensures var p := BlankPage();
      && Whole(p) && Contents(p) == [] && Readable(p, 0) && Rest(p, 0) == [] && Reserved(p, None) && Dense(p.data, 0, 0)
      && p.read == p.commit == p.entries == 0 && |p.data| == PAGE && p.stamp < TWO64
  {
  }

  lemma BlankPages(n: nat)
    requires n >= 2
    ensures var s := Blank(n);
      && Ordered(s.pages, s.o, 0, n) && s.h.reader == n && s.h.tail == 0 == s.o[0]
      && forall i :: 0 <= i < |s.pages| ==> s.pages[i] == BlankPage()
  {
    hide BlankPage;
  }

  /** A ring whose pages are all blank holds nothing. */
  lemma BlankUnread(pages: seq<Page>, o: seq<nat>, n: nat)
    requires Ordered(pages, o, 0, n) && forall i :: 0 <= i < |pages| ==> pages[i] == BlankPage()
    ensures QueueOk(pages, o, 0, n, 0) && Unread(pages, o, 0, n, 0) == []
  {
    hide Readable, Rest, Whole, Contents, BlankPage, Left;
    BlankFacts();
    assert RingEvents(pages, o, 0) == [];
    assert RingEvents(pages, o, 1) == RingEvents(pages, o, 0) + Contents(pages[o[0]]);
  }

  lemma BlankQueue(n: nat)
    requires n >= 2
    ensures var s := Blank(n);
      && QueueOf(s) && Queue(s) == [] && Tail(s) == s.pages[s.h.reader] == BlankPage()
      && s.h.tail == TailId(s.o, s.t, s.h.reader)
  {
    hide QueueOk, Unread, BlankPage, Ordered;
    BlankPages(n);
    BlankUnread(Blank(n).pages, Blank(n).o, n);
  }

  lemma BlankOk(n: nat)
    requires n >= 2
    ensures var s := Blank(n); Ok(s) && Settled(s) && Queue(s) == []
  {
    hide HP.Inv, QueueOk, Queue, Readable, Rest, Whole, Contents, BlankPage, Reserved, Dense, HP.Initial, TailStamp;
    HP.InitialInv(n);
    BlankFacts();
    BlankQueue(n);
    BlankLinks(n);
    assert [] + Queue(Blank(n)) == [];
  }

  lemma BlankLinks(n: nat)
    requires n >= 2
    ensures HP.Initial(n).w.Writing? && HP.Initial(n).r.Reading?
  {
  }

  // ------------------------------------------------------------------------------------------
  // The reader.
  // ------------------------------------------------------------------------------------------

  /** The reader leaves the tail page's bytes, and with them an open reservation, alone; it only
      takes pages off the ring, and its page stays the same until it does. */
  ghost predicate SameTail(s: Ring, s': Ring) {
    && QueueOf(s) && QueueOf(s') && s'.open == s.open
    && Tail(s').data == Tail(s).data && Tail(s').write == Tail(s).write && Tail(s').commit == Tail(s).commit
    && s'.t <= s.t && (s'.t == s.t ==> s'.h == s.h && s'.pages[s.h.reader].commit == s.pages[s.h.reader].commit)
  }

  /** It only takes unread events from the front, off the ring page by page; from an empty ring it
      takes no page. */
  ghost predicate Passes(s: Ring, s': Ring) {
    && QueueOf(s) && QueueOf(s') && s'.delivered + Queue(s') == s.delivered + Queue(s)
    && |s.delivered| <= |s'.delivered|
    && |s'.o| == |s.o| && Ends(PageList(s.pages, s.o, s.t), PageList(s'.pages, s'.o, s'.t))
    && (Queue(s) == [] ==> Queue(s') == [] && s'.t == s.t)
  }

  /** b is the end of a. */
  predicate Ends(a: seq<seq<Event>>, b: seq<seq<Event>>) { |b| <= |a| && b == a[|a| - |b|..] }

  lemma EndsOn(a: seq<seq<Event>>, b: seq<seq<Event>>, c: seq<seq<Event>>)
    requires Ends(a, b) && Ends(b, c)
    ensures Ends(a, c)
  {
  }

  ghost predicate KeepsTail(s: Ring, s': Ring) { SameTail(s, s') && Passes(s, s') }

  lemma KeepsTailOn(s: Ring, s1: Ring, s2: Ring)
    requires KeepsTail(s, s1) && KeepsTail(s1, s2)
    ensures KeepsTail(s, s2)
  {
    EndsOn(PageList(s.pages, s.o, s.t), PageList(s1.pages, s1.o, s1.t), PageList(s2.pages, s2.o, s2.t));
    hide QueueOf, Queue, PageList, Ends;
  }

  lemma QueueParts(s: Ring)
    requires QueueOf(s)
    ensures Queue(s) == OnReader(s) + OnRing(s) && |Queue(s)| == |OnReader(s)| + |OnRing(s)|
  {
    hide QueueOk, Rest, RingEvents;
  }

  lemma KeepsTailHere(s: Ring)
    requires Ok(s)
    ensures KeepsTail(s, s)
  {
    hide Idle, QueueOf, TailOk, Accounted, Shape, Timed;
  }

  lemma KeepsArea(s: Ring, s': Ring)
    requires Ok(s) && Ok(s') && KeepsTail(s, s') && s.open.Open?
    ensures Area(Tail(s'), s'.open) == Area(Tail(s), s.open)
  {
    hide Idle, QueueOk, Accounted, Shape, Timed;
  }

  /** After the page swap of tb_get_reader_page; h' are the links it leaves. */
  function Swapped(s: Ring, h': HP.State): Ring
    requires s.h.reader < |s.pages| && |s.o| > 0 && s.o[0] < |s.pages|
  {
    s.(pages := s.pages[s.h.reader := Cleared(s.pages[s.h.reader])][s.o[0] := s.pages[s.o[0]].(read := 0)],
       h := h', o := HP.Rotate(s.o, s.h.reader), t := s.t - 1)
  }

  lemma SwappedOk(s: Ring, h': HP.State)
    requires Ok(s) && s.t >= 0 && s.pages[s.h.reader].read == s.pages[s.h.reader].commit
    requires (s.small && s.discarded == 0 ==> s.entries > 0) && Queue(s) != []
    requires h'.reader == s.o[0] && h'.tail == s.h.tail && Idle(h', HP.Rotate(s.o, s.h.reader), s.t - 1)
    ensures Ok(Swapped(s, h')) && Queue(Swapped(s, h')) == Queue(s)
    ensures (Settled(s) ==> Settled(Swapped(s, h'))) && KeepsTail(s, Swapped(s, h'))
  {
    hide QueueOk, Shape, Timed, TailOk, Accounted, Unread, TailStamp, Idle;
    Bounds(s);
    SwapReader(s.pages, s.o, s.t, s.h.reader, s.readStamp);
    SwappedShape(s, h');
    SwappedList(s, h');
  }

  lemma SwappedList(s: Ring, h': HP.State)
    requires QueueOf(s) && s.t >= 0
    ensures s.h.reader < |s.pages| && |s.o| > 0 && s.o[0] < |s.pages|
    ensures var s' := Swapped(s, h'); PageList(s'.pages, s'.o, s'.t) == PageList(s.pages, s.o, s.t)[1..]
  {
    hide Readable, Left, Contents, Whole;
  }

  lemma SwappedShape(s: Ring, h': HP.State)
    requires QueueOf(s) && s.t >= 0 && Shape(s) && TailOk(Tail(s), s.t, s.open) && h'.reader == s.o[0]
    requires s.small && s.discarded == 0 ==> s.entries > 0
    requires QueueOf(Swapped(s, h'))
    ensures var s' := Swapped(s, h');
      && Tail(s') == (if s.t == 0 then Tail(s).(read := 0) else Tail(s))
      && Shape(s') && TailOk(Tail(s'), s'.t, s'.open)
  {
    var s' := Swapped(s, h');
    hide Readable, Left;
    assert Tail(s') == (if s.t == 0 then Tail(s).(read := 0) else Tail(s));
    forall i | 0 <= i < s.t - 1 && s.small ensures Contents(s'.pages[s'.o[i]]) != [] {
      assert s'.o[i] == s.o[i + 1] && Contents(s.pages[s.o[i + 1]]) != [];
    }
  }

  /** tb_get_reader_page, on the way out: the page stamp starts the running stamp. */
  function Stamped(s: Ring): Ring
    requires s.h.reader < |s.pages|
  {
    s.(readStamp := Base(s.pages[s.h.reader], s.readStamp))
  }

  lemma StampedOk(s: Ring)
    requires Ok(s)
    ensures Ok(Stamped(s)) && Queue(Stamped(s)) == Queue(s) && OnReader(Stamped(s)) == OnReader(s)
      && OnRing(Stamped(s)) == OnRing(s)
    ensures (Settled(s) ==> Settled(Stamped(s))) && KeepsTail(s, Stamped(s))
  {
    StampedQueue(s);
    hide QueueOk, Timed, TailOk, Accounted, Unread, TailStamp, Idle, Dense, Contents;
    Bounds(s);
  }

  lemma StampedQueue(s: Ring)
    requires QueueOf(s)
    ensures QueueOf(Stamped(s)) && OnReader(Stamped(s)) == OnReader(s) && OnRing(Stamped(s)) == OnRing(s)
    ensures Queue(Stamped(s)) == Queue(s) && Stamp(Stamped(s)) == Stamp(s)
  {
    hide Tiled, Decode, StampAt, Left, Whole;
  }

  /** There is a whole event at the read index. */
  predicate EventHere(p: Page) {
    && p.read + 8 <= |p.data| && 8 <= EventLength(p.data, p.read) && p.read + EventLength(p.data, p.read) <= p.commit
    && (TypeLen(p.data, p.read) <= DATA_MAX ==>
          p.read + DataLength(p.data, p.read) <= |p.data|
            && DataStart(p.data, p.read) <= p.read + DataLength(p.data, p.read))
  }

  lemma ReadableEvent(p: Page, rs: nat)
    requires Readable(p, rs) && p.read < p.commit
    ensures EventHere(p)
    ensures TypeLen(p.data, p.read) > PADDING ==>
      && EventLength(p.data, p.read) == TIME_LEN && p.read + 16 <= p.commit <= |p.data|
      && TypeLen(p.data, p.read + 8) <= DATA_MAX && TimeDelta(p.data, p.read + 8) == 0
    ensures TypeLen(p.data, p.read) == PADDING ==> TimeDelta(p.data, p.read) != 0
  {
  }

  /** The event at the read index, with the running stamp before it. */
  function EventOf(p: Page, rs: nat): Event
    requires EventHere(p) && TypeLen(p.data, p.read) <= DATA_MAX
  {
    Event(Body(p.data, p.read), StampAfter(p.data, p.read, rs))
  }

  /** tb_advance_reader: step over the event at the read index. */
  function Advanced(s: Ring): Ring
    requires s.h.reader < |s.pages| && EventHere(s.pages[s.h.reader])
  {
    var p := s.pages[s.h.reader];
    var s' := s.(pages := s.pages[s.h.reader := p.(read := p.read + EventLength(p.data, p.read))],
                 readStamp := StampAfter(p.data, p.read, s.readStamp));
    if TypeLen(p.data, p.read) <= DATA_MAX
    then s'.(readCount := s.readCount + 1, delivered := s.delivered + [EventOf(p, s.readStamp)])
    else s'
  }

  lemma AdvancedQueue(s: Ring)
    requires QueueOf(s) && EventHere(s.pages[s.h.reader])
    requires s.pages[s.h.reader].read < s.pages[s.h.reader].commit
    requires s.readStamp == Base(s.pages[s.h.reader], s.readStamp)
    ensures QueueOf(Advanced(s)) && Stamp(Advanced(s)) == Stamp(s)
    ensures var p := s.pages[s.h.reader];
      Queue(s) == (if TypeLen(p.data, p.read) <= DATA_MAX then [EventOf(p, s.readStamp)] else []) + Queue(Advanced(s))
  {
    hide QueueOk, TailStamp, Rest, RingEvents, Body, TypeLen, EventLength, StampAfter, DataLength, DataStart;
    Bounds(s);
    var p', rs' := AdvanceReader(s.pages, s.o, s.t, s.h.reader, s.readStamp);
    var p, s' := s.pages[s.h.reader], Advanced(s);
    var first := if TypeLen(p.data, p.read) <= DATA_MAX then [EventOf(p, s.readStamp)] else [];
    assert OnReader(s) == first + OnReader(s') && OnRing(s') == OnRing(s);
    assert (first + OnReader(s')) + OnRing(s') == first + (OnReader(s') + OnRing(s'));
  }

  lemma AdvancedOk(s: Ring)
    requires Ok(s) && s.pages[s.h.reader].read < s.pages[s.h.reader].commit
    requires s.readStamp == Base(s.pages[s.h.reader], s.readStamp)
    ensures EventHere(s.pages[s.h.reader])
    ensures Ok(Advanced(s)) && (Settled(s) ==> Settled(Advanced(s))) && KeepsTail(s, Advanced(s))
    ensures var p := s.pages[s.h.reader];
      Queue(s) == (if TypeLen(p.data, p.read) <= DATA_MAX then [EventOf(p, s.readStamp)] else []) + Queue(Advanced(s))
  {
    hide QueueOk, Shape, Timed, TailOk, TailStamp, Idle, Rest, RingEvents, Body, TypeLen, EventLength, StampAfter,
         EventHere, Unread;
    Bounds(s);
    var p := s.pages[s.h.reader];
    ReadableEvent(p, s.readStamp);
    AdvancedQueue(s);
    AdvancedShape(s);
    AdvancedList(s);
    var s' := Advanced(s);
    assert s.delivered + Queue(s) == s'.delivered + Queue(s');
  }

  lemma AdvancedList(s: Ring)
    requires QueueOf(s) && EventHere(s.pages[s.h.reader])
    ensures var s' := Advanced(s); s'.o == s.o && PageList(s'.pages, s'.o, s'.t) == PageList(s.pages, s.o, s.t)
  {
    hide Readable, Left, Whole, Contents, TypeLen, StampAfter, EventLength, EventOf;
  }

  lemma AdvancedShape(s: Ring)
    requires QueueOf(s) && Shape(s) && TailOk(Tail(s), s.t, s.open)
      && s.pages[s.h.reader].read < s.pages[s.h.reader].commit
    requires EventHere(s.pages[s.h.reader]) && QueueOf(Advanced(s))
    ensures Shape(Advanced(s)) && TailOk(Tail(Advanced(s)), s.t, s.open) && Tail(Advanced(s)).commit == Tail(s).commit
    ensures SameTail(s, Advanced(s))
  {
    hide Readable, Left, Whole, Contents, GetU32, TypeLen, TimeDelta, StampAfter, Body, DataLength, DataStart;
    assert s.t >= 0 ==> Tail(Advanced(s)) == Tail(s);
  }

  // ------------------------------------------------------------------------------------------
  // The pages of the ring, one by one.
  // ------------------------------------------------------------------------------------------

  /** A change on the tail page that adds `more` to the unread events adds it to that page. */
  lemma TailGrows(s: Ring, s': Ring, more: seq<Event>)
    requires QueueOf(s) && QueueOf(s') && s'.o == s.o && s'.t == s.t && s'.h.reader == s.h.reader
      && s'.readStamp == s.readStamp
    requires |s'.pages| == |s.pages| && s'.pages == s.pages[TailId(s.o, s.t, s.h.reader) := Tail(s')]
      && Queue(s') == Queue(s) + more
    ensures OnReader(s') == if s.t == -1 then OnReader(s) + more else OnReader(s)
    ensures var list, list' := PageList(s.pages, s.o, s.t), PageList(s'.pages, s'.o, s'.t);
      list' == if s.t == -1 then [] else list[s.t := list[s.t] + more]
  {
    Bounds(s);
    QueueParts(s);
    QueueParts(s');
    if s.t == -1 {
      assert RingEvents(s.pages, s.o, 0) == [] && RingEvents(s'.pages, s'.o, 0) == [];
      assert OnReader(s) + [] == OnReader(s) && OnReader(s') + [] == OnReader(s');
      assert PageList(s'.pages, s'.o, -1) == [];
    } else {
      TailGrowsOnRing(s, s', more);
    }
    hide Readable, Left, Whole, Contents, Rest;
  }

  lemma Cancel(a: seq<Event>, b: seq<Event>, c: seq<Event>, c': seq<Event>, more: seq<Event>)
    requires a + (b + c') == a + (b + c) + more
    ensures c' == c + more
  {
    assert a + (b + c') == (a + b) + c' && a + (b + c) + more == (a + b) + (c + more);
    assert ((a + b) + c')[|a + b|..] == c' && ((a + b) + (c + more))[|a + b|..] == c + more;
  }

  lemma TailGrowsOnRing(s: Ring, s': Ring, more: seq<Event>)
    requires QueueOf(s) && QueueOf(s') && s'.o == s.o && s'.t == s.t >= 0 && s'.h.reader == s.h.reader
      && s'.readStamp == s.readStamp
    requires |s'.pages| == |s.pages| && s'.pages == s.pages[TailId(s.o, s.t, s.h.reader) := Tail(s')]
      && Queue(s') == Queue(s) + more
    ensures OnReader(s') == OnReader(s)
    ensures var list, list' := PageList(s.pages, s.o, s.t), PageList(s'.pages, s'.o, s'.t);
      list' == list[s.t := list[s.t] + more]
  {
    hide Readable, Left, Whole, Contents, Rest;
    Bounds(s);
    QueueParts(s);
    QueueParts(s');
    var p, p' := s.pages[s.o[s.t]], s'.pages[s.o[s.t]];
    RingSame(s.pages, s.o, s'.pages, s.o, s.t);
    Cancel(OnReader(s), RingEvents(s.pages, s.o, s.t), Contents(p), Contents(p'), more);
    var list, list' := PageList(s.pages, s.o, s.t), PageList(s'.pages, s.o, s.t);
    forall i | 0 <= i <= s.t ensures list'[i] == if i == s.t then list[i] + more else list[i] {
      assert Whole(s.pages[s.o[i]]) && Whole(s'.pages[s.o[i]]);
      assert i < s.t ==> s.o[i] != s.o[s.t];
    }
  }

  /** The list after the tail has gone on to k further pages of a ring of n: k empty pages behind, and
      in front as many whole pages less as there is no room for. */
  predicate Aged(list: seq<seq<Event>>, list': seq<seq<Event>>, n: nat, k: nat) {
    |list| <= n && list' == (list + Blanks(k))[Drop(|list|, n, k)..]
  }

  function Blanks(k: nat): seq<seq<Event>> { seq(k, _ => []) }

  /** How many pages have to go. */
  function Drop(used: nat, n: nat, k: nat): (r: nat)
    requires used <= n
    ensures r <= k
  {
    if used + k <= n then 0 else used + k - n
  }

  lemma AgedNot(list: seq<seq<Event>>, n: nat)
    requires |list| <= n
    ensures Aged(list, list, n, 0)
  {
    assert list + Blanks(0) == list;
  }

  lemma AgedOn(a: seq<seq<Event>>, b: seq<seq<Event>>, c: seq<seq<Event>>, n: nat, k: nat, j: nat)
    requires Aged(a, b, n, k) && Aged(b, c, n, j)
    ensures Aged(a, c, n, k + j)
  {
    assert Blanks(k + j) == Blanks(k) + Blanks(j);
    assert a + Blanks(k + j) == a + Blanks(k) + Blanks(j);
  }

  // ------------------------------------------------------------------------------------------
  // The writer: reserving.
  // ------------------------------------------------------------------------------------------

  /** The unsigned 64-bit difference of two clock values. */
  function Gap(ts: nat, after: nat): nat
    requires ts < TWO64
  {
    if ts >= after then ts - after else (ts + TWO64 - after % TWO64) % TWO64
  }

  /** The time header __tb_reserve_next and tb_add_timestamp choose at write index w. */
  function ChooseStamp(w: nat, before: nat, after: nat, ts: nat): Stamp
    requires ts < TWO64
  {
    if before != after && w != 0 then Absolute(ts)
    else
      var gap := Gap(ts, after);
      if gap < TWO27 then NoStamp else Extend(if w == 0 || gap > TWO59 then 0 else gap)
  }

  function ChooseDelta(w: nat, before: nat, after: nat, ts: nat): (r: nat)
    requires ts < TWO64
    ensures r < TWO27
  {
    if w != 0 && ChooseStamp(w, before, after, ts).NoStamp? then Gap(ts, after) else 0
  }

  /** The clock does not go back; away from the start of a page, its gaps (or, after a discard, its
      values) stay below 2^59. */
  predicate ClockOk(w: nat, before: nat, after: nat, lastTs: nat, ts: nat) {
    lastTs <= ts && (w != 0 ==> if before != after then ts < TWO59 else ts - after < TWO59)
  }

  /** With such a clock the reader will recover exactly the time stamp the writer took. */
  lemma StampRecovered(w: nat, stamp: nat, before: nat, after: nat, lastTs: nat, ts: nat)
    requires ts < TWO64 && Timed(w, stamp, None, after, before, lastTs) && ClockOk(w, before, after, lastTs, ts)
    ensures var st, delta := ChooseStamp(w, before, after, ts), ChooseDelta(w, before, after, ts);
      && Recovered(st, delta, if w == 0 then ts else stamp) == ts
      && Timed(w, if w == 0 then ts else stamp, Open(w, st, 8, delta, ts, after), ts, ts, ts)
  {
  }

  /** The tail page once the event is reserved on it. */
  function ReservedPage(p: Page, size: nat, before: nat, after: nat, ts: nat): Page
    requires ts < TWO64 && GoodSize(size) && |p.data| == PAGE
    requires p.write + StampLen(ChooseStamp(p.write, before, after, ts)) + size <= PAGE
  {
    var st, delta := ChooseStamp(p.write, before, after, ts), ChooseDelta(p.write, before, after, ts);
    p.(data := Splice(p.data, p.write, EventHeader(st, size, delta)),
       write := p.write + StampLen(st) + size, entries := p.entries + 1,
       stamp := if p.write == 0 then ts else p.stamp)
  }

  predicate Fits(s: Ring, size: nat, ts: nat)
    requires -1 <= s.t < |s.o| && TailId(s.o, s.t, s.h.reader) < |s.pages| && ts < TWO64
  {
    Tail(s).write + StampLen(ChooseStamp(Tail(s).write, s.beforeStamp, s.writeStamp, ts)) + size <= PAGE
  }

  /** __tb_reserve_next when the event fits. */
  function WithReservation(s: Ring, size: nat, ts: nat): Ring
    requires -1 <= s.t < |s.o| && TailId(s.o, s.t, s.h.reader) < |s.pages| && |Tail(s).data| == PAGE
    requires ts < TWO64 && GoodSize(size) && Fits(s, size, ts)
  {
    var w := Tail(s).write;
    s.(pages := s.pages[TailId(s.o, s.t, s.h.reader) := ReservedPage(Tail(s), size, s.beforeStamp, s.writeStamp, ts)],
       open := Open(w, ChooseStamp(w, s.beforeStamp, s.writeStamp, ts), size,
                    ChooseDelta(w, s.beforeStamp, s.writeStamp, ts), ts, s.writeStamp),
       writeStamp := ts, beforeStamp := ts,
       timed := s.timed && ClockOk(w, s.beforeStamp, s.writeStamp, s.lastTs, ts), lastTs := ts)
  }

  lemma ReservedPageOk(p: Page, size: nat, before: nat, after: nat, ts: nat)
    requires ts < TWO64 && GoodSize(size) && |p.data| == PAGE && p.write == p.commit && p.stamp < TWO64
    requires p.write + StampLen(ChooseStamp(p.write, before, after, ts)) + size <= PAGE
    ensures var p' := ReservedPage(p, size, before, after, ts);
      var st, delta := ChooseStamp(p.write, before, after, ts), ChooseDelta(p.write, before, after, ts);
      && Behind(p, p')
      && Reserved(p', Open(p.write, st, size, delta, ts, after))
  {
    var st, delta := ChooseStamp(p.write, before, after, ts), ChooseDelta(p.write, before, after, ts);
    hide ChooseStamp, ChooseDelta, EventHeader;
    var p' := ReservedPage(p, size, before, after, ts);
    var hdr := EventHeader(st, size, delta);
    assert p'.data[p.write..p.write + |hdr|] == hdr;
  }

  /** Replacing the tail page by one that differs behind the commit index only. */
  lemma BehindOk(s: Ring, p': Page, res: Reservation)
    requires QueueOf(s) && Shape(s) && Behind(Tail(s), p') && Reserved(p', res)
    requires s.t >= 0 ==> p'.entries == |Contents(s.pages[s.o[s.t]])| + (if res.Open? then 1 else 0)
    ensures var s' := s.(pages := s.pages[TailId(s.o, s.t, s.h.reader) := p']);
      && QueueOf(s') && Queue(s') == Queue(s) && OnReader(s') == OnReader(s) && OnRing(s') == OnRing(s)
      && Tail(s') == p' && TailOk(p', s.t, res) && Shape(s')
      && (p'.commit > 0 ==> Stamp(s') == Stamp(s))
      && (p'.commit == 0 ==> Stamp(s') == p'.stamp)
  {
    var k := TailId(s.o, s.t, s.h.reader);
    var s' := s.(pages := s.pages[k := p']);
    WriteBehind(s.pages, s.o, s.t, s.h.reader, s.readStamp, p');
    DenseSame(Tail(s).data, p'.data, if s.t == -1 then p'.read else 0, p'.commit);
    hide Decode, Tiled, Left, EventHeader, Dense, Unread;
    forall i | 0 <= i < s.t && s.small ensures Contents(s'.pages[s'.o[i]]) != [] {
      assert Contents(s.pages[s.o[i]]) != [];
    }
    BehindReader(s, p');
  }

  lemma BehindReader(s: Ring, p': Page)
    requires QueueOf(s) && Behind(Tail(s), p')
    requires QueueOf(s.(pages := s.pages[TailId(s.o, s.t, s.h.reader) := p']))
    ensures var s' := s.(pages := s.pages[TailId(s.o, s.t, s.h.reader) := p']);
      OnReader(s') == OnReader(s) && (p'.commit == 0 ==> Stamp(s') == p'.stamp)
  {
    var s' := s.(pages := s.pages[TailId(s.o, s.t, s.h.reader) := p']);
    WriteBehind(s.pages, s.o, s.t, s.h.reader, s.readStamp, p');
    hide Decode, Tiled, Left, EventHeader, Dense;
    assert |OnReader(s')| + |OnRing(s')| == |OnReader(s)| + |OnRing(s)|;
    assert OnReader(s') == Queue(s')[..|OnReader(s')|];
    assert OnReader(s) == Queue(s)[..|OnReader(s)|];
  }

  lemma ReservationOk(s: Ring, size: nat, ts: nat)
    requires Ok(s) && s.open.None? && GoodSize(size) && ts < TWO64 && Fits(s, size, ts)
    ensures var s' := WithReservation(s, size, ts);
      && Ok(s') && Queue(s') == Queue(s) && OnReader(s') == OnReader(s) && OnRing(s') == OnRing(s)
  {
    hide Idle, QueueOk, Accounted, Unread, TailStamp, Rest, RingEvents, Timed, EventHeader, Dense, Contents,
         ChooseStamp, ChooseDelta, Behind, ReservedPage;
    Bounds(s);
    var p := Tail(s);
    TailSane(s);
    ReservedPageOk(p, size, s.beforeStamp, s.writeStamp, ts);
    var s' := WithReservation(s, size, ts);
    ReservedEntries(p, size, s.beforeStamp, s.writeStamp, ts);
    hide Shape;
    BehindOk(s, Tail(s'), s'.open);
    if s'.timed {
      ReservedTimed(s, size, ts);
    }
  }

  lemma TailSane(s: Ring)
    requires QueueOf(s)
    ensures |Tail(s).data| == PAGE && Tail(s).stamp < TWO64 && Tail(s).commit <= PAGE
    ensures s.t >= 0 ==> Whole(Tail(s))
  {
  }

  lemma ReservedEntries(p: Page, size: nat, before: nat, after: nat, ts: nat)
    requires ts < TWO64 && GoodSize(size) && |p.data| == PAGE
    requires p.write + StampLen(ChooseStamp(p.write, before, after, ts)) + size <= PAGE
    ensures var p' := ReservedPage(p, size, before, after, ts);
      && p'.entries == p.entries + 1 && p'.commit == p.commit && p'.read == p.read
      && p'.stamp == (if p.write == 0 then ts else p.stamp)
  {
  }

  lemma ReservedTimed(s: Ring, size: nat, ts: nat)
    requires QueueOf(s) && s.open.None? && GoodSize(size) && ts < TWO64 && |Tail(s).data| == PAGE && Fits(s, size, ts)
    requires Tail(s).write == Tail(s).commit && QueueOf(WithReservation(s, size, ts))
    requires Tail(s).commit > 0 ==> Stamp(WithReservation(s, size, ts)) == Stamp(s)
    requires Tail(s).commit == 0 ==> Stamp(WithReservation(s, size, ts)) == ts
    requires s.timed && Timed(Tail(s).commit, Stamp(s), None, s.writeStamp, s.beforeStamp, s.lastTs)
    requires ClockOk(Tail(s).write, s.beforeStamp, s.writeStamp, s.lastTs, ts)
    ensures var s' := WithReservation(s, size, ts);
      Timed(Tail(s').commit, Stamp(s'), s'.open, s'.writeStamp, s'.beforeStamp, s'.lastTs)
  {
    hide QueueOk, TailStamp, Rest, RingEvents, EventHeader, ReservedPage;
    Bounds(s);
    var p := Tail(s);
    StampRecovered(p.write, Stamp(s), s.beforeStamp, s.writeStamp, s.lastTs, ts);
    ReservedEntries(p, size, s.beforeStamp, s.writeStamp, ts);
    hide ChooseStamp, ChooseDelta, Recovered, Stored;
  }

  // ------------------------------------------------------------------------------------------
  // Filling, committing, discarding.
  // ------------------------------------------------------------------------------------------

  /** Where the data area of the open reservation starts. */
  function AreaStart(res: Reservation): nat
    requires res.Open? && GoodSize(res.size) && res.delta < TWO27
  {
    res.pos + |EventHeader(res.st, res.size, res.delta)|
  }

  /** The caller writes `bytes` at offset `at` of the data area. */
  function Filled(s: Ring, at: nat, bytes: seq<byte>): Ring
    requires -1 <= s.t < |s.o| && TailId(s.o, s.t, s.h.reader) < |s.pages|
    requires s.open.Open? && GoodSize(s.open.size) && s.open.delta < TWO27
    requires AreaStart(s.open) + at + |bytes| <= |Tail(s).data|
  {
    s.(pages := s.pages[TailId(s.o, s.t, s.h.reader) :=
         Tail(s).(data := Splice(Tail(s).data, AreaStart(s.open) + at, bytes))])
  }

  lemma FilledPage(p: Page, res: Reservation, at: nat, bytes: seq<byte>)
    requires res.Open? && Reserved(p, res) && p.stamp < TWO64 && at + |bytes| <= |Area(p, res)|
    ensures AreaStart(res) + at + |bytes| <= |p.data|
    ensures var p' := p.(data := Splice(p.data, AreaStart(res) + at, bytes));
      && Behind(p, p') && Reserved(p', res)
      && Area(p', res) == Splice(Area(p, res), at, bytes)
  {
    var p' := p.(data := Splice(p.data, AreaStart(res) + at, bytes));
    hide EventHeader, Splice;
    var hdr := EventHeader(res.st, res.size, res.delta);
    assert p'.data[p.commit..p.commit + |hdr|] == p.data[p.commit..p.commit + |hdr|];
  }

  lemma FilledOk(s: Ring, at: nat, bytes: seq<byte>)
    requires Ok(s) && s.open.Open? && at + |bytes| <= |Area(Tail(s), s.open)|
    ensures AreaStart(s.open) + at + |bytes| <= |Tail(s).data|
    ensures var s' := Filled(s, at, bytes);
      && Ok(s') && Queue(s') == Queue(s) && OnReader(s') == OnReader(s) && OnRing(s') == OnRing(s)
      && Area(Tail(s'), s.open) == Splice(Area(Tail(s), s.open), at, bytes)
      && (Settled(s) ==> Settled(s'))
  {
    hide Idle, QueueOk, Accounted, Unread, TailStamp, Rest, RingEvents, Timed, EventHeader, Dense, Contents, Shape,
         Behind, Splice, Area, Whole;
    Bounds(s);
    TailSane(s);
    var p := Tail(s);
    FilledPage(p, s.open, at, bytes);
    hide Reserved;
    var p' := p.(data := Splice(p.data, AreaStart(s.open) + at, bytes));
    BehindOk(s, p', s.open);
    FilledTimed(s, p');
  }

  lemma FilledTimed(s: Ring, p': Page)
    requires QueueOf(s) && p'.commit == Tail(s).commit && p'.stamp == Tail(s).stamp && p'.read == Tail(s).read
    requires QueueOf(s.(pages := s.pages[TailId(s.o, s.t, s.h.reader) := p']))
    ensures Tail(s).commit == 0 ==> Stamp(s.(pages := s.pages[TailId(s.o, s.t, s.h.reader) := p'])) == Stamp(s)
  {
  }

  /** tb_commit with nobody nested: the commit index follows the write index. */
  ghost function Committed(s: Ring): Ring
    requires -1 <= s.t < |s.o| && TailId(s.o, s.t, s.h.reader) < |s.pages| && s.open.Open? && Reserved(Tail(s), s.open)
      && QueueOf(s)
  {
    s.(pages := s.pages[TailId(s.o, s.t, s.h.reader) := Tail(s).(commit := Tail(s).write)],
       open := None, entries := s.entries + 1, log := s.log + [OpenEvent(s)])
  }

  /** The event an open reservation will become. */
  ghost function OpenEvent(s: Ring): Event
    requires QueueOf(s) && s.open.Open? && Reserved(Tail(s), s.open)
  {
    Event(Area(Tail(s), s.open), Recovered(s.open.st, s.open.delta, Stamp(s)))
  }

  lemma CommittedOk(s: Ring)
    requires Ok(s) && s.open.Open?
    ensures var s' := Committed(s);
      && Ok(s') && Queue(s') == Queue(s) + [OpenEvent(s)]
      && (Settled(s) ==> Settled(s'))
      && (s.timed ==> OpenEvent(s).ts == s.open.ts)
  {
    hide Idle, QueueOk, Unread, TailStamp, Rest, RingEvents, EventHeader, Dense, Contents, Shape, Recovered;
    Bounds(s);
    CommitTail(s.pages, s.o, s.t, s.h.reader, s.readStamp, s.open);
    CommittedShape(s);
    var s' := Committed(s);
    SubseqAppend(s.delivered + Queue(s), s.log, OpenEvent(s));
    assert s.delivered + Queue(s') == s.delivered + Queue(s) + [OpenEvent(s)];
  }

  lemma CommittedShape(s: Ring)
    requires QueueOf(s) && Shape(s) && TailOk(Tail(s), s.t, s.open) && s.open.Open?
    requires QueueOf(Committed(s))
    ensures Shape(Committed(s)) && Tail(Committed(s)).commit > 0
  {
    var p, s' := Tail(s), Committed(s);
    DenseReserved(p, s.open);
    DenseJoin(p.data, if s.t == -1 then p.read else 0, p.commit, p.write);
    hide Decode, Tiled, Left, EventHeader, Dense, Readable;
    forall i | 0 <= i < s.t && s.small ensures Contents(s'.pages[s'.o[i]]) != [] {
      assert Contents(s.pages[s.o[i]]) != [];
    }
  }

  /** tb_event_discard: the data event of the reservation turns into padding of the same length. */
  function DiscardData(d: seq<byte>, e: nat): seq<byte>
    requires e + 8 <= |d| && HDR <= DataLength(d, e) && DataLength(d, e) - HDR < TWO32 && TimeDelta(d, e) < TWO27
  {
    Splice(d, e,
      Word(PADDING + 32 * (if TimeDelta(d, e) == 0 then 1 else TimeDelta(d, e))) + Word(DataLength(d, e) - HDR))
  }

  /** Where the data event behind an optional time header stands: skip_time_extend. */
  function DataEvent(d: seq<byte>, i: nat): nat
    requires i + 4 <= |d|
  {
    if TypeLen(d, i) >= TIME_EXTEND then i + TIME_LEN else i
  }

  /** What tb_try_to_discard takes back from the write stamp: tb_time_delta. */
  function DiscardDelta(d: seq<byte>, i: nat): nat
    requires i + 8 <= |d|
  {
    if TypeLen(d, i) == TIME_EXTEND then HeaderTime(d, i) else 0
  }

  function TakeBack(stamp: nat, delta: nat): nat
    requires delta < TWO64
  {
    if stamp >= delta then stamp - delta else stamp + TWO64 - delta
  }

  /** The bytes a reservation wrote tell tb_try_to_discard exactly where it began and ended. */
  lemma DiscardReads(p: Page, res: Reservation)
    requires res.Open? && Reserved(p, res)
    ensures var e := DataEvent(p.data, res.pos);
      && e == res.pos + StampLen(res.st) && e + 8 <= |p.data|
      && DataLength(p.data, e) == res.size && TimeDelta(p.data, e) < TWO27
      && var d := DiscardData(p.data, e);
         && DataEvent(d, res.pos) == e && e + EventLength(d, e) == p.write
         && DiscardDelta(d, res.pos) == (if res.st.Extend? then Stored(res.st) else 0)
         && SameBytes(p.data, d, 0, p.commit)
  {
    var d0, i, st, size := p.data, res.pos, res.st, res.size;
    hide Word, GetU32, DataHeader, TimeHeader;
    var e := i + StampLen(st);
    if st.NoStamp? {
      DataHeaderReads(d0, i, size, res.delta);
    } else {
      var v := if st.Extend? then st.delta else st.ts;
      var ty := if st.Extend? then TIME_EXTEND else TIME_STAMP;
      HeaderSplit(d0, i, TimeHeader(ty, v), DataHeader(size, 0));
      TimeHeaderMod(d0, i, ty, v);
      DataHeaderReads(d0, e, size, 0);
    }
    hide TypeLen, TimeDelta, DataLength, EventLength;
    DiscardWritten(d0, e, size);
    var d := DiscardData(d0, e);
    if !st.NoStamp? {
      SameHeader(d0, d, i);
      HeaderBound(d0, i);
    }
    DiscardTypes(p, res, e);
  }

  lemma SameHeader(d: seq<byte>, d': seq<byte>, i: nat)
    requires SameBytes(d, d', i, i + 8)
    ensures TypeLen(d', i) == TypeLen(d, i) && HeaderTime(d', i) == HeaderTime(d, i)
  {
    assert GetU32(d, i) == GetU32(d', i) && GetU32(d, i + 4) == GetU32(d', i + 4);
  }

  lemma DiscardWritten(d0: seq<byte>, e: nat, size: nat)
    requires |d0| == PAGE && e + 8 <= PAGE && GoodSize(size) && DataLength(d0, e) == size && TimeDelta(d0, e) < TWO27
    ensures var d := DiscardData(d0, e);
      && TypeLen(d, e) == PADDING && EventLength(d, e) == size
      && SameBytes(d0, d, 0, e)
  {
    hide Word, GetU32, DataLength;
    var td := if TimeDelta(d0, e) == 0 then 1 else TimeDelta(d0, e);
    hide TimeDelta;
    var d := DiscardData(d0, e);
    var a, b := Word(PADDING + 32 * td), Word(size - HDR);
    assert d[e..e + 8] == a + b;
    HeaderSplit(d, e, a, b);
    WordReads(d, e, PADDING + 32 * td);
    WordReads(d, e + 4, size - HDR);
    PadWord(d, e, td);
  }

  lemma PadWord(d: seq<byte>, e: nat, td: nat)
    requires e + 8 <= |d| && GetU32(d, e) == PADDING + 32 * td && td > 0
    ensures TypeLen(d, e) == PADDING && TimeDelta(d, e) == td && EventLength(d, e) == GetU32(d, e + 4) + HDR
  {
    hide GetU32;
  }

  lemma DiscardTypes(p: Page, res: Reservation, e: nat)
    requires res.Open? && Reserved(p, res) && e == res.pos + StampLen(res.st)
    requires e + 8 <= |p.data| && DataLength(p.data, e) == res.size && TimeDelta(p.data, e) < TWO27
    requires TypeLen(DiscardData(p.data, e), e) == PADDING && SameBytes(p.data, DiscardData(p.data, e), 0, e)
    requires !res.st.NoStamp? ==>
      TypeLen(p.data, res.pos) == (if res.st.Extend? then TIME_EXTEND else TIME_STAMP)
        && HeaderTime(p.data, res.pos) == Stored(res.st)
    ensures DataEvent(DiscardData(p.data, e), res.pos) == e
    ensures DiscardDelta(DiscardData(p.data, e), res.pos) == (if res.st.Extend? then Stored(res.st) else 0)
  {
    if !res.st.NoStamp? { SameHeader(p.data, DiscardData(p.data, e), res.pos); }
    hide TypeLen, HeaderTime, DiscardData;
  }

  /** tb_discard_commit with nobody nested: the event is taken off the page again. */
  function Discarded(s: Ring): Ring
    requires -1 <= s.t < |s.o| && TailId(s.o, s.t, s.h.reader) < |s.pages| && s.open.Open? && Reserved(Tail(s), s.open)
  {
    DiscardReads(Tail(s), s.open);
    var delta := if s.open.st.Extend? then Stored(s.open.st) else 0;
    s.(pages := s.pages[TailId(s.o, s.t, s.h.reader) := DiscardedPage(Tail(s), s.open)],
       open := None, discarded := s.discarded + 1,
       writeStamp := TakeBack(s.writeStamp, delta), beforeStamp := if delta == 0 then 0 else s.beforeStamp)
  }

  function DiscardedPage(p: Page, res: Reservation): Page
    requires res.Open? && Reserved(p, res)
  {
    DiscardReads(p, res);
    p.(data := DiscardData(p.data, DataEvent(p.data, res.pos)), write := res.pos, entries := p.entries - 1)
  }

  lemma DiscardedPageOk(p: Page, res: Reservation)
    requires res.Open? && Reserved(p, res) && p.stamp < TWO64
    ensures var p' := DiscardedPage(p, res);
      && Behind(p, p') && Reserved(p', None) && p'.entries == p.entries - 1
      && p'.stamp == p.stamp && p'.commit == p.commit && p'.read == p.read
  {
    DiscardReads(p, res);
    hide DataEvent, EventHeader;
  }

  lemma DiscardedOk(s: Ring)
    requires Ok(s) && s.open.Open?
    ensures var s' := Discarded(s);
      && Ok(s') && Queue(s') == Queue(s) && (Settled(s) ==> Settled(s'))
  {
    hide Idle, QueueOk, Accounted, Unread, TailStamp, Rest, RingEvents, EventHeader, Dense, Contents, Behind,
         DiscardedPage;
    Bounds(s);
    TailSane(s);
    var p := Tail(s);
    DiscardedPageOk(p, s.open);
    var s' := Discarded(s);
    hide Reserved;
    DiscardedShape(s);
    if s.timed { DiscardedTimed(s.open, p.commit, Stamp(s), s.writeStamp, s.beforeStamp, s.lastTs); }
    FilledTimed(s, Tail(s'));
    hide Timed, Shape;
  }

  lemma DiscardedShape(s: Ring)
    requires QueueOf(s) && Shape(s) && s.open.Open? && TailOk(Tail(s), s.t, s.open)
    requires Behind(Tail(s), DiscardedPage(Tail(s), s.open)) && Reserved(DiscardedPage(Tail(s), s.open), None)
    requires DiscardedPage(Tail(s), s.open).entries == Tail(s).entries - 1
    requires DiscardedPage(Tail(s), s.open).commit == Tail(s).commit
    ensures var s' := Discarded(s);
      && QueueOf(s') && Queue(s') == Queue(s) && TailOk(Tail(s'), s.t, None) && Shape(s')
      && Tail(s') == DiscardedPage(Tail(s), s.open)
      && (Tail(s).commit > 0 ==> Stamp(s') == Stamp(s))
  {
    hide QueueOk, Unread, TailStamp, Rest, RingEvents, EventHeader, Dense, Contents, Behind, DiscardedPage, Reserved;
    Bounds(s);
    BehindOk(s, DiscardedPage(Tail(s), s.open), None);
  }

  lemma DiscardedTimed(res: Reservation, commit: nat, stamp: nat, writeStamp: nat, beforeStamp: nat, lastTs: nat)
    requires res.Open? && Timed(commit, stamp, res, writeStamp, beforeStamp, lastTs)
    ensures var delta := if res.st.Extend? then Stored(res.st) else 0;
      Timed(commit, stamp, None, TakeBack(writeStamp, delta), if delta == 0 then 0 else beforeStamp, lastTs)
  {
    hide Recovered;
  }

  // ------------------------------------------------------------------------------------------
  // Crossing to the next page.
  // ------------------------------------------------------------------------------------------

  /** Every ring page is in use: the next page is the head page. */
  predicate RingFull(s: Ring) { s.t == |s.o| - 1 }

  /** What pushing the tail on loses. */
  ghost function Lost(s: Ring): seq<Event>
    requires QueueOf(s)
  {
    if RingFull(s) then Contents(s.pages[s.o[0]]) else []
  }

  /** Pushing the head of a full ring: tb_handle_head_page with tb_overrun_page. */
  function Pushed(s: Ring): Ring
    requires |s.o| > 0 && s.o[0] < |s.pages|
  {
    if RingFull(s) then s.(o := HP.Rotate(s.o, s.o[0]), t := s.t - 1, overrun := s.overrun + s.pages[s.o[0]].entries)
    else s
  }

  lemma PushedQueue(s: Ring)
    requires QueueOf(s)
    ensures QueueOf(Pushed(s)) && Tail(Pushed(s)) == Tail(s) && OnReader(Pushed(s)) == OnReader(s)
    ensures Stamp(Pushed(s)) == Stamp(s) && Pushed(s).t < |Pushed(s).o| - 1 && (s.t < 0 <==> Pushed(s).t < 0)
    ensures OnRing(s) == Lost(s) + OnRing(Pushed(s)) && Pushed(s).overrun == s.overrun + |Lost(s)|
  {
    if RingFull(s) { DropHead(s.pages, s.o, s.t, s.h.reader, s.readStamp); }
    hide Whole, Contents, Readable, Rest;
  }

  lemma PushedShape(s: Ring)
    requires QueueOf(s) && Shape(s) && QueueOf(Pushed(s)) && Tail(Pushed(s)) == Tail(s)
    requires s.small && s.discarded == 0 ==> s.entries > 0
    ensures Shape(Pushed(s))
  {
    hide Whole, Readable, Rest, Dense, Contents;
    var q := Pushed(s);
    forall i | 0 <= i < q.t && s.small ensures Contents(q.pages[q.o[i]]) != [] {
      if RingFull(s) { assert q.o[i] == s.o[i + 1]; assert Contents(s.pages[s.o[i + 1]]) != []; }
    }
  }

  lemma AccountDrop(log: seq<Event>, delivered: seq<Event>, a: seq<Event>, lost: seq<Event>, b: seq<Event>,
                    entries: nat, overrun: nat, read: nat)
    requires Accounted(log, delivered, a + (lost + b), entries, overrun, read)
    ensures Accounted(log, delivered, a + b, entries, overrun + |lost|, read)
  {
    assert delivered + (a + (lost + b)) == (delivered + a) + lost + b;
    SubseqDrop(delivered + a, lost, b, log);
    assert delivered + (a + b) == (delivered + a) + b;
  }

  lemma PushedCore(s: Ring)
    requires Core(s) && s.open.None? && (s.small ==> Tail(s).commit > 0)
    ensures var q := Pushed(s);
      && Core(q) && q.t < |q.o| - 1 && Tail(q) == Tail(s) && OnReader(q) == OnReader(s) && q.open.None?
      && OnRing(s) == Lost(s) + OnRing(q) && q.overrun == s.overrun + |Lost(s)|
  {
    hide QueueOk, TailStamp, Rest, RingEvents, Dense, Contents, Whole, Readable, Accounted, Timed, Lost, TailOk;
    Bounds(s);
    assert s.small && s.discarded == 0 ==> s.entries > 0;
    PushedQueue(s);
    PushedShape(s);
    hide Shape;
    AccountDrop(s.log, s.delivered, OnReader(s), Lost(s), OnRing(Pushed(s)), s.entries, s.overrun, s.readCount);
    assert TailOk(Tail(s), Pushed(s).t, None) by { TailOkEither(Tail(s), s.t, Pushed(s).t); }
  }

  lemma TailOkEither(p: Page, t: int, t': int)
    requires TailOk(p, t, None) && (t < 0 <==> t' < 0)
    ensures TailOk(p, t', None)
  {
  }

  /** The rest of tb_move_tail; ts is the clock value the failed attempt took. */
  function Onward(s: Ring, h': HP.State, ts: nat): Ring
    requires |s.o| >= 2 && -1 <= s.t < |s.o| - 1 && s.h.reader < |s.pages|
    requires forall i :: 0 <= i < |s.o| ==> s.o[i] < |s.pages|
    requires |Tail(s).data| == PAGE && Tail(s).commit <= PAGE
  {
    s.(pages := MovedOn(s.pages, s.o, s.t, s.h.reader), t := s.t + 1, h := h',
       beforeStamp := s.writeStamp, timed := s.timed && s.lastTs <= ts, lastTs := ts)
  }

  lemma OnwardQueue(s: Ring, h': HP.State, ts: nat)
    requires QueueOf(s) && TailOk(Tail(s), s.t, None) && h'.reader == s.h.reader && s.t < |s.o| - 1
    ensures |Tail(s).data| == PAGE && Tail(s).commit <= PAGE && forall i :: 0 <= i < |s.o| ==> s.o[i] < |s.pages|
    ensures var s' := Onward(s, h', ts);
      && QueueOf(s') && OnReader(s') == OnReader(s) && OnRing(s') == OnRing(s)
      && TailOk(Tail(s'), s'.t, None) && Tail(s') == Cleared(s.pages[s.o[s.t + 1]])
  {
    hide QueueOk, Rest, RingEvents, Whole, Contents, MovedOn, TailOk;
    Bounds(s);
    TailSane(s);
    MoveOn(s.pages, s.o, s.t, s.h.reader, s.readStamp);
  }

  lemma OnwardShape(s: Ring, h': HP.State, ts: nat)
    requires QueueOf(s) && Shape(s) && TailOk(Tail(s), s.t, None) && h'.reader == s.h.reader && s.t < |s.o| - 1
    requires s.small ==> Tail(s).commit > 0
    requires |Tail(s).data| == PAGE && Tail(s).commit <= PAGE && forall i :: 0 <= i < |s.o| ==> s.o[i] < |s.pages|
    requires QueueOf(Onward(s, h', ts)) && Tail(Onward(s, h', ts)).commit == 0
    ensures Shape(Onward(s, h', ts))
  {
    var s' := Onward(s, h', ts);
    assert Dense(Tail(s').data, 0, 0);
    forall i | 0 <= i < s'.t && s.small ensures Contents(s'.pages[s'.o[i]]) != [] {
      OnwardNonempty(s, h', ts, i);
    }
    hide QueueOk, Dense, TailOk, MovedOn, Whole, Contents;
  }

  lemma OnwardNonempty(s: Ring, h': HP.State, ts: nat, i: nat)
    requires QueueOf(s) && Shape(s) && TailOk(Tail(s), s.t, None) && h'.reader == s.h.reader && i <= s.t < |s.o| - 1
    requires s.small && Tail(s).commit > 0
    requires |Tail(s).data| == PAGE && Tail(s).commit <= PAGE && forall i :: 0 <= i < |s.o| ==> s.o[i] < |s.pages|
    requires QueueOf(Onward(s, h', ts))
    ensures Contents(Onward(s, h', ts).pages[s.o[i]]) != []
  {
    var p := Tail(s);
    if i == s.t { DenseHasEvent(p.data, 0, p.commit, p.stamp); }
    hide QueueOk, Dense, TailOk, MovedOn;
    Bounds(s);
    MovedNonempty(s.pages, s.o, s.t, s.h.reader, s.readStamp, i);
  }

  lemma OnwardTimed(writeStamp: nat, lastTs: nat, ts: nat, commit: nat, stamp: nat, stamp': nat, before: nat)
    requires Timed(commit, stamp, None, writeStamp, before, lastTs) && lastTs <= ts < TWO64
    ensures Timed(0, stamp', None, writeStamp, writeStamp, ts)
  {
  }

  lemma OnwardCore(s: Ring, h': HP.State, ts: nat)
    requires Core(s) && s.open.None? && h'.reader == s.h.reader && s.t < |s.o| - 1 && ts < TWO64
    requires s.small ==> Tail(s).commit > 0
    ensures |Tail(s).data| == PAGE && Tail(s).commit <= PAGE && forall i :: 0 <= i < |s.o| ==> s.o[i] < |s.pages|
    ensures var s' := Onward(s, h', ts);
      && Core(s') && Tail(s').commit == 0 && Tail(s').write == 0
      && OnReader(s') == OnReader(s) && OnRing(s') == OnRing(s)
      && TailId(s'.o, s'.t, s'.h.reader) == s.o[s.t + 1]
  {
    hide QueueOk, TailStamp, Rest, RingEvents, Dense, Contents, Whole, Readable, Accounted, MovedOn, Timed, TailOk,
         Shape;
    Bounds(s);
    OnwardQueue(s, h', ts);
    OnwardShape(s, h', ts);
    var s' := Onward(s, h', ts);
    if s'.timed { OnwardTimed(s.writeStamp, s.lastTs, ts, Tail(s).commit, Stamp(s), Stamp(s'), s.beforeStamp); }
  }
}
