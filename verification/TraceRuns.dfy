/** Whole runs of the trace ring: any sequence of calls on a fresh ring, what they committed, which
    pages of it were lost, and what the reader was told. */
module TraceRuns {
  import opened Bytes
  import opened TraceEvent
  import opened TracePages
  import opened TraceQueue
  import opened TraceState
  import opened RingMoves
  import opened TraceRing

  /** One call on the ring. */
  datatype Call = DoReserve(length: nat) | DoFill(at: nat, bytes: seq<byte>) | DoCommit | DoDiscard | DoConsume
      | DoPeek | DoEmpty

  /** Where a committed event comes from: the call that reserved it, and the round of that call whose
      clock reading it took; what its area held then; and the call that committed it. */
  datatype Origin = Origin(call: nat, round: nat, area: seq<byte>, end: nat)

  /** A run so far: the origins of the committed events; the reservations made, each a call and its
      round; the open reservation, if there is one; the log by pages and their fates; and how things
      stood at each answer. */
  datatype Tale = Tale(origin: seq<Origin>, taken: seq<(nat, nat)>, at: Origin, placed: seq<seq<Event>>,
      kept: seq<bool>, marks: seq<Mark>)

  /** The area after the calls from i to j: every fill that lies inside it takes effect. */
  function Painted(area: seq<byte>, calls: seq<Call>, i: nat, j: nat): (r: seq<byte>)
    requires j <= |calls|
    ensures |r| == |area|
    decreases j
  {
    if j <= i then area
    else
      var p := Painted(area, calls, i, j - 1);
      var c := calls[j - 1];
      if c.DoFill? && c.at + |c.bytes| <= |area| then Splice(p, c.at, c.bytes) else p
  }

  /** Call i opens a reservation of at least the requested length, which no call up to j ends. */
  ghost predicate StaysOpen(calls: seq<Call>, i: nat, area: seq<byte>, j: nat) {
    && i < j <= |calls| && calls[i].DoReserve? && calls[i].length <= |area|
    && forall k :: i < k < j ==> !calls[k].DoCommit? && !calls[k].DoDiscard?
  }

  /** Every event of the log was reserved by one call and committed by the next that ends it, and
      holds what the fills between the two made of its area. */
  ghost predicate Told(calls: seq<Call>, log: seq<Event>, origin: seq<Origin>, n: nat)
    requires n <= |calls|
  {
    && |log| == |origin|
    && (forall j :: 0 <= j < |log| ==> ToldOne(calls, log[j], origin[j], n))
    && (forall j, k :: 0 <= j < k < |log| ==> origin[j].end < origin[k].call)
  }

  ghost predicate ToldOne(calls: seq<Call>, e: Event, from: Origin, n: nat)
    requires n <= |calls|
  {
    && from.end < n && StaysOpen(calls, from.call, from.area, from.end) && calls[from.end].DoCommit?
    && e.body == Painted(from.area, calls, from.call + 1, from.end)
  }

  /** The open reservation, before call n. */
  ghost predicate Held(calls: seq<Call>, origin: seq<Origin>, at: Origin, area: seq<byte>, n: nat) {
    && StaysOpen(calls, at.call, at.area, n)
    && (forall j :: 0 <= j < |origin| ==> origin[j].end < at.call)
    && area == Painted(at.area, calls, at.call + 1, n)
  }

  lemma ToldOn(calls: seq<Call>, log: seq<Event>, origin: seq<Origin>, n: nat)
    requires n < |calls| && Told(calls, log, origin, n)
    ensures Told(calls, log, origin, n + 1)
  {
    hide StaysOpen, Painted;
    forall j | 0 <= j < |log| ensures ToldOne(calls, log[j], origin[j], n + 1) {
      assert ToldOne(calls, log[j], origin[j], n);
    }
  }

  lemma ToldCommit(calls: seq<Call>, log: seq<Event>, origin: seq<Origin>, at: Origin, e: Event, n: nat)
    requires n < |calls| && Told(calls, log, origin, n) && Held(calls, origin, at, e.body, n) && calls[n].DoCommit?
    ensures Told(calls, log + [e], origin + [at.(end := n)], n + 1)
  {
    hide StaysOpen, Painted;
    var log', origin' := log + [e], origin + [at.(end := n)];
    forall j | 0 <= j < |log'| ensures ToldOne(calls, log'[j], origin'[j], n + 1) {
      if j < |log| { assert ToldOne(calls, log[j], origin[j], n); }
    }
  }

  lemma HeldNew(calls: seq<Call>, log: seq<Event>, origin: seq<Origin>, area: seq<byte>, round: nat, n: nat)
    requires n < |calls| && Told(calls, log, origin, n) && calls[n].DoReserve? && calls[n].length <= |area|
    ensures Held(calls, origin, Origin(n, round, area, n), area, n + 1)
  {
    forall j | 0 <= j < |origin| ensures origin[j].end < n { assert ToldOne(calls, log[j], origin[j], n); }
  }

  /** While it is open: a fill that fits changes the area, nothing else does. */
  lemma HeldOn(calls: seq<Call>, origin: seq<Origin>, at: Origin, area: seq<byte>, area': seq<byte>, n: nat)
    requires n < |calls| && Held(calls, origin, at, area, n) && !calls[n].DoCommit? && !calls[n].DoDiscard?
    requires area' == if calls[n].DoFill? && calls[n].at + |calls[n].bytes| <= |area|
      then Splice(area, calls[n].at, calls[n].bytes) else area
    ensures Held(calls, origin, at, area', n + 1)
  {
    hide Splice;
    assert |Painted(at.area, calls, at.call + 1, n)| == |at.area|;
    assert area' == Painted(at.area, calls, at.call + 1, n + 1);
    hide Painted;
  }

  // ------------------------------------------------------------------------------------------
  // The clock.
  // ------------------------------------------------------------------------------------------

  /** A clock that never goes back, over all readings of all calls. */
  ghost predicate Monotone(clock: (nat, nat) -> Clock) {
    forall i, k, i', k' :: i < i' || (i == i' && k <= k') ==> clock(i, k) <= clock(i', k')
  }

  /** Successive reservations, each a call and its round, less than 2^59 apart. */
  ghost predicate Close(clock: (nat, nat) -> Clock, taken: seq<(nat, nat)>) {
    forall j :: 0 < j < |taken| ==> clock(taken[j].0, taken[j].1) - clock(taken[j - 1].0, taken[j - 1].1) < TWO59
  }

  /** The clock keeps every stamp exact: its readings, or, if nothing is ever discarded, its gaps
      between reservations, stay below 2^59. */
  ghost predicate Behaved(clock: (nat, nat) -> Clock, calls: seq<Call>, taken: seq<(nat, nat)>) {
    Monotone(clock) && ((forall i, k :: clock(i, k) < TWO59) || (DoDiscard !in calls && Close(clock, taken)))
  }

  /** Each event of the log carries the clock reading of its own reservation. */
  ghost predicate ClockStamped(log: seq<Event>, origin: seq<Origin>, clock: (nat, nat) -> Clock) {
    |log| == |origin| && forall j :: 0 <= j < |log| ==> log[j].ts == clock(origin[j].call, origin[j].round)
  }

  lemma ClockStampedMore(log: seq<Event>, origin: seq<Origin>, clock: (nat, nat) -> Clock, e: Event, at: Origin)
    requires ClockStamped(log, origin, clock) && e.ts == clock(at.call, at.round)
    ensures ClockStamped(log + [e], origin + [at], clock)
  {
  }

  /** The reservations made so far are reserve calls, in order. */
  ghost predicate Taken(calls: seq<Call>, taken: seq<(nat, nat)>, n: nat)
    requires n <= |calls|
  {
    && (forall j :: 0 <= j < |taken| ==> taken[j].0 < n && calls[taken[j].0].DoReserve?)
    && (forall j, k :: 0 <= j < k < |taken| ==> taken[j].0 < taken[k].0)
  }

  lemma BehavedBefore(clock: (nat, nat) -> Clock, calls: seq<Call>, taken: seq<(nat, nat)>, at: (nat, nat))
    ensures Behaved(clock, calls, taken + [at]) ==> Behaved(clock, calls, taken)
    ensures Behaved(clock, calls, taken + [at]) && |taken| > 0 && DoDiscard !in calls ==>
      (forall i, k :: clock(i, k) < TWO59)
        || clock(at.0, at.1) - clock(taken[|taken| - 1].0, taken[|taken| - 1].1) < TWO59
  {
    var more := taken + [at];
    if Close(clock, more) {
      forall j | 0 < j < |taken| ensures clock(taken[j].0, taken[j].1) - clock(taken[j - 1].0, taken[j - 1].1) < TWO59 {
        assert more[j] == taken[j] && more[j - 1] == taken[j - 1];
      }
      if |taken| > 0 { assert more[|taken|] == at && more[|taken| - 1] == taken[|taken| - 1]; }
    }
  }

  // ------------------------------------------------------------------------------------------
  // Which calls commit what, when no request is refused for want of room.
  // ------------------------------------------------------------------------------------------

  datatype Deeds = Deeds(done: seq<(nat, nat)>, open: Opened)
  datatype Opened = Nobody | By(call: nat)

  /** The reserve and commit calls that belong together, and the reserve call still open. */
  function DeedsOf(calls: seq<Call>, n: nat): Deeds
    requires n <= |calls|
  {
    if n == 0 then Deeds([], Nobody)
    else
      var d := DeedsOf(calls, n - 1);
      match calls[n - 1]
      case DoReserve(length) => if d.open.Nobody? && length <= MAX_DATA then d.(open := By(n - 1)) else d
      case DoCommit => if d.open.By? then Deeds(d.done + [(d.open.call, n - 1)], Nobody) else d
      case DoDiscard => d.(open := Nobody)
      case _ => d
  }

  predicate AllSmall(calls: seq<Call>) {
    forall i :: 0 <= i < |calls| && calls[i].DoReserve? ==>
      calls[i].length <= MAX_DATA - TIME_LEN || calls[i].length > MAX_DATA
  }

  function Pairs(origin: seq<Origin>): seq<(nat, nat)> {
    seq(|origin|, (i: nat) requires i < |origin| => (origin[i].call, origin[i].end))
  }

  ghost predicate Matches(calls: seq<Call>, origin: seq<Origin>, open: bool, call: nat, n: nat)
    requires n <= |calls|
  {
    DeedsOf(calls, n) == Deeds(Pairs(origin), if open then By(call) else Nobody)
  }

  lemma PairsMore(origin: seq<Origin>, at: Origin)
    ensures Pairs(origin + [at]) == Pairs(origin) + [(at.call, at.end)]
  {
  }

  /** With nothing discarded, the write stamp is the reading of the last reservation. */
  ghost predicate Undisrupted(s: Ring, taken: seq<(nat, nat)>, clock: (nat, nat) -> Clock) {
    && s.discarded == 0 && s.beforeStamp == s.writeStamp
    && if taken == [] then s.log == [] && s.open.None?
       else s.writeStamp == clock(taken[|taken| - 1].0, taken[|taken| - 1].1)
  }

  lemma FirstPageEmpty(s: Ring)
    requires Ok(s) && s.discarded == 0 && s.log == [] && s.open.None?
    ensures TailWrite(s) == 0
  {
    hide Idle, QueueOk, Timed;
  }

  /** A clock that behaves keeps the stamps of call i exact. */
  lemma CallInTime(clock: (nat, nat) -> Clock, calls: seq<Call>, taken: seq<(nat, nat)>, s: Ring, i: nat,
                   now: nat -> Clock, here: bool)
    requires Ok(s) && s.open.None? && (DoDiscard !in calls ==> Undisrupted(s, taken, clock))
    requires s.lastTs <= clock(i, 0) && (forall k :: now(k) == clock(i, k))
    requires if here then Behaved(clock, calls, taken + [(i, 0)]) else Monotone(clock)
    ensures InTime(now, s, here)
  {
    hide Ok, ClockOk, Close;
    assert forall k :: clock(i, 0) <= clock(i, k);
    assert forall j, k :: 0 <= j <= k ==> clock(i, j) <= clock(i, k);
    if here {
      BehavedBefore(clock, calls, taken, (i, 0));
      if DoDiscard !in calls && taken == [] { FirstPageEmpty(s); }
      ClockIsOk(clock, calls, taken, s, i);
    }
  }

  lemma ClockIsOk(clock: (nat, nat) -> Clock, calls: seq<Call>, taken: seq<(nat, nat)>, s: Ring, i: nat)
    requires s.lastTs <= clock(i, 0)
    requires (forall j, k :: clock(j, k) < TWO59) || (DoDiscard !in calls && Undisrupted(s, taken, clock)
      && (if taken == [] then TailWrite(s) == 0
           else clock(i, 0) - clock(taken[|taken| - 1].0, taken[|taken| - 1].1) < TWO59))
    ensures ClockOk(TailWrite(s), s.beforeStamp, s.writeStamp, s.lastTs, clock(i, 0))
  {
    hide TailWrite;
  }

  // ------------------------------------------------------------------------------------------
  // The pages the tail has been on.
  // ------------------------------------------------------------------------------------------

  /** The events on those of the first |kept| pages that had this fate: taken by the reader, or lost. */
  function Fate(placed: seq<seq<Event>>, kept: seq<bool>, fate: bool): seq<Event>
    requires |kept| <= |placed|
  {
    if kept == [] then []
    else
      var n := |kept| - 1;
      Fate(placed, kept[..n], fate) + (if kept[n] == fate then placed[n] else [])
  }

  /** What the reader has taken off the ring, consumed or not. */
  ghost function Front(s: Ring): seq<Event>
    requires QueueOf(s)
  {
    s.delivered + OnReader(s)
  }

  /** `placed` is the log, divided by the pages the tail has been on.  The last of them are on the
      ring, as in `list`; of the others, each went to the reader or was lost as a whole.  A page is
      lost only when the tail has gone n pages, the whole ring, further. */
  predicate Divided(n: nat, list: seq<seq<Event>>, front: seq<Event>, log: seq<Event>, placed: seq<seq<Event>>,
                    kept: seq<bool>) {
    && |kept| <= |placed| && list == placed[|kept|..] && front == Fate(placed, kept, true) && log == Flat(placed)
    && (list == [] ==> kept != [] && kept[|kept| - 1])
    && (forall i :: 0 <= i < |kept| && !kept[i] ==> i + n < |placed|)
  }

  ghost predicate Paged(s: Ring, placed: seq<seq<Event>>, kept: seq<bool>) {
    QueueOf(s) && Divided(|s.o|, PageList(s.pages, s.o, s.t), Front(s), s.log, placed, kept)
  }

  /** What a call does to the ring: events go onto the tail page, the reader takes events from the
      front, or the tail turns k pages. */
  datatype Move = Grow(more: seq<Event>) | Read | Turn(k: nat)

  ghost predicate Moves(s: Ring, s': Ring, m: Move) {
    && QueueOf(s) && QueueOf(s')
    && match m
       case Grow(more) =>
         && s'.o == s.o && s'.t == s.t && s'.h.reader == s.h.reader && s'.readStamp == s.readStamp
         && OnlyPage(s.pages, s'.pages, TailId(s.o, s.t, s.h.reader))
         && Queue(s') == Queue(s) + more && s'.log == s.log + more && s'.delivered == s.delivered
       case Read => s'.log == s.log && Passes(s, s')
       case Turn(k) =>
         && Turned(s.pages, s.o, s.t, s'.pages, s'.o, s'.t, k)
         && OnReader(s') == OnReader(s) && s'.log == s.log && s'.delivered == s.delivered
  }

  /** A page that is lost stays as it is, and no fate changes. */
  ghost predicate Further(placed: seq<seq<Event>>, kept: seq<bool>, placed': seq<seq<Event>>, kept': seq<bool>) {
    && |kept| <= |placed| <= |placed'| && |kept| <= |kept'| <= |placed'| && kept == kept'[..|kept|]
    && forall i :: 0 <= i < |kept| && !kept[i] ==> placed'[i] == placed[i]
  }

  lemma {:induction false} FateSame(placed: seq<seq<Event>>, placed': seq<seq<Event>>, kept: seq<bool>, fate: bool)
    requires |kept| <= |placed| && |kept| <= |placed'|
    requires forall i :: 0 <= i < |kept| && kept[i] == fate ==> placed'[i] == placed[i]
    ensures Fate(placed', kept, fate) == Fate(placed, kept, fate)
  {
    if kept != [] { FateSame(placed, placed', kept[..|kept| - 1], fate); }
  }

  /** From page m on all with the same fate. */
  lemma {:induction false} FateMore(placed: seq<seq<Event>>, kept: seq<bool>, m: nat, fate: bool)
    requires m <= |kept| <= |placed| && forall i :: m <= i < |kept| ==> kept[i] == fate
    ensures Fate(placed, kept, fate) == Fate(placed, kept[..m], fate) + Flat(placed[m..|kept|])
    ensures Fate(placed, kept, !fate) == Fate(placed, kept[..m], !fate)
  {
    if m == |kept| {
      assert kept[..m] == kept && placed[m..m] == [];
    } else {
      var n := |kept| - 1;
      FateMore(placed, kept[..n], m, fate);
      assert kept[..n][..m] == kept[..m];
      FateStep(placed, kept, m, fate);
    }
  }

  lemma FateStep(placed: seq<seq<Event>>, kept: seq<bool>, m: nat, fate: bool)
    requires m < |kept| <= |placed| && kept[|kept| - 1] == fate
    requires var n := |kept| - 1; Fate(placed, kept[..n], fate) == Fate(placed, kept[..m], fate) + Flat(placed[m..n])
    ensures Fate(placed, kept, fate) == Fate(placed, kept[..m], fate) + Flat(placed[m..|kept|])
  {
    var n := |kept| - 1;
    assert placed[m..n + 1][..n - m] == placed[m..n];
    Assoc(Fate(placed, kept[..m], fate), Flat(placed[m..n]), placed[n]);
  }

  function Fates(k: nat, fate: bool): seq<bool> { seq(k, _ => fate) }

  lemma Assoc(a: seq<Event>, b: seq<Event>, c: seq<Event>)
    ensures a + (b + c) == a + b + c
  {
  }

  lemma {:induction false} FateParts(placed: seq<seq<Event>>, kept: seq<bool>)
    requires |kept| <= |placed|
    ensures |Flat(placed[..|kept|])| == |Fate(placed, kept, true)| + |Fate(placed, kept, false)|
  {
    if kept != [] {
      var n := |kept| - 1;
      FateParts(placed, kept[..n]);
      assert placed[..|kept|][..n] == placed[..n];
    }
  }

  lemma {:induction false} FlatBlanks(k: nat)
    ensures Flat(Blanks(k)) == []
  {
    if k > 0 {
      FlatBlanks(k - 1);
      assert Blanks(k)[..k - 1] == Blanks(k - 1);
    }
  }

  /** What is on the ring is what its pages hold. */
  lemma ListIs(s: Ring)
    requires QueueOf(s)
    ensures Queue(s) == OnReader(s) + Flat(PageList(s.pages, s.o, s.t)) && -1 <= s.t
  {
    QueueParts(s);
    hide Whole, Readable, Left, Contents, Rest;
    PageListFlat(s.pages, s.o, s.t);
  }

  /** Events go onto the tail page. */
  lemma DividedGrow(n: nat, list: seq<seq<Event>>, front: seq<Event>, log: seq<Event>, more: seq<Event>,
                    placed: seq<seq<Event>>, kept: seq<bool>)
    requires Divided(n, list, front, log, placed, kept)
    ensures placed != []
    ensures var i, j := |placed| - 1, |list| - 1; var placed' := placed[i := placed[i] + more];
      && Further(placed, kept, placed', kept)
      && (list == [] ==> Divided(n, [], front + more, log + more, placed', kept))
      && (list != [] ==> Divided(n, list[j := list[j] + more], front, log + more, placed', kept))
  {
    var i := |placed| - 1;
    var placed' := placed[i := placed[i] + more];
    assert placed'[..i] == placed[..i];
    assert Flat(placed[..i]) + (placed[i] + more) == Flat(placed) + more;
    if list == [] {
      FateSame(placed, placed', kept[..i], true);
      assert Fate(placed, kept[..i], true) + (placed[i] + more) == Fate(placed, kept, true) + more;
    } else {
      FateSame(placed, placed', kept, true);
    }
  }

  lemma PagedGrow(s: Ring, s': Ring, more: seq<Event>, placed: seq<seq<Event>>, kept: seq<bool>)
    requires Paged(s, placed, kept) && Moves(s, s', Grow(more))
    ensures placed != []
    ensures var n := |placed| - 1; var placed' := placed[n := placed[n] + more];
      Paged(s', placed', kept) && Further(placed, kept, placed', kept) && Front(s) <= Front(s')
  {
    hide QueueOf, PageList, Front, Divided, Further, Moves;
    GrowFacts(s, s', more);
    DividedGrow(|s.o|, PageList(s.pages, s.o, s.t), Front(s), s.log, more, placed, kept);
  }

  lemma GrowFacts(s: Ring, s': Ring, more: seq<Event>)
    requires Moves(s, s', Grow(more))
    ensures QueueOf(s) && QueueOf(s') && s'.o == s.o && s'.log == s.log + more && Front(s) <= Front(s')
    ensures var list, list' := PageList(s.pages, s.o, s.t), PageList(s'.pages, s'.o, s'.t); var j := |list| - 1;
      if list == [] then list' == [] && Front(s') == Front(s) + more
      else list' == list[j := list[j] + more] && Front(s') == Front(s)
  {
    Bounds(s);
    hide QueueOf, Queue, PageList, OnReader, Front;
    TailGrows(s, s', more);
    FrontGrows(s, s', more);
    var list, list' := PageList(s.pages, s.o, s.t), PageList(s'.pages, s'.o, s'.t);
    if s.t == -1 {
      assert list == [] && list' == [];
    } else {
      assert |list| - 1 == s.t && list' == list[s.t := list[s.t] + more];
    }
  }

  lemma FrontGrows(s: Ring, s': Ring, more: seq<Event>)
    requires QueueOf(s) && QueueOf(s') && s'.delivered == s.delivered
    requires OnReader(s') == if s.t == -1 then OnReader(s) + more else OnReader(s)
    ensures Front(s') == (if s.t == -1 then Front(s) + more else Front(s)) && Front(s) <= Front(s')
  {
    hide QueueOf, OnReader;
    Assoc(s.delivered, OnReader(s), more);
  }

  /** The reader takes events, and with them d pages, from the front. */
  lemma DividedRead(n: nat, list: seq<seq<Event>>, front: seq<Event>, log: seq<Event>, d: nat, placed: seq<seq<Event>>,
                    kept: seq<bool>)
    requires Divided(n, list, front, log, placed, kept) && d <= |list|
    ensures var kept' := kept + Fates(d, true);
      Divided(n, list[d..], front + Flat(list[..d]), log, placed, kept') && Further(placed, kept, placed, kept')
  {
    var kept' := kept + Fates(d, true);
    assert kept'[..|kept|] == kept;
    FateMore(placed, kept', |kept|, true);
    assert list[..d] == placed[|kept|..|kept| + d];
    assert placed[|kept| + d..] == list[d..];
  }

  lemma PagedRead(s: Ring, s': Ring, placed: seq<seq<Event>>, kept: seq<bool>)
    requires Paged(s, placed, kept) && Moves(s, s', Read)
    ensures |PageList(s'.pages, s'.o, s'.t)| <= |PageList(s.pages, s.o, s.t)|
    ensures var kept' := kept + Fates(|PageList(s.pages, s.o, s.t)| - |PageList(s'.pages, s'.o, s'.t)|, true);
      Paged(s', placed, kept') && Further(placed, kept, placed, kept') && Front(s) <= Front(s')
  {
    ListIs(s);
    ListIs(s');
    hide QueueOf, Queue, PageList, OnReader, Divided, Further;
    var list, list' := PageList(s.pages, s.o, s.t), PageList(s'.pages, s'.o, s'.t);
    var d := |list| - |list'|;
    assert list == list[..d] + list';
    FlatSplit(list[..d], list');
    CancelEnd(s.delivered, OnReader(s), Flat(list[..d]), Flat(list'), s'.delivered, OnReader(s'));
    DividedRead(|s.o|, list, Front(s), s.log, d, placed, kept);
  }

  lemma CancelEnd(a: seq<Event>, b: seq<Event>, c: seq<Event>, d: seq<Event>, a': seq<Event>, b': seq<Event>)
    requires a' + (b' + d) == a + (b + (c + d))
    ensures a' + b' == a + b + c
  {
    assert a' + (b' + d) == (a' + b') + d;
    assert a + (b + (c + d)) == (a + b + c) + d;
    assert ((a' + b') + d)[..|a' + b'|] == a' + b' && ((a + b + c) + d)[..|a + b + c|] == a + b + c;
  }

  /** The tail turns k pages. */
  lemma DividedTurn(n: nat, list: seq<seq<Event>>, front: seq<Event>, log: seq<Event>, k: nat, placed: seq<seq<Event>>,
                    kept: seq<bool>)
    requires Divided(n, list, front, log, placed, kept) && |list| <= n && n >= 1
    ensures var d := Drop(|list|, n, k); var placed', kept' := placed + Blanks(k), kept + Fates(d, false);
      Divided(n, (list + Blanks(k))[d..], front, log, placed', kept') && Further(placed, kept, placed', kept')
  {
    hide Fate, Flat;
    var d := Drop(|list|, n, k);
    var placed' := placed + Blanks(k);
    assert placed'[|kept|..] == list + Blanks(k);
    assert placed'[|kept| + d..] == (list + Blanks(k))[d..];
    var kept' := kept + Fates(d, false);
    assert kept'[..|kept|] == kept;
    FateMore(placed', kept', |kept|, false);
    FateSame(placed, placed', kept, true);
    FlatSplit(placed, Blanks(k));
    FlatBlanks(k);
    assert Flat(placed) + [] == Flat(placed);
    if list == [] && k == 0 { assert kept + Fates(0, false) == kept; }
  }

  lemma PagedTurn(s: Ring, s': Ring, k: nat, placed: seq<seq<Event>>, kept: seq<bool>)
    requires Paged(s, placed, kept) && Moves(s, s', Turn(k))
    ensures |PageList(s.pages, s.o, s.t)| <= |s.o|
    ensures var placed', kept' := placed + Blanks(k),
      kept + Fates(Drop(|PageList(s.pages, s.o, s.t)|, |s.o|, k), false);
      Paged(s', placed', kept') && Further(placed, kept, placed', kept') && Front(s) <= Front(s')
  {
    hide QueueOf, Queue, PageList, OnReader, Divided, Further;
    DividedTurn(|s.o|, PageList(s.pages, s.o, s.t), Front(s), s.log, k, placed, kept);
  }

  lemma PagedOn(s: Ring, s': Ring, m: Move, placed: seq<seq<Event>>, kept: seq<bool>)
    returns (placed': seq<seq<Event>>, kept': seq<bool>)
    requires Paged(s, placed, kept) && Moves(s, s', m)
    ensures Paged(s', placed', kept') && Further(placed, kept, placed', kept') && Front(s) <= Front(s')
  {
    match m
    case Grow(more) =>
      PagedGrow(s, s', more, placed, kept);
      placed', kept' := placed[|placed| - 1 := placed[|placed| - 1] + more], kept;
    case Read =>
      PagedRead(s, s', placed, kept);
      placed', kept' := placed, kept + Fates(|PageList(s.pages, s.o, s.t)| - |PageList(s'.pages, s'.o, s'.t)|, true);
    case Turn(k) =>
      PagedTurn(s, s', k, placed, kept);
      placed', kept' := placed + Blanks(k), kept + Fates(Drop(|PageList(s.pages, s.o, s.t)|, |s.o|, k), false);
  }

  /** The events on the lost pages are those overrun counts. */
  lemma LostCounted(s: Ring, placed: seq<seq<Event>>, kept: seq<bool>)
    requires Ok(s) && Paged(s, placed, kept)
    ensures |kept| <= |placed| && |Fate(placed, kept, false)| == s.overrun
    ensures s.delivered + Queue(s) == Fate(placed, kept, true) + Flat(placed[|kept|..])
  {
    hide Idle, QueueOk, TailOk, Shape, Timed, Subseq, PageList, OnReader;
    assert |s.log| == |s.delivered| + |Queue(s)| + s.overrun;
    ListIs(s);
    FateParts(placed, kept);
    FlatSplit(placed[..|kept|], placed[|kept|..]);
    assert placed[..|kept|] + placed[|kept|..] == placed;
    assert s.delivered + (OnReader(s) + Flat(placed[|kept|..])) == Front(s) + Flat(placed[|kept|..]);
  }

  // ------------------------------------------------------------------------------------------
  // What the reader is told.
  // ------------------------------------------------------------------------------------------

  /** The answer to a reading call. */
  datatype Answer = Consumed(call: nat, got: Peeked) | Looked(call: nat, got: Peeked) | Tested(call: nat, empty: bool)

  /** How things stood at an answer: how much was unread, and how many pages had left the ring. */
  datatype Mark = Mark(unread: nat, gone: nat)

  /** The consumed events. */
  function Drained(answers: seq<Answer>): seq<Event> {
    if answers == [] then []
    else
      var x := answers[|answers| - 1];
      Drained(answers[..|answers| - 1]) + (if x.Consumed? && x.got.Data? then [x.got.ev] else [])
  }

  /** The reading calls among the first n. */
  function Asked(calls: seq<Call>, n: nat): seq<nat>
    requires n <= |calls|
  {
    if n == 0 then []
    else
      var c := calls[n - 1];
      Asked(calls, n - 1) + (if c.DoConsume? || c.DoPeek? || c.DoEmpty? then [n - 1] else [])
  }

  function CallsOf(answers: seq<Answer>): seq<nat> {
    seq(|answers|, (i: nat) requires i < |answers| => answers[i].call)
  }

  /** How many events were committed before a call. */
  function Ended(origin: seq<Origin>, call: nat): nat {
    if origin == [] then 0
    else if origin[|origin| - 1].end < call then |origin|
    else Ended(origin[..|origin| - 1], call)
  }

  /** A consume or a peek gives the event that is next in the order of consumption, or nothing if
      nothing is unread. */
  predicate RightEvent(got: Peeked, next: nat, unread: nat, all: seq<Event>) {
    if unread == 0 then got.Nothing? else next < |all| && got == Data(all[next])
  }

  /** An emptiness test says so only if nothing is unread; and always then, if every request leaves
      room for a time header, nothing is discarded and no reservation is open. */
  predicate RightTest(calls: seq<Call>, call: nat, empty: bool, unread: nat)
    requires call <= |calls|
  {
    && (empty ==> unread == 0)
    && (AllSmall(calls) && DoDiscard !in calls && DeedsOf(calls, call).open.Nobody? && unread == 0 ==> empty)
  }

  ghost predicate RightAnswer(calls: seq<Call>, answers: seq<Answer>, a: nat, m: Mark, tale: Tale, all: seq<Event>)
    requires a < |answers|
  {
    var next := |Drained(answers[..a])|;
    && m.gone <= |tale.kept| <= |tale.placed| && answers[a].call < |calls|
    && Ended(tale.origin, answers[a].call) == next + m.unread + |Fate(tale.placed, tale.kept[..m.gone], false)|
    && match answers[a]
       case Consumed(call, got) => calls[call].DoConsume? && RightEvent(got, next, m.unread, all)
       case Looked(call, got) => calls[call].DoPeek? && RightEvent(got, next, m.unread, all)
       case Tested(call, empty) => calls[call].DoEmpty? && RightTest(calls, call, empty, m.unread)
  }

  /** Every reading call is answered, and rightly: every event committed before it is consumed,
      unread or on a page that was lost by then. */
  ghost predicate RightAnswers(calls: seq<Call>, answers: seq<Answer>, tale: Tale, all: seq<Event>, n: nat)
    requires n <= |calls|
  {
    && CallsOf(answers) == Asked(calls, n) && |tale.marks| == |answers|
    && forall a :: 0 <= a < |answers| ==> RightAnswer(calls, answers, a, tale.marks[a], tale, all)
  }

  lemma {:induction false} AskedBound(calls: seq<Call>, n: nat)
    requires n <= |calls|
    ensures forall i :: 0 <= i < |Asked(calls, n)| ==> Asked(calls, n)[i] < n
  {
    if n > 0 { AskedBound(calls, n - 1); }
  }

  lemma {:induction false} EndedAll(calls: seq<Call>, log: seq<Event>, origin: seq<Origin>, n: nat)
    requires n <= |calls| && Told(calls, log, origin, n)
    ensures Ended(origin, n) == |origin| == |log|
  {
    if origin != [] { assert ToldOne(calls, log[|log| - 1], origin[|log| - 1], n); }
  }

  lemma EndedMore(origin: seq<Origin>, at: Origin, call: nat)
    requires call <= at.end
    ensures Ended(origin + [at], call) == Ended(origin, call)
  {
    assert (origin + [at])[..|origin|] == origin;
  }

  /** What a call changes in the tale and does not take back. */
  ghost predicate Onwards(tale: Tale, tale': Tale, all: seq<Event>, all': seq<Event>, n: nat) {
    && Further(tale.placed, tale.kept, tale'.placed, tale'.kept) && all <= all' && tale'.marks == tale.marks
    && (tale'.origin == tale.origin || tale'.origin == tale.origin + [tale.at.(end := n)])
  }

  lemma RightAnswerOn(calls: seq<Call>, answers: seq<Answer>, a: nat, m: Mark, tale: Tale, tale': Tale, all: seq<Event>,
                      all': seq<Event>, n: nat)
    requires a < |answers| && RightAnswer(calls, answers, a, m, tale, all) && Onwards(tale, tale', all, all', n)
      && answers[a].call <= n
    ensures RightAnswer(calls, answers, a, m, tale', all')
  {
    EndedMore(tale.origin, tale.at.(end := n), answers[a].call);
    assert tale'.kept[..m.gone] == tale.kept[..m.gone];
    FateSame(tale.placed, tale'.placed, tale.kept[..m.gone], false);
    hide Ended, Fate, Drained, RightTest;
  }

  /** The earlier answers stay right. */
  lemma RightAnswersOn(calls: seq<Call>, answers: seq<Answer>, tale: Tale, tale': Tale, all: seq<Event>,
                       all': seq<Event>, n: nat)
    requires n < |calls| && RightAnswers(calls, answers, tale, all, n) && Onwards(tale, tale', all, all', n)
    requires !calls[n].DoConsume? && !calls[n].DoPeek? && !calls[n].DoEmpty?
    ensures RightAnswers(calls, answers, tale', all', n + 1)
  {
    hide RightAnswer, Onwards;
    AskedBound(calls, n);
    forall a | 0 <= a < |answers| ensures RightAnswer(calls, answers, a, tale.marks[a], tale', all') {
      assert CallsOf(answers)[a] == answers[a].call;
      RightAnswerOn(calls, answers, a, tale.marks[a], tale, tale', all, all', n);
    }
    assert tale'.marks == tale.marks by { OnwardsMarks(tale, tale', all, all', n); }
  }

  lemma OnwardsMarks(tale: Tale, tale': Tale, all: seq<Event>, all': seq<Event>, n: nat)
    requires Onwards(tale, tale', all, all', n)
    ensures tale'.marks == tale.marks
  {
  }

  lemma RightAnswerBefore(calls: seq<Call>, answers: seq<Answer>, x: Answer, a: nat, m: Mark, tale: Tale,
                          marks: seq<Mark>, all: seq<Event>)
    requires a < |answers| && RightAnswer(calls, answers, a, m, tale, all)
    ensures RightAnswer(calls, answers + [x], a, m, tale.(marks := marks), all)
  {
    assert (answers + [x])[..a] == answers[..a];
    hide Ended, Fate, Drained, RightTest;
  }

  /** And a further one is. */
  lemma RightAnswersMore(calls: seq<Call>, answers: seq<Answer>, x: Answer, m: Mark, tale: Tale, tale': Tale,
                         all: seq<Event>, all': seq<Event>, n: nat)
    requires n < |calls| && RightAnswers(calls, answers, tale, all, n) && Onwards(tale, tale', all, all', n)
      && x.call == n
    requires calls[n].DoConsume? || calls[n].DoPeek? || calls[n].DoEmpty?
    requires RightAnswer(calls, answers + [x], |answers|, m, tale', all')
    ensures RightAnswers(calls, answers + [x], tale'.(marks := tale.marks + [m]), all', n + 1)
  {
    hide RightAnswer, Onwards;
    AskedBound(calls, n);
    var answers', tale2 := answers + [x], tale'.(marks := tale.marks + [m]);
    assert CallsOf(answers') == CallsOf(answers) + [n];
    forall a | 0 <= a < |answers'| ensures RightAnswer(calls, answers', a, tale2.marks[a], tale2, all') {
      if a < |answers| {
        assert CallsOf(answers)[a] == answers[a].call;
        RightAnswerOn(calls, answers, a, tale.marks[a], tale, tale', all, all', n);
        RightAnswerBefore(calls, answers, x, a, tale.marks[a], tale', tale2.marks, all');
      } else {
        RightAnswerMarks(calls, answers', a, m, tale', tale2.marks, all');
      }
    }
  }

  lemma RightAnswerMarks(calls: seq<Call>, answers: seq<Answer>, a: nat, m: Mark, tale: Tale, marks: seq<Mark>,
                         all: seq<Event>)
    requires a < |answers| && RightAnswer(calls, answers, a, m, tale, all)
    ensures RightAnswer(calls, answers, a, m, tale.(marks := marks), all)
  {
    hide Ended, Fate, Drained, RightTest, RightEvent;
  }

  // ------------------------------------------------------------------------------------------
  // One call.
  // ------------------------------------------------------------------------------------------

  /** Before call i: the ring is well formed and its history told; `at` is the open reservation. */
  ghost predicate Telling(ring: PerCpu, calls: seq<Call>, consumed: seq<Event>, origin: seq<Origin>,
                          taken: seq<(nat, nat)>,
                        at: Origin, clock: (nat, nat) -> Clock, i: nat)
    reads ring
  {
    && i <= |calls| && ring.Valid() && ring.delivered == consumed
    && Told(calls, ring.log, origin, i) && Taken(calls, taken, i)
    && (ring.open.Open? ==> Held(calls, origin, at, ring.Reservation(), i) && ring.open.ts == clock(at.call, at.round))
    && (Behaved(clock, calls, taken) ==>
         ring.timed && ring.lastTs <= clock(i, 0) && ClockStamped(ring.log, origin, clock))
    && (DoDiscard !in calls ==> Undisrupted(ring.Snap(), taken, clock))
    && (AllSmall(calls) ==> ring.small && Matches(calls, origin, ring.open.Open?, at.call, i))
  }

  lemma RunStarts(s: Ring, calls: seq<Call>, clock: (nat, nat) -> Clock)
    ensures Told(calls, [], [], 0) && Taken(calls, [], 0) && ClockStamped([], [], clock)
      && Matches(calls, [], false, 0, 0)
    ensures s.discarded == 0 && s.beforeStamp == s.writeStamp && s.log == [] && s.open.None? ==>
      Undisrupted(s, [], clock)
  {
  }

  /** Facts that hold again one call later. */
  lemma GoesOn(calls: seq<Call>, log: seq<Event>, origin: seq<Origin>, taken: seq<(nat, nat)>,
               clock: (nat, nat) -> Clock, last: nat, i: nat)
    requires i < |calls| && Told(calls, log, origin, i) && Taken(calls, taken, i)
    ensures Told(calls, log, origin, i + 1) && Taken(calls, taken, i + 1)
    ensures Behaved(clock, calls, taken) && last <= clock(i, 0) ==> last <= clock(i + 1, 0)
  {
    ToldOn(calls, log, origin, i);
    hide Told, Close;
  }

  lemma TakenMore(calls: seq<Call>, taken: seq<(nat, nat)>, at: (nat, nat), i: nat)
    requires i < |calls| && Taken(calls, taken, i) && at.0 == i && calls[i].DoReserve?
    ensures Taken(calls, taken + [at], i + 1)
  {
  }

  lemma MatchesOn(calls: seq<Call>, origin: seq<Origin>, open: bool, call: nat, open': bool, call': nat, i: nat)
    requires i < |calls| && Matches(calls, origin, open, call, i)
    requires match calls[i]
      case DoReserve(length) => (open' <==> open || length <= MAX_DATA) && (open' ==> call' == if open then call else i)
      case DoCommit => !open && !open'
      case DoDiscard => !open'
      case _ => open' == open && call' == call
    ensures Matches(calls, origin, open', call', i + 1)
  {
  }

  lemma MatchesCommit(calls: seq<Call>, origin: seq<Origin>, at: Origin, i: nat)
    requires i < |calls| && Matches(calls, origin, true, at.call, i) && calls[i].DoCommit?
    ensures Matches(calls, origin + [at.(end := i)], false, at.call, i + 1)
  {
    PairsMore(origin, at.(end := i));
  }

  lemma MovesGrow(s: Ring, s': Ring, more: seq<Event>)
    requires Ok(s) && Ok(s') && s'.o == s.o && s'.t == s.t && s'.h.reader == s.h.reader && s'.readStamp == s.readStamp
    requires OnlyPage(s.pages, s'.pages, s.h.tail) && Queue(s') == Queue(s) + more && s'.log == s.log + more
      && s'.delivered == s.delivered
    ensures Moves(s, s', Grow(more))
  {
    hide Idle, QueueOk, TailOk, Accounted, Shape, Timed, Unread, OnlyPage;
  }

  lemma MovesRead(s: Ring, s': Ring)
    requires KeepsTail(s, s') && s'.log == s.log
    ensures Moves(s, s', Read)
  {
    hide QueueOf, SameTail, Passes;
    assert Passes(s, s');
    PassesQueue(s, s');
  }

  lemma PassesQueue(s: Ring, s': Ring)
    requires Passes(s, s')
    ensures QueueOf(s) && QueueOf(s')
  {
    hide QueueOf, PageList, Queue;
  }

  lemma MovesTurn(s: Ring, s': Ring, k: nat)
    requires Ok(s) && Ok(s') && Turned(s.pages, s.o, s.t, s'.pages, s'.o, s'.t, k)
    requires OnReader(s') == OnReader(s) && s'.log == s.log && s'.delivered == s.delivered
    ensures Moves(s, s', Turn(k))
  {
    hide Idle, QueueOk, TailOk, Accounted, Shape, Timed, Turned, OnReader;
  }

  /** The answer is the first unread event, which is next in the order of consumption. */
  ghost predicate RightNext(s: Ring, s': Ring, got: Peeked) {
    QueueOf(s) && QueueOf(s') && RightEvent(got, |s.delivered|, |Queue(s)|, Front(s'))
  }

  lemma ConsumedNext(s: Ring, s': Ring, got: Peeked)
    requires Ok(s) && Ok(s') && got == (if Queue(s) == [] then Nothing else Data(Queue(s)[0]))
    requires s'.delivered == s.delivered + (if got.Data? then [got.ev] else [])
    ensures RightNext(s, s', got)
  {
    hide Idle, QueueOk, TailOk, Accounted, Shape, Timed, Queue, OnReader;
  }

  lemma PeekedNext(s: Ring, s': Ring, got: Peeked)
    requires Ok(s) && Ok(s') && Queue(s') == Queue(s)
      && got == (if Queue(s') == [] then Nothing else Data(Queue(s')[0]))
    requires s'.delivered == s.delivered && (got.Data? ==> OnReader(s') != [] && OnReader(s')[0] == got.ev)
    ensures RightNext(s, s', got)
  {
    hide Idle, QueueOk, TailOk, Accounted, Shape, Timed, Queue, OnReader;
  }

  lemma TestedRight(calls: seq<Call>, origin: seq<Origin>, open: bool, call: nat, i: nat, empty: bool, unread: nat)
    requires i <= |calls| && (empty ==> unread == 0)
    requires AllSmall(calls) && DoDiscard !in calls && !open ==> (empty <==> unread == 0)
    requires AllSmall(calls) ==> Matches(calls, origin, open, call, i)
    ensures RightTest(calls, i, empty, unread)
  {
    hide AllSmall, DeedsOf, Pairs;
  }

  /** A call that is skipped. */
  ghost method SkipCall(ring: PerCpu, calls: seq<Call>, consumed: seq<Event>, origin: seq<Origin>,
                        taken: seq<(nat, nat)>,
                        at: Origin, clock: (nat, nat) -> Clock, i: nat)
    requires Telling(ring, calls, consumed, origin, taken, at, clock, i) && i < |calls|
    requires if ring.open.Open?
      then calls[i].DoReserve? || (calls[i].DoFill? && calls[i].at + |calls[i].bytes| > |ring.Reservation()|)
      else calls[i].DoFill? || calls[i].DoCommit? || calls[i].DoDiscard?
    ensures Telling(ring, calls, consumed, origin, taken, at, clock, i + 1)
  {
    hide Ok, Settled, Area, Tail, Reserved, Behaved, ClockStamped, Told, Taken, Held, AllSmall, DeedsOf, Pairs,
         Undisrupted, Matches;
    GoesOn(calls, ring.log, origin, taken, clock, ring.lastTs, i);
    if ring.open.Open? { HeldOn(calls, origin, at, ring.Reservation(), ring.Reservation(), i); }
    if AllSmall(calls) { MatchesOn(calls, origin, ring.open.Open?, at.call, ring.open.Open?, at.call, i); }
  }

  method FillCall(ring: PerCpu, calls: seq<Call>, i: nat, ghost clock: (nat, nat) -> Clock, ghost consumed: seq<Event>,
                  ghost origin: seq<Origin>, ghost taken: seq<(nat, nat)>, ghost at: Origin)
    requires Telling(ring, calls, consumed, origin, taken, at, clock, i) && i < |calls| && calls[i].DoFill?
    requires ring.open.Open? && calls[i].at + |calls[i].bytes| <= |ring.Reservation()|
    modifies ring
    ensures Telling(ring, calls, consumed, origin, taken, at, clock, i + 1)
      && Moves(old(ring.Snap()), ring.Snap(), Grow([]))
  {
    hide Ok, Settled, Queue, Splice, Area, Tail, Reserved, Behaved, ClockStamped, Told, Taken, Held, AllSmall, DeedsOf,
         Pairs, Matches, Moves, OnlyPage;
    ghost var area, s := ring.Reservation(), ring.Snap();
    ring.Fill(calls[i].at, calls[i].bytes);
    MovesGrow(s, ring.Snap(), []);
    GoesOn(calls, ring.log, origin, taken, clock, ring.lastTs, i);
    HeldOn(calls, origin, at, area, ring.Reservation(), i);
    if AllSmall(calls) { MatchesOn(calls, origin, true, at.call, true, at.call, i); }
  }

  method CommitCall(ring: PerCpu, calls: seq<Call>, i: nat, ghost clock: (nat, nat) -> Clock,
                    ghost consumed: seq<Event>,
                    ghost origin: seq<Origin>, ghost taken: seq<(nat, nat)>, ghost at: Origin)
    requires Telling(ring, calls, consumed, origin, taken, at, clock, i) && i < |calls| && calls[i].DoCommit?
      && ring.open.Open?
    modifies ring
    ensures Telling(ring, calls, consumed, origin + [at.(end := i)], taken, at, clock, i + 1)
    ensures ring.open.None? && Moves(old(ring.Snap()), ring.Snap(), Grow([old(ring.Pending())]))
  {
    hide Ok, Settled, Queue, Area, Tail, Reserved, Behaved, ClockStamped, Told, Taken, Held, AllSmall, DeedsOf, Pairs,
         Matches, OpenEvent, Moves, OnlyPage;
    ghost var e, log, s := ring.Pending(), ring.log, ring.Snap();
    ring.Commit();
    MovesGrow(s, ring.Snap(), [e]);
    GoesOn(calls, log, origin, taken, clock, ring.lastTs, i);
    ToldCommit(calls, log, origin, at, e, i);
    if Behaved(clock, calls, taken) { ClockStampedMore(log, origin, clock, e, at.(end := i)); }
    if AllSmall(calls) { MatchesCommit(calls, origin, at, i); }
    assert taken != [] || DoDiscard in calls;
  }

  method DiscardCall(ring: PerCpu, calls: seq<Call>, i: nat, ghost clock: (nat, nat) -> Clock,
                     ghost consumed: seq<Event>,
                     ghost origin: seq<Origin>, ghost taken: seq<(nat, nat)>, ghost at: Origin)
    requires Telling(ring, calls, consumed, origin, taken, at, clock, i) && i < |calls| && calls[i].DoDiscard?
      && ring.open.Open?
    modifies ring
    ensures Telling(ring, calls, consumed, origin, taken, at, clock, i + 1)
      && Moves(old(ring.Snap()), ring.Snap(), Grow([]))
  {
    hide Ok, Settled, Queue, Area, Tail, Reserved, Behaved, ClockStamped, Told, Taken, Held, AllSmall, DeedsOf, Pairs,
         Matches, Undisrupted, Moves, OnlyPage;
    ghost var s := ring.Snap();
    ring.Discard();
    MovesGrow(s, ring.Snap(), []);
    GoesOn(calls, ring.log, origin, taken, clock, ring.lastTs, i);
    assert calls[i] in calls;
    if AllSmall(calls) { MatchesOn(calls, origin, true, at.call, false, at.call, i); }
  }

  method ConsumeCall(ring: PerCpu, calls: seq<Call>, i: nat, ghost clock: (nat, nat) -> Clock,
                     ghost consumed: seq<Event>,
                     ghost origin: seq<Origin>, ghost taken: seq<(nat, nat)>, ghost at: Origin) returns (r: Peeked)
    requires Telling(ring, calls, consumed, origin, taken, at, clock, i) && i < |calls| && calls[i].DoConsume?
    modifies ring
    ensures Telling(ring, calls, consumed + (if r.Data? then [r.ev] else []), origin, taken, at, clock, i + 1)
    ensures Moves(old(ring.Snap()), ring.Snap(), Read) && RightNext(old(ring.Snap()), ring.Snap(), r)
      && ring.overrun == old(ring.overrun)
  {
    hide Ok, Settled, Queue, Area, Tail, Reserved, Behaved, ClockStamped, Told, Taken, Held, AllSmall, DeedsOf, Pairs,
         Matches, Moves, KeepsTail, RightNext;
    ghost var s := ring.Snap();
    r := ring.Consume();
    MovesRead(s, ring.Snap());
    ConsumedNext(s, ring.Snap(), r);
    GoesOn(calls, ring.log, origin, taken, clock, ring.lastTs, i);
    if ring.open.Open? { HeldOn(calls, origin, at, ring.Reservation(), ring.Reservation(), i); }
    if AllSmall(calls) { MatchesOn(calls, origin, ring.open.Open?, at.call, ring.open.Open?, at.call, i); }
  }

  method PeekCall(ring: PerCpu, calls: seq<Call>, i: nat, ghost clock: (nat, nat) -> Clock, ghost consumed: seq<Event>,
                     ghost origin: seq<Origin>, ghost taken: seq<(nat, nat)>, ghost at: Origin) returns (r: Peeked)
    requires Telling(ring, calls, consumed, origin, taken, at, clock, i) && i < |calls| && calls[i].DoPeek?
    modifies ring
    ensures Telling(ring, calls, consumed, origin, taken, at, clock, i + 1)
    ensures Moves(old(ring.Snap()), ring.Snap(), Read) && RightNext(old(ring.Snap()), ring.Snap(), r)
      && ring.overrun == old(ring.overrun)
  {
    hide Ok, Settled, Queue, Area, Tail, Reserved, Behaved, ClockStamped, Told, Taken, Held, AllSmall, DeedsOf, Pairs,
         Matches, Moves, KeepsTail, RightNext, OnReader;
    ghost var s := ring.Snap();
    r := ring.Peek();
    MovesRead(s, ring.Snap());
    PeekedNext(s, ring.Snap(), r);
    GoesOn(calls, ring.log, origin, taken, clock, ring.lastTs, i);
    if ring.open.Open? { HeldOn(calls, origin, at, ring.Reservation(), ring.Reservation(), i); }
    if AllSmall(calls) { MatchesOn(calls, origin, ring.open.Open?, at.call, ring.open.Open?, at.call, i); }
  }

  method EmptyCall(ring: PerCpu, calls: seq<Call>, i: nat, ghost clock: (nat, nat) -> Clock, ghost consumed: seq<Event>,
                     ghost origin: seq<Origin>, ghost taken: seq<(nat, nat)>, ghost at: Origin) returns (r: bool)
    requires Telling(ring, calls, consumed, origin, taken, at, clock, i) && i < |calls| && calls[i].DoEmpty?
    modifies ring
    ensures Telling(ring, calls, consumed, origin, taken, at, clock, i + 1)
    ensures Moves(old(ring.Snap()), ring.Snap(), Grow([])) && RightTest(calls, i, r, |old(ring.Events())|)
      && ring.overrun == old(ring.overrun)
  {
    hide Ok, Settled, Queue, Area, Tail, Reserved, Behaved, ClockStamped, Told, Taken, Held, AllSmall, DeedsOf, Pairs,
         Matches, Moves, RightTest;
    ghost var s := ring.Snap();
    TailFacts(s);
    r := ring.IsEmpty();
    MovesGrow(s, ring.Snap(), []);
    TestedRight(calls, origin, ring.open.Open?, at.call, i, r, |ring.Events()|);
    GoesOn(calls, ring.log, origin, taken, clock, ring.lastTs, i);
    if ring.open.Open? { HeldOn(calls, origin, at, ring.Reservation(), ring.Reservation(), i); }
    if AllSmall(calls) { MatchesOn(calls, origin, ring.open.Open?, at.call, ring.open.Open?, at.call, i); }
  }

  method ReserveCall(ring: PerCpu, calls: seq<Call>, i: nat, clock: (nat, nat) -> Clock, ghost consumed: seq<Event>,
                     ghost origin: seq<Origin>, ghost taken: seq<(nat, nat)>, ghost at: Origin)
    returns (ghost taken': seq<(nat, nat)>, ghost at': Origin, ghost k: nat)
    requires Telling(ring, calls, consumed, origin, taken, at, clock, i) && i < |calls| && calls[i].DoReserve?
      && ring.open.None?
    modifies ring
    ensures Telling(ring, calls, consumed, origin, taken', at', clock, i + 1)
      && Moves(old(ring.Snap()), ring.Snap(), Turn(k))
  {
    hide Ok, Settled, Queue, Area, Tail, Reserved, Behaved, ClockStamped, Told, Taken, Held, DeedsOf, Pairs, Matches,
         InTime, OnReader, OnRing, Lost, Moves, Turned, ReaderSide, FitsFresh;
    ghost var s := ring.Snap();
    var now: nat -> Clock := (k: nat) => clock(i, k);
    ghost var lost, round;
    var ok;
    ok, lost, round := ring.Reserve(calls[i].length, now);
    taken', at', k := taken, at, if ok then round else if calls[i].length > MAX_DATA then 0 else 1000;
    MovesTurn(s, ring.Snap(), k);
    if ok {
      taken' := taken + [(i, round)];
      at' := Origin(i, round, ring.Reservation(), i);
    }
    ReservedInTime(clock, calls, taken, s, i, now, ok, round);
    GoesOn(calls, ring.log, origin, taken, clock, ring.lastTs, i);
    NextReading(clock, calls, taken', i, round);
    if ok {
      TakenMore(calls, taken, (i, round), i);
      HeldNew(calls, ring.log, origin, ring.Reservation(), round, i);
    }
    if AllSmall(calls) { MatchesOn(calls, origin, false, at.call, ok, at'.call, i); }
  }

  lemma ReservedInTime(clock: (nat, nat) -> Clock, calls: seq<Call>, taken: seq<(nat, nat)>, s: Ring, i: nat,
                       now: nat -> Clock, ok: bool, round: nat)
    requires Ok(s) && s.open.None? && (DoDiscard !in calls ==> Undisrupted(s, taken, clock))
      && (forall k :: now(k) == clock(i, k))
    requires Behaved(clock, calls, taken) ==> s.lastTs <= clock(i, 0)
    ensures var taken' := if ok then taken + [(i, round)] else taken;
      Behaved(clock, calls, taken') ==> Behaved(clock, calls, taken) && InTime(now, s, ok && round == 0)
  {
    hide Ok, InTime, Undisrupted, Close;
    BehavedBefore(clock, calls, taken, (i, round));
    var taken' := if ok then taken + [(i, round)] else taken;
    if Behaved(clock, calls, taken') { CallInTime(clock, calls, taken, s, i, now, ok && round == 0); }
  }

  lemma NextReading(clock: (nat, nat) -> Clock, calls: seq<Call>, taken: seq<(nat, nat)>, i: nat, round: nat)
    ensures Behaved(clock, calls, taken) ==> clock(i, round) <= clock(i + 1, 0)
  {
    hide Close;
  }

  /** Before call i: the history, the pages and the answers so far are as they should be. */
  ghost predicate Going(ring: PerCpu, calls: seq<Call>, answers: seq<Answer>, tale: Tale, clock: (nat, nat) -> Clock,
                        i: nat)
    reads ring
  {
    && Telling(ring, calls, Drained(answers), tale.origin, tale.taken, tale.at, clock, i)
    && Paged(ring.Snap(), tale.placed, tale.kept)
    && RightAnswers(calls, answers, tale, Front(ring.Snap()), i)
  }

  /** A call that only writes, with tale1 what it did to the history. */
  lemma Wrote(s: Ring, s': Ring, m: Move, calls: seq<Call>, answers: seq<Answer>, tale: Tale, tale1: Tale, i: nat)
    returns (tale': Tale)
    requires i < |calls| && Paged(s, tale.placed, tale.kept) && RightAnswers(calls, answers, tale, Front(s), i)
      && Moves(s, s', m)
    requires !calls[i].DoConsume? && !calls[i].DoPeek? && !calls[i].DoEmpty?
    requires tale1.origin == tale.origin || tale1.origin == tale.origin + [tale.at.(end := i)]
    ensures Paged(s', tale'.placed, tale'.kept) && RightAnswers(calls, answers, tale', Front(s'), i + 1)
    ensures tale'.origin == tale1.origin && tale'.taken == tale1.taken && tale'.at == tale1.at
  {
    var placed', kept' := PagedOn(s, s', m, tale.placed, tale.kept);
    tale' := tale1.(placed := placed', kept := kept', marks := tale.marks);
    assert Onwards(tale, tale', Front(s), Front(s'), i) by { hide Further, Front; }
    RightAnswersOn(calls, answers, tale, tale', Front(s), Front(s'), i);
    hide Paged, RightAnswers;
  }

  /** What call x.call answered is right. */
  ghost predicate Answers(s: Ring, s': Ring, calls: seq<Call>, x: Answer) {
    && QueueOf(s) && QueueOf(s') && x.call < |calls|
    && match x
       case Consumed(call, got) => calls[call].DoConsume? && RightNext(s, s', got)
       case Looked(call, got) => calls[call].DoPeek? && RightNext(s, s', got)
       case Tested(call, empty) => calls[call].DoEmpty? && RightTest(calls, call, empty, |Queue(s)|)
  }

  /** A call that reads. */
  lemma Answered(s: Ring, s': Ring, m: Move, calls: seq<Call>, answers: seq<Answer>, x: Answer, tale: Tale, i: nat)
    returns (tale': Tale)
    requires i < |calls| && Ok(s) && Ok(s') && Paged(s, tale.placed, tale.kept)
      && RightAnswers(calls, answers, tale, Front(s), i)
    requires Moves(s, s', m) && Answers(s, s', calls, x) && x.call == i && s.delivered == Drained(answers)
      && s'.overrun == s.overrun
    requires Told(calls, s.log, tale.origin, i)
    ensures Paged(s', tale'.placed, tale'.kept) && RightAnswers(calls, answers + [x], tale', Front(s'), i + 1)
    ensures tale'.origin == tale.origin && tale'.taken == tale.taken && tale'.at == tale.at
  {
    hide Ok, Paged, RightAnswers, RightAnswer, Front, Further, Moves, Told, Queue, QueueOf, Drained, RightNext,
         RightTest;
    MovesQueue(s, s', m);
    var placed', kept' := PagedOn(s, s', m, tale.placed, tale.kept);
    var tale1 := tale.(placed := placed', kept := kept');
    assert Onwards(tale, tale1, Front(s), Front(s'), i);
    var mark := Mark(|Queue(s)|, |kept'|);
    AnswerIsRight(s, s', calls, answers, x, tale1);
    RightAnswersMore(calls, answers, x, mark, tale, tale1, Front(s), Front(s'), i);
    tale' := tale1.(marks := tale.marks + [mark]);
  }

  lemma AnswerIsRight(s: Ring, s': Ring, calls: seq<Call>, answers: seq<Answer>, x: Answer, tale: Tale)
    requires Ok(s) && Ok(s') && Answers(s, s', calls, x) && s.delivered == Drained(answers) && s'.overrun == s.overrun
    requires Paged(s', tale.placed, tale.kept) && Told(calls, s.log, tale.origin, x.call)
    ensures RightAnswer(calls, answers + [x], |answers|, Mark(|Queue(s)|, |tale.kept|), tale, Front(s'))
  {
    hide Ok, QueueOf, Queue, Front, Told, Paged, Fate, Ended, Drained, RightTest, RightEvent;
    EndedAll(calls, s.log, tale.origin, x.call);
    LostCounted(s', tale.placed, tale.kept);
    Counted(s);
    assert (answers + [x])[..|answers|] == answers && tale.kept[..|tale.kept|] == tale.kept;
  }

  lemma Counted(s: Ring)
    requires Ok(s)
    ensures |s.log| == |s.delivered| + |Queue(s)| + s.overrun
  {
    hide Idle, QueueOk, TailOk, Shape, Timed, Subseq;
  }

  lemma TellingGives(ring: PerCpu, calls: seq<Call>, consumed: seq<Event>, origin: seq<Origin>, taken: seq<(nat, nat)>,
                     at: Origin, clock: (nat, nat) -> Clock, i: nat)
    requires Telling(ring, calls, consumed, origin, taken, at, clock, i)
    ensures i <= |calls| && ring.Valid() && ring.delivered == consumed && Told(calls, ring.log, origin, i)
  {
    hide Ok, Settled, Behaved, ClockStamped, Told, Taken, Held, AllSmall, Undisrupted, Matches;
  }

  lemma MovesNot(s: Ring)
    requires Ok(s)
    ensures Moves(s, s, Grow([]))
  {
    TailFacts(s);
    hide Ok, Queue, Moves;
    assert Queue(s) + [] == Queue(s) && s.log + [] == s.log;
    MovesGrow(s, s, []);
  }

  /** A call that reads, and its answer. */
  method AskCall(ring: PerCpu, calls: seq<Call>, i: nat, ghost clock: (nat, nat) -> Clock, answers: seq<Answer>,
                 ghost tale: Tale)
    returns (x: Answer, ghost tale': Tale)
    requires Going(ring, calls, answers, tale, clock, i) && i < |calls|
    requires calls[i].DoConsume? || calls[i].DoPeek? || calls[i].DoEmpty?
    modifies ring
    ensures Going(ring, calls, answers + [x], tale', clock, i + 1)
  {
    hide Telling, Paged, RightAnswers, Front, Moves, RightNext, RightTest, Ok, Settled, Queue, Told;
    TellingGives(ring, calls, Drained(answers), tale.origin, tale.taken, tale.at, clock, i);
    ghost var s, m := ring.Snap(), Read;
    if calls[i].DoConsume? {
      var r := ConsumeCall(ring, calls, i, clock, Drained(answers), tale.origin, tale.taken, tale.at);
      x := Consumed(i, r);
    } else if calls[i].DoPeek? {
      var r := PeekCall(ring, calls, i, clock, Drained(answers), tale.origin, tale.taken, tale.at);
      x := Looked(i, r);
    } else {
      var r := EmptyCall(ring, calls, i, clock, Drained(answers), tale.origin, tale.taken, tale.at);
      x, m := Tested(i, r), Grow([]);
    }
    DrainedMore(answers, x);
    MovesQueue(s, ring.Snap(), m);
    TellingGives(ring, calls, Drained(answers + [x]), tale.origin, tale.taken, tale.at, clock, i + 1);
    tale' := Answered(s, ring.Snap(), m, calls, answers, x, tale, i);
  }

  lemma MovesQueue(s: Ring, s': Ring, m: Move)
    requires Moves(s, s', m)
    ensures QueueOf(s) && QueueOf(s')
  {
    hide QueueOf, Passes, Turned, Queue, OnReader;
  }

  lemma DrainedMore(answers: seq<Answer>, x: Answer)
    ensures Drained(answers + [x]) == if x.Consumed? then Drained(answers) + (if x.got.Data? then [x.got.ev] else [])
      else Drained(answers)
  {
    assert (answers + [x])[..|answers|] == answers;
  }

  /** A call that does not read; one its caller may not make is skipped. */
  method ActCall(ring: PerCpu, calls: seq<Call>, i: nat, clock: (nat, nat) -> Clock, ghost answers: seq<Answer>,
                 ghost tale: Tale)
    returns (ghost tale': Tale)
    requires Going(ring, calls, answers, tale, clock, i) && i < |calls|
    requires !calls[i].DoConsume? && !calls[i].DoPeek? && !calls[i].DoEmpty?
    modifies ring
    ensures Going(ring, calls, answers, tale', clock, i + 1)
  {
    hide Telling, Paged, RightAnswers, Front, Moves, Ok, Settled, Queue, Told, Area, Tail, Reserved, OpenEvent;
    ghost var consumed := Drained(answers);
    TellingGives(ring, calls, consumed, tale.origin, tale.taken, tale.at, clock, i);
    ghost var s, m, tale1 := ring.Snap(), Grow([]), tale;
    var call, open := calls[i], ring.open.Open?;
    if call.DoReserve? && !open {
      ghost var taken', at', k := ReserveCall(ring, calls, i, clock, consumed, tale.origin, tale.taken, tale.at);
      m, tale1 := Turn(k), tale.(taken := taken', at := at');
    } else if call.DoFill? && open && call.at + |call.bytes| <= ring.AreaLength() {
      FillCall(ring, calls, i, clock, consumed, tale.origin, tale.taken, tale.at);
    } else if call.DoCommit? && open {
      m, tale1 := Grow([ring.Pending()]), tale.(origin := tale.origin + [tale.at.(end := i)]);
      CommitCall(ring, calls, i, clock, consumed, tale.origin, tale.taken, tale.at);
    } else if call.DoDiscard? && open {
      DiscardCall(ring, calls, i, clock, consumed, tale.origin, tale.taken, tale.at);
    } else {
      SkipCall(ring, calls, consumed, tale.origin, tale.taken, tale.at, clock, i);
      MovesNot(s);
    }
    tale' := Wrote(s, ring.Snap(), m, calls, answers, tale, tale1, i);
  }

  // ------------------------------------------------------------------------------------------
  // Whole runs.
  // ------------------------------------------------------------------------------------------

  lemma StartsPaged(s: Ring)
    requires Ok(s) && Queue(s) == [] && s.t == 0 && s.delivered == [] && s.log == []
    ensures Paged(s, [[]], []) && QueueOf(s)
  {
    hide Idle, QueueOk, TailOk, Accounted, Shape, Timed, PageList, OnReader;
    ListIs(s);
    var list := PageList(s.pages, s.o, 0);
    assert list == [list[0]] && list[..0] == [];
    assert Flat(list) == [] + list[0];
  }

  /** With more to come behind, the answers are right all the same. */
  lemma RightAnswersAll(calls: seq<Call>, answers: seq<Answer>, tale: Tale, all: seq<Event>, all': seq<Event>, n: nat)
    requires n <= |calls| && RightAnswers(calls, answers, tale, all, n) && all <= all' && |tale.kept| <= |tale.placed|
    ensures RightAnswers(calls, answers, tale, all', n)
  {
    hide RightAnswer;
    AskedBound(calls, n);
    assert Onwards(tale, tale, all, all', n);
    forall a | 0 <= a < |answers| ensures RightAnswer(calls, answers, a, tale.marks[a], tale, all') {
      assert CallsOf(answers)[a] == answers[a].call;
      RightAnswerOn(calls, answers, a, tale.marks[a], tale, tale, all, all', n);
    }
  }

  lemma FrontFirst(s: Ring, placed: seq<seq<Event>>, kept: seq<bool>)
    requires Paged(s, placed, kept)
    ensures Front(s) <= s.delivered + Queue(s) && |kept| <= |placed| && s.log == Flat(placed)
    ensures forall i :: 0 <= i < |kept| && !kept[i] ==> i + |s.o| < |placed|
  {
    hide QueueOk, OnReader, PageList, Queue;
    QueueParts(s);
    Assoc(s.delivered, OnReader(s), OnRing(s));
  }

  /** Any sequence of calls on a fresh ring; a call its caller may not make is skipped.

      What was consumed and what is still unread are, in that order, a subsequence of what was
      committed, and every event has exactly one fate.  The committed events, divided by the pages
      they were written to, are lost by whole pages or not at all: what was consumed or is unread are
      the pages the reader took and those on the ring; the events on the others are those overrun
      counts; and a page is only lost when as many pages as the ring has were begun after it.

      Every committed event holds what the fills between its reserve and its commit call made of its
      area; with a clock that behaves it carries the clock reading of its own reservation; and if
      every request leaves room for a time header, there is one for each reserve and commit call
      that belong together.

      Every reading call is answered rightly: with the next event in the order of consumption. */
  method Run(size: nat, calls: seq<Call>, clock: (nat, nat) -> Clock)
    returns (ring: PerCpu, answers: seq<Answer>, ghost tale: Tale)
    ensures ring.Valid() && Subseq(Drained(answers) + ring.Events(), ring.log)
    ensures |ring.log| == |Drained(answers)| + |ring.Events()| + ring.overrun && ring.NumEntries() == |ring.Events()|
    ensures ring.produced == ring.rejected + ring.discarded + |ring.log| + (if ring.open.Open? then 1 else 0)
    ensures Paged(ring.Snap(), tale.placed, tale.kept)
    ensures |tale.kept| <= |tale.placed| && ring.log == Flat(tale.placed)
      && |Fate(tale.placed, tale.kept, false)| == ring.overrun
    ensures Drained(answers) + ring.Events() == Fate(tale.placed, tale.kept, true) + Flat(tale.placed[|tale.kept|..])
    ensures forall i :: 0 <= i < |tale.kept| && !tale.kept[i] ==> i + |ring.pages| - 1 < |tale.placed|
    ensures Told(calls, ring.log, tale.origin, |calls|) && Taken(calls, tale.taken, |calls|)
    ensures Behaved(clock, calls, tale.taken) ==> ClockStamped(ring.log, tale.origin, clock)
    ensures AllSmall(calls) ==>
      DeedsOf(calls, |calls|).done == Pairs(tale.origin) && (ring.open.Open? <==> DeedsOf(calls, |calls|).open.By?)
    ensures RightAnswers(calls, answers, tale, Drained(answers) + ring.Events(), |calls|)
  {
    hide Ok, Settled, Queue, Subseq, Behaved, ClockStamped, Told, Taken, Held, AllSmall, DeedsOf, Pairs, Undisrupted,
         Paged, RightAnswers, Front, TailWrite;
    ring := new PerCpu(size);
    answers, tale := [], Tale([], [], Origin(0, 0, [], 0), [[]], [], []);
    RunStarts(ring.Snap(), calls, clock);
    StartsPaged(ring.Snap());
    NoAnswers(calls, tale, Front(ring.Snap()));
    for i := 0 to |calls|
      invariant fresh(ring) && Going(ring, calls, answers, tale, clock, i)
    {
      if calls[i].DoConsume? || calls[i].DoPeek? || calls[i].DoEmpty? {
        var x;
        x, tale := AskCall(ring, calls, i, clock, answers, tale);
        answers := answers + [x];
      } else {
        tale := ActCall(ring, calls, i, clock, answers, tale);
      }
    }
    ring.Balance();
    RunEnds(ring.Snap(), calls, answers, tale);
  }

  lemma NoAnswers(calls: seq<Call>, tale: Tale, all: seq<Event>)
    requires tale.marks == []
    ensures RightAnswers(calls, [], tale, all, 0)
  {
  }

  lemma RunEnds(s: Ring, calls: seq<Call>, answers: seq<Answer>, tale: Tale)
    requires Ok(s) && Paged(s, tale.placed, tale.kept) && RightAnswers(calls, answers, tale, Front(s), |calls|)
    ensures |tale.kept| <= |tale.placed| && s.log == Flat(tale.placed)
      && |Fate(tale.placed, tale.kept, false)| == s.overrun
    ensures s.delivered + Queue(s) == Fate(tale.placed, tale.kept, true) + Flat(tale.placed[|tale.kept|..])
    ensures forall i :: 0 <= i < |tale.kept| && !tale.kept[i] ==> i + |s.pages| - 1 < |tale.placed|
    ensures RightAnswers(calls, answers, tale, s.delivered + Queue(s), |calls|)
  {
    Bounds(s);
    hide Ok, Paged, Queue, Front, Fate, Flat, RightAnswers;
    LostCounted(s, tale.placed, tale.kept);
    FrontFirst(s, tale.placed, tale.kept);
    RightAnswersAll(calls, answers, tale, Front(s), s.delivered + Queue(s), |calls|);
  }
}
