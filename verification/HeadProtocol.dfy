/** The lockless head-page protocol of the per-CPU trace ring.

    The ring is a circular list of `nr_pages` pages; one more page, the reader page, is kept off
    the ring.  Two flag bits live in the `next` links: HEAD marks the link into the head page and
    UPDATE marks it while the writer is pushing the head forward.  One writer moves the tail (and,
    when the ring is full, the head); one reader on another CPU swaps its spent page with the head
    page.  A transition below is one access of `tb_move_tail`, `tb_handle_head_page`,
    `tb_set_commit_to_write` or `tb_get_reader_page` to a word the other side changes, and the two
    sides interleave freely.  Folded into a transition are only accesses whose moment cannot matter:
    loads of words the other side never writes (`prev`, `pages` and the head hint are written by the
    reader alone, tail and commit by the writer alone, and the writer changes the flags of a link but
    never where it leads), and, in `Found`, the stores to the reader page's own links, of which the
    writer's test sees only where `next` leads, the first of them. */
module HeadProtocol {

  const NORMAL: nat := 0
  const HEAD: nat := 1
  const UPDATE: nat := 2
  const MOVED: nat := 4

  /** A `next` pointer: the page it leads to, and its flag bits (0..3). */
  datatype Link = Link(to: nat, flag: nat)

  /** Where the writer stands.  `n` is the local `next_page`. */
  datatype WriterPc =
    | Writing                                // outside tb_move_tail
    | GotNext(n: nat)                        // next_page read
    | SawHead(n: nat)                        // tb_is_head_page answered non-zero
    | CheckReader(n: nat, p: nat)            // tb_is_reader_page(commit_page): list.prev loaded
    | Handle(n: nat)                         // entering tb_handle_head_page
    | Updating(n: nat, first: bool)          // past the first cmpxchg
    | GotNewHead(n: nat, h: nat, first: bool)// new_head read
    | HeadSet(n: nat, first: bool)           // past the second cmpxchg
    | TailMoving(n: nat)                     // about to publish next_page as tail
    | Committing                             // tb_set_commit_to_write, first loop
    | CommitCheck(p: nat)                    // tb_is_reader_page(tail_page): list.prev loaded
    | CommitMove                             // ... passed: about to move commit_page on
    | WriterWarned(line: nat)                // an RB_WARN_ON fired at this source line

  /** Where the reader stands.  `x` is the local `reader`. */
  datatype ReaderPc =
    | Reading                                       // outside the swap
    | Scanning(page: nat, start: nat, round: nat)   // tb_set_head_page
    | Found(x: nat)                                 // tb_set_head_page returned x
    | Spliced(x: nat)                               // reader page links set up
    | Swapped(x: nat)                               // tb_head_page_replace succeeded
    | Fixed(x: nat)                                 // new head points back to the spliced page
    | ReaderWarned(line: nat)

  datatype State = State(next: seq<Link>, prev: seq<nat>, pages: nat, headHint: nat,
                         tail: nat, commit: nat, reader: nat, w: WriterPc, r: ReaderPc)

  predicate PcBound(s: State, m: nat) {
    && (match s.w
        case Writing => true
        case GotNext(n) => n < m
        case SawHead(n) => n < m
        case CheckReader(n, p) => n < m && p < m
        case Handle(n) => n < m
        case Updating(n, _) => n < m
        case GotNewHead(n, h, _) => n < m && h < m
        case HeadSet(n, _) => n < m
        case TailMoving(n) => n < m
        case Committing => true
        case CommitCheck(p) => p < m
        case CommitMove => true
        case WriterWarned(_) => true)
    && (match s.r
        case Reading => true
        case Scanning(p, q, _) => p < m && q < m
        case Found(x) => x < m
        case Spliced(x) => x < m
        case Swapped(x) => x < m
        case Fixed(x) => x < m
        case ReaderWarned(_) => true)
  }

  /** Every page number in the state names one of the `nr_pages + 1` pages. */
  predicate InBounds(s: State) {
    var m := |s.next|;
    && |s.prev| == m
    && (forall i :: 0 <= i < m ==> s.next[i].to < m)
    && (forall i :: 0 <= i < m ==> s.prev[i] < m)
    && s.pages < m && s.headHint < m && s.tail < m && s.commit < m && s.reader < m
    && PcBound(s, m)
  }

  /** tb_is_head_page: the flag bits of `list`'s link, or MOVED when it leads elsewhere. */
  function IsHeadPage(s: State, page: nat, list: nat): nat
    requires list < |s.next|
  {
    if s.next[list].to != page then MOVED else s.next[list].flag
  }

  /** tb_head_page_set: a compare-and-swap of the flag on the link prev -> head; returns what it saw. */
  function HeadPageSet(s: State, head: nat, prev: nat, want: nat, put: nat): (State, nat)
    requires prev < |s.next|
  {
    var seen := IsHeadPage(s, head, prev);
    if seen == want then (s.(next := s.next[prev := Link(head, put)]), seen) else (s, seen)
  }

  /** One shared-memory access of the writer. */
  function WriterStep(s: State): State
    requires InBounds(s)
  {
    match s.w
    case Writing => s.(w := GotNext(s.next[s.tail].to))
    case GotNext(n) =>
      if n == s.commit then s.(w := Writing)                 // commit_overrun
      else if IsHeadPage(s, n, s.tail) != NORMAL then s.(w := SawHead(n))
      else s.(w := TailMoving(n))
    case SawHead(n) => s.(w := CheckReader(n, s.prev[s.commit]))
    case CheckReader(n, p) =>
      if s.next[p].to == s.commit then s.(w := Handle(n))
      else if s.commit != s.tail && s.commit == s.reader then s.(w := Writing)
      else s.(w := TailMoving(n))
    case Handle(n) =>
      var (s1, seen) := HeadPageSet(s, n, s.tail, HEAD, UPDATE);
      if seen == HEAD then s1.(w := Updating(n, true))
      else if seen == UPDATE then s1.(w := Updating(n, false))
      else if seen == NORMAL || seen == MOVED then s1.(w := Writing)
      else s1.(w := WriterWarned(2077))
    case Updating(n, first) => s.(w := GotNewHead(n, s.next[n].to, first))
    case GotNewHead(n, h, first) =>
      var (s1, seen) := HeadPageSet(s, h, n, NORMAL, HEAD);
      if seen == HEAD || seen == NORMAL then s1.(w := HeadSet(n, first))
      else s1.(w := WriterWarned(2115))
    case HeadSet(n, first) =>
      if !first then s.(w := TailMoving(n))
      else
        var (s1, seen) := HeadPageSet(s, n, s.tail, UPDATE, NORMAL);
        if seen != UPDATE then s1.(w := WriterWarned(2153)) else s1.(w := TailMoving(n))
    case TailMoving(n) => s.(tail := n, w := Committing)
    case Committing =>
      if s.commit == s.tail then s.(w := Writing) else s.(w := CommitCheck(s.prev[s.tail]))
    case CommitCheck(p) =>
      if s.next[p].to != s.tail then s.(w := WriterWarned(2601)) else s.(w := CommitMove)
    case CommitMove => s.(commit := s.next[s.commit].to, w := Committing)
    case WriterWarned(_) => s
  }

  /** One shared-memory access of the reader.  `Reading` starts a swap as soon as commit has left
      the reader page; whether it is due is the reader's own business and left open. */
  function ReaderStep(s: State): State
    requires InBounds(s)
  {
    match s.r
    case Reading =>
      if s.commit == s.reader then s else StartScan(s)
    case Scanning(page, start, round) =>
      if IsHeadPage(s, page, s.prev[page]) != NORMAL then s.(headHint := page, r := Found(page))
      else
        var nxt := s.next[page].to;
        if nxt != start then s.(r := Scanning(nxt, start, round))
        else if round < 2 then s.(r := Scanning(nxt, start, round + 1))
        else s.(r := Reading)                 // gave up after three rounds (with the warning of line 1268)
    case Found(x) =>
      s.(next := s.next[s.reader := Link(s.next[x].to, HEAD)],
         prev := s.prev[s.reader := s.prev[x]],
         pages := s.prev[x], r := Spliced(x))
    case Spliced(x) =>
      var p := s.prev[x];
      if s.next[p].flag == HEAD then s.(next := s.next[p := Link(s.reader, NORMAL)], r := Swapped(x))
      else StartScan(s)
    case Swapped(x) => s.(prev := s.prev[s.next[x].to := s.reader], r := Fixed(x))
    case Fixed(x) => s.(headHint := s.next[s.headHint].to, reader := x, r := Reading)
    case ReaderWarned(_) => s
  }

  function StartScan(s: State): State
    requires InBounds(s)
  {
    if s.next[s.prev[s.pages]].to != s.pages then s.(r := ReaderWarned(1248))
    else s.(r := Scanning(s.headHint, s.headHint, 0))
  }

  /** tb_is_reader_page makes two loads: a page's prev pointer, then that page's next link.  The
      reader tears them when, in between, it re-links the very page the first load returned, and
      not to the page under test. */
  predicate Torn(s: State)
    requires InBounds(s)
  {
    s.r.Found? &&
    ((s.w.CheckReader? && s.w.p == s.reader && s.next[s.r.x].to != s.commit)
     || (s.w.CommitCheck? && s.w.p == s.reader && s.next[s.r.x].to != s.tail))
  }

  /** Either side moves, in any order. */
  predicate Step(s: State, s': State) {
    InBounds(s) && (s' == WriterStep(s) || s' == ReaderStep(s))
  }

  /** The state tb_allocate_cpu_ring leaves: pages 0..n-1 in a circle, page n off the ring. */
  function Initial(n: nat): State
    requires n >= 2
  {
    State(seq(n + 1, (i: nat) => Link(if i == n then n else if i == n - 1 then 0 else i + 1,
                             if i == n - 1 then HEAD else NORMAL)),
          seq(n + 1, (i: nat) => if i == n then n else if i == 0 then n - 1 else i - 1),
          0, 0, 0, 0, n, Writing, Reading)
  }

  // ------------------------------------------------------------------------------------------
  // The invariant.  `o` lists the ring in link order starting from the head page, so that the
  // closing link o[N-1] -> o[0] carries the HEAD (or UPDATE) flag; `t` and `c` are the positions
  // of tail_page and commit_page in `o`, with -1 for the page off the ring.
  // ------------------------------------------------------------------------------------------

  /** The page that is off the ring: `reader_page`, except between the swap and its publication. */
  function OffPage(reader: nat, r: ReaderPc): nat {
    match r case Swapped(x) => x case Fixed(x) => x case _ => reader
  }

  function Off(s: State): nat { OffPage(s.reader, s.r) }

  function Succ(o: seq<nat>, i: nat): nat
    requires i < |o|
  {
    if i == |o| - 1 then o[0] else o[i + 1]
  }

  function Pred(o: seq<nat>, i: nat): nat
    requires i < |o|
  {
    if i == 0 then o[|o| - 1] else o[i - 1]
  }

  predicate Distinct(o: seq<nat>) { forall i, j :: 0 <= i < j < |o| ==> o[i] != o[j] }

  predicate At(off: nat, o: seq<nat>, page: nat, i: int) {
    if i == -1 then page == off else 0 <= i < |o| && page == o[i]
  }

  /** The links form one cycle through every page but `off`. */
  predicate Cycle(next: seq<Link>, off: nat, o: seq<nat>) {
    && |o| >= 2 && |next| == |o| + 1
    && Distinct(o)
    && (forall i :: 0 <= i < |o| ==> o[i] < |next|)
    && off < |next| && off !in o
    && (forall i {:trigger next[o[i]]} :: 0 <= i < |o| ==> next[o[i]].to == Succ(o, i))
  }

  /** Where the writer stands in tb_handle_head_page. */
  datatype Phase = Quiet | Alone | Beside

  function PhaseOf(w: WriterPc): Phase {
    if w.Updating? || w.GotNewHead? then Alone else if w.HeadSet? then Beside else Quiet
  }

  /** The flag the ring link at position `i` must carry: one HEAD link into the head page; the
      writer's UPDATE link replaces it between the first and the second cmpxchg, and stands beside
      it, on the link out of the tail page, until the third. */
  function RingFlag(ph: Phase, n: nat, t: int, i: nat): nat {
    if i == n - 1 then (if ph.Alone? then UPDATE else HEAD)
    else if ph.Beside? && i == t then UPDATE
    else NORMAL
  }

  predicate Flags(next: seq<Link>, off: nat, ph: Phase, o: seq<nat>, t: int, c: int)
    requires Cycle(next, off, o)
  {
    && (forall i {:trigger next[o[i]]} :: 0 <= i < |o| ==> next[o[i]].flag == RingFlag(ph, |o|, t, i))
    && (c == -1 ==> next[off] == Link(o[0], if ph.Beside? then UPDATE else NORMAL))
  }

  /** `prev` links mirror the ring, except that the page after the spliced one still points back
      to the page just swapped out (`lag`) until the reader has fixed it. */
  predicate Backs(next: seq<Link>, prev: seq<nat>, off: nat, lag: bool, o: seq<nat>)
    requires Cycle(next, off, o)
  {
    && |prev| == |next|
    && forall i {:trigger prev[o[i]]} :: 0 <= i < |o| ==>
         prev[o[i]] == (if lag && next[off].to == o[i] then off else Pred(o, i))
  }

  /** The writer's local next_page: still the page after tail; or, when the ring was full and the
      reader has swapped since, one page further on or off the ring. */
  predicate Fresh(o: seq<nat>, t: int, n: nat) { -1 <= t < |o| - 1 && n == o[t + 1] }

  predicate FullOrStale(off: nat, o: seq<nat>, t: int, n: nat) {
    || (|o| > 0 && t == |o| - 1 && n == o[0])
    || (-1 <= t < |o| - 2 && n == o[t + 2])
    || (t == |o| - 2 && n == off)
  }

  predicate WriterInv(w: WriterPc, off: nat, o: seq<nat>, t: int, c: int)
    requires |o| >= 2
  {
    match w
    case Writing => c == t
    case GotNext(n) => c == t && (Fresh(o, t, n) || FullOrStale(off, o, t, n))
    case SawHead(n) => c == t && FullOrStale(off, o, t, n)
    case CheckReader(n, _) => c == t && FullOrStale(off, o, t, n)
    case Handle(n) => c == t && FullOrStale(off, o, t, n)
    case Updating(n, first) => c == t == |o| - 1 && n == o[0] && first
    case GotNewHead(n, h, first) => c == t == |o| - 1 && n == o[0] && h == o[1] && first
    case HeadSet(n, first) => c == t && Fresh(o, t, n) && first
    case TailMoving(n) => c == t && (Fresh(o, t, n) || FullOrStale(off, o, t, n))
    case Committing => true
    case CommitCheck(_) => true
    case CommitMove => true
    case WriterWarned(line) => line == 2601
  }

  /** What holds besides as long as the reader-page test has not been torn: its first load leads back
      to the page under test, or the reader has since found the true head page; the page taken is free;
      commit is at most two pages behind the tail. */
  predicate Sure(s: State, o: seq<nat>, t: int, c: int)
    requires |o| >= 2 && InBounds(s)
  {
    match s.w
    case CheckReader(_, p) => (t >= 0 ==> s.next[p].to == s.commit) && FoundHead(s, p, o)
    case TailMoving(n) => Fresh(o, t, n) || (-1 <= t < |o| - 2 && n == o[t + 2])
    case Committing => c <= t <= c + 2
    case CommitCheck(p) => c < t <= c + 2 && s.next[p].to == s.tail && FoundHead(s, p, o)
    case CommitMove => c < t <= c + 2
    case WriterWarned(_) => false
    case _ => true
  }

  /** A reader about to re-link the page the test loaded has the head page in hand. */
  predicate FoundHead(s: State, p: nat, o: seq<nat>)
    requires |o| >= 2
  {
    p == s.reader && s.r.Found? ==> s.r.x == o[0]
  }

  predicate ReaderInv(next: seq<Link>, prev: seq<nat>, pages: nat, headHint: nat, reader: nat,
                      r: ReaderPc, o: seq<nat>, c: int)
    requires |prev| == |next| && reader < |next|
  {
    && pages in o
    && (headHint in o || r.Swapped? || r.Fixed?)
    && match r
       case Reading => true
       case Scanning(p, q, _) => c != -1 && p in o && q in o
       case Found(x) => c != -1 && x in o && headHint == x
       case Spliced(x) =>
         && c != -1 && x in o && headHint == x && x < |next|
         && next[reader] == Link(next[x].to, HEAD)
         && prev[reader] == prev[x] == pages
       case Swapped(x) => x < |next| && reader in o && next[x].to == next[reader].to && headHint == x
       case Fixed(x) => x < |next| && reader in o && next[x].to == next[reader].to && headHint == x
       case ReaderWarned(_) => false
  }

  predicate Inv(s: State, o: seq<nat>, t: int, c: int) {
    && InBounds(s)
    && Cycle(s.next, Off(s), o)
    && Flags(s.next, Off(s), PhaseOf(s.w), o, t, c)
    && Backs(s.next, s.prev, Off(s), s.r.Swapped?, o)
    && At(Off(s), o, s.tail, t) && At(Off(s), o, s.commit, c)
    && WriterInv(s.w, Off(s), o, t, c)
    && ReaderInv(s.next, s.prev, s.pages, s.headHint, s.reader, s.r, o, c)
  }

  lemma InitialInv(n: nat)
    requires n >= 2
    ensures Inv(Initial(n), seq(n, (i: nat) => i), 0, 0)
  {
  }

  // ------------------------------------------------------------------------------------------
  // Every step keeps the invariant.
  // ------------------------------------------------------------------------------------------

  function Rotate(o: seq<nat>, last: nat): seq<nat>
    requires |o| > 0
  {
    o[1..] + [last]
  }

  /** Where the page taken as tail stands; -1 is off the ring. */
  function Landing(o: seq<nat>, t: int, n: nat): int {
    if Fresh(o, t, n) then t + 1 else if t == |o| - 1 then 0 else if t == |o| - 2 then -1 else t + 2
  }

  /** One page further round the ring, from the page off it to its first. */
  function Onward(o: seq<nat>, c: int): int { if c == |o| - 1 then 0 else c + 1 }

  /** The same page once the head page has been swapped out. */
  function Sunk(o: seq<nat>, t: int): int { if t == -1 then |o| - 1 else t - 1 }

  lemma WritingKeeps(s: State, o: seq<nat>, t: int, c: int)
    requires Inv(s, o, t, c) && s.w.Writing?
    ensures Inv(WriterStep(s), o, t, c)
  {
    hide Backs, ReaderInv;
  }

  lemma GotNextKeeps(s: State, o: seq<nat>, t: int, c: int)
    requires Inv(s, o, t, c) && s.w.GotNext?
    ensures Inv(WriterStep(s), o, t, c)
  {
    hide Backs, ReaderInv;
  }

  /** The page before the one at position i leads to it, whichever way prev is lagging. */
  lemma PrevLeadsBack(s: State, o: seq<nat>, t: int, c: int, i: nat)
    requires Inv(s, o, t, c) && i < |o|
    ensures s.prev[o[i]] < |s.next| && s.next[s.prev[o[i]]].to == o[i]
  {
    hide Flags, WriterInv, ReaderInv;
    var k := if i == 0 then |o| - 1 else i - 1;
    assert s.next[o[k]].to == Succ(o, k);
  }

  lemma SawHeadKeeps(s: State, o: seq<nat>, t: int, c: int)
    requires Inv(s, o, t, c) && s.w.SawHead?
    ensures Inv(WriterStep(s), o, t, c)
  {
    hide Cycle, Flags, Backs, ReaderInv;
  }

  lemma CheckReaderKeeps(s: State, o: seq<nat>, t: int, c: int)
    requires Inv(s, o, t, c) && s.w.CheckReader?
    ensures Inv(WriterStep(s), o, t, c)
  {
    hide ReaderInv;
  }

  lemma UpdatingKeeps(s: State, o: seq<nat>, t: int, c: int)
    requires Inv(s, o, t, c) && s.w.Updating?
    ensures Inv(WriterStep(s), o, t, c)
  {
    hide Flags, Backs, ReaderInv;
  }

  lemma TailMovingKeeps(s: State, o: seq<nat>, t: int, c: int)
    requires Inv(s, o, t, c) && s.w.TailMoving?
    ensures Inv(WriterStep(s), o, Landing(o, t, s.w.n), c)
  {
    hide Backs, ReaderInv;
  }

  lemma CommittingKeeps(s: State, o: seq<nat>, t: int, c: int)
    requires Inv(s, o, t, c) && s.w.Committing?
    ensures Inv(WriterStep(s), o, t, c)
  {
    hide Flags, Backs, ReaderInv;
  }

  lemma CommitCheckKeeps(s: State, o: seq<nat>, t: int, c: int)
    requires Inv(s, o, t, c) && s.w.CommitCheck?
    ensures Inv(WriterStep(s), o, t, c)
  {
    hide Cycle, Flags, Backs, ReaderInv;
  }

  lemma CommitMoveKeeps(s: State, o: seq<nat>, t: int, c: int)
    requires Inv(s, o, t, c) && s.w.CommitMove?
    ensures Inv(WriterStep(s), o, t, Onward(o, c))
  {
    assert s.next[s.commit].to == o[Onward(o, c)] by { hide ReaderInv, Backs; }
    hide Backs;
  }

  /** A flag changed and the program counter moved on. */
  lemma FlagBounds(s: State, p: nat, v: Link, w: WriterPc)
    requires InBounds(s) && p < |s.next| && v.to < |s.next| && PcBound(s.(w := w), |s.next|)
    ensures InBounds(s.(next := s.next[p := v], w := w))
  {
  }

  /** Reading the same cycle from one page further on. */
  lemma TurnCycle(next: seq<Link>, off: nat, o: seq<nat>)
    requires Cycle(next, off, o)
    ensures Cycle(next, off, Rotate(o, o[0]))
  {
  }

  lemma TurnBacks(next: seq<Link>, prev: seq<nat>, off: nat, lag: bool, o: seq<nat>)
    requires Cycle(next, off, o) && Backs(next, prev, off, lag, o)
    ensures Cycle(next, off, Rotate(o, o[0])) && Backs(next, prev, off, lag, Rotate(o, o[0]))
  {
    TurnCycle(next, off, o);
  }

  lemma TurnMembers(o: seq<nat>, x: nat)
    requires |o| >= 2 && x in o
    ensures x in Rotate(o, o[0])
  {
    var i :| 0 <= i < |o| && o[i] == x;
    assert i == 0 ==> Rotate(o, o[0])[|o| - 1] == x;
    assert i > 0 ==> Rotate(o, o[0])[i - 1] == x;
  }

  /** Changing flags only keeps the cycle and its mirror. */
  lemma Reflag(next: seq<Link>, next': seq<Link>, prev: seq<nat>, off: nat, lag: bool, o: seq<nat>)
    requires Cycle(next, off, o) && Backs(next, prev, off, lag, o)
    requires |next'| == |next| && forall i :: 0 <= i < |next| ==> next'[i].to == next[i].to
    ensures Cycle(next', off, o) && Backs(next', prev, off, lag, o)
  {
  }

  /** The first cmpxchg of tb_handle_head_page marks the link into the head page, or finds that the
      reader has swapped that page since. */
  lemma FirstSwapEffect(s: State, o: seq<nat>, t: int, c: int)
    requires Inv(s, o, t, c) && s.w.Handle?
    ensures WriterStep(s) ==
      if t == |o| - 1 then s.(next := s.next[s.tail := Link(s.w.n, UPDATE)], w := Updating(s.w.n, true))
      else s.(w := Writing)
  {
    hide Backs, ReaderInv;
  }

  lemma FirstSwapKeeps(s: State, o: seq<nat>, t: int, c: int)
    requires Inv(s, o, t, c) && s.w.Handle?
    ensures Inv(WriterStep(s), o, t, c)
  {
    FirstSwapEffect(s, o, t, c);
    if t == |o| - 1 {
      MarkedKeeps(s, o, t, c);
    } else {
      hide Backs, ReaderInv, Cycle, WriterStep;
    }
    hide Inv, InBounds;
  }

  lemma MarkedKeeps(s: State, o: seq<nat>, t: int, c: int)
    requires Inv(s, o, t, c) && s.w.Handle? && t == |o| - 1
    ensures s.tail < |s.next|
    ensures Inv(s.(next := s.next[s.tail := Link(s.w.n, UPDATE)], w := Updating(s.w.n, true)), o, t, c)
  {
    hide Backs;
    assert s.next[o[t]] == Link(o[0], HEAD);
    FlagBounds(s, s.tail, Link(s.w.n, UPDATE), Updating(s.w.n, true));
    hide InBounds;
    Reflag(s.next, s.next[s.tail := Link(s.w.n, UPDATE)], s.prev, Off(s), s.r.Swapped?, o);
  }

  lemma TurnFlags(next: seq<Link>, off: nat, o: seq<nat>)
    requires Cycle(next, off, o) && Flags(next, off, Alone, o, |o| - 1, |o| - 1)
    requires Cycle(next[o[0] := Link(o[1], HEAD)], off, Rotate(o, o[0]))
    ensures Flags(next[o[0] := Link(o[1], HEAD)], off, Beside, Rotate(o, o[0]), |o| - 2, |o| - 2)
  {
  }

  lemma TurnReader(next: seq<Link>, k: nat, v: Link, prev: seq<nat>, pages: nat, headHint: nat,
                   reader: nat, r: ReaderPc, o: seq<nat>, c: int, c': int)
    requires |prev| == |next| && reader < |next| && |o| >= 2 && k < |next|
    requires ReaderInv(next, prev, pages, headHint, reader, r, o, c)
    requires v.to == next[k].to && k in o && c' != -1
    requires !(r.Swapped? || r.Fixed?) ==> reader !in o
    ensures ReaderInv(next[k := v], prev, pages, headHint, reader, r, Rotate(o, o[0]), c')
  {
    forall x | x in o ensures x in Rotate(o, o[0]) { TurnMembers(o, x); }
  }

  lemma SecondSwapEffect(s: State, o: seq<nat>, t: int, c: int)
    requires |o| >= 2 && Inv(s, o, t, c) && s.w.GotNewHead?
    ensures WriterStep(s) == s.(next := s.next[o[0] := Link(o[1], HEAD)], w := HeadSet(o[0], true))
  {
    hide Backs, ReaderInv;
    assert s.next[o[0]] == Link(o[1], NORMAL);
  }

  lemma TurnLinks(next: seq<Link>, prev: seq<nat>, off: nat, lag: bool, o: seq<nat>)
    requires Cycle(next, off, o) && Backs(next, prev, off, lag, o) && Flags(next, off, Alone, o, |o| - 1, |o| - 1)
    ensures var next' := next[o[0] := Link(o[1], HEAD)];
      var o' := Rotate(o, o[0]);
      && Cycle(next', off, o') && Backs(next', prev, off, lag, o')
      && Flags(next', off, Beside, o', |o| - 2, |o| - 2)
  {
    var next' := next[o[0] := Link(o[1], HEAD)];
    assert next[o[0]].to == o[1];
    Reflag(next, next', prev, off, lag, o);
    TurnBacks(next', prev, off, lag, o);
    TurnFlags(next, off, o);
  }

  lemma TurnPositions(off: nat, o: seq<nat>, tail: nat, commit: nat)
    requires |o| >= 2
    requires At(off, o, tail, |o| - 1) && At(off, o, commit, |o| - 1)
    ensures var o' := Rotate(o, o[0]);
      && At(off, o', tail, |o| - 2) && At(off, o', commit, |o| - 2)
      && WriterInv(HeadSet(o[0], true), off, o', |o| - 2, |o| - 2)
  {
  }

  /** The second: the head moves one page on, so the order of the ring turns by one. */
  lemma SecondSwapKeeps(s: State, o: seq<nat>, t: int, c: int)
    requires |o| >= 2 && Inv(s, o, t, c) && s.w.GotNewHead?
    ensures Inv(WriterStep(s), Rotate(o, o[0]), t - 1, c - 1)
  {
    hide InBounds, WriterStep, Backs, Flags, ReaderInv, Rotate, Cycle, At, WriterInv;
    SecondSwapEffect(s, o, t, c);
    SecondReader(s, o, t, c);
    SecondLinks(s, o, t, c);
    SecondPlaces(s, o, t, c);
    assert Off(WriterStep(s)) == Off(s);
  }

  lemma SecondLinks(s: State, o: seq<nat>, t: int, c: int)
    requires |o| >= 2 && Inv(s, o, t, c) && s.w.GotNewHead?
    ensures o[0] < |s.next| && o[1] < |s.next| && t == c == |o| - 1
    ensures var next', o' := s.next[o[0] := Link(o[1], HEAD)], Rotate(o, o[0]);
      && Cycle(next', Off(s), o') && Backs(next', s.prev, Off(s), s.r.Swapped?, o')
      && Flags(next', Off(s), Beside, o', t - 1, c - 1)
  {
    hide InBounds, Backs, Flags, ReaderInv, Rotate;
    TurnLinks(s.next, s.prev, Off(s), s.r.Swapped?, o);
  }

  lemma SecondPlaces(s: State, o: seq<nat>, t: int, c: int)
    requires |o| >= 2 && Inv(s, o, t, c) && s.w.GotNewHead?
    ensures o[0] < |s.next| && o[1] < |s.next|
    ensures var o' := Rotate(o, o[0]);
      && At(Off(s), o', s.tail, t - 1) && At(Off(s), o', s.commit, c - 1)
      && |o'| == |o| && WriterInv(HeadSet(o[0], true), Off(s), o', t - 1, c - 1)
      && InBounds(s.(next := s.next[o[0] := Link(o[1], HEAD)], w := HeadSet(o[0], true)))
  {
    hide Backs, Flags, ReaderInv;
    FlagBounds(s, o[0], Link(o[1], HEAD), HeadSet(o[0], true));
    hide InBounds;
    TurnPositions(Off(s), o, s.tail, s.commit);
  }

  lemma SecondReader(s: State, o: seq<nat>, t: int, c: int)
    requires |o| >= 2 && Inv(s, o, t, c) && s.w.GotNewHead?
    ensures o[0] < |s.next| && o[1] < |s.next|
    ensures ReaderInv(s.next[o[0] := Link(o[1], HEAD)], s.prev, s.pages, s.headHint, s.reader, s.r, Rotate(o, o[0]),
      c - 1)
  {
    hide Backs, Flags, ReaderInv;
    assert s.next[o[0]].to == o[1];
    TurnReader(s.next, o[0], Link(o[1], HEAD), s.prev, s.pages, s.headHint, s.reader, s.r, o, c, c - 1);
  }

  /** The third clears the UPDATE flag it set. */
  lemma ThirdSwapEffect(s: State, o: seq<nat>, t: int, c: int)
    requires Inv(s, o, t, c) && s.w.HeadSet?
    ensures s.tail < |s.next|
    ensures WriterStep(s) == s.(next := s.next[s.tail := Link(s.w.n, NORMAL)], w := TailMoving(s.w.n))
  {
    hide Backs, ReaderInv;
    assert t >= 0 ==> s.next[o[t]] == Link(o[t + 1], UPDATE);
  }

  lemma ThirdSwapKeeps(s: State, o: seq<nat>, t: int, c: int)
    requires Inv(s, o, t, c) && s.w.HeadSet?
    ensures Inv(WriterStep(s), o, t, c)
  {
    ThirdSwapEffect(s, o, t, c);
    FlagBounds(s, s.tail, Link(s.w.n, NORMAL), TailMoving(s.w.n));
    hide Backs, InBounds, WriterStep;
    Reflag(s.next, WriterStep(s).next, s.prev, Off(s), s.r.Swapped?, o);
  }

  lemma StartScanKeeps(s: State, o: seq<nat>, t: int, c: int)
    requires Inv(s, o, t, c) && (s.r.Reading? || s.r.Spliced?) && c != -1
    ensures Inv(StartScan(s), o, t, c)
  {
    hide Flags;
    assert Off(StartScan(s)) == Off(s);
    assert exists i :: 0 <= i < |o| && o[i] == s.pages;
  }

  lemma NextOnRing(next: seq<Link>, off: nat, o: seq<nat>, p: nat)
    requires Cycle(next, off, o) && p in o && p < |next|
    ensures next[p].to in o
  {
    var i :| 0 <= i < |o| && o[i] == p;
    assert next[o[i]].to == Succ(o, i);
  }

  /** The reader looking around changes nothing the writer sees. */
  lemma LookingKeeps(s: State, o: seq<nat>, t: int, c: int, hint: nat, r: ReaderPc)
    requires Inv(s, o, t, c) && s.r.Scanning? && (r.Scanning? || r.Found? || r.Reading?)
    requires InBounds(s.(headHint := hint, r := r)) && ReaderInv(s.next, s.prev, s.pages, hint, s.reader, r, o, c)
    ensures Inv(s.(headHint := hint, r := r), o, t, c)
  {
    hide Flags, Backs, WriterInv, Cycle, ReaderInv, InBounds, At;
    assert Off(s.(headHint := hint, r := r)) == Off(s);
  }

  lemma ScanningKeeps(s: State, o: seq<nat>, t: int, c: int)
    requires Inv(s, o, t, c) && s.r.Scanning?
    ensures Inv(ReaderStep(s), o, t, c)
  {
    hide Flags, Backs, WriterInv, Cycle, At;
    var page := s.r.page;
    if IsHeadPage(s, page, s.prev[page]) != NORMAL {
      LookingKeeps(s, o, t, c, page, Found(page));
    } else {
      NextOnRing(s.next, Off(s), o, page);
      LookingKeeps(s, o, t, c, s.headHint, ReaderStep(s).r);
    }
  }

  lemma SpliceKeeps(s: State, o: seq<nat>, t: int, c: int)
    requires Inv(s, o, t, c) && s.r.Found?
    ensures Inv(ReaderStep(s), o, t, c)
  {
  }

  /** Replacing the head page by the page off the ring gives again one cycle. */
  lemma SwapCycle(next: seq<Link>, off: nat, o: seq<nat>, last: Link)
    requires Cycle(next, off, o) && next[off].to == o[1] && last.to == off
    ensures Cycle(next[o[|o| - 1] := last], o[0], Rotate(o, off))
  {
  }

  lemma SwapBacks(next: seq<Link>, prev: seq<nat>, off: nat, o: seq<nat>, last: Link)
    requires Cycle(next, off, o) && next[off].to == o[1] && last.to == off
    requires Backs(next, prev, off, false, o) && prev[off] == o[|o| - 1]
    ensures Cycle(next[o[|o| - 1] := last], o[0], Rotate(o, off))
    ensures Backs(next[o[|o| - 1] := last], prev, o[0], true, Rotate(o, off))
  {
    SwapCycle(next, off, o, last);
  }

  lemma SwapFlags(next: seq<Link>, off: nat, ph: Phase, o: seq<nat>, t: int, c: int)
    requires Cycle(next, off, o) && Flags(next, off, ph, o, t, c) && !ph.Alone?
    requires 0 <= c < |o| && (ph.Beside? ==> c == t < |o| - 1)
    requires Cycle(next[o[|o| - 1] := Link(off, NORMAL)], o[0], Rotate(o, off))
    requires next[off] == Link(o[1], HEAD)
    ensures Flags(next[o[|o| - 1] := Link(off, NORMAL)], o[0], ph, Rotate(o, off), Sunk(o, t), c - 1)
  {
    assert next[o[0]].flag == RingFlag(ph, |o|, t, 0);
  }

  lemma SwapPositions(w: WriterPc, tail: nat, commit: nat, off: nat, o: seq<nat>, t: int, c: int)
    requires |o| >= 2 && c >= 0
    requires At(off, o, tail, t) && At(off, o, commit, c)
    requires WriterInv(w, off, o, t, c) && !PhaseOf(w).Alone?
    ensures var o' := Rotate(o, off);
      && At(o[0], o', tail, Sunk(o, t)) && At(o[0], o', commit, c - 1)
      && WriterInv(w, o[0], o', Sunk(o, t), c - 1)
  {
  }

  lemma SwapEffect(s: State, o: seq<nat>, t: int, c: int)
    requires |o| >= 2 && Inv(s, o, t, c) && s.r.Spliced? && s.next[s.prev[s.r.x]].flag == HEAD
    ensures s.r.x == o[0] && s.prev[s.r.x] == o[|o| - 1] && s.next[s.reader] == Link(o[1], HEAD) && c >= 0
    ensures !PhaseOf(s.w).Alone?
    ensures ReaderStep(s) == s.(next := s.next[o[|o| - 1] := Link(s.reader, NORMAL)], r := Swapped(o[0]))
  {
    assert exists i :: 0 <= i < |o| && o[i] == s.r.x;
  }

  /** tb_head_page_replace succeeds only on the head page, which leaves the ring. */
  lemma SwapKeeps(s: State, o: seq<nat>, t: int, c: int)
    requires |o| >= 2 && Inv(s, o, t, c) && s.r.Spliced? && s.next[s.prev[s.r.x]].flag == HEAD
    ensures s.r.x == o[0]
    ensures Inv(ReaderStep(s), Rotate(o, s.reader), Sunk(o, t), c - 1)
  {
    SwapEffect(s, o, t, c);
    assert InBounds(ReaderStep(s));
    hide InBounds, ReaderStep;
    SwapBacks(s.next, s.prev, s.reader, o, Link(s.reader, NORMAL));
    SwapFlags(s.next, s.reader, PhaseOf(s.w), o, t, c);
    SwapPositions(s.w, s.tail, s.commit, s.reader, o, t, c);
    var o' := Rotate(o, s.reader);
    assert s.pages == o'[|o| - 2] && s.reader == o'[|o| - 1];
    hide Backs, Flags, Cycle, At, WriterInv, Rotate;
  }

  lemma FixKeeps(s: State, o: seq<nat>, t: int, c: int)
    requires Inv(s, o, t, c) && s.r.Swapped?
    ensures Inv(ReaderStep(s), o, t, c)
  {
    hide Flags, WriterInv, At;
  }

  lemma PublishKeeps(s: State, o: seq<nat>, t: int, c: int)
    requires Inv(s, o, t, c) && (s.r.Swapped? || s.r.Fixed?)
    ensures Inv(ReaderStep(s), o, t, c)
  {
    if s.r.Swapped? {
      FixKeeps(s, o, t, c);
    } else {
      NextOnRing(s.next, Off(s), o, s.reader);
      hide Cycle, Flags, Backs, WriterInv, At;
    }
  }

  lemma NoWarning(s: State, o: seq<nat>, t: int, c: int)
    requires Inv(s, o, t, c)
    ensures (s.w.WriterWarned? ==> s.w.line == 2601) && !s.r.ReaderWarned?
  {
  }

  lemma WarnedKeeps(s: State, o: seq<nat>, t: int, c: int)
    requires Inv(s, o, t, c) && s.w.WriterWarned?
    ensures Inv(WriterStep(s), o, t, c)
  {
    hide Cycle, Flags, Backs, ReaderInv, WriterInv;
  }

  lemma SplicedBusy(s: State, o: seq<nat>, t: int, c: int)
    requires Inv(s, o, t, c) && (s.r.Spliced? || (s.r.Reading? && s.commit != s.reader))
    ensures c != -1
  {
  }

  lemma InvBounds(s: State, o: seq<nat>, t: int, c: int)
    requires Inv(s, o, t, c)
    ensures InBounds(s)
  {
  }

  // ------------------------------------------------------------------------------------------
  // Until the reader-page test is torn, more holds.
  // ------------------------------------------------------------------------------------------

  /** The page before the one at position i is on the ring, unless prev is lagging. */
  lemma PrevOnRing(s: State, o: seq<nat>, t: int, c: int, i: nat)
    requires Inv(s, o, t, c) && i < |o| && !s.r.Swapped?
    ensures s.prev[o[i]] in o
  {
    hide Flags, WriterInv, ReaderInv;
    assert s.prev[o[i]] == Pred(o, i);
  }

  lemma SawHeadSure(s: State, o: seq<nat>, t: int, c: int)
    requires |o| >= 2 && Inv(s, o, t, c) && s.w.SawHead? && InBounds(WriterStep(s))
    ensures Sure(WriterStep(s), o, t, c)
  {
    if t >= 0 {
      PrevLeadsBack(s, o, t, c, t);
      if s.r.Found? { PrevOnRing(s, o, t, c, t); }
    }
    hide Flags, Backs;
  }

  lemma CommittingSure(s: State, o: seq<nat>, t: int, c: int)
    requires |o| >= 2 && Inv(s, o, t, c) && s.w.Committing? && Sure(s, o, t, c) && InBounds(WriterStep(s))
    ensures Sure(WriterStep(s), o, t, c)
  {
    if t >= 0 {
      PrevLeadsBack(s, o, t, c, t);
      if s.r.Found? { PrevOnRing(s, o, t, c, t); }
    }
    hide Flags, Backs;
  }

  /** However the writer gets there, the page it takes is free. */
  lemma TakeSure(s: State, o: seq<nat>, t: int, c: int)
    requires |o| >= 2 && Inv(s, o, t, c) && Sure(s, o, t, c) && InBounds(WriterStep(s))
    requires s.w.GotNext? || s.w.CheckReader? || s.w.HeadSet? || s.w.TailMoving?
    ensures Sure(WriterStep(s), o, if s.w.TailMoving? then Landing(o, t, s.w.n) else t, c)
  {
    hide Backs, ReaderInv, InBounds;
  }

  lemma CommitCheckSure(s: State, o: seq<nat>, t: int, c: int)
    requires |o| >= 2 && Inv(s, o, t, c) && Sure(s, o, t, c) && (s.w.CommitCheck? || s.w.CommitMove?)
      && InBounds(WriterStep(s))
    ensures Sure(WriterStep(s), o, t, if s.w.CommitMove? then Onward(o, c) else c)
  {
    hide Backs, ReaderInv, InBounds, Flags, Cycle;
  }

  /** A scan that starts while the writer stands still finds the head page. */
  lemma ScanFinds(s: State, o: seq<nat>, t: int, c: int)
    requires |o| >= 2 && Inv(s, o, t, c) && s.r.Scanning? && PhaseOf(s.w).Quiet? && ReaderStep(s).r.Found?
    ensures ReaderStep(s).r.x == o[0]
  {
    hide WriterInv;
    var i :| 0 <= i < |o| && o[i] == s.r.page;
    PrevLeadsBack(s, o, t, c, i);
    var k := if i == 0 then |o| - 1 else i - 1;
    assert s.prev[o[i]] == o[k];
    assert s.next[o[k]].flag == RingFlag(Quiet, |o|, t, k);
  }

  lemma LookingSure(s: State, o: seq<nat>, t: int, c: int)
    requires |o| >= 2 && Inv(s, o, t, c) && Sure(s, o, t, c) && InBounds(ReaderStep(s))
    requires s.r.Reading? || s.r.Scanning?
    ensures Sure(ReaderStep(s), o, t, c)
  {
    hide Cycle, Flags, Backs, ReaderInv;
    if s.r.Scanning? && PhaseOf(s.w).Quiet? && ReaderStep(s).r.Found? { ScanFinds(s, o, t, c); }
    hide WriterInv, InBounds;
  }

  lemma SpliceSure(s: State, o: seq<nat>, t: int, c: int)
    requires |o| >= 2 && Inv(s, o, t, c) && Sure(s, o, t, c) && s.r.Found? && !Torn(s) && InBounds(ReaderStep(s))
    ensures Sure(ReaderStep(s), o, t, c)
  {
    hide Cycle, Flags, Backs, ReaderInv, WriterInv;
  }

  lemma SwapSure(s: State, o: seq<nat>, t: int, c: int)
    requires |o| >= 2 && Inv(s, o, t, c) && Sure(s, o, t, c) && InBounds(ReaderStep(s))
    requires s.r.Spliced? && s.next[s.prev[s.r.x]].flag == HEAD
    ensures Sure(ReaderStep(s), Rotate(o, s.reader), Sunk(o, t), c - 1)
  {
    SwapEffect(s, o, t, c);
    hide Flags, Backs, ReaderInv, InBounds, ReaderStep;
    assert s.next[o[|o| - 1]].to == o[0];
  }

  lemma PublishSure(s: State, o: seq<nat>, t: int, c: int)
    requires |o| >= 2 && Inv(s, o, t, c) && Sure(s, o, t, c) && InBounds(ReaderStep(s))
    requires s.r.Swapped? || s.r.Fixed? || (s.r.Spliced? && s.next[s.prev[s.r.x]].flag != HEAD)
    ensures Sure(ReaderStep(s), o, t, c)
  {
    hide Cycle, Flags, Backs, ReaderInv, WriterInv, InBounds;
  }

  /** The ring as read from the head page, and where tail and commit stand in it. */
  datatype Place = Place(o: seq<nat>, t: int, c: int)

  function AfterWriter(s: State, at: Place): Place
    requires InBounds(s) && |at.o| >= 2
  {
    match s.w
    case GotNewHead(_, _, _) => Place(Rotate(at.o, at.o[0]), at.t - 1, at.c - 1)
    case TailMoving(n) => at.(t := Landing(at.o, at.t, n))
    case CommitMove => at.(c := Onward(at.o, at.c))
    case _ => at
  }

  function AfterReader(s: State, at: Place): Place
    requires InBounds(s) && |at.o| >= 2
  {
    if s.r.Spliced? && s.next[s.prev[s.r.x]].flag == HEAD
    then Place(Rotate(at.o, s.reader), Sunk(at.o, at.t), at.c - 1)
    else at
  }

  lemma WriterKeeps(s: State, o: seq<nat>, t: int, c: int)
    requires |o| >= 2 && InBounds(s) && Inv(s, o, t, c)
    ensures var to := AfterWriter(s, Place(o, t, c)); Inv(WriterStep(s), to.o, to.t, to.c) && |to.o| == |o|
  {
    hide Inv, WriterStep, InBounds;
    match s.w {
      case Writing => WritingKeeps(s, o, t, c);
      case GotNext(_) => GotNextKeeps(s, o, t, c);
      case SawHead(_) => SawHeadKeeps(s, o, t, c);
      case CheckReader(_, _) => CheckReaderKeeps(s, o, t, c);
      case Handle(_) => FirstSwapKeeps(s, o, t, c);
      case Updating(_, _) => UpdatingKeeps(s, o, t, c);
      case GotNewHead(_, _, _) => SecondSwapKeeps(s, o, t, c);
      case HeadSet(_, _) => ThirdSwapKeeps(s, o, t, c);
      case TailMoving(n) => TailMovingKeeps(s, o, t, c);
      case Committing => CommittingKeeps(s, o, t, c);
      case CommitCheck(_) => CommitCheckKeeps(s, o, t, c);
      case CommitMove => CommitMoveKeeps(s, o, t, c);
      case WriterWarned(_) => WarnedKeeps(s, o, t, c);
    }
  }

  lemma WriterSure(s: State, o: seq<nat>, t: int, c: int)
    requires |o| >= 2 && InBounds(s) && Inv(s, o, t, c) && Sure(s, o, t, c) && InBounds(WriterStep(s))
    ensures var to := AfterWriter(s, Place(o, t, c)); |to.o| == |o| && Sure(WriterStep(s), to.o, to.t, to.c)
  {
    if s.w.SawHead? { SawHeadSure(s, o, t, c); }
    else if s.w.Committing? { CommittingSure(s, o, t, c); }
    else if s.w.CommitCheck? || s.w.CommitMove? { CommitCheckSure(s, o, t, c); }
    else if s.w.GotNext? || s.w.CheckReader? || s.w.HeadSet? || s.w.TailMoving? { TakeSure(s, o, t, c); }
    hide Inv, InBounds;
  }

  lemma ReadingKeeps(s: State, o: seq<nat>, t: int, c: int)
    requires Inv(s, o, t, c) && s.r.Reading?
    ensures Inv(ReaderStep(s), o, t, c)
  {
    if s.commit != s.reader { SplicedBusy(s, o, t, c); StartScanKeeps(s, o, t, c); }
    hide StartScan, Cycle, Flags, Backs, WriterInv, ReaderInv;
  }

  lemma RetryKeeps(s: State, o: seq<nat>, t: int, c: int)
    requires Inv(s, o, t, c) && s.r.Spliced? && s.next[s.prev[s.r.x]].flag != HEAD
    ensures Inv(ReaderStep(s), o, t, c)
  {
    SplicedBusy(s, o, t, c);
    StartScanKeeps(s, o, t, c);
    hide StartScan, Cycle, Flags, Backs, WriterInv, ReaderInv;
  }

  lemma ReaderKeeps(s: State, o: seq<nat>, t: int, c: int)
    requires |o| >= 2 && InBounds(s) && Inv(s, o, t, c)
    ensures var to := AfterReader(s, Place(o, t, c)); Inv(ReaderStep(s), to.o, to.t, to.c) && |to.o| == |o|
  {
    NoWarning(s, o, t, c);
    hide Inv, ReaderStep;
    match s.r {
      case Reading => ReadingKeeps(s, o, t, c);
      case Scanning(_, _, _) => ScanningKeeps(s, o, t, c);
      case Found(_) => SpliceKeeps(s, o, t, c);
      case Spliced(x) => if s.next[s.prev[x]].flag == HEAD { SwapKeeps(s, o, t, c); } else { RetryKeeps(s, o, t, c); }
      case Swapped(_) => PublishKeeps(s, o, t, c);
      case Fixed(_) => PublishKeeps(s, o, t, c);
    }
  }

  lemma ReaderSure(s: State, o: seq<nat>, t: int, c: int)
    requires |o| >= 2 && InBounds(s) && Inv(s, o, t, c) && Sure(s, o, t, c) && !Torn(s) && InBounds(ReaderStep(s))
    ensures var to := AfterReader(s, Place(o, t, c)); |to.o| == |o| && Sure(ReaderStep(s), to.o, to.t, to.c)
  {
    NoWarning(s, o, t, c);
    if s.r.Reading? || s.r.Scanning? { LookingSure(s, o, t, c); }
    else if s.r.Found? { SpliceSure(s, o, t, c); }
    else if s.r.Spliced? && s.next[s.prev[s.r.x]].flag == HEAD { SwapSure(s, o, t, c); }
    else { PublishSure(s, o, t, c); }
    hide Inv, InBounds, Torn, ReaderStep;
  }

  // ------------------------------------------------------------------------------------------
  // Main results: what holds in every state of every run.
  // ------------------------------------------------------------------------------------------

  predicate Run(n: nat, run: seq<State>) {
    && n >= 2 && |run| > 0 && run[0] == Initial(n)
    && forall i :: 0 <= i < |run| - 1 ==> Step(run[i], run[i + 1])
  }

  /** The ring of `s`, read from the head page, has n pages and obeys the protocol invariant. */
  ghost predicate RingOf(n: nat, s: State, o: seq<nat>, t: int, c: int) {
    |o| == n && Inv(s, o, t, c)
  }

  /** In no step of the run does the reader tear the writer's test. */
  predicate Untorn(run: seq<State>) {
    forall i :: 0 <= i < |run| - 1 && InBounds(run[i]) && Torn(run[i]) ==> run[i + 1] == WriterStep(run[i])
  }

  lemma {:induction false} EveryRunKeepsTheRing(n: nat, run: seq<State>) returns (o: seq<nat>, t: int, c: int)
    requires Run(n, run)
    ensures RingOf(n, run[|run| - 1], o, t, c)
    ensures Untorn(run) ==> Sure(run[|run| - 1], o, t, c)
  {
    if |run| == 1 {
      InitialInv(n);
      o, t, c := seq(n, (i: nat) => i), 0, 0;
    } else {
      var before := run[..|run| - 1];
      o, t, c := EveryRunKeepsTheRing(n, before);
      var s := before[|before| - 1];
      assert s == run[|run| - 2] && Step(s, run[|run| - 1]);
      assert Untorn(run) ==> Untorn(before);
      o, t, c := StepKeeps(s, run[|run| - 1], n, o, t, c);
    }
  }

  lemma StepKeeps(s: State, s': State, n: nat, o: seq<nat>, t: int, c: int) returns (o': seq<nat>, t': int, c': int)
    requires n >= 2 && Step(s, s') && RingOf(n, s, o, t, c)
    ensures RingOf(n, s', o', t', c')
    ensures Sure(s, o, t, c) && (Torn(s) ==> s' == WriterStep(s)) ==> Sure(s', o', t', c')
  {
    hide Inv, WriterStep, ReaderStep, InBounds, Sure, Torn;
    var to := if s' == WriterStep(s) then AfterWriter(s, Place(o, t, c)) else AfterReader(s, Place(o, t, c));
    o', t', c' := to.o, to.t, to.c;
    if s' == WriterStep(s) {
      WriterKeeps(s, o, t, c);
      InvBounds(s', o', t', c');
      if Sure(s, o, t, c) { WriterSure(s, o, t, c); }
    } else {
      ReaderKeeps(s, o, t, c);
      InvBounds(s', o', t', c');
      if Sure(s, o, t, c) && !Torn(s) { ReaderSure(s, o, t, c); }
    }
    hide AfterWriter, AfterReader;
  }

  /** Main theorem, spelled out.  In every state any interleaving reaches: none of the warnings at
      lines 1248, 2077, 2115 and 2153 of driver/LKM/src/trace_buffer.c has fired, and the one at line
      2601 only if a reader-page test was torn; the ring links lead through exactly n distinct pages
      and back, never through the off-ring page; the one HEAD link is the one into the first of them;
      while the writer moves the head its UPDATE link stands alone between the first and second
      cmpxchg and beside the HEAD link until the third. */
  lemma RingTheorem(n: nat, run: seq<State>) returns (o: seq<nat>)
    requires Run(n, run)
    ensures var s := run[|run| - 1];
      && (s.w.WriterWarned? ==> s.w.line == 2601 && !Untorn(run)) && !s.r.ReaderWarned?
      && |o| == n && |s.next| == n + 1 && Distinct(o) && Off(s) !in o
      && (forall i :: 0 <= i < n ==> o[i] < |s.next|)
      && (forall i {:trigger s.next[o[i]]} :: 0 <= i < n ==> s.next[o[i]].to == Succ(o, i))
      && (forall p :: p in o ==> (s.next[p].flag == HEAD <==> p == o[n - 1] && !PhaseOf(s.w).Alone?))
      && (forall p :: p in o ==> (s.next[p].flag == UPDATE <==> p == s.tail && !PhaseOf(s.w).Quiet?))
      && (forall p :: p in o ==> s.next[p].flag in {NORMAL, HEAD, UPDATE})
  {
    var t, c;
    o, t, c := EveryRunKeepsTheRing(n, run);
    var s := run[|run| - 1];
    NoWarning(s, o, t, c);
    hide Run, Untorn, Step;
    hide Backs, ReaderInv, InBounds;
    forall p | p in o
      ensures p < |s.next|
      ensures s.next[p].flag == HEAD <==> p == o[n - 1] && !PhaseOf(s.w).Alone?
      ensures s.next[p].flag == UPDATE <==> p == s.tail && !PhaseOf(s.w).Quiet?
      ensures s.next[p].flag in {NORMAL, HEAD, UPDATE}
    {
      FlagAt(s, n, o, t, c, p);
    }
  }

  lemma FlagAt(s: State, n: nat, o: seq<nat>, t: int, c: int, p: nat)
    requires RingOf(n, s, o, t, c) && p in o
    ensures p < |s.next| && n >= 2
    ensures s.next[p].flag == HEAD <==> p == o[n - 1] && !PhaseOf(s.w).Alone?
    ensures s.next[p].flag == UPDATE <==> p == s.tail && !PhaseOf(s.w).Quiet?
    ensures s.next[p].flag in {NORMAL, HEAD, UPDATE}
  {
    hide Backs, ReaderInv, InBounds;
    var i :| 0 <= i < n && o[i] == p;
    assert s.next[o[i]].flag == RingFlag(PhaseOf(s.w), n, t, i);
  }

  /** The reader's cmpxchg takes the head page only, and never a page some link marks UPDATE. */
  lemma SwapNeverTakesUpdatedPage(n: nat, run: seq<State>) returns (o: seq<nat>)
    requires Run(n, run)
    requires var s := run[|run| - 1];
      s.r.Spliced? && InBounds(s) && ReaderStep(s).r.Swapped?
    ensures var s := run[|run| - 1];
      && |o| == n && Cycle(s.next, s.reader, o)
      && s.r.x == o[0] && s.next[s.prev[s.r.x]] == Link(s.r.x, HEAD)
      && forall p :: p in o || p == s.reader ==> s.next[p] != Link(s.r.x, UPDATE)
  {
    var t, c;
    o, t, c := EveryRunKeepsTheRing(n, run);
    var s := run[|run| - 1];
    SwapKeeps(s, o, t, c);
    forall p | p in o ensures s.next[p] != Link(s.r.x, UPDATE) {
      var i :| 0 <= i < n && o[i] == p;
      assert s.next[o[i]].flag == RingFlag(PhaseOf(s.w), n, t, i);
    }
  }

  /** The page the writer has taken and is about to clear is the page off the ring, or the head page
      of a full ring. */
  predicate TakesUsedPage(s: State)
    requires InBounds(s) && s.w.TailMoving?
  {
    s.w.n == Off(s) || s.next[s.tail] == Link(s.w.n, HEAD)
  }

  /** The page the writer is about to clear and publish as tail is free, that is on the ring beyond
      every page from the head to commit, so that it is not the page being read and holds no unread
      event, unless it is the page off the ring or the head page of a full ring; and that happens
      only after a torn reader-page test. */
  lemma ClearedPageIsFree(n: nat, run: seq<State>) returns (o: seq<nat>, c: int)
    requires Run(n, run) && run[|run| - 1].w.TailMoving?
    ensures var s := run[|run| - 1];
      && |o| == n && |s.next| == n + 1 && Cycle(s.next, Off(s), o) && At(Off(s), o, s.commit, c) && InBounds(s)
      && -1 <= c < n && (s.w.n in o[c + 1..] <==> !TakesUsedPage(s))
      && (s.w.n in o[c + 1..] ==> s.w.n != Off(s) && s.w.n != s.tail)
      && (Untorn(run) ==> s.w.n in o[c + 1..])
  {
    var t;
    o, t, c := EveryRunKeepsTheRing(n, run);
    hide Run, Untorn, Step;
    TakenPage(run[|run| - 1], o, t, c);
  }

  lemma TakenPage(s: State, o: seq<nat>, t: int, c: int)
    requires Inv(s, o, t, c) && s.w.TailMoving?
    ensures -1 <= c < |o| && |o| >= 2
    ensures s.w.n in o[c + 1..] <==> !TakesUsedPage(s)
    ensures s.w.n in o[c + 1..] ==> s.w.n != Off(s) && s.w.n != s.tail
    ensures Sure(s, o, t, c) ==> s.w.n in o[c + 1..]
  {
    hide Backs, ReaderInv, InBounds;
    var free := o[c + 1..];
    if Fresh(o, t, s.w.n) { assert free[0] == s.w.n; }
    if -1 <= t < |o| - 2 && s.w.n == o[t + 2] { assert free[1] == s.w.n; }
    assert t >= 0 ==> s.next[o[t]].flag == RingFlag(Quiet, |o|, t, t);
  }

  // ------------------------------------------------------------------------------------------
  // What tearing the two loads of tb_is_reader_page apart leads to.
  // ------------------------------------------------------------------------------------------

  predicate Behind(o: seq<nat>, c: int, page: nat) { -1 <= c && exists i :: c < i < |o| && o[i] == page }

  /** The page the test loaded, re-linked away from the page under test, stays so: it is about to be
      spliced in for the true head page, or it is on the ring behind commit. */
  predicate Misled(s: State, o: seq<nat>, t: int, c: int)
    requires InBounds(s) && |o| >= 2
  {
    && (match s.w
        case CheckReader(_, p) => s.next[p].to != s.commit
        case CommitCheck(p) => s.next[p].to != s.tail && c < t
        case _ => false)
    && ((s.r.Spliced? && s.w.p == s.reader && s.r.x == o[0]) || Behind(o, c, s.w.p))
  }

  lemma TearMisleads(s: State, o: seq<nat>, t: int, c: int)
    requires |o| >= 2 && InBounds(s) && Inv(s, o, t, c) && Sure(s, o, t, c) && Torn(s)
    ensures Inv(ReaderStep(s), o, t, c) && InBounds(ReaderStep(s)) && ReaderStep(s).w == s.w
    ensures Misled(ReaderStep(s), o, t, c) && s.commit != s.reader
  {
    SpliceKeeps(s, o, t, c);
    hide Flags, Backs, WriterInv;
  }

  lemma SwapStaysMisled(s: State, o: seq<nat>, t: int, c: int)
    requires |o| >= 2 && Inv(s, o, t, c) && Misled(s, o, t, c) && InBounds(ReaderStep(s))
    requires s.r.Spliced? && s.next[s.prev[s.r.x]].flag == HEAD
    ensures Misled(ReaderStep(s), Rotate(o, s.reader), Sunk(o, t), c - 1) && ReaderStep(s).w == s.w
  {
    SwapEffect(s, o, t, c);
    hide Flags, Backs, ReaderInv, WriterInv, InBounds, ReaderStep;
    var o' := Rotate(o, s.reader);
    if s.w.p == s.reader {
      assert o'[|o| - 1] == s.w.p;
    } else {
      var i :| c < i < |o| && o[i] == s.w.p;
      assert o'[i - 1] == s.w.p;
    }
  }

  /** A misled reader never fails its cmpxchg: it holds the head page. */
  lemma MisledSwaps(s: State, o: seq<nat>, t: int, c: int)
    requires |o| >= 2 && Inv(s, o, t, c) && Misled(s, o, t, c) && s.r.Spliced? && s.w.p == s.reader
    ensures s.next[s.prev[s.r.x]].flag == HEAD
  {
    hide ReaderInv, WriterInv;
    assert s.prev[o[0]] == o[|o| - 1];
    assert s.next[o[|o| - 1]].flag == RingFlag(Quiet, |o|, t, |o| - 1);
  }

  lemma StandsMisled(s: State, o: seq<nat>, t: int, c: int)
    requires |o| >= 2 && Inv(s, o, t, c) && Misled(s, o, t, c) && InBounds(ReaderStep(s))
    requires !(s.r.Spliced? && s.next[s.prev[s.r.x]].flag == HEAD)
    ensures Misled(ReaderStep(s), o, t, c) && ReaderStep(s).w == s.w
  {
    if s.r.Spliced? && s.w.p == s.reader { MisledSwaps(s, o, t, c); }
    hide Flags, Backs, ReaderInv, WriterInv;
  }

  lemma StaysMisled(s: State, o: seq<nat>, t: int, c: int) returns (o': seq<nat>, t': int, c': int)
    requires |o| >= 2 && InBounds(s) && Inv(s, o, t, c) && Misled(s, o, t, c)
    ensures |o'| == |o| && Inv(ReaderStep(s), o', t', c') && InBounds(ReaderStep(s))
    ensures Misled(ReaderStep(s), o', t', c') && ReaderStep(s).w == s.w
  {
    var to := AfterReader(s, Place(o, t, c));
    o', t', c' := to.o, to.t, to.c;
    ReaderKeeps(s, o, t, c);
    InvBounds(ReaderStep(s), o', t', c');
    if s.r.Spliced? && s.next[s.prev[s.r.x]].flag == HEAD {
      SwapStaysMisled(s, o, t, c);
    } else {
      StandsMisled(s, o, t, c);
    }
    hide Inv, ReaderStep, Misled;
  }

  /** The run ends with reader steps only, from the tearing one at position j on. */
  predicate TearsAt(run: seq<State>, j: nat) {
    && j < |run| - 1 && InBounds(run[j]) && Torn(run[j])
    && forall i :: j <= i < |run| - 1 ==> InBounds(run[i]) && run[i + 1] == ReaderStep(run[i])
  }

  lemma {:induction false} MisledRun(n: nat, run: seq<State>, j: nat) returns (o: seq<nat>, t: int, c: int)
    requires Run(n, run) && TearsAt(run, j) && Untorn(run[..j + 1])
    ensures RingOf(n, run[|run| - 1], o, t, c) && Misled(run[|run| - 1], o, t, c)
    ensures run[|run| - 1].w == run[j].w && run[j].commit != run[j].reader
    decreases |run|
  {
    hide Inv, ReaderStep, WriterStep, Torn, InBounds, Misled;
    var before := run[..|run| - 1];
    var s, s' := run[|run| - 2], run[|run| - 1];
    if j == |run| - 2 {
      assert run[..j + 1] == before;
      o, t, c := EveryRunKeepsTheRing(n, before);
      TearMisleads(s, o, t, c);
    } else {
      assert run[..j + 1] == before[..j + 1];
      o, t, c := MisledRun(n, before, j);
      o, t, c := StaysMisled(s, o, t, c);
    }
  }

  /** Once the reader has torn the test, the writer's next step gets the wrong answer, however long
      the reader goes on first: the check of tb_set_commit_to_write fires its warning at line 2601;
      tb_move_tail does not push the head but takes the page it had seen, and that page is not free
      exactly if it is, by then, the page off the ring or the head page of a full ring. */
  lemma TornTestIsWrong(n: nat, run: seq<State>, j: nat) returns (o: seq<nat>, c: int)
    requires Run(n, run) && TearsAt(run, j) && Untorn(run[..j + 1])
    ensures var s := run[|run| - 1];
      && InBounds(s) && s.w == run[j].w && run[j].commit != run[j].reader
      && |o| == n && Cycle(s.next, Off(s), o) && At(Off(s), o, s.commit, c) && -1 <= c < n
      && (s.w.CommitCheck? ==> WriterStep(s).w == WriterWarned(2601))
      && (s.w.CheckReader? ==>
            && WriterStep(s).w == TailMoving(s.w.n) && InBounds(WriterStep(s))
            && (s.w.n in o[c + 1..] <==> !TakesUsedPage(WriterStep(s))))
  {
    var t;
    o, t, c := MisledRun(n, run, j);
    var s := run[|run| - 1];
    hide Run, Untorn, TearsAt, Step;
    if s.w.CheckReader? { MisledTake(s, o, t, c); }
    hide Flags, Backs, ReaderInv;
  }

  lemma MisledTake(s: State, o: seq<nat>, t: int, c: int)
    requires |o| >= 2 && Inv(s, o, t, c) && Misled(s, o, t, c) && s.w.CheckReader?
    ensures -1 <= c < |o| && WriterStep(s) == s.(w := TailMoving(s.w.n)) && InBounds(WriterStep(s))
    ensures s.w.n in o[c + 1..] <==> !TakesUsedPage(WriterStep(s))
  {
    CheckReaderKeeps(s, o, t, c);
    hide Flags, Backs, ReaderInv;
    TakenPage(WriterStep(s), o, t, c);
  }
}
