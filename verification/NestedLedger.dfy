/** Nested writers: what becomes of the bytes they reserve.  Every event that is committed, and every
    padding, keeps its bytes for good; together with the open reservations they fill each page from
    its start without gap or overlap. */
module NestedLedger {
  import opened NestedCommit

  /** The bytes pos .. pos + len of a page. */
  datatype Span = Span(page: nat, pos: nat, len: nat)

  function SpanOf(f: Frame): Span { Span(f.tp, f.pos, f.len) }

  // ------------------------------------------------------------------------------------------
  // What is entered, said from the choices and not from the steps.
  // ------------------------------------------------------------------------------------------

  /** Nobody has reserved behind the writer's bytes, and the tail is still on their page. */
  predicate Undisturbed(g: Shared, f: Frame) { g.tail == f.tp && f.tp in g.write && g.write[f.tp].idx == f.pos + f.len }

  /** What the choice ch enters: the bytes of a reservation when its writer commits it, or finds that it
      is too late to discard it; and the rest of a page that is left with room for a padding. */
  function Entered(s: State, ch: Choice): seq<Span> {
    if ch.Interrupt? || |s.stack| == 0 then []
    else
      var f := Top(s);
      if f.pc.Fill? then if ch.Discard? && Undisturbed(s.g, f) then [] else [SpanOf(f)]
      else if f.pc.Unwind? then if f.tp in s.g.write && s.g.write[f.tp] == f.seen then [] else [SpanOf(f)]
      else if f.pc.Reset? && f.pos + MIN_SIZE <= PAGE then [Span(f.tp, f.pos, PAGE - f.pos)]
      else []
  }

  /** Everything entered in a run, in order. */
  function Ledger(size: nat, run: seq<Choice>): seq<Span> {
    if |run| == 0 then []
    else Ledger(size, run[..|run| - 1]) + Entered(After(size, run[..|run| - 1]), run[|run| - 1])
  }

  /** The open reservations. */
  function Opens(st: seq<Frame>): seq<Span> {
    if |st| == 0 then []
    else
      var lower, f := Opens(st[..|st| - 1]), st[|st| - 1];
      if Open(f) then lower + [SpanOf(f)] else lower
  }

  /** How many bytes of page p they are. */
  function Sum(xs: seq<Span>, p: nat): nat {
    if |xs| == 0 then 0 else Sum(xs[..|xs| - 1], p) + if xs[|xs| - 1].page == p then xs[|xs| - 1].len else 0
  }

  // ------------------------------------------------------------------------------------------
  // The books balance.
  // ------------------------------------------------------------------------------------------

  predicate Apart(a: Span, b: Span) { a.page == b.page ==> a.pos + a.len <= b.pos || b.pos + b.len <= a.pos }

  /** The bytes lie below the settled index of a page in use, or below the final one. */
  predicate Inside(g: Shared, m: map<nat, nat>, x: Span) {
    && x.len > 0 && x.page <= g.tail && x.page in g.write && x.page in g.cidx
    && if x.page >= g.commit then x.page in m && x.pos + x.len <= m[x.page] else x.pos + x.len <= g.write[x.page].idx
  }

  predicate AllInside(g: Shared, m: map<nat, nat>, xs: seq<Span>) { forall i :: 0 <= i < |xs| ==> Inside(g, m, xs[i]) }

  predicate AllApart(xs: seq<Span>) { forall i, j :: 0 <= i < j < |xs| ==> Apart(xs[i], xs[j]) }

  predicate ApartFrom(xs: seq<Span>, y: Span) { forall i :: 0 <= i < |xs| ==> Apart(xs[i], y) }

  predicate BothApart(xs: seq<Span>, ys: seq<Span>) { forall i :: 0 <= i < |ys| ==> ApartFrom(xs, ys[i]) }

  /** The settled index of a page is the number of bytes held on it. */
  predicate Filled(g: Shared, m: map<nat, nat>, kept: seq<Span>, open: seq<Span>) {
    && (forall p :: g.commit <= p <= g.tail ==> p in m && m[p] == Sum(kept, p) + Sum(open, p))
    && (forall p :: p < g.commit && p in g.cidx ==> p in g.write && g.write[p].idx == Sum(kept, p) + Sum(open, p))
  }

  predicate Balanced(g: Shared, m: map<nat, nat>, kept: seq<Span>, open: seq<Span>) {
    && AllInside(g, m, kept) && AllInside(g, m, open)
    && AllApart(kept) && AllApart(open) && BothApart(kept, open)
    && Filled(g, m, kept, open)
  }

  lemma SumMore(xs: seq<Span>, y: Span, p: nat)
    ensures Sum(xs + [y], p) == Sum(xs, p) + if y.page == p then y.len else 0
  {
    assert (xs + [y])[..|xs|] == xs;
  }

  lemma {:induction false} SumNone(xs: seq<Span>, p: nat)
    requires forall i :: 0 <= i < |xs| ==> xs[i].page != p
    ensures Sum(xs, p) == 0
  {
    if |xs| > 0 { SumNone(xs[..|xs| - 1], p); }
  }

  lemma ApartMore(xs: seq<Span>, y: Span)
    requires AllApart(xs) && ApartFrom(xs, y)
    ensures AllApart(xs + [y])
  {
  }

  lemma AllApartFront(xs: seq<Span>, y: Span)
    requires AllApart(xs + [y])
    ensures AllApart(xs) && ApartFrom(xs, y)
  {
    var all := xs + [y];
    forall i, j | 0 <= i < j < |xs| ensures Apart(xs[i], xs[j]) { assert Apart(all[i], all[j]); }
    forall i | 0 <= i < |xs| ensures Apart(xs[i], y) { assert Apart(all[i], all[|xs|]); }
  }

  /** Above everything on its page. */
  lemma AboveAll(g: Shared, m: map<nat, nat>, xs: seq<Span>, y: Span)
    requires AllInside(g, m, xs) && g.commit <= y.page && y.page in m && m[y.page] <= y.pos
    ensures ApartFrom(xs, y)
  {
  }

  // --- the seven things that can happen

  /** Nothing the books are about. */
  predicate SameBooks(g: Shared, g': Shared) {
    && g'.commit == g.commit && g'.tail == g.tail
    && (forall p :: p in g.write ==> p in g'.write) && (forall p :: p in g.cidx ==> p in g'.cidx)
    && (forall p :: p < g.commit && p in g'.cidx ==> p in g.cidx)
    && (forall p :: p < g.commit && p in g.write ==> g'.write[p] == g.write[p])
  }

  lemma StaysBalanced(g: Shared, g': Shared, m: map<nat, nat>, kept: seq<Span>, open: seq<Span>)
    requires Balanced(g, m, kept, open) && SameBooks(g, g')
    ensures Balanced(g', m, kept, open)
  {
    InsideStays(g, g', m, kept);
    InsideStays(g, g', m, open);
    hide AllInside, AllApart, BothApart, Sum;
  }

  lemma InsideStays(g: Shared, g': Shared, m: map<nat, nat>, xs: seq<Span>)
    requires AllInside(g, m, xs) && SameBooks(g, g')
    ensures AllInside(g', m, xs)
  {
    forall i | 0 <= i < |xs| ensures Inside(g', m, xs[i]) { assert Inside(g, m, xs[i]); }
  }

  /** A higher settled index keeps everything inside. */
  lemma InsideRaised(g: Shared, m: map<nat, nat>, p: nat, v: nat, xs: seq<Span>)
    requires AllInside(g, m, xs) && (p in m ==> m[p] <= v)
    ensures AllInside(g, m[p := v], xs)
  {
    forall i | 0 <= i < |xs| ensures Inside(g, m[p := v], xs[i]) { assert Inside(g, m, xs[i]); }
  }

  lemma FilledMore(g: Shared, m: map<nat, nat>, kept: seq<Span>, open: seq<Span>, y: Span, v: nat)
    requires Filled(g, m, kept, open) && g.commit <= y.page <= g.tail && m[y.page] == y.pos && v == y.pos + y.len
    ensures Filled(g, m[y.page := v], kept, open + [y]) && Filled(g, m[y.page := v], kept + [y], open)
  {
    forall p ensures Sum(kept + [y], p) == Sum(kept, p) + (if y.page == p then y.len else 0)
      && Sum(open + [y], p) == Sum(open, p) + (if y.page == p then y.len else 0)
    {
      SumMore(kept, y, p);
      SumMore(open, y, p);
    }
    hide Sum;
  }

  lemma Reserved(g: Shared, m: map<nat, nat>, kept: seq<Span>, open: seq<Span>, y: Span)
    requires Balanced(g, m, kept, open) && KnownShared(g)
    requires g.commit <= y.page <= g.tail && y.page in m && m[y.page] == y.pos && y.len > 0
    ensures Balanced(g, m[y.page := y.pos + y.len], kept, open + [y])
  {
    hide AllApart, ApartFrom, Filled, Apart;
    AboveAll(g, m, kept, y);
    AboveAll(g, m, open, y);
    ApartMore(open, y);
    InsideRaised(g, m, y.page, y.pos + y.len, kept);
    InsideRaised(g, m, y.page, y.pos + y.len, open);
    FilledMore(g, m, kept, open, y, y.pos + y.len);
  }

  lemma Padded(g: Shared, m: map<nat, nat>, kept: seq<Span>, open: seq<Span>, y: Span)
    requires Balanced(g, m, kept, open) && KnownShared(g)
    requires g.commit <= y.page <= g.tail && y.page in m && m[y.page] == y.pos && y.len > 0
    ensures Balanced(g, m[y.page := y.pos + y.len], kept + [y], open)
  {
    hide AllApart, ApartFrom, Filled, Apart, BothApart;
    AboveAll(g, m, kept, y);
    AboveAll(g, m, open, y);
    ApartMore(kept, y);
    InsideRaised(g, m, y.page, y.pos + y.len, kept);
    InsideRaised(g, m, y.page, y.pos + y.len, open);
    FilledMore(g, m, kept, open, y, y.pos + y.len);
    BothMore(kept, open, y);
  }

  lemma BothMore(xs: seq<Span>, ys: seq<Span>, y: Span)
    requires BothApart(xs, ys) && ApartFrom(ys, y)
    ensures BothApart(xs + [y], ys)
  {
    forall i | 0 <= i < |ys| ensures ApartFrom(xs + [y], ys[i]) { assert ApartFrom(xs, ys[i]) && Apart(ys[i], y); }
  }

  lemma BothFront(xs: seq<Span>, ys: seq<Span>, y: Span)
    requires BothApart(xs, ys + [y])
    ensures BothApart(xs, ys) && ApartFrom(xs, y)
  {
    var all := ys + [y];
    forall i | 0 <= i < |ys| ensures ApartFrom(xs, ys[i]) { assert ApartFrom(xs, all[i]); }
    assert ApartFrom(xs, all[|ys|]);
  }

  lemma InsideFront(g: Shared, m: map<nat, nat>, ys: seq<Span>, y: Span)
    requires AllInside(g, m, ys + [y])
    ensures AllInside(g, m, ys) && Inside(g, m, y)
  {
    var all := ys + [y];
    forall i | 0 <= i < |ys| ensures Inside(g, m, ys[i]) { assert Inside(g, m, all[i]); }
    assert Inside(g, m, all[|ys|]);
  }

  /** The reservation made last is entered. */
  lemma Kept(g: Shared, m: map<nat, nat>, kept: seq<Span>, open: seq<Span>, y: Span)
    requires Balanced(g, m, kept, open + [y])
    ensures Balanced(g, m, kept + [y], open)
  {
    AllApartFront(open, y);
    BothFront(kept, open, y);
    InsideFront(g, m, open, y);
    ApartMore(kept, y);
    BothMore(kept, open, y);
    forall p ensures Sum(kept + [y], p) + Sum(open, p) == Sum(kept, p) + Sum(open + [y], p) {
      SumMore(kept, y, p);
      SumMore(open, y, p);
    }
    hide AllApart, ApartFrom, Apart, BothApart, Sum, Inside;
  }

  /** Or it is taken back; nothing is behind it. */
  lemma TakenBack(g: Shared, m: map<nat, nat>, kept: seq<Span>, open: seq<Span>, y: Span)
    requires Balanced(g, m, kept, open + [y])
    requires g.commit <= y.page <= g.tail && y.page in m && m[y.page] == y.pos + y.len
    ensures Balanced(g, m[y.page := y.pos], kept, open)
  {
    AllApartFront(open, y);
    BothFront(kept, open, y);
    InsideFront(g, m, open, y);
    InsideLowered(g, m, kept, y);
    InsideLowered(g, m, open, y);
    forall p ensures Sum(open + [y], p) == Sum(open, p) + (if y.page == p then y.len else 0) { SumMore(open, y, p); }
    hide AllApart, ApartFrom, Apart, BothApart, Sum, Inside;
  }

  lemma InsideLowered(g: Shared, m: map<nat, nat>, xs: seq<Span>, y: Span)
    requires AllInside(g, m, xs) && ApartFrom(xs, y) && y.page in m && m[y.page] == y.pos + y.len && g.commit <= y.page
    ensures AllInside(g, m[y.page := y.pos], xs)
  {
    forall i | 0 <= i < |xs| ensures Inside(g, m[y.page := y.pos], xs[i]) {
      assert Inside(g, m, xs[i]) && Apart(xs[i], y);
    }
  }

  /** A new, empty tail page. */
  lemma Published(g: Shared, m: map<nat, nat>, kept: seq<Span>, open: seq<Span>)
    requires Balanced(g, m, kept, open) && g.commit <= g.tail
    ensures Balanced(g.(tail := g.tail + 1), m[g.tail + 1 := 0], kept, open)
  {
    var p := g.tail + 1;
    forall i | 0 <= i < |kept| ensures Inside(g.(tail := p), m[p := 0], kept[i]) { assert Inside(g, m, kept[i]); }
    forall i | 0 <= i < |open| ensures Inside(g.(tail := p), m[p := 0], open[i]) { assert Inside(g, m, open[i]); }
    SumNone(kept, p);
    SumNone(open, p);
    hide AllApart, BothApart, Sum;
  }

  /** The commit position leaves a page whose index is settled and on which nothing is open. */
  lemma Passed(g: Shared, m: map<nat, nat>, kept: seq<Span>, open: seq<Span>)
    requires Balanced(g, m, kept, open) && g.commit < g.tail && g.commit in g.write
    requires g.commit in m && g.write[g.commit].idx == m[g.commit]
    ensures Balanced(g.(commit := g.commit + 1), m, kept, open)
  {
    var g' := g.(commit := g.commit + 1);
    forall i | 0 <= i < |kept| ensures Inside(g', m, kept[i]) { assert Inside(g, m, kept[i]); }
    forall i | 0 <= i < |open| ensures Inside(g', m, open[i]) { assert Inside(g, m, open[i]); }
    hide AllApart, BothApart, Sum, Inside;
  }

  // ------------------------------------------------------------------------------------------
  // Every step is one of them.
  // ------------------------------------------------------------------------------------------

  lemma OpensTop(st: seq<Frame>, f: Frame)
    ensures Opens(st + [f]) == if Open(f) then Opens(st) + [SpanOf(f)] else Opens(st)
  {
    assert (st + [f])[..|st|] == st;
  }

  lemma OpensOf(s: State)
    requires |s.stack| > 0
    ensures Opens(s.stack) == if Open(Top(s)) then Opens(Below(s)) + [SpanOf(Top(s))] else Opens(Below(s))
  {
  }

  lemma OpensPut(s: State, g: Shared, f: Frame)
    requires |s.stack| > 0
    ensures Opens(Put(s, g, f).stack) == if Open(f) then Opens(Below(s)) + [SpanOf(f)] else Opens(Below(s))
  {
    OpensTop(Below(s), f);
  }

  /** What the invariant says of the page the top writer is at. */
  lemma TopPage(s: State, m: map<nat, nat>)
    requires Inv(s, m) && |s.stack| > 0
    ensures var f, g := Top(s), s.g;
      && Known(s) && g.commit <= g.tail && f.len >= MIN_SIZE
      && (HasPage(f) ==> g.commit <= f.tp <= g.tail && f.tp in m && f.tp in g.write)
      && (Bumped(f) ==> f.tp + 1 in g.write)
      && (f.pc.GotTail? && g.write[f.tp].idx + f.len <= PAGE ==> m[f.tp] == g.write[f.tp].idx)
      && (f.pc.Unwind? && g.write[f.tp] == f.seen ==> m[f.tp] == f.pos + f.len)
      && (f.pc.Reset? && f.pos <= PAGE - MIN_SIZE ==> m[f.tp] == f.pos)
      && (f.pc.ChaseInc? ==> g.commit < g.tail && g.commit in m && g.write[g.commit].idx == m[g.commit])
  {
    Unpack(s, m);
    var f := Top(s);
    if HasPage(f) { BelowMark(s, m, f.tp); }
    if f.pc.ChaseInc? { MarkedBelow(s, m); }
    hide LowerKept, BumpAt, PairsTop, Marks, Settled;
  }

  /** A step that is none of the special ones changes nothing in the books. */
  predicate Ordinary(s: State, ch: Choice)
    requires |s.stack| > 0 && Known(s)
  {
    var f, g := Top(s), s.g;
    assert KnownFrame(g, f);
    match f.pc
    case GotTail => g.write[f.tp].idx + f.len > PAGE
    case Fill => ch.Discard? && Undisturbed(g, f)
    case Unwind => false
    case Publish => g.tail != f.tp
    case Reset => f.pos > PAGE - MIN_SIZE
    case ChaseInc => false
    case _ => true
  }

  /** The state s' differs from s in nothing the books are about. */
  predicate Quietly(s: State, s': State) { SameBooks(s.g, s'.g) && Opens(s'.stack) == Opens(s.stack) }

  lemma PutQuietly(s: State, g': Shared, f': Frame)
    requires |s.stack| > 0 && SameBooks(s.g, g')
    requires Open(f') == Open(Top(s)) && (Open(f') ==> SpanOf(f') == SpanOf(Top(s)))
    ensures Quietly(s, Put(s, g', f'))
  {
    hide SameBooks;
    OpensOf(s);
    OpensPut(s, g', f');
  }

  lemma SameCounters(g: Shared, g': Shared)
    requires g' == g.(committing := g'.committing, commits := g'.commits)
    ensures SameBooks(g, g')
  {
  }

  lemma SameButWord(g: Shared, p: nat, c: Cell)
    requires p >= g.commit
    ensures SameBooks(g, g.(write := g.write[p := c])) && SameBooks(g, g)
  {
  }

  lemma SameButIndex(g: Shared, p: nat, v: nat)
    requires p >= g.commit
    ensures SameBooks(g, g.(cidx := g.cidx[p := v]))
  {
  }

  lemma OrdinaryReserving(s: State, ch: Choice)
    requires |s.stack| > 0 && Known(s) && InReserve(Top(s)) && Ordinary(s, ch)
    requires HasPage(Top(s)) ==> Top(s).tp >= s.g.commit
    ensures Quietly(s, Reserving(s, ch))
  {
    var f, g := Top(s), s.g;
    assert KnownFrame(g, f);
    hide Known, Put, Quietly, SameBooks;
    SameCounters(g, g);
    match f.pc {
      case Begin =>
        SameCounters(g, g.(committing := g.committing + 1));
        PutQuietly(s, g.(committing := g.committing + 1), f.(pc := Started));
      case Started =>
        SameCounters(g, g.(commits := g.commits + 1));
        PutQuietly(s, g.(commits := g.commits + 1), f.(pc := Reserve));
      case Reserve =>
        var len := if ch.Length? && ch.len >= MIN_SIZE then ch.len else f.len;
        PutQuietly(s, g,
          if ch.GiveUp? then f.(pc := End, again := false) else f.(pc := GotTail, tp := g.tail, len := len));
      case GotTail =>
        var c := g.write[f.tp];
        SameButWord(g, f.tp, Cell(c.cnt, c.idx + f.len));
        PutQuietly(s, g.(write := g.write[f.tp := Cell(c.cnt, c.idx + f.len)]), f.(pc := Cross, pos := c.idx));
      case Fill => PutQuietly(s, g, f.(pc := Unwind, seen := g.write[f.tp]));
    }
  }

  lemma OrdinaryCrossing(s: State, ch: Choice)
    requires |s.stack| > 0 && Known(s) && Pending(Top(s)) && Ordinary(s, ch) && Top(s).tp >= s.g.commit
    ensures Quietly(s, Crossing(s, ch))
  {
    var f, g := Top(s), s.g;
    assert KnownFrame(g, f);
    hide Known, Put, Quietly, SameBooks;
    SameCounters(g, g);
    match f.pc {
      case Cross => OrdinaryCross(s, ch);
      case Bump => OrdinaryCross(s, ch);
      case Test => PutQuietly(s, g, if g.tail == f.tp then f.(pc := Zero) else f.(pc := Reset, again := true));
      case Zero => OrdinaryZero(s, ch);
      case ZeroCommit =>
        SameButIndex(g, f.tp + 1, 0);
        PutQuietly(s, g.(cidx := g.cidx[f.tp + 1 := 0]), f.(pc := Publish));
      case Publish => PutQuietly(s, g, f.(pc := Reset, again := true));
      case Reset =>
        hide Crossing;
        OrdinaryReset(s, ch);
    }
  }

  lemma OrdinaryCross(s: State, ch: Choice)
    requires |s.stack| > 0 && Known(s) && (Top(s).pc.Cross? || Top(s).pc.Bump?) && Top(s).tp >= s.g.commit
    ensures Quietly(s, Crossing(s, ch))
  {
    var f, g := Top(s), s.g;
    hide Known, Put, Quietly, SameBooks;
    SameCounters(g, g);
    if f.pc.Cross? {
      PutQuietly(s, g, if f.tp + 1 == g.commit + g.size then f.(pc := Reset, again := false) else f.(pc := Bump));
    } else {
      var c := if f.tp + 1 in g.write then g.write[f.tp + 1] else if ch.Stale? then ch.cell else Cell(0, 0);
      var c' := Cell(c.cnt + 1, c.idx);
      SameButWord(g, f.tp + 1, c');
      PutQuietly(s, g.(write := g.write[f.tp + 1 := c']), f.(pc := Test, seen := c'));
    }
  }

  lemma OrdinaryZero(s: State, ch: Choice)
    requires |s.stack| > 0 && Known(s) && Top(s).pc.Zero? && Top(s).tp >= s.g.commit
    ensures Quietly(s, Crossing(s, ch))
  {
    var f, g := Top(s), s.g;
    assert KnownFrame(g, f);
    hide Known, Put, Quietly, SameBooks;
    SameButWord(g, f.tp + 1, Cell(f.seen.cnt, 0));
    var g' := if g.write[f.tp + 1] == f.seen then g.(write := g.write[f.tp + 1 := Cell(f.seen.cnt, 0)]) else g;
    PutQuietly(s, g', f.(pc := ZeroCommit));
  }

  lemma OrdinaryReset(s: State, ch: Choice)
    requires |s.stack| > 0 && Known(s) && Top(s).pc.Reset? && Top(s).tp >= s.g.commit
    ensures Quietly(s, Crossing(s, ch))
  {
    var f, g := Top(s), s.g;
    assert KnownFrame(g, f);
    hide Known, Put, Quietly, SameBooks, ResetIdx;
    var i := ResetIdx(g.write[f.tp].idx, f.pos, f.len);
    var c := Cell(g.write[f.tp].cnt, if i < 0 then 0 else i);
    SameButWord(g, f.tp, c);
    PutQuietly(s, g.(write := g.write[f.tp := c]), f.(pc := End));
  }

  /** tb_end_commit but for the commit position moving on. */
  lemma OrdinaryEnding(s: State)
    requires |s.stack| > 0 && Known(s) && !InReserve(Top(s)) && !Pending(Top(s)) && !Top(s).pc.ChaseInc?
    ensures Quietly(s, Ending(s))
  {
    var f, g := Top(s), s.g;
    assert KnownShared(g);
    hide Known, Put, Quietly, SameBooks, Leave;
    SameCounters(g, g);
    match f.pc {
      case End => PutQuietly(s, g, f.(pc := ReadCommitting, saved := g.commits));
      case ReadCommitting =>
        PutQuietly(s, g, if g.committing == 1 then f.(pc := Chase, synced := true, fuel := 100 * g.size)
                         else f.(pc := Drop, synced := false));
      case Chase =>
        PutQuietly(s, g, if g.commit == g.tail then f.(pc := Level)
                         else if f.fuel <= 1 then f.(pc := Drop) else f.(pc := ChaseRead, fuel := f.fuel - 1));
      case ChaseRead => PutQuietly(s, g, f.(pc := ChaseSet, val := g.write[g.commit].idx));
      case ChaseSet =>
        SameButIndex(g, g.commit, f.val);
        PutQuietly(s, g.(cidx := g.cidx[g.commit := f.val]), f.(pc := ChaseInc));
      case Level =>
        PutQuietly(s, g, if g.cidx[g.commit] == g.write[g.commit].idx then f.(pc := Recheck) else f.(pc := LevelRead));
      case LevelRead => PutQuietly(s, g, f.(pc := LevelSet, val := g.write[g.commit].idx));
      case LevelSet =>
        SameButIndex(g, g.commit, f.val);
        PutQuietly(s, g.(cidx := g.cidx[g.commit := f.val]), f.(pc := Level));
      case Recheck =>
        PutQuietly(s, g, if g.commit == g.tail then f.(pc := Drop) else f.(pc := Chase, fuel := 100 * g.size));
      case _ => OrdinaryLeaving(s);
    }
  }

  lemma OrdinaryLeaving(s: State)
    requires |s.stack| > 0 && Known(s)
    requires var pc := Top(s).pc; pc.Drop? || Redo(Top(s)) || pc.Restart?
    ensures Quietly(s, Ending(s))
  {
    hide Known, Put, Quietly, SameBooks, Leave;
    var f, g := Top(s), s.g;
    SameCounters(g, g);
    match f.pc {
      case Drop =>
        var g' := g.(committing := if g.committing == 0 then 0 else g.committing - 1);
        SameCounters(g, g');
        PutQuietly(s, g', f.(pc := CheckCommits));
      case CheckCommits => LeaveQuietly(s); PutQuietly(s, g, f.(pc := CheckCommitting));
      case CheckCommitting => LeaveQuietly(s); PutQuietly(s, g, f.(pc := Again));
      case Again =>
        SameCounters(g, g.(committing := g.committing + 1));
        PutQuietly(s, g.(committing := g.committing + 1), f.(pc := End));
      case Restart =>
        SameCounters(g, g.(committing := g.committing + 1));
        PutQuietly(s, g.(committing := g.committing + 1), f.(pc := Reserve));
    }
  }

  lemma LeaveQuietly(s: State)
    requires |s.stack| > 0 && Redo(Top(s))
    ensures Quietly(s, Leave(s))
  {
    SameCounters(s.g, s.g);
    hide SameBooks;
    OpensOf(s);
    PutQuietly(s, s.g, Top(s).(pc := Restart));
  }

  lemma OrdinaryStep(s: State, m: map<nat, nat>, ch: Choice)
    requires Inv(s, m) && |s.stack| > 0 && !ch.Interrupt? && Known(s) && Ordinary(s, ch)
    ensures Quietly(s, Next(s, ch))
  {
    TopPage(s, m);
    NotOrdinary(s, ch);
    hide Inv, Ordinary, Quietly, Reserving, Crossing, Ending, Known;
    if InReserve(Top(s)) {
      OrdinaryReserving(s, ch);
    } else if Pending(Top(s)) {
      OrdinaryCrossing(s, ch);
    } else {
      OrdinaryEnding(s);
    }
  }

  lemma NotOrdinary(s: State, ch: Choice)
    requires |s.stack| > 0 && Known(s) && Ordinary(s, ch)
    ensures !Top(s).pc.ChaseInc?
  {
  }

  // ------------------------------------------------------------------------------------------
  // The special ones, one by one.
  // ------------------------------------------------------------------------------------------

  /** The books of s balance. */
  predicate Books(s: State, m: map<nat, nat>, kept: seq<Span>) { Balanced(s.g, m, kept, Opens(s.stack)) }

  /** The step of the top writer, spelled out, for the special program points. */
  lemma FillStep(s: State, ch: Choice)
    requires |s.stack| > 0 && !ch.Interrupt? && Known(s) && Top(s).pc.Fill? && !Ordinary(s, ch)
      && Top(s).tp in s.g.write
    ensures Next(s, ch) == Put(s, s.g, Top(s).(pc := End, again := false))
    ensures Entered(s, ch) == [SpanOf(Top(s))]
  {
  }

  function Unwound(s: State): Shared
    requires |s.stack| > 0 && Top(s).tp in s.g.write
  {
    var f, g := Top(s), s.g;
    if g.write[f.tp] == f.seen then g.(write := g.write[f.tp := Cell(f.seen.cnt, f.pos)]) else g
  }

  lemma UnwindStep(s: State, ch: Choice)
    requires |s.stack| > 0 && !ch.Interrupt? && Known(s) && Top(s).pc.Unwind? && Top(s).tp in s.g.write
    ensures Next(s, ch) == Put(s, Unwound(s), Top(s).(pc := End, again := false))
  {
  }

  lemma PublishStep(s: State, ch: Choice)
    requires |s.stack| > 0 && !ch.Interrupt? && Known(s) && Top(s).pc.Publish? && !Ordinary(s, ch)
    ensures Next(s, ch) == Put(s, s.g.(tail := s.g.tail + 1), Top(s).(pc := Reset, again := true))
  {
  }

  lemma ResetStep(s: State, ch: Choice) returns (c: Cell)
    requires |s.stack| > 0 && !ch.Interrupt? && Known(s) && Top(s).pc.Reset? && Top(s).tp in s.g.write
    ensures Next(s, ch) == Put(s, s.g.(write := s.g.write[Top(s).tp := c]), Top(s).(pc := End))
  {
    var f := Top(s);
    var i := ResetIdx(s.g.write[f.tp].idx, f.pos, f.len);
    c := Cell(s.g.write[f.tp].cnt, if i < 0 then 0 else i);
  }

  lemma ChaseIncStep(s: State, ch: Choice)
    requires |s.stack| > 0 && !ch.Interrupt? && Known(s) && Top(s).pc.ChaseInc?
    ensures Next(s, ch) == Put(s, s.g.(commit := s.g.commit + 1), Top(s).(pc := Chase))
  {
  }

  lemma PutBooks(s: State, g': Shared, f': Frame, m': map<nat, nat>, kept': seq<Span>)
    requires |s.stack| > 0
      && Balanced(g', m', kept', if Open(f') then Opens(Below(s)) + [SpanOf(f')] else Opens(Below(s)))
    ensures Books(Put(s, g', f'), m', kept')
  {
    hide Balanced;
    OpensPut(s, g', f');
  }

  lemma TopBooks(s: State, m: map<nat, nat>, kept: seq<Span>)
    requires |s.stack| > 0 && Books(s, m, kept)
    ensures Balanced(s.g, m, kept, if Open(Top(s)) then Opens(Below(s)) + [SpanOf(Top(s))] else Opens(Below(s)))
  {
    hide Balanced;
    OpensOf(s);
  }

  lemma KnownHere(s: State)
    requires Known(s)
    ensures KnownShared(s.g) && s.g.commit in s.g.write
  {
  }

  lemma ReserveBooks(s: State, m: map<nat, nat>, kept: seq<Span>, ch: Choice)
    requires Inv(s, m) && |s.stack| > 0 && !ch.Interrupt? && Known(s) && Top(s).pc.GotTail? && Books(s, m, kept)
    requires Top(s).tp in s.g.write && s.g.write[Top(s).tp].idx + Top(s).len <= PAGE
    ensures Books(Next(s, ch), m[Top(s).tp := s.g.write[Top(s).tp].idx + Top(s).len], kept)
  {
    hide Inv, Next, Balanced, Known, KnownShared, Put, Books, SameBooks;
    KnownHere(s);
    TopPage(s, m);
    TakeStep(s, m, ch);
    TopBooks(s, m, kept);
    var f, g, lower := Top(s), s.g, Opens(Below(s));
    var c := g.write[f.tp];
    var g', f', m' := g.(write := g.write[f.tp := Cell(c.cnt, c.idx + f.len)]), f.(pc := Fill, pos := c.idx),
      m[f.tp := c.idx + f.len];
    Reserved(g, m, kept, lower, SpanOf(f'));
    SameButWord(g, f.tp, Cell(c.cnt, c.idx + f.len));
    StaysBalanced(g, g', m', kept, lower + [SpanOf(f')]);
    PutBooks(s, g', f', m', kept);
  }

  lemma FillBooks(s: State, m: map<nat, nat>, kept: seq<Span>, ch: Choice)
    requires Inv(s, m) && |s.stack| > 0 && !ch.Interrupt? && Known(s) && Top(s).pc.Fill? && !Ordinary(s, ch)
      && Books(s, m, kept)
    ensures Books(Next(s, ch), m, kept + Entered(s, ch))
  {
    hide Inv, Next, Balanced, Known, Put, Books, Entered, Ordinary;
    TopPage(s, m);
    FillStep(s, ch);
    TopBooks(s, m, kept);
    var f := Top(s);
    Kept(s.g, m, kept, Opens(Below(s)), SpanOf(f));
    PutBooks(s, s.g, f.(pc := End, again := false), m, kept + [SpanOf(f)]);
  }

  lemma UnwindBooks(s: State, m: map<nat, nat>, kept: seq<Span>, ch: Choice)
    requires Inv(s, m) && |s.stack| > 0 && !ch.Interrupt? && Known(s) && Top(s).pc.Unwind? && Books(s, m, kept)
    requires Top(s).tp in s.g.write
    ensures var f := Top(s);
      if s.g.write[f.tp] == f.seen then Books(Next(s, ch), m[f.tp := f.pos], kept)
      else Books(Next(s, ch), m, kept + [SpanOf(f)])
  {
    hide Inv, Next, Balanced, Known, Put, Books, SameBooks;
    TopPage(s, m);
    UnwindStep(s, ch);
    TopBooks(s, m, kept);
    var f, g, lower := Top(s), s.g, Opens(Below(s));
    var f' := f.(pc := End, again := false);
    if g.write[f.tp] == f.seen {
      TakenBack(g, m, kept, lower, SpanOf(f));
      SameButWord(g, f.tp, Cell(f.seen.cnt, f.pos));
      StaysBalanced(g, Unwound(s), m[f.tp := f.pos], kept, lower);
      PutBooks(s, Unwound(s), f', m[f.tp := f.pos], kept);
    } else {
      Kept(g, m, kept, lower, SpanOf(f));
      PutBooks(s, Unwound(s), f', m, kept + [SpanOf(f)]);
    }
  }

  lemma PublishBooks(s: State, m: map<nat, nat>, kept: seq<Span>, ch: Choice)
    requires Inv(s, m) && |s.stack| > 0 && !ch.Interrupt? && Known(s) && Top(s).pc.Publish? && !Ordinary(s, ch)
      && Books(s, m, kept)
    ensures Books(Next(s, ch), m[s.g.tail + 1 := 0], kept)
  {
    hide Inv, Next, Balanced, Known, Put, Books, Ordinary;
    TopPage(s, m);
    PublishStep(s, ch);
    TopBooks(s, m, kept);
    Published(s.g, m, kept, Opens(Below(s)));
    PutBooks(s, s.g.(tail := s.g.tail + 1), Top(s).(pc := Reset, again := true), m[s.g.tail + 1 := 0], kept);
  }

  lemma ResetBooks(s: State, m: map<nat, nat>, kept: seq<Span>, ch: Choice)
    requires Inv(s, m) && |s.stack| > 0 && !ch.Interrupt? && Known(s) && Top(s).pc.Reset? && Books(s, m, kept)
    requires Top(s).pos + MIN_SIZE <= PAGE
    ensures var f := Top(s); Books(Next(s, ch), m[f.tp := PAGE], kept + [Span(f.tp, f.pos, PAGE - f.pos)])
  {
    hide Inv, Next, Balanced, Known, KnownShared, Put, Books, SameBooks;
    KnownHere(s);
    TopPage(s, m);
    var c := ResetStep(s, ch);
    TopBooks(s, m, kept);
    var f, g, lower := Top(s), s.g, Opens(Below(s));
    var y, g' := Span(f.tp, f.pos, PAGE - f.pos), g.(write := g.write[f.tp := c]);
    Padded(g, m, kept, lower, y);
    SameButWord(g, f.tp, c);
    StaysBalanced(g, g', m[f.tp := PAGE], kept + [y], lower);
    PutBooks(s, g', f.(pc := End), m[f.tp := PAGE], kept + [y]);
  }

  lemma ChaseIncBooks(s: State, m: map<nat, nat>, kept: seq<Span>, ch: Choice)
    requires Inv(s, m) && |s.stack| > 0 && !ch.Interrupt? && Known(s) && Top(s).pc.ChaseInc? && Books(s, m, kept)
    ensures Books(Next(s, ch), m, kept)
  {
    hide Inv, Next, Balanced, Known, Put, Books;
    KnownHere(s);
    TopPage(s, m);
    ChaseIncStep(s, ch);
    TopBooks(s, m, kept);
    Passed(s.g, m, kept, Opens(Below(s)));
    PutBooks(s, s.g.(commit := s.g.commit + 1), Top(s).(pc := Chase), m, kept);
  }

  lemma OrdinaryBooks(s: State, m: map<nat, nat>, kept: seq<Span>, ch: Choice)
    requires Inv(s, m) && |s.stack| > 0 && !ch.Interrupt? && Known(s) && Ordinary(s, ch) && Books(s, m, kept)
    ensures Books(Next(s, ch), m, kept)
  {
    hide Inv, Balanced, Ordinary, Next, Known, SameBooks;
    OrdinaryStep(s, m, ch);
    StaysBalanced(s.g, Next(s, ch).g, m, kept, Opens(s.stack));
  }

  /** What a step enters and settles, program point by program point. */
  lemma StepEnters(s: State, m: map<nat, nat>, ch: Choice)
    requires |s.stack| > 0 && !ch.Interrupt? && Known(s) && (HasPage(Top(s)) ==> Top(s).tp in s.g.write)
    ensures var f, g := Top(s), s.g;
      if Ordinary(s, ch) then Entered(s, ch) == [] && Settles(s, m, ch) == m
      else match f.pc
        case GotTail =>
          g.write[f.tp].idx + f.len <= PAGE && Entered(s, ch) == []
            && Settles(s, m, ch) == m[f.tp := g.write[f.tp].idx + f.len]
        case Fill => Settles(s, m, ch) == m
        case Unwind => if g.write[f.tp] == f.seen then Entered(s, ch) == [] && Settles(s, m, ch) == m[f.tp := f.pos]
                       else Entered(s, ch) == [SpanOf(f)] && Settles(s, m, ch) == m
        case Publish => Entered(s, ch) == [] && Settles(s, m, ch) == m[g.tail + 1 := 0]
        case Reset =>
          f.pos + MIN_SIZE <= PAGE && Entered(s, ch) == [Span(f.tp, f.pos, PAGE - f.pos)]
            && Settles(s, m, ch) == m[f.tp := PAGE]
        case ChaseInc => Entered(s, ch) == [] && Settles(s, m, ch) == m
        case _ => false
  {
  }

  lemma NextBooks(s: State, m: map<nat, nat>, kept: seq<Span>, ch: Choice)
    requires Inv(s, m) && |s.stack| > 0 && !ch.Interrupt? && Known(s) && Books(s, m, kept)
    ensures Books(Next(s, ch), Settles(s, m, ch), kept + Entered(s, ch))
  {
    TopPage(s, m);
    StepEnters(s, m, ch);
    assert kept + [] == kept;
    hide Inv, Next, Known, Books, Ordinary, Entered, Settles;
    if Ordinary(s, ch) {
      OrdinaryBooks(s, m, kept, ch);
    } else {
      match Top(s).pc {
        case GotTail => ReserveBooks(s, m, kept, ch);
        case Fill => FillBooks(s, m, kept, ch);
        case Unwind => UnwindBooks(s, m, kept, ch);
        case Publish => PublishBooks(s, m, kept, ch);
        case Reset => ResetBooks(s, m, kept, ch);
        case ChaseInc => ChaseIncBooks(s, m, kept, ch);
      }
    }
  }

  // ------------------------------------------------------------------------------------------
  // Main results.
  // ------------------------------------------------------------------------------------------

  /** After every run the books balance: what was entered and what is still open lies apart, below the
      settled index of its page, and adds up to it. */
  lemma {:induction false} EveryRunBalances(size: nat, run: seq<Choice>)
    requires size >= 2
    ensures Books(After(size, run), SettledAfter(size, run), Ledger(size, run))
  {
    hide Inv;
    if |run| == 0 {
      NothingYet(size);
    } else {
      var before, ch := run[..|run| - 1], run[|run| - 1];
      EveryRunBalances(size, before);
      var s := After(size, before);
      var m := EveryRunInv(size, before);
      RunKnown(s, m);
      hide Books;
      if !ch.Interrupt? && |s.stack| > 0 {
        NextBooks(s, m, Ledger(size, before), ch);
      } else {
        InterruptBooks(s, m, Ledger(size, before), ch);
      }
    }
  }

  lemma RunKnown(s: State, m: map<nat, nat>)
    requires Inv(s, m)
    ensures Known(s)
  {
  }

  lemma NothingYet(size: nat)
    ensures Books(Initial(size), map[0 := 0], [])
  {
  }

  lemma InterruptBooks(s: State, m: map<nat, nat>, kept: seq<Span>, ch: Choice)
    requires Known(s) && Books(s, m, kept) && (ch.Interrupt? || |s.stack| == 0)
    ensures Books(Next(s, ch), Settles(s, m, ch), kept + Entered(s, ch))
  {
    hide Balanced, Known, Opens;
    assert kept + [] == kept;
    if ch.Interrupt? {
      OpensTop(s.stack, Frame(Begin, ch.len, 0, 0, 0, Cell(0, 0), false, false, 0, 0));
    }
  }

  /** One choice more. */
  lemma OneMore(size: nat, run: seq<Choice>, ch: Choice)
    requires size >= 2
    ensures Known(After(size, run)) && After(size, run + [ch]) == Next(After(size, run), ch)
    ensures Ledger(size, run + [ch]) == Ledger(size, run) + Entered(After(size, run), ch)
  {
    assert (run + [ch])[..|run|] == run;
    var m := EveryRunInv(size, run);
    hide Inv, Next, Entered;
    RunKnown(After(size, run), m);
  }

  /** What is entered stays entered. */
  lemma {:induction false} LedgerGrows(size: nat, run: seq<Choice>, more: seq<Choice>)
    requires size >= 2
    ensures Ledger(size, run) <= Ledger(size, run + more)
    decreases |more|
  {
    hide Ledger, After, Next, Entered, Known;
    if |more| == 0 {
      assert run + more == run;
    } else {
      var n := |more| - 1;
      LedgerGrows(size, run, more[..n]);
      assert run + more == run + more[..n] + [more[n]];
      OneMore(size, run + more[..n], more[n]);
    }
  }

  /** What is entered lies below the write index of its page; and below its commit index when the
      outermost writer has left. */
  predicate Lies(s: State, x: Span) {
    && x.page in s.g.write && x.pos + x.len <= s.g.write[x.page].idx
    && (s.stack == [] ==> x.page in s.g.cidx && x.pos + x.len <= s.g.cidx[x.page])
  }

  lemma SettledIsBelow(s: State, m: map<nat, nat>, p: nat)
    requires Inv(s, m) && s.g.commit <= p <= s.g.tail
    ensures p in m && p in s.g.write && m[p] <= s.g.write[p].idx
  {
    MarkHigh(s, m, |s.stack|, p);
    assert s.stack[..|s.stack|] == s.stack;
    hide FrameAt, PairAt, BumpAt, Settled;
  }

  lemma AllCommitted(s: State, m: map<nat, nat>, p: nat)
    requires Inv(s, m) && s.stack == [] && p <= s.g.tail && p in s.g.cidx
    ensures p in s.g.write && s.g.cidx[p] == s.g.write[p].idx && s.g.commit == s.g.tail
    ensures p == s.g.tail ==> p in m && m[p] == s.g.write[p].idx
  {
    hide FrameAt, PairAt, BumpAt;
  }

  lemma EnteredLies(s: State, m: map<nat, nat>, kept: seq<Span>, i: nat)
    requires Inv(s, m) && Books(s, m, kept) && i < |kept|
    ensures Lies(s, kept[i])
  {
    var x := kept[i];
    assert Inside(s.g, m, x);
    hide Inv, Books;
    if x.page >= s.g.commit { SettledIsBelow(s, m, x.page); }
    if s.stack == [] { AllCommitted(s, m, x.page); }
  }

  /** A committed event stays: from when a writer leaves its reservation without discarding it, its bytes
      lie below the write index of its page for good, and below the commit index of the page whenever
      the outermost writer has left. */
  lemma CommittedStays(size: nat, run: seq<Choice>, ch: Choice, more: seq<Choice>)
    requires size >= 2 && After(size, run).stack != [] && Top(After(size, run)).pc.Fill?
    requires !ch.Interrupt? && !ch.Discard?
    ensures var x, s := SpanOf(Top(After(size, run))), After(size, run + [ch] + more);
      && x.page in s.g.write && x.pos + x.len <= s.g.write[x.page].idx
      && (s.stack == [] ==> x.page in s.g.cidx && x.pos + x.len <= s.g.cidx[x.page])
  {
    hide After, Ledger, Books, Inv, Next, Known;
    var x, later := SpanOf(Top(After(size, run))), run + [ch] + more;
    OneMore(size, run, ch);
    LedgerGrows(size, run + [ch], more);
    assert Ledger(size, later)[|Ledger(size, run)|] == x;
    var m := EveryRunInv(size, later);
    EveryRunBalances(size, later);
    EnteredLies(After(size, later), m, Ledger(size, later), |Ledger(size, run)|);
  }

  /** The two steps of a discard. */
  lemma DiscardSteps(s: State, ch: Choice)
    requires Known(s) && s.stack != [] && Top(s).pc.Fill? && Undisturbed(s.g, Top(s)) && !ch.Interrupt?
    requires Known(Next(s, Discard))
    ensures var x, s' := SpanOf(Top(s)), Next(Next(s, Discard), ch);
      x.page in s'.g.write && s'.g.write[x.page].idx == x.pos
    ensures Entered(s, Discard) == [] && Entered(Next(s, Discard), ch) == []
  {
    var f := Top(s);
    var s1 := Put(s, s.g, f.(pc := Unwind, seen := s.g.write[f.tp]));
    assert Next(s, Discard) == s1;
    assert Top(s1) == f.(pc := Unwind, seen := s.g.write[f.tp]);
    hide Known;
    UnwindStep(s1, ch);
  }

  /** A discarded one goes, if nobody reserves behind it in time: its bytes are free again. */
  lemma DiscardedGoes(size: nat, run: seq<Choice>, ch: Choice)
    requires size >= 2 && After(size, run).stack != [] && Top(After(size, run)).pc.Fill?
    requires Undisturbed(After(size, run).g, Top(After(size, run))) && !ch.Interrupt?
    ensures var x, s := SpanOf(Top(After(size, run))), After(size, run + [Discard, ch]);
      x.page in s.g.write && s.g.write[x.page].idx == x.pos && Ledger(size, run + [Discard, ch]) == Ledger(size, run)
  {
    hide After, Ledger, Next, Known, Entered, Undisturbed;
    var s := After(size, run);
    OneMore(size, run, Discard);
    OneMore(size, run + [Discard], ch);
    assert run + [Discard] + [ch] == run + [Discard, ch];
    DiscardSteps(s, ch);
  }

  /** Between writers the committed bytes of every page are those of its committed events and its
      padding, without gap or overlap. */
  lemma PagesAreTiled(size: nat, run: seq<Choice>)
    requires size >= 2 && After(size, run).stack == []
    ensures AllApart(Ledger(size, run))
    ensures var g := After(size, run).g;
      forall p :: p <= g.tail && p in g.cidx ==> g.cidx[p] == Sum(Ledger(size, run), p)
  {
    hide After, Ledger, Inv, Sum;
    var s := After(size, run);
    var m := EveryRunInv(size, run);
    EveryRunBalances(size, run);
    assert Opens(s.stack) == [];
    NoBytes();
    forall p | p <= s.g.tail && p in s.g.cidx ensures s.g.cidx[p] == Sum(Ledger(size, run), p) {
      AllCommitted(s, m, p);
    }
  }

  lemma NoBytes()
    ensures forall p :: Sum([], p) == 0
  {
  }
}
