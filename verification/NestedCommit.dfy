/** Nested writers of one CPU: the `committing`/`commits` protocol.

    A writer may be interrupted between any two of its shared-memory accesses by another writer,
    which runs to completion first, so the writers form a stack and only the top one moves.  Pages
    are numbered in the order the tail reaches them; `size` of them exist, so page p and page
    p + size are the same memory, and `tail < commit + size` keeps the two apart.  A page's write
    word holds a counter of updaters above the 20-bit index, as in RB_WRITE_INTCNT. */
module NestedCommit {

  const PAGE: nat := 4080        // BUF_PAGE_SIZE on a 64-bit kernel
  const MIN_SIZE: nat := 8       // RB_EVNT_MIN_SIZE

  datatype Cell = Cell(cnt: nat, idx: nat)

  /** The next access of a writer, named after what it does. */
  datatype Pc =
    | Begin | Started                                                  // tb_start_commit
    | Reserve | GotTail | Fill | Unwind                                // __tb_reserve_next, tb_try_to_discard
    | Cross | Bump | Test | Zero | ZeroCommit | Publish | Reset        // tb_move_tail
    | End | ReadCommitting                                             // tb_end_commit
    | Chase | ChaseRead | ChaseSet | ChaseInc                          // tb_set_commit_to_write, first loop
    | Level | LevelRead | LevelSet | Recheck                           // ... second loop
    | Drop | CheckCommits | CheckCommitting | Again | Restart

  /** One writer: its locals `info->length`, `tail_page`, `tail`, `commits`, `old_write`,
      `max_count`, and whether tb_end_commit is to be followed by a new attempt. */
  datatype Frame = Frame(pc: Pc, len: nat, tp: nat, pos: nat, saved: nat, seen: Cell,
                         again: bool, synced: bool, fuel: int, val: nat)

  datatype Shared = Shared(size: nat, write: map<nat, Cell>, cidx: map<nat, nat>, tail: nat, commit: nat,
                           committing: nat, commits: nat)

  datatype State = State(g: Shared, stack: seq<Frame>)

  /** What the environment decides: an interrupt, to discard rather than commit, to give up
      retrying, the length of this attempt (each adds or drops a time extend), or what a page not yet
      visited still holds. */
  datatype Choice = Run | Interrupt(len: nat) | Discard | GiveUp | Length(len: nat) | Stale(cell: Cell)

  // ------------------------------------------------------------------------------------------
  // Classes of program points.
  // ------------------------------------------------------------------------------------------

  /** The writer has entered `committing` and not left it. */
  predicate Counted(f: Frame) {
    !(f.pc.Begin? || f.pc.CheckCommits? || f.pc.CheckCommitting? || f.pc.Again? || f.pc.Restart?)
  }

  /** The writer has overshot page tp and not yet taken its length back. */
  predicate Pending(f: Frame) {
    f.pc.Cross? || f.pc.Bump? || f.pc.Test? || f.pc.Zero? || f.pc.ZeroCommit? || f.pc.Publish? || f.pc.Reset?
  }

  /** The writer owns the bytes pos .. pos + len of page tp. */
  predicate Open(f: Frame) { f.pc.Fill? || f.pc.Unwind? }

  /** The writer has bumped the counter of page tp + 1 and not yet tried to publish it. */
  predicate Bumped(f: Frame) { f.pc.Test? || f.pc.Zero? || f.pc.ZeroCommit? || f.pc.Publish? }

  predicate Chasing(f: Frame) { f.pc.ChaseRead? || f.pc.ChaseSet? || f.pc.ChaseInc? }

  /** The writer saw committing == 1 and is moving the commit position. */
  predicate Syncing(f: Frame) {
    || f.pc.Chase? || Chasing(f) || f.pc.Level? || f.pc.LevelRead? || f.pc.LevelSet? || f.pc.Recheck?
    || (f.pc.Drop? && f.synced)
  }

  predicate HasPage(f: Frame) { f.pc.GotTail? || Open(f) || Pending(f) }

  /** The writer has left `committing` and may still find it must go round again. */
  predicate Redo(f: Frame) { f.pc.CheckCommits? || f.pc.CheckCommitting? || f.pc.Again? }

  // ------------------------------------------------------------------------------------------
  // Steps.
  // ------------------------------------------------------------------------------------------

  function Top(s: State): Frame
    requires |s.stack| > 0
  {
    s.stack[|s.stack| - 1]
  }

  function Below(s: State): seq<Frame>
    requires |s.stack| > 0
  {
    s.stack[..|s.stack| - 1]
  }

  /** The top writer moves on to `f`, leaving shared memory as `g`. */
  function Put(s: State, g: Shared, f: Frame): State
    requires |s.stack| > 0
  {
    State(g, Below(s) + [f])
  }

  predicate KnownShared(g: Shared) {
    && g.size >= 2 && g.commit <= g.tail
    && (forall p :: g.commit <= p <= g.tail ==> p in g.write && p in g.cidx)
  }

  predicate KnownFrame(g: Shared, f: Frame) {
    && (HasPage(f) ==> f.tp in g.write)
    && (Bumped(f) ==> f.tp + 1 in g.write)
  }

  predicate Known(s: State) {
    KnownShared(s.g) && forall i :: 0 <= i < |s.stack| ==> KnownFrame(s.g, s.stack[i])
  }

  /** tb_reset_tail: what is left in the write index of the page the writer could not enter. */
  function ResetIdx(idx: nat, pos: nat, len: nat): int {
    if pos >= PAGE then idx - len
    else if pos > PAGE - MIN_SIZE then idx - len
    else idx - (pos + len - PAGE)
  }

  /** Leaving tb_end_commit. */
  function Leave(s: State): State
    requires |s.stack| > 0
  {
    if Top(s).again then Put(s, s.g, Top(s).(pc := Restart)) else State(s.g, Below(s))
  }

  function Reserving(s: State, ch: Choice): State
    requires |s.stack| > 0 && Known(s)
  {
    var f, g := Top(s), s.g;
    match f.pc
    case Begin => Put(s, g.(committing := g.committing + 1), f.(pc := Started))
    case Started => Put(s, g.(commits := g.commits + 1), f.(pc := Reserve))
    case Reserve =>
      if ch.GiveUp? then Put(s, g, f.(pc := End, again := false))
      else
        var len := if ch.Length? && ch.len >= MIN_SIZE then ch.len else f.len;
        Put(s, g, f.(pc := GotTail, tp := g.tail, len := len))
    case GotTail =>
      var c := g.write[f.tp];
      Put(s, g.(write := g.write[f.tp := Cell(c.cnt, c.idx + f.len)]),
          f.(pc := if c.idx + f.len <= PAGE then Fill else Cross, pos := c.idx))
    case Fill =>
      if ch.Discard? && g.tail == f.tp && g.write[f.tp].idx == f.pos + f.len
      then Put(s, g, f.(pc := Unwind, seen := g.write[f.tp]))
      else Put(s, g, f.(pc := End, again := false))
    case Unwind =>
      Put(s, if g.write[f.tp] == f.seen then g.(write := g.write[f.tp := Cell(f.seen.cnt, f.pos)]) else g,
          f.(pc := End, again := false))
    case _ => s
  }

  function Crossing(s: State, ch: Choice): State
    requires |s.stack| > 0 && Known(s)
  {
    var f, g := Top(s), s.g;
    match f.pc
    case Cross =>
      if f.tp + 1 == g.commit + g.size then Put(s, g, f.(pc := Reset, again := false))    // commit_overrun
      else Put(s, g, f.(pc := Bump))
    case Bump =>
      var c := if f.tp + 1 in g.write then g.write[f.tp + 1]
               else if ch.Stale? then ch.cell else Cell(0, 0);
      var c' := Cell(c.cnt + 1, c.idx);
      Put(s, g.(write := g.write[f.tp + 1 := c']), f.(pc := Test, seen := c'))
    case Test =>
      if g.tail == f.tp then Put(s, g, f.(pc := Zero)) else Put(s, g, f.(pc := Reset, again := true))
    case Zero =>
      Put(s, if g.write[f.tp + 1] == f.seen then g.(write := g.write[f.tp + 1 := Cell(f.seen.cnt, 0)]) else g,
          f.(pc := ZeroCommit))
    case ZeroCommit => Put(s, g.(cidx := g.cidx[f.tp + 1 := 0]), f.(pc := Publish))
    case Publish =>
      Put(s, if g.tail == f.tp then g.(tail := f.tp + 1) else g, f.(pc := Reset, again := true))
    case Reset =>
      var c := g.write[f.tp];
      var i := ResetIdx(c.idx, f.pos, f.len);
      Put(s, g.(write := g.write[f.tp := Cell(c.cnt, if i < 0 then 0 else i)]), f.(pc := End))
    case _ => s
  }

  function Ending(s: State): State
    requires |s.stack| > 0 && Known(s)
  {
    var f, g := Top(s), s.g;
    match f.pc
    case End => Put(s, g, f.(pc := ReadCommitting, saved := g.commits))
    case ReadCommitting =>
      if g.committing == 1 then Put(s, g, f.(pc := Chase, synced := true, fuel := 100 * g.size))
      else Put(s, g, f.(pc := Drop, synced := false))
    case Chase =>
      if g.commit == g.tail then Put(s, g, f.(pc := Level))
      else if f.fuel <= 1 then Put(s, g, f.(pc := Drop))                  // the interrupt-storm warning
      else Put(s, g, f.(pc := ChaseRead, fuel := f.fuel - 1))
    case ChaseRead => Put(s, g, f.(pc := ChaseSet, val := g.write[g.commit].idx))
    case ChaseSet => Put(s, g.(cidx := g.cidx[g.commit := f.val]), f.(pc := ChaseInc))
    case ChaseInc => Put(s, g.(commit := g.commit + 1), f.(pc := Chase))
    case Level =>
      if g.cidx[g.commit] == g.write[g.commit].idx then Put(s, g, f.(pc := Recheck))
      else Put(s, g, f.(pc := LevelRead))
    case LevelRead => Put(s, g, f.(pc := LevelSet, val := g.write[g.commit].idx))
    case LevelSet => Put(s, g.(cidx := g.cidx[g.commit := f.val]), f.(pc := Level))
    case Recheck =>
      if g.commit == g.tail then Put(s, g, f.(pc := Drop))
      else Put(s, g, f.(pc := Chase, fuel := 100 * g.size))
    case Drop =>
      Put(s, g.(committing := if g.committing == 0 then 0 else g.committing - 1), f.(pc := CheckCommits))
    case CheckCommits => if g.commits != f.saved then Put(s, g, f.(pc := CheckCommitting)) else Leave(s)
    case CheckCommitting => if g.committing == 0 then Put(s, g, f.(pc := Again)) else Leave(s)
    case Again => Put(s, g.(committing := g.committing + 1), f.(pc := End))
    case Restart => Put(s, g.(committing := g.committing + 1), f.(pc := Reserve))
    case _ => s
  }

  predicate InReserve(f: Frame) {
    f.pc.Begin? || f.pc.Started? || f.pc.Reserve? || f.pc.GotTail? || Open(f)
  }

  function Next(s: State, ch: Choice): State
    requires Known(s)
  {
    if ch.Interrupt? then
      if ch.len < MIN_SIZE then s
      else State(s.g, s.stack + [Frame(Begin, ch.len, 0, 0, 0, Cell(0, 0), false, false, 0, 0)])
    else if |s.stack| == 0 then s
    else if InReserve(Top(s)) then Reserving(s, ch)
    else if Pending(Top(s)) then Crossing(s, ch)
    else Ending(s)
  }

  function Initial(size: nat): State {
    State(Shared(size, map[0 := Cell(0, 0)], map[0 := 0], 0, 0, 0, 0), [])
  }

  // ------------------------------------------------------------------------------------------
  // The invariant.  `m[p]` is the write index page p would have with every overshoot taken back.
  // ------------------------------------------------------------------------------------------

  function Count(st: seq<Frame>): nat {
    if |st| == 0 then 0 else Count(st[..|st| - 1]) + (if Counted(st[|st| - 1]) then 1 else 0)
  }

  /** The write index of page p, given its settled index and the overshoots on the stack. */
  function Mark(st: seq<Frame>, p: nat, base: nat): nat {
    if |st| == 0 then base
    else
      var f := st[|st| - 1];
      if Pending(f) && f.tp == p then f.pos + f.len else Mark(st[..|st| - 1], p, base)
  }

  predicate Clean(g: Shared) {
    g.commit == g.tail && g.tail in g.cidx && g.tail in g.write && g.cidx[g.tail] == g.write[g.tail].idx
  }

  /** The commit indices of the pages. */
  predicate Commits(g: Shared, m: map<nat, nat>)
    requires KnownShared(g)
  {
    && g.tail < g.commit + g.size
    && (forall p :: g.commit <= p <= g.tail ==> p in m && m[p] <= PAGE)
    && g.cidx[g.commit] <= m[g.commit]
    && (forall p :: g.commit < p <= g.tail ==> g.cidx[p] == 0)
    && (forall p :: p in g.cidx && p < g.commit ==> p in g.write && g.cidx[p] == g.write[p].idx)
  }

  /** The write word of every page from commit to tail. */
  predicate Marks(g: Shared, st: seq<Frame>, m: map<nat, nat>)
    requires KnownShared(g) && Commits(g, m)
  {
    forall p :: g.commit <= p <= g.tail ==> g.write[p].idx == Mark(st, p, m[p])
  }

  /** What a writer's locals mean while it reserves and crosses pages; `lower` are the writers it
      interrupted. */
  predicate PagesOk(g: Shared, m: map<nat, nat>, lower: seq<Frame>, f: Frame)
    requires KnownShared(g) && Commits(g, m)
  {
    && KnownFrame(g, f)
    && f.len >= MIN_SIZE
    && (HasPage(f) ==> g.commit <= f.tp <= g.tail)
    && (Pending(f) ==> f.pos == Mark(lower, f.tp, m[f.tp]) && f.pos + f.len > PAGE)
    && (Open(f) ==> f.pos + f.len <= m[f.tp] && (f.tp == g.commit ==> g.cidx[g.commit] <= f.pos))
    && (f.pc.Unwind? ==> f.seen.idx == f.pos + f.len)
    && (f.pc.Bump? || Bumped(f) ==> f.tp + 1 < g.commit + g.size)
    && (f.pc.Publish? ==> f.tp + 1 in g.cidx && g.cidx[f.tp + 1] == 0)
  }

  /** ... and in tb_end_commit, where it cannot run out of rounds unless it was interrupted. */
  predicate SyncOk(g: Shared, m: map<nat, nat>, lower: seq<Frame>, f: Frame)
    requires KnownShared(g) && Commits(g, m)
  {
    && (Syncing(f) ==> f.synced && Count(lower) == 0)
    && (f.pc.Drop? && !f.synced ==> Count(lower) > 0)
    && (Chasing(f) ==> g.commit < g.tail)
    && (f.pc.ChaseSet? ==> f.val == g.write[g.commit].idx)
    && (f.pc.ChaseInc? ==> g.cidx[g.commit] == g.write[g.commit].idx)
    && (f.pc.LevelSet? ==> f.val <= m[g.commit])
    && (f.pc.Recheck? ==> g.commits != f.saved || g.cidx[g.commit] == g.write[g.commit].idx)
    && (f.pc.Chase? ==> g.commits != f.saved || g.tail - g.commit < f.fuel)
    && (Chasing(f) ==> g.commits != f.saved || g.tail - g.commit <= f.fuel)
    && (f.pc.Drop? && f.synced ==> g.commits != f.saved || Clean(g))
    && (f.pc.CheckCommitting? || f.pc.Again? ==> g.commits != f.saved)
    && ((f.pc.ReadCommitting? || Syncing(f) || f.pc.Drop? || Redo(f)) ==> f.saved <= g.commits)
  }

  predicate FrameOk(g: Shared, m: map<nat, nat>, lower: seq<Frame>, f: Frame)
    requires KnownShared(g) && Commits(g, m)
  {
    PagesOk(g, m, lower, f) && SyncOk(g, m, lower, f)
  }

  lemma SyncIdle(g: Shared, m: map<nat, nat>, lower: seq<Frame>, f: Frame)
    requires f.pc.End? || InReserve(f) || Pending(f)
    ensures KnownShared(g) && Commits(g, m) ==> SyncOk(g, m, lower, f)
  {
  }

  /** How a writer relates to one that interrupted it. */
  predicate PairOk(commit: nat, commits: nat, f: Frame, h: Frame) {
    && (Open(f) && Open(h) && f.tp == h.tp ==> f.pos + f.len <= h.pos)
    && (Chasing(f) && HasPage(h) ==> commit < h.tp)
    && (f.pc.LevelSet? && Open(h) && h.tp == commit ==> f.val <= h.pos)
    && (Bumped(f) && Bumped(h) && f.tp == h.tp ==> f.seen.cnt < h.seen.cnt)
    && (f.pc.Chase? || Chasing(f) || f.pc.Recheck? || (f.pc.Drop? && f.synced) ==>
          h.pc.Begin? || h.pc.Started? || commits != f.saved)
  }

  /** The updater count protects a page that a later writer already published. */
  predicate BumpAt(g: Shared, st: seq<Frame>, i: nat)
    requires i < |st|
  {
    var f := st[i];
    Bumped(f) ==>
      && f.tp + 1 in g.write
      && f.seen.cnt <= g.write[f.tp + 1].cnt
      && (g.tail != f.tp && !f.pc.Test? ==> f.seen.cnt < g.write[f.tp + 1].cnt)
      && (g.tail == f.tp ==>
            || g.write[f.tp + 1] == Cell(f.seen.cnt, if f.pc.Test? || f.pc.Zero? then f.seen.idx else 0)
            || AlsoBumped(st, i, f.tp))
  }

  /** A writer above the i-th has bumped the same page. */
  predicate AlsoBumped(st: seq<Frame>, i: nat, tp: nat) {
    exists j :: i < j < |st| && Bumped(st[j]) && st[j].tp == tp
  }

  /** With nobody in `committing`, either everything is committed or some writer will go round. */
  predicate Settled(s: State) {
    s.g.committing == 0 ==>
      Clean(s.g) || exists h :: h in s.stack && Redo(h) && h.saved != s.g.commits
  }

  predicate FrameAt(g: Shared, m: map<nat, nat>, st: seq<Frame>, i: nat)
    requires KnownShared(g) && Commits(g, m) && i < |st|
  {
    FrameOk(g, m, st[..i], st[i])
  }

  predicate PairAt(commit: nat, commits: nat, st: seq<Frame>, i: nat, j: nat)
    requires i < |st| && j < |st|
  {
    PairOk(commit, commits, st[i], st[j])
  }

  predicate Inv(s: State, m: map<nat, nat>) {
    && Known(s)
    && Commits(s.g, m)
    && Marks(s.g, s.stack, m)
    && s.g.committing == Count(s.stack)
    && (forall i :: 0 <= i < |s.stack| ==> FrameAt(s.g, m, s.stack, i))
    && (forall i, j :: 0 <= i < j < |s.stack| ==> PairAt(s.g.commit, s.g.commits, s.stack, i, j))
    && (forall i :: 0 <= i < |s.stack| ==> BumpAt(s.g, s.stack, i))
    && Settled(s)
  }

  lemma InitialInv(size: nat)
    requires size >= 2
    ensures Inv(Initial(size), map[0 := 0])
  {
  }

  // ------------------------------------------------------------------------------------------
  // Counting and marking.
  // ------------------------------------------------------------------------------------------

  lemma TopMark(st: seq<Frame>, f: Frame, p: nat, base: nat)
    ensures Mark(st + [f], p, base) == if Pending(f) && f.tp == p then f.pos + f.len else Mark(st, p, base)
    ensures Count(st + [f]) == Count(st) + if Counted(f) then 1 else 0
  {
    assert (st + [f])[..|st|] == st;
  }

  /** A page with an overshoot on it is marked past its end. */
  lemma {:induction false} MarkHigh(s: State, m: map<nat, nat>, k: nat, p: nat)
    requires Inv(s, m) && k <= |s.stack| && s.g.commit <= p <= s.g.tail
    ensures Mark(s.stack[..k], p, m[p]) == m[p] || Mark(s.stack[..k], p, m[p]) > PAGE
    ensures Mark(s.stack[..k], p, m[p]) == m[p] ==>
      forall i :: 0 <= i < k && Pending(s.stack[i]) ==> s.stack[i].tp != p
  {
    if k > 0 {
      MarkHigh(s, m, k - 1, p);
      assert s.stack[..k][..k - 1] == s.stack[..k - 1];
      assert FrameAt(s.g, m, s.stack, k - 1);
    }
  }

  lemma {:induction false} NoneCounted(st: seq<Frame>, i: nat)
    requires Count(st) == 0 && i < |st|
    ensures !Counted(st[i])
  {
    if i < |st| - 1 { NoneCounted(st[..|st| - 1], i); }
  }

  lemma {:induction false} NoPending(st: seq<Frame>, p: nat, base: nat)
    requires forall i :: 0 <= i < |st| && Pending(st[i]) ==> st[i].tp != p
    ensures Mark(st, p, base) == base
  {
    if |st| > 0 { NoPending(st[..|st| - 1], p, base); }
  }

  /** On a page whose write index is within the page there is no overshoot below. */
  lemma BelowMark(s: State, m: map<nat, nat>, p: nat)
    requires Inv(s, m) && |s.stack| > 0 && s.g.commit <= p <= s.g.tail
    ensures Mark(Below(s), p, m[p]) == m[p] || Mark(Below(s), p, m[p]) > PAGE
    ensures Mark(Below(s), p, m[p]) == m[p] ==>
      forall i :: 0 <= i < |s.stack| - 1 && Pending(s.stack[i]) ==> s.stack[i].tp != p
  {
    MarkHigh(s, m, |s.stack| - 1, p);
  }

  // ------------------------------------------------------------------------------------------
  // Every step keeps the invariant.  A step takes the top writer to f' and shared memory to g'.
  // ------------------------------------------------------------------------------------------

  /** The writers below the top one still make sense. */
  predicate LowerKept(s: State, g': Shared, m': map<nat, nat>)
    requires |s.stack| > 0
  {
    && KnownShared(g') && Commits(g', m')
    && (forall i :: 0 <= i < |s.stack| - 1 ==> FrameAt(g', m', s.stack, i))
    && (forall i, j :: 0 <= i < j < |s.stack| - 1 ==> PairAt(g'.commit, g'.commits, s.stack, i, j))
  }

  /** The top writer's new state fits on top of them. */
  predicate TopFits(s: State, g': Shared, m': map<nat, nat>, f': Frame)
    requires |s.stack| > 0
  {
    && KnownShared(g') && Commits(g', m')
    && FrameOk(g', m', Below(s), f')
    && PairsTop(g'.commit, g'.commits, Below(s), f')
    && (forall i :: 0 <= i < |s.stack| ==> BumpAt(g', Below(s) + [f'], i))
    && g'.committing == Count(Below(s)) + (if Counted(f') then 1 else 0)
    && TopMarked(s, g', m', f')
  }

  predicate PairsTop(commit: nat, commits: nat, lower: seq<Frame>, f: Frame) {
    forall i :: 0 <= i < |lower| ==> PairOk(commit, commits, lower[i], f)
  }

  predicate TopMarked(s: State, g': Shared, m': map<nat, nat>, f': Frame)
    requires |s.stack| > 0 && KnownShared(g') && Commits(g', m')
  {
    forall p :: g'.commit <= p <= g'.tail ==>
      g'.write[p].idx == if Pending(f') && f'.tp == p then f'.pos + f'.len else Mark(Below(s), p, m'[p])
  }

  lemma SameLower(g: Shared, m: map<nat, nat>, st: seq<Frame>, st': seq<Frame>, i: nat)
    requires KnownShared(g) && Commits(g, m) && i < |st| && i < |st'| && st[..i + 1] == st'[..i + 1]
    ensures FrameAt(g, m, st, i) == FrameAt(g, m, st', i)
  {
    assert st[..i] == st[..i + 1][..i] && st'[..i] == st'[..i + 1][..i];
    assert st[i] == st[..i + 1][i] && st'[i] == st'[..i + 1][i];
  }

  lemma Assemble(s: State, g': Shared, m': map<nat, nat>, f': Frame)
    requires |s.stack| > 0 && LowerKept(s, g', m') && TopFits(s, g', m', f') && Settled(Put(s, g', f'))
    ensures Inv(Put(s, g', f'), m')
  {
    hide PairOk, BumpAt, Settled;
    var st := Below(s) + [f'];
    var n := |s.stack| - 1;
    forall i | 0 <= i < |st| ensures FrameAt(g', m', st, i) && KnownFrame(g', st[i]) {
      if i < n {
        SameLower(g', m', s.stack, st, i);
        assert FrameAt(g', m', s.stack, i);
      } else {
        assert st[..n] == Below(s);
      }
    }
    hide FrameOk, FrameAt;
    forall p | g'.commit <= p <= g'.tail ensures g'.write[p].idx == Mark(st, p, m'[p]) {
      TopMark(Below(s), f', p, m'[p]);
    }
    TopMark(Below(s), f', 0, 0);
    forall i, j | 0 <= i < j < |st| ensures PairAt(g'.commit, g'.commits, st, i, j) {
      if j < n { assert PairAt(g'.commit, g'.commits, s.stack, i, j); } else { assert st[i] == Below(s)[i]; }
    }
  }

  lemma Unpack(s: State, m: map<nat, nat>)
    requires Inv(s, m) && |s.stack| > 0
    ensures LowerKept(s, s.g, m) && TopFits(s, s.g, m, Top(s))
  {
    hide FrameOk, PairOk, BumpAt, Settled;
    assert s.stack == Below(s) + [Top(s)];
    assert FrameAt(s.g, m, s.stack, |s.stack| - 1);
    forall i | 0 <= i < |s.stack| - 1 ensures PairOk(s.g.commit, s.g.commits, Below(s)[i], Top(s)) {
      assert PairAt(s.g.commit, s.g.commits, s.stack, i, |s.stack| - 1);
    }
    TopMark(Below(s), Top(s), 0, 0);
    forall p | s.g.commit <= p <= s.g.tail
      ensures s.g.write[p].idx == if Pending(Top(s)) && Top(s).tp == p then Top(s).pos + Top(s).len
        else Mark(Below(s), p, m[p])
    {
      TopMark(Below(s), Top(s), p, m[p]);
    }
  }

  /** A lower writer keeps its reason to leave page tp + 1 alone when the top writer goes from h to h'. */
  lemma BumpUpper(g: Shared, front: seq<Frame>, h: Frame, h': Frame, i: nat)
    requires i < |front| && BumpAt(g, front + [h], i)
    requires Bumped(h) && g.tail == h.tp ==> Bumped(h') && h'.tp == h.tp
    ensures BumpAt(g, front + [h'], i)
  {
    var st, st' := front + [h], front + [h'];
    if Bumped(front[i]) && g.tail == front[i].tp && AlsoBumped(st, i, front[i].tp) {
      var j :| i < j < |st| && Bumped(st[j]) && st[j].tp == front[i].tp;
      assert Bumped(st'[j]) && st'[j].tp == front[i].tp;
    }
  }

  // --- steps that leave shared memory alone

  predicate Local(g: Shared, f: Frame, f': Frame) {
    && Counted(f') == Counted(f) && Pending(f') == Pending(f)
    && (Pending(f) ==> f'.len == f.len && f'.tp == f.tp && f'.pos == f.pos)
    && (Bumped(f) ==> g.tail != f.tp || Bumped(f'))
  }

  lemma LocalKeeps(s: State, m: map<nat, nat>, f': Frame)
    requires Inv(s, m) && |s.stack| > 0 && Local(s.g, Top(s), f')
    requires FrameOk(s.g, m, Below(s), f') && BumpAt(s.g, Below(s) + [f'], |s.stack| - 1) && Settled(Put(s, s.g, f'))
    requires PairsTop(s.g.commit, s.g.commits, Below(s), f')
    ensures Inv(Put(s, s.g, f'), m)
  {
    Unpack(s, m);
    hide FrameOk, PairOk, BumpAt, Settled, LowerKept, Inv;
    var n := |s.stack| - 1;
    forall i | 0 <= i <= n ensures BumpAt(s.g, Below(s) + [f'], i) {
      if i < n { BumpUpper(s.g, Below(s), Top(s), f', i); }
    }
    hide PairsTop;
    Assemble(s, s.g, m, f');
  }

  /** The pair conditions of a program point follow from those of the one before it. */
  lemma LocalPairs(s: State, m: map<nat, nat>, f': Frame)
    requires |s.stack| > 0 && LowerKept(s, s.g, m) && TopFits(s, s.g, m, Top(s))
    requires var f := Top(s);
      && !f.pc.Begin? && !f.pc.Started?
      && (Open(f') ==> Open(f) && f'.tp == f.tp && f'.pos == f.pos)
      && (Bumped(f') ==> Bumped(f) && f'.tp == f.tp && f'.seen == f.seen)
      && (HasPage(f') ==> (HasPage(f) && f'.tp == f.tp) || (f'.tp == s.g.tail))
    ensures PairsTop(s.g.commit, s.g.commits, Below(s), f')
  {
    forall i | 0 <= i < |s.stack| - 1 ensures PairOk(s.g.commit, s.g.commits, Below(s)[i], f') {
      assert PairOk(s.g.commit, s.g.commits, Below(s)[i], Top(s));
      assert FrameAt(s.g, m, s.stack, i);
    }
  }

  /** While the commit position moves, write indices are settled. */
  lemma MarkedBelow(s: State, m: map<nat, nat>)
    requires Inv(s, m) && |s.stack| > 0 && Syncing(Top(s))
    ensures s.g.write[s.g.commit].idx == m[s.g.commit]
    ensures forall i :: 0 <= i < |s.stack| - 1 ==> !Counted(s.stack[i])
  {
    Unpack(s, m);
    forall i | 0 <= i < |s.stack| - 1 ensures !Counted(s.stack[i]) { NoneCounted(Below(s), i); }
    NoPending(Below(s), s.g.commit, m[s.g.commit]);
  }

  lemma ReserveKeeps(s: State, m: map<nat, nat>, ch: Choice)
    requires Inv(s, m) && |s.stack| > 0 && !ch.Interrupt?
    requires var f := Top(s); f.pc.Reserve?
    ensures Inv(Next(s, ch), m)
  {
    Unpack(s, m);
    var f' := Top(Next(s, ch));
    assert Next(s, ch) == Put(s, s.g, f');
    LocalPairs(s, m, f');
    hide LowerKept, Marks;
    LocalKeeps(s, m, f');
  }

  lemma FillKeeps(s: State, m: map<nat, nat>, ch: Choice)
    requires Inv(s, m) && |s.stack| > 0 && !ch.Interrupt?
    requires var f := Top(s); f.pc.Fill?
    ensures Inv(Next(s, ch), m)
  {
    Unpack(s, m);
    var f' := Top(Next(s, ch));
    assert Next(s, ch) == Put(s, s.g, f');
    LocalPairs(s, m, f');
    hide LowerKept, Marks;
    LocalKeeps(s, m, f');
  }

  lemma CrossKeeps(s: State, m: map<nat, nat>, ch: Choice)
    requires Inv(s, m) && |s.stack| > 0 && !ch.Interrupt?
    requires var f := Top(s); f.pc.Cross?
    ensures Inv(Next(s, ch), m)
  {
    Unpack(s, m);
    var f' := Top(Next(s, ch));
    assert Next(s, ch) == Put(s, s.g, f');
    LocalPairs(s, m, f');
    hide LowerKept, Marks;
    LocalKeeps(s, m, f');
  }

  lemma TestKeeps(s: State, m: map<nat, nat>, ch: Choice)
    requires Inv(s, m) && |s.stack| > 0 && !ch.Interrupt?
    requires var f := Top(s); f.pc.Test?
    ensures Inv(Next(s, ch), m)
  {
    Unpack(s, m);
    assert BumpAt(s.g, Below(s) + [Top(s)], |s.stack| - 1);
    var f' := Top(Next(s, ch));
    assert Next(s, ch) == Put(s, s.g, f');
    LocalPairs(s, m, f');
    hide LowerKept, Marks;
    LocalKeeps(s, m, f');
  }

  lemma EndKeeps(s: State, m: map<nat, nat>, ch: Choice)
    requires Inv(s, m) && |s.stack| > 0 && !ch.Interrupt?
    requires var f := Top(s); f.pc.End?
    ensures Inv(Next(s, ch), m)
  {
    Unpack(s, m);
    var f' := Top(Next(s, ch));
    assert Next(s, ch) == Put(s, s.g, f');
    LocalPairs(s, m, f');
    hide LowerKept, Marks;
    LocalKeeps(s, m, f');
  }

  lemma ReadCommittingKeeps(s: State, m: map<nat, nat>, ch: Choice)
    requires Inv(s, m) && |s.stack| > 0 && !ch.Interrupt?
    requires var f := Top(s); f.pc.ReadCommitting?
    ensures Inv(Next(s, ch), m)
  {
    Unpack(s, m);
    var f' := Top(Next(s, ch));
    assert Next(s, ch) == Put(s, s.g, f');
    LocalPairs(s, m, f');
    hide LowerKept, Marks;
    LocalKeeps(s, m, f');
  }

  lemma ChaseKeeps(s: State, m: map<nat, nat>, ch: Choice)
    requires Inv(s, m) && |s.stack| > 0 && !ch.Interrupt?
    requires var f := Top(s); f.pc.Chase? && (s.g.commit == s.g.tail || f.fuel > 1)
    ensures Inv(Next(s, ch), m)
  {
    Unpack(s, m);
    var f' := Top(Next(s, ch));
    assert Next(s, ch) == Put(s, s.g, f');
    LocalPairs(s, m, f');
    hide LowerKept, Marks;
    LocalKeeps(s, m, f');
  }

  lemma ChaseReadKeeps(s: State, m: map<nat, nat>, ch: Choice)
    requires Inv(s, m) && |s.stack| > 0 && !ch.Interrupt?
    requires var f := Top(s); f.pc.ChaseRead?
    ensures Inv(Next(s, ch), m)
  {
    Unpack(s, m);
    var f' := Top(Next(s, ch));
    assert Next(s, ch) == Put(s, s.g, f');
    LocalPairs(s, m, f');
    hide LowerKept, Marks;
    LocalKeeps(s, m, f');
  }

  lemma LevelKeeps(s: State, m: map<nat, nat>, ch: Choice)
    requires Inv(s, m) && |s.stack| > 0 && !ch.Interrupt?
    requires var f := Top(s); f.pc.Level?
    ensures Inv(Next(s, ch), m)
  {
    Unpack(s, m);
    var f' := Top(Next(s, ch));
    assert Next(s, ch) == Put(s, s.g, f');
    LocalPairs(s, m, f');
    hide LowerKept, Marks;
    LocalKeeps(s, m, f');
  }

  lemma LevelReadKeeps(s: State, m: map<nat, nat>, ch: Choice)
    requires Inv(s, m) && |s.stack| > 0 && !ch.Interrupt?
    requires var f := Top(s); f.pc.LevelRead?
    ensures Inv(Next(s, ch), m)
  {
    Unpack(s, m);
    MarkedBelow(s, m);
    var f' := Top(Next(s, ch));
    assert Next(s, ch) == Put(s, s.g, f');
    LocalPairs(s, m, f');
    hide LowerKept, Marks;
    LocalKeeps(s, m, f');
  }

  lemma RecheckKeeps(s: State, m: map<nat, nat>, ch: Choice)
    requires Inv(s, m) && |s.stack| > 0 && !ch.Interrupt?
    requires var f := Top(s); f.pc.Recheck?
    ensures Inv(Next(s, ch), m)
  {
    Unpack(s, m);
    var f' := Top(Next(s, ch));
    assert Next(s, ch) == Put(s, s.g, f');
    LocalPairs(s, m, f');
    hide LowerKept, Marks;
    LocalKeeps(s, m, f');
  }

  // --- steps that change a counter only

  predicate SameMemory(g: Shared, g': Shared) {
    && g'.size == g.size && g'.write == g.write && g'.cidx == g.cidx && g'.tail == g.tail && g'.commit == g.commit
    && g.commits <= g'.commits
  }

  lemma CounterFrame(g: Shared, g': Shared, m: map<nat, nat>, lower: seq<Frame>, f: Frame)
    requires KnownShared(g) && Commits(g, m) && FrameOk(g, m, lower, f) && SameMemory(g, g')
    ensures KnownShared(g') && Commits(g', m) && FrameOk(g', m, lower, f)
  {
  }

  /** Counters moving on leaves the lower writers as they are. */
  lemma CounterLower(s: State, m: map<nat, nat>, g': Shared)
    requires |s.stack| > 0 && LowerKept(s, s.g, m) && SameMemory(s.g, g')
    ensures LowerKept(s, g', m)
  {
    assert KnownShared(g') && Commits(g', m);
    var n := |s.stack| - 1;
    hide Commits, KnownShared;
    forall i | 0 <= i < n ensures FrameAt(g', m, s.stack, i) {
      assert FrameAt(s.g, m, s.stack, i);
      CounterFrame(s.g, g', m, s.stack[..i], s.stack[i]);
    }
    forall i, j | 0 <= i < j < n ensures PairAt(g'.commit, g'.commits, s.stack, i, j) {
      assert PairAt(s.g.commit, s.g.commits, s.stack, i, j);
      assert FrameAt(s.g, m, s.stack, i);
    }
  }

  lemma CounterBumps(s: State, m: map<nat, nat>, g': Shared, f': Frame)
    requires |s.stack| > 0 && TopFits(s, s.g, m, Top(s)) && SameMemory(s.g, g')
    requires !Bumped(Top(s)) && !Bumped(f')
    ensures forall i :: 0 <= i < |s.stack| ==> BumpAt(g', Below(s) + [f'], i)
  {
    hide FrameOk, PairsTop, Commits, TopMarked, Count;
    var n := |s.stack| - 1;
    forall i | 0 <= i <= n ensures BumpAt(g', Below(s) + [f'], i) {
      if i < n {
        assert BumpAt(s.g, Below(s) + [Top(s)], i);
        assert BumpAt(g', Below(s) + [Top(s)], i);
        BumpUpper(g', Below(s), Top(s), f', i);
      }
    }
  }

  lemma CounterKeeps(s: State, m: map<nat, nat>, g': Shared, f': Frame)
    requires Inv(s, m) && |s.stack| > 0 && SameMemory(s.g, g')
    requires !Bumped(Top(s)) && !Pending(Top(s)) && !HasPage(f') && Settled(Put(s, g', f'))
    requires g'.committing == Count(Below(s)) + (if Counted(f') then 1 else 0)
    requires KnownShared(g') && Commits(g', m) && FrameOk(g', m, Below(s), f')
    requires PairsTop(g'.commit, g'.commits, Below(s), f')
    ensures Inv(Put(s, g', f'), m)
  {
    Unpack(s, m);
    CounterLower(s, m, g');
    CounterBumps(s, m, g', f');
    hide LowerKept, Settled, BumpAt, Inv, PairsTop, FrameOk;
    Assemble(s, g', m, f');
  }

  /** The lower writers' relation to a top writer that has passed tb_start_commit. */
  lemma CounterPairs(s: State, m: map<nat, nat>, g': Shared, f': Frame)
    requires |s.stack| > 0 && LowerKept(s, s.g, m) && TopFits(s, s.g, m, Top(s)) && SameMemory(s.g, g') && !HasPage(f')
    requires f'.pc.Started? || g'.commits > s.g.commits || !(Top(s).pc.Begin? || Top(s).pc.Started?)
    ensures PairsTop(g'.commit, g'.commits, Below(s), f')
  {
    hide BumpAt, TopMarked;
    forall i | 0 <= i < |s.stack| - 1 ensures PairOk(g'.commit, g'.commits, Below(s)[i], f') {
      assert PairOk(s.g.commit, s.g.commits, Below(s)[i], Top(s));
      assert FrameAt(s.g, m, s.stack, i);
    }
  }

  lemma BeginKeeps(s: State, m: map<nat, nat>, ch: Choice)
    requires Inv(s, m) && |s.stack| > 0 && !ch.Interrupt?
    requires var f := Top(s); f.pc.Begin?
    ensures Inv(Next(s, ch), m)
  {
    Unpack(s, m);
    var g', f' := Next(s, ch).g, Top(Next(s, ch));
    assert Next(s, ch) == Put(s, g', f');
    CounterPairs(s, m, g', f');
    hide LowerKept, Marks, BumpAt, PairOk, PairsTop;
    CounterKeeps(s, m, g', f');
  }

  lemma StartedKeeps(s: State, m: map<nat, nat>, ch: Choice)
    requires Inv(s, m) && |s.stack| > 0 && !ch.Interrupt?
    requires var f := Top(s); f.pc.Started?
    ensures Inv(Next(s, ch), m)
  {
    Unpack(s, m);
    var g', f' := Next(s, ch).g, Top(Next(s, ch));
    assert Next(s, ch) == Put(s, g', f');
    CounterPairs(s, m, g', f');
    hide LowerKept, Marks, BumpAt, PairOk, PairsTop;
    CounterKeeps(s, m, g', f');
  }

  lemma AgainKeeps(s: State, m: map<nat, nat>, ch: Choice)
    requires Inv(s, m) && |s.stack| > 0 && !ch.Interrupt?
    requires var f := Top(s); f.pc.Again?
    ensures Inv(Next(s, ch), m)
  {
    Unpack(s, m);
    var g', f' := Next(s, ch).g, Top(Next(s, ch));
    assert Next(s, ch) == Put(s, g', f');
    CounterPairs(s, m, g', f');
    hide LowerKept, Marks, BumpAt, PairOk, PairsTop;
    CounterKeeps(s, m, g', f');
  }

  lemma RestartKeeps(s: State, m: map<nat, nat>, ch: Choice)
    requires Inv(s, m) && |s.stack| > 0 && !ch.Interrupt?
    requires var f := Top(s); f.pc.Restart?
    ensures Inv(Next(s, ch), m)
  {
    Unpack(s, m);
    var g', f' := Next(s, ch).g, Top(Next(s, ch));
    assert Next(s, ch) == Put(s, g', f');
    CounterPairs(s, m, g', f');
    hide LowerKept, Marks, BumpAt, PairOk, PairsTop;
    CounterKeeps(s, m, g', f');
  }

  lemma WarnKeeps(s: State, m: map<nat, nat>, ch: Choice)
    requires Inv(s, m) && |s.stack| > 0 && !ch.Interrupt?
    requires var f := Top(s); f.pc.Chase? && s.g.commit != s.g.tail && f.fuel <= 1
    ensures Inv(Next(s, ch), m)
  {
    Unpack(s, m);
    var g', f' := Next(s, ch).g, Top(Next(s, ch));
    assert Next(s, ch) == Put(s, g', f');
    CounterPairs(s, m, g', f');
    hide LowerKept, Marks, BumpAt, PairOk, PairsTop;
    CounterKeeps(s, m, g', f');
  }

  lemma DropSettles(s: State, m: map<nat, nat>)
    requires Inv(s, m) && |s.stack| > 0 && Top(s).pc.Drop?
    ensures s.g.committing > 0
    ensures Settled(Put(s, s.g.(committing := s.g.committing - 1), Top(s).(pc := CheckCommits)))
  {
    Unpack(s, m);
    hide LowerKept, Marks, BumpAt, PairOk;
    var s' := Put(s, s.g.(committing := s.g.committing - 1), Top(s).(pc := CheckCommits));
    assert s'.stack[|s'.stack| - 1] == Top(s).(pc := CheckCommits);
  }

  lemma DropKeeps(s: State, m: map<nat, nat>, ch: Choice)
    requires Inv(s, m) && |s.stack| > 0 && !ch.Interrupt?
    requires var f := Top(s); f.pc.Drop?
    ensures Inv(Next(s, ch), m)
  {
    Unpack(s, m);
    DropSettles(s, m);
    var g', f' := Next(s, ch).g, Top(Next(s, ch));
    assert Next(s, ch) == Put(s, g', f');
    CounterPairs(s, m, g', f');
    hide LowerKept, Marks, BumpAt, PairOk, PairsTop;
    CounterKeeps(s, m, g', f');
  }

  // --- steps that change a write word

  /** A new settled index v for page p suits every lower writer. */
  predicate Fitting(s: State, m: map<nat, nat>, p: nat, v: nat)
    requires |s.stack| > 0 && KnownShared(s.g) && Commits(s.g, m)
  {
    && s.g.commit <= p <= s.g.tail && v <= PAGE
    && (p == s.g.commit ==> s.g.cidx[p] <= v)
    && forall i :: 0 <= i < |s.stack| - 1 ==> FittingFor(s.g.commit, p, v, s.stack[i])
  }

  predicate FittingFor(commit: nat, p: nat, v: nat, f: Frame) {
    && (Pending(f) ==> f.tp != p)
    && (Open(f) && f.tp == p ==> f.pos + f.len <= v)
    && (f.pc.LevelSet? && p == commit ==> f.val <= v)
  }

  predicate Resettled(s: State, m: map<nat, nat>, p: nat, m': map<nat, nat>)
    requires |s.stack| > 0 && KnownShared(s.g) && Commits(s.g, m)
  {
    m' == m || (p in m' && m' == m[p := m'[p]] && Fitting(s, m, p, m'[p]))
  }

  lemma WriteFrame(s: State, m: map<nat, nat>, p: nat, c: Cell, m': map<nat, nat>, i: nat)
    requires |s.stack| > 0 && i < |s.stack| - 1 && KnownShared(s.g) && Commits(s.g, m)
    requires FrameAt(s.g, m, s.stack, i) && PairOk(s.g.commit, s.g.commits, s.stack[i], Top(s))
    requires HasPage(Top(s)) && p >= s.g.commit && p >= Top(s).tp && Resettled(s, m, p, m')
    ensures var g' := s.g.(write := s.g.write[p := c]);
      KnownShared(g') && Commits(g', m') && FrameAt(g', m', s.stack, i)
  {
    if m' != m { assert FittingFor(s.g.commit, p, m'[p], s.stack[i]); }
  }

  lemma WriteLower(s: State, m: map<nat, nat>, p: nat, c: Cell, m': map<nat, nat>)
    requires |s.stack| > 0 && LowerKept(s, s.g, m) && TopFits(s, s.g, m, Top(s))
    requires HasPage(Top(s)) && p >= s.g.commit && p >= Top(s).tp && Resettled(s, m, p, m')
    ensures LowerKept(s, s.g.(write := s.g.write[p := c]), m')
  {
    var n := |s.stack| - 1;
    var g' := s.g.(write := s.g.write[p := c]);
    assert KnownShared(g') && Commits(g', m');
    hide Commits, KnownShared, Resettled, FrameAt, PairOk, TopMarked, BumpAt;
    forall i | 0 <= i < n ensures FrameAt(g', m', s.stack, i) {
      assert PairOk(s.g.commit, s.g.commits, Below(s)[i], Top(s));
      WriteFrame(s, m, p, c, m', i);
    }
  }

  /** The index of a page up to the tail may change freely under lower writers that bumped it. */
  lemma IndexBumps(s: State, m: map<nat, nat>, p: nat, x: nat, f': Frame)
    requires |s.stack| > 0 && TopFits(s, s.g, m, Top(s)) && p in s.g.write && p <= s.g.tail
    requires !Bumped(Top(s)) && !Bumped(f')
    ensures var g' := s.g.(write := s.g.write[p := Cell(s.g.write[p].cnt, x)]);
      forall i :: 0 <= i < |s.stack| ==> BumpAt(g', Below(s) + [f'], i)
  {
    hide FrameOk, PairsTop, Commits, TopMarked, Count;
    var g' := s.g.(write := s.g.write[p := Cell(s.g.write[p].cnt, x)]);
    var n := |s.stack| - 1;
    forall i | 0 <= i <= n ensures BumpAt(g', Below(s) + [f'], i) {
      if i < n {
        assert BumpAt(s.g, Below(s) + [Top(s)], i);
        assert BumpAt(g', Below(s) + [Top(s)], i);
        BumpUpper(g', Below(s), Top(s), f', i);
      }
    }
  }

  lemma IndexMarks(s: State, m: map<nat, nat>, idx: nat, m': map<nat, nat>, f': Frame)
    requires |s.stack| > 0 && TopFits(s, s.g, m, Top(s)) && HasPage(Top(s))
    requires Resettled(s, m, Top(s).tp, m')
    requires idx == (if Pending(f') then f'.pos + f'.len else Mark(Below(s), Top(s).tp, m'[Top(s).tp]))
    requires Pending(f') ==> f'.tp == Top(s).tp
    ensures var g' := s.g.(write := s.g.write[Top(s).tp := Cell(s.g.write[Top(s).tp].cnt, idx)]);
      KnownShared(g') && Commits(g', m') && TopMarked(s, g', m', f')
  {
    hide BumpAt, PairsTop, FittingFor;
  }

  /** The common part of reserving, unwinding and resetting: page tp gets index idx. */
  lemma IndexKeeps(s: State, m: map<nat, nat>, idx: nat, m': map<nat, nat>, f': Frame)
    requires Inv(s, m) && |s.stack| > 0 && HasPage(Top(s)) && !Bumped(Top(s))
    requires Resettled(s, m, Top(s).tp, m')
    requires Counted(f') && !Bumped(f') && Top(s).tp in m'
    requires idx == (if Pending(f') then f'.pos + f'.len else Mark(Below(s), Top(s).tp, m'[Top(s).tp]))
    requires Pending(f') ==> f'.tp == Top(s).tp
    requires var g' := s.g.(write := s.g.write[Top(s).tp := Cell(s.g.write[Top(s).tp].cnt, idx)]);
      KnownShared(g') && Commits(g', m') ==> FrameOk(g', m', Below(s), f')
    requires PairsTop(s.g.commit, s.g.commits, Below(s), f')
    ensures Inv(Put(s, s.g.(write := s.g.write[Top(s).tp := Cell(s.g.write[Top(s).tp].cnt, idx)]), f'), m')
  {
    Unpack(s, m);
    var f := Top(s);
    var g' := s.g.(write := s.g.write[f.tp := Cell(s.g.write[f.tp].cnt, idx)]);
    assert Settled(Put(s, g', f'));
    WriteLower(s, m, f.tp, Cell(s.g.write[f.tp].cnt, idx), m');
    IndexMarks(s, m, idx, m', f');
    IndexBumps(s, m, f.tp, idx, f');
    hide LowerKept, Settled, BumpAt, PairsTop, FrameOk, Fitting, Inv, Commits, TopMarked, HasPage, Resettled;
    Assemble(s, g', m', f');
  }

  ghost predicate CanIndex(s: State, m: map<nat, nat>, idx: nat, m': map<nat, nat>, f': Frame) {
    && |s.stack| > 0 && KnownShared(s.g) && Commits(s.g, m) && Top(s).tp in s.g.write && Top(s).tp in m'
    && HasPage(Top(s)) && !Bumped(Top(s)) && Resettled(s, m, Top(s).tp, m') && Counted(f') && !Bumped(f')
    && idx == (if Pending(f') then f'.pos + f'.len else Mark(Below(s), Top(s).tp, m'[Top(s).tp]))
    && (Pending(f') ==> f'.tp == Top(s).tp)
    && var g' := s.g.(write := s.g.write[Top(s).tp := Cell(s.g.write[Top(s).tp].cnt, idx)]);
       (KnownShared(g') && Commits(g', m') ==> FrameOk(g', m', Below(s), f'))
         && PairsTop(s.g.commit, s.g.commits, Below(s), f')
  }

  lemma Indexes(s: State, m: map<nat, nat>, idx: nat, m': map<nat, nat>, f': Frame)
    requires Inv(s, m) && CanIndex(s, m, idx, m', f')
    ensures Inv(Put(s, s.g.(write := s.g.write[Top(s).tp := Cell(s.g.write[Top(s).tp].cnt, idx)]), f'), m')
  {
    hide Inv, Resettled, FrameOk, PairsTop, Put;
    IndexKeeps(s, m, idx, m', f');
  }

  lemma AddFits(s: State, m: map<nat, nat>)
    requires Inv(s, m) && |s.stack| > 0 && Top(s).pc.GotTail?
    requires s.g.write[Top(s).tp].idx + Top(s).len <= PAGE
    ensures var f := Top(s);
      && f.tp in m && m[f.tp] == s.g.write[f.tp].idx
      && Fitting(s, m, f.tp, m[f.tp] + f.len)
      && PairsTop(s.g.commit, s.g.commits, Below(s), f.(pc := Fill, pos := m[f.tp]))
  {
    Unpack(s, m);
    var f := Top(s);
    BelowMark(s, m, f.tp);
    hide BumpAt, Settled, Marks;
    forall i | 0 <= i < |s.stack| - 1
      ensures PairOk(s.g.commit, s.g.commits, Below(s)[i], f.(pc := Fill, pos := m[f.tp]))
      ensures FittingFor(s.g.commit, f.tp, m[f.tp] + f.len, s.stack[i])
    {
      assert FrameAt(s.g, m, s.stack, i) && PairOk(s.g.commit, s.g.commits, Below(s)[i], f);
    }
  }

  lemma TakeStep(s: State, m: map<nat, nat>, ch: Choice)
    requires Inv(s, m) && |s.stack| > 0 && !ch.Interrupt? && Top(s).pc.GotTail?
    ensures var f := Top(s);
      f.tp in s.g.write && var c := s.g.write[f.tp];
      Next(s, ch) == Put(s, s.g.(write := s.g.write[f.tp := Cell(c.cnt, c.idx + f.len)]),
                         f.(pc := if c.idx + f.len <= PAGE then Fill else Cross, pos := c.idx))
  {
    TopKnown(s, m);
    hide Inv, FrameOk, PairOk;
  }

  /** The writer's locals once it has added its length to the page's write index. */
  lemma TakenFrame(s: State, m: map<nat, nat>, m': map<nat, nat>, idx: nat, f': Frame)
    requires |s.stack| > 0 && TopFits(s, s.g, m, Top(s)) && Top(s).pc.GotTail? && Top(s).tp in s.g.write
    requires var f := Top(s);
      && f' == f.(pc := f'.pc, pos := s.g.write[f.tp].idx) && idx == f'.pos + f.len
      && (f'.pc.Cross? || f'.pc.Fill?)
      && (f'.pc.Cross? ==> m' == m && idx > PAGE)
      && (f'.pc.Fill? ==> idx <= PAGE && f.tp in m && f'.pos == m[f.tp] && m' == m[f.tp := idx])
    ensures var g' := s.g.(write := s.g.write[f'.tp := Cell(s.g.write[f'.tp].cnt, idx)]);
      KnownShared(g') && Commits(g', m') ==> FrameOk(g', m', Below(s), f')
  {
    var g' := s.g.(write := s.g.write[f'.tp := Cell(s.g.write[f'.tp].cnt, idx)]);
    SyncIdle(g', m', Below(s), f');
    hide SyncOk, PairsTop, BumpAt;
  }

  lemma Added(s: State, m: map<nat, nat>, c: Cell)
    requires Inv(s, m) && |s.stack| > 0 && Top(s).pc.GotTail? && Top(s).tp in s.g.write
    requires c == s.g.write[Top(s).tp] && c.idx + Top(s).len <= PAGE
    ensures var f := Top(s);
      Inv(Put(s, s.g.(write := s.g.write[f.tp := Cell(c.cnt, c.idx + f.len)]), f.(pc := Fill, pos := c.idx)),
          m[f.tp := c.idx + f.len])
  {
    hide Inv, CanIndex, Put;
    CanAdd(s, m, c);
    Indexes(s, m, c.idx + Top(s).len, m[Top(s).tp := c.idx + Top(s).len], Top(s).(pc := Fill, pos := c.idx));
  }

  lemma CanAdd(s: State, m: map<nat, nat>, c: Cell)
    requires Inv(s, m) && |s.stack| > 0 && Top(s).pc.GotTail? && Top(s).tp in s.g.write
    requires c == s.g.write[Top(s).tp] && c.idx + Top(s).len <= PAGE
    ensures var f := Top(s); CanIndex(s, m, c.idx + f.len, m[f.tp := c.idx + f.len], f.(pc := Fill, pos := c.idx))
  {
    Unpack(s, m);
    AddFits(s, m);
    var f := Top(s);
    BelowMark(s, m, f.tp);
    hide Inv, Marks, Settled, BumpAt, LowerKept;
    var m' := m[f.tp := m[f.tp] + f.len];
    NoPending(Below(s), f.tp, m'[f.tp]);
    TakenFrame(s, m, m', c.idx + f.len, f.(pc := Fill, pos := m[f.tp]));
    hide PairsTop, TopMarked, Fitting, FrameOk;
  }

  lemma AddKeeps(s: State, m: map<nat, nat>, ch: Choice)
    requires Inv(s, m) && |s.stack| > 0 && !ch.Interrupt? && Top(s).pc.GotTail?
    requires s.g.write[Top(s).tp].idx + Top(s).len <= PAGE
    ensures Inv(Next(s, ch), m[Top(s).tp := s.g.write[Top(s).tp].idx + Top(s).len])
  {
    TakeStep(s, m, ch);
    hide Inv, Next, Put;
    Added(s, m, s.g.write[Top(s).tp]);
  }

  lemma OvershotPairs(s: State, m: map<nat, nat>, f': Frame)
    requires |s.stack| > 0 && LowerKept(s, s.g, m) && TopFits(s, s.g, m, Top(s)) && Top(s).pc.GotTail?
    requires f' == Top(s).(pc := Cross, pos := f'.pos)
    ensures PairsTop(s.g.commit, s.g.commits, Below(s), f')
  {
    LocalPairs(s, m, f');
  }

  lemma Overshot(s: State, m: map<nat, nat>, c: Cell)
    requires Inv(s, m) && |s.stack| > 0 && Top(s).pc.GotTail? && Top(s).tp in s.g.write
    requires c == s.g.write[Top(s).tp] && c.idx + Top(s).len > PAGE
    ensures var f := Top(s);
      Inv(Put(s, s.g.(write := s.g.write[f.tp := Cell(c.cnt, c.idx + f.len)]), f.(pc := Cross, pos := c.idx)), m)
  {
    hide Inv, CanIndex, Put;
    CanOvershoot(s, m, c);
    Indexes(s, m, c.idx + Top(s).len, m, Top(s).(pc := Cross, pos := c.idx));
  }

  lemma CanOvershoot(s: State, m: map<nat, nat>, c: Cell)
    requires Inv(s, m) && |s.stack| > 0 && Top(s).pc.GotTail? && Top(s).tp in s.g.write
    requires c == s.g.write[Top(s).tp] && c.idx + Top(s).len > PAGE
    ensures var f := Top(s); CanIndex(s, m, c.idx + f.len, m, f.(pc := Cross, pos := c.idx))
  {
    Unpack(s, m);
    hide Inv, Marks, Settled, BumpAt;
    var f := Top(s);
    var f' := f.(pc := Cross, pos := c.idx);
    OvershotPairs(s, m, f');
    TakenFrame(s, m, m, c.idx + f.len, f');
    assert f.tp in m;
    hide PairsTop, LowerKept, FrameOk, TopMarked;
  }

  lemma OvershootKeeps(s: State, m: map<nat, nat>, ch: Choice)
    requires Inv(s, m) && |s.stack| > 0 && !ch.Interrupt? && Top(s).pc.GotTail?
    requires s.g.write[Top(s).tp].idx + Top(s).len > PAGE
    ensures Inv(Next(s, ch), m)
  {
    TakeStep(s, m, ch);
    hide Inv, Next, Put;
    Overshot(s, m, s.g.write[Top(s).tp]);
  }

  lemma UnwindKeeps(s: State, m: map<nat, nat>, ch: Choice)
    requires Inv(s, m) && |s.stack| > 0 && !ch.Interrupt? && Top(s).pc.Unwind?
    requires s.g.write[Top(s).tp] == Top(s).seen
    ensures Inv(Next(s, ch), m[Top(s).tp := Top(s).pos])
  {
    Unpack(s, m);
    var f := Top(s);
    var m' := m[f.tp := f.pos];
    UnwindFits(s, m);
    BelowMark(s, m, f.tp);
    NoPending(Below(s), f.tp, f.pos);
    var f' := f.(pc := End, again := false);
    assert Next(s, ch) == Put(s, s.g.(write := s.g.write[f.tp := Cell(s.g.write[f.tp].cnt, f.pos)]), f');
    LocalPairs(s, m, f');
    hide PairsTop, BumpAt, Settled, Marks, LowerKept, Next, TopMarked, Fitting;
    IndexKeeps(s, m, f.pos, m', f');
    hide Inv;
  }

  lemma UnwindFits(s: State, m: map<nat, nat>)
    requires Inv(s, m) && |s.stack| > 0 && Top(s).pc.Unwind?
    requires s.g.write[Top(s).tp].idx == Top(s).pos + Top(s).len
    ensures Fitting(s, m, Top(s).tp, Top(s).pos)
  {
    Unpack(s, m);
    var f := Top(s);
    BelowMark(s, m, f.tp);
    hide BumpAt, Settled, Marks;
    forall i | 0 <= i < |s.stack| - 1 ensures FittingFor(s.g.commit, f.tp, f.pos, s.stack[i]) {
      assert PairOk(s.g.commit, s.g.commits, Below(s)[i], f);
    }
  }

  lemma UnwindLateKeeps(s: State, m: map<nat, nat>, ch: Choice)
    requires Inv(s, m) && |s.stack| > 0 && !ch.Interrupt? && Top(s).pc.Unwind?
    requires s.g.write[Top(s).tp] != Top(s).seen
    ensures Inv(Next(s, ch), m)
  {
    Unpack(s, m);
    var f' := Top(Next(s, ch));
    assert Next(s, ch) == Put(s, s.g, f');
    LocalPairs(s, m, f');
    hide LowerKept, Marks;
    LocalKeeps(s, m, f');
  }

  /** tb_reset_tail on a page with room for a padding event: the page is filled to its end. */
  lemma ResetPadKeeps(s: State, m: map<nat, nat>, ch: Choice)
    requires Inv(s, m) && |s.stack| > 0 && !ch.Interrupt? && Top(s).pc.Reset? && Top(s).pos <= PAGE - MIN_SIZE
    ensures Inv(Next(s, ch), m[Top(s).tp := PAGE])
  {
    Unpack(s, m);
    var f := Top(s);
    BelowMark(s, m, f.tp);
    NoPending(Below(s), f.tp, PAGE);
    ResetFits(s, m);
    var f' := f.(pc := End);
    assert Next(s, ch) == Put(s, s.g.(write := s.g.write[f.tp := Cell(s.g.write[f.tp].cnt, PAGE)]), f');
    LocalPairs(s, m, f');
    hide PairsTop, BumpAt, Settled, Marks, LowerKept, Next, TopMarked, Fitting;
    IndexKeeps(s, m, PAGE, m[f.tp := PAGE], f');
    hide Inv;
  }

  lemma ResetFits(s: State, m: map<nat, nat>)
    requires Inv(s, m) && |s.stack| > 0 && Top(s).pc.Reset? && Top(s).pos <= PAGE - MIN_SIZE
    ensures Fitting(s, m, Top(s).tp, PAGE)
  {
    Unpack(s, m);
    var f := Top(s);
    BelowMark(s, m, f.tp);
    hide BumpAt, Settled, Marks;
    forall i | 0 <= i < |s.stack| - 1 ensures FittingFor(s.g.commit, f.tp, PAGE, s.stack[i]) {
      assert FrameAt(s.g, m, s.stack, i);
    }
  }

  /** Otherwise the writer takes exactly its own length back. */
  lemma ResetBackKeeps(s: State, m: map<nat, nat>, ch: Choice)
    requires Inv(s, m) && |s.stack| > 0 && !ch.Interrupt? && Top(s).pc.Reset? && Top(s).pos > PAGE - MIN_SIZE
    ensures Inv(Next(s, ch), m)
  {
    Unpack(s, m);
    var f := Top(s);
    var f' := f.(pc := End);
    assert Next(s, ch) == Put(s, s.g.(write := s.g.write[f.tp := Cell(s.g.write[f.tp].cnt, f.pos)]), f');
    LocalPairs(s, m, f');
    hide PairsTop, BumpAt, Settled, Marks, LowerKept, Next;
    IndexKeeps(s, m, f.pos, m, f');
    hide Inv;
  }

  // --- moving the tail

  /** The word of page tp + 1 changes without lowering its updater count, and the top writer stays
      among those that bumped it. */
  lemma WordBumps(s: State, m: map<nat, nat>, c: Cell, f': Frame)
    requires |s.stack| > 0 && TopFits(s, s.g, m, Top(s)) && HasPage(Top(s)) && Bumped(f') && f'.tp == Top(s).tp
    requires f'.tp + 1 in s.g.write ==> s.g.write[f'.tp + 1].cnt <= c.cnt
    requires BumpAt(s.g.(write := s.g.write[f'.tp + 1 := c]), Below(s) + [f'], |s.stack| - 1)
    ensures var g' := s.g.(write := s.g.write[f'.tp + 1 := c]);
      forall i :: 0 <= i < |s.stack| ==> BumpAt(g', Below(s) + [f'], i)
  {
    hide FrameOk, PairsTop, Commits, TopMarked, Count;
    var g' := s.g.(write := s.g.write[f'.tp + 1 := c]);
    var n := |s.stack| - 1;
    var st, st' := Below(s) + [Top(s)], Below(s) + [f'];
    forall i | 0 <= i <= n ensures BumpAt(g', st', i) {
      if i < n {
        assert BumpAt(s.g, st, i);
        BumpUpper(s.g, Below(s), Top(s), f', i);
        if Bumped(st'[i]) && st'[i].tp == f'.tp { assert Bumped(st'[n]) && AlsoBumped(st', i, f'.tp); }
      }
    }
  }

  lemma WordKeeps(s: State, m: map<nat, nat>, c: Cell, f': Frame)
    requires Inv(s, m) && |s.stack| > 0 && Pending(Top(s)) && Bumped(f')
    requires f' == Top(s).(pc := f'.pc, seen := f'.seen)
    requires f'.tp + 1 in s.g.write ==> s.g.write[f'.tp + 1].cnt <= c.cnt
    requires f'.tp < s.g.tail ==> f'.tp + 1 in s.g.write && c.idx == s.g.write[f'.tp + 1].idx
    requires BumpAt(s.g.(write := s.g.write[f'.tp + 1 := c]), Below(s) + [f'], |s.stack| - 1)
    requires var g' := s.g.(write := s.g.write[f'.tp + 1 := c]);
      KnownShared(g') && Commits(g', m) ==> FrameOk(g', m, Below(s), f')
    requires PairsTop(s.g.commit, s.g.commits, Below(s), f')
    ensures Inv(Put(s, s.g.(write := s.g.write[f'.tp + 1 := c]), f'), m)
  {
    Unpack(s, m);
    var g' := s.g.(write := s.g.write[f'.tp + 1 := c]);
    assert Settled(Put(s, g', f'));
    WordBumps(s, m, c, f');
    WriteLower(s, m, f'.tp + 1, c, m);
    assert KnownShared(g') && Commits(g', m) && TopMarked(s, g', m, f');
    hide LowerKept, Settled, BumpAt, PairsTop, FrameOk, Inv, Commits, TopMarked;
    Assemble(s, g', m, f');
  }

  lemma BumpPairs(s: State, m: map<nat, nat>, f': Frame)
    requires |s.stack| > 0 && LowerKept(s, s.g, m) && TopFits(s, s.g, m, Top(s)) && Top(s).pc.Bump?
    requires f' == Top(s).(pc := Test, seen := f'.seen)
    requires f'.tp + 1 in s.g.write ==> s.g.write[f'.tp + 1].cnt < f'.seen.cnt
    ensures PairsTop(s.g.commit, s.g.commits, Below(s), f')
  {
    forall i | 0 <= i < |s.stack| - 1 ensures PairOk(s.g.commit, s.g.commits, Below(s)[i], f') {
      assert PairOk(s.g.commit, s.g.commits, Below(s)[i], Top(s));
      assert BumpAt(s.g, Below(s) + [Top(s)], i);
    }
  }

  lemma BumpKeeps(s: State, m: map<nat, nat>, ch: Choice)
    requires Inv(s, m) && |s.stack| > 0 && !ch.Interrupt? && Top(s).pc.Bump?
    ensures Inv(Next(s, ch), m)
  {
    Unpack(s, m);
    var f' := Top(Next(s, ch));
    assert Next(s, ch) == Put(s, s.g.(write := s.g.write[f'.tp + 1 := f'.seen]), f');
    BumpPairs(s, m, f');
    hide LowerKept, Marks, PairsTop, Settled, Next;
    WordKeeps(s, m, f'.seen, f');
    hide Inv;
  }

  lemma ZeroLate(s: State, m: map<nat, nat>, f': Frame)
    requires Inv(s, m) && |s.stack| > 0 && Top(s).pc.Zero? && f' == Top(s).(pc := ZeroCommit)
    requires Top(s).tp + 1 in s.g.write && s.g.write[Top(s).tp + 1] != Top(s).seen
    requires PairsTop(s.g.commit, s.g.commits, Below(s), f')
    ensures Inv(Put(s, s.g, f'), m)
  {
    Unpack(s, m);
    assert BumpAt(s.g, Below(s) + [Top(s)], |s.stack| - 1);
    SyncIdle(s.g, m, Below(s), f');
    hide LowerKept, Marks, PairsTop, SyncOk;
    LocalKeeps(s, m, f');
    hide Inv;
  }

  lemma ZeroKeeps(s: State, m: map<nat, nat>, ch: Choice)
    requires Inv(s, m) && |s.stack| > 0 && !ch.Interrupt? && Top(s).pc.Zero?
    ensures Inv(Next(s, ch), m)
  {
    Unpack(s, m);
    assert BumpAt(s.g, Below(s) + [Top(s)], |s.stack| - 1);
    var f := Top(s);
    var f' := f.(pc := ZeroCommit);
    LocalPairs(s, m, f');
    var g' := if s.g.write[f.tp + 1] == f.seen then s.g.(write := s.g.write[f.tp + 1 := Cell(f.seen.cnt, 0)]) else s.g;
    assert Next(s, ch) == Put(s, g', f');
    SyncIdle(g', m, Below(s), f');
    hide LowerKept, Marks, PairsTop, Next, SyncOk, Put;
    if s.g.write[f.tp + 1] == f.seen {
      hide Settled;
      WordKeeps(s, m, Cell(f.seen.cnt, 0), f');
      hide Inv;
    } else {
      ZeroLate(s, m, f');
      hide Inv;
    }
  }

  lemma ZeroCommitLower(s: State, m: map<nat, nat>)
    requires |s.stack| > 0 && LowerKept(s, s.g, m) && TopFits(s, s.g, m, Top(s)) && Top(s).pc.ZeroCommit?
    ensures LowerKept(s, s.g.(cidx := s.g.cidx[Top(s).tp + 1 := 0]), m)
  {
    hide BumpAt, TopMarked;
    var g' := s.g.(cidx := s.g.cidx[Top(s).tp + 1 := 0]);
    forall i | 0 <= i < |s.stack| - 1 ensures FrameAt(g', m, s.stack, i) {
      assert FrameAt(s.g, m, s.stack, i);
      assert PairOk(s.g.commit, s.g.commits, Below(s)[i], Top(s));
    }
  }

  lemma ZeroCommitBumps(s: State, m: map<nat, nat>, g': Shared, f': Frame)
    requires |s.stack| > 0 && TopFits(s, s.g, m, Top(s)) && Top(s).pc.ZeroCommit? && f' == Top(s).(pc := Publish)
    requires g' == s.g.(cidx := s.g.cidx[Top(s).tp + 1 := 0])
    ensures forall i :: 0 <= i < |s.stack| ==> BumpAt(g', Below(s) + [f'], i)
  {
    hide TopMarked, FrameOk, PairsTop;
    forall i | 0 <= i < |s.stack| ensures BumpAt(g', Below(s) + [f'], i) {
      assert BumpAt(s.g, Below(s) + [Top(s)], i);
      if i < |s.stack| - 1 { BumpUpper(s.g, Below(s), Top(s), f', i); assert BumpAt(s.g, Below(s) + [f'], i); }
    }
  }

  lemma ZeroCommitKeeps(s: State, m: map<nat, nat>, ch: Choice)
    requires Inv(s, m) && |s.stack| > 0 && !ch.Interrupt? && Top(s).pc.ZeroCommit?
    ensures Inv(Next(s, ch), m)
  {
    Unpack(s, m);
    var f := Top(s);
    var f' := f.(pc := Publish);
    var g' := s.g.(cidx := s.g.cidx[f.tp + 1 := 0]);
    assert Next(s, ch) == Put(s, g', f') && Settled(Put(s, g', f'));
    ZeroCommitLower(s, m);
    LocalPairs(s, m, f');
    ZeroCommitBumps(s, m, g', f');
    hide LowerKept, Marks, PairsTop, Settled, Next, Inv, BumpAt;
    assert TopMarked(s, g', m, f') && FrameOk(g', m, Below(s), f');
    hide TopMarked, FrameOk, Commits;
    Assemble(s, g', m, f');
  }

  lemma PublishLower(s: State, m: map<nat, nat>)
    requires |s.stack| > 0 && LowerKept(s, s.g, m) && TopFits(s, s.g, m, Top(s)) && Top(s).pc.Publish?
    requires s.g.tail == Top(s).tp
    ensures LowerKept(s, s.g.(tail := s.g.tail + 1), m[s.g.tail + 1 := 0])
  {
    hide TopMarked, BumpAt;
    var g', m' := s.g.(tail := s.g.tail + 1), m[s.g.tail + 1 := 0];
    assert KnownShared(g') && Commits(g', m');
    forall i | 0 <= i < |s.stack| - 1 ensures FrameAt(g', m', s.stack, i) {
      assert FrameAt(s.g, m, s.stack, i);
      assert PairOk(s.g.commit, s.g.commits, Below(s)[i], Top(s));
    }
  }

  lemma PublishBumps(s: State, m: map<nat, nat>, g': Shared, f': Frame)
    requires Inv(s, m) && |s.stack| > 0 && TopFits(s, s.g, m, Top(s)) && Top(s).pc.Publish? && !Bumped(f')
    requires s.g.tail == Top(s).tp && g' == s.g.(tail := s.g.tail + 1)
    ensures forall i :: 0 <= i < |s.stack| ==> BumpAt(g', Below(s) + [f'], i)
  {
    assert BumpAt(s.g, Below(s) + [Top(s)], |s.stack| - 1);
    forall i | 0 <= i < |s.stack| - 1 ensures HasPage(s.stack[i]) ==> s.stack[i].tp <= s.g.tail {
      PublishTails(s, m, i);
    }
    hide TopMarked, FrameOk, Inv;
    forall i | 0 <= i < |s.stack| ensures BumpAt(g', Below(s) + [f'], i) {
      if i < |s.stack| - 1 {
        assert BumpAt(s.g, Below(s) + [Top(s)], i);
        assert PairOk(s.g.commit, s.g.commits, Below(s)[i], Top(s));
      }
    }
  }

  lemma PublishTails(s: State, m: map<nat, nat>, i: nat)
    requires Inv(s, m) && |s.stack| > 0 && i < |s.stack| - 1
    ensures HasPage(s.stack[i]) ==> s.stack[i].tp <= s.g.tail
  {
    assert FrameAt(s.g, m, s.stack, i);
  }

  /** The new tail page starts empty: its write index was zeroed under an unchanged updater count. */
  lemma PublishedEmpty(s: State, m: map<nat, nat>)
    requires Inv(s, m) && |s.stack| > 0 && Top(s).pc.Publish? && s.g.tail == Top(s).tp
    ensures Top(s).tp + 1 in s.g.write && s.g.write[Top(s).tp + 1].idx == 0
    ensures Mark(Below(s), s.g.tail + 1, 0) == 0
  {
    Unpack(s, m);
    assert BumpAt(s.g, Below(s) + [Top(s)], |s.stack| - 1);
    forall i | 0 <= i < |s.stack| - 1 && Pending(Below(s)[i]) ensures Below(s)[i].tp != s.g.tail + 1 {
      PublishTails(s, m, i);
    }
    NoPending(Below(s), s.g.tail + 1, 0);
  }

  lemma PublishKeeps(s: State, m: map<nat, nat>, ch: Choice)
    requires Inv(s, m) && |s.stack| > 0 && !ch.Interrupt? && Top(s).pc.Publish? && s.g.tail == Top(s).tp
    ensures Inv(Next(s, ch), m[s.g.tail + 1 := 0])
  {
    Unpack(s, m);
    PublishedEmpty(s, m);
    var f' := Top(s).(pc := Reset, again := true);
    var g', m' := s.g.(tail := s.g.tail + 1), m[s.g.tail + 1 := 0];
    assert Next(s, ch) == Put(s, g', f') && Settled(Put(s, g', f'));
    PublishLower(s, m);
    PublishBumps(s, m, g', f');
    LocalPairs(s, m, f');
    hide LowerKept, Marks, PairsTop, Settled, Next, Inv, BumpAt;
    assert TopMarked(s, g', m', f') && FrameOk(g', m', Below(s), f');
    hide TopMarked, FrameOk, Commits;
    Assemble(s, g', m', f');
  }

  lemma PublishLateKeeps(s: State, m: map<nat, nat>, ch: Choice)
    requires Inv(s, m) && |s.stack| > 0 && !ch.Interrupt? && Top(s).pc.Publish? && s.g.tail != Top(s).tp
    ensures Inv(Next(s, ch), m)
  {
    Unpack(s, m);
    var f' := Top(s).(pc := Reset, again := true);
    assert Next(s, ch) == Put(s, s.g, f');
    LocalPairs(s, m, f');
    hide LowerKept, Marks;
    LocalKeeps(s, m, f');
  }

  // --- moving the commit position: nobody else is in `committing`

  lemma AloneLower(s: State, m: map<nat, nat>, g': Shared)
    requires |s.stack| > 0 && LowerKept(s, s.g, m) && forall i :: 0 <= i < |s.stack| - 1 ==> !Counted(s.stack[i])
    requires KnownShared(g') && Commits(g', m) && g'.commits == s.g.commits
    ensures LowerKept(s, g', m)
  {
    hide Clean, Mark, Count;
    forall i | 0 <= i < |s.stack| - 1 ensures FrameAt(g', m, s.stack, i) {
      assert FrameAt(s.g, m, s.stack, i);
    }
  }

  /** With all lower writers outside `committing`, commit may move under the top one. */
  lemma AloneKeeps(s: State, m: map<nat, nat>, g': Shared, f': Frame)
    requires Inv(s, m) && |s.stack| > 0 && Syncing(Top(s)) && Counted(f') && !HasPage(f')
    requires g' == s.g.(cidx := g'.cidx, commit := g'.commit) && s.g.commit <= g'.commit
    requires KnownShared(g') && Commits(g', m) && FrameOk(g', m, Below(s), f')
    ensures Inv(Put(s, g', f'), m)
  {
    Unpack(s, m);
    MarkedBelow(s, m);
    assert Settled(Put(s, g', f'));
    hide Settled, Marks, Clean;
    AloneLower(s, m, g');
    hide LowerKept, FrameOk, Inv;
    assert TopMarked(s, g', m, f');
    Assemble(s, g', m, f');
  }

  lemma ChaseSetKeeps(s: State, m: map<nat, nat>, ch: Choice)
    requires Inv(s, m) && |s.stack| > 0 && !ch.Interrupt? && (Top(s).pc.ChaseSet? || Top(s).pc.LevelSet?)
    ensures Inv(Next(s, ch), m)
  {
    Unpack(s, m);
    MarkedBelow(s, m);
    var g', f' := Next(s, ch).g, Top(Next(s, ch));
    assert Next(s, ch) == Put(s, g', f');
    hide LowerKept, Marks, Settled, TopMarked, BumpAt, PairsTop;
    AloneKeeps(s, m, g', f');
  }

  lemma ChaseIncKeeps(s: State, m: map<nat, nat>, ch: Choice)
    requires Inv(s, m) && |s.stack| > 0 && !ch.Interrupt? && Top(s).pc.ChaseInc?
    ensures Inv(Next(s, ch), m)
  {
    Unpack(s, m);
    var g', f' := Next(s, ch).g, Top(Next(s, ch));
    assert Next(s, ch) == Put(s, g', f');
    hide LowerKept, Marks, Settled, TopMarked, BumpAt, PairsTop;
    AloneKeeps(s, m, g', f');
  }

  // --- leaving tb_end_commit, and being interrupted

  lemma PopKeeps(s: State, m: map<nat, nat>)
    requires Inv(s, m) && |s.stack| > 0 && Redo(Top(s))
    requires s.g.committing != 0 || Top(s).saved == s.g.commits
    ensures Inv(State(s.g, Below(s)), m)
  {
    Unpack(s, m);
    var s' := State(s.g, Below(s));
    var n := |s.stack| - 1;
    assert s.stack == Below(s) + [Top(s)];
    assert Settled(s');
    forall p | s.g.commit <= p <= s.g.tail ensures s.g.write[p].idx == Mark(Below(s), p, m[p]) {
      TopMark(Below(s), Top(s), p, m[p]);
    }
    hide FrameOk, PairOk, Settled, Clean;
    forall i | 0 <= i < n ensures FrameAt(s.g, m, s'.stack, i) {
      SameLower(s.g, m, s.stack, s'.stack, i);
      assert FrameAt(s.g, m, s.stack, i);
    }
    forall i, j | 0 <= i < j < n ensures PairAt(s.g.commit, s.g.commits, s'.stack, i, j) {
      assert PairAt(s.g.commit, s.g.commits, s.stack, i, j);
    }
    forall i | 0 <= i < n ensures BumpAt(s.g, s'.stack, i) {
      assert BumpAt(s.g, s.stack, i);
      if AlsoBumped(s.stack, i, s.stack[i].tp) {
        var j :| i < j < |s.stack| && Bumped(s.stack[j]) && s.stack[j].tp == s.stack[i].tp;
        assert Bumped(s'.stack[j]);
      }
    }
  }

  /** Going round again, or on to a new attempt. */
  lemma GoRoundKeeps(s: State, m: map<nat, nat>, f': Frame)
    requires Inv(s, m) && |s.stack| > 0 && (Top(s).pc.CheckCommits? || Top(s).pc.CheckCommitting?)
    requires f' == Top(s).(pc := f'.pc)
    requires f'.pc.CheckCommitting? || f'.pc.Again? ==> s.g.commits != Top(s).saved
    requires f'.pc.CheckCommitting? || f'.pc.Again? || f'.pc.Restart?
    requires f'.pc.Restart? ==> s.g.committing != 0 || Top(s).saved == s.g.commits
    ensures Inv(Put(s, s.g, f'), m)
  {
    Unpack(s, m);
    RedoSettles(s, f', m);
    LocalPairs(s, m, f');
    hide LowerKept, Marks, Settled, PairsTop, PairOk, TopMarked, Clean;
    LocalKeeps(s, m, f');
    hide Inv;
  }

  lemma LeaveKeeps(s: State, m: map<nat, nat>, ch: Choice)
    requires Inv(s, m) && |s.stack| > 0 && !ch.Interrupt? && (Top(s).pc.CheckCommits? || Top(s).pc.CheckCommitting?)
    ensures Inv(Next(s, ch), m)
  {
    var f := Top(s);
    if f.pc.CheckCommitting? { SavedBefore(s, m); }
    assert Known(s);
    hide Inv, Known;
    var stays := if f.pc.CheckCommits? then s.g.commits != f.saved else s.g.committing == 0;
    var f' := f.(pc := if !stays then Restart else if f.pc.CheckCommits? then CheckCommitting else Again);
    if !stays && !f.again {
      PopKeeps(s, m);
    } else {
      GoRoundKeeps(s, m, f');
    }
  }

  lemma SavedBefore(s: State, m: map<nat, nat>)
    requires Inv(s, m) && |s.stack| > 0 && Top(s).pc.CheckCommitting?
    ensures s.g.commits != Top(s).saved
  {
    Unpack(s, m);
  }

  lemma RedoSettles(s: State, f': Frame, m: map<nat, nat>)
    requires Inv(s, m) && |s.stack| > 0 && Redo(Top(s)) && f' == Top(s).(pc := f'.pc)
    requires s.g.committing != 0 || Top(s).saved == s.g.commits || Redo(f')
    ensures Settled(Put(s, s.g, f'))
  {
    if s.g.committing == 0 && !Clean(s.g) {
      var h :| h in s.stack && Redo(h) && h.saved != s.g.commits;
      var s' := Put(s, s.g, f');
      assert s.stack == Below(s) + [Top(s)];
      assert s'.stack[|s.stack| - 1] == f';
      assert h == Top(s) || h in Below(s);
      assert h in s'.stack || f' in s'.stack;
    }
  }

  /** A new writer on top. */
  lemma InterruptKeeps(s: State, m: map<nat, nat>, ch: Choice)
    requires Inv(s, m) && ch.Interrupt? && ch.len >= MIN_SIZE
    ensures Inv(Next(s, ch), m)
  {
    var f := Frame(Begin, ch.len, 0, 0, 0, Cell(0, 0), false, false, 0, 0);
    var st := s.stack + [f];
    assert Next(s, ch) == State(s.g, st);
    BegunMarks(s, m, f);
    BegunFrames(s, m, f);
    BegunPairs(s, m, f);
    BegunBumps(s, m, f);
    assert Settled(State(s.g, st)) by { assert forall h :: h in s.stack ==> h in st; }
    hide FrameAt, PairAt, BumpAt, Settled, Marks, Commits, Mark, Next;
  }

  lemma BegunMarks(s: State, m: map<nat, nat>, f: Frame)
    requires Inv(s, m) && f.pc.Begin?
    ensures Marks(s.g, s.stack + [f], m) && Count(s.stack + [f]) == Count(s.stack)
  {
    hide FrameAt, PairAt, BumpAt, Settled;
    TopMark(s.stack, f, 0, 0);
    forall p | s.g.commit <= p <= s.g.tail ensures s.g.write[p].idx == Mark(s.stack + [f], p, m[p]) {
      TopMark(s.stack, f, p, m[p]);
    }
  }

  lemma BegunFrames(s: State, m: map<nat, nat>, f: Frame)
    requires Inv(s, m) && f.pc.Begin? && f.len >= MIN_SIZE
    ensures forall i :: 0 <= i <= |s.stack| ==> FrameAt(s.g, m, s.stack + [f], i)
    ensures forall i :: 0 <= i <= |s.stack| ==> KnownFrame(s.g, (s.stack + [f])[i])
  {
    var st := s.stack + [f];
    hide PairAt, BumpAt, Settled, Marks;
    assert FrameAt(s.g, m, st, |s.stack|);
    forall i | 0 <= i < |s.stack| ensures FrameAt(s.g, m, st, i) {
      SameLower(s.g, m, s.stack, st, i);
      assert FrameAt(s.g, m, s.stack, i);
    }
  }

  lemma BegunPairs(s: State, m: map<nat, nat>, f: Frame)
    requires Inv(s, m) && f.pc.Begin?
    ensures forall i, j :: 0 <= i < j <= |s.stack| ==> PairAt(s.g.commit, s.g.commits, s.stack + [f], i, j)
  {
    var st := s.stack + [f];
    hide FrameAt, BumpAt, Settled, Marks;
    forall i, j | 0 <= i < j <= |s.stack| ensures PairAt(s.g.commit, s.g.commits, st, i, j) {
      if j < |s.stack| { assert PairAt(s.g.commit, s.g.commits, s.stack, i, j); }
    }
  }

  lemma BegunBumps(s: State, m: map<nat, nat>, f: Frame)
    requires Inv(s, m) && f.pc.Begin?
    ensures forall i :: 0 <= i <= |s.stack| ==> BumpAt(s.g, s.stack + [f], i)
  {
    var st := s.stack + [f];
    hide FrameAt, PairAt, Settled, Marks;
    forall i | 0 <= i <= |s.stack| ensures BumpAt(s.g, st, i) {
      if i < |s.stack| {
        assert BumpAt(s.g, s.stack, i);
        if AlsoBumped(s.stack, i, s.stack[i].tp) {
          var j :| i < j < |s.stack| && Bumped(s.stack[j]) && s.stack[j].tp == s.stack[i].tp;
          assert Bumped(st[j]);
        }
      }
    }
  }

  /** What a step makes of the settled indices: a reservation that fits adds its length, one that is
      unwound takes it back, a page left with room for padding is full, a new tail page is empty. */
  function Settles(s: State, m: map<nat, nat>, ch: Choice): map<nat, nat>
    requires Known(s)
  {
    if ch.Interrupt? || |s.stack| == 0 then m
    else
      var f, g := Top(s), s.g;
      assert KnownFrame(g, f);
      match f.pc
      case GotTail => if g.write[f.tp].idx + f.len <= PAGE then m[f.tp := g.write[f.tp].idx + f.len] else m
      case Unwind => if g.write[f.tp] == f.seen then m[f.tp := f.pos] else m
      case Publish => if g.tail == f.tp then m[g.tail + 1 := 0] else m
      case Reset => if f.pos <= PAGE - MIN_SIZE then m[f.tp := PAGE] else m
      case _ => m
  }

  lemma ReservingKeeps(s: State, m: map<nat, nat>, ch: Choice)
    requires Inv(s, m) && |s.stack| > 0 && !ch.Interrupt? && InReserve(Top(s))
    ensures Inv(Next(s, ch), Settles(s, m, ch))
  {
    var f := Top(s);
    TopKnown(s, m);
    assert Known(s);
    hide Inv, Next, Known;
    match f.pc {
      case Begin => BeginKeeps(s, m, ch);
      case Started => StartedKeeps(s, m, ch);
      case Reserve => ReserveKeeps(s, m, ch);
      case GotTail =>
        if s.g.write[f.tp].idx + f.len <= PAGE { AddKeeps(s, m, ch); } else { OvershootKeeps(s, m, ch); }
      case Fill => FillKeeps(s, m, ch);
      case Unwind =>
        if s.g.write[f.tp] == f.seen { UnwindKeeps(s, m, ch); } else { UnwindLateKeeps(s, m, ch); }
    }
  }

  lemma CrossingKeeps(s: State, m: map<nat, nat>, ch: Choice)
    requires Inv(s, m) && |s.stack| > 0 && !ch.Interrupt? && Pending(Top(s))
    ensures Inv(Next(s, ch), Settles(s, m, ch))
  {
    var f := Top(s);
    assert Known(s);
    hide Inv, Next, Known;
    match f.pc {
      case Cross => CrossKeeps(s, m, ch);
      case Bump => BumpKeeps(s, m, ch);
      case Test => TestKeeps(s, m, ch);
      case Zero => ZeroKeeps(s, m, ch);
      case ZeroCommit => ZeroCommitKeeps(s, m, ch);
      case Publish =>
        if s.g.tail == f.tp { PublishKeeps(s, m, ch); } else { PublishLateKeeps(s, m, ch); }
      case Reset =>
        if f.pos <= PAGE - MIN_SIZE { ResetPadKeeps(s, m, ch); } else { ResetBackKeeps(s, m, ch); }
    }
  }

  lemma EndingKeeps(s: State, m: map<nat, nat>, ch: Choice)
    requires Inv(s, m) && |s.stack| > 0 && !ch.Interrupt? && !InReserve(Top(s)) && !Pending(Top(s))
    ensures Inv(Next(s, ch), m)
  {
    var f := Top(s);
    hide Inv, Next;
    match f.pc {
      case End => EndKeeps(s, m, ch);
      case ReadCommitting => ReadCommittingKeeps(s, m, ch);
      case Chase => if s.g.commit == s.g.tail || f.fuel > 1 { ChaseKeeps(s, m, ch); } else { WarnKeeps(s, m, ch); }
      case ChaseRead => ChaseReadKeeps(s, m, ch);
      case ChaseSet => ChaseSetKeeps(s, m, ch);
      case ChaseInc => ChaseIncKeeps(s, m, ch);
      case Level => LevelKeeps(s, m, ch);
      case LevelRead => LevelReadKeeps(s, m, ch);
      case LevelSet => ChaseSetKeeps(s, m, ch);
      case Recheck => RecheckKeeps(s, m, ch);
      case Drop => DropKeeps(s, m, ch);
      case CheckCommits => LeaveKeeps(s, m, ch);
      case CheckCommitting => LeaveKeeps(s, m, ch);
      case Again => AgainKeeps(s, m, ch);
      case Restart => RestartKeeps(s, m, ch);
    }
  }

  lemma NextKeeps(s: State, m: map<nat, nat>, ch: Choice)
    requires Inv(s, m)
    ensures Inv(Next(s, ch), Settles(s, m, ch))
  {
    if ch.Interrupt? {
      if ch.len >= MIN_SIZE { InterruptKeeps(s, m, ch); }
    } else if |s.stack| > 0 {
      if InReserve(Top(s)) { ReservingKeeps(s, m, ch); }
      else if Pending(Top(s)) { CrossingKeeps(s, m, ch); }
      else { EndingKeeps(s, m, ch); }
      hide Inv, Next;
    }
  }

  lemma TopKnown(s: State, m: map<nat, nat>)
    requires Inv(s, m) && |s.stack| > 0
    ensures HasPage(Top(s)) ==> Top(s).tp in s.g.write
  {
    Unpack(s, m);
  }

  // ------------------------------------------------------------------------------------------
  // Main results: what holds after any sequence of choices.
  // ------------------------------------------------------------------------------------------

  /** The state after a run, the last choice applied last. */
  function After(size: nat, run: seq<Choice>): State {
    if |run| == 0 then Initial(size)
    else
      var s := After(size, run[..|run| - 1]);
      if Known(s) then Next(s, run[|run| - 1]) else s
  }

  /** The settled indices after a run. */
  function SettledAfter(size: nat, run: seq<Choice>): map<nat, nat> {
    if |run| == 0 then map[0 := 0]
    else
      var s, m := After(size, run[..|run| - 1]), SettledAfter(size, run[..|run| - 1]);
      if Known(s) then Settles(s, m, run[|run| - 1]) else m
  }

  lemma {:induction false} EveryRunInv(size: nat, run: seq<Choice>) returns (m: map<nat, nat>)
    requires size >= 2
    ensures Inv(After(size, run), m) && m == SettledAfter(size, run)
  {
    m := SettledAfter(size, run);
    if |run| == 0 {
      InitialInv(size);
    } else {
      var m0 := EveryRunInv(size, run[..|run| - 1]);
      NextKeeps(After(size, run[..|run| - 1]), m0, run[|run| - 1]);
    }
  }

  /** The commit position stands at or before the first byte of every open reservation, and open
      reservations lie inside their page and do not overlap, however deep the nesting. */
  lemma CommitNeverPassesOpenReservation(size: nat, run: seq<Choice>, i: nat)
    requires size >= 2
    requires i < |After(size, run).stack| && Open(After(size, run).stack[i])
    ensures var s := After(size, run); var f := s.stack[i];
      && s.g.commit in s.g.cidx
      && (s.g.commit < f.tp || (s.g.commit == f.tp && s.g.cidx[s.g.commit] <= f.pos))
      && f.pos + f.len <= PAGE
      && forall j :: i < j < |s.stack| && Open(s.stack[j]) && s.stack[j].tp == f.tp ==> f.pos + f.len <= s.stack[j].pos
  {
    var s := After(size, run);
    var m := EveryRunInv(size, run);
    assert FrameAt(s.g, m, s.stack, i);
    forall j | i < j < |s.stack| && Open(s.stack[j]) && s.stack[j].tp == s.stack[i].tp
      ensures s.stack[i].pos + s.stack[i].len <= s.stack[j].pos
    {
      assert PairAt(s.g.commit, s.g.commits, s.stack, i, j);
    }
  }

  /** When nobody is left in `committing` and nobody is about to go round again — in particular
      when the outermost writer has left tb_end_commit — commit_page is tail_page and the commit
      index is the write index, even if the interrupt-storm warning of tb_set_commit_to_write fired. */
  lemma NoCommitDangles(size: nat, run: seq<Choice>)
    requires size >= 2
    requires var s := After(size, run); s.g.committing == 0 && forall f :: f in s.stack ==> !Redo(f)
    ensures var s := After(size, run); Clean(s.g)
  {
    var m := EveryRunInv(size, run);
  }

  lemma OutermostLeavesClean(size: nat, run: seq<Choice>)
    requires size >= 2 && After(size, run).stack == []
    ensures var s := After(size, run); s.g.committing == 0 && Clean(s.g)
  {
    var m := EveryRunInv(size, run);
  }

  /** Readers never see past a page: commit indices stay within the page, every page the commit
      position has passed is committed to its last written byte, and the tail never catches up with
      the commit page from behind, so no two pages in use share memory. */
  lemma CommittedPagesAreWhole(size: nat, run: seq<Choice>)
    requires size >= 2
    ensures var g := After(size, run).g;
      && g.commit <= g.tail < g.commit + g.size
      && g.commit in g.cidx && g.cidx[g.commit] <= PAGE
      && forall p :: p in g.cidx && p < g.commit ==> p in g.write && g.cidx[p] == g.write[p].idx
  {
    var m := EveryRunInv(size, run);
    assert m[After(size, run).g.commit] <= PAGE;
  }

  /** `committing` counts exactly the writers between tb_start_commit and the end of tb_end_commit. */
  lemma CommittingCountsWriters(size: nat, run: seq<Choice>)
    requires size >= 2
    ensures After(size, run).g.committing == Count(After(size, run).stack)
  {
    var m := EveryRunInv(size, run);
  }
}
