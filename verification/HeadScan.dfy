/** tb_set_head_page against a writer that keeps pushing the head: when the scan gives up. */
module HeadScan {
  import opened HeadProtocol
  import opened RingMoves
  import opened TornRuns

  // ------------------------------------------------------------------------------------------
  // A scan gives up only if the writer pushes the head often enough meanwhile.
  // ------------------------------------------------------------------------------------------

  /** How often the writer moved the head on between states a and b of the run. */
  function Pushes(run: seq<State>, a: nat, b: nat): nat
    requires b < |run|
  {
    if b <= a then 0 else Pushes(run, a, b - 1) + (if run[b - 1].w.GotNewHead? && run[b].w.HeadSet? then 1 else 0)
  }

  /** How many pages the reader looked at between them. */
  function Looks(run: seq<State>, a: nat, b: nat): nat
    requires b < |run|
  {
    if b <= a then 0 else Looks(run, a, b - 1) + (if run[b].r != run[b - 1].r then 1 else 0)
  }

  /** From state a on the reader scans, starting from where it stands. */
  predicate ScansFrom(run: seq<State>, a: nat) {
    && a < |run| && run[a].r.Scanning? && run[a].r.page == run[a].r.start && run[a].r.round == 0
    && forall i :: a <= i < |run| ==> run[i].r.Scanning?
  }

  /** Pages looked at so far, with the page looked at next at position j of the ring and the page the
      scan started from at position e. */
  function Looked(n: nat, round: nat, j: nat, e: nat): nat
    requires e < n
  {
    round * n + (if j >= e then j - e else j + n - e)
  }

  /** The scan stays behind a head that was d pages ahead when it started and was pushed on since; the
      head is w times around the ring less j pages ahead of it. */
  ghost predicate Trails(n: nat, s: State, o: seq<nat>, d: nat, pushes: nat, j: nat, e: nat, w: nat) {
    && |o| == n && s.r.Scanning? && j < n && e < n && o[j] == s.r.page && o[e] == s.r.start && s.r.round <= 2
    && Looked(n, s.r.round, j, e) + w * n == d + pushes + j && Looked(n, s.r.round, j, e) <= d + pushes
  }

  lemma TwiceAround(n: nat, w: nat)
    ensures (w + 1) * n == w * n + n && (w > 0 ==> (w - 1) * n == w * n - n && w * n >= n)
  {
  }

  /** One look: the head page would have been found, whatever the writer is doing. */
  lemma LookOnward(n: nat, s: State, o: seq<nat>, t: int, c: int, j: nat)
    requires RingOf(n, s, o, t, c) && s.r.Scanning? && j < n && s.r.page == o[j] && !ReaderStep(s).r.Found?
    ensures j > 0
    ensures ReaderStep(s) == s.(r := if Succ(o, j) != s.r.start then s.r.(page := Succ(o, j))
      else if s.r.round < 2 then Scanning(Succ(o, j), s.r.start, s.r.round + 1) else Reading)
  {
    hide ReaderInv, WriterInv, At;
    var k := if j == 0 then |o| - 1 else j - 1;
    assert s.prev[o[j]] == o[k] && s.next[o[k]].to == o[j];
    assert s.next[o[k]].flag == RingFlag(PhaseOf(s.w), |o|, t, k);
    assert s.next[o[j]].to == Succ(o, j);
  }

  /** A look finds the head page, and the page the writer is just pushing it away from. */
  lemma LookFinds(n: nat, s: State, o: seq<nat>, t: int, c: int, j: nat)
    requires RingOf(n, s, o, t, c) && InBounds(s) && s.r.Scanning? && j < n && s.r.page == o[j]
    ensures ReaderStep(s).r.Found? <==> j == 0 || (s.w.HeadSet? && s.w.n == s.r.page)
  {
    hide ReaderInv, At;
    var k := if j == 0 then |o| - 1 else j - 1;
    assert s.prev[o[j]] == o[k] && s.next[o[k]].to == o[j];
    assert s.next[o[k]].flag == RingFlag(PhaseOf(s.w), |o|, t, k);
  }

  lemma TrailsLook(n: nat, s: State, o: seq<nat>, t: int, c: int, d: nat, pushes: nat, j: nat, e: nat, w: nat)
    returns (j': nat, w': nat)
    requires RingOf(n, s, o, t, c) && InBounds(s) && Trails(n, s, o, d, pushes, j, e, w) && !ReaderStep(s).r.Found?
    ensures ReaderStep(s).r != s.r && (ReaderStep(s).r.Scanning? || ReaderStep(s).r.Reading?)
    ensures ReaderStep(s).r.Scanning? ==>
      && Trails(n, ReaderStep(s), o, d, pushes, j', e, w')
      && Looked(n, ReaderStep(s).r.round, j', e) == Looked(n, s.r.round, j, e) + 1
    ensures !ReaderStep(s).r.Scanning? ==> d + pushes >= 3 * n && Looked(n, s.r.round, j, e) + 1 == 3 * n
  {
    LookOnward(n, s, o, t, c, j);
    j' := if j == n - 1 then 0 else j + 1;
    DistinctPages(n, s, o, t, c, j', e);
    DistinctPages(n, s, o, t, c, j', j);
    hide Inv, ReaderStep;
    TwiceAround(n, w);
    TwiceAround(n, s.r.round);
    w' := if j == n - 1 then w - 1 else w;
  }

  lemma DistinctPages(n: nat, s: State, o: seq<nat>, t: int, c: int, i: nat, k: nat)
    requires RingOf(n, s, o, t, c) && i < n && k < n
    ensures o[i] == o[k] <==> i == k
  {
    hide Flags, Backs, WriterInv, ReaderInv;
  }

  lemma TrailsPush(n: nat, s: State, o: seq<nat>, t: int, c: int, d: nat, pushes: nat, j: nat, e: nat, w: nat)
    returns (j': nat, e': nat, w': nat)
    requires n >= 2 && RingOf(n, s, o, t, c) && InBounds(s) && Trails(n, s, o, d, pushes, j, e, w) && s.w.GotNewHead?
    ensures WriterStep(s).w.HeadSet? && WriterStep(s).r == s.r
    ensures Trails(n, WriterStep(s), Rotate(o, o[0]), d, pushes + 1, j', e', w')
    ensures Looked(n, s.r.round, j', e') == Looked(n, s.r.round, j, e)
  {
    SecondSwapEffect(s, o, t, c);
    hide Inv, WriterStep;
    TwiceAround(n, w);
    j' := if j == 0 then n - 1 else j - 1;
    e' := if e == 0 then n - 1 else e - 1;
    w' := if j == 0 then w + 1 else w;
  }

  /** The writer's other steps change nothing here. */
  lemma TrailsStand(n: nat, s: State, o: seq<nat>, t: int, c: int)
    requires n >= 2 && RingOf(n, s, o, t, c) && InBounds(s) && !s.w.GotNewHead?
    ensures WriterStep(s).r == s.r && AfterWriter(s, Place(o, t, c)).o == o
  {
    hide Inv;
  }

  /** The reader's page is d pages behind the head page o[0] of the ring. */
  ghost predicate StartsBehind(n: nat, s: State, o: seq<nat>, d: nat) {
    && |o| == n && Cycle(s.next, Off(s), o) && o[n - 1] < |s.next| && s.next[o[n - 1]].flag != NORMAL
    && s.r.Scanning? && d < n && s.r.page == o[if d == 0 then 0 else n - d]
  }

  /** From a start with the head d pages ahead, to the end of the run. */
  lemma {:induction false} ScanTrails(n: nat, run: seq<State>, a: nat, o0: seq<nat>, t0: int, c0: int, d: nat, j0: nat,
                                      w0: nat)
    returns (o: seq<nat>, t: int, c: int, j: nat, e: nat, w: nat)
    requires Run(n, run) && ScansFrom(run, a) && RingOf(n, run[a], o0, t0, c0)
      && Trails(n, run[a], o0, d, 0, j0, j0, w0)
    ensures RingOf(n, run[|run| - 1], o, t, c)
    ensures Trails(n, run[|run| - 1], o, d, Pushes(run, a, |run| - 1), j, e, w)
    ensures e < n && run[|run| - 1].r.Scanning? && Looked(n, run[|run| - 1].r.round, j, e) == Looks(run, a, |run| - 1)
    decreases |run|
  {
    hide Inv, WriterStep, ReaderStep, InBounds;
    var k := |run| - 1;
    if k == a {
      o, t, c, j, e, w := o0, t0, c0, j0, j0, w0;
    } else {
      var before := run[..k];
      o, t, c, j, e, w := ScanTrails(n, before, a, o0, t0, c0, d, j0, w0);
      var s, s' := run[k - 1], run[k];
      assert Step(s, s') && run[..k][k - 1] == s;
      PushesPrefix(run, a, k, k - 1);
      LooksPrefix(run, a, k, k - 1);
      hide Trails, Looked;
      o, t, c, j, e, w := TrailsStep(n, s, s', o, t, c, d, Pushes(run, a, k - 1), j, e, w);
      TrailsIn(n, s', o, d, Pushes(run, a, k), j, e, w);
    }
  }

  lemma TrailsIn(n: nat, s: State, o: seq<nat>, d: nat, pushes: nat, j: nat, e: nat, w: nat)
    requires Trails(n, s, o, d, pushes, j, e, w)
    ensures |o| == n && s.r.Scanning? && j < n && e < n && o[j] == s.r.page
    ensures Looked(n, s.r.round, j, e) + w * n == d + pushes + j
  {
    hide Looked;
  }

  lemma StartsAt(n: nat, s: State, o: seq<nat>, t: int, c: int) returns (j: nat, d: nat, w: nat)
    requires RingOf(n, s, o, t, c) && s.r.Scanning? && s.r.page == s.r.start && s.r.round == 0
    ensures StartsBehind(n, s, o, d) && Trails(n, s, o, d, 0, j, j, w)
  {
    hide Backs, WriterInv, At;
    j :| 0 <= j < |o| && o[j] == s.r.page;
    d, w := if j == 0 then 0 else n - j, if j == 0 then 0 else 1;
    assert s.next[o[n - 1]].flag == RingFlag(PhaseOf(s.w), |o|, t, n - 1);
  }

  lemma {:induction false} PushesPrefix(run: seq<State>, a: nat, k: nat, b: nat)
    requires b < k <= |run|
    ensures Pushes(run[..k], a, b) == Pushes(run, a, b)
    decreases b
  {
    if b > a { PushesPrefix(run, a, k, b - 1); }
  }

  lemma {:induction false} LooksPrefix(run: seq<State>, a: nat, k: nat, b: nat)
    requires b < k <= |run|
    ensures Looks(run[..k], a, b) == Looks(run, a, b)
    decreases b
  {
    if b > a { LooksPrefix(run, a, k, b - 1); }
  }

  lemma TrailsStep(n: nat, s: State, s': State, o: seq<nat>, t: int, c: int, d: nat, pushes: nat, j: nat, e: nat,
                   w: nat)
    returns (o': seq<nat>, t': int, c': int, j': nat, e': nat, w': nat)
    requires n >= 2 && Step(s, s') && RingOf(n, s, o, t, c) && Trails(n, s, o, d, pushes, j, e, w) && s'.r.Scanning?
    ensures RingOf(n, s', o', t', c')
    ensures Trails(n, s', o', d, pushes + (if s.w.GotNewHead? && s'.w.HeadSet? then 1 else 0), j', e', w')
    ensures e < n && e' < n && s.r.Scanning?
    ensures Looked(n, s'.r.round, j', e') == Looked(n, s.r.round, j, e) + if s'.r != s.r then 1 else 0
  {
    hide Inv, WriterStep, ReaderStep, InBounds;
    j', e', w' := j, e, w;
    if s' == WriterStep(s) {
      WriterKeeps(s, o, t, c);
      var to := AfterWriter(s, Place(o, t, c));
      o', t', c' := to.o, to.t, to.c;
      if s.w.GotNewHead? {
        j', e', w' := TrailsPush(n, s, o, t, c, d, pushes, j, e, w);
      } else {
        TrailsStand(n, s, o, t, c);
      }
    } else {
      ReaderKeeps(s, o, t, c);
      o', t', c' := o, t, c;
      j', w' := TrailsLook(n, s, o, t, c, d, pushes, j, e, w);
      ScanLeavesWriter(s);
    }
  }

  lemma ScanLeavesWriter(s: State)
    requires InBounds(s) && s.r.Scanning?
    ensures ReaderStep(s).w == s.w
  {
  }

  /** If the reader gives up after three rounds, with the head d pages ahead of it when it started,
      the writer has pushed the head at least 3n - d times meanwhile, which is more than twice around
      the ring: with fewer pushes the scan finds it. */
  lemma GiveUpNeedsPushes(n: nat, run: seq<State>, a: nat) returns (o: seq<nat>, d: nat)
    requires Run(n, run) && |run| >= 2 && ScansFrom(run[..|run| - 1], a)
    requires InBounds(run[|run| - 2]) && run[|run| - 1] == ReaderStep(run[|run| - 2]) && run[|run| - 1].r.Reading?
    ensures StartsBehind(n, run[a], o, d) && Pushes(run, a, |run| - 2) >= 3 * n - d >= 2 * n + 1
  {
    hide Inv, WriterStep, ReaderStep, InBounds, Trails;
    var t0, c0, j0, w0;
    o, t0, c0, d, j0, w0 := ScanBegins(n, run, a);
    var before, s := run[..|run| - 1], run[|run| - 2];
    var o1, t, c, j, e, w := ScanTrails(n, before, a, o, t0, c0, d, j0, w0);
    assert before[|before| - 1] == s;
    PushesPrefix(run, a, |run| - 1, |run| - 2);
    var j', w' := TrailsLook(n, s, o1, t, c, d, Pushes(run, a, |run| - 2), j, e, w);
  }

  lemma ScanBegins(n: nat, run: seq<State>, a: nat) returns (o: seq<nat>, t: int, c: int, d: nat, j: nat, w: nat)
    requires Run(n, run) && a < |run| && run[a].r.Scanning? && run[a].r.page == run[a].r.start && run[a].r.round == 0
    ensures RingOf(n, run[a], o, t, c) && StartsBehind(n, run[a], o, d) && Trails(n, run[a], o, d, 0, j, j, w)
  {
    hide Inv, WriterStep, ReaderStep, InBounds, Trails, StartsBehind;
    var before := run[..a + 1];
    o, t, c := EveryRunKeepsTheRing(n, before);
    assert before[|before| - 1] == run[a];
    j, d, w := StartsAt(n, run[a], o, t, c);
  }

  /** The page looked at in state i of a scan that began in state a is the head page, which began d pages
      ahead, went one page further with every push and came one page closer with every look; or it is
      the page the writer is just pushing the head away from. */
  predicate Hits(n: nat, d: nat, run: seq<State>, a: nat, i: nat)
    requires n > 0 && i < |run|
  {
    || (d + Pushes(run, a, i) - Looks(run, a, i)) % n == 0
    || (run[i].w.HeadSet? && run[i].r.Scanning? && run[i].r.page == run[i].w.n)
  }

  lemma WholeTurns(n: nat, w: nat, j: nat)
    requires j < n
    ensures (w * n - j) % n == 0 <==> j == 0
  {
    var x := w * n - j;
    assert x == n * (x / n) + x % n;
    if j == 0 { OnlyQuotient(n, w, 0, x / n, x % n); } else { OnlyQuotient(n, w - 1, n - j, x / n, x % n); }
  }

  lemma OnlyQuotient(n: nat, q: int, r: nat, q': int, r': nat)
    requires r < n && r' < n && q * n + r == n * q' + r'
    ensures r == r'
  {
    if q < q' {
      AtLeastOne(n, q' - q);
    } else if q' < q {
      AtLeastOne(n, q - q');
    }
  }

  lemma AtLeastOne(n: nat, k: nat)
    requires k >= 1
    ensures k * n >= n
  {
  }

  /** One look of a scan, from its beginning: it finds a page exactly if it hits. */
  lemma LookHits(n: nat, run: seq<State>, a: nat, i: nat, o0: seq<nat>, t0: int, c0: int, d: nat, j0: nat, w0: nat)
    requires Run(n, run) && a <= i < |run| - 1 && ScansFrom(run[..|run| - 1], a) && run[i + 1].r != run[i].r
    requires RingOf(n, run[a], o0, t0, c0) && Trails(n, run[a], o0, d, 0, j0, j0, w0)
    ensures n > 0 && (Hits(n, d, run, a, i) <==> run[i + 1].r.Found?)
    ensures !run[i + 1].r.Scanning? && !run[i + 1].r.Found? ==> run[i + 1].r.Reading? && Looks(run, a, i + 1) == 3 * n
  {
    hide Inv, WriterStep, ReaderStep, InBounds, Trails, Looked;
    var before, s := run[..i + 1], run[i];
    assert ScansFrom(before, a) by { ScansPrefix(run, a, i); }
    var o, t, c, j, e, w := ScanTrails(n, before, a, o0, t0, c0, d, j0, w0);
    assert before[|before| - 1] == s;
    PushesPrefix(run, a, i + 1, i);
    LooksPrefix(run, a, i + 1, i);
    TrailsIn(n, s, o, d, Pushes(run, a, i), j, e, w);
    assert Step(s, run[i + 1]);
    ReaderMoved(n, s, run[i + 1], o, t, c);
    LookFinds(n, s, o, t, c, j);
    WholeTurns(n, w, j);
    if !run[i + 1].r.Found? {
      var j', w' := TrailsLook(n, s, o, t, c, d, Pushes(run, a, i), j, e, w);
    }
  }

  lemma ScansPrefix(run: seq<State>, a: nat, i: nat)
    requires a <= i < |run| - 1 && ScansFrom(run[..|run| - 1], a)
    ensures ScansFrom(run[..i + 1], a) && run[i].r.Scanning?
  {
    var long, short := run[..|run| - 1], run[..i + 1];
    forall k | a <= k < |short| ensures short[k].r.Scanning? { assert short[k] == long[k]; }
    assert short[a] == long[a] && run[i] == short[i];
  }

  lemma ReaderMoved(n: nat, s: State, s': State, o: seq<nat>, t: int, c: int)
    requires n >= 2 && Step(s, s') && s'.r != s.r && RingOf(n, s, o, t, c)
    ensures InBounds(s) && s' == ReaderStep(s)
  {
    hide Inv, ReaderStep;
    if s' == WriterStep(s) { WriterLeavesReader(s); }
  }

  lemma WriterLeavesReader(s: State)
    requires InBounds(s)
    ensures WriterStep(s).r == s.r
  {
  }

  /** Exactly how a scan ends.  None of its looks hits but possibly the last, and the last exactly if
      the scan finds a page.  So it gives up if and only if it made 3n looks and none of them hit. */
  lemma ScanOutcome(n: nat, run: seq<State>, a: nat) returns (o: seq<nat>, d: nat)
    requires Run(n, run) && |run| >= 2 && ScansFrom(run[..|run| - 1], a) && !run[|run| - 1].r.Scanning?
    ensures n > 0 && StartsBehind(n, run[a], o, d)
    ensures forall i :: a <= i < |run| - 2 && run[i + 1].r != run[i].r ==> !Hits(n, d, run, a, i)
    ensures if Hits(n, d, run, a, |run| - 2) then run[|run| - 1].r.Found? else run[|run| - 1].r.Reading?
    ensures run[|run| - 1].r.Reading? ==> Looks(run, a, |run| - 1) == 3 * n
  {
    hide Inv, WriterStep, ReaderStep, InBounds, Trails, StartsBehind, Hits, Run;
    var t0, c0, j0, w0;
    o, t0, c0, d, j0, w0 := ScanBegins(n, run, a);
    var m := |run| - 2;
    ScansPrefix(run, a, m);
    LookHits(n, run, a, m, o, t0, c0, d, j0, w0);
    forall i | a <= i < m && run[i + 1].r != run[i].r ensures !Hits(n, d, run, a, i) {
      LookHits(n, run, a, i, o, t0, c0, d, j0, w0);
      assert run[..|run| - 1][i + 1] == run[i + 1];
    }
  }

  // ------------------------------------------------------------------------------------------
  // And that many make it give up: on every ring the writer can stay one page ahead.
  // ------------------------------------------------------------------------------------------

  /** The reader is about to look at the last page of a full ring, with the page it started from at
      position e. */
  ghost predicate Chases(n: nat, run: seq<State>, o: seq<nat>, e: nat) {
    && n >= 2 && Run(n, run) && |o| == n && Paused(run[|run| - 1], o, n - 1) && e < n
    && var s := run[|run| - 1]; s.r.Scanning? && s.r.page == o[n - 1] && s.r.start == o[e] && s.r.round <= 2
  }

  /** The run ends with the reader giving up. */
  ghost predicate EndsInGiveUp(n: nat, run: seq<State>) {
    && Run(n, run) && |run| >= 2 && run[|run| - 2].r.Scanning? && run[|run| - 2].r.round == 2
    && run[|run| - 1].r.Reading? && InBounds(run[|run| - 2]) && run[|run| - 1] == ReaderStep(run[|run| - 2])
  }

  /** The rounds it has made. */
  function RoundOf(run: seq<State>): nat {
    if run != [] && run[|run| - 1].r.Scanning? then run[|run| - 1].r.round else 0
  }

  /** The reader looks there, and the writer pushes the head it looks at next ... */
  lemma LookAndPush(n: nat, run: seq<State>, o: seq<nat>, e: nat) returns (run': seq<State>, o': seq<nat>, e': nat)
    requires Chases(n, run, o, e)
    ensures !EndsInGiveUp(n, run') ==>
      && Chases(n, run', o', e')
      && if e == 0 then RoundOf(run') == RoundOf(run) + 1 else RoundOf(run') == RoundOf(run) && e' == e - 1
  {
    var s := run[|run| - 1];
    hide Paused, WriterStep, ReaderStep, InBounds, Inv;
    LooksOn(n, s, o, e);
    var s' := ReaderStep(s);
    run' := ThenReader(n, run, s');
    o', e' := Rotate(o, o[0]), if e == 0 then n - 1 else e - 1;
    hide Run;
    if s'.r.Scanning? {
      RotatedAt(o, e);
      hide Rotate;
      run' := PushOn(n, run', o);
    }
  }

  /** ... and so on to the end of the third round. */
  lemma {:induction false} StaysAhead(n: nat, run: seq<State>, o: seq<nat>, e: nat) returns (run': seq<State>)
    requires Chases(n, run, o, e)
    ensures EndsInGiveUp(n, run')
    decreases 2 - RoundOf(run), e
  {
    var o', e';
    run', o', e' := LookAndPush(n, run, o, e);
    if !EndsInGiveUp(n, run') {
      ChaseRound(n, run', o', e');
      hide Chases, RoundOf;
      run' := StaysAhead(n, run', o', e');
    }
  }

  lemma ChaseRound(n: nat, run: seq<State>, o: seq<nat>, e: nat)
    requires Chases(n, run, o, e)
    ensures RoundOf(run) <= 2
  {
    hide Run, Paused;
  }

  lemma RotatedAt(o: seq<nat>, e: nat)
    requires e < |o|
    ensures var o', n := Rotate(o, o[0]), |o|;
      |o'| == n && o'[n - 1] == o[0] && o'[if e == 0 then n - 1 else e - 1] == o[e]
  {
  }

  /** One look at the last page: the scan goes on to the first, or has done three rounds. */
  lemma LooksOn(n: nat, s: State, o: seq<nat>, e: nat)
    requires n >= 2 && |o| == n && Paused(s, o, n - 1) && e < n
    requires s.r.Scanning? && s.r.page == o[n - 1] && s.r.start == o[e] && s.r.round <= 2
    ensures InBounds(s)
    ensures var s' := ReaderStep(s);
      if s'.r.Scanning? then
        Paused(s', o, n - 1) && s'.r.page == o[0] && s'.r.start == o[e]
          && s'.r.round == (if e == 0 then s.r.round + 1 else s.r.round) <= 2
      else s'.r.Reading? && s.r.round == 2
  {
    InvBounds(s, o, n - 1, n - 1);
    NotHere(n, s, o);
    LookOnward(n, s, o, n - 1, n - 1, n - 1);
    ScanningKeeps(s, o, n - 1, n - 1);
    DistinctPages(n, s, o, n - 1, n - 1, 0, e);
  }

  lemma NotHere(n: nat, s: State, o: seq<nat>)
    requires n >= 2 && RingOf(n, s, o, n - 1, n - 1) && InBounds(s) && s.w.Writing? && s.r.Scanning?
      && s.r.page == o[n - 1]
    ensures !ReaderStep(s).r.Found?
  {
    LookAt(s, o, n - 1, n - 1, n - 1);
    hide Inv;
  }

  /** On every ring there is a run in which the reader gives up. */
  lemma GivesUp(n: nat) returns (run: seq<State>)
    requires n >= 2
    ensures Run(n, run) && |run| >= 2 && InBounds(run[|run| - 2]) && run[|run| - 1] == ReaderStep(run[|run| - 2])
    ensures run[|run| - 2].r.Scanning? && run[|run| - 2].r.round == 2 && run[|run| - 1].r.Reading?
  {
    var o := seq(n, (i: nat) => i);
    InitialInv(n);
    run := FillUp(n, [Initial(n)], o, 0);
    hide Run;
    run := PushOn(n, run, o);
    o := Rotate(o, o[0]);
    var s := run[|run| - 1];
    ScanStarts(s, o, n);
    run := ThenReader(n, run, ReaderStep(s));
    run := StaysAhead(n, run, o, n - 1);
  }
}
