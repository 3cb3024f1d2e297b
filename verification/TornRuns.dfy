/** Runs of the head-page protocol in which the reader tears the writer's reader-page test and the
    writer takes a page that is not free. */
module TornRuns {
  import opened HeadProtocol
  import opened RingMoves

  lemma ThenWriter(n: nat, run: seq<State>, s: State) returns (run': seq<State>)
    requires Run(n, run) && InBounds(run[|run| - 1]) && WriterStep(run[|run| - 1]) == s
    ensures Run(n, run') && run'[|run'| - 1] == s
  {
    run' := run + [s];
  }

  lemma ThenReader(n: nat, run: seq<State>, s: State) returns (run': seq<State>)
    requires Run(n, run) && InBounds(run[|run| - 1]) && ReaderStep(run[|run| - 1]) == s
    ensures Run(n, run') && run'[|run'| - 1] == s && run' == run + [s]
  {
    run' := run + [s];
  }

  // ------------------------------------------------------------------------------------------
  // On every ring of three pages or more, the writer can take the head page with its unread events.
  // ------------------------------------------------------------------------------------------

  /** The reader swaps out the first page, which the writer is still on, and pauses before it has
      fixed the prev pointer of the page behind it. */
  lemma PauseInSwap(n: nat) returns (run: seq<State>, o: seq<nat>)
    requires n >= 3
    ensures Run(n, run) && |o| == n && Paused(run[|run| - 1], o, -1)
    ensures var s := run[|run| - 1];
      s.r == Swapped(0) && s.headHint == 0 && s.next[0].to == o[0]
  {
    var o0 := seq(n, (i: nat) => i);
    var s := Initial(n);
    InitialInv(n);
    run := [s];
    hide Run;
    StartScanKeeps(s, o0, 0, 0);
    s := s.(r := Scanning(0, 0, 0)); run := ThenReader(n, run, s);
    ScanningKeeps(s, o0, 0, 0);
    s := s.(r := Found(0)); run := ThenReader(n, run, s);
    SpliceKeeps(s, o0, 0, 0);
    s := ReaderStep(s); run := ThenReader(n, run, s);
    assert s.next[s.prev[0]].flag == HEAD;
    SwapKeeps(s, o0, 0, 0);
    s := ReaderStep(s); run := ThenReader(n, run, s);
    o := Rotate(o0, n);
  }

  /** The writer fills the ring up to its last page ... */
  lemma {:induction false} FillUp(n: nat, run: seq<State>, o: seq<nat>, t: int) returns (run': seq<State>)
    requires Run(n, run) && Paused(run[|run| - 1], o, t) && |o| == n
    ensures Run(n, run') && n >= 2 && run'[|run'| - 1] == run[|run| - 1].(tail := o[n - 1], commit := o[n - 1])
    ensures Paused(run'[|run'| - 1], o, n - 1)
    decreases n - t
  {
    var h := run[|run| - 1];
    if t == n - 1 {
      run' := run;
    } else {
      FreeMove(h, o, t);
      hide Run, Follows, WriterStep, InBounds;
      var s := WriterStep(h); run' := ThenWriter(n, run, s);
      s := WriterStep(s); run' := ThenWriter(n, run', s);
      run' := ThenFollow(n, run', s, o, t);
      hide Paused;
      run' := FillUp(n, run', o, t + 1);
    }
  }

  lemma ThenFollow(n: nat, run: seq<State>, s: State, o: seq<nat>, t: int) returns (run': seq<State>)
    requires Run(n, run) && run[|run| - 1] == s && Follows(s, o, t)
    ensures Run(n, run') && run'[|run'| - 1] == s.(tail := s.w.n, commit := s.w.n, w := Writing)
      && Paused(run'[|run'| - 1], o, t + 1)
  {
    hide Run, Paused, WriterStep, InBounds;
    run' := Steps4(n, run, s);
    run' := ThenWriter(n, run', s.(tail := s.w.n, commit := s.w.n, w := Writing));
  }

  /** ... finds the head page next, */
  lemma MeetHead(n: nat, run: seq<State>, o: seq<nat>) returns (run': seq<State>)
    requires Run(n, run) && Paused(run[|run| - 1], o, n - 1) && |o| == n
    ensures var h := run[|run| - 1];
      Run(n, run') && n >= 2 && InBounds(h) && run'[|run'| - 1] == h.(w := CheckReader(o[0], h.prev[h.commit]))
    ensures var h := run[|run| - 1]; var s := run'[|run'| - 1];
      InBounds(s) && WriterStep(s) == h.(w := Handle(o[0])) && Inv(WriterStep(s), o, n - 1, n - 1)
  {
    var h := run[|run| - 1];
    FullApproach(h, o, n - 1);
    hide Run, Paused, WriterStep, InBounds, Inv;
    var s := WriterStep(h); run' := ThenWriter(n, run, s);
    s := WriterStep(s); run' := ThenWriter(n, run', s);
    s := WriterStep(s); run' := ThenWriter(n, run', s);
  }

  /** ... and pushes it, onto the page whose prev pointer is still the old one. */
  lemma PushOn(n: nat, run: seq<State>, o: seq<nat>) returns (run': seq<State>)
    requires Run(n, run) && Paused(run[|run| - 1], o, n - 1) && |o| == n
    ensures Run(n, run') && n >= 2 && Paused(run'[|run'| - 1], Rotate(o, o[0]), n - 1)
    ensures var h := run[|run| - 1]; var s := run'[|run'| - 1];
      s.r == h.r && s.headHint == h.headHint && s.reader == h.reader && |s.next| == |h.next|
      && forall p :: 0 <= p < |s.next| ==> s.next[p].to == h.next[p].to
  {
    hide Paused, Follows, WriterStep, InBounds, Inv, PushedLinks, Rotate;
    run' := MeetHead(n, run, o);
    var s := WriterStep(run'[|run'| - 1]); run' := ThenWriter(n, run', s);
    hide Run;
    FullPush(s, o, n - 1);
    PushedLeads(s, o, n);
    run' := Steps4(n, run', s);
    s := s.(next := PushedLinks(s, o), w := TailMoving(o[0]));
    Follow(s, Rotate(o, o[0]), n - 2);
    run' := ThenFollow(n, run', s, Rotate(o, o[0]), n - 2);
  }

  lemma PushedLeads(s: State, o: seq<nat>, n: nat)
    requires Inv(s, o, n - 1, n - 1) && |o| == n >= 2 && o[n - 1] < |s.next| && o[0] < |s.next|
    ensures |PushedLinks(s, o)| == |s.next| && forall p :: 0 <= p < |s.next| ==> PushedLinks(s, o)[p].to == s.next[p].to
    ensures |Rotate(o, o[0])| == n && Rotate(o, o[0])[n - 1] == o[0]
  {
    hide Flags, Backs, WriterInv, ReaderInv, InBounds;
    assert s.next[o[n - 1]].to == o[0] && s.next[o[0]].to == o[1];
  }

  lemma Steps4(n: nat, run: seq<State>, s: State) returns (run': seq<State>)
    requires Run(n, run) && run[|run| - 1] == s
    requires InBounds(s) && InBounds(WriterStep(s)) && InBounds(WriterStep(WriterStep(s)))
    requires InBounds(WriterStep(WriterStep(WriterStep(s))))
    ensures Run(n, run') && run'[|run'| - 1] == WriterStep(WriterStep(WriterStep(WriterStep(s))))
  {
    hide Run, WriterStep, InBounds;
    var s1 := WriterStep(s); run' := ThenWriter(n, run, s1);
    s1 := WriterStep(s1); run' := ThenWriter(n, run', s1);
    s1 := WriterStep(s1); run' := ThenWriter(n, run', s1);
    s1 := WriterStep(s1); run' := ThenWriter(n, run', s1);
  }

  /** The reader finishes that swap and looks for the head again ... */
  lemma ResumeScan(n: nat, run: seq<State>, o: seq<nat>) returns (run': seq<State>)
    requires n >= 3 && Run(n, run) && |o| == n && Inv(run[|run| - 1], o, n - 1, n - 1)
    requires var s := run[|run| - 1];
      s.w.CheckReader? && s.r == Swapped(0) && s.headHint == 0 && 0 < |s.next| && s.next[0].to == o[n - 1]
    ensures Run(n, run') && Inv(run'[|run'| - 1], o, n - 1, n - 1)
    ensures var s := run[|run| - 1]; var s' := run'[|run'| - 1];
      s'.w == s.w && s'.reader == 0 && s'.r == Scanning(o[n - 1], o[n - 1], 0)
  {
    var s := run[|run| - 1];
    InvBounds(s, o, n - 1, n - 1);
    FixShape(s);
    hide Run, Inv, InBounds, ReaderStep;
    PublishKeeps(s, o, n - 1, n - 1);
    s := ReaderStep(s); run' := ThenReader(n, run, s);
    InvBounds(s, o, n - 1, n - 1);
    DoneShape(s);
    PublishKeeps(s, o, n - 1, n - 1);
    s := ReaderStep(s); run' := ThenReader(n, run', s);
    InvBounds(s, o, n - 1, n - 1);
    ScanStarts(s, o, n);
    s := ReaderStep(s); run' := ThenReader(n, run', s);
  }

  lemma FixShape(s: State)
    requires InBounds(s) && s.r.Swapped?
    ensures ReaderStep(s) == s.(prev := s.prev[s.next[s.r.x].to := s.reader], r := Fixed(s.r.x))
  {
  }

  lemma DoneShape(s: State)
    requires InBounds(s) && s.r.Fixed?
    ensures ReaderStep(s) == s.(headHint := s.next[s.headHint].to, reader := s.r.x, r := Reading)
  {
  }

  lemma ScanStarts(s: State, o: seq<nat>, n: nat)
    requires |o| == n >= 2 && Inv(s, o, n - 1, n - 1) && s.r.Reading?
    ensures InBounds(s) && ReaderStep(s) == s.(r := Scanning(s.headHint, s.headHint, 0))
      && Inv(ReaderStep(s), o, n - 1, n - 1)
  {
    StartScanKeeps(s, o, n - 1, n - 1);
    hide Flags, WriterInv;
    var i :| 0 <= i < |o| && o[i] == s.pages;
    PrevLeadsBack(s, o, n - 1, n - 1, i);
  }

  lemma LookAt(s: State, o: seq<nat>, t: int, c: int, j: nat)
    requires Inv(s, o, t, c) && s.r.Scanning? && PhaseOf(s.w).Quiet? && j < |o| && s.r.page == o[j]
    ensures ReaderStep(s).w == s.w && ReaderStep(s).reader == s.reader
    ensures ReaderStep(s).r == Found(o[j]) <==> j == 0
    ensures j > 0 && Succ(o, j) != s.r.start ==> ReaderStep(s).r == s.r.(page := Succ(o, j))
  {
    hide ReaderInv, WriterInv;
    var k := if j == 0 then |o| - 1 else j - 1;
    assert s.prev[o[j]] == o[k] && s.next[o[k]].to == o[j];
    assert s.next[o[k]].flag == RingFlag(Quiet, |o|, t, k);
    assert s.next[o[j]].to == Succ(o, j);
  }

  /** ... which it finds one page on; linking its page in for it, it re-links the page the writer's
      test had loaded. */
  lemma Relink(n: nat, run: seq<State>, o: seq<nat>) returns (run': seq<State>)
    requires n >= 3 && Run(n, run) && |o| == n && Inv(run[|run| - 1], o, n - 1, n - 1)
    requires var s := run[|run| - 1];
      s.w == CheckReader(o[0], 0) && s.reader == 0 && s.r == Scanning(o[n - 1], o[n - 1], 0)
    ensures Run(n, run') && Inv(run'[|run'| - 1], o, n - 1, n - 1)
    ensures var s := run'[|run'| - 1];
      s.w == CheckReader(o[0], 0) && s.r == Spliced(o[0]) && 0 < |s.next| && s.next[0].to == o[1]
  {
    var s := run[|run| - 1];
    hide Run;
    assert Distinct(o);
    LookAt(s, o, n - 1, n - 1, n - 1);
    ScanningKeeps(s, o, n - 1, n - 1);
    s := ReaderStep(s); run' := ThenReader(n, run, s);
    LookAt(s, o, n - 1, n - 1, 0);
    ScanningKeeps(s, o, n - 1, n - 1);
    s := ReaderStep(s); run' := ThenReader(n, run', s);
    SpliceKeeps(s, o, n - 1, n - 1);
    assert s.next[o[0]].to == o[1];
    s := ReaderStep(s); run' := ThenReader(n, run', s);
  }

  /** With the ring full and the reader still in that swap, the writer's test loads the page being
      swapped out. */
  lemma LoadLaggingPrev(n: nat) returns (run: seq<State>, o: seq<nat>)
    requires n >= 3
    ensures Run(n, run) && |o| == n && Inv(run[|run| - 1], o, n - 1, n - 1)
    ensures var s := run[|run| - 1];
      s.w == CheckReader(o[0], 0) && s.r == Swapped(0) && s.headHint == 0 && 0 < |s.next| && s.next[0].to == o[n - 1]
  {
    run, o := PauseInSwap(n);
    hide Run;
    run := FillUp(n, run, o, -1);
    run := PushOn(n, run, o);
    o := Rotate(o, o[0]);
    var h := run[|run| - 1];
    run := MeetHead(n, run, o);
    assert h.prev[o[n - 1]] == 0;
    hide Flags, Backs, ReaderInv;
  }

  /** So on every ring of at least three pages there is a run in which the ring is full, commit is on
      the tail page, and yet the writer does not push the head but takes the head page, every event
      of which is unread. */
  lemma TornTakesHeadPage(n: nat) returns (run: seq<State>)
    requires n >= 3
    ensures Run(n, run)
    ensures var s := run[|run| - 1];
      && InBounds(s) && s.w.TailMoving? && s.commit == s.tail != s.reader
      && s.next[s.tail] == Link(s.w.n, HEAD) && TakesUsedPage(s)
  {
    var o;
    run, o := LoadLaggingPrev(n);
    hide Run;
    run := ResumeScan(n, run, o);
    run := Relink(n, run, o);
    var s := run[|run| - 1];
    CheckReaderKeeps(s, o, n - 1, n - 1);
    hide Backs, ReaderInv;
    assert s.next[o[n - 1]].flag == RingFlag(Quiet, n, n - 1, n - 1);
    run := ThenWriter(n, run, WriterStep(s));
  }

  // ------------------------------------------------------------------------------------------
  // On a ring of two pages, it can take the reader's own page.
  // ------------------------------------------------------------------------------------------

  /** The writer fills page 0 and moves to page 1 ... */
  lemma TornStart() returns (run: seq<State>)
    ensures Run(2, run)
    ensures run[|run| - 1] == State([Link(1, 0), Link(0, 1), Link(2, 0)], [1, 0, 2], 0, 0, 1, 1, 2, Writing, Reading)
  {
    var s := State([Link(1, 0), Link(0, 1), Link(2, 0)], [1, 0, 2], 0, 0, 0, 0, 2, Writing, Reading);
    assert s == Initial(2);
    InitialInv(2);
    var o := seq(2, (i: nat) => i);
    assert o == [0, 1];
    run := FillUp(2, [s], o, 0);
  }

  /** ... fills that too, and finds page 0 to be the head. */
  lemma TornPrefix() returns (run: seq<State>)
    ensures Run(2, run)
    ensures run[|run| - 1] ==
      State([Link(1, 0), Link(0, 1), Link(2, 0)], [1, 0, 2], 0, 0, 1, 1, 2, CheckReader(0, 0), Reading)
  {
    run := TornStart();
    var s := run[|run| - 1];
    hide Run;
    s := s.(w := GotNext(0)); run := ThenWriter(2, run, s);
    s := s.(w := SawHead(0)); run := ThenWriter(2, run, s);
    s := s.(w := CheckReader(0, 0)); run := ThenWriter(2, run, s);
  }

  /** The reader swaps page 0 out ... */
  lemma TornMiddle() returns (run: seq<State>)
    ensures Run(2, run)
    ensures run[|run| - 1] ==
      State([Link(1, 0), Link(2, 0), Link(1, 1)], [1, 2, 1], 1, 1, 1, 1, 0, CheckReader(0, 0), Reading)
  {
    run := TornPrefix();
    var s := run[|run| - 1];
    hide Run;
    s := s.(r := Scanning(0, 0, 0)); run := ThenReader(2, run, s);
    s := s.(r := Found(0)); run := ThenReader(2, run, s);
    s := s.(next := [Link(1, 0), Link(0, 1), Link(1, 1)], prev := [1, 0, 1], pages := 1, r := Spliced(0));
    run := ThenReader(2, run, s);
    s := s.(next := [Link(1, 0), Link(2, 0), Link(1, 1)], r := Swapped(0)); run := ThenReader(2, run, s);
    s := s.(prev := [1, 2, 1], r := Fixed(0)); run := ThenReader(2, run, s);
    s := s.(headHint := 1, reader := 0, r := Reading); run := ThenReader(2, run, s);
  }

  /** ... and prepares to swap page 1, redirecting page 0's link. */
  lemma TornRelink() returns (run: seq<State>)
    ensures Run(2, run)
    ensures run[|run| - 1] ==
      State([Link(2, 1), Link(2, 0), Link(1, 1)], [2, 2, 1], 2, 1, 1, 1, 0, CheckReader(0, 0), Spliced(1))
  {
    run := TornMiddle();
    var s := run[|run| - 1];
    hide Run;
    s := s.(r := Scanning(1, 1, 0)); run := ThenReader(2, run, s);
    s := s.(r := Found(1)); run := ThenReader(2, run, s);
    s := s.(next := [Link(2, 1), Link(2, 0), Link(1, 1)], prev := [2, 2, 1], pages := 2, r := Spliced(1));
    run := ThenReader(2, run, s);
  }

  /** On a ring of two pages, let the reader complete one swap and prepare the next while the
      writer stands between loading commit_page's prev pointer and following it.  The test then
      answers "commit is on the reader page" although it is not, the head is not pushed, and the
      writer takes the reader's own page as its new tail. */
  lemma TornReaderTest() returns (run: seq<State>)
    ensures Run(2, run)
    ensures var s := run[|run| - 1];
      s.w == WriterWarned(2601) && s.tail == s.reader && s.commit != s.reader
  {
    run := TornRelink();
    var s := run[|run| - 1];
    hide Run;
    s := s.(w := TailMoving(0)); run := ThenWriter(2, run, s);
    s := s.(tail := 0, w := Committing); run := ThenWriter(2, run, s);
    s := s.(w := CommitCheck(2)); run := ThenWriter(2, run, s);
    s := s.(w := WriterWarned(2601)); run := ThenWriter(2, run, s);
  }
}
