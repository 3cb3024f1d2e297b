/** What the head-page protocol does when one side runs alone: the writer's whole tail move and the
    reader's whole page swap, step by step, between two quiet states. */
module RingMoves {
  import opened HeadProtocol

  /** The writer is not in the middle of anything; the tail (and commit) page is at position t. */
  predicate Paused(h: State, o: seq<nat>, t: int) {
    Inv(h, o, t, t) && h.w.Writing?
  }

  /** Nor is the reader. */
  predicate Idle(h: State, o: seq<nat>, t: int) {
    Paused(h, o, t) && h.r.Reading?
  }

  lemma IdleFacts(h: State, o: seq<nat>, t: int)
    requires Idle(h, o, t)
    ensures |o| >= 2 && |h.next| == |o| + 1 && -1 <= t < |o| && h.reader !in o && Distinct(o)
    ensures h.tail == h.commit && (if t == -1 then h.tail == h.reader else h.tail == o[t])
    ensures h.reader <= |o| && forall i :: 0 <= i < |o| ==> o[i] <= |o|
    ensures h.headHint in o && InBounds(h)
  {
  }

  /** The links once the head has been pushed from o[0] to o[1]. */
  function PushedLinks(h: State, o: seq<nat>): seq<Link>
    requires |o| >= 2 && o[|o| - 1] < |h.next| && o[0] < |h.next|
  {
    h.next[o[|o| - 1] := Link(o[0], NORMAL)][o[0] := Link(o[1], HEAD)]
  }

  /** The writer moves on to a free page. */
  lemma FreeMove(h: State, o: seq<nat>, t: int)
    requires Paused(h, o, t) && t < |o| - 1
    ensures t >= -1
    ensures var n := o[t + 1];
      var s1 := h.(w := GotNext(n)); var s2 := h.(w := TailMoving(n));
      && InBounds(h) && WriterStep(h) == s1 && InBounds(s1) && WriterStep(s1) == s2 && Follows(s2, o, t)
  {
    var n := o[t + 1];
    var s1 := h.(w := GotNext(n)); var s2 := h.(w := TailMoving(n));
    assert WriterStep(h) == s1;
    WritingKeeps(h, o, t, t);
    assert WriterStep(s1) == s2;
    GotNextKeeps(s1, o, t, t);
    hide Inv, Follows;
    Follow(s2, o, t);
  }

  /** From publishing the next page as tail until commit has followed, step by step. */
  ghost predicate Follows(h: State, o: seq<nat>, t: int) {
    && h.w.TailMoving? && h.w.n < |h.prev|
    && var n := h.w.n;
       var s3 := h.(tail := n, w := Committing);
       var s4 := h.(tail := n, w := CommitCheck(h.prev[n]));
       var s5 := h.(tail := n, w := CommitMove);
       var s6 := h.(tail := n, commit := n, w := Committing);
       var s7 := h.(tail := n, commit := n, w := Writing);
       && InBounds(h) && WriterStep(h) == s3 && InBounds(s3) && WriterStep(s3) == s4
       && InBounds(s4) && WriterStep(s4) == s5 && InBounds(s5) && WriterStep(s5) == s6
       && InBounds(s6) && WriterStep(s6) == s7
       && Paused(s7, o, t + 1) && (h.r.Reading? ==> Idle(s7, o, t + 1))
  }

  /** The ring is full: the writer finds the head page next and is about to push it. */
  lemma FullApproach(h: State, o: seq<nat>, t: int)
    requires Paused(h, o, t) && t == |o| - 1
    ensures |o| >= 2
    ensures var n := o[0];
      var s1 := h.(w := GotNext(n)); var s2 := h.(w := SawHead(n));
      var s3 := h.(w := CheckReader(n, h.prev[h.commit])); var s4 := h.(w := Handle(n));
      && InBounds(h) && WriterStep(h) == s1 && InBounds(s1) && WriterStep(s1) == s2
      && InBounds(s2) && WriterStep(s2) == s3 && InBounds(s3) && WriterStep(s3) == s4
      && Inv(s4, o, t, t)
  {
    var n := o[0];
    var s1 := h.(w := GotNext(n)); var s2 := h.(w := SawHead(n));
    var s3 := h.(w := CheckReader(n, h.prev[h.commit]));
    assert WriterStep(h) == s1;
    WritingKeeps(h, o, t, t);
    assert WriterStep(s1) == s2;
    GotNextKeeps(s1, o, t, t);
    SawHeadKeeps(s2, o, t, t);
    PrevLeadsBack(h, o, t, t, t);
    assert WriterStep(s3) == h.(w := Handle(n));
    CheckReaderKeeps(s3, o, t, t);
  }

  /** The three cmpxchg of tb_handle_head_page. */
  lemma FullPush(h: State, o: seq<nat>, t: int)
    requires h.w.Handle? && Inv(h, o, t, t) && t == |o| - 1 && h.w.n == o[0]
    ensures |o| >= 2 && h.tail == o[t] && o[t] < |h.next| && o[0] < |h.next|
    ensures var n := o[0];
      var s5 := h.(next := h.next[o[t] := Link(n, UPDATE)], w := Updating(n, true));
      var s6 := s5.(w := GotNewHead(n, o[1], true));
      var s7 := s5.(next := h.next[o[t] := Link(n, UPDATE)][n := Link(o[1], HEAD)], w := HeadSet(n, true));
      var s8 := h.(next := PushedLinks(h, o), w := TailMoving(n));
      && InBounds(h) && WriterStep(h) == s5 && InBounds(s5) && WriterStep(s5) == s6
      && InBounds(s6) && WriterStep(s6) == s7 && InBounds(s7) && WriterStep(s7) == s8
      && Inv(s8, Rotate(o, o[0]), t - 1, t - 1)
  {
    var n := o[0];
    FullFacts(h, o, t);
    FirstSwapEffect(h, o, t, t);
    FirstSwapKeeps(h, o, t, t);
    var s5 := h.(next := h.next[o[t] := Link(n, UPDATE)], w := Updating(n, true));
    var s6 := s5.(w := GotNewHead(n, o[1], true));
    InvBounds(s5, o, t, t);
    assert WriterStep(s5) == s6;
    UpdatingKeeps(s5, o, t, t);
    InvBounds(s6, o, t, t);
    hide WriterStep, InBounds, Inv, Rotate;
    SecondSwapEffect(s6, o, t, t);
    SecondSwapKeeps(s6, o, t, t);
    var s7 := s5.(next := h.next[o[t] := Link(n, UPDATE)][n := Link(o[1], HEAD)], w := HeadSet(n, true));
    InvBounds(s7, Rotate(o, o[0]), t - 1, t - 1);
    ThirdEffect(h, o, t, s7);
    ThirdSwapKeeps(s7, Rotate(o, o[0]), t - 1, t - 1);
  }

  lemma FullFacts(h: State, o: seq<nat>, t: int)
    requires h.w.Handle? && Inv(h, o, t, t) && t == |o| - 1 && h.w.n == o[0]
    ensures |o| >= 2 && h.tail == o[t] && o[t] < |h.next| && o[0] < |h.next| && o[t] != o[0] && InBounds(h)
    ensures h.next[o[t]] == Link(o[0], HEAD) && h.next[o[0]].to == o[1]
  {
    hide Backs, ReaderInv;
  }

  lemma ThirdEffect(h: State, o: seq<nat>, t: int, s7: State)
    requires h.w.Handle? && Inv(h, o, t, t) && t == |o| - 1 && h.w.n == o[0] && |o| >= 2 && o[t] < |h.next|
      && o[0] < |h.next|
    requires s7 == h.(next := h.next[o[t] := Link(o[0], UPDATE)][o[0] := Link(o[1], HEAD)], w := HeadSet(o[0], true))
    requires InBounds(s7)
    ensures WriterStep(s7) == h.(next := PushedLinks(h, o), w := TailMoving(o[0]))
  {
    assert o[t] != o[0] && s7.tail == o[t];
    assert s7.next[o[t]] == Link(o[0], UPDATE);
    assert WriterStep(s7).next == s7.next[o[t] := Link(o[0], NORMAL)] == PushedLinks(h, o);
  }

  /** Publishing the page and letting commit follow, from a position t whose next page is n. */
  lemma Follow(h: State, o: seq<nat>, t: int)
    requires h.w.TailMoving? && Inv(h, o, t, t) && -1 <= t < |o| - 1 && h.w.n == o[t + 1]
    ensures Follows(h, o, t)
  {
    var n := h.w.n;
    var s3 := h.(tail := n, w := Committing);
    var s4 := h.(tail := n, w := CommitCheck(h.prev[n]));
    var s5 := h.(tail := n, w := CommitMove);
    var s6 := h.(tail := n, commit := n, w := Committing);
    TailMovingKeeps(h, o, t, t);
    CommittingKeeps(s3, o, t + 1, t);
    PrevLeadsBack(h, o, t, t, t + 1);
    assert WriterStep(s4) == s5;
    CommitCheckKeeps(s4, o, t + 1, t);
    CommitMoveKeeps(s5, o, t + 1, t);
    assert WriterStep(s5) == s6;
    CommittingKeeps(s6, o, t + 1, t + 1);
  }

  // --- the reader

  /** tb_set_head_page, run alone, looking at position j: only the head page matches. */
  lemma ScanLook(h: State, o: seq<nat>, t: int, j: nat)
    requires Idle(h, o, t) && j < |o|
    ensures o[j] < |h.prev| && h.prev[o[j]] < |h.next|
    ensures IsHeadPage(h, o[j], h.prev[o[j]]) != NORMAL <==> j == 0
    ensures o[j] < |h.next| && h.next[o[j]].to == Succ(o, j)
  {
    assert h.prev[o[j]] == Pred(o, j);
    var i := if j == 0 then |o| - 1 else j - 1;
    assert h.next[o[i]].flag == RingFlag(Quiet, |o|, t, i);
  }

  /** Its sanity check passes, and remembering the head page it found changes nothing else. */
  lemma ScanEnds(h: State, o: seq<nat>, t: int)
    requires Idle(h, o, t)
    ensures InBounds(h) && h.next[h.prev[h.pages]].to == h.pages
    ensures |o| > 0 && Idle(h.(headHint := o[0]), o, t)
    ensures t >= 0 ==> Inv(h.(headHint := o[0], r := Found(o[0])), o, t, t)
  {
    assert exists i :: 0 <= i < |o| && o[i] == h.pages;
    var i :| 0 <= i < |o| && o[i] == h.pages;
    PrevLeadsBack(h, o, t, t, i);
    hide Flags, Backs;
  }

  /** The state after a complete swap: the head page is the reader page, and the old reader page
      stands in its place in front of the new head. */
  function SwappedState(h: State, o: seq<nat>): State
    requires |o| >= 2 && o[|o| - 1] < |h.next| && h.reader < |h.next| && |h.prev| == |h.next| && o[1] < |h.prev|
  {
    h.(next := h.next[h.reader := Link(o[1], HEAD)][o[|o| - 1] := Link(h.reader, NORMAL)],
       prev := h.prev[h.reader := o[|o| - 1]][o[1] := h.reader],
       pages := o[|o| - 1], headHint := o[1], reader := o[0], r := Reading)
  }

  lemma SwapMoves(h: State, o: seq<nat>, t: int)
    requires |o| >= 2 && Inv(h, o, t, t) && h.w.Writing? && h.r == Found(o[0])
    ensures o[|o| - 1] < |h.next| && h.reader < |h.next| && |h.prev| == |h.next| && o[1] < |h.prev| && t >= 0
    ensures InBounds(h)
    ensures InBounds(ReaderStep(h))
    ensures InBounds(ReaderStep(ReaderStep(h)))
    ensures var s3 := ReaderStep(ReaderStep(ReaderStep(h)));
      InBounds(s3) && ReaderStep(s3) == SwappedState(h, o)
    ensures Idle(SwappedState(h, o), Rotate(o, h.reader), t - 1)
  {
    SpliceMoves(h, o, t);
    SpliceShape(h);
    hide Inv, Rotate, InBounds, ReaderStep;
    var s1 := ReaderStep(h);
    InvBounds(s1, o, t, t);
    SwapEffect(s1, o, t, t);
    SwapKeeps(s1, o, t, t);
    var o' := Rotate(o, h.reader);
    var s2 := ReaderStep(s1);
    InvBounds(s2, o', t - 1, t - 1);
    PublishKeeps(s2, o', t - 1, t - 1);
    PublishShape(s2);
    var s3 := ReaderStep(s2);
    InvBounds(s3, o', t - 1, t - 1);
    PublishKeeps(s3, o', t - 1, t - 1);
    SwapSteps(h, o, s1, s2, s3);
  }

  lemma SpliceShape(h: State)
    requires InBounds(h) && h.r.Found?
    ensures ReaderStep(h).r == Spliced(h.r.x) && ReaderStep(h).w == h.w && ReaderStep(h).reader == h.reader
  {
  }

  lemma PublishShape(s: State)
    requires InBounds(s) && s.r.Swapped?
    ensures ReaderStep(s).r == Fixed(s.r.x) && ReaderStep(s).w == s.w
  {
  }

  /** The swap, once its compare-and-swap has succeeded. */
  lemma SwapSteps(h: State, o: seq<nat>, s1: State, s2: State, s3: State)
    requires |o| >= 2 && InBounds(h) && InBounds(s1) && InBounds(s2) && InBounds(s3)
    requires o[0] < |h.next| && o[1] < |h.prev| && o[|o| - 1] < |h.next| && h.reader != o[0] && o[0] != o[|o| - 1]
    requires h.r == Found(o[0]) && h.headHint == o[0] && h.next[o[0]].to == o[1] && h.prev[o[0]] == o[|o| - 1]
    requires s1 == ReaderStep(h) && s3 == ReaderStep(s2)
      && s2 == s1.(next := s1.next[o[|o| - 1] := Link(s1.reader, NORMAL)], r := Swapped(o[0]))
    ensures ReaderStep(s3) == SwappedState(h, o)
  {
    assert s2.next[o[0]].to == o[1];
    assert s3.next[s3.headHint].to == o[1];
  }

  lemma SpliceMoves(h: State, o: seq<nat>, t: int)
    requires Inv(h, o, t, t) && h.w.Writing? && |o| >= 2 && h.r == Found(o[0])
    ensures InBounds(h) && o[|o| - 1] < |h.next| && o[1] < |h.prev| && t >= 0 && o[0] < |h.next| && o[0] != o[1]
      && h.reader != o[|o| - 1]
    ensures h.next[o[0]].to == o[1] && h.prev[o[0]] == o[|o| - 1] && o[0] != o[|o| - 1] && h.reader != o[0]
      && h.headHint == o[0]
    ensures Inv(ReaderStep(h), o, t, t) && ReaderStep(h).next[ReaderStep(h).prev[o[0]]].flag == HEAD
  {
    SpliceKeeps(h, o, t, t);
    hide WriterInv;
    assert h.next[o[|o| - 1]].flag == RingFlag(Quiet, |o|, t, |o| - 1);
  }
}
