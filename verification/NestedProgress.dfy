/** Nested writers come to an end: a writer that is left alone leaves, at the latest after the attempt
    that finds the tail page empty, and with all of them gone everything is committed. */
module NestedProgress {
  import opened NestedCommit

  /** What the writers do among themselves, with requests that fit on a page. */
  predicate Quiet(ch: Choice) { !ch.Interrupt? && (ch.Length? ==> ch.len <= PAGE) }

  /** The page at the tail has nothing on it yet, so any request fits. */
  predicate TailEmpty(g: Shared) { g.tail in g.write && g.write[g.tail].idx == 0 }

  /** The writer is about to publish an empty page. */
  predicate EmptyAhead(g: Shared, f: Frame) {
    && g.tail == f.tp && f.tp + 1 in g.write
    && (if f.pc.Test? || f.pc.Zero? then g.write[f.tp + 1] == f.seen else g.write[f.tp + 1].idx == 0)
  }

  // ------------------------------------------------------------------------------------------
  // The rank of a writer: attempts still to make, the stage of this one, and the rounds in that stage.
  // ------------------------------------------------------------------------------------------

  function Attempts(g: Shared, f: Frame): nat
    requires KnownFrame(g, f)
  {
    match f.pc
    case Fill | Unwind => 1
    case Begin | Started | Restart | Reserve => if TailEmpty(g) then 1 else 2
    case GotTail => if g.write[f.tp].idx + f.len <= PAGE then 1 else if g.tail == f.tp then 2 else 3
    case Cross | Bump => if g.tail == f.tp then 2 else 3
    case Test | Zero | ZeroCommit | Publish => if EmptyAhead(g, f) then 2 else 3
    case _ => if !f.again then 1 else if TailEmpty(g) then 2 else 3
  }

  function Stage(g: Shared, f: Frame): nat {
    match f.pc
    case Begin => 20
    case Started => 19
    case Restart => 18
    case Reserve => 17
    case GotTail => 16
    case Cross => 15
    case Bump => 14
    case Test => 13
    case Zero => 12
    case ZeroCommit => 11
    case Publish => 10
    case Fill => 9
    case Unwind => 8
    case Reset => 7
    case CheckCommitting => 5
    case Again => 4
    case End => 3
    case _ => if f.saved == g.commits then 2 else 5
  }

  /** The rounds of tb_set_commit_to_write: three steps a page, then those that level the index. */
  function Rounds(g: Shared, f: Frame): nat
    requires KnownShared(g)
  {
    var far := 4 * (g.tail - g.commit);
    var check := if far == 0 then 4 else far + 13;
    match f.pc
    case ReadCommitting => far + 13
    case Chase => far + 12
    case ChaseRead => far + 11
    case ChaseSet => far + 10
    case ChaseInc => far + 9
    case Level => if g.cidx[g.commit] == g.write[g.commit].idx then check + 1 else check + 4
    case LevelRead => check + 3
    case LevelSet => if f.val == g.write[g.commit].idx then check + 2 else check + 5
    case Recheck => check
    case Drop => 3
    case CheckCommits => 2
    case CheckCommitting => 1
    case _ => 0
  }

  /** A writer whose locals make sense. */
  predicate Ready(g: Shared, f: Frame) {
    && KnownShared(g) && KnownFrame(g, f) && f.len <= PAGE
    && (Pending(f) ==> f.pos + f.len > PAGE) && (f.pc.Publish? ==> f.tp + 1 in g.cidx)
    && (Chasing(f) ==> g.commit < g.tail)
  }

  predicate Nearer(g: Shared, f: Frame, g': Shared, f': Frame)
    requires Ready(g, f)
  {
    && KnownShared(g') && KnownFrame(g', f') && f'.len <= PAGE
    && Attempts(g', f') <= Attempts(g, f)
    && (Attempts(g', f') == Attempts(g, f) ==> Stage(g', f') <= Stage(g, f))
    && (Attempts(g', f') == Attempts(g, f) && Stage(g', f') == Stage(g, f) ==> Rounds(g', f') < Rounds(g, f))
  }

  /** The top writer has left, or has come nearer to it. */
  predicate Onward(s: State, t: State)
    requires |s.stack| > 0 && Ready(s.g, Top(s))
  {
    || t.stack == Below(s)
    || (|t.stack| > 0 && Below(t) == Below(s) && Nearer(s.g, Top(s), t.g, Top(t)))
  }

  lemma PutOnward(s: State, g': Shared, f': Frame)
    requires |s.stack| > 0 && Ready(s.g, Top(s)) && Nearer(s.g, Top(s), g', f')
    ensures Onward(s, Put(s, g', f'))
  {
    hide Nearer;
    var t := Put(s, g', f');
    assert Below(t) == Below(s) && Top(t) == f';
  }

  lemma LeftOnward(s: State, t: State)
    requires |s.stack| > 0 && Ready(s.g, Top(s)) && t.stack == Below(s)
    ensures Onward(s, t)
  {
  }

  lemma StartOnward(s: State, ch: Choice)
    requires |s.stack| > 0 && Known(s) && Ready(s.g, Top(s)) && InReserve(Top(s)) && !Open(Top(s)) && Quiet(ch)
    ensures Onward(s, Reserving(s, ch))
  {
    hide Onward, Known;
    var t := Reserving(s, ch);
    assert Below(t) == Below(s);
    PutOnward(s, t.g, Top(t));
  }

  lemma FillOnward(s: State, ch: Choice)
    requires |s.stack| > 0 && Known(s) && Ready(s.g, Top(s)) && Open(Top(s))
    ensures Onward(s, Reserving(s, ch))
  {
    hide Onward, Known;
    var t := Reserving(s, ch);
    assert Below(t) == Below(s);
    PutOnward(s, t.g, Top(t));
  }

  lemma EnterOnward(s: State, ch: Choice)
    requires |s.stack| > 0 && Known(s) && Ready(s.g, Top(s)) && (Top(s).pc.Cross? || Top(s).pc.Bump? || Top(s).pc.Test?)
    ensures Onward(s, Crossing(s, ch))
  {
    hide Onward, Known;
    var t := Crossing(s, ch);
    assert Below(t) == Below(s);
    PutOnward(s, t.g, Top(t));
  }

  lemma PublishOnward(s: State, ch: Choice)
    requires |s.stack| > 0 && Known(s) && Ready(s.g, Top(s))
    requires Top(s).pc.Zero? || Top(s).pc.ZeroCommit? || Top(s).pc.Publish? || Top(s).pc.Reset?
    ensures Onward(s, Crossing(s, ch))
  {
    hide Onward, Known;
    var t := Crossing(s, ch);
    assert Below(t) == Below(s);
    PutOnward(s, t.g, Top(t));
  }

  predicate InChase(f: Frame) { f.pc.Chase? || Chasing(f) }

  predicate InLevel(f: Frame) { f.pc.Level? || f.pc.LevelRead? || f.pc.LevelSet? || f.pc.Recheck? }

  lemma EndOnward(s: State)
    requires |s.stack| > 0 && Known(s) && Ready(s.g, Top(s)) && (Top(s).pc.End? || Top(s).pc.ReadCommitting?)
    ensures Onward(s, Ending(s))
  {
    hide Onward, Known;
    var t := Ending(s);
    assert Below(t) == Below(s);
    PutOnward(s, t.g, Top(t));
  }

  lemma ChaseOnward(s: State)
    requires |s.stack| > 0 && Known(s) && Ready(s.g, Top(s)) && InChase(Top(s))
    ensures Onward(s, Ending(s))
  {
    hide Onward, Known;
    var t := Ending(s);
    assert Below(t) == Below(s);
    PutOnward(s, t.g, Top(t));
  }

  lemma LevelOnward(s: State)
    requires |s.stack| > 0 && Known(s) && Ready(s.g, Top(s)) && InLevel(Top(s))
    ensures Onward(s, Ending(s))
  {
    hide Onward, Known;
    var t := Ending(s);
    assert Below(t) == Below(s);
    PutOnward(s, t.g, Top(t));
  }

  lemma DropOnward(s: State)
    requires |s.stack| > 0 && Known(s) && Ready(s.g, Top(s))
    requires Top(s).pc.Drop? || Top(s).pc.Again? || Top(s).pc.Restart?
    ensures Onward(s, Ending(s))
  {
    hide Onward, Known;
    var t := Ending(s);
    assert Below(t) == Below(s);
    PutOnward(s, t.g, Top(t));
  }

  lemma LeaveOnward(s: State)
    requires |s.stack| > 0 && Ready(s.g, Top(s)) && (Top(s).pc.CheckCommits? || Top(s).pc.CheckCommitting?)
    ensures Onward(s, Leave(s))
  {
    hide Onward, Put;
    if Top(s).again { PutOnward(s, s.g, Top(s).(pc := Restart)); } else { LeftOnward(s, State(s.g, Below(s))); }
  }

  lemma CheckOnward(s: State)
    requires |s.stack| > 0 && Known(s) && Ready(s.g, Top(s))
    requires Top(s).pc.CheckCommits? || Top(s).pc.CheckCommitting?
    ensures Onward(s, Ending(s))
  {
    hide Onward, Known, Put, Leave;
    var f, g := Top(s), s.g;
    if f.pc.CheckCommits? && g.commits != f.saved { PutOnward(s, g, f.(pc := CheckCommitting)); }
    else if f.pc.CheckCommitting? && g.committing == 0 { PutOnward(s, g, f.(pc := Again)); }
    else { LeaveOnward(s); }
  }

  lemma NextOnward(s: State, ch: Choice)
    requires |s.stack| > 0 && Known(s) && Ready(s.g, Top(s)) && Quiet(ch)
    ensures Onward(s, Next(s, ch))
  {
    hide Known, Ready, Onward, Reserving, Crossing, Ending;
    var f := Top(s);
    if Open(f) { FillOnward(s, ch); }
    else if InReserve(f) { StartOnward(s, ch); }
    else if f.pc.Cross? || f.pc.Bump? || f.pc.Test? { EnterOnward(s, ch); }
    else if Pending(f) { PublishOnward(s, ch); }
    else if f.pc.End? || f.pc.ReadCommitting? { EndOnward(s); }
    else if InChase(f) { ChaseOnward(s); }
    else if InLevel(f) { LevelOnward(s); }
    else if f.pc.CheckCommits? || f.pc.CheckCommitting? { CheckOnward(s); }
    else { DropOnward(s); }
  }

  // ------------------------------------------------------------------------------------------
  // Runs.
  // ------------------------------------------------------------------------------------------

  /** The first n of what happens. */
  function First(more: nat -> Choice, n: nat): seq<Choice> { seq(n, i requires 0 <= i => more(i)) }

  /** What happens from the n-th on. */
  function From(more: nat -> Choice, n: nat): nat -> Choice { (i: nat) => more(n + i) }

  lemma FirstBoth(more: nat -> Choice, n: nat, k: nat)
    ensures First(more, n + k) == First(more, n) + First(From(more, n), k)
  {
  }

  lemma RunReady(size: nat, run: seq<Choice>)
    requires size >= 2 && After(size, run).stack != [] && Top(After(size, run)).len <= PAGE
    ensures var s := After(size, run); Known(s) && Ready(s.g, Top(s))
  {
    hide Inv, Known, Ready;
    var m := EveryRunInv(size, run);
    InvReady(After(size, run), m);
  }

  lemma InvReady(s: State, m: map<nat, nat>)
    requires Inv(s, m) && s.stack != [] && Top(s).len <= PAGE
    ensures Known(s) && Ready(s.g, Top(s))
  {
    hide Mark, Count, Marks, Settled, PairAt, BumpAt;
    assert FrameAt(s.g, m, s.stack, |s.stack| - 1);
  }

  lemma RunOn(size: nat, run: seq<Choice>, ch: Choice)
    requires size >= 2 && After(size, run).stack != [] && Top(After(size, run)).len <= PAGE && Quiet(ch)
    ensures Known(After(size, run)) && Ready(After(size, run).g, Top(After(size, run)))
    ensures Onward(After(size, run), After(size, run + [ch]))
  {
    RunReady(size, run);
    NextOnward(After(size, run), ch);
    hide Next, Known, Ready, Onward;
    assert (run + [ch])[..|run|] == run;
  }

  /** The rank of the top writer after a run. */
  predicate Ranked(s: State, attempts: nat, stage: nat, rounds: nat) {
    && |s.stack| > 0 && Ready(s.g, Top(s))
    && attempts == Attempts(s.g, Top(s)) && stage == Stage(s.g, Top(s)) && rounds == Rounds(s.g, Top(s))
  }

  lemma {:induction false} LeavesByRank(size: nat, run: seq<Choice>, more: nat -> Choice, a: nat, b: nat, c: nat)
    returns (n: nat)
    requires size >= 2 && Ranked(After(size, run), a, b, c) && forall i :: Quiet(more(i))
    ensures After(size, run + First(more, n)).stack == Below(After(size, run))
    decreases a, b, c
  {
    hide After, Attempts, Stage, Rounds, Ready, KnownShared, KnownFrame;
    var s, t := After(size, run), After(size, run + [more(0)]);
    assert Top(s).len <= PAGE by { assert Ready(s.g, Top(s)); LenFits(s.g, Top(s)); }
    RunOn(size, run, more(0));
    if t.stack == Below(s) {
      n := 1;
      assert First(more, 1) == [more(0)];
    } else {
      RunReady(size, run + [more(0)]);
      var g, f, rest := t.g, Top(t), From(more, 1);
      n := LeavesByRank(size, run + [more(0)], rest, Attempts(g, f), Stage(g, f), Rounds(g, f));
      FirstBoth(more, 1, n);
      assert run + [more(0)] + First(rest, n) == run + First(more, 1 + n);
      n := n + 1;
    }
  }

  lemma LenFits(g: Shared, f: Frame)
    requires Ready(g, f)
    ensures f.len <= PAGE
  {
  }

  /** After every run the top writer, if its request fits on a page and nothing interrupts it, leaves in
      finitely many steps, whatever it commits or discards on the way. */
  lemma WriterLeaves(size: nat, run: seq<Choice>, more: nat -> Choice) returns (n: nat)
    requires size >= 2 && After(size, run).stack != [] && Top(After(size, run)).len <= PAGE
    requires forall i :: Quiet(more(i))
    ensures After(size, run + First(more, n)).stack == Below(After(size, run))
  {
    RunReady(size, run);
    hide After, Attempts, Stage, Rounds, Ready;
    var g, f := After(size, run).g, Top(After(size, run));
    n := LeavesByRank(size, run, more, Attempts(g, f), Stage(g, f), Rounds(g, f));
  }

  /** So all writers leave, if nothing interrupts them any more, and then all they wrote is committed. */
  lemma {:induction false} AllLeave(size: nat, run: seq<Choice>, more: nat -> Choice) returns (n: nat)
    requires size >= 2 && forall f :: f in After(size, run).stack ==> f.len <= PAGE
    requires forall i :: Quiet(more(i))
    ensures var s := After(size, run + First(more, n)); s.stack == [] && s.g.committing == 0 && Clean(s.g)
    decreases |After(size, run).stack|
  {
    hide After, Clean;
    if After(size, run).stack == [] {
      n := 0;
      assert run + First(more, 0) == run;
      OutermostLeavesClean(size, run);
    } else {
      var k := WriterLeaves(size, run, more);
      var rest := From(more, k);
      n := AllLeave(size, run + First(more, k), rest);
      FirstBoth(more, k, n);
      assert run + First(more, k) + First(rest, n) == run + First(more, k + n);
      n := k + n;
    }
  }

  // ------------------------------------------------------------------------------------------
  // Requests that fit on no page.
  // ------------------------------------------------------------------------------------------

  /** No interrupt, no giving up, and no attempt that would fit. */
  predicate Stubborn(ch: Choice) { !ch.Interrupt? && !ch.GiveUp? && (ch.Length? ==> ch.len > PAGE) }

  /** A writer that goes round and round: it crosses to the next page, commits it, and finds no room. */
  predicate Stuck(g: Shared, f: Frame) {
    && f.len > PAGE
    && match f.pc
       case Begin | Started | Restart | Reserve => g.commit == g.tail
       case GotTail | Cross | Bump | Test | Zero | ZeroCommit | Publish => g.commit == g.tail == f.tp
       case Fill | Unwind | CheckCommitting | Again => false
       case Reset | End => f.again
       case Drop | CheckCommits => f.again && f.saved == g.commits && g.commit == g.tail
       case _ => f.again && f.saved == g.commits
  }

  /** What is known of a writer that has interrupted nobody. */
  predicate Alone(g: Shared, f: Frame) {
    && g.size >= 2 && (Counted(f) ==> g.committing == 1) && (f.pc.Begin? ==> g.commit == g.tail)
    && (f.pc.Chase? && f.saved == g.commits ==> g.tail - g.commit < f.fuel)
  }

  lemma RunAlone(size: nat, run: seq<Choice>)
    requires size >= 2 && |After(size, run).stack| == 1
    ensures var s := After(size, run); Known(s) && Alone(s.g, Top(s))
  {
    var m := EveryRunInv(size, run);
    InvAlone(After(size, run), m);
    hide Inv, Known, Alone;
  }

  lemma InvAlone(s: State, m: map<nat, nat>)
    requires Inv(s, m) && |s.stack| == 1
    ensures Known(s) && Alone(s.g, Top(s))
  {
    hide Mark, Marks, PairAt, BumpAt;
    assert FrameAt(s.g, m, s.stack, 0);
    assert Count(s.stack[..0]) == 0;
  }

  /** It has not left, and goes on as before. */
  predicate Goes(t: State) { |t.stack| == 1 && Stuck(t.g, Top(t)) }

  lemma PutGoes(s: State, g: Shared, f: Frame)
    requires |s.stack| == 1 && Stuck(g, f)
    ensures Goes(Put(s, g, f))
  {
  }

  lemma ReservingGoes(s: State, ch: Choice)
    requires Known(s) && |s.stack| == 1 && Alone(s.g, Top(s)) && Stuck(s.g, Top(s)) && Stubborn(ch) && InReserve(Top(s))
    ensures Goes(Reserving(s, ch))
  {
    hide Goes, KnownShared, KnownFrame;
    var t := Reserving(s, ch);
    PutGoes(s, t.g, Top(t));
  }

  lemma CrossingGoes(s: State, ch: Choice)
    requires Known(s) && |s.stack| == 1 && Alone(s.g, Top(s)) && Stuck(s.g, Top(s)) && Pending(Top(s))
    ensures Goes(Crossing(s, ch))
  {
    hide Goes, KnownShared, KnownFrame;
    var t := Crossing(s, ch);
    PutGoes(s, t.g, Top(t));
  }

  lemma EndingGoes(s: State)
    requires Known(s) && |s.stack| == 1 && Alone(s.g, Top(s)) && Stuck(s.g, Top(s))
    requires !InReserve(Top(s)) && !Pending(Top(s)) && !Syncing(Top(s))
    ensures Goes(Ending(s))
  {
    hide Goes, KnownFrame;
    var t := Ending(s);
    PutGoes(s, t.g, Top(t));
  }

  lemma SyncingGoes(s: State)
    requires Known(s) && |s.stack| == 1 && Alone(s.g, Top(s)) && Stuck(s.g, Top(s)) && Syncing(Top(s))
    ensures Goes(Ending(s))
  {
    hide Goes, KnownFrame;
    var t := Ending(s);
    PutGoes(s, t.g, Top(t));
  }

  lemma BeginsStuck(s: State)
    requires |s.stack| == 1 && Alone(s.g, Top(s)) && Top(s).pc.Begin? && Top(s).len > PAGE
    ensures Goes(s)
  {
  }

  lemma GoesOn(size: nat, run: seq<Choice>, ch: Choice)
    requires size >= 2 && Goes(After(size, run)) && Stubborn(ch)
    ensures Goes(After(size, run + [ch]))
  {
    hide Known, Alone, Stuck, Reserving, Crossing, Ending;
    var s := After(size, run);
    RunAlone(size, run);
    assert (run + [ch])[..|run|] == run;
    if InReserve(Top(s)) { ReservingGoes(s, ch); }
    else if Pending(Top(s)) { CrossingGoes(s, ch); }
    else if Syncing(Top(s)) { SyncingGoes(s); }
    else { EndingGoes(s); }
  }

  /** So the bound on the length is needed: a writer alone on the ring that asks for more than a page
      does not leave until it gives up. */
  lemma {:induction false} OversizeStays(size: nat, run: seq<Choice>, more: nat -> Choice, n: nat)
    requires size >= 2 && |After(size, run).stack| == 1 && forall i :: Stubborn(more(i))
    requires Top(After(size, run)).pc.Begin? && Top(After(size, run)).len > PAGE
    ensures Goes(After(size, run + First(more, n)))
  {
    hide After, Known, Alone, Stuck, Next;
    if n == 0 {
      assert run + First(more, 0) == run;
      RunAlone(size, run);
      BeginsStuck(After(size, run));
    } else {
      OversizeStays(size, run, more, n - 1);
      GoesOn(size, run + First(more, n - 1), more(n - 1));
      assert run + First(more, n) == run + First(more, n - 1) + [more(n - 1)];
    }
  }
}
