/** The switch that takes the udp_recvmsg probe off under load and puts it back
    (driver/LKM/src/smith_hook.c), run once a second by one worker thread. */
module DnsSwitch {
  import opened Bytes

  const DNS_THRESHOLD: nat := 800       // SMITH_DNS_THRESHOLD
  const UDP_THRESHOLD: nat := 80000     // SMITH_UDP_THRESHOLD
  const KRP_INTERVAL: nat := 10         // SMITH_DNS_KRP_INTERVAL
  const NET_INTERVAL: nat := 20         // SMITH_DNS_NET_INTERVAL

  /** A counter is an int that other CPUs count up, past its end if it comes to that ... */
  type counter = x: int | -0x8000_0000 <= x < 0x8000_0000

  function Wrap(total: int): counter {
    var x := total % TWO32;
    if x < 0x8000_0000 then x else x - TWO32
  }

  /** ... and is compared as an unsigned 64-bit number. */
  function Wide(x: counter): nat { if x < 0 then x + TWO64 else x }

  /** More than the threshold came in over `delta` seconds, if that is long enough to tell. */
  predicate TooMuch(krp: counter, ops: counter, delta: nat) {
    delta > KRP_INTERVAL && (Wide(krp) > delta * DNS_THRESHOLD % TWO64 || Wide(ops) > delta * UDP_THRESHOLD % TWO64)
  }

  predicate Quiet(ops: counter, delta: nat) { delta > NET_INTERVAL && Wide(ops) < delta * UDP_THRESHOLD % TWO64 }

  /** More seconds than any clock shows, and few enough for a 64-bit product. */
  const EVER: nat := 0x8000_0000_0000

  /** The counters count modulo 2^32, and the probe goes off above 800 calls of it or 80000 packets a
      second on average, over more than ten seconds, and in any case with a counter past 2^31 ... */
  lemma TooMuchExactly(calls: nat, packets: nat, delta: nat)
    requires delta < EVER
    ensures var c, p := calls % TWO32, packets % TWO32;
      TooMuch(Wrap(calls), Wrap(packets), delta) <==>
        delta > 10 && (c > 800 * delta || p > 80000 * delta || c >= 0x8000_0000 || p >= 0x8000_0000)
  {
  }

  /** ... and may come on below 80000 packets a second, over more than twenty. */
  lemma QuietExactly(packets: nat, delta: nat)
    requires delta < EVER
    ensures var p := packets % TWO32;
      Quiet(Wrap(packets), delta) <==> delta > 20 && p < 80000 * delta && p < 0x8000_0000
  {
  }

  /** The probe was registered or unregistered, between these two readings of the clock. */
  datatype Change = Change(on: bool, from: nat, until: nat)

  /** One change after another: they alternate, a disable comes more than ten seconds after the
      enable before it, an enable more than twenty after the disable before it. */
  predicate Spaced(a: Change, b: Change) {
    && a.on != b.on
    && b.from > a.until + (if b.on then NET_INTERVAL else KRP_INTERVAL)
  }

  ghost predicate Alternating(log: seq<Change>) {
    && (log != [] ==> log[0].on)
    && (forall i :: 0 <= i < |log| - 1 ==> Spaced(log[i], log[i + 1]))
  }

  lemma AlternatingGrows(log: seq<Change>, c: Change)
    requires Alternating(log) && (if log == [] then c.on else Spaced(log[|log| - 1], c))
    ensures Alternating(log + [c])
  {
    var more := log + [c];
    forall i | 0 <= i < |more| - 1 ensures Spaced(more[i], more[i + 1]) {
      if i < |log| - 1 { assert Spaced(log[i], log[i + 1]); }
    }
  }

  /** What the worker finds at one tick: what was counted since the last one, the hook switch, what
      registering would return and the two clock readings. */
  datatype Moment = Moment(krp: nat, ops: nat, hook: bool, rc: int, now: nat, later: nat)

  /** The probe, since when its traffic is counted, the counters, and how it was switched so far. */
  datatype Watch = Watch(on: bool, start: nat, krp: counter, ops: counter, log: seq<Change>)

  /** The counters have gone on. */
  function Counted(w: Watch, krp: nat, ops: nat): Watch { w.(krp := Wrap(w.krp + krp), ops := Wrap(w.ops + ops)) }

  /** What the worker is to do then: off on too much traffic, on again when it is quiet and the hook is
      wanted and registering works; and a window that was long enough to tell ends. */
  function Decided(w: Watch, hook: bool, rc: int, now: nat, later: nat): Watch {
    var delta := if now >= w.start then now - w.start else 0;
    if w.on then
      if TooMuch(w.krp, w.ops, delta) then Watch(false, later, 0, 0, w.log + [Change(false, now, later)])
      else if delta > KRP_INTERVAL then w.(start := later, krp := 0, ops := 0) else w
    else if hook && rc == 0 && Quiet(w.ops, delta) then Watch(true, later, 0, 0, w.log + [Change(true, now, later)])
    else if hook && delta > NET_INTERVAL then w.(start := later, krp := 0, ops := 0) else w
  }

  /** One tick ... */
  function Watched(w: Watch, m: Moment): Watch { Decided(Counted(w, m.krp, m.ops), m.hook, m.rc, m.now, m.later) }

  /** ... and all of them. */
  function WatchedAll(begin: nat, ms: seq<Moment>): Watch {
    if |ms| == 0 then Watch(false, begin, 0, 0, []) else Watched(WatchedAll(begin, ms[..|ms| - 1]), ms[|ms| - 1])
  }

  function Changes(begin: nat, ms: seq<Moment>): seq<Change> { WatchedAll(begin, ms).log }

  class Switch {
    var armed: bool
    var registered: bool
    var krp: counter
    var ops: counter
    var start: nat
    ghost var log: seq<Change>
    ghost var clock: nat

    /** Between ticks: armed says whether the probe is registered, which is what the log says; the
        counting started at or after the last change. */
    ghost predicate Valid()
      reads this
    {
      && armed == registered && Alternating(log) && start <= clock < TWO64
      && armed == (log != [] && log[|log| - 1].on)
      && (log != [] ==> log[|log| - 1].until <= start)
    }

    ghost function Seen(): Watch
      reads this
    {
      Watch(armed, start, krp, ops, log)
    }

    /** smith_dns_work_handler starts: the start time is set. */
    constructor (now: nat)
      requires now < TWO64
      ensures Valid() && Seen() == Watch(false, now, 0, 0, []) && clock == now
    {
      armed, registered, krp, ops, start := false, false, 0, 0, now;
      log, clock := [], now;
    }

    /** The interrupt handlers count, k calls of the probe and o packets. */
    method Count(k: nat, o: nat)
      requires Valid()
      modifies this`krp, this`ops
      ensures Valid() && Seen() == Counted(old(Seen()), k, o)
    {
      krp, ops := Wrap(krp + k), Wrap(ops + o);
    }

    /** smith_dns_kretprobe: off if too much came in. */
    method Kretprobe(now: nat, later: nat)
      requires Valid() && armed && clock <= now <= later < TWO64
      modifies this
      ensures Valid() && clock == later
      ensures log == old(log) || log == old(log) + [Change(false, now, later)]
      ensures log != old(log) <==> TooMuch(old(krp), old(ops), now - old(start))
      ensures Seen() == Decided(old(Seen()), true, 0, now, later)
    {
      var delta := now - start;
      if delta > KRP_INTERVAL {
        if Wide(krp) > delta * DNS_THRESHOLD % TWO64 || Wide(ops) > delta * UDP_THRESHOLD % TWO64 {
          if armed {
            armed := false;
            registered := false;
            AlternatingGrows(log, Change(false, now, later));
            log := log + [Change(false, now, later)];
          }
        }
        krp, ops, start := 0, 0, later;
      }
      clock := later;
    }

    /** smith_dns_try_switch: on again once it is quiet.  `rc` is what registering returns. */
    method TrySwitch(hook: bool, rc: int, now: nat, later: nat)
      requires Valid() && clock <= now <= later < TWO64
      modifies this
      ensures Valid() && clock == later
      ensures log == old(log) || log == old(log) + [Change(true, now, later)]
      ensures log != old(log) <==> hook && !old(armed) && rc == 0 && Quiet(old(ops), now - old(start))
      ensures !old(armed) ==> Seen() == Decided(old(Seen()), hook, rc, now, later)
    {
      clock := later;
      if !hook || armed || registered { return; }
      var delta := now - start;
      if delta > NET_INTERVAL {
        if Wide(ops) < delta * UDP_THRESHOLD % TWO64 {
          if !armed {
            armed := true;
            if rc == 0 {
              registered := true;
              AlternatingGrows(log, Change(true, now, later));
              log := log + [Change(true, now, later)];
            } else {
              armed := false;
            }
          }
        }
        krp, ops, start := 0, 0, later;
      }
    }

    /** One round of the worker. */
    method Tick(hook: bool, rc: int, now: nat, later: nat)
      requires Valid() && clock <= now <= later < TWO64
      modifies this
      ensures Valid() && clock == later && Seen() == Decided(old(Seen()), hook, rc, now, later)
    {
      if armed && registered { Kretprobe(now, later); } else { TrySwitch(hook, rc, now, later); }
    }
  }

  ghost predicate ClockRuns(from: nat, ms: seq<Moment>) {
    && (forall i :: 0 <= i < |ms| ==> from <= ms[i].now <= ms[i].later < TWO64)
    && (forall i, j :: 0 <= i < j < |ms| ==> ms[i].later <= ms[j].now)
  }

  /** Every run of the worker: the switches are those the traffic calls for; registrations and
      unregistrations alternate, properly spaced, and in the end armed is the registration state. */
  method Run(begin: nat, ms: seq<Moment>) returns (armed: bool, registered: bool, ghost log: seq<Change>)
    requires begin < TWO64 && ClockRuns(begin, ms)
    ensures log == Changes(begin, ms)
    ensures armed == registered && Alternating(log) && (armed <==> |log| % 2 == 1)
  {
    hide Alternating, Decided, Counted;
    var s := new Switch(begin);
    for i := 0 to |ms|
      invariant s.Valid() && fresh(s) && s.clock == (if i == 0 then begin else ms[i - 1].later)
      invariant s.Seen() == WatchedAll(begin, ms[..i])
    {
      assert ms[..i + 1][..i] == ms[..i];
      s.Count(ms[i].krp, ms[i].ops);
      s.Tick(ms[i].hook, ms[i].rc, ms[i].now, ms[i].later);
    }
    assert ms[..|ms|] == ms;
    Parity(s.log, |s.log|);
    return s.armed, s.registered, s.log;
  }

  lemma {:induction false} Parity(log: seq<Change>, n: nat)
    requires Alternating(log) && n <= |log|
    ensures n > 0 ==> (log[n - 1].on <==> n % 2 == 1)
  {
    if n > 1 {
      Parity(log, n - 1);
      assert Spaced(log[n - 2], log[n - 2 + 1]);
    }
  }

  // ------------------------------------------------------------------------------------------
  // What the changes go by: whole windows and the traffic in them.
  // ------------------------------------------------------------------------------------------

  /** The calls of the probe and the packets counted from tick i on, up to tick k. */
  function CallsIn(ms: seq<Moment>, i: nat, k: nat): nat
    requires k <= |ms|
  {
    if k <= i then 0 else CallsIn(ms, i, k - 1) + ms[k - 1].krp
  }

  function PacketsIn(ms: seq<Moment>, i: nat, k: nat): nat
    requires k <= |ms|
  {
    if k <= i then 0 else PacketsIn(ms, i, k - 1) + ms[k - 1].ops
  }

  function OnBefore(begin: nat, ms: seq<Moment>, k: nat): bool
    requires k <= |ms|
  {
    WatchedAll(begin, ms[..k]).on
  }

  /** When a window begins that counts from tick i on: when the tick before it was over. */
  function Opened(begin: nat, ms: seq<Moment>, i: nat): nat
    requires i <= |ms|
  {
    if i == 0 then begin else ms[i - 1].later
  }

  /** Tick k is more than the interval behind the opening of a window that counts from tick i on: ten
      seconds with the probe on, twenty with it off, and then only if the hook is wanted. */
  predicate Closes(begin: nat, ms: seq<Moment>, i: nat, k: nat)
    requires i <= k < |ms|
  {
    var length := ms[k].now - Opened(begin, ms, i);
    if OnBefore(begin, ms, k) then length > 10 else ms[k].hook && length > 20
  }

  /** Before tick k the open window counts from tick i on. */
  ghost predicate Window(begin: nat, ms: seq<Moment>, i: nat, k: nat)
    requires i <= k <= |ms|
  {
    && WatchedAll(begin, ms[..k]).start == Opened(begin, ms, i)
    && WatchedAll(begin, ms[..k]).krp == Wrap(CallsIn(ms, i, k))
    && WatchedAll(begin, ms[..k]).ops == Wrap(PacketsIn(ms, i, k))
    && (forall j :: i <= j < k ==> !Closes(begin, ms, i, j) && (OnBefore(begin, ms, j) <==> OnBefore(begin, ms, k)))
  }

  lemma WrapOn(a: nat, b: nat)
    ensures Wrap(Wrap(a) + b) == Wrap(a + b)
  {
  }

  /** A tick that does not close the window leaves it open and the probe as it is ... */
  lemma WindowGoesOn(begin: nat, ms: seq<Moment>, i: nat, k: nat)
    requires i <= k < |ms| && Window(begin, ms, i, k) && !Closes(begin, ms, i, k) && ClockRuns(begin, ms)
    ensures Window(begin, ms, i, k + 1)
  {
    assert ms[..k + 1][..k] == ms[..k] && ms[..k + 1][k] == ms[k];
    WrapOn(CallsIn(ms, i, k), ms[k].krp);
    WrapOn(PacketsIn(ms, i, k), ms[k].ops);
    hide Wrap, TooMuch, Quiet;
    NotLong(begin, ms, i, k);
  }

  lemma NotLong(begin: nat, ms: seq<Moment>, i: nat, k: nat)
    requires i <= k < |ms| && !Closes(begin, ms, i, k) && ClockRuns(begin, ms)
    ensures var delta := ms[k].now - Opened(begin, ms, i);
      0 <= delta && if OnBefore(begin, ms, k) then delta <= KRP_INTERVAL else ms[k].hook ==> delta <= NET_INTERVAL
    ensures forall a: counter, b: counter, d: nat :: d <= KRP_INTERVAL ==> !TooMuch(a, b, d)
    ensures forall b: counter, d: nat :: d <= NET_INTERVAL ==> !Quiet(b, d)
  {
  }

  /** ... and one that closes it opens the next, and switches as the traffic in the window calls for. */
  lemma WindowCloses(begin: nat, ms: seq<Moment>, i: nat, k: nat)
    requires i <= k < |ms| && Window(begin, ms, i, k) && Closes(begin, ms, i, k) && ClockRuns(begin, ms)
    ensures Window(begin, ms, k + 1, k + 1)
    ensures var delta := ms[k].now - Opened(begin, ms, i);
      && 0 <= delta
      && (OnBefore(begin, ms, k + 1) <==>
            if OnBefore(begin, ms, k) then !TooMuch(Wrap(CallsIn(ms, i, k + 1)), Wrap(PacketsIn(ms, i, k + 1)), delta)
            else ms[k].rc == 0 && Quiet(Wrap(PacketsIn(ms, i, k + 1)), delta))
  {
    assert ms[..k + 1][..k] == ms[..k] && ms[..k + 1][k] == ms[k];
    WrapOn(CallsIn(ms, i, k), ms[k].krp);
    WrapOn(PacketsIn(ms, i, k), ms[k].ops);
    assert Wrap(0) == 0;
    hide Wrap, TooMuch, Quiet;
  }

  /** Every run, window by window: before any tick there is one open window.  A tick within the interval
      changes nothing.  One behind it switches the probe off exactly if more than 800 calls of it or
      80000 packets a second came in over the window, and on exactly if registering works and fewer
      than 80000 packets a second did; traffic is counted modulo 2^32, and 2^31 is always too much. */
  lemma {:induction false} SwitchesByTraffic(begin: nat, ms: seq<Moment>, k: nat) returns (i: nat)
    requires k < |ms| && ClockRuns(begin, ms)
    ensures i <= k && Window(begin, ms, i, k)
    ensures !Closes(begin, ms, i, k) ==> (OnBefore(begin, ms, k + 1) <==> OnBefore(begin, ms, k))
    ensures Closes(begin, ms, i, k) && ms[k].now < EVER ==>
      var delta := ms[k].now - Opened(begin, ms, i);
      var calls, packets := CallsIn(ms, i, k + 1) % TWO32, PacketsIn(ms, i, k + 1) % TWO32;
      if OnBefore(begin, ms, k) then
        OnBefore(begin, ms, k + 1) <==>
          calls <= 800 * delta && packets <= 80000 * delta && calls < 0x8000_0000 && packets < 0x8000_0000
      else OnBefore(begin, ms, k + 1) <==> ms[k].rc == 0 && packets < 80000 * delta && packets < 0x8000_0000
  {
    i := OpenWindow(begin, ms, k);
    hide Window, Wrap, TooMuch, Quiet, OnBefore;
    if Closes(begin, ms, i, k) {
      WindowCloses(begin, ms, i, k);
      var delta := ms[k].now - Opened(begin, ms, i);
      if ms[k].now < EVER {
        TooMuchExactly(CallsIn(ms, i, k + 1), PacketsIn(ms, i, k + 1), delta);
        QuietExactly(PacketsIn(ms, i, k + 1), delta);
      }
    } else {
      WindowGoesOn(begin, ms, i, k);
      WindowMeans(begin, ms, i, k);
    }
  }

  lemma WindowMeans(begin: nat, ms: seq<Moment>, i: nat, k: nat)
    requires i <= k < |ms| && Window(begin, ms, i, k + 1)
    ensures OnBefore(begin, ms, k) <==> OnBefore(begin, ms, k + 1)
  {
    assert !Closes(begin, ms, i, k);
  }

  lemma {:induction false} OpenWindow(begin: nat, ms: seq<Moment>, k: nat) returns (i: nat)
    requires k <= |ms| && ClockRuns(begin, ms)
    ensures i <= k && Window(begin, ms, i, k)
  {
    if k == 0 {
      assert ms[..0] == [] && Wrap(0) == 0;
      i := 0;
    } else {
      i := OpenWindow(begin, ms, k - 1);
      hide Window, OnBefore;
      if Closes(begin, ms, i, k - 1) {
        WindowCloses(begin, ms, i, k - 1);
        i := k;
      } else {
        WindowGoesOn(begin, ms, i, k - 1);
      }
    }
  }
}
