/** Which CPU's ring is read next (driver/LKM/src/trace.c): a scan over the possible CPUs that wraps
    around, starting behind the CPU that was read last. */
module CpuScan {
  import opened Options

  /** The set CPUs of mask from a up to b, in order. */
  function Members(mask: seq<bool>, a: nat, b: nat): seq<nat>
    requires a <= b <= |mask|
    decreases b - a
  {
    if a == b then [] else (if mask[a] then [a] else []) + Members(mask, a + 1, b)
  }

  /** cpumask_next: the next set CPU behind n, or the number of CPUs. */
  method CpumaskNext(n: int, mask: seq<bool>) returns (next: nat)
    requires -1 <= n < |mask|
    ensures n < next <= |mask| && (next < |mask| ==> mask[next]) && forall c :: n < c < next ==> !mask[c]
  {
    next := n + 1;
    while next < |mask| && !mask[next]
      invariant n < next <= |mask| && forall c :: n < c < next ==> !mask[c]
    {
      next := next + 1;
    }
  }

  /** Nothing is set from a to b. */
  lemma {:induction false} NoMembers(mask: seq<bool>, a: nat, b: nat)
    requires a <= b <= |mask| && forall c :: a <= c < b ==> !mask[c]
    ensures Members(mask, a, b) == []
    decreases b - a
  {
    if a < b { NoMembers(mask, a + 1, b); }
  }

  lemma {:induction false} MembersFrom(mask: seq<bool>, a: nat, c: nat, b: nat)
    requires a <= c <= b <= |mask| && forall d :: a <= d < c ==> !mask[d]
    ensures Members(mask, a, b) == Members(mask, c, b)
    decreases c - a
  {
    if a < c { MembersFrom(mask, a + 1, c, b); }
  }

  /** What is still to come once the scan stands at n: the rest of the mask and then the part in
      front of start, or, having wrapped, only the rest of that part. */
  function ToCome(mask: seq<bool>, start: nat, n: int, wrapped: bool): seq<nat>
    requires start <= |mask| && -1 <= n < |mask|
  {
    if wrapped && n < start then if n + 1 <= start then Members(mask, n + 1, start) else []
    else Members(mask, n + 1, |mask|) + Members(mask, 0, start)
  }

  /** __cpumask_next_wrap: the first of what is still to come, or the number of CPUs if nothing is. */
  method NextWrap(n: int, mask: seq<bool>, start: nat, wrap: bool) returns (next: nat)
    requires start <= |mask| && -1 <= n < |mask| && (!wrap ==> n == start - 1)
    ensures var rest := ToCome(mask, start, n, wrap);
      if rest == [] then next == |mask|
      else next < |mask| && rest == [next] + ToCome(mask, start, next, true)
  {
    hide ToCome;
    var m, w := n, wrap;
    while true
      invariant -1 <= m < |mask| && ToCome(mask, start, m, w) == ToCome(mask, start, n, wrap) && (!w ==> m == start - 1)
      decreases if w && m == -1 then 0 else 1
    {
      next := CpumaskNext(m, mask);
      Look(mask, start, m, w, next);
      if w && m < start && next >= start { return |mask|; }
      if next < |mask| { return; }
      w, m := true, -1;
    }
  }

  /** What one call of cpumask_next tells about what is to come. */
  lemma Look(mask: seq<bool>, start: nat, n: int, wrapped: bool, next: nat)
    requires start <= |mask| && -1 <= n < next <= |mask| && (!wrapped ==> n == start - 1)
    requires (next < |mask| ==> mask[next]) && forall c :: n < c < next ==> !mask[c]
    ensures wrapped && n < start && next >= start ==> ToCome(mask, start, n, wrapped) == []
    ensures !(wrapped && n < start) && next >= |mask| ==>
      ToCome(mask, start, n, wrapped) == ToCome(mask, start, -1, true)
    ensures !(wrapped && n < start && next >= start) && next < |mask| ==>
      ToCome(mask, start, n, wrapped) == [next] + ToCome(mask, start, next, true)
  {
    if wrapped && n < start {
      if next >= start { NoMembers(mask, n + 1, start); } else { MembersFrom(mask, n + 1, next, start); }
    } else if next >= |mask| {
      NoMembers(mask, n + 1, |mask|);
    } else {
      MembersFrom(mask, n + 1, next, |mask|);
      assert [next] + Members(mask, next + 1, |mask|) + Members(mask, 0, start) ==
        [next] + (Members(mask, next + 1, |mask|) + Members(mask, 0, start));
    }
  }

  /** The CPUs in the order of the scan. */
  function Cycle(mask: seq<bool>, start: nat): seq<nat>
    requires start <= |mask|
  {
    Members(mask, start, |mask|) + Members(mask, 0, start)
  }

  /** The first of cs that can be read. */
  function FirstReadable(cs: seq<nat>, readable: nat -> bool): Option<nat> {
    if cs == [] then None else if readable(cs[0]) then Some(cs[0]) else FirstReadable(cs[1..], readable)
  }

  /** How many CPUs a scan that goes on behind `last` passes before it comes to c, of n CPUs.  Without a
      last CPU, or with one out of range, it begins with the first. */
  function Passed(c: nat, last: Option<int>, n: nat): (r: nat)
    ensures c < n ==> r < n
  {
    if last.None? || last.value < 0 || last.value >= n then c
    else if c > last.value then c - last.value - 1 else c - last.value - 1 + n
  }

  predicate CanRead(mask: seq<bool>, readable: nat -> bool, c: nat) { c < |mask| && mask[c] && readable(c) }

  /** The readable CPU that comes next behind `last`, if there is a readable one. */
  ghost predicate ComesNext(cpu: Option<nat>, last: Option<int>, mask: seq<bool>, readable: nat -> bool) {
    match cpu
    case None => forall c :: !CanRead(mask, readable, c)
    case Some(a) =>
      CanRead(mask, readable, a) &&
      forall c :: CanRead(mask, readable, c) ==> Passed(a, last, |mask|) <= Passed(c, last, |mask|)
  }

  /** __find_next_entry: the first readable CPU in cyclic order behind the one read last.
      `readable(c)` is whether the ring of CPU c is not empty and yields an event. */
  method FindNextEntry(last: Option<int>, mask: seq<bool>, readable: nat -> bool) returns (cpu: Option<nat>)
    requires |mask| > 0
    ensures cpu == FirstReadable(Cycle(mask, StartBehind(last, |mask|)), readable)
    ensures ComesNext(cpu, last, mask, readable)
  {
    hide ToCome, Cycle, ComesNext;
    FirstComesNext(last, mask, readable);
    var start: int := 0;
    if last.Some? {
      start := last.value + 1;
      if start >= |mask| { start := 0; } else if start < 0 { start := 0; }
    }
    AllToCome(mask, start);
    ghost var rest: seq<nat> := Cycle(mask, start);
    var c: nat := NextWrap(start - 1, mask, start, false);
    while c < |mask|
      invariant FirstReadable(rest, readable) == FirstReadable(Cycle(mask, start), readable)
      invariant if rest == [] then c == |mask| else c < |mask| && rest == [c] + ToCome(mask, start, c, true)
      decreases |rest|
    {
      if readable(c) { return Some(c); }
      rest := rest[1..];
      c := NextWrap(c, mask, start, true);
    }
    return None;
  }

  lemma AllToCome(mask: seq<bool>, start: nat)
    requires start < |mask|
    ensures ToCome(mask, start, start - 1, false) == Cycle(mask, start)
  {
  }

  function StartBehind(last: Option<int>, n: nat): nat
    requires n > 0
    ensures StartBehind(last, n) < n
  {
    if last.None? || last.value + 1 >= n || last.value + 1 < 0 then 0 else last.value + 1
  }

  lemma {:induction false} MembersAre(mask: seq<bool>, a: nat, b: nat)
    requires a <= b <= |mask|
    ensures forall c :: c in Members(mask, a, b) <==> a <= c < b && mask[c]
    ensures forall i, j :: 0 <= i < j < |Members(mask, a, b)| ==> Members(mask, a, b)[i] < Members(mask, a, b)[j]
    decreases b - a
  {
    if a < b {
      MembersAre(mask, a + 1, b);
      var rest := Members(mask, a + 1, b);
      assert forall i :: 0 <= i < |rest| ==> rest[i] in rest;
    }
  }

  /** The scan comes by every set CPU exactly once: first those from start on in rising order, then
      those before start in rising order. */
  lemma EachOnce(mask: seq<bool>, start: nat)
    requires start <= |mask|
    ensures forall c :: c in Cycle(mask, start) <==> 0 <= c < |mask| && mask[c]
    ensures forall i, j :: 0 <= i < j < |Cycle(mask, start)| ==>
      Turn(Cycle(mask, start)[i], start, |mask|) < Turn(Cycle(mask, start)[j], start, |mask|)
  {
    var a, b := Members(mask, start, |mask|), Members(mask, 0, start);
    MembersAre(mask, start, |mask|);
    MembersAre(mask, 0, start);
    assert forall i :: 0 <= i < |a| ==> a[i] in a;
    assert forall i :: 0 <= i < |b| ==> b[i] in b;
  }

  /** How many steps behind start a CPU is, going around. */
  function Turn(c: nat, start: nat, n: nat): int { if c >= start then c - start else c + n - start }

  // ------------------------------------------------------------------------------------------
  // No CPU starves.
  // ------------------------------------------------------------------------------------------

  /** The first readable one of a list, said without walking it. */
  lemma {:induction false} FirstReadableIs(cs: seq<nat>, readable: nat -> bool) returns (i: nat)
    ensures FirstReadable(cs, readable).None? ==> forall k :: 0 <= k < |cs| ==> !readable(cs[k])
    ensures FirstReadable(cs, readable).Some? ==>
      i < |cs| && FirstReadable(cs, readable) == Some(cs[i]) && readable(cs[i])
        && forall k :: 0 <= k < i ==> !readable(cs[k])
  {
    i := 0;
    if cs != [] && !readable(cs[0]) {
      i := FirstReadableIs(cs[1..], readable);
      assert forall k :: 1 <= k < |cs| ==> cs[k] == cs[1..][k - 1];
      i := i + 1;
    }
  }

  lemma FirstComesNext(last: Option<int>, mask: seq<bool>, readable: nat -> bool)
    requires |mask| > 0
    ensures ComesNext(FirstReadable(Cycle(mask, StartBehind(last, |mask|)), readable), last, mask, readable)
  {
    hide Cycle, FirstReadable;
    var start := StartBehind(last, |mask|);
    var cs := Cycle(mask, start);
    EachOnce(mask, start);
    var i := FirstReadableIs(cs, readable);
    var cpu := FirstReadable(cs, readable);
    forall c | CanRead(mask, readable, c)
      ensures cpu.Some? && Passed(cpu.value, last, |mask|) <= Passed(c, last, |mask|)
    {
      var k :| 0 <= k < |cs| && cs[k] == c;
      assert cpu.Some? && i <= k;
      assert Turn(cs[i], start, |mask|) <= Turn(c, start, |mask|);
    }
    if cpu.Some? { assert cs[i] in cs; }
  }

  /** The CPU read last comes again only if no other is readable. */
  lemma LastComesLast(last: nat, mask: seq<bool>, readable: nat -> bool, c: nat)
    requires last < |mask| && ComesNext(Some(last), Some(last), mask, readable) && c != last
    ensures !CanRead(mask, readable, c)
  {
    assert Passed(last, Some(last), |mask|) == |mask| - 1;
  }

  /** One call after the other, each going on behind the CPU the one before it gave. */
  ghost predicate Calls(from: Option<int>, mask: seq<bool>, readable: seq<nat -> bool>, cpus: seq<nat>) {
    |cpus| <= |readable| && forall k :: 0 <= k < |cpus| ==> CallAt(from, mask, readable, cpus, k)
  }

  ghost predicate CallAt(from: Option<int>, mask: seq<bool>, readable: seq<nat -> bool>, cpus: seq<nat>, k: nat)
    requires k < |cpus| <= |readable|
  {
    ComesNext(Some(cpus[k]), if k == 0 then from else Some(cpus[k - 1]), mask, readable[k])
  }

  /** A CPU that stays readable is read within as many calls as the scan passes CPUs before it, and one
      more; so within as many as there are CPUs. */
  lemma {:induction false} NoneStarves(from: Option<int>, mask: seq<bool>, readable: seq<nat -> bool>, cpus: seq<nat>,
                                       c: nat)
    requires Calls(from, mask, readable, cpus) && |cpus| > Passed(c, from, |mask|)
    requires forall k :: 0 <= k < |cpus| ==> CanRead(mask, readable[k], c)
    ensures c in cpus
    decreases |cpus|
  {
    assert CallAt(from, mask, readable, cpus, 0) && CanRead(mask, readable[0], c);
    var a := cpus[0];
    if a != c {
      assert Passed(a, from, |mask|) <= Passed(c, from, |mask|);
      assert Passed(c, Some(a), |mask|) < Passed(c, from, |mask|);
      forall k | 0 <= k < |cpus| - 1 ensures CallAt(Some(a), mask, readable[1..], cpus[1..], k) {
        assert CallAt(from, mask, readable, cpus, k + 1);
      }
      NoneStarves(Some(a), mask, readable[1..], cpus[1..], c);
    }
  }
}
