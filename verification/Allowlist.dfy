/** The execve allowlists of driver/LKM/src/filter.c: a search tree under strcmp, its record counter
    and the limit device_write puts on it. */
module Allowlist {
  import opened Bytes
  import opened Options
  import opened SearchTree

  const LIMIT := 128                    // ALLOWLIST_LIMIT
  const NODE_MIN := 5                   // ALLOWLIST_NODE_MIN
  const NODE_MAX := 4090                // ALLOWLIST_NODE_MAX

  /** strcmp */
  function StrCmp(a: seq<byte>, b: seq<byte>): int
    decreases |a|
  {
    if a == [] then if b == [] then 0 else -1
    else if b == [] then 1
    else if a[0] != b[0] then a[0] - b[0]
    else StrCmp(a[1..], b[1..])
  }

  lemma {:induction false} StrCmpZero(a: seq<byte>, b: seq<byte>)
    ensures StrCmp(a, b) == 0 <==> a == b
    ensures StrCmp(a, b) < 0 <==> StrCmp(b, a) > 0
    decreases |a|
  {
    if a != [] && b != [] {
      StrCmpZero(a[1..], b[1..]);
      assert a == [a[0]] + a[1..] && b == [b[0]] + b[1..];
    }
  }

  lemma {:induction false} StrCmpThrough(a: seq<byte>, b: seq<byte>, c: seq<byte>)
    requires StrCmp(a, b) < 0 && StrCmp(b, c) < 0
    ensures StrCmp(a, c) < 0
    decreases |a|
  {
    if a != [] && a[0] == b[0] == c[0] { StrCmpThrough(a[1..], b[1..], c[1..]); }
  }

  lemma StrCmpTotal()
    ensures Total(StrCmp)
  {
    forall a, b ensures (StrCmp(a, b) == 0 <==> a == b) && (StrCmp(a, b) < 0 <==> StrCmp(b, a) > 0) {
      StrCmpZero(a, b);
    }
    forall a, b, c | StrCmp(a, b) < 0 && StrCmp(b, c) < 0 ensures StrCmp(a, c) < 0 { StrCmpThrough(a, b, c); }
  }

  /** What device_write can be told to do to a list. */
  datatype Command = Add(s: seq<byte>) | Del(s: seq<byte>) | DelAll

  /** What it then does to the set of strings: additions stop once the limit is exceeded. */
  function Applied(items: set<seq<byte>>, len: nat, c: Command): set<seq<byte>> {
    if len < NODE_MIN || len > NODE_MAX then items
    else match c
      case Add(s) => if |items| > LIMIT then items else items + {s}
      case Del(s) => items - {s}
      case DelAll => {}
  }

  class List {
    var tree: Tree<seq<byte>, ()>
    var count: int

    ghost function Items(): set<seq<byte>>
      reads this
    {
      Keys(tree)
    }

    /** The counter is the size of the set, and one above the limit at most. */
    ghost predicate Valid()
      reads this
    {
      Sorted(tree, StrCmp) && count == |Items()| <= LIMIT + 1
    }

    constructor ()
      ensures Valid() && Items() == {}
    {
      tree, count := Leaf, 0;
    }

    /** exist_rb: membership in the set. */
    method Exists(s: seq<byte>) returns (r: bool)
      requires Valid()
      ensures r <==> s in Items()
    {
      StrCmpTotal();
      hide Total, Sorted;
      var node := Search(tree, StrCmp, s);
      return node.Some?;
    }

    /** execve_exe_check: the placeholders "-1" and "-2" and a missing string are never listed. */
    method Check(data: Option<seq<byte>>) returns (r: bool)
      requires Valid()
      ensures r <==> data.Some? && data.value != [0x2d, 0x31] && data.value != [0x2d, 0x32] && data.value in Items()
    {
      if data.None? || data.value == [0x2d, 0x31] || data.value == [0x2d, 0x32] { return false; }
      r := Exists(data.value);
    }

    /** add_execve_exe_allowlist: only a string that was not there is counted. */
    method AddRecord(s: seq<byte>) returns (rc: int)
      requires Valid() && count <= LIMIT
      modifies this
      ensures Valid() && Items() == old(Items()) + {s} && rc == if s in old(Items()) then 1 else 0
    {
      hide Sorted, Insert, Keys;
      var known := Exists(s);
      ItemInserted(tree, s);
      if known {
        assert Items() + {s} == Items();
        return 1;
      }
      tree, count, rc := Insert(tree, StrCmp, s, ()), count + 1, 0;
    }

    /** del_execve_exe_allowlist */
    method DelRecord(s: seq<byte>)
      requires Valid()
      modifies this
      ensures Valid() && Items() == old(Items()) - {s}
    {
      hide Sorted, Erase, Keys;
      var known := Exists(s);
      if known {
        ItemErased(tree, s);
        tree, count := Erase(tree, StrCmp, s), count - 1;
      }
    }

    /** device_write, of `len` bytes, for this list. */
    method Write(len: nat, c: Command)
      requires Valid()
      modifies this
      ensures Valid() && Items() == Applied(old(Items()), len, c)
    {
      hide Sorted;
      if len < NODE_MIN || len > NODE_MAX { return; }
      match c {
        case Add(s) =>
          if count > LIMIT { return; }
          var rc := AddRecord(s);
        case Del(s) => DelRecord(s);
        case DelAll =>
          Nothing();
          tree, count := Leaf, 0;
      }
    }
  }

  lemma ItemInserted(t: Tree<seq<byte>, ()>, s: seq<byte>)
    requires Sorted(t, StrCmp)
    ensures Sorted(Insert(t, StrCmp, s, ()), StrCmp) && Keys(Insert(t, StrCmp, s, ())) == Keys(t) + {s}
  {
    hide Total, Sorted, Insert, Keys, StrCmp;
    StrCmpTotal();
    Inserted(t, StrCmp, s, ());
    assert View(Insert(t, StrCmp, s, ())).Keys == View(t).Keys + {s};
  }

  lemma ItemErased(t: Tree<seq<byte>, ()>, s: seq<byte>)
    requires Sorted(t, StrCmp)
    ensures Sorted(Erase(t, StrCmp, s), StrCmp) && Keys(Erase(t, StrCmp, s)) == Keys(t) - {s}
  {
    hide Total, Sorted, Erase, StrCmp;
    StrCmpTotal();
    Erased(t, StrCmp, s);
    ErasedKeys(t, StrCmp, s);
  }

  lemma Nothing()
    ensures Sorted<seq<byte>, ()>(Leaf, StrCmp)
  {
  }

  // ------------------------------------------------------------------------------------------
  // Whole runs of commands.
  // ------------------------------------------------------------------------------------------

  function AppliedAll(items: set<seq<byte>>, run: seq<(nat, Command)>): set<seq<byte>>
    decreases |run|
  {
    if run == [] then items else AppliedAll(Applied(items, run[0].0, run[0].1), run[1..])
  }

  /** However many commands come, the list never holds more than one string above the limit ... */
  lemma {:induction false} NeverMoreThanOneOver(items: set<seq<byte>>, run: seq<(nat, Command)>)
    requires |items| <= LIMIT + 1
    ensures |AppliedAll(items, run)| <= LIMIT + 1
    decreases |run|
  {
    if run != [] {
      var next := Applied(items, run[0].0, run[0].1);
      if run[0].1.Del? { Smaller(next, items); }
      NeverMoreThanOneOver(next, run[1..]);
    }
  }

  lemma Smaller(a: set<seq<byte>>, b: set<seq<byte>>)
    requires a <= b
    ensures |a| <= |b|
  {
    assert b == a + (b - a);
  }

  function Additions(ss: seq<seq<byte>>): seq<(nat, Command)> {
    seq(|ss|, i requires 0 <= i < |ss| => (NODE_MIN, Add(ss[i])))
  }

  /** ... and it does take that one: the check is made before the addition. */
  lemma {:induction false} OneOverIsTaken(items: set<seq<byte>>, ss: seq<seq<byte>>)
    requires |items| + |ss| <= LIMIT + 1
    requires (forall i :: 0 <= i < |ss| ==> ss[i] !in items) && (forall i, j :: 0 <= i < j < |ss| ==> ss[i] != ss[j])
    ensures |AppliedAll(items, Additions(ss))| == |items| + |ss|
    decreases |ss|
  {
    if ss != [] {
      var next, run := items + {ss[0]}, Additions(ss);
      assert run[0] == (NODE_MIN, Add(ss[0])) && run[1..] == Additions(ss[1..]);
      assert Applied(items, NODE_MIN, Add(ss[0])) == next;
      OneOverIsTaken(next, ss[1..]);
    }
  }

  /** After all commands but the last, and then that one. */
  lemma {:induction false} AppliedLast(items: set<seq<byte>>, run: seq<(nat, Command)>, c: (nat, Command))
    ensures AppliedAll(items, run + [c]) == Applied(AppliedAll(items, run), c.0, c.1)
    decreases |run|
  {
    if run == [] {
      assert ([] + [c])[1..] == [];
    } else {
      assert (run + [c])[1..] == run[1..] + [c];
      AppliedLast(Applied(items, run[0].0, run[0].1), run[1..], c);
    }
  }

  /** Command i adds s: it is of an allowed length and the list is not over its limit by then. */
  predicate Gives(run: seq<(nat, Command)>, i: nat, s: seq<byte>)
    requires i < |run|
  {
    run[i].1 == Add(s) && 5 <= run[i].0 <= 4090 && |AppliedAll({}, run[..i])| <= 128
  }

  /** A command that takes s off the list. */
  predicate TakesOff(c: (nat, Command), s: seq<byte>) { (c.1 == Del(s) || c.1 == DelAll) && 5 <= c.0 <= 4090 }

  /** Among the first n commands, one added s and none behind it took s off again. */
  ghost predicate Stands(run: seq<(nat, Command)>, n: nat, s: seq<byte>)
    requires n <= |run|
  {
    exists i :: 0 <= i < n && Gives(run, i, s) && forall j :: i < j < n ==> !TakesOff(run[j], s)
  }

  lemma StandsOn(run: seq<(nat, Command)>, n: nat, s: seq<byte>)
    requires n < |run|
    ensures Stands(run, n + 1, s) <==> Gives(run, n, s) || (Stands(run, n, s) && !TakesOff(run[n], s))
  {
    hide Gives, TakesOff;
    if Stands(run, n, s) && !TakesOff(run[n], s) {
      var i :| 0 <= i < n && Gives(run, i, s) && forall j :: i < j < n ==> !TakesOff(run[j], s);
      assert forall j :: i < j < n + 1 ==> !TakesOff(run[j], s);
    }
    if Stands(run, n + 1, s) && !Gives(run, n, s) {
      var i :| 0 <= i < n + 1 && Gives(run, i, s) && forall j :: i < j < n + 1 ==> !TakesOff(run[j], s);
      assert i < n && !TakesOff(run[n], s);
    }
  }

  /** After any run of commands on an empty list, a string is listed exactly if it stands. */
  lemma {:induction false} ListedExactly(run: seq<(nat, Command)>, n: nat, s: seq<byte>)
    requires n <= |run|
    ensures s in AppliedAll({}, run[..n]) <==> Stands(run, n, s)
  {
    if n > 0 {
      ListedExactly(run, n - 1, s);
      StandsOn(run, n - 1, s);
      assert run[..n] == run[..n - 1] + [run[n - 1]];
      AppliedLast({}, run[..n - 1], run[n - 1]);
      hide AppliedAll, Stands;
    }
  }

  /** Any run of commands on an empty list, and the check that follows it. */
  method CheckAfter(run: seq<(nat, Command)>, data: Option<seq<byte>>) returns (r: bool)
    ensures r <==>
      data.Some? && data.value != [0x2d, 0x31] && data.value != [0x2d, 0x32] && Stands(run, |run|, data.value)
  {
    hide AppliedAll, Applied, Stands, Keys;
    var list := new List();
    NoneApplied();
    for i := 0 to |run|
      invariant fresh(list) && list.Valid() && list.Items() == AppliedAll({}, run[..i])
    {
      assert run[..i + 1] == run[..i] + [run[i]];
      AppliedLast({}, run[..i], run[i]);
      list.Write(run[i].0, run[i].1);
    }
    r := list.Check(data);
    if data.Some? { ListedExactly(run, |run|, data.value); }
  }

  lemma NoneApplied()
    ensures AppliedAll({}, []) == {}
  {
  }
}
