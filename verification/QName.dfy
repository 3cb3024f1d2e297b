/** __get_dns_query (driver/LKM/include/util.h): a QNAME of sections 3.1 and 4.1.2 of RFC 1035 as a
    dotted name, in a zeroed buffer as long as the encoded string. */
module QName {
  import opened Bytes

  const DOT: byte := 46

  /** The byte written for position i >= 1: a dot where a length byte stands, else the byte itself.
      `left` is how much of the current label is still to come. */
  function Spell(s: seq<byte>, left: int): seq<byte>
    decreases |s|
  {
    if s == [] then []
    else if left == 0 then [DOT] + Spell(s[1..], s[0])
    else [s[0]] + Spell(s[1..], left - 1)
  }

  lemma {:induction false} SpellLength(s: seq<byte>, left: int)
    ensures |Spell(s, left)| == |s|
    decreases |s|
  {
    if s != [] { SpellLength(s[1..], if left == 0 then s[0] else left - 1); }
  }

  lemma SpellNone()
    ensures forall left :: Spell([], left) == []
  {
  }

  lemma SpellOn(done: seq<byte>, s: seq<byte>, i: nat, left: int)
    requires i < |s|
    ensures done + Spell(s[i..], left) ==
      if left == 0 then done + [DOT] + Spell(s[i + 1..], s[i]) else done + [s[i]] + Spell(s[i + 1..], left - 1)
  {
    assert s[i..][1..] == s[i + 1..];
  }

  /** The loop of __get_dns_query over the string s; the buffer is as long as s. */
  method GetDnsQuery(s: seq<byte>, res: array<byte>)
    requires |s| > 0 && res.Length == |s| && forall k :: 0 <= k < |s| ==> res[k] == 0
    modifies res
    ensures |Spell(s[1..], s[0])| == |s| - 1 && res[..|s| - 1] == Spell(s[1..], s[0]) && res[|s| - 1] == 0
  {
    hide Spell;
    var flag: int := -1;
    ghost var done: seq<byte> := [];
    SpellLength(s[1..], s[0]);
    SpellNone();
    for i := 0 to |s|
      invariant i == 0 ==> flag == -1 && done == []
      invariant i > 0 ==> flag >= 0 && |done| == i - 1
      invariant i > 0 ==> done + Spell(s[i..], flag) == Spell(s[1..], s[0])
      invariant i > 0 ==> res[..i - 1] == done
      invariant forall k :: (if i == 0 then 0 else i - 1) <= k < |s| ==> res[k] == 0
    {
      if flag == -1 {
        flag := s[i];
        assert [] + Spell(s[1..], s[0]) == Spell(s[1..], s[0]);
      } else {
        SpellOn(done, s, i, flag);
        if flag == 0 {
          flag := s[i];
          res[i - 1] := DOT;
          done := done + [DOT];
        } else {
          res[i - 1] := s[i];
          flag := flag - 1;
          done := done + [s[i]];
        }
      }
    }
    assert s[|s|..] == [];
    assert done + [] == done;
  }

  /** udp_process_dns: the answers it looks at, and the name it hands on, NUL-terminated. */
  method ProcessDns(qr: bool, s: seq<byte>) returns (query: seq<byte>)
    ensures !qr || s == [] || |s| > 253 ==> query == []
    ensures qr && 1 <= |s| <= 253 ==> query == Spell(s[1..], s[0]) + [0]
  {
    if !qr { return []; }
    var n := |s|;
    if n == 0 || n > 253 { return []; }
    var res := new byte[n](_ => 0);
    GetDnsQuery(s, res);
    query := res[..];
    assert query == res[..n - 1] + [res[n - 1]];
  }

  // ------------------------------------------------------------------------------------------
  // Well-formed names.
  // ------------------------------------------------------------------------------------------

  /** A label: one to 63 bytes, none of them zero. */
  predicate Label(l: seq<byte>) { 1 <= |l| <= 63 && 0 !in l }

  predicate Labels(ls: seq<seq<byte>>) { forall i :: 0 <= i < |ls| ==> Label(ls[i]) }

  /** The encoding, up to its terminating zero. */
  function Encoded(ls: seq<seq<byte>>): seq<byte>
    requires Labels(ls)
  {
    if ls == [] then [] else [|ls[0]|] + ls[0] + Encoded(ls[1..])
  }

  /** The labels joined by dots. */
  function Dotted(ls: seq<seq<byte>>): seq<byte> {
    if ls == [] then [] else if |ls| == 1 then ls[0] else ls[0] + [DOT] + Dotted(ls[1..])
  }

  lemma {:induction false} SpellLabel(l: seq<byte>, rest: seq<byte>)
    ensures Spell(l + rest, |l|) == l + Spell(rest, 0)
    decreases |l|
  {
    if l == [] {
      assert l + rest == rest;
    } else {
      assert (l + rest)[1..] == l[1..] + rest;
      SpellLabel(l[1..], rest);
    }
  }

  lemma FirstLabel(ls: seq<seq<byte>>)
    requires Labels(ls) && ls != []
    ensures Encoded(ls) != [] && Encoded(ls)[0] == |ls[0]| && Encoded(ls)[1..] == ls[0] + Encoded(ls[1..])
    ensures 0 !in Encoded(ls[1..]) ==> 0 !in Encoded(ls)
  {
    assert Label(ls[0]);
    LabelFirst(ls[0], Encoded(ls[1..]));
  }

  lemma LabelFirst(l: seq<byte>, rest: seq<byte>)
    requires Label(l)
    ensures ([|l|] + l + rest)[1..] == l + rest && (0 !in rest ==> 0 !in [|l|] + l + rest)
  {
  }

  lemma NextLabel(l: seq<byte>, e: seq<byte>, d: seq<byte>)
    requires e != [] && Spell(e[1..], e[0]) == d
    ensures l + Spell(e, 0) == l + [DOT] + d
  {
  }

  /** Every well-formed name comes out as its labels joined by dots. */
  lemma {:induction false} WellFormedName(ls: seq<seq<byte>>)
    requires Labels(ls) && ls != []
    ensures Encoded(ls) != [] && 0 !in Encoded(ls) && Spell(Encoded(ls)[1..], Encoded(ls)[0]) == Dotted(ls)
    decreases |ls|
  {
    var l, e := ls[0], Encoded(ls[1..]);
    assert Label(l);
    FirstLabel(ls);
    SpellLabel(l, e);
    if |ls| == 1 {
      assert ls[1..] == [];
    } else {
      WellFormedName(ls[1..]);
      NextLabel(l, e, Dotted(ls[1..]));
    }
  }
}
