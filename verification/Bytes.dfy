/** Bytes and little-endian words, shared by the kernel and the agent models. */
module Bytes {
  type byte = x: int | 0 <= x < 256

  const TWO32: nat := 0x1_0000_0000
  const TWO63: nat := 0x8000_0000_0000_0000
  const TWO64: nat := 0x1_0000_0000_0000_0000

  function Align4(n: nat): nat { (n + 3) / 4 * 4 }

  /** A little-endian 32-bit word. */
  function GetU32(d: seq<byte>, i: nat): nat
    requires i + 4 <= |d|
  {
    d[i] as int + 256 * (d[i + 1] as int + 256 * (d[i + 2] as int + 256 * (d[i + 3] as int)))
  }

  function Word(v: nat): (r: seq<byte>)
    requires v < TWO32
    ensures |r| == 4
  {
    var a := v / 256; var b := a / 256; var c := b / 256;
    [v % 256, a % 256, b % 256, c]
  }

  /** Overwrite the bytes from i on. */
  function Splice(d: seq<byte>, i: nat, b: seq<byte>): (r: seq<byte>)
    requires i + |b| <= |d|
    ensures |r| == |d|
    ensures forall k :: 0 <= k < |d| ==> r[k] == if i <= k < i + |b| then b[k - i] else d[k]
  {
    d[..i] + b + d[i + |b|..]
  }

  lemma SmallWord(v: nat)
    requires v < 256
    ensures Word(v) == [v, 0, 0, 0]
  {
  }

  lemma WordReads(d: seq<byte>, i: nat, v: nat)
    requires i + 4 <= |d| && v < TWO32 && d[i..i + 4] == Word(v)
    ensures GetU32(d, i) == v
  {
    assert forall k :: 0 <= k < 4 ==> d[i + k] == d[i..i + 4][k] == Word(v)[k];
    assert d[i] == v % 256 && d[i + 1] == v / 256 % 256;
    assert d[i + 2] == v / 256 / 256 % 256 && d[i + 3] == v / 256 / 256 / 256;
  }

  /** Byte by byte from the end, which counts most. */
  predicate EndLess(a: seq<byte>, b: seq<byte>)
    requires |a| == |b|
  {
    |a| > 0 && var n := |a| - 1; a[n] < b[n] || (a[n] == b[n] && EndLess(a[..n], b[..n]))
  }

  /** The greater word has the greater bytes, read from its end: little endian. */
  lemma LittleEndian(a: seq<byte>, b: seq<byte>)
    requires |a| == 4 && |b| == 4
    ensures GetU32(a, 0) < TWO32 && Word(GetU32(a, 0)) == a
    ensures GetU32(a, 0) < GetU32(b, 0) <==> EndLess(a, b)
  {
    WordOf(a[0] as int, a[1] as int, a[2] as int, a[3] as int);
    assert EndLess(a[..3], b[..3]) <==>
      a[2] < b[2] || (a[2] == b[2] && (a[1] < b[1] || (a[1] == b[1] && a[0] < b[0])))
    by {
      assert a[..3][..2] == a[..2] && b[..3][..2] == b[..2] && a[..2][..1] == a[..1] && b[..2][..1] == b[..1];
      assert EndLess(a[..1], b[..1]) <==> a[0] < b[0];
    }
  }

  lemma WordOf(p: nat, q: nat, r: nat, s: nat)
    requires p < 256 && q < 256 && r < 256 && s < 256
    ensures var v := p + 256 * (q + 256 * (r + 256 * s));
      v < TWO32 && v % 256 == p && v / 256 % 256 == q && v / 256 / 256 % 256 == r && v / 256 / 256 / 256 == s
  {
    var x := r + 256 * s;
    var y := q + 256 * x;
    assert (p + 256 * y) / 256 == y && y / 256 == x && x / 256 == s;
  }

  lemma SpliceNothing(d: seq<byte>, i: nat)
    requires i <= |d|
    ensures Splice(d, i, []) == d
  {
  }

  /** Writing y right in front of x is writing y + x. */
  lemma SpliceFront(d: seq<byte>, i: nat, x: seq<byte>, y: seq<byte>)
    requires |y| <= i && i + |x| <= |d|
    ensures Splice(Splice(d, i, x), i - |y|, y) == Splice(d, i - |y|, y + x)
  {
  }

  /** Writing y right behind x is writing x + y. */
  lemma SpliceBack(d: seq<byte>, i: nat, x: seq<byte>, y: seq<byte>)
    requires i + |x| + |y| <= |d|
    ensures Splice(Splice(d, i, x), i + |x|, y) == Splice(d, i, x + y)
  {
  }

  /** copy(a[i:], s) */
  method Copy(a: array<byte>, i: nat, s: seq<byte>)
    requires i + |s| <= a.Length
    modifies a
    ensures a[..] == Splice(old(a[..]), i, s)
  {
    forall k | 0 <= k < |s| { a[i + k] := s[k]; }
  }

  /** a[i] = b */
  method Put(a: array<byte>, i: nat, b: byte)
    requires i < a.Length
    modifies a
    ensures a[..] == Splice(old(a[..]), i, [b])
  {
    a[i] := b;
  }
}
