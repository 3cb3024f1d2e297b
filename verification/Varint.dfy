/** Base 128 varints as agent/proto/grpc.pb.go reads, writes and measures them. */
module Varint {
  import opened Bytes

  datatype Error = Overflow | UnexpectedEof | InvalidLength | UnexpectedEndOfGroup | IllegalWireType | EndGroup
      | IllegalTag | WrongWireType
  datatype Result<T> = Ok(value: T) | Err(error: Error)

  /** The shortest base 128 form of v: seven bits a byte, low bits first, the top bit says "more". */
  function Encode(v: nat): (r: seq<byte>)
    ensures |r| > 0
  {
    if v < 128 then [v] else [v % 128 + 128] + Encode(v / 128)
  }

  /** math/bits.Len64 */
  function BitLen(x: nat): nat { if x == 0 then 0 else 1 + BitLen(x / 2) }

  /** sovGrpc */
  function Sov(v: nat): nat { (BitLen(if v % 2 == 0 then v + 1 else v) + 6) / 7 }

  lemma {:induction false} BitLenSeven(v: nat)
    requires v >= 128
    ensures BitLen(v) == 7 + BitLen(v / 128)
  {
    var a := v / 2; var b := a / 2; var c := b / 2; var d := c / 2; var e := d / 2; var f := e / 2;
    assert BitLen(v) == 2 + BitLen(b);
    assert BitLen(b) == 2 + BitLen(d);
    assert BitLen(d) == 2 + BitLen(f);
    assert BitLen(f) == 1 + BitLen(f / 2);
    assert f / 2 == v / 128;
  }

  lemma {:induction false} BitLenSmall(v: nat)
    requires 0 < v < 128
    ensures 1 <= BitLen(v) <= 7
  {
    var a := v / 2; var b := a / 2; var c := b / 2; var d := c / 2; var e := d / 2; var f := e / 2;
    assert BitLen(v) <= 2 + BitLen(b);
    assert BitLen(b) <= 2 + BitLen(d);
    assert BitLen(d) <= 2 + BitLen(f);
    assert f < 2;
  }

  /** The bit-length formula is the length of the encoding, for every value. */
  lemma {:induction false} SovIsLength(v: nat)
    ensures Sov(v) == |Encode(v)|
  {
    var o := if v % 2 == 0 then v + 1 else v;
    if v < 128 {
      BitLenSmall(o);
    } else {
      var q := v / 128;
      BitLenSeven(o);
      SovIsLength(q);
      SovTop(o, q);
    }
  }

  lemma SovTop(o: nat, q: nat)
    requires o >= 128 && q == o / 128 && q > 0
    ensures (BitLen(q) + 6) / 7 == Sov(q)
  {
    assert (q + 1) / 2 == q / 2 || q % 2 == 1;
  }

  // ------------------------------------------------------------------------------------------
  // Decoding.
  // ------------------------------------------------------------------------------------------

  datatype Read = Read(v: nat, next: nat)

  /** At most k more bytes from index i, as one unbounded number, and the index behind them. */
  function Digits(d: seq<byte>, i: nat, k: nat): (r: Result<Read>)
    ensures r.Ok? ==> i < r.value.next <= |d| && r.value.next <= i + k
    ensures r.Err? ==> r.error == Overflow || r.error == UnexpectedEof
    decreases k
  {
    if k == 0 then Err(Overflow)
    else if i >= |d| then Err(UnexpectedEof)
    else if d[i] < 128 then Ok(Read(d[i], i + 1))
    else
      match Digits(d, i + 1, k - 1)
      case Ok(r) => Ok(Read(d[i] - 128 + 128 * r.v, r.next))
      case Err(e) => Err(e)
  }

  /** A varint read into a 64-bit word: at most ten bytes, and the bits beyond the 64th are lost. */
  function Decode(d: seq<byte>, i: nat): (r: Result<Read>)
    ensures r.Ok? ==> i < r.value.next <= |d| && r.value.v < TWO64
    ensures r.Err? ==> r.error == Overflow || r.error == UnexpectedEof
  {
    match Digits(d, i, 10)
    case Ok(r) => Ok(Read(r.v % TWO64, r.next))
    case Err(e) => Err(e)
  }

  /** A reading that comes after `full`, at weight p. */
  function After(full: nat, p: nat, r: Result<Read>): Result<Read> {
    match r
    case Ok(x) => Ok(Read(full + p * x.v, x.next))
    case Err(e) => Err(e)
  }

  /** The decoding loop of the generated code: `p` is one shifted by `shift`. */
  method ReadVarint(d: seq<byte>, start: nat) returns (r: Result<Read>)
    ensures r == Decode(d, start)
  {
    hide Digits, After;
    var i: nat, wire: nat, p: nat, shift: nat := start, 0, 1, 0;
    ghost var full: nat, k: nat := 0, 10;
    AfterNothing(Digits(d, start, 10));
    while true
      invariant shift == 7 * (10 - k) && k <= 10 && wire == full % TWO64
      invariant Digits(d, start, 10) == After(full, p, Digits(d, i, k))
      decreases k
    {
      NoDigits(d, i, k, full, p);
      if shift >= 64 { return Err(Overflow); }
      if i >= |d| { return Err(UnexpectedEof); }
      var b := d[i];
      var x := b % 128 * p;
      ShiftedIn(full, wire, x);
      MoreDigits(d, i, k, full, p, x);
      i := i + 1;
      wire := (wire + x) % TWO64;
      if b < 128 { return Ok(Read(wire, i)); }
      full, k := full + x, k - 1;
      p, shift := 128 * p, shift + 7;
    }
  }

  lemma AfterNothing(r: Result<Read>)
    ensures After(0, 1, r) == r
  {
  }

  lemma NoDigits(d: seq<byte>, i: nat, k: nat, full: nat, p: nat)
    ensures k == 0 ==> After(full, p, Digits(d, i, k)) == Err(Overflow)
    ensures k > 0 && i >= |d| ==> After(full, p, Digits(d, i, k)) == Err(UnexpectedEof)
  {
  }

  lemma ShiftedIn(full: nat, wire: nat, x: nat)
    requires wire == full % TWO64
    ensures (wire + x) % TWO64 == (full + x) % TWO64
  {
    assert full + x == (full / TWO64) * TWO64 + (wire + x);
  }

  lemma MoreDigits(d: seq<byte>, i: nat, k: nat, full: nat, p: nat, x: nat)
    requires i < |d| && k > 0 && x == d[i] % 128 * p
    ensures After(full, p, Digits(d, i, k))
      == if d[i] < 128 then Ok(Read(full + x, i + 1)) else After(full + x, 128 * p, Digits(d, i + 1, k - 1))
  {
    var b := d[i];
    if b >= 128 {
      assert b % 128 == b - 128;
      var r := Digits(d, i + 1, k - 1);
      if r.Ok? {
        Weighted(p, b - 128, r.value.v);
      }
    }
  }

  lemma Weighted(p: nat, c: nat, v: nat)
    ensures p * (c + 128 * v) == c * p + 128 * p * v
  {
    assert p * (c + 128 * v) == p * c + p * (128 * v);
    assert p * (128 * v) == 128 * (p * v) == 128 * p * v;
  }

  function Pow128(n: nat): nat { if n == 0 then 1 else 128 * Pow128(n - 1) }

  /** The value of the n bytes from i on: seven bits each, byte k at weight 128 to the k. */
  function Places(d: seq<byte>, i: nat, n: nat): nat
    requires i + n <= |d|
  {
    if n == 0 then 0 else Places(d, i, n - 1) + d[i + n - 1] % 128 * Pow128(n - 1)
  }

  /** The n bytes from i on are one varint: the last of them, and no other, has its top bit clear. */
  predicate Ends(d: seq<byte>, i: nat, n: nat) {
    && 0 < n && i + n <= |d| && d[i + n - 1] < 128
    && forall k :: i <= k < i + n - 1 ==> d[k] >= 128
  }

  lemma {:induction false} PlacesFirst(d: seq<byte>, i: nat, n: nat)
    requires 0 < n && i + n <= |d|
    ensures Places(d, i, n) == d[i] % 128 + 128 * Places(d, i + 1, n - 1)
  {
    if n > 1 {
      PlacesFirst(d, i, n - 1);
      var x, p := d[i + n - 1] % 128, Pow128(n - 2);
      assert Pow128(n - 1) == 128 * p;
      assert x * (128 * p) == 128 * (x * p);
    } else {
      assert Places(d, i + 1, 0) == 0 && Places(d, i, 0) == 0 && Pow128(0) == 1;
    }
  }

  lemma OnePlace(d: seq<byte>, i: nat)
    requires i < |d|
    ensures Places(d, i, 1) == d[i] % 128
  {
    assert Places(d, i, 0) == 0 && Pow128(0) == 1;
  }

  lemma {:induction false} DigitsExactly(d: seq<byte>, i: nat, k: nat, n: nat)
    requires i <= |d|
    ensures Ends(d, i, n) && n <= k ==> Digits(d, i, k) == Ok(Read(Places(d, i, n), i + n))
    ensures Digits(d, i, k).Ok? ==> Ends(d, i, Digits(d, i, k).value.next - i)
    decreases k
  {
    hide Places;
    if k > 0 && i < |d| && d[i] >= 128 {
      DigitsExactly(d, i + 1, k - 1, if n > 0 then n - 1 else 0);
      if Ends(d, i, n) && n <= k { PlacesFirst(d, i, n); }
    } else if k > 0 && i < |d| && Ends(d, i, n) {
      assert n == 1;
      OnePlace(d, i);
    }
  }

  lemma {:induction false} DigitsMissing(d: seq<byte>, i: nat, k: nat)
    requires i <= |d|
    ensures Digits(d, i, k) == Err(Overflow) ==> i + k <= |d| && forall j :: i <= j < i + k ==> d[j] >= 128
    ensures Digits(d, i, k) == Err(UnexpectedEof) ==> |d| < i + k && forall j :: i <= j < |d| ==> d[j] >= 128
    decreases k
  {
    if k > 0 && i < |d| { DigitsMissing(d, i + 1, k - 1); }
  }

  /** What is read at i: the first varint there, of ten bytes at most, modulo 2^64; an overflow exactly
      if there are ten bytes that all say "more", and the end of the input exactly if it comes sooner. */
  lemma DecodeExactly(d: seq<byte>, i: nat, n: nat)
    requires i <= |d|
    ensures Ends(d, i, n) && n <= 10 ==> Decode(d, i) == Ok(Read(Places(d, i, n) % TWO64, i + n))
    ensures Decode(d, i).Ok? ==> Ends(d, i, Decode(d, i).value.next - i) && Decode(d, i).value.next - i <= 10
    ensures Decode(d, i) == Err(Overflow) <==> i + 10 <= |d| && forall j :: i <= j < i + 10 ==> d[j] >= 128
    ensures Decode(d, i) == Err(UnexpectedEof) <==> |d| < i + 10 && forall j :: i <= j < |d| ==> d[j] >= 128
  {
    DigitsExactly(d, i, 10, n);
    DigitsMissing(d, i, 10);
    hide Digits, Places;
    if Digits(d, i, 10).Ok? { assert d[Digits(d, i, 10).value.next - 1] < 128; }
  }

  // ------------------------------------------------------------------------------------------
  // Encoding, and back.
  // ------------------------------------------------------------------------------------------

  /** encodeVarintGrpc: the encoding of v, ending where the offset was. */
  method EncodeVarint(a: array<byte>, end: nat, v: nat) returns (base: nat)
    requires Sov(v) <= end <= a.Length
    modifies a
    ensures base == end - |Encode(v)| && a[..] == Splice(old(a[..]), base, Encode(v))
  {
    hide Splice;
    SovIsLength(v);
    base := end - Sov(v);
    ghost var was := a[..];
    ghost var done: seq<byte> := [];
    var offset, w := base, v;
    SpliceNothing(was, base);
    while w >= 128
      invariant offset == base + |done| && offset + |Encode(w)| == end <= |was| == a.Length
      invariant a[..] == Splice(was, base, done)
      invariant done + Encode(w) == Encode(v)
      decreases w
    {
      ghost var b: seq<byte> := [w % 128 + 128];
      assert done + Encode(w) == done + b + Encode(w / 128);
      SpliceBack(was, base, done, b);
      Put(a, offset, w % 128 + 128);
      done, w, offset := done + b, w / 128, offset + 1;
    }
    SpliceBack(was, base, done, [w]);
    Put(a, offset, w);
  }

  lemma {:induction false} EncodeLength(v: nat, n: nat)
    requires v < Pow128(n) && n > 0
    ensures |Encode(v)| <= n
  {
    if v >= 128 {
      assert Pow128(1) == 128 * Pow128(0) == 128;
      assert v / 128 < Pow128(n - 1);
      EncodeLength(v / 128, n - 1);
    }
  }

  lemma TenBytes(v: nat)
    requires v < TWO64
    ensures |Encode(v)| <= 10
  {
    assert Pow128(2) == 0x4000;
    assert Pow128(4) == 128 * 128 * Pow128(2) == 0x1000_0000;
    assert Pow128(6) == 128 * 128 * Pow128(4) == 0x400_0000_0000;
    assert Pow128(8) == 128 * 128 * Pow128(6) == 0x100_0000_0000_0000;
    assert Pow128(10) == 128 * 128 * Pow128(8) == 0x40_0000_0000_0000_0000;
    EncodeLength(v, 10);
  }

  /** What was encoded is read back, wherever it stands. */
  lemma {:induction false} DigitsOfEncode(d: seq<byte>, i: nat, v: nat, k: nat)
    requires |Encode(v)| <= k && i + |Encode(v)| <= |d| && d[i..i + |Encode(v)|] == Encode(v)
    ensures Digits(d, i, k) == Ok(Read(v, i + |Encode(v)|))
    decreases v
  {
    assert d[i] == d[i..i + |Encode(v)|][0] == Encode(v)[0];
    if v >= 128 {
      var n := |Encode(v)|;
      assert d[i + 1..i + n] == d[i..i + n][1..] == Encode(v)[1..] == Encode(v / 128);
      DigitsOfEncode(d, i + 1, v / 128, k - 1);
    }
  }

  /** Every 64-bit value survives encoding and decoding, whatever surrounds it. */
  lemma RoundTrip(d: seq<byte>, i: nat, v: nat)
    requires v < TWO64 && i + |Encode(v)| <= |d| && d[i..i + |Encode(v)|] == Encode(v)
    ensures Decode(d, i) == Ok(Read(v, i + |Encode(v)|))
  {
    TenBytes(v);
    DigitsOfEncode(d, i, v, 10);
  }

  /** A reading that succeeds does not depend on what follows ... */
  lemma {:induction false} DigitsLocal(a: seq<byte>, b: seq<byte>, i: nat, k: nat)
    requires Digits(a, i, k).Ok?
    ensures Digits(a + b, i, k) == Digits(a, i, k)
    decreases k
  {
    if a[i] >= 128 { DigitsLocal(a, b, i + 1, k - 1); }
  }

  lemma {:induction false} DigitsInside(a: seq<byte>, b: seq<byte>, i: nat, k: nat)
    requires Digits(a + b, i, k).Ok? && Digits(a + b, i, k).value.next <= |a|
    ensures Digits(a, i, k) == Digits(a + b, i, k)
    decreases k
  {
    if a[i] >= 128 { DigitsInside(a, b, i + 1, k - 1); }
  }

  function Moved(r: Result<Read>, n: nat): Result<Read> {
    match r
    case Ok(x) => Ok(Read(x.v, x.next + n))
    case Err(e) => Err(e)
  }

  /** ... nor on what precedes. */
  lemma {:induction false} DigitsShift(a: seq<byte>, b: seq<byte>, i: nat, k: nat)
    ensures Digits(a + b, |a| + i, k) == Moved(Digits(b, i, k), |a|)
    decreases k
  {
    if k > 0 && i < |b| && b[i] >= 128 { DigitsShift(a, b, i + 1, k - 1); }
  }

  lemma Local(a: seq<byte>, b: seq<byte>, i: nat)
    requires Decode(a, i).Ok?
    ensures Decode(a + b, i) == Decode(a, i)
  {
    DigitsLocal(a, b, i, 10);
  }

  lemma Inside(a: seq<byte>, b: seq<byte>, i: nat)
    requires Decode(a + b, i).Ok? && Decode(a + b, i).value.next <= |a|
    ensures Decode(a, i) == Decode(a + b, i)
  {
    DigitsInside(a, b, i, 10);
  }

  lemma Shift(a: seq<byte>, b: seq<byte>, i: nat)
    ensures Decode(a + b, |a| + i) == Moved(Decode(b, i), |a|)
  {
    DigitsShift(a, b, i, 10);
  }

  // ------------------------------------------------------------------------------------------
  // Signed fields: two's complement in 64 bits.
  // ------------------------------------------------------------------------------------------

  type int32 = x: int | -0x8000_0000 <= x < 0x8000_0000
  type int64 = x: int | -0x8000_0000_0000_0000 <= x < 0x8000_0000_0000_0000

  /** uint64(x) of a signed field */
  function Unsigned(x: int64): (r: nat)
    ensures r < TWO64
  {
    if x < 0 then x + TWO64 else x
  }

  /** What OR-ing seven bits at a time leaves in an int64 field ... */
  function ToInt64(v: nat): int64
    requires v < TWO64
  {
    if v < TWO63 then v else v - TWO64
  }

  /** ... and in an int32 field: shifts beyond 32 bits leave nothing. */
  function ToInt32(v: nat): int32 {
    var w := v % TWO32;
    if w < 0x8000_0000 then w else w - TWO32
  }

  lemma SignedRoundTrip(x: int64)
    ensures ToInt64(Unsigned(x)) == x
    ensures -0x8000_0000 <= x < 0x8000_0000 ==> ToInt32(Unsigned(x)) == x
  {
    if -0x8000_0000 <= x < 0 {
      assert x + TWO64 == (TWO32 - 1) * TWO32 + (x + TWO32);
    }
  }
}
