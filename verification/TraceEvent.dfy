/** Events as bytes of a trace page: the header word (5 bits of type_len, 27 bits of time_delta,
    little endian), the two length encodings, time headers and padding. */
module TraceEvent {
  import opened Bytes

  const PAGE: nat := 4080               // BUF_PAGE_SIZE: 4096 less the 16-byte page header
  const MAX_DATA: nat := PAGE - 8       // BUF_MAX_DATA_SIZE
  const HDR: nat := 4                   // RB_EVNT_HDR_SIZE
  const MIN_SIZE: nat := 8              // RB_EVNT_MIN_SIZE
  const MAX_SMALL: nat := 112           // RB_MAX_SMALL_DATA
  const TIME_LEN: nat := 8              // RB_LEN_TIME_EXTEND == RB_LEN_TIME_STAMP

  const DATA_MAX: nat := 28             // TB_TYPEDATA_TYPE_LEN_MAX
  const PADDING: nat := 29
  const TIME_EXTEND: nat := 30
  const TIME_STAMP: nat := 31

  const TWO27: nat := 0x800_0000
  const TWO59: nat := 0x800_0000_0000_0000

  // ------------------------------------------------------------------------------------------
  // Reading an event.
  // ------------------------------------------------------------------------------------------

  function TypeLen(d: seq<byte>, i: nat): nat
    requires i + 4 <= |d|
  {
    GetU32(d, i) % 32
  }

  function TimeDelta(d: seq<byte>, i: nat): nat
    requires i + 4 <= |d|
  {
    GetU32(d, i) / 32
  }

  /** tb_event_data_length */
  function DataLength(d: seq<byte>, i: nat): nat
    requires i + 8 <= |d|
  {
    (if TypeLen(d, i) != 0 then 4 * TypeLen(d, i) else GetU32(d, i + 4)) + HDR
  }

  /** tb_event_length; a null padding event has no length. */
  function EventLength(d: seq<byte>, i: nat): int
    requires i + 8 <= |d|
  {
    var ty := TypeLen(d, i);
    if ty == PADDING then (if TimeDelta(d, i) == 0 then -1 else GetU32(d, i + 4) + HDR)
    else if ty == TIME_EXTEND || ty == TIME_STAMP then TIME_LEN
    else DataLength(d, i)
  }

  lemma NullEvent(d: seq<byte>, i: nat)
    requires i + 8 <= |d| && d[i..i + 4] == [29, 0, 0, 0]
    ensures EventLength(d, i) == -1
  {
    SmallWord(PADDING);
    WordReads(d, i, PADDING);
    hide Word, GetU32;
  }

  /** tb_event_time_stamp: the 59 bits of a time header. */
  function HeaderTime(d: seq<byte>, i: nat): nat
    requires i + 8 <= |d|
  {
    GetU32(d, i + 4) * TWO27 + TimeDelta(d, i)
  }

  /** tb_event_data_start, for a data event. */
  function DataStart(d: seq<byte>, i: nat): nat
    requires i + 4 <= |d|
  {
    if TypeLen(d, i) != 0 then i + 4 else i + 8
  }

  /** A whole event sits at i, inside the bytes up to end. */
  predicate EventAt(d: seq<byte>, i: nat, end: nat) {
    && i + 8 <= end <= |d| && end <= PAGE
    && var ty := TypeLen(d, i);
       if ty <= DATA_MAX then DataLength(d, i) >= MIN_SIZE && i + DataLength(d, i) <= end
       else if ty == PADDING then TimeDelta(d, i) != 0 && i + EventLength(d, i) == PAGE <= end
       else i + 16 <= end && TypeLen(d, i + 8) <= DATA_MAX && TimeDelta(d, i + 8) == 0
  }

  /** The bytes from i to end are whole events, one after the other. */
  predicate Tiled(d: seq<byte>, i: nat, end: nat)
    decreases end - i
  {
    || i == end
    || (EventAt(d, i, end) && EventLength(d, i) >= 8 && i + EventLength(d, i) <= end
        && Tiled(d, i + EventLength(d, i), end))
  }

  /** A delivered event: its data area and its time stamp. */
  datatype Event = Event(body: seq<byte>, ts: nat)

  function Body(d: seq<byte>, i: nat): seq<byte>
    requires i + 8 <= |d| && DataStart(d, i) <= i + DataLength(d, i) <= |d|
  {
    d[DataStart(d, i)..i + DataLength(d, i)]
  }

  /** tb_update_read_stamp: the running time stamp after the event at i. */
  function StampAfter(d: seq<byte>, i: nat, stamp: nat): nat
    requires i + 8 <= |d|
  {
    var ty := TypeLen(d, i);
    if ty == PADDING then stamp
    else if ty == TIME_EXTEND then (stamp + HeaderTime(d, i)) % TWO64
    else if ty == TIME_STAMP then HeaderTime(d, i)
    else (stamp + TimeDelta(d, i)) % TWO64
  }

  /** The running time stamp at end, starting from `stamp` at i. */
  function StampAt(d: seq<byte>, i: nat, end: nat, stamp: nat): nat
    requires Tiled(d, i, end)
    decreases end - i
  {
    if i == end then stamp else StampAt(d, i + EventLength(d, i), end, StampAfter(d, i, stamp))
  }

  /** The data events between i and end, with their time stamps. */
  function Decode(d: seq<byte>, i: nat, end: nat, stamp: nat): seq<Event>
    requires Tiled(d, i, end)
    decreases end - i
  {
    if i == end then []
    else
      var rest := Decode(d, i + EventLength(d, i), end, StampAfter(d, i, stamp));
      if TypeLen(d, i) <= DATA_MAX then [Event(Body(d, i), StampAfter(d, i, stamp))] + rest else rest
  }

  // ------------------------------------------------------------------------------------------
  // Tilings join, and depend on their own bytes only.
  // ------------------------------------------------------------------------------------------

  lemma EventAtGrows(d: seq<byte>, i: nat, mid: nat, end: nat)
    requires EventAt(d, i, mid) && mid <= end <= |d| && end <= PAGE
    ensures EventAt(d, i, end)
  {
  }

  lemma {:induction false} Join(d: seq<byte>, i: nat, mid: nat, end: nat, stamp: nat)
    requires Tiled(d, i, mid) && Tiled(d, mid, end) && end <= PAGE && end <= |d| && i <= mid <= end
    ensures Tiled(d, i, end)
    ensures Decode(d, i, end, stamp) == Decode(d, i, mid, stamp) + Decode(d, mid, end, StampAt(d, i, mid, stamp))
    ensures StampAt(d, i, end, stamp) == StampAt(d, mid, end, StampAt(d, i, mid, stamp))
    decreases mid - i
  {
    hide GetU32, TypeLen, TimeDelta;
    if i < mid {
      EventAtGrows(d, i, mid, end);
      Join(d, i + EventLength(d, i), mid, end, StampAfter(d, i, stamp));
    }
  }

  predicate SameBytes(d: seq<byte>, e: seq<byte>, i: nat, end: nat) {
    end <= |d| && end <= |e| && forall k :: i <= k < end ==> d[k] == e[k]
  }

  lemma SameEvent(d: seq<byte>, e: seq<byte>, i: nat, end: nat)
    requires SameBytes(d, e, i, end) && EventAt(d, i, end)
    ensures EventAt(e, i, end) && EventLength(e, i) == EventLength(d, i)
    ensures TypeLen(e, i) == TypeLen(d, i)
    ensures forall stamp :: StampAfter(e, i, stamp) == StampAfter(d, i, stamp)
    ensures TypeLen(d, i) <= DATA_MAX ==> Body(e, i) == Body(d, i)
  {
    assert GetU32(d, i) == GetU32(e, i) && GetU32(d, i + 4) == GetU32(e, i + 4);
    if TypeLen(d, i) > PADDING { assert GetU32(d, i + 8) == GetU32(e, i + 8); }
  }

  lemma {:induction false} SameTiling(d: seq<byte>, e: seq<byte>, i: nat, end: nat, stamp: nat)
    requires SameBytes(d, e, i, end) && Tiled(d, i, end) && i <= end
    ensures Tiled(e, i, end)
    ensures Decode(e, i, end, stamp) == Decode(d, i, end, stamp)
    ensures StampAt(e, i, end, stamp) == StampAt(d, i, end, stamp)
    decreases end - i
  {
    hide GetU32, TypeLen, TimeDelta;
    if i < end {
      SameEvent(d, e, i, end);
      SameTiling(d, e, i + EventLength(d, i), end, StampAfter(d, i, stamp));
    }
  }

  // ------------------------------------------------------------------------------------------
  // Writing an event.
  // ------------------------------------------------------------------------------------------

  /** tb_calculate_event_length */
  function CalcLength(length: nat): nat {
    var a := if length == 0 then 1 else length;
    var b := if a > MAX_SMALL then a + 4 else a;
    var c := Align4(b + HDR);
    if c == TIME_LEN + 4 then c + 4 else c
  }

  /** The time header a reservation carries in front of its event. */
  datatype Stamp = NoStamp | Extend(delta: nat) | Absolute(ts: nat)

  function StampLen(st: Stamp): nat { if st.NoStamp? then 0 else TIME_LEN }

  /** tb_add_time_stamp: the eight bytes of a time header; the stored value is 59 bits wide. */
  function TimeHeader(ty: nat, v: nat): (r: seq<byte>)
    requires ty < 32
    ensures |r| == TIME_LEN
  {
    Word(ty + 32 * (v % TWO27)) + Word(v / TWO27 % TWO32)
  }

  /** tb_update_event: the header of a data event of `size` bytes in all. */
  function DataHeader(size: nat, delta: nat): (r: seq<byte>)
    requires size >= HDR && size - HDR < TWO32 && delta < TWO27
    ensures |r| == if size - HDR > MAX_SMALL then 8 else 4
  {
    if size - HDR > MAX_SMALL then Word(32 * delta) + Word(size - HDR)
    else Word((size - HDR + 3) / 4 + 32 * delta)
  }

  /** How the headers lie in memory: the type or length in the five low bits of the first byte. */
  lemma HeaderBytes(size: nat, delta: nat, ty: nat, v: nat)
    requires 4 <= size && size % 4 == 0 && delta < 8 && ty < 32 && v < 8
    ensures size <= 116 ==> DataHeader(size, delta) == [size / 4 - 1 + 32 * delta, 0, 0, 0]
    ensures 116 < size < 260 ==> DataHeader(size, delta) == [32 * delta, 0, 0, 0, size - 4, 0, 0, 0]
    ensures TimeHeader(ty, v) == [ty + 32 * v, 0, 0, 0, 0, 0, 0, 0]
  {
    hide Word;
    SmallWord(0);
    SmallWord(32 * delta);
    SmallWord(ty + 32 * v);
    if size <= 116 { SmallWord(size / 4 - 1 + 32 * delta); } else if size < 260 { SmallWord(size - 4); }
  }

  /** The sizes of data events: what tb_calculate_event_length yields. */
  predicate GoodSize(size: nat) { 8 <= size <= PAGE && size % 4 == 0 && size != 12 && (size <= 116 || size >= 124) }

  /** The data area of an event of `size` bytes. */
  function RoomIn(size: nat): int { size - (if size - HDR > MAX_SMALL then 8 else 4) }

  /** For every request that is not rejected, the size computed at reserve time is a legal event
      size with room for the requested bytes. */
  lemma CalcLengthGood(length: nat)
    requires length <= MAX_DATA
    ensures GoodSize(CalcLength(length))
    ensures length <= RoomIn(CalcLength(length))
  {
  }

  /** And it is the least such size; every legal size is what some request gets. */
  lemma CalcLengthLeast(length: nat, size: nat)
    requires length <= MAX_DATA && GoodSize(size)
    ensures CalcLength(length) <= size <==> length <= RoomIn(size)
    ensures 0 <= RoomIn(size) <= MAX_DATA && CalcLength(RoomIn(size)) == size
  {
  }

  /** A request eight bytes below the largest leaves room for a time header on an empty page. */
  lemma CalcLengthSmall(length: nat)
    requires length <= MAX_DATA
    ensures CalcLength(length) + TIME_LEN <= PAGE <==> length <= MAX_DATA - TIME_LEN
  {
  }

  /** The header written for a size reads back as that size, with the data right behind it. */
  lemma DataHeaderReads(d: seq<byte>, i: nat, size: nat, delta: nat)
    requires GoodSize(size) && delta < TWO27 && i + size <= |d|
    requires i + |DataHeader(size, delta)| <= |d| && d[i..i + |DataHeader(size, delta)|] == DataHeader(size, delta)
    ensures TypeLen(d, i) <= DATA_MAX && TimeDelta(d, i) == delta && DataLength(d, i) == EventLength(d, i) == size
    ensures DataStart(d, i) == i + |DataHeader(size, delta)| <= i + size
    ensures i + size <= PAGE ==> EventAt(d, i, i + size)
  {
    hide Word, GetU32;
    if size - HDR > MAX_SMALL {
      assert d[i..i + 4] == d[i..i + 8][..4] == Word(32 * delta);
      assert d[i + 4..i + 8] == d[i..i + 8][4..] == Word(size - HDR);
      WordReads(d, i, 32 * delta);
      WordReads(d, i + 4, size - HDR);
    } else {
      WordReads(d, i, (size - HDR + 3) / 4 + 32 * delta);
    }
  }

  /** tb_event_size: the data load reported to the consumer is exactly the data area. */
  function EventSize(d: seq<byte>, i: nat): nat
    requires i + 8 <= |d| && TypeLen(d, i) <= DATA_MAX
  {
    var length := DataLength(d, i) - HDR;
    if length > MAX_SMALL + 4 then length - 4 else length
  }

  lemma EventSizeIsDataArea(d: seq<byte>, i: nat, size: nat, delta: nat)
    requires GoodSize(size) && delta < TWO27 && i + size <= |d|
    requires i + |DataHeader(size, delta)| <= |d| && d[i..i + |DataHeader(size, delta)|] == DataHeader(size, delta)
    ensures TypeLen(d, i) <= DATA_MAX && DataLength(d, i) == size && DataStart(d, i) <= i + size
    ensures EventSize(d, i) == |Body(d, i)|
  {
    hide Word, GetU32, TypeLen, TimeDelta, DataLength, EventLength, EventAt, DataStart;
    DataHeaderReads(d, i, size, delta);
    assert |DataHeader(size, delta)| == if size - HDR > MAX_SMALL then 8 else 4;
    assert |Body(d, i)| == size - |DataHeader(size, delta)|;
  }

  lemma TimeHeaderReads(d: seq<byte>, i: nat, ty: nat, v: nat)
    requires ty == TIME_EXTEND || ty == TIME_STAMP
    requires i + 8 <= |d| && v < TWO59 && d[i..i + 8] == TimeHeader(ty, v)
    ensures TypeLen(d, i) == ty && HeaderTime(d, i) == v && EventLength(d, i) == TIME_LEN
  {
    hide Word, GetU32;
    assert d[i..i + 4] == d[i..i + 8][..4] && d[i + 4..i + 8] == d[i..i + 8][4..];
    WordReads(d, i, ty + 32 * (v % TWO27));
    WordReads(d, i + 4, v / TWO27);
  }

  // ------------------------------------------------------------------------------------------
  // A reservation: an optional time header, then the header of a data event.
  // ------------------------------------------------------------------------------------------

  /** The value tb_add_time_stamp stores: 59 bits. */
  function Stored(st: Stamp): nat {
    match st case NoStamp => 0 case Extend(v) => v % TWO59 case Absolute(v) => v % TWO59
  }

  /** Everything tb_update_event writes for an event of `size` bytes behind the time header `st`. */
  function EventHeader(st: Stamp, size: nat, delta: nat): (r: seq<byte>)
    requires GoodSize(size) && delta < TWO27
    ensures |r| == StampLen(st) + (if size - HDR > MAX_SMALL then 8 else 4)
  {
    match st
    case NoStamp => DataHeader(size, delta)
    case Extend(v) => TimeHeader(TIME_EXTEND, v) + DataHeader(size, 0)
    case Absolute(v) => TimeHeader(TIME_STAMP, v) + DataHeader(size, 0)
  }

  /** The time stamp a reader recovers for it, starting from the running stamp. */
  function Recovered(st: Stamp, delta: nat, stamp: nat): nat {
    match st
    case NoStamp => (stamp + delta) % TWO64
    case Extend(v) => (stamp + Stored(st)) % TWO64
    case Absolute(v) => Stored(st)
  }

  lemma HeaderSplit(d: seq<byte>, i: nat, a: seq<byte>, b: seq<byte>)
    requires i + |a| + |b| <= |d| && d[i..i + |a| + |b|] == a + b
    ensures d[i..i + |a|] == a && d[i + |a|..i + |a| + |b|] == b
  {
    assert d[i..i + |a|] == d[i..i + |a| + |b|][..|a|];
    assert d[i + |a|..i + |a| + |b|] == d[i..i + |a| + |b|][|a|..];
  }

  lemma TimeHeaderMod(d: seq<byte>, i: nat, ty: nat, v: nat)
    requires ty == TIME_EXTEND || ty == TIME_STAMP
    requires i + 8 <= |d| && d[i..i + 8] == TimeHeader(ty, v)
    ensures TypeLen(d, i) == ty && HeaderTime(d, i) == v % TWO59 && EventLength(d, i) == TIME_LEN
  {
    hide Word;
    assert v % TWO59 % TWO27 == v % TWO27 && v % TWO59 / TWO27 % TWO32 == v / TWO27 % TWO32 by {
      var q := v / TWO59;
      var r := v % TWO59;
      assert v == TWO27 * (TWO32 * q) + r;
      assert v / TWO27 == TWO32 * q + r / TWO27;
    }
    TimeHeaderReads(d, i, ty, v % TWO59);
  }

  /** The header of a data event of this size stands at i ... */
  predicate Headed(d: seq<byte>, i: nat, size: nat, delta: nat)
    requires HDR <= size < TWO32 && delta < TWO27
  {
    && i + |DataHeader(size, delta)| <= i + size <= |d|
    && d[i..i + |DataHeader(size, delta)|] == DataHeader(size, delta)
  }

  /** ... and this is behind it. */
  function DataBehind(d: seq<byte>, i: nat, size: nat, delta: nat): seq<byte>
    requires HDR <= size < TWO32 && delta < TWO27 && Headed(d, i, size, delta)
  {
    d[i + |DataHeader(size, delta)|..i + size]
  }

  lemma PlainEvent(d: seq<byte>, i: nat, size: nat, delta: nat, stamp: nat)
    requires GoodSize(size) && delta < TWO27 && |d| == PAGE && i + size <= PAGE && Headed(d, i, size, delta)
    ensures TypeLen(d, i) <= DATA_MAX && TimeDelta(d, i) == delta
    ensures Tiled(d, i, i + size)
    ensures Decode(d, i, i + size, stamp) == [Event(DataBehind(d, i, size, delta), (stamp + delta) % TWO64)]
    ensures StampAt(d, i, i + size, stamp) == (stamp + delta) % TWO64
  {
    hide Word, GetU32, TypeLen, TimeDelta, DataLength, EventLength, DataHeader, EventAt, Decode, Tiled, StampAt,
         DataStart, Body;
    DataHeaderReads(d, i, size, delta);
    OneEvent(d, i, i + size, stamp);
  }

  /** A data event that fills its stretch is all there is to decode. */
  lemma OneEvent(d: seq<byte>, i: nat, end: nat, stamp: nat)
    requires EventAt(d, i, end) && TypeLen(d, i) <= DATA_MAX && EventLength(d, i) == DataLength(d, i) == end - i
    requires DataStart(d, i) <= end
    ensures Tiled(d, i, end) && StampAt(d, i, end, stamp) == (stamp + TimeDelta(d, i)) % TWO64
    ensures Decode(d, i, end, stamp) == [Event(d[DataStart(d, i)..end], (stamp + TimeDelta(d, i)) % TWO64)]
  {
    hide GetU32, TypeLen, TimeDelta, DataLength, EventLength, DataStart;
    assert Tiled(d, end, end);
  }

  /** A reserved event, once its header stands at i, is one data event (behind its time header)
      whose data area is everything after the header. */
  lemma ReservedEvent(d: seq<byte>, i: nat, st: Stamp, size: nat, delta: nat, stamp: nat)
    requires GoodSize(size) && delta < TWO27 && |d| == PAGE && stamp < TWO64
    requires i + StampLen(st) + size <= PAGE
    requires d[i..i + |EventHeader(st, size, delta)|] == EventHeader(st, size, delta)
    ensures var end := i + StampLen(st) + size;
      && Tiled(d, i, end)
      && Decode(d, i, end, stamp) == [Event(d[i + |EventHeader(st, size, delta)|..end], Recovered(st, delta, stamp))]
      && StampAt(d, i, end, stamp) == Recovered(st, delta, stamp)
  {
    hide Word, GetU32, TypeLen, TimeDelta, DataLength, EventLength, DataHeader, TimeHeader;
    if st.NoStamp? {
      PlainEvent(d, i, size, delta, stamp);
    } else {
      var v := if st.Extend? then st.delta else st.ts;
      var ty := if st.Extend? then TIME_EXTEND else TIME_STAMP;
      HeaderSplit(d, i, TimeHeader(ty, v), DataHeader(size, 0));
      TimeHeaderMod(d, i, ty, v);
      var s8 := StampAfter(d, i, stamp);
      PlainEvent(d, i + 8, size, 0, s8);
      assert s8 == Recovered(st, 0, stamp) == (s8 + 0) % TWO64;
    }
  }

  /** The discarded event tb_reset_tail puts at the end of a page. */
  function PadHeader(size: nat): seq<byte>
    requires HDR <= size && size - HDR < TWO32
  {
    Word(PADDING + 32) + Word(size - HDR)
  }

  lemma PaddedEnd(d: seq<byte>, i: nat, stamp: nat)
    requires |d| == PAGE && i <= PAGE - MIN_SIZE && d[i..i + 8] == PadHeader(PAGE - i)
    ensures Tiled(d, i, PAGE) && Decode(d, i, PAGE, stamp) == [] && StampAt(d, i, PAGE, stamp) == stamp
  {
    hide Word, GetU32;
    HeaderSplit(d, i, Word(PADDING + 32), Word(PAGE - i - HDR));
    WordReads(d, i, PADDING + 32);
    WordReads(d, i + 4, PAGE - i - HDR);
    assert EventLength(d, i) == PAGE - i;
    assert Tiled(d, PAGE, PAGE);
  }
}
