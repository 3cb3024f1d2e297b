/** The bits of a mask. */
module MaskBits {
  import opened MaskLayout

  function Common(x: bv32, bit: bv32): bv32 { x & bit }

  /** One bit: it is in a mask as a whole or not at all. */
  ghost predicate Single(bit: bv32) { bit != 0 && forall x: bv32 :: Common(x, bit) == 0 || Common(x, bit) == bit }

  /** Adding and taking bits, bit by bit. */
  lemma BitOf(v: bv32, mask: bv32, bit: bv32)
    requires Single(bit)
    ensures Meets(Plus(v, mask), bit) <==> Meets(v, bit) || Meets(mask, bit)
    ensures Meets(Minus(v, mask), bit) <==> Meets(v, bit) && !Meets(mask, bit)
  {
    hide Plus, Minus, Meets, Common;
    MeetsCommon(mask, bit);
    MeetsCommon(v, bit);
    MeetsCommon(Plus(v, mask), bit);
    MeetsCommon(Minus(v, mask), bit);
    PlusNeither(v, mask, bit);
    PlusLeft(v, mask, bit);
    PlusRight(v, mask, bit);
    if Common(mask, bit) == 0 { MinusOther(v, mask, bit); } else { MinusSame(v, mask, bit); }
  }

  lemma MeetsCommon(v: bv32, bit: bv32)
    ensures Meets(v, bit) <==> Common(v, bit) != 0
  {
  }

  lemma PlusNeither(v: bv32, mask: bv32, bit: bv32)
    ensures Common(v, bit) == 0 && Common(mask, bit) == 0 ==> Common(Plus(v, mask), bit) == 0
  {
  }

  lemma PlusLeft(v: bv32, mask: bv32, bit: bv32)
    ensures Common(v, bit) != 0 ==> Common(Plus(v, mask), bit) != 0
  {
  }

  lemma PlusRight(v: bv32, mask: bv32, bit: bv32)
    ensures Common(mask, bit) != 0 ==> Common(Plus(v, mask), bit) != 0
  {
  }

  lemma MinusOther(v: bv32, mask: bv32, bit: bv32)
    requires Common(mask, bit) == 0
    ensures Common(Minus(v, mask), bit) == Common(v, bit)
  {
    hide Common, Minus;
    Kept(mask, bit);
    Regroup(v, mask, bit);
  }

  lemma Kept(mask: bv32, bit: bv32)
    requires Common(mask, bit) == 0
    ensures Common(!mask, bit) == bit
  {
  }

  lemma Regroup(v: bv32, mask: bv32, bit: bv32)
    ensures Common(Minus(v, mask), bit) == Common(v, Common(!mask, bit))
  {
  }

  lemma MinusSame(v: bv32, mask: bv32, bit: bv32)
    requires Common(mask, bit) == bit
    ensures Common(Minus(v, mask), bit) == 0
  {
  }

  lemma Less(y: bv32, x: bv32)
    requires Common(y, x) != x
    ensures Common(y, x) < x
  {
    hide Common, Plus;
    Halves(y, x);
    NotAll(y, x);
    Grows(Common(y, x), Common(!y, x));
  }

  lemma Halves(y: bv32, x: bv32)
    ensures Common(Common(y, x), Common(!y, x)) == 0
    ensures Plus(Common(y, x), Common(!y, x)) == x
  {
  }

  lemma Grows(a: bv32, r: bv32)
    requires Common(a, r) == 0 && r != 0
    ensures a < Plus(a, r)
  {
  }

  lemma NotAll(y: bv32, x: bv32)
    requires Common(y, x) != x
    ensures Common(!y, x) != 0
  {
  }

  /** There is a single bit in every mask but the empty one. */
  lemma {:induction false} SomeBit(x: bv32) returns (bit: bv32)
    requires x != 0
    ensures Single(bit) && Common(bit, x) == bit
    decreases x
  {
    hide Common;
    if Single(x) {
      bit := x;
      Itself(x);
    } else {
      var y :| Common(y, x) != 0 && Common(y, x) != x;
      Less(y, x);
      bit := SomeBit(Common(y, x));
      Deeper(bit, y, x);
    }
  }

  lemma Itself(x: bv32)
    ensures Common(x, x) == x
  {
  }

  lemma Deeper(bit: bv32, y: bv32, x: bv32)
    requires Common(bit, Common(y, x)) == bit
    ensures Common(bit, x) == bit
  {
  }

  /** Masks meet exactly if there is a bit in both. */
  lemma CommonBit(v: bv32, mask: bv32) returns (bit: bv32)
    requires Meets(v, mask)
    ensures Single(bit) && Meets(v, bit) && Meets(mask, bit)
  {
    bit := SomeBit(v & mask);
    assert bit != 0;
    hide Single;
    BothMeet(bit, v, mask);
  }

  lemma BothMeet(bit: bv32, v: bv32, mask: bv32)
    requires Common(bit, v & mask) == bit && bit != 0
    ensures Meets(v, bit) && Meets(mask, bit)
  {
  }

  lemma BitMeets(v: bv32, mask: bv32, bit: bv32)
    requires Single(bit) && Meets(v, bit) && Meets(mask, bit)
    ensures Meets(v, mask)
  {
    assert Common(v, bit) == bit && Common(mask, bit) == bit && bit != 0;
    hide Single;
    SharedAll(v, mask, bit);
  }

  lemma SharedAll(v: bv32, mask: bv32, bit: bv32)
    requires Common(v, bit) == bit && Common(mask, bit) == bit && bit != 0
    ensures Meets(v, mask)
  {
  }
}
