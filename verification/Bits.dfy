/** Packed register files: words cut into equal lanes, and the read-modify-write
    `(word & ~(ones << pos)) | (v << pos)` that sets one of them. */
module Bits {

  /** `(word & ~mask) | value`. */
  function Merge(w: bv32, mask: bv32, value: bv32): bv32 {
    (w & !mask) | value
  }

  function Shl(v: bv32, n: bv32): bv32
    requires n < 32
  {
    v << n
  }

  lemma MergeNothing(w: bv32, mask: bv32)
    ensures Merge(w, mask, 0) == AndNot(w, mask)
  {
  }

  lemma ShlZero(n: bv32)
    requires n < 32
    ensures Shl(0, n) == 0
  {
  }

  /* ---- 16 lanes of two bits ---- */

  function Lane2(w: bv32, k: bv32): bv32
    requires k < 16
  {
    (w >> (2 * k)) & 3
  }

  function Put2(w: bv32, k: bv32, v: bv32): bv32
    requires k < 16
  {
    Merge(w, Shl(3, 2 * k), Shl(v, 2 * k))
  }

  lemma Put2Sets(w: bv32, k: bv32, v: bv32)
    requires k < 16 && v < 4
    ensures Lane2(Put2(w, k, v), k) == v
  {
  }

  lemma Put2Keeps(w: bv32, k: bv32, v: bv32, q: bv32)
    requires k < 16 && v < 4 && q < 16 && q != k
    ensures Lane2(Put2(w, k, v), q) == Lane2(w, q)
  {
  }

  lemma Lane2Fits(w: bv32, k: bv32)
    requires k < 16
    ensures Lane2(w, k) < 4
  {
  }

  lemma LowLanes2Decide(w: bv32, x: bv32)
    requires Lane2(w, 0) == Lane2(x, 0) && Lane2(w, 1) == Lane2(x, 1) && Lane2(w, 2) == Lane2(x, 2)
             && Lane2(w, 3) == Lane2(x, 3)
    requires Lane2(w, 4) == Lane2(x, 4) && Lane2(w, 5) == Lane2(x, 5) && Lane2(w, 6) == Lane2(x, 6)
             && Lane2(w, 7) == Lane2(x, 7)
    ensures w & 0xFFFF == x & 0xFFFF
  {
  }

  lemma HighLanes2Decide(w: bv32, x: bv32)
    requires Lane2(w, 8) == Lane2(x, 8) && Lane2(w, 9) == Lane2(x, 9) && Lane2(w, 10) == Lane2(x, 10)
             && Lane2(w, 11) == Lane2(x, 11)
    requires Lane2(w, 12) == Lane2(x, 12) && Lane2(w, 13) == Lane2(x, 13) && Lane2(w, 14) == Lane2(x, 14)
             && Lane2(w, 15) == Lane2(x, 15)
    ensures w & 0xFFFF_0000 == x & 0xFFFF_0000
  {
  }

  lemma HalvesDecide(w: bv32, x: bv32)
    requires w & 0xFFFF == x & 0xFFFF && w & 0xFFFF_0000 == x & 0xFFFF_0000
    ensures w == x
  {
  }

  /** A word is its sixteen lanes. */
  lemma Lanes2Decide(w: bv32, x: bv32)
    requires forall k: bv32 | k < 16 :: Lane2(w, k) == Lane2(x, k)
    ensures w == x
  {
    hide Lane2;
    LowLanes2Decide(w, x);
    HighLanes2Decide(w, x);
    HalvesDecide(w, x);
  }

  /* ---- single bits ---- */

  function Lane1(w: bv32, k: bv32): bv32
    requires k < 32
  {
    (w >> k) & 1
  }

  function Put1(w: bv32, k: bv32, v: bv32): bv32
    requires k < 32
  {
    Merge(w, Shl(1, k), Shl(v, k))
  }

  lemma Put1Sets(w: bv32, k: bv32, v: bv32)
    requires k < 32 && v < 2
    ensures Lane1(Put1(w, k, v), k) == v
  {
  }

  lemma Put1Keeps(w: bv32, k: bv32, v: bv32, q: bv32)
    requires k < 32 && v < 2 && q < 32 && q != k
    ensures Lane1(Put1(w, k, v), q) == Lane1(w, q)
  {
  }

  /* ---- eight lanes of four bits ---- */

  function Lane4(w: bv32, k: bv32): bv32
    requires k < 8
  {
    (w >> (4 * k)) & 0xF
  }

  function Put4(w: bv32, k: bv32, v: bv32): bv32
    requires k < 8
  {
    Merge(w, Shl(0xF, 4 * k), Shl(v, 4 * k))
  }

  lemma Put4Sets(w: bv32, k: bv32, v: bv32)
    requires k < 8 && v < 16
    ensures Lane4(Put4(w, k, v), k) == v
  {
  }

  lemma Put4Keeps(w: bv32, k: bv32, v: bv32, q: bv32)
    requires k < 8 && v < 16 && q < 8 && q != k
    ensures Lane4(Put4(w, k, v), q) == Lane4(w, q)
  {
  }

  lemma ZeroLanes4(w: bv32)
    requires forall k: bv32 | k < 8 :: Lane4(w, k) == 0
    ensures w == 0
  {
    assert Lane4(w, 0) == 0 && Lane4(w, 1) == 0 && Lane4(w, 2) == 0 && Lane4(w, 3) == 0;
    assert Lane4(w, 4) == 0 && Lane4(w, 5) == 0 && Lane4(w, 6) == 0 && Lane4(w, 7) == 0;
  }

  lemma ZeroLowBits(w: bv32)
    requires Lane1(w, 0) == 0 && Lane1(w, 1) == 0 && Lane1(w, 2) == 0 && Lane1(w, 3) == 0 && Lane1(w, 4) == 0
             && Lane1(w, 5) == 0 && Lane1(w, 6) == 0 && Lane1(w, 7) == 0
    requires Lane1(w, 8) == 0 && Lane1(w, 9) == 0 && Lane1(w, 10) == 0 && Lane1(w, 11) == 0 && Lane1(w, 12) == 0
             && Lane1(w, 13) == 0 && Lane1(w, 14) == 0 && Lane1(w, 15) == 0
    ensures w & 0xFFFF == 0
  {
  }

  /* ---- four bytes, each with a priority in its high half ---- */

  function Byte(w: bv32, k: bv32): bv32
    requires k < 4
  {
    (w >> (8 * k)) & 0xFF
  }

  function PutHigh(w: bv32, k: bv32, v: bv32): bv32
    requires k < 4
  {
    (w & !(0xFF << (8 * k))) | ((v << 4) << (8 * k))
  }

  lemma PutHighSets(w: bv32, k: bv32, v: bv32)
    requires k < 4 && v < 16
    ensures Byte(PutHigh(w, k, v), k) == v << 4
  {
  }

  lemma PutHighKeeps(w: bv32, k: bv32, v: bv32, q: bv32)
    requires k < 4 && v < 16 && q < 4 && q != k
    ensures Byte(PutHigh(w, k, v), q) == Byte(w, q)
  {
  }

  /* ---- bit sets ---- */

  function OneBit(k: bv32): bv32
    requires k < 32
  {
    1 << k
  }

  predicate On(w: bv32, k: bv32)
    requires k < 32
  {
    w & OneBit(k) != 0
  }

  predicate BitAt(w: bv32, k: bv32)
    requires k < 32
  {
    (w >> k) & 1 == 1
  }

  /** Element `k` of a word is its bit number `k`. */
  lemma OnIsBit(w: bv32, k: bv32)
    requires k < 32
    ensures On(w, k) <==> BitAt(w, k)
  {
  }

  /** What a write-1 register makes of a store. */
  function Or(x: bv32, v: bv32): bv32 {
    x | v
  }

  function AndNot(x: bv32, v: bv32): bv32 {
    x & !v
  }

  /** `reg |= 1 << k` and `reg &= ~(1 << k)`. */
  function With(w: bv32, k: bv32): bv32
    requires k < 32
  {
    Or(w, OneBit(k))
  }

  function Without(w: bv32, k: bv32): bv32
    requires k < 32
  {
    AndNot(w, OneBit(k))
  }

  lemma OrSelf(x: bv32, k: bv32)
    requires k < 32
    ensures On(Or(x, OneBit(k)), k)
  {
  }

  lemma OrOther(x: bv32, k: bv32, q: bv32)
    requires k < 32 && q < 32 && q != k
    ensures Or(x, OneBit(k)) & OneBit(q) == x & OneBit(q)
  {
  }

  lemma OrAdds(x: bv32, k: bv32, q: bv32)
    requires k < 32 && q < 32
    ensures On(Or(x, OneBit(k)), q) <==> q == k || On(x, q)
  {
    hide OneBit, Or;
    if q == k {
      OrSelf(x, k);
    } else {
      OrOther(x, k, q);
    }
  }

  lemma AndNotSelf(x: bv32, k: bv32)
    requires k < 32
    ensures !On(AndNot(x, OneBit(k)), k)
  {
  }

  lemma AndNotOther(x: bv32, k: bv32, q: bv32)
    requires k < 32 && q < 32 && q != k
    ensures AndNot(x, OneBit(k)) & OneBit(q) == x & OneBit(q)
  {
  }

  lemma AndNotRemoves(x: bv32, k: bv32, q: bv32)
    requires k < 32 && q < 32
    ensures On(AndNot(x, OneBit(k)), q) <==> q != k && On(x, q)
  {
    hide OneBit, AndNot;
    if q == k {
      AndNotSelf(x, k);
    } else {
      AndNotOther(x, k, q);
    }
  }

  lemma WithAdds(w: bv32, k: bv32, q: bv32)
    requires k < 32 && q < 32
    ensures On(With(w, k), q) <==> q == k || On(w, q)
  {
    hide On, OneBit, Or;
    OrAdds(w, k, q);
  }

  lemma WithoutRemoves(w: bv32, k: bv32, q: bv32)
    requires k < 32 && q < 32
    ensures On(Without(w, k), q) <==> q != k && On(w, q)
  {
    hide On, OneBit, AndNot;
    AndNotRemoves(w, k, q);
  }
}
