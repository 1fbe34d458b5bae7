/**
 The rounding on words (Words.CeilToPow2) and the rounding on numbers (Modular.CeilPow2) are the same. The number a
 word stands for is read off its bits, so that what the words of both queues are sized by is what the models use.
 */
module Rounding {
  import opened Modular
  import opened Words

  function LowBit(x: bv64): nat {
    if x & 1 == 1 then 1 else 0
  }

  /** The number a word stands for. */
  function Value(x: bv64): nat
    decreases x
  {
    if x == 0 then 0 else 2 * Value(x >> 1) + LowBit(x)
  }

  // ---------- words, bit by bit ----------

  lemma HalfOrder(x: bv64, y: bv64)
    requires x <= y
    ensures x / 2 <= y / 2
  {
  }

  lemma HalfIsShift(x: bv64)
    ensures x / 2 == x >> 1
  {
  }

  lemma LowOrder(x: bv64, y: bv64)
    requires x <= y && x >> 1 == y >> 1
    ensures x & 1 == 1 ==> y & 1 == 1
  {
  }

  lemma SameBits(x: bv64, y: bv64)
    requires x >> 1 == y >> 1 && (x & 1 == 1 <==> y & 1 == 1)
    ensures x == y
  {
  }

  lemma EvenWord(p: bv64)
    requires p & 1 == 0 && p != 0
    ensures p >> 1 != 0
  {
  }

  lemma OddWord(p: bv64)
    requires p & 1 == 1 && p >> 1 == 0
    ensures p == 1
  {
  }

  lemma HalfPower(p: bv64)
    requires PowerOfTwo(p) && p != 1
    ensures PowerOfTwo(p >> 1) && p & 1 == 0
  {
  }

  lemma DoublePower(p: bv64)
    requires p & 1 == 0 && p != 0 && PowerOfTwo(p >> 1)
    ensures PowerOfTwo(p)
  {
  }

  lemma LowIsBit(x: bv64)
    ensures x & 1 == 0 || x & 1 == 1
  {
  }

  // ---------- their numbers ----------

  lemma ValueStep(x: bv64)
    ensures Value(x) == 2 * Value(x >> 1) + LowBit(x)
  {
  }

  lemma {:induction false} PositiveValue(x: bv64)
    requires x != 0
    ensures Value(x) > 0
    decreases x
  {
    LowIsBit(x);
    if x & 1 == 0 {
      EvenWord(x);
      PositiveValue(x >> 1);
    }
  }

  lemma SameLowBits(x: bv64, y: bv64)
    requires x >> 1 == y >> 1 && LowBit(x) == LowBit(y)
    ensures x == y
  {
    SameBits(x, y);
  }

  lemma LowBitOrder(x: bv64, y: bv64)
    requires x <= y && x >> 1 == y >> 1
    ensures LowBit(x) <= LowBit(y)
  {
    LowOrder(x, y);
  }

  lemma ShiftOrder(x: bv64, y: bv64)
    requires x <= y
    ensures x >> 1 <= y >> 1
  {
    HalfOrder(x, y);
    HalfIsShift(x);
    HalfIsShift(y);
  }

  lemma ZeroValue(x: bv64)
    ensures Value(x) == 0 <==> x == 0
  {
    if x != 0 { PositiveValue(x); }
  }

  lemma SameHalves(x: bv64, y: bv64)
    requires Value(x) == Value(y) && Value(x) != 0
    ensures Value(x >> 1) == Value(y >> 1) < Value(x)
  {
    ValueStep(x);
    ValueStep(y);
  }

  lemma SameLow(x: bv64, y: bv64)
    requires Value(x) == Value(y) && Value(x) != 0
    ensures LowBit(x) == LowBit(y)
  {
    ValueStep(x);
    ValueStep(y);
  }

  lemma BothZero(x: bv64, y: bv64)
    requires Value(x) == 0 && Value(y) == 0
    ensures x == y
  {
    ZeroValue(x);
    ZeroValue(y);
  }

  lemma SameWords(x: bv64, y: bv64)
    requires Value(x) == Value(y) && Value(x) != 0 && x >> 1 == y >> 1
    ensures x == y
  {
    SameLow(x, y);
    SameLowBits(x, y);
  }

  /** Different words stand for different numbers. */
  lemma {:induction false} ValueTells(x: bv64, y: bv64)
    requires Value(x) == Value(y)
    ensures x == y
    decreases Value(x)
  {
    if Value(x) == 0 {
      BothZero(x, y);
    } else {
      SameHalves(x, y);
      ValueTells(x >> 1, y >> 1);
      SameWords(x, y);
    }
  }

  lemma HalvesDecide(x: bv64, y: bv64)
    requires x <= y
    ensures Value(x >> 1) <= Value(y >> 1) ==> Value(x) <= Value(y)
  {
    if Value(x >> 1) <= Value(y >> 1) { OrderFromHalves(x, y); }
  }

  lemma HalfValue(x: bv64)
    requires Value(x) != 0
    ensures Value(x >> 1) < Value(x)
  {
    ValueStep(x);
  }

  lemma OrderFromHalves(x: bv64, y: bv64)
    requires x <= y && Value(x >> 1) <= Value(y >> 1)
    ensures Value(x) <= Value(y)
  {
    ValueStep(x);
    ValueStep(y);
    if Value(x >> 1) == Value(y >> 1) { LowInOrder(x, y); }
  }

  lemma LowInOrder(x: bv64, y: bv64)
    requires x <= y && Value(x >> 1) == Value(y >> 1)
    ensures LowBit(x) <= LowBit(y)
  {
    ValueTells(x >> 1, y >> 1);
    LowBitOrder(x, y);
  }

  predicate InOrder(x: bv64, y: bv64) {
    x <= y
  }

  lemma HalvesInOrder(x: bv64, y: bv64)
    requires InOrder(x, y) && Value(x) != 0
    ensures InOrder(x >> 1, y >> 1) && Value(x >> 1) < Value(x)
  {
    HalfValue(x);
    ShiftOrder(x, y);
  }

  /** And the order of words is the order of their numbers. */
  lemma {:induction false} ValueOrder(x: bv64, y: bv64)
    requires InOrder(x, y)
    ensures Value(x) <= Value(y)
    decreases Value(x)
  {
    if Value(x) != 0 {
      HalvesInOrder(x, y);
      ValueOrder(x >> 1, y >> 1);
      HalvesDecide(x, y);
    }
  }

  lemma OrderOfValues(x: bv64, y: bv64)
    requires Value(x) <= Value(y)
    ensures x <= y
  {
    if !(x <= y) {
      ValueOrder(y, x);
      ValueTells(x, y);
    }
  }

  /** Words with one bit set stand for the powers of two. */
  lemma {:induction false} PowersAreSame(p: bv64)
    ensures PowerOfTwo(p) <==> IsPow2(Value(p))
    decreases p
  {
    if p == 1 {
      assert Value(1) == Pow2(0);
    } else if p != 0 {
      PowersAreSame(p >> 1);
      LowIsBit(p);
      ValueStep(p);
      if p & 1 == 0 {
        EvenPowers(p);
      } else {
        OddPowers(p);
      }
    }
  }

  lemma EvenPowers(p: bv64)
    requires p & 1 == 0 && p != 0 && (PowerOfTwo(p >> 1) <==> IsPow2(Value(p >> 1))) && Value(p) == 2 * Value(p >> 1)
    ensures PowerOfTwo(p) <==> IsPow2(Value(p))
  {
    if PowerOfTwo(p) {
      HalfPower(p);
      Pow2Doubles(Value(p >> 1));
    } else if IsPow2(Value(p)) {
      var k: nat :| Value(p) == Pow2(k);
      assert k > 0 && Value(p >> 1) == Pow2(k - 1);
      DoublePower(p);
    }
  }

  lemma OddPowers(p: bv64)
    requires p & 1 == 1 && p != 1 && Value(p) == 2 * Value(p >> 1) + 1
    ensures !PowerOfTwo(p) && !IsPow2(Value(p))
  {
    if PowerOfTwo(p) { HalfPower(p); }
    if IsPow2(Value(p)) {
      var k: nat :| Value(p) == Pow2(k);
      if p >> 1 == 0 { OddWord(p); }
      PositiveValue(p >> 1);
    }
  }

  lemma HalfIsLess(p: bv64)
    requires p != 0
    ensures !(p <= p >> 1)
  {
  }

  /** What CeilToPow2 promises of its result. */
  ghost predicate LeastPowerFor(x: bv64, p: bv64) {
    PowerOfTwo(p) && x <= p && forall q: bv64 :: PowerOfTwo(q) && x <= q ==> p <= q
  }

  /** The least power of two among words is the least among all numbers. */
  lemma SameRounding(x: bv64, p: bv64)
    requires LeastPowerFor(x, p)
    ensures Value(p) == CeilPow2(Value(x))
  {
    PowersAreSame(p);
    ValueOrder(x, p);
    CeilPow2Is(Value(x), 0);
    var c := CeilPow2(Value(x));
    var j: nat :| Value(p) == Pow2(j);
    if c < Value(p) {
      var k: nat :| c == Pow2(k);
      if j <= k { Pow2Grows(j, k); }
      Pow2Grows(k, j - 1);
      HalfOfPower(p, j);
      OrderOfValues(x, p >> 1);
      HalfIsLess(p);
    }
  }

  lemma NotOne(p: bv64)
    requires Value(p) > 1
    ensures p != 1
  {
    assert Value(1) == 1;
  }

  lemma HalfOfPower(p: bv64, j: nat)
    requires PowerOfTwo(p) && Value(p) == Pow2(j) && j > 0
    ensures PowerOfTwo(p >> 1) && Value(p >> 1) == Pow2(j - 1)
  {
    NotOne(p);
    HalfPower(p);
    ValueStep(p);
  }

  /** The rounding of both queues, on the bits of its argument, gives the number that the models compute. */
  method CeilToPow2Number(x: bv64) returns (p: bv64)
    requires 1 <= x <= 0x8000_0000_0000_0000
    ensures Value(p) == CeilPow2(Value(x))
  {
    p := CeilToPow2(x);
    SameRounding(x, p);
  }
}
