/**
 Machine words: the modular comparison of ext/MoodyCamel/concurrentqueue.h and the power-of-two rounding
 both queues use to size their buffers.
 */
module Words {

  const WORD: int := 0x1_0000_0000_0000_0000
  const HALF: int := 0x8000_0000_0000_0000

  /** Elements of a block of ConcurrentQueue. */
  const BLOCK_SIZE: int := 32

  /** `circular_less_than` on 64-bit words: `(a - b) mod 2^64 > 2^63`. */
  predicate CircularLessThan(a: int, b: int)
    requires 0 <= a < WORD && 0 <= b < WORD
  {
    (a - b) % WORD > HALF
  }

  /** On the words of two unbounded counters the comparison is true exactly when the second is ahead by
      some d with 0 < d < 2^63, up to whole turns of the word. */
  lemma CircularLessThanExact(x: nat, y: nat)
    ensures CircularLessThan(x % WORD, y % WORD) <==> 0 < (y - x) % WORD < HALF
  {
    ModSub(x, y);
    ModSub(y, x);
    var d := (y - x) % WORD;
    assert (x - y) % WORD == if d == 0 then 0 else WORD - d by { ModNeg(y - x); }
  }

  /** So for counters less than half a turn apart it is the order of the counters, wrapped or not. */
  lemma CircularLessThanIsOrder(x: nat, y: nat)
    requires -HALF <= y - x < HALF
    ensures CircularLessThan(x % WORD, y % WORD) <==> x < y
  {
    CircularLessThanExact(x, y);
    if y >= x { ModSmall(y - x); } else { ModShift(y - x); }
  }

  /** And outside that window it is not: half a turn ahead reads as "not less". */
  lemma CircularLessThanWindow(x: nat, d: nat)
    requires 0 < d < WORD
    ensures CircularLessThan(x % WORD, (x + d) % WORD) <==> d < HALF
  {
    CircularLessThanExact(x, x + d);
    ModSmall(d);
  }

  lemma ModSmall(d: int)
    requires 0 <= d < WORD
    ensures d % WORD == d
  {
  }

  lemma ModShift(d: int)
    requires -WORD <= d < 0
    ensures d % WORD == d + WORD || (d == -WORD && d % WORD == 0)
  {
  }

  lemma ModNeg(d: int)
    ensures (-d) % WORD == if d % WORD == 0 then 0 else WORD - d % WORD
  {
    var q, r := d / WORD, d % WORD;
    assert d == q * WORD + r;
    assert -d == -q * WORD - r;
    if r == 0 { assert -d == -q * WORD; } else { assert -d == (-q - 1) * WORD + (WORD - r); }
  }

  lemma ModSub(x: int, y: int)
    ensures (x % WORD - y % WORD) % WORD == (x - y) % WORD
  {
    var q := x / WORD - y / WORD;
    assert x - y == q * WORD + (x % WORD - y % WORD);
  }

  // ---------- rounding up to a power of two ----------

  /** A word with one bit set. */
  predicate PowerOfTwo(p: bv64) {
    p != 0 && p & (p - 1) == 0
  }

  /** What `& (n - 1)` makes of the next index in a buffer of size `n`. */
  lemma MaskWraps(n: bv64, i: bv64)
    requires PowerOfTwo(n) && i < n
    ensures (i + 1) & (n - 1) == if i + 1 == n then 0 else i + 1
  {
  }

  /** Every bit below the highest set one is set as well. */
  predicate Filled(y: bv64) {
    y & (y + 1) == 0
  }

  /** `y` with its set bits copied downwards by `w`. */
  function Copied(y: bv64, w: nat): bv64
    requires w <= 64
  {
    y | (y >> w)
  }

  /** All six copies. */
  function Spread(y: bv64): bv64 {
    Copied(Copied(Copied(Copied(Copied(Copied(y, 1), 2), 4), 8), 16), 32)
  }

  function SixShifts(y: bv64): bv64 {
    var a := y | (y >> 1);
    var b := a | (a >> 2);
    var c := b | (b >> 4);
    var d := c | (c >> 8);
    var e := d | (d >> 16);
    e | (e >> 32)
  }

  lemma CopiedBy1(y: bv64)
    ensures Copied(y, 1) == y | (y >> 1)
  {
  }

  lemma CopiedBy2(y: bv64)
    ensures Copied(y, 2) == y | (y >> 2)
  {
  }

  lemma CopiedBy4(y: bv64)
    ensures Copied(y, 4) == y | (y >> 4)
  {
  }

  lemma CopiedBy8(y: bv64)
    ensures Copied(y, 8) == y | (y >> 8)
  {
  }

  lemma CopiedBy16(y: bv64)
    ensures Copied(y, 16) == y | (y >> 16)
  {
  }

  lemma CopiedBy32(y: bv64)
    ensures Copied(y, 32) == y | (y >> 32)
  {
  }

  lemma SpreadIsSix(y: bv64)
    ensures Spread(y) == SixShifts(y)
  {
    var a := Copied(y, 1);
    var b := Copied(a, 2);
    var c := Copied(b, 4);
    var d := Copied(c, 8);
    var e := Copied(d, 16);
    CopiedBy1(y);
    CopiedBy2(a);
    CopiedBy4(b);
    CopiedBy8(c);
    CopiedBy16(d);
    CopiedBy32(e);
  }

  /** The copies fill the word below its highest bit, */
  lemma SixFill(y: bv64)
    ensures Filled(SixShifts(y))
  {
  }

  lemma SixAbove(y: bv64)
    ensures y <= SixShifts(y)
  {
  }

  /** and add no higher one. */
  lemma SixKeepTop(y: bv64)
    ensures SixShifts(y) ^ (SixShifts(y) >> 1) <= y
  {
  }

  /** A power of two above the highest bit of a filled word is above the word. */
  lemma AboveTop(y: bv64, q: bv64)
    requires Filled(y) && PowerOfTwo(q) && y ^ (y >> 1) < q
    ensures y < q
  {
  }

  lemma AfterFilled(y: bv64)
    requires Filled(y) && y != 0xFFFF_FFFF_FFFF_FFFF
    ensures PowerOfTwo(y + 1)
  {
  }

  /** A power of two that is not below `x` is not below the one after the spread of `x - 1`. */
  lemma LeastPower(x: bv64, y: bv64, q: bv64)
    requires 1 <= x && Filled(y) && y ^ (y >> 1) <= x - 1 && PowerOfTwo(q) && x <= q
    ensures y < q
  {
    assert y ^ (y >> 1) < q;
    AboveTop(y, q);
  }

  /** `x |= x >> 1`, `x |= x >> 2`, `x |= x >> 4`, and the loop over the bytes. */
  method SpreadBits(x: bv64) returns (y: bv64)
    ensures y == Spread(x)
  {
    y := Copied(x, 1);
    y := Copied(y, 2);
    y := Copied(y, 4);
    ghost var a := y;
    var i: nat := 1;
    while i < 8
      invariant i == 1 || i == 2 || i == 4 || i == 8
      invariant i == 1 ==> y == a
      invariant i == 2 ==> y == Copied(a, 8)
      invariant i == 4 ==> y == Copied(Copied(a, 8), 16)
      invariant i == 8 ==> y == Copied(Copied(Copied(a, 8), 16), 32)
      decreases 8 - i
    {
      y := Copied(y, 8 * i);
      i := 2 * i;
    }
  }

  /** The least power of two not below `x`, for every `x` from 1 to 2^63. */
  method CeilToPow2(x: bv64) returns (p: bv64)
    requires 1 <= x <= 0x8000_0000_0000_0000
    ensures PowerOfTwo(p) && x <= p
    ensures forall q: bv64 :: PowerOfTwo(q) && x <= q ==> p <= q
  {
    var y := SpreadBits(x - 1);
    SpreadIsSix(x - 1);
    SixFill(x - 1);
    SixAbove(x - 1);
    SixKeepTop(x - 1);
    p := y + 1;
    LeastPower(x, y, 0x8000_0000_0000_0000);
    AfterFilled(y);
    forall q: bv64 | PowerOfTwo(q) && x <= q ensures p <= q {
      LeastPower(x, y, q);
    }
  }
}
