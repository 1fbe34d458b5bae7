/**
 Arithmetic modulo a capacity: what `& (capacity - 1)` computes on indices, for capacities that are powers of
 two.
 */
module Modular {

  function Pow2(k: nat): (r: nat)
    ensures r > 0
  {
    if k == 0 then 1 else 2 * Pow2(k - 1)
  }

  predicate Congruent(a: int, b: int, c: int)
    requires c > 0
  {
    (a - b) % c == 0
  }

  lemma AtLeastOnce(d: int, c: int)
    requires c > 0
    ensures d > 0 ==> d * c >= c
    ensures d < 0 ==> d * c <= -c
  {
    if d > 0 { assert (d - 1) * c >= 0; }
    if d < 0 { assert (-d - 1) * c >= 0; }
  }

  lemma Distribute(a: int, b: int, c: int)
    ensures (a + b) * c == a * c + b * c
    ensures (a - b) * c == a * c - b * c
  {
  }

  /** Quotient and remainder are the only ones that fit. */
  lemma SameRemainder(x: int, c: int, q: int, r: int)
    requires c > 0 && q * c + r == x && 0 <= r < c
    ensures x % c == r
  {
    var d := q - x / c;
    Distribute(q, x / c, c);
    AtLeastOnce(d, c);
  }

  lemma FromQuotient(a: int, b: int, c: int, q: int)
    requires c > 0 && a - b == q * c
    ensures Congruent(a, b, c)
  {
    SameRemainder(a - b, c, q, 0);
  }

  lemma ToQuotient(a: int, b: int, c: int) returns (q: int)
    requires c > 0 && Congruent(a, b, c)
    ensures a - b == q * c
  {
    q := (a - b) / c;
  }

  lemma Sym(a: int, b: int, c: int)
    requires c > 0 && Congruent(a, b, c)
    ensures Congruent(b, a, c)
  {
    var q := ToQuotient(a, b, c);
    Distribute(0, q, c);
    FromQuotient(b, a, c, 0 - q);
  }

  lemma Trans(a: int, b: int, d: int, c: int)
    requires c > 0 && Congruent(a, b, c) && Congruent(b, d, c)
    ensures Congruent(a, d, c)
  {
    var q := ToQuotient(a, b, c);
    var r := ToQuotient(b, d, c);
    Distribute(q, r, c);
    FromQuotient(a, d, c, q + r);
  }

  lemma ModCongruent(a: int, c: int)
    requires c > 0
    ensures Congruent(a, a % c, c)
  {
    FromQuotient(a, a % c, c, a / c);
  }

  /** Congruent and less than a turn apart is equal. */
  lemma Close(a: int, b: int, c: int)
    requires c > 0 && Congruent(a, b, c) && a - b < c && b - a < c
    ensures a == b
  {
    var q := ToQuotient(a, b, c);
    AtLeastOnce(q, c);
  }

  predicate Divides(c: int, d: int)
    requires c > 0
  {
    d % c == 0
  }

  lemma Coarser(a: int, b: int, c: int, d: int)
    requires c > 0 && d > 0 && Divides(c, d) && Congruent(a, b, d)
    ensures Congruent(a, b, c)
  {
    var q := ToQuotient(a, b, d);
    var k := d / c;
    assert d == k * c;
    assert q * (k * c) == (q * k) * c;
    FromQuotient(a, b, c, q * k);
  }

  lemma {:induction false} Pow2Divides(i: nat, j: nat)
    requires i <= j
    ensures Divides(Pow2(i), Pow2(j))
    decreases j
  {
    var c := Pow2(i);
    if i == j {
      SameRemainder(c, c, 1, 0);
    } else {
      Pow2Divides(i, j - 1);
      var k := Pow2(j - 1) / c;
      assert Pow2(j - 1) == k * c;
      assert 2 * (k * c) == (2 * k) * c;
      SameRemainder(Pow2(j), c, 2 * k, 0);
    }
  }

  lemma {:induction false} Pow2Sum(i: nat, j: nat)
    ensures Pow2(i + j) == Pow2(i) * Pow2(j)
    decreases i
  {
    if i > 0 {
      Pow2Sum(i - 1, j);
      assert Pow2(i) * Pow2(j) == 2 * (Pow2(i - 1) * Pow2(j));
    }
  }

  lemma Pow2Of16()
    ensures Pow2(8) == 0x100 && Pow2(11) == 0x800 && Pow2(16) == 0x1_0000
  {
    assert Pow2(1) == 2 && Pow2(2) == 4 && Pow2(3) == 8 && Pow2(4) == 16;
    Pow2Sum(4, 4);
    Pow2Sum(8, 8);
    Pow2Sum(3, 8);
  }

  lemma Pow2OfWord()
    ensures Pow2(59) == 0x800_0000_0000_0000 && Pow2(64) == 0x1_0000_0000_0000_0000
  {
    Pow2Of16();
    Pow2Sum(16, 16);
    Pow2Sum(32, 32);
    Pow2Sum(11, 16);
    Pow2Sum(27, 32);
  }

  /** A power of two. */
  ghost predicate IsPow2(n: nat) {
    exists k: nat :: n == Pow2(k)
  }

  /** The least power of two that is at least `x`, searched upwards from the k-th. */
  function CeilPow2(x: nat, k: nat := 0): (r: nat)
    ensures x <= r && Pow2(k) <= r
    decreases if x <= Pow2(k) then 0 else x - Pow2(k)
  {
    if x <= Pow2(k) then Pow2(k) else CeilPow2(x, k + 1)
  }

  lemma {:induction false} Pow2Grows(i: nat, j: nat)
    requires i <= j
    ensures Pow2(i) <= Pow2(j)
    decreases j
  {
    if i < j { Pow2Grows(i, j - 1); }
  }

  /** It is one, and no smaller one will do. */
  lemma {:induction false} CeilPow2Is(x: nat, k: nat)
    ensures IsPow2(CeilPow2(x, k))
    ensures forall j: nat :: k <= j && x <= Pow2(j) ==> CeilPow2(x, k) <= Pow2(j)
    decreases if x <= Pow2(k) then 0 else x - Pow2(k)
  {
    if x <= Pow2(k) {
      forall j: nat | k <= j ensures Pow2(k) <= Pow2(j) { Pow2Grows(k, j); }
    } else {
      CeilPow2Is(x, k + 1);
      forall j: nat | k <= j && x <= Pow2(j) ensures CeilPow2(x, k) <= Pow2(j) {
        assert j != k;
      }
    }
  }

  lemma Pow2Doubles(n: nat)
    requires IsPow2(n)
    ensures IsPow2(2 * n)
  {
    var k: nat :| n == Pow2(k);
    assert 2 * n == Pow2(k + 1);
  }
}
