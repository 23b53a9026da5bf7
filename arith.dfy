/** Floor-division facts the interval arithmetic relies on. */
module Arith {

  lemma MulLe(x: nat, y: nat, d: nat)
    requires x <= y
    ensures x * d <= y * d
  {
    var k: nat := y - x;
    assert y * d == x * d + k * d;
  }

  lemma MulLtCancel(x: nat, y: nat, d: nat)
    requires x * d < y * d
    ensures x < y
  {
    if x >= y {
      MulLe(y, x, d);
    }
  }

  /** Floor division is determined by quotient and remainder. */
  lemma DivUnique(a: nat, d: nat, q: nat, r: nat)
    requires d > 0 && r < d && a == q * d + r
    ensures a / d == q && a % d == r
  {
    var q', r' := a / d, a % d;
    assert a == q' * d + r';
    assert q * d < (q' + 1) * d;
    MulLtCancel(q, q' + 1, d);
    assert q' * d < (q + 1) * d;
    MulLtCancel(q', q + 1, d);
  }

  lemma MulDivCancel(x: nat, d: nat)
    requires d > 0
    ensures (x * d) / d == x && (x * d) % d == 0
  {
    DivUnique(x * d, d, x, 0);
  }

  /** Subtracting the remainder leaves the largest multiple of the divisor not above the dividend. */
  lemma SubRemainder(a: nat, d: nat)
    requires d > 0
    ensures a - a % d == (a / d) * d
    ensures (a - a % d) / d == a / d && (a - a % d) % d == 0
  {
    MulDivCancel(a / d, d);
  }

  /** Difference of two multiples of d. */
  lemma DivOfDifference(a: nat, b: nat, d: nat)
    requires d > 0 && b <= a && a % d == 0 && b % d == 0
    ensures (a - b) % d == 0 && (a - b) / d == a / d - b / d
  {
    assert a == (a / d) * d;
    assert b == (b / d) * d;
    MulLtCancel(b / d, a / d + 1, d);
    var k: nat := a / d - b / d;
    assert a - b == k * d;
    MulDivCancel(k, d);
  }

  lemma SubMul(t: nat, u: nat, d: nat)
    requires u <= t
    ensures t * d - u * d == (t - u) * d
  {
  }

  /** Rounding down to a multiple never exceeds the dividend. */
  lemma FloorMulLe(a: nat, d: nat)
    requires d > 0
    ensures (a / d) * d <= a
  {
  }

  /** Floor division is monotone in the dividend. */
  lemma DivMonotone(a: nat, b: nat, d: nat)
    requires d > 0 && a <= b
    ensures a / d <= b / d
  {
    assert a == (a / d) * d + a % d;
    assert b == (b / d) * d + b % d;
    assert (a / d) * d < (b / d + 1) * d;
    MulLtCancel(a / d, b / d + 1, d);
  }

  /** The floors of two parts of a whole multiple lose at most one unit between them. */
  lemma SplitFloor(a: nat, b: nat, d: nat, x: nat)
    requires d > 0 && a + b == x * d
    ensures x - 1 <= a / d + b / d <= x
  {
    var s := a / d + b / d;
    assert a == (a / d) * d + a % d;
    assert b == (b / d) * d + b % d;
    assert x * d == s * d + (a % d + b % d);
    assert s * d < (x + 1) * d;
    MulLtCancel(s, x + 1, d);
    assert x * d < (s + 2) * d;
    MulLtCancel(x, s + 2, d);
  }
}
