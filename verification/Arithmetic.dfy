/** Remainders, powers of two and bit masks. */
module Arithmetic {

  function BitAnd(x: nat, y: nat): nat {
    if x == 0 || y == 0 then 0
    else (if x % 2 == 1 && y % 2 == 1 then 1 else 0) + 2 * BitAnd(x / 2, y / 2)
  }

  function Pow2(k: nat): (r: nat)
    ensures 0 < r
  {
    if k == 0 then 1 else 2 * Pow2(k - 1)
  }

  ghost predicate IsPow2(n: nat) {
    exists k: nat :: n == Pow2(k)
  }

  lemma HalfModulus(x: nat, m: nat)
    requires 0 < m
    ensures x % (2 * m) == x % 2 + 2 * (x / 2 % m)
  {
    var q, r := x / 2 / m, x / 2 % m;
    assert x == (2 * m) * q + (x % 2 + 2 * r) by {
      assert x / 2 == m * q + r;
      assert 2 * (m * q) == (2 * m) * q;
    }
    RemainderUnique(x, 2 * m, q, x % 2 + 2 * r);
  }

  lemma RemainderUnique(x: int, m: nat, q: int, r: nat)
    requires 0 < m && r < m && x == m * q + r
    ensures x % m == r && x / m == q
  {
    var d := x / m - q;
    assert m * (x / m) + x % m == m * q + r;
    assert m * d == r - x % m;
    assert (d >= 1 ==> m * d >= m) && (d <= -1 ==> m * d + m <= 0);
  }

  /** The lowest bit of an all-ones mask keeps the lowest bit. */
  lemma MaskBits(x: nat, half: nat)
    requires 0 < half
    ensures BitAnd(x, 2 * half - 1) == x % 2 + 2 * BitAnd(x / 2, half - 1)
  {
    var y := 2 * half - 1;
    RemainderUnique(y, 2, half - 1, 1);
  }

  /** The bit mask with size - 1 is the remainder by size, for every power of two. */
  lemma {:induction false} MaskIsRemainder(x: nat, k: nat)
    ensures BitAnd(x, Pow2(k) - 1) == x % Pow2(k)
    decreases k
  {
    if k > 0 {
      MaskIsRemainder(x / 2, k - 1);
      HalfModulus(x, Pow2(k - 1));
      MaskBits(x, Pow2(k - 1));
    } else {
      RemainderUnique(x, 1, x, 0);
    }
  }

  lemma {:induction false} BitAndSelf(x: nat)
    ensures BitAnd(x, x) == x
  {
    if x > 0 {
      BitAndSelf(x / 2);
    }
  }

  lemma PowersDouble(n: nat)
    requires 0 < n && n % 2 == 0
    ensures IsPow2(n) <==> IsPow2(n / 2)
  {
    if k: nat :| n == Pow2(k) {
      assert n / 2 == Pow2(k - 1);
    }
    if k: nat :| n / 2 == Pow2(k) {
      assert n == Pow2(k + 1);
    }
  }

  /** The usual test: a positive number and its predecessor have no common bit exactly for powers of
      two. */
  lemma {:induction false} PowerOfTwoTest(n: nat)
    requires 0 < n
    ensures BitAnd(n, n - 1) == 0 <==> IsPow2(n)
  {
    if n == 1 {
      assert n == Pow2(0);
    } else if n % 2 == 0 {
      PowerOfTwoTest(n / 2);
      PowersDouble(n);
      assert (n - 1) / 2 == n / 2 - 1;
    } else {
      BitAndSelf(n / 2);
      assert (n - 1) / 2 == n / 2 > 0;
      forall k: nat ensures n != Pow2(k) {
        assert k > 0 ==> Pow2(k) % 2 == 0;
      }
    }
  }
}
