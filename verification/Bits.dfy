/** Unsigned bitwise operations as the table uses them: masking with a power of two minus one,
    and shifting right. They are defined bit by bit, and shown to be remainder and quotient. */
module Bits {

  newtype byte = b: int | 0 <= b < 256

  function Pow2(k: nat): (p: nat)
    ensures p >= 1
  {
    if k == 0 then 1 else 2 * Pow2(k - 1)
  }

  /** Bitwise conjunction of two unsigned numbers. */
  function And(x: nat, y: nat): nat {
    if x == 0 || y == 0 then 0
    else (if x % 2 == 1 && y % 2 == 1 then 1 else 0) + 2 * And(x / 2, y / 2)
  }

  /** Drop the k lowest bits. */
  function ShiftRight(x: nat, k: nat): nat {
    if k == 0 then x else ShiftRight(x / 2, k - 1)
  }

  lemma {:induction false} Halves(x: nat, m: nat)
    requires m >= 1
    ensures x % (2 * m) == x % 2 + 2 * (x / 2 % m)
    ensures x / (2 * m) == x / 2 / m
  {
    var q, r := x / 2 / m, x / 2 % m;
    assert x == 2 * (q * m + r) + x % 2;
    assert x == q * (2 * m) + (2 * r + x % 2);
    DivModUnique(x, 2 * m, q, 2 * r + x % 2);
  }

  lemma MulAtLeast(a: int, d: int)
    requires a >= 1 && d >= 0
    ensures a * d >= d
  {
    assert a * d == d + (a - 1) * d;
  }

  lemma DivModUnique(x: int, d: int, q: int, r: int)
    requires d > 0 && 0 <= r < d && x == q * d + r
    ensures x / d == q && x % d == r
  {
    var p := x / d;
    var gap := q - p;
    assert gap * d == q * d - p * d;
    if gap >= 1 {
      MulAtLeast(gap, d);
    } else if gap <= -1 {
      assert -gap * d == p * d - q * d;
      MulAtLeast(-gap, d);
    }
  }

  lemma {:induction false} MaskIsRemainder(x: nat, k: nat)
    ensures And(x, Pow2(k) - 1) == x % Pow2(k)
  {
    if k == 0 {
      assert x % 1 == 0;
    } else {
      var m := Pow2(k - 1);
      Halves(x, m);
      assert (2 * m - 1) / 2 == m - 1;
      assert (2 * m - 1) % 2 == 1;
      MaskIsRemainder(x / 2, k - 1);
    }
  }

  lemma {:induction false} ShiftIsQuotient(x: nat, k: nat)
    ensures ShiftRight(x, k) == x / Pow2(k)
  {
    if k == 0 {
    } else {
      Halves(x, Pow2(k - 1));
      ShiftIsQuotient(x / 2, k - 1);
    }
  }

  /** The least number of groups of size d that hold n things. */
  function CeilDiv(n: nat, d: nat): (c: nat)
    requires d > 0
    ensures c * d >= n
    ensures c > 0 ==> (c - 1) * d < n
  {
    var q := n / d;
    assert n == q * d + n % d;
    if n % d == 0 then q else assert (q + 1) * d == q * d + d; q + 1
  }

  /** Shift and mask compute the rounded-up quotient. */
  lemma CeilByShiftAndMask(n: nat, k: nat)
    ensures ShiftRight(n, k) + (if And(n, Pow2(k) - 1) != 0 then 1 else 0) == CeilDiv(n, Pow2(k))
  {
    MaskIsRemainder(n, k);
    ShiftIsQuotient(n, k);
  }

  /** Doubling the modulus splits a residue class in two. */
  lemma DoubledModulus(x: nat, n: nat)
    requires n > 0
    ensures x % (2 * n) % n == x % n
    ensures x % (2 * n) == x % n || x % (2 * n) == x % n + n
  {
    var q, r := x / (2 * n), x % (2 * n);
    assert x == q * (2 * n) + r;
    if r < n {
      assert x == (2 * q) * n + r;
      DivModUnique(x, n, 2 * q, r);
      DivModUnique(r, n, 0, r);
    } else {
      assert x == (2 * q + 1) * n + (r - n);
      DivModUnique(x, n, 2 * q + 1, r - n);
      DivModUnique(r, n, 1, r - n);
    }
  }
}
