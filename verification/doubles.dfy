/** JavaScript numbers as far as offsets need them (packages/shared/src/binary-framing.ts). */
module Doubles {
  /** A JavaScript number. */
  datatype Number = NaN | PositiveInfinity | NegativeInfinity | Finite(value: real)

  const MAX_SAFE_INTEGER := 9007199254740991

  predicate IsNegative(v: Number) {
    v.NegativeInfinity? || (v.Finite? && v.value < 0.0)
  }

  predicate IsInteger(v: Number) {
    v.Finite? && v.value == v.value.Floor as real
  }

  function Pow2(k: nat): nat {
    if k == 0 then 1 else 2 * Pow2(k - 1)
  }

  /** The distance between neighbouring doubles at `n`. */
  function Ulp(n: nat): (u: nat)
    ensures u > 0
  {
    if n <= MAX_SAFE_INTEGER then 1 else 2 * Ulp(n / 2)
  }

  /** The double nearest to an integer, ties to the even significand. */
  function Round(n: nat): nat {
    var u := Ulp(n);
    var q, r := n / u, n % u;
    if 2 * r < u || (2 * r == u && q % 2 == 0) then q * u else (q + 1) * u
  }

  lemma DivMod(n: nat, u: nat)
    requires u > 0
    ensures n / u * u + n % u == n && 0 <= n % u < u
  {
  }

  lemma Monotone(a: nat, b: nat, u: nat)
    requires a <= b
    ensures a * u <= b * u
  {
  }

  lemma {:induction false} MultipleHasNoRemainder(q: nat, u: nat)
    requires u > 0
    ensures (q * u) % u == 0 && q * u / u == q
  {
    DivMod(q * u, u);
    var d := q * u / u;
    if d < q {
      Monotone(d + 1, q, u);
    } else {
      Monotone(q + 1, d + 1, u);
    }
  }

  /** The rounded value is a multiple of the distance, at most half of it away. */
  lemma RoundIsNearest(n: nat)
    ensures Round(n) % Ulp(n) == 0
    ensures 2 * (Round(n) - n) <= Ulp(n) && 2 * (n - Round(n)) <= Ulp(n)
  {
    var u := Ulp(n);
    var q, r := n / u, n % u;
    DivMod(n, u);
    assert (q + 1) * u == q * u + u;
    MultipleHasNoRemainder(q, u);
    MultipleHasNoRemainder(q + 1, u);
  }

  lemma {:induction false} UlpIsSmall(n: nat)
    requires n > MAX_SAFE_INTEGER
    ensures 4503599627370496 * Ulp(n) <= n && Ulp(n) >= 2
  {
    if n / 2 > MAX_SAFE_INTEGER {
      UlpIsSmall(n / 2);
    }
  }

  lemma QuotientAtLeast(n: nat, u: nat, m: nat)
    requires u > 0 && m * u <= n
    ensures n / u >= m
  {
    DivMod(n, u);
    if n / u < m {
      Monotone(n / u + 1, m, u);
    }
  }

  /** Rounding is exact up to the largest safe integer and never comes back below it. */
  lemma RoundKeepsSafety(n: nat)
    ensures n <= MAX_SAFE_INTEGER ==> Round(n) == n
    ensures n > MAX_SAFE_INTEGER ==> Round(n) > MAX_SAFE_INTEGER
  {
    if n > MAX_SAFE_INTEGER {
      var u := Ulp(n);
      UlpIsSmall(n);
      QuotientAtLeast(n, u, 4503599627370496);
      Monotone(4503599627370496, n / u, u);
      Monotone(4503599627370496, n / u + 1, u);
    }
  }

  lemma TwiceRemainder(n: nat, u: nat)
    requires u > 0 && n % 2 == 0 && (n / 2) % u == 0
    ensures n % (2 * u) == 0
  {
    var q := n / 2 / u;
    DivMod(n / 2, u);
    assert n == q * (2 * u);
    MultipleHasNoRemainder(q, 2 * u);
  }

  /** A number with at most 53 significant bits is a double. */
  lemma {:induction false} ShortIsExact(m: nat, k: nat)
    requires m <= MAX_SAFE_INTEGER
    ensures Round(m * Pow2(k)) == m * Pow2(k)
  {
    ShortIsMultiple(m, k);
    DivMod(m * Pow2(k), Ulp(m * Pow2(k)));
  }

  lemma {:induction false} ShortIsMultiple(m: nat, k: nat)
    requires m <= MAX_SAFE_INTEGER
    ensures m * Pow2(k) % Ulp(m * Pow2(k)) == 0
    decreases k
  {
    var n := m * Pow2(k);
    if n > MAX_SAFE_INTEGER {
      var half := m * Pow2(k - 1);
      assert n == 2 * half;
      ShortIsMultiple(m, k - 1);
      TwiceRemainder(n, Ulp(half));
    }
  }

  /** Scaling a 32-bit word by 2^32 is exact. */
  lemma HighWordIsExact(high: nat)
    requires high < 0x1_0000_0000
    ensures Round(high * 0x1_0000_0000) == high * 0x1_0000_0000
  {
    assert Pow2(32) == 0x1_0000_0000 by {
      assert Pow2(8) == 256;
      assert Pow2(16) == 65536;
      assert Pow2(24) == 16777216;
    }
    ShortIsExact(high, 32);
  }
}
