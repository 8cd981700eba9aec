/**
 pkg/utils/math.go, with Go's integer division written out.
 */
module GoMath {

  const MAX_INT64: int := 0x7fff_ffff_ffff_ffff
  const MAX_UINT64: int := 0xffff_ffff_ffff_ffff
  const MIN_INT64: int := -0x8000_0000_0000_0000

  /** A value of Go's `int`. */
  type Int64 = x: int | MIN_INT64 <= x <= MAX_INT64

  /** Two's-complement wrap-around of a 64-bit Go integer. */
  function Wrap64(x: int): (r: Int64)
    ensures MIN_INT64 <= x <= MAX_INT64 ==> r == x
  {
    (x - MIN_INT64) % 0x1_0000_0000_0000_0000 + MIN_INT64
  }

  function Max(x: int, y: int): int { if x < y then y else x }

  function Min(x: int, y: int): int { if x < y then x else y }

  /** Go's `/` before it wraps: the quotient is truncated toward zero. */
  function GoDiv(x: int, y: int): int
    requires y != 0
  {
    if x >= 0 then x / y else -((-x) / y)
  }

  /** The source's formula; its sum wraps for a numerator near the bound. */
  function CeilDivision(x: int, y: int): Int64
    requires y != 0
  {
    Wrap64(GoDiv(Wrap64(x + y - 1), y))
  }

  /** How many blocks of `size` it takes to cover `n`. */
  function Ceiling(n: int, size: int): int
    requires size > 0
  {
    (n + size - 1) / size
  }

  /** `k` blocks of `size` cover `n` and one block less would not. */
  ghost predicate LeastCover(k: int, n: int, size: int) {
    k * size >= n && (k - 1) * size < n
  }

  lemma MulMonotone(a: int, b: int, y: int)
    requires a <= b && y >= 0
    ensures a * y <= b * y
  {
    assert (b - a) * y >= 0;
    assert b * y == a * y + (b - a) * y;
  }

  lemma Distribute(y: int, a: int, b: int)
    ensures y * (a + b) == y * a + y * b
  {
  }

  lemma LeastCoverUnique(j: int, k: int, n: int, size: int)
    requires size > 0
    requires LeastCover(j, n, size) && LeastCover(k, n, size)
    ensures j == k
  {
    if j < k {
      MulMonotone(j, k - 1, size);
    } else if k < j {
      MulMonotone(k, j - 1, size);
    }
  }

  lemma CeilingIsLeast(n: int, size: int)
    requires size > 0
    ensures LeastCover(Ceiling(n, size), n, size)
  {
    var q, r := (n + size - 1) / size, (n + size - 1) % size;
    assert n + size - 1 == q * size + r;
    assert (q - 1) * size == q * size - size;
  }

  lemma QuotientShrinks(n: int, y: int)
    requires MIN_INT64 <= n <= MAX_INT64 && y > 0
    ensures MIN_INT64 <= GoDiv(n, y) <= MAX_INT64
    ensures n <= 0 ==> GoDiv(n, y) <= 0
  {
    var m := if n >= 0 then n else -n;
    var q, r := m / y, m % y;
    assert m == q * y + r;
    if q > m {
      MulMonotone(1, y, q);
    }
    if q < 0 {
      MulMonotone(q, -1, y);
    }
  }

  /**
   For 64-bit operands the formula is the ceiling exactly when its sum does not wrap and truncation loses nothing:
   the numerator is above -y, or one more than a multiple of y.
   */
  lemma CeilDivisionIsCeiling(x: Int64, y: Int64)
    requires y > 0
    ensures LeastCover(CeilDivision(x, y), x, y) <==> x + y - 1 <= MAX_INT64 && (x > -y || (x - 1) % y == 0)
  {
    var n := x + y - 1;
    QuotientShrinks(Wrap64(n), y);
    if n > MAX_INT64 {
      assert Wrap64(n) == n - 0x1_0000_0000_0000_0000 < 0;
      if LeastCover(CeilDivision(x, y), x, y) {
        MulMonotone(CeilDivision(x, y), 0, y);
        assert false;
      }
    } else {
      assert CeilDivision(x, y) == GoDiv(n, y);
      QuotientIsCeiling(x, y);
    }
  }

  lemma QuotientIsCeiling(x: int, y: int)
    requires y > 0
    ensures LeastCover(GoDiv(x + y - 1, y), x, y) <==> x > -y || (x - 1) % y == 0
  {
    var n := x + y - 1;
    var q, r := n / y, n % y;
    assert n == q * y + r;
    CeilingIsLeast(x, y);
    assert r == (x - 1) % y by {
      ModShift(x - 1, y);
    }
    if n >= 0 {
      assert GoDiv(n, y) == q;
    } else {
      TruncationRoundsUp(n, y);
      if r != 0 {
        assert !LeastCover(q + 1, x, y) by {
          if LeastCover(q + 1, x, y) {
            LeastCoverUnique(q, q + 1, x, y);
          }
        }
      }
    }
  }

  /** At the largest integer the formula yields a negative number of blocks. */
  lemma CeilDivisionAtMax()
    ensures CeilDivision(MAX_INT64, 16) == -0x7ff_ffff_ffff_ffff
  {
    assert Wrap64(MAX_INT64 + 15) == MIN_INT64 + 14;
  }

  lemma ModShift(x: int, y: int)
    requires y > 0
    ensures (x + y) % y == x % y
  {
    var q, r := x / y, x % y;
    assert x + y == (q + 1) * y + r;
    QuotientUnique(x + y, y, q + 1, r);
  }

  lemma QuotientUnique(x: int, y: int, q: int, r: int)
    requires y > 0 && x == q * y + r && 0 <= r < y
    ensures q == x / y && r == x % y
  {
    var q', r' := x / y, x % y;
    assert x == q' * y + r';
    if q > q' {
      MulMonotone(q' + 1, q, y);
    } else if q < q' {
      MulMonotone(q + 1, q', y);
    }
  }

  /** On a negative numerator, truncation is one more than the floor unless the division is exact. */
  lemma TruncationRoundsUp(n: int, y: int)
    requires y > 0 && n < 0
    ensures GoDiv(n, y) == if n % y == 0 then n / y else n / y + 1
  {
    var q, r := n / y, n % y;
    assert n == q * y + r;
    if r == 0 {
      assert -n == (-q) * y + 0;
      QuotientUnique(-n, y, -q, 0);
    } else {
      assert -n == (-q - 1) * y + (y - r);
      QuotientUnique(-n, y, -q - 1, y - r);
    }
  }

  function Pow(n: int, m: nat): int {
    if m == 0 then 1 else n * Pow(n, m - 1)
  }

  /** Powers of two, for block sizes. */
  function Pow2(m: nat): (r: nat)
    ensures r >= 1
  {
    if m == 0 then 1 else 2 * Pow2(m - 1)
  }

  lemma {:induction false} PowOfTwo(m: nat)
    ensures Pow(2, m) == Pow2(m)
  {
    if m > 0 {
      PowOfTwo(m - 1);
    }
  }

  lemma {:induction false} Pow2Monotone(m: nat, n: nat)
    requires m <= n
    ensures Pow2(m) <= Pow2(n)
  {
    if m < n {
      Pow2Monotone(m, n - 1);
    }
  }

  lemma {:induction false} Pow2Sum(m: nat, n: nat)
    ensures Pow2(m + n) == Pow2(m) * Pow2(n)
  {
    if n > 0 {
      Pow2Sum(m, n - 1);
    }
  }

  lemma Pow2Values()
    ensures Pow2(4) == 16 && Pow2(8) == 256 && Pow2(32) == 0x1_0000_0000
  {
    assert Pow2(16) == 0x1_0000;
    assert Pow2(24) == 0x100_0000;
  }

  // ------------------------------------------------------------------ wrap-around

  lemma WrapShift(x: int, k: int)
    ensures Wrap64(x + k * 0x1_0000_0000_0000_0000) == Wrap64(x)
  {
    var m := 0x1_0000_0000_0000_0000;
    var n := x - MIN_INT64;
    var q, r := n / m, n % m;
    assert n + k * m == (q + k) * m + r;
    QuotientUnique(n + k * m, m, q + k, r);
  }

  /** Wrapping an operand of a sum early makes no difference. */
  lemma WrapAdd(x: int, y: int)
    ensures Wrap64(Wrap64(x) + y) == Wrap64(x + y)
  {
    var m := 0x1_0000_0000_0000_0000;
    var q := (x - MIN_INT64) / m;
    assert Wrap64(x) == x - q * m;
    WrapShift(x + y, -q);
  }

  lemma WrapMul(x: int, y: int)
    ensures Wrap64(Wrap64(x) * y) == Wrap64(x * y)
  {
    var m := 0x1_0000_0000_0000_0000;
    var q := (x - MIN_INT64) / m;
    assert Wrap64(x) == x - q * m;
    assert (x - q * m) * y == x * y + (-(q * y)) * m;
    WrapShift(x * y, -(q * y));
  }

  /** Taking away no more than a wrapped value keeps it in range. */
  lemma WrapMinus(x: int, e: int)
    requires 0 <= e <= Wrap64(x) || Wrap64(x) <= e <= 0
    ensures Wrap64(x - e) == Wrap64(x) - e
  {
    WrapAdd(x, -e);
  }

  /** A negation that comes out positive is the true one. */
  lemma WrapNegative(d: int, least: int)
    requires MIN_INT64 <= d <= MAX_INT64 && least >= 0
    ensures Wrap64(-d) > least <==> MIN_INT64 < d < -least
    ensures Wrap64(-d) > least ==> Wrap64(-d) == -d
  {
  }

  /** The 64-bit power; a negative power never enters the loop, so the base itself comes back. */
  method IntPower(n: Int64, m: Int64) returns (result: Int64)
    ensures m >= 0 ==> result == Wrap64(Pow(n, m))
    ensures m < 0 ==> result == n
  {
    hide Wrap64;
    if m == 0 {
      return 1;
    }
    result := n;
    var i := 1;
    assert Pow(n, 1) == n;
    while i < m
      invariant m > 0 ==> 1 <= i <= m && result == Wrap64(Pow(n, i))
      invariant m < 0 ==> i == 1 && result == n
    {
      WrapMul(Pow(n, i), n);
      assert Pow(n, i + 1) == Pow(n, i) * n;
      result := Wrap64(result * n);
      i := i + 1;
    }
  }
}
