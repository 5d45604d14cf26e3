/** The fixed-width integers of the source, as ranges of unbounded integers,
    and the few `std` integer operations the core relies on. `time_t`,
    `suseconds_t` and `c_long` are 64-bit signed on the platforms modelled. */
module Primitives {
  import opened Wrappers

  const U32_MAX: int := 0xFFFF_FFFF
  const U64_MAX: int := 0xFFFF_FFFF_FFFF_FFFF
  const I64_MIN: int := -0x8000_0000_0000_0000
  const I64_MAX: int := 0x7FFF_FFFF_FFFF_FFFF

  type u32 = x: int | 0 <= x <= U32_MAX
  type u64 = x: int | 0 <= x <= U64_MAX
  type i64 = x: int | I64_MIN <= x <= I64_MAX

  /** `u64::checked_add`: `None` when the sum does not fit in 64 bits. */
  function CheckedAddU64(a: u64, b: u64): (r: Option<u64>)
    ensures r.Some? <==> a + b <= U64_MAX
    ensures r.Some? ==> r.value == a + b
  {
    if a + b <= U64_MAX then Some(a + b) else None
  }

  /** `u64::checked_mul`: `None` when the product does not fit in 64 bits. */
  function CheckedMulU64(a: u64, b: u64): (r: Option<u64>)
    ensures r.Some? <==> a * b <= U64_MAX
    ensures r.Some? ==> r.value == a * b
  {
    if a * b <= U64_MAX then Some(a * b) else None
  }

  /** `i64::try_from` (the `try_into()` into `time_t`, `c_long` or `suseconds_t`). */
  function TryIntoI64(x: int): (r: Option<i64>)
    ensures r.Some? <==> I64_MIN <= x <= I64_MAX
    ensures r.Some? ==> r.value == x
  {
    if I64_MIN <= x <= I64_MAX then Some(x) else None
  }

  /** Euclidean division is determined by any quotient/remainder pair. */
  lemma DivModUnique(n: int, m: int, q: int, r: int)
    requires m > 0 && 0 <= r < m && n == q * m + r
    ensures n / m == q && n % m == r
  {
    var q', r' := n / m, n % m;
    assert n == q' * m + r';
    assert (q - q') * m == r' - r by {
      assert (q - q') * m == q * m - q' * m;
    }
    if q' < q {
      MulAtLeast(q - q', m);
    } else if q < q' {
      MulAtLeast(q' - q, m);
    }
  }

  lemma MulAtLeast(d: int, m: int)
    requires d >= 1 && m > 0
    ensures d * m >= m
  {
    assert d * m == m + (d - 1) * m;
  }

  /** Dividing twice is dividing by the product. */
  lemma DivDiv(n: nat, a: nat, b: nat)
    requires a > 0 && b > 0
    ensures n / a / b == n / (a * b)
  {
    var q, r2, r1 := n / a / b, (n / a) % b, n % a;
    assert n / a == q * b + r2;
    assert n == (q * b + r2) * a + r1;
    assert n == q * (a * b) + (r2 * a + r1) by {
      assert (q * b + r2) * a == q * (a * b) + r2 * a;
    }
    assert r2 * a + r1 < a * b by {
      assert r2 * a <= (b - 1) * a;
    }
    DivModUnique(n, a * b, q, r2 * a + r1);
  }

  /** The digits of `n` between positions `a` and `a * b`, two ways. */
  lemma ModDiv(n: nat, a: nat, b: nat)
    requires a > 0 && b > 0
    ensures (n % (a * b)) / a == (n / a) % b
  {
    var q, r := n / (a * b), n % (a * b);
    assert n == q * (a * b) + r;
    var r2, r1 := r / a, r % a;
    assert r == r2 * a + r1;
    assert r2 < b;
    assert n == (q * b + r2) * a + r1 by {
      assert q * (a * b) + r2 * a == (q * b + r2) * a;
    }
    DivModUnique(n, a, q * b + r2, r1);
    DivModUnique(n / a, b, q, r2);
  }
}
