/** 32-bit two's-complement words, as ToyC's `int` and as an RV32 register. */
module Word32 {

  const TWO31: int := 0x8000_0000
  const TWO32: int := 0x1_0000_0000

  type i32 = x: int | -TWO31 <= x < TWO31
  type u32 = x: int | 0 <= x < TWO32

  /** Reduces an integer to the register that holds it modulo 2^32. */
  function Wrap(x: int): (r: i32)
    ensures -TWO31 <= x < TWO31 ==> r == x
  {
    (x + TWO31) % TWO32 - TWO31
  }

  /** The unsigned reading of a register. */
  function U(x: i32): u32 {
    if x < 0 then x + TWO32 else x
  }

  function Pow2(k: nat): (r: int)
    ensures r >= 1
  {
    if k == 0 then 1 else 2 * Pow2(k - 1)
  }

  lemma Pow2Values()
    ensures Pow2(11) == 0x800
    ensures Pow2(31) == TWO31
    ensures Pow2(32) == TWO32
  {
    assert Pow2(4) == 16;
    assert Pow2(8) == 256;
    assert Pow2(11) == 2048;
    assert Pow2(16) == 65536;
    assert Pow2(20) == 0x10_0000;
    assert Pow2(24) == 0x100_0000;
    assert Pow2(28) == 0x1000_0000;
  }

  lemma {:induction false} Pow2Add(a: nat, b: nat)
    ensures Pow2(a + b) == Pow2(a) * Pow2(b)
  {
    if a > 0 {
      Pow2Add(a - 1, b);
    }
  }

  lemma {:induction false} Pow2Monotone(a: nat, b: nat)
    requires a <= b
    ensures Pow2(a) <= Pow2(b)
  {
    if a < b {
      Pow2Monotone(a, b - 1);
    }
  }

  function Abs(x: int): nat {
    if x < 0 then -x else x
  }

  /** Division that truncates toward zero (C11 6.5.5). */
  function TDiv(a: int, b: int): int
    requires b != 0
  {
    var q := Abs(a) / Abs(b);
    if (a < 0) != (b < 0) then -q else q
  }

  function TMod(a: int, b: int): int
    requires b != 0
  {
    a - b * TDiv(a, b)
  }

  /** A residue is determined by any congruent number in range. */
  lemma WrapCongruent(x: int, y: int, k: int)
    requires x == y + k * TWO32
    ensures Wrap(x) == Wrap(y)
  {
    ModShift(y + TWO31, k, TWO32);
  }

  lemma ModShift(a: int, k: int, m: int)
    requires m > 0
    ensures (a + k * m) % m == a % m
  {
    var q, r := a / m, a % m;
    assert a + k * m == (q + k) * m + r;
    DivModUnique(a + k * m, m, q + k, r);
  }

  lemma DivModUnique(x: int, m: int, q: int, r: int)
    requires m > 0 && 0 <= r < m && x == q * m + r
    ensures x / m == q && x % m == r
  {
    var q', r' := x / m, x % m;
    assert q' * m + r' == x;
    SameQuotient(m, q, r, q', r');
  }

  lemma SameQuotient(m: int, q: int, r: int, q': int, r': int)
    requires 0 <= r < m && 0 <= r' < m && q * m + r == q' * m + r'
    ensures q == q' && r == r'
  {
    if q' > q {
      MulLe(m, q + 1, q');
    } else if q' < q {
      MulLe(m, q' + 1, q);
    }
  }

  /** Every word differs from the number it holds by a multiple of 2^32. */
  lemma WrapQuotient(x: int) returns (k: int)
    ensures Wrap(x) == x - k * TWO32
  {
    k := (x + TWO31) / TWO32;
  }

  /** Wrapping inside a product, as in a `mul` that follows a wrapped shift. */
  lemma WrapMul(x: int, y: int)
    ensures Wrap(Wrap(x) * y) == Wrap(x * y)
  {
    var k := WrapQuotient(x);
    assert Wrap(x) * y == x * y + (-k * y) * TWO32;
    WrapCongruent(Wrap(x) * y, x * y, -k * y);
  }

  lemma WrapAdd(x: int, y: int)
    ensures Wrap(Wrap(x) + y) == Wrap(x + y)
  {
    var k := WrapQuotient(x);
    WrapCongruent(Wrap(x) + y, x + y, -k);
  }

  lemma WrapSub(x: int, y: int)
    ensures Wrap(y - Wrap(x)) == Wrap(y - x)
  {
    var k := WrapQuotient(x);
    WrapCongruent(y - Wrap(x), y - x, k);
  }

  /** Two floor divisions by positive numbers are one. */
  lemma DivDiv(x: int, a: int, b: int)
    requires a > 0 && b > 0
    ensures a * b > 0
    ensures (x / a) / b == x / (a * b)
  {
    var q, r := x / a, x % a;
    var q2, r2 := q / b, q % b;
    assert a * b > 0;
    assert q == q2 * b + r2;
    assert x == a * q + r;
    assert x == q2 * (a * b) + (a * r2 + r) by {
      assert a * q == a * (q2 * b + r2) == q2 * (a * b) + a * r2;
    }
    assert a * r2 <= a * (b - 1) by { MulLe(a, r2, b - 1); }
    assert a * (b - 1) == a * b - a;
    assert 0 <= a * r2;
    DivModUnique(x, a * b, q2, a * r2 + r);
  }

  lemma MulLe(a: int, x: int, y: int)
    requires 0 <= a && x <= y
    ensures a * x <= a * y
  {
  }
}
