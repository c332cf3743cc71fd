/**
 * The integer operations of RV32IM on register contents, after the RISC-V
 * Unprivileged ISA (version 20191213), sections 2.4, 7.1 and 7.2.
 */
module Alu {
  import opened Word32

  function Add(a: i32, b: i32): i32 { Wrap(a + b) }

  function Sub(a: i32, b: i32): i32 { Wrap(a - b) }

  function Mul(a: i32, b: i32): i32 { Wrap(a * b) }

  /** The high word of the signed product. */
  function Mulh(a: i32, b: i32): i32 {
    ProductRange(a, b);
    a * b / TWO32
  }

  /** The high word of the unsigned product. */
  function Mulhu(a: i32, b: i32): i32 {
    Wrap(U(a) * U(b) / TWO32)
  }

  function Div(a: i32, b: i32): i32 {
    if b == 0 then -1
    else if a == -TWO31 && b == -1 then -TWO31
    else Wrap(TDiv(a, b))
  }

  function Rem(a: i32, b: i32): i32 {
    if b == 0 then a
    else if a == -TWO31 && b == -1 then 0
    else Wrap(TMod(a, b))
  }

  function Slt(a: i32, b: i32): i32 { if a < b then 1 else 0 }

  function Seqz(a: i32): i32 { if a == 0 then 1 else 0 }

  function Snez(a: i32): i32 { if a != 0 then 1 else 0 }

  /** `xori rd, rs, 1`. */
  function Xori1(a: i32): i32 { if a % 2 == 0 then Wrap(a + 1) else a - 1 }

  function Sll(a: i32, k: nat): i32 { Wrap(a * Pow2(k)) }

  function Srl(a: i32, k: nat): i32 { Wrap(U(a) / Pow2(k)) }

  function Sra(a: i32, k: nat): i32 {
    ShiftRange(a, Pow2(k));
    a / Pow2(k)
  }

  lemma ProductRange(a: i32, b: i32)
    ensures -TWO31 <= a * b / TWO32 < TWO31
  {
    AbsProduct(a, b);
    assert TWO31 * TWO31 == TWO31 / 2 * TWO32;
  }

  lemma AbsProduct(a: int, b: int)
    requires -TWO31 <= a <= TWO31 && -TWO31 <= b <= TWO31
    ensures -TWO31 * TWO31 <= a * b <= TWO31 * TWO31
  {
    var x, y := if a < 0 then -a else a, if b < 0 then -b else b;
    MulLe(x, y, TWO31);
    MulLe(TWO31, x, TWO31);
    assert a * b == x * y || a * b == -(x * y);
    assert x * y >= 0 by { MulLe(x, 0, y); }
  }

  lemma ShiftRange(a: i32, m: int)
    requires m >= 1
    ensures -TWO31 <= a / m < TWO31
  {
    var q, r := a / m, a % m;
    assert a == m * q + r;
    if q > a && q >= 0 {
      MulLe(q, 1, m);
      assert false;
    }
    if q < a && q < 0 {
      MulLe(-(q + 1), 1, m);
      assert false;
    }
  }

  lemma NaturalQuotient(x: nat, y: nat)
    requires y > 0
    ensures 0 <= x / y <= x
    ensures y >= 2 ==> 2 * (x / y) <= x
    ensures 0 <= x - y * (x / y) < y
  {
    var q := x / y;
    MulLe(q, 1, y);
    if y >= 2 { MulLe(q, 2, y); }
  }

  /** The quotient overflows only at INT_MIN / -1; the remainder never. */
  lemma DivRemRange(a: i32, b: i32)
    requires b != 0
    ensures -TWO31 <= TDiv(a, b) <= TWO31
    ensures TDiv(a, b) == TWO31 ==> a == -TWO31 && b == -1
    ensures -TWO31 < TMod(a, b) < TWO31
    ensures Div(a, b) == Wrap(TDiv(a, b)) && Rem(a, b) == Wrap(TMod(a, b))
  {
    NaturalQuotient(Abs(a), Abs(b));
  }

}
