/** Powers of two as the code generator recognises them: `v & (v - 1)`. */
module Bits {
  import opened Word32

  /** Bitwise conjunction of two naturals. */
  function BitAnd(a: nat, b: nat): nat
    decreases a
  {
    if a == 0 || b == 0 then 0
    else (if a % 2 == 1 && b % 2 == 1 then 1 else 0) + 2 * BitAnd(a / 2, b / 2)
  }

  function FloorLog2(v: nat): nat
    requires v >= 1
  {
    if v == 1 then 0 else 1 + FloorLog2(v / 2)
  }

  /** The exact base-2 logarithm of a power of two, else -1. */
  function Log2Exact(v: nat): int {
    if v == 0 || BitAnd(v, v - 1) != 0 then -1 else FloorLog2(v)
  }

  lemma {:induction false} BitAndSelf(a: nat)
    ensures BitAnd(a, a) == a
  {
    if a > 0 {
      BitAndSelf(a / 2);
    }
  }

  lemma {:induction false} ClearsLowestBit(v: nat)
    requires v >= 1
    ensures BitAnd(v, v - 1) == 0 <==> v == Pow2(FloorLog2(v))
    ensures Pow2(FloorLog2(v)) <= v
  {
    if v > 1 {
      ClearsLowestBit(v / 2);
      if v % 2 == 1 {
        assert (v - 1) / 2 == v / 2;
        BitAndSelf(v / 2);
      } else {
        assert (v - 1) / 2 == v / 2 - 1;
      }
    }
  }

  lemma {:induction false} FloorLog2OfPow2(k: nat)
    ensures FloorLog2(Pow2(k)) == k
  {
    if k > 0 {
      FloorLog2OfPow2(k - 1);
    }
  }

  /** `log2exact` answers k exactly on 2^k, and -1 exactly off the powers of two. */
  lemma Log2ExactCorrect(v: nat, k: nat)
    ensures Log2Exact(v) == k <==> v == Pow2(k)
    ensures Log2Exact(v) >= 0 ==> v == Pow2(Log2Exact(v))
  {
    if v >= 1 {
      ClearsLowestBit(v);
    }
    FloorLog2OfPow2(k);
  }

  method ComputeLog2Exact(v: u32) returns (k: int)
    ensures k == Log2Exact(v)
  {
    if v == 0 || BitAnd(v, v - 1) != 0 {
      return -1;
    }
    k := 0;
    var w := v;
    while w > 1
      invariant w >= 1 && k >= 0
      invariant k + FloorLog2(w) == FloorLog2(v)
    {
      w := w / 2;
      k := k + 1;
    }
  }

  ghost predicate IsPow2(v: int) {
    exists k: nat :: v == Pow2(k)
  }

  /** Only powers of two divide powers of two. */
  lemma {:induction false} DivisorOfPow2(a: int, b: int, p: nat)
    requires a >= 1 && b >= 1 && a * b == Pow2(p)
    ensures IsPow2(a)
  {
    if p == 0 {
      if a > 1 { MulLe(a, 1, b); }
      assert a == Pow2(0);
    } else if b % 2 == 0 {
      var c := b / 2;
      assert b == 2 * c;
      assert a * b == 2 * (a * c);
      DivisorOfPow2(a, c, p - 1);
    } else {
      OddTimes(a, b);
      var c := a / 2;
      assert a == 2 * c;
      assert a * b == 2 * (c * b);
      DivisorOfPow2(c, b, p - 1);
      var k: nat :| c == Pow2(k);
      assert a == Pow2(k + 1);
    }
  }

  lemma OddTimes(a: int, b: int)
    requires b % 2 == 1 && (a * b) % 2 == 0
    ensures a % 2 == 0
  {
    var d := b / 2;
    assert b == 2 * d + 1;
    assert a * b == a * (2 * d + 1) == 2 * (a * d) + a;
  }
}
