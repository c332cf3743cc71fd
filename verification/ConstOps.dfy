/** Multiplication, division and remainder by a constant, strength-reduced. */
module ConstOps {
  import opened Word32
  import opened Bits
  import opened RiscV
  import opened Magic
  import opened IR
  import Alu

  function Negated(rd: Reg, c: i32): (r: seq<Instr>)
    ensures AllPlain(r)
  {
    if c < 0 then [Move(OpNeg, rd, rd)] else []
  }

  /** `emitMulConst`: rd = ra * c. */
  function MulConst(rd: Reg, ra: Reg, c: i32): (r: seq<Instr>)
    ensures AllPlain(r)
  {
    if c == 0 then [Li(rd, 0)]
    else if c == 1 then (if rd != ra then [Move(OpMv, rd, ra)] else [])
    else if c == -1 then [Move(OpNeg, rd, ra)]
    else
      var ac := Abs(c);
      var k, kp, km := Log2Exact(ac), Log2Exact(ac - 1), Log2Exact(ac + 1);
      if k >= 1 then [Shift(OpSlli, rd, ra, k)] + Negated(rd, c)
      else if kp >= 1 then [Shift(OpSlli, T6, ra, kp), Arith(OpAdd, rd, T6, ra)] + Negated(rd, c)
      else if km >= 1 then [Shift(OpSlli, T6, ra, km), Arith(OpSub, rd, T6, ra)] + Negated(rd, c)
      else [Li(T6, c), Arith(OpMul, rd, ra, T6)]
  }

  /** `emitPow2Bias`: t6 = 2^k - 1 for a negative ra, else 0. */
  function Pow2Bias(ra: Reg, k: nat): (r: seq<Instr>)
    requires 1 <= k <= 31
    ensures AllPlain(r)
  {
    if k == 1 then [Shift(OpSrli, T6, ra, 31)]
    else [Shift(OpSrai, T6, ra, 31), Shift(OpSrli, T6, T6, 32 - k)]
  }

  lemma NegatedRuns(rd: Reg, c: i32, m: Machine)
    requires rd != ZERO
    ensures Computes(Negated(rd, c), m, rd, if c < 0 then Alu.Sub(0, m.r[rd]) else m.r[rd], {rd})
  {
  }

  /** A shift, one add or subtract of x, and a negation make the product. */
  lemma ShiftedMul(x: i32, k: nat, c: i32, add: int)
    requires Abs(c) == Pow2(k) + add
    ensures var y := Wrap(Alu.Sll(x, k) + add * x);
            (if c < 0 then Alu.Sub(0, y) else y) == Alu.Mul(x, c)
  {
    hide Wrap, Pow2;
    var p := x * Pow2(k);
    WrapAdd(p, add * x);
    WrapSub(p + add * x, 0);
    Distribute(x, Pow2(k), add, c);
  }

  lemma Distribute(x: int, p: int, add: int, c: int)
    requires Abs(c) == p + add
    ensures x * c == if c < 0 then 0 - (x * p + add * x) else x * p + add * x
  {
  }

  lemma PowerBelow32(v: nat, k: int)
    requires v <= TWO31 + 1 && k == Log2Exact(v) && k >= 1
    ensures v == Pow2(k) && k <= 31
  {
    Log2ExactCorrect(v, k);
    if k >= 32 {
      Pow2Values();
      Pow2Monotone(32, k);
    }
  }

  lemma MulByShift(rd: Reg, ra: Reg, c: i32, k: nat, m: Machine)
    requires rd != ZERO && ra != T6 && k < 32 && Abs(c) == Pow2(k)
    ensures Computes([Shift(OpSlli, rd, ra, k)] + Negated(rd, c), m, rd, Alu.Mul(Get(m.r, ra), c), {rd, T6})
  {
    hide Pow2, Alu.Sll, Alu.Mul, Negated;
    var i := Shift(OpSlli, rd, ra, k);
    Steps1(i, m);
    ShiftedMul(Get(m.r, ra), k, c, 0);
    MulTail(rd, ra, c, m, [i], Alu.Sll(Get(m.r, ra), k));
  }

  lemma MulByShiftAdd(rd: Reg, ra: Reg, c: i32, k: nat, add: bool, m: Machine)
    requires rd != ZERO && rd != T6 && ra != T6 && k < 32
    requires Abs(c) == Pow2(k) + if add then 1 else -1
    ensures Computes([Shift(OpSlli, T6, ra, k), Arith(if add then OpAdd else OpSub, rd, T6, ra)] + Negated(rd, c),
                     m, rd, Alu.Mul(Get(m.r, ra), c), {rd, T6})
  {
    hide Pow2, Alu.Sll, Alu.Mul, Negated;
    var i, j := Shift(OpSlli, T6, ra, k), Arith(if add then OpAdd else OpSub, rd, T6, ra);
    Steps2(i, j, m);
    var x: int := Get(m.r, ra);
    ShiftedMul(x, k, c, if add then 1 else -1);
    assert -1 * x == -x && 1 * x == x;
    MulTail(rd, ra, c, m, [i, j], Wrap(Alu.Sll(x, k) + (if add then 1 else -1) * x));
  }

  /** Multiplication by any constant, also in place, at the cost of t6 only. */
  lemma MulConstCorrect(rd: Reg, ra: Reg, c: i32, m: Machine)
    requires rd != ZERO && rd != T6 && ra != T6
    ensures Computes(MulConst(rd, ra, c), m, rd, Alu.Mul(Get(m.r, ra), c), {rd, T6})
  {
    hide Log2Exact, Negated, Pow2;
    var ac: int := Abs(c);
    if c == 0 {
      Steps1(Li(rd, 0), m);
    } else if c == 1 {
      Steps1(Move(OpMv, rd, ra), m);
    } else if c == -1 {
      Steps1(Move(OpNeg, rd, ra), m);
    } else if Log2Exact(ac) >= 1 {
      PowerBelow32(ac, Log2Exact(ac));
      MulByShift(rd, ra, c, Log2Exact(ac), m);
    } else if Log2Exact(ac - 1) >= 1 {
      PowerBelow32(ac - 1, Log2Exact(ac - 1));
      MulByShiftAdd(rd, ra, c, Log2Exact(ac - 1), true, m);
    } else if Log2Exact(ac + 1) >= 1 {
      PowerBelow32(ac + 1, Log2Exact(ac + 1));
      MulByShiftAdd(rd, ra, c, Log2Exact(ac + 1), false, m);
    } else {
      Steps2(Li(T6, c), Arith(OpMul, rd, ra, T6), m);
    }
  }

  lemma MulTail(rd: Reg, ra: Reg, c: i32, m: Machine, head: seq<Instr>, y: i32)
    requires rd != ZERO && Computes(head, m, rd, y, {rd, T6})
    ensures Computes(head + Negated(rd, c), m, rd, if c < 0 then Alu.Sub(0, y) else y, {rd, T6})
  {
    var m1 := Steps(head, m).value;
    NegatedRuns(rd, c, m1);
    ComputesThen(head, Negated(rd, c), m, rd, y, rd, if c < 0 then Alu.Sub(0, y) else y, {rd, T6}, {rd});
  }

  // ---- division and remainder ---------------------------------------------------

  /** `mulh`, the correction, the shift and the sign add, after `load` put M into mreg. */
  function SignedQuotient(qreg: Reg, ra: Reg, c: i32, load: seq<Instr>, mreg: Reg): (r: seq<Instr>)
    requires NeedsMagic(c)
    ensures AllPlain(load) ==> AllPlain(r)
  {
    var M, s := SignedM(c), SignedShift(c);
    load
    + [Arith(OpMulh, A7, ra, mreg)]
    + Correction(ra, c, M)
    + (if s > 0 then [Shift(OpSrai, A7, A7, s)] else [])
    + [Shift(OpSrli, T6, A7, 31), Arith(OpAdd, qreg, A7, T6)]
  }

  function Correction(ra: Reg, c: i32, M: i32): (r: seq<Instr>)
    ensures AllPlain(r)
  {
    if c > 0 && M < 0 then [Arith(OpAdd, A7, A7, ra)]
    else if c < 0 && M > 0 then [Arith(OpSub, A7, A7, ra)]
    else []
  }

  /** `mulhu`; the shift of an unsigned magic number is always 0. */
  function UnsignedQuotient(qreg: Reg, ra: Reg, load: seq<Instr>, mreg: Reg): (r: seq<Instr>)
    ensures AllPlain(load) ==> AllPlain(r)
  {
    load + [Arith(OpMulhu, A7, ra, mreg)] + (if qreg != A7 then [Move(OpMv, qreg, A7)] else [])
  }

  /** `emitMagicQuotient`. */
  function MagicQuotient(qreg: Reg, ra: Reg, c: i32, uns: bool, load: seq<Instr>, mreg: Reg): (r: seq<Instr>)
    requires NeedsMagic(c)
    ensures AllPlain(load) ==> AllPlain(r)
  {
    if uns then UnsignedQuotient(qreg, ra, load, mreg) else SignedQuotient(qreg, ra, c, load, mreg)
  }

  /** `emitDivConst`: rd = ra / c. */
  function DivConst(rd: Reg, ra: Reg, c: i32, uns: bool, load: seq<Instr>, mreg: Reg): (r: seq<Instr>)
    ensures AllPlain(load) ==> AllPlain(r)
  {
    if c == 1 then (if rd != ra then [Move(OpMv, rd, ra)] else [])
    else if c == -1 then [Move(OpNeg, rd, ra)]
    else
      var k := Log2Exact(Abs(c));
      if k >= 1 then
        PowerBelow32(Abs(c), k);
        Pow2Bias(ra, k) + [Arith(OpAdd, T6, ra, T6), Shift(OpSrai, rd, T6, k)] + Negated(rd, c)
      else if c != 0 then
        GeneralDivisor(c);
        MagicQuotient(rd, ra, c, uns, load, mreg)
      else [Li(T6, c), Arith(OpDiv, rd, ra, T6)]
  }

  /** `emitModConst`: rd = ra % c, for c != 0. */
  function ModConst(rd: Reg, ra: Reg, c: i32, uns: bool, load: seq<Instr>, mreg: Reg): (r: seq<Instr>)
    requires c != 0
    ensures AllPlain(load) ==> AllPlain(r)
  {
    if Abs(c) == 1 then [Li(rd, 0)]
    else
      var k := Log2Exact(Abs(c));
      if k >= 1 then
        PowerBelow32(Abs(c), k);
        Pow2Bias(ra, k)
        + [Arith(OpAdd, T6, ra, T6), Shift(OpSrai, T6, T6, k)]
        + [Shift(OpSlli, T6, T6, k), Arith(OpSub, rd, ra, T6)]
      else
        GeneralDivisor(c);
        (if uns then load + [Arith(OpMulhu, A7, ra, mreg)] + MulConst(A7, A7, c)
         else SignedQuotient(A6, ra, c, load, mreg) + MulConst(A7, A6, c))
        + [Arith(OpSub, rd, ra, A7)]
  }

  /** A quotient or remainder by c, under `-opt`, reaches the search for a magic number. */
  predicate Searches(isDiv: bool, c: i32) {
    Abs(c) != 1 && Log2Exact(Abs(c)) < 1 && (isDiv ==> c != 0)
  }

  /**
   * The constants for which compiling a quotient or remainder divides by zero in
   * the compiler: 0, and only for a remainder.
   */
  lemma SearchSafeIff(isDiv: bool, c: i32)
    ensures (Searches(isDiv, c) ==> SignedSearchDefined(c) && UnsignedSearchDefined(c)) <==> isDiv || c != 0
  {
    SearchDefinedIff(c);
    assert Log2Exact(0) < 1;
    hide Log2Exact, SignedSearchDefined;
  }

  lemma GeneralDivisor(c: i32)
    requires Abs(c) >= 2 && Log2Exact(Abs(c)) < 1
    ensures NeedsMagic(c)
  {
  }

  /** The load of a magic number runs, and spares everything but t6 and a7. */
  ghost predicate Loads(load: seq<Instr>, mreg: Reg, M: i32, m: Machine) {
    Computes(load, m, mreg, M, {T6, A7}) && mreg != ZERO
  }

  lemma Snoc(xs: seq<Instr>, i: Instr, m: Machine, r1: Reg, v1: i32, rd: Reg, v: i32, S: set<int>)
    requires Computes(xs, m, r1, v1, S) && Plain(i)
    requires Step(i, Steps(xs, m).value).Some?
    requires Step(i, Steps(xs, m).value).value.r[rd] == v
    requires Only(Steps(xs, m).value, Step(i, Steps(xs, m).value).value, S)
    ensures Computes(xs + [i], m, rd, v, S)
  {
    StepsSnoc(xs, i, m);
  }

  const MAGIC_SCRATCH: set<int> := {T6 as int, A7 as int}

  lemma HighStep(load: seq<Instr>, ra: Reg, mreg: Reg, M: i32, m: Machine)
    requires Loads(load, mreg, M, m) && ra !in MAGIC_SCRATCH
    ensures Computes(load + [Arith(OpMulh, A7, ra, mreg)], m, A7, Alu.Mulh(Get(m.r, ra), M), MAGIC_SCRATCH)
  {
    hide Alu.Mulh;
    Snoc(load, Arith(OpMulh, A7, ra, mreg), m, mreg, M, A7, Alu.Mulh(Get(m.r, ra), M), MAGIC_SCRATCH);
  }

  lemma CorrectionStep(xs: seq<Instr>, ra: Reg, c: i32, M: i32, m: Machine)
    requires Computes(xs, m, A7, Alu.Mulh(Get(m.r, ra), M), MAGIC_SCRATCH) && ra !in MAGIC_SCRATCH
    ensures Computes(xs + Correction(ra, c, M), m, A7, Corrected(Get(m.r, ra), c, M), MAGIC_SCRATCH)
  {
    hide Alu.Mulh;
    var n := Get(m.r, ra);
    if c > 0 && M < 0 {
      Snoc(xs, Arith(OpAdd, A7, A7, ra), m, A7, Alu.Mulh(n, M), A7, Corrected(n, c, M), MAGIC_SCRATCH);
    } else if c < 0 && M > 0 {
      Snoc(xs, Arith(OpSub, A7, A7, ra), m, A7, Alu.Mulh(n, M), A7, Corrected(n, c, M), MAGIC_SCRATCH);
    } else {
      assert xs + [] == xs;
    }
  }

  lemma ShiftStep(xs: seq<Instr>, w: i32, s: nat, m: Machine)
    requires Computes(xs, m, A7, w, MAGIC_SCRATCH) && s < 32
    ensures Computes(xs + (if s > 0 then [Shift(OpSrai, A7, A7, s)] else []), m, A7, Alu.Sra(w, s), MAGIC_SCRATCH)
  {
    if s > 0 {
      hide Alu.Sra;
      Snoc(xs, Shift(OpSrai, A7, A7, s), m, A7, w, A7, Alu.Sra(w, s), MAGIC_SCRATCH);
    } else {
      assert xs + [] == xs;
    }
  }

  lemma SignTail(xs: seq<Instr>, m: Machine, qreg: Reg, z: i32)
    requires Computes(xs, m, A7, z, MAGIC_SCRATCH) && qreg != ZERO
    ensures Computes(xs + [Shift(OpSrli, T6, A7, 31), Arith(OpAdd, qreg, A7, T6)], m, qreg,
                     Alu.Add(z, Alu.Srl(z, 31)), {qreg, T6, A7})
  {
    hide Alu.Srl, Alu.Add;
    var i, j := Shift(OpSrli, T6, A7, 31), Arith(OpAdd, qreg, A7, T6);
    var m1 := Steps(xs, m).value;
    Steps2(i, j, m1);
    ComputesThen(xs, [i, j], m, A7, z, qreg, Alu.Add(z, Alu.Srl(z, 31)), MAGIC_SCRATCH, {qreg, T6});
    assert MAGIC_SCRATCH + {qreg, T6} == {qreg, T6, A7};
  }

  /** The signed sequence leaves the truncated quotient, also when qreg is ra. */
  lemma SignedQuotientCorrect(qreg: Reg, ra: Reg, c: i32, load: seq<Instr>, mreg: Reg, m: Machine)
    requires NeedsMagic(c) && Loads(load, mreg, SignedM(c), m)
    requires qreg != ZERO && ra !in MAGIC_SCRATCH
    ensures Computes(SignedQuotient(qreg, ra, c, load, mreg), m, qreg, TDivWord(Get(m.r, ra), c), {qreg, T6, A7})
  {
    hide SignedM, SignedShift, NeedsMagic, TDiv, Alu.Mulh, Alu.Srl, Alu.Sra, Alu.Add, Corrected, Correction,
         Computes, Loads, Log2Exact, Pow2, MagicP;
    NotAPow2(c);
    var n, M, s := Get(m.r, ra), SignedM(c), SignedShift(c);
    SignedSequenceDivides(n, c);
    var c1 := load + [Arith(OpMulh, A7, ra, mreg)];
    HighStep(load, ra, mreg, M, m);
    CorrectionStep(c1, ra, c, M, m);
    var c2 := c1 + Correction(ra, c, M);
    ShiftStep(c2, Corrected(n, c, M), s, m);
    var c3 := c2 + if s > 0 then [Shift(OpSrai, A7, A7, s)] else [];
    SignTail(c3, m, qreg, Alu.Sra(Corrected(n, c, M), s));
  }

  /** The quotient a register holds: truncated, and wrapped at INT_MIN / -1. */
  function TDivWord(n: i32, c: i32): i32
    requires c != 0
  {
    Wrap(TDiv(n, c))
  }

  lemma UnsignedQuotientCorrect(qreg: Reg, ra: Reg, c: i32, load: seq<Instr>, mreg: Reg, m: Machine)
    requires c >= 2 && Loads(load, mreg, Wrap(UnsignedM(c)), m)
    requires qreg != ZERO && ra !in MAGIC_SCRATCH
    ensures Computes(UnsignedQuotient(qreg, ra, load, mreg), m, qreg, UnsignedSequence(Get(m.r, ra), c), {qreg, T6, A7})
    ensures Computes(load + [Arith(OpMulhu, A7, ra, mreg)], m, A7, UnsignedSequence(Get(m.r, ra), c), MAGIC_SCRATCH)
  {
    hide UnsignedM, Alu.Mulhu;
    var M, x := Wrap(UnsignedM(c)), UnsignedSequence(Get(m.r, ra), c);
    var c1 := load + [Arith(OpMulhu, A7, ra, mreg)];
    Snoc(load, Arith(OpMulhu, A7, ra, mreg), m, mreg, M, A7, x, MAGIC_SCRATCH);
    if qreg != A7 {
      Snoc(c1, Move(OpMv, qreg, A7), m, A7, x, qreg, x, {qreg, T6, A7});
    } else {
      assert c1 + [] == c1;
    }
  }

  /** The dividend suits the sequence that the hint chooses. */
  predicate HintsTrue(n: i32, c: i32, uns: bool) {
    uns && NeedsMagic(c) ==> c > 0 && UnsignedExact(n, c)
  }

  /** The hinted or freshly loaded magic number is the right one. */
  ghost predicate LoadsMagic(load: seq<Instr>, mreg: Reg, c: i32, uns: bool, m: Machine)
    requires c != 0
  {
    NeedsMagic(c) ==> (uns ==> c > 0) && Loads(load, mreg, MagicFor(c, uns), m)
  }

  lemma MagicQuotientCorrect(qreg: Reg, ra: Reg, c: i32, uns: bool, load: seq<Instr>, mreg: Reg, m: Machine)
    requires NeedsMagic(c) && LoadsMagic(load, mreg, c, uns, m) && HintsTrue(Get(m.r, ra), c, uns)
    requires qreg != ZERO && ra !in MAGIC_SCRATCH
    ensures Computes(MagicQuotient(qreg, ra, c, uns, load, mreg), m, qreg, TDivWord(Get(m.r, ra), c), {qreg, T6, A7})
  {
    hide NeedsMagic, SignedM, UnsignedM, UnsignedSequence, TDiv, SignedQuotient, UnsignedQuotient, Computes, UnsignedExact;
    NotAPow2(c);
    if uns {
      UnsignedExactIff(Get(m.r, ra), c);
      UnsignedQuotientCorrect(qreg, ra, c, load, mreg, m);
    } else {
      SignedQuotientCorrect(qreg, ra, c, load, mreg, m);
    }
  }

  // ---- powers of two --------------------------------------------------------------

  function Bias(n: i32, k: nat): int {
    if n < 0 then Pow2(k) - 1 else 0
  }

  lemma Pow2BiasCorrect(ra: Reg, k: nat, m: Machine)
    requires 1 <= k <= 31 && ra != T6
    ensures Pow2(k) - 1 < TWO31
    ensures Computes(Pow2Bias(ra, k), m, T6, Bias(Get(m.r, ra), k), {T6})
  {
    hide Pow2, Alu.Srl, Alu.Sra;
    var n := Get(m.r, ra);
    Pow2Values();
    Pow2Monotone(k, 31);
    BiasBits(n, k);
    if k == 1 {
      Steps1(Shift(OpSrli, T6, ra, 31), m);
    } else {
      Steps2(Shift(OpSrai, T6, ra, 31), Shift(OpSrli, T6, T6, 32 - k), m);
    }
  }

  lemma BiasBits(n: i32, k: nat)
    requires 1 <= k <= 31
    ensures k == 1 ==> Alu.Srl(n, 31) == Bias(n, k)
    ensures Alu.Srl(Alu.Sra(n, 31), 32 - k) == Bias(n, k)
  {
    assert Pow2(0) == 1;
    assert Pow2(1) == 2;
    hide Pow2;
    Pow2Values();
    Pow2Add(k, 32 - k);
    Pow2Monotone(k, 31);
    AllOnes(Pow2(k), Pow2(32 - k));
    SignFill(n);
  }

  lemma SignFill(n: i32)
    ensures Alu.Sra(n, 31) == if n < 0 then -1 else 0
    ensures Alu.Srl(n, 31) == if n < 0 then 1 else 0
  {
    hide Pow2;
    Pow2Values();
  }

  lemma AllOnes(P: int, Q: int)
    requires P >= 1 && Q >= 1 && P * Q == TWO32
    ensures (TWO32 - 1) / Q == P - 1 && 0 / Q == 0
  {
    assert (P - 1) * Q == P * Q - Q;
    DivModUnique(TWO32 - 1, Q, P - 1, Q - 1);
  }

  /** Adding the bias turns the floor of the shift into truncation. */
  lemma BiasedShift(n: i32, k: nat)
    requires 1 <= k <= 31
    ensures Alu.Sra(Alu.Add(n, Wrap(Bias(n, k))), k) == TDiv(n, Pow2(k))
    ensures -TWO31 <= n + Bias(n, k) < TWO31
  {
    hide Pow2;
    Pow2Values();
    Pow2Monotone(k, 31);
    CeilFloor(n, Pow2(k));
  }

  lemma CeilFloor(n: int, P: int)
    requires P >= 1
    ensures n < 0 ==> (n + P - 1) / P == TDiv(n, P)
    ensures n >= 0 ==> n / P == TDiv(n, P)
  {
    if n < 0 {
      var q, r := (-n) / P, (-n) % P;
      assert -n == P * q + r;
      assert n + P - 1 == (-q) * P + (P - 1 - r);
      DivModUnique(n + P - 1, P, -q, P - 1 - r);
    }
  }

  /** Division by +-2^k. */
  lemma DivPow2Correct(rd: Reg, ra: Reg, c: i32, k: nat, m: Machine)
    requires 1 <= k <= 31 && Abs(c) == Pow2(k) && rd != ZERO && ra != T6
    ensures Computes(Pow2Bias(ra, k) + [Arith(OpAdd, T6, ra, T6), Shift(OpSrai, rd, T6, k)] + Negated(rd, c),
                     m, rd, TDivWord(Get(m.r, ra), c), {rd, T6})
  {
    hide Pow2, Alu.Sra, Alu.Add, TDiv, Bias, Negated;
    var n := Get(m.r, ra);
    Pow2BiasCorrect(ra, k, m);
    BiasedShift(n, k);
    var b := Pow2Bias(ra, k);
    var m1 := Steps(b, m).value;
    var i, j := Arith(OpAdd, T6, ra, T6), Shift(OpSrai, rd, T6, k);
    Steps2(i, j, m1);
    var q := Alu.Sra(Alu.Add(n, Wrap(Bias(n, k))), k);
    ComputesThen(b, [i, j], m, T6, Bias(n, k), rd, q, {T6}, {rd, T6});
    assert {T6} + {rd, T6} == {rd, T6};
    MulTail(rd, ra, c, m, b + [i, j], q);
    NegatedQuotient(n, Pow2(k), c);
  }

  lemma NegatedQuotient(n: int, p: int, c: int)
    requires p >= 1 && Abs(c) == p
    ensures TDiv(n, c) == if c < 0 then 0 - TDiv(n, p) else TDiv(n, p)
    ensures TMod(n, c) == n - TDiv(n, p) * p
  {
  }

  /** Remainder by +-2^k. */
  lemma ModPow2Correct(rd: Reg, ra: Reg, c: i32, k: nat, m: Machine)
    requires 1 <= k <= 31 && Abs(c) == Pow2(k) && rd != ZERO && ra != T6
    ensures Computes(Pow2Bias(ra, k) + [Arith(OpAdd, T6, ra, T6), Shift(OpSrai, T6, T6, k)]
                     + [Shift(OpSlli, T6, T6, k), Arith(OpSub, rd, ra, T6)],
                     m, rd, Wrap(TMod(Get(m.r, ra), c)), {rd, T6})
  {
    hide Pow2, Alu.Sra, Alu.Add, TDiv, TMod, Bias;
    var n := Get(m.r, ra);
    Pow2BiasCorrect(ra, k, m);
    BiasedShift(n, k);
    var b := Pow2Bias(ra, k);
    var m1 := Steps(b, m).value;
    var q := Alu.Sra(Alu.Add(n, Wrap(Bias(n, k))), k);
    var i, j := Arith(OpAdd, T6, ra, T6), Shift(OpSrai, T6, T6, k);
    Steps2(i, j, m1);
    ComputesThen(b, [i, j], m, T6, Bias(n, k), T6, q, {T6}, {T6});
    assert {T6} + {T6} == {T6};
    var m2 := Steps(b + [i, j], m).value;
    var i2, j2 := Shift(OpSlli, T6, T6, k), Arith(OpSub, rd, ra, T6);
    Steps2(i2, j2, m2);
    NegatedQuotient(n, Pow2(k), c);
    WrapSub(q * Pow2(k), n);
    ComputesThen(b + [i, j], [i2, j2], m, T6, q, rd, Wrap(TMod(n, c)), {T6}, {rd, T6});
    assert {T6} + {rd, T6} == {rd, T6};
  }

  // ---- the two operations ----------------------------------------------------------

  /** Division by any constant but 0, also in place, at the cost of t6 and a7. */
  lemma DivConstCorrect(rd: Reg, ra: Reg, c: i32, uns: bool, load: seq<Instr>, mreg: Reg, m: Machine)
    requires c != 0 && LoadsMagic(load, mreg, c, uns, m) && HintsTrue(Get(m.r, ra), c, uns)
    requires rd != ZERO && ra !in MAGIC_SCRATCH
    ensures Computes(DivConst(rd, ra, c, uns, load, mreg), m, rd, TDivWord(Get(m.r, ra), c), {rd, T6, A7})
  {
    hide Log2Exact, NeedsMagic, LoadsMagic, HintsTrue, MagicQuotient, Negated, Pow2Bias;
    var n := Get(m.r, ra);
    if c == 1 {
      Steps1(Move(OpMv, rd, ra), m);
    } else if c == -1 {
      Steps1(Move(OpNeg, rd, ra), m);
    } else {
      var k := Log2Exact(Abs(c));
      if k >= 1 {
        PowerBelow32(Abs(c), k);
        DivPow2Correct(rd, ra, c, k, m);
      } else {
        GeneralDivisor(c);
        MagicQuotientCorrect(rd, ra, c, uns, load, mreg, m);
      }
    }
  }

  /** q*c by `emitMulConst` into a7, then the subtraction. */
  lemma RemainderTail(xs: seq<Instr>, qreg: Reg, rd: Reg, ra: Reg, c: i32, m: Machine, S: set<int>)
    requires c != 0 && Computes(xs, m, qreg, TDivWord(Get(m.r, ra), c), S)
    requires S <= {A6, A7, T6} && ra !in {A6, A7, T6} && qreg in {A6, A7} && rd != ZERO
    ensures Computes(xs + MulConst(A7, qreg, c) + [Arith(OpSub, rd, ra, A7)], m, rd,
                     Wrap(TMod(Get(m.r, ra), c)), {rd, A6, A7, T6})
  {
    hide MulConst, TDiv, Alu.Mul;
    var n := Get(m.r, ra);
    var q := TDivWord(n, c);
    var m1 := Steps(xs, m).value;
    MulConstCorrect(A7, qreg, c, m1);
    var p := Alu.Mul(q, c);
    ComputesThen(xs, MulConst(A7, qreg, c), m, qreg, q, A7, p, S, {A7, T6});
    var ys := xs + MulConst(A7, qreg, c);
    var r := Alu.Sub(n, p);
    Snoc(ys, Arith(OpSub, rd, ra, A7), m, A7, p, rd, r, {rd, A6, A7, T6});
    RemainderWord(n, c);
  }

  lemma RemainderWord(n: i32, c: i32)
    requires c != 0
    ensures Alu.Sub(n, Alu.Mul(TDivWord(n, c), c)) == Wrap(TMod(n, c))
  {
    hide TDiv, Wrap;
    WrapMul(TDiv(n, c), c);
    WrapSub(TDiv(n, c) * c, n);
    assert TDiv(n, c) * c == c * TDiv(n, c);
  }

  /** Remainder by any constant but 0, also in place, at the cost of t6, a6 and a7. */
  lemma ModConstCorrect(rd: Reg, ra: Reg, c: i32, uns: bool, load: seq<Instr>, mreg: Reg, m: Machine)
    requires c != 0 && LoadsMagic(load, mreg, c, uns, m) && HintsTrue(Get(m.r, ra), c, uns)
    requires rd != ZERO && ra !in {A6, A7, T6}
    ensures Computes(ModConst(rd, ra, c, uns, load, mreg), m, rd, Wrap(TMod(Get(m.r, ra), c)), {rd, A6, A7, T6})
  {
    hide Log2Exact, NeedsMagic, LoadsMagic, HintsTrue, MulConst, Pow2Bias, SignedQuotient, TDiv,
         UnsignedM, SignedM, UnsignedSequence, UnsignedExact;
    var n := Get(m.r, ra);
    if Abs(c) == 1 {
      Steps1(Li(rd, 0), m);
      UnitRemainder(n, c);
    } else {
      var k := Log2Exact(Abs(c));
      if k >= 1 {
        PowerBelow32(Abs(c), k);
        ModPow2Correct(rd, ra, c, k, m);
      } else {
        GeneralDivisor(c);
        GeneralModCorrect(rd, ra, c, uns, load, mreg, m);
      }
    }
  }

  lemma UnitRemainder(n: int, c: int)
    requires Abs(c) == 1
    ensures TMod(n, c) == 0
  {
  }

  lemma GeneralModCorrect(rd: Reg, ra: Reg, c: i32, uns: bool, load: seq<Instr>, mreg: Reg, m: Machine)
    requires NeedsMagic(c) && LoadsMagic(load, mreg, c, uns, m) && HintsTrue(Get(m.r, ra), c, uns)
    requires rd != ZERO && ra !in {A6, A7, T6}
    ensures var head := if uns then load + [Arith(OpMulhu, A7, ra, mreg)] + MulConst(A7, A7, c)
                        else SignedQuotient(A6, ra, c, load, mreg) + MulConst(A7, A6, c);
            Computes(head + [Arith(OpSub, rd, ra, A7)], m, rd, Wrap(TMod(Get(m.r, ra), c)), {rd, A6, A7, T6})
  {
    hide NeedsMagic, MulConst, SignedQuotient, TDiv, TMod, UnsignedM, SignedM, UnsignedSequence, Computes, UnsignedExact;
    NotAPow2(c);
    if uns {
      UnsignedExactIff(Get(m.r, ra), c);
      UnsignedQuotientCorrect(A6, ra, c, load, mreg, m);
      RemainderTail(load + [Arith(OpMulhu, A7, ra, mreg)], A7, rd, ra, c, m, MAGIC_SCRATCH);
    } else {
      SignedQuotientCorrect(A6, ra, c, load, mreg, m);
      RemainderTail(SignedQuotient(A6, ra, c, load, mreg), A6, rd, ra, c, m, {A6, T6, A7});
    }
  }
}
