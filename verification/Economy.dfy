/** What the emitted code does without: multiplications, divisions, stack space, comparisons and jumps. */
module Economy {
  import opened Word32
  import opened Bits
  import opened IR
  import opened RiscV
  import opened Magic
  import opened ConstOps
  import opened CodeGen
  import opened RegAlloc

  predicate Multiplies(i: Instr) {
    i.Arith? && i.rop.OpMul?
  }

  predicate MultipliesHigh(i: Instr) {
    i.Arith? && (i.rop.OpMulh? || i.rop.OpMulhu?)
  }

  predicate Divides(i: Instr) {
    i.Arith? && (i.rop.OpDiv? || i.rop.OpRem?)
  }

  lemma ExactIsPow2(v: nat)
    ensures Log2Exact(v) >= 0 <==> IsPow2(v)
  {
    Log2ExactCorrect(v, 0);
    if IsPow2(v) {
      var k: nat :| v == Pow2(k);
      Log2ExactCorrect(v, k);
    }
  }

  lemma ExactAtLeast1(v: nat)
    ensures Log2Exact(v) >= 1 <==> IsPow2(v) && v != 1
  {
    ExactIsPow2(v);
    Log2ExactCorrect(v, 0);
    assert Pow2(0) == 1;
  }

  /** A product by a constant needs `mul` exactly if the constant is not within 1 of a power of two, up to its sign. */
  lemma MulNeeded(rd: Reg, ra: Reg, c: i32)
    ensures (exists k :: 0 <= k < |MulConst(rd, ra, c)| && Multiplies(MulConst(rd, ra, c)[k]))
            <==> !IsPow2(Abs(c)) && !IsPow2(Abs(c) - 1) && !IsPow2(Abs(c) + 1)
  {
    var ac, code := Abs(c), MulConst(rd, ra, c);
    assert Pow2(0) == 1 && Pow2(1) == 2;
    assert IsPow2(1) && IsPow2(2);
    if ac >= 2 {
      ExactAtLeast1(ac);
      ExactAtLeast1(ac - 1);
      ExactAtLeast1(ac + 1);
      hide Log2Exact, IsPow2;
      if Log2Exact(ac) < 1 && Log2Exact(ac - 1) < 1 && Log2Exact(ac + 1) < 1 {
        assert Multiplies(code[1]);
      }
    }
  }

  /** Neither a division nor a high product */
  ghost predicate Simple(code: seq<Instr>) {
    forall k | 0 <= k < |code| :: !Divides(code[k]) && !MultipliesHigh(code[k])
  }

  /** No division, but a high product */
  ghost predicate ByProduct(code: seq<Instr>) {
    (forall k | 0 <= k < |code| :: !Divides(code[k])) && exists k :: 0 <= k < |code| && MultipliesHigh(code[k])
  }

  lemma PartsSimple(rd: Reg, ra: Reg, c: i32)
    ensures Simple(MulConst(rd, ra, c)) && Simple(Negated(rd, c)) && forall k: nat | 1 <= k <= 31 :: Simple(Pow2Bias(ra, k))
  {
    hide Log2Exact;
  }

  lemma Behind(xs: seq<Instr>, ys: seq<Instr>)
    requires ByProduct(xs) && Simple(ys)
    ensures ByProduct(xs + ys)
  {
    var k :| 0 <= k < |xs| && MultipliesHigh(xs[k]);
    assert (xs + ys)[k] == xs[k];
  }

  lemma MagicByProduct(qreg: Reg, ra: Reg, c: i32, uns: bool, load: seq<Instr>, mreg: Reg)
    requires NeedsMagic(c) && Simple(load)
    ensures ByProduct(MagicQuotient(qreg, ra, c, uns, load, mreg)) && ByProduct(load + [Arith(OpMulhu, A7, ra, mreg)])
  {
    hide SignedM, SignedShift, NeedsMagic;
    assert MultipliesHigh(MagicQuotient(qreg, ra, c, uns, load, mreg)[|load|]);
    assert MultipliesHigh((load + [Arith(OpMulhu, A7, ra, mreg)])[|load|]);
  }

  /** A quotient by a constant other than 0 needs no division, and a high product exactly off the powers of two. */
  lemma QuotientNeeds(rd: Reg, ra: Reg, c: i32, uns: bool, load: seq<Instr>, mreg: Reg)
    requires c != 0 && Simple(load)
    ensures if IsPow2(Abs(c)) then Simple(DivConst(rd, ra, c, uns, load, mreg)) else ByProduct(DivConst(rd, ra, c, uns, load, mreg))
  {
    hide Log2Exact, IsPow2, Negated, Pow2Bias, MagicQuotient, ByProduct;
    OneIsPow2();
    if Abs(c) >= 2 {
      ExactAtLeast1(Abs(c));
      PartsSimple(rd, ra, c);
      if !IsPow2(Abs(c)) {
        GeneralDivisor(c);
        MagicByProduct(rd, ra, c, uns, load, mreg);
      } else {
        PowerBelow32(Abs(c), Log2Exact(Abs(c)));
      }
    }
  }

  lemma OneIsPow2()
    ensures IsPow2(1)
  {
    assert Pow2(0) == 1;
  }

  /** So does a remainder. */
  lemma RemainderNeeds(rd: Reg, ra: Reg, c: i32, uns: bool, load: seq<Instr>, mreg: Reg)
    requires c != 0 && Simple(load)
    ensures if IsPow2(Abs(c)) then Simple(ModConst(rd, ra, c, uns, load, mreg)) else ByProduct(ModConst(rd, ra, c, uns, load, mreg))
  {
    hide Log2Exact, IsPow2, Negated, Pow2Bias, SignedQuotient, MulConst, ByProduct;
    OneIsPow2();
    if Abs(c) >= 2 {
      ExactAtLeast1(Abs(c));
      PartsSimple(rd, ra, c);
      if !IsPow2(Abs(c)) {
        GeneralDivisor(c);
        MagicByProduct(A6, ra, c, uns, load, mreg);
        var q := if uns then load + [Arith(OpMulhu, A7, ra, mreg)] else SignedQuotient(A6, ra, c, load, mreg);
        PartsSimple(A7, if uns then A7 else A6, c);
        Behind(q, MulConst(A7, if uns then A7 else A6, c));
        Behind(q + MulConst(A7, if uns then A7 else A6, c), [Arith(OpSub, rd, ra, A7)]);
      } else {
        PowerBelow32(Abs(c), Log2Exact(Abs(c)));
      }
    }
  }

  // ---- the frame ------------------------------------------------------------------------------

  /** Room for the stack arguments, the spilled values, the saved registers and the return address. */
  function Needed(f: Func, A: Allocation): nat {
    4 * MostStackArgsIn(f.blocks) + 4 * A.numSpills + 4 * |A.usedCallee| + if A.isLeaf then 0 else 4
  }

  /** The frame is the least multiple of 16 with room for all. */
  lemma FrameTight(f: Func, A: Allocation, opt: bool, size: nat)
    requires size % 16 == 0
    ensures var s := FrameOf(f, A, opt).Size(); s % 16 == 0 && s >= Needed(f, A) && (size >= Needed(f, A) ==> size >= s)
  {
  }

  predicate PassesOnStack(i: Inst, n: nat) {
    i.Call? && |i.args| == n + 8
  }

  ghost predicate SomePasses(bs: seq<Block>, n: nat) {
    exists b, k :: 0 <= b < |bs| && 0 <= k < |bs[b].insts| && PassesOnStack(bs[b].insts[k], n)
  }

  lemma {:induction false} MostInCode(code: seq<Inst>)
    ensures MostStackArgs(code) > 0 ==> exists k :: 0 <= k < |code| && PassesOnStack(code[k], MostStackArgs(code))
    ensures forall k | 0 <= k < |code| && code[k].Call? :: |code[k].args| - 8 <= MostStackArgs(code)
  {
    if code != [] {
      MostInCode(code[1..]);
      var n := MostStackArgs(code);
      if n > 0 && !PassesOnStack(code[0], n) {
        var k :| 0 <= k < |code[1..]| && PassesOnStack(code[1..][k], n);
        assert PassesOnStack(code[k + 1], n);
      }
    }
  }

  /** The room for stack arguments is what the longest call of the function takes. */
  lemma {:induction false} MostIsMost(bs: seq<Block>)
    ensures MostStackArgsIn(bs) > 0 ==> SomePasses(bs, MostStackArgsIn(bs))
    ensures forall b, k | 0 <= b < |bs| && 0 <= k < |bs[b].insts| && bs[b].insts[k].Call? ::
              |bs[b].insts[k].args| - 8 <= MostStackArgsIn(bs)
  {
    hide MostStackArgs;
    if bs != [] {
      MostInCode(bs[0].insts);
      MostIsMost(bs[1..]);
      var n := MostStackArgsIn(bs);
      if n > 0 {
        if MostStackArgs(bs[0].insts) == n {
          var k :| 0 <= k < |bs[0].insts| && PassesOnStack(bs[0].insts[k], n);
        } else {
          var b, k :| 0 <= b < |bs[1..]| && 0 <= k < |bs[1..][b].insts| && PassesOnStack(bs[1..][b].insts[k], n);
          assert PassesOnStack(bs[b + 1].insts[k], n);
        }
      }
    }
  }

  // ---- branches -------------------------------------------------------------------------------

  /** Puts the outcome of a comparison into a register. */
  predicate Compares(i: Instr) {
    || (i.Arith? && (i.rop.OpSlt? || i.rop.OpSub?)) || i.Slti?
    || (i.Move? && (i.mop.OpXori1? || i.mop.OpSeqz? || i.mop.OpSnez?))
  }

  ghost predicate NoCompare(code: seq<Instr>) {
    forall k | 0 <= k < |code| :: !Compares(code[k])
  }

  lemma OperandsCompareNothing(fr: Frame, v: Val, x: Reg)
    ensures NoCompare(ToReg(fr, v, x).1)
  {
  }

  lemma BranchComparesNothing(fr: Frame, op: BinOp, a: Val, b: Val, target: nat, negate: bool)
    requires IsCmp(op)
    ensures NoCompare(BranchCmp(fr, op, a, b, target, negate))
  {
    OperandsCompareNothing(fr, a, T5);
    OperandsCompareNothing(fr, b, T6);
    hide ToReg;
  }

  /**
   * A block that ends in a comparison which only its own branch reads has no code
   * for the outcome: behind the other instructions there is just the branch.
   */
  lemma ComparisonFused(fr: Frame, f: Func, b: Block, next: int)
    requires b.term.Br? && b.insts != [] && b.term.cond.Reg? && UseCount(f.blocks, b.term.cond.reg) == 1
    requires var last := b.insts[|b.insts| - 1];
             last.Bin? && last.bop in {Lt, Gt, Le, Ge, Eq, Ne} && last.dst == b.term.cond.reg
    ensures exists tail :: NoCompare(tail) && EmitBlock(fr, f, b, next) == EmitInsts(fr, b.insts[..|b.insts| - 1]) + tail
  {
    hide UseCount, BranchCmp, EmitInsts;
    var n, last := |b.insts| - 1, b.insts[|b.insts| - 1];
    assert FusesCmp(f, b);
    var tail := EmitTerm(fr, b.term, next, Some(last));
    assert tail == FusedBranch(fr, last, b.term.ifTrue, b.term.ifFalse, next);
    BranchComparesNothing(fr, last.bop, last.a, last.b, b.term.ifTrue, false);
    BranchComparesNothing(fr, last.bop, last.a, last.b, b.term.ifFalse, true);
    assert NoCompare(tail);
  }

  lemma BranchTargets(fr: Frame, op: BinOp, a: Val, b: Val, target: nat, negate: bool)
    ensures forall k | 0 <= k < |BranchCmp(fr, op, a, b, target, negate)| :: !BranchCmp(fr, op, a, b, target, negate)[k].Jump?
  {
    hide ToReg;
  }

  /** A block never ends in a jump to the block that is laid out behind it. */
  lemma NoJumpToNext(fr: Frame, t: Term, next: nat, fused: Option<Inst>)
    requires fused.Some? && t.Br? ==> fused.value.Bin?
    requires t.Jmp? || t.Br?
    ensures Jump(next) !in EmitTerm(fr, t, next, fused)
  {
    if t.Br? {
      hide BranchCmp, ToReg;
      if fused.Some? {
        BranchTargets(fr, fused.value.bop, fused.value.a, fused.value.b, t.ifTrue, false);
        BranchTargets(fr, fused.value.bop, fused.value.a, fused.value.b, t.ifFalse, true);
      }
    }
  }
}
