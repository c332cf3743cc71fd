/**
 * The code generator as it runs: fields that hold the text so far and the state
 * of the current function, and methods that append to the text.  Each method is
 * tied to the function that gives its text.
 */
module BackEnd {
  import opened Word32
  import opened Bits
  import opened IR
  import opened RiscV
  import opened RegAlloc
  import opened Liveness
  import Magic
  import K = ConstOps
  import C = CodeGen
  import D = Dominators
  import L = LayoutProof

  function RegsOk(A: Allocation): bool {
    |A.reg| == |A.spillSlot| && forall v | 0 <= v < |A.reg| :: -1 <= A.reg[v] < 32
  }

  lemma ValidRegs(f: Func, A: Allocation)
    requires ValidAllocation(f, A)
    ensures RegsOk(A) && |A.reg| == f.numVregs
    ensures forall i | 0 <= i < |A.usedCallee| :: 0 <= A.usedCallee[i] < 32
  {
    hide Solved, Justified, InstSafe, ParamsSafe;
    var liveIn, liveOut :| Safe(f, A, liveIn, liveOut);
    forall v | 0 <= v < |A.reg| ensures -1 <= A.reg[v] < 32 {
      assert Placed(A, v);
    }
    forall i | 0 <= i < |A.usedCallee| ensures 0 <= A.usedCallee[i] < 32 {
      assert A.usedCallee[i] in A.usedCallee;
    }
  }

  // ---- use counts ----------------------------------------------------------------------------

  lemma {:induction false} ReadsOfArgsSnoc(args: seq<Val>, a: Val, v: nat)
    ensures C.ReadsOfArgs(args + [a], v) == C.ReadsOfArgs(args, v) + C.ReadsOfVal(a, v)
  {
    if args != [] {
      assert (args + [a])[1..] == args[1..] + [a];
      ReadsOfArgsSnoc(args[1..], a, v);
    }
  }

  lemma {:induction false} ReadsOfCodeSnoc(code: seq<Inst>, i: Inst, v: nat)
    ensures C.ReadsOfCode(code + [i], v) == C.ReadsOfCode(code, v) + C.ReadsOfInst(i, v)
  {
    if code != [] {
      assert (code + [i])[1..] == code[1..] + [i];
      ReadsOfCodeSnoc(code[1..], i, v);
    } else {
      assert (code + [i])[1..] == [];
    }
  }

  lemma {:induction false} UseCountSnoc(bs: seq<Block>, b: Block, v: nat)
    ensures C.UseCount(bs + [b], v) == C.UseCount(bs, v) + C.ReadsOfBlock(b, v)
  {
    if bs != [] {
      assert (bs + [b])[1..] == bs[1..] + [b];
      UseCountSnoc(bs[1..], b, v);
    } else {
      assert (bs + [b])[1..] == [];
    }
  }

  /** The counter of every register of an operand is one higher. */
  method CountVal(counts: seq<nat>, a: Val) returns (r: seq<nat>)
    requires a.Reg? ==> a.reg < |counts|
    ensures |r| == |counts| && forall v | 0 <= v < |r| :: r[v] == counts[v] + C.ReadsOfVal(a, v)
  {
    r := if a.Reg? then counts[a.reg := counts[a.reg] + 1] else counts;
  }

  /** An operand's register is among those the instruction reads. */
  lemma UsesOperand(i: Inst, v: Val)
    requires match i
             case Bin(_, _, a, b, _, _) => v == a || v == b
             case LoadGlobal(_, _) => false
             case Call(_, _, args) => v in args
             case _ => v == i.a
    ensures v.Reg? ==> v.reg in Uses(i)
  {
    if v.Reg? {
      assert v.reg in ValUses(v);
      if i.Call? {
        var k :| 0 <= k < |i.args| && i.args[k] == v;
      }
    }
  }

  method CountInst(counts: seq<nat>, i: Inst) returns (r: seq<nat>)
    requires InstOk(i, |counts|)
    ensures |r| == |counts| && forall v | 0 <= v < |r| :: r[v] == counts[v] + C.ReadsOfInst(i, v)
  {
    match i
    case Bin(_, _, a, b, h, _) =>
      UsesOperand(i, a);
      UsesOperand(i, b);
      r := CountVal(counts, a);
      r := CountVal(r, b);
      if h >= 0 {
        assert h in HintUses(h) && h in Uses(i);
        r := r[h := r[h] + 1];
      }
    case Un(_, _, a) =>
      UsesOperand(i, a);
      r := CountVal(counts, a);
    case Mv(_, a) =>
      UsesOperand(i, a);
      r := CountVal(counts, a);
    case LoadGlobal(_, _) =>
      r := counts;
    case StoreGlobal(_, a) =>
      UsesOperand(i, a);
      r := CountVal(counts, a);
    case Call(_, _, args) =>
      r := counts;
      for k := 0 to |args|
        invariant |r| == |counts| && forall v | 0 <= v < |r| :: r[v] == counts[v] + C.ReadsOfArgs(args[..k], v)
      {
        UsesOperand(i, args[k]);
        forall v: nat ensures C.ReadsOfArgs(args[..k + 1], v) == C.ReadsOfArgs(args[..k], v) + C.ReadsOfVal(args[k], v) {
          assert args[..k + 1] == args[..k] + [args[k]];
          ReadsOfArgsSnoc(args[..k], args[k], v);
        }
        r := CountVal(r, args[k]);
      }
      assert args[..|args|] == args;
  }

  method CountBlock(counts: seq<nat>, b: Block, nb: nat) returns (r: seq<nat>)
    requires BlockOk(b, nb, |counts|)
    ensures |r| == |counts| && forall v | 0 <= v < |r| :: r[v] == counts[v] + C.ReadsOfBlock(b, v)
  {
    r := counts;
    for k := 0 to |b.insts|
      invariant |r| == |counts| && forall v | 0 <= v < |r| :: r[v] == counts[v] + C.ReadsOfCode(b.insts[..k], v)
    {
      forall v: nat ensures C.ReadsOfCode(b.insts[..k + 1], v) == C.ReadsOfCode(b.insts[..k], v) + C.ReadsOfInst(b.insts[k], v) {
        assert b.insts[..k + 1] == b.insts[..k] + [b.insts[k]];
        ReadsOfCodeSnoc(b.insts[..k], b.insts[k], v);
      }
      r := CountInst(r, b.insts[k]);
    }
    assert b.insts[..|b.insts|] == b.insts;
    if b.term.Br? {
      assert b.term.cond.Reg? ==> b.term.cond.reg in TermUses(b.term);
      r := CountVal(r, b.term.cond);
    } else if b.term.Ret? && b.term.val.Some? {
      assert b.term.val.value.Reg? ==> b.term.val.value.reg in TermUses(b.term);
      r := CountVal(r, b.term.val.value);
    }
  }

  /** `computeUseCounts`. */
  method ComputeUseCounts(f: Func) returns (counts: seq<nat>)
    requires FuncOk(f)
    ensures |counts| == f.numVregs && forall v | 0 <= v < |counts| :: counts[v] == C.UseCount(f.blocks, v)
  {
    counts := seq(f.numVregs, _ => 0);
    for b := 0 to |f.blocks|
      invariant |counts| == f.numVregs && forall v | 0 <= v < |counts| :: counts[v] == C.UseCount(f.blocks[..b], v)
    {
      forall v: nat ensures C.UseCount(f.blocks[..b + 1], v) == C.UseCount(f.blocks[..b], v) + C.ReadsOfBlock(f.blocks[b], v) {
        assert f.blocks[..b + 1] == f.blocks[..b] + [f.blocks[b]];
        UseCountSnoc(f.blocks[..b], f.blocks[b], v);
      }
      assert BlockOk(f.blocks[b], |f.blocks|, f.numVregs);
      counts := CountBlock(counts, f.blocks[b], |f.blocks|);
    }
    assert f.blocks[..|f.blocks|] == f.blocks;
  }

  // ---- stack arguments and block order --------------------------------------------------------

  lemma {:induction false} MostArgsSnoc(code: seq<Inst>, i: Inst)
    ensures C.MostStackArgs(code + [i]) == C.Max(C.MostStackArgs(code), if i.Call? then |i.args| - 8 else 0)
  {
    if code != [] {
      assert (code + [i])[1..] == code[1..] + [i];
      MostArgsSnoc(code[1..], i);
    } else {
      assert (code + [i])[1..] == [];
    }
  }

  lemma {:induction false} MostArgsInSnoc(bs: seq<Block>, b: Block)
    ensures C.MostStackArgsIn(bs + [b]) == C.Max(C.MostStackArgsIn(bs), C.MostStackArgs(b.insts))
  {
    if bs != [] {
      assert (bs + [b])[1..] == bs[1..] + [b];
      MostArgsInSnoc(bs[1..], b);
    } else {
      assert (bs + [b])[1..] == [];
    }
  }

  method MaxStackArgs(f: Func) returns (n: nat)
    ensures n == C.MostStackArgsIn(f.blocks)
  {
    n := 0;
    for b := 0 to |f.blocks|
      invariant n == C.MostStackArgsIn(f.blocks[..b])
    {
      var code := f.blocks[b].insts;
      for k := 0 to |code|
        invariant n == C.Max(C.MostStackArgsIn(f.blocks[..b]), C.MostStackArgs(code[..k]))
      {
        assert code[..k + 1] == code[..k] + [code[k]];
        MostArgsSnoc(code[..k], code[k]);
        if code[k].Call? && |code[k].args| - 8 > n {
          n := |code[k].args| - 8;
        }
      }
      assert code[..|code|] == code;
      assert f.blocks[..b + 1] == f.blocks[..b] + [f.blocks[b]];
      MostArgsInSnoc(f.blocks[..b], f.blocks[b]);
    }
    assert f.blocks[..|f.blocks|] == f.blocks;
  }

  /** Pushes the successors that have not been seen yet, and marks them. */
  method PushFresh(succs: seq<nat>, n: nat, stack: seq<nat>, seen: set<nat>) returns (stack': seq<nat>, seen': set<nat>)
    ensures stack' == stack + C.Fresh(succs, n, seen)
    ensures seen' == seen + Elements(C.Fresh(succs, n, seen))
  {
    stack', seen' := stack, seen;
    for i := 0 to |succs|
      invariant stack' + C.Fresh(succs[i..], n, seen') == stack + C.Fresh(succs, n, seen)
      invariant seen' + Elements(C.Fresh(succs[i..], n, seen')) == seen + Elements(C.Fresh(succs, n, seen))
    {
      assert succs[i..][1..] == succs[i + 1..];
      if succs[i] < n && succs[i] !in seen' {
        ElementsCons(succs[i], C.Fresh(succs[i + 1..], n, seen' + {succs[i]}));
        seen' := seen' + {succs[i]};
        stack' := stack' + [succs[i]];
      }
    }
  }

  /** The blocks reachable from the entry, by an explicit stack. */
  method ReachableBlocks(f: Func) returns (reach: set<nat>)
    requires |f.blocks| > 0
    ensures reach == C.Reach(f, [0], {0}) && forall b: nat :: b in reach <==> D.Reachable(f, b)
  {
    var stack: seq<nat> := [0];
    reach := {0};
    while stack != []
      invariant forall b | b in reach :: b < |f.blocks|
      invariant C.Reach(f, stack, reach) == C.Reach(f, [0], {0})
      decreases AllVregs(|f.blocks|) - reach, |stack|
    {
      var b := stack[|stack| - 1];
      if b < |f.blocks| {
        ReachStep(f, stack, reach);
        stack, reach := PushFresh(Succs(f.blocks[b].term), |f.blocks|, stack[..|stack| - 1], reach);
      } else {
        stack := stack[..|stack| - 1];
      }
    }
    forall b: nat ensures b in reach <==> D.Reachable(f, b) {
      L.ReachIff(f, b);
    }
  }

  lemma ElementsCons(x: nat, xs: seq<nat>)
    ensures Elements([x] + xs) == {x} + Elements(xs)
  {
    assert forall k | 0 <= k < |xs| :: ([x] + xs)[k + 1] == xs[k];
    forall y | y in {x} + Elements(xs) ensures y in Elements([x] + xs) {
      if y in Elements(xs) {
        var k :| 0 <= k < |xs| && xs[k] == y;
        assert ([x] + xs)[k + 1] == y;
      } else {
        assert ([x] + xs)[0] == y;
      }
    }
  }

  lemma ReachStep(f: Func, stack: seq<nat>, seen: set<nat>)
    requires stack != [] && stack[|stack| - 1] < |f.blocks| && forall b | b in seen :: b < |f.blocks|
    ensures var b, rest := stack[|stack| - 1], stack[..|stack| - 1];
            var more := C.Fresh(Succs(f.blocks[b].term), |f.blocks|, seen);
            && (forall x | x in seen + Elements(more) :: x < |f.blocks|)
            && C.Reach(f, stack, seen) == C.Reach(f, rest + more, seen + Elements(more))
            && (more != [] ==> AllVregs(|f.blocks|) - (seen + Elements(more)) < AllVregs(|f.blocks|) - seen)
  {
    var b, rest := stack[|stack| - 1], stack[..|stack| - 1];
    var more := C.Fresh(Succs(f.blocks[b].term), |f.blocks|, seen);
    if more == [] {
      assert Elements(more) == {} && rest + more == rest && seen + Elements(more) == seen;
    } else {
      assert more[0] in more && more[0] in Elements(more);
      assert more[0] in AllVregs(|f.blocks|) - seen;
    }
  }

  /** The layout order: reachable blocks by increasing number. */
  method BlockOrder(f: Func) returns (order: seq<nat>)
    requires |f.blocks| > 0
    ensures order == C.BlockOrder(f)
  {
    var reach := ReachableBlocks(f);
    order := [];
    for b := 0 to |f.blocks|
      invariant order == C.Order(reach, b)
    {
      if b in reach { order := order + [b]; }
    }
  }

  // ---- the generator ----------------------------------------------------------------------------

  /** `invertCmp` and the branch of a comparison. */
  function BranchOf(op: BinOp, x: RiscV.Reg, y: RiscV.Reg, target: nat): seq<Instr> {
    match op
    case Lt => [Branch(Lts, x, y, target)]
    case Ge => [Branch(Ges, x, y, target)]
    case Gt => [Branch(Lts, y, x, target)]
    case Le => [Branch(Ges, y, x, target)]
    case Eq => [Branch(Eqs, x, y, target)]
    case Ne => [Branch(Nes, x, y, target)]
    case _ => []
  }

  lemma Cat(o: seq<Instr>, a: seq<Instr>, b: seq<Instr>)
    ensures o + (a + b) == o + a + b
  {
  }

  lemma Cat3(o: seq<Instr>, a: seq<Instr>, b: seq<Instr>, c: seq<Instr>)
    ensures o + (a + b + c) == o + a + b + c
  {
  }

  lemma Cat5(o: seq<Instr>, a: seq<Instr>, b: seq<Instr>, c: seq<Instr>, d: seq<Instr>, e: seq<Instr>)
    ensures o + (a + b + c + d + e) == o + a + b + c + d + e
  {
  }

  class OptCodeGen {
    const opt: bool
    var out: seq<Instr>
    var A: Allocation
    var outArgArea: nat
    var spillBase: nat
    var calleeBase: nat
    var raOff: nat
    var frameSize: nat
    var useCount: seq<nat>
    var dstOverride: int
    var curMagicVreg: int
    var curUnsigned: bool

    constructor (opt: bool)
      ensures this.opt == opt && out == [] && dstOverride == -1 && curMagicVreg == -1 && !curUnsigned
    {
      this.opt := opt;
      out := [];
      A := Allocation([], [], 0, [], true);
      outArgArea, spillBase, calleeBase, raOff, frameSize := 0, 0, 0, 0, 0;
      useCount := [];
      dstOverride, curMagicVreg, curUnsigned := -1, -1, false;
    }

    /** The frame that the fields describe. */
    function Fr(): C.Frame
      reads this`A, this`outArgArea
    {
      C.Frame(A, opt, outArgArea)
    }

    /** The fields of the current function agree with each other. */
    predicate Ready()
      reads this`A, this`outArgArea, this`spillBase, this`calleeBase, this`raOff, this`frameSize
    {
      && RegsOk(A) && (forall i | 0 <= i < |A.usedCallee| :: 0 <= A.usedCallee[i] < 32)
      && spillBase == Fr().SpillBase() && calleeBase == Fr().CalleeBase()
      && raOff == Fr().RaOff() && frameSize == Fr().Size()
    }

    predicate ValIn(v: Val)
      reads this`A
    {
      v.Reg? ==> v.reg < |A.reg|
    }

    predicate InstIn(i: Inst)
      reads this`A
    {
      InstOk(i, |A.reg|)
    }

    lemma OperandsIn(i: Inst)
      requires InstIn(i)
      ensures i.Bin? ==> ValIn(i.a) && ValIn(i.b) && i.magicVreg < |A.reg|
      ensures i.Un? || i.Mv? || i.StoreGlobal? ==> ValIn(i.a)
      ensures i.Call? ==> forall k | 0 <= k < |i.args| :: ValIn(i.args[k])
    {
      if i.Bin? {
        UsesOperand(i, i.a);
        UsesOperand(i, i.b);
        assert i.magicVreg >= 0 ==> i.magicVreg in HintUses(i.magicVreg) && i.magicVreg in Uses(i);
      } else if i.Call? {
        forall k | 0 <= k < |i.args| ensures ValIn(i.args[k]) {
          UsesOperand(i, i.args[k]);
        }
      } else if !i.LoadGlobal? {
        UsesOperand(i, i.a);
      }
    }

    // ---- raw memory access ----

    method LoadOff(x: RiscV.Reg, off: int)
      modifies this`out
      ensures out == old(out) + C.LoadOff(x, off)
    {
      if Fits12(off) {
        out := out + [Lw(x, off, SP)];
      } else {
        out := out + [Li(A7, Wrap(off)), Arith(OpAdd, A7, SP, A7), Lw(x, 0, A7)];
      }
    }

    method StoreOff(x: RiscV.Reg, off: int)
      modifies this`out
      ensures out == old(out) + C.StoreOff(x, off)
    {
      if Fits12(off) {
        out := out + [Sw(x, off, SP)];
      } else {
        out := out + [Li(A7, Wrap(off)), Arith(OpAdd, A7, SP, A7), Sw(x, 0, A7)];
      }
    }

    function SpillOff(v: nat): int
      requires v < |A.spillSlot|
      reads this`A, this`spillBase
    {
      spillBase + A.spillSlot[v] * 4
    }

    method ToReg(v: Val, scratch: RiscV.Reg) returns (x: RiscV.Reg)
      requires Ready() && ValIn(v)
      modifies this`out
      ensures x == C.ToReg(Fr(), v, scratch).0 && out == old(out) + C.ToReg(Fr(), v, scratch).1
    {
      x := scratch;
      if v.Imm? {
        if v.imm == 0 { return ZERO; }
        out := out + [Li(scratch, v.imm)];
      } else if A.reg[v.reg] >= 0 {
        x := A.reg[v.reg];
      } else {
        LoadOff(scratch, SpillOff(v.reg));
      }
    }

    method Materialize(v: Val, x: RiscV.Reg)
      requires Ready() && ValIn(v)
      modifies this`out
      ensures out == old(out) + C.Materialize(Fr(), v, x)
    {
      if v.Imm? {
        out := out + [Li(x, v.imm)];
      } else if A.reg[v.reg] >= 0 {
        if A.reg[v.reg] != x { out := out + [Move(OpMv, x, A.reg[v.reg])]; }
      } else {
        LoadOff(x, SpillOff(v.reg));
      }
    }

    function DstReg(v: int, scratch: RiscV.Reg): RiscV.Reg
      requires RegsOk(A) && 0 <= v < |A.reg| && dstOverride < 32
      reads this`A, this`dstOverride
    {
      if dstOverride >= 0 then dstOverride else if A.reg[v] >= 0 then A.reg[v] else scratch
    }

    method WriteBack(v: int, x: RiscV.Reg)
      requires Ready() && 0 <= v < |A.reg|
      modifies this`out
      ensures out == old(out) + C.WriteBack(Fr(), v, x, dstOverride)
    {
      if dstOverride < 0 && A.reg[v] < 0 { StoreOff(x, SpillOff(v)); }
    }

    // ---- strength reduction by a constant ----

    method Negate(rd: RiscV.Reg, c: i32)
      modifies this`out
      ensures out == old(out) + K.Negated(rd, c)
    {
      if c < 0 { out := out + [Move(OpNeg, rd, rd)]; }
    }

    method EmitMulConst(rd: RiscV.Reg, ra: RiscV.Reg, c: i32)
      modifies this`out
      ensures out == old(out) + K.MulConst(rd, ra, c)
    {
      hide Log2Exact;
      if c == 0 { out := out + [Li(rd, 0)]; return; }
      if c == 1 {
        if rd != ra { out := out + [Move(OpMv, rd, ra)]; }
        return;
      }
      if c == -1 { out := out + [Move(OpNeg, rd, ra)]; return; }
      var ac: u32 := Abs(c);
      var k := ComputeLog2Exact(ac);
      if k >= 1 {
        out := out + [Shift(OpSlli, rd, ra, k)];
        Negate(rd, c);
        return;
      }
      var kp := ComputeLog2Exact(ac - 1);
      if kp >= 1 {
        out := out + [Shift(OpSlli, T6, ra, kp), Arith(OpAdd, rd, T6, ra)];
        Negate(rd, c);
        return;
      }
      var km := ComputeLog2Exact(ac + 1);
      if km >= 1 {
        out := out + [Shift(OpSlli, T6, ra, km), Arith(OpSub, rd, T6, ra)];
        Negate(rd, c);
        return;
      }
      out := out + [Li(T6, c), Arith(OpMul, rd, ra, T6)];
    }

    method EmitPow2Bias(ra: RiscV.Reg, k: nat)
      requires 1 <= k <= 31
      modifies this`out
      ensures out == old(out) + K.Pow2Bias(ra, k)
    {
      if k == 1 {
        out := out + [Shift(OpSrli, T6, ra, 31)];
      } else {
        out := out + [Shift(OpSrai, T6, ra, 31), Shift(OpSrli, T6, T6, 32 - k)];
      }
    }

    /** The division whose hints the fields hold. */
    function Hinted(c: i32): Inst
      reads this`curMagicVreg, this`curUnsigned
    {
      Bin(Div, 0, Imm(0), Imm(c), curMagicVreg, curUnsigned)
    }

    predicate HintIn()
      reads this`A, this`curMagicVreg
    {
      curMagicVreg < |A.reg|
    }

    /** The register with the magic number M, hoisted or loaded now. */
    method MagicReg(M: i32) returns (x: RiscV.Reg)
      requires Ready() && HintIn()
      modifies this`out
      ensures (x, out) == if curMagicVreg >= 0 then (C.ToReg(Fr(), Reg(curMagicVreg), A7).0, old(out) + C.ToReg(Fr(), Reg(curMagicVreg), A7).1)
                          else (T6, old(out) + [Li(T6, M)])
    {
      if curMagicVreg >= 0 {
        x := ToReg(Reg(curMagicVreg), A7);
      } else {
        out := out + [Li(T6, M)];
        x := T6;
      }
    }

    /** The magic register and its load for the division whose hints the fields hold. */
    function Magics(c: i32): (RiscV.Reg, seq<Instr>)
      reads this`A, this`outArgArea, this`curMagicVreg, this`curUnsigned
    {
      C.MagicReg(Fr(), Hinted(c), c)
    }

    /** The high product shifted by s into qreg. */
    method EmitShifted(qreg: RiscV.Reg, s: nat)
      modifies this`out
      ensures s == 0 ==> out == old(out) + if qreg != A7 then [Move(OpMv, qreg, A7)] else []
      ensures s > 0 ==> out == old(out) + [Shift(OpSrli, qreg, A7, s)]
    {
      if s > 0 {
        out := out + [Shift(OpSrli, qreg, A7, s)];
      } else if qreg != A7 {
        out := out + [Move(OpMv, qreg, A7)];
      }
    }

    /** The same, left in a7 when there is nothing to shift. */
    method EmitShiftIfAny(s: nat) returns (qreg: RiscV.Reg)
      modifies this`out
      ensures s == 0 ==> out == old(out) && qreg == A7
      ensures s > 0 ==> out == old(out) + [Shift(OpSrli, A6, A7, s)] && qreg == A6
    {
      qreg := A7;
      if s > 0 {
        out := out + [Shift(OpSrli, A6, A7, s)];
        qreg := A6;
      }
    }

    method EmitUnsignedQuotient(qreg: RiscV.Reg, ra: RiscV.Reg, c: i32)
      requires Ready() && HintIn() && Magic.NeedsMagic(c) && curUnsigned
      modifies this`out
      ensures out == old(out) + K.UnsignedQuotient(qreg, ra, Magics(c).1, Magics(c).0)
    {
      UnsignedDivisor(c);
      var M, s := Magic.ComputeUnsignedMagic(U(c));
      hide Magic.UnsignedM, Magic.NeedsMagic, C.ToReg, Ready;
      var mr := MagicReg(Wrap(M));
      ghost var o, load := old(out), Magics(c).1;
      assert out == o + load && mr == Magics(c).0;
      out := out + [Arith(OpMulhu, A7, ra, mr)];
      EmitShifted(qreg, s);
      Cat3(o, load, [Arith(OpMulhu, A7, ra, mr)], if qreg != A7 then [Move(OpMv, qreg, A7)] else []);
    }

    method EmitCorrection(ra: RiscV.Reg, c: i32, M: i32)
      modifies this`out
      ensures out == old(out) + K.Correction(ra, c, M)
    {
      if c > 0 && M < 0 {
        out := out + [Arith(OpAdd, A7, A7, ra)];
      } else if c < 0 && M > 0 {
        out := out + [Arith(OpSub, A7, A7, ra)];
      }
    }

    method EmitSignedQuotient(qreg: RiscV.Reg, ra: RiscV.Reg, c: i32)
      requires Ready() && HintIn() && Magic.NeedsMagic(c) && !curUnsigned
      modifies this`out
      ensures out == old(out) + K.SignedQuotient(qreg, ra, c, Magics(c).1, Magics(c).0)
    {
      var M, s := Magic.ComputeSignedMagic(c);
      hide Magic.SignedM, Magic.SignedShift, Magic.NeedsMagic, C.ToReg, Ready;
      var mr := MagicReg(M);
      ghost var o, load := old(out), Magics(c).1;
      assert out == o + load && mr == Magics(c).0;
      out := out + [Arith(OpMulh, A7, ra, mr)];
      EmitCorrection(ra, c, M);
      if s > 0 { out := out + [Shift(OpSrai, A7, A7, s)]; }
      out := out + [Shift(OpSrli, T6, A7, 31), Arith(OpAdd, qreg, A7, T6)];
      Cat5(o, load, [Arith(OpMulh, A7, ra, mr)], K.Correction(ra, c, M),
           if s > 0 then [Shift(OpSrai, A7, A7, s)] else [], [Shift(OpSrli, T6, A7, 31), Arith(OpAdd, qreg, A7, T6)]);
    }

    method EmitMagicQuotient(qreg: RiscV.Reg, ra: RiscV.Reg, c: i32)
      requires Ready() && HintIn() && Magic.NeedsMagic(c)
      modifies this`out
      ensures out == old(out) + K.MagicQuotient(qreg, ra, c, curUnsigned, Magics(c).1, Magics(c).0)
    {
      if curUnsigned {
        EmitUnsignedQuotient(qreg, ra, c);
      } else {
        EmitSignedQuotient(qreg, ra, c);
      }
    }

    lemma UnsignedDivisor(c: i32)
      requires Magic.NeedsMagic(c)
      ensures U(c) >= 2
    {
    }

    method EmitDivConst(rd: RiscV.Reg, ra: RiscV.Reg, c: i32)
      requires Ready() && HintIn()
      modifies this`out
      ensures out == old(out) + K.DivConst(rd, ra, c, curUnsigned, Magics(c).1, Magics(c).0)
    {
      hide Log2Exact, K.MagicQuotient, C.MagicReg;
      if c == 1 {
        if rd != ra { out := out + [Move(OpMv, rd, ra)]; }
        return;
      }
      if c == -1 { out := out + [Move(OpNeg, rd, ra)]; return; }
      var k := ComputeLog2Exact(Abs(c));
      if k >= 1 {
        K.PowerBelow32(Abs(c), k);
        EmitPow2Bias(ra, k);
        out := out + [Arith(OpAdd, T6, ra, T6)];
        out := out + [Shift(OpSrai, rd, T6, k)];
        Negate(rd, c);
        return;
      }
      if c != 0 {
        K.GeneralDivisor(c);
        EmitMagicQuotient(rd, ra, c);
        return;
      }
      out := out + [Li(T6, c), Arith(OpDiv, rd, ra, T6)];
    }

    /** a7 = q * c for the quotient q in qreg, and the subtraction. */
    method EmitRemainder(rd: RiscV.Reg, ra: RiscV.Reg, qreg: RiscV.Reg, c: i32)
      modifies this`out
      ensures out == old(out) + K.MulConst(A7, qreg, c) + [Arith(OpSub, rd, ra, A7)]
    {
      hide K.MulConst;
      EmitMulConst(A7, qreg, c);
      out := out + [Arith(OpSub, rd, ra, A7)];
    }

    method EmitUnsignedMod(rd: RiscV.Reg, ra: RiscV.Reg, c: i32)
      requires Ready() && HintIn() && Magic.NeedsMagic(c) && curUnsigned
      modifies this`out
      ensures out == old(out) + (Magics(c).1 + [Arith(OpMulhu, A7, ra, Magics(c).0)] + K.MulConst(A7, A7, c) + [Arith(OpSub, rd, ra, A7)])
    {
      UnsignedDivisor(c);
      var M, s := Magic.ComputeUnsignedMagic(U(c));
      hide Magic.UnsignedM, Magic.NeedsMagic, C.ToReg, Ready, K.MulConst;
      var mr := MagicReg(Wrap(M));
      ghost var o, load := old(out), Magics(c).1;
      assert out == o + load && mr == Magics(c).0;
      out := out + [Arith(OpMulhu, A7, ra, mr)];
      var qreg := EmitShiftIfAny(s);
      EmitRemainder(rd, ra, qreg, c);
      Cat5(o, load, [Arith(OpMulhu, A7, ra, mr)], K.MulConst(A7, A7, c), [Arith(OpSub, rd, ra, A7)], []);
      assert load + [Arith(OpMulhu, A7, ra, mr)] + K.MulConst(A7, A7, c) + [Arith(OpSub, rd, ra, A7)] + []
             == load + [Arith(OpMulhu, A7, ra, mr)] + K.MulConst(A7, A7, c) + [Arith(OpSub, rd, ra, A7)];
      assert out == o + load + [Arith(OpMulhu, A7, ra, mr)] + K.MulConst(A7, A7, c) + [Arith(OpSub, rd, ra, A7)] + [];
    }

    method EmitModConst(rd: RiscV.Reg, ra: RiscV.Reg, c: i32)
      requires Ready() && HintIn() && c != 0
      modifies this`out
      ensures out == old(out) + K.ModConst(rd, ra, c, curUnsigned, Magics(c).1, Magics(c).0)
    {
      hide Log2Exact, K.MulConst, K.SignedQuotient, C.MagicReg, K.Pow2Bias;
      if Abs(c) == 1 { out := out + [Li(rd, 0)]; return; }
      var k := ComputeLog2Exact(Abs(c));
      ghost var o := old(out);
      if k >= 1 {
        K.PowerBelow32(Abs(c), k);
        EmitPow2Bias(ra, k);
        out := out + [Arith(OpAdd, T6, ra, T6), Shift(OpSrai, T6, T6, k)];
        out := out + [Shift(OpSlli, T6, T6, k), Arith(OpSub, rd, ra, T6)];
        Cat3(o, K.Pow2Bias(ra, k), [Arith(OpAdd, T6, ra, T6), Shift(OpSrai, T6, T6, k)],
             [Shift(OpSlli, T6, T6, k), Arith(OpSub, rd, ra, T6)]);
        return;
      }
      K.GeneralDivisor(c);
      if curUnsigned {
        EmitUnsignedMod(rd, ra, c);
        return;
      }
      EmitMagicQuotient(A6, ra, c);
      EmitRemainder(rd, ra, A6, c);
      Cat3(o, K.SignedQuotient(A6, ra, c, Magics(c).1, Magics(c).0), K.MulConst(A7, A6, c), [Arith(OpSub, rd, ra, A7)]);
    }

    // ---- instructions ----

    method EmitStackArgs(args: seq<Val>)
      requires Ready() && forall k | 0 <= k < |args| :: ValIn(args[k])
      modifies this`out
      ensures out == old(out) + C.StackArgs(Fr(), args, |args|)
    {
      var n := |args|;
      ghost var before := out;
      while n > 8
        invariant 0 <= n <= |args|
        invariant out + C.StackArgs(Fr(), args, n) == before + C.StackArgs(Fr(), args, |args|)
      {
        hide C.Materialize, C.StoreOff, Ready;
        ghost var a, b, rest := C.Materialize(Fr(), args[n - 1], T5), C.StoreOff(T5, 4 * (n - 1 - 8)), C.StackArgs(Fr(), args, n - 1);
        Cat3(out, a, b, rest);
        Materialize(args[n - 1], T5);
        StoreOff(T5, (n - 1 - 8) * 4);
        n := n - 1;
      }
    }

    method EmitRegArgs(args: seq<Val>)
      requires Ready() && forall k | 0 <= k < |args| :: ValIn(args[k])
      modifies this`out
      ensures out == old(out) + C.RegArgs(Fr(), args, if |args| < 8 then |args| else 8)
    {
      hide C.Materialize;
      ghost var before := out;
      var k := 0;
      while k < |args| && k < 8
        invariant 0 <= k <= |args| && k <= 8
        invariant out == before + C.RegArgs(Fr(), args, k)
      {
        Materialize(args[k], A0 + k);
        k := k + 1;
        Cat(before, C.RegArgs(Fr(), args, k - 1), C.Materialize(Fr(), args[k - 1], A0 + (k - 1)));
      }
    }

    /** The result of a call out of a0. */
    method EmitCallResult(d: int)
      requires Ready() && -1 <= d < |A.reg| && -1 <= dstOverride < 32
      modifies this`out
      ensures out == old(out) + C.CallResult(Fr(), d, dstOverride)
    {
      if d >= 0 {
        if dstOverride >= 0 {
          if dstOverride != A0 { out := out + [Move(OpMv, dstOverride, A0)]; }
        } else if A.reg[d] >= 0 {
          if A.reg[d] != A0 { out := out + [Move(OpMv, A.reg[d], A0)]; }
        } else {
          StoreOff(A0, SpillOff(d));
        }
      }
    }

    method EmitCall(i: Inst)
      requires Ready() && i.Call? && InstIn(i) && -1 <= dstOverride < 32
      modifies this`out
      ensures out == old(out) + C.EmitInst(Fr(), i, dstOverride)
    {
      OperandsIn(i);
      hide C.StackArgs, C.RegArgs, C.CallResult, Ready;
      ghost var o := out;
      ghost var a, b := C.StackArgs(Fr(), i.args, |i.args|), C.RegArgs(Fr(), i.args, if |i.args| < 8 then |i.args| else 8);
      EmitStackArgs(i.args);
      EmitRegArgs(i.args);
      out := out + [CallTo(i.callee)];
      EmitCallResult(i.dst);
      Cat(o, a, b);
      Cat3(o, a + b, [CallTo(i.callee)], C.CallResult(Fr(), i.dst, dstOverride));
    }

    /** The short forms of `+` and `-`. */
    method EmitShortSum(i: Inst) returns (done: bool)
      requires Ready() && i.Bin? && InstIn(i) && dstOverride < 32 && (i.bop.Add? || i.bop.Sub?)
      modifies this`out
      ensures !done ==> out == old(out) && !InstIs(i)
      ensures done ==> out == old(out) + C.BinaryOp(Fr(), i, DstReg(i.dst, T5))
    {
      OperandsIn(i);
      var op, rd, x := i.bop, DstReg(i.dst, T5), ZERO;
      hide C.RegisterOp, C.ToReg, Ready, RegsOk;
      done := true;
      if op.Add? && i.b.Imm? && Fits12(i.b.imm) {
        x := ToReg(i.a, T5);
        out := out + [Addi(rd, x, i.b.imm)];
      } else if op.Add? && i.a.Imm? && Fits12(i.a.imm) {
        x := ToReg(i.b, T5);
        out := out + [Addi(rd, x, i.a.imm)];
      } else if op.Sub? && i.b.Imm? && Fits12(-(i.b.imm as int)) {
        x := ToReg(i.a, T5);
        out := out + [Addi(rd, x, -(i.b.imm as int))];
      } else {
        done := false;
      }
    }

    /** The short forms of comparisons and products. */
    method EmitShortOther(i: Inst) returns (done: bool)
      requires Ready() && i.Bin? && InstIn(i) && dstOverride < 32 && !(i.bop.Add? || i.bop.Sub?)
      modifies this`out
      ensures !done ==> out == old(out) && !InstIs(i)
      ensures done ==> out == old(out) + C.BinaryOp(Fr(), i, DstReg(i.dst, T5))
    {
      OperandsIn(i);
      var op, rd, x := i.bop, DstReg(i.dst, T5), ZERO;
      hide C.RegisterOp, K.MulConst, K.DivConst, K.ModConst, C.MagicReg, C.ToReg, Ready, RegsOk;
      done := true;
      ghost var o := out;
      if op.Lt? && i.b.Imm? && Fits12(i.b.imm) {
        x := ToReg(i.a, T5);
        out := out + [Slti(rd, x, i.b.imm)];
      } else if (op.Eq? || op.Ne?) && i.b.Imm? && i.b.imm == 0 {
        x := ToReg(i.a, T5);
        out := out + [Move(if op.Eq? then OpSeqz else OpSnez, rd, x)];
      } else if op.Mul? && (i.a.Imm? || i.b.Imm?) {
        var v := if i.a.Imm? then i.b else i.a;
        x := ToReg(v, T5);
        EmitMulConst(rd, x, if i.a.Imm? then i.a.imm else i.b.imm);
        Cat(o, C.ToReg(Fr(), v, T5).1, K.MulConst(rd, x, if i.a.Imm? then i.a.imm else i.b.imm));
      } else {
        done := false;
      }
    }

    /** The cases of `emitBinary` that are decided by an immediate operand. */
    method EmitBinaryImmediate(i: Inst) returns (done: bool)
      requires Ready() && i.Bin? && InstIn(i) && dstOverride < 32
      modifies this`out
      ensures !done ==> out == old(out) && !InstIs(i)
      ensures done ==> out == old(out) + C.BinaryOp(Fr(), i, DstReg(i.dst, T5))
    {
      hide C.BinaryOp, Ready;
      if i.bop.Add? || i.bop.Sub? {
        done := EmitShortSum(i);
      } else {
        done := EmitShortOther(i);
      }
    }

    /** An immediate operand selects a short form. */
    predicate InstIs(i: Inst)
      requires i.Bin?
    {
      || (i.bop.Add? && i.b.Imm? && Fits12(i.b.imm))
      || (i.bop.Add? && i.a.Imm? && Fits12(i.a.imm))
      || (i.bop.Sub? && i.b.Imm? && Fits12(-(i.b.imm as int)))
      || (i.bop.Lt? && i.b.Imm? && Fits12(i.b.imm))
      || ((i.bop.Eq? || i.bop.Ne?) && i.b.Imm? && i.b.imm == 0)
      || (i.bop.Mul? && (i.a.Imm? || i.b.Imm?))
    }

    method EmitRegisterOp(op: BinOp, d: RiscV.Reg, x: RiscV.Reg, y: RiscV.Reg)
      modifies this`out
      ensures out == old(out) + C.RegisterOp(op, d, x, y)
    {
      match op
      case Add => out := out + [Arith(OpAdd, d, x, y)];
      case Sub => out := out + [Arith(OpSub, d, x, y)];
      case Mul => out := out + [Arith(OpMul, d, x, y)];
      case Div => out := out + [Arith(OpDiv, d, x, y)];
      case Mod => out := out + [Arith(OpRem, d, x, y)];
      case Lt => out := out + [Arith(OpSlt, d, x, y)];
      case Gt => out := out + [Arith(OpSlt, d, y, x)];
      case Le => out := out + [Arith(OpSlt, d, y, x), Move(OpXori1, d, d)];
      case Ge => out := out + [Arith(OpSlt, d, x, y), Move(OpXori1, d, d)];
      case Eq => out := out + [Arith(OpSub, d, x, y), Move(OpSeqz, d, d)];
      case Ne => out := out + [Arith(OpSub, d, x, y), Move(OpSnez, d, d)];
    }

    /** A remainder or quotient by a constant needs a divisor that the compiler's search can divide by. */
    predicate Divisible(i: Inst)
    {
      !(i.Bin? && i.bop.Mod? && i.b == Imm(0) && opt)
    }

    method EmitConstOp(isDiv: bool, rd: RiscV.Reg, ra: RiscV.Reg, c: i32)
      requires Ready() && HintIn() && (isDiv || c != 0)
      modifies this`out
      ensures out == old(out) + if isDiv then K.DivConst(rd, ra, c, curUnsigned, Magics(c).1, Magics(c).0)
                                else K.ModConst(rd, ra, c, curUnsigned, Magics(c).1, Magics(c).0)
    {
      hide K.DivConst, K.ModConst, Ready, Magics;
      if isDiv { EmitDivConst(rd, ra, c); } else { EmitModConst(rd, ra, c); }
    }

    /** The code of a division by a constant when the fields hold its hints. */
    method EmitHinted(i: Inst)
      requires Ready() && i.Bin? && InstIn(i) && dstOverride < 32 && Divisible(i)
      requires (i.bop.Div? || i.bop.Mod?) && i.b.Imm? && opt && curMagicVreg == i.magicVreg && curUnsigned == i.unsignedDiv
      modifies this`out
      ensures out == old(out) + C.BinaryOp(Fr(), i, DstReg(i.dst, T5))
    {
      OperandsIn(i);
      SameMagics(i);
      var rd := DstReg(i.dst, T5);
      hide K.DivConst, K.ModConst, C.ToReg, C.MagicReg, Ready, Magics, RegsOk;
      ghost var o := out;
      var x := ToReg(i.a, T5);
      EmitConstOp(i.bop.Div?, rd, x, i.b.imm);
      ghost var (mr, mload) := C.MagicReg(Fr(), i, i.b.imm);
      Cat(o, C.ToReg(Fr(), i.a, T5).1, if i.bop.Div? then K.DivConst(rd, x, i.b.imm, i.unsignedDiv, mload, mr)
                                       else K.ModConst(rd, x, i.b.imm, i.unsignedDiv, mload, mr));
    }

    /** Division and remainder by a constant, under the instruction's hints. */
    method EmitByConstant(i: Inst)
      requires Ready() && i.Bin? && InstIn(i) && dstOverride < 32 && Divisible(i)
      requires (i.bop.Div? || i.bop.Mod?) && i.b.Imm? && opt
      modifies this`out, this`curMagicVreg, this`curUnsigned
      ensures out == old(out) + C.BinaryOp(Fr(), i, DstReg(i.dst, T5))
      ensures curMagicVreg == -1 && !curUnsigned
    {
      hide C.BinaryOp;
      curMagicVreg := i.magicVreg;
      curUnsigned := i.unsignedDiv;
      EmitHinted(i);
      curMagicVreg := -1;
      curUnsigned := false;
    }

    /** The hints in the fields give the same magic register as those of the instruction. */
    lemma SameMagics(i: Inst)
      requires i.Bin? && i.b.Imm? && curMagicVreg == i.magicVreg && curUnsigned == i.unsignedDiv
      ensures Magics(i.b.imm) == C.MagicReg(Fr(), i, i.b.imm)
    {
    }

    method EmitGeneral(i: Inst)
      requires Ready() && i.Bin? && InstIn(i) && dstOverride < 32 && !InstIs(i)
      requires !((i.bop.Div? || i.bop.Mod?) && i.b.Imm? && opt)
      modifies this`out
      ensures out == old(out) + C.BinaryOp(Fr(), i, DstReg(i.dst, T5))
    {
      OperandsIn(i);
      hide C.ToReg, C.RegisterOp, Ready;
      ghost var o := out;
      var x := ToReg(i.a, T5);
      var y := ToReg(i.b, T6);
      EmitRegisterOp(i.bop, DstReg(i.dst, T5), x, y);
      Cat3(o, C.ToReg(Fr(), i.a, T5).1, C.ToReg(Fr(), i.b, T6).1, C.RegisterOp(i.bop, DstReg(i.dst, T5), x, y));
    }

    method EmitBinary(i: Inst)
      requires Ready() && i.Bin? && InstIn(i) && dstOverride < 32 && Divisible(i)
      requires curMagicVreg == -1 && !curUnsigned
      modifies this`out, this`curMagicVreg, this`curUnsigned
      ensures out == old(out) + C.BinaryOp(Fr(), i, DstReg(i.dst, T5)) + C.WriteBack(Fr(), i.dst, DstReg(i.dst, T5), dstOverride)
      ensures curMagicVreg == -1 && !curUnsigned
    {
      hide C.BinaryOp, C.WriteBack;
      var done := EmitBinaryImmediate(i);
      if !done {
        if (i.bop.Div? || i.bop.Mod?) && i.b.Imm? && opt {
          EmitByConstant(i);
        } else {
          EmitGeneral(i);
        }
      }
      WriteBack(i.dst, DstReg(i.dst, T5));
    }

    /** The instructions that put one value into their destination. */
    method EmitValue(i: Inst)
      requires Ready() && InstIn(i) && -1 <= dstOverride < 32 && (i.Mv? || i.LoadGlobal? || i.Un?)
      modifies this`out
      ensures out == old(out) + C.ValueOp(Fr(), i, DstReg(i.dst, T5)) + C.WriteBack(Fr(), i.dst, DstReg(i.dst, T5), dstOverride)
    {
      OperandsIn(i);
      hide C.Materialize, C.ToReg, C.WriteBack, Ready;
      var rd := DstReg(i.dst, T5);
      ghost var o := out;
      match i
      case Mv(d, a) =>
        Materialize(a, rd);
        WriteBack(d, rd);
      case LoadGlobal(d, g) =>
        out := out + [LoadWord(rd, g)];
        WriteBack(d, rd);
      case Un(op, d, a) =>
        var x := ToReg(a, T5);
        out := out + [Move(if op.Neg? then OpNeg else OpSeqz, rd, x)];
        Cat(o, C.ToReg(Fr(), a, T5).1, [Move(if op.Neg? then OpNeg else OpSeqz, rd, x)]);
        WriteBack(d, rd);
    }

    method EmitInst(i: Inst)
      requires Ready() && InstIn(i) && -1 <= dstOverride < 32 && Divisible(i)
      requires curMagicVreg == -1 && !curUnsigned
      modifies this`out, this`curMagicVreg, this`curUnsigned
      ensures out == old(out) + C.EmitInst(Fr(), i, dstOverride)
      ensures curMagicVreg == -1 && !curUnsigned
    {
      OperandsIn(i);
      hide C.BinaryOp, C.ToReg, C.WriteBack, C.Materialize, C.DstReg, C.CallArgs, C.CallResult, Ready;
      ghost var o := out;
      match i
      case StoreGlobal(g, a) =>
        var x := ToReg(a, T5);
        out := out + [StoreWord(x, T6, g)];
        Cat(o, C.ToReg(Fr(), a, T5).1, [StoreWord(x, T6, g)]);
      case Call(_, _, _) => EmitCall(i);
      case Bin(_, _, _, _, _, _) =>
        EmitBinary(i);
        Cat(o, C.BinaryOp(Fr(), i, DstReg(i.dst, T5)), C.WriteBack(Fr(), i.dst, DstReg(i.dst, T5), dstOverride));
      case _ =>
        EmitValue(i);
        Cat(o, C.ValueOp(Fr(), i, DstReg(i.dst, T5)), C.WriteBack(Fr(), i.dst, DstReg(i.dst, T5), dstOverride));
    }

    // ---- blocks ----

    method EmitBranchCmp(op: BinOp, a: Val, b: Val, target: nat, negate: bool)
      requires Ready() && ValIn(a) && ValIn(b)
      modifies this`out
      ensures out == old(out) + C.BranchCmp(Fr(), op, a, b, target, negate)
    {
      hide C.ToReg, Ready;
      ghost var o := out;
      var x := ToReg(a, T5);
      var y := ToReg(b, T6);
      var e := if negate then C.InvertCmp(op) else op;
      out := out + BranchOf(e, x, y, target);
      Cat3(o, C.ToReg(Fr(), a, T5).1, C.ToReg(Fr(), b, T6).1, BranchOf(e, x, y, target));
    }

    method EmitRestores()
      requires Ready()
      modifies this`out
      ensures out == old(out) + C.RestoreCallee(Fr(), 0)
    {
      hide C.LoadOff, C.Align16;
      ghost var before := out;
      for k := 0 to |A.usedCallee|
        invariant out + C.RestoreCallee(Fr(), k) == before + C.RestoreCallee(Fr(), 0)
      {
        Cat(out, C.LoadOff(A.usedCallee[k], calleeBase + k * 4), C.RestoreCallee(Fr(), k + 1));
        LoadOff(A.usedCallee[k], calleeBase + k * 4);
      }
    }

    method EmitEpilogue()
      requires Ready()
      modifies this`out
      ensures out == old(out) + C.Epilogue(Fr())
    {
      hide C.LoadOff, C.Align16, C.RestoreCallee;
      ghost var o := out;
      EmitRestores();
      if !A.isLeaf { LoadOff(RA, raOff); }
      ghost var ra := if A.isLeaf then [] else C.LoadOff(RA, raOff);
      ghost var o1 := out;
      if frameSize > 0 {
        if Fits12(frameSize) {
          out := out + [Addi(SP, SP, frameSize)];
        } else {
          out := out + [Li(T6, Wrap(frameSize)), Arith(OpAdd, SP, SP, T6)];
        }
      }
      ghost var close := out[|o1|..];
      assert out == o1 + close;
      out := out + [RetTo];
      Cat5(o, C.RestoreCallee(Fr(), 0), ra, close, [RetTo], []);
      assert C.RestoreCallee(Fr(), 0) + ra + close + [RetTo] + [] == C.RestoreCallee(Fr(), 0) + ra + close + [RetTo];
      assert o + C.RestoreCallee(Fr(), 0) + ra + close + [RetTo] + [] == out;
    }

    method EmitBranch(t: Term, next: int, fused: Option<Inst>)
      requires Ready() && t.Br? && forall v | v in TermUses(t) :: v < |A.reg|
      requires fused.Some? ==> fused.value.Bin? && InstIn(fused.value)
      modifies this`out
      ensures out == old(out) + C.EmitTerm(Fr(), t, next, fused)
    {
      if fused.Some? { OperandsIn(fused.value); }
      hide C.BranchCmp, C.ToReg, Ready;
      var Br(cond, x, y) := t;
      assert cond.Reg? ==> cond.reg in TermUses(t);
      ghost var o := out;
      if fused.Some? {
        var f := fused.value;
        if y == next {
          EmitBranchCmp(f.bop, f.a, f.b, x, false);
        } else if x == next {
          EmitBranchCmp(f.bop, f.a, f.b, y, true);
        } else {
          EmitBranchCmp(f.bop, f.a, f.b, x, false);
          out := out + [Jump(y)];
          Cat(o, C.BranchCmp(Fr(), f.bop, f.a, f.b, x, false), [Jump(y)]);
        }
      } else {
        var r := ToReg(cond, T5);
        out := out + BranchOnZero(r, x, y, next);
        Cat(o, C.ToReg(Fr(), cond, T5).1, BranchOnZero(r, x, y, next));
      }
    }

    /** `bnez`, `beqz`, or `bnez` and a jump. */
    function BranchOnZero(r: RiscV.Reg, x: nat, y: nat, next: int): seq<Instr> {
      if y == next then [Branch(Nes, r, ZERO, x)]
      else if x == next then [Branch(Eqs, r, ZERO, y)]
      else [Branch(Nes, r, ZERO, x), Jump(y)]
    }

    method EmitTerm(t: Term, next: int, fused: Option<Inst>)
      requires Ready() && dstOverride == -1 && curMagicVreg == -1 && !curUnsigned
      requires forall v | v in TermUses(t) :: v < |A.reg|
      requires fused.Some? ==> InstIn(fused.value) && Divisible(fused.value) && (t.Br? ==> fused.value.Bin?)
      modifies this`out, this`dstOverride, this`curMagicVreg, this`curUnsigned
      ensures out == old(out) + C.EmitTerm(Fr(), t, next, fused)
      ensures dstOverride == -1 && curMagicVreg == -1 && !curUnsigned
    {
      hide C.EmitInst, C.Epilogue, C.Materialize, Ready, C.FusedBranch, C.PlainBranch;
      ghost var o := out;
      match t
      case Jmp(x) =>
        if x != next { out := out + [Jump(x)]; }
      case Br(_, _, _) => EmitBranch(t, next, fused);
      case Ret(v) =>
        if fused.Some? {
          dstOverride := A0;
          EmitInst(fused.value);
          dstOverride := -1;
          Cat(o, C.EmitInst(Fr(), fused.value, A0), C.Epilogue(Fr()));
        } else if v.Some? {
          assert v.value.Reg? ==> v.value.reg in TermUses(t);
          Materialize(v.value, A0);
          Cat(o, C.Materialize(Fr(), v.value, A0), C.Epilogue(Fr()));
        }
        EmitEpilogue();
      case Open => EmitEpilogue();
    }

    /** The block's instructions can all be compiled. */
    predicate BlockIn(b: Block)
      reads this`A
    {
      && (forall k | 0 <= k < |b.insts| :: InstIn(b.insts[k]) && Divisible(b.insts[k]))
      && (forall v | v in TermUses(b.term) :: v < |A.reg|)
    }

    /** The last instruction is left to the terminator. */
    method DetectFusion(f: Func, b: Block) returns (fused: bool)
      requires |useCount| == |A.reg| && BlockIn(b)
      requires forall v | 0 <= v < |useCount| :: useCount[v] == C.UseCount(f.blocks, v)
      ensures fused <==> C.FusesCmp(f, b) || C.FusesRet(f, b)
    {
      hide C.UseCount;
      if b.insts == [] { return false; }
      var last := b.insts[|b.insts| - 1];
      assert InstIn(last);
      if b.term.Br? {
        return last.Bin? && C.IsCmp(last.bop) && last.dst >= 0 && b.term.cond == Reg(last.dst) && useCount[last.dst] == 1;
      } else if b.term.Ret? && b.term.val.Some? {
        return !last.StoreGlobal? && last.dst >= 0 && b.term.val.value == Reg(last.dst) && useCount[last.dst] == 1;
      }
      return false;
    }

    method EmitBlock(f: Func, id: nat, b: Block, next: int)
      requires Ready() && dstOverride == -1 && curMagicVreg == -1 && !curUnsigned
      requires |useCount| == |A.reg| && BlockIn(b)
      requires forall v | 0 <= v < |useCount| :: useCount[v] == C.UseCount(f.blocks, v)
      modifies this`out, this`dstOverride, this`curMagicVreg, this`curUnsigned
      ensures out == old(out) + [Label(id)] + C.EmitBlock(Fr(), f, b, next)
      ensures dstOverride == -1 && curMagicVreg == -1 && !curUnsigned
    {
      hide C.EmitInst, C.EmitTerm, C.FusesCmp, C.FusesRet;
      out := out + [Label(id)];
      var fused := DetectFusion(f, b);
      FusedIsBin(f, b);
      var n := if fused then |b.insts| - 1 else |b.insts|;
      ghost var before := out;
      for k := 0 to n
        invariant out == before + C.EmitInsts(Fr(), b.insts[..k])
        invariant dstOverride == -1 && curMagicVreg == -1 && !curUnsigned
      {
        EmitInst(b.insts[k]);
        EmitInstsSnoc(Fr(), b.insts[..k], b.insts[k]);
        assert b.insts[..k + 1] == b.insts[..k] + [b.insts[k]];
      }
      if fused {
        EmitTerm(b.term, next, Some(b.insts[n]));
      } else {
        assert b.insts[..n] == b.insts;
        EmitTerm(b.term, next, None);
      }
    }

    lemma FusedIsBin(f: Func, b: Block)
      ensures C.FusesCmp(f, b) || C.FusesRet(f, b) ==> b.insts != [] && (b.term.Br? ==> b.insts[|b.insts| - 1].Bin?)
    {
    }

    // ---- functions ----

    /** Frame layout for the current allocation. */
    method SetFrame(f: Func)
      requires RegsOk(A) && forall i | 0 <= i < |A.usedCallee| :: 0 <= A.usedCallee[i] < 32
      modifies this`outArgArea, this`spillBase, this`calleeBase, this`raOff, this`frameSize
      ensures Ready() && Fr() == C.FrameOf(f, A, opt)
    {
      hide C.MostStackArgsIn;
      var n := MaxStackArgs(f);
      outArgArea := n * 4;
      spillBase := outArgArea;
      calleeBase := spillBase + A.numSpills * 4;
      raOff := calleeBase + |A.usedCallee| * 4;
      frameSize := C.Align16(raOff + if A.isLeaf then 0 else 4);
    }

    method EmitPrologue()
      requires Ready()
      modifies this`out
      ensures out == old(out) + C.Prologue(Fr())
    {
      hide C.StoreOff, C.Align16;
      ghost var o := out;
      if frameSize > 0 {
        if Fits12(0 - frameSize as int) {
          out := out + [Addi(SP, SP, 0 - frameSize as int)];
        } else {
          out := out + [Li(T6, Wrap(frameSize)), Arith(OpSub, SP, SP, T6)];
        }
      }
      ghost var open := out[|o|..];
      assert out == o + open;
      if !A.isLeaf { StoreOff(RA, raOff); }
      ghost var ra := if A.isLeaf then [] else C.StoreOff(RA, raOff);
      EmitSaves();
      Cat3(o, open, ra, C.SaveCallee(Fr(), |A.usedCallee|));
    }

    method EmitSaves()
      requires Ready()
      modifies this`out
      ensures out == old(out) + C.SaveCallee(Fr(), |A.usedCallee|)
    {
      hide C.StoreOff, C.Align16;
      ghost var o := out;
      for k := 0 to |A.usedCallee|
        invariant out == o + C.SaveCallee(Fr(), k)
      {
        StoreOff(A.usedCallee[k], calleeBase + k * 4);
        Cat(o, C.SaveCallee(Fr(), k), C.StoreOff(A.usedCallee[k], calleeBase + k * 4));
      }
    }

    /** One incoming parameter into its place. */
    method EmitParam(v: nat, i: nat)
      requires Ready() && v < |A.reg|
      modifies this`out
      ensures out == old(out) + C.ParamMove(Fr(), v, i)
    {
      hide C.LoadOff, C.StoreOff;
      var p := A.reg[v];
      ghost var o := out;
      if i < 8 {
        var src := A0 + i;
        if p >= 0 {
          if p != src { out := out + [Move(OpMv, p, src)]; }
        } else {
          StoreOff(src, SpillOff(v));
        }
      } else {
        var incoming := frameSize + (i - 8) * 4;
        if p >= 0 {
          LoadOff(p, incoming);
        } else {
          LoadOff(T5, incoming);
          StoreOff(T5, SpillOff(v));
          Cat(o, C.LoadOff(T5, incoming), C.StoreOff(T5, SpillOff(v)));
        }
      }
    }

    method EmitParams(params: seq<nat>)
      requires Ready() && forall i | 0 <= i < |params| :: params[i] < |A.reg|
      modifies this`out
      ensures out == old(out) + C.ParamMoves(Fr(), params, |params|)
    {
      hide C.ParamMove, C.Align16;
      ghost var o := out;
      for i := 0 to |params|
        invariant out == o + C.ParamMoves(Fr(), params, i)
      {
        EmitParam(params[i], i);
        Cat(o, C.ParamMoves(Fr(), params, i), C.ParamMove(Fr(), params[i], i));
      }
    }

    /** Every instruction of the function can be compiled. */
    predicate FuncIn(f: Func) {
      forall b, k | 0 <= b < |f.blocks| && 0 <= k < |f.blocks[b].insts| :: Divisible(f.blocks[b].insts[k])
    }

    lemma BlocksIn(f: Func, b: nat)
      requires FuncOk(f) && FuncIn(f) && b < |f.blocks| && |A.reg| == f.numVregs
      ensures BlockIn(f.blocks[b])
    {
      assert BlockOk(f.blocks[b], |f.blocks|, f.numVregs);
    }

    method EmitBlocks(f: Func, order: seq<nat>)
      requires Ready() && dstOverride == -1 && curMagicVreg == -1 && !curUnsigned
      requires FuncOk(f) && FuncIn(f) && |A.reg| == f.numVregs && |useCount| == f.numVregs
      requires forall v | 0 <= v < |useCount| :: useCount[v] == C.UseCount(f.blocks, v)
      requires forall i | 0 <= i < |order| :: order[i] < |f.blocks|
      modifies this`out, this`dstOverride, this`curMagicVreg, this`curUnsigned
      ensures out == old(out) + C.Layout(Fr(), f, order, 0)
      ensures dstOverride == -1 && curMagicVreg == -1 && !curUnsigned
    {
      hide C.EmitBlock, C.UseCount, FuncOk, FuncIn, C.Align16;
      ghost var o := out;
      for k := 0 to |order|
        invariant out + C.Layout(Fr(), f, order, k) == o + C.Layout(Fr(), f, order, 0)
        invariant dstOverride == -1 && curMagicVreg == -1 && !curUnsigned
      {
        var b := order[k];
        BlocksIn(f, b);
        ghost var before, text := out, C.EmitBlock(Fr(), f, f.blocks[b], C.NextOf(order, k));
        Cat3(before, [Label(b)], text, C.Layout(Fr(), f, order, k + 1));
        EmitBlock(f, b, f.blocks[b], C.NextOf(order, k));
      }
    }

    /** `emitFunc`. */
    method EmitFunc(f: Func)
      requires FuncOk(f) && FuncIn(f) && dstOverride == -1 && curMagicVreg == -1 && !curUnsigned
      modifies this
      ensures ValidAllocation(f, A) && Frugal(f, A)
      ensures out == old(out) + C.EmitFunc(f, A, opt)
      ensures dstOverride == -1 && curMagicVreg == -1 && !curUnsigned
    {
      hide ValidAllocation, Frugal, BlockOk, C.Prologue, C.ParamMoves, C.Layout, C.BlockOrder, C.UseCount, C.Reach;
      ghost var o := out;
      A := AllocateRegisters(f);
      ValidRegs(f, A);
      useCount := ComputeUseCounts(f);
      SetFrame(f);
      EmitPrologue();
      EmitParams(f.params);
      var order := BlockOrder(f);
      OrderIn(f);
      EmitBlocks(f, order);
      Cat3(o, C.Prologue(Fr()), C.ParamMoves(Fr(), f.params, |f.params|), C.Layout(Fr(), f, order, 0));
    }

    lemma OrderIn(f: Func)
      requires |f.blocks| > 0
      ensures forall i | 0 <= i < |C.BlockOrder(f)| :: C.BlockOrder(f)[i] < |f.blocks|
    {
      C.OrderInRange(C.Reach(f, [0], {0}), |f.blocks|);
    }

    /** The text of every function, and the allocation behind it. */
    method Run(m: Module) returns (p: Program, alloc: map<string, Allocation>)
      requires dstOverride == -1 && curMagicVreg == -1 && !curUnsigned
      requires forall i | 0 <= i < |m.funcs| :: FuncOk(m.funcs[i]) && FuncIn(m.funcs[i])
      requires forall i, j | 0 <= i < j < |m.funcs| :: m.funcs[i].name != m.funcs[j].name
      modifies this
      ensures forall i | 0 <= i < |m.funcs| :: Emitted(m.funcs[i], p, alloc, opt)
    {
      hide FuncOk, ValidAllocation, Frugal, C.EmitFunc, FuncIn;
      p, alloc := map[], map[];
      for i := 0 to |m.funcs|
        invariant dstOverride == -1 && curMagicVreg == -1 && !curUnsigned
        invariant forall j | 0 <= j < i :: Emitted(m.funcs[j], p, alloc, opt)
      {
        var f := m.funcs[i];
        out := [];
        EmitFunc(f);
        p := p[f.name := out];
        alloc := alloc[f.name := A];
      }
    }
  }

  /** The program holds the function's text for the recorded allocation. */
  ghost predicate Emitted(f: Func, p: Program, alloc: map<string, Allocation>, opt: bool) {
    && f.name in p && f.name in alloc
    && ValidAllocation(f, alloc[f.name]) && Frugal(f, alloc[f.name]) && p[f.name] == C.EmitFunc(f, alloc[f.name], opt)
  }

  lemma {:induction false} EmitInstsSnoc(fr: C.Frame, code: seq<Inst>, i: Inst)
    ensures C.EmitInsts(fr, code + [i]) == C.EmitInsts(fr, code) + C.EmitInst(fr, i, -1)
  {
    hide C.EmitInst;
    if code != [] {
      assert (code + [i])[1..] == code[1..] + [i];
      EmitInstsSnoc(fr, code[1..], i);
    } else {
      assert (code + [i])[1..] == [];
    }
  }
}
