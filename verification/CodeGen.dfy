/** The code the optimizing back end emits for a function. */
module CodeGen {
  import opened Word32
  import opened IR
  import opened RiscV
  import opened RegAlloc
  import opened ConstOps
  import Magic

  /** One function's frame: its allocation, and the room for outgoing arguments. */
  datatype Frame = Frame(A: Allocation, opt: bool, outArgArea: nat) {
    function SpillBase(): nat { outArgArea }

    function CalleeBase(): nat { SpillBase() + 4 * A.numSpills }

    function RaOff(): nat { CalleeBase() + 4 * |A.usedCallee| }

    function Size(): nat { Align16(RaOff() + if A.isLeaf then 0 else 4) }

    function SpillOff(v: nat): int {
      SpillBase() + 4 * if v < |A.spillSlot| then A.spillSlot[v] else 0
    }

    /** The register of v, or -1 when v is spilled. */
    function RegOf(v: nat): int {
      if v < |A.reg| && 0 <= A.reg[v] < 32 then A.reg[v] else -1
    }
  }

  function Align16(x: nat): nat {
    (x + 15) / 16 * 16
  }

  function Max(a: int, b: int): int {
    if a >= b then a else b
  }

  function MostStackArgs(code: seq<Inst>): nat {
    if code == [] then 0
    else Max(if code[0].Call? then |code[0].args| - 8 else 0, MostStackArgs(code[1..]))
  }

  function MostStackArgsIn(bs: seq<Block>): nat {
    if bs == [] then 0 else Max(MostStackArgs(bs[0].insts), MostStackArgsIn(bs[1..]))
  }

  function FrameOf(f: Func, A: Allocation, opt: bool): Frame {
    Frame(A, opt, 4 * MostStackArgsIn(f.blocks))
  }

  // ---- operands -----------------------------------------------------------------

  function Address(off: int): (r: seq<Instr>)
    ensures AllPlain(r)
  {
    [Li(A7, Wrap(off)), Arith(OpAdd, A7, SP, A7)]
  }

  function LoadOff(x: Reg, off: int): (r: seq<Instr>)
    ensures AllPlain(r)
  {
    if Fits12(off) then [Lw(x, off, SP)] else Address(off) + [Lw(x, 0, A7)]
  }

  function StoreOff(x: Reg, off: int): (r: seq<Instr>)
    ensures AllPlain(r)
  {
    if Fits12(off) then [Sw(x, off, SP)] else Address(off) + [Sw(x, 0, A7)]
  }

  /** `toReg`: the register that holds v, and the code that brings it there. */
  function ToReg(fr: Frame, v: Val, scratch: Reg): (r: (Reg, seq<Instr>))
    ensures AllPlain(r.1)
  {
    match v
    case Imm(n) => if n == 0 then (ZERO, []) else (scratch, [Li(scratch, n)])
    case Reg(x) =>
      if fr.RegOf(x) >= 0 then (fr.RegOf(x), []) else (scratch, LoadOff(scratch, fr.SpillOff(x)))
  }

  /** `materialize`: v in register x. */
  function Materialize(fr: Frame, v: Val, x: Reg): (r: seq<Instr>)
    ensures AllPlain(r)
  {
    match v
    case Imm(n) => [Li(x, n)]
    case Reg(y) =>
      if fr.RegOf(y) >= 0 then (if fr.RegOf(y) != x then [Move(OpMv, x, fr.RegOf(y))] else [])
      else LoadOff(x, fr.SpillOff(y))
  }

  // ---- instructions ---------------------------------------------------------------

  /** The compiled comparison or arithmetic of two registers into d. */
  function RegisterOp(op: BinOp, d: Reg, x: Reg, y: Reg): (r: seq<Instr>)
    ensures AllPlain(r)
  {
    match op
    case Add => [Arith(OpAdd, d, x, y)]
    case Sub => [Arith(OpSub, d, x, y)]
    case Mul => [Arith(OpMul, d, x, y)]
    case Div => [Arith(OpDiv, d, x, y)]
    case Mod => [Arith(OpRem, d, x, y)]
    case Lt => [Arith(OpSlt, d, x, y)]
    case Gt => [Arith(OpSlt, d, y, x)]
    case Le => [Arith(OpSlt, d, y, x), Move(OpXori1, d, d)]
    case Ge => [Arith(OpSlt, d, x, y), Move(OpXori1, d, d)]
    case Eq => [Arith(OpSub, d, x, y), Move(OpSeqz, d, d)]
    case Ne => [Arith(OpSub, d, x, y), Move(OpSnez, d, d)]
  }

  /** The register with the magic number of a division by c, and its load. */
  function MagicReg(fr: Frame, i: Inst, c: i32): (r: (Reg, seq<Instr>))
    requires i.Bin?
    ensures AllPlain(r.1)
  {
    if Magic.NeedsMagic(c) then
      if i.magicVreg >= 0 then ToReg(fr, Reg(i.magicVreg), A7)
      else (T6, [Li(T6, if i.unsignedDiv then Wrap(Magic.UnsignedM(U(c))) else Magic.SignedM(c))])
    else (T6, [])
  }

  function BinaryOp(fr: Frame, i: Inst, rd: Reg): (r: seq<Instr>)
    requires i.Bin?
    ensures AllPlain(r)
  {
    var (op, a, b) := (i.bop, i.a, i.b);
    if op.Add? && b.Imm? && Fits12(b.imm) then
      var (x, load) := ToReg(fr, a, T5);
      load + [Addi(rd, x, b.imm)]
    else if op.Add? && a.Imm? && Fits12(a.imm) then
      var (y, load) := ToReg(fr, b, T5);
      load + [Addi(rd, y, a.imm)]
    else if op.Sub? && b.Imm? && Fits12(-(b.imm as int)) then
      var (x, load) := ToReg(fr, a, T5);
      load + [Addi(rd, x, -(b.imm as int))]
    else if op.Lt? && b.Imm? && Fits12(b.imm) then
      var (x, load) := ToReg(fr, a, T5);
      load + [Slti(rd, x, b.imm)]
    else if (op.Eq? || op.Ne?) && b.Imm? && b.imm == 0 then
      var (x, load) := ToReg(fr, a, T5);
      load + [Move(if op.Eq? then OpSeqz else OpSnez, rd, x)]
    else if op.Mul? && (a.Imm? || b.Imm?) then
      var (x, load) := ToReg(fr, if a.Imm? then b else a, T5);
      load + MulConst(rd, x, if a.Imm? then a.imm else b.imm)
    else if op.Div? && b.Imm? && fr.opt then
      var (x, load) := ToReg(fr, a, T5);
      var (mr, mload) := MagicReg(fr, i, b.imm);
      load + DivConst(rd, x, b.imm, i.unsignedDiv, mload, mr)
    else if op.Mod? && b.Imm? && fr.opt then
      var (x, load) := ToReg(fr, a, T5);
      var (mr, mload) := MagicReg(fr, i, b.imm);
      // A constant divisor 0 has no code: the compiler's own search divides by it.
      load + if b.imm == 0 then [] else ModConst(rd, x, b.imm, i.unsignedDiv, mload, mr)
    else
      var (x, loadX) := ToReg(fr, a, T5);
      var (y, loadY) := ToReg(fr, b, T6);
      loadX + loadY + RegisterOp(op, rd, x, y)
  }

  /** The code of an instruction other than a call or a store, with its result in rd. */
  function ValueOp(fr: Frame, i: Inst, rd: Reg): (r: seq<Instr>)
    requires !i.Call? && !i.StoreGlobal?
    ensures AllPlain(r)
  {
    match i
    case Bin(_, _, _, _, _, _) => BinaryOp(fr, i, rd)
    case Un(op, _, a) =>
      var (x, load) := ToReg(fr, a, T5);
      load + [Move(if op.Neg? then OpNeg else OpSeqz, rd, x)]
    case Mv(_, a) => Materialize(fr, a, rd)
    case LoadGlobal(_, g) => [LoadWord(rd, g)]
  }

  /** Where an instruction's result is computed: the override, its register, or t5. */
  function DstReg(fr: Frame, v: int, over: int): Reg {
    if 0 <= over < 32 then over
    else if v >= 0 && fr.RegOf(v) >= 0 then fr.RegOf(v)
    else T5
  }

  function WriteBack(fr: Frame, v: int, x: Reg, over: int): (r: seq<Instr>)
    ensures AllPlain(r)
  {
    if over < 0 && v >= 0 && fr.RegOf(v) < 0 then StoreOff(x, fr.SpillOff(v)) else []
  }

  /** Arguments 9 and up, last first, into the outgoing area. */
  function StackArgs(fr: Frame, args: seq<Val>, n: nat): (r: seq<Instr>)
    requires n <= |args|
    ensures AllPlain(r)
  {
    if n <= 8 then []
    else Materialize(fr, args[n - 1], T5) + StoreOff(T5, 4 * (n - 1 - 8)) + StackArgs(fr, args, n - 1)
  }

  /** The first eight arguments into a0-a7. */
  function RegArgs(fr: Frame, args: seq<Val>, n: nat): (r: seq<Instr>)
    requires n <= |args| && n <= 8
    ensures AllPlain(r)
  {
    if n == 0 then [] else RegArgs(fr, args, n - 1) + Materialize(fr, args[n - 1], A0 + (n - 1))
  }

  function CallArgs(fr: Frame, args: seq<Val>): (r: seq<Instr>)
    ensures AllPlain(r)
  {
    StackArgs(fr, args, |args|) + RegArgs(fr, args, if |args| < 8 then |args| else 8)
  }

  /** A call's result out of a0. */
  function CallResult(fr: Frame, d: int, over: int): (r: seq<Instr>)
    ensures AllPlain(r)
  {
    if d < 0 then []
    else if 0 <= over < 32 then (if over != A0 then [Move(OpMv, over, A0)] else [])
    else if fr.RegOf(d) >= 0 then (if fr.RegOf(d) != A0 then [Move(OpMv, fr.RegOf(d), A0)] else [])
    else StoreOff(A0, fr.SpillOff(d))
  }

  /** `emitInst`; `over` is the register forced on the result, or -1. */
  function EmitInst(fr: Frame, i: Inst, over: int): (r: seq<Instr>)
    ensures Unlabelled(r)
  {
    match i
    case Call(d, callee, args) => CallArgs(fr, args) + [CallTo(callee)] + CallResult(fr, d, over)
    case StoreGlobal(g, a) =>
      var (x, load) := ToReg(fr, a, T5);
      load + [StoreWord(x, T6, g)]
    case _ =>
      var rd := DstReg(fr, i.dst, over);
      ValueOp(fr, i, rd) + WriteBack(fr, i.dst, rd, over)
  }

  function EmitInsts(fr: Frame, code: seq<Inst>): (r: seq<Instr>)
    ensures Unlabelled(r)
  {
    if code == [] then [] else EmitInst(fr, code[0], -1) + EmitInsts(fr, code[1..])
  }

  // ---- control flow -----------------------------------------------------------------

  predicate IsCmp(op: BinOp) {
    op.Lt? || op.Gt? || op.Le? || op.Ge? || op.Eq? || op.Ne?
  }

  function InvertCmp(op: BinOp): BinOp {
    match op
    case Lt => Ge
    case Ge => Lt
    case Gt => Le
    case Le => Gt
    case Eq => Ne
    case Ne => Eq
    case _ => op
  }

  /** `emitBranchCmp`: a branch taken iff the comparison, or its negation, holds. */
  function BranchCmp(fr: Frame, op: BinOp, a: Val, b: Val, target: nat, negate: bool): (r: seq<Instr>)
    ensures Unlabelled(r)
  {
    var (x, loadX) := ToReg(fr, a, T5);
    var (y, loadY) := ToReg(fr, b, T6);
    loadX + loadY +
    match if negate then InvertCmp(op) else op
    case Lt => [Branch(Lts, x, y, target)]
    case Ge => [Branch(Ges, x, y, target)]
    case Gt => [Branch(Lts, y, x, target)]
    case Le => [Branch(Ges, y, x, target)]
    case Eq => [Branch(Eqs, x, y, target)]
    case Ne => [Branch(Nes, x, y, target)]
    case _ => []
  }

  function Epilogue(fr: Frame): (r: seq<Instr>)
    ensures Unlabelled(r)
  {
    RestoreCallee(fr, 0)
    + (if fr.A.isLeaf then [] else LoadOff(RA, fr.RaOff()))
    + (if fr.Size() == 0 then []
       else if Fits12(fr.Size()) then [Addi(SP, SP, fr.Size())]
       else [Li(T6, Wrap(fr.Size())), Arith(OpAdd, SP, SP, T6)])
    + [RetTo]
  }

  function CalleeReg(fr: Frame, i: nat): Reg {
    if i < |fr.A.usedCallee| && 0 <= fr.A.usedCallee[i] < 32 then fr.A.usedCallee[i] else ZERO
  }

  function RestoreCallee(fr: Frame, i: nat): (r: seq<Instr>)
    ensures AllPlain(r)
    decreases |fr.A.usedCallee| - i
  {
    if i >= |fr.A.usedCallee| then []
    else LoadOff(CalleeReg(fr, i), fr.CalleeBase() + 4 * i) + RestoreCallee(fr, i + 1)
  }

  function SaveCallee(fr: Frame, n: nat): (r: seq<Instr>)
    ensures AllPlain(r)
  {
    if n == 0 then []
    else SaveCallee(fr, n - 1) + StoreOff(CalleeReg(fr, n - 1), fr.CalleeBase() + 4 * (n - 1))
  }

  /** The number of operands that read v. */
  function ReadsOfVal(a: Val, v: nat): nat {
    if a == Reg(v) then 1 else 0
  }

  function ReadsOfArgs(args: seq<Val>, v: nat): nat {
    if args == [] then 0 else ReadsOfVal(args[0], v) + ReadsOfArgs(args[1..], v)
  }

  function ReadsOfInst(i: Inst, v: nat): nat {
    match i
    case Bin(_, _, a, b, h, _) => ReadsOfVal(a, v) + ReadsOfVal(b, v) + if h == v then 1 else 0
    case Un(_, _, a) => ReadsOfVal(a, v)
    case Mv(_, a) => ReadsOfVal(a, v)
    case LoadGlobal(_, _) => 0
    case StoreGlobal(_, a) => ReadsOfVal(a, v)
    case Call(_, _, args) => ReadsOfArgs(args, v)
  }

  function ReadsOfCode(code: seq<Inst>, v: nat): nat {
    if code == [] then 0 else ReadsOfInst(code[0], v) + ReadsOfCode(code[1..], v)
  }

  function ReadsOfTerm(t: Term, v: nat): nat {
    match t
    case Br(c, _, _) => ReadsOfVal(c, v)
    case Ret(Some(x)) => ReadsOfVal(x, v)
    case _ => 0
  }

  function ReadsOfBlock(b: Block, v: nat): nat {
    ReadsOfCode(b.insts, v) + ReadsOfTerm(b.term, v)
  }

  /** `useCount_[v]`. */
  function UseCount(bs: seq<Block>, v: nat): nat {
    if bs == [] then 0 else ReadsOfBlock(bs[0], v) + UseCount(bs[1..], v)
  }

  /** The last instruction is a comparison only this block's branch looks at. */
  predicate FusesCmp(f: Func, b: Block) {
    && b.term.Br? && b.insts != [] && b.insts[|b.insts| - 1].Bin?
    && var last := b.insts[|b.insts| - 1];
       IsCmp(last.bop) && last.dst >= 0 && b.term.cond == Reg(last.dst) && UseCount(f.blocks, last.dst) == 1
  }

  /** The last instruction computes a value only this block's return looks at. */
  predicate FusesRet(f: Func, b: Block) {
    && b.term.Ret? && b.term.val.Some? && b.insts != [] && !b.insts[|b.insts| - 1].StoreGlobal?
    && var last := b.insts[|b.insts| - 1];
       last.dst >= 0 && b.term.val.value == Reg(last.dst) && UseCount(f.blocks, last.dst) == 1
  }

  /** A two-way branch when `next` is the block that follows in the layout. */
  function FusedBranch(fr: Frame, cmp: Inst, T: nat, F: nat, next: int): (r: seq<Instr>)
    requires cmp.Bin?
    ensures Unlabelled(r)
  {
    if F == next then BranchCmp(fr, cmp.bop, cmp.a, cmp.b, T, false)
    else if T == next then BranchCmp(fr, cmp.bop, cmp.a, cmp.b, F, true)
    else BranchCmp(fr, cmp.bop, cmp.a, cmp.b, T, false) + [Jump(F)]
  }

  function PlainBranch(fr: Frame, cond: Val, T: nat, F: nat, next: int): (r: seq<Instr>)
    ensures Unlabelled(r)
  {
    var (x, load) := ToReg(fr, cond, T5);
    load +
    if F == next then [Branch(Nes, x, ZERO, T)]
    else if T == next then [Branch(Eqs, x, ZERO, F)]
    else [Branch(Nes, x, ZERO, T), Jump(F)]
  }

  /** The end of a block, `last` being the fused instruction if there is one. */
  function EmitTerm(fr: Frame, t: Term, next: int, fused: Option<Inst>): (r: seq<Instr>)
    requires fused.Some? && t.Br? ==> fused.value.Bin?
    ensures Unlabelled(r)
  {
    match t
    case Jmp(x) => if x != next then [Jump(x)] else []
    case Br(c, x, y) =>
      if fused.Some? then FusedBranch(fr, fused.value, x, y, next) else PlainBranch(fr, c, x, y, next)
    case Ret(v) =>
      (if fused.Some? then EmitInst(fr, fused.value, A0)
       else if v.Some? then Materialize(fr, v.value, A0)
       else [])
      + Epilogue(fr)
    case Open => Epilogue(fr)
  }

  function EmitBlock(fr: Frame, f: Func, b: Block, next: int): (r: seq<Instr>)
    ensures Unlabelled(r)
  {
    if FusesCmp(f, b) || FusesRet(f, b) then
      var n := |b.insts| - 1;
      EmitInsts(fr, b.insts[..n]) + EmitTerm(fr, b.term, next, Some(b.insts[n]))
    else
      EmitInsts(fr, b.insts) + EmitTerm(fr, b.term, next, None)
  }

  // ---- functions ------------------------------------------------------------------------

  /** Blocks reachable through the stack of pending ones, by depth-first search. */
  function Reach(f: Func, stack: seq<nat>, seen: set<nat>): set<nat>
    requires forall b | b in seen :: b < |f.blocks|
    decreases AllVregs(|f.blocks|) - seen, |stack|
  {
    if stack == [] then seen
    else
      var b, rest := stack[|stack| - 1], stack[..|stack| - 1];
      if b >= |f.blocks| then Reach(f, rest, seen)
      else
        var more := Fresh(Succs(f.blocks[b].term), |f.blocks|, seen);
        assert forall x | x in more :: x in AllVregs(|f.blocks|) && x !in seen;
        if more == [] then Reach(f, rest, seen)
        else
          assert more[0] in AllVregs(|f.blocks|) - seen;
          assert more[0] !in AllVregs(|f.blocks|) - (seen + Elements(more)) by { assert more[0] in Elements(more); }
          Reach(f, rest + more, seen + Elements(more))
  }

  /** The successors to push: in range, unseen, each once. */
  function Fresh(succs: seq<nat>, n: nat, seen: set<nat>): (r: seq<nat>)
    ensures forall x | x in r :: x < n && x !in seen && x in succs
    ensures forall x | x in succs && x < n && x !in seen :: x in r
  {
    if succs == [] then []
    else if succs[0] < n && succs[0] !in seen then [succs[0]] + Fresh(succs[1..], n, seen + {succs[0]})
    else Fresh(succs[1..], n, seen)
  }

  /** Block numbers below n in a set, in increasing order. */
  function Order(reach: set<nat>, n: nat): seq<nat> {
    if n == 0 then []
    else Order(reach, n - 1) + if n - 1 in reach then [n - 1] else []
  }

  function BlockOrder(f: Func): seq<nat> {
    if f.blocks == [] then [] else Order(Reach(f, [0], {0}), |f.blocks|)
  }

  /** The block laid out after the k-th, or -1. */
  function NextOf(order: seq<nat>, k: nat): int {
    if k + 1 < |order| then order[k + 1] else -1
  }

  /** The blocks of `order` from the k-th on, laid out one after the other. */
  function Layout(fr: Frame, f: Func, order: seq<nat>, k: nat): seq<Instr>
    requires forall i | 0 <= i < |order| :: order[i] < |f.blocks|
    decreases |order| - k
  {
    if k >= |order| then []
    else
      [Label(order[k])] + EmitBlock(fr, f, f.blocks[order[k]], NextOf(order, k)) + Layout(fr, f, order, k + 1)
  }

  function Prologue(fr: Frame): (r: seq<Instr>)
    ensures AllPlain(r)
  {
    (if fr.Size() == 0 then []
     else if Fits12(0 - fr.Size() as int) then [Addi(SP, SP, 0 - fr.Size() as int)]
     else [Li(T6, Wrap(fr.Size())), Arith(OpSub, SP, SP, T6)])
    + (if fr.A.isLeaf then [] else StoreOff(RA, fr.RaOff()))
    + SaveCallee(fr, |fr.A.usedCallee|)
  }

  /** The i-th incoming parameter into its place. */
  function ParamMove(fr: Frame, v: nat, i: nat): (r: seq<Instr>)
    ensures AllPlain(r)
  {
    if i < 8 then
      if fr.RegOf(v) >= 0 then
        if fr.RegOf(v) != A0 + i then [Move(OpMv, fr.RegOf(v), A0 + i)] else []
      else StoreOff(A0 + i, fr.SpillOff(v))
    else
      var incoming := fr.Size() + 4 * (i - 8);
      if fr.RegOf(v) >= 0 then LoadOff(fr.RegOf(v), incoming)
      else LoadOff(T5, incoming) + StoreOff(T5, fr.SpillOff(v))
  }

  function ParamMoves(fr: Frame, params: seq<nat>, n: nat): (r: seq<Instr>)
    requires n <= |params|
    ensures AllPlain(r)
  {
    if n == 0 then [] else ParamMoves(fr, params, n - 1) + ParamMove(fr, params[n - 1], n - 1)
  }

  lemma OrderInRange(reach: set<nat>, n: nat)
    ensures forall i | 0 <= i < |Order(reach, n)| :: Order(reach, n)[i] < n && Order(reach, n)[i] in reach
    ensures forall i, j | 0 <= i < j < |Order(reach, n)| :: Order(reach, n)[i] < Order(reach, n)[j]
    ensures forall b | b in reach && b < n :: b in Order(reach, n)
  {
  }

  /** The whole text of a function. */
  function EmitFunc(f: Func, A: Allocation, opt: bool): seq<Instr> {
    var fr := FrameOf(f, A, opt);
    OrderInRange(Reach(f, [0], {}), |f.blocks|);
    Prologue(fr) + ParamMoves(fr, f.params, |f.params|)
    + if f.blocks == [] then []
      else
        OrderInRange(Reach(f, [0], {0}), |f.blocks|);
        Layout(fr, f, BlockOrder(f), 0)
  }
}
