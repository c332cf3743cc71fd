/**
 * The RV32IM instructions the code generator emits, and a machine that runs
 * them.  Memory is a map of aligned words; immediates and offsets that the
 * encoding cannot hold, misaligned accesses and a `ret` to a wrong address stop
 * the machine, so that a run that returns made none of them.
 */
module RiscV {
  import opened Word32
  import Alu
  import opened IR

  type Reg = x: int | 0 <= x < 32

  const ZERO: Reg := 0
  const RA: Reg := 1
  const SP: Reg := 2
  const A0: Reg := 10
  const A6: Reg := 16
  const A7: Reg := 17
  /** Scratch registers that are never allocated: t5 and t6. */
  const T5: Reg := 30
  const T6: Reg := 31

  datatype RegOp = OpAdd | OpSub | OpMul | OpMulh | OpMulhu | OpDiv | OpRem | OpSlt

  datatype MoveOp = OpMv | OpNeg | OpSeqz | OpSnez | OpXori1

  datatype ShiftOp = OpSlli | OpSrli | OpSrai

  datatype Cond = Lts | Ges | Eqs | Nes

  /**
   * `LoadWord` and `StoreWord` stand for the `lui`/`lw` and `lui`/`sw` pairs on
   * a global; the second destroys its address register.
   */
  datatype Instr =
    | Li(rd: Reg, imm: i32)
    | Move(mop: MoveOp, rd: Reg, rs: Reg)
    | Arith(rop: RegOp, rd: Reg, rs: Reg, rs2: Reg)
    | Shift(sop: ShiftOp, rd: Reg, rs: Reg, amount: nat)
    | Addi(rd: Reg, rs: Reg, simm: int)
    | Slti(rd: Reg, rs: Reg, simm: int)
    | Lw(rd: Reg, off: int, base: Reg)
    | Sw(rs: Reg, off: int, base: Reg)
    | LoadWord(rd: Reg, gid: nat)
    | StoreWord(rs: Reg, tmp: Reg, gid: nat)
    | CallTo(name: string)
    | RetTo
    | Label(block: nat)
    | Jump(block: nat)
    | Branch(cond: Cond, rs: Reg, rs2: Reg, block: nat)

  type RegFile = s: seq<i32> | |s| == 32 witness seq(32, _ => 0)

  datatype Machine = Machine(r: RegFile, mem: map<int, i32>, g: seq<i32>)

  predicate Fits12(x: int) { -2048 <= x <= 2047 }

  function Get(r: RegFile, x: Reg): i32 {
    if x == ZERO then 0 else r[x]
  }

  function Set(r: RegFile, x: Reg, v: i32): RegFile {
    r[x := v]
  }

  function Word(mem: map<int, i32>, addr: int): i32 {
    if addr in mem then mem[addr] else 0
  }

  function EvalReg(op: RegOp, x: i32, y: i32): i32 {
    match op
    case OpAdd => Alu.Add(x, y)
    case OpSub => Alu.Sub(x, y)
    case OpMul => Alu.Mul(x, y)
    case OpMulh => Alu.Mulh(x, y)
    case OpMulhu => Alu.Mulhu(x, y)
    case OpDiv => Alu.Div(x, y)
    case OpRem => Alu.Rem(x, y)
    case OpSlt => Alu.Slt(x, y)
  }

  function EvalMove(op: MoveOp, x: i32): i32 {
    match op
    case OpMv => x
    case OpNeg => Alu.Sub(0, x)
    case OpSeqz => Alu.Seqz(x)
    case OpSnez => Alu.Snez(x)
    case OpXori1 => Alu.Xori1(x)
  }

  function EvalShift(op: ShiftOp, x: i32, k: nat): i32 {
    match op
    case OpSlli => Alu.Sll(x, k)
    case OpSrli => Alu.Srl(x, k)
    case OpSrai => Alu.Sra(x, k)
  }

  predicate Holds(c: Cond, x: i32, y: i32) {
    match c
    case Lts => x < y
    case Ges => x >= y
    case Eqs => x == y
    case Nes => x != y
  }

  /** An instruction that just goes on to the next one. */
  predicate Plain(i: Instr) {
    !i.CallTo? && !i.RetTo? && !i.Label? && !i.Jump? && !i.Branch?
  }

  predicate AllPlain(code: seq<Instr>) {
    forall k | 0 <= k < |code| :: Plain(code[k])
  }

  predicate Unlabelled(code: seq<Instr>) {
    forall k | 0 <= k < |code| :: !code[k].Label?
  }

  function Step(i: Instr, m: Machine): Option<Machine>
    requires Plain(i)
  {
    match i
    case Li(rd, n) => Some(m.(r := Set(m.r, rd, n)))
    case Move(op, rd, rs) => Some(m.(r := Set(m.r, rd, EvalMove(op, Get(m.r, rs)))))
    case Arith(op, rd, rs, rs2) => Some(m.(r := Set(m.r, rd, EvalReg(op, Get(m.r, rs), Get(m.r, rs2)))))
    case Shift(op, rd, rs, k) =>
      if k >= 32 then None else Some(m.(r := Set(m.r, rd, EvalShift(op, Get(m.r, rs), k))))
    case Addi(rd, rs, n) =>
      if !Fits12(n) then None else Some(m.(r := Set(m.r, rd, Wrap(Get(m.r, rs) + n))))
    case Slti(rd, rs, n) =>
      if !Fits12(n) then None else Some(m.(r := Set(m.r, rd, Alu.Slt(Get(m.r, rs), n))))
    case Lw(rd, off, base) =>
      var addr := U(Wrap(Get(m.r, base) + off));
      if !Fits12(off) || addr % 4 != 0 then None
      else Some(m.(r := Set(m.r, rd, Word(m.mem, addr))))
    case Sw(rs, off, base) =>
      var addr := U(Wrap(Get(m.r, base) + off));
      if !Fits12(off) || addr % 4 != 0 then None
      else Some(m.(mem := m.mem[addr := Get(m.r, rs)]))
    case LoadWord(rd, g) =>
      if g >= |m.g| then None else Some(m.(r := Set(m.r, rd, m.g[g])))
    case StoreWord(rs, tmp, g) =>
      if g >= |m.g| || tmp == rs then None
      else Some(m.(r := Set(m.r, tmp, 0), g := m.g[g := Get(m.r, rs)]))
  }

  function Steps(code: seq<Instr>, m: Machine): Option<Machine>
    requires AllPlain(code)
  {
    if code == [] then Some(m)
    else
      match Step(code[0], m)
      case None => None
      case Some(m') => Steps(code[1..], m')
  }

  function FindLabel(code: seq<Instr>, b: nat): Option<nat> {
    if code == [] then None
    else if code[0] == Label(b) then Some(0)
    else
      match FindLabel(code[1..], b)
      case None => None
      case Some(k) => Some(k + 1)
  }

  type Program = map<string, seq<Instr>>

  /** The return address that a call at position pc leaves in `ra`. */
  function LinkAt(pc: nat): i32 {
    Wrap(4 * pc + 4)
  }

  /** Runs a function's code from pc until it returns to `link`. */
  function Run(p: Program, code: seq<Instr>, pc: nat, m: Machine, link: i32, fuel: nat): Option<Machine>
    decreases fuel
  {
    if fuel == 0 || pc >= |code| then None
    else
      match code[pc]
      case RetTo => if m.r[RA] == link then Some(m) else None
      case Label(_) => Run(p, code, pc + 1, m, link, fuel - 1)
      case Jump(b) =>
        (match FindLabel(code, b)
         case None => None
         case Some(k) => Run(p, code, k, m, link, fuel - 1))
      case Branch(c, x, y, b) =>
        if Holds(c, Get(m.r, x), Get(m.r, y)) then
          match FindLabel(code, b)
          case None => None
          case Some(k) => Run(p, code, k, m, link, fuel - 1)
        else Run(p, code, pc + 1, m, link, fuel - 1)
      case CallTo(name) =>
        if name !in p then None
        else
          var back := LinkAt(pc);
          (match Run(p, p[name], 0, m.(r := Set(m.r, RA, back)), back, fuel - 1)
           case None => None
           case Some(m') => Run(p, code, pc + 1, m', link, fuel - 1))
      case i =>
        match Step(i, m)
        case None => None
        case Some(m') => Run(p, code, pc + 1, m', link, fuel - 1)
  }

  /** Execution from pc returns, leaving m'. */
  ghost predicate Returns(p: Program, code: seq<Instr>, pc: nat, m: Machine, link: i32, m': Machine) {
    exists fuel: nat :: Run(p, code, pc, m, link, fuel) == Some(m')
  }

  // ---- how executions compose -------------------------------------------------

  lemma {:induction false} RunMonotone(p: Program, code: seq<Instr>, pc: nat, m: Machine, link: i32, k: nat, k': nat)
    requires k <= k' && Run(p, code, pc, m, link, k).Some?
    ensures Run(p, code, pc, m, link, k') == Run(p, code, pc, m, link, k)
    decreases k
  {
    hide Step, Holds, FindLabel, LinkAt, Get, Set;
    match code[pc]
    case RetTo =>
    case Label(_) => RunMonotone(p, code, pc + 1, m, link, k - 1, k' - 1);
    case Jump(b) => RunMonotone(p, code, FindLabel(code, b).value, m, link, k - 1, k' - 1);
    case Branch(c, x, y, b) =>
      if Holds(c, Get(m.r, x), Get(m.r, y)) {
        RunMonotone(p, code, FindLabel(code, b).value, m, link, k - 1, k' - 1);
      } else {
        RunMonotone(p, code, pc + 1, m, link, k - 1, k' - 1);
      }
    case CallTo(name) =>
      var back := LinkAt(pc);
      var m1 := m.(r := Set(m.r, RA, back));
      var m2 := Run(p, p[name], 0, m1, back, k - 1).value;
      RunMonotone(p, p[name], 0, m1, back, k - 1, k' - 1);
      RunMonotone(p, code, pc + 1, m2, link, k - 1, k' - 1);
    case i =>
      RunMonotone(p, code, pc + 1, Step(i, m).value, link, k - 1, k' - 1);
  }

  lemma {:induction false} ReturnsAfterPlain(p: Program, code: seq<Instr>, pc: nat, seg: seq<Instr>,
                                            m: Machine, link: i32, m': Machine)
    requires pc + |seg| <= |code| && code[pc..pc + |seg|] == seg
    requires AllPlain(seg)
    requires Steps(seg, m).Some? && Returns(p, code, pc + |seg|, Steps(seg, m).value, link, m')
    ensures Returns(p, code, pc, m, link, m')
    decreases |seg|
  {
    if seg != [] {
      var i := seg[0];
      assert code[pc] == i;
      assert code[pc + 1..pc + 1 + |seg[1..]|] == seg[1..];
      ReturnsAfterPlain(p, code, pc + 1, seg[1..], Step(i, m).value, link, m');
      var fuel: nat :| Run(p, code, pc + 1, Step(i, m).value, link, fuel) == Some(m');
      assert Run(p, code, pc, m, link, fuel + 1) == Some(m');
    }
  }

  lemma ReturnsAfterLabel(p: Program, code: seq<Instr>, pc: nat, m: Machine, link: i32, m': Machine)
    requires pc < |code| && code[pc].Label? && Returns(p, code, pc + 1, m, link, m')
    ensures Returns(p, code, pc, m, link, m')
  {
    var fuel: nat :| Run(p, code, pc + 1, m, link, fuel) == Some(m');
    assert Run(p, code, pc, m, link, fuel + 1) == Some(m');
  }

  lemma ReturnsAfterJump(p: Program, code: seq<Instr>, pc: nat, m: Machine, link: i32, m': Machine, k: nat)
    requires pc < |code| && code[pc].Jump? && FindLabel(code, code[pc].block) == Some(k)
    requires Returns(p, code, k, m, link, m')
    ensures Returns(p, code, pc, m, link, m')
  {
    var fuel: nat :| Run(p, code, k, m, link, fuel) == Some(m');
    assert Run(p, code, pc, m, link, fuel + 1) == Some(m');
  }

  lemma ReturnsAfterBranch(p: Program, code: seq<Instr>, pc: nat, m: Machine, link: i32, m': Machine, k: nat)
    requires pc < |code| && code[pc].Branch? && FindLabel(code, code[pc].block).Some?
    requires k == if Holds(code[pc].cond, Get(m.r, code[pc].rs), Get(m.r, code[pc].rs2))
                  then FindLabel(code, code[pc].block).value else pc + 1
    requires Returns(p, code, k, m, link, m')
    ensures Returns(p, code, pc, m, link, m')
  {
    var fuel: nat :| Run(p, code, k, m, link, fuel) == Some(m');
    assert Run(p, code, pc, m, link, fuel + 1) == Some(m');
  }

  lemma ReturnsAfterCall(p: Program, code: seq<Instr>, pc: nat, m: Machine, link: i32, m1: Machine, m': Machine)
    requires pc < |code| && code[pc].CallTo? && code[pc].name in p
    requires Returns(p, p[code[pc].name], 0, m.(r := Set(m.r, RA, LinkAt(pc))), LinkAt(pc), m1)
    requires Returns(p, code, pc + 1, m1, link, m')
    ensures Returns(p, code, pc, m, link, m')
  {
    var back := LinkAt(pc);
    var callee := p[code[pc].name];
    var start := m.(r := Set(m.r, RA, back));
    var k1: nat :| Run(p, callee, 0, start, back, k1) == Some(m1);
    var k2: nat :| Run(p, code, pc + 1, m1, link, k2) == Some(m');
    RunMonotone(p, callee, 0, start, back, k1, k1 + k2);
    RunMonotone(p, code, pc + 1, m1, link, k2, k1 + k2);
    assert Run(p, code, pc, m, link, k1 + k2 + 1) == Some(m');
  }

  lemma ReturnsNow(p: Program, code: seq<Instr>, pc: nat, m: Machine, link: i32)
    requires pc < |code| && code[pc] == RetTo && m.r[RA] == link
    ensures Returns(p, code, pc, m, link, m)
  {
    assert Run(p, code, pc, m, link, 1) == Some(m);
  }

  lemma {:induction false} StepsAppend(xs: seq<Instr>, ys: seq<Instr>, m: Machine)
    requires AllPlain(xs)
    requires AllPlain(ys)
    ensures Steps(xs + ys, m) ==
            match Steps(xs, m)
            case None => None
            case Some(m') => Steps(ys, m')
    decreases |xs|
  {
    if xs == [] {
      assert xs + ys == ys;
    } else {
      assert (xs + ys)[1..] == xs[1..] + ys;
      if Step(xs[0], m).Some? {
        StepsAppend(xs[1..], ys, Step(xs[0], m).value);
      }
    }
  }

  // ---- short straight-line sequences --------------------------------------------

  function Then(o: Option<Machine>, i: Instr): Option<Machine>
    requires Plain(i)
  {
    if o.None? then None else Step(i, o.value)
  }

  /** A sequence of plain instructions extended by one more. */
  lemma StepsSnoc(xs: seq<Instr>, i: Instr, m: Machine)
    requires Plain(i) && AllPlain(xs)
    ensures Steps(xs + [i], m) == Then(Steps(xs, m), i)
  {
    StepsAppend(xs, [i], m);
    if Steps(xs, m).Some? {
      var m' := Steps(xs, m).value;
      assert [i][1..] == [];
    }
  }

  lemma Steps1(a: Instr, m: Machine)
    requires Plain(a)
    ensures Steps([a], m) == Step(a, m)
  {
    assert [a][1..] == [];
  }

  lemma Steps2(a: Instr, b: Instr, m: Machine)
    requires Plain(a) && Plain(b)
    ensures Steps([a, b], m) == Then(Step(a, m), b)
  {
    Steps1(a, m);
    StepsSnoc([a], b, m);
    assert [a] + [b] == [a, b];
  }

  /** m' differs from m at most in the registers of S. */
  ghost predicate Only(m: Machine, m': Machine, S: set<int>) {
    && m'.mem == m.mem
    && m'.g == m.g
    && forall x: Reg | x !in S :: m'.r[x] == m.r[x]
  }

  /** The code runs, leaves v in rd and touches nothing outside S. */
  ghost predicate Computes(code: seq<Instr>, m: Machine, rd: Reg, v: i32, S: set<int>) {
    && AllPlain(code)
    && Steps(code, m).Some?
    && Steps(code, m).value.r[rd] == v
    && Only(m, Steps(code, m).value, S)
  }

  lemma ComputesThen(xs: seq<Instr>, ys: seq<Instr>, m: Machine, r1: Reg, v1: i32, rd: Reg, v: i32,
                     S1: set<int>, S2: set<int>)
    requires Computes(xs, m, r1, v1, S1)
    requires Computes(ys, Steps(xs, m).value, rd, v, S2)
    ensures Computes(xs + ys, m, rd, v, S1 + S2)
  {
    StepsAppend(xs, ys, m);
  }
}
