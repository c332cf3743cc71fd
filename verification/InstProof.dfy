/** The code of one instruction does what the instruction means. */
module InstProof {
  import opened Word32
  import opened IR
  import opened RiscV
  import opened RegAlloc
  import opened ConstOps
  import opened CodeGen
  import Alu
  import Magic

  /** The current content of v's place. */
  function Place(fr: Frame, m: Machine, v: nat): i32 {
    if fr.RegOf(v) >= 0 then m.r[fr.RegOf(v)] else Word(m.mem, U(m.r[SP]) + fr.SpillOff(v))
  }

  /** Word accesses at sp + off stay inside the address space. */
  predicate Reachable(m: Machine, off: int) {
    off % 4 == 0 && 0 <= off < TWO31 && U(m.r[SP]) % 4 == 0 && U(m.r[SP]) + off < TWO32
  }

  /** A frame whose spill slots the machine can address. */
  ghost predicate FrameAt(fr: Frame, m: Machine) {
    && fr.outArgArea % 4 == 0
    && fr.Size() < TWO31
    && U(m.r[SP]) % 16 == 0
    && U(m.r[SP]) + fr.Size() <= TWO32
  }

  lemma SlotReachable(fr: Frame, m: Machine, v: nat)
    requires FrameAt(fr, m) && Placed(fr.A, v) && fr.RegOf(v) < 0
    ensures Reachable(m, fr.SpillOff(v))
    ensures fr.SpillBase() <= fr.SpillOff(v) && fr.SpillOff(v) + 4 <= fr.CalleeBase() <= fr.Size()
  {
    hide Align16, U;
    FrameSizes(fr);
    AlignedWord(fr.outArgArea, fr.A.spillSlot[v], U(m.r[SP]));
  }

  lemma AlignedWord(base: int, k: int, sp: int)
    ensures base % 4 == 0 ==> (base + 4 * k) % 4 == 0
    ensures sp % 16 == 0 ==> sp % 4 == 0
  {
  }

  lemma FrameSizes(fr: Frame)
    ensures fr.SpillBase() <= fr.CalleeBase() <= fr.RaOff() <= fr.Size()
    ensures !fr.A.isLeaf ==> fr.RaOff() + 4 <= fr.Size()
    ensures fr.Size() % 16 == 0
  {
  }

  lemma AddressWord(x: i32, off: int)
    requires 0 <= U(x) + off < TWO32
    ensures U(Wrap(x + off)) == U(x) + off
  {
  }

  lemma AddressRuns(off: int, m: Machine)
    requires Reachable(m, off)
    ensures Computes(Address(off), m, A7, Wrap(m.r[SP] + off), {A7})
    ensures U(Wrap(m.r[SP] + off)) == U(m.r[SP]) + off
  {
    Steps2(Li(A7, Wrap(off)), Arith(OpAdd, A7, SP, A7), m);
    AddressWord(m.r[SP], off);
  }

  lemma LoadOffRuns(x: Reg, off: int, m: Machine)
    requires Reachable(m, off) && x != ZERO
    ensures Computes(LoadOff(x, off), m, x, Word(m.mem, U(m.r[SP]) + off), {x, A7})
  {
    hide Wrap, U;
    AddressWord(m.r[SP], off);
    if Fits12(off) {
      Steps1(Lw(x, off, SP), m);
    } else {
      AddressRuns(off, m);
      Snoc(Address(off), Lw(x, 0, A7), m, A7, Wrap(m.r[SP] + off), x, Word(m.mem, U(m.r[SP]) + off), {x, A7});
    }
  }

  /** The code stores v at the address, and touches only a7 besides. */
  ghost predicate Stores(code: seq<Instr>, m: Machine, addr: int, v: i32) {
    && AllPlain(code) && Steps(code, m).Some?
    && var m' := Steps(code, m).value;
       && m'.mem == m.mem[addr := v]
       && m'.g == m.g
       && forall y: Reg | y != A7 :: m'.r[y] == m.r[y]
  }

  lemma StoreOffRuns(x: Reg, off: int, m: Machine)
    requires Reachable(m, off) && x != ZERO && (x == A7 ==> Fits12(off))
    ensures Stores(StoreOff(x, off), m, U(m.r[SP]) + off, m.r[x])
  {
    hide Wrap, U;
    AddressWord(m.r[SP], off);
    if Fits12(off) {
      Steps1(Sw(x, off, SP), m);
    } else {
      AddressRuns(off, m);
      StepsSnoc(Address(off), Sw(x, 0, A7), m);
    }
  }

  /** The place of every register the operand may name holds its value. */
  ghost predicate Shows(fr: Frame, m: Machine, v: Val, n: i32) {
    match v
    case Imm(k) => k == n
    case Reg(x) => Placed(fr.A, x) && Place(fr, m, x) == n
  }

  /** Registers that may hold an operand: allocatable ones, zero, and the scratch. */
  predicate IsSource(x: Reg, scratch: Reg) {
    x == ZERO || IsPool(x) || x == scratch
  }

  lemma PlacedReg(fr: Frame, v: nat)
    requires Placed(fr.A, v)
    ensures fr.RegOf(v) >= 0 <==> IsPool(fr.A.reg[v])
    ensures fr.RegOf(v) >= 0 ==> fr.RegOf(v) == fr.A.reg[v]
  {
  }

  lemma ToRegRuns(fr: Frame, v: Val, scratch: Reg, m: Machine, n: i32)
    requires FrameAt(fr, m) && Shows(fr, m, v, n) && scratch != ZERO && scratch != SP
    ensures var (x, load) := ToReg(fr, v, scratch);
            && IsSource(x, scratch)
            && Steps(load, m).Some?
            && Get(Steps(load, m).value.r, x) == n
            && Only(m, Steps(load, m).value, {scratch, A7})
            && (v.Reg? ==> Computes(load, m, x, n, {scratch, A7}) && x != ZERO)
  {
    match v
    case Imm(k) =>
      if k != 0 { Steps1(Li(scratch, k), m); }
    case Reg(y) =>
      PlacedReg(fr, y);
      if fr.RegOf(y) < 0 {
        SlotReachable(fr, m, y);
        LoadOffRuns(scratch, fr.SpillOff(y), m);
      }
  }

  lemma MaterializeRuns(fr: Frame, v: Val, x: Reg, m: Machine, n: i32)
    requires FrameAt(fr, m) && Shows(fr, m, v, n) && x != ZERO && x != SP
    ensures Computes(Materialize(fr, v, x), m, x, n, {x, A7})
  {
    match v
    case Imm(k) => Steps1(Li(x, k), m);
    case Reg(y) =>
      PlacedReg(fr, y);
      if fr.RegOf(y) < 0 {
        SlotReachable(fr, m, y);
        LoadOffRuns(x, fr.SpillOff(y), m);
      } else if fr.RegOf(y) != x {
        Steps1(Move(OpMv, x, fr.RegOf(y)), m);
      }
  }

  /** Loading into scratch registers leaves every place as it was. */
  lemma PlacesSurvive(fr: Frame, m: Machine, m': Machine, S: set<int>)
    requires Only(m, m', S) && forall x | x in S :: !IsPool(x) && x != SP
    ensures forall v | Placed(fr.A, v) :: Place(fr, m', v) == Place(fr, m, v)
    ensures FrameAt(fr, m) ==> FrameAt(fr, m')
  {
  }

  lemma ShowsSurvives(fr: Frame, m: Machine, m': Machine, S: set<int>, v: Val, n: i32)
    requires Only(m, m', S) && (forall x | x in S :: !IsPool(x) && x != SP) && Shows(fr, m, v, n)
    ensures Shows(fr, m', v, n)
  {
  }

  // ---- results ------------------------------------------------------------------------

  const SCRATCH: set<int> := {T5 as int, T6 as int, A6 as int, A7 as int}

  /** A register that results are computed in. */
  predicate IsTarget(x: Reg) {
    IsPool(x) || x == T5 || x == A0
  }

  lemma RegisterOpRuns(op: BinOp, d: Reg, x: Reg, y: Reg, m: Machine)
    requires d != ZERO && EvalBin(op, Get(m.r, x), Get(m.r, y)).Some?
    ensures Computes(RegisterOp(op, d, x, y), m, d, EvalBin(op, Get(m.r, x), Get(m.r, y)).value, {d})
  {
    hide TDiv, TMod;
    var a, b := Get(m.r, x), Get(m.r, y);
    if (op.Div? || op.Mod?) && b != 0 { Alu.DivRemRange(a, b); }
    match op
    case Le => Steps2(Arith(OpSlt, d, y, x), Move(OpXori1, d, d), m);
    case Ge => Steps2(Arith(OpSlt, d, x, y), Move(OpXori1, d, d), m);
    case Eq => Steps2(Arith(OpSub, d, x, y), Move(OpSeqz, d, d), m); SubZero(a, b);
    case Ne => Steps2(Arith(OpSub, d, x, y), Move(OpSnez, d, d), m); SubZero(a, b);
    case _ => Steps1(RegisterOp(op, d, x, y)[0], m);
  }

  lemma SubZero(a: i32, b: i32)
    ensures Alu.Sub(a, b) == 0 <==> a == b
  {
  }

  /** An operand load followed by one instruction. */
  lemma LoadThen(load: seq<Instr>, i: Instr, m: Machine, rd: Reg, v: i32, S: set<int>)
    requires AllPlain(load) && Plain(i) && Steps(load, m).Some? && Only(m, Steps(load, m).value, {T5, A7})
    requires Step(i, Steps(load, m).value).Some?
    requires Step(i, Steps(load, m).value).value.r[rd] == v
    requires Only(Steps(load, m).value, Step(i, Steps(load, m).value).value, {rd})
    requires S == {rd} + SCRATCH
    ensures Computes(load + [i], m, rd, v, S)
  {
    StepsSnoc(load, i, m);
  }

  lemma LoadThenCode(load: seq<Instr>, code: seq<Instr>, m: Machine, rd: Reg, v: i32, S: set<int>)
    requires AllPlain(load) && Steps(load, m).Some? && Only(m, Steps(load, m).value, SCRATCH)
    requires Computes(code, Steps(load, m).value, rd, v, S)
    requires S <= {rd} + SCRATCH
    ensures Computes(load + code, m, rd, v, {rd} + SCRATCH)
  {
    StepsAppend(load, code, m);
  }

  /** The cases of `emitBinary` that an immediate decides. */
  predicate FastPath(fr: Frame, i: Inst)
    requires i.Bin?
  {
    || (i.bop.Add? && i.b.Imm? && Fits12(i.b.imm))
    || (i.bop.Add? && i.a.Imm? && Fits12(i.a.imm))
    || (i.bop.Sub? && i.b.Imm? && Fits12(-(i.b.imm as int)))
    || (i.bop.Lt? && i.b.Imm? && Fits12(i.b.imm))
    || ((i.bop.Eq? || i.bop.Ne?) && i.b.Imm? && i.b.imm == 0)
    || (i.bop.Mul? && (i.a.Imm? || i.b.Imm?))
    || ((i.bop.Div? || i.bop.Mod?) && i.b.Imm? && fr.opt)
  }

  /** An operand plus a short immediate. */
  lemma AddiRuns(fr: Frame, v: Val, n: int, rd: Reg, m: Machine, x: i32)
    requires FrameAt(fr, m) && IsTarget(rd) && Shows(fr, m, v, x) && Fits12(n)
    ensures var (z, load) := ToReg(fr, v, T5);
            Computes(load + [Addi(rd, z, n)], m, rd, Wrap(x + n), {rd} + SCRATCH)
  {
    ToRegRuns(fr, v, T5, m, x);
    hide ToReg, FrameAt;
    var (z, load) := ToReg(fr, v, T5);
    LoadThen(load, Addi(rd, z, n), m, rd, Wrap(x + n), {rd as int} + SCRATCH);
  }

  lemma AddImmediateRuns(fr: Frame, i: Inst, rd: Reg, m: Machine, x: i32, y: i32)
    requires i.Bin? && FrameAt(fr, m) && IsTarget(rd)
    requires Shows(fr, m, i.a, x) && Shows(fr, m, i.b, y)
    requires FastPath(fr, i) && (i.bop.Add? || i.bop.Sub?)
    ensures Computes(BinaryOp(fr, i, rd), m, rd, EvalBin(i.bop, x, y).value, {rd} + SCRATCH)
  {
    hide MulConst, DivConst, ModConst, RegisterOp, MagicReg, ToReg, FrameAt, Computes;
    var (op, a, b) := (i.bop, i.a, i.b);
    if op.Add? && !(b.Imm? && Fits12(b.imm)) {
      AddiRuns(fr, b, a.imm, rd, m, y);
    } else {
      AddiRuns(fr, a, if op.Add? then b.imm else -(b.imm as int), rd, m, x);
    }
  }

  lemma CompareImmediateRuns(fr: Frame, i: Inst, rd: Reg, m: Machine, x: i32, y: i32)
    requires i.Bin? && FrameAt(fr, m) && IsTarget(rd)
    requires Shows(fr, m, i.a, x) && Shows(fr, m, i.b, y)
    requires FastPath(fr, i) && (i.bop.Lt? || i.bop.Eq? || i.bop.Ne?)
    ensures Computes(BinaryOp(fr, i, rd), m, rd, EvalBin(i.bop, x, y).value, {rd} + SCRATCH)
  {
    hide MulConst, DivConst, ModConst, RegisterOp, MagicReg, ToReg, Wrap;
    var (op, a, b) := (i.bop, i.a, i.b);
    var S := {rd as int} + SCRATCH;
    ToRegRuns(fr, a, T5, m, x);
    var (z, load) := ToReg(fr, a, T5);
    if op.Lt? {
      LoadThen(load, Slti(rd, z, b.imm), m, rd, Bit(x < y), S);
    } else {
      LoadThen(load, Move(if op.Eq? then OpSeqz else OpSnez, rd, z), m, rd,
               if op.Eq? then Bit(x == y) else Bit(x != y), S);
    }
  }

  lemma MulImmediateRuns(fr: Frame, i: Inst, rd: Reg, m: Machine, x: i32, y: i32)
    requires i.Bin? && FrameAt(fr, m) && IsTarget(rd)
    requires Shows(fr, m, i.a, x) && Shows(fr, m, i.b, y)
    requires FastPath(fr, i) && i.bop.Mul?
    ensures Computes(BinaryOp(fr, i, rd), m, rd, Wrap(x * y), {rd} + SCRATCH)
  {
    hide MulConst;
    var v, n, c := if i.a.Imm? then i.b else i.a, if i.a.Imm? then y else x, if i.a.Imm? then i.a.imm else i.b.imm;
    ToRegRuns(fr, v, T5, m, n);
    var (z, load) := ToReg(fr, v, T5);
    MulConstCorrect(rd, z, c, Steps(load, m).value);
    assert n * c == x * y;
    LoadThenCode(load, MulConst(rd, z, c), m, rd, Wrap(x * y), {rd, T6});
  }

  lemma MagicRegRuns(fr: Frame, i: Inst, c: i32, m: Machine)
    requires i.Bin? && FrameAt(fr, m) && c != 0
    requires Magic.NeedsMagic(c) ==> (i.unsignedDiv ==> c > 0)
    requires Magic.NeedsMagic(c) && i.magicVreg >= 0 ==> Shows(fr, m, Reg(i.magicVreg), MagicFor(c, i.unsignedDiv))
    ensures var (mr, mload) := MagicReg(fr, i, c);
            LoadsMagic(mload, mr, c, i.unsignedDiv, m)
  {
    if c > 0 { assert U(c) == c; }
    assert Magic.NeedsMagic(c) ==> (MagicFor(c, i.unsignedDiv) == if i.unsignedDiv then Wrap(Magic.UnsignedM(U(c))) else Magic.SignedM(c));
    hide Magic.NeedsMagic, MagicFor, Magic.UnsignedM, Magic.SignedM, U, Wrap;
    if Magic.NeedsMagic(c) {
      if i.magicVreg >= 0 {
        ToRegRuns(fr, Reg(i.magicVreg), A7, m, MagicFor(c, i.unsignedDiv));
        var (mr, mload) := ToReg(fr, Reg(i.magicVreg), A7);
        assert Computes(mload, m, mr, MagicFor(c, i.unsignedDiv), {A7, A7});
      } else {
        Steps1(Li(T6, MagicFor(c, i.unsignedDiv)), m);
      }
    }
  }

  lemma DivImmediateRuns(fr: Frame, i: Inst, rd: Reg, m: Machine, x: i32, y: i32)
    requires i.Bin? && FrameAt(fr, m) && IsTarget(rd)
    requires Shows(fr, m, i.a, x) && Shows(fr, m, i.b, y) && y != 0
    requires (i.bop.Div? || i.bop.Mod?) && i.b.Imm? && fr.opt
    requires HintsTrue(x, y, i.unsignedDiv)
    requires Magic.NeedsMagic(y) && i.magicVreg >= 0 ==>
               (i.unsignedDiv ==> y > 0) && Shows(fr, m, Reg(i.magicVreg), MagicFor(y, i.unsignedDiv))
    ensures Computes(BinaryOp(fr, i, rd), m, rd, EvalBin(i.bop, x, y).value, {rd} + SCRATCH)
  {
    hide Magic.NeedsMagic, MagicFor, DivConst, ModConst, TDiv, TMod, Magic.UnsignedExact, MagicReg;
    ToRegRuns(fr, i.a, T5, m, x);
    var (z, load) := ToReg(fr, i.a, T5);
    var m1 := Steps(load, m).value;
    PlacesSurvive(fr, m, m1, {T5, A7});
    if Magic.NeedsMagic(y) && i.magicVreg >= 0 {
      ShowsSurvives(fr, m, m1, {T5, A7}, Reg(i.magicVreg), MagicFor(y, i.unsignedDiv));
    }
    MagicRegRuns(fr, i, y, m1);
    var (mr, mload) := MagicReg(fr, i, y);
    if i.bop.Div? {
      DivConstCorrect(rd, z, y, i.unsignedDiv, mload, mr, m1);
      LoadThenCode(load, DivConst(rd, z, y, i.unsignedDiv, mload, mr), m, rd, Wrap(TDiv(x, y)), {rd, T6, A7});
    } else {
      ModConstCorrect(rd, z, y, i.unsignedDiv, mload, mr, m1);
      LoadThenCode(load, ModConst(rd, z, y, i.unsignedDiv, mload, mr), m, rd, Wrap(TMod(x, y)), {rd, A6, A7, T6});
    }
  }

  lemma GeneralBinaryRuns(fr: Frame, i: Inst, rd: Reg, m: Machine, x: i32, y: i32)
    requires i.Bin? && FrameAt(fr, m) && IsTarget(rd)
    requires Shows(fr, m, i.a, x) && Shows(fr, m, i.b, y)
    requires !FastPath(fr, i) && EvalBin(i.bop, x, y).Some?
    ensures Computes(BinaryOp(fr, i, rd), m, rd, EvalBin(i.bop, x, y).value, {rd} + SCRATCH)
  {
    hide RegisterOp, EvalBin;
    ToRegRuns(fr, i.a, T5, m, x);
    var (p, loadX) := ToReg(fr, i.a, T5);
    var m1 := Steps(loadX, m).value;
    PlacesSurvive(fr, m, m1, {T5, A7});
    ShowsSurvives(fr, m, m1, {T5, A7}, i.b, y);
    ToRegRuns(fr, i.b, T6, m1, y);
    var (q, loadY) := ToReg(fr, i.b, T6);
    var m2 := Steps(loadY, m1).value;
    StepsAppend(loadX, loadY, m);
    assert Get(m2.r, p) == x;
    RegisterOpRuns(i.bop, rd, p, q, m2);
    LoadThenCode(loadX + loadY, RegisterOp(i.bop, rd, p, q), m, rd, EvalBin(i.bop, x, y).value, {rd});
  }

  /** Every register an operand may read shows the value the IR has for it. */
  ghost predicate Matches(fr: Frame, m: Machine, regs: Regs, live: set<nat>) {
    forall v | v in live && v in regs :: Placed(fr.A, v) && Place(fr, m, v) == regs[v]
  }

  lemma OperandShows(fr: Frame, m: Machine, regs: Regs, live: set<nat>, v: Val)
    requires Matches(fr, m, regs, live) && ValUses(v) <= live && Read(v, regs).Some?
    ensures Shows(fr, m, v, Read(v, regs).value)
  {
  }

  lemma BinaryRuns(fr: Frame, i: Inst, rd: Reg, m: Machine, s: State)
    requires i.Bin? && FrameAt(fr, m) && IsTarget(rd)
    requires Matches(fr, m, s.regs, Uses(i)) && ExecPlain(i, s).Done?
    ensures var (x, y) := (Read(i.a, s.regs).value, Read(i.b, s.regs).value);
            Computes(BinaryOp(fr, i, rd), m, rd, EvalBin(i.bop, x, y).value, {rd} + SCRATCH)
  {
    hide BinaryOp, Magic.NeedsMagic, MagicFor, TDiv, TMod, Magic.UnsignedExact;
    var (x, y) := (Read(i.a, s.regs).value, Read(i.b, s.regs).value);
    OperandShows(fr, m, s.regs, Uses(i), i.a);
    OperandShows(fr, m, s.regs, Uses(i), i.b);
    if FastPath(fr, i) {
      if i.bop.Mul? {
        MulImmediateRuns(fr, i, rd, m, x, y);
      } else if i.bop.Div? || i.bop.Mod? {
        if Magic.NeedsMagic(y) && i.magicVreg >= 0 {
          OperandShows(fr, m, s.regs, Uses(i), Reg(i.magicVreg));
        }
        DivImmediateRuns(fr, i, rd, m, x, y);
      } else if i.bop.Add? || i.bop.Sub? {
        AddImmediateRuns(fr, i, rd, m, x, y);
      } else {
        CompareImmediateRuns(fr, i, rd, m, x, y);
      }
    } else {
      GeneralBinaryRuns(fr, i, rd, m, x, y);
    }
  }

  /** The code of a value-producing instruction leaves its IR result in rd. */
  lemma ValueOpRuns(fr: Frame, i: Inst, rd: Reg, m: Machine, s: State)
    requires !i.Call? && !i.StoreGlobal? && i.dst >= 0 && FrameAt(fr, m) && IsTarget(rd)
    requires Matches(fr, m, s.regs, Uses(i)) && ExecPlain(i, s).Done? && m.g == s.globals
    ensures Computes(ValueOp(fr, i, rd), m, rd, ExecPlain(i, s).value.regs[i.dst], {rd} + SCRATCH)
  {
    hide BinaryOp;
    match i
    case Bin(_, _, _, _, _, _) =>
      BinaryRuns(fr, i, rd, m, s);
    case Un(op, _, a) =>
      var x := Read(a, s.regs).value;
      OperandShows(fr, m, s.regs, Uses(i), a);
      ToRegRuns(fr, a, T5, m, x);
      var (z, load) := ToReg(fr, a, T5);
      LoadThen(load, Move(if op.Neg? then OpNeg else OpSeqz, rd, z), m, rd, EvalUn(op, x), {rd} + SCRATCH);
    case Mv(_, a) =>
      OperandShows(fr, m, s.regs, Uses(i), a);
      MaterializeRuns(fr, a, rd, m, Read(a, s.regs).value);
    case LoadGlobal(_, g) =>
      Steps1(LoadWord(rd, g), m);
  }

  // ---- a whole instruction ---------------------------------------------------------------

  /** The word address of v's slot, or -1 when v is in a register. */
  function SlotOf(fr: Frame, m: Machine, v: int): int {
    if v >= 0 && fr.RegOf(v) < 0 then U(m.r[SP]) + fr.SpillOff(v) else -1
  }

  function RegOfDst(fr: Frame, d: int): int {
    if d >= 0 then fr.RegOf(d) else -1
  }

  /** Only d's place and scratch registers differ. */
  ghost predicate OnlyPlace(fr: Frame, m: Machine, m': Machine, d: int, S: set<int>) {
    && (forall x: Reg | x !in S && x != RegOfDst(fr, d) :: m'.r[x] == m.r[x])
    && (forall addr | addr != SlotOf(fr, m, d) :: Word(m'.mem, addr) == Word(m.mem, addr))
  }

  /** An instruction other than a call, with its result in its place. */
  lemma EmitPlainRuns(fr: Frame, i: Inst, m: Machine, s: State)
    requires !i.Call? && FrameAt(fr, m) && (i.StoreGlobal? || (i.dst >= 0 && Placed(fr.A, i.dst)))
    requires Matches(fr, m, s.regs, Uses(i)) && ExecPlain(i, s).Done? && m.g == s.globals
    ensures var code := EmitInst(fr, i, -1);
            && AllPlain(code) && Steps(code, m).Some?
            && var m' := Steps(code, m).value;
               && m'.g == ExecPlain(i, s).value.globals
               && OnlyPlace(fr, m, m', Def(i), SCRATCH)
               && (Def(i) >= 0 ==> Place(fr, m', Def(i)) == ExecPlain(i, s).value.regs[Def(i)])
  {
    hide ValueOp, ExecPlain;
    if i.StoreGlobal? {
      StoreGlobalRuns(fr, i, m, s);
    } else {
      var d: nat := i.dst;
      PlacedReg(fr, d);
      var rd := DstReg(fr, d, -1);
      ValueKeepsGlobals(i, s);
      var v := ExecPlain(i, s).value.regs[d];
      ValueOpRuns(fr, i, rd, m, s);
      var op, back := ValueOp(fr, i, rd), WriteBack(fr, d, rd, -1);
      var m1 := Steps(op, m).value;
      StepsAppend(op, back, m);
      if fr.RegOf(d) < 0 {
        SlotReachable(fr, m, d);
        StoreOffRuns(rd, fr.SpillOff(d), m1);
      }
    }
  }

  lemma ValueKeepsGlobals(i: Inst, s: State)
    requires !i.Call? && !i.StoreGlobal? && ExecPlain(i, s).Done?
    ensures ExecPlain(i, s).value.globals == s.globals
    ensures i.dst >= 0 ==> i.dst in ExecPlain(i, s).value.regs
  {
  }

  lemma StoreGlobalRuns(fr: Frame, i: Inst, m: Machine, s: State)
    requires i.StoreGlobal? && FrameAt(fr, m)
    requires Matches(fr, m, s.regs, Uses(i)) && ExecPlain(i, s).Done? && m.g == s.globals
    ensures var code := EmitInst(fr, i, -1);
            && AllPlain(code) && Steps(code, m).Some?
            && var m' := Steps(code, m).value;
               && m'.g == ExecPlain(i, s).value.globals
               && OnlyPlace(fr, m, m', -1, SCRATCH)
  {
    var x := Read(i.a, s.regs).value;
    OperandShows(fr, m, s.regs, Uses(i), i.a);
    ToRegRuns(fr, i.a, T5, m, x);
    var (z, load) := ToReg(fr, i.a, T5);
    StepsSnoc(load, StoreWord(z, T6, i.gid), m);
  }

  /** The same, forced into a0 for a fused return. */
  lemma EmitIntoA0Runs(fr: Frame, i: Inst, m: Machine, s: State)
    requires !i.Call? && !i.StoreGlobal? && i.dst >= 0 && FrameAt(fr, m)
    requires Matches(fr, m, s.regs, Uses(i)) && ExecPlain(i, s).Done? && m.g == s.globals
    ensures Computes(EmitInst(fr, i, A0), m, A0, ExecPlain(i, s).value.regs[i.dst], {A0} + SCRATCH)
  {
    hide ValueOp, ExecPlain;
    ValueOpRuns(fr, i, A0, m, s);
    assert ValueOp(fr, i, A0) + [] == ValueOp(fr, i, A0);
  }
}
