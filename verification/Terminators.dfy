/** How the end of a block is laid out: fall-through, branches, fusion and return. */
module Terminators {
  import opened Word32
  import opened IR
  import opened RiscV
  import opened Liveness
  import opened RegAlloc
  import opened ConstOps
  import opened CodeGen
  import opened InstProof
  import opened FrameProof
  import opened EntryExit
  import opened Params
  import opened LayoutProof
  import opened BodyProof

  /** Scratch that operands of a branch are loaded into. */
  const OPERANDS: set<int> := {T5 as int, T6 as int, A7 as int}

  lemma AgreesAfterLoads(c: Body, m: Machine, m': Machine, s: State, live: set<nat>, S: set<int>)
    requires c.Ok() && Agrees(c, m, s, live) && Only(m, m', S)
    requires forall x | x in S :: !IsPool(x) && x != SP && x != RA && !IsCalleeSaved(x)
    ensures Agrees(c, m', s, live)
  {
    hide Align16, U, Place, InFrame, FrameAt, EnvOk, FuncOk, Safe, Accounted, FrameOf, Body.Ok;
    OkFrame(c);
    var fr := c.Fr();
    InFrameAt(fr, c.e, m);
    LoadsKeepFrame(fr, c.e, m, m', S);
    PlacesSurvive(fr, m, m', S);
  }

  lemma LoadsKeepFrame(fr: Frame, e: Caller, m: Machine, m': Machine, S: set<int>)
    requires InFrame(fr, e, m) && Only(m, m', S)
    requires forall x | x in S :: x != SP && x != RA && !IsCalleeSaved(x)
    ensures InFrame(fr, e, m')
  {
    hide Align16, U;
    assert m'.r[SP] == m.r[SP];
  }

  // ---- comparisons ------------------------------------------------------------------------

  /** Two operands loaded one after the other. */
  lemma OperandsRun(fr: Frame, a: Val, b: Val, m: Machine, x: i32, y: i32)
    requires FrameAt(fr, m) && Shows(fr, m, a, x) && Shows(fr, m, b, y)
    ensures var loads := ToReg(fr, a, T5).1 + ToReg(fr, b, T6).1;
            && Steps(loads, m).Some? && Only(m, Steps(loads, m).value, OPERANDS)
            && Get(Steps(loads, m).value.r, ToReg(fr, a, T5).0) == x
            && Get(Steps(loads, m).value.r, ToReg(fr, b, T6).0) == y
  {
    ToRegRuns(fr, a, T5, m, x);
    var (p, loadX) := ToReg(fr, a, T5);
    var m0 := Steps(loadX, m).value;
    ShowsSurvives(fr, m, m0, {T5, A7}, b, y);
    PlacesSurvive(fr, m, m0, {T5, A7});
    ToRegRuns(fr, b, T6, m0, y);
    hide ToReg, Shows, FrameAt;
    var (q, loadY) := ToReg(fr, b, T6);
    StepsAppend(loadX, loadY, m);
    assert p != T6 && p != A7;
  }

  /** The loads and the branch instruction of `emitBranchCmp`. */
  lemma BranchCmpRuns(fr: Frame, op: BinOp, a: Val, b: Val, target: nat, negate: bool, m: Machine, x: i32, y: i32)
    returns (loads: seq<Instr>, br: Instr, m1: Machine)
    requires IsCmp(op) && FrameAt(fr, m) && Shows(fr, m, a, x) && Shows(fr, m, b, y)
    ensures BranchCmp(fr, op, a, b, target, negate) == loads + [br]
    ensures AllPlain(loads) && Steps(loads, m) == Some(m1) && Only(m, m1, OPERANDS)
    ensures br.Branch? && br.block == target
    ensures Holds(br.cond, Get(m1.r, br.rs), Get(m1.r, br.rs2)) <==> ((EvalBin(op, x, y) == Some(1)) != negate)
  {
    hide EvalBin, ToReg, Only, Get, Shows, FrameAt, Steps;
    OperandsRun(fr, a, b, m, x, y);
    var (p, loadX) := ToReg(fr, a, T5);
    var (q, loadY) := ToReg(fr, b, T6);
    loads := loadX + loadY;
    m1 := Steps(loads, m).value;
    br := BranchOf(if negate then InvertCmp(op) else op, p, q, target);
    CompareMeans(op, x, y, negate);
  }

  /** The branch instruction of a comparison. */
  function BranchOf(op: BinOp, x: RiscV.Reg, y: RiscV.Reg, target: nat): Instr
    requires IsCmp(op)
  {
    match op
    case Lt => Branch(Lts, x, y, target)
    case Ge => Branch(Ges, x, y, target)
    case Gt => Branch(Lts, y, x, target)
    case Le => Branch(Ges, y, x, target)
    case Eq => Branch(Eqs, x, y, target)
    case _ => Branch(Nes, x, y, target)
  }

  lemma CompareMeans(op: BinOp, x: i32, y: i32, negate: bool)
    requires IsCmp(op)
    ensures EvalBin(op, x, y).Some? && EvalBin(op, x, y).value in {0, 1}
    ensures EvalBin(if negate then InvertCmp(op) else op, x, y) == Some(1) <==> ((EvalBin(op, x, y) == Some(1)) != negate)
    ensures EvalBin(if negate then InvertCmp(op) else op, x, y) == Some(1) <==>
            match if negate then InvertCmp(op) else op
            case Lt => x < y
            case Ge => x >= y
            case Gt => y < x
            case Le => y >= x
            case Eq => x == y
            case Ne => x != y
            case _ => false
  {
  }

  // ---- layout -------------------------------------------------------------------------------

  lemma CodeIs(c: Body)
    requires c.Ok()
    ensures InRangeOrder(c.f, BlockOrder(c.f)) && |BlockOrder(c.f)| > 0 && BlockOrder(c.f)[0] == 0
    ensures forall i, j | 0 <= i < j < |BlockOrder(c.f)| :: BlockOrder(c.f)[i] != BlockOrder(c.f)[j]
    ensures c.Code() == c.Pre() + Layout(c.Fr(), c.f, BlockOrder(c.f), 0)
  {
    hide Prologue, ParamMoves, EnvOk, Safe, Accounted, Align16, BlockOrder, Layout, BlockOk;
    OrderClosed(c.f);
  }

  /** The position of block x's label; only blocks in the layout have one. */
  ghost predicate IsPos(c: Body, x: nat, pos: nat) {
    pos < |c.Code()| && c.Code()[pos] == Label(x) && FindLabel(c.Code(), x) == Some(pos)
  }

  /** The q-th block of the layout is at pos, its text right behind, and then the next block. */
  lemma BlockPlace(c: Body, q: nat) returns (pos: nat)
    requires c.Ok() && q < |BlockOrder(c.f)|
    ensures InRangeOrder(c.f, BlockOrder(c.f))
    ensures IsPos(c, BlockOrder(c.f)[q], pos)
    ensures At(c.Code(), pos + 1, BlockText(c.Fr(), c.f, BlockOrder(c.f), q))
    ensures var next := NextOf(BlockOrder(c.f), q);
            next >= 0 ==> IsPos(c, next, pos + 1 + |BlockText(c.Fr(), c.f, BlockOrder(c.f), q)|)
  {
    hide Prologue, ParamMoves, Body.Ok, EmitFunc, EmitBlock, Layout, BlockOrder, FindLabel, Body.Pre, Body.Fr;
    CodeIs(c);
    var order := BlockOrder(c.f);
    assert Unlabelled(c.Pre());
    BlockFound(c.Pre(), c.Fr(), c.f, order, q);
    pos := |c.Pre()| + Offset(c.Fr(), c.f, order, q);
    if q + 1 < |order| {
      BlockFound(c.Pre(), c.Fr(), c.f, order, q + 1);
    }
  }

  /** A jump that is left out when its target comes next. */
  lemma JumpLeads(c: Body, pc: nat, x: nat, next: int, m: Machine, pos: nat)
    requires At(c.Code(), pc, if x != next then [Jump(x)] else [])
    requires IsPos(c, x, pos) && (x == next ==> IsPos(c, x, pc))
    ensures Leads(c, pc, m, pos, m)
  {
    hide Returns, EmitFunc, FindLabel;
    if x != next {
      AtElement(c.Code(), pc, [Jump(x)], 0);
      forall final | Returns(c.E.p, c.Code(), pos, m, c.e.link, final) ensures Returns(c.E.p, c.Code(), pc, m, c.e.link, final) {
        ReturnsAfterJump(c.E.p, c.Code(), pc, m, c.e.link, final, pos);
      }
    }
  }

  /** A branch instruction at pc. */
  lemma BranchLeads(c: Body, pc: nat, m: Machine, pos: nat)
    requires pc < |c.Code()| && c.Code()[pc].Branch? && FindLabel(c.Code(), c.Code()[pc].block) == Some(pos)
    ensures var br := c.Code()[pc];
            Leads(c, pc, m, if Holds(br.cond, Get(m.r, br.rs), Get(m.r, br.rs2)) then pos else pc + 1, m)
  {
    hide Returns, EmitFunc, FindLabel, Holds;
    var br := c.Code()[pc];
    var k := if Holds(br.cond, Get(m.r, br.rs), Get(m.r, br.rs2)) then pos else pc + 1;
    forall final | Returns(c.E.p, c.Code(), k, m, c.e.link, final) ensures Returns(c.E.p, c.Code(), pc, m, c.e.link, final) {
      ReturnsAfterBranch(c.E.p, c.Code(), pc, m, c.e.link, final, k);
    }
  }

  /** A branch to T with the other target F next, or reached by a jump. */
  lemma CondLeads(c: Body, pc: nat, loads: seq<Instr>, br: Instr, F: nat, next: int, m: Machine, m1: Machine,
                  posT: nat, posF: nat)
    requires br.Branch? && At(c.Code(), pc, loads + [br] + if F != next then [Jump(F)] else [])
    requires AllPlain(loads) && Steps(loads, m) == Some(m1)
    requires IsPos(c, br.block, posT) && IsPos(c, F, posF) && (F == next ==> IsPos(c, F, pc + |loads| + 1))
    ensures Leads(c, pc, m, if Holds(br.cond, Get(m1.r, br.rs), Get(m1.r, br.rs2)) then posT else posF, m1)
  {
    hide Returns, EmitFunc, FindLabel, Holds, Leads;
    var tail := if F != next then [Jump(F)] else [];
    AtSplit(c.Code(), pc, loads + [br], tail);
    AtSplit(c.Code(), pc, loads, [br]);
    AtElement(c.Code(), pc + |loads|, [br], 0);
    LeadsPlain(c, pc, loads, m);
    BranchLeads(c, pc + |loads|, m1, posT);
    JumpLeads(c, pc + |loads| + 1, F, next, m1, posF);
    if Holds(br.cond, Get(m1.r, br.rs), Get(m1.r, br.rs2)) {
      LeadsTo(c, pc, m, pc + |loads|, m1, posT, m1);
    } else {
      LeadsTo(c, pc, m, pc + |loads|, m1, pc + |loads| + 1, m1);
      LeadsTo(c, pc, m, pc + |loads| + 1, m1, posF, m1);
    }
  }

  /** Positions of the two targets of a branch at the end of a block. */
  ghost predicate Targets(c: Body, x: nat, y: nat, next: int, end: nat, posX: nat, posY: nat) {
    && IsPos(c, x, posX) && IsPos(c, y, posY)
    && (x == next ==> IsPos(c, x, end)) && (y == next ==> IsPos(c, y, end))
  }

  /** A fused comparison goes where its value says, for every layout. */
  lemma FusedBranchLeads(c: Body, pc: nat, cmp: Inst, x: nat, y: nat, next: int, m: Machine, s: State, posX: nat, posY: nat)
    returns (m1: Machine)
    requires cmp.Bin? && IsCmp(cmp.bop) && FrameAt(c.Fr(), m) && Matches(c.Fr(), m, s.regs, Uses(cmp))
    requires Read(cmp.a, s.regs).Some? && Read(cmp.b, s.regs).Some?
    requires At(c.Code(), pc, FusedBranch(c.Fr(), cmp, x, y, next))
    requires Targets(c, x, y, next, pc + |FusedBranch(c.Fr(), cmp, x, y, next)|, posX, posY)
    ensures Only(m, m1, OPERANDS)
    ensures var v := EvalBin(cmp.bop, Read(cmp.a, s.regs).value, Read(cmp.b, s.regs).value);
            v.Some? && Leads(c, pc, m, if v.value != 0 then posX else posY, m1)
  {
    hide EmitFunc, BranchCmp, Holds, Leads, FrameAt, Shows, Matches, IsPos, Body.Fr;
    var fr := c.Fr();
    var (p, q) := (Read(cmp.a, s.regs).value, Read(cmp.b, s.regs).value);
    OperandShows(fr, m, s.regs, Uses(cmp), cmp.a);
    OperandShows(fr, m, s.regs, Uses(cmp), cmp.b);
    CompareMeans(cmp.bop, p, q, false);
    hide EvalBin;
    var loads, br;
    if y != next && x == next {
      loads, br, m1 := BranchCmpRuns(fr, cmp.bop, cmp.a, cmp.b, y, true, m, p, q);
      assert FusedBranch(fr, cmp, x, y, next) == loads + [br] + [];
      CondLeads(c, pc, loads, br, x, next, m, m1, posY, posX);
    } else {
      loads, br, m1 := BranchCmpRuns(fr, cmp.bop, cmp.a, cmp.b, x, false, m, p, q);
      assert FusedBranch(fr, cmp, x, y, next) == loads + [br] + if y != next then [Jump(y)] else [];
      CondLeads(c, pc, loads, br, y, next, m, m1, posX, posY);
    }
  }

  /** An unfused condition likewise. */
  lemma PlainBranchLeads(c: Body, pc: nat, cond: Val, x: nat, y: nat, next: int, m: Machine, s: State, posX: nat, posY: nat)
    returns (m1: Machine)
    requires FrameAt(c.Fr(), m) && Matches(c.Fr(), m, s.regs, ValUses(cond)) && Read(cond, s.regs).Some?
    requires At(c.Code(), pc, PlainBranch(c.Fr(), cond, x, y, next))
    requires Targets(c, x, y, next, pc + |PlainBranch(c.Fr(), cond, x, y, next)|, posX, posY)
    ensures Only(m, m1, OPERANDS)
    ensures Leads(c, pc, m, if Read(cond, s.regs).value != 0 then posX else posY, m1)
  {
    hide EmitFunc, Leads, FrameAt, Shows, Matches, IsPos, Body.Fr;
    var fr := c.Fr();
    var v := Read(cond, s.regs).value;
    OperandShows(fr, m, s.regs, ValUses(cond), cond);
    ToRegRuns(fr, cond, T5, m, v);
    var (r, load) := ToReg(fr, cond, T5);
    m1 := Steps(load, m).value;
    hide ToReg;
    if y != next && x == next {
      assert PlainBranch(fr, cond, x, y, next) == load + [Branch(Eqs, r, ZERO, y)] + [];
      CondLeads(c, pc, load, Branch(Eqs, r, ZERO, y), x, next, m, m1, posY, posX);
    } else {
      assert PlainBranch(fr, cond, x, y, next) == load + [Branch(Nes, r, ZERO, x)] + if y != next then [Jump(y)] else [];
      CondLeads(c, pc, load, Branch(Nes, r, ZERO, x), y, next, m, m1, posX, posY);
    }
  }

  // ---- what fusion relies on -----------------------------------------------------------------

  lemma {:induction false} ReadsOfArgsUse(args: seq<Val>, v: nat)
    requires v in ArgUses(args)
    ensures ReadsOfArgs(args, v) >= 1
  {
    var i :| 0 <= i < |args| && args[i].Reg? && args[i].reg == v;
    if i > 0 {
      assert args[1..][i - 1] == args[i];
      ReadsOfArgsUse(args[1..], v);
    }
  }

  lemma ReadsOfUse(i: Inst, v: nat)
    requires v in Uses(i)
    ensures ReadsOfInst(i, v) >= 1
  {
    if i.Call? { ReadsOfArgsUse(i.args, v); }
  }

  lemma {:induction false} ReadsOfCodeUse(code: seq<Inst>, k: nat, v: nat)
    requires k < |code| && v in Uses(code[k])
    ensures ReadsOfCode(code, v) >= 1
  {
    if k == 0 { ReadsOfUse(code[0], v); } else { ReadsOfCodeUse(code[1..], k - 1, v); }
  }

  lemma {:induction false} UseCountBlock(bs: seq<Block>, b: nat, v: nat)
    requires b < |bs|
    ensures UseCount(bs, v) >= ReadsOfBlock(bs[b], v)
  {
    if b > 0 { UseCountBlock(bs[1..], b - 1, v); }
  }

  lemma {:induction false} UseCountTwo(bs: seq<Block>, b: nat, c: nat, v: nat)
    requires b < |bs| && c < |bs| && b != c
    ensures UseCount(bs, v) >= ReadsOfBlock(bs[b], v) + ReadsOfBlock(bs[c], v)
  {
    if b == 0 {
      UseCountBlock(bs[1..], c - 1, v);
    } else if c == 0 {
      UseCountBlock(bs[1..], b - 1, v);
    } else {
      UseCountTwo(bs[1..], b - 1, c - 1, v);
    }
  }

  /** A comparison result that some path behind the branch still reads has two readers. */
  lemma ReadTwice(f: Func, b: nat, v: nat, p: seq<nat>)
    requires b < |f.blocks|
    requires var B := f.blocks[b];
             B.term.Br? && B.term.cond == Reg(v) && B.insts != [] && Def(B.insts[|B.insts| - 1]) == v
    requires LivePath(f, p, v)
    ensures UseCount(f.blocks, v) >= 2
  {
    var c := p[|p| - 1];
    var B := f.blocks[c];
    UseMeansReadFirst(B.insts, B.term, v);
    var k: nat :| ReadsFirst(B.insts, B.term, v, k);
    if k < |B.insts| { ReadsOfCodeUse(B.insts, k, v); }
    assert k == |B.insts| ==> ReadsOfTerm(B.term, v) >= 1;
    assert ReadsOfBlock(B, v) >= 1;
    if c != b {
      UseCountTwo(f.blocks, b, c, v);
    } else {
      UseCountBlock(f.blocks, b, v);
    }
  }

  lemma FusedNotLive(f: Func, liveIn: seq<set<nat>>, liveOut: seq<set<nat>>, b: nat, v: nat)
    requires SuccsIn(f) && |liveIn| == |liveOut| == |f.blocks| && b < |f.blocks| && UseCount(f.blocks, v) == 1
    requires Solved(f, b, liveIn, liveOut) && forall x | 0 <= x < |f.blocks| :: Justified(f, x, liveIn)
    requires var B := f.blocks[b];
             B.term.Br? && B.term.cond == Reg(v) && B.insts != [] && Def(B.insts[|B.insts| - 1]) == v
    ensures v !in liveOut[b]
  {
    hide UseCount;
    var succs := Succs(f.blocks[b].term);
    if v in liveOut[b] {
      assert InRange(succs, |liveIn|);
      OutOfMember(succs, liveIn, v);
      var x :| x in succs && v in liveIn[x];
      assert Justified(f, x, liveIn);
      var p: seq<nat> :| LivePath(f, p, v) && p[0] == x;
      ReadTwice(f, b, v, p);
    }
  }

  // ---- return ------------------------------------------------------------------------------------

  lemma ReturnLeads(c: Body, pc: nat, m: Machine, r: Result) returns (m': Machine)
    requires c.Ok() && InFrame(c.Fr(), c.e, m) && At(c.Code(), pc, Epilogue(c.Fr()))
    requires m.g == r.globals && (r.val.Some? ==> m.r[A0] == r.val.value)
    ensures Returns(c.E.p, c.Code(), pc, m, c.e.link, m')
    ensures Kept(c.e.m0, m', r)
  {
    hide Returns, EmitFunc, Body.Ok, EpilogueBody, Epilogue, Leads, Align16, U;
    OkFrame(c);
    var fr := c.Fr();
    EpilogueRuns(fr, c.e, m);
    m' := Steps(EpilogueBody(fr), m).value;
    AtSplit(c.Code(), pc, EpilogueBody(fr), [RetTo]);
    AtElement(c.Code(), pc + |EpilogueBody(fr)|, [RetTo], 0);
    ReturnsNow(c.E.p, c.Code(), pc + |EpilogueBody(fr)|, m', c.e.link);
    ReturnsAfterPlain(c.E.p, c.Code(), pc, EpilogueBody(fr), m, c.e.link, m');
  }

  /** `return v;` through a0. */
  lemma ReturnValue(c: Body, pc: nat, v: Option<Val>, m: Machine, s: State) returns (m': Machine)
    requires c.Ok() && InFrame(c.Fr(), c.e, m) && m.g == s.globals
    requires At(c.Code(), pc, (if v.Some? then Materialize(c.Fr(), v.value, A0) else []) + Epilogue(c.Fr()))
    requires v.Some? ==> Matches(c.Fr(), m, s.regs, ValUses(v.value)) && Read(v.value, s.regs).Some?
    ensures Returns(c.E.p, c.Code(), pc, m, c.e.link, m')
    ensures Kept(c.e.m0, m', Result(if v.Some? then Read(v.value, s.regs) else None, s.globals))
  {
    hide Returns, EmitFunc, Body.Ok, Epilogue, Materialize, Kept, InFrame, Align16, U, Matches;
    var fr := c.Fr();
    InFrameAt(fr, c.e, m);
    var load := if v.Some? then Materialize(fr, v.value, A0) else [];
    AtSplit(c.Code(), pc, load, Epilogue(fr));
    if v.Some? {
      var x := Read(v.value, s.regs).value;
      OperandShows(fr, m, s.regs, ValUses(v.value), v.value);
      MaterializeRuns(fr, v.value, A0, m, x);
    }
    var m1 := Steps(load, m).value;
    LoadsKeepFrame(fr, c.e, m, m1, {A0, A7});
    m' := ReturnLeads(c, pc + |load|, m1, Result(if v.Some? then Read(v.value, s.regs) else None, s.globals));
    ReturnsAfterPlain(c.E.p, c.Code(), pc, load, m, c.e.link, m');
  }

  /** A result computed straight into a0. */
  lemma FusedReturn(c: Body, pc: nat, i: Inst, m: Machine, s: State) returns (m': Machine)
    requires c.Ok() && InFrame(c.Fr(), c.e, m) && m.g == s.globals
    requires !i.Call? && !i.StoreGlobal? && i.dst >= 0
    requires At(c.Code(), pc, EmitInst(c.Fr(), i, A0) + Epilogue(c.Fr()))
    requires Matches(c.Fr(), m, s.regs, Uses(i)) && ExecPlain(i, s).Done?
    ensures i.dst in ExecPlain(i, s).value.regs && ExecPlain(i, s).value.globals == s.globals
    ensures Returns(c.E.p, c.Code(), pc, m, c.e.link, m')
    ensures Kept(c.e.m0, m', Result(Some(ExecPlain(i, s).value.regs[i.dst]), s.globals))
  {
    hide Returns, EmitFunc, Body.Ok, Epilogue, EmitInst, Kept, InFrame, Align16, U, Matches, ExecPlain, Leads;
    var fr := c.Fr();
    InFrameAt(fr, c.e, m);
    ValueKeepsGlobals(i, s);
    EmitIntoA0Runs(fr, i, m, s);
    var code := EmitInst(fr, i, A0);
    AtSplit(c.Code(), pc, code, Epilogue(fr));
    var m1 := Steps(code, m).value;
    LoadsKeepFrame(fr, c.e, m, m1, {A0} + SCRATCH);
    m' := ReturnLeads(c, pc + |code|, m1, Result(Some(ExecPlain(i, s).value.regs[i.dst]), s.globals));
    ReturnsAfterPlain(c.E.p, c.Code(), pc, code, m, c.e.link, m');
  }

  // ---- what holds in every block ----------------------------------------------------------------

  lemma {:induction false} GoodSuffix(c: Body, b: nat, k: nat)
    requires c.Ok() && b < |c.f.blocks| && k <= |c.f.blocks[b].insts|
    ensures var B := c.f.blocks[b];
            && LiveThrough(B.insts[k..], TermUses(B.term) + c.liveOut[b]) == LiveAt(B, k, c.liveOut[b])
            && GoodCode(c, B.insts[k..], TermUses(B.term) + c.liveOut[b])
    decreases |c.f.blocks[b].insts| - k
  {
    var B := c.f.blocks[b];
    if k < |B.insts| {
      GoodSuffix(c, b, k + 1);
      GoodInst(c, b, k);
      hide Good, Body.Ok, LiveAt;
      assert B.insts[k..][1..] == B.insts[k + 1..] && B.insts[k..][0] == B.insts[k];
      LiveAtStep(B, k, c.liveOut[b]);
    }
  }

  lemma GoodInst(c: Body, b: nat, k: nat)
    requires c.Ok() && b < |c.f.blocks| && k < |c.f.blocks[b].insts|
    ensures Good(c, c.f.blocks[b].insts[k], LiveAt(c.f.blocks[b], k + 1, c.liveOut[b]))
  {
    hide EnvOk, Accounted, EmitFunc, FrameOf, ParamsSafe, InstSafe, LiveAt, Solved, Justified, Fits;
    assert BlockOk(c.f.blocks[b], |c.f.blocks|, c.f.numVregs);
    if c.f.blocks[b].insts[k].Call? {
      CallFits(c, b, k);
      NotLeaf(c, b, k);
    }
  }

  /** All instructions of a block are good, and what is live at its start is its live-in set. */
  lemma GoodBlock(c: Body, b: nat)
    requires c.Ok() && b < |c.f.blocks|
    ensures var B := c.f.blocks[b];
            && c.liveIn[b] == LiveThrough(B.insts, TermUses(B.term) + c.liveOut[b])
            && GoodCode(c, B.insts, TermUses(B.term) + c.liveOut[b])
  {
    hide EnvOk, FuncOk, Accounted, EmitFunc, FrameOf, ParamsSafe, InstSafe, Justified, LiveThrough, GoodCode, LiveBefore;
    var B := c.f.blocks[b];
    GoodSuffix(c, b, 0);
    assert B.insts[0..] == B.insts;
    assert Solved(c.f, b, c.liveIn, c.liveOut);
    Transfer(B.insts, B.term, c.liveOut[b]);
  }

  lemma {:induction false} GoodLast(c: Body, code: seq<Inst>, i: Inst, after: set<nat>)
    requires GoodCode(c, code + [i], after)
    ensures Good(c, i, after) && GoodCode(c, code, Uses(i) + Minus(after, Def(i)))
    ensures LiveThrough(code + [i], after) == LiveThrough(code, Uses(i) + Minus(after, Def(i)))
  {
    hide Good, Uses;
    if code == [] {
      assert code + [i] == [i] && [i][1..] == [];
    } else {
      assert (code + [i])[1..] == code[1..] + [i];
      GoodLast(c, code[1..], i, after);
    }
  }

  /** A successor of a block of the layout is in the layout. */
  lemma SuccPlace(c: Body, b: nat, x: nat) returns (pos: nat)
    requires c.Ok() && b in BlockOrder(c.f) && b < |c.f.blocks| && x in Succs(c.f.blocks[b].term)
    ensures x in BlockOrder(c.f) && x < |c.f.blocks| && x < |c.liveIn| && IsPos(c, x, pos)
    ensures c.liveIn[x] <= c.liveOut[b]
  {
    hide EnvOk, Accounted, EmitFunc, FrameOf, ParamsSafe, InstSafe, BlockOrder, IsPos, Justified;
    OrderClosed(c.f);
    assert BlockOk(c.f.blocks[b], |c.f.blocks|, c.f.numVregs);
    var order := BlockOrder(c.f);
    assert x < |c.f.blocks|;
    assert x in order;
    var q :| 0 <= q < |order| && order[q] == x;
    pos := BlockPlace(c, q);
    assert Solved(c.f, b, c.liveIn, c.liveOut);
    forall v | v in c.liveIn[x] ensures v in c.liveOut[b] {
      OutOfMember(Succs(c.f.blocks[b].term), c.liveIn, v);
    }
  }
}
