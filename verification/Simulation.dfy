/**
 * The back end is correct: whatever a run of the IR yields, the emitted RV32IM
 * code yields, for every valid register allocation.
 */
module Simulation {
  import opened Word32
  import opened IR
  import opened RiscV
  import opened Liveness
  import opened RegAlloc
  import opened ConstOps
  import opened CodeGen
  import opened InstProof
  import opened FrameProof
  import opened EntryExit
  import opened Params
  import opened LayoutProof
  import opened BodyProof
  import opened Terminators

  /** A call up to the moment the callee has returned. */
  lemma {:induction false} CallSim(c: Body, i: Inst, m: Machine, pc: nat, s: State, d: nat, k: nat)
    returns (m0: Machine, m2: Machine, r: Result)
    requires c.Ok() && i.Call? && Fits(c.Fr(), |i.args|)
    requires InFrame(c.Fr(), c.e, m) && m.g == s.globals && Matches(c.Fr(), m, s.regs, Uses(i))
    requires At(c.Code(), pc, CallArgs(c.Fr(), i.args) + [CallTo(i.callee)])
    requires d > 0 && ReadAll(i.args, s.regs).Some?
    requires RunFunc(c.E.m, i.callee, ReadAll(i.args, s.regs).value, s.globals, d - 1, k).Done?
    requires DepthRoom(c, d)
    ensures CallReady(c.Fr(), m, m0, ReadAll(i.args, s.regs).value)
    ensures RunFunc(c.E.m, i.callee, ReadAll(i.args, s.regs).value, s.globals, d - 1, k) == Done(r)
    ensures Kept(m0, m2, r)
    ensures Leads(c, pc, m, pc + |CallArgs(c.Fr(), i.args)| + 1, m2)
    decreases d, k, 0, 0
  {
    hide Align16, U, Place, CallArgs, EmitFunc, Kept, Returns, Leads, ArgsIn, Body.Ok, Body.Fr, Body.Code, InFrame, FrameAt, RunFunc, ReadAll, Steps, Fits, Matches, ShowsAll;
    var fr := c.Fr();
    var args := CallArgs(fr, i.args);
    OkFrame(c);
    InFrameAt(fr, c.e, m);
    AtSplit(c.Code(), pc, args, [CallTo(i.callee)]);
    ReadAllShows(fr, m, s.regs, i.args);
    var xs := ReadAll(i.args, s.regs).value;
    CallArgsRun(fr, i.args, xs, m);
    m0 := Steps(args, m).value;
    assert CallReady(fr, m, m0, xs);
    LeadsPlain(c, pc, args, m);
    var at := pc + |args|;
    AtElement(c.Code(), at, [CallTo(i.callee)], 0);
    r := RunFunc(c.E.m, i.callee, xs, s.globals, d - 1, k).value;
    DepthStep(c, m, d);
    CalleeKnown(c, i.callee, xs, s.globals, d - 1, k);
    var start := Linked(m0, LinkAt(at));
    LinkedArgs(m0, LinkAt(at), xs);
    ArgRoom(fr, m, |xs|);
    m2 := FuncSim(c.E, i.callee, xs, s.globals, d - 1, k, start, LinkAt(at));
    KeptFrom(m0, start, m2, r);
    LeadsCall(c, at, m0, i.callee, m2);
    LeadsTo(c, pc, m, at, m0, at + 1, m2);
  }

  lemma {:induction false} CallInstSim(c: Body, i: Inst, after: set<nat>, m: Machine, pc: nat, s: State, d: nat, k: nat)
    returns (m': Machine)
    requires c.Ok() && i.Call? && Good(c, i, after)
    requires Agrees(c, m, s, Uses(i) + Minus(after, Def(i)))
    requires At(c.Code(), pc, EmitInst(c.Fr(), i, -1))
    requires ExecInst(c.E.m, i, s, d, k).Done? && DepthRoom(c, d)
    ensures Agrees(c, m', ExecInst(c.E.m, i, s, d, k).value, after)
    ensures Leads(c, pc, m, pc + |EmitInst(c.Fr(), i, -1)|, m')
    decreases d, k, 0, 1
  {
    hide Align16, U, Place, CallArgs, CallResult, EmitFunc, Kept, CallReady, Leads, Body.Ok, Body.Fr, Body.Code, InFrame, RunFunc, ReadAll, Steps, ExecInst, AfterCall, InstSafe, InstOk;
    var fr := c.Fr();
    var head, tail := CallArgs(fr, i.args) + [CallTo(i.callee)], CallResult(fr, i.dst, -1);
    AtSplit(c.Code(), pc, head, tail);
    CallRuns(c.E.m, i, s, d, k);
    var m0, m2, r := CallSim(c, i, m, pc, s, d, k);
    CallReadyKeeps(fr, m, m0, ReadAll(i.args, s.regs).value);
    CallKeepsLive(c, i, after, m, m0, m2, s, r);
    KeptResult(m0, m2, r);
    m' := ResultSim(c, i, after, m2, s, r);
    LeadsPlain(c, pc + |head|, tail, m2);
    LeadsTo(c, pc, m, pc + |head|, m2, pc + |head| + |tail|, m');
  }

  lemma {:induction false} InstSim(c: Body, i: Inst, after: set<nat>, m: Machine, pc: nat, s: State, d: nat, k: nat)
    returns (m': Machine)
    requires c.Ok() && Good(c, i, after)
    requires Agrees(c, m, s, Uses(i) + Minus(after, Def(i)))
    requires At(c.Code(), pc, EmitInst(c.Fr(), i, -1))
    requires ExecInst(c.E.m, i, s, d, k).Done? && DepthRoom(c, d)
    ensures Agrees(c, m', ExecInst(c.E.m, i, s, d, k).value, after)
    ensures Leads(c, pc, m, pc + |EmitInst(c.Fr(), i, -1)|, m')
    decreases d, k, 0, 2
  {
    hide EmitInst, EmitFunc, Agrees, Align16, Leads, Body.Ok, Body.Fr, Body.Code, ExecInst, Good, Uses, At;
    if i.Call? {
      m' := CallInstSim(c, i, after, m, pc, s, d, k);
    } else {
      m' := PlainInstSim(c, i, after, m, pc, s, d, k);
    }
  }

  lemma {:induction false} InstsSim(c: Body, code: seq<Inst>, after: set<nat>, m: Machine, pc: nat, s: State, d: nat, k: nat)
    returns (m': Machine)
    requires c.Ok() && GoodCode(c, code, after)
    requires Agrees(c, m, s, LiveThrough(code, after))
    requires At(c.Code(), pc, EmitInsts(c.Fr(), code))
    requires ExecInsts(c.E.m, code, s, d, k).Done? && DepthRoom(c, d)
    ensures Agrees(c, m', ExecInsts(c.E.m, code, s, d, k).value, after)
    ensures Leads(c, pc, m, pc + |EmitInsts(c.Fr(), code)|, m')
    decreases d, k, 1, |code|
  {
    hide EmitFunc, Agrees, Align16, Leads, Body.Ok, Body.Fr, Body.Code, ExecInst, DepthRoom, At, Uses, EmitInst, Good, Minus;
    if code == [] {
      m' := m;
      NothingLeads(c, pc, m);
    } else {
      hide EmitInsts, ExecInsts;
      CodeStep(c.E.m, c.Fr(), code, s, d, k);
      var first, rest := EmitInst(c.Fr(), code[0], -1), EmitInsts(c.Fr(), code[1..]);
      AtSplit(c.Code(), pc, first, rest);
      var m1 := InstSim(c, code[0], LiveThrough(code[1..], after), m, pc, s, d, k);
      var s1 := ExecInst(c.E.m, code[0], s, d, k).value;
      m' := InstsSim(c, code[1..], after, m1, pc + |first|, s1, d, k);
      LeadsTo(c, pc, m, pc + |first|, m1, pc + |first| + |rest|, m');
    }
  }

  // ---- blocks -----------------------------------------------------------------------------------

  /** The body returns from pc, and what the caller may rely on then holds. */
  ghost predicate Finishes(c: Body, pc: nat, m: Machine, m': Machine, r: Result) {
    Returns(c.E.p, c.Code(), pc, m, c.e.link, m') && Kept(c.e.m0, m', r)
  }

  lemma FinishesBefore(c: Body, pc: nat, m: Machine, pc1: nat, m1: Machine, m': Machine, r: Result)
    requires Leads(c, pc, m, pc1, m1) && Finishes(c, pc1, m1, m', r)
    ensures Finishes(c, pc, m, m', r)
  {
  }

  /** The block that control goes to next, if the terminator is a jump or a branch. */
  function Successor(t: Term, s: State): Option<nat> {
    match t
    case Jmp(x) => Some(x)
    case Br(v, x, y) =>
      var n := Read(v, s.regs);
      if n.None? then None else Some(if n.value != 0 then x else y)
    case _ => None
  }

  /**
   * Control goes from pc to the label of block x, and there the places of all
   * registers that are live agree with the register file.
   */
  ghost predicate Goes(c: Body, pc: nat, m: Machine, x: nat, m1: Machine, s: State) {
    && x in BlockOrder(c.f) && x < |c.f.blocks| && x < |c.liveIn|
    && Agrees(c, m1, s, c.liveIn[x]) && exists pos :: IsPos(c, x, pos) && Leads(c, pc, m, pos, m1)
  }

  lemma GoesBefore(c: Body, pc: nat, m: Machine, pc1: nat, m1: Machine, x: nat, m2: Machine, s: State)
    requires Leads(c, pc, m, pc1, m1) && Goes(c, pc1, m1, x, m2, s)
    ensures Goes(c, pc, m, x, m2, s)
  {
    hide IsPos, Agrees, Leads, BlockOrder;
    var pos :| IsPos(c, x, pos) && Leads(c, pc1, m1, pos, m2);
    LeadsTo(c, pc, m, pc1, m1, pos, m2);
  }

  /** Control has been handed to block x. */
  lemma TakenStep(c: Body, b: nat, x: nat, pos: nat, pc: nat, m: Machine, m1: Machine, s: State)
    requires c.Ok() && b in BlockOrder(c.f) && b < |c.f.blocks| && b < |c.liveOut| && x in Succs(c.f.blocks[b].term)
    requires IsPos(c, x, pos) && Leads(c, pc, m, pos, m1) && Agrees(c, m1, s, c.liveOut[b])
    ensures Goes(c, pc, m, x, m1, s)
  {
    hide Body.Ok, Body.Code, Body.Fr, EmitFunc, IsPos, Leads, BlockOrder;
    var pos' := SuccPlace(c, b, x);
    AgreesLess(c, m1, s, c.liveOut[b], c.liveIn[x]);
  }

  lemma AgreesLess(c: Body, m: Machine, s: State, big: set<nat>, live: set<nat>)
    requires Agrees(c, m, s, big) && live <= big
    ensures Agrees(c, m, s, live)
  {
  }

  /** Everything the end of a block may assume. */
  ghost predicate AtEnd(c: Body, b: nat, next: int, pc: nat, text: seq<Instr>) {
    && c.Ok() && b in BlockOrder(c.f) && b < |c.f.blocks| && b < |c.liveOut|
    && At(c.Code(), pc, text)
    && (next >= 0 ==> IsPos(c, next, pc + |text|))
  }

  lemma JumpStep(c: Body, b: nat, next: int, pc: nat, m: Machine, s: State)
    requires b < |c.f.blocks| && c.f.blocks[b].term.Jmp?
    requires AtEnd(c, b, next, pc, EmitTerm(c.Fr(), c.f.blocks[b].term, next, None)) && Agrees(c, m, s, c.liveOut[b])
    ensures Goes(c, pc, m, c.f.blocks[b].term.target, m, s)
  {
    hide Body.Ok, Body.Code, Body.Fr, EmitFunc, IsPos, Leads, BlockOrder, Agrees, Goes;
    var x := c.f.blocks[b].term.target;
    var pos := SuccPlace(c, b, x);
    JumpLeads(c, pc, x, next, m, pos);
    TakenStep(c, b, x, pos, pc, m, m, s);
  }

  lemma BranchStep(c: Body, b: nat, next: int, pc: nat, m: Machine, s: State) returns (m1: Machine)
    requires b < |c.f.blocks| && c.f.blocks[b].term.Br?
    requires AtEnd(c, b, next, pc, EmitTerm(c.Fr(), c.f.blocks[b].term, next, None))
    requires Agrees(c, m, s, TermUses(c.f.blocks[b].term) + c.liveOut[b]) && Successor(c.f.blocks[b].term, s).Some?
    ensures Goes(c, pc, m, Successor(c.f.blocks[b].term, s).value, m1, s)
  {
    hide Body.Ok, Body.Code, Body.Fr, EmitFunc, IsPos, Leads, BlockOrder, FrameAt, InFrame, PlainBranch, Goes;
    var Br(cond, x, y) := c.f.blocks[b].term;
    var posX := SuccPlace(c, b, x);
    var posY := SuccPlace(c, b, y);
    InFrameAt(c.Fr(), c.e, m);
    m1 := PlainBranchLeads(c, pc, cond, x, y, next, m, s, posX, posY);
    AgreesAfterLoads(c, m, m1, s, c.liveOut[b], OPERANDS);
    if Read(cond, s.regs).value != 0 {
      TakenStep(c, b, x, posX, pc, m, m1, s);
    } else {
      TakenStep(c, b, y, posY, pc, m, m1, s);
    }
  }

  /** The result of a fused comparison is needed by nobody else. */
  lemma AgreesWithoutDst(c: Body, m: Machine, s: State, d: nat, v: i32, live: set<nat>, uses: set<nat>)
    requires Agrees(c, m, s, uses + Minus(live, d)) && d !in live
    ensures Agrees(c, m, State(s.regs[d := v], s.globals), live)
    ensures Agrees(c, m, s, uses)
  {
    hide Place, InFrame;
  }

  lemma FusedBranchStep(c: Body, b: nat, next: int, pc: nat, i: Inst, m: Machine, s: State) returns (m1: Machine)
    requires b < |c.f.blocks| && c.f.blocks[b].term.Br? && FusesCmp(c.f, c.f.blocks[b])
    requires i == c.f.blocks[b].insts[|c.f.blocks[b].insts| - 1]
    requires AtEnd(c, b, next, pc, EmitTerm(c.Fr(), c.f.blocks[b].term, next, Some(i)))
    requires Agrees(c, m, s, Uses(i) + Minus(TermUses(c.f.blocks[b].term) + c.liveOut[b], Def(i))) && ExecPlain(i, s).Done?
    ensures var s' := ExecPlain(i, s).value;
            var x := Successor(c.f.blocks[b].term, s');
            x.Some? && Goes(c, pc, m, x.value, m1, s')
  {
    hide Body.Ok, Body.Code, Body.Fr, EmitFunc, IsPos, Leads, BlockOrder, Agrees, FusedBranch, UseCount, Uses, Goes;
    var Br(cond, x, y) := c.f.blocks[b].term;
    var posX := SuccPlace(c, b, x);
    var posY := SuccPlace(c, b, y);
    var v := EvalBin(i.bop, Read(i.a, s.regs).value, Read(i.b, s.regs).value).value;
    NotLiveBehind(c, b, i.dst);
    assert Minus(TermUses(c.f.blocks[b].term) + c.liveOut[b], i.dst) == Minus(c.liveOut[b], i.dst);
    AgreesWithoutDst(c, m, s, i.dst, v, c.liveOut[b], Uses(i));
    AgreesFrame(c, m, s, Uses(i));
    m1 := FusedBranchLeads(c, pc, i, x, y, next, m, s, posX, posY);
    var s' := State(s.regs[i.dst := v], s.globals);
    AgreesAfterLoads(c, m, m1, s', c.liveOut[b], OPERANDS);
    if v != 0 {
      TakenStep(c, b, x, posX, pc, m, m1, s');
    } else {
      TakenStep(c, b, y, posY, pc, m, m1, s');
    }
  }

  lemma AgreesFrame(c: Body, m: Machine, s: State, live: set<nat>)
    requires Agrees(c, m, s, live)
    ensures FrameAt(c.Fr(), m) && Matches(c.Fr(), m, s.regs, live) && InFrame(c.Fr(), c.e, m) && m.g == s.globals
  {
  }

  lemma RunFromOne(m: Module, f: Func, i: Inst, t: Term, s: State, d: nat, k: nat)
    requires RunFrom(m, f, [i], t, s, d, k).Done?
    ensures ExecInst(m, i, s, d, k).Done?
    ensures RunFrom(m, f, [i], t, s, d, k) == RunFrom(m, f, [], t, ExecInst(m, i, s, d, k).value, d, k)
    ensures !i.Call? ==> ExecInst(m, i, s, d, k) == ExecPlain(i, s)
  {
    hide ExecPlain, RunBlock, RunFunc;
    assert [i][1..] == [];
  }

  lemma NotLiveBehind(c: Body, b: nat, v: nat)
    requires c.Ok() && b < |c.f.blocks| && UseCount(c.f.blocks, v) == 1
    requires var B := c.f.blocks[b];
             B.term.Br? && B.term.cond == Reg(v) && B.insts != [] && Def(B.insts[|B.insts| - 1]) == v
    ensures b < |c.liveOut| && v !in c.liveOut[b]
  {
    hide EnvOk, FuncOk, Accounted, EmitFunc, FrameOf, ParamsSafe, InstSafe, UseCount, LiveAt;
    FusedNotLive(c.f, c.liveIn, c.liveOut, b, v);
  }

  lemma {:induction false} RetSim(c: Body, b: nat, next: int, pc: nat, m: Machine, s: State, d: nat, k: nat) returns (m': Machine)
    requires b < |c.f.blocks| && c.f.blocks[b].term.Ret?
    requires AtEnd(c, b, next, pc, EmitTerm(c.Fr(), c.f.blocks[b].term, next, None))
    requires Agrees(c, m, s, TermUses(c.f.blocks[b].term) + c.liveOut[b])
    requires RunFrom(c.E.m, c.f, [], c.f.blocks[b].term, s, d, k).Done?
    ensures Finishes(c, pc, m, m', RunFrom(c.E.m, c.f, [], c.f.blocks[b].term, s, d, k).value)
  {
    hide Body.Ok, Body.Code, Body.Fr, EmitFunc, BlockOrder, Materialize, Epilogue, Returns, Kept, FrameAt, InFrame;
    m' := ReturnValue(c, pc, c.f.blocks[b].term.val, m, s);
  }

  /** A call whose result is returned at once. */
  lemma {:induction false} FusedCallReturn(c: Body, pc: nat, i: Inst, after: set<nat>, m: Machine, s: State, d: nat, k: nat)
    returns (m': Machine)
    requires c.Ok() && i.Call? && i.dst >= 0 && Good(c, i, after) && DepthRoom(c, d)
    requires At(c.Code(), pc, EmitInst(c.Fr(), i, A0) + Epilogue(c.Fr()))
    requires Agrees(c, m, s, Uses(i) + Minus(after, Def(i))) && ExecInst(c.E.m, i, s, d, k).Done?
    ensures var s' := ExecInst(c.E.m, i, s, d, k).value;
            i.dst in s'.regs && Finishes(c, pc, m, m', Result(Some(s'.regs[i.dst]), s'.globals))
    decreases d, k, 1, 0
  {
    hide Align16, U, Place, CallArgs, EmitFunc, Kept, CallReady, Leads, Body.Ok, Body.Fr, Body.Code, InFrame, RunFunc, ReadAll, Steps, ExecInst, InstSafe, InstOk, Epilogue, Returns, FrameAt;
    var fr := c.Fr();
    var code := CallArgs(fr, i.args) + [CallTo(i.callee)];
    assert EmitInst(fr, i, A0) == code + [] == code;
    AtSplit(c.Code(), pc, code, Epilogue(fr));
    CallRuns(c.E.m, i, s, d, k);
    var m0, m2, r := CallSim(c, i, m, pc, s, d, k);
    CallReadyKeeps(fr, m, m0, ReadAll(i.args, s.regs).value);
    CallKeepsLive(c, i, after, m, m0, m2, s, r);
    KeptResult(m0, m2, r);
    m' := ReturnLeads(c, pc + |code|, m2, r);
    assert Finishes(c, pc + |code|, m2, m', r);
    FinishesBefore(c, pc, m, pc + |code|, m2, m', r);
  }

  lemma {:induction false} FusedRetSim(c: Body, b: nat, next: int, pc: nat, i: Inst, m: Machine, s: State, d: nat, k: nat)
    returns (m': Machine)
    requires b < |c.f.blocks| && FusesRet(c.f, c.f.blocks[b])
    requires i == c.f.blocks[b].insts[|c.f.blocks[b].insts| - 1]
    requires AtEnd(c, b, next, pc, EmitTerm(c.Fr(), c.f.blocks[b].term, next, Some(i))) && DepthRoom(c, d)
    requires Agrees(c, m, s, Uses(i) + Minus(TermUses(c.f.blocks[b].term) + c.liveOut[b], Def(i)))
    requires Good(c, i, TermUses(c.f.blocks[b].term) + c.liveOut[b])
    requires RunFrom(c.E.m, c.f, [i], c.f.blocks[b].term, s, d, k).Done?
    ensures Finishes(c, pc, m, m', RunFrom(c.E.m, c.f, [i], c.f.blocks[b].term, s, d, k).value)
    decreases d, k, 2, 0
  {
    hide Body.Ok, Body.Code, Body.Fr, EmitFunc, BlockOrder, EmitInst, Epilogue, Returns, Kept, FrameAt, InFrame, UseCount, Good, Uses, ExecInst, ExecPlain;
    RunFromOne(c.E.m, c.f, i, c.f.blocks[b].term, s, d, k);
    if i.Call? {
      m' := FusedCallReturn(c, pc, i, TermUses(c.f.blocks[b].term) + c.liveOut[b], m, s, d, k);
    } else {
      m' := FusedReturn(c, pc, i, m, s);
    }
  }

  lemma RunFromSplit(m: Module, f: Func, xs: seq<Inst>, ys: seq<Inst>, t: Term, s: State, d: nat, k: nat)
    requires RunFrom(m, f, xs + ys, t, s, d, k).Done?
    ensures ExecInsts(m, xs, s, d, k).Done?
    ensures RunFrom(m, f, xs + ys, t, s, d, k) == RunFrom(m, f, ys, t, ExecInsts(m, xs, s, d, k).value, d, k)
  {
    hide RunBlock, ExecInsts;
    ExecAppend(m, xs, ys, s, d, k);
  }

  /** A block that goes on, from its text: it hands over to its successor. */
  lemma {:induction false} TextStep(c: Body, b: nat, next: int, pc: nat, m: Machine, s: State, d: nat, k: nat) returns (m1: Machine)
    requires b < |c.f.blocks| && AtEnd(c, b, next, pc, EmitBlock(c.Fr(), c.f, c.f.blocks[b], next)) && DepthRoom(c, d)
    requires b < |c.liveIn| && Agrees(c, m, s, c.liveIn[b])
    requires ExecInsts(c.E.m, c.f.blocks[b].insts, s, d, k).Done?
    requires Successor(c.f.blocks[b].term, ExecInsts(c.E.m, c.f.blocks[b].insts, s, d, k).value).Some?
    ensures var s1 := ExecInsts(c.E.m, c.f.blocks[b].insts, s, d, k).value;
            Goes(c, pc, m, Successor(c.f.blocks[b].term, s1).value, m1, s1)
    decreases d, k, 2, 3
  {
    hide Body.Ok, Body.Code, Body.Fr, EmitFunc, BlockOrder, EmitInsts, EmitTerm, Goes, ExecInsts, DepthRoom, Agrees, Leads, Good, GoodCode, UseCount, LiveThrough, Uses, TermUses, IsPos;
    var B := c.f.blocks[b];
    GoodBlock(c, b);
    if FusesCmp(c.f, B) {
      m1 := FusedTextStep(c, b, next, pc, m, s, d, k);
    } else {
      var pc1, s1 := pc + |EmitInsts(c.Fr(), B.insts)|, ExecInsts(c.E.m, B.insts, s, d, k).value;
      AtSplit(c.Code(), pc, EmitInsts(c.Fr(), B.insts), EmitTerm(c.Fr(), B.term, next, None));
      var m2 := InstsSim(c, B.insts, TermUses(B.term) + c.liveOut[b], m, pc, s, d, k);
      if B.term.Jmp? {
        AgreesLess(c, m2, s1, TermUses(B.term) + c.liveOut[b], c.liveOut[b]);
        JumpStep(c, b, next, pc1, m2, s1);
        m1 := m2;
      } else {
        m1 := BranchStep(c, b, next, pc1, m2, s1);
      }
      GoesBefore(c, pc, m, pc1, m2, Successor(B.term, s1).value, m1, s1);
    }
  }

  /** The part of a block before its last instruction. */
  lemma {:induction false} InitSim(c: Body, b: nat, m: Machine, pc: nat, s: State, d: nat, k: nat) returns (m1: Machine)
    requires b < |c.f.blocks| && b < |c.liveOut| && c.Ok() && DepthRoom(c, d) && c.f.blocks[b].insts != []
    requires var B := c.f.blocks[b];
             && GoodCode(c, B.insts, TermUses(B.term) + c.liveOut[b])
             && Agrees(c, m, s, LiveThrough(B.insts, TermUses(B.term) + c.liveOut[b]))
             && At(c.Code(), pc, EmitInsts(c.Fr(), B.insts[..|B.insts| - 1]))
             && ExecInsts(c.E.m, B.insts, s, d, k).Done?
    ensures var B := c.f.blocks[b];
            var code, i, after := B.insts[..|B.insts| - 1], B.insts[|B.insts| - 1], TermUses(B.term) + c.liveOut[b];
            && Leads(c, pc, m, pc + |EmitInsts(c.Fr(), code)|, m1) && Good(c, i, after)
            && ExecInsts(c.E.m, code, s, d, k).Done?
            && var s1 := ExecInsts(c.E.m, code, s, d, k).value;
               && ExecInst(c.E.m, i, s1, d, k) == ExecInsts(c.E.m, B.insts, s, d, k)
               && Agrees(c, m1, s1, Uses(i) + Minus(after, Def(i)))
    decreases d, k, 2, 1
  {
    hide Body.Ok, Body.Code, Body.Fr, EmitFunc, EmitInsts, ExecInsts, ExecInst, DepthRoom, Agrees, Leads, Good, GoodCode, LiveThrough, Uses, TermUses, At;
    var B := c.f.blocks[b];
    var n := |B.insts| - 1;
    var code, i, after := B.insts[..n], B.insts[n], TermUses(B.term) + c.liveOut[b];
    assert B.insts == code + [i];
    LastExec(c.E.m, code, i, s, d, k);
    GoodLast(c, code, i, after);
    m1 := InstsSim(c, code, Uses(i) + Minus(after, Def(i)), m, pc, s, d, k);
  }

  lemma LastExec(m: Module, code: seq<Inst>, i: Inst, s: State, d: nat, k: nat)
    requires ExecInsts(m, code + [i], s, d, k).Done?
    ensures ExecInsts(m, code, s, d, k).Done?
    ensures ExecInst(m, i, ExecInsts(m, code, s, d, k).value, d, k) == ExecInsts(m, code + [i], s, d, k)
  {
    hide ExecInst;
    ExecAppend(m, code, [i], s, d, k);
    assert [i][1..] == [];
  }

  lemma {:induction false} FusedTextStep(c: Body, b: nat, next: int, pc: nat, m: Machine, s: State, d: nat, k: nat) returns (m1: Machine)
    requires b < |c.f.blocks| && AtEnd(c, b, next, pc, EmitBlock(c.Fr(), c.f, c.f.blocks[b], next)) && DepthRoom(c, d)
    requires FusesCmp(c.f, c.f.blocks[b])
    requires GoodCode(c, c.f.blocks[b].insts, TermUses(c.f.blocks[b].term) + c.liveOut[b])
    requires Agrees(c, m, s, LiveThrough(c.f.blocks[b].insts, TermUses(c.f.blocks[b].term) + c.liveOut[b]))
    requires ExecInsts(c.E.m, c.f.blocks[b].insts, s, d, k).Done?
    ensures var s1 := ExecInsts(c.E.m, c.f.blocks[b].insts, s, d, k).value;
            var x := Successor(c.f.blocks[b].term, s1);
            x.Some? && Goes(c, pc, m, x.value, m1, s1)
    decreases d, k, 2, 2
  {
    hide Body.Ok, Body.Code, Body.Fr, EmitFunc, BlockOrder, EmitInsts, EmitTerm, Goes, ExecInsts, DepthRoom, Agrees, Leads, Good, GoodCode, UseCount, LiveThrough, Uses, TermUses, IsPos, ExecPlain;
    var B := c.f.blocks[b];
    var n := |B.insts| - 1;
    var code, i := B.insts[..n], B.insts[n];
    AtSplit(c.Code(), pc, EmitInsts(c.Fr(), code), EmitTerm(c.Fr(), B.term, next, Some(i)));
    var m2 := InitSim(c, b, m, pc, s, d, k);
    var pc1, s2 := pc + |EmitInsts(c.Fr(), code)|, ExecInsts(c.E.m, code, s, d, k).value;
    m1 := FusedBranchStep(c, b, next, pc1, i, m2, s2);
    var s1 := ExecInsts(c.E.m, B.insts, s, d, k).value;
    GoesBefore(c, pc, m, pc1, m2, Successor(B.term, s1).value, m1, s1);
  }

  /** A block that returns, from its text. */
  lemma {:induction false} TextReturn(c: Body, b: nat, next: int, pc: nat, m: Machine, s: State, d: nat, k: nat) returns (m': Machine)
    requires b < |c.f.blocks| && AtEnd(c, b, next, pc, EmitBlock(c.Fr(), c.f, c.f.blocks[b], next)) && DepthRoom(c, d)
    requires b < |c.liveIn| && Agrees(c, m, s, c.liveIn[b]) && c.f.blocks[b].term.Ret?
    requires RunFrom(c.E.m, c.f, c.f.blocks[b].insts, c.f.blocks[b].term, s, d, k).Done?
    ensures Finishes(c, pc, m, m', RunFrom(c.E.m, c.f, c.f.blocks[b].insts, c.f.blocks[b].term, s, d, k).value)
    decreases d, k, 2, 3
  {
    hide Body.Ok, Body.Code, Body.Fr, EmitFunc, BlockOrder, EmitInsts, EmitTerm, Finishes, ExecInsts, RunFrom, DepthRoom, Agrees, Leads, Good, GoodCode, UseCount, LiveThrough, Uses, TermUses, IsPos;
    var B := c.f.blocks[b];
    GoodBlock(c, b);
    if FusesRet(c.f, B) {
      m' := FusedTextReturn(c, b, next, pc, m, s, d, k);
    } else {
      AtSplit(c.Code(), pc, EmitInsts(c.Fr(), B.insts), EmitTerm(c.Fr(), B.term, next, None));
      assert B.insts + [] == B.insts;
      RunFromSplit(c.E.m, c.f, B.insts, [], B.term, s, d, k);
      var m1 := InstsSim(c, B.insts, TermUses(B.term) + c.liveOut[b], m, pc, s, d, k);
      var pc1 := pc + |EmitInsts(c.Fr(), B.insts)|;
      m' := RetSim(c, b, next, pc1, m1, ExecInsts(c.E.m, B.insts, s, d, k).value, d, k);
      FinishesBefore(c, pc, m, pc1, m1, m', RunFrom(c.E.m, c.f, B.insts, B.term, s, d, k).value);
    }
  }

  lemma {:induction false} FusedTextReturn(c: Body, b: nat, next: int, pc: nat, m: Machine, s: State, d: nat, k: nat) returns (m': Machine)
    requires b < |c.f.blocks| && AtEnd(c, b, next, pc, EmitBlock(c.Fr(), c.f, c.f.blocks[b], next)) && DepthRoom(c, d)
    requires FusesRet(c.f, c.f.blocks[b])
    requires GoodCode(c, c.f.blocks[b].insts, TermUses(c.f.blocks[b].term) + c.liveOut[b])
    requires Agrees(c, m, s, LiveThrough(c.f.blocks[b].insts, TermUses(c.f.blocks[b].term) + c.liveOut[b]))
    requires RunFrom(c.E.m, c.f, c.f.blocks[b].insts, c.f.blocks[b].term, s, d, k).Done?
    ensures Finishes(c, pc, m, m', RunFrom(c.E.m, c.f, c.f.blocks[b].insts, c.f.blocks[b].term, s, d, k).value)
    decreases d, k, 2, 2
  {
    hide Body.Ok, Body.Code, Body.Fr, EmitFunc, BlockOrder, EmitInsts, EmitTerm, Finishes, ExecInsts, RunFrom, DepthRoom, Agrees, Leads, Good, GoodCode, UseCount, LiveThrough, Uses, TermUses, IsPos;
    var B := c.f.blocks[b];
    var n := |B.insts| - 1;
    var code, i := B.insts[..n], B.insts[n];
    assert B.insts == code + [i];
    RunFromSplit(c.E.m, c.f, code, [i], B.term, s, d, k);
    RunFromSplit(c.E.m, c.f, B.insts, [], B.term, s, d, k) by { assert B.insts + [] == B.insts; }
    AtSplit(c.Code(), pc, EmitInsts(c.Fr(), code), EmitTerm(c.Fr(), B.term, next, Some(i)));
    var m1 := InitSim(c, b, m, pc, s, d, k);
    var pc1 := pc + |EmitInsts(c.Fr(), code)|;
    m' := FusedRetSim(c, b, next, pc1, i, m1, ExecInsts(c.E.m, code, s, d, k).value, d, k);
    FinishesBefore(c, pc, m, pc1, m1, m', RunFrom(c.E.m, c.f, B.insts, B.term, s, d, k).value);
  }

  /**
   * A block that goes on: from its label control goes to the label of the
   * successor that the block chooses, and the places of all registers that are
   * live there agree with the register file.
   */
  lemma {:induction false} BlockStep(c: Body, b: nat, pos: nat, m: Machine, s: State, d: nat, k: nat) returns (m1: Machine)
    requires c.Ok() && b in BlockOrder(c.f) && b < |c.f.blocks| && b < |c.liveIn| && IsPos(c, b, pos) && DepthRoom(c, d)
    requires Agrees(c, m, s, c.liveIn[b]) && ExecInsts(c.E.m, c.f.blocks[b].insts, s, d, k).Done?
    requires Successor(c.f.blocks[b].term, ExecInsts(c.E.m, c.f.blocks[b].insts, s, d, k).value).Some?
    ensures var s1 := ExecInsts(c.E.m, c.f.blocks[b].insts, s, d, k).value;
            Goes(c, pos, m, Successor(c.f.blocks[b].term, s1).value, m1, s1)
    decreases d, k, 3, 0
  {
    hide Body.Ok, Body.Code, Body.Fr, EmitFunc, BlockOrder, EmitBlock, DepthRoom, Agrees, FindLabel, AtEnd, Goes, ExecInsts;
    var next := TextPlace(c, b, pos);
    m1 := TextStep(c, b, next, pos + 1, m, s, d, k);
    PastLabel(c, b, pos, m);
    var s1 := ExecInsts(c.E.m, c.f.blocks[b].insts, s, d, k).value;
    GoesBefore(c, pos, m, pos + 1, m, Successor(c.f.blocks[b].term, s1).value, m1, s1);
  }

  lemma PastLabel(c: Body, b: nat, pos: nat, m: Machine)
    requires IsPos(c, b, pos)
    ensures Leads(c, pos, m, pos + 1, m)
  {
    hide Returns, Body.Code;
    forall final | Returns(c.E.p, c.Code(), pos + 1, m, c.e.link, final) ensures Returns(c.E.p, c.Code(), pos, m, c.e.link, final) {
      ReturnsAfterLabel(c.E.p, c.Code(), pos, m, c.e.link, final);
    }
  }

  lemma BlockRuns(m: Module, f: Func, b: nat, s: State, d: nat, k: nat)
    requires RunBlock(m, f, b, s, d, k).Done?
    ensures b < |f.blocks| && ExecInsts(m, f.blocks[b].insts, s, d, k).Done?
    ensures RunBlock(m, f, b, s, d, k) == RunFrom(m, f, f.blocks[b].insts, f.blocks[b].term, s, d, k)
    ensures var s1 := ExecInsts(m, f.blocks[b].insts, s, d, k).value;
            var x := Successor(f.blocks[b].term, s1);
            !f.blocks[b].term.Ret? ==> x.Some? && k > 0 && RunBlock(m, f, b, s, d, k) == RunBlock(m, f, x.value, s1, d, k - 1)
  {
    hide ExecInsts;
  }

  /** A block of the layout, from its label on, to the function's return. */
  lemma {:induction false} BlockSim(c: Body, b: nat, pos: nat, m: Machine, s: State, d: nat, k: nat) returns (m': Machine)
    requires c.Ok() && b in BlockOrder(c.f) && b < |c.f.blocks| && b < |c.liveIn| && IsPos(c, b, pos) && DepthRoom(c, d)
    requires Agrees(c, m, s, c.liveIn[b]) && RunBlock(c.E.m, c.f, b, s, d, k).Done?
    ensures Finishes(c, pos, m, m', RunBlock(c.E.m, c.f, b, s, d, k).value)
    decreases d, k, 3, 1
  {
    hide Body.Ok, Body.Code, Body.Fr, EmitFunc, BlockOrder, EmitBlock, RunFrom, DepthRoom, Agrees, Finishes, FindLabel, AtEnd, RunBlock, IsPos, ExecInsts, Leads;
    BlockRuns(c.E.m, c.f, b, s, d, k);
    if c.f.blocks[b].term.Ret? {
      var next := TextPlace(c, b, pos);
      m' := TextReturn(c, b, next, pos + 1, m, s, d, k);
      PastLabel(c, b, pos, m);
      FinishesBefore(c, pos, m, pos + 1, m, m', RunBlock(c.E.m, c.f, b, s, d, k).value);
    } else {
      var m1 := BlockStep(c, b, pos, m, s, d, k);
      var s1 := ExecInsts(c.E.m, c.f.blocks[b].insts, s, d, k).value;
      var x := Successor(c.f.blocks[b].term, s1).value;
      var posX :| IsPos(c, x, posX) && Leads(c, pos, m, posX, m1);
      m' := BlockSim(c, x, posX, m1, s1, d, k - 1);
      FinishesBefore(c, pos, m, posX, m1, m', RunBlock(c.E.m, c.f, b, s, d, k).value);
    }
  }

  lemma TextPlace(c: Body, b: nat, pos: nat) returns (next: int)
    requires c.Ok() && b in BlockOrder(c.f) && b < |c.f.blocks| && IsPos(c, b, pos)
    ensures AtEnd(c, b, next, pos + 1, EmitBlock(c.Fr(), c.f, c.f.blocks[b], next))
  {
    hide Body.Ok, Body.Code, Body.Fr, EmitFunc, BlockOrder, EmitBlock, FindLabel;
    SafeLengths(c);
    var q :| 0 <= q < |BlockOrder(c.f)| && BlockOrder(c.f)[q] == b;
    next := NextOf(BlockOrder(c.f), q);
    var at := BlockPlace(c, q);
  }

  // ---- functions ----------------------------------------------------------------------------------

  lemma {:induction false} EntryLookup(params: seq<nat>, args: seq<i32>)
    requires |params| == |args| && forall i, j | 0 <= i < j < |params| :: params[i] != params[j]
    ensures forall v: nat | v in Entry(params, args) :: v in params
    ensures forall i | 0 <= i < |params| :: params[i] in Entry(params, args) && Entry(params, args)[params[i]] == args[i]
  {
    if params != [] {
      EntryLookup(params[..|params| - 1], args[..|args| - 1]);
    }
  }

  lemma ParamsAreOk(c: Body)
    requires c.Ok() && A7Intact(c.Fr(), c.f.params)
    ensures ParamsOk(c.Fr(), c.f.params)
  {
    hide EnvOk, EmitFunc, Solved, Justified, InstSafe, A7Intact, MostStackArgsIn, BlockOk;
    OkFrame(c);
    var ps := c.f.params;
    forall i | 0 <= i < |ps| ensures Placed(c.A, ps[i]) {}
    forall i, j | 0 <= i < |ps| && 0 <= j < |ps| && i != j ensures Apart(c.A, ps[i], ps[j]) {
      assert ps[j] in ps;
    }
  }

  /** The body that a call of the function starts. */
  lemma BodyOf(E: Env, name: string, f: Func, e: Caller) returns (c: Body)
    requires EnvOk(E) && FindFunc(E.m.funcs, name) == Some(f) && name in E.alloc && name in E.p
    ensures c.Ok() && c.E == E && c.f == f && c.e == e && c.A == E.alloc[name] && c.Code() == E.p[name]
    ensures A7Intact(c.Fr(), f.params) && c.Fr().Size() + 4 * |f.params| < TWO31
  {
    hide EmitFunc, FuncOk, Safe, Accounted, MostStackArgsIn, A7Intact;
    assert Compiled(E, name, f);
    var A := E.alloc[name];
    var liveIn, liveOut :| Safe(f, A, liveIn, liveOut);
    c := Body(E, f, A, e, liveIn, liveOut);
  }

  /** The arguments are still in their registers behind the prologue. */
  lemma ArgsStay(fr: Frame, e: Caller, params: seq<nat>, args: seq<i32>, m: Machine)
    requires |params| == |args| && ArgsIn(e.m0, args) && InFrame(fr, e, m) && m.g == e.m0.g
    requires forall x: RiscV.Reg | x != SP && x != T6 && (x != A7 || |params| >= 8) :: m.r[x] == e.m0.r[x]
    ensures InPlace(fr, e, params, args, 0, m)
  {
    hide InFrame;
    forall k | 0 <= k < 8 && k < |args| ensures m.r[A0 + k] == args[k] {
      assert A0 + k == A7 ==> |params| >= 8;
    }
  }

  /** Prologue and parameter moves bring the machine to where the body expects it. */
  lemma EntrySim(c: Body, args: seq<i32>, d: nat) returns (m2: Machine)
    requires c.Ok() && A7Intact(c.Fr(), c.f.params) && c.Fr().Size() + 4 * |c.f.params| < TWO31
    requires |args| == |c.f.params| && ArgsIn(c.e.m0, args) && c.e.m0.r[RA] == c.e.link
    requires U(c.e.m0.r[SP]) % 16 == 0 && U(c.e.m0.r[SP]) >= c.Fr().Size()
    requires U(c.e.m0.r[SP]) + Max(0, 4 * (|args| - 8)) <= TWO32
    ensures Steps(c.Pre(), c.e.m0) == Some(m2)
    ensures InPlace(c.Fr(), c.e, c.f.params, args, |args|, m2)
  {
    hide Prologue, ParamMoves, ParamsOk, A7Intact, InFrame, InPlace, Body.Ok, Align16, U, EmitFunc, FrameOf, Steps;
    OkFrame(c);
    ParamsAreOk(c);
    var fr, m := c.Fr(), c.e.m0;
    PrologueRuns(fr, m, c.e.link, c.f.params);
    var m1 := Steps(Prologue(fr), m).value;
    ArgsStay(fr, c.e, c.f.params, args, m1);
    ParamMovesRun(fr, c.e, c.f.params, args, |args|, m1);
    StepsAppend(Prologue(fr), ParamMoves(fr, c.f.params, |args|), m);
    m2 := Steps(ParamMoves(fr, c.f.params, |args|), m1).value;
  }

  lemma EntryAgrees(c: Body, args: seq<i32>, m: Machine, live: set<nat>)
    requires |args| == |c.f.params| && InPlace(c.Fr(), c.e, c.f.params, args, |args|, m)
    requires forall i, j | 0 <= i < j < |c.f.params| :: c.f.params[i] != c.f.params[j]
    ensures Agrees(c, m, State(Entry(c.f.params, args), c.e.m0.g), live)
  {
    hide InFrame, Place;
    EntryLookup(c.f.params, args);
    var regs := Entry(c.f.params, args);
    forall v | v in live && v in regs ensures Placed(c.A, v) && Place(c.Fr(), m, v) == regs[v] {
      var i :| 0 <= i < |c.f.params| && c.f.params[i] == v;
    }
  }

  lemma EntryPlace(c: Body)
    requires c.Ok()
    ensures At(c.Code(), 0, c.Pre()) && IsPos(c, 0, |c.Pre()|) && 0 in BlockOrder(c.f) && |c.f.blocks| > 0
  {
    hide Prologue, ParamMoves, Body.Ok, EmitFunc, EmitBlock, Layout, BlockOrder, FindLabel, Body.Pre, Body.Fr;
    SafeLengths(c);
    CodeIs(c);
    var pos := BlockPlace(c, 0);
    BlockFound(c.Pre(), c.Fr(), c.f, BlockOrder(c.f), 0);
  }

  lemma DistinctParams(c: Body)
    requires c.Ok()
    ensures forall i, j | 0 <= i < j < |c.f.params| :: c.f.params[i] != c.f.params[j]
  {
    hide EnvOk, Safe, Accounted, EmitFunc, BlockOk;
  }

  lemma StackForBody(d: nat, frame: nat, size: nat, sp: int)
    requires size <= frame && sp >= (d + 1) * frame
    ensures sp >= size
  {
    assert (d + 1) * frame >= frame;
  }

  lemma RunFuncIs(m: Module, name: string, args: seq<i32>, g: seq<i32>, d: nat, k: nat) returns (f: Func)
    requires RunFunc(m, name, args, g, d, k).Done?
    ensures FindFunc(m.funcs, name) == Some(f) && |f.params| == |args|
    ensures RunFunc(m, name, args, g, d, k) == RunBlock(m, f, 0, State(Entry(f.params, args), g), d, k)
  {
    f := FindFunc(m.funcs, name).value;
  }

  /** A whole call: the callee's code does what the callee means. */
  lemma {:induction false} FuncSim(E: Env, name: string, args: seq<i32>, g: seq<i32>, d: nat, k: nat, m: Machine, link: i32)
    returns (m': Machine)
    requires EnvOk(E) && RunFunc(E.m, name, args, g, d, k).Done? && name in E.p
    requires m.g == g && ArgsIn(m, args) && m.r[RA] == link
    requires U(m.r[SP]) % 16 == 0 && U(m.r[SP]) >= (d + 1) * E.maxFrame
    requires U(m.r[SP]) + Max(0, 4 * (|args| - 8)) <= TWO32
    ensures Returns(E.p, E.p[name], 0, m, link, m')
    ensures Kept(m, m', RunFunc(E.m, name, args, g, d, k).value)
    decreases d, k, 5, 0
  {
    hide RunFunc, RunBlock, EnvOk, Body.Ok, Body.Fr, Body.Pre, Body.Code, EmitFunc, FindFunc, A7Intact, Kept, Returns, U, ArgsIn, InPlace, Agrees, BlockOrder, IsPos, At, Leads, Align16, Steps, Entry;
    var f := RunFuncIs(E.m, name, args, g, d, k);
    KnownFunc(E, name, f);
    var c := BodyOf(E, name, f, Caller(m, link));
    OkFrame(c);
    StackForBody(d, E.maxFrame, c.Fr().Size(), U(m.r[SP]));
    var m2 := EntrySim(c, args, d);
    EntryPlace(c);
    SafeLengths(c);
    DistinctParams(c);
    EntryAgrees(c, args, m2, c.liveIn[0]);
    LeadsPlain(c, 0, c.Pre(), m);
    m' := BlockSim(c, 0, |c.Pre()|, m2, State(Entry(f.params, args), g), d, k);
    FinishesBefore(c, 0, m, |c.Pre()|, m2, m', RunFunc(E.m, name, args, g, d, k).value);
  }

  lemma KnownFunc(E: Env, name: string, f: Func)
    requires EnvOk(E) && FindFunc(E.m.funcs, name) == Some(f)
    ensures name in E.p && name in E.alloc
  {
    hide EmitFunc, FuncOk, ValidAllocation, A7Intact;
    assert Compiled(E, name, f);
  }
}
