/** A function body under execution: the invariant, and one step of it. */
module BodyProof {
  import opened Word32
  import opened IR
  import opened RiscV
  import opened Liveness
  import opened RegAlloc
  import opened ConstOps
  import opened CodeGen
  import opened InstProof
  import opened FrameProof
  import opened EntryExit
  import opened Params
  import opened LayoutProof

  /** A module, its text, the allocations behind the text, and a bound on its frames. */
  datatype Env = Env(m: Module, p: Program, alloc: map<string, Allocation>, opt: bool, maxFrame: nat)

  ghost predicate Compiled(E: Env, name: string, f: Func) {
    && name in E.p && name in E.alloc
    && FuncOk(f) && ValidAllocation(f, E.alloc[name])
    && E.p[name] == EmitFunc(f, E.alloc[name], E.opt)
    && var fr := FrameOf(f, E.alloc[name], E.opt);
       && fr.Size() <= E.maxFrame
       && fr.Size() + 4 * |f.params| < TWO31
       && A7Intact(fr, f.params)
  }

  /** Every function of the module is in the program as the back end emits it. */
  ghost predicate EnvOk(E: Env) {
    forall name | FindFunc(E.m.funcs, name).Some? :: Compiled(E, name, FindFunc(E.m.funcs, name).value)
  }

  /** A function body under execution. */
  datatype Body = Body(E: Env, f: Func, A: Allocation, e: Caller, liveIn: seq<set<nat>>, liveOut: seq<set<nat>>) {
    function Fr(): Frame { FrameOf(f, A, E.opt) }

    function Pre(): (r: seq<Instr>)
      ensures AllPlain(r) && Unlabelled(r)
    {
      Prologue(Fr()) + ParamMoves(Fr(), f.params, |f.params|)
    }

    function Code(): seq<Instr> { EmitFunc(f, A, E.opt) }

    ghost predicate Ok() {
      && EnvOk(E) && FuncOk(f) && Safe(f, A, liveIn, liveOut) && Accounted(f, A)
      && |A.reg| == |A.spillSlot| == f.numVregs
      && Fr().Size() < TWO31 && Fr().Size() <= E.maxFrame
    }
  }

  lemma OkFrame(c: Body)
    requires c.Ok()
    ensures c.Fr().A == c.A && c.Fr().outArgArea % 4 == 0
    ensures EnvOk(c.E) && c.Fr().Size() <= c.E.maxFrame && c.Fr().Size() < TWO31
    ensures CalleeListOk(c.Fr()) && Saves(c.Fr())
    ensures AllPlaced(c.A, c.f.numVregs)
  {
    hide EnvOk, FuncOk, EmitFunc, Align16, Solved, Justified, InstSafe, ParamsSafe, MostStackArgsIn;
    AccountedList(c.Fr(), c.f);
  }

  lemma SafeLengths(c: Body)
    requires c.Ok()
    ensures |c.liveIn| == |c.liveOut| == |c.f.blocks| > 0
  {
  }

  lemma AccountedList(fr: Frame, f: Func)
    requires Accounted(f, fr.A)
    ensures CalleeListOk(fr) && Saves(fr)
  {
  }

  /** The machine is inside the body's frame and agrees with the IR state on `live`. */
  ghost predicate Agrees(c: Body, m: Machine, s: State, live: set<nat>) {
    InFrame(c.Fr(), c.e, m) && m.g == s.globals && Matches(c.Fr(), m, s.regs, live)
  }

  /** Stack left for d more nested calls. */
  ghost predicate DepthRoom(c: Body, d: nat) {
    U(c.e.m0.r[SP]) >= (d + 1) * c.E.maxFrame
  }

  /** Reaching `pc'` with m' is as good as being at `pc` with m. */
  ghost predicate Leads(c: Body, pc: nat, m: Machine, pc': nat, m': Machine) {
    forall final | Returns(c.E.p, c.Code(), pc', m', c.e.link, final) ::
      Returns(c.E.p, c.Code(), pc, m, c.e.link, final)
  }

  lemma LeadsTo(c: Body, pc: nat, m: Machine, pc1: nat, m1: Machine, pc2: nat, m2: Machine)
    requires Leads(c, pc, m, pc1, m1) && Leads(c, pc1, m1, pc2, m2)
    ensures Leads(c, pc, m, pc2, m2)
  {
  }

  lemma NothingLeads(c: Body, pc: nat, m: Machine)
    ensures Leads(c, pc, m, pc, m)
  {
  }

  lemma LeadsPlain(c: Body, pc: nat, seg: seq<Instr>, m: Machine)
    requires At(c.Code(), pc, seg) && AllPlain(seg) && Steps(seg, m).Some?
    ensures Leads(c, pc, m, pc + |seg|, Steps(seg, m).value)
  {
    forall final | Returns(c.E.p, c.Code(), pc + |seg|, Steps(seg, m).value, c.e.link, final)
      ensures Returns(c.E.p, c.Code(), pc, m, c.e.link, final)
    {
      ReturnsAfterPlain(c.E.p, c.Code(), pc, seg, m, c.e.link, final);
    }
  }

  /** The instruction may run in the body when `after` is live behind it. */
  ghost predicate Good(c: Body, i: Inst, after: set<nat>) {
    && AllPlaced(c.A, c.f.numVregs) && InstOk(i, c.f.numVregs) && InstSafe(c.A, c.f.numVregs, i, after)
    && (i.Call? ==> Fits(c.Fr(), |i.args|) && !c.A.isLeaf)
  }

  // ---- one instruction ------------------------------------------------------------------

  /** A plain instruction writes one register of the IR at most. */
  lemma PlainWrites(i: Inst, s: State)
    requires !i.Call? && ExecPlain(i, s).Done?
    ensures var s' := ExecPlain(i, s).value;
            forall v: nat | v in s'.regs && v != Def(i) :: v in s.regs && s'.regs[v] == s.regs[v]
  {
  }

  /** A value that is live after the instruction and not its result stays in its place. */
  lemma PlainKeepsOne(fr: Frame, nv: nat, i: Inst, after: set<nat>, m: Machine, m': Machine, v: nat)
    requires AllPlaced(fr.A, nv) && InstSafe(fr.A, nv, i, after) && InstOk(i, nv)
    requires FrameAt(fr, m) && OnlyPlace(fr, m, m', Def(i), SCRATCH) && v in after && v != Def(i)
    ensures Placed(fr.A, v)
    ensures Place(fr, m', v) == Place(fr, m, v) || (IsMoveFrom(i, v) && Place(fr, m', v) == Place(fr, m', Def(i)))
  {
    hide Align16, U, Place, OnlyPlace, FrameAt;
    var d := Def(i);
    if d < 0 {
      NothingMoved(fr, m, m', v);
    } else if Apart(fr.A, d, v) {
      ApartKeeps(fr, m, m', d, v, SCRATCH);
    } else {
      assert IsMoveFrom(i, v);
      SamePlace(fr, m', d, v);
    }
  }

  /** A move gives its target the value of its source. */
  lemma MoveCopies(i: Inst, v: nat, s: State)
    requires IsMoveFrom(i, v) && i.dst >= 0 && v in s.regs && ExecPlain(i, s).Done?
    ensures ExecPlain(i, s).value.regs[i.dst] == s.regs[v]
  {
  }

  /** Values live after a plain instruction are still in their places. */
  lemma PlainKeepsLive(c: Body, i: Inst, after: set<nat>, m: Machine, m': Machine, s: State)
    requires c.Ok() && !i.Call? && Good(c, i, after)
    requires Agrees(c, m, s, Uses(i) + Minus(after, Def(i))) && ExecPlain(i, s).Done?
    requires m'.g == ExecPlain(i, s).value.globals && OnlyPlace(c.Fr(), m, m', Def(i), SCRATCH)
    requires Def(i) >= 0 ==> Place(c.Fr(), m', Def(i)) == ExecPlain(i, s).value.regs[Def(i)]
    ensures Agrees(c, m', ExecPlain(i, s).value, after)
  {
    hide Align16, U, Place, ExecPlain, OnlyPlace, InFrame, FrameAt, EnvOk, FuncOk, Safe, Accounted, FrameOf, Body.Ok, Uses, InstSafe;
    OkFrame(c);
    var fr, d, s' := c.Fr(), Def(i), ExecPlain(i, s).value;
    InFrameAt(fr, c.e, m);
    FrameKept(fr, c.e, m, m', d, SCRATCH);
    PlainWrites(i, s);
    forall v | v in after && v in s'.regs ensures Placed(fr.A, v) && Place(fr, m', v) == s'.regs[v] {
      if v != d {
        PlainKeepsOne(fr, c.f.numVregs, i, after, m, m', v);
        assert v in Minus(after, d) && Place(fr, m, v) == s.regs[v];
        if IsMoveFrom(i, v) { MoveCopies(i, v, s); }
      } else {
        assert Placed(c.A, d);
      }
    }
  }

  lemma NothingMoved(fr: Frame, m: Machine, m': Machine, v: nat)
    requires FrameAt(fr, m) && OnlyPlace(fr, m, m', -1, SCRATCH) && Placed(fr.A, v)
    ensures Place(fr, m', v) == Place(fr, m, v)
  {
  }

  lemma SamePlace(fr: Frame, m: Machine, v: nat, w: nat)
    requires Placed(fr.A, v) && Placed(fr.A, w) && !Apart(fr.A, v, w)
    ensures Place(fr, m, v) == Place(fr, m, w)
  {
  }

  lemma PlainInstSim(c: Body, i: Inst, after: set<nat>, m: Machine, pc: nat, s: State, d: nat, k: nat) returns (m': Machine)
    requires c.Ok() && !i.Call? && Good(c, i, after)
    requires Agrees(c, m, s, Uses(i) + Minus(after, Def(i))) && ExecInst(c.E.m, i, s, d, k).Done?
    requires At(c.Code(), pc, EmitInst(c.Fr(), i, -1))
    ensures Agrees(c, m', ExecInst(c.E.m, i, s, d, k).value, after)
    ensures Leads(c, pc, m, pc + |EmitInst(c.Fr(), i, -1)|, m')
  {
    hide EmitInst, EmitFunc, Align16, Place, ExecPlain, OnlyPlace, InFrame, FrameAt, U, FrameOf, Body.Ok, Uses, InstSafe, Leads, Steps;
    OkFrame(c);
    InFrameAt(c.Fr(), c.e, m);
    assert ExecInst(c.E.m, i, s, d, k) == ExecPlain(i, s);
    assert Matches(c.Fr(), m, s.regs, Uses(i));
    assert i.StoreGlobal? || (i.dst >= 0 && Placed(c.Fr().A, i.dst));
    EmitPlainRuns(c.Fr(), i, m, s);
    var code := EmitInst(c.Fr(), i, -1);
    m' := Steps(code, m).value;
    PlainKeepsLive(c, i, after, m, m', s);
    LeadsPlain(c, pc, code, m);
  }

  // ---- calls --------------------------------------------------------------------------------

  /** What holds when the argument code has run and the call is about to happen. */
  ghost predicate CallReady(fr: Frame, m: Machine, m1: Machine, xs: seq<i32>) {
    && ArgsIn(m1, xs) && m1.g == m.g && m1.r[SP] == m.r[SP]
    && (forall x: Reg | !InCallScratch(x) :: m1.r[x] == m.r[x])
    && (forall addr | addr < U(m.r[SP]) || addr >= U(m.r[SP]) + fr.outArgArea :: Word(m1.mem, addr) == Word(m.mem, addr))
  }

  /** Values live across the call are in their places again when it returns. */
  lemma CallKeepsLive(c: Body, i: Inst, after: set<nat>, m: Machine, m0: Machine, m2: Machine, s: State, r: Result)
    requires c.Ok() && i.Call? && Good(c, i, after)
    requires Agrees(c, m, s, Uses(i) + Minus(after, Def(i)))
    requires m0.r[SP] == m.r[SP] && forall x: Reg | IsCalleeSaved(x) :: m0.r[x] == m.r[x]
    requires forall addr | addr >= U(m.r[SP]) + c.Fr().outArgArea :: Word(m0.mem, addr) == Word(m.mem, addr)
    requires Kept(m0, m2, r)
    ensures Agrees(c, m2, State(s.regs, r.globals), Minus(after, Def(i)))
  {
    hide Align16, U, Place;
    OkFrame(c);
    var fr := c.Fr();
    FrameKeptByCall(fr, c.e, m, m0, m2, r);
    forall v | v in Minus(after, Def(i)) && v in s.regs ensures Placed(fr.A, v) && Place(fr, m2, v) == s.regs[v] {
      assert Placed(c.A, v);
      assert Crosses(i, after, v);
      SurvivesCall(fr, m, m0, m2, r, v);
    }
  }

  /** The result goes to its place, and everything else live stays. */
  lemma ResultSim(c: Body, i: Inst, after: set<nat>, m2: Machine, s: State, r: Result) returns (m3: Machine)
    requires c.Ok() && i.Call? && Good(c, i, after)
    requires Agrees(c, m2, State(s.regs, r.globals), Minus(after, Def(i)))
    requires AfterCall(i, s, r).Done? && (r.val.Some? ==> m2.r[A0] == r.val.value)
    ensures Steps(CallResult(c.Fr(), i.dst, -1), m2) == Some(m3)
    ensures Agrees(c, m3, AfterCall(i, s, r).value, after)
  {
    hide Align16, U, Place, CallResult, OnlyPlace, InFrame, FrameAt, EnvOk, FuncOk, Safe, Accounted, FrameOf, Body.Ok, InstSafe, Steps;
    OkFrame(c);
    var fr, d := c.Fr(), i.dst;
    InFrameAt(fr, c.e, m2);
    assert d >= 0 ==> Placed(fr.A, d);
    CallResultRuns(fr, d, -1, m2);
    m3 := Steps(CallResult(fr, d, -1), m2).value;
    WiderScratch(fr, m2, m3, d);
    FrameKept(fr, c.e, m2, m3, d, SCRATCH);
    var s' := AfterCall(i, s, r).value;
    forall v | v in after && v in s'.regs ensures Placed(fr.A, v) && Place(fr, m3, v) == s'.regs[v] {
      if v != d {
        assert v in Minus(after, d);
        PlainKeepsOne(fr, c.f.numVregs, i, after, m2, m3, v);
      } else {
        assert Placed(c.A, d);
      }
    }
  }

  lemma WiderScratch(fr: Frame, m: Machine, m': Machine, d: int)
    requires OnlyPlace(fr, m, m', d, {A7})
    ensures OnlyPlace(fr, m, m', d, SCRATCH)
  {
  }

  lemma DepthStep(c: Body, m: Machine, d: nat)
    requires InFrame(c.Fr(), c.e, m) && DepthRoom(c, d) && d > 0 && c.Fr().Size() <= c.E.maxFrame
    ensures U(m.r[SP]) >= d * c.E.maxFrame
  {
    assert (d + 1) * c.E.maxFrame == d * c.E.maxFrame + c.E.maxFrame;
  }

  /** What a call that comes back means. */
  lemma CallRuns(m: Module, i: Inst, s: State, d: nat, k: nat)
    requires i.Call? && ExecInst(m, i, s, d, k).Done?
    ensures d > 0 && ReadAll(i.args, s.regs).Some?
    ensures var o := RunFunc(m, i.callee, ReadAll(i.args, s.regs).value, s.globals, d - 1, k);
            o.Done? && ExecInst(m, i, s, d, k) == AfterCall(i, s, o.value)
  {
  }

  lemma InFrameAt(fr: Frame, e: Caller, m: Machine)
    requires InFrame(fr, e, m)
    ensures FrameAt(fr, m) && U(m.r[SP]) % 16 == 0
  {
  }

  /** The machine as a call leaves it for the callee. */
  function Linked(m: Machine, back: i32): Machine {
    m.(r := Set(m.r, RA, back))
  }

  lemma LinkedArgs(m: Machine, back: i32, xs: seq<i32>)
    requires ArgsIn(m, xs)
    ensures ArgsIn(Linked(m, back), xs)
  {
  }

  lemma LeadsCall(c: Body, at: nat, m0: Machine, name: string, m2: Machine)
    requires at < |c.Code()| && c.Code()[at] == CallTo(name) && name in c.E.p
    requires Returns(c.E.p, c.E.p[name], 0, Linked(m0, LinkAt(at)), LinkAt(at), m2)
    ensures Leads(c, at, m0, at + 1, m2)
  {
    hide Returns, EmitFunc;
    forall final | Returns(c.E.p, c.Code(), at + 1, m2, c.e.link, final)
      ensures Returns(c.E.p, c.Code(), at, m0, c.e.link, final)
    {
      ReturnsAfterCall(c.E.p, c.Code(), at, m0, c.e.link, m2, final);
    }
  }

  lemma CalleeKnown(c: Body, name: string, xs: seq<i32>, g: seq<i32>, d: nat, k: nat)
    requires c.Ok() && RunFunc(c.E.m, name, xs, g, d, k).Done?
    ensures name in c.E.p
  {
    assert FindFunc(c.E.m.funcs, name).Some?;
    assert Compiled(c.E, name, FindFunc(c.E.m.funcs, name).value);
  }

  lemma KeptFrom(m0: Machine, start: Machine, m2: Machine, r: Result)
    requires start.mem == m0.mem && forall x: Reg | x != RA :: start.r[x] == m0.r[x]
    requires Kept(start, m2, r)
    ensures Kept(m0, m2, r)
  {
  }

  lemma ArgRoom(fr: Frame, m: Machine, n: nat)
    requires FrameAt(fr, m) && Fits(fr, n)
    ensures U(m.r[SP]) + Max(0, 4 * (n - 8)) <= TWO32
  {
  }

  lemma CallReadyKeeps(fr: Frame, m: Machine, m1: Machine, xs: seq<i32>)
    requires CallReady(fr, m, m1, xs)
    ensures m1.r[SP] == m.r[SP] && forall x: Reg | IsCalleeSaved(x) :: m1.r[x] == m.r[x]
    ensures forall addr | addr >= U(m.r[SP]) + fr.outArgArea :: Word(m1.mem, addr) == Word(m.mem, addr)
  {
  }

  lemma KeptResult(m0: Machine, m2: Machine, r: Result)
    requires Kept(m0, m2, r)
    ensures r.val.Some? ==> m2.r[A0] == r.val.value
  {
  }

  // ---- straight-line code ---------------------------------------------------------------------

  /** What is live before code, given what is live after it. */
  function LiveThrough(code: seq<Inst>, after: set<nat>): set<nat> {
    if code == [] then after
    else Uses(code[0]) + Minus(LiveThrough(code[1..], after), Def(code[0]))
  }

  ghost predicate GoodCode(c: Body, code: seq<Inst>, after: set<nat>) {
    code == [] || (Good(c, code[0], LiveThrough(code[1..], after)) && GoodCode(c, code[1..], after))
  }

  lemma CodeStep(m: Module, fr: Frame, code: seq<Inst>, s: State, d: nat, k: nat)
    requires code != [] && ExecInsts(m, code, s, d, k).Done?
    ensures EmitInsts(fr, code) == EmitInst(fr, code[0], -1) + EmitInsts(fr, code[1..])
    ensures ExecInst(m, code[0], s, d, k).Done?
    ensures ExecInsts(m, code, s, d, k) == ExecInsts(m, code[1..], ExecInst(m, code[0], s, d, k).value, d, k)
  {
  }

  lemma {:induction false} MostStackArgsBound(code: seq<Inst>, k: nat)
    requires k < |code| && code[k].Call?
    ensures |code[k].args| - 8 <= MostStackArgs(code)
  {
    if k > 0 { MostStackArgsBound(code[1..], k - 1); }
  }

  lemma {:induction false} MostStackArgsInBound(bs: seq<Block>, b: nat, k: nat)
    requires b < |bs| && k < |bs[b].insts| && bs[b].insts[k].Call?
    ensures |bs[b].insts[k].args| - 8 <= MostStackArgsIn(bs)
  {
    if b == 0 { MostStackArgsBound(bs[0].insts, k); } else { MostStackArgsInBound(bs[1..], b - 1, k); }
  }

  /** The outgoing area is as large as any call of the function needs. */
  lemma CallFits(c: Body, b: nat, k: nat)
    requires b < |c.f.blocks| && k < |c.f.blocks[b].insts| && c.f.blocks[b].insts[k].Call?
    ensures Fits(c.Fr(), |c.f.blocks[b].insts[k].args|)
  {
    MostStackArgsInBound(c.f.blocks, b, k);
  }

  lemma NotLeaf(c: Body, b: nat, j: nat)
    requires c.Ok() && b < |c.f.blocks| && j < |c.f.blocks[b].insts| && c.f.blocks[b].insts[j].Call?
    ensures !c.A.isLeaf
  {
  }
}
