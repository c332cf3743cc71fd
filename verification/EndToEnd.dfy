/**
 * The compiler from the source program to the machine: analysis, lowering, any
 * passes that keep results, register allocation and code generation.
 */
module EndToEnd {
  import opened Word32
  import opened IR
  import opened Ast
  import opened Typed
  import opened Sema
  import opened SemaProof
  import opened SemaProgram
  import opened Grounding
  import opened Lower
  import opened LowerShape
  import LowerSim
  import opened Dce
  import opened RiscV
  import opened RegAlloc
  import opened CodeGen
  import opened FrameProof
  import opened EntryExit
  import opened BodyProof
  import Simulation
  import Inline

  /** What `optimizeIR` makes of the lowered module when it does not optimize. */
  function Cleaned(t: TModule): Module {
    EliminateModule(EliminateModule(Generate(t)))
  }

  // ---- dead-code elimination keeps the graph well formed ------------------------------------------

  lemma {:induction false} KeepOk(code: seq<Inst>, used: set<nat>, nv: nat)
    requires forall k | 0 <= k < |code| :: InstOk(code[k], nv)
    ensures forall k | 0 <= k < |Keep(code, used)| :: InstOk(Keep(code, used)[k], nv)
  {
    if code != [] { KeepOk(code[1..], used, nv); }
  }

  lemma SweepOk(f: Func)
    requires FuncOk(f)
    ensures FuncOk(Sweep(f))
  {
    var used, n := BlocksUses(f.blocks), |f.blocks|;
    forall b | 0 <= b < n ensures BlockOk(Sweep(f).blocks[b], n, f.numVregs) {
      assert BlockOk(f.blocks[b], n, f.numVregs);
      KeepOk(f.blocks[b].insts, used, f.numVregs);
    }
  }

  lemma {:induction false} EliminateOk(f: Func)
    requires FuncOk(f)
    ensures FuncOk(Eliminate(f)) && Eliminate(f).name == f.name
    decreases InstCount(f.blocks)
  {
    hide FuncOk;
    SweepOk(f);
    KeepBlocksShrinks(f.blocks, BlocksUses(f.blocks));
    if Sweep(f) != f { EliminateOk(Sweep(f)); }
  }

  lemma {:induction false} MapEliminateAt(fs: seq<Func>)
    ensures |MapEliminate(fs)| == |fs| && forall i | 0 <= i < |fs| :: MapEliminate(fs)[i] == Eliminate(fs[i])
  {
    if fs != [] { MapEliminateAt(fs[1..]); }
  }

  lemma {:induction false} GenFuncsAt(fs: seq<TFunc>)
    ensures |GenFuncs(fs)| == |fs| && forall i | 0 <= i < |fs| :: GenFuncs(fs)[i] == GenFunc(fs[i])
  {
    if fs != [] { GenFuncsAt(fs[1..]); }
  }

  /** Every function the back end sees is well formed and has the name of its source. */
  lemma CleanedOk(t: TModule)
    requires forall i | 0 <= i < |t.funcs| :: FuncIn(t.funcs[i])
    ensures |Cleaned(t).funcs| == |t.funcs|
    ensures forall i | 0 <= i < |t.funcs| :: FuncOk(Cleaned(t).funcs[i]) && Cleaned(t).funcs[i].name == t.funcs[i].name
  {
    hide FuncOk, FuncIn, GenFunc, Eliminate;
    GenFuncsAt(t.funcs);
    var g := Generate(t);
    MapEliminateAt(g.funcs);
    MapEliminateAt(EliminateModule(g).funcs);
    forall i | 0 <= i < |t.funcs|
      ensures FuncOk(Cleaned(t).funcs[i]) && Cleaned(t).funcs[i].name == t.funcs[i].name
    {
      GenFuncWellFormed(t.funcs[i]);
      LowerSim.NameKept(t.funcs[i]);
      EliminateOk(g.funcs[i]);
      EliminateOk(EliminateModule(g).funcs[i]);
    }
  }

  // ---- the front end ------------------------------------------------------------------------------

  /** No function's lowered code names a declaration that a constant condition rules out. */
  predicate AllGrounded(t: TModule) {
    forall i | 0 <= i < |t.funcs| :: Grounded(t.funcs[i])
  }

  /** A source program that ends with a value ends with it in the lowered IR. */
  lemma SourceToIr(items: seq<Item>, d: nat, k: nat) returns (p: Prog, gs: seq<i32>, k': nat)
    requires Analyze(items).Fine? && AllGrounded(Analyze(items).value) && RunProgram(items, d, k).Done?
    ensures var t, a := Analyze(items).value, RunProgram(items, d, k).value;
            && RunFunc(Generate(t), "main", [], Inits(t.globals), d, k') == Done(Result(a.val, gs))
            && GRel(p.G, a.globals, gs)
    ensures var t := Analyze(items).value; forall i | 0 <= i < |t.funcs| :: FuncIn(t.funcs[i])
  {
    hide RunFunc, TRun, GRel, FuncIn, Analyze, RunProgram, GenFuncs, ProgOk, Grounded, GenBody;
    var t := Analyze(items).value;
    p, gs := AnalyzeCorrect(items, d, k);
    AnalyzedReady(items);
    k' := LowerSim.FuncSim(t.funcs, Generate(t), "main", [], Inits(t.globals), d, k);
  }

  /** Cleaning keeps every result. */
  lemma CleanedReturns(t: TModule)
    ensures Inline.Returns(Generate(t), Cleaned(t))
  {
    hide RunFunc, EliminateModule, Generate;
    var m := Generate(t);
    forall name, args, g, d: nat, k: nat | RunFunc(m, name, args, g, d, k).Done?
      ensures RunFunc(Cleaned(t), name, args, g, d, k) == RunFunc(m, name, args, g, d, k)
    {
      EliminateRefines(m, name, args, g, d, k);
      EliminateRefines(EliminateModule(m), name, args, g, d, k);
    }
  }

  // ---- the whole compiler ---------------------------------------------------------------------------

  /** A program's image, and a machine as the runtime leaves it for `main`. */
  ghost predicate Hosts(t: TModule, E: BodyProof.Env, d: nat, m: Machine, link: i32) {
    && EnvOk(E) && m.g == Inits(t.globals) && m.r[RA] == link
    && U(m.r[SP]) % 16 == 0 && U(m.r[SP]) >= (d + 1) * E.maxFrame
  }

  /** `main` returns with the program's value in a0, and keeps its side of the calling convention. */
  ghost predicate EndsWith(E: BodyProof.Env, m: Machine, link: i32, m': Machine, val: Option<i32>) {
    && "main" in E.p && Returns(E.p, E.p["main"], 0, m, link, m')
    && (val.Some? ==> m'.r[A0] == val.value)
    && m'.r[SP] == m.r[SP] && (forall x: RiscV.Reg | IsCalleeSaved(x) :: m'.r[x] == m.r[x])
    && (forall addr | addr >= U(m.r[SP]) :: Word(m'.mem, addr) == Word(m.mem, addr))
  }

  /**
   * Whatever passes lie between lowering and the back end, with or without `-opt`:
   * if they keep the results of runs that return, the image does what the source
   * program does.  If the program ends with a value after at most d nested calls,
   * then its code, started with enough stack, returns that value in a0, with sp and
   * the callee-saved registers as they were, memory above sp untouched, and the
   * globals as the source program leaves them.
   */
  lemma ImageCorrect(items: seq<Item>, E: BodyProof.Env, d: nat, k: nat, m: Machine, link: i32) returns (p: Prog, m': Machine)
    requires Analyze(items).Fine? && AllGrounded(Analyze(items).value) && RunProgram(items, d, k).Done?
    requires Inline.Returns(Generate(Analyze(items).value), E.m) && Hosts(Analyze(items).value, E, d, m, link)
    ensures EndsWith(E, m, link, m', RunProgram(items, d, k).value.val)
    ensures GRel(p.G, RunProgram(items, d, k).value.globals, m'.g)
  {
    hide RunFunc, GRel, FuncIn, Analyze, RunProgram, EnvOk, Returns, AllGrounded, Generate, Inits, U;
    var gs, k';
    p, gs, k' := SourceToIr(items, d, k);
    assert RunFunc(E.m, "main", [], Inits(Analyze(items).value.globals), d, k').Done?;
    MainKnown(E, Inits(Analyze(items).value.globals), d, k');
    m' := Simulation.FuncSim(E, "main", [], Inits(Analyze(items).value.globals), d, k', m, link);
  }

  /** The compiler without `-opt` is correct. */
  lemma CompilerCorrect(items: seq<Item>, E: BodyProof.Env, d: nat, k: nat, m: Machine, link: i32) returns (p: Prog, m': Machine)
    requires Analyze(items).Fine? && AllGrounded(Analyze(items).value) && RunProgram(items, d, k).Done?
    requires E.m == Cleaned(Analyze(items).value) && Hosts(Analyze(items).value, E, d, m, link)
    ensures EndsWith(E, m, link, m', RunProgram(items, d, k).value.val)
    ensures GRel(p.G, RunProgram(items, d, k).value.globals, m'.g)
  {
    hide Analyze, RunProgram, AllGrounded, Generate, Hosts, EndsWith, GRel, Inline.Returns, Cleaned;
    CleanedReturns(Analyze(items).value);
    p, m' := ImageCorrect(items, E, d, k, m, link);
  }

  lemma MainKnown(E: BodyProof.Env, gs: seq<i32>, d: nat, k: nat)
    requires EnvOk(E) && RunFunc(E.m, "main", [], gs, d, k).Done?
    ensures "main" in E.p
  {
    hide EmitFunc, FuncOk, ValidAllocation, RunBlock;
    assert Compiled(E, "main", FindFunc(E.m.funcs, "main").value);
  }
}
