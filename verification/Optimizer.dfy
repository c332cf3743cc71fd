/**
 * The sound passes of `optimizeIR` in their order, and the optimizing compiler
 * that they make: inlining, dead-code elimination, common subexpressions up to a
 * fixpoint, three hoistings, dead-code elimination, and the back end with `-opt`.
 */
module Optimizer {
  import opened Word32
  import opened IR
  import opened Ast
  import opened Typed
  import opened Sema
  import opened SemaProof
  import opened SemaProgram
  import L = Lower
  import opened LowerShape
  import LowerSim
  import LowerOnce
  import AfterLowering
  import IRGenerator
  import opened Dce
  import opened Cse
  import opened Discipline
  import opened Dominators
  import opened Replacement
  import Hoist
  import opened Inline
  import opened InlineLoops
  import opened Inliner
  import opened Sweeps
  import opened RegAlloc
  import Magic
  import C = CodeGen
  import K = ConstOps
  import BackEnd
  import B = BodyProof
  import RiscV
  import EndToEnd
  import Driver

  // ---- modules between passes ---------------------------------------------------------------

  /** Well-formed functions with distinct names. */
  ghost predicate AllOk(m: Module) {
    && (forall i | 0 <= i < |m.funcs| :: FuncOk(m.funcs[i]))
    && forall i, j | 0 <= i < j < |m.funcs| :: m.funcs[i].name != m.funcs[j].name
  }

  /** Every instruction without side effect has a result that something reads. */
  ghost predicate Lean(m: Module) {
    forall i | 0 <= i < |m.funcs| :: NothingDead(m.funcs[i].blocks, BlocksUses(m.funcs[i].blocks))
  }

  lemma EliminateLean(m: Module)
    ensures Lean(EliminateModule(m))
  {
    hide Eliminate, NothingDead, BlocksUses;
    EndToEnd.MapEliminateAt(m.funcs);
    forall i | 0 <= i < |m.funcs| ensures NothingDead(Eliminate(m.funcs[i]).blocks, BlocksUses(Eliminate(m.funcs[i]).blocks)) {
      EliminateLeavesNothingDead(m.funcs[i]);
    }
  }

  lemma EliminateKeeps(m: Module)
    requires AllOk(m)
    ensures AllOk(EliminateModule(m)) && SameRuns(m, EliminateModule(m)) && |EliminateModule(m).funcs| == |m.funcs|
    ensures ModuleShaped(m) ==> ModuleShaped(EliminateModule(m))
  {
    hide FuncOk, Shaped, Eliminate, RunFunc;
    EndToEnd.MapEliminateAt(m.funcs);
    forall i | 0 <= i < |m.funcs|
      ensures FuncOk(Eliminate(m.funcs[i])) && Eliminate(m.funcs[i]).name == m.funcs[i].name
      ensures Shaped(m.funcs[i]) ==> Shaped(Eliminate(m.funcs[i]))
    {
      EndToEnd.EliminateOk(m.funcs[i]);
      if Shaped(m.funcs[i]) { EliminateShaped(m.funcs[i]); }
    }
    forall name, args, g, d: nat, k: nat ensures Refines(RunFunc(m, name, args, g, d, k), RunFunc(EliminateModule(m), name, args, g, d, k)) {
      EliminateRefines(m, name, args, g, d, k);
    }
    RefinesSameRuns(m, EliminateModule(m));
  }

  lemma CseKeeps(m: Module)
    requires AllOk(m) && ModuleShaped(m)
    ensures forall i | 0 <= i < |m.funcs| :: FuncWritten(m.funcs[i])
    ensures AllOk(CseModule(m)) && ModuleShaped(CseModule(m)) && SameRuns(m, CseModule(m)) && |CseModule(m).funcs| == |m.funcs|
  {
    hide FuncOk, Disciplined, RunFunc, FuncWritten, Blocks;
    forall i | 0 <= i < |m.funcs|
      ensures FuncWritten(m.funcs[i]) && Disciplined(m.funcs[i]) && FuncOk(CseFunc(m.funcs[i])) && Shaped(CseFunc(m.funcs[i]))
    {
      CseShaped(m.funcs[i]);
    }
    assert ModuleDisciplined(m);
    hide Shaped;
    forall name, args, g, d: nat, k: nat ensures Refines(RunFunc(m, name, args, g, d, k), RunFunc(CseModule(m), name, args, g, d, k)) {
      CseRefines(m, name, args, g, d, k);
    }
    RefinesSameRuns(m, CseModule(m));
  }

  // ---- the passes over a module --------------------------------------------------------------

  /** `cse` on every function. */
  method CseAll(m: Module) returns (r: Module, any: bool)
    requires forall i | 0 <= i < |m.funcs| :: FuncWritten(m.funcs[i])
    ensures r == CseModule(m) && (any <==> r != m)
  {
    hide FuncWritten, CseFunc;
    var fs: seq<Func> := [];
    any := false;
    for i := 0 to |m.funcs|
      invariant |fs| == i && forall j | 0 <= j < i :: fs[j] == CseFunc(m.funcs[j])
      invariant any <==> exists j :: 0 <= j < i && fs[j] != m.funcs[j]
    {
      var f, changed := Cse.Cse(m.funcs[i]);
      fs := fs + [f];
      assert changed ==> fs[i] != m.funcs[i];
      any := any || changed;
    }
    assert fs == CseFuncs(m.funcs);
    r := m.(funcs := fs);
    assert any ==> fs != m.funcs;
    if !any { assert fs == m.funcs; }
  }

  /** The rounds of common subexpressions: n of them, or as many as find any. */
  ghost function Rounds(m: Module, n: nat): Module
    decreases n
  {
    if n == 0 || !ModuleWritten(m) || CseModule(m) == m then m else Rounds(EliminateModule(CseModule(m)), n - 1)
  }

  ghost predicate ModuleWritten(m: Module) {
    forall i | 0 <= i < |m.funcs| :: FuncWritten(m.funcs[i])
  }

  /** Common subexpressions and what they leave dead, while something changes, at most twelve times. */
  method CseRounds(m0: Module) returns (m: Module)
    requires AllOk(m0) && ModuleShaped(m0)
    ensures AllOk(m) && ModuleShaped(m) && SameRuns(m0, m) && m == Rounds(m0, 12)
  {
    hide AllOk, ModuleShaped, SameRuns, FuncWritten, CseModule, EliminateModule;
    m := m0;
    SameRunsSelf(m0);
    for iter := 0 to 12
      invariant AllOk(m) && ModuleShaped(m) && SameRuns(m0, m) && Rounds(m, 12 - iter) == Rounds(m0, 12)
    {
      ghost var before := m;
      CseKeeps(m);
      var any;
      m, any := CseAll(m);
      SameRunsTrans(m0, before, m);
      if !any { break; }
      before := m;
      EliminateKeeps(m);
      m := Driver.EliminateAll(m);
      SameRunsTrans(m0, before, m);
    }
  }

  /** Improving one function keeps the runs of the module. */
  lemma ReplaceSameRuns(m: Module, i: nat, r: Func)
    requires i < |m.funcs| && Improves(m.funcs[i], r)
    ensures SameRuns(m, Replace(m, i, r))
  {
    hide RunFunc;
    RefinesSameRuns(m, Replace(m, i, r));
  }

  /** No edge enters an entry block. */
  ghost predicate EntriesFree(m: Module) {
    forall i | 0 <= i < |m.funcs| :: EntryFree(m.funcs[i])
  }

  ghost predicate EntryFree(f: Func) {
    forall p: nat :: !Edge(f, p, 0)
  }

  lemma ShapedFree(m: Module)
    requires ModuleShaped(m)
    ensures EntriesFree(m)
  {
    forall i, p: nat | 0 <= i < |m.funcs| ensures !Edge(m.funcs[i], p, 0) {
      assert Shaped(m.funcs[i]);
    }
  }

  lemma SameFree(f: Func, r: Func)
    requires Hoist.SameGraph(f, r) && EntryFree(f)
    ensures EntryFree(r)
  {
    forall p: nat ensures !Edge(r, p, 0) { assert !Edge(f, p, 0); }
  }

  /** What a hoisting pass leaves: nothing to do in any loop that a jump enters, and the rest as it was. */
  ghost predicate Hoisted(kind: Hoist.Kind, f: Func, r: Func) {
    && (Hoist.AllReachable(f) ==> forall L, u, v | Hoist.Due(f, L, u, v) :: Hoist.NothingLeft(kind, r, L))
    && Hoist.OthersStay(kind, f, r)
  }

  ghost predicate HoistedAll(kind: Hoist.Kind, m: Module, r: Module) {
    |r.funcs| == |m.funcs| && forall i | 0 <= i < |m.funcs| :: Hoisted(kind, m.funcs[i], r.funcs[i])
  }

  /** One hoisting pass on every function. */
  method HoistAll(kind: Hoist.Kind, m0: Module) returns (m: Module)
    requires AllOk(m0) && EntriesFree(m0)
    ensures AllOk(m) && EntriesFree(m) && SameRuns(m0, m) && HoistedAll(kind, m0, m)
  {
    m := m0;
    SameRunsSelf(m0);
    for i := 0 to |m0.funcs|
      invariant AllOk(m) && EntriesFree(m) && SameRuns(m0, m) && |m.funcs| == |m0.funcs|
      invariant forall j | 0 <= j < i :: Hoisted(kind, m0.funcs[j], m.funcs[j])
      invariant forall j | i <= j < |m0.funcs| :: m.funcs[j] == m0.funcs[j]
    {
      ghost var before := m;
      assert EntryFree(m.funcs[i]);
      var r := Hoist.HoistPass(kind, m.funcs[i]);
      assert r.name == m.funcs[i].name;
      assert Hoisted(kind, m0.funcs[i], r);
      hide FuncOk, Improves, SameRuns, Hoist.SameGraph, EntryFree, Hoisted;
      SameFree(m.funcs[i], r);
      ReplaceSameRuns(m, i, r);
      m := Replace(m, i, r);
      SameRunsTrans(m0, before, m);
    }
  }

  /** What the optimizer does, stage by stage. */
  ghost predicate Pipeline(m0: Module, a: Module, b: Module, c: Module, d: Module, e: Module, m: Module) {
    && a == EliminateModule(AfterSweeps(m0, 5)) && b == EliminateModule(Rounds(a, 12))
    && HoistedAll(Hoist.Compares, b, c) && HoistedAll(Hoist.Magics, c, d) && HoistedAll(Hoist.Divisors, d, e)
    && m == EliminateModule(e)
  }

  ghost predicate Optimized(m0: Module, m: Module) {
    exists a, b, c, d, e :: Pipeline(m0, a, b, c, d, e, m)
  }

  /** The optimizer: every run that returns still returns the same, and every run that diverges diverges. */
  method Optimize(m0: Module) returns (m: Module)
    requires ModuleOk(m0) && ModuleShaped(m0)
    ensures AllOk(m) && Lean(m) && SameRuns(m0, m) && Optimized(m0, m)
  {
    hide EliminateModule, HoistedAll, Rounds, AfterSweeps, Optimized, SameRuns, Lean, EntriesFree;
    m := InlineFunctions(m0);
    assert AllOk(m);
    m := Clean(m0, m);
    hide ModuleShaped, AllOk, ModuleOk;
    ghost var s0 := m;
    m := CseRounds(m);
    SameRunsTrans(m0, s0, m);
    m := Clean(m0, m);
    ShapedFree(m);
    ghost var s1 := m;
    m := HoistAll(Hoist.Compares, m);
    SameRunsTrans(m0, s1, m);
    ghost var s2 := m;
    m := HoistAll(Hoist.Magics, m);
    SameRunsTrans(m0, s2, m);
    ghost var s3 := m;
    m := HoistAll(Hoist.Divisors, m);
    SameRunsTrans(m0, s3, m);
    ghost var s4 := m;
    m := Clean(m0, m);
    assert Optimized(m0, m) by { PipelineDone(m0, s0, s1, s2, s3, s4, m); }
  }

  lemma PipelineDone(m0: Module, a: Module, b: Module, c: Module, d: Module, e: Module, m: Module)
    requires Pipeline(m0, a, b, c, d, e, m)
    ensures Optimized(m0, m)
  {
  }

  /** Dead-code elimination as a step of a longer way. */
  method Clean(ghost m0: Module, m: Module) returns (r: Module)
    requires AllOk(m) && SameRuns(m0, m)
    ensures AllOk(r) && Lean(r) && SameRuns(m0, r) && (ModuleShaped(m) ==> ModuleShaped(r)) && r == EliminateModule(m)
  {
    hide AllOk, Lean, ModuleShaped, SameRuns, EliminateModule;
    EliminateKeeps(m);
    EliminateLean(m);
    r := Driver.EliminateAll(m);
    SameRunsTrans(m0, m, r);
  }

  // ---- the optimizing compiler ------------------------------------------------------------------

  lemma LoweredShaped(t: TModule)
    requires forall i | 0 <= i < |t.funcs| :: FuncIn(t.funcs[i])
    requires forall i, j | 0 <= i < j < |t.funcs| :: t.funcs[i].name != t.funcs[j].name
    ensures ModuleOk(L.Generate(t)) && ModuleShaped(L.Generate(t))
  {
    hide FuncIn, L.GenFunc, FuncOk, NoHints, Disciplined, LowerOnce.OneDefinition, FuncWritten;
    EndToEnd.GenFuncsAt(t.funcs);
    forall i | 0 <= i < |t.funcs|
      ensures FuncOk(L.GenFunc(t.funcs[i])) && NoHints(L.GenFunc(t.funcs[i])) && L.GenFunc(t.funcs[i]).name == t.funcs[i].name
      ensures Shaped(L.GenFunc(t.funcs[i]))
    {
      GenFuncWellFormed(t.funcs[i]);
      AfterLowering.FuncHintless(t.funcs[i]);
      LowerSim.NameKept(t.funcs[i]);
      LowerOnce.GenFuncDisciplined(t.funcs[i]);
    }
  }

  /** Compiling the instruction under `-opt` makes the compiler divide by zero. */
  predicate Crashes(i: Inst) {
    i.Bin? && (i.bop.Div? || i.bop.Mod?) && i.b.Imm? && K.Searches(i.bop.Div?, i.b.imm)
    && !(Magic.SignedSearchDefined(i.b.imm) && Magic.UnsignedSearchDefined(i.b.imm))
  }

  ghost predicate NoCrash(f: Func) {
    forall b, k | 0 <= b < |f.blocks| && 0 <= k < |f.blocks[b].insts| :: !Crashes(f.blocks[b].insts[k])
  }

  /** Whether the back end gets through the function. */
  method CheckDivisors(f: Func) returns (ok: bool)
    ensures ok <==> NoCrash(f)
  {
    hide Crashes;
    for b := 0 to |f.blocks|
      invariant forall c, k | 0 <= c < b && 0 <= k < |f.blocks[c].insts| :: !Crashes(f.blocks[c].insts[k])
    {
      for j := 0 to |f.blocks[b].insts|
        invariant forall k | 0 <= k < j :: !Crashes(f.blocks[b].insts[k])
      {
        if Crashes(f.blocks[b].insts[j]) { return false; }
      }
    }
    ok := true;
  }

  /** The back end gets through exactly the functions without a remainder by 0. */
  lemma NoCrashIn(g: BackEnd.OptCodeGen, f: Func)
    requires g.opt
    ensures NoCrash(f) <==> g.FuncIn(f)
  {
    hide Magic.SignedSearchDefined, K.Searches;
    forall b, k | 0 <= b < |f.blocks| && 0 <= k < |f.blocks[b].insts|
      ensures Crashes(f.blocks[b].insts[k]) <==> !g.Divisible(f.blocks[b].insts[k])
    {
      var i := f.blocks[b].insts[k];
      if i.Bin? && i.b.Imm? { K.SearchSafeIff(i.bop.Div?, i.b.imm); }
    }
  }

  datatype Outcome = Code(image: B.Env) | DivisionByZero

  /** The back end with `-opt`. */
  method EmitOptimized(m: Module) returns (E: B.Env)
    requires AllOk(m) && forall i | 0 <= i < |m.funcs| :: NoCrash(m.funcs[i])
    ensures E.m == m && E.opt && Driver.Built(E)
  {
    hide FuncOk, BackEnd.Emitted, C.FrameOf, NoCrash;
    var back := new BackEnd.OptCodeGen(true);
    forall i | 0 <= i < |m.funcs| ensures back.FuncIn(m.funcs[i]) { NoCrashIn(back, m.funcs[i]); }
    var p, alloc := back.Run(m);
    var size := Driver.MaxFrame(m, p, alloc, true);
    E := B.Env(m, p, alloc, true, size);
  }

  /** The image of m, or a failure exactly if some function of m divides by zero at compile time. */
  ghost predicate Delivered(r: Outcome, m: Module) {
    && (r.DivisionByZero? <==> exists i :: 0 <= i < |m.funcs| && !NoCrash(m.funcs[i]))
    && (r.Code? ==> r.image.m == m && r.image.opt && Driver.Built(r.image))
  }

  method Deliver(m: Module) returns (r: Outcome)
    requires AllOk(m)
    ensures Delivered(r, m)
  {
    hide AllOk, NoCrash, Driver.Built;
    for i := 0 to |m.funcs|
      invariant forall j | 0 <= j < i :: NoCrash(m.funcs[j])
    {
      var ok := CheckDivisors(m.funcs[i]);
      if !ok { return DivisionByZero; }
    }
    var E := EmitOptimized(m);
    r := Code(E);
  }

  /** The compiler with `-opt`, from the annotated program to the image. */
  method CompileOptimized(t: TModule) returns (r: Outcome, m: Module)
    requires forall i | 0 <= i < |t.funcs| :: FuncIn(t.funcs[i])
    requires forall i, j | 0 <= i < j < |t.funcs| :: t.funcs[i].name != t.funcs[j].name
    ensures SameRuns(L.Generate(t), m) && Lean(m) && Optimized(L.Generate(t), m)
    ensures Delivered(r, m)
  {
    hide FuncIn, ModuleOk, ModuleShaped, SameRuns, Lean, NoCrash, Optimized, AllOk, L.Generate, Delivered;
    LoweredShaped(t);
    var gen := new IRGenerator.IRGen();
    var low := gen.Generate(t);
    var opt := Optimize(low);
    m := opt;
    r := Deliver(opt);
  }

  /**
   * The optimizing compiler is correct: what the source program ends with, its
   * optimized image ends with.
   */
  lemma OptimizedCorrect(items: seq<Item>, E: B.Env, d: nat, k: nat, m: RiscV.Machine, link: i32) returns (p: Prog, m': RiscV.Machine)
    requires Analyze(items).Fine? && EndToEnd.AllGrounded(Analyze(items).value) && RunProgram(items, d, k).Done?
    requires SameRuns(L.Generate(Analyze(items).value), E.m) && Driver.Built(E) && Driver.FramesFit(E)
    requires m.g == Inits(Analyze(items).value.globals) && m.r[RiscV.RA] == link
    requires U(m.r[RiscV.SP]) % 16 == 0 && U(m.r[RiscV.SP]) >= (d + 1) * E.maxFrame
    ensures EndToEnd.EndsWith(E, m, link, m', RunProgram(items, d, k).value.val)
    ensures GRel(p.G, RunProgram(items, d, k).value.globals, m'.g)
  {
    hide Analyze, RunProgram, EndToEnd.AllGrounded, L.Generate, EndToEnd.Hosts, EndToEnd.EndsWith, GRel, Returns, KeepsLoops, Driver.Built, Driver.FramesFit, Inits;
    Driver.ImageHosted(Analyze(items).value, E, d, m, link);
    p, m' := EndToEnd.ImageCorrect(items, E, d, k, m, link);
  }
}
