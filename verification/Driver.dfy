/** The whole compiler without `-opt`, from tokens to machine code, as its objects run it. */
module Driver {
  import opened Word32
  import opened IR
  import opened Ast
  import opened Typed
  import opened Parse
  import ParserClass
  import G = Grammar
  import S = Sema
  import W = WellFormed
  import opened SemaProgram
  import opened Grounding
  import Analyzer
  import L = Lower
  import IRGenerator
  import opened Dce
  import opened RegAlloc
  import C = CodeGen
  import BackEnd
  import B = BodyProof
  import EntryExit
  import opened EndToEnd
  import RiscV

  /** `NoRegister`: the lowered code uses a symbol that lowering never gives a register. */
  datatype Outcome = Code(image: B.Env) | SyntaxError | SemanticError(error: S.Error) | NoRegister

  /** Every function is in the image as the back end emits it, within the frame bound. */
  ghost predicate Built(E: B.Env) {
    forall i | 0 <= i < |E.m.funcs| ::
      && FuncOk(E.m.funcs[i]) && BackEnd.Emitted(E.m.funcs[i], E.p, E.alloc, E.opt)
      && C.FrameOf(E.m.funcs[i], E.alloc[E.m.funcs[i].name], E.opt).Size() <= E.maxFrame
  }

  /** No frame reaches half the address space, and no large offset endangers an eighth argument. */
  ghost predicate FramesFit(E: B.Env) {
    forall i | 0 <= i < |E.m.funcs| && E.m.funcs[i].name in E.alloc ::
      var f := E.m.funcs[i];
      var fr := C.FrameOf(f, E.alloc[f.name], E.opt);
      fr.Size() + 4 * |f.params| < TWO31 && EntryExit.A7Intact(fr, f.params)
  }

  lemma {:induction false} FindAt(fs: seq<Func>, name: string)
    requires FindFunc(fs, name).Some?
    ensures exists i :: 0 <= i < |fs| && FindFunc(fs, name) == Some(fs[i]) && fs[i].name == name
  {
    if fs[0].name != name {
      FindAt(fs[1..], name);
      var i :| 0 <= i < |fs[1..]| && FindFunc(fs[1..], name) == Some(fs[1..][i]) && fs[1..][i].name == name;
      assert fs[1..][i] == fs[i + 1];
    }
  }

  lemma BuiltOk(E: B.Env)
    requires Built(E) && FramesFit(E)
    ensures B.EnvOk(E)
  {
    hide FuncOk, ValidAllocation, Frugal, C.EmitFunc, EntryExit.A7Intact, C.FrameOf;
    forall name | FindFunc(E.m.funcs, name).Some? ensures B.Compiled(E, name, FindFunc(E.m.funcs, name).value) {
      FindAt(E.m.funcs, name);
      var i :| 0 <= i < |E.m.funcs| && FindFunc(E.m.funcs, name) == Some(E.m.funcs[i]) && E.m.funcs[i].name == name;
    }
  }

  /** `deadCodeElim` on every function. */
  method EliminateAll(m: Module) returns (r: Module)
    ensures r == EliminateModule(m)
  {
    hide Eliminate;
    var fs: seq<Func> := [];
    for i := 0 to |m.funcs|
      invariant fs + MapEliminate(m.funcs[i..]) == MapEliminate(m.funcs)
    {
      var f := DeadCodeElim(m.funcs[i]);
      fs := fs + [f];
      assert m.funcs[i..][1..] == m.funcs[i + 1..];
    }
    r := m.(funcs := fs);
  }

  /** The largest frame of the emitted functions. */
  method MaxFrame(m: Module, p: RiscV.Program, alloc: map<string, Allocation>, opt: bool) returns (size: nat)
    requires forall i | 0 <= i < |m.funcs| :: BackEnd.Emitted(m.funcs[i], p, alloc, opt)
    ensures forall i | 0 <= i < |m.funcs| ::
              m.funcs[i].name in alloc && C.FrameOf(m.funcs[i], alloc[m.funcs[i].name], opt).Size() <= size
  {
    hide C.FrameOf, ValidAllocation, Frugal, C.EmitFunc;
    size := 0;
    for i := 0 to |m.funcs|
      invariant forall j | 0 <= j < i ::
                  m.funcs[j].name in alloc && C.FrameOf(m.funcs[j], alloc[m.funcs[j].name], opt).Size() <= size
    {
      var f := m.funcs[i];
      assert BackEnd.Emitted(f, p, alloc, opt);
      var n := C.FrameOf(f, alloc[f.name], opt).Size();
      if n > size { size := n; }
    }
  }

  lemma NamesDistinct(t: TModule)
    requires forall i | 0 <= i < |t.funcs| :: FuncIn(t.funcs[i])
    requires forall i, j | 0 <= i < j < |t.funcs| :: t.funcs[i].name != t.funcs[j].name
    ensures var m := Cleaned(t);
            && (forall i | 0 <= i < |m.funcs| :: FuncOk(m.funcs[i]))
            && (forall i, j | 0 <= i < j < |m.funcs| :: m.funcs[i].name != m.funcs[j].name)
  {
    hide FuncIn, FuncOk, Cleaned;
    CleanedOk(t);
  }

  /** From the annotated program to the image. */
  method CompileTyped(t: TModule) returns (E: B.Env)
    requires forall i | 0 <= i < |t.funcs| :: FuncIn(t.funcs[i])
    requires forall i, j | 0 <= i < j < |t.funcs| :: t.funcs[i].name != t.funcs[j].name
    ensures E.m == Cleaned(t) && Built(E) && !E.opt
  {
    hide FuncIn, FuncOk, BackEnd.Emitted, C.FrameOf, L.Generate, EliminateModule;
    var gen := new IRGenerator.IRGen();
    var m := gen.Generate(t);
    m := EliminateAll(m);
    m := EliminateAll(m);
    NamesDistinct(t);
    assert m == Cleaned(t);
    var back := new BackEnd.OptCodeGen(false);
    var p, alloc := back.Run(m);
    var size := MaxFrame(m, p, alloc, false);
    E := B.Env(m, p, alloc, false, size);
  }

  /** Whether every function of the program can be lowered. */
  method CheckGrounded(t: TModule) returns (ok: bool)
    ensures ok <==> AllGrounded(t)
  {
    hide Grounded;
    for i := 0 to |t.funcs|
      invariant forall j | 0 <= j < i :: Grounded(t.funcs[j])
    {
      if !Grounded(t.funcs[i]) { return false; }
    }
    ok := true;
  }

  /** Parse, analyze, lower, clean up, allocate and emit. */
  method Compile(toks: seq<Token>) returns (r: Outcome)
    requires Ends(toks)
    ensures r.SyntaxError? <==> !exists items :: G.IsProgram(toks, 0, items)
    ensures r.SyntaxError? <==> ParseModule(toks, 0).Failed?
    ensures ParseModule(toks, 0).Got? ==>
              match S.Analyze(ParseModule(toks, 0).value)
              case Bad(x) => r == SemanticError(x)
              case Fine(t) =>
                && (r.NoRegister? <==> !AllGrounded(t))
                && (AllGrounded(t) ==> r.Code? && r.image.m == Cleaned(t) && Built(r.image) && !r.image.opt)
    ensures ParseModule(toks, 0).Got? ==>
              && (r.SemanticError? <==> !W.WellFormedProgram(ParseModule(toks, 0).value))
              && (r.SemanticError? ==> W.Fault(r.error, ParseModule(toks, 0).value))
  {
    hide ParseModule, S.Analyze, W.WellFormedProgram, W.Fault, G.IsProgram, Cleaned, Built, Grounded, FuncIn, L.GenBody;
    var parser := new ParserClass.Parser(toks);
    var items := parser.ParseProgram();
    G.ProgramParsed(toks, 0);
    if items.None? { return SyntaxError; }
    var sema := new Analyzer.Sema();
    var t := sema.Analyze(items.value);
    if t.Bad? { return SemanticError(t.error); }
    var ok := CheckGrounded(t.value);
    if !ok { return NoRegister; }
    AnalyzedReady(items.value);
    var E := CompileTyped(t.value);
    r := Code(E);
  }

  /** The image that the compiler delivers is one of which the correctness theorem speaks. */
  lemma ImageHosted(t: TModule, E: B.Env, d: nat, m: RiscV.Machine, link: i32)
    requires Built(E) && FramesFit(E)
    requires m.g == Inits(t.globals) && m.r[RiscV.RA] == link
    requires U(m.r[RiscV.SP]) % 16 == 0 && U(m.r[RiscV.SP]) >= (d + 1) * E.maxFrame
    ensures Hosts(t, E, d, m, link)
  {
    hide Built, FramesFit, B.EnvOk, Inits;
    BuiltOk(E);
  }
}
