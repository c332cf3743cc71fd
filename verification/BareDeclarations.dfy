/**
 * Declarations that stand directly under `if`, without a block.  The grammar and
 * the analyzer accept them; these programs show what they then mean.
 */
module BareDeclarations {
  import opened Word32
  import opened IR
  import opened Ast
  import opened Typed
  import opened Sema
  import opened Lower
  import opened Grounding
  import opened EndToEnd

  /** `int name = n;` */
  function IntDecl(name: string, n: i32): Stmt {
    VarDecl(false, name, Number(n))
  }

  /** `int c = 0; int x = v; if (c) int x = w; return x;`, with or without braces around the branch. */
  function Hiding(c: string, x: string, v: i32, w: i32, braces: bool): List<Stmt> {
    var inner := if braces then Compound(Cons(IntDecl(x, w), Nil)) else IntDecl(x, w);
    Cons(IntDecl(c, 0), Cons(IntDecl(x, v), Cons(If(Var(c), inner, None), Cons(Return(Some(Var(x))), Nil))))
  }

  /** `if (0) int x = v; x = w; return x;` */
  function Ruled(x: string, v: i32, w: i32): List<Stmt> {
    Cons(If(Number(0), IntDecl(x, v), None), Cons(Assign(x, Number(w)), Cons(Return(Some(Var(x))), Nil)))
  }

  /** A program that is only `main`. */
  function Program(body: List<Stmt>): seq<Item> {
    [FuncItem(MainOf(body)[0])]
  }

  function MainOf(body: List<Stmt>): seq<FuncDef> {
    [FuncDef(false, "main", [], body)]
  }

  // ---- the parts of a run and of an analysis ----------------------------------------------------

  lemma AnalyzeMain(body: List<Stmt>, ts: List<TStmt>, b: Ana)
    requires AnalyzeList(Ana([map[], map[], map[]], 0, 0), MainOf(body), body) == Fine((ts, b))
    ensures Analyze(Program(body)) == Fine(TModule([], [TFunc(false, "main", [], ts)]))
  {
    hide AnalyzeList;
    var fs, items, a0 := MainOf(body), Program(body), Ana([map[]], 0, 0);
    var g0, g := Globals(map[], [], [], 0), Globals(map[], [], fs, 0);
    assert [] + fs == fs && items[1..] == [] && fs[1..] == [];
    assert AnalyzeItem(g0, items[0]) == Fine(g);
    assert AnalyzeItems(g, items[1..]) == Fine(g);
    assert AnalyzeItems(g0, items) == Fine(g);
    assert PushScope(DeclareParams(PushScope(a0), [])).scopes == [map[], map[], map[]] && ParamIds(0, 0) == [];
    var a1 := AnalyzeFunc(a0, fs, fs[0]).value.1;
    assert AnalyzeFunc(a0, fs, fs[0]) == Fine((TFunc(false, "main", [], ts), a1));
    assert AnalyzeFuncs(a1, fs, fs[1..]) == Fine([]);
    var t := TFunc(false, "main", [], ts);
    assert [t] + [] == [t];
    assert AnalyzeFuncs(a0, fs, fs) == Fine([t]);
    assert FindDef(fs, "main") == Some(fs[0]);
  }

  lemma ConsAnalyzed(a: Ana, fs: seq<FuncDef>, s: Stmt, rest: List<Stmt>, t: TStmt, b: Ana, ts: List<TStmt>, c: Ana)
    requires AnalyzeStmt(a, fs, s) == Fine((t, b)) && AnalyzeList(b, fs, rest) == Fine((ts, c))
    ensures AnalyzeList(a, fs, Cons(s, rest)) == Fine((Cons(t, ts), c))
  {
    hide AnalyzeStmt;
  }

  lemma DeclAnalyzed(a: Ana, fs: seq<FuncDef>, x: string, n: i32) returns (t: TStmt, b: Ana)
    ensures t == TVarDecl(false, a.count, TExpr(Some(n), TNumber(n))) && b == Declared1(a, x, LocalVar(a.count))
    ensures AnalyzeStmt(a, fs, IntDecl(x, n)) == Fine((t, b))
    ensures a.scopes != [] ==> LookupSym(b.scopes, x) == Some(LocalVar(a.count))
    ensures forall y | a.scopes != [] && LookupSym(a.scopes, y).Some? :: LookupSym(b.scopes, y).Some?
  {
    t, b := TVarDecl(false, a.count, TExpr(Some(n), TNumber(n))), Declared1(a, x, LocalVar(a.count));
    var k := |a.scopes| - 1;
    if k >= 0 { assert b.scopes[..k] == a.scopes[..k]; }
  }

  lemma ReturnAnalyzed(a: Ana, fs: seq<FuncDef>, x: string, sym: Sym)
    requires LookupSym(a.scopes, x) == Some(sym)
    ensures var t := TReturn(Some(TExpr(if sym.ConstSym? then Some(sym.constValue) else None, TVar(sym))));
            AnalyzeList(a, fs, Cons(Return(Some(Var(x))), Nil)) == Fine((Cons(t, Nil), a))
  {
    assert AnalyzeList(a, fs, Nil) == Fine((Nil, a));
    hide LookupSym;
  }

  lemma RunMain(body: List<Stmt>, d: nat, k: nat, r: Outcome<After>)
    requires r == ExecList(MainOf(body), body, Env([], map[]), d, k)
    ensures r.Undef? ==> RunProgram(Program(body), d, k) == Undef
    ensures r.Done? && r.value.flow.Returned? ==>
              RunProgram(Program(body), d, k) == Done(Answer(r.value.flow.val, r.value.env.globals))
  {
    hide ExecList;
    var fs, items := MainOf(body), Program(body);
    assert items[1..] == [] && FuncsOf(items) == fs && ParamVars([], []) == [];
    assert InitGlobals(fs, items, map[]) == InitGlobals(fs, items[1..], map[]);
    assert FindDef(fs, "main") == Some(fs[0]);
  }

  lemma ConsRuns(fs: seq<FuncDef>, s: Stmt, rest: List<Stmt>, e: Env, e1: Env, d: nat, k: nat)
    requires Exec(fs, s, e, d, k) == Done(After(Next, e1))
    ensures ExecList(fs, Cons(s, rest), e, d, k) == ExecList(fs, rest, e1, d, k)
  {
    hide Exec;
  }

  lemma DeclRuns(fs: seq<FuncDef>, x: string, n: i32, e: Env, d: nat, k: nat)
    ensures Exec(fs, IntDecl(x, n), e, d, k) == Done(After(Next, Declare(e, x, Some(n))))
  {
    assert e.(globals := e.globals) == e;
  }

  /** `return x;` */
  lemma ReturnRuns(fs: seq<FuncDef>, x: string, e: Env, d: nat, k: nat)
    ensures ExecList(fs, Cons(Return(Some(Var(x))), Nil), e, d, k) ==
            if Lookup(e, x).None? then Undef else Done(After(Returned(Lookup(e, x)), e))
  {
    hide Lookup;
    assert e.(globals := e.globals) == e;
    var s := Return(Some(Var(x)));
    assert Eval(fs, Var(x), e, d, k) == if Lookup(e, x).None? then Undef else Done(Answer(Lookup(e, x), e.globals));
    assert Exec(fs, s, e, d, k) == if Lookup(e, x).None? then Undef else Done(After(Returned(Lookup(e, x)), e));
  }

  // ---- the two programs ---------------------------------------------------------------------------

  /**
   * With braces the outer `x` is returned.  Without them the branch declares `x` in
   * the block around it although it is not executed, the `return` means that `x`,
   * and the program has no defined result.  Analysis accepts both.
   */
  lemma BareBranchHides(c: string, x: string, v: i32, w: i32, braces: bool, d: nat, k: nat)
    requires c != x
    ensures Analyze(Program(Hiding(c, x, v, w, braces))).Fine?
    ensures RunProgram(Program(Hiding(c, x, v, w, braces)), d, k) == if braces then Done(Answer(Some(v), map[])) else Undef
  {
    hide Analyze, RunProgram, Hiding, Program;
    AnalyzeHiding(c, x, v, w, braces);
    RunHiding(c, x, v, w, braces, d, k);
  }

  lemma BranchAnalyzed(a: Ana, fs: seq<FuncDef>, c: string, x: string, w: i32, braces: bool) returns (t: TStmt, b: Ana)
    requires a.scopes != [] && LookupSym(a.scopes, c).Some? && LookupSym(a.scopes, x).Some?
    ensures var inner := if braces then Compound(Cons(IntDecl(x, w), Nil)) else IntDecl(x, w);
            AnalyzeStmt(a, fs, If(Var(c), inner, None)) == Fine((t, b))
    ensures LookupSym(b.scopes, x).Some?
  {
    var t3, a3 := DeclAnalyzed(if braces then PushScope(a) else a, fs, x, w);
    var inner := if braces then Compound(Cons(IntDecl(x, w), Nil)) else IntDecl(x, w);
    b := if braces then PopScope(a3) else a3;
    assert AnalyzeList(a3, fs, Nil) == Fine((Nil, a3));
    if braces { ConsAnalyzed(PushScope(a), fs, IntDecl(x, w), Nil, t3, a3, Nil, a3); }
    t := TIf(AnalyzeExpr(a.scopes, fs, Var(c)).value, if braces then TBlock(Cons(t3, Nil)) else t3, None);
    assert braces ==> b.scopes == a.scopes;
    assert AnalyzeStmt(a, fs, inner) == Fine((t.then_, b));
  }

  lemma AnalyzeHiding(c: string, x: string, v: i32, w: i32, braces: bool)
    ensures Analyze(Program(Hiding(c, x, v, w, braces))).Fine?
  {
    var body := Hiding(c, x, v, w, braces);
    hide LookupSym, Declared1, AnalyzeStmt, Analyze, Program;
    var fs, a0 := MainOf(body), Ana([map[], map[], map[]], 0, 0);
    var t1, a1 := DeclAnalyzed(a0, fs, c, 0);
    assert a1.scopes != [] by { DeclaredScopes(a0, c, LocalVar(a0.count)); }
    var t2, a2 := DeclAnalyzed(a1, fs, x, v);
    assert a2.scopes != [] by { DeclaredScopes(a1, x, LocalVar(a1.count)); }
    var t3, b := BranchAnalyzed(a2, fs, c, x, w, braces);
    ReturnAnalyzed(b, fs, x, LookupSym(b.scopes, x).value);
    var tail := body.tail.tail;
    var (ts, e) := AnalyzeList(b, fs, tail.tail).value;
    ConsAnalyzed(a2, fs, tail.head, tail.tail, t3, b, ts, e);
    ConsAnalyzed(a1, fs, IntDecl(x, v), tail, t2, a2, Cons(t3, ts), e);
    ConsAnalyzed(a0, fs, IntDecl(c, 0), body.tail, t1, a1, Cons(t2, Cons(t3, ts)), e);
    AnalyzeMain(body, Cons(t1, Cons(t2, Cons(t3, ts))), e);
  }

  lemma DeclaredScopes(a: Ana, x: string, sym: Sym)
    ensures |Declared1(a, x, sym).scopes| == |a.scopes|
  {
  }

  lemma RunHiding(c: string, x: string, v: i32, w: i32, braces: bool, d: nat, k: nat)
    requires c != x
    ensures RunProgram(Program(Hiding(c, x, v, w, braces)), d, k) == if braces then Done(Answer(Some(v), map[])) else Undef
  {
    var body := Hiding(c, x, v, w, braces);
    var fs, e0, s := MainOf(body), Env([], map[]), body.tail.tail.head;
    var e1 := Declare(e0, c, Some(0));
    var e2 := Declare(e1, x, Some(v));
    var e3 := if braces then e2 else Declare(e2, x, None);
    assert e2.vars[..1] == e1.vars && e1.vars == [Variable(c, Some(0))];
    assert LastOf(e2.vars, c) == 0 && LastOf(e2.vars, x) == 1;
    assert Lookup(e2, c) == Some(0) && Lookup(e3, x) == if braces then Some(v) else None;
    assert Eval(fs, Var(c), e2, d, k) == Done(Answer(Some(0), e2.globals));
    assert e2.(globals := e2.globals) == e2;
    assert Exec(fs, s, e2, d, k) == Done(After(Next, e3));
    DeclRuns(fs, c, 0, e0, d, k);
    DeclRuns(fs, x, v, e1, d, k);
    ConsRuns(fs, IntDecl(c, 0), body.tail, e0, e1, d, k);
    ConsRuns(fs, IntDecl(x, v), body.tail.tail, e1, e2, d, k);
    ConsRuns(fs, s, body.tail.tail.tail, e2, e3, d, k);
    ReturnRuns(fs, x, e3, d, k);
    RunMain(body, d, k, ExecList(fs, body, e0, d, k));
  }

  /**
   * The program returns w, and analysis accepts it; but the declaration of `x` is
   * never lowered, so the symbol that the assignment means has no register.
   */
  lemma RuledOutBranchFails(x: string, v: i32, w: i32, d: nat, k: nat)
    ensures Analyze(Program(Ruled(x, v, w))).Fine?
    ensures RunProgram(Program(Ruled(x, v, w)), d, k) == Done(Answer(Some(w), map[]))
    ensures var t := Analyze(Program(Ruled(x, v, w))).value;
            !AllGrounded(t) && |t.funcs| == 1 && exists id :: id in ListUses(t.funcs[0].body) && id !in GenBody(t.funcs[0]).ir
  {
    hide GenBody, Analyze, RunProgram, Program, Ruled, Grounded, ListUses;
    RunRuled(x, v, w, d, k);
    var ts := AnalyzeRuled(x, v, w);
    NeverRegistered(ts, v, w);
    assert TModule([], [TFunc(false, "main", [], ts)]).funcs[0] == TFunc(false, "main", [], ts);
  }

  lemma NeverRegistered(ts: List<TStmt>, v: i32, w: i32)
    requires ts == Cons(TIf(TExpr(Some(0), TNumber(0)), TVarDecl(false, 0, TExpr(Some(v), TNumber(v))), None),
                        Cons(TAssign(LocalVar(0), TExpr(Some(w), TNumber(w))),
                             Cons(TReturn(Some(TExpr(None, TVar(LocalVar(0))))), Nil)))
    ensures var f := TFunc(false, "main", [], ts);
            !Grounded(f) && 0 in ListUses(f.body) && 0 !in GenBody(f).ir
  {
    hide GenBody;
    GenBodyIr(TFunc(false, "main", [], ts));
    assert 0 in StmtUses(ts.tail.head) && 0 in ListUses(ts.tail) && 0 in Lost(ts.head);
    assert DeclsList(ts.tail.tail) == {} && DeclsList(ts.tail) == {} && DeclsList(ts) == {};
  }

  lemma AnalyzeRuled(x: string, v: i32, w: i32) returns (ts: List<TStmt>)
    ensures Analyze(Program(Ruled(x, v, w))) == Fine(TModule([], [TFunc(false, "main", [], ts)]))
    ensures ts == Cons(TIf(TExpr(Some(0), TNumber(0)), TVarDecl(false, 0, TExpr(Some(v), TNumber(v))), None),
                       Cons(TAssign(LocalVar(0), TExpr(Some(w), TNumber(w))),
                            Cons(TReturn(Some(TExpr(None, TVar(LocalVar(0))))), Nil)))
  {
    var body := Ruled(x, v, w);
    var fs, a0 := MainOf(body), Ana([map[], map[], map[]], 0, 0);
    var t, a1 := DeclAnalyzed(a0, fs, x, v);
    hide Declared1;
    var t1, t2 := TIf(TExpr(Some(0), TNumber(0)), t, None), TAssign(LocalVar(0), TExpr(Some(w), TNumber(w)));
    assert AnalyzeStmt(a0, fs, body.head) == Fine((t1, a1));
    assert AnalyzeStmt(a1, fs, body.tail.head) == Fine((t2, a1));
    hide LookupSym;
    ReturnAnalyzed(a1, fs, x, LocalVar(0));
    var (ts3, e) := AnalyzeList(a1, fs, body.tail.tail).value;
    ConsAnalyzed(a1, fs, body.tail.head, body.tail.tail, t2, a1, ts3, e);
    ConsAnalyzed(a0, fs, body.head, body.tail, t1, a1, Cons(t2, ts3), e);
    ts := Cons(t1, Cons(t2, ts3));
    AnalyzeMain(body, ts, e);
  }

  lemma RunRuled(x: string, v: i32, w: i32, d: nat, k: nat)
    ensures RunProgram(Program(Ruled(x, v, w)), d, k) == Done(Answer(Some(w), map[]))
  {
    var body := Ruled(x, v, w);
    var fs, e0 := MainOf(body), Env([], map[]);
    var e1, e2 := Declare(e0, x, None), Declare(e0, x, Some(w));
    assert e1.vars == [Variable(x, None)] && e2.vars == [Variable(x, Some(w))] && LastOf(e1.vars, x) == 0 == LastOf(e2.vars, x);
    assert e0.(globals := e0.globals) == e0 && e1.(globals := e1.globals) == e1;
    assert Eval(fs, Number(0), e0, d, k) == Done(Answer(Some(0), e0.globals));
    assert Exec(fs, body.head, e0, d, k) == Done(After(Next, e1));
    assert e1.vars[0 := Variable(x, Some(w))] == e2.vars;
    assert AssignTo(e1, x, w) == Some(e2) && Lookup(e2, x) == Some(w);
    assert Exec(fs, body.tail.head, e1, d, k) == Done(After(Next, e2));
    ConsRuns(fs, body.head, body.tail, e0, e1, d, k);
    ConsRuns(fs, body.tail.head, body.tail.tail, e1, e2, d, k);
    ReturnRuns(fs, x, e2, d, k);
    RunMain(body, d, k, ExecList(fs, body, e0, d, k));
  }
}
