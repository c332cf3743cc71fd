/** Analysis of whole programs: what it delivers to lowering, and that it keeps the program's meaning. */
module SemaProgram {
  import opened Word32
  import opened IR
  import opened Ast
  import opened Typed
  import opened Sema
  import opened SemaProof
  import opened Lower
  import opened Grounding

  // ---- the annotated tree is ready for lowering -----------------------------------------------

  /** The global scope has no locals. */
  ghost predicate GlobalsOnly(G: SymScope) {
    forall n | n in G :: !G[n].LocalVar?
  }

  /** Every local that was declared is one of `ids`. */
  ghost predicate Visible(E: seq<Named>, ids: set<nat>) {
    forall i | 0 <= i < |E| && E[i].sym.LocalVar? :: E[i].sym.id in ids
  }

  /** Names resolve to globals and to locals among `ids`. */
  ghost predicate Sees(S: seq<SymScope>, E: seq<Named>, ids: set<nat>) {
    Scoped(S, E) && GlobalsOnly(S[0]) && Visible(E, ids)
  }

  lemma LookupVisible(S: seq<SymScope>, E: seq<Named>, ids: set<nat>, name: string)
    requires Sees(S, E, ids) && LookupSym(S, name).Some? && LookupSym(S, name).value.LocalVar?
    ensures LookupSym(S, name).value.id in ids
  {
    assert LookupSym(S, name) == Meaning(S[0], E, name);
  }

  /** An expression that uses no lost local uses locals with registers only. */
  lemma {:induction false} ExprReady(S: seq<SymScope>, fs: seq<FuncDef>, e: Expr, E: seq<Named>, ids: set<nat>, lost: set<nat>)
    requires Sees(S, E, ids + lost) && AnalyzeExpr(S, fs, e).Fine? && ExprUses(AnalyzeExpr(S, fs, e).value) !! lost
    ensures ExprIn(AnalyzeExpr(S, fs, e).value, ids)
    decreases e
  {
    hide Sees, FoldBin;
    match e
    case Number(_) =>
    case Var(name) => if LookupSym(S, name).value.LocalVar? { LookupVisible(S, E, ids + lost, name); }
    case Binary(_, l, r) =>
      if AnalyzeExpr(S, fs, e).value.mark.None? {
        ExprReady(S, fs, l, E, ids, lost);
        ExprReady(S, fs, r, E, ids, lost);
      }
    case Logical(_, l, r) =>
      if AnalyzeExpr(S, fs, e).value.mark.None? {
        ExprReady(S, fs, l, E, ids, lost);
        ExprReady(S, fs, r, E, ids, lost);
      }
    case Unary(_, a) => if AnalyzeExpr(S, fs, e).value.mark.None? { ExprReady(S, fs, a, E, ids, lost); }
    case CallExpr(_, args) => ArgsReady(S, fs, args, E, ids, lost);
  }

  lemma {:induction false} ArgsReady(S: seq<SymScope>, fs: seq<FuncDef>, es: List<Expr>, E: seq<Named>, ids: set<nat>, lost: set<nat>)
    requires Sees(S, E, ids + lost) && AnalyzeArgs(S, fs, es).Fine? && CallUses(AnalyzeArgs(S, fs, es).value) !! lost
    ensures Typed.ArgsIn(AnalyzeArgs(S, fs, es).value, ids)
    decreases es
  {
    hide Sees;
    if es.Cons? {
      ExprReady(S, fs, es.head, E, ids, lost);
      ArgsReady(S, fs, es.tail, E, ids, lost);
    }
  }

  /** All numbers are from lo on and below hi. */
  ghost predicate Among(ids: set<nat>, lo: nat, hi: nat) {
    forall x | x in ids :: lo <= x < hi
  }

  /** A statement's symbols are numbered in order, and those with and without a register differ. */
  ghost predicate Numbered(decls: set<nat>, lost: set<nat>, lo: nat, hi: nat) {
    lo <= hi && Among(decls, lo, hi) && Among(lost, lo, hi) && decls !! lost
  }

  lemma {:induction false} StmtNumbers(a: Ana, fs: seq<FuncDef>, s: Stmt)
    requires AnalyzeStmt(a, fs, s).Fine?
    ensures var (t, b) := AnalyzeStmt(a, fs, s).value;
            && Numbered(Decls(t), Lost(t), a.count, b.count) && Among(Bares(t), a.count, b.count)
            && NextId(t, a.count) == b.count && Visible(Added(a, fs, s), Bares(t))
    decreases s
  {
    hide AnalyzeExpr;
    match s
    case Compound(ss) => ListNumbers(PushScope(a), fs, ss);
    case If(_, _, _) => IfNumbers(a, fs, s);
    case While(_, b) => StmtNumbers(a.(loopDepth := a.loopDepth + 1), fs, b);
    case _ =>
  }

  lemma {:induction false} IfNumbers(a: Ana, fs: seq<FuncDef>, s: Stmt)
    requires AnalyzeStmt(a, fs, s).Fine? && s.If?
    ensures var (t, b) := AnalyzeStmt(a, fs, s).value;
            && Numbered(Decls(t), Lost(t), a.count, b.count) && Among(Bares(t), a.count, b.count)
            && NextId(t, a.count) == b.count && Visible(Added(a, fs, s), Bares(t))
    decreases s, 0
  {
    hide AnalyzeExpr, Visible;
    StmtNumbers(a, fs, s.then_);
    var (tt, a1) := AnalyzeStmt(a, fs, s.then_).value;
    if s.else_.Some? {
      StmtNumbers(a1, fs, s.else_.value);
      var (te, a2) := AnalyzeStmt(a1, fs, s.else_.value).value;
      BothNumbered(a.count, a1.count, a2.count, Decls(tt), Lost(tt), Bares(tt), Decls(te), Lost(te), Bares(te));
      VisibleMore(Added(a, fs, s.then_), Added(a1, fs, s.else_.value), Bares(tt), Bares(te), Bares(tt) + Bares(te));
    } else {
      BothNumbered(a.count, a1.count, a1.count, Decls(tt), Lost(tt), Bares(tt), {}, {}, {});
      assert Lost(tt) + {} == Lost(tt) && Bares(tt) + {} == Bares(tt) && Decls(tt) + {} == Decls(tt);
    }
  }

  /** Two statements numbered one behind the other, whichever of them is lowered. */
  lemma BothNumbered(lo: nat, mid: nat, hi: nat, d1: set<nat>, l1: set<nat>, b1: set<nat>, d2: set<nat>, l2: set<nat>, b2: set<nat>)
    requires Numbered(d1, l1, lo, mid) && Among(b1, lo, mid) && Numbered(d2, l2, mid, hi) && Among(b2, mid, hi)
    ensures Numbered(d1 + d2, l1 + l2, lo, hi) && Numbered(d1, l1 + b2, lo, hi) && Numbered(d2, b1 + l2, lo, hi)
    ensures Among(b1 + b2, lo, hi)
  {
  }

  lemma {:induction false} ListNumbers(a: Ana, fs: seq<FuncDef>, ss: List<Stmt>)
    requires AnalyzeList(a, fs, ss).Fine?
    ensures var (ts, b) := AnalyzeList(a, fs, ss).value;
            Numbered(DeclsList(ts), LostList(ts), a.count, b.count) && NextIdList(ts, a.count) == b.count
    decreases ss
  {
    hide AnalyzeStmt;
    if ss.Cons? {
      StmtNumbers(a, fs, ss.head);
      ListNumbers(AnalyzeStmt(a, fs, ss.head).value.1, fs, ss.tail);
    }
  }

  lemma VisibleMore(E: seq<Named>, D: seq<Named>, ids: set<nat>, more: set<nat>, ids': set<nat>)
    requires Visible(E, ids) && Visible(D, more) && ids <= ids' && more <= ids'
    ensures Visible(E + D, ids')
  {
  }

  /** The premises for a statement: what is visible has a register or is lost. */
  ghost predicate Prepared(a: Ana, G: SymScope, E: seq<Named>, ids: set<nat>, lost: set<nat>) {
    Static(a, G, E) && GlobalsOnly(G) && Visible(E, ids + lost)
  }

  lemma PreparedSees(a: Ana, G: SymScope, E: seq<Named>, ids: set<nat>, lost: set<nat>)
    requires Prepared(a, G, E, ids, lost)
    ensures Sees(a.scopes, E, ids + lost) && Static(a, G, E)
  {
  }

  /** A statement that uses no lost local is ready for lowering. */
  lemma {:induction false} StmtReady(a: Ana, G: SymScope, fs: seq<FuncDef>, s: Stmt, E: seq<Named>, ids: set<nat>, lost: set<nat>)
    requires Prepared(a, G, E, ids, lost) && AnalyzeStmt(a, fs, s).Fine?
    requires var t := AnalyzeStmt(a, fs, s).value.0; Lost(t) <= lost && StmtUses(t) !! lost
    ensures var (t, b) := AnalyzeStmt(a, fs, s).value;
            StmtIn(t, ids, a.count, a.loopDepth > 0) && Prepared(b, G, E + Added(a, fs, s), Declared(t, ids), lost)
    decreases s
  {
    StmtMoves(a, G, fs, s, E);
    PreparedSees(a, G, E, ids, lost);
    hide Sees, Static, AnalyzeExpr, ExprIn;
    match s
    case Compound(ss) =>
      PushStatic(a, G, E);
      ListReady(PushScope(a), G, fs, ss, E, ids, lost);
      assert E + [] == E;
    case ExprStmt(e) => ExprReady(a.scopes, fs, e, E, ids, lost); assert E + [] == E;
    case Assign(name, e) =>
      ExprReady(a.scopes, fs, e, E, ids, lost);
      if LookupSym(a.scopes, name).value.LocalVar? { LookupVisible(a.scopes, E, ids + lost, name); }
      assert E + [] == E;
    case VarDecl(_, _, e) => ExprReady(a.scopes, fs, e, E, ids, lost);
    case If(_, _, _) => IfReady(a, G, fs, s, E, ids, lost);
    case While(c, b) =>
      ExprReady(a.scopes, fs, c, E, ids, lost);
      assert Static(a.(loopDepth := a.loopDepth + 1), G, E);
      StmtReady(a.(loopDepth := a.loopDepth + 1), G, fs, b, E, ids, lost);
    case Return(e) =>
      if e.Some? { ExprReady(a.scopes, fs, e.value, E, ids, lost); }
      assert E + [] == E;
    case _ => assert E + [] == E;
  }

  lemma {:induction false} IfReady(a: Ana, G: SymScope, fs: seq<FuncDef>, s: Stmt, E: seq<Named>, ids: set<nat>, lost: set<nat>)
    requires Prepared(a, G, E, ids, lost) && AnalyzeStmt(a, fs, s).Fine? && s.If?
    requires var t := AnalyzeStmt(a, fs, s).value.0; Lost(t) <= lost && StmtUses(t) !! lost
    ensures var (t, b) := AnalyzeStmt(a, fs, s).value;
            StmtIn(t, ids, a.count, a.loopDepth > 0) && Visible(E + Added(a, fs, s), Declared(t, ids) + lost)
    decreases s, 0
  {
    PreparedSees(a, G, E, ids, lost);
    StmtMoves(a, G, fs, s.then_, E);
    StmtNumbers(a, fs, s.then_);
    var (tt, a1) := AnalyzeStmt(a, fs, s.then_).value;
    var D1, tc := Added(a, fs, s.then_), AnalyzeExpr(a.scopes, fs, s.cond).value;
    hide Sees, Static, Scoped, AnalyzeExpr, ExprIn, GlobalsOnly;
    assert GlobalsOnly(G) && Static(a1, G, E + D1);
    if tc.mark.None? || tc.mark.value != 0 {
      StmtReady(a, G, fs, s.then_, E, ids, lost);
    } else {
      VisibleMore(E, D1, ids + lost, Bares(tt), ids + lost);
    }
    if tc.mark.None? { ExprReady(a.scopes, fs, s.cond, E, ids, lost); }
    if s.else_.Some? {
      var ids1 := if tc.mark.Some? && tc.mark.value == 0 then ids else Declared(tt, ids);
      var D2 := Added(a1, fs, s.else_.value);
      assert E + D1 + D2 == E + Added(a, fs, s);
      if tc.mark.None? || tc.mark.value == 0 {
        StmtReady(a1, G, fs, s.else_.value, E + D1, ids1, lost);
      } else {
        StmtNumbers(a1, fs, s.else_.value);
        VisibleMore(E + D1, D2, ids1 + lost, Bares(AnalyzeStmt(a1, fs, s.else_.value).value.0), ids1 + lost);
      }
    }
  }

  lemma {:induction false} ListReady(a: Ana, G: SymScope, fs: seq<FuncDef>, ss: List<Stmt>, E: seq<Named>, ids: set<nat>, lost: set<nat>)
    requires Prepared(a, G, E, ids, lost) && AnalyzeList(a, fs, ss).Fine?
    requires var ts := AnalyzeList(a, fs, ss).value.0; LostList(ts) <= lost && ListUses(ts) !! lost
    ensures ListIn(AnalyzeList(a, fs, ss).value.0, ids, a.count, a.loopDepth > 0)
    decreases ss
  {
    if ss.Cons? {
      PreparedSees(a, G, E, ids, lost);
      StmtMoves(a, G, fs, ss.head, E);
      hide Prepared, Static, AnalyzeStmt, StmtIn;
      StmtReady(a, G, fs, ss.head, E, ids, lost);
      StmtNumbers(a, fs, ss.head);
      var (t, b) := AnalyzeStmt(a, fs, ss.head).value;
      ListReady(b, G, fs, ss.tail, E + Added(a, fs, ss.head), Declared(t, ids), lost);
    }
  }

  function ParamSet(t: TFunc): set<nat> {
    set i | 0 <= i < |t.params| :: t.params[i]
  }

  /** The body of an analyzed function, and the analyzer at its start. */
  lemma FuncStart(G: SymScope, fs: seq<FuncDef>, f: FuncDef, t: TFunc, count: nat) returns (a: Ana, E: seq<Named>)
    requires GlobalsOnly(G) && AnalyzedAt(G, fs, f, t, count)
    ensures Prepared(a, G, E, ParamSet(t), {}) && a.loopDepth == 0 && a.count == count + |f.params| && |t.params| == |f.params|
    ensures AnalyzeList(a, fs, f.body).Fine? && AnalyzeList(a, fs, f.body).value.0 == t.body
    ensures forall i | 0 <= i < |t.params| :: t.params[i] == count + i
    ensures |a.scopes| == 3 && a.scopes[..1] == [G]
    ensures AnalyzeFunc(Ana([G], count, 0), fs, f).value.1 == PopScope(PopScope(AnalyzeList(a, fs, f.body).value.1))
  {
    hide AnalyzeList, Static;
    var b := DeclareParams(PushScope(Ana([G], count, 0)), f.params);
    E := ParamNames(f.params, count);
    ParamsRel(G, f.params, seq(|f.params|, i => 0), count);
    a := PushScope(b);
    PushStatic(b, G, E);
    assert a.scopes[..1] == b.scopes[..1];
    forall i | 0 <= i < |E| && E[i].sym.LocalVar? ensures E[i].sym.id in ParamSet(t) + {} {
      assert t.params[i] == count + i;
    }
  }

  /** An analyzed function meets what lowering asks for exactly if it is grounded. */
  lemma FuncReady(G: SymScope, fs: seq<FuncDef>, f: FuncDef, t: TFunc, count: nat)
    requires GlobalsOnly(G) && AnalyzedAt(G, fs, f, t, count)
    ensures FuncIn(t) <==> Grounded(t)
    ensures Grounded(t) <==> ListUses(t.body) <= GenBody(t).ir.Keys
  {
    hide AnalyzedAt, ListIn, AnalyzeList, Static, Visible, GlobalsOnly, GenBody;
    var a, E := FuncStart(G, fs, f, t, count);
    var ids, lost := ParamSet(t), LostList(t.body);
    ListNumbers(a, fs, f.body);
    GenBodyIr(t);
    assert ids !! lost;
    if Grounded(t) {
      PreparedMore(a, G, E, ids, lost);
      ListReady(a, G, fs, f.body, E, ids, lost);
      assert BodyIn(t, a.count);
    }
    if FuncIn(t) {
      var lo: nat :| BodyIn(t, lo);
      ListUsesIn(t.body, ids, lo, false);
    }
  }

  lemma PreparedMore(a: Ana, G: SymScope, E: seq<Named>, ids: set<nat>, lost: set<nat>)
    requires Prepared(a, G, E, ids, {})
    ensures Prepared(a, G, E, ids, lost)
  {
    hide Static, GlobalsOnly;
  }

  // ---- globals -------------------------------------------------------------------------------------

  function Inits(gs: seq<Global>): seq<i32> {
    seq(|gs|, i requires 0 <= i < |gs| => gs[i].init)
  }

  ghost predicate GlobalsFine(g: Globals) {
    && OwnGlobals(g.scope) && GlobalsOnly(g.scope)
    && forall n | n in g.scope && g.scope[n].GlobalVar? :: g.scope[n].gid < |g.vars|
  }

  lemma GlobalAdded(g: Globals, m: Scope, name: string, v: i32, isConst: bool)
    requires GlobalsFine(g) && GRel(g.scope, m, Inits(g.vars))
    ensures var h := if isConst then g.(scope := g.scope[name := ConstSym(v)])
                     else g.(scope := g.scope[name := GlobalVar(|g.vars|)], vars := g.vars + [Global(name, v)]);
            GlobalsFine(h) && GRel(h.scope, m[name := v], Inits(h.vars))
  {
    var gs := Inits(g.vars);
    assert Inits(g.vars + [Global(name, v)]) == gs + [v];
    forall n | n in g.scope ensures GlobalHolds(g.scope[n], m[n], gs + [v]) {
      assert GlobalHolds(g.scope[n], m[n], gs);
    }
  }

  lemma EmptyScoped(G: SymScope)
    ensures Scoped([G], [])
  {
    forall x ensures LookupSym([G], x) == Meaning(G, [], x) {
      assert [G][..0] == [];
      assert LookupSym([], x).None?;
    }
  }

  /** The first pass computes the values that the initializers have. */
  lemma {:induction false} ItemsSim(g: Globals, items: seq<Item>, fs: seq<FuncDef>, m: Scope) returns (m': Scope)
    requires GlobalsFine(g) && GRel(g.scope, m, Inits(g.vars)) && AnalyzeItems(g, items).Fine?
    ensures InitGlobals(fs, items, m) == Done(m')
    ensures var h := AnalyzeItems(g, items).value;
            GlobalsFine(h) && GRel(h.scope, m', Inits(h.vars)) && h.fs == g.fs + FuncsOf(items)
    decreases |items|
  {
    hide GlobalsFine, GRel, Inits, AnalyzeExpr, Eval, FuncsOf;
    FuncsStep(g.fs, items);
    if items == [] {
      m' := m;
    } else {
      var g1 := AnalyzeItem(g, items[0]).value;
      match items[0]
      case FuncItem(f) =>
        SameGlobalsFine(g, g1);
        m' := ItemsSim(g1, items[1..], fs, m);
      case GlobalItem(_, name, e) =>
        var v := ItemValue(g, items[0], fs, m);
        m' := ItemsSim(g1, items[1..], fs, m[name := v]);
    }
  }

  lemma {:induction false} FuncsStep(fs: seq<FuncDef>, items: seq<Item>)
    ensures items == [] ==> fs + FuncsOf(items) == fs
    ensures items != [] && items[0].FuncItem? ==> fs + FuncsOf(items) == (fs + [items[0].def]) + FuncsOf(items[1..])
    ensures items != [] && items[0].GlobalItem? ==> fs + FuncsOf(items) == fs + FuncsOf(items[1..])
  {
    if items != [] {
      var head, rest := if items[0].FuncItem? then [items[0].def] else [], FuncsOf(items[1..]);
      assert FuncsOf(items) == head + rest;
      hide FuncsOf;
      Cat(fs, head, rest);
      assert fs + [] == fs;
    }
  }

  lemma Cat<T>(a: seq<T>, b: seq<T>, c: seq<T>)
    ensures a + (b + c) == (a + b) + c
  {
  }

  /** One initializer: its mark is its value, and the variable holds it. */
  lemma ItemValue(g: Globals, item: Item, fs: seq<FuncDef>, m: Scope) returns (v: i32)
    requires GlobalsFine(g) && GRel(g.scope, m, Inits(g.vars)) && item.GlobalItem? && AnalyzeItem(g, item).Fine?
    ensures Eval(fs, item.init, Env([], m), 0, 0) == Done(Answer(Some(v), m))
    ensures var h := AnalyzeItem(g, item).value;
            GlobalsFine(h) && GRel(h.scope, m[item.name := v], Inits(h.vars)) && h.fs == g.fs
  {
    hide GlobalsFine, GRel, Inits, AnalyzeExpr, Eval, Scoped;
    EmptyScoped(g.scope);
    MarkSound([g.scope], g.fs, fs, item.init, [], Env([], m), Store(map[], Inits(g.vars)), 0, 0);
    v := AnalyzeExpr([g.scope], g.fs, item.init).value.mark.value;
    GlobalAdded(g, m, item.name, v, item.isConst);
    SameGlobalsFine(if item.isConst then g.(scope := g.scope[item.name := ConstSym(v)])
                    else g.(scope := g.scope[item.name := GlobalVar(|g.vars|)], vars := g.vars + [Global(item.name, v)]),
                    AnalyzeItem(g, item).value);
  }

  lemma SameGlobalsFine(g: Globals, h: Globals)
    requires GlobalsFine(g) && h.scope == g.scope && h.vars == g.vars
    ensures GlobalsFine(h)
  {
  }

  // ---- programs -------------------------------------------------------------------------------------

  /** Analysis of one function leaves the global scope as it was. */
  lemma FuncMoves(G: SymScope, fs: seq<FuncDef>, f: FuncDef, count: nat)
    requires GlobalsOnly(G) && AnalyzeFunc(Ana([G], count, 0), fs, f).Fine?
    ensures var b := AnalyzeFunc(Ana([G], count, 0), fs, f).value.1;
            b.scopes == [G] && b.loopDepth == 0
  {
    var t := AnalyzeFunc(Ana([G], count, 0), fs, f).value.0;
    var a, E := FuncStart(G, fs, f, t, count);
    hide AnalyzeList, Scoped, Own, Under, Visible;
    ListMoves(a, G, fs, f.body, E);
    var b := AnalyzeList(a, fs, f.body).value.1;
    assert Outer(b.scopes)[..1] == Outer(a.scopes)[..1] == [G];
  }

  lemma {:induction false} FuncsAnalyzed(G: SymScope, fs: seq<FuncDef>, todo: seq<FuncDef>, count: nat)
    requires GlobalsOnly(G) && AnalyzeFuncs(Ana([G], count, 0), fs, todo).Fine?
    ensures var ts := AnalyzeFuncs(Ana([G], count, 0), fs, todo).value;
            && |ts| == |todo|
            && forall i | 0 <= i < |todo| :: FuncAnalyzed(G, fs, todo[i], ts[i])
    decreases |todo|
  {
    hide GlobalsOnly, AnalyzeFunc;
    if todo != [] {
      var f := todo[0];
      var (t, a1) := AnalyzeFunc(Ana([G], count, 0), fs, f).value;
      assert AnalyzedAt(G, fs, f, t, count);
      FuncMoves(G, fs, f, count);
      FuncsAnalyzed(G, fs, todo[1..], a1.count);
      var ts := AnalyzeFuncs(a1, fs, todo[1..]).value;
      forall i | 0 <= i < |todo| ensures FuncAnalyzed(G, fs, todo[i], ([t] + ts)[i]) {
        if i > 0 { assert todo[1..][i - 1] == todo[i] && ts[i - 1] == ([t] + ts)[i]; }
      }
    }
  }

  /**
   * Analysis keeps meaning: a program that it accepts and that ends with a value
   * ends with the same value, and related globals, after analysis.
   */
  lemma AnalyzeCorrect(items: seq<Item>, d: nat, k: nat) returns (p: Prog, gs: seq<i32>)
    requires Analyze(items).Fine? && RunProgram(items, d, k).Done?
    ensures var t, a := Analyze(items).value, RunProgram(items, d, k).value;
            && p.fs == FuncsOf(items) && p.ts == t.funcs && ProgOk(p)
            && TRun(t.funcs, "main", [], Inits(t.globals), d, k) == Done(Result(a.val, gs))
            && GRel(p.G, a.globals, gs)
  {
    hide GRel, GlobalsFine, AnalyzeFuncs, AnalyzeItems, RunDef, TRun, InitGlobals;
    var g0 := Globals(map[], [], [], 0);
    NothingRelated(g0);
    var m := ItemsSim(g0, items, FuncsOf(items), map[]);
    var g := AnalyzeItems(g0, items).value;
    assert g.fs == FuncsOf(items);
    FineParts(g);
    FuncsAnalyzed(g.scope, g.fs, g.fs, g.count);
    p := Prog(g.scope, g.fs, Analyze(items).value.funcs);
    gs := RunSim(p, "main", [], m, Inits(g.vars), d, k);
  }

  /** Names of functions are distinct. */
  ghost predicate DistinctDefs(fs: seq<FuncDef>) {
    forall i, j | 0 <= i < j < |fs| :: fs[i].name != fs[j].name
  }

  lemma {:induction false} NotFound(fs: seq<FuncDef>, name: string)
    requires FindDef(fs, name).None?
    ensures forall i | 0 <= i < |fs| :: fs[i].name != name
  {
    if fs != [] {
      NotFound(fs[1..], name);
      assert forall i | 0 < i < |fs| :: fs[i] == fs[1..][i - 1];
    }
  }

  lemma {:induction false} ItemsDistinct(g: Globals, items: seq<Item>)
    requires AnalyzeItems(g, items).Fine? && DistinctDefs(g.fs)
    ensures DistinctDefs(AnalyzeItems(g, items).value.fs)
    decreases |items|
  {
    hide AnalyzeExpr;
    if items != [] {
      if items[0].FuncItem? { NotFound(g.fs, items[0].def.name); }
      ItemsDistinct(AnalyzeItem(g, items[0]).value, items[1..]);
    }
  }

  /**
   * In an accepted program a function is ready for lowering exactly if no name in
   * its lowered code means a declaration that a constant condition rules out; then
   * and only then each symbol that its code uses gets a register.  Functions have
   * distinct names.
   */
  lemma AnalyzedReady(items: seq<Item>)
    requires Analyze(items).Fine?
    ensures var ts := Analyze(items).value.funcs;
            && (forall i | 0 <= i < |ts| :: FuncIn(ts[i]) <==> Grounded(ts[i]))
            && (forall i | 0 <= i < |ts| :: Grounded(ts[i]) <==> ListUses(ts[i].body) <= GenBody(ts[i]).ir.Keys)
            && (forall i, j | 0 <= i < j < |ts| :: ts[i].name != ts[j].name)
  {
    hide GRel, GlobalsFine, FuncIn, AnalyzeFuncs, AnalyzeItems, InitGlobals, AnalyzeFunc, AnalyzedAt, Grounded, GenBody;
    var g0 := Globals(map[], [], [], 0);
    NothingRelated(g0);
    var m := ItemsSim(g0, items, FuncsOf(items), map[]);
    ItemsDistinct(g0, items);
    var g := AnalyzeItems(g0, items).value;
    FineParts(g);
    FuncsAnalyzed(g.scope, g.fs, g.fs, g.count);
    var ts := Analyze(items).value.funcs;
    forall i | 0 <= i < |ts|
      ensures ts[i].name == g.fs[i].name && (FuncIn(ts[i]) <==> Grounded(ts[i]))
      ensures Grounded(ts[i]) <==> ListUses(ts[i].body) <= GenBody(ts[i]).ir.Keys
    {
      assert FuncAnalyzed(g.scope, g.fs, g.fs[i], ts[i]);
      AnalyzedName(g.scope, g.fs, g.fs[i], ts[i]);
      var count: nat :| AnalyzedAt(g.scope, g.fs, g.fs[i], ts[i], count);
      FuncReady(g.scope, g.fs, g.fs[i], ts[i], count);
    }
  }

  lemma AnalyzedName(G: SymScope, fs: seq<FuncDef>, f: FuncDef, t: TFunc)
    requires FuncAnalyzed(G, fs, f, t)
    ensures t.name == f.name
  {
    var count: nat :| AnalyzedAt(G, fs, f, t, count);
  }

  lemma NothingRelated(g: Globals)
    requires g.scope == map[] && g.vars == []
    ensures GlobalsFine(g) && GRel(g.scope, map[], Inits(g.vars))
  {
  }

  lemma FineParts(g: Globals)
    requires GlobalsFine(g)
    ensures OwnGlobals(g.scope) && GlobalsOnly(g.scope)
  {
  }
}
