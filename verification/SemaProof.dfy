/**
 * Analysis is sound: a marked expression has its mark as value and no effect, and
 * the annotated program does what the source program does.
 */
module SemaProof {
  import opened Word32
  import opened IR
  import opened Ast
  import opened Typed
  import opened Sema

  // ---- constants ---------------------------------------------------------------------------

  /** 1 for a negative word: how often 2^32 separates its two readings. */
  function Neg1(a: i32): int {
    if a < 0 then 1 else 0
  }

  /** Folding in unsigned arithmetic with the two special quotients is the language's arithmetic. */
  lemma FoldBinIs(op: BinOp, a: i32, b: i32)
    ensures FoldBin(op, a, b) == EvalBin(op, a, b)
  {
    var p, q := Neg1(a), Neg1(b);
    assert U(a) == a + p * TWO32 && U(b) == b + q * TWO32;
    match op
    case Add => WrapCongruent(U(a) + U(b), a + b, p + q);
    case Sub => WrapCongruent(U(a) - U(b), a - b, p - q);
    case Mul => UMul(a, b, p, q);
    case _ =>
  }

  lemma UMul(a: int, b: int, p: int, q: int)
    ensures Wrap((a + p * TWO32) * (b + q * TWO32)) == Wrap(a * b)
  {
    var k := a * q + b * p + p * q * TWO32;
    assert (a + p * TWO32) * (b + q * TWO32) == a * b + k * TWO32;
    WrapCongruent((a + p * TWO32) * (b + q * TWO32), a * b, k);
  }

  lemma FoldUnIs(op: UnaryOp, a: i32)
    ensures FoldUn(op, a) == EvalUnary(op, a)
  {
    if op.Minus? { WrapCongruent(0 - U(a), -(a as int), -Neg1(a)); }
  }

  // ---- scopes and states ---------------------------------------------------------------------

  /** A local declaration and the symbol that analysis made for it. */
  datatype Named = Named(name: string, sym: Sym)

  /** Where the name was declared last; -1 if it was not. */
  function LastNamed(E: seq<Named>, name: string): (r: int)
    ensures -1 <= r < |E|
    ensures r >= 0 ==> E[r].name == name
    ensures forall i | r < i < |E| :: E[i].name != name
  {
    if E == [] then -1
    else if E[|E| - 1].name == name then |E| - 1
    else LastNamed(E[..|E| - 1], name)
  }

  function Meaning(G: SymScope, E: seq<Named>, name: string): Option<Sym> {
    var i := LastNamed(E, name);
    if i >= 0 then Some(E[i].sym) else if name in G then Some(G[name]) else None
  }

  /** The scope stack resolves names as the declarations E in their order do. */
  ghost predicate Scoped(S: seq<SymScope>, E: seq<Named>) {
    |S| > 0 && forall name :: LookupSym(S, name) == Meaning(S[0], E, name)
  }

  /** A constant has its value; a variable that has one has it in the store. */
  ghost predicate VarHolds(sym: Sym, v: Option<i32>, locals: map<nat, i32>) {
    match sym
    case LocalVar(id) => v.Some? ==> id in locals && locals[id] == v.value
    case ConstSym(c) => v == Some(c)
    case GlobalVar(_) => false
  }

  ghost predicate GlobalHolds(sym: Sym, v: i32, gs: seq<i32>) {
    match sym
    case GlobalVar(g) => g < |gs| && gs[g] == v
    case ConstSym(c) => c == v
    case LocalVar(_) => false
  }

  /** The declarations E describe the variables of the source and their places in the store. */
  ghost predicate LRel(E: seq<Named>, vars: seq<Variable>, locals: map<nat, i32>) {
    |E| == |vars| && forall i | 0 <= i < |E| :: E[i].name == vars[i].name && VarHolds(E[i].sym, vars[i].val, locals)
  }

  /** The outermost scope describes the globals. */
  ghost predicate GRel(G: SymScope, m: Scope, gs: seq<i32>) {
    G.Keys == m.Keys && forall n | n in G :: GlobalHolds(G[n], m[n], gs)
  }

  /** No two declarations share a variable. */
  ghost predicate Own(E: seq<Named>) {
    forall i, j | 0 <= i < j < |E| && E[i].sym.LocalVar? :: E[i].sym != E[j].sym
  }

  ghost predicate OwnGlobals(G: SymScope) {
    forall n, m | n in G && m in G && G[n].GlobalVar? && G[n] == G[m] :: n == m
  }

  /** All locals are numbered below `count`. */
  ghost predicate Under(E: seq<Named>, count: nat) {
    forall i | 0 <= i < |E| && E[i].sym.LocalVar? :: E[i].sym.id < count
  }

  /** The analyzer inside a function, at a point where E has been declared. */
  ghost predicate Static(a: Ana, G: SymScope, E: seq<Named>) {
    |a.scopes| >= 2 && a.scopes[0] == G && Scoped(a.scopes, E) && Own(E) && Under(E, a.count)
  }

  lemma LookupRel(S: seq<SymScope>, E: seq<Named>, env: Env, st: Store, name: string)
    requires Scoped(S, E) && LRel(E, env.vars, st.locals) && GRel(S[0], env.globals, st.globals)
    ensures var v := Lookup(env, name);
            var sym := LookupSym(S, name);
            (sym.None? ==> v.None?) && (v.Some? ==> ReadSym(sym.value, st) == v)
    ensures LookupSym(S, name).Some? && LookupSym(S, name).value.ConstSym? ==>
              Lookup(env, name) == Some(LookupSym(S, name).value.constValue)
  {
    assert LookupSym(S, name) == Meaning(S[0], E, name);
    assert LastOf(env.vars, name) == LastNamed(E, name);
    if LastNamed(E, name) < 0 && name in S[0] { assert GlobalHolds(S[0][name], env.globals[name], st.globals); }
  }

  /** An assignment reaches the same variable on both sides. */
  lemma AssignRel(S: seq<SymScope>, E: seq<Named>, env: Env, st: Store, name: string, v: i32) returns (st': Store)
    requires Scoped(S, E) && LRel(E, env.vars, st.locals) && GRel(S[0], env.globals, st.globals) && Own(E) && OwnGlobals(S[0])
    requires AssignTo(env, name, v).Some?
    ensures LookupSym(S, name).Some?
    ensures !LookupSym(S, name).value.ConstSym? ==>
              && WriteSym(LookupSym(S, name).value, st, v) == Some(st')
              && LRel(E, AssignTo(env, name, v).value.vars, st'.locals)
              && GRel(S[0], AssignTo(env, name, v).value.globals, st'.globals)
  {
    assert LookupSym(S, name) == Meaning(S[0], E, name);
    assert LastOf(env.vars, name) == LastNamed(E, name);
    var sym := LookupSym(S, name).value;
    st' := st;
    if sym.LocalVar? {
      st' := WriteSym(sym, st, v).value;
    } else if sym.GlobalVar? {
      assert GlobalHolds(S[0][name], env.globals[name], st.globals);
      st' := WriteSym(sym, st, v).value;
    }
  }

  // ---- expressions ---------------------------------------------------------------------------

  /** A mark is the value of its expression, whatever the calls in it would do. */
  lemma {:induction false} MarkSound(S: seq<SymScope>, fa: seq<FuncDef>, fs: seq<FuncDef>, e: Expr, E: seq<Named>, env: Env, st: Store,
                                     d: nat, k: nat)
    requires Scoped(S, E) && LRel(E, env.vars, st.locals) && GRel(S[0], env.globals, st.globals)
    requires AnalyzeExpr(S, fa, e).Fine? && AnalyzeExpr(S, fa, e).value.mark.Some?
    ensures Eval(fs, e, env, d, k) == Done(Answer(AnalyzeExpr(S, fa, e).value.mark, env.globals))
    decreases e
  {
    hide Scoped, LRel, GRel, FoldBin, EvalBin;
    assert env.(globals := env.globals) == env;
    match e
    case Number(_) =>
    case Var(name) => LookupRel(S, E, env, st, name);
    case Binary(op, l, r) =>
      MarkSound(S, fa, fs, l, E, env, st, d, k);
      MarkSound(S, fa, fs, r, E, env, st, d, k);
      FoldBinIs(op, AnalyzeExpr(S, fa, l).value.mark.value, AnalyzeExpr(S, fa, r).value.mark.value);
    case Logical(isOr, l, r) =>
      MarkSound(S, fa, fs, l, E, env, st, d, k);
      if AnalyzeExpr(S, fa, r).value.mark.Some? {
        MarkSound(S, fa, fs, r, E, env, st, d, k);
      }
    case Unary(op, a) =>
      MarkSound(S, fa, fs, a, E, env, st, d, k);
      FoldUnIs(op, AnalyzeExpr(S, fa, a).value.mark.value);
  }

  /** A function's annotated form was computed under the global scope. */
  ghost predicate FuncAnalyzed(G: SymScope, fs: seq<FuncDef>, f: FuncDef, t: TFunc) {
    exists count: nat :: AnalyzedAt(G, fs, f, t, count)
  }

  ghost predicate AnalyzedAt(G: SymScope, fs: seq<FuncDef>, f: FuncDef, t: TFunc, count: nat) {
    var r := AnalyzeFunc(Ana([G], count, 0), fs, f);
    r.Fine? && r.value.0 == t
  }

  /** A program and its annotated form. */
  datatype Prog = Prog(G: SymScope, fs: seq<FuncDef>, ts: seq<TFunc>)

  ghost predicate ProgOk(p: Prog) {
    && OwnGlobals(p.G) && |p.fs| == |p.ts|
    && forall i | 0 <= i < |p.fs| :: FuncAnalyzed(p.G, p.fs, p.fs[i], p.ts[i])
  }

  /** Corresponding points of a source run and a run of the annotated program. */
  ghost predicate Meets(p: Prog, S: seq<SymScope>, E: seq<Named>, env: Env, st: Store) {
    ProgOk(p) && Scoped(S, E) && S[0] == p.G && LRel(E, env.vars, st.locals) && GRel(p.G, env.globals, st.globals)
  }

  lemma {:induction false} EvalSim(p: Prog, S: seq<SymScope>, e: Expr, E: seq<Named>, env: Env, st: Store, d: nat, k: nat)
    returns (gs: seq<i32>)
    requires Meets(p, S, E, env, st) && AnalyzeExpr(S, p.fs, e).Fine? && Eval(p.fs, e, env, d, k).Done?
    ensures var a := Eval(p.fs, e, env, d, k).value;
            && TEval(p.ts, AnalyzeExpr(S, p.fs, e).value, st, d, k) == Done(Result(a.val, gs))
            && GRel(p.G, a.globals, gs)
    decreases d, k, 0, e
  {
    hide Scoped, LRel, GRel, EvalBin, ProgOk, FoldBin, RunDef, TRun;
    var t := AnalyzeExpr(S, p.fs, e).value;
    if t.mark.Some? {
      MarkSound(S, p.fs, p.fs, e, E, env, st, d, k);
      gs := st.globals;
    } else {
      match e
      case Var(name) =>
        LookupRel(S, E, env, st, name);
        gs := st.globals;
      case Binary(op, l, r) =>
        var g1 := EvalSim(p, S, l, E, env, st, d, k);
        var x := Eval(p.fs, l, env, d, k).value;
        gs := EvalSim(p, S, r, E, env.(globals := x.globals), st.(globals := g1), d, k);
      case Logical(isOr, l, r) =>
        gs := EvalSim(p, S, l, E, env, st, d, k);
        var x := Eval(p.fs, l, env, d, k).value;
        if isOr != (x.val.value != 0) {
          gs := EvalSim(p, S, r, E, env.(globals := x.globals), st.(globals := gs), d, k);
        }
      case Unary(op, a) =>
        gs := EvalSim(p, S, a, E, env, st, d, k);
      case CallExpr(callee, args) =>
        var g1 := ArgsSim(p, S, args, E, env, st, d, k);
        var xs := EvalArgs(p.fs, args, env, d, k).value;
        CallIs(p.fs, callee, xs.vals, xs.globals, d - 1, k);
        gs := RunSim(p, callee, xs.vals, xs.globals, g1, d - 1, k);
    }
  }

  lemma CallIs(fs: seq<FuncDef>, name: string, args: seq<i32>, m: Scope, d: nat, k: nat)
    requires CallFunc(fs, name, args, m, d, k).Done?
    ensures RunDef(fs, name, args, m, d, k).Done?
  {
    hide RunDef;
  }

  lemma {:induction false} ArgsSim(p: Prog, S: seq<SymScope>, es: List<Expr>, E: seq<Named>, env: Env, st: Store, d: nat, k: nat)
    returns (gs: seq<i32>)
    requires Meets(p, S, E, env, st) && AnalyzeArgs(S, p.fs, es).Fine? && EvalArgs(p.fs, es, env, d, k).Done?
    ensures var a := EvalArgs(p.fs, es, env, d, k).value;
            && TArgs(p.ts, AnalyzeArgs(S, p.fs, es).value, st, d, k) == Done(Values(a.vals, gs))
            && GRel(p.G, a.globals, gs)
    decreases d, k, 0, es
  {
    hide Scoped, LRel, GRel, ProgOk;
    match es
    case Nil => gs := st.globals;
    case Cons(e, rest) =>
      var g1 := EvalSim(p, S, e, E, env, st, d, k);
      var x := Eval(p.fs, e, env, d, k).value;
      gs := ArgsSim(p, S, rest, E, env.(globals := x.globals), st.(globals := g1), d, k);
  }

  // ---- what analysis does to the scopes ---------------------------------------------------------

  function Outer<T>(s: seq<T>): seq<T> {
    if s == [] then [] else s[..|s| - 1]
  }

  /** The symbol of a declaration. */
  ghost function SymOf(a: Ana, t: TExpr, isConst: bool): Sym {
    if isConst && t.mark.Some? then ConstSym(t.mark.value) else LocalVar(a.count)
  }

  /** What a statement declares in the scope that it stands in. */
  ghost function Added(a: Ana, fs: seq<FuncDef>, s: Stmt): seq<Named>
    decreases s
  {
    match s
    case VarDecl(isConst, name, e) =>
      var t := AnalyzeExpr(a.scopes, fs, e);
      if t.Fine? then [Named(name, SymOf(a, t.value, isConst))] else []
    case If(_, t, e) =>
      var r := AnalyzeStmt(a, fs, t);
      if r.Fine? && e.Some? then Added(a, fs, t) + Added(r.value.1, fs, e.value) else Added(a, fs, t)
    case While(_, b) => Added(a.(loopDepth := a.loopDepth + 1), fs, b)
    case _ => []
  }

  ghost function AddedList(a: Ana, fs: seq<FuncDef>, ss: List<Stmt>): seq<Named>
    decreases ss
  {
    if ss.Nil? then []
    else
      var r := AnalyzeStmt(a, fs, ss.head);
      if r.Fine? then Added(a, fs, ss.head) + AddedList(r.value.1, fs, ss.tail) else []
  }

  lemma DeclareScoped(S: seq<SymScope>, E: seq<Named>, name: string, sym: Sym)
    requires Scoped(S, E) && |S| >= 2
    ensures Scoped(DeclareSym(S, name, sym), E + [Named(name, sym)])
  {
    var n, S', E' := |S| - 1, DeclareSym(S, name, sym), E + [Named(name, sym)];
    forall x ensures LookupSym(S', x) == Meaning(S'[0], E', x) {
      assert S'[..n] == S[..n];
      assert LookupSym(S, x) == Meaning(S[0], E, x);
      if x != name { assert LastNamed(E', x) == LastNamed(E, x); }
    }
  }

  lemma DeclareStatic(a: Ana, G: SymScope, E: seq<Named>, name: string, sym: Sym)
    requires Static(a, G, E) && (sym.LocalVar? ==> sym.id == a.count)
    ensures Static(Declared1(a, name, sym), G, E + [Named(name, sym)]) && |Declared1(a, name, sym).scopes| == |a.scopes|
    ensures Outer(Declared1(a, name, sym).scopes) == Outer(a.scopes)
  {
    DeclareScoped(a.scopes, E, name, sym);
    hide Scoped;
  }

  lemma PushStatic(a: Ana, G: SymScope, E: seq<Named>)
    requires Static(a, G, E)
    ensures Static(PushScope(a), G, E)
  {
    var S := PushScope(a).scopes;
    forall x ensures LookupSym(S, x) == Meaning(S[0], E, x) {
      assert S[..|S| - 1] == a.scopes;
      assert LookupSym(a.scopes, x) == Meaning(a.scopes[0], E, x);
    }
  }

  /** How analysis of a statement that declares D changes the scopes. */
  ghost predicate Moved(a: Ana, b: Ana, G: SymScope, E: seq<Named>, D: seq<Named>) {
    && Static(b, G, E + D) && a.count <= b.count && b.loopDepth == a.loopDepth
    && |b.scopes| == |a.scopes| && Outer(b.scopes) == Outer(a.scopes)
  }

  lemma MovedSelf(a: Ana, G: SymScope, E: seq<Named>)
    requires Static(a, G, E)
    ensures Moved(a, a, G, E, [])
  {
    hide Static;
    assert E + [] == E;
  }

  lemma MovedTrans(a: Ana, b: Ana, c: Ana, G: SymScope, E: seq<Named>, D1: seq<Named>, D2: seq<Named>)
    requires Moved(a, b, G, E, D1) && Moved(b, c, G, E + D1, D2)
    ensures Moved(a, c, G, E, D1 + D2)
  {
    hide Static;
    assert E + D1 + D2 == E + (D1 + D2);
  }

  /** Behind a block the scopes are as they were before it. */
  lemma BlockMoved(a: Ana, b: Ana, G: SymScope, E: seq<Named>, D: seq<Named>)
    requires Static(a, G, E) && Moved(PushScope(a), b, G, E, D)
    ensures PopScope(b).scopes == a.scopes && Moved(a, PopScope(b), G, E, [])
  {
    hide Scoped;
    assert Outer(PushScope(a).scopes) == a.scopes;
    assert E + [] == E;
  }

  lemma {:induction false} StmtMoves(a: Ana, G: SymScope, fs: seq<FuncDef>, s: Stmt, E: seq<Named>)
    requires Static(a, G, E) && AnalyzeStmt(a, fs, s).Fine?
    ensures Moved(a, AnalyzeStmt(a, fs, s).value.1, G, E, Added(a, fs, s))
    decreases s
  {
    MovedSelf(a, G, E);
    hide Scoped, Own, Under, AnalyzeExpr;
    match s
    case Compound(ss) =>
      PushStatic(a, G, E);
      ListMoves(PushScope(a), G, fs, ss, E);
      BlockMoved(a, AnalyzeList(PushScope(a), fs, ss).value.1, G, E, AddedList(PushScope(a), fs, ss));
    case VarDecl(isConst, name, e) =>
      DeclareStatic(a, G, E, name, SymOf(a, AnalyzeExpr(a.scopes, fs, e).value, isConst));
    case If(_, t, e) =>
      StmtMoves(a, G, fs, t, E);
      if e.Some? {
        var a1 := AnalyzeStmt(a, fs, t).value.1;
        StmtMoves(a1, G, fs, e.value, E + Added(a, fs, t));
        MovedTrans(a, a1, AnalyzeStmt(a1, fs, e.value).value.1, G, E, Added(a, fs, t), Added(a1, fs, e.value));
      }
    case While(_, b) => StmtMoves(a.(loopDepth := a.loopDepth + 1), G, fs, b, E);
    case _ =>
  }

  lemma {:induction false} ListMoves(a: Ana, G: SymScope, fs: seq<FuncDef>, ss: List<Stmt>, E: seq<Named>)
    requires Static(a, G, E) && AnalyzeList(a, fs, ss).Fine?
    ensures Moved(a, AnalyzeList(a, fs, ss).value.1, G, E, AddedList(a, fs, ss))
    decreases ss
  {
    hide Static;
    if ss.Nil? {
      MovedSelf(a, G, E);
    } else {
      StmtMoves(a, G, fs, ss.head, E);
      var a1 := AnalyzeStmt(a, fs, ss.head).value.1;
      ListMoves(a1, G, fs, ss.tail, E + Added(a, fs, ss.head));
      MovedTrans(a, a1, AnalyzeList(a1, fs, ss.tail).value.1, G, E, Added(a, fs, ss.head), AddedList(a1, fs, ss.tail));
    }
  }

  // ---- statements -----------------------------------------------------------------------------------

  /** Corresponding points inside a function. */
  ghost predicate At(p: Prog, a: Ana, E: seq<Named>, env: Env, st: Store) {
    ProgOk(p) && Static(a, p.G, E) && LRel(E, env.vars, st.locals) && GRel(p.G, env.globals, st.globals)
  }

  /**
   * After a statement that declares D: the older variables are described however
   * it ended, the new ones too if control goes on behind it.
   */
  ghost predicate Described(p: Prog, E: seq<Named>, D: seq<Named>, r: After, st: Store) {
    && GRel(p.G, r.env.globals, st.globals)
    && |E| <= |r.env.vars| && LRel(E, r.env.vars[..|E|], st.locals)
    && (r.flow.Next? ==> LRel(E + D, r.env.vars, st.locals))
  }

  lemma PrefixRel(E: seq<Named>, D: seq<Named>, vars: seq<Variable>, locals: map<nat, i32>)
    requires LRel(E + D, vars, locals)
    ensures |E| <= |vars| && LRel(E, vars[..|E|], locals)
  {
    forall i | 0 <= i < |E| ensures E[i].name == vars[i].name && VarHolds(E[i].sym, vars[i].val, locals) {
      assert (E + D)[i] == E[i];
    }
  }

  /** Control goes on behind the statement. */
  lemma DescribedNext(p: Prog, E: seq<Named>, D: seq<Named>, r: After, st: Store)
    requires GRel(p.G, r.env.globals, st.globals) && LRel(E + D, r.env.vars, st.locals)
    ensures Described(p, E, D, r, st)
  {
    PrefixRel(E, D, r.env.vars, st.locals);
  }

  /** What holds behind the second of two statements, seen from the first. */
  lemma DescribedThen(p: Prog, E: seq<Named>, D1: seq<Named>, D2: seq<Named>, r: After, st: Store)
    requires Described(p, E + D1, D2, r, st)
    ensures Described(p, E, D1 + D2, r, st)
  {
    PrefixRel(E, D1, r.env.vars[..|E + D1|], st.locals);
    assert r.env.vars[..|E + D1|][..|E|] == r.env.vars[..|E|];
    assert E + D1 + D2 == E + (D1 + D2);
  }

  /** An abnormal end promises nothing about what the statement declares. */
  lemma DescribedExit(p: Prog, E: seq<Named>, D: seq<Named>, D': seq<Named>, r: After, st: Store)
    requires Described(p, E, D, r, st) && !r.flow.Next?
    ensures Described(p, E, D', r, st)
  {
  }

  lemma DeclareRel(E: seq<Named>, vars: seq<Variable>, locals: map<nat, i32>, name: string, v: Option<i32>, sym: Sym)
    requires LRel(E, vars, locals) && VarHolds(sym, v, locals)
    ensures LRel(E + [Named(name, sym)], vars + [Variable(name, v)], locals)
  {
  }

  /** A new variable's place is no other variable's. */
  lemma FreshRel(E: seq<Named>, vars: seq<Variable>, locals: map<nat, i32>, id: nat, v: i32)
    requires LRel(E, vars, locals) && Under(E, id)
    ensures LRel(E, vars, locals[id := v])
  {
  }

  /** A statement that is passed over declares what analysis declared for it. */
  lemma {:induction false} SkipSim(p: Prog, a: Ana, s: Stmt, E: seq<Named>, env: Env, st: Store)
    requires At(p, a, E, env, st) && AnalyzeStmt(a, p.fs, s).Fine?
    ensures var e := Skip(p.fs, s, env);
            LRel(E + Added(a, p.fs, s), e.vars, st.locals) && e.globals == env.globals
    decreases s
  {
    hide Scoped, Own, Under, LRel, GRel, ProgOk, Eval, AnalyzeExpr;
    match s
    case VarDecl(isConst, name, e) =>
      if isConst { MarkSound(a.scopes, p.fs, p.fs, e, E, env, st, 0, 0); }
      var sym := SymOf(a, AnalyzeExpr(a.scopes, p.fs, e).value, isConst);
      DeclareRel(E, env.vars, st.locals, name, if isConst then Some(sym.constValue) else None, sym);
    case If(_, t, e) =>
      SkipSim(p, a, t, E, env, st);
      if e.Some? {
        StmtMoves(a, p.G, p.fs, t, E);
        SkipSim(p, AnalyzeStmt(a, p.fs, t).value.1, e.value, E + Added(a, p.fs, t), Skip(p.fs, t, env), st);
        assert E + Added(a, p.fs, t) + Added(AnalyzeStmt(a, p.fs, t).value.1, p.fs, e.value) == E + Added(a, p.fs, s);
      }
    case While(_, b) => SkipSim(p, a.(loopDepth := a.loopDepth + 1), b, E, env, st);
    case _ => assert E + Added(a, p.fs, s) == E;
  }

  lemma {:induction false} ExecSim(p: Prog, a: Ana, s: Stmt, E: seq<Named>, env: Env, st: Store, d: nat, k: nat) returns (st': Store)
    requires At(p, a, E, env, st) && AnalyzeStmt(a, p.fs, s).Fine? && Exec(p.fs, s, env, d, k).Done?
    ensures var r := Exec(p.fs, s, env, d, k).value;
            && TExec(p.ts, AnalyzeStmt(a, p.fs, s).value.0, st, d, k) == Done(Ended(r.flow, st'))
            && Described(p, E, Added(a, p.fs, s), r, st')
    decreases d, k, 0, s
  {
    hide Scoped, Own, Under, LRel, GRel, ProgOk, Eval, TEval, AnalyzeExpr, Described;
    match s
    case Compound(ss) => st' := BlockSim(p, a, ss, E, env, st, d, k);
    case Assign(_, _) => st' := AssignSim(p, a, s, E, env, st, d, k);
    case VarDecl(_, _, _) => st' := DeclSim(p, a, s, E, env, st, d, k);
    case If(_, _, _) => st' := IfSim(p, a, s, E, env, st, d, k);
    case While(_, _) => st' := WhileSim(p, a, s, E, env, st, d, k);
    case _ => st' := SimpleSim(p, a, s, E, env, st, d, k);
  }

  /** Statements that leave the locals as they are. */
  lemma SimpleSim(p: Prog, a: Ana, s: Stmt, E: seq<Named>, env: Env, st: Store, d: nat, k: nat) returns (st': Store)
    requires At(p, a, E, env, st) && AnalyzeStmt(a, p.fs, s).Fine? && Exec(p.fs, s, env, d, k).Done?
    requires s.Empty? || s.ExprStmt? || s.Break? || s.Continue? || s.Return?
    ensures var r := Exec(p.fs, s, env, d, k).value;
            && TExec(p.ts, AnalyzeStmt(a, p.fs, s).value.0, st, d, k) == Done(Ended(r.flow, st'))
            && Described(p, E, Added(a, p.fs, s), r, st')
    decreases d, k, 0, s, 0
  {
    hide Scoped, Own, Under, LRel, GRel, ProgOk, Eval, TEval, AnalyzeExpr, Described;
    st' := st;
    if s.ExprStmt? {
      var gs := EvalSim(p, a.scopes, s.expr, E, env, st, d, k);
      st' := st.(globals := gs);
    } else if s.Return? && s.result.Some? {
      var gs := EvalSim(p, a.scopes, s.result.value, E, env, st, d, k);
      st' := st.(globals := gs);
    }
    assert E + Added(a, p.fs, s) == E;
    DescribedNext(p, E, [], Exec(p.fs, s, env, d, k).value, st');
  }

  /** A block: its declarations end with it. */
  lemma {:induction false} BlockSim(p: Prog, a: Ana, ss: List<Stmt>, E: seq<Named>, env: Env, st: Store, d: nat, k: nat)
    returns (st': Store)
    requires At(p, a, E, env, st) && AnalyzeStmt(a, p.fs, Compound(ss)).Fine? && Exec(p.fs, Compound(ss), env, d, k).Done?
    ensures var r := Exec(p.fs, Compound(ss), env, d, k).value;
            && TExec(p.ts, AnalyzeStmt(a, p.fs, Compound(ss)).value.0, st, d, k) == Done(Ended(r.flow, st'))
            && Described(p, E, [], r, st')
    decreases d, k, 0, ss, 1
  {
    PushStatic(a, p.G, E);
    assert |E| == |env.vars| by { hide Static, ProgOk, GRel; }
    hide Scoped, Own, Under, LRel, GRel, ProgOk, Eval, TEval, AnalyzeExpr;
    st' := ListSim(p, PushScope(a), ss, E, env, st, d, k);
    var r := ExecList(p.fs, ss, env, d, k).value;
    assert Leave(r.env, |env.vars|).vars == r.env.vars[..|E|];
    assert E + [] == E;
    DescribedNext(p, E, [], r.(env := Leave(r.env, |env.vars|)), st');
  }

  lemma {:induction false} ListSim(p: Prog, a: Ana, ss: List<Stmt>, E: seq<Named>, env: Env, st: Store, d: nat, k: nat)
    returns (st': Store)
    requires At(p, a, E, env, st) && AnalyzeList(a, p.fs, ss).Fine? && ExecList(p.fs, ss, env, d, k).Done?
    ensures var r := ExecList(p.fs, ss, env, d, k).value;
            && TExecList(p.ts, AnalyzeList(a, p.fs, ss).value.0, st, d, k) == Done(Ended(r.flow, st'))
            && Described(p, E, AddedList(a, p.fs, ss), r, st')
    decreases d, k, 0, ss, 0
  {
    hide Static, LRel, GRel, ProgOk, AnalyzeStmt, Exec, TExec;
    match ss
    case Nil =>
      st' := st;
      assert E + [] == E;
      DescribedNext(p, E, [], After(Next, env), st);
    case Cons(s, rest) =>
      StmtMoves(a, p.G, p.fs, s, E);
      var b := AnalyzeStmt(a, p.fs, s).value.1;
      var st1 := ExecSim(p, a, s, E, env, st, d, k);
      var r := Exec(p.fs, s, env, d, k).value;
      if r.flow.Next? {
        st' := ListSim(p, b, rest, E + Added(a, p.fs, s), r.env, st1, d, k);
        DescribedThen(p, E, Added(a, p.fs, s), AddedList(b, p.fs, rest), ExecList(p.fs, rest, r.env, d, k).value, st');
      } else {
        st' := st1;
        DescribedExit(p, E, Added(a, p.fs, s), AddedList(a, p.fs, ss), r, st');
      }
  }

  lemma {:induction false} AssignSim(p: Prog, a: Ana, s: Stmt, E: seq<Named>, env: Env, st: Store, d: nat, k: nat) returns (st': Store)
    requires At(p, a, E, env, st) && s.Assign? && AnalyzeStmt(a, p.fs, s).Fine? && Exec(p.fs, s, env, d, k).Done?
    ensures var r := Exec(p.fs, s, env, d, k).value;
            && TExec(p.ts, AnalyzeStmt(a, p.fs, s).value.0, st, d, k) == Done(Ended(r.flow, st'))
            && Described(p, E, Added(a, p.fs, s), r, st')
    decreases d, k, 0, s, 0
  {
    GlobalsOwned(p);
    hide Scoped, LRel, GRel, ProgOk, Own, Under, Eval, TEval, AnalyzeExpr, OwnGlobals, AssignTo, WriteSym, LookupSym, Described;
    var gs := EvalSim(p, a.scopes, s.value, E, env, st, d, k);
    var x := Eval(p.fs, s.value, env, d, k).value;
    st' := AssignRel(a.scopes, E, env.(globals := x.globals), st.(globals := gs), s.name, x.val.value);
    assert E + [] == E;
    DescribedNext(p, E, [], Exec(p.fs, s, env, d, k).value, st');
  }

  lemma GlobalsOwned(p: Prog)
    requires ProgOk(p)
    ensures OwnGlobals(p.G)
  {
  }

  lemma {:induction false} DeclSim(p: Prog, a: Ana, s: Stmt, E: seq<Named>, env: Env, st: Store, d: nat, k: nat) returns (st': Store)
    requires At(p, a, E, env, st) && s.VarDecl? && AnalyzeStmt(a, p.fs, s).Fine? && Exec(p.fs, s, env, d, k).Done?
    ensures var r := Exec(p.fs, s, env, d, k).value;
            && TExec(p.ts, AnalyzeStmt(a, p.fs, s).value.0, st, d, k) == Done(Ended(r.flow, st'))
            && Described(p, E, Added(a, p.fs, s), r, st')
    decreases d, k, 0, s, 0
  {
    hide Scoped, LRel, GRel, ProgOk, Own, Under, Eval, AnalyzeExpr, DeclareSym, Described;
    var x := Eval(p.fs, s.init, env, d, k).value;
    var v := x.val.value;
    var sym := SymOf(a, AnalyzeExpr(a.scopes, p.fs, s.init).value, s.isConst);
    if s.isConst {
      MarkSound(a.scopes, p.fs, p.fs, s.init, E, env, st, d, k);
      st' := st;
    } else {
      var gs := EvalSim(p, a.scopes, s.init, E, env, st, d, k);
      st' := Store(st.locals[a.count := v], gs);
      FreshRel(E, env.vars, st.locals, a.count, v);
    }
    DeclareRel(E, env.vars, st'.locals, s.name, Some(v), sym);
    DescribedNext(p, E, [Named(s.name, sym)], Exec(p.fs, s, env, d, k).value, st');
  }

  lemma {:induction false} IfSim(p: Prog, a: Ana, s: Stmt, E: seq<Named>, env: Env, st: Store, d: nat, k: nat) returns (st': Store)
    requires At(p, a, E, env, st) && s.If? && AnalyzeStmt(a, p.fs, s).Fine? && Exec(p.fs, s, env, d, k).Done?
    ensures var r := Exec(p.fs, s, env, d, k).value;
            && TExec(p.ts, AnalyzeStmt(a, p.fs, s).value.0, st, d, k) == Done(Ended(r.flow, st'))
            && Described(p, E, Added(a, p.fs, s), r, st')
    decreases d, k, 0, s, 0
  {
    hide Scoped, LRel, GRel, ProgOk, Own, Under, Eval, TEval, AnalyzeExpr;
    var gs := EvalSim(p, a.scopes, s.cond, E, env, st, d, k);
    var x := Eval(p.fs, s.cond, env, d, k).value;
    var env1, st1 := env.(globals := x.globals), st.(globals := gs);
    StmtMoves(a, p.G, p.fs, s.then_, E);
    var a1, D1 := AnalyzeStmt(a, p.fs, s.then_).value.1, Added(a, p.fs, s.then_);
    var r := Exec(p.fs, s, env, d, k).value;
    if x.val.value != 0 {
      st' := ExecSim(p, a, s.then_, E, env1, st1, d, k);
      if s.else_.Some? {
        var r1 := Exec(p.fs, s.then_, env1, d, k).value;
        if r1.flow.Next? {
          SkipSim(p, a1, s.else_.value, E + D1, r1.env, st');
          assert E + D1 + Added(a1, p.fs, s.else_.value) == E + Added(a, p.fs, s);
          DescribedNext(p, E, Added(a, p.fs, s), r, st');
        } else {
          DescribedExit(p, E, D1, Added(a, p.fs, s), r, st');
        }
      }
    } else {
      SkipSim(p, a, s.then_, E, env1, st1);
      if s.else_.Some? {
        st' := ExecSim(p, a1, s.else_.value, E + D1, Skip(p.fs, s.then_, env1), st1, d, k);
        DescribedThen(p, E, D1, Added(a1, p.fs, s.else_.value), r, st');
      } else {
        st' := st1;
        DescribedNext(p, E, D1, r, st');
      }
    }
  }

  lemma {:induction false} WhileSim(p: Prog, a: Ana, s: Stmt, E: seq<Named>, env: Env, st: Store, d: nat, k: nat) returns (st': Store)
    requires At(p, a, E, env, st) && s.While? && AnalyzeStmt(a, p.fs, s).Fine? && Exec(p.fs, s, env, d, k).Done?
    ensures var r := Exec(p.fs, s, env, d, k).value;
            && TExec(p.ts, AnalyzeStmt(a, p.fs, s).value.0, st, d, k) == Done(Ended(r.flow, st'))
            && Described(p, E, Added(a, p.fs, s), r, st')
    decreases d, k, 0, s, 0
  {
    assert |E| == |env.vars| by { hide Static, ProgOk, GRel; }
    hide Scoped, LRel, GRel, ProgOk, Own, Under, Eval, TEval, AnalyzeExpr;
    var gs := EvalSim(p, a.scopes, s.cond, E, env, st, d, k);
    var x := Eval(p.fs, s.cond, env, d, k).value;
    var env1, st1 := env.(globals := x.globals), st.(globals := gs);
    var a0 := a.(loopDepth := a.loopDepth + 1);
    var r := Exec(p.fs, s, env, d, k).value;
    if x.val.value == 0 {
      st' := st1;
      SkipSim(p, a0, s.body, E, env1, st1);
      DescribedNext(p, E, Added(a, p.fs, s), r, st');
    } else {
      var st2 := ExecSim(p, a0, s.body, E, env1, st1, d, k);
      var r1 := Exec(p.fs, s.body, env1, d, k).value;
      var out := Leave(r1.env, |env.vars|);
      if r1.flow.Returned? {
        st' := st2;
        DescribedExit(p, E, Added(a0, p.fs, s.body), Added(a, p.fs, s), r1, st');
      } else if r1.flow.Broke? {
        st' := st2;
        SkipSim(p, a0, s.body, E, out, st2);
        DescribedNext(p, E, Added(a, p.fs, s), r, st');
      } else {
        st' := ExecSim(p, a, s, E, out, st2, d, k - 1);
      }
    }
  }

  // ---- functions -------------------------------------------------------------------------------------

  lemma {:induction false} FindAnalyzed(p: Prog, fs: seq<FuncDef>, ts: seq<TFunc>, name: string)
    requires |fs| == |ts| && forall i | 0 <= i < |fs| :: ts[i].name == fs[i].name
    ensures FindDef(fs, name).Some? ==>
              exists i :: 0 <= i < |fs| && FindDef(fs, name) == Some(fs[i]) && FindTyped(ts, name) == Some(ts[i])
    decreases |fs|
  {
    if fs != [] && fs[0].name != name && FindDef(fs, name).Some? {
      FindAnalyzed(p, fs[1..], ts[1..], name);
      var i :| 0 <= i < |fs[1..]| && FindDef(fs[1..], name) == Some(fs[1..][i]) && FindTyped(ts[1..], name) == Some(ts[1..][i]);
      assert fs[1..][i] == fs[i + 1] && ts[1..][i] == ts[i + 1];
    }
  }

  lemma FindAnalyzedFunc(p: Prog, name: string) returns (f: FuncDef, t: TFunc, count: nat)
    requires ProgOk(p) && FindDef(p.fs, name).Some?
    ensures FindDef(p.fs, name) == Some(f) && FindTyped(p.ts, name) == Some(t)
    ensures AnalyzedAt(p.G, p.fs, f, t, count)
  {
    hide OwnGlobals;
    forall i | 0 <= i < |p.fs| ensures p.ts[i].name == p.fs[i].name {
      assert FuncAnalyzed(p.G, p.fs, p.fs[i], p.ts[i]);
    }
    FindAnalyzed(p, p.fs, p.ts, name);
    var i :| 0 <= i < |p.fs| && FindDef(p.fs, name) == Some(p.fs[i]) && FindTyped(p.ts, name) == Some(p.ts[i]);
    f, t := p.fs[i], p.ts[i];
    assert FuncAnalyzed(p.G, p.fs, p.fs[i], p.ts[i]);
    count :| AnalyzedAt(p.G, p.fs, f, t, count);
  }

  /** The declarations of the parameters. */
  function ParamNames(params: seq<string>, count: nat): seq<Named> {
    seq(|params|, i requires 0 <= i < |params| => Named(params[i], LocalVar(count + i)))
  }

  /** The analyzer and the entry of a run behind the declarations E of parameters. */
  ghost predicate Entering(b: Ana, G: SymScope, E: seq<Named>, count: nat, vars: seq<Variable>, locals: map<nat, i32>) {
    && Static(b, G, E) && |b.scopes| == 2 && b.count == count && b.loopDepth == 0 && b.scopes[..1] == [G]
    && LRel(E, vars, locals)
  }

  lemma EnteringStep(a: Ana, G: SymScope, E: seq<Named>, vars: seq<Variable>, locals: map<nat, i32>, name: string, v: i32)
    requires Entering(a, G, E, a.count, vars, locals)
    ensures Entering(Declared1(a, name, LocalVar(a.count)), G, E + [Named(name, LocalVar(a.count))], a.count + 1,
                     vars + [Variable(name, Some(v))], locals[a.count := v])
  {
    DeclareStatic(a, G, E, name, LocalVar(a.count));
    FreshRel(E, vars, locals, a.count, v);
    DeclareRel(E, vars, locals[a.count := v], name, Some(v), LocalVar(a.count));
    hide LRel, Static;
  }

  /** The parameters are declared in order and describe the places of the arguments. */
  ghost predicate ParamsIn(G: SymScope, params: seq<string>, args: seq<i32>, count: nat) {
    && |params| == |args|
    && Entering(DeclareParams(PushScope(Ana([G], count, 0)), params), G, ParamNames(params, count), count + |params|,
                ParamVars(params, args), Entry(ParamIds(count, |params|), args))
  }

  lemma {:induction false} ParamsRel(G: SymScope, params: seq<string>, args: seq<i32>, count: nat)
    requires |params| == |args|
    ensures ParamsIn(G, params, args, count)
    decreases |params|
  {
    hide ParamsIn;
    if params == [] {
      NoParams(G, count);
    } else {
      var n := |params| - 1;
      ParamsRel(G, params[..n], args[..n], count);
      LastParam(G, params[..n], args[..n], params[n], args[n], count);
      assert params[..n] + [params[n]] == params && args[..n] + [args[n]] == args;
    }
  }

  lemma LastParam(G: SymScope, params: seq<string>, args: seq<i32>, name: string, v: i32, count: nat)
    requires ParamsIn(G, params, args, count)
    ensures ParamsIn(G, params + [name], args + [v], count)
  {
    hide Entering, Entry, DeclareParams, ParamIds, ParamNames, ParamVars, Declared1, PushScope;
    var base, n := PushScope(Ana([G], count, 0)), |params|;
    var a1, E, vars := DeclareParams(base, params), ParamNames(params, count), ParamVars(params, args);
    EntrySnoc(count, args, v);
    DeclareParamsSnoc(base, params, name);
    NamesSnoc(params, args, name, v, count);
    var locals := Entry(ParamIds(count, n), args);
    EnteringCount(a1, G, E, count + n, vars, locals);
    EnteringStep(a1, G, E, vars, locals, name, v);
  }

  lemma EnteringCount(b: Ana, G: SymScope, E: seq<Named>, count: nat, vars: seq<Variable>, locals: map<nat, i32>)
    requires Entering(b, G, E, count, vars, locals)
    ensures b.count == count
  {
    hide Static, LRel;
  }

  lemma NamesSnoc(params: seq<string>, args: seq<i32>, name: string, v: i32, count: nat)
    requires |params| == |args|
    ensures ParamNames(params + [name], count) == ParamNames(params, count) + [Named(name, LocalVar(count + |params|))]
    ensures ParamVars(params + [name], args + [v]) == ParamVars(params, args) + [Variable(name, Some(v))]
  {
  }

  lemma NoParams(G: SymScope, count: nat)
    ensures ParamsIn(G, [], [], count)
  {
    var S := PushScope(Ana([G], count, 0)).scopes;
    forall x ensures LookupSym(S, x) == Meaning(G, [], x) {
      assert S[..1] == [G] && [G][..0] == [];
      assert LookupSym([G], x) == if x in G then Some(G[x]) else LookupSym([], x);
    }
    assert ParamIds(count, 0) == [];
  }

  lemma DeclareParamsSnoc(a: Ana, params: seq<string>, name: string)
    ensures var a1 := DeclareParams(a, params); DeclareParams(a, params + [name]) == Declared1(a1, name, LocalVar(a1.count))
  {
    var ps := params + [name];
    assert ps[..|ps| - 1] == params && ps[|ps| - 1] == name;
  }

  lemma EntrySnoc(count: nat, args: seq<i32>, v: i32)
    ensures var n := |args|;
            && |ParamIds(count, n)| == n && |ParamIds(count, n + 1)| == n + 1
            && Entry(ParamIds(count, n + 1), args + [v]) == Entry(ParamIds(count, n), args)[count + n := v]
  {
    hide Entry, ParamIds;
    IdsSnoc(count, |args|);
    var xs := args + [v];
    assert xs[..|args|] == args;
    EntryUnfold(ParamIds(count, |args| + 1), xs);
  }

  lemma IdsSnoc(count: nat, n: nat)
    ensures |ParamIds(count, n)| == n && |ParamIds(count, n + 1)| == n + 1
    ensures ParamIds(count, n + 1)[..n] == ParamIds(count, n) && ParamIds(count, n + 1)[n] == count + n
  {
  }

  lemma EntryUnfold(ids: seq<nat>, xs: seq<i32>)
    requires 0 < |ids| == |xs|
    ensures var n := |ids| - 1; Entry(ids, xs) == Entry(ids[..n], xs[..n])[ids[n] := xs[n]]
  {
  }

  lemma RunDefIs(fs: seq<FuncDef>, name: string, args: seq<i32>, m: Scope, d: nat, k: nat) returns (f: FuncDef, r: After)
    requires RunDef(fs, name, args, m, d, k).Done?
    ensures FindDef(fs, name) == Some(f) && |f.params| == |args|
    ensures ExecList(fs, f.body, Env(ParamVars(f.params, args), m), d, k) == Done(r)
    ensures !r.flow.Broke? && !r.flow.Continued?
    ensures RunDef(fs, name, args, m, d, k).value == Answer(EndValue(r.flow, f.returnsVoid), r.env.globals)
  {
    hide ExecList;
    f := FindDef(fs, name).value;
    r := ExecList(fs, f.body, Env(ParamVars(f.params, args), m), d, k).value;
  }

  /** The scopes at the start of a function's body. */
  lemma BodyStart(p: Prog, f: FuncDef, t: TFunc, count: nat, args: seq<i32>) returns (a: Ana, E: seq<Named>)
    requires AnalyzedAt(p.G, p.fs, f, t, count) && |f.params| == |args|
    ensures Static(a, p.G, E) && LRel(E, ParamVars(f.params, args), Entry(t.params, args))
    ensures AnalyzeList(a, p.fs, f.body).Fine? && AnalyzeList(a, p.fs, f.body).value.0 == t.body
    ensures |t.params| == |args| && t.returnsVoid == f.returnsVoid
  {
    hide AnalyzeList, Static, LRel;
    var b := DeclareParams(PushScope(Ana([p.G], count, 0)), f.params);
    E := ParamNames(f.params, count);
    ParamsRel(p.G, f.params, args, count);
    a := PushScope(b);
    PushStatic(b, p.G, E);
  }

  /** A call of a source function that returns, returns the same in the annotated program. */
  lemma {:induction false} RunSim(p: Prog, name: string, args: seq<i32>, m: Scope, gs: seq<i32>, d: nat, k: nat) returns (gs': seq<i32>)
    requires ProgOk(p) && GRel(p.G, m, gs) && RunDef(p.fs, name, args, m, d, k).Done?
    ensures var a := RunDef(p.fs, name, args, m, d, k).value;
            && TRun(p.ts, name, args, gs, d, k) == Done(Result(a.val, gs'))
            && GRel(p.G, a.globals, gs')
    ensures FindDef(p.fs, name).Some? && FindTyped(p.ts, name).Some?
    decreases d, k, 1
  {
    hide LRel, GRel, ProgOk, Static, AnalyzeList, ExecList, TExecList, RunDef, AnalyzedAt;
    var f, r := RunDefIs(p.fs, name, args, m, d, k);
    var f', t, count := FindAnalyzedFunc(p, name);
    var a, E := BodyStart(p, f, t, count, args);
    var env, st := Env(ParamVars(f.params, args), m), Store(Entry(t.params, args), gs);
    var st' := ListSim(p, a, f.body, E, env, st, d, k);
    gs' := st'.globals;
  }
}
