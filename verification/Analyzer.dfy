/** Semantic analysis as it runs: one object with the scope stack, the functions and the loop depth. */
module Analyzer {
  import opened Word32
  import opened IR
  import opened Ast
  import opened Typed
  import S = Sema
  import W = WellFormed

  class Sema {
    var scopes: seq<S.SymScope>
    var count: nat
    var loopDepth: nat
    var funcs: seq<FuncDef>
    var globals: seq<Global>

    constructor ()
      ensures scopes == [] && count == 0 && loopDepth == 0 && funcs == [] && globals == []
    {
      scopes, count, loopDepth, funcs, globals := [], 0, 0, [], [];
    }

    function State(): S.Ana
      reads this
    {
      S.Ana(scopes, count, loopDepth)
    }

    method PushScope()
      modifies this`scopes
      ensures State() == S.PushScope(old(State()))
    {
      scopes := scopes + [map[]];
    }

    method PopScope()
      requires scopes != []
      modifies this`scopes
      ensures State() == S.PopScope(old(State()))
    {
      scopes := scopes[..|scopes| - 1];
    }

    /** A new symbol in the innermost scope. */
    method Declare(name: string, sym: Sym)
      requires scopes != []
      modifies this`scopes, this`count
      ensures State() == S.Declared1(old(State()), name, sym)
    {
      var n := |scopes| - 1;
      var top: S.SymScope := scopes[n][name := sym];
      scopes := scopes[..n] + [top];
      count := count + 1;
    }

    /** From the innermost scope outwards. */
    method Lookup(name: string) returns (sym: Option<Sym>)
      ensures sym == S.LookupSym(scopes, name)
    {
      var n := |scopes|;
      assert scopes[..n] == scopes;
      while n > 0
        invariant 0 <= n <= |scopes|
        invariant S.LookupSym(scopes[..n], name) == S.LookupSym(scopes, name)
      {
        assert scopes[..n][..n - 1] == scopes[..n - 1];
        if name in scopes[n - 1] { return Some(scopes[n - 1][name]); }
        n := n - 1;
      }
      sym := None;
    }

    // ---- expressions ----

    method AnalyzeExpr(e: Expr) returns (r: S.Checked<TExpr>)
      ensures r == S.AnalyzeExpr(scopes, funcs, e)
      decreases e
    {
      hide S.FoldBin;
      match e
      case Number(n) => return S.Fine(TExpr(Some(n), TNumber(n)));
      case Var(name) =>
        var sym := Lookup(name);
        if sym.None? { return S.Bad(S.Undeclared(name)); }
        r := S.Fine(TExpr(if sym.value.ConstSym? then Some(sym.value.constValue) else None, TVar(sym.value)));
      case Binary(op, l, r0) =>
        var tl := AnalyzeExpr(l);
        if tl.Bad? { return tl; }
        var tr := AnalyzeExpr(r0);
        if tr.Bad? { return tr; }
        if tl.value.mark.Some? && tr.value.mark.Some? {
          var v := S.FoldBin(op, tl.value.mark.value, tr.value.mark.value);
          if v.None? { return S.Bad(S.ConstDivByZero); }
          return S.Fine(TExpr(v, TBinary(op, tl.value, tr.value)));
        }
        r := S.Fine(TExpr(None, TBinary(op, tl.value, tr.value)));
      case Logical(isOr, l, r0) =>
        var tl := AnalyzeExpr(l);
        if tl.Bad? { return tl; }
        var tr := AnalyzeExpr(r0);
        if tr.Bad? { return tr; }
        var mark: Option<i32> := None;
        if tl.value.mark.Some? {
          var lv := tl.value.mark.value;
          if isOr && lv != 0 {
            mark := Some(1);
          } else if !isOr && lv == 0 {
            mark := Some(0);
          } else if tr.value.mark.Some? {
            mark := Some(if tr.value.mark.value != 0 then 1 else 0);
          }
        }
        r := S.Fine(TExpr(mark, TLogical(isOr, tl.value, tr.value)));
      case Unary(op, a) =>
        var ta := AnalyzeExpr(a);
        if ta.Bad? { return ta; }
        r := S.Fine(TExpr(if ta.value.mark.Some? then Some(S.FoldUn(op, ta.value.mark.value)) else None, TUnary(op, ta.value)));
      case CallExpr(callee, args) =>
        var f := FindDef(funcs, callee);
        if f.None? { return S.Bad(S.UndeclaredFunction(callee)); }
        if S.Length(args) != |f.value.params| { return S.Bad(S.WrongArgCount(callee)); }
        var ts := AnalyzeArgs(args);
        if ts.Bad? { return S.Bad(ts.error); }
        r := S.Fine(TExpr(None, TCall(callee, f.value.returnsVoid, ts.value)));
    }

    method AnalyzeArgs(es: List<Expr>) returns (r: S.Checked<List<TExpr>>)
      ensures r == S.AnalyzeArgs(scopes, funcs, es)
      decreases es
    {
      match es
      case Nil => r := S.Fine(Nil);
      case Cons(e, rest) =>
        var t := AnalyzeExpr(e);
        if t.Bad? { return S.Bad(t.error); }
        var ts := AnalyzeArgs(rest);
        if ts.Bad? { return ts; }
        r := S.Fine(Cons(t.value, ts.value));
    }

    // ---- statements ----

    /** The statement's analysis, as the specification has it. */
    ghost predicate Did<T>(r: S.Checked<T>, spec: S.Checked<(T, S.Ana)>)
      reads this
    {
      match spec
      case Bad(x) => r == S.Bad(x)
      case Fine((t, b)) => r == S.Fine(t) && State() == b
    }

    method AnalyzeStmt(s: Stmt) returns (r: S.Checked<TStmt>)
      requires scopes != []
      modifies this`scopes, this`count, this`loopDepth
      ensures Did(r, S.AnalyzeStmt(old(State()), funcs, s))
      ensures r.Fine? ==> |scopes| == |old(scopes)|
      decreases s
    {
      hide S.AnalyzeExpr;
      match s
      case Compound(ss) =>
        PushScope();
        var ts := AnalyzeList(ss);
        if ts.Bad? { return S.Bad(ts.error); }
        PopScope();
        r := S.Fine(TBlock(ts.value));
      case Empty => r := S.Fine(TEmpty);
      case ExprStmt(e) =>
        var t := AnalyzeExpr(e);
        if t.Bad? { return S.Bad(t.error); }
        r := S.Fine(TExprStmt(t.value));
      case Assign(name, e) =>
        var sym := Lookup(name);
        if sym.None? { return S.Bad(S.Undeclared(name)); }
        if sym.value.ConstSym? { return S.Bad(S.AssignToConst(name)); }
        var t := AnalyzeExpr(e);
        if t.Bad? { return S.Bad(t.error); }
        r := S.Fine(TAssign(sym.value, t.value));
      case VarDecl(isConst, name, e) =>
        var t := AnalyzeExpr(e);
        if t.Bad? { return S.Bad(t.error); }
        var id := count;
        if isConst {
          if t.value.mark.None? { return S.Bad(S.NotConstant(name)); }
          Declare(name, ConstSym(t.value.mark.value));
        } else {
          Declare(name, LocalVar(id));
        }
        r := S.Fine(TVarDecl(isConst, id, t.value));
      case If(_, _, _) => r := AnalyzeIf(s);
      case While(c, b) =>
        var tc := AnalyzeExpr(c);
        if tc.Bad? { return S.Bad(tc.error); }
        var depth := loopDepth;
        loopDepth := loopDepth + 1;
        var tb := AnalyzeStmt(b);
        if tb.Bad? { return tb; }
        loopDepth := depth;
        r := S.Fine(TWhile(tc.value, tb.value));
      case Break =>
        if loopDepth == 0 { return S.Bad(S.BreakOutsideLoop); }
        r := S.Fine(TBreak);
      case Continue =>
        if loopDepth == 0 { return S.Bad(S.ContinueOutsideLoop); }
        r := S.Fine(TContinue);
      case Return(None) => r := S.Fine(TReturn(None));
      case Return(Some(e)) =>
        var t := AnalyzeExpr(e);
        if t.Bad? { return S.Bad(t.error); }
        r := S.Fine(TReturn(Some(t.value)));
    }

    method AnalyzeIf(s: Stmt) returns (r: S.Checked<TStmt>)
      requires scopes != [] && s.If?
      modifies this`scopes, this`count, this`loopDepth
      ensures Did(r, S.AnalyzeStmt(old(State()), funcs, s))
      ensures r.Fine? ==> |scopes| == |old(scopes)|
      decreases s, 0
    {
      hide S.AnalyzeExpr;
      var tc := AnalyzeExpr(s.cond);
      if tc.Bad? { return S.Bad(tc.error); }
      var tt := AnalyzeStmt(s.then_);
      if tt.Bad? { return tt; }
      if s.else_.None? { return S.Fine(TIf(tc.value, tt.value, None)); }
      var te := AnalyzeStmt(s.else_.value);
      if te.Bad? { return te; }
      r := S.Fine(TIf(tc.value, tt.value, Some(te.value)));
    }

    method AnalyzeList(ss: List<Stmt>) returns (r: S.Checked<List<TStmt>>)
      requires scopes != []
      modifies this`scopes, this`count, this`loopDepth
      ensures Did(r, S.AnalyzeList(old(State()), funcs, ss))
      ensures r.Fine? ==> |scopes| == |old(scopes)|
      decreases ss
    {
      hide S.AnalyzeStmt;
      match ss
      case Nil => r := S.Fine(Nil);
      case Cons(s, rest) =>
        var t := AnalyzeStmt(s);
        if t.Bad? { return S.Bad(t.error); }
        var ts := AnalyzeList(rest);
        if ts.Bad? { return ts; }
        r := S.Fine(Cons(t.value, ts.value));
    }

    // ---- functions and programs ----

    /** The parameters, each with the next symbol. */
    method DeclareAll(params: seq<string>) returns (ids: seq<nat>)
      requires scopes != []
      modifies this`scopes, this`count
      ensures State() == S.DeclareParams(old(State()), params) && |scopes| == |old(scopes)|
      ensures ids == S.ParamIds(old(count), |params|)
    {
      ghost var a := State();
      ids := [];
      for i := 0 to |params|
        invariant State() == S.DeclareParams(a, params[..i]) && |scopes| == |a.scopes|
        invariant count == a.count + i && ids == S.ParamIds(a.count, i)
      {
        ids := ids + [count];
        Declare(params[i], LocalVar(count));
        assert params[..i + 1][..i] == params[..i];
      }
      assert params[..|params|] == params;
    }

    method AnalyzeFunc(f: FuncDef) returns (r: S.Checked<TFunc>)
      modifies this`scopes, this`count, this`loopDepth
      ensures Did(r, S.AnalyzeFunc(old(State()), funcs, f))
    {
      hide S.AnalyzeList;
      PushScope();
      var ids := DeclareAll(f.params);
      PushScope();
      var body := AnalyzeList(f.body);
      if body.Bad? { return S.Bad(body.error); }
      PopScope();
      PopScope();
      r := S.Fine(TFunc(f.returnsVoid, f.name, ids, body.value));
    }

    /** The first pass, over globals and function names. */
    function Pass1(): S.Globals
      requires |scopes| > 0
      reads this
    {
      S.Globals(scopes[0], globals, funcs, count)
    }

    method AnalyzeItem(item: Item) returns (error: Option<S.Error>)
      requires |scopes| == 1
      modifies this
      ensures |scopes| == 1 && loopDepth == old(loopDepth)
      ensures match S.AnalyzeItem(old(Pass1()), item)
              case Bad(x) => error == Some(x)
              case Fine(g) => error.None? && Pass1() == g
    {
      hide S.AnalyzeExpr;
      error := None;
      match item
      case FuncItem(f) =>
        if FindDef(funcs, f.name).Some? { return Some(S.Redefinition(f.name)); }
        if f.name == "main" && (f.returnsVoid || |f.params| > 0) { return Some(S.BadMain); }
        funcs := funcs + [f];
      case GlobalItem(isConst, name, e) =>
        assert scopes == [scopes[0]];
        var t := AnalyzeExpr(e);
        if t.Bad? { return Some(t.error); }
        if t.value.mark.None? { return Some(S.NotConstant(name)); }
        if isConst {
          Declare(name, ConstSym(t.value.mark.value));
        } else {
          Declare(name, GlobalVar(|globals|));
          globals := globals + [Global(name, t.value.mark.value)];
        }
    }

    /**
     * `analyze`: globals and signatures first, then every body in source order.  Accepts
     * exactly the well-formed programs; an error is a fault that the program has.
     */
    method Analyze(items: seq<Item>) returns (r: S.Checked<TModule>)
      requires scopes == [] && count == 0 && loopDepth == 0 && funcs == [] && globals == []
      modifies this
      ensures r == S.Analyze(items)
      ensures r.Fine? <==> W.WellFormedProgram(items)
      ensures r.Bad? ==> W.Fault(r.error, items)
    {
      hide S.AnalyzeItem, S.AnalyzeFunc, W.WellFormedProgram, W.Fault;
      W.AnalyzeExact(items);
      PushScope();
      ghost var g0 := Pass1();
      assert g0 == S.Globals(map[], [], [], 0) && items[0..] == items;
      for i := 0 to |items|
        invariant |scopes| == 1 && loopDepth == 0
        invariant S.AnalyzeItems(Pass1(), items[i..]) == S.AnalyzeItems(g0, items)
      {
        assert items[i..][1..] == items[i + 1..] && items[i..][0] == items[i];
        var error := AnalyzeItem(items[i]);
        if error.Some? { return S.Bad(error.value); }
      }
      assert items[|items|..] == [];
      assert S.AnalyzeItems(g0, items) == S.Fine(Pass1());
      if FindDef(funcs, "main").None? { return S.Bad(S.NoMain); }
      ghost var fs, a0, gs := funcs, State(), globals;
      ghost var spec := S.AnalyzeFuncs(a0, fs, fs);
      assert a0 == S.Ana([scopes[0]], count, 0) && fs[0..] == fs;
      var ts: seq<TFunc> := [];
      for i := 0 to |funcs|
        invariant funcs == fs && globals == gs
        invariant match spec
                  case Bad(x) => S.AnalyzeFuncs(State(), fs, fs[i..]) == S.Bad(x)
                  case Fine(all) => S.AnalyzeFuncs(State(), fs, fs[i..]).Fine? && all == ts + S.AnalyzeFuncs(State(), fs, fs[i..]).value
      {
        assert fs[i..][1..] == fs[i + 1..] && fs[i..][0] == fs[i];
        var t := AnalyzeFunc(funcs[i]);
        if t.Bad? { return S.Bad(t.error); }
        ts := ts + [t.value];
      }
      assert fs[|fs|..] == [] && S.AnalyzeFuncs(State(), fs, []) == S.Fine([]) && ts + [] == ts;
      r := S.Fine(TModule(globals, ts));
    }
  }
}
