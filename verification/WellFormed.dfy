/**
 * The rules of ToyC as the source tree has them: the faults that a program may
 * have, without scope stacks, symbols and marks; and analysis, which reports a
 * fault exactly if there is one.
 */
module WellFormed {
  import opened Word32
  import opened IR
  import opened Ast
  import opened Typed
  import opened Sema
  import SemaProof

  // ---- the rules ------------------------------------------------------------------------------

  /** A declared name, with its value if it is a constant. */
  datatype Decl = Decl(name: string, constant: Option<i32>)

  /** What was declared last under the name. */
  function Meaning(d: seq<Decl>, name: string): Option<Decl> {
    if d == [] then None
    else if d[|d| - 1].name == name then Some(d[|d| - 1])
    else Meaning(d[..|d| - 1], name)
  }

  /** The value of an expression that is one before the program runs. */
  function ConstOf(d: seq<Decl>, e: Expr): Option<i32> {
    match e
    case Number(n) => Some(n)
    case Var(name) => if Meaning(d, name).Some? then Meaning(d, name).value.constant else None
    case Binary(op, l, r) =>
      var x, y := ConstOf(d, l), ConstOf(d, r);
      if x.Some? && y.Some? then EvalBin(op, x.value, y.value) else None
    case Logical(isOr, l, r) =>
      var x, y := ConstOf(d, l), ConstOf(d, r);
      if x.None? then None
      else if isOr == (x.value != 0) then Some(Bit(isOr))
      else if y.Some? then Some(Bit(y.value != 0))
      else None
    case Unary(op, a) =>
      var x := ConstOf(d, a);
      if x.Some? then Some(EvalUnary(op, x.value)) else None
    case CallExpr(_, _) => None
  }

  /** The expression has the fault somewhere. */
  predicate ExprFault(x: Error, d: seq<Decl>, fs: seq<FuncDef>, e: Expr) {
    match e
    case Number(_) => false
    case Var(name) => x == Undeclared(name) && Meaning(d, name).None?
    case Binary(op, l, r) =>
      || ExprFault(x, d, fs, l) || ExprFault(x, d, fs, r)
      || (x == ConstDivByZero && (op.Div? || op.Mod?) && ConstOf(d, l).Some? && ConstOf(d, r) == Some(0))
    case Logical(_, l, r) => ExprFault(x, d, fs, l) || ExprFault(x, d, fs, r)
    case Unary(_, a) => ExprFault(x, d, fs, a)
    case CallExpr(f, args) =>
      || (x == UndeclaredFunction(f) && FindDef(fs, f).None?)
      || (x == WrongArgCount(f) && FindDef(fs, f).Some? && |FindDef(fs, f).value.params| != Length(args))
      || ArgsFault(x, d, fs, args)
  }

  predicate ArgsFault(x: Error, d: seq<Decl>, fs: seq<FuncDef>, es: List<Expr>) {
    es.Cons? && (ExprFault(x, d, fs, es.head) || ArgsFault(x, d, fs, es.tail))
  }

  /** What is declared behind a statement.  Blocks keep their declarations to themselves. */
  function Behind(d: seq<Decl>, s: Stmt): seq<Decl>
    decreases s
  {
    match s
    case VarDecl(isConst, name, e) => d + [Decl(name, if isConst then ConstOf(d, e) else None)]
    case If(_, t, e) => if e.Some? then Behind(Behind(d, t), e.value) else Behind(d, t)
    case While(_, b) => Behind(d, b)
    case _ => d
  }

  /** The statement, inside some loop or not, has the fault somewhere. */
  predicate StmtFault(x: Error, d: seq<Decl>, fs: seq<FuncDef>, looped: bool, s: Stmt)
    decreases s
  {
    match s
    case Compound(ss) => ListFault(x, d, fs, looped, ss)
    case Empty => false
    case ExprStmt(e) => ExprFault(x, d, fs, e)
    case Assign(name, e) =>
      || (x == Undeclared(name) && Meaning(d, name).None?)
      || (x == AssignToConst(name) && Meaning(d, name).Some? && Meaning(d, name).value.constant.Some?)
      || ExprFault(x, d, fs, e)
    case VarDecl(isConst, name, e) =>
      ExprFault(x, d, fs, e) || (x == NotConstant(name) && isConst && ConstOf(d, e).None?)
    case If(c, t, e) =>
      || ExprFault(x, d, fs, c) || StmtFault(x, d, fs, looped, t)
      || (e.Some? && StmtFault(x, Behind(d, t), fs, looped, e.value))
    case While(c, b) => ExprFault(x, d, fs, c) || StmtFault(x, d, fs, true, b)
    case Break => x == BreakOutsideLoop && !looped
    case Continue => x == ContinueOutsideLoop && !looped
    case Return(e) => e.Some? && ExprFault(x, d, fs, e.value)
  }

  predicate ListFault(x: Error, d: seq<Decl>, fs: seq<FuncDef>, looped: bool, ss: List<Stmt>)
    decreases ss
  {
    ss.Cons? && (StmtFault(x, d, fs, looped, ss.head) || ListFault(x, Behind(d, ss.head), fs, looped, ss.tail))
  }

  function ParamDecls(params: seq<string>): seq<Decl> {
    seq(|params|, i requires 0 <= i < |params| => Decl(params[i], None))
  }

  predicate FuncFault(x: Error, d: seq<Decl>, fs: seq<FuncDef>, f: FuncDef) {
    ListFault(x, d + ParamDecls(f.params), fs, false, f.body)
  }

  /** The global declarations of a program, in order. */
  function GlobalsOf(items: seq<Item>): seq<Decl> {
    if items == [] then []
    else
      var d := GlobalsOf(items[..|items| - 1]);
      match items[|items| - 1]
      case FuncItem(_) => d
      case GlobalItem(isConst, name, e) => d + [Decl(name, if isConst then ConstOf(d, e) else None)]
  }

  /**
   * A global initializer sees what stands before it and is constant in any case;
   * a function has a new name, sees all globals and functions, and `main` is
   * `int main()`.
   */
  ghost predicate ItemFault(x: Error, items: seq<Item>, i: nat)
    requires i < |items|
  {
    match items[i]
    case GlobalItem(_, name, e) =>
      var d, fs := GlobalsOf(items[..i]), FuncsOf(items[..i]);
      ExprFault(x, d, fs, e) || (x == NotConstant(name) && ConstOf(d, e).None?)
    case FuncItem(f) =>
      || (x == Redefinition(f.name) && exists g :: g in FuncsOf(items[..i]) && g.name == f.name)
      || (x == BadMain && f.name == "main" && (f.returnsVoid || f.params != []))
      || FuncFault(x, GlobalsOf(items), FuncsOf(items), f)
  }

  ghost predicate SomeItemFault(x: Error, items: seq<Item>) {
    exists i: nat :: i < |items| && ItemFault(x, items, i)
  }

  ghost predicate Fault(x: Error, items: seq<Item>) {
    || SomeItemFault(x, items)
    || (x == NoMain && !exists f :: f in FuncsOf(items) && f.name == "main")
  }

  ghost predicate WellFormedProgram(items: seq<Item>) {
    forall x :: !Fault(x, items)
  }

  // ---- scopes -----------------------------------------------------------------------------------

  /** The scope stack resolves every name to what was declared last under it. */
  ghost predicate Resolves(S: seq<SymScope>, d: seq<Decl>) {
    forall name ::
      match LookupSym(S, name)
      case None => Meaning(d, name).None?
      case Some(sym) =>
        Meaning(d, name).Some? && Meaning(d, name).value.constant == if sym.ConstSym? then Some(sym.constValue) else None
  }

  lemma ResolvesDeclared(S: seq<SymScope>, d: seq<Decl>, name: string, sym: Sym, c: Option<i32>)
    requires Resolves(S, d) && S != [] && c == if sym.ConstSym? then Some(sym.constValue) else None
    ensures Resolves(DeclareSym(S, name, sym), d + [Decl(name, c)])
  {
    var n, S', d' := |S| - 1, DeclareSym(S, name, sym), d + [Decl(name, c)];
    assert S'[..n] == S[..n] && d'[..|d|] == d;
    forall x ensures x != name ==> LookupSym(S', x) == LookupSym(S, x) && Meaning(d', x) == Meaning(d, x) {
    }
  }

  lemma ResolvesPushed(S: seq<SymScope>, d: seq<Decl>)
    requires Resolves(S, d)
    ensures Resolves(S + [map[]], d)
  {
    var S' := S + [map[]];
    assert S'[..|S|] == S;
    forall x ensures LookupSym(S', x) == LookupSym(S, x) {
    }
  }

  // ---- expressions --------------------------------------------------------------------------------

  ghost predicate ExprFine(d: seq<Decl>, fs: seq<FuncDef>, e: Expr) {
    forall x :: !ExprFault(x, d, fs, e)
  }

  ghost predicate ArgsFine(d: seq<Decl>, fs: seq<FuncDef>, es: List<Expr>) {
    forall x :: !ArgsFault(x, d, fs, es)
  }

  ghost predicate ExprRight(r: Checked<TExpr>, d: seq<Decl>, fs: seq<FuncDef>, e: Expr) {
    match r
    case Bad(x) => ExprFault(x, d, fs, e)
    case Fine(t) => ExprFine(d, fs, e) && t.mark == ConstOf(d, e)
  }

  /** Analysis of an expression fails with a fault of it, or there is none and the mark is the value. */
  lemma {:induction false} ExprExact(S: seq<SymScope>, d: seq<Decl>, fs: seq<FuncDef>, e: Expr)
    requires Resolves(S, d)
    ensures ExprRight(AnalyzeExpr(S, fs, e), d, fs, e)
    decreases e
  {
    hide FoldBin, EvalBin, LookupSym, Meaning;
    match e
    case Number(_) =>
    case Var(_) =>
    case Binary(op, l, r) =>
      ExprExact(S, d, fs, l);
      ExprExact(S, d, fs, r);
      BinaryExact(S, d, fs, e);
    case Logical(_, l, r) =>
      ExprExact(S, d, fs, l);
      ExprExact(S, d, fs, r);
      assert forall x :: ExprFault(x, d, fs, e) <==> ExprFault(x, d, fs, l) || ExprFault(x, d, fs, r);
    case Unary(op, a) =>
      ExprExact(S, d, fs, a);
      if ConstOf(d, a).Some? { SemaProof.FoldUnIs(op, ConstOf(d, a).value); }
      assert forall x :: ExprFault(x, d, fs, e) <==> ExprFault(x, d, fs, a);
    case CallExpr(f, args) =>
      ArgsExact(S, d, fs, args);
      var g := FindDef(fs, f);
      assert forall x :: ExprFault(x, d, fs, e) <==>
        || (x == UndeclaredFunction(f) && g.None?) || (x == WrongArgCount(f) && g.Some? && |g.value.params| != Length(args))
        || ArgsFault(x, d, fs, args);
  }

  lemma BinaryExact(S: seq<SymScope>, d: seq<Decl>, fs: seq<FuncDef>, e: Expr)
    requires e.Binary? && ExprRight(AnalyzeExpr(S, fs, e.lhs), d, fs, e.lhs) && ExprRight(AnalyzeExpr(S, fs, e.rhs), d, fs, e.rhs)
    ensures ExprRight(AnalyzeExpr(S, fs, e), d, fs, e)
  {
    hide FoldBin, EvalBin;
    var x, y := ConstOf(d, e.lhs), ConstOf(d, e.rhs);
    if x.Some? && y.Some? {
      SemaProof.FoldBinIs(e.op, x.value, y.value);
      FoldFails(e.op, x.value, y.value);
    }
    if AnalyzeExpr(S, fs, e).Fine? {
      assert AnalyzeExpr(S, fs, e.lhs).Fine? && AnalyzeExpr(S, fs, e.rhs).Fine?;
      forall z ensures !ExprFault(z, d, fs, e) {
        assert !ExprFault(z, d, fs, e.lhs) && !ExprFault(z, d, fs, e.rhs);
      }
    }
  }

  lemma {:induction false} ArgsExact(S: seq<SymScope>, d: seq<Decl>, fs: seq<FuncDef>, es: List<Expr>)
    requires Resolves(S, d)
    ensures match AnalyzeArgs(S, fs, es)
            case Bad(x) => ArgsFault(x, d, fs, es)
            case Fine(_) => ArgsFine(d, fs, es)
    decreases es
  {
    if es.Cons? {
      ExprExact(S, d, fs, es.head);
      ArgsExact(S, d, fs, es.tail);
      assert forall x :: ArgsFault(x, d, fs, es) <==> ExprFault(x, d, fs, es.head) || ArgsFault(x, d, fs, es.tail);
    }
  }

  lemma FoldFails(op: BinOp, a: i32, b: i32)
    ensures EvalBin(op, a, b).None? <==> (op.Div? || op.Mod?) && b == 0
  {
  }

  // ---- statements ---------------------------------------------------------------------------------

  ghost predicate StmtFine(d: seq<Decl>, fs: seq<FuncDef>, looped: bool, s: Stmt) {
    forall x :: !StmtFault(x, d, fs, looped, s)
  }

  ghost predicate ListFine(d: seq<Decl>, fs: seq<FuncDef>, looped: bool, ss: List<Stmt>) {
    forall x :: !ListFault(x, d, fs, looped, ss)
  }

  /** What analysis leaves: the scopes resolve the new declarations, and the outer ones are untouched. */
  ghost predicate Left(a: Ana, b: Ana, d: seq<Decl>) {
    && Resolves(b.scopes, d) && b.loopDepth == a.loopDepth && |b.scopes| == |a.scopes| > 0
    && b.scopes[..|b.scopes| - 1] == a.scopes[..|a.scopes| - 1]
  }

  ghost predicate StmtRight(r: Checked<(TStmt, Ana)>, a: Ana, d: seq<Decl>, fs: seq<FuncDef>, s: Stmt) {
    match r
    case Bad(x) => StmtFault(x, d, fs, a.loopDepth > 0, s)
    case Fine((_, b)) => StmtFine(d, fs, a.loopDepth > 0, s) && Left(a, b, Behind(d, s))
  }

  function BehindList(d: seq<Decl>, ss: List<Stmt>): seq<Decl>
    decreases ss
  {
    if ss.Nil? then d else BehindList(Behind(d, ss.head), ss.tail)
  }

  ghost predicate ListRight(r: Checked<(List<TStmt>, Ana)>, a: Ana, d: seq<Decl>, fs: seq<FuncDef>, ss: List<Stmt>) {
    match r
    case Bad(x) => ListFault(x, d, fs, a.loopDepth > 0, ss)
    case Fine((_, b)) => ListFine(d, fs, a.loopDepth > 0, ss) && Left(a, b, BehindList(d, ss))
  }

  lemma LeftBlock(a: Ana, b: Ana, d: seq<Decl>, d': seq<Decl>)
    requires Resolves(a.scopes, d) && a.scopes != [] && Left(PushScope(a), b, d')
    ensures Left(a, PopScope(b), d)
  {
    assert PushScope(a).scopes[..|a.scopes|] == a.scopes;
  }

  /** Analysis of a statement fails with a fault of it, or there is none. */
  lemma {:induction false} StmtExact(a: Ana, d: seq<Decl>, fs: seq<FuncDef>, s: Stmt)
    requires Resolves(a.scopes, d) && a.scopes != []
    ensures StmtRight(AnalyzeStmt(a, fs, s), a, d, fs, s)
    decreases s
  {
    hide AnalyzeExpr, ExprFault, ConstOf;
    var looped := a.loopDepth > 0;
    match s
    case Compound(ss) =>
      ResolvesPushed(a.scopes, d);
      ListExact(PushScope(a), d, fs, ss);
      assert forall x :: StmtFault(x, d, fs, looped, s) <==> ListFault(x, d, fs, looped, ss);
      if AnalyzeList(PushScope(a), fs, ss).Fine? {
        LeftBlock(a, AnalyzeList(PushScope(a), fs, ss).value.1, d, BehindList(d, ss));
      }
    case Empty =>
    case ExprStmt(e) => ExprExact(a.scopes, d, fs, e);
    case Assign(name, e) =>
      ExprExact(a.scopes, d, fs, e);
    case VarDecl(isConst, name, e) =>
      ExprExact(a.scopes, d, fs, e);
      DeclExact(a, d, fs, s);
    case If(c, t, e) =>
      ExprExact(a.scopes, d, fs, c);
      StmtExact(a, d, fs, t);
      IfExact(a, d, fs, s);
    case While(c, b) =>
      ExprExact(a.scopes, d, fs, c);
      StmtExact(a.(loopDepth := a.loopDepth + 1), d, fs, b);
      assert forall x :: StmtFault(x, d, fs, looped, s) <==> ExprFault(x, d, fs, c) || StmtFault(x, d, fs, true, b);
    case Break =>
    case Continue =>
    case Return(e) => if e.Some? { ExprExact(a.scopes, d, fs, e.value); }
  }

  lemma {:induction false} DeclExact(a: Ana, d: seq<Decl>, fs: seq<FuncDef>, s: Stmt)
    requires Resolves(a.scopes, d) && a.scopes != [] && s.VarDecl?
    ensures StmtRight(AnalyzeStmt(a, fs, s), a, d, fs, s)
  {
    hide AnalyzeExpr, ExprFault, ConstOf, Resolves;
    ExprExact(a.scopes, d, fs, s.init);
    var r := AnalyzeExpr(a.scopes, fs, s.init);
    if r.Fine? && (s.isConst ==> r.value.mark.Some?) {
      var sym := if s.isConst then ConstSym(r.value.mark.value) else LocalVar(a.count);
      ResolvesDeclared(a.scopes, d, s.name, sym, if s.isConst then ConstOf(d, s.init) else None);
    }
  }

  lemma {:induction false} IfExact(a: Ana, d: seq<Decl>, fs: seq<FuncDef>, s: Stmt)
    requires Resolves(a.scopes, d) && a.scopes != [] && s.If?
    requires StmtRight(AnalyzeStmt(a, fs, s.then_), a, d, fs, s.then_)
    ensures StmtRight(AnalyzeStmt(a, fs, s), a, d, fs, s)
    decreases s, 0
  {
    hide AnalyzeExpr, ExprFault, ConstOf, Resolves;
    ExprExact(a.scopes, d, fs, s.cond);
    var r := AnalyzeStmt(a, fs, s.then_);
    var looped := a.loopDepth > 0;
    assert forall x :: StmtFault(x, d, fs, looped, s) <==>
      || ExprFault(x, d, fs, s.cond) || StmtFault(x, d, fs, looped, s.then_)
      || (s.else_.Some? && StmtFault(x, Behind(d, s.then_), fs, looped, s.else_.value));
    if r.Fine? && s.else_.Some? {
      StmtExact(r.value.1, Behind(d, s.then_), fs, s.else_.value);
    }
  }

  lemma {:induction false} ListExact(a: Ana, d: seq<Decl>, fs: seq<FuncDef>, ss: List<Stmt>)
    requires Resolves(a.scopes, d) && a.scopes != []
    ensures ListRight(AnalyzeList(a, fs, ss), a, d, fs, ss)
    decreases ss
  {
    hide Resolves, AnalyzeStmt, StmtFault, Behind;
    if ss.Cons? {
      StmtExact(a, d, fs, ss.head);
      var looped := a.loopDepth > 0;
      assert forall x :: ListFault(x, d, fs, looped, ss) <==>
        StmtFault(x, d, fs, looped, ss.head) || ListFault(x, Behind(d, ss.head), fs, looped, ss.tail);
      var r := AnalyzeStmt(a, fs, ss.head);
      if r.Fine? { ListExact(r.value.1, Behind(d, ss.head), fs, ss.tail); }
    }
  }

  // ---- functions ----------------------------------------------------------------------------------

  ghost predicate FuncFine(d: seq<Decl>, fs: seq<FuncDef>, f: FuncDef) {
    forall x :: !FuncFault(x, d, fs, f)
  }

  lemma {:induction false} ParamsResolve(a: Ana, d: seq<Decl>, params: seq<string>)
    requires Resolves(a.scopes, d) && a.scopes != []
    ensures Left(a, DeclareParams(a, params), d + ParamDecls(params))
  {
    if params == [] {
      assert d + ParamDecls(params) == d;
    } else {
      var front, name := params[..|params| - 1], params[|params| - 1];
      ParamsResolve(a, d, front);
      var a1 := DeclareParams(a, front);
      ResolvesDeclared(a1.scopes, d + ParamDecls(front), name, LocalVar(a1.count), None);
      assert d + ParamDecls(params) == d + ParamDecls(front) + [Decl(name, None)];
    }
  }

  lemma FuncExact(a: Ana, d: seq<Decl>, fs: seq<FuncDef>, f: FuncDef)
    requires Resolves(a.scopes, d) && a.scopes != [] && a.loopDepth == 0
    ensures match AnalyzeFunc(a, fs, f)
            case Bad(x) => FuncFault(x, d, fs, f)
            case Fine((_, b)) => FuncFine(d, fs, f) && Left(a, b, d)
  {
    hide Resolves, AnalyzeList, ListFault, DeclareParams;
    var a1 := PushScope(a);
    ResolvesPushed(a.scopes, d);
    ParamsResolve(a1, d, f.params);
    var a2, d2 := DeclareParams(a1, f.params), d + ParamDecls(f.params);
    ResolvesPushed(a2.scopes, d2);
    ListExact(PushScope(a2), d2, fs, f.body);
    var r := AnalyzeList(PushScope(a2), fs, f.body);
    if r.Fine? {
      LeftBlock(a2, r.value.1, d2, BehindList(d2, f.body));
      var b := PopScope(r.value.1);
      LeftTrans(a1, a2, b, d2, d2);
      LeftBlock(a, b, d, d2);
    }
  }

  lemma LeftTrans(a: Ana, b: Ana, c: Ana, d: seq<Decl>, d': seq<Decl>)
    requires Left(a, b, d) && Left(b, c, d')
    ensures Left(a, c, d')
  {
  }

  lemma {:induction false} FuncsExact(a: Ana, d: seq<Decl>, fs: seq<FuncDef>, todo: seq<FuncDef>)
    requires Resolves(a.scopes, d) && a.scopes != [] && a.loopDepth == 0
    ensures match AnalyzeFuncs(a, fs, todo)
            case Bad(x) => exists f :: f in todo && FuncFault(x, d, fs, f)
            case Fine(_) => forall f | f in todo :: FuncFine(d, fs, f)
    decreases |todo|
  {
    hide Resolves, AnalyzeFunc, FuncFault;
    if todo != [] {
      FuncExact(a, d, fs, todo[0]);
      var r := AnalyzeFunc(a, fs, todo[0]);
      if r.Fine? {
        FuncsExact(r.value.1, d, fs, todo[1..]);
        assert forall f | f in todo :: f == todo[0] || f in todo[1..];
        var q := AnalyzeFuncs(r.value.1, fs, todo[1..]);
        if q.Bad? {
          var f :| f in todo[1..] && FuncFault(q.error, d, fs, f);
          assert f in todo;
        }
      } else {
        assert todo[0] in todo;
      }
    }
  }

  // ---- programs -----------------------------------------------------------------------------------

  lemma {:induction false} FuncsSnoc(items: seq<Item>, item: Item)
    ensures FuncsOf(items + [item]) == FuncsOf(items) + if item.FuncItem? then [item.def] else []
  {
    if items == [] {
      assert [item][1..] == [];
    } else {
      var head := if items[0].FuncItem? then [items[0].def] else [];
      assert (items + [item])[1..] == items[1..] + [item];
      FuncsSnoc(items[1..], item);
      assert FuncsOf(items + [item]) == head + FuncsOf(items[1..] + [item]);
      assert FuncsOf(items) == head + FuncsOf(items[1..]);
      hide FuncsOf;
    }
  }

  lemma {:induction false} FuncsIn(items: seq<Item>, f: FuncDef)
    ensures f in FuncsOf(items) <==> exists i :: 0 <= i < |items| && items[i] == FuncItem(f)
  {
    if items != [] {
      FuncsIn(items[1..], f);
      if i :| 0 <= i < |items| && items[i] == FuncItem(f) {
        if i > 0 { assert items[1..][i - 1] == FuncItem(f); }
      }
    }
  }

  lemma {:induction false} FindDefIn(fs: seq<FuncDef>, name: string)
    ensures FindDef(fs, name).Some? <==> exists f :: f in fs && f.name == name
  {
    if fs != [] {
      FindDefIn(fs[1..], name);
      if f :| f in fs && f.name == name {
        assert f == fs[0] || f in fs[1..];
      }
    }
  }

  /** The first pass stands behind the first n items. */
  ghost predicate Reached(g: Globals, items: seq<Item>, n: nat) {
    n <= |items| && Resolves([g.scope], GlobalsOf(items[..n])) && g.fs == FuncsOf(items[..n])
  }

  /** Item i has no fault that the first pass looks for. */
  ghost predicate SignatureFine(items: seq<Item>, i: nat)
    requires i < |items|
  {
    match items[i]
    case GlobalItem(_, _, _) => forall x :: !ItemFault(x, items, i)
    case FuncItem(f) =>
      (forall g | g in FuncsOf(items[..i]) :: g.name != f.name) && (f.name == "main" ==> !f.returnsVoid && f.params == [])
  }

  lemma ItemExact(g: Globals, items: seq<Item>, n: nat)
    requires n < |items| && Reached(g, items, n)
    ensures match AnalyzeItem(g, items[n])
            case Bad(x) => ItemFault(x, items, n)
            case Fine(h) => SignatureFine(items, n) && Reached(h, items, n + 1)
  {
    hide AnalyzeExpr, ExprFault, ConstOf, FuncFault, FuncsOf, Resolves;
    var d := GlobalsOf(items[..n]);
    assert items[..n + 1] == items[..n] + [items[n]];
    assert items[..n + 1][..n] == items[..n];
    FuncsSnoc(items[..n], items[n]);
    match items[n]
    case FuncItem(f) => FindDefIn(g.fs, f.name);
    case GlobalItem(isConst, name, e) =>
      ExprExact([g.scope], d, g.fs, e);
      var r := AnalyzeExpr([g.scope], g.fs, e);
      if r.Fine? && r.value.mark.Some? {
        var sym := if isConst then ConstSym(r.value.mark.value) else GlobalVar(|g.vars|);
        ResolvesDeclared([g.scope], d, name, sym, if isConst then ConstOf(d, e) else None);
        assert DeclareSym([g.scope], name, sym) == [g.scope[name := sym]];
      }
  }

  lemma SomeItem(x: Error, items: seq<Item>, i: nat)
    requires i < |items| && ItemFault(x, items, i)
    ensures SomeItemFault(x, items)
  {
  }

  lemma {:induction false} ItemsExact(g: Globals, items: seq<Item>, n: nat)
    requires n <= |items| && Reached(g, items, n)
    requires forall i | 0 <= i < n :: SignatureFine(items, i)
    ensures match AnalyzeItems(g, items[n..])
            case Bad(x) => SomeItemFault(x, items)
            case Fine(h) => Reached(h, items, |items|) && forall i | 0 <= i < |items| :: SignatureFine(items, i)
    decreases |items| - n
  {
    hide AnalyzeItem, ItemFault, SignatureFine, Reached;
    if n < |items| {
      assert items[n..][0] == items[n] && items[n..][1..] == items[n + 1..];
      ItemExact(g, items, n);
      if AnalyzeItem(g, items[n]).Bad? {
        assert AnalyzeItems(g, items[n..]) == Bad(AnalyzeItem(g, items[n]).error);
        SomeItem(AnalyzeItem(g, items[n]).error, items, n);
      }
      if AnalyzeItem(g, items[n]).Fine? { ItemsExact(AnalyzeItem(g, items[n]).value, items, n + 1); }
    }
  }

  /** Analysis accepts exactly the well-formed programs, and the error it reports is a fault of the program. */
  lemma AnalyzeExact(items: seq<Item>)
    ensures Analyze(items).Fine? <==> WellFormedProgram(items)
    ensures Analyze(items).Bad? ==> Fault(Analyze(items).error, items)
  {
    hide AnalyzeItems, AnalyzeFuncs, FuncFault, FuncsOf, GlobalsOf, Resolves;
    var g0 := Globals(map[], [], [], 0);
    assert items[0..] == items && items[..0] == [] && items[..|items|] == items;
    assert Reached(g0, items, 0) by { ReachedStart(items); }
    ItemsExact(g0, items, 0);
    var r := AnalyzeItems(g0, items);
    assert r.Bad? ==> Fault(r.error, items);
    if r.Fine? {
      var g := r.value;
      FindDefIn(g.fs, "main");
      assert g.fs == FuncsOf(items);
      assert FindDef(g.fs, "main").None? ==> Analyze(items) == Bad(NoMain) && Fault(NoMain, items);
      if FindDef(g.fs, "main").Some? {
        var d := GlobalsOf(items);
        FuncsExact(Ana([g.scope], g.count, 0), d, g.fs, g.fs);
        forall f ensures f in g.fs <==> exists i :: 0 <= i < |items| && items[i] == FuncItem(f) {
          FuncsIn(items, f);
        }
        var q := AnalyzeFuncs(Ana([g.scope], g.count, 0), g.fs, g.fs);
        if q.Bad? {
          var f :| f in g.fs && FuncFault(q.error, d, g.fs, f);
          var i :| 0 <= i < |items| && items[i] == FuncItem(f);
          SomeItem(q.error, items, i);
          assert Analyze(items) == Bad(q.error) && Fault(q.error, items);
        } else {
          forall x, i | 0 <= i < |items| ensures !ItemFault(x, items, i) {
            assert SignatureFine(items, i);
            if items[i].FuncItem? { assert FuncFine(d, g.fs, items[i].def); }
          }
          assert WellFormedProgram(items);
        }
      }
    }
  }

  lemma ReachedStart(items: seq<Item>)
    ensures Reached(Globals(map[], [], [], 0), items, 0)
  {
    assert items[..0] == [];
    var S: seq<SymScope> := [map[]];
    assert S[..0] == [];
    forall name ensures LookupSym(S, name).None? {
    }
  }
}
