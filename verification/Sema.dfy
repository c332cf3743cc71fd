/**
 * Semantic analysis: names become symbols, constant expressions are folded and
 * marked, and what ToyC forbids is rejected.
 */
module Sema {
  import opened Word32
  import opened IR
  import opened Ast
  import opened Typed

  datatype Error =
    | Undeclared(name: string)
    | AssignToConst(name: string)
    | NotConstant(name: string)
    | ConstDivByZero
    | BreakOutsideLoop
    | ContinueOutsideLoop
    | UndeclaredFunction(name: string)
    | WrongArgCount(name: string)
    | Redefinition(name: string)
    | BadMain
    | NoMain

  datatype Checked<+T> = Fine(value: T) | Bad(error: Error)

  type SymScope = map<string, Sym>

  /** `lookup`: from the innermost scope outwards. */
  function LookupSym(scopes: seq<SymScope>, name: string): Option<Sym> {
    if scopes == [] then None
    else
      var top := scopes[|scopes| - 1];
      if name in top then Some(top[name]) else LookupSym(scopes[..|scopes| - 1], name)
  }

  function DeclareSym(scopes: seq<SymScope>, name: string, sym: Sym): seq<SymScope> {
    if scopes == [] then []
    else
      var n := |scopes| - 1;
      var top: SymScope := scopes[n][name := sym];
      scopes[..n] + [top]
  }

  // ---- constant evaluation ------------------------------------------------------------

  /** `evalBin`; None is a division by zero. */
  function FoldBin(op: BinOp, a: i32, b: i32): Option<i32> {
    match op
    case Add => Some(Wrap(U(a) + U(b)))
    case Sub => Some(Wrap(U(a) - U(b)))
    case Mul => Some(Wrap(U(a) * U(b)))
    case Div =>
      if b == 0 then None
      else if a == -0x8000_0000 && b == -1 then Some(-0x8000_0000)
      else Some(Wrap(TDiv(a, b)))
    case Mod =>
      if b == 0 then None
      else if a == -0x8000_0000 && b == -1 then Some(0)
      else Some(Wrap(TMod(a, b)))
    case Lt => Some(Bit(a < b))
    case Gt => Some(Bit(a > b))
    case Le => Some(Bit(a <= b))
    case Ge => Some(Bit(a >= b))
    case Eq => Some(Bit(a == b))
    case Ne => Some(Bit(a != b))
  }

  /** `evalUn`. */
  function FoldUn(op: UnaryOp, a: i32): i32 {
    match op
    case Plus => a
    case Minus => Wrap(0 - U(a))
    case LogNot => if a == 0 then 1 else 0
  }

  /** The mark of `&&` and `||`: the right operand matters only if the left one does not decide. */
  function LogicalMark(isOr: bool, l: Option<i32>, r: Option<i32>): Option<i32> {
    if l.None? then None
    else if isOr && l.value != 0 then Some(1)
    else if !isOr && l.value == 0 then Some(0)
    else if r.Some? then Some(if r.value != 0 then 1 else 0)
    else None
  }

  // ---- expressions -----------------------------------------------------------------------

  function AnalyzeExpr(scopes: seq<SymScope>, fs: seq<FuncDef>, e: Expr): Checked<TExpr> {
    match e
    case Number(n) => Fine(TExpr(Some(n), TNumber(n)))
    case Var(name) =>
      (match LookupSym(scopes, name)
       case None => Bad(Undeclared(name))
       case Some(sym) => Fine(TExpr(if sym.ConstSym? then Some(sym.constValue) else None, TVar(sym))))
    case Binary(op, l, r) =>
      (match AnalyzeExpr(scopes, fs, l)
       case Bad(x) => Bad(x)
       case Fine(tl) =>
         match AnalyzeExpr(scopes, fs, r)
         case Bad(x) => Bad(x)
         case Fine(tr) =>
           if tl.mark.Some? && tr.mark.Some? then
             var v := FoldBin(op, tl.mark.value, tr.mark.value);
             if v.None? then Bad(ConstDivByZero) else Fine(TExpr(v, TBinary(op, tl, tr)))
           else Fine(TExpr(None, TBinary(op, tl, tr))))
    case Logical(isOr, l, r) =>
      (match AnalyzeExpr(scopes, fs, l)
       case Bad(x) => Bad(x)
       case Fine(tl) =>
         match AnalyzeExpr(scopes, fs, r)
         case Bad(x) => Bad(x)
         case Fine(tr) => Fine(TExpr(LogicalMark(isOr, tl.mark, tr.mark), TLogical(isOr, tl, tr))))
    case Unary(op, a) =>
      (match AnalyzeExpr(scopes, fs, a)
       case Bad(x) => Bad(x)
       case Fine(ta) =>
         Fine(TExpr(if ta.mark.Some? then Some(FoldUn(op, ta.mark.value)) else None, TUnary(op, ta))))
    case CallExpr(callee, args) =>
      match FindDef(fs, callee)
      case None => Bad(UndeclaredFunction(callee))
      case Some(f) =>
        if Length(args) != |f.params| then Bad(WrongArgCount(callee))
        else
          match AnalyzeArgs(scopes, fs, args)
          case Bad(x) => Bad(x)
          case Fine(ts) => Fine(TExpr(None, TCall(callee, f.returnsVoid, ts)))
  }

  function Length<T>(xs: List<T>): nat {
    if xs.Nil? then 0 else 1 + Length(xs.tail)
  }

  function AnalyzeArgs(scopes: seq<SymScope>, fs: seq<FuncDef>, es: List<Expr>): Checked<List<TExpr>> {
    match es
    case Nil => Fine(Nil)
    case Cons(e, rest) =>
      match AnalyzeExpr(scopes, fs, e)
      case Bad(x) => Bad(x)
      case Fine(t) =>
        match AnalyzeArgs(scopes, fs, rest)
        case Bad(x) => Bad(x)
        case Fine(ts) => Fine(Cons(t, ts))
  }

  // ---- statements -----------------------------------------------------------------------

  /** The scopes, the number of symbols so far, and the depth of loops. */
  datatype Ana = Ana(scopes: seq<SymScope>, count: nat, loopDepth: nat)

  function PushScope(a: Ana): Ana {
    a.(scopes := a.scopes + [map[]])
  }

  function PopScope(a: Ana): Ana {
    if a.scopes == [] then a else a.(scopes := a.scopes[..|a.scopes| - 1])
  }

  /** A new symbol for `name` in the innermost scope. */
  function Declared1(a: Ana, name: string, sym: Sym): Ana {
    a.(scopes := DeclareSym(a.scopes, name, sym), count := a.count + 1)
  }

  function AnalyzeStmt(a: Ana, fs: seq<FuncDef>, s: Stmt): Checked<(TStmt, Ana)>
    decreases s
  {
    match s
    case Compound(ss) =>
      (match AnalyzeList(PushScope(a), fs, ss)
       case Bad(x) => Bad(x)
       case Fine((ts, a1)) => Fine((TBlock(ts), PopScope(a1))))
    case Empty => Fine((TEmpty, a))
    case ExprStmt(e) =>
      (match AnalyzeExpr(a.scopes, fs, e)
       case Bad(x) => Bad(x)
       case Fine(t) => Fine((TExprStmt(t), a)))
    case Assign(name, e) =>
      (match LookupSym(a.scopes, name)
       case None => Bad(Undeclared(name))
       case Some(sym) =>
         if sym.ConstSym? then Bad(AssignToConst(name))
         else
           match AnalyzeExpr(a.scopes, fs, e)
           case Bad(x) => Bad(x)
           case Fine(t) => Fine((TAssign(sym, t), a)))
    case VarDecl(isConst, name, e) =>
      (match AnalyzeExpr(a.scopes, fs, e)
       case Bad(x) => Bad(x)
       case Fine(t) =>
         if !isConst then Fine((TVarDecl(false, a.count, t), Declared1(a, name, LocalVar(a.count))))
         else if t.mark.None? then Bad(NotConstant(name))
         else Fine((TVarDecl(true, a.count, t), Declared1(a, name, ConstSym(t.mark.value)))))
    case If(c, t, e) =>
      (match AnalyzeExpr(a.scopes, fs, c)
       case Bad(x) => Bad(x)
       case Fine(tc) =>
         match AnalyzeStmt(a, fs, t)
         case Bad(x) => Bad(x)
         case Fine((tt, a1)) =>
           if e.None? then Fine((TIf(tc, tt, None), a1))
           else
             match AnalyzeStmt(a1, fs, e.value)
             case Bad(x) => Bad(x)
             case Fine((te, a2)) => Fine((TIf(tc, tt, Some(te)), a2)))
    case While(c, b) =>
      (match AnalyzeExpr(a.scopes, fs, c)
       case Bad(x) => Bad(x)
       case Fine(tc) =>
         match AnalyzeStmt(a.(loopDepth := a.loopDepth + 1), fs, b)
         case Bad(x) => Bad(x)
         case Fine((tb, a1)) => Fine((TWhile(tc, tb), a1.(loopDepth := a.loopDepth))))
    case Break => if a.loopDepth == 0 then Bad(BreakOutsideLoop) else Fine((TBreak, a))
    case Continue => if a.loopDepth == 0 then Bad(ContinueOutsideLoop) else Fine((TContinue, a))
    case Return(None) => Fine((TReturn(None), a))
    case Return(Some(e)) =>
      match AnalyzeExpr(a.scopes, fs, e)
      case Bad(x) => Bad(x)
      case Fine(t) => Fine((TReturn(Some(t)), a))
  }

  function AnalyzeList(a: Ana, fs: seq<FuncDef>, ss: List<Stmt>): Checked<(List<TStmt>, Ana)>
    decreases ss
  {
    match ss
    case Nil => Fine((Nil, a))
    case Cons(s, rest) =>
      match AnalyzeStmt(a, fs, s)
      case Bad(x) => Bad(x)
      case Fine((t, a1)) =>
        match AnalyzeList(a1, fs, rest)
        case Bad(x) => Bad(x)
        case Fine((ts, a2)) => Fine((Cons(t, ts), a2))
  }

  // ---- functions and programs ---------------------------------------------------------------

  /** Parameters are declared in order, each with the next symbol. */
  function DeclareParams(a: Ana, params: seq<string>): Ana
    decreases |params|
  {
    if params == [] then a
    else
      var a1 := DeclareParams(a, params[..|params| - 1]);
      Declared1(a1, params[|params| - 1], LocalVar(a1.count))
  }

  function ParamIds(first: nat, n: nat): seq<nat> {
    seq(n, i requires 0 <= i < n => first + i)
  }

  function AnalyzeFunc(a: Ana, fs: seq<FuncDef>, f: FuncDef): Checked<(TFunc, Ana)> {
    match AnalyzeList(PushScope(DeclareParams(PushScope(a), f.params)), fs, f.body)
    case Bad(x) => Bad(x)
    case Fine((body, a1)) =>
      Fine((TFunc(f.returnsVoid, f.name, ParamIds(a.count, |f.params|), body), PopScope(PopScope(a1))))
  }

  /** The first pass: global symbols with their values, in source order, and the functions. */
  datatype Globals = Globals(scope: SymScope, vars: seq<Global>, fs: seq<FuncDef>, count: nat)

  function AnalyzeItem(g: Globals, item: Item): Checked<Globals> {
    match item
    case FuncItem(f) =>
      if FindDef(g.fs, f.name).Some? then Bad(Redefinition(f.name))
      else if f.name == "main" && (f.returnsVoid || |f.params| > 0) then Bad(BadMain)
      else Fine(g.(fs := g.fs + [f]))
    case GlobalItem(isConst, name, e) =>
      match AnalyzeExpr([g.scope], g.fs, e)
      case Bad(x) => Bad(x)
      case Fine(t) =>
        if t.mark.None? then Bad(NotConstant(name))
        else if isConst then Fine(g.(scope := g.scope[name := ConstSym(t.mark.value)], count := g.count + 1))
        else
          Fine(g.(scope := g.scope[name := GlobalVar(|g.vars|)],
                  vars := g.vars + [Global(name, t.mark.value)], count := g.count + 1))
  }

  function AnalyzeItems(g: Globals, items: seq<Item>): Checked<Globals>
    decreases |items|
  {
    if items == [] then Fine(g)
    else
      match AnalyzeItem(g, items[0])
      case Bad(x) => Bad(x)
      case Fine(g1) => AnalyzeItems(g1, items[1..])
  }

  /** The second pass: function bodies in source order. */
  function AnalyzeFuncs(a: Ana, fs: seq<FuncDef>, todo: seq<FuncDef>): Checked<seq<TFunc>>
    decreases |todo|
  {
    if todo == [] then Fine([])
    else
      match AnalyzeFunc(a, fs, todo[0])
      case Bad(x) => Bad(x)
      case Fine((t, a1)) =>
        match AnalyzeFuncs(a1, fs, todo[1..])
        case Bad(x) => Bad(x)
        case Fine(ts) => Fine([t] + ts)
  }

  function Analyze(items: seq<Item>): Checked<TModule> {
    match AnalyzeItems(Globals(map[], [], [], 0), items)
    case Bad(x) => Bad(x)
    case Fine(g) =>
      if FindDef(g.fs, "main").None? then Bad(NoMain)
      else
        match AnalyzeFuncs(Ana([g.scope], g.count, 0), g.fs, g.fs)
        case Bad(x) => Bad(x)
        case Fine(ts) => Fine(TModule(g.vars, ts))
  }
}
