/**
 * The source language: its syntax as the parser delivers it, and its meaning.
 *
 * A name means the variable of that name that was declared last in the blocks
 * around it.  `depth` bounds nested calls and `fuel`
 * loop iterations, as in the IR.
 */
module Ast {
  import opened Word32
  import opened IR

  datatype List<+T> = Nil | Cons(head: T, tail: List<T>)

  datatype UnaryOp = Plus | Minus | LogNot

  /** Binary operators are those of the IR; `&&` and `||` are `Logical`. */
  datatype Expr =
    | Number(value: i32)
    | Var(name: string)
    | Binary(op: BinOp, lhs: Expr, rhs: Expr)
    | Logical(isOr: bool, lhs: Expr, rhs: Expr)
    | Unary(uop: UnaryOp, operand: Expr)
    | CallExpr(callee: string, args: List<Expr>)

  datatype Stmt =
    | Compound(stmts: List<Stmt>)
    | Empty
    | ExprStmt(expr: Expr)
    | Assign(name: string, value: Expr)
    | VarDecl(isConst: bool, name: string, init: Expr)
    | If(cond: Expr, then_: Stmt, else_: Option<Stmt>)
    | While(cond: Expr, body: Stmt)
    | Break
    | Continue
    | Return(result: Option<Expr>)

  datatype FuncDef = FuncDef(returnsVoid: bool, name: string, params: seq<string>, body: List<Stmt>)

  datatype Item = GlobalItem(isConst: bool, name: string, init: Expr) | FuncItem(def: FuncDef)

  function FuncsOf(items: seq<Item>): seq<FuncDef> {
    if items == [] then []
    else (if items[0].FuncItem? then [items[0].def] else []) + FuncsOf(items[1..])
  }

  function FindDef(fs: seq<FuncDef>, name: string): Option<FuncDef> {
    if fs == [] then None
    else if fs[0].name == name then Some(fs[0])
    else FindDef(fs[1..], name)
  }

  // ---- meaning ------------------------------------------------------------------

  type Scope = map<string, i32>

  /** A declared variable or constant; None until a declaration or an assignment gives it a value. */
  datatype Variable = Variable(name: string, val: Option<i32>)

  /** The locals in the order of their declarations, innermost last, and the globals. */
  datatype Env = Env(vars: seq<Variable>, globals: Scope)

  /** What an expression leaves: its value (none for a void call), and the globals. */
  datatype Answer = Answer(val: Option<i32>, globals: Scope)

  datatype Answers = Answers(vals: seq<i32>, globals: Scope)

  datatype Flow = Next | Broke | Continued | Returned(val: Option<i32>)

  datatype After = After(flow: Flow, env: Env)

  /** Where the name was declared last; -1 if it was not. */
  function LastOf(vars: seq<Variable>, name: string): (r: int)
    ensures -1 <= r < |vars|
    ensures r >= 0 ==> vars[r].name == name
    ensures forall i | r < i < |vars| :: vars[i].name != name
  {
    if vars == [] then -1
    else if vars[|vars| - 1].name == name then |vars| - 1
    else LastOf(vars[..|vars| - 1], name)
  }

  function Lookup(env: Env, name: string): Option<i32> {
    var i := LastOf(env.vars, name);
    if i >= 0 then env.vars[i].val
    else if name in env.globals then Some(env.globals[name])
    else None
  }

  function AssignTo(env: Env, name: string, v: i32): Option<Env> {
    var i := LastOf(env.vars, name);
    if i >= 0 then Some(env.(vars := env.vars[i := Variable(name, Some(v))]))
    else if name in env.globals then Some(env.(globals := env.globals[name := v]))
    else None
  }

  /** The environment behind a block that was entered with n locals. */
  function Leave(env: Env, n: nat): Env {
    if n <= |env.vars| then env.(vars := env.vars[..n]) else env
  }

  function Declare(env: Env, name: string, v: Option<i32>): Env {
    env.(vars := env.vars + [Variable(name, v)])
  }

  /** Unary operators on words. */
  function EvalUnary(op: UnaryOp, x: i32): i32 {
    match op
    case Plus => x
    case Minus => EvalUn(Neg, x)
    case LogNot => EvalUn(Not, x)
  }

  function Eval(fs: seq<FuncDef>, e: Expr, env: Env, depth: nat, fuel: nat): Outcome<Answer>
    decreases depth, fuel, 0, e
  {
    match e
    case Number(n) => Done(Answer(Some(n), env.globals))
    case Var(name) =>
      var v := Lookup(env, name);
      if v.None? then Undef else Done(Answer(v, env.globals))
    case Binary(op, l, r) =>
      (match Eval(fs, l, env, depth, fuel)
       case Timeout => Timeout
       case Undef => Undef
       case Done(x) =>
         if x.val.None? then Undef
         else
           match Eval(fs, r, env.(globals := x.globals), depth, fuel)
           case Timeout => Timeout
           case Undef => Undef
           case Done(y) =>
             if y.val.None? then Undef
             else
               var v := EvalBin(op, x.val.value, y.val.value);
               if v.None? then Undef else Done(Answer(v, y.globals)))
    case Logical(isOr, l, r) =>
      (match Eval(fs, l, env, depth, fuel)
       case Timeout => Timeout
       case Undef => Undef
       case Done(x) =>
         if x.val.None? then Undef
         else if isOr == (x.val.value != 0) then Done(Answer(Some(Bit(isOr)), x.globals))
         else
           match Eval(fs, r, env.(globals := x.globals), depth, fuel)
           case Timeout => Timeout
           case Undef => Undef
           case Done(y) =>
             if y.val.None? then Undef else Done(Answer(Some(Bit(y.val.value != 0)), y.globals)))
    case Unary(op, a) =>
      (match Eval(fs, a, env, depth, fuel)
       case Timeout => Timeout
       case Undef => Undef
       case Done(x) =>
         if x.val.None? then Undef else Done(Answer(Some(EvalUnary(op, x.val.value)), x.globals)))
    case CallExpr(callee, args) =>
      match EvalArgs(fs, args, env, depth, fuel)
      case Timeout => Timeout
      case Undef => Undef
      case Done(xs) => if depth == 0 then Timeout else CallFunc(fs, callee, xs.vals, xs.globals, depth - 1, fuel)
  }

  /** Arguments are evaluated from left to right. */
  function EvalArgs(fs: seq<FuncDef>, es: List<Expr>, env: Env, depth: nat, fuel: nat): Outcome<Answers>
    decreases depth, fuel, 0, es
  {
    match es
    case Nil => Done(Answers([], env.globals))
    case Cons(e, rest) =>
      match Eval(fs, e, env, depth, fuel)
      case Timeout => Timeout
      case Undef => Undef
      case Done(x) =>
        if x.val.None? then Undef
        else
          match EvalArgs(fs, rest, env.(globals := x.globals), depth, fuel)
          case Timeout => Timeout
          case Undef => Undef
          case Done(xs) => Done(Answers([x.val.value] + xs.vals, xs.globals))
  }

  /**
   * What a statement that is not executed leaves behind.  Only blocks open
   * scopes, so a declaration that is itself a branch or a loop body belongs to
   * the block around it: its name is declared there either way, a constant with
   * its value, a variable without one.
   */
  function Skip(fs: seq<FuncDef>, s: Stmt, env: Env): Env
    decreases 0, 0, 0, s
  {
    match s
    case VarDecl(isConst, name, e) =>
      var x := if isConst then Eval(fs, e, env, 0, 0) else Undef;
      Declare(env, name, if x.Done? then x.value.val else None)
    case If(_, t, e) =>
      var env1 := Skip(fs, t, env);
      if e.Some? then Skip(fs, e.value, env1) else env1
    case While(_, b) => Skip(fs, b, env)
    case _ => env
  }

  function Exec(fs: seq<FuncDef>, s: Stmt, env: Env, depth: nat, fuel: nat): Outcome<After>
    decreases depth, fuel, 0, s
  {
    match s
    case Compound(ss) =>
      (match ExecList(fs, ss, env, depth, fuel)
       case Timeout => Timeout
       case Undef => Undef
       case Done(a) => Done(a.(env := Leave(a.env, |env.vars|))))
    case Empty => Done(After(Next, env))
    case ExprStmt(e) =>
      (match Eval(fs, e, env, depth, fuel)
       case Timeout => Timeout
       case Undef => Undef
       case Done(x) => Done(After(Next, env.(globals := x.globals))))
    case Assign(name, e) =>
      (match Eval(fs, e, env, depth, fuel)
       case Timeout => Timeout
       case Undef => Undef
       case Done(x) =>
         if x.val.None? then Undef
         else
           match AssignTo(env.(globals := x.globals), name, x.val.value)
           case None => Undef
           case Some(env') => Done(After(Next, env')))
    case VarDecl(_, name, e) =>
      (match Eval(fs, e, env, depth, fuel)
       case Timeout => Timeout
       case Undef => Undef
       case Done(x) =>
         if x.val.None? then Undef
         else Done(After(Next, Declare(env.(globals := x.globals), name, x.val))))
    case If(c, t, e) =>
      (match Eval(fs, c, env, depth, fuel)
       case Timeout => Timeout
       case Undef => Undef
       case Done(x) =>
         var env' := env.(globals := x.globals);
         if x.val.None? then Undef
         else if x.val.value != 0 then
           match Exec(fs, t, env', depth, fuel)
           case Timeout => Timeout
           case Undef => Undef
           case Done(a) =>
             if e.Some? && a.flow.Next? then Done(a.(env := Skip(fs, e.value, a.env))) else Done(a)
         else if e.Some? then Exec(fs, e.value, Skip(fs, t, env'), depth, fuel)
         else Done(After(Next, Skip(fs, t, env'))))
    case While(c, b) =>
      (match Eval(fs, c, env, depth, fuel)
       case Timeout => Timeout
       case Undef => Undef
       case Done(x) =>
         var env' := env.(globals := x.globals);
         if x.val.None? then Undef
         else if x.val.value == 0 then Done(After(Next, Skip(fs, b, env')))
         else
           match Exec(fs, b, env', depth, fuel)
           case Timeout => Timeout
           case Undef => Undef
           case Done(a) =>
             var out := Leave(a.env, |env.vars|);
             if a.flow.Broke? then Done(After(Next, Skip(fs, b, out)))
             else if a.flow.Returned? then Done(a)
             else if fuel == 0 then Timeout
             else Exec(fs, s, out, depth, fuel - 1))
    case Break => Done(After(Broke, env))
    case Continue => Done(After(Continued, env))
    case Return(None) => Done(After(Returned(None), env))
    case Return(Some(e)) =>
      match Eval(fs, e, env, depth, fuel)
      case Timeout => Timeout
      case Undef => Undef
      case Done(x) =>
        if x.val.None? then Undef else Done(After(Returned(x.val), env.(globals := x.globals)))
  }

  function ExecList(fs: seq<FuncDef>, ss: List<Stmt>, env: Env, depth: nat, fuel: nat): Outcome<After>
    decreases depth, fuel, 0, ss
  {
    match ss
    case Nil => Done(After(Next, env))
    case Cons(s, rest) =>
      match Exec(fs, s, env, depth, fuel)
      case Timeout => Timeout
      case Undef => Undef
      case Done(a) => if a.flow.Next? then ExecList(fs, rest, a.env, depth, fuel) else Done(a)
  }

  /** The parameters, with the arguments as values. */
  function ParamVars(params: seq<string>, args: seq<i32>): seq<Variable>
    requires |params| == |args|
  {
    seq(|params|, i requires 0 <= i < |params| => Variable(params[i], Some(args[i])))
  }

  /**
   * The value of a function's end: an `int` function that runs off it returns 0,
   * and one that says `return;` has no value.
   */
  function EndValue(flow: Flow, returnsVoid: bool): Option<i32> {
    if flow.Returned? then flow.val else if returnsVoid then None else Some(0)
  }

  /** A whole call, with the value as the caller sees it. */
  function CallFunc(fs: seq<FuncDef>, name: string, args: seq<i32>, globals: Scope, depth: nat, fuel: nat): Outcome<Answer>
    decreases depth, fuel, 1
  {
    match RunDef(fs, name, args, globals, depth, fuel)
    case Timeout => Timeout
    case Undef => Undef
    case Done(r) =>
      var f := FindDef(fs, name);
      if f.Some? && f.value.returnsVoid then Done(r.(val := None))
      else if r.val.None? then Undef
      else Done(r)
  }

  function RunDef(fs: seq<FuncDef>, name: string, args: seq<i32>, globals: Scope, depth: nat, fuel: nat): Outcome<Answer>
    decreases depth, fuel, 1, 0
  {
    match FindDef(fs, name)
    case None => Undef
    case Some(f) =>
      if |f.params| != |args| then Undef
      else
        match ExecList(fs, f.body, Env(ParamVars(f.params, args), globals), depth, fuel)
        case Timeout => Timeout
        case Undef => Undef
        case Done(a) =>
          if a.flow.Broke? || a.flow.Continued? then Undef
          else Done(Answer(EndValue(a.flow, f.returnsVoid), a.env.globals))
  }

  // ---- whole programs ---------------------------------------------------------------

  /** Global initializers in source order; each sees the globals before it. */
  function InitGlobals(fs: seq<FuncDef>, items: seq<Item>, globals: Scope): Outcome<Scope> {
    if items == [] then Done(globals)
    else
      match items[0]
      case FuncItem(_) => InitGlobals(fs, items[1..], globals)
      case GlobalItem(_, name, e) =>
        match Eval(fs, e, Env([], globals), 0, 0)
        case Timeout => Timeout
        case Undef => Undef
        case Done(x) =>
          if x.val.None? then Undef else InitGlobals(fs, items[1..], x.globals[name := x.val.value])
  }

  /** A program's result is what `main` returns. */
  function RunProgram(items: seq<Item>, depth: nat, fuel: nat): Outcome<Answer> {
    match InitGlobals(FuncsOf(items), items, map[])
    case Timeout => Timeout
    case Undef => Undef
    case Done(g) => RunDef(FuncsOf(items), "main", [], g, depth, fuel)
  }
}
