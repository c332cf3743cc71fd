/**
 * The annotated tree that semantic analysis leaves behind: names are symbols and
 * constant expressions carry their value.  Its meaning takes the marks at their
 * word, as the lowering does; variables live in a store indexed by symbol.
 */
module Typed {
  import opened Word32
  import opened IR
  import opened Ast

  datatype Sym = GlobalVar(gid: nat) | LocalVar(id: nat) | ConstSym(constValue: i32)

  /** An expression, with its value when `isConst`. */
  datatype TExpr = TExpr(mark: Option<i32>, node: Node)

  datatype Node =
    | TNumber(value: i32)
    | TVar(sym: Sym)
    | TBinary(op: BinOp, lhs: TExpr, rhs: TExpr)
    | TLogical(isOr: bool, lhs: TExpr, rhs: TExpr)
    | TUnary(uop: UnaryOp, operand: TExpr)
    | TCall(callee: string, returnsVoid: bool, args: List<TExpr>)

  datatype TStmt =
    | TBlock(stmts: List<TStmt>)
    | TEmpty
    | TExprStmt(expr: TExpr)
    | TAssign(sym: Sym, value: TExpr)
    | TVarDecl(isConst: bool, id: nat, init: TExpr)
    | TIf(cond: TExpr, then_: TStmt, else_: Option<TStmt>)
    | TWhile(cond: TExpr, body: TStmt)
    | TBreak
    | TContinue
    | TReturn(result: Option<TExpr>)

  datatype TFunc = TFunc(returnsVoid: bool, name: string, params: seq<nat>, body: List<TStmt>)

  datatype TModule = TModule(globals: seq<Global>, funcs: seq<TFunc>)

  function FindTyped(fs: seq<TFunc>, name: string): Option<TFunc> {
    if fs == [] then None
    else if fs[0].name == name then Some(fs[0])
    else FindTyped(fs[1..], name)
  }

  // ---- meaning --------------------------------------------------------------------

  datatype Store = Store(locals: map<nat, i32>, globals: seq<i32>)

  datatype Values = Values(vals: seq<i32>, globals: seq<i32>)

  datatype Ended = Ended(flow: Flow, store: Store)

  function ReadSym(sym: Sym, st: Store): Option<i32> {
    match sym
    case GlobalVar(g) => if g < |st.globals| then Some(st.globals[g]) else None
    case LocalVar(id) => if id in st.locals then Some(st.locals[id]) else None
    case ConstSym(c) => Some(c)
  }

  function WriteSym(sym: Sym, st: Store, v: i32): Option<Store> {
    match sym
    case GlobalVar(g) => if g < |st.globals| then Some(st.(globals := st.globals[g := v])) else None
    case LocalVar(id) => Some(st.(locals := st.locals[id := v]))
    case ConstSym(_) => None
  }

  function TEval(fs: seq<TFunc>, e: TExpr, st: Store, depth: nat, fuel: nat): Outcome<Result>
    decreases depth, fuel, 0, e, 1
  {
    if e.mark.Some? then Done(Result(e.mark, st.globals)) else TNode(fs, e.node, st, depth, fuel)
  }

  /** The meaning of an unmarked expression. */
  function TNode(fs: seq<TFunc>, n: Node, st: Store, depth: nat, fuel: nat): Outcome<Result>
    decreases depth, fuel, 0, n, 0
  {
    match n
    case TNumber(c) => Done(Result(Some(c), st.globals))
    case TVar(sym) =>
      var v := ReadSym(sym, st);
      if v.None? then Undef else Done(Result(v, st.globals))
    case TBinary(op, l, r) =>
      (match TEval(fs, l, st, depth, fuel)
       case Timeout => Timeout
       case Undef => Undef
       case Done(x) =>
         if x.val.None? then Undef
         else
           match TEval(fs, r, st.(globals := x.globals), depth, fuel)
           case Timeout => Timeout
           case Undef => Undef
           case Done(y) =>
             if y.val.None? then Undef
             else
               var v := EvalBin(op, x.val.value, y.val.value);
               if v.None? then Undef else Done(Result(v, y.globals)))
    case TLogical(isOr, l, r) =>
      (match TEval(fs, l, st, depth, fuel)
       case Timeout => Timeout
       case Undef => Undef
       case Done(x) =>
         if x.val.None? then Undef
         else if isOr == (x.val.value != 0) then Done(Result(Some(Bit(isOr)), x.globals))
         else
           match TEval(fs, r, st.(globals := x.globals), depth, fuel)
           case Timeout => Timeout
           case Undef => Undef
           case Done(y) =>
             if y.val.None? then Undef else Done(Result(Some(Bit(y.val.value != 0)), y.globals)))
    case TUnary(op, a) =>
      (match TEval(fs, a, st, depth, fuel)
       case Timeout => Timeout
       case Undef => Undef
       case Done(x) =>
         if x.val.None? then Undef else Done(Result(Some(EvalUnary(op, x.val.value)), x.globals)))
    case TCall(callee, returnsVoid, args) =>
      match TArgs(fs, args, st, depth, fuel)
      case Timeout => Timeout
      case Undef => Undef
      case Done(xs) =>
        if depth == 0 then Timeout
        else
          match TRun(fs, callee, xs.vals, xs.globals, depth - 1, fuel)
          case Timeout => Timeout
          case Undef => Undef
          case Done(r) =>
            if returnsVoid then Done(Result(None, r.globals))
            else if r.val.None? then Undef
            else Done(r)
  }

  function TArgs(fs: seq<TFunc>, es: List<TExpr>, st: Store, depth: nat, fuel: nat): Outcome<Values>
    decreases depth, fuel, 0, es, 0
  {
    match es
    case Nil => Done(Values([], st.globals))
    case Cons(e, rest) =>
      match TEval(fs, e, st, depth, fuel)
      case Timeout => Timeout
      case Undef => Undef
      case Done(x) =>
        if x.val.None? then Undef
        else
          match TArgs(fs, rest, st.(globals := x.globals), depth, fuel)
          case Timeout => Timeout
          case Undef => Undef
          case Done(xs) => Done(Values([x.val.value] + xs.vals, xs.globals))
  }

  function TExec(fs: seq<TFunc>, s: TStmt, st: Store, depth: nat, fuel: nat): Outcome<Ended>
    decreases depth, fuel, 0, s, 0
  {
    match s
    case TBlock(ss) => TExecList(fs, ss, st, depth, fuel)
    case TEmpty => Done(Ended(Next, st))
    case TExprStmt(e) =>
      (match TEval(fs, e, st, depth, fuel)
       case Timeout => Timeout
       case Undef => Undef
       case Done(x) => Done(Ended(Next, st.(globals := x.globals))))
    case TAssign(sym, e) =>
      (match TEval(fs, e, st, depth, fuel)
       case Timeout => Timeout
       case Undef => Undef
       case Done(x) =>
         if x.val.None? then Undef
         else
           match WriteSym(sym, st.(globals := x.globals), x.val.value)
           case None => Undef
           case Some(st') => Done(Ended(Next, st')))
    case TVarDecl(isConst, id, e) =>
      if isConst then Done(Ended(Next, st))
      else
        (match TEval(fs, e, st, depth, fuel)
         case Timeout => Timeout
         case Undef => Undef
         case Done(x) =>
           if x.val.None? then Undef
           else Done(Ended(Next, Store(st.locals[id := x.val.value], x.globals))))
    case TIf(c, t, e) =>
      (match TEval(fs, c, st, depth, fuel)
       case Timeout => Timeout
       case Undef => Undef
       case Done(x) =>
         var st' := st.(globals := x.globals);
         if x.val.None? then Undef
         else if x.val.value != 0 then TExec(fs, t, st', depth, fuel)
         else if e.Some? then TExec(fs, e.value, st', depth, fuel)
         else Done(Ended(Next, st')))
    case TWhile(c, b) =>
      (match TEval(fs, c, st, depth, fuel)
       case Timeout => Timeout
       case Undef => Undef
       case Done(x) =>
         var st' := st.(globals := x.globals);
         if x.val.None? then Undef
         else if x.val.value == 0 then Done(Ended(Next, st'))
         else
           match TExec(fs, b, st', depth, fuel)
           case Timeout => Timeout
           case Undef => Undef
           case Done(a) =>
             if a.flow.Broke? then Done(a.(flow := Next))
             else if a.flow.Returned? then Done(a)
             else if fuel == 0 then Timeout
             else TExec(fs, s, a.store, depth, fuel - 1))
    case TBreak => Done(Ended(Broke, st))
    case TContinue => Done(Ended(Continued, st))
    case TReturn(None) => Done(Ended(Returned(None), st))
    case TReturn(Some(e)) =>
      match TEval(fs, e, st, depth, fuel)
      case Timeout => Timeout
      case Undef => Undef
      case Done(x) =>
        if x.val.None? then Undef else Done(Ended(Returned(x.val), st.(globals := x.globals)))
  }

  function TExecList(fs: seq<TFunc>, ss: List<TStmt>, st: Store, depth: nat, fuel: nat): Outcome<Ended>
    decreases depth, fuel, 0, ss, 0
  {
    match ss
    case Nil => Done(Ended(Next, st))
    case Cons(s, rest) =>
      match TExec(fs, s, st, depth, fuel)
      case Timeout => Timeout
      case Undef => Undef
      case Done(a) => if a.flow.Next? then TExecList(fs, rest, a.store, depth, fuel) else Done(a)
  }

  function TRun(fs: seq<TFunc>, name: string, args: seq<i32>, g: seq<i32>, depth: nat, fuel: nat): Outcome<Result>
    decreases depth, fuel, 1
  {
    match FindTyped(fs, name)
    case None => Undef
    case Some(f) =>
      if |f.params| != |args| then Undef
      else
        match TExecList(fs, f.body, Store(Entry(f.params, args), g), depth, fuel)
        case Timeout => Timeout
        case Undef => Undef
        case Done(a) =>
          if a.flow.Broke? || a.flow.Continued? then Undef
          else Done(Result(EndValue(a.flow, f.returnsVoid), a.store.globals))
  }

  // ---- what analysis guarantees about the tree ----------------------------------------

  /** Literals and constants are marked, and every local that is read is one of `ids`. */
  predicate ExprIn(e: TExpr, ids: set<nat>) {
    e.mark.Some? ||
    match e.node
    case TNumber(_) => false
    case TVar(sym) => sym.GlobalVar? || (sym.LocalVar? && sym.id in ids)
    case TBinary(_, l, r) => ExprIn(l, ids) && ExprIn(r, ids)
    case TLogical(_, l, r) => ExprIn(l, ids) && ExprIn(r, ids)
    case TUnary(_, a) => ExprIn(a, ids)
    case TCall(_, _, args) => ArgsIn(args, ids)
  }

  predicate ArgsIn(es: List<TExpr>, ids: set<nat>) {
    es.Nil? || (ExprIn(es.head, ids) && ArgsIn(es.tail, ids))
  }

  /** The first symbol number that a statement's declarations leave unused. */
  function NextId(s: TStmt, lo: nat): (r: nat)
    ensures r >= lo
  {
    match s
    case TBlock(ss) => NextIdList(ss, lo)
    case TVarDecl(_, id, _) => if id >= lo then id + 1 else lo
    case TIf(_, t, e) => if e.Some? then NextId(e.value, NextId(t, lo)) else NextId(t, lo)
    case TWhile(_, b) => NextId(b, lo)
    case _ => lo
  }

  function NextIdList(ss: List<TStmt>, lo: nat): (r: nat)
    ensures r >= lo
  {
    if ss.Nil? then lo else NextIdList(ss.tail, NextId(ss.head, lo))
  }

  /**
   * The locals that have a register behind a statement.  A branch that a constant
   * condition rules out is not lowered, so its declarations have none.
   */
  function Declared(s: TStmt, ids: set<nat>): set<nat> {
    match s
    case TVarDecl(isConst, id, _) => if isConst then ids else ids + {id}
    case TIf(c, t, e) =>
      if c.mark.Some? && c.mark.value == 0 then (if e.Some? then Declared(e.value, ids) else ids)
      else if c.mark.Some? || e.None? then Declared(t, ids)
      else Declared(e.value, Declared(t, ids))
    case TWhile(_, b) => Declared(b, ids)
    case _ => ids
  }

  /**
   * What is lowered uses only locals that have been declared, under numbers from
   * `lo` on in order; `break` and `continue` stand in loops.
   */
  predicate StmtIn(s: TStmt, ids: set<nat>, lo: nat, inLoop: bool) {
    match s
    case TBlock(ss) => ListIn(ss, ids, lo, inLoop)
    case TEmpty => true
    case TExprStmt(e) => ExprIn(e, ids)
    case TAssign(sym, e) => (sym.GlobalVar? || (sym.LocalVar? && sym.id in ids)) && ExprIn(e, ids)
    case TVarDecl(_, id, e) => id >= lo && ExprIn(e, ids)
    case TIf(c, t, e) =>
      if c.mark.Some? then
        if c.mark.value != 0 then StmtIn(t, ids, lo, inLoop)
        else e.Some? ==> StmtIn(e.value, ids, NextId(t, lo), inLoop)
      else
        && ExprIn(c, ids) && StmtIn(t, ids, lo, inLoop)
        && (e.Some? ==> StmtIn(e.value, Declared(t, ids), NextId(t, lo), inLoop))
    case TWhile(c, b) => ExprIn(c, ids) && StmtIn(b, ids, lo, true)
    case TBreak => inLoop
    case TContinue => inLoop
    case TReturn(e) => e.Some? ==> ExprIn(e.value, ids)
  }

  predicate ListIn(ss: List<TStmt>, ids: set<nat>, lo: nat, inLoop: bool) {
    ss.Nil? ||
    (StmtIn(ss.head, ids, lo, inLoop) && ListIn(ss.tail, Declared(ss.head, ids), NextId(ss.head, lo), inLoop))
  }

  ghost predicate BodyIn(f: TFunc, lo: nat) {
    && (forall i | 0 <= i < |f.params| :: f.params[i] < lo)
    && ListIn(f.body, set i | 0 <= i < |f.params| :: f.params[i], lo, false)
  }

  ghost predicate FuncIn(f: TFunc) {
    && (forall i, j | 0 <= i < j < |f.params| :: f.params[i] != f.params[j])
    && exists lo: nat :: BodyIn(f, lo)
  }
}
