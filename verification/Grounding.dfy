/**
 * Which symbols lowering gives a register.  A branch that a constant condition
 * rules out is not lowered; a declaration that is such a branch is nevertheless
 * in scope behind it, and its symbol has no register.
 */
module Grounding {
  import opened Word32
  import opened IR
  import opened Ast
  import opened Typed
  import opened Lower

  // ---- uses and declarations -----------------------------------------------------------------

  /** The locals that an expression's code reads. */
  function ExprUses(e: TExpr): set<nat> {
    if e.mark.Some? then {}
    else
      match e.node
      case TNumber(_) => {}
      case TVar(sym) => if sym.LocalVar? then {sym.id} else {}
      case TBinary(_, l, r) => ExprUses(l) + ExprUses(r)
      case TLogical(_, l, r) => ExprUses(l) + ExprUses(r)
      case TUnary(_, a) => ExprUses(a)
      case TCall(_, _, args) => CallUses(args)
  }

  function CallUses(es: List<TExpr>): set<nat> {
    if es.Nil? then {} else ExprUses(es.head) + CallUses(es.tail)
  }

  /** The locals that a statement's code reads or assigns. */
  function StmtUses(s: TStmt): set<nat> {
    match s
    case TBlock(ss) => ListUses(ss)
    case TExprStmt(e) => ExprUses(e)
    case TAssign(sym, e) => ExprUses(e) + if sym.LocalVar? then {sym.id} else {}
    case TVarDecl(_, _, e) => ExprUses(e)
    case TIf(c, t, e) =>
      var n: set<nat> := if e.Some? then StmtUses(e.value) else {};
      if c.mark.None? then ExprUses(c) + StmtUses(t) + n else if c.mark.value != 0 then StmtUses(t) else n
    case TWhile(c, b) => ExprUses(c) + StmtUses(b)
    case TReturn(e) => if e.Some? then ExprUses(e.value) else {}
    case _ => {}
  }

  function ListUses(ss: List<TStmt>): set<nat> {
    if ss.Nil? then {} else StmtUses(ss.head) + ListUses(ss.tail)
  }

  /** The locals that lowering of a statement gives a register. */
  function Decls(s: TStmt): set<nat> {
    match s
    case TBlock(ss) => DeclsList(ss)
    case TVarDecl(isConst, id, _) => if isConst then {} else {id}
    case TIf(c, t, e) =>
      var n: set<nat> := if e.Some? then Decls(e.value) else {};
      if c.mark.None? then Decls(t) + n else if c.mark.value != 0 then Decls(t) else n
    case TWhile(_, b) => Decls(b)
    case _ => {}
  }

  function DeclsList(ss: List<TStmt>): set<nat> {
    if ss.Nil? then {} else Decls(ss.head) + DeclsList(ss.tail)
  }

  /** The locals that a statement declares in the scope it stands in, lowered or not. */
  function Bares(s: TStmt): set<nat> {
    match s
    case TVarDecl(isConst, id, _) => if isConst then {} else {id}
    case TIf(_, t, e) => Bares(t) + if e.Some? then Bares(e.value) else {}
    case TWhile(_, b) => Bares(b)
    case _ => {}
  }

  /** The locals that branches ruled out by a constant condition declare in the scope around them. */
  function Lost(s: TStmt): set<nat> {
    match s
    case TBlock(ss) => LostList(ss)
    case TIf(c, t, e) =>
      if c.mark.None? then Lost(t) + if e.Some? then Lost(e.value) else {}
      else if c.mark.value != 0 then Lost(t) + if e.Some? then Bares(e.value) else {}
      else Bares(t) + if e.Some? then Lost(e.value) else {}
    case TWhile(_, b) => Lost(b)
    case _ => {}
  }

  function LostList(ss: List<TStmt>): set<nat> {
    if ss.Nil? then {} else Lost(ss.head) + LostList(ss.tail)
  }

  /** No lowered name means a declaration that a constant condition rules out. */
  predicate Grounded(f: TFunc) {
    ListUses(f.body) !! LostList(f.body)
  }

  // ---- what resolved code uses -----------------------------------------------------------------

  lemma {:induction false} ExprUsesIn(e: TExpr, ids: set<nat>)
    requires ExprIn(e, ids)
    ensures ExprUses(e) <= ids
    decreases e
  {
    if e.mark.None? {
      match e.node
      case TVar(_) =>
      case TBinary(_, l, r) => ExprUsesIn(l, ids); ExprUsesIn(r, ids);
      case TLogical(_, l, r) => ExprUsesIn(l, ids); ExprUsesIn(r, ids);
      case TUnary(_, a) => ExprUsesIn(a, ids);
      case TCall(_, _, args) => CallUsesIn(args, ids);
    }
  }

  lemma {:induction false} CallUsesIn(es: List<TExpr>, ids: set<nat>)
    requires Typed.ArgsIn(es, ids)
    ensures CallUses(es) <= ids
    decreases es
  {
    if es.Cons? {
      ExprUsesIn(es.head, ids);
      CallUsesIn(es.tail, ids);
    }
  }

  /** Resolved code uses what was declared before it or what it declares. */
  lemma {:induction false} StmtUsesIn(s: TStmt, ids: set<nat>, lo: nat, inLoop: bool)
    requires StmtIn(s, ids, lo, inLoop)
    ensures StmtUses(s) <= ids + Decls(s) && Declared(s, ids) <= ids + Decls(s)
    decreases s
  {
    match s
    case TBlock(ss) => ListUsesIn(ss, ids, lo, inLoop);
    case TExprStmt(e) => ExprUsesIn(e, ids);
    case TAssign(_, e) => ExprUsesIn(e, ids);
    case TVarDecl(_, _, e) => ExprUsesIn(e, ids);
    case TIf(c, t, e) =>
      if c.mark.None? {
        ExprUsesIn(c, ids);
        StmtUsesIn(t, ids, lo, inLoop);
        if e.Some? { StmtUsesIn(e.value, Declared(t, ids), NextId(t, lo), inLoop); }
      } else if c.mark.value != 0 {
        StmtUsesIn(t, ids, lo, inLoop);
      } else if e.Some? {
        StmtUsesIn(e.value, ids, NextId(t, lo), inLoop);
      }
    case TWhile(c, b) =>
      ExprUsesIn(c, ids);
      StmtUsesIn(b, ids, lo, true);
    case TReturn(e) => if e.Some? { ExprUsesIn(e.value, ids); }
    case _ =>
  }

  lemma {:induction false} ListUsesIn(ss: List<TStmt>, ids: set<nat>, lo: nat, inLoop: bool)
    requires ListIn(ss, ids, lo, inLoop)
    ensures ListUses(ss) <= ids + DeclsList(ss)
    decreases ss
  {
    if ss.Cons? {
      StmtUsesIn(ss.head, ids, lo, inLoop);
      ListUsesIn(ss.tail, Declared(ss.head, ids), NextId(ss.head, lo), inLoop);
    }
  }

  // ---- what lowering registers -----------------------------------------------------------------

  /** Code moves no local. */
  lemma CodeIr()
    ensures forall g, i :: Emit(g, i).ir == g.ir
    ensures forall g, t :: Finish(g, t).ir == g.ir
  {
  }

  /** Expressions and conditions give no local a register. */
  lemma {:induction false} GenExprIr(e: TExpr, g: Gen)
    ensures GenExpr(e, g).0.ir == g.ir
    decreases e, if e.node.TLogical? then 2 else 0
  {
    CodeIr();
    hide GenCond, Emit, Finish;
    if e.mark.None? {
      match e.node
      case TNumber(_) =>
      case TVar(_) =>
      case TBinary(_, l, r) =>
        GenExprIr(l, g);
        GenExprIr(r, GenExpr(l, g).0);
      case TUnary(_, a) => GenExprIr(a, g);
      case TLogical(_, _, _) =>
        GenCondIr(e, NewBlock(NewBlock(NewBlock(NewVreg(g)))), |g.blocks|, |g.blocks| + 1);
      case TCall(_, _, args) => GenArgsIr(args, g);
    }
  }

  lemma {:induction false} GenArgsIr(es: List<TExpr>, g: Gen)
    ensures GenArgs(es, g).0.ir == g.ir
    decreases es, 0
  {
    if es.Cons? {
      GenExprIr(es.head, g);
      GenArgsIr(es.tail, GenExpr(es.head, g).0);
    }
  }

  lemma {:induction false} GenCondIr(e: TExpr, g: Gen, t: nat, f: nat)
    ensures GenCond(e, g, t, f).ir == g.ir
    decreases e, 1
  {
    if e.mark.Some? {
    } else if e.node.TLogical? {
      var mid := |g.blocks|;
      var (t0, f0) := if e.node.isOr then (t, mid) else (mid, f);
      GenCondIr(e.node.lhs, NewBlock(g), t0, f0);
      GenCondIr(e.node.rhs, StartBlock(GenCond(e.node.lhs, NewBlock(g), t0, f0), mid), t, f);
    } else if e.node.TUnary? && e.node.uop.LogNot? {
      GenCondIr(e.node.operand, g, f, t);
    } else {
      GenExprIr(e, g);
    }
  }

  /** Statements give exactly their lowered declarations a register. */
  lemma {:induction false} GenStmtIr(s: TStmt, g: Gen)
    ensures GenStmt(s, g).ir.Keys == g.ir.Keys + Decls(s)
    decreases s
  {
    hide GenExpr, GenCond, Emit, Finish;
    CodeIr();
    match s
    case TBlock(ss) => GenListIr(ss, g);
    case TExprStmt(e) => GenExprIr(e, g);
    case TAssign(_, e) => GenExprIr(e, g);
    case TVarDecl(_, id, e) => GenExprIr(e, NewVreg(g).(ir := g.ir[id := g.next]));
    case TIf(_, _, _) => GenIfIr(s, g);
    case TWhile(_, _) => GenWhileIr(s, g);
    case TReturn(e) => if e.Some? { GenExprIr(e.value, g); }
    case _ =>
  }

  lemma {:induction false} GenWhileIr(s: TStmt, g: Gen)
    requires s.TWhile?
    ensures GenStmt(s, g).ir.Keys == g.ir.Keys + Decls(s)
    decreases s, 0
  {
    hide GenCond, Finish;
    var n := |g.blocks|;
    var g0 := Finish(NewBlock(NewBlock(NewBlock(g))), Jmp(n + 1));
    var g1 := StartBlock(PushLoop(g0, Loop(n + 1, n + 2)), n);
    var g2 := Finish(GenStmt(s.body, g1), Jmp(n + 1));
    CodeIr();
    GenStmtIr(s.body, g1);
    GenCondIr(s.cond, StartBlock(PopLoop(g2), n + 1), n, n + 2);
  }

  lemma {:induction false} GenIfIr(s: TStmt, g: Gen)
    requires s.TIf?
    ensures GenStmt(s, g).ir.Keys == g.ir.Keys + Decls(s)
    decreases s, 0
  {
    hide GenExpr, GenCond, Emit, Finish;
    CodeIr();
    var TIf(c, t, e) := s;
    if c.mark.Some? {
      if c.mark.value != 0 { GenStmtIr(t, g); } else if e.Some? { GenStmtIr(e.value, g); }
    } else {
      var n := |g.blocks|;
      var g0 := if e.Some? then NewBlock(NewBlock(NewBlock(g))) else NewBlock(NewBlock(g));
      var f := if e.Some? then n + 2 else n + 1;
      GenCondIr(c, g0, n, f);
      var g1 := StartBlock(GenCond(c, g0, n, f), n);
      GenStmtIr(t, g1);
      if e.Some? { GenStmtIr(e.value, StartBlock(Finish(GenStmt(t, g1), Jmp(n + 1)), n + 2)); }
    }
  }

  lemma {:induction false} GenListIr(ss: List<TStmt>, g: Gen)
    ensures GenList(ss, g).ir.Keys == g.ir.Keys + DeclsList(ss)
    decreases ss
  {
    hide GenStmt;
    if ss.Cons? {
      GenStmtIr(ss.head, g);
      GenListIr(ss.tail, GenStmt(ss.head, g));
    }
  }

  lemma {:induction false} ParamKeys(params: seq<nat>)
    ensures ParamMap(params).Keys == set i | 0 <= i < |params| :: params[i]
    decreases |params|
  {
    if params != [] {
      var n := |params| - 1;
      ParamKeys(params[..n]);
      forall x | x in (set i | 0 <= i < |params| :: params[i]) ensures x in ParamMap(params) {
        var i :| 0 <= i < |params| && params[i] == x;
        if i < n { assert params[..n][i] == x; }
      }
    }
  }

  /** The symbols with a register at the end: the parameters and the lowered declarations. */
  lemma GenBodyIr(f: TFunc)
    ensures GenBody(f).ir.Keys == (set i | 0 <= i < |f.params| :: f.params[i]) + DeclsList(f.body)
  {
    hide GenList;
    ParamKeys(f.params);
    GenListIr(f.body, GenBegin(f));
  }
}
