/** The passes on lowered code: lowering supplies what each of them relies on. */
module AfterLowering {
  import opened Word32
  import opened IR
  import opened Ast
  import opened Typed
  import opened Lower
  import opened LowerShape
  import LowerSim
  import opened Dominators
  import opened Replacement
  import opened Hoist
  import opened Inline
  import opened InlineLoops
  import opened Inliner
  import opened Sweeps
  import EndToEnd

  // ---- no hints -----------------------------------------------------------------------------

  /** No division generated so far has a hint. */
  ghost predicate Hintless(g: Gen) {
    forall b | 0 <= b < |g.blocks| :: NoHintsIn(g.blocks[b].insts)
  }

  lemma StepHintless(g: Gen)
    requires Hintless(g)
    ensures Hintless(NewBlock(g)) && forall t :: Hintless(Finish(g, t))
    ensures forall i: Inst | i.Bin? ==> i.magicVreg < 0 :: Hintless(Emit(g, i))
  {
  }

  lemma {:induction false} ExprHintless(e: TExpr, g: Gen)
    requires Hintless(g)
    ensures Hintless(GenExpr(e, g).0)
    decreases e, if e.node.TLogical? then 2 else 0
  {
    hide Hintless, Emit, Finish, NewBlock;
    if e.mark.None? {
      match e.node
      case TNumber(_) =>
      case TVar(sym) => if sym.GlobalVar? { EmitToHintless(g, LoadGlobal(g.next, sym.gid)); }
      case TBinary(op, l, r) =>
        ExprHintless(l, g);
        var (g1, la) := GenExpr(l, g);
        ExprHintless(r, g1);
        var (g2, lb) := GenExpr(r, g1);
        EmitToHintless(g2, Bin(op, g2.next, la, lb, -1, false));
      case TUnary(op, a) =>
        ExprHintless(a, g);
        var (g1, v) := GenExpr(a, g);
        EmitToHintless(g1, Un(if op.Minus? then Neg else Not, g1.next, v));
      case TLogical(_, _, _) => LogicalHintless(e, g);
      case TCall(callee, returnsVoid, args) =>
        ArgsHintless(args, g);
        var (g1, vs) := GenArgs(args, g);
        EmitToHintless(g1, Call(g1.next, callee, vs));
        StepHintless(g1);
    }
  }

  lemma EmitToHintless(g: Gen, i: Inst)
    requires Hintless(g) && (i.Bin? ==> i.magicVreg < 0)
    ensures Hintless(EmitTo(g, i).0)
  {
  }

  lemma {:induction false} LogicalHintless(e: TExpr, g: Gen)
    requires Hintless(g) && e.mark.None? && e.node.TLogical?
    ensures Hintless(GenExpr(e, g).0)
    decreases e, if e.node.TLogical? then 2 else 0, 0
  {
    hide Emit, Finish, NewBlock, GenCond;
    var res, n := g.next, |g.blocks|;
    assert Hintless(NewVreg(g));
    StepHintless(NewVreg(g));
    StepHintless(NewBlock(NewVreg(g)));
    StepHintless(NewBlock(NewBlock(NewVreg(g))));
    var g0 := NewBlock(NewBlock(NewBlock(NewVreg(g))));
    CondHintless(e, g0, n, n + 1);
    var g1 := GenCond(e, g0, n, n + 1);
    StepHintless(StartBlock(g1, n));
    var g2 := Emit(StartBlock(g1, n), Mv(res, Imm(1)));
    StepHintless(g2);
    StepHintless(StartBlock(Finish(g2, Jmp(n + 2)), n + 1));
    var g3 := Emit(StartBlock(Finish(g2, Jmp(n + 2)), n + 1), Mv(res, Imm(0)));
    StepHintless(g3);
  }

  lemma {:induction false} ArgsHintless(es: List<TExpr>, g: Gen)
    requires Hintless(g)
    ensures Hintless(GenArgs(es, g).0)
    decreases es, 0
  {
    hide Hintless;
    if es.Cons? {
      ExprHintless(es.head, g);
      ArgsHintless(es.tail, GenExpr(es.head, g).0);
    }
  }

  lemma {:induction false} CondHintless(e: TExpr, g: Gen, t: nat, f: nat)
    requires Hintless(g)
    ensures Hintless(GenCond(e, g, t, f))
    decreases e, 1
  {
    hide Emit, Finish, NewBlock, GenExpr;
    StepHintless(g);
    if e.mark.Some? {
    } else if e.node.TLogical? {
      var mid := |g.blocks|;
      var (t0, f0) := if e.node.isOr then (t, mid) else (mid, f);
      CondHintless(e.node.lhs, NewBlock(g), t0, f0);
      var g1 := StartBlock(GenCond(e.node.lhs, NewBlock(g), t0, f0), mid);
      assert Hintless(g1);
      CondHintless(e.node.rhs, g1, t, f);
    } else if e.node.TUnary? && e.node.uop.LogNot? {
      CondHintless(e.node.operand, g, f, t);
    } else {
      ExprHintless(e, g);
      StepHintless(GenExpr(e, g).0);
    }
  }

  lemma {:induction false} StmtHintless(s: TStmt, g: Gen)
    requires Hintless(g)
    ensures Hintless(GenStmt(s, g))
    decreases s, 2
  {
    hide Hintless, Emit, Finish, NewBlock, GenExpr, GenCond;
    StepHintless(g);
    match s
    case TBlock(ss) => ListHintless(ss, g);
    case TExprStmt(e) => ExprHintless(e, g);
    case TAssign(_, e) =>
      ExprHintless(e, g);
      StepHintless(GenExpr(e, g).0);
    case TVarDecl(_, id, e) =>
      var g0 := NewVreg(g).(ir := g.ir[id := g.next]);
      SameHintless(g, g0);
      ExprHintless(e, g0);
      StepHintless(GenExpr(e, g0).0);
    case TIf(_, _, _) => IfHintless(s, g);
    case TWhile(_, _) => WhileHintless(s, g);
    case TReturn(e) =>
      if e.Some? {
        ExprHintless(e.value, g);
        StepHintless(GenExpr(e.value, g).0);
      }
    case _ =>
  }

  lemma SameHintless(g: Gen, h: Gen)
    requires Hintless(g) && h.blocks == g.blocks
    ensures Hintless(h)
  {
  }

  lemma {:induction false} ArmHintless(s: TStmt, g: Gen, id: nat, x: nat)
    requires Hintless(g)
    ensures Hintless(Finish(GenStmt(s, StartBlock(g, id)), Jmp(x)))
    decreases s, 3
  {
    hide Hintless, Finish, GenStmt;
    SameHintless(g, StartBlock(g, id));
    StmtHintless(s, StartBlock(g, id));
    StepHintless(GenStmt(s, StartBlock(g, id)));
  }

  lemma {:induction false} IfHintless(s: TStmt, g: Gen)
    requires Hintless(g) && s.TIf?
    ensures Hintless(GenStmt(s, g))
    decreases s, 0
  {
    hide Hintless, Emit, Finish, NewBlock, GenExpr, GenCond;
    if s.cond.mark.Some? {
      if s.cond.mark.value != 0 { StmtHintless(s.then_, g); } else if s.else_.Some? { StmtHintless(s.else_.value, g); }
    } else {
      var n := |g.blocks|;
      StepHintless(g);
      StepHintless(NewBlock(g));
      StepHintless(NewBlock(NewBlock(g)));
      LowerSim.IfIs(s, g);
      var g0, g1, g2 := LowerSim.If0(s, g), LowerSim.If1(s, g), LowerSim.If2(s, g);
      CondHintless(s.cond, g0, n, LowerSim.IfElseTarget(s, g));
      ArmHintless(s.then_, g1, n, n + 1);
      if s.else_.Some? { ArmHintless(s.else_.value, g2, n + 2, n + 1); }
      SameHintless(LowerSim.If3(s, g), StartBlock(LowerSim.If3(s, g), n + 1));
    }
  }

  lemma {:induction false} WhileHintless(s: TStmt, g: Gen)
    requires Hintless(g) && s.TWhile?
    ensures Hintless(GenStmt(s, g))
    decreases s, 0
  {
    hide Hintless, Emit, Finish, NewBlock, GenExpr, GenCond, GenStmt;
    var n := |g.blocks|;
    StepHintless(g);
    StepHintless(NewBlock(g));
    StepHintless(NewBlock(NewBlock(g)));
    StepHintless(NewBlocks3(g));
    SameHintless(Finish(NewBlocks3(g), Jmp(n + 1)), LoopEntry(g));
    ArmHintless(s.body, LoopEntry(g), n, n + 1);
    var g2 := AfterBody(s, g);
    SameHintless(Finish(GenStmt(s.body, StartBlock(LoopEntry(g), n)), Jmp(n + 1)), g2);
    SameHintless(g2, StartBlock(g2, n + 1));
    CondHintless(s.cond, StartBlock(g2, n + 1), n, n + 2);
    var g3 := GenCond(s.cond, StartBlock(g2, n + 1), n, n + 2);
    SameHintless(g3, StartBlock(g3, n + 2));
    LoopIs(s, g);
  }

  lemma {:induction false} ListHintless(ss: List<TStmt>, g: Gen)
    requires Hintless(g)
    ensures Hintless(GenList(ss, g))
    decreases ss, 3
  {
    hide Hintless, GenStmt;
    if ss.Cons? {
      StmtHintless(ss.head, g);
      ListHintless(ss.tail, GenStmt(ss.head, g));
    }
  }

  /** Lowering leaves no hints: they are the later passes' to give. */
  lemma FuncHintless(f: TFunc)
    ensures NoHints(GenFunc(f))
  {
    hide GenList, Finish;
    var g := GenList(f.body, GenBegin(f));
    ListHintless(f.body, GenBegin(f));
    StepHintless(g);
  }

  // ---- the passes -----------------------------------------------------------------------------

  /** No edge of a lowered function enters its entry block. */
  lemma EntryFree(f: TFunc)
    requires FuncIn(f)
    ensures FuncOk(GenFunc(f)) && forall p: nat :: !Edge(GenFunc(f), p, 0)
  {
    hide FuncIn, GenFunc, FuncOk;
    GenFuncWellFormed(f);
  }

  /** Hoisting is right for every lowered function. */
  method HoistAfterLowering(kind: Kind, f: TFunc) returns (r: Func)
    requires FuncIn(f)
    ensures FuncOk(r) && Improves(GenFunc(f), r)
    ensures AllReachable(GenFunc(f)) ==> forall L, u, v | Due(GenFunc(f), L, u, v) :: NothingLeft(kind, r, L)
  {
    hide FuncIn, GenFunc, FuncOk, Improves, Due, NothingLeft;
    EntryFree(f);
    r := HoistPass(kind, GenFunc(f));
  }

  /** Inlining is right for every lowered program. */
  method InlineAfterLowering(t: TModule) returns (m: Module)
    requires forall i | 0 <= i < |t.funcs| :: FuncIn(t.funcs[i])
    requires forall i, j | 0 <= i < j < |t.funcs| :: t.funcs[i].name != t.funcs[j].name
    ensures SameRuns(Generate(t), m)
    ensures ShortChains(Generate(t)) || CalleesFirst(Generate(t)) ==> NoSites(m)
  {
    hide FuncIn, GenFunc, FuncOk, NoHints, SameRuns, NoSites, ShortChains, CalleesFirst;
    EndToEnd.GenFuncsAt(t.funcs);
    forall i | 0 <= i < |t.funcs|
      ensures FuncOk(GenFunc(t.funcs[i])) && NoHints(GenFunc(t.funcs[i])) && GenFunc(t.funcs[i]).name == t.funcs[i].name
    {
      EntryFree(t.funcs[i]);
      FuncHintless(t.funcs[i]);
      LowerSim.NameKept(t.funcs[i]);
    }
    m := InlineFunctions(Generate(t));
  }
}
