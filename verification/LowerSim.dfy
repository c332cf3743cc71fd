/** The simulation itself: expressions, conditions, statements and calls. */
module LowerSim {
  import opened Word32
  import opened IR
  import opened Ast
  import opened Typed
  import opened Lower
  import opened LowerShape
  import opened LowerProof

  /** Facts about an expression's code that every use of it needs. */
  lemma ExprFacts(e: TExpr, g: Gen, ids: set<nat>)
    requires Ok(g) && Knows(g, ids) && ExprIn(e, ids)
    ensures var (h, v) := GenExpr(e, g);
            && Grows(g, h) && Ok(h) && h.ir == g.ir && ValOk(v, h.next) && g.next <= h.next && Knows(h, ids)
            && (!g.isSealed ==> !h.isSealed)
  {
    hide GenExpr, Pending, Extends, BlockFine;
    GenExprGrows(e, g, ids);
    NextGrows(g, GenExpr(e, g).0);
  }

  /** What grows into the finished graph's past is in its past too. */
  lemma Earlier(c: Ctx, g: Gen, h: Gen)
    requires Grows(g, h) && Extends(h, c.fin)
    ensures Extends(g, c.fin)
  {
  }

  /** Every premise of a simulation step for an expression from g. */
  ghost predicate Ready(c: Ctx, g: Gen, ids: set<nat>, s: State, st: Store) {
    CtxOk(c) && Ok(g) && !g.isSealed && Knows(g, ids) && Matches(c, s, st)
  }

  lemma ValuedMatches(c: Ctx, g: Gen, h: Gen, v: Val, s: State, s': State, st: Store, x: Result)
    requires Valued(c, g, h, v, s, s', st, x)
    ensures Matches(c, s', st.(globals := x.globals)) && Between(s, s', g.next, h.next)
    ensures x.val.Some? ==> Read(v, s'.regs) == x.val
    ensures s'.globals == x.globals
  {
  }

  lemma {:induction false} ExprSim(c: Ctx, e: TExpr, g: Gen, ids: set<nat>, s: State, st: Store, k: nat) returns (s': State)
    requires Ready(c, g, ids, s, st) && ExprIn(e, ids) && Extends(GenExpr(e, g).0, c.fin)
    requires TEval(c.fs, e, st, c.d, k).Done?
    ensures Valued(c, g, GenExpr(e, g).0, GenExpr(e, g).1, s, s', st, TEval(c.fs, e, st, c.d, k).value)
    decreases c.d, k, 0, e, if e.node.TLogical? then 4 else 1
  {
    if e.mark.Some? {
      s' := s;
      MarkSim(c, e, g, s, st, k);
    } else {
      match e.node
      case TVar(sym) => s' := VarSim(c, e, g, ids, s, st, k);
      case TBinary(_, _, _) => s' := BinarySim(c, e, g, ids, s, st, k);
      case TUnary(_, _) => s' := UnarySim(c, e, g, ids, s, st, k);
      case TLogical(_, _, _) => s' := LogicalSim(c, e, g, ids, s, st, k);
      case TCall(_, _, _) => s' := CallSim(c, e, g, ids, s, st, k);
    }
  }

  lemma MarkSim(c: Ctx, e: TExpr, g: Gen, s: State, st: Store, k: nat)
    requires e.mark.Some? && Matches(c, s, st)
    ensures Valued(c, g, GenExpr(e, g).0, GenExpr(e, g).1, s, s, st, TEval(c.fs, e, st, c.d, k).value)
  {
  }

  lemma VarSim(c: Ctx, e: TExpr, g: Gen, ids: set<nat>, s: State, st: Store, k: nat) returns (s': State)
    requires Ready(c, g, ids, s, st) && ExprIn(e, ids) && Extends(GenExpr(e, g).0, c.fin)
    requires TEval(c.fs, e, st, c.d, k).Done? && e.mark.None? && e.node.TVar?
    ensures Valued(c, g, GenExpr(e, g).0, GenExpr(e, g).1, s, s', st, TEval(c.fs, e, st, c.d, k).value)
  {
    hide Ok, Comes, FuncIn, Emit;
    var sym := e.node.sym;
    if sym.GlobalVar? {
      var i := LoadGlobal(g.next, sym.gid);
      s' := ExecPlain(i, s).value;
      EmitToValued(c, g, i, s, s', st, st.globals[sym.gid], k);
    } else {
      s' := s;
    }
  }

  /** A binary instruction without hints. */
  lemma BinRuns(op: BinOp, d: nat, a: Val, b: Val, s: State, x: i32, y: i32)
    requires Read(a, s.regs) == Some(x) && Read(b, s.regs) == Some(y) && EvalBin(op, x, y).Some?
    ensures ExecPlain(Bin(op, d, a, b, -1, false), s) == Done(State(s.regs[d := EvalBin(op, x, y).value], s.globals))
  {
  }

  lemma {:induction false} BinarySim(c: Ctx, e: TExpr, g: Gen, ids: set<nat>, s: State, st: Store, k: nat) returns (s': State)
    requires Ready(c, g, ids, s, st) && ExprIn(e, ids) && Extends(GenExpr(e, g).0, c.fin)
    requires TEval(c.fs, e, st, c.d, k).Done? && e.mark.None? && e.node.TBinary?
    ensures Valued(c, g, GenExpr(e, g).0, GenExpr(e, g).1, s, s', st, TEval(c.fs, e, st, c.d, k).value)
    decreases c.d, k, 0, e, 0
  {
    hide Ok, Comes, FuncIn, Emit, Extends, Pending, Leads, Grows, Valued, Matches, EvalBin, ExecPlain, EmitTo, Knows;
    var TBinary(op, l, r) := e.node;
    var (g1, la) := GenExpr(l, g);
    var (g2, lb) := GenExpr(r, g1);
    ExprFacts(l, g, ids);
    ExprFacts(r, g1, ids);
    var i := Bin(op, g2.next, la, lb, -1, false);
    var h := EmitTo(g2, i).0;
    EmitToGrows(g2, i);
    Earlier(c, g2, h);
    Earlier(c, g1, g2);
    var x := TEval(c.fs, l, st, c.d, k).value;
    var s1 := ExprSim(c, l, g, ids, s, st, k);
    var st1 := st.(globals := x.globals);
    ValuedMatches(c, g, g1, la, s, s1, st, x);
    var y := TEval(c.fs, r, st1, c.d, k).value;
    var s2 := ExprSim(c, r, g1, ids, s1, st1, k);
    ValuedMatches(c, g1, g2, lb, s1, s2, st1, y);
    ReadKept(la, s1, s2, g1.next, g2.next);
    BinRuns(op, g2.next, la, lb, s2, x.val.value, y.val.value);
    var n := EvalBin(op, x.val.value, y.val.value).value;
    s' := State(s2.regs[g2.next := n], s2.globals);
    EmitToValued(c, g2, i, s2, s', st.(globals := y.globals), n, k);
    ValuedThen(c, g, g1, g2, la, lb, s, s1, s2, st, x, y);
    ValuedThen(c, g, g2, h, lb, Reg(g2.next), s, s2, s', st, y, Result(Some(n), s2.globals));
  }

  lemma {:induction false} UnarySim(c: Ctx, e: TExpr, g: Gen, ids: set<nat>, s: State, st: Store, k: nat) returns (s': State)
    requires Ready(c, g, ids, s, st) && ExprIn(e, ids) && Extends(GenExpr(e, g).0, c.fin)
    requires TEval(c.fs, e, st, c.d, k).Done? && e.mark.None? && e.node.TUnary?
    ensures Valued(c, g, GenExpr(e, g).0, GenExpr(e, g).1, s, s', st, TEval(c.fs, e, st, c.d, k).value)
    decreases c.d, k, 0, e, 0
  {
    hide Ok, Comes, FuncIn, Emit, Extends, Pending, Leads, Grows, Valued, Matches, EmitTo, Knows;
    var TUnary(op, a) := e.node;
    var (g1, v) := GenExpr(a, g);
    ExprFacts(a, g, ids);
    var x := TEval(c.fs, a, st, c.d, k).value;
    if op.Plus? {
      s' := ExprSim(c, a, g, ids, s, st, k);
    } else {
      var i := Un(if op.Minus? then Neg else Not, g1.next, v);
      var h := EmitTo(g1, i).0;
      EmitToGrows(g1, i);
      Earlier(c, g1, h);
      var s1 := ExprSim(c, a, g, ids, s, st, k);
      ValuedMatches(c, g, g1, v, s, s1, st, x);
      var n := EvalUnary(op, x.val.value);
      s' := State(s1.regs[g1.next := n], s1.globals);
      EmitToValued(c, g1, i, s1, s', st.(globals := x.globals), n, k);
      ValuedThen(c, g, g1, h, v, Reg(g1.next), s, s1, s', st, x, Result(Some(n), s1.globals));
    }
  }

  // ---- conditions -----------------------------------------------------------------------------------

  /** Control is at block t or f, as the condition's value says. */
  ghost predicate Decided(c: Ctx, g: Gen, h: Gen, t: nat, f: nat, s: State, s': State, st: Store, x: Result) {
    && x.val.Some?
    && Leads(c, Here(g), s, Pos(if x.val.value != 0 then t else f, 0), s')
    && Matches(c, s', st.(globals := x.globals))
    && Between(s, s', g.next, h.next)
  }

  /** A waiting block, when it is started, is at its first instruction. */
  lemma StartHere(g0: Gen, g1: Gen, id: nat)
    requires Grows(g0, g1) && id in Pending(g0) && g0.blocks[id] == Block([], Open) && g1.isSealed
    ensures id in Pending(g1) && id < |g1.blocks| && g1.blocks[id] == Block([], Open)
    ensures var h := StartBlock(g1, id);
            Ok(h) && !h.isSealed && Here(h) == Pos(id, 0) && h.ir == g1.ir && h.next == g1.next
  {
  }

  lemma CondFacts(e: TExpr, g: Gen, ids: set<nat>, t: nat, f: nat)
    requires Ok(g) && Knows(g, ids) && ExprIn(e, ids) && 0 < t < |g.blocks| && 0 < f < |g.blocks|
    ensures var h := GenCond(e, g, t, f);
            && Grows(g, h) && h.isSealed && h.ir == g.ir && Ok(h) && g.next <= h.next && |g.blocks| <= |h.blocks|
            && Knows(h, ids)
  {
    hide GenCond, Pending, Extends, BlockFine;
    GenCondGrows(e, g, ids, t, f);
    NextGrows(g, GenCond(e, g, t, f));
  }

  lemma {:induction false} CondSim(c: Ctx, e: TExpr, g: Gen, ids: set<nat>, t: nat, f: nat, s: State, st: Store, k: nat)
    returns (s': State)
    requires Ready(c, g, ids, s, st) && ExprIn(e, ids) && Extends(GenCond(e, g, t, f), c.fin)
    requires 0 < t < |g.blocks| && 0 < f < |g.blocks|
    requires TEval(c.fs, e, st, c.d, k).Done? && TEval(c.fs, e, st, c.d, k).value.val.Some?
    ensures Decided(c, g, GenCond(e, g, t, f), t, f, s, s', st, TEval(c.fs, e, st, c.d, k).value)
    decreases c.d, k, 0, e, 2
  {
    hide Ok, Comes, FuncIn, Extends, Pending, Leads, Grows, Valued, Matches, Finish, Knows;
    var x := TEval(c.fs, e, st, c.d, k).value;
    if e.mark.Some? {
      s' := s;
      FinishLeads(c, g, Jmp(if e.mark.value != 0 then t else f), s);
      JmpGrows(g, if e.mark.value != 0 then t else f);
    } else if e.node.TLogical? {
      s' := CondLogicalSim(c, e, g, ids, t, f, s, st, k);
    } else if e.node.TUnary? && e.node.uop.LogNot? {
      s' := CondSim(c, e.node.operand, g, ids, f, t, s, st, k);
    } else {
      var (g1, v) := GenExpr(e, g);
      ExprFacts(e, g, ids);
      BranchFine(g, g1, v, t, f);
      FinishGrows(g1, Br(v, t, f));
      Earlier(c, g1, GenCond(e, g, t, f));
      s' := ExprSim(c, e, g, ids, s, st, k);
      ValuedMatches(c, g, g1, v, s, s', st, x);
      FinishLeads(c, g1, Br(v, t, f), s');
      ValuedLeads(c, g, g1, v, s, s', st, x);
      LeadsTo(c, Here(g), s, Here(g1), s', Pos(if x.val.value != 0 then t else f, 0), s');
    }
  }

  lemma ValuedLeads(c: Ctx, g: Gen, h: Gen, v: Val, s: State, s': State, st: Store, x: Result)
    requires Valued(c, g, h, v, s, s', st, x)
    ensures Leads(c, Here(g), s, Here(h), s')
  {
  }

  lemma BranchFine(g: Gen, g1: Gen, v: Val, t: nat, f: nat)
    requires Grows(g, g1) && ValOk(v, g1.next) && 0 < t < |g.blocks| && 0 < f < |g.blocks|
    ensures BlockFine(Block([], Br(v, t, f)), |g1.blocks|, g1.next)
  {
  }

  /** The condition block in the middle of `&&` and `||`. */
  lemma {:induction false} CondLogicalSim(c: Ctx, e: TExpr, g: Gen, ids: set<nat>, t: nat, f: nat, s: State, st: Store, k: nat)
    returns (s': State)
    requires Ready(c, g, ids, s, st) && ExprIn(e, ids) && Extends(GenCond(e, g, t, f), c.fin)
    requires 0 < t < |g.blocks| && 0 < f < |g.blocks| && e.mark.None? && e.node.TLogical?
    requires TEval(c.fs, e, st, c.d, k).Done?
    ensures Decided(c, g, GenCond(e, g, t, f), t, f, s, s', st, TEval(c.fs, e, st, c.d, k).value)
    decreases c.d, k, 0, e, 0
  {
    hide Ok, Comes, FuncIn, Extends, Pending, Leads, Grows, Matches, Here, NewBlock, Between;
    var TLogical(isOr, l, r) := e.node;
    var mid := |g.blocks|;
    var g0, tl, fl := NewBlock(g), if isOr then t else mid, if isOr then mid else f;
    NewBlockReady(c, g, ids, s, st);
    CondFacts(l, g0, ids, tl, fl);
    var g1 := GenCond(l, g0, tl, fl);
    StartHere(g0, g1, mid);
    var g2 := StartBlock(g1, mid);
    CondFacts(r, g2, ids, t, f);
    var h := GenCond(r, g2, t, f);
    Earlier(c, g2, h);
    StartedEarlier(c, g1, mid);
    var s1 := CondSim(c, l, g0, ids, tl, fl, s, st, k);
    var x := TEval(c.fs, l, st, c.d, k).value;
    if isOr == (x.val.value != 0) {
      s' := s1;
      BetweenMore(s, s1, g0.next, g1.next, h.next);
    } else {
      var st1 := st.(globals := x.globals);
      s' := CondSim(c, r, g2, ids, t, f, s1, st1, k);
      var y := TEval(c.fs, r, st1, c.d, k).value;
      BetweenTrans(s, s1, s', g.next, g1.next, h.next);
      LeadsTo(c, Here(g), s, Pos(mid, 0), s1, Pos(if y.val.value != 0 then t else f, 0), s');
    }
  }

  lemma BetweenMore(s: State, s': State, lo: nat, mid: nat, hi: nat)
    requires Between(s, s', lo, mid) && mid <= hi
    ensures Between(s, s', lo, hi)
  {
  }

  lemma NewBlockReady(c: Ctx, g: Gen, ids: set<nat>, s: State, st: Store)
    requires Ready(c, g, ids, s, st)
    ensures var h := NewBlock(g);
            && Ready(c, h, ids, s, st) && Here(h) == Here(g) && |h.blocks| == |g.blocks| + 1 && h.next == g.next
            && |g.blocks| in Pending(h) && h.blocks[|g.blocks|] == Block([], Open) && |g.blocks| > 0
  {
  }

  /** A block that has been started was waiting before. */
  lemma StartedEarlier(c: Ctx, g: Gen, id: nat)
    requires Ok(g) && g.isSealed && id in Pending(g) && Extends(StartBlock(g, id), c.fin)
    ensures Extends(g, c.fin)
  {
  }

  // ---- logical values ---------------------------------------------------------------------------------

  /** One arm of a logical value, executed. */
  lemma SetArmLeads(c: Ctx, g: Gen, id: nat, res: nat, n: i32, x: nat, s: State)
    requires CtxOk(c) && Ok(g) && g.isSealed && id in Pending(g) && g.blocks[id] == Block([], Open)
    requires res < g.next && 0 < x < |g.blocks|
    requires Extends(Finish(Emit(StartBlock(g, id), Mv(res, Imm(n))), Jmp(x)), c.fin)
    ensures Leads(c, Pos(id, 0), s, Pos(x, 0), State(s.regs[res := n], s.globals))
  {
    hide FuncIn, Comes, Emit, Finish, Extends, Leads, Pending, Ok;
    StartVia(g, id, {});
    var a := StartBlock(g, id);
    ViaBlocks(g, a, {});
    EmitGrows(a, Mv(res, Imm(n)));
    var b := Emit(a, Mv(res, Imm(n)));
    NextGrows(a, b);
    JmpGrows(b, x);
    Earlier(c, b, Finish(b, Jmp(x)));
    var s' := State(s.regs[res := n], s.globals);
    EmitLeads(c, a, Mv(res, Imm(n)), s, s', 0);
    FinishLeads(c, b, Jmp(x), s');
    LeadsTo(c, Pos(id, 0), s, Here(b), s', Pos(x, 0), s');
  }

  /** The stages of `genExpr` for a logical value. */
  function Arm1(e: TExpr, g: Gen): Gen {
    GenCond(e, NewBlocks3(NewVreg(g)), |g.blocks|, |g.blocks| + 1)
  }

  function Arm2(e: TExpr, g: Gen): Gen {
    Finish(Emit(StartBlock(Arm1(e, g), |g.blocks|), Mv(g.next, Imm(1))), Jmp(|g.blocks| + 2))
  }

  function Arm3(e: TExpr, g: Gen): Gen {
    Finish(Emit(StartBlock(Arm2(e, g), |g.blocks| + 1), Mv(g.next, Imm(0))), Jmp(|g.blocks| + 2))
  }

  /** The stages are consistent, and the finished graph comes after all of them. */
  lemma ArmFacts(c: Ctx, e: TExpr, g: Gen, ids: set<nat>)
    requires Ok(g) && Knows(g, ids) && ExprIn(e, ids) && e.mark.None? && e.node.TLogical? && Extends(GenExpr(e, g).0, c.fin)
    ensures var n, g1, g2, g3 := |g.blocks|, Arm1(e, g), Arm2(e, g), Arm3(e, g);
            && n > 0 && GenExpr(e, g) == (StartBlock(g3, n + 2), Reg(g.next))
            && Ok(g1) && Ok(g2) && Ok(g3) && g1.isSealed && g2.isSealed && g3.isSealed
            && g.next < g1.next == g2.next == g3.next && n + 3 <= |g1.blocks| <= |g2.blocks| <= |g3.blocks|
            && n in Pending(g1) && g1.blocks[n] == Block([], Open)
            && n + 1 in Pending(g2) && g2.blocks[n + 1] == Block([], Open)
            && n + 2 in Pending(g3) && g3.blocks[n + 2] == Block([], Open)
            && Extends(g1, c.fin) && Extends(g2, c.fin) && Extends(g3, c.fin) && g3.ir == g.ir
  {
    hide Finish, Emit, Extends, GenCond, Ok;
    var n, res, P := |g.blocks|, g.next, Pending(g);
    var g1, g2, g3 := Arm1(e, g), Arm2(e, g), Arm3(e, g);
    NewVregGrows(g);
    NewBlocks3Via(NewVreg(g));
    NextGrows(g, NewVreg(g));
    OkNonempty(g);
    var g0 := NewBlocks3(NewVreg(g));
    CondFacts(e, g0, ids, n, n + 1);
    hide Pending;
    SetArmGrows(g1, n, res, 1, n + 2, P + {n + 1, n + 2});
    ViaBlocks(g1, g2, P + {n + 1, n + 2});
    SetArmGrows(g2, n + 1, res, 0, n + 2, P + {n + 2});
    ViaBlocks(g2, g3, P + {n + 2});
    StartedEarlier(c, g3, n + 2);
    ExtendsTrans(g2, g3, c.fin);
    ExtendsTrans(g1, g2, c.fin);
  }

  lemma {:induction false} LogicalSim(c: Ctx, e: TExpr, g: Gen, ids: set<nat>, s: State, st: Store, k: nat) returns (s': State)
    requires Ready(c, g, ids, s, st) && ExprIn(e, ids) && Extends(GenExpr(e, g).0, c.fin)
    requires TEval(c.fs, e, st, c.d, k).Done? && e.mark.None? && e.node.TLogical?
    ensures Valued(c, g, GenExpr(e, g).0, GenExpr(e, g).1, s, s', st, TEval(c.fs, e, st, c.d, k).value)
    decreases c.d, k, 0, e, 3
  {
    hide Ok, Comes, FuncIn, Extends, Pending, Leads, GenExpr, GenCond, Matches, Knows, Finish, Emit, NewBlocks3, Between, TNode;
    var n, res := |g.blocks|, g.next;
    var g0, g1, g2, g3 := NewBlocks3(NewVreg(g)), Arm1(e, g), Arm2(e, g), Arm3(e, g);
    ArmFacts(c, e, g, ids);
    NewBlocks3Ready(c, g, ids, s, st);
    LogicalIsBit(c, e, st, k);
    assert g1 == GenCond(e, g0, n, n + 1);
    var s1 := CondSim(c, e, g0, ids, n, n + 1, s, st, k);
    var x := TEval(c.fs, e, st, c.d, k).value;
    s' := State(s1.regs[res := x.val.value], s1.globals);
    if x.val.value != 0 {
      SetArmLeads(c, g1, n, res, 1, n + 2, s1);
    } else {
      SetArmLeads(c, g2, n + 1, res, 0, n + 2, s1);
    }
    LeadsTo(c, Here(g), s, Pos(if x.val.value != 0 then n else n + 1, 0), s1, Pos(n + 2, 0), s');
    LogicalState(c, e, g, ids, s, s1, s', st, x);
  }

  /** A logical value is 0 or 1. */
  lemma LogicalIsBit(c: Ctx, e: TExpr, st: Store, k: nat)
    requires e.mark.None? && e.node.TLogical? && TEval(c.fs, e, st, c.d, k).Done?
    ensures TEval(c.fs, e, st, c.d, k).value.val in {Some(0), Some(1)}
  {
  }

  lemma LogicalState(c: Ctx, e: TExpr, g: Gen, ids: set<nat>, s: State, s1: State, s': State, st: Store, x: Result)
    requires Ok(g) && Knows(g, ids) && ExprIn(e, ids) && e.mark.None? && e.node.TLogical? && Extends(GenExpr(e, g).0, c.fin)
    requires Matches(c, s1, st.(globals := x.globals)) && Between(s, s1, g.next + 1, Arm1(e, g).next) && x.val.Some?
    requires s' == State(s1.regs[g.next := x.val.value], s1.globals)
    requires Leads(c, Here(g), s, Pos(|g.blocks| + 2, 0), s')
    ensures Valued(c, g, GenExpr(e, g).0, GenExpr(e, g).1, s, s', st, x)
  {
    hide Leads, GenExpr, GenCond, Emit, Finish, Pending, Extends, Arm1, Arm2, Arm3, Ok;
    ArmFacts(c, e, g, ids);
    var h := GenExpr(e, g).0;
    ExprFacts(e, g, ids);
    GrowsExtends(g, h);
    OwnRegisters(c, g, h);
    MatchesKept(c, s1, s', st.(globals := x.globals), g.next, h.next);
    assert Here(h) == Pos(|g.blocks| + 2, 0);
  }

  lemma NewBlocks3Ready(c: Ctx, g: Gen, ids: set<nat>, s: State, st: Store)
    requires Ready(c, g, ids, s, st)
    ensures var h := NewBlocks3(NewVreg(g));
            Ready(c, h, ids, s, st) && Here(h) == Here(g) && |h.blocks| == |g.blocks| + 3 && h.next == g.next + 1
  {
  }

  // ---- calls -----------------------------------------------------------------------------------------

  /** The operands hold the values. */
  ghost predicate Holds(vs: seq<Val>, s: State, xs: seq<i32>) {
    |vs| == |xs| && forall i | 0 <= i < |vs| :: Read(vs[i], s.regs) == Some(xs[i])
  }

  lemma {:induction false} ReadAllHolds(vs: seq<Val>, s: State, xs: seq<i32>)
    requires Holds(vs, s, xs)
    ensures ReadAll(vs, s.regs) == Some(xs)
  {
    if vs != [] {
      ReadAllHolds(vs[1..], s, xs[1..]);
      assert xs == [xs[0]] + xs[1..];
    }
  }

  lemma ArgsFacts(es: List<TExpr>, g: Gen, ids: set<nat>)
    requires Ok(g) && Knows(g, ids) && Typed.ArgsIn(es, ids)
    ensures var (h, vs) := GenArgs(es, g);
            && Grows(g, h) && Ok(h) && h.ir == g.ir && g.next <= h.next && Knows(h, ids) && (!g.isSealed ==> !h.isSealed)
            && forall j | 0 <= j < |vs| :: ValOk(vs[j], h.next)
  {
    hide GenArgs, Pending, Extends, BlockFine;
    GenArgsGrows(es, g, ids);
    NextGrows(g, GenArgs(es, g).0);
  }

  /** What the code of an argument list promises. */
  ghost predicate Listed(c: Ctx, g: Gen, h: Gen, vs: seq<Val>, s: State, s': State, st: Store, x: Values) {
    && Leads(c, Here(g), s, Here(h), s')
    && Matches(c, s', st.(globals := x.globals))
    && Between(s, s', g.next, h.next)
    && Holds(vs, s', x.vals)
  }

  lemma {:induction false} ArgsSim(c: Ctx, es: List<TExpr>, g: Gen, ids: set<nat>, s: State, st: Store, k: nat) returns (s': State)
    requires Ready(c, g, ids, s, st) && Typed.ArgsIn(es, ids) && Extends(GenArgs(es, g).0, c.fin)
    requires TArgs(c.fs, es, st, c.d, k).Done?
    ensures Listed(c, g, GenArgs(es, g).0, GenArgs(es, g).1, s, s', st, TArgs(c.fs, es, st, c.d, k).value)
    decreases c.d, k, 0, es, 0
  {
    hide Ok, Comes, FuncIn, Emit, Extends, Pending, Grows, Valued, GenExpr, Knows, TEval;
    match es
    case Nil =>
      s' := s;
    case Cons(e, rest) =>
      hide Leads, Matches, Between, Here;
      var (g1, v) := GenExpr(e, g);
      ExprFacts(e, g, ids);
      ArgsFacts(rest, g1, ids);
      var (h, vs) := GenArgs(rest, g1);
      Earlier(c, g1, h);
      var x := TEval(c.fs, e, st, c.d, k).value;
      var s1 := ExprSim(c, e, g, ids, s, st, k);
      ValuedMatches(c, g, g1, v, s, s1, st, x);
      ValuedLeads(c, g, g1, v, s, s1, st, x);
      var st1 := st.(globals := x.globals);
      s' := ArgsSim(c, rest, g1, ids, s1, st1, k);
      LeadsTo(c, Here(g), s, Here(g1), s1, Here(h), s');
      BetweenTrans(s, s1, s', g.next, g1.next, h.next);
      ReadKept(v, s1, s', g1.next, h.next);
  }

  lemma {:induction false} CallSim(c: Ctx, e: TExpr, g: Gen, ids: set<nat>, s: State, st: Store, k: nat) returns (s': State)
    requires Ready(c, g, ids, s, st) && ExprIn(e, ids) && Extends(GenExpr(e, g).0, c.fin)
    requires TEval(c.fs, e, st, c.d, k).Done? && e.mark.None? && e.node.TCall?
    ensures Valued(c, g, GenExpr(e, g).0, GenExpr(e, g).1, s, s', st, TEval(c.fs, e, st, c.d, k).value)
    decreases c.d, k, 0, e, 0
  {
    hide Ok, Comes, FuncIn, Emit, Extends, Pending, Grows, Valued, Knows, EmitTo, TRun, RunFunc, Leads, Matches, Between, Here, Holds;
    var TCall(callee, isVoid, args) := e.node;
    ArgsFacts(args, g, ids);
    var (g1, vs) := GenArgs(args, g);
    var h := GenExpr(e, g).0;
    var d := if isVoid then -1 else g1.next;
    var i := Call(d, callee, vs);
    CallInstOk(vs, if isVoid then g1.next else g1.next + 1, d, callee);
    if isVoid { EmitGrows(g1, i); } else { EmitToGrows(g1, i); }
    Earlier(c, g1, h);
    var xs := TArgs(c.fs, args, st, c.d, k).value;
    var s1 := ArgsSim(c, args, g, ids, s, st, k);
    ListedGlobals(c, g, g1, vs, s, s1, st, xs);
    ReadAllHolds(vs, s1, xs.vals);
    var r := TRun(c.fs, callee, xs.vals, xs.globals, c.d - 1, k).value;
    var k0 := FuncSim(c.fs, c.m, callee, xs.vals, xs.globals, c.d - 1, k);
    s' := State(Write(s1.regs, d, if isVoid then 0 else r.val.value), r.globals);
    CallRuns(c.m, i, s1, s', r, c.d, k0);
    var st1 := st.(globals := xs.globals);
    if isVoid {
      EmitLeads(c, g1, i, s1, s', k0);
      VoidCallState(c, g, g1, h, s, s1, s', st, xs, r);
    } else {
      EmitToValued(c, g1, i, s1, s', st1, r.val.value, k0);
      ListedThen(c, g, g1, h, vs, Reg(g1.next), s, s1, s', st, xs, r);
    }
  }

  lemma CallRuns(m: Module, i: Inst, s: State, s': State, r: Result, d: nat, k: nat)
    requires i.Call? && d > 0 && ReadAll(i.args, s.regs).Some?
    requires RunFunc(m, i.callee, ReadAll(i.args, s.regs).value, s.globals, d - 1, k) == Done(r)
    requires i.dst >= 0 ==> r.val.Some?
    requires s' == State(if i.dst >= 0 then s.regs[i.dst := r.val.value] else s.regs, r.globals)
    ensures ExecInst(m, i, s, d, k) == Done(s')
  {
  }

  lemma ListedGlobals(c: Ctx, g: Gen, h: Gen, vs: seq<Val>, s: State, s': State, st: Store, x: Values)
    requires Listed(c, g, h, vs, s, s', st, x)
    ensures s'.globals == x.globals && Holds(vs, s', x.vals) && Matches(c, s', st.(globals := x.globals))
  {
  }

  lemma ListedThen(c: Ctx, g: Gen, g1: Gen, h: Gen, vs: seq<Val>, v: Val, s: State, s1: State, s': State,
                   st: Store, xs: Values, x: Result)
    requires Listed(c, g, g1, vs, s, s1, st, xs) && g.next <= g1.next <= h.next
    requires Valued(c, g1, h, v, s1, s', st.(globals := xs.globals), x)
    ensures Valued(c, g, h, v, s, s', st, x)
  {
  }

  lemma VoidCallState(c: Ctx, g: Gen, g1: Gen, h: Gen, s: State, s1: State, s': State, st: Store, xs: Values, r: Result)
    requires exists vs :: Listed(c, g, g1, vs, s, s1, st, xs)
    requires Leads(c, Here(g1), s1, Here(h), s') && s' == State(s1.regs, r.globals) && h.next == g1.next
    ensures Valued(c, g, h, Imm(0), s, s', st, Result(None, r.globals))
  {
  }

  // ---- statements -------------------------------------------------------------------------------------

  /** Where a statement that began at p leaves control, and with what. */
  ghost predicate Arrived(c: Ctx, p: Pos, s: State, h: Gen, flow: Flow, st: Store, s': State) {
    match flow
    case Next => !h.isSealed && Leads(c, p, s, Here(h), s') && Matches(c, s', st)
    case Broke => h.loops != [] && Leads(c, p, s, Pos(h.loops[|h.loops| - 1].breakBB, 0), s') && Matches(c, s', st)
    case Continued => h.loops != [] && Leads(c, p, s, Pos(h.loops[|h.loops| - 1].continueBB, 0), s') && Matches(c, s', st)
    case Returned(v) => Comes(c, p, s, Result(v, st.globals))
  }

  lemma LeadsArrived(c: Ctx, p: Pos, s: State, p1: Pos, s1: State, h: Gen, flow: Flow, st: Store, s': State)
    requires Leads(c, p, s, p1, s1) && Arrived(c, p1, s1, h, flow, st, s')
    ensures Arrived(c, p, s, h, flow, st, s')
  {
  }

  /** An abnormal end does not depend on the code behind it. */
  lemma AbnormalArrived(c: Ctx, p: Pos, s: State, h: Gen, h': Gen, flow: Flow, st: Store, s': State)
    requires Arrived(c, p, s, h, flow, st, s') && !flow.Next? && h'.loops == h.loops
    ensures Arrived(c, p, s, h', flow, st, s')
  {
  }

  /** The premises of a simulation step for a statement. */
  ghost predicate Set(c: Ctx, g: Gen, ids: set<nat>, lo: nat, inLoop: bool) {
    Ok(g) && Knows(g, ids) && IdsBelow(g, lo) && (inLoop ==> g.loops != [])
  }

  lemma StmtFacts(q: TStmt, g: Gen, ids: set<nat>, lo: nat, inLoop: bool)
    requires Ok(g) && Knows(g, ids) && IdsBelow(g, lo) && StmtIn(q, ids, lo, inLoop) && (inLoop ==> g.loops != [])
    ensures var h := GenStmt(q, g);
            && Grows(g, h) && Ok(h) && IdsBelow(h, NextId(q, lo)) && Knows(h, Declared(q, ids)) && h.loops == g.loops
            && |g.blocks| <= |h.blocks| && Knows(h, ids)
  {
    hide GenStmt, Pending, Extends, BlockFine;
    GenStmtGrows(q, g, ids, lo, inLoop);
    NextGrows(g, GenStmt(q, g));
    GrownKnows(g, GenStmt(q, g), ids);
  }

  lemma ListFacts(qs: List<TStmt>, g: Gen, ids: set<nat>, lo: nat, inLoop: bool)
    requires Ok(g) && Knows(g, ids) && IdsBelow(g, lo) && ListIn(qs, ids, lo, inLoop) && (inLoop ==> g.loops != [])
    ensures Grows(g, GenList(qs, g)) && Ok(GenList(qs, g)) && GenList(qs, g).loops == g.loops
  {
    hide GenList, Pending, Extends, BlockFine;
    GenListGrows(qs, g, ids, lo, inLoop);
    NextGrows(g, GenList(qs, g));
  }

  lemma {:induction false} StmtSim(c: Ctx, q: TStmt, g: Gen, ids: set<nat>, lo: nat, inLoop: bool, s: State, st: Store, k: nat)
    returns (s': State)
    requires Ready(c, g, ids, s, st) && Set(c, g, ids, lo, inLoop) && StmtIn(q, ids, lo, inLoop)
    requires Extends(GenStmt(q, g), c.fin) && TExec(c.fs, q, st, c.d, k).Done?
    ensures var r := TExec(c.fs, q, st, c.d, k).value;
            Arrived(c, Here(g), s, GenStmt(q, g), r.flow, r.store, s')
    decreases c.d, k, 0, q, 4
  {
    match q
    case TBlock(qs) => s' := ListSim(c, qs, g, ids, lo, inLoop, s, st, k);
    case TEmpty => s' := s; LeadsSelf(c, Here(g), s);
    case TExprStmt(e) =>
      s' := ExprSim(c, e, g, ids, s, st, k);
      ExprFacts(e, g, ids);
    case TAssign(_, _) => s' := AssignSim(c, q, g, ids, lo, inLoop, s, st, k);
    case TVarDecl(_, _, _) => s' := DeclSim(c, q, g, ids, lo, inLoop, s, st, k);
    case TIf(_, _, _) => s' := IfSim(c, q, g, ids, lo, inLoop, s, st, k);
    case TWhile(_, _) => s' := WhileSim(c, q, g, ids, lo, inLoop, s, st, k);
    case TBreak => s' := ExitSim(c, q, g, ids, lo, inLoop, s, st, k);
    case TContinue => s' := ExitSim(c, q, g, ids, lo, inLoop, s, st, k);
    case TReturn(_) => s' := ReturnSim(c, q, g, ids, lo, inLoop, s, st, k);
  }

  lemma {:induction false} ListSim(c: Ctx, qs: List<TStmt>, g: Gen, ids: set<nat>, lo: nat, inLoop: bool, s: State, st: Store, k: nat)
    returns (s': State)
    requires Ready(c, g, ids, s, st) && Set(c, g, ids, lo, inLoop) && ListIn(qs, ids, lo, inLoop)
    requires Extends(GenList(qs, g), c.fin) && TExecList(c.fs, qs, st, c.d, k).Done?
    ensures var r := TExecList(c.fs, qs, st, c.d, k).value;
            Arrived(c, Here(g), s, GenList(qs, g), r.flow, r.store, s')
    decreases c.d, k, 0, qs, 4
  {
    hide Ok, FuncIn, Extends, Pending, Grows, GenStmt, TExec, Comes;
    match qs
    case Nil => s' := s;
    case Cons(q, rest) =>
      hide Leads, Matches, Here;
      StmtFacts(q, g, ids, lo, inLoop);
      var g1 := GenStmt(q, g);
      var h := GenList(rest, g1);
      ListFacts(rest, g1, Declared(q, ids), NextId(q, lo), inLoop);
      Earlier(c, g1, h);
      var s1 := StmtSim(c, q, g, ids, lo, inLoop, s, st, k);
      var r := TExec(c.fs, q, st, c.d, k).value;
      if r.flow.Next? {
        s' := ListSim(c, rest, g1, Declared(q, ids), NextId(q, lo), inLoop, s1, r.store, k);
        var r' := TExecList(c.fs, rest, r.store, c.d, k).value;
        LeadsArrived(c, Here(g), s, Here(g1), s1, h, r'.flow, r'.store, s');
      } else {
        s' := s1;
        AbnormalArrived(c, Here(g), s, g1, h, r.flow, r.store, s');
      }
  }

  /** A write to one local's register. */
  lemma LocalWritten(c: Ctx, s: State, st: Store, id: nat, v: nat, n: i32)
    requires Matches(c, s, st) && MapFine(c.fin.ir, c.fin.next) && id in c.fin.ir && c.fin.ir[id] == v
    ensures Matches(c, State(s.regs[v := n], s.globals), st.(locals := st.locals[id := n]))
  {
  }

  lemma {:induction false} AssignSim(c: Ctx, q: TStmt, g: Gen, ids: set<nat>, lo: nat, inLoop: bool, s: State, st: Store, k: nat)
    returns (s': State)
    requires Ready(c, g, ids, s, st) && Set(c, g, ids, lo, inLoop) && StmtIn(q, ids, lo, inLoop) && q.TAssign?
    requires Extends(GenStmt(q, g), c.fin) && TExec(c.fs, q, st, c.d, k).Done?
    ensures var r := TExec(c.fs, q, st, c.d, k).value;
            Arrived(c, Here(g), s, GenStmt(q, g), r.flow, r.store, s')
    decreases c.d, k, 0, q, 0
  {
    hide Ok, FuncIn, Extends, Pending, Grows, GenExpr, TEval, Comes, Emit, Here, Valued, Leads, Matches, MapFine;
    var e, sym := q.value, q.sym;
    ExprFacts(e, g, ids);
    var (g1, v) := GenExpr(e, g);
    var i := if sym.GlobalVar? then StoreGlobal(sym.gid, v) else Mv(VregOf(g1, sym.id), v);
    if sym.LocalVar? {
      KnownVreg(g1, sym.id);
      MoveOk(v, VregOf(g1, sym.id), g1.next);
    }
    EmitGrows(g1, i);
    Earlier(c, g1, Emit(g1, i));
    var x := TEval(c.fs, e, st, c.d, k).value;
    var s1 := ExprSim(c, e, g, ids, s, st, k);
    ValuedMatches(c, g, g1, v, s, s1, st, x);
    ValuedLeads(c, g, g1, v, s, s1, st, x);
    s' := ExecPlain(i, s1).value;
    if sym.LocalVar? {
      LocalVreg(c, g1, sym.id);
      LocalWritten(c, s1, st.(globals := x.globals), sym.id, VregOf(g1, sym.id), x.val.value);
    } else {
      GlobalWritten(c, s1, st.(globals := x.globals), sym.gid, x.val.value);
    }
    EmitLeads(c, g1, i, s1, s', k);
    LeadsTo(c, Here(g), s, Here(g1), s1, Here(Emit(g1, i)), s');
  }

  lemma GlobalWritten(c: Ctx, s: State, st: Store, gid: nat, n: i32)
    requires Matches(c, s, st) && gid < |st.globals|
    ensures s.globals == st.globals
    ensures Matches(c, State(s.regs, s.globals[gid := n]), st.(globals := st.globals[gid := n]))
  {
  }

  /** A known local's register is final. */
  lemma LocalVreg(c: Ctx, g: Gen, id: nat)
    requires CtxOk(c) && Extends(g, c.fin) && id in g.ir
    ensures MapFine(c.fin.ir, c.fin.next) && id in c.fin.ir && c.fin.ir[id] == VregOf(g, id)
  {
  }

  lemma {:induction false} DeclSim(c: Ctx, q: TStmt, g: Gen, ids: set<nat>, lo: nat, inLoop: bool, s: State, st: Store, k: nat)
    returns (s': State)
    requires Ready(c, g, ids, s, st) && Set(c, g, ids, lo, inLoop) && StmtIn(q, ids, lo, inLoop) && q.TVarDecl?
    requires Extends(GenStmt(q, g), c.fin) && TExec(c.fs, q, st, c.d, k).Done?
    ensures var r := TExec(c.fs, q, st, c.d, k).value;
            Arrived(c, Here(g), s, GenStmt(q, g), r.flow, r.store, s')
    decreases c.d, k, 0, q, 0
  {
    hide Ok, FuncIn, Extends, Pending, Grows, GenExpr, TEval, Comes, Emit, Valued, Leads, Matches, MapFine;
    if q.isConst {
      s' := s;
      LeadsSelf(c, Here(g), s);
    } else {
      var e, id := q.init, q.id;
      BindGrows(g, id);
      var g0 := Bind(g, id);
      ExprFacts(e, g0, ids);
      var (g1, v) := GenExpr(e, g0);
      var i := Mv(g.next, v);
      MoveOk(v, g.next, g1.next);
      EmitGrows(g1, i);
      Earlier(c, g1, Emit(g1, i));
      var x := TEval(c.fs, e, st, c.d, k).value;
      assert Here(g0) == Here(g);
      hide Here;
      var s1 := ExprSim(c, e, g0, ids, s, st, k);
      ValuedMatches(c, g0, g1, v, s, s1, st, x);
      ValuedLeads(c, g0, g1, v, s, s1, st, x);
      s' := ExecPlain(i, s1).value;
      LocalVreg(c, g1, id);
      LocalWritten(c, s1, st.(globals := x.globals), id, g.next, x.val.value);
      EmitLeads(c, g1, i, s1, s', k);
      LeadsTo(c, Here(g), s, Here(g1), s1, Here(Emit(g1, i)), s');
    }
  }

  lemma ExitSim(c: Ctx, q: TStmt, g: Gen, ids: set<nat>, lo: nat, inLoop: bool, s: State, st: Store, k: nat)
    returns (s': State)
    requires Ready(c, g, ids, s, st) && Set(c, g, ids, lo, inLoop) && StmtIn(q, ids, lo, inLoop) && (q.TBreak? || q.TContinue?)
    requires Extends(GenStmt(q, g), c.fin) && TExec(c.fs, q, st, c.d, k).Done?
    ensures var r := TExec(c.fs, q, st, c.d, k).value;
            Arrived(c, Here(g), s, GenStmt(q, g), r.flow, r.store, s')
  {
    hide FuncIn, Extends, Pending, Comes, Leads, Matches, Here;
    s' := s;
    var l := g.loops[|g.loops| - 1];
    FinishLeads(c, g, Jmp(if q.TBreak? then l.breakBB else l.continueBB), s);
    FinishLoops(g, Jmp(if q.TBreak? then l.breakBB else l.continueBB));
  }

  lemma FinishLoops(g: Gen, t: Term)
    ensures Finish(g, t).loops == g.loops
  {
  }

  lemma {:induction false} ReturnSim(c: Ctx, q: TStmt, g: Gen, ids: set<nat>, lo: nat, inLoop: bool, s: State, st: Store, k: nat)
    returns (s': State)
    requires Ready(c, g, ids, s, st) && Set(c, g, ids, lo, inLoop) && StmtIn(q, ids, lo, inLoop) && q.TReturn?
    requires Extends(GenStmt(q, g), c.fin) && TExec(c.fs, q, st, c.d, k).Done?
    ensures var r := TExec(c.fs, q, st, c.d, k).value;
            Arrived(c, Here(g), s, GenStmt(q, g), r.flow, r.store, s')
    decreases c.d, k, 0, q, 0
  {
    hide Ok, FuncIn, Extends, Pending, Grows, GenExpr, TEval, Comes, Finish, Here, Valued, Leads;
    if q.result.None? {
      s' := s;
      FinishRet(c, g, None, s);
    } else {
      var e := q.result.value;
      ExprFacts(e, g, ids);
      var (g1, v) := GenExpr(e, g);
      RetGrows(g1, Some(v));
      Earlier(c, g1, Finish(g1, Ret(Some(v))));
      var x := TEval(c.fs, e, st, c.d, k).value;
      s' := ExprSim(c, e, g, ids, s, st, k);
      ValuedMatches(c, g, g1, v, s, s', st, x);
      ValuedLeads(c, g, g1, v, s, s', st, x);
      FinishRet(c, g1, Some(v), s');
      ComesFrom(c, Here(g), s, Here(g1), s', Result(x.val, x.globals));
    }
  }

  lemma ComesFrom(c: Ctx, p: Pos, s: State, p1: Pos, s1: State, r: Result)
    requires Leads(c, p, s, p1, s1) && Comes(c, p1, s1, r)
    ensures Comes(c, p, s, r)
  {
  }

  /** A `return` at the current position. */
  lemma FinishRet(c: Ctx, g: Gen, v: Option<Val>, s: State)
    requires CtxOk(c) && Ok(g) && !g.isSealed && Extends(Finish(g, Ret(v)), c.fin)
    requires v.Some? ==> Read(v.value, s.regs).Some?
    ensures Comes(c, Here(g), s, Result(if v.Some? then Read(v.value, s.regs) else None, s.globals))
  {
    hide Ok, FuncIn, Extends, Comes, Finish;
    FinishedAt(c, g, Ret(v));
    RetComes(c, Here(g), s);
  }

  // ---- branches and loops -------------------------------------------------------------------------------

  /** A waiting block that is about to be filled with a statement and a jump to x. */
  ghost predicate ArmReady(c: Ctx, g: Gen, id: nat, x: nat, q: TStmt, ids: set<nat>, lo: nat, inLoop: bool) {
    && CtxOk(c) && Set(c, g, ids, lo, inLoop) && StmtIn(q, ids, lo, inLoop)
    && g.isSealed && id in Pending(g) && id < |g.blocks| && g.blocks[id] == Block([], Open) && 0 < x < |g.blocks|
    && Extends(Finish(GenStmt(q, StartBlock(g, id)), Jmp(x)), c.fin)
  }

  /** Control has run through the block, from its start. */
  ghost predicate ArmDone(c: Ctx, id: nat, x: nat, h: Gen, s: State, flow: Flow, st: Store, s': State) {
    if flow.Next? then Leads(c, Pos(id, 0), s, Pos(x, 0), s') && Matches(c, s', st)
    else Arrived(c, Pos(id, 0), s, h, flow, st, s')
  }

  lemma ArmStart(c: Ctx, g: Gen, id: nat, x: nat, q: TStmt, ids: set<nat>, lo: nat, inLoop: bool, s: State, st: Store)
    requires ArmReady(c, g, id, x, q, ids, lo, inLoop) && Matches(c, s, st)
    ensures var a := StartBlock(g, id);
            && Ready(c, a, ids, s, st) && Set(c, a, ids, lo, inLoop) && Here(a) == Pos(id, 0)
            && Grows(a, GenStmt(q, a)) && Ok(GenStmt(q, a)) && GenStmt(q, a).loops == g.loops
            && Grows(GenStmt(q, a), Finish(GenStmt(q, a), Jmp(x)))
            && Extends(GenStmt(q, a), c.fin)
  {
    hide FuncIn, Extends, GenStmt, Finish, Pending, BlockFine, Matches;
    StartVia(g, id, {});
    var a := StartBlock(g, id);
    StmtFacts(q, a, ids, lo, inLoop);
    var h := GenStmt(q, a);
    JmpGrows(h, x);
    Earlier(c, h, Finish(h, Jmp(x)));
  }

  lemma {:induction false} BodySim(c: Ctx, q: TStmt, g: Gen, id: nat, x: nat, ids: set<nat>, lo: nat, inLoop: bool,
                                   s: State, st: Store, k: nat) returns (s': State)
    requires ArmReady(c, g, id, x, q, ids, lo, inLoop) && Matches(c, s, st) && TExec(c.fs, q, st, c.d, k).Done?
    ensures var r := TExec(c.fs, q, st, c.d, k).value;
            ArmDone(c, id, x, GenStmt(q, StartBlock(g, id)), s, r.flow, r.store, s')
    ensures GenStmt(q, StartBlock(g, id)).loops == g.loops
    decreases c.d, k, 0, q, 5
  {
    ArmStart(c, g, id, x, q, ids, lo, inLoop, s, st);
    assert StmtIn(q, ids, lo, inLoop) && CtxOk(c) && Extends(Finish(GenStmt(q, StartBlock(g, id)), Jmp(x)), c.fin);
    hide ArmReady, Ready, Set, Ok, FuncIn, Extends, Pending, Grows, GenStmt, StmtIn, TExec, Comes, Leads, Matches, Here, Finish, CtxOk;
    var a := StartBlock(g, id);
    s' := StmtSim(c, q, a, ids, lo, inLoop, s, st, k);
    var h := GenStmt(q, a);
    if TExec(c.fs, q, st, c.d, k).value.flow.Next? {
      FinishLeads(c, h, Jmp(x), s');
      LeadsTo(c, Pos(id, 0), s, Here(h), s', Pos(x, 0), s');
    }
  }

  lemma ArmArrived(c: Ctx, p: Pos, s0: State, id: nat, x: nat, hb: Gen, s: State, flow: Flow, st: Store, s': State, h: Gen)
    requires Leads(c, p, s0, Pos(id, 0), s) && ArmDone(c, id, x, hb, s, flow, st, s')
    requires !h.isSealed && Here(h) == Pos(x, 0) && h.loops == hb.loops
    ensures Arrived(c, p, s0, h, flow, st, s')
  {
  }

  function If0(q: TStmt, g: Gen): Gen
    requires q.TIf?
  {
    if q.else_.Some? then NewBlocks3(g) else NewBlock(NewBlock(g))
  }

  function IfElseTarget(q: TStmt, g: Gen): nat
    requires q.TIf?
  {
    |g.blocks| + if q.else_.Some? then 2 else 1
  }

  /** The blocks an `if` creates. */
  function IfIds(q: TStmt, g: Gen): set<nat>
    requires q.TIf?
  {
    var n := |g.blocks|;
    if q.else_.Some? then {n, n + 1, n + 2} else {n, n + 1}
  }

  /** The generator behind the condition, behind the first branch, and behind both. */
  function If1(q: TStmt, g: Gen): Gen
    requires q.TIf?
  {
    GenCond(q.cond, If0(q, g), |g.blocks|, IfElseTarget(q, g))
  }

  function If2(q: TStmt, g: Gen): Gen
    requires q.TIf?
  {
    Finish(GenStmt(q.then_, StartBlock(If1(q, g), |g.blocks|)), Jmp(|g.blocks| + 1))
  }

  function If3(q: TStmt, g: Gen): Gen
    requires q.TIf?
  {
    if q.else_.Some? then Finish(GenStmt(q.else_.value, StartBlock(If2(q, g), |g.blocks| + 2)), Jmp(|g.blocks| + 1))
    else If2(q, g)
  }

  lemma IfIs(q: TStmt, g: Gen)
    requires q.TIf? && q.cond.mark.None?
    ensures GenStmt(q, g) == StartBlock(If3(q, g), |g.blocks| + 1)
  {
  }

  lemma If0Ready(c: Ctx, q: TStmt, g: Gen, ids: set<nat>, s: State, st: Store)
    requires Ready(c, g, ids, s, st) && q.TIf?
    ensures var h, n := If0(q, g), |g.blocks|;
            && Ready(c, h, ids, s, st) && Here(h) == Here(g) && h.next == g.next && h.loops == g.loops && h.ir == g.ir
            && 0 < n && |h.blocks| == IfElseTarget(q, g) + 1 && Pending(h) == Pending(g) + IfIds(q, g)
            && (forall b | n <= b < |h.blocks| :: h.blocks[b] == Block([], Open)) && Pending(g) !! IfIds(q, g)
  {
    NewBlockReady(c, g, ids, s, st);
    NewBlockReady(c, NewBlock(g), ids, s, st);
    if q.else_.Some? { NewBlockReady(c, NewBlock(NewBlock(g)), ids, s, st); }
    hide FuncIn, Ready, Matches, Knows, CtxOk, Here, Ok;
    NewBlocksPending(g);
  }

  lemma NewBlocksPending(g: Gen)
    requires !g.isSealed ==> g.cur < |g.blocks|
    ensures Pending(NewBlock(NewBlock(g))) == Pending(g) + {|g.blocks|, |g.blocks| + 1}
    ensures Pending(NewBlocks3(g)) == Pending(g) + {|g.blocks|, |g.blocks| + 1, |g.blocks| + 2}
    ensures Pending(g) !! {|g.blocks|, |g.blocks| + 1, |g.blocks| + 2}
  {
  }

  lemma If1Facts(c: Ctx, q: TStmt, g: Gen, ids: set<nat>, lo: nat, inLoop: bool, s: State, st: Store)
    requires Ready(c, g, ids, s, st) && Set(c, g, ids, lo, inLoop) && StmtIn(q, ids, lo, inLoop) && q.TIf? && q.cond.mark.None?
    ensures var g1, n := If1(q, g), |g.blocks|;
            && Set(c, g1, ids, lo, inLoop) && g1.isSealed && IfElseTarget(q, g) < |g1.blocks| && g1.loops == g.loops
            && n > 0 && Pending(g1) == Pending(g) + IfIds(q, g) && Grows(If0(q, g), g1)
            && (forall b | n <= b <= IfElseTarget(q, g) :: g1.blocks[b] == Block([], Open))
            && Pending(g) !! IfIds(q, g)
  {
    hide Ok, FuncIn, Extends, Pending, GenCond, If0, Matches, Here, StmtIn;
    If0Ready(c, q, g, ids, s, st);
    IfParts(q, ids, lo, inLoop);
    var g0 := If0(q, g);
    CondFacts(q.cond, g0, ids, |g.blocks|, IfElseTarget(q, g));
    forall b | |g.blocks| <= b <= IfElseTarget(q, g) ensures If1(q, g).blocks[b] == Block([], Open) {
      assert b in IfIds(q, g);
      assert b in Pending(g0) && g0.blocks[b] == Block([], Open);
      WaitingKept(g0, If1(q, g), b);
    }
  }

  lemma WaitingKept(g: Gen, h: Gen, b: nat)
    requires Grows(g, h) && b in Pending(g)
    ensures b < |g.blocks| && b < |h.blocks| && h.blocks[b] == g.blocks[b]
  {
  }

  lemma IfParts(q: TStmt, ids: set<nat>, lo: nat, inLoop: bool)
    requires q.TIf? && StmtIn(q, ids, lo, inLoop) && q.cond.mark.None?
    ensures ExprIn(q.cond, ids) && StmtIn(q.then_, ids, lo, inLoop)
    ensures q.else_.Some? ==> StmtIn(q.else_.value, Declared(q.then_, ids), NextId(q.then_, lo), inLoop)
  {
  }

  /** Only the branch that a constant condition chooses is lowered. */
  lemma StaticIfParts(q: TStmt, ids: set<nat>, lo: nat, inLoop: bool)
    requires q.TIf? && StmtIn(q, ids, lo, inLoop) && q.cond.mark.Some?
    ensures q.cond.mark.value != 0 ==> StmtIn(q.then_, ids, lo, inLoop)
    ensures q.cond.mark.value == 0 && q.else_.Some? ==> StmtIn(q.else_.value, ids, NextId(q.then_, lo), inLoop)
  {
  }

  /** All stages of an `if` are consistent and before the finished graph. */
  lemma IfFacts(c: Ctx, q: TStmt, g: Gen, ids: set<nat>, lo: nat, inLoop: bool, s: State, st: Store)
    requires Ready(c, g, ids, s, st) && Set(c, g, ids, lo, inLoop) && StmtIn(q, ids, lo, inLoop) && q.TIf? && q.cond.mark.None?
    requires Extends(GenStmt(q, g), c.fin)
    ensures var n, h := |g.blocks|, GenStmt(q, g);
            && ArmReady(c, If1(q, g), n, n + 1, q.then_, ids, lo, inLoop) && If1(q, g).loops == g.loops
            && (q.else_.Some? ==> ArmReady(c, If2(q, g), n + 2, n + 1, q.else_.value, Declared(q.then_, ids), NextId(q.then_, lo), inLoop)
                                  && If2(q, g).loops == g.loops)
            && Extends(If1(q, g), c.fin) && !h.isSealed && Here(h) == Pos(n + 1, 0) && h.loops == g.loops
  {
    var n, P := |g.blocks|, Pending(g);
    If1Facts(c, q, g, ids, lo, inLoop, s, st);
    IfParts(q, ids, lo, inLoop);
    IfIs(q, g);
    hide Ok, FuncIn, Extends, Pending, GenCond, If0, If1, Matches, Finish, GenStmt, StmtIn, BlockFine;
    var g1, g2, g3 := If1(q, g), If2(q, g), If3(q, g);
    BodyGrows(q.then_, g1, n, n + 1, Pending(g1) - {n}, ids, lo, inLoop);
    if q.else_.Some? {
      IfTwoArms(c, q, g, ids, lo, inLoop);
    } else {
      LastArm(c, g2, n + 1);
    }
    ExtendsTrans(g1, g2, c.fin);
  }

  /** The block behind a branch, started. */
  lemma LastArm(c: Ctx, g: Gen, id: nat)
    requires Ok(g) && g.isSealed && id in Pending(g) && id < |g.blocks| && g.blocks[id] == Block([], Open)
    requires Extends(StartBlock(g, id), c.fin)
    ensures Extends(g, c.fin) && Here(StartBlock(g, id)) == Pos(id, 0) && !StartBlock(g, id).isSealed
  {
  }

  lemma IfTwoArms(c: Ctx, q: TStmt, g: Gen, ids: set<nat>, lo: nat, inLoop: bool)
    requires CtxOk(c) && q.TIf? && q.else_.Some? && StmtIn(q.else_.value, Declared(q.then_, ids), NextId(q.then_, lo), inLoop)
    requires var n, g1, g2 := |g.blocks|, If1(q, g), If2(q, g);
             && n > 0 && Set(c, g1, ids, lo, inLoop) && n + 2 < |g1.blocks| <= |g2.blocks|
             && n + 1 in Pending(g1) && n + 2 in Pending(g1) && g1.blocks[n + 1] == Block([], Open) == g1.blocks[n + 2]
             && Via(g1, g2, Pending(g1) - {n}) && Pending(g2) == Pending(g1) - {n} && g2.loops == g1.loops && g2.isSealed
             && IdsBelow(g2, NextId(q.then_, lo)) && Knows(g2, Declared(q.then_, ids))
    requires Extends(StartBlock(If3(q, g), |g.blocks| + 1), c.fin)
    ensures var n, g2, h := |g.blocks|, If2(q, g), StartBlock(If3(q, g), |g.blocks| + 1);
            && ArmReady(c, g2, n + 2, n + 1, q.else_.value, Declared(q.then_, ids), NextId(q.then_, lo), inLoop) && Extends(g2, c.fin)
            && !h.isSealed && Here(h) == Pos(n + 1, 0) && h.loops == g2.loops
  {
    hide Ok, FuncIn, Extends, Pending, GenCond, If1, If2, Finish, GenStmt, BlockFine, StmtIn;
    var n, g1, g2, g3 := |g.blocks|, If1(q, g), If2(q, g), If3(q, g);
    BodyGrows(q.else_.value, g2, n + 2, n + 1, Pending(g2) - {n + 2}, Declared(q.then_, ids), NextId(q.then_, lo), inLoop);
    LastArm(c, g3, n + 1);
    ExtendsTrans(g2, g3, c.fin);
  }

  lemma {:induction false} IfSim(c: Ctx, q: TStmt, g: Gen, ids: set<nat>, lo: nat, inLoop: bool, s: State, st: Store, k: nat)
    returns (s': State)
    requires Ready(c, g, ids, s, st) && Set(c, g, ids, lo, inLoop) && StmtIn(q, ids, lo, inLoop) && q.TIf?
    requires Extends(GenStmt(q, g), c.fin) && TExec(c.fs, q, st, c.d, k).Done?
    ensures var r := TExec(c.fs, q, st, c.d, k).value;
            Arrived(c, Here(g), s, GenStmt(q, g), r.flow, r.store, s')
    decreases c.d, k, 0, q, 3
  {
    if q.cond.mark.Some? {
      s' := StaticIfSim(c, q, g, ids, lo, inLoop, s, st, k);
    } else {
      IfFacts(c, q, g, ids, lo, inLoop, s, st);
      If0Ready(c, q, g, ids, s, st);
      IfParts(q, ids, lo, inLoop);
      hide Ok, FuncIn, Extends, Pending, GenCond, GenStmt, If0, If2, StmtIn, Matches, Here, Leads, Comes, TEval, ArmReady, ArmDone, Set, Arrived;
      var g0, n := If0(q, g), |g.blocks|;
      var x := TEval(c.fs, q.cond, st, c.d, k).value;
      var s1 := CondSim(c, q.cond, g0, ids, n, IfElseTarget(q, g), s, st, k);
      var st1 := st.(globals := x.globals);
      var r := TExec(c.fs, q, st, c.d, k).value;
      var h := GenStmt(q, g);
      if x.val.value != 0 {
        s' := BodySim(c, q.then_, If1(q, g), n, n + 1, ids, lo, inLoop, s1, st1, k);
        ArmArrived(c, Here(g), s, n, n + 1, GenStmt(q.then_, StartBlock(If1(q, g), n)), s1, r.flow, r.store, s', h);
      } else if q.else_.Some? {
        s' := BodySim(c, q.else_.value, If2(q, g), n + 2, n + 1, Declared(q.then_, ids), NextId(q.then_, lo), inLoop, s1, st1, k);
        ArmArrived(c, Here(g), s, n + 2, n + 1, GenStmt(q.else_.value, StartBlock(If2(q, g), n + 2)), s1, r.flow, r.store, s', h);
      } else {
        s' := s1;
        NextArrived(c, Here(g), s, h, st1, s1);
      }
    }
  }

  lemma NextArrived(c: Ctx, p: Pos, s: State, h: Gen, st: Store, s': State)
    requires !h.isSealed && Leads(c, p, s, Here(h), s') && Matches(c, s', st)
    ensures Arrived(c, p, s, h, Next, st, s')
  {
  }

  /** An `if` with a constant condition is one of its branches. */
  lemma {:induction false} StaticIfSim(c: Ctx, q: TStmt, g: Gen, ids: set<nat>, lo: nat, inLoop: bool, s: State, st: Store, k: nat)
    returns (s': State)
    requires Ready(c, g, ids, s, st) && Set(c, g, ids, lo, inLoop) && StmtIn(q, ids, lo, inLoop) && q.TIf? && q.cond.mark.Some?
    requires Extends(GenStmt(q, g), c.fin) && TExec(c.fs, q, st, c.d, k).Done?
    ensures var r := TExec(c.fs, q, st, c.d, k).value;
            Arrived(c, Here(g), s, GenStmt(q, g), r.flow, r.store, s')
    decreases c.d, k, 0, q, 2
  {
    StaticIfParts(q, ids, lo, inLoop);
    hide Ok, FuncIn, Extends, Pending, StmtIn, Matches, Leads, Comes, Arrived;
    assert st.(globals := st.globals) == st;
    if q.cond.mark.value != 0 {
      s' := StmtSim(c, q.then_, g, ids, lo, inLoop, s, st, k);
    } else if q.else_.Some? {
      IdsMore(g, lo, NextId(q.then_, lo));
      s' := StmtSim(c, q.else_.value, g, ids, NextId(q.then_, lo), inLoop, s, st, k);
    } else {
      s' := s;
      LeadsSelf(c, Here(g), s);
      NextArrived(c, Here(g), s, g, st, s);
    }
  }

  /** All stages of a loop are consistent and before the finished graph. */
  ghost predicate LoopSet(c: Ctx, q: TStmt, g: Gen, ids: set<nat>, lo: nat)
    requires q.TWhile?
  {
    var n, gc, h := |g.blocks|, StartBlock(AfterBody(q, g), |g.blocks| + 1), GenStmt(q, g);
    && ArmReady(c, LoopEntry(g), n, n + 1, q.body, ids, lo, true)
    && LoopEntry(g).loops == g.loops + [Loop(n + 1, n + 2)]
    && CtxOk(c) && Ok(gc) && !gc.isSealed && Knows(gc, ids) && ExprIn(q.cond, ids) && Here(gc) == Pos(n + 1, 0)
    && 0 < n && n + 2 < |gc.blocks| && Extends(GenCond(q.cond, gc, n, n + 2), c.fin)
    && !h.isSealed && Here(h) == Pos(n + 2, 0) && h.loops == g.loops
  }

  lemma LoopFacts(c: Ctx, q: TStmt, g: Gen, ids: set<nat>, lo: nat, inLoop: bool)
    requires CtxOk(c) && Set(c, g, ids, lo, inLoop) && StmtIn(q, ids, lo, inLoop) && q.TWhile? && Extends(GenStmt(q, g), c.fin)
    ensures LoopSet(c, q, g, ids, lo)
    ensures Extends(Finish(NewBlocks3(g), Jmp(|g.blocks| + 1)), c.fin)
  {
    hide Ok, FuncIn, Extends, Pending, GenCond, GenStmt, Finish, StmtIn, BlockFine, LoopEntry, AfterBody, Matches;
    LoopParts(q, ids, lo, inLoop);
    LoopBodyVia(q, g, ids, lo);
    LoopIs(q, g);
    OkNonempty(g);
    LoopBodyKeeps(q, g, ids, lo);
    LoopTest(c, q, g, AfterBody(q, g), ids);
    BodyEarlier(c, q, g);
    ExtendsTrans(LoopEntry(g), AfterBody(q, g), c.fin);
    EntryEarlier(c, g);
    LoopArm(c, q, g, ids, lo);
  }

  /** The condition of a loop, between its body and the block behind it. */
  lemma LoopTest(c: Ctx, q: TStmt, g: Gen, g2: Gen, ids: set<nat>)
    requires q.TWhile? && Ok(g2) && g2.isSealed && 0 < |g.blocks| && |g.blocks| + 3 <= |g2.blocks|
    requires Pending(g2) == Pending(g) + {|g.blocks| + 1, |g.blocks| + 2} && g2.loops == g.loops
    requires Knows(g2, ids) && ExprIn(q.cond, ids)
    requires g2.blocks[|g.blocks| + 1] == Block([], Open) == g2.blocks[|g.blocks| + 2]
    requires var n := |g.blocks|; Extends(StartBlock(GenCond(q.cond, StartBlock(g2, n + 1), n, n + 2), n + 2), c.fin)
    ensures var n := |g.blocks|;
            var gc := StartBlock(g2, n + 1);
            var h := StartBlock(GenCond(q.cond, gc, n, n + 2), n + 2);
            && Ok(gc) && !gc.isSealed && Knows(gc, ids) && Here(gc) == Pos(n + 1, 0)
            && n + 2 < |gc.blocks| && Extends(GenCond(q.cond, gc, n, n + 2), c.fin)
            && !h.isSealed && Here(h) == Pos(n + 2, 0) && h.loops == g.loops && Extends(g2, c.fin)
  {
    hide Ok, Extends, Pending, GenCond, BlockFine;
    var n := |g.blocks|;
    StartVia(g2, n + 1, {n + 2});
    var gc := StartBlock(g2, n + 1);
    ViaBlocks(g2, gc, {n + 2});
    CondFacts(q.cond, gc, ids, n, n + 2);
    var g4 := GenCond(q.cond, gc, n, n + 2);
    WaitingKept(gc, g4, n + 2);
    LastArm(c, g4, n + 2);
    Earlier(c, gc, g4);
    StartedEarlier(c, g2, n + 1);
  }

  lemma LoopArm(c: Ctx, q: TStmt, g: Gen, ids: set<nat>, lo: nat)
    requires CtxOk(c) && Ok(g) && Knows(g, ids) && IdsBelow(g, lo) && q.TWhile? && StmtIn(q.body, ids, lo, true)
    requires Extends(Finish(GenStmt(q.body, StartBlock(LoopEntry(g), |g.blocks|)), Jmp(|g.blocks| + 1)), c.fin)
    ensures ArmReady(c, LoopEntry(g), |g.blocks|, |g.blocks| + 1, q.body, ids, lo, true)
    ensures LoopEntry(g).loops == g.loops + [Loop(|g.blocks| + 1, |g.blocks| + 2)] && |g.blocks| > 0
  {
    hide Ok, FuncIn, Extends, Pending, GenStmt, Finish, StmtIn, BlockFine, LoopEntry;
    LoopEntryBlocks(g);
    KnowsVia(g, LoopEntry(g), Pending(g), ids);
  }

  lemma LoopParts(q: TStmt, ids: set<nat>, lo: nat, inLoop: bool)
    requires q.TWhile? && StmtIn(q, ids, lo, inLoop)
    ensures ExprIn(q.cond, ids) && StmtIn(q.body, ids, lo, true)
  {
  }

  lemma BodyEarlier(c: Ctx, q: TStmt, g: Gen)
    requires q.TWhile? && Extends(AfterBody(q, g), c.fin)
    ensures Extends(Finish(GenStmt(q.body, StartBlock(LoopEntry(g), |g.blocks|)), Jmp(|g.blocks| + 1)), c.fin)
  {
  }

  lemma EntryEarlier(c: Ctx, g: Gen)
    requires Extends(LoopEntry(g), c.fin)
    ensures Extends(Finish(NewBlocks3(g), Jmp(|g.blocks| + 1)), c.fin)
  {
  }

  /** The loop's three blocks are empty when its body begins. */
  lemma LoopEntryBlocks(g: Gen)
    requires Ok(g)
    ensures var h, n := LoopEntry(g), |g.blocks|;
            && n > 0 && Via(g, h, Pending(g)) && Pending(h) == Pending(g) + {n, n + 1, n + 2} && h.isSealed && Ok(h)
            && h.loops == g.loops + [Loop(n + 1, n + 2)] && n + 3 <= |h.blocks| && h.ir == g.ir && h.next == g.next
            && Pending(g) !! {n, n + 1, n + 2}
            && (forall b | n <= b < n + 3 :: h.blocks[b] == Block([], Open))
  {
    hide BlockFine, Extends, Ok;
    LoopEntryVia(g);
    NewBlocks3Via(g);
    OkNonempty(g);
    JmpGrows(NewBlocks3(g), |g.blocks| + 1);
    forall b | |g.blocks| <= b < |g.blocks| + 3 ensures LoopEntry(g).blocks[b] == Block([], Open) {
      assert b in Pending(NewBlocks3(g));
    }
  }

  /** The body of a loop leaves the other two blocks empty. */
  lemma LoopBodyKeeps(q: TStmt, g: Gen, ids: set<nat>, lo: nat)
    requires Ok(g) && Knows(g, ids) && IdsBelow(g, lo) && q.TWhile? && StmtIn(q.body, ids, lo, true)
    ensures var n, h := |g.blocks|, AfterBody(q, g);
            && Extends(LoopEntry(g), h) && n + 2 < |h.blocks| && h.blocks[n + 1] == Block([], Open) == h.blocks[n + 2]
  {
    var n, P := |g.blocks|, Pending(g);
    var g1 := LoopEntry(g);
    LoopEntryBlocks(g);
    hide Ok, Pending, Extends, Finish, BlockFine, LoopEntry, GenStmt;
    KnowsVia(g, g1, P, ids);
    BodyGrows(q.body, g1, n, n + 1, P + {n + 1, n + 2}, ids, lo, true);
    var r := Finish(GenStmt(q.body, StartBlock(g1, n)), Jmp(n + 1));
    PopVia(g, r, n);
    ExtendsTrans(g1, r, PopLoop(r));
  }

  lemma {:induction false} WhileSim(c: Ctx, q: TStmt, g: Gen, ids: set<nat>, lo: nat, inLoop: bool, s: State, st: Store, k: nat)
    returns (s': State)
    requires Ready(c, g, ids, s, st) && Set(c, g, ids, lo, inLoop) && StmtIn(q, ids, lo, inLoop) && q.TWhile?
    requires Extends(GenStmt(q, g), c.fin) && TExec(c.fs, q, st, c.d, k).Done?
    ensures var r := TExec(c.fs, q, st, c.d, k).value;
            Arrived(c, Here(g), s, GenStmt(q, g), r.flow, r.store, s')
    decreases c.d, k, 0, q, 3
  {
    var n := |g.blocks|;
    LoopFacts(c, q, g, ids, lo, inLoop);
    NewBlockReady(c, g, ids, s, st);
    NewBlockReady(c, NewBlock(g), ids, s, st);
    NewBlockReady(c, NewBlock(NewBlock(g)), ids, s, st);
    hide Ok, FuncIn, Extends, Pending, GenCond, GenStmt, StmtIn, Matches, Leads, Comes, Finish, NewBlock, TExec;
    FinishLeads(c, NewBlocks3(g), Jmp(n + 1), s);
    s' := LoopSim(c, q, g, ids, lo, s, st, k);
    var r := TExec(c.fs, q, st, c.d, k).value;
    LeadsArrived(c, Here(g), s, Pos(n + 1, 0), s, GenStmt(q, g), r.flow, r.store, s');
  }

  /** The loop from its condition on. */
  lemma {:induction false} LoopSim(c: Ctx, q: TStmt, g: Gen, ids: set<nat>, lo: nat, s: State, st: Store, k: nat) returns (s': State)
    requires q.TWhile? && LoopSet(c, q, g, ids, lo) && Matches(c, s, st) && TExec(c.fs, q, st, c.d, k).Done?
    ensures var r := TExec(c.fs, q, st, c.d, k).value;
            && (r.flow.Next? || r.flow.Returned?)
            && Arrived(c, Pos(|g.blocks| + 1, 0), s, GenStmt(q, g), r.flow, r.store, s')
    decreases c.d, k, 0, q, 0
  {
    hide Ok, FuncIn, Extends, Pending, GenCond, GenStmt, StmtIn, Matches, Here, Leads, Comes, TEval, ArmReady, AfterBody, LoopEntry;
    var n, gc, h := |g.blocks|, StartBlock(AfterBody(q, g), |g.blocks| + 1), GenStmt(q, g);
    var x := TEval(c.fs, q.cond, st, c.d, k).value;
    var s1 := CondSim(c, q.cond, gc, ids, n, n + 2, s, st, k);
    var st1 := st.(globals := x.globals);
    if x.val.value == 0 {
      s' := s1;
    } else {
      var s2 := BodySim(c, q.body, LoopEntry(g), n, n + 1, ids, lo, true, s1, st1, k);
      var a := TExec(c.fs, q.body, st1, c.d, k).value;
      var hb := GenStmt(q.body, StartBlock(LoopEntry(g), n));
      match a.flow
      case Broke =>
        s' := s2;
        LeadsTo(c, Pos(n + 1, 0), s, Pos(n, 0), s1, Pos(n + 2, 0), s2);
      case Returned(v) =>
        s' := s2;
        ComesFrom(c, Pos(n + 1, 0), s, Pos(n, 0), s1, Result(v, a.store.globals));
      case _ =>
        LeadsTo(c, Pos(n + 1, 0), s, Pos(n, 0), s1, Pos(n + 1, 0), s2);
        s' := LoopSim(c, q, g, ids, lo, s2, a.store, k - 1);
        var r := TExec(c.fs, q, a.store, c.d, k - 1).value;
        LeadsArrived(c, Pos(n + 1, 0), s, Pos(n + 1, 0), s2, h, r.flow, r.store, s');
    }
  }

  // ---- functions ------------------------------------------------------------------------------------------

  lemma {:induction false} FindLowered(fs: seq<TFunc>, name: string)
    ensures FindTyped(fs, name).None? ==> FindFunc(GenFuncs(fs), name).None?
    ensures FindTyped(fs, name).Some? ==> FindFunc(GenFuncs(fs), name) == Some(GenFunc(FindTyped(fs, name).value))
                                          && FindTyped(fs, name).value in fs
  {
    hide GenFunc;
    if fs != [] {
      NameKept(fs[0]);
      FindLowered(fs[1..], name);
      assert ([GenFunc(fs[0])] + GenFuncs(fs[1..]))[1..] == GenFuncs(fs[1..]);
    }
  }

  lemma NameKept(f: TFunc)
    ensures GenFunc(f).name == f.name && |GenFunc(f).params| == |f.params| && GenFunc(f).params == ParamVregs(|f.params|)
    ensures GenFunc(f).blocks == GenBody(f).blocks
  {
  }

  lemma {:induction false} EntryAt(params: seq<nat>, args: seq<i32>, i: nat)
    requires |params| == |args| && i < |params| && forall i, j | 0 <= i < j < |params| :: params[i] != params[j]
    ensures params[i] in Entry(params, args) && Entry(params, args)[params[i]] == args[i]
  {
    var n := |params| - 1;
    if i < n { EntryAt(params[..n], args[..n], i); }
  }

  lemma {:induction false} EntryKeys(params: seq<nat>, args: seq<i32>)
    requires |params| == |args|
    ensures forall v: nat | v in Entry(params, args) :: v in params
  {
    if params != [] { EntryKeys(params[..|params| - 1], args[..|params| - 1]); }
  }

  /** At entry the parameters' registers hold the arguments. */
  lemma EntryMatches(c: Ctx, f: TFunc, args: seq<i32>, gl: seq<i32>)
    requires |f.params| == |args| && FuncIn(f) && Extends(GenBegin(f), c.fin)
    ensures Matches(c, State(Entry(ParamVregs(|f.params|), args), gl), Store(Entry(f.params, args), gl))
  {
    ParamMapLookup(f.params);
    EntryKeys(f.params, args);
    var regs, locals := Entry(ParamVregs(|f.params|), args), Entry(f.params, args);
    forall x | x in locals ensures x in c.fin.ir && c.fin.ir[x] in regs && regs[c.fin.ir[x]] == locals[x] {
      var i :| 0 <= i < |f.params| && f.params[i] == x;
      EntryAt(f.params, args, i);
      EntryAt(ParamVregs(|f.params|), args, i);
      assert x in GenBegin(f).ir && GenBegin(f).ir[x] == i;
    }
  }

  /** The generator at the start of a function is ready for the body. */
  lemma BeginSet(c: Ctx, f: TFunc, lo: nat)
    requires FuncIn(f) && BodyIn(f, lo)
    ensures var ids := set i | 0 <= i < |f.params| :: f.params[i];
            && Set(c, GenBegin(f), ids, lo, false) && ListIn(f.body, ids, lo, false)
            && Here(GenBegin(f)) == Pos(0, 0) && !GenBegin(f).isSealed
  {
    BeginOk(f);
    ParamMapLookup(f.params);
  }

  lemma TRunIs(fs: seq<TFunc>, name: string, args: seq<i32>, gl: seq<i32>, d: nat, k: nat) returns (f: TFunc, a: Ended)
    requires TRun(fs, name, args, gl, d, k).Done?
    ensures FindTyped(fs, name) == Some(f) && |f.params| == |args|
    ensures TExecList(fs, f.body, Store(Entry(f.params, args), gl), d, k) == Done(a)
    ensures !a.flow.Broke? && !a.flow.Continued?
    ensures TRun(fs, name, args, gl, d, k).value == Result(EndValue(a.flow, f.returnsVoid), a.store.globals)
  {
    hide TExecList;
    f := FindTyped(fs, name).value;
    a := TExecList(fs, f.body, Store(Entry(f.params, args), gl), d, k).value;
  }

  /** The context of one function of the lowered module. */
  lemma CtxOf(fs: seq<TFunc>, m: Module, f: TFunc, d: nat) returns (c: Ctx)
    requires m.funcs == GenFuncs(fs) && (forall i | 0 <= i < |fs| :: FuncIn(fs[i])) && FuncIn(f)
    ensures c == Ctx(fs, m, GenBody(f), GenFunc(f), d) && CtxOk(c) && Ok(c.fin)
    ensures Extends(GenBegin(f), c.fin) && Extends(GenList(f.body, GenBegin(f)), c.fin)
    ensures Grows(GenBegin(f), GenList(f.body, GenBegin(f)))
  {
    hide FuncIn, GenBody, Pending, BlockFine, Extends, GenList;
    c := Ctx(fs, m, GenBody(f), GenFunc(f), d);
    NameKept(f);
    GenBodyGrows(f);
    GrowsExtends(GenBegin(f), GenBody(f));
    GrowsExtends(GenList(f.body, GenBegin(f)), GenBody(f));
  }

  /** A function that runs off its end returns 0, or nothing when it is void. */
  lemma EndComes(c: Ctx, f: TFunc, s: State, s': State, a: Ended, g: Gen)
    requires CtxOk(c) && c.fin == GenEnd(g, f.returnsVoid) && Ok(g) && Extends(c.fin, c.fin) && !a.flow.Broke? && !a.flow.Continued?
    requires Arrived(c, Pos(0, 0), s, g, a.flow, a.store, s')
    ensures Comes(c, Pos(0, 0), s, Result(EndValue(a.flow, f.returnsVoid), a.store.globals))
  {
    hide FuncIn, Comes, Leads, Here, Extends, Ok, Finish;
    if a.flow.Next? {
      FinishRet(c, g, if f.returnsVoid then None else Some(Imm(0)), s');
      ComesFrom(c, Pos(0, 0), s, Here(g), s', Result(EndValue(a.flow, f.returnsVoid), a.store.globals));
    }
  }

  lemma RunsFromEntry(c: Ctx, name: string, args: seq<i32>, gl: seq<i32>, r: Result) returns (k: nat)
    requires FindFunc(c.m.funcs, name) == Some(c.f) && |c.f.params| == |args|
    requires Comes(c, Pos(0, 0), State(Entry(c.f.params, args), gl), r)
    ensures RunFunc(c.m, name, args, gl, c.d, k) == Done(r)
  {
    var B := c.f.blocks[0];
    assert B.insts[0..] == B.insts;
    var s := State(Entry(c.f.params, args), gl);
    k :| RunFrom(c.m, c.f, B.insts[0..], B.term, s, c.d, k) == Done(r);
    assert RunBlock(c.m, c.f, 0, s, c.d, k) == Done(r);
  }

  /** Lowering is correct: a call of the tree's function that returns, returns in the IR. */
  lemma {:induction false} FuncSim(fs: seq<TFunc>, m: Module, name: string, args: seq<i32>, gl: seq<i32>, d: nat, k: nat)
    returns (k': nat)
    requires m.funcs == GenFuncs(fs) && forall i | 0 <= i < |fs| :: FuncIn(fs[i])
    requires TRun(fs, name, args, gl, d, k).Done?
    ensures RunFunc(m, name, args, gl, d, k') == TRun(fs, name, args, gl, d, k)
    decreases d, k, 1
  {
    hide FuncIn, TRun, RunFunc, GenFunc, GenBegin, GenList, Ok, Pending, Extends, Entry, Comes, Leads, Here, Matches, CtxOk, BodyIn, Set, Arrived, TExecList, ListIn, Grows, FindFunc, FindTyped, Knows;
    var f, a := TRunIs(fs, name, args, gl, d, k);
    FindLowered(fs, name);
    var c := CtxOf(fs, m, f, d);
    EntryMatches(c, f, args, gl);
    NameKept(f);
    var lo := LowBound(f);
    BeginSet(c, f, lo);
    var s, st := State(Entry(ParamVregs(|args|), args), gl), Store(Entry(f.params, args), gl);
    var ids := set i | 0 <= i < |f.params| :: f.params[i];
    var s' := ListSim(c, f.body, GenBegin(f), ids, lo, false, s, st, k);
    BodyDone(c, f, s, s', a);
    k' := RunsFromEntry(c, name, args, gl, Result(EndValue(a.flow, f.returnsVoid), a.store.globals));
  }

  lemma LowBound(f: TFunc) returns (lo: nat)
    requires FuncIn(f)
    ensures BodyIn(f, lo)
  {
    lo :| BodyIn(f, lo);
  }

  lemma BodyDone(c: Ctx, f: TFunc, s: State, s': State, a: Ended)
    requires CtxOk(c) && c.fin == GenBody(f) && !a.flow.Broke? && !a.flow.Continued?
    requires Grows(GenBegin(f), GenList(f.body, GenBegin(f)))
    requires Arrived(c, Pos(0, 0), s, GenList(f.body, GenBegin(f)), a.flow, a.store, s')
    ensures Comes(c, Pos(0, 0), s, Result(EndValue(a.flow, f.returnsVoid), a.store.globals))
  {
    hide FuncIn, Comes, Leads, Here, GenList, GenEnd, Pending;
    EndComes(c, f, s, s', a, GenList(f.body, GenBegin(f)));
  }
}
