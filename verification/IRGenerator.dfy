/**
 * The lowering as it runs: one object whose fields are the blocks so far, the
 * current block, and the loop stack, changed by a recursive walk over the tree.
 * Every method is tied to the function of module Lower that gives its effect.
 */
module IRGenerator {
  import opened Word32
  import opened IR
  import opened Ast
  import opened Typed
  import L = Lower
  import opened LowerShape
  import Sim = LowerSim
  import opened LowerStages

  class IRGen {
    var blocks: seq<Block>
    var curBB: nat
    var isSealed: bool
    var nextVreg: nat
    /** `irId` of every symbol that has one. */
    var irId: map<nat, nat>
    var loops: seq<L.Loop>

    constructor ()
      ensures blocks == [] && !isSealed && loops == []
    {
      blocks, curBB, isSealed, nextVreg, irId, loops := [], 0, false, 0, map[], [];
    }

    function State(): L.Gen
      reads this
    {
      L.Gen(blocks, curBB, isSealed, nextVreg, irId, loops)
    }

    method NewVreg() returns (v: nat)
      modifies this
      ensures v == old(nextVreg) && State() == L.NewVreg(old(State()))
    {
      v := nextVreg;
      nextVreg := nextVreg + 1;
    }

    method NewBlock() returns (id: nat)
      modifies this
      ensures id == |old(blocks)| && State() == L.NewBlock(old(State()))
    {
      id := |blocks|;
      blocks := blocks + [Block([], Open)];
    }

    method StartBlock(id: nat)
      modifies this
      ensures State() == L.StartBlock(old(State()), id)
    {
      curBB := id;
      isSealed := false;
    }

    method EnsureOpen()
      requires !isSealed ==> curBB < |blocks|
      modifies this
      ensures State() == L.EnsureOpen(old(State())) && curBB < |blocks| && !isSealed
    {
      if isSealed {
        var b := NewBlock();
        StartBlock(b);
      }
    }

    method Emit(i: Inst)
      requires !isSealed ==> curBB < |blocks|
      modifies this
      ensures State() == L.Emit(old(State()), i)
    {
      EnsureOpen();
      var B := blocks[curBB];
      blocks := blocks[curBB := Block(B.insts + [i], B.term)];
    }

    /** `termJmp`, `termBr` and `termRet`. */
    method Finish(t: Term)
      requires !isSealed ==> curBB < |blocks|
      modifies this
      ensures State() == L.Finish(old(State()), t)
    {
      EnsureOpen();
      blocks := blocks[curBB := Block(blocks[curBB].insts, t)];
      isSealed := true;
    }

    // ---- expressions ----

    method GenExpr(e: TExpr, ghost ids: set<nat>) returns (v: Val)
      requires Ok(State()) && Knows(State(), ids) && ExprIn(e, ids)
      modifies this
      ensures (State(), v) == L.GenExpr(e, old(State()))
      decreases e, if e.node.TLogical? then 3 else 1
    {
      if e.mark.Some? { return Imm(e.mark.value); }
      hide Ok, Pending, L.GenExpr, L.GenCond, L.GenArgs;
      v := Imm(0);
      match e.node
      case TNumber(_) =>
      case TVar(_) => v := GenVar(e, ids);
      case TBinary(_, _, _) => v := GenBinary(e, ids);
      case TUnary(_, _) => v := GenUnary(e, ids);
      case TLogical(_, _, _) => v := GenLogical(e, ids);
      case TCall(_, _, _) => v := GenCall(e, ids);
    }

    method GenVar(e: TExpr, ghost ids: set<nat>) returns (v: Val)
      requires Ok(State()) && Knows(State(), ids) && ExprIn(e, ids) && e.mark.None? && e.node.TVar?
      modifies this
      ensures (State(), v) == L.GenExpr(e, old(State()))
    {
      var sym := e.node.sym;
      if sym.GlobalVar? {
        var t := NewVreg();
        Emit(LoadGlobal(t, sym.gid));
        v := Reg(t);
      } else {
        v := Reg(irId[sym.id]);
      }
    }

    method GenBinary(e: TExpr, ghost ids: set<nat>) returns (v: Val)
      requires Ok(State()) && Knows(State(), ids) && ExprIn(e, ids) && e.mark.None? && e.node.TBinary?
      modifies this
      ensures (State(), v) == L.GenExpr(e, old(State()))
      decreases e, 0
    {
      ghost var g := State();
      Sim.ExprFacts(e.node.lhs, g, ids);
      Sim.ExprFacts(e.node.rhs, L.GenExpr(e.node.lhs, g).0, ids);
      OkHere(L.GenExpr(e.node.rhs, L.GenExpr(e.node.lhs, g).0).0);
      hide Ok, Grows, Pending, Knows, L.Emit;
      var la := GenExpr(e.node.lhs, ids);
      var lb := GenExpr(e.node.rhs, ids);
      var t := NewVreg();
      Emit(Bin(e.node.op, t, la, lb, -1, false));
      v := Reg(t);
    }

    method GenUnary(e: TExpr, ghost ids: set<nat>) returns (v: Val)
      requires Ok(State()) && Knows(State(), ids) && ExprIn(e, ids) && e.mark.None? && e.node.TUnary?
      modifies this
      ensures (State(), v) == L.GenExpr(e, old(State()))
      decreases e, 0
    {
      ghost var g := State();
      Sim.ExprFacts(e.node.operand, g, ids);
      OkHere(L.GenExpr(e.node.operand, g).0);
      hide Ok, Grows, Pending, Knows, L.Emit;
      var a := GenExpr(e.node.operand, ids);
      if e.node.uop.Plus? { return a; }
      var t := NewVreg();
      Emit(Un(if e.node.uop.Minus? then Neg else Not, t, a));
      v := Reg(t);
    }

    method GenCall(e: TExpr, ghost ids: set<nat>) returns (v: Val)
      requires Ok(State()) && Knows(State(), ids) && ExprIn(e, ids) && e.mark.None? && e.node.TCall?
      modifies this
      ensures (State(), v) == L.GenExpr(e, old(State()))
      decreases e, 0
    {
      ghost var g := State();
      Sim.ArgsFacts(e.node.args, g, ids);
      OkHere(L.GenArgs(e.node.args, g).0);
      hide Ok, Grows, Pending, Knows, L.Emit;
      var vs := GenArgs(e.node.args, ids);
      if e.node.returnsVoid {
        Emit(Call(-1, e.node.callee, vs));
        return Imm(0);
      }
      var t := NewVreg();
      Emit(Call(t, e.node.callee, vs));
      v := Reg(t);
    }

    method GenArgs(es: List<TExpr>, ghost ids: set<nat>) returns (vs: seq<Val>)
      requires Ok(State()) && Knows(State(), ids) && Typed.ArgsIn(es, ids)
      modifies this
      ensures (State(), vs) == L.GenArgs(es, old(State()))
      decreases es, 2
    {
      match es
      case Nil => vs := [];
      case Cons(e, rest) =>
        Sim.ExprFacts(e, State(), ids);
        hide Ok, Grows, Pending, Knows, L.GenExpr;
        var v := GenExpr(e, ids);
        var more := GenArgs(rest, ids);
        vs := [v] + more;
    }

    method GenLogical(e: TExpr, ghost ids: set<nat>) returns (v: Val)
      requires Ok(State()) && Knows(State(), ids) && ExprIn(e, ids) && e.mark.None? && e.node.TLogical?
      modifies this
      ensures (State(), v) == L.GenExpr(e, old(State()))
      decreases e, 2, 1
    {
      ghost var g := State();
      LogicalStages(e, g, ids);
      hide Ok, Grows, Pending, Knows, L.Emit, L.GenCond, Sim.Arm1, L.Finish;
      var res := NewVreg();
      var tBB := NewBlock();
      var fBB := NewBlock();
      var endBB := NewBlock();
      GenCond(e, tBB, fBB, ids);
      GenSetArm(tBB, res, 1, endBB);
      GenSetArm(fBB, res, 0, endBB);
      StartBlock(endBB);
      v := Reg(res);
    }

    /** One arm of a logical value. */
    method GenSetArm(id: nat, res: nat, c: i32, x: nat)
      requires Inside(L.Emit(L.StartBlock(State(), id), Mv(res, Imm(c)))) && id < |blocks|
      modifies this
      ensures State() == L.Finish(L.Emit(L.StartBlock(old(State()), id), Mv(res, Imm(c))), Jmp(x))
    {
      StartBlock(id);
      hide L.Emit, L.Finish;
      Emit(Mv(res, Imm(c)));
      Finish(Jmp(x));
    }

    method GenCond(e: TExpr, t: nat, f: nat, ghost ids: set<nat>)
      requires Ok(State()) && Knows(State(), ids) && ExprIn(e, ids) && 0 < t < |blocks| && 0 < f < |blocks|
      modifies this
      ensures State() == L.GenCond(e, old(State()), t, f)
      decreases e, 2, 0
    {
      OkHere(State());
      if e.mark.Some? {
        Finish(Jmp(if e.mark.value != 0 then t else f));
        return;
      }
      if e.node.TLogical? {
        CondStages(e, State(), ids, t, f);
        hide Ok, Grows, Pending, Knows, L.GenExpr, L.Finish;
        var mid := NewBlock();
        if e.node.isOr {
          GenCond(e.node.lhs, t, mid, ids);
        } else {
          GenCond(e.node.lhs, mid, f, ids);
        }
        StartBlock(mid);
        GenCond(e.node.rhs, t, f, ids);
        return;
      }
      hide Ok, Grows, Pending, Knows, L.GenExpr, L.Finish;
      if e.node.TUnary? && e.node.uop.LogNot? {
        GenCond(e.node.operand, f, t, ids);
        return;
      }
      Sim.ExprFacts(e, State(), ids);
      OkHere(L.GenExpr(e, State()).0);
      var v := GenExpr(e, ids);
      Finish(Br(v, t, f));
    }

    // ---- statements ----

    /** What a statement's generation may rely on. */
    predicate Fit(ids: set<nat>, lo: nat, inLoop: bool)
      reads this
    {
      Ok(State()) && Knows(State(), ids) && IdsBelow(State(), lo) && (inLoop ==> loops != [])
    }

    method GenStmt(s: TStmt, ghost ids: set<nat>, ghost lo: nat, ghost inLoop: bool)
      requires Fit(ids, lo, inLoop) && StmtIn(s, ids, lo, inLoop)
      modifies this
      ensures State() == L.GenStmt(s, old(State()))
      decreases s, 2
    {
      OkHere(State());
      match s
      case TBlock(ss) => GenList(ss, ids, lo, inLoop);
      case TEmpty =>
      case TExprStmt(e) =>
        var v := GenExpr(e, ids);
      case TAssign(_, _) => GenAssign(s, ids, lo, inLoop);
      case TVarDecl(_, _, _) => GenDecl(s, ids, lo, inLoop);
      case TIf(_, _, _) => GenIf(s, ids, lo, inLoop);
      case TWhile(_, _) => GenWhile(s, ids, lo, inLoop);
      case TBreak => Finish(Jmp(loops[|loops| - 1].breakBB));
      case TContinue => Finish(Jmp(loops[|loops| - 1].continueBB));
      case TReturn(None) => Finish(Ret(None));
      case TReturn(Some(e)) =>
        Sim.ExprFacts(e, State(), ids);
        OkHere(L.GenExpr(e, State()).0);
        hide Ok, Grows, Pending, Knows, L.GenExpr, L.Finish;
        var v := GenExpr(e, ids);
        Finish(Ret(Some(v)));
    }

    method GenList(ss: List<TStmt>, ghost ids: set<nat>, ghost lo: nat, ghost inLoop: bool)
      requires Fit(ids, lo, inLoop) && ListIn(ss, ids, lo, inLoop)
      modifies this
      ensures State() == L.GenList(ss, old(State()))
      decreases ss, 3
    {
      match ss
      case Nil =>
      case Cons(s, rest) =>
        Sim.StmtFacts(s, State(), ids, lo, inLoop);
        hide Ok, Grows, Pending, Knows, IdsBelow, L.GenStmt;
        GenStmt(s, ids, lo, inLoop);
        GenList(rest, Declared(s, ids), NextId(s, lo), inLoop);
    }

    method GenAssign(s: TStmt, ghost ids: set<nat>, ghost lo: nat, ghost inLoop: bool)
      requires Fit(ids, lo, inLoop) && StmtIn(s, ids, lo, inLoop) && s.TAssign?
      modifies this
      ensures State() == L.GenStmt(s, old(State()))
      decreases s, 0
    {
      Sim.ExprFacts(s.value, State(), ids);
      OkHere(L.GenExpr(s.value, State()).0);
      hide Ok, Grows, Pending, L.GenExpr, L.Emit;
      var v := GenExpr(s.value, ids);
      if s.sym.GlobalVar? {
        Emit(StoreGlobal(s.sym.gid, v));
      } else {
        Emit(Mv(irId[s.sym.id], v));
      }
    }

    method GenDecl(s: TStmt, ghost ids: set<nat>, ghost lo: nat, ghost inLoop: bool)
      requires Fit(ids, lo, inLoop) && StmtIn(s, ids, lo, inLoop) && s.TVarDecl?
      modifies this
      ensures State() == L.GenStmt(s, old(State()))
      decreases s, 0
    {
      if s.isConst { return; }
      ghost var g := State();
      BindGrows(g, s.id);
      Sim.ExprFacts(s.init, Bind(g, s.id), ids);
      OkHere(L.GenExpr(s.init, Bind(g, s.id)).0);
      hide Ok, Grows, Pending, L.GenExpr, L.Emit;
      var v := NewVreg();
      irId := irId[s.id := v];
      assert State() == Bind(g, s.id);
      var init := GenExpr(s.init, ids);
      Emit(Mv(v, init));
    }

    /** A started block, filled with a statement and left for block x. */
    method GenArm(s: TStmt, id: nat, x: nat, ghost ids: set<nat>, ghost lo: nat, ghost inLoop: bool)
      requires Fits(L.StartBlock(State(), id), ids, lo, inLoop) && StmtIn(s, ids, lo, inLoop)
      requires Inside(L.GenStmt(s, L.StartBlock(State(), id)))
      modifies this
      ensures State() == L.Finish(L.GenStmt(s, L.StartBlock(old(State()), id)), Jmp(x))
      decreases s, 3
    {
      hide Ok, Grows, Pending, Knows, IdsBelow, L.GenStmt, L.Finish, StmtIn;
      StartBlock(id);
      GenStmt(s, ids, lo, inLoop);
      Finish(Jmp(x));
    }

    method GenIf(s: TStmt, ghost ids: set<nat>, ghost lo: nat, ghost inLoop: bool)
      requires Fit(ids, lo, inLoop) && StmtIn(s, ids, lo, inLoop) && s.TIf?
      modifies this
      ensures State() == L.GenStmt(s, old(State()))
      decreases s, 1
    {
      if s.cond.mark.Some? {
        if s.cond.mark.value != 0 {
          GenStmt(s.then_, ids, lo, inLoop);
        } else if s.else_.Some? {
          IdsMore(State(), lo, NextId(s.then_, lo));
          GenStmt(s.else_.value, ids, NextId(s.then_, lo), inLoop);
        }
      } else {
        GenBranches(s, ids, lo, inLoop);
      }
    }

    method GenBranches(s: TStmt, ghost ids: set<nat>, ghost lo: nat, ghost inLoop: bool)
      requires Fit(ids, lo, inLoop) && StmtIn(s, ids, lo, inLoop) && s.TIf? && s.cond.mark.None?
      modifies this
      ensures State() == L.GenStmt(s, old(State()))
      decreases s, 0
    {
      ghost var g := State();
      hide StmtIn;
      Sim.IfParts(s, ids, lo, inLoop);
      ThenStages(s, g, ids, lo, inLoop);
      if s.else_.Some? { ElseStages(s, g, ids, lo, inLoop); }
      Sim.IfIs(s, g);
      hide Ok, Fits, Inside, Grows, Pending, Knows, IdsBelow, L.GenExpr, L.GenStmt, L.GenCond, L.Finish, Fit;
      var tBB := NewBlock();
      var jBB := NewBlock();
      var eBB := jBB;
      if s.else_.Some? { eBB := NewBlock(); }
      assert State() == Sim.If0(s, g);
      GenCond(s.cond, tBB, eBB, ids);
      assert State() == Sim.If1(s, g);
      GenArm(s.then_, tBB, jBB, ids, lo, inLoop);
      assert State() == Sim.If2(s, g);
      if s.else_.Some? {
        GenArm(s.else_.value, eBB, jBB, Declared(s.then_, ids), NextId(s.then_, lo), inLoop);
      }
      StartBlock(jBB);
    }

    /** The blocks of a loop, the jump to its condition, and its entry on the loop stack. */
    method GenLoopEntry() returns (bBB: nat, cBB: nat, aBB: nat)
      requires Inside(NewBlocks3(State()))
      modifies this
      ensures State() == LoopEntry(old(State()))
      ensures (bBB, cBB, aBB) == (|old(blocks)|, |old(blocks)| + 1, |old(blocks)| + 2)
    {
      hide L.Finish;
      bBB := NewBlock();
      cBB := NewBlock();
      aBB := NewBlock();
      Finish(Jmp(cBB));
      loops := loops + [L.Loop(cBB, aBB)];
    }

    method PopLoop()
      requires loops != []
      modifies this
      ensures State() == L.PopLoop(old(State()))
    {
      loops := loops[..|loops| - 1];
    }

    method GenWhile(s: TStmt, ghost ids: set<nat>, ghost lo: nat, ghost inLoop: bool)
      requires Fit(ids, lo, inLoop) && StmtIn(s, ids, lo, inLoop) && s.TWhile?
      modifies this
      ensures State() == L.GenStmt(s, old(State()))
      decreases s, 1
    {
      hide StmtIn;
      Sim.LoopParts(s, ids, lo, inLoop);
      WhileStages(s, State(), ids, lo, inLoop);
      LoopIs(s, State());
      hide Ok, Fits, Fit, Inside, Knows, L.GenCond, AfterBody;
      var n := GenLoopBody(s, ids, lo);
      GenLoopTest(s.cond, n, n + 1, n + 2, ids);
    }

    /** A loop up to the end of its body; returns the first of its blocks. */
    method GenLoopBody(s: TStmt, ghost ids: set<nat>, ghost lo: nat) returns (n: nat)
      requires s.TWhile? && Inside(NewBlocks3(State())) && StmtIn(s.body, ids, lo, true)
      requires var g1 := L.StartBlock(LoopEntry(State()), |blocks|);
               && Fits(g1, ids, lo, true) && Inside(L.GenStmt(s.body, g1))
               && L.Finish(L.GenStmt(s.body, g1), Jmp(|blocks| + 1)).loops != []
      modifies this
      ensures n == |old(blocks)| && State() == AfterBody(s, old(State()))
      decreases s, 0
    {
      hide Ok, Fits, Inside, L.GenStmt, L.Finish, LoopEntry, StmtIn;
      var bBB, cBB, aBB := GenLoopEntry();
      n := bBB;
      GenArm(s.body, bBB, cBB, ids, lo, true);
      PopLoop();
    }

    /** The condition block of a loop, and the start of the block behind it. */
    method GenLoopTest(c: TExpr, bBB: nat, cBB: nat, aBB: nat, ghost ids: set<nat>)
      requires var g := L.StartBlock(State(), cBB);
               Ok(g) && Knows(g, ids) && ExprIn(c, ids) && 0 < bBB < |g.blocks| && 0 < aBB < |g.blocks|
      modifies this
      ensures State() == L.StartBlock(L.GenCond(c, L.StartBlock(old(State()), cBB), bBB, aBB), aBB)
      decreases c, 4
    {
      hide Ok, Knows, L.GenCond;
      StartBlock(cBB);
      GenCond(c, bBB, aBB, ids);
      StartBlock(aBB);
    }

    // ---- functions ----

    method GenFunc(f: TFunc) returns (r: Func)
      requires FuncIn(f)
      modifies this
      ensures r == L.GenFunc(f)
    {
      blocks, loops, nextVreg, irId := [], [], 0, map[];
      var params: seq<nat> := [];
      for i := 0 to |f.params|
        invariant nextVreg == i && irId == L.ParamMap(f.params[..i]) && params == L.ParamVregs(i)
        invariant blocks == [] && loops == []
      {
        var v := NewVreg();
        irId := irId[f.params[i] := v];
        params := params + [v];
        assert f.params[..i + 1][..i] == f.params[..i];
      }
      assert f.params[..|f.params|] == f.params;
      var entry := NewBlock();
      StartBlock(entry);
      assert State() == L.GenBegin(f);
      ghost var lo := Sim.LowBound(f);
      ghost var ids := set i | 0 <= i < |f.params| :: f.params[i];
      BeginFits(f, lo);
      hide Ok, Grows, Pending, Knows, IdsBelow, L.GenList, L.Finish, FuncIn;
      GenList(f.body, ids, lo, false);
      if !isSealed {
        Finish(Ret(if f.returnsVoid then None else Some(Imm(0))));
      }
      r := Func(f.name, f.returnsVoid, params, blocks, nextVreg);
    }

    method Generate(m: TModule) returns (r: Module)
      requires forall i | 0 <= i < |m.funcs| :: FuncIn(m.funcs[i])
      modifies this
      ensures r == L.Generate(m)
    {
      hide FuncIn, L.GenFunc;
      var fs := [];
      for i := 0 to |m.funcs|
        invariant fs + L.GenFuncs(m.funcs[i..]) == L.GenFuncs(m.funcs)
      {
        var f := GenFunc(m.funcs[i]);
        fs := fs + [f];
        assert m.funcs[i..][0] == m.funcs[i] && m.funcs[i..][1..] == m.funcs[i + 1..];
      }
      r := Module(m.globals, fs);
    }
  }
}
