/** The generator between the parts of a construct: what holds when each part begins. */
module LowerStages {
  import opened Word32
  import opened IR
  import opened Ast
  import opened Typed
  import L = Lower
  import opened LowerShape
  import Sim = LowerSim

  predicate Inside(g: L.Gen) {
    !g.isSealed ==> g.cur < |g.blocks|
  }

  /** The block that is open is there. */
  lemma OkHere(g: L.Gen)
    requires Ok(g)
    ensures !g.isSealed ==> g.cur < |g.blocks|
  {
  }

  /** The generator between the parts of an `if`. */
  ghost predicate Fits(g: L.Gen, ids: set<nat>, lo: nat, inLoop: bool) {
    Ok(g) && Knows(g, ids) && IdsBelow(g, lo) && (inLoop ==> g.loops != [])
  }

  /** A waiting block may be started and filled. */
  lemma ArmFits(s: TStmt, g: L.Gen, id: nat, ids: set<nat>, lo: nat, inLoop: bool)
    requires Ok(g) && g.isSealed && id in Pending(g) && Knows(g, ids) && IdsBelow(g, lo) && (inLoop ==> g.loops != [])
    requires StmtIn(s, ids, lo, inLoop)
    ensures Fits(L.StartBlock(g, id), ids, lo, inLoop) && Inside(L.GenStmt(s, L.StartBlock(g, id)))
  {
    hide Extends, L.GenStmt, BlockFine, StmtIn, Ok, Pending, Grows;
    StartVia(g, id, {});
    ViaBlocks(g, L.StartBlock(g, id), {});
    Sim.StmtFacts(s, L.StartBlock(g, id), ids, lo, inLoop);
    OkHere(L.GenStmt(s, L.StartBlock(g, id)));
  }

  lemma LogicalStages(e: TExpr, g: L.Gen, ids: set<nat>)
    requires Ok(g) && Knows(g, ids) && ExprIn(e, ids) && e.mark.None? && e.node.TLogical?
    ensures var n, g0 := |g.blocks|, NewBlocks3(L.NewVreg(g));
            && Ok(g0) && Knows(g0, ids) && 0 < n < |g0.blocks| && n + 1 < |g0.blocks|
            && var g1 := L.GenCond(e, g0, n, n + 1);
               var g2 := L.Finish(L.Emit(L.StartBlock(g1, n), Mv(g.next, Imm(1))), Jmp(n + 2));
               && n < |g1.blocks| && n + 1 < |g2.blocks|
               && Inside(L.Emit(L.StartBlock(g1, n), Mv(g.next, Imm(1))))
               && Inside(L.Emit(L.StartBlock(g2, n + 1), Mv(g.next, Imm(0))))
  {
    hide Extends, L.GenCond;
    NewVregGrows(g);
    NewBlocks3Via(L.NewVreg(g));
    OkNonempty(g);
    Sim.CondFacts(e, NewBlocks3(L.NewVreg(g)), ids, |g.blocks|, |g.blocks| + 1);
  }

  lemma CondStages(e: TExpr, g: L.Gen, ids: set<nat>, t: nat, f: nat)
    requires Ok(g) && Knows(g, ids) && ExprIn(e, ids) && 0 < t < |g.blocks| && 0 < f < |g.blocks|
    requires e.mark.None? && e.node.TLogical?
    ensures var mid, g0 := |g.blocks|, L.NewBlock(g);
            var g1 := if e.node.isOr then L.GenCond(e.node.lhs, g0, t, mid) else L.GenCond(e.node.lhs, g0, mid, f);
            && Ok(g0) && Knows(g0, ids) && 0 < mid < |g0.blocks| && |g.blocks| < |g0.blocks|
            && Ok(L.StartBlock(g1, mid)) && Knows(L.StartBlock(g1, mid), ids) && |g.blocks| <= |L.StartBlock(g1, mid).blocks|
  {
    hide Extends, L.GenCond, BlockFine;
    var mid, g0 := |g.blocks|, L.NewBlock(g);
    NewBlockVia(g);
    var tl, fl := if e.node.isOr then t else mid, if e.node.isOr then mid else f;
    Sim.CondFacts(e.node.lhs, g0, ids, tl, fl);
    Sim.StartHere(g0, L.GenCond(e.node.lhs, g0, tl, fl), mid);
  }

  lemma If0Ok(s: TStmt, g: L.Gen)
    requires Ok(g) && s.TIf?
    ensures var h := Sim.If0(s, g);
            && Ok(h) && h.ir == g.ir && h.loops == g.loops && |h.blocks| == Sim.IfElseTarget(s, g) + 1
            && Pending(h) == Pending(g) + Sim.IfIds(s, g)
  {
    hide Extends, BlockFine;
    NewBlockVia(g);
    NewBlockVia(L.NewBlock(g));
    if s.else_.Some? { NewBlockVia(L.NewBlock(L.NewBlock(g))); }
  }

  lemma ThenStages(s: TStmt, g: L.Gen, ids: set<nat>, lo: nat, inLoop: bool)
    requires Fits(g, ids, lo, inLoop) && StmtIn(s, ids, lo, inLoop) && s.TIf? && s.cond.mark.None?
    ensures var g0, g1, n := Sim.If0(s, g), Sim.If1(s, g), |g.blocks|;
            && Ok(g0) && Knows(g0, ids) && 0 < n < |g0.blocks| && Sim.IfElseTarget(s, g) < |g0.blocks|
            && Ok(g1) && g1.isSealed && Pending(g1) == Pending(g) + Sim.IfIds(s, g) && Knows(g1, ids) && IdsBelow(g1, lo)
            && g1.loops == g.loops && |g0.blocks| <= |g1.blocks|
            && Fits(L.StartBlock(g1, n), ids, lo, inLoop)
            && Inside(L.GenStmt(s.then_, L.StartBlock(g1, n)))
            && Pending(g) !! Sim.IfIds(s, g)
  {
    var n, P := |g.blocks|, Pending(g);
    hide StmtIn, BlockFine;
    Sim.IfParts(s, ids, lo, inLoop);
    OkNonempty(g);
    OkHere(g);
    Sim.NewBlocksPending(g);
    If0Ok(s, g);
    hide Extends, L.GenCond, L.GenStmt, L.Finish, Ok, Pending, Grows, Sim.If0;
    var g0, g1 := Sim.If0(s, g), Sim.If1(s, g);
    Sim.CondFacts(s.cond, g0, ids, n, Sim.IfElseTarget(s, g));
    ArmFits(s.then_, g1, n, ids, lo, inLoop);
  }

  lemma ElseStages(s: TStmt, g: L.Gen, ids: set<nat>, lo: nat, inLoop: bool)
    requires Fits(g, ids, lo, inLoop) && StmtIn(s, ids, lo, inLoop) && s.TIf? && s.cond.mark.None? && s.else_.Some?
    ensures var g2, n := Sim.If2(s, g), |g.blocks|;
            && Fits(L.StartBlock(g2, n + 2), Declared(s.then_, ids), NextId(s.then_, lo), inLoop)
            && Inside(L.GenStmt(s.else_.value, L.StartBlock(g2, n + 2)))
  {
    var n := |g.blocks|;
    hide Extends, L.GenCond, L.GenStmt, BlockFine, L.Finish, StmtIn, Ok, Pending, Grows, Sim.If0, Sim.If1;
    Sim.IfParts(s, ids, lo, inLoop);
    ThenStages(s, g, ids, lo, inLoop);
    var g1, g2 := Sim.If1(s, g), Sim.If2(s, g);
    BodyGrows(s.then_, g1, n, n + 1, Pending(g1) - {n}, ids, lo, inLoop);
    ArmFits(s.else_.value, g2, n + 2, Declared(s.then_, ids), NextId(s.then_, lo), inLoop);
  }

  lemma WhileStages(s: TStmt, g: L.Gen, ids: set<nat>, lo: nat, inLoop: bool)
    requires Fits(g, ids, lo, inLoop) && StmtIn(s, ids, lo, inLoop) && s.TWhile?
    ensures var n, g1 := |g.blocks|, L.StartBlock(LoopEntry(g), |g.blocks|);
            && Inside(NewBlocks3(g)) && Fits(g1, ids, lo, true) && Inside(L.GenStmt(s.body, g1))
            && L.Finish(L.GenStmt(s.body, g1), Jmp(n + 1)).loops != []
            && var g2 := L.StartBlock(AfterBody(s, g), n + 1);
               Ok(g2) && Knows(g2, ids) && 0 < n < |g2.blocks| && n + 2 < |g2.blocks|
  {
    var n, g1 := |g.blocks|, L.StartBlock(LoopEntry(g), |g.blocks|);
    Sim.LoopParts(s, ids, lo, inLoop);
    LoopEntryVia(g);
    LoopBodyVia(s, g, ids, lo);
    OkHere(g);
    hide Extends, L.GenCond, L.GenStmt, BlockFine, L.Finish, StmtIn, LoopEntry, AfterBody;
    KnowsVia(g, LoopEntry(g), Pending(g), ids);
    ArmFits(s.body, LoopEntry(g), n, ids, lo, true);
    Sim.StmtFacts(s.body, g1, ids, lo, true);
    Sim.FinishLoops(L.GenStmt(s.body, g1), Jmp(n + 1));
    StartVia(AfterBody(s, g), n + 1, {});
    ViaBlocks(AfterBody(s, g), L.StartBlock(AfterBody(s, g), n + 1), {});
  }

  lemma BeginFits(f: TFunc, lo: nat)
    requires FuncIn(f) && BodyIn(f, lo)
    ensures var ids := set i | 0 <= i < |f.params| :: f.params[i];
            && Fits(L.GenBegin(f), ids, lo, false) && ListIn(f.body, ids, lo, false)
    ensures Inside(L.GenList(f.body, L.GenBegin(f)))
  {
    hide L.GenList, BlockFine;
    BeginOk(f);
    ParamMapLookup(f.params);
    BodyOk(f, lo);
    NextGrows(L.GenBegin(f), L.GenList(f.body, L.GenBegin(f)));
    OkHere(L.GenList(f.body, L.GenBegin(f)));
  }
}
