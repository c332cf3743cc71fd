/**
 * What lowering keeps: finished blocks stay as they are, waiting blocks stay
 * empty, every edge leads to an existing block other than the entry, and the
 * registers of locals are distinct.
 */
module LowerShape {
  import opened Word32
  import opened IR
  import opened Ast
  import opened Typed
  import opened Lower

  /** Operands and targets in range, and no edge into the entry block. */
  predicate BlockFine(b: Block, nb: nat, nv: nat) {
    BlockOk(b, nb, nv) && 0 !in Succs(b.term)
  }

  predicate LoopFine(l: Loop, nb: nat) {
    0 < l.continueBB < nb && 0 < l.breakBB < nb
  }

  predicate MapFine(ir: map<nat, nat>, next: nat) {
    && (forall x | x in ir :: ir[x] < next)
    && (forall x, y | x in ir && y in ir && x != y :: ir[x] != ir[y])
  }

  /** The generator's fields fit together. */
  predicate Ok(g: Gen) {
    && |g.blocks| > 0
    && (!g.isSealed ==> g.cur < |g.blocks| && g.blocks[g.cur].term.Open?)
    && (forall b | 0 <= b < |g.blocks| :: BlockFine(g.blocks[b], |g.blocks|, g.next))
    && (forall k | 0 <= k < |g.loops| :: LoopFine(g.loops[k], |g.blocks|))
    && MapFine(g.ir, g.next)
  }

  /** Blocks that have been created and not started. */
  function Pending(g: Gen): set<nat> {
    set b | 0 <= b < |g.blocks| && g.blocks[b].term.Open? && (g.isSealed || b != g.cur)
  }

  predicate Grown(b: Block, b': Block) {
    b.insts <= b'.insts && (b.term.Open? || b' == b)
  }

  /** `h` is `g` and perhaps more: no block shrinks, and no local changes its register. */
  predicate Extends(g: Gen, h: Gen) {
    && |g.blocks| <= |h.blocks| && g.next <= h.next
    && (forall b | 0 <= b < |g.blocks| :: Grown(g.blocks[b], h.blocks[b]))
    && (forall x | x in g.ir :: x in h.ir && h.ir[x] == g.ir[x])
    && (forall x | x in h.ir && x !in g.ir :: h.ir[x] >= g.next)
  }

  lemma ExtendsTrans(a: Gen, b: Gen, c: Gen)
    requires Extends(a, b) && Extends(b, c)
    ensures Extends(a, c)
  {
    forall i | 0 <= i < |a.blocks| ensures Grown(a.blocks[i], c.blocks[i]) {
      assert Grown(a.blocks[i], b.blocks[i]) && Grown(b.blocks[i], c.blocks[i]);
    }
  }

  /** `h` extends `g` and the blocks P are as they were. */
  predicate Via(g: Gen, h: Gen, P: set<nat>) {
    && Ok(h) && Extends(g, h)
    && forall b | b in P :: b < |g.blocks| && b < |h.blocks| && h.blocks[b] == g.blocks[b]
  }

  lemma ViaTrans(a: Gen, b: Gen, c: Gen, P: set<nat>, Q: set<nat>)
    requires Via(a, b, P) && Via(b, c, Q) && P <= Q
    ensures Via(a, c, P)
  {
    hide Ok;
    ExtendsTrans(a, b, c);
  }

  /** A step that leaves the waiting blocks and the loop stack alone. */
  predicate Grows(g: Gen, h: Gen) {
    Via(g, h, Pending(g)) && Pending(h) == Pending(g) && h.loops == g.loops
  }

  lemma GrowsTrans(a: Gen, b: Gen, c: Gen)
    requires Grows(a, b) && Grows(b, c)
    ensures Grows(a, c)
  {
    hide Ok, Extends;
    ViaTrans(a, b, c, Pending(a), Pending(b));
  }

  lemma GrowsSelf(g: Gen)
    requires Ok(g)
    ensures Grows(g, g)
  {
  }

  // ---- the primitive steps ----------------------------------------------------------------

  lemma BlockFineMore(b: Block, nb: nat, nv: nat, nb': nat, nv': nat)
    requires BlockFine(b, nb, nv) && nb <= nb' && nv <= nv'
    ensures BlockFine(b, nb', nv')
  {
    forall k | 0 <= k < |b.insts| ensures InstOk(b.insts[k], nv') {
      assert InstOk(b.insts[k], nv);
    }
  }

  lemma NewVregGrows(g: Gen)
    requires Ok(g)
    ensures Grows(g, NewVreg(g))
  {
    hide BlockFine;
    forall b | 0 <= b < |g.blocks| ensures BlockFine(g.blocks[b], |g.blocks|, g.next + 1) {
      BlockFineMore(g.blocks[b], |g.blocks|, g.next, |g.blocks|, g.next + 1);
    }
  }

  lemma NewBlockVia(g: Gen)
    requires Ok(g)
    ensures var h := NewBlock(g);
            && Via(g, h, Pending(g)) && Pending(h) == Pending(g) + {|g.blocks|} && h.loops == g.loops
            && h.blocks[|g.blocks|] == Block([], Open) && |h.blocks| == |g.blocks| + 1
            && h.ir == g.ir && h.next == g.next
  {
    hide BlockFine;
    var h := NewBlock(g);
    assert BlockFine(Block([], Open), |h.blocks|, h.next) by { EmptyFine(|h.blocks|, h.next); }
    forall b | 0 <= b < |h.blocks| ensures BlockFine(h.blocks[b], |h.blocks|, h.next) {
      if b < |g.blocks| { BlockFineMore(g.blocks[b], |g.blocks|, g.next, |h.blocks|, h.next); }
    }
  }

  lemma EmptyFine(nb: nat, nv: nat)
    ensures BlockFine(Block([], Open), nb, nv)
  {
  }

  /** Starting a waiting block when the current one is finished. */
  lemma StartVia(g: Gen, id: nat, P: set<nat>)
    requires Ok(g) && g.isSealed && id in Pending(g) && P <= Pending(g)
    ensures var h := StartBlock(g, id);
            Via(g, h, P) && Pending(h) == Pending(g) - {id} && h.loops == g.loops && !h.isSealed
            && h.ir == g.ir && h.next == g.next
  {
  }

  lemma EnsureOpenGrows(g: Gen)
    requires Ok(g)
    ensures Grows(g, EnsureOpen(g)) && !EnsureOpen(g).isSealed
    ensures !g.isSealed ==> EnsureOpen(g) == g
  {
    if g.isSealed {
      NewBlockVia(g);
    } else {
      GrowsSelf(g);
    }
  }

  lemma EditGrows(g: Gen, B: Block)
    requires Ok(g) && !g.isSealed && BlockFine(B, |g.blocks|, g.next) && g.blocks[g.cur].insts <= B.insts
    ensures var h := EditBlock(g, g.cur, B).(isSealed := !B.term.Open?);
            Grows(g, h)
  {
  }

  lemma EmitGrows(g: Gen, i: Inst)
    requires Ok(g) && InstOk(i, g.next)
    ensures Grows(g, Emit(g, i)) && !Emit(g, i).isSealed && Emit(g, i).ir == g.ir && Emit(g, i).next == g.next
    ensures !g.isSealed ==> Emit(g, i).cur == g.cur
                            && Emit(g, i).blocks[g.cur] == Block(g.blocks[g.cur].insts + [i], Open)
  {
    EnsureOpenGrows(g);
    var o := EnsureOpen(g);
    assert BlockFine(o.blocks[o.cur], |o.blocks|, o.next);
    EditGrows(o, Block(CurBlock(o).insts + [i], Open));
    GrowsTrans(g, o, Emit(g, i));
  }

  lemma FinishGrows(g: Gen, t: Term)
    requires Ok(g) && !t.Open? && BlockFine(Block([], t), |g.blocks|, g.next)
    ensures Grows(g, Finish(g, t)) && Finish(g, t).isSealed && Finish(g, t).ir == g.ir && Finish(g, t).next == g.next
    ensures !g.isSealed ==> Finish(g, t).blocks == g.blocks[g.cur := Block(g.blocks[g.cur].insts, t)]
  {
    EnsureOpenGrows(g);
    var o := EnsureOpen(g);
    assert BlockFine(o.blocks[o.cur], |o.blocks|, o.next);
    EditGrows(o, Block(CurBlock(o).insts, t));
    GrowsTrans(g, o, Finish(g, t));
  }

  lemma JmpGrows(g: Gen, x: nat)
    requires Ok(g) && 0 < x < |g.blocks|
    ensures Grows(g, Finish(g, Jmp(x))) && Finish(g, Jmp(x)).isSealed && Finish(g, Jmp(x)).ir == g.ir
    ensures Finish(g, Jmp(x)).next == g.next
  {
    FinishGrows(g, Jmp(x));
  }

  /** A fresh register receives an instruction's result. */
  lemma EmitToGrows(g: Gen, i: Inst)
    requires Ok(g) && InstOk(i, g.next + 1)
    ensures Grows(g, EmitTo(g, i).0) && !EmitTo(g, i).0.isSealed && EmitTo(g, i).0.ir == g.ir
    ensures EmitTo(g, i).0.next == g.next + 1 && EmitTo(g, i).1 == Reg(g.next)
  {
    NewVregGrows(g);
    EmitGrows(NewVreg(g), i);
    GrowsTrans(g, NewVreg(g), EmitTo(g, i).0);
  }

  // ---- expressions ------------------------------------------------------------------------------

  /** Locals that may be named have registers. */
  predicate Knows(g: Gen, ids: set<nat>) {
    forall x | x in ids :: x in g.ir
  }

  predicate ValOk(v: Val, nv: nat) {
    forall x | x in ValUses(v) :: x < nv
  }

  /** An expression's code: nothing but registers of its own is written. */
  predicate ExprGrows(g: Gen, h: Gen) {
    Grows(g, h) && h.ir == g.ir && (!g.isSealed ==> !h.isSealed)
  }

  lemma ExprGrowsTrans(a: Gen, b: Gen, c: Gen)
    requires ExprGrows(a, b) && ExprGrows(b, c)
    ensures ExprGrows(a, c)
  {
    hide Grows;
    GrowsTrans(a, b, c);
  }

  lemma {:induction false} GenExprGrows(e: TExpr, g: Gen, ids: set<nat>)
    requires Ok(g) && Knows(g, ids) && ExprIn(e, ids)
    ensures ExprGrows(g, GenExpr(e, g).0)
    ensures ValOk(GenExpr(e, g).1, GenExpr(e, g).0.next)
    decreases e, if e.node.TLogical? then 2 else 0
  {
    hide Pending, Extends, Emit, Finish, EmitTo, NewBlock, StartBlock, BlockFine;
    if e.mark.Some? {
      GrowsSelf(g);
    } else {
      match e.node
      case TNumber(_) =>
      case TVar(sym) =>
        if sym.GlobalVar? {
          EmitToGrows(g, LoadGlobal(g.next, sym.gid));
        } else {
          GrowsSelf(g);
        }
      case TBinary(op, l, r) =>
        GenExprGrows(l, g, ids);
        var (g1, la) := GenExpr(l, g);
        GenExprGrows(r, g1, ids);
        var (g2, lb) := GenExpr(r, g1);
        ExprGrowsTrans(g, g1, g2);
        NextGrows(g1, g2);
        EmitToGrows(g2, Bin(op, g2.next, la, lb, -1, false));
        ExprGrowsTrans(g, g2, GenExpr(e, g).0);
      case TUnary(op, a) =>
        GenExprGrows(a, g, ids);
        var (g1, v) := GenExpr(a, g);
        if !op.Plus? {
          EmitToGrows(g1, Un(if op.Minus? then Neg else Not, g1.next, v));
          ExprGrowsTrans(g, g1, GenExpr(e, g).0);
        }
      case TLogical(_, _, _) =>
        LogicalGrows(e, g, ids);
      case TCall(callee, returnsVoid, args) =>
        GenArgsGrows(args, g, ids);
        var (g1, vs) := GenArgs(args, g);
        if returnsVoid {
          CallInstOk(vs, g1.next, -1, callee);
          EmitGrows(g1, Call(-1, callee, vs));
        } else {
          CallInstOk(vs, g1.next + 1, g1.next, callee);
          EmitToGrows(g1, Call(g1.next, callee, vs));
        }
        ExprGrowsTrans(g, g1, GenExpr(e, g).0);
    }
  }

  lemma NextGrows(g: Gen, h: Gen)
    requires Grows(g, h)
    ensures g.next <= h.next && |g.blocks| <= |h.blocks| && Ok(h)
  {
  }

  lemma CallInstOk(vs: seq<Val>, nv: nat, d: int, callee: string)
    requires forall k | 0 <= k < |vs| :: ValOk(vs[k], nv)
    requires -1 <= d < nv
    ensures InstOk(Call(d, callee, vs), nv)
  {
    forall v | v in ArgUses(vs) ensures v < nv {
      var i :| 0 <= i < |vs| && vs[i].Reg? && vs[i].reg == v;
      assert ValOk(vs[i], nv) && v in ValUses(vs[i]);
    }
  }

  lemma {:induction false} GenArgsGrows(es: List<TExpr>, g: Gen, ids: set<nat>)
    requires Ok(g) && Knows(g, ids) && Typed.ArgsIn(es, ids)
    ensures ExprGrows(g, GenArgs(es, g).0)
    ensures forall k | 0 <= k < |GenArgs(es, g).1| :: ValOk(GenArgs(es, g).1[k], GenArgs(es, g).0.next)
    decreases es, 0
  {
    hide Pending, Extends;
    match es
    case Nil => GrowsSelf(g);
    case Cons(e, rest) =>
      GenExprGrows(e, g, ids);
      var (g1, v) := GenExpr(e, g);
      GenArgsGrows(rest, g1, ids);
      var (g2, vs) := GenArgs(rest, g1);
      ExprGrowsTrans(g, g1, g2);
      NextGrows(g1, g2);
  }

  /** `NewBlock` three times. */
  function NewBlocks3(g: Gen): Gen {
    NewBlock(NewBlock(NewBlock(g)))
  }

  lemma NewBlocks3Via(g: Gen)
    requires Ok(g)
    ensures var h, n := NewBlocks3(g), |g.blocks|;
            && Via(g, h, Pending(g)) && Pending(h) == Pending(g) + {n, n + 1, n + 2} && h.loops == g.loops
            && |h.blocks| == n + 3 && h.ir == g.ir && h.next == g.next && h.cur == g.cur && h.isSealed == g.isSealed
            && (forall b | n <= b < n + 3 :: h.blocks[b] == Block([], Open))
            && (forall b | 0 <= b < n :: h.blocks[b] == g.blocks[b])
            && Pending(g) !! {n, n + 1, n + 2}
  {
    hide Ok, Extends;
    NewBlockVia(g);
    NewBlockVia(NewBlock(g));
    NewBlockVia(NewBlock(NewBlock(g)));
    ViaTrans(g, NewBlock(g), NewBlock(NewBlock(g)), Pending(g), Pending(NewBlock(g)));
    ViaTrans(g, NewBlock(NewBlock(g)), NewBlocks3(g), Pending(g), Pending(NewBlock(NewBlock(g))));
  }

  /** A block that is started, filled by `h`, and left by a jump. */
  lemma ArmGrows(g: Gen, id: nat, h: Gen, x: nat, P: set<nat>)
    requires Ok(g) && g.isSealed && id in Pending(g) && P <= Pending(g) - {id}
    requires Grows(StartBlock(g, id), h) && 0 < x < |g.blocks|
    ensures var r := Finish(h, Jmp(x));
            && Via(g, r, P) && Pending(r) == Pending(g) - {id} && r.loops == g.loops && r.isSealed
            && r.ir == h.ir && r.next == h.next && Ok(r)
  {
    hide Ok, Extends, Pending, Finish;
    StartVia(g, id, P);
    NextGrows(StartBlock(g, id), h);
    JmpGrows(h, x);
    GrowsTrans(StartBlock(g, id), h, Finish(h, Jmp(x)));
    ViaTrans(g, StartBlock(g, id), Finish(h, Jmp(x)), P, Pending(g) - {id});
  }

  lemma {:induction false} LogicalGrows(e: TExpr, g: Gen, ids: set<nat>)
    requires Ok(g) && Knows(g, ids) && ExprIn(e, ids) && e.mark.None? && e.node.TLogical?
    ensures ExprGrows(g, GenExpr(e, g).0)
    ensures GenExpr(e, g).1 == Reg(g.next) && g.next < GenExpr(e, g).0.next
    decreases e, 1, 1
  {
    hide Ok, Extends, Pending, Finish, Emit, GenCond, NewBlock, StartBlock, BlockFine;
    var res, n := g.next, |g.blocks|;
    var P := Pending(g);
    NewVregGrows(g);
    var a := NewVreg(g);
    NewBlocks3Via(a);
    var g0 := NewBlocks3(a);
    ViaTrans(g, a, g0, P, P);
    OkNonempty(g);
    GenCondGrows(e, g0, ids, n, n + 1);
    var g1 := GenCond(e, g0, n, n + 1);
    NextGrows(g0, g1);
    ViaTrans(g, g0, g1, P, Pending(g0));
    SetArmGrows(g1, n, res, 1, n + 2, P + {n + 1, n + 2});
    var g2 := Finish(Emit(StartBlock(g1, n), Mv(res, Imm(1))), Jmp(n + 2));
    ViaTrans(g, g1, g2, P, P + {n + 1, n + 2});
    ViaBlocks(g1, g2, P);
    SetArmGrows(g2, n + 1, res, 0, n + 2, P + {n + 2});
    var g3 := Finish(Emit(StartBlock(g2, n + 1), Mv(res, Imm(0))), Jmp(n + 2));
    ViaTrans(g, g2, g3, P, P + {n + 2});
    ViaBlocks(g2, g3, P);
    StartVia(g3, n + 2, P);
    ViaTrans(g, g3, StartBlock(g3, n + 2), P, P);
  }

  lemma OkNonempty(g: Gen)
    requires Ok(g)
    ensures |g.blocks| > 0
  {
  }

  /** One arm of a logical value. */
  lemma SetArmGrows(g: Gen, id: nat, res: nat, c: i32, x: nat, P: set<nat>)
    requires Ok(g) && g.isSealed && id in Pending(g) && P <= Pending(g) - {id} && res < g.next && 0 < x < |g.blocks|
    ensures var r := Finish(Emit(StartBlock(g, id), Mv(res, Imm(c))), Jmp(x));
            && Via(g, r, P) && Pending(r) == Pending(g) - {id} && r.loops == g.loops && r.isSealed
            && r.ir == g.ir && r.next == g.next && Ok(r)
  {
    hide Finish, Emit, Extends, Pending;
    StartVia(g, id, P);
    EmitGrows(StartBlock(g, id), Mv(res, Imm(c)));
    ArmGrows(g, id, Emit(StartBlock(g, id), Mv(res, Imm(c))), x, P);
  }

  lemma {:induction false} GenCondGrows(e: TExpr, g: Gen, ids: set<nat>, t: nat, f: nat)
    requires Ok(g) && Knows(g, ids) && ExprIn(e, ids) && 0 < t < |g.blocks| && 0 < f < |g.blocks|
    ensures Grows(g, GenCond(e, g, t, f)) && GenCond(e, g, t, f).isSealed && GenCond(e, g, t, f).ir == g.ir
    decreases e, 1, 0
  {
    hide Ok, Extends, Pending, Finish, Emit, NewBlock, StartBlock, GenExpr, EmitTo;
    if e.mark.Some? {
      JmpGrows(g, if e.mark.value != 0 then t else f);
    } else if e.node.TLogical? {
      var mid := |g.blocks|;
      var P := Pending(g);
      NewBlockVia(g);
      var g0 := NewBlock(g);
      if e.node.isOr { GenCondGrows(e.node.lhs, g0, ids, t, mid); } else { GenCondGrows(e.node.lhs, g0, ids, mid, f); }
      var g1 := if e.node.isOr then GenCond(e.node.lhs, g0, t, mid) else GenCond(e.node.lhs, g0, mid, f);
      ViaTrans(g, g0, g1, P, Pending(g0));
      StartVia(g1, mid, P);
      var g2 := StartBlock(g1, mid);
      ViaTrans(g, g1, g2, P, P);
      ViaBlocks(g, g2, P);
      GenCondGrows(e.node.rhs, g2, ids, t, f);
      ViaTrans(g, g2, GenCond(e, g, t, f), P, Pending(g2));
    } else if e.node.TUnary? && e.node.uop.LogNot? {
      GenCondGrows(e.node.operand, g, ids, f, t);
    } else {
      GenExprGrows(e, g, ids);
      var (g1, v) := GenExpr(e, g);
      NextGrows(g, g1);
      FinishGrows(g1, Br(v, t, f));
      GrowsTrans(g, g1, GenCond(e, g, t, f));
    }
  }

  lemma ViaBlocks(g: Gen, h: Gen, P: set<nat>)
    requires Via(g, h, P)
    ensures |g.blocks| <= |h.blocks| && g.next <= h.next && Ok(h)
  {
  }

  // ---- statements ---------------------------------------------------------------------------------

  /** Only symbols below lo have registers yet. */
  predicate IdsBelow(g: Gen, lo: nat) {
    forall x | x in g.ir :: x < lo
  }

  /** `g.ir[id := v]` for a fresh symbol and a fresh register. */
  function Bind(g: Gen, id: nat): Gen {
    NewVreg(g).(ir := g.ir[id := g.next])
  }

  lemma BindGrows(g: Gen, id: nat)
    requires Ok(g) && id !in g.ir
    ensures Grows(g, Bind(g, id)) && Ok(Bind(g, id))
  {
    hide BlockFine;
    NewVregGrows(g);
  }

  lemma LoopChange(g: Gen, loops: seq<Loop>)
    requires Ok(g) && forall k | 0 <= k < |loops| :: LoopFine(loops[k], |g.blocks|)
    ensures Via(g, g.(loops := loops), Pending(g)) && Pending(g.(loops := loops)) == Pending(g)
  {
    hide BlockFine;
  }

  lemma MoveOk(v: Val, d: nat, nv: nat)
    requires ValOk(v, nv) && d < nv
    ensures InstOk(Mv(d, v), nv)
  {
  }

  lemma KnownVreg(g: Gen, id: nat)
    requires Ok(g) && id in g.ir
    ensures VregOf(g, id) < g.next
  {
  }

  lemma GrownKnows(g: Gen, h: Gen, ids: set<nat>)
    requires Grows(g, h) && Knows(g, ids)
    ensures Knows(h, ids)
  {
  }

  lemma {:induction false} GenStmtGrows(s: TStmt, g: Gen, ids: set<nat>, lo: nat, inLoop: bool)
    requires Ok(g) && Knows(g, ids) && IdsBelow(g, lo) && StmtIn(s, ids, lo, inLoop) && (inLoop ==> g.loops != [])
    ensures Grows(g, GenStmt(s, g)) && IdsBelow(GenStmt(s, g), NextId(s, lo)) && Knows(GenStmt(s, g), Declared(s, ids))
    decreases s, 2
  {
    hide Pending, Extends, Emit, Finish, GenExpr, GenCond, NewBlock, StartBlock, BlockFine, Grows;
    match s
    case TBlock(ss) =>
      GenListGrows(ss, g, ids, lo, inLoop);
    case TEmpty => GrowsSelf(g);
    case TExprStmt(e) =>
      ExprStep(e, g, ids);
    case TAssign(sym, e) =>
      ExprStep(e, g, ids);
      var (g1, v) := GenExpr(e, g);
      if sym.GlobalVar? {
        EmitGrows(g1, StoreGlobal(sym.gid, v));
      } else {
        var d := VregOf(g1, sym.id);
        KnownVreg(g1, sym.id);
        MoveOk(v, d, g1.next);
        EmitGrows(g1, Mv(d, v));
      }
      GrowsTrans(g, g1, GenStmt(s, g));
    case TVarDecl(isConst, id, e) =>
      if isConst {
        GrowsSelf(g);
      } else {
        BindGrows(g, id);
        var g0 := Bind(g, id);
        ExprStep(e, g0, ids);
        var (g1, v) := GenExpr(e, g0);
        MoveOk(v, g.next, g1.next);
        EmitGrows(g1, Mv(g.next, v));
        GrowsTrans(g, g0, g1);
        GrowsTrans(g, g1, GenStmt(s, g));
      }
    case TIf(c, t, e) =>
      if c.mark.Some? {
        if c.mark.value != 0 {
          GenStmtGrows(t, g, ids, lo, inLoop);
        } else if e.Some? {
          IdsMore(g, lo, NextId(t, lo));
          GenStmtGrows(e.value, g, ids, NextId(t, lo), inLoop);
        } else {
          GrowsSelf(g);
        }
      } else if e.Some? {
        IfElseGrows(s, g, ids, lo, inLoop);
      } else {
        IfGrows(s, g, ids, lo, inLoop);
      }
    case TWhile(c, b) =>
      WhileGrows(s, g, ids, lo, inLoop);
    case TBreak =>
      var l := g.loops[|g.loops| - 1];
      assert LoopFine(l, |g.blocks|);
      JmpGrows(g, l.breakBB);
    case TContinue =>
      var l := g.loops[|g.loops| - 1];
      assert LoopFine(l, |g.blocks|);
      JmpGrows(g, l.continueBB);
    case TReturn(None) => RetGrows(g, None);
    case TReturn(Some(e)) =>
      ExprStep(e, g, ids);
      var (g1, v) := GenExpr(e, g);
      RetGrows(g1, Some(v));
      GrowsTrans(g, g1, GenStmt(s, g));
  }

  lemma RetGrows(g: Gen, v: Option<Val>)
    requires Ok(g) && (v.Some? ==> ValOk(v.value, g.next))
    ensures Grows(g, Finish(g, Ret(v))) && Finish(g, Ret(v)).ir == g.ir && Finish(g, Ret(v)).isSealed
  {
    FinishGrows(g, Ret(v));
  }

  lemma IdsMore(g: Gen, lo: nat, hi: nat)
    requires IdsBelow(g, lo) && lo <= hi
    ensures IdsBelow(g, hi)
  {
  }

  lemma ExprStep(e: TExpr, g: Gen, ids: set<nat>)
    requires Ok(g) && Knows(g, ids) && ExprIn(e, ids)
    ensures var (h, v) := GenExpr(e, g);
            && Grows(g, h) && h.ir == g.ir && ValOk(v, h.next) && Ok(h) && g.next <= h.next && h.loops == g.loops
  {
    hide GenExpr, Pending, Extends, BlockFine;
    GenExprGrows(e, g, ids);
    NextGrows(g, GenExpr(e, g).0);
  }

  lemma {:induction false} GenListGrows(ss: List<TStmt>, g: Gen, ids: set<nat>, lo: nat, inLoop: bool)
    requires Ok(g) && Knows(g, ids) && IdsBelow(g, lo) && ListIn(ss, ids, lo, inLoop) && (inLoop ==> g.loops != [])
    ensures Grows(g, GenList(ss, g)) && IdsBelow(GenList(ss, g), NextIdList(ss, lo)) && Knows(GenList(ss, g), ids)
    decreases ss, 2
  {
    hide Pending, Extends, GenStmt;
    match ss
    case Nil => GrowsSelf(g);
    case Cons(s, rest) =>
      GenStmtGrows(s, g, ids, lo, inLoop);
      var g1 := GenStmt(s, g);
      GenListGrows(rest, g1, Declared(s, ids), NextId(s, lo), inLoop);
      GrowsTrans(g, g1, GenList(ss, g));
      GrownKnows(g, GenList(ss, g), ids);
  }

  /** A branch or loop body in a started block, up to the jump behind it. */
  lemma {:induction false} BodyGrows(s: TStmt, g: Gen, id: nat, x: nat, P: set<nat>, ids: set<nat>, lo: nat, inLoop: bool)
    requires Ok(g) && g.isSealed && id in Pending(g) && P <= Pending(g) - {id} && 0 < x < |g.blocks|
    requires Knows(g, ids) && IdsBelow(g, lo) && StmtIn(s, ids, lo, inLoop) && (inLoop ==> g.loops != [])
    ensures var r := Finish(GenStmt(s, StartBlock(g, id)), Jmp(x));
            && Via(g, r, P) && Pending(r) == Pending(g) - {id} && r.loops == g.loops && r.isSealed && Ok(r)
            && IdsBelow(r, NextId(s, lo)) && |g.blocks| <= |r.blocks| && Knows(r, Declared(s, ids))
    decreases s, 3
  {
    hide Pending, Extends, GenStmt, Finish, BlockFine;
    StartVia(g, id, P);
    GenStmtGrows(s, StartBlock(g, id), ids, lo, inLoop);
    ArmGrows(g, id, GenStmt(s, StartBlock(g, id)), x, P);
    ViaBlocks(g, Finish(GenStmt(s, StartBlock(g, id)), Jmp(x)), P);
  }

  lemma KnowsVia(g: Gen, h: Gen, P: set<nat>, ids: set<nat>)
    requires Via(g, h, P) && Knows(g, ids)
    ensures Knows(h, ids)
  {
  }

  lemma {:induction false} IfGrows(s: TStmt, g: Gen, ids: set<nat>, lo: nat, inLoop: bool)
    requires Ok(g) && Knows(g, ids) && IdsBelow(g, lo) && StmtIn(s, ids, lo, inLoop) && (inLoop ==> g.loops != [])
    requires s.TIf? && s.cond.mark.None? && s.else_.None?
    ensures Grows(g, GenStmt(s, g)) && IdsBelow(GenStmt(s, g), NextId(s, lo)) && Knows(GenStmt(s, g), Declared(s, ids))
    decreases s, 0
  {
    hide Ok, Pending, Extends, Finish, GenCond, StartBlock, BlockFine, NewBlock;
    var n, P := |g.blocks|, Pending(g);
    OkNonempty(g);
    NewBlockVia(g);
    NewBlockVia(NewBlock(g));
    var g0 := NewBlock(NewBlock(g));
    ViaTrans(g, NewBlock(g), g0, P, P + {n});
    GenCondGrows(s.cond, g0, ids, n, n + 1);
    var g1 := GenCond(s.cond, g0, n, n + 1);
    ViaTrans(g, g0, g1, P, Pending(g0));
    ViaBlocks(g0, g1, P);
    BodyGrows(s.then_, g1, n, n + 1, P + {n + 1}, ids, lo, inLoop);
    var g2 := Finish(GenStmt(s.then_, StartBlock(g1, n)), Jmp(n + 1));
    ViaTrans(g, g1, g2, P, P + {n + 1});
    StartVia(g2, n + 1, P);
    ViaTrans(g, g2, StartBlock(g2, n + 1), P, P);
    KnowsVia(g2, StartBlock(g2, n + 1), P, Declared(s, ids));
  }

  lemma {:induction false} IfElseGrows(s: TStmt, g: Gen, ids: set<nat>, lo: nat, inLoop: bool)
    requires Ok(g) && Knows(g, ids) && IdsBelow(g, lo) && StmtIn(s, ids, lo, inLoop) && (inLoop ==> g.loops != [])
    requires s.TIf? && s.cond.mark.None? && s.else_.Some?
    ensures Grows(g, GenStmt(s, g)) && IdsBelow(GenStmt(s, g), NextId(s, lo)) && Knows(GenStmt(s, g), Declared(s, ids))
    decreases s, 0
  {
    hide Ok, Pending, Extends, Finish, GenCond, StartBlock, BlockFine, NewBlock;
    var n, P := |g.blocks|, Pending(g);
    OkNonempty(g);
    NewBlocks3Via(g);
    var g0 := NewBlocks3(g);
    GenCondGrows(s.cond, g0, ids, n, n + 2);
    var g1 := GenCond(s.cond, g0, n, n + 2);
    ViaTrans(g, g0, g1, P, Pending(g0));
    ViaBlocks(g0, g1, P);
    BodyGrows(s.then_, g1, n, n + 1, P + {n + 1, n + 2}, ids, lo, inLoop);
    var g2 := Finish(GenStmt(s.then_, StartBlock(g1, n)), Jmp(n + 1));
    ViaTrans(g, g1, g2, P, P + {n + 1, n + 2});
    BodyGrows(s.else_.value, g2, n + 2, n + 1, P + {n + 1}, Declared(s.then_, ids), NextId(s.then_, lo), inLoop);
    var g3 := Finish(GenStmt(s.else_.value, StartBlock(g2, n + 2)), Jmp(n + 1));
    ViaTrans(g, g2, g3, P, P + {n + 1});
    StartVia(g3, n + 1, P);
    ViaTrans(g, g3, StartBlock(g3, n + 1), P, P);
    KnowsVia(g3, StartBlock(g3, n + 1), P, Declared(s, ids));
  }

  lemma {:induction false} WhileGrows(s: TStmt, g: Gen, ids: set<nat>, lo: nat, inLoop: bool)
    requires Ok(g) && Knows(g, ids) && IdsBelow(g, lo) && StmtIn(s, ids, lo, inLoop) && s.TWhile?
    ensures Grows(g, GenStmt(s, g)) && IdsBelow(GenStmt(s, g), NextId(s, lo)) && Knows(GenStmt(s, g), Declared(s, ids))
    decreases s, 1
  {
    var n, P := |g.blocks|, Pending(g);
    LoopEntryVia(g);
    LoopBodyVia(s, g, ids, lo);
    var g2 := AfterBody(s, g);
    hide Ok, Pending, Extends, Finish, GenCond, StartBlock, BlockFine, NewBlock, LoopEntry, AfterBody, IdsBelow, Knows;
    LoopTestVia(s.cond, g2, n, ids, P);
    var g3 := StartBlock(GenCond(s.cond, StartBlock(g2, n + 1), n, n + 2), n + 2);
    ViaTrans(g, g2, g3, P, P);
    KnowsVia(g2, g3, P, Declared(s, ids));
    LoopIs(s, g);
  }

  /** The generator when the loop's body is done and its stack entry gone. */
  function AfterBody(s: TStmt, g: Gen): Gen
    requires s.TWhile?
  {
    PopLoop(Finish(GenStmt(s.body, StartBlock(LoopEntry(g), |g.blocks|)), Jmp(|g.blocks| + 1)))
  }

  lemma LoopIs(s: TStmt, g: Gen)
    requires s.TWhile?
    ensures var n := |g.blocks|;
            GenStmt(s, g) == StartBlock(GenCond(s.cond, StartBlock(AfterBody(s, g), n + 1), n, n + 2), n + 2)
  {
    hide GenCond, Finish;
  }

  lemma {:induction false} LoopBodyVia(s: TStmt, g: Gen, ids: set<nat>, lo: nat)
    requires Ok(g) && Knows(g, ids) && IdsBelow(g, lo) && s.TWhile? && StmtIn(s.body, ids, lo, true)
    ensures var h, n := AfterBody(s, g), |g.blocks|;
            && Via(g, h, Pending(g)) && Pending(h) == Pending(g) + {n + 1, n + 2} && h.isSealed && Ok(h)
            && h.loops == g.loops && n + 3 <= |h.blocks| && IdsBelow(h, NextId(s.body, lo)) && Knows(h, ids)
            && Knows(h, Declared(s.body, ids))
    decreases s, 0
  {
    var n, P := |g.blocks|, Pending(g);
    var g1 := LoopEntry(g);
    LoopEntryVia(g);
    hide Ok, Pending, Extends, Finish, StartBlock, BlockFine, NewBlock, LoopEntry;
    KnowsVia(g, g1, P, ids);
    BodyGrows(s.body, g1, n, n + 1, P + {n + 1, n + 2}, ids, lo, true);
    var r := Finish(GenStmt(s.body, StartBlock(g1, n)), Jmp(n + 1));
    ViaTrans(g, g1, r, P, P + {n + 1, n + 2});
    var g2 := PopLoop(r);
    PopVia(g, r, n);
    ViaTrans(g, r, g2, P, Pending(r));
    ViaBlocks(r, g2, Pending(r));
    KnowsVia(g, g2, P, ids);
    KnowsVia(r, g2, Pending(r), Declared(s.body, ids));
  }

  /** The condition block of a loop, and the start of the block behind it. */
  lemma LoopTestVia(c: TExpr, g: Gen, n: nat, ids: set<nat>, P: set<nat>)
    requires Ok(g) && g.isSealed && Pending(g) == P + {n + 1, n + 2} && 0 < n && n + 3 <= |g.blocks|
    requires P !! {n, n + 1, n + 2} && Knows(g, ids) && ExprIn(c, ids)
    ensures var h := StartBlock(GenCond(c, StartBlock(g, n + 1), n, n + 2), n + 2);
            Via(g, h, P) && Pending(h) == P && h.loops == g.loops && h.ir == g.ir
  {
    hide Ok, Pending, Extends, Finish, GenCond, StartBlock, BlockFine;
    StartVia(g, n + 1, P + {n + 2});
    var g3 := StartBlock(g, n + 1);
    ViaBlocks(g, g3, P + {n + 2});
    GenCondGrows(c, g3, ids, n, n + 2);
    var g4 := GenCond(c, g3, n, n + 2);
    ViaTrans(g, g3, g4, P, Pending(g3));
    ViaBlocks(g3, g4, Pending(g3));
    StartVia(g4, n + 2, P);
    ViaTrans(g, g4, StartBlock(g4, n + 2), P, P);
  }

  /** The blocks of a loop, the jump to its condition, and the loop on the stack. */
  function LoopEntry(g: Gen): Gen {
    var n := |g.blocks|;
    PushLoop(Finish(NewBlocks3(g), Jmp(n + 1)), Loop(n + 1, n + 2))
  }

  lemma LoopEntryVia(g: Gen)
    requires Ok(g)
    ensures var h, n := LoopEntry(g), |g.blocks|;
            && n > 0 && Via(g, h, Pending(g)) && Pending(h) == Pending(g) + {n, n + 1, n + 2} && h.isSealed && Ok(h)
            && h.loops == g.loops + [Loop(n + 1, n + 2)] && n + 3 <= |h.blocks| && h.ir == g.ir && h.next == g.next
            && Pending(g) !! {n, n + 1, n + 2}
  {
    var n, P := |g.blocks|, Pending(g);
    NewBlocks3Via(g);
    var g0 := NewBlocks3(g);
    JmpGrows(g0, n + 1);
    var gj := Finish(g0, Jmp(n + 1));
    hide Pending, Extends, Finish, BlockFine, NewBlock;
    ViaTrans(g, g0, gj, P, Pending(g0));
    ViaBlocks(g0, gj, P);
    LoopChange(gj, gj.loops + [Loop(n + 1, n + 2)]);
    ViaTrans(g, gj, LoopEntry(g), P, Pending(gj));
  }

  lemma PopVia(g: Gen, r: Gen, n: nat)
    requires Ok(g) && Ok(r) && |g.blocks| <= |r.blocks| && r.loops == g.loops + [Loop(n + 1, n + 2)]
    ensures Via(r, PopLoop(r), Pending(r)) && Pending(PopLoop(r)) == Pending(r) && PopLoop(r).loops == g.loops
  {
    assert r.loops[..|r.loops| - 1] == g.loops;
    LoopChange(r, g.loops);
  }

  // ---- functions ------------------------------------------------------------------------------------

  lemma {:induction false} ParamMapLookup(params: seq<nat>)
    requires forall i, j | 0 <= i < j < |params| :: params[i] != params[j]
    ensures forall x | x in ParamMap(params) :: exists i :: 0 <= i < |params| && params[i] == x && ParamMap(params)[x] == i
    ensures forall i | 0 <= i < |params| :: params[i] in ParamMap(params) && ParamMap(params)[params[i]] == i
  {
    if params != [] {
      var n := |params| - 1;
      ParamMapLookup(params[..n]);
      forall x | x in ParamMap(params)
        ensures exists i :: 0 <= i < |params| && params[i] == x && ParamMap(params)[x] == i
      {
        if x == params[n] {
          assert params[n] == x && ParamMap(params)[x] == n;
        } else {
          var i :| 0 <= i < n && params[..n][i] == x && ParamMap(params[..n])[x] == i;
          assert params[i] == x && ParamMap(params)[x] == i;
        }
      }
      forall i | 0 <= i < |params| ensures params[i] in ParamMap(params) && ParamMap(params)[params[i]] == i {
        if i < n { assert params[..n][i] == params[i]; }
      }
    }
  }

  lemma BeginOk(f: TFunc)
    requires FuncIn(f)
    ensures Ok(GenBegin(f)) && Pending(GenBegin(f)) == {}
    ensures Knows(GenBegin(f), set i | 0 <= i < |f.params| :: f.params[i])
  {
    ParamMapLookup(f.params);
    EmptyFine(1, |f.params|);
  }

  lemma {:induction false} BodyOk(f: TFunc, lo: nat)
    requires FuncIn(f) && BodyIn(f, lo)
    ensures Grows(GenBegin(f), GenList(f.body, GenBegin(f)))
  {
    hide Ok, Pending, Extends, GenList;
    var ids := set i | 0 <= i < |f.params| :: f.params[i];
    BeginOk(f);
    ParamMapLookup(f.params);
    GenListGrows(f.body, GenBegin(f), ids, lo, false);
  }

  lemma GenBodyGrows(f: TFunc)
    requires FuncIn(f)
    ensures Grows(GenBegin(f), GenBody(f)) && GenBody(f).isSealed && Pending(GenBody(f)) == {}
    ensures Grows(GenBegin(f), GenList(f.body, GenBegin(f))) && Grows(GenList(f.body, GenBegin(f)), GenBody(f))
  {
    hide Ok, Extends, GenList, Pending, BodyIn;
    var lo: nat :| BodyIn(f, lo);
    BodyOk(f, lo);
    BeginOk(f);
    var g := GenList(f.body, GenBegin(f));
    NextGrows(GenBegin(f), g);
    if g.isSealed {
      GrowsSelf(g);
    } else {
      RetGrows(g, if f.returnsVoid then None else Some(Imm(0)));
      GrowsTrans(GenBegin(f), g, GenBody(f));
    }
  }

  /**
   * The graph of every function: operands and targets are in range, every block
   * has its terminator, and no edge enters the entry block.
   */
  lemma GenFuncWellFormed(f: TFunc)
    requires FuncIn(f)
    ensures FuncOk(GenFunc(f))
    ensures forall b | 0 <= b < |GenFunc(f).blocks| ::
              !GenFunc(f).blocks[b].term.Open? && 0 !in Succs(GenFunc(f).blocks[b].term)
  {
    GenBodyGrows(f);
    var g := GenBody(f);
    forall b | 0 <= b < |g.blocks| ensures BlockOk(g.blocks[b], |g.blocks|, g.next) && !g.blocks[b].term.Open? && 0 !in Succs(g.blocks[b].term) {
      assert BlockFine(g.blocks[b], |g.blocks|, g.next);
      assert g.blocks[b].term.Open? ==> b in Pending(g);
    }
  }
}
