/**
 * Lowering writes every temporary (the result of an operation, a load or a call)
 * in one place of the function only, which is what common subexpression
 * elimination relies on.
 */
module LowerOnce {
  import opened Word32
  import opened IR
  import opened Ast
  import opened Typed
  import opened Lower
  import opened LowerShape
  import opened LowerSim
  import opened LowerStages
  import opened Cse

  /** An instruction that puts its result in a register of its own: all but moves and stores. */
  predicate Temp(i: Inst) {
    i.Bin? || i.Un? || i.LoadGlobal? || (i.Call? && i.dst >= 0)
  }

  /** Some temporary in the blocks so far is v. */
  ghost predicate IsTemp(g: Gen, v: int) {
    exists b, k :: 0 <= b < |g.blocks| && 0 <= k < |g.blocks[b].insts| && Temp(g.blocks[b].insts[k])
                   && g.blocks[b].insts[k].dst == v
  }

  /** At most one place writes a temporary, and no local has its register. */
  ghost predicate Clean(g: Gen) {
    && (forall b, k | 0 <= b < |g.blocks| && 0 <= k < |g.blocks[b].insts| && Temp(g.blocks[b].insts[k]) ::
          g.blocks[b].insts[k].dst !in Uses(g.blocks[b].insts[k]))
    && (forall b, k, c, j | 0 <= b < |g.blocks| && 0 <= k < |g.blocks[b].insts| && Temp(g.blocks[b].insts[k])
                            && 0 <= c < |g.blocks| && 0 <= j < |g.blocks[c].insts| && (b != c || k != j) ::
          Def(g.blocks[c].insts[j]) != g.blocks[b].insts[k].dst)
    && (forall x | x in g.ir :: !IsTemp(g, g.ir[x]))
  }

  /** h is clean, and its new temporaries have registers that g had not handed out. */
  ghost predicate Kept(g: Gen, h: Gen) {
    Clean(h) && g.next <= h.next && forall v | IsTemp(h, v) :: IsTemp(g, v) || v >= g.next
  }

  lemma KeptTrans(a: Gen, b: Gen, c: Gen)
    requires Kept(a, b) && Kept(b, c)
    ensures Kept(a, c)
  {
    hide Clean, IsTemp;
  }

  lemma KeptSelf(g: Gen)
    requires Clean(g)
    ensures Kept(g, g)
  {
  }

  /** The instructions are the same, up to empty blocks. */
  ghost predicate SameCode(g: Gen, h: Gen) {
    && |g.blocks| <= |h.blocks| && h.ir == g.ir && g.next <= h.next
    && (forall b | 0 <= b < |g.blocks| :: h.blocks[b].insts == g.blocks[b].insts)
    && (forall b | |g.blocks| <= b < |h.blocks| :: h.blocks[b].insts == [])
  }

  lemma SameCodeKept(g: Gen, h: Gen)
    requires Clean(g) && SameCode(g, h)
    ensures Kept(g, h)
  {
    forall v | IsTemp(h, v) ensures IsTemp(g, v) {
      var b, k :| 0 <= b < |h.blocks| && 0 <= k < |h.blocks[b].insts| && Temp(h.blocks[b].insts[k])
                  && h.blocks[b].insts[k].dst == v;
      assert g.blocks[b].insts[k] == h.blocks[b].insts[k];
    }
  }

  lemma FinishSame(g: Gen, t: Term)
    ensures SameCode(g, Finish(g, t))
  {
  }

  lemma FinishKept(g: Gen, t: Term)
    requires Clean(g)
    ensures Kept(g, Finish(g, t))
  {
    hide Finish, Clean, SameCode;
    FinishSame(g, t);
    SameCodeKept(g, Finish(g, t));
  }

  /** Code with one more instruction at the end of the open block. */
  lemma AppendKept(g: Gen, i: Inst)
    requires Ok(g) && Clean(g) && !g.isSealed && !IsTemp(g, Def(i)) && InstOk(i, g.next)
    requires Temp(i) ==> i.dst !in Uses(i)
    requires Temp(i) ==> forall b, k | 0 <= b < |g.blocks| && 0 <= k < |g.blocks[b].insts| :: Def(g.blocks[b].insts[k]) != i.dst
    requires Temp(i) ==> forall x | x in g.ir :: g.ir[x] != i.dst
    ensures Clean(Emit(g, i))
    ensures forall v | IsTemp(Emit(g, i), v) :: IsTemp(g, v) || (Temp(i) && v == i.dst)
  {
    hide Ok, Uses, InstOk;
    OkOpen(g);
    var h, c, n := Emit(g, i), g.cur, |g.blocks[g.cur].insts|;
    assert forall b, k | 0 <= b < |g.blocks| && 0 <= k < |g.blocks[b].insts| :: h.blocks[b].insts[k] == g.blocks[b].insts[k];
    assert h.blocks[c].insts[n] == i;
    forall v | IsTemp(h, v) ensures IsTemp(g, v) || (Temp(i) && v == i.dst) {
      var b, k :| 0 <= b < |h.blocks| && 0 <= k < |h.blocks[b].insts| && Temp(h.blocks[b].insts[k])
                  && h.blocks[b].insts[k].dst == v;
      if b != c || k != n { assert g.blocks[b].insts[k] == h.blocks[b].insts[k]; }
    }
    forall b, k, b', j | 0 <= b < |h.blocks| && 0 <= k < |h.blocks[b].insts| && Temp(h.blocks[b].insts[k])
                        && 0 <= b' < |h.blocks| && 0 <= j < |h.blocks[b'].insts| && (b != b' || k != j)
      ensures Def(h.blocks[b'].insts[j]) != h.blocks[b].insts[k].dst
    {
      if b == c && k == n {
        assert g.blocks[b'].insts[j] == h.blocks[b'].insts[j];
      } else {
        assert g.blocks[b].insts[k] == h.blocks[b].insts[k];
        assert IsTemp(g, g.blocks[b].insts[k].dst);
      }
    }
  }

  lemma OkOpen(g: Gen)
    requires Ok(g) && !g.isSealed
    ensures g.cur < |g.blocks|
  {
  }

  lemma EmitOpen(g: Gen, i: Inst)
    ensures Emit(g, i) == Emit(EnsureOpen(g), i)
    ensures SameCode(g, EnsureOpen(g))
  {
  }

  /** A move, store or call keeps the registers of expressions alone. */
  lemma EmitKept(g: Gen, i: Inst)
    requires Ok(g) && Clean(g) && !Temp(i) && !IsTemp(g, Def(i)) && InstOk(i, g.next)
    ensures Kept(g, Emit(g, i))
  {
    hide Ok, Clean, Emit, IsTemp, InstOk, EnsureOpen, SameCode;
    EnsureOpenGrows(g);
    var o := EnsureOpen(g);
    NextGrows(g, o);
    EmitOpen(g, i);
    SameCodeKept(g, o);
    SameTemps(g, o);
    MoreOk(i, g.next, o.next);
    AppendKept(o, i);
    EmitNext(o, i);
  }

  lemma EmitNext(g: Gen, i: Inst)
    ensures Emit(g, i).next == g.next
  {
  }

  lemma MoreOk(i: Inst, n: nat, n': nat)
    requires InstOk(i, n) && n <= n'
    ensures InstOk(i, n')
  {
  }

  lemma SameTemps(g: Gen, h: Gen)
    requires SameCode(g, h)
    ensures forall v :: IsTemp(h, v) ==> IsTemp(g, v)
  {
    forall v | IsTemp(h, v) ensures IsTemp(g, v) {
      var b, k :| 0 <= b < |h.blocks| && 0 <= k < |h.blocks[b].insts| && Temp(h.blocks[b].insts[k])
                  && h.blocks[b].insts[k].dst == v;
      assert g.blocks[b].insts[k] == h.blocks[b].insts[k];
    }
  }

  /** No instruction and no local has a register that is not handed out yet. */
  lemma NothingFresh(g: Gen)
    requires Ok(g)
    ensures forall b, k | 0 <= b < |g.blocks| && 0 <= k < |g.blocks[b].insts| :: Def(g.blocks[b].insts[k]) < g.next
    ensures forall v | IsTemp(g, v) :: v < g.next
  {
    forall b, k | 0 <= b < |g.blocks| && 0 <= k < |g.blocks[b].insts| ensures Def(g.blocks[b].insts[k]) < g.next {
      assert BlockFine(g.blocks[b], |g.blocks|, g.next);
      assert InstOk(g.blocks[b].insts[k], g.next);
    }
    forall v | IsTemp(g, v) ensures v < g.next {
      var b, k :| 0 <= b < |g.blocks| && 0 <= k < |g.blocks[b].insts| && Temp(g.blocks[b].insts[k])
                  && g.blocks[b].insts[k].dst == v;
      assert Def(g.blocks[b].insts[k]) == v;
    }
  }

  /** A result in a fresh register. */
  lemma EmitToKept(g: Gen, i: Inst)
    requires Ok(g) && Clean(g) && InstOk(i, g.next + 1) && Def(i) == g.next && forall v | v in Uses(i) :: v < g.next
    ensures Kept(g, EmitTo(g, i).0)
  {
    hide Ok, Clean, Emit, InstOk, EnsureOpen, SameCode, IsTemp;
    NewVregGrows(g);
    var a := NewVreg(g);
    NextGrows(g, a);
    EnsureOpenGrows(a);
    var o := EnsureOpen(a);
    NextGrows(a, o);
    EmitOpen(a, i);
    SameCodeKept(g, a);
    SameCodeKept(a, o);
    SameTemps(g, a);
    SameTemps(a, o);
    NothingFresh(g);
    MoreOk(i, g.next + 1, o.next);
    FreshDst(g, a, o);
    AppendKept(o, i);
    EmitNext(o, i);
  }

  /** Opening a block brings no instruction and no local. */
  lemma FreshDst(g: Gen, a: Gen, o: Gen)
    requires Ok(g) && SameCode(g, a) && SameCode(a, o)
    ensures forall b, k | 0 <= b < |o.blocks| && 0 <= k < |o.blocks[b].insts| :: Def(o.blocks[b].insts[k]) != g.next
    ensures forall x | x in o.ir :: o.ir[x] != g.next
  {
    NothingFresh(g);
  }

  // ---- expressions ----------------------------------------------------------------------------------

  lemma {:induction false} ExprOnce(e: TExpr, g: Gen, ids: set<nat>)
    requires Ok(g) && Knows(g, ids) && ExprIn(e, ids) && Clean(g)
    ensures Kept(g, GenExpr(e, g).0)
    decreases e, if e.node.TLogical? then 4 else 1
  {
    hide Ok, Clean, Kept, Emit, EmitTo, Knows, Grows, Pending, Finish;
    if e.mark.Some? {
      KeptSelf(g);
    } else {
      match e.node
      case TNumber(_) =>
      case TVar(sym) =>
        if sym.GlobalVar? { EmitToKept(g, LoadGlobal(g.next, sym.gid)); } else { KeptSelf(g); }
      case TBinary(op, l, r) =>
        ExprFacts(l, g, ids);
        var (g1, la) := GenExpr(l, g);
        ExprFacts(r, g1, ids);
        var (g2, lb) := GenExpr(r, g1);
        ExprOnce(l, g, ids);
        KeptClean(g, g1);
        ExprOnce(r, g1, ids);
        KeptClean(g1, g2);
        EmitToKept(g2, Bin(op, g2.next, la, lb, -1, false));
        KeptTrans(g, g1, g2);
        KeptTrans(g, g2, GenExpr(e, g).0);
      case TUnary(op, a) =>
        ExprFacts(a, g, ids);
        var (g1, v) := GenExpr(a, g);
        ExprOnce(a, g, ids);
        KeptClean(g, g1);
        if !op.Plus? {
          EmitToKept(g1, Un(if op.Minus? then Neg else Not, g1.next, v));
          KeptTrans(g, g1, GenExpr(e, g).0);
        }
      case TLogical(_, _, _) => LogicalOnce(e, g, ids);
      case TCall(callee, isVoid, args) => CallOnce(e, g, ids);
    }
  }

  lemma KeptClean(g: Gen, h: Gen)
    requires Kept(g, h)
    ensures Clean(h)
  {
  }

  lemma {:induction false} CallOnce(e: TExpr, g: Gen, ids: set<nat>)
    requires Ok(g) && Knows(g, ids) && ExprIn(e, ids) && Clean(g) && e.mark.None? && e.node.TCall?
    ensures Kept(g, GenExpr(e, g).0)
    decreases e, 0
  {
    hide Ok, Clean, Kept, Emit, EmitTo, Knows, Grows, Pending, IsTemp;
    var TCall(callee, isVoid, args) := e.node;
    ArgsFacts(args, g, ids);
    var (g1, vs) := GenArgs(args, g);
    ArgsOnce(args, g, ids);
    KeptClean(g, g1);
    if isVoid {
      CallInstOk(vs, g1.next, -1, callee);
      NoTempBelow(g1);
      EmitKept(g1, Call(-1, callee, vs));
    } else {
      CallInstOk(vs, g1.next + 1, g1.next, callee);
      UsesBelow(vs, g1.next, g1.next, callee);
      EmitToKept(g1, Call(g1.next, callee, vs));
    }
    KeptTrans(g, g1, GenExpr(e, g).0);
  }

  lemma UsesBelow(vs: seq<Val>, nv: nat, d: int, callee: string)
    requires forall k | 0 <= k < |vs| :: ValOk(vs[k], nv)
    ensures forall v | v in Uses(Call(d, callee, vs)) :: v < nv
  {
    forall v | v in Uses(Call(d, callee, vs)) ensures v < nv {
      var i :| 0 <= i < |vs| && vs[i].Reg? && vs[i].reg == v;
      assert ValOk(vs[i], nv) && v in ValUses(vs[i]);
    }
  }

  lemma NoTempBelow(g: Gen)
    requires Ok(g)
    ensures !IsTemp(g, -1)
  {
    forall b, k | 0 <= b < |g.blocks| && 0 <= k < |g.blocks[b].insts| && Temp(g.blocks[b].insts[k])
      ensures g.blocks[b].insts[k].dst != -1
    {
      assert BlockFine(g.blocks[b], |g.blocks|, g.next);
      assert InstOk(g.blocks[b].insts[k], g.next);
    }
  }

  lemma {:induction false} ArgsOnce(es: List<TExpr>, g: Gen, ids: set<nat>)
    requires Ok(g) && Knows(g, ids) && Typed.ArgsIn(es, ids) && Clean(g)
    ensures Kept(g, GenArgs(es, g).0)
    decreases es, 0
  {
    hide Ok, Clean, Kept, Knows, Grows, GenExpr;
    match es
    case Nil => KeptSelf(g);
    case Cons(e, rest) =>
      ExprFacts(e, g, ids);
      var g1 := GenExpr(e, g).0;
      ExprOnce(e, g, ids);
      KeptClean(g, g1);
      ArgsOnce(rest, g1, ids);
      KeptTrans(g, g1, GenArgs(es, g).0);
  }

  /** A started block and a move into register r. */
  lemma ArmOnce(g: Gen, id: nat, r: nat, c: i32, x: nat)
    requires Ok(g) && g.isSealed && id in Pending(g) && Clean(g) && r < g.next && !IsTemp(g, r)
    ensures var h := Finish(Emit(StartBlock(g, id), Mv(r, Imm(c))), Jmp(x));
            Kept(g, h) && !IsTemp(h, r)
  {
    hide Clean, Emit, Finish, IsTemp, Kept;
    var a := StartBlock(g, id);
    StartVia(g, id, {});
    ViaBlocks(g, a, {});
    SameCodeKept(g, a);
    KeptClean(g, a);
    SameTemps(g, a);
    EmitKept(a, Mv(r, Imm(c)));
    var b := Emit(a, Mv(r, Imm(c)));
    KeptClean(a, b);
    FinishKept(b, Jmp(x));
    KeptTrans(g, a, b);
    KeptTrans(g, b, Finish(b, Jmp(x)));
    StillNoTemp(g, Finish(b, Jmp(x)), r);
  }

  /** A register handed out before is still no expression's. */
  lemma StillNoTemp(g: Gen, h: Gen, r: nat)
    requires Kept(g, h) && r < g.next && !IsTemp(g, r)
    ensures !IsTemp(h, r)
  {
    hide Clean, IsTemp;
  }

  lemma {:induction false} LogicalOnce(e: TExpr, g: Gen, ids: set<nat>)
    requires Ok(g) && Knows(g, ids) && ExprIn(e, ids) && Clean(g) && e.mark.None? && e.node.TLogical?
    ensures Kept(g, GenExpr(e, g).0)
    decreases e, 3
  {
    var n, res, g0 := |g.blocks|, g.next, NewBlocks3(NewVreg(g));
    var g1, g2, g3 := Arm1(e, g), Arm2(e, g), Arm3(e, g);
    LogicalShape(e, g, ids);
    NothingFresh(g);
    hide Ok, Clean, Kept, Emit, Knows, Grows, Pending, Finish, IsTemp, GenCond, NewBlocks3, SameCode, Arm2, Arm3;
    SameCodeKept(g, g0);
    KeptClean(g, g0);
    SameTemps(g, g0);
    CondOnce(e, g0, ids, n, n + 1);
    StillNoTemp(g0, g1, res);
    KeptTrans(g, g0, g1);
    LogicalArms(e, g);
    KeptTrans(g, g1, g3);
    LogicalEnd(e, g);
  }

  lemma LogicalArms(e: TExpr, g: Gen)
    requires var n, g1, g2 := |g.blocks|, Arm1(e, g), Arm2(e, g);
             && Ok(g1) && g1.isSealed && n in Pending(g1) && Ok(g2) && g2.isSealed && n + 1 in Pending(g2)
             && g.next < g1.next && g.next < g2.next && !IsTemp(g1, g.next) && Kept(g, g1)
    ensures Kept(Arm1(e, g), Arm3(e, g))
  {
    hide Ok, Clean, Kept, Emit, Pending, Finish, IsTemp, GenCond;
    var n, res := |g.blocks|, g.next;
    KeptClean(g, Arm1(e, g));
    ArmOnce(Arm1(e, g), n, res, 1, n + 2);
    KeptClean(Arm1(e, g), Arm2(e, g));
    ArmOnce(Arm2(e, g), n + 1, res, 0, n + 2);
    KeptTrans(Arm1(e, g), Arm2(e, g), Arm3(e, g));
  }

  lemma LogicalEnd(e: TExpr, g: Gen)
    requires e.mark.None? && e.node.TLogical? && Kept(g, Arm3(e, g))
    ensures Kept(g, GenExpr(e, g).0)
  {
    hide Clean, IsTemp, Finish, Emit, GenCond;
    var h := Arm3(e, g);
    KeptClean(g, h);
    SameCodeKept(h, StartBlock(h, |g.blocks| + 2));
    KeptTrans(g, h, StartBlock(h, |g.blocks| + 2));
    assert GenExpr(e, g).0 == StartBlock(h, |g.blocks| + 2);
  }

  lemma LogicalShape(e: TExpr, g: Gen, ids: set<nat>)
    requires Ok(g) && Knows(g, ids) && ExprIn(e, ids) && e.mark.None? && e.node.TLogical?
    ensures var n, g0, g1, g2 := |g.blocks|, NewBlocks3(NewVreg(g)), Arm1(e, g), Arm2(e, g);
            && SameCode(g, g0) && Ok(g0) && Knows(g0, ids) && g0.next == g.next + 1 && 0 < n && n + 1 < |g0.blocks|
            && Ok(g1) && g1.isSealed && n in Pending(g1) && g.next < g1.next
            && Ok(g2) && g2.isSealed && n + 1 in Pending(g2) && g.next < g2.next
  {
    hide Extends, GenCond, BlockFine, Emit, Finish;
    var n, res := |g.blocks|, g.next;
    NewVregGrows(g);
    NewBlocks3Via(NewVreg(g));
    OkNonempty(g);
    var g0 := NewBlocks3(NewVreg(g));
    CondFacts(e, g0, ids, n, n + 1);
    var g1 := Arm1(e, g);
    SetArmGrows(g1, n, res, 1, n + 2, Pending(g1) - {n});
  }

  lemma {:induction false} CondOnce(e: TExpr, g: Gen, ids: set<nat>, t: nat, f: nat)
    requires Ok(g) && Knows(g, ids) && ExprIn(e, ids) && Clean(g) && 0 < t < |g.blocks| && 0 < f < |g.blocks|
    ensures Kept(g, GenCond(e, g, t, f))
    decreases e, 2
  {
    hide Ok, Clean, Kept, Emit, Knows, Grows, Pending, Finish, IsTemp, SameCode, GenExpr;
    if e.mark.Some? {
      FinishKept(g, Jmp(if e.mark.value != 0 then t else f));
    } else if e.node.TLogical? {
      CondLogicalOnce(e, g, ids, t, f);
    } else if e.node.TUnary? && e.node.uop.LogNot? {
      CondOnce(e.node.operand, g, ids, f, t);
    } else {
      var (g1, v) := GenExpr(e, g);
      ExprOnce(e, g, ids);
      KeptClean(g, g1);
      FinishKept(g1, Br(v, t, f));
      KeptTrans(g, g1, GenCond(e, g, t, f));
    }
  }

  lemma {:induction false} CondLogicalOnce(e: TExpr, g: Gen, ids: set<nat>, t: nat, f: nat)
    requires Ok(g) && Knows(g, ids) && ExprIn(e, ids) && Clean(g) && 0 < t < |g.blocks| && 0 < f < |g.blocks|
    requires e.mark.None? && e.node.TLogical?
    ensures Kept(g, GenCond(e, g, t, f))
    decreases e, 1
  {
    var mid, g0 := |g.blocks|, NewBlock(g);
    var tl, fl := if e.node.isOr then t else mid, if e.node.isOr then mid else f;
    NewBlockVia(g);
    OkNonempty(g);
    SameCodeKept(g, g0);
    hide Ok, Clean, Kept, Emit, Grows, Pending, Finish, IsTemp, SameCode, GenExpr, BlockFine;
    KeptClean(g, g0);
    CondFacts(e.node.lhs, g0, ids, tl, fl);
    var g1 := GenCond(e.node.lhs, g0, tl, fl);
    StartHere(g0, g1, mid);
    CondOnce(e.node.lhs, g0, ids, tl, fl);
    KeptClean(g0, g1);
    var g2 := StartBlock(g1, mid);
    StartSame(g1, mid);
    SameCodeKept(g1, g2);
    KeptClean(g1, g2);
    CondOnce(e.node.rhs, g2, ids, t, f);
    KeptTrans(g, g0, g1);
    KeptTrans(g, g1, g2);
    KeptTrans(g, g2, GenCond(e, g, t, f));
  }

  lemma StartSame(g: Gen, id: nat)
    ensures SameCode(g, StartBlock(g, id))
  {
  }

  // ---- statements -------------------------------------------------------------------------------------

  /** A new local gets a register that no expression has. */
  lemma BindKept(g: Gen, id: nat)
    requires Ok(g) && Clean(g)
    ensures Kept(g, Bind(g, id))
  {
    hide Ok;
    NothingFresh(g);
    assert forall v :: IsTemp(Bind(g, id), v) <==> IsTemp(g, v);
  }

  /** A local's register is no expression's. */
  lemma LocalNoTemp(g: Gen, id: nat)
    requires Clean(g) && id in g.ir
    ensures !IsTemp(g, g.ir[id])
  {
    hide IsTemp;
  }

  lemma {:induction false} StmtOnce(s: TStmt, g: Gen, ids: set<nat>, lo: nat, inLoop: bool)
    requires Fits(g, ids, lo, inLoop) && StmtIn(s, ids, lo, inLoop) && Clean(g)
    ensures Kept(g, GenStmt(s, g))
    decreases s, 2
  {
    hide Ok, Clean, Kept, Emit, Grows, Pending, Finish, IsTemp, GenExpr;
    match s
    case TBlock(ss) => ListOnce(ss, g, ids, lo, inLoop);
    case TEmpty => KeptSelf(g);
    case TExprStmt(e) => ExprOnce(e, g, ids);
    case TAssign(_, _) => AssignOnce(s, g, ids, lo, inLoop);
    case TVarDecl(_, _, _) => DeclOnce(s, g, ids, lo, inLoop);
    case TIf(_, _, _) => IfOnce(s, g, ids, lo, inLoop);
    case TWhile(_, _) => WhileOnce(s, g, ids, lo, inLoop);
    case TBreak => FinishKept(g, Jmp(g.loops[|g.loops| - 1].breakBB));
    case TContinue => FinishKept(g, Jmp(g.loops[|g.loops| - 1].continueBB));
    case TReturn(None) => FinishKept(g, Ret(None));
    case TReturn(Some(e)) =>
      var (g1, v) := GenExpr(e, g);
      ExprOnce(e, g, ids);
      KeptClean(g, g1);
      FinishKept(g1, Ret(Some(v)));
      KeptTrans(g, g1, GenStmt(s, g));
  }

  lemma AssignOnce(s: TStmt, g: Gen, ids: set<nat>, lo: nat, inLoop: bool)
    requires Fits(g, ids, lo, inLoop) && StmtIn(s, ids, lo, inLoop) && Clean(g) && s.TAssign?
    ensures Kept(g, GenStmt(s, g))
  {
    hide Ok, Clean, Kept, Emit, Grows, Pending, IsTemp, GenExpr;
    var e, sym := s.value, s.sym;
    ExprFacts(e, g, ids);
    var (g1, v) := GenExpr(e, g);
    ExprOnce(e, g, ids);
    KeptClean(g, g1);
    if sym.GlobalVar? {
      NoTempBelow(g1);
      EmitKept(g1, StoreGlobal(sym.gid, v));
    } else {
      KnownVreg(g1, sym.id);
      MoveOk(v, VregOf(g1, sym.id), g1.next);
      LocalNoTemp(g1, sym.id);
      EmitKept(g1, Mv(VregOf(g1, sym.id), v));
    }
    KeptTrans(g, g1, GenStmt(s, g));
  }

  lemma DeclOnce(s: TStmt, g: Gen, ids: set<nat>, lo: nat, inLoop: bool)
    requires Fits(g, ids, lo, inLoop) && StmtIn(s, ids, lo, inLoop) && Clean(g) && s.TVarDecl?
    ensures Kept(g, GenStmt(s, g))
  {
    hide Ok, Clean, Kept, Emit, Grows, Pending, IsTemp, GenExpr;
    if s.isConst {
      KeptSelf(g);
    } else {
      BindGrows(g, s.id);
      var g0 := Bind(g, s.id);
      BindKept(g, s.id);
      KeptClean(g, g0);
      ExprFacts(s.init, g0, ids);
      var (g1, v) := GenExpr(s.init, g0);
      ExprOnce(s.init, g0, ids);
      KeptClean(g0, g1);
      MoveOk(v, g.next, g1.next);
      LocalNoTemp(g1, s.id);
      EmitKept(g1, Mv(g.next, v));
      KeptTrans(g, g0, g1);
      KeptTrans(g, g1, GenStmt(s, g));
    }
  }

  lemma {:induction false} ListOnce(ss: List<TStmt>, g: Gen, ids: set<nat>, lo: nat, inLoop: bool)
    requires Fits(g, ids, lo, inLoop) && ListIn(ss, ids, lo, inLoop) && Clean(g)
    ensures Kept(g, GenList(ss, g))
    decreases ss, 3
  {
    hide Ok, Clean, Kept, Grows, Pending, GenStmt, StmtIn;
    match ss
    case Nil => KeptSelf(g);
    case Cons(s, rest) =>
      StmtFacts(s, g, ids, lo, inLoop);
      var g1 := GenStmt(s, g);
      StmtOnce(s, g, ids, lo, inLoop);
      KeptClean(g, g1);
      ListOnce(rest, g1, Declared(s, ids), NextId(s, lo), inLoop);
      KeptTrans(g, g1, GenList(ss, g));
  }

  /** A started block, a statement, and the jump behind it. */
  lemma {:induction false} BodyOnce(s: TStmt, g: Gen, id: nat, x: nat, ids: set<nat>, lo: nat, inLoop: bool)
    requires Fits(StartBlock(g, id), ids, lo, inLoop) && StmtIn(s, ids, lo, inLoop) && Clean(g)
    ensures Kept(g, Finish(GenStmt(s, StartBlock(g, id)), Jmp(x)))
    decreases s, 3
  {
    hide Fits, Clean, Kept, GenStmt, StmtIn, Finish, SameCode;
    var a := StartBlock(g, id);
    var b := GenStmt(s, a);
    StartSame(g, id);
    SameCodeKept(g, a);
    KeptClean(g, a);
    StmtOnce(s, a, ids, lo, inLoop);
    KeptClean(a, b);
    FinishKept(b, Jmp(x));
    KeptTrans(g, a, b);
    KeptTrans(g, b, Finish(b, Jmp(x)));
  }

  lemma StartKept(g: Gen, h: Gen, id: nat)
    requires Kept(g, h)
    ensures Kept(g, StartBlock(h, id))
  {
    hide Clean, IsTemp, SameCode;
    KeptClean(g, h);
    StartSame(h, id);
    SameCodeKept(h, StartBlock(h, id));
    KeptTrans(g, h, StartBlock(h, id));
  }

  lemma {:induction false} IfOnce(s: TStmt, g: Gen, ids: set<nat>, lo: nat, inLoop: bool)
    requires Fits(g, ids, lo, inLoop) && StmtIn(s, ids, lo, inLoop) && Clean(g) && s.TIf?
    ensures Kept(g, GenStmt(s, g))
    decreases s, 1
  {
    hide Ok, Clean, Kept, Grows, Pending, IsTemp, StmtIn, GenCond, Finish;
    if s.cond.mark.Some? {
      StaticIfParts(s, ids, lo, inLoop);
      if s.cond.mark.value != 0 {
        StmtOnce(s.then_, g, ids, lo, inLoop);
      } else if s.else_.Some? {
        IdsMore(g, lo, NextId(s.then_, lo));
        StmtOnce(s.else_.value, g, ids, NextId(s.then_, lo), inLoop);
      } else {
        KeptSelf(g);
      }
    } else {
      BranchesOnce(s, g, ids, lo, inLoop);
    }
  }

  lemma If0Same(s: TStmt, g: Gen)
    requires s.TIf?
    ensures SameCode(g, If0(s, g))
  {
  }

  lemma {:induction false} BranchesOnce(s: TStmt, g: Gen, ids: set<nat>, lo: nat, inLoop: bool)
    requires Fits(g, ids, lo, inLoop) && StmtIn(s, ids, lo, inLoop) && Clean(g) && s.TIf? && s.cond.mark.None?
    ensures Kept(g, GenStmt(s, g))
    decreases s, 0
  {
    hide StmtIn;
    IfParts(s, ids, lo, inLoop);
    ThenStages(s, g, ids, lo, inLoop);
    IfIs(s, g);
    If0Same(s, g);
    hide Ok, Fits, Clean, Kept, Grows, Pending, IsTemp, GenCond, Finish, GenStmt, If0, SameCode, IfIds;
    var n, g0, g1, g2, g3 := |g.blocks|, If0(s, g), If1(s, g), If2(s, g), If3(s, g);
    SameCodeKept(g, g0);
    KeptClean(g, g0);
    CondOnce(s.cond, g0, ids, n, IfElseTarget(s, g));
    KeptClean(g0, g1);
    BodyOnce(s.then_, g1, n, n + 1, ids, lo, inLoop);
    KeptTrans(g, g0, g1);
    KeptTrans(g, g1, g2);
    if s.else_.Some? {
      ElseStages(s, g, ids, lo, inLoop);
      KeptClean(g1, g2);
      BodyOnce(s.else_.value, g2, n + 2, n + 1, Declared(s.then_, ids), NextId(s.then_, lo), inLoop);
      KeptTrans(g, g2, g3);
    }
    StartKept(g, g3, n + 1);
  }

  lemma EntryKept(g: Gen)
    requires Clean(g)
    ensures Kept(g, LoopEntry(g))
  {
    hide Clean, IsTemp;
    assert SameCode(g, LoopEntry(g));
    SameCodeKept(g, LoopEntry(g));
  }

  lemma PopKept(g: Gen, h: Gen)
    requires Kept(g, h)
    ensures Kept(g, PopLoop(h))
  {
    hide Clean, IsTemp;
    KeptClean(g, h);
    assert SameCode(h, PopLoop(h));
    SameCodeKept(h, PopLoop(h));
    KeptTrans(g, h, PopLoop(h));
  }

  lemma {:induction false} WhileOnce(s: TStmt, g: Gen, ids: set<nat>, lo: nat, inLoop: bool)
    requires Fits(g, ids, lo, inLoop) && StmtIn(s, ids, lo, inLoop) && Clean(g) && s.TWhile?
    ensures Kept(g, GenStmt(s, g))
    decreases s, 1
  {
    hide StmtIn;
    LoopParts(s, ids, lo, inLoop);
    WhileStages(s, g, ids, lo, inLoop);
    LoopIs(s, g);
    hide Ok, Fits, Clean, Kept, Grows, Pending, IsTemp, GenCond, Finish, GenStmt, LoopEntry;
    var n, g1, g2 := |g.blocks|, LoopEntry(g), AfterBody(s, g);
    EntryKept(g);
    KeptClean(g, g1);
    BodyOnce(s.body, g1, n, n + 1, ids, lo, true);
    KeptTrans(g, g1, Finish(GenStmt(s.body, StartBlock(g1, n)), Jmp(n + 1)));
    PopKept(g, Finish(GenStmt(s.body, StartBlock(g1, n)), Jmp(n + 1)));
    StartKept(g, g2, n + 1);
    var gc := StartBlock(g2, n + 1);
    KeptClean(g, gc);
    CondOnce(s.cond, gc, ids, n, n + 2);
    KeptTrans(g, gc, GenCond(s.cond, gc, n, n + 2));
    StartKept(g, GenCond(s.cond, gc, n, n + 2), n + 2);
  }

  // ---- functions ------------------------------------------------------------------------------------------

  lemma BeginClean(f: TFunc)
    ensures Clean(GenBegin(f))
  {
  }

  lemma CleanDisciplined(g: Gen, f: Func)
    requires Clean(g) && f.blocks == g.blocks && FuncOk(f)
    ensures FuncWritten(f) && Disciplined(f)
  {
    forall b | 0 <= b < |f.blocks| ensures AllWritten(f.blocks[b].insts) && WrittenOnce(f.blocks[b].insts) {
      assert BlockOk(f.blocks[b], |f.blocks|, f.numVregs);
      var code := f.blocks[b].insts;
      forall k | 0 <= k < |code| ensures Written(code[k]) {
        assert InstOk(code[k], f.numVregs);
      }
      forall j, k | 0 <= k < j < |code| && Expression(code[k]) ensures Def(code[j]) != code[k].dst {
        assert Def(g.blocks[b].insts[j]) != g.blocks[b].insts[k].dst;
      }
    }
  }

  /**
   * Every temporary has one definition in the whole function: no other instruction
   * of any block writes it, its own does not read it, and it is no parameter.
   */
  ghost predicate OneDefinition(f: Func) {
    && (forall b, k, c, j | 0 <= b < |f.blocks| && 0 <= k < |f.blocks[b].insts| && Temp(f.blocks[b].insts[k])
                            && 0 <= c < |f.blocks| && 0 <= j < |f.blocks[c].insts| && (b != c || k != j) ::
          Def(f.blocks[c].insts[j]) != f.blocks[b].insts[k].dst)
    && (forall b, k | 0 <= b < |f.blocks| && 0 <= k < |f.blocks[b].insts| && Temp(f.blocks[b].insts[k]) ::
          f.blocks[b].insts[k].dst !in Uses(f.blocks[b].insts[k])
          && forall i | 0 <= i < |f.params| :: f.blocks[b].insts[k].dst != f.params[i])
  }

  ghost predicate IsLocal(g: Gen, r: nat) {
    exists x :: x in g.ir && g.ir[x] == r
  }

  lemma CleanOnce(g: Gen, f: Func)
    requires Clean(g) && f.blocks == g.blocks
    requires forall i | 0 <= i < |f.params| :: IsLocal(g, f.params[i])
    ensures OneDefinition(f)
  {
    forall b, k, i | 0 <= b < |f.blocks| && 0 <= k < |f.blocks[b].insts| && Temp(f.blocks[b].insts[k]) && 0 <= i < |f.params|
      ensures f.blocks[b].insts[k].dst != f.params[i]
    {
      assert IsLocal(g, f.params[i]);
      var x :| x in g.ir && g.ir[x] == f.params[i];
      assert IsTemp(g, g.blocks[b].insts[k].dst);
    }
  }

  /** The parameters keep their registers to the end. */
  lemma ParamsKept(f: TFunc)
    requires FuncIn(f)
    ensures forall i | 0 <= i < |f.params| :: f.params[i] in GenBody(f).ir && GenBody(f).ir[f.params[i]] == i
  {
    hide GenBody, BlockFine, Pending;
    GenBodyGrows(f);
    ParamMapLookup(f.params);
  }

  /** In every lowered function each temporary has one definition; only moves share destinations. */
  lemma GenFuncDisciplined(f: TFunc)
    requires FuncIn(f)
    ensures OneDefinition(GenFunc(f))
    ensures FuncWritten(GenFunc(f)) && Disciplined(GenFunc(f))
  {
    ParamsKept(f);
    hide BodyIn, Clean, Kept, Fits, GenList, GenBegin, Finish, FuncOk, Disciplined, FuncWritten, GenBody, OneDefinition;
    GenFuncWellFormed(f);
    NameKept(f);
    var lo := LowBound(f);
    BeginFits(f, lo);
    BeginClean(f);
    var ids := set i | 0 <= i < |f.params| :: f.params[i];
    ListOnce(f.body, GenBegin(f), ids, lo, false);
    var g := GenList(f.body, GenBegin(f));
    KeptClean(GenBegin(f), g);
    BodyClean(f, g);
    CleanDisciplined(GenBody(f), GenFunc(f));
    forall i | 0 <= i < |GenFunc(f).params| ensures IsLocal(GenBody(f), GenFunc(f).params[i]) {
      assert f.params[i] in GenBody(f).ir;
    }
    CleanOnce(GenBody(f), GenFunc(f));
  }

  lemma BodyClean(f: TFunc, g: Gen)
    requires g == GenList(f.body, GenBegin(f)) && Clean(g)
    ensures Clean(GenBody(f))
  {
    hide Clean, Kept, GenList, GenBegin, Finish;
    var t := Ret(if f.returnsVoid then None else Some(Imm(0)));
    FinishKept(g, t);
    KeptClean(g, Finish(g, t));
  }

  /** Common subexpression elimination is right for every lowered program. */
  lemma CseAfterLowering(t: TModule, name: string, args: seq<i32>, gl: seq<i32>, d: nat, k: nat)
    requires forall i | 0 <= i < |t.funcs| :: FuncIn(t.funcs[i])
    ensures ModuleDisciplined(Generate(t))
    ensures Refines(RunFunc(Generate(t), name, args, gl, d, k), RunFunc(CseModule(Generate(t)), name, args, gl, d, k))
  {
    hide FuncIn, GenFunc, Disciplined, FuncWritten, RunFunc, CseFuncs;
    LoweredDisciplined(t.funcs);
    CseRefines(Generate(t), name, args, gl, d, k);
  }

  lemma {:induction false} LoweredDisciplined(fs: seq<TFunc>)
    requires forall i | 0 <= i < |fs| :: FuncIn(fs[i])
    ensures forall i | 0 <= i < |GenFuncs(fs)| :: FuncWritten(GenFuncs(fs)[i]) && Disciplined(GenFuncs(fs)[i])
  {
    hide FuncIn, GenFunc, Disciplined, FuncWritten;
    if fs != [] {
      GenFuncDisciplined(fs[0]);
      LoweredDisciplined(fs[1..]);
      var r := GenFuncs(fs);
      forall i | 0 <= i < |r| ensures FuncWritten(r[i]) && Disciplined(r[i]) {
        if i > 0 { assert r[i] == GenFuncs(fs[1..])[i - 1]; }
      }
    }
  }
}
