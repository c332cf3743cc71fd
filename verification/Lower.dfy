/** Lowering the annotated tree to the control-flow IR. */
module Lower {
  import opened Word32
  import opened IR
  import opened Ast
  import opened Typed

  datatype Loop = Loop(continueBB: nat, breakBB: nat)

  /**
   * The generator's fields: the blocks so far, the current one and whether it has
   * its terminator, the next virtual register, the registers of the locals, and
   * the enclosing loops.
   */
  datatype Gen = Gen(blocks: seq<Block>, cur: nat, isSealed: bool, next: nat, ir: map<nat, nat>, loops: seq<Loop>)

  function NewBlock(g: Gen): Gen {
    g.(blocks := g.blocks + [Block([], Open)])
  }

  function StartBlock(g: Gen, id: nat): Gen {
    g.(cur := id, isSealed := false)
  }

  /** Code behind a terminator goes to a fresh, unreachable block. */
  function EnsureOpen(g: Gen): Gen {
    if g.isSealed then StartBlock(NewBlock(g), |g.blocks|) else g
  }

  function EditBlock(g: Gen, b: nat, B: Block): Gen {
    if b < |g.blocks| then g.(blocks := g.blocks[b := B]) else g
  }

  function CurBlock(g: Gen): Block {
    if g.cur < |g.blocks| then g.blocks[g.cur] else Block([], Open)
  }

  function Emit(g: Gen, i: Inst): Gen {
    var o := EnsureOpen(g);
    EditBlock(o, o.cur, Block(CurBlock(o).insts + [i], CurBlock(o).term))
  }

  /** `termJmp`, `termBr` and `termRet`. */
  function Finish(g: Gen, t: Term): Gen {
    var o := EnsureOpen(g);
    EditBlock(o, o.cur, Block(CurBlock(o).insts, t)).(isSealed := true)
  }

  function NewVreg(g: Gen): Gen {
    g.(next := g.next + 1)
  }

  /** The virtual register of a local. */
  function VregOf(g: Gen, id: nat): nat {
    if id in g.ir then g.ir[id] else 0
  }

  function PushLoop(g: Gen, l: Loop): Gen {
    g.(loops := g.loops + [l])
  }

  function PopLoop(g: Gen): Gen {
    if g.loops == [] then g else g.(loops := g.loops[..|g.loops| - 1])
  }

  /** An instruction whose result goes to a fresh register. */
  function EmitTo(g: Gen, i: Inst): (Gen, Val) {
    (Emit(NewVreg(g), i), Reg(g.next))
  }

  function GenExpr(e: TExpr, g: Gen): (Gen, Val)
    decreases e, if e.node.TLogical? then 2 else 0
  {
    if e.mark.Some? then (g, Imm(e.mark.value))
    else
      match e.node
      case TNumber(_) => (g, Imm(0))
      case TVar(sym) =>
        if sym.GlobalVar? then EmitTo(g, LoadGlobal(g.next, sym.gid))
        else (g, Reg(if sym.LocalVar? then VregOf(g, sym.id) else 0))
      case TBinary(op, l, r) =>
        var (g1, la) := GenExpr(l, g);
        var (g2, lb) := GenExpr(r, g1);
        EmitTo(g2, Bin(op, g2.next, la, lb, -1, false))
      case TUnary(op, a) =>
        var (g1, v) := GenExpr(a, g);
        if op.Plus? then (g1, v)
        else EmitTo(g1, Un(if op.Minus? then Neg else Not, g1.next, v))
      case TLogical(_, _, _) =>
        var res, n := g.next, |g.blocks|;
        var g1 := GenCond(e, NewBlock(NewBlock(NewBlock(NewVreg(g)))), n, n + 1);
        var g2 := Finish(Emit(StartBlock(g1, n), Mv(res, Imm(1))), Jmp(n + 2));
        var g3 := Finish(Emit(StartBlock(g2, n + 1), Mv(res, Imm(0))), Jmp(n + 2));
        (StartBlock(g3, n + 2), Reg(res))
      case TCall(callee, returnsVoid, args) =>
        var (g1, vs) := GenArgs(args, g);
        if returnsVoid then (Emit(g1, Call(-1, callee, vs)), Imm(0))
        else EmitTo(g1, Call(g1.next, callee, vs))
  }

  function GenArgs(es: List<TExpr>, g: Gen): (r: (Gen, seq<Val>))
    decreases es, 0
  {
    match es
    case Nil => (g, [])
    case Cons(e, rest) =>
      var (g1, v) := GenExpr(e, g);
      var (g2, vs) := GenArgs(rest, g1);
      (g2, [v] + vs)
  }

  /** Code that goes to block t when e holds and to block f when it does not. */
  function GenCond(e: TExpr, g: Gen, t: nat, f: nat): Gen
    decreases e, 1
  {
    if e.mark.Some? then Finish(g, Jmp(if e.mark.value != 0 then t else f))
    else if e.node.TLogical? then
      var mid := |g.blocks|;
      var g1 := if e.node.isOr then GenCond(e.node.lhs, NewBlock(g), t, mid) else GenCond(e.node.lhs, NewBlock(g), mid, f);
      GenCond(e.node.rhs, StartBlock(g1, mid), t, f)
    else if e.node.TUnary? && e.node.uop.LogNot? then GenCond(e.node.operand, g, f, t)
    else
      var (g1, v) := GenExpr(e, g);
      Finish(g1, Br(v, t, f))
  }

  function GenStmt(s: TStmt, g: Gen): Gen {
    match s
    case TBlock(ss) => GenList(ss, g)
    case TEmpty => g
    case TExprStmt(e) => GenExpr(e, g).0
    case TAssign(sym, e) =>
      var (g1, v) := GenExpr(e, g);
      if sym.GlobalVar? then Emit(g1, StoreGlobal(sym.gid, v))
      else Emit(g1, Mv(if sym.LocalVar? then VregOf(g1, sym.id) else 0, v))
    case TVarDecl(isConst, id, e) =>
      if isConst then g
      else
        var (g1, v) := GenExpr(e, NewVreg(g).(ir := g.ir[id := g.next]));
        Emit(g1, Mv(g.next, v))
    case TIf(c, t, e) =>
      if c.mark.Some? then
        if c.mark.value != 0 then GenStmt(t, g)
        else if e.Some? then GenStmt(e.value, g)
        else g
      else
        var n := |g.blocks|;
        var g0 := NewBlock(NewBlock(g));
        var g1 := GenCond(c, if e.Some? then NewBlock(g0) else g0, n, if e.Some? then n + 2 else n + 1);
        var g2 := Finish(GenStmt(t, StartBlock(g1, n)), Jmp(n + 1));
        var g3 := if e.Some? then Finish(GenStmt(e.value, StartBlock(g2, n + 2)), Jmp(n + 1)) else g2;
        StartBlock(g3, n + 1)
    case TWhile(c, b) =>
      var n := |g.blocks|;
      var g1 := PushLoop(Finish(NewBlock(NewBlock(NewBlock(g))), Jmp(n + 1)), Loop(n + 1, n + 2));
      var g2 := PopLoop(Finish(GenStmt(b, StartBlock(g1, n)), Jmp(n + 1)));
      StartBlock(GenCond(c, StartBlock(g2, n + 1), n, n + 2), n + 2)
    case TBreak => if g.loops == [] then g else Finish(g, Jmp(g.loops[|g.loops| - 1].breakBB))
    case TContinue => if g.loops == [] then g else Finish(g, Jmp(g.loops[|g.loops| - 1].continueBB))
    case TReturn(None) => Finish(g, Ret(None))
    case TReturn(Some(e)) =>
      var (g1, v) := GenExpr(e, g);
      Finish(g1, Ret(Some(v)))
  }

  function GenList(ss: List<TStmt>, g: Gen): Gen {
    match ss
    case Nil => g
    case Cons(s, rest) => GenList(rest, GenStmt(s, g))
  }

  // ---- functions and modules ---------------------------------------------------------

  /** The registers of the parameters: 0, 1, and so on. */
  function ParamVregs(n: nat): seq<nat> {
    seq(n, i => i)
  }

  function ParamMap(params: seq<nat>): map<nat, nat> {
    if params == [] then map[] else ParamMap(params[..|params| - 1])[params[|params| - 1] := |params| - 1]
  }

  function GenBegin(f: TFunc): Gen {
    Gen([Block([], Open)], 0, false, |f.params|, ParamMap(f.params), [])
  }

  function GenEnd(g: Gen, returnsVoid: bool): Gen {
    if g.isSealed then g else Finish(g, Ret(if returnsVoid then None else Some(Imm(0))))
  }

  function GenBody(f: TFunc): Gen {
    GenEnd(GenList(f.body, GenBegin(f)), f.returnsVoid)
  }

  function GenFunc(f: TFunc): Func {
    var g := GenBody(f);
    Func(f.name, f.returnsVoid, ParamVregs(|f.params|), g.blocks, g.next)
  }

  function GenFuncs(fs: seq<TFunc>): seq<Func> {
    if fs == [] then [] else [GenFunc(fs[0])] + GenFuncs(fs[1..])
  }

  function Generate(m: TModule): Module {
    Module(m.globals, GenFuncs(m.funcs))
  }
}
