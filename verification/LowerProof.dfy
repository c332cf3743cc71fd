/** Lowering preserves meaning: what a run of the tree yields, a run of the IR yields. */
module LowerProof {
  import opened Word32
  import opened IR
  import opened Ast
  import opened Typed
  import opened Lower
  import opened LowerShape

  /** A function under lowering: the module it is in, its finished form, and the calls left. */
  datatype Ctx = Ctx(fs: seq<TFunc>, m: Module, fin: Gen, f: Func, d: nat)

  /** The IR module is the lowered one, and this is one of its functions. */
  ghost predicate CtxOk(c: Ctx) {
    && c.m.funcs == GenFuncs(c.fs) && (forall i | 0 <= i < |c.fs| :: FuncIn(c.fs[i]))
    && c.f.blocks == c.fin.blocks && MapFine(c.fin.ir, c.fin.next)
  }

  // ---- positions in the graph -----------------------------------------------------------------

  datatype Pos = Pos(b: nat, j: nat)

  function Here(g: Gen): Pos {
    Pos(g.cur, |CurBlock(g).insts|)
  }

  /** Execution from the position returns r. */
  ghost predicate Comes(c: Ctx, p: Pos, s: State, r: Result) {
    && p.b < |c.f.blocks| && p.j <= |c.f.blocks[p.b].insts|
    && exists k: nat :: RunFrom(c.m, c.f, c.f.blocks[p.b].insts[p.j..], c.f.blocks[p.b].term, s, c.d, k) == Done(r)
  }

  /** Being at `p` with `s` is as good as being at `p'` with `s'`. */
  ghost predicate Leads(c: Ctx, p: Pos, s: State, p': Pos, s': State) {
    forall r | Comes(c, p', s', r) :: Comes(c, p, s, r)
  }

  lemma LeadsSelf(c: Ctx, p: Pos, s: State)
    ensures Leads(c, p, s, p, s)
  {
  }

  lemma LeadsTo(c: Ctx, p: Pos, s: State, p1: Pos, s1: State, p2: Pos, s2: State)
    requires Leads(c, p, s, p1, s1) && Leads(c, p1, s1, p2, s2)
    ensures Leads(c, p, s, p2, s2)
  {
    hide Comes;
  }

  /** One instruction of the finished graph. */
  lemma InstLeads(c: Ctx, p: Pos, s: State, s': State, k0: nat)
    requires p.b < |c.f.blocks| && p.j < |c.f.blocks[p.b].insts|
    requires ExecInst(c.m, c.f.blocks[p.b].insts[p.j], s, c.d, k0) == Done(s')
    ensures Leads(c, p, s, Pos(p.b, p.j + 1), s')
  {
    hide ExecInst;
    var B := c.f.blocks[p.b];
    forall r | Comes(c, Pos(p.b, p.j + 1), s', r) ensures Comes(c, p, s, r) {
      var k: nat :| RunFrom(c.m, c.f, B.insts[p.j + 1..], B.term, s', c.d, k) == Done(r);
      RunFromMonotone(c.m, c.f, B.insts[p.j + 1..], B.term, s', c.d, c.d, k, k + k0);
      ExecInstMonotone(c.m, B.insts[p.j], s, c.d, c.d, k0, k + k0);
      RunFromStep(c.m, c.f, B.insts[p.j..], B.term, s, c.d, k + k0);
      assert B.insts[p.j..][1..] == B.insts[p.j + 1..];
      assert RunFrom(c.m, c.f, B.insts[p.j..], B.term, s, c.d, k + k0) == Done(r);
    }
  }

  lemma RunFromStep(m: Module, f: Func, code: seq<Inst>, t: Term, s: State, d: nat, k: nat)
    requires code != [] && ExecInst(m, code[0], s, d, k).Done?
    ensures RunFrom(m, f, code, t, s, d, k) == RunFrom(m, f, code[1..], t, ExecInst(m, code[0], s, d, k).value, d, k)
  {
    hide ExecInst, RunBlock;
  }

  /** The target of a terminator, when it has one. */
  function Target(t: Term, s: State): Option<nat> {
    match t
    case Jmp(x) => Some(x)
    case Br(v, x, y) =>
      var n := Read(v, s.regs);
      if n.None? then None else Some(if n.value != 0 then x else y)
    case _ => None
  }

  /** The end of a block. */
  lemma EndLeads(c: Ctx, p: Pos, s: State)
    requires p.b < |c.f.blocks| && p.j == |c.f.blocks[p.b].insts| && Target(c.f.blocks[p.b].term, s).Some?
    ensures Leads(c, p, s, Pos(Target(c.f.blocks[p.b].term, s).value, 0), s)
  {
    var B := c.f.blocks[p.b];
    var x := Target(B.term, s).value;
    assert B.insts[p.j..] == [];
    forall r | Comes(c, Pos(x, 0), s, r) ensures Comes(c, p, s, r) {
      var X := c.f.blocks[x];
      assert X.insts[0..] == X.insts;
      var k: nat :| RunFrom(c.m, c.f, X.insts[0..], X.term, s, c.d, k) == Done(r);
      assert RunFrom(c.m, c.f, [], B.term, s, c.d, k + 1) == RunBlock(c.m, c.f, x, s, c.d, k);
    }
  }

  lemma RetComes(c: Ctx, p: Pos, s: State)
    requires p.b < |c.f.blocks| && p.j == |c.f.blocks[p.b].insts| && c.f.blocks[p.b].term.Ret?
    requires var v := c.f.blocks[p.b].term.val; v.Some? ==> Read(v.value, s.regs).Some?
    ensures var v := c.f.blocks[p.b].term.val;
            Comes(c, p, s, Result(if v.Some? then Read(v.value, s.regs) else None, s.globals))
  {
    var B := c.f.blocks[p.b];
    assert B.insts[p.j..] == [];
    var v := B.term.val;
    assert RunFrom(c.m, c.f, [], B.term, s, c.d, 0) == Done(Result(if v.Some? then Read(v.value, s.regs) else None, s.globals));
  }

  // ---- positions and the generator -----------------------------------------------------------------

  /** The instruction just emitted is in the finished block. */
  lemma EmittedAt(c: Ctx, g: Gen, i: Inst)
    requires CtxOk(c) && Ok(g) && !g.isSealed && InstOk(i, g.next) && Extends(Emit(g, i), c.fin)
    ensures var p := Here(g);
            && p.b < |c.f.blocks| && p.j < |c.f.blocks[p.b].insts| && c.f.blocks[p.b].insts[p.j] == i
            && Here(Emit(g, i)) == Pos(p.b, p.j + 1)
  {
    hide Ok, BlockFine, Emit, FuncIn;
    EmitGrows(g, i);
    OkCur(g);
    OkCur(Emit(g, i));
    var h := Emit(g, i);
    assert Grown(h.blocks[g.cur], c.fin.blocks[g.cur]);
  }

  lemma OkCur(g: Gen)
    requires Ok(g) && !g.isSealed
    ensures g.cur < |g.blocks| && g.blocks[g.cur].term.Open?
  {
  }

  /** The block just finished is the finished block. */
  lemma FinishedAt(c: Ctx, g: Gen, t: Term)
    requires CtxOk(c) && Ok(g) && !g.isSealed && !t.Open? && Extends(Finish(g, t), c.fin)
    ensures var p := Here(g);
            && p.b < |c.f.blocks| && p.j == |c.f.blocks[p.b].insts| && c.f.blocks[p.b].term == t
  {
    hide BlockFine, FuncIn;
    var h := Finish(g, t);
    assert Grown(h.blocks[g.cur], c.fin.blocks[g.cur]);
  }

  lemma EmitLeads(c: Ctx, g: Gen, i: Inst, s: State, s': State, k0: nat)
    requires CtxOk(c) && Ok(g) && !g.isSealed && InstOk(i, g.next) && Extends(Emit(g, i), c.fin)
    requires ExecInst(c.m, i, s, c.d, k0) == Done(s')
    ensures Leads(c, Here(g), s, Here(Emit(g, i)), s')
  {
    hide Ok, Emit, ExecInst, Leads, Extends, FuncIn;
    EmittedAt(c, g, i);
    InstLeads(c, Here(g), s, s', k0);
  }

  lemma FinishLeads(c: Ctx, g: Gen, t: Term, s: State)
    requires CtxOk(c) && Ok(g) && !g.isSealed && !t.Open? && Extends(Finish(g, t), c.fin) && Target(t, s).Some?
    ensures Leads(c, Here(g), s, Pos(Target(t, s).value, 0), s)
  {
    hide Ok, Finish, Leads, Extends, FuncIn;
    FinishedAt(c, g, t);
    EndLeads(c, Here(g), s);
  }

  // ---- states --------------------------------------------------------------------------------------

  /** The IR state holds the store. */
  ghost predicate Matches(c: Ctx, s: State, st: Store) {
    && s.globals == st.globals
    && forall x | x in st.locals ::
         x in c.fin.ir && c.fin.ir[x] in s.regs && s.regs[c.fin.ir[x]] == st.locals[x]
  }

  /** The states differ in registers from lo on and below hi only. */
  ghost predicate Between(s: State, s': State, lo: nat, hi: nat) {
    forall v: nat | v < lo || v >= hi ::
      (v in s.regs <==> v in s'.regs) && (v in s.regs ==> s'.regs[v] == s.regs[v])
  }

  /** No local lives in the registers from lo on and below hi. */
  ghost predicate NoLocals(ir: map<nat, nat>, lo: nat, hi: nat) {
    forall x | x in ir :: ir[x] < lo || ir[x] >= hi
  }

  /** What an expression's code allocates belongs to no local. */
  lemma OwnRegisters(c: Ctx, g: Gen, h: Gen)
    requires Ok(g) && h.ir == g.ir && Extends(g, h) && Extends(h, c.fin)
    ensures NoLocals(c.fin.ir, g.next, h.next)
  {
    forall x | x in c.fin.ir ensures c.fin.ir[x] < g.next || c.fin.ir[x] >= h.next {
      if x in h.ir { assert g.ir[x] < g.next; }
    }
  }

  lemma MatchesKept(c: Ctx, s: State, s': State, st: Store, lo: nat, hi: nat)
    requires Matches(c, s, st) && Between(s, s', lo, hi) && NoLocals(c.fin.ir, lo, hi)
    ensures Matches(c, s', st.(globals := s'.globals))
  {
  }

  lemma BetweenTrans(a: State, b: State, c: State, lo: nat, mid: nat, hi: nat)
    requires Between(a, b, lo, mid) && Between(b, c, mid, hi) && lo <= mid <= hi
    ensures Between(a, c, lo, hi)
  {
  }

  /** An operand below the range that is written keeps its value. */
  lemma ReadKept(v: Val, s: State, s': State, lo: nat, hi: nat)
    requires ValOk(v, lo) && Between(s, s', lo, hi)
    ensures Read(v, s'.regs) == Read(v, s.regs)
  {
    if v.Reg? { assert v.reg in ValUses(v); }
  }

  /** What an expression's code promises. */
  ghost predicate Valued(c: Ctx, g: Gen, h: Gen, v: Val, s: State, s': State, st: Store, x: Result) {
    && Leads(c, Here(g), s, Here(h), s')
    && Matches(c, s', st.(globals := x.globals))
    && Between(s, s', g.next, h.next)
    && (x.val.Some? ==> Read(v, s'.regs) == x.val)
  }

  /** An operation on operands that are ready, into a fresh register. */
  lemma EmitToValued(c: Ctx, g: Gen, i: Inst, s: State, s': State, st: Store, n: i32, k0: nat)
    requires CtxOk(c) && Ok(g) && !g.isSealed && InstOk(i, g.next + 1) && Extends(EmitTo(g, i).0, c.fin)
    requires Matches(c, s, st) && ExecInst(c.m, i, s, c.d, k0) == Done(s')
    requires s'.regs == s.regs[g.next := n]
    ensures Valued(c, g, EmitTo(g, i).0, EmitTo(g, i).1, s, s', st, Result(Some(n), s'.globals))
  {
    hide Ok, Emit, ExecInst, Leads, FuncIn, Extends;
    NewVregGrows(g);
    var a := NewVreg(g);
    EmitToGrows(g, i);
    EmitLeads(c, a, i, s, s', k0);
    var h := EmitTo(g, i).0;
    GrowsExtends(g, h);
    OwnRegisters(c, g, h);
    MatchesKept(c, s, s', st, g.next, h.next);
  }

  lemma GrowsExtends(g: Gen, h: Gen)
    requires Grows(g, h)
    ensures Extends(g, h) && Ok(h)
  {
  }

  lemma ValuedThen(c: Ctx, g: Gen, g1: Gen, h: Gen, v1: Val, v: Val, s: State, s1: State, s': State,
                   st: Store, x1: Result, x: Result)
    requires Valued(c, g, g1, v1, s, s1, st, x1) && g.next <= g1.next <= h.next
    requires Valued(c, g1, h, v, s1, s', st.(globals := x1.globals), x)
    ensures Valued(c, g, h, v, s, s', st, x)
  {
    hide Leads;
    LeadsTo(c, Here(g), s, Here(g1), s1, Here(h), s');
    BetweenTrans(s, s1, s', g.next, g1.next, h.next);
  }
}
