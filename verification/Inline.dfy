/**
 * Inlining of calls to single-block functions: the callee's registers are moved
 * above the caller's, arguments and result are moved, and the call is gone.
 */
module Inline {
  import opened Word32
  import opened IR
  import opened Cse
  import opened Discipline
  import Magic

  // ---- the copy of a callee ------------------------------------------------------------------

  function InstCount(f: Func): nat {
    Count(f.blocks)
  }

  function Count(bs: seq<Block>): nat {
    if bs == [] then 0 else |bs[0].insts| + Count(bs[1..])
  }

  predicate Inlinable(g: Func) {
    |g.blocks| == 1 && g.blocks[0].term.Ret? && g.name != "main" && InstCount(g) <= 24
  }

  function CloneVal(v: Val, base: nat): Val {
    if v.Reg? then Reg(v.reg + base) else v
  }

  function CloneVals(vs: seq<Val>, base: nat): (r: seq<Val>)
    ensures |r| == |vs| && forall k | 0 <= k < |vs| :: r[k] == CloneVal(vs[k], base)
  {
    if vs == [] then [] else [CloneVal(vs[0], base)] + CloneVals(vs[1..], base)
  }

  function CloneDst(d: int, base: nat): int {
    if d >= 0 then d + base else d
  }

  /** `cloneInst`; hints are copied as they are. */
  function CloneInst(i: Inst, base: nat): Inst {
    match i
    case Bin(op, d, a, b, h, u) => Bin(op, CloneDst(d, base), CloneVal(a, base), CloneVal(b, base), h, u)
    case Un(op, d, a) => Un(op, CloneDst(d, base), CloneVal(a, base))
    case Mv(d, a) => Mv(CloneDst(d, base), CloneVal(a, base))
    case LoadGlobal(d, g) => LoadGlobal(CloneDst(d, base), g)
    case StoreGlobal(g, a) => StoreGlobal(g, CloneVal(a, base))
    case Call(d, callee, args) => Call(CloneDst(d, base), callee, CloneVals(args, base))
  }

  function CloneCode(code: seq<Inst>, base: nat): (r: seq<Inst>)
    ensures |r| == |code| && forall k | 0 <= k < |code| :: r[k] == CloneInst(code[k], base)
  {
    if code == [] then [] else [CloneInst(code[0], base)] + CloneCode(code[1..], base)
  }

  /** The arguments into the copies of the first n parameters. */
  function ArgMoves(params: seq<nat>, args: seq<Val>, n: nat, base: nat): (r: seq<Inst>)
    requires n <= |params| == |args|
    ensures |r| == n && forall k | 0 <= k < n :: r[k] == Mv(params[k] + base, args[k])
  {
    if n == 0 then [] else ArgMoves(params, args, n - 1, base) + [Mv(params[n - 1] + base, args[n - 1])]
  }

  function ResultMove(d: int, v: Option<Val>, base: nat): seq<Inst> {
    if d >= 0 && v.Some? then [Mv(d, CloneVal(v.value, base))] else []
  }

  /** What a call of g becomes. */
  function Inlined(i: Inst, g: Func, base: nat): seq<Inst>
    requires i.Call? && Inlinable(g) && |i.args| == |g.params|
  {
    ArgMoves(g.params, i.args, |i.args|, base) + CloneCode(g.blocks[0].insts, base) + ResultMove(i.dst, g.blocks[0].term.val, base)
  }

  predicate NoHintsIn(code: seq<Inst>) {
    forall k | 0 <= k < |code| && code[k].Bin? :: code[k].magicVreg < 0
  }

  predicate NoHints(f: Func) {
    forall b | 0 <= b < |f.blocks| :: NoHintsIn(f.blocks[b].insts)
  }

  // ---- one call -------------------------------------------------------------------------------

  /** Every call within fewer than d nested calls that returns, returns the same in m'. */
  ghost predicate CallsReturn(m: Module, m': Module, d: nat) {
    forall e: nat, name, args, g, k: nat | e < d && RunFunc(m, name, args, g, e, k).Done? ::
      RunFunc(m', name, args, g, e, k) == RunFunc(m, name, args, g, e, k)
  }

  /** The registers below n are the same. */
  ghost predicate Keeps(n: nat, r: Regs, r': Regs) {
    forall v: nat | v < n :: (v in r <==> v in r') && (v in r ==> r'[v] == r[v])
  }

  /** The callee's registers are in the caller's, `base` higher. */
  ghost predicate Image(base: nat, r: Regs, r': Regs) {
    forall v: nat | v in r :: v + base in r' && r'[v + base] == r[v]
  }

  lemma KeepsTrans(n: nat, a: Regs, b: Regs, c: Regs)
    requires Keeps(n, a, b) && Keeps(n, b, c)
    ensures Keeps(n, a, c)
  {
  }

  lemma ReadKept(v: Val, n: nat, r: Regs, r': Regs)
    requires Keeps(n, r, r') && forall x | x in ValUses(v) :: x < n
    ensures Read(v, r') == Read(v, r)
  {
    if v.Reg? { assert v.reg in ValUses(v); }
  }

  lemma ReadImage(v: Val, base: nat, r: Regs, r': Regs)
    requires Image(base, r, r') && Read(v, r).Some?
    ensures Read(CloneVal(v, base), r') == Read(v, r)
  {
  }

  lemma {:induction false} ReadAllImage(vs: seq<Val>, base: nat, r: Regs, r': Regs)
    requires Image(base, r, r') && ReadAll(vs, r).Some?
    ensures ReadAll(CloneVals(vs, base), r') == ReadAll(vs, r)
  {
    if vs != [] {
      ReadImage(vs[0], base, r, r');
      ReadAllImage(vs[1..], base, r, r');
      assert CloneVals(vs, base)[1..] == CloneVals(vs[1..], base);
    }
  }

  lemma {:induction false} ReadAllAt(vs: seq<Val>, r: Regs, k: nat)
    requires ReadAll(vs, r).Some? && k < |vs|
    ensures |ReadAll(vs, r).value| == |vs| && Read(vs[k], r) == Some(ReadAll(vs, r).value[k])
  {
    if k > 0 { ReadAllAt(vs[1..], r, k - 1); } else if |vs| > 1 { ReadAllAt(vs[1..], r, 0); }
  }

  /** One instruction of the copy. */
  lemma PlainCloned(i: Inst, base: nat, s: State, s': State)
    requires !i.Call? && (i.Bin? ==> i.magicVreg < 0) && ExecPlain(i, s).Done?
    requires Image(base, s.regs, s'.regs) && s'.globals == s.globals
    ensures ExecPlain(CloneInst(i, base), s').Done?
    ensures var t, t' := ExecPlain(i, s).value, ExecPlain(CloneInst(i, base), s').value;
            Image(base, t.regs, t'.regs) && t'.globals == t.globals && Keeps(base, s'.regs, t'.regs)
  {
    hide EvalBin, EvalUn, Magic.NeedsMagic, MagicFor, TDiv, Magic.UnsignedExact;
    match i
    case Bin(_, _, a, b, _, _) =>
      ReadImage(a, base, s.regs, s'.regs);
      ReadImage(b, base, s.regs, s'.regs);
    case Un(_, _, a) => ReadImage(a, base, s.regs, s'.regs);
    case Mv(_, a) => ReadImage(a, base, s.regs, s'.regs);
    case LoadGlobal(_, _) =>
    case StoreGlobal(_, a) => ReadImage(a, base, s.regs, s'.regs);
  }

  /** A call in the copy has one more level of depth to run in. */
  lemma CallCloned(m: Module, m': Module, i: Inst, base: nat, s: State, s': State, d: nat, k: nat)
    requires i.Call? && d > 0 && CallsReturn(m, m', d) && ExecInst(m, i, s, d - 1, k).Done?
    requires Image(base, s.regs, s'.regs) && s'.globals == s.globals
    ensures ExecInst(m', CloneInst(i, base), s', d, k).Done?
    ensures var t, t' := ExecInst(m, i, s, d - 1, k).value, ExecInst(m', CloneInst(i, base), s', d, k).value;
            Image(base, t.regs, t'.regs) && t'.globals == t.globals && Keeps(base, s'.regs, t'.regs)
  {
    hide RunFunc;
    ReadAllImage(i.args, base, s.regs, s'.regs);
    var xs := ReadAll(i.args, s.regs).value;
    RunFuncMonotone(m, i.callee, xs, s.globals, d - 2, d - 1, k, k);
    assert RunFunc(m', i.callee, xs, s.globals, d - 1, k) == RunFunc(m, i.callee, xs, s.globals, d - 1, k);
  }

  lemma {:induction false} CodeCloned(m: Module, m': Module, code: seq<Inst>, base: nat, s: State, s': State, d: nat, k: nat)
    requires d > 0 && CallsReturn(m, m', d) && NoHintsIn(code) && ExecInsts(m, code, s, d - 1, k).Done?
    requires Image(base, s.regs, s'.regs) && s'.globals == s.globals
    ensures ExecInsts(m', CloneCode(code, base), s', d, k).Done?
    ensures var t, t' := ExecInsts(m, code, s, d - 1, k).value, ExecInsts(m', CloneCode(code, base), s', d, k).value;
            Image(base, t.regs, t'.regs) && t'.globals == t.globals && Keeps(base, s'.regs, t'.regs)
    decreases |code|
  {
    hide CallsReturn, RunFunc, ExecPlain, Image, CloneInst, Keeps;
    if code == [] {
      KeepsSelf(base, s'.regs);
    } else {
      var i, i' := code[0], CloneInst(code[0], base);
      CloneKind(i, base);
      assert CloneCode(code, base)[0] == i' && CloneCode(code, base)[1..] == CloneCode(code[1..], base);
      if i.Call? { CallCloned(m, m', i, base, s, s', d, k); } else { PlainCloned(i, base, s, s'); }
      var t, t' := ExecInst(m, i, s, d - 1, k).value, ExecInst(m', i', s', d, k).value;
      CodeCloned(m, m', code[1..], base, t, t', d, k);
      KeepsTrans(base, s'.regs, t'.regs, ExecInsts(m', CloneCode(code[1..], base), t', d, k).value.regs);
    }
  }

  lemma KeepsSelf(n: nat, r: Regs)
    ensures Keeps(n, r, r)
  {
  }

  lemma CloneKind(i: Inst, base: nat)
    ensures CloneInst(i, base).Call? <==> i.Call?
  {
  }

  /** The argument moves fill the copies of the parameters. */
  lemma {:induction false} MovesRun(m: Module, params: seq<nat>, args: seq<Val>, xs: seq<i32>, n: nat, base: nat, s: State, d: nat, k: nat)
    requires n <= |params| == |args| == |xs| && ReadAll(args, s.regs) == Some(xs)
    requires forall v | v in ArgUses(args) :: v < base
    ensures ExecInsts(m, ArgMoves(params, args, n, base), s, d, k).Done?
    ensures var t := ExecInsts(m, ArgMoves(params, args, n, base), s, d, k).value;
            t.globals == s.globals && Keeps(base, s.regs, t.regs) && Image(base, Entry(params[..n], xs[..n]), t.regs)
    decreases n
  {
    hide Image, Keeps, Entry, ArgUses;
    if n == 0 {
      KeepsSelf(base, s.regs);
      EntryStep(params, xs, 0, base, s.regs);
    } else {
      MovesRun(m, params, args, xs, n - 1, base, s, d, k);
      var head, mv := ArgMoves(params, args, n - 1, base), Mv(params[n - 1] + base, args[n - 1]);
      var t := ExecInsts(m, head, s, d, k).value;
      ReadAllAt(args, s.regs, n - 1);
      ArgBelow(args, n - 1, base);
      ReadKept(args[n - 1], base, s.regs, t.regs);
      ExecAppend(m, head, [mv], s, d, k);
      OneMove(m, mv, t, xs[n - 1], d, k);
      MoveAbove(base, s.regs, t.regs, params[n - 1] + base, xs[n - 1]);
      EntryStep(params, xs, n, base, t.regs);
    }
  }

  lemma ArgBelow(args: seq<Val>, k: nat, base: nat)
    requires k < |args| && forall v | v in ArgUses(args) :: v < base
    ensures forall x | x in ValUses(args[k]) :: x < base
  {
    if args[k].Reg? { assert args[k].reg in ArgUses(args); }
  }

  lemma OneMove(m: Module, mv: Inst, s: State, x: i32, d: nat, k: nat)
    requires mv.Mv? && mv.dst >= 0 && Read(mv.a, s.regs) == Some(x)
    ensures ExecInsts(m, [mv], s, d, k) == Done(State(s.regs[mv.dst := x], s.globals))
  {
    assert [mv][1..] == [];
  }

  lemma MoveAbove(n: nat, a: Regs, b: Regs, v: nat, x: i32)
    requires Keeps(n, a, b) && v >= n
    ensures Keeps(n, a, b[v := x])
  {
  }

  lemma EntryStep(params: seq<nat>, xs: seq<i32>, n: nat, base: nat, r: Regs)
    requires n <= |params| == |xs|
    ensures n == 0 ==> Image(base, Entry(params[..0], xs[..0]), r)
    ensures n > 0 && Image(base, Entry(params[..n - 1], xs[..n - 1]), r) ==>
              Image(base, Entry(params[..n], xs[..n]), r[params[n - 1] + base := xs[n - 1]])
  {
    if n > 0 {
      assert params[..n][..n - 1] == params[..n - 1] && xs[..n][..n - 1] == xs[..n - 1];
    }
  }

  /** What a call that returns means, when its callee is g. */
  lemma CallOfG(m: Module, i: Inst, g: Func, s: State, d: nat, k: nat) returns (xs: seq<i32>, t: State)
    requires i.Call? && Inlinable(g) && FindFunc(m.funcs, i.callee) == Some(g) && ExecInst(m, i, s, d, k).Done?
    ensures d > 0 && ReadAll(i.args, s.regs) == Some(xs) && |xs| == |g.params|
    ensures ExecInsts(m, g.blocks[0].insts, State(Entry(g.params, xs), s.globals), d - 1, k) == Done(t)
    ensures var v := g.blocks[0].term.val;
            && (v.Some? ==> Read(v.value, t.regs).Some?)
            && AfterCall(i, s, Result(if v.Some? then Read(v.value, t.regs) else None, t.globals)) == ExecInst(m, i, s, d, k)
  {
    hide ExecInsts;
    xs := ReadAll(i.args, s.regs).value;
    var start := State(Entry(g.params, xs), s.globals);
    assert RunFunc(m, i.callee, xs, s.globals, d - 1, k) == RunBlock(m, g, 0, start, d - 1, k);
    assert RunBlock(m, g, 0, start, d - 1, k) == RunFrom(m, g, g.blocks[0].insts, g.blocks[0].term, start, d - 1, k);
    t := ExecInsts(m, g.blocks[0].insts, State(Entry(g.params, xs), s.globals), d - 1, k).value;
  }

  /** The result move does what the return did. */
  lemma ResultRun(m: Module, i: Inst, g: Func, base: nat, s: State, t: State, t': State, d: nat, k: nat) returns (u: State)
    requires i.Call? && Inlinable(g) && i.dst < base && Keeps(base, s.regs, t'.regs) && Image(base, t.regs, t'.regs)
    requires t'.globals == t.globals
    requires var v := g.blocks[0].term.val;
             && (v.Some? ==> Read(v.value, t.regs).Some?)
             && AfterCall(i, s, Result(if v.Some? then Read(v.value, t.regs) else None, t.globals)).Done?
    ensures ExecInsts(m, ResultMove(i.dst, g.blocks[0].term.val, base), t', d, k) == Done(u)
    ensures var v := g.blocks[0].term.val;
            var r := AfterCall(i, s, Result(if v.Some? then Read(v.value, t.regs) else None, t.globals)).value;
            Keeps(base, r.regs, u.regs) && u.globals == r.globals
  {
    var v := g.blocks[0].term.val;
    if i.dst >= 0 && v.Some? {
      ReadImage(v.value, base, t.regs, t'.regs);
      var x := Read(v.value, t.regs).value;
      OneMove(m, Mv(i.dst, CloneVal(v.value, base)), t', x, d, k);
      u := State(t'.regs[i.dst := x], t'.globals);
    } else {
      u := t';
    }
  }

  /** The inlined text reproduces the call. */
  lemma InlinedRuns(m: Module, m': Module, i: Inst, g: Func, base: nat, s: State, s': State, d: nat, k: nat) returns (u: State)
    requires i.Call? && Inlinable(g) && |i.args| == |g.params| && NoHints(g) && InstOk(i, base)
    requires FindFunc(m.funcs, i.callee) == Some(g) && CallsReturn(m, m', d) && ExecInst(m, i, s, d, k).Done?
    requires Keeps(base, s.regs, s'.regs) && s'.globals == s.globals
    ensures ExecInsts(m', Inlined(i, g, base), s', d, k) == Done(u)
    ensures var r := ExecInst(m, i, s, d, k).value; Keeps(base, r.regs, u.regs) && u.globals == r.globals
  {
    var xs, t := CallOfG(m, i, g, s, d, k);
    ArgsBelow(i, base);
    hide ExecInst, ExecInsts, CallsReturn, Image, Keeps, AfterCall, Entry, ReadAll, InstOk, FindFunc, ArgUses;
    ReadAllKept(i.args, base, s.regs, s'.regs);
    var moves, copy, back := ArgMoves(g.params, i.args, |i.args|, base), CloneCode(g.blocks[0].insts, base), ResultMove(i.dst, g.blocks[0].term.val, base);
    MovesRun(m', g.params, i.args, xs, |xs|, base, s', d, k);
    var s1 := ExecInsts(m', moves, s', d, k).value;
    assert g.params[..|xs|] == g.params && xs[..|xs|] == xs;
    CodeCloned(m, m', g.blocks[0].insts, base, State(Entry(g.params, xs), s.globals), s1, d, k);
    var t' := ExecInsts(m', copy, s1, d, k).value;
    KeepsTrans(base, s.regs, s'.regs, s1.regs);
    KeepsTrans(base, s.regs, s1.regs, t'.regs);
    u := ResultRun(m', i, g, base, s, t, t', d, k);
    ExecAppend(m', moves, copy, s', d, k);
    ExecAppend(m', moves + copy, back, s', d, k);
  }

  lemma ArgsBelow(i: Inst, base: nat)
    requires i.Call? && InstOk(i, base)
    ensures (forall v | v in ArgUses(i.args) :: v < base) && i.dst < base
  {
    assert ArgUses(i.args) == Uses(i);
  }

  lemma {:induction false} ReadAllKept(vs: seq<Val>, n: nat, r: Regs, r': Regs)
    requires Keeps(n, r, r') && forall v | v in ArgUses(vs) :: v < n
    ensures ReadAll(vs, r') == ReadAll(vs, r)
  {
    hide Keeps;
    if vs != [] {
      ArgBelow(vs, 0, n);
      ReadKept(vs[0], n, r, r');
      forall x | x in ArgUses(vs[1..]) ensures x < n {
        var i :| 0 <= i < |vs[1..]| && vs[1..][i].Reg? && vs[1..][i].reg == x;
        assert vs[i + 1].reg == x && x in ArgUses(vs);
      }
      ReadAllKept(vs[1..], n, r, r');
    }
  }

  // ---- a module with one call inlined -------------------------------------------------------------

  /** Instruction j of block b of f, a call of g, replaced by the copy of g. */
  function WithInlined(f: Func, b: nat, j: nat, g: Func): Func
    requires b < |f.blocks| && j < |f.blocks[b].insts| && f.blocks[b].insts[j].Call?
    requires Inlinable(g) && |f.blocks[b].insts[j].args| == |g.params|
  {
    var code := f.blocks[b].insts;
    f.(blocks := f.blocks[b := Block(code[..j] + Inlined(code[j], g, f.numVregs) + code[j + 1..], f.blocks[b].term)],
       numVregs := f.numVregs + g.numVregs)
  }

  /** Every run that returns, returns the same in m'. */
  ghost predicate Returns(m: Module, m': Module) {
    forall name, args, g, d: nat, k: nat | RunFunc(m, name, args, g, d, k).Done? ::
      RunFunc(m', name, args, g, d, k) == RunFunc(m, name, args, g, d, k)
  }

  lemma ReturnsTrans(a: Module, b: Module, c: Module)
    requires Returns(a, b) && Returns(b, c)
    ensures Returns(a, c)
  {
    hide RunFunc;
    forall name, args, g, d: nat, k: nat | RunFunc(a, name, args, g, d, k).Done?
      ensures RunFunc(c, name, args, g, d, k) == RunFunc(a, name, args, g, d, k)
    {
      assert RunFunc(b, name, args, g, d, k) == RunFunc(a, name, args, g, d, k);
    }
  }

  lemma PlainKept(i: Inst, n: nat, s: State, s': State)
    requires !i.Call? && InstOk(i, n) && Keeps(n, s.regs, s'.regs) && s'.globals == s.globals && ExecPlain(i, s).Done?
    ensures ExecPlain(i, s').Done?
    ensures Keeps(n, ExecPlain(i, s).value.regs, ExecPlain(i, s').value.regs)
    ensures ExecPlain(i, s').value.globals == ExecPlain(i, s).value.globals
  {
    hide EvalBin, EvalUn, Magic.NeedsMagic, MagicFor, TDiv, Magic.UnsignedExact;
    match i
    case Bin(_, _, a, b, h, _) =>
      assert ValUses(a) <= Uses(i) && ValUses(b) <= Uses(i);
      ReadKept(a, n, s.regs, s'.regs);
      ReadKept(b, n, s.regs, s'.regs);
      if h >= 0 {
        assert h in HintUses(h) && h in Uses(i);
        ReadKept(Reg(h), n, s.regs, s'.regs);
      }
    case Un(_, _, a) => assert ValUses(a) <= Uses(i); ReadKept(a, n, s.regs, s'.regs);
    case Mv(_, a) => assert ValUses(a) <= Uses(i); ReadKept(a, n, s.regs, s'.regs);
    case LoadGlobal(_, _) =>
    case StoreGlobal(_, a) => assert ValUses(a) <= Uses(i); ReadKept(a, n, s.regs, s'.regs);
  }

  lemma CallKept(m: Module, m': Module, i: Inst, n: nat, s: State, s': State, d: nat, k: nat)
    requires i.Call? && InstOk(i, n) && Keeps(n, s.regs, s'.regs) && s'.globals == s.globals
    requires CallsReturn(m, m', d) && ExecInst(m, i, s, d, k).Done?
    ensures ExecInst(m', i, s', d, k).Done?
    ensures Keeps(n, ExecInst(m, i, s, d, k).value.regs, ExecInst(m', i, s', d, k).value.regs)
    ensures ExecInst(m', i, s', d, k).value.globals == ExecInst(m, i, s, d, k).value.globals
  {
    hide RunFunc;
    ArgsBelow(i, n);
    ReadAllKept(i.args, n, s.regs, s'.regs);
    var xs := ReadAll(i.args, s.regs).value;
    assert RunFunc(m', i.callee, xs, s.globals, d - 1, k) == RunFunc(m, i.callee, xs, s.globals, d - 1, k);
  }

  lemma {:induction false} CodeKept(m: Module, m': Module, code: seq<Inst>, n: nat, s: State, s': State, d: nat, k: nat)
    requires (forall j | 0 <= j < |code| :: InstOk(code[j], n)) && Keeps(n, s.regs, s'.regs) && s'.globals == s.globals
    requires CallsReturn(m, m', d) && ExecInsts(m, code, s, d, k).Done?
    ensures ExecInsts(m', code, s', d, k).Done?
    ensures Keeps(n, ExecInsts(m, code, s, d, k).value.regs, ExecInsts(m', code, s', d, k).value.regs)
    ensures ExecInsts(m', code, s', d, k).value.globals == ExecInsts(m, code, s, d, k).value.globals
    decreases |code|
  {
    hide CallsReturn, RunFunc, ExecPlain, InstOk, Keeps;
    if code != [] {
      if code[0].Call? { CallKept(m, m', code[0], n, s, s', d, k); } else { PlainKept(code[0], n, s, s'); }
      CodeKept(m, m', code[1..], n, ExecInst(m, code[0], s, d, k).value, ExecInst(m', code[0], s', d, k).value, d, k);
    }
  }

  /** Straight-line code around an inlined call. */
  lemma SpliceKept(m: Module, m': Module, code: seq<Inst>, j: nat, g: Func, n: nat, s: State, s': State, d: nat, k: nat)
    requires j < |code| && code[j].Call? && Inlinable(g) && |code[j].args| == |g.params| && NoHints(g)
    requires FindFunc(m.funcs, code[j].callee) == Some(g)
    requires (forall x | 0 <= x < |code| :: InstOk(code[x], n)) && Keeps(n, s.regs, s'.regs) && s'.globals == s.globals
    requires CallsReturn(m, m', d) && ExecInsts(m, code, s, d, k).Done?
    ensures var code' := code[..j] + Inlined(code[j], g, n) + code[j + 1..];
            && ExecInsts(m', code', s', d, k).Done?
            && Keeps(n, ExecInsts(m, code, s, d, k).value.regs, ExecInsts(m', code', s', d, k).value.regs)
            && ExecInsts(m', code', s', d, k).value.globals == ExecInsts(m, code, s, d, k).value.globals
  {
    hide CallsReturn, RunFunc, InstOk, Keeps, Inlined, NoHints, FindFunc, Inlinable;
    var head, i, tail := code[..j], code[j], code[j + 1..];
    assert code == head + ([i] + tail);
    ExecAppend(m, head, [i] + tail, s, d, k);
    var s1 := ExecInsts(m, head, s, d, k).value;
    CodeKept(m, m', head, n, s, s', d, k);
    var s1' := ExecInsts(m', head, s', d, k).value;
    assert ([i] + tail)[0] == i && ([i] + tail)[1..] == tail;
    var s2 := ExecInst(m, i, s1, d, k).value;
    var s2' := InlinedRuns(m, m', i, g, n, s1, s1', d, k);
    CodeKept(m, m', tail, n, s2, s2', d, k);
    ExecAppend(m', head, Inlined(i, g, n), s', d, k);
    ExecAppend(m', head + Inlined(i, g, n), tail, s', d, k);
  }

  /** The rest of a run of f, with the call inlined and without. */
  lemma {:induction false} BlockReturns(m: Module, m': Module, f: Func, b0: nat, j: nat, g: Func, b: nat, s: State, s': State, d: nat, k: nat)
    requires FuncOk(f) && b0 < |f.blocks| && j < |f.blocks[b0].insts| && f.blocks[b0].insts[j].Call?
    requires Inlinable(g) && |f.blocks[b0].insts[j].args| == |g.params| && NoHints(g)
    requires FindFunc(m.funcs, f.blocks[b0].insts[j].callee) == Some(g) && CallsReturn(m, m', d)
    requires Keeps(f.numVregs, s.regs, s'.regs) && s'.globals == s.globals && RunBlock(m, f, b, s, d, k).Done?
    ensures RunBlock(m', WithInlined(f, b0, j, g), b, s', d, k) == RunBlock(m, f, b, s, d, k)
    decreases k
  {
    hide CallsReturn, ExecInsts, Keeps, InstOk, Inlined, NoHints, FindFunc, Inlinable;
    var n, f' := f.numVregs, WithInlined(f, b0, j, g);
    assert BlockOk(f.blocks[b], |f.blocks|, n);
    var code, t := f.blocks[b].insts, f.blocks[b].term;
    if b == b0 {
      SpliceKept(m, m', code, j, g, n, s, s', d, k);
    } else {
      CodeKept(m, m', code, n, s, s', d, k);
    }
    var s1, s1' := ExecInsts(m, code, s, d, k).value, ExecInsts(m', f'.blocks[b].insts, s', d, k).value;
    match t
    case Jmp(x) => BlockReturns(m, m', f, b0, j, g, x, s1, s1', d, k - 1);
    case Br(v, x, y) =>
      assert TermUses(t) == ValUses(v);
      ReadKept(v, n, s1.regs, s1'.regs);
      BlockReturns(m, m', f, b0, j, g, if Read(v, s1.regs).value != 0 then x else y, s1, s1', d, k - 1);
    case Ret(Some(v)) =>
      assert TermUses(t) == ValUses(v);
      ReadKept(v, n, s1.regs, s1'.regs);
    case _ =>
  }

  lemma {:induction false} SameCode(m: Module, m': Module, code: seq<Inst>, s: State, d: nat, k: nat)
    requires CallsReturn(m, m', d) && ExecInsts(m, code, s, d, k).Done?
    ensures ExecInsts(m', code, s, d, k) == ExecInsts(m, code, s, d, k)
    decreases |code|
  {
    hide RunFunc, ExecPlain, CallsReturn;
    if code != [] {
      if code[0].Call? { SameCall(m, m', code[0], s, d, k); }
      SameCode(m, m', code[1..], ExecInst(m, code[0], s, d, k).value, d, k);
    }
  }

  lemma SameCall(m: Module, m': Module, i: Inst, s: State, d: nat, k: nat)
    requires i.Call? && CallsReturn(m, m', d) && ExecInst(m, i, s, d, k).Done?
    ensures ExecInst(m', i, s, d, k) == ExecInst(m, i, s, d, k)
  {
    hide RunFunc;
    var xs := ReadAll(i.args, s.regs).value;
    assert RunFunc(m', i.callee, xs, s.globals, d - 1, k) == RunFunc(m, i.callee, xs, s.globals, d - 1, k);
  }

  /** A function that is not changed. */
  lemma {:induction false} SameBlock(m: Module, m': Module, f: Func, b: nat, s: State, d: nat, k: nat)
    requires CallsReturn(m, m', d) && RunBlock(m, f, b, s, d, k).Done?
    ensures RunBlock(m', f, b, s, d, k) == RunBlock(m, f, b, s, d, k)
    decreases k
  {
    hide CallsReturn, ExecInsts;
    var code, t := f.blocks[b].insts, f.blocks[b].term;
    SameCode(m, m', code, s, d, k);
    var s1 := ExecInsts(m, code, s, d, k).value;
    match t
    case Jmp(x) => SameBlock(m, m', f, x, s1, d, k - 1);
    case Br(v, x, y) => SameBlock(m, m', f, if Read(v, s1.regs).value != 0 then x else y, s1, d, k - 1);
    case Ret(_) =>
  }

  lemma {:induction false} FindReplaced(fs: seq<Func>, i: nat, f': Func, name: string)
    requires i < |fs| && f'.name == fs[i].name
    ensures FindFunc(fs[i := f'], name) == FindFunc(fs, name)
            || (FindFunc(fs, name) == Some(fs[i]) && FindFunc(fs[i := f'], name) == Some(f'))
  {
    if i > 0 {
      assert fs[i := f'][1..] == fs[1..][i - 1 := f'];
      FindReplaced(fs[1..], i - 1, f', name);
    }
  }

  /** What is asked of a call that is inlined. */
  ghost predicate Site(m: Module, i: nat, b: nat, j: nat, g: Func) {
    && i < |m.funcs| && FuncOk(m.funcs[i]) && b < |m.funcs[i].blocks| && j < |m.funcs[i].blocks[b].insts|
    && var call := m.funcs[i].blocks[b].insts[j];
       call.Call? && FindFunc(m.funcs, call.callee) == Some(g) && Inlinable(g) && |call.args| == |g.params| && NoHints(g)
  }

  function InlineAt(m: Module, i: nat, b: nat, j: nat, g: Func): Module
    requires i < |m.funcs| && b < |m.funcs[i].blocks| && j < |m.funcs[i].blocks[b].insts|
    requires m.funcs[i].blocks[b].insts[j].Call? && Inlinable(g) && |m.funcs[i].blocks[b].insts[j].args| == |g.params|
  {
    m.(funcs := m.funcs[i := WithInlined(m.funcs[i], b, j, g)])
  }

  lemma {:induction false} RunReturns(m: Module, i: nat, b: nat, j: nat, g: Func, name: string, args: seq<i32>, gl: seq<i32>, d: nat, k: nat)
    requires Site(m, i, b, j, g) && RunFunc(m, name, args, gl, d, k).Done?
    ensures RunFunc(InlineAt(m, i, b, j, g), name, args, gl, d, k) == RunFunc(m, name, args, gl, d, k)
    decreases d
  {
    var m' := InlineAt(m, i, b, j, g);
    assert CallsReturn(m, m', d) by {
      forall e: nat, nm, xs, gs, z: nat | e < d && RunFunc(m, nm, xs, gs, e, z).Done?
        ensures RunFunc(m', nm, xs, gs, e, z) == RunFunc(m, nm, xs, gs, e, z)
      {
        RunReturns(m, i, b, j, g, nm, xs, gs, e, z);
      }
    }
    hide CallsReturn, RunBlock, FuncOk, NoHints, Inlinable, WithInlined;
    var f := m.funcs[i];
    SameSignature(f, b, j, g);
    FindReplaced(m.funcs, i, WithInlined(f, b, j, g), name);
    var h := FindFunc(m.funcs, name).value;
    var s := State(Entry(h.params, args), gl);
    if FindFunc(m'.funcs, name) == Some(h) {
      SameBlock(m, m', h, 0, s, d, k);
    } else {
      KeepsSelf(f.numVregs, s.regs);
      BlockReturns(m, m', f, b, j, g, 0, s, s, d, k);
    }
  }

  lemma SameSignature(f: Func, b: nat, j: nat, g: Func)
    requires b < |f.blocks| && j < |f.blocks[b].insts| && f.blocks[b].insts[j].Call?
    requires Inlinable(g) && |f.blocks[b].insts[j].args| == |g.params|
    ensures var f' := WithInlined(f, b, j, g); f'.name == f.name && f'.params == f.params
  {
  }

  /** Inlining one call keeps the result of every run that returns. */
  lemma InlineAtReturns(m: Module, i: nat, b: nat, j: nat, g: Func)
    requires Site(m, i, b, j, g)
    ensures Returns(m, InlineAt(m, i, b, j, g))
  {
    hide RunFunc, Site;
    SiteParts(m, i, b, j, g);
    forall name, args, gl, d: nat, k: nat | RunFunc(m, name, args, gl, d, k).Done?
      ensures RunFunc(InlineAt(m, i, b, j, g), name, args, gl, d, k) == RunFunc(m, name, args, gl, d, k)
    {
      RunReturns(m, i, b, j, g, name, args, gl, d, k);
    }
  }

  lemma SiteParts(m: Module, i: nat, b: nat, j: nat, g: Func)
    requires Site(m, i, b, j, g)
    ensures i < |m.funcs| && b < |m.funcs[i].blocks| && j < |m.funcs[i].blocks[b].insts|
    ensures m.funcs[i].blocks[b].insts[j].Call? && Inlinable(g) && |m.funcs[i].blocks[b].insts[j].args| == |g.params|
  {
  }

  // ---- well-formedness ----------------------------------------------------------------------------

  lemma MoreOk(i: Inst, n: nat, n': nat)
    requires InstOk(i, n) && n <= n'
    ensures InstOk(i, n')
  {
  }

  lemma CloneOk(i: Inst, n: nat, base: nat)
    requires InstOk(i, n) && (i.Bin? ==> i.magicVreg < 0)
    ensures InstOk(CloneInst(i, base), base + n)
  {
    forall v | v in Uses(CloneInst(i, base)) ensures v < base + n {
      match i
      case Call(_, _, args) =>
        var k :| 0 <= k < |args| && CloneVals(args, base)[k] == Reg(v);
        assert args[k] == Reg(v - base) && v - base in ArgUses(args) && v - base in Uses(i);
      case _ => assert v - base in Uses(i);
    }
  }

  lemma ValBelow(v: Val, n: nat, base: nat)
    requires forall x | x in ValUses(v) :: x < n
    ensures forall x | x in ValUses(CloneVal(v, base)) :: x < base + n
  {
    if v.Reg? { assert v.reg in ValUses(v); }
  }

  ghost predicate CodeOk(code: seq<Inst>, n: nat) {
    (forall k | 0 <= k < |code| :: InstOk(code[k], n)) && NoHintsIn(code)
  }

  lemma InlinedOk(i: Inst, g: Func, base: nat)
    requires i.Call? && Inlinable(g) && |i.args| == |g.params| && InstOk(i, base) && FuncOk(g) && NoHints(g)
    ensures CodeOk(Inlined(i, g, base), base + g.numVregs)
  {
    ArgsBelow(i, base);
    var n, moves, copy, back := base + g.numVregs, ArgMoves(g.params, i.args, |i.args|, base), CloneCode(g.blocks[0].insts, base), ResultMove(i.dst, g.blocks[0].term.val, base);
    assert BlockOk(g.blocks[0], 1, g.numVregs);
    forall k | 0 <= k < |moves| ensures InstOk(moves[k], n) {
      ArgBelow(i.args, k, base);
    }
    forall k | 0 <= k < |copy| ensures InstOk(copy[k], n) {
      assert NoHintsIn(g.blocks[0].insts) && InstOk(g.blocks[0].insts[k], g.numVregs);
      CloneOk(g.blocks[0].insts[k], g.numVregs, base);
    }
    if back != [] {
      var v := g.blocks[0].term.val.value;
      assert TermUses(g.blocks[0].term) == ValUses(v);
      ValBelow(v, g.numVregs, base);
    }
    assert NoHintsIn(g.blocks[0].insts);
  }

  lemma CodeMoreOk(code: seq<Inst>, n: nat, n': nat)
    requires CodeOk(code, n) && n <= n'
    ensures CodeOk(code, n')
  {
    forall k | 0 <= k < |code| ensures InstOk(code[k], n') { MoreOk(code[k], n, n'); }
  }

  lemma WithInlinedOk(f: Func, b: nat, j: nat, g: Func)
    requires FuncOk(f) && NoHints(f) && FuncOk(g) && NoHints(g)
    requires b < |f.blocks| && j < |f.blocks[b].insts| && f.blocks[b].insts[j].Call?
    requires Inlinable(g) && |f.blocks[b].insts[j].args| == |g.params|
    ensures FuncOk(WithInlined(f, b, j, g)) && NoHints(WithInlined(f, b, j, g))
  {
    var f', n, n' := WithInlined(f, b, j, g), f.numVregs, f.numVregs + g.numVregs;
    forall x | 0 <= x < |f.blocks| ensures BlockOk(f'.blocks[x], |f.blocks|, n') && NoHintsIn(f'.blocks[x].insts) {
      assert BlockOk(f.blocks[x], |f.blocks|, n) && NoHintsIn(f.blocks[x].insts);
      var code := f.blocks[x].insts;
      CodeMoreOk(code, n, n');
      if x == b {
        InlinedOk(code[j], g, n);
        assert CodeOk(code[..j], n') && CodeOk(code[j + 1..], n');
      }
      assert CodeOk(f'.blocks[x].insts, n');
    }
  }

  // ---- the discipline of expressions ---------------------------------------------------------

  lemma MovesSpare(code: seq<Inst>)
    requires forall k | 0 <= k < |code| :: code[k].Mv?
    ensures WrittenOnce(code) && forall ys :: Spares(code, ys)
  {
  }

  /** A copy writes no register of the caller, and each of its own as the original does. */
  lemma CloneOnce(code: seq<Inst>, n: nat, base: nat)
    requires WrittenOnce(code) && CodeOk(code, n)
    ensures WrittenOnce(CloneCode(code, base))
    ensures forall k | 0 <= k < |code| :: Def(CloneCode(code, base)[k]) < 0 || Def(CloneCode(code, base)[k]) >= base
    ensures forall k | 0 <= k < |code| && Expression(CloneCode(code, base)[k]) :: CloneCode(code, base)[k].dst >= base
  {
    var copy := CloneCode(code, base);
    forall k | 0 <= k < |code| ensures CopyOf(code[k], copy[k], base) {
      assert InstOk(code[k], n) && copy[k] == CloneInst(code[k], base);
      CloneIsCopy(code[k], n, base);
    }
    hide CloneCode, CodeOk;
  }

  /** What the copy of an instruction defines. */
  ghost predicate CopyOf(i: Inst, c: Inst, base: nat) {
    && Def(c) == (if Def(i) >= 0 then Def(i) + base else Def(i)) && (Expression(c) <==> Expression(i))
    && (Expression(i) ==> i.dst >= 0 && Def(i) == i.dst && Def(c) == c.dst && (i.dst !in Uses(i) ==> c.dst !in Uses(c)))
  }

  lemma CloneIsCopy(i: Inst, n: nat, base: nat)
    requires InstOk(i, n) && (i.Bin? ==> i.magicVreg < 0)
    ensures CopyOf(i, CloneInst(i, base), base)
  {
  }

  /** The copy of a callee in the place of a call. */
  lemma InlinedOnce(i: Inst, g: Func, base: nat)
    requires i.Call? && Inlinable(g) && |i.args| == |g.params| && InstOk(i, base) && FuncOk(g) && NoHints(g) && Disciplined(g)
    ensures var code := Inlined(i, g, base);
            && WrittenOnce(code)
            && (forall k | 0 <= k < |code| && Expression(code[k]) :: code[k].dst >= base)
            && (forall k | 0 <= k < |code| :: Def(code[k]) >= base || Def(code[k]) < 0 || Def(code[k]) == i.dst)
  {
    var moves, text, back := ArgMoves(g.params, i.args, |i.args|, base), g.blocks[0].insts, ResultMove(i.dst, g.blocks[0].term.val, base);
    assert BlockOk(g.blocks[0], 1, g.numVregs) && NoHintsIn(text);
    CloneOnce(text, g.numVregs, base);
    var copy := CloneCode(text, base);
    MovesSpare(moves);
    MovesSpare(back);
    hide Inlinable, NoHintsIn, FuncOk, Disciplined, WrittenOnce, CloneCode, ArgMoves, InstOk;
    AppendOnce(moves, copy);
    assert Spares(moves + copy, back);
    AppendOnce(moves + copy, back);
  }

  /** Around the copy nothing changes. */
  lemma SpliceOnce(pre: seq<Inst>, call: Inst, post: seq<Inst>, copy: seq<Inst>, base: nat)
    requires WrittenOnce(pre + [call] + post) && forall k | 0 <= k < |pre + [call] + post| :: InstOk((pre + [call] + post)[k], base)
    requires call.Call? && WrittenOnce(copy)
    requires forall k | 0 <= k < |copy| && Expression(copy[k]) :: copy[k].dst >= base
    requires forall k | 0 <= k < |copy| :: Def(copy[k]) >= base || Def(copy[k]) < 0 || Def(copy[k]) == call.dst
    ensures WrittenOnce(pre + copy + post)
  {
    var code, n := pre + [call] + post, |pre|;
    PartOnce(code, 0, n);
    PartOnce(code, n + 1, |code|);
    assert code[0..n] == pre && code[n + 1..|code|] == post && code[n] == call;
    forall k | 0 <= k < n ensures pre[k] == code[k] && InstOk(pre[k], base) {}
    forall k | 0 <= k < |post| ensures post[k] == code[n + 1 + k] && InstOk(post[k], base) {}
    assert Spares(pre, copy) by {
      forall j, k | 0 <= k < |pre| && 0 <= j < |copy| && Expression(pre[k]) ensures Def(copy[j]) != pre[k].dst {
        assert Def(code[n]) != code[k].dst;
      }
    }
    AppendOnce(pre, copy);
    assert Spares(pre + copy, post) by {
      forall j, k | 0 <= k < |pre + copy| && 0 <= j < |post| && Expression((pre + copy)[k]) ensures Def(post[j]) != (pre + copy)[k].dst {
        if k < n { assert Def(code[n + 1 + j]) != code[k].dst; }
      }
    }
    AppendOnce(pre + copy, post);
  }

  /** Inlining keeps the discipline, and changes no edge. */
  lemma WithInlinedShaped(f: Func, b: nat, j: nat, g: Func)
    requires FuncOk(f) && NoHints(f) && FuncOk(g) && NoHints(g) && Shaped(f) && Shaped(g)
    requires b < |f.blocks| && j < |f.blocks[b].insts| && f.blocks[b].insts[j].Call?
    requires Inlinable(g) && |f.blocks[b].insts[j].args| == |g.params|
    ensures Shaped(WithInlined(f, b, j, g))
  {
    WithInlinedOk(f, b, j, g);
    var f', code := WithInlined(f, b, j, g), f.blocks[b].insts;
    OkWritten(f');
    assert BlockOk(f.blocks[b], |f.blocks|, f.numVregs);
    assert code == code[..j] + [code[j]] + code[j + 1..];
    hide Inlinable, NoHints, FuncOk, Inlined;
    InlinedOnce(code[j], g, f.numVregs);
    hide WrittenOnce, InstOk;
    SpliceOnce(code[..j], code[j], code[j + 1..], Inlined(code[j], g, f.numVregs), f.numVregs);
  }
}
