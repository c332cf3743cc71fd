/**
 * Inlining keeps divergence: a run that ends within no bounds still ends within
 * none.  An inlined call needs one nested call less, so a bound of d in the new
 * module is compared with one of 2d + 1 in the old.
 */
module InlineLoops {
  import opened Word32
  import opened IR
  import opened Inline

  /** The run ends within no bounds. */
  ghost predicate Diverges(m: Module, name: string, args: seq<i32>, g: seq<i32>) {
    forall d: nat, k: nat :: RunFunc(m, name, args, g, d, k).Timeout?
  }

  /** Every run that diverges in m diverges in m'. */
  ghost predicate KeepsLoops(m: Module, m': Module) {
    forall name, args, g | Diverges(m, name, args, g) :: Diverges(m', name, args, g)
  }

  /** Runs that return, return the same, and runs that diverge diverge. */
  ghost predicate SameRuns(m: Module, m': Module) {
    Returns(m, m') && KeepsLoops(m, m')
  }

  lemma SameRunsSelf(m: Module)
    ensures SameRuns(m, m)
  {
  }

  lemma SameRunsTrans(a: Module, b: Module, c: Module)
    requires SameRuns(a, b) && SameRuns(b, c)
    ensures SameRuns(a, c)
  {
    hide Diverges, Returns;
    ReturnsTrans(a, b, c);
  }

  /** What refines within equal bounds has the same runs. */
  lemma RefinesSameRuns(m: Module, m': Module)
    requires forall name, args, g, d: nat, k: nat :: Refines(RunFunc(m, name, args, g, d, k), RunFunc(m', name, args, g, d, k))
    ensures SameRuns(m, m')
  {
    hide RunFunc;
    forall name, args, g, d: nat, k: nat
      ensures RunFunc(m, name, args, g, d, k).Undef? || RunFunc(m', name, args, g, d, k) == RunFunc(m, name, args, g, d, k)
    {
      assert Refines(RunFunc(m, name, args, g, d, k), RunFunc(m', name, args, g, d, k));
    }
  }

  /** Calls of m that time out within 2e + 1 nested calls time out in m' within e. */
  ghost predicate Slower(m: Module, m': Module, e: nat) {
    forall name, args, g, k: nat | RunFunc(m, name, args, g, 2 * e + 1, k).Timeout? :: RunFunc(m', name, args, g, e, k).Timeout?
  }

  ghost predicate CallsSlower(m: Module, m': Module, d: nat) {
    forall e: nat | e < d :: Slower(m, m', e)
  }

  /** A call that times out. */
  lemma CallTimes(m: Module, m': Module, i: Inst, i': Inst, s: State, s': State, D: nat, d: nat, k: nat)
    requires i.Call? && i'.Call? && i'.callee == i.callee && s'.globals == s.globals
    requires ReadAll(i.args, s.regs).Some? ==> ReadAll(i'.args, s'.regs) == ReadAll(i.args, s.regs)
    requires CallsSlower(m, m', d) && D >= 2 * d && ExecInst(m, i, s, D, k).Timeout?
    ensures ExecInst(m', i', s', d, k).Timeout?
  {
    hide RunFunc;
    var xs := ReadAll(i.args, s.regs).value;
    if d > 0 {
      assert RunFunc(m, i.callee, xs, s.globals, D - 1, k).Timeout?;
      if !RunFunc(m, i.callee, xs, s.globals, 2 * (d - 1) + 1, k).Timeout? {
        RunFuncMonotone(m, i.callee, xs, s.globals, 2 * (d - 1) + 1, D - 1, k, k);
      }
      assert Slower(m, m', d - 1);
    }
  }

  lemma PlainEnds(i: Inst, s: State)
    requires !i.Call?
    ensures !ExecPlain(i, s).Timeout?
  {
  }

  /** A step that ends within the larger depth ends the same within the smaller, or times out. */
  lemma StepEnds(m: Module, i: Inst, s: State, d: nat, D: nat, k: nat, t: State)
    requires d <= D && ExecInst(m, i, s, D, k) == Done(t)
    ensures ExecInst(m, i, s, d, k).Timeout? || ExecInst(m, i, s, d, k) == Done(t)
  {
    hide ExecInst;
    if !ExecInst(m, i, s, d, k).Timeout? { ExecInstMonotone(m, i, s, d, D, k, k); }
  }

  lemma CodeEnds(m: Module, code: seq<Inst>, s: State, d: nat, D: nat, k: nat, t: State)
    requires d <= D && ExecInsts(m, code, s, D, k) == Done(t)
    ensures ExecInsts(m, code, s, d, k).Timeout? || ExecInsts(m, code, s, d, k) == Done(t)
  {
    hide ExecInsts;
    if !ExecInsts(m, code, s, d, k).Timeout? { ExecMonotone(m, code, s, d, D, k, k); }
  }

  lemma {:induction false} CodeTimes(m: Module, m': Module, code: seq<Inst>, n: nat, s: State, s': State, D: nat, d: nat, k: nat)
    requires (forall j | 0 <= j < |code| :: InstOk(code[j], n)) && Keeps(n, s.regs, s'.regs) && s'.globals == s.globals
    requires CallsSlower(m, m', d) && CallsReturn(m, m', D) && D >= 2 * d && ExecInsts(m, code, s, D, k).Timeout?
    ensures ExecInsts(m', code, s', d, k).Timeout?
    decreases |code|
  {
    hide CallsSlower, CallsReturn, RunFunc, ExecPlain, InstOk, Keeps;
    var i := code[0];
    var o := ExecInst(m, i, s, D, k);
    if o.Timeout? {
      if i.Call? {
        ArgsBelow(i, n);
        ReadAllKept(i.args, n, s.regs, s'.regs);
        hide ExecInst;
        CallTimes(m, m', i, i, s, s', D, d, k);
      } else {
        PlainEnds(i, s);
      }
    } else {
      if i.Call? { CallKept(m, m', i, n, s, s', D, k); } else { PlainKept(i, n, s, s'); }
      var t' := ExecInst(m', i, s', D, k).value;
      StepEnds(m', i, s', d, D, k, t');
      if !ExecInst(m', i, s', d, k).Timeout? { CodeTimes(m, m', code[1..], n, o.value, t', D, d, k); }
    }
  }

  lemma {:induction false} CloneTimes(m: Module, m': Module, code: seq<Inst>, base: nat, s: State, s': State, d: nat, k: nat)
    requires CallsSlower(m, m', d) && CallsReturn(m, m', 2 * d + 1) && NoHintsIn(code)
    requires Image(base, s.regs, s'.regs) && s'.globals == s.globals && ExecInsts(m, code, s, 2 * d, k).Timeout?
    ensures ExecInsts(m', CloneCode(code, base), s', d, k).Timeout?
    decreases |code|
  {
    hide CallsSlower, CallsReturn, RunFunc, ExecPlain, Image, Keeps;
    var i, i' := code[0], CloneInst(code[0], base);
    assert CloneCode(code, base)[0] == i' && CloneCode(code, base)[1..] == CloneCode(code[1..], base);
    var o := ExecInst(m, i, s, 2 * d, k);
    if o.Timeout? {
      if i.Call? {
        if ReadAll(i.args, s.regs).Some? { ReadAllImage(i.args, base, s.regs, s'.regs); }
        hide ExecInst;
        CallTimes(m, m', i, i', s, s', 2 * d, d, k);
      } else {
        PlainEnds(i, s);
      }
    } else {
      if i.Call? { CallCloned(m, m', i, base, s, s', 2 * d + 1, k); } else { PlainCloned(i, base, s, s'); }
      var t' := ExecInst(m', i', s', 2 * d + 1, k).value;
      StepEnds(m', i', s', d, 2 * d + 1, k, t');
      if !ExecInst(m', i', s', d, k).Timeout? { CloneTimes(m, m', code[1..], base, o.value, t', d, k); }
    }
  }

  /** What a call that times out means, when its callee is g. */
  lemma CallOfGTimes(m: Module, i: Inst, g: Func, s: State, d: nat, k: nat) returns (xs: seq<i32>)
    requires i.Call? && Inlinable(g) && FindFunc(m.funcs, i.callee) == Some(g) && d > 0 && ExecInst(m, i, s, d, k).Timeout?
    ensures ReadAll(i.args, s.regs) == Some(xs) && |xs| == |g.params|
    ensures ExecInsts(m, g.blocks[0].insts, State(Entry(g.params, xs), s.globals), d - 1, k).Timeout?
  {
    hide ExecInsts;
    xs := ReadAll(i.args, s.regs).value;
    assert RunFunc(m, i.callee, xs, s.globals, d - 1, k).Timeout?;
    var start := State(Entry(g.params, xs), s.globals);
    assert RunFunc(m, i.callee, xs, s.globals, d - 1, k) == RunBlock(m, g, 0, start, d - 1, k);
    assert RunBlock(m, g, 0, start, d - 1, k) == RunFrom(m, g, g.blocks[0].insts, g.blocks[0].term, start, d - 1, k);
  }

  /** The inlined text times out where the call does. */
  lemma InlinedTimes(m: Module, m': Module, i: Inst, g: Func, base: nat, s: State, s': State, d: nat, k: nat)
    requires i.Call? && Inlinable(g) && |i.args| == |g.params| && NoHints(g) && InstOk(i, base)
    requires FindFunc(m.funcs, i.callee) == Some(g) && CallsSlower(m, m', d) && CallsReturn(m, m', 2 * d + 1)
    requires Keeps(base, s.regs, s'.regs) && s'.globals == s.globals && ExecInst(m, i, s, 2 * d + 1, k).Timeout?
    ensures ExecInsts(m', Inlined(i, g, base), s', d, k).Timeout?
  {
    var xs := CallOfGTimes(m, i, g, s, 2 * d + 1, k);
    ArgsBelow(i, base);
    hide ExecInst, ExecInsts, CallsReturn, CallsSlower, Image, Keeps, Entry, ReadAll, InstOk, FindFunc, ArgUses;
    ReadAllKept(i.args, base, s.regs, s'.regs);
    var moves, copy, back := ArgMoves(g.params, i.args, |i.args|, base), CloneCode(g.blocks[0].insts, base), ResultMove(i.dst, g.blocks[0].term.val, base);
    MovesRun(m', g.params, i.args, xs, |xs|, base, s', d, k);
    var s1 := ExecInsts(m', moves, s', d, k).value;
    assert g.params[..|xs|] == g.params && xs[..|xs|] == xs;
    CloneTimes(m, m', g.blocks[0].insts, base, State(Entry(g.params, xs), s.globals), s1, d, k);
    ExecAppend(m', moves, copy, s', d, k);
    ExecAppend(m', moves + copy, back, s', d, k);
  }

  /** Call j of the code, whose callee is g, may be inlined. */
  ghost predicate May(m: Module, code: seq<Inst>, j: nat, g: Func) {
    && j < |code| && code[j].Call? && Inlinable(g) && |code[j].args| == |g.params| && NoHints(g)
    && FindFunc(m.funcs, code[j].callee) == Some(g)
  }

  lemma SpliceTimes(m: Module, m': Module, code: seq<Inst>, j: nat, g: Func, n: nat, s: State, s': State, d: nat, k: nat)
    requires May(m, code, j, g) && (forall x | 0 <= x < |code| :: InstOk(code[x], n))
    requires Keeps(n, s.regs, s'.regs) && s'.globals == s.globals
    requires CallsSlower(m, m', d) && CallsReturn(m, m', 2 * d + 1) && ExecInsts(m, code, s, 2 * d + 1, k).Timeout?
    ensures ExecInsts(m', code[..j] + Inlined(code[j], g, n) + code[j + 1..], s', d, k).Timeout?
  {
    hide CallsReturn, CallsSlower, RunFunc, InstOk, Keeps, Inlined, NoHints, FindFunc, Inlinable;
    var D, head, i, tail := 2 * d + 1, code[..j], code[j], code[j + 1..];
    var copy := Inlined(i, g, n);
    assert code == head + ([i] + tail);
    assert ([i] + tail)[0] == i && ([i] + tail)[1..] == tail;
    ExecAppend(m, head, [i] + tail, s, D, k);
    ExecAppend(m', head, copy, s', d, k);
    ExecAppend(m', head + copy, tail, s', d, k);
    if ExecInsts(m, head, s, D, k).Timeout? {
      CodeTimes(m, m', head, n, s, s', D, d, k);
    } else {
      var s1 := ExecInsts(m, head, s, D, k).value;
      CodeKept(m, m', head, n, s, s', D, k);
      var s1' := ExecInsts(m', head, s', D, k).value;
      CodeEnds(m', head, s', d, D, k, s1');
      if ExecInsts(m', head, s', d, k).Done? { RestTimes(m, m', i, tail, g, n, s1, s1', d, k); }
    }
  }

  /** From the inlined call on. */
  lemma RestTimes(m: Module, m': Module, i: Inst, tail: seq<Inst>, g: Func, n: nat, s: State, s': State, d: nat, k: nat)
    requires i.Call? && Inlinable(g) && |i.args| == |g.params| && NoHints(g) && FindFunc(m.funcs, i.callee) == Some(g)
    requires InstOk(i, n) && (forall x | 0 <= x < |tail| :: InstOk(tail[x], n)) && Keeps(n, s.regs, s'.regs) && s'.globals == s.globals
    requires CallsSlower(m, m', d) && CallsReturn(m, m', 2 * d + 1)
    requires var o := ExecInst(m, i, s, 2 * d + 1, k);
             o.Timeout? || (o.Done? && ExecInsts(m, tail, o.value, 2 * d + 1, k).Timeout?)
    ensures var o := ExecInsts(m', Inlined(i, g, n), s', d, k);
            o.Timeout? || (o.Done? && ExecInsts(m', tail, o.value, d, k).Timeout?)
  {
    hide CallsReturn, CallsSlower, RunFunc, InstOk, Keeps, Inlined, NoHints, FindFunc, Inlinable, ExecInst, ExecInsts;
    if ExecInst(m, i, s, 2 * d + 1, k).Timeout? {
      InlinedTimes(m, m', i, g, n, s, s', d, k);
    } else {
      var u := InlinedRuns(m, m', i, g, n, s, s', 2 * d + 1, k);
      CodeEnds(m', Inlined(i, g, n), s', d, 2 * d + 1, k, u);
      if ExecInsts(m', Inlined(i, g, n), s', d, k).Done? {
        CodeTimes(m, m', tail, n, ExecInst(m, i, s, 2 * d + 1, k).value, u, 2 * d + 1, d, k);
      }
    }
  }

  ghost predicate Spliced(m: Module, code: seq<Inst>, code': seq<Inst>, n: nat, j: nat, g: Func) {
    May(m, code, j, g) && code' == code[..j] + Inlined(code[j], g, n) + code[j + 1..]
  }

  /** The code as it was, or with one call inlined. */
  ghost predicate Edited(m: Module, code: seq<Inst>, code': seq<Inst>, n: nat) {
    code' == code || exists j: nat, g :: Spliced(m, code, code', n, j, g)
  }

  lemma EditedTimes(m: Module, m': Module, code: seq<Inst>, code': seq<Inst>, n: nat, s: State, s': State, d: nat, k: nat)
    requires Edited(m, code, code', n) && (forall x | 0 <= x < |code| :: InstOk(code[x], n))
    requires Keeps(n, s.regs, s'.regs) && s'.globals == s.globals && CallsSlower(m, m', d) && CallsReturn(m, m', 2 * d + 1)
    ensures ExecInsts(m, code, s, 2 * d + 1, k).Timeout? ==> ExecInsts(m', code', s', d, k).Timeout?
    ensures var o, o' := ExecInsts(m, code, s, 2 * d + 1, k), ExecInsts(m', code', s', d, k);
            o.Done? ==> o'.Timeout? || (o'.Done? && Keeps(n, o.value.regs, o'.value.regs) && o'.value.globals == o.value.globals)
  {
    hide CallsReturn, CallsSlower, InstOk, Keeps, Inlined, ExecInsts, May, Spliced, Inlinable, NoHints, FindFunc;
    var o := ExecInsts(m, code, s, 2 * d + 1, k);
    if code' == code {
      if o.Timeout? {
        CodeTimes(m, m', code, n, s, s', 2 * d + 1, d, k);
      } else if o.Done? {
        CodeKept(m, m', code, n, s, s', 2 * d + 1, k);
        CodeEnds(m', code, s', d, 2 * d + 1, k, ExecInsts(m', code, s', 2 * d + 1, k).value);
      }
    } else {
      var j: nat, g :| Spliced(m, code, code', n, j, g);
      SplicedParts(m, code, code', n, j, g);
      if o.Timeout? {
        SpliceTimes(m, m', code, j, g, n, s, s', d, k);
      } else if o.Done? {
        SpliceKept(m, m', code, j, g, n, s, s', 2 * d + 1, k);
        CodeEnds(m', code', s', d, 2 * d + 1, k, ExecInsts(m', code', s', 2 * d + 1, k).value);
      }
    }
  }

  lemma SplicedParts(m: Module, code: seq<Inst>, code': seq<Inst>, n: nat, j: nat, g: Func)
    requires Spliced(m, code, code', n, j, g)
    ensures May(m, code, j, g) && j < |code| && code[j].Call? && Inlinable(g) && |code[j].args| == |g.params| && NoHints(g)
    ensures FindFunc(m.funcs, code[j].callee) == Some(g) && code' == code[..j] + Inlined(code[j], g, n) + code[j + 1..]
  {
  }

  /** f' is f but for one inlined call at most. */
  ghost predicate EditedFunc(m: Module, f: Func, f': Func) {
    && FuncOk(f) && |f'.blocks| == |f.blocks| && f'.params == f.params
    && forall b | 0 <= b < |f.blocks| ::
         f'.blocks[b].term == f.blocks[b].term && Edited(m, f.blocks[b].insts, f'.blocks[b].insts, f.numVregs)
  }

  lemma {:induction false} BlockTimes(m: Module, m': Module, f: Func, f': Func, b: nat, s: State, s': State, d: nat, k: nat)
    requires EditedFunc(m, f, f') && CallsSlower(m, m', d) && CallsReturn(m, m', 2 * d + 1)
    requires Keeps(f.numVregs, s.regs, s'.regs) && s'.globals == s.globals && RunBlock(m, f, b, s, 2 * d + 1, k).Timeout?
    ensures RunBlock(m', f', b, s', d, k).Timeout?
    decreases k
  {
    hide CallsReturn, CallsSlower, ExecInsts, Keeps, InstOk, Edited;
    var n := f.numVregs;
    assert BlockOk(f.blocks[b], |f.blocks|, n);
    var code, code', t := f.blocks[b].insts, f'.blocks[b].insts, f.blocks[b].term;
    EditedTimes(m, m', code, code', n, s, s', d, k);
    var o, o' := ExecInsts(m, code, s, 2 * d + 1, k), ExecInsts(m', code', s', d, k);
    if o.Done? && o'.Done? {
      match t
      case Jmp(x) => if k > 0 { BlockTimes(m, m', f, f', x, o.value, o'.value, d, k - 1); }
      case Br(v, x, y) =>
        assert TermUses(t) == ValUses(v);
        ReadKept(v, n, o.value.regs, o'.value.regs);
        if k > 0 { BlockTimes(m, m', f, f', if Read(v, o.value.regs).value != 0 then x else y, o.value, o'.value, d, k - 1); }
      case _ =>
    }
  }

  lemma {:induction false} RunTimes(m: Module, i: nat, b: nat, j: nat, g: Func, name: string, args: seq<i32>, gl: seq<i32>, d: nat, k: nat)
    requires Site(m, i, b, j, g) && (forall x | 0 <= x < |m.funcs| :: FuncOk(m.funcs[x]))
    requires RunFunc(m, name, args, gl, 2 * d + 1, k).Timeout?
    ensures RunFunc(InlineAt(m, i, b, j, g), name, args, gl, d, k).Timeout?
    decreases d
  {
    var m' := InlineAt(m, i, b, j, g);
    assert CallsSlower(m, m', d) by {
      forall e: nat, nm, xs, gs, z: nat | e < d && RunFunc(m, nm, xs, gs, 2 * e + 1, z).Timeout?
        ensures RunFunc(m', nm, xs, gs, e, z).Timeout?
      {
        RunTimes(m, i, b, j, g, nm, xs, gs, e, z);
      }
    }
    assert CallsReturn(m, m', 2 * d + 1) by {
      forall e: nat, nm, xs, gs, z: nat | e < 2 * d + 1 && RunFunc(m, nm, xs, gs, e, z).Done?
        ensures RunFunc(m', nm, xs, gs, e, z) == RunFunc(m, nm, xs, gs, e, z)
      {
        RunReturns(m, i, b, j, g, nm, xs, gs, e, z);
      }
    }
    hide CallsReturn, CallsSlower, RunBlock, FuncOk, WithInlined, EditedFunc, Edited;
    var f, h := m.funcs[i], FindFunc(m.funcs, name).value;
    SiteParts(m, i, b, j, g);
    SameSignature(f, b, j, g);
    FindReplaced(m.funcs, i, WithInlined(f, b, j, g), name);
    FoundOk(m.funcs, name);
    var s := State(Entry(h.params, args), gl);
    KeepsSelf(h.numVregs, s.regs);
    var h' := FindFunc(m'.funcs, name).value;
    if h' == h { Unedited(m, h); } else { EditedOnce(m, i, b, j, g); }
    BlockTimes(m, m', h, h', 0, s, s, d, k);
  }

  lemma {:induction false} FoundOk(fs: seq<Func>, name: string)
    requires FindFunc(fs, name).Some? && forall x | 0 <= x < |fs| :: FuncOk(fs[x])
    ensures FuncOk(FindFunc(fs, name).value)
  {
    hide FuncOk;
    if fs[0].name != name { FoundOk(fs[1..], name); }
  }

  lemma Unedited(m: Module, f: Func)
    requires FuncOk(f)
    ensures EditedFunc(m, f, f)
  {
    hide FuncOk;
  }

  lemma EditedOnce(m: Module, i: nat, b: nat, j: nat, g: Func)
    requires Site(m, i, b, j, g)
    ensures EditedFunc(m, m.funcs[i], WithInlined(m.funcs[i], b, j, g))
  {
    hide FuncOk, FindFunc, Inlinable, NoHints, Inlined;
    assert Spliced(m, m.funcs[i].blocks[b].insts, WithInlined(m.funcs[i], b, j, g).blocks[b].insts, m.funcs[i].numVregs, j, g);
  }

  /** Inlining one call keeps divergence. */
  lemma InlineAtLoops(m: Module, i: nat, b: nat, j: nat, g: Func)
    requires Site(m, i, b, j, g) && forall x | 0 <= x < |m.funcs| :: FuncOk(m.funcs[x])
    ensures KeepsLoops(m, InlineAt(m, i, b, j, g))
  {
    SiteParts(m, i, b, j, g);
    hide RunFunc, Site, FuncOk, InlineAt;
    forall name, args, gl, d: nat, k: nat | Diverges(m, name, args, gl) ensures RunFunc(InlineAt(m, i, b, j, g), name, args, gl, d, k).Timeout? {
      RunTimes(m, i, b, j, g, name, args, gl, d, k);
    }
  }
}
