/** Replacing one function of a module by a better one. */
module Replacement {
  import opened Word32
  import opened IR

  function Replace(m: Module, i: nat, f: Func): Module
    requires i < |m.funcs|
  {
    m.(funcs := m.funcs[i := f])
  }

  /** Every call within fewer than d nested calls refines. */
  ghost predicate CallsRefine(m: Module, m': Module, d: nat) {
    forall e: nat, name, args, g, k: nat | e < d ::
      Refines(RunFunc(m, name, args, g, e, k), RunFunc(m', name, args, g, e, k))
  }

  /** A call of f by its new text, when the calls it makes refine. */
  ghost predicate BodyRefines(m: Module, m': Module, f: Func, f': Func) {
    forall args, g, d: nat, k: nat | |args| == |f.params| && CallsRefine(m, m', d) ::
      Refines(RunBlock(m, f, 0, State(Entry(f.params, args), g), d, k),
              RunBlock(m', f', 0, State(Entry(f.params, args), g), d, k))
  }

  /** In every module, every run with f' in the place of f refines the run with f. */
  ghost predicate Improves(f: Func, f': Func) {
    && f'.name == f.name && f'.params == f.params && f'.returnsVoid == f.returnsVoid
    && forall m: Module, i: nat, name, args, g, d: nat, k: nat | i < |m.funcs| && m.funcs[i] == f ::
         Refines(RunFunc(m, name, args, g, d, k), RunFunc(Replace(m, i, f'), name, args, g, d, k))
  }

  lemma ImprovesSelf(f: Func)
    ensures Improves(f, f)
  {
    hide RunFunc;
    forall m: Module, i: nat, name, args, g, d: nat, k: nat | i < |m.funcs| && m.funcs[i] == f
      ensures Refines(RunFunc(m, name, args, g, d, k), RunFunc(Replace(m, i, f), name, args, g, d, k))
    {
      assert Replace(m, i, f) == m;
    }
  }

  lemma ImprovesTrans(a: Func, b: Func, c: Func)
    requires Improves(a, b) && Improves(b, c)
    ensures Improves(a, c)
  {
    hide RunFunc;
    forall m: Module, i: nat, name, args, g, d: nat, k: nat | i < |m.funcs| && m.funcs[i] == a
      ensures Refines(RunFunc(m, name, args, g, d, k), RunFunc(Replace(m, i, c), name, args, g, d, k))
    {
      assert Replace(Replace(m, i, b), i, c) == Replace(m, i, c);
      assert Refines(RunFunc(m, name, args, g, d, k), RunFunc(Replace(m, i, b), name, args, g, d, k));
    }
  }

  // ---- unchanged code ---------------------------------------------------------------------------

  lemma CallAgain(m: Module, m': Module, i: Inst, s: State, d: nat, k: nat)
    requires i.Call? && CallsRefine(m, m', d)
    ensures Refines(ExecInst(m, i, s, d, k), ExecInst(m', i, s, d, k))
  {
  }

  lemma {:induction false} CodeAgain(m: Module, m': Module, code: seq<Inst>, s: State, d: nat, k: nat)
    requires CallsRefine(m, m', d)
    ensures Refines(ExecInsts(m, code, s, d, k), ExecInsts(m', code, s, d, k))
    decreases |code|
  {
    hide CallsRefine, RunFunc, ExecPlain;
    if code != [] {
      if code[0].Call? { CallAgain(m, m', code[0], s, d, k); }
      var o := ExecInst(m, code[0], s, d, k);
      if o.Done? { CodeAgain(m, m', code[1..], o.value, d, k); }
    }
  }

  lemma {:induction false} BlockAgain(m: Module, m': Module, f: Func, b: nat, s: State, d: nat, k: nat)
    requires CallsRefine(m, m', d)
    ensures Refines(RunBlock(m, f, b, s, d, k), RunBlock(m', f, b, s, d, k))
    decreases k
  {
    hide CallsRefine, ExecInsts;
    if b < |f.blocks| {
      var code, t := f.blocks[b].insts, f.blocks[b].term;
      CodeAgain(m, m', code, s, d, k);
      var o := ExecInsts(m, code, s, d, k);
      if o.Done? && k > 0 {
        match t
        case Jmp(x) => BlockAgain(m, m', f, x, o.value, d, k - 1);
        case Br(c, x, y) =>
          if Read(c, o.value.regs).Some? {
            BlockAgain(m, m', f, if Read(c, o.value.regs).value != 0 then x else y, o.value, d, k - 1);
          }
        case _ =>
      }
    }
  }

  lemma {:induction false} FindReplaced(fs: seq<Func>, i: nat, f': Func, name: string)
    requires i < |fs| && f'.name == fs[i].name
    ensures FindFunc(fs[i := f'], name) == FindFunc(fs, name)
            || (FindFunc(fs, name) == Some(fs[i]) && FindFunc(fs[i := f'], name) == Some(f'))
  {
    if i > 0 {
      assert fs[i := f'][1..] == fs[1..][i - 1 := f'];
      FindReplaced(fs[1..], i - 1, f', name);
    }
  }

  /** It is enough to look at calls of the replaced function. */
  lemma {:induction false} ReplaceRefines(m: Module, i: nat, f: Func, f': Func, name: string, args: seq<i32>, g: seq<i32>, d: nat, k: nat)
    requires i < |m.funcs| && m.funcs[i] == f && f'.name == f.name && f'.params == f.params
    requires BodyRefines(m, Replace(m, i, f'), f, f')
    ensures Refines(RunFunc(m, name, args, g, d, k), RunFunc(Replace(m, i, f'), name, args, g, d, k))
    decreases d
  {
    var m' := Replace(m, i, f');
    assert CallsRefine(m, m', d) by {
      forall e: nat, nm, xs, gl, j: nat | e < d ensures Refines(RunFunc(m, nm, xs, gl, e, j), RunFunc(m', nm, xs, gl, e, j)) {
        ReplaceRefines(m, i, f, f', nm, xs, gl, e, j);
      }
    }
    hide CallsRefine, RunBlock;
    FindReplaced(m.funcs, i, f', name);
    var h := FindFunc(m.funcs, name);
    if h.Some? && |h.value.params| == |args| {
      if FindFunc(m'.funcs, name) == h {
        BlockAgain(m, m', h.value, 0, State(Entry(h.value.params, args), g), d, k);
      }
    }
  }

  lemma ImprovesBy(f: Func, f': Func)
    requires f'.name == f.name && f'.params == f.params && f'.returnsVoid == f.returnsVoid
    requires forall m: Module, i: nat | i < |m.funcs| && m.funcs[i] == f :: BodyRefines(m, Replace(m, i, f'), f, f')
    ensures Improves(f, f')
  {
    hide RunFunc, BodyRefines;
    forall m: Module, i: nat, name, args, g, d: nat, k: nat | i < |m.funcs| && m.funcs[i] == f
      ensures Refines(RunFunc(m, name, args, g, d, k), RunFunc(Replace(m, i, f'), name, args, g, d, k))
    {
      ReplaceRefines(m, i, f, f', name, args, g, d, k);
    }
  }
}
