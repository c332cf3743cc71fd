/** The inlining pass as it is written: sweeps over all functions, at most five. */
module Inliner {
  import opened Word32
  import opened IR
  import opened Discipline
  import opened Inline
  import opened InlineLoops
  import opened Sweeps

  ghost predicate ModuleOk(m: Module) {
    Distinct(m) && forall i | 0 <= i < |m.funcs| :: FuncOk(m.funcs[i]) && NoHints(m.funcs[i])
  }

  lemma OkDistinct(m: Module)
    requires ModuleOk(m)
    ensures Distinct(m)
  {
  }

  /** The state of a sweep: what it has done keeps every run, and the next step may be taken. */
  ghost predicate Sweeping(m0: Module, m: Module) {
    ModuleOk(m) && SameRuns(m0, m) && |m.funcs| == |m0.funcs| && (ModuleShaped(m0) ==> ModuleShaped(m))
  }

  /** One call, inlined where the source's test allows it. */
  lemma StepSweeps(m0: Module, m: Module, i: nat, b: nat, j: nat, g: Func)
    requires Sweeping(m0, m) && i < |m.funcs| && b < |m.funcs[i].blocks| && j < |m.funcs[i].blocks[b].insts|
    requires var call := m.funcs[i].blocks[b].insts[j];
             call.Call? && FindFunc(m.funcs, call.callee) == Some(g) && Inlinable(g) && |call.args| == |g.params|
    ensures Sweeping(m0, InlineAt(m, i, b, j, g))
  {
    hide FuncOk, NoHints, RunFunc, WithInlined, FindFunc, Inlinable, Returns, KeepsLoops, Shaped;
    FindAt(m.funcs, m.funcs[i].blocks[b].insts[j].callee);
    var k :| 0 <= k < |m.funcs| && m.funcs[k] == g;
    if ModuleShaped(m) { WithInlinedShaped(m.funcs[i], b, j, g); }
    assert FuncOk(m.funcs[i]) && Site(m, i, b, j, g);
    InlineAtReturns(m, i, b, j, g);
    InlineAtLoops(m, i, b, j, g);
    SameRunsTrans(m0, m, InlineAt(m, i, b, j, g));
    WithInlinedOk(m.funcs[i], b, j, g);
    SameSignature(m.funcs[i], b, j, g);
  }

  /** Inlining an eligible call. */
  method EligibleSweeps(ghost m0: Module, m: Module, i: nat, b: nat, j: nat) returns (g: Func)
    requires Sweeping(m0, m) && i < |m.funcs| && b < |m.funcs[i].blocks| && j < |m.funcs[i].blocks[b].insts|
    requires Eligible(m, m.funcs[i].name, m.funcs[i].blocks[b].insts[j])
    ensures var f, call, code := m.funcs[i], m.funcs[i].blocks[b].insts[j], m.funcs[i].blocks[b].insts;
            && call.Call? && Inlinable(g) && |call.args| == |g.params| && Sweeping(m0, InlineAt(m, i, b, j, g))
            && FindFunc(m.funcs, call.callee) == Some(g)
            && var f' := InlineAt(m, i, b, j, g).funcs;
               && |f'| == |m.funcs| && |f'[i].blocks| == |f.blocks|
               && f'[i].blocks[b].insts == code[..j] + Inlined(call, g, f.numVregs) + code[j + 1..]
  {
    hide FuncOk, NoHints, RunFunc, FindFunc, Inlinable, SameRuns, Inlined;
    g := FindFunc(m.funcs, m.funcs[i].blocks[b].insts[j].callee).value;
    StepSweeps(m0, m, i, b, j, g);
  }

  /** f with this code in block b, and nv registers. */
  function WithCode(f: Func, b: nat, code: seq<Inst>, nv: nat): Func
    requires b < |f.blocks|
  {
    f.(blocks := f.blocks[b := Block(code, f.blocks[b].term)], numVregs := nv)
  }

  /** Module m in the middle of function i, which is f but for the code of block b. */
  ghost predicate Amid(ms: Module, m: Module, i: nat, f: Func, b: nat, code: seq<Inst>, nv: nat) {
    OnlyChanged(ms, m, i) && f.name == ms.funcs[i].name && b < |f.blocks| && m.funcs[i] == WithCode(f, b, code, nv)
  }

  lemma AmidNext(ms: Module, m: Module, i: nat, f: Func, b: nat, out: seq<Inst>, call: Inst, rest: seq<Inst>, nv: nat, g: Func)
    requires Amid(ms, m, i, f, b, out + [call] + rest, nv) && (out + [call] + rest)[|out|] == call
    requires call.Call? && Inlinable(g) && |call.args| == |g.params|
    ensures Amid(ms, InlineAt(m, i, b, |out|, g), i, f, b, out + Inlined(call, g, nv) + rest, nv + g.numVregs)
  {
    hide Inlined, Inlinable;
    assert (out + [call] + rest)[..|out|] == out && (out + [call] + rest)[|out| + 1..] == rest;
  }

  /** The next instruction of a block: `out` is what is done of it, and the rest follows. */
  method InlineNext(ghost m0: Module, ghost ms: Module, m: Module, i: nat, ghost f: Func, b: nat, out: seq<Inst>, call: Inst,
                    ghost rest: seq<Inst>, ghost nv: nat)
    returns (r: Module, out': seq<Inst>, any: bool, ghost nv': nat)
    requires Sweeping(m0, m) && Amid(ms, m, i, f, b, out + [call] + rest, nv)
    ensures any <==> Eligible(ms, f.name, call)
    ensures any ==> var g := FindFunc(ms.funcs, call.callee).value;
                    out' == out + Inlined(call, g, nv) && nv' == nv + g.numVregs
    ensures !any ==> r == m && out' == out + [call] && nv' == nv
    ensures Sweeping(m0, r) && Amid(ms, r, i, f, b, out' + rest, nv')
  {
    assert (out + [call] + rest)[|out|] == call;
    SameCallees(ms, m, i, call);
    hide Sweeping, Eligible, InlineAt, Inlined;
    r, any, nv' := m, Eligible(m, m.funcs[i].name, call), nv;
    if any {
      var g := EligibleSweeps(m0, m, i, b, |out|);
      AmidNext(ms, m, i, f, b, out, call, rest, nv, g);
      out' := out + Inlined(call, g, m.funcs[i].numVregs);
      r := InlineAt(m, i, b, |out|, g);
      nv' := nv + g.numVregs;
    } else {
      out' := out + [call];
    }
  }

  /** What is done and what is to come make up the swept block. */
  ghost predicate SweptSoFar(ms: Module, f: Func, code: seq<Inst>, k: nat, out: seq<Inst>, nv: nat) {
    k <= |code| && Swept(ms, f.name, code, f.numVregs) ==
      (out + Swept(ms, f.name, code[k..], nv).0, Swept(ms, f.name, code[k..], nv).1)
  }

  lemma SweptNext(ms: Module, f: Func, code: seq<Inst>, k: nat, out: seq<Inst>, nv: nat, out': seq<Inst>, nv': nat)
    requires k < |code| && SweptSoFar(ms, f, code, k, out, nv)
    requires if Eligible(ms, f.name, code[k]) then
               var g := FindFunc(ms.funcs, code[k].callee).value;
               out' == out + Inlined(code[k], g, nv) && nv' == nv + g.numVregs
             else out' == out + [code[k]] && nv' == nv
    ensures SweptSoFar(ms, f, code, k + 1, out', nv')
  {
    hide Inlined;
    assert code[k..][1..] == code[k + 1..] && code[k..][0] == code[k];
    hide Eligible;
    var (rest, top) := Swept(ms, f.name, code[k + 1..], nv');
    if Eligible(ms, f.name, code[k]) {
      assert out' + rest == out + (Inlined(code[k], FindFunc(ms.funcs, code[k].callee).value, nv) + rest);
    } else {
      assert out' + rest == out + ([code[k]] + rest);
    }
  }

  /** One block, in the module ms that its function was found in. */
  method InlineBlock(ghost m0: Module, ghost ms: Module, m: Module, i: nat, b: nat) returns (r: Module, any: bool)
    requires Sweeping(m0, m) && i < |m.funcs| && OnlyChanged(ms, m, i) && b < |m.funcs[i].blocks|
    ensures Sweeping(m0, r) && OnlyChanged(ms, r, i) && i < |r.funcs|
    ensures var f := m.funcs[i];
            var (code, top) := Swept(ms, f.name, f.blocks[b].insts, f.numVregs);
            r.funcs[i] == WithCode(f, b, code, top)
    ensures !any ==> r == m
    ensures any <==> !CodeSettled(ms, m.funcs[i].name, m.funcs[i].blocks[b].insts)
  {
    hide Sweeping, Eligible, Swept, OnlyChanged, Amid, SweptSoFar, SettledTo, InlineAt;
    r := m;
    any := false;
    ghost var f, nv := m.funcs[i], m.funcs[i].numVregs;
    var code := m.funcs[i].blocks[b].insts;
    var out: seq<Inst> := [];
    BlockStarts(ms, m, i, b);
    SettledStarts(ms, f.name, code);
    for k := 0 to |code|
      invariant Sweeping(m0, r) && Amid(ms, r, i, f, b, out + code[k..], nv) && SweptSoFar(ms, f, code, k, out, nv)
      invariant any <==> !SettledTo(ms, f.name, code, k)
      invariant !any ==> r == m
    {
      NextOf(out, code, k);
      ghost var out0, nv0 := out, nv;
      var more;
      r, out, more, nv := InlineNext(m0, ms, r, i, f, b, out, code[k], code[k + 1..], nv);
      SweptNext(ms, f, code, k, out0, nv0, out, nv);
      SettledOne(ms, f.name, code, k);
      any := any || more;
    }
    SettledEnds(ms, f.name, code);
    BlockEnds(ms, r, i, f, b, code, out, nv);
  }

  /** None of the first k instructions may be inlined. */
  ghost predicate SettledTo(m: Module, caller: string, code: seq<Inst>, k: nat) {
    forall j | 0 <= j < k && j < |code| :: !Eligible(m, caller, code[j])
  }

  lemma SettledStarts(m: Module, caller: string, code: seq<Inst>)
    ensures SettledTo(m, caller, code, 0)
  {
  }

  lemma SettledOne(m: Module, caller: string, code: seq<Inst>, k: nat)
    requires k < |code|
    ensures SettledTo(m, caller, code, k + 1) <==> SettledTo(m, caller, code, k) && !Eligible(m, caller, code[k])
  {
    hide Eligible;
  }

  lemma SettledEnds(m: Module, caller: string, code: seq<Inst>)
    ensures SettledTo(m, caller, code, |code|) <==> CodeSettled(m, caller, code)
  {
    hide Eligible;
  }

  lemma NextOf(out: seq<Inst>, code: seq<Inst>, k: nat)
    requires k < |code|
    ensures out + code[k..] == out + [code[k]] + code[k + 1..]
  {
  }

  lemma BlockStarts(ms: Module, m: Module, i: nat, b: nat)
    requires OnlyChanged(ms, m, i) && b < |m.funcs[i].blocks|
    ensures var f, code := m.funcs[i], m.funcs[i].blocks[b].insts;
            Amid(ms, m, i, f, b, [] + code[0..], f.numVregs) && SweptSoFar(ms, f, code, 0, [], f.numVregs)
  {
    var f, code := m.funcs[i], m.funcs[i].blocks[b].insts;
    assert [] + code[0..] == code && code[0..] == code;
    assert f.blocks[b := Block(code, f.blocks[b].term)] == f.blocks;
    hide Swept;
    var (all, top) := Swept(ms, f.name, code, f.numVregs);
    assert [] + all == all;
  }

  lemma BlockEnds(ms: Module, m: Module, i: nat, f: Func, b: nat, code: seq<Inst>, out: seq<Inst>, nv: nat)
    requires Amid(ms, m, i, f, b, out + code[|code|..], nv) && SweptSoFar(ms, f, code, |code|, out, nv)
    ensures OnlyChanged(ms, m, i) && (out, nv) == Swept(ms, f.name, code, f.numVregs)
    ensures m.funcs[i] == WithCode(f, b, out, nv)
  {
    assert code[|code|..] == [] && out + [] == out;
    assert Swept(ms, f.name, [], nv) == ([], nv);
  }

  /** Module m while function i is in its turn, with n of its blocks done. */
  ghost predicate InTurn(ms: Module, m: Module, i: nat, n: nat) {
    && OnlyChanged(ms, m, i) && n <= |ms.funcs[i].blocks| && m.funcs[i] == SweptTo(ms, i, n)
  }

  /** `inlineSweep`: functions in order, each seeing the earlier ones as already changed. */
  method InlineSweep(m0: Module) returns (m: Module, any: bool)
    requires ModuleOk(m0)
    ensures ModuleOk(m) && SameRuns(m0, m) && (ModuleShaped(m0) ==> ModuleShaped(m))
    ensures m == SweptModule(m0, |m0.funcs|)
    ensures any <==> !NoSites(m0)
  {
    hide Sweeping, FuncSettled, NoSites, Turn, ModuleOk, SameRuns;
    OkDistinct(m0);
    NoSitesIff(m0);
    m := m0;
    any := false;
    SweepingSelf(m0);
    for i := 0 to |m0.funcs|
      invariant Sweeping(m0, m) && m == SweptModule(m0, i)
      invariant any ==> !AllSettled(m0)
      invariant !any ==> m == m0 && forall k: nat | k < i :: FuncSettled(m0, k)
    {
      var more;
      m, more := InlineFunc(m0, m, i);
      TurnNext(m0, i);
      if more && !any { assert !FuncSettled(m0, i); }
      any := any || more;
    }
    SweepingEnds(m0, m);
  }

  lemma SweepingSelf(m: Module)
    requires ModuleOk(m)
    ensures Sweeping(m, m)
  {
    SameRunsSelf(m);
  }

  lemma SweepingEnds(m0: Module, m: Module)
    requires Sweeping(m0, m)
    ensures ModuleOk(m) && SameRuns(m0, m) && (ModuleShaped(m0) ==> ModuleShaped(m))
  {
  }

  lemma TurnNext(m: Module, i: nat)
    requires i < |m.funcs|
    ensures SweptModule(m, i + 1) == Turn(SweptModule(m, i), i)
  {
  }

  method InlineFunc(ghost m0: Module, m: Module, i: nat) returns (r: Module, any: bool)
    requires Sweeping(m0, m) && i < |m.funcs|
    ensures Sweeping(m0, r) && r == Turn(m, i)
    ensures any <==> !FuncSettled(m, i)
    ensures !any ==> r == m
  {
    hide Sweeping, CodeSettled, Swept;
    r := m;
    any := false;
    var n := |m.funcs[i].blocks|;
    assert m.funcs[i := m.funcs[i]] == m.funcs;
    for b := 0 to n
      invariant Sweeping(m0, r) && InTurn(m, r, i, b)
      invariant any ==> exists c :: 0 <= c < b && !CodeSettled(m, m.funcs[i].name, m.funcs[i].blocks[c].insts)
      invariant !any ==> r == m && forall c | 0 <= c < b :: CodeSettled(m, m.funcs[i].name, m.funcs[i].blocks[c].insts)
    {
      var more;
      r, more := InlineBlock(m0, m, r, i, b);
      any := any || more;
    }
  }

  /**
   * `inlineFunctions`: every run that returns still returns the same and every run that
   * diverges diverges; and no call is left to inline if no chain of calls of one-block
   * functions has more than five, or if each such function stands before its callers.
   */
  method InlineFunctions(m0: Module) returns (m: Module)
    requires ModuleOk(m0)
    ensures ModuleOk(m) && SameRuns(m0, m) && (ModuleShaped(m0) ==> ModuleShaped(m))
    ensures m == AfterSweeps(m0, 5)
    ensures ShortChains(m0) || CalleesFirst(m0) ==> NoSites(m)
  {
    hide ModuleOk, SameRuns, NoSites, ModuleShaped, SweptModule, ShortChains, CalleesFirst, AllSettled, Distinct;
    m := m0;
    SameRunsSelf(m0);
    for pass := 0 to 5
      invariant ModuleOk(m) && SameRuns(m0, m) && (ModuleShaped(m0) ==> ModuleShaped(m))
      invariant AfterSweeps(m, 5 - pass) == AfterSweeps(m0, 5)
    {
      ghost var before := m;
      OkDistinct(m);
      var any;
      m, any := InlineSweep(m);
      SameRunsTrans(m0, before, m);
      if !any {
        NoSitesIff(before);
        SettledSweeps(before, 5 - pass);
        SettledSweeps(before, 1);
        break;
      }
    }
    OkDistinct(m0);
    if ShortChains(m0) || CalleesFirst(m0) { NothingToInline(m0); }
  }
}
