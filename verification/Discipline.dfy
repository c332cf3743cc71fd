/**
 * What the passes rely on between them: results of expressions are written once
 * in their block, and no edge enters the entry block.  Dead-code and common
 * subexpression elimination keep it.
 */
module Discipline {
  import opened Word32
  import opened IR
  import opened Cse
  import opened Dce

  ghost predicate Shaped(f: Func) {
    Disciplined(f) && forall b | 0 <= b < |f.blocks| :: 0 !in Succs(f.blocks[b].term)
  }

  ghost predicate ModuleShaped(m: Module) {
    forall i | 0 <= i < |m.funcs| :: Shaped(m.funcs[i])
  }

  /** Nothing in ys writes the register of an expression of xs. */
  ghost predicate Spares(xs: seq<Inst>, ys: seq<Inst>) {
    forall j, k | 0 <= k < |xs| && 0 <= j < |ys| && Expression(xs[k]) :: Def(ys[j]) != xs[k].dst
  }

  lemma AppendOnce(xs: seq<Inst>, ys: seq<Inst>)
    requires WrittenOnce(xs) && WrittenOnce(ys) && Spares(xs, ys)
    ensures WrittenOnce(xs + ys)
  {
  }

  lemma PartOnce(code: seq<Inst>, lo: nat, hi: nat)
    requires lo <= hi <= |code| && WrittenOnce(code)
    ensures WrittenOnce(code[lo..hi])
  {
    assert forall k | 0 <= k < hi - lo :: code[lo..hi][k] == code[lo + k];
  }

  /** In well-formed code every value has a destination. */
  lemma OkWritten(f: Func)
    requires FuncOk(f)
    ensures FuncWritten(f)
  {
    forall b | 0 <= b < |f.blocks| ensures AllWritten(f.blocks[b].insts) {
      assert BlockOk(f.blocks[b], |f.blocks|, f.numVregs);
      forall k | 0 <= k < |f.blocks[b].insts| ensures Written(f.blocks[b].insts[k]) {
        assert InstOk(f.blocks[b].insts[k], f.numVregs);
      }
    }
  }

  // ---- dead-code elimination --------------------------------------------------------------

  lemma {:induction false} KeepOnce(code: seq<Inst>, used: set<nat>)
    requires AllWritten(code) && WrittenOnce(code)
    ensures AllWritten(Keep(code, used)) && WrittenOnce(Keep(code, used))
    ensures forall k | 0 <= k < |Keep(code, used)| :: Keep(code, used)[k] in code
  {
    if code != [] {
      OnceTail(code);
      KeepOnce(code[1..], used);
      var rest := Keep(code[1..], used);
      forall j | 0 <= j < |rest| && Expression(code[0]) ensures Def(rest[j]) != code[0].dst {
        var i :| 0 <= i < |code[1..]| && code[1..][i] == rest[j];
      }
      if !Dead(code[0], used) { AppendOnce([code[0]], rest); }
      assert Keep(code, used) == (if Dead(code[0], used) then [] else [code[0]]) + rest;
    }
  }

  lemma SweepShaped(f: Func)
    requires Shaped(f)
    ensures Shaped(Sweep(f))
  {
    forall b | 0 <= b < |f.blocks| ensures AllWritten(Sweep(f).blocks[b].insts) && WrittenOnce(Sweep(f).blocks[b].insts) {
      KeepOnce(f.blocks[b].insts, BlocksUses(f.blocks));
    }
  }

  lemma {:induction false} EliminateShaped(f: Func)
    requires Shaped(f)
    ensures Shaped(Eliminate(f))
    decreases InstCount(f.blocks)
  {
    hide Shaped;
    SweepShaped(f);
    KeepBlocksShrinks(f.blocks, BlocksUses(f.blocks));
    if Sweep(f) != f { EliminateShaped(Sweep(f)); }
  }

  // ---- common subexpressions --------------------------------------------------------------

  /** All registers that hold available values are below n. */
  ghost predicate AvailIn(av: Avail, n: nat) {
    && (forall k | k in av.bin :: av.bin[k] < n)
    && (forall k | k in av.un :: av.un[k] < n)
    && (forall g | g in av.load :: av.load[g] < n)
  }

  lemma {:induction false} KillArgsIn(av: Avail, vs: seq<Val>, n: nat)
    requires AvailIn(av, n)
    ensures AvailIn(KillArgs(av, vs), n)
    decreases |vs|
  {
    if vs != [] { KillArgsIn(KillVal(av, vs[0]), vs[1..], n); }
  }

  /** An instruction keeps its destination, and is kept as it is or becomes a move. */
  lemma StepShape(i: Inst, av: Avail, n: nat)
    requires InstOk(i, n) && Written(i) && AvailIn(av, n)
    ensures var (i', av') := Step(i, av);
            InstOk(i', n) && AvailIn(av', n) && Def(i') == Def(i) && (Expression(i') ==> i' == i) && Written(i')
  {
    if i.Call? { KillArgsIn(av.(load := map[]), i.args, n); }
  }

  /** Reduced code, instruction by instruction. */
  ghost predicate SameShape(code: seq<Inst>, code': seq<Inst>, n: nat) {
    && |code'| == |code|
    && forall k | 0 <= k < |code| ::
         InstOk(code'[k], n) && Written(code'[k]) && Def(code'[k]) == Def(code[k]) && (Expression(code'[k]) ==> code'[k] == code[k])
  }

  lemma {:induction false} CodeShape(code: seq<Inst>, av: Avail, n: nat)
    requires AllWritten(code) && AvailIn(av, n) && forall k | 0 <= k < |code| :: InstOk(code[k], n)
    ensures SameShape(code, Code(code, av), n)
    decreases |code|
  {
    hide InstOk, AvailIn, Step, Written;
    if code != [] {
      StepShape(code[0], av, n);
      CodeShape(code[1..], Step(code[0], av).1, n);
      assert Code(code, av)[1..] == Code(code[1..], Step(code[0], av).1);
    }
  }

  lemma ShapeOnce(code: seq<Inst>, code': seq<Inst>, n: nat)
    requires WrittenOnce(code) && SameShape(code, code', n)
    ensures AllWritten(code') && WrittenOnce(code')
  {
  }

  lemma CseShaped(f: Func)
    requires FuncOk(f) && Shaped(f)
    ensures FuncWritten(f) && FuncOk(CseFunc(f)) && Shaped(CseFunc(f))
  {
    OkWritten(f);
    var f', n := CseFunc(f), f.numVregs;
    forall b | 0 <= b < |f.blocks|
      ensures BlockOk(f'.blocks[b], |f.blocks|, n) && AllWritten(f'.blocks[b].insts) && WrittenOnce(f'.blocks[b].insts)
    {
      assert BlockOk(f.blocks[b], |f.blocks|, n);
      hide Code, WrittenOnce;
      CodeShape(f.blocks[b].insts, EMPTY, n);
      ShapeOnce(f.blocks[b].insts, f'.blocks[b].insts, n);
    }
  }
}
