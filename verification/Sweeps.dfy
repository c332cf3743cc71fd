/** What a sweep of the inlining pass writes, and when the sweeps leave nothing to inline. */
module Sweeps {
  import opened Word32
  import opened IR
  import opened Inline

  /** The instruction is a call that the source's test lets a function inline. */
  predicate Eligible(m: Module, caller: string, call: Inst) {
    call.Call? &&
    var g := FindFunc(m.funcs, call.callee);
    g.Some? && g.value.name != caller && Inlinable(g.value) && |call.args| == |g.value.params|
  }

  /** A block after a sweep, with the number of registers then in use. */
  function Swept(m: Module, caller: string, code: seq<Inst>, base: nat): (seq<Inst>, nat) {
    if code == [] then ([], base)
    else if Eligible(m, caller, code[0]) then
      var g := FindFunc(m.funcs, code[0].callee).value;
      var (rest, top) := Swept(m, caller, code[1..], base + g.numVregs);
      (Inlined(code[0], g, base) + rest, top)
    else
      var (rest, top) := Swept(m, caller, code[1..], base);
      ([code[0]] + rest, top)
  }

  /** Function i with its first n blocks swept. */
  function SweptTo(m: Module, i: nat, n: nat): (f: Func)
    requires i < |m.funcs| && n <= |m.funcs[i].blocks|
    ensures f.name == m.funcs[i].name && |f.blocks| == |m.funcs[i].blocks|
    ensures forall b | 0 <= b < |f.blocks| :: f.blocks[b].term == m.funcs[i].blocks[b].term
    ensures forall b | n <= b < |f.blocks| :: f.blocks[b] == m.funcs[i].blocks[b]
  {
    if n == 0 then m.funcs[i]
    else
      var f := SweptTo(m, i, n - 1);
      var (code, top) := Swept(m, f.name, f.blocks[n - 1].insts, f.numVregs);
      f.(blocks := f.blocks[n - 1 := Block(code, f.blocks[n - 1].term)], numVregs := top)
  }

  /** The module with its first n functions swept, each seeing the earlier ones as already changed. */
  function SweptModule(m: Module, n: nat): (r: Module)
    requires n <= |m.funcs|
    ensures |r.funcs| == |m.funcs| && forall i | n <= i < |m.funcs| :: r.funcs[i] == m.funcs[i]
  {
    if n == 0 then m
    else
      var r := SweptModule(m, n - 1);
      r.(funcs := r.funcs[n - 1 := SweptTo(r, n - 1, |r.funcs[n - 1].blocks|)])
  }

  function AfterSweeps(m: Module, n: nat): Module
    decreases n
  {
    if n == 0 then m else AfterSweeps(SweptModule(m, |m.funcs|), n - 1)
  }

  // ---- what is left to inline -----------------------------------------------------------------

  ghost predicate CodeSettled(m: Module, caller: string, code: seq<Inst>) {
    forall j | 0 <= j < |code| :: !Eligible(m, caller, code[j])
  }

  ghost predicate FuncSettled(m: Module, i: nat) {
    i < |m.funcs| && forall b | 0 <= b < |m.funcs[i].blocks| :: CodeSettled(m, m.funcs[i].name, m.funcs[i].blocks[b].insts)
  }

  ghost predicate AllSettled(m: Module) {
    forall i | 0 <= i < |m.funcs| :: FuncSettled(m, i)
  }

  /** A call of another function k: one short block that returns, not `main`, with as many arguments as parameters. */
  predicate Inlines(m: Module, i: nat, k: nat, call: Inst) {
    && k < |m.funcs| && k != i && call.Call? && call.callee == m.funcs[k].name
    && var g := m.funcs[k];
       && |g.blocks| == 1 && g.blocks[0].term.Ret? && |g.blocks[0].insts| <= 24
       && g.name != "main" && |call.args| == |g.params|
  }

  ghost predicate MayInline(m: Module, i: nat, call: Inst) {
    exists k: nat :: Inlines(m, i, k, call)
  }

  /** No call is left to inline. */
  ghost predicate NoSites(m: Module) {
    forall i, b, j | 0 <= i < |m.funcs| && 0 <= b < |m.funcs[i].blocks| && 0 <= j < |m.funcs[i].blocks[b].insts| ::
      !MayInline(m, i, m.funcs[i].blocks[b].insts[j])
  }

  ghost predicate Distinct(m: Module) {
    forall i, j | 0 <= i < j < |m.funcs| :: m.funcs[i].name != m.funcs[j].name
  }

  /** One block that returns: what a call may be replaced by, small or not. */
  predicate Straight(g: Func) {
    |g.blocks| == 1 && g.blocks[0].term.Ret? && g.name != "main"
  }

  /** The instruction is a call of function k, which is one block. */
  predicate CallsStraight(m: Module, call: Inst, k: nat) {
    k < |m.funcs| && call.Call? && call.callee == m.funcs[k].name && Straight(m.funcs[k])
  }

  ghost predicate Calls(m: Module, i: nat, k: nat) {
    i < |m.funcs| && exists b, j :: 0 <= b < |m.funcs[i].blocks| && 0 <= j < |m.funcs[i].blocks[b].insts|
                                    && CallsStraight(m, m.funcs[i].blocks[b].insts[j], k)
  }

  /** Functions that each call the next one, which is one block. */
  ghost predicate Chain(m: Module, p: seq<nat>) {
    forall x | 0 <= x < |p| - 1 :: Calls(m, p[x], p[x + 1])
  }

  /** No chain has more than five calls; there is then no recursion among one-block functions. */
  ghost predicate ShortChains(m: Module) {
    forall p: seq<nat> | Chain(m, p) :: |p| <= 6
  }

  /** One-block functions are called only behind their text, and so never call themselves. */
  ghost predicate CalleesFirst(m: Module) {
    forall i: nat, k: nat | Calls(m, i, k) :: k < i
  }

  // ---- how many sweeps a function needs -----------------------------------------------------------

  /** Function k is done with before function i: in an earlier sweep, or earlier in the same one. */
  predicate Below(level: seq<nat>, k: nat, i: nat)
    requires k < |level| && i < |level|
  {
    level[k] < level[i] || (level[k] == level[i] > 0 && k < i)
  }

  ghost predicate CodeGraded(m: Module, level: seq<nat>, i: nat, code: seq<Inst>)
    requires |level| == |m.funcs| && i < |level|
  {
    forall j, k: nat | 0 <= j < |code| && k < |level| && CallsStraight(m, code[j], k) :: Below(level, k, i)
  }

  ghost predicate Graded(m: Module, level: seq<nat>) {
    && |level| == |m.funcs|
    && forall i, b | 0 <= i < |level| && 0 <= b < |m.funcs[i].blocks| :: CodeGraded(m, level, i, m.funcs[i].blocks[b].insts)
  }

  /** The same functions by name and kind. */
  ghost predicate Alike(m: Module, m': Module) {
    && |m'.funcs| == |m.funcs|
    && forall k | 0 <= k < |m.funcs| :: m'.funcs[k].name == m.funcs[k].name && (Straight(m'.funcs[k]) <==> Straight(m.funcs[k]))
  }

  /** A call in the copy of g is the copy of a call in g. */
  lemma InlinedCall(call: Inst, g: Func, base: nat, j: nat)
    requires call.Call? && Inlinable(g) && |call.args| == |g.params| && j < |Inlined(call, g, base)|
    requires Inlined(call, g, base)[j].Call?
    ensures exists q :: 0 <= q < |g.blocks[0].insts| && Same(g.blocks[0].insts[q], Inlined(call, g, base)[j])
  {
    var moves, body := ArgMoves(g.params, call.args, |call.args|, base), CloneCode(g.blocks[0].insts, base);
    assert |moves| <= j < |moves| + |body|;
    assert Inlined(call, g, base)[j] == body[j - |moves|] == CloneInst(g.blocks[0].insts[j - |moves|], base);
    assert Same(g.blocks[0].insts[j - |moves|], Inlined(call, g, base)[j]);
  }

  /** Calls of the same function with as many arguments. */
  predicate Same(i: Inst, c: Inst) {
    i.Call? && c.Call? && c.callee == i.callee && |c.args| == |i.args|
  }

  lemma {:induction false} FindAt(fs: seq<Func>, name: string)
    requires FindFunc(fs, name).Some?
    ensures exists k :: 0 <= k < |fs| && fs[k] == FindFunc(fs, name).value && fs[k].name == name
  {
    if fs[0].name != name {
      FindAt(fs[1..], name);
      var k :| 0 <= k < |fs[1..]| && fs[1..][k] == FindFunc(fs, name).value && fs[1..][k].name == name;
      assert fs[k + 1] == fs[1..][k];
    }
  }

  /** The function that an eligible call calls. */
  lemma CalleeAt(m: Module, caller: string, call: Inst) returns (k: nat)
    requires Eligible(m, caller, call)
    ensures k < |m.funcs| && FindFunc(m.funcs, call.callee) == Some(m.funcs[k]) && CallsStraight(m, call, k)
  {
    FindAt(m.funcs, call.callee);
    k :| 0 <= k < |m.funcs| && m.funcs[k] == FindFunc(m.funcs, call.callee).value && m.funcs[k].name == call.callee;
  }

  lemma {:induction false} SweptGraded(m: Module, level: seq<nat>, i: nat, code: seq<Inst>, base: nat)
    requires Graded(m, level) && i < |level| && CodeGraded(m, level, i, code)
    ensures CodeGraded(m, level, i, Swept(m, m.funcs[i].name, code, base).0)
  {
    hide Eligible, Inlined, CallsStraight, Inlinable;
    var caller := m.funcs[i].name;
    if code != [] {
      var rest := code[1..];
      assert CodeGraded(m, level, i, rest);
      if Eligible(m, caller, code[0]) {
        var k := CalleeAt(m, caller, code[0]);
        assert Below(level, k, i);
        var g := FindFunc(m.funcs, code[0].callee).value;
        InlinedGraded(m, level, i, k, caller, code[0], base);
        SweptGraded(m, level, i, rest, base + g.numVregs);
      } else {
        SweptGraded(m, level, i, rest, base);
      }
    }
  }

  lemma InlinedGraded(m: Module, level: seq<nat>, i: nat, k: nat, caller: string, call: Inst, base: nat)
    requires Graded(m, level) && i < |level| && k < |level| && Below(level, k, i) && Eligible(m, caller, call)
    requires FindFunc(m.funcs, call.callee) == Some(m.funcs[k])
    ensures CodeGraded(m, level, i, Inlined(call, m.funcs[k], base))
  {
    var g := m.funcs[k];
    assert CodeGraded(m, level, k, g.blocks[0].insts);
    forall j, x: nat | 0 <= j < |Inlined(call, g, base)| && x < |level| && CallsStraight(m, Inlined(call, g, base)[j], x)
      ensures Below(level, x, i)
    {
      InlinedCall(call, g, base, j);
      var q :| 0 <= q < |g.blocks[0].insts| && Same(g.blocks[0].insts[q], Inlined(call, g, base)[j]);
      assert CallsStraight(m, g.blocks[0].insts[q], x);
      assert Below(level, x, k);
    }
  }

  /** If what function i calls is settled, so is function i after its turn. */
  lemma {:induction false} SweptSettled(m: Module, level: seq<nat>, i: nat, code: seq<Inst>, base: nat)
    requires Graded(m, level) && i < |level| && CodeGraded(m, level, i, code)
    requires forall k: nat | k < |level| && Below(level, k, i) :: FuncSettled(m, k)
    ensures CodeSettled(m, m.funcs[i].name, Swept(m, m.funcs[i].name, code, base).0)
  {
    hide Eligible, Inlined, CallsStraight, Inlinable;
    var caller := m.funcs[i].name;
    if code != [] {
      var rest := code[1..];
      assert CodeGraded(m, level, i, rest);
      if Eligible(m, caller, code[0]) {
        var k := CalleeAt(m, caller, code[0]);
        assert Below(level, k, i);
        var g := FindFunc(m.funcs, code[0].callee).value;
        InlinedSettled(m, level, k, caller, code[0], base);
        SweptSettled(m, level, i, rest, base + g.numVregs);
      } else {
        SweptSettled(m, level, i, rest, base);
      }
    }
  }

  lemma InlinedSettled(m: Module, level: seq<nat>, k: nat, caller: string, call: Inst, base: nat)
    requires Graded(m, level) && k < |level| && FuncSettled(m, k) && Eligible(m, caller, call)
    requires FindFunc(m.funcs, call.callee) == Some(m.funcs[k])
    ensures CodeSettled(m, caller, Inlined(call, m.funcs[k], base))
  {
    var g := m.funcs[k];
    var code := g.blocks[0].insts;
    assert CodeGraded(m, level, k, code) && CodeSettled(m, g.name, code);
    forall q | 0 <= q < |code| ensures !CallsStraight(m, code[q], k) {
      assert !Below(level, k, k);
    }
    forall j | 0 <= j < |Inlined(call, g, base)| ensures !Eligible(m, caller, Inlined(call, g, base)[j]) {
      var c := Inlined(call, g, base)[j];
      if Eligible(m, caller, c) {
        InlinedCall(call, g, base, j);
        var q :| 0 <= q < |code| && Same(code[q], c);
        assert !Eligible(m, g.name, code[q]);
        FindAt(m.funcs, c.callee);
        assert false;
      }
    }
  }

  /** A sweep does not touch settled code. */
  lemma {:induction false} SweptSame(m: Module, caller: string, code: seq<Inst>, base: nat)
    requires CodeSettled(m, caller, code)
    ensures Swept(m, caller, code, base) == (code, base)
  {
    hide Eligible;
    if code != [] {
      SweptSame(m, caller, code[1..], base);
      assert [code[0]] + code[1..] == code;
    }
  }

  lemma {:induction false} SweptToSame(m: Module, i: nat, n: nat)
    requires FuncSettled(m, i) && n <= |m.funcs[i].blocks|
    ensures SweptTo(m, i, n) == m.funcs[i]
  {
    if n > 0 {
      SweptToSame(m, i, n - 1);
      var f := m.funcs[i];
      SweptSame(m, f.name, f.blocks[n - 1].insts, f.numVregs);
      assert f.blocks[n - 1 := Block(f.blocks[n - 1].insts, f.blocks[n - 1].term)] == f.blocks;
    }
  }

  /** The blocks of a function after its turn. */
  lemma {:induction false} SweptToBlocks(m: Module, level: seq<nat>, i: nat, n: nat)
    requires Graded(m, level) && i < |level| && n <= |m.funcs[i].blocks|
    ensures forall b | 0 <= b < |m.funcs[i].blocks| :: CodeGraded(m, level, i, SweptTo(m, i, n).blocks[b].insts)
    ensures (forall k: nat | k < |level| && Below(level, k, i) :: FuncSettled(m, k)) ==>
              forall b | 0 <= b < n :: CodeSettled(m, m.funcs[i].name, SweptTo(m, i, n).blocks[b].insts)
  {
    hide CodeGraded, CodeSettled, FuncSettled, Below, Swept;
    if n > 0 {
      SweptToBlocks(m, level, i, n - 1);
      var f := SweptTo(m, i, n - 1);
      SweptGraded(m, level, i, f.blocks[n - 1].insts, f.numVregs);
      if forall k: nat | k < |level| && Below(level, k, i) :: FuncSettled(m, k) {
        SweptSettled(m, level, i, f.blocks[n - 1].insts, f.numVregs);
      }
    }
  }

  lemma {:induction false} FindDistinct(fs: seq<Func>, k: nat)
    requires k < |fs| && forall i, j | 0 <= i < j < |fs| :: fs[i].name != fs[j].name
    ensures FindFunc(fs, fs[k].name) == Some(fs[k])
  {
    if k > 0 {
      assert fs[0].name != fs[k].name && fs[1..][k - 1] == fs[k];
      FindDistinct(fs[1..], k - 1);
    }
  }

  lemma OneBlockCount(g: Func)
    requires |g.blocks| == 1
    ensures InstCount(g) == |g.blocks[0].insts|
  {
    assert g.blocks[1..] == [] && Count([]) == 0;
  }

  /** The test of the pass is the one meant. */
  lemma EligibleMeans(m: Module, i: nat, call: Inst)
    requires Distinct(m) && i < |m.funcs|
    ensures Eligible(m, m.funcs[i].name, call) <==> MayInline(m, i, call)
  {
    if Eligible(m, m.funcs[i].name, call) {
      var k := CalleeAt(m, m.funcs[i].name, call);
      OneBlockCount(m.funcs[k]);
      assert Inlines(m, i, k, call);
    }
    if MayInline(m, i, call) {
      var k: nat :| Inlines(m, i, k, call);
      FindDistinct(m.funcs, k);
      OneBlockCount(m.funcs[k]);
    }
  }

  lemma NoSitesIff(m: Module)
    requires Distinct(m)
    ensures AllSettled(m) <==> NoSites(m)
  {
    hide Eligible, MayInline, Distinct;
    forall i, b, j | 0 <= i < |m.funcs| && 0 <= b < |m.funcs[i].blocks| && 0 <= j < |m.funcs[i].blocks[b].insts|
      ensures Eligible(m, m.funcs[i].name, m.funcs[i].blocks[b].insts[j]) <==> MayInline(m, i, m.funcs[i].blocks[b].insts[j])
    {
      EligibleMeans(m, i, m.funcs[i].blocks[b].insts[j]);
    }
    if NoSites(m) {
      forall i | 0 <= i < |m.funcs| ensures FuncSettled(m, i) { SettledBy(m, i); }
    }
    if AllSettled(m) {
      forall i, b, j | 0 <= i < |m.funcs| && 0 <= b < |m.funcs[i].blocks| && 0 <= j < |m.funcs[i].blocks[b].insts|
        ensures !MayInline(m, i, m.funcs[i].blocks[b].insts[j])
      {
        assert FuncSettled(m, i) && CodeSettled(m, m.funcs[i].name, m.funcs[i].blocks[b].insts);
      }
    }
  }

  lemma {:induction false} SweptNames(m: Module, n: nat)
    requires n <= |m.funcs|
    ensures forall i | 0 <= i < |m.funcs| :: SweptModule(m, n).funcs[i].name == m.funcs[i].name
  {
    if n > 0 { SweptNames(m, n - 1); }
  }

  lemma {:induction false} SweepsDistinct(m: Module, n: nat)
    requires Distinct(m)
    ensures Distinct(AfterSweeps(m, n))
    decreases n
  {
    if n > 0 {
      SweptNames(m, |m.funcs|);
      SweepsDistinct(SweptModule(m, |m.funcs|), n - 1);
    }
  }

  // ---- one function's turn ------------------------------------------------------------------------

  /** Function c changes; a lookup finds what it found, or the new one for the old one. */
  lemma EligibleOthers(m: Module, c: nat, f: Func, caller: string, call: Inst)
    requires c < |m.funcs| && f.name == m.funcs[c].name && (Straight(f) <==> Straight(m.funcs[c])) && f.params == m.funcs[c].params
    requires caller == f.name || !CallsStraight(m, call, c)
    ensures Eligible(m.(funcs := m.funcs[c := f]), caller, call) ==> Eligible(m, caller, call)
  {
    if call.Call? {
      FindReplaced(m.funcs, c, f, call.callee);
      if FindFunc(m.funcs, call.callee).Some? { FindAt(m.funcs, call.callee); }
    }
  }

  /** m' is m but for function i, which keeps its name. */
  ghost predicate OnlyChanged(m: Module, m': Module, i: nat) {
    && i < |m.funcs| && |m'.funcs| == |m.funcs| && m'.funcs[i].name == m.funcs[i].name
    && m' == m.(funcs := m.funcs[i := m'.funcs[i]])
  }

  /** While function i is worked on, its calls may be inlined as they might at first. */
  lemma SameCallees(m: Module, m': Module, i: nat, call: Inst)
    requires OnlyChanged(m, m', i)
    ensures var caller := m.funcs[i].name;
            && (Eligible(m', caller, call) <==> Eligible(m, caller, call))
            && (Eligible(m, caller, call) ==> FindFunc(m'.funcs, call.callee) == FindFunc(m.funcs, call.callee))
  {
    if call.Call? { FindReplaced(m.funcs, i, m'.funcs[i], call.callee); }
  }

  lemma AlikeGraded(m: Module, m': Module, level: seq<nat>, i: nat, code: seq<Inst>)
    requires Alike(m, m') && |level| == |m.funcs| && i < |level| && CodeGraded(m, level, i, code)
    ensures CodeGraded(m', level, i, code)
  {
    forall j, k: nat | 0 <= j < |code| && k < |level| && CallsStraight(m', code[j], k) ensures Below(level, k, i) {
      assert CallsStraight(m, code[j], k);
    }
  }

  /** Which functions are settled when function c is next in sweep r + 1. */
  ghost predicate Progress(m: Module, level: seq<nat>, r: nat, c: nat) {
    && Graded(m, level)
    && forall i: nat | i < |level| && (level[i] <= r || (i < c && level[i] == r + 1)) :: FuncSettled(m, i)
  }

  function Turn(m: Module, c: nat): Module
    requires c < |m.funcs|
  {
    m.(funcs := m.funcs[c := SweptTo(m, c, |m.funcs[c].blocks|)])
  }

  lemma TurnAlike(m: Module, c: nat)
    requires c < |m.funcs|
    ensures Alike(m, Turn(m, c))
  {
  }

  lemma TurnGraded(m: Module, level: seq<nat>, c: nat)
    requires Graded(m, level) && c < |level|
    ensures Graded(Turn(m, c), level)
  {
    TurnAlike(m, c);
    SweptToBlocks(m, level, c, |m.funcs[c].blocks|);
    hide CodeGraded, Alike;
    forall i, b | 0 <= i < |level| && 0 <= b < |Turn(m, c).funcs[i].blocks|
      ensures CodeGraded(Turn(m, c), level, i, Turn(m, c).funcs[i].blocks[b].insts)
    {
      AlikeGraded(m, Turn(m, c), level, i, Turn(m, c).funcs[i].blocks[b].insts);
    }
  }

  /** A settled function that does not call function c stays settled. */
  lemma TurnKeeps(m: Module, level: seq<nat>, c: nat, i: nat)
    requires Graded(m, level) && c < |level| && i < |level| && i != c && FuncSettled(m, i) && !Below(level, c, i)
    ensures FuncSettled(Turn(m, c), i)
  {
    var m' := Turn(m, c);
    hide Eligible, CallsStraight;
    TurnParams(m, c, |m.funcs[c].blocks|);
    forall b, j | 0 <= b < |m'.funcs[i].blocks| && 0 <= j < |m'.funcs[i].blocks[b].insts|
      ensures !Eligible(m', m'.funcs[i].name, m'.funcs[i].blocks[b].insts[j])
    {
      var code := m.funcs[i].blocks[b].insts;
      assert CodeGraded(m, level, i, code) && CodeSettled(m, m.funcs[i].name, code);
      assert !CallsStraight(m, code[j], c);
      EligibleOthers(m, c, m'.funcs[c], m.funcs[i].name, code[j]);
    }
  }

  lemma {:induction false} TurnParams(m: Module, c: nat, n: nat)
    requires c < |m.funcs| && n <= |m.funcs[c].blocks|
    ensures SweptTo(m, c, n).params == m.funcs[c].params
    ensures Straight(SweptTo(m, c, n)) <==> Straight(m.funcs[c])
  {
    if n > 0 { TurnParams(m, c, n - 1); }
  }

  /** Function c settles in its turn once all below it are. */
  lemma TurnSettles(m: Module, level: seq<nat>, c: nat)
    requires Graded(m, level) && c < |level|
    requires forall k: nat | k < |level| && Below(level, k, c) :: FuncSettled(m, k)
    ensures FuncSettled(Turn(m, c), c)
  {
    var m' := Turn(m, c);
    hide Eligible, CallsStraight, Below, FuncSettled, SweptTo;
    TurnParams(m, c, |m.funcs[c].blocks|);
    SweptToBlocks(m, level, c, |m.funcs[c].blocks|);
    assert FuncSettled(m', c) by {
      forall b, j | 0 <= b < |m'.funcs[c].blocks| && 0 <= j < |m'.funcs[c].blocks[b].insts|
        ensures !Eligible(m', m'.funcs[c].name, m'.funcs[c].blocks[b].insts[j])
      {
        var code := m'.funcs[c].blocks[b].insts;
        assert CodeSettled(m, m.funcs[c].name, code);
        EligibleOthers(m, c, m'.funcs[c], m.funcs[c].name, code[j]);
      }
      SettledBy(m', c);
    }
  }

  lemma SettledBy(m: Module, i: nat)
    requires i < |m.funcs|
    requires forall b, j | 0 <= b < |m.funcs[i].blocks| && 0 <= j < |m.funcs[i].blocks[b].insts| ::
               !Eligible(m, m.funcs[i].name, m.funcs[i].blocks[b].insts[j])
    ensures FuncSettled(m, i)
  {
  }

  lemma TurnProgress(m: Module, level: seq<nat>, r: nat, c: nat)
    requires Progress(m, level, r, c) && c < |level|
    ensures Progress(Turn(m, c), level, r, c + 1)
  {
    var m' := Turn(m, c);
    hide Graded, FuncSettled;
    assert |m.funcs| == |level| by { GradedLength(m, level); }
    TurnGraded(m, level, c);
    if level[c] <= r {
      SweptToSame(m, c, |m.funcs[c].blocks|);
      assert m.funcs[c := m.funcs[c]] == m.funcs;
      assert m' == m;
    } else {
      forall i: nat | i < |level| && (level[i] <= r || (i < c + 1 && level[i] == r + 1)) ensures FuncSettled(m', i) {
        if i == c {
          TurnSettles(m, level, c);
        } else {
          TurnKeeps(m, level, c, i);
        }
      }
    }
  }

  lemma GradedLength(m: Module, level: seq<nat>)
    requires Graded(m, level)
    ensures |m.funcs| == |level|
  {
  }

  lemma {:induction false} SweepProgress(m: Module, level: seq<nat>, r: nat, c: nat)
    requires Progress(m, level, r, 0) && c <= |m.funcs|
    ensures Progress(SweptModule(m, c), level, r, c)
  {
    hide Progress;
    if c > 0 {
      SweepProgress(m, level, r, c - 1);
      GradedSize(SweptModule(m, c - 1), level, r, c - 1);
      TurnProgress(SweptModule(m, c - 1), level, r, c - 1);
    }
  }

  lemma GradedSize(m: Module, level: seq<nat>, r: nat, c: nat)
    requires Progress(m, level, r, c)
    ensures |m.funcs| == |level|
  {
  }

  /** After n sweeps, the functions of level n are settled. */
  lemma {:induction false} SweepsSettle(m: Module, level: seq<nat>, r: nat, n: nat)
    requires Progress(m, level, r, 0)
    ensures Progress(AfterSweeps(m, n), level, r + n, 0)
    decreases n
  {
    if n > 0 {
      SweepProgress(m, level, r, |m.funcs|);
      SweepsSettle(SweptModule(m, |m.funcs|), level, r + 1, n - 1);
    }
  }

  /** Functions of level 0 call no one-block function. */
  lemma GradedStart(m: Module, level: seq<nat>)
    requires Graded(m, level)
    ensures Progress(m, level, 0, 0)
  {
    hide Eligible, CallsStraight;
    forall i: nat | i < |level| && level[i] == 0 ensures FuncSettled(m, i) {
      forall b, j | 0 <= b < |m.funcs[i].blocks| && 0 <= j < |m.funcs[i].blocks[b].insts|
        ensures !Eligible(m, m.funcs[i].name, m.funcs[i].blocks[b].insts[j])
      {
        var call := m.funcs[i].blocks[b].insts[j];
        assert CodeGraded(m, level, i, m.funcs[i].blocks[b].insts);
        forall k: nat | k < |level| ensures !CallsStraight(m, call, k) {
          assert !Below(level, k, i);
        }
        if Eligible(m, m.funcs[i].name, call) {
          var k := CalleeAt(m, m.funcs[i].name, call);
          assert false;
        }
      }
    }
  }

  lemma LevelsSettle(m: Module, level: seq<nat>, n: nat)
    requires Graded(m, level) && forall i | 0 <= i < |level| :: level[i] <= n
    ensures AllSettled(AfterSweeps(m, n))
  {
    hide Graded, FuncSettled;
    GradedStart(m, level);
    SweepsSettle(m, level, 0, n);
    GradedLength(AfterSweeps(m, n), level);
  }

  // ---- levels -----------------------------------------------------------------------------------

  ghost predicate ChainFrom(m: Module, i: nat, n: nat) {
    exists p: seq<nat> :: Chain(m, p) && |p| == n + 1 && p[0] == i
  }

  lemma ChainLonger(m: Module, i: nat, k: nat, n: nat)
    requires Calls(m, i, k) && ChainFrom(m, k, n)
    ensures ChainFrom(m, i, n + 1)
  {
    hide Calls;
    var p: seq<nat> :| Chain(m, p) && |p| == n + 1 && p[0] == k;
    var q := [i] + p;
    forall x | 0 <= x < |q| - 1 ensures Calls(m, q[x], q[x + 1]) {
      if x > 0 { assert Calls(m, p[x - 1], p[x - 1 + 1]); }
    }
    assert Chain(m, q);
  }

  /** The number of calls in the longest chain from function i, if it is at most n. */
  ghost function Longest(m: Module, i: nat, n: nat): nat {
    if n == 0 || ChainFrom(m, i, n) then n else Longest(m, i, n - 1)
  }

  lemma {:induction false} LongestIs(m: Module, i: nat, n: nat)
    ensures Longest(m, i, n) <= n
    ensures Longest(m, i, n) > 0 ==> ChainFrom(m, i, Longest(m, i, n))
    ensures forall x: nat | x <= n && ChainFrom(m, i, x) :: x <= Longest(m, i, n)
  {
    hide ChainFrom;
    if n > 0 && !ChainFrom(m, i, n) { LongestIs(m, i, n - 1); }
  }

  lemma ChainSelf(m: Module, i: nat)
    ensures ChainFrom(m, i, 0)
  {
    assert Chain(m, [i]);
  }

  lemma ShortChainsGraded(m: Module) returns (level: seq<nat>)
    requires ShortChains(m)
    ensures Graded(m, level) && forall i | 0 <= i < |level| :: level[i] <= 5
  {
    level := seq(|m.funcs|, i requires 0 <= i < |m.funcs| => Longest(m, i, 5));
    forall i | 0 <= i < |m.funcs| ensures level[i] <= 5 {
      LongestIs(m, i, 5);
    }
    forall i, b, j, k: nat | 0 <= i < |level| && 0 <= b < |m.funcs[i].blocks| && 0 <= j < |m.funcs[i].blocks[b].insts|
                             && k < |level| && CallsStraight(m, m.funcs[i].blocks[b].insts[j], k)
      ensures Below(level, k, i)
    {
      assert Calls(m, i, k);
      LongestIs(m, i, 5);
      LongestIs(m, k, 5);
      ChainSelf(m, k);
      ChainLonger(m, i, k, level[k]);
      var p: seq<nat> :| Chain(m, p) && |p| == level[k] + 2 && p[0] == i;
      assert |p| <= 6;
    }
    AllGraded(m, level);
  }

  lemma AllGraded(m: Module, level: seq<nat>)
    requires |level| == |m.funcs|
    requires forall i, b, j, k: nat | 0 <= i < |level| && 0 <= b < |m.funcs[i].blocks| && 0 <= j < |m.funcs[i].blocks[b].insts|
               && k < |level| && CallsStraight(m, m.funcs[i].blocks[b].insts[j], k) :: Below(level, k, i)
    ensures Graded(m, level)
  {
    hide CallsStraight, Below;
  }

  lemma CalleesFirstGraded(m: Module) returns (level: seq<nat>)
    requires CalleesFirst(m)
    ensures Graded(m, level) && forall i | 0 <= i < |level| :: level[i] <= 1
  {
    level := seq(|m.funcs|, _ => 1);
    forall i, b, j, k: nat | 0 <= i < |level| && 0 <= b < |m.funcs[i].blocks| && 0 <= j < |m.funcs[i].blocks[b].insts|
                             && k < |level| && CallsStraight(m, m.funcs[i].blocks[b].insts[j], k)
      ensures Below(level, k, i)
    {
      assert Calls(m, i, k);
    }
    AllGraded(m, level);
  }

  /** Five sweeps leave nothing to inline if no chain of calls is longer, or if callees come first. */
  lemma NothingToInline(m: Module)
    requires Distinct(m) && (ShortChains(m) || CalleesFirst(m))
    ensures NoSites(AfterSweeps(m, 5))
  {
    hide ShortChains, CalleesFirst, Graded, AllSettled, NoSites, Distinct;
    SweepsDistinct(m, 5);
    NoSitesIff(AfterSweeps(m, 5));
    var level;
    if ShortChains(m) {
      level := ShortChainsGraded(m);
    } else {
      level := CalleesFirstGraded(m);
    }
    LevelsSettle(m, level, 5);
  }

  /** Where callees come first, one sweep is enough. */
  lemma OneSweep(m: Module)
    requires Distinct(m) && CalleesFirst(m)
    ensures NoSites(AfterSweeps(m, 1))
  {
    hide CalleesFirst, Graded, AllSettled, NoSites, Distinct;
    SweepsDistinct(m, 1);
    NoSitesIff(AfterSweeps(m, 1));
    var level := CalleesFirstGraded(m);
    LevelsSettle(m, level, 1);
  }

  /** Nothing to inline: a sweep changes nothing. */
  lemma {:induction false} SettledSweep(m: Module, n: nat)
    requires AllSettled(m) && n <= |m.funcs|
    ensures SweptModule(m, n) == m
  {
    hide FuncSettled;
    if n > 0 {
      SettledSweep(m, n - 1);
      SweptToSame(m, n - 1, |m.funcs[n - 1].blocks|);
      assert m.funcs[n - 1 := m.funcs[n - 1]] == m.funcs;
    }
  }

  lemma {:induction false} SettledSweeps(m: Module, n: nat)
    requires AllSettled(m)
    ensures AfterSweeps(m, n) == m
    decreases n
  {
    if n > 0 {
      SettledSweep(m, |m.funcs|);
      SettledSweeps(m, n - 1);
    }
  }

  // ---- recursion ----------------------------------------------------------------------------------

  /** `int f(int n) { return f(n); }` */
  function Recursive(): Func {
    Func("f", false, [0], [Block([Call(1, "f", [Reg(0)])], Ret(Some(Reg(1))))], 2)
  }

  /** With `int main() { return f(3); }` */
  function Unrolled(): Module {
    Module([], [Recursive(), Func("main", false, [], [Block([Call(0, "f", [Imm(3)])], Ret(Some(Reg(0))))], 1)])
  }

  predicate CallsF(i: Inst) {
    i.Call? && i.callee == "f" && |i.args| == 1
  }

  ghost predicate StillCalls(m: Module) {
    && |m.funcs| == 2 && m.funcs[0] == Recursive() && m.funcs[1].name == "main" && |m.funcs[1].blocks| == 1
    && exists j :: 0 <= j < |m.funcs[1].blocks[0].insts| && CallsF(m.funcs[1].blocks[0].insts[j])
  }

  lemma RecursiveInlinable()
    ensures Inlinable(Recursive())
  {
    OneBlockCount(Recursive());
  }

  lemma InlinedCalls(call: Inst, base: nat)
    requires CallsF(call) && Inlinable(Recursive())
    ensures |Inlined(call, Recursive(), base)| > 1 && CallsF(Inlined(call, Recursive(), base)[1])
  {
    var body := CloneCode(Recursive().blocks[0].insts, base);
    assert body[0] == CloneInst(Call(1, "f", [Reg(0)]), base);
    assert Inlined(call, Recursive(), base)[1] == body[0];
  }

  lemma {:induction false} SweptCalls(m: Module, code: seq<Inst>, base: nat, j: nat)
    requires FindFunc(m.funcs, "f") == Some(Recursive()) && j < |code| && CallsF(code[j])
    ensures exists x :: 0 <= x < |Swept(m, "main", code, base).0| && CallsF(Swept(m, "main", code, base).0[x])
  {
    hide Inlined, Inlinable;
    RecursiveInlinable();
    var r := Swept(m, "main", code, base).0;
    if j == 0 {
      InlinedCalls(code[0], base);
      assert CallsF(r[1]);
    } else {
      var head := if Eligible(m, "main", code[0]) then Inlined(code[0], FindFunc(m.funcs, code[0].callee).value, base) else [code[0]];
      var base' := if Eligible(m, "main", code[0]) then base + FindFunc(m.funcs, code[0].callee).value.numVregs else base;
      SweptCalls(m, code[1..], base', j - 1);
      var rest := Swept(m, "main", code[1..], base').0;
      var x :| 0 <= x < |rest| && CallsF(rest[x]);
      assert r == head + rest && r[|head| + x] == rest[x];
    }
  }

  lemma SweepCalls(m: Module)
    requires StillCalls(m)
    ensures StillCalls(SweptModule(m, 2))
  {
    var f, code := m.funcs[1], m.funcs[1].blocks[0].insts;
    var j :| 0 <= j < |code| && CallsF(code[j]);
    assert Distinct(m) by { assert "f" != "main"; }
    FindDistinct(m.funcs, 0);
    SelfSettled(m);
    SweptToSame(m, 0, 1);
    assert SweptTo(m, 0, 1) == m.funcs[0];
    assert m.funcs[0 := m.funcs[0]] == m.funcs;
    assert SweptModule(m, 1) == m by { assert SweptModule(m, 0) == m; }
    SweptCalls(m, code, f.numVregs, j);
    assert SweptTo(m, 1, 0) == f;
    assert SweptTo(m, 1, 1).blocks[0].insts == Swept(m, "main", code, f.numVregs).0;
  }

  lemma SelfSettled(m: Module)
    requires StillCalls(m) && FindFunc(m.funcs, "f") == Some(Recursive())
    ensures FuncSettled(m, 0)
  {
  }

  lemma {:induction false} SweepsCall(m: Module, n: nat)
    requires StillCalls(m)
    ensures StillCalls(AfterSweeps(m, n))
    decreases n
  {
    hide StillCalls;
    if n > 0 {
      TwoFuncs(m);
      SweepCalls(m);
      SweepsCall(SweptModule(m, 2), n - 1);
    }
  }

  lemma TwoFuncs(m: Module)
    requires StillCalls(m)
    ensures |m.funcs| == 2
  {
  }

  /** A one-block function that calls itself is inlined again in every sweep, and its call is never gone. */
  lemma RecursionNeverEnds(n: nat)
    ensures !NoSites(AfterSweeps(Unrolled(), n))
  {
    var m := AfterSweeps(Unrolled(), n);
    assert StillCalls(Unrolled()) by { assert CallsF(Unrolled().funcs[1].blocks[0].insts[0]); }
    SweepsCall(Unrolled(), n);
    var j :| 0 <= j < |m.funcs[1].blocks[0].insts| && CallsF(m.funcs[1].blocks[0].insts[j]);
    assert Inlines(m, 1, 0, m.funcs[1].blocks[0].insts[j]);
    assert MayInline(m, 1, m.funcs[1].blocks[0].insts[j]);
  }
}
