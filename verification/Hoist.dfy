/**
 * Hoisting constants and magic numbers into loop preheaders.  Each pass is a
 * series of two kinds of step: a new register is given its constant in the
 * preheader, and one instruction of the loop reads the register instead.
 */
module Hoist {
  import opened Word32
  import opened IR
  import opened RegAlloc
  import opened Dominators
  import opened Replacement
  import Bits
  import Magic

  // ---- a register for a constant ----------------------------------------------------------------

  /** `Mv reg, c` at the end of block pre, for a fresh register. */
  function WithConst(f: Func, pre: nat, c: i32): Func
    requires pre < |f.blocks|
  {
    f.(blocks := f.blocks[pre := Block(f.blocks[pre].insts + [Mv(f.numVregs, Imm(c))], f.blocks[pre].term)],
       numVregs := f.numVregs + 1)
  }

  /** Equal globals, and equal registers below n. */
  ghost predicate Same(n: nat, s: State, s': State) {
    && s.globals == s'.globals
    && forall v: nat | v < n :: (v in s.regs <==> v in s'.regs) && (v in s.regs ==> s'.regs[v] == s.regs[v])
  }

  ghost predicate SameAfter(n: nat, o: Outcome<State>, o': Outcome<State>) {
    o.Undef? || (o.Timeout? && o'.Timeout?) || (o.Done? && o'.Done? && Same(n, o.value, o'.value))
  }

  lemma ReadSame(v: Val, n: nat, s: State, s': State)
    requires Same(n, s, s') && forall x | x in ValUses(v) :: x < n
    ensures Read(v, s'.regs) == Read(v, s.regs)
  {
    if v.Reg? { assert v.reg in ValUses(v); }
  }

  lemma {:induction false} ReadAllSame(vs: seq<Val>, n: nat, s: State, s': State)
    requires Same(n, s, s') && forall x | x in ArgUses(vs) :: x < n
    ensures ReadAll(vs, s'.regs) == ReadAll(vs, s.regs)
  {
    if vs != [] {
      assert forall x | x in ValUses(vs[0]) :: x in ArgUses(vs);
      ReadSame(vs[0], n, s, s');
      forall x | x in ArgUses(vs[1..]) ensures x in ArgUses(vs) {
        var i :| 0 <= i < |vs[1..]| && vs[1..][i].Reg? && vs[1..][i].reg == x;
        assert vs[i + 1].reg == x;
      }
      ReadAllSame(vs[1..], n, s, s');
    }
  }

  lemma PlainSame(i: Inst, n: nat, s: State, s': State)
    requires !i.Call? && InstOk(i, n) && Same(n, s, s')
    ensures SameAfter(n, ExecPlain(i, s), ExecPlain(i, s'))
  {
    hide EvalBin, EvalUn, Magic.NeedsMagic, MagicFor, TDiv, Magic.UnsignedExact;
    match i
    case Bin(_, _, a, b, h, _) =>
      assert ValUses(a) <= Uses(i) && ValUses(b) <= Uses(i);
      ReadSame(a, n, s, s');
      ReadSame(b, n, s, s');
      if h >= 0 {
        assert h in HintUses(h) && h in Uses(i);
        ReadSame(Reg(h), n, s, s');
      }
    case Un(_, _, a) =>
      assert ValUses(a) <= Uses(i);
      ReadSame(a, n, s, s');
    case Mv(_, a) =>
      assert ValUses(a) <= Uses(i);
      ReadSame(a, n, s, s');
    case LoadGlobal(_, _) =>
    case StoreGlobal(_, a) =>
      assert ValUses(a) <= Uses(i);
      ReadSame(a, n, s, s');
  }

  lemma CallSame(m: Module, m': Module, i: Inst, n: nat, s: State, s': State, d: nat, k: nat)
    requires i.Call? && InstOk(i, n) && Same(n, s, s') && CallsRefine(m, m', d)
    ensures SameAfter(n, ExecInst(m, i, s, d, k), ExecInst(m', i, s', d, k))
  {
    hide RunFunc, CallsRefine;
    assert ArgUses(i.args) <= Uses(i);
    ReadAllSame(i.args, n, s, s');
    CallAgain(m, m', i, s, d, k);
    if ReadAll(i.args, s.regs).Some? && d > 0 {
      CallResultSame(m, m', i, s, d, k);
    }
  }

  lemma CallResultSame(m: Module, m': Module, i: Inst, s: State, d: nat, k: nat)
    requires i.Call? && CallsRefine(m, m', d) && ReadAll(i.args, s.regs).Some? && d > 0
    ensures var xs := ReadAll(i.args, s.regs).value;
            Refines(RunFunc(m, i.callee, xs, s.globals, d - 1, k), RunFunc(m', i.callee, xs, s.globals, d - 1, k))
  {
    hide RunFunc;
  }

  lemma {:induction false} CodeSame(m: Module, m': Module, code: seq<Inst>, n: nat, s: State, s': State, d: nat, k: nat)
    requires (forall j | 0 <= j < |code| :: InstOk(code[j], n)) && Same(n, s, s') && CallsRefine(m, m', d)
    ensures SameAfter(n, ExecInsts(m, code, s, d, k), ExecInsts(m', code, s', d, k))
    decreases |code|
  {
    hide CallsRefine, RunFunc, ExecPlain, InstOk, Same;
    if code != [] {
      if code[0].Call? { CallSame(m, m', code[0], n, s, s', d, k); } else { PlainSame(code[0], n, s, s'); }
      var o, o' := ExecInst(m, code[0], s, d, k), ExecInst(m', code[0], s', d, k);
      if o.Done? { CodeSame(m, m', code[1..], n, o.value, o'.value, d, k); }
    }
  }

  /** A move to a register above n at the end changes nothing below n. */
  lemma ConstAppended(m: Module, code: seq<Inst>, n: nat, c: i32, s: State, d: nat, k: nat)
    ensures var o, o' := ExecInsts(m, code, s, d, k), ExecInsts(m, code + [Mv(n, Imm(c))], s, d, k);
            if o.Done? then o'.Done? && Same(n, o.value, o'.value) else o' == o
  {
    hide ExecInst;
    ExecAppend(m, code, [Mv(n, Imm(c))], s, d, k);
    var o := ExecInsts(m, code, s, d, k);
    if o.Done? {
      OneMove(m, n, c, o.value, d, k);
    }
  }

  lemma OneMove(m: Module, n: nat, c: i32, s: State, d: nat, k: nat)
    ensures ExecInsts(m, [Mv(n, Imm(c))], s, d, k) == Done(State(s.regs[n := c], s.globals))
  {
    assert [Mv(n, Imm(c))][1..] == [];
  }

  lemma SameTrans(n: nat, a: State, b: State, c: State)
    requires Same(n, a, b) && Same(n, b, c)
    ensures Same(n, a, c)
  {
  }

  lemma {:induction false} ConstBlock(m: Module, m': Module, f: Func, pre: nat, c: i32, b: nat, s: State, s': State, d: nat, k: nat)
    requires FuncOk(f) && pre < |f.blocks| && CallsRefine(m, m', d) && Same(f.numVregs, s, s')
    ensures Refines(RunBlock(m, f, b, s, d, k), RunBlock(m', WithConst(f, pre, c), b, s', d, k))
    decreases k
  {
    hide CallsRefine, ExecInsts, Same, InstOk;
    var n, f' := f.numVregs, WithConst(f, pre, c);
    if b < |f.blocks| {
      assert BlockOk(f.blocks[b], |f.blocks|, n);
      var code, t := f.blocks[b].insts, f.blocks[b].term;
      CodeSame(m, m', code, n, s, s', d, k);
      ConstAppended(m', code, n, c, s', d, k);
      var o, mid, o' := ExecInsts(m, code, s, d, k), ExecInsts(m', code, s', d, k), ExecInsts(m', f'.blocks[b].insts, s', d, k);
      if o.Done? {
        if b == pre { SameTrans(n, o.value, mid.value, o'.value); }
        TermSame(t, n, o.value, o'.value);
        if k > 0 {
          match t
          case Jmp(x) => ConstBlock(m, m', f, pre, c, x, o.value, o'.value, d, k - 1);
          case Br(v, x, y) =>
            if Read(v, o.value.regs).Some? {
              ConstBlock(m, m', f, pre, c, if Read(v, o.value.regs).value != 0 then x else y, o.value, o'.value, d, k - 1);
            }
          case _ =>
        }
      }
    }
  }

  lemma TermSame(t: Term, n: nat, s: State, s': State)
    requires Same(n, s, s') && forall v | v in TermUses(t) :: v < n
    ensures s'.globals == s.globals
    ensures t.Br? ==> Read(t.cond, s'.regs) == Read(t.cond, s.regs)
    ensures t.Ret? && t.val.Some? ==> Read(t.val.value, s'.regs) == Read(t.val.value, s.regs)
  {
    match t
    case Br(v, _, _) =>
      assert TermUses(t) == ValUses(v);
      ReadSame(v, n, s, s');
    case Ret(Some(v)) =>
      assert TermUses(t) == ValUses(v);
      ReadSame(v, n, s, s');
    case _ =>
  }

  /** A fresh register that nothing reads changes no run. */
  lemma ConstImproves(f: Func, pre: nat, c: i32)
    requires FuncOk(f) && pre < |f.blocks|
    ensures Improves(f, WithConst(f, pre, c))
  {
    hide CallsRefine, RunBlock, FuncOk;
    var f' := WithConst(f, pre, c);
    forall m: Module, i: nat | i < |m.funcs| && m.funcs[i] == f ensures BodyRefines(m, Replace(m, i, f'), f, f') {
      var m' := Replace(m, i, f');
      forall args, g, d: nat, k: nat | |args| == |f.params| && CallsRefine(m, m', d)
        ensures Refines(RunBlock(m, f, 0, State(Entry(f.params, args), g), d, k),
                        RunBlock(m', f', 0, State(Entry(f.params, args), g), d, k))
      {
        var s := State(Entry(f.params, args), g);
        ConstBlock(m, m', f, pre, c, 0, s, s, d, k);
      }
    }
    ImprovesBy(f, f');
  }

  lemma WithConstOk(f: Func, pre: nat, c: i32)
    requires FuncOk(f) && pre < |f.blocks|
    ensures FuncOk(WithConst(f, pre, c))
  {
    var f' := WithConst(f, pre, c);
    forall b | 0 <= b < |f.blocks| ensures BlockOk(f'.blocks[b], |f.blocks|, f'.numVregs) {
      assert BlockOk(f.blocks[b], |f.blocks|, f.numVregs);
      forall k | 0 <= k < |f'.blocks[b].insts| ensures InstOk(f'.blocks[b].insts[k], f'.numVregs) {
        if k < |f.blocks[b].insts| {
          assert f'.blocks[b].insts[k] == f.blocks[b].insts[k];
          assert InstOk(f.blocks[b].insts[k], f.numVregs);
        }
      }
    }
  }

  // ---- reading the register instead -----------------------------------------------------------

  /** Only block pre gives r a value, and that value is c. */
  ghost predicate Carries(f: Func, pre: nat, r: nat, c: i32) {
    && pre < |f.blocks| && r < f.numVregs && r !in f.params
    && (forall b, k | 0 <= b < |f.blocks| && 0 <= k < |f.blocks[b].insts| && Def(f.blocks[b].insts[k]) == r ::
          f.blocks[b].insts[k] == Mv(r, Imm(c)))
    && exists k :: 0 <= k < |f.blocks[pre].insts| && f.blocks[pre].insts[k] == Mv(r, Imm(c))
  }

  /** The loop is entered from block pre at its header v only, and the function does not begin in it. */
  ghost predicate LoopShape(f: Func, L: set<nat>, v: nat, pre: nat) {
    && 0 !in L && v in L && pre !in L && pre < |f.blocks|
    && (forall x, p: nat | x in L && x != v && Edge(f, p, x) :: p in L)
    && (forall p: nat | Edge(f, p, v) :: p in L || p == pre)
  }

  /** Where r holds c, the second instruction does what the first does. */
  ghost predicate Swaps(i: Inst, i': Inst, r: nat, c: i32) {
    && i.Bin? && i'.Bin? && Def(i') == Def(i)
    && forall s: State | r in s.regs && s.regs[r] == c :: Refines(ExecPlain(i, s), ExecPlain(i', s))
  }

  function WithInst(f: Func, b: nat, j: nat, i: Inst): Func
    requires b < |f.blocks| && j < |f.blocks[b].insts|
  {
    f.(blocks := f.blocks[b := Block(f.blocks[b].insts[j := i], f.blocks[b].term)])
  }

  /** r holds c once it has been written. */
  ghost predicate Constant(s: State, r: nat, c: i32) {
    r in s.regs ==> s.regs[r] == c
  }

  /** The code writes nothing but c to r. */
  ghost predicate WritesOnly(code: seq<Inst>, r: nat, c: i32) {
    forall k | 0 <= k < |code| && Def(code[k]) == r :: code[k] == Mv(r, Imm(c))
  }

  /** The same code, but for instructions that may rely on r. */
  ghost predicate Swapped(code: seq<Inst>, code': seq<Inst>, r: nat, c: i32, set_: bool) {
    |code'| == |code| && forall k | 0 <= k < |code| :: code'[k] == code[k] || (set_ && Swaps(code[k], code'[k], r, c))
  }

  lemma StepConstant(m: Module, i: Inst, s: State, r: nat, c: i32, d: nat, k: nat)
    requires ExecInst(m, i, s, d, k).Done? && Constant(s, r, c) && (Def(i) == r ==> i == Mv(r, Imm(c)))
    ensures var s' := ExecInst(m, i, s, d, k).value;
            Constant(s', r, c) && (r in s.regs ==> r in s'.regs) && (i == Mv(r, Imm(c)) ==> r in s'.regs)
  {
    hide RunFunc;
  }

  lemma {:induction false} CodeSwapped(m: Module, m': Module, code: seq<Inst>, code': seq<Inst>, s: State, r: nat, c: i32, d: nat, k: nat)
    requires CallsRefine(m, m', d) && WritesOnly(code, r, c) && Constant(s, r, c) && Swapped(code, code', r, c, r in s.regs)
    ensures Refines(ExecInsts(m, code, s, d, k), ExecInsts(m', code', s, d, k))
    ensures var o := ExecInsts(m, code, s, d, k);
            o.Done? ==> Constant(o.value, r, c) && (r in s.regs ==> r in o.value.regs)
                        && ((exists j :: 0 <= j < |code| && code[j] == Mv(r, Imm(c))) ==> r in o.value.regs)
    decreases |code|
  {
    hide CallsRefine, RunFunc, ExecPlain, Constant;
    if code != [] {
      var i, i' := code[0], code'[0];
      assert Swapped(code[..1], code'[..1], r, c, r in s.regs) by { assert code[..1] == [i] && code'[..1] == [i']; }
      HeadSwapped(m, m', i, i', s, r, c, d, k);
      var o := ExecInst(m, i, s, d, k);
      if o.Done? {
        StepConstant(m, i, s, r, c, d, k);
        assert forall k | 0 <= k < |code| - 1 :: code[1..][k] == code[k + 1] && code'[1..][k] == code'[k + 1];
        SwappedTail(code, code', r, c, r in s.regs, r in o.value.regs);
        CodeSwapped(m, m', code[1..], code'[1..], o.value, r, c, d, k);
        if j :| 0 <= j < |code| && code[j] == Mv(r, Imm(c)) {
          if j > 0 { assert code[1..][j - 1] == Mv(r, Imm(c)); }
        }
      }
    }
  }

  lemma SwappedTail(code: seq<Inst>, code': seq<Inst>, r: nat, c: i32, was: bool, now: bool)
    requires code != [] && Swapped(code, code', r, c, was) && (was ==> now)
    ensures Swapped(code[1..], code'[1..], r, c, now)
  {
    hide Swaps;
    forall k | 0 <= k < |code| - 1 ensures code'[1..][k] == code[1..][k] || (now && Swaps(code[1..][k], code'[1..][k], r, c)) {
      assert code[1..][k] == code[k + 1] && code'[1..][k] == code'[k + 1];
    }
  }

  lemma HeadSwapped(m: Module, m': Module, i: Inst, i': Inst, s: State, r: nat, c: i32, d: nat, k: nat)
    requires CallsRefine(m, m', d) && Constant(s, r, c) && (i' == i || (r in s.regs && Swaps(i, i', r, c)))
    ensures Refines(ExecInst(m, i, s, d, k), ExecInst(m', i', s, d, k))
  {
    hide CallsRefine, RunFunc, ExecPlain;
    if i' == i {
      if i.Call? { CallAgain(m, m', i, s, d, k); }
    }
  }

  /** What a run of the function keeps: r is constant, and set wherever the loop is. */
  ghost predicate InLoopSet(L: set<nat>, b: nat, s: State, r: nat, c: i32) {
    Constant(s, r, c) && (b in L ==> r in s.regs)
  }

  lemma {:induction false} SwapBlock(m: Module, m': Module, f: Func, f': Func, L: set<nat>, v: nat, pre: nat, r: nat, c: i32,
                                     b: nat, s: State, d: nat, k: nat)
    requires FuncOk(f) && CallsRefine(m, m', d) && LoopShape(f, L, v, pre) && Carries(f, pre, r, c) && SwappedIn(f, f', L, r, c)
    requires InLoopSet(L, b, s, r, c)
    ensures Refines(RunBlock(m, f, b, s, d, k), RunBlock(m', f', b, s, d, k))
    decreases k
  {
    hide CallsRefine, ExecInsts, Constant, FuncOk, LoopShape, Swaps;
    if b < |f.blocks| {
      var code, t := f.blocks[b].insts, f.blocks[b].term;
      SwapStart(f, f', L, r, c, b, s);
      CodeSwapped(m, m', code, f'.blocks[b].insts, s, r, c, d, k);
      var o := ExecInsts(m, code, s, d, k);
      if o.Done? && k > 0 {
        match t
        case Jmp(x) =>
          EnterLoop(f, L, v, pre, r, c, b, x, s, o.value);
          SwapBlock(m, m', f, f', L, v, pre, r, c, x, o.value, d, k - 1);
        case Br(w, x, y) =>
          if Read(w, o.value.regs).Some? {
            var z := if Read(w, o.value.regs).value != 0 then x else y;
            EnterLoop(f, L, v, pre, r, c, b, z, s, o.value);
            SwapBlock(m, m', f, f', L, v, pre, r, c, z, o.value, d, k - 1);
          }
        case _ =>
      }
    }
  }

  /** f' is f but for swaps in the loop. */
  ghost predicate SwappedIn(f: Func, f': Func, L: set<nat>, r: nat, c: i32) {
    && |f'.blocks| == |f.blocks|
    && forall b | 0 <= b < |f.blocks| ::
         f'.blocks[b].term == f.blocks[b].term && Swapped(f.blocks[b].insts, f'.blocks[b].insts, r, c, b in L)
  }

  lemma SwapStart(f: Func, f': Func, L: set<nat>, r: nat, c: i32, b: nat, s: State)
    requires SwappedIn(f, f', L, r, c) && InLoopSet(L, b, s, r, c) && b < |f.blocks|
    ensures Swapped(f.blocks[b].insts, f'.blocks[b].insts, r, c, r in s.regs)
    ensures |f'.blocks| == |f.blocks| && f'.blocks[b].term == f.blocks[b].term && Constant(s, r, c)
  {
    hide Swaps;
  }

  /** Whoever enters the loop comes from the preheader or was in it already. */
  lemma EnterLoop(f: Func, L: set<nat>, v: nat, pre: nat, r: nat, c: i32, b: nat, x: nat, s: State, s': State)
    requires FuncOk(f) && LoopShape(f, L, v, pre) && b < |f.blocks| && x in Succs(f.blocks[b].term)
    requires InLoopSet(L, b, s, r, c) && Constant(s', r, c) && (r in s.regs ==> r in s'.regs) && (b == pre ==> r in s'.regs)
    ensures InLoopSet(L, x, s', r, c)
  {
    assert BlockOk(f.blocks[b], |f.blocks|, f.numVregs);
    assert Edge(f, b, x);
  }

  /** Reading the constant from its register inside the loop changes no run. */
  lemma SwapImproves(f: Func, f': Func, L: set<nat>, v: nat, pre: nat, r: nat, c: i32)
    requires FuncOk(f) && LoopShape(f, L, v, pre) && Carries(f, pre, r, c) && SwappedIn(f, f', L, r, c)
    requires f'.name == f.name && f'.params == f.params && f'.returnsVoid == f.returnsVoid
    ensures Improves(f, f')
  {
    forall m: Module, i: nat | i < |m.funcs| && m.funcs[i] == f ensures BodyRefines(m, Replace(m, i, f'), f, f') {
      var m' := Replace(m, i, f');
      forall args, g, d: nat, k: nat | |args| == |f.params| && CallsRefine(m, m', d)
        ensures Refines(RunBlock(m, f, 0, State(Entry(f.params, args), g), d, k),
                        RunBlock(m', f', 0, State(Entry(f.params, args), g), d, k))
      {
        var s := State(Entry(f.params, args), g);
        NotAParam(f.params, args, r);
        SwapBlock(m, m', f, f', L, v, pre, r, c, 0, s, d, k);
      }
    }
    hide FuncOk, CallsRefine, RunBlock;
    ImprovesBy(f, f');
  }

  lemma {:induction false} NotAParam(params: seq<nat>, args: seq<i32>, r: nat)
    requires |params| == |args| && r !in params
    ensures r !in Entry(params, args)
  {
    if params != [] { NotAParam(params[..|params| - 1], args[..|args| - 1], r); }
  }

  // ---- the passes ---------------------------------------------------------------------------------

  /** `hoistLoopConstants`, `hoistDivModConstants` and `hoistMagicDiv`. */
  datatype Kind = Compares | Divisors | Magics

  /** What is hoisted: a constant, or the magic number of a divisor and its signedness. */
  datatype Key = Key(c: i32, uns: bool)

  predicate IsCompare(op: BinOp) {
    op.Lt? || op.Gt? || op.Le? || op.Ge? || op.Eq? || op.Ne?
  }

  predicate IsDivision(i: Inst) {
    i.Bin? && (i.bop.Div? || i.bop.Mod?)
  }

  predicate KeyOk(kind: Kind, key: Key) {
    kind.Magics? ==> Magic.NeedsMagic(key.c)
  }

  function ValueOf(kind: Kind, key: Key): i32
    requires KeyOk(kind, key)
  {
    if !kind.Magics? then key.c
    else if key.uns then Wrap(Magic.UnsignedM(U(key.c)))
    else Magic.SignedM(key.c)
  }

  /** The instruction with another first operand. */
  function WithA(i: Inst, a: Val): Inst
    requires i.Bin?
  {
    Bin(i.bop, i.dst, a, i.b, i.magicVreg, i.unsignedDiv)
  }

  lemma CompareSwapA(i: Inst, r: nat, c: i32)
    requires i.Bin? && !IsDivision(i) && i.a == Imm(c)
    ensures Swaps(i, WithA(i, Reg(r)), r, c)
  {
    hide EvalBin;
  }

  lemma CompareSwapB(i: Inst, r: nat, c: i32)
    requires i.Bin? && !IsDivision(i) && i.b == Imm(c)
    ensures Swaps(i, i.(b := Reg(r)), r, c)
  {
    hide EvalBin;
  }

  /** A division by a register needs no hint. */
  lemma DivisorSwap(i: Inst, r: nat, c: i32)
    requires i.Bin? && i.b == Imm(c)
    ensures Swaps(i, i.(b := Reg(r)), r, c)
  {
    hide EvalBin, Magic.NeedsMagic, MagicFor, TDiv, Magic.UnsignedExact;
  }

  /** The hinted register holds exactly the number that code generation would compute. */
  lemma MagicSwap(i: Inst, r: nat)
    requires IsDivision(i) && i.b.Imm? && Magic.NeedsMagic(i.b.imm) && i.magicVreg < 0
    ensures Swaps(i, i.(magicVreg := r), r, ValueOf(Magics, Key(i.b.imm, i.unsignedDiv)))
  {
    var c, uns := i.b.imm, i.unsignedDiv;
    if c > 0 { assert U(c) == c; }
    assert (uns ==> c > 0) ==> MagicFor(c, uns) == ValueOf(Magics, Key(c, uns));
    hide EvalBin, Magic.NeedsMagic, MagicFor, TDiv, Magic.UnsignedExact, ValueOf;
  }

  /** The same edges, parameters and loops. */
  ghost predicate SameGraph(f: Func, g: Func) {
    && |g.blocks| == |f.blocks| && g.params == f.params
    && forall b | 0 <= b < |f.blocks| :: g.blocks[b].term == f.blocks[b].term
  }

  lemma SameShape(f: Func, g: Func, L: set<nat>, v: nat, pre: nat)
    requires SameGraph(f, g) && LoopShape(f, L, v, pre)
    ensures LoopShape(g, L, v, pre)
  {
    forall x, p: nat | x in L && x != v && Edge(g, p, x) ensures p in L { assert Edge(f, p, x); }
    forall p: nat | Edge(g, p, v) ensures p in L || p == pre { assert Edge(f, p, v); }
  }

  /** A stage of a pass over one loop. */
  ghost predicate Stage(kind: Kind, f0: Func, f: Func, L: set<nat>, v: nat, pre: nat, hoisted: map<Key, nat>) {
    && FuncOk(f) && SameGraph(f0, f) && LoopShape(f, L, v, pre) && Improves(f0, f)
    && forall key | key in hoisted :: KeyOk(kind, key) && Carries(f, pre, hoisted[key], ValueOf(kind, key))
  }

  lemma DefsBelow(f: Func)
    requires FuncOk(f)
    ensures forall b, k | 0 <= b < |f.blocks| && 0 <= k < |f.blocks[b].insts| :: Def(f.blocks[b].insts[k]) < f.numVregs
  {
    forall b, k | 0 <= b < |f.blocks| && 0 <= k < |f.blocks[b].insts| ensures Def(f.blocks[b].insts[k]) < f.numVregs {
      assert BlockOk(f.blocks[b], |f.blocks|, f.numVregs);
      assert InstOk(f.blocks[b].insts[k], f.numVregs);
    }
  }

  lemma ConstCarries(f: Func, pre: nat, c: i32)
    requires FuncOk(f) && pre < |f.blocks|
    ensures Carries(WithConst(f, pre, c), pre, f.numVregs, c)
    ensures forall r: nat, x | Carries(f, pre, r, x) :: Carries(WithConst(f, pre, c), pre, r, x)
  {
    var f', n := WithConst(f, pre, c), f.numVregs;
    var j := |f.blocks[pre].insts|;
    assert f'.blocks[pre].insts[j] == Mv(n, Imm(c));
    assert forall b, k | 0 <= b < |f.blocks| && 0 <= k < |f.blocks[b].insts| :: f'.blocks[b].insts[k] == f.blocks[b].insts[k];
    DefsBelow(f);
    forall r: nat, x | Carries(f, pre, r, x) ensures Carries(f', pre, r, x) {
      var k :| 0 <= k < |f.blocks[pre].insts| && f.blocks[pre].insts[k] == Mv(r, Imm(x));
      assert f'.blocks[pre].insts[k] == Mv(r, Imm(x));
    }
  }

  method ComputeValue(kind: Kind, key: Key) returns (c: i32)
    requires KeyOk(kind, key)
    ensures c == ValueOf(kind, key)
  {
    c := key.c;
    if kind.Magics? {
      if key.uns {
        var M, _ := Magic.ComputeUnsignedMagic(U(key.c));
        c := Wrap(M);
      } else {
        var M, _ := Magic.ComputeSignedMagic(key.c);
        c := M;
      }
    }
  }

  /** The blocks are the same, but for moves at the end of pre. */
  ghost predicate Prepended(f: Func, f': Func, pre: nat) {
    && |f'.blocks| == |f.blocks| && (forall b | 0 <= b < |f.blocks| && b != pre :: f'.blocks[b] == f.blocks[b])
    && (pre < |f.blocks| ==>
          && |f.blocks[pre].insts| <= |f'.blocks[pre].insts| && f.blocks[pre].insts == f'.blocks[pre].insts[..|f.blocks[pre].insts|]
          && forall j | |f.blocks[pre].insts| <= j < |f'.blocks[pre].insts| :: f'.blocks[pre].insts[j].Mv?)
  }

  lemma PrependedSelf(f: Func, pre: nat)
    ensures Prepended(f, f, pre)
  {
    if pre < |f.blocks| { assert f.blocks[pre].insts[..|f.blocks[pre].insts|] == f.blocks[pre].insts; }
  }

  lemma ConstPrepended(f: Func, pre: nat, c: i32)
    requires pre < |f.blocks|
    ensures Prepended(f, WithConst(f, pre, c), pre)
  {
    var n := |f.blocks[pre].insts|;
    assert WithConst(f, pre, c).blocks[pre].insts[..n] == f.blocks[pre].insts;
  }

  /** The register of a key: the one it has already, or a fresh one. */
  method Materialise(kind: Kind, ghost f0: Func, f: Func, ghost L: set<nat>, ghost v: nat, pre: nat, hoisted: map<Key, nat>, key: Key)
    returns (f': Func, hoisted': map<Key, nat>, r: nat)
    requires Stage(kind, f0, f, L, v, pre, hoisted) && KeyOk(kind, key)
    ensures Stage(kind, f0, f', L, v, pre, hoisted') && key in hoisted' && hoisted'[key] == r
    ensures Prepended(f, f', pre)
  {
    PrependedSelf(f, pre);
    hide FuncOk, LoopShape, Improves, Carries, ValueOf, KeyOk, Prepended;
    if key in hoisted { return f, hoisted, hoisted[key]; }
    var c := ComputeValue(kind, key);
    PreInRange(f, L, v, pre);
    r := f.numVregs;
    f' := WithConst(f, pre, c);
    hoisted' := hoisted[key := r];
    WithConstOk(f, pre, c);
    ConstImproves(f, pre, c);
    ConstPrepended(f, pre, c);
    ImprovesTrans(f0, f, f');
    ConstCarries(f, pre, c);
    SameShape(f, f', L, v, pre);
  }

  lemma PreInRange(f: Func, L: set<nat>, v: nat, pre: nat)
    requires LoopShape(f, L, v, pre)
    ensures pre < |f.blocks| && pre !in L
  {
  }

  /** One instruction of the loop now reads the register. */
  method Use(kind: Kind, ghost f0: Func, f: Func, ghost L: set<nat>, ghost v: nat, ghost pre: nat, ghost hoisted: map<Key, nat>,
             b: nat, j: nat, i: Inst, ghost key: Key) returns (f': Func)
    requires Stage(kind, f0, f, L, v, pre, hoisted) && key in hoisted && b in L && b < |f.blocks| && j < |f.blocks[b].insts|
    requires Swaps(f.blocks[b].insts[j], i, hoisted[key], ValueOf(kind, key)) && InstOk(i, f.numVregs)
    ensures Stage(kind, f0, f', L, v, pre, hoisted) && f' == WithInst(f, b, j, i)
  {
    f' := WithInst(f, b, j, i);
    UseStage(kind, f0, f, L, v, pre, hoisted, b, j, i, key);
  }

  lemma UseStage(kind: Kind, f0: Func, f: Func, L: set<nat>, v: nat, pre: nat, hoisted: map<Key, nat>, b: nat, j: nat, i: Inst, key: Key)
    requires Stage(kind, f0, f, L, v, pre, hoisted) && key in hoisted && b in L && b < |f.blocks| && j < |f.blocks[b].insts|
    requires Swaps(f.blocks[b].insts[j], i, hoisted[key], ValueOf(kind, key)) && InstOk(i, f.numVregs)
    ensures Stage(kind, f0, WithInst(f, b, j, i), L, v, pre, hoisted)
  {
    var f', r, c := WithInst(f, b, j, i), hoisted[key], ValueOf(kind, key);
    PreInRange(f, L, v, pre);
    WithInstOk(f, b, j, i);
    hide FuncOk, LoopShape, Improves, ValueOf, Carries, InstOk, Swaps;
    SwappedAt(f, L, b, j, i, r, c);
    SwapImproves(f, f', L, v, pre, r, c);
    ImprovesTrans(f0, f, f');
    SameShape(f, f', L, v, pre);
    forall k | k in hoisted ensures Carries(f', pre, hoisted[k], ValueOf(kind, k)) {
      StillCarries(f, pre, hoisted[k], ValueOf(kind, k), b, j, i, r, c);
    }
  }

  lemma SwappedAt(f: Func, L: set<nat>, b: nat, j: nat, i: Inst, r: nat, c: i32)
    requires b in L && b < |f.blocks| && j < |f.blocks[b].insts| && Swaps(f.blocks[b].insts[j], i, r, c)
    ensures SwappedIn(f, WithInst(f, b, j, i), L, r, c)
  {
    hide Swaps;
  }

  lemma StillCarries(f: Func, pre: nat, r: nat, c: i32, b: nat, j: nat, i: Inst, r': nat, c': i32)
    requires Carries(f, pre, r, c) && b < |f.blocks| && j < |f.blocks[b].insts| && b != pre
    requires Swaps(f.blocks[b].insts[j], i, r', c')
    ensures Carries(WithInst(f, b, j, i), pre, r, c)
  {
    var f' := WithInst(f, b, j, i);
    assert f'.blocks[pre] == f.blocks[pre];
  }

  lemma WithInstOk(f: Func, b: nat, j: nat, i: Inst)
    requires FuncOk(f) && b < |f.blocks| && j < |f.blocks[b].insts| && InstOk(i, f.numVregs)
    ensures FuncOk(WithInst(f, b, j, i))
  {
    hide InstOk;
    var f' := WithInst(f, b, j, i);
    forall x | 0 <= x < |f.blocks| ensures BlockOk(f'.blocks[x], |f.blocks|, f.numVregs) {
      assert BlockOk(f.blocks[x], |f.blocks|, f.numVregs);
    }
  }

  /** `imm` is worth a register: not 0, and for a divisor no power of two, 1 or -1. */
  predicate Worth(kind: Kind, c: i32) {
    match kind
    case Compares => c != 0
    case Divisors => c != 0 && c != 1 && c != -1 && !(c > 0 && Bits.BitAnd(c, c - 1) == 0)
    case Magics => Magic.NeedsMagic(c)
  }

  /** The numbers that each pass moves out of loops. */
  ghost predicate Movable(kind: Kind, c: int) {
    match kind
    case Compares => c != 0
    case Divisors => c != 0 && c != -1 && !Bits.IsPow2(c)
    case Magics => c != 0 && !Bits.IsPow2(Abs(c))
  }

  lemma WorthMeans(kind: Kind, c: i32)
    ensures Worth(kind, c) <==> Movable(kind, c)
  {
    match kind
    case Compares =>
    case Divisors =>
      if c > 0 { ExactPow2(c); }
      assert 1 == Pow2(0);
      assert Bits.IsPow2(1);
    case Magics =>
      assert Pow2(0) == 1 && Pow2(1) == 2;
      assert Bits.IsPow2(1) && Bits.IsPow2(2);
      if c != 0 { ExactPow2(Abs(c)); }
  }

  lemma ExactPow2(v: nat)
    requires v > 0
    ensures Bits.IsPow2(v) <==> Bits.BitAnd(v, v - 1) == 0
    ensures Bits.IsPow2(v) <==> Bits.Log2Exact(v) != -1
  {
    if Bits.IsPow2(v) {
      var k: nat :| v == Pow2(k);
      Bits.Log2ExactCorrect(v, k);
    } else {
      Bits.Log2ExactCorrect(v, 0);
    }
  }

  /**
   * The pass has nothing to do on i: no comparison with a constant other than 0, no
   * division by a constant that is neither 0, -1 nor a power of two, no division by
   * multiplication without a register that holds the multiplier.
   */
  ghost predicate Settled(kind: Kind, i: Inst) {
    i.Bin? ==>
      match kind
      case Compares =>
        i.bop in {Lt, Gt, Le, Ge, Eq, Ne} ==> !(i.a.Imm? && i.a.imm != 0) && !(i.b.Imm? && i.b.imm != 0)
      case Divisors => i.bop in {Div, Mod} && i.b.Imm? ==> !Movable(kind, i.b.imm)
      case Magics => i.bop in {Div, Mod} && i.b.Imm? && Movable(kind, i.b.imm) ==> i.magicVreg >= 0
  }

  lemma SettledIff(kind: Kind, i: Inst)
    ensures Settled(kind, i) <==> !Left(kind, i)
  {
    if i.Bin? {
      hide Worth, Bits.IsPow2;
      if i.a.Imm? { WorthMeans(Compares, i.a.imm); }
      if i.b.Imm? { WorthMeans(kind, i.b.imm); }
    }
  }

  lemma OperandOk(f: Func, b: nat, j: nat, r: nat)
    requires FuncOk(f) && b < |f.blocks| && j < |f.blocks[b].insts| && f.blocks[b].insts[j].Bin? && r < f.numVregs
    ensures var i := f.blocks[b].insts[j];
            && InstOk(WithA(i, Reg(r)), f.numVregs) && InstOk(i.(b := Reg(r)), f.numVregs) && InstOk(i.(magicVreg := r), f.numVregs)
  {
    assert BlockOk(f.blocks[b], |f.blocks|, f.numVregs);
    var i := f.blocks[b].insts[j];
    assert InstOk(i, f.numVregs);
    forall x | x in Uses(WithA(i, Reg(r))) ensures x < f.numVregs { if x != r { assert x in Uses(i); } }
    forall x | x in Uses(i.(b := Reg(r))) ensures x < f.numVregs { if x != r { assert x in Uses(i); } }
    forall x | x in Uses(i.(magicVreg := r)) ensures x < f.numVregs { if x != r { assert x in Uses(i); } }
  }

  lemma CarriedRange(kind: Kind, f0: Func, f: Func, L: set<nat>, v: nat, pre: nat, hoisted: map<Key, nat>, key: Key)
    requires Stage(kind, f0, f, L, v, pre, hoisted) && key in hoisted
    ensures hoisted[key] < f.numVregs && KeyOk(kind, key)
  {
    hide FuncOk, LoopShape, Improves;
  }

  /** The first operand is a constant that the pass moves out of loops. */
  predicate FirstLeft(i: Inst) {
    i.Bin? && IsCompare(i.bop) && i.a.Imm? && Worth(Compares, i.a.imm)
  }

  /** The second one is, or the magic number of the division is. */
  predicate SecondLeft(kind: Kind, i: Inst) {
    && i.Bin? && (if kind.Compares? then IsCompare(i.bop) else IsDivision(i)) && i.b.Imm? && Worth(kind, i.b.imm)
    && (kind.Magics? ==> i.magicVreg < 0)
  }

  /** Something in the instruction is still to be hoisted. */
  predicate Left(kind: Kind, i: Inst) {
    (kind.Compares? && FirstLeft(i)) || SecondLeft(kind, i)
  }

  /** One instruction of the loop, and moves at the end of the preheader, are all that changes. */
  ghost predicate Stepped(kind: Kind, f: Func, f': Func, pre: nat, b: nat, j: nat) {
    && |f'.blocks| == |f.blocks| && b < |f.blocks| && |f'.blocks[b].insts| == |f.blocks[b].insts| && j < |f.blocks[b].insts|
    && (forall k | 0 <= k < |f.blocks[b].insts| && k != j :: f'.blocks[b].insts[k] == f.blocks[b].insts[k])
    && (Left(kind, f'.blocks[b].insts[j]) ==> Left(kind, f.blocks[b].insts[j]))
    && (forall x | 0 <= x < |f.blocks| && x != pre && x != b :: f'.blocks[x] == f.blocks[x])
    && NoneNew(kind, f, f')
  }

  /** What is left in f' was left in f. */
  ghost predicate NoneNew(kind: Kind, f: Func, f': Func) {
    |f'.blocks| == |f.blocks| &&
    (forall b, j | 0 <= b < |f'.blocks| && 0 <= j < |f'.blocks[b].insts| && Left(kind, f'.blocks[b].insts[j]) ::
      j < |f.blocks[b].insts| && Left(kind, f.blocks[b].insts[j])) &&
    forall b, j | 0 <= b < |f.blocks| && 0 <= j < |f.blocks[b].insts| :: LeftOrSame(kind, f, f', b, j)
  }

  ghost predicate LeftOrSame(kind: Kind, f: Func, f': Func, b: nat, j: nat)
    requires b < |f.blocks| == |f'.blocks| && j < |f.blocks[b].insts|
  {
    j < |f'.blocks[b].insts| && (Left(kind, f.blocks[b].insts[j]) || f'.blocks[b].insts[j] == f.blocks[b].insts[j])
  }

  /** What the pass has nothing to do on stays where it is. */
  ghost predicate OthersStay(kind: Kind, f: Func, r: Func) {
    |r.blocks| == |f.blocks| &&
    forall b, j | 0 <= b < |f.blocks| && 0 <= j < |f.blocks[b].insts| && Settled(kind, f.blocks[b].insts[j]) ::
      j < |r.blocks[b].insts| && r.blocks[b].insts[j] == f.blocks[b].insts[j]
  }

  /** Nothing is left to do in the loop. */
  ghost predicate NothingLeft(kind: Kind, f: Func, L: set<nat>) {
    forall b, j | 0 <= b < |f.blocks| && b in L && 0 <= j < |f.blocks[b].insts| :: Settled(kind, f.blocks[b].insts[j])
  }

  lemma SteppedBy(kind: Kind, f: Func, f1: Func, pre: nat, b: nat, j: nat, i: Inst)
    requires Prepended(f, f1, pre) && b < |f.blocks| && b != pre && j < |f.blocks[b].insts|
    requires Left(kind, f.blocks[b].insts[j])
    ensures Stepped(kind, f, WithInst(f1, b, j, i), pre, b, j)
  {
    hide Left;
    var f' := WithInst(f1, b, j, i);
    forall x, k | 0 <= x < |f'.blocks| && 0 <= k < |f'.blocks[x].insts| && Left(kind, f'.blocks[x].insts[k])
      ensures k < |f.blocks[x].insts| && Left(kind, f.blocks[x].insts[k])
    {
      if x == pre {
        MovesStay(kind, f1.blocks[pre].insts[k]);
        assert f1.blocks[pre].insts[..|f.blocks[pre].insts|][k] == f.blocks[pre].insts[k];
      }
    }
  }

  lemma MovesStay(kind: Kind, i: Inst)
    ensures i.Mv? ==> !Left(kind, i)
  {
  }

  lemma SteppedSelf(kind: Kind, f: Func, pre: nat, b: nat, j: nat)
    requires b < |f.blocks| && j < |f.blocks[b].insts|
    ensures Stepped(kind, f, f, pre, b, j)
  {
  }

  /** The first operand of a comparison. */
  method HoistFirst(ghost f0: Func, f: Func, ghost L: set<nat>, ghost v: nat, pre: nat, hoisted: map<Key, nat>, b: nat, j: nat)
    returns (f': Func, hoisted': map<Key, nat>)
    requires Stage(Compares, f0, f, L, v, pre, hoisted) && b in L && b < |f.blocks| && j < |f.blocks[b].insts|
    ensures Stage(Compares, f0, f', L, v, pre, hoisted') && Stepped(Compares, f, f', pre, b, j)
    ensures !FirstLeft(f'.blocks[b].insts[j])
  {
    hide FuncOk, LoopShape, Improves, Carries, Swaps, InstOk;
    var i := f.blocks[b].insts[j];
    SteppedSelf(Compares, f, pre, b, j);
    if !FirstLeft(i) { return f, hoisted; }
    PreInRange(f, L, v, pre);
    var key, r := Key(i.a.imm, false), 0;
    f', hoisted', r := Materialise(Compares, f0, f, L, v, pre, hoisted, key);
    CarriedRange(Compares, f0, f', L, v, pre, hoisted', key);
    OperandOk(f', b, j, r);
    CompareSwapA(i, r, key.c);
    SteppedBy(Compares, f, f', pre, b, j, WithA(i, Reg(r)));
    hide Stepped, Prepended;
    f' := Use(Compares, f0, f', L, v, pre, hoisted', b, j, WithA(i, Reg(r)), key);
  }

  /** The second operand of a comparison, or a divisor. */
  method HoistSecond(kind: Kind, ghost f0: Func, f: Func, ghost L: set<nat>, ghost v: nat, pre: nat, hoisted: map<Key, nat>, b: nat, j: nat)
    returns (f': Func, hoisted': map<Key, nat>)
    requires Stage(kind, f0, f, L, v, pre, hoisted) && b in L && b < |f.blocks| && j < |f.blocks[b].insts| && !kind.Magics?
    ensures Stage(kind, f0, f', L, v, pre, hoisted') && Stepped(kind, f, f', pre, b, j)
    ensures !SecondLeft(kind, f'.blocks[b].insts[j])
    ensures FirstLeft(f'.blocks[b].insts[j]) ==> FirstLeft(f.blocks[b].insts[j])
  {
    hide FuncOk, LoopShape, Improves, Carries, Swaps, InstOk;
    var i := f.blocks[b].insts[j];
    SteppedSelf(kind, f, pre, b, j);
    if !SecondLeft(kind, i) { return f, hoisted; }
    PreInRange(f, L, v, pre);
    var key, r := Key(i.b.imm, false), 0;
    f', hoisted', r := Materialise(kind, f0, f, L, v, pre, hoisted, key);
    CarriedRange(kind, f0, f', L, v, pre, hoisted', key);
    OperandOk(f', b, j, r);
    if kind.Compares? { CompareSwapB(i, r, key.c); } else { DivisorSwap(i, r, key.c); }
    SteppedBy(kind, f, f', pre, b, j, i.(b := Reg(r)));
    hide Stepped, Prepended;
    f' := Use(kind, f0, f', L, v, pre, hoisted', b, j, i.(b := Reg(r)), key);
  }

  /** The magic number of a division by a constant. */
  method HoistMagic(ghost f0: Func, f: Func, ghost L: set<nat>, ghost v: nat, pre: nat, hoisted: map<Key, nat>, b: nat, j: nat)
    returns (f': Func, hoisted': map<Key, nat>)
    requires Stage(Magics, f0, f, L, v, pre, hoisted) && b in L && b < |f.blocks| && j < |f.blocks[b].insts|
    ensures Stage(Magics, f0, f', L, v, pre, hoisted') && Stepped(Magics, f, f', pre, b, j)
    ensures !SecondLeft(Magics, f'.blocks[b].insts[j])
  {
    hide FuncOk, LoopShape, Improves, Carries, Swaps, InstOk, Magic.NeedsMagic, ValueOf;
    var i := f.blocks[b].insts[j];
    SteppedSelf(Magics, f, pre, b, j);
    if !SecondLeft(Magics, i) { return f, hoisted; }
    PreInRange(f, L, v, pre);
    var key, r := Key(i.b.imm, i.unsignedDiv), 0;
    f', hoisted', r := Materialise(Magics, f0, f, L, v, pre, hoisted, key);
    CarriedRange(Magics, f0, f', L, v, pre, hoisted', key);
    OperandOk(f', b, j, r);
    MagicSwap(i, r);
    SteppedBy(Magics, f, f', pre, b, j, i.(magicVreg := r));
    hide Stepped, Prepended;
    f' := Use(Magics, f0, f', L, v, pre, hoisted', b, j, i.(magicVreg := r), key);
  }

  /** One instruction of a loop. */
  method HoistOne(kind: Kind, ghost f0: Func, f: Func, ghost L: set<nat>, ghost v: nat, pre: nat, hoisted: map<Key, nat>, b: nat, j: nat)
    returns (f': Func, hoisted': map<Key, nat>)
    requires Stage(kind, f0, f, L, v, pre, hoisted) && b in L && b < |f.blocks| && j < |f.blocks[b].insts|
    ensures Stage(kind, f0, f', L, v, pre, hoisted') && Stepped(kind, f, f', pre, b, j) && !Left(kind, f'.blocks[b].insts[j])
  {
    hide Stage, FirstLeft, SecondLeft, NoneNew;
    match kind
    case Compares =>
      f', hoisted' := HoistFirst(f0, f, L, v, pre, hoisted, b, j);
      ghost var f1 := f';
      f', hoisted' := HoistSecond(kind, f0, f', L, v, pre, hoisted', b, j);
      SteppedTwice(kind, f, f1, f', pre, b, j);
    case Divisors =>
      f', hoisted' := HoistSecond(kind, f0, f, L, v, pre, hoisted, b, j);
    case Magics =>
      f', hoisted' := HoistMagic(f0, f, L, v, pre, hoisted, b, j);
  }

  /** All instructions of one block of the loop. */
  method HoistBlock(kind: Kind, ghost f0: Func, f: Func, ghost L: set<nat>, ghost v: nat, pre: nat, hoisted: map<Key, nat>, b: nat)
    returns (r: Func, hoisted': map<Key, nat>)
    requires Stage(kind, f0, f, L, v, pre, hoisted) && b in L && b < |f.blocks|
    ensures Stage(kind, f0, r, L, v, pre, hoisted') && NoneNew(kind, f, r)
    ensures forall k | 0 <= k < |r.blocks[b].insts| :: !Left(kind, r.blocks[b].insts[k])
  {
    hide Stage, Left, NoneNew;
    r, hoisted' := f, hoisted;
    NoneNewSelf(kind, f);
    var n := |r.blocks[b].insts|;
    for j := 0 to n
      invariant Stage(kind, f0, r, L, v, pre, hoisted')
      invariant |r.blocks| == |f.blocks| && |r.blocks[b].insts| == n && NoneNew(kind, f, r)
      invariant forall k | 0 <= k < j :: !Left(kind, r.blocks[b].insts[k])
    {
      ghost var r0 := r;
      r, hoisted' := HoistOne(kind, f0, r, L, v, pre, hoisted', b, j);
      NoneNewTrans(kind, f, r0, r);
    }
  }

  lemma NoneNewSelf(kind: Kind, f: Func)
    ensures NoneNew(kind, f, f)
  {
  }

  lemma NoneNewTrans(kind: Kind, f: Func, r: Func, r': Func)
    requires NoneNew(kind, f, r) && NoneNew(kind, r, r')
    ensures NoneNew(kind, f, r')
  {
    hide Left;
    forall b, j | 0 <= b < |f.blocks| && 0 <= j < |f.blocks[b].insts|
      ensures LeftOrSame(kind, f, r', b, j)
    {
      assert LeftOrSame(kind, f, r, b, j) && LeftOrSame(kind, r, r', b, j);
    }
    forall b, j | 0 <= b < |r'.blocks| && 0 <= j < |r'.blocks[b].insts| && Left(kind, r'.blocks[b].insts[j])
      ensures j < |f.blocks[b].insts| && Left(kind, f.blocks[b].insts[j])
    {
      assert j < |r.blocks[b].insts| && Left(kind, r.blocks[b].insts[j]);
    }
  }

  lemma SteppedTwice(kind: Kind, f: Func, f1: Func, f2: Func, pre: nat, b: nat, j: nat)
    requires Stepped(kind, f, f1, pre, b, j) && Stepped(kind, f1, f2, pre, b, j)
    ensures Stepped(kind, f, f2, pre, b, j)
  {
    NoneNewTrans(kind, f, f1, f2);
    hide NoneNew, Left;
  }

  /** Nothing is left in the first n blocks of the loop. */
  ghost predicate ClearedBelow(kind: Kind, f: Func, L: set<nat>, n: nat) {
    forall x, k | 0 <= x < n && x in L && x < |f.blocks| && 0 <= k < |f.blocks[x].insts| :: !Left(kind, f.blocks[x].insts[k])
  }

  lemma ClearedOne(kind: Kind, f: Func, r: Func, L: set<nat>, b: nat)
    requires ClearedBelow(kind, f, L, b) && NoneNew(kind, f, r)
    requires b in L && b < |r.blocks| ==> forall k | 0 <= k < |r.blocks[b].insts| :: !Left(kind, r.blocks[b].insts[k])
    ensures ClearedBelow(kind, r, L, b + 1)
  {
    hide Left;
  }

  lemma ClearedAll(kind: Kind, f: Func, L: set<nat>)
    requires ClearedBelow(kind, f, L, |f.blocks|)
    ensures NothingLeft(kind, f, L)
  {
    hide Left, Settled;
    forall b, j | 0 <= b < |f.blocks| && b in L && 0 <= j < |f.blocks[b].insts| ensures Settled(kind, f.blocks[b].insts[j]) {
      SettledIff(kind, f.blocks[b].insts[j]);
    }
  }

  /** All instructions of one loop: nothing is left in it, and nothing new anywhere. */
  method HoistIn(kind: Kind, ghost f0: Func, f: Func, L: set<nat>, ghost v: nat, pre: nat) returns (r: Func)
    requires Stage(kind, f0, f, L, v, pre, map[])
    ensures Stage(kind, f0, r, L, v, pre, map[])
    ensures NothingLeft(kind, r, L) && NoneNew(kind, f, r)
  {
    r := f;
    var hoisted: map<Key, nat> := map[];
    NoneNewSelf(kind, f);
    for b := 0 to |f.blocks|
      invariant |r.blocks| == |f.blocks| && NoneNew(kind, f, r) && Stage(kind, f0, r, L, v, pre, hoisted)
      invariant ClearedBelow(kind, r, L, b)
    {
      hide Stage, NoneNew, ClearedBelow;
      ghost var r0 := r;
      NoneNewSelf(kind, r);
      if b in L {
        r, hoisted := HoistBlock(kind, f0, r, L, v, pre, hoisted, b);
      }
      SameLength(kind, r0, r);
      NoneNewTrans(kind, f, r0, r);
      ClearedOne(kind, r0, r, L, b);
    }
    hide NoneNew, ClearedBelow, NothingLeft;
    ClearedAll(kind, r, L);
  }

  lemma SameLength(kind: Kind, f: Func, r: Func)
    requires NoneNew(kind, f, r)
    ensures |r.blocks| == |f.blocks|
  {
  }

  /** The only way into the loop from outside is a jump at the end of pre. */
  ghost predicate EntersBy(f: Func, L: set<nat>, v: nat, pre: nat) {
    pre < |f.blocks| && pre !in L && f.blocks[pre].term == Jmp(v) && forall p: nat | Edge(f, p, v) :: p in L || p == pre
  }

  /** The only predecessor of the header outside the loop, if there is exactly one. */
  method Preheader(f: Func, preds: Preds, L: set<nat>, v: nat) returns (pre: Option<nat>)
    requires PredsOf(f, preds) && JumpsOnce(f, preds) && v < |f.blocks|
    ensures pre.Some? ==> pre.value !in L && pre.value < |f.blocks| && forall p: nat | Edge(f, p, v) :: p in L || p == pre.value
    ensures forall p: nat | EntersBy(f, L, v, p) :: pre == Some(p)
  {
    pre := None;
    var outside := 0;
    ghost var at := 0;
    for i := 0 to |preds[v]|
      invariant outside == 0 ==> pre.None? && forall j | 0 <= j < i :: preds[v][j] in L
      invariant outside > 0 ==> pre.Some? && pre.value !in L && 0 <= at < i && preds[v][at] == pre.value
      invariant outside == 1 ==> forall j | 0 <= j < i :: preds[v][j] in L || preds[v][j] == pre.value
      invariant outside > 1 ==> forall p: nat :: !EntersBy(f, L, v, p)
      invariant outside >= 0
    {
      var p := preds[v][i];
      if p !in L {
        assert p in preds[v] && Edge(f, p, v);
        if outside > 0 {
          assert preds[v][at] in preds[v] && Edge(f, preds[v][at], v);
        }
        at := i;
        outside := outside + 1;
        pre := Some(p);
      }
    }
    if outside != 1 { pre := None; }
    if pre.Some? {
      assert pre.value in preds[v];
      assert Edge(f, pre.value, v);
      forall p: nat | Edge(f, p, v) ensures p in L || p == pre.value {
        assert p in preds[v];
      }
    }
    if outside == 0 {
      assert forall p: nat | EntersBy(f, L, v, p) :: Edge(f, p, v) && p in preds[v];
    }
  }

  /** A natural loop that a jump enters. */
  ghost predicate Due(f: Func, L: set<nat>, u: nat, v: nat) {
    Edge(f, u, v) && Dominates(f, v, u) && IsLoop(f, L, u, v) && exists pre :: EntersBy(f, L, v, pre)
  }

  ghost predicate AllReachable(f: Func) {
    forall b | 0 <= b < |f.blocks| :: Reachable(f, b)
  }

  /** Nothing is left in the loops of the back edges from u to the first n of its successors. */
  ghost predicate Cleared(kind: Kind, f: Func, r: Func, u: nat, n: nat) {
    forall L, i | u < |f.blocks| && 0 <= i < n <= |Succs(f.blocks[u].term)| && Due(f, L, u, Succs(f.blocks[u].term)[i]) ::
      NothingLeft(kind, r, L)
  }

  lemma StillCleared(kind: Kind, f: Func, r: Func, r': Func, u: nat, n: nat)
    requires Cleared(kind, f, r, u, n) && NoneNew(kind, r, r')
    ensures Cleared(kind, f, r', u, n)
  {
    hide Due, Left, Settled;
    forall L | NothingLeft(kind, r, L) ensures NothingLeft(kind, r', L) {
      forall b, j | 0 <= b < |r'.blocks| && b in L && 0 <= j < |r'.blocks[b].insts| ensures Settled(kind, r'.blocks[b].insts[j]) {
        SettledIff(kind, r'.blocks[b].insts[j]);
        if j < |r.blocks[b].insts| { SettledIff(kind, r.blocks[b].insts[j]); }
      }
    }
  }

  /** The edge u -> v, if it is a back edge. */
  method HoistEdge(kind: Kind, f: Func, preds: Preds, domu: set<nat>, r0: Func, u: nat, v: nat) returns (r: Func)
    requires FuncOk(f) && (forall p: nat :: !Edge(f, p, 0)) && PredsOf(f, preds) && JumpsOnce(f, preds)
    requires u < |f.blocks| && v < |f.blocks| && Edge(f, u, v) && (v in domu ==> Dominates(f, v, u))
    requires FuncOk(r0) && SameGraph(f, r0) && Improves(f, r0)
    ensures FuncOk(r) && SameGraph(f, r) && Improves(f, r) && NoneNew(kind, r0, r)
    ensures v in domu ==> forall M | Due(f, M, u, v) :: NothingLeft(kind, r, M)
  {
    r := r0;
    if v !in domu { return; }
    hide Improves, FuncOk, Dominates, PredsOf, JumpsOnce, EntersBy, NoneNew, NothingLeft;
    var L := NaturalLoop(f, preds, u, v);
    var pre := Preheader(f, preds, L, v);
    if pre.Some? && f.blocks[pre.value].term == Jmp(v) {
      EntryOutside(f, L, u, v);
      assert LoopShape(f, L, v, pre.value);
      SameShape(f, r, L, v, pre.value);
      r := HoistIn(kind, f, r, L, v, pre.value);
    }
    OnlyLoop(f, L, u, v, pre);
  }

  /**
   * One hoisting pass.  When no edge enters the entry block, every run of every
   * module with the new function in its place refines the run with the old one;
   * and when all blocks are reachable, no loop that a jump enters keeps a constant
   * or a magic number that the pass is for.
   */
  method HoistPass(kind: Kind, f: Func) returns (r: Func)
    requires FuncOk(f) && forall p: nat :: !Edge(f, p, 0)
    ensures FuncOk(r) && SameGraph(f, r) && Improves(f, r)
    ensures AllReachable(f) ==> forall L, u, v | Due(f, L, u, v) :: NothingLeft(kind, r, L)
    ensures OthersStay(kind, f, r)
  {
    var preds := ComputeCFG(f);
    var dom := ComputeDom(f, preds);
    r := f;
    ImprovesSelf(f);
    for u := 0 to |f.blocks|
      invariant FuncOk(r) && SameGraph(f, r) && Improves(f, r) && NoneNew(kind, f, r)
      invariant AllReachable(f) ==> forall x | 0 <= x < u :: Cleared(kind, f, r, x, |Succs(f.blocks[x].term)|)
    {
      var succs := Succs(f.blocks[u].term);
      for i := 0 to |succs|
        invariant FuncOk(r) && SameGraph(f, r) && Improves(f, r) && NoneNew(kind, f, r)
        invariant AllReachable(f) ==> forall x | 0 <= x < u :: Cleared(kind, f, r, x, |Succs(f.blocks[x].term)|)
        invariant AllReachable(f) ==> Cleared(kind, f, r, u, i)
      {
        SuccEdge(f, u, i);
        ghost var r0 := r;
        hide Improves, FuncOk, SameGraph, PredsOf, JumpsOnce, Cleared, NoneNew, NothingLeft, IsLoop, EntersBy, Reachable;
        r := HoistEdge(kind, f, preds, dom[u], r, u, succs[i]);
        NoneNewTrans(kind, f, r0, r);
        if AllReachable(f) {
          forall x | 0 <= x < u ensures Cleared(kind, f, r, x, |Succs(f.blocks[x].term)|) {
            StillCleared(kind, f, r0, r, x, |Succs(f.blocks[x].term)|);
          }
          OneMore(kind, f, r0, r, u, i);
        }
      }
    }
    NoneNewStay(kind, f, r);
  }

  lemma NoneNewStay(kind: Kind, f: Func, r: Func)
    requires NoneNew(kind, f, r)
    ensures OthersStay(kind, f, r)
  {
    hide Left, Settled;
    forall b, j | 0 <= b < |f.blocks| && 0 <= j < |f.blocks[b].insts| && Settled(kind, f.blocks[b].insts[j])
      ensures j < |r.blocks[b].insts| && r.blocks[b].insts[j] == f.blocks[b].insts[j]
    {
      SettledIff(kind, f.blocks[b].insts[j]);
      assert LeftOrSame(kind, f, r, b, j);
    }
  }

  /** The loop found is the loop meant, and it is entered by a jump only from its preheader. */
  lemma OnlyLoop(f: Func, L: set<nat>, u: nat, v: nat, pre: Option<nat>)
    requires IsLoop(f, L, u, v) && forall p: nat | EntersBy(f, L, v, p) :: pre == Some(p)
    ensures forall M | Due(f, M, u, v) :: M == L && pre.Some? && pre.value < |f.blocks| && f.blocks[pre.value].term == Jmp(v)
  {
    hide IsLoop;
    forall M | Due(f, M, u, v)
      ensures M == L && pre.Some? && pre.value < |f.blocks| && f.blocks[pre.value].term == Jmp(v)
    {
      LoopUnique(f, L, M, u, v);
    }
  }

  lemma OneMore(kind: Kind, f: Func, r0: Func, r: Func, u: nat, i: nat)
    requires u < |f.blocks| && i < |Succs(f.blocks[u].term)| && Cleared(kind, f, r0, u, i) && NoneNew(kind, r0, r)
    requires forall M | Due(f, M, u, Succs(f.blocks[u].term)[i]) :: NothingLeft(kind, r, M)
    ensures Cleared(kind, f, r, u, i + 1)
  {
    StillCleared(kind, f, r0, r, u, i);
    hide Due, NothingLeft;
  }

  lemma SuccEdge(f: Func, u: nat, i: nat)
    requires FuncOk(f) && u < |f.blocks| && i < |Succs(f.blocks[u].term)|
    ensures Succs(f.blocks[u].term)[i] < |f.blocks| && Edge(f, u, Succs(f.blocks[u].term)[i]) && |f.blocks| > 0
  {
    assert BlockOk(f.blocks[u], |f.blocks|, f.numVregs);
    assert Succs(f.blocks[u].term)[i] in Succs(f.blocks[u].term);
  }

}
