/** Frames: argument passing, what a call keeps, prologue and epilogue. */
module FrameProof {
  import opened Word32
  import opened IR
  import opened RiscV
  import opened RegAlloc
  import opened ConstOps
  import opened CodeGen
  import opened InstProof

  /** The machine's state when the function was called, and where it returns to. */
  datatype Caller = Caller(m0: Machine, link: i32)

  /** What the body of a function keeps in place for its epilogue and its caller. */
  ghost predicate InFrame(fr: Frame, e: Caller, m: Machine) {
    && FrameAt(fr, m)
    && U(m.r[SP]) + fr.Size() == U(e.m0.r[SP])
    && SavedRegs(fr, e, m, |fr.A.usedCallee|)
    && (forall x: Reg | IsCalleeSaved(x) && x !in fr.A.usedCallee :: m.r[x] == e.m0.r[x])
    && (if fr.A.isLeaf then m.r[RA] == e.link else Word(m.mem, U(m.r[SP]) + fr.RaOff()) == e.link)
    && CallerMemory(e, m)
  }

  ghost predicate SavedRegs(fr: Frame, e: Caller, m: Machine, n: nat) {
    forall i | 0 <= i < n :: Word(m.mem, U(m.r[SP]) + fr.CalleeBase() + 4 * i) == Get(e.m0.r, CalleeReg(fr, i))
  }

  ghost predicate CallerMemory(e: Caller, m: Machine) {
    forall addr | addr >= U(e.m0.r[SP]) :: Word(m.mem, addr) == Word(e.m0.mem, addr)
  }

  /** The callee-saved registers the body writes are exactly the saved ones. */
  ghost predicate Saves(fr: Frame) {
    forall v: nat | Placed(fr.A, v) && IsCalleeSaved(fr.A.reg[v]) :: fr.A.reg[v] in fr.A.usedCallee
  }

  /** Writes below the save area and to places keep the frame. */
  lemma FrameKept(fr: Frame, e: Caller, m: Machine, m': Machine, d: int, S: set<int>)
    requires InFrame(fr, e, m) && Saves(fr) && (d >= 0 ==> Placed(fr.A, d))
    requires OnlyPlace(fr, m, m', d, S)
    requires forall x | x in S :: !IsCalleeSaved(x) && x != SP && x != RA
    ensures InFrame(fr, e, m')
  {
  }

  // ---- passing arguments ------------------------------------------------------------------

  ghost predicate ShowsAll(fr: Frame, m: Machine, args: seq<Val>, xs: seq<i32>) {
    |xs| == |args| && forall k | 0 <= k < |args| :: Shows(fr, m, args[k], xs[k])
  }

  lemma {:induction false} ReadAllShows(fr: Frame, m: Machine, regs: Regs, args: seq<Val>)
    requires Matches(fr, m, regs, ArgUses(args)) && ReadAll(args, regs).Some?
    ensures ShowsAll(fr, m, args, ReadAll(args, regs).value)
  {
    if args != [] {
      assert args[0].Reg? ==> args[0].reg in ArgUses(args);
      OperandShows(fr, m, regs, ArgUses(args), args[0]);
      forall v | v in ArgUses(args[1..]) ensures v in ArgUses(args) {
        var i :| 0 <= i < |args[1..]| && args[1..][i].Reg? && args[1..][i].reg == v;
        assert args[i + 1].reg == v;
      }
      ReadAllShows(fr, m, regs, args[1..]);
    }
  }

  /** The outgoing area has room for n arguments. */
  predicate Fits(fr: Frame, n: nat) {
    n <= 8 || 4 * (n - 8) <= fr.outArgArea
  }

  lemma OutSlot(fr: Frame, m: Machine, i: nat, n: nat)
    requires FrameAt(fr, m) && 8 <= i < n && Fits(fr, n)
    ensures Reachable(m, 4 * (i - 8)) && 4 * (i - 8) + 4 <= fr.SpillBase()
  {
    FrameSizes(fr);
  }

  /** Writes into the outgoing area leave every place alone. */
  lemma PlacesAboveOut(fr: Frame, m: Machine, m': Machine, S: set<int>)
    requires FrameAt(fr, m)
    requires forall x: Reg | x !in S :: m'.r[x] == m.r[x]
    requires forall x | x in S :: !IsPool(x) && x != SP
    requires forall addr | addr >= U(m.r[SP]) + fr.SpillBase() :: Word(m'.mem, addr) == Word(m.mem, addr)
    ensures FrameAt(fr, m') && m'.r[SP] == m.r[SP]
    ensures forall v | Placed(fr.A, v) :: Place(fr, m', v) == Place(fr, m, v)
  {
    assert m'.r[SP] == m.r[SP];
    forall v | Placed(fr.A, v) ensures Place(fr, m', v) == Place(fr, m, v) {
      PlacedReg(fr, v);
      if fr.RegOf(v) < 0 { SlotReachable(fr, m, v); }
    }
  }

  /** t5 and the argument registers. */
  predicate InCallScratch(x: Reg) {
    x == T5 || A0 <= x <= A7
  }

  const OUT_SCRATCH: set<int> := {T5 as int, A7 as int}

  /** The first n arguments' stack slots hold their values; nothing else changed. */
  ghost predicate StackPassed(fr: Frame, m: Machine, m': Machine, xs: seq<i32>, n: nat)
    requires n <= |xs|
  {
    && m'.g == m.g
    && (forall x: Reg | x !in OUT_SCRATCH :: m'.r[x] == m.r[x])
    && (forall k | 8 <= k < n :: Word(m'.mem, U(m.r[SP]) + 4 * (k - 8)) == xs[k])
    && (forall addr | addr < U(m.r[SP]) || addr >= U(m.r[SP]) + Max(0, 4 * (n - 8)) :: Word(m'.mem, addr) == Word(m.mem, addr))
  }

  /** One argument into its stack slot. */
  lemma StoreArgRuns(fr: Frame, a: Val, x: i32, off: nat, m: Machine)
    requires FrameAt(fr, m) && Shows(fr, m, a, x) && Reachable(m, off)
    ensures var code := Materialize(fr, a, T5) + StoreOff(T5, off);
            && AllPlain(code) && Steps(code, m).Some?
            && var m' := Steps(code, m).value;
               && m'.g == m.g && m'.mem == m.mem[U(m.r[SP]) + off := x]
               && forall y: Reg | y !in OUT_SCRATCH :: m'.r[y] == m.r[y]
  {
    hide Materialize, StoreOff;
    MaterializeRuns(fr, a, T5, m, x);
    var m1 := Steps(Materialize(fr, a, T5), m).value;
    StoreOffRuns(T5, off, m1);
    StepsAppend(Materialize(fr, a, T5), StoreOff(T5, off), m);
  }

  lemma ShowsAllSurvives(fr: Frame, m: Machine, m': Machine, args: seq<Val>, xs: seq<i32>)
    requires ShowsAll(fr, m, args, xs)
    requires forall v | Placed(fr.A, v) :: Place(fr, m', v) == Place(fr, m, v)
    ensures ShowsAll(fr, m', args, xs)
  {
  }

  lemma {:induction false} StackArgsRun(fr: Frame, args: seq<Val>, xs: seq<i32>, n: nat, m: Machine)
    requires n <= |args| && FrameAt(fr, m) && ShowsAll(fr, m, args, xs) && Fits(fr, n)
    ensures Steps(StackArgs(fr, args, n), m).Some?
    ensures StackPassed(fr, m, Steps(StackArgs(fr, args, n), m).value, xs, n)
    decreases n
  {
    if n > 8 {
      hide Materialize, StoreOff, Shows, Place, StackPassed, Reachable, FrameAt;
      var off := 4 * (n - 1 - 8);
      var code, rest := Materialize(fr, args[n - 1], T5) + StoreOff(T5, off), StackArgs(fr, args, n - 1);
      OutSlot(fr, m, n - 1, n);
      assert Shows(fr, m, args[n - 1], xs[n - 1]);
      StoreArgRuns(fr, args[n - 1], xs[n - 1], off, m);
      var m2 := Steps(code, m).value;
      PlacesAboveOut(fr, m, m2, OUT_SCRATCH);
      ShowsAllSurvives(fr, m, m2, args, xs);
      StackArgsRun(fr, args, xs, n - 1, m2);
      StepsAppend(code, rest, m);
      StackPassedStep(fr, m, m2, Steps(rest, m2).value, xs, n);
    } else {
      assert StackPassed(fr, m, m, xs, n);
    }
  }

  lemma StackPassedStep(fr: Frame, m: Machine, m2: Machine, m': Machine, xs: seq<i32>, n: nat)
    requires 8 < n <= |xs| && m2.g == m.g && m2.mem == m.mem[U(m.r[SP]) + 4 * (n - 1 - 8) := xs[n - 1]]
    requires forall x: Reg | x !in OUT_SCRATCH :: m2.r[x] == m.r[x]
    requires StackPassed(fr, m2, m', xs, n - 1)
    ensures StackPassed(fr, m, m', xs, n)
  {
  }

  /** a0 .. a(n-1). */
  predicate IsArgReg(x: Reg, n: nat) {
    A0 <= x < A0 + n
  }

  /** The first n arguments' registers hold their values; nothing else but a7 changed. */
  ghost predicate RegPassed(m: Machine, m': Machine, xs: seq<i32>, n: nat)
    requires n <= 8 && n <= |xs|
  {
    && m'.mem == m.mem && m'.g == m.g
    && (forall x: Reg | x != A7 && !IsArgReg(x, n) :: m'.r[x] == m.r[x])
    && (forall k | 0 <= k < n :: m'.r[A0 + k] == xs[k])
  }

  lemma {:induction false} RegArgsRun(fr: Frame, args: seq<Val>, xs: seq<i32>, n: nat, m: Machine)
    requires n <= |args| && n <= 8 && FrameAt(fr, m) && ShowsAll(fr, m, args, xs)
    ensures Steps(RegArgs(fr, args, n), m).Some?
    ensures RegPassed(m, Steps(RegArgs(fr, args, n), m).value, xs, n)
  {
    if n > 0 {
      hide Materialize, Shows, Place, RegPassed;
      RegArgsRun(fr, args, xs, n - 1, m);
      var before, last := RegArgs(fr, args, n - 1), Materialize(fr, args[n - 1], A0 + (n - 1));
      var m1 := Steps(before, m).value;
      RegPassedPlaces(fr, m, m1, xs, n - 1);
      ShowsAllSurvives(fr, m, m1, args, xs);
      assert Shows(fr, m1, args[n - 1], xs[n - 1]);
      MaterializeRuns(fr, args[n - 1], A0 + (n - 1), m1, xs[n - 1]);
      StepsAppend(before, last, m);
      RegPassedStep(m, m1, Steps(last, m1).value, xs, n);
    }
  }

  lemma RegPassedPlaces(fr: Frame, m: Machine, m': Machine, xs: seq<i32>, n: nat)
    requires n <= 8 && n <= |xs| && RegPassed(m, m', xs, n) && FrameAt(fr, m)
    ensures FrameAt(fr, m') && m'.r[SP] == m.r[SP]
    ensures forall v | Placed(fr.A, v) :: Place(fr, m', v) == Place(fr, m, v)
  {
  }

  lemma RegPassedStep(m: Machine, m1: Machine, m': Machine, xs: seq<i32>, n: nat)
    requires 0 < n <= 8 && n <= |xs| && RegPassed(m, m1, xs, n - 1)
    requires Only(m1, m', {A0 + (n - 1), A7}) && m'.r[A0 + (n - 1)] == xs[n - 1]
    ensures RegPassed(m, m', xs, n)
  {
  }

  /** The arguments are where a callee looks for them. */
  ghost predicate ArgsIn(m: Machine, xs: seq<i32>) {
    forall k | 0 <= k < |xs| ::
      if k < 8 then m.r[A0 + k] == xs[k] else Word(m.mem, U(m.r[SP]) + 4 * (k - 8)) == xs[k]
  }

  lemma CallArgsRun(fr: Frame, args: seq<Val>, xs: seq<i32>, m: Machine)
    requires FrameAt(fr, m) && ShowsAll(fr, m, args, xs) && Fits(fr, |args|)
    ensures Steps(CallArgs(fr, args), m).Some?
    ensures var m' := Steps(CallArgs(fr, args), m).value;
            && ArgsIn(m', xs) && m'.g == m.g && m'.r[SP] == m.r[SP]
            && (forall x: Reg | !InCallScratch(x) :: m'.r[x] == m.r[x])
            && (forall addr | addr < U(m.r[SP]) || addr >= U(m.r[SP]) + fr.outArgArea :: Word(m'.mem, addr) == Word(m.mem, addr))
  {
    hide StackArgs, RegArgs, Place, Shows;
    var n := if |args| < 8 then |args| else 8;
    StackArgsRun(fr, args, xs, |args|, m);
    var onStack, inRegs := StackArgs(fr, args, |args|), RegArgs(fr, args, n);
    var m1 := Steps(onStack, m).value;
    PlacesAboveOut(fr, m, m1, OUT_SCRATCH);
    ShowsAllSurvives(fr, m, m1, args, xs);
    RegArgsRun(fr, args, xs, n, m1);
    StepsAppend(onStack, inRegs, m);
  }

  // ---- what a call keeps ----------------------------------------------------------------------

  /** The callee's side of the calling convention. */
  ghost predicate Kept(m: Machine, m': Machine, r: Result) {
    && m'.r[SP] == m.r[SP]
    && (forall x: Reg | IsCalleeSaved(x) :: m'.r[x] == m.r[x])
    && (forall addr | addr >= U(m.r[SP]) :: Word(m'.mem, addr) == Word(m.mem, addr))
    && (r.val.Some? ==> m'.r[A0] == r.val.value)
    && m'.g == r.globals
  }

  /** A value in a callee-saved register or in memory survives a call. */
  lemma SurvivesCall(fr: Frame, m: Machine, m1: Machine, m2: Machine, r: Result, v: nat)
    requires FrameAt(fr, m) && Placed(fr.A, v) && (fr.A.reg[v] == -1 || IsCalleeSaved(fr.A.reg[v]))
    requires m1.r[SP] == m.r[SP] && forall x: Reg | IsCalleeSaved(x) :: m1.r[x] == m.r[x]
    requires forall addr | addr >= U(m.r[SP]) + fr.outArgArea :: Word(m1.mem, addr) == Word(m.mem, addr)
    requires Kept(m1, m2, r)
    ensures Place(fr, m2, v) == Place(fr, m, v)
  {
  }

  lemma FrameKeptByCall(fr: Frame, e: Caller, m: Machine, m1: Machine, m2: Machine, r: Result)
    requires InFrame(fr, e, m) && !fr.A.isLeaf
    requires m1.r[SP] == m.r[SP] && forall x: Reg | IsCalleeSaved(x) :: m1.r[x] == m.r[x]
    requires forall addr | addr >= U(m.r[SP]) + fr.outArgArea :: Word(m1.mem, addr) == Word(m.mem, addr)
    requires Kept(m1, m2, r)
    ensures InFrame(fr, e, m2)
  {
  }

  lemma CallResultRuns(fr: Frame, d: int, over: int, m: Machine)
    requires FrameAt(fr, m) && (over == -1 || over == A0) && (d >= 0 ==> Placed(fr.A, d))
    ensures Steps(CallResult(fr, d, over), m).Some?
    ensures var m' := Steps(CallResult(fr, d, over), m).value;
            && m'.g == m.g
            && (over == A0 ==> m' == m)
            && (over == -1 ==> OnlyPlace(fr, m, m', d, {A7}))
            && (over == -1 && d >= 0 ==> Place(fr, m', d) == m.r[A0])
  {
    if d >= 0 && over == -1 {
      PlacedReg(fr, d);
      if fr.RegOf(d) >= 0 {
        Steps1(Move(OpMv, fr.RegOf(d), A0), m);
      } else {
        SlotReachable(fr, m, d);
        StoreOffRuns(A0, fr.SpillOff(d), m);
      }
    }
  }
}
