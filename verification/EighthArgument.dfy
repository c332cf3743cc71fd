/**
 * The eighth register argument.  Stores with large offsets build their address in
 * a7, where that argument arrives; it reaches its place exactly if no such store
 * comes before it is read.
 */
module EighthArgument {
  import opened Word32
  import opened IR
  import opened RiscV
  import opened RegAlloc
  import opened CodeGen
  import opened InstProof
  import opened FrameProof
  import opened EntryExit
  import opened Params

  /** The instruction has nothing to do with a7. */
  predicate Free(i: Instr) {
    match i
    case Li(rd, _) => rd != A7
    case Move(_, rd, rs) => rd != A7 && rs != A7
    case Arith(_, rd, rs, rs2) => rd != A7 && rs != A7 && rs2 != A7
    case Addi(rd, rs, _) => rd != A7 && rs != A7
    case Sw(rs, _, base) => rs != A7 && base != A7
    case _ => false
  }

  predicate AllFree(code: seq<Instr>) {
    forall k | 0 <= k < |code| :: Free(code[k])
  }

  /** a7 is overwritten before anything reads it. */
  ghost predicate Kills(code: seq<Instr>) {
    exists k :: 0 <= k < |code| && AllFree(code[..k]) && code[k].Li? && code[k].rd == A7
  }

  /** The machines differ at most in a7. */
  ghost predicate ButA7(m: Machine, m': Machine) {
    m'.mem == m.mem && m'.g == m.g && forall x: Reg | x != A7 :: m'.r[x] == m.r[x]
  }

  lemma FreeStep(i: Instr, m: Machine, m': Machine)
    requires Free(i) && ButA7(m, m')
    ensures Step(i, m).Some? <==> Step(i, m').Some?
    ensures Step(i, m).Some? ==> ButA7(Step(i, m).value, Step(i, m').value)
  {
    hide Wrap, U, EvalReg, EvalMove;
  }

  /** Where a7 is overwritten first, its value makes no difference. */
  lemma {:induction false} KillsEqual(code: seq<Instr>, m: Machine, m': Machine)
    requires AllPlain(code) && Kills(code) && ButA7(m, m')
    ensures Steps(code, m) == Steps(code, m')
    decreases |code|
  {
    var k :| 0 <= k < |code| && AllFree(code[..k]) && code[k].Li? && code[k].rd == A7;
    if k == 0 {
      var n, n' := Step(code[0], m).value, Step(code[0], m').value;
      assert n.r == n'.r by { assert forall x | 0 <= x < 32 :: n.r[x] == n'.r[x]; }
    } else {
      assert code[..k][0] == code[0];
      FreeStep(code[0], m, m');
      if Step(code[0], m).Some? {
        assert code[1..][..k - 1] == code[..k][1..];
        assert code[1..][k - 1] == code[k];
        KillsEqual(code[1..], Step(code[0], m).value, Step(code[0], m').value);
      }
    }
  }

  lemma KillsThen(xs: seq<Instr>, ys: seq<Instr>)
    ensures Kills(xs) ==> Kills(xs + ys)
    ensures AllFree(xs) && Kills(ys) ==> Kills(xs + ys)
    ensures AllFree(xs) && AllFree(ys) ==> AllFree(xs + ys)
  {
    if Kills(xs) {
      var k :| 0 <= k < |xs| && AllFree(xs[..k]) && xs[k].Li? && xs[k].rd == A7;
      assert (xs + ys)[..k] == xs[..k] && (xs + ys)[k] == xs[k];
    }
    if AllFree(xs) && Kills(ys) {
      var k :| 0 <= k < |ys| && AllFree(ys[..k]) && ys[k].Li? && ys[k].rd == A7;
      assert (xs + ys)[..|xs| + k] == xs + ys[..k] && (xs + ys)[|xs| + k] == ys[k];
    }
  }

  /** A store kills a7 exactly if its offset is large. */
  lemma StoreKills(x: Reg, off: int)
    requires x != A7
    ensures if Fits12(off) then AllFree(StoreOff(x, off)) else Kills(StoreOff(x, off))
  {
    if !Fits12(off) { LargeKills(x, off); }
  }

  lemma LargeKills(x: Reg, off: int)
    requires !Fits12(off)
    ensures Kills(StoreOff(x, off))
  {
    var code := StoreOff(x, off);
    assert code[0] == Li(A7, Wrap(off)) && AllFree(code[..0]);
  }

  /** The first n save slots have small offsets. */
  predicate SavesFit(fr: Frame, n: nat) {
    forall i | 0 <= i < n :: Fits12(fr.CalleeBase() + 4 * i)
  }

  lemma SavesFitStep(fr: Frame, n: nat)
    requires CalleeListOk(fr) && 0 < n <= |fr.A.usedCallee|
    ensures SavesFit(fr, n) <==> SavesFit(fr, n - 1) && Fits12(fr.CalleeBase() + 4 * (n - 1))
    ensures CalleeReg(fr, n - 1) != A7
    ensures SaveCallee(fr, n) == SaveCallee(fr, n - 1) + StoreOff(CalleeReg(fr, n - 1), fr.CalleeBase() + 4 * (n - 1))
  {
    hide StoreOff;
  }

  lemma NothingSaved(fr: Frame)
    ensures SavesFit(fr, 0) && AllFree(SaveCallee(fr, 0))
  {
  }

  lemma {:induction false} SavesKill(fr: Frame, n: nat)
    requires CalleeListOk(fr) && n <= |fr.A.usedCallee|
    ensures if SavesFit(fr, n) then AllFree(SaveCallee(fr, n)) else Kills(SaveCallee(fr, n))
  {
    hide CalleeListOk, SavesFit, AllFree, Kills, SaveCallee, StoreOff, CalleeReg;
    if n == 0 {
      NothingSaved(fr);
    } else {
      SavesFitStep(fr, n);
      SavesKill(fr, n - 1);
      var x, off := CalleeReg(fr, n - 1), fr.CalleeBase() + 4 * (n - 1);
      StoreKills(x, off);
      KillsThen(SaveCallee(fr, n - 1), StoreOff(x, off));
    }
  }

  /** The prologue's part of `A7Intact`. */
  predicate SavesSmall(fr: Frame) {
    (fr.A.isLeaf || Fits12(fr.RaOff())) && SavesFit(fr, |fr.A.usedCallee|)
  }

  lemma PrologueKills(fr: Frame)
    requires CalleeListOk(fr)
    ensures if SavesSmall(fr) then AllFree(Prologue(fr)) else Kills(Prologue(fr))
  {
    var n := |fr.A.usedCallee|;
    SavesKill(fr, n);
    if !fr.A.isLeaf { StoreKills(RA, fr.RaOff()); }
    PrologueIs(fr);
    assert AllFree(OpenFrame(fr)) by { hide Align16, Wrap; }
    hide StoreOff, SaveCallee, OpenFrame, Prologue, Kills, AllFree;
    var storeRa := if fr.A.isLeaf then [] else StoreOff(RA, fr.RaOff());
    assert fr.A.isLeaf ==> AllFree([]);
    KillsThen(OpenFrame(fr), storeRa);
    KillsThen(OpenFrame(fr) + storeRa, SaveCallee(fr, n));
  }

  /** The spilled parameters among the first n have small offsets. */
  predicate SpillsSmall(fr: Frame, params: seq<nat>, n: nat)
    requires n <= |params|
  {
    forall i | 0 <= i < n :: fr.RegOf(params[i]) < 0 ==> Fits12(fr.SpillOff(params[i]))
  }

  lemma {:induction false} MovesKill(fr: Frame, params: seq<nat>, n: nat)
    requires n <= |params| && n <= 7 && forall i | 0 <= i < |params| :: Placed(fr.A, params[i])
    ensures if SpillsSmall(fr, params, n) then AllFree(ParamMoves(fr, params, n)) else Kills(ParamMoves(fr, params, n))
  {
    if n > 0 {
      MovesKill(fr, params, n - 1);
      var v := params[n - 1];
      var code := ParamMove(fr, v, n - 1);
      if fr.RegOf(v) < 0 { StoreKills(A0 + (n - 1), fr.SpillOff(v)); }
      assert if fr.RegOf(v) < 0 && !Fits12(fr.SpillOff(v)) then Kills(code) else AllFree(code);
      hide StoreOff, Kills, AllFree, ParamMove;
      KillsThen(ParamMoves(fr, params, n - 1), code);
    }
  }

  /** The entry of a function, up to the move of its eighth parameter. */
  function ToEighth(fr: Frame, params: seq<nat>): (r: seq<Instr>)
    requires |params| >= 8
    ensures AllPlain(r)
  {
    Prologue(fr) + ParamMoves(fr, params, 8)
  }

  lemma ToEighthKills(fr: Frame, params: seq<nat>)
    requires |params| >= 8 && CalleeListOk(fr) && (forall i | 0 <= i < |params| :: Placed(fr.A, params[i]))
    requires !A7Intact(fr, params)
    ensures Kills(ToEighth(fr, params))
  {
    PrologueKills(fr);
    MovesKill(fr, params, 7);
    var v := params[7];
    assert ParamMoves(fr, params, 8) == ParamMoves(fr, params, 7) + ParamMove(fr, v, 7);
    if SavesSmall(fr) && SpillsSmall(fr, params, 7) {
      assert fr.RegOf(v) < 0 && !Fits12(fr.SpillOff(v));
      LargeKills(A0 + 7, fr.SpillOff(v));
    }
    hide Kills, AllFree, StoreOff, ParamMoves, Prologue;
    KillsThen(ParamMoves(fr, params, 7), ParamMove(fr, v, 7));
    KillsThen(Prologue(fr), ParamMoves(fr, params, 8));
  }

  function WithA7(m: Machine, y: i32): Machine {
    m.(r := Set(m.r, A7, y))
  }

  /** Called with y in a7, the function brings y to the place of its eighth parameter. */
  ghost predicate Arrives(fr: Frame, params: seq<nat>, m: Machine, y: i32)
    requires |params| >= 8
  {
    var o := Steps(ToEighth(fr, params), WithA7(m, y));
    o.Some? && Place(fr, o.value, params[7]) == y
  }

  /** What the entry code may rely on, whatever its offsets are. */
  ghost predicate Entered(fr: Frame, params: seq<nat>, m: Machine) {
    && |params| >= 8 && FrameRoom(fr, m) && Saves(fr) && IncomingRoom(fr, m, |params|)
    && (forall i | 0 <= i < |params| :: Placed(fr.A, params[i]))
    && (forall i, j | 0 <= i < |params| && 0 <= j < |params| && i != j :: Apart(fr.A, params[i], params[j]))
  }

  /** Without a large store, the eighth argument arrives. */
  lemma SmallArrives(fr: Frame, params: seq<nat>, m: Machine, y: i32)
    requires Entered(fr, params, m) && A7Intact(fr, params)
    ensures Arrives(fr, params, m, y)
  {
    var m0 := WithA7(m, y);
    var args := seq(|params|, k requires 0 <= k < |params| =>
                      if k < 8 then m0.r[A0 + k] else Word(m0.mem, U(m0.r[SP]) + 4 * (k - 8)));
    var e := Caller(m0, m0.r[RA]);
    assert args[7] == y;
    hide Prologue, ParamMoves, Place, InFrame, Align16, U;
    PrologueRuns(fr, m0, m0.r[RA], params);
    var m1 := Steps(Prologue(fr), m0).value;
    ParamMovesRun(fr, e, params, args, 8, m1);
    StepsAppend(Prologue(fr), ParamMoves(fr, params, 8), m0);
  }

  /** The eighth argument arrives, whatever it is, exactly if no large store comes first. */
  lemma EighthArrivesIff(fr: Frame, params: seq<nat>, m: Machine)
    requires Entered(fr, params, m)
    ensures (forall y: i32 :: Arrives(fr, params, m, y)) <==> A7Intact(fr, params)
  {
    if A7Intact(fr, params) {
      forall y: i32 ensures Arrives(fr, params, m, y) { SmallArrives(fr, params, m, y); }
    } else {
      ToEighthKills(fr, params);
      assert ButA7(WithA7(m, 0), WithA7(m, 1));
      hide ToEighth, Kills, ButA7;
      KillsEqual(ToEighth(fr, params), WithA7(m, 0), WithA7(m, 1));
      assert !(Arrives(fr, params, m, 0) && Arrives(fr, params, m, 1));
    }
  }
}
