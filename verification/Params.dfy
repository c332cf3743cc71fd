/** Incoming parameters reach their places. */
module Params {
  import opened Word32
  import opened IR
  import opened RiscV
  import opened RegAlloc
  import opened ConstOps
  import opened CodeGen
  import opened InstProof
  import opened FrameProof
  import opened EntryExit

  /** Writing d's place leaves a place apart from it alone. */
  lemma ApartKeeps(fr: Frame, m: Machine, m': Machine, d: nat, v: nat, S: set<int>)
    requires FrameAt(fr, m) && OnlyPlace(fr, m, m', d, S)
    requires forall x | x in S :: !IsPool(x) && x != SP
    requires Placed(fr.A, d) && Placed(fr.A, v) && Apart(fr.A, d, v)
    ensures Place(fr, m', v) == Place(fr, m, v)
  {
  }

  /** One parameter into its place; the argument registers still unread survive. */
  ghost predicate MovedIn(fr: Frame, m: Machine, m': Machine, v: nat, x: i32) {
    OnlyPlace(fr, m, m', v, OUT_SCRATCH) && Place(fr, m', v) == x && m'.g == m.g
  }

  lemma RegParamRuns(fr: Frame, v: nat, i: nat, m: Machine, small: bool)
    requires FrameAt(fr, m) && Placed(fr.A, v) && i < 8
    requires fr.RegOf(v) < 0 && (small || i == 7) ==> Fits12(fr.SpillOff(v))
    ensures Steps(ParamMove(fr, v, i), m).Some?
    ensures MovedIn(fr, m, Steps(ParamMove(fr, v, i), m).value, v, m.r[A0 + i])
    ensures small ==> Steps(ParamMove(fr, v, i), m).value.r[A7] == m.r[A7]
  {
    hide StoreOff, Align16, U, Reachable;
    PlacedReg(fr, v);
    if fr.RegOf(v) >= 0 {
      Steps1(Move(OpMv, fr.RegOf(v), A0 + i), m);
    } else {
      SlotReachable(fr, m, v);
      StoreOffRuns(A0 + i, fr.SpillOff(v), m);
      if small { SmallStore(A0 + i, fr.SpillOff(v), m); }
    }
  }

  lemma StackParamRuns(fr: Frame, v: nat, i: nat, m: Machine)
    requires FrameAt(fr, m) && Placed(fr.A, v) && i >= 8
    requires Reachable(m, fr.Size() + 4 * (i - 8))
    ensures Steps(ParamMove(fr, v, i), m).Some?
    ensures MovedIn(fr, m, Steps(ParamMove(fr, v, i), m).value, v, Word(m.mem, U(m.r[SP]) + (fr.Size() + 4 * (i - 8))))
  {
    hide StoreOff, LoadOff, Align16, U, Reachable, Step, Wrap;
    PlacedReg(fr, v);
    var incoming := fr.Size() + 4 * (i - 8);
    if fr.RegOf(v) >= 0 {
      LoadOffRuns(fr.RegOf(v), incoming, m);
    } else {
      CopyToSlotRuns(fr, v, incoming, m);
    }
  }

  lemma CopyToSlotRuns(fr: Frame, v: nat, from: int, m: Machine)
    requires FrameAt(fr, m) && Placed(fr.A, v) && fr.RegOf(v) < 0 && Reachable(m, from)
    ensures var code := LoadOff(T5, from) + StoreOff(T5, fr.SpillOff(v));
            && Steps(code, m).Some?
            && MovedIn(fr, m, Steps(code, m).value, v, Word(m.mem, U(m.r[SP]) + from))
  {
    hide StoreOff, LoadOff, Align16, U, Reachable, Step, Wrap;
    LoadOffRuns(T5, from, m);
    var m1 := Steps(LoadOff(T5, from), m).value;
    assert FrameAt(fr, m1);
    SlotReachable(fr, m1, v);
    StoreOffRuns(T5, fr.SpillOff(v), m1);
    StepsAppend(LoadOff(T5, from), StoreOff(T5, fr.SpillOff(v)), m);
  }

  /** Room for the incoming stack arguments above the caller's sp. */
  predicate IncomingRoom(fr: Frame, m0: Machine, n: nat) {
    fr.Size() + 4 * n < TWO31 && U(m0.r[SP]) + Max(0, 4 * (n - 8)) <= TWO32
  }

  /** The first n parameters are in place; the rest are still where the caller put them. */
  ghost predicate InPlace(fr: Frame, e: Caller, params: seq<nat>, args: seq<i32>, n: nat, m: Machine)
    requires n <= |params| == |args|
  {
    && InFrame(fr, e, m) && m.g == e.m0.g
    && (forall i | 0 <= i < n :: Placed(fr.A, params[i]) && Place(fr, m, params[i]) == args[i])
    && (forall k | n <= k < 8 && k < |args| :: m.r[A0 + k] == args[k])
  }

  ghost predicate ParamsOk(fr: Frame, params: seq<nat>) {
    && A7Intact(fr, params) && Saves(fr)
    && (forall i | 0 <= i < |params| :: Placed(fr.A, params[i]))
    && (forall i, j | 0 <= i < |params| && 0 <= j < |params| && i != j :: Apart(fr.A, params[i], params[j]))
  }

  lemma ParamStep(fr: Frame, e: Caller, params: seq<nat>, args: seq<i32>, n: nat, m: Machine)
    requires n < |params| == |args| && ParamsOk(fr, params) && InPlace(fr, e, params, args, n, m)
    requires ArgsIn(e.m0, args) && IncomingRoom(fr, e.m0, |params|)
    ensures Steps(ParamMove(fr, params[n], n), m).Some?
    ensures InPlace(fr, e, params, args, n + 1, Steps(ParamMove(fr, params[n], n), m).value)
  {
    hide ParamMove, Align16, U, Place;
    var v := params[n];
    if n < 8 {
      RegParamRuns(fr, v, n, m, |params| >= 8);
    } else {
      IncomingReachable(fr, e, m, n, |params|);
      StackParamRuns(fr, v, n, m);
    }
    var m' := Steps(ParamMove(fr, v, n), m).value;
    assert MovedIn(fr, m, m', v, args[n]);
    assert OnlyPlace(fr, m, m', v, OUT_SCRATCH);
    FrameKept(fr, e, m, m', v, OUT_SCRATCH);
    forall i | 0 <= i < n ensures Place(fr, m', params[i]) == args[i] {
      ApartKeeps(fr, m, m', v, params[i], OUT_SCRATCH);
    }
    PlacedReg(fr, v);
  }

  lemma IncomingReachable(fr: Frame, e: Caller, m: Machine, i: nat, n: nat)
    requires InFrame(fr, e, m) && 8 <= i < n && IncomingRoom(fr, e.m0, n)
    ensures Reachable(m, fr.Size() + 4 * (i - 8))
    ensures Word(m.mem, U(m.r[SP]) + (fr.Size() + 4 * (i - 8))) == Word(e.m0.mem, U(e.m0.r[SP]) + 4 * (i - 8))
  {
    hide Align16, U;
    FrameSizes(fr);
    AlignedWord(fr.Size(), i - 8, U(m.r[SP]));
    assert fr.Size() % 4 == 0 by { AlignedWord(0, 0, fr.Size()); }
  }

  /** The moves at entry put every parameter where the allocation wants it. */
  lemma {:induction false} ParamMovesRun(fr: Frame, e: Caller, params: seq<nat>, args: seq<i32>, n: nat, m: Machine)
    requires n <= |params| == |args| && ParamsOk(fr, params) && InPlace(fr, e, params, args, 0, m)
    requires ArgsIn(e.m0, args) && IncomingRoom(fr, e.m0, |params|)
    ensures Steps(ParamMoves(fr, params, n), m).Some?
    ensures InPlace(fr, e, params, args, n, Steps(ParamMoves(fr, params, n), m).value)
  {
    if n > 0 {
      hide InPlace, ParamMove, ParamsOk;
      ParamMovesRun(fr, e, params, args, n - 1, m);
      ParamStep(fr, e, params, args, n - 1, Steps(ParamMoves(fr, params, n - 1), m).value);
      StepsAppend(ParamMoves(fr, params, n - 1), ParamMove(fr, params[n - 1], n - 1), m);
    }
  }

  // ---- the eighth register argument -------------------------------------------------------

  /**
   * Why `A7Intact` is asked for: a store to a large offset builds its address in
   * a7, so once the prologue has made one, a7 holds that address instead of the
   * eighth argument.
   */
  lemma LargeStoreDestroysA7(x: Reg, off: int, m: Machine)
    requires Reachable(m, off) && x != ZERO
    ensures Steps(StoreOff(x, off), m).Some?
    ensures Steps(StoreOff(x, off), m).value.r[A7] == (if Fits12(off) then m.r[A7] else Wrap(m.r[SP] + off))
  {
    hide Wrap, U;
    AddressWord(m.r[SP], off);
    if Fits12(off) {
      Steps1(Sw(x, off, SP), m);
    } else {
      AddressRuns(off, m);
      StepsSnoc(Address(off), Sw(x, 0, A7), m);
    }
  }
}
