/** Prologue, parameter moves and epilogue. */
module EntryExit {
  import opened Word32
  import opened IR
  import opened RiscV
  import opened RegAlloc
  import opened ConstOps
  import opened CodeGen
  import opened InstProof
  import opened FrameProof

  /** The saved registers are callee-saved and listed in increasing order. */
  ghost predicate CalleeListOk(fr: Frame) {
    && (forall i | 0 <= i < |fr.A.usedCallee| :: IsCalleeSaved(fr.A.usedCallee[i]))
    && (forall i, j | 0 <= i < j < |fr.A.usedCallee| :: fr.A.usedCallee[i] < fr.A.usedCallee[j])
  }

  /** A frame of acceptable size that fits below sp. */
  ghost predicate FrameRoom(fr: Frame, m: Machine) {
    && fr.outArgArea % 4 == 0 && fr.Size() < TWO31 && CalleeListOk(fr)
    && U(m.r[SP]) % 16 == 0 && U(m.r[SP]) >= fr.Size()
  }

  lemma SubWord(x: i32, k: nat)
    requires k <= U(x)
    ensures U(Wrap(x - k)) == U(x) - k
  {
  }

  function OpenFrame(fr: Frame): seq<Instr> {
    if fr.Size() == 0 then []
    else if Fits12(0 - fr.Size() as int) then [Addi(SP, SP, 0 - fr.Size() as int)]
    else [Li(T6, Wrap(fr.Size())), Arith(OpSub, SP, SP, T6)]
  }

  function CloseFrame(fr: Frame): seq<Instr> {
    if fr.Size() == 0 then []
    else if Fits12(fr.Size()) then [Addi(SP, SP, fr.Size())]
    else [Li(T6, Wrap(fr.Size())), Arith(OpAdd, SP, SP, T6)]
  }

  lemma OpenFrameRuns(fr: Frame, m: Machine)
    requires FrameRoom(fr, m)
    ensures AllPlain(OpenFrame(fr)) && Steps(OpenFrame(fr), m).Some?
    ensures var m' := Steps(OpenFrame(fr), m).value;
            && Only(m, m', {SP, T6}) && U(m'.r[SP]) == U(m.r[SP]) - fr.Size() && FrameAt(fr, m')
  {
    FrameSizes(fr);
    SubWord(m.r[SP], fr.Size());
    if fr.Size() == 0 {
    } else if Fits12(0 - fr.Size() as int) {
      Steps1(Addi(SP, SP, 0 - fr.Size() as int), m);
    } else {
      Steps2(Li(T6, Wrap(fr.Size())), Arith(OpSub, SP, SP, T6), m);
    }
  }

  lemma CloseFrameRuns(fr: Frame, m: Machine, sp: i32)
    requires fr.Size() < TWO31 && U(m.r[SP]) + fr.Size() == U(sp)
    ensures AllPlain(CloseFrame(fr)) && Steps(CloseFrame(fr), m).Some?
    ensures var m' := Steps(CloseFrame(fr), m).value;
            Only(m, m', {SP, T6}) && m'.r[SP] == sp
  {
    AddressWord(m.r[SP], fr.Size());
    if fr.Size() == 0 {
    } else if Fits12(fr.Size()) {
      Steps1(Addi(SP, SP, fr.Size()), m);
    } else {
      Steps2(Li(T6, Wrap(fr.Size())), Arith(OpAdd, SP, SP, T6), m);
    }
  }

  // ---- saving ---------------------------------------------------------------------------------

  lemma SaveSlot(fr: Frame, m: Machine, i: nat)
    requires FrameAt(fr, m) && i < |fr.A.usedCallee|
    ensures Reachable(m, fr.CalleeBase() + 4 * i) && fr.CalleeBase() + 4 * i + 4 <= fr.RaOff()
  {
    hide Align16, U;
    FrameSizes(fr);
    AlignedWord(fr.outArgArea, fr.A.numSpills + i, U(m.r[SP]));
  }

  lemma RaSlot(fr: Frame, m: Machine)
    requires FrameAt(fr, m) && !fr.A.isLeaf
    ensures Reachable(m, fr.RaOff())
  {
    hide Align16, U;
    FrameSizes(fr);
    AlignedWord(fr.outArgArea, fr.A.numSpills + |fr.A.usedCallee|, U(m.r[SP]));
  }

  /** All offsets that are stored to before a7 has been read fit 12 bits. */
  predicate A7Intact(fr: Frame, params: seq<nat>) {
    |params| >= 8 ==>
      && (fr.A.isLeaf || Fits12(fr.RaOff()))
      && (forall i | 0 <= i < |fr.A.usedCallee| :: Fits12(fr.CalleeBase() + 4 * i))
      && (forall i | 0 <= i < 8 :: fr.RegOf(params[i]) < 0 ==> Fits12(fr.SpillOff(params[i])))
  }

  /** A store with a small offset touches no register. */
  lemma SmallStore(x: Reg, off: int, m: Machine)
    requires Reachable(m, off) && x != ZERO && Fits12(off)
    ensures Steps(StoreOff(x, off), m).Some? && Steps(StoreOff(x, off), m).value.r == m.r
  {
  }

  /** The first n callee-saved registers are saved; all registers but a7 are as before. */
  ghost predicate SavedSoFar(fr: Frame, m: Machine, m': Machine, n: nat, small: bool) {
    && m'.g == m.g
    && (forall x: Reg | x != A7 || small :: m'.r[x] == m.r[x])
    && (forall i | 0 <= i < n :: Word(m'.mem, U(m.r[SP]) + fr.CalleeBase() + 4 * i) == Get(m.r, CalleeReg(fr, i)))
    && (forall addr | addr < U(m.r[SP]) + fr.CalleeBase() || addr >= U(m.r[SP]) + fr.CalleeBase() + 4 * n ::
          Word(m'.mem, addr) == Word(m.mem, addr))
  }

  lemma {:induction false} SaveCalleeRuns(fr: Frame, n: nat, m: Machine, small: bool)
    requires FrameAt(fr, m) && CalleeListOk(fr) && n <= |fr.A.usedCallee|
    requires small ==> forall i | 0 <= i < n :: Fits12(fr.CalleeBase() + 4 * i)
    ensures Steps(SaveCallee(fr, n), m).Some?
    ensures SavedSoFar(fr, m, Steps(SaveCallee(fr, n), m).value, n, small)
  {
    if n > 0 {
      SaveCalleeRuns(fr, n - 1, m, small);
      SaveOneMore(fr, n, m, Steps(SaveCallee(fr, n - 1), m).value, small);
    }
  }

  lemma SaveOneMore(fr: Frame, n: nat, m: Machine, m1: Machine, small: bool)
    requires FrameAt(fr, m) && CalleeListOk(fr) && 0 < n <= |fr.A.usedCallee|
    requires small ==> Fits12(fr.CalleeBase() + 4 * (n - 1))
    requires Steps(SaveCallee(fr, n - 1), m) == Some(m1) && SavedSoFar(fr, m, m1, n - 1, small)
    ensures Steps(SaveCallee(fr, n), m).Some?
    ensures SavedSoFar(fr, m, Steps(SaveCallee(fr, n), m).value, n, small)
  {
    hide StoreOff, Align16, U, Reachable, SavedSoFar, FrameAt;
    var x, off := CalleeReg(fr, n - 1), fr.CalleeBase() + 4 * (n - 1);
    SavedSpares(fr, m, m1, n - 1, small);
    SaveSlot(fr, m1, n - 1);
    StoreOffRuns(x, off, m1);
    if small { SmallStore(x, off, m1); }
    StepsAppend(SaveCallee(fr, n - 1), StoreOff(x, off), m);
    SavedStep(fr, m, m1, Steps(StoreOff(x, off), m1).value, n, small);
  }

  lemma SavedSpares(fr: Frame, m: Machine, m1: Machine, n: nat, small: bool)
    requires SavedSoFar(fr, m, m1, n, small) && FrameAt(fr, m)
    ensures FrameAt(fr, m1) && forall x: Reg | x != A7 || small :: m1.r[x] == m.r[x]
  {
  }

  lemma SavedStep(fr: Frame, m: Machine, m1: Machine, m2: Machine, n: nat, small: bool)
    requires 0 < n && SavedSoFar(fr, m, m1, n - 1, small)
    requires CalleeReg(fr, n - 1) !in {ZERO, A7}
    requires m2.g == m1.g && forall x: Reg | x != A7 || small :: m2.r[x] == m1.r[x]
    requires m2.mem == m1.mem[U(m1.r[SP]) + (fr.CalleeBase() + 4 * (n - 1)) := m1.r[CalleeReg(fr, n - 1)]]
    ensures SavedSoFar(fr, m, m2, n, small)
  {
    hide Align16, U;
    var base := U(m.r[SP]) + fr.CalleeBase();
    assert m1.r[SP] == m.r[SP];
    forall i | 0 <= i < n ensures Word(m2.mem, base + 4 * i) == Get(m.r, CalleeReg(fr, i)) {
      if i < n - 1 { assert base + 4 * i != base + 4 * (n - 1); }
    }
  }

  lemma PrologueRuns(fr: Frame, m: Machine, link: i32, params: seq<nat>)
    requires FrameRoom(fr, m) && m.r[RA] == link && A7Intact(fr, params)
    ensures Steps(Prologue(fr), m).Some?
    ensures var m' := Steps(Prologue(fr), m).value;
            && InFrame(fr, Caller(m, link), m') && m'.g == m.g
            && (forall x: Reg | x != SP && x != T6 && (x != A7 || |params| >= 8) :: m'.r[x] == m.r[x])
  {
    hide Prologue, StoreOff, SaveCallee, OpenFrame, Align16, SavedSoFar, InFrame, Reachable, U;
    FrameSizes(fr);
    var small := |params| >= 8;
    OpenFrameRuns(fr, m);
    var m1 := Steps(OpenFrame(fr), m).value;
    var storeRa := if fr.A.isLeaf then [] else StoreOff(RA, fr.RaOff());
    if !fr.A.isLeaf {
      RaSlot(fr, m1);
      StoreOffRuns(RA, fr.RaOff(), m1);
      if small { SmallStore(RA, fr.RaOff(), m1); }
    }
    var m2 := Steps(storeRa, m1).value;
    var n := |fr.A.usedCallee|;
    assert FrameAt(fr, m2);
    SaveCalleeRuns(fr, n, m2, small);
    var m3 := Steps(SaveCallee(fr, n), m2).value;
    StepsAppend(OpenFrame(fr), storeRa, m);
    StepsAppend(OpenFrame(fr) + storeRa, SaveCallee(fr, n), m);
    PrologueIs(fr);
    SavedSpares(fr, m2, m3, n, small);
    PrologueFrame(fr, m, m1, m2, m3, link, small);
  }

  lemma PrologueIs(fr: Frame)
    ensures Prologue(fr) == OpenFrame(fr) + (if fr.A.isLeaf then [] else StoreOff(RA, fr.RaOff()))
                            + SaveCallee(fr, |fr.A.usedCallee|)
  {
  }

  lemma EpilogueIs(fr: Frame)
    ensures Epilogue(fr) == EpilogueBody(fr) + [RetTo]
  {
  }

  lemma PrologueFrame(fr: Frame, m: Machine, m1: Machine, m2: Machine, m3: Machine, link: i32, small: bool)
    requires FrameRoom(fr, m) && FrameAt(fr, m1) && m.r[RA] == link
    requires Only(m, m1, {SP, T6}) && U(m1.r[SP]) == U(m.r[SP]) - fr.Size()
    requires (forall x: Reg | x != A7 :: m2.r[x] == m1.r[x]) && m2.g == m1.g
    requires m2.mem == if fr.A.isLeaf then m1.mem else m1.mem[U(m1.r[SP]) + fr.RaOff() := link]
    requires SavedSoFar(fr, m2, m3, |fr.A.usedCallee|, small)
    ensures InFrame(fr, Caller(m, link), m3) && m3.g == m.g
  {
  }

  // ---- restoring --------------------------------------------------------------------------------

  /** The saved registers from the i-th on are back; nothing else but a7 changed. */
  ghost predicate Restored(fr: Frame, i: nat, e: Caller, m: Machine, m': Machine)
    requires i <= |fr.A.usedCallee|
  {
    && m'.mem == m.mem && m'.g == m.g
    && (forall j | i <= j < |fr.A.usedCallee| :: m'.r[CalleeReg(fr, j)] == e.m0.r[CalleeReg(fr, j)])
    && (forall x: Reg | x != A7 && x !in fr.A.usedCallee[i..] :: m'.r[x] == m.r[x])
  }

  lemma {:induction false} RestoreCalleeRuns(fr: Frame, i: nat, e: Caller, m: Machine)
    requires FrameAt(fr, m) && CalleeListOk(fr) && i <= |fr.A.usedCallee|
    requires SavedRegs(fr, e, m, |fr.A.usedCallee|)
    ensures Steps(RestoreCallee(fr, i), m).Some?
    ensures Restored(fr, i, e, m, Steps(RestoreCallee(fr, i), m).value)
    decreases |fr.A.usedCallee| - i
  {
    if i < |fr.A.usedCallee| {
      RestoreOne(fr, i, e, m);
      RestoreCalleeRuns(fr, i + 1, e, AfterRestore(fr, i, m));
      RestoreMore(fr, i, e, m);
    }
  }

  function AfterRestore(fr: Frame, i: nat, m: Machine): Machine {
    var o := Steps(LoadOff(CalleeReg(fr, i), fr.CalleeBase() + 4 * i), m);
    if o.Some? then o.value else m
  }

  lemma RestoreMore(fr: Frame, i: nat, e: Caller, m: Machine)
    requires CalleeListOk(fr) && i < |fr.A.usedCallee|
    requires var (x, off) := (CalleeReg(fr, i), fr.CalleeBase() + 4 * i);
             Computes(LoadOff(x, off), m, x, e.m0.r[x], {x, A7})
    requires var m1 := AfterRestore(fr, i, m);
             Steps(RestoreCallee(fr, i + 1), m1).Some? && Restored(fr, i + 1, e, m1, Steps(RestoreCallee(fr, i + 1), m1).value)
    ensures Steps(RestoreCallee(fr, i), m).Some?
    ensures Restored(fr, i, e, m, Steps(RestoreCallee(fr, i), m).value)
  {
    hide LoadOff, Align16, U, Restored;
    var x, off := CalleeReg(fr, i), fr.CalleeBase() + 4 * i;
    var m1 := AfterRestore(fr, i, m);
    StepsAppend(LoadOff(x, off), RestoreCallee(fr, i + 1), m);
    RestoredStep(fr, i, e, m, m1, Steps(RestoreCallee(fr, i + 1), m1).value);
  }

  lemma RestoreOne(fr: Frame, i: nat, e: Caller, m: Machine)
    requires FrameAt(fr, m) && CalleeListOk(fr) && i < |fr.A.usedCallee|
    requires SavedRegs(fr, e, m, |fr.A.usedCallee|)
    ensures var (x, off) := (CalleeReg(fr, i), fr.CalleeBase() + 4 * i);
            && Computes(LoadOff(x, off), m, x, e.m0.r[x], {x, A7})
            && FrameAt(fr, Steps(LoadOff(x, off), m).value)
            && SavedRegs(fr, e, Steps(LoadOff(x, off), m).value, |fr.A.usedCallee|)
  {
    hide LoadOff, Align16, Reachable;
    var x, off := CalleeReg(fr, i), fr.CalleeBase() + 4 * i;
    SaveSlot(fr, m, i);
    LoadOffRuns(x, off, m);
    assert Steps(LoadOff(x, off), m).value.r[SP] == m.r[SP];
  }

  lemma RestoredStep(fr: Frame, i: nat, e: Caller, m: Machine, m1: Machine, m': Machine)
    requires CalleeListOk(fr) && i < |fr.A.usedCallee| && Restored(fr, i + 1, e, m1, m')
    requires Only(m, m1, {CalleeReg(fr, i), A7}) && m1.r[CalleeReg(fr, i)] == e.m0.r[CalleeReg(fr, i)]
    ensures Restored(fr, i, e, m, m')
  {
  }

  function ReloadRa(fr: Frame): (r: seq<Instr>)
    ensures AllPlain(r)
  {
    if fr.A.isLeaf then [] else LoadOff(RA, fr.RaOff())
  }

  function EpilogueBody(fr: Frame): (r: seq<Instr>)
    ensures AllPlain(r)
  {
    RestoreCallee(fr, 0) + ReloadRa(fr) + CloseFrame(fr)
  }

  /** All saved registers and ra are back; only sp is still the callee's. */
  lemma ReloadRuns(fr: Frame, e: Caller, m: Machine)
    requires InFrame(fr, e, m) && CalleeListOk(fr)
    ensures Steps(RestoreCallee(fr, 0) + ReloadRa(fr), m).Some?
    ensures var m' := Steps(RestoreCallee(fr, 0) + ReloadRa(fr), m).value;
            && m'.r[SP] == m.r[SP] && m'.r[RA] == e.link && m'.r[A0] == m.r[A0]
            && (forall x: Reg | IsCalleeSaved(x) :: m'.r[x] == e.m0.r[x])
            && m'.mem == m.mem && m'.g == m.g
  {
    hide RestoreCallee, LoadOff, Align16, Reachable, U, Restored;
    RestoreCalleeRuns(fr, 0, e, m);
    var m1 := Steps(RestoreCallee(fr, 0), m).value;
    RestoredAll(fr, e, m, m1);
    if !fr.A.isLeaf {
      assert FrameAt(fr, m1);
      RaSlot(fr, m1);
      LoadOffRuns(RA, fr.RaOff(), m1);
    }
    StepsAppend(RestoreCallee(fr, 0), ReloadRa(fr), m);
  }

  /** The epilogue restores sp, ra and every callee-saved register, for any frame. */
  lemma EpilogueRuns(fr: Frame, e: Caller, m: Machine)
    requires InFrame(fr, e, m) && CalleeListOk(fr) && fr.Size() < TWO31
    ensures Steps(EpilogueBody(fr), m).Some?
    ensures Epilogue(fr) == EpilogueBody(fr) + [RetTo]
    ensures var m' := Steps(EpilogueBody(fr), m).value;
            && m'.r[SP] == e.m0.r[SP] && m'.r[RA] == e.link && m'.r[A0] == m.r[A0]
            && (forall x: Reg | IsCalleeSaved(x) :: m'.r[x] == e.m0.r[x])
            && m'.mem == m.mem && m'.g == m.g
  {
    hide Epilogue, RestoreCallee, ReloadRa, CloseFrame, Align16, U;
    ReloadRuns(fr, e, m);
    var code := RestoreCallee(fr, 0) + ReloadRa(fr);
    CloseFrameRuns(fr, Steps(code, m).value, e.m0.r[SP]);
    StepsAppend(code, CloseFrame(fr), m);
    EpilogueIs(fr);
  }

  lemma RestoredAll(fr: Frame, e: Caller, m: Machine, m1: Machine)
    requires InFrame(fr, e, m) && CalleeListOk(fr) && Restored(fr, 0, e, m, m1)
    ensures m1.mem == m.mem && m1.g == m.g
    ensures forall x: Reg | IsCalleeSaved(x) :: m1.r[x] == e.m0.r[x]
    ensures forall x: Reg | !IsCalleeSaved(x) && x != A7 :: m1.r[x] == m.r[x]
  {
    hide Align16, U;
    forall x: Reg | IsCalleeSaved(x) ensures m1.r[x] == e.m0.r[x] {
      if x in fr.A.usedCallee {
        var j :| 0 <= j < |fr.A.usedCallee| && fr.A.usedCallee[j] == x;
        assert CalleeReg(fr, j) == x;
      } else {
        assert x !in fr.A.usedCallee[0..];
      }
    }
  }
}
