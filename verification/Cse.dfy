/**
 * Block-local common subexpression elimination.  Kills go by operand, not by
 * result, so the pass is right because expression results are written once;
 * that discipline is a hypothesis here and a theorem about lowering.
 */
module Cse {
  import opened Word32
  import opened IR

  datatype BinKey = BinKey(op: BinOp, a: Val, b: Val)

  datatype UnKey = UnKey(op: UnOp, reg: nat)

  /** Expressions computed earlier in the block, and the register with their value. */
  datatype Avail = Avail(bin: map<BinKey, nat>, un: map<UnKey, nat>, load: map<nat, nat>)

  const EMPTY: Avail := Avail(map[], map[], map[])

  /** `killDef`: expressions that read d go, and loads whose register is d. */
  function Kill(av: Avail, d: int): Avail {
    if d < 0 then av
    else
      Avail(map k | k in av.bin && k.a != Reg(d) && k.b != Reg(d) :: av.bin[k],
            map k | k in av.un && k.reg != d :: av.un[k],
            map g | g in av.load && av.load[g] != d :: av.load[g])
  }

  function KillVal(av: Avail, v: Val): Avail {
    if v.Reg? then Kill(av, v.reg) else av
  }

  function KillArgs(av: Avail, vs: seq<Val>): Avail
    decreases |vs|
  {
    if vs == [] then av else KillArgs(KillVal(av, vs[0]), vs[1..])
  }

  /** Every value-producing instruction has a destination. */
  predicate Written(i: Inst) {
    i.Call? || i.StoreGlobal? || i.dst >= 0
  }

  predicate AllWritten(code: seq<Inst>) {
    forall k | 0 <= k < |code| :: Written(code[k])
  }

  /** The instruction as it is kept, and what is available behind it. */
  function Step(i: Inst, av: Avail): (Inst, Avail)
    requires Written(i)
  {
    match i
    case LoadGlobal(d, g) =>
      if g in av.load then (Mv(d, Reg(av.load[g])), Kill(av, d))
      else (i, var av1 := Kill(av, d); av1.(load := av1.load[g := d]))
    case StoreGlobal(g, a) => (i, KillVal(av.(load := av.load - {g}), a))
    case Call(d, _, args) => (i, Kill(KillArgs(av.(load := map[]), args), d))
    case Un(op, d, a) =>
      if !a.Reg? then (i, Kill(av, d))
      else
        var key := UnKey(op, a.reg);
        if key in av.un then (Mv(d, Reg(av.un[key])), Kill(av, d))
        else (i, var av1 := Kill(av, d); av1.(un := av1.un[key := d]))
    case Bin(op, d, a, b, _, _) =>
      if !a.Reg? && !b.Reg? then (i, Kill(av, d))
      else
        var key := BinKey(op, a, b);
        if key in av.bin then (Mv(d, Reg(av.bin[key])), Kill(av, d))
        else (i, var av1 := Kill(av, d); av1.(bin := av1.bin[key := d]))
    case Mv(d, _) => (i, Kill(av, d))
  }

  function Code(code: seq<Inst>, av: Avail): seq<Inst>
    requires AllWritten(code)
  {
    if code == [] then [] else [Step(code[0], av).0] + Code(code[1..], Step(code[0], av).1)
  }

  // ---- which instructions become moves ---------------------------------------------------------

  /** What an instruction computes, where its value may be reused. */
  datatype Key = OfBin(bin: BinKey) | OfUn(un: UnKey) | OfLoad(gid: nat)

  function KeyOf(i: Inst): Option<Key> {
    match i
    case Bin(op, _, a, b, _, _) => if a.Reg? || b.Reg? then Some(OfBin(BinKey(op, a, b))) else None
    case Un(op, _, a) => if a.Reg? then Some(OfUn(UnKey(op, a.reg))) else None
    case LoadGlobal(_, g) => Some(OfLoad(g))
    case _ => None
  }

  /** The instruction writes register d, stores it or passes it. */
  predicate Hits(i: Inst, d: nat) {
    Def(i) == d || (i.StoreGlobal? && i.a == Reg(d)) || (i.Call? && Reg(d) in i.args)
  }

  /** Behind the instruction the value, held in register r, must be computed again. */
  predicate Loses(i: Inst, key: Key, r: nat) {
    match key
    case OfBin(k) => (k.a.Reg? && Hits(i, k.a.reg)) || (k.b.Reg? && Hits(i, k.b.reg))
    case OfUn(k) => Hits(i, k.reg)
    case OfLoad(g) => i.Call? || (i.StoreGlobal? && i.gid == g) || Hits(i, r)
  }

  /** Instruction i computes what instruction k computes, and nothing between them loses it. */
  ghost predicate Reaches(code: seq<Inst>, i: nat, k: nat) {
    && i < k < |code| && KeyOf(code[i]).Some? && KeyOf(code[k]) == KeyOf(code[i]) && code[i].dst >= 0
    && forall j | i < j < k :: !Loses(code[j], KeyOf(code[i]).value, code[i].dst)
  }

  /** No earlier instruction reaches this one. */
  ghost predicate Anew(code: seq<Inst>, k: nat) {
    forall i: nat :: !Reaches(code, i, k)
  }

  /**
   * The new code has a move from the register of an instruction i, in place of k,
   * if i computes the value anew and reaches k.  For an operation it is enough that
   * some instruction reaches k which does not overwrite its own operands.  Where
   * nothing reaches, the instruction stays.
   */
  ghost predicate Reused(code: seq<Inst>, out: seq<Inst>) {
    && |out| == |code|
    && (forall i: nat, k: nat | Reaches(code, i, k) && Anew(code, i) :: out[k] == Mv(code[k].dst, Reg(code[i].dst)))
    && (forall i: nat, k: nat | Reaches(code, i, k) && !code[i].LoadGlobal? && !Loses(code[i], KeyOf(code[i]).value, 0) ::
          exists h: nat :: Reaches(code, h, k) && out[k] == Mv(code[k].dst, Reg(code[h].dst)))
    && (forall k: nat | k < |code| ::
          out[k] == code[k] || exists h: nat :: Reaches(code, h, k) && out[k] == Mv(code[k].dst, Reg(code[h].dst)))
  }

  function Look(av: Avail, key: Key): Option<nat> {
    match key
    case OfBin(k) => if k in av.bin then Some(av.bin[k]) else None
    case OfUn(k) => if k in av.un then Some(av.un[k]) else None
    case OfLoad(g) => if g in av.load then Some(av.load[g]) else None
  }

  lemma KillLook(av: Avail, d: nat, key: Key)
    ensures var r := Look(av, key);
            var hit := match key
                       case OfBin(k) => k.a == Reg(d) || k.b == Reg(d)
                       case OfUn(k) => k.reg == d
                       case OfLoad(_) => r == Some(d);
            Look(Kill(av, d), key) == if hit then None else r
  {
  }

  lemma {:induction false} KillArgsLook(av: Avail, vs: seq<Val>, key: Key)
    requires !key.OfLoad?
    ensures var hit := match key
                       case OfBin(k) => (k.a.Reg? && k.a in vs) || (k.b.Reg? && k.b in vs)
                       case OfUn(k) => Reg(k.reg) in vs
                       case OfLoad(_) => false;
            Look(KillArgs(av, vs), key) == if hit then None else Look(av, key)
    decreases |vs|
  {
    if vs != [] {
      if vs[0].Reg? { KillLook(av, vs[0].reg, key); }
      KillArgsLook(KillVal(av, vs[0]), vs[1..], key);
      assert vs == [vs[0]] + vs[1..];
    }
  }

  lemma {:induction false} KillArgsLoads(av: Avail, vs: seq<Val>)
    requires av.load == map[]
    ensures KillArgs(av, vs).load == map[]
    decreases |vs|
  {
    if vs != [] { KillArgsLoads(KillVal(av, vs[0]), vs[1..]); }
  }

  /** What one instruction does to the value of a key. */
  lemma StepLook(i: Inst, av: Avail, key: Key)
    requires Written(i)
    ensures var r, r' := Look(av, key), Look(Step(i, av).1, key);
            && (r.Some? ==> r' == if Loses(i, key, r.value) then None else r)
            && (r.None? ==> r' == if KeyOf(i) == Some(key) then Some(i.dst as nat) else None)
  {
    match i
    case Call(d, _, args) =>
      var av0 := av.(load := map[]);
      KillArgsLoads(av0, args);
      if !key.OfLoad? { KillArgsLook(av0, args, key); }
      if d >= 0 { KillLook(KillArgs(av0, args), d, key); }
    case StoreGlobal(g, a) => if a.Reg? { KillLook(av.(load := av.load - {g}), a.reg, key); }
    case _ => KillLook(av, i.dst, key);
  }

  lemma StepText(i: Inst, av: Avail)
    requires Written(i)
    ensures var key := KeyOf(i);
            Step(i, av).0 == if key.Some? && Look(av, key.value).Some? then Mv(i.dst, Reg(Look(av, key.value).value)) else i
  {
  }

  /** The reduced code, instruction by instruction. */
  lemma {:induction false} CodeAt(code: seq<Inst>, av: Avail, k: nat)
    requires AllWritten(code) && k < |code|
    ensures |Code(code, av)| == |code| && Code(code, av)[k] == Step(code[k], After(code[..k], av)).0
    decreases |code|
  {
    hide Step;
    if k > 0 {
      CodeAt(code[1..], Step(code[0], av).1, k - 1);
      assert code[..k][1..] == code[1..][..k - 1];
    } else if |code| > 1 {
      CodeAt(code[1..], Step(code[0], av).1, 0);
    }
  }

  lemma AfterSnoc(code: seq<Inst>, k: nat)
    requires AllWritten(code) && k < |code|
    ensures After(code[..k + 1], EMPTY) == Step(code[k], After(code[..k], EMPTY)).1
  {
    hide Step;
    assert code[..k + 1] == code[..k] + [code[k]];
    CodeSnoc(code[..k], code[k], EMPTY);
  }

  /** What is available was computed before, and nothing since has lost it. */
  lemma {:induction false} AvailFrom(code: seq<Inst>, n: nat, key: Key)
    requires AllWritten(code) && n <= |code| && Look(After(code[..n], EMPTY), key).Some?
    ensures exists i: nat :: Source(code, i, n, key, Look(After(code[..n], EMPTY), key).value)
    decreases n
  {
    hide Step, Loses;
    if n > 0 {
      AfterSnoc(code, n - 1);
      StepLook(code[n - 1], After(code[..n - 1], EMPTY), key);
      var r := Look(After(code[..n], EMPTY), key).value;
      if Look(After(code[..n - 1], EMPTY), key).Some? {
        AvailFrom(code, n - 1, key);
        var i: nat :| Source(code, i, n - 1, key, r);
        assert Source(code, i, n, key, r);
      } else {
        assert Source(code, n - 1, n, key, r);
      }
    }
  }

  ghost predicate Source(code: seq<Inst>, i: nat, n: nat, key: Key, r: nat) {
    && i < n <= |code| && KeyOf(code[i]) == Some(key) && code[i].dst == r
    && forall j | i < j < n :: !Loses(code[j], key, r)
  }

  /** What nothing loses stays available. */
  lemma {:induction false} AvailStays(code: seq<Inst>, i: nat, k: nat, key: Key, r: nat)
    requires AllWritten(code) && i <= k <= |code| && Look(After(code[..i], EMPTY), key) == Some(r)
    requires forall j | i <= j < k :: !Loses(code[j], key, r)
    ensures Look(After(code[..k], EMPTY), key) == Some(r)
    decreases k
  {
    hide Step, Loses;
    if k > i {
      AvailStays(code, i, k - 1, key, r);
      AfterSnoc(code, k - 1);
      StepLook(code[k - 1], After(code[..k - 1], EMPTY), key);
    }
  }

  /** A value computed anew is available behind its instruction. */
  lemma AnewAvailable(code: seq<Inst>, i: nat, k: nat)
    requires AllWritten(code) && Reaches(code, i, k)
    requires Anew(code, i) || (!code[i].LoadGlobal? && !Loses(code[i], KeyOf(code[i]).value, 0))
    ensures var r := Look(After(code[..k], EMPTY), KeyOf(code[k]).value);
            r.Some? && (Anew(code, i) ==> r.value == code[i].dst)
  {
    var key, before := KeyOf(code[i]).value, Look(After(code[..i], EMPTY), KeyOf(code[i]).value);
    if before.Some? {
      AvailFrom(code, i, key);
      var h: nat :| Source(code, h, i, key, before.value);
      assert Reaches(code, h, i);
    }
    AfterSnoc(code, i);
    StepLook(code[i], After(code[..i], EMPTY), key);
    var r := if before.Some? then before.value else code[i].dst as nat;
    AvailStays(code, i + 1, k, key, r);
  }

  /** The pass reuses what it may, and nothing else. */
  lemma CodeReuses(code: seq<Inst>)
    requires AllWritten(code)
    ensures Reused(code, Code(code, EMPTY))
  {
    hide Step, Loses, Anew;
    var out := Code(code, EMPTY);
    if code != [] { CodeAt(code, EMPTY, 0); }
    forall i: nat, k: nat | Reaches(code, i, k) && (Anew(code, i) || (!code[i].LoadGlobal? && !Loses(code[i], KeyOf(code[i]).value, 0)))
      ensures Anew(code, i) ==> out[k] == Mv(code[k].dst, Reg(code[i].dst))
      ensures exists h: nat :: Reaches(code, h, k) && out[k] == Mv(code[k].dst, Reg(code[h].dst))
    {
      AnewAvailable(code, i, k);
      CodeAt(code, EMPTY, k);
      StepText(code[k], After(code[..k], EMPTY));
      MoveFrom(code, k);
    }
    forall k: nat | k < |code|
      ensures out[k] == code[k] || exists h: nat :: Reaches(code, h, k) && out[k] == Mv(code[k].dst, Reg(code[h].dst))
    {
      CodeAt(code, EMPTY, k);
      StepText(code[k], After(code[..k], EMPTY));
      if KeyOf(code[k]).Some? && Look(After(code[..k], EMPTY), KeyOf(code[k]).value).Some? { MoveFrom(code, k); }
    }
  }

  lemma MoveFrom(code: seq<Inst>, k: nat)
    requires AllWritten(code) && k < |code| && KeyOf(code[k]).Some?
    requires Look(After(code[..k], EMPTY), KeyOf(code[k]).value).Some?
    ensures exists h: nat :: Reaches(code, h, k) && code[h].dst == Look(After(code[..k], EMPTY), KeyOf(code[k]).value).value
  {
    var key := KeyOf(code[k]).value;
    AvailFrom(code, k, key);
    var h: nat :| Source(code, h, k, key, Look(After(code[..k], EMPTY), key).value);
    assert Reaches(code, h, k);
  }

  // ---- the pass as it is written ---------------------------------------------------------------

  lemma {:induction false} CodeSnoc(code: seq<Inst>, i: Inst, av: Avail)
    requires AllWritten(code) && Written(i) && AllWritten(code + [i])
    ensures Code(code + [i], av) == Code(code, av) + [Step(i, After(code, av)).0]
    ensures After(code + [i], av) == Step(i, After(code, av)).1
  {
    hide Step;
    if code == [] {
      assert (code + [i])[1..] == [];
    } else {
      assert (code + [i])[1..] == code[1..] + [i];
      CodeSnoc(code[1..], i, Step(code[0], av).1);
    }
  }

  /** What is available behind straight-line code. */
  function After(code: seq<Inst>, av: Avail): Avail
    requires AllWritten(code)
  {
    if code == [] then av else After(code[1..], Step(code[0], av).1)
  }

  /** `cseBlock`. */
  method CseBlock(code: seq<Inst>) returns (out: seq<Inst>, any: bool)
    requires AllWritten(code)
    ensures out == Code(code, EMPTY) && Reused(code, out)
    ensures any <==> out != code
  {
    CodeReuses(code);
    var av := EMPTY;
    out := [];
    any := false;
    for k := 0 to |code|
      invariant out == Code(code[..k], EMPTY) && av == After(code[..k], EMPTY) && |out| == k
      invariant any <==> out != code[..k]
    {
      hide Step;
      var i := code[k];
      assert code[..k + 1] == code[..k] + [i];
      CodeSnoc(code[..k], i, EMPTY);
      var (i', av') := Step(i, av);
      assert (out + [i'])[k] == i' && (out + [i'])[..k] == out;
      any := any || i' != i;
      out := out + [i'];
      av := av';
    }
    assert code[..|code|] == code;
  }

  // ---- when it is right ---------------------------------------------------------------------------

  /** An instruction whose result may be reused under a key that kills ignore. */
  predicate Expression(i: Inst) {
    i.Bin? || i.Un?
  }

  /** No later instruction writes the register of an expression, and none is its own operand. */
  ghost predicate WrittenOnce(code: seq<Inst>) {
    && (forall k | 0 <= k < |code| && Expression(code[k]) :: code[k].dst !in Uses(code[k]))
    && (forall j, k | 0 <= k < j < |code| && Expression(code[k]) :: Def(code[j]) != code[k].dst)
  }

  ghost predicate BinHolds(k: BinKey, r: nat, s: State) {
    && Read(k.a, s.regs).Some? && Read(k.b, s.regs).Some? && r in s.regs
    && EvalBin(k.op, Read(k.a, s.regs).value, Read(k.b, s.regs).value) == Some(s.regs[r])
  }

  ghost predicate UnHolds(k: UnKey, r: nat, s: State) {
    k.reg in s.regs && r in s.regs && EvalUn(k.op, s.regs[k.reg]) == s.regs[r]
  }

  ghost predicate LoadHolds(g: nat, r: nat, s: State) {
    g < |s.globals| && r in s.regs && s.globals[g] == s.regs[r]
  }

  /** Every available expression has its value in its register. */
  ghost predicate Holds(av: Avail, s: State) {
    && (forall k | k in av.bin :: BinHolds(k, av.bin[k], s))
    && (forall k | k in av.un :: UnHolds(k, av.un[k], s))
    && (forall g | g in av.load :: LoadHolds(g, av.load[g], s))
  }

  /** The registers of available expressions are not written by the code. */
  ghost predicate Spared(av: Avail, code: seq<Inst>) {
    && (forall k, j | k in av.bin && 0 <= j < |code| :: Def(code[j]) != av.bin[k])
    && (forall k, j | k in av.un && 0 <= j < |code| :: Def(code[j]) != av.un[k])
  }

  /** A write to d makes at most what `Kill` removes unavailable. */
  lemma KillHolds(av: Avail, d: int, s: State, s': State)
    requires Holds(av, s) && s'.globals == s.globals
    requires forall v: nat | v in s.regs && v != d :: v in s'.regs && s'.regs[v] == s.regs[v]
    requires forall k | k in av.bin :: av.bin[k] != d
    requires forall k | k in av.un :: av.un[k] != d
    ensures Holds(Kill(av, d), s')
  {
    hide EvalBin, EvalUn;
    var kv := Kill(av, d);
    forall k | k in kv.bin ensures BinHolds(k, kv.bin[k], s') {
      assert BinHolds(k, av.bin[k], s);
    }
    forall k | k in kv.un ensures UnHolds(k, kv.un[k], s') {
      assert UnHolds(k, av.un[k], s);
    }
    forall g | g in kv.load ensures LoadHolds(g, kv.load[g], s') {
      assert LoadHolds(g, av.load[g], s);
    }
  }

  lemma KillLess(av: Avail, d: int, s: State)
    requires Holds(av, s)
    ensures Holds(Kill(av, d), s)
  {
    hide EvalBin, EvalUn;
  }

  lemma KillSpared(av: Avail, d: int, code: seq<Inst>)
    requires Spared(av, code)
    ensures Spared(Kill(av, d), code)
  {
  }

  lemma {:induction false} KillArgsLess(av: Avail, vs: seq<Val>, s: State, code: seq<Inst>)
    requires Holds(av, s) && Spared(av, code)
    ensures Holds(KillArgs(av, vs), s) && Spared(KillArgs(av, vs), code)
    ensures KillArgs(av, vs).load.Keys <= av.load.Keys
    decreases |vs|
  {
    hide Holds, Spared;
    if vs != [] {
      if vs[0].Reg? {
        KillLess(av, vs[0].reg, s);
        KillSpared(av, vs[0].reg, code);
      }
      KillArgsLess(KillVal(av, vs[0]), vs[1..], s, code);
    }
  }

  lemma SparedTail(av: Avail, code: seq<Inst>)
    requires code != [] && Spared(av, code)
    ensures Spared(av, code[1..])
  {
    forall k, j | k in av.bin && 0 <= j < |code[1..]| ensures Def(code[1..][j]) != av.bin[k] {
      assert code[1..][j] == code[j + 1];
    }
    forall k, j | k in av.un && 0 <= j < |code[1..]| ensures Def(code[1..][j]) != av.un[k] {
      assert code[1..][j] == code[j + 1];
    }
  }

  lemma OnceTail(code: seq<Inst>)
    requires code != [] && WrittenOnce(code)
    ensures WrittenOnce(code[1..])
    ensures Expression(code[0]) ==> forall j | 0 <= j < |code[1..]| :: Def(code[1..][j]) != code[0].dst
  {
    assert forall k | 0 <= k < |code[1..]| :: code[1..][k] == code[k + 1];
  }

  /** Reusing a value gives the state that computing it again would give. */
  lemma ReuseSame(i: Inst, av: Avail, s: State)
    requires !i.Call? && Written(i) && Holds(av, s) && ExecPlain(i, s).Done?
    ensures ExecPlain(Step(i, av).0, s) == ExecPlain(i, s)
  {
    match i
    case LoadGlobal(d, g) => if g in av.load { assert LoadHolds(g, av.load[g], s); }
    case Un(op, d, a) => if a.Reg? && UnKey(op, a.reg) in av.un { assert UnHolds(UnKey(op, a.reg), av.un[UnKey(op, a.reg)], s); }
    case Bin(op, d, a, b, _, _) =>
      if BinKey(op, a, b) in av.bin { assert BinHolds(BinKey(op, a, b), av.bin[BinKey(op, a, b)], s); }
    case _ =>
  }

  /** The entry that an expression leaves behind is true. */
  lemma RecordHolds(i: Inst, av: Avail, s: State, rest: seq<Inst>)
    requires !i.Call? && !i.StoreGlobal? && Written(i) && ExecPlain(i, s).Done?
    requires Expression(i) ==> i.dst !in Uses(i) && forall j | 0 <= j < |rest| :: Def(rest[j]) != i.dst
    requires Holds(Kill(av, i.dst), ExecPlain(i, s).value) && Spared(Kill(av, i.dst), rest)
    ensures Holds(Step(i, av).1, ExecPlain(i, s).value) && Spared(Step(i, av).1, rest)
  {
    var s', kv := ExecPlain(i, s).value, Kill(av, i.dst);
    hide Kill, Holds, Spared, EvalBin;
    match i
    case LoadGlobal(d, g) =>
      if g !in av.load { AddLoad(kv, g, d, s', rest); }
    case Un(op, d, a) =>
      if a.Reg? && UnKey(op, a.reg) !in av.un {
        assert a.reg in Uses(i);
        AddUn(kv, UnKey(op, a.reg), d, s', rest);
      }
    case Bin(op, d, a, b, _, _) =>
      if (a.Reg? || b.Reg?) && BinKey(op, a, b) !in av.bin {
        assert a.Reg? ==> a.reg in ValUses(a) && a.reg in Uses(i);
        assert b.Reg? ==> b.reg in ValUses(b) && b.reg in Uses(i);
        AddBin(kv, BinKey(op, a, b), d, s', rest);
      }
    case _ =>
  }

  lemma AddLoad(av: Avail, g: nat, d: nat, s: State, rest: seq<Inst>)
    requires Holds(av, s) && Spared(av, rest) && LoadHolds(g, d, s)
    ensures Holds(av.(load := av.load[g := d]), s) && Spared(av.(load := av.load[g := d]), rest)
  {
    hide BinHolds, UnHolds;
  }

  lemma AddUn(av: Avail, k: UnKey, d: nat, s: State, rest: seq<Inst>)
    requires Holds(av, s) && Spared(av, rest) && UnHolds(k, d, s) && forall j | 0 <= j < |rest| :: Def(rest[j]) != d
    ensures Holds(av.(un := av.un[k := d]), s) && Spared(av.(un := av.un[k := d]), rest)
  {
    hide BinHolds, UnHolds;
  }

  lemma AddBin(av: Avail, k: BinKey, d: nat, s: State, rest: seq<Inst>)
    requires Holds(av, s) && Spared(av, rest) && BinHolds(k, d, s) && forall j | 0 <= j < |rest| :: Def(rest[j]) != d
    ensures Holds(av.(bin := av.bin[k := d]), s) && Spared(av.(bin := av.bin[k := d]), rest)
  {
    hide BinHolds, UnHolds;
  }

  /** One instruction other than a call keeps the availability true. */
  lemma PlainStep(code: seq<Inst>, av: Avail, s: State)
    requires code != [] && !code[0].Call? && Written(code[0]) && WrittenOnce(code)
    requires Holds(av, s) && Spared(av, code) && ExecPlain(code[0], s).Done?
    ensures ExecPlain(Step(code[0], av).0, s) == ExecPlain(code[0], s)
    ensures Holds(Step(code[0], av).1, ExecPlain(code[0], s).value) && Spared(Step(code[0], av).1, code[1..])
  {
    var i, rest, s' := code[0], code[1..], ExecPlain(code[0], s).value;
    ReuseSame(i, av, s);
    SparedTail(av, code);
    OnceTail(code);
    assert Def(code[0]) == Def(i);
    if i.StoreGlobal? {
      StoreStep(i, av, s, rest);
    } else {
      KillHolds(av, i.dst, s, s');
      KillSpared(av, i.dst, rest);
      RecordHolds(i, av, s, rest);
    }
  }

  lemma StoreStep(i: Inst, av: Avail, s: State, rest: seq<Inst>)
    requires i.StoreGlobal? && ExecPlain(i, s).Done? && Holds(av, s) && Spared(av, rest)
    ensures Holds(Step(i, av).1, ExecPlain(i, s).value) && Spared(Step(i, av).1, rest)
  {
    hide EvalBin, EvalUn;
    var s', av1 := ExecPlain(i, s).value, av.(load := av.load - {i.gid});
    forall g | g in av1.load ensures LoadHolds(g, av1.load[g], s') {
      assert LoadHolds(g, av.load[g], s);
    }
    forall k | k in av1.bin ensures BinHolds(k, av1.bin[k], s') {
      assert BinHolds(k, av.bin[k], s);
    }
    assert Holds(av1, s') && Spared(av1, rest);
    if i.a.Reg? {
      KillLess(av1, i.a.reg, s');
      KillSpared(av1, i.a.reg, rest);
    }
  }

  /** A call may change every global, and its result register. */
  lemma CallStep(code: seq<Inst>, av: Avail, s: State, s': State)
    requires code != [] && code[0].Call? && Holds(av, s) && Spared(av, code)
    requires forall v: nat | v in s.regs && v != code[0].dst :: v in s'.regs && s'.regs[v] == s.regs[v]
    ensures Holds(Step(code[0], av).1, s') && Spared(Step(code[0], av).1, code[1..])
  {
    hide EvalBin, EvalUn;
    var i, rest := code[0], code[1..];
    SparedTail(av, code);
    var av0 := av.(load := map[]);
    assert Holds(av0, s) && Spared(av0, code);
    KillArgsLess(av0, i.args, s, code);
    var av1 := KillArgs(av0, i.args);
    SparedTail(av1, code);
    assert Def(code[0]) == i.dst;
    var mid := State(s.regs, s'.globals);
    forall k | k in av1.bin ensures BinHolds(k, av1.bin[k], mid) {
      assert BinHolds(k, av1.bin[k], s);
    }
    forall k | k in av1.un ensures UnHolds(k, av1.un[k], mid) {
      assert UnHolds(k, av1.un[k], s);
    }
    assert Holds(av1, mid);
    KillHolds(av1, i.dst, mid, s');
    KillSpared(av1, i.dst, rest);
  }

  // ---- modules ------------------------------------------------------------------------------------

  ghost predicate Disciplined(f: Func) {
    forall b | 0 <= b < |f.blocks| :: AllWritten(f.blocks[b].insts) && WrittenOnce(f.blocks[b].insts)
  }

  function Blocks(bs: seq<Block>): (r: seq<Block>)
    requires forall b | 0 <= b < |bs| :: AllWritten(bs[b].insts)
    ensures |r| == |bs| && forall b | 0 <= b < |bs| :: r[b] == Block(Code(bs[b].insts, EMPTY), bs[b].term)
  {
    if bs == [] then [] else [Block(Code(bs[0].insts, EMPTY), bs[0].term)] + Blocks(bs[1..])
  }

  predicate FuncWritten(f: Func) {
    forall b | 0 <= b < |f.blocks| :: AllWritten(f.blocks[b].insts)
  }

  /** `cse` on every block. */
  function CseFunc(f: Func): Func
    requires FuncWritten(f)
  {
    f.(blocks := Blocks(f.blocks))
  }

  function CseFuncs(fs: seq<Func>): (r: seq<Func>)
    requires forall i | 0 <= i < |fs| :: FuncWritten(fs[i])
    ensures |r| == |fs| && forall i | 0 <= i < |fs| :: r[i] == CseFunc(fs[i])
  {
    if fs == [] then [] else [CseFunc(fs[0])] + CseFuncs(fs[1..])
  }

  ghost predicate ModuleDisciplined(m: Module) {
    forall i | 0 <= i < |m.funcs| :: FuncWritten(m.funcs[i]) && Disciplined(m.funcs[i])
  }

  function CseModule(m: Module): Module
    requires forall i | 0 <= i < |m.funcs| :: FuncWritten(m.funcs[i])
  {
    m.(funcs := CseFuncs(m.funcs))
  }

  /** The pass on a whole function, block by block. */
  method Cse(f: Func) returns (r: Func, any: bool)
    requires FuncWritten(f)
    ensures r == CseFunc(f) && (any <==> r != f)
    ensures |r.blocks| == |f.blocks| && forall b | 0 <= b < |f.blocks| :: Reused(f.blocks[b].insts, r.blocks[b].insts)
  {
    hide Code, Reused;
    var blocks := f.blocks;
    any := false;
    for b := 0 to |f.blocks|
      invariant |blocks| == |f.blocks|
      invariant forall c | 0 <= c < b :: blocks[c] == Block(Code(f.blocks[c].insts, EMPTY), f.blocks[c].term)
      invariant forall c | 0 <= c < b :: Reused(f.blocks[c].insts, blocks[c].insts)
      invariant forall c | b <= c < |f.blocks| :: blocks[c] == f.blocks[c]
      invariant any <==> blocks != f.blocks
    {
      ghost var before := blocks;
      var code, changed := CseBlock(f.blocks[b].insts);
      blocks := blocks[b := Block(code, f.blocks[b].term)];
      assert blocks[b].insts == code;
      if before != f.blocks {
        var c :| 0 <= c < |f.blocks| && before[c] != f.blocks[c];
        assert blocks[c] == before[c];
      }
      any := any || changed;
    }
    r := f.(blocks := blocks);
    assert blocks == Blocks(f.blocks);
  }

  lemma {:induction false} FindCse(fs: seq<Func>, name: string)
    requires forall i | 0 <= i < |fs| :: FuncWritten(fs[i])
    ensures FindFunc(fs, name).None? ==> FindFunc(CseFuncs(fs), name).None?
    ensures FindFunc(fs, name).Some? ==>
              FindFunc(fs, name).value in fs && FuncWritten(FindFunc(fs, name).value)
              && FindFunc(CseFuncs(fs), name) == Some(CseFunc(FindFunc(fs, name).value))
  {
    hide Blocks;
    if fs != [] {
      FindCse(fs[1..], name);
      assert CseFuncs(fs)[1..] == CseFuncs(fs[1..]);
    }
  }

  /** Straight-line code and its reduced form reach the same state. */
  lemma {:induction false} CodeRefines(m: Module, code: seq<Inst>, av: Avail, s: State, d: nat, k: nat)
    requires ModuleDisciplined(m) && AllWritten(code) && WrittenOnce(code) && Holds(av, s) && Spared(av, code)
    ensures Refines(ExecInsts(m, code, s, d, k), ExecInsts(CseModule(m), Code(code, av), s, d, k))
    decreases d, k, 0, |code|
  {
    hide Disciplined, Holds, Spared, WrittenOnce, Step, RunFunc, ExecPlain;
    if code != [] {
      var m', i, rest := CseModule(m), code[0], code[1..];
      var (i', av') := Step(i, av);
      assert Code(code, av)[0] == i' && Code(code, av)[1..] == Code(rest, av');
      OnceTail(code);
      var o := ExecInst(m, i, s, d, k);
      if i.Call? {
        CallSame(i, av);
        CallRefines(m, i, s, d, k);
        if o.Done? {
          CallDone(m, i, s, d, k);
          CallStep(code, av, s, o.value);
          CodeRefines(m, rest, av', o.value, d, k);
        }
      } else {
        StepPlain(i, av);
        if o.Done? {
          PlainStep(code, av, s);
          CodeRefines(m, rest, av', o.value, d, k);
        } else {
          PlainNeverTimesOut(i, s);
        }
      }
    }
  }

  lemma PlainNeverTimesOut(i: Inst, s: State)
    requires !i.Call?
    ensures !ExecPlain(i, s).Timeout?
  {
  }

  lemma CallSame(i: Inst, av: Avail)
    requires i.Call?
    ensures Step(i, av).0 == i
  {
  }

  lemma StepPlain(i: Inst, av: Avail)
    requires !i.Call? && Written(i)
    ensures !Step(i, av).0.Call?
  {
  }

  lemma CallDone(m: Module, i: Inst, s: State, d: nat, k: nat)
    requires i.Call? && ExecInst(m, i, s, d, k).Done?
    ensures var s' := ExecInst(m, i, s, d, k).value;
            forall v: nat | v in s.regs && v != i.dst :: v in s'.regs && s'.regs[v] == s.regs[v]
  {
    hide RunFunc;
  }

  lemma {:induction false} CallRefines(m: Module, i: Inst, s: State, d: nat, k: nat)
    requires ModuleDisciplined(m) && i.Call?
    ensures Refines(ExecInst(m, i, s, d, k), ExecInst(CseModule(m), i, s, d, k))
    decreases d, k, 0, 0
  {
    hide ModuleDisciplined, RunFunc;
    if ReadAll(i.args, s.regs).Some? && d > 0 {
      CseRefines(m, i.callee, ReadAll(i.args, s.regs).value, s.globals, d - 1, k);
    }
  }

  lemma {:induction false} BlockRefines(m: Module, f: Func, b: nat, s: State, d: nat, k: nat)
    requires ModuleDisciplined(m) && FuncWritten(f) && Disciplined(f)
    ensures Refines(RunBlock(m, f, b, s, d, k), RunBlock(CseModule(m), CseFunc(f), b, s, d, k))
    decreases d, k, 1, 0
  {
    hide ModuleDisciplined, ExecInsts, WrittenOnce;
    if b < |f.blocks| {
      var code, t := f.blocks[b].insts, f.blocks[b].term;
      CodeRefines(m, code, EMPTY, s, d, k);
      var o := ExecInsts(m, code, s, d, k);
      if o.Done? && k > 0 {
        match t
        case Jmp(x) => BlockRefines(m, f, x, o.value, d, k - 1);
        case Br(c, x, y) =>
          if Read(c, o.value.regs).Some? {
            BlockRefines(m, f, if Read(c, o.value.regs).value != 0 then x else y, o.value, d, k - 1);
          }
        case _ =>
      }
    }
  }

  /**
   * The pass refines every run within the same bounds, when each expression's
   * register is written once in its block and is not its own operand.
   */
  lemma {:induction false} CseRefines(m: Module, name: string, args: seq<i32>, g: seq<i32>, d: nat, k: nat)
    requires ModuleDisciplined(m)
    ensures Refines(RunFunc(m, name, args, g, d, k), RunFunc(CseModule(m), name, args, g, d, k))
    decreases d, k, 2, 0
  {
    hide RunBlock, CseFunc, Disciplined, FuncWritten;
    FindCse(m.funcs, name);
    var f := FindFunc(m.funcs, name);
    if f.Some? && |f.value.params| == |args| {
      var i :| 0 <= i < |m.funcs| && m.funcs[i] == f.value;
      BlockRefines(m, f.value, 0, State(Entry(f.value.params, args), g), d, k);
      SameParams(f.value);
    }
  }

  lemma SameParams(f: Func)
    requires FuncWritten(f)
    ensures CseFunc(f).params == f.params
  {
  }

  // ---- the discipline is needed ----------------------------------------------------------------------

  /** `x = a + b; x = 5; y = a + b`, with a, b, x and y in registers 0 to 3. */
  function Overwriting(): seq<Inst> {
    [Bin(Add, 2, Reg(0), Reg(1), -1, false), Mv(2, Imm(5)), Bin(Add, 3, Reg(0), Reg(1), -1, false)]
  }

  lemma OverwritingReused()
    ensures AllWritten(Overwriting()) && !WrittenOnce(Overwriting())
    ensures Code(Overwriting(), EMPTY) == [Overwriting()[0], Overwriting()[1], Mv(3, Reg(2))]
  {
    var code := Overwriting();
    var key := BinKey(Add, Reg(0), Reg(1));
    assert Def(code[1]) == code[0].dst;
    var av1 := Step(code[0], EMPTY).1;
    var av2 := Step(code[1], av1).1;
    assert key in av1.bin && av1.bin[key] == 2;
    assert key in av2.bin && av2.bin[key] == 2;
    assert code[1..] == [code[1], code[2]] && code[1..][1..] == [code[2]] && [code[2]][1..] == [];
    hide Step;
    assert Code([code[2]], av2) == [Step(code[2], av2).0] + Code([], Step(code[2], av2).1);
    assert Code(code[1..], av1) == [Step(code[1], av1).0] + Code([code[2]], av2);
  }

  /** The end of x = w; x = 5; y = last. */
  lemma OverwritingRuns(s: State, w: i32, last: Inst, y: i32)
    requires 0 in s.regs && 1 in s.regs && Wrap(s.regs[0] as int + s.regs[1]) == w && !last.Call?
    requires var s2 := State(s.regs[2 := w][2 := 5], s.globals); ExecPlain(last, s2) == Done(State(s2.regs[3 := y], s.globals))
    ensures var o := ExecInsts(Module([], []), [Overwriting()[0], Overwriting()[1], last], s, 0, 0);
            o.Done? && 3 in o.value.regs && o.value.regs[3] == y
  {
    var code := Overwriting();
    var s1 := State(s.regs[2 := w], s.globals);
    var s2 := State(s1.regs[2 := 5], s.globals);
    assert ExecPlain(code[0], s) == Done(s1) && ExecPlain(code[1], s1) == Done(s2);
    hide ExecPlain, ExecInsts, Wrap;
    Straight3(code[0], code[1], last, s);
  }

  /**
   * Without the discipline the pass is wrong: the sum is taken from x although x
   * has been overwritten, because only expressions that read x are killed.
   */
  lemma OverwrittenResult(s: State)
    requires 0 in s.regs && 1 in s.regs && Wrap(s.regs[0] as int + s.regs[1]) != 5
    ensures AllWritten(Overwriting()) && !WrittenOnce(Overwriting())
    ensures var o, o' := ExecInsts(Module([], []), Overwriting(), s, 0, 0),
                         ExecInsts(Module([], []), Code(Overwriting(), EMPTY), s, 0, 0);
            o.Done? && o'.Done? && 3 in o.value.regs && 3 in o'.value.regs && o.value.regs[3] != o'.value.regs[3]
  {
    OverwritingReused();
    hide Code, Step, WrittenOnce, Wrap, ExecInsts;
    var w := Wrap(s.regs[0] as int + s.regs[1]);
    assert Overwriting() == [Overwriting()[0], Overwriting()[1], Overwriting()[2]];
    OverwritingRuns(s, w, Overwriting()[2], w);
    OverwritingRuns(s, w, Mv(3, Reg(2)), 5);
  }

  lemma Straight3(a: Inst, b: Inst, c: Inst, s: State)
    requires !a.Call? && !b.Call? && !c.Call?
    requires ExecPlain(a, s).Done? && ExecPlain(b, ExecPlain(a, s).value).Done?
    requires ExecPlain(c, ExecPlain(b, ExecPlain(a, s).value).value).Done?
    ensures ExecInsts(Module([], []), [a, b, c], s, 0, 0) == ExecPlain(c, ExecPlain(b, ExecPlain(a, s).value).value)
  {
    hide ExecPlain;
    var m, s1 := Module([], []), ExecPlain(a, s).value;
    var s2 := ExecPlain(b, s1).value;
    assert [a, b, c][1..] == [b, c] && [b, c][1..] == [c] && [c][1..] == [];
    assert ExecInsts(m, [c], s2, 0, 0) == ExecPlain(c, s2);
    assert ExecInsts(m, [b, c], s1, 0, 0) == ExecInsts(m, [c], s2, 0, 0);
  }
}
