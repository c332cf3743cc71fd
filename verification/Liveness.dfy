/** Iterative liveness: the data-flow solution and the paths it stands for. */
module Liveness {
  import opened IR

  /** The registers live before straight-line code, given those live after the block. */
  function LiveBefore(code: seq<Inst>, t: Term, out: set<nat>): set<nat> {
    if code == [] then TermUses(t) + out
    else Uses(code[0]) + Minus(LiveBefore(code[1..], t, out), Def(code[0]))
  }

  function Minus(s: set<nat>, d: int): set<nat> {
    if d >= 0 then s - {d} else s
  }

  /** Registers read in a block before the block writes them. */
  function UseB(b: Block): set<nat> {
    LiveBefore(b.insts, b.term, {})
  }

  function CodeDefs(code: seq<Inst>): set<nat> {
    if code == [] then {}
    else (if Def(code[0]) >= 0 then {Def(code[0])} else {}) + CodeDefs(code[1..])
  }

  function DefB(b: Block): set<nat> {
    CodeDefs(b.insts)
  }

  /** The transfer function of a block is `use + (out - def)`. */
  lemma {:induction false} Transfer(code: seq<Inst>, t: Term, out: set<nat>)
    ensures LiveBefore(code, t, out) == LiveBefore(code, t, {}) + (out - CodeDefs(code))
  {
    if code != [] {
      Transfer(code[1..], t, out);
    }
  }

  /** v is read at position k of the block (its end for k == |code|), and not written before. */
  ghost predicate ReadsFirst(code: seq<Inst>, t: Term, v: nat, k: nat) {
    && k <= |code|
    && (if k < |code| then v in Uses(code[k]) else v in TermUses(t))
    && forall j | 0 <= j < k :: Def(code[j]) != v
  }

  /** Upward-exposed uses, instruction by instruction. */
  lemma {:induction false} UseMeansReadFirst(code: seq<Inst>, t: Term, v: nat)
    ensures v in LiveBefore(code, t, {}) <==> exists k: nat :: ReadsFirst(code, t, v, k)
  {
    if code == [] {
      if v in TermUses(t) { assert ReadsFirst(code, t, v, 0); }
    } else {
      var rest := code[1..];
      UseMeansReadFirst(rest, t, v);
      if v in LiveBefore(code, t, {}) {
        if v in Uses(code[0]) {
          assert ReadsFirst(code, t, v, 0);
        } else {
          var k: nat :| ReadsFirst(rest, t, v, k);
          assert forall j | 0 < j < k + 1 :: code[j] == rest[j - 1];
          assert ReadsFirst(code, t, v, k + 1);
        }
      }
      if k: nat :| ReadsFirst(code, t, v, k) {
        if k > 0 {
          assert forall j | 0 <= j < |rest| :: rest[j] == code[j + 1];
          assert Def(code[0]) != v;
          assert ReadsFirst(rest, t, v, k - 1);
        }
      }
    }
  }

  /** A path through the graph to a block that reads v before any block writes it. */
  ghost predicate LivePath(f: Func, p: seq<nat>, v: nat) {
    && |p| > 0
    && (forall i | 0 <= i < |p| :: p[i] < |f.blocks|)
    && (forall i | 0 <= i < |p| - 1 :: p[i + 1] in Succs(f.blocks[p[i]].term) && v !in DefB(f.blocks[p[i]]))
    && v in UseB(f.blocks[p[|p| - 1]])
  }

  ghost predicate LiveFrom(f: Func, b: nat, v: nat) {
    exists p: seq<nat> :: LivePath(f, p, v) && p[0] == b
  }

  predicate InRange(succs: seq<nat>, n: nat) {
    forall i | 0 <= i < |succs| :: succs[i] < n
  }

  /** The union of the successors' live-in sets. */
  function OutOf(succs: seq<nat>, liveIn: seq<set<nat>>): set<nat>
    requires InRange(succs, |liveIn|)
  {
    if succs == [] then {} else liveIn[succs[0]] + OutOf(succs[1..], liveIn)
  }

  lemma {:induction false} OutOfMember(succs: seq<nat>, liveIn: seq<set<nat>>, v: nat)
    requires InRange(succs, |liveIn|)
    ensures v in OutOf(succs, liveIn) <==> exists s :: s in succs && v in liveIn[s]
  {
    if succs != [] {
      OutOfMember(succs[1..], liveIn, v);
    }
  }

  predicate SuccsIn(f: Func) {
    forall b | 0 <= b < |f.blocks| :: InRange(Succs(f.blocks[b].term), |f.blocks|)
  }

  lemma FuncOkSuccs(f: Func)
    requires FuncOk(f)
    ensures SuccsIn(f)
  {
    forall b | 0 <= b < |f.blocks| ensures InRange(Succs(f.blocks[b].term), |f.blocks|) {
      assert BlockOk(f.blocks[b], |f.blocks|, f.numVregs);
      var ss := Succs(f.blocks[b].term);
      forall i | 0 <= i < |ss| ensures ss[i] < |f.blocks| { assert ss[i] in ss; }
    }
  }

  /** What one visit of block b computes from the current sets. */
  function NewOut(f: Func, b: nat, liveIn: seq<set<nat>>): set<nat>
    requires SuccsIn(f) && b < |f.blocks| == |liveIn|
  {
    OutOf(Succs(f.blocks[b].term), liveIn)
  }

  function NewIn(f: Func, b: nat, out: set<nat>): set<nat>
    requires b < |f.blocks|
  {
    UseB(f.blocks[b]) + (out - DefB(f.blocks[b]))
  }

  /** The equations of the analysis. */
  ghost predicate Solved(f: Func, b: nat, liveIn: seq<set<nat>>, liveOut: seq<set<nat>>)
    requires SuccsIn(f) && b < |f.blocks| == |liveIn| == |liveOut|
  {
    liveOut[b] == NewOut(f, b, liveIn) && liveIn[b] == NewIn(f, b, liveOut[b])
  }

  /** Below the solution: revisiting a block can only add to its sets. */
  ghost predicate Growing(f: Func, b: nat, liveIn: seq<set<nat>>, liveOut: seq<set<nat>>)
    requires SuccsIn(f) && b < |f.blocks| == |liveIn| == |liveOut|
  {
    liveOut[b] <= NewOut(f, b, liveIn) && liveIn[b] <= NewIn(f, b, liveOut[b])
  }

  /** Only registers that some path reads are in the sets. */
  ghost predicate Justified(f: Func, b: nat, liveIn: seq<set<nat>>)
    requires b < |f.blocks| == |liveIn|
  {
    forall v | v in liveIn[b] :: LiveFrom(f, b, v)
  }

  lemma JustifyStep(f: Func, b: nat, liveIn: seq<set<nat>>)
    requires SuccsIn(f) && b < |f.blocks| == |liveIn|
    requires forall c | 0 <= c < |f.blocks| :: Justified(f, c, liveIn)
    ensures forall v | v in NewIn(f, b, NewOut(f, b, liveIn)) :: LiveFrom(f, b, v)
  {
    forall v | v in NewIn(f, b, NewOut(f, b, liveIn)) ensures LiveFrom(f, b, v) {
      if v in UseB(f.blocks[b]) {
        assert LivePath(f, [b], v);
      } else {
        OutOfMember(Succs(f.blocks[b].term), liveIn, v);
        var s :| s in Succs(f.blocks[b].term) && v in liveIn[s];
        assert Justified(f, s, liveIn);
        var p: seq<nat> :| LivePath(f, p, v) && p[0] == s;
        assert LivePath(f, [b] + p, v);
      }
    }
  }

  /** A solution contains every register that a path reads. */
  lemma {:induction false} SolutionComplete(f: Func, p: seq<nat>, v: nat, liveIn: seq<set<nat>>, liveOut: seq<set<nat>>)
    requires SuccsIn(f) && |f.blocks| == |liveIn| == |liveOut|
    requires forall b | 0 <= b < |f.blocks| :: Solved(f, b, liveIn, liveOut)
    requires LivePath(f, p, v)
    ensures v in liveIn[p[0]]
    decreases |p|
  {
    assert Solved(f, p[0], liveIn, liveOut);
    if |p| > 1 {
      assert LivePath(f, p[1..], v);
      SolutionComplete(f, p[1..], v, liveIn, liveOut);
      OutOfMember(Succs(f.blocks[p[0]].term), liveIn, v);
      assert p[1] == p[1..][0];
    }
  }

  lemma {:induction false} OutOfMonotone(succs: seq<nat>, liveIn: seq<set<nat>>, b: nat, x: set<nat>)
    requires b < |liveIn| && liveIn[b] <= x
    requires InRange(succs, |liveIn|)
    ensures OutOf(succs, liveIn) <= OutOf(succs, liveIn[b := x])
  {
    if succs != [] {
      OutOfMonotone(succs[1..], liveIn, b, x);
    }
  }

  lemma {:induction false} OutOfBound(succs: seq<nat>, liveIn: seq<set<nat>>, nv: nat)
    requires InRange(succs, |liveIn|)
    requires forall s, v | 0 <= s < |liveIn| && v in liveIn[s] :: v < nv
    ensures forall v | v in OutOf(succs, liveIn) :: v < nv
  {
    if succs != [] {
      OutOfBound(succs[1..], liveIn, nv);
    }
  }

  lemma {:induction false} UseBound(code: seq<Inst>, t: Term, nv: nat)
    requires forall k | 0 <= k < |code| :: InstOk(code[k], nv)
    requires forall v | v in TermUses(t) :: v < nv
    ensures forall v | v in LiveBefore(code, t, {}) :: v < nv
  {
    if code != [] {
      UseBound(code[1..], t, nv);
    }
  }

  /** The pairs (block, register) that the sets do not contain yet. */
  ghost function Missing(nb: nat, nv: nat, sets: seq<set<nat>>): set<(int, int)> {
    set b, v | 0 <= b < nb && 0 <= v < nv && (b >= |sets| || v !in sets[b]) :: (b, v)
  }

  /** Every set holds registers of the function only. */
  ghost predicate Bounded(sets: seq<set<nat>>, nv: nat) {
    forall b, v | 0 <= b < |sets| && v in sets[b] :: v < nv
  }

  /** `use` and `def` of a block, scanned forwards as the source does. */
  method UseDef(b: Block) returns (use: set<nat>, def: set<nat>)
    ensures use == UseB(b) && def == DefB(b)
  {
    use, def := {}, {};
    var code := b.insts;
    for k := 0 to |code|
      invariant use + (LiveBefore(code[k..], b.term, {}) - def) == UseB(b)
      invariant def + CodeDefs(code[k..]) == DefB(b)
    {
      assert code[k..][1..] == code[k + 1..];
      var i := code[k];
      use := use + (Uses(i) - def);
      if Def(i) >= 0 {
        def := def + {Def(i)};
      }
    }
    use := use + (TermUses(b.term) - def);
  }

  /** One visit's worth of growth. */
  ghost predicate Steady(f: Func, liveIn: seq<set<nat>>, liveOut: seq<set<nat>>) {
    && SuccsIn(f) && |liveIn| == |liveOut| == |f.blocks|
    && Bounded(liveIn, f.numVregs) && Bounded(liveOut, f.numVregs)
    && (forall b | 0 <= b < |f.blocks| :: Growing(f, b, liveIn, liveOut))
    && (forall b | 0 <= b < |f.blocks| :: Justified(f, b, liveIn))
  }

  lemma VisitSteady(f: Func, b: nat, liveIn: seq<set<nat>>, liveOut: seq<set<nat>>)
    requires FuncOk(f) && Steady(f, liveIn, liveOut) && b < |f.blocks|
    ensures var out := NewOut(f, b, liveIn);
            var inn := NewIn(f, b, out);
            && liveOut[b] <= out && liveIn[b] <= inn
            && Steady(f, liveIn[b := inn], liveOut[b := out])
  {
    var out := NewOut(f, b, liveIn);
    var inn := NewIn(f, b, out);
    assert Growing(f, b, liveIn, liveOut);
    var liveIn', liveOut' := liveIn[b := inn], liveOut[b := out];
    JustifyStep(f, b, liveIn);
    OutOfBound(Succs(f.blocks[b].term), liveIn, f.numVregs);
    assert BlockOk(f.blocks[b], |f.blocks|, f.numVregs);
    UseBound(f.blocks[b].insts, f.blocks[b].term, f.numVregs);
    forall c | 0 <= c < |f.blocks| ensures Growing(f, c, liveIn', liveOut') && Justified(f, c, liveIn') {
      assert Growing(f, c, liveIn, liveOut) && Justified(f, c, liveIn);
      OutOfMonotone(Succs(f.blocks[c].term), liveIn, b, inn);
    }
  }

  lemma MissingShrinks(nb: nat, nv: nat, sets: seq<set<nat>>, b: nat, x: set<nat>)
    requires b < nb == |sets| && sets[b] <= x && Bounded([x], nv)
    ensures Missing(nb, nv, sets[b := x]) <= Missing(nb, nv, sets)
    ensures sets[b] != x ==> Missing(nb, nv, sets[b := x]) < Missing(nb, nv, sets)
  {
    if v :| v in x && v !in sets[b] {
      assert v in [x][0];
      assert (b, v) in Missing(nb, nv, sets);
      assert (b, v) !in Missing(nb, nv, sets[b := x]);
    } else {
      assert sets[b] == x;
    }
  }

  lemma VisitBounded(f: Func, b: nat, liveIn: seq<set<nat>>, liveOut: seq<set<nat>>)
    requires FuncOk(f) && Steady(f, liveIn, liveOut) && b < |f.blocks|
    ensures Bounded([NewOut(f, b, liveIn)], f.numVregs)
    ensures Bounded([NewIn(f, b, NewOut(f, b, liveIn))], f.numVregs)
  {
    OutOfBound(Succs(f.blocks[b].term), liveIn, f.numVregs);
    assert BlockOk(f.blocks[b], |f.blocks|, f.numVregs);
    UseBound(f.blocks[b].insts, f.blocks[b].term, f.numVregs);
  }

  /**
   * The fixpoint iteration: it ends, and a register is in the live-in set of a
   * block exactly when some path from the block reads it before writing it.
   */
  method Analyze(f: Func) returns (liveIn: seq<set<nat>>, liveOut: seq<set<nat>>)
    requires FuncOk(f)
    ensures SuccsIn(f) && |liveIn| == |liveOut| == |f.blocks|
    ensures forall b | 0 <= b < |f.blocks| :: Solved(f, b, liveIn, liveOut)
    ensures forall b, v | 0 <= b < |f.blocks| :: v in liveIn[b] <==> LiveFrom(f, b, v)
  {
    FuncOkSuccs(f);
    var nb, nv := |f.blocks|, f.numVregs;
    liveIn := seq(nb, _ => {});
    liveOut := seq(nb, _ => {});
    var changed := true;
    while changed
      invariant Steady(f, liveIn, liveOut)
      invariant !changed ==> forall b | 0 <= b < nb :: Solved(f, b, liveIn, liveOut)
      decreases Missing(nb, nv, liveIn), Missing(nb, nv, liveOut), changed
    {
      changed := false;
      ghost var in0, out0 := liveIn, liveOut;
      var b := nb;
      while b > 0
        invariant 0 <= b <= nb
        invariant Steady(f, liveIn, liveOut)
        invariant Missing(nb, nv, liveIn) <= Missing(nb, nv, in0)
        invariant Missing(nb, nv, liveOut) <= Missing(nb, nv, out0)
        invariant !changed ==> liveIn == in0 && liveOut == out0
        invariant !changed ==> forall c | b <= c < nb :: Solved(f, c, liveIn, liveOut)
        invariant changed ==> Missing(nb, nv, liveIn) < Missing(nb, nv, in0) || Missing(nb, nv, liveOut) < Missing(nb, nv, out0)
      {
        b := b - 1;
        VisitSteady(f, b, liveIn, liveOut);
        VisitBounded(f, b, liveIn, liveOut);
        var out := NewOut(f, b, liveIn);
        var use, def := UseDef(f.blocks[b]);
        var inn := use + (out - def);
        MissingShrinks(nb, nv, liveOut, b, out);
        MissingShrinks(nb, nv, liveIn, b, inn);
        assert out == liveOut[b] ==> liveOut[b := out] == liveOut;
        assert inn == liveIn[b] ==> liveIn[b := inn] == liveIn;
        if out != liveOut[b] {
          changed := true;
        }
        if inn != liveIn[b] {
          changed := true;
        }
        liveOut := liveOut[b := out];
        liveIn := liveIn[b := inn];
      }
    }
    forall b, v | 0 <= b < nb && LiveFrom(f, b, v) ensures v in liveIn[b] {
      var p: seq<nat> :| LivePath(f, p, v) && p[0] == b;
      SolutionComplete(f, p, v, liveIn, liveOut);
    }
    forall b, v | 0 <= b < nb && v in liveIn[b] ensures LiveFrom(f, b, v) {
      assert Justified(f, b, liveIn);
    }
  }
}
