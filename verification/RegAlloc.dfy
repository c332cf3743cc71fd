/** Graph-colouring register allocation and what makes an allocation valid. */
module RegAlloc {
  import opened IR
  import opened Liveness

  /** t0-t4: for values that span no call. */
  const CALLER_POOL: seq<int> := [5, 6, 7, 28, 29]

  /** s0-s11: for values that live across a call. */
  const CALLEE_POOL: seq<int> := [8, 9, 18, 19, 20, 21, 22, 23, 24, 25, 26, 27]

  predicate IsCalleeSaved(x: int) {
    x == 8 || x == 9 || 18 <= x <= 27
  }

  predicate IsPool(x: int) {
    5 <= x <= 9 || 18 <= x <= 29
  }

  lemma Pools(x: int)
    ensures x in CALLEE_POOL <==> IsCalleeSaved(x)
    ensures x in CALLER_POOL + CALLEE_POOL <==> IsPool(x)
  {
  }

  /** `reg[v]` is an x-register, or -1 when v lives in its spill slot. */
  datatype Allocation = Allocation(reg: seq<int>, spillSlot: seq<int>, numSpills: nat,
                                   usedCallee: seq<int>, isLeaf: bool)

  /** v is in one allocatable register or one spill slot. */
  predicate Placed(A: Allocation, v: nat) {
    && v < |A.reg| == |A.spillSlot|
    && (IsPool(A.reg[v]) || (A.reg[v] == -1 && 0 <= A.spillSlot[v] < A.numSpills))
  }

  /** Two registers whose places differ. */
  predicate Apart(A: Allocation, v: nat, w: nat)
    requires Placed(A, v) && Placed(A, w)
  {
    A.reg[v] != A.reg[w] || (A.reg[v] == -1 && A.spillSlot[v] != A.spillSlot[w])
  }

  predicate IsMoveFrom(i: Inst, v: nat) {
    i.Mv? && i.a == Reg(v)
  }

  /** v is live after instruction i, which writes another register than v. */
  predicate Clashes(i: Inst, after: set<nat>, v: nat) {
    Def(i) >= 0 && v in after && v != Def(i) && !IsMoveFrom(i, v)
  }

  predicate Crosses(i: Inst, after: set<nat>, v: nat) {
    i.Call? && v in after && v != Def(i)
  }

  /** What is live after the first k instructions of a block. */
  function LiveAt(b: Block, k: nat, out: set<nat>): set<nat>
    requires k <= |b.insts|
  {
    LiveBefore(b.insts[k..], b.term, out)
  }

  ghost predicate AllPlaced(A: Allocation, nv: nat) {
    forall v | 0 <= v < nv :: Placed(A, v)
  }

  /** Instruction i destroys the place of nothing that is live after it. */
  ghost predicate InstSafe(A: Allocation, nv: nat, i: Inst, after: set<nat>)
    requires AllPlaced(A, nv)
  {
    && Def(i) < nv
    && (forall v | v in after :: v < nv)
    && (forall v: nat | v < nv && Clashes(i, after, v) :: Apart(A, Def(i), v))
    && (forall v: nat | v < nv && Crosses(i, after, v) :: Placed(A, v) && (A.reg[v] == -1 || IsCalleeSaved(A.reg[v])))
  }

  /** No parameter's place is shared by another parameter or a value live at entry. */
  ghost predicate ParamsSafe(A: Allocation, nv: nat, params: seq<nat>, liveIn: set<nat>)
    requires AllPlaced(A, nv)
  {
    forall i, v: nat | 0 <= i < |params| && (v in params || v in liveIn) && params[i] < nv && v < nv && v != params[i] ::
      Apart(A, params[i], v)
  }

  /** Every vreg keeps its place's content as long as it is live. */
  ghost predicate Safe(f: Func, A: Allocation, liveIn: seq<set<nat>>, liveOut: seq<set<nat>>) {
    && SuccsIn(f) && |liveIn| == |liveOut| == |f.blocks| > 0
    && AllPlaced(A, f.numVregs)
    && (forall b | 0 <= b < |f.blocks| :: Solved(f, b, liveIn, liveOut) && Justified(f, b, liveIn))
    && (forall b, k | 0 <= b < |f.blocks| && 0 <= k < |f.blocks[b].insts| ::
          InstSafe(A, f.numVregs, f.blocks[b].insts[k], LiveAt(f.blocks[b], k + 1, liveOut[b])))
    && ParamsSafe(A, f.numVregs, f.params, liveIn[0])
  }

  predicate HasCall(f: Func) {
    exists b, k :: 0 <= b < |f.blocks| && 0 <= k < |f.blocks[b].insts| && f.blocks[b].insts[k].Call?
  }

  /** The callee-saved registers in use are listed once each; a leaf makes no call. */
  ghost predicate Accounted(f: Func, A: Allocation) {
    && (forall x :: x in A.usedCallee <==> IsCalleeSaved(x) && exists v :: 0 <= v < |A.reg| && A.reg[v] == x)
    && (forall i, j | 0 <= i < j < |A.usedCallee| :: A.usedCallee[i] < A.usedCallee[j])
    && (A.isLeaf <==> !HasCall(f))
  }

  ghost predicate ValidAllocation(f: Func, A: Allocation) {
    && |A.reg| == |A.spillSlot| == f.numVregs
    && Accounted(f, A)
    && exists liveIn, liveOut :: Safe(f, A, liveIn, liveOut)
  }

  // ---- which register a value gets --------------------------------------------------------

  /** The instruction writes one of the two while the other one is live behind it. */
  predicate ClashPair(i: Inst, after: set<nat>, v: nat, w: nat) {
    (Def(i) == v && Clashes(i, after, w)) || (Def(i) == w && Clashes(i, after, v))
  }

  ghost predicate ClashAt(b: Block, k: nat, out: set<nat>, v: nat, w: nat) {
    k < |b.insts| && ClashPair(b.insts[k], LiveAt(b, k + 1, out), v, w)
  }

  ghost predicate ClashIn(b: Block, from: nat, out: set<nat>, v: nat, w: nat) {
    exists k: nat :: from <= k && ClashAt(b, k, out, v, w)
  }

  /** v is a parameter, and w is another one or live at entry. */
  predicate ParamClash(params: seq<nat>, entry: set<nat>, v: nat, w: nat) {
    v in params && (w in params || w in entry) && v != w
  }

  /** One of the two is written where the other one is live, by an instruction or at entry. */
  ghost predicate Conflict(f: Func, liveIn: seq<set<nat>>, liveOut: seq<set<nat>>, v: nat, w: nat)
    requires |f.blocks| == |liveIn| == |liveOut| > 0
  {
    || (exists b :: 0 <= b < |f.blocks| && ClashIn(f.blocks[b], 0, liveOut[b], v, w))
    || ParamClash(f.params, liveIn[0], v, w) || ParamClash(f.params, liveIn[0], w, v)
  }

  ghost predicate CrossAt(b: Block, k: nat, out: set<nat>, v: nat) {
    k < |b.insts| && Crosses(b.insts[k], LiveAt(b, k + 1, out), v)
  }

  ghost predicate CrossIn(b: Block, from: nat, out: set<nat>, v: nat) {
    exists k: nat :: from <= k && CrossAt(b, k, out, v)
  }

  /** v is live across a call. */
  ghost predicate CrossesCall(f: Func, liveOut: seq<set<nat>>, v: nat)
    requires |f.blocks| == |liveOut|
  {
    exists b :: 0 <= b < |f.blocks| && CrossIn(f.blocks[b], 0, liveOut[b], v)
  }

  predicate MoveBetween(i: Inst, v: nat, w: nat) {
    i.Mv? && ((i.dst == v && i.a == Reg(w)) || (i.dst == w && i.a == Reg(v)))
  }

  ghost predicate MovesIn(b: Block, from: nat, v: nat, w: nat) {
    exists k: nat :: from <= k < |b.insts| && MoveBetween(b.insts[k], v, w)
  }

  /** Some move copies one to the other. */
  ghost predicate Partners(f: Func, v: nat, w: nat) {
    exists b :: 0 <= b < |f.blocks| && MovesIn(f.blocks[b], 0, v, w)
  }

  /** The registers for a value, in the order of preference. */
  function PoolOf(crosses: bool): seq<int> {
    if crosses then CALLEE_POOL else CALLER_POOL + CALLEE_POOL
  }

  /**
   * The greedy choice: a partner's register if one is free, else the first free
   * one of the pool, else memory.
   */
  ghost predicate Choice(pool: seq<int>, used: set<int>, near: set<int>, pick: int) {
    if exists x :: x in near && x in pool && x !in used then pick in near && pick in pool && pick !in used
    else if exists k :: 0 <= k < |pool| && pool[k] !in used then
      exists k :: 0 <= k < |pool| && pool[k] == pick && pick !in used && forall j | 0 <= j < k :: pool[j] in used
    else pick == -1
  }

  /** The numbers below nv, each once. */
  predicate Orders(order: seq<nat>, nv: nat) {
    && (forall i | 0 <= i < |order| :: order[i] < nv)
    && (forall i, j | 0 <= i < j < |order| :: order[i] != order[j])
    && (forall v: nat | v < nv :: v in order)
  }

  ghost function Conflicts(f: Func, liveIn: seq<set<nat>>, liveOut: seq<set<nat>>, v: nat): set<nat>
    requires |f.blocks| == |liveIn| == |liveOut| > 0
  {
    set w: nat | w < f.numVregs && Conflict(f, liveIn, liveOut, v, w)
  }

  /** No value has fewer conflicts than one placed after it. */
  ghost predicate BusiestFirst(f: Func, order: seq<nat>, liveIn: seq<set<nat>>, liveOut: seq<set<nat>>)
    requires |f.blocks| == |liveIn| == |liveOut| > 0
  {
    forall i, j | 0 <= i < j < |order| && order[i] < f.numVregs && order[j] < f.numVregs ::
      |Conflicts(f, liveIn, liveOut, order[i])| >= |Conflicts(f, liveIn, liveOut, order[j])|
  }

  /** Every value gets what the greedy choice gives it, those before it in the order being placed. */
  ghost predicate Greedy(f: Func, A: Allocation, order: seq<nat>, liveIn: seq<set<nat>>, liveOut: seq<set<nat>>)
    requires |f.blocks| == |liveIn| == |liveOut| > 0
  {
    forall t | 0 <= t < |order| && order[t] < |A.reg| ::
      var v, before := order[t], order[..t];
      Choice(PoolOf(CrossesCall(f, liveOut, v)),
             set w | w in before && w < |A.reg| && A.reg[w] >= 0 && Conflict(f, liveIn, liveOut, v, w) :: A.reg[w],
             set w | w in before && w < |A.reg| && A.reg[w] >= 0 && Partners(f, v, w) :: A.reg[w],
             A.reg[v])
  }

  /** Only a value all of whose registers are taken by values it conflicts with is in memory. */
  ghost predicate SpillsForced(f: Func, A: Allocation, liveIn: seq<set<nat>>, liveOut: seq<set<nat>>)
    requires |f.blocks| == |liveIn| == |liveOut| > 0
  {
    forall v: nat, x | v < |A.reg| && A.reg[v] == -1 && (if CrossesCall(f, liveOut, v) then IsCalleeSaved(x) else IsPool(x)) ::
      exists w: nat :: w < |A.reg| && A.reg[w] == x && Conflict(f, liveIn, liveOut, v, w)
  }

  /** No spill slot is without a value. */
  ghost predicate SlotsUsed(A: Allocation) {
    |A.reg| == |A.spillSlot| && forall s: nat | s < A.numSpills :: SlotUsed(A.reg, A.spillSlot, s)
  }

  ghost predicate SlotUsed(reg: seq<int>, slot: seq<int>, s: nat)
    requires |reg| == |slot|
  {
    exists v: nat :: v < |reg| && reg[v] == -1 && slot[v] == s
  }

  /**
   * The values are placed in the order of their conflicts in the code, greedily, and one
   * is in memory only if others that it conflicts with hold all its registers.
   */
  ghost predicate Frugal(f: Func, A: Allocation) {
    exists liveIn, liveOut, order ::
      && Safe(f, A, liveIn, liveOut) && Orders(order, f.numVregs) && BusiestFirst(f, order, liveIn, liveOut) && SlotsUsed(A)
      && Greedy(f, A, order, liveIn, liveOut) && SpillsForced(f, A, liveIn, liveOut)
  }

  lemma MemoryIsLast(crosses: bool, used: set<int>, near: set<int>, x: int)
    requires Choice(PoolOf(crosses), used, near, -1) && if crosses then IsCalleeSaved(x) else IsPool(x)
    ensures x in used
  {
    var pool := PoolOf(crosses);
    Pools(x);
    Pools(-1);
    var k :| 0 <= k < |pool| && pool[k] == x;
  }

  lemma ForcedByGreed(f: Func, A: Allocation, order: seq<nat>, liveIn: seq<set<nat>>, liveOut: seq<set<nat>>)
    requires |f.blocks| == |liveIn| == |liveOut| > 0 && Greedy(f, A, order, liveIn, liveOut)
    requires forall v: nat | v < |A.reg| :: v in order
    ensures SpillsForced(f, A, liveIn, liveOut)
  {
    hide Conflict, CrossesCall, Partners, Choice, PoolOf;
    forall v: nat, x | v < |A.reg| && A.reg[v] == -1 && (if CrossesCall(f, liveOut, v) then IsCalleeSaved(x) else IsPool(x))
      ensures exists w: nat :: w < |A.reg| && A.reg[w] == x && Conflict(f, liveIn, liveOut, v, w)
    {
      assert v in order;
      var t :| 0 <= t < |order| && order[t] == v;
      var before := order[..t];
      var used := set w | w in before && w < |A.reg| && A.reg[w] >= 0 && Conflict(f, liveIn, liveOut, v, w) :: A.reg[w];
      MemoryIsLast(CrossesCall(f, liveOut, v), used,
                   set w | w in before && w < |A.reg| && A.reg[w] >= 0 && Partners(f, v, w) :: A.reg[w], x);
      var w :| w in before && w < |A.reg| && A.reg[w] >= 0 && Conflict(f, liveIn, liveOut, v, w) && A.reg[w] == x;
    }
  }

  // ---- interference -----------------------------------------------------------------

  type Graph = seq<set<nat>>

  ghost predicate NodeOk(adj: Graph, a: nat)
    requires a < |adj|
  {
    forall b: nat | b in adj[a] :: b < |adj| && b != a && a in adj[b]
  }

  /** An undirected graph over the first nv numbers, without loops. */
  ghost predicate GraphOk(adj: Graph, nv: nat) {
    |adj| == nv && forall a: nat | a < nv :: NodeOk(adj, a)
  }

  lemma EdgeAdded(adj: Graph, a: nat, b: nat, r: Graph)
    requires GraphOk(adj, |adj|) && a < |adj| && b < |adj| && a != b
    requires r == adj[a := adj[a] + {b}][b := adj[b] + {a}]
    ensures GraphOk(r, |adj|)
  {
    forall x: nat | x < |adj| ensures NodeOk(r, x) {
      forall y: nat | y in r[x] ensures y < |adj| && y != x && x in r[y] {
        assert NodeOk(adj, x);
        if y in adj[x] {
          assert x in adj[y];
        } else {
          assert x == a || x == b;
          assert {x, y} == {a, b};
        }
      }
    }
  }

  method AddInterf(adj: Graph, a: nat, b: nat) returns (r: Graph)
    requires GraphOk(adj, |adj|) && a < |adj| && b < |adj|
    ensures GraphOk(r, |adj|) && Wider(adj, r)
    ensures a != b ==> b in r[a] && a in r[b]
    ensures AddsFrom(adj, r, a, {b})
  {
    r := adj;
    if a != b {
      r := r[a := adj[a] + {b}];
      r := r[b := adj[b] + {a}];
      EdgeAdded(adj, a, b, r);
    }
  }

  /** (x, y) is an edge between d and a member of vs. */
  predicate Between(d: nat, vs: set<nat>, x: nat, y: nat) {
    x != y && ((x == d && y in vs) || (y == d && x in vs))
  }

  /** All new edges are between d and members of vs. */
  ghost predicate AddsFrom(adj: Graph, r: Graph, d: nat, vs: set<nat>) {
    |r| == |adj| && forall x: nat, y: nat | x < |adj| && y in r[x] :: y in adj[x] || Between(d, vs, x, y)
  }

  lemma AddsMore(adj: Graph, r: Graph, r': Graph, d: nat, vs: set<nat>, v: nat)
    requires AddsFrom(adj, r, d, vs) && AddsFrom(r, r', d, {v}) && v in vs
    ensures AddsFrom(adj, r', d, vs)
  {
  }

  /** `for (v : todo) addInterf(d, v)`. */
  method AddAll(adj: Graph, d: nat, vs: set<nat>) returns (r: Graph)
    requires GraphOk(adj, |adj|) && d < |adj| && forall v | v in vs :: v < |adj|
    ensures GraphOk(r, |adj|) && Wider(adj, r)
    ensures forall v | v in vs && v != d :: v in r[d]
    ensures AddsFrom(adj, r, d, vs)
  {
    r := adj;
    var todo := vs;
    while todo != {}
      invariant todo <= vs
      invariant GraphOk(r, |adj|) && Wider(adj, r)
      invariant forall v | v in vs && v !in todo && v != d :: v in r[d]
      invariant AddsFrom(adj, r, d, vs)
    {
      var v :| v in todo;
      todo := todo - {v};
      ghost var before := r;
      r := AddInterf(r, d, v);
      AddsMore(adj, before, r, d, vs, v);
    }
  }

  /** No edge is lost. */
  ghost predicate Wider(adj: Graph, adj': Graph) {
    |adj'| == |adj| && forall x | 0 <= x < |adj| :: adj[x] <= adj'[x]
  }

  /** What the scan of an instruction must record. */
  ghost predicate Noted(i: Inst, after: set<nat>, adj: Graph, cross: set<nat>) {
    && (forall v: nat | Clashes(i, after, v) && 0 <= Def(i) < |adj| :: v in adj[Def(i)])
    && (forall v: nat | Crosses(i, after, v) :: v in cross)
  }

  ghost predicate Recorded(b: Block, from: nat, out: set<nat>, adj: Graph, cross: set<nat>) {
    forall k | from <= k < |b.insts| :: Noted(b.insts[k], LiveAt(b, k + 1, out), adj, cross)
  }

  lemma {:induction false} LiveAtBound(b: Block, k: nat, out: set<nat>, nv: nat)
    requires k <= |b.insts|
    requires forall j | 0 <= j < |b.insts| :: InstOk(b.insts[j], nv)
    requires forall v | v in TermUses(b.term) :: v < nv
    requires forall v | v in out :: v < nv
    ensures forall v | v in LiveAt(b, k, out) :: v < nv
    decreases |b.insts| - k
  {
    if k < |b.insts| {
      LiveAtBound(b, k + 1, out, nv);
      LiveAtStep(b, k, out);
      assert InstOk(b.insts[k], nv);
    }
  }

  lemma LiveAtStep(b: Block, k: nat, out: set<nat>)
    requires k < |b.insts|
    ensures LiveAt(b, k, out) == Uses(b.insts[k]) + Minus(LiveAt(b, k + 1, out), Def(b.insts[k]))
  {
  }

  ghost predicate Grown(adj: Graph, cross: set<nat>, adj': Graph, cross': set<nat>) {
    Wider(adj, adj') && cross <= cross'
  }

  lemma RecordedGrows(b: Block, from: nat, out: set<nat>, adj: Graph, cross: set<nat>, adj': Graph, cross': set<nat>)
    requires Recorded(b, from, out, adj, cross) && Grown(adj, cross, adj', cross')
    ensures Recorded(b, from, out, adj', cross')
  {
  }

  /** What the scan of an instruction adds, the instruction gives cause for. */
  ghost predicate Earned(i: Inst, live: set<nat>, adj: Graph, cross: set<nat>, moves: seq<seq<nat>>,
                         adj': Graph, cross': set<nat>, moves': seq<seq<nat>>) {
    && |adj| == |adj'| == |moves| == |moves'|
    && EdgesFrom(i, live, adj, adj')
    && MovesFrom(i, moves, moves')
    && (forall v | v in cross' :: v in cross || Crosses(i, live, v))
  }

  ghost predicate EdgesFrom(i: Inst, live: set<nat>, adj: Graph, adj': Graph) {
    && |adj'| == |adj|
    && forall v: nat, w: nat | v < |adj| && w in adj'[v] ::
         w in adj[v] || ClashPair(i, live, v, w)
  }

  ghost predicate MovesFrom(i: Inst, moves: seq<seq<nat>>, moves': seq<seq<nat>>) {
    |moves'| == |moves| && forall v: nat, w: nat | v < |moves| :: w in moves'[v] <==> w in moves[v] || MoveBetween(i, v, w)
  }

  lemma EdgesEarned(i: Inst, live: set<nat>, adj: Graph, adj': Graph, vs: set<nat>)
    requires Def(i) >= 0 && AddsFrom(adj, adj', Def(i), vs)
    requires forall v | v in vs :: v in live && !IsMoveFrom(i, v)
    ensures EdgesFrom(i, live, adj, adj')
  {
    forall v: nat, w: nat | v < |adj| && w in adj'[v]
      ensures w in adj[v] || ClashPair(i, live, v, w)
    {
      assert w in adj[v] || Between(Def(i), vs, v, w);
    }
  }

  lemma MovesEarned(i: Inst, moves: seq<seq<nat>>, moves': seq<seq<nat>>)
    requires i.Mv? && i.a.Reg? && 0 <= i.dst < |moves| && i.a.reg < |moves|
    requires var m1 := moves[i.dst := moves[i.dst] + [i.a.reg]]; moves' == m1[i.a.reg := m1[i.a.reg] + [i.dst as nat]]
    ensures MovesFrom(i, moves, moves')
  {
    forall v: nat, w: nat | v < |moves| ensures w in moves'[v] <==> w in moves[v] || MoveBetween(i, v, w) {
      var m1 := moves[i.dst := moves[i.dst] + [i.a.reg]];
      assert w in m1[v] <==> w in moves[v] || (v == i.dst && w == i.a.reg);
      assert w in moves'[v] <==> w in m1[v] || (v == i.a.reg && w == i.dst);
    }
  }

  /** One instruction of the backward scan. */
  method ScanInst(i: Inst, nv: nat, live: set<nat>, adj: Graph, cross: set<nat>, moves: seq<seq<nat>>)
    returns (adj': Graph, cross': set<nat>, moves': seq<seq<nat>>)
    requires GraphOk(adj, nv) && |moves| == nv && InstOk(i, nv) && forall v | v in live :: v < nv
    ensures GraphOk(adj', nv) && |moves'| == nv
    ensures Grown(adj, cross, adj', cross') && Noted(i, live, adj', cross')
    ensures Earned(i, live, adj, cross, moves, adj', cross', moves')
  {
    adj', cross', moves' := adj, cross, moves;
    var d := Def(i);
    if d >= 0 {
      var vs := live - if i.Mv? && i.a.Reg? then {i.a.reg} else {};
      adj' := AddAll(adj', d, vs);
      EdgesEarned(i, live, adj, adj', vs);
    }
    if i.Call? {
      cross' := cross' + Minus(live, d);
    }
    if i.Mv? && i.a.Reg? {
      assert i.a.reg in Uses(i) && d == i.dst;
      moves' := moves'[d := moves'[d] + [i.a.reg]];
      moves' := moves'[i.a.reg := moves'[i.a.reg] + [d as nat]];
      MovesEarned(i, moves, moves');
    } else {
      assert MovesFrom(i, moves, moves');
    }
  }

  /** What the scan of a block from instruction `from` on adds, it gives cause for. */
  ghost predicate BlockEarned(b: Block, from: nat, out: set<nat>, adj: Graph, cross: set<nat>, moves: seq<seq<nat>>,
                              adj': Graph, cross': set<nat>, moves': seq<seq<nat>>) {
    && |adj| == |adj'| == |moves| == |moves'|
    && (forall v: nat, w: nat | v < |adj| && w in adj'[v] :: w in adj[v] || ClashIn(b, from, out, v, w))
    && (forall v | v in cross' :: v in cross || CrossIn(b, from, out, v))
    && (forall v: nat, w: nat | v < |moves| :: w in moves'[v] <==> w in moves[v] || MovesIn(b, from, v, w))
  }

  lemma EarnedMore(b: Block, k: nat, out: set<nat>, adj: Graph, cross: set<nat>, moves: seq<seq<nat>>,
                   adj1: Graph, cross1: set<nat>, moves1: seq<seq<nat>>, adj2: Graph, cross2: set<nat>, moves2: seq<seq<nat>>)
    requires k < |b.insts| && BlockEarned(b, k + 1, out, adj, cross, moves, adj1, cross1, moves1)
    requires Earned(b.insts[k], LiveAt(b, k + 1, out), adj1, cross1, moves1, adj2, cross2, moves2)
    ensures BlockEarned(b, k, out, adj, cross, moves, adj2, cross2, moves2)
  {
    hide LiveAt, ClashPair, Crosses, MoveBetween;
    forall v: nat, w: nat | v < |adj| && w in adj2[v] ensures w in adj[v] || ClashIn(b, k, out, v, w) {
      if w !in adj1[v] {
        assert ClashAt(b, k, out, v, w);
      } else if w !in adj[v] {
        var j: nat :| k + 1 <= j && ClashAt(b, j, out, v, w);
      }
    }
    forall v | v in cross2 ensures v in cross || CrossIn(b, k, out, v) {
      if v !in cross1 {
        assert CrossAt(b, k, out, v);
      } else if v !in cross {
        var j: nat :| k + 1 <= j && CrossAt(b, j, out, v);
      }
    }
    forall v: nat, w: nat | v < |moves| ensures w in moves2[v] <==> w in moves[v] || MovesIn(b, k, v, w) {
      if MovesIn(b, k, v, w) {
        var j: nat :| k <= j < |b.insts| && MoveBetween(b.insts[j], v, w);
        if j > k { assert MovesIn(b, k + 1, v, w); }
      }
      if MovesIn(b, k + 1, v, w) {
        var j: nat :| k + 1 <= j < |b.insts| && MoveBetween(b.insts[j], v, w);
        assert MovesIn(b, k, v, w);
      }
      if MoveBetween(b.insts[k], v, w) { assert MovesIn(b, k, v, w); }
    }
  }

  lemma RecordedMore(b: Block, k: nat, out: set<nat>, adj: Graph, cross: set<nat>, adj': Graph, cross': set<nat>)
    requires k < |b.insts| && Recorded(b, k + 1, out, adj, cross) && Grown(adj, cross, adj', cross')
    requires Noted(b.insts[k], LiveAt(b, k + 1, out), adj', cross')
    ensures Recorded(b, k, out, adj', cross')
  {
    RecordedGrows(b, k + 1, out, adj, cross, adj', cross');
  }

  /** The backward scan of one block. */
  method ScanBlock(b: Block, nv: nat, out: set<nat>, adj: Graph, cross: set<nat>, moves: seq<seq<nat>>)
    returns (adj': Graph, cross': set<nat>, moves': seq<seq<nat>>, calls: bool)
    requires GraphOk(adj, nv) && |moves| == nv
    requires forall j | 0 <= j < |b.insts| :: InstOk(b.insts[j], nv)
    requires forall v | v in TermUses(b.term) :: v < nv
    requires forall v | v in out :: v < nv
    ensures GraphOk(adj', nv) && |moves'| == nv
    ensures Grown(adj, cross, adj', cross') && Recorded(b, 0, out, adj', cross')
    ensures calls <==> exists k :: 0 <= k < |b.insts| && b.insts[k].Call?
    ensures BlockEarned(b, 0, out, adj, cross, moves, adj', cross', moves')
  {
    adj', cross', moves', calls := adj, cross, moves, false;
    var live := out + TermUses(b.term);
    var k := |b.insts|;
    while k > 0
      invariant 0 <= k <= |b.insts|
      invariant live == LiveAt(b, k, out)
      invariant GraphOk(adj', nv) && |moves'| == nv
      invariant Grown(adj, cross, adj', cross') && Recorded(b, k, out, adj', cross')
      invariant calls <==> exists j :: k <= j < |b.insts| && b.insts[j].Call?
      invariant BlockEarned(b, k, out, adj, cross, moves, adj', cross', moves')
    {
      hide BlockEarned, Earned, Recorded, Noted, GraphOk;
      k := k - 1;
      var i := b.insts[k];
      LiveAtBound(b, k + 1, out, nv);
      LiveAtStep(b, k, out);
      ghost var adj1, cross1, moves1 := adj', cross', moves';
      adj', cross', moves' := ScanInst(i, nv, live, adj', cross', moves');
      EarnedMore(b, k, out, adj, cross, moves, adj1, cross1, moves1, adj', cross', moves');
      assert Recorded(b, k, out, adj', cross') by { RecordedMore(b, k, out, adj1, cross1, adj', cross'); }
      calls := calls || i.Call?;
      live := Uses(i) + Minus(live, Def(i));
    }
  }

  function Elements(xs: seq<nat>): set<nat> {
    set k | 0 <= k < |xs| :: xs[k]
  }

  /** The i-th parameter clashes with the others and with what is live at entry. */
  ghost predicate ParamNoted(adj: Graph, params: seq<nat>, entry: set<nat>, i: nat)
    requires i < |params|
  {
    params[i] < |adj| && forall v | v in Elements(params) + entry && v != params[i] :: v in adj[params[i]]
  }

  ghost predicate ParamsEarned(adj: Graph, r: Graph, params: seq<nat>, entry: set<nat>) {
    && |r| == |adj|
    && forall v: nat, w: nat | v < |adj| && w in r[v] :: w in adj[v] || ParamClash(params, entry, v, w) || ParamClash(params, entry, w, v)
  }

  lemma ParamsEarnedMore(adj: Graph, before: Graph, r: Graph, params: seq<nat>, entry: set<nat>, i: nat)
    requires ParamsEarned(adj, before, params, entry) && i < |params| && GraphOk(r, |adj|)
    requires AddsFrom(before, r, params[i], Elements(params[i + 1..]) + entry)
    ensures ParamsEarned(adj, r, params, entry)
  {
    var d, vs := params[i], Elements(params[i + 1..]) + entry;
    assert forall x | x in vs :: x in params || x in entry;
    forall v: nat, w: nat | v < |adj| && w in r[v]
      ensures w in adj[v] || ParamClash(params, entry, v, w) || ParamClash(params, entry, w, v)
    {
      assert w in before[v] || Between(d, vs, v, w);
    }
  }

  /** Parameters are all written at entry. */
  method AddParams(adj: Graph, params: seq<nat>, entry: set<nat>) returns (r: Graph)
    requires GraphOk(adj, |adj|) && forall i | 0 <= i < |params| :: params[i] < |adj|
    requires forall v | v in entry :: v < |adj|
    ensures GraphOk(r, |adj|) && Wider(adj, r)
    ensures forall i | 0 <= i < |params| :: ParamNoted(r, params, entry, i)
    ensures ParamsEarned(adj, r, params, entry)
  {
    r := adj;
    for i := 0 to |params|
      invariant GraphOk(r, |adj|) && Wider(adj, r)
      invariant forall k | 0 <= k < i :: LaterNoted(r, params, entry, k)
      invariant ParamsEarned(adj, r, params, entry)
    {
      ghost var before := r;
      r := AddAll(r, params[i], Elements(params[i + 1..]) + entry);
      forall k | 0 <= k < i ensures LaterNoted(r, params, entry, k) {
        assert LaterNoted(before, params, entry, k);
        assert before[params[k]] <= r[params[k]];
      }
      assert LaterNoted(r, params, entry, i);
      ParamsEarnedMore(adj, before, r, params, entry, i);
    }
    forall i | 0 <= i < |params| ensures ParamNoted(r, params, entry, i) {
      EarlierNoted(r, params, entry, i);
    }
  }

  /** The i-th parameter clashes with the later ones and with what is live at entry. */
  ghost predicate LaterNoted(adj: Graph, params: seq<nat>, entry: set<nat>, i: nat)
    requires i < |params|
  {
    params[i] < |adj| && forall v | v in Elements(params[i + 1..]) + entry && v != params[i] :: v in adj[params[i]]
  }

  lemma EarlierNoted(adj: Graph, params: seq<nat>, entry: set<nat>, i: nat)
    requires GraphOk(adj, |adj|) && i < |params|
    requires forall k | 0 <= k < |params| :: LaterNoted(adj, params, entry, k)
    ensures ParamNoted(adj, params, entry, i)
  {
    assert LaterNoted(adj, params, entry, i);
    forall v | v in Elements(params) && v != params[i] ensures v in adj[params[i]] {
      var j :| 0 <= j < |params| && params[j] == v;
      if j > i {
        assert params[i + 1..][j - i - 1] == v;
        assert v in Elements(params[i + 1..]);
      } else {
        assert LaterNoted(adj, params, entry, j);
        assert params[j + 1..][i - j - 1] == params[i];
        assert params[i] in Elements(params[j + 1..]);
        assert NodeOk(adj, v);
      }
    }
  }

  method BuildInterference(f: Func, liveIn: seq<set<nat>>, liveOut: seq<set<nat>>)
    returns (adj: Graph, cross: set<nat>, moves: seq<seq<nat>>, isLeaf: bool)
    requires FuncOk(f) && |liveIn| == |liveOut| == |f.blocks|
    requires Bounded(liveIn, f.numVregs) && Bounded(liveOut, f.numVregs)
    ensures GraphOk(adj, f.numVregs) && |moves| == f.numVregs && |liveIn| > 0
    ensures forall b | 0 <= b < |f.blocks| :: Recorded(f.blocks[b], 0, liveOut[b], adj, cross)
    ensures forall i | 0 <= i < |f.params| :: ParamNoted(adj, f.params, liveIn[0], i)
    ensures isLeaf <==> !HasCall(f)
    ensures GraphExact(f, liveIn, liveOut, adj, cross, moves)
  {
    var nv := f.numVregs;
    adj := seq(nv, _ => {});
    moves := seq(nv, _ => []);
    cross := {};
    isLeaf := true;
    assert forall a | 0 <= a < nv :: NodeOk(adj, a);
    for b := 0 to |f.blocks|
      invariant GraphOk(adj, nv) && |moves| == nv
      invariant RecordedUpTo(f, b, liveOut, adj, cross)
      invariant isLeaf <==> !exists c, k :: 0 <= c < b && 0 <= k < |f.blocks[c].insts| && f.blocks[c].insts[k].Call?
      invariant EarnedUpTo(f, b, liveOut, adj, cross, moves)
    {
      hide EarnedUpTo, RecordedUpTo, BlockEarned, Recorded, GraphOk, Grown;
      assert BlockOk(f.blocks[b], |f.blocks|, nv);
      ghost var adj0, cross0, moves0 := adj, cross, moves;
      var calls;
      adj, cross, moves, calls := ScanBlock(f.blocks[b], nv, liveOut[b], adj, cross, moves);
      RecordedNext(f, b, liveOut, adj0, cross0, adj, cross);
      EarnedNext(f, b, liveOut, adj0, cross0, moves0, adj, cross, moves);
      isLeaf := isLeaf && !calls;
    }
    ghost var adj0 := adj;
    adj := AddParams(adj, f.params, liveIn[0]);
    assert forall c | 0 <= c < |f.blocks| :: Recorded(f.blocks[c], 0, liveOut[c], adj, cross) by {
      hide GraphOk, ParamNoted, EarnedUpTo;
      RecordedStays(f, |f.blocks|, liveOut, adj0, cross, adj, cross);
    }
    hide GraphOk, Recorded, ParamNoted;
    BuiltExact(f, liveIn, liveOut, adj0, adj, cross, moves);
  }

  /** The scans of the first n blocks have recorded what they must. */
  ghost predicate RecordedUpTo(f: Func, n: nat, liveOut: seq<set<nat>>, adj: Graph, cross: set<nat>)
    requires |f.blocks| == |liveOut|
  {
    n <= |f.blocks| && forall c | 0 <= c < n :: Recorded(f.blocks[c], 0, liveOut[c], adj, cross)
  }

  lemma RecordedStays(f: Func, n: nat, liveOut: seq<set<nat>>, adj: Graph, cross: set<nat>, adj': Graph, cross': set<nat>)
    requires |f.blocks| == |liveOut| && RecordedUpTo(f, n, liveOut, adj, cross) && Grown(adj, cross, adj', cross')
    ensures RecordedUpTo(f, n, liveOut, adj', cross')
  {
    hide Recorded;
    forall c | 0 <= c < n ensures Recorded(f.blocks[c], 0, liveOut[c], adj', cross') {
      RecordedGrows(f.blocks[c], 0, liveOut[c], adj, cross, adj', cross');
    }
  }

  lemma RecordedNext(f: Func, n: nat, liveOut: seq<set<nat>>, adj: Graph, cross: set<nat>, adj': Graph, cross': set<nat>)
    requires |f.blocks| == |liveOut| && n < |f.blocks| && RecordedUpTo(f, n, liveOut, adj, cross) && Grown(adj, cross, adj', cross')
    requires Recorded(f.blocks[n], 0, liveOut[n], adj', cross')
    ensures RecordedUpTo(f, n + 1, liveOut, adj', cross')
  {
    hide Recorded;
    RecordedStays(f, n, liveOut, adj, cross, adj', cross');
  }

  /** What the scans of the first n blocks have added. */
  ghost predicate EarnedUpTo(f: Func, n: nat, liveOut: seq<set<nat>>, adj: Graph, cross: set<nat>, moves: seq<seq<nat>>)
    requires |f.blocks| == |liveOut|
  {
    && |adj| == |moves| && n <= |f.blocks|
    && (forall v: nat, w: nat | v < |adj| && w in adj[v] :: exists b :: 0 <= b < n && ClashIn(f.blocks[b], 0, liveOut[b], v, w))
    && (forall v | v in cross :: exists b :: 0 <= b < n && CrossIn(f.blocks[b], 0, liveOut[b], v))
    && (forall v: nat, w: nat | v < |moves| :: w in moves[v] <==> exists b :: 0 <= b < n && MovesIn(f.blocks[b], 0, v, w))
  }

  lemma EarnedNext(f: Func, n: nat, liveOut: seq<set<nat>>, adj: Graph, cross: set<nat>, moves: seq<seq<nat>>,
                   adj': Graph, cross': set<nat>, moves': seq<seq<nat>>)
    requires |f.blocks| == |liveOut| && n < |f.blocks| && EarnedUpTo(f, n, liveOut, adj, cross, moves)
    requires BlockEarned(f.blocks[n], 0, liveOut[n], adj, cross, moves, adj', cross', moves')
    ensures EarnedUpTo(f, n + 1, liveOut, adj', cross', moves')
  {
    hide ClashIn, CrossIn, MovesIn;
    forall v: nat, w: nat | v < |adj| && w in adj'[v] ensures exists b :: 0 <= b < n + 1 && ClashIn(f.blocks[b], 0, liveOut[b], v, w) {
      if w in adj[v] { var b :| 0 <= b < n && ClashIn(f.blocks[b], 0, liveOut[b], v, w); }
    }
    forall v | v in cross' ensures exists b :: 0 <= b < n + 1 && CrossIn(f.blocks[b], 0, liveOut[b], v) {
      if v in cross { var b :| 0 <= b < n && CrossIn(f.blocks[b], 0, liveOut[b], v); }
    }
  }

  /** Graph, crossings and partners are exactly what the code gives cause for. */
  ghost predicate GraphExact(f: Func, liveIn: seq<set<nat>>, liveOut: seq<set<nat>>, adj: Graph, cross: set<nat>, moves: seq<seq<nat>>)
    requires |f.blocks| == |liveIn| == |liveOut| > 0
  {
    && |adj| == |moves| == f.numVregs
    && (forall v: nat, w: nat | v < |adj| && w < |adj| :: w in adj[v] <==> Conflict(f, liveIn, liveOut, v, w))
    && (forall v: nat | v < |adj| :: v in cross <==> CrossesCall(f, liveOut, v))
    && (forall v: nat, w: nat | v < |moves| :: w in moves[v] <==> Partners(f, v, w))
  }

  lemma BuiltExact(f: Func, liveIn: seq<set<nat>>, liveOut: seq<set<nat>>, adj0: Graph, adj: Graph, cross: set<nat>, moves: seq<seq<nat>>)
    requires |f.blocks| == |liveIn| == |liveOut| > 0 && |moves| == f.numVregs && GraphOk(adj, f.numVregs)
    requires EarnedUpTo(f, |f.blocks|, liveOut, adj0, cross, moves) && ParamsEarned(adj0, adj, f.params, liveIn[0])
    requires forall b | 0 <= b < |f.blocks| :: Recorded(f.blocks[b], 0, liveOut[b], adj, cross)
    requires forall i | 0 <= i < |f.params| :: ParamNoted(adj, f.params, liveIn[0], i)
    ensures GraphExact(f, liveIn, liveOut, adj, cross, moves)
  {
    forall v: nat, w: nat | v < |adj| && w < |adj| ensures w in adj[v] <==> Conflict(f, liveIn, liveOut, v, w) {
      assert NodeOk(adj, v) && NodeOk(adj, w);
      if ParamClash(f.params, liveIn[0], v, w) { ParamEdge(adj, f.params, liveIn[0], v, w); }
      if ParamClash(f.params, liveIn[0], w, v) { ParamEdge(adj, f.params, liveIn[0], w, v); }
      if b :| 0 <= b < |f.blocks| && ClashIn(f.blocks[b], 0, liveOut[b], v, w) {
        ClashEdge(f.blocks[b], liveOut[b], adj, cross, v, w);
      }
    }
    forall v: nat | v < |adj| ensures v in cross <==> CrossesCall(f, liveOut, v) {
      if b :| 0 <= b < |f.blocks| && CrossIn(f.blocks[b], 0, liveOut[b], v) {
        assert Recorded(f.blocks[b], 0, liveOut[b], adj, cross);
        var k: nat :| CrossAt(f.blocks[b], k, liveOut[b], v);
        assert Noted(f.blocks[b].insts[k], LiveAt(f.blocks[b], k + 1, liveOut[b]), adj, cross);
      }
    }
  }

  lemma ParamEdge(adj: Graph, params: seq<nat>, entry: set<nat>, v: nat, w: nat)
    requires ParamClash(params, entry, v, w) && forall i | 0 <= i < |params| :: ParamNoted(adj, params, entry, i)
    ensures v < |adj| && w in adj[v]
  {
    var i :| 0 <= i < |params| && params[i] == v;
    assert ParamNoted(adj, params, entry, i);
  }

  lemma ClashEdge(b: Block, out: set<nat>, adj: Graph, cross: set<nat>, v: nat, w: nat)
    requires ClashIn(b, 0, out, v, w) && Recorded(b, 0, out, adj, cross) && v < |adj| && w < |adj|
    ensures w in adj[v] || v in adj[w]
  {
    var k: nat :| ClashAt(b, k, out, v, w);
    assert Noted(b.insts[k], LiveAt(b, k + 1, out), adj, cross);
  }

  // ---- colouring ----------------------------------------------------------------------

  /** A partner's colour if it is free, else the first free colour, else -1. */
  method PickColour(allowed: seq<int>, used: set<int>, partners: seq<int>) returns (pick: int)
    requires forall k | 0 <= k < |allowed| :: allowed[k] >= 0
    ensures Choice(allowed, used, set k | 0 <= k < |partners| && partners[k] >= 0 :: partners[k], pick)
  {
    for k := 0 to |partners|
      invariant forall j | 0 <= j < k && partners[j] >= 0 :: partners[j] in used || partners[j] !in allowed
    {
      if partners[k] >= 0 && partners[k] !in used && partners[k] in allowed {
        return partners[k];
      }
    }
    for k := 0 to |allowed|
      invariant forall j | 0 <= j < k :: allowed[j] in used
    {
      if allowed[k] !in used {
        return allowed[k];
      }
    }
    return -1;
  }

  /** v keeps clear of its neighbours and of the other spill slots. */
  ghost predicate Coloured(adj: Graph, cross: set<nat>, done: set<nat>, reg: seq<int>, slot: seq<int>, num: nat, v: nat)
    requires v < |adj| == |reg| == |slot|
  {
    && (v !in done ==> reg[v] == -1)
    && (v in done ==> IsPool(reg[v]) || (reg[v] == -1 && 0 <= slot[v] < num))
    && (v in cross ==> reg[v] == -1 || IsCalleeSaved(reg[v]))
    && (forall w: nat | w in adj[v] && w < |reg| && reg[v] >= 0 :: reg[w] != reg[v])
    && (forall w: nat | w in done && v in done && w < |reg| && w != v && reg[v] == -1 == reg[w] :: slot[v] != slot[w])
  }

  function AllVregs(nv: nat): (r: set<nat>)
    ensures forall v: nat :: v in r <==> v < nv
  {
    if nv == 0 then {} else AllVregs(nv - 1) + {nv - 1}
  }

  /** The t-th value in the order was given what its earlier neighbours and partners leave it. */
  ghost predicate ChosenAt(adj: Graph, cross: set<nat>, moves: seq<seq<nat>>, order: seq<nat>, reg: seq<int>, t: nat)
    requires |adj| == |moves| == |reg| && t < |order|
  {
    var v, before := order[t], order[..t];
    v < |reg| && Choice(PoolOf(v in cross),
                        set w | w in before && w < |reg| && reg[w] >= 0 && w in adj[v] :: reg[w],
                        set w | w in before && w < |reg| && reg[w] >= 0 && w in moves[v] :: reg[w],
                        reg[v])
  }

  lemma ChoiceRange(crosses: bool, used: set<int>, near: set<int>, pick: int)
    requires Choice(PoolOf(crosses), used, near, pick)
    ensures pick == -1 || (IsPool(pick) && pick !in used && (crosses ==> IsCalleeSaved(pick)))
  {
    Pools(pick);
  }

  /** No later value of the order has more neighbours. */
  predicate Descending(adj: Graph, order: seq<nat>) {
    forall i, j | 0 <= i < j < |order| && order[i] < |adj| && order[j] < |adj| :: |adj[order[i]]| >= |adj[order[j]]|
  }

  /** The sort; equal degrees may come in any order, here the smaller number first. */
  method ByDegree(adj: Graph) returns (order: seq<nat>)
    ensures Orders(order, |adj|) && Descending(adj, order)
  {
    order := [];
    for v := 0 to |adj|
      invariant Orders(order, v) && Descending(adj, order)
    {
      var k := 0;
      while k < |order| && |adj[order[k]]| >= |adj[v]|
        invariant 0 <= k <= |order|
        invariant forall i | 0 <= i < k :: |adj[order[i]]| >= |adj[v]|
      {
        k := k + 1;
      }
      Inserted(adj, order, v, k);
      order := Insert(order, v, k);
    }
  }

  function Insert(order: seq<nat>, v: nat, k: nat): (r: seq<nat>)
    requires k <= |order|
    ensures |r| == |order| + 1
    ensures forall i | 0 <= i < |r| :: r[i] == if i < k then order[i] else if i == k then v else order[i - 1]
  {
    order[..k] + [v] + order[k..]
  }

  lemma Inserted(adj: Graph, order: seq<nat>, v: nat, k: nat)
    requires v < |adj| && k <= |order| && Orders(order, v) && Descending(adj, order)
    requires forall i | 0 <= i < k :: |adj[order[i]]| >= |adj[v]|
    requires k < |order| ==> |adj[order[k]]| < |adj[v]|
    ensures Orders(Insert(order, v, k), v + 1) && Descending(adj, Insert(order, v, k))
  {
    var r := Insert(order, v, k);
    assert Orders(r, v + 1) by { InsertedOrders(order, v, k); }
    hide Insert;
    forall i, j | 0 <= i < j < |r| ensures |adj[r[i]]| >= |adj[r[j]]| {
      var i', j' := if i < k then i else i - 1, if j < k then j else j - 1;
      if i != k && j != k { assert |adj[order[i']]| >= |adj[order[j']]|; }
      if i == k && j' > k { assert |adj[order[k]]| >= |adj[order[j']]|; }
    }
  }

  lemma InsertedOrders(order: seq<nat>, v: nat, k: nat)
    requires k <= |order| && Orders(order, v)
    ensures Orders(Insert(order, v, k), v + 1)
  {
    var r := Insert(order, v, k);
    hide Insert;
    forall w: nat | w < v + 1 ensures w in r {
      if w < v {
        assert w in order;
        var i :| 0 <= i < |order| && order[i] == w;
        assert r[if i < k then i else i + 1] == w;
      } else {
        assert r[k] == v;
      }
    }
  }

  /** v's choice, with the registers that its neighbours and its partners have so far. */
  ghost predicate Picked(adj: Graph, cross: set<nat>, moves: seq<seq<nat>>, reg: seq<int>, v: nat, pick: int)
    requires v < |adj| == |moves| == |reg|
  {
    Choice(PoolOf(v in cross), set w | w in adj[v] && w < |reg| && reg[w] >= 0 :: reg[w],
           set w | w in moves[v] && w < |reg| && reg[w] >= 0 :: reg[w], pick)
  }

  method PickFor(adj: Graph, cross: set<nat>, moves: seq<seq<nat>>, reg: seq<int>, v: nat) returns (pick: int)
    requires v < |adj| == |moves| == |reg|
    ensures Picked(adj, cross, moves, reg, v, pick)
  {
    var used := set w | w in adj[v] && w < |reg| && reg[w] >= 0 :: reg[w];
    var partners := seq(|moves[v]|, k requires 0 <= k < |moves[v]| => if moves[v][k] < |reg| then reg[moves[v][k]] else -1);
    PoolNat(v in cross);
    pick := PickColour(PoolOf(v in cross), used, partners);
    hide Choice, PoolOf;
    PartnersNear(moves[v], reg, partners);
  }

  lemma PartnersNear(ms: seq<nat>, reg: seq<int>, partners: seq<int>)
    requires |partners| == |ms| && forall k | 0 <= k < |ms| :: partners[k] == if ms[k] < |reg| then reg[ms[k]] else -1
    ensures (set k | 0 <= k < |partners| && partners[k] >= 0 :: partners[k]) == (set w | w in ms && w < |reg| && reg[w] >= 0 :: reg[w])
  {
    var near, near' := set k | 0 <= k < |partners| && partners[k] >= 0 :: partners[k], set w | w in ms && w < |reg| && reg[w] >= 0 :: reg[w];
    forall x | x in near ensures x in near' {
      var k :| 0 <= k < |partners| && partners[k] >= 0 && partners[k] == x;
      assert ms[k] in ms && reg[ms[k]] == x;
    }
    forall x | x in near' ensures x in near {
      var w :| w in ms && w < |reg| && reg[w] >= 0 && reg[w] == x;
      var k :| 0 <= k < |ms| && ms[k] == w;
      assert partners[k] == x;
    }
  }

  /** The value just placed; all placed values are earlier ones. */
  lemma ChosenNow(adj: Graph, cross: set<nat>, moves: seq<seq<nat>>, order: seq<nat>, reg: seq<int>, t: nat, pick: int, reg': seq<int>)
    requires t < |order| && order[t] < |adj| == |moves| == |reg|
    requires reg' == if pick < 0 then reg else reg[order[t] := pick]
    requires forall s | 0 <= s < t :: order[s] != order[t]
    requires forall w: nat | w < |reg| && w !in order[..t] :: reg[w] == -1
    requires Picked(adj, cross, moves, reg, order[t], pick) && (pick < 0 ==> pick == -1)
    ensures ChosenAt(adj, cross, moves, order, reg', t)
  {
    hide Choice, PoolOf;
    var v, before := order[t], order[..t];
    assert v !in before;
    assert reg'[v] == pick by { assert reg[v] == -1; }
    assert forall w: nat | w < |reg| && reg[w] >= 0 :: w in before && reg'[w] == reg[w];
    assert forall w: nat | w in before && w < |reg| :: reg'[w] == reg[w];
    assert (set w | w in before && w < |reg| && reg'[w] >= 0 && w in adj[v] :: reg'[w])
           == (set w | w in adj[v] && w < |reg| && reg[w] >= 0 :: reg[w]) by { OnlyPlaced(adj[v], before, reg, reg'); }
    assert (set w | w in before && w < |reg| && reg'[w] >= 0 && w in moves[v] :: reg'[w])
           == (set w | w in moves[v] && w < |reg| && reg[w] >= 0 :: reg[w]) by {
      var ms := set w | w in moves[v];
      OnlyPlaced(ms, before, reg, reg');
      assert (set w | w in before && w < |reg| && reg'[w] >= 0 && w in moves[v] :: reg'[w])
             == (set w | w in before && w < |reg| && reg'[w] >= 0 && w in ms :: reg'[w]);
      assert (set w | w in moves[v] && w < |reg| && reg[w] >= 0 :: reg[w]) == (set w | w in ms && w < |reg| && reg[w] >= 0 :: reg[w]);
    }
  }

  lemma OnlyPlaced(near: set<nat>, before: seq<nat>, reg: seq<int>, reg': seq<int>)
    requires |reg'| == |reg| && forall w: nat | w < |reg| && reg[w] >= 0 :: w in before && reg'[w] == reg[w]
    requires forall w: nat | w in before && w < |reg| :: reg'[w] == reg[w]
    ensures (set w | w in before && w < |reg| && reg'[w] >= 0 && w in near :: reg'[w])
            == (set w | w in near && w < |reg| && reg[w] >= 0 :: reg[w])
  {
    var a, b := set w | w in before && w < |reg| && reg'[w] >= 0 && w in near :: reg'[w], set w | w in near && w < |reg| && reg[w] >= 0 :: reg[w];
    forall x | x in a ensures x in b {
      var w :| w in before && w < |reg| && reg'[w] >= 0 && w in near && reg'[w] == x;
    }
    forall x | x in b ensures x in a {
      var w :| w in near && w < |reg| && reg[w] >= 0 && reg[w] == x;
      assert w in before && reg'[w] == x;
    }
  }

  /** Earlier choices do not depend on later values. */
  lemma ChosenBefore(adj: Graph, cross: set<nat>, moves: seq<seq<nat>>, order: seq<nat>, reg: seq<int>, t: nat, reg': seq<int>)
    requires |adj| == |moves| == |reg| && t < |order| && order[t] < |reg|
    requires forall i, j | 0 <= i < j < |order| :: order[i] != order[j]
    requires forall s | 0 <= s < t :: ChosenAt(adj, cross, moves, order, reg, s)
    requires |reg'| == |reg| && forall w: nat | w < |reg| && w != order[t] :: reg'[w] == reg[w]
    ensures forall s | 0 <= s < t :: ChosenAt(adj, cross, moves, order, reg', s)
  {
    hide Choice, PoolOf;
    forall s | 0 <= s < t ensures ChosenAt(adj, cross, moves, order, reg', s) {
      var v, before := order[s], order[..s];
      assert ChosenAt(adj, cross, moves, order, reg, s);
      forall w | w in before ensures w != order[t] {
        var i :| 0 <= i < s && before[i] == w;
      }
      assert (set w | w in before && w < |reg| && reg'[w] >= 0 && w in adj[v] :: reg'[w])
             == (set w | w in before && w < |reg| && reg[w] >= 0 && w in adj[v] :: reg[w]);
      assert (set w | w in before && w < |reg| && reg'[w] >= 0 && w in moves[v] :: reg'[w])
             == (set w | w in before && w < |reg| && reg[w] >= 0 && w in moves[v] :: reg[w]);
    }
  }

  /** After t turns: the first t values of the order are placed, each by its choice. */
  ghost predicate Stage(adj: Graph, cross: set<nat>, moves: seq<seq<nat>>, order: seq<nat>, t: nat,
                        reg: seq<int>, slot: seq<int>, num: nat)
    requires |adj| == |moves| == |reg| == |slot| && t <= |order|
  {
    && (forall v: nat | v < |reg| :: Coloured(adj, cross, Elements(order[..t]), reg, slot, num, v))
    && (forall v: nat | v < |reg| && v !in order[..t] :: reg[v] == -1)
    && (forall s | 0 <= s < t :: ChosenAt(adj, cross, moves, order, reg, s))
    && AllTaken(reg, slot, order[..t], num)
  }

  ghost predicate AllTaken(reg: seq<int>, slot: seq<int>, done: seq<nat>, num: nat)
    requires |reg| == |slot|
  {
    forall s: nat | s < num :: SlotTaken(reg, slot, done, s)
  }

  ghost predicate SlotTaken(reg: seq<int>, slot: seq<int>, done: seq<nat>, s: nat)
    requires |reg| == |slot|
  {
    exists v :: v in done && v < |reg| && reg[v] == -1 && slot[v] == s
  }

  lemma SlotsNext(reg: seq<int>, slot: seq<int>, num: nat, done: seq<nat>, v: nat, reg': seq<int>, slot': seq<int>, num': nat)
    requires |reg| == |slot| == |reg'| == |slot'| && v < |reg| && v !in done && reg[v] == -1 && AllTaken(reg, slot, done, num)
    requires forall w: nat | w < |reg| && w != v :: reg'[w] == reg[w] && slot'[w] == slot[w]
    requires num' == num || (num' == num + 1 && reg'[v] == -1 && slot'[v] == num)
    ensures AllTaken(reg', slot', done + [v], num')
  {
    assert (done + [v])[|done|] == v;
    forall s: nat | s < num' ensures SlotTaken(reg', slot', done + [v], s) {
      if s < num {
        assert SlotTaken(reg, slot, done, s);
        var w :| w in done && w < |reg| && reg[w] == -1 && slot[w] == s;
        assert w in done + [v] && reg'[w] == -1 && slot'[w] == s;
      }
    }
  }

  method Colour(nv: nat, adj: Graph, cross: set<nat>, moves: seq<seq<nat>>, order: seq<nat>)
    returns (reg: seq<int>, slot: seq<int>, num: nat)
    requires GraphOk(adj, nv) && |moves| == nv && Orders(order, nv)
    ensures |reg| == |slot| == nv
    ensures forall v: nat | v < nv :: Coloured(adj, cross, AllVregs(nv), reg, slot, num, v)
    ensures forall t | 0 <= t < |order| :: ChosenAt(adj, cross, moves, order, reg, t)
    ensures forall s: nat | s < num :: SlotUsed(reg, slot, s)
  {
    assert GraphOk(adj, |adj|) && |adj| == nv;
    hide Stage, GraphOk, Picked, Coloured, ChosenAt, AllVregs, SlotUsed, Orders;
    reg := seq(nv, _ => -1);
    slot := seq(nv, _ => -1);
    num := 0;
    StageStart(adj, cross, moves, order, reg, slot);
    for t := 0 to |order|
      invariant |reg| == |slot| == nv
      invariant Stage(adj, cross, moves, order, t, reg, slot, num)
    {
      OrdersAt(order, nv, t);
      var v := order[t];
      var pick := PickFor(adj, cross, moves, reg, v);
      ghost var reg0, slot0, num0 := reg, slot, num;
      if pick < 0 {
        slot := slot[v := num];
        num := num + 1;
      } else {
        reg := reg[v := pick];
      }
      StageStep(adj, cross, moves, order, t, reg0, slot0, num0, pick, reg, slot, num);
    }
    StageDone(adj, cross, moves, order, reg, slot, num);
  }

  lemma StageStart(adj: Graph, cross: set<nat>, moves: seq<seq<nat>>, order: seq<nat>, reg: seq<int>, slot: seq<int>)
    requires |adj| == |moves| == |reg| == |slot| && forall v: nat | v < |reg| :: reg[v] == -1
    ensures Stage(adj, cross, moves, order, 0, reg, slot, 0)
  {
    assert Elements(order[..0]) == {};
    forall v: nat | v < |reg| ensures Coloured(adj, cross, Elements(order[..0]), reg, slot, 0, v) {
      assert forall w: nat | w in adj[v] && w < |reg| :: reg[w] == -1;
    }
  }

  lemma StageDone(adj: Graph, cross: set<nat>, moves: seq<seq<nat>>, order: seq<nat>, reg: seq<int>, slot: seq<int>, num: nat)
    requires |adj| == |moves| == |reg| == |slot| && Orders(order, |reg|) && Stage(adj, cross, moves, order, |order|, reg, slot, num)
    ensures forall v: nat | v < |reg| :: Coloured(adj, cross, AllVregs(|reg|), reg, slot, num, v)
    ensures forall t | 0 <= t < |order| :: ChosenAt(adj, cross, moves, order, reg, t)
    ensures forall s: nat | s < num :: SlotUsed(reg, slot, s)
  {
    hide Coloured, ChosenAt, Orders, AllVregs;
    assert order[..|order|] == order;
    OrdersAll(order, |reg|);
    forall s: nat | s < num ensures SlotUsed(reg, slot, s) {
      assert SlotTaken(reg, slot, order[..|order|], s);
    }
  }

  lemma OrdersAt(order: seq<nat>, nv: nat, t: nat)
    requires Orders(order, nv) && t < |order|
    ensures order[t] < nv
  {
  }

  lemma OrdersAll(order: seq<nat>, nv: nat)
    requires Orders(order, nv)
    ensures Elements(order) == AllVregs(nv)
  {
    forall v: nat | v < nv ensures v in Elements(order) {
      assert v in order;
      var k :| 0 <= k < |order| && order[k] == v;
    }
  }

  lemma PoolNat(crosses: bool)
    ensures forall k | 0 <= k < |PoolOf(crosses)| :: PoolOf(crosses)[k] >= 0
  {
  }

  lemma StageStep(adj: Graph, cross: set<nat>, moves: seq<seq<nat>>, order: seq<nat>, t: nat,
                  reg: seq<int>, slot: seq<int>, num: nat, pick: int, reg': seq<int>, slot': seq<int>, num': nat)
    requires |adj| == |moves| == |reg| == |slot| && t < |order| && GraphOk(adj, |adj|) && Orders(order, |reg|)
    requires Stage(adj, cross, moves, order, t, reg, slot, num)
    requires order[t] < |reg| && Picked(adj, cross, moves, reg, order[t], pick)
    requires if pick < 0 then reg' == reg && slot' == slot[order[t] := num] && num' == num + 1
             else reg' == reg[order[t] := pick] && slot' == slot && num' == num
    ensures Stage(adj, cross, moves, order, t + 1, reg', slot', num')
  {
    hide Choice, PoolOf, ChosenAt, GraphOk, Coloured, AllTaken;
    var v, used := order[t], set w | w in adj[order[t]] && w < |reg| && reg[w] >= 0 :: reg[w];
    assert order[..t + 1] == order[..t] + [v];
    assert v !in Elements(order[..t]);
    ChoiceRange(v in cross, used, set w | w in moves[v] && w < |reg| && reg[w] >= 0 :: reg[w], pick);
    SlotsNext(reg, slot, num, order[..t], v, reg', slot', num');
    ChosenNow(adj, cross, moves, order, reg, t, pick, reg');
    ChosenBefore(adj, cross, moves, order, reg, t, reg');
    ColourStep(adj, cross, Elements(order[..t]), reg, slot, num, v, pick, used, reg', slot', num');
    assert Elements(order[..t + 1]) == Elements(order[..t]) + {v} by { ElementsSnoc(order[..t], v); }
  }

  lemma ElementsSnoc(xs: seq<nat>, x: nat)
    ensures Elements(xs + [x]) == Elements(xs) + {x}
  {
    assert (xs + [x])[|xs|] == x;
    assert forall k | 0 <= k < |xs| :: (xs + [x])[k] == xs[k];
  }

  /** Placing one more vreg keeps every one clear of the others. */
  lemma ColourStep(adj: Graph, cross: set<nat>, done: set<nat>, reg: seq<int>, slot: seq<int>, num: nat,
                   v: nat, pick: int, used: set<int>, reg': seq<int>, slot': seq<int>, num': nat)
    requires GraphOk(adj, |adj|) && |adj| == |reg| == |slot| && v < |reg| && v !in done
    requires forall w: nat | w < |reg| :: Coloured(adj, cross, done, reg, slot, num, w)
    requires forall w: nat | w in adj[v] && w < |reg| && reg[w] >= 0 :: reg[w] in used
    requires pick == -1 || (IsPool(pick) && pick !in used && (v in cross ==> IsCalleeSaved(pick)))
    requires if pick < 0 then reg' == reg && slot' == slot[v := num] && num' == num + 1
             else reg' == reg[v := pick] && slot' == slot && num' == num
    ensures forall w: nat | w < |reg| :: Coloured(adj, cross, done + {v}, reg', slot', num', w)
  {
    forall w: nat | w < |reg| ensures Coloured(adj, cross, done + {v}, reg', slot', num', w) {
      assert Coloured(adj, cross, done, reg, slot, num, w);
      assert Coloured(adj, cross, done, reg, slot, num, v);
      assert NodeOk(adj, w) && NodeOk(adj, v);
      forall x: nat | x in adj[w] && x < |reg| && reg'[w] >= 0 ensures reg'[x] != reg'[w] {
        if x == v { assert w in adj[v]; }
      }
      forall x: nat | x in done + {v} && w in done + {v} && x < |reg| && x != w && reg'[w] == -1 == reg'[x]
        ensures slot'[w] != slot'[x]
      {
        if x in done { assert Coloured(adj, cross, done, reg, slot, num, x); }
      }
    }
  }

  method UsedCallee(reg: seq<int>) returns (used: seq<int>)
    ensures forall x :: x in used <==> IsCalleeSaved(x) && exists v :: 0 <= v < |reg| && reg[v] == x
    ensures forall i, j | 0 <= i < j < |used| :: used[i] < used[j]
  {
    used := [];
    for x := 0 to 32
      invariant forall y :: y in used <==> y < x && IsCalleeSaved(y) && exists v :: 0 <= v < |reg| && reg[v] == y
      invariant forall i, j | 0 <= i < j < |used| :: used[i] < used[j]
    {
      if IsCalleeSaved(x) && x in reg {
        assert forall i | 0 <= i < |used| :: used[i] in used;
        used := used + [x];
      }
    }
  }

  lemma SolvedBounded(f: Func, liveIn: seq<set<nat>>, liveOut: seq<set<nat>>)
    requires FuncOk(f) && SuccsIn(f) && |liveIn| == |liveOut| == |f.blocks|
    requires forall b | 0 <= b < |f.blocks| :: Solved(f, b, liveIn, liveOut)
    requires Bounded(liveIn, f.numVregs)
    ensures Bounded(liveOut, f.numVregs)
  {
    forall b, v | 0 <= b < |f.blocks| && v in liveOut[b] ensures v < f.numVregs {
      assert Solved(f, b, liveIn, liveOut);
      OutOfBound(Succs(f.blocks[b].term), liveIn, f.numVregs);
    }
  }

  /** `allocateRegisters`. */
  method AllocateRegisters(f: Func) returns (A: Allocation)
    requires FuncOk(f)
    ensures ValidAllocation(f, A) && Frugal(f, A)
  {
    var liveIn, liveOut := Analyze(f);
    assert forall b | 0 <= b < |f.blocks| :: Justified(f, b, liveIn);
    LiveBounded(f, liveIn);
    SolvedBounded(f, liveIn, liveOut);
    var adj, cross, moves, isLeaf := BuildInterference(f, liveIn, liveOut);
    var order := ByDegree(adj);
    var reg, slot, num := Colour(f.numVregs, adj, cross, moves, order);
    var used := UsedCallee(reg);
    A := Allocation(reg, slot, num, used, isLeaf);
    ColouringSafe(f, A, adj, cross, liveIn, liveOut);
    ChosenGreedy(f, A, adj, cross, moves, order, liveIn, liveOut);
    ForcedByGreed(f, A, order, liveIn, liveOut);
    DegreesExact(f, adj, cross, moves, order, liveIn, liveOut);
  }

  lemma DegreesExact(f: Func, adj: Graph, cross: set<nat>, moves: seq<seq<nat>>, order: seq<nat>,
                     liveIn: seq<set<nat>>, liveOut: seq<set<nat>>)
    requires |f.blocks| == |liveIn| == |liveOut| > 0 && GraphOk(adj, f.numVregs) && Descending(adj, order)
    requires GraphExact(f, liveIn, liveOut, adj, cross, moves)
    ensures BusiestFirst(f, order, liveIn, liveOut)
  {
    hide Conflict, CrossesCall, Partners;
    forall i, j | 0 <= i < j < |order| && order[i] < f.numVregs && order[j] < f.numVregs
      ensures |Conflicts(f, liveIn, liveOut, order[i])| >= |Conflicts(f, liveIn, liveOut, order[j])|
    {
      assert NodeOk(adj, order[i]) && NodeOk(adj, order[j]);
      assert Conflicts(f, liveIn, liveOut, order[i]) == adj[order[i]];
      assert Conflicts(f, liveIn, liveOut, order[j]) == adj[order[j]];
    }
  }

  lemma ChosenGreedy(f: Func, A: Allocation, adj: Graph, cross: set<nat>, moves: seq<seq<nat>>, order: seq<nat>,
                     liveIn: seq<set<nat>>, liveOut: seq<set<nat>>)
    requires |f.blocks| == |liveIn| == |liveOut| > 0 && GraphExact(f, liveIn, liveOut, adj, cross, moves) && |A.reg| == f.numVregs
    requires forall t | 0 <= t < |order| :: order[t] < f.numVregs && ChosenAt(adj, cross, moves, order, A.reg, t)
    ensures Greedy(f, A, order, liveIn, liveOut)
  {
    hide Choice, PoolOf, Conflict, CrossesCall, Partners;
    forall t | 0 <= t < |order| && order[t] < |A.reg|
      ensures var v, before := order[t], order[..t];
              Choice(PoolOf(CrossesCall(f, liveOut, v)),
                     set w | w in before && w < |A.reg| && A.reg[w] >= 0 && Conflict(f, liveIn, liveOut, v, w) :: A.reg[w],
                     set w | w in before && w < |A.reg| && A.reg[w] >= 0 && Partners(f, v, w) :: A.reg[w], A.reg[v])
    {
      var v, before := order[t], order[..t];
      assert ChosenAt(adj, cross, moves, order, A.reg, t);
      assert (set w | w in before && w < |A.reg| && A.reg[w] >= 0 && Conflict(f, liveIn, liveOut, v, w) :: A.reg[w])
             == (set w | w in before && w < |A.reg| && A.reg[w] >= 0 && w in adj[v] :: A.reg[w]);
      assert (set w | w in before && w < |A.reg| && A.reg[w] >= 0 && Partners(f, v, w) :: A.reg[w])
             == (set w | w in before && w < |A.reg| && A.reg[w] >= 0 && w in moves[v] :: A.reg[w]);
    }
  }

  lemma LiveBounded(f: Func, liveIn: seq<set<nat>>)
    requires FuncOk(f) && |liveIn| == |f.blocks|
    requires forall b, v | 0 <= b < |f.blocks| :: v in liveIn[b] ==> LiveFrom(f, b, v)
    ensures Bounded(liveIn, f.numVregs)
  {
    forall b, v | 0 <= b < |f.blocks| && v in liveIn[b] ensures v < f.numVregs {
      assert LiveFrom(f, b, v);
      var p: seq<nat> :| LivePath(f, p, v) && p[0] == b;
      var c := p[|p| - 1];
      assert BlockOk(f.blocks[c], |f.blocks|, f.numVregs);
      UseBound(f.blocks[c].insts, f.blocks[c].term, f.numVregs);
    }
  }

  /** A colouring of the interference graph is safe. */
  lemma ColouringSafe(f: Func, A: Allocation, adj: Graph, cross: set<nat>, liveIn: seq<set<nat>>, liveOut: seq<set<nat>>)
    requires FuncOk(f) && SuccsIn(f) && |liveIn| == |liveOut| == |f.blocks|
    requires Bounded(liveIn, f.numVregs) && Bounded(liveOut, f.numVregs)
    requires forall b | 0 <= b < |f.blocks| :: Solved(f, b, liveIn, liveOut) && Justified(f, b, liveIn)
    requires GraphOk(adj, f.numVregs) && |A.reg| == |A.spillSlot| == f.numVregs
    requires forall b | 0 <= b < |f.blocks| :: Recorded(f.blocks[b], 0, liveOut[b], adj, cross)
    requires forall i | 0 <= i < |f.params| :: ParamNoted(adj, f.params, liveIn[0], i)
    requires forall v: nat | v < f.numVregs ::
               Coloured(adj, cross, AllVregs(f.numVregs), A.reg, A.spillSlot, A.numSpills, v)
    ensures Safe(f, A, liveIn, liveOut)
  {
    var nv := f.numVregs;
    forall v: nat, w: nat | v < nv && w < nv && w in adj[v] ensures Placed(A, v) && Placed(A, w) && Apart(A, v, w) {
      assert Coloured(adj, cross, AllVregs(nv), A.reg, A.spillSlot, A.numSpills, v);
      assert Coloured(adj, cross, AllVregs(nv), A.reg, A.spillSlot, A.numSpills, w);
      assert NodeOk(adj, v);
    }
    forall v | 0 <= v < nv ensures Placed(A, v) {
      assert Coloured(adj, cross, AllVregs(nv), A.reg, A.spillSlot, A.numSpills, v);
    }
    forall b, k | 0 <= b < |f.blocks| && 0 <= k < |f.blocks[b].insts|
      ensures InstSafe(A, nv, f.blocks[b].insts[k], LiveAt(f.blocks[b], k + 1, liveOut[b]))
    {
      var i := f.blocks[b].insts[k];
      assert BlockOk(f.blocks[b], |f.blocks|, nv);
      assert InstOk(i, nv);
      LiveAtBound(f.blocks[b], k + 1, liveOut[b], nv);
      assert Noted(i, LiveAt(f.blocks[b], k + 1, liveOut[b]), adj, cross);
      assert forall v: nat | v < nv && Clashes(i, LiveAt(f.blocks[b], k + 1, liveOut[b]), v) :: v in adj[Def(i)];
      forall v: nat | v < nv && Crosses(i, LiveAt(f.blocks[b], k + 1, liveOut[b]), v)
        ensures A.reg[v] == -1 || IsCalleeSaved(A.reg[v])
      {
        assert Coloured(adj, cross, AllVregs(nv), A.reg, A.spillSlot, A.numSpills, v);
      }
    }
    forall i, v: nat | 0 <= i < |f.params| && (v in f.params || v in liveIn[0]) && f.params[i] < nv && v < nv && v != f.params[i]
      ensures Apart(A, f.params[i], v)
    {
      assert ParamNoted(adj, f.params, liveIn[0], i);
      assert v in Elements(f.params) + liveIn[0];
    }
  }
}
