/** Predecessors, iterative dominators and natural loops of the control-flow graph. */
module Dominators {
  import opened IR
  import opened RegAlloc

  ghost predicate Edge(f: Func, p: nat, b: nat) {
    p < |f.blocks| && b < |f.blocks| && b in Succs(f.blocks[p].term)
  }

  /** A path along the edges of the graph. */
  ghost predicate Walk(f: Func, p: seq<nat>) {
    && |p| > 0 && p[0] < |f.blocks|
    && forall i | 0 <= i < |p| - 1 :: Edge(f, p[i], p[i + 1])
  }

  ghost predicate WalkTo(f: Func, p: seq<nat>, b: nat) {
    Walk(f, p) && p[0] == 0 && p[|p| - 1] == b
  }

  ghost predicate Reachable(f: Func, b: nat) {
    exists p: seq<nat> :: WalkTo(f, p, b)
  }

  /** Every path from the entry to b contains v. */
  ghost predicate Dominates(f: Func, v: nat, b: nat) {
    forall p: seq<nat> | WalkTo(f, p, b) :: v in p
  }

  type Preds = seq<seq<nat>>

  ghost predicate PredsOf(f: Func, preds: Preds) {
    |preds| == |f.blocks| && forall b, p: nat | 0 <= b < |f.blocks| :: p in preds[b] <==> Edge(f, p, b)
  }

  /** The edges out of the first n blocks are recorded. */
  ghost predicate PredsUpTo(f: Func, preds: Preds, n: nat) {
    |preds| == |f.blocks| && forall b, p: nat | 0 <= b < |f.blocks| :: p in preds[b] <==> p < n && Edge(f, p, b)
  }

  /** A block that ends in a jump is listed once with its target. */
  ghost predicate JumpsOnce(f: Func, preds: Preds) {
    forall b, i, j | 0 <= b < |preds| && 0 <= i < j < |preds[b]| && preds[b][i] == preds[b][j] ::
      preds[b][i] < |f.blocks| && !f.blocks[preds[b][i]].term.Jmp?
  }

  /** `computeCFG`. */
  method ComputeCFG(f: Func) returns (preds: Preds)
    requires FuncOk(f)
    ensures PredsOf(f, preds) && JumpsOnce(f, preds)
  {
    preds := seq(|f.blocks|, _ => []);
    for n := 0 to |f.blocks|
      invariant PredsUpTo(f, preds, n) && JumpsOnce(f, preds)
    {
      assert BlockOk(f.blocks[n], |f.blocks|, f.numVregs);
      var succs := Succs(f.blocks[n].term);
      ghost var before := preds;
      for i := 0 to |succs|
        invariant |preds| == |f.blocks| && JumpsOnce(f, preds)
        invariant forall b, p: nat | 0 <= b < |f.blocks| :: p in preds[b] <==> p in before[b] || (p == n && b in succs[..i])
      {
        var s := succs[i];
        assert s in succs;
        assert succs[..i + 1] == succs[..i] + [s];
        assert n in preds[s] ==> i > 0;
        preds := preds[s := preds[s] + [n]];
      }
      assert succs[..|succs|] == succs;
    }
  }

  // ---- dominators ------------------------------------------------------------------------------

  function AllBlocks(n: nat): set<nat> {
    AllVregs(n)
  }

  /** The blocks in dom[p] for every p of the list. */
  function Meet(ps: seq<nat>, dom: seq<set<nat>>, n: nat): (r: set<nat>)
    requires forall i | 0 <= i < |ps| :: ps[i] < |dom|
  {
    if ps == [] then AllBlocks(n) else dom[ps[0]] * Meet(ps[1..], dom, n)
  }

  /** What a visit of block b computes. */
  function NewDom(preds: Preds, dom: seq<set<nat>>, b: nat): set<nat>
    requires b < |preds| == |dom| && forall i | 0 <= i < |preds[b]| :: preds[b][i] < |dom|
  {
    if preds[b] == [] then {b} else Meet(preds[b], dom, |dom|) + {b}
  }

  lemma {:induction false} MeetMember(ps: seq<nat>, dom: seq<set<nat>>, n: nat, v: nat)
    requires forall i | 0 <= i < |ps| :: ps[i] < |dom|
    ensures v in Meet(ps, dom, n) <==> v < n && forall p | p in ps :: v in dom[p]
  {
    if ps != [] {
      MeetMember(ps[1..], dom, n, v);
      assert ps == [ps[0]] + ps[1..];
    }
  }

  ghost predicate PredsIn(preds: Preds) {
    forall b, i | 0 <= b < |preds| && 0 <= i < |preds[b]| :: preds[b][i] < |preds|
  }

  lemma PredsOfIn(f: Func, preds: Preds)
    requires PredsOf(f, preds)
    ensures PredsIn(preds)
  {
    forall b, i | 0 <= b < |preds| && 0 <= i < |preds[b]| ensures preds[b][i] < |preds| {
      assert preds[b][i] in preds[b];
      assert Edge(f, preds[b][i], b);
    }
  }

  /** Above the solution: revisiting a block can only take dominators away. */
  ghost predicate Shrinking(preds: Preds, dom: seq<set<nat>>)
    requires PredsIn(preds) && |dom| == |preds|
  {
    && (forall b, v | 0 <= b < |dom| && v in dom[b] :: v < |dom|)
    && (forall b | 0 < b < |dom| :: NewDom(preds, dom, b) <= dom[b])
  }

  lemma VisitShrinks(preds: Preds, dom: seq<set<nat>>, b: nat)
    requires PredsIn(preds) && |dom| == |preds| && Shrinking(preds, dom) && 0 < b < |dom|
    ensures Shrinking(preds, dom[b := NewDom(preds, dom, b)])
  {
    var nd, dom' := NewDom(preds, dom, b), dom[b := NewDom(preds, dom, b)];
    forall c | 0 < c < |dom| ensures NewDom(preds, dom', c) <= dom'[c] {
      forall v | v in NewDom(preds, dom', c) ensures v in NewDom(preds, dom, c) {
        if preds[c] != [] {
          MeetMember(preds[c], dom', |dom|, v);
          MeetMember(preds[c], dom, |dom|, v);
        }
      }
    }
    forall c, v | 0 <= c < |dom| && v in dom'[c] ensures v < |dom| {
      if c == b { assert v in dom[b]; }
    }
  }

  /** At a fixpoint no block is reported that some path avoids. */
  lemma {:induction false} FixpointSound(f: Func, preds: Preds, dom: seq<set<nat>>, p: seq<nat>, v: nat)
    requires PredsOf(f, preds) && PredsIn(preds) && |dom| == |preds| && |dom| > 0 && dom[0] == {0}
    requires forall b | 0 < b < |dom| :: NewDom(preds, dom, b) == dom[b]
    requires Walk(f, p) && p[0] == 0 && p[|p| - 1] < |dom| && v in dom[p[|p| - 1]]
    ensures v in p
    decreases |p|
  {
    var n := |p| - 1;
    var b := p[n];
    if v != b {
      if n > 0 {
        assert Edge(f, p[n - 1], p[n]);
        assert p[n - 1] in preds[b];
        if b > 0 {
          MeetMember(preds[b], dom, |dom|, v);
          assert v in dom[p[n - 1]];
          assert forall i | 0 <= i < |p[..n]| - 1 :: Edge(f, p[..n][i], p[..n][i + 1]);
          FixpointSound(f, preds, dom, p[..n], v);
        }
      }
    }
  }

  /** True dominators are never taken away while every block is reachable. */
  lemma VisitComplete(f: Func, preds: Preds, dom: seq<set<nat>>, b: nat, v: nat)
    requires PredsOf(f, preds) && PredsIn(preds) && |dom| == |preds| && 0 < b < |dom| && v < |dom|
    requires forall c | 0 <= c < |f.blocks| :: Reachable(f, c)
    requires forall c, w: nat | 0 <= c < |dom| && w < |dom| && Dominates(f, w, c) :: w in dom[c]
    requires Dominates(f, v, b)
    ensures v in NewDom(preds, dom, b)
  {
    assert Reachable(f, b);
    var q: seq<nat> :| WalkTo(f, q, b);
    assert |q| > 1;
    assert Edge(f, q[|q| - 2], q[|q| - 2 + 1]);
    assert q[|q| - 2] in preds[b];
    if v != b {
      forall p | p in preds[b] ensures v in dom[p] {
        assert Edge(f, p, b);
        forall w: seq<nat> | WalkTo(f, w, p) ensures v in w {
          assert WalkTo(f, w + [b], b);
          assert v in w + [b];
        }
        assert Dominates(f, v, p);
      }
      MeetMember(preds[b], dom, |dom|, v);
    }
  }

  function Pairs(dom: seq<set<nat>>): nat {
    if dom == [] then 0 else |dom[0]| + Pairs(dom[1..])
  }

  lemma {:induction false} PairsUpdate(dom: seq<set<nat>>, b: nat, x: set<nat>)
    requires b < |dom|
    ensures Pairs(dom[b := x]) == Pairs(dom) - |dom[b]| + |x|
  {
    if b == 0 {
      assert dom[0 := x][1..] == dom[1..];
    } else {
      assert dom[b := x][1..] == dom[1..][b - 1 := x];
      PairsUpdate(dom[1..], b - 1, x);
    }
  }

  lemma SmallerSet(x: set<nat>, y: set<nat>)
    requires x <= y
    ensures |x| <= |y| && (x != y ==> |x| < |y|)
  {
    assert y == x + (y - x);
  }

  /** `nd[v] && dom[p][v]` over all predecessors p. */
  method MeetPreds(ps: seq<nat>, dom: seq<set<nat>>) returns (nd: set<nat>)
    requires forall i | 0 <= i < |ps| :: ps[i] < |dom|
    ensures nd == Meet(ps, dom, |dom|)
  {
    nd := AllBlocks(|dom|);
    MeetBound(ps, dom, |dom|);
    for i := 0 to |ps|
      invariant nd <= AllBlocks(|dom|) && nd * Meet(ps[i..], dom, |dom|) == Meet(ps, dom, |dom|)
    {
      assert ps[i..][1..] == ps[i + 1..];
      nd := nd * dom[ps[i]];
    }
  }

  lemma {:induction false} MeetBound(ps: seq<nat>, dom: seq<set<nat>>, n: nat)
    requires forall i | 0 <= i < |ps| :: ps[i] < |dom|
    ensures Meet(ps, dom, n) <= AllBlocks(n)
  {
    if ps != [] { MeetBound(ps[1..], dom, n); }
  }

  /** What every stage of the iteration keeps; `all` says that every block is reachable. */
  ghost predicate DomKept(f: Func, preds: Preds, dom: seq<set<nat>>, all: bool) {
    && |f.blocks| == |preds| == |dom| > 0 && PredsIn(preds) && Shrinking(preds, dom) && dom[0] == {0}
    && (all ==> forall b, v: nat | 0 <= b < |dom| && v < |dom| && Dominates(f, v, b) :: v in dom[b])
  }

  /** One visit of block b. */
  lemma VisitKept(f: Func, preds: Preds, dom: seq<set<nat>>, all: bool, b: nat)
    requires PredsOf(f, preds) && DomKept(f, preds, dom, all) && 0 < b < |dom|
    requires all ==> forall c | 0 <= c < |f.blocks| :: Reachable(f, c)
    ensures var nd := NewDom(preds, dom, b);
            && DomKept(f, preds, dom[b := nd], all) && nd <= dom[b]
            && Pairs(dom[b := nd]) <= Pairs(dom) && (nd != dom[b] ==> Pairs(dom[b := nd]) < Pairs(dom))
  {
    var nd := NewDom(preds, dom, b);
    VisitShrinks(preds, dom, b);
    SmallerSet(nd, dom[b]);
    PairsUpdate(dom, b, nd);
    if all {
      forall v: nat | v < |dom| && Dominates(f, v, b) ensures v in nd {
        VisitComplete(f, preds, dom, b, v);
      }
    }
  }

  /** One sweep over all blocks but the entry. */
  method SweepDom(f: Func, preds: Preds, dom0: seq<set<nat>>, ghost all: bool) returns (dom: seq<set<nat>>, changed: bool)
    requires PredsOf(f, preds) && DomKept(f, preds, dom0, all)
    requires all ==> forall c | 0 <= c < |f.blocks| :: Reachable(f, c)
    ensures DomKept(f, preds, dom, all)
    ensures if changed then Pairs(dom) < Pairs(dom0) else Pairs(dom) == Pairs(dom0)
    ensures !changed ==> forall b | 0 < b < |dom| :: NewDom(preds, dom, b) == dom[b]
  {
    hide Shrinking, Reachable, PredsOf, Dominates;
    dom := dom0;
    changed := false;
    for b := 1 to |dom0|
      invariant DomKept(f, preds, dom, all)
      invariant if changed then Pairs(dom) < Pairs(dom0) else dom == dom0
      invariant !changed ==> forall c | 0 < c < b :: NewDom(preds, dom, c) == dom[c]
    {
      VisitKept(f, preds, dom, all, b);
      var nd := {b};
      if preds[b] != [] {
        nd := MeetPreds(preds[b], dom);
        nd := nd + {b};
      }
      if nd != dom[b] {
        dom := dom[b := nd];
        changed := true;
      }
    }
  }

  /**
   * `computeDom`: the iteration ends; it never reports a false dominator; and
   * when all blocks are reachable it reports exactly the dominators.
   */
  method ComputeDom(f: Func, preds: Preds) returns (dom: seq<set<nat>>)
    requires FuncOk(f) && PredsOf(f, preds)
    ensures |dom| == |f.blocks|
    ensures forall b, v | 0 <= b < |dom| && v in dom[b] :: Dominates(f, v, b)
    ensures (forall b | 0 <= b < |f.blocks| :: Reachable(f, b)) ==>
              forall b, v: nat | 0 <= b < |dom| && v < |dom| && Dominates(f, v, b) :: v in dom[b]
  {
    PredsOfIn(f, preds);
    var n := |f.blocks|;
    dom := seq(n, _ => AllBlocks(n));
    dom := dom[0 := {0}];
    ghost var all := forall b | 0 <= b < n :: Reachable(f, b);
    StartKept(f, preds, dom, all);
    var changed := true;
    while changed
      invariant DomKept(f, preds, dom, all)
      invariant !changed ==> forall b | 0 < b < n :: NewDom(preds, dom, b) == dom[b]
      decreases Pairs(dom), changed
    {
      hide DomKept, NewDom;
      dom, changed := SweepDom(f, preds, dom, all);
    }
    forall b, v | 0 <= b < n && v in dom[b] ensures Dominates(f, v, b) {
      forall p: seq<nat> | WalkTo(f, p, b) ensures v in p {
        FixpointSound(f, preds, dom, p, v);
      }
    }
  }

  lemma StartKept(f: Func, preds: Preds, dom: seq<set<nat>>, all: bool)
    requires |f.blocks| == |preds| == |dom| > 0 && PredsIn(preds) && PredsOf(f, preds)
    requires dom[0] == {0} && forall b | 0 < b < |dom| :: dom[b] == AllBlocks(|dom|)
    ensures DomKept(f, preds, dom, all)
  {
    EntryOnly(f);
    forall b | 0 < b < |dom| ensures NewDom(preds, dom, b) <= dom[b] {
      if preds[b] != [] { MeetBound(preds[b], dom, |dom|); }
    }
  }

  /** Only the entry dominates the entry. */
  lemma EntryOnly(f: Func)
    requires |f.blocks| > 0
    ensures forall v | Dominates(f, v, 0) :: v == 0
  {
    assert WalkTo(f, [0], 0);
  }

  // ---- natural loops -----------------------------------------------------------------------------

  /** A path from x to u that avoids v. */
  ghost predicate Avoids(f: Func, p: seq<nat>, x: nat, u: nat, v: nat) {
    Walk(f, p) && p[0] == x && p[|p| - 1] == u && v !in p
  }

  /** Every block of the loop but the header reaches u without passing the header. */
  ghost predicate Backwards(f: Func, L: set<nat>, u: nat, v: nat) {
    forall x | x in L && x != v :: exists p: seq<nat> :: Avoids(f, p, x, u, v)
  }

  /** The natural loop of the back edge u -> v. */
  ghost predicate IsLoop(f: Func, L: set<nat>, u: nat, v: nat) {
    && u in L && v in L && Backwards(f, L, u, v) && (forall x | x in L :: x < |f.blocks|)
    && (forall x, p: nat | x in L && x != v && Edge(f, p, x) :: p in L)
  }

  /** Blocks on a path to u that avoids v belong to the loop. */
  lemma {:induction false} AvoidingIn(f: Func, L: set<nat>, p: seq<nat>, x: nat, u: nat, v: nat)
    requires IsLoop(f, L, u, v) && Avoids(f, p, x, u, v)
    ensures x in L
    decreases |p|
  {
    if |p| > 1 {
      assert Edge(f, p[0], p[0 + 1]);
      assert forall i | 0 <= i < |p[1..]| - 1 :: Edge(f, p[i + 1], p[i + 1 + 1]) && p[1..][i] == p[i + 1];
      AvoidingIn(f, L, p[1..], p[1], u, v);
    }
  }

  /** A back edge has one natural loop. */
  lemma LoopUnique(f: Func, L: set<nat>, M: set<nat>, u: nat, v: nat)
    requires IsLoop(f, L, u, v) && IsLoop(f, M, u, v)
    ensures L == M
  {
    forall x | x in L ensures x in M {
      if x != v {
        var p: seq<nat> :| Avoids(f, p, x, u, v);
        AvoidingIn(f, M, p, x, u, v);
      }
    }
    forall x | x in M ensures x in L {
      if x != v {
        var p: seq<nat> :| Avoids(f, p, x, u, v);
        AvoidingIn(f, L, p, x, u, v);
      }
    }
  }

  /** The loop of the back edge u -> v, by a backward worklist. */
  method NaturalLoop(f: Func, preds: Preds, u: nat, v: nat) returns (L: set<nat>)
    requires FuncOk(f) && PredsOf(f, preds) && u < |f.blocks| && v < |f.blocks|
    ensures IsLoop(f, L, u, v)
  {
    L := {v};
    var wl: seq<nat> := [];
    if u != v {
      L := L + {u};
      wl := [u];
      assert Avoids(f, [u], u, u, v);
    }
    while wl != []
      invariant u in L && v in L && Backwards(f, L, u, v)
      invariant forall x | x in L :: x < |f.blocks|
      invariant forall i | 0 <= i < |wl| :: wl[i] in L && wl[i] != v
      invariant forall x, p: nat | x in L && x != v && x !in wl && Edge(f, p, x) :: p in L
      decreases AllVregs(|f.blocks|) - L, |wl|
    {
      var x := wl[|wl| - 1];
      var rest := wl[..|wl| - 1];
      assert wl == rest + [x];
      wl := rest;
      ghost var L0 := L;
      for i := 0 to |preds[x]|
        invariant L0 <= L && x in L && u in L && v in L && Backwards(f, L, u, v)
        invariant forall y | y in L :: y < |f.blocks|
        invariant forall j | 0 <= j < |wl| :: wl[j] in L && wl[j] != v
        invariant forall j | 0 <= j < i :: preds[x][j] in L
        invariant forall y | y in L && y !in L0 :: y in wl
        invariant forall y | y in rest :: y in wl
        invariant L == L0 ==> wl == rest
      {
        var p := preds[x][i];
        assert p in preds[x] && Edge(f, p, x);
        if p !in L {
          ghost var q: seq<nat> :| Avoids(f, q, x, u, v);
          assert Avoids(f, [p] + q, p, u, v);
          L := L + {p};
          wl := wl + [p];
        }
      }
      if L != L0 {
        assert exists y :: y in L && y !in L0;
        ghost var y :| y in L && y !in L0;
        assert y in AllVregs(|f.blocks|) - L0;
      }
      forall y, p: nat | y in L && y != v && y !in wl && Edge(f, p, y) ensures p in L {
        if y == x {
          assert p in preds[x];
        } else {
          assert y in L0 && y !in rest;
        }
      }
    }
  }

  /** A loop that contains the entry besides its header can be reached around the header. */
  lemma EntryInside(f: Func, L: set<nat>, u: nat, v: nat)
    requires |f.blocks| > 0 && Backwards(f, L, u, v) && v != 0 && 0 in L
    ensures !Dominates(f, v, u)
  {
    var p: seq<nat> :| Avoids(f, p, 0, u, v);
    assert WalkTo(f, p, u);
  }

  /** The header dominates the back edge's source, so the entry lies outside the loop. */
  lemma EntryOutside(f: Func, L: set<nat>, u: nat, v: nat)
    requires |f.blocks| > 0 && Backwards(f, L, u, v) && Dominates(f, v, u) && v != 0
    ensures 0 !in L
  {
    hide Backwards, Dominates;
    if 0 in L { EntryInside(f, L, u, v); }
  }
}
