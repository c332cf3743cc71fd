/** Dead code elimination: `deadCodeElim` and what it preserves. */
module Dce {
  import opened Word32
  import opened IR

  /** Every virtual register read in straight-line code. */
  function CodeUses(code: seq<Inst>): set<nat> {
    if code == [] then {} else Uses(code[0]) + CodeUses(code[1..])
  }

  function BlockUses(b: Block): set<nat> {
    CodeUses(b.insts) + TermUses(b.term)
  }

  function BlocksUses(bs: seq<Block>): set<nat> {
    if bs == [] then {} else BlockUses(bs[0]) + BlocksUses(bs[1..])
  }

  /** An instruction without side effect whose result nothing reads. */
  predicate Dead(i: Inst, used: set<nat>) {
    !i.Call? && !i.StoreGlobal? && Def(i) >= 0 && Def(i) !in used
  }

  function Keep(code: seq<Inst>, used: set<nat>): seq<Inst> {
    if code == [] then []
    else (if Dead(code[0], used) then [] else [code[0]]) + Keep(code[1..], used)
  }

  function KeepBlocks(bs: seq<Block>, used: set<nat>): (r: seq<Block>)
    ensures |r| == |bs|
    ensures forall b | 0 <= b < |bs| :: r[b] == Block(Keep(bs[b].insts, used), bs[b].term)
  {
    if bs == [] then []
    else [Block(Keep(bs[0].insts, used), bs[0].term)] + KeepBlocks(bs[1..], used)
  }

  /** One sweep over a function. */
  function Sweep(f: Func): Func {
    f.(blocks := KeepBlocks(f.blocks, BlocksUses(f.blocks)))
  }

  function InstCount(bs: seq<Block>): nat {
    if bs == [] then 0 else |bs[0].insts| + InstCount(bs[1..])
  }

  lemma {:induction false} KeepShrinks(code: seq<Inst>, used: set<nat>)
    ensures |Keep(code, used)| <= |code|
    ensures |Keep(code, used)| == |code| <==> Keep(code, used) == code
    ensures Keep(code, used) == code <==> forall k | 0 <= k < |code| :: !Dead(code[k], used)
  {
    if code != [] {
      KeepShrinks(code[1..], used);
      assert code == [code[0]] + code[1..];
    }
  }

  ghost predicate NothingDead(bs: seq<Block>, used: set<nat>) {
    forall b, k | 0 <= b < |bs| && 0 <= k < |bs[b].insts| :: !Dead(bs[b].insts[k], used)
  }

  lemma {:induction false} KeepBlocksShrinks(bs: seq<Block>, used: set<nat>)
    ensures InstCount(KeepBlocks(bs, used)) <= InstCount(bs)
    ensures InstCount(KeepBlocks(bs, used)) == InstCount(bs) ==> KeepBlocks(bs, used) == bs
    ensures KeepBlocks(bs, used) == bs ==> NothingDead(bs, used)
  {
    if bs != [] {
      KeepBlocksShrinks(bs[1..], used);
      KeepShrinks(bs[0].insts, used);
      var r := KeepBlocks(bs, used);
      assert r[0] == Block(Keep(bs[0].insts, used), bs[0].term);
      assert r[1..] == KeepBlocks(bs[1..], used);
      assert bs == [bs[0]] + bs[1..];
      if r == bs {
        forall b, k | 0 <= b < |bs| && 0 <= k < |bs[b].insts| ensures !Dead(bs[b].insts[k], used) {
          if b > 0 { assert bs[b] == bs[1..][b - 1]; }
        }
      }
    }
  }

  /** The sweeps of a function, until one changes nothing. */
  function Eliminate(f: Func): (r: Func)
    decreases InstCount(f.blocks)
  {
    KeepBlocksShrinks(f.blocks, BlocksUses(f.blocks));
    if Sweep(f) == f then f else Eliminate(Sweep(f))
  }

  /** Nothing is left whose destination no one reads. */
  lemma {:induction false} EliminateLeavesNothingDead(f: Func)
    ensures NothingDead(Eliminate(f).blocks, BlocksUses(Eliminate(f).blocks))
    decreases InstCount(f.blocks)
  {
    KeepBlocksShrinks(f.blocks, BlocksUses(f.blocks));
    if Sweep(f) != f {
      EliminateLeavesNothingDead(Sweep(f));
    }
  }

  // ---- the pass as it is written ----------------------------------------------

  method CollectUses(f: Func) returns (used: set<nat>)
    ensures used == BlocksUses(f.blocks)
  {
    used := {};
    for b := 0 to |f.blocks|
      invariant used + BlocksUses(f.blocks[b..]) == BlocksUses(f.blocks)
    {
      var code := f.blocks[b].insts;
      ghost var before := used;
      for k := 0 to |code|
        invariant used + CodeUses(code[k..]) == before + CodeUses(code)
      {
        assert code[k..][1..] == code[k + 1..];
        used := used + Uses(code[k]);
      }
      used := used + TermUses(f.blocks[b].term);
      assert f.blocks[b..][1..] == f.blocks[b + 1..];
    }
  }

  lemma KeepStep(code: seq<Inst>, k: nat, used: set<nat>, kept: seq<Inst>)
    requires k < |code|
    ensures kept + Keep(code[k..], used) ==
            (if Dead(code[k], used) then kept else kept + [code[k]]) + Keep(code[k + 1..], used)
  {
  }

  method KeepLive(code: seq<Inst>, used: set<nat>) returns (kept: seq<Inst>, dropped: bool)
    ensures kept == Keep(code, used)
    ensures dropped <==> kept != code
  {
    kept := [];
    dropped := false;
    for k := 0 to |code|
      invariant kept + Keep(code[k..], used) == Keep(code, used)
      invariant dropped <==> |kept| < k
      invariant |kept| <= k
    {
      KeepStep(code, k, used, kept);
      if Dead(code[k], used) {
        dropped := true;
      } else {
        kept := kept + [code[k]];
      }
    }
    KeepShrinks(code, used);
  }

  method SweepBlocks(bs: seq<Block>, used: set<nat>) returns (blocks: seq<Block>, changed: bool)
    ensures blocks == KeepBlocks(bs, used)
    ensures changed <==> blocks != bs
  {
    hide Keep;
    blocks := bs;
    changed := false;
    ghost var target := KeepBlocks(bs, used);
    ghost var at := 0;
    for b := 0 to |bs|
      invariant |blocks| == |bs|
      invariant forall c | 0 <= c < b :: blocks[c] == target[c]
      invariant forall c | b <= c < |bs| :: blocks[c] == bs[c]
      invariant !changed ==> forall c | 0 <= c < b :: blocks[c] == bs[c]
      invariant changed ==> 0 <= at < b && target[at] != bs[at]
    {
      var kept, dropped := KeepLive(bs[b].insts, used);
      if dropped {
        at := b;
      }
      changed := changed || dropped;
      blocks := blocks[b := Block(kept, bs[b].term)];
    }
  }

  method DeadCodeElim(f: Func) returns (r: Func)
    ensures r == Eliminate(f)
  {
    r := f;
    var changed := true;
    while changed
      invariant Eliminate(r) == Eliminate(f)
      invariant !changed ==> Sweep(r) == r
      decreases InstCount(r.blocks), changed
    {
      var used := CollectUses(r);
      KeepBlocksShrinks(r.blocks, used);
      var blocks;
      blocks, changed := SweepBlocks(r.blocks, used);
      r := r.(blocks := blocks);
    }
  }

  // ---- preservation -------------------------------------------------------------

  function MapSweep(fs: seq<Func>): seq<Func> {
    if fs == [] then [] else [Sweep(fs[0])] + MapSweep(fs[1..])
  }

  function MapEliminate(fs: seq<Func>): seq<Func> {
    if fs == [] then [] else [Eliminate(fs[0])] + MapEliminate(fs[1..])
  }

  /** `deadCodeElim` on every function of a module. */
  function EliminateModule(m: Module): Module {
    m.(funcs := MapEliminate(m.funcs))
  }

  lemma {:induction false} FindSwept(fs: seq<Func>, name: string)
    ensures FindFunc(MapSweep(fs), name) ==
            match FindFunc(fs, name)
            case None => None
            case Some(f) => Some(Sweep(f))
  {
    if fs != [] {
      FindSwept(fs[1..], name);
      assert MapSweep(fs)[1..] == MapSweep(fs[1..]);
    }
  }

  /** Equal globals, and equal registers wherever the function may look. */
  ghost predicate Agree(used: set<nat>, s: State, s': State) {
    && s.globals == s'.globals
    && forall v | v in used && v in s.regs :: v in s'.regs && s'.regs[v] == s.regs[v]
  }

  ghost predicate AgreeAfter(used: set<nat>, o: Outcome<State>, o': Outcome<State>) {
    || o.Undef?
    || (o.Timeout? && o'.Timeout?)
    || (o.Done? && o'.Done? && Agree(used, o.value, o'.value))
  }

  lemma ReadAgrees(v: Val, used: set<nat>, s: State, s': State)
    requires Agree(used, s, s') && ValUses(v) <= used && Read(v, s.regs).Some?
    ensures Read(v, s'.regs) == Read(v, s.regs)
  {
  }

  lemma {:induction false} ReadAllAgrees(vs: seq<Val>, used: set<nat>, s: State, s': State)
    requires Agree(used, s, s') && ArgUses(vs) <= used && ReadAll(vs, s.regs).Some?
    ensures ReadAll(vs, s'.regs) == ReadAll(vs, s.regs)
  {
    if vs != [] {
      assert ValUses(vs[0]) <= ArgUses(vs);
      ReadAgrees(vs[0], used, s, s');
      forall v | v in ArgUses(vs[1..]) ensures v in ArgUses(vs) {
        var i :| 0 <= i < |vs[1..]| && vs[1..][i].Reg? && vs[1..][i].reg == v;
        assert vs[i + 1].reg == v;
      }
      ReadAllAgrees(vs[1..], used, s, s');
    }
  }

  lemma PlainAgrees(i: Inst, used: set<nat>, s: State, s': State)
    requires !i.Call? && Uses(i) <= used && Agree(used, s, s')
    ensures AgreeAfter(used, ExecPlain(i, s), ExecPlain(i, s'))
  {
  }

  lemma {:induction false} KeepRefines(m: Module, m': Module, code: seq<Inst>, used: set<nat>, s: State, s': State,
                                      d: nat, k: nat)
    requires m' == m.(funcs := MapSweep(m.funcs))
    requires CodeUses(code) <= used && Agree(used, s, s')
    ensures AgreeAfter(used, ExecInsts(m, code, s, d, k), ExecInsts(m', Keep(code, used), s', d, k))
    decreases d, k, 0, |code|
  {
    if code != [] {
      var i := code[0];
      var kept := Keep(code, used);
      var o := ExecInst(m, i, s, d, k);
      if Dead(i, used) {
        assert kept == Keep(code[1..], used);
        if o.Done? { KeepRefines(m, m', code[1..], used, o.value, s', d, k); }
      } else {
        assert kept[0] == i && kept[1..] == Keep(code[1..], used);
        if i.Call? {
          CallRefines(m, m', i, used, s, s', d, k);
        } else {
          PlainAgrees(i, used, s, s');
        }
        var o' := ExecInst(m', i, s', d, k);
        if o.Done? { KeepRefines(m, m', code[1..], used, o.value, o'.value, d, k); }
      }
    }
  }

  lemma {:induction false} CallRefines(m: Module, m': Module, i: Inst, used: set<nat>, s: State, s': State,
                                      d: nat, k: nat)
    requires m' == m.(funcs := MapSweep(m.funcs))
    requires i.Call? && Uses(i) <= used && Agree(used, s, s')
    ensures AgreeAfter(used, ExecInst(m, i, s, d, k), ExecInst(m', i, s', d, k))
    decreases d, k, 0, 0
  {
    if ReadAll(i.args, s.regs).Some? {
      ReadAllAgrees(i.args, used, s, s');
      if d > 0 {
        SweepRefines(m, i.callee, ReadAll(i.args, s.regs).value, s.globals, d - 1, k);
      }
    }
  }

  lemma {:induction false} BlockUsesBound(bs: seq<Block>, b: nat)
    requires b < |bs|
    ensures BlockUses(bs[b]) <= BlocksUses(bs)
  {
    if b > 0 { BlockUsesBound(bs[1..], b - 1); }
  }

  lemma BlockIs(m: Module, f: Func, b: nat, s: State, d: nat, k: nat)
    requires b < |f.blocks|
    ensures RunBlock(m, f, b, s, d, k) == RunFrom(m, f, f.blocks[b].insts, f.blocks[b].term, s, d, k)
  {
  }

  lemma BlockUsesParts(b: Block)
    ensures CodeUses(b.insts) <= BlockUses(b) && TermUses(b.term) <= BlockUses(b)
  {
  }

  lemma SweptBlock(f: Func, b: nat)
    requires b < |f.blocks|
    ensures |Sweep(f).blocks| == |f.blocks|
    ensures Sweep(f).blocks[b] == Block(Keep(f.blocks[b].insts, BlocksUses(f.blocks)), f.blocks[b].term)
  {
  }

  lemma {:induction false} BlockRefines(m: Module, m': Module, f: Func, b: nat, s: State, s': State, d: nat, k: nat)
    requires m' == m.(funcs := MapSweep(m.funcs))
    requires Agree(BlocksUses(f.blocks), s, s')
    ensures Refines(RunBlock(m, f, b, s, d, k), RunBlock(m', Sweep(f), b, s', d, k))
    decreases d, k, 1, 0
  {
    if b < |f.blocks| {
      hide Keep, CodeUses, Uses, Agree, ExecInsts, BlocksUses, Sweep, BlockUses, MapSweep;
      var used := BlocksUses(f.blocks);
      var code, t := f.blocks[b].insts, f.blocks[b].term;
      BlockUsesParts(f.blocks[b]);
      SweptBlock(f, b);
      BlockUsesBound(f.blocks, b);
      BlockIs(m, f, b, s, d, k);
      BlockIs(m', Sweep(f), b, s', d, k);
      hide RunBlock;
      KeepRefines(m, m', code, used, s, s', d, k);
      var o, o' := ExecInsts(m, code, s, d, k), ExecInsts(m', Keep(code, used), s', d, k);
      if o.Done? {
        match t
        case Open =>
        case Jmp(x) =>
          if k > 0 { BlockRefines(m, m', f, x, o.value, o'.value, d, k - 1); }
        case Br(c, x, y) =>
          TermAgrees(t, used, o.value, o'.value);
          if k > 0 && Read(c, o.value.regs).Some? {
            var y' := if Read(c, o.value.regs).value != 0 then x else y;
            BlockRefines(m, m', f, y', o.value, o'.value, d, k - 1);
          }
        case Ret(_) => TermAgrees(t, used, o.value, o'.value);
      }
    }
  }

  /** What a terminator reads is the same. */
  lemma TermAgrees(t: Term, used: set<nat>, s: State, s': State)
    requires Agree(used, s, s') && TermUses(t) <= used
    ensures s'.globals == s.globals
    ensures t.Br? && Read(t.cond, s.regs).Some? ==> Read(t.cond, s'.regs) == Read(t.cond, s.regs)
    ensures t.Ret? && t.val.Some? && Read(t.val.value, s.regs).Some? ==> Read(t.val.value, s'.regs) == Read(t.val.value, s.regs)
  {
  }

  /** One sweep over every function refines every run, within the same bounds. */
  lemma {:induction false} SweepRefines(m: Module, name: string, args: seq<i32>, g: seq<i32>, d: nat, k: nat)
    ensures Refines(RunFunc(m, name, args, g, d, k),
                    RunFunc(m.(funcs := MapSweep(m.funcs)), name, args, g, d, k))
    decreases d, k, 2, 0
  {
    FindSwept(m.funcs, name);
    var f := FindFunc(m.funcs, name);
    if f.Some? && |f.value.params| == |args| {
      var s := State(Entry(f.value.params, args), g);
      BlockRefines(m, m.(funcs := MapSweep(m.funcs)), f.value, 0, s, s, d, k);
    }
  }

  function ModuleSize(fs: seq<Func>): nat {
    if fs == [] then 0 else InstCount(fs[0].blocks) + ModuleSize(fs[1..])
  }

  lemma {:induction false} SweepModuleShrinks(fs: seq<Func>)
    ensures ModuleSize(MapSweep(fs)) <= ModuleSize(fs)
    ensures ModuleSize(MapSweep(fs)) == ModuleSize(fs) ==> MapSweep(fs) == fs
    ensures MapEliminate(MapSweep(fs)) == MapEliminate(fs)
    ensures MapSweep(fs) == fs ==> MapEliminate(fs) == fs
  {
    if fs != [] {
      SweepModuleShrinks(fs[1..]);
      KeepBlocksShrinks(fs[0].blocks, BlocksUses(fs[0].blocks));
      var r := MapSweep(fs);
      assert r[0] == Sweep(fs[0]) && r[1..] == MapSweep(fs[1..]);
      assert fs == [fs[0]] + fs[1..];
    }
  }

  /**
   * `deadCodeElim` refines every run of the multi-definition IR within the same
   * bounds: same return value, same globals, same calls, and a run that does
   * not end still does not.
   */
  lemma {:induction false} EliminateRefines(m: Module, name: string, args: seq<i32>, g: seq<i32>, d: nat, k: nat)
    ensures Refines(RunFunc(m, name, args, g, d, k), RunFunc(EliminateModule(m), name, args, g, d, k))
    decreases ModuleSize(m.funcs)
  {
    SweepModuleShrinks(m.funcs);
    var m' := m.(funcs := MapSweep(m.funcs));
    if m' != m {
      SweepRefines(m, name, args, g, d, k);
      EliminateRefines(m', name, args, g, d, k);
    }
  }
}
