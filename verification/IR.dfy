/**
 * The three-address control-flow IR and its meaning.
 *
 * A run is bounded by a call depth and, in every frame, by a number of block
 * executions; exhausting either is `Timeout`.  `Undef` is what the source
 * language leaves undefined: a division by zero, a virtual register read before
 * it is written, a missing callee, a value taken from a `return;`, or a
 * division hint that does not describe the division it is attached to.
 */
module IR {
  import opened Word32
  import Alu
  import Magic

  datatype Option<+T> = None | Some(value: T)

  datatype BinOp = Add | Sub | Mul | Div | Mod | Lt | Gt | Le | Ge | Eq | Ne

  datatype UnOp = Neg | Not

  /** An operand: an immediate or a virtual register. */
  datatype Val = Imm(imm: i32) | Reg(reg: nat)

  /**
   * `dst` of a call is -1 when no result is wanted.  `magicVreg` (-1: none) and
   * `unsignedDiv` are the code-generation hints of a division by a constant.
   */
  datatype Inst =
    | Bin(bop: BinOp, dst: int, a: Val, b: Val, magicVreg: int, unsignedDiv: bool)
    | Un(uop: UnOp, dst: int, a: Val)
    | Mv(dst: int, a: Val)
    | LoadGlobal(dst: int, gid: nat)
    | StoreGlobal(gid: nat, a: Val)
    | Call(dst: int, callee: string, args: seq<Val>)

  datatype Term = Open | Jmp(target: nat) | Br(cond: Val, ifTrue: nat, ifFalse: nat) | Ret(val: Option<Val>)

  datatype Block = Block(insts: seq<Inst>, term: Term)

  datatype Func = Func(name: string, returnsVoid: bool, params: seq<nat>, blocks: seq<Block>, numVregs: nat)

  datatype Global = Global(name: string, init: i32)

  datatype Module = Module(globals: seq<Global>, funcs: seq<Func>)

  // ---- structure ------------------------------------------------------------

  function Succs(t: Term): seq<nat> {
    match t
    case Jmp(x) => [x]
    case Br(_, x, y) => [x, y]
    case _ => []
  }

  function ValUses(v: Val): set<nat> {
    if v.Reg? then {v.reg} else {}
  }

  function ArgUses(args: seq<Val>): set<nat> {
    set i | 0 <= i < |args| && args[i].Reg? :: args[i].reg
  }

  function HintUses(h: int): set<nat> {
    if h >= 0 then {h} else {}
  }

  /** The virtual registers an instruction reads. */
  function Uses(i: Inst): set<nat> {
    match i
    case Bin(_, _, a, b, h, _) => ValUses(a) + ValUses(b) + HintUses(h)
    case Un(_, _, a) => ValUses(a)
    case Mv(_, a) => ValUses(a)
    case LoadGlobal(_, _) => {}
    case StoreGlobal(_, a) => ValUses(a)
    case Call(_, _, args) => ArgUses(args)
  }

  /** The virtual register an instruction writes, or -1. */
  function Def(i: Inst): int {
    if i.StoreGlobal? then -1 else i.dst
  }

  function TermUses(t: Term): set<nat> {
    match t
    case Br(c, _, _) => ValUses(c)
    case Ret(Some(v)) => ValUses(v)
    case _ => {}
  }

  predicate InstOk(i: Inst, nv: nat) {
    && (forall v | v in Uses(i) :: v < nv)
    && -1 <= Def(i) < nv
    && (i.Call? || i.StoreGlobal? || Def(i) >= 0)
  }

  predicate BlockOk(b: Block, nb: nat, nv: nat) {
    && (forall k | 0 <= k < |b.insts| :: InstOk(b.insts[k], nv))
    && (forall v | v in TermUses(b.term) :: v < nv)
    && (forall s | s in Succs(b.term) :: s < nb)
  }

  /** Operands and branch targets are in range. */
  predicate FuncOk(f: Func) {
    && |f.blocks| > 0
    && (forall b | 0 <= b < |f.blocks| :: BlockOk(f.blocks[b], |f.blocks|, f.numVregs))
    && (forall i | 0 <= i < |f.params| :: f.params[i] < f.numVregs)
    && (forall i, j | 0 <= i < j < |f.params| :: f.params[i] != f.params[j])
  }

  function FindFunc(fs: seq<Func>, name: string): Option<Func> {
    if fs == [] then None
    else if fs[0].name == name then Some(fs[0])
    else FindFunc(fs[1..], name)
  }

  // ---- meaning --------------------------------------------------------------

  datatype Outcome<+T> = Timeout | Undef | Done(value: T)

  type Regs = map<nat, i32>

  datatype State = State(regs: Regs, globals: seq<i32>)

  datatype Result = Result(val: Option<i32>, globals: seq<i32>)

  function Bit(b: bool): i32 {
    if b then 1 else 0
  }

  /** Binary operators on words; division by zero has no value. */
  function EvalBin(op: BinOp, x: i32, y: i32): Option<i32> {
    match op
    case Add => Some(Wrap(x + y))
    case Sub => Some(Wrap(x - y))
    case Mul => Some(Wrap(x * y))
    case Div => if y == 0 then None else Some(Wrap(TDiv(x, y)))
    case Mod => if y == 0 then None else Some(Wrap(TMod(x, y)))
    case Lt => Some(Bit(x < y))
    case Gt => Some(Bit(x > y))
    case Le => Some(Bit(x <= y))
    case Ge => Some(Bit(x >= y))
    case Eq => Some(Bit(x == y))
    case Ne => Some(Bit(x != y))
  }

  function EvalUn(op: UnOp, x: i32): i32 {
    match op
    case Neg => Wrap(-(x as int))
    case Not => Bit(x == 0)
  }

  function Read(v: Val, regs: Regs): Option<i32> {
    match v
    case Imm(n) => Some(n)
    case Reg(r) => if r in regs then Some(regs[r]) else None
  }

  function ReadAll(vs: seq<Val>, regs: Regs): Option<seq<i32>> {
    if vs == [] then Some([])
    else
      match (Read(vs[0], regs), ReadAll(vs[1..], regs))
      case (Some(x), Some(xs)) => Some([x] + xs)
      case _ => None
  }

  function Write(regs: Regs, d: int, x: i32): Regs {
    if d >= 0 then regs[d := x] else regs
  }

  /** The magic number a hint for division by c must hold. */
  function MagicFor(c: i32, uns: bool): i32
    requires Magic.NeedsMagic(c) && (uns ==> c > 0)
  {
    if uns then Wrap(Magic.UnsignedM(c)) else Magic.SignedM(c)
  }

  /** The hints of a division are right: the dividend suits the unsigned sequence, the register has the number. */
  predicate HintOk(i: Inst, regs: Regs)
    requires i.Bin?
  {
    (i.bop.Div? || i.bop.Mod?) && i.b.Imm? && Magic.NeedsMagic(i.b.imm) ==>
      var c := i.b.imm;
      && (i.unsignedDiv ==>
            && c > 0
            && var x := Read(i.a, regs);
               x.Some? ==> Magic.UnsignedExact(x.value, c))
      && (i.magicVreg >= 0 ==> Read(Reg(i.magicVreg), regs) == Some(MagicFor(c, i.unsignedDiv)))
  }

  function ExecPlain(i: Inst, s: State): Outcome<State>
    requires !i.Call?
  {
    match i
    case Bin(op, d, a, b, _, _) =>
      (match (Read(a, s.regs), Read(b, s.regs))
       case (Some(x), Some(y)) =>
         var r := EvalBin(op, x, y);
         if r.None? || !HintOk(i, s.regs) then Undef
         else Done(s.(regs := Write(s.regs, d, r.value)))
       case _ => Undef)
    case Un(op, d, a) =>
      var x := Read(a, s.regs);
      if x.None? then Undef else Done(s.(regs := Write(s.regs, d, EvalUn(op, x.value))))
    case Mv(d, a) =>
      var x := Read(a, s.regs);
      if x.None? then Undef else Done(s.(regs := Write(s.regs, d, x.value)))
    case LoadGlobal(d, g) =>
      if g >= |s.globals| then Undef else Done(s.(regs := Write(s.regs, d, s.globals[g])))
    case StoreGlobal(g, a) =>
      var x := Read(a, s.regs);
      if x.None? || g >= |s.globals| then Undef else Done(s.(globals := s.globals[g := x.value]))
  }

  /** A call's effect once the callee has returned. */
  function AfterCall(i: Inst, s: State, r: Result): Outcome<State>
    requires i.Call?
  {
    if i.dst < 0 then Done(State(s.regs, r.globals))
    else if r.val.None? then Undef
    else Done(State(Write(s.regs, i.dst, r.val.value), r.globals))
  }

  function ExecInst(m: Module, i: Inst, s: State, depth: nat, fuel: nat): Outcome<State>
    decreases depth, fuel, 0, 0
  {
    if !i.Call? then ExecPlain(i, s)
    else
      var xs := ReadAll(i.args, s.regs);
      if xs.None? then Undef
      else if depth == 0 then Timeout
      else
        match RunFunc(m, i.callee, xs.value, s.globals, depth - 1, fuel)
        case Timeout => Timeout
        case Undef => Undef
        case Done(r) => AfterCall(i, s, r)
  }

  function ExecInsts(m: Module, code: seq<Inst>, s: State, depth: nat, fuel: nat): Outcome<State>
    decreases depth, fuel, 1, |code|
  {
    if code == [] then Done(s)
    else
      match ExecInst(m, code[0], s, depth, fuel)
      case Timeout => Timeout
      case Undef => Undef
      case Done(s') => ExecInsts(m, code[1..], s', depth, fuel)
  }

  /** The rest of a frame: `code` and then `t`, in function f. */
  function RunFrom(m: Module, f: Func, code: seq<Inst>, t: Term, s: State, depth: nat, fuel: nat): Outcome<Result>
    decreases depth, fuel, 2, 0
  {
    match ExecInsts(m, code, s, depth, fuel)
    case Timeout => Timeout
    case Undef => Undef
    case Done(s') =>
      match t
      case Open => Undef
      case Jmp(x) => if fuel == 0 then Timeout else RunBlock(m, f, x, s', depth, fuel - 1)
      case Br(c, x, y) =>
        var v := Read(c, s'.regs);
        if v.None? then Undef
        else if fuel == 0 then Timeout
        else RunBlock(m, f, if v.value != 0 then x else y, s', depth, fuel - 1)
      case Ret(None) => Done(Result(None, s'.globals))
      case Ret(Some(v)) =>
        var x := Read(v, s'.regs);
        if x.None? then Undef else Done(Result(x, s'.globals))
  }

  function RunBlock(m: Module, f: Func, b: nat, s: State, depth: nat, fuel: nat): Outcome<Result>
    decreases depth, fuel, 3, 0
  {
    if b >= |f.blocks| then Undef
    else RunFrom(m, f, f.blocks[b].insts, f.blocks[b].term, s, depth, fuel)
  }

  /** The registers of a fresh frame: only the parameters are written. */
  function Entry(params: seq<nat>, args: seq<i32>): Regs
    requires |params| == |args|
  {
    if params == [] then map[]
    else Entry(params[..|params| - 1], args[..|args| - 1])[params[|params| - 1] := args[|args| - 1]]
  }

  function RunFunc(m: Module, name: string, args: seq<i32>, g: seq<i32>, depth: nat, fuel: nat): Outcome<Result>
    decreases depth, fuel, 4, 0
  {
    match FindFunc(m.funcs, name)
    case None => Undef
    case Some(f) =>
      if |f.params| != |args| then Undef
      else RunBlock(m, f, 0, State(Entry(f.params, args), g), depth, fuel)
  }

  // ---- general facts ----------------------------------------------------------

  /** Transformed code may do anything where the original was undefined. */
  ghost predicate Refines<T>(orig: Outcome<T>, now: Outcome<T>) {
    orig.Undef? || now == orig
  }

  lemma {:induction false} ExecAppend(m: Module, xs: seq<Inst>, ys: seq<Inst>, s: State, depth: nat, fuel: nat)
    ensures ExecInsts(m, xs + ys, s, depth, fuel) ==
            match ExecInsts(m, xs, s, depth, fuel)
            case Done(s') => ExecInsts(m, ys, s', depth, fuel)
            case Timeout => Timeout
            case Undef => Undef
    decreases |xs|
  {
    if xs == [] {
      assert xs + ys == ys;
    } else {
      assert (xs + ys)[1..] == xs[1..] + ys;
      var o := ExecInst(m, xs[0], s, depth, fuel);
      if o.Done? {
        ExecAppend(m, xs[1..], ys, o.value, depth, fuel);
      }
    }
  }

  /** A result found within some bounds is the result within any larger ones. */
  lemma {:induction false} RunFuncMonotone(m: Module, name: string, args: seq<i32>, g: seq<i32>,
                                          d: nat, d': nat, k: nat, k': nat)
    requires d <= d' && k <= k' && !RunFunc(m, name, args, g, d, k).Timeout?
    ensures RunFunc(m, name, args, g, d', k') == RunFunc(m, name, args, g, d, k)
    decreases d, k, 4, 0
  {
    var f := FindFunc(m.funcs, name);
    if f.Some? && |f.value.params| == |args| {
      RunBlockMonotone(m, f.value, 0, State(Entry(f.value.params, args), g), d, d', k, k');
    }
  }

  lemma {:induction false} RunBlockMonotone(m: Module, f: Func, b: nat, s: State, d: nat, d': nat, k: nat, k': nat)
    requires d <= d' && k <= k' && !RunBlock(m, f, b, s, d, k).Timeout?
    ensures RunBlock(m, f, b, s, d', k') == RunBlock(m, f, b, s, d, k)
    decreases d, k, 3, 0
  {
    if b < |f.blocks| {
      RunFromMonotone(m, f, f.blocks[b].insts, f.blocks[b].term, s, d, d', k, k');
    }
  }

  lemma {:induction false} RunFromMonotone(m: Module, f: Func, code: seq<Inst>, t: Term, s: State,
                                          d: nat, d': nat, k: nat, k': nat)
    requires d <= d' && k <= k' && !RunFrom(m, f, code, t, s, d, k).Timeout?
    ensures RunFrom(m, f, code, t, s, d', k') == RunFrom(m, f, code, t, s, d, k)
    decreases d, k, 2, 0
  {
    ExecMonotone(m, code, s, d, d', k, k');
    var o := ExecInsts(m, code, s, d, k);
    if o.Done? {
      match t
      case Jmp(x) => RunBlockMonotone(m, f, x, o.value, d, d', k - 1, k' - 1);
      case Br(c, x, y) =>
        var v := Read(c, o.value.regs);
        if v.Some? {
          RunBlockMonotone(m, f, if v.value != 0 then x else y, o.value, d, d', k - 1, k' - 1);
        }
      case _ =>
    }
  }

  lemma {:induction false} ExecMonotone(m: Module, code: seq<Inst>, s: State, d: nat, d': nat, k: nat, k': nat)
    requires d <= d' && k <= k' && !ExecInsts(m, code, s, d, k).Timeout?
    ensures ExecInsts(m, code, s, d', k') == ExecInsts(m, code, s, d, k)
    decreases d, k, 1, |code|
  {
    if code != [] {
      ExecInstMonotone(m, code[0], s, d, d', k, k');
      var o := ExecInst(m, code[0], s, d, k);
      if o.Done? {
        ExecMonotone(m, code[1..], o.value, d, d', k, k');
      }
    }
  }

  lemma {:induction false} ExecInstMonotone(m: Module, i: Inst, s: State, d: nat, d': nat, k: nat, k': nat)
    requires d <= d' && k <= k' && !ExecInst(m, i, s, d, k).Timeout?
    ensures ExecInst(m, i, s, d', k') == ExecInst(m, i, s, d, k)
    decreases d, k, 0, 0
  {
    if i.Call? {
      var xs := ReadAll(i.args, s.regs);
      if xs.Some? {
        RunFuncMonotone(m, i.callee, xs.value, s.globals, d - 1, d' - 1, k, k');
      }
    }
  }
}
