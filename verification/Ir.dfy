/** The intermediate representation and its meaning: a run is a path of blocks together with the
    registers, the stack slots and the world outside the function. */
module Ir {
  import opened Int32
  import opened Graphs

  datatype Option<+T> = None | Some(value: T)

  datatype Operand = Const(value: i32) | Param(index: nat) | Reg(id: nat)

  datatype BinaryOp =
    | Add | Sub | Mul | Sdiv | Srem
    | ICmpEq | ICmpNe | ICmpSlt | ICmpSgt | ICmpSle | ICmpSge
    | And

  datatype UnaryOp = Neg | Shl(left: nat) | Shr(right: nat)

  /** What a load or store goes through: the result of an `alloca`, or a global. */
  datatype Pointer = Slot(slot: nat) | Global(name: string)

  datatype Inst =
    | Binary(dst: nat, op: BinaryOp, lhs: Operand, rhs: Operand)
    | Unary(dst: nat, uop: UnaryOp, arg: Operand)
    | Alloca(slot: nat)
    | Load(dst: nat, ptr: Pointer)
    | Store(ptr: Pointer, value: Operand)
    | Call(dst: nat, callee: string, args: seq<Operand>)

  /** One value for each incoming block. */
  datatype Phi = Phi(dst: nat, incoming: seq<(Operand, nat)>)

  datatype Terminator =
    | Br(target: nat)
    | CondBr(cond: Operand, onTrue: nat, onFalse: nat)
    | Ret(result: Option<Operand>)

  datatype Block = Block(phis: seq<Phi>, insts: seq<Inst>, term: Terminator)

  /** Blocks are known by their position; block 0 is the entry. */
  datatype Function = Function(blocks: seq<Block>)

  function Targets(t: Terminator): seq<nat> {
    match t
    case Br(b) => [b]
    case CondBr(_, t, f) => [t, f]
    case Ret(_) => []
  }

  function Cfg(f: Function): (g: Graph)
    ensures |g| == |f.blocks|
  {
    seq(|f.blocks|, b requires 0 <= b < |f.blocks| => Targets(f.blocks[b].term))
  }

  // ----- meaning -----

  datatype Event =
    | Called(callee: string, args: seq<i32>, result: i32)
    | Read(name: string, seen: i32)
    | Wrote(name: string, stored: i32)

  /** The globals, and everything the function did outside itself, oldest first. */
  datatype World = World(globals: map<string, i32>, trace: seq<Event>)

  /** What the other functions do: a result and the globals they leave. */
  type Callees = (string, seq<i32>, World) -> (i32, map<string, i32>)

  datatype Frame = Frame(regs: map<nat, i32>, slots: map<nat, i32>, world: World)

  function Get<K>(m: map<K, i32>, k: K): i32 {
    if k in m then m[k] else 0
  }

  function Eval(v: Operand, params: seq<i32>, regs: map<nat, i32>): i32 {
    match v
    case Const(c) => c
    case Param(i) => if i < |params| then params[i] else 0
    case Reg(r) => Get(regs, r)
  }

  function EvalAll(vs: seq<Operand>, params: seq<i32>, regs: map<nat, i32>): (r: seq<i32>)
    ensures |r| == |vs|
  {
    seq(|vs|, i requires 0 <= i < |vs| => Eval(vs[i], params, regs))
  }

  function Binop(op: BinaryOp, a: i32, b: i32): i32 {
    match op
    case Add => Wrap(a + b)
    case Sub => Wrap(a - b)
    case Mul => Wrap(a * b)
    case Sdiv => Div(a, b)
    case Srem => Rem(a, b)
    case ICmpEq => Bool(a == b)
    case ICmpNe => Bool(a != b)
    case ICmpSlt => Bool(a < b)
    case ICmpSgt => Bool(a > b)
    case ICmpSle => Bool(a <= b)
    case ICmpSge => Bool(a >= b)
    case And => Int32.And(a, b)
  }

  function Unop(op: UnaryOp, a: i32): i32 {
    match op
    case Neg => Wrap(0 - a)
    case Shl(k) => Int32.Shl(a, k)
    case Shr(k) => Int32.Shr(a, k)
  }

  function Step(i: Inst, params: seq<i32>, callees: Callees, s: Frame): Frame {
    match i
    case Binary(d, op, x, y) =>
      s.(regs := s.regs[d := Binop(op, Eval(x, params, s.regs), Eval(y, params, s.regs))])
    case Unary(d, op, x) => s.(regs := s.regs[d := Unop(op, Eval(x, params, s.regs))])
    case Alloca(_) => s
    case Load(d, Slot(a)) => s.(regs := s.regs[d := Get(s.slots, a)])
    case Load(d, Global(g)) =>
      var v := Get(s.world.globals, g);
      s.(regs := s.regs[d := v], world := s.world.(trace := s.world.trace + [Read(g, v)]))
    case Store(Slot(a), x) => s.(slots := s.slots[a := Eval(x, params, s.regs)])
    case Store(Global(g), x) =>
      var v := Eval(x, params, s.regs);
      s.(world := World(s.world.globals[g := v], s.world.trace + [Wrote(g, v)]))
    case Call(d, c, xs) =>
      var vs := EvalAll(xs, params, s.regs);
      var (v, globals) := callees(c, vs, s.world);
      s.(regs := s.regs[d := v], world := World(globals, s.world.trace + [Called(c, vs, v)]))
  }

  /** All instructions in order. */
  function Steps(insts: seq<Inst>, params: seq<i32>, callees: Callees, s: Frame): Frame {
    if insts == [] then s
    else Step(insts[|insts| - 1], params, callees, Steps(insts[..|insts| - 1], params, callees, s))
  }

  /** The value a phi receives along the edge from `prev`. */
  function Incoming(inc: seq<(Operand, nat)>, prev: nat): Option<Operand> {
    if inc == [] then None
    else if inc[0].1 == prev then Some(inc[0].0)
    else Incoming(inc[1..], prev)
  }

  /** All phis of a block read the registers as they were on the edge. */
  function PhiRegs(phis: seq<Phi>, prev: nat, params: seq<i32>, before: map<nat, i32>): map<nat, i32> {
    if phis == [] then before
    else
      var v := match Incoming(phis[|phis| - 1].incoming, prev)
               case Some(x) => Eval(x, params, before)
               case None => 0;
      PhiRegs(phis[..|phis| - 1], prev, params, before)[phis[|phis| - 1].dst := v]
  }

  /** Where a run stands between two blocks: on the edge from `prev` into `block`. */
  datatype Config =
    | At(prev: nat, block: nat, frame: Frame)
    | Done(result: Option<i32>, world: World)

  function Enter(b: Block, prev: nat, params: seq<i32>, s: Frame): Frame {
    s.(regs := PhiRegs(b.phis, prev, params, s.regs))
  }

  function Leave(t: Terminator, here: nat, params: seq<i32>, s: Frame): Config {
    match t
    case Br(b) => At(here, b, s)
    case CondBr(c, b1, b2) => At(here, if Eval(c, params, s.regs) != 0 then b1 else b2, s)
    case Ret(Some(v)) => Done(Some(Eval(v, params, s.regs)), s.world)
    case Ret(None) => Done(None, s.world)
  }

  function RunBlock(f: Function, params: seq<i32>, callees: Callees, c: Config): Config {
    if c.Done? || c.block >= |f.blocks| then c
    else
      var b := f.blocks[c.block];
      Leave(b.term, c.block, params, Steps(b.insts, params, callees, Enter(b, c.prev, params, c.frame)))
  }

  /** The run after `n` blocks. */
  function Run(f: Function, params: seq<i32>, callees: Callees, start: Config, n: nat): Config {
    if n == 0 then start
    else RunBlock(f, params, callees, Run(f, params, callees, start, n - 1))
  }

  /** A call begins in the entry block, with no register or slot written. */
  function Start(w: World): Config {
    At(0, 0, Frame(map[], map[], w))
  }

  /** A start with something in the slots. */
  function From(slots: map<nat, i32>, w: World): Config {
    At(0, 0, Frame(map[], slots, w))
  }

  // ----- registers after the phis of a block -----

  lemma {:induction false} PhiRegsElsewhere(phis: seq<Phi>, prev: nat, params: seq<i32>, regs: map<nat, i32>, r: nat)
    requires forall j :: 0 <= j < |phis| ==> phis[j].dst != r
    ensures Get(PhiRegs(phis, prev, params, regs), r) == Get(regs, r)
  {
    if phis != [] {
      PhiRegsElsewhere(phis[..|phis| - 1], prev, params, regs, r);
    }
  }

  lemma {:induction false} PhiRegsAt(phis: seq<Phi>, prev: nat, params: seq<i32>, regs: map<nat, i32>, j: nat)
    requires j < |phis| && forall i :: j < i < |phis| ==> phis[i].dst != phis[j].dst
    requires Incoming(phis[j].incoming, prev).Some?
    ensures Get(PhiRegs(phis, prev, params, regs), phis[j].dst) ==
            Eval(Incoming(phis[j].incoming, prev).value, params, regs)
  {
    if j < |phis| - 1 {
      PhiRegsAt(phis[..|phis| - 1], prev, params, regs, j);
    }
  }

  /** What can be observed of a run: the edge it is on, or its result, and everything it did to the world. */
  ghost predicate SameSoFar(c: Config, d: Config) {
    match c
    case Done(_, _) => c == d
    case At(p, b, fr) => d.At? && d.prev == p && d.block == b && d.frame.world == fr.world
  }

  /** After every number of blocks, for all arguments, callees and worlds. */
  ghost predicate SameRuns(f: Function, g: Function) {
    forall params: seq<i32>, callees: Callees, w: World, n: nat ::
      SameSoFar(Run(f, params, callees, Start(w), n), Run(g, params, callees, Start(w), n))
  }
}
