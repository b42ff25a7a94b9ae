/** A call replaced by a copy of the function that it calls. */
module Inlining {
  import opened Int32
  import opened Ir
  import opened Ssa
  import opened Runs
  import L = Numbers

  /** What a call is replaced with: the numbers that the registers and slots of the callee get in the caller, the
      register and the slot of the result, and the slots declared at the front of the entry. */
  datatype Plan = Plan(caller: Function, b: nat, k: nat, callee: Function, base: nat, regs: map<nat, nat>,
                       slots: map<nat, nat>,
                       result: nat, resultSlot: nat, declared: seq<nat>)

  predicate HasCall(z: Plan) {
    z.b < |z.caller.blocks| && z.k < |z.caller.blocks[z.b].insts| && z.caller.blocks[z.b].insts[z.k].Call?
  }

  function TheCall(z: Plan): (i: Inst)
    requires HasCall(z)
    ensures i.Call?
  {
    z.caller.blocks[z.b].insts[z.k]
  }

  /** Uses of the call become uses of the register that is loaded from the result slot. */
  function Redirected(z: Plan): map<nat, Operand>
    requires HasCall(z)
  {
    map[TheCall(z).dst := Reg(z.result)]
  }

  // ----- the copy -----

  function New(m: map<nat, nat>, x: nat): nat {
    if x in m then m[x] else x
  }

  function CloneOperand(z: Plan, v: Operand): Operand
    requires HasCall(z)
  {
    match v
    case Const(_) => v
    case Param(i) => if i < |TheCall(z).args| then Apply(Redirected(z), TheCall(z).args[i]) else v
    case Reg(r) => Reg(New(z.regs, r))
  }

  function ClonePointer(z: Plan, p: Pointer): Pointer {
    match p
    case Slot(a) => Slot(New(z.slots, a))
    case Global(_) => p
  }

  function CloneInst(z: Plan, i: Inst): Inst
    requires HasCall(z)
  {
    match i
    case Binary(d, op, x, y) => Binary(New(z.regs, d), op, CloneOperand(z, x), CloneOperand(z, y))
    case Unary(d, op, x) => Unary(New(z.regs, d), op, CloneOperand(z, x))
    case Load(d, p) => Load(New(z.regs, d), ClonePointer(z, p))
    case Store(p, x) => Store(ClonePointer(z, p), CloneOperand(z, x))
    case _ => i
  }

  /** The copies of the instructions, without the allocas. */
  function CloneInsts(z: Plan, insts: seq<Inst>): seq<Inst>
    requires HasCall(z)
  {
    if insts == [] then []
    else
      var n := |insts| - 1;
      CloneInsts(z, insts[..n]) + if insts[n].Alloca? then [] else [CloneInst(z, insts[n])]
  }

  function BodyStart(z: Plan): nat {
    |z.caller.blocks|
  }

  function Continuation(z: Plan): nat {
    |z.caller.blocks| + |z.callee.blocks|
  }

  /** A return stores its value and goes on after the call. */
  function CloneBlock(z: Plan, i: nat): Block
    requires HasCall(z) && i < |z.callee.blocks|
  {
    var blk := z.callee.blocks[i];
    var insts := CloneInsts(z, blk.insts);
    match blk.term
    case Br(t) => Block([], insts, Br(BodyStart(z) + t))
    case CondBr(c, t, e) => Block([], insts, CondBr(CloneOperand(z, c), BodyStart(z) + t, BodyStart(z) + e))
    case Ret(Some(v)) => Block([], insts + [Store(Slot(z.resultSlot), CloneOperand(z, v))], Br(Continuation(z)))
    case Ret(None) => Block([], insts, Br(Continuation(z)))
  }

  function Declarations(slots: seq<nat>): (insts: seq<Inst>)
    ensures forall i :: i in insts ==> i.Alloca?
  {
    seq(|slots|, j requires 0 <= j < |slots| => Alloca(slots[j]))
  }

  /** A block of the caller: the one with the call stops before it. */
  function CallerBlock(z: Plan, i: nat): Block
    requires HasCall(z) && i < |z.caller.blocks|
  {
    var blk, m := z.caller.blocks[i], Redirected(z);
    var front := if i == 0 then Declarations(z.declared) else [];
    if i == z.b then Block([], front + SubstInsts(m, blk.insts[..z.k]), Br(BodyStart(z)))
    else Block([], front + SubstInsts(m, blk.insts), SubstTerm(m, blk.term))
  }

  function ContinuationBlock(z: Plan): Block
    requires HasCall(z)
  {
    var blk, m := z.caller.blocks[z.b], Redirected(z);
    Block([], [Load(z.result, Slot(z.resultSlot))] + SubstInsts(m, blk.insts[z.k + 1..]), SubstTerm(m, blk.term))
  }

  function Inlined(z: Plan): (g: Function)
    requires HasCall(z)
    ensures |g.blocks| == Continuation(z) + 1
    ensures forall i: nat :: i < |z.caller.blocks| ==> g.blocks[i] == CallerBlock(z, i)
    ensures forall i: nat :: i < |z.callee.blocks| ==> g.blocks[BodyStart(z) + i] == CloneBlock(z, i)
    ensures g.blocks[Continuation(z)] == ContinuationBlock(z)
  {
    Function(seq(|z.caller.blocks|, i requires 0 <= i < |z.caller.blocks| => CallerBlock(z, i))
           + seq(|z.callee.blocks|, i requires 0 <= i < |z.callee.blocks| => CloneBlock(z, i))
           + [ContinuationBlock(z)])
  }

  // ----- what the copy relies on -----

  predicate DefinedBefore(insts: seq<Inst>, j: nat, r: nat) {
    exists i: nat :: i < j && i < |insts| && Dst(insts[i]) == Some(r)
  }

  /** The operand is a constant, one of `n` parameters, or was set earlier in the block. */
  predicate Local(insts: seq<Inst>, j: nat, n: nat, v: Operand) {
    match v
    case Const(_) => true
    case Param(i) => i < n
    case Reg(r) => DefinedBefore(insts, j, r)
  }

  predicate AllLocal(insts: seq<Inst>, j: nat, n: nat, vs: seq<Operand>) {
    forall v :: v in vs ==> Local(insts, j, n, v)
  }

  /** What `is_inline_safe` demands of an int function with `n` parameters. A block that was left open is the only one
      of such a function that returns nothing. */
  ghost predicate SafeToInline(f: Function, n: nat) {
    && 0 < |f.blocks|
    && (forall i: nat :: i < |f.blocks| ==> f.blocks[i].term != Ret(None))
    && (forall i: nat :: i < |f.blocks| ==> f.blocks[i].phis == [])
    && (forall i: nat, j: nat :: i < |f.blocks| && j < |f.blocks[i].insts| ==>
          !f.blocks[i].insts[j].Call? && AllLocal(f.blocks[i].insts, j, n, Uses(f.blocks[i].insts[j])))
    && (forall i: nat :: i < |f.blocks| ==>
          AllLocal(f.blocks[i].insts, |f.blocks[i].insts|, n, TermUses(f.blocks[i].term)))
  }

  /** Every branch goes to a block of the function. */
  ghost predicate TargetsWithin(f: Function) {
    forall i: nat, t: nat :: i < |f.blocks| && t in Targets(f.blocks[i].term) ==> t < |f.blocks|
  }

  predicate FreshFor(m: map<nat, nat>, base: nat, taken: nat) {
    && base <= taken
    && (forall x :: x in m ==> base <= m[x] && m[x] != taken)
    && (forall x, y :: x in m && y in m && m[x] == m[y] ==> x == y)
  }

  /** The slot that an instruction goes through has a number in the caller. */
  predicate SlotMapped(i: Inst, m: map<nat, nat>) {
    match i
    case Load(_, Slot(a)) => a in m
    case Store(Slot(a), _) => a in m
    case _ => true
  }

  /** The registers and slots of the callee have numbers of their own in the caller. */
  ghost predicate Mapped(z: Plan) {
    && FreshFor(z.regs, z.base, z.result) && FreshFor(z.slots, z.base, z.resultSlot)
    && (forall i: nat, j: nat :: i < |z.callee.blocks| && j < |z.callee.blocks[i].insts| ==>
          var inst := z.callee.blocks[i].insts[j];
          (Dst(inst).Some? ==> Dst(inst).value in z.regs) && SlotMapped(inst, z.slots))
  }

  ghost predicate Inlinable(z: Plan) {
    && HasCall(z) && L.Below(z.caller, z.base) && Mapped(z)
    && (forall i: nat :: i < |z.caller.blocks| ==> z.caller.blocks[i].phis == [])
    && (forall i: nat, j: nat ::
          i < |z.caller.blocks| && j < |z.caller.blocks[i].insts|
          && Dst(z.caller.blocks[i].insts[j]) == Some(TheCall(z).dst)
          ==> i == z.b && j == z.k)
    && (forall i: nat, t: nat :: i < |z.caller.blocks| && t in Targets(z.caller.blocks[i].term) ==>
          t < |z.caller.blocks|)
    && SafeToInline(z.callee, |TheCall(z).args|) && TargetsWithin(z.callee)
  }

  // ----- the caller's part of the two frames -----

  /** Everything of the caller is the same, but for the register of the call, which is another one. */
  ghost predicate CallerSame(z: Plan, s: Frame, s': Frame)
    requires HasCall(z)
  {
    && (forall q: nat :: q < z.base && q != TheCall(z).dst ==> Get(s'.regs, q) == Get(s.regs, q))
    && Get(s'.regs, z.result) == Get(s.regs, TheCall(z).dst)
    && L.Same(z.base, s.slots, s'.slots)
  }

  ghost predicate Held(z: Plan, s: Frame, s': Frame)
    requires HasCall(z)
  {
    CallerSame(z, s, s') && s'.world.globals == s.world.globals
  }

  lemma OperandSame(z: Plan, v: Operand, params: seq<i32>, s: Frame, s': Frame)
    requires HasCall(z) && L.OperandBelow(v, z.base) && CallerSame(z, s, s')
    ensures Eval(Apply(Redirected(z), v), params, s'.regs) == Eval(v, params, s.regs)
  {
  }

  lemma WriteSame(z: Plan, d: nat, v: i32, s: Frame, s': Frame)
    requires HasCall(z) && d < z.base <= z.result && d != TheCall(z).dst && CallerSame(z, s, s')
    ensures CallerSame(z, s.(regs := s.regs[d := v]), s'.(regs := s'.regs[d := v]))
  {
    var m, m' := s.regs[d := v], s'.regs[d := v];
    forall q: nat | q < z.base && q != TheCall(z).dst ensures Get(m', q) == Get(m, q) {
      assert Get(s'.regs, q) == Get(s.regs, q);
    }
  }

  lemma StepSame(z: Plan, i: Inst, params: seq<i32>, o: Callees, s: Frame, s': Frame)
    requires hide *; HasCall(z) && L.InstBelow(i, z.base) && z.base <= z.result && Dst(i) != Some(TheCall(z).dst)
             && Held(z, s, s')
    requires L.GlobalsOnly(o)
    ensures Held(z, Step(i, params, o, s), Step(SubstInst(Redirected(z), i), params, o, s'))
  {
    var m := Redirected(z);
    match i
    case Binary(d, op, x, y) =>
      OperandSame(z, x, params, s, s');
      OperandSame(z, y, params, s, s');
      WriteSame(z, d, Binop(op, Eval(x, params, s.regs), Eval(y, params, s.regs)), s, s');
    case Unary(d, op, x) =>
      OperandSame(z, x, params, s, s');
      WriteSame(z, d, Unop(op, Eval(x, params, s.regs)), s, s');
    case Alloca(_) =>
    case Load(d, Slot(a)) => WriteSame(z, d, Get(s.slots, a), s, s');
    case Load(d, Global(g)) => WriteSame(z, d, Get(s.world.globals, g), s, s');
    case Store(Slot(a), x) =>
      OperandSame(z, x, params, s, s');
      L.WriteHeld(z.base, s.slots, s'.slots, a, Eval(x, params, s.regs), Eval(Apply(m, x), params, s'.regs));
    case Store(Global(_), x) => OperandSame(z, x, params, s, s');
    case Call(d, c, xs) =>
      ArgsSame(z, xs, params, s, s');
      WriteSame(z, d, o(c, EvalAll(xs, params, s.regs), s.world).0, s, s');
  }

  lemma ArgsSame(z: Plan, xs: seq<Operand>, params: seq<i32>, s: Frame, s': Frame)
    requires hide *; HasCall(z) && (forall j :: 0 <= j < |xs| ==> L.OperandBelow(xs[j], z.base)) && CallerSame(z, s, s')
    ensures EvalAll(ApplyAll(Redirected(z), xs), params, s'.regs) == EvalAll(xs, params, s.regs)
  {
    hide CallerSame, Eval, HasCall, L.OperandBelow, Redirected;
    forall j | 0 <= j < |xs|
      ensures Eval(ApplyAll(Redirected(z), xs)[j], params, s'.regs) == Eval(xs[j], params, s.regs) {
      OperandSame(z, xs[j], params, s, s');
    }
  }

  lemma {:induction false} StepsSame(z: Plan, insts: seq<Inst>, params: seq<i32>, o: Callees, s: Frame, s': Frame)
    requires hide *; HasCall(z) && z.base <= z.result && Held(z, s, s') && L.GlobalsOnly(o)
    requires forall j :: 0 <= j < |insts| ==> L.InstBelow(insts[j], z.base) && Dst(insts[j]) != Some(TheCall(z).dst)
    ensures Held(z, Steps(insts, params, o, s), Steps(SubstInsts(Redirected(z), insts), params, o, s'))
  {
    hide Held, L.InstBelow, Step, SubstInst, L.GlobalsOnly;
    if insts != [] {
      var n := |insts| - 1;
      StepsSame(z, insts[..n], params, o, s, s');
      assert SubstInsts(Redirected(z), insts)[..n] == SubstInsts(Redirected(z), insts[..n]);
      StepSame(z, insts[n], params, o, Steps(insts[..n], params, o, s),
               Steps(SubstInsts(Redirected(z), insts[..n]), params, o, s'));
    }
  }

  lemma {:induction false} AllocasDoNothing(insts: seq<Inst>, params: seq<i32>, o: Callees, s: Frame)
    requires forall i :: i in insts ==> i.Alloca?
    ensures Steps(insts, params, o, s) == s
  {
    if insts != [] {
      AllocasDoNothing(insts[..|insts| - 1], params, o, s);
      assert insts[|insts| - 1] in insts;
    }
  }

  lemma TermSame(z: Plan, t: Terminator, here: nat, here': nat, params: seq<i32>, s: Frame, s': Frame)
    requires hide *; HasCall(z) && L.TermBelow(t, z.base) && Held(z, s, s')
    ensures var c, c' := Leave(t, here, params, s), Leave(SubstTerm(Redirected(z), t), here', params, s');
      match c
      case At(_, b, _) => b in Targets(t) && c == At(here, b, s) && c' == At(here', b, s')
      case Done(r, w) => c'.Done? && c'.result == r && w == s.world && c'.world == s'.world
  {
    match t
    case CondBr(v, _, _) => OperandSame(z, v, params, s, s');
    case Ret(Some(v)) => OperandSame(z, v, params, s, s');
    case _ =>
  }

  // ----- inside the copy -----

  /** What the copy knows before instruction `j` of block `i`: the registers set in the block so far, all slots of the
      callee, the globals, and the caller as it was at the call (`s`). */
  ghost predicate BodyHeld(z: Plan, i: nat, j: nat, s: Frame, t: Frame, s': Frame)
    requires HasCall(z) && i < |z.callee.blocks|
  {
    var insts := z.callee.blocks[i].insts;
    && (forall r: nat :: DefinedBefore(insts, j, r) ==> Get(s'.regs, New(z.regs, r)) == Get(t.regs, r))
    && SlotsHeld(z, t, s') && s'.world.globals == t.world.globals && CallerSame(z, s, s')
  }

  ghost predicate SlotsHeld(z: Plan, t: Frame, s': Frame) {
    forall a: nat :: a in z.slots ==> Get(s'.slots, z.slots[a]) == Get(t.slots, a)
  }

  lemma CloneOperandHeld(z: Plan, insts: seq<Inst>, j: nat, v: Operand, params: seq<i32>, xs: seq<i32>, s: Frame,
                         t: Frame, s': Frame)
    requires hide *; HasCall(z) && L.InstBelow(TheCall(z), z.base) && Local(insts, j, |TheCall(z).args|, v)
             && CallerSame(z, s, s')
    requires xs == EvalAll(TheCall(z).args, params, s.regs)
    requires forall r: nat :: DefinedBefore(insts, j, r) ==> Get(s'.regs, New(z.regs, r)) == Get(t.regs, r)
    ensures Eval(CloneOperand(z, v), params, s'.regs) == Eval(v, xs, t.regs)
  {
    if v.Param? {
      OperandSame(z, TheCall(z).args[v.index], params, s, s');
    }
  }

  lemma DefinedNext(insts: seq<Inst>, j: nat, r: nat)
    requires j < |insts| && DefinedBefore(insts, j + 1, r)
    ensures DefinedBefore(insts, j, r) || Dst(insts[j]) == Some(r)
  {
    var i: nat :| i < j + 1 && i < |insts| && Dst(insts[i]) == Some(r);
    assert i < j || i == j;
  }

  /** The arguments, as the copy sees them. */
  ghost predicate Passed(z: Plan, params: seq<i32>, xs: seq<i32>, s: Frame)
    requires HasCall(z)
  {
    L.InstBelow(TheCall(z), z.base) && xs == EvalAll(TheCall(z).args, params, s.regs)
  }

  /** A write to a register of the callee. */
  lemma BodyWrite(z: Plan, i: nat, j: nat, d: nat, v: i32, s: Frame, t: Frame, s': Frame)
    requires hide *; HasCall(z) && Mapped(z) && i < |z.callee.blocks| && j < |z.callee.blocks[i].insts|
    requires BodyHeld(z, i, j, s, t, s') && Dst(z.callee.blocks[i].insts[j]) == Some(d)
    ensures BodyHeld(z, i, j + 1, s, t.(regs := t.regs[d := v]), s'.(regs := s'.regs[New(z.regs, d) := v]))
  {
    var insts := z.callee.blocks[i].insts;
    var m, m' := t.regs[d := v], s'.regs[New(z.regs, d) := v];
    RegMapped(z, i, j);
    forall r: nat | DefinedBefore(insts, j + 1, r) ensures Get(m', New(z.regs, r)) == Get(m, r) {
      DefinedNext(insts, j, r);
      if r != d {
        DefinedIsMapped(z, i, j + 1, r);
      }
    }
  }

  lemma RegMapped(z: Plan, i: nat, j: nat)
    requires Mapped(z) && i < |z.callee.blocks| && j < |z.callee.blocks[i].insts|
    ensures var inst := z.callee.blocks[i].insts[j];
            (Dst(inst).Some? ==> Dst(inst).value in z.regs) && SlotMapped(inst, z.slots)
  {
  }

  lemma DefinedIsMapped(z: Plan, i: nat, j: nat, r: nat)
    requires Mapped(z) && i < |z.callee.blocks| && DefinedBefore(z.callee.blocks[i].insts, j, r)
    ensures r in z.regs
  {
    var insts := z.callee.blocks[i].insts;
    var n: nat :| n < j && n < |insts| && Dst(insts[n]) == Some(r);
    RegMapped(z, i, n);
  }

  lemma BodyStore(z: Plan, i: nat, j: nat, a: nat, v: i32, s: Frame, t: Frame, s': Frame)
    requires hide *; HasCall(z) && Mapped(z) && i < |z.callee.blocks| && j < |z.callee.blocks[i].insts|
    requires BodyHeld(z, i, j, s, t, s')
    requires z.callee.blocks[i].insts[j].Store? && z.callee.blocks[i].insts[j].ptr == Slot(a)
    ensures BodyHeld(z, i, j + 1, s, t.(slots := t.slots[a := v]), s'.(slots := s'.slots[New(z.slots, a) := v]))
  {
    var insts := z.callee.blocks[i].insts;
    var m, m' := t.slots[a := v], s'.slots[New(z.slots, a) := v];
    RegMapped(z, i, j);
    forall r: nat | DefinedBefore(insts, j + 1, r) ensures Get(s'.regs, New(z.regs, r)) == Get(t.regs, r) {
      DefinedNext(insts, j, r);
    }
    forall x: nat | x in z.slots ensures Get(m', z.slots[x]) == Get(m, x) {
      assert Get(s'.slots, z.slots[x]) == Get(t.slots, x);
    }
    L.OtherWrite(z.base, s'.slots, New(z.slots, a), v);
  }

  /** An instruction that sets no register and stores to no slot. */
  lemma BodyOther(z: Plan, i: nat, j: nat, s: Frame, t: Frame, s': Frame, u: Frame, u': Frame)
    requires HasCall(z) && i < |z.callee.blocks| && j < |z.callee.blocks[i].insts|
    requires BodyHeld(z, i, j, s, t, s') && Dst(z.callee.blocks[i].insts[j]).None?
    requires !(z.callee.blocks[i].insts[j].Store? && z.callee.blocks[i].insts[j].ptr.Slot?)
    requires u.regs == t.regs && u.slots == t.slots && u'.regs == s'.regs && u'.slots == s'.slots
             && u'.world.globals == u.world.globals
    ensures BodyHeld(z, i, j + 1, s, u, u')
  {
    var insts := z.callee.blocks[i].insts;
    forall r: nat | DefinedBefore(insts, j + 1, r) ensures DefinedBefore(insts, j, r) {
      DefinedNext(insts, j, r);
    }
  }

  lemma BodyStep(z: Plan, i: nat, j: nat, params: seq<i32>, xs: seq<i32>, o: Callees,
                 s: Frame, t: Frame, s': Frame)
    requires hide *; HasCall(z) && Mapped(z) && SafeToInline(z.callee, |TheCall(z).args|)
    requires i < |z.callee.blocks| && j < |z.callee.blocks[i].insts|
    requires Passed(z, params, xs, s) && BodyHeld(z, i, j, s, t, s')
    ensures var inst := z.callee.blocks[i].insts[j];
      BodyHeld(z, i, j + 1, s, Step(inst, xs, o, t), if inst.Alloca? then s'
                                                               else Step(CloneInst(z, inst), params, o, s'))
  {
    hide Mapped, L.InstBelow, DefinedBefore, SafeToInline, CloneOperand, Passed;
    var insts := z.callee.blocks[i].insts;
    var inst := insts[j];
    UsesHeld(z, i, j, params, xs, s, t, s');
    match inst
    case Binary(d, op, x, y) =>
      assert x in Uses(inst) && y in Uses(inst);
      BodyWrite(z, i, j, d, Binop(op, Eval(x, xs, t.regs), Eval(y, xs, t.regs)), s, t, s');
    case Unary(d, op, x) =>
      assert x in Uses(inst);
      BodyWrite(z, i, j, d, Unop(op, Eval(x, xs, t.regs)), s, t, s');
    case Alloca(_) => BodyOther(z, i, j, s, t, s', t, s');
    case Load(d, Slot(a)) =>
      SlotSame(z, i, j, a, t, s');
      BodyWrite(z, i, j, d, Get(t.slots, a), s, t, s');
    case Load(d, Global(g)) =>
      BodyWrite(z, i, j, d, Get(t.world.globals, g), s, t, s');
    case Store(Slot(a), x) =>
      assert x in Uses(inst);
      BodyStore(z, i, j, a, Eval(x, xs, t.regs), s, t, s');
    case Store(Global(_), x) =>
      assert x in Uses(inst);
      BodyOther(z, i, j, s, t, s', Step(inst, xs, o, t), Step(CloneInst(z, inst), params, o, s'));
    case Call(_, _, _) =>
  }

  lemma SlotSame(z: Plan, i: nat, j: nat, a: nat, t: Frame, s': Frame)
    requires Mapped(z) && i < |z.callee.blocks| && j < |z.callee.blocks[i].insts| && SlotsHeld(z, t, s')
    requires z.callee.blocks[i].insts[j].Load? && z.callee.blocks[i].insts[j].ptr == Slot(a)
    ensures Get(s'.slots, New(z.slots, a)) == Get(t.slots, a)
  {
    RegMapped(z, i, j);
  }

  lemma UsesHeld(z: Plan, i: nat, j: nat, params: seq<i32>, xs: seq<i32>, s: Frame, t: Frame,
                 s': Frame)
    requires hide *; HasCall(z) && SafeToInline(z.callee, |TheCall(z).args|)
    requires i < |z.callee.blocks| && j < |z.callee.blocks[i].insts|
    requires Passed(z, params, xs, s) && BodyHeld(z, i, j, s, t, s')
    ensures forall v :: v in Uses(z.callee.blocks[i].insts[j]) ==>
              Eval(CloneOperand(z, v), params, s'.regs) == Eval(v, xs, t.regs)
    ensures !z.callee.blocks[i].insts[j].Call?
  {
    hide CallerSame, L.InstBelow, DefinedBefore;
    var insts := z.callee.blocks[i].insts;
    assert AllLocal(insts, j, |TheCall(z).args|, Uses(insts[j]));
    forall v | v in Uses(insts[j]) ensures Eval(CloneOperand(z, v), params, s'.regs) == Eval(v, xs, t.regs) {
      CloneOperandHeld(z, insts, j, v, params, xs, s, t, s');
    }
  }

  lemma {:induction false} BodySteps(z: Plan, i: nat, j: nat, params: seq<i32>, xs: seq<i32>,
                                     o: Callees,
                                     s: Frame, t: Frame, s': Frame)
    requires hide *; HasCall(z) && Mapped(z) && SafeToInline(z.callee, |TheCall(z).args|)
    requires i < |z.callee.blocks| && j <= |z.callee.blocks[i].insts|
    requires Passed(z, params, xs, s) && BodyHeld(z, i, 0, s, t, s')
    ensures var insts := z.callee.blocks[i].insts[..j];
      BodyHeld(z, i, j, s, Steps(insts, xs, o, t), Steps(CloneInsts(z, insts), params, o, s'))
    decreases j
  {
    hide BodyHeld, CloneInst, Mapped, Passed, SafeToInline, Step;
    var insts := z.callee.blocks[i].insts;
    if j == 0 {
      assert insts[..0] == [];
    } else {
      BodySteps(z, i, j - 1, params, xs, o, s, t, s');
      assert insts[..j][..j - 1] == insts[..j - 1];
      var front := CloneInsts(z, insts[..j - 1]);
      BodyStep(z, i, j - 1, params, xs, o, s, Steps(insts[..j - 1], xs, o, t), Steps(front, params, o, s'));
      CloneLast(z, insts, j, params, o, s');
    }
  }

  lemma CloneLast(z: Plan, insts: seq<Inst>, j: nat, params: seq<i32>, o: Callees, s: Frame)
    requires hide *; HasCall(z) && 0 < j <= |insts|
    ensures var front := Steps(CloneInsts(z, insts[..j - 1]), params, o, s);
      Steps(CloneInsts(z, insts[..j]), params, o, s) == if insts[j - 1].Alloca? then front
                                                          else Step(CloneInst(z, insts[j - 1]), params, o, front)
  {
    hide CloneInst, Step;
    assert insts[..j][..j - 1] == insts[..j - 1];
    var front := CloneInsts(z, insts[..j - 1]);
    if insts[j - 1].Alloca? {
      assert CloneInsts(z, insts[..j]) == front;
    } else {
      assert CloneInsts(z, insts[..j]) == front + [CloneInst(z, insts[j - 1])];
      assert (front + [CloneInst(z, insts[j - 1])])[..|front|] == front;
    }
  }

  // ----- blocks of the copy -----

  /** The callee's own run, and the run inside the copy. */
  ghost predicate InBody(z: Plan, s: Frame, c: Config, c': Config)
    requires HasCall(z)
  {
    && c'.At?
    && match c
       case At(_, i, t) =>
         i < |z.callee.blocks| && c'.block == BodyStart(z) + i
           && BodyHeld(z, i, 0, s, t, c'.frame)
       case Done(r, w) =>
         && c'.block == Continuation(z) && CallerSame(z, s, c'.frame) && c'.frame.world.globals == w.globals
         && r.Some? && Get(c'.frame.slots, z.resultSlot) == r.value
  }

  lemma BodyEdge(z: Plan, i: nat, to: nat, s: Frame, t: Frame, s': Frame)
    requires hide BodyHeld, HasCall, Targets;
             HasCall(z) && TargetsWithin(z.callee) && i < |z.callee.blocks| && to in Targets(z.callee.blocks[i].term)
    requires BodyHeld(z, i, |z.callee.blocks[i].insts|, s, t, s')
    ensures to < |z.callee.blocks| && BodyHeld(z, to, 0, s, t, s')
  {
    assert to < |z.callee.blocks|;
  }

  lemma BodyLeave(z: Plan, i: nat, params: seq<i32>, xs: seq<i32>, o: Callees, s: Frame,
                  t: Frame, s': Frame)
    requires hide *; HasCall(z) && Mapped(z) && SafeToInline(z.callee, |TheCall(z).args|) && TargetsWithin(z.callee)
    requires i < |z.callee.blocks|
    requires Passed(z, params, xs, s) && BodyHeld(z, i, |z.callee.blocks[i].insts|, s, t, s')
    ensures var blk, g := z.callee.blocks[i], CloneBlock(z, i);
      var last := if blk.term.Ret? && blk.term.result.Some?
                    then Step(Store(Slot(z.resultSlot), CloneOperand(z, blk.term.result.value)), params, o, s') else s';
      InBody(z, s, Leave(blk.term, i, xs, t), Leave(g.term, BodyStart(z) + i, params, last))
  {
    hide Binop, CloneInsts, CloneOperand, L.InstBelow, Unop;
    var blk := z.callee.blocks[i];
    var insts := blk.insts;
    assert AllLocal(insts, |insts|, |TheCall(z).args|, TermUses(blk.term)) && blk.term != Ret(None);
    hide TargetsWithin, SafeToInline, Local, DefinedBefore, SlotsHeld;
    match blk.term
    case Br(to) => BodyEdge(z, i, to, s, t, s');
    case CondBr(v, to, other) =>
      assert v in TermUses(blk.term);
      CloneOperandHeld(z, insts, |insts|, v, params, xs, s, t, s');
      assert to in Targets(blk.term) && other in Targets(blk.term);
      BodyEdge(z, i, to, s, t, s');
      BodyEdge(z, i, other, s, t, s');
    case Ret(Some(v)) =>
      assert v in TermUses(blk.term);
      CloneOperandHeld(z, insts, |insts|, v, params, xs, s, t, s');
      L.OtherWrite(z.base, s'.slots, z.resultSlot, Eval(v, xs, t.regs));
  }

  lemma BodyBlock(z: Plan, params: seq<i32>, xs: seq<i32>, o: Callees, s: Frame, c: Config,
                  c': Config)
    requires hide InBody, Inlined, Mapped, RunBlock, SafeToInline; Inlinable(z) && Passed(z, params, xs, s)
    requires InBody(z, s, c, c') && c.At?
    ensures InBody(z, s, RunBlock(z.callee, xs, o, c), RunBlock(Inlined(z), params, o, c'))
  {
    hide *;
    ItHasACall(z);
    InBodyAt(z, s, c, c');
    var i := c.block;
    var blk, g := z.callee.blocks[i], Inlined(z);
    var insts := blk.insts;
    InlinableBlock(z, i);
    InlinedBlock(z, i);
    NoPhis(blk, c.prev, xs, c.frame);
    NoPhis(g.blocks[BodyStart(z) + i], c'.prev, params, c'.frame);
    BodySteps(z, i, |insts|, params, xs, o, s, c.frame, c'.frame);
    assert insts[..|insts|] == insts;
    var t, t' := Steps(insts, xs, o, c.frame), Steps(CloneInsts(z, insts), params, o, c'.frame);
    BodyLeave(z, i, params, xs, o, s, t, t');
    OneBlock(z.callee, xs, o, c);
    OneBlock(g, params, o, c');
    CloneEnds(z, i, params, o, c'.frame);
  }

  lemma InBodyAt(z: Plan, s: Frame, c: Config, c': Config)
    requires hide *; HasCall(z) && InBody(z, s, c, c') && c.At?
    ensures c'.At? && c.block < |z.callee.blocks| && c'.block == BodyStart(z) + c.block
    ensures BodyHeld(z, c.block, 0, s, c.frame, c'.frame)
  {
  }

  lemma ItHasACall(z: Plan)
    requires Inlinable(z)
    ensures HasCall(z)
  {
    hide Dst, L.Below, Mapped, SafeToInline;
  }

  lemma InlinableBlock(z: Plan, i: nat)
    requires hide Dst, L.Below, Mapped, SafeToInline; Inlinable(z) && i < |z.callee.blocks|
    ensures Mapped(z) && SafeToInline(z.callee, |TheCall(z).args|) && TargetsWithin(z.callee)
    ensures z.callee.blocks[i].phis == []
  {
    hide AllLocal, Dst, FreshFor, L.Below, Uses;
  }

  lemma InlinedBlock(z: Plan, i: nat)
    requires hide *; HasCall(z) && i < |z.callee.blocks|
    ensures BodyStart(z) + i < |Inlined(z).blocks| && Inlined(z).blocks[BodyStart(z) + i] == CloneBlock(z, i)
    ensures CloneBlock(z, i).phis == []
  {
    hide CloneInsts, CloneOperand, Inlined;
  }

  lemma NoPhis(b: Block, prev: nat, params: seq<i32>, s: Frame)
    requires b.phis == []
    ensures Enter(b, prev, params, s) == s
  {
  }

  lemma CloneEnds(z: Plan, i: nat, params: seq<i32>, o: Callees, s: Frame)
    requires hide *; HasCall(z) && i < |z.callee.blocks|
    ensures var blk := z.callee.blocks[i]; var t := Steps(CloneInsts(z, blk.insts), params, o, s);
      Steps(CloneBlock(z, i).insts, params, o, s) ==
        if blk.term.Ret? && blk.term.result.Some?
          then Step(Store(Slot(z.resultSlot), CloneOperand(z, blk.term.result.value)), params, o, t) else t
  {
    hide CloneInsts, CloneOperand, Step;
    var blk := z.callee.blocks[i];
    var insts := CloneInsts(z, blk.insts);
    if blk.term.Ret? && blk.term.result.Some? {
      var last := Store(Slot(z.resultSlot), CloneOperand(z, blk.term.result.value));
      assert (insts + [last])[..|insts|] == insts;
    }
  }

  // ----- a whole call -----

  /** What the copy finds in the slots of the callee: what the last pass through it left there. */
  ghost function LeftOver(z: Plan, s: Frame): map<nat, i32> {
    map a | a in z.slots :: Get(s.slots, z.slots[a])
  }

  ghost function CalleeStart(z: Plan, s: Frame): Config {
    From(LeftOver(z, s), World(s.world.globals, []))
  }

  lemma EntersBody(z: Plan, prev: nat, s: Frame, s': Frame)
    requires hide *; HasCall(z) && SafeToInline(z.callee, |TheCall(z).args|) && Held(z, s, s')
    ensures InBody(z, s, CalleeStart(z, s'), At(prev, BodyStart(z), s'))
  {
  }

  /** As long as the callee has not returned, the copy is where the callee is; when it returns, the copy is past it. */
  lemma {:induction false} BodyRun(z: Plan, params: seq<i32>, xs: seq<i32>, o: Callees, prev: nat,
                                   s: Frame, s': Frame, n: nat)
    requires hide InBody, Inlined, Mapped, Run, SafeToInline; Inlinable(z) && Passed(z, params, xs, s) && Held(z, s, s')
    requires n > 0 ==> Run(z.callee, xs, o, CalleeStart(z, s'), n - 1).At?
    ensures InBody(z, s, Run(z.callee, xs, o, CalleeStart(z, s'), n),
                   Run(Inlined(z), params, o, At(prev, BodyStart(z), s'), n))
  {
    hide InBody, Inlined, Mapped, RunBlock, SafeToInline, Passed, Held;
    if n == 0 {
      hide CalleeStart;
      InlinableCallee(z);
      EntersBody(z, prev, s, s');
    } else {
      if n > 1 {
        AtBefore(z.callee, xs, o, CalleeStart(z, s'), n - 1);
      }
      BodyRun(z, params, xs, o, prev, s, s', n - 1);
      BodyBlock(z, params, xs, o, s, Run(z.callee, xs, o, CalleeStart(z, s'), n - 1),
                Run(Inlined(z), params, o, At(prev, BodyStart(z), s'), n - 1));
    }
  }

  lemma InlinableCallee(z: Plan)
    requires hide Dst, L.Below, Mapped, SafeToInline; Inlinable(z)
    ensures SafeToInline(z.callee, |TheCall(z).args|) && TargetsWithin(z.callee)
  {
    hide AllLocal, Dst, L.Below, Mapped, Uses;
  }

  /** A run that has not ended had not ended before. */
  lemma AtBefore(f: Function, params: seq<i32>, o: Callees, c: Config, n: nat)
    requires hide *; n > 0 && Run(f, params, o, c, n).At?
    ensures Run(f, params, o, c, n - 1).At?
  {
    hide Enter, Leave, Steps;
  }

  // ----- the caller's run -----

  /** The frame just before the call, where the block of the call is entered with `c`. */
  function AtCall(z: Plan, params: seq<i32>, o: Callees, c: Config): Frame
    requires HasCall(z) && c.At?
  {
    Steps(z.caller.blocks[z.b].insts[..z.k], params, o, c.frame)
  }

  function ArgsAt(z: Plan, params: seq<i32>, o: Callees, c: Config): seq<i32>
    requires hide *; HasCall(z) && c.At?
  {
    EvalAll(TheCall(z).args, params, AtCall(z, params, o, c).regs)
  }

  ghost predicate EndsFrom(f: Function, xs: seq<i32>, o: Callees, slots: map<nat, i32>, w: World) {
    exists m: nat :: Run(f, xs, o, From(slots, w), m).Done?
  }

  /** If the call is about to be made, the callee returns from it, whatever is in its slots. */
  ghost predicate CallReturns(z: Plan, params: seq<i32>, o: Callees, c: Config)
    requires hide *; HasCall(z)
  {
    c.At? && c.block == z.b ==>
      forall slots: map<nat, i32> ::
        EndsFrom(z.callee, ArgsAt(z, params, o, c), o, slots, World(AtCall(z, params, o, c).world.globals, []))
  }

  /** A call gives what the callee gives, whatever is in the slots of the callee. */
  ghost predicate Faithful(z: Plan, o: Callees)
    requires HasCall(z)
  {
    forall xs: seq<i32>, slots: map<nat, i32>, w: World, m: nat :: |xs| == |TheCall(z).args| ==>
      AnswersAs(o, TheCall(z).callee, xs, w, Run(z.callee, xs, o, From(slots, World(w.globals, [])), m))
  }

  ghost predicate AnswersAs(o: Callees, c: string, xs: seq<i32>, w: World, d: Config) {
    d.Done? && d.result.Some? ==> o(c, xs, w) == (d.result.value, d.world.globals)
  }

  /** Whether the callee returns does not depend on what is in its slots. */
  ghost predicate Even(z: Plan, o: Callees)
    requires hide *; HasCall(z)
  {
    forall xs: seq<i32>, slots: map<nat, i32>, slots': map<nat, i32>, w: World ::
      |xs| == |TheCall(z).args| && EndsFrom(z.callee, xs, o, slots, w) ==> EndsFrom(z.callee, xs, o, slots', w)
  }

  /** The two runs at the same block of the caller, or ended alike. */
  ghost predicate Related(z: Plan, c: Config, c': Config)
    requires HasCall(z)
  {
    match c
    case At(_, i, s) => i < |z.caller.blocks| && c'.At? && c'.block == i && Held(z, s, c'.frame)
    case Done(r, w) => c'.Done? && c'.result == r && c'.world.globals == w.globals
  }

  lemma InstsOfCaller(z: Plan, i: nat)
    requires hide L.Below, L.InstBelow, L.TermBelow, Mapped, SafeToInline; Inlinable(z) && i < |z.caller.blocks|
    ensures z.base <= z.result && L.TermBelow(z.caller.blocks[i].term, z.base) && z.caller.blocks[i].phis == []
    ensures forall j: nat :: j < |z.caller.blocks[i].insts| ==> L.InstBelow(z.caller.blocks[i].insts[j], z.base)
    ensures forall j: nat :: j < |z.caller.blocks[i].insts| && (i != z.b || j != z.k) ==>
              Dst(z.caller.blocks[i].insts[j]) != Some(TheCall(z).dst)
    ensures forall t :: t in Targets(z.caller.blocks[i].term) ==> t < |z.caller.blocks|
  {
    hide Mapped, SafeToInline, TargetsWithin;
    assert L.BlockBelow(z.caller.blocks[i], z.base);
    BaseBelowResult(z);
  }

  lemma BaseBelowResult(z: Plan)
    requires Mapped(z)
    ensures z.base <= z.result
  {
  }

  lemma DeclarationsDoNothing(z: Plan, i: nat, insts: seq<Inst>, params: seq<i32>, o: Callees, s: Frame)
    ensures Steps((if i == 0 then Declarations(z.declared) else []) + insts, params, o, s) == Steps(insts, params, o, s)
  {
    hide *;
    if i == 0 {
      AllocasDoNothing(Declarations(z.declared), params, o, s);
      StepsAppend(Declarations(z.declared), insts, params, o, s);
    } else {
      assert [] + insts == insts;
    }
  }

  lemma CallerBlockIs(z: Plan, i: nat)
    requires hide *; HasCall(z) && i < |z.caller.blocks|
    ensures i < |Inlined(z).blocks| && Inlined(z).blocks[i] == CallerBlock(z, i) && CallerBlock(z, i).phis == []
  {
    hide Inlined, Redirected, SubstInsts, SubstTerm, Declarations;
  }

  /** A block without the call. */
  lemma OtherBlock(z: Plan, params: seq<i32>, o: Callees, c: Config, c': Config)
    requires hide Inlined, L.Below, Related, RunBlock, SafeToInline;
             Inlinable(z) && L.GlobalsOnly(o) && Related(z, c, c') && c.At? && c.block != z.b
    ensures Related(z, RunBlock(z.caller, params, o, c), RunBlock(Inlined(z), params, o, c'))
  {
    hide Enter, Inlined, Mapped, SafeToInline, Steps, SubstInsts, Declarations, Held, Redirected, L.GlobalsOnly;
    var i := c.block;
    var blk, g := z.caller.blocks[i], Inlined(z);
    InstsOfCaller(z, i);
    CallerBlockIs(z, i);
    hide Inlinable;
    var m := Redirected(z);
    NoPhis(blk, c.prev, params, c.frame);
    NoPhis(g.blocks[i], c'.prev, params, c'.frame);
    OneBlock(z.caller, params, o, c);
    OneBlock(g, params, o, c');
    DeclarationsDoNothing(z, i, SubstInsts(m, blk.insts), params, o, c'.frame);
    StepsSame(z, blk.insts, params, o, c.frame, c'.frame);
    TermSame(z, blk.term, i, i, params, Steps(blk.insts, params, o, c.frame),
             Steps(SubstInsts(m, blk.insts), params, o, c'.frame));
    HeldGlobals(z, Steps(blk.insts, params, o, c.frame), Steps(SubstInsts(m, blk.insts), params, o, c'.frame));
  }

  lemma HeldGlobals(z: Plan, s: Frame, s': Frame)
    requires HasCall(z) && Held(z, s, s')
    ensures s'.world.globals == s.world.globals
  {
  }

  /** The block with the call, up to the call. */
  lemma UpToCall(z: Plan, params: seq<i32>, o: Callees, c: Config, c': Config)
    requires hide Inlined, L.Below, RunBlock, SafeToInline, Steps;
             Inlinable(z) && L.GlobalsOnly(o) && Related(z, c, c') && c.At? && c.block == z.b
    ensures var d := RunBlock(Inlined(z), params, o, c');
      d.At? && d.prev == z.b && d.block == BodyStart(z) && Held(z, AtCall(z, params, o, c), d.frame)
  {
    hide Enter, Inlined, Mapped, SafeToInline, Steps, SubstInsts, Declarations, Held, Redirected, L.GlobalsOnly;
    var blk, g := z.caller.blocks[z.b], Inlined(z);
    InstsOfCaller(z, z.b);
    CallerBlockIs(z, z.b);
    hide Inlinable;
    var m := Redirected(z);
    NoPhis(g.blocks[z.b], c'.prev, params, c'.frame);
    OneBlock(g, params, o, c');
    DeclarationsDoNothing(z, z.b, SubstInsts(m, blk.insts[..z.k]), params, o, c'.frame);
    StepsSame(z, blk.insts[..z.k], params, o, c.frame, c'.frame);
  }

  /** Loading the result does what the call does. */
  lemma ResultLoaded(z: Plan, params: seq<i32>, o: Callees, s: Frame, s': Frame, v: i32)
    requires hide *; HasCall(z) && L.InstBelow(TheCall(z), z.base) && z.base <= z.result && CallerSame(z, s, s')
             && Get(s'.slots, z.resultSlot) == v
    requires o(TheCall(z).callee, EvalAll(TheCall(z).args, params, s.regs), s.world) == (v, s'.world.globals)
    ensures Held(z, Step(TheCall(z), params, o, s), Step(Load(z.result, Slot(z.resultSlot)), params, o, s'))
  {
    var d := TheCall(z).dst;
    var m, m' := s.regs[d := v], s'.regs[z.result := v];
    forall q: nat | q < z.base && q != d ensures Get(m', q) == Get(m, q) {
      assert Get(s'.regs, q) == Get(s.regs, q);
    }
  }

  /** From the continuation on. */
  lemma AfterCall(z: Plan, params: seq<i32>, o: Callees, c: Config, d: Config, v: i32)
    requires hide Inlined, L.Below, RunBlock, SafeToInline, Steps;
             Inlinable(z) && L.GlobalsOnly(o) && c.At? && c.block == z.b
    requires d.At? && d.block == Continuation(z) && CallerSame(z, AtCall(z, params, o, c), d.frame)
    requires Get(d.frame.slots, z.resultSlot) == v
    requires o(TheCall(z).callee, ArgsAt(z, params, o, c), AtCall(z, params, o, c).world) == (v, d.frame.world.globals)
    ensures Related(z, RunBlock(z.caller, params, o, c), RunBlock(Inlined(z), params, o, d))
  {
    hide Enter, Inlined, Mapped, SafeToInline, Step, SubstInsts, Held, Redirected, L.GlobalsOnly, CallerSame;
    var blk, g, m := z.caller.blocks[z.b], Inlined(z), Redirected(z);
    InstsOfCaller(z, z.b);
    ContinuationIs(z);
    hide Inlinable;
    var s := AtCall(z, params, o, c);
    var rest := blk.insts[z.k + 1..];
    ResultLoaded(z, params, o, s, d.frame, v);
    var t, t' := Step(TheCall(z), params, o, s), Step(Load(z.result, Slot(z.resultSlot)), params, o, d.frame);
    StepsSame(z, rest, params, o, t, t');
    TermSame(z, blk.term, z.b, Continuation(z), params, Steps(rest, params, o, t),
             Steps(SubstInsts(m, rest), params, o, t'));
    HeldGlobals(z, Steps(rest, params, o, t), Steps(SubstInsts(m, rest), params, o, t'));
    WholeCallBlock(z, params, o, c);
    NoPhis(blk, c.prev, params, c.frame);
    NoPhis(g.blocks[Continuation(z)], d.prev, params, d.frame);
    OneBlock(z.caller, params, o, c);
    OneBlock(g, params, o, d);
    LoadThenRest(z, SubstInsts(m, rest), params, o, d.frame);
  }

  lemma ContinuationIs(z: Plan)
    requires hide *; HasCall(z)
    ensures Continuation(z) < |Inlined(z).blocks| && Inlined(z).blocks[Continuation(z)] == ContinuationBlock(z)
    ensures ContinuationBlock(z).phis == []
  {
  }

  lemma LoadThenRest(z: Plan, rest: seq<Inst>, params: seq<i32>, o: Callees, s: Frame)
    ensures var i := Load(z.result, Slot(z.resultSlot));
            Steps([i] + rest, params, o, s) == Steps(rest, params, o, Step(i, params, o, s))
  {
    hide *;
    var i := Load(z.result, Slot(z.resultSlot));
    StepsFront([i] + rest, params, o, s);
    assert ([i] + rest)[1..] == rest;
  }

  lemma WholeCallBlock(z: Plan, params: seq<i32>, o: Callees, c: Config)
    requires hide AtCall, Step, Steps; HasCall(z) && c.At?
    ensures var insts := z.caller.blocks[z.b].insts;
      Steps(insts, params, o, c.frame)
        == Steps(insts[z.k + 1..], params, o, Step(TheCall(z), params, o, AtCall(z, params, o, c)))
  {
    hide Step, Steps;
    var insts := z.caller.blocks[z.b].insts;
    assert insts == insts[..z.k] + insts[z.k..];
    StepsAppend(insts[..z.k], insts[z.k..], params, o, c.frame);
    StepsFront(insts[z.k..], params, o, AtCall(z, params, o, c));
    assert insts[z.k..][1..] == insts[z.k + 1..];
  }

  /** The last block before the end. */
  lemma {:induction false} FirstDone(f: Function, params: seq<i32>, o: Callees, c: Config, n: nat) returns (m: nat)
    requires hide *; c.At? && Run(f, params, o, c, n).Done?
    ensures 0 < m <= n && Run(f, params, o, c, m).Done? && Run(f, params, o, c, m - 1).At?
  {
    hide Enter, Leave, Steps;
    if Run(f, params, o, c, n - 1).Done? {
      m := FirstDone(f, params, o, c, n - 1);
    } else {
      m := n;
    }
  }

  /** The frame in which the copy is entered. */
  ghost function Entered(z: Plan, params: seq<i32>, o: Callees, c': Config): Frame
    requires hide *; HasCall(z)
  {
    var e := RunBlock(Inlined(z), params, o, c');
    if e.At? then e.frame else Frame(map[], map[], World(map[], []))
  }

  /** The whole call: as many blocks as the callee takes, one before and one after. */
  lemma CallSimulated(z: Plan, params: seq<i32>, o: Callees, c: Config, c': Config, m: nat)
    requires hide Inlined, L.Below, RunBlock, SafeToInline, Steps;
             Inlinable(z) && L.GlobalsOnly(o) && Faithful(z, o) && Related(z, c, c') && c.At? && c.block == z.b
    requires var xs, start := ArgsAt(z, params, o, c), CalleeStart(z, Entered(z, params, o, c'));
      0 < m && Run(z.callee, xs, o, start, m).Done? && Run(z.callee, xs, o, start, m - 1).At?
    ensures Run(Inlined(z), params, o, c', 1 + m).At?
    ensures Related(z, RunBlock(z.caller, params, o, c), Run(Inlined(z), params, o, c', m + 2))
  {
    hide InBody, Inlinable, Inlined, RunBlock, Steps, Held, L.GlobalsOnly, CalleeStart, AnswersAs;
    ItHasACall(z);
    var g, s := Inlined(z), AtCall(z, params, o, c);
    var xs := ArgsAt(z, params, o, c);
    UpToCall(z, params, o, c, c');
    var e := RunBlock(g, params, o, c');
    CallBelow(z);
    BodyRun(z, params, xs, o, z.b, s, e.frame, m);
    var d, callee := Run(g, params, o, e, m), Run(z.callee, xs, o, CalleeStart(z, e.frame), m);
    OneThen(g, params, o, c', m);
    HeldGlobals(z, s, e.frame);
    AnswerIs(z, o, xs, s, e.frame, m);
    BodyEnds(z, s, callee, d);
    Answered(o, TheCall(z).callee, xs, s.world, callee);
    AfterCall(z, params, o, c, d, callee.result.value);
  }

  lemma Answered(o: Callees, c: string, xs: seq<i32>, w: World, d: Config)
    requires AnswersAs(o, c, xs, w, d) && d.Done? && d.result.Some?
    ensures o(c, xs, w) == (d.result.value, d.world.globals)
  {
  }

  lemma BodyEnds(z: Plan, s: Frame, c: Config, c': Config)
    requires hide *; HasCall(z) && InBody(z, s, c, c') && c.Done?
    ensures c.result.Some? && c'.At? && c'.block == Continuation(z) && CallerSame(z, s, c'.frame)
    ensures c'.frame.world.globals == c.world.globals && Get(c'.frame.slots, z.resultSlot) == c.result.value
  {
  }

  lemma CallBelow(z: Plan)
    requires hide Dst, L.Below, L.InstBelow, Mapped, SafeToInline; Inlinable(z)
    ensures L.InstBelow(TheCall(z), z.base)
  {
    hide Dst, L.Below, L.InstBelow, L.TermBelow, Mapped, SafeToInline;
    InstsOfCaller(z, z.b);
  }

  lemma AnswerIs(z: Plan, o: Callees, xs: seq<i32>, s: Frame, s': Frame, m: nat)
    requires hide *; HasCall(z) && Faithful(z, o) && |xs| == |TheCall(z).args| && s'.world.globals == s.world.globals
    ensures AnswersAs(o, TheCall(z).callee, xs, s.world, Run(z.callee, xs, o, CalleeStart(z, s'), m))
  {
    hide Run, AnswersAs;
  }

  lemma OneThen(f: Function, params: seq<i32>, o: Callees, c: Config, m: nat)
    ensures hide *; Run(f, params, o, c, 1 + m) == Run(f, params, o, RunBlock(f, params, o, c), m)
    ensures Run(f, params, o, c, m + 2) == RunBlock(f, params, o, Run(f, params, o, c, 1 + m))
  {
    hide RunBlock;
    RunAdd(f, params, o, c, 1, m);
    assert Run(f, params, o, c, 0) == c;
    assert Run(f, params, o, c, 1) == RunBlock(f, params, o, c);
  }

  // ----- from runs to results -----

  /** Every call on the way to block `n` returns. */
  ghost predicate CallsReturn(z: Plan, params: seq<i32>, o: Callees, c: Config, n: nat)
    requires hide *; HasCall(z)
  {
    forall m: nat :: m < n ==> CallReturns(z, params, o, Run(z.caller, params, o, c, m))
  }

  lemma {:induction false} CallerIsSimulated(z: Plan, params: seq<i32>, o: Callees, c: Config,
                                             c': Config, n: nat)
    returns (n': nat)
    requires hide CallsReturn, Inlined, Run, SafeToInline, Steps;
             Inlinable(z) && L.GlobalsOnly(o) && Faithful(z, o) && Related(z, c, c')
    requires CallsReturn(z, params, o, c, n)
    ensures Related(z, Run(z.caller, params, o, c, n), Run(Inlined(z), params, o, c', n'))
  {
    hide Inlinable, Inlined, RunBlock, Steps, Held, L.GlobalsOnly, Faithful, CalleeStart, AtCall, ArgsAt;
    ItHasACall(z);
    if n == 0 {
      n' := 0;
    } else {
      var m' := CallerIsSimulated(z, params, o, c, c', n - 1);
      var d, d' := Run(z.caller, params, o, c, n - 1), Run(Inlined(z), params, o, c', m');
      if d.Done? {
        EndedStays(z.caller, params, o, d);
        n' := m';
      } else if d.block == z.b {
        assert CallReturns(z, params, o, d);
        var m := ItReturns(z, params, o, d, d');
        CallSimulated(z, params, o, d, d', m);
        RunAdd(Inlined(z), params, o, c', m', m + 2);
        n' := m' + (m + 2);
      } else {
        OtherBlock(z, params, o, d, d');
        n' := m' + 1;
      }
    }
  }

  lemma ItReturns(z: Plan, params: seq<i32>, o: Callees, c: Config, c': Config) returns (m: nat)
    requires hide Entered, L.Below, Run, SafeToInline, Steps;
             Inlinable(z) && L.GlobalsOnly(o) && Related(z, c, c') && c.At? && c.block == z.b
             && CallReturns(z, params, o, c)
    ensures var xs, start := ArgsAt(z, params, o, c), CalleeStart(z, Entered(z, params, o, c'));
      0 < m && Run(z.callee, xs, o, start, m).Done? && Run(z.callee, xs, o, start, m - 1).At?
  {
    hide Inlinable, Inlined, RunBlock, Steps, Held, L.GlobalsOnly, Run;
    ItHasACall(z);
    UpToCall(z, params, o, c, c');
    var s', xs := Entered(z, params, o, c'), ArgsAt(z, params, o, c);
    HeldGlobals(z, AtCall(z, params, o, c), s');
    assert EndsFrom(z.callee, xs, o, LeftOver(z, s'), World(s'.world.globals, []));
    m :| Run(z.callee, xs, o, CalleeStart(z, s'), m).Done?;
    m := FirstDone(z.callee, xs, o, CalleeStart(z, s'), m);
  }

  lemma EndedStays(f: Function, params: seq<i32>, o: Callees, c: Config)
    requires c.Done?
    ensures RunBlock(f, params, o, c) == c
  {
    hide Enter, Leave, Steps;
  }

  /** A copy that ends has returned from every call on the way. */
  lemma {:induction false} CopyIsSimulated(z: Plan, params: seq<i32>, o: Callees, c: Config,
                                           c': Config, n': nat)
    returns (n: nat)
    requires hide Inlined, L.Below, Run, SafeToInline, Steps;
             Inlinable(z) && L.GlobalsOnly(o) && Faithful(z, o) && Related(z, c, c')
    requires Run(Inlined(z), params, o, c', n').Done?
    ensures Run(z.caller, params, o, c, n).Done? && (Even(z, o) ==> CallsReturn(z, params, o, c, n))
    ensures Related(z, Run(z.caller, params, o, c, n), Run(Inlined(z), params, o, c', n'))
    decreases n'
  {
    hide Inlinable, Inlined, RunBlock, Steps, Held, L.GlobalsOnly, Faithful, CalleeStart, AtCall, ArgsAt;
    ItHasACall(z);
    var g := Inlined(z);
    if c.Done? {
      n := 0;
      DoneStays(g, params, o, c', n');
    } else {
      assert n' > 0;
      var e := RunBlock(z.caller, params, o, c);
      var steps: nat;
      if c.block == z.b {
        var m := CalleeEnds(z, params, o, c, c', n');
        CallSimulated(z, params, o, c, c', m);
        steps := m + 2;
        LaterThan(g, params, o, c', 1 + m, n');
      } else {
        OtherBlock(z, params, o, c, c');
        steps := 1;
        assert Run(g, params, o, c', 0) == c';
        assert CallReturns(z, params, o, c);
      }
      RunAdd(g, params, o, c', steps, n' - steps);
      var rest := CopyIsSimulated(z, params, o, e, Run(g, params, o, c', steps), n' - steps);
      n := rest + 1;
      OneThen(z.caller, params, o, c, rest);
      if Even(z, o) {
        OneMore(z, params, o, c, rest);
      }
    }
  }

  lemma StaysDone(f: Function, params: seq<i32>, o: Callees, c: Config, a: nat, b: nat)
    requires Run(f, params, o, c, a).Done? && a <= b
    ensures Run(f, params, o, c, b).Done?
  {
    hide Enter, Leave, Steps;
    RunAdd(f, params, o, c, a, b - a);
    DoneStays(f, params, o, Run(f, params, o, c, a), b - a);
  }

  lemma LaterThan(f: Function, params: seq<i32>, o: Callees, c: Config, a: nat, b: nat)
    requires Run(f, params, o, c, a).At? && Run(f, params, o, c, b).Done?
    ensures a < b
  {
    hide *;
    if b <= a {
      StaysDone(f, params, o, c, b, a);
    }
  }

  lemma OneMore(z: Plan, params: seq<i32>, o: Callees, c: Config, n: nat)
    requires hide *; HasCall(z) && CallReturns(z, params, o, c)
             && CallsReturn(z, params, o, RunBlock(z.caller, params, o, c), n)
    ensures CallsReturn(z, params, o, c, n + 1)
    ensures Run(z.caller, params, o, c, n + 1) == Run(z.caller, params, o, RunBlock(z.caller, params, o, c), n)
  {
    hide RunBlock, CallReturns;
    OneThen(z.caller, params, o, c, n);
    forall m: nat | m < n + 1 ensures CallReturns(z, params, o, Run(z.caller, params, o, c, m)) {
      if m == 0 {
        assert Run(z.caller, params, o, c, 0) == c;
      } else {
        OneThen(z.caller, params, o, c, m - 1);
        assert CallReturns(z, params, o, Run(z.caller, params, o, RunBlock(z.caller, params, o, c), m - 1));
      }
    }
  }

  /** As long as the callee runs, the copy runs. */
  lemma CalleeEnds(z: Plan, params: seq<i32>, o: Callees, c: Config, c': Config, n': nat) returns (m: nat)
    requires hide Inlined, L.Below, RunBlock, SafeToInline, Steps;
             Inlinable(z) && L.GlobalsOnly(o) && Related(z, c, c') && c.At? && c.block == z.b
    requires n' > 0 && Run(Inlined(z), params, o, c', n').Done?
    ensures var xs, start := ArgsAt(z, params, o, c), CalleeStart(z, Entered(z, params, o, c'));
      0 < m && Run(z.callee, xs, o, start, m).Done? && Run(z.callee, xs, o, start, m - 1).At?
    ensures Even(z, o) ==> CallReturns(z, params, o, c)
  {
    hide BodyHeld, Inlinable, Inlined, RunBlock, Steps, Held, L.GlobalsOnly, CalleeStart, Even;
    ItHasACall(z);
    var g, s, xs := Inlined(z), AtCall(z, params, o, c), ArgsAt(z, params, o, c);
    UpToCall(z, params, o, c, c');
    CallBelow(z);
    OneThen(g, params, o, c', n' - 1);
    var s' := Entered(z, params, o, c');
    var start := CalleeStart(z, s');
    if Run(z.callee, xs, o, start, n' - 1).At? {
      if n' > 1 {
        AtBefore(z.callee, xs, o, start, n' - 1);
      }
      BodyRun(z, params, xs, o, z.b, s, s', n' - 1);
      assert false;
    }
    assert start.At? by { StartsAt(z, s'); }
    m := FirstDone(z.callee, xs, o, start, n' - 1);
    if Even(z, o) {
      HeldGlobals(z, s, s');
      ThenReturns(z, params, o, c, s', m);
    }
  }

  lemma StartsAt(z: Plan, s: Frame)
    ensures CalleeStart(z, s).At?
  {
  }

  lemma ThenReturns(z: Plan, params: seq<i32>, o: Callees, c: Config, s': Frame, m: nat)
    requires hide *; HasCall(z) && Even(z, o) && c.At? && s'.world.globals == AtCall(z, params, o, c).world.globals
    requires Run(z.callee, ArgsAt(z, params, o, c), o, CalleeStart(z, s'), m).Done?
    ensures CallReturns(z, params, o, c)
  {
    hide Run, AtCall;
    var xs, w := ArgsAt(z, params, o, c), World(s'.world.globals, []);
    assert EndsFrom(z.callee, xs, o, LeftOver(z, s'), w);
  }

  /** Returning, with something in the slots at first. */
  ghost predicate ReturnsWith(f: Function, params: seq<i32>, o: Callees, slots: map<nat, i32>, w: World, n: nat,
                              result: Option<i32>, globals: map<string, i32>)
  {
    var d := Run(f, params, o, From(slots, w), n);
    d.Done? && d.result == result && d.world.globals == globals
  }

  ghost predicate ReturnsFromAll(z: Plan, params: seq<i32>, o: Callees, slots: map<nat, i32>, w: World, n: nat,
                                 result: Option<i32>, globals: map<string, i32>)
    requires hide *; HasCall(z)
  {
    && ReturnsWith(z.caller, params, o, slots, w, n, result, globals)
    && CallsReturn(z, params, o, From(slots, w), n)
  }

  ghost predicate Returns(f: Function, params: seq<i32>, o: Callees, slots: map<nat, i32>, w: World,
                          result: Option<i32>, globals: map<string, i32>)
  {
    exists n: nat :: ReturnsWith(f, params, o, slots, w, n, result, globals)
  }

  /** What the copy returns, the caller returns. */
  lemma CopyReturns(z: Plan, params: seq<i32>, o: Callees, slots: map<nat, i32>, w: World, result: Option<i32>,
                    globals: map<string, i32>)
    requires hide Inlined, ReturnsFromAll, Run, SafeToInline, Steps; Inlinable(z) && L.GlobalsOnly(o) && Faithful(z, o)
    requires Returns(Inlined(z), params, o, slots, w, result, globals)
    ensures Returns(z.caller, params, o, slots, w, result, globals)
    ensures Even(z, o) ==> exists n: nat :: ReturnsFromAll(z, params, o, slots, w, n, result, globals)
  {
    hide CallsReturn, Inlinable, Inlined, Run, Steps, Held, L.GlobalsOnly, Faithful, Even;
    ItHasACall(z);
    StartsRelated(z, slots, w);
    var n: nat :| ReturnsWith(Inlined(z), params, o, slots, w, n, result, globals);
    var m := CopyIsSimulated(z, params, o, From(slots, w), From(slots, w), n);
    assert ReturnsWith(z.caller, params, o, slots, w, m, result, globals);
    assert Even(z, o) ==> ReturnsFromAll(z, params, o, slots, w, m, result, globals);
  }

  /** What the caller returns with all its calls returning, the copy returns. */
  lemma CallerReturns(z: Plan, params: seq<i32>, o: Callees, slots: map<nat, i32>, w: World, n: nat,
                      result: Option<i32>, globals: map<string, i32>)
    requires hide Inlined, ReturnsFromAll, Run, SafeToInline, Steps; Inlinable(z) && L.GlobalsOnly(o) && Faithful(z, o)
    requires HasCall(z) && ReturnsFromAll(z, params, o, slots, w, n, result, globals)
    ensures Returns(Inlined(z), params, o, slots, w, result, globals)
  {
    hide CallsReturn, Inlinable, Inlined, Run, Steps, Held, L.GlobalsOnly, Faithful;
    StartsRelated(z, slots, w);
    var m := CallerIsSimulated(z, params, o, From(slots, w), From(slots, w), n);
    assert ReturnsWith(Inlined(z), params, o, slots, w, m, result, globals);
  }

  lemma StartsRelated(z: Plan, slots: map<nat, i32>, w: World)
    requires hide Dst, L.Below, Mapped, Related, SafeToInline; Inlinable(z)
    ensures Related(z, From(slots, w), From(slots, w))
  {
  }

  // ----- functions that do not see what is in their slots -----

  /** What the function returns does not depend on what is in its slots at first. */
  ghost predicate Blind(f: Function, n: nat, o: Callees) {
    forall xs: seq<i32>, slots: map<nat, i32>, w: World, result: Option<i32>, globals: map<string, i32> ::
      |xs| == n ==>
        (Returns(f, xs, o, slots, w, result, globals) <==> Returns(f, xs, o, map[], w, result, globals))
  }

  /** A call gives what the callee gives when its slots are empty. */
  ghost predicate FaithfulAtFirst(z: Plan, o: Callees)
    requires HasCall(z)
  {
    forall xs: seq<i32>, w: World, m: nat :: |xs| == |TheCall(z).args| ==>
      AnswersAs(o, TheCall(z).callee, xs, w, Run(z.callee, xs, o, Start(World(w.globals, [])), m))
  }

  lemma BlindAnswers(f: Function, o: Callees, c: string, xs: seq<i32>, slots: map<nat, i32>, w: World, n: nat)
    requires hide *; Blind(f, |xs|, o)
    requires forall m: nat :: AnswersAs(o, c, xs, w, Run(f, xs, o, Start(World(w.globals, [])), m))
    ensures AnswersAs(o, c, xs, w, Run(f, xs, o, From(slots, World(w.globals, [])), n))
  {
    hide Run;
    var w0 := World(w.globals, []);
    var d := Run(f, xs, o, From(slots, w0), n);
    if d.Done? {
      assert ReturnsWith(f, xs, o, slots, w0, n, d.result, d.world.globals);
      assert Returns(f, xs, o, slots, w0, d.result, d.world.globals);
      assert Returns(f, xs, o, map[], w0, d.result, d.world.globals);
      var k: nat :| ReturnsWith(f, xs, o, map[], w0, k, d.result, d.world.globals);
      assert AnswersAs(o, c, xs, w, Run(f, xs, o, Start(w0), k));
    }
  }

  lemma BlindIsFaithful(z: Plan, o: Callees)
    requires hide *; HasCall(z) && Blind(z.callee, |TheCall(z).args|, o) && FaithfulAtFirst(z, o)
    ensures Faithful(z, o)
  {
    hide Run, Blind, AnswersAs;
    forall xs: seq<i32>, slots: map<nat, i32>, w: World, m: nat | |xs| == |TheCall(z).args|
      ensures AnswersAs(o, TheCall(z).callee, xs, w, Run(z.callee, xs, o, From(slots, World(w.globals, [])), m))
    {
      BlindAnswers(z.callee, o, TheCall(z).callee, xs, slots, w, m);
    }
  }

  lemma BlindIsEven(z: Plan, o: Callees)
    requires hide *; HasCall(z) && Blind(z.callee, |TheCall(z).args|, o)
    ensures Even(z, o)
  {
    hide Run;
    var f := z.callee;
    forall xs: seq<i32>, slots: map<nat, i32>, slots': map<nat, i32>, w: World |
      |xs| == |TheCall(z).args| && EndsFrom(f, xs, o, slots, w)
      ensures EndsFrom(f, xs, o, slots', w)
    {
      var m: nat :| Run(f, xs, o, From(slots, w), m).Done?;
      var d := Run(f, xs, o, From(slots, w), m);
      assert ReturnsWith(f, xs, o, slots, w, m, d.result, d.world.globals);
      assert Returns(f, xs, o, slots, w, d.result, d.world.globals);
      assert Returns(f, xs, o, slots', w, d.result, d.world.globals);
      var k: nat :| ReturnsWith(f, xs, o, slots', w, k, d.result, d.world.globals);
      assert Run(f, xs, o, From(slots', w), k).Done?;
    }
  }

  /** The copy of a callee that does not see what is in its slots returns exactly if the caller returns, and with it
      every call that it makes there; then the result and the globals are the same. */
  lemma InliningPreservesMeaning(z: Plan, params: seq<i32>, o: Callees, slots: map<nat, i32>, w: World,
                                 result: Option<i32>, globals: map<string, i32>)
    requires hide Inlined, ReturnsFromAll, Run, SafeToInline, Steps; Inlinable(z) && L.GlobalsOnly(o)
    requires Blind(z.callee, |TheCall(z).args|, o) && FaithfulAtFirst(z, o)
    ensures Returns(Inlined(z), params, o, slots, w, result, globals)
       <==> (exists n: nat :: ReturnsFromAll(z, params, o, slots, w, n, result, globals))
  {
    ItHasACall(z);
    BlindIsFaithful(z, o);
    BlindIsEven(z, o);
    hide *;
    if Returns(Inlined(z), params, o, slots, w, result, globals) {
      CopyReturns(z, params, o, slots, w, result, globals);
    }
    if n: nat :| ReturnsFromAll(z, params, o, slots, w, n, result, globals) {
      CallerReturns(z, params, o, slots, w, n, result, globals);
    }
  }
}
