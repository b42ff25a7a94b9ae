/** Registers and slots below a number, what happens only from it on, and callees that see only globals. */
module Numbers {
  import opened Int32
  import opened Ir

  predicate OperandBelow(v: Operand, base: nat) {
    v.Reg? ==> v.id < base
  }

  predicate PointerBelow(p: Pointer, base: nat) {
    p.Slot? ==> p.slot < base
  }

  predicate InstBelow(i: Inst, base: nat) {
    match i
    case Binary(d, _, a, b) => d < base && OperandBelow(a, base) && OperandBelow(b, base)
    case Unary(d, _, a) => d < base && OperandBelow(a, base)
    case Alloca(a) => a < base
    case Load(d, p) => d < base && PointerBelow(p, base)
    case Store(p, v) => PointerBelow(p, base) && OperandBelow(v, base)
    case Call(d, _, vs) => d < base && forall k :: 0 <= k < |vs| ==> OperandBelow(vs[k], base)
  }

  predicate PhiBelow(p: Phi, base: nat) {
    p.dst < base && forall k :: 0 <= k < |p.incoming| ==> OperandBelow(p.incoming[k].0, base)
  }

  predicate TermBelow(t: Terminator, base: nat) {
    match t
    case CondBr(c, _, _) => OperandBelow(c, base)
    case Ret(Some(v)) => OperandBelow(v, base)
    case _ => true
  }

  predicate BlockBelow(b: Block, base: nat) {
    && (forall k :: 0 <= k < |b.phis| ==> PhiBelow(b.phis[k], base))
    && (forall k :: 0 <= k < |b.insts| ==> InstBelow(b.insts[k], base))
    && TermBelow(b.term, base)
  }

  /** The numbers from `base` on are unused. */
  predicate Below(f: Function, base: nat) {
    forall b :: 0 <= b < |f.blocks| ==> BlockBelow(f.blocks[b], base)
  }

  ghost predicate Same(base: nat, m: map<nat, i32>, m': map<nat, i32>) {
    forall r: nat :: r < base ==> Get(m', r) == Get(m, r)
  }

  /** The same write to both. */
  lemma WriteHeld(base: nat, m: map<nat, i32>, m': map<nat, i32>, d: nat, v: i32, v': i32)
    requires v == v' && Same(base, m, m')
    ensures Same(base, m[d := v], m'[d := v'])
  {
    var n, n' := m[d := v], m'[d := v'];
    forall r: nat | r < base ensures Get(n', r) == Get(n, r) {
      assert Get(m', r) == Get(m, r);
    }
  }

  /** A write from `base` on. */
  lemma OtherWrite(base: nat, m: map<nat, i32>, d: nat, v: i32)
    requires base <= d
    ensures Same(base, m, m[d := v])
  {
  }

  /** Other functions see the globals only. */
  ghost predicate GlobalsOnly(callees: Callees) {
    forall c, xs, w: World, w': World :: w.globals == w'.globals ==> callees(c, xs, w) == callees(c, xs, w')
  }
}
