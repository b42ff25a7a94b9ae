/** Where registers are defined, and which definitions reach a use. */
module Ssa {
  import opened Graphs
  import opened Ir

  function Dst(i: Inst): Option<nat> {
    match i
    case Binary(d, _, _, _) => Some(d)
    case Unary(d, _, _) => Some(d)
    case Alloca(_) => None
    case Load(d, _) => Some(d)
    case Store(_, _) => None
    case Call(d, _, _) => Some(d)
  }

  function Uses(i: Inst): seq<Operand> {
    match i
    case Binary(_, _, x, y) => [x, y]
    case Unary(_, _, x) => [x]
    case Alloca(_) => []
    case Load(_, _) => []
    case Store(_, x) => [x]
    case Call(_, _, xs) => xs
  }

  function TermUses(t: Terminator): seq<Operand> {
    match t
    case Br(_) => []
    case CondBr(c, _, _) => [c]
    case Ret(Some(v)) => [v]
    case Ret(None) => []
  }

  ghost predicate Defines(f: Function, b: nat, k: nat, r: nat) {
    b < |f.blocks| && k < |f.blocks[b].insts| && Dst(f.blocks[b].insts[k]) == Some(r)
  }

  ghost predicate UniqueDefs(f: Function) {
    forall b: nat, k: nat, b': nat, k': nat, r: nat ::
      Defines(f, b, k, r) && Defines(f, b', k', r) ==> b == b' && k == k'
  }

  /** The place of the only definition of `r`. */
  ghost function Site(f: Function, r: nat): (s: Option<(nat, nat)>)
    ensures s.Some? ==> Defines(f, s.value.0, s.value.1, r)
    ensures s.None? ==> forall b: nat, k: nat :: !Defines(f, b, k, r)
  {
    if exists b: nat, k: nat :: Defines(f, b, k, r) then
      var b: nat, k: nat :| Defines(f, b, k, r);
      Some((b, k))
    else None
  }

  /** The definition of `r` is executed before place `k` of block `b` on every path. */
  ghost predicate Defined(f: Function, b: nat, k: nat, r: nat) {
    var s := Site(f, r);
    s.Some? && Dominates(Cfg(f), s.value.0, b) && (s.value.0 == b ==> s.value.1 < k)
  }

  ghost predicate AllDefined(f: Function, b: nat, k: nat, xs: seq<Operand>) {
    forall x :: x in xs && x.Reg? ==> Defined(f, b, k, x.id)
  }

  /** Strict single assignment without phis, as IR generation and inlining leave it: every block
      reachable, nothing branching back to the entry, and the two targets of a branch different. */
  ghost predicate WellFormed(f: Function) {
    && Valid(Cfg(f)) && AllReachable(Cfg(f))
    && (forall p: nat :: !Edge(Cfg(f), p, 0))
    && (forall b: nat :: b < |f.blocks| ==> Distinct(Targets(f.blocks[b].term)))
    && (forall b: nat :: b < |f.blocks| ==> f.blocks[b].phis == [])
    && UniqueDefs(f)
    && (forall b: nat, k: nat :: b < |f.blocks| && k < |f.blocks[b].insts| ==>
          AllDefined(f, b, k, Uses(f.blocks[b].insts[k])))
    && (forall b: nat :: b < |f.blocks| ==>
          AllDefined(f, b, |f.blocks[b].insts|, TermUses(f.blocks[b].term)))
  }

  ghost predicate AllocatedAt(f: Function, b: nat, k: nat, a: nat) {
    b < |f.blocks| && k < |f.blocks[b].insts| && f.blocks[b].insts[k] == Alloca(a)
  }

  /** An `alloca` is its own address, so no two have the same slot. */
  ghost predicate UniqueAllocas(f: Function) {
    forall b: nat, k: nat, c: nat, l: nat, a: nat ::
      AllocatedAt(f, b, k, a) && AllocatedAt(f, c, l, a) ==> b == c && k == l
  }

  /** Registers from `first` on are new. */
  ghost predicate FreshFrom(f: Function, first: nat) {
    forall b: nat, k: nat, r: nat :: Defines(f, b, k, r) ==> r < first
  }

  /** So are slots. */
  ghost predicate SlotsFreshFrom(f: Function, first: nat) {
    forall b: nat, k: nat, a: nat :: AllocatedAt(f, b, k, a) ==> a < first
  }

  // ----- replacing registers -----

  function Apply(m: map<nat, Operand>, v: Operand): Operand {
    if v.Reg? && v.id in m then m[v.id] else v
  }

  function ApplyAll(m: map<nat, Operand>, vs: seq<Operand>): (r: seq<Operand>)
    ensures |r| == |vs| && forall i :: 0 <= i < |vs| ==> r[i] == Apply(m, vs[i])
  {
    seq(|vs|, i requires 0 <= i < |vs| => Apply(m, vs[i]))
  }

  function SubstInst(m: map<nat, Operand>, i: Inst): (r: Inst)
    ensures Dst(r) == Dst(i)
  {
    match i
    case Binary(d, op, x, y) => Binary(d, op, Apply(m, x), Apply(m, y))
    case Unary(d, op, x) => Unary(d, op, Apply(m, x))
    case Alloca(_) => i
    case Load(_, _) => i
    case Store(p, x) => Store(p, Apply(m, x))
    case Call(d, c, xs) => Call(d, c, ApplyAll(m, xs))
  }

  function SubstTerm(m: map<nat, Operand>, t: Terminator): (r: Terminator)
    ensures Targets(r) == Targets(t)
  {
    match t
    case Br(_) => t
    case CondBr(c, b1, b2) => CondBr(Apply(m, c), b1, b2)
    case Ret(Some(v)) => Ret(Some(Apply(m, v)))
    case Ret(None) => t
  }

  function SubstInsts(m: map<nat, Operand>, insts: seq<Inst>): (r: seq<Inst>)
    ensures |r| == |insts| && forall i :: 0 <= i < |insts| ==> r[i] == SubstInst(m, insts[i])
  {
    seq(|insts|, i requires 0 <= i < |insts| => SubstInst(m, insts[i]))
  }

  function SubstIncoming(m: map<nat, Operand>, inc: seq<(Operand, nat)>): (r: seq<(Operand, nat)>)
    ensures |r| == |inc| && forall i :: 0 <= i < |inc| ==> r[i] == (Apply(m, inc[i].0), inc[i].1)
  {
    seq(|inc|, i requires 0 <= i < |inc| => (Apply(m, inc[i].0), inc[i].1))
  }

  function SubstPhis(m: map<nat, Operand>, phis: seq<Phi>): (r: seq<Phi>)
    ensures |r| == |phis|
    ensures forall i :: 0 <= i < |phis| ==> r[i] == Phi(phis[i].dst, SubstIncoming(m, phis[i].incoming))
  {
    seq(|phis|, i requires 0 <= i < |phis| => Phi(phis[i].dst, SubstIncoming(m, phis[i].incoming)))
  }

  function SubstBlock(m: map<nat, Operand>, b: Block): Block {
    Block(SubstPhis(m, b.phis), SubstInsts(m, b.insts), SubstTerm(m, b.term))
  }

  /** What `replace_all_uses_with` does to the operands of a function. */
  function ReplaceAllUses(f: Function, r: nat, v: Operand): (g: Function)
    ensures |g.blocks| == |f.blocks|
    ensures forall b :: 0 <= b < |f.blocks| ==> g.blocks[b] == SubstBlock(map[r := v], f.blocks[b])
  {
    Function(seq(|f.blocks|, b requires 0 <= b < |f.blocks| => SubstBlock(map[r := v], f.blocks[b])))
  }

  /** Replacing one more register, when no replacement mentions it. */
  lemma ApplyMore(m: map<nat, Operand>, r: nat, v: Operand, x: Operand)
    requires r !in m && forall q :: q in m ==> m[q] != Reg(r)
    ensures Apply(map[r := v], Apply(m, x)) == Apply(m[r := v], x)
  {
  }

  lemma SubstInstMore(m: map<nat, Operand>, r: nat, v: Operand, i: Inst)
    requires r !in m && forall q :: q in m ==> m[q] != Reg(r)
    ensures SubstInst(map[r := v], SubstInst(m, i)) == SubstInst(m[r := v], i)
  {
    forall x {
      ApplyMore(m, r, v, x);
    }
    if i.Call? {
      assert ApplyAll(map[r := v], ApplyAll(m, i.args)) == ApplyAll(m[r := v], i.args);
    }
  }

  lemma SubstTermMore(m: map<nat, Operand>, r: nat, v: Operand, t: Terminator)
    requires r !in m && forall q :: q in m ==> m[q] != Reg(r)
    ensures SubstTerm(map[r := v], SubstTerm(m, t)) == SubstTerm(m[r := v], t)
  {
    forall x {
      ApplyMore(m, r, v, x);
    }
  }

  lemma SubstIncomingAbsent(r: nat, v: Operand, inc: seq<(Operand, nat)>)
    requires forall i :: 0 <= i < |inc| ==> inc[i].0 != Reg(r)
    ensures SubstIncoming(map[r := v], inc) == inc
  {
  }
}
