/** The search for certified counters, and the pass that replaces divisions by shifts and masks. */
module Counters {
  import opened Int32
  import opened Graphs
  import opened Ir
  import opened Ssa
  import opened SsaForm
  import opened CounterRange
  import opened Rewriting
  import Bits
  import Dominators

  /** Where a counter's increment is, and its step. */
  datatype Advance = Advance(block: nat, index: nat, step: i32)

  ghost predicate Advances(f: Function, phi: nat, v: Operand, a: Advance) {
    && a.block < |f.blocks| && a.index < |f.blocks[a.block].insts| && a.step >= 1
    && var i := f.blocks[a.block].insts[a.index];
       i.Binary? && v == Reg(i.dst) && Increment(i, phi, i.dst, a.step)
  }

  method FindAdvance(f: Function, phi: nat, v: Operand) returns (a: Option<Advance>)
    requires hide *; SetOnce(f)
    ensures a.Some? ==> Advances(f, phi, v, a.value)
    ensures forall a' :: Advances(f, phi, v, a') ==> a == Some(a')
  {
    a := None;
    if !v.Reg? {
      return;
    }
    var place := Definition(f, v.id);
    forall a' | Advances(f, phi, v, a')
      ensures Sets(f, InstPlace(a'.block, a'.index), v.id)
    {
    }
    if place.None? {
      return;
    }
    var (b, k) := place.value;
    var i := f.blocks[b].insts[k];
    if !i.Binary? || i.op != Add {
      return;
    }
    var step := if i.lhs == Reg(phi) && i.rhs.Const? then i.rhs.value
                else if i.rhs == Reg(phi) && i.lhs.Const? then i.lhs.value else 0;
    if step >= 1 {
      a := Some(Advance(b, k, step));
    }
  }

  /** The two incoming values of a counter, in either order. */
  ghost predicate StartsAndAdvances(f: Function, phi: Phi, init: i32, a: Advance) {
    && |phi.incoming| == 2 && init >= 0
    && ((phi.incoming[0].0 == Const(init) && Advances(f, phi.dst, phi.incoming[1].0, a))
        || (phi.incoming[1].0 == Const(init) && Advances(f, phi.dst, phi.incoming[0].0, a)))
  }

  method MatchIncoming(f: Function, phi: Phi) returns (r: Option<(i32, Advance)>)
    requires hide *; SetOnce(f)
    ensures r.Some? ==> StartsAndAdvances(f, phi, r.value.0, r.value.1)
    ensures forall init: i32, a :: StartsAndAdvances(f, phi, init, a) ==> r == Some((init, a))
  {
    hide Increment, SetOnce;
    r := None;
    if |phi.incoming| != 2 {
      return;
    }
    var init: Option<i32>, advance: Option<Advance> := None, None;
    var e := 0;
    while e < 2
      invariant 0 <= e <= 2
      invariant e == 0 ==> init == None && advance == None
      invariant init.Some? ==> init.value >= 0
      invariant e >= 1 ==> if phi.incoming[0].0.Const? then init == Some(phi.incoming[0].0.value)
                           else advance.Some? && Advances(f, phi.dst, phi.incoming[0].0, advance.value)
      invariant e == 1 ==> init.None? || advance.None?
      invariant e == 2 ==> if phi.incoming[1].0.Const? then init == Some(phi.incoming[1].0.value)
                           else advance.Some? && Advances(f, phi.dst, phi.incoming[1].0, advance.value)
      invariant e == 2 ==> phi.incoming[0].0.Const? != phi.incoming[1].0.Const?
      invariant forall a, k :: 0 <= k < e && Advances(f, phi.dst, phi.incoming[k].0, a) ==> advance == Some(a)
    {
      var v := phi.incoming[e].0;
      if v.Const? {
        if v.value < 0 || init.Some? {
          assert forall a' :: !Advances(f, phi.dst, v, a');
          return;
        }
        init := Some(v.value);
      } else {
        var a := FindAdvance(f, phi.dst, v);
        if a.None? || advance.Some? {
          assert a.None? ==> forall a' :: !Advances(f, phi.dst, v, a');
          return;
        }
        advance := a;
      }
      e := e + 1;
    }
    r := Some((init.value, advance.value));
    forall start: i32, a | StartsAndAdvances(f, phi, start, a)
      ensures r == Some((start, a))
    {
      if phi.incoming[0].0 == Const(start) && Advances(f, phi.dst, phi.incoming[1].0, a) {
        assert init == Some(start);
        assert advance == Some(a);
      } else {
        assert phi.incoming[1].0 == Const(start) && Advances(f, phi.dst, phi.incoming[0].0, a);
        assert init == Some(start);
        assert advance == Some(a);
      }
    }
  }

  lemma CountsMeans(f: Function, h: nat, j: nat, c: Certificate)
    requires HasPhi(f, h, j)
    ensures Counts(f, h, j, c) <==>
            StartsAndAdvances(f, f.blocks[h].phis[j], c.init, Advance(c.addBlock, c.add, c.step))
  {
  }

  /** Whether a branch guards the increment by the comparison at place `k` of block `b`. */
  method GuardedBy(f: Function, dt: Dominators.DominatorTree, h: nat, j: nat, init: i32, a: Advance, b: nat, k: nat)
    returns (yes: bool)
    requires hide *; Strict(f) && dt.Describes(Cfg(f)) && HasPhi(f, h, j) && b < |f.blocks| && k < |f.blocks[b].insts|
    requires a.block < |f.blocks|
    ensures yes <==> exists n, g: nat :: Guarded(f, h, j, Certificate(init, a.block, a.index, a.step, b, k, n, g))
  {
    hide Chain, Dominators.AreFrontiers, IsTree, PredList, Strict;
    var i := f.blocks[b].insts[k];
    if !i.Binary? || i.op != ICmpSlt || i.lhs != Reg(f.blocks[h].phis[j].dst) || !i.rhs.Const? {
      return false;
    }
    var n := i.rhs.value;
    if n < 0 || n > MAX - a.step {
      return false;
    }
    var g := 0;
    while g < |f.blocks|
      invariant 0 <= g <= |f.blocks|
      invariant forall n', g': nat :: g' < g ==>
                  !Guarded(f, h, j, Certificate(init, a.block, a.index, a.step, b, k, n', g'))
    {
      var t := f.blocks[g].term;
      if t.CondBr? && t.cond == Reg(i.dst) {
        assert t.onTrue in Targets(t) && Edge(Cfg(f), g, t.onTrue);
        if dt.preds[t.onTrue] == [g] {
          var dominates := Dominators.IsDominatedBy(dt, Cfg(f), t.onTrue, a.block);
          if dominates {
            assert Guarded(f, h, j, Certificate(init, a.block, a.index, a.step, b, k, n, g));
            return true;
          }
        }
      }
      g := g + 1;
    }
    return false;
  }

  /** The certificate is found if there is one. */
  method IsNonNegativeCounter(f: Function, dt: Dominators.DominatorTree, h: nat, j: nat) returns (yes: bool)
    requires Strict(f) && dt.Describes(Cfg(f)) && HasPhi(f, h, j)
    ensures yes <==> IsCounter(f, h, j)
  {
    var found := MatchIncoming(f, f.blocks[h].phis[j]);
    forall c
      ensures Counts(f, h, j, c) ==> found == Some((c.init, Advance(c.addBlock, c.add, c.step)))
    {
      CountsMeans(f, h, j, c);
    }
    if found.None? {
      return false;
    }
    var (init, a) := found.value;
    var b := 0;
    while b < |f.blocks|
      invariant 0 <= b <= |f.blocks|
      invariant forall c :: Certified(f, h, j, c) ==> c.cmpBlock >= b
    {
      var k := 0;
      while k < |f.blocks[b].insts|
        invariant 0 <= k <= |f.blocks[b].insts|
        invariant forall c :: Certified(f, h, j, c) ==> c.cmpBlock >= b && (c.cmpBlock == b ==> c.cmp >= k)
      {
        yes := GuardedBy(f, dt, h, j, init, a, b, k);
        if yes {
          ghost var n, g: nat :| Guarded(f, h, j, Certificate(init, a.block, a.index, a.step, b, k, n, g));
          ghost var c := Certificate(init, a.block, a.index, a.step, b, k, n, g);
          CountsMeans(f, h, j, c);
          assert Certified(f, h, j, c);
          return;
        }
        k := k + 1;
      }
      b := b + 1;
    }
    yes := false;
  }

  method IsKnownNonNegative(f: Function, dt: Dominators.DominatorTree, v: Operand) returns (yes: bool)
    requires hide *; Strict(f) && dt.Describes(Cfg(f))
    ensures yes <==> KnownNonNegative(f, v)
  {
    hide AllReady, Dominators.Analysed, Dominators.AreChildren, Dominators.AreFrontiers, Fed, IsCounter;
    match v
    case Const(c) => return c >= 0;
    case Param(_) => return false;
    case Reg(r) =>
      var b := 0;
      while b < |f.blocks|
        invariant 0 <= b <= |f.blocks|
        invariant forall h: nat, j: nat :: HasPhi(f, h, j) && f.blocks[h].phis[j].dst == r ==> h >= b
      {
        var phis, j := f.blocks[b].phis, 0;
        while j < |phis|
          invariant 0 <= j <= |phis|
          invariant forall j': nat :: j' < j ==> phis[j'].dst != r
        {
          if phis[j].dst == r {
            assert HasPhi(f, b, j);
            yes := IsNonNegativeCounter(f, dt, b, j);
            forall h: nat, j': nat | HasPhi(f, h, j') && f.blocks[h].phis[j'].dst == r
              ensures h == b && j' == j
            {
              assert Sets(f, PhiPlace(h, j'), r) && Sets(f, PhiPlace(b, j), r);
            }
            return;
          }
          j := j + 1;
        }
        b := b + 1;
      }
      return false;
  }

  predicate IsPower(value: i32, k: nat) {
    value == Pow2(k)
  }

  /** Whether a constant is a power of two, and which. */
  method IsPowerOfTwo(value: i32) returns (yes: bool, amount: nat)
    ensures yes ==> value == Pow2(amount) && amount <= 30
    ensures !yes ==> forall k: nat :: !IsPower(value, k)
  {
    amount := 0;
    if value <= 0 {
      return false, 0;
    }
    Bits.PowerOfTwoTest(value);
    if AndNat(value, value - 1) != 0 {
      forall k: nat
        ensures !IsPower(value, k)
      {
        Bits.Log2Pow2(k);
      }
      return false, 0;
    }
    var cursor: nat := value;
    while cursor > 1
      invariant 1 <= cursor && Bits.Log2(value) == amount + Bits.Log2(cursor)
    {
      cursor := cursor / 2;
      amount := amount + 1;
    }
    Bits.Pow2Values();
    if amount > 30 {
      Bits.Pow2Rises(31, amount);
    }
    yes := true;
  }

  // ----- the pass -----

  /** The instruction that the pass leaves at a place. */
  ghost function Result(f: Function, b: nat, n: nat): Inst
    requires b < |f.blocks| && n < |f.blocks[b].insts|
  {
    if exists k: nat :: Reducible(f, b, n, k) then
      var k: nat :| Reducible(f, b, n, k);
      Reduced(f.blocks[b].insts[n], k)
    else f.blocks[b].insts[n]
  }

  predicate Earlier(c: nat, j: nat, b: nat, n: nat) {
    c < b || (c == b && j < n)
  }

  /** Everything before place `n` of block `b` is done, and the rest is as it was. */
  ghost predicate ReducedUpTo(f0: Function, f: Function, b: nat, n: nat) {
    && |f.blocks| == |f0.blocks|
    && (forall c: nat :: c < |f.blocks| ==>
          f.blocks[c].phis == f0.blocks[c].phis && f.blocks[c].term == f0.blocks[c].term
          && |f.blocks[c].insts| == |f0.blocks[c].insts|)
    && (forall c: nat, j: nat :: c < |f.blocks| && j < |f.blocks[c].insts| ==>
          f.blocks[c].insts[j] == if Earlier(c, j, b, n) then Result(f0, c, j) else f0.blocks[c].insts[j])
  }

  lemma ResultShape(f: Function, b: nat, n: nat)
    requires hide Dst, KnownNonNegative; b < |f.blocks| && n < |f.blocks[b].insts|
    ensures var i, i' := f.blocks[b].insts[n], Result(f, b, n);
            i' == i || (i.Binary? && (i.op == Sdiv || i.op == Srem) && Dst(i') == Dst(i) && (i'.Unary? || i'.op == And))
  {
    hide KnownNonNegative;
  }

  /** The pass touches nothing that a certificate mentions. */
  lemma CertificatesKept(f0: Function, f: Function, b: nat, n: nat, v: Operand)
    requires ReducedUpTo(f0, f, b, n)
    ensures KnownNonNegative(f, v) <==> KnownNonNegative(f0, v)
    ensures Cfg(f) == Cfg(f0)
  {
    assert Cfg(f) == Cfg(f0);
    forall h: nat, j: nat, c | HasPhi(f0, h, j)
      ensures Certified(f, h, j, c) <==> Certified(f0, h, j, c)
    {
      if c.addBlock < |f.blocks| && c.add < |f.blocks[c.addBlock].insts| {
        ResultShape(f0, c.addBlock, c.add);
      }
      if c.cmpBlock < |f.blocks| && c.cmp < |f.blocks[c.cmpBlock].insts| {
        ResultShape(f0, c.cmpBlock, c.cmp);
      }
    }
    forall h: nat, j: nat | HasPhi(f0, h, j)
      ensures IsCounter(f, h, j) <==> IsCounter(f0, h, j)
    {
    }
  }

  lemma ReducedNext(f0: Function, f: Function, b: nat, n: nat, i: Inst)
    requires hide ReplaceAt, Result;
             ReducedUpTo(f0, f, b, n) && b < |f.blocks| && n < |f.blocks[b].insts| && i == Result(f0, b, n)
    ensures ReducedUpTo(f0, ReplaceAt(f, b, n, i), b, n + 1)
  {
    hide Result;
  }

  lemma ReducibleOnce(f: Function, b: nat, n: nat, k: nat)
    requires hide KnownNonNegative, Reduced, Result; Reducible(f, b, n, k)
    ensures Result(f, b, n) == Reduced(f.blocks[b].insts[n], k)
  {
    hide KnownNonNegative, Reduced;
    var k': nat :| Reducible(f, b, n, k') && Result(f, b, n) == Reduced(f.blocks[b].insts[n], k');
    Bits.Log2Pow2(k);
    Bits.Log2Pow2(k');
  }

  /** The replacement does the same, and the form stays strict. */
  lemma ReducedStep(f0: Function, f: Function, b: nat, n: nat, k: nat)
    requires ReducedUpTo(f0, f, b, n) && Strict(f) && Alike(f0, f)
    requires b < |f.blocks| && n < |f.blocks[b].insts| && Reducible(f0, b, n, k)
    ensures var f' := ReplaceAt(f, b, n, Reduced(f0.blocks[b].insts[n], k));
            Strict(f') && Alike(f0, f') && Cfg(f') == Cfg(f) && ReducedUpTo(f0, f', b, n + 1)
  {
    hide KnownNonNegative, Passes, Run, Step;
    var i := f0.blocks[b].insts[n];
    var i' := Reduced(i, k);
    CertificatesKept(f0, f, b, n, i.lhs);
    assert Reducible(f, b, n, k);
    assert DoesTheSame(f, b, n, i') by {
      forall params: seq<i32>, callees: Callees, w: World, s: Frame | Passes(f, params, callees, w, b, n, s)
        ensures Step(i', params, callees, s) == Step(f.blocks[b].insts[n], params, callees, s)
      {
        ReductionIsExact(f, b, n, k, params, callees, w, s);
      }
    }
    ReplacedIsAlike(f, b, n, i');
    ReplaceKeepsStrict(f, b, n, i');
    ReplaceKeepsGraph(f, b, n, i');
    ReducibleOnce(f0, b, n, k);
    ReducedNext(f0, f, b, n, i');
  }

  /** The exponent of a division that may be replaced, and 0 for every other instruction. */
  method ReductionOf(f: Function, dt: Dominators.DominatorTree, i: Inst) returns (amount: nat)
    requires Strict(f) && dt.Describes(Cfg(f))
    ensures amount > 0 ==> ReducibleInst(f, i, amount)
    ensures amount == 0 ==> forall k: nat :: !ReducibleInst(f, i, k)
  {
    hide ArePreds, Chain, Dominators.AreChildren, Dominators.AreFrontiers, KnownNonNegative, Strict;
    if !i.Binary? || (i.op != Sdiv && i.op != Srem) || !i.rhs.Const? {
      return 0;
    }
    var power;
    power, amount := IsPowerOfTwo(i.rhs.value);
    if !power || amount == 0 {
      forall k: nat
        ensures !ReducibleInst(f, i, k)
      {
        assert !power ==> !IsPower(i.rhs.value, k);
        assert k >= 1 ==> Pow2(k) == 2 * Pow2(k - 1);
      }
      return 0;
    }
    var nonNegative := IsKnownNonNegative(f, dt, i.lhs);
    if !nonNegative {
      return 0;
    }
  }

  /** A quotient by 2^k becomes a shift of the dividend by k, and a remainder its last k bits. */
  predicate ShiftOrMask(i: Inst, k: nat, i': Inst) {
    && i.Binary?
    && if i.op == Sdiv then i' == Unary(i.dst, Shr(k), i.lhs)
       else i'.Binary? && i'.dst == i.dst && i'.op == Ir.And && i'.lhs == i.lhs && i'.rhs.Const?
            && i'.rhs.value as int == Pow2(k) - 1
  }

  ghost predicate IsReducible(f: Function, b: nat, n: nat) {
    exists k: nat :: Reducible(f, b, n, k)
  }

  /** Every division that can be reduced has been, and nothing else has changed. */
  ghost predicate DivisionsReduced(f: Function, g: Function) {
    && |g.blocks| == |f.blocks|
    && (forall b: nat :: b < |f.blocks| ==>
          && g.blocks[b].phis == f.blocks[b].phis && g.blocks[b].term == f.blocks[b].term
          && |g.blocks[b].insts| == |f.blocks[b].insts|)
    && (forall b: nat, n: nat, k: nat :: Reducible(f, b, n, k) ==>
          ShiftOrMask(f.blocks[b].insts[n], k, g.blocks[b].insts[n]))
    && (forall b: nat, n: nat :: b < |f.blocks| && n < |f.blocks[b].insts| && !IsReducible(f, b, n) ==>
          g.blocks[b].insts[n] == f.blocks[b].insts[n])
  }

  lemma ReducedIsShiftOrMask(f: Function, b: nat, n: nat, k: nat)
    requires hide ReducibleInst, Result, ShiftOrMask; Reducible(f, b, n, k)
    ensures ShiftOrMask(f.blocks[b].insts[n], k, Result(f, b, n))
  {
    hide KnownNonNegative, Result;
    ReducibleOnce(f, b, n, k);
    hide Reducible, Result;
  }

  lemma AllReduced(f: Function, g: Function)
    requires hide *; ReducedUpTo(f, g, |f.blocks|, 0)
    ensures DivisionsReduced(f, g)
  {
    hide ReducibleInst, Result, ShiftOrMask;
    forall b: nat, n: nat, k: nat | Reducible(f, b, n, k)
      ensures ShiftOrMask(f.blocks[b].insts[n], k, g.blocks[b].insts[n])
    {
      ReducedIsShiftOrMask(f, b, n, k);
    }
    forall b: nat, n: nat | b < |f.blocks| && n < |f.blocks[b].insts| && !IsReducible(f, b, n)
      ensures g.blocks[b].insts[n] == f.blocks[b].insts[n]
    {
      NothingToReduce(f, b, n);
    }
  }

  lemma NothingToReduce(f: Function, b: nat, n: nat)
    requires hide *; b < |f.blocks| && n < |f.blocks[b].insts| && !IsReducible(f, b, n)
    ensures Result(f, b, n) == f.blocks[b].insts[n]
  {
    hide Reduced, Reducible;
  }

  lemma ReducibleIsDivision(f: Function, i: Inst, k: nat)
    requires ReducibleInst(f, i, k)
    ensures i.Binary? && 1 <= k <= 30
  {
    hide KnownNonNegative;
  }

  /** Replaces every division by a power of two whose dividend is known not to be negative. */
  method StrengthReduceDivRem(f0: Function) returns (f: Function)
    requires Strict(f0)
    ensures Strict(f) && Alike(f0, f) && DivisionsReduced(f0, f)
  {
    hide Alike, ReducedUpTo, ReducibleInst, Cfg, DivisionsReduced;
    f := f0;
    var dt := new Dominators.DominatorTree();
    StrictGraph(f);
    dt.Analyze(f);
    NothingReduced(f0);
    var b := 0;
    while b < |f.blocks|
      invariant 0 <= b <= |f.blocks| == |f0.blocks| && ReducedUpTo(f0, f, b, 0)
      invariant Strict(f) && Alike(f0, f) && Cfg(f) == Cfg(f0) && dt.Describes(Cfg(f0))
    {
      hide Strict;
      ReducedSize(f0, f, b);
      var n := 0;
      while n < |f.blocks[b].insts|
        invariant b < |f.blocks| == |f0.blocks| && 0 <= n <= |f.blocks[b].insts| == |f0.blocks[b].insts|
        invariant ReducedUpTo(f0, f, b, n)
        invariant Strict(f) && Alike(f0, f) && Cfg(f) == Cfg(f0) && dt.Describes(Cfg(f0))
        decreases |f0.blocks[b].insts| - n
      {
        var i := f.blocks[b].insts[n];
        var amount := ReductionOf(f, dt, i);
        SameReduction(f0, f, b, n);
        if amount > 0 {
          ReducibleIsDivision(f, i, amount);
          ReducedStep(f0, f, b, n, amount);
          ReducedSizes(f, b, n, Reduced(i, amount));
          f := ReplaceAt(f, b, n, Reduced(i, amount));
        } else {
          NotReduced(f0, f, b, n);
        }
        n := n + 1;
      }
      NextBlock(f0, f, b);
      b := b + 1;
    }
    AllReduced(f0, f);
  }

  lemma NothingReduced(f: Function)
    ensures hide *; ReducedUpTo(f, f, 0, 0) && Alike(f, f)
  {
    hide Result, Run;
  }

  lemma ReducedSizes(f: Function, b: nat, n: nat, i: Inst)
    requires b < |f.blocks| && n < |f.blocks[b].insts|
    ensures |ReplaceAt(f, b, n, i).blocks[b].insts| == |f.blocks[b].insts|
  {
  }

  lemma ReducedSize(f0: Function, f: Function, b: nat)
    requires hide *; ReducedUpTo(f0, f, b, 0) && b < |f.blocks| && b < |f0.blocks|
    ensures |f.blocks[b].insts| == |f0.blocks[b].insts|
  {
    hide Result;
  }

  /** The place still holds the original instruction, and may be replaced in the same way. */
  lemma SameReduction(f0: Function, f: Function, b: nat, n: nat)
    requires ReducedUpTo(f0, f, b, n) && b < |f.blocks| && n < |f.blocks[b].insts|
    ensures b < |f0.blocks| && n < |f0.blocks[b].insts| && f0.blocks[b].insts[n] == f.blocks[b].insts[n]
    ensures forall k: nat :: ReducibleInst(f, f.blocks[b].insts[n], k) <==> Reducible(f0, b, n, k)
  {
    hide Cfg, KnownNonNegative, Result;
    var i := f.blocks[b].insts[n];
    if i.Binary? {
      CertificatesKept(f0, f, b, n, i.lhs);
    }
  }

  lemma NotReduced(f0: Function, f: Function, b: nat, n: nat)
    requires ReducedUpTo(f0, f, b, n) && b < |f.blocks| && n < |f.blocks[b].insts|
             && forall k: nat :: !Reducible(f0, b, n, k)
    ensures ReducedUpTo(f0, f, b, n + 1)
  {
    hide Reduced, Reducible;
  }

  lemma NextBlock(f0: Function, f: Function, b: nat)
    requires hide *; b < |f.blocks| && ReducedUpTo(f0, f, b, |f.blocks[b].insts|)
    ensures ReducedUpTo(f0, f, b + 1, 0)
  {
    hide Result;
  }
}
