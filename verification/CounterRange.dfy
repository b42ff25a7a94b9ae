/** Counters that never leave the non-negative range, and the divisions that may rely on it. */
module CounterRange {
  import opened Int32
  import opened Graphs
  import opened Ir
  import opened Ssa
  import opened SsaForm
  import Bits

  /** What certifies a counter: its start, its increment, and a comparison that guards the increment. */
  datatype Certificate = Certificate(init: i32, addBlock: nat, add: nat, step: i32, cmpBlock: nat, cmp: nat,
                                     bound: i32, guard: nat)

  ghost predicate Increment(i: Inst, phi: nat, r: nat, step: i32) {
    i == Binary(r, Add, Reg(phi), Const(step)) || i == Binary(r, Add, Const(step), Reg(phi))
  }

  predicate HasPhi(f: Function, h: nat, j: nat) {
    h < |f.blocks| && j < |f.blocks[h].phis|
  }

  /** The two incoming values: a constant that is not negative, and the counter plus a positive step. */
  ghost predicate Counts(f: Function, h: nat, j: nat, c: Certificate)
    requires HasPhi(f, h, j)
  {
    var phi := f.blocks[h].phis[j];
    && |phi.incoming| == 2 && c.init >= 0 && c.step >= 1
    && c.addBlock < |f.blocks| && c.add < |f.blocks[c.addBlock].insts|
    && var i := f.blocks[c.addBlock].insts[c.add];
       && i.Binary? && Increment(i, phi.dst, i.dst, c.step)
       && ((phi.incoming[0].0 == Const(c.init) && phi.incoming[1].0 == Reg(i.dst))
           || (phi.incoming[1].0 == Const(c.init) && phi.incoming[0].0 == Reg(i.dst)))
  }

  /** The true target of a branch on `counter < bound` is entered from that branch only, and dominates the increment. */
  ghost predicate Guarded(f: Function, h: nat, j: nat, c: Certificate)
    requires HasPhi(f, h, j)
  {
    && 0 <= c.bound && c.bound + c.step <= MAX
    && c.cmpBlock < |f.blocks| && c.cmp < |f.blocks[c.cmpBlock].insts|
    && var i := f.blocks[c.cmpBlock].insts[c.cmp];
       && i.Binary? && i == Binary(i.dst, ICmpSlt, Reg(f.blocks[h].phis[j].dst), Const(c.bound))
       && c.guard < |f.blocks| && f.blocks[c.guard].term.CondBr? && f.blocks[c.guard].term.cond == Reg(i.dst)
       && f.blocks[c.guard].term.onTrue < |f.blocks|
       && PredList(Cfg(f), f.blocks[c.guard].term.onTrue, |f.blocks|) == [c.guard]
       && Dominates(Cfg(f), f.blocks[c.guard].term.onTrue, c.addBlock)
  }

  ghost predicate Certified(f: Function, h: nat, j: nat, c: Certificate) {
    HasPhi(f, h, j) && Counts(f, h, j, c) && Guarded(f, h, j, c)
  }

  ghost predicate IsCounter(f: Function, h: nat, j: nat) {
    exists c :: Certified(f, h, j, c)
  }

  function Body(f: Function, c: Certificate): nat
    requires c.guard < |f.blocks| && f.blocks[c.guard].term.CondBr?
  {
    f.blocks[c.guard].term.onTrue
  }

  // ----- the guarded target -----

  lemma {:induction false} OnlyItself(g: Graph, t: nat, p: seq<nat>)
    requires Valid(g) && t < |g| && (forall a: nat :: Edge(g, a, t) ==> a == t) && t != 0
    ensures !PathTo(g, p, t)
    decreases |p|
  {
    if PathTo(g, p, t) {
      assert Edge(g, p[|p| - 2], t);
      OnlyItself(g, t, p[..|p| - 1]);
    }
  }

  lemma OnePredecessor(g: Graph, t: nat, a: nat)
    requires t < |g| && PredList(g, t, |g|) == [a]
    ensures Edge(g, a, t) && forall p: nat :: Edge(g, p, t) ==> p == a
  {
    PredListElements(g, t, |g|);
    assert a in PredList(g, t, |g|);
    forall p: nat | Edge(g, p, t)
      ensures p == a
    {
      assert p in PredList(g, t, |g|);
    }
  }

  lemma GuardDominates(g: Graph, t: nat, a: nat)
    requires Valid(g) && t < |g| && t != 0 && forall p: nat :: Edge(g, p, t) ==> p == a
    ensures Dominates(g, a, t)
  {
    forall p | PathTo(g, p, t)
      ensures a in p
    {
      assert Edge(g, p[|p| - 2], t);
    }
  }

  /** An operand's place dominates the block that uses it. */
  lemma OperandBefore(f: Function, b: nat, k: nat, v: Operand, p: Place)
    requires hide *; SetOnce(f) && Ready(f, b, k, v) && v.Reg? && Sets(f, p, v.id)
    ensures Before(f, p, b, k)
  {
    hide Cfg, Dominates, Dst;
  }

  /** The body cannot dominate the header: the guard lies between them. */
  lemma BodyBelowHeader(f: Function, h: nat, j: nat, c: Certificate)
    requires hide Cfg, Counts, Dominates, PredList, Strict; Strict(f) && Certified(f, h, j, c)
    ensures var t := Body(f, c);
            && t != 0 && !Dominates(Cfg(f), t, h) && Dominates(Cfg(f), h, c.addBlock)
            && (forall p: nat :: Edge(Cfg(f), p, t) ==> p == c.guard)
            && Before(f, InstPlace(c.cmpBlock, c.cmp), c.guard, |f.blocks[c.guard].insts|)
            && Dominates(Cfg(f), h, c.guard)
  {
    var g, t := Cfg(f), Body(f, c);
    var phi, cmp, add := f.blocks[h].phis[j], f.blocks[c.cmpBlock].insts[c.cmp], f.blocks[c.addBlock].insts[c.add];
    OnePredecessor(g, t, c.guard);
    GuardDominates(g, t, c.guard);
    assert Reg(phi.dst) in Uses(cmp) && Reg(phi.dst) in Uses(add);
    assert Sets(f, PhiPlace(h, j), phi.dst) && Sets(f, InstPlace(c.cmpBlock, c.cmp), cmp.dst);
    OperandBefore(f, c.cmpBlock, c.cmp, Reg(phi.dst), PhiPlace(h, j));
    OperandBefore(f, c.addBlock, c.add, Reg(phi.dst), PhiPlace(h, j));
    assert Reg(cmp.dst) in TermUses(f.blocks[c.guard].term);
    OperandBefore(f, c.guard, |f.blocks[c.guard].insts|, Reg(cmp.dst), InstPlace(c.cmpBlock, c.cmp));
    DominatesThrough(g, h, c.cmpBlock, c.guard);
    if Dominates(g, t, h) {
      DominatesThrough(g, t, h, c.guard);
      assert Reachable(g, c.guard) && Reachable(g, t);
      DominatesAntisymmetric(g, t, c.guard);
      var p :| PathTo(g, p, t);
      OnlyItself(g, t, p);
    }
  }

  // ----- the range -----

  /** Where the counter is set it is its start or below the bound plus a step; past the guard it is below the bound. */
  ghost predicate InRange(f: Function, h: nat, j: nat, c: Certificate, b: nat, regs: map<nat, i32>)
    requires Certified(f, h, j, c)
  {
    var v := Get(regs, f.blocks[h].phis[j].dst);
    && (Dominates(Cfg(f), h, b) ==> 0 <= v && (v == c.init || v < c.bound + c.step))
    && (Dominates(Cfg(f), Body(f, c), b) ==> v < c.bound)
  }

  ghost predicate CounterInvariant(f: Function, h: nat, j: nat, c: Certificate, params: seq<i32>, b: nat, k: nat,
                                   s: Frame)
    requires hide *; Certified(f, h, j, c)
  {
    Equations(f, params, b, k, s.regs) && InRange(f, h, j, c, b, s.regs)
  }

  ghost function InvariantAt(f: Function, h: nat, j: nat, c: Certificate, params: seq<i32>): (nat, nat, Frame) -> bool
    requires hide *; Certified(f, h, j, c)
  {
    (b: nat, k: nat, s: Frame) => CounterInvariant(f, h, j, c, params, b, k, s)
  }

  lemma StepKeepsRange(f: Function, h: nat, j: nat, c: Certificate, params: seq<i32>, callees: Callees, b: nat,
                       k: nat, s: Frame)
    requires hide *; Strict(f) && Certified(f, h, j, c) && b < |f.blocks| && k < |f.blocks[b].insts|
             && InRange(f, h, j, c, b, s.regs)
    ensures InRange(f, h, j, c, b, Step(f.blocks[b].insts[k], params, callees, s).regs)
  {
    hide AllReady, Binop, Fed, Unop;
    var r := f.blocks[h].phis[j].dst;
    assert Sets(f, PhiPlace(h, j), r);
    assert Dst(f.blocks[b].insts[k]) == Some(r) ==> Sets(f, InstPlace(b, k), r);
  }

  /** The branch that enters the body found the counter below the bound. */
  lemma BodyEntered(f: Function, h: nat, j: nat, c: Certificate, params: seq<i32>, p: nat, s: Frame)
    requires hide Counts, Dominates, Equations, Leave, Strict;
             Strict(f) && Certified(f, h, j, c) && Takes(f, params, p, s, Body(f, c))
    requires Equations(f, params, p, |f.blocks[p].insts|, s.regs)
    ensures Get(s.regs, f.blocks[h].phis[j].dst) < c.bound
  {
    hide Counts, Strict, Unop;
    var t, cmp := Body(f, c), f.blocks[c.cmpBlock].insts[c.cmp];
    TakenEdge(f, params, p, s, t);
    BodyBelowHeader(f, h, j, c);
    assert p == c.guard;
    TargetsDiffer(f, c);
    assert IsPure(f, c.cmpBlock, c.cmp);
    assert Equation(f, params, c.cmpBlock, c.cmp, s.regs);
  }

  lemma TargetsDiffer(f: Function, c: Certificate)
    requires c.guard < |f.blocks| && f.blocks[c.guard].term.CondBr?
    requires PredList(Cfg(f), Body(f, c), |f.blocks|) == [c.guard]
    ensures f.blocks[c.guard].term.onFalse != Body(f, c)
  {
    var t := Body(f, c);
    if f.blocks[c.guard].term.onFalse == t {
      assert Cfg(f)[c.guard] == [t, t];
      assert Occurrences([t, t], t, c.guard) == [c.guard, c.guard] by {
        assert [t, t][..1] == [t];
        assert [t][..0] == [];
        assert Occurrences([t], t, c.guard) == [c.guard];
      }
      PredListLonger(Cfg(f), t, c.guard, |f.blocks|);
    }
  }

  lemma {:induction false} PredListLonger(g: Graph, t: nat, a: nat, n: nat)
    requires a < n <= |g|
    ensures |PredList(g, t, n)| >= |Occurrences(g[a], t, a)|
  {
    if a < n - 1 {
      PredListLonger(g, t, a, n - 1);
    }
  }

  /** The counter after an edge: unchanged, or at the header its start or one step more. */
  lemma CounterAfterEdge(f: Function, h: nat, j: nat, c: Certificate, params: seq<i32>, p: nat, b: nat, s: Frame)
    requires hide Enter, Equations, Guarded, InRange, Strict;
             Strict(f) && Certified(f, h, j, c) && Edge(Cfg(f), p, b) && b < |f.blocks| && p < |f.blocks|
    requires Equations(f, params, p, |f.blocks[p].insts|, s.regs) && InRange(f, h, j, c, p, s.regs)
    ensures var r := f.blocks[h].phis[j].dst;
            var v, v' := Get(s.regs, r), Get(Enter(f.blocks[b], p, params, s).regs, r);
            if b == h then v' == c.init || (0 <= v < c.bound && v' == v + c.step) else v' == v
  {
    hide Equation, PhiRegs;
    var phi := f.blocks[h].phis[j];
    assert Sets(f, PhiPlace(h, j), phi.dst);
    if b == h {
      forall i | j < i < |f.blocks[h].phis|
        ensures f.blocks[h].phis[i].dst != phi.dst
      {
        assert f.blocks[h].phis[i].dst == phi.dst ==> Sets(f, PhiPlace(h, i), phi.dst);
      }
      assert Fed(f, phi, p);
      PhiRegsAt(f.blocks[h].phis, p, params, s.regs, j);
      var x := Incoming(phi.incoming, p).value;
      TwoIncoming(phi.incoming, p);
      if x != Const(c.init) {
        IncrementValue(f, h, j, c, params, p, s, x);
      }
    } else {
      NoPhiSets(f, b, phi.dst, PhiPlace(h, j));
      PhiRegsElsewhere(f.blocks[b].phis, p, params, s.regs, phi.dst);
    }
  }

  lemma TwoIncoming(inc: seq<(Operand, nat)>, p: nat)
    requires |inc| == 2 && Incoming(inc, p).Some?
    ensures Incoming(inc, p).value == inc[0].0 || Incoming(inc, p).value == inc[1].0
  {
    assert Incoming(inc[1..][1..], p) == None;
  }

  lemma IncrementValue(f: Function, h: nat, j: nat, c: Certificate, params: seq<i32>, p: nat, s: Frame, x: Operand)
    requires hide Equations, Guarded, InRange, Ready, Strict; Strict(f) && Certified(f, h, j, c) && p < |f.blocks|
    requires Equations(f, params, p, |f.blocks[p].insts|, s.regs) && InRange(f, h, j, c, p, s.regs)
    requires x == Reg(f.blocks[c.addBlock].insts[c.add].dst) && Ready(f, p, |f.blocks[p].insts|, x)
    ensures var v := Get(s.regs, f.blocks[h].phis[j].dst);
            0 <= v < c.bound && Eval(x, params, s.regs) == v + c.step
  {
    BodyBelowHeader(f, h, j, c);
    assert Sets(f, InstPlace(c.addBlock, c.add), x.id);
    OperandBefore(f, p, |f.blocks[p].insts|, x, InstPlace(c.addBlock, c.add));
    DominatesThrough(Cfg(f), Body(f, c), c.addBlock, p);
    DominatesThrough(Cfg(f), h, c.addBlock, p);
    assert IsPure(f, c.addBlock, c.add);
    assert Equation(f, params, c.addBlock, c.add, s.regs);
  }

  lemma EnterKeepsRange(f: Function, h: nat, j: nat, c: Certificate, params: seq<i32>, p: nat, b: nat, s: Frame)
    requires hide Certified, Enter, Equations, InRange, Strict;
             Strict(f) && Certified(f, h, j, c) && Takes(f, params, p, s, b) && b < |f.blocks|
    requires Equations(f, params, p, |f.blocks[p].insts|, s.regs) && InRange(f, h, j, c, p, s.regs)
    ensures InRange(f, h, j, c, b, Enter(f.blocks[b], p, params, s).regs)
  {
    hide Enter, Equations, Strict, Takes;
    TakenEdge(f, params, p, s, b);
    BodyBelowHeader(f, h, j, c);
    CounterAfterEdge(f, h, j, c, params, p, b, s);
    if Dominates(Cfg(f), h, b) && b != h {
      DominatesPred(Cfg(f), h, p, b);
    }
    if Dominates(Cfg(f), Body(f, c), b) {
      if b == Body(f, c) {
        BodyEntered(f, h, j, c, params, p, s);
      } else {
        DominatesPred(Cfg(f), Body(f, c), p, b);
      }
    }
  }

  lemma RangeInductive(f: Function, h: nat, j: nat, c: Certificate, params: seq<i32>, callees: Callees)
    requires hide *; Strict(f) && Certified(f, h, j, c)
    ensures Inductive(f, params, callees, InvariantAt(f, h, j, c, params))
  {
    hide Binop, Certified, Enter, Equations, InRange, Leave, Step, Strict;
    var inv := InvariantAt(f, h, j, c, params);
    forall w: World
      ensures inv(0, 0, Frame(map[], map[], w))
    {
      OnlyEntryDominatesEntry(Cfg(f));
      EquationsAtEntry(f, params);
      EntryRange(f, h, j, c);
    }
    forall b: nat, k: nat, s: Frame | b < |f.blocks| && k < |f.blocks[b].insts| && inv(b, k, s)
      ensures inv(b, k + 1, Step(f.blocks[b].insts[k], params, callees, s))
    {
      StepKeepsEquations(f, params, callees, b, k, s);
      StepKeepsRange(f, h, j, c, params, callees, b, k, s);
    }
    forall b: nat, b': nat, s: Frame | Takes(f, params, b, s, b') && b' < |f.blocks| && inv(b, |f.blocks[b].insts|, s)
      ensures inv(b', 0, Enter(f.blocks[b'], b, params, s))
    {
      TakenEdge(f, params, b, s, b');
      EnterKeepsEquations(f, params, b, b', s);
      EnterKeepsRange(f, h, j, c, params, b, b', s);
    }
  }

  lemma EntryRange(f: Function, h: nat, j: nat, c: Certificate)
    requires hide *; Strict(f) && Certified(f, h, j, c)
    ensures InRange(f, h, j, c, 0, map[])
  {
    hide AllReady, Counts, Fed, Guarded, Sets;
    OnlyEntryDominatesEntry(Cfg(f));
    BodyBelowHeader(f, h, j, c);
  }

  /** A certified counter is never negative, at any point of any run that its header dominates. */
  lemma CounterStaysInRange(f: Function, h: nat, j: nat, c: Certificate, params: seq<i32>, callees: Callees, w: World,
                            b: nat, k: nat, s: Frame)
    requires hide Counts, Guarded, Passes, Strict;
             Strict(f) && Certified(f, h, j, c) && Passes(f, params, callees, w, b, k, s) && Dominates(Cfg(f), h, b)
    ensures var v := Get(s.regs, f.blocks[h].phis[j].dst); 0 <= v && (v == c.init || v < c.bound + c.step)
  {
    hide Certified, Equations, Inductive, Passes, Strict;
    RangeInductive(f, h, j, c, params, callees);
    ByRuns(f, params, callees, w, InvariantAt(f, h, j, c, params), b, k, s);
  }

  // ----- divisions by a power of two -----

  /** A constant that is not negative, or a counter. */
  ghost predicate KnownNonNegative(f: Function, v: Operand) {
    match v
    case Const(c) => c >= 0
    case Param(_) => false
    case Reg(r) => exists h: nat, j: nat :: HasPhi(f, h, j) && f.blocks[h].phis[j].dst == r && IsCounter(f, h, j)
  }

  /** The shift or mask that replaces a division by 2^k. */
  function Reduced(i: Inst, k: nat): Inst
    requires i.Binary? && k <= 30
  {
    Bits.NonNegativeDivision(0, k);
    if i.op == Sdiv then Unary(i.dst, Shr(k), i.lhs) else Binary(i.dst, And, i.lhs, Const(Pow2(k) - 1))
  }

  /** A division by 2^k whose dividend is known not to be negative. */
  ghost predicate ReducibleInst(f: Function, i: Inst, k: nat) {
    && i.Binary? && (i.op == Sdiv || i.op == Srem) && i.rhs.Const? && i.rhs.value == Pow2(k) && 1 <= k <= 30
    && KnownNonNegative(f, i.lhs)
  }

  ghost predicate Reducible(f: Function, b: nat, n: nat, k: nat) {
    b < |f.blocks| && n < |f.blocks[b].insts| && ReducibleInst(f, f.blocks[b].insts[n], k)
  }

  /** Wherever a run comes to such a division, the replacement does the same. */
  lemma ReductionIsExact(f: Function, b: nat, n: nat, k: nat, params: seq<i32>, callees: Callees, w: World, s: Frame)
    requires hide KnownNonNegative, Passes, Reduced, Step, Strict;
             Strict(f) && Reducible(f, b, n, k) && Passes(f, params, callees, w, b, n, s)
    ensures Step(Reduced(f.blocks[b].insts[n], k), params, callees, s) == Step(f.blocks[b].insts[n], params, callees, s)
  {
    hide KnownNonNegative, Passes, Reduced, Step, Strict;
    DividendIsNonNegative(f, b, n, k, params, callees, w, s);
    hide Strict, KnownNonNegative, Passes;
    ReducedStepValue(f.blocks[b].insts[n], k, params, callees, s);
  }

  lemma ReducedStepValue(i: Inst, k: nat, params: seq<i32>, callees: Callees, s: Frame)
    requires hide *; i.Binary? && (i.op == Sdiv || i.op == Srem) && i.rhs.Const? && i.rhs.value == Pow2(k) && k <= 30
    requires Eval(i.lhs, params, s.regs) >= 0
    ensures Step(Reduced(i, k), params, callees, s) == Step(i, params, callees, s)
  {
    Bits.NonNegativeDivision(Eval(i.lhs, params, s.regs), k);
    hide Int32.Shr, Int32.And, Div, Rem, Pow2;
  }

  lemma DividendIsNonNegative(f: Function, b: nat, n: nat, k: nat, params: seq<i32>, callees: Callees, w: World,
                              s: Frame)
    requires Strict(f) && Reducible(f, b, n, k) && Passes(f, params, callees, w, b, n, s)
    ensures Eval(f.blocks[b].insts[n].lhs, params, s.regs) >= 0
  {
    var i := f.blocks[b].insts[n];
    if i.lhs.Reg? {
      var h: nat, j: nat :| HasPhi(f, h, j) && f.blocks[h].phis[j].dst == i.lhs.id && IsCounter(f, h, j);
      var c :| Certified(f, h, j, c);
      assert i.lhs in Uses(i) && Sets(f, PhiPlace(h, j), i.lhs.id);
      OperandBefore(f, b, n, i.lhs, PhiPlace(h, j));
      CounterStaysInRange(f, h, j, c, params, callees, w, b, n, s);
    }
  }
}
