/** Promotion preserves meaning: the function without the promoted slots takes the same block path,
    does the same things to the world and returns the same value, on every run. */
module Promotion {
  import opened Int32
  import opened Graphs
  import opened Ir
  import opened Ssa
  import opened Renaming

  /** A register of the promoted function that was written before place `k` of block `b`. */
  ghost predicate Live(s: Setting, b: nat, k: nat, r: nat)
    requires IsTree(s.idom, s.po) && b in s.idom
  {
    || (Available(s, b, k, r) && LoadSite(s, r).None?)
    || (exists x, a :: (x, a) in s.phis && x in Chain(s.idom, s.po, b) && s.phis[(x, a)] == r)
  }

  ghost predicate LiveValue(s: Setting, b: nat, k: nat, v: Operand)
    requires IsTree(s.idom, s.po) && b in s.idom
  {
    v.Reg? ==> Live(s, b, k, v.id)
  }

  lemma LiveLater(s: Setting, b: nat, k: nat, v: Operand)
    requires hide *; IsTree(s.idom, s.po) && b in s.idom && LiveValue(s, b, k, v)
    ensures LiveValue(s, b, k + 1, v)
  {
  }

  lemma PhiIsLive(s: Setting, b: nat, a: nat)
    requires hide *; IsTree(s.idom, s.po) && b in s.idom && (b, a) in s.phis
    ensures Live(s, b, 0, s.phis[(b, a)])
  {
  }

  /** The value of a slot mentions only registers that are already written. */
  lemma {:induction false} CurrentIsLive(s: Setting, b: nat, k: nat, a: nat)
    requires hide Current, FreshPhis, LiveValue, Placed, WellFormed; Sound(s) && b < |s.f.blocks| && k <= |Code(s, b)|
    ensures LiveValue(s, b, k, Current(s, b, k, a))
    decreases s.po[0] - s.po[b], k, 0
  {
    hide ArePreds, Chain, Dominates, FreshPhis, LoadSite, Placed, Resolve, Site, WellFormed, Live;
    if k > 0 {
      match Code(s, b)[k - 1] {
        case Store(Slot(x), v) =>
          if x == a {
            ScopeOfUse(s, b, k - 1, v);
            ResolveIsLive(s, b, k - 1, v);
          } else {
            CurrentIsLive(s, b, k - 1, a);
          }
        case _ => CurrentIsLive(s, b, k - 1, a);
      }
      LiveLater(s, b, k - 1, Current(s, b, k, a));
    } else if (b, a) in s.phis {
      PhiIsLive(s, b, a);
    } else if b != 0 {
      assert Parented(s.idom, s.po, b);
      CurrentIsLive(s, s.idom[b], |Code(s, s.idom[b])|, a);
      LiveBelow(s, b, Current(s, s.idom[b], |Code(s, s.idom[b])|, a));
    }
  }

  lemma LiveBelow(s: Setting, b: nat, v: Operand)
    requires hide LiveValue;
             IsTree(s.idom, s.po) && b in s.idom && b != 0 && Parented(s.idom, s.po, b) && s.idom[b] < |s.f.blocks|
    requires LiveValue(s, s.idom[b], |Code(s, s.idom[b])|, v)
    ensures LiveValue(s, b, 0, v)
  {
    assert Chain(s.idom, s.po, b) == {b} + Chain(s.idom, s.po, s.idom[b]);
  }

  lemma {:induction false} ResolveIsLive(s: Setting, b: nat, k: nat, v: Operand)
    requires hide LiveValue, Placed, Resolve, Site, WellFormed; Sound(s) && b < |s.f.blocks| && k <= |Code(s, b)|
    requires v.Reg? ==> Available(s, b, k, v.id)
    ensures LiveValue(s, b, k, Resolve(s, v))
    decreases s.po[0] - s.po[b], k, 1
  {
    hide ArePreds, Chain, Current, Depth, Dominates, Placed, Site, WellFormed;
    if v.Reg? && LoadSite(s, v.id).Some? {
      var (b', k', a) := LoadSite(s, v.id).value;
      CurrentIsLive(s, b', k', a);
      ChainUpward(s.idom, s.po, b', b);
    }
  }

  // ----- the two frames at the same place -----

  ghost predicate SlotMatches(s: Setting, params: seq<i32>, b: nat, k: nat, old_: Frame, new_: Frame, a: nat)
    requires hide *; Sound(s) && b < |s.f.blocks| && k <= |Code(s, b)|
  {
    Get(old_.slots, a) == if a in s.promoted then Eval(Current(s, b, k, a), params, new_.regs) else Get(new_.slots, a)
  }

  ghost predicate RegMatches(s: Setting, params: seq<i32>, b: nat, k: nat, old_: Frame, new_: Frame, r: nat)
    requires Sound(s) && b < |s.f.blocks| && k <= |Code(s, b)|
  {
    Available(s, b, k, r) ==> Get(old_.regs, r) == Eval(Resolve(s, Reg(r)), params, new_.regs)
  }

  /** Before place `k` of block `b`: the worlds are the same, every slot holds what the renaming says,
      and every register that is in scope has its value or its replacement. */
  ghost predicate Match(s: Setting, params: seq<i32>, b: nat, k: nat, old_: Frame, new_: Frame)
    requires hide *; Sound(s) && b < |s.f.blocks| && k <= |Code(s, b)|
  {
    && old_.world == new_.world
    && (forall a: nat :: SlotMatches(s, params, b, k, old_, new_, a))
    && (forall r: nat :: RegMatches(s, params, b, k, old_, new_, r))
  }

  lemma OperandMatches(s: Setting, params: seq<i32>, b: nat, k: nat, old_: Frame, new_: Frame, v: Operand)
    requires hide Match, Placed, Replacement, Site, WellFormed;
             Sound(s) && b < |s.f.blocks| && k <= |Code(s, b)| && Match(s, params, b, k, old_, new_)
    requires v.Reg? ==> Available(s, b, k, v.id)
    ensures Eval(v, params, old_.regs) == Eval(Apply(Replacement(s), v), params, new_.regs)
  {
    hide ArePreds, FreshPhis, Loaded, Placed, Resolve, Site, SlotMatches, WellFormed;
    assert v.Reg? ==> RegMatches(s, params, b, k, old_, new_, v.id);
  }

  /** The register an instruction defines is not in scope before it. */
  lemma NotYetLive(s: Setting, b: nat, k: nat)
    requires hide ArePreds, FreshPhis, Live, Placed, WellFormed;
             Sound(s) && b < |s.f.blocks| && k < |Code(s, b)| && Dst(Code(s, b)[k]).Some?
    ensures !Live(s, b, k, Dst(Code(s, b)[k]).value) && !Available(s, b, k, Dst(Code(s, b)[k]).value)
    ensures Site(s.f, Dst(Code(s, b)[k]).value) == Some((b, k))
  {
    hide AllDefined, ArePreds, Chain, IsTree, LoadSite, Placed, Site;
    assert Defines(s.f, b, k, Dst(Code(s, b)[k]).value);
  }

  lemma AvailableNext(s: Setting, b: nat, k: nat, r: nat)
    requires hide ArePreds, Available, FreshPhis, Placed, WellFormed; Sound(s) && b < |s.f.blocks| && k < |Code(s, b)|
    ensures Available(s, b, k + 1, r) <==> Available(s, b, k, r) || Dst(Code(s, b)[k]) == Some(r)
  {
    hide Chain, IsTree, Live, Site, Sound;
    if Dst(Code(s, b)[k]) == Some(r) {
      NotYetLive(s, b, k);
    }
  }

  /** Writing the register of the next instruction does not disturb any value that is in scope. */
  lemma EvalUndisturbed(s: Setting, params: seq<i32>, b: nat, k: nat, v: Operand, regs: map<nat, i32>, x: i32)
    requires hide ArePreds, FreshPhis, LiveValue, Placed, WellFormed;
             Sound(s) && b < |s.f.blocks| && k < |Code(s, b)| && Dst(Code(s, b)[k]).Some?
    requires LiveValue(s, b, k, v)
    ensures Eval(v, params, regs[Dst(Code(s, b)[k]).value := x]) == Eval(v, params, regs)
  {
    hide ArePreds, Chain, Dominates, FreshPhis, IsTree, Live, Placed, Site, WellFormed;
    NotYetLive(s, b, k);
  }

  /** The same write to the register of an instruction, if it has one. */
  ghost predicate SameWrite(i: Inst, old_: Frame, new_: Frame, old': Frame, new': Frame) {
    match Dst(i)
    case None => old'.regs == old_.regs && new'.regs == new_.regs
    case Some(d) =>
      && d in old'.regs
      && old'.regs == old_.regs[d := old'.regs[d]] && new'.regs == new_.regs[d := old'.regs[d]]
  }

  /** Slot `a` is untouched, or written with the same value. */
  ghost predicate SameSlot(i: Inst, old_: Frame, new_: Frame, old': Frame, new': Frame, a: nat) {
    || (Get(old'.slots, a) == Get(old_.slots, a) && Get(new'.slots, a) == Get(new_.slots, a))
    || (i.Store? && i.ptr == Slot(a) && Get(old'.slots, a) == Get(new'.slots, a))
  }

  /** An instruction whose operands have the same values does the same. */
  lemma StepAgrees(i: Inst, m: map<nat, Operand>, params: seq<i32>, callees: Callees, old_: Frame, new_: Frame)
    requires hide *; old_.world == new_.world
    requires forall v :: v in Uses(i) ==> Eval(v, params, old_.regs) == Eval(Apply(m, v), params, new_.regs)
    requires i.Load? && i.ptr.Slot? ==> Get(old_.slots, i.ptr.slot) == Get(new_.slots, i.ptr.slot)
    ensures var old', new' := Step(i, params, callees, old_), Step(SubstInst(m, i), params, callees, new_);
            && old'.world == new'.world && SameWrite(i, old_, new_, old', new')
            && forall a: nat :: SameSlot(i, old_, new_, old', new', a)
  {
    match i {
      case Binary(_, _, x, y) => assert x in Uses(i) && y in Uses(i);
      case Unary(_, _, x) => assert x in Uses(i);
      case Alloca(_) =>
      case Load(_, p) =>
      case Store(_, x) => assert x in Uses(i);
      case Call(_, _, xs) =>
        assert EvalAll(xs, params, old_.regs) == EvalAll(ApplyAll(m, xs), params, new_.regs) by {
          assert forall j :: 0 <= j < |xs| ==> xs[j] in Uses(i);
        }
    }
  }

  /** Both functions execute an instruction that stays. */
  lemma KeptStep(s: Setting, params: seq<i32>, callees: Callees, b: nat, k: nat, old_: Frame, new_: Frame)
    requires hide *; Sound(s) && b < |s.f.blocks| && k < |Code(s, b)| && Match(s, params, b, k, old_, new_)
    requires !Removed(s.promoted, Code(s, b)[k])
    ensures Match(s, params, b, k + 1, Step(Code(s, b)[k], params, callees, old_),
                  Step(SubstInst(Replacement(s), Code(s, b)[k]), params, callees, new_))
  {
    hide Available, Current, LoadSite, RegMatches, Replacement, Sound, Step;
    var i, m := Code(s, b)[k], Replacement(s);
    var old', new' := Step(i, params, callees, old_), Step(SubstInst(m, i), params, callees, new_);
    forall v | v in Uses(i)
      ensures Eval(v, params, old_.regs) == Eval(Apply(m, v), params, new_.regs)
    {
      ScopeOfUse(s, b, k, v);
      OperandMatches(s, params, b, k, old_, new_, v);
    }
    if i.Load? && i.ptr.Slot? {
      assert SlotMatches(s, params, b, k, old_, new_, i.ptr.slot);
    }
    StepAgrees(i, m, params, callees, old_, new_);
    forall a: nat {:trigger SlotMatches(s, params, b, k + 1, old', new', a)}
      ensures SlotMatches(s, params, b, k + 1, old', new', a)
    {
      KeptStepSlot(s, params, b, k, old_, new_, old', new', a);
    }
    forall r: nat {:trigger RegMatches(s, params, b, k + 1, old', new', r)}
      ensures RegMatches(s, params, b, k + 1, old', new', r)
    {
      KeptStepReg(s, params, b, k, old_, new_, old', new', r);
    }
  }

  lemma KeptStepSlot(s: Setting, params: seq<i32>, b: nat, k: nat, old_: Frame, new_: Frame,
                     old': Frame, new': Frame, a: nat)
    requires hide *; Sound(s) && b < |s.f.blocks| && k < |Code(s, b)| && !Removed(s.promoted, Code(s, b)[k])
    requires SlotMatches(s, params, b, k, old_, new_, a)
    requires SameWrite(Code(s, b)[k], old_, new_, old', new')
    requires SameSlot(Code(s, b)[k], old_, new_, old', new', a)
    ensures SlotMatches(s, params, b, k + 1, old', new', a)
  {
    hide LiveValue, Resolve, Sound;
    if a in s.promoted {
      var d := Dst(Code(s, b)[k]);
      assert Current(s, b, k + 1, a) == Current(s, b, k, a);
      CurrentIsLive(s, b, k, a);
      if d.Some? {
        EvalUndisturbed(s, params, b, k, Current(s, b, k, a), new_.regs, old'.regs[d.value]);
      }
    }
  }

  lemma KeptStepReg(s: Setting, params: seq<i32>, b: nat, k: nat, old_: Frame, new_: Frame,
                    old': Frame, new': Frame, r: nat)
    requires hide *; Sound(s) && b < |s.f.blocks| && k < |Code(s, b)| && !Removed(s.promoted, Code(s, b)[k])
    requires RegMatches(s, params, b, k, old_, new_, r)
    requires SameWrite(Code(s, b)[k], old_, new_, old', new')
    ensures RegMatches(s, params, b, k + 1, old', new', r)
  {
    hide ArePreds, Current, Depth, FreshPhis, Placed, Site, WellFormed;
    var d := Dst(Code(s, b)[k]);
    AvailableNext(s, b, k, r);
    if d == Some(r) {
      NotYetLive(s, b, k);
      assert LoadSite(s, r).None?;
    } else if Available(s, b, k, r) {
      ResolveIsLive(s, b, k, Reg(r));
      if d.Some? {
        EvalUndisturbed(s, params, b, k, Resolve(s, Reg(r)), new_.regs, old'.regs[d.value]);
      }
    }
  }

  /** Only the original executes an access to a promoted slot. */
  lemma RemovedStep(s: Setting, params: seq<i32>, callees: Callees, b: nat, k: nat, old_: Frame, new_: Frame)
    requires hide *; Sound(s) && b < |s.f.blocks| && k < |Code(s, b)| && Match(s, params, b, k, old_, new_)
    requires Removed(s.promoted, Code(s, b)[k])
    ensures Match(s, params, b, k + 1, Step(Code(s, b)[k], params, callees, old_), new_)
  {
    hide Binop, LoadSite, Placed, Replacement;
    var i := Code(s, b)[k];
    var old' := Step(i, params, callees, old_);
    forall a: nat {:trigger SlotMatches(s, params, b, k + 1, old', new_, a)}
      ensures SlotMatches(s, params, b, k + 1, old', new_, a)
    {
      assert SlotMatches(s, params, b, k, old_, new_, a);
      if i.Store? && a == i.ptr.slot {
        ScopeOfUse(s, b, k, i.value);
        OperandMatches(s, params, b, k, old_, new_, i.value);
        assert Current(s, b, k + 1, a) == Resolve(s, i.value);
      } else if a in s.promoted {
        assert Current(s, b, k + 1, a) == Current(s, b, k, a);
      }
    }
    forall r: nat {:trigger RegMatches(s, params, b, k + 1, old', new_, r)}
      ensures RegMatches(s, params, b, k + 1, old', new_, r)
    {
      RemovedStepReg(s, params, callees, b, k, old_, new_, r);
    }
  }

  lemma RemovedStepReg(s: Setting, params: seq<i32>, callees: Callees, b: nat, k: nat, old_: Frame, new_: Frame, r: nat)
    requires hide *; Sound(s) && b < |s.f.blocks| && k < |Code(s, b)| && Match(s, params, b, k, old_, new_)
    requires Removed(s.promoted, Code(s, b)[k])
    ensures RegMatches(s, params, b, k + 1, Step(Code(s, b)[k], params, callees, old_), new_, r)
  {
    hide Binop, Current, LoadSite, Sound;
    var i := Code(s, b)[k];
    AvailableNext(s, b, k, r);
    if Dst(i) == Some(r) {
      NotYetLive(s, b, k);
      assert LoadSite(s, r) == Some((b, k, i.ptr.slot));
      assert SlotMatches(s, params, b, k, old_, new_, i.ptr.slot);
    } else {
      assert RegMatches(s, params, b, k, old_, new_, r);
    }
  }

  /** A whole block. */
  lemma {:induction false} BlockSteps(s: Setting, params: seq<i32>, callees: Callees, b: nat, k: nat,
                                      old_: Frame, new_: Frame)
    requires hide Clean, Match, Replacement, Steps, WellFormed;
             Sound(s) && b < |s.f.blocks| && k <= |Code(s, b)| && Match(s, params, b, 0, old_, new_)
    ensures Match(s, params, b, k, Steps(Code(s, b)[..k], params, callees, old_),
                  Steps(Clean(s.promoted, Replacement(s), Code(s, b)[..k]), params, callees, new_))
  {
    hide Match, Placed, Replacement, Step, SubstInst;
    if k > 0 {
      var m := Replacement(s);
      var prefix, i := Code(s, b)[..k - 1], Code(s, b)[k - 1];
      assert Code(s, b)[..k] == prefix + [i];
      BlockSteps(s, params, callees, b, k - 1, old_, new_);
      var old', new' := Steps(prefix, params, callees, old_),
        Steps(Clean(s.promoted, m, prefix), params, callees, new_);
      StepsSnoc(prefix, i, params, callees, old_);
      assert Code(s, b)[..k][..k - 1] == prefix;
      if Removed(s.promoted, i) {
        RemovedStep(s, params, callees, b, k - 1, old', new');
        assert Clean(s.promoted, m, Code(s, b)[..k]) == Clean(s.promoted, m, prefix);
      } else {
        KeptStep(s, params, callees, b, k - 1, old', new');
        StepsSnoc(Clean(s.promoted, m, prefix), SubstInst(m, i), params, callees, new_);
      }
    } else {
      assert Code(s, b)[..0] == [];
    }
  }

  lemma StepsSnoc(insts: seq<Inst>, i: Inst, params: seq<i32>, callees: Callees, s: Frame)
    ensures Steps(insts + [i], params, callees, s) == Step(i, params, callees, Steps(insts, params, callees, s))
  {
    hide Step;
    assert (insts + [i])[..|insts|] == insts;
  }

  // ----- crossing an edge -----

  lemma EdgeChain(s: Setting, p: nat, b: nat)
    requires hide AllDefined, ArePreds, FreshPhis, Placed, UniqueDefs; Sound(s) && Edge(Cfg(s.f), p, b)
    ensures b != 0 && p < |s.f.blocks| && b < |s.f.blocks| && Parented(s.idom, s.po, b)
    ensures s.idom[b] in Chain(s.idom, s.po, p)
    ensures Chain(s.idom, s.po, s.idom[b]) <= Chain(s.idom, s.po, p)
    ensures Chain(s.idom, s.po, b) == {b} + Chain(s.idom, s.po, s.idom[b])
    ensures b !in Chain(s.idom, s.po, s.idom[b])
  {
    hide AllDefined, ArePreds, FreshPhis, Placed, UniqueDefs;
    assert b != 0;
    assert b < |s.f.blocks|;
    assert Parented(s.idom, s.po, b);
    assert s.idom[b] in Chain(s.idom, s.po, b);
    assert Dominates(Cfg(s.f), s.idom[b], b);
    DominatesPred(Cfg(s.f), s.idom[b], p, b);
    ChainUpward(s.idom, s.po, s.idom[b], p);
  }

  /** Between a predecessor and the parent of a block without a phi for `a`, nothing changes `a`. */
  lemma {:induction false} OutgoingUnchanged(s: Setting, p: nat, b: nat, a: nat, x: nat)
    requires hide ArePreds, FreshPhis, Outgoing, Placed, WellFormed;
             Sound(s) && Edge(Cfg(s.f), p, b) && a in s.promoted && (b, a) !in s.phis
    requires b in s.idom && s.idom[b] in s.idom && p in s.idom
    requires x in Chain(s.idom, s.po, p) && s.idom[b] in Chain(s.idom, s.po, x)
    ensures x < |s.f.blocks| && s.idom[b] < |s.f.blocks|
    ensures Outgoing(s, x, a) == Outgoing(s, s.idom[b], a)
    decreases s.po[0] - s.po[x]
  {
    hide ArePreds, FreshPhis, Resolve, WellFormed;
    if x != s.idom[b] {
      EdgeChain(s, p, b);
      assert Boundary(s, x, p, b);
      assert !Stores(s.f, x, a) && (x, a) !in s.phis;
      CurrentWithoutStores(s, x, |Code(s, x)|, a);
      assert x != 0;
      assert Parented(s.idom, s.po, x);
      ChainUpward(s.idom, s.po, x, p);
      OutgoingUnchanged(s, p, b, a, s.idom[x]);
    }
  }

  lemma {:induction false} CurrentWithoutStores(s: Setting, b: nat, k: nat, a: nat)
    requires hide ArePreds, Current, FreshPhis, Placed, WellFormed;
             Sound(s) && b < |s.f.blocks| && k <= |Code(s, b)| && !Stores(s.f, b, a)
    ensures Current(s, b, k, a) == Current(s, b, 0, a)
  {
    hide Resolve, Sound;
    if k > 0 {
      assert forall v :: s.f.blocks[b].insts[k - 1] != Store(Slot(a), v);
      CurrentWithoutStores(s, b, k - 1, a);
    }
  }

  lemma {:induction false} IncomingFound(inc: seq<(Operand, nat)>, prev: nat, v: Operand)
    requires exists j :: 0 <= j < |inc| && inc[j].1 == prev
    requires forall j :: 0 <= j < |inc| && inc[j].1 == prev ==> inc[j].0 == v
    ensures Incoming(inc, prev) == Some(v)
  {
    if inc[0].1 != prev {
      IncomingFound(inc[1..], prev, v);
    }
  }

  /** The phi of slot `a` receives the value the slot had on the edge. */
  lemma PhiReceives(s: Setting, params: seq<i32>, p: nat, b: nat, a: nat, regs: map<nat, i32>)
    requires hide *; Sound(s) && Edge(Cfg(s.f), p, b) && b < |s.f.blocks| && p < |s.f.blocks| && (b, a) in s.phis
    ensures Get(PhiRegs(PromotedBlock(s, b).phis, p, params, regs), s.phis[(b, a)]) ==
            Eval(Outgoing(s, p, a), params, regs)
  {
    hide Clean, Outgoing, Placed, Replacement;
    var xs := s.slots[b];
    assert a in xs;
    var j :| 0 <= j < |xs| && xs[j] == a;
    PredsInRange(s, b);
    assert p in s.preds[b];
    IncomingFound(Inflow(s, s.preds[b], a), p, Outgoing(s, p, a));
    forall i | j < i < |xs|
      ensures s.phis[(b, xs[i])] != s.phis[(b, a)]
    {
      assert xs[i] in xs && xs[j] != xs[i];
    }
    PhiRegsAt(PhisAt(s, b, xs), p, params, regs, j);
  }

  /** The phis of `b` do not disturb values that were written above `b`. */
  lemma PhisUndisturbed(s: Setting, params: seq<i32>, p: nat, b: nat, v: Operand, regs: map<nat, i32>)
    requires hide FreshPhis, LiveValue, Placed, PromotedBlock, WellFormed;
             Sound(s) && Edge(Cfg(s.f), p, b) && b < |s.f.blocks| && b in s.idom && s.idom[b] in s.idom
    requires s.idom[b] < |s.f.blocks| && LiveValue(s, s.idom[b], |Code(s, s.idom[b])|, v)
    ensures Eval(v, params, PhiRegs(PromotedBlock(s, b).phis, p, params, regs)) == Eval(v, params, regs)
  {
    hide Clean, LoadSite, PhiRegs, PhisAt, Placed, Replacement, Site, WellFormed;
    EdgeChain(s, p, b);
    if v.Reg? {
      var xs := s.slots[b];
      forall j | 0 <= j < |xs|
        ensures s.phis[(b, xs[j])] != v.id
      {
        assert xs[j] in xs;
      }
      PhiRegsElsewhere(PhisAt(s, b, xs), p, params, regs, v.id);
    }
  }

  lemma EdgeSlot(s: Setting, params: seq<i32>, p: nat, b: nat, old_: Frame, new_: Frame, a: nat)
    requires hide Enter, FreshPhis, PromotedBlock, SlotMatches, WellFormed;
             Sound(s) && Edge(Cfg(s.f), p, b) && p < |s.f.blocks| && b < |s.f.blocks|
    requires SlotMatches(s, params, p, |Code(s, p)|, old_, new_, a)
    ensures SlotMatches(s, params, b, 0, old_, Enter(PromotedBlock(s, b), p, params, new_), a)
  {
    hide Chain, LiveValue, PromotedBlock, Resolve, Sound;
    EdgeChain(s, p, b);
    if a in s.promoted {
      if (b, a) in s.phis {
        PhiReceives(s, params, p, b, a, new_.regs);
      } else {
        OutgoingUnchanged(s, p, b, a, p);
        CurrentIsLive(s, s.idom[b], |Code(s, s.idom[b])|, a);
        PhisUndisturbed(s, params, p, b, Outgoing(s, s.idom[b], a), new_.regs);
        assert Current(s, b, 0, a) == Outgoing(s, s.idom[b], a);
      }
    }
  }

  lemma EdgeReg(s: Setting, params: seq<i32>, p: nat, b: nat, old_: Frame, new_: Frame, r: nat)
    requires hide Enter, FreshPhis, PromotedBlock, RegMatches, WellFormed;
             Sound(s) && Edge(Cfg(s.f), p, b) && p < |s.f.blocks| && b < |s.f.blocks|
    requires RegMatches(s, params, p, |Code(s, p)|, old_, new_, r)
    ensures RegMatches(s, params, b, 0, old_, Enter(PromotedBlock(s, b), p, params, new_), r)
  {
    if Available(s, b, 0, r) {
      EdgeChain(s, p, b);
      var u := s.idom[b];
      assert Available(s, u, |Code(s, u)|, r);
      assert Available(s, p, |Code(s, p)|, r);
      ResolveIsLive(s, u, |Code(s, u)|, Reg(r));
      PhisUndisturbed(s, params, p, b, Resolve(s, Reg(r)), new_.regs);
    }
  }

  /** Crossing an edge: the original does nothing, the promoted function executes its phis. */
  lemma CrossEdge(s: Setting, params: seq<i32>, p: nat, b: nat, old_: Frame, new_: Frame)
    requires hide Enter, FreshPhis, Match, PromotedBlock, WellFormed;
             Sound(s) && Edge(Cfg(s.f), p, b) && p < |s.f.blocks| && b < |s.f.blocks|
    requires Match(s, params, p, |Code(s, p)|, old_, new_)
    ensures Match(s, params, b, 0, Enter(s.f.blocks[b], p, params, old_), Enter(PromotedBlock(s, b), p, params, new_))
  {
    hide Clean, PhisAt, Placed, Replacement, Resolve, SlotMatches;
    assert Enter(s.f.blocks[b], p, params, old_) == old_;
    var new' := Enter(PromotedBlock(s, b), p, params, new_);
    forall a: nat {:trigger SlotMatches(s, params, b, 0, old_, new', a)}
      ensures SlotMatches(s, params, b, 0, old_, new', a)
    {
      assert SlotMatches(s, params, p, |Code(s, p)|, old_, new_, a);
      EdgeSlot(s, params, p, b, old_, new_, a);
    }
    forall r: nat {:trigger RegMatches(s, params, b, 0, old_, new', r)}
      ensures RegMatches(s, params, b, 0, old_, new', r)
    {
      assert RegMatches(s, params, p, |Code(s, p)|, old_, new_, r);
      EdgeReg(s, params, p, b, old_, new_, r);
    }
  }

  /** Two runs between blocks: the same edge with matching frames, or the same end. */
  ghost predicate Agree(s: Setting, params: seq<i32>, c: Config, d: Config)
    requires Sound(s)
  {
    match c
    case Done(_, _) => c == d
    case At(p, b, old_) =>
      && d.At? && d.prev == p && d.block == b && b < |s.f.blocks|
      && if p == 0 && b == 0 then Match(s, params, 0, 0, old_, d.frame)
         else Edge(Cfg(s.f), p, b) && p < |s.f.blocks| && Match(s, params, p, |Code(s, p)|, old_, d.frame)
  }

  lemma LeaveAgrees(s: Setting, params: seq<i32>, b: nat, old_: Frame, new_: Frame)
    requires hide *; Sound(s) && b < |s.f.blocks| && Match(s, params, b, |Code(s, b)|, old_, new_)
    ensures Agree(s, params, Leave(s.f.blocks[b].term, b, params, old_),
                  Leave(PromotedBlock(s, b).term, b, params, new_))
  {
    hide Clean, Loaded, PhisAt, Placed, Resolve, SlotMatches;
    var t := s.f.blocks[b].term;
    forall v | v in TermUses(t)
      ensures Eval(v, params, old_.regs) == Eval(Apply(Replacement(s), v), params, new_.regs)
    {
      assert AllDefined(s.f, b, |Code(s, b)|, TermUses(t));
      OperandMatches(s, params, b, |Code(s, b)|, old_, new_, v);
    }
    if t.CondBr? {
      assert t.cond in TermUses(t);
    } else if t.Ret? && t.result.Some? {
      assert t.result.value in TermUses(t);
    }
    forall x | x in Targets(t)
      ensures Edge(Cfg(s.f), b, x) && x < |s.f.blocks|
    {
      assert Edge(Cfg(s.f), b, x);
    }
    assert t.Br? ==> t.target in Targets(t);
    assert t.CondBr? ==> t.onTrue in Targets(t) && t.onFalse in Targets(t);
    NoEdgeToEntry(s);
  }

  lemma NoEdgeToEntry(s: Setting)
    requires hide *; Sound(s)
    ensures !exists p: nat :: Edge(Cfg(s.f), p, 0)
  {
    hide AllDefined, ArePreds, Chain, FreshPhis, IsTree, Placed, UniqueDefs;
  }

  lemma FirstElement(xs: seq<nat>)
    ensures xs != [] ==> xs[0] in xs
  {
  }

  lemma EnterAgrees(s: Setting, params: seq<i32>, c: Config, d: Config)
    requires hide Enter, FreshPhis, Match, PromotedBlock, WellFormed; Sound(s) && Agree(s, params, c, d) && c.At?
    ensures c.block < |s.f.blocks| && d.At?
    ensures Match(s, params, c.block, 0, Enter(s.f.blocks[c.block], c.prev, params, c.frame),
                  Enter(PromotedBlock(s, c.block), c.prev, params, d.frame))
  {
    hide Clean, Current, Match, PhisAt, Placed, Replacement, Resolve;
    if c.prev == 0 && c.block == 0 {
      FirstElement(s.slots[0]);
      assert Enter(s.f.blocks[0], 0, params, c.frame) == c.frame;
      assert Enter(PromotedBlock(s, 0), 0, params, d.frame) == d.frame;
    } else {
      CrossEdge(s, params, c.prev, c.block, c.frame, d.frame);
    }
  }

  lemma RunBlockAgrees(s: Setting, params: seq<i32>, callees: Callees, c: Config, d: Config)
    requires hide *; Sound(s) && Agree(s, params, c, d)
    ensures Agree(s, params, RunBlock(s.f, params, callees, c), RunBlock(PromotedFunction(s), params, callees, d))
  {
    hide Clean, Match, PhiAt, Replacement, Sound, Steps;
    if c.At? {
      var b := c.block;
      EnterAgrees(s, params, c, d);
      hide Match, Sound;
      var old', new' := Enter(s.f.blocks[b], c.prev, params, c.frame),
        Enter(PromotedBlock(s, b), c.prev, params, d.frame);
      BlockSteps(s, params, callees, b, |Code(s, b)|, old', new');
      assert Code(s, b)[..|Code(s, b)|] == Code(s, b);
      LeaveAgrees(s, params, b, Steps(Code(s, b), params, callees, old'),
                  Steps(PromotedBlock(s, b).insts, params, callees, new'));
    }
  }

  lemma StartAgrees(s: Setting, params: seq<i32>, w: World)
    requires hide *; Sound(s)
    ensures Agree(s, params, Start(w), Start(w))
  {
    hide ArePreds, Placed, Resolve;
    var fr := Frame(map[], map[], w);
    forall a: nat {:trigger SlotMatches(s, params, 0, 0, fr, fr, a)}
      ensures SlotMatches(s, params, 0, 0, fr, fr, a)
    {
      assert a in s.promoted ==> Current(s, 0, 0, a) == Const(0);
    }
    forall r: nat {:trigger RegMatches(s, params, 0, 0, fr, fr, r)}
      ensures RegMatches(s, params, 0, 0, fr, fr, r)
    {
      assert Chain(s.idom, s.po, 0) == {0};
    }
  }

  lemma {:induction false} RunsAgree(s: Setting, params: seq<i32>, callees: Callees, w: World, n: nat)
    requires hide *; Sound(s)
    ensures Agree(s, params, Run(s.f, params, callees, Start(w), n),
                  Run(PromotedFunction(s), params, callees, Start(w), n))
  {
    hide Agree, PromotedFunction, RunBlock, Sound, Start;
    if n == 0 {
      StartAgrees(s, params, w);
    } else {
      RunsAgree(s, params, callees, w, n - 1);
      RunBlockAgrees(s, params, callees, Run(s.f, params, callees, Start(w), n - 1),
                     Run(PromotedFunction(s), params, callees, Start(w), n - 1));
    }
  }

  /** The promoted function makes every run the original makes. */
  lemma PromotionPreservesRuns(s: Setting)
    requires hide *; Sound(s)
    ensures SameRuns(s.f, PromotedFunction(s))
  {
    hide PromotedFunction, RegMatches, Resolve, Run, SlotMatches, Sound;
    forall params: seq<i32>, callees: Callees, w: World, n: nat
      ensures SameSoFar(Run(s.f, params, callees, Start(w), n), Run(PromotedFunction(s), params, callees, Start(w), n))
    {
      RunsAgree(s, params, callees, w, n);
    }
  }
}
