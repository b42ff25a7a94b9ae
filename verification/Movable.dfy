/** Instructions that could be done before a loop, and passes that leave no more of them than there were. */
module Movable {
  import opened Graphs
  import opened Ir
  import opened Ssa
  import opened SsaForm
  import opened Redundancy
  import opened Dropping
  import ErasedForm

  // ----- what could be moved -----

  /** No instruction or phi of the loop sets the operand. */
  ghost predicate SetOutside(f: Function, loop: set<nat>, v: Operand) {
    v.Reg? ==> forall p :: Sets(f, p, v.id) ==> p.block !in loop
  }

  /** An operation in the loop on operands that are all set outside. */
  ghost predicate CouldMove(f: Function, loop: set<nat>, c: nat, j: nat) {
    && c in loop && c < |f.blocks| && j < |f.blocks[c].insts|
    && match f.blocks[c].insts[j]
       case Binary(_, _, x, y) => SetOutside(f, loop, x) && SetOutside(f, loop, y)
       case Unary(_, _, x) => SetOutside(f, loop, x)
       case _ => false
  }

  ghost predicate NothingToMove(f: Function, loop: set<nat>) {
    forall c: nat, j: nat :: !CouldMove(f, loop, c, j)
  }

  /** No block of the loop dominates a block outside that dominates a block of the loop. */
  ghost predicate Sealed(g: Graph, loop: set<nat>) {
    forall d: nat, c: nat, e: nat ::
      d !in loop && c in loop && e in loop && Dominates(g, d, c) ==> !Dominates(g, e, d)
  }

  // ----- where instructions come from -----

  predicate Near(v: Operand, v': Operand) {
    if v.Reg? then v'.Reg? else v' == v
  }

  /** The same instruction up to the registers among its operands. */
  predicate Kin(i: Inst, i': Inst) {
    match i
    case Binary(d, op, x, y) => i'.Binary? && i'.dst == d && i'.op == op && Near(x, i'.lhs) && Near(y, i'.rhs)
    case Unary(d, op, x) => i'.Unary? && i'.dst == d && i'.uop == op && Near(x, i'.arg)
    case Store(p, x) => i'.Store? && i'.ptr == p && Near(x, i'.value)
    case Call(d, c, xs) => i'.Call? && i'.dst == d && i'.callee == c && |i'.args| == |xs|
    case _ => i' == i
  }

  ghost predicate HasKin(f: Function, i': Inst) {
    exists b: nat, k: nat :: b < |f.blocks| && k < |f.blocks[b].insts| && Kin(f.blocks[b].insts[k], i')
  }

  /** Every instruction of `g` comes from one of `f`. */
  ghost predicate AddsNothing(f: Function, g: Function) {
    forall b: nat, k: nat :: b < |g.blocks| && k < |g.blocks[b].insts| ==> HasKin(f, g.blocks[b].insts[k])
  }

  /** Where nothing can be moved out, nothing can be moved out afterwards. */
  ghost predicate FreesNothing(f: Function, g: Function) {
    forall loop: set<nat> :: Sealed(Cfg(f), loop) && NothingToMove(f, loop) ==> NothingToMove(g, loop)
  }

  lemma AddsNothingToItself(f: Function)
    ensures AddsNothing(f, f)
  {
    forall b: nat, k: nat | b < |f.blocks| && k < |f.blocks[b].insts|
      ensures HasKin(f, f.blocks[b].insts[k])
    {
      assert Kin(f.blocks[b].insts[k], f.blocks[b].insts[k]);
    }
  }

  lemma HasKinOn(f: Function, g: Function, i: Inst)
    requires AddsNothing(f, g) && HasKin(g, i)
    ensures HasKin(f, i)
  {
    hide Kin;
    var b: nat, k: nat :| b < |g.blocks| && k < |g.blocks[b].insts| && Kin(g.blocks[b].insts[k], i);
    var c: nat, j: nat :| c < |f.blocks| && j < |f.blocks[c].insts| && Kin(f.blocks[c].insts[j], g.blocks[b].insts[k]);
    KinOn(f.blocks[c].insts[j], g.blocks[b].insts[k], i);
  }

  lemma KinOn(i: Inst, i': Inst, i'': Inst)
    requires Kin(i, i') && Kin(i', i'')
    ensures Kin(i, i'')
  {
  }

  lemma AddsNothingOn(f: Function, g: Function, h: Function)
    requires AddsNothing(f, g) && AddsNothing(g, h)
    ensures AddsNothing(f, h)
  {
    hide HasKin;
    forall b: nat, k: nat | b < |h.blocks| && k < |h.blocks[b].insts|
      ensures HasKin(f, h.blocks[b].insts[k])
    {
      HasKinOn(f, g, h.blocks[b].insts[k]);
    }
  }

  lemma FreesNothingOn(f: Function, g: Function, h: Function)
    requires FreesNothing(f, g) && FreesNothing(g, h) && Cfg(g) == Cfg(f)
    ensures FreesNothing(f, h)
  {
    hide NothingToMove, Sealed;
  }

  lemma FreesNothingOfItself(f: Function)
    ensures FreesNothing(f, f)
  {
    hide Cfg, NothingToMove, Sealed;
  }

  // ----- replacing -----

  lemma ReplacedIsKin(r: nat, q: nat, i: Inst)
    ensures Kin(i, SubstInst(map[r := Reg(q)], i))
  {
  }

  lemma ReplacingAddsNothing(f: Function, r: nat, q: nat)
    ensures AddsNothing(f, ReplaceAllUses(f, r, Reg(q)))
  {
    hide Kin;
    var g := ReplaceAllUses(f, r, Reg(q));
    forall b: nat, k: nat | b < |g.blocks| && k < |g.blocks[b].insts|
      ensures HasKin(f, g.blocks[b].insts[k])
    {
      ReplacedIsKin(r, q, f.blocks[b].insts[k]);
    }
  }

  /** An operand of an instruction that dominates the loop from outside is set outside. */
  lemma OperandOutside(f: Function, loop: set<nat>, c: nat, j: nat, b: nat, u: Operand)
    requires hide *; Strict(f) && Sealed(Cfg(f), loop) && c !in loop && b in loop && Dominates(Cfg(f), c, b)
    requires c < |f.blocks| && j < |f.blocks[c].insts| && u in Uses(f.blocks[c].insts[j])
    ensures SetOutside(f, loop, u)
  {
    hide AllReachable, Cfg, Fed, PathTo, Sets, TermUses, Uses, Dominates;
    assert AllReady(f, c, j, Uses(f.blocks[c].insts[j]));
    assert Ready(f, c, j, u);
  }

  lemma OperandsOutside(f: Function, loop: set<nat>, c: nat, j: nat)
    requires c in loop && IsPure(f, c, j)
    ensures CouldMove(f, loop, c, j) <==> forall v :: v in Uses(f.blocks[c].insts[j]) ==> SetOutside(f, loop, v)
  {
    hide SetOutside;
    var i := f.blocks[c].insts[j];
    if i.Binary? {
      assert i.lhs in Uses(i) && i.rhs in Uses(i);
    } else {
      assert i.arg in Uses(i);
    }
  }

  /** An operation that repeats one from outside the loop could be moved itself. */
  lemma RepeatedOutside(f: Function, loop: set<nat>, c: nat, j: nat, b: nat, k: nat)
    requires hide Cfg, CouldMove, Dominates, Strict, Uses;
             Strict(f) && Sealed(Cfg(f), loop) && Before(f, InstPlace(c, j), b, k) && b in loop && c !in loop
    requires IsPure(f, c, j) && IsPure(f, b, k)
    requires forall u :: u in Uses(f.blocks[b].insts[k]) ==> u in Uses(f.blocks[c].insts[j])
    ensures CouldMove(f, loop, b, k)
  {
    hide Strict, Sealed, SetOutside, CouldMove;
    forall u | u in Uses(f.blocks[b].insts[k])
      ensures SetOutside(f, loop, u)
    {
      OperandOutside(f, loop, c, j, b, u);
    }
    OperandsOutside(f, loop, b, k);
  }

  /** A register set in the loop is replaced by one set in the loop, if nothing could be moved. */
  lemma StaysInside(f: Function, loop: set<nat>, c: nat, j: nat, q: nat, b: nat, k: nat, r: nat, v: Operand)
    requires hide Cfg, Dominates, NothingToMove, ReplaceAllUses, Strict;
             Strict(f) && Sealed(Cfg(f), loop) && NothingToMove(f, loop) && Before(f, InstPlace(c, j), b, k)
    requires IsPure(f, c, j) && IsPure(f, b, k) && Sets(f, InstPlace(c, j), q) && Sets(f, InstPlace(b, k), r)
    requires forall u :: u in Uses(f.blocks[b].insts[k]) ==> u in Uses(f.blocks[c].insts[j])
    requires !SetOutside(f, loop, v)
    ensures !SetOutside(ReplaceAllUses(f, r, Reg(q)), loop, Apply(map[r := Reg(q)], v))
  {
    hide Fed, SubstBlock, Dominates, ReplaceAllUses, Before, CouldMove, Sealed;
    DefinitionStays(f, r, q);
    var p :| Sets(f, p, v.id) && p.block in loop;
    if v.id == r {
      OnePlaceOnly(f, p, InstPlace(b, k), r);
      if c !in loop {
        RepeatedOutside(f, loop, c, j, b, k);
      }
      assert Sets(ReplaceAllUses(f, r, Reg(q)), InstPlace(c, j), q);
    } else {
      assert Sets(ReplaceAllUses(f, r, Reg(q)), p, v.id);
    }
  }

  lemma OnePlaceOnly(f: Function, p: Place, q: Place, r: nat)
    requires Strict(f) && Sets(f, p, r) && Sets(f, q, r)
    ensures p == q
  {
    hide AllReachable, AllReady, Cfg, Fed, Sets, TermUses, Uses;
  }

  /** Replacing a register by one with the same operation leaves no more to move than there was. */
  lemma ReplacingFreesNothing(f: Function, c: nat, j: nat, q: nat, b: nat, k: nat, r: nat)
    requires hide Before, FreesNothing, ReplaceAllUses, Sets, Strict; Strict(f) && Before(f, InstPlace(c, j), b, k)
    requires IsPure(f, c, j) && IsPure(f, b, k) && Sets(f, InstPlace(c, j), q) && Sets(f, InstPlace(b, k), r)
    requires forall u :: u in Uses(f.blocks[b].insts[k]) ==> u in Uses(f.blocks[c].insts[j])
    ensures FreesNothing(f, ReplaceAllUses(f, r, Reg(q)))
  {
    hide Cfg, CouldMove, Dominates, Kin, ReplaceAllUses, Strict, SetOutside, Sets, Before;
    var g, m := ReplaceAllUses(f, r, Reg(q)), map[r := Reg(q)];
    forall loop: set<nat>, d: nat, n: nat | Sealed(Cfg(f), loop) && NothingToMove(f, loop)
      ensures !CouldMove(g, loop, d, n)
    {
      if CouldMove(g, loop, d, n) {
        CouldMoveIsPure(g, loop, d, n);
        ReplacedIsKin(r, q, f.blocks[d].insts[n]);
        OperandsOutside(f, loop, d, n);
        var v :| v in Uses(f.blocks[d].insts[n]) && !SetOutside(f, loop, v);
        StaysInside(f, loop, c, j, q, b, k, r, v);
        ReplacedUse(m, f.blocks[d].insts[n], v);
        UseKeepsIn(g, loop, d, n, Apply(m, v));
      }
    }
  }

  lemma UseKeepsIn(f: Function, loop: set<nat>, c: nat, j: nat, v: Operand)
    requires c in loop && IsPure(f, c, j) && v in Uses(f.blocks[c].insts[j]) && !SetOutside(f, loop, v)
    ensures !CouldMove(f, loop, c, j)
  {
    hide SetOutside;
    OperandsOutside(f, loop, c, j);
  }

  lemma CouldMoveIsPure(f: Function, loop: set<nat>, c: nat, j: nat)
    requires CouldMove(f, loop, c, j)
    ensures c in loop && IsPure(f, c, j)
  {
  }

  lemma ReplacedUse(m: map<nat, Operand>, i: Inst, v: Operand)
    requires Pure(i) && v in Uses(i)
    ensures Apply(m, v) in Uses(SubstInst(m, i))
  {
  }

  // ----- erasing -----

  lemma ErasingAddsNothing(f: Function, dead: set<nat>)
    ensures AddsNothing(f, EraseDead(f, dead))
  {
    hide EraseDead, Left;
    var g := EraseDead(f, dead);
    forall b: nat, k: nat | b < |g.blocks| && k < |g.blocks[b].insts|
      ensures HasKin(f, g.blocks[b].insts[k])
    {
      ErasedForm.ErasedBlock(f, dead, b);
      var n := LeftFrom(f.blocks[b].insts, ErasedForm.Deadness(dead), k);
      assert Kin(f.blocks[b].insts[n], f.blocks[b].insts[n]);
    }
  }

  /** What is used keeps its place, so it is set in the loop as before. */
  lemma UsedStaysInside(f: Function, dead: set<nat>, loop: set<nat>, v: Operand)
    requires hide EraseDead, Sets; !SetOutside(f, loop, v) && v.id !in dead
    ensures !SetOutside(EraseDead(f, dead), loop, v)
  {
    hide EraseDead, Left, ErasedForm.NewPlace;
    var g := EraseDead(f, dead);
    var p :| Sets(f, p, v.id) && p.block in loop;
    ErasedForm.ErasedBlock(f, dead, p.block);
    if p.InstPlace? {
      LeftHas(f.blocks[p.block].insts, ErasedForm.Deadness(dead), p.index);
      assert Sets(g, InstPlace(p.block, NewIndex(f.blocks[p.block].insts, ErasedForm.Deadness(dead), p.index)), v.id);
    } else {
      assert Sets(g, p, v.id);
    }
  }

  lemma ErasingFreesNothing(f: Function, dead: set<nat>)
    requires Unused(f, dead)
    ensures FreesNothing(f, EraseDead(f, dead))
  {
    hide EraseDead, Left, SetOutside, CouldMove, Sealed;
    var g := EraseDead(f, dead);
    forall loop: set<nat>, d: nat, n: nat | NothingToMove(f, loop)
      ensures !CouldMove(g, loop, d, n)
    {
      if CouldMove(g, loop, d, n) {
        CouldMoveIsPure(g, loop, d, n);
        ErasedForm.ErasedBlock(f, dead, d);
        var k := LeftFrom(f.blocks[d].insts, ErasedForm.Deadness(dead), n);
        OperandsOutside(f, loop, d, k);
        var v :| v in Uses(f.blocks[d].insts[k]) && !SetOutside(f, loop, v);
        assert v.Reg? ==> v.id !in dead by { assert v.Reg? ==> Mentions(Uses(f.blocks[d].insts[k]), v.id); }
        OutsideUnlessReg(f, loop, v);
        UsedStaysInside(f, dead, loop, v);
        UseKeepsIn(g, loop, d, n, v);
      }
    }
  }

  lemma OutsideUnlessReg(f: Function, loop: set<nat>, v: Operand)
    requires !SetOutside(f, loop, v)
    ensures v.Reg?
  {
  }
}
