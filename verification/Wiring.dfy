/** What the instructions of generated code refer to: parameters that the function has, and slots that its entry
    declares. */
module Wiring {
  import opened Ir
  import opened Ssa
  import opened Drafts
  import opened ExprGen
  import opened StmtGen
  import Ast

  predicate AllWired(vs: seq<Operand>, params: nat) {
    forall v :: v in vs && v.Param? ==> v.index < params
  }

  predicate PointerWired(p: Pointer, entry: seq<Inst>) {
    p.Slot? ==> Alloca(p.slot) in entry
  }

  /** The instruction is one that is generated, and everything that it refers to is there. */
  predicate InstWired(i: Inst, params: nat, entry: seq<Inst>) {
    && AllWired(Uses(i), params) && !(i.Binary? && i.op == BinaryOp.And)
    && (i.Load? ==> PointerWired(i.ptr, entry)) && (i.Store? ==> PointerWired(i.ptr, entry))
  }

  ghost predicate FunctionWired(f: Function, params: nat) {
    && 0 < |f.blocks|
    && (forall b: nat, k: nat :: b < |f.blocks| && k < |f.blocks[b].insts| ==>
          InstWired(f.blocks[b].insts[k], params, f.blocks[0].insts))
    && (forall b: nat :: b < |f.blocks| ==> AllWired(TermUses(f.blocks[b].term), params))
  }

  ghost predicate TableWired(symbols: map<Ast.Decl, Symbol>, entry: seq<Inst>) {
    forall d :: d in symbols && symbols[d].Local? ==> Alloca(symbols[d].slot) in entry
  }

  /** The same of a function under construction, and of the slots of its variables. */
  ghost predicate Wired(g: Gen, params: nat) {
    && 0 < |g.blocks|
    && (forall b: nat, k: nat :: b < |g.blocks| && k < |g.blocks[b].insts| ==>
          InstWired(g.blocks[b].insts[k], params, g.blocks[0].insts))
    && (forall b: nat :: b < |g.blocks| && g.blocks[b].term.Some? ==>
          AllWired(TermUses(g.blocks[b].term.value), params))
    && TableWired(g.symbols, g.blocks[0].insts)
  }

  lemma FinishedIsWired(g: Gen, params: nat)
    requires Wired(g, params)
    ensures FunctionWired(Finished(g), params)
  {
    hide InstWired;
  }

  // ----- steps -----

  /** The entry declares what it declared. */
  ghost predicate EntryKept(g: Gen, g': Gen) {
    && |g.blocks| <= |g'.blocks|
    && (|g.blocks| > 0 ==> forall a: nat :: Alloca(a) in g.blocks[0].insts ==> Alloca(a) in g'.blocks[0].insts)
  }

  /** Nothing was added that refers to something that is not there. */
  ghost predicate StaysWired(g: Gen, g': Gen) {
    EntryKept(g, g') && forall params: nat :: Wired(g, params) ==> Wired(g', params)
  }

  lemma KeepsTrans(g: Gen, g1: Gen, g2: Gen)
    requires StaysWired(g, g1) && StaysWired(g1, g2)
    ensures StaysWired(g, g2)
  {
    hide Wired;
  }

  lemma KeepsSame(g: Gen, g': Gen)
    requires hide *; g'.blocks == g.blocks && forall d :: d in g'.symbols && g'.symbols[d].Local? ==>
               d in g.symbols && g.symbols[d] == g'.symbols[d]
    ensures StaysWired(g, g')
  {
    hide InstWired, AllWired;
  }

  lemma MoreDeclared(i: Inst, params: nat, entry: seq<Inst>, entry': seq<Inst>)
    requires InstWired(i, params, entry) && forall a: nat :: Alloca(a) in entry ==> Alloca(a) in entry'
    ensures InstWired(i, params, entry')
  {
    hide AllWired;
  }

  lemma EmitWired(g: Gen, i: Inst, params: nat)
    requires hide *; Wired(g, params) && g.here < |g.blocks| && InstWired(i, params, g.blocks[0].insts)
    ensures Wired(Emit(g, i), params) && EntryKept(g, Emit(g, i))
  {
    var g' := Emit(g, i);
    hide InstWired, AllWired;
    forall b: nat, k: nat | b < |g'.blocks| && k < |g'.blocks[b].insts|
      ensures InstWired(g'.blocks[b].insts[k], params, g'.blocks[0].insts)
    {
      MoreDeclared(if b == g.here && k == |g.blocks[b].insts| then i else g.blocks[b].insts[k], params,
                   g.blocks[0].insts, g'.blocks[0].insts);
    }
  }

  /** The slot of a variable. */
  ghost predicate OfVariable(g: Gen, p: Pointer) {
    p.Slot? ==> exists d :: d in g.symbols && g.symbols[d] == Local(p.slot)
  }

  /** An instruction whose operands are no parameters. */
  predicate NoParams(vs: seq<Operand>) {
    forall v :: v in vs ==> !v.Param?
  }

  predicate IsGenerated(i: Inst) {
    !i.Alloca? && !(i.Binary? && i.op == BinaryOp.And) && NoParams(Uses(i))
  }

  ghost predicate Declared(g: Gen, p: Pointer) {
    p.Slot? ==> |g.blocks| > 0 && Alloca(p.slot) in g.blocks[0].insts
  }

  lemma EmitKeeps(g: Gen, i: Inst)
    requires hide *; g.here < |g.blocks| && IsGenerated(i)
    requires i.Load? ==> OfVariable(g, i.ptr) || Declared(g, i.ptr)
    requires i.Store? ==> OfVariable(g, i.ptr) || Declared(g, i.ptr)
    ensures StaysWired(g, Emit(g, i)) && StaysWired(g, EmitFresh(g, i))
  {
    forall params: nat | Wired(g, params)
      ensures Wired(Emit(g, i), params) && Wired(EmitFresh(g, i), params)
    {
      assert InstWired(i, params, g.blocks[0].insts);
      hide InstWired, AllWired;
      EmitWired(g, i, params);
    }
  }

  lemma CloseKeeps(g: Gen, t: Terminator)
    requires hide *; g.here < |g.blocks| && NoParams(TermUses(t))
    ensures StaysWired(g, Close(g, t))
  {
    var g' := Close(g, t);
    assert forall b: nat :: b < |g.blocks| ==> g'.blocks[b].insts == g.blocks[b].insts;
    assert forall params: nat :: AllWired(TermUses(t), params);
    hide InstWired, AllWired, NoParams;
    forall params: nat | Wired(g, params)
      ensures Wired(g', params)
    {
    }
  }

  lemma NewBlockKeeps(g: Gen)
    ensures StaysWired(g, NewBlock(g)) || g.blocks == []
  {
    var g' := NewBlock(g);
    hide InstWired, AllWired;
    if g.blocks != [] {
      assert forall b: nat :: b < |g.blocks| ==> g'.blocks[b] == g.blocks[b];
      forall params: nat | Wired(g, params)
        ensures Wired(g', params)
      {
      }
    }
  }

  /** The new slot is declared in the entry. */
  lemma SlotIsDeclared(g: Gen)
    requires |g.blocks| > 0
    ensures EntryKept(g, NewSlot(g)) && Alloca(g.next) in NewSlot(g).blocks[0].insts
    ensures forall i :: i in NewSlot(g).blocks[0].insts ==> i in g.blocks[0].insts || i == Alloca(g.next)
  {
    var insts, k := g.blocks[0].insts, LeadingAllocas(g.blocks[0].insts);
    assert insts == insts[..k] + insts[k..];
  }

  lemma SlotKeeps(g: Gen, id: nat)
    requires hide Declare, StaysWired, WithAlloca; |g.blocks| > 0
    ensures StaysWired(g, NewSlot(g)) && StaysWired(g, Declare(g, id)) && Alloca(g.next) in NewSlot(g).blocks[0].insts
  {
    hide AllWired, InstWired, LeadingAllocas, TermUses, WithAlloca;
    SlotIsDeclared(g);
    hide LeadingAllocas, WithAlloca;
    forall params: nat | Wired(g, params)
      ensures Wired(NewSlot(g), params) && Wired(Declare(g, id), params)
    {
      SlotWired(g, params);
      assert Wired(NewSlot(g), params);
    }
  }

  lemma SlotWired(g: Gen, params: nat)
    requires hide AllWired, InstWired, NewSlot, TableWired, TermUses; Wired(g, params)
    ensures Wired(NewSlot(g), params)
  {
    SlotIsDeclared(g);
    var g' := NewSlot(g);
    assert InstWired(Alloca(g.next), params, g'.blocks[0].insts);
    hide InstWired, AllWired, LeadingAllocas, WithAlloca;
    forall b: nat, k: nat | b < |g'.blocks| && k < |g'.blocks[b].insts|
      ensures InstWired(g'.blocks[b].insts[k], params, g'.blocks[0].insts)
    {
      var i := g'.blocks[b].insts[k];
      if i != Alloca(g.next) {
        assert i in g.blocks[b].insts;
        var k0 :| 0 <= k0 < |g.blocks[b].insts| && g.blocks[b].insts[k0] == i;
        MoreDeclared(g.blocks[b].insts[k0], params, g.blocks[0].insts, g'.blocks[0].insts);
      }
    }
  }

  /** Where the generator stands, and which loops it is in, does not matter. */
  lemma KeepsAt(g: Gen, g1: Gen, g2: Gen)
    requires StaysWired(g, g1) && g2.blocks == g1.blocks && g2.symbols == g1.symbols
    ensures StaysWired(g, g2)
  {
    hide *;
    KeepsSame(g1, g2);
    KeepsTrans(g, g1, g2);
  }

  lemma JumpKeeps(g: Gen, t: Terminator, b: nat)
    requires hide *; g.here < |g.blocks| && NoParams(TermUses(t))
    ensures StaysWired(g, Jump(g, t, b))
  {
    hide Close, StaysWired, TermUses;
    CloseKeeps(g, t);
    hide StaysWired;
    KeepsAt(g, Close(g, t), Jump(g, t, b));
  }

  lemma BlocksKeep(g: Gen)
    requires g.blocks != []
    ensures StaysWired(g, NewBlock(g)) && StaysWired(g, NewBlock(NewBlock(g)))
    ensures StaysWired(g, NewBlock(NewBlock(NewBlock(g))))
    ensures |NewBlock(NewBlock(g)).blocks| == |g.blocks| + 2
    ensures |NewBlock(NewBlock(NewBlock(g))).blocks| == |g.blocks| + 3
  {
    hide StaysWired;
    NewBlockKeeps(g);
    NewBlockKeeps(NewBlock(g));
    NewBlockKeeps(NewBlock(NewBlock(g)));
    KeepsTrans(g, NewBlock(g), NewBlock(NewBlock(g)));
    KeepsTrans(g, NewBlock(NewBlock(g)), NewBlock(NewBlock(NewBlock(g))));
  }

  // ----- expressions -----

  lemma DeliverKeeps(g: Gen, slot: nat, v: Operand, merge: nat, b: nat)
    requires hide *; g.here < |g.blocks| && !v.Param? && Declared(g, Slot(slot))
    ensures StaysWired(g, Deliver(g, slot, v, merge, b))
  {
    hide Declared, EmitFresh, Jump, OfVariable, StaysWired;
    var g1 := Emit(g, Store(Slot(slot), v));
    EmitKeeps(g, Store(Slot(slot), v));
    hide StaysWired;
    JumpKeeps(g1, Br(merge), b);
    KeepsTrans(g, g1, Deliver(g, slot, v, merge, b));
  }

  lemma StillDeclared(g: Gen, g': Gen, p: Pointer)
    requires StaysWired(g, g') && Declared(g, p)
    ensures Declared(g', p)
  {
    hide Wired;
  }

  lemma TestKeeps(g: Gen, x: Operand)
    requires hide *; g.here < |g.blocks| && !x.Param?
    ensures StaysWired(g, Test(g, x))
  {
    hide Declared, Emit, EmitFresh, EntryKept, OfVariable, Wired;
    EmitKeeps(g, BinaryTest(g, x));
  }

  function BinaryTest(g: Gen, x: Operand): Inst {
    Binary(g.next, ICmpNe, x, Const(0))
  }

  lemma ToShortKeeps(g: Gen, c: Operand, isAnd: bool)
    requires hide *; g.here < |g.blocks| && !c.Param?
    ensures StaysWired(g, ToShort(g, c, isAnd))
  {
    hide InstWired, TableWired;
    var g3, n := NewBlock(NewBlock(NewBlock(g))), |g.blocks|;
    BlocksKeep(g);
    hide StaysWired;
    JumpKeeps(g3, if isAnd then CondBr(c, n, n + 1) else CondBr(c, n + 1, n), n + 1);
    KeepsTrans(g, g3, ToShort(g, c, isAnd));
  }

  lemma RightKeeps(p: ShortPath)
    requires hide *; p.left.here < |p.left.blocks| && !p.x.Param? && Declared(p.left, Slot(p.g.next))
    ensures StaysWired(p.left, p.Right())
  {
    hide Deliver, ToShort, Wired;
    var t, v := Test(p.left, p.x), Const(if p.isAnd then 0 else 1);
    TestKeeps(p.left, p.x);
    ToShortKeeps(t, Reg(p.left.next), p.isAnd);
    hide StaysWired, Test, ToShort, Deliver;
    KeepsTrans(p.left, t, p.Short());
    StillDeclared(p.left, p.Short(), Slot(p.g.next));
    ShortIsInside(p);
    DeliverKeeps(p.Short(), p.g.next, v, p.Merge(), |p.left.blocks|);
    KeepsTrans(p.left, p.Short(), p.Right());
  }

  lemma ShortIsInside(p: ShortPath)
    requires hide *; p.left.here < |p.left.blocks|
    ensures Test(p.left, p.x).here < |Test(p.left, p.x).blocks| && p.Short().here < |p.Short().blocks|
  {
  }

  lemma EndKeeps(p: ShortPath)
    requires hide *; p.right.here < |p.right.blocks| && p.Merge() < |p.right.blocks| && !p.y.Param?
    requires Declared(p.right, Slot(p.g.next))
    ensures StaysWired(p.right, p.End())
  {
    var t := Test(p.right, p.y);
    TestKeeps(p.right, p.y);
    hide StaysWired, Declared;
    StillDeclared(p.right, t, Slot(p.g.next));
    DeliverKeeps(t, p.g.next, Reg(p.right.next), p.Merge(), p.Merge());
    StillDeclared(t, p.Merged(), Slot(p.g.next));
    KeepsTrans(p.right, t, p.Merged());
    EmitKeeps(p.Merged(), Load(p.Merged().next, Slot(p.g.next)));
    KeepsTrans(p.right, p.Merged(), p.End());
  }

  lemma ShortKeeps(p: ShortPath)
    requires hide *; p.g.blocks != [] && p.left.here < |p.left.blocks| && p.right.here < |p.right.blocks|
    requires p.Merge() < |p.right.blocks| && !p.x.Param? && !p.y.Param?
    requires StaysWired(NewSlot(p.g), p.left) && StaysWired(p.Right(), p.right)
    ensures StaysWired(p.g, p.End())
  {
    SlotKeeps(p.g, 0);
    var slot := Slot(p.g.next);
    assert Declared(NewSlot(p.g), slot);
    hide *;
    StillDeclared(NewSlot(p.g), p.left, slot);
    RightKeeps(p);
    StillDeclared(p.left, p.Right(), slot);
    StillDeclared(p.Right(), p.right, slot);
    EndKeeps(p);
    KeepsTrans(p.g, NewSlot(p.g), p.left);
    KeepsTrans(p.g, p.left, p.Right());
    KeepsTrans(p.g, p.Right(), p.right);
    KeepsTrans(p.g, p.right, p.End());
  }

  // ----- statements -----

  lemma BranchKeeps(g: Gen, c: Operand)
    requires hide *; g.here < |g.blocks| && !c.Param?
    ensures StaysWired(g, Branch(g, c))
  {
    BlocksKeep(g);
    hide StaysWired;
    JumpKeeps(NewBlock(NewBlock(g)), CondBr(c, |g.blocks|, |g.blocks| + 1), |g.blocks|);
    KeepsTrans(g, NewBlock(NewBlock(g)), Branch(g, c));
  }

  lemma RejoinKeeps(g: Gen, target: nat, b: nat)
    requires hide *; g.here < |g.blocks|
    ensures StaysWired(g, Rejoin(g, target, b))
  {
    KeepsSame(g, g);
    CloseKeeps(g, Br(target));
    hide StaysWired;
    KeepsAt(g, if Open(g) then Close(g, Br(target)) else g, Rejoin(g, target, b));
  }

  lemma EndAtKeeps(g: Gen, from: Gen, target: nat)
    requires hide *; from.here < |g.blocks|
    ensures StaysWired(g, EndAt(g, from, target))
  {
    hide Close, StaysWired;
    var g1 := g.(here := from.here);
    KeepsSame(g, g1);
    CloseKeeps(g1, Br(target));
    hide StaysWired;
    KeepsTrans(g, g1, Close(g1, Br(target)));
  }

  lemma MergeKeeps(yes: Gen, no: Gen)
    requires hide *; yes.here < |no.blocks| && no.here < |no.blocks|
    ensures StaysWired(no, Merge(yes, no))
  {
    KeepsSame(no, no);
    hide StaysWired, EndAt;
    if Open(yes) || Open(no) {
      var m, g1 := |no.blocks|, NewBlock(no);
      BlocksKeep(no);
      EndAtKeeps(g1, yes, m);
      EndAtKeeps(EndAt(g1, yes, m), no, m);
      KeepsTrans(no, g1, EndAt(g1, yes, m));
      KeepsTrans(no, EndAt(g1, yes, m), EndAt(EndAt(g1, yes, m), no, m));
      KeepsAt(no, EndAt(EndAt(g1, yes, m), no, m), Merge(yes, no));
    }
  }

  lemma LoopStartKeeps(g: Gen)
    requires hide *; g.here < |g.blocks|
    ensures StaysWired(g, LoopStart(g))
  {
    hide Jump, StaysWired;
    BlocksKeep(g);
    var g3 := NewBlock(NewBlock(NewBlock(g)));
    hide StaysWired;
    JumpKeeps(g3, Br(|g.blocks|), |g.blocks|);
    KeepsTrans(g, g3, LoopStart(g));
  }

  lemma LoopBodyKeeps(g: Gen, c: Operand, n: nat)
    requires hide *; g.here < |g.blocks| && !c.Param?
    ensures StaysWired(g, LoopBody(g, c, n))
  {
    JumpKeeps(g, CondBr(c, n + 1, n + 2), n + 1);
    hide StaysWired;
    KeepsAt(g, Jump(g, CondBr(c, n + 1, n + 2), n + 1), LoopBody(g, c, n));
  }

  lemma LoopEndKeeps(g: Gen, n: nat, loops: seq<(nat, nat)>)
    requires hide *; g.here < |g.blocks|
    ensures StaysWired(g, LoopEnd(g, n, loops))
  {
    hide Rejoin, StaysWired;
    RejoinKeeps(g, n, n + 2);
    hide StaysWired;
    KeepsAt(g, Rejoin(g, n, n + 2), LoopEnd(g, n, loops));
  }

  /** Storing parameter `i`. */
  lemma ParamWired(g: Gen, params: nat, id: nat, i: nat)
    requires Wired(g, params) && i < params && g.here < |g.blocks|
    ensures Wired(Emit(Declare(g, id), Store(Slot(g.next), Param(i))), params)
  {
    hide Emit, InstWired, LeadingAllocas, Wired, WithAlloca;
    SlotKeeps(g, id);
    hide InstWired, LeadingAllocas, WithAlloca;
    StoreWired(g, id, params, i);
    EmitWired(Declare(g, id), Store(Slot(g.next), Param(i)), params);
  }

  lemma StoreWired(g: Gen, id: nat, params: nat, i: nat)
    requires |g.blocks| > 0 && i < params
    ensures InstWired(Store(Slot(g.next), Param(i)), params, Declare(g, id).blocks[0].insts)
  {
    SlotIsDeclared(g);
  }
}
