/** Every construct that is generated keeps registers set before their uses and leaves its blocks reachable. */
module Fitting {
  import G = Graphs
  import opened Ir
  import opened Ssa
  import opened Drafts
  import opened ExprGen
  import opened StmtGen
  import opened Shapes
  import opened Placement
  import opened Wiring
  import Ast

  // ----- single steps -----

  lemma FreshStep(g: Gen, above: Above, i: Inst)
    requires hide AllSetBefore, Dst, EmitFresh, Fit, Placed;
             Placed(g.blocks, g.next, above) && Open(g) && Usable(g, above, Uses(i)) && Dst(i) == Some(g.next)
    ensures var g' := EmitFresh(g, i); Fit(g, above, g', above) && Usable(g', above, [Reg(g.next)])
  {
    hide Numbered, TermPlaced;
    AppendPlaced(g.blocks, g.next, above, g.here, i, g.next + 1);
    assert SetsAt(EmitFresh(g, i).blocks, g.here, |g.blocks[g.here].insts|, g.next);
  }

  lemma StoreStep(g: Gen, above: Above, p: Pointer, v: Operand)
    requires hide AllSetBefore, Emit, Fit, Placed; Placed(g.blocks, g.next, above) && Open(g) && Usable(g, above, [v])
    ensures Fit(g, above, Emit(g, Store(p, v)), above)
  {
    hide Numbered, SetBefore, TermPlaced;
    AppendPlaced(g.blocks, g.next, above, g.here, Store(p, v), g.next);
  }

  lemma CloseStep(g: Gen, above: Above, t: Terminator)
    requires hide *; Placed(g.blocks, g.next, above) && g.here < |g.blocks| && Usable(g, above, TermUses(t))
    requires G.Distinct(Targets(t)) && forall c :: c in Targets(t) ==> Below(above, g.here, c)
    ensures Fit(g, above, Close(g, t), above)
  {
    hide AllSetBefore, Numbered, Uses;
    ClosePlaced(g.blocks, g.next, above, g.here, t);
  }

  lemma JumpStep(g: Gen, above: Above, t: Terminator, b: nat)
    requires hide *; Placed(g.blocks, g.next, above) && g.here < |g.blocks| && Usable(g, above, TermUses(t))
    requires G.Distinct(Targets(t)) && (forall c :: c in Targets(t) ==> Below(above, g.here, c))
    ensures Placed(Jump(g, t, b).blocks, g.next, above)
  {
    hide AllSetBefore, Numbered, TermPlaced, TermUses, Usable, Uses;
    CloseStep(g, above, t);
  }

  /** A new block below `base`. */
  function Under(above: Above, base: set<nat>): Above {
    above + [base + {|above|}]
  }

  lemma NewBlockStep(g: Gen, above: Above, base: set<nat>)
    requires Placed(g.blocks, g.next, above)
    ensures Placed(NewBlock(g).blocks, g.next, Under(above, base))
  {
    hide AllSetBefore, Numbered, TermPlaced, Uses;
    BlockPlaced(g.blocks, g.next, above, base);
  }

  lemma SlotStep(g: Gen, above: Above)
    requires hide *; Placed(g.blocks, g.next, above) && g.here < |g.blocks|
    ensures Fit(g, above, NewSlot(g), above)
  {
    SlotPlaced(g.blocks, g.next, above, LeadingAllocas(g.blocks[0].insts));
  }

  /** New blocks and other places to stand at do not change what can be used. */
  lemma UsableWithBlocks(g: Gen, above: Above, g': Gen, above': Above, vs: seq<Operand>)
    requires Usable(g, above, vs) && g'.here == g.here
    requires |g.blocks| <= |g'.blocks| && g'.blocks[..|g.blocks|] == g.blocks
    requires g.here < |above| <= |above'| && above'[g.here] == above[g.here]
    ensures Usable(g', above', vs)
  {
    forall v | v in vs && v.Reg?
      ensures SetBefore(g'.blocks, above', g'.here, |g'.blocks[g'.here].insts|, v.id)
    {
      assert SetBefore(g.blocks, above, g.here, |g.blocks[g.here].insts|, v.id);
      var d: nat, j: nat :| SetsAt(g.blocks, d, j, v.id) && d in above[g.here]
                            && (d == g.here ==> j < |g.blocks[g.here].insts|);
      assert SetsAt(g'.blocks, d, j, v.id);
    }
    assert g'.blocks[g.here] == g.blocks[g.here];
  }

  lemma NoneUsable(g: Gen, above: Above, vs: seq<Operand>)
    requires g.here < |g.blocks| && forall v :: v in vs ==> !v.Reg?
    ensures Usable(g, above, vs)
  {
  }

  // ----- expressions -----

  /** Nothing was generated. */
  lemma NothingFits(g: Gen, g': Gen, v: Operand)
    requires g'.blocks == g.blocks && g'.next == g.next && g'.here == g.here < |g.blocks| && Grows(g, g') && v.Const?
    requires NoNewSlots(g, g')
    ensures ExprFits(g, g', v) && StmtFits(g, g')
  {
    hide Numbered, Reached, SetBefore, StaysWired, TermPlaced;
    KeepsSame(g, g');
    hide StaysWired;
    forall above | Placed(g.blocks, g.next, above)
      ensures Fit(g, above, g', above) && Usable(g', above, [v])
    {
    }
  }

  /** No variable got a slot. */
  predicate NoNewSlots(g: Gen, g': Gen) {
    forall d :: d in g'.symbols && g'.symbols[d].Local? ==> d in g.symbols && g.symbols[d] == g'.symbols[d]
  }

  lemma NoArgsFit(g: Gen)
    requires g.here < |g.blocks|
    ensures ArgsFit(g, g, [])
  {
    hide Numbered, Reached, SetBefore, StaysWired, TermPlaced;
    KeepsSame(g, g);
    hide StaysWired;
    forall above | Placed(g.blocks, g.next, above)
      ensures Fit(g, above, g, above) && Usable(g, above, [])
    {
    }
  }

  lemma ArgsFitNext(g: Gen, g1: Gen, vs: seq<Operand>, g2: Gen, x: Operand)
    requires ArgsFit(g, g1, vs) && ExprFits(g1, g2, x) && Grows(g, g2)
    ensures ArgsFit(g, g2, vs + [x])
  {
    hide MoreEdges, Placed, ReachesOn, StaysWired, TableGrows, Usable;
    GrowsEdges(g1, g2);
    ReachesOnTo(g, g1, g2);
    KeepsTrans(g, g1, g2);
    assert x in [x];
    hide Fit, Usable, Placed, Grows, ReachesOn, StaysWired;
    forall above | Placed(g.blocks, g.next, above)
      ensures exists above' :: Fit(g, above, g2, above') && Usable(g2, above', vs + [x])
    {
      var above1 := Extend(g, above, g1, vs);
      var above2 := Extend(g1, above1, g2, [x]);
      StaysUsable(g1, above1, g2, above2, vs);
      FitTrans(g, above, g1, above1, g2, above2);
      AllUsable(g2, above2, vs, x);
    }
  }

  lemma AllUsable(g: Gen, above: Above, vs: seq<Operand>, x: Operand)
    requires Usable(g, above, vs) && Usable(g, above, [x])
    ensures Usable(g, above, vs + [x])
  {
    assert x in [x];
  }

  /** The operands of an instruction, then the instruction. */
  lemma EmitFits(g: Gen, g1: Gen, vs: seq<Operand>, i: Inst)
    requires hide ArgsFit, Grows;
             ArgsFit(g, g1, vs) && Uses(i) == vs && Open(g1) && Dst(i) == Some(g1.next) && Grows(g, EmitFresh(g1, i))
    requires !(i.Binary? && i.op == BinaryOp.And) && (i.Load? ==> OfVariable(g1, i.ptr))
    ensures ExprFits(g, EmitFresh(g1, i), Reg(g1.next))
  {
    hide Placed, Reached, Usable, Wired;
    var g2 := EmitFresh(g1, i);
    EmitKeeps(g1, i);
    KeepsTrans(g, g1, g2);
    assert DraftGraph(g2.blocks) == DraftGraph(g1.blocks);
    SameReached(g1.blocks, g2.blocks);
    assert ReachesOn(g, g2);
    hide Fit, Usable, Placed, Grows, ReachesOn, StaysWired;
    forall above | Placed(g.blocks, g.next, above)
      ensures exists above' :: Fit(g, above, g2, above') && Usable(g2, above', [Reg(g1.next)])
    {
      var above1 := Extend(g, above, g1, vs);
      FreshStep(g1, above1, i);
      FitTrans(g, above, g1, above1, g2, above1);
    }
  }

  lemma SameReached(blocks: seq<Draft>, blocks': seq<Draft>)
    requires DraftGraph(blocks') == DraftGraph(blocks)
    ensures forall b: nat :: Reached(blocks', b) <==> Reached(blocks, b)
  {
  }

  // ----- short circuit -----

  /** The blocks for the right operand, the short way and the merge, all below `base`. */
  function Three(above: Above, base: set<nat>): (r: Above)
    ensures |r| == |above| + 3 && r[..|above|] == above
    ensures forall k :: |above| <= k < |above| + 3 ==> r[k] == base + {k}
  {
    Under(Under(Under(above, base), base), base)
  }

  lemma ThreeBlocks(g: Gen, above: Above, base: set<nat>)
    requires Placed(g.blocks, g.next, above)
    ensures Placed(NewBlock(NewBlock(NewBlock(g))).blocks, g.next, Three(above, base))
  {
    hide Placed;
    NewBlockStep(g, above, base);
    NewBlockStep(NewBlock(g), Under(above, base), base);
    NewBlockStep(NewBlock(NewBlock(g)), Under(Under(above, base), base), base);
  }

  lemma PlacedShape(g: Gen, above: Above)
    requires hide *; Placed(g.blocks, g.next, above)
    ensures |above| == |g.blocks| > 0 && above[0] == {0}
    ensures forall b: nat :: b < |above| ==> b in above[b]
  {
    hide AllSetBefore, Numbered, TermPlaced, Uses;
  }

  lemma BelowBase(above: Above, h: nat, base: set<nat>, k: nat)
    requires h < |above| && base <= above[h] && 0 < |above| <= k < |above| + 3
    ensures Below(Three(above, base), h, k)
  {
    assert Three(above, base)[h] == Three(above, base)[..|above|][h];
  }

  lemma ThreeShape(g: Gen, above: Above, base: set<nat>)
    requires |above| == |g.blocks| && g.here < |above|
    ensures var g3 := NewBlock(NewBlock(NewBlock(g)));
            && g3.blocks[..|g.blocks|] == g.blocks && |g3.blocks| == |g.blocks| + 3
            && g3.here == g.here && g3.next == g.next
    ensures Three(above, base)[g.here] == above[g.here]
  {
    assert Three(above, base)[..|above|][g.here] == Three(above, base)[g.here];
  }

  lemma ToShortPlaced(g: Gen, above: Above, c: Operand, isAnd: bool)
    requires hide *; Placed(g.blocks, g.next, above) && g.here < |g.blocks| && Usable(g, above, [c])
    ensures |above| == |g.blocks| && Placed(ToShort(g, c, isAnd).blocks, g.next, Three(above, above[g.here]))
  {
    hide Placed, Three, Usable, Below, NewBlock;
    PlacedShape(g, above);
    var n, b := |g.blocks|, above[g.here];
    var g3, above3 := NewBlock(NewBlock(NewBlock(g))), Three(above, b);
    ThreeBlocks(g, above, b);
    ThreeShape(g, above, b);
    ThreeSize(above, b);
    UsableWithBlocks(g, above, g3, above3, [c]);
    BelowBase(above, g.here, b, n);
    BelowBase(above, g.here, b, n + 1);
    var t := if isAnd then CondBr(c, n, n + 1) else CondBr(c, n + 1, n);
    JumpStep(g3, above3, t, n + 1);
  }

  lemma ThreeSize(above: Above, base: set<nat>)
    ensures |Three(above, base)| == |above| + 3
  {
  }

  lemma DeliverPlaced(g: Gen, above: Above, slot: nat, v: Operand, merge: nat, b: nat)
    requires hide AllSetBefore, Deliver, Numbered, TermPlaced, Uses;
             Placed(g.blocks, g.next, above) && Open(g) && Usable(g, above, [v]) && Below(above, g.here, merge)
    ensures Placed(Deliver(g, slot, v, merge, b).blocks, g.next, above)
  {
    hide AllSetBefore, Jump, Numbered, TermPlaced, Usable, Uses;
    StoreStep(g, above, Slot(slot), v);
    hide Placed;
    var g1 := Emit(g, Store(Slot(slot), v));
    NoneUsable(g1, above, []);
    JumpStep(g1, above, Br(merge), b);
  }

  lemma RightFits(p: ShortPath, above: Above)
    requires hide *; Placed(p.left.blocks, p.left.next, above) && Open(p.left) && p.left.here < |p.left.blocks|
    requires Usable(p.left, above, [p.x])
    requires Open(p.Short()) && p.Short().here == |p.left.blocks| + 1 && p.Right().here == |p.left.blocks|
    requires p.Right().next == p.left.next + 1
    ensures |above| == |p.left.blocks|
    ensures Fit(p.left, above, p.Right(), Three(above, above[p.left.here]))
  {
    hide AllSetBefore, Numbered, TermPlaced;
    var t, b := Test(p.left, p.x), above[p.left.here];
    NoneUsable(p.left, above, [Const(0)]);
    AllUsable(p.left, above, [p.x], Const(0));
    assert [p.x] + [Const(0)] == [p.x, Const(0)];
    FreshStep(p.left, above, Binary(p.left.next, ICmpNe, p.x, Const(0)));
    ToShortPlaced(t, above, Reg(p.left.next), p.isAnd);
    var v := Const(if p.isAnd then 0 else 1);
    NoneUsable(p.Short(), Three(above, b), [v]);
    assert p.Short().next == t.next;
    DeliverPlaced(p.Short(), Three(above, b), p.g.next, v, p.Merge(), |p.left.blocks|);
  }

  lemma EndFits(p: ShortPath, above: Above)
    requires hide Placed, Usable;
             p.left.here < |p.left.blocks| && p.right.here < |p.right.blocks| && p.Merge() < |p.right.blocks|
    requires Placed(p.right.blocks, p.right.next, above) && Open(p.right) && Usable(p.right, above, [p.y])
    requires Below(above, p.right.here, p.Merge()) && Open(p.Merged()) && p.Merged().here == p.Merge()
    requires above[p.Merge()] >= above[p.left.here]
    ensures Placed(p.End().blocks, p.End().next, above) && Usable(p.End(), above, [Reg(p.Merged().next)])
  {
    hide AllSetBefore, Fit, Numbered, TermPlaced;
    var t := Test(p.right, p.y);
    NoneUsable(p.right, above, [Const(0)]);
    AllUsable(p.right, above, [p.y], Const(0));
    assert [p.y] + [Const(0)] == [p.y, Const(0)];
    FreshStep(p.right, above, Binary(p.right.next, ICmpNe, p.y, Const(0)));
    hide Placed, Usable, Fit;
    FitPlaced(p.right, above, t, above);
    DeliverPlaced(t, above, p.g.next, Reg(p.right.next), p.Merge(), p.Merge());
    NoneUsable(p.Merged(), above, []);
    FreshStep(p.Merged(), above, Load(p.Merged().next, Slot(p.g.next)));
    FitPlaced(p.Merged(), above, p.End(), above);
  }

  lemma FitPlaced(g: Gen, above: Above, g': Gen, above': Above)
    requires Fit(g, above, g', above')
    ensures Placed(g'.blocks, g'.next, above')
  {
    hide AllSetBefore, Numbered, TermPlaced, Uses;
  }

  // ----- reaching the blocks of a short circuit -----

  lemma SlotReaches(g: Gen)
    requires hide *; |g.blocks| > 0
    ensures ReachesOn(g, NewSlot(g))
  {
    assert DraftGraph(NewSlot(g).blocks) == DraftGraph(g.blocks);
    SameReached(g.blocks, NewSlot(g).blocks);
  }

  lemma RightReaches(p: ShortPath)
    requires hide *; p.left.here < |p.left.blocks| && MoreEdges(p.left.blocks, p.Right().blocks)
    requires p.Short().here == |p.left.blocks| + 1 && p.Right().here == |p.left.blocks|
    ensures ReachesOn(p.left, p.Right())
  {
    RightTerms(p);
    hide *;
    ForkReaches(p.left, p.Right(), |p.left.blocks|);
  }

  /** Both ways of a fork, and the block behind the short one. */
  lemma ForkReaches(g: Gen, g': Gen, n: nat)
    requires g.here < |g.blocks| == n && |g'.blocks| == n + 3 && g'.here == n && MoreEdges(g.blocks, g'.blocks)
    requires g'.blocks[g.here].term.Some? && g'.blocks[n + 1].term.Some?
    requires n in Targets(g'.blocks[g.here].term.value) && n + 1 in Targets(g'.blocks[g.here].term.value)
    requires n + 2 in Targets(g'.blocks[n + 1].term.value)
    ensures ReachesOn(g, g')
  {
    hide MoreEdges, Reached;
    if Reached(g.blocks, g.here) {
      ReachedStays(g.blocks, g'.blocks, g.here);
      ReachedNext(g'.blocks, g.here, n);
      ReachedNext(g'.blocks, g.here, n + 1);
      ReachedNext(g'.blocks, n + 1, n + 2);
    }
  }

  lemma RightTerms(p: ShortPath)
    requires p.left.here < |p.left.blocks|
    ensures var n, blocks := |p.left.blocks|, p.Right().blocks;
            && |blocks| == n + 3 && blocks[n + 1].term.Some? && n + 2 in Targets(blocks[n + 1].term.value)
            && blocks[p.left.here].term.Some? && n in Targets(blocks[p.left.here].term.value)
            && n + 1 in Targets(blocks[p.left.here].term.value)
  {
  }

  lemma EndReaches(p: ShortPath)
    requires hide *; p.left.here < |p.left.blocks| && p.right.here < |p.right.blocks| && p.Merge() < |p.right.blocks|
    requires MoreEdges(p.right.blocks, p.End().blocks) && p.Merged().here == p.Merge()
    ensures ReachesOn(p.right, p.End())
  {
    EndTerms(p);
    hide *;
    BranchReaches(p.right, p.End());
  }

  /** The insertion point branches to the new one; there are no new blocks. */
  lemma BranchReaches(g: Gen, g': Gen)
    requires g.here < |g.blocks| == |g'.blocks| && MoreEdges(g.blocks, g'.blocks)
    requires g'.blocks[g.here].term.Some? && g'.here in Targets(g'.blocks[g.here].term.value)
    ensures ReachesOn(g, g')
  {
    hide MoreEdges, Reached;
    if Reached(g.blocks, g.here) {
      ReachedStays(g.blocks, g'.blocks, g.here);
      ReachedNext(g'.blocks, g.here, g'.here);
    }
  }

  lemma EndTerms(p: ShortPath)
    requires hide *; p.left.here < |p.left.blocks| && p.right.here < |p.right.blocks| && p.Merge() < |p.right.blocks|
    ensures |p.End().blocks| == |p.right.blocks| && p.End().here == p.Merge()
    ensures p.End().blocks[p.right.here].term.Some?
    ensures p.Merge() in Targets(p.End().blocks[p.right.here].term.value)
  {
  }

  /** What is known of the stages of a short circuit. */
  ghost predicate ShortStages(p: ShortPath) {
    && p.g.here < |p.g.blocks| && p.left.here < |p.left.blocks| && p.right.here < |p.right.blocks|
    && p.Merge() < |p.right.blocks| && Open(p.left) && Open(p.right) && Open(p.Short()) && Open(p.Merged())
    && p.Short().here == |p.left.blocks| + 1 && p.Right().here == |p.left.blocks| && p.Right().next == p.left.next + 1
    && p.Merged().here == p.Merge() && Grows(p.g, p.left) && Grows(p.left, p.Right()) && Grows(p.Right(), p.right)
    && Grows(p.g, p.End()) && Grows(NewSlot(p.g), p.left) && MoreEdges(p.right.blocks, p.End().blocks)
  }

  lemma ShortStagesKnown(p: ShortPath, l: Ast.Expr, r: Ast.Expr, consts: Ast.Consts)
    requires p.left.here < |p.left.blocks| && ShortPassed(p, l, r, consts)
    ensures ShortStages(p)
  {
    hide *;
    ShortFacts(p, l, r, consts);
    ShortLeft(p, l, r, consts);
    ShortMiddle(p, consts);
    CompiledShape(p.Right(), r, p.right, p.y, consts);
    ShapeFacts(p.Right(), p.right, consts);
    ShortNumbers(p, consts);
    ShortEnd(p, r, consts);
    ShortMerged(p, consts);
    ShortShape(p, l, r, consts);
    ShapeFacts(p.g, p.End(), consts);
    StaysMoved(p.g, NewSlot(p.g));
    GrowsOn(p.g, NewSlot(p.g), p.left);
    GrowsEdges(p.right, p.Merged());
    SameEdges(p);
    StagesFrom(p);
  }

  lemma StaysMoved(g: Gen, g': Gen)
    requires g'.here == g.here
    ensures Moved(g, g')
  {
  }

  lemma SameEdges(p: ShortPath)
    requires hide *; p.left.here < |p.left.blocks| && p.right.here < |p.right.blocks| && p.Merge() < |p.right.blocks|
    requires MoreEdges(p.right.blocks, p.Merged().blocks)
    ensures MoreEdges(p.right.blocks, p.End().blocks)
  {
    assert DraftGraph(p.End().blocks) == DraftGraph(p.Merged().blocks);
  }

  lemma StagesFrom(p: ShortPath)
    requires hide *; p.g.here < |p.g.blocks| && p.left.here < |p.left.blocks| && p.right.here < |p.right.blocks|
    requires p.Merge() < |p.right.blocks| && Open(p.left) && Open(p.right) && Open(p.Short()) && Open(p.Merged())
    requires p.Short().here == |p.left.blocks| + 1 && p.Right().here == |p.left.blocks|
    requires p.Right().next == p.left.next + 1 && p.Merged().here == p.Merge() && Grows(p.g, p.left)
    requires Grows(p.left, p.Right()) && Grows(p.Right(), p.right) && Grows(p.g, p.End())
    requires Grows(NewSlot(p.g), p.left) && MoreEdges(p.right.blocks, p.End().blocks)
    ensures ShortStages(p)
  {
  }

  lemma ShortFits(p: ShortPath)
    requires hide ExprFits, Grows, MoreEdges, NewSlot;
             ShortStages(p) && ExprFits(NewSlot(p.g), p.left, p.x) && ExprFits(p.Right(), p.right, p.y)
    ensures ExprFits(p.g, p.End(), Reg(p.Merged().next))
  {
    ShortReaches(p);
    assert p.x in [p.x] && p.y in [p.y];
    ShortKeeps(p);
    hide StaysWired;
    assert p.End().here == p.Merge() && |p.End().blocks| == |p.right.blocks|;
    forall above | Placed(p.g.blocks, p.g.next, above)
      ensures exists above' :: Fit(p.g, above, p.End(), above') && Usable(p.End(), above', [Reg(p.Merged().next)])
    {
      hide *;
      var above' := ShortAbove(p, above);
    }
  }

  lemma ShortReaches(p: ShortPath)
    requires hide Grows, MoreEdges, NewSlot, ReachesOn;
             ShortStages(p) && ReachesOn(NewSlot(p.g), p.left) && ReachesOn(p.Right(), p.right)
    ensures ReachesOn(p.g, p.End())
  {
    hide Grows, MoreEdges, NewSlot, ReachesOn, Open;
    SlotReaches(p.g);
    GrowsEdges(NewSlot(p.g), p.left);
    ReachesOnTo(p.g, NewSlot(p.g), p.left);
    GrowsEdges(p.left, p.Right());
    RightReaches(p);
    ReachesOnTo(p.g, p.left, p.Right());
    GrowsEdges(p.Right(), p.right);
    ReachesOnTo(p.g, p.Right(), p.right);
    EndReaches(p);
    ReachesOnTo(p.g, p.right, p.End());
  }

  lemma ShortAbove(p: ShortPath, above: Above) returns (above2: Above)
    requires ShortStages(p) && ExprFits(NewSlot(p.g), p.left, p.x) && ExprFits(p.Right(), p.right, p.y)
    requires Placed(p.g.blocks, p.g.next, above)
    ensures Fit(p.g, above, p.End(), above2) && Usable(p.End(), above2, [Reg(p.Merged().next)])
  {
    hide Placed, Usable, Fit, Grows, Open, ArgsFit;
    SlotStep(p.g, above);
    FitPlaced(p.g, above, NewSlot(p.g), above);
    var above1 := Extend(NewSlot(p.g), above, p.left, [p.x]);
    FitTrans(p.g, above, NewSlot(p.g), above, p.left, above1);
    PlacedShape(p.left, above1);
    var base := above1[p.left.here];
    var aboveR := Three(above1, base);
    RightFits(p, above1);
    FitPlaced(p.left, above1, p.Right(), aboveR);
    FitTrans(p.g, above, p.left, above1, p.Right(), aboveR);
    above2 := Extend(p.Right(), aboveR, p.right, [p.y]);
    FitTrans(p.g, above, p.Right(), aboveR, p.right, above2);
    MergeAbove(p, above1, above2);
    EndFits(p, above2);
    FitParts(p.g, above, p.left, above1);
    FitParts(p.g, above, p.right, above2);
    EndFitsOn(p, above, above2);
  }

  lemma ThreeMore(above: Above, base: set<nat>)
    ensures |Three(above, base)| == |above| + 3
  {
  }

  lemma MergeAbove(p: ShortPath, above1: Above, above2: Above)
    requires hide Fit, Grows, MoreEdges, NewSlot, Three; ShortStages(p) && |above1| == |p.left.blocks|
    requires Fit(p.Right(), Three(above1, above1[p.left.here]), p.right, above2)
    ensures |above2| == |p.right.blocks| && above2[p.left.here] == above1[p.left.here]
    ensures above2[p.Merge()] == above1[p.left.here] + {p.Merge()} && Below(above2, p.right.here, p.Merge())
  {
    hide *;
    var n, h := |p.left.blocks|, p.left.here;
    RightHere(p);
    ThreeMore(above1, above1[h]);
    FitHere(p.Right(), Three(above1, above1[h]), p.right, above2);
    FitParts(p.Right(), Three(above1, above1[h]), p.right, above2);
    MergeInThree(above1, h, above2, n, p.right.here);
  }

  lemma RightHere(p: ShortPath)
    requires hide *; ShortStages(p)
    ensures p.left.here < |p.left.blocks| && p.Right().here == |p.left.blocks| && p.Merge() == |p.left.blocks| + 2
  {
    hide Grows, MoreEdges, NewSlot;
  }

  lemma MergeInThree(above1: Above, h: nat, above2: Above, n: nat, h': nat)
    requires h < |above1| == n && n + 3 <= |above2| && above2[..n + 3] == Three(above1, above1[h]) && h' < |above2|
    requires Three(above1, above1[h])[n] <= above2[h']
    ensures above2[h] == above1[h] && above2[n + 2] == above1[h] + {n + 2} && Below(above2, h', n + 2)
  {
    var aboveR := Three(above1, above1[h]);
    assert aboveR[..n][h] == aboveR[h];
    assert above2[..n + 3][h] == above2[h] && above2[..n + 3][n + 2] == above2[n + 2];
  }

  lemma EndFitsOn(p: ShortPath, above: Above, above2: Above)
    requires ShortStages(p) && Fit(p.g, above, p.right, above2) && Placed(p.End().blocks, p.End().next, above2)
    requires p.Merge() < |above2| && above2[p.left.here] <= above2[p.Merge()]
    requires |above| <= |above2| && p.left.here < |above2| && above[p.g.here] <= above2[p.left.here]
    ensures Fit(p.g, above, p.End(), above2)
  {
    hide AllSetBefore, Grows, MoreEdges, NewSlot, Numbered, TermPlaced;
  }

  // ----- simple statements -----

  lemma EffectFits(g: Gen, g': Gen, v: Operand)
    requires ExprFits(g, g', v)
    ensures StmtFits(g, g')
  {
    hide AllSetBefore, Grows, Numbered, ReachesOn, StaysWired, TermPlaced;
    forall above | Placed(g.blocks, g.next, above)
      ensures exists above' :: Fit(g, above, g', above')
    {
      var above' := Extend(g, above, g', [v]);
    }
  }

  lemma SameGraphAfter(g: Gen, i: Inst)
    requires g.here < |g.blocks|
    ensures DraftGraph(Emit(g, i).blocks) == DraftGraph(g.blocks)
  {
  }

  /** A value, perhaps behind a new slot, and the store of it. */
  lemma StoredFits(g0: Gen, g: Gen, g1: Gen, v: Operand, p: Pointer)
    requires hide ExprFits, Grows, Placed, StaysWired, StmtFits; g == g0
             || (|g0.blocks| > 0 && g.blocks == NewSlot(g0).blocks && g.next == g0.next + 1 && g.here == g0.here)
    requires ExprFits(g, g1, v) && Open(g1) && g0.here < |g0.blocks| && Grows(g0, Emit(g1, Store(p, v)))
    requires StaysWired(g0, g) && OfVariable(g1, p)
    ensures StmtFits(g0, Emit(g1, Store(p, v)))
  {
    hide DraftGraph, NewSlot, Placed, ReachesOn, Usable, Wired;
    var g2 := Emit(g1, Store(p, v));
    assert v in [v];
    StoreKeeps(g0, g, g1, v, p);
    SameGraphAfter(g1, Store(p, v));
    StoredReaches(g0, g, g1, g2);
    hide Grows, ReachesOn, Open, Placed, Usable, ArgsFit, Fit, Emit, NewSlot, StaysWired;
    forall above | Placed(g0.blocks, g0.next, above)
      ensures exists above' :: Fit(g0, above, g2, above')
    {
      SlotStep(g0, above);
      FitPlaced(g0, above, NewSlot(g0), above);
      SlotNext(g0);
      var above1 := Extend(g, above, g1, [v]);
      StoreStep(g1, above1, p, v);
      FitTrans(g, above, g1, above1, g2, above1);
      FitFromHere(g0, g, above, g2, above1);
    }
  }

  lemma StoreKeeps(g0: Gen, g: Gen, g1: Gen, v: Operand, p: Pointer)
    requires hide *; StaysWired(g0, g) && StaysWired(g, g1) && OfVariable(g1, p) && !v.Param? && g1.here < |g1.blocks|
    ensures StaysWired(g0, Emit(g1, Store(p, v)))
  {
    hide Declared, Emit, EmitFresh, OfVariable, StaysWired;
    EmitKeeps(g1, Store(p, v));
    KeepsTrans(g0, g, g1);
    KeepsTrans(g0, g1, Emit(g1, Store(p, v)));
  }

  lemma SlotNext(g: Gen)
    requires |g.blocks| > 0
    ensures NewSlot(g).next == g.next + 1
  {
  }

  lemma FitFromHere(g0: Gen, g: Gen, above: Above, g': Gen, above': Above)
    requires Fit(g, above, g', above') && g0.here == g.here
    ensures Fit(g0, above, g', above')
  {
    hide Placed;
  }

  lemma StoredReaches(g0: Gen, g: Gen, g1: Gen, g2: Gen)
    requires hide *; g == g0 || (|g0.blocks| > 0 && g.blocks == NewSlot(g0).blocks && g.here == g0.here)
    requires ReachesOn(g, g1) && DraftGraph(g2.blocks) == DraftGraph(g1.blocks) && g2.here == g1.here
    ensures ReachesOn(g0, g2)
  {
    hide G.Reachable, Targets, WithAlloca;
    SameReached(g1.blocks, g2.blocks);
    if g != g0 {
      assert DraftGraph(g.blocks) == DraftGraph(g0.blocks);
      SameReached(g0.blocks, g.blocks);
    }
  }

  lemma CloseReaches(g: Gen, t: Terminator)
    requires Open(g)
    ensures MoreEdges(g.blocks, Close(g, t).blocks) && ReachesOn(g, Close(g, t))
  {
    var g' := Close(g, t);
    forall a: nat, b: nat | G.Edge(DraftGraph(g.blocks), a, b)
      ensures G.Edge(DraftGraph(g'.blocks), a, b)
    {
    }
    if Reached(g.blocks, g.here) {
      ReachedStays(g.blocks, g'.blocks, g.here);
    }
  }

  lemma JumpFits(g: Gen, s: Ast.Stmt)
    requires hide Grows, StmtFits; g.loops != [] && Open(g) && Grows(g, Close(g, JumpOf(g, s)))
    ensures StmtFits(g, Close(g, JumpOf(g, s)))
  {
    hide MoreEdges, Placed, ReachesOn, StaysWired, Usable;
    var t := JumpOf(g, s);
    CloseReaches(g, t);
    CloseKeeps(g, t);
    hide StaysWired;
    forall above | Placed(g.blocks, g.next, above) && LoopsBelow(g, above)
      ensures exists above' :: Fit(g, above, Close(g, t), above')
    {
      NoneUsable(g, above, []);
      CloseStep(g, above, t);
    }
  }

  lemma ReturnFits(g: Gen)
    requires hide Grows, StmtFits; Open(g) && Grows(g, Close(g, Ret(None)))
    ensures StmtFits(g, Close(g, Ret(None)))
  {
    hide MoreEdges, Placed, ReachesOn, StaysWired, Usable;
    CloseReaches(g, Ret(None));
    CloseKeeps(g, Ret(None));
    hide StaysWired;
    forall above | Placed(g.blocks, g.next, above)
      ensures exists above' :: Fit(g, above, Close(g, Ret(None)), above')
    {
      NoneUsable(g, above, []);
      CloseStep(g, above, Ret(None));
    }
  }

  lemma ReturnValueFits(g: Gen, g1: Gen, v: Operand)
    requires hide ExprFits, Grows, Placed, StaysWired, StmtFits;
             ExprFits(g, g1, v) && Open(g1) && Grows(g, Close(g1, Ret(Some(v))))
    ensures StmtFits(g, Close(g1, Ret(Some(v))))
  {
    hide Grows, MoreEdges, Placed, ReachesOn, StaysWired, Usable;
    var t := Ret(Some(v));
    CloseReaches(g1, t);
    ReachesOnTo(g, g1, Close(g1, t));
    assert v in [v];
    CloseKeeps(g1, t);
    KeepsTrans(g, g1, Close(g1, t));
    hide Grows, ReachesOn, Open, Placed, ArgsFit, StaysWired;
    forall above | Placed(g.blocks, g.next, above)
      ensures exists above' :: Fit(g, above, Close(g1, t), above')
    {
      var above1 := Extend(g, above, g1, [v]);
      CloseStep(g1, above1, t);
      FitTrans(g, above, g1, above1, Close(g1, t), above1);
    }
  }

  // ----- sequences -----

  lemma LoopsStay(g: Gen, above: Above, g': Gen, above': Above)
    requires Fit(g, above, g', above') && LoopsBelow(g, above) && g'.loops == g.loops
    ensures LoopsBelow(g', above')
  {
    hide Placed;
    forall i | 0 <= i < |g.loops|
      ensures Below(above', g'.here, g.loops[i].0) && Below(above', g'.here, g.loops[i].1)
    {
      BelowStays(above, above', g.here, g'.here, g.loops[i].0);
      BelowStays(above, above', g.here, g'.here, g.loops[i].1);
    }
  }

  lemma BelowStays(above: Above, above': Above, h: nat, h': nat, c: nat)
    requires Below(above, h, c) && |above| <= |above'| && above'[..|above|] == above && h' < |above'|
    requires above[h] <= above'[h']
    ensures Below(above', h', c)
  {
    assert above'[..|above|][c] == above'[c];
  }

  lemma StmtExtend(g: Gen, above: Above, g': Gen) returns (above': Above)
    requires StmtFits(g, g') && Placed(g.blocks, g.next, above) && LoopsBelow(g, above)
    ensures Fit(g, above, g', above') && Placed(g'.blocks, g'.next, above')
  {
    hide AllSetBefore, Grows, LoopsBelow, Numbered, ReachesOn, StaysWired, TermPlaced;
    above' :| Fit(g, above, g', above');
  }

  lemma NextFits(g: Gen, g1: Gen, g2: Gen)
    requires StmtFits(g, g1) && StmtFits(g1, g2) && g1.loops == g.loops && Grows(g, g2)
    ensures StmtFits(g, g2)
  {
    GrowsEdges(g1, g2);
    ReachesOnTo(g, g1, g2);
    KeepsTrans(g, g1, g2);
    hide StaysWired;
    forall above | Placed(g.blocks, g.next, above) && LoopsBelow(g, above)
      ensures exists above' :: Fit(g, above, g2, above')
    {
      hide *;
      var above1 := StmtExtend(g, above, g1);
      LoopsStay(g, above, g1, above1);
      var above2 := StmtExtend(g1, above1, g2);
      FitTrans(g, above, g1, above1, g2, above2);
    }
  }

  // ----- branches -----

  function Two(above: Above, base: set<nat>): (r: Above)
    ensures |r| == |above| + 2 && r[..|above|] == above
    ensures forall k :: |above| <= k < |above| + 2 ==> r[k] == base + {k}
  {
    Under(Under(above, base), base)
  }

  lemma BranchPlaced(g: Gen, above: Above, c: Operand)
    requires hide *; Placed(g.blocks, g.next, above) && g.here < |g.blocks| && Usable(g, above, [c])
    ensures |above| == |g.blocks| && Fit(g, above, Branch(g, c), Two(above, above[g.here]))
  {
    hide Placed, Usable;
    PlacedShape(g, above);
    var n, b := |g.blocks|, above[g.here];
    var g2, above2 := NewBlock(NewBlock(g)), Two(above, b);
    NewBlockStep(g, above, b);
    NewBlockStep(NewBlock(g), Under(above, b), b);
    assert above2[g.here] == above2[..n][g.here];
    assert g2.blocks[..n] == g.blocks;
    hide Placed, Two, Usable;
    UsableWithBlocks(g, above, g2, above2, [c]);
    JumpStep(g2, above2, CondBr(c, n, n + 1), n);
  }

  /** Both blocks of a branch. */
  lemma BranchReachesBoth(g: Gen, c: Operand)
    requires hide Close, MoreEdges, NewBlock, Reached; g.here < |g.blocks| && MoreEdges(g.blocks, Branch(g, c).blocks)
    ensures Reached(g.blocks, g.here) ==> Reached(Branch(g, c).blocks, |g.blocks|)
    ensures Reached(g.blocks, g.here) ==> Reached(Branch(g, c).blocks, |g.blocks| + 1)
  {
    hide Branch, MoreEdges, Reached;
    var g', n := Branch(g, c), |g.blocks|;
    BranchTerm(g, c);
    hide MoreEdges, Reached, Branch;
    if Reached(g.blocks, g.here) {
      ReachedStays(g.blocks, g'.blocks, g.here);
      ReachedNext(g'.blocks, g.here, n);
      ReachedNext(g'.blocks, g.here, n + 1);
    }
  }

  lemma BranchTerm(g: Gen, c: Operand)
    requires g.here < |g.blocks|
    ensures var n, blocks := |g.blocks|, Branch(g, c).blocks;
            && |blocks| == n + 2 && blocks[g.here].term.Some? && Branch(g, c).here == n
            && n in Targets(blocks[g.here].term.value) && n + 1 in Targets(blocks[g.here].term.value)
  {
  }

  lemma RejoinPlaced(g: Gen, above: Above, target: nat, b: nat)
    requires hide *; Placed(g.blocks, g.next, above) && g.here < |g.blocks| && Below(above, g.here, target)
    ensures Placed(Rejoin(g, target, b).blocks, g.next, above)
  {
    NoneUsable(g, above, []);
    CloseStep(g, above, Br(target));
  }

  lemma RejoinEdges(g: Gen, target: nat, b: nat)
    requires g.here < |g.blocks|
    ensures MoreEdges(g.blocks, Rejoin(g, target, b).blocks) && |Rejoin(g, target, b).blocks| == |g.blocks|
  {
    if Open(g) {
      CloseReaches(g, Br(target));
    }
  }

  /** The states of a conditional: after the condition, and after the first alternative. */
  ghost predicate IfStages(g: Gen, g1: Gen, c: Operand, yes: Gen) {
    && g.here < |g.blocks| && g1.here < |g1.blocks| && g1.loops == g.loops && yes.here < |yes.blocks|
    && Branch(g1, c).loops == g.loops && yes.loops == g.loops
    && ExprFits(g, g1, c) && StmtFits(Branch(g1, c), yes) && Grows(g1, Branch(g1, c))
  }

  lemma YesAbove(g: Gen, above: Above, g1: Gen, c: Operand, yes: Gen) returns (above1: Above, above2: Above)
    requires hide Branch, IfStages, Placed;
             IfStages(g, g1, c, yes) && Placed(g.blocks, g.next, above) && LoopsBelow(g, above)
    ensures |above1| == |g1.blocks| && Fit(g, above, g1, above1) && LoopsBelow(g1, above1)
    ensures Fit(Branch(g1, c), Two(above1, above1[g1.here]), yes, above2) && Placed(yes.blocks, yes.next, above2)
    ensures Fit(g, above, yes, above2)
  {
    hide ArgsFit, Branch, Grows, Placed, ReachesOn, StaysWired, Usable, Fit, LoopsBelow, Two, StmtFits;
    above1 := Extend(g, above, g1, [c]);
    LoopsStay(g, above, g1, above1);
    PlacedShape(g1, above1);
    var start := Two(above1, above1[g1.here]);
    BranchPlaced(g1, above1, c);
    LoopsStay(g1, above1, Branch(g1, c), start);
    FitPlaced(g1, above1, Branch(g1, c), start);
    above2 := StmtExtend(Branch(g1, c), start, yes);
    FitTrans(g, above, g1, above1, Branch(g1, c), start);
    FitTrans(g, above, Branch(g1, c), start, yes, above2);
  }

  /** Where both alternatives come from stays above their ends and above the block of the second. */
  lemma AlternativesAbove(g: Gen, above: Above, g1: Gen, c: Operand, yes: Gen, above1: Above, above2: Above)
    requires hide Branch, Placed, Two;
             |above1| == |g1.blocks| && Fit(g, above, g1, above1) && g1.here < |g1.blocks| && yes.here < |yes.blocks|
    requires Fit(Branch(g1, c), Two(above1, above1[g1.here]), yes, above2)
    ensures var n, base := |g1.blocks|, above1[g1.here];
            && |above2| == |yes.blocks| && n + 1 < |above2| && above2[n + 1] == base + {n + 1}
            && base <= above2[yes.here] && Below(above2, yes.here, n + 1) && above[g.here] <= base
            && |above1| <= |above2| && above2[..|above1|] == above1
  {
    hide AllSetBefore, Branch, Numbered, TermPlaced, Uses;
    var n, base := |g1.blocks|, above1[g1.here];
    var start := Two(above1, base);
    BranchTerm(g1, c);
    assert above2[..n + 2][n + 1] == above2[n + 1];
    assert above2[..n + 2][..n] == above2[..n];
  }

  lemma IfFits(g: Gen, g1: Gen, c: Operand, yes: Gen)
    requires hide ExprFits, Grows, Placed, StaysWired, StmtFits;
             IfStages(g, g1, c, yes) && Grows(g, Rejoin(yes, |g1.blocks| + 1, |g1.blocks| + 1))
    requires |g1.blocks| + 1 < |yes.blocks|
    ensures StmtFits(g, Rejoin(yes, |g1.blocks| + 1, |g1.blocks| + 1))
  {
    hide Branch, ExprFits, Grows, MoreEdges, Placed, ReachesOn, StaysWired;
    var n := |g1.blocks|;
    var end := Rejoin(yes, n + 1, n + 1);
    IfInside(g, g1, c, yes);
    RejoinHere(yes, n + 1, n + 1);
    hide Grows, ReachesOn, Placed, Fit, LoopsBelow, IfStages, Two, Below, MoreEdges, StaysWired, Rejoin, Open;
    RejoinEdges(yes, n + 1, n + 1);
    StagesGrow(g, g1, c, yes);
    IfReaches(g, g1, c, yes, end);
    IfKeeps(g, g1, c, yes);
    RejoinKeeps(yes, n + 1, n + 1);
    KeepsTrans(g, yes, end);
    forall above | Placed(g.blocks, g.next, above) && LoopsBelow(g, above)
      ensures exists above' :: Fit(g, above, end, above')
    {
      var above' := IfAbove(g, above, g1, c, yes);
    }
  }

  lemma IfInside(g: Gen, g1: Gen, c: Operand, yes: Gen)
    requires IfStages(g, g1, c, yes)
    ensures g.here < |g.blocks| && g1.here < |g1.blocks| && yes.here < |yes.blocks|
  {
    hide ExprFits, StmtFits, Grows, Branch;
  }

  lemma RejoinHere(g: Gen, target: nat, b: nat)
    requires g.here < |g.blocks|
    ensures Rejoin(g, target, b).here == b && Rejoin(g, target, b).next == g.next
  {
  }

  lemma IfAbove(g: Gen, above: Above, g1: Gen, c: Operand, yes: Gen) returns (above': Above)
    requires hide ExprFits, Grows, Placed, StaysWired, StmtFits;
             IfStages(g, g1, c, yes) && |g1.blocks| + 1 < |yes.blocks| && yes.here < |yes.blocks|
    requires Placed(g.blocks, g.next, above) && LoopsBelow(g, above)
    ensures Fit(g, above, Rejoin(yes, |g1.blocks| + 1, |g1.blocks| + 1), above')
  {
    hide *;
    var n := |g1.blocks|;
    RejoinHere(yes, n + 1, n + 1);
    above' := YesEnds(g, above, g1, c, yes);
    RejoinPlaced(yes, above', n + 1, n + 1);
    FitElsewhere(g, above, yes, above', Rejoin(yes, n + 1, n + 1), n + 1);
  }

  /** The end of the first alternative, from which the block of the second can be reached. */
  lemma YesEnds(g: Gen, above: Above, g1: Gen, c: Operand, yes: Gen) returns (above2: Above)
    requires hide ExprFits, Grows, Placed, StaysWired, StmtFits;
             IfStages(g, g1, c, yes) && |g1.blocks| + 1 < |yes.blocks| && yes.here < |yes.blocks|
    requires Placed(g.blocks, g.next, above) && LoopsBelow(g, above)
    ensures Fit(g, above, yes, above2) && Placed(yes.blocks, yes.next, above2)
    ensures |g1.blocks| + 1 < |above2| && Below(above2, yes.here, |g1.blocks| + 1)
    ensures |above| <= |above2| && g.here < |above| && above[g.here] <= above2[|g1.blocks| + 1]
  {
    hide *;
    IfInside(g, g1, c, yes);
    var above1;
    above1, above2 := YesAbove(g, above, g1, c, yes);
    FitParts(g, above, g1, above1);
    AlternativesAbove(g, above, g1, c, yes, above1, above2);
  }

  lemma IfKeeps(g: Gen, g1: Gen, c: Operand, yes: Gen)
    requires IfStages(g, g1, c, yes)
    ensures StaysWired(g, yes)
  {
    hide Branch, Grows, Placed, ReachesOn, StaysWired, Usable;
    assert c in [c];
    BranchKeeps(g1, c);
    hide StaysWired, Branch;
    KeepsTrans(g, g1, Branch(g1, c));
    KeepsTrans(g, Branch(g1, c), yes);
  }

  lemma StagesGrow(g: Gen, g1: Gen, c: Operand, yes: Gen)
    requires IfStages(g, g1, c, yes)
    ensures |g.blocks| <= |g1.blocks| < |g1.blocks| + 1 < |yes.blocks|
  {
    hide Branch, Placed, ReachesOn, StaysWired, Usable;
    BranchTerm(g1, c);
  }

  lemma FitElsewhere(g: Gen, above: Above, g1: Gen, above1: Above, g2: Gen, h: nat)
    requires hide *; Fit(g, above, g1, above1) && Placed(g2.blocks, g2.next, above1) && g2.here == h < |above1|
    requires |above| <= |above1| && g.here < |above| && above[g.here] <= above1[h]
    ensures Fit(g, above, g2, above1)
  {
    hide AllSetBefore, Numbered, TermPlaced, Uses;
  }

  /** Every new block of the first alternative is reached, and so is the block of the second. */
  lemma YesReached(g: Gen, g1: Gen, c: Operand, yes: Gen, b: nat)
    requires IfStages(g, g1, c, yes) && Reached(g.blocks, g.here) && |g.blocks| <= b < |yes.blocks|
    ensures Reached(yes.blocks, b)
  {
    hide *;
    StagesParts(g, g1, c, yes);
    BranchTerm(g1, c);
    GrowsEdges(g1, Branch(g1, c));
    GrowsEdges(Branch(g1, c), yes);
    BranchReachesBoth(g1, c);
    YesSteps(g, g1, Branch(g1, c), yes);
    EitherReached(g1.blocks, Branch(g1, c).blocks, yes.blocks, |g1.blocks|, b);
  }

  lemma EitherReached(first: seq<Draft>, start: seq<Draft>, last: seq<Draft>, n: nat, b: nat)
    requires MoreEdges(first, start) && MoreEdges(start, last) && Reached(start, n) && Reached(start, n + 1)
    requires (b < n ==> Reached(first, b)) && (b >= n + 2 ==> Reached(last, b))
    ensures Reached(last, b)
  {
    hide *;
    if b < n {
      ReachedStays(first, start, b);
    }
    if b < n + 2 {
      ReachedStays(start, last, b);
    }
  }

  lemma StagesParts(g: Gen, g1: Gen, c: Operand, yes: Gen)
    requires hide *; IfStages(g, g1, c, yes)
    ensures g1.here < |g1.blocks| && Grows(g1, Branch(g1, c)) && Grows(Branch(g1, c), yes)
    ensures ReachesOn(g, g1) && ReachesOn(Branch(g1, c), yes)
  {
    hide Branch, Grows, Placed, ReachesOn, StaysWired, Usable;
  }

  lemma YesSteps(g: Gen, g1: Gen, start: Gen, yes: Gen)
    requires ReachesOn(g, g1) && ReachesOn(start, yes) && Reached(g.blocks, g.here)
    requires Reached(g1.blocks, g1.here) ==> Reached(start.blocks, start.here)
    ensures Reached(g1.blocks, g1.here) && Reached(start.blocks, start.here) && Reached(yes.blocks, yes.here)
    ensures forall b: nat :: |g.blocks| <= b < |g1.blocks| ==> Reached(g1.blocks, b)
    ensures forall b: nat :: |start.blocks| <= b < |yes.blocks| ==> Reached(yes.blocks, b)
  {
  }

  lemma IfReaches(g: Gen, g1: Gen, c: Operand, yes: Gen, end: Gen)
    requires IfStages(g, g1, c, yes) && MoreEdges(yes.blocks, end.blocks) && |end.blocks| == |yes.blocks|
    requires end.here == |g1.blocks| + 1 < |yes.blocks| && |g.blocks| <= |g1.blocks|
    ensures ReachesOn(g, end)
  {
    hide MoreEdges, Reached, IfStages;
    if Reached(g.blocks, g.here) {
      forall b: nat | |g.blocks| <= b < |end.blocks|
        ensures Reached(end.blocks, b)
      {
        YesReached(g, g1, c, yes, b);
        ReachedStays(yes.blocks, end.blocks, b);
      }
    }
  }

  // ----- two alternatives -----

  /** The second alternative, from the state after the first. */
  ghost predicate ElseStages(g: Gen, g1: Gen, c: Operand, yes: Gen, no: Gen) {
    && IfStages(g, g1, c, yes) && yes.here < |no.blocks| && no.here < |no.blocks|
    && StmtFits(Other(g1, yes), no) && yes.here != |g1.blocks| + 1
  }

  lemma LoopsAt(g: Gen, above: Above, g': Gen, above': Above)
    requires LoopsBelow(g, above) && g'.loops == g.loops && g'.here < |above'| && g.here < |above| <= |above'|
    requires above'[..|above|] == above && above[g.here] <= above'[g'.here]
    ensures LoopsBelow(g', above')
  {
    forall i | 0 <= i < |g.loops|
      ensures Below(above', g'.here, g.loops[i].0) && Below(above', g'.here, g.loops[i].1)
    {
      BelowStays(above, above', g.here, g'.here, g.loops[i].0);
      BelowStays(above, above', g.here, g'.here, g.loops[i].1);
    }
  }

  lemma NoAbove(g: Gen, above: Above, g1: Gen, c: Operand, yes: Gen, no: Gen)
    returns (above1: Above, above2: Above, above3: Above)
    requires hide IfStages, Numbered, ReachesOn, StaysWired, TermPlaced;
             ElseStages(g, g1, c, yes, no) && Placed(g.blocks, g.next, above) && LoopsBelow(g, above)
    ensures |above1| == |g1.blocks| && g1.here < |above1| && Placed(no.blocks, no.next, above3)
    ensures |above| <= |above1| <= |above2| <= |above3| == |no.blocks| && above3[..|above|] == above
    ensures g.here < |above| && above[g.here] <= above1[g1.here]
    ensures yes.here < |above3| && no.here < |above3|
    ensures above1[g1.here] <= above3[yes.here] && above1[g1.here] <= above3[no.here]
  {
    hide *;
    ElseParts(g, g1, c, yes, no);
    above1, above2 := YesAbove(g, above, g1, c, yes);
    AlternativesAbove(g, above, g1, c, yes, above1, above2);
    OtherParts(g1, yes);
    FitPlaced(g, above, g1, above1);
    PlacedShape(g1, above1);
    LoopsAt(g1, above1, Other(g1, yes), above2);
    above3 := StmtExtend(Other(g1, yes), above2, no);
    PlacedShape(no, above3);
    FitParts(g, above, g1, above1);
    FitParts(Other(g1, yes), above2, no, above3);
    PrefixAt(above, above1, above2, above3, yes.here);
  }

  lemma ElseParts(g: Gen, g1: Gen, c: Operand, yes: Gen, no: Gen)
    requires ElseStages(g, g1, c, yes, no)
    ensures IfStages(g, g1, c, yes) && StmtFits(Other(g1, yes), no) && g1.here < |g1.blocks| && yes.here < |yes.blocks|
    ensures g1.loops == g.loops && yes.loops == g.loops
  {
    hide Branch, ExprFits, Grows, Placed, StaysWired, StmtFits;
  }

  lemma OtherParts(g1: Gen, yes: Gen)
    ensures Other(g1, yes).blocks == yes.blocks && Other(g1, yes).next == yes.next
    ensures Other(g1, yes).here == |g1.blocks| + 1 && Other(g1, yes).loops == yes.loops
  {
  }

  lemma FitParts(g: Gen, above: Above, g': Gen, above': Above)
    requires hide *; Fit(g, above, g', above')
    ensures |above| <= |above'| && above'[..|above|] == above && g.here < |above| && g'.here < |above'|
    ensures above[g.here] <= above'[g'.here]
  {
    hide Placed;
  }

  lemma PrefixAt(above: Above, above1: Above, above2: Above, above3: Above, h: nat)
    requires |above| <= |above1| <= |above2| <= |above3| && above1[..|above|] == above && above2[..|above1|] == above1
    requires above3[..|above2|] == above2 && h < |above2|
    ensures above3[..|above|] == above && above3[h] == above2[h]
  {
    assert above3[..|above2|][..|above|] == above3[..|above|];
    assert above2[..|above1|][..|above|] == above2[..|above|];
    assert above3[..|above2|][h] == above3[h];
  }

  lemma EndAtPlaced(g: Gen, above: Above, from: Gen, target: nat)
    requires hide *; Placed(g.blocks, g.next, above) && from.here < |g.blocks| && Below(above, from.here, target)
    ensures Placed(EndAt(g, from, target).blocks, g.next, above) && EndAt(g, from, target).next == g.next
  {
    var g' := g.(here := from.here);
    NoneUsable(g', above, []);
    CloseStep(g', above, Br(target));
  }

  lemma MergePlaced(yes: Gen, no: Gen, above: Above, base: set<nat>)
    requires hide *; yes.here < |no.blocks| && no.here < |no.blocks| && Placed(no.blocks, no.next, above)
    requires |above| == |no.blocks| && base <= above[yes.here] && base <= above[no.here]
    requires Open(yes) || Open(no)
    ensures Merge(yes, no).here == |no.blocks| && Merge(yes, no).next == no.next
    ensures Placed(Merge(yes, no).blocks, no.next, Under(above, base))
  {
    hide AllSetBefore, EndAt, Numbered, TermPlaced, Uses;
    var m, above' := |no.blocks|, Under(above, base);
    NewBlockStep(no, above, base);
    BelowUnder(above, base, yes.here);
    BelowUnder(above, base, no.here);
    hide Placed, Under, Below;
    EndAtPlaced(NewBlock(no), above', yes, m);
    EndAtPlaced(EndAt(NewBlock(no), yes, m), above', no, m);
  }

  lemma BelowUnder(above: Above, base: set<nat>, h: nat)
    requires h < |above| && base <= above[h]
    ensures Below(Under(above, base), h, |above|)
  {
  }

  lemma IfElseFits(g: Gen, g1: Gen, c: Operand, yes: Gen, no: Gen)
    requires hide *; ElseStages(g, g1, c, yes, no) && yes.here < |no.blocks| && no.here < |no.blocks|
    requires Grows(g, Merge(yes, no)) && ReachesOn(g, Merge(yes, no))
    ensures StmtFits(g, Merge(yes, no))
  {
    MergePoint(yes, no);
    StageStart(g, g1, c, yes, no);
    ElseKeeps(g, g1, c, yes, no);
    forall above | Placed(g.blocks, g.next, above) && LoopsBelow(g, above)
      ensures exists above' :: Fit(g, above, Merge(yes, no), above')
    {
      hide *;
      var above' := MergeAboveAll(g, above, g1, c, yes, no);
    }
  }

  lemma ElseKeeps(g: Gen, g1: Gen, c: Operand, yes: Gen, no: Gen)
    requires hide *; ElseStages(g, g1, c, yes, no) && yes.here < |no.blocks| && no.here < |no.blocks|
    ensures StaysWired(g, Merge(yes, no))
  {
    hide Grows, IfStages, Merge, Placed, ReachesOn, StaysWired;
    IfKeeps(g, g1, c, yes);
    MergeKeeps(yes, no);
    hide StaysWired, Merge, IfStages;
    KeepsAt(g, yes, Other(g1, yes));
    KeepsTrans(g, Other(g1, yes), no);
    KeepsTrans(g, no, Merge(yes, no));
  }

  lemma StageStart(g: Gen, g1: Gen, c: Operand, yes: Gen, no: Gen)
    requires ElseStages(g, g1, c, yes, no)
    ensures g.here < |g.blocks|
  {
    hide Branch, ExprFits, Grows, Placed, StaysWired, StmtFits;
  }

  lemma MergePoint(yes: Gen, no: Gen)
    requires yes.here < |no.blocks| && no.here < |no.blocks|
    ensures Merge(yes, no).here < |Merge(yes, no).blocks|
    ensures !(Open(yes) || Open(no)) ==> Merge(yes, no) == no
  {
  }

  lemma MergeAboveAll(g: Gen, above: Above, g1: Gen, c: Operand, yes: Gen, no: Gen) returns (above': Above)
    requires hide *; ElseStages(g, g1, c, yes, no) && Placed(g.blocks, g.next, above) && LoopsBelow(g, above)
    requires yes.here < |no.blocks| && no.here < |no.blocks|
    ensures Fit(g, above, Merge(yes, no), above')
  {
    hide Placed, ElseStages, LoopsBelow, Open, Merge, Under;
    var above1, above2, above3 := NoAbove(g, above, g1, c, yes, no);
    var base := above1[g1.here];
    if Open(yes) || Open(no) {
      MergePlaced(yes, no, above3, base);
      above' := Under(above3, base);
      UnderAt(above, above3, base);
    } else {
      MergePoint(yes, no);
      above' := above3;
    }
  }

  lemma UnderAt(above: Above, above3: Above, base: set<nat>)
    requires |above| <= |above3| && above3[..|above|] == above
    ensures var r := Under(above3, base);
            |r| == |above3| + 1 && r[..|above|] == above && r[|above3|] == base + {|above3|}
  {
    assert Under(above3, base)[..|above|] == above3[..|above|];
  }

  // ----- reaching the merge -----

  lemma EndAtEdges(g: Gen, from: Gen, target: nat)
    requires from.here < |g.blocks| && (Open(from) ==> g.blocks[from.here].term.None?)
    ensures MoreEdges(g.blocks, EndAt(g, from, target).blocks)
  {
    if Open(from) {
      CloseReaches(g.(here := from.here), Br(target));
    }
  }

  lemma NewBlockEdges(g: Gen)
    ensures MoreEdges(g.blocks, NewBlock(g).blocks)
  {
    assert forall b: nat :: b < |g.blocks| ==> NewBlock(g).blocks[b] == g.blocks[b];
  }

  lemma MoreEdgesTo(a: seq<Draft>, b: seq<Draft>, c: seq<Draft>)
    requires MoreEdges(a, b) && MoreEdges(b, c)
    ensures MoreEdges(a, c)
  {
  }

  /** What the merge of two open ends looks like. */
  lemma MergeEdges(yes: Gen, no: Gen)
    requires hide DraftSame, EndsIn, Merge, MoreEdges, Open; Apart(yes, no)
    ensures MoreEdges(no.blocks, Merge(yes, no).blocks)
    ensures Open(yes) || Open(no) ==>
              |Merge(yes, no).blocks| == |no.blocks| + 1 && Merge(yes, no).here == |no.blocks|
    ensures Open(yes) ==> EndsIn(Merge(yes, no).blocks, yes.here, |no.blocks|)
    ensures Open(no) ==> EndsIn(Merge(yes, no).blocks, no.here, |no.blocks|)
  {
    var m := |no.blocks|;
    if Open(yes) || Open(no) {
      var n1, n2 := NewBlock(no), EndAt(NewBlock(no), yes, m);
      NewBlockEdges(no);
      EndAtEdges(n1, yes, m);
      EndAtEdges(n2, no, m);
      hide MoreEdges;
      MoreEdgesTo(no.blocks, n1.blocks, n2.blocks);
      MoreEdgesTo(no.blocks, n2.blocks, Merge(yes, no).blocks);
    }
  }

  predicate EndsIn(blocks: seq<Draft>, b: nat, m: nat) {
    b < |blocks| && blocks[b].term == Some(Br(m))
  }

  lemma EndIsReached(blocks: seq<Draft>, b: nat, m: nat)
    requires EndsIn(blocks, b, m) && Reached(blocks, b)
    ensures Reached(blocks, m)
  {
    ReachedNext(blocks, b, m);
  }

  lemma StmtParts(g: Gen, g': Gen)
    requires StmtFits(g, g')
    ensures Grows(g, g') && ReachesOn(g, g') && g.here < |g.blocks| <= |g'.blocks| && g'.here < |g'.blocks|
  {
    hide LoopsBelow, Placed, Reached, StaysWired, TableGrows;
  }

  lemma ElseReached(g: Gen, g1: Gen, c: Operand, yes: Gen, no: Gen, b: nat)
    requires ElseStages(g, g1, c, yes, no) && Reached(g.blocks, g.here)
    requires |g.blocks| <= b < |no.blocks| || b == yes.here || b == no.here
    ensures Reached(no.blocks, b)
  {
    hide *;
    ElseParts(g, g1, c, yes, no);
    StmtParts(Other(g1, yes), no);
    OtherParts(g1, yes);
    StagesGrow(g, g1, c, yes);
    YesReached(g, g1, c, yes, |g1.blocks| + 1);
    OtherReached(g1, yes, no);
    GrowsEdges(Other(g1, yes), no);
    YesEnd(g, g1, c, yes);
    if b != no.here && b < |yes.blocks| {
      if b != yes.here {
        YesReached(g, g1, c, yes, b);
      }
      ReachedStays(yes.blocks, no.blocks, b);
    }
  }

  lemma OtherReached(g1: Gen, yes: Gen, no: Gen)
    requires ReachesOn(Other(g1, yes), no) && Reached(yes.blocks, |g1.blocks| + 1)
    ensures Reached(no.blocks, no.here) && forall b: nat :: |yes.blocks| <= b < |no.blocks| ==> Reached(no.blocks, b)
  {
  }

  lemma YesEnd(g: Gen, g1: Gen, c: Operand, yes: Gen)
    requires IfStages(g, g1, c, yes) && Reached(g.blocks, g.here)
    ensures Reached(yes.blocks, yes.here)
  {
    StagesParts(g, g1, c, yes);
    hide *;
    GrowsEdges(g1, Branch(g1, c));
    BranchReachesBoth(g1, c);
    BranchTerm(g1, c);
    YesSteps(g, g1, Branch(g1, c), yes);
  }

  lemma IfElseReaches(g: Gen, g1: Gen, c: Operand, yes: Gen, no: Gen)
    requires hide *; ElseStages(g, g1, c, yes, no) && Apart(yes, no) && yes.here < |no.blocks| && no.here < |no.blocks|
    ensures ReachesOn(g, Merge(yes, no))
  {
    if Reached(g.blocks, g.here) {
      hide *;
      MergePoint(yes, no);
      MergeReached(g, g1, c, yes, no);
      forall b: nat | |g.blocks| <= b < |Merge(yes, no).blocks|
        ensures Reached(Merge(yes, no).blocks, b)
      {
        BeforeMerge(g, g1, c, yes, no, b);
      }
    }
  }

  lemma BeforeMerge(g: Gen, g1: Gen, c: Operand, yes: Gen, no: Gen, b: nat)
    requires hide *; ElseStages(g, g1, c, yes, no) && Reached(g.blocks, g.here) && Apart(yes, no)
    requires yes.here < |no.blocks| && no.here < |no.blocks|
    requires |g.blocks| <= b < |Merge(yes, no).blocks| || b == yes.here || b == no.here
    ensures Reached(Merge(yes, no).blocks, b)
  {
    hide *;
    MergeEdges(yes, no);
    MergePoint(yes, no);
    if b < |no.blocks| {
      ElseReached(g, g1, c, yes, no, b);
      ReachedStays(no.blocks, Merge(yes, no).blocks, b);
    } else {
      MergeReached(g, g1, c, yes, no);
    }
  }

  lemma MergeReached(g: Gen, g1: Gen, c: Operand, yes: Gen, no: Gen)
    requires hide *; ElseStages(g, g1, c, yes, no) && Reached(g.blocks, g.here) && Apart(yes, no)
    requires yes.here < |no.blocks| && no.here < |no.blocks|
    ensures Reached(Merge(yes, no).blocks, Merge(yes, no).here)
  {
    hide *;
    MergeEdges(yes, no);
    MergePoint(yes, no);
    ElseReached(g, g1, c, yes, no, yes.here);
    ElseReached(g, g1, c, yes, no, no.here);
    ReachedStays(no.blocks, Merge(yes, no).blocks, yes.here);
    ReachedStays(no.blocks, Merge(yes, no).blocks, no.here);
    if Open(yes) {
      EndIsReached(Merge(yes, no).blocks, yes.here, |no.blocks|);
    } else if Open(no) {
      EndIsReached(Merge(yes, no).blocks, no.here, |no.blocks|);
    }
  }

  // ----- loops -----

  ghost predicate WhileStages(g: Gen, g1: Gen, c: Operand, done: Gen) {
    && g.here < |g.blocks| && g1.here < |g1.blocks| && done.here < |done.blocks|
    && ExprFits(LoopStart(g), g1, c) && StmtFits(LoopBody(g1, c, |g.blocks|), done)
    && LoopStart(g).loops == g.loops && g1.loops == g.loops && Grows(g, LoopStart(g)) && Open(g1)
  }

  lemma StartPlaced(g: Gen, above: Above)
    requires hide *; Placed(g.blocks, g.next, above) && g.here < |g.blocks|
    ensures |above| == |g.blocks| && Fit(g, above, LoopStart(g), Three(above, above[g.here]))
  {
    hide Placed, Three, Usable;
    PlacedShape(g, above);
    var n, base := |g.blocks|, above[g.here];
    var g3, above3 := NewBlock(NewBlock(NewBlock(g))), Three(above, base);
    ThreeBlocks(g, above, base);
    assert above3[g.here] == above3[..n][g.here];
    hide Placed, Three, Usable, Below;
    BelowBase(above, g.here, base, n);
    NoneUsable(g3, above3, []);
    JumpStep(g3, above3, Br(n), n);
  }

  /** The parts of a loop that `base` is above of, after its condition. */
  lemma LoopParts(above: Above, base: set<nat>, above1: Above, h: nat)
    requires 0 < |above| && |above| + 3 <= |above1| && above1[..|above| + 3] == Three(above, base) && h < |above1|
    requires base <= above1[h]
    ensures forall k :: |above| <= k < |above| + 3 ==> above1[k] == base + {k} && Below(above1, h, k)
    ensures above1[..|above|] == above
  {
    forall k | |above| <= k < |above| + 3
      ensures above1[k] == base + {k}
    {
      assert above1[..|above| + 3][k] == above1[k];
    }
    assert above1[..|above| + 3][..|above|] == above1[..|above|];
  }

  lemma BodyPlaced(g1: Gen, above1: Above, c: Operand, n: nat)
    requires hide *; Placed(g1.blocks, g1.next, above1) && g1.here < |g1.blocks| && Usable(g1, above1, [c])
    requires Below(above1, g1.here, n + 1) && Below(above1, g1.here, n + 2)
    ensures Placed(LoopBody(g1, c, n).blocks, g1.next, above1) && LoopBody(g1, c, n).next == g1.next
  {
    hide Placed, Usable;
    JumpStep(g1, above1, CondBr(c, n + 1, n + 2), n + 1);
  }

  lemma StartParts(g: Gen)
    requires g.here < |g.blocks|
    ensures LoopStart(g).here == |g.blocks| && |LoopStart(g).blocks| == |g.blocks| + 3
    ensures EndsIn(LoopStart(g).blocks, g.here, |g.blocks|)
  {
  }

  lemma BodyParts(g1: Gen, c: Operand, n: nat)
    requires g1.here < |g1.blocks|
    ensures LoopBody(g1, c, n).here == n + 1 && LoopBody(g1, c, n).loops == g1.loops + [(n, n + 2)]
    ensures |LoopBody(g1, c, n).blocks| == |g1.blocks|
    ensures LoopBody(g1, c, n).blocks[g1.here].term == Some(CondBr(c, n + 1, n + 2))
  {
  }

  lemma EndParts(done: Gen, n: nat, loops: seq<(nat, nat)>)
    requires done.here < |done.blocks|
    ensures var end := LoopEnd(done, n, loops);
            end.here == n + 2 && |end.blocks| == |done.blocks| && end.blocks == Rejoin(done, n, n + 2).blocks
            && end.next == done.next
  {
  }

  lemma BodyLoops(g: Gen, above: Above, g1: Gen, c: Operand, n: nat, above1: Above)
    requires LoopsBelow(g, above) && g1.loops == g.loops && g.here < |above| == n && n + 3 <= |above1|
    requires above1[..n] == above && g1.here < |g1.blocks| && n > 0
    requires forall k :: n <= k < n + 3 ==> above1[k] == above[g.here] + {k}
    ensures LoopsBelow(LoopBody(g1, c, n), above1)
  {
    BodyParts(g1, c, n);
    var body := LoopBody(g1, c, n);
    hide LoopBody;
    forall i | 0 <= i < |body.loops|
      ensures Below(above1, n + 1, body.loops[i].0) && Below(above1, n + 1, body.loops[i].1)
    {
      if i < |g.loops| {
        assert body.loops[i] == g.loops[i];
        BelowStays(above, above1, g.here, n + 1, g.loops[i].0);
        BelowStays(above, above1, g.here, n + 1, g.loops[i].1);
      }
    }
  }

  lemma WhileParts(g: Gen, g1: Gen, c: Operand, done: Gen)
    requires hide *; WhileStages(g, g1, c, done)
    ensures g.here < |g.blocks| && g1.here < |g1.blocks| && done.here < |done.blocks| && g1.loops == g.loops
    ensures ExprFits(LoopStart(g), g1, c) && StmtFits(LoopBody(g1, c, |g.blocks|), done) && Open(g1)
    ensures Grows(g, LoopStart(g)) && Grows(LoopStart(g), g1) && ReachesOn(LoopStart(g), g1)
  {
    hide Grows, Placed, ReachesOn, StaysWired, StmtFits, Usable;
  }

  lemma FitsOne(g: Gen, g': Gen, v: Operand)
    requires ExprFits(g, g', v)
    ensures ArgsFit(g, g', [v])
  {
    hide ArgsFit;
  }

  lemma WhileAbove(g: Gen, above: Above, g1: Gen, c: Operand, done: Gen) returns (above2: Above)
    requires WhileStages(g, g1, c, done) && Placed(g.blocks, g.next, above) && LoopsBelow(g, above)
    requires done.here < |done.blocks|
    ensures Fit(g, above, LoopEnd(done, |g.blocks|, g.loops), above2)
  {
    hide *;
    var n := |g.blocks|;
    WhileParts(g, g1, c, done);
    PlacedShape(g, above);
    var base := above[g.here];
    StartPlaced(g, above);
    FitPlaced(g, above, LoopStart(g), Three(above, base));
    FitsOne(LoopStart(g), g1, c);
    var above1 := Extend(LoopStart(g), Three(above, base), g1, [c]);
    StartParts(g);
    FitParts(LoopStart(g), Three(above, base), g1, above1);
    LoopParts(above, base, above1, g1.here);
    BodyPlaced(g1, above1, c, n);
    BodyLoops(g, above, g1, c, n, above1);
    above2 := StmtExtend(LoopBody(g1, c, n), above1, done);
    FitParts(LoopBody(g1, c, n), above1, done, above2);
    BodyParts(g1, c, n);
    LeavesLoop(above, base, above1, above2, n, done.here);
    RejoinPlaced(done, above2, n, n + 2);
    EndParts(done, n, g.loops);
    FitFrom(g, above, LoopEnd(done, n, g.loops), above2);
  }

  lemma LeavesLoop(above: Above, base: set<nat>, above1: Above, above2: Above, n: nat, h: nat)
    requires |above| == n > 0 && n + 3 <= |above1| <= |above2| && above2[..|above1|] == above1 && above1[..n] == above
    requires forall k :: n <= k < n + 3 ==> above1[k] == base + {k}
    requires h < |above2| && above1[n + 1] <= above2[h]
    ensures Below(above2, h, n) && above2[n + 2] == base + {n + 2} && above2[..n] == above
  {
    assert above2[..|above1|][n] == above2[n] && above2[..|above1|][n + 2] == above2[n + 2];
    assert above2[..|above1|][..n] == above2[..n];
  }

  lemma FitFrom(g: Gen, above: Above, g': Gen, above': Above)
    requires hide *; Placed(g'.blocks, g'.next, above') && |above| <= |above'| && above'[..|above|] == above
    requires g.here < |above| && g'.here < |above'| && above[g.here] <= above'[g'.here]
    ensures Fit(g, above, g', above')
  {
    hide AllSetBefore, Numbered, TermPlaced, Uses;
  }

  lemma WhileReaches(g: Gen, g1: Gen, c: Operand, done: Gen)
    requires hide ExprFits, Grows, Placed, StaysWired, StmtFits;
             WhileStages(g, g1, c, done) && done.here < |done.blocks|
    requires MoreEdges(g1.blocks, LoopBody(g1, c, |g.blocks|).blocks)
    ensures ReachesOn(g, LoopEnd(done, |g.blocks|, g.loops))
  {
    if Reached(g.blocks, g.here) {
      hide *;
      var n := |g.blocks|;
      var end := LoopEnd(done, n, g.loops);
      EndParts(done, n, g.loops);
      RejoinEdges(done, n, n + 2);
      StartParts(g);
      WhileParts(g, g1, c, done);
      GrowsParts(LoopStart(g), g1);
      BodyParts(g1, c, n);
      StmtParts(LoopBody(g1, c, n), done);
      forall b: nat | n <= b < |end.blocks|
        ensures Reached(end.blocks, b)
      {
        LoopReached(g, g1, c, done, b);
        ReachedStays(done.blocks, end.blocks, b);
      }
    }
  }

  lemma GrowsParts(g: Gen, g': Gen)
    requires Grows(g, g')
    ensures |g.blocks| <= |g'.blocks|
  {
  }

  lemma LoopReached(g: Gen, g1: Gen, c: Operand, done: Gen, b: nat)
    requires hide ExprFits, Grows, Placed, StaysWired, StmtFits;
             WhileStages(g, g1, c, done) && MoreEdges(g1.blocks, LoopBody(g1, c, |g.blocks|).blocks)
    requires Reached(g.blocks, g.here) && |g.blocks| <= b < |done.blocks|
    ensures Reached(done.blocks, b)
  {
    hide *;
    WhileParts(g, g1, c, done);
    var n := |g.blocks|;
    var start, body := LoopStart(g), LoopBody(g1, c, n);
    StartParts(g);
    BodyParts(g1, c, n);
    StmtParts(body, done);
    GrowsEdges(g, start);
    ReachedStays(g.blocks, start.blocks, g.here);
    EndIsReached(start.blocks, g.here, n);
    ReachedAfter(start, g1);
    GrowsEdges(start, g1);
    ReachedStays(g1.blocks, body.blocks, g1.here);
    CondReached(body.blocks, g1.here, c, n + 1, n + 2);
    GrowsEdges(body, done);
    if b < n + 3 {
      if b == n {
        ReachedStays(start.blocks, g1.blocks, n);
        ReachedStays(g1.blocks, body.blocks, n);
      }
      ReachedStays(body.blocks, done.blocks, b);
    } else if b < |g1.blocks| {
      ReachedStays(g1.blocks, body.blocks, b);
      ReachedStays(body.blocks, done.blocks, b);
    } else {
      ReachedAfter(body, done);
    }
  }

  lemma ReachedAfter(g: Gen, g': Gen)
    requires ReachesOn(g, g') && Reached(g.blocks, g.here)
    ensures Reached(g'.blocks, g'.here) && forall b: nat :: |g.blocks| <= b < |g'.blocks| ==> Reached(g'.blocks, b)
  {
  }

  lemma CondReached(blocks: seq<Draft>, a: nat, c: Operand, b1: nat, b2: nat)
    requires a < |blocks| && blocks[a].term == Some(CondBr(c, b1, b2)) && Reached(blocks, a)
    ensures Reached(blocks, b1) && Reached(blocks, b2)
  {
    ReachedNext(blocks, a, b1);
    ReachedNext(blocks, a, b2);
  }

  lemma WhileFits(g: Gen, g1: Gen, c: Operand, done: Gen)
    requires hide ExprFits, Grows, Placed, StaysWired, StmtFits;
             WhileStages(g, g1, c, done) && done.here < |done.blocks|
    requires Grows(g, LoopEnd(done, |g.blocks|, g.loops))
    ensures StmtFits(g, LoopEnd(done, |g.blocks|, g.loops))
  {
    BodyEdges(g1, c, |g.blocks|);
    WhileReaches(g, g1, c, done);
    EndParts(done, |g.blocks|, g.loops);
    StmtParts(LoopBody(g1, c, |g.blocks|), done);
    EndInside(g, g1, c, done);
    WhileKeeps(g, g1, c, done);
    forall above | Placed(g.blocks, g.next, above) && LoopsBelow(g, above)
      ensures exists above' :: Fit(g, above, LoopEnd(done, |g.blocks|, g.loops), above')
    {
      hide *;
      var above' := WhileAbove(g, above, g1, c, done);
    }
  }

  lemma WhileKeeps(g: Gen, g1: Gen, c: Operand, done: Gen)
    requires hide *; WhileStages(g, g1, c, done) && done.here < |done.blocks|
    ensures StaysWired(g, LoopEnd(done, |g.blocks|, g.loops))
  {
    hide Grows, Placed, ReachesOn, StaysWired, Usable;
    assert c in [c];
    LoopStartKeeps(g);
    LoopBodyKeeps(g1, c, |g.blocks|);
    LoopEndKeeps(done, |g.blocks|, g.loops);
    hide StaysWired, LoopStart, LoopBody, LoopEnd;
    KeepsTrans(g, LoopStart(g), g1);
    KeepsTrans(g, g1, LoopBody(g1, c, |g.blocks|));
    KeepsTrans(g, LoopBody(g1, c, |g.blocks|), done);
    KeepsTrans(g, done, LoopEnd(done, |g.blocks|, g.loops));
  }

  lemma EndInside(g: Gen, g1: Gen, c: Operand, done: Gen)
    requires WhileStages(g, g1, c, done)
    ensures g.here < |g.blocks| && |g.blocks| + 2 < |done.blocks|
  {
    hide Placed, ReachesOn, StaysWired, Usable;
    StartParts(g);
    BodyParts(g1, c, |g.blocks|);
  }

  lemma BodyEdges(g1: Gen, c: Operand, n: nat)
    requires Open(g1)
    ensures MoreEdges(g1.blocks, LoopBody(g1, c, n).blocks)
  {
    hide MoreEdges, Open, ReachesOn;
    CloseReaches(g1, CondBr(c, n + 1, n + 2));
  }

  // ----- whole functions -----

  /** All blocks are reached, every register is set before its uses, and parameters and slots are there, if the table
      had no variables at first (`clean`). */
  ghost predicate FuncFits(g: Gen, params: nat, clean: bool) {
    && (clean ==> Wired(g, params))
    && (exists above :: Placed(g.blocks, g.next, above))
    && forall b: nat :: b < |g.blocks| ==> Reached(g.blocks, b)
  }

  lemma EntryFits(g: Gen, params: nat, consts: Ast.Consts, clean: bool)
    requires g.blocks == [Draft([], None)] && Table(g.symbols, consts)
    requires clean ==> forall id: nat :: Ast.Variable(id) !in g.symbols
    ensures FuncFits(g, params, clean)
  {
    assert clean ==> forall d :: d in g.symbols ==> Bound(d, g.symbols[d], consts);
    assert Placed(g.blocks, g.next, [{0}]);
    assert G.PathTo(DraftGraph(g.blocks), [0], 0);
  }

  /** A parameter is stored to a slot of its own. */
  lemma ParamFits(g: Gen, g': Gen, params: nat, clean: bool, id: nat, i: nat)
    requires hide FuncFits, WithAlloca; FuncFits(g, params, clean) && Open(g) && i < params
    requires g' == Emit(Declare(g, id), Store(Slot(g.next), Param(i)))
    ensures FuncFits(g', params, clean)
  {
    hide AllSetBefore, Fit, Numbered, Reached, TermPlaced, Wired, WithAlloca;
    if clean {
      ParamWired(g, params, id, i);
    }
    hide Wired;
    var above :| Placed(g.blocks, g.next, above);
    SlotStep(g, above);
    FitPlaced(g, above, NewSlot(g), above);
    SlotStaysOpen(g);
    SlotNext(g);
    NoneUsable(NewSlot(g), above, [Param(i)]);
    StoreStep(NewSlot(g), above, Slot(g.next), Param(i));
    FitPlaced(NewSlot(g), above, Emit(NewSlot(g), Store(Slot(g.next), Param(i))), above);
    assert DraftGraph(g'.blocks) == DraftGraph(g.blocks);
    SameReached(g.blocks, g'.blocks);
  }

  lemma SlotStaysOpen(g: Gen)
    requires Open(g)
    ensures |g.blocks| > 0 && Open(NewSlot(g)) && |NewSlot(g).blocks| == |g.blocks|
  {
  }

  lemma BodyFits(g: Gen, g': Gen, params: nat, clean: bool)
    requires FuncFits(g, params, clean) && StmtFits(g, g') && g.loops == []
    ensures FuncFits(g', params, clean)
  {
    hide AllSetBefore, Grows, MoreEdges, Numbered, Reached, TermPlaced, Wired;
    var above :| Placed(g.blocks, g.next, above);
    var above' := StmtExtend(g, above, g');
    GrowsEdges(g, g');
    forall b: nat | b < |g'.blocks|
      ensures Reached(g'.blocks, b)
    {
      if b < |g.blocks| {
        ReachedStays(g.blocks, g'.blocks, b);
      }
    }
  }

  /** Every path to a block passes what is above it. */
  lemma {:induction false} AboveOnPath(blocks: seq<Draft>, next: nat, above: Above, p: seq<nat>, b: nat, x: nat)
    requires hide *; Placed(blocks, next, above) && G.PathTo(DraftGraph(blocks), p, b) && b < |above| && x in above[b]
    ensures x in p
    decreases |p|
  {
    hide AllSetBefore, Numbered, Targets, TermUses, Uses;
    if |p| > 1 {
      var a := p[|p| - 2];
      assert G.Edge(DraftGraph(blocks), a, b);
      assert TermPlaced(blocks, above, a, blocks[a].term.value);
      if x != b {
        AboveOnPath(blocks, next, above, p[..|p| - 1], a, x);
      }
    }
  }

  lemma AboveDominates(blocks: seq<Draft>, next: nat, above: Above, b: nat, x: nat)
    requires hide *; Placed(blocks, next, above) && b < |above| && x in above[b]
    ensures G.Dominates(DraftGraph(blocks), x, b)
  {
    hide G.PathTo, Placed;
    forall p | G.PathTo(DraftGraph(blocks), p, b)
      ensures x in p
    {
      AboveOnPath(blocks, next, above, p, b, x);
    }
  }

  lemma FinishedGraph(g: Gen)
    ensures Cfg(Finished(g)) == DraftGraph(g.blocks)
  {
  }

  lemma FinishedSets(g: Gen, next: nat)
    requires Numbered(g.blocks, next)
    ensures UniqueDefs(Finished(g)) && UniqueAllocas(Finished(g)) && FreshFrom(Finished(g), next)
    ensures SlotsFreshFrom(Finished(g), next)
  {
    var f := Finished(g);
    forall b: nat, k: nat, r: nat | Defines(f, b, k, r)
      ensures SetsAt(g.blocks, b, k, r)
    {
    }
    forall b: nat, k: nat, a: nat | AllocatedAt(f, b, k, a)
      ensures SlotAt(g.blocks, b, k, a)
    {
    }
  }

  lemma UseIsDefined(g: Gen, above: Above, b: nat, k: nat, r: nat)
    requires Placed(g.blocks, g.next, above) && b < |g.blocks| && SetBefore(g.blocks, above, b, k, r)
    ensures Defined(Finished(g), b, k, r)
  {
    hide Dst, G.Dominates, TermPlaced, Uses;
    var f := Finished(g);
    FinishedSets(g, g.next);
    FinishedGraph(g);
    var d: nat, j: nat :| SetsAt(g.blocks, d, j, r) && d in above[b] && (d == b ==> j < k);
    assert Defines(f, d, j, r);
    AboveDominates(g.blocks, g.next, above, b, d);
    assert Site(f, r) == Some((d, j));
  }

  lemma UsesAreDefined(g: Gen, above: Above, b: nat, k: nat, vs: seq<Operand>)
    requires Placed(g.blocks, g.next, above) && b < |g.blocks| && AllSetBefore(g.blocks, above, b, k, vs)
    ensures AllDefined(Finished(g), b, k, vs)
  {
    hide Defined, Finished, Placed, SetBefore;
    forall v | v in vs && v.Reg?
      ensures Defined(Finished(g), b, k, v.id)
    {
      UseIsDefined(g, above, b, k, v.id);
    }
  }

  lemma FinishedBlocks(g: Gen, above: Above)
    requires hide *; Placed(g.blocks, g.next, above)
    ensures var f := Finished(g);
            && (forall b: nat, k: nat :: b < |f.blocks| && k < |f.blocks[b].insts| ==>
                  AllDefined(f, b, k, Uses(f.blocks[b].insts[k])))
            && (forall b: nat :: b < |f.blocks| ==>
                  AllDefined(f, b, |f.blocks[b].insts|, TermUses(f.blocks[b].term)))
            && (forall b: nat :: b < |f.blocks| ==> G.Distinct(Targets(f.blocks[b].term)) && f.blocks[b].phis == [])
  {
    var f := Finished(g);
    hide AllDefined, AllSetBefore, Numbered;
    forall b: nat, k: nat | b < |f.blocks| && k < |f.blocks[b].insts|
      ensures AllDefined(f, b, k, Uses(f.blocks[b].insts[k]))
    {
      UsesAreDefined(g, above, b, k, Uses(g.blocks[b].insts[k]));
    }
    forall b: nat | b < |f.blocks|
      ensures AllDefined(f, b, |f.blocks[b].insts|, TermUses(f.blocks[b].term))
      ensures G.Distinct(Targets(f.blocks[b].term))
    {
      if g.blocks[b].term.Some? {
        assert TermPlaced(g.blocks, above, b, g.blocks[b].term.value);
        UsesAreDefined(g, above, b, |g.blocks[b].insts|, TermUses(g.blocks[b].term.value));
      } else {
        NoneDefined(f, b, |f.blocks[b].insts|);
      }
    }
  }

  lemma NoneDefined(f: Function, b: nat, k: nat)
    ensures AllDefined(f, b, k, [])
  {
    hide Defined;
  }

  lemma EdgesInRange(g: Gen, above: Above)
    requires Placed(g.blocks, g.next, above)
    ensures forall a: nat, b: nat :: G.Edge(DraftGraph(g.blocks), a, b) ==> 0 < b < |g.blocks|
  {
    hide AllSetBefore, Numbered, Targets, TermUses, Uses;
    forall a: nat, b: nat | G.Edge(DraftGraph(g.blocks), a, b)
      ensures 0 < b < |g.blocks|
    {
      assert TermPlaced(g.blocks, above, a, g.blocks[a].term.value);
    }
  }

  /** A generated function is well formed, and its numbers are below the generator's next one. */
  lemma FinishedIsWellFormed(g: Gen, params: nat, clean: bool)
    requires FuncFits(g, params, clean)
    ensures WellFormed(Finished(g)) && UniqueAllocas(Finished(g)) && FreshFrom(Finished(g), g.next)
    ensures SlotsFreshFrom(Finished(g), g.next) && (clean ==> FunctionWired(Finished(g), params))
  {
    var above :| Placed(g.blocks, g.next, above);
    EveryReached(g, params, clean);
    if clean {
      FinishedIsWired(g, params);
    }
    hide *;
    FinishedSize(g);
    PlacedShape(g, above);
    PlacedNumbers(g, above);
    FinishedGraph(g);
    FinishedSets(g, g.next);
    FinishedBlocks(g, above);
    EdgesInRange(g, above);
    WellFormedFrom(Finished(g), DraftGraph(g.blocks));
  }

  lemma EveryReached(g: Gen, params: nat, clean: bool)
    requires FuncFits(g, params, clean)
    ensures G.AllReachable(DraftGraph(g.blocks))
  {
    hide DraftGraph, G.Reachable, Placed, Wired;
    var graph := DraftGraph(g.blocks);
    forall b: nat | b < |graph|
      ensures G.Reachable(graph, b)
    {
      assert Reached(g.blocks, b);
    }
  }

  lemma FinishedSize(g: Gen)
    ensures |Finished(g).blocks| == |g.blocks|
  {
  }

  lemma PlacedNumbers(g: Gen, above: Above)
    requires Placed(g.blocks, g.next, above)
    ensures Numbered(g.blocks, g.next)
  {
    hide AllSetBefore, SetsAt, SlotAt, TermPlaced, Uses;
  }

  lemma WellFormedFrom(f: Function, g: G.Graph)
    requires hide *; Cfg(f) == g && |f.blocks| > 0 && G.AllReachable(g) && UniqueDefs(f)
    requires forall a: nat, b: nat :: G.Edge(g, a, b) ==> 0 < b < |f.blocks|
    requires forall b: nat, k: nat :: b < |f.blocks| && k < |f.blocks[b].insts| ==>
               AllDefined(f, b, k, Uses(f.blocks[b].insts[k]))
    requires forall b: nat :: b < |f.blocks| ==> AllDefined(f, b, |f.blocks[b].insts|, TermUses(f.blocks[b].term))
    requires forall b: nat :: b < |f.blocks| ==> G.Distinct(Targets(f.blocks[b].term)) && f.blocks[b].phis == []
    ensures WellFormed(f)
  {
    hide AllDefined, Cfg, G.AllReachable, Targets, TermUses, UniqueDefs, Uses;
  }

  // ----- together with the meaning -----

  lemma ShapeGrows(g: Gen, s: Ast.Stmt, g': Gen, consts: Ast.Consts)
    requires StmtShape(g, s, g', consts)
    ensures Grows(g, g')
  {
    hide Closes, Declares, DraftGrows, DraftSame, NewNames, TableGrows, Valid;
  }

  /** Nothing was generated for an expression. */
  lemma SameFits(g: Gen, e: Ast.Expr, g': Gen, v: Operand, consts: Ast.Consts)
    requires ExprCompiled(g, e, g', v, consts) && g'.blocks == g.blocks && g'.next == g.next && g'.here == g.here
    requires g.here < |g.blocks| && v.Const? && g'.symbols == g.symbols
    ensures ExprFits(g, g', v)
  {
    assert NoNewSlots(g, g');
    CompiledShape(g, e, g', v, consts);
    hide *;
    NothingFits(g, g', v);
  }

  lemma SameStmtFits(g: Gen, s: Ast.Stmt, g': Gen, consts: Ast.Consts)
    requires StmtCompiled(g, s, g', consts) && g'.blocks == g.blocks && g'.next == g.next && g'.here == g.here
    requires g.here < |g.blocks| && NoNewSlots(g, g')
    ensures StmtFits(g, g')
  {
    var zero := Const(0);
    hide *;
    StmtFacts(g, s, g', consts);
    NothingFits(g, g', zero);
  }

  lemma EmittedFits(g: Gen, g1: Gen, vs: seq<Operand>, e: Ast.Expr, i: Inst, consts: Ast.Consts)
    requires hide *; ArgsFit(g, g1, vs) && Uses(i) == vs && Dst(i) == Some(g1.next) && Open(g1) && g1.here < |g1.blocks|
    requires ExprCompiled(g, e, EmitFresh(g1, i), Reg(g1.next), consts)
    requires !(i.Binary? && i.op == BinaryOp.And) && (i.Load? ==> OfVariable(g1, i.ptr))
    ensures ExprFits(g, EmitFresh(g1, i), Reg(g1.next))
  {
    hide *;
    CompiledShape(g, e, EmitFresh(g1, i), Reg(g1.next), consts);
    EmitFits(g, g1, vs, i);
  }

  lemma ArgsNextFits(g: Gen, es: seq<Ast.Expr>, g1: Gen, vs: seq<Operand>, g2: Gen, x: Operand, consts: Ast.Consts)
    requires ArgsFit(g, g1, vs) && ExprFits(g1, g2, x) && ArgsCompiled(g, es, g2, vs + [x], consts)
    ensures ArgsFit(g, g2, vs + [x])
  {
    assert Grows(g, g2);
    hide *;
    ArgsFitNext(g, g1, vs, g2, x);
  }

  lemma PairFits(g: Gen, l: Ast.Expr, g1: Gen, x: Operand, r: Ast.Expr, g2: Gen, y: Operand, consts: Ast.Consts)
    requires ExprCompiled(g, l, g1, x, consts) && ExprCompiled(g1, r, g2, y, consts)
    requires ExprFits(g, g1, x) && ExprFits(g1, g2, y)
    ensures ArgsFit(g, g2, [x, y])
  {
    OneFit(g, g1, x);
    hide *;
    CompiledShape(g, l, g1, x, consts);
    ShapeFacts(g, g1, consts);
    CompiledShape(g1, r, g2, y, consts);
    GrowsOn(g, g1, g2);
    ArgsFitNext(g, g1, [x], g2, y);
    Pair(x, y);
  }

  lemma Pair(x: Operand, y: Operand)
    ensures [x] + [y] == [x, y]
  {
  }

  lemma OneFit(g: Gen, g': Gen, v: Operand)
    ensures ExprFits(g, g', v) == ArgsFit(g, g', [v])
  {
    hide ArgsFit;
  }

  lemma ShortDone(p: ShortPath, l: Ast.Expr, r: Ast.Expr, consts: Ast.Consts)
    requires hide ExprCompiled, ExprFits; p.left.here < |p.left.blocks| && ShortPassed(p, l, r, consts)
    requires ExprFits(NewSlot(p.g), p.left, p.x) && ExprFits(p.Right(), p.right, p.y)
    requires p.right.here < |p.right.blocks| && p.Merge() < |p.right.blocks|
    ensures ExprFits(p.g, p.End(), Reg(p.Merged().next))
  {
    hide *;
    ShortStagesKnown(p, l, r, consts);
    ShortFits(p);
  }

  lemma StoredDone(g0: Gen, g: Gen, s: Ast.Stmt, g1: Gen, v: Operand, p: Pointer, consts: Ast.Consts)
    requires hide *; g == g0
             || (|g0.blocks| > 0 && g.blocks == NewSlot(g0).blocks && g.next == g0.next + 1 && g.here == g0.here)
    requires ExprFits(g, g1, v) && Open(g1) && g0.here < |g0.blocks| && g1.here < |g1.blocks|
    requires StmtCompiled(g0, s, Emit(g1, Store(p, v)), consts) && StaysWired(g0, g) && OfVariable(g1, p)
    ensures StmtFits(g0, Emit(g1, Store(p, v)))
  {
    hide *;
    StmtFacts(g0, s, Emit(g1, Store(p, v)), consts);
    StoredFits(g0, g, g1, v, p);
  }

  lemma JumpDone(g: Gen, s: Ast.Stmt, consts: Ast.Consts)
    requires hide *;
             g.loops != [] && Open(g) && g.here < |g.blocks| && StmtCompiled(g, s, Close(g, JumpOf(g, s)), consts)
    ensures StmtFits(g, Close(g, JumpOf(g, s)))
  {
    hide *;
    StmtFacts(g, s, Close(g, JumpOf(g, s)), consts);
    JumpFits(g, s);
  }

  lemma ReturnDone(g: Gen, g1: Gen, s: Ast.Stmt, v: Option<Operand>, consts: Ast.Consts)
    requires hide *; Open(g1) && g1.here < |g1.blocks| && StmtCompiled(g, s, Close(g1, Ret(v)), consts)
    requires if v.None? then g1 == g else ExprFits(g, g1, v.value)
    ensures StmtFits(g, Close(g1, Ret(v)))
  {
    hide *;
    StmtFacts(g, s, Close(g1, Ret(v)), consts);
    if v.None? {
      ReturnFits(g);
    } else {
      ReturnValueFits(g, g1, v.value);
    }
  }

  lemma NextDone(g: Gen, s: Ast.Stmt, g1: Gen, g2: Gen, consts: Ast.Consts)
    requires StmtFits(g, g1) && StmtFits(g1, g2) && g1.loops == g.loops && StmtCompiled(g, s, g2, consts)
    ensures StmtFits(g, g2)
  {
    hide *;
    StmtFacts(g, s, g2, consts);
    NextFits(g, g1, g2);
  }

  lemma IfStagesFrom(g: Gen, c: Ast.Expr, s1: Ast.Stmt, g1: Gen, v: Operand, yes: Gen, consts: Ast.Consts)
    requires hide *; IfPassed(g, c, s1, g1, v, yes, consts) && g1.here < |g1.blocks| && yes.here < |yes.blocks|
    requires ExprFits(g, g1, v) && StmtFits(Branch(g1, v), yes)
    ensures IfStages(g, g1, v, yes) && yes.here != |g1.blocks| + 1 && |g1.blocks| + 1 < |yes.blocks|
  {
    hide ExprCompiled, Placed, StaysWired, StmtCompiled;
    BranchShape(g, c, s1, g1, v, yes, consts);
    IfFacts(g, c, s1, g1, v, yes, consts);
    CompiledShape(g, c, g1, v, consts);
    ShapeFacts(g, g1, consts);
    hide IfPassed, ExprCompiled, StmtCompiled, Branch, Grows, Valid;
  }

  lemma IfDone(g: Gen, c: Ast.Expr, s1: Ast.Stmt, g1: Gen, v: Operand, yes: Gen, consts: Ast.Consts)
    requires hide *; IfPassed(g, c, s1, g1, v, yes, consts) && g1.here < |g1.blocks| && yes.here < |yes.blocks|
    requires ExprFits(g, g1, v) && StmtFits(Branch(g1, v), yes)
    ensures StmtFits(g, Rejoin(yes, |g1.blocks| + 1, |g1.blocks| + 1))
  {
    hide *;
    IfStagesFrom(g, c, s1, g1, v, yes, consts);
    IfShape(g, c, s1, g1, v, yes, consts);
    ShapeGrows(g, Ast.If(c, s1, None), Rejoin(yes, |g1.blocks| + 1, |g1.blocks| + 1), consts);
    IfFits(g, g1, v, yes);
  }

  lemma IfElseDone(g: Gen, c: Ast.Expr, s1: Ast.Stmt, s2: Ast.Stmt, g1: Gen, v: Operand, yes: Gen, no: Gen,
                   consts: Ast.Consts)
    requires hide *; IfPassed(g, c, s1, g1, v, yes, consts) && g1.here < |g1.blocks| && yes.here < |yes.blocks|
    requires StmtCompiled(Other(g1, yes), s2, no, consts) && Declares(s1) !! Declares(s2)
    requires ExprFits(g, g1, v) && StmtFits(Branch(g1, v), yes) && StmtFits(Other(g1, yes), no)
    requires yes.here < |no.blocks| && no.here < |no.blocks|
    ensures StmtFits(g, Merge(yes, no))
  {
    hide *;
    IfStagesFrom(g, c, s1, g1, v, yes, consts);
    IfElseShape(g, c, s1, s2, g1, v, yes, no, consts);
    ShapeGrows(g, Ast.If(c, s1, Some(s2)), Merge(yes, no), consts);
    ElseStagesFrom(g, g1, v, yes, no);
    IfElseReaches(g, g1, v, yes, no);
    IfElseFits(g, g1, v, yes, no);
  }

  lemma ElseStagesFrom(g: Gen, g1: Gen, v: Operand, yes: Gen, no: Gen)
    requires IfStages(g, g1, v, yes) && yes.here < |no.blocks| && no.here < |no.blocks|
    requires StmtFits(Other(g1, yes), no) && yes.here != |g1.blocks| + 1
    ensures ElseStages(g, g1, v, yes, no)
  {
    hide Branch, ExprFits, Grows, Placed, ReachesOn, StaysWired;
  }

  lemma WhileDone(g: Gen, c: Ast.Expr, b: Ast.Stmt, g1: Gen, v: Operand, done: Gen, consts: Ast.Consts)
    requires hide ExprFits, Placed, StaysWired, StmtFits, WhilePassed;
             WhilePassed(g, c, b, g1, v, done, consts) && Valid(g, consts) && Open(g)
    requires g.here < |g.blocks| && g1.here < |g1.blocks| && done.here < |done.blocks|
    requires ExprFits(LoopStart(g), g1, v) && StmtFits(LoopBody(g1, v, |g.blocks|), done)
    ensures StmtFits(g, LoopEnd(done, |g.blocks|, g.loops))
  {
    hide *;
    WhileShape(g, c, b, g1, v, done, consts);
    WhileFacts(g, c, b, g1, v, done, consts);
    CompiledShape(LoopStart(g), c, g1, v, consts);
    ShapeFacts(LoopStart(g), g1, consts);
    LoopStartGrows(g, consts);
    ShapeGrows(g, Ast.While(c, b), LoopEnd(done, |g.blocks|, g.loops), consts);
    WhileStagesFrom(g, g1, v, done);
    WhileFits(g, g1, v, done);
  }

  lemma WhileStagesFrom(g: Gen, g1: Gen, v: Operand, done: Gen)
    requires hide *; g.here < |g.blocks| && g1.here < |g1.blocks| && done.here < |done.blocks| && Grows(g, LoopStart(g))
    requires ExprFits(LoopStart(g), g1, v) && StmtFits(LoopBody(g1, v, |g.blocks|), done) && Open(g1)
    requires LoopStart(g).loops == g.loops && g1.loops == LoopStart(g).loops
    ensures WhileStages(g, g1, v, done)
  {
    hide ArgsFit, Placed, ReachesOn, StaysWired;
  }
}
