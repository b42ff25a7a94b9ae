/** A function that may read a variable before anything was stored to it, and a loop that calls it: the copy of the
    function has one slot for all passes through the loop, so it reads what the last pass stored. */
module StaleSlots {
  import opened Int32
  import opened Graphs
  import opened Ir
  import opened Ssa
  import opened Runs
  import opened Inlining
  import I = Inliner
  import L = Numbers
  import M = ModuleInliner

  /** `if (a) int x = 1; return x;` for the parameter `a`, with slot 0 for `x`. */
  const CALLEE: Function := Function([
    Block([], [Alloca(0)], CondBr(Param(0), 1, 2)),
    Block([], [Store(Slot(0), Const(1))], Br(2)),
    Block([], [Load(0, Slot(0))], Ret(Some(Reg(0))))])

  /** Calls `f(x)` and sets the global `x` to 0, as long as `x` was not 0, and returns what the last call gave. */
  const CALLER: Function := Function([
    Block([], [], Br(1)),
    Block([], [Load(0, Global("x")), Call(1, "f", [Reg(0)]), Store(Global("x"), Const(0))], CondBr(Reg(0), 1, 2)),
    Block([], [], Ret(Some(Reg(1))))])

  const PLAN: Plan := Plan(CALLER, 1, 1, CALLEE, 2, map[0 := 3], map[0 := 3], 2, 2, [2, 3])

  /** What `f` gives when its slot is empty at first. */
  function Answers(): Callees {
    (c: string, xs: seq<i32>, w: World) => (if |xs| == 1 && xs[0] != 0 then 1 else 0, w.globals)
  }

  lemma ThePlan()
    ensures hide *; HasCall(PLAN) && TheCall(PLAN) == Call(1, "f", [Reg(0)]) && Redirected(PLAN) == map[1 := Reg(2)]
    ensures BodyStart(PLAN) == 3 && Continuation(PLAN) == 6
  {
  }

  // ----- the plan is one of the pass -----

  lemma CallerIsBelow()
    ensures hide *; L.Below(CALLER, 2)
  {
    forall b | 0 <= b < |CALLER.blocks| ensures L.BlockBelow(CALLER.blocks[b], 2) {
      assert b == 0 || b == 1 || b == 2;
    }
  }

  lemma CalleeIsSafe()
    ensures hide *; SafeToInline(CALLEE, 1) && TargetsWithin(CALLEE)
  {
    var last := CALLEE.blocks[2].insts;
    assert Dst(last[0]) == Some(0);
    assert DefinedBefore(last, |last|, 0);
    forall i: nat, j: nat | i < |CALLEE.blocks| && j < |CALLEE.blocks[i].insts|
      ensures AllLocal(CALLEE.blocks[i].insts, j, 1, Uses(CALLEE.blocks[i].insts[j]))
    {
      assert i == 0 || i == 1 || i == 2;
    }
    forall i: nat | i < |CALLEE.blocks|
      ensures AllLocal(CALLEE.blocks[i].insts, |CALLEE.blocks[i].insts|, 1, TermUses(CALLEE.blocks[i].term))
    {
      assert i == 0 || i == 1 || i == 2;
    }
  }

  lemma IsMapped()
    ensures Mapped(PLAN)
  {
  }

  lemma CallIsOnlyOne()
    ensures forall i: nat, j: nat ::
              i < |CALLER.blocks| && j < |CALLER.blocks[i].insts| && Dst(CALLER.blocks[i].insts[j]) == Some(1)
              ==> i == 1 && j == 1
    ensures forall i: nat :: i < |CALLER.blocks| ==> CALLER.blocks[i].phis == []
    ensures forall i: nat, t: nat :: i < |CALLER.blocks| && t in Targets(CALLER.blocks[i].term) ==> t < |CALLER.blocks|
  {
  }

  lemma IsInlinable()
    ensures Inlinable(PLAN)
  {
    ThePlan();
    CallerIsBelow();
    CalleeIsSafe();
    IsMapped();
    CallIsOnlyOne();
    hide SafeToInline, L.Below, Mapped, TargetsWithin;
  }

  function TheModule(): M.Module {
    map["f" := M.FunctionInfo(CALLEE, 1, true), "main" := M.FunctionInfo(CALLER, 0, true)]
  }

  /** The pass takes this call: the callee is small, and the call stands in a loop of `main`. */
  lemma IsEligible()
    ensures hide *; M.Eligible(TheModule(), "main", CALLER, 1, 1)
  {
    CalleeIsSafe();
    hide SafeToInline;
    assert Edge(Cfg(CALLER), 1, 1);
    assert I.Walk(Cfg(CALLER), 1, [1]);
    assert M.Size(CALLEE, 0) == 0 && M.Size(CALLEE, 1) == 2 && M.Size(CALLEE, 2) == 4 && M.Size(CALLEE, 3) == 6;
  }

  // ----- one block -----

  lemma NextConfig(f: Function, params: seq<i32>, o: Callees, prev: nat, b: nat, s: Frame)
    requires hide *; b < |f.blocks| && f.blocks[b].phis == []
    ensures RunBlock(f, params, o, At(prev, b, s))
         == Leave(f.blocks[b].term, b, params, Steps(f.blocks[b].insts, params, o, s))
  {
    hide Steps;
    OneBlock(f, params, o, At(prev, b, s));
    NoPhis(f.blocks[b], prev, params, s);
  }

  lemma UpToThree(i: Inst, j: Inst, k: Inst, params: seq<i32>, o: Callees, s: Frame)
    ensures Steps([], params, o, s) == s && Steps([i], params, o, s) == Step(i, params, o, s)
    ensures Steps([i, j], params, o, s) == Step(j, params, o, Step(i, params, o, s))
    ensures Steps([i, j, k], params, o, s) == Step(k, params, o, Step(j, params, o, Step(i, params, o, s)))
  {
    hide Step;
    assert [i][..0] == [] && [i, j][..1] == [i] && [i, j, k][..2] == [i, j];
  }

  // ----- the callee -----

  /** The callee tests its argument, may store, and returns what is in its slot. */
  lemma CalleeBlock(xs: seq<i32>, prev: nat, b: nat, s: Frame)
    requires hide Enter, Leave, Steps; |xs| == 1 && b < 3
    ensures var c := RunBlock(CALLEE, xs, Answers(), At(prev, b, s));
      match b
      case 0 => c == At(0, if xs[0] != 0 then 1 else 2, s)
      case 1 => c == At(1, 2, s.(slots := s.slots[0 := 1]))
      case _ => c == Done(Some(Get(s.slots, 0)), s.world)
  {
    hide RunBlock, Steps;
    NextConfig(CALLEE, xs, Answers(), prev, b, s);
    UpToThree(if b == 0 then Alloca(0) else if b == 1 then Store(Slot(0), Const(1)) else Load(0, Slot(0)), Alloca(0),
              Alloca(0), xs, Answers(), s);
  }

  /** What the callee returns: 1, or what was in its slot at first. */
  lemma CalleeRuns(xs: seq<i32>, slots: map<nat, i32>, w: World)
    requires hide Run; |xs| == 1
    ensures Run(CALLEE, xs, Answers(), From(slots, w), 1).At?
    ensures Run(CALLEE, xs, Answers(), From(slots, w), 2)
         == if xs[0] != 0 then At(1, 2, Frame(map[], slots[0 := 1], w)) else Done(Some(Get(slots, 0)), w)
    ensures Run(CALLEE, xs, Answers(), From(slots, w), 3) == Done(Some(if xs[0] != 0 then 1 else Get(slots, 0)), w)
  {
    hide RunBlock;
    var s := Frame(map[], slots, w);
    assert Run(CALLEE, xs, Answers(), From(slots, w), 0) == At(0, 0, s);
    CalleeBlock(xs, 0, 0, s);
    assert Run(CALLEE, xs, Answers(), From(slots, w), 1) == At(0, if xs[0] != 0 then 1 else 2, s);
    CalleeBlock(xs, 0, if xs[0] != 0 then 1 else 2, s);
    if xs[0] != 0 {
      CalleeBlock(xs, 1, 2, s.(slots := slots[0 := 1]));
    } else {
      EndedStays(CALLEE, xs, Answers(), Done(Some(Get(slots, 0)), w));
    }
  }

  /** Calls give what the callee gives when its slot is empty. */
  lemma IsFaithful()
    ensures hide *; L.GlobalsOnly(Answers()) && HasCall(PLAN) && FaithfulAtFirst(PLAN, Answers())
  {
    hide RunBlock;
    ThePlan();
    forall xs: seq<i32>, w: World, m: nat | |xs| == 1
      ensures AnswersAs(Answers(), "f", xs, w, Run(CALLEE, xs, Answers(), Start(World(w.globals, [])), m))
    {
      CallIsAnswered(xs, w, m);
    }
  }

  lemma CallIsAnswered(xs: seq<i32>, w: World, m: nat)
    requires |xs| == 1
    ensures AnswersAs(Answers(), "f", xs, w, Run(CALLEE, xs, Answers(), Start(World(w.globals, [])), m))
  {
    hide Run;
    var start := From(map[], World(w.globals, []));
    CalleeRuns(xs, map[], World(w.globals, []));
    assert start == Start(World(w.globals, []));
    if Run(CALLEE, xs, Answers(), start, m).Done? {
      OneEnd(CALLEE, xs, Answers(), start, 3, m);
    }
  }

  lemma IsNotBlind()
    ensures hide *; !Blind(CALLEE, 1, Answers())
  {
    hide Run;
    var xs: seq<i32>, w := [0], World(map[], []);
    CalleeRuns(xs, map[0 := 1], w);
    hide Run;
    assert ReturnsWith(CALLEE, xs, Answers(), map[0 := 1], w, 3, Some(1), map[]);
    assert Returns(CALLEE, xs, Answers(), map[0 := 1], w, Some(1), map[]);
    if Returns(CALLEE, xs, Answers(), map[], w, Some(1), map[]) {
      var n: nat :| ReturnsWith(CALLEE, xs, Answers(), map[], w, n, Some(1), map[]);
      CalleeRuns(xs, map[], w);
      OneEnd(CALLEE, xs, Answers(), From(map[], w), 3, n);
      assert false;
    }
  }

  // ----- the caller -----

  /** At block `b`, with the value of `x` and the last result. */
  ghost predicate CallerAt(c: Config, b: nat, x: i32, last: i32) {
    c.At? && c.block == b && c.frame.world.globals == map["x" := x] && Get(c.frame.regs, 1) == last
  }

  lemma CallerStep(c: Config, b: nat, x: i32, last: i32)
    requires hide RunBlock; b < 3 && CallerAt(c, b, x, last)
    ensures var d := RunBlock(CALLER, [], Answers(), c);
      match b
      case 0 => CallerAt(d, 1, x, last)
      case 1 => CallerAt(d, if x != 0 then 1 else 2, 0, if x != 0 then 1 else 0)
      case _ => d == Done(Some(last), c.frame.world)
  {
    hide Binop, RunBlock, Steps, Unop;
    NextConfig(CALLER, [], Answers(), c.prev, b, c.frame);
    UpToThree(Load(0, Global("x")), Call(1, "f", [Reg(0)]), Store(Global("x"), Const(0)), [], Answers(), c.frame);
    assert map["x" := x]["x" := 0] == map["x" := 0];
  }

  /** The second call gives 0. */
  lemma CallerReturnsZero()
    ensures hide Run; ReturnsWith(CALLER, [], Answers(), map[], World(map["x" := 1], []), 4, Some(0), map["x" := 0])
  {
    hide RunBlock, Run;
    var f, o, start := CALLER, Answers(), From(map[], World(map["x" := 1], []));
    RunsOn(f, o, start);
    CallerStep(start, 0, 1, 0);
    CallerStep(Run(f, [], o, start, 1), 1, 1, 0);
    CallerStep(Run(f, [], o, start, 2), 1, 0, 1);
    CallerStep(Run(f, [], o, start, 3), 2, 0, 0);
  }

  lemma RunsOn(f: Function, o: Callees, c: Config)
    ensures hide *; Run(f, [], o, c, 0) == c
    ensures forall n: nat :: Run(f, [], o, c, n + 1) == RunBlock(f, [], o, Run(f, [], o, c, n))
  {
    hide RunBlock;
  }

  // ----- the copy -----

  /** At block `b` of the copy: `x`, the condition of the loop, the slots of the callee's variable and of the result,
      and the result. */
  ghost predicate CopyAt(c: Config, b: nat, x: i32, cond: i32, local: i32, slot: i32, result: i32) {
    && c.At? && c.block == b && c.frame.world.globals == map["x" := x] && Get(c.frame.regs, 0) == cond
    && Get(c.frame.slots, 3) == local && Get(c.frame.slots, 2) == slot && Get(c.frame.regs, 2) == result
  }

  lemma TheCopy()
    ensures HasCall(PLAN) && |Inlined(PLAN).blocks| == 7
    ensures Inlined(PLAN).blocks[0] == Block([], [Alloca(2), Alloca(3)], Br(1))
    ensures Inlined(PLAN).blocks[1] == Block([], [Load(0, Global("x"))], Br(3))
    ensures Inlined(PLAN).blocks[2] == Block([], [], Ret(Some(Reg(2))))
    ensures Inlined(PLAN).blocks[3] == Block([], [], CondBr(Reg(0), 4, 5))
    ensures Inlined(PLAN).blocks[4] == Block([], [Store(Slot(3), Const(1))], Br(5))
    ensures Inlined(PLAN).blocks[5] == Block([], [Load(3, Slot(3)), Store(Slot(2), Reg(3))], Br(6))
    ensures Inlined(PLAN).blocks[6]
         == Block([], [Load(2, Slot(2)), Store(Global("x"), Const(0))], CondBr(Reg(0), 1, 2))
  {
    ThePlan();
    var g := Inlined(PLAN);
    assert g.blocks[0] == CallerBlock(PLAN, 0) && g.blocks[1] == CallerBlock(PLAN, 1);
    assert g.blocks[2] == CallerBlock(PLAN, 2) && g.blocks[6] == ContinuationBlock(PLAN);
    assert g.blocks[3] == CloneBlock(PLAN, 0) && g.blocks[4] == CloneBlock(PLAN, 1);
    assert g.blocks[5] == CloneBlock(PLAN, 2);
  }

  /** In what the copy has of the caller. */
  lemma CallerPart(c: Config, b: nat, x: i32, cond: i32, local: i32, slot: i32, result: i32)
    requires hide Inlined, RunBlock; HasCall(PLAN) && b < 3 && CopyAt(c, b, x, cond, local, slot, result)
    ensures var d := RunBlock(Inlined(PLAN), [], Answers(), c);
      match b
      case 0 => CopyAt(d, 1, x, cond, local, slot, result)
      case 1 => CopyAt(d, 3, x, x, local, slot, result)
      case _ => d == Done(Some(result), c.frame.world)
  {
    hide Binop, CloneBlock, Enter, SubstInsts, Unop;
    TheCopy();
    hide RunBlock, Steps, Inlined;
    var g, o := Inlined(PLAN), Answers();
    NextConfig(g, [], o, c.prev, b, c.frame);
    match b
    case 0 => UpToThree(Alloca(2), Alloca(3), Alloca(3), [], o, c.frame);
    case 1 => UpToThree(Load(0, Global("x")), Alloca(3), Alloca(3), [], o, c.frame);
    case _ => UpToThree(Alloca(3), Alloca(3), Alloca(3), [], o, c.frame);
  }

  /** In the copy of the callee. */
  lemma CalleePart(c: Config, b: nat, x: i32, cond: i32, local: i32, slot: i32, result: i32)
    requires hide CallerBlock, CloneBlock, Enter, Steps, SubstInsts;
             HasCall(PLAN) && 3 <= b < 6 && CopyAt(c, b, x, cond, local, slot, result)
    ensures var d := RunBlock(Inlined(PLAN), [], Answers(), c);
      match b
      case 3 => CopyAt(d, if cond != 0 then 4 else 5, x, cond, local, slot, result)
      case 4 => CopyAt(d, 5, x, cond, 1, slot, result)
      case _ => CopyAt(d, 6, x, cond, local, local, result)
  {
    hide Binop, CloneBlock, Enter, SubstInsts, SubstTerm, Unop;
    TheCopy();
    hide RunBlock, Steps, Inlined;
    var g, o := Inlined(PLAN), Answers();
    NextConfig(g, [], o, c.prev, b, c.frame);
    match b
    case 3 => UpToThree(Alloca(3), Alloca(3), Alloca(3), [], o, c.frame);
    case 4 => UpToThree(Store(Slot(3), Const(1)), Alloca(3), Alloca(3), [], o, c.frame);
    case _ => UpToThree(Load(3, Slot(3)), Store(Slot(2), Reg(3)), Alloca(3), [], o, c.frame);
  }

  /** Behind the copy of the callee. */
  lemma PartBehind(c: Config, x: i32, cond: i32, local: i32, slot: i32, result: i32)
    requires hide CallerBlock, CloneBlock, Enter, Steps, SubstInsts;
             HasCall(PLAN) && CopyAt(c, 6, x, cond, local, slot, result)
    ensures CopyAt(RunBlock(Inlined(PLAN), [], Answers(), c), if cond != 0 then 1 else 2, 0, cond, local, slot, slot)
  {
    hide Binop, CallerBlock, CloneBlock, Enter, SubstInsts, SubstTerm, Unop;
    TheCopy();
    hide RunBlock, Steps, Inlined;
    var g, o := Inlined(PLAN), Answers();
    NextConfig(g, [], o, c.prev, 6, c.frame);
    UpToThree(Load(2, Slot(2)), Store(Global("x"), Const(0)), Alloca(3), [], o, c.frame);
    assert map["x" := x]["x" := 0] == map["x" := 0];
  }

  /** The second pass through the copy reads what the first one stored. */
  lemma CopyReturnsOne()
    ensures hide CallerBlock, CloneBlock, ContinuationBlock, Run, SubstInsts; HasCall(PLAN)
    ensures ReturnsWith(Inlined(PLAN), [], Answers(), map[], World(map["x" := 1], []), 11, Some(1), map["x" := 0])
  {
    hide CallerBlock, CloneBlock, ContinuationBlock, Enter, Leave, Steps, SubstInsts;
    ThePlan();
    hide RunBlock, Run, Inlined;
    var g, o, start := Inlined(PLAN), Answers(), From(map[], World(map["x" := 1], []));
    RunsOn(g, o, start);
    CallerPart(start, 0, 1, 0, 0, 0, 0);
    CallerPart(Run(g, [], o, start, 1), 1, 1, 0, 0, 0, 0);
    CalleePart(Run(g, [], o, start, 2), 3, 1, 1, 0, 0, 0);
    CalleePart(Run(g, [], o, start, 3), 4, 1, 1, 0, 0, 0);
    CalleePart(Run(g, [], o, start, 4), 5, 1, 1, 1, 0, 0);
    PartBehind(Run(g, [], o, start, 5), 1, 1, 1, 1, 0);
    CallerPart(Run(g, [], o, start, 6), 1, 0, 1, 1, 1, 1);
    CalleePart(Run(g, [], o, start, 7), 3, 0, 0, 1, 1, 1);
    CalleePart(Run(g, [], o, start, 8), 5, 0, 0, 1, 1, 1);
    PartBehind(Run(g, [], o, start, 9), 0, 0, 1, 1, 1);
    CallerPart(Run(g, [], o, start, 10), 2, 0, 0, 1, 1, 1);
  }

  /** All that the pass asks for does not make its result right: the plan is one of the pass and calls give what the
      callee gives, but the caller returns 0, and with the copy it returns 1 instead. */
  lemma InliningChangesTheResult()
    ensures hide CloneBlock, L.Below, Run, SafeToInline, SubstInsts;
            M.Eligible(TheModule(), "main", CALLER, PLAN.b, PLAN.k) && Inlinable(PLAN) && HasCall(PLAN)
    ensures L.GlobalsOnly(Answers()) && FaithfulAtFirst(PLAN, Answers())
    ensures !Blind(CALLEE, 1, Answers())
    ensures var w, last := World(map["x" := 1], []), map["x" := 0];
      && Returns(CALLER, [], Answers(), map[], w, Some(0), last)
      && Returns(Inlined(PLAN), [], Answers(), map[], w, Some(1), last)
      && !Returns(Inlined(PLAN), [], Answers(), map[], w, Some(0), last)
  {
    IsEligible();
    IsInlinable();
    IsFaithful();
    IsNotBlind();
    CallerReturnsZero();
    CopyReturnsOne();
    hide Run, Inlined, Inlinable, L.GlobalsOnly, FaithfulAtFirst, Blind, M.Eligible;
    var g, w, last := Inlined(PLAN), World(map["x" := 1], []), map["x" := 0];
    if Returns(g, [], Answers(), map[], w, Some(0), last) {
      var n: nat :| ReturnsWith(g, [], Answers(), map[], w, n, Some(0), last);
      OneEnd(g, [], Answers(), From(map[], w), 11, n);
      assert false;
    }
  }
}
