/** Keeping a global in a stack slot while no function that is called can see it. */
module Localize {
  import opened Int32
  import opened Ir
  import opened Runs
  import opened Effects
  import opened Numbers

  // ----- calls that run the functions of the program -----

  /** What a call of `c` gives: the function of the program run for at most `steps` blocks, with calls nested at most
      `depth` deep; another function is left to `others`. A call that is cut off gives 0 and leaves the globals. */
  ghost function Answer(prog: Program, others: Callees, depth: nat, steps: nat, c: string, xs: seq<i32>, w: World)
    : (i32, map<string, i32>)
    decreases depth, 0
  {
    if c !in prog then others(c, xs, w)
    else if depth == 0 then (0, w.globals)
    else
      var d := Run(prog[c], xs, Oracle(prog, others, depth - 1, steps), Start(World(w.globals, [])), steps);
      if d.Done? then (if d.result.Some? then d.result.value else 0, d.world.globals) else (0, w.globals)
  }

  ghost function Oracle(prog: Program, others: Callees, depth: nat, steps: nat): Callees
    decreases depth, 1
  {
    (c, xs, w) => Answer(prog, others, depth, steps, c, xs, w)
  }

  /** The globals agree, except those in `hidden`. */
  ghost predicate Agree(hidden: set<string>, m: map<string, i32>, m': map<string, i32>) {
    forall g :: g !in hidden ==> Get(m, g) == Get(m', g)
  }

  /** Where the globals agree outside `hidden`, the two answer alike. */
  ghost predicate AnswerAlike(o: Callees, o': Callees, c: string, hidden: set<string>) {
    forall xs, w: World, w': World :: Agree(hidden, w.globals, w'.globals) ==>
      o(c, xs, w).0 == o'(c, xs, w').0 && Agree(hidden, o(c, xs, w).1, o'(c, xs, w').1)
  }

  ghost predicate Keeps(o: Callees, c: string, x: string) {
    forall xs, w: World :: Get(o(c, xs, w).1, x) == Get(w.globals, x)
  }

  // ----- runs that cannot see the hidden globals -----

  ghost predicate FramesAgree(hidden: set<string>, s: Frame, s': Frame) {
    s.regs == s'.regs && s.slots == s'.slots && Agree(hidden, s.world.globals, s'.world.globals)
  }

  ghost predicate BlindInst(i: Inst, hidden: set<string>, o: Callees, o': Callees) {
    (forall x :: x in hidden ==> !Touches(i, x)) && (i.Call? ==> AnswerAlike(o, o', i.callee, hidden))
  }

  ghost predicate Blind(f: Function, hidden: set<string>, o: Callees, o': Callees) {
    forall b: nat, k: nat :: b < |f.blocks| && k < |f.blocks[b].insts| ==>
      BlindInst(f.blocks[b].insts[k], hidden, o, o')
  }

  lemma StepAgrees(i: Inst, hidden: set<string>, o: Callees, o': Callees, params: seq<i32>, s: Frame, s': Frame)
    requires BlindInst(i, hidden, o, o') && FramesAgree(hidden, s, s')
    ensures FramesAgree(hidden, Step(i, params, o, s), Step(i, params, o', s'))
  {
    hide Binop, Eval, EvalAll, Unop;
    match i
    case Load(_, Global(x)) => assert Touches(i, x);
    case Store(Global(x), _) => assert Touches(i, x);
    case _ =>
  }

  lemma {:induction false} StepsAgree(insts: seq<Inst>, hidden: set<string>, o: Callees, o': Callees, params: seq<i32>,
                                      s: Frame, s': Frame)
    requires (forall i :: i in insts ==> BlindInst(i, hidden, o, o')) && FramesAgree(hidden, s, s')
    ensures FramesAgree(hidden, Steps(insts, params, o, s), Steps(insts, params, o', s'))
  {
    hide BlindInst, FramesAgree, Step;
    if insts != [] {
      var n := |insts| - 1;
      StepsAgree(insts[..n], hidden, o, o', params, s, s');
      StepAgrees(insts[n], hidden, o, o', params, Steps(insts[..n], params, o, s), Steps(insts[..n], params, o', s'));
    }
  }

  ghost predicate ConfigsAgree(hidden: set<string>, c: Config, c': Config) {
    match c
    case At(p, b, s) => c'.At? && c'.prev == p && c'.block == b && FramesAgree(hidden, s, c'.frame)
    case Done(r, w) => c'.Done? && c'.result == r && Agree(hidden, w.globals, c'.world.globals)
  }

  /** A function that cannot see the hidden globals, by itself or through calls, runs alike whatever they hold. */
  lemma {:induction false} RunsAgree(f: Function, hidden: set<string>, o: Callees, o': Callees, params: seq<i32>,
                                     c: Config, c': Config, n: nat)
    requires Blind(f, hidden, o, o') && ConfigsAgree(hidden, c, c')
    ensures ConfigsAgree(hidden, Run(f, params, o, c, n), Run(f, params, o', c', n))
  {
    hide RunBlock, Blind, FramesAgree, Leave, Steps, Enter;
    if n > 0 {
      RunsAgree(f, hidden, o, o', params, c, c', n - 1);
      var a, a' := Run(f, params, o, c, n - 1), Run(f, params, o', c', n - 1);
      if a.At? && a.block < |f.blocks| {
        BlockAgrees(f, hidden, o, o', params, a, a');
      } else {
        BeyondStays(f, params, o, a);
        BeyondStays(f, params, o', a');
      }
    }
  }

  lemma BeyondStays(f: Function, params: seq<i32>, o: Callees, c: Config)
    requires hide *; c.Done? || c.block >= |f.blocks|
    ensures RunBlock(f, params, o, c) == c
  {
    hide Enter, Leave, Steps;
  }

  lemma BlockAgrees(f: Function, hidden: set<string>, o: Callees, o': Callees, params: seq<i32>, a: Config, a': Config)
    requires hide *; Blind(f, hidden, o, o') && ConfigsAgree(hidden, a, a') && a.At? && a.block < |f.blocks|
    ensures ConfigsAgree(hidden, RunBlock(f, params, o, a), RunBlock(f, params, o', a'))
  {
    hide BlindInst, PhiRegs, RunBlock, Steps, Blind;
    var b := f.blocks[a.block];
    InstsAreBlind(f, a.block, hidden, o, o');
    StepsAgree(b.insts, hidden, o, o', params, Enter(b, a.prev, params, a.frame), Enter(b, a.prev, params, a'.frame));
    OneBlock(f, params, o, a);
    OneBlock(f, params, o', a');
  }

  lemma InstsAreBlind(f: Function, b: nat, hidden: set<string>, o: Callees, o': Callees)
    requires hide *; Blind(f, hidden, o, o') && b < |f.blocks|
    ensures forall i :: i in f.blocks[b].insts ==> BlindInst(i, hidden, o, o')
  {
    forall i | i in f.blocks[b].insts ensures BlindInst(i, hidden, o, o') {
      var k: nat :| k < |f.blocks[b].insts| && f.blocks[b].insts[k] == i;
    }
  }

  ghost predicate KeepsInst(i: Inst, x: string, o: Callees) {
    (i.Store? ==> i.ptr != Global(x)) && (i.Call? ==> Keeps(o, i.callee, x))
  }

  lemma {:induction false} StepsKeep(insts: seq<Inst>, x: string, o: Callees, params: seq<i32>, s: Frame)
    requires forall i :: i in insts ==> KeepsInst(i, x, o)
    ensures Get(Steps(insts, params, o, s).world.globals, x) == Get(s.world.globals, x)
  {
    if insts != [] {
      StepsKeep(insts[..|insts| - 1], x, o, params, s);
      assert KeepsInst(insts[|insts| - 1], x, o);
    }
  }

  ghost predicate KeepsFunction(f: Function, x: string, o: Callees) {
    forall b: nat, k: nat :: b < |f.blocks| && k < |f.blocks[b].insts| ==> KeepsInst(f.blocks[b].insts[k], x, o)
  }

  function WorldOf(c: Config): World {
    match c
    case At(_, _, s) => s.world
    case Done(_, w) => w
  }

  lemma {:induction false} RunKeeps(f: Function, x: string, o: Callees, params: seq<i32>, c: Config, n: nat)
    requires KeepsFunction(f, x, o)
    ensures Get(WorldOf(Run(f, params, o, c, n)).globals, x) == Get(WorldOf(c).globals, x)
  {
    hide RunBlock, Steps, Enter, Leave;
    if n > 0 {
      RunKeeps(f, x, o, params, c, n - 1);
      var a := Run(f, params, o, c, n - 1);
      if a.At? && a.block < |f.blocks| {
        BlockKeeps(f, x, o, params, a);
      } else {
        BeyondStays(f, params, o, a);
      }
    }
  }

  lemma BlockKeeps(f: Function, x: string, o: Callees, params: seq<i32>, a: Config)
    requires hide *; KeepsFunction(f, x, o) && a.At? && a.block < |f.blocks|
    ensures Get(WorldOf(RunBlock(f, params, o, a)).globals, x) == Get(WorldOf(a).globals, x)
  {
    hide RunBlock, Steps;
    var b := f.blocks[a.block];
    forall i | i in b.insts ensures KeepsInst(i, x, o) {
      var k: nat :| k < |b.insts| && b.insts[k] == i;
    }
    StepsKeep(b.insts, x, o, params, Enter(b, a.prev, params, a.frame));
    OneBlock(f, params, o, a);
  }

  // ----- what the summaries say about calls -----

  /** The summaries are closed over what the functions of the program do. */
  ghost predicate Summarizes(prog: Program, d: Summaries, e: Summaries) {
    && d.Keys == prog.Keys && Closed(d, e)
    && (forall f :: f in prog ==> IsDirect(prog[f], prog.Keys, d[f]))
  }

  /** A call of the function can neither read nor write the global. */
  predicate Spares(e: Summaries, c: string, x: string) {
    c in e && !e[c].unknown && x !in e[c].touched
  }

  lemma CalleesSpare(prog: Program, d: Summaries, e: Summaries, c: string, x: string, i: Inst)
    requires Summarizes(prog, d, e) && Spares(e, c, x) && InstOf(prog[c], i)
    ensures !Touches(i, x) && (i.Call? ==> i.callee in prog && Spares(e, i.callee, x))
  {
    var b: nat, k: nat :| b < |prog[c].blocks| && k < |prog[c].blocks[b].insts| && prog[c].blocks[b].insts[k] == i;
    assert IsDirect(prog[c], prog.Keys, d[c]);
    InstAccesses(prog[c], i, x);
    if i.Call? {
      assert Calls(prog[c], i.callee);
      assert i.callee in d[c].callees;
      assert Covers(e[c], e[i.callee]);
    }
  }

  lemma InstAccesses(f: Function, i: Inst, x: string)
    requires InstOf(f, i)
    ensures Touches(i, x) ==> Accesses(f, x)
  {
  }

  ghost predicate InstOf(f: Function, i: Inst) {
    exists b: nat, k: nat :: b < |f.blocks| && k < |f.blocks[b].insts| && f.blocks[b].insts[k] == i
  }

  /** A spared global makes no difference to a call and is left as it was. */
  lemma {:induction false} SparedIsUntouched(prog: Program, others: Callees, d: Summaries, e: Summaries, depth: nat,
                                             steps: nat,
                                             c: string, x: string)
    requires Summarizes(prog, d, e) && Spares(e, c, x)
    ensures AnswerAlike(Oracle(prog, others, depth, steps), Oracle(prog, others, depth, steps), c, {x})
    ensures Keeps(Oracle(prog, others, depth, steps), c, x)
    decreases depth
  {
    hide Summarizes, Run;
    assert c in prog by { KnownFunction(prog, d, e, c); }
    if depth > 0 {
      var o, f := Oracle(prog, others, depth - 1, steps), prog[c];
      forall b: nat, k: nat | b < |f.blocks| && k < |f.blocks[b].insts|
        ensures BlindInst(f.blocks[b].insts[k], {x}, o, o) && KeepsInst(f.blocks[b].insts[k], x, o)
      {
        var i := f.blocks[b].insts[k];
        CalleesSpare(prog, d, e, c, x, i);
        if i.Call? {
          SparedIsUntouched(prog, others, d, e, depth - 1, steps, i.callee, x);
        }
      }
      AnswersFromRuns(prog, others, depth, steps, c, x);
    }
  }

  lemma KnownFunction(prog: Program, d: Summaries, e: Summaries, c: string)
    requires Summarizes(prog, d, e) && c in e
    ensures c in prog
  {
    hide Covers, IsDirect;
  }

  lemma AnswersFromRuns(prog: Program, others: Callees, depth: nat, steps: nat, c: string, x: string)
    requires hide *; c in prog && depth > 0
    requires var o := Oracle(prog, others, depth - 1, steps); Blind(prog[c], {x}, o, o) && KeepsFunction(prog[c], x, o)
    ensures AnswerAlike(Oracle(prog, others, depth, steps), Oracle(prog, others, depth, steps), c, {x})
    ensures Keeps(Oracle(prog, others, depth, steps), c, x)
  {
    hide Run, Blind, KeepsFunction;
    var o, f := Oracle(prog, others, depth - 1, steps), prog[c];
    forall xs, w: World, w': World | Agree({x}, w.globals, w'.globals)
      ensures var a, a' := Answer(prog, others, depth, steps, c, xs, w), Answer(prog, others, depth, steps, c, xs, w');
        a.0 == a'.0 && Agree({x}, a.1, a'.1)
    {
      RunsAgree(f, {x}, o, o, xs, Start(World(w.globals, [])), Start(World(w'.globals, [])), steps);
    }
    forall xs, w: World
      ensures Get(Answer(prog, others, depth, steps, c, xs, w).1, x) == Get(w.globals, x)
    {
      RunKeeps(f, x, o, xs, Start(World(w.globals, [])), steps);
    }
  }

  // ----- the function with the global in a slot -----

  function MapPointer(p: Pointer, x: string, slot: nat): Pointer {
    if p == Global(x) then Slot(slot) else p
  }

  function MapInst(i: Inst, x: string, slot: nat): Inst {
    match i
    case Load(d, p) => Load(d, MapPointer(p, x, slot))
    case Store(p, v) => Store(MapPointer(p, x, slot), v)
    case _ => i
  }

  function MapInsts(insts: seq<Inst>, x: string, slot: nat): (r: seq<Inst>)
    ensures |r| == |insts| && forall k :: 0 <= k < |insts| ==> r[k] == MapInst(insts[k], x, slot)
  {
    seq(|insts|, k requires 0 <= k < |insts| => MapInst(insts[k], x, slot))
  }

  /** How many of the first `b` blocks return. */
  function ReturnsBelow(f: Function, b: nat): (n: nat)
    requires b <= |f.blocks|
    ensures n <= b
  {
    if b == 0 then 0 else ReturnsBelow(f, b - 1) + if f.blocks[b - 1].term.Ret? then 1 else 0
  }

  /** The slot takes the next number, the first load the one after it, the loads at the returns those that follow. */
  function Prologue(x: string, base: nat): seq<Inst> {
    [Alloca(base), Load(base + 1, Global(x)), Store(Slot(base), Reg(base + 1))]
  }

  function Epilogue(x: string, base: nat, reg: nat): seq<Inst> {
    [Load(reg, Slot(base)), Store(Global(x), Reg(reg))]
  }

  function LocalBlock(f: Function, b: nat, x: string, base: nat, at: nat, written: bool): Block
    requires b < |f.blocks| && (b == 0 ==> at <= |f.blocks[b].insts|)
  {
    var blk := f.blocks[b];
    var insts := MapInsts(blk.insts, x, base);
    var front := if b == 0 then insts[..at] + Prologue(x, base) + insts[at..] else insts;
    var all := if written && blk.term.Ret? then front + Epilogue(x, base, base + 2 + ReturnsBelow(f, b)) else front;
    Block(blk.phis, all, blk.term)
  }

  function Localized(f: Function, x: string, base: nat, at: nat, written: bool): (g: Function)
    requires 0 < |f.blocks| && at <= |f.blocks[0].insts|
    ensures |g.blocks| == |f.blocks|
    ensures forall b: nat :: b < |f.blocks| ==> g.blocks[b] == LocalBlock(f, b, x, base, at, written)
  {
    Function(seq(|f.blocks|, b requires 0 <= b < |f.blocks| => LocalBlock(f, b, x, base, at, written)))
  }

  // ----- the two runs, once the slot holds the global -----

  /** Below `base` the frames agree, the globals agree up to `x`, and the slot holds `x`; if `x` is never stored, it
      has not changed. */
  ghost predicate Held(x: string, base: nat, written: bool, s: Frame, s': Frame) {
    && (Same(base, s.regs, s'.regs))
    && (Same(base, s.slots, s'.slots))
    && Agree({x}, s.world.globals, s'.world.globals)
    && Get(s'.slots, base) == Get(s.world.globals, x)
    && (!written ==> Get(s'.world.globals, x) == Get(s.world.globals, x))
  }

  ghost predicate Promotable(i: Inst, x: string, base: nat, written: bool, o: Callees) {
    && InstBelow(i, base) && (i.Call? ==> AnswerAlike(o, o, i.callee, {x}) && Keeps(o, i.callee, x))
    && (!written ==> !(i.Store? && i.ptr == Global(x)))
  }

  lemma OperandHeld(v: Operand, params: seq<i32>, base: nat, regs: map<nat, i32>, regs': map<nat, i32>)
    requires OperandBelow(v, base) && Same(base, regs, regs')
    ensures Eval(v, params, regs') == Eval(v, params, regs)
  {
  }

  lemma StepHeld(i: Inst, x: string, base: nat, written: bool, o: Callees, params: seq<i32>, s: Frame, s': Frame)
    requires Promotable(i, x, base, written, o) && Held(x, base, written, s, s')
    ensures Held(x, base, written, Step(i, params, o, s), Step(MapInst(i, x, base), params, o, s'))
  {
    hide AnswerAlike, Keeps;
    match i
    case Call(_, c, vs) =>
      forall k | 0 <= k < |vs| ensures Eval(vs[k], params, s'.regs) == Eval(vs[k], params, s.regs) {
        OperandHeld(vs[k], params, base, s.regs, s'.regs);
      }
      assert EvalAll(vs, params, s'.regs) == EvalAll(vs, params, s.regs);
      CallHeld(o, c, EvalAll(vs, params, s.regs), s.world, s'.world, x);
      var v := o(c, EvalAll(vs, params, s.regs), s.world).0;
      WriteHeld(base, s.regs, s'.regs, i.dst, v, v);
    case Binary(d, op, a, b) =>
      OperandHeld(a, params, base, s.regs, s'.regs);
      OperandHeld(b, params, base, s.regs, s'.regs);
      var v := Binop(op, Eval(a, params, s.regs), Eval(b, params, s.regs));
      WriteHeld(base, s.regs, s'.regs, d, v, v);
    case Unary(_, op, a) =>
      OperandHeld(a, params, base, s.regs, s'.regs);
      WriteHeld(base, s.regs, s'.regs, i.dst, Unop(op, Eval(a, params, s.regs)), Unop(op, Eval(a, params, s'.regs)));
    case Alloca(_) =>
    case Load(d, Slot(a)) =>
      WriteHeld(base, s.regs, s'.regs, d, Get(s.slots, a), Get(s'.slots, a));
    case Load(d, Global(g)) =>
      assert g != x ==> g !in {x};
      WriteHeld(base, s.regs, s'.regs, d, Get(s.world.globals, g), if g == x then Get(s'.slots, base)
                                                                     else Get(s'.world.globals, g));
    case Store(Slot(a), v) =>
      OperandHeld(v, params, base, s.regs, s'.regs);
      WriteHeld(base, s.slots, s'.slots, a, Eval(v, params, s.regs), Eval(v, params, s'.regs));
    case Store(Global(g), v) =>
      OperandHeld(v, params, base, s.regs, s'.regs);
      if g == x {
        OtherWrite(base, s'.slots, base, Eval(v, params, s'.regs));
      }
  }

  lemma CallHeld(o: Callees, c: string, xs: seq<i32>, w: World, w': World, x: string)
    requires AnswerAlike(o, o, c, {x}) && Keeps(o, c, x) && Agree({x}, w.globals, w'.globals)
    ensures o(c, xs, w).0 == o(c, xs, w').0 && Agree({x}, o(c, xs, w).1, o(c, xs, w').1)
    ensures Get(o(c, xs, w).1, x) == Get(w.globals, x) && Get(o(c, xs, w').1, x) == Get(w'.globals, x)
  {
  }

  lemma {:induction false} StepsHeld(insts: seq<Inst>, x: string, base: nat, written: bool, o: Callees,
                                     params: seq<i32>,
                                     s: Frame, s': Frame)
    requires hide *; forall k :: 0 <= k < |insts| ==> Promotable(insts[k], x, base, written, o)
    requires Held(x, base, written, s, s')
    ensures Held(x, base, written, Steps(insts, params, o, s), Steps(MapInsts(insts, x, base), params, o, s'))
  {
    hide Held, MapInst, Promotable, Step;
    if insts != [] {
      var n := |insts| - 1;
      StepsHeld(insts[..n], x, base, written, o, params, s, s');
      assert MapInsts(insts, x, base)[..n] == MapInsts(insts[..n], x, base);
      StepHeld(insts[n], x, base, written, o, params, Steps(insts[..n], params, o, s),
               Steps(MapInsts(insts[..n], x, base), params, o, s'));
    }
  }

  lemma {:induction false} IncomingBelow(inc: seq<(Operand, nat)>, prev: nat, base: nat)
    requires forall k :: 0 <= k < |inc| ==> OperandBelow(inc[k].0, base)
    ensures Incoming(inc, prev).Some? ==> OperandBelow(Incoming(inc, prev).value, base)
  {
    if inc != [] {
      IncomingBelow(inc[1..], prev, base);
    }
  }

  lemma {:induction false} PhisHeld(phis: seq<Phi>, prev: nat, params: seq<i32>, base: nat, regs: map<nat, i32>,
                                    regs': map<nat, i32>)
    requires forall k :: 0 <= k < |phis| ==> PhiBelow(phis[k], base)
    requires Same(base, regs, regs')
    ensures Same(base, PhiRegs(phis, prev, params, regs), PhiRegs(phis, prev, params, regs'))
  {
    if phis != [] {
      var n := |phis| - 1;
      PhisHeld(phis[..n], prev, params, base, regs, regs');
      assert PhiBelow(phis[n], base);
      IncomingBelow(phis[n].incoming, prev, base);
      ReceivedHeld(phis[n].incoming, prev, params, base, regs, regs');
      WriteHeld(base, PhiRegs(phis[..n], prev, params, regs), PhiRegs(phis[..n], prev, params, regs'), phis[n].dst,
                Received(phis[n].incoming, prev, params, regs), Received(phis[n].incoming, prev, params, regs'));
    }
  }

  function Received(inc: seq<(Operand, nat)>, prev: nat, params: seq<i32>, regs: map<nat, i32>): i32 {
    match Incoming(inc, prev)
    case Some(v) => Eval(v, params, regs)
    case None => 0
  }

  lemma ReceivedHeld(inc: seq<(Operand, nat)>, prev: nat, params: seq<i32>, base: nat, regs: map<nat, i32>,
                     regs': map<nat, i32>)
    requires Incoming(inc, prev).Some? ==> OperandBelow(Incoming(inc, prev).value, base)
    requires Same(base, regs, regs')
    ensures Received(inc, prev, params, regs') == Received(inc, prev, params, regs)
  {
    if Incoming(inc, prev).Some? {
      OperandHeld(Incoming(inc, prev).value, params, base, regs, regs');
    }
  }

  /** Runs at the same edge, or ended with the same result and the same globals. */
  ghost predicate InStep(x: string, base: nat, written: bool, c: Config, c': Config) {
    match c
    case At(p, b, s) => b != 0 && c'.At? && c'.prev == p && c'.block == b && Held(x, base, written, s, c'.frame)
    case Done(r, w) => c'.Done? && c'.result == r && Agree({}, w.globals, c'.world.globals)
  }

  ghost predicate EntryIsFirst(f: Function) {
    forall b :: 0 <= b < |f.blocks| ==> 0 !in Targets(f.blocks[b].term)
  }

  /** At the end of a block: a return stores the slot back. */
  lemma LeaveInStep(t: Terminator, here: nat, x: string, base: nat, written: bool, reg: nat, o: Callees,
                    params: seq<i32>,
                    s: Frame, s': Frame)
    requires TermBelow(t, base) && 0 !in Targets(t) && Held(x, base, written, s, s') && base < reg
    ensures var last := if written && t.Ret? then Steps(Epilogue(x, base, reg), params, o, s') else s';
      InStep(x, base, written, Leave(t, here, params, s), Leave(t, here, params, last))
  {
    hide Step;
    match t
    case CondBr(c, b1, b2) =>
      OperandHeld(c, params, base, s.regs, s'.regs);
      assert b1 in Targets(t) && b2 in Targets(t);
    case Ret(r) =>
      var last := if written then Steps(Epilogue(x, base, reg), params, o, s') else s';
      EpilogueStores(x, base, reg, o, params, s');
      if r.Some? {
        OperandHeld(r.value, params, base, s.regs, last.regs);
      }
      assert Agree({}, s.world.globals, last.world.globals) by {
        forall g ensures Get(s.world.globals, g) == Get(last.world.globals, g) {
          assert g != x ==> g !in {x};
        }
      }
    case Br(b1) => assert b1 in Targets(t);
  }

  lemma EpilogueStores(x: string, base: nat, reg: nat, o: Callees, params: seq<i32>, s: Frame)
    requires base < reg
    ensures var last := Steps(Epilogue(x, base, reg), params, o, s);
      && last.world.globals == s.world.globals[x := Get(s.slots, base)]
      && Same(base, s.regs, last.regs)
  {
    hide Binop, EvalAll, Unop;
    var insts := Epilogue(x, base, reg);
    assert insts[..1] == [insts[0]] && insts[..1][..0] == [];
    assert Steps(insts[..1], params, o, s) == Step(insts[0], params, o, Steps([], params, o, s));
  }

  lemma PrologueHolds(x: string, base: nat, written: bool, o: Callees, params: seq<i32>, s: Frame)
    ensures Held(x, base, written, s, Steps(Prologue(x, base), params, o, s))
  {
    hide Binop, EvalAll, Unop;
    var insts := Prologue(x, base);
    assert insts[..2][..1] == [insts[0]] && insts[..2][..1][..0] == [];
    assert Steps(insts[..2][..1], params, o, s) == s;
    assert insts[..2][1] == insts[1];
  }

  /** Everything a run of the localized function relies on. */
  ghost predicate Suits(f: Function, x: string, base: nat, at: nat, written: bool, o: Callees) {
    && 0 < |f.blocks| && at <= |f.blocks[0].insts| && Below(f, base) && EntryIsFirst(f)
    && (forall k :: 0 <= k < at ==> !Touches(f.blocks[0].insts[k], x))
    && (forall b: nat, k: nat :: b < |f.blocks| && k < |f.blocks[b].insts| ==>
          Promotable(f.blocks[b].insts[k], x, base, written, o))
  }

  lemma UntouchedMap(insts: seq<Inst>, x: string, slot: nat)
    requires forall k :: 0 <= k < |insts| ==> !Touches(insts[k], x)
    ensures MapInsts(insts, x, slot) == insts
  {
  }

  /** The instructions of a block other than the epilogue. */
  lemma BodyInStep(f: Function, b: nat, x: string, base: nat, at: nat, written: bool, o: Callees, params: seq<i32>,
                   s: Frame, s': Frame)
    requires hide *; Suits(f, x, base, at, written, o) && b < |f.blocks|
    requires if b == 0 then s == s' else Held(x, base, written, s, s')
    ensures b == 0 ==> at <= |f.blocks[0].insts|
    ensures Held(x, base, written, Steps(f.blocks[b].insts, params, o, s),
                 Steps(Front(f, b, x, base, at), params, o, s'))
  {
    hide Below, Held, MapInst, Promotable, Steps, Prologue, Touches;
    var all := f.blocks[b].insts;
    if b == 0 {
      var mid := Steps(all[..at], params, o, s);
      UntouchedMap(all[..at], x, base);
      assert MapInsts(all, x, base)[..at] == all[..at];
      assert MapInsts(all, x, base)[at..] == MapInsts(all[at..], x, base);
      PrologueHolds(x, base, written, o, params, mid);
      StepsHeld(all[at..], x, base, written, o, params, mid, Steps(Prologue(x, base), params, o, mid));
      StepsAppend(all[..at], all[at..], params, o, s);
      assert all == all[..at] + all[at..];
      StepsAppend(all[..at] + Prologue(x, base), MapInsts(all[at..], x, base), params, o, s);
      StepsAppend(all[..at], Prologue(x, base), params, o, s);
    } else {
      StepsHeld(all, x, base, written, o, params, s, s');
    }
  }

  /** One block: from equal frames at the entry, or from frames in step anywhere else. */
  lemma BlockInStep(f: Function, x: string, base: nat, at: nat, written: bool, o: Callees, params: seq<i32>,
                    c: Config, c': Config)
    requires hide Below, Held, Localized, Promotable, RunBlock;
             Suits(f, x, base, at, written, o) && c.At? && c.block < |f.blocks|
    requires c'.At? && c'.prev == c.prev && c'.block == c.block
    requires if c.block == 0 then c' == c else Held(x, base, written, c.frame, c'.frame)
    ensures InStep(x, base, written, RunBlock(f, params, o, c),
                   RunBlock(Localized(f, x, base, at, written), params, o, c'))
  {
    hide *;
    var b := c.block;
    var blk := f.blocks[b];
    SuitsBlock(f, b, x, base, at, written, o);
    var s, s' := Enter(blk, c.prev, params, c.frame), Enter(blk, c.prev, params, c'.frame);
    if b != 0 {
      EnterHeld(blk, c.prev, x, base, written, params, c.frame, c'.frame);
    }
    BodyInStep(f, b, x, base, at, written, o, params, s, s');
    var front := Front(f, b, x, base, at);
    var reg := base + 2 + ReturnsBelow(f, b);
    LeaveInStep(blk.term, b, x, base, written, reg, o, params, Steps(blk.insts, params, o, s),
                Steps(front, params, o, s'));
    StepsAppend(front, Epilogue(x, base, reg), params, o, s');
    OneBlock(f, params, o, c);
    OneBlock(Localized(f, x, base, at, written), params, o, c');
    LocalShape(f, b, x, base, at, written);
    SameEnter(blk, Localized(f, x, base, at, written).blocks[b], c.prev, params, c'.frame);
  }

  /** A block of the localized function without its epilogue. */
  function Front(f: Function, b: nat, x: string, base: nat, at: nat): seq<Inst>
    requires b < |f.blocks| && (b == 0 ==> at <= |f.blocks[b].insts|)
  {
    var insts := MapInsts(f.blocks[b].insts, x, base);
    if b == 0 then insts[..at] + Prologue(x, base) + insts[at..] else insts
  }

  lemma LocalShape(f: Function, b: nat, x: string, base: nat, at: nat, written: bool)
    requires hide *; b < |f.blocks| && at <= |f.blocks[0].insts|
    ensures var g := Localized(f, x, base, at, written);
      && b < |g.blocks| && g.blocks[b].term == f.blocks[b].term && g.blocks[b].phis == f.blocks[b].phis
      && g.blocks[b].insts == if written && f.blocks[b].term.Ret?
                              then Front(f, b, x, base, at) + Epilogue(x, base, base + 2 + ReturnsBelow(f, b))
                              else Front(f, b, x, base, at)
  {
    hide Localized, MapInsts, Prologue, Epilogue, ReturnsBelow;
    LocalBlockIs(f, b, x, base, at, written);
  }

  lemma LocalBlockIs(f: Function, b: nat, x: string, base: nat, at: nat, written: bool)
    requires hide *; b < |f.blocks| && at <= |f.blocks[0].insts|
    ensures Localized(f, x, base, at, written).blocks[b] == LocalBlock(f, b, x, base, at, written)
  {
    hide LocalBlock;
  }

  lemma SuitsBlock(f: Function, b: nat, x: string, base: nat, at: nat, written: bool, o: Callees)
    requires hide *; Suits(f, x, base, at, written, o) && b < |f.blocks|
    ensures at <= |f.blocks[0].insts| && BlockBelow(f.blocks[b], base) && TermBelow(f.blocks[b].term, base)
    ensures base < base + 2 + ReturnsBelow(f, b)
    ensures 0 !in Targets(f.blocks[b].term)
  {
    hide InstBelow, PhiBelow, Promotable, ReturnsBelow, Targets;
    assert BlockBelow(f.blocks[b], base);
  }

  lemma EnterHeld(blk: Block, prev: nat, x: string, base: nat, written: bool, params: seq<i32>, s: Frame, s': Frame)
    requires BlockBelow(blk, base) && Held(x, base, written, s, s')
    ensures Held(x, base, written, Enter(blk, prev, params, s), Enter(blk, prev, params, s'))
  {
    hide Agree, InstBelow, PhiBelow, PhiRegs, Same, TermBelow;
    PhisHeld(blk.phis, prev, params, base, s.regs, s'.regs);
  }

  /** With the global in a slot a call takes the same path, and returns with the same value and the same globals. */
  lemma {:induction false} LocalRun(f: Function, x: string, base: nat, at: nat, written: bool, o: Callees,
                                    params: seq<i32>,
                                    w: World, n: nat)
    requires hide *; 0 < |f.blocks| && at <= |f.blocks[0].insts| && Suits(f, x, base, at, written, o)
    ensures n > 0 ==> InStep(x, base, written, Run(f, params, o, Start(w), n),
                             Run(Localized(f, x, base, at, written), params, o, Start(w), n))
  {
    hide Held, Localized, RunBlock, Suits;
    var g := Localized(f, x, base, at, written);
    if n == 1 {
      assert Run(f, params, o, Start(w), 0) == Start(w) == Run(g, params, o, Start(w), 0);
      SuitsHasEntry(f, x, base, at, written, o);
      BlockInStep(f, x, base, at, written, o, params, Start(w), Start(w));
    } else if n > 1 {
      LocalRun(f, x, base, at, written, o, params, w, n - 1);
      var c, c' := Run(f, params, o, Start(w), n - 1), Run(g, params, o, Start(w), n - 1);
      if c.At? && c.block < |f.blocks| {
        BlockInStep(f, x, base, at, written, o, params, c, c');
      } else {
        BeyondStays(f, params, o, c);
        SuitsHasEntry(f, x, base, at, written, o);
        BeyondStays(g, params, o, c');
      }
    }
  }

  lemma SuitsHasEntry(f: Function, x: string, base: nat, at: nat, written: bool, o: Callees)
    requires hide Below, EntryIsFirst, Localized, Promotable; Suits(f, x, base, at, written, o)
    ensures 0 < |f.blocks| && |Localized(f, x, base, at, written).blocks| == |f.blocks|
  {
    hide Below, EntryIsFirst, LocalBlock, Promotable;
  }

  // ----- one global after another -----

  /** The function so far, the next unused number, and the length of the prologues. */
  datatype Progress = Progress(f: Function, base: nat, at: nat)

  predicate Proper(p: Progress) {
    0 < |p.f.blocks| && p.at <= |p.f.blocks[0].insts|
  }

  function Next(p: Progress, x: string, written: bool): (q: Progress)
    requires Proper(p)
    ensures Proper(q) && |q.f.blocks| == |p.f.blocks|
  {
    var g := Localized(p.f, x, p.base, p.at, written);
    assert g.blocks[0] == LocalBlock(p.f, 0, x, p.base, p.at, written);
    Progress(g, p.base + 2 + (if written then ReturnsBelow(p.f, |p.f.blocks|) else 0), p.at + 3)
  }

  function LocalizeAll(f: Function, base: nat, xs: seq<string>, written: set<string>): (p: Progress)
    requires 0 < |f.blocks|
    ensures Proper(p)
  {
    if xs == [] then Progress(f, base, 0)
    else Next(LocalizeAll(f, base, xs[..|xs| - 1], written), xs[|xs| - 1], xs[|xs| - 1] in written)
  }

  /** Both runs stand at the same edge, or have ended with the same result and the same globals. */
  ghost predicate Together(c: Config, c': Config) {
    match c
    case At(p, b, _) => c'.At? && c'.prev == p && c'.block == b
    case Done(r, w) => c'.Done? && c'.result == r && Agree({}, w.globals, c'.world.globals)
  }

  ghost predicate SameCalls(f: Function, g: Function, o: Callees) {
    forall params: seq<i32>, w: World,
      n: nat :: Together(Run(f, params, o, Start(w), n), Run(g, params, o, Start(w), n))
  }

  lemma SameCallsTrans(f: Function, g: Function, h: Function, o: Callees)
    requires SameCalls(f, g, o) && SameCalls(g, h, o)
    ensures SameCalls(f, h, o)
  {
    hide Run;
    forall params: seq<i32>, w: World, n: nat
      ensures Together(Run(f, params, o, Start(w), n), Run(h, params, o, Start(w), n))
    {
      assert Together(Run(f, params, o, Start(w), n), Run(g, params, o, Start(w), n));
      assert Together(Run(g, params, o, Start(w), n), Run(h, params, o, Start(w), n));
    }
  }

  lemma LocalSameCalls(f: Function, x: string, base: nat, at: nat, written: bool, o: Callees)
    requires hide *; 0 < |f.blocks| && at <= |f.blocks[0].insts| && Suits(f, x, base, at, written, o)
    ensures SameCalls(f, Localized(f, x, base, at, written), o)
  {
    hide Suits, Localized, RunBlock;
    var g := Localized(f, x, base, at, written);
    forall params: seq<i32>, w: World, n: nat
      ensures Together(Run(f, params, o, Start(w), n), Run(g, params, o, Start(w), n))
    {
      LocalRun(f, x, base, at, written, o, params, w, n);
    }
  }

  ghost predicate Stores(f: Function, x: string) {
    exists i: Inst :: InstOf(f, i) && i.Store? && i.ptr == Global(x)
  }

  /** The function has changed in nothing that matters to the globals still to come. */
  ghost predicate Onward(f: Function, p: Progress, done: seq<string>) {
    && Proper(p) && Below(p.f, p.base) && EntryIsFirst(p.f)
    && (forall i :: InstOf(p.f, i) && i.Call? ==> InstOf(f, i))
    && (forall x, k :: x !in done && 0 <= k < p.at ==> !Touches(p.f.blocks[0].insts[k], x))
    && (forall i :: InstOf(p.f, i) && i.Store? && i.ptr.Global? && i.ptr.name !in done ==> InstOf(f, i))
  }

  /** Where the instructions of a localized function come from. */
  ghost predicate Comes(f: Function, x: string, base: nat, written: bool, i: Inst) {
    || i in Prologue(x, base)
    || (exists reg: nat :: written && base + 2 <= reg < base + 2 + ReturnsBelow(f, |f.blocks|)
          && i in Epilogue(x, base, reg))
    || (exists j :: InstOf(f, j) && i == MapInst(j, x, base))
  }

  lemma {:induction false} ReturnsGrow(f: Function, a: nat, b: nat)
    requires a < b <= |f.blocks| && f.blocks[a].term.Ret?
    ensures ReturnsBelow(f, a) < ReturnsBelow(f, b)
  {
    if b > a + 1 {
      ReturnsGrow(f, a, b - 1);
    }
  }

  lemma LocalInst(f: Function, x: string, base: nat, at: nat, written: bool, i: Inst)
    requires hide *; 0 < |f.blocks| && at <= |f.blocks[0].insts| && InstOf(Localized(f, x, base, at, written), i)
    ensures Comes(f, x, base, written, i)
  {
    hide Prologue, Epilogue, ReturnsBelow;
    var g := Localized(f, x, base, at, written);
    var b: nat, k: nat :| b < |g.blocks| && k < |g.blocks[b].insts| && g.blocks[b].insts[k] == i;
    LocalShape(f, b, x, base, at, written);
    var front, all := Front(f, b, x, base, at), f.blocks[b].insts;
    if k < |front| {
      FrontInst(f, b, x, base, at, k);
      if front[k] !in Prologue(x, base) {
        var j: nat :| j < |all| && front[k] == MapInst(all[j], x, base);
        assert InstOf(f, all[j]);
      }
    } else {
      ReturnsGrow(f, b, |f.blocks|);
      assert i in Epilogue(x, base, base + 2 + ReturnsBelow(f, b));
    }
  }

  lemma FrontInst(f: Function, b: nat, x: string, base: nat, at: nat, k: nat)
    requires b < |f.blocks| && (b == 0 ==> at <= |f.blocks[0].insts|) && k < |Front(f, b, x, base, at)|
    ensures var i := Front(f, b, x, base, at)[k];
      i in Prologue(x, base) || exists j: nat :: j < |f.blocks[b].insts| && i == MapInst(f.blocks[b].insts[j], x, base)
  {
    hide Prologue;
    var insts := MapInsts(f.blocks[b].insts, x, base);
    var i := Front(f, b, x, base, at)[k];
    if b == 0 && at <= k {
      if k < at + |Prologue(x, base)| {
        assert i == Prologue(x, base)[k - at];
      } else {
        var j := k - |Prologue(x, base)|;
        assert i == insts[j];
      }
    } else {
      assert i == insts[k];
    }
  }

  lemma BelowMore(i: Inst, x: string, base: nat, more: nat)
    requires InstBelow(i, base) && base < more
    ensures InstBelow(MapInst(i, x, base), more)
  {
  }

  lemma NewInstsBelow(x: string, base: nat, reg: nat, more: nat)
    requires base + 2 <= more
    ensures forall i :: i in Prologue(x, base) ==> InstBelow(i, more)
    ensures base + 2 <= reg < more ==> forall i :: i in Epilogue(x, base, reg) ==> InstBelow(i, more)
  {
  }

  lemma InstIsBelow(f: Function, base: nat, i: Inst)
    requires Below(f, base) && InstOf(f, i)
    ensures InstBelow(i, base)
  {
    var b: nat, k: nat :| b < |f.blocks| && k < |f.blocks[b].insts| && f.blocks[b].insts[k] == i;
    assert BlockBelow(f.blocks[b], base);
  }

  lemma LocalInstBelow(f: Function, x: string, base: nat, at: nat, written: bool, i: Inst, more: nat)
    requires hide *; 0 < |f.blocks| && at <= |f.blocks[0].insts| && Below(f, base)
             && InstOf(Localized(f, x, base, at, written), i)
    requires more == base + 2 + (if written then ReturnsBelow(f, |f.blocks|) else 0)
    ensures InstBelow(i, more)
  {
    hide Localized, Below, InstBelow, Prologue, Epilogue, ReturnsBelow, MapInst, InstOf;
    LocalInst(f, x, base, at, written, i);
    NewInstsBelow(x, base, 0, more);
    if reg: nat :| written && base + 2 <= reg < base + 2 + ReturnsBelow(f, |f.blocks|) && i in Epilogue(x, base, reg) {
      NewInstsBelow(x, base, reg, more);
    } else if j :| InstOf(f, j) && i == MapInst(j, x, base) {
      InstIsBelow(f, base, j);
      BelowMore(j, x, base, more);
    }
  }

  lemma RestBelow(b: Block, base: nat, more: nat)
    requires hide *; BlockBelow(b, base) && base <= more
    ensures (forall k :: 0 <= k < |b.phis| ==> PhiBelow(b.phis[k], more)) && TermBelow(b.term, more)
  {
    forall k | 0 <= k < |b.phis| ensures PhiBelow(b.phis[k], more) {
      assert PhiBelow(b.phis[k], base);
    }
  }

  lemma NextBelow(p: Progress, x: string, written: bool)
    requires hide *; Proper(p) && Below(p.f, p.base) && EntryIsFirst(p.f)
    ensures Below(Next(p, x, written).f, Next(p, x, written).base) && EntryIsFirst(Next(p, x, written).f)
  {
    hide Front, InstBelow, Localized, MapInsts, PhiBelow, ReturnsBelow, TermBelow, Targets;
    var q := Next(p, x, written);
    forall b: nat | b < |q.f.blocks| ensures BlockBelow(q.f.blocks[b], q.base) && 0 !in Targets(q.f.blocks[b].term) {
      LocalShape(p.f, b, x, p.base, p.at, written);
      assert BlockBelow(p.f.blocks[b], p.base) && 0 !in Targets(p.f.blocks[b].term);
      RestBelow(p.f.blocks[b], p.base, q.base);
      forall k: nat | k < |q.f.blocks[b].insts| ensures InstBelow(q.f.blocks[b].insts[k], q.base) {
        assert InstOf(q.f, q.f.blocks[b].insts[k]);
        LocalInstBelow(p.f, x, p.base, p.at, written, q.f.blocks[b].insts[k], q.base);
      }
    }
  }

  lemma NewInstsTouch(x: string, base: nat, reg: nat, i: Inst)
    requires i in Prologue(x, base) || i in Epilogue(x, base, reg)
    ensures !i.Call? && (i.Store? && i.ptr.Global? ==> i.ptr.name == x) && forall y :: y != x ==> !Touches(i, y)
  {
  }

  /** Calls, and stores to other globals, are those of the function before. */
  lemma OldInst(f: Function, x: string, base: nat, at: nat, written: bool, i: Inst)
    requires hide *; 0 < |f.blocks| && at <= |f.blocks[0].insts| && InstOf(Localized(f, x, base, at, written), i)
    requires i.Call? || (i.Store? && i.ptr.Global? && i.ptr.name != x)
    ensures InstOf(f, i)
  {
    hide Localized, Prologue, Epilogue, ReturnsBelow, InstOf;
    LocalInst(f, x, base, at, written, i);
    if i in Prologue(x, base) {
      NewInstsTouch(x, base, 0, i);
      assert false;
    }
    if j :| InstOf(f, j) && i == MapInst(j, x, base) {
      assert i == j;
    } else {
      var reg: nat :| written && base + 2 <= reg < base + 2 + ReturnsBelow(f, |f.blocks|)
        && i in Epilogue(x, base, reg);
      NewInstsTouch(x, base, reg, i);
      assert false;
    }
  }

  lemma NextOnward(f: Function, p: Progress, done: seq<string>, x: string, written: bool)
    requires hide Below, EntryIsFirst, Next; Onward(f, p, done) && x !in done
    ensures Onward(f, Next(p, x, written), done + [x])
  {
    hide Localized, InstOf, Touches, Below, EntryIsFirst, ReturnsBelow;
    var q := Next(p, x, written);
    NextBelow(p, x, written);
    forall i | InstOf(q.f, i) && (i.Call? || (i.Store? && i.ptr.Global? && i.ptr.name !in done + [x]))
      ensures InstOf(f, i) {
      OldInst(p.f, x, p.base, p.at, written, i);
    }
    forall y, k | y !in done + [x] && 0 <= k < q.at ensures !Touches(q.f.blocks[0].insts[k], y) {
      FrontTouches(p, x, written, done, y, k);
    }
  }

  lemma FrontTouches(p: Progress, x: string, written: bool, done: seq<string>, y: string, k: nat)
    requires hide LocalBlock, Localized, ReturnsBelow, Touches; Proper(p) && y != x && k < p.at + 3
    requires forall k :: 0 <= k < p.at ==> !Touches(p.f.blocks[0].insts[k], y)
    ensures !Touches(Next(p, x, written).f.blocks[0].insts[k], y)
  {
    hide Localized, ReturnsBelow;
    LocalShape(p.f, 0, x, p.base, p.at, written);
    var front := Front(p.f, 0, x, p.base, p.at);
    var insts := MapInsts(p.f.blocks[0].insts, x, p.base);
    if k < p.at {
      assert front[k] == insts[k] == MapInst(p.f.blocks[0].insts[k], x, p.base);
      assert !Touches(p.f.blocks[0].insts[k], y);
    } else {
      assert front[k] == Prologue(x, p.base)[k - p.at];
    }
  }

  // ----- the globals of one function -----

  /** Every function that is called leaves the global alone. */
  ghost predicate Spared(f: Function, x: string, o: Callees) {
    forall i :: InstOf(f, i) && i.Call? ==> AnswerAlike(o, o, i.callee, {x}) && Keeps(o, i.callee, x)
  }

  lemma OnwardSuits(f: Function, p: Progress, done: seq<string>, x: string, written: bool, o: Callees)
    requires Onward(f, p, done) && x !in done && Spared(f, x, o) && written == Stores(f, x)
    ensures Suits(p.f, x, p.base, p.at, written, o)
  {
    hide Below, EntryIsFirst, InstBelow, AnswerAlike, Keeps;
    forall b: nat, k: nat | b < |p.f.blocks| && k < |p.f.blocks[b].insts|
      ensures Promotable(p.f.blocks[b].insts[k], x, p.base, written, o)
    {
      var i := p.f.blocks[b].insts[k];
      assert InstOf(p.f, i);
      InstIsBelow(p.f, p.base, i);
    }
  }

  /** No number is used twice, and the entry is not the target of a branch. */
  ghost predicate Wellformed(f: Function, base: nat) {
    0 < |f.blocks| && Below(f, base) && EntryIsFirst(f)
  }

  predicate Distinct(xs: seq<string>) {
    forall i, j :: 0 <= i < j < |xs| ==> xs[i] != xs[j]
  }

  /** Any number of globals that no call can see may live in slots at once. */
  lemma {:induction false} LocalizeAllIsSame(f: Function, base: nat, xs: seq<string>, written: set<string>, o: Callees)
    requires hide Below, LocalizeAll, Onward, SameCalls, Spared; Wellformed(f, base) && Distinct(xs)
    requires forall x :: x in xs ==> Spared(f, x, o) && (x in written <==> Stores(f, x))
    ensures SameCalls(f, LocalizeAll(f, base, xs, written).f, o)
    ensures Onward(f, LocalizeAll(f, base, xs, written), xs)
    decreases |xs|
  {
    hide Below, LocalBlock, Next, Onward, SameCalls, Spared, Suits, EntryIsFirst, Stores;
    if xs == [] {
      NothingDone(f, base, o);
    } else {
      var n := |xs| - 1;
      LocalizeAllIsSame(f, base, xs[..n], written, o);
      var p := LocalizeAll(f, base, xs[..n], written);
      OnwardSuits(f, p, xs[..n], xs[n], xs[n] in written, o);
      LocalSameCalls(p.f, xs[n], p.base, p.at, xs[n] in written, o);
      NextIs(p, xs[n], xs[n] in written);
      NextOnward(f, p, xs[..n], xs[n], xs[n] in written);
      assert xs == xs[..n] + [xs[n]];
      SameCallsTrans(f, p.f, LocalizeAll(f, base, xs, written).f, o);
    }
  }

  lemma NextIs(p: Progress, x: string, written: bool)
    requires hide LocalBlock, Localized, Next; Proper(p)
    ensures Next(p, x, written).f == Localized(p.f, x, p.base, p.at, written)
  {
    hide LocalBlock, Localized, ReturnsBelow;
  }

  lemma NothingDone(f: Function, base: nat, o: Callees)
    requires hide *; Wellformed(f, base)
    ensures SameCalls(f, f, o) && Onward(f, Progress(f, base, 0), [])
  {
    hide Below, Run;
  }

  // ----- the whole program -----

  /** Every function is replaced by one that makes the same calls of the old program. */
  ghost predicate Replaced(prog: Program, prog': Program, others: Callees) {
    && prog'.Keys == prog.Keys
    && forall depth: nat, steps: nat, c :: c in prog ==>
         SameCalls(prog[c], prog'[c], Oracle(prog, others, depth, steps))
  }

  ghost predicate AllAnswerAlike(o: Callees, o': Callees) {
    forall c :: AnswerAlike(o, o', c, {})
  }

  /** A program whose functions are replaced all at once answers every call alike. */
  lemma {:induction false} ReplacedAnswersAlike(prog: Program, prog': Program, others: Callees, depth: nat,
                                                steps: nat, c: string)
    requires Replaced(prog, prog', others) && AllAnswerAlike(others, others)
    ensures AnswerAlike(Oracle(prog, others, depth, steps), Oracle(prog', others, depth, steps), c, {})
    decreases depth
  {
    hide AnswerAlike, Oracle, Run, SameCalls, Replaced;
    KeysSame(prog, prog', others);
    if c !in prog {
      OthersAlike(prog, prog', others, depth, steps, c);
    } else if depth == 0 {
      CutOff(prog, prog', others, steps, c);
    } else {
      var o, o' := Oracle(prog, others, depth - 1, steps), Oracle(prog', others, depth - 1, steps);
      forall c ensures AnswerAlike(o, o', c, {}) {
        ReplacedAnswersAlike(prog, prog', others, depth - 1, steps, c);
      }
      FunctionReplaced(prog, prog', others, depth - 1, steps, c);
      AnswersFromSameCalls(prog, prog', others, depth, steps, c);
    }
  }

  lemma KeysSame(prog: Program, prog': Program, others: Callees)
    requires Replaced(prog, prog', others)
    ensures prog'.Keys == prog.Keys
  {
    hide Oracle, Run, SameCalls;
  }

  lemma FunctionReplaced(prog: Program, prog': Program, others: Callees, depth: nat, steps: nat, c: string)
    requires hide *; Replaced(prog, prog', others) && c in prog
    ensures c in prog' && SameCalls(prog[c], prog'[c], Oracle(prog, others, depth, steps))
  {
    hide Oracle, Run, SameCalls;
  }

  lemma OthersAlike(prog: Program, prog': Program, others: Callees, depth: nat, steps: nat, c: string)
    requires c !in prog && c !in prog' && AllAnswerAlike(others, others)
    ensures AnswerAlike(Oracle(prog, others, depth, steps), Oracle(prog', others, depth, steps), c, {})
  {
    hide Run;
    assert AnswerAlike(others, others, c, {});
  }

  lemma CutOff(prog: Program, prog': Program, others: Callees, steps: nat, c: string)
    requires hide *; c in prog && c in prog'
    ensures AnswerAlike(Oracle(prog, others, 0, steps), Oracle(prog', others, 0, steps), c, {})
  {
    hide Run;
  }

  lemma AnswersFromSameCalls(prog: Program, prog': Program, others: Callees, depth: nat, steps: nat, c: string)
    requires hide *; c in prog && c in prog' && depth > 0
    requires SameCalls(prog[c], prog'[c], Oracle(prog, others, depth - 1, steps))
    requires AllAnswerAlike(Oracle(prog, others, depth - 1, steps), Oracle(prog', others, depth - 1, steps))
    ensures AnswerAlike(Oracle(prog, others, depth, steps), Oracle(prog', others, depth, steps), c, {})
  {
    hide Run;
    var o, o' := Oracle(prog, others, depth - 1, steps), Oracle(prog', others, depth - 1, steps);
    var f, f' := prog[c], prog'[c];
    forall xs, w: World, w': World | Agree({}, w.globals, w'.globals)
      ensures var a, a' := Answer(prog, others, depth, steps, c, xs, w), Answer(prog', others, depth, steps, c, xs, w');
        a.0 == a'.0 && Agree({}, a.1, a'.1)
    {
      var s, s' := Start(World(w.globals, [])), Start(World(w'.globals, []));
      assert Together(Run(f, xs, o, s, steps), Run(f', xs, o, s, steps));
      RunsAgree(f', {}, o, o', xs, s, s', steps);
    }
  }

  /** Some of the globals that the summaries allow are kept in slots. */
  ghost predicate IsLocalized(f: Function, g: Function, e: Summaries) {
    exists base: nat, xs: seq<string>, written: set<string> ::
      Wellformed(f, base) && MayLocalize(f, e, xs, written) && g == LocalizeAll(f, base, xs, written).f
  }

  /** Localizing every function of a program, each for the globals that the summaries spare it, changes no call. */
  lemma LocalizedProgramAnswersAlike(prog: Program, prog': Program, d: Summaries, e: Summaries, others: Callees,
                                     depth: nat, steps: nat, c: string)
    requires hide *; Summarizes(prog, d, e) && AllAnswerAlike(others, others) && prog'.Keys == prog.Keys
    requires forall c :: c in prog ==> IsLocalized(prog[c], prog'[c], e)
    ensures AnswerAlike(Oracle(prog, others, depth, steps), Oracle(prog', others, depth, steps), c, {})
  {
    hide LocalizeAll, MayLocalize, Oracle, Run, Summarizes, Wellformed, SameCalls, AnswerAlike, AllAnswerAlike;
    forall depth: nat, steps: nat, c | c in prog
      ensures SameCalls(prog[c], prog'[c], Oracle(prog, others, depth, steps)) {
      assert IsLocalized(prog[c], prog'[c], e);
      HasEntry(prog[c], prog'[c], e);
      var base: nat, xs: seq<string>, written: set<string> :|
        Wellformed(prog[c], base) && MayLocalize(prog[c], e, xs, written)
          && prog'[c] == LocalizeAll(prog[c], base, xs, written).f;
      FunctionIsSame(prog, d, e, others, base, xs, written, depth, steps, c);
    }
    ReplacedAnswersAlike(prog, prog', others, depth, steps, c);
  }

  lemma HasEntry(f: Function, g: Function, e: Summaries)
    requires IsLocalized(f, g, e)
    ensures 0 < |f.blocks|
  {
    hide Below, EntryIsFirst, LocalizeAll, MayLocalize;
  }

  /** Every function that `f` calls spares the global. */
  ghost predicate CalleesAllSpare(f: Function, e: Summaries, x: string) {
    forall i :: InstOf(f, i) && i.Call? ==> Spares(e, i.callee, x)
  }

  /** The globals that may be kept in slots: no function called may touch them. */
  ghost predicate MayLocalize(f: Function, e: Summaries, xs: seq<string>, written: set<string>) {
    && Distinct(xs)
    && (forall x :: x in xs ==> (x in written <==> Stores(f, x)))
    && (forall x :: x in xs ==> CalleesAllSpare(f, e, x))
  }

  lemma FunctionIsSame(prog: Program, d: Summaries, e: Summaries, others: Callees, base: nat, xs: seq<string>,
                       written: set<string>,
                       depth: nat, steps: nat, c: string)
    requires hide *;
             Summarizes(prog, d, e) && c in prog && Wellformed(prog[c], base) && MayLocalize(prog[c], e, xs, written)
    ensures 0 < |prog[c].blocks|
    ensures SameCalls(prog[c], LocalizeAll(prog[c], base, xs, written).f, Oracle(prog, others, depth, steps))
  {
    hide Below, LocalizeAll, Onward, Oracle, Run, Summarizes, AnswerAlike, Keeps, Stores, InstOf, SameCalls;
    var o := Oracle(prog, others, depth, steps);
    forall x | x in xs ensures Spared(prog[c], x, o) {
      forall i | InstOf(prog[c], i) && i.Call? ensures AnswerAlike(o, o, i.callee, {x}) && Keeps(o, i.callee, x) {
        SparedIsUntouched(prog, others, d, e, depth, steps, i.callee, x);
      }
    }
    LocalizeAllIsSame(prog[c], base, xs, written, o);
  }

  // ----- the pass -----

  ghost predicate StoredBefore(f: Function, b: nat, k: nat, x: string) {
    exists b': nat, k': nat :: Earlier(b', k', b, k) && StoresAt(f, b', k', x)
  }

  predicate StoresAt(f: Function, b: nat, k: nat, x: string) {
    b < |f.blocks| && k < |f.blocks[b].insts| && f.blocks[b].insts[k].Store? && f.blocks[b].insts[k].ptr == Global(x)
  }

  lemma StoredNext(f: Function, b: nat, k: nat, x: string)
    ensures StoredBefore(f, b, k + 1, x) <==> StoredBefore(f, b, k, x) || StoresAt(f, b, k, x)
  {
    if StoredBefore(f, b, k + 1, x) {
      var b': nat, k': nat :| Earlier(b', k', b, k + 1) && StoresAt(f, b', k', x);
      assert Earlier(b', k', b, k) || (b' == b && k' == k);
    }
    if b': nat, k': nat :| Earlier(b', k', b, k) && StoresAt(f, b', k', x) {
      assert Earlier(b', k', b, k + 1);
    }
    assert Earlier(b, k, b, k + 1);
  }

  lemma StoredNextBlock(f: Function, b: nat, x: string)
    requires b < |f.blocks|
    ensures StoredBefore(f, b + 1, 0, x) <==> StoredBefore(f, b, |f.blocks[b].insts|, x)
  {
    if b': nat, k': nat :| Earlier(b', k', b + 1, 0) && StoresAt(f, b', k', x) {
      assert Earlier(b', k', b, |f.blocks[b].insts|);
    }
    if b': nat, k': nat :| Earlier(b', k', b, |f.blocks[b].insts|) && StoresAt(f, b', k', x) {
      assert Earlier(b', k', b + 1, 0);
    }
  }

  lemma AllStored(f: Function, x: string)
    ensures StoredBefore(f, |f.blocks|, 0, x) <==> Stores(f, x)
  {
    if b: nat, k: nat :| Earlier(b, k, |f.blocks|, 0) && StoresAt(f, b, k, x) {
      assert InstOf(f, f.blocks[b].insts[k]);
    }
    if Stores(f, x) {
      var i: Inst :| InstOf(f, i) && i.Store? && i.ptr == Global(x);
      var b: nat, k: nat :| b < |f.blocks| && k < |f.blocks[b].insts| && f.blocks[b].insts[k] == i;
      assert Earlier(b, k, |f.blocks|, 0) && StoresAt(f, b, k, x);
    }
  }

  method WrittenGlobals(f: Function) returns (written: set<string>)
    ensures forall x :: x in written <==> Stores(f, x)
  {
    hide StoredBefore, Stores;
    written := {};
    assert forall x :: !StoredBefore(f, 0, 0, x) by { NothingStored(f); }
    var b := 0;
    while b < |f.blocks|
      invariant 0 <= b <= |f.blocks| && forall x :: x in written <==> StoredBefore(f, b, 0, x)
    {
      var k := 0;
      while k < |f.blocks[b].insts|
        invariant 0 <= k <= |f.blocks[b].insts| && forall x :: x in written <==> StoredBefore(f, b, k, x)
      {
        forall x ensures StoredBefore(f, b, k + 1, x) <==> StoredBefore(f, b, k, x) || StoresAt(f, b, k, x) {
          StoredNext(f, b, k, x);
        }
        var i := f.blocks[b].insts[k];
        if i.Store? && i.ptr.Global? {
          written := written + {i.ptr.name};
        }
        k := k + 1;
      }
      forall x ensures StoredBefore(f, b + 1, 0, x) <==> StoredBefore(f, b, |f.blocks[b].insts|, x) {
        StoredNextBlock(f, b, x);
      }
      b := b + 1;
    }
    forall x ensures StoredBefore(f, |f.blocks|, 0, x) <==> Stores(f, x) {
      AllStored(f, x);
    }
  }

  lemma NothingStored(f: Function)
    ensures forall x :: !StoredBefore(f, 0, 0, x)
  {
  }

  ghost predicate AllSpare(callees: seq<string>, e: Summaries, x: string) {
    forall c :: c in callees ==> Spares(e, c, x)
  }

  /** Whether some callee is unknown or may call what is unknown, and what the others may touch. */
  method CalleeEffects(callees: seq<string>, e: Summaries) returns (unknown: bool, touched: set<string>)
    ensures forall x :: (!unknown && x !in touched) <==> AllSpare(callees, e, x)
  {
    unknown, touched := false, {};
    var j := 0;
    while j < |callees|
      invariant 0 <= j <= |callees|
      invariant unknown <==> exists i :: 0 <= i < j && !Known(e, callees[i])
      invariant forall x :: x in touched
                  <==> exists i :: 0 <= i < j && Known(e, callees[i]) && x in e[callees[i]].touched
    {
      if !Known(e, callees[j]) {
        unknown := true;
      } else {
        touched := touched + e[callees[j]].touched;
      }
      j := j + 1;
    }
    forall x ensures (!unknown && x !in touched) <==> AllSpare(callees, e, x) {
      if !unknown && x !in touched {
        forall c | c in callees ensures Spares(e, c, x) {
          var i :| 0 <= i < |callees| && callees[i] == c;
          assert Known(e, callees[i]);
        }
      }
      if AllSpare(callees, e, x) {
        forall i | 0 <= i < |callees| ensures Known(e, callees[i]) && x !in e[callees[i]].touched {
          assert Spares(e, callees[i], x);
        }
      }
    }
  }

  predicate Known(e: Summaries, c: string) {
    c in e && !e[c].unknown
  }

  /** One block: the loads and stores of the global go through the slot. */
  method LocalizeBlock(p: Progress, b: nat, x: string, written: bool, returnsBefore: nat) returns (blk: Block)
    requires hide LocalBlock, ReturnsBelow; Proper(p) && b < |p.f.blocks| && returnsBefore == ReturnsBelow(p.f, b)
    ensures blk == LocalBlock(p.f, b, x, p.base, p.at, written)
  {
    hide Epilogue, MapInst, MapInsts, Prologue, ReturnsBelow;
    var old_ := p.f.blocks[b];
    var insts: seq<Inst>, k := [], 0;
    while k < |old_.insts|
      invariant 0 <= k <= |old_.insts| && |insts| == k
      invariant forall j :: 0 <= j < k ==> insts[j] == MapInst(old_.insts[j], x, p.base)
    {
      insts := insts + [MapInst(old_.insts[k], x, p.base)];
      k := k + 1;
    }
    assert insts == MapInsts(old_.insts, x, p.base);
    if b == 0 {
      insts := insts[..p.at] + Prologue(x, p.base) + insts[p.at..];
    }
    if written && old_.term.Ret? {
      insts := insts + Epilogue(x, p.base, p.base + 2 + returnsBefore);
    }
    blk := Block(old_.phis, insts, old_.term);
  }

  method LocalizeOne(p: Progress, x: string, written: bool) returns (q: Progress)
    requires hide *; Proper(p)
    ensures q == Next(p, x, written)
  {
    hide LocalBlock;
    var blocks: seq<Block>, b, n := [], 0, 0;
    while b < |p.f.blocks|
      invariant 0 <= b <= |p.f.blocks| && |blocks| == b && n == ReturnsBelow(p.f, b)
      invariant forall j: nat :: j < b ==> blocks[j] == LocalBlock(p.f, j, x, p.base, p.at, written)
    {
      var blk := LocalizeBlock(p, b, x, written, n);
      blocks := blocks + [blk];
      if p.f.blocks[b].term.Ret? {
        n := n + 1;
      }
      b := b + 1;
    }
    assert blocks == Localized(p.f, x, p.base, p.at, written).blocks;
    q := Progress(Function(blocks), p.base + 2 + (if written then n else 0), p.at + 3);
  }

  // ----- what is left of the accesses -----

  /** The instructions that touch the global, in order. */
  function AccessesOf(insts: seq<Inst>, x: string): seq<Inst> {
    if insts == [] then []
    else AccessesOf(insts[..|insts| - 1], x) + if Touches(insts[|insts| - 1], x) then [insts[|insts| - 1]] else []
  }

  ghost predicate StoredBack(f: Function, b: nat, x: string)
    requires b < |f.blocks|
  {
    f.blocks[b].term.Ret? && Stores(f, x)
  }

  /** Block `b` touches the global only to load it once, in the entry, and to store it once, before a return, if the
      function stores it at all. */
  ghost predicate KeptIn(f: Function, g: Function, b: nat, x: string)
    requires b < |f.blocks| == |g.blocks|
  {
    var insts := AccessesOf(g.blocks[b].insts, x);
    && |insts| == (if b == 0 then 1 else 0) + (if StoredBack(f, b, x) then 1 else 0)
    && (b == 0 ==> insts[0].Load?) && (StoredBack(f, b, x) ==> insts[|insts| - 1].Store?)
  }

  ghost predicate IsKept(f: Function, g: Function, x: string) {
    |g.blocks| == |f.blocks| && forall b: nat :: b < |f.blocks| ==> KeptIn(f, g, b, x)
  }

  ghost predicate SameAccesses(f: Function, g: Function, x: string) {
    && |g.blocks| == |f.blocks|
    && forall b: nat :: b < |f.blocks| ==> AccessesOf(g.blocks[b].insts, x) == AccessesOf(f.blocks[b].insts, x)
  }

  lemma {:induction false} AccessesJoin(s: seq<Inst>, t: seq<Inst>, x: string)
    ensures AccessesOf(s + t, x) == AccessesOf(s, x) + AccessesOf(t, x)
  {
    hide Touches;
    if t == [] {
      assert s + t == s;
    } else {
      assert (s + t)[..|s + t| - 1] == s + t[..|t| - 1];
      AccessesJoin(s, t[..|t| - 1], x);
    }
  }

  /** Through the slot, the global is not touched, and the others are as before. */
  lemma {:induction false} AccessesMapped(insts: seq<Inst>, x: string, slot: nat, y: string)
    ensures AccessesOf(MapInsts(insts, x, slot), y) == if y == x then [] else AccessesOf(insts, y)
  {
    if insts != [] {
      var n := |insts| - 1;
      assert MapInsts(insts, x, slot)[..n] == MapInsts(insts[..n], x, slot);
      AccessesMapped(insts[..n], x, slot, y);
      var i := insts[n];
      assert Touches(MapInst(i, x, slot), y) <==> Touches(i, y) && y != x;
    }
  }

  lemma PrologueAccesses(x: string, base: nat, y: string)
    ensures AccessesOf(Prologue(x, base), y) == if y == x then [Load(base + 1, Global(x))] else []
  {
    var s := Prologue(x, base);
    assert s[..2] == [s[0], s[1]] && s[..2][..1] == [s[0]] && [s[0]][..0] == [];
    assert AccessesOf([s[0]], y) == [];
    assert AccessesOf(s[..2], y) == if y == x then [s[1]] else [];
  }

  lemma EpilogueAccesses(x: string, base: nat, reg: nat, y: string)
    ensures AccessesOf(Epilogue(x, base, reg), y) == if y == x then [Store(Global(x), Reg(reg))] else []
  {
    var s := Epilogue(x, base, reg);
    assert s[..1] == [s[0]] && [s[0]][..0] == [];
    assert AccessesOf([s[0]], y) == [];
  }

  /** One block: of the global the load and the store at the ends are left, and the others are as before. */
  lemma BlockAccesses(f: Function, b: nat, x: string, base: nat, at: nat, written: bool, y: string)
    requires b < |f.blocks| && (b == 0 ==> at <= |f.blocks[b].insts|)
    ensures var insts := AccessesOf(LocalBlock(f, b, x, base, at, written).insts, y);
      if y != x then insts == AccessesOf(f.blocks[b].insts, y)
      else insts == (if b == 0 then [Load(base + 1, Global(x))] else [])
                    + if written && f.blocks[b].term.Ret?
                      then [Store(Global(x), Reg(base + 2 + ReturnsBelow(f, b)))] else []
  {
    hide AccessesOf, MapInsts, Prologue, Epilogue, ReturnsBelow;
    var insts := MapInsts(f.blocks[b].insts, x, base);
    AccessesMapped(f.blocks[b].insts, x, base, y);
    var front := insts;
    if b == 0 {
      front := insts[..at] + Prologue(x, base) + insts[at..];
      assert insts == insts[..at] + insts[at..];
      AccessesJoin(insts[..at], insts[at..], y);
      AccessesJoin(insts[..at] + Prologue(x, base), insts[at..], y);
      AccessesJoin(insts[..at], Prologue(x, base), y);
      PrologueAccesses(x, base, y);
    }
    AccessesJoin(front, Epilogue(x, base, base + 2 + ReturnsBelow(f, b)), y);
    EpilogueAccesses(x, base, base + 2 + ReturnsBelow(f, b), y);
  }

  /** Of any number of globals. */
  ghost predicate AccessesMoved(f: Function, g: Function, xs: seq<string>) {
    && |g.blocks| == |f.blocks| && (forall b: nat :: b < |f.blocks| ==> g.blocks[b].term == f.blocks[b].term)
    && forall x :: if x in xs then IsKept(f, g, x) else SameAccesses(f, g, x)
  }

  lemma NextAccesses(f: Function, p: Progress, done: seq<string>, x: string, written: bool)
    requires hide *; Proper(p) && AccessesMoved(f, p.f, done) && x !in done && (written <==> Stores(f, x))
    ensures AccessesMoved(f, Next(p, x, written).f, done + [x])
  {
    hide AccessesOf, LocalBlock, Localized, ReturnsBelow, Stores;
    var g, h := p.f, Next(p, x, written).f;
    assert h == Localized(g, x, p.base, p.at, written);
    forall b: nat | b < |f.blocks| ensures h.blocks[b].term == f.blocks[b].term {
      LocalBlockTerm(g, b, x, p.base, p.at, written);
    }
    forall y ensures if y in done + [x] then IsKept(f, h, y) else SameAccesses(f, h, y) {
      forall b: nat | b < |f.blocks|
        ensures if y in done + [x] then KeptIn(f, h, b, y)
                else AccessesOf(h.blocks[b].insts, y) == AccessesOf(f.blocks[b].insts, y)
      {
        BlockAccesses(g, b, x, p.base, p.at, written, y);
        if y in done {
          assert KeptIn(f, g, b, y);
        }
      }
    }
  }

  lemma LocalBlockTerm(f: Function, b: nat, x: string, base: nat, at: nat, written: bool)
    requires hide *; b < |f.blocks| && (b == 0 ==> at <= |f.blocks[b].insts|)
    ensures LocalBlock(f, b, x, base, at, written).term == f.blocks[b].term
  {
    hide MapInsts, Prologue, Epilogue, ReturnsBelow;
  }

  lemma {:induction false} AllAccesses(f: Function, base: nat, xs: seq<string>, written: set<string>)
    requires hide *; 0 < |f.blocks| && Distinct(xs) && forall x :: x in xs ==> (x in written <==> Stores(f, x))
    ensures AccessesMoved(f, LocalizeAll(f, base, xs, written).f, xs)
  {
    hide AccessesMoved, Stores, Next, Proper;
    if xs == [] {
      NothingMovedYet(f);
    } else {
      var n := |xs| - 1;
      AllAccesses(f, base, xs[..n], written);
      NextAccesses(f, LocalizeAll(f, base, xs[..n], written), xs[..n], xs[n], xs[n] in written);
      assert xs[..n] + [xs[n]] == xs;
    }
  }

  lemma NothingMovedYet(f: Function)
    ensures AccessesMoved(f, f, [])
  {
  }

  /** Every accessed global that all callees spare is kept, and the accesses to the others are as before. */
  ghost predicate AccessesAreLocal(f: Function, g: Function, e: Summaries) {
    forall x :: if Accesses(f, x) && CalleesAllSpare(f, e, x) then IsKept(f, g, x) else SameAccesses(f, g, x)
  }

  lemma ChosenAreLocal(f: Function, g: Function, e: Summaries, xs: seq<string>)
    requires AccessesMoved(f, g, xs) && forall x :: x in xs <==> Accesses(f, x) && CalleesAllSpare(f, e, x)
    ensures AccessesAreLocal(f, g, e)
  {
    hide IsKept, SameAccesses, Accesses, CalleesAllSpare;
  }

  // ----- chains of calls -----

  /** Each function of the program calls the next one of the chain. */
  ghost predicate CallChain(prog: Program, path: seq<string>) {
    path != [] && forall i :: 0 <= i < |path| - 1 ==> path[i] in prog && Calls(prog[path[i]], path[i + 1])
  }

  /** Some chain of calls from the function ends in one that touches the global, or outside the program. */
  ghost predicate CallsMayTouch(prog: Program, c: string, x: string) {
    exists path: seq<string> ::
      && |path| > 1 && path[0] == c && CallChain(prog, path)
      && (path[|path| - 1] in prog ==> Accesses(prog[path[|path| - 1]], x))
  }

  ghost predicate Describe(prog: Program, d: Summaries) {
    d.Keys == prog.Keys && forall c :: c in prog ==> IsDirect(prog[c], prog.Keys, d[c])
  }

  lemma DescribeCalls(prog: Program, d: Summaries, c: string, c': string)
    requires Describe(prog, d) && c in prog
    ensures Calls(prog[c], c') <==> c' in d[c].callees
    ensures d[c].unknown <==> exists h :: h in d[c].callees && h !in prog
  {
    hide Calls, Accesses;
    assert IsDirect(prog[c], prog.Keys, d[c]);
  }

  lemma DescribeAccesses(prog: Program, d: Summaries, c: string, x: string)
    requires Describe(prog, d) && c in prog
    ensures Accesses(prog[c], x) <==> x in d[c].touched
  {
    hide Calls, Accesses;
    assert IsDirect(prog[c], prog.Keys, d[c]);
  }

  lemma {:induction false} ChainIsCallChain(prog: Program, d: Summaries, path: seq<string>)
    requires hide *; Describe(prog, d) && path != []
    ensures Chain(d, path) <==> CallChain(prog, path) && path[|path| - 1] in prog
  {
    hide Describe, Calls;
    DescribeKeys(prog, d);
    if |path| > 1 {
      ChainIsCallChain(prog, d, path[1..]);
      if path[0] in prog {
        DescribeCalls(prog, d, path[0], path[1]);
      }
      CallChainRest(prog, path);
    }
  }

  lemma DescribeKeys(prog: Program, d: Summaries)
    requires Describe(prog, d)
    ensures d.Keys == prog.Keys
  {
    hide IsDirect;
  }

  lemma CallChainRest(prog: Program, path: seq<string>)
    requires |path| > 1
    ensures CallChain(prog, path) <==>
              path[0] in prog && Calls(prog[path[0]], path[1]) && CallChain(prog, path[1..])
  {
    hide Calls;
    var rest := path[1..];
    if CallChain(prog, rest) && path[0] in prog && Calls(prog[path[0]], path[1]) {
      forall i | 0 <= i < |path| - 1 ensures path[i] in prog && Calls(prog[path[i]], path[i + 1]) {
        assert i > 0 ==> rest[i - 1] == path[i] && rest[i] == path[i + 1];
      }
    }
    if CallChain(prog, path) {
      forall i | 0 <= i < |rest| - 1 ensures rest[i] in prog && Calls(prog[rest[i]], rest[i + 1]) {
        assert rest[i] == path[i + 1] && rest[i + 1] == path[i + 2];
      }
    }
  }

  ghost predicate Exact(d: Summaries, e: Summaries) {
    && e.Keys == d.Keys
    && (forall f, x :: f in d ==> (x in e[f].touched <==> MayTouch(d, f, x)))
    && (forall f :: f in d ==> (e[f].unknown <==> MayEscape(d, f)))
  }

  /** What the calls of a function may touch is what some callee does not spare. */
  lemma SparedIffNoChain(prog: Program, d: Summaries, e: Summaries, c: string, x: string)
    requires hide *; Describe(prog, d) && Exact(d, e) && c in prog
    ensures CalleesAllSpare(prog[c], e, x) <==> !CallsMayTouch(prog, c, x)
  {
    hide Accesses, CallChain, Calls, Describe, Exact, InstOf, Spares;
    if path: seq<string> :| |path| > 1 && path[0] == c && CallChain(prog, path)
                            && (path[|path| - 1] in prog ==> Accesses(prog[path[|path| - 1]], x)) {
      CallChainRest(prog, path);
      var i := CallOf(prog[c], path[1]);
      ChainIsNotSpared(prog, d, e, path[1..], x);
    }
    if !CalleesAllSpare(prog[c], e, x) {
      var i :| InstOf(prog[c], i) && i.Call? && !Spares(e, i.callee, x);
      CalledBy(prog[c], i);
      var rest := NotSparedHasChain(prog, d, e, i.callee, x);
      var path := [c] + rest;
      assert path[1..] == rest;
      CallChainRest(prog, path);
    }
  }

  lemma CallOf(f: Function, c: string) returns (i: Inst)
    requires Calls(f, c)
    ensures InstOf(f, i) && i.Call? && i.callee == c
  {
    var b: nat, k: nat :| b < |f.blocks| && k < |f.blocks[b].insts| && f.blocks[b].insts[k].Call?
      && f.blocks[b].insts[k].callee == c;
    i := f.blocks[b].insts[k];
  }

  lemma CalledBy(f: Function, i: Inst)
    requires InstOf(f, i) && i.Call?
    ensures Calls(f, i.callee)
  {
    var b: nat, k: nat :| b < |f.blocks| && k < |f.blocks[b].insts| && f.blocks[b].insts[k] == i;
  }

  /** A chain that ends outside, or where the global is touched, begins with a function that does not spare it. */
  lemma ChainIsNotSpared(prog: Program, d: Summaries, e: Summaries, path: seq<string>, x: string)
    requires hide Accesses, Calls, Describe, Exact, Spares; Describe(prog, d) && Exact(d, e) && CallChain(prog, path)
    requires path[|path| - 1] in prog ==> Accesses(prog[path[|path| - 1]], x)
    ensures !Spares(e, path[0], x)
  {
    hide Describe, Chain, Calls, Accesses, CallChain;
    DescribeKeys(prog, d);
    CallChainIsNotEmpty(prog, path);
    var n := |path| - 1;
    if path[n] in prog {
      ChainIsCallChain(prog, d, path);
      DescribeAccesses(prog, d, path[n], x);
      assert Reaches(d, path[0], path[n]);
      assert MayTouch(d, path[0], x);
    } else if n > 0 {
      CallChainFront(prog, path);
      ChainIsCallChain(prog, d, path[..n]);
      DescribeCalls(prog, d, path[n - 1], path[n]);
      assert Reaches(d, path[0], path[n - 1]);
      assert MayEscape(d, path[0]);
    }
  }

  lemma CallChainIsNotEmpty(prog: Program, path: seq<string>)
    requires CallChain(prog, path)
    ensures path != []
  {
  }

  lemma CallChainFront(prog: Program, path: seq<string>)
    requires CallChain(prog, path) && |path| > 1
    ensures var n := |path| - 1;
      CallChain(prog, path[..n]) && path[n - 1] in prog && Calls(prog[path[n - 1]], path[n])
  {
    hide Calls;
  }

  lemma CallChainEnd(prog: Program, path: seq<string>, c: string)
    requires path != [] && CallChain(prog, path) && path[|path| - 1] in prog && Calls(prog[path[|path| - 1]], c)
    ensures CallChain(prog, path + [c])
  {
    hide Calls;
  }

  lemma ReachedBy(prog: Program, d: Summaries, c: string, h: string) returns (path: seq<string>)
    requires hide *; Describe(prog, d) && Reaches(d, c, h)
    ensures path != [] && CallChain(prog, path) && path[0] == c && path[|path| - 1] == h
  {
    hide Describe, CallChain;
    path :| Chain(d, path) && path[0] == c && path[|path| - 1] == h;
    ChainIsCallChain(prog, d, path);
  }

  lemma EscapesThrough(prog: Program, d: Summaries, h: string) returns (out: string)
    requires Describe(prog, d) && h in prog && d[h].unknown
    ensures out !in prog && Calls(prog[h], out)
  {
    hide Describe, Calls;
    DescribeKeys(prog, d);
    DescribeCalls(prog, d, h, h);
    out :| out in d[h].callees && out !in prog;
    DescribeCalls(prog, d, h, out);
  }

  lemma NotSparedHasChain(prog: Program, d: Summaries, e: Summaries, c: string, x: string) returns (path: seq<string>)
    requires hide *; Describe(prog, d) && Exact(d, e) && !Spares(e, c, x)
    ensures path != [] && CallChain(prog, path) && path[0] == c
    ensures path[|path| - 1] in prog ==> Accesses(prog[path[|path| - 1]], x)
  {
    hide Describe, Reaches, CallChain, Calls, Accesses;
    DescribeKeys(prog, d);
    if c !in prog {
      path := [c];
      OneCallChain(prog, c);
    } else if MayTouch(d, c, x) {
      var h :| h in d && Reaches(d, c, h) && x in d[h].touched;
      path := ReachedBy(prog, d, c, h);
      DescribeAccesses(prog, d, h, x);
    } else {
      var h :| h in d && Reaches(d, c, h) && d[h].unknown;
      var front := ReachedBy(prog, d, c, h);
      var out := EscapesThrough(prog, d, h);
      CallChainEnd(prog, front, out);
      path := front + [out];
    }
  }

  lemma OneCallChain(prog: Program, c: string)
    ensures CallChain(prog, [c])
  {
  }

  /** In every function, each accessed global that no chain of calls may touch is loaded once in the entry and, if it
      is stored, stored once before each return; the accesses to the other globals are as before. */
  ghost predicate GlobalsAreLocal(prog: Program, prog': Program) {
    forall c, x :: c in prog && c in prog' ==>
      if Accesses(prog[c], x) && !CallsMayTouch(prog, c, x) then IsKept(prog[c], prog'[c], x)
      else SameAccesses(prog[c], prog'[c], x)
  }

  lemma PassLocalizes(prog: Program, prog': Program, d: Summaries, e: Summaries)
    requires hide *; Describe(prog, d) && Exact(d, e) && prog'.Keys == prog.Keys
    requires forall c :: c in prog ==> AccessesAreLocal(prog[c], prog'[c], e)
    ensures GlobalsAreLocal(prog, prog')
  {
    hide Describe, Exact, IsKept, SameAccesses, Accesses, CalleesAllSpare, CallsMayTouch;
    forall c, x | c in prog && c in prog'
      ensures if Accesses(prog[c], x) && !CallsMayTouch(prog, c, x) then IsKept(prog[c], prog'[c], x)
              else SameAccesses(prog[c], prog'[c], x)
    {
      SparedIffNoChain(prog, d, e, c, x);
      assert AccessesAreLocal(prog[c], prog'[c], e);
    }
  }

  /** Every accessed global that all callees spare is kept in a slot, in the order in which the globals are visited. */
  method LocalizeFunction(f: Function, base: nat, e: Summaries, order: seq<string>) returns (g: Function,
      ghost chosen: seq<string>)
    requires hide AccessesAreLocal, Below, CalleesAllSpare, LocalizeAll, MayLocalize;
             Wellformed(f, base) && Distinct(order) && forall x :: x in order <==> Accesses(f, x)
    ensures IsLocalized(f, g, e) && AccessesAreLocal(f, g, e)
    ensures exists written :: MayLocalize(f, e, chosen, written) && g == LocalizeAll(f, base, chosen, written).f
    ensures forall x :: x in chosen <==> Accesses(f, x) && CalleesAllSpare(f, e, x)
  {
    hide IsKept, LocalBlock, Localized, Next, SameAccesses, Wellformed, Accesses, Stores, Spares, AccessesAreLocal,
         AccessesMoved;
    var direct := Direct(f, {});
    var unknown, touched := CalleeEffects(direct.callees, e);
    var written := WrittenGlobals(f);
    CalleesAre(f, {}, direct);
    assert 0 < |f.blocks| by { EntryOf(f, base); }
    var p := Progress(f, base, 0);
    chosen := [];
    var n := 0;
    while n < |order|
      invariant 0 <= n <= |order| && p == LocalizeAll(f, base, chosen, written) && Distinct(chosen)
      invariant forall x :: x in chosen <==> x in order[..n] && !unknown && x !in touched
    {
      var x := order[n];
      assert x !in order[..n];
      if !unknown && x !in touched {
        p := LocalizeOne(p, x, x in written);
        assert (chosen + [x])[..|chosen|] == chosen;
        chosen := chosen + [x];
      }
      n := n + 1;
    }
    assert order[..n] == order;
    g := p.f;
    forall x ensures (!unknown && x !in touched) <==> CalleesAllSpare(f, e, x) {
      SparesAll(f, direct.callees, e, x);
    }
    assert MayLocalize(f, e, chosen, written);
    AllAccesses(f, base, chosen, written);
    ChosenAreLocal(f, g, e, chosen);
  }

  lemma EntryOf(f: Function, base: nat)
    requires Wellformed(f, base)
    ensures 0 < |f.blocks|
  {
    hide Below, EntryIsFirst;
  }

  lemma CalleesAre(f: Function, known: set<string>, d: Effect)
    requires IsDirect(f, known, d)
    ensures forall c :: c in d.callees <==> Calls(f, c)
  {
  }

  lemma SparesAll(f: Function, callees: seq<string>, e: Summaries, x: string)
    requires forall c :: c in callees <==> Calls(f, c)
    ensures AllSpare(callees, e, x) <==> CalleesAllSpare(f, e, x)
  {
    hide Spares;
    if AllSpare(callees, e, x) {
      forall i | InstOf(f, i) && i.Call? ensures Spares(e, i.callee, x) {
        var b: nat, k: nat :| b < |f.blocks| && k < |f.blocks[b].insts| && f.blocks[b].insts[k] == i;
        assert Calls(f, i.callee);
      }
    }
    if CalleesAllSpare(f, e, x) {
      forall c | c in callees ensures Spares(e, c, x) {
        assert Calls(f, c);
        var b: nat, k: nat :| b < |f.blocks| && k < |f.blocks[b].insts| && f.blocks[b].insts[k].Call?
          && f.blocks[b].insts[k].callee == c;
        assert InstOf(f, f.blocks[b].insts[k]);
      }
    }
  }

  /** The effects of all functions, calls not followed. */
  method Collect(prog: Program, names: seq<string>) returns (d: Summaries)
    requires hide *; forall c :: c in names <==> c in prog
    ensures d.Keys == prog.Keys && forall c :: c in prog ==> IsDirect(prog[c], prog.Keys, d[c])
  {
    hide IsDirect;
    d := map[];
    var n := 0;
    while n < |names|
      invariant 0 <= n <= |names| && forall c :: c in d <==> c in names[..n]
      invariant forall c :: c in d ==> c in prog && IsDirect(prog[c], prog.Keys, d[c])
    {
      var effect := Direct(prog[names[n]], prog.Keys);
      d := d[names[n] := effect];
      n := n + 1;
    }
    assert names[..n] == names;
  }

  /** The functions of the first `n` names are in the new program. */
  ghost predicate Handled(prog: Program, prog': Program, names: seq<string>, n: nat, e: Summaries)
    requires hide *; n <= |names|
  {
    && (forall c :: c in prog' <==> c in names[..n])
    && forall c :: c in prog' ==>
         c in prog && IsLocalized(prog[c], prog'[c], e) && AccessesAreLocal(prog[c], prog'[c], e)
  }

  lemma NothingHandled(prog: Program, names: seq<string>, e: Summaries)
    ensures hide *; Handled(prog, map[], names, 0, e)
  {
  }

  lemma HandledNext(prog: Program, before: Program, after: Program, names: seq<string>, n: nat, e: Summaries)
    requires hide *; n < |names| && Handled(prog, before, names, n, e) && names[n] in prog
    requires after.Keys == before.Keys + {names[n]}
    requires IsLocalized(prog[names[n]], after[names[n]], e) && AccessesAreLocal(prog[names[n]], after[names[n]], e)
    requires forall c :: c in before && c != names[n] ==> after[c] == before[c]
    ensures Handled(prog, after, names, n + 1, e)
  {
    hide IsLocalized, AccessesAreLocal;
    assert names[..n + 1] == names[..n] + [names[n]];
  }

  lemma HandledAll(prog: Program, prog': Program, names: seq<string>, e: Summaries)
    requires hide *; Handled(prog, prog', names, |names|, e) && forall c :: c in names <==> c in prog
    ensures prog'.Keys == prog.Keys
    ensures forall c :: c in prog ==> IsLocalized(prog[c], prog'[c], e) && AccessesAreLocal(prog[c], prog'[c], e)
  {
    hide IsLocalized, AccessesAreLocal;
    assert names[..|names|] == names;
  }

  method LocalizeNext(prog: Program, before: Program, c: string, base: map<string, nat>, orders: map<string,
                      seq<string>>, e: Summaries)
    returns (after: Program)
    requires hide *; c in prog && base.Keys == orders.Keys == prog.Keys
    requires Wellformed(prog[c], base[c]) && Distinct(orders[c]) && forall x :: x in orders[c] <==> Accesses(prog[c], x)
    ensures after.Keys == before.Keys + {c} && IsLocalized(prog[c], after[c], e)
    ensures AccessesAreLocal(prog[c], after[c], e)
    ensures forall c' :: c' in before && c' != c ==> after[c'] == before[c']
  {
    hide *;
    var g, chosen := LocalizeFunction(prog[c], base[c], e, orders[c]);
    after := before[c := g];
  }

  /** The whole pass: the globals that can be are kept in slots, and no call is answered differently, whatever the
      functions outside the program do. */
  method LocalizeGlobals(prog: Program, names: seq<string>, base: map<string, nat>, orders: map<string, seq<string>>)
    returns (prog': Program)
    requires hide *; (forall c :: c in names <==> c in prog) && base.Keys == orders.Keys == prog.Keys && Distinct(names)
    requires forall c :: c in prog ==> Wellformed(prog[c], base[c]) && Distinct(orders[c])
    requires forall c, x :: c in prog ==> (x in orders[c] <==> Accesses(prog[c], x))
    ensures prog'.Keys == prog.Keys
    ensures ProgramsAnswerAlike(prog, prog') && GlobalsAreLocal(prog, prog')
  {
    hide *;
    var d := Collect(prog, names);
    var e := Summarize(d, names);
    prog' := map[];
    var n := 0;
    NothingHandled(prog, names, e);
    while n < |names|
      invariant 0 <= n <= |names| && Handled(prog, prog', names, n, e)
    {
      ghost var before := prog';
      assert names[n] in names;
      prog' := LocalizeNext(prog, prog', names[n], base, orders, e);
      HandledNext(prog, before, prog', names, n, e);
      n := n + 1;
    }
    HandledAll(prog, prog', names, e);
    PassIsSound(prog, prog', d, e);
    DescribeIf(prog, d);
    ExactIf(d, e);
    PassLocalizes(prog, prog', d, e);
  }

  lemma DescribeIf(prog: Program, d: Summaries)
    requires hide *; d.Keys == prog.Keys && forall c :: c in prog ==> IsDirect(prog[c], prog.Keys, d[c])
    ensures Describe(prog, d)
  {
    hide IsDirect;
  }

  lemma ExactIf(d: Summaries, e: Summaries)
    requires e.Keys == d.Keys && (forall f, x :: f in d ==> (x in e[f].touched <==> MayTouch(d, f, x)))
    requires forall f :: f in d ==> (e[f].unknown <==> MayEscape(d, f))
    ensures Exact(d, e)
  {
    hide MayTouch, MayEscape;
  }

  /** Calls of the two programs are answered alike, whatever the functions outside do. */
  ghost predicate ProgramsAnswerAlike(prog: Program, prog': Program) {
    forall others, depth: nat, steps: nat, c :: AllAnswerAlike(others, others) ==>
      AnswerAlike(Oracle(prog, others, depth, steps), Oracle(prog', others, depth, steps), c, {})
  }

  lemma PassIsSound(prog: Program, prog': Program, d: Summaries, e: Summaries)
    requires hide *; d.Keys == prog.Keys == prog'.Keys && Closed(d, e)
    requires forall c :: c in prog ==> IsDirect(prog[c], prog.Keys, d[c])
    requires forall c :: c in prog ==> IsLocalized(prog[c], prog'[c], e)
    ensures ProgramsAnswerAlike(prog, prog')
  {
    hide IsLocalized, IsDirect, AnswerAlike, AllAnswerAlike, Closed, Oracle;
    forall others, depth: nat, steps: nat, c | AllAnswerAlike(others, others)
      ensures AnswerAlike(Oracle(prog, others, depth, steps), Oracle(prog', others, depth, steps), c, {})
    {
      LocalizedProgramAnswersAlike(prog, prog', d, e, others, depth, steps, c);
    }
  }
}
