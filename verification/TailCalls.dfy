/** Self-calls in tail position turned into a loop over parameter phis. */
module TailCalls {
  import opened Int32
  import opened Graphs
  import opened Ir
  import opened Ssa
  import opened SsaForm
  import opened Runs
  import opened Numbers

  /** A function with its name, its number of parameters and whether it returns a value. */
  datatype Subject = Subject(f: Function, name: string, params: nat, returnsInt: bool)

  /** The block ends in a self-call whose result, if any, is returned at once. */
  predicate IsSite(t: Subject, b: nat) {
    && b < |t.f.blocks| && |t.f.blocks[b].insts| > 0
    && var last := t.f.blocks[b].insts[|t.f.blocks[b].insts| - 1];
       && last.Call? && last.callee == t.name && |last.args| == t.params
       && t.f.blocks[b].term == Ret(if t.returnsInt then Some(Reg(last.dst)) else None)
  }

  function TailCall(t: Subject, b: nat): (i: Inst)
    requires IsSite(t, b)
    ensures i.Call? && |i.args| == t.params
  {
    t.f.blocks[b].insts[|t.f.blocks[b].insts| - 1]
  }

  // ----- the loop -----

  function MapOperand(v: Operand, base: nat, params: nat): Operand {
    if v.Param? && v.index < params then Reg(base + v.index) else v
  }

  function MapOperands(vs: seq<Operand>, base: nat, params: nat): (r: seq<Operand>)
    ensures |r| == |vs| && forall i :: 0 <= i < |vs| ==> r[i] == MapOperand(vs[i], base, params)
  {
    seq(|vs|, i requires 0 <= i < |vs| => MapOperand(vs[i], base, params))
  }

  function MapInst(i: Inst, base: nat, params: nat): Inst {
    match i
    case Binary(d, op, x, y) => Binary(d, op, MapOperand(x, base, params), MapOperand(y, base, params))
    case Unary(d, op, x) => Unary(d, op, MapOperand(x, base, params))
    case Alloca(_) => i
    case Load(_, _) => i
    case Store(p, x) => Store(p, MapOperand(x, base, params))
    case Call(d, c, xs) => Call(d, c, MapOperands(xs, base, params))
  }

  function MapInsts(insts: seq<Inst>, base: nat, params: nat): (r: seq<Inst>)
    ensures |r| == |insts| && forall i :: 0 <= i < |insts| ==> r[i] == MapInst(insts[i], base, params)
  {
    seq(|insts|, i requires 0 <= i < |insts| => MapInst(insts[i], base, params))
  }

  /** Every block moves up by one, to make room for the new entry. */
  function MapTerm(t: Terminator, base: nat, params: nat): Terminator {
    match t
    case Br(b) => Br(b + 1)
    case CondBr(c, b1, b2) => CondBr(MapOperand(c, base, params), b1 + 1, b2 + 1)
    case Ret(Some(v)) => Ret(Some(MapOperand(v, base, params)))
    case Ret(None) => t
  }

  function MapIncoming(inc: seq<(Operand, nat)>, base: nat, params: nat): (r: seq<(Operand, nat)>)
    ensures |r| == |inc| && forall i :: 0 <= i < |inc| ==> r[i] == (MapOperand(inc[i].0, base, params), inc[i].1 + 1)
  {
    seq(|inc|, i requires 0 <= i < |inc| => (MapOperand(inc[i].0, base, params), inc[i].1 + 1))
  }

  function MapPhis(phis: seq<Phi>, base: nat, params: nat): (r: seq<Phi>)
    ensures |r| == |phis|
    ensures forall i :: 0 <= i < |phis| ==> r[i] == Phi(phis[i].dst, MapIncoming(phis[i].incoming, base, params))
  {
    seq(|phis|, i requires 0 <= i < |phis| => Phi(phis[i].dst, MapIncoming(phis[i].incoming, base, params)))
  }

  /** The sites among the first `n` blocks. */
  function SitesBelow(t: Subject, n: nat): (s: seq<nat>)
    ensures forall i :: 0 <= i < |s| ==> IsSite(t, s[i])
  {
    if n == 0 then [] else SitesBelow(t, n - 1) + if IsSite(t, n - 1) then [n - 1] else []
  }

  /** What parameter `i` receives: the argument on entry, and the operand of the call from every site. */
  function ParamIncoming(t: Subject, base: nat, i: nat, sites: seq<nat>): seq<(Operand, nat)>
    requires i < t.params && forall j :: 0 <= j < |sites| ==> IsSite(t, sites[j])
  {
    [(Param(i), 0)] + seq(|sites|, j requires 0 <= j < |sites| =>
                            (MapOperand(TailCall(t, sites[j]).args[i], base, t.params), sites[j] + 1))
  }

  function ParamPhis(t: Subject, base: nat): (r: seq<Phi>)
    ensures |r| == t.params
    ensures forall i :: 0 <= i < t.params ==>
              r[i] == Phi(base + i, ParamIncoming(t, base, i, SitesBelow(t, |t.f.blocks|)))
  {
    seq(t.params, i requires 0 <= i < t.params => Phi(base + i, ParamIncoming(t, base, i, SitesBelow(t, |t.f.blocks|))))
  }

  function LoopBlock(t: Subject, base: nat, b: nat): Block
    requires b < |t.f.blocks|
  {
    var blk := t.f.blocks[b];
    var phis := if b == 0 then ParamPhis(t, base) else MapPhis(blk.phis, base, t.params);
    if IsSite(t, b) then Block(phis, MapInsts(blk.insts[..|blk.insts| - 1], base, t.params), Br(1))
    else Block(phis, MapInsts(blk.insts, base, t.params), MapTerm(blk.term, base, t.params))
  }

  function Looped(t: Subject, base: nat): (g: Function)
    ensures |g.blocks| == |t.f.blocks| + 1
    ensures forall b: nat :: b < |t.f.blocks| ==> g.blocks[b + 1] == LoopBlock(t, base, b)
  {
    Function([Block([], [], Br(1))] + seq(|t.f.blocks|, b requires 0 <= b < |t.f.blocks| => LoopBlock(t, base, b)))
  }

  // ----- recursion -----

  /** A function in strict form without stack slots, and registers from `base` on that it does not use. */
  ghost predicate Suitable(t: Subject, base: nat) {
    && Strict(t.f)
    && (forall p, r: nat :: Sets(t.f, p, r) ==> r < base)
    && (forall b: nat, k: nat :: b < |t.f.blocks| && k < |t.f.blocks[b].insts| ==> NoSlot(t.f.blocks[b].insts[k]))
  }

  predicate NoSlot(i: Inst) {
    match i
    case Load(_, Slot(_)) => false
    case Store(Slot(_), _) => false
    case _ => true
  }

  /** The frame before the last instruction of a block. */
  function BeforeLast(t: Subject, args: seq<i32>, callees: Callees, c: Config): Frame
    requires c.At? && IsSite(t, c.block)
  {
    Inside(t.f, args, callees, c.prev, c.block, |t.f.blocks[c.block].insts| - 1, c.frame)
  }

  function TailArgs(t: Subject, args: seq<i32>, callees: Callees, c: Config): (r: seq<i32>)
    requires c.At? && IsSite(t, c.block)
    ensures |r| == t.params
  {
    EvalAll(TailCall(t, c.block).args, args, BeforeLast(t, args, callees, c).regs)
  }

  /** After `n` blocks the activation is in its last block, which is not a site. */
  ghost predicate EndsItself(t: Subject, args: seq<i32>, callees: Callees, globals: map<string, i32>, n: nat,
                             result: Option<i32>, globals': map<string, i32>)
  {
    var c := Run(t.f, args, callees, Start(World(globals, [])), n);
    && c.At? && !IsSite(t, c.block)
    && var d := RunBlock(t.f, args, callees, c); d.Done? && d.result == result && d.world.globals == globals'
  }

  /** After `n` blocks the activation is at a site. */
  ghost predicate EndsInCall(t: Subject, args: seq<i32>, callees: Callees, globals: map<string, i32>, n: nat,
                             c: Config) {
    c == Run(t.f, args, callees, Start(World(globals, [])), n) && c.At? && IsSite(t, c.block)
  }

  /** A call returns after at most `depth` nested tail calls. Other calls, to itself or not, are left to `callees`. */
  ghost predicate Returns(t: Subject, args: seq<i32>, callees: Callees, globals: map<string, i32>, depth: nat,
                          result: Option<i32>, globals': map<string, i32>)
    decreases depth
  {
    || (exists n: nat :: EndsItself(t, args, callees, globals, n, result, globals'))
    || (depth > 0 && exists n: nat, c: Config :: EndsInCall(t, args, callees, globals, n, c)
                       && Returns(t, TailArgs(t, args, callees, c), callees,
                                  BeforeLast(t, args, callees, c).world.globals, depth - 1, result, globals'))
  }

  /** The other activations of the function do what the function does. */
  ghost predicate Faithful(t: Subject, callees: Callees) {
    forall args: seq<i32>, w: World, depth: nat, result, globals' ::
      |args| == t.params && Returns(t, args, callees, w.globals, depth, result, globals') ==>
        callees(t.name, args, w).1 == globals' && (result.Some? ==> callees(t.name, args, w).0 == result.value)
  }

  // ----- one activation inside the loop -----

  /** The loop holds the arguments in the parameter phis, and everything that is ready in the activation. */
  ghost predicate Related(t: Subject, base: nat, args: seq<i32>, b: nat, k: nat, s: Frame, s': Frame) {
    && (forall r: nat :: Ready(t.f, b, k, Reg(r)) ==> Get(s'.regs, r) == Get(s.regs, r))
    && |args| == t.params && (forall i: nat :: i < t.params ==> Get(s'.regs, base + i) == args[i])
    && s'.world.globals == s.world.globals
  }

  lemma MappedOperand(t: Subject, base: nat, args: seq<i32>, outer: seq<i32>, b: nat, k: nat, s: Frame, s': Frame,
                      v: Operand)
    requires |args| == |outer| == t.params && Related(t, base, args, b, k, s, s') && Ready(t.f, b, k, v)
    ensures Eval(MapOperand(v, base, t.params), outer, s'.regs) == Eval(v, args, s.regs)
  {
    hide Ready;
  }

  lemma RelatedStep(t: Subject, base: nat, args: seq<i32>, outer: seq<i32>, callees: Callees, b: nat, k: nat,
                    s: Frame, s': Frame)
    requires hide *; |args| == |outer| == t.params && Suitable(t, base) && GlobalsOnly(callees)
    requires b < |t.f.blocks| && k < |t.f.blocks[b].insts| && Related(t, base, args, b, k, s, s')
    ensures Related(t, base, args, b, k + 1, Step(t.f.blocks[b].insts[k], args, callees, s),
                    Step(MapInst(t.f.blocks[b].insts[k], base, t.params), outer, callees, s'))
  {
    var i := t.f.blocks[b].insts[k];
    var i' := MapInst(i, base, t.params);
    assert NoSlot(i) && AllReady(t.f, b, k, Uses(i));
    forall v | v in Uses(i)
      ensures Eval(MapOperand(v, base, t.params), outer, s'.regs) == Eval(v, args, s.regs)
    {
      MappedOperand(t, base, args, outer, b, k, s, s', v);
    }
    SameEffect(i, base, t.params, args, outer, callees, s, s');
    var next, next' := Step(i, args, callees, s), Step(i', outer, callees, s');
    if Dst(i).Some? {
      assert Sets(t.f, InstPlace(b, k), Dst(i).value);
    }
    forall r: nat | Ready(t.f, b, k + 1, Reg(r))
      ensures Get(next'.regs, r) == Get(next.regs, r)
    {
      ReadyNext(t.f, b, k, r);
    }
  }

  /** What an instruction writes, when all its operands agree. */
  lemma SameEffect(i: Inst, base: nat, n: nat, args: seq<i32>, outer: seq<i32>, callees: Callees, s: Frame, s': Frame)
    requires hide *; NoSlot(i) && GlobalsOnly(callees) && s'.world.globals == s.world.globals
    requires forall v :: v in Uses(i) ==> Eval(MapOperand(v, base, n), outer, s'.regs) == Eval(v, args, s.regs)
    ensures var next, next' := Step(i, args, callees, s), Step(MapInst(i, base, n), outer, callees, s');
            && next'.world.globals == next.world.globals
            && (Dst(i).Some? ==> Get(next'.regs, Dst(i).value) == Get(next.regs, Dst(i).value))
            && forall r: nat :: Dst(i) != Some(r) ==>
                 Get(next.regs, r) == Get(s.regs, r) && Get(next'.regs, r) == Get(s'.regs, r)
  {
    hide Binop, Eval, Unop;
    match i
    case Binary(_, _, x, y) => assert x in Uses(i) && y in Uses(i);
    case Unary(_, _, x) => assert x in Uses(i);
    case Store(_, x) => assert x in Uses(i);
    case Call(_, c, xs) =>
      assert EvalAll(MapOperands(xs, base, n), outer, s'.regs) == EvalAll(xs, args, s.regs);
    case _ =>
  }

  lemma {:induction false} RelatedSteps(t: Subject, base: nat, args: seq<i32>, outer: seq<i32>, callees: Callees,
                                        prev: nat, b: nat, k: nat, s: Frame, s': Frame)
    requires hide *; |args| == |outer| == t.params && Suitable(t, base) && GlobalsOnly(callees)
    requires b < |t.f.blocks| && k <= |t.f.blocks[b].insts|
             && Related(t, base, args, b, 0, Enter(t.f.blocks[b], prev, args, s), s')
    ensures Related(t, base, args, b, k, Inside(t.f, args, callees, prev, b, k, s),
                    Steps(MapInsts(t.f.blocks[b].insts[..k], base, t.params), outer, callees, s'))
  {
    hide AllReady, Enter, Fed, MapInst, Related, Sets, Step;
    var insts := t.f.blocks[b].insts;
    var mapped := MapInsts(insts[..k], base, t.params);
    if k == 0 {
      assert insts[..0] == [];
    } else {
      assert insts[..k][..k - 1] == insts[..k - 1];
      assert mapped[..k - 1] == MapInsts(insts[..k - 1], base, t.params);
      RelatedSteps(t, base, args, outer, callees, prev, b, k - 1, s, s');
      RelatedStep(t, base, args, outer, callees, b, k - 1, Inside(t.f, args, callees, prev, b, k - 1, s),
                  Steps(MapInsts(insts[..k - 1], base, t.params), outer, callees, s'));
    }
  }

  // ----- edges -----

  lemma {:induction false} IncomingMapped(inc: seq<(Operand, nat)>, base: nat, n: nat, p: nat)
    ensures Incoming(MapIncoming(inc, base, n), p + 1)
         == match Incoming(inc, p) case Some(v) => Some(MapOperand(v, base, n)) case None => None
  {
    if inc != [] {
      assert MapIncoming(inc, base, n)[1..] == MapIncoming(inc[1..], base, n);
      IncomingMapped(inc[1..], base, n, p);
    }
  }

  /** The phis of a block set the same values, and everything else that agreed still agrees. */
  lemma {:induction false} PhisMapped(t: Subject, base: nat, args: seq<i32>, outer: seq<i32>, p: nat, phis: seq<Phi>,
                                      s: Frame, s': Frame, r: nat)
    requires hide *; |args| == |outer| == t.params && p < |t.f.blocks|
             && Related(t, base, args, p, |t.f.blocks[p].insts|, s, s')
    requires forall j :: 0 <= j < |phis| ==> Fed(t.f, phis[j], p)
    requires SetsOne(phis, r) || Get(s'.regs, r) == Get(s.regs, r)
    ensures Get(PhiRegs(MapPhis(phis, base, t.params), p + 1, outer, s'.regs), r)
            == Get(PhiRegs(phis, p, args, s.regs), r)
  {
    hide Eval, Incoming, MapIncoming, MapPhis, Ready, Related;
    if phis != [] {
      var n := |phis| - 1;
      assert MapPhis(phis, base, t.params)[..n] == MapPhis(phis[..n], base, t.params);
      if phis[n].dst == r {
        IncomingMapped(phis[n].incoming, base, t.params, p);
        assert Fed(t.f, phis[n], p);
        MappedOperand(t, base, args, outer, p, |t.f.blocks[p].insts|, s, s', Incoming(phis[n].incoming, p).value);
      } else {
        if SetsOne(phis, r) {
          SetsOneLess(phis, r);
        }
        PhisMapped(t, base, args, outer, p, phis[..n], s, s', r);
      }
    }
  }

  lemma RelatedEnter(t: Subject, base: nat, args: seq<i32>, outer: seq<i32>, p: nat, b: nat, s: Frame, s': Frame)
    requires hide *; |args| == |outer| == t.params && Suitable(t, base)
    requires p < |t.f.blocks| && b < |t.f.blocks| && Edge(Cfg(t.f), p, b)
    requires Related(t, base, args, p, |t.f.blocks[p].insts|, s, s')
    ensures Related(t, base, args, b, 0, Enter(t.f.blocks[b], p, args, s),
                    Enter(LoopBlock(t, base, b), p + 1, outer, s'))
  {
    hide AllReachable, Fed, MapInsts, MapPhis, MapTerm, ParamPhis, PhiRegs, Ready;
    var phis := t.f.blocks[b].phis;
    assert b != 0;
    forall r: nat | Ready(t.f, b, 0, Reg(r))
      ensures Get(PhiRegs(MapPhis(phis, base, t.params), p + 1, outer, s'.regs), r)
              == Get(PhiRegs(phis, p, args, s.regs), r)
    {
      ReadyOnEntry(t.f, p, b, r);
      PhisMapped(t, base, args, outer, p, phis, s, s', r);
    }
    forall i: nat | i < t.params
      ensures Get(PhiRegs(MapPhis(phis, base, t.params), p + 1, outer, s'.regs), base + i) == args[i]
    {
      forall j | 0 <= j < |phis|
        ensures phis[j].dst != base + i
      {
        assert Sets(t.f, PhiPlace(b, j), phis[j].dst);
      }
      PhiRegsElsewhere(MapPhis(phis, base, t.params), p + 1, outer, s'.regs, base + i);
    }
  }

  // ----- the header -----

  lemma {:induction false} SitesElements(t: Subject, n: nat)
    ensures forall b: nat :: b in SitesBelow(t, n) <==> b < n && IsSite(t, b)
    ensures forall i, j :: 0 <= i < j < |SitesBelow(t, n)| ==> SitesBelow(t, n)[i] < SitesBelow(t, n)[j]
  {
    hide IsSite;
    if n > 0 {
      SitesElements(t, n - 1);
    }
  }

  lemma {:induction false} IncomingAt(inc: seq<(Operand, nat)>, j: nat)
    requires j < |inc| && forall i :: 0 <= i < |inc| && i != j ==> inc[i].1 != inc[j].1
    ensures Incoming(inc, inc[j].1) == Some(inc[j].0)
  {
    if j > 0 {
      IncomingAt(inc[1..], j - 1);
    }
  }

  lemma ParamIncomingShape(t: Subject, base: nat, i: nat, sites: seq<nat>)
    requires i < t.params && forall j :: 0 <= j < |sites| ==> IsSite(t, sites[j])
    ensures var inc := ParamIncoming(t, base, i, sites);
            && |inc| == |sites| + 1 && inc[0] == (Param(i), 0)
            && forall j :: 0 <= j < |sites| ==>
                 inc[j + 1] == (MapOperand(TailCall(t, sites[j]).args[i], base, t.params), sites[j] + 1)
  {
    hide IsSite, MapOperand, TailCall;
  }

  lemma OneFromEach(inc: seq<(Operand, nat)>, sites: seq<nat>)
    requires |inc| == |sites| + 1 && inc[0].1 == 0 && forall j :: 0 <= j < |sites| ==> inc[j + 1].1 == sites[j] + 1
    requires forall i, j :: 0 <= i < j < |sites| ==> sites[i] < sites[j]
    ensures forall i, j :: 0 <= i < j < |inc| ==> inc[i].1 != inc[j].1
  {
    forall i, j | 0 <= i < j < |inc|
      ensures inc[i].1 != inc[j].1
    {
      assert inc[(j - 1) + 1].1 == sites[j - 1] + 1;
      assert i > 0 ==> inc[(i - 1) + 1].1 == sites[i - 1] + 1;
    }
  }

  /** What a parameter phi receives on entry, and from a site. */
  lemma ParamReceives(t: Subject, base: nat, i: nat, b: nat)
    requires hide *; i < t.params
    ensures var inc := ParamIncoming(t, base, i, SitesBelow(t, |t.f.blocks|));
            && Incoming(inc, 0) == Some(Param(i))
            && (IsSite(t, b) ==> Incoming(inc, b + 1) == Some(MapOperand(TailCall(t, b).args[i], base, t.params)))
  {
    hide ParamIncoming, Incoming;
    var sites := SitesBelow(t, |t.f.blocks|);
    var inc := ParamIncoming(t, base, i, sites);
    SitesElements(t, |t.f.blocks|);
    ParamIncomingShape(t, base, i, sites);
    OneFromEach(inc, sites);
    IncomingAt(inc, 0);
    if IsSite(t, b) {
      var j: nat :| j < |sites| && sites[j] == b;
      assert inc[j + 1].1 == b + 1;
      IncomingAt(inc, j + 1);
    }
  }

  /** Entering the header starts an activation with the values that the parameter phis receive. */
  lemma HeaderEnter(t: Subject, base: nat, args: seq<i32>, outer: seq<i32>, prev: nat, globals: map<string, i32>,
                    s': Frame)
    requires hide *;
             |args| == |outer| == t.params && Suitable(t, base) && 0 < |t.f.blocks| && s'.world.globals == globals
    requires forall i: nat :: i < t.params ==>
               var v := Incoming(ParamIncoming(t, base, i, SitesBelow(t, |t.f.blocks|)), prev);
               v.Some? && Eval(v.value, outer, s'.regs) == args[i]
    ensures InStep(t, base, args, outer, Start(World(globals, [])), At(prev, 1, s'))
  {
    hide MapInsts, MapPhis, MapTerm, ParamIncoming, PhiRegs;
    var phis := ParamPhis(t, base);
    forall i: nat | i < t.params
      ensures Get(PhiRegs(phis, prev, outer, s'.regs), base + i) == args[i]
    {
      PhiRegsAt(phis, prev, outer, s'.regs, i);
    }
    forall r: nat
      ensures !Ready(t.f, 0, 0, Reg(r))
    {
      OnlyEntryDominatesEntry(Cfg(t.f));
    }
  }

  /** The two runs stand at corresponding blocks of one activation. */
  ghost predicate InStep(t: Subject, base: nat, args: seq<i32>, outer: seq<i32>, c: Config, d: Config) {
    && c.At? && d.At? && d.block == c.block + 1 && c.block < |t.f.blocks|
    && Related(t, base, args, c.block, 0, Enter(t.f.blocks[c.block], c.prev, args, c.frame),
               Enter(LoopBlock(t, base, c.block), d.prev, outer, d.frame))
  }

  /** At the end of a block that is not a site. */
  lemma RelatedLeave(t: Subject, base: nat, args: seq<i32>, outer: seq<i32>, b: nat, s: Frame, s': Frame)
    requires hide *; |args| == |outer| == t.params && Suitable(t, base) && b < |t.f.blocks|
    requires Related(t, base, args, b, |t.f.blocks[b].insts|, s, s')
    ensures var c, d := Leave(t.f.blocks[b].term, b, args, s),
              Leave(MapTerm(t.f.blocks[b].term, base, t.params), b + 1, outer, s');
            match c
            case At(_, b', _) => c == At(b, b', s) && d == At(b + 1, b' + 1, s')
            case Done(v, w) => d.Done? && d.result == v && d.world.globals == w.globals
  {
    assert AllReady(t.f, b, |t.f.blocks[b].insts|, TermUses(t.f.blocks[b].term));
    forall v | v in TermUses(t.f.blocks[b].term)
      ensures Eval(MapOperand(v, base, t.params), outer, s'.regs) == Eval(v, args, s.regs)
    {
      MappedOperand(t, base, args, outer, b, |t.f.blocks[b].insts|, s, s', v);
    }
    match t.f.blocks[b].term
    case CondBr(x, _, _) => assert x in TermUses(t.f.blocks[b].term);
    case Ret(Some(x)) => assert x in TermUses(t.f.blocks[b].term);
    case _ =>
  }

  lemma RunPlain(f: Function, args: seq<i32>, callees: Callees, c: Config)
    requires hide *; c.At? && c.block < |f.blocks|
    ensures RunBlock(f, args, callees, c)
         == Leave(f.blocks[c.block].term, c.block, args,
                  Inside(f, args, callees, c.prev, c.block, |f.blocks[c.block].insts|, c.frame))
  {
    hide Enter, Leave, Steps;
    assert f.blocks[c.block].insts[..|f.blocks[c.block].insts|] == f.blocks[c.block].insts;
  }

  /** The frame with which the loop passes the first `k` instructions of block `b` of the function. */
  function LoopInside(t: Subject, base: nat, outer: seq<i32>, callees: Callees, d: Config, b: nat, k: nat): Frame
    requires hide *; d.At? && b < |t.f.blocks| && k <= |t.f.blocks[b].insts|
  {
    Steps(MapInsts(t.f.blocks[b].insts[..k], base, t.params), outer, callees,
          Enter(LoopBlock(t, base, b), d.prev, outer, d.frame))
  }

  lemma RunLooped(t: Subject, base: nat, outer: seq<i32>, callees: Callees, d: Config, b: nat)
    requires hide Leave, LoopBlock, LoopInside, RunBlock, Steps; d.At? && d.block == b + 1 && b < |t.f.blocks|
    ensures RunBlock(Looped(t, base), outer, callees, d)
         == if IsSite(t, b) then At(b + 1, 1, LoopInside(t, base, outer, callees, d, b, |t.f.blocks[b].insts| - 1))
            else Leave(MapTerm(t.f.blocks[b].term, base, t.params), b + 1, outer,
                       LoopInside(t, base, outer, callees, d, b, |t.f.blocks[b].insts|))
  {
    hide Enter, MapInsts, MapPhis, MapTerm, ParamPhis, Steps;
    assert t.f.blocks[b].insts[..|t.f.blocks[b].insts|] == t.f.blocks[b].insts;
  }

  lemma InStepInside(t: Subject, base: nat, args: seq<i32>, outer: seq<i32>, callees: Callees, c: Config, d: Config,
                     k: nat)
    requires hide LoopBlock, LoopInside, Related, Steps, Suitable;
             |args| == |outer| == t.params && Suitable(t, base) && GlobalsOnly(callees)
             && InStep(t, base, args, outer, c, d)
    requires k <= |t.f.blocks[c.block].insts|
    ensures Related(t, base, args, c.block, k, Inside(t.f, args, callees, c.prev, c.block, k, c.frame),
                    LoopInside(t, base, outer, callees, d, c.block, k))
  {
    hide Enter, LoopBlock, MapInsts, Related, Steps, Suitable;
    RelatedSteps(t, base, args, outer, callees, c.prev, c.block, k, c.frame,
                 Enter(LoopBlock(t, base, c.block), d.prev, outer, d.frame));
  }

  lemma InStepIntro(t: Subject, base: nat, args: seq<i32>, outer: seq<i32>, p: nat, b: nat, s: Frame, s': Frame)
    requires hide *; b < |t.f.blocks|
    requires Related(t, base, args, b, 0, Enter(t.f.blocks[b], p, args, s),
                     Enter(LoopBlock(t, base, b), p + 1, outer, s'))
    ensures InStep(t, base, args, outer, At(p, b, s), At(p + 1, b + 1, s'))
  {
    hide IsSite, MapInsts, MapPhis, MapTerm, ParamPhis, PhiRegs, Ready;
  }

  lemma SuitableGraph(t: Subject, base: nat)
    requires Suitable(t, base)
    ensures Valid(Cfg(t.f)) && 0 < |t.f.blocks|
  {
    hide AllReachable, AllReady, Cfg, Fed, Sets, TermUses, Uses;
  }

  /** One block that is not a site. */
  lemma PlainBlock(t: Subject, base: nat, args: seq<i32>, outer: seq<i32>, callees: Callees, c: Config, d: Config)
    requires hide Enter, LoopBlock, Related, RunBlock, Suitable;
             |args| == |outer| == t.params && Suitable(t, base) && GlobalsOnly(callees)
    requires InStep(t, base, args, outer, c, d) && !IsSite(t, c.block)
    ensures var c', d' := RunBlock(t.f, args, callees, c), RunBlock(Looped(t, base), outer, callees, d);
            match c'
            case At(_, _, _) => InStep(t, base, args, outer, c', d')
            case Done(v, w) => d'.Done? && d'.result == v && d'.world.globals == w.globals
  {
    hide *;
    InStepShape(t, base, args, outer, c, d);
    var b, n := c.block, |t.f.blocks[c.block].insts|;
    SuitableGraph(t, base);
    InStepInside(t, base, args, outer, callees, c, d, n);
    RunPlain(t.f, args, callees, c);
    RunLooped(t, base, outer, callees, d, b);
    var s, s' := Inside(t.f, args, callees, c.prev, b, n, c.frame), LoopInside(t, base, outer, callees, d, b, n);
    RelatedLeave(t, base, args, outer, b, s, s');
    var c' := Leave(t.f.blocks[b].term, b, args, s);
    if c'.At? {
      LeaveTakes(t.f, args, b, s);
      RelatedEnter(t, base, args, outer, b, c'.block, s, s');
      InStepIntro(t, base, args, outer, b, c'.block, s, s');
    }
  }

  /** One site: the loop goes on with the activation that the call would start. */
  lemma SiteBlock(t: Subject, base: nat, args: seq<i32>, outer: seq<i32>, callees: Callees, c: Config, d: Config)
    requires hide Enter, LoopBlock, Related, Steps, Suitable;
             |args| == |outer| == t.params && Suitable(t, base) && GlobalsOnly(callees)
    requires InStep(t, base, args, outer, c, d) && IsSite(t, c.block)
    ensures RunBlock(t.f, args, callees, c).Done?
    ensures InStep(t, base, TailArgs(t, args, callees, c), outer,
                   Start(World(BeforeLast(t, args, callees, c).world.globals, [])),
                     RunBlock(Looped(t, base), outer, callees, d))
  {
    hide LoopBlock, LoopInside, Related, Steps, Suitable, GlobalsOnly, InStep, Looped, RunBlock, Inside;
    InStepShape(t, base, args, outer, c, d);
    var b, n := c.block, |t.f.blocks[c.block].insts| - 1;
    SiteReturns(t, args, callees, c);
    SuitableGraph(t, base);
    InStepInside(t, base, args, outer, callees, c, d, n);
    RunLooped(t, base, outer, callees, d, b);
    var s, s' := BeforeLast(t, args, callees, c), LoopInside(t, base, outer, callees, d, b, n);
    SiteFeeds(t, base, args, outer, b, s, s');
    SameGlobals(t, base, args, b, n, s, s');
    HeaderEnter(t, base, TailArgs(t, args, callees, c), outer, b + 1, s.world.globals, s');
  }

  lemma SameGlobals(t: Subject, base: nat, args: seq<i32>, b: nat, k: nat, s: Frame, s': Frame)
    requires Related(t, base, args, b, k, s, s')
    ensures s'.world.globals == s.world.globals
  {
    hide Get, Ready;
  }

  lemma SiteReturns(t: Subject, args: seq<i32>, callees: Callees, c: Config)
    requires hide *; c.At? && IsSite(t, c.block)
    ensures RunBlock(t.f, args, callees, c).Done?
  {
    hide Enter, Eval, Steps;
  }

  /** The parameter phis receive the arguments of the call. */
  lemma SiteFeeds(t: Subject, base: nat, args: seq<i32>, outer: seq<i32>, b: nat, s: Frame, s': Frame)
    requires hide Eval, ParamIncoming, Related, Suitable;
             |args| == |outer| == t.params && Suitable(t, base) && IsSite(t, b)
    requires Related(t, base, args, b, |t.f.blocks[b].insts| - 1, s, s')
    ensures forall i: nat :: i < t.params ==>
              var v := Incoming(ParamIncoming(t, base, i, SitesBelow(t, |t.f.blocks|)), b + 1);
              v.Some? && Eval(v.value, outer, s'.regs) == EvalAll(TailCall(t, b).args, args, s.regs)[i]
  {
    hide AllReachable, Cfg, Eval, ParamIncoming, Ready, Related, Sets;
    var call, n := TailCall(t, b), |t.f.blocks[b].insts| - 1;
    assert AllReady(t.f, b, n, Uses(call));
    forall i: nat | i < t.params
      ensures var v := Incoming(ParamIncoming(t, base, i, SitesBelow(t, |t.f.blocks|)), b + 1);
              v.Some? && Eval(v.value, outer, s'.regs) == EvalAll(call.args, args, s.regs)[i]
    {
      ParamReceives(t, base, i, b);
      assert call.args[i] in Uses(call);
      MappedOperand(t, base, args, outer, b, n, s, s', call.args[i]);
    }
  }

  // ----- whole runs -----

  lemma {:induction false} Lockstep(t: Subject, base: nat, args: seq<i32>, outer: seq<i32>, callees: Callees,
                                    c: Config, d: Config, n: nat)
    requires |args| == |outer| == t.params && Suitable(t, base) && GlobalsOnly(callees)
    requires InStep(t, base, args, outer, c, d) && Run(t.f, args, callees, c, n).At?
    ensures InStep(t, base, args, outer, Run(t.f, args, callees, c, n), Run(Looped(t, base), outer, callees, d, n))
  {
    hide Enter, LoopBlock, Related, RunBlock, Steps, Suitable, TailArgs, Looped, GlobalsOnly;
    if n > 0 {
      var c1, d1 := Run(t.f, args, callees, c, n - 1), Run(Looped(t, base), outer, callees, d, n - 1);
      BeforeIsAt(t.f, args, callees, c, n);
      Lockstep(t, base, args, outer, callees, c, d, n - 1);
      if IsSite(t, c1.block) {
        SiteBlock(t, base, args, outer, callees, c1, d1);
      } else {
        PlainBlock(t, base, args, outer, callees, c1, d1);
      }
    }
  }

  lemma BeforeIsAt(f: Function, params: seq<i32>, callees: Callees, c: Config, n: nat)
    requires hide *; n > 0 && Run(f, params, callees, c, n).At?
    ensures Run(f, params, callees, c, n - 1).At?
  {
    hide Enter, Leave, Steps;
  }

  ghost predicate LoopReturns(t: Subject, base: nat, outer: seq<i32>, callees: Callees, d: Config, n: nat,
                              result: Option<i32>, globals': map<string, i32>)
  {
    var e := Run(Looped(t, base), outer, callees, d, n);
    e.Done? && e.result == result && e.world.globals == globals'
  }

  lemma LoopThen(g: Function, outer: seq<i32>, callees: Callees, d: Config, m: nat, d1: Config)
    requires hide *; d1 == Run(g, outer, callees, d, m)
    ensures Run(g, outer, callees, d, m + 1) == RunBlock(g, outer, callees, d1)
  {
    hide RunBlock;
  }

  lemma {:induction false} RecursionIsLoop(t: Subject, base: nat, args: seq<i32>, outer: seq<i32>, callees: Callees,
                                           globals: map<string, i32>, d: Config, depth: nat, result: Option<i32>,
                                             globals': map<string, i32>)
    returns (n: nat)
    requires |args| == |outer| == t.params && Suitable(t, base) && GlobalsOnly(callees)
    requires InStep(t, base, args, outer, Start(World(globals, [])), d)
    requires Returns(t, args, callees, globals, depth, result, globals')
    ensures LoopReturns(t, base, outer, callees, d, n, result, globals')
    decreases depth
  {
    hide Enter, InStep, LoopBlock, Steps, Suitable, GlobalsOnly, RunBlock, Looped, Run, BeforeLast, TailArgs, IsSite;
    var c0, g := Start(World(globals, [])), Looped(t, base);
    if m: nat :| EndsItself(t, args, callees, globals, m, result, globals') {
      var c := Run(t.f, args, callees, c0, m);
      Lockstep(t, base, args, outer, callees, c0, d, m);
      PlainBlock(t, base, args, outer, callees, c, Run(g, outer, callees, d, m));
      LoopThen(g, outer, callees, d, m, Run(g, outer, callees, d, m));
      n := m + 1;
    } else {
      var m: nat, c: Config :| EndsInCall(t, args, callees, globals, m, c)
        && Returns(t, TailArgs(t, args, callees, c), callees, BeforeLast(t, args, callees, c).world.globals,
                   depth - 1, result, globals');
      Lockstep(t, base, args, outer, callees, c0, d, m);
      var d1 := Run(g, outer, callees, d, m);
      SiteBlock(t, base, args, outer, callees, c, d1);
      LoopThen(g, outer, callees, d, m, d1);
      var k := RecursionIsLoop(t, base, TailArgs(t, args, callees, c), outer, callees,
                               BeforeLast(t, args, callees, c).world.globals,
                               RunBlock(g, outer, callees, d1), depth - 1, result, globals');
      RunAdd(g, outer, callees, d, m + 1, k);
      n := m + 1 + k;
    }
  }

  /** An activation whose `m`-th block corresponds to a point from which the loop returns after `n` blocks. */
  lemma {:induction false} LoopIsRecursion(t: Subject, base: nat, args: seq<i32>, outer: seq<i32>, callees: Callees,
                                           globals: map<string, i32>, m: nat, c: Config, d: Config, n: nat,
                                           result: Option<i32>, globals': map<string, i32>)
    returns (depth: nat)
    requires |args| == |outer| == t.params && Suitable(t, base) && GlobalsOnly(callees)
    requires c == Run(t.f, args, callees, Start(World(globals, [])), m) && InStep(t, base, args, outer, c, d)
             && c.At? && d.At?
    requires LoopReturns(t, base, outer, callees, d, n, result, globals')
    ensures Returns(t, args, callees, globals, depth, result, globals')
    decreases n
  {
    hide Enter, InStep, LoopBlock, Returns, Steps, Suitable, GlobalsOnly, RunBlock, Looped, LoopReturns, BeforeLast,
         TailArgs, IsSite, Run;
    var g := Looped(t, base);
    LoopSteps(t, base, outer, callees, d, n, result, globals');
    var d1 := RunBlock(g, outer, callees, d);
    if IsSite(t, c.block) {
      SiteBlock(t, base, args, outer, callees, c, d);
      var xs, gl := TailArgs(t, args, callees, c), BeforeLast(t, args, callees, c).world.globals;
      RunNothing(t.f, xs, callees, Start(World(gl, [])));
      InStepShape(t, base, xs, outer, Start(World(gl, [])), d1);
      var k := LoopIsRecursion(t, base, xs, outer, callees, gl, 0, Start(World(gl, [])), d1, n - 1, result, globals');
      depth := k + 1;
      ReturnsByCall(t, args, callees, globals, m, c, k, result, globals');
    } else {
      PlainBlock(t, base, args, outer, callees, c, d);
      var c1 := RunBlock(t.f, args, callees, c);
      LoopThen(t.f, args, callees, Start(World(globals, [])), m, c);
      if c1.At? {
        InStepShape(t, base, args, outer, c1, d1);
        depth := LoopIsRecursion(t, base, args, outer, callees, globals, m + 1, c1, d1, n - 1, result, globals');
      } else {
        LoopStops(t, base, outer, callees, d1, n - 1, result, globals');
        depth := 0;
        ReturnsItself(t, args, callees, globals, m, c, result, globals');
      }
    }
  }

  lemma RunNothing(f: Function, args: seq<i32>, callees: Callees, c: Config)
    ensures hide *; Run(f, args, callees, c, 0) == c
  {
    hide RunBlock;
  }

  lemma InStepShape(t: Subject, base: nat, args: seq<i32>, outer: seq<i32>, c: Config, d: Config)
    requires hide *; InStep(t, base, args, outer, c, d)
    ensures c.At? && d.At? && d.block == c.block + 1 && c.block < |t.f.blocks|
  {
    hide Enter, LoopBlock, Related;
  }

  lemma LoopSteps(t: Subject, base: nat, outer: seq<i32>, callees: Callees, d: Config, n: nat, result: Option<i32>,
                  globals': map<string, i32>)
    requires hide *; d.At? && LoopReturns(t, base, outer, callees, d, n, result, globals')
    ensures n > 0 && LoopReturns(t, base, outer, callees, RunBlock(Looped(t, base), outer, callees, d), n - 1,
                                 result, globals')
  {
    hide RunBlock, Looped;
    var g := Looped(t, base);
    RunNothing(g, outer, callees, d);
    RunAdd(g, outer, callees, d, 1, n - 1);
    LoopThen(g, outer, callees, d, 0, d);
  }

  lemma LoopStops(t: Subject, base: nat, outer: seq<i32>, callees: Callees, d: Config, n: nat, result: Option<i32>,
                  globals': map<string, i32>)
    requires hide *; d.Done? && LoopReturns(t, base, outer, callees, d, n, result, globals')
    ensures d.result == result && d.world.globals == globals'
  {
    hide RunBlock, Looped;
    DoneStays(Looped(t, base), outer, callees, d, n);
  }

  lemma ReturnsItself(t: Subject, args: seq<i32>, callees: Callees, globals: map<string, i32>, n: nat, c: Config,
                      result: Option<i32>, globals': map<string, i32>)
    requires hide IsSite, Returns, RunBlock, Steps;
             c == Run(t.f, args, callees, Start(World(globals, [])), n) && c.At? && !IsSite(t, c.block)
    requires var d := RunBlock(t.f, args, callees, c); d.Done? && d.result == result && d.world.globals == globals'
    ensures Returns(t, args, callees, globals, 0, result, globals')
  {
    hide BeforeLast, Enter, Leave, Steps, TailArgs;
    assert EndsItself(t, args, callees, globals, n, result, globals');
  }

  lemma ReturnsByCall(t: Subject, args: seq<i32>, callees: Callees, globals: map<string, i32>, n: nat, c: Config,
                      depth: nat,
                      result: Option<i32>, globals': map<string, i32>)
    requires hide *; c == Run(t.f, args, callees, Start(World(globals, [])), n) && c.At? && IsSite(t, c.block)
    requires Returns(t, TailArgs(t, args, callees, c), callees, BeforeLast(t, args, callees, c).world.globals, depth,
                     result, globals')
    ensures Returns(t, args, callees, globals, depth + 1, result, globals')
  {
    hide EndsItself, Enter, EvalAll, RunBlock, Steps;
    assert EndsInCall(t, args, callees, globals, n, c);
  }

  lemma LoopEntered(t: Subject, base: nat, args: seq<i32>, callees: Callees, globals: map<string, i32>)
    requires hide InStep, LoopBlock, RunBlock, Suitable; |args| == t.params && Suitable(t, base)
    ensures var s := Frame(map[], map[], World(globals, []));
            && RunBlock(Looped(t, base), args, callees, Start(World(globals, []))) == At(0, 1, s)
            && InStep(t, base, args, args, Start(World(globals, [])), At(0, 1, s))
  {
    hide LoopBlock, Step;
    var s := Frame(map[], map[], World(globals, []));
    forall i: nat | i < t.params
      ensures var v := Incoming(ParamIncoming(t, base, i, SitesBelow(t, |t.f.blocks|)), 0);
              v.Some? && Eval(v.value, args, s.regs) == args[i]
    {
      ParamReceives(t, base, i, 0);
    }
    SuitableGraph(t, base);
    HeaderEnter(t, base, args, args, 0, globals, s);
    assert Looped(t, base).blocks[0] == Block([], [], Br(1));
  }

  /** The loop returns exactly if the recursion does, with the same value and the same globals. */
  lemma TailRecursionIsLoop(t: Subject, base: nat, args: seq<i32>, callees: Callees, globals: map<string, i32>,
                            result: Option<i32>, globals': map<string, i32>)
    requires |args| == t.params && Suitable(t, base) && GlobalsOnly(callees)
    ensures (exists depth: nat :: Returns(t, args, callees, globals, depth, result, globals'))
       <==> (exists n: nat :: LoopReturns(t, base, args, callees, Start(World(globals, [])), n, result, globals'))
  {
    hide InStep, LoopBlock, Returns, RunBlock, Steps, Suitable, GlobalsOnly, Looped, Run;
    var c0, g := Start(World(globals, [])), Looped(t, base);
    LoopEntered(t, base, args, callees, globals);
    var d := RunBlock(g, args, callees, c0);
    RunNothing(g, args, callees, c0);
    LoopThen(g, args, callees, c0, 0, c0);
    if depth: nat :| Returns(t, args, callees, globals, depth, result, globals') {
      var n := RecursionIsLoop(t, base, args, args, callees, globals, d, depth, result, globals');
      RunAdd(g, args, callees, c0, 1, n);
      assert LoopReturns(t, base, args, callees, c0, 1 + n, result, globals');
    }
    if n: nat :| LoopReturns(t, base, args, callees, c0, n, result, globals') {
      LoopSteps(t, base, args, callees, c0, n, result, globals');
      RunNothing(t.f, args, callees, c0);
      var depth := LoopIsRecursion(t, base, args, args, callees, globals, 0, c0, d, n - 1, result, globals');
    }
  }

  // ----- the function itself -----

  /** Every return carries a value exactly if the function returns one. */
  predicate Typed(t: Subject) {
    forall b: nat :: b < |t.f.blocks| && t.f.blocks[b].term.Ret? ==> t.f.blocks[b].term.result.Some? == t.returnsInt
  }

  lemma {:induction false} ReturnsTyped(t: Subject, args: seq<i32>, callees: Callees, globals: map<string, i32>,
                                        depth: nat,
                                        result: Option<i32>, globals': map<string, i32>)
    requires Typed(t) && Returns(t, args, callees, globals, depth, result, globals')
    ensures result.Some? == t.returnsInt
    decreases depth
  {
    hide Enter, IsSite, Steps, TailArgs, Run, Inside;
    if n: nat :| EndsItself(t, args, callees, globals, n, result, globals') {
      var c := Run(t.f, args, callees, Start(World(globals, [])), n);
      if c.block < |t.f.blocks| {
        RunPlain(t.f, args, callees, c);
      }
    } else {
      var n: nat, c: Config :| EndsInCall(t, args, callees, globals, n, c)
        && Returns(t, TailArgs(t, args, callees, c), callees, BeforeLast(t, args, callees, c).world.globals,
                   depth - 1, result, globals');
      ReturnsTyped(t, TailArgs(t, args, callees, c), callees, BeforeLast(t, args, callees, c).world.globals,
                   depth - 1, result, globals');
    }
  }

  /** What a site does when the call is left to the callee. */
  lemma SiteCalls(t: Subject, args: seq<i32>, callees: Callees, c: Config)
    requires hide *; c.At? && IsSite(t, c.block)
    ensures var (v, globals) := callees(t.name, TailArgs(t, args, callees, c), BeforeLast(t, args, callees, c).world);
            var d := RunBlock(t.f, args, callees, c);
            d.Done? && d.result == (if t.returnsInt then Some(v) else None) && d.world.globals == globals
  {
    hide Binop, Enter, Unop;
    var insts := t.f.blocks[c.block].insts;
    RunPlain(t.f, args, callees, c);
    assert insts[..|insts|][..|insts| - 1] == insts[..|insts| - 1];
  }

  /** The activation ends with its `n`-th block; if that ends in a tail call, then the called activation returns. */
  ghost predicate EndsWithCall(t: Subject, args: seq<i32>, callees: Callees, globals: map<string, i32>, n: nat,
                               result: Option<i32>, globals': map<string, i32>)
  {
    var c := Run(t.f, args, callees, Start(World(globals, [])), n);
    && c.At?
    && (IsSite(t, c.block) ==> CallComesBack(t, args, callees, c))
    && var d := RunBlock(t.f, args, callees, c); d.Done? && d.result == result && d.world.globals == globals'
  }

  ghost predicate CallComesBack(t: Subject, args: seq<i32>, callees: Callees, c: Config)
    requires hide *; c.At? && IsSite(t, c.block)
  {
    exists depth: nat, result: Option<i32>, globals': map<string, i32> ::
      Returns(t, TailArgs(t, args, callees, c), callees, BeforeLast(t, args, callees, c).world.globals, depth, result,
              globals')
  }

  /** If the other activations do what the function does, then the function returns, and with it the activation that it
      calls last, exactly if the recursion returns; so they do exactly what the loop does. */
  lemma FunctionReturns(t: Subject, args: seq<i32>, callees: Callees, globals: map<string, i32>,
                        result: Option<i32>, globals': map<string, i32>)
    requires |args| == t.params && Typed(t) && Faithful(t, callees)
    ensures (exists depth: nat :: Returns(t, args, callees, globals, depth, result, globals'))
       <==> (exists n: nat :: EndsWithCall(t, args, callees, globals, n, result, globals'))
  {
    hide *;
    if depth: nat :| Returns(t, args, callees, globals, depth, result, globals') {
      var n := RecursionEnds(t, args, callees, globals, depth, result, globals');
    }
    if n: nat :| EndsWithCall(t, args, callees, globals, n, result, globals') {
      var depth := EndIsRecursion(t, args, callees, globals, n, result, globals');
    }
  }

  lemma RecursionEnds(t: Subject, args: seq<i32>, callees: Callees, globals: map<string, i32>, depth: nat,
                      result: Option<i32>, globals': map<string, i32>) returns (n: nat)
    requires |args| == t.params && Typed(t) && Faithful(t, callees)
    requires Returns(t, args, callees, globals, depth, result, globals')
    ensures EndsWithCall(t, args, callees, globals, n, result, globals')
  {
    hide RunBlock, Run, Faithful, Typed, IsSite, TailArgs, BeforeLast;
    ReturnsTyped(t, args, callees, globals, depth, result, globals');
    if m: nat :| EndsItself(t, args, callees, globals, m, result, globals') {
      n := m;
    } else {
      var m: nat, c: Config :| EndsInCall(t, args, callees, globals, m, c)
        && Returns(t, TailArgs(t, args, callees, c), callees, BeforeLast(t, args, callees, c).world.globals,
                   depth - 1, result, globals');
      SiteCalls(t, args, callees, c);
      CalledFaithfully(t, TailArgs(t, args, callees, c), callees, BeforeLast(t, args, callees, c).world, depth - 1,
                       result, globals');
      assert CallComesBack(t, args, callees, c);
      n := m;
    }
  }

  lemma EndIsRecursion(t: Subject, args: seq<i32>, callees: Callees, globals: map<string, i32>, n: nat,
                       result: Option<i32>, globals': map<string, i32>) returns (depth: nat)
    requires |args| == t.params && Typed(t) && Faithful(t, callees)
    requires EndsWithCall(t, args, callees, globals, n, result, globals')
    ensures Returns(t, args, callees, globals, depth, result, globals')
  {
    hide RunBlock, Run, Faithful, Typed, IsSite, TailArgs, BeforeLast, Returns;
    var c := Run(t.f, args, callees, Start(World(globals, [])), n);
    if IsSite(t, c.block) {
      var k: nat, r: Option<i32>, g: map<string, i32> :|
        Returns(t, TailArgs(t, args, callees, c), callees, BeforeLast(t, args, callees, c).world.globals, k, r, g);
      ReturnsTyped(t, TailArgs(t, args, callees, c), callees, BeforeLast(t, args, callees, c).world.globals, k, r, g);
      SiteCalls(t, args, callees, c);
      CalledFaithfully(t, TailArgs(t, args, callees, c), callees, BeforeLast(t, args, callees, c).world, k, r, g);
      ReturnsByCall(t, args, callees, globals, n, c, k, result, globals');
      depth := k + 1;
    } else {
      ReturnsItself(t, args, callees, globals, n, c, result, globals');
      depth := 0;
    }
  }

  lemma CalledFaithfully(t: Subject, args: seq<i32>, callees: Callees, w: World, depth: nat, result: Option<i32>,
                         globals': map<string, i32>)
    requires hide *;
             Faithful(t, callees) && |args| == t.params && Returns(t, args, callees, w.globals, depth, result, globals')
    ensures callees(t.name, args, w).1 == globals' && (result.Some? ==> callees(t.name, args, w).0 == result.value)
  {
    hide BeforeLast, EndsItself, Steps, TailArgs;
  }

  // ----- the pass -----

  method FindSites(t: Subject) returns (sites: seq<nat>)
    ensures sites == SitesBelow(t, |t.f.blocks|)
  {
    sites := [];
    var b := 0;
    while b < |t.f.blocks|
      invariant 0 <= b <= |t.f.blocks| && sites == SitesBelow(t, b)
    {
      if IsSite(t, b) {
        sites := sites + [b];
      }
      b := b + 1;
    }
  }

  method BuildIncoming(t: Subject, base: nat, i: nat, sites: seq<nat>) returns (incoming: seq<(Operand, nat)>)
    requires hide *; i < t.params && forall j :: 0 <= j < |sites| ==> IsSite(t, sites[j])
    ensures incoming == ParamIncoming(t, base, i, sites)
  {
    hide IsSite, MapOperand, TailCall;
    ParamIncomingShape(t, base, i, sites);
    incoming := [(Param(i), 0)];
    var j := 0;
    while j < |sites|
      invariant 0 <= j <= |sites| && |incoming| == j + 1 && incoming[0] == (Param(i), 0)
      invariant forall k :: 0 <= k < j ==>
                  incoming[k + 1] == (MapOperand(TailCall(t, sites[k]).args[i], base, t.params), sites[k] + 1)
    {
      incoming := incoming + [(MapOperand(TailCall(t, sites[j]).args[i], base, t.params), sites[j] + 1)];
      j := j + 1;
    }
    forall k | 0 <= k < |incoming|
      ensures incoming[k] == ParamIncoming(t, base, i, sites)[k]
    {
      assert k > 0 ==>
               incoming[(k - 1) + 1]
               == (MapOperand(TailCall(t, sites[k - 1]).args[i], base, t.params), sites[k - 1] + 1);
    }
  }

  /** The block calls the function itself and then does nothing but return the answer. */
  predicate ReturnsSelfCall(t: Subject, blk: Block) {
    && blk.insts != []
    && match blk.insts[|blk.insts| - 1]
       case Call(d, c, xs) =>
         c == t.name && |xs| == t.params && blk.term == if t.returnsInt then Ret(Some(Reg(d))) else Ret(None)
       case _ => false
  }

  predicate NothingFrom(base: nat, f: Function) {
    forall b: nat, k: nat :: b < |f.blocks| && k < |f.blocks[b].insts| ==>
      match Dst(f.blocks[b].insts[k]) case Some(r) => r < base case None => true
  }

  lemma LoopBlockReturnsNone(t: Subject, base: nat, b: nat)
    requires hide *; b < |t.f.blocks| && NothingFrom(base, t.f)
    ensures !ReturnsSelfCall(t, LoopBlock(t, base, b))
  {
    hide MapInsts, MapOperands, MapPhis, ParamPhis;
    var insts := t.f.blocks[b].insts;
    if insts != [] && !IsSite(t, b) {
      assert MapInsts(insts, base, t.params)[|insts| - 1] == MapInst(insts[|insts| - 1], base, t.params);
    }
  }

  /** After the pass no block returns the answer of a self-call. */
  lemma NoneIsReturned(t: Subject, base: nat, g: Function)
    requires hide *; 0 < |t.f.blocks| && NothingFrom(base, t.f)
    requires g == if SitesBelow(t, |t.f.blocks|) == [] then t.f else Looped(t, base)
    ensures forall b :: 0 <= b < |g.blocks| ==> !ReturnsSelfCall(t, g.blocks[b])
  {
    hide LoopBlock;
    SitesElements(t, |t.f.blocks|);
    forall b: nat | b < |g.blocks| ensures !ReturnsSelfCall(t, g.blocks[b]) {
      if SitesBelow(t, |t.f.blocks|) == [] {
        assert !IsSite(t, b);
      } else if b > 0 {
        assert g.blocks[(b - 1) + 1] == LoopBlock(t, base, b - 1);
        LoopBlockReturnsNone(t, base, b - 1);
      }
    }
  }

  /** Builds the loop, if there is a site. */
  method EliminateTailRecursion(t: Subject, base: nat) returns (g: Function)
    requires hide *; 0 < |t.f.blocks|
    ensures g == if SitesBelow(t, |t.f.blocks|) == [] then t.f else Looped(t, base)
    ensures NothingFrom(base, t.f) ==> forall b :: 0 <= b < |g.blocks| ==> !ReturnsSelfCall(t, g.blocks[b])
  {
    hide ReturnsSelfCall, NothingFrom;
    var sites := FindSites(t);
    if sites == [] {
      if NothingFrom(base, t.f) {
        NoneIsReturned(t, base, t.f);
      }
      return t.f;
    }
    var phis: seq<Phi>, i := [], 0;
    while i < t.params
      invariant 0 <= i <= t.params == |ParamPhis(t, base)| && |phis| == i
      invariant forall k :: 0 <= k < i ==> phis[k] == ParamPhis(t, base)[k]
    {
      var incoming := BuildIncoming(t, base, i, sites);
      phis := phis + [Phi(base + i, incoming)];
      i := i + 1;
    }
    assert phis == ParamPhis(t, base);
    hide ParamPhis;
    var blocks := [Block([], [], Br(1))];
    var b := 0;
    while b < |t.f.blocks|
      invariant 0 <= b <= |t.f.blocks| && |blocks| == b + 1 && blocks[0] == Block([], [], Br(1))
      invariant forall k :: 0 <= k < b ==> blocks[k + 1] == LoopBlock(t, base, k)
    {
      var blk := t.f.blocks[b];
      var ps := if b == 0 then phis else MapPhis(blk.phis, base, t.params);
      var looped := if IsSite(t, b) then Block(ps, MapInsts(blk.insts[..|blk.insts| - 1], base, t.params), Br(1))
                    else Block(ps, MapInsts(blk.insts, base, t.params), MapTerm(blk.term, base, t.params));
      assert looped == LoopBlock(t, base, b);
      blocks := blocks + [looped];
      b := b + 1;
    }
    g := Function(blocks);
    LoopedBlocks(t, base, blocks);
    if NothingFrom(base, t.f) {
      NoneIsReturned(t, base, g);
    }
  }

  lemma LoopedBlocks(t: Subject, base: nat, blocks: seq<Block>)
    requires hide *; |blocks| == |t.f.blocks| + 1 && blocks[0] == Block([], [], Br(1))
    requires forall k :: 0 <= k < |t.f.blocks| ==> blocks[k + 1] == LoopBlock(t, base, k)
    ensures blocks == Looped(t, base).blocks
  {
    hide LoopBlock;
    var looped := Looped(t, base).blocks;
    forall k | 0 <= k < |blocks|
      ensures blocks[k] == looped[k]
    {
      if k > 0 {
        assert blocks[(k - 1) + 1] == LoopBlock(t, base, k - 1) == looped[(k - 1) + 1];
      }
    }
  }
}
