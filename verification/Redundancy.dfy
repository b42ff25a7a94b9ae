/** Replacing every use of a register by another that holds the same value wherever the first is ready,
    and erasing pure instructions that nobody uses. */
module Redundancy {
  import opened Int32
  import opened Graphs
  import opened Ir
  import opened Ssa
  import opened SsaForm
  import opened Rewriting

  // ----- replacing all uses -----

  /** `q` holds what `r` holds, at every point of every run where `r` is ready. */
  ghost predicate Redundant(f: Function, r: nat, q: nat) {
    forall params: seq<i32>, callees: Callees, w: World, b: nat, k: nat, s: Frame ::
      Passes(f, params, callees, w, b, k, s) && Ready(f, b, k, Reg(r)) ==> Get(s.regs, q) == Get(s.regs, r)
  }

  /** The registers agree wherever `r` may be used. */
  ghost predicate AgreeAt(f: Function, r: nat, q: nat, b: nat, k: nat, regs: map<nat, i32>) {
    Ready(f, b, k, Reg(r)) ==> Get(regs, q) == Get(regs, r)
  }

  lemma ReplacedOperand(f: Function, r: nat, q: nat, b: nat, k: nat, v: Operand, params: seq<i32>, regs: map<nat, i32>)
    requires hide *; AgreeAt(f, r, q, b, k, regs) && Ready(f, b, k, v)
    ensures Eval(Apply(map[r := Reg(q)], v), params, regs) == Eval(v, params, regs)
  {
    hide Before, Sets;
  }

  lemma ReplacedStep(f: Function, r: nat, q: nat, b: nat, k: nat, params: seq<i32>, callees: Callees, s: Frame)
    requires hide *; b < |f.blocks| && k < |f.blocks[b].insts| && AllReady(f, b, k, Uses(f.blocks[b].insts[k]))
    requires AgreeAt(f, r, q, b, k, s.regs)
    ensures Step(SubstInst(map[r := Reg(q)], f.blocks[b].insts[k]), params, callees, s)
            == Step(f.blocks[b].insts[k], params, callees, s)
  {
    hide Binop, Dst, Ready, Unop;
    var i, m := f.blocks[b].insts[k], map[r := Reg(q)];
    forall v | v in Uses(i)
      ensures Eval(Apply(m, v), params, s.regs) == Eval(v, params, s.regs)
    {
      ReplacedOperand(f, r, q, b, k, v, params, s.regs);
    }
    match i
    case Binary(_, _, x, y) => assert x in Uses(i) && y in Uses(i);
    case Unary(_, _, x) => assert x in Uses(i);
    case Store(_, x) => assert x in Uses(i);
    case Call(_, _, xs) => assert EvalAll(ApplyAll(m, xs), params, s.regs) == EvalAll(xs, params, s.regs);
    case _ =>
  }

  lemma {:induction false} ReplacedSteps(f: Function, r: nat, q: nat, params: seq<i32>, callees: Callees, prev: nat,
                                         b: nat, k: nat, s: Frame)
    requires hide *; b < |f.blocks| && k <= |f.blocks[b].insts|
    requires forall j: nat :: j < k ==> AllReady(f, b, j, Uses(f.blocks[b].insts[j]))
    requires forall j: nat :: j < k ==> AgreeAt(f, r, q, b, j, Inside(f, params, callees, prev, b, j, s).regs)
    ensures Steps(SubstInsts(map[r := Reg(q)], f.blocks[b].insts)[..k], params, callees,
                  Enter(f.blocks[b], prev, params, s))
         == Inside(f, params, callees, prev, b, k, s)
  {
    hide Dominates, Enter, Step;
    var insts, insts' := f.blocks[b].insts, SubstInsts(map[r := Reg(q)], f.blocks[b].insts);
    if k == 0 {
      assert insts[..0] == insts'[..0] == [];
    } else {
      assert insts[..k][..k - 1] == insts[..k - 1] && insts'[..k][..k - 1] == insts'[..k - 1];
      ReplacedSteps(f, r, q, params, callees, prev, b, k - 1, s);
      ReplacedStep(f, r, q, b, k - 1, params, callees, Inside(f, params, callees, prev, b, k - 1, s));
    }
  }

  lemma {:induction false} IncomingReplaced(m: map<nat, Operand>, inc: seq<(Operand, nat)>, p: nat)
    ensures Incoming(SubstIncoming(m, inc), p)
         == match Incoming(inc, p) case Some(v) => Some(Apply(m, v)) case None => None
  {
    if inc != [] {
      assert SubstIncoming(m, inc)[1..] == SubstIncoming(m, inc[1..]);
      IncomingReplaced(m, inc[1..], p);
    }
  }

  lemma {:induction false} PhisReplaced(f: Function, r: nat, q: nat, p: nat, phis: seq<Phi>, params: seq<i32>,
                                        regs: map<nat, i32>)
    requires hide *; p < |f.blocks| && AgreeAt(f, r, q, p, |f.blocks[p].insts|, regs)
    requires forall j :: 0 <= j < |phis| ==> Fed(f, phis[j], p)
    ensures PhiRegs(SubstPhis(map[r := Reg(q)], phis), p, params, regs) == PhiRegs(phis, p, params, regs)
  {
    hide AgreeAt, Eval, Incoming, Ready, SubstIncoming, SubstPhis;
    if phis != [] {
      var m, n := map[r := Reg(q)], |phis| - 1;
      assert SubstPhis(m, phis)[..n] == SubstPhis(m, phis[..n]);
      PhisReplaced(f, r, q, p, phis[..n], params, regs);
      IncomingReplaced(m, phis[n].incoming, p);
      assert Fed(f, phis[n], p);
      ReplacedOperand(f, r, q, p, |f.blocks[p].insts|, Incoming(phis[n].incoming, p).value, params, regs);
    }
  }

  lemma ReplacedLeave(f: Function, r: nat, q: nat, b: nat, params: seq<i32>, s: Frame)
    requires hide *; b < |f.blocks| && AllReady(f, b, |f.blocks[b].insts|, TermUses(f.blocks[b].term))
    requires AgreeAt(f, r, q, b, |f.blocks[b].insts|, s.regs)
    ensures Leave(SubstTerm(map[r := Reg(q)], f.blocks[b].term), b, params, s) == Leave(f.blocks[b].term, b, params, s)
  {
    hide AgreeAt, Eval, Ready, Targets;
    forall v | v in TermUses(f.blocks[b].term)
      ensures Eval(Apply(map[r := Reg(q)], v), params, s.regs) == Eval(v, params, s.regs)
    {
      ReplacedOperand(f, r, q, b, |f.blocks[b].insts|, v, params, s.regs);
    }
    match f.blocks[b].term
    case CondBr(c, _, _) => assert c in TermUses(f.blocks[b].term);
    case Ret(Some(v)) => assert v in TermUses(f.blocks[b].term);
    case _ =>
  }

  /** One block: what the registers hold on the edge in, and at every point inside, makes the copy do the same. */
  lemma ReplacedBlockRuns(f: Function, r: nat, q: nat, params: seq<i32>, callees: Callees, c: Config)
    requires hide *; Strict(f) && c.At? && c.block < |f.blocks|
    requires f.blocks[c.block].phis == [] || (c.prev < |f.blocks| && Edge(Cfg(f), c.prev, c.block)
                                            && AgreeAt(f, r, q, c.prev, |f.blocks[c.prev].insts|, c.frame.regs))
    requires forall k: nat :: k <= |f.blocks[c.block].insts| ==>
               AgreeAt(f, r, q, c.block, k, Inside(f, params, callees, c.prev, c.block, k, c.frame).regs)
    ensures RunBlock(ReplaceAllUses(f, r, Reg(q)), params, callees, c) == RunBlock(f, params, callees, c)
  {
    var blk, m, n := f.blocks[c.block], map[r := Reg(q)], |f.blocks[c.block].insts|;
    var blk' := ReplaceAllUses(f, r, Reg(q)).blocks[c.block];
    if blk.phis == [] {
      assert blk'.phis == [];
    } else {
      forall j | 0 <= j < |blk.phis|
        ensures Fed(f, blk.phis[j], c.prev)
      {
      }
      PhisReplaced(f, r, q, c.prev, blk.phis, params, c.frame.regs);
    }
    ReplacedSteps(f, r, q, params, callees, c.prev, c.block, n, c.frame);
    assert blk.insts[..n] == blk.insts && blk'.insts[..n] == blk'.insts;
    ReplacedLeave(f, r, q, c.block, params, Inside(f, params, callees, c.prev, c.block, n, c.frame));
  }

  /** A configuration on an edge comes from the end of the block it leaves. */
  ghost predicate FromEdge(f: Function, params: seq<i32>, callees: Callees, w: World, n: nat, c: Config) {
    c.At? ==> c.block < |f.blocks|
              && if n == 0 then c.block == 0
                 else c.prev < |f.blocks| && Edge(Cfg(f), c.prev, c.block)
                      && Passes(f, params, callees, w, c.prev, |f.blocks[c.prev].insts|, c.frame)
  }

  lemma {:induction false} EdgesOfRuns(f: Function, params: seq<i32>, callees: Callees, w: World, n: nat)
    requires Strict(f)
    ensures FromEdge(f, params, callees, w, n, Run(f, params, callees, Start(w), n))
  {
    hide AllReady, Enter, Fed, Leave, Sets, Steps;
    if n > 0 {
      EdgesOfRuns(f, params, callees, w, n - 1);
      var c := Run(f, params, callees, Start(w), n - 1);
      if c.At? {
        var insts := f.blocks[c.block].insts;
        assert insts[..|insts|] == insts;
        var s := Inside(f, params, callees, c.prev, c.block, |insts|, c.frame);
        assert PassesIn(f, params, callees, w, c.block, |insts|, s, n - 1, c.prev, c.frame);
        if Leave(f.blocks[c.block].term, c.block, params, s).At? {
          LeaveTakes(f, params, c.block, s);
        }
      }
    }
  }

  lemma AgreesAround(f: Function, r: nat, q: nat, params: seq<i32>, callees: Callees, w: World, n: nat, c: Config)
    requires hide *; Strict(f) && Redundant(f, r, q) && c == Run(f, params, callees, Start(w), n) && c.At?
    ensures c.block < |f.blocks|
    ensures f.blocks[c.block].phis == [] || (c.prev < |f.blocks| && Edge(Cfg(f), c.prev, c.block)
                                            && AgreeAt(f, r, q, c.prev, |f.blocks[c.prev].insts|, c.frame.regs))
    ensures forall k: nat :: k <= |f.blocks[c.block].insts| ==>
               AgreeAt(f, r, q, c.block, k, Inside(f, params, callees, c.prev, c.block, k, c.frame).regs)
  {
    hide Inside, Run, Sets, Steps;
    EdgesOfRuns(f, params, callees, w, n);
    assert c.block < |f.blocks| && f.blocks[0].phis == [];
    hide Strict, Ready, Inside, Run, Cfg;
    forall k: nat | k <= |f.blocks[c.block].insts|
      ensures AgreeAt(f, r, q, c.block, k, Inside(f, params, callees, c.prev, c.block, k, c.frame).regs)
    {
      var s := Inside(f, params, callees, c.prev, c.block, k, c.frame);
      assert PassesIn(f, params, callees, w, c.block, k, s, n, c.prev, c.frame);
      assert Passes(f, params, callees, w, c.block, k, s);
    }
  }

  lemma {:induction false} RedundantRuns(f: Function, r: nat, q: nat, params: seq<i32>, callees: Callees, w: World,
                                         n: nat)
    requires Strict(f) && Redundant(f, r, q)
    ensures Run(ReplaceAllUses(f, r, Reg(q)), params, callees, Start(w), n) == Run(f, params, callees, Start(w), n)
  {
    hide Binop, Passes, Sets, SubstBlock, Unop, Strict, Redundant, ReplaceAllUses, Inside, AgreeAt, Step, Enter,
         Leave;
    if n > 0 {
      RedundantRuns(f, r, q, params, callees, w, n - 1);
      var c := Run(f, params, callees, Start(w), n - 1);
      if c.At? {
        AgreesAround(f, r, q, params, callees, w, n - 1, c);
        ReplacedBlockRuns(f, r, q, params, callees, c);
      }
    }
  }

  lemma RedundantIsAlike(f: Function, r: nat, q: nat)
    requires Strict(f) && Redundant(f, r, q)
    ensures Alike(f, ReplaceAllUses(f, r, Reg(q)))
  {
    hide Passes, RunBlock, Sets, Steps, SubstBlock;
    forall params: seq<i32>, callees: Callees, w: World, n: nat
      ensures Run(ReplaceAllUses(f, r, Reg(q)), params, callees, Start(w), n) == Run(f, params, callees, Start(w), n)
    {
      RedundantRuns(f, r, q, params, callees, w, n);
    }
  }

  // ----- strict form under replacement -----

  lemma {:induction false} DefinitionStays(f: Function, r: nat, q: nat)
    ensures Cfg(ReplaceAllUses(f, r, Reg(q))) == Cfg(f)
    ensures forall p, x: nat :: Sets(ReplaceAllUses(f, r, Reg(q)), p, x) <==> Sets(f, p, x)
  {
    assert Cfg(ReplaceAllUses(f, r, Reg(q))) == Cfg(f);
  }

  lemma ReadyReplaced(f: Function, r: nat, q: nat, c: nat, j: nat, b: nat, k: nat, v: Operand)
    requires hide *;
             Strict(f) && b < |f.blocks| && Sets(f, InstPlace(c, j), r) && Ready(f, c, j, Reg(q)) && Ready(f, b, k, v)
    ensures Ready(ReplaceAllUses(f, r, Reg(q)), b, k, Apply(map[r := Reg(q)], v))
  {
    hide Cfg, Dst, Fed, ReplaceAllUses, Uses;
    var g := ReplaceAllUses(f, r, Reg(q));
    DefinitionStays(f, r, q);
    if v.Reg? {
      var p :| Sets(f, p, v.id) && Before(f, p, b, k);
      if v.id == r {
        assert p == InstPlace(c, j);
        var p' :| Sets(f, p', q) && Before(f, p', c, j);
        BeforeBefore(f, p', c, j, b, k);
        assert Sets(g, p', q) && Before(g, p', b, k);
      } else {
        assert Sets(g, p, v.id) && Before(g, p, b, k);
      }
    }
  }

  lemma UsesReplaced(m: map<nat, Operand>, i: Inst)
    ensures forall v :: v in Uses(SubstInst(m, i)) ==> exists u :: u in Uses(i) && v == Apply(m, u)
  {
    forall v | v in Uses(SubstInst(m, i))
      ensures exists u :: u in Uses(i) && v == Apply(m, u)
    {
      match i
      case Binary(_, _, x, y) => assert x in Uses(i) && y in Uses(i);
      case Unary(_, _, x) => assert x in Uses(i);
      case Store(_, x) => assert x in Uses(i);
      case Call(_, _, xs) =>
        var n :| 0 <= n < |xs| && ApplyAll(m, xs)[n] == v;
        assert xs[n] in Uses(i);
      case _ =>
    }
  }

  /** Replacing a register by one that is ready at its definition keeps the form strict. */
  lemma ReplacementIsStrict(f: Function, r: nat, q: nat, c: nat, j: nat)
    requires Strict(f) && Sets(f, InstPlace(c, j), r) && Ready(f, c, j, Reg(q))
    ensures Strict(ReplaceAllUses(f, r, Reg(q)))
  {
    hide AllReachable, Ready, Sets, SubstIncoming, SubstInst, SubstInsts, SubstPhis, Uses;
    var g, m := ReplaceAllUses(f, r, Reg(q)), map[r := Reg(q)];
    DefinitionStays(f, r, q);
    hide Ready, Sets;
    forall b: nat, k: nat | b < |g.blocks| && k < |g.blocks[b].insts|
      ensures AllReady(g, b, k, Uses(g.blocks[b].insts[k]))
    {
      UsesReplaced(m, f.blocks[b].insts[k]);
      forall v | v in Uses(g.blocks[b].insts[k])
        ensures Ready(g, b, k, v)
      {
        var u :| u in Uses(f.blocks[b].insts[k]) && v == Apply(m, u);
        assert AllReady(f, b, k, Uses(f.blocks[b].insts[k]));
        ReadyReplaced(f, r, q, c, j, b, k, u);
      }
    }
    forall b: nat | b < |g.blocks|
      ensures AllReady(g, b, |g.blocks[b].insts|, TermUses(g.blocks[b].term))
    {
      forall u | u in TermUses(f.blocks[b].term)
        ensures Ready(g, b, |g.blocks[b].insts|, Apply(m, u))
      {
        ReadyReplaced(f, r, q, c, j, b, |f.blocks[b].insts|, u);
      }
    }
    forall p: nat, b: nat, n: nat | p < |g.blocks| && Edge(Cfg(g), p, b) && b < |g.blocks| && n < |g.blocks[b].phis|
      ensures Fed(g, g.blocks[b].phis[n], p)
    {
      var inc := f.blocks[b].phis[n].incoming;
      assert Fed(f, f.blocks[b].phis[n], p);
      IncomingReplaced(m, inc, p);
      ReadyReplaced(f, r, q, c, j, p, |f.blocks[p].insts|, Incoming(inc, p).value);
    }
  }

  // ----- erasing -----

  predicate Dead(i: Inst, dead: set<nat>) {
    Pure(i) && i.dst in dead
  }

  function KeepLive(insts: seq<Inst>, dead: set<nat>): seq<Inst> {
    if insts == [] then []
    else
      KeepLive(insts[..|insts| - 1], dead) + if Dead(insts[|insts| - 1], dead) then [] else [insts[|insts| - 1]]
  }

  function EraseDead(f: Function, dead: set<nat>): (g: Function)
    ensures |g.blocks| == |f.blocks|
  {
    Function(seq(|f.blocks|, b requires 0 <= b < |f.blocks| =>
                   f.blocks[b].(insts := KeepLive(f.blocks[b].insts, dead))))
  }

  predicate Mentions(vs: seq<Operand>, r: nat) {
    Reg(r) in vs
  }

  /** No instruction, terminator or phi uses a register of `dead`. */
  ghost predicate Unused(f: Function, dead: set<nat>) {
    && (forall b: nat, k: nat, r: nat :: r in dead && b < |f.blocks| && k < |f.blocks[b].insts| ==>
          !Mentions(Uses(f.blocks[b].insts[k]), r))
    && (forall b: nat, r: nat :: r in dead && b < |f.blocks| ==> !Mentions(TermUses(f.blocks[b].term), r))
    && (forall b: nat, j: nat, n: nat, r: nat ::
          r in dead && b < |f.blocks| && j < |f.blocks[b].phis| && n < |f.blocks[b].phis[j].incoming| ==>
          f.blocks[b].phis[j].incoming[n].0 != Reg(r))
  }

  ghost predicate Agrees(dead: set<nat>, s: Frame, s': Frame) {
    s'.slots == s.slots && s'.world == s.world && forall r: nat :: r !in dead ==> Get(s'.regs, r) == Get(s.regs, r)
  }

  lemma LiveStep(i: Inst, dead: set<nat>, params: seq<i32>, callees: Callees, s: Frame, s': Frame)
    requires Agrees(dead, s, s') && forall r :: r in dead ==> !Mentions(Uses(i), r)
    ensures Agrees(dead, Step(i, params, callees, s), if Dead(i, dead) then s' else Step(i, params, callees, s'))
  {
    forall v | v in Uses(i)
      ensures Eval(v, params, s'.regs) == Eval(v, params, s.regs)
    {
    }
    match i
    case Binary(_, _, x, y) => assert x in Uses(i) && y in Uses(i);
    case Unary(_, _, x) => assert x in Uses(i);
    case Store(_, x) => assert x in Uses(i);
    case Call(_, _, xs) => assert EvalAll(xs, params, s'.regs) == EvalAll(xs, params, s.regs);
    case _ =>
  }

  lemma {:induction false} LiveSteps(insts: seq<Inst>, dead: set<nat>, params: seq<i32>, callees: Callees, s: Frame,
                                     s': Frame)
    requires hide *;
             Agrees(dead, s, s') && forall k: nat, r: nat :: k < |insts| && r in dead ==> !Mentions(Uses(insts[k]), r)
    ensures Agrees(dead, Steps(insts, params, callees, s), Steps(KeepLive(insts, dead), params, callees, s'))
  {
    hide Agrees, Step, Uses;
    if insts != [] {
      var front, last := insts[..|insts| - 1], insts[|insts| - 1];
      LiveSteps(front, dead, params, callees, s, s');
      var t, t' := Steps(front, params, callees, s), Steps(KeepLive(front, dead), params, callees, s');
      LiveStep(last, dead, params, callees, t, t');
      if !Dead(last, dead) {
        assert KeepLive(insts, dead)[..|KeepLive(insts, dead)| - 1] == KeepLive(front, dead);
      } else {
        assert KeepLive(insts, dead) == KeepLive(front, dead);
      }
    }
  }

  lemma {:induction false} IncomingIsThere(inc: seq<(Operand, nat)>, p: nat)
    requires Incoming(inc, p).Some?
    ensures exists n :: 0 <= n < |inc| && inc[n].0 == Incoming(inc, p).value
  {
    if inc[0].1 != p {
      IncomingIsThere(inc[1..], p);
      var n :| 0 <= n < |inc[1..]| && inc[1..][n].0 == Incoming(inc[1..], p).value;
      assert inc[n + 1].0 == Incoming(inc, p).value;
    }
  }

  lemma {:induction false} LivePhis(phis: seq<Phi>, dead: set<nat>, p: nat, params: seq<i32>, regs: map<nat, i32>,
                                    regs': map<nat, i32>)
    requires forall r: nat :: r !in dead ==> Get(regs', r) == Get(regs, r)
    requires forall j: nat, n: nat, r: nat :: r in dead && j < |phis| && n < |phis[j].incoming| ==>
               phis[j].incoming[n].0 != Reg(r)
    ensures forall r: nat :: r !in dead ==>
              Get(PhiRegs(phis, p, params, regs'), r) == Get(PhiRegs(phis, p, params, regs), r)
  {
    if phis != [] {
      var last := phis[|phis| - 1];
      LivePhis(phis[..|phis| - 1], dead, p, params, regs, regs');
      if Incoming(last.incoming, p).Some? {
        IncomingIsThere(last.incoming, p);
      }
    }
  }

  ghost predicate AgreeOn(dead: set<nat>, c: Config, d: Config) {
    match c
    case Done(_, _) => d == c
    case At(p, b, s) => d.At? && d.prev == p && d.block == b && Agrees(dead, s, d.frame)
  }

  lemma LiveBlock(f: Function, dead: set<nat>, params: seq<i32>, callees: Callees, c: Config, d: Config)
    requires Unused(f, dead) && AgreeOn(dead, c, d)
    ensures AgreeOn(dead, RunBlock(f, params, callees, c), RunBlock(EraseDead(f, dead), params, callees, d))
  {
    hide KeepLive, PhiRegs, Steps;
    if c.At? && c.block < |f.blocks| {
      var blk := f.blocks[c.block];
      LivePhis(blk.phis, dead, c.prev, params, c.frame.regs, d.frame.regs);
      var s, s' := Enter(blk, c.prev, params, c.frame), Enter(blk, c.prev, params, d.frame);
      LiveSteps(blk.insts, dead, params, callees, s, s');
      var t, t' := Steps(blk.insts, params, callees, s), Steps(KeepLive(blk.insts, dead), params, callees, s');
      hide Steps, KeepLive, PhiRegs;
      forall v | v in TermUses(blk.term)
        ensures Eval(v, params, t'.regs) == Eval(v, params, t.regs)
      {
        assert v.Reg? ==> Mentions(TermUses(blk.term), v.id);
      }
      match blk.term
      case CondBr(x, _, _) => assert x in TermUses(blk.term);
      case Ret(Some(x)) => assert x in TermUses(blk.term);
      case _ =>
    }
  }

  lemma {:induction false} LiveRuns(f: Function, dead: set<nat>, params: seq<i32>, callees: Callees, w: World, n: nat)
    requires Unused(f, dead)
    ensures AgreeOn(dead, Run(f, params, callees, Start(w), n), Run(EraseDead(f, dead), params, callees, Start(w), n))
  {
    hide Unused, RunBlock, EraseDead;
    if n > 0 {
      LiveRuns(f, dead, params, callees, w, n - 1);
      LiveBlock(f, dead, params, callees, Run(f, params, callees, Start(w), n - 1),
                Run(EraseDead(f, dead), params, callees, Start(w), n - 1));
    }
  }

  /** Erasing pure instructions whose results nobody uses is not observable. */
  lemma ErasingPreservesRuns(f: Function, dead: set<nat>)
    requires Unused(f, dead)
    ensures SameRuns(f, EraseDead(f, dead))
  {
    hide EraseDead, Run, Unused;
    forall params: seq<i32>, callees: Callees, w: World, n: nat
      ensures SameSoFar(Run(f, params, callees, Start(w), n), Run(EraseDead(f, dead), params, callees, Start(w), n))
    {
      LiveRuns(f, dead, params, callees, w, n);
    }
  }

  lemma AlikeThenSame(f: Function, g: Function, h: Function)
    requires Alike(f, g) && SameRuns(g, h)
    ensures SameRuns(f, h)
  {
    hide Run;
    forall params: seq<i32>, callees: Callees, w: World, n: nat
      ensures SameSoFar(Run(f, params, callees, Start(w), n), Run(h, params, callees, Start(w), n))
    {
      assert Run(g, params, callees, Start(w), n) == Run(f, params, callees, Start(w), n);
      assert SameSoFar(Run(g, params, callees, Start(w), n), Run(h, params, callees, Start(w), n));
    }
  }
}
