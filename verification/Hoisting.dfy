/** Moving one pure instruction to the end of a block that dominates it. */
module Hoisting {
  import opened Int32
  import opened Graphs
  import opened Ir
  import opened Ssa
  import opened SsaForm
  import Runs

  /** Instruction `j` of block `c` becomes the last one of block `p`. */
  function HoistedBlock(f: Function, c: nat, j: nat, p: nat, b: nat): Block
    requires c < |f.blocks| && j < |f.blocks[c].insts| && b < |f.blocks|
  {
    var insts := f.blocks[b].insts;
    var kept := if b == c then insts[..j] + insts[j + 1..] else insts;
    f.blocks[b].(insts := if b == p then kept + [f.blocks[c].insts[j]] else kept)
  }

  function Hoisted(f: Function, c: nat, j: nat, p: nat): (g: Function)
    requires c < |f.blocks| && j < |f.blocks[c].insts|
    ensures |g.blocks| == |f.blocks|
    ensures forall b: nat :: b < |f.blocks| ==> g.blocks[b] == HoistedBlock(f, c, j, p, b)
  {
    Function(seq(|f.blocks|, b requires 0 <= b < |f.blocks| => HoistedBlock(f, c, j, p, b)))
  }

  /** The instruction computes from its operands alone, every path to it passes through `p`, and its operands are
      there at the end of `p`. */
  ghost predicate Hoistable(f: Function, c: nat, j: nat, p: nat) {
    && Strict(f) && IsPure(f, c, j) && p < |f.blocks| && p != c && Dominates(Cfg(f), p, c)
    && AllReady(f, p, |f.blocks[p].insts|, Uses(f.blocks[c].insts[j]))
  }

  // ----- places -----

  /** Where the point before instruction `k` of block `b` is afterwards. */
  function NewIndex(c: nat, j: nat, b: nat, k: nat): nat {
    if b == c && k > j then k - 1 else k
  }

  function NewPlace(f: Function, c: nat, j: nat, p: nat, q: Place): Place
    requires p < |f.blocks|
  {
    if q == InstPlace(c, j) then InstPlace(p, |f.blocks[p].insts|)
    else if q.InstPlace? then InstPlace(q.block, NewIndex(c, j, q.block, q.index))
    else q
  }

  function OldPlace(f: Function, c: nat, j: nat, p: nat, q: Place): Place
    requires p < |f.blocks|
  {
    if q == InstPlace(p, |f.blocks[p].insts|) then InstPlace(c, j)
    else if q.InstPlace? && q.block == c && q.index >= j then InstPlace(c, q.index + 1)
    else q
  }

  lemma HoistedInsts(f: Function, c: nat, j: nat, p: nat, b: nat)
    requires c < |f.blocks| && j < |f.blocks[c].insts| && p < |f.blocks| && p != c && b < |f.blocks|
    ensures var g, insts := Hoisted(f, c, j, p), f.blocks[b].insts; var insts' := g.blocks[b].insts;
      && g.blocks[b].phis == f.blocks[b].phis && g.blocks[b].term == f.blocks[b].term
      && |insts'| == (if b == c then |insts| - 1 else if b == p then |insts| + 1 else |insts|)
      && (forall k: nat :: k < |insts| && !(b == c && k == j) ==> insts'[NewIndex(c, j, b, k)] == insts[k])
      && (b == p ==> insts'[|insts|] == f.blocks[c].insts[j])
      && (b == c ==> forall k: nat :: j <= k < |insts'| ==> insts'[k] == insts[k + 1])
      && (b != c ==> forall k: nat :: k < |insts| ==> insts'[k] == insts[k])
      && (b == c ==> forall k: nat :: k < j ==> insts'[k] == insts[k])
  {
    assert Hoisted(f, c, j, p).blocks[b] == HoistedBlock(f, c, j, p, b);
  }

  lemma SameGraph(f: Function, c: nat, j: nat, p: nat)
    requires c < |f.blocks| && j < |f.blocks[c].insts|
    ensures Cfg(Hoisted(f, c, j, p)) == Cfg(f)
  {
    var g := Hoisted(f, c, j, p);
    forall b: nat | b < |f.blocks| ensures g.blocks[b].term == f.blocks[b].term {
      assert g.blocks[b] == HoistedBlock(f, c, j, p, b);
    }
  }

  lemma SetsMoved(f: Function, c: nat, j: nat, p: nat, q: Place, r: nat)
    requires hide *; c < |f.blocks| && j < |f.blocks[c].insts| && p < |f.blocks| && p != c && Sets(f, q, r)
    ensures Sets(Hoisted(f, c, j, p), NewPlace(f, c, j, p, q), r)
  {
    hide Hoisted;
    HoistedInsts(f, c, j, p, q.block);
    HoistedInsts(f, c, j, p, p);
  }

  lemma InstCameFrom(f: Function, c: nat, j: nat, p: nat, b: nat, k: nat)
    requires c < |f.blocks| && j < |f.blocks[c].insts| && p < |f.blocks| && p != c
    requires b < |f.blocks| && k < |Hoisted(f, c, j, p).blocks[b].insts|
    ensures var q := OldPlace(f, c, j, p, InstPlace(b, k));
      && q.block < |f.blocks| && q.index < |f.blocks[q.block].insts|
      && f.blocks[q.block].insts[q.index] == Hoisted(f, c, j, p).blocks[b].insts[k]
      && NewPlace(f, c, j, p, q) == InstPlace(b, k)
  {
    assert Hoisted(f, c, j, p).blocks[b] == HoistedBlock(f, c, j, p, b);
  }

  lemma SetsCameFrom(f: Function, c: nat, j: nat, p: nat, q: Place, r: nat)
    requires hide *;
             c < |f.blocks| && j < |f.blocks[c].insts| && p < |f.blocks| && p != c && Sets(Hoisted(f, c, j, p), q, r)
    ensures Sets(f, OldPlace(f, c, j, p, q), r) && NewPlace(f, c, j, p, OldPlace(f, c, j, p, q)) == q
  {
    if q.InstPlace? {
      hide Hoisted, NewPlace, OldPlace;
      InstCameFrom(f, c, j, p, q.block, q.index);
      OldPlaceIsInst(f, c, j, p, q);
    } else {
      assert Hoisted(f, c, j, p).blocks[q.block].phis == f.blocks[q.block].phis;
    }
  }

  lemma OldPlaceIsInst(f: Function, c: nat, j: nat, p: nat, q: Place)
    requires p < |f.blocks|
    ensures OldPlace(f, c, j, p, q).InstPlace? == q.InstPlace?
  {
  }

  /** What dominated a point dominates it still. */
  lemma BeforeMoved(f: Function, c: nat, j: nat, p: nat, q: Place, b: nat, k: nat)
    requires hide AllReady, Cfg, Dominates, Hoisted, Strict;
             Hoistable(f, c, j, p) && Before(f, q, b, k) && b < |f.blocks|
    ensures Before(Hoisted(f, c, j, p), NewPlace(f, c, j, p, q), b, NewIndex(c, j, b, k))
  {
    hide AllReady, Cfg, Fed, Hoisted, PathTo, Sets, Uses;
    SameGraph(f, c, j, p);
    if q == InstPlace(c, j) {
      DominatesThrough(Cfg(f), p, c, b);
      if b == p {
        assert Reachable(Cfg(f), c);
        DominatesAntisymmetric(Cfg(f), p, c);
      }
    }
  }

  lemma ReadyMoved(f: Function, c: nat, j: nat, p: nat, b: nat, k: nat, v: Operand)
    requires hide Cfg, Dominates, Hoisted, Ready, Strict; Hoistable(f, c, j, p) && Ready(f, b, k, v) && b < |f.blocks|
    ensures Ready(Hoisted(f, c, j, p), b, NewIndex(c, j, b, k), v)
  {
    hide Cfg, Dominates, Hoisted, NewPlace, Sets, Strict, Uses, Before, NewIndex;
    if v.Reg? {
      var q :| Sets(f, q, v.id) && Before(f, q, b, k);
      SetsMoved(f, c, j, p, q, v.id);
      BeforeMoved(f, c, j, p, q, b, k);
    }
  }

  lemma ReadyLater(f: Function, b: nat, k: nat, k': nat, v: Operand)
    requires Ready(f, b, k, v) && k <= k'
    ensures Ready(f, b, k', v)
  {
    hide Cfg, Dominates, Sets;
    if v.Reg? {
      var q :| Sets(f, q, v.id) && Before(f, q, b, k);
      assert Before(f, q, b, k');
    }
  }

  /** At the end of a block everything that was ready is ready. */
  lemma ReadyAtEnd(f: Function, c: nat, j: nat, p: nat, b: nat, v: Operand)
    requires hide Cfg, Dominates, Hoisted, Ready, Strict;
             Hoistable(f, c, j, p) && b < |f.blocks| && Ready(f, b, |f.blocks[b].insts|, v)
    ensures Ready(Hoisted(f, c, j, p), b, |Hoisted(f, c, j, p).blocks[b].insts|, v)
  {
    hide Cfg, Dominates, Hoisted, Ready, Strict, Uses;
    HoistedInsts(f, c, j, p, b);
    ReadyMoved(f, c, j, p, b, |f.blocks[b].insts|, v);
    ReadyLater(Hoisted(f, c, j, p), b, NewIndex(c, j, b, |f.blocks[b].insts|), |Hoisted(f, c, j, p).blocks[b].insts|,
               v);
  }

  /** Every instruction of the result has its operands. */
  lemma UsesMoved(f: Function, c: nat, j: nat, p: nat, b: nat, k: nat)
    requires hide AllReady, Cfg, Dominates, Hoisted, Strict; Hoistable(f, c, j, p)
    requires var g := Hoisted(f, c, j, p); b < |g.blocks| && k < |g.blocks[b].insts|
    ensures var g := Hoisted(f, c, j, p); AllReady(g, b, k, Uses(g.blocks[b].insts[k]))
  {
    hide Cfg, Dominates, Hoisted, Ready, Strict, Uses;
    var g := Hoisted(f, c, j, p);
    hide Hoisted, Ready, Hoistable;
    IsPureHere(f, c, j, p);
    HoistedInsts(f, c, j, p, b);
    var (b0, k0) := if b == p && k == |f.blocks[p].insts| then (c, j) else if b == c
                                                                             && k >= j then (c, k + 1) else (b, k);
    assert g.blocks[b].insts[k] == f.blocks[b0].insts[k0];
    forall v | v in Uses(f.blocks[b0].insts[k0]) ensures Ready(g, b, k, v) {
      if b == p && k == |f.blocks[p].insts| {
        OperandsAtEnd(f, c, j, p, v);
        ReadyMoved(f, c, j, p, p, k, v);
      } else {
        OperandsReady(f, c, j, p, b0, k0, v);
        ReadyMoved(f, c, j, p, b0, k0, v);
      }
    }
  }

  lemma IsPureHere(f: Function, c: nat, j: nat, p: nat)
    requires Hoistable(f, c, j, p)
    ensures IsPure(f, c, j) && p < |f.blocks| && p != c
  {
    hide AllReady, Cfg, Dominates, Strict, Uses;
  }

  lemma PureIsThere(f: Function, c: nat, j: nat)
    requires IsPure(f, c, j)
    ensures c < |f.blocks| && j < |f.blocks[c].insts|
  {
  }

  lemma OperandsAtEnd(f: Function, c: nat, j: nat, p: nat, v: Operand)
    requires hide Cfg, Dominates, Ready, Strict, Uses; Hoistable(f, c, j, p) && v in Uses(f.blocks[c].insts[j])
    ensures Ready(f, p, |f.blocks[p].insts|, v)
  {
    hide Cfg, Dominates, IsPure, Ready, Strict, Uses;
  }

  lemma OperandsReady(f: Function, c: nat, j: nat, p: nat, b: nat, k: nat, v: Operand)
    requires hide *;
             Hoistable(f, c, j, p) && b < |f.blocks| && k < |f.blocks[b].insts| && v in Uses(f.blocks[b].insts[k])
    ensures Ready(f, b, k, v)
  {
    hide AllReachable, Cfg, Fed, IsPure, PathTo, Ready, Sets, TermUses, Uses;
    assert AllReady(f, b, k, Uses(f.blocks[b].insts[k]));
  }

  lemma FedMoved(f: Function, c: nat, j: nat, p: nat, a: nat, b: nat, n: nat)
    requires hide Dominates, Fed, Hoisted, Ready, Strict;
             Hoistable(f, c, j, p) && a < |f.blocks| && Edge(Cfg(f), a, b) && b < |f.blocks| && n < |f.blocks[b].phis|
    ensures a < |Hoisted(f, c, j, p).blocks| && Fed(Hoisted(f, c, j, p), f.blocks[b].phis[n], a)
  {
    hide Hoisted, Ready;
    var phi := f.blocks[b].phis[n];
    assert Fed(f, phi, a);
    ReadyAtEnd(f, c, j, p, a, Incoming(phi.incoming, a).value);
    SameGraph(f, c, j, p);
  }

  lemma SetOnceMoved(f: Function, c: nat, j: nat, p: nat)
    requires hide AllReady, Dominates, Hoisted, Sets, Strict; Hoistable(f, c, j, p)
    ensures SetOnce(Hoisted(f, c, j, p))
  {
    hide AllReady, Cfg, Fed, Hoisted, NewPlace, OldPlace, Sets, Uses;
    var g := Hoisted(f, c, j, p);
    forall q, q', r: nat | Sets(g, q, r) && Sets(g, q', r) ensures q == q' {
      SetsCameFrom(f, c, j, p, q, r);
      SetsCameFrom(f, c, j, p, q', r);
    }
  }

  /** The form stays strict. */
  lemma HoistedIsStrict(f: Function, c: nat, j: nat, p: nat)
    requires hide AllReady, Cfg, Dominates, Hoisted, Strict; Hoistable(f, c, j, p)
    ensures Strict(Hoisted(f, c, j, p))
  {
    hide Hoisted, Fed, AllReady;
    var g := Hoisted(f, c, j, p);
    SameGraph(f, c, j, p);
    SetOnceMoved(f, c, j, p);
    HoistedInsts(f, c, j, p, 0);
    forall b: nat, k: nat | b < |g.blocks| && k < |g.blocks[b].insts|
      ensures AllReady(g, b, k, Uses(g.blocks[b].insts[k])) {
      UsesMoved(f, c, j, p, b, k);
    }
    forall b: nat | b < |g.blocks| ensures AllReady(g, b, |g.blocks[b].insts|, TermUses(g.blocks[b].term)) {
      TermMoved(f, c, j, p, b);
    }
    forall a: nat, b: nat, n: nat | a < |g.blocks| && Edge(Cfg(g), a, b) && b < |g.blocks| && n < |g.blocks[b].phis|
      ensures Fed(g, g.blocks[b].phis[n], a)
    {
      HoistedInsts(f, c, j, p, b);
      FedMoved(f, c, j, p, a, b, n);
    }
  }

  lemma TermMoved(f: Function, c: nat, j: nat, p: nat, b: nat)
    requires hide AllReady, Cfg, Dominates, Hoisted, Strict; Hoistable(f, c, j, p) && b < |f.blocks|
    ensures var g := Hoisted(f, c, j, p); AllReady(g, b, |g.blocks[b].insts|, TermUses(g.blocks[b].term))
  {
    var g := Hoisted(f, c, j, p);
    HoistedInsts(f, c, j, p, b);
    hide Hoisted, Ready;
    assert AllReady(f, b, |f.blocks[b].insts|, TermUses(f.blocks[b].term));
    forall v | v in TermUses(f.blocks[b].term) ensures Ready(g, b, |g.blocks[b].insts|, v) {
      ReadyAtEnd(f, c, j, p, b, v);
    }
  }

  // ----- the two runs -----

  /** Everything else that is ready agrees; slots and world are the same. */
  ghost predicate Level(f: Function, r: nat, b: nat, k: nat, s: Frame, s': Frame) {
    && s'.slots == s.slots && s'.world == s.world
    && forall q: nat :: q != r && Ready(f, b, k, Reg(q)) ==> Get(s'.regs, q) == Get(s.regs, q)
  }

  function MovedReg(f: Function, c: nat, j: nat): nat
    requires IsPure(f, c, j)
  {
    f.blocks[c].insts[j].dst
  }

  lemma MovedPlace(f: Function, c: nat, j: nat, p: nat, b: nat, k: nat)
    requires hide Cfg, Dominates, Ready, Strict, Uses; Hoistable(f, c, j, p) && Ready(f, b, k, Reg(MovedReg(f, c, j)))
    ensures Before(f, InstPlace(c, j), b, k)
  {
    hide AllReachable, Cfg, Fed, PathTo, TermUses, Uses;
    var r := MovedReg(f, c, j);
    var q :| Sets(f, q, r) && Before(f, q, b, k);
    assert Sets(f, InstPlace(c, j), r);
  }

  /** The operands of the moved instruction are ready wherever it is, and it is none of them. */
  lemma OperandsStayReady(f: Function, c: nat, j: nat, p: nat, b: nat, k: nat, q: nat)
    requires hide Cfg, Dominates, Ready, Strict, Uses;
             Hoistable(f, c, j, p) && Before(f, InstPlace(c, j), b, k) && b < |f.blocks|
             && Reg(q) in Uses(f.blocks[c].insts[j])
    ensures Ready(f, b, k, Reg(q)) && q != MovedReg(f, c, j)
  {
    hide AllReachable, Cfg, Fed, PathTo, TermUses;
    OperandsReady(f, c, j, p, c, j, Reg(q));
    var a :| Sets(f, a, q) && Before(f, a, c, j);
    BeforeBefore(f, a, c, j, b, k);
    assert Sets(f, InstPlace(c, j), MovedReg(f, c, j));
  }

  /** The moved register agrees too, because both runs know its equation. */
  lemma MovedAgrees(f: Function, c: nat, j: nat, p: nat, params: seq<i32>, b: nat, k: nat, k': nat, s: Frame, s': Frame)
    requires hide Dominates, Equations, Hoisted, Ready, Strict;
             Hoistable(f, c, j, p) && b < |f.blocks| && Level(f, MovedReg(f, c, j), b, k, s, s')
    requires NewIndex(c, j, b, k) <= k'
    requires Equations(f, params, b, k, s.regs) && Equations(Hoisted(f, c, j, p), params, b, k', s'.regs)
    requires Ready(f, b, k, Reg(MovedReg(f, c, j)))
    ensures Get(s'.regs, MovedReg(f, c, j)) == Get(s.regs, MovedReg(f, c, j))
  {
    hide Dominates, Hoisted, PureValue, Ready, Strict;
    var g, n, i := Hoisted(f, c, j, p), |f.blocks[p].insts|, f.blocks[c].insts[j];
    MovedPlace(f, c, j, p, b, k);
    BeforeMoved(f, c, j, p, InstPlace(c, j), b, k);
    HoistedInsts(f, c, j, p, p);
    assert Before(g, InstPlace(p, n), b, k');
    hide Hoisted, Ready, Before;
    forall v | v in Uses(i) && v.Reg? ensures Get(s'.regs, v.id) == Get(s.regs, v.id) {
      OperandsStayReady(f, c, j, p, b, k, v.id);
    }
    SameValue(i, params, s.regs, s'.regs);
    assert Equation(f, params, c, j, s.regs);
    assert IsPure(g, p, n) && Equation(g, params, p, n, s'.regs);
  }

  /** All that is ready agrees. */
  ghost predicate Even(f: Function, b: nat, k: nat, s: Frame, s': Frame) {
    && s'.slots == s.slots && s'.world == s.world
    && forall q: nat :: Ready(f, b, k, Reg(q)) ==> Get(s'.regs, q) == Get(s.regs, q)
  }

  lemma LevelIsEven(f: Function, c: nat, j: nat, p: nat, params: seq<i32>, b: nat, k: nat, k': nat, s: Frame, s': Frame)
    requires hide Dominates, Equations, Hoisted, Ready, Strict;
             Hoistable(f, c, j, p) && b < |f.blocks| && Level(f, MovedReg(f, c, j), b, k, s, s')
    requires NewIndex(c, j, b, k) <= k'
    requires Equations(f, params, b, k, s.regs) && Equations(Hoisted(f, c, j, p), params, b, k', s'.regs)
    ensures Even(f, b, k, s, s')
  {
    hide Equations, Hoistable, Hoisted, Ready, NewIndex;
    IsPureHere(f, c, j, p);
    var r := MovedReg(f, c, j);
    if Ready(f, b, k, Reg(r)) {
      MovedAgrees(f, c, j, p, params, b, k, k', s, s');
    }
  }

  lemma OperandAgrees(f: Function, b: nat, k: nat, params: seq<i32>, s: Frame, s': Frame, v: Operand)
    requires Even(f, b, k, s, s') && Ready(f, b, k, v)
    ensures Eval(v, params, s'.regs) == Eval(v, params, s.regs)
  {
    hide Get, Ready;
  }

  /** The same instruction on both sides. */
  lemma SameStep(f: Function, r: nat, b: nat, k: nat, params: seq<i32>, callees: Callees, s: Frame, s': Frame)
    requires hide *; b < |f.blocks| && k < |f.blocks[b].insts| && AllReady(f, b, k, Uses(f.blocks[b].insts[k]))
             && Even(f, b, k, s, s')
    ensures var i := f.blocks[b].insts[k]; Level(f, r, b, k + 1, Step(i, params, callees, s),
                                                 Step(i, params, callees, s'))
  {
    hide Before, Binop, Dst, Sets, Unop;
    var i := f.blocks[b].insts[k];
    forall v | v in Uses(i) ensures Eval(v, params, s'.regs) == Eval(v, params, s.regs) {
      OperandAgrees(f, b, k, params, s, s', v);
    }
    SameWrite(i, params, callees, s, s');
    forall q: nat | q != r && Ready(f, b, k + 1, Reg(q))
      ensures Get(Step(i, params, callees, s').regs, q) == Get(Step(i, params, callees, s).regs, q)
    {
      ReadyNext(f, b, k, q);
    }
  }

  lemma SameWrite(i: Inst, params: seq<i32>, callees: Callees, s: Frame, s': Frame)
    requires hide *; s'.slots == s.slots && s'.world == s.world
    requires forall v :: v in Uses(i) ==> Eval(v, params, s'.regs) == Eval(v, params, s.regs)
    ensures var t, t' := Step(i, params, callees, s), Step(i, params, callees, s');
      && t'.slots == t.slots && t'.world == t.world
      && (Dst(i).Some? ==> Get(t'.regs, Dst(i).value) == Get(t.regs, Dst(i).value))
      && forall q: nat :: Dst(i) != Some(q) ==> Get(t.regs, q) == Get(s.regs, q) && Get(t'.regs, q) == Get(s'.regs, q)
  {
    hide Binop, Eval, Unop;
    match i
    case Binary(_, _, x, y) => assert x in Uses(i) && y in Uses(i);
    case Unary(_, _, x) => assert x in Uses(i);
    case Store(_, x) => assert x in Uses(i);
    case Call(_, _, xs) => assert EvalAll(xs, params, s'.regs) == EvalAll(xs, params, s.regs);
    case _ =>
  }

  /** The moved instruction, executed on one side only. */
  lemma LoneStep(f: Function, i: Inst, b: nat, k: nat, k': nat, params: seq<i32>, callees: Callees, s: Frame, s': Frame)
    requires hide Level, Ready, Step; Pure(i) && Level(f, i.dst, b, k, s, s')
    requires forall q: nat :: q != i.dst && Ready(f, b, k', Reg(q)) ==> Ready(f, b, k, Reg(q))
    ensures Level(f, i.dst, b, k', Step(i, params, callees, s), s')
    ensures Level(f, i.dst, b, k', s, Step(i, params, callees, s'))
  {
    hide Binop, Ready, Unop;
  }

  /** In both runs the equations hold all through the block. */
  ghost predicate Informed(f: Function, params: seq<i32>, callees: Callees, prev: nat, b: nat, s: Frame) {
    && b < |f.blocks|
    && (forall k: nat :: k <= |f.blocks[b].insts| ==>
          Equations(f, params, b, k, Inside(f, params, callees, prev, b, k, s).regs))
  }

  lemma InsideNext(f: Function, params: seq<i32>, callees: Callees, prev: nat, b: nat, k: nat, s: Frame)
    requires hide *; b < |f.blocks| && k < |f.blocks[b].insts|
    ensures Inside(f, params, callees, prev, b, k + 1, s)
         == Step(f.blocks[b].insts[k], params, callees, Inside(f, params, callees, prev, b, k, s))
  {
    hide Enter, Step;
    assert f.blocks[b].insts[..k + 1][..k] == f.blocks[b].insts[..k];
  }

  lemma {:induction false} LevelInside(f: Function, c: nat, j: nat, p: nat, params: seq<i32>, callees: Callees,
                                       prev: nat, b: nat, k: nat, s: Frame, s': Frame)
    requires Hoistable(f, c, j, p) && b < |f.blocks| && k <= |f.blocks[b].insts|
    requires Informed(f, params, callees, prev, b, s) && Informed(Hoisted(f, c, j, p), params, callees, prev, b, s')
    requires Level(f, MovedReg(f, c, j), b, 0, Enter(f.blocks[b], prev, params, s),
                   Enter(f.blocks[b], prev, params, s'))
    ensures NewIndex(c, j, b, k) <= |Hoisted(f, c, j, p).blocks[b].insts|
    ensures Level(f, MovedReg(f, c, j), b, k, Inside(f, params, callees, prev, b, k, s),
                  Inside(Hoisted(f, c, j, p), params, callees, prev, b, NewIndex(c, j, b, k), s'))
  {
    hide *;
    IsPureHere(f, c, j, p);
    PureIsThere(f, c, j);
    if k == 0 {
      LevelStart(f, c, j, p, params, callees, prev, b, s, s');
    } else {
      LevelInside(f, c, j, p, params, callees, prev, b, k - 1, s, s');
      LevelNext(f, c, j, p, params, callees, prev, b, k - 1, s, s');
    }
  }

  lemma LevelStart(f: Function, c: nat, j: nat, p: nat, params: seq<i32>, callees: Callees, prev: nat, b: nat,
                   s: Frame, s': Frame)
    requires c < |f.blocks| && j < |f.blocks[c].insts| && b < |f.blocks|
    ensures NewIndex(c, j, b, 0) == 0
    ensures Inside(f, params, callees, prev, b, 0, s) == Enter(f.blocks[b], prev, params, s)
    ensures Inside(Hoisted(f, c, j, p), params, callees, prev, b, 0, s') == Enter(f.blocks[b], prev, params, s')
  {
    hide Inside, HoistedBlock;
    InsideStart(f, params, callees, prev, b, s);
    InsideStart(Hoisted(f, c, j, p), params, callees, prev, b, s');
    SamePhis(f, c, j, p, b);
  }

  lemma SamePhis(f: Function, c: nat, j: nat, p: nat, b: nat)
    requires c < |f.blocks| && j < |f.blocks[c].insts| && b < |f.blocks|
    ensures Hoisted(f, c, j, p).blocks[b].phis == f.blocks[b].phis
  {
    assert Hoisted(f, c, j, p).blocks[b] == HoistedBlock(f, c, j, p, b);
  }

  lemma LevelNext(f: Function, c: nat, j: nat, p: nat, params: seq<i32>, callees: Callees, prev: nat, b: nat, k: nat,
                  s: Frame, s': Frame)
    requires hide Equations, Hoisted, Inside, Ready, Strict;
             Hoistable(f, c, j, p) && b < |f.blocks| && k < |f.blocks[b].insts|
    requires Informed(f, params, callees, prev, b, s) && Informed(Hoisted(f, c, j, p), params, callees, prev, b, s')
    requires NewIndex(c, j, b, k) <= |Hoisted(f, c, j, p).blocks[b].insts|
    requires Level(f, MovedReg(f, c, j), b, k, Inside(f, params, callees, prev, b, k, s),
                   Inside(Hoisted(f, c, j, p), params, callees, prev, b, NewIndex(c, j, b, k), s'))
    ensures NewIndex(c, j, b, k + 1) <= |Hoisted(f, c, j, p).blocks[b].insts|
    ensures Level(f, MovedReg(f, c, j), b, k + 1, Inside(f, params, callees, prev, b, k + 1, s),
                  Inside(Hoisted(f, c, j, p), params, callees, prev, b, NewIndex(c, j, b, k + 1), s'))
  {
    hide Binop, Equations, Hoistable, Hoisted, Inside, Ready, Step, Level, MovedReg, Pure, NewIndex;
    IsPureHere(f, c, j, p);
    var g, r := Hoisted(f, c, j, p), MovedReg(f, c, j);
    var k' := NewIndex(c, j, b, k);
    var t, t' := Inside(f, params, callees, prev, b, k, s), Inside(g, params, callees, prev, b, k', s');
    InsideNext(f, params, callees, prev, b, k, s);
    NextIndex(f, c, j, p, b, k);
    if b == c && k == j {
      MovedStep(f, c, j, params, callees, t, t');
    } else {
      InsideNext(g, params, callees, prev, b, k', s');
      LevelIsEven(f, c, j, p, params, b, k, k', t, t');
      InstsReady(f, c, j, p, b, k);
      SameStep(f, r, b, k, params, callees, t, t');
    }
  }

  lemma NextIndex(f: Function, c: nat, j: nat, p: nat, b: nat, k: nat)
    requires c < |f.blocks| && j < |f.blocks[c].insts| && p < |f.blocks| && p != c && b < |f.blocks|
             && k < |f.blocks[b].insts|
    ensures var g := Hoisted(f, c, j, p); var k', next := NewIndex(c, j, b, k), NewIndex(c, j, b, k + 1);
      && next <= |g.blocks[b].insts|
      && if b == c && k == j then next == k'
         else next == k' + 1 && g.blocks[b].insts[k'] == f.blocks[b].insts[k]
  {
    HoistedInsts(f, c, j, p, b);
  }

  lemma InsideStart(f: Function, params: seq<i32>, callees: Callees, prev: nat, b: nat, s: Frame)
    requires hide *; b < |f.blocks|
    ensures Inside(f, params, callees, prev, b, 0, s) == Enter(f.blocks[b], prev, params, s)
  {
    hide Enter, Step;
    assert f.blocks[b].insts[..0] == [];
  }

  lemma InstsReady(f: Function, c: nat, j: nat, p: nat, b: nat, k: nat)
    requires hide *; Hoistable(f, c, j, p) && b < |f.blocks| && k < |f.blocks[b].insts|
    ensures AllReady(f, b, k, Uses(f.blocks[b].insts[k]))
  {
    hide AllReachable, AllReady, Cfg, Fed, IsPure, PathTo, Sets, TermUses, Uses;
  }

  lemma MovedStep(f: Function, c: nat, j: nat, params: seq<i32>, callees: Callees, s: Frame, s': Frame)
    requires hide Level, Step; IsPure(f, c, j) && Level(f, MovedReg(f, c, j), c, j, s, s')
    ensures Level(f, MovedReg(f, c, j), c, j + 1, Step(f.blocks[c].insts[j], params, callees, s), s')
  {
    hide Level, Ready, Step;
    var i := f.blocks[c].insts[j];
    forall q: nat | q != i.dst && Ready(f, c, j + 1, Reg(q)) ensures Ready(f, c, j, Reg(q)) {
      ReadyNext(f, c, j, q);
    }
    LoneStep(f, i, c, j, j + 1, params, callees, s, s');
  }

  /** At the end of a block everything that is ready agrees. */
  lemma EvenAtEnd(f: Function, c: nat, j: nat, p: nat, params: seq<i32>, callees: Callees, prev: nat, b: nat,
                  s: Frame, s': Frame)
    requires hide Enter, Equations, Inside, Ready, Strict; Hoistable(f, c, j, p) && b < |f.blocks|
    requires Informed(f, params, callees, prev, b, s) && Informed(Hoisted(f, c, j, p), params, callees, prev, b, s')
    requires Level(f, MovedReg(f, c, j), b, 0, Enter(f.blocks[b], prev, params, s),
                   Enter(f.blocks[b], prev, params, s'))
    ensures var g := Hoisted(f, c, j, p);
      Even(f, b, |f.blocks[b].insts|, Inside(f, params, callees, prev, b, |f.blocks[b].insts|, s),
           Inside(g, params, callees, prev, b, |g.blocks[b].insts|, s'))
  {
    hide Binop, Enter, Equations, Hoistable, Hoisted, Inside, Ready, Step, Level, Even;
    IsPureHere(f, c, j, p);
    var g, r, n := Hoisted(f, c, j, p), MovedReg(f, c, j), |f.blocks[b].insts|;
    var n' := |g.blocks[b].insts|;
    HoistedInsts(f, c, j, p, b);
    LevelInside(f, c, j, p, params, callees, prev, b, n, s, s');
    var t, t' := Inside(f, params, callees, prev, b, n, s), Inside(g, params, callees, prev, b, n', s');
    IsPureHere(f, c, j, p);
    if b == p {
      InsideNext(g, params, callees, prev, b, n, s');
      LoneStep(f, f.blocks[c].insts[j], b, n, n, params, callees, t, Inside(g, params, callees, prev, b, n, s'));
    }
    LevelIsEven(f, c, j, p, params, b, n, n', t, t');
  }

  // ----- edges -----

  lemma {:induction false} PhisEven(f: Function, p: nat, phis: seq<Phi>, params: seq<i32>, s: Frame, s': Frame, q: nat)
    requires hide *; p < |f.blocks| && Even(f, p, |f.blocks[p].insts|, s, s')
    requires forall j :: 0 <= j < |phis| ==> Fed(f, phis[j], p)
    requires SetsOne(phis, q) || Get(s'.regs, q) == Get(s.regs, q)
    ensures Get(PhiRegs(phis, p, params, s'.regs), q) == Get(PhiRegs(phis, p, params, s.regs), q)
  {
    hide Eval, Even, Incoming, Ready;
    if phis != [] {
      var n := |phis| - 1;
      if phis[n].dst == q {
        assert Fed(f, phis[n], p);
        OperandAgrees(f, p, |f.blocks[p].insts|, params, s, s', Incoming(phis[n].incoming, p).value);
      } else {
        if SetsOne(phis, q) {
          SetsOneLess(phis, q);
        }
        PhisEven(f, p, phis[..n], params, s, s', q);
      }
    }
  }

  lemma EnterEven(f: Function, p: nat, b: nat, params: seq<i32>, s: Frame, s': Frame)
    requires hide *; Strict(f) && p < |f.blocks| && b < |f.blocks| && Edge(Cfg(f), p, b)
             && Even(f, p, |f.blocks[p].insts|, s, s')
    ensures Even(f, b, 0, Enter(f.blocks[b], p, params, s), Enter(f.blocks[b], p, params, s'))
  {
    hide AllReachable, Cfg, Fed, PhiRegs, Ready, Sets, Uses;
    var phis := f.blocks[b].phis;
    forall j | 0 <= j < |phis| ensures Fed(f, phis[j], p) {
    }
    forall q: nat | Ready(f, b, 0, Reg(q))
      ensures Get(PhiRegs(phis, p, params, s'.regs), q) == Get(PhiRegs(phis, p, params, s.regs), q)
    {
      ReadyOnEntry(f, p, b, q);
      PhisEven(f, p, phis, params, s, s', q);
    }
  }

  /** The same terminator on both sides. */
  lemma SameLeave(f: Function, b: nat, params: seq<i32>, s: Frame, s': Frame)
    requires hide *; b < |f.blocks| && AllReady(f, b, |f.blocks[b].insts|, TermUses(f.blocks[b].term))
             && Even(f, b, |f.blocks[b].insts|, s, s')
    ensures var d, d' := Leave(f.blocks[b].term, b, params, s), Leave(f.blocks[b].term, b, params, s');
      match d case Done(_, _) => d' == d case At(prev, to, _) => d == At(prev, to, s) && d' == At(prev, to, s')
  {
    hide Ready;
    var t := f.blocks[b].term;
    forall v | v in TermUses(t) ensures Eval(v, params, s'.regs) == Eval(v, params, s.regs) {
      OperandAgrees(f, b, |f.blocks[b].insts|, params, s, s', v);
    }
    match t
    case CondBr(v, _, _) => assert v in TermUses(t);
    case Ret(Some(v)) => assert v in TermUses(t);
    case _ =>
  }

  /** The two runs on an edge. */
  ghost predicate Beside(f: Function, n: nat, d: Config, d': Config) {
    match d
    case Done(_, _) => d' == d
    case At(prev, b, s) =>
      && d'.At? && d'.prev == prev && d'.block == b && b < |f.blocks|
      && (if n == 0 then b == 0 && d' == d
          else prev < |f.blocks| && Edge(Cfg(f), prev, b) && Even(f, prev, |f.blocks[prev].insts|, s, d'.frame))
  }

  lemma EntersLevel(f: Function, c: nat, j: nat, p: nat, params: seq<i32>, n: nat, d: Config, d': Config)
    requires hide Cfg, Dominates, Enter, Ready, Strict; Hoistable(f, c, j, p) && d.At? && Beside(f, n, d, d')
    ensures Level(f, MovedReg(f, c, j), d.block, 0, Enter(f.blocks[d.block], d.prev, params, d.frame),
                  Enter(f.blocks[d.block], d.prev, params, d'.frame))
  {
    hide Cfg, Dominates, PhiRegs, Ready, Strict, Uses;
    if n > 0 {
      EnterEven(f, d.prev, d.block, params, d.frame, d'.frame);
    }
  }

  lemma BlockBeside(f: Function, c: nat, j: nat, p: nat, params: seq<i32>, callees: Callees, n: nat, d: Config,
                    d': Config)
    requires hide Informed, Ready, RunBlock, Steps, Strict; Hoistable(f, c, j, p) && d.At? && Beside(f, n, d, d')
    requires Informed(f, params, callees, d.prev, d.block, d.frame)
    requires Informed(Hoisted(f, c, j, p), params, callees, d.prev, d.block, d'.frame)
    ensures Beside(f, n + 1, RunBlock(f, params, callees, d), RunBlock(Hoisted(f, c, j, p), params, callees, d'))
  {
    hide Hoisted, Level, Equations, Ready, Even, Enter, Leave;
    var g, b := Hoisted(f, c, j, p), d.block;
    EntersLevel(f, c, j, p, params, n, d, d');
    EvenAtEnd(f, c, j, p, params, callees, d.prev, b, d.frame, d'.frame);
    HoistedInsts(f, c, j, p, b);
    WholeBlock(f, params, callees, d);
    WholeBlock(g, params, callees, d');
    Runs.SameEnter(f.blocks[b], g.blocks[b], d.prev, params, d'.frame);
    var t := Inside(f, params, callees, d.prev, b, |f.blocks[b].insts|, d.frame);
    var t' := Inside(g, params, callees, d.prev, b, |g.blocks[b].insts|, d'.frame);
    SameLeave(f, b, params, t, t');
    if Leave(f.blocks[b].term, b, params, t).At? {
      LeaveTakes(f, params, b, t);
    }
  }

  lemma WholeBlock(f: Function, params: seq<i32>, callees: Callees, d: Config)
    requires hide *; d.At? && d.block < |f.blocks|
    ensures RunBlock(f, params, callees, d)
         == Leave(f.blocks[d.block].term, d.block, params,
                  Inside(f, params, callees, d.prev, d.block, |f.blocks[d.block].insts|, d.frame))
  {
    hide Enter, Leave, Steps;
    var insts := f.blocks[d.block].insts;
    assert insts[..|insts|] == insts;
  }

  lemma RunsAreInformed(f: Function, params: seq<i32>, callees: Callees, w: World, n: nat)
    requires hide *; Strict(f)
    ensures var d := Run(f, params, callees, Start(w), n);
      d.At? && d.block < |f.blocks| ==> Informed(f, params, callees, d.prev, d.block, d.frame)
  {
    hide Strict, Equations, Inside, Run;
    var d := Run(f, params, callees, Start(w), n);
    if d.At? && d.block < |f.blocks| {
      forall k: nat | k <= |f.blocks[d.block].insts|
        ensures Equations(f, params, d.block, k, Inside(f, params, callees, d.prev, d.block, k, d.frame).regs)
      {
        var s := Inside(f, params, callees, d.prev, d.block, k, d.frame);
        assert PassesIn(f, params, callees, w, d.block, k, s, n, d.prev, d.frame);
        DefinitionsHold(f, params, callees, w, d.block, k, s);
      }
    }
  }

  lemma {:induction false} RunsBeside(f: Function, c: nat, j: nat, p: nat, params: seq<i32>, callees: Callees,
                                      w: World, n: nat)
    requires hide Beside, Hoisted, Ready, Run, Strict; Hoistable(f, c, j, p)
    ensures Beside(f, n, Run(f, params, callees, Start(w), n), Run(Hoisted(f, c, j, p), params, callees, Start(w), n))
  {
    hide Hoisted, Informed, RunBlock;
    var g := Hoisted(f, c, j, p);
    if n > 0 {
      RunsBeside(f, c, j, p, params, callees, w, n - 1);
      var d, d' := Run(f, params, callees, Start(w), n - 1), Run(g, params, callees, Start(w), n - 1);
      if d.At? {
        HoistedIsStrict(f, c, j, p);
        RunsAreInformed(f, params, callees, w, n - 1);
        RunsAreInformed(g, params, callees, w, n - 1);
        HoistedInsts(f, c, j, p, d.block);
        BlockBeside(f, c, j, p, params, callees, n - 1, d, d');
      } else {
        EndedStays(f, params, callees, d);
        EndedStays(g, params, callees, d);
      }
    }
  }

  lemma EndedStays(f: Function, params: seq<i32>, callees: Callees, d: Config)
    requires d.Done?
    ensures RunBlock(f, params, callees, d) == d
  {
    hide Enter, Leave, Steps;
  }

  /** Moving the instruction changes no run. */
  lemma HoistingPreservesRuns(f: Function, c: nat, j: nat, p: nat)
    requires hide AllReady, Hoisted, SameRuns, Strict; Hoistable(f, c, j, p)
    ensures SameRuns(f, Hoisted(f, c, j, p))
  {
    hide Hoistable, Hoisted, Ready, Run;
    IsPureHere(f, c, j, p);
    forall params: seq<i32>, callees: Callees, w: World, n: nat
      ensures SameSoFar(Run(f, params, callees, Start(w), n), Run(Hoisted(f, c, j, p), params, callees, Start(w), n))
    {
      RunsBeside(f, c, j, p, params, callees, w, n);
    }
  }
}
