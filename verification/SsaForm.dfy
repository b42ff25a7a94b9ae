/** Strict SSA form with phis, and the equations that hold wherever a definition dominates. */
module SsaForm {
  import opened Int32
  import opened Graphs
  import opened Ir
  import opened Ssa

  /** The phis of a block come before its instructions. */
  datatype Place = PhiPlace(block: nat, index: nat) | InstPlace(block: nat, index: nat)

  ghost predicate Sets(f: Function, p: Place, r: nat) {
    && p.block < |f.blocks|
    && match p
       case PhiPlace(b, j) => j < |f.blocks[b].phis| && f.blocks[b].phis[j].dst == r
       case InstPlace(b, k) => k < |f.blocks[b].insts| && Dst(f.blocks[b].insts[k]) == Some(r)
  }

  ghost predicate SetOnce(f: Function) {
    forall p, q, r: nat :: Sets(f, p, r) && Sets(f, q, r) ==> p == q
  }

  /** Place `p` was executed before instruction `k` of block `b`, on every path. */
  ghost predicate Before(f: Function, p: Place, b: nat, k: nat) {
    Dominates(Cfg(f), p.block, b) && (p.InstPlace? && p.block == b ==> p.index < k)
  }

  ghost predicate Ready(f: Function, b: nat, k: nat, v: Operand) {
    v.Reg? ==> exists p :: Sets(f, p, v.id) && Before(f, p, b, k)
  }

  ghost predicate AllReady(f: Function, b: nat, k: nat, vs: seq<Operand>) {
    forall v :: v in vs ==> Ready(f, b, k, v)
  }

  /** A phi has a value for the edge from `p`, and the value is there. */
  ghost predicate Fed(f: Function, phi: Phi, p: nat)
    requires p < |f.blocks|
  {
    match Incoming(phi.incoming, p)
    case Some(v) => Ready(f, p, |f.blocks[p].insts|, v)
    case None => false
  }

  /** Strict SSA form: one place for every register, and every use after it on every path. */
  ghost predicate Strict(f: Function) {
    && Valid(Cfg(f)) && AllReachable(Cfg(f))
    && (forall p: nat :: !Edge(Cfg(f), p, 0)) && f.blocks[0].phis == []
    && SetOnce(f)
    && (forall b: nat, k: nat :: b < |f.blocks| && k < |f.blocks[b].insts| ==>
          AllReady(f, b, k, Uses(f.blocks[b].insts[k])))
    && (forall b: nat :: b < |f.blocks| ==> AllReady(f, b, |f.blocks[b].insts|, TermUses(f.blocks[b].term)))
    && (forall p: nat, b: nat, j: nat ::
          p < |f.blocks| && Edge(Cfg(f), p, b) && b < |f.blocks| && j < |f.blocks[b].phis| ==>
          Fed(f, f.blocks[b].phis[j], p))
  }

  // ----- runs, point by point -----

  /** The frame before instruction `k` of a block that was entered with `s`. */
  function Inside(f: Function, params: seq<i32>, callees: Callees, prev: nat, b: nat, k: nat, s: Frame): Frame
    requires hide *; b < |f.blocks| && k <= |f.blocks[b].insts|
  {
    Steps(f.blocks[b].insts[..k], params, callees, Enter(f.blocks[b], prev, params, s))
  }

  /** Some run passes the point before instruction `k` of block `b` with frame `fr`. */
  ghost predicate Passes(f: Function, params: seq<i32>, callees: Callees, w: World, b: nat, k: nat, fr: Frame) {
    exists n: nat, prev: nat, s: Frame :: PassesIn(f, params, callees, w, b, k, fr, n, prev, s)
  }

  ghost predicate PassesIn(f: Function, params: seq<i32>, callees: Callees, w: World, b: nat, k: nat, fr: Frame,
                           n: nat, prev: nat, s: Frame)
  {
    && Run(f, params, callees, Start(w), n) == At(prev, b, s)
    && b < |f.blocks| && k <= |f.blocks[b].insts| && fr == Inside(f, params, callees, prev, b, k, s)
  }

  /** The edge that a block takes. */
  predicate Takes(f: Function, params: seq<i32>, b: nat, s: Frame, b': nat) {
    b < |f.blocks| && Leave(f.blocks[b].term, b, params, s) == At(b, b', s)
  }

  /** A property of points that holds at the start and is kept by every instruction and every edge. */
  ghost predicate Inductive(f: Function, params: seq<i32>, callees: Callees, inv: (nat, nat, Frame) -> bool) {
    && (forall w: World :: inv(0, 0, Frame(map[], map[], w)))
    && (forall b: nat, k: nat, s: Frame :: b < |f.blocks| && k < |f.blocks[b].insts| && inv(b, k, s) ==>
          inv(b, k + 1, Step(f.blocks[b].insts[k], params, callees, s)))
    && (forall b: nat, b': nat, s: Frame ::
          Takes(f, params, b, s, b') && b' < |f.blocks| && inv(b, |f.blocks[b].insts|, s) ==>
          inv(b', 0, Enter(f.blocks[b'], b, params, s)))
  }

  lemma {:induction false} InsideInvariant(f: Function, params: seq<i32>, callees: Callees,
                                           inv: (nat, nat, Frame) -> bool,
                                           prev: nat, b: nat, k: nat, s: Frame)
    requires hide *; Inductive(f, params, callees, inv) && b < |f.blocks| && k <= |f.blocks[b].insts|
    requires inv(b, 0, Enter(f.blocks[b], prev, params, s))
    ensures inv(b, k, Inside(f, params, callees, prev, b, k, s))
  {
    hide Enter, Step, Takes;
    var insts := f.blocks[b].insts;
    if k == 0 {
      assert insts[..0] == [];
    } else {
      InsideInvariant(f, params, callees, inv, prev, b, k - 1, s);
      assert insts[..k][..k - 1] == insts[..k - 1];
    }
  }

  lemma LeaveTakes(f: Function, params: seq<i32>, b: nat, s: Frame)
    requires Valid(Cfg(f)) && b < |f.blocks| && Leave(f.blocks[b].term, b, params, s).At?
    ensures var c := Leave(f.blocks[b].term, b, params, s);
            Takes(f, params, b, s, c.block) && Edge(Cfg(f), b, c.block) && c.block < |f.blocks|
              && c == At(b, c.block, s)
  {
    var c := Leave(f.blocks[b].term, b, params, s);
    assert c.block in Targets(f.blocks[b].term);
    assert Edge(Cfg(f), b, c.block);
  }

  lemma {:induction false} EntryInvariant(f: Function, params: seq<i32>, callees: Callees, w: World,
                                          inv: (nat, nat, Frame) -> bool, n: nat)
    requires hide Enter, Inductive, Run, Step, Strict; Strict(f) && Inductive(f, params, callees, inv)
    ensures match Run(f, params, callees, Start(w), n)
            case At(prev, b, s) => b < |f.blocks| && inv(b, 0, Enter(f.blocks[b], prev, params, s))
            case Done(_, _) => true
  {
    hide AllReachable, Ready, Sets, Step;
    if n == 0 {
      var s := Frame(map[], map[], w);
      assert Enter(f.blocks[0], 0, params, s) == s;
    } else {
      EntryInvariant(f, params, callees, w, inv, n - 1);
      var c := Run(f, params, callees, Start(w), n - 1);
      if c.At? {
        var insts := f.blocks[c.block].insts;
        InsideInvariant(f, params, callees, inv, c.prev, c.block, |insts|, c.frame);
        assert insts[..|insts|] == insts;
        var s := Inside(f, params, callees, c.prev, c.block, |insts|, c.frame);
        if Leave(f.blocks[c.block].term, c.block, params, s).At? {
          LeaveTakes(f, params, c.block, s);
        }
      }
    }
  }

  /** An inductive property holds wherever a run passes. */
  lemma ByRuns(f: Function, params: seq<i32>, callees: Callees, w: World, inv: (nat, nat, Frame) -> bool,
               b: nat, k: nat, fr: Frame)
    requires Strict(f) && Inductive(f, params, callees, inv) && Passes(f, params, callees, w, b, k, fr)
    ensures inv(b, k, fr)
  {
    hide Enter, Inside, Leave, Run, Step, Strict;
    var n: nat, prev: nat, s: Frame :| PassesIn(f, params, callees, w, b, k, fr, n, prev, s);
    EntryInvariant(f, params, callees, w, inv, n);
    InsideInvariant(f, params, callees, inv, prev, b, k, s);
  }

  // ----- equations -----

  predicate Pure(i: Inst) {
    i.Binary? || i.Unary?
  }

  function PureValue(i: Inst, params: seq<i32>, regs: map<nat, i32>): i32
    requires Pure(i)
  {
    match i
    case Binary(_, op, x, y) => Binop(op, Eval(x, params, regs), Eval(y, params, regs))
    case Unary(_, op, x) => Unop(op, Eval(x, params, regs))
  }

  predicate IsPure(f: Function, c: nat, j: nat) {
    c < |f.blocks| && j < |f.blocks[c].insts| && Pure(f.blocks[c].insts[j])
  }

  ghost predicate Equation(f: Function, params: seq<i32>, c: nat, j: nat, regs: map<nat, i32>)
    requires IsPure(f, c, j)
  {
    Get(regs, f.blocks[c].insts[j].dst) == PureValue(f.blocks[c].insts[j], params, regs)
  }

  /** The equations of all definitions that dominate a point. */
  ghost predicate Equations(f: Function, params: seq<i32>, b: nat, k: nat, regs: map<nat, i32>) {
    forall c: nat, j: nat :: IsPure(f, c, j) && Before(f, InstPlace(c, j), b, k) ==> Equation(f, params, c, j, regs)
  }

  /** Writing registers that an instruction neither sets nor uses keeps its equation. */
  lemma EquationKept(f: Function, params: seq<i32>, c: nat, j: nat, regs: map<nat, i32>, regs': map<nat, i32>)
    requires IsPure(f, c, j) && Equation(f, params, c, j, regs)
    requires Get(regs', f.blocks[c].insts[j].dst) == Get(regs, f.blocks[c].insts[j].dst)
    requires forall v :: v in Uses(f.blocks[c].insts[j]) && v.Reg? ==> Get(regs', v.id) == Get(regs, v.id)
    ensures Equation(f, params, c, j, regs')
  {
    hide Binop, Unop;
    var i := f.blocks[c].insts[j];
    if i.Binary? {
      assert i.lhs in Uses(i) && i.rhs in Uses(i);
    } else {
      assert i.arg in Uses(i);
    }
  }

  /** What comes before a definition that comes before a point comes before the point. */
  lemma BeforeBefore(f: Function, p: Place, c: nat, j: nat, b: nat, k: nat)
    requires Strict(f) && b < |f.blocks| && Before(f, InstPlace(c, j), b, k) && Before(f, p, c, j)
    ensures Before(f, p, b, k)
    ensures p.PhiPlace? && p.block == b ==> c == b
  {
    hide AllReady, Cfg, Fed, PathTo, Sets, TermUses, Uses;
    DominatesThrough(Cfg(f), p.block, c, b);
    if p.block == b {
      assert Reachable(Cfg(f), b);
      DominatesAntisymmetric(Cfg(f), c, b);
    }
  }

  lemma StepKeepsEquations(f: Function, params: seq<i32>, callees: Callees, b: nat, k: nat, s: Frame)
    requires hide *; Strict(f) && b < |f.blocks| && k < |f.blocks[b].insts| && Equations(f, params, b, k, s.regs)
    ensures Equations(f, params, b, k + 1, Step(f.blocks[b].insts[k], params, callees, s).regs)
  {
    hide Binop, Fed, Unop;
    var i := f.blocks[b].insts[k];
    var regs' := Step(i, params, callees, s).regs;
    forall c: nat, j: nat | IsPure(f, c, j) && Before(f, InstPlace(c, j), b, k + 1)
      ensures Equation(f, params, c, j, regs')
    {
      var i' := f.blocks[c].insts[j];
      assert AllReady(f, c, j, Uses(i'));
      forall v | v in Uses(i') && v.Reg?
        ensures Dst(i) != Some(v.id)
      {
        assert Ready(f, c, j, v);
        var q :| Sets(f, q, v.id) && Before(f, q, c, j);
        assert Sets(f, InstPlace(b, k), v.id) ==> q == InstPlace(b, k);
        if c != b || j != k {
          BeforeBefore(f, q, c, j, b, k);
        }
      }
      if c == b && j == k {
        SameValue(i, params, s.regs, regs');
      } else {
        assert Sets(f, InstPlace(c, j), i'.dst);
        assert Dst(i) == Some(i'.dst) ==> Sets(f, InstPlace(b, k), i'.dst);
        EquationKept(f, params, c, j, s.regs, regs');
      }
    }
  }

  lemma SameValue(i: Inst, params: seq<i32>, regs: map<nat, i32>, regs': map<nat, i32>)
    requires Pure(i) && forall v :: v in Uses(i) && v.Reg? ==> Get(regs', v.id) == Get(regs, v.id)
    ensures PureValue(i, params, regs') == PureValue(i, params, regs)
  {
    hide Binop, Unop;
    if i.Binary? {
      assert i.lhs in Uses(i) && i.rhs in Uses(i);
    } else {
      assert i.arg in Uses(i);
    }
  }

  lemma EnterKeepsEquations(f: Function, params: seq<i32>, p: nat, b: nat, s: Frame)
    requires hide Cfg, Enter, Equations, Strict;
             Strict(f) && Edge(Cfg(f), p, b) && b < |f.blocks| && Equations(f, params, p, |f.blocks[p].insts|, s.regs)
    ensures Equations(f, params, b, 0, Enter(f.blocks[b], p, params, s).regs)
  {
    hide Cfg, Equation, Fed, PhiRegs;
    var phis := f.blocks[b].phis;
    var regs' := PhiRegs(phis, p, params, s.regs);
    forall c: nat, j: nat | IsPure(f, c, j) && Before(f, InstPlace(c, j), b, 0)
      ensures Equation(f, params, c, j, regs')
    {
      var i' := f.blocks[c].insts[j];
      DominatesPred(Cfg(f), c, p, b);
      assert Before(f, InstPlace(c, j), p, |f.blocks[p].insts|);
      assert AllReady(f, c, j, Uses(i'));
      forall v | v in Uses(i') && v.Reg?
        ensures Get(regs', v.id) == Get(s.regs, v.id)
      {
        assert Ready(f, c, j, v);
        var q :| Sets(f, q, v.id) && Before(f, q, c, j);
        BeforeBefore(f, q, c, j, b, 0);
        NoPhiSets(f, b, v.id, q);
        PhiRegsElsewhere(phis, p, params, s.regs, v.id);
      }
      assert Sets(f, InstPlace(c, j), i'.dst);
      NoPhiSets(f, b, i'.dst, InstPlace(c, j));
      PhiRegsElsewhere(phis, p, params, s.regs, i'.dst);
      EquationKept(f, params, c, j, s.regs, regs');
    }
  }

  /** A register with a place outside the phis of a block is set by none of them. */
  lemma NoPhiSets(f: Function, b: nat, r: nat, q: Place)
    requires SetOnce(f) && b < |f.blocks| && Sets(f, q, r) && (q.PhiPlace? ==> q.block != b)
    ensures forall j :: 0 <= j < |f.blocks[b].phis| ==> f.blocks[b].phis[j].dst != r
  {
    forall j | 0 <= j < |f.blocks[b].phis|
      ensures f.blocks[b].phis[j].dst != r
    {
      assert f.blocks[b].phis[j].dst == r ==> Sets(f, PhiPlace(b, j), r);
    }
  }

  ghost function EquationsAt(f: Function, params: seq<i32>): (nat, nat, Frame) -> bool {
    (b: nat, k: nat, s: Frame) => Equations(f, params, b, k, s.regs)
  }

  lemma EquationsInductive(f: Function, params: seq<i32>, callees: Callees)
    requires Strict(f)
    ensures Inductive(f, params, callees, EquationsAt(f, params))
  {
    hide Binop, Enter, Equations, Leave, Step, Strict;
    var inv := EquationsAt(f, params);
    forall w: World
      ensures inv(0, 0, Frame(map[], map[], w))
    {
      OnlyEntryDominatesEntry(Cfg(f));
      EquationsAtEntry(f, params);
    }
    forall b: nat, k: nat, s: Frame | b < |f.blocks| && k < |f.blocks[b].insts| && inv(b, k, s)
      ensures inv(b, k + 1, Step(f.blocks[b].insts[k], params, callees, s))
    {
      StepKeepsEquations(f, params, callees, b, k, s);
    }
    forall b: nat, b': nat, s: Frame | Takes(f, params, b, s, b') && b' < |f.blocks| && inv(b, |f.blocks[b].insts|, s)
      ensures inv(b', 0, Enter(f.blocks[b'], b, params, s))
    {
      TakenEdge(f, params, b, s, b');
      EnterKeepsEquations(f, params, b, b', s);
    }
  }

  lemma TakenEdge(f: Function, params: seq<i32>, b: nat, s: Frame, b': nat)
    requires Strict(f) && Takes(f, params, b, s, b')
    ensures Edge(Cfg(f), b, b')
  {
    hide AllReachable, AllReady, Fed, Leave, Sets, TermUses, Uses;
    LeaveTakes(f, params, b, s);
  }

  lemma EquationsAtEntry(f: Function, params: seq<i32>)
    requires hide *; forall c: nat :: Dominates(Cfg(f), c, 0) ==> c == 0
    ensures Equations(f, params, 0, 0, map[])
  {
    hide Cfg, Dominates, Equation, IsPure;
  }

  lemma OnlyEntryDominatesEntry(g: Graph)
    ensures forall c: nat :: Dominates(g, c, 0) ==> c == 0
  {
    assert PathTo(g, [0], 0);
    forall c: nat | Dominates(g, c, 0)
      ensures c == 0
    {
      assert c in [0];
    }
  }

  /** At every point that a run passes, every definition that dominates the point still has the value that its
      operands have there. */
  lemma DefinitionsHold(f: Function, params: seq<i32>, callees: Callees, w: World, b: nat, k: nat, s: Frame)
    requires Strict(f) && Passes(f, params, callees, w, b, k, s)
    ensures Equations(f, params, b, k, s.regs)
  {
    hide Equations, Inductive, Passes, Step, Strict;
    EquationsInductive(f, params, callees);
    ByRuns(f, params, callees, w, EquationsAt(f, params), b, k, s);
  }

  // ----- what becomes ready -----

  lemma ReadyNext(f: Function, b: nat, k: nat, r: nat)
    requires hide *; b < |f.blocks| && k < |f.blocks[b].insts| && Ready(f, b, k + 1, Reg(r))
    ensures Ready(f, b, k, Reg(r)) || Dst(f.blocks[b].insts[k]) == Some(r)
  {
    var p :| Sets(f, p, r) && Before(f, p, b, k + 1);
    assert p == InstPlace(b, k) || Before(f, p, b, k);
  }

  predicate SetsOne(phis: seq<Phi>, r: nat) {
    exists j :: 0 <= j < |phis| && phis[j].dst == r
  }

  lemma SetsOneLess(phis: seq<Phi>, r: nat)
    requires phis != [] && SetsOne(phis, r) && phis[|phis| - 1].dst != r
    ensures SetsOne(phis[..|phis| - 1], r)
  {
    var j :| 0 <= j < |phis| && phis[j].dst == r;
    assert phis[..|phis| - 1][j].dst == r;
  }

  /** What is ready on entry to a block is one of its phis, or was ready at the end of the predecessor. */
  lemma ReadyOnEntry(f: Function, p: nat, b: nat, r: nat)
    requires hide Ready, SetsOne, Targets;
             p < |f.blocks| && b < |f.blocks| && Edge(Cfg(f), p, b) && Ready(f, b, 0, Reg(r))
    ensures SetsOne(f.blocks[b].phis, r) || Ready(f, p, |f.blocks[p].insts|, Reg(r))
  {
    var q :| Sets(f, q, r) && Before(f, q, b, 0);
    if q.block != b {
      DominatesPred(Cfg(f), q.block, p, b);
      assert Before(f, q, p, |f.blocks[p].insts|);
    }
  }

  lemma StrictGraph(f: Function)
    requires Strict(f)
    ensures Valid(Cfg(f)) && AllReachable(Cfg(f))
  {
    hide AllReady, Fed, Reachable, Sets, Targets, TermUses, Uses;
  }

  /** The instruction that sets a register. */
  method Definition(f: Function, r: nat) returns (place: Option<(nat, nat)>)
    ensures place.Some? ==> Sets(f, InstPlace(place.value.0, place.value.1), r)
    ensures place.None? ==> forall b: nat, k: nat :: !Sets(f, InstPlace(b, k), r)
  {
    var b := 0;
    while b < |f.blocks|
      invariant 0 <= b <= |f.blocks|
      invariant forall b': nat, k: nat :: b' < b ==> !Sets(f, InstPlace(b', k), r)
    {
      var insts, k := f.blocks[b].insts, 0;
      while k < |insts|
        invariant 0 <= k <= |insts|
        invariant forall k': nat :: k' < k ==> !Sets(f, InstPlace(b, k'), r)
      {
        if Dst(insts[k]) == Some(r) {
          return Some((b, k));
        }
        k := k + 1;
      }
      b := b + 1;
    }
    return None;
  }
}
