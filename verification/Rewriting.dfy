/** Replacing one instruction by another that does the same wherever a run comes to it. */
module Rewriting {
  import opened Int32
  import opened Graphs
  import opened Ir
  import opened Ssa
  import opened SsaForm
  import Runs

  function ReplaceAt(f: Function, b: nat, n: nat, i: Inst): (g: Function)
    requires b < |f.blocks| && n < |f.blocks[b].insts|
    ensures |g.blocks| == |f.blocks|
  {
    Function(f.blocks[b := f.blocks[b].(insts := f.blocks[b].insts[n := i])])
  }

  lemma ReplaceKeepsGraph(f: Function, b: nat, n: nat, i: Inst)
    requires b < |f.blocks| && n < |f.blocks[b].insts|
    ensures Cfg(ReplaceAt(f, b, n, i)) == Cfg(f)
  {
  }

  lemma ReplaceKeepsPlaces(f: Function, b: nat, n: nat, i: Inst)
    requires hide *; b < |f.blocks| && n < |f.blocks[b].insts| && Dst(i) == Dst(f.blocks[b].insts[n])
    ensures forall p, r: nat :: Sets(ReplaceAt(f, b, n, i), p, r) <==> Sets(f, p, r)
    ensures forall c: nat, k: nat, v :: Ready(f, c, k, v) ==> Ready(ReplaceAt(f, b, n, i), c, k, v)
  {
    var g := ReplaceAt(f, b, n, i);
    ReplaceKeepsGraph(f, b, n, i);
    forall p, r: nat
      ensures Sets(g, p, r) <==> Sets(f, p, r)
    {
    }
    forall c: nat, k: nat, v | Ready(f, c, k, v)
      ensures Ready(g, c, k, v)
    {
      if v.Reg? {
        var p :| Sets(f, p, v.id) && Before(f, p, c, k);
        assert Sets(g, p, v.id) && Before(g, p, c, k);
      }
    }
  }

  /** The form stays strict if the new instruction sets the same register and uses no other. */
  lemma ReplaceKeepsStrict(f: Function, b: nat, n: nat, i: Inst)
    requires hide *; Strict(f) && b < |f.blocks| && n < |f.blocks[b].insts| && Dst(i) == Dst(f.blocks[b].insts[n])
    requires forall v :: v in Uses(i) && v.Reg? ==> v in Uses(f.blocks[b].insts[n])
    ensures Strict(ReplaceAt(f, b, n, i))
  {
    var g := ReplaceAt(f, b, n, i);
    ReplaceKeepsGraph(f, b, n, i);
    ReplaceKeepsPlaces(f, b, n, i);
    hide Ready, Sets;
    forall c: nat, k: nat | c < |g.blocks| && k < |g.blocks[c].insts|
      ensures AllReady(g, c, k, Uses(g.blocks[c].insts[k]))
    {
      assert AllReady(f, c, k, Uses(f.blocks[c].insts[k]));
      forall v | v in Uses(g.blocks[c].insts[k])
        ensures Ready(g, c, k, v)
      {
        if !v.Reg? {
          NoRegisterReady(g, c, k, v);
        }
      }
    }
    forall p: nat, c: nat, j: nat | p < |g.blocks| && Edge(Cfg(g), p, c) && c < |g.blocks| && j < |g.blocks[c].phis|
      ensures Fed(g, g.blocks[c].phis[j], p)
    {
      assert Fed(f, f.blocks[c].phis[j], p);
    }
    forall c: nat | c < |g.blocks|
      ensures AllReady(g, c, |g.blocks[c].insts|, TermUses(g.blocks[c].term))
    {
      assert AllReady(f, c, |f.blocks[c].insts|, TermUses(f.blocks[c].term));
    }
  }

  lemma NoRegisterReady(f: Function, b: nat, k: nat, v: Operand)
    requires !v.Reg?
    ensures Ready(f, b, k, v)
  {
    hide Before, Sets;
  }

  lemma StepsReplaced(insts: seq<Inst>, n: nat, i: Inst, params: seq<i32>, callees: Callees, s: Frame)
    requires hide *; n < |insts|
    requires var s' := Steps(insts[..n], params, callees, s);
             Step(i, params, callees, s') == Step(insts[n], params, callees, s')
    ensures Steps(insts[n := i], params, callees, s) == Steps(insts, params, callees, s)
  {
    hide Step;
    Runs.StepsAppend(insts[..n], [insts[n]], params, callees, s);
    Runs.StepsAppend(insts[..n], [i], params, callees, s);
    assert [i][..0] == [] && [insts[n]][..0] == [];
    Runs.StepsAppend(insts[..n] + [insts[n]], insts[n + 1..], params, callees, s);
    Runs.StepsAppend(insts[..n] + [i], insts[n + 1..], params, callees, s);
    assert insts == insts[..n] + [insts[n]] + insts[n + 1..];
    assert insts[n := i] == insts[..n] + [i] + insts[n + 1..];
  }

  /** Two functions whose runs are the same, register by register. */
  ghost predicate Alike(f: Function, g: Function) {
    forall params: seq<i32>, callees: Callees, w: World, n: nat ::
      Run(g, params, callees, Start(w), n) == Run(f, params, callees, Start(w), n)
  }

  ghost predicate DoesTheSame(f: Function, b: nat, n: nat, i: Inst)
    requires hide *; b < |f.blocks| && n < |f.blocks[b].insts|
  {
    forall params: seq<i32>, callees: Callees, w: World, s: Frame :: Passes(f, params, callees, w, b, n, s) ==>
      Step(i, params, callees, s) == Step(f.blocks[b].insts[n], params, callees, s)
  }

  lemma ReplacedBlock(f: Function, b: nat, n: nat, i: Inst, params: seq<i32>, callees: Callees, c: Config)
    requires hide *; b < |f.blocks| && n < |f.blocks[b].insts|
    requires c.At? && c.block == b ==>
               var s := Inside(f, params, callees, c.prev, b, n, c.frame);
               Step(i, params, callees, s) == Step(f.blocks[b].insts[n], params, callees, s)
    ensures RunBlock(ReplaceAt(f, b, n, i), params, callees, c) == RunBlock(f, params, callees, c)
  {
    hide Leave, PhiRegs, Step, Steps;
    if c.At? && c.block == b {
      StepsReplaced(f.blocks[b].insts, n, i, params, callees, Enter(f.blocks[b], c.prev, params, c.frame));
    }
  }

  lemma {:induction false} ReplacedRuns(f: Function, b: nat, n: nat, i: Inst, params: seq<i32>, callees: Callees,
                                        w: World, m: nat)
    requires hide *; b < |f.blocks| && n < |f.blocks[b].insts| && DoesTheSame(f, b, n, i)
    ensures Run(ReplaceAt(f, b, n, i), params, callees, Start(w), m) == Run(f, params, callees, Start(w), m)
  {
    hide Step, Inside, ReplaceAt, RunBlock;
    if m > 0 {
      ReplacedRuns(f, b, n, i, params, callees, w, m - 1);
      var c := Run(f, params, callees, Start(w), m - 1);
      if c.At? && c.block == b {
        assert PassesIn(f, params, callees, w, b, n, Inside(f, params, callees, c.prev, b, n, c.frame), m - 1,
                        c.prev, c.frame);
        assert Passes(f, params, callees, w, b, n, Inside(f, params, callees, c.prev, b, n, c.frame));
      }
      ReplacedBlock(f, b, n, i, params, callees, c);
    }
  }

  lemma ReplacedIsAlike(f: Function, b: nat, n: nat, i: Inst)
    requires hide *; b < |f.blocks| && n < |f.blocks[b].insts| && DoesTheSame(f, b, n, i)
    ensures Alike(f, ReplaceAt(f, b, n, i))
  {
    hide Passes, RunBlock, Step;
    forall params: seq<i32>, callees: Callees, w: World, m: nat
      ensures Run(ReplaceAt(f, b, n, i), params, callees, Start(w), m) == Run(f, params, callees, Start(w), m)
    {
      ReplacedRuns(f, b, n, i, params, callees, w, m);
    }
  }
}
