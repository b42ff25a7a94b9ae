/** What promotion leaves is in strict SSA form, as the passes after it require. */
module PromotedForm {
  import opened Graphs
  import opened Idoms
  import opened Ir
  import opened Ssa
  import opened Renaming
  import opened Promotion
  import opened Dropping
  import S = SsaForm

  // ----- where an instruction is after cleaning -----

  function Removal(promoted: set<nat>): Inst -> bool {
    i => Removed(promoted, i)
  }

  lemma {:induction false} CleanIsLeft(promoted: set<nat>, m: map<nat, Operand>, insts: seq<Inst>)
    ensures Clean(promoted, m, insts) == SubstInsts(m, Left(insts, Removal(promoted)))
  {
    if insts != [] {
      CleanIsLeft(promoted, m, insts[..|insts| - 1]);
    }
  }

  /** Where instruction `k` of block `b` is afterwards. */
  ghost function NewPlace(s: Setting, b: nat, k: nat): nat
    requires b < |s.f.blocks| && k <= |Code(s, b)|
  {
    NewIndex(Code(s, b), Removal(s.promoted), k)
  }

  // ----- places of the promoted function -----

  lemma SameGraph(s: Setting)
    requires hide *; Sound(s)
    ensures Cfg(PromotedFunction(s)) == Cfg(s.f)
  {
    hide Clean, Exact, FreshPhis, PhisAt, Placed, Replacement, WellFormed;
    var g := PromotedFunction(s);
    forall b | 0 <= b < |g.blocks|
      ensures Cfg(g)[b] == Cfg(s.f)[b]
    {
      assert g.blocks[b] == PromotedBlock(s, b);
    }
  }

  /** A phi, or a kept instruction. */
  ghost predicate ComesFrom(s: Setting, p: S.Place, r: nat)
    requires Sound(s)
  {
    match p
    case PhiPlace(b, j) =>
      && b < |s.slots| && j < |s.slots[b]|
      && (b, s.slots[b][j]) in s.phis && s.phis[(b, s.slots[b][j])] == r
    case InstPlace(b, j) => exists k: nat :: Defines(s.f, b, k, r) && NewPlace(s, b, k) == j
  }

  lemma SetsComesFrom(s: Setting, p: S.Place, r: nat)
    requires hide *; Sound(s) && S.Sets(PromotedFunction(s), p, r)
    ensures ComesFrom(s, p, r)
  {
    hide Exact, Inflow, Placed, Replacement, SubstInst, WellFormed;
    var g, b := PromotedFunction(s), p.block;
    assert g.blocks[b] == PromotedBlock(s, b);
    match p
    case PhiPlace(_, j) =>
      assert s.slots[b][j] in s.slots[b];
      assert g.blocks[b].phis[j] == PhiAt(s, b, s.slots[b][j]);
    case InstPlace(_, j) =>
      CleanIsLeft(s.promoted, Replacement(s), Code(s, b));
      var k := LeftFrom(Code(s, b), Removal(s.promoted), j);
      assert Defines(s.f, b, k, r);
  }

  lemma PromotedSetOnce(s: Setting)
    requires hide *; Sound(s)
    ensures S.SetOnce(PromotedFunction(s))
  {
    hide ComesFrom, Exact, FreshPhis, Placed, PromotedBlock, WellFormed;
    forall p, q, r: nat | S.Sets(PromotedFunction(s), p, r) && S.Sets(PromotedFunction(s), q, r)
      ensures p == q
    {
      SetsComesFrom(s, p, r);
      SetsComesFrom(s, q, r);
      OnePlace(s, p, q, r);
    }
  }

  lemma OnePlace(s: Setting, p: S.Place, q: S.Place, r: nat)
    requires hide *; Sound(s) && ComesFrom(s, p, r) && ComesFrom(s, q, r)
    ensures p == q
  {
    hide AllDefined, Chain, Defines, IsTree, NewPlace, PredList, Site, Placed, Exact, ArePreds;
    if p.PhiPlace? && q.PhiPlace? {
      assert p.block == q.block && s.slots[p.block][p.index] == s.slots[p.block][q.index];
    }
  }

  /** What is live in the promoted function is ready there. */
  /** A definition that is kept stays in front of the places it was in front of. */
  lemma KeptIsReady(s: Setting, b: nat, k: nat, r: nat)
    requires hide FreshPhis, LiveValue, PromotedFunction, S.Ready, WellFormed;
             Sound(s) && b < |s.f.blocks| && k <= |Code(s, b)| && Available(s, b, k, r) && LoadSite(s, r).None?
    ensures S.Ready(PromotedFunction(s), b, NewPlace(s, b, k), Reg(r))
  {
    hide WellFormed, Clean;
    var g := PromotedFunction(s);
    SameGraph(s);
    var (d, i) := Site(s.f, r).value;
    assert Defines(s.f, d, i, r);
    assert g.blocks[d] == PromotedBlock(s, d);
    CleanIsLeft(s.promoted, Replacement(s), Code(s, d));
    LeftHas(Code(s, d), Removal(s.promoted), i);
    var p := S.InstPlace(d, NewPlace(s, d, i));
    assert S.Sets(g, p, r);
    if d == b {
      NewIndexRises(Code(s, b), Removal(s.promoted), i, k);
    }
    assert S.Before(g, p, b, NewPlace(s, b, k));
  }

  /** So does a new phi, in the blocks below it. */
  lemma NewPhiIsReady(s: Setting, b: nat, k: nat, x: nat, a: nat)
    requires hide FreshPhis, LiveValue, PromotedFunction, S.Ready, WellFormed;
             Sound(s) && b < |s.f.blocks| && k <= |Code(s, b)| && (x, a) in s.phis && x in Chain(s.idom, s.po, b)
    ensures S.Ready(PromotedFunction(s), b, NewPlace(s, b, k), Reg(s.phis[(x, a)]))
  {
    hide WellFormed, Clean;
    var g := PromotedFunction(s);
    SameGraph(s);
    var j := PhiIndex(s, x, a);
    var p := S.PhiPlace(x, j);
    assert S.Sets(g, p, s.phis[(x, a)]);
    assert S.Before(g, p, b, NewPlace(s, b, k));
  }

  lemma LiveIsReady(s: Setting, b: nat, k: nat, v: Operand)
    requires hide FreshPhis, LiveValue, PromotedFunction, S.Ready, WellFormed;
             Sound(s) && b < |s.f.blocks| && k <= |Code(s, b)| && LiveValue(s, b, k, v)
    ensures S.Ready(PromotedFunction(s), b, NewPlace(s, b, k), v)
  {
    hide WellFormed, PromotedFunction, S.Before, S.Sets, Available, LoadSite, Chain;
    if v.Reg? {
      if Available(s, b, k, v.id) && LoadSite(s, v.id).None? {
        KeptIsReady(s, b, k, v.id);
      } else {
        var x, a :| (x, a) in s.phis && x in Chain(s.idom, s.po, b) && s.phis[(x, a)] == v.id;
        NewPhiIsReady(s, b, k, x, a);
      }
    }
  }

  lemma PhiIndex(s: Setting, x: nat, a: nat) returns (j: nat)
    requires hide *; Sound(s) && (x, a) in s.phis
    ensures x < |s.f.blocks| && j < |PromotedFunction(s).blocks[x].phis|
    ensures PromotedFunction(s).blocks[x].phis[j].dst == s.phis[(x, a)]
  {
    hide Clean, Exact, Inflow, Placed, Replacement, Site, WellFormed;
    assert a in s.slots[x];
    j :| 0 <= j < |s.slots[x]| && s.slots[x][j] == a;
    assert PromotedFunction(s).blocks[x] == PromotedBlock(s, x);
  }

  // ----- uses -----

  lemma AvailableUse(s: Setting, b: nat, k: nat, v: Operand)
    requires hide NewPlace, Placed, PromotedFunction, Replacement, WellFormed;
             Sound(s) && b < |s.f.blocks| && k <= |Code(s, b)| && (v.Reg? ==> Available(s, b, k, v.id))
    ensures S.Ready(PromotedFunction(s), b, NewPlace(s, b, k), Apply(Replacement(s), v))
  {
    hide Available, LiveValue, NewPlace, PromotedFunction, Replacement, Resolve, S.Ready, Sound;
    ResolveIsLive(s, b, k, v);
    LiveIsReady(s, b, k, Resolve(s, v));
  }

  lemma InstReady(s: Setting, b: nat, j: nat)
    requires hide *; Sound(s) && b < |s.f.blocks| && j < |PromotedFunction(s).blocks[b].insts|
    ensures S.AllReady(PromotedFunction(s), b, j, Uses(PromotedFunction(s).blocks[b].insts[j]))
  {
    hide LoadSite, PhisAt, Placed, Replacement, SubstInst, WellFormed, Exact, ArePreds, FreshPhis, S.Ready, Available;
    var m := Replacement(s);
    assert PromotedFunction(s).blocks[b] == PromotedBlock(s, b);
    CleanIsLeft(s.promoted, m, Code(s, b));
    var k := LeftFrom(Code(s, b), Removal(s.promoted), j);
    forall v | v in Uses(SubstInst(m, Code(s, b)[k]))
      ensures S.Ready(PromotedFunction(s), b, j, v)
    {
      var u := UseBefore(m, Code(s, b)[k], v);
      ScopeOfUse(s, b, k, u);
      AvailableUse(s, b, k, u);
    }
  }

  lemma UseBefore(m: map<nat, Operand>, i: Inst, v: Operand) returns (u: Operand)
    requires v in Uses(SubstInst(m, i))
    ensures u in Uses(i) && v == Apply(m, u)
  {
    var n :| 0 <= n < |Uses(SubstInst(m, i))| && Uses(SubstInst(m, i))[n] == v;
    u := Uses(i)[n];
  }

  lemma TermUseBefore(m: map<nat, Operand>, t: Terminator, v: Operand) returns (u: Operand)
    requires v in TermUses(SubstTerm(m, t))
    ensures u in TermUses(t) && v == Apply(m, u)
  {
    u := TermUses(t)[0];
  }

  lemma TermDefined(s: Setting, b: nat)
    requires hide *; Sound(s) && b < |s.f.blocks|
    ensures AllDefined(s.f, b, |Code(s, b)|, TermUses(s.f.blocks[b].term))
  {
    hide Placed, Exact, ArePreds, FreshPhis, AllDefined;
  }

  lemma TermReady(s: Setting, b: nat)
    requires hide *; Sound(s) && b < |s.f.blocks|
    ensures var g := PromotedFunction(s);
            S.AllReady(g, b, |g.blocks[b].insts|, TermUses(g.blocks[b].term))
  {
    hide PhisAt, Placed, Replacement, SubstInst;
    var g, m, n := PromotedFunction(s), Replacement(s), |Code(s, b)|;
    assert g.blocks[b] == PromotedBlock(s, b);
    TermDefined(s, b);
    hide Placed, Exact, ArePreds, WellFormed, FreshPhis, S.Ready, Available;
    CleanIsLeft(s.promoted, m, Code(s, b));
    LeftLength(Code(s, b), Removal(s.promoted));
    forall v | v in TermUses(SubstTerm(m, s.f.blocks[b].term))
      ensures S.Ready(g, b, |g.blocks[b].insts|, v)
    {
      var u := TermUseBefore(m, s.f.blocks[b].term, v);
      AvailableUse(s, b, n, u);
    }
  }

  lemma PhiIsFed(s: Setting, p: nat, b: nat, j: nat)
    requires hide Placed, PromotedFunction, S.Fed, Site, WellFormed;
             Sound(s) && p < |s.f.blocks| && b < |s.f.blocks| && Edge(Cfg(s.f), p, b) && j < |s.slots[b]|
    ensures S.Fed(PromotedFunction(s), PromotedFunction(s).blocks[b].phis[j], p)
  {
    hide Current, Exact, LiveValue, Placed, Replacement, SubstInst;
    var g, a := PromotedFunction(s), s.slots[b][j];
    assert a in s.slots[b] && g.blocks[b] == PromotedBlock(s, b) && g.blocks[p] == PromotedBlock(s, p);
    PredsInRange(s, b);
    var inc := g.blocks[b].phis[j].incoming;
    assert inc == Inflow(s, s.preds[b], a);
    assert p in s.preds[b];
    var i :| 0 <= i < |s.preds[b]| && s.preds[b][i] == p;
    assert inc[i].1 == p;
    IncomingFound(inc, p, Outgoing(s, p, a));
    CurrentIsLive(s, p, |Code(s, p)|, a);
    LiveIsReady(s, p, |Code(s, p)|, Outgoing(s, p, a));
    CleanIsLeft(s.promoted, Replacement(s), Code(s, p));
    LeftLength(Code(s, p), Removal(s.promoted));
  }

  /** The promoted function is in strict SSA form. */
  lemma PromotedIsStrict(s: Setting)
    requires hide *; Sound(s)
    ensures S.Strict(PromotedFunction(s))
  {
    hide PromotedBlock;
    var g := PromotedFunction(s);
    SameGraph(s);
    PromotedSetOnce(s);
    EntryHasNoPhis(s);
    hide PromotedFunction, Placed, Exact, ArePreds, S.Ready, S.AllReady, S.Fed, S.SetOnce;
    forall b: nat, k: nat | b < |g.blocks| && k < |g.blocks[b].insts|
      ensures S.AllReady(g, b, k, Uses(g.blocks[b].insts[k]))
    {
      InstReady(s, b, k);
    }
    forall b: nat | b < |g.blocks|
      ensures S.AllReady(g, b, |g.blocks[b].insts|, TermUses(g.blocks[b].term))
    {
      TermReady(s, b);
    }
    forall p: nat, b: nat, j: nat | p < |g.blocks| && Edge(Cfg(g), p, b) && b < |g.blocks| && j < |g.blocks[b].phis|
      ensures S.Fed(g, g.blocks[b].phis[j], p)
    {
      PhisOfSlots(s, b);
      PhiIsFed(s, p, b, j);
    }
  }

  lemma EmptyOrNot(xs: seq<nat>)
    ensures xs == [] || exists x :: x in xs
  {
    if xs != [] {
      assert xs[0] in xs;
    }
  }

  lemma EntryHasNoPhis(s: Setting)
    requires hide *; Sound(s)
    ensures |s.f.blocks| > 0 && PromotedFunction(s).blocks[0].phis == []
  {
    assert PromotedFunction(s).blocks[0] == PromotedBlock(s, 0);
    EmptyOrNot(s.slots[0]);
  }

  lemma PhisOfSlots(s: Setting, b: nat)
    requires hide *; Sound(s) && b < |s.f.blocks|
    ensures b < |s.slots| && |PromotedFunction(s).blocks[b].phis| == |s.slots[b]|
  {
    hide Clean, Exact, PhisAt, Placed, Replacement, Site, WellFormed;
    assert PromotedFunction(s).blocks[b] == PromotedBlock(s, b);
  }
}
