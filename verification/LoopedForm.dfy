/** The loop built from a tail recursion is in strict SSA form. */
module LoopedForm {
  import opened Graphs
  import opened Ir
  import opened Ssa
  import opened SsaForm
  import opened TailCalls

  // ----- the graph of the loop -----

  lemma LoopEdges(t: Subject, base: nat, a: nat, b: nat)
    requires hide *; a < |t.f.blocks|
    ensures Edge(Cfg(Looped(t, base)), a + 1, b)
       <==> if IsSite(t, a) then b == 1 else b > 0 && Edge(Cfg(t.f), a, b - 1)
  {
    hide IsSite, LoopBlock, Looped;
    var n := a + 1;
    BlockUp(t, base, a);
    LoopTargets(t, base, a, b);
    assert Cfg(Looped(t, base))[n] == Targets(LoopBlock(t, base, a).term);
  }

  lemma LoopTargets(t: Subject, base: nat, a: nat, b: nat)
    requires hide *; a < |t.f.blocks|
    ensures b in Targets(LoopBlock(t, base, a).term)
       <==> if IsSite(t, a) then b == 1 else b > 0 && b - 1 in Targets(t.f.blocks[a].term)
  {
    hide IsSite, MapOperand;
    match t.f.blocks[a].term
    case Br(_) =>
    case CondBr(_, _, _) =>
    case Ret(_) =>
  }

  lemma EntryEdge(t: Subject, base: nat, b: nat)
    ensures hide *; Edge(Cfg(Looped(t, base)), 0, b) <==> b == 1
  {
    hide LoopBlock;
    assert Cfg(Looped(t, base))[0] == Targets(Br(1));
  }

  /** The part of a path behind the last visit of the header is a path of the recursion. */
  lemma {:induction false} PathBack(t: Subject, base: nat, p: seq<nat>, b: nat) returns (q: seq<nat>)
    requires hide *; PathTo(Cfg(Looped(t, base)), p, b + 1) && (forall a: nat :: !Edge(Cfg(t.f), a, 0))
    ensures PathTo(Cfg(t.f), q, b) && forall x :: x in q ==> x + 1 in p
    decreases |p|
  {
    hide *;
    PathLast(Cfg(Looped(t, base)), p, b + 1);
    if b == 0 {
      q := [0];
      PathOne(Cfg(t.f));
    } else {
      var a := p[|p| - 2];
      EntryEdge(t, base, b + 1);
      LoopEdgeRange(t, base, a, b + 1);
      LoopEdges(t, base, a - 1, b + 1);
      var q' := PathBack(t, base, p[..|p| - 1], a - 1);
      q := q' + [b];
      PathExtend(Cfg(t.f), q', a - 1, b);
    }
  }

  lemma LoopEdgeRange(t: Subject, base: nat, a: nat, b: nat)
    requires Edge(Cfg(Looped(t, base)), a, b)
    ensures a <= |t.f.blocks|
  {
    hide LoopBlock;
  }

  lemma PathOne(g: Graph)
    ensures PathTo(g, [0], 0)
  {
  }

  lemma PathLast(g: Graph, p: seq<nat>, b: nat)
    requires PathTo(g, p, b)
    ensures |p| > 0 && p[|p| - 1] == b && b in p
    ensures b > 0 ==> |p| > 1 && Edge(g, p[|p| - 2], b) && PathTo(g, p[..|p| - 1], p[|p| - 2])
    ensures b > 0 ==> forall x :: x in p[..|p| - 1] ==> x in p
  {
  }

  lemma {:induction false} PathUp(t: Subject, base: nat, p: seq<nat>, b: nat) returns (q: seq<nat>)
    requires hide *; PathTo(Cfg(t.f), p, b)
    ensures PathTo(Cfg(Looped(t, base)), q, b + 1)
    decreases |p|
  {
    var g := Cfg(Looped(t, base));
    hide Looped;
    if |p| == 1 {
      EntryEdge(t, base, 1);
      PathOne(g);
      PathExtend(g, [0], 0, 1);
      q := [0] + [1];
    } else {
      var a := p[|p| - 2];
      var q' := PathUp(t, base, p[..|p| - 1], a);
      LoopEdges(t, base, a, b + 1);
      SiteIsLast(t, a, b);
      PathExtend(g, q', a + 1, b + 1);
      q := q' + [b + 1];
    }
  }

  lemma SiteIsLast(t: Subject, a: nat, b: nat)
    requires Edge(Cfg(t.f), a, b)
    ensures !IsSite(t, a)
  {
  }

  lemma DominatesUp(t: Subject, base: nat, d: nat, b: nat)
    requires hide *; Dominates(Cfg(t.f), d, b) && forall a: nat :: !Edge(Cfg(t.f), a, 0)
    ensures Dominates(Cfg(Looped(t, base)), d + 1, b + 1)
  {
    var n := b + 1;
    forall p | PathTo(Cfg(Looped(t, base)), p, n)
      ensures d + 1 in p
    {
      var q := PathBack(t, base, p, b);
      assert d in q;
    }
  }

  lemma HeaderDominates(t: Subject, base: nat, b: nat)
    requires hide *; forall a: nat :: !Edge(Cfg(t.f), a, 0)
    ensures Dominates(Cfg(Looped(t, base)), 1, b + 1)
  {
    var n := b + 1;
    forall p | PathTo(Cfg(Looped(t, base)), p, n)
      ensures 1 in p
    {
      var q := PathBack(t, base, p, b);
      StartsAtEntry(Cfg(t.f), q, b);
      assert 0 in q;
    }
  }

  lemma {:induction false} StartsAtEntry(g: Graph, p: seq<nat>, b: nat)
    requires PathTo(g, p, b)
    ensures 0 in p
  {
    if |p| > 1 {
      StartsAtEntry(g, p[..|p| - 1], p[|p| - 2]);
    }
  }

  lemma EdgeInRange(t: Subject, base: nat, a: nat, b: nat)
    requires Graphs.Valid(Cfg(t.f)) && Edge(Cfg(Looped(t, base)), a, b)
    ensures 0 < b <= |t.f.blocks|
  {
    LoopEdgeRange(t, base, a, b);
    hide Looped, IsSite;
    if a == 0 {
      EntryEdge(t, base, b);
    } else {
      LoopEdges(t, base, a - 1, b);
    }
  }

  lemma Reached(t: Subject, base: nat, b: nat)
    requires AllReachable(Cfg(t.f)) && b <= |t.f.blocks|
    ensures Reachable(Cfg(Looped(t, base)), b)
  {
    hide Looped, PathTo;
    PathOne(Cfg(Looped(t, base)));
    if b > 0 {
      assert Reachable(Cfg(t.f), b - 1);
      var p :| PathTo(Cfg(t.f), p, b - 1);
      var q := PathUp(t, base, p, b - 1);
    }
  }

  lemma LoopGraph(t: Subject, base: nat)
    requires hide *; Graphs.Valid(Cfg(t.f)) && AllReachable(Cfg(t.f))
    ensures var g := Cfg(Looped(t, base)); Graphs.Valid(g) && AllReachable(g) && forall p: nat :: !Edge(g, p, 0)
  {
    var g := Cfg(Looped(t, base));
    assert |g| == |t.f.blocks| + 1;
    hide Looped, Reachable, Edge;
    forall a: nat, b: nat | Edge(g, a, b)
      ensures 0 < b < |g|
    {
      EdgeInRange(t, base, a, b);
    }
    forall b: nat | b < |g|
      ensures Reachable(g, b)
    {
      Reached(t, base, b);
    }
  }

  // ----- places -----

  /** Where a place is in the loop. */
  function Up(p: Place): Place {
    match p
    case PhiPlace(b, j) => PhiPlace(b + 1, j)
    case InstPlace(b, k) => InstPlace(b + 1, k)
  }

  lemma BlockUp(t: Subject, base: nat, b: nat)
    requires hide *; b < |t.f.blocks|
    ensures Looped(t, base).blocks[b + 1] == LoopBlock(t, base, b)
  {
    hide *;
  }

  lemma MapKeepsDst(i: Inst, base: nat, params: nat)
    ensures Dst(MapInst(i, base, params)) == Dst(i)
  {
  }

  /** A register of the loop is a parameter's, or was set at the place below. */
  lemma SetsBelow(t: Subject, base: nat, p: Place, r: nat)
    requires Suitable(t, base) && Sets(Looped(t, base), p, r)
    ensures p.block > 0
    ensures if p.PhiPlace? && p.block == 1 then p.index < t.params && r == base + p.index
            else r < base && exists q :: Sets(t.f, q, r) && p == Up(q)
  {
    hide Looped, MapInst;
    NothingInEntry(t, base, p, r);
    var b := p.block;
    BlockUp(t, base, b - 1);
    if !(p.PhiPlace? && b == 1) {
      var q := if p.PhiPlace? then PhiPlace(b - 1, p.index) else InstPlace(b - 1, p.index);
      if q.InstPlace? {
        MapKeepsDst(t.f.blocks[b - 1].insts[p.index], base, t.params);
      }
      assert Sets(t.f, q, r) && p == Up(q);
    }
  }

  lemma NothingInEntry(t: Subject, base: nat, p: Place, r: nat)
    requires Sets(Looped(t, base), p, r)
    ensures p.block > 0
  {
    hide Dst, LoopBlock;
  }

  lemma LoopSetsOnce(t: Subject, base: nat)
    requires Suitable(t, base)
    ensures SetOnce(Looped(t, base))
  {
    hide AllReachable, AllReady, Fed, Looped, Sets;
    forall p, q, r: nat | Sets(Looped(t, base), p, r) && Sets(Looped(t, base), q, r)
      ensures p == q
    {
      SetsBelow(t, base, p, r);
      SetsBelow(t, base, q, r);
    }
  }

  /** The instructions of a block that stay. */
  function Kept(t: Subject, b: nat): nat
    requires b < |t.f.blocks|
  {
    if IsSite(t, b) then |t.f.blocks[b].insts| - 1 else |t.f.blocks[b].insts|
  }

  /** What is ready in the recursion is ready in the loop, under its new name. */
  lemma ReadyUp(t: Subject, base: nat, b: nat, k: nat, v: Operand)
    requires hide *; Suitable(t, base) && b < |t.f.blocks| && k <= Kept(t, b) && Ready(t.f, b, k, v)
    ensures Ready(Looped(t, base), b + 1, k, MapOperand(v, base, t.params))
  {
    hide Kept, Looped, Strict, Suitable;
    if v.Param? && v.index < t.params {
      ParamReady(t, base, b, k, v.index);
    } else if v.Reg? {
      var p :| Sets(t.f, p, v.id) && Before(t.f, p, b, k);
      SuitableGraph(t, base);
      DominatesUp(t, base, p.block, b);
      NotTheCall(t, p, v.id, b, k);
      SetsUp(t, base, p, v.id);
      assert Before(Looped(t, base), Up(p), b + 1, k);
    }
  }

  lemma SuitableGraph(t: Subject, base: nat)
    requires hide *; Suitable(t, base)
    ensures Strict(t.f) && forall a: nat :: !Edge(Cfg(t.f), a, 0)
  {
    hide AllReachable, AllReady, Fed, Sets, TermUses, Uses;
  }

  lemma SetsUp(t: Subject, base: nat, p: Place, r: nat)
    requires Sets(t.f, p, r) && (p.PhiPlace? ==> p.block > 0) && (p.InstPlace? ==> p.index < Kept(t, p.block))
    ensures Sets(Looped(t, base), Up(p), r)
  {
    hide Dst, IsSite, Looped, MapInst, MapInsts, MapPhis, MapTerm, ParamPhis;
    BlockUp(t, base, p.block);
    hide Looped, MapInst;
    if p.InstPlace? {
      MapKeepsDst(t.f.blocks[p.block].insts[p.index], base, t.params);
    }
  }

  lemma ParamReady(t: Subject, base: nat, b: nat, k: nat, i: nat)
    requires hide *; Suitable(t, base) && i < t.params
    ensures Ready(Looped(t, base), b + 1, k, Reg(base + i))
  {
    hide Looped, Dominates, IsSite;
    var g := Looped(t, base);
    BlockUp(t, base, 0);
    HeaderDominates(t, base, b);
    var p := PhiPlace(1, i);
    assert Sets(g, p, base + i) && Before(g, p, b + 1, k);
  }

  /** No place behind a tail call but its return is behind its result, and the entry has no phis. */
  lemma NotTheCall(t: Subject, p: Place, r: nat, b: nat, k: nat)
    requires hide Before, Dst, Kept, Strict; Strict(t.f)
    requires Sets(t.f, p, r) && Before(t.f, p, b, k) && b < |t.f.blocks| && k <= Kept(t, b)
    ensures p.PhiPlace? ==> p.block > 0
    ensures p.InstPlace? ==> p.index < Kept(t, p.block)
  {
    if p.InstPlace? && p.block != b && IsSite(t, p.block) {
      DeadEnd(Cfg(t.f), p.block, b);
    }
  }

  /** A block without successors dominates no other block. */
  lemma DeadEnd(g: Graph, d: nat, b: nat)
    requires AllReachable(g) && b < |g| && d != b && forall x: nat :: !Edge(g, d, x)
    ensures !Dominates(g, d, b)
  {
    assert Reachable(g, b);
    var p :| PathTo(g, p, b);
    NotOnPath(g, d, p, b);
  }

  lemma {:induction false} NotOnPath(g: Graph, d: nat, p: seq<nat>, b: nat)
    requires PathTo(g, p, b) && d != b && forall x: nat :: !Edge(g, d, x)
    ensures d !in p
  {
    if |p| > 1 {
      NotOnPath(g, d, p[..|p| - 1], p[|p| - 2]);
    }
  }

  // ----- uses -----

  lemma UsesMapped(i: Inst, base: nat, params: nat, v: Operand) returns (u: Operand)
    requires v in Uses(MapInst(i, base, params))
    ensures u in Uses(i) && v == MapOperand(u, base, params)
  {
    var n :| 0 <= n < |Uses(MapInst(i, base, params))| && Uses(MapInst(i, base, params))[n] == v;
    u := Uses(i)[n];
  }

  lemma InstsReady(t: Subject, base: nat, b: nat, k: nat)
    requires hide *; Suitable(t, base) && b < |t.f.blocks| && k < Kept(t, b)
    ensures k < |LoopBlock(t, base, b).insts|
    ensures AllReady(Looped(t, base), b + 1, k, Uses(LoopBlock(t, base, b).insts[k]))
  {
    hide Ready, Looped, MapOperand;
    var i := t.f.blocks[b].insts[k];
    assert AllReady(t.f, b, k, Uses(i));
    assert LoopBlock(t, base, b).insts[k] == MapInst(i, base, t.params);
    forall v | v in Uses(MapInst(i, base, t.params))
      ensures Ready(Looped(t, base), b + 1, k, v)
    {
      var u := UsesMapped(i, base, t.params, v);
      ReadyUp(t, base, b, k, u);
    }
  }

  lemma TermsReady(t: Subject, base: nat, b: nat)
    requires hide *; Suitable(t, base) && b < |t.f.blocks|
    ensures |LoopBlock(t, base, b).insts| == Kept(t, b)
    ensures AllReady(Looped(t, base), b + 1, Kept(t, b), TermUses(LoopBlock(t, base, b).term))
  {
    hide Ready, Looped, MapOperand;
    var term := t.f.blocks[b].term;
    assert AllReady(t.f, b, |t.f.blocks[b].insts|, TermUses(term));
    if !IsSite(t, b) {
      forall v | v in TermUses(MapTerm(term, base, t.params))
        ensures Ready(Looped(t, base), b + 1, Kept(t, b), v)
      {
        var u := TermUses(term)[0];
        assert u in TermUses(term);
        ReadyUp(t, base, b, Kept(t, b), u);
      }
    }
  }

  // ----- phis -----

  lemma {:induction false} IncomingUp(inc: seq<(Operand, nat)>, base: nat, params: nat, p: nat)
    ensures Incoming(MapIncoming(inc, base, params), p + 1)
         == match Incoming(inc, p)
            case Some(v) => Some(MapOperand(v, base, params))
            case None => None
  {
    if inc != [] {
      assert MapIncoming(inc, base, params)[1..] == MapIncoming(inc[1..], base, params);
      IncomingUp(inc[1..], base, params, p);
    }
  }

  lemma OldPhiFed(t: Subject, base: nat, p: nat, b: nat, j: nat)
    requires hide *; Suitable(t, base) && p < |t.f.blocks| && 0 < b < |t.f.blocks| && Edge(Cfg(t.f), p, b)
    requires j < |t.f.blocks[b].phis|
    ensures p + 1 < |Looped(t, base).blocks|
    ensures Fed(Looped(t, base), MapPhis(t.f.blocks[b].phis, base, t.params)[j], p + 1)
  {
    hide Ready, MapOperand;
    var inc := t.f.blocks[b].phis[j].incoming;
    assert Fed(t.f, t.f.blocks[b].phis[j], p);
    IncomingUp(inc, base, t.params, p);
    SiteIsLast(t, p, b);
    ReadyUp(t, base, p, Kept(t, p), Incoming(inc, p).value);
    BlockUp(t, base, p);
  }

  lemma {:induction false} SiteListed(t: Subject, n: nat, b: nat)
    requires b < n && IsSite(t, b)
    ensures b in SitesBelow(t, n)
  {
    hide IsSite;
    if b < n - 1 {
      SiteListed(t, n - 1, b);
    }
  }

  /** The value that parameter `i` receives from a site. */
  lemma FromSite(t: Subject, base: nat, i: nat, p: nat)
    requires i < t.params && IsSite(t, p)
    ensures Incoming(ParamIncoming(t, base, i, SitesBelow(t, |t.f.blocks|)), p + 1)
         == Some(MapOperand(TailCall(t, p).args[i], base, t.params))
  {
    hide Incoming, MapOperand, SitesBelow;
    var sites := SitesBelow(t, |t.f.blocks|);
    var inc, v := ParamIncoming(t, base, i, sites), MapOperand(TailCall(t, p).args[i], base, t.params);
    SiteListed(t, |t.f.blocks|, p);
    var n :| 0 <= n < |sites| && sites[n] == p;
    assert inc[n + 1] == (v, p + 1);
    forall j | 0 <= j < |inc| && inc[j].1 == p + 1
      ensures inc[j].0 == v
    {
      assert j > 0 ==> inc[(j - 1) + 1].1 == sites[j - 1] + 1;
      assert j > 0 ==> inc[(j - 1) + 1].0 == MapOperand(TailCall(t, sites[j - 1]).args[i], base, t.params);
    }
    OnlyValue(inc, p + 1, v);
  }

  lemma {:induction false} OnlyValue(inc: seq<(Operand, nat)>, p: nat, v: Operand)
    requires exists j :: 0 <= j < |inc| && inc[j].1 == p
    requires forall j :: 0 <= j < |inc| && inc[j].1 == p ==> inc[j].0 == v
    ensures Incoming(inc, p) == Some(v)
  {
    if inc[0].1 != p {
      OnlyValue(inc[1..], p, v);
    }
  }

  /** What a site passes on is ready at its end. */
  lemma ArgumentReady(t: Subject, base: nat, b: nat, i: nat)
    requires hide Looped, Ready, Suitable; Suitable(t, base) && i < t.params && IsSite(t, b)
    ensures |Looped(t, base).blocks[b + 1].insts| == Kept(t, b)
    ensures Ready(Looped(t, base), b + 1, Kept(t, b), MapOperand(TailCall(t, b).args[i], base, t.params))
  {
    BlockUp(t, base, b);
    var k := Kept(t, b);
    hide Looped, Ready, MapOperand;
    assert AllReady(t.f, b, k, Uses(t.f.blocks[b].insts[k]));
    assert TailCall(t, b).args[i] in Uses(TailCall(t, b));
    ReadyUp(t, base, b, k, TailCall(t, b).args[i]);
  }

  lemma FedBy(f: Function, phi: Phi, p: nat, v: Operand)
    requires hide *; p < |f.blocks| && Incoming(phi.incoming, p) == Some(v) && Ready(f, p, |f.blocks[p].insts|, v)
    ensures Fed(f, phi, p)
  {
    hide Before, Sets;
  }

  lemma ParamPhiIs(t: Subject, base: nat, i: nat)
    requires hide *; i < t.params
    ensures ParamPhis(t, base)[i] == Phi(base + i, ParamIncoming(t, base, i, SitesBelow(t, |t.f.blocks|)))
    ensures |ParamPhis(t, base)[i].incoming| > 0 && ParamPhis(t, base)[i].incoming[0] == (Param(i), 0)
  {
  }

  lemma EntryFeeds(t: Subject, base: nat, i: nat)
    requires hide *; i < t.params
    ensures Fed(Looped(t, base), ParamPhis(t, base)[i], 0)
  {
    hide *;
    ParamPhiIs(t, base, i);
    EntryIsEmpty(t, base);
    FirstIncoming(ParamPhis(t, base)[i].incoming, Param(i));
    ConstantIsReady(Looped(t, base), Param(i));
    FedBy(Looped(t, base), ParamPhis(t, base)[i], 0, Param(i));
  }

  lemma SiteFeedsParam(t: Subject, base: nat, b: nat, i: nat)
    requires hide *; Suitable(t, base) && i < t.params && b < |t.f.blocks| && IsSite(t, b)
    ensures Fed(Looped(t, base), ParamPhis(t, base)[i], b + 1)
  {
    hide *;
    ParamPhiIs(t, base, i);
    FromSite(t, base, i, b);
    ArgumentReady(t, base, b, i);
    FedBy(Looped(t, base), ParamPhis(t, base)[i], b + 1, MapOperand(TailCall(t, b).args[i], base, t.params));
  }

  lemma ParamPhiFed(t: Subject, base: nat, p: nat, i: nat)
    requires hide *;
             Suitable(t, base) && i < t.params && p < |Looped(t, base).blocks| && Edge(Cfg(Looped(t, base)), p, 1)
    ensures Fed(Looped(t, base), ParamPhis(t, base)[i], p)
  {
    hide Fed, IsSite, Looped, ParamPhis, Suitable;
    LoopEdgeRange(t, base, p, 1);
    hide Suitable, Looped, Fed, ParamPhis, IsSite;
    if p == 0 {
      EntryFeeds(t, base, i);
    } else {
      LoopEdges(t, base, p - 1, 1);
      NoEdgeToEntry(t, base, p - 1);
      SiteFeedsParam(t, base, p - 1, i);
    }
  }

  lemma FirstIncoming(inc: seq<(Operand, nat)>, v: Operand)
    requires |inc| > 0 && inc[0] == (v, 0)
    ensures Incoming(inc, 0) == Some(v)
  {
  }

  lemma NoEdgeToEntry(t: Subject, base: nat, a: nat)
    requires hide *; Suitable(t, base)
    ensures !Edge(Cfg(t.f), a, 0)
  {
    hide AllReachable, AllReady, Cfg, Fed, Sets, TermUses, Uses;
  }

  lemma ConstantIsReady(f: Function, v: Operand)
    requires hide *; !v.Reg? && 0 < |f.blocks|
    ensures Ready(f, 0, |f.blocks[0].insts|, v)
  {
    hide Before, Sets;
  }

  lemma LoopInsts(t: Subject, base: nat, b: nat, k: nat)
    requires hide *; Suitable(t, base) && b <= |t.f.blocks| && k < |Looped(t, base).blocks[b].insts|
    ensures AllReady(Looped(t, base), b, k, Uses(Looped(t, base).blocks[b].insts[k]))
  {
    hide *;
    EntryIsEmpty(t, base);
    hide Looped, LoopBlock, AllReady, Suitable;
    BlockUp(t, base, b - 1);
    TermsReady(t, base, b - 1);
    InstsReady(t, base, b - 1, k);
  }

  lemma EntryIsEmpty(t: Subject, base: nat)
    ensures hide *; Looped(t, base).blocks[0] == Block([], [], Br(1))
  {
    hide LoopBlock;
  }

  lemma LoopTerms(t: Subject, base: nat, b: nat)
    requires hide *; Suitable(t, base) && b <= |t.f.blocks|
    ensures var blk := Looped(t, base).blocks[b];
            AllReady(Looped(t, base), b, |blk.insts|, TermUses(blk.term))
  {
    EntryIsEmpty(t, base);
    hide Looped, LoopBlock, AllReady, Suitable;
    if b == 0 {
      NoneUsed(Looped(t, base), 0);
    } else {
      BlockUp(t, base, b - 1);
      TermsReady(t, base, b - 1);
    }
  }

  lemma LoopPhis(t: Subject, base: nat, p: nat, b: nat, j: nat)
    requires hide *; Suitable(t, base) && p <= |t.f.blocks| && b <= |t.f.blocks|
    requires Edge(Cfg(Looped(t, base)), p, b) && j < |Looped(t, base).blocks[b].phis|
    ensures Fed(Looped(t, base), Looped(t, base).blocks[b].phis[j], p)
  {
    EntryIsEmpty(t, base);
    hide Looped, LoopBlock, Fed, Suitable;
    BlockUp(t, base, b - 1);
    PhiFed(t, base, p, b - 1, j);
  }

  /** The loop is in strict SSA form. */
  lemma LoopedIsStrict(t: Subject, base: nat)
    requires Suitable(t, base)
    ensures Strict(Looped(t, base))
  {
    hide AllReachable, Fed, LoopBlock, Ready, Sets;
    var g := Looped(t, base);
    assert |g.blocks| == |t.f.blocks| + 1;
    LoopGraph(t, base);
    LoopSetsOnce(t, base);
    EntryIsEmpty(t, base);
    hide Looped, LoopBlock, Ready, AllReady, Fed, SetOnce, Sets, Suitable, AllReachable, Graphs.Valid;
    forall b: nat, k: nat | b < |g.blocks| && k < |g.blocks[b].insts|
      ensures AllReady(g, b, k, Uses(g.blocks[b].insts[k]))
    {
      LoopInsts(t, base, b, k);
    }
    forall b: nat | b < |g.blocks|
      ensures AllReady(g, b, |g.blocks[b].insts|, TermUses(g.blocks[b].term))
    {
      LoopTerms(t, base, b);
    }
    forall p: nat, b: nat, j: nat | p < |g.blocks| && Edge(Cfg(g), p, b) && b < |g.blocks| && j < |g.blocks[b].phis|
      ensures Fed(g, g.blocks[b].phis[j], p)
    {
      LoopPhis(t, base, p, b, j);
    }
  }

  lemma NoneUsed(g: Function, b: nat)
    ensures hide *; AllReady(g, b, 0, [])
  {
    hide Ready;
  }

  lemma PhiFed(t: Subject, base: nat, p: nat, b: nat, j: nat)
    requires hide *; Suitable(t, base) && p < |Looped(t, base).blocks| && b < |t.f.blocks|
    requires Edge(Cfg(Looped(t, base)), p, b + 1) && j < |LoopBlock(t, base, b).phis|
    ensures Fed(Looped(t, base), LoopBlock(t, base, b).phis[j], p)
  {
    hide Fed, IsSite, MapInsts, MapPhis, MapTerm, ParamPhis, Suitable, Looped;
    if b == 0 {
      ParamPhiFed(t, base, p, j);
    } else {
      EntryEdge(t, base, b + 1);
      LoopEdges(t, base, p - 1, b + 1);
      OldPhiFed(t, base, p - 1, b, j);
    }
  }
}
