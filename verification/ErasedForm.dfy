/** Erasing what nobody uses keeps strict SSA form. */
module ErasedForm {
  import opened Graphs
  import opened Ir
  import opened Ssa
  import opened SsaForm
  import opened Redundancy
  import opened Dropping

  function Deadness(dead: set<nat>): Inst -> bool {
    i => Dead(i, dead)
  }

  lemma {:induction false} LiveIsLeft(insts: seq<Inst>, dead: set<nat>)
    ensures KeepLive(insts, dead) == Left(insts, Deadness(dead))
  {
    if insts != [] {
      LiveIsLeft(insts[..|insts| - 1], dead);
    }
  }

  lemma ErasedBlock(f: Function, dead: set<nat>, b: nat)
    requires b < |f.blocks|
    ensures EraseDead(f, dead).blocks[b] == f.blocks[b].(insts := Left(f.blocks[b].insts, Deadness(dead)))
  {
    LiveIsLeft(f.blocks[b].insts, dead);
  }

  lemma SameCfg(f: Function, dead: set<nat>)
    ensures Cfg(EraseDead(f, dead)) == Cfg(f)
  {
  }

  /** Where instruction `k` of block `b` is afterwards. */
  function NewPlace(f: Function, dead: set<nat>, b: nat, k: nat): nat
    requires b < |f.blocks| && k <= |f.blocks[b].insts|
  {
    NewIndex(f.blocks[b].insts, Deadness(dead), k)
  }

  /** A place where a register is set afterwards comes from one where it was set. */
  lemma SetsFrom(f: Function, dead: set<nat>, p: Place, r: nat) returns (q: Place)
    requires hide *; Sets(EraseDead(f, dead), p, r)
    ensures Sets(f, q, r) && q.block == p.block && (p.PhiPlace? ==> q == p)
    ensures p.InstPlace? ==> q.InstPlace? && q.block < |f.blocks| && q.index < |f.blocks[q.block].insts|
                             && NewPlace(f, dead, q.block, q.index) == p.index
  {
    ErasedBlock(f, dead, p.block);
    match p
    case PhiPlace(_, _) => q := p;
    case InstPlace(b, j) =>
      var k := LeftFrom(f.blocks[b].insts, Deadness(dead), j);
      q := InstPlace(b, k);
  }

  lemma SetOnceKept(f: Function, dead: set<nat>)
    requires SetOnce(f)
    ensures SetOnce(EraseDead(f, dead))
  {
    forall p, q, r: nat | Sets(EraseDead(f, dead), p, r) && Sets(EraseDead(f, dead), q, r)
      ensures p == q
    {
      var p' := SetsFrom(f, dead, p, r);
      var q' := SetsFrom(f, dead, q, r);
      assert p' == q';
    }
  }

  /** What is ready and not erased stays ready. */
  lemma ReadyKept(f: Function, dead: set<nat>, b: nat, k: nat, v: Operand)
    requires hide *; b < |f.blocks| && k <= |f.blocks[b].insts| && Ready(f, b, k, v) && (v.Reg? ==> v.id !in dead)
    ensures Ready(EraseDead(f, dead), b, NewPlace(f, dead, b, k), v)
  {
    hide Cfg, Dominates, EraseDead, Left, NewIndex;
    if v.Reg? {
      var g := EraseDead(f, dead);
      SameCfg(f, dead);
      var p :| Sets(f, p, v.id) && Before(f, p, b, k);
      ErasedBlock(f, dead, p.block);
      match p
      case PhiPlace(_, _) =>
        assert Sets(g, p, v.id) && Before(g, p, b, NewPlace(f, dead, b, k));
      case InstPlace(d, i) =>
        LeftHas(f.blocks[d].insts, Deadness(dead), i);
        var q := InstPlace(d, NewPlace(f, dead, d, i));
        if d == b {
          NewIndexRises(f.blocks[b].insts, Deadness(dead), i, k);
        }
        assert Sets(g, q, v.id) && Before(g, q, b, NewPlace(f, dead, b, k));
    }
  }

  lemma InstsReady(f: Function, dead: set<nat>, b: nat, j: nat)
    requires hide *; Strict(f) && Unused(f, dead) && b < |f.blocks| && j < |EraseDead(f, dead).blocks[b].insts|
    ensures AllReady(EraseDead(f, dead), b, j, Uses(EraseDead(f, dead).blocks[b].insts[j]))
  {
    hide Ready;
    ErasedBlock(f, dead, b);
    var k := LeftFrom(f.blocks[b].insts, Deadness(dead), j);
    var i := f.blocks[b].insts[k];
    assert AllReady(f, b, k, Uses(i));
    forall v | v in Uses(i)
      ensures Ready(EraseDead(f, dead), b, j, v)
    {
      assert v.Reg? ==> Mentions(Uses(i), v.id);
      ReadyKept(f, dead, b, k, v);
    }
  }

  lemma TermsReady(f: Function, dead: set<nat>, b: nat)
    requires hide *; Strict(f) && Unused(f, dead) && b < |f.blocks|
    ensures var g := EraseDead(f, dead);
            AllReady(g, b, |g.blocks[b].insts|, TermUses(g.blocks[b].term))
  {
    hide Ready;
    ErasedBlock(f, dead, b);
    LeftLength(f.blocks[b].insts, Deadness(dead));
    var n := |f.blocks[b].insts|;
    assert AllReady(f, b, n, TermUses(f.blocks[b].term));
    forall v | v in TermUses(f.blocks[b].term)
      ensures Ready(EraseDead(f, dead), b, NewPlace(f, dead, b, n), v)
    {
      assert v.Reg? ==> Mentions(TermUses(f.blocks[b].term), v.id);
      ReadyKept(f, dead, b, n, v);
    }
  }

  lemma PhisFed(f: Function, dead: set<nat>, p: nat, b: nat, j: nat)
    requires hide *; Strict(f) && Unused(f, dead) && p < |f.blocks| && b < |f.blocks| && Edge(Cfg(f), p, b)
    requires j < |f.blocks[b].phis|
    ensures Fed(EraseDead(f, dead), f.blocks[b].phis[j], p)
  {
    hide Ready;
    var inc := f.blocks[b].phis[j].incoming;
    assert Fed(f, f.blocks[b].phis[j], p);
    IncomingIsThere(inc, p);
    var n :| 0 <= n < |inc| && inc[n].0 == Incoming(inc, p).value;
    ReadyKept(f, dead, p, |f.blocks[p].insts|, inc[n].0);
    ErasedBlock(f, dead, p);
    LeftLength(f.blocks[p].insts, Deadness(dead));
  }

  /** Erasing pure instructions whose results nobody uses keeps strict SSA form. */
  lemma ErasedIsStrict(f: Function, dead: set<nat>)
    requires Strict(f) && Unused(f, dead)
    ensures Strict(EraseDead(f, dead))
  {
    hide AllReachable, Cfg, Deadness, Fed, KeepLive, Left, Ready, Sets, Unused, Uses;
    var g := EraseDead(f, dead);
    SameCfg(f, dead);
    SetOnceKept(f, dead);
    ErasedBlock(f, dead, 0);
    hide EraseDead, Ready, AllReady, Fed, Sets, SetOnce;
    forall b: nat, k: nat | b < |g.blocks| && k < |g.blocks[b].insts|
      ensures AllReady(g, b, k, Uses(g.blocks[b].insts[k]))
    {
      InstsReady(f, dead, b, k);
    }
    forall b: nat | b < |g.blocks|
      ensures AllReady(g, b, |g.blocks[b].insts|, TermUses(g.blocks[b].term))
    {
      TermsReady(f, dead, b);
    }
    forall p: nat, b: nat, j: nat | p < |g.blocks| && Edge(Cfg(g), p, b) && b < |g.blocks| && j < |g.blocks[b].phis|
      ensures Fed(g, g.blocks[b].phis[j], p)
    {
      ErasedBlock(f, dead, b);
      PhisFed(f, dead, p, b, j);
    }
  }
}
