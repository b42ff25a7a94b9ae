/** The state of the renaming walk: how far the function was rewritten, and what the value stacks hold. */
module Rename {
  import opened Graphs
  import opened Ir
  import opened Ssa
  import opened Renaming
  import opened Promotion

  /** The predecessors of `b` among the visited blocks, in the order of the visits. */
  function Arrived(g: Graph, visited: seq<nat>, b: nat): seq<nat> {
    if visited == [] then []
    else
      var last := visited[|visited| - 1];
      Arrived(g, visited[..|visited| - 1], b) + (if Edge(g, last, b) then [last] else [])
  }

  lemma {:induction false} ArrivedElements(g: Graph, visited: seq<nat>, b: nat)
    ensures forall p: nat :: p in Arrived(g, visited, b) <==> p in visited && Edge(g, p, b)
    ensures forall i :: 0 <= i < |Arrived(g, visited, b)| ==> Arrived(g, visited, b)[i] < |g|
  {
    if visited != [] {
      var last := visited[|visited| - 1];
      ArrivedElements(g, visited[..|visited| - 1], b);
      assert visited == visited[..|visited| - 1] + [last];
    }
  }

  lemma {:induction false} ArrivedDistinct(g: Graph, visited: seq<nat>, b: nat)
    requires Distinct(visited)
    ensures Distinct(Arrived(g, visited, b))
  {
    if visited != [] {
      var front, last := visited[..|visited| - 1], visited[|visited| - 1];
      ArrivedDistinct(g, front, b);
      ArrivedElements(g, front, b);
      var q := Arrived(g, front, b);
      forall i | 0 <= i < |q|
        ensures q[i] != last
      {
        assert q[i] in q;
      }
    }
  }

  lemma ArrivedSnoc(g: Graph, visited: seq<nat>, b: nat, p: nat)
    ensures Arrived(g, visited + [p], b) == Arrived(g, visited, b) + (if Edge(g, p, b) then [p] else [])
  {
    assert (visited + [p])[..|visited|] == visited;
  }

  /** The phi of slot `a` in block `b` with the values of the edges in `ps`. */
  ghost predicate PhiFilled(s: Setting, phi: Phi, b: nat, a: nat, ps: seq<nat>)
    requires hide *; Sound(s) && (b, a) in s.phis && forall i :: 0 <= i < |ps| ==> ps[i] < |s.f.blocks|
  {
    phi == Phi(s.phis[(b, a)], Inflow(s, ps, a))
  }

  /** Block `b` after the registers of `m` were replaced and the edges in `ps` filled in. */
  ghost predicate BlockRewritten(s: Setting, blk: Block, b: nat, m: map<nat, Operand>, ps: seq<nat>)
    requires Sound(s) && b < |s.f.blocks| && forall i :: 0 <= i < |ps| ==> ps[i] < |s.f.blocks|
  {
    && blk.insts == SubstInsts(m, Code(s, b))
    && blk.term == SubstTerm(m, s.f.blocks[b].term)
    && |blk.phis| == |s.slots[b]|
    && (forall i :: 0 <= i < |blk.phis| ==>
          s.slots[b][i] in s.slots[b] && PhiFilled(s, blk.phis[i], b, s.slots[b][i], ps))
  }

  ghost predicate Rewritten(s: Setting, fn: Function, m: map<nat, Operand>, visited: seq<nat>)
    requires hide *; Sound(s)
  {
    && |fn.blocks| == |s.f.blocks|
    && forall b: nat :: b < |fn.blocks| ==>
      && (forall i :: 0 <= i < |Arrived(Cfg(s.f), visited, b)| ==> Arrived(Cfg(s.f), visited, b)[i] < |s.f.blocks|)
      && BlockRewritten(s, fn.blocks[b], b, m, Arrived(Cfg(s.f), visited, b))
  }

  /** The replacements made so far: the loads of the visited blocks, and those of `b` before `k`. */
  ghost predicate Covers(s: Setting, m: map<nat, Operand>, visited: seq<nat>, b: nat, k: nat)
    requires hide *; Sound(s)
  {
    && (forall r :: r in m <==> LoadSite(s, r).Some? && LoadDone(s, r, visited, b, k))
    && (forall r :: r in m ==> m[r] == Resolve(s, Reg(r)))
  }

  ghost predicate LoadDone(s: Setting, r: nat, visited: seq<nat>, b: nat, k: nat)
    requires LoadSite(s, r).Some?
  {
    var (b', k', _) := LoadSite(s, r).value;
    b' in visited || (b' == b && k' < k)
  }

  /** Values of slots never mention a register that is replaced. */
  lemma NeverLoaded(s: Setting, b: nat, k: nat, a: nat, r: nat)
    requires hide *; Sound(s) && b < |s.f.blocks| && k <= |Code(s, b)| && LoadSite(s, r).Some?
    ensures Current(s, b, k, a) != Reg(r)
  {
    hide ArePreds, Chain, Current, Dominates, IsTree, Placed, Site, WellFormed;
    CurrentIsLive(s, b, k, a);
  }

  lemma ResolvedNeverLoaded(s: Setting, q: nat, r: nat)
    requires hide *; Sound(s) && LoadSite(s, q).Some? && LoadSite(s, r).Some?
    ensures Resolve(s, Reg(q)) != Reg(r)
  {
    hide Current, Depth, LoadSite, Sound;
    var (b, k, a) := LoadSite(s, q).value;
    NeverLoaded(s, b, k, a, r);
  }

  lemma ReplaceRewritesBlock(s: Setting, blk: Block, b: nat, m: map<nat, Operand>, ps: seq<nat>, r: nat, v: Operand)
    requires hide BlockRewritten, LoadSite, Resolve, Sound, SubstBlock;
             Sound(s) && b < |s.f.blocks| && forall i :: 0 <= i < |ps| ==> ps[i] < |s.f.blocks|
    requires BlockRewritten(s, blk, b, m, ps)
    requires LoadSite(s, r).Some? && r !in m && v == Resolve(s, Reg(r))
    requires forall q :: q in m ==> m[q] != Reg(r)
    ensures BlockRewritten(s, SubstBlock(map[r := v], blk), b, m[r := v], ps)
  {
    hide ArePreds, Current, Placed, Resolve, Site, SubstInst, WellFormed;
    var blk' := SubstBlock(map[r := v], blk);
    forall i | 0 <= i < |blk.insts|
      ensures blk'.insts[i] == SubstInst(m[r := v], Code(s, b)[i])
    {
      SubstInstMore(m, r, v, Code(s, b)[i]);
    }
    SubstTermMore(m, r, v, s.f.blocks[b].term);
    forall i | 0 <= i < |blk.phis|
      ensures blk'.phis[i] == blk.phis[i]
    {
      var a := s.slots[b][i];
      assert PhiFilled(s, blk.phis[i], b, a, ps);
      forall j | 0 <= j < |ps|
        ensures Outgoing(s, ps[j], a) != Reg(r)
      {
        NeverLoaded(s, ps[j], |Code(s, ps[j])|, a, r);
      }
      SubstIncomingAbsent(r, v, Inflow(s, ps, a));
    }
  }

  /** Replacing a load by the value of its slot extends the rewriting. */
  lemma ReplaceRewrites(s: Setting, fn: Function, m: map<nat, Operand>, visited: seq<nat>, b: nat, k: nat, a: nat)
    requires hide *; Sound(s) && Rewritten(s, fn, m, visited) && Covers(s, m, visited, b, k)
    requires b < |s.f.blocks| && k < |Code(s, b)| && b !in visited
    requires Code(s, b)[k].Load? && Code(s, b)[k].ptr == Slot(a) && a in s.promoted
    ensures var r, v := Code(s, b)[k].dst, Current(s, b, k, a);
            Rewritten(s, ReplaceAllUses(fn, r, v), m[r := v], visited) && Covers(s, m[r := v], visited, b, k + 1)
  {
    hide BlockRewritten, Current, Placed, SubstBlock;
    var r, v := Code(s, b)[k].dst, Current(s, b, k, a);
    assert Defines(s.f, b, k, r);
    assert LoadSite(s, r) == Some((b, k, a));
    assert r !in m;
    forall q | q in m
      ensures m[q] != Reg(r)
    {
      ResolvedNeverLoaded(s, q, r);
    }
    forall x: nat | x < |fn.blocks|
      ensures BlockRewritten(s, SubstBlock(map[r := v], fn.blocks[x]), x, m[r := v], Arrived(Cfg(s.f), visited, x))
    {
      ReplaceRewritesBlock(s, fn.blocks[x], x, m, Arrived(Cfg(s.f), visited, x), r, v);
    }
    CoversLoad(s, m, visited, b, k, a);
  }

  lemma CoversLoad(s: Setting, m: map<nat, Operand>, visited: seq<nat>, b: nat, k: nat, a: nat)
    requires hide *; Sound(s) && Covers(s, m, visited, b, k)
    requires b < |s.f.blocks| && k < |Code(s, b)| && b !in visited
    requires Code(s, b)[k].Load? && Code(s, b)[k].ptr == Slot(a) && a in s.promoted
    ensures Covers(s, m[Code(s, b)[k].dst := Current(s, b, k, a)], visited, b, k + 1)
  {
    hide Current, LoadSite, Resolve, Sound;
    var r := Code(s, b)[k].dst;
    SiteOfLoad(s, b, k, a);
    hide Sound, Current, Resolve;
    forall q | LoadSite(s, q).Some?
      ensures LoadDone(s, q, visited, b, k + 1) <==> LoadDone(s, q, visited, b, k) || q == r
    {
    }
  }

  lemma SiteOfLoad(s: Setting, b: nat, k: nat, a: nat)
    requires hide *; Sound(s) && b < |s.f.blocks| && k < |Code(s, b)|
    requires Code(s, b)[k].Load? && Code(s, b)[k].ptr == Slot(a) && a in s.promoted
    ensures var r := Code(s, b)[k].dst; LoadSite(s, r) == Some((b, k, a)) && Resolve(s, Reg(r)) == Current(s, b, k, a)
  {
    hide ArePreds, Chain, Current, Depth, FreshPhis, IsTree, Placed, Site;
    assert Defines(s.f, b, k, Code(s, b)[k].dst);
  }

  /** At an instruction that does not load a promoted slot there is nothing to replace. */
  lemma CoversOther(s: Setting, m: map<nat, Operand>, visited: seq<nat>, b: nat, k: nat)
    requires hide *; Sound(s) && Covers(s, m, visited, b, k)
    requires b < |s.f.blocks| && k < |Code(s, b)| && !LoadsPromoted(s, b, k)
    ensures Covers(s, m, visited, b, k + 1)
  {
    hide LoadSite, Resolve, Sound;
    forall q | LoadSite(s, q).Some?
      ensures LoadDone(s, q, visited, b, k + 1) <==> LoadDone(s, q, visited, b, k)
    {
    }
  }

  /** A visited block is covered as a whole. */
  lemma CoversVisited(s: Setting, m: map<nat, Operand>, visited: seq<nat>, b: nat, b': nat)
    requires hide ArePreds, Covers, FreshPhis, Placed, WellFormed;
             Sound(s) && b < |s.f.blocks| && Covers(s, m, visited, b, |Code(s, b)|)
    ensures Covers(s, m, visited + [b], b', 0)
  {
    hide AllDefined, ArePreds, Chain, FreshPhis, LoadSite, Placed, Resolve, UniqueDefs;
    forall q | LoadSite(s, q).Some?
      ensures LoadDone(s, q, visited + [b], b', 0) <==> LoadDone(s, q, visited, b, |Code(s, b)|)
    {
    }
  }

  ghost predicate AncestorsVisited(s: Setting, visited: seq<nat>, b: nat)
    requires IsTree(s.idom, s.po) && b in s.idom
  {
    forall x :: x in Chain(s.idom, s.po, b) && x != b ==> x in visited
  }

  /** The operand of a store, as rewritten so far, is the value the slot gets. */
  lemma StoredIsResolved(s: Setting, m: map<nat, Operand>, visited: seq<nat>, b: nat, k: nat)
    requires hide Covers, FreshPhis, Placed, Resolve, WellFormed;
             Sound(s) && Covers(s, m, visited, b, k) && b < |s.f.blocks| && k < |Code(s, b)|
    requires Code(s, b)[k].Store? && Code(s, b)[k].ptr.Slot?
    requires AncestorsVisited(s, visited, b)
    ensures Apply(m, Code(s, b)[k].value) == Resolve(s, Code(s, b)[k].value)
    ensures Current(s, b, k + 1, Code(s, b)[k].ptr.slot) == Resolve(s, Code(s, b)[k].value)
  {
    hide ArePreds, Chain, Defines, Depth, FreshPhis, LoadSite, Placed;
    var v := Code(s, b)[k].value;
    ScopeOfUse(s, b, k, v);
    if v.Reg? && LoadSite(s, v.id).Some? {
      assert LoadDone(s, v.id, visited, b, k);
    }
  }

  // ----- filling the phis of the successors -----

  /** The edges into `x` that are filled in when `bb` has filled its first `j` successors. */
  function PartlyArrived(g: Graph, visited: seq<nat>, bb: nat, ss: seq<nat>, j: nat, x: nat): seq<nat>
    requires j <= |ss|
  {
    Arrived(g, visited, x) + (if x in ss[..j] then [bb] else [])
  }

  ghost predicate Filling(s: Setting, fn: Function, m: map<nat, Operand>, visited: seq<nat>, bb: nat, ss: seq<nat>,
                          j: nat)
    requires hide *; Sound(s) && bb < |s.f.blocks| && j <= |ss|
  {
    && |fn.blocks| == |s.f.blocks|
    && forall x: nat :: x < |fn.blocks| ==> FillingAt(s, fn.blocks[x], m, visited, bb, ss, j, x)
  }

  ghost predicate FillingAt(s: Setting, blk: Block, m: map<nat, Operand>, visited: seq<nat>, bb: nat, ss: seq<nat>,
                            j: nat, x: nat)
    requires hide *; Sound(s) && bb < |s.f.blocks| && j <= |ss| && x < |s.f.blocks|
  {
    var ps := PartlyArrived(Cfg(s.f), visited, bb, ss, j, x);
    (forall i :: 0 <= i < |ps| ==> ps[i] < |s.f.blocks|) && BlockRewritten(s, blk, x, m, ps)
  }

  lemma FillingStarts(s: Setting, fn: Function, m: map<nat, Operand>, visited: seq<nat>, bb: nat, ss: seq<nat>)
    requires hide BlockRewritten, Filling, FreshPhis, Placed, WellFormed;
             Sound(s) && bb < |s.f.blocks| && Rewritten(s, fn, m, visited)
    ensures Filling(s, fn, m, visited, bb, ss, 0)
  {
    hide BlockRewritten, FreshPhis, Placed, WellFormed;
    forall x: nat | x < |fn.blocks|
      ensures FillingAt(s, fn.blocks[x], m, visited, bb, ss, 0, x)
    {
      assert PartlyArrived(Cfg(s.f), visited, bb, ss, 0, x) == Arrived(Cfg(s.f), visited, x);
    }
  }

  lemma FillingEnds(s: Setting, fn: Function, m: map<nat, Operand>, visited: seq<nat>, bb: nat, ss: seq<nat>)
    requires hide *; Sound(s) && bb < |s.f.blocks| && ss == Cfg(s.f)[bb] && Filling(s, fn, m, visited, bb, ss, |ss|)
    ensures Rewritten(s, fn, m, visited + [bb])
  {
    hide BlockRewritten, Sound;
    forall x: nat | x < |fn.blocks|
      ensures (forall i :: 0 <= i < |Arrived(Cfg(s.f), visited + [bb], x)| ==>
                 Arrived(Cfg(s.f), visited + [bb], x)[i] < |s.f.blocks|)
      ensures BlockRewritten(s, fn.blocks[x], x, m, Arrived(Cfg(s.f), visited + [bb], x))
    {
      ArrivedSnoc(Cfg(s.f), visited, x, bb);
      assert ss[..|ss|] == ss;
      assert FillingAt(s, fn.blocks[x], m, visited, bb, ss, |ss|, x);
      assert PartlyArrived(Cfg(s.f), visited, bb, ss, |ss|, x) == Arrived(Cfg(s.f), visited + [bb], x);
    }
  }

  /** A phi with one more incoming pair. */
  function AddIncoming(phi: Phi, v: Operand, b: nat): Phi {
    Phi(phi.dst, phi.incoming + [(v, b)])
  }

  lemma FillBlock(s: Setting, blk: Block, phis: seq<Phi>, x: nat, m: map<nat, Operand>, ps: seq<nat>, bb: nat)
    requires hide Outgoing, Placed, Site, SubstInsts, WellFormed;
             Sound(s) && x < |s.f.blocks| && bb < |s.f.blocks| && forall i :: 0 <= i < |ps| ==> ps[i] < |s.f.blocks|
    requires BlockRewritten(s, blk, x, m, ps) && |phis| == |blk.phis|
    requires forall i :: 0 <= i < |phis| ==> phis[i] == AddIncoming(blk.phis[i], Outgoing(s, bb, s.slots[x][i]), bb)
    ensures forall i :: 0 <= i < |ps + [bb]| ==> (ps + [bb])[i] < |s.f.blocks|
    ensures BlockRewritten(s, blk.(phis := phis), x, m, ps + [bb])
  {
    hide ArePreds, Outgoing, Placed, SubstInsts;
    forall i | 0 <= i < |phis|
      ensures s.slots[x][i] in s.slots[x] && PhiFilled(s, phis[i], x, s.slots[x][i], ps + [bb])
    {
      var a := s.slots[x][i];
      assert PhiFilled(s, blk.phis[i], x, a, ps);
      assert Inflow(s, ps + [bb], a) == Inflow(s, ps, a) + [(Outgoing(s, bb, a), bb)];
    }
  }

  lemma FillSuccessor(s: Setting, fn: Function, phis: seq<Phi>, m: map<nat, Operand>, visited: seq<nat>,
                      bb: nat, ss: seq<nat>, j: nat)
    requires hide FillingAt, Outgoing, Placed, Site, WellFormed;
             Sound(s) && bb < |s.f.blocks| && j < |ss| && Distinct(ss) && Filling(s, fn, m, visited, bb, ss, j)
    requires ss[j] < |fn.blocks| && |phis| == |fn.blocks[ss[j]].phis| <= |s.slots[ss[j]]|
    requires forall i :: 0 <= i < |phis| ==>
               phis[i] == AddIncoming(fn.blocks[ss[j]].phis[i], Outgoing(s, bb, s.slots[ss[j]][i]), bb)
    ensures var x := ss[j];
            Filling(s, Function(fn.blocks[x := fn.blocks[x].(phis := phis)]), m, visited, bb, ss, j + 1)
  {
    hide BlockRewritten, Outgoing, Sound;
    var x := ss[j];
    var fn' := Function(fn.blocks[x := fn.blocks[x].(phis := phis)]);
    forall y: nat | y < |fn'.blocks|
      ensures FillingAt(s, fn'.blocks[y], m, visited, bb, ss, j + 1, y)
    {
      assert FillingAt(s, fn.blocks[y], m, visited, bb, ss, j, y);
      assert ss[..j + 1] == ss[..j] + [x];
      if y == x {
        assert x !in ss[..j];
        FillBlock(s, fn.blocks[x], phis, x, m, PartlyArrived(Cfg(s.f), visited, bb, ss, j, x), bb);
        assert PartlyArrived(Cfg(s.f), visited, bb, ss, j + 1, x) == PartlyArrived(Cfg(s.f), visited, bb, ss, j, x)
               + [bb];
      } else {
        assert PartlyArrived(Cfg(s.f), visited, bb, ss, j + 1, y) == PartlyArrived(Cfg(s.f), visited, bb, ss, j, y);
      }
    }
  }
}
