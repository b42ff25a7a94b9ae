/** What the generator builds has every block reachable and every register set before it is used: for every block
    it is known from the start which blocks every path to it passes. */
module Placement {
  import G = Graphs
  import opened Ir
  import opened Ssa
  import opened Runs
  import opened Drafts
  import opened Wiring

  /** For every block, blocks on every path to it, itself among them. */
  type Above = seq<set<nat>>

  // ----- registers in blocks under construction -----

  ghost predicate SetsAt(blocks: seq<Draft>, d: nat, j: nat, r: nat) {
    d < |blocks| && j < |blocks[d].insts| && Dst(blocks[d].insts[j]) == Some(r)
  }

  ghost predicate SlotAt(blocks: seq<Draft>, d: nat, j: nat, a: nat) {
    d < |blocks| && j < |blocks[d].insts| && blocks[d].insts[j] == Alloca(a)
  }

  /** Registers and slots are set once, and have numbers below `next`. */
  ghost predicate Numbered(blocks: seq<Draft>, next: nat) {
    && (forall d: nat, j: nat, r: nat :: SetsAt(blocks, d, j, r) ==> r < next)
    && (forall d: nat, j: nat, d': nat, j': nat, r: nat ::
          SetsAt(blocks, d, j, r) && SetsAt(blocks, d', j', r) ==> d == d' && j == j')
    && (forall d: nat, j: nat, a: nat :: SlotAt(blocks, d, j, a) ==> a < next)
    && (forall d: nat, j: nat, d': nat, j': nat, a: nat ::
          SlotAt(blocks, d, j, a) && SlotAt(blocks, d', j', a) ==> d == d' && j == j')
  }

  /** The register is set before instruction `k` of block `b`, on every path. */
  ghost predicate SetBefore(blocks: seq<Draft>, above: Above, b: nat, k: nat, r: nat) {
    b < |above| && exists d: nat, j: nat :: SetsAt(blocks, d, j, r) && d in above[b] && (d == b ==> j < k)
  }

  ghost predicate AllSetBefore(blocks: seq<Draft>, above: Above, b: nat, k: nat, vs: seq<Operand>) {
    forall v :: v in vs && v.Reg? ==> SetBefore(blocks, above, b, k, v.id)
  }

  /** Every path to `c` that comes from `b` passes what is above `c`. */
  predicate Below(above: Above, b: nat, c: nat) {
    0 < c < |above| && b < |above| && above[c] <= above[b] + {c}
  }

  ghost predicate TermPlaced(blocks: seq<Draft>, above: Above, b: nat, t: Terminator)
    requires b < |blocks|
  {
    && AllSetBefore(blocks, above, b, |blocks[b].insts|, TermUses(t)) && G.Distinct(Targets(t))
    && forall c :: c in Targets(t) ==> Below(above, b, c)
  }

  ghost predicate Placed(blocks: seq<Draft>, next: nat, above: Above) {
    && |above| == |blocks| > 0 && above[0] == {0} && (forall b: nat :: b < |above| ==> b in above[b])
    && Numbered(blocks, next)
    && (forall b: nat, k: nat :: b < |blocks| && k < |blocks[b].insts| ==>
          AllSetBefore(blocks, above, b, k, Uses(blocks[b].insts[k])))
    && (forall b: nat :: b < |blocks| && blocks[b].term.Some? ==> TermPlaced(blocks, above, b, blocks[b].term.value))
  }

  // ----- the steps of the generator -----

  /** Nothing that was set moves. */
  ghost predicate SameSets(blocks: seq<Draft>, blocks': seq<Draft>) {
    forall d: nat, j: nat, r: nat :: SetsAt(blocks, d, j, r) ==> SetsAt(blocks', d, j, r)
  }

  lemma SetBeforeKept(blocks: seq<Draft>, blocks': seq<Draft>, above: Above, b: nat, k: nat, r: nat)
    requires SameSets(blocks, blocks') && SetBefore(blocks, above, b, k, r)
    ensures SetBefore(blocks', above, b, k, r)
  {
  }

  lemma AllSetBeforeKept(blocks: seq<Draft>, blocks': seq<Draft>, above: Above, b: nat, k: nat, vs: seq<Operand>)
    requires SameSets(blocks, blocks') && AllSetBefore(blocks, above, b, k, vs)
    ensures AllSetBefore(blocks', above, b, k, vs)
  {
    hide SameSets, SetBefore;
    forall v | v in vs && v.Reg?
      ensures SetBefore(blocks', above, b, k, v.id)
    {
      SetBeforeKept(blocks, blocks', above, b, k, v.id);
    }
  }

  /** An instruction at the end of block `h`. */
  lemma AppendNumbered(blocks: seq<Draft>, next: nat, h: nat, i: Inst, next': nat)
    requires Numbered(blocks, next) && h < |blocks| && !i.Alloca?
    requires next' == (if Dst(i).Some? then next + 1 else next) && (Dst(i).Some? ==> Dst(i).value == next)
    ensures var blocks' := blocks[h := blocks[h].(insts := blocks[h].insts + [i])];
            Numbered(blocks', next') && SameSets(blocks, blocks')
  {
    var blocks' := blocks[h := blocks[h].(insts := blocks[h].insts + [i])];
    forall d: nat, j: nat, r: nat | SetsAt(blocks', d, j, r)
      ensures SetsAt(blocks, d, j, r) || (d == h && j == |blocks[h].insts| && r == next)
    {
    }
    forall d: nat, j: nat, a: nat | SlotAt(blocks', d, j, a)
      ensures SlotAt(blocks, d, j, a)
    {
    }
  }

  lemma AppendPlaced(blocks: seq<Draft>, next: nat, above: Above, h: nat, i: Inst, next': nat)
    requires hide *; Placed(blocks, next, above) && h < |blocks| && blocks[h].term.None? && !i.Alloca?
    requires AllSetBefore(blocks, above, h, |blocks[h].insts|, Uses(i))
    requires next' == (if Dst(i).Some? then next + 1 else next) && (Dst(i).Some? ==> Dst(i).value == next)
    ensures Placed(blocks[h := blocks[h].(insts := blocks[h].insts + [i])], next', above)
  {
    hide AllSetBefore, Dst, Numbered, SameSets, Targets, TermUses, Uses;
    var blocks' := blocks[h := blocks[h].(insts := blocks[h].insts + [i])];
    AppendNumbered(blocks, next, h, i, next');
    hide Numbered, SameSets, AllSetBefore, Below;
    forall b: nat, k: nat | b < |blocks'| && k < |blocks'[b].insts|
      ensures AllSetBefore(blocks', above, b, k, Uses(blocks'[b].insts[k]))
    {
      AllSetBeforeKept(blocks, blocks', above, b, k, Uses(blocks'[b].insts[k]));
    }
    forall b: nat | b < |blocks'| && blocks'[b].term.Some?
      ensures TermPlaced(blocks', above, b, blocks'[b].term.value)
    {
      AllSetBeforeKept(blocks, blocks', above, b, |blocks[b].insts|, TermUses(blocks[b].term.value));
    }
  }

  lemma ClosePlaced(blocks: seq<Draft>, next: nat, above: Above, h: nat, t: Terminator)
    requires hide *; Placed(blocks, next, above) && h < |blocks| && TermPlaced(blocks, above, h, t)
    ensures Placed(blocks[h := blocks[h].(term := Some(t))], next, above)
  {
    hide AllSetBefore, Numbered, SameSets, SetsAt, Targets, TermUses, Uses;
    var blocks' := blocks[h := blocks[h].(term := Some(t))];
    SameInsts(blocks, blocks', next);
    hide Numbered, SameSets, AllSetBefore, Below;
    forall b: nat, k: nat | b < |blocks'| && k < |blocks'[b].insts|
      ensures AllSetBefore(blocks', above, b, k, Uses(blocks'[b].insts[k]))
    {
      AllSetBeforeKept(blocks, blocks', above, b, k, Uses(blocks'[b].insts[k]));
    }
    forall b: nat | b < |blocks'| && blocks'[b].term.Some?
      ensures TermPlaced(blocks', above, b, blocks'[b].term.value)
    {
      AllSetBeforeKept(blocks, blocks', above, b, |blocks[b].insts|, TermUses(blocks'[b].term.value));
    }
  }

  lemma SameInsts(blocks: seq<Draft>, blocks': seq<Draft>, next: nat)
    requires Numbered(blocks, next) && |blocks'| >= |blocks|
    requires forall b: nat :: b < |blocks| ==> blocks'[b].insts == blocks[b].insts
    requires forall b: nat :: |blocks| <= b < |blocks'| ==> blocks'[b].insts == []
    ensures Numbered(blocks', next) && SameSets(blocks, blocks')
  {
    forall d: nat, j: nat, r: nat | SetsAt(blocks', d, j, r)
      ensures SetsAt(blocks, d, j, r)
    {
    }
    forall d: nat, j: nat, a: nat | SlotAt(blocks', d, j, a)
      ensures SlotAt(blocks, d, j, a)
    {
    }
  }

  lemma MoreAbove(blocks: seq<Draft>, above: Above, above': Above, b: nat, k: nat, vs: seq<Operand>)
    requires AllSetBefore(blocks, above, b, k, vs) && b < |above| <= |above'| && above'[b] == above[b]
    ensures AllSetBefore(blocks, above', b, k, vs)
  {
    forall v | v in vs && v.Reg?
      ensures SetBefore(blocks, above', b, k, v.id)
    {
      assert SetBefore(blocks, above, b, k, v.id);
    }
  }

  /** A new block below everything in `base`. */
  lemma BlockPlaced(blocks: seq<Draft>, next: nat, above: Above, base: set<nat>)
    requires hide *; Placed(blocks, next, above)
    ensures Placed(blocks + [Draft([], None)], next, above + [base + {|blocks|}])
  {
    var blocks', above' := blocks + [Draft([], None)], above + [base + {|blocks|}];
    SameInsts(blocks, blocks', next);
    hide Numbered, SameSets, AllSetBefore;
    forall b: nat, k: nat | b < |blocks'| && k < |blocks'[b].insts|
      ensures AllSetBefore(blocks', above', b, k, Uses(blocks'[b].insts[k]))
    {
      AllSetBeforeKept(blocks, blocks', above, b, k, Uses(blocks[b].insts[k]));
      MoreAbove(blocks', above, above', b, k, Uses(blocks[b].insts[k]));
    }
    forall b: nat | b < |blocks'| && blocks'[b].term.Some?
      ensures TermPlaced(blocks', above', b, blocks'[b].term.value)
    {
      AllSetBeforeKept(blocks, blocks', above, b, |blocks[b].insts|, TermUses(blocks[b].term.value));
      MoreAbove(blocks', above, above', b, |blocks[b].insts|, TermUses(blocks[b].term.value));
    }
  }

  // ----- a slot more in the entry -----

  /** Where an instruction of the entry is when a slot was put before place `n`. */
  function Shifted(n: nat, b: nat, k: nat): nat {
    if b == 0 && k >= n then k + 1 else k
  }

  lemma SlotNumbered(blocks: seq<Draft>, next: nat, n: nat)
    requires Numbered(blocks, next) && |blocks| > 0 && n <= |blocks[0].insts|
    ensures var insts := blocks[0].insts;
            Numbered(blocks[0 := blocks[0].(insts := insts[..n] + [Alloca(next)] + insts[n..])], next + 1)
  {
    var insts := blocks[0].insts;
    var blocks' := blocks[0 := blocks[0].(insts := insts[..n] + [Alloca(next)] + insts[n..])];
    forall d: nat, j: nat, r: nat | SetsAt(blocks', d, j, r)
      ensures var j' := if d == 0 && j > n then j - 1 else j;
              SetsAt(blocks, d, j', r) && !(d == 0 && j == n)
    {
    }
    forall d: nat, j: nat, a: nat | SlotAt(blocks', d, j, a)
      ensures var j' := if d == 0 && j > n then j - 1 else j;
              (d == 0 && j == n && a == next) || (SlotAt(blocks, d, j', a) && !(d == 0 && j == n))
    {
    }
  }

  lemma SetsShifted(blocks: seq<Draft>, n: nat, slot: nat, d: nat, j: nat, r: nat)
    requires |blocks| > 0 && n <= |blocks[0].insts| && SetsAt(blocks, d, j, r)
    ensures var insts := blocks[0].insts;
            SetsAt(blocks[0 := blocks[0].(insts := insts[..n] + [Alloca(slot)] + insts[n..])], d, Shifted(n, d, j), r)
  {
  }

  lemma BeforeShifted(blocks: seq<Draft>, above: Above, n: nat, slot: nat, b: nat, k: nat, vs: seq<Operand>)
    requires |blocks| > 0 && n <= |blocks[0].insts| && AllSetBefore(blocks, above, b, k, vs)
    ensures var insts := blocks[0].insts;
            AllSetBefore(blocks[0 := blocks[0].(insts := insts[..n] + [Alloca(slot)] + insts[n..])], above, b,
                         Shifted(n, b, k), vs)
  {
    var insts := blocks[0].insts;
    var blocks' := blocks[0 := blocks[0].(insts := insts[..n] + [Alloca(slot)] + insts[n..])];
    hide SetsAt;
    forall v | v in vs && v.Reg?
      ensures SetBefore(blocks', above, b, Shifted(n, b, k), v.id)
    {
      assert SetBefore(blocks, above, b, k, v.id);
      var d: nat, j: nat :| SetsAt(blocks, d, j, v.id) && d in above[b] && (d == b ==> j < k);
      SetsShifted(blocks, n, slot, d, j, v.id);
    }
  }

  lemma SlotPlaced(blocks: seq<Draft>, next: nat, above: Above, n: nat)
    requires hide AllSetBefore, Numbered, TermPlaced, Uses; Placed(blocks, next, above) && n <= |blocks[0].insts|
    ensures var insts := blocks[0].insts;
            Placed(blocks[0 := blocks[0].(insts := insts[..n] + [Alloca(next)] + insts[n..])], next + 1, above)
  {
    var insts := blocks[0].insts;
    var blocks' := blocks[0 := blocks[0].(insts := insts[..n] + [Alloca(next)] + insts[n..])];
    SlotNumbered(blocks, next, n);
    hide Numbered, AllSetBefore, Below;
    forall b: nat, k: nat | b < |blocks'| && k < |blocks'[b].insts|
      ensures AllSetBefore(blocks', above, b, k, Uses(blocks'[b].insts[k]))
    {
      if b == 0 && k == n {
        NoUses(blocks', above, b, k);
      } else {
        var k0 := if b == 0 && k > n then k - 1 else k;
        BeforeShifted(blocks, above, n, next, b, k0, Uses(blocks[b].insts[k0]));
      }
    }
    forall b: nat | b < |blocks'| && blocks'[b].term.Some?
      ensures TermPlaced(blocks', above, b, blocks'[b].term.value)
    {
      BeforeShifted(blocks, above, n, next, b, |blocks[b].insts|, TermUses(blocks[b].term.value));
    }
  }

  lemma NoUses(blocks: seq<Draft>, above: Above, b: nat, k: nat)
    ensures AllSetBefore(blocks, above, b, k, [])
  {
  }

  // ----- reachable blocks -----

  function DraftGraph(blocks: seq<Draft>): (g: G.Graph)
    ensures |g| == |blocks|
  {
    seq(|blocks|, b requires 0 <= b < |blocks| => if blocks[b].term.Some? then Targets(blocks[b].term.value) else [])
  }

  ghost predicate Reached(blocks: seq<Draft>, b: nat) {
    G.Reachable(DraftGraph(blocks), b)
  }

  ghost predicate MoreEdges(blocks: seq<Draft>, blocks': seq<Draft>) {
    forall a: nat, b: nat :: G.Edge(DraftGraph(blocks), a, b) ==> G.Edge(DraftGraph(blocks'), a, b)
  }

  lemma {:induction false} PathStays(blocks: seq<Draft>, blocks': seq<Draft>, p: seq<nat>, b: nat)
    requires MoreEdges(blocks, blocks') && G.PathTo(DraftGraph(blocks), p, b)
    ensures G.PathTo(DraftGraph(blocks'), p, b)
    decreases |p|
  {
    if |p| > 1 {
      PathStays(blocks, blocks', p[..|p| - 1], p[|p| - 2]);
    }
  }

  lemma ReachedStays(blocks: seq<Draft>, blocks': seq<Draft>, b: nat)
    requires MoreEdges(blocks, blocks') && Reached(blocks, b)
    ensures Reached(blocks', b)
  {
    var p :| G.PathTo(DraftGraph(blocks), p, b);
    PathStays(blocks, blocks', p, b);
  }

  lemma ReachedNext(blocks: seq<Draft>, a: nat, b: nat)
    requires Reached(blocks, a) && a < |blocks| && blocks[a].term.Some? && b in Targets(blocks[a].term.value)
    ensures Reached(blocks, b)
  {
    var p :| G.PathTo(DraftGraph(blocks), p, a);
    assert G.Edge(DraftGraph(blocks), a, b);
    G.PathExtend(DraftGraph(blocks), p, a, b);
  }

  lemma GrowsEdges(g: Gen, g': Gen)
    requires Grows(g, g')
    ensures MoreEdges(g.blocks, g'.blocks)
  {
    forall a: nat, b: nat | G.Edge(DraftGraph(g.blocks), a, b)
      ensures G.Edge(DraftGraph(g'.blocks), a, b)
    {
      assert DraftGrows(g.blocks[a], g'.blocks[a]);
    }
  }

  /** If the insertion point is reachable, then the new one and all new blocks are. */
  ghost predicate ReachesOn(g: Gen, g': Gen) {
    Reached(g.blocks, g.here) ==>
      Reached(g'.blocks, g'.here) && forall b: nat :: |g.blocks| <= b < |g'.blocks| ==> Reached(g'.blocks, b)
  }

  lemma ReachesOnTo(g: Gen, g1: Gen, g2: Gen)
    requires ReachesOn(g, g1) && ReachesOn(g1, g2) && MoreEdges(g1.blocks, g2.blocks)
    ensures ReachesOn(g, g2)
  {
    if Reached(g.blocks, g.here) {
      forall b: nat | |g.blocks| <= b < |g2.blocks|
        ensures Reached(g2.blocks, b)
      {
        if b < |g1.blocks| {
          ReachedStays(g1.blocks, g2.blocks, b);
        }
      }
    }
  }

  // ----- a stretch of generation -----

  /** Nothing is lost, and the insertion point is below where it was. */
  ghost predicate Fit(g: Gen, above: Above, g': Gen, above': Above) {
    && Placed(g'.blocks, g'.next, above') && |above| <= |above'| && above'[..|above|] == above
    && g.here < |above| && g'.here < |above'| && above[g.here] <= above'[g'.here]
  }

  /** The operands can be used at the insertion point. */
  ghost predicate Usable(g: Gen, above: Above, vs: seq<Operand>) {
    g.here < |g.blocks| && AllSetBefore(g.blocks, above, g.here, |g.blocks[g.here].insts|, vs)
  }

  ghost predicate ArgsFit(g: Gen, g': Gen, vs: seq<Operand>) {
    && Grows(g, g') && ReachesOn(g, g') && g.here < |g.blocks| && g'.here < |g'.blocks|
    && StaysWired(g, g') && NoParams(vs)
    && forall above :: Placed(g.blocks, g.next, above) ==>
         exists above' :: Fit(g, above, g', above') && Usable(g', above', vs)
  }

  ghost predicate ExprFits(g: Gen, g': Gen, v: Operand) {
    ArgsFit(g, g', [v])
  }

  /** The loops around the insertion point can be jumped to. */
  ghost predicate LoopsBelow(g: Gen, above: Above) {
    forall i :: 0 <= i < |g.loops| ==> Below(above, g.here, g.loops[i].0) && Below(above, g.here, g.loops[i].1)
  }

  ghost predicate StmtFits(g: Gen, g': Gen) {
    && Grows(g, g') && ReachesOn(g, g') && g.here < |g.blocks| && g'.here < |g'.blocks| && StaysWired(g, g')
    && forall above :: Placed(g.blocks, g.next, above) && LoopsBelow(g, above) ==>
         exists above' :: Fit(g, above, g', above')
  }

  lemma {:induction false} PlainHas(insts: seq<Inst>, i: Inst)
    ensures i in Plain(insts) <==> i in insts && !i.Alloca?
  {
    if insts != [] {
      PlainHas(insts[..|insts| - 1], i);
      assert insts == insts[..|insts| - 1] + [insts[|insts| - 1]];
    }
  }

  lemma GrowsSets(g: Gen, g': Gen, d: nat, j: nat, r: nat) returns (j': nat)
    requires Grows(g, g') && SetsAt(g.blocks, d, j, r)
    ensures SetsAt(g'.blocks, d, j', r)
  {
    var i := g.blocks[d].insts[j];
    assert DraftGrows(g.blocks[d], g'.blocks[d]);
    PlainHas(g.blocks[d].insts, i);
    PlainHas(g'.blocks[d].insts, i);
    assert i in Plain(g.blocks[d].insts);
    var n :| 0 <= n < |Plain(g.blocks[d].insts)| && Plain(g.blocks[d].insts)[n] == i;
    assert Plain(g'.blocks[d].insts)[n] == i;
    j' :| 0 <= j' < |g'.blocks[d].insts| && g'.blocks[d].insts[j'] == i;
  }

  lemma StaysUsable(g: Gen, above: Above, g': Gen, above': Above, vs: seq<Operand>)
    requires Grows(g, g') && Fit(g, above, g', above') && Usable(g, above, vs)
    ensures Usable(g', above', vs)
  {
    hide Grows, Placed, SetsAt;
    FitHere(g, above, g', above');
    forall v | v in vs && v.Reg?
      ensures SetBefore(g'.blocks, above', g'.here, |g'.blocks[g'.here].insts|, v.id)
    {
      assert SetBefore(g.blocks, above, g.here, |g.blocks[g.here].insts|, v.id);
      var d: nat, j: nat :| SetsAt(g.blocks, d, j, v.id) && d in above[g.here];
      var j' := GrowsSets(g, g', d, j, v.id);
      SetsInside(g'.blocks, d, j', v.id);
    }
  }

  lemma SetsInside(blocks: seq<Draft>, d: nat, j: nat, r: nat)
    requires SetsAt(blocks, d, j, r)
    ensures d < |blocks| && j < |blocks[d].insts|
  {
  }

  lemma FitHere(g: Gen, above: Above, g': Gen, above': Above)
    requires Fit(g, above, g', above')
    ensures g'.here < |g'.blocks| == |above'|
  {
    hide AllSetBefore, Numbered, TermPlaced, Uses;
  }

  lemma FitTrans(g: Gen, above: Above, g1: Gen, above1: Above, g2: Gen, above2: Above)
    requires Fit(g, above, g1, above1) && Fit(g1, above1, g2, above2)
    ensures Fit(g, above, g2, above2)
  {
    hide Placed;
    assert above2[..|above|] == above2[..|above1|][..|above|];
  }

  lemma Extend(g: Gen, above: Above, g': Gen, vs: seq<Operand>) returns (above': Above)
    requires ArgsFit(g, g', vs) && Placed(g.blocks, g.next, above)
    ensures Fit(g, above, g', above') && Usable(g', above', vs) && Placed(g'.blocks, g'.next, above')
  {
    hide AllSetBefore, Grows, Numbered, ReachesOn, StaysWired, TermPlaced;
    above' :| Fit(g, above, g', above') && Usable(g', above', vs);
  }
}
