/** Natural loops: their blocks, their preheaders, and what dominates them. */
module Loops {
  import opened Graphs
  import opened Ir
  import Dominators

  /** A back edge leads from the latch to the header. */
  ghost predicate IsLatch(g: Graph, h: nat, t: nat) {
    Edge(g, t, h) && Dominates(g, h, t)
  }

  /** A path to a latch that avoids the header. */
  ghost predicate Walk(g: Graph, h: nat, q: seq<nat>) {
    && q != [] && q[0] != h
    && if |q| == 1 then IsLatch(g, h, q[0]) else Edge(g, q[0], q[1]) && Walk(g, h, q[1..])
  }

  /** The natural loop of a header: the header, and every block that reaches a latch without passing the header. */
  ghost predicate InLoop(g: Graph, h: nat, c: nat) {
    c == h || exists q: seq<nat> :: Walk(g, h, q) && q[0] == c
  }

  lemma {:induction false} HeaderDominatesWalk(g: Graph, h: nat, q: seq<nat>)
    requires Walk(g, h, q)
    ensures Dominates(g, h, q[0])
    decreases |q|
  {
    if |q| > 1 {
      HeaderDominatesWalk(g, h, q[1..]);
      DominatesPred(g, h, q[0], q[1]);
    }
  }

  /** The header dominates every block of its loop. */
  lemma HeaderDominates(g: Graph, h: nat, c: nat)
    requires InLoop(g, h, c)
    ensures Dominates(g, h, c)
  {
    if c != h {
      var q: seq<nat> :| Walk(g, h, q) && q[0] == c;
      HeaderDominatesWalk(g, h, q);
    }
  }

  /** Every predecessor of a block of the loop other than the header is in the loop. */
  lemma LoopIsClosed(g: Graph, h: nat, c: nat, d: nat)
    requires InLoop(g, h, c) && c != h && Edge(g, d, c)
    ensures InLoop(g, h, d)
  {
    if d != h {
      var q: seq<nat> :| Walk(g, h, q) && q[0] == c;
      assert ([d] + q)[1..] == q;
      assert Walk(g, h, [d] + q);
    }
  }

  lemma LatchIsIn(g: Graph, h: nat, t: nat)
    requires IsLatch(g, h, t)
    ensures InLoop(g, h, t)
  {
    if t != h {
      assert Walk(g, h, [t]);
    }
  }

  // ----- the search backwards from the latches -----

  ghost predicate PredsIn(g: Graph, c: nat, loop: set<nat>) {
    forall d: nat :: Edge(g, d, c) ==> d in loop
  }

  /** Every block but the header, and those still to be visited, has its predecessors in the set. */
  ghost predicate ClosedBut(g: Graph, h: nat, loop: set<nat>, work: seq<nat>) {
    forall c :: c in loop && c != h && c !in work ==> PredsIn(g, c, loop)
  }

  ghost predicate AllInLoop(g: Graph, h: nat, loop: set<nat>) {
    forall c :: c in loop ==> InLoop(g, h, c)
  }

  /** A set that contains the latches and is closed contains the loop. */
  lemma {:induction false} ClosedContainsWalk(g: Graph, h: nat, loop: set<nat>, q: seq<nat>)
    requires Walk(g, h, q) && ClosedBut(g, h, loop, []) && forall t: nat :: IsLatch(g, h, t) ==> t in loop
    ensures q[0] in loop
    decreases |q|
  {
    if |q| > 1 {
      ClosedContainsWalk(g, h, loop, q[1..]);
      assert PredsIn(g, q[1], loop);
    }
  }

  /** What the search keeps: the blocks found so far, and those whose predecessors are still to be looked at. */
  ghost predicate Growing(g: Graph, h: nat, latch: nat, start: set<nat>, loop: set<nat>, work: seq<nat>) {
    && start <= loop <= Blocks(g) && ClosedBut(g, h, loop, work)
    && (forall b :: b in work ==> b in loop && (b == h ==> latch == h))
    && (latch != h && AllInLoop(g, h, start) ==> AllInLoop(g, h, loop))
  }

  /** The first `n` predecessors of `block` have been added. */
  ghost predicate Visiting(g: Graph, h: nat, latch: nat, start: set<nat>, loop: set<nat>, work: seq<nat>, block: nat,
                           preds: seq<nat>, n: nat)
  {
    && Growing(g, h, latch, start, loop, work + [block]) && block in loop && (block == h ==> latch == h)
    && n <= |preds| && forall i :: 0 <= i < n ==> preds[i] in loop
  }

  lemma VisitNext(g: Graph, h: nat, latch: nat, start: set<nat>, loop: set<nat>, work: seq<nat>, block: nat,
                  preds: seq<nat>, n: nat)
    requires Visiting(g, h, latch, start, loop, work, block, preds, n) && n < |preds| && Edge(g, preds[n], block)
             && preds[n] < |g|
    ensures var d := preds[n];
      Visiting(g, h, latch, start, if d in loop then loop else loop + {d}, if d in loop
                                                                             || d == h then work else work + [d],
               block, preds, n + 1)
  {
    hide InLoop, Edge, PredsIn, Blocks;
    var d := preds[n];
    if d !in loop {
      MorePreds(g, loop, d);
      BlocksHas(g, d);
      if latch != h && AllInLoop(g, h, start) {
        LoopIsClosed(g, h, block, d);
      }
      var more, work' := loop + {d}, if d == h then work else work + [d];
      forall c | c in more && c != h && c !in work' + [block] ensures PredsIn(g, c, more) {
        assert c == d || (c in loop && c !in work + [block]);
      }
      assert ClosedBut(g, h, more, work' + [block]);
      forall b | b in work' + [block] ensures b in more && (b == h ==> latch == h) {
        assert b == d || b in work + [block];
      }
      assert Growing(g, h, latch, start, more, work' + [block]);
    }
  }

  lemma BlocksHas(g: Graph, d: nat)
    requires d < |g|
    ensures d in Blocks(g)
  {
  }

  lemma VisitDone(g: Graph, h: nat, latch: nat, start: set<nat>, loop: set<nat>, work: seq<nat>, block: nat,
                  preds: seq<nat>)
    requires Visiting(g, h, latch, start, loop, work, block, preds, |preds|)
    requires forall d :: d in preds <==> Edge(g, d, block)
    ensures Growing(g, h, latch, start, loop, work) && PredsIn(g, block, loop)
  {
    hide InLoop, Edge, Blocks;
    assert PredsIn(g, block, loop);
    forall c | c in loop && c != h && c !in work ensures PredsIn(g, c, loop) {
      assert c != block ==> c !in work + [block];
    }
    forall b | b in work ensures b in loop && (b == h ==> latch == h) {
      assert b in work + [block];
    }
  }

  method VisitPreds(ghost g: Graph, h: nat, ghost latch: nat, ghost start: set<nat>, loop: set<nat>, work: seq<nat>,
                    ghost block: nat, preds: seq<nat>)
    returns (loop': set<nat>, work': seq<nat>)
    requires Visiting(g, h, latch, start, loop, work, block, preds, 0)
    requires Valid(g) && block < |g| && forall d :: d in preds <==> Edge(g, d, block)
    ensures Growing(g, h, latch, start, loop', work') && PredsIn(g, block, loop') && loop <= loop'
    ensures loop' == loop ==> work' == work
    ensures loop' != loop ==> |Blocks(g) - loop'| < |Blocks(g) - loop|
  {
    hide Growing, Visiting, PredsIn, Blocks, Edge;
    loop', work' := loop, work;
    var n := 0;
    while n < |preds|
      invariant 0 <= n <= |preds| && Visiting(g, h, latch, start, loop', work', block, preds, n) && loop <= loop'
      invariant loop' == loop ==> work' == work
      invariant loop' != loop ==> |Blocks(g) - loop'| < |Blocks(g) - loop|
    {
      var pred := preds[n];
      assert Edge(g, pred, block);
      VisitingBound(g, h, latch, start, loop', work', block, preds, n);
      VisitNext(g, h, latch, start, loop', work', block, preds, n);
      if pred !in loop' {
        GrowsByOne(g, loop', pred);
        loop' := loop' + {pred};
        if pred != h {
          work' := work' + [pred];
        }
      }
      n := n + 1;
    }
    VisitDone(g, h, latch, start, loop', work', block, preds);
  }

  lemma VisitingBound(g: Graph, h: nat, latch: nat, start: set<nat>, loop: set<nat>, work: seq<nat>, block: nat,
                      preds: seq<nat>, n: nat)
    requires Visiting(g, h, latch, start, loop, work, block, preds, n) && n < |preds| && Valid(g)
             && Edge(g, preds[n], block)
    ensures loop <= Blocks(g) && preds[n] < |g|
  {
  }

  /** Adds everything that reaches the latch without passing the header. From a header that is its own latch the search
      goes on to all its predecessors. */
  method Grow(dt: Dominators.DominatorTree, ghost g: Graph, h: nat, latch: nat,
              start: set<nat>) returns (loop: set<nat>)
    requires hide *;
             dt.Describes(g) && Valid(g) && IsLatch(g, h, latch) && h in start && latch in start && start <= Blocks(g)
    requires ClosedBut(g, h, start, [latch])
    ensures start <= loop <= Blocks(g) && ClosedBut(g, h, loop, [])
    ensures latch != h && AllInLoop(g, h, start) ==> AllInLoop(g, h, loop)
    ensures latch == h ==> PredsIn(g, h, loop)
  {
    hide InLoop, Dominates, Edge, Blocks, PredsIn, ClosedBut, AllInLoop;
    loop := start;
    var work := [latch];
    while work != []
      invariant Growing(g, h, latch, start, loop, work)
      invariant latch == h ==> work == [h] || PredsIn(g, h, loop)
      decreases |Blocks(g) - loop|, |work|
    {
      var last := |work| - 1;
      var block, rest := work[last], work[..last];
      assert work == rest + [block];
      assert block in work;
      BlockIn(g, block, loop);
      ghost var before := loop;
      PredsOf(dt, g, block);
      loop, work := VisitPreds(g, h, latch, start, loop, rest, block, dt.preds[block]);
      if latch == h && block != h {
        StaysIn(g, h, before, loop);
      }
    }
  }

  lemma StaysIn(g: Graph, c: nat, loop: set<nat>, more: set<nat>)
    requires PredsIn(g, c, loop) && loop <= more
    ensures PredsIn(g, c, more)
  {
  }

  lemma PredsOf(dt: Dominators.DominatorTree, g: Graph, b: nat)
    requires hide *; dt.Describes(g) && Valid(g) && b < |g|
    ensures b < |dt.preds| && forall d :: d in dt.preds[b] <==> Edge(g, d, b)
  {
    PredsAreEdges(g, dt.preds);
  }

  lemma BlockIn(g: Graph, b: nat, loop: set<nat>)
    requires b in loop && loop <= Blocks(g)
    ensures b < |g|
  {
  }

  lemma MorePreds(g: Graph, loop: set<nat>, d: nat)
    ensures forall c :: PredsIn(g, c, loop) ==> PredsIn(g, c, loop + {d})
  {
  }

  // ----- all loops of a function -----

  datatype NaturalLoop = NaturalLoop(header: nat, preheader: Option<nat>, blocks: set<nat>)

  /** The blocks found for one header. A header that is its own latch has all its predecessors among them. */
  ghost predicate Found(g: Graph, h: nat, loop: set<nat>) {
    && h in loop && loop <= Blocks(g) && ClosedBut(g, h, loop, [])
    && (!Edge(g, h, h) ==> AllInLoop(g, h, loop))
  }

  ghost predicate LatchDone(g: Graph, byHeader: map<nat, set<nat>>, t: nat, h: nat) {
    IsLatch(g, h, t) ==> h in byHeader && t in byHeader[h] && (t == h ==> PredsIn(g, h, byHeader[h]))
  }

  /** The latches before successor `n` of block `t` have been processed. */
  ghost predicate Gathered(g: Graph, byHeader: map<nat, set<nat>>, t: nat, n: nat) {
    && (forall h :: h in byHeader ==> Found(g, h, byHeader[h]) && exists t': nat :: IsLatch(g, h, t'))
    && (forall t': nat, h: nat :: t' < t ==> LatchDone(g, byHeader, t', h))
    && (t < |g| ==> n <= |g[t]| && forall i :: 0 <= i < n ==> LatchDone(g, byHeader, t, g[t][i]))
  }

  lemma LatchStays(g: Graph, byHeader: map<nat, set<nat>>, t: nat, h: nat, h0: nat, loop: set<nat>)
    requires LatchDone(g, byHeader, t, h) && (h0 in byHeader ==> byHeader[h0] <= loop)
    ensures LatchDone(g, byHeader[h0 := loop], t, h)
  {
  }

  lemma NotALatch(g: Graph, byHeader: map<nat, set<nat>>, t: nat, n: nat)
    requires Gathered(g, byHeader, t, n) && t < |g| && n < |g[t]| && !Dominates(g, g[t][n], t)
    ensures Gathered(g, byHeader, t, n + 1)
  {
  }

  lemma LatchAdded(g: Graph, byHeader: map<nat, set<nat>>, t: nat, n: nat, start: set<nat>, loop: set<nat>)
    requires Gathered(g, byHeader, t, n) && t < |g| && n < |g[t]| && IsLatch(g, g[t][n], t) && Valid(g)
    requires start == (if g[t][n] in byHeader then byHeader[g[t][n]] else {}) + {g[t][n], t}
    requires start <= loop <= Blocks(g) && ClosedBut(g, g[t][n], loop, [])
    requires t != g[t][n] && AllInLoop(g, g[t][n], start) ==> AllInLoop(g, g[t][n], loop)
    requires t == g[t][n] ==> PredsIn(g, g[t][n], loop)
    ensures Gathered(g, byHeader[g[t][n] := loop], t, n + 1)
  {
    hide InLoop, Dominates, ClosedBut, PredsIn, Blocks;
    var h := g[t][n];
    var m := byHeader[h := loop];
    LatchIsIn(g, h, t);
    assert InLoop(g, h, h) by { HeaderIsIn(g, h); }
    assert Found(g, h, loop);
    forall t': nat, h': nat | t' < t ensures LatchDone(g, m, t', h') {
      LatchStays(g, byHeader, t', h', h, loop);
    }
    forall i | 0 <= i < n + 1 ensures LatchDone(g, m, t, g[t][i]) {
      if i < n {
        LatchStays(g, byHeader, t, g[t][i], h, loop);
      }
    }
  }

  lemma HeaderIsIn(g: Graph, h: nat)
    ensures InLoop(g, h, h)
  {
  }

  lemma NextLatch(g: Graph, byHeader: map<nat, set<nat>>, t: nat)
    requires t < |g| && Gathered(g, byHeader, t, |g[t]|)
    ensures Gathered(g, byHeader, t + 1, 0)
  {
    forall h: nat ensures LatchDone(g, byHeader, t, h) {
      if IsLatch(g, h, t) {
        var i :| 0 <= i < |g[t]| && g[t][i] == h;
        assert LatchDone(g, byHeader, t, g[t][i]);
      }
    }
  }

  /** The blocks that may be joined to a header before its latch is followed. */
  lemma StartIsClosed(g: Graph, byHeader: map<nat, set<nat>>, t: nat, n: nat)
    requires Gathered(g, byHeader, t, n) && t < |g| && n < |g[t]| && Valid(g)
    ensures var h := g[t][n]; var start := (if h in byHeader then byHeader[h] else {}) + {h, t};
      start <= Blocks(g) && ClosedBut(g, h, start, [t])
  {
    hide Dominates, PredsIn, Blocks;
    var h := g[t][n];
    assert Edge(g, t, h);
    BlocksHas(g, t);
    BlocksHas(g, h);
    var before := if h in byHeader then byHeader[h] else {};
    assert h in byHeader ==> Found(g, h, byHeader[h]);
    forall c | c in before + {h, t} && c != h && c !in [t] ensures PredsIn(g, c, before + {h, t}) {
      assert c !in [];
      StaysIn(g, c, before, before + {h, t});
    }
  }

  method Gather(dt: Dominators.DominatorTree, ghost g: Graph) returns (byHeader: map<nat, set<nat>>)
    requires hide ArePreds, Chain, Dominators.AreChildren, Dominators.AreFrontiers, Gathered;
             dt.Describes(g) && Valid(g)
    ensures Gathered(g, byHeader, |g|, 0)
  {
    hide Gathered, Blocks, ClosedBut, AllInLoop, PredsIn, Dominates;
    byHeader := map[];
    NothingGathered(g);
    var t := 0;
    while t < |dt.succs|
      invariant 0 <= t <= |dt.succs| && Gathered(g, byHeader, t, 0)
    {
      var n := 0;
      while n < |dt.succs[t]|
        invariant 0 <= n <= |dt.succs[t]| && Gathered(g, byHeader, t, n)
      {
        var h: nat := dt.succs[t][n];
        var back := Dominators.IsDominatedBy(dt, g, h, t);
        if back {
          var start := (if h in byHeader then byHeader[h] else {}) + {h, t};
          StartIsClosed(g, byHeader, t, n);
          assert Edge(g, t, h);
          var loop := Grow(dt, g, h, t, start);
          LatchAdded(g, byHeader, t, n, start, loop);
          byHeader := byHeader[h := loop];
        } else {
          NotALatch(g, byHeader, t, n);
        }
        n := n + 1;
      }
      NextLatch(g, byHeader, t);
      t := t + 1;
    }
  }

  lemma NothingGathered(g: Graph)
    ensures Gathered(g, map[], 0, 0)
  {
  }

  /** Without a self-loop the blocks are exactly the natural loop; with one, all predecessors of the header are in. */
  ghost predicate Describes(g: Graph, h: nat, loop: set<nat>) {
    && (exists t: nat :: IsLatch(g, h, t))
    && (!Edge(g, h, h) ==> forall c: nat :: c in loop <==> InLoop(g, h, c))
    && (Edge(g, h, h) ==> PredsIn(g, h, loop))
  }

  lemma GatheredDescribes(g: Graph, byHeader: map<nat, set<nat>>, h: nat)
    requires hide *; Gathered(g, byHeader, |g|, 0) && Valid(g)
    ensures h in byHeader <==> exists t: nat :: IsLatch(g, h, t)
    ensures h in byHeader ==> Describes(g, h, byHeader[h])
  {
    hide Dominates, PredsIn;
    forall t: nat | IsLatch(g, h, t)
      ensures h in byHeader && t in byHeader[h] && (t == h ==> PredsIn(g, h, byHeader[h])) {
      assert t < |g|;
      assert LatchDone(g, byHeader, t, h);
    }
    if h in byHeader {
      assert Found(g, h, byHeader[h]);
      forall c: nat | InLoop(g, h, c) && c != h ensures c in byHeader[h] {
        var q: seq<nat> :| Walk(g, h, q) && q[0] == c;
        ClosedContainsWalk(g, h, byHeader[h], q);
      }
      if Edge(g, h, h) {
        SelfDominates(g, h);
        assert IsLatch(g, h, h);
      }
    }
  }

  // ----- preheaders -----

  /** The only way into the loop, and it leads nowhere else. */
  ghost predicate IsPreheader(f: Function, h: nat, loop: set<nat>, p: nat) {
    && Edge(Cfg(f), p, h) && p !in loop && p < |f.blocks| && f.blocks[p].term == Br(h)
    && forall d: nat :: Edge(Cfg(f), d, h) && d !in loop ==> d == p
  }

  method FindPreheader(f: Function, dt: Dominators.DominatorTree, h: nat, loop: set<nat>) returns (p: Option<nat>)
    requires hide *; dt.Describes(Cfg(f)) && Valid(Cfg(f)) && h < |f.blocks|
    ensures p.Some? ==> IsPreheader(f, h, loop, p.value)
    ensures p.None? ==> forall q: nat :: !IsPreheader(f, h, loop, q)
  {
    ghost var g := Cfg(f);
    PredsOf(dt, g, h);
    var preds := dt.preds[h];
    var outside: seq<nat>, n := [], 0;
    while n < |preds|
      invariant 0 <= n <= |preds|
      invariant outside == OutsideOf(preds[..n], loop)
      invariant forall d: nat :: d in outside <==> d in preds[..n] && d !in loop
    {
      assert preds[..n + 1] == preds[..n] + [preds[n]];
      assert preds[..n + 1][..n] == preds[..n];
      if preds[n] !in loop {
        outside := outside + [preds[n]];
      }
      n := n + 1;
    }
    assert preds[..n] == preds;
    p := None;
    if |outside| == 1 {
      assert outside[0] in outside;
      if f.blocks[outside[0]].term == Br(h) {
        p := Some(outside[0]);
      }
    }
    if p.None? {
      forall q: nat ensures !IsPreheader(f, h, loop, q) {
        if IsPreheader(f, h, loop, q) {
          assert g[q] == Targets(Br(h));
          OnlyOutside(g, h, |g|, loop, q);
        }
      }
    }
  }

  /** The predecessors outside the loop, in order, and as often as they occur. */
  function OutsideOf(s: seq<nat>, loop: set<nat>): seq<nat> {
    if s == [] then []
    else OutsideOf(s[..|s| - 1], loop) + if s[|s| - 1] in loop then [] else [s[|s| - 1]]
  }

  lemma {:induction false} OutsideJoin(s: seq<nat>, t: seq<nat>, loop: set<nat>)
    ensures OutsideOf(s + t, loop) == OutsideOf(s, loop) + OutsideOf(t, loop)
  {
    if t == [] {
      assert s + t == s;
    } else {
      assert (s + t)[..|s + t| - 1] == s + t[..|t| - 1];
      OutsideJoin(s, t[..|t| - 1], loop);
    }
  }

  lemma {:induction false} NoneOutside(s: seq<nat>, loop: set<nat>)
    requires forall x :: x in s ==> x in loop
    ensures OutsideOf(s, loop) == []
  {
    if s != [] {
      NoneOutside(s[..|s| - 1], loop);
    }
  }

  /** A preheader is the one predecessor outside. */
  lemma {:induction false} OnlyOutside(g: Graph, h: nat, n: nat, loop: set<nat>, q: nat)
    requires n <= |g| && q < |g| && g[q] == [h] && q !in loop
    requires forall d: nat :: Edge(g, d, h) && d !in loop ==> d == q
    ensures OutsideOf(PredList(g, h, n), loop) == if q < n then [q] else []
  {
    hide Occurrences;
    if n > 0 {
      hide OutsideOf, Occurrences;
      OnlyOutside(g, h, n - 1, loop, q);
      OutsideJoin(PredList(g, h, n - 1), Occurrences(g[n - 1], h, n - 1), loop);
      OutsideOfOne(g, h, n - 1, loop, q);
    } else {
      assert PredList(g, h, 0) == [];
    }
  }

  lemma OutsideOfOne(g: Graph, h: nat, d: nat, loop: set<nat>, q: nat)
    requires d < |g| && q < |g| && g[q] == [h] && q !in loop && (Edge(g, d, h) && d !in loop ==> d == q)
    ensures OutsideOf(Occurrences(g[d], h, d), loop) == if d == q then [q] else []
  {
    OccurrencesElements(g[d], h, d);
    if d == q {
      assert [h][..0] == [];
      assert Occurrences([h], h, q) == [q];
      assert [q][..0] == [];
    } else {
      NoneOutside(Occurrences(g[d], h, d), loop);
    }
  }

  /** The loops of a function, each with its preheader if it has one. */
  ghost predicate IsLoopOf(f: Function, l: NaturalLoop) {
    && Describes(Cfg(f), l.header, l.blocks)
    && (l.preheader.Some? ==> IsPreheader(f, l.header, l.blocks, l.preheader.value))
  }

  method FindNaturalLoops(f: Function, dt: Dominators.DominatorTree, order: seq<nat>) returns (loops: seq<NaturalLoop>)
    requires hide *; dt.Describes(Cfg(f)) && Valid(Cfg(f))
    ensures forall l :: l in loops ==> IsLoopOf(f, l)
    ensures forall l, q: nat :: l in loops && l.preheader.None? ==> !IsPreheader(f, l.header, l.blocks, q)
    ensures forall h :: h in order && (exists t: nat :: IsLatch(Cfg(f), h, t)) ==>
              exists l :: l in loops && l.header == h
  {
    hide Cfg, Describes, Dominators.Analysed, Dominators.AreChildren, Dominators.AreFrontiers, Gathered, IsLatch,
         IsPreheader;
    ghost var g := Cfg(f);
    var byHeader := Gather(dt, g);
    loops := [];
    var n := 0;
    while n < |order|
      invariant 0 <= n <= |order| && forall l :: l in loops ==> IsLoopOf(f, l)
      invariant forall l, q: nat :: l in loops && l.preheader.None? ==> !IsPreheader(f, l.header, l.blocks, q)
      invariant forall h :: h in order[..n] && (exists t: nat :: IsLatch(g, h, t)) ==>
                  exists l :: l in loops && l.header == h
    {
      var h := order[n];
      assert order[..n + 1] == order[..n] + [h];
      GatheredDescribes(g, byHeader, h);
      if h in byHeader {
        LatchTargets(g, h);
        var p := FindPreheader(f, dt, h, byHeader[h]);
        var l := NaturalLoop(h, p, byHeader[h]);
        assert l in loops + [l];
        loops := loops + [l];
      }
      n := n + 1;
    }
    assert order[..n] == order;
  }

  lemma LatchTargets(g: Graph, h: nat)
    requires Valid(g)
    ensures (exists t: nat :: IsLatch(g, h, t)) ==> h < |g|
  {
  }

  // ----- what a preheader gives -----

  /** A loop with a preheader is a natural loop. */
  lemma WithPreheader(f: Function, l: NaturalLoop)
    requires IsLoopOf(f, l) && l.preheader.Some?
    ensures forall c: nat :: c in l.blocks <==> InLoop(Cfg(f), l.header, c)
  {
    hide Dominates, InLoop;
    var g, p := Cfg(f), l.preheader.value;
    assert Edge(g, p, l.header) && p !in l.blocks;
  }

  /** The preheader dominates the header. */
  lemma {:induction false} PathThroughPreheader(f: Function, l: NaturalLoop, q: seq<nat>)
    requires hide *; IsLoopOf(f, l) && l.preheader.Some? && (forall d: nat :: !Edge(Cfg(f), d, 0))
             && PathTo(Cfg(f), q, l.header)
    ensures l.preheader.value in q
    decreases |q|
  {
    hide Dominates, InLoop, Describes;
    var g, h, p := Cfg(f), l.header, l.preheader.value;
    assert Edge(g, p, h);
    assert |q| > 1;
    var d := q[|q| - 2];
    if d != p {
      assert d in l.blocks;
      WithPreheader(f, l);
      HeaderDominates(g, h, d);
      HeaderOnPath(g, h, d, q[..|q| - 1]);
      var i :| 0 <= i < |q| - 1 && q[i] == h;
      PathPrefix(g, q[..|q| - 1], d, i);
      assert q[..|q| - 1][..i + 1] == q[..i + 1];
      PathThroughPreheader(f, l, q[..i + 1]);
    }
  }

  lemma HeaderOnPath(g: Graph, h: nat, d: nat, q: seq<nat>)
    requires Dominates(g, h, d) && PathTo(g, q, d)
    ensures exists i :: 0 <= i < |q| && q[i] == h
  {
    assert h in q;
  }

  /** Every path to a block of the loop passes the preheader, which is not in the loop. */
  lemma PreheaderDominates(f: Function, l: NaturalLoop, c: nat)
    requires hide *; IsLoopOf(f, l) && l.preheader.Some? && (forall d: nat :: !Edge(Cfg(f), d, 0)) && c in l.blocks
    ensures Dominates(Cfg(f), l.preheader.value, c) && Dominates(Cfg(f), l.header, c) && l.preheader.value != c
  {
    hide InLoop;
    var g, p := Cfg(f), l.preheader.value;
    WithPreheader(f, l);
    HeaderDominates(g, l.header, c);
    assert Dominates(g, p, l.header) by {
      forall q | PathTo(g, q, l.header) ensures p in q {
        PathThroughPreheader(f, l, q);
      }
    }
    DominatesThrough(g, p, l.header, c);
    assert IsPreheader(f, l.header, l.blocks, p);
  }

  /** From the last visit of the header on, a path to a block of the loop stays in the loop. */
  lemma {:induction false} LastVisit(g: Graph, h: nat, c: nat, q: seq<nat>) returns (i: nat)
    requires InLoop(g, h, c) && PathTo(g, q, c)
    ensures i < |q| && q[i] == h && forall k :: i <= k < |q| ==> InLoop(g, h, q[k])
    decreases |q|
  {
    hide InLoop;
    if c == h {
      i := |q| - 1;
    } else {
      HeaderDominates(g, h, c);
      assert |q| > 1 by {
        assert h in q;
      }
      var d := q[|q| - 2];
      LoopIsClosed(g, h, c, d);
      i := LastVisit(g, h, d, q[..|q| - 1]);
      forall k | i <= k < |q| ensures InLoop(g, h, q[k]) {
        if k < |q| - 1 {
          assert q[..|q| - 1][k] == q[k];
        }
      }
    }
  }

  lemma {:induction false} PathJoin(g: Graph, a: seq<nat>, p: nat, q: seq<nat>, b: nat, i: nat)
    requires PathTo(g, a, p) && PathTo(g, q, b) && i < |q| && Edge(g, p, q[i])
    ensures PathTo(g, a + q[i..], b)
    decreases |q|
  {
    if i == |q| - 1 {
      PathExtend(g, a, p, b);
      assert q[i..] == [b];
    } else {
      PathJoin(g, a, p, q[..|q| - 1], q[|q| - 2], i);
      assert a + q[i..] == (a + q[..|q| - 1][i..]) + [b];
      PathExtend(g, a + q[..|q| - 1][i..], q[|q| - 2], b);
    }
  }

  lemma AllInside(g: Graph, h: nat, q: seq<nat>, i: nat)
    requires i < |q| && forall k :: i <= k < |q| ==> InLoop(g, h, q[k])
    ensures forall x :: x in q[i..] ==> InLoop(g, h, x)
  {
    forall x | x in q[i..] ensures InLoop(g, h, x) {
      var k :| 0 <= k < |q[i..]| && q[i..][k] == x;
      assert InLoop(g, h, q[i + k]);
    }
  }

  /** A block outside the loop that dominates a block of the loop dominates the preheader. */
  lemma OutsideDominatesPreheader(f: Function, l: NaturalLoop, d: nat, c: nat)
    requires hide *; IsLoopOf(f, l) && l.preheader.Some? && c in l.blocks && d !in l.blocks
    requires Dominates(Cfg(f), d, c) && Reachable(Cfg(f), c)
    ensures Dominates(Cfg(f), d, l.preheader.value)
  {
    hide Cfg, Describes, InLoop, PathTo;
    var g, h, p := Cfg(f), l.header, l.preheader.value;
    WithPreheader(f, l);
    assert IsPreheader(f, h, l.blocks, p);
    forall a | PathTo(g, a, p) ensures d in a {
      var q :| PathTo(g, q, c);
      var i := LastVisit(g, h, c, q);
      PathJoin(g, a, p, q, c, i);
      assert d in a + q[i..];
      AllInside(g, h, q, i);
    }
  }

  // ----- two loops -----

  lemma StepOnPath(g: Graph, q: seq<nat>, c: nat, i: nat)
    requires PathTo(g, q, c) && i + 1 < |q|
    ensures Edge(g, q[i], q[i + 1])
  {
    var n := i + 1;
    PathPrefix(g, q, c, n);
    assert q[..n + 1][|q[..n + 1]| - 2] == q[i];
  }

  /** A path to the header goes on to every block of the loop inside the loop. */
  lemma OnInsideLoop(g: Graph, h: nat, c: nat, a: seq<nat>) returns (r: seq<nat>)
    requires InLoop(g, h, c) && PathTo(g, a, h) && Reachable(g, c)
    ensures PathTo(g, r, c) && forall x :: x in r ==> x in a || InLoop(g, h, x)
  {
    hide InLoop;
    var q :| PathTo(g, q, c);
    var i := LastVisit(g, h, c, q);
    if i == |q| - 1 {
      r := a;
    } else {
      var n := i + 1;
      StepOnPath(g, q, c, i);
      PathJoin(g, a, h, q, c, n);
      AllInside(g, h, q, n);
      r := a + q[n..];
    }
  }

  /** Nothing outside a loop lies between its header and one of its blocks. */
  lemma NothingBetween(g: Graph, h: nat, p: nat, c: nat)
    requires InLoop(g, h, c) && Dominates(g, h, p) && Dominates(g, p, c) && Reachable(g, c) && Reachable(g, p)
    ensures InLoop(g, h, p)
  {
    if Dominates(g, p, h) {
      DominatesAntisymmetric(g, h, p);
    } else {
      var a :| PathTo(g, a, h) && p !in a;
      var r := OnInsideLoop(g, h, c, a);
      assert p in r;
    }
  }

  /** The only successor of a block of a loop is in the loop, unless it is the header. */
  lemma OnlySuccessorIn(g: Graph, h: nat, p: nat, b: nat, t: nat)
    requires InLoop(g, h, p) && IsLatch(g, h, t) && Reachable(g, t)
    requires b != h && forall d: nat :: Edge(g, p, d) ==> d == b
    ensures InLoop(g, h, b)
  {
    if p != h {
      var q: seq<nat> :| Walk(g, h, q) && q[0] == p;
      assert |q| > 1;
      assert Walk(g, h, q[1..]) && q[1..][0] == b;
    } else {
      LatchIsIn(g, h, t);
      hide InLoop;
      assert t != h;
      var q :| PathTo(g, q, t);
      var i := LastVisit(g, h, t, q);
      StepOnPath(g, q, t, i);
    }
  }

  /** A loop whose header is in another loop lies in that loop. */
  lemma {:induction false} InnerWalk(g: Graph, h: nat, outer: nat, w: seq<nat>)
    requires Walk(g, h, w) && InLoop(g, outer, h) && h != outer && Reachable(g, h)
    ensures InLoop(g, outer, w[0])
    decreases |w|
  {
    hide InLoop;
    if |w| == 1 {
      LoopIsClosed(g, outer, h, w[0]);
    } else {
      InnerWalk(g, h, outer, w[1..]);
      if w[1] == outer {
        HeaderDominatesWalk(g, h, w[1..]);
        HeaderDominates(g, outer, h);
        DominatesAntisymmetric(g, outer, h);
      }
      LoopIsClosed(g, outer, w[1], w[0]);
    }
  }

  /** A loop whose preheader is in another loop lies in that loop. */
  lemma NestedByPreheader(f: Function, l: NaturalLoop, outer: NaturalLoop, c: nat)
    requires hide *; IsLoopOf(f, l) && IsLoopOf(f, outer) && l.preheader.Some? && outer.preheader.Some?
             && l.header != outer.header
    requires AllReachable(Cfg(f)) && l.preheader.value in outer.blocks && c in l.blocks
    ensures c in outer.blocks
  {
    hide AllReachable, Dominates, InLoop, IsLatch, PathTo, PredsIn, Reachable;
    var g, p := Cfg(f), l.preheader.value;
    WithPreheader(f, l);
    WithPreheader(f, outer);
    assert IsPreheader(f, l.header, l.blocks, p);
    var t: nat :| IsLatch(g, outer.header, t);
    hide InLoop, IsLatch, Dominates;
    LatchReachable(g, outer.header, t);
    assert forall d: nat :: Edge(g, p, d) ==> d == l.header;
    OnlySuccessorIn(g, outer.header, p, l.header, t);
    EdgeReachable(g, p, l.header);
    InnerBlock(g, l.header, outer.header, c);
  }

  lemma LatchReachable(g: Graph, h: nat, t: nat)
    requires AllReachable(g) && IsLatch(g, h, t)
    ensures Reachable(g, t)
  {
  }

  lemma EdgeReachable(g: Graph, p: nat, h: nat)
    requires AllReachable(g) && Edge(g, p, h)
    ensures Reachable(g, h)
  {
    assert Reachable(g, p);
    var a :| PathTo(g, a, p);
    PathExtend(g, a, p, h);
  }

  lemma InnerBlock(g: Graph, h: nat, outer: nat, c: nat)
    requires InLoop(g, h, c) && InLoop(g, outer, h) && h != outer && Reachable(g, h)
    ensures InLoop(g, outer, c)
  {
    if c != h {
      var w: seq<nat> :| Walk(g, h, w) && w[0] == c;
      InnerWalk(g, h, outer, w);
    }
  }
}
