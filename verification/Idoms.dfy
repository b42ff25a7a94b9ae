/** Why the Cooper-Harvey-Kennedy iteration only moves parents upwards, never loses a dominator, and
    is exact when it stops. `po` is a postorder numbering, `up` the parents of the depth-first tree
    that produced it, and `idom` the map the iteration updates in place. */
module Idoms {
  import opened Graphs

  /** Every block but the entry hangs below one of its predecessors. */
  ghost predicate IsSearchTree(g: Graph, po: seq<nat>, up: map<nat, nat>) {
    && Valid(g) && |po| == |g| && IsTree(up, po)
    && (forall b: nat :: b < |g| ==> b in up)
    && (forall b {:trigger up[b]} :: b in up && b != 0 ==> Edge(g, up[b], b))
  }

  /** `c` is above every predecessor that already has a parent. */
  ghost predicate Common(idom: map<nat, nat>, po: seq<nat>, ps: seq<nat>, c: nat)
    requires IsTree(idom, po)
  {
    forall p :: p in ps && p in idom ==> c in Chain(idom, po, p)
  }

  /** The parent of `y` is not below what its predecessors now have in common. */
  ghost predicate NotBelow(idom: map<nat, nat>, po: seq<nat>, ps: seq<nat>, y: nat)
    requires IsTree(idom, po) && y in idom && Parented(idom, po, y)
  {
    forall c :: Common(idom, po, ps, c) ==> c in Chain(idom, po, idom[y])
  }

  /** The parent of `y` is above its depth-first parent, or it can no longer move before `y` is
      visited again: the sweep still has the numbers below `i` to visit. */
  ghost predicate Settled(idom: map<nat, nat>, po: seq<nat>, up: map<nat, nat>, i: int, y: nat)
    requires IsTree(idom, po) && y in idom && Parented(idom, po, y) && y in up && up[y] in idom
  {
    idom[y] in Chain(idom, po, up[y]) || (po[y] < i <= po[idom[y]])
  }

  ghost predicate HasDominators(g: Graph, idom: map<nat, nat>, po: seq<nat>, y: nat)
    requires IsTree(idom, po) && y in idom
  {
    forall c :: Dominates(g, c, y) ==> c in Chain(idom, po, y)
  }

  /** What holds of a block with a parent when the sweep has the numbers below `i` still to visit. */
  ghost predicate Kept(g: Graph, preds: seq<seq<nat>>, idom: map<nat, nat>, po: seq<nat>,
                       up: map<nat, nat>, i: int, y: nat)
    requires IsSearchTree(g, po, up) && ArePreds(g, preds) && IsTree(idom, po) && y in idom
  {
    && (y != 0 ==>
          && up[y] in idom && Parented(idom, po, y)
          && NotBelow(idom, po, preds[y], y)
          && Settled(idom, po, up, i, y))
    && Chain(idom, po, y) <= Chain(up, po, y)
    && HasDominators(g, idom, po, y)
  }

  ghost predicate Sweeping(g: Graph, preds: seq<seq<nat>>, idom: map<nat, nat>, po: seq<nat>,
                           up: map<nat, nat>, i: int)
    requires IsSearchTree(g, po, up) && ArePreds(g, preds)
  {
    && IsTree(idom, po)
    && (forall y {:trigger Kept(g, preds, idom, po, up, i, y)} :: y in idom ==> Kept(g, preds, idom, po, up, i, y))
  }

  /** Above a block in the depth-first tree, dominators are inherited upwards. */
  lemma {:induction false} DominatesAncestor(g: Graph, po: seq<nat>, up: map<nat, nat>, c: nat, x: nat, y: nat)
    requires IsSearchTree(g, po, up) && y in up && x in Chain(up, po, y)
    requires Dominates(g, c, y) && c in up && po[c] > po[x]
    ensures Dominates(g, c, x)
    decreases po[0] - po[y]
  {
    if x != y {
      DominatesPred(g, c, up[y], y);
      DominatesAncestor(g, po, up, c, x, up[y]);
    }
  }

  /** The step the sweep takes at block `b`: its parent becomes the lowest block common to all
      predecessors that have one. */
  ghost predicate Visit(g: Graph, preds: seq<seq<nat>>, idom: map<nat, nat>, po: seq<nat>,
                        up: map<nat, nat>, i: int, b: nat, n: nat)
    requires IsSearchTree(g, po, up) && ArePreds(g, preds)
  {
    && Sweeping(g, preds, idom, po, up, i)
    && b < |g| && b != 0 && po[b] == i - 1
    && (forall y: nat :: y < |g| && po[y] == i - 1 ==> y == b)
    && up[b] in idom
    && n in idom && (forall c :: c in Chain(idom, po, n) <==> Common(idom, po, preds[b], c))
  }

  lemma VisitRises(g: Graph, preds: seq<seq<nat>>, idom: map<nat, nat>, po: seq<nat>, up: map<nat, nat>,
                   i: int, b: nat, n: nat)
    requires IsSearchTree(g, po, up) && ArePreds(g, preds) && Visit(g, preds, idom, po, up, i, b, n)
    ensures n in Chain(idom, po, up[b]) && po[n] > po[b]
    ensures b in idom ==> Parented(idom, po, b) && n in Chain(idom, po, idom[b])
    ensures b in idom && n != idom[b] ==> po[n] > po[idom[b]]
    ensures IsTree(idom[b := n], po)
  {
    PredsAreEdges(g, preds);
    assert Common(idom, po, preds[b], n);
    assert up[b] in preds[b];
    assert b in Chain(up, po, b);
    if b in idom {
      assert Kept(g, preds, idom, po, up, i, b);
    }
    MoveKeepsTree(idom, po, b, n);
  }

  /** After the step chains are smaller, and only lose blocks above `b`. */
  lemma VisitChains(g: Graph, preds: seq<seq<nat>>, idom: map<nat, nat>, po: seq<nat>, up: map<nat, nat>,
                    i: int, b: nat, n: nat, y: nat)
    requires hide ArePreds, Chain, Common, Kept;
             IsSearchTree(g, po, up) && ArePreds(g, preds) && Visit(g, preds, idom, po, up, i, b, n)
    requires y in idom && IsTree(idom[b := n], po)
    ensures Chain(idom[b := n], po, y) <= Chain(idom, po, y)
    ensures b !in Chain(idom, po, y) ==> Chain(idom[b := n], po, y) == Chain(idom, po, y)
    ensures b in Chain(idom, po, y) ==>
              forall c :: c in Chain(idom[b := n], po, y) <==>
                          (c in Chain(idom, po, y) && po[c] <= po[b]) || c in Chain(idom, po, n)
  {
    hide ArePreds, Common, IsSearchTree, Kept;
    VisitRises(g, preds, idom, po, up, i, b, n);
    if b in Chain(idom, po, y) {
      ChainCut(idom, po, b, n, y);
      ChainUpward(idom, po, b, y);
      assert Chain(idom, po, b) == {b} + Chain(idom, po, idom[b]);
      ChainUpward(idom, po, n, idom[b]);
    } else {
      ChainKeep(idom, po, b, n, y);
    }
  }

  lemma VisitCommon(g: Graph, preds: seq<seq<nat>>, idom: map<nat, nat>, po: seq<nat>, up: map<nat, nat>,
                    i: int, b: nat, n: nat, y: nat, c: nat)
    requires IsSearchTree(g, po, up) && ArePreds(g, preds) && Visit(g, preds, idom, po, up, i, b, n)
    requires IsTree(idom[b := n], po) && y < |g| && Common(idom[b := n], po, preds[y], c)
    ensures Common(idom, po, preds[y], c)
  {
    forall p | p in preds[y] && p in idom
      ensures c in Chain(idom, po, p)
    {
      assert p in idom[b := n];
      VisitChains(g, preds, idom, po, up, i, b, n, p);
    }
  }

  lemma VisitKeepsNotBelow(g: Graph, preds: seq<seq<nat>>, idom: map<nat, nat>, po: seq<nat>,
                           up: map<nat, nat>, i: int, b: nat, n: nat, y: nat)
    requires IsSearchTree(g, po, up) && ArePreds(g, preds) && Visit(g, preds, idom, po, up, i, b, n)
    requires IsTree(idom[b := n], po) && (y in idom || y == b) && y != 0 && Parented(idom[b := n], po, y)
    ensures NotBelow(idom[b := n], po, preds[y], y)
  {
    hide Chain, Common, Kept, PredList;
    var idom' := idom[b := n];
    VisitRises(g, preds, idom, po, up, i, b, n);
    PredsAreEdges(g, preds);
    assert y != b ==> Edge(g, up[y], y);
    forall c | Common(idom', po, preds[y], c)
      ensures c in Chain(idom', po, idom'[y])
    {
      VisitCommon(g, preds, idom, po, up, i, b, n, y, c);
      if y == b {
        ChainKeep(idom, po, b, n, n);
      } else {
        VisitKeepsAbove(g, preds, idom, po, up, i, b, n, y, c);
      }
    }
  }

  /** What the predecessors of `y` still have in common is still above the parent of `y`: if the
      parent's chain is cut, the depth-first parent's chain is cut at the same place. */
  lemma VisitKeepsAbove(g: Graph, preds: seq<seq<nat>>, idom: map<nat, nat>, po: seq<nat>,
                        up: map<nat, nat>, i: int, b: nat, n: nat, y: nat, c: nat)
    requires IsSearchTree(g, po, up) && ArePreds(g, preds) && Visit(g, preds, idom, po, up, i, b, n)
    requires IsTree(idom[b := n], po) && y in idom && y != 0 && y != b && Parented(idom, po, y)
    requires up[y] in preds[y]
    requires Common(idom, po, preds[y], c) && Common(idom[b := n], po, preds[y], c)
    ensures c in Chain(idom[b := n], po, idom[y])
  {
    hide ArePreds, Chain, HasDominators, IsSearchTree;
    assert Kept(g, preds, idom, po, up, i, y);
    VisitChains(g, preds, idom, po, up, i, b, n, idom[y]);
    if b in Chain(idom, po, idom[y]) {
      ChainUpward(idom, po, idom[y], up[y]);
      VisitChains(g, preds, idom, po, up, i, b, n, up[y]);
    }
  }

  lemma VisitKeepsSettled(g: Graph, preds: seq<seq<nat>>, idom: map<nat, nat>, po: seq<nat>,
                          up: map<nat, nat>, i: int, b: nat, n: nat, y: nat)
    requires IsSearchTree(g, po, up) && ArePreds(g, preds) && Visit(g, preds, idom, po, up, i, b, n)
    requires IsTree(idom[b := n], po) && (y in idom || y == b) && y != 0 && Parented(idom[b := n], po, y)
    ensures up[y] in idom[b := n] && Settled(idom[b := n], po, up, i - 1, y)
  {
    hide ArePreds, Common, HasDominators, NotBelow;
    VisitRises(g, preds, idom, po, up, i, b, n);
    assert Parented(up, po, y);
    if y == b {
      VisitChains(g, preds, idom, po, up, i, b, n, up[b]);
      assert b !in Chain(idom, po, up[b]);
    } else {
      assert Kept(g, preds, idom, po, up, i, y);
      VisitChains(g, preds, idom, po, up, i, b, n, up[y]);
      assert po[y] != i - 1;
    }
  }

  lemma VisitKeepsDominators(g: Graph, preds: seq<seq<nat>>, idom: map<nat, nat>, po: seq<nat>,
                             up: map<nat, nat>, i: int, b: nat, n: nat, y: nat)
    requires IsSearchTree(g, po, up) && ArePreds(g, preds) && Visit(g, preds, idom, po, up, i, b, n)
    requires IsTree(idom[b := n], po) && (y in idom || y == b)
    ensures Chain(idom[b := n], po, y) <= Chain(up, po, y)
    ensures HasDominators(g, idom[b := n], po, y)
  {
    hide ArePreds, Chain, Common, Dominates, IsSearchTree, NotBelow, Settled;
    if y == b {
      VisitKeepsOwnDominators(g, preds, idom, po, up, i, b, n);
    } else {
      VisitRises(g, preds, idom, po, up, i, b, n);
      VisitChains(g, preds, idom, po, up, i, b, n, y);
      assert Kept(g, preds, idom, po, up, i, y);
      forall c | Dominates(g, c, y)
        ensures c in Chain(idom[b := n], po, y)
      {
        VisitKeepsDominator(g, preds, idom, po, up, i, b, n, y, c);
      }
    }
  }

  lemma VisitKeepsDominator(g: Graph, preds: seq<seq<nat>>, idom: map<nat, nat>, po: seq<nat>,
                            up: map<nat, nat>, i: int, b: nat, n: nat, y: nat, c: nat)
    requires hide *; IsSearchTree(g, po, up) && ArePreds(g, preds) && Visit(g, preds, idom, po, up, i, b, n)
    requires IsTree(idom[b := n], po) && y in idom && Dominates(g, c, y)
    ensures c in Chain(idom[b := n], po, y)
  {
    hide ArePreds, Chain, Common, Dominates, IsSearchTree, NotBelow, Settled;
    assert Kept(g, preds, idom, po, up, i, y);
    VisitChains(g, preds, idom, po, up, i, b, n, y);
    if b in Chain(idom, po, y) && po[c] > po[b] {
      DominatesAncestor(g, po, up, c, b, y);
      CommonDominator(g, preds, idom, po, up, i, b, n, c);
    }
  }

  lemma VisitKeepsOwnDominators(g: Graph, preds: seq<seq<nat>>, idom: map<nat, nat>, po: seq<nat>,
                                up: map<nat, nat>, i: int, b: nat, n: nat)
    requires IsSearchTree(g, po, up) && ArePreds(g, preds) && Visit(g, preds, idom, po, up, i, b, n)
    requires IsTree(idom[b := n], po)
    ensures Chain(idom[b := n], po, b) <= Chain(up, po, b)
    ensures HasDominators(g, idom[b := n], po, b)
  {
    hide ArePreds, Common, Dominates, NotBelow, Settled;
    VisitRises(g, preds, idom, po, up, i, b, n);
    ChainKeep(idom, po, b, n, n);
    assert Chain(idom[b := n], po, b) == {b} + Chain(idom, po, n);
    ChainUpward(idom, po, n, up[b]);
    assert Kept(g, preds, idom, po, up, i, up[b]);
    forall c | Dominates(g, c, b)
      ensures c in Chain(idom[b := n], po, b)
    {
      CommonDominator(g, preds, idom, po, up, i, b, n, c);
    }
  }

  /** A dominator of the visited block is the block or stays above its new parent. */
  lemma CommonDominator(g: Graph, preds: seq<seq<nat>>, idom: map<nat, nat>, po: seq<nat>,
                        up: map<nat, nat>, i: int, b: nat, n: nat, c: nat)
    requires IsSearchTree(g, po, up) && ArePreds(g, preds) && Visit(g, preds, idom, po, up, i, b, n)
    requires Dominates(g, c, b)
    ensures c == b || c in Chain(idom, po, n)
  {
    PredsAreEdges(g, preds);
    if c != b {
      forall p | p in preds[b] && p in idom
        ensures c in Chain(idom, po, p)
      {
        DominatesPred(g, c, p, b);
        assert Kept(g, preds, idom, po, up, i, p);
      }
      assert Common(idom, po, preds[b], c);
    }
  }

  /** One visit keeps everything the sweep relies on. */
  lemma VisitKeepsSweeping(g: Graph, preds: seq<seq<nat>>, idom: map<nat, nat>, po: seq<nat>,
                           up: map<nat, nat>, i: int, b: nat, n: nat)
    requires hide *; IsSearchTree(g, po, up) && ArePreds(g, preds) && Visit(g, preds, idom, po, up, i, b, n)
    ensures Sweeping(g, preds, idom[b := n], po, up, i - 1)
  {
    hide Chain, Common, HasDominators, NotBelow, PredList, Settled;
    var idom' := idom[b := n];
    VisitRises(g, preds, idom, po, up, i, b, n);
    forall y {:trigger Kept(g, preds, idom', po, up, i - 1, y)} | y in idom'
      ensures Kept(g, preds, idom', po, up, i - 1, y)
    {
      if y != 0 {
        assert Parented(idom', po, y);
        VisitKeepsSettled(g, preds, idom, po, up, i, b, n, y);
        VisitKeepsNotBelow(g, preds, idom, po, up, i, b, n, y);
      }
      VisitKeepsDominators(g, preds, idom, po, up, i, b, n, y);
    }
  }

  /** Before the first sweep only the entry has a parent. */
  lemma SweepingStarts(g: Graph, preds: seq<seq<nat>>, po: seq<nat>, up: map<nat, nat>)
    requires IsSearchTree(g, po, up) && ArePreds(g, preds)
    ensures Sweeping(g, preds, map[0 := 0], po, up, po[0])
  {
    var idom: map<nat, nat> := map[0 := 0];
    assert IsTree(idom, po);
    assert Chain(idom, po, 0) == {0};
    assert PathTo(g, [0], 0);
    forall c | Dominates(g, c, 0)
      ensures c in Chain(idom, po, 0)
    {
      assert c in [0];
    }
  }

  /** A finished sweep is the beginning of the next one. */
  lemma SweepingRestarts(g: Graph, preds: seq<seq<nat>>, idom: map<nat, nat>, po: seq<nat>, up: map<nat, nat>)
    requires hide ArePreds, IsTree, Sweeping;
             IsSearchTree(g, po, up) && ArePreds(g, preds) && Sweeping(g, preds, idom, po, up, 0)
    ensures Sweeping(g, preds, idom, po, up, po[0])
  {
    hide ArePreds, Chain, HasDominators, NotBelow, Parented;
    forall y {:trigger Kept(g, preds, idom, po, up, po[0], y)} | y in idom
      ensures Kept(g, preds, idom, po, up, po[0], y)
    {
      assert Kept(g, preds, idom, po, up, 0, y);
    }
  }

  // ----- the fixpoint -----

  /** Every parent is exactly the lowest block common to all predecessors. */
  ghost predicate Fixpoint(preds: seq<seq<nat>>, idom: map<nat, nat>, po: seq<nat>, b: nat)
    requires IsTree(idom, po) && b in idom && b < |preds| && Parented(idom, po, b)
  {
    forall c :: c in Chain(idom, po, idom[b]) <==> Common(idom, po, preds[b], c)
  }

  ghost predicate Stable(g: Graph, preds: seq<seq<nat>>, idom: map<nat, nat>, po: seq<nat>) {
    && IsTree(idom, po) && Valid(g) && ArePreds(g, preds) && |po| == |g|
    && (forall b: nat :: b < |g| ==> b in idom)
    && (forall b: nat :: b < |g| && b != 0 ==> Parented(idom, po, b) && Fixpoint(preds, idom, po, b))
  }

  lemma {:induction false} ChainOnEveryPath(g: Graph, preds: seq<seq<nat>>, idom: map<nat, nat>, po: seq<nat>,
                                            c: nat, p: seq<nat>, b: nat)
    requires Stable(g, preds, idom, po) && b < |g| && c in Chain(idom, po, b) && PathTo(g, p, b)
    ensures c in p
    decreases |p|
  {
    if |p| > 1 && c != b {
      var a := p[|p| - 2];
      PredsAreEdges(g, preds);
      if b != 0 {
        assert Fixpoint(preds, idom, po, b);
        assert Common(idom, po, preds[b], c);
      }
      ChainOnEveryPath(g, preds, idom, po, c, p[..|p| - 1], a);
      assert c in p[..|p| - 1];
    }
  }

  /** The parent map holds exactly the dominators of every block. */
  ghost predicate Exact(g: Graph, idom: map<nat, nat>, po: seq<nat>) {
    && IsTree(idom, po) && |po| == |g|
    && (forall b: nat :: b < |g| ==> b in idom)
    && (forall b: nat, c: nat :: b < |g| ==> (c in Chain(idom, po, b) <==> Dominates(g, c, b)))
  }

  lemma StableIsExact(g: Graph, preds: seq<seq<nat>>, idom: map<nat, nat>, po: seq<nat>)
    requires Stable(g, preds, idom, po)
    requires forall b: nat :: b < |g| ==> HasDominators(g, idom, po, b)
    ensures Exact(g, idom, po)
  {
    forall b: nat, c: nat | b < |g|
      ensures c in Chain(idom, po, b) <==> Dominates(g, c, b)
    {
      assert HasDominators(g, idom, po, b);
      if c in Chain(idom, po, b) {
        forall p | PathTo(g, p, b)
          ensures c in p
        {
          ChainOnEveryPath(g, preds, idom, po, c, p, b);
        }
      }
    }
  }

  // ----- the numbers of the parents only rise -----

  function Height(idom: map<nat, nat>, po: seq<nat>, b: nat): nat {
    if b in idom && idom[b] < |po| then 1 + po[idom[b]] else 0
  }

  function Rank(idom: map<nat, nat>, po: seq<nat>, k: nat): nat {
    if k == 0 then 0 else Rank(idom, po, k - 1) + Height(idom, po, k - 1)
  }

  lemma {:induction false} RankBounded(idom: map<nat, nat>, po: seq<nat>, k: nat)
    requires IsTree(idom, po)
    ensures Rank(idom, po, k) <= k * (1 + po[0])
  {
    if k > 0 {
      RankBounded(idom, po, k - 1);
      assert k * (1 + po[0]) == (k - 1) * (1 + po[0]) + (1 + po[0]);
    }
  }

  lemma {:induction false} RankRises(idom: map<nat, nat>, po: seq<nat>, b: nat, n: nat, k: nat)
    requires IsTree(idom, po) && n < |po|
    requires b in idom ==> 1 + po[n] > Height(idom, po, b)
    ensures Rank(idom[b := n], po, k) >= Rank(idom, po, k)
    ensures b < k ==> Rank(idom[b := n], po, k) > Rank(idom, po, k)
  {
    if k > 0 {
      RankRises(idom, po, b, n, k - 1);
    }
  }
}
