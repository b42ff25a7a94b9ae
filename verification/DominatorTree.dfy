/** The dominator tree of a function: its graph, a postorder numbering found by depth-first search,
    the Cooper-Harvey-Kennedy iteration, and the dominance frontiers found by runners. */
module Dominators {
  import opened Graphs
  import opened Idoms
  import opened Ir

  // ----- dominance frontiers -----

  /** The textbook frontier of `x`: where the dominance of `x` ends. */
  ghost predicate InFrontier(g: Graph, x: nat, b: nat) {
    exists p: nat :: Edge(g, p, b) && Dominates(g, x, p) && !StrictlyDominates(g, x, b)
  }

  /** A runner that starts at `p` and stops at the parent of the join `b` visits `x`. */
  ghost predicate Passes(idom: map<nat, nat>, po: seq<nat>, x: nat, p: nat, b: nat)
    requires IsTree(idom, po)
  {
    && p in idom && b in idom && idom[b] in idom
    && x in Chain(idom, po, p) && x !in Chain(idom, po, idom[b])
  }

  /** What the runners record: only at joins, and from each predecessor up to the join's parent. */
  ghost predicate Recorded(idom: map<nat, nat>, po: seq<nat>, preds: seq<seq<nat>>, x: nat, b: nat)
    requires IsTree(idom, po)
  {
    && b < |preds| && |preds[b]| >= 2
    && exists p :: p in preds[b] && Passes(idom, po, x, p, b)
  }

  /** Everything the analysis establishes about the graph `g`. */
  ghost predicate Analysed(g: Graph, preds: seq<seq<nat>>, idom: map<nat, nat>, po: seq<nat>) {
    Stable(g, preds, idom, po) && Exact(g, idom, po)
  }

  lemma ParentAbovePreds(g: Graph, preds: seq<seq<nat>>, idom: map<nat, nat>, po: seq<nat>, p: nat, b: nat)
    requires Stable(g, preds, idom, po) && Edge(g, p, b) && b != 0
    ensures b < |g| && p < |g| && Parented(idom, po, b)
    ensures idom[b] in Chain(idom, po, p) && Chain(idom, po, idom[b]) <= Chain(idom, po, p)
  {
    assert b < |g|;
    PredsAreEdges(g, preds);
    assert Fixpoint(preds, idom, po, b);
    assert Common(idom, po, preds[b], idom[b]);
    ChainUpward(idom, po, idom[b], p);
  }

  lemma RunnerReachesParent(g: Graph, preds: seq<seq<nat>>, idom: map<nat, nat>, po: seq<nat>, p: nat, b: nat)
    requires Analysed(g, preds, idom, po) && b < |g| && p in preds[b]
    ensures p in idom && b in idom && idom[b] in Chain(idom, po, p)
  {
    PredsAreEdges(g, preds);
    if b != 0 {
      ParentAbovePreds(g, preds, idom, po, p, b);
    }
  }

  lemma PassesIsBoundary(g: Graph, preds: seq<seq<nat>>, idom: map<nat, nat>, po: seq<nat>, x: nat, p: nat, b: nat)
    requires Analysed(g, preds, idom, po) && Edge(g, p, b) && b != 0
    ensures Passes(idom, po, x, p, b) <==> Dominates(g, x, p) && !StrictlyDominates(g, x, b)
  {
    hide ArePreds, Dominates, Fixpoint, IsTree, Parented;
    ParentAbovePreds(g, preds, idom, po, p, b);
    assert Chain(idom, po, b) == {b} + Chain(idom, po, idom[b]);
    assert x in Chain(idom, po, p) <==> Dominates(g, x, p);
    assert x in Chain(idom, po, b) <==> Dominates(g, x, b);
  }

  lemma NoRunnerWithOnePredecessor(preds: seq<seq<nat>>, idom: map<nat, nat>, po: seq<nat>, x: nat, p: nat, b: nat)
    requires IsTree(idom, po) && b in idom && b < |preds| && b != 0 && Parented(idom, po, b)
    requires Fixpoint(preds, idom, po, b) && p in preds[b] && |preds[b]| < 2
    ensures !Passes(idom, po, x, p, b)
  {
    assert preds[b] == [p];
    if Passes(idom, po, x, p, b) {
      assert Common(idom, po, preds[b], x);
    }
  }

  /** At a block other than the entry, the runners record exactly the textbook frontier. */
  lemma RecordedIsFrontier(g: Graph, preds: seq<seq<nat>>, idom: map<nat, nat>, po: seq<nat>, x: nat, b: nat)
    requires hide Chain, Dominates, IsTree, Recorded, Stable; Analysed(g, preds, idom, po) && b != 0
    ensures Recorded(idom, po, preds, x, b) <==> InFrontier(g, x, b)
  {
    hide Chain, Dominates, Exact, Fixpoint, IsTree, Parented, PredList;
    PredsAreEdges(g, preds);
    if Recorded(idom, po, preds, x, b) {
      var p :| p in preds[b] && Passes(idom, po, x, p, b);
      PassesIsBoundary(g, preds, idom, po, x, p, b);
    }
    if InFrontier(g, x, b) {
      var p: nat :| Edge(g, p, b) && Dominates(g, x, p) && !StrictlyDominates(g, x, b);
      PassesIsBoundary(g, preds, idom, po, x, p, b);
      if |preds[b]| < 2 {
        NoRunnerWithOnePredecessor(preds, idom, po, x, p, b);
      }
    }
  }

  /** The recorded frontiers equal the textbook frontiers exactly when nothing branches back to the
      entry: there the textbook frontier of the entry holds the entry, and the runners never do. */
  lemma FrontiersExactIffEntryHasNoPredecessor(g: Graph, preds: seq<seq<nat>>, idom: map<nat, nat>, po: seq<nat>)
    requires Analysed(g, preds, idom, po)
    ensures (forall x: nat, b: nat :: Recorded(idom, po, preds, x, b) <==> InFrontier(g, x, b)) <==> preds[0] == []
  {
    PredsAreEdges(g, preds);
    if preds[0] == [] {
      forall x: nat, b: nat
        ensures Recorded(idom, po, preds, x, b) <==> InFrontier(g, x, b)
      {
        if b != 0 {
          RecordedIsFrontier(g, preds, idom, po, x, b);
        }
      }
    } else {
      var p := preds[0][0];
      assert p in preds[0];
      assert 0 in Chain(idom, po, p);
      assert Edge(g, p, 0) && Dominates(g, 0, p) && !StrictlyDominates(g, 0, 0);
      assert InFrontier(g, 0, 0) && !Recorded(idom, po, preds, 0, 0);
    }
  }

  /** Two blocks that branch to each other. */
  function Mutual(): Graph {
    [[1], [0]]
  }

  function MutualTree(): map<nat, nat> {
    map[0 := 0, 1 := 0]
  }

  lemma MutualChains()
    ensures IsTree(MutualTree(), [1, 0]) && Parented(MutualTree(), [1, 0], 1)
    ensures Chain(MutualTree(), [1, 0], 0) == {0} && Chain(MutualTree(), [1, 0], 1) == {0, 1}
  {
    var idom, po: seq<nat> := MutualTree(), [1, 0];
    assert Parented(idom, po, 1);
    assert IsTree(idom, po);
    assert Chain(idom, po, 1) == {1} + Chain(idom, po, 0);
  }

  lemma MutualPreds()
    ensures Valid(Mutual()) && ArePreds(Mutual(), Mutual())
  {
    var g := Mutual();
    assert PredList(g, 0, 0) == [] && PredList(g, 0, 1) == [] && PredList(g, 0, 2) == [1];
    assert PredList(g, 1, 0) == [] && PredList(g, 1, 1) == [0] && PredList(g, 1, 2) == [0];
  }

  lemma MutualDominators(d: nat, b: nat)
    requires hide Chain, Dominates; b < 2
    ensures Dominates(Mutual(), d, b) <==> d in Chain(MutualTree(), [1, 0], b)
    ensures IsTree(MutualTree(), [1, 0])
  {
    hide ArePreds, IsTree, Parented;
    var g := Mutual();
    MutualChains();
    MutualPreds();
    assert [0, 1][..1] == [0] && PathTo(g, [0], 0) && PathTo(g, [0, 1], 1);
    if d in Chain(MutualTree(), [1, 0], b) {
      forall p | PathTo(g, p, b)
        ensures d in p
      {
        EntryOnPath(g, p, b);
      }
    } else {
      assert d !in (if b == 0 then [0] else [0, 1]);
    }
  }

  /** The entry has a predecessor, and its own frontier is missed. */
  lemma FrontierOfEntryIsMissed()
    ensures hide Chain, Dominates, IsTree, Recorded, Stable; Analysed(Mutual(), Mutual(), MutualTree(), [1, 0])
    ensures InFrontier(Mutual(), 0, 0) && !Recorded(MutualTree(), [1, 0], Mutual(), 0, 0)
  {
    var g, idom, po: seq<nat> := Mutual(), MutualTree(), [1, 0];
    MutualChains();
    MutualPreds();
    forall d: nat, b: nat | b < 2
      ensures d in Chain(idom, po, b) <==> Dominates(g, d, b)
    {
      MutualDominators(d, b);
    }
    hide Dominates, Chain;
    assert Fixpoint(g, idom, po, 1);
    assert Edge(g, 1, 0) && Dominates(g, 0, 1) && !StrictlyDominates(g, 0, 0);
  }

  lemma {:induction false} EntryOnPath(g: Graph, p: seq<nat>, b: nat)
    requires PathTo(g, p, b) && Valid(g)
    ensures p[0] == 0 && b < |g|
  {
    if |p| > 1 {
      EntryOnPath(g, p[..|p| - 1], p[|p| - 2]);
    }
  }

  // ----- depth-first search -----

  ghost predicate IsPostorder(g: Graph, order: seq<nat>, po: seq<nat>, up: map<nat, nat>) {
    && IsSearchTree(g, po, up)
    && |order| > 0 && order[|order| - 1] == 0
    && (forall i :: 0 <= i < |order| ==> order[i] < |g| && po[order[i]] == i)
    && (forall b: nat :: b < |g| ==> po[b] < |order| && order[po[b]] == b)
  }

  /** The blocks on the path from the entry to the block being searched, with their places. */
  ghost predicate IsOpen(path: seq<nat>, open: map<nat, nat>) {
    && (forall i :: 0 <= i < |path| ==> path[i] in open && open[path[i]] == i)
    && (forall b :: b in open ==> open[b] < |path| && path[open[b]] == b)
  }

  /** The finished blocks, numbered in the order in which they were finished. */
  ghost predicate IsFinished(n: nat, order: seq<nat>, po: seq<nat>, done: set<nat>) {
    && |po| == n
    && (forall i :: 0 <= i < |order| ==> order[i] in done && order[i] < n && po[order[i]] == i)
    && (forall b :: b in done ==> b < n && po[b] < |order| && order[po[b]] == b)
  }

  /** Every seen block was reached from a block that is still open or was finished later. */
  ghost predicate IsHanging(g: Graph, path: seq<nat>, open: map<nat, nat>, po: seq<nat>, done: set<nat>,
                            up: map<nat, nat>) {
    && open.Keys !! done && up.Keys == open.Keys + done
    && (forall b :: b in up ==> b < |g| && b < |po|)
    && 0 in up && up[0] == 0
    && (forall b {:trigger up[b]} :: b in up && b != 0 ==> Edge(g, up[b], b))
    && (forall i :: 0 < i < |path| ==> path[i] in up && path[i] != 0 && up[path[i]] == path[i - 1])
    && (forall b :: b in done && b != 0 ==> Below(open, po, done, up, b))
  }

  ghost predicate Below(open: map<nat, nat>, po: seq<nat>, done: set<nat>, up: map<nat, nat>, b: nat)
    requires b in up && forall b :: b in up ==> b < |po|
    requires up.Keys == open.Keys + done
  {
    up[b] in open || (up[b] in done && po[up[b]] > po[b])
  }

  /** Successors that were looked at are seen. */
  ghost predicate IsClosed(g: Graph, stack: seq<(nat, nat)>, done: set<nat>, seen: set<nat>) {
    && (forall i :: 0 <= i < |stack| ==> stack[i].0 < |g| && stack[i].1 <= |g[stack[i].0]|)
    && (forall i, k :: 0 <= i < |stack| && 0 <= k < stack[i].1 ==> g[stack[i].0][k] in seen)
    && (forall b: nat, c: nat :: b in done && Edge(g, b, c) ==> c in seen)
  }

  ghost predicate FromEntry(path: seq<nat>, order: seq<nat>) {
    && (path != [] ==> path[0] == 0)
    && (path == [] ==> |order| > 0 && order[|order| - 1] == 0)
  }

  lemma FinishKeepsNumbers(n: nat, path: seq<nat>, open: map<nat, nat>, order: seq<nat>, po: seq<nat>,
                           done: set<nat>, last: int, b: nat)
    requires IsOpen(path, open) && IsFinished(n, order, po, done) && open.Keys !! done
    requires last == |path| - 1 >= 0 && path[last] == b && b < n
    ensures IsOpen(path[..last], open - {b})
    ensures IsFinished(n, order + [b], po[b := |order|], done + {b})
  {
    assert open[b] == last;
  }

  lemma FinishKeepsHanging(g: Graph, path: seq<nat>, open: map<nat, nat>, order: seq<nat>, po: seq<nat>,
                           done: set<nat>, up: map<nat, nat>, last: int, b: nat)
    requires IsOpen(path, open) && IsFinished(|g|, order, po, done)
    requires IsHanging(g, path, open, po, done, up)
    requires last == |path| - 1 >= 0 && path[last] == b && FromEntry(path, order)
    ensures IsHanging(g, path[..last], open - {b}, po[b := |order|], done + {b}, up)
  {
    var open', po', done' := open - {b}, po[b := |order|], done + {b};
    forall c | c in done' && c != 0
      ensures Below(open', po', done', up, c)
    {
      if c == b {
        assert last > 0;
        assert path[last - 1] in open;
      } else {
        assert Below(open, po, done, up, c);
      }
    }
  }

  lemma {:induction false} ClosedIsReachable(g: Graph, done: set<nat>, p: seq<nat>, b: nat)
    requires 0 in done && PathTo(g, p, b)
    requires forall a: nat, c: nat :: a in done && Edge(g, a, c) ==> c in done
    ensures b in done
    decreases |p|
  {
    if |p| > 1 {
      ClosedIsReachable(g, done, p[..|p| - 1], p[|p| - 2]);
    }
  }

  lemma PushKeepsHanging(g: Graph, path: seq<nat>, open: map<nat, nat>, po: seq<nat>, done: set<nat>,
                         up: map<nat, nat>, s: nat)
    requires IsOpen(path, open) && IsHanging(g, path, open, po, done, up) && |po| == |g|
    requires path != [] && Edge(g, path[|path| - 1], s) && s !in up && s < |g|
    ensures IsOpen(path + [s], open[s := |path|])
    ensures IsHanging(g, path + [s], open[s := |path|], po, done, up[s := path[|path| - 1]])
  {
    var open', up' := open[s := |path|], up[s := path[|path| - 1]];
    forall c | c in done && c != 0
      ensures Below(open', po, done, up', c)
    {
      assert Below(open, po, done, up, c);
    }
  }

  lemma FinishKeepsClosed(g: Graph, stack: seq<(nat, nat)>, done: set<nat>, seen: set<nat>, last: int, b: nat)
    requires IsClosed(g, stack, done, seen)
    requires last == |stack| - 1 >= 0 && b == stack[last].0 && stack[last].1 == |g[b]|
    ensures IsClosed(g, stack[..last], done + {b}, seen)
  {
    forall c: nat, s: nat | c in done + {b} && Edge(g, c, s)
      ensures s in seen
    {
      if c == b {
        var k :| 0 <= k < |g[b]| && g[b][k] == s;
        assert g[stack[last].0][k] in seen;
      }
    }
  }

  lemma FinishedIsPostorder(g: Graph, order: seq<nat>, po: seq<nat>, done: set<nat>, up: map<nat, nat>)
    requires hide *; Valid(g) && AllReachable(g) && IsFinished(|g|, order, po, done)
    requires IsHanging(g, [], map[], po, done, up) && IsClosed(g, [], done, up.Keys) && FromEntry([], order)
    ensures IsPostorder(g, order, po, up)
  {
    forall b: nat | b < |g|
      ensures b in done
    {
      assert Reachable(g, b);
      var p :| PathTo(g, p, b);
      ClosedIsReachable(g, done, p, b);
    }
    forall b {:trigger Parented(up, po, b)} | b in up && b != 0
      ensures Parented(up, po, b)
    {
      assert Below(map[], po, done, up, b);
    }
    forall b: nat | b < |g|
      ensures po[b] <= po[0]
    {
      assert b in done;
    }
  }

  /** The whole state of the search; `path` is the stack without the counts. */
  ghost predicate Searching(g: Graph, stack: seq<(nat, nat)>, seen: set<nat>, order: seq<nat>, po: seq<nat>,
                            path: seq<nat>, open: map<nat, nat>, done: set<nat>, up: map<nat, nat>) {
    && |path| == |stack| && (forall i :: 0 <= i < |stack| ==> path[i] == stack[i].0)
    && IsOpen(path, open) && IsFinished(|g|, order, po, done) && FromEntry(path, order)
    && IsHanging(g, path, open, po, done, up) && seen == up.Keys
    && IsClosed(g, stack, done, seen)
  }

  lemma AdvanceKeepsSearching(g: Graph, stack: seq<(nat, nat)>, seen: set<nat>, order: seq<nat>, po: seq<nat>,
                              path: seq<nat>, open: map<nat, nat>, done: set<nat>, up: map<nat, nat>,
                              last: int, b: nat, k: nat)
    requires hide *; Searching(g, stack, seen, order, po, path, open, done, up)
    requires last == |stack| - 1 >= 0 && stack[last] == (b, k)
    requires b < |g| && k < |g[b]| && g[b][k] in seen
    ensures Searching(g, stack[..last] + [(b, k + 1)], seen, order, po, path, open, done, up)
  {
    hide IsOpen, IsHanging, IsFinished, IsClosed, FromEntry;
    AdvanceKeepsClosed(g, stack, done, seen, last, b, k);
  }

  lemma AdvanceKeepsClosed(g: Graph, stack: seq<(nat, nat)>, done: set<nat>, seen: set<nat>, last: int, b: nat, k: nat)
    requires IsClosed(g, stack, done, seen)
    requires last == |stack| - 1 >= 0 && stack[last] == (b, k)
    requires b < |g| && k < |g[b]| && g[b][k] in seen
    ensures IsClosed(g, stack[..last] + [(b, k + 1)], done, seen)
  {
  }

  lemma PushKeepsSearching(g: Graph, stack: seq<(nat, nat)>, seen: set<nat>, order: seq<nat>, po: seq<nat>,
                           path: seq<nat>, open: map<nat, nat>, done: set<nat>, up: map<nat, nat>,
                           last: int, b: nat, k: nat, s: nat)
    requires Valid(g) && Searching(g, stack, seen, order, po, path, open, done, up)
    requires last == |stack| - 1 >= 0 && stack[last] == (b, k)
    requires b < |g| && k < |g[b]| && g[b][k] == s && s !in seen
    ensures Searching(g, stack[..last] + [(b, k + 1)] + [(s, 0)], seen + {s}, order, po,
                      path + [s], open[s := |path|], done, up[s := b])
  {
    hide IsClosed;
    assert Edge(g, b, s);
    hide IsOpen, IsHanging, IsFinished, IsClosed;
    PushFacts(g, stack, path, open, po, done, up, last, b);
    PushKeepsHanging(g, path, open, po, done, up, s);
    PushKeepsClosed(g, stack, done, seen, last, b, k, s);
  }

  lemma PushFacts(g: Graph, stack: seq<(nat, nat)>, path: seq<nat>, open: map<nat, nat>, po: seq<nat>, done: set<nat>,
                  up: map<nat, nat>, last: int, b: nat)
    requires |path| == |stack| && last == |stack| - 1 >= 0 && stack[last].0 == b
    requires forall i :: 0 <= i < |stack| ==> path[i] == stack[i].0
    ensures path[last] == b
  {
  }

  lemma PushKeepsClosed(g: Graph, stack: seq<(nat, nat)>, done: set<nat>, seen: set<nat>, last: int,
                        b: nat, k: nat, s: nat)
    requires IsClosed(g, stack, done, seen)
    requires last == |stack| - 1 >= 0 && stack[last] == (b, k)
    requires b < |g| && k < |g[b]| && g[b][k] == s && s < |g|
    ensures IsClosed(g, stack[..last] + [(b, k + 1)] + [(s, 0)], done, seen + {s})
  {
  }

  lemma FinishKeepsSearching(g: Graph, stack: seq<(nat, nat)>, seen: set<nat>, order: seq<nat>, po: seq<nat>,
                             path: seq<nat>, open: map<nat, nat>, done: set<nat>, up: map<nat, nat>,
                             last: int, b: nat)
    requires Searching(g, stack, seen, order, po, path, open, done, up)
    requires last == |stack| - 1 >= 0 && b == stack[last].0 && b < |g| && stack[last].1 == |g[b]|
    ensures Searching(g, stack[..last], seen, order + [b], po[b := |order|],
                      path[..last], open - {b}, done + {b}, up)
  {
    FinishKeepsNumbers(|g|, path, open, order, po, done, last, b);
    FinishKeepsHanging(g, path, open, order, po, done, up, last, b);
    FinishKeepsClosed(g, stack, done, seen, last, b);
  }

  lemma SearchFacts(g: Graph, stack: seq<(nat, nat)>, seen: set<nat>, order: seq<nat>, po: seq<nat>,
                    path: seq<nat>, open: map<nat, nat>, done: set<nat>, up: map<nat, nat>,
                    last: int, b: nat, k: nat)
    requires hide *; Valid(g) && Searching(g, stack, seen, order, po, path, open, done, up)
    requires last == |stack| - 1 >= 0 && stack[last] == (b, k)
    ensures |path| == |stack| && b < |g| == |po| && k <= |g[b]|
    ensures k < |g[b]| ==> g[b][k] < |g|
  {
    assert k < |g[b]| ==> Edge(g, b, g[b][k]);
  }

  function AllBlocks(n: nat): (s: set<nat>)
    ensures forall b: nat :: b in s <==> b < n
  {
    if n == 0 then {} else {n - 1} + AllBlocks(n - 1)
  }

  /** Successors of the block on top of the stack that were not looked at. */
  function Unexplored(g: Graph, stack: seq<(nat, nat)>): int {
    if stack == [] || stack[|stack| - 1].0 >= |g| then 0
    else |g[stack[|stack| - 1].0]| - stack[|stack| - 1].1
  }

  lemma SearchStarts(g: Graph, po: seq<nat>)
    requires hide *; Valid(g) && |po| == |g|
    ensures Searching(g, [(0, 0)], {0}, [], po, [0], map[0 := 0], {}, map[0 := 0])
  {
  }

  lemma UnexploredTop(g: Graph, stack: seq<(nat, nat)>, b: nat, k: nat)
    requires stack != [] && stack[|stack| - 1] == (b, k) && b < |g|
    ensures Unexplored(g, stack) == |g[b]| - k
  {
  }

  lemma SearchEnds(g: Graph, seen: set<nat>, order: seq<nat>, po: seq<nat>,
                   path: seq<nat>, open: map<nat, nat>, done: set<nat>, up: map<nat, nat>)
    requires Valid(g) && AllReachable(g) && Searching(g, [], seen, order, po, path, open, done, up)
    ensures IsPostorder(g, order, po, up)
  {
    hide AllReachable, IsClosed, IsFinished, IsPostorder, Valid;
    assert path == [] && open == map[];
    FinishedIsPostorder(g, order, po, done, up);
  }

  lemma ListsBlocks(g: Graph, order: seq<nat>, po: seq<nat>, up: map<nat, nat>)
    requires IsPostorder(g, order, po, up)
    ensures |po| == |g| && order != [] && order[|order| - 1] == 0
    ensures forall b: nat :: b < |g| ==> po[b] < |order| && order[po[b]] == b
    ensures forall i: nat :: i < |order| ==> order[i] < |g| && po[order[i]] == i
  {
  }

  /** Iterative depth-first search. */
  method Postorder(g: Graph) returns (order: seq<nat>, po: seq<nat>, ghost up: map<nat, nat>)
    requires Valid(g) && AllReachable(g)
    ensures IsPostorder(g, order, po, up)
    ensures |po| == |g| && order != [] && order[|order| - 1] == 0
    ensures forall b: nat :: b < |g| ==> po[b] < |order| && order[po[b]] == b
    ensures forall i: nat :: i < |order| ==> order[i] < |g| && po[order[i]] == i
  {
    hide *;
    order, po, up := [], seq(|g|, _ => 0), map[0 := 0];
    var seen := {0};
    var stack: seq<(nat, nat)> := [(0, 0)];
    ghost var path, open: map<nat, nat>, done: set<nat> := [0], map[0 := 0], {};
    SearchStarts(g, po);
    while stack != []
      invariant Searching(g, stack, seen, order, po, path, open, done, up)
      decreases AllBlocks(|g|) - seen, |stack|, Unexplored(g, stack)
    {
      var last := |stack| - 1;
      var (bb, idx) := stack[last];
      SearchFacts(g, stack, seen, order, po, path, open, done, up, last, bb, idx);
      if idx < |g[bb]| {
        var s := g[bb][idx];
        if s in seen {
          AdvanceKeepsSearching(g, stack, seen, order, po, path, open, done, up, last, bb, idx);
          UnexploredTop(g, stack, bb, idx);
          UnexploredTop(g, stack[..last] + [(bb, idx + 1)], bb, idx + 1);
          stack := stack[..last] + [(bb, idx + 1)];
        } else {
          PushKeepsSearching(g, stack, seen, order, po, path, open, done, up, last, bb, idx, s);
          assert s in AllBlocks(|g|) - seen;
          stack, seen := stack[..last] + [(bb, idx + 1)] + [(s, 0)], seen + {s};
          path, open, up := path + [s], open[s := |path|], up[s := bb];
        }
      } else {
        FinishKeepsSearching(g, stack, seen, order, po, path, open, done, up, last, bb);
        po, order, stack := po[bb := |order|], order + [bb], stack[..last];
        path, open, done := path[..last], open - {bb}, done + {bb};
      }
    }
    SearchEnds(g, seen, order, po, path, open, done, up);
    ListsBlocks(g, order, po, up);
  }

  // ----- the class -----

  lemma ClimbKeepsCommon(idom: map<nat, nat>, po: seq<nat>, x: nat, y: nat)
    requires IsTree(idom, po) && x in idom && y in idom && po[x] < po[y]
    ensures idom[x] in idom && po[idom[x]] > po[x]
    ensures Chain(idom, po, idom[x]) * Chain(idom, po, y) == Chain(idom, po, x) * Chain(idom, po, y)
    ensures Chain(idom, po, y) * Chain(idom, po, idom[x]) == Chain(idom, po, y) * Chain(idom, po, x)
  {
    assert 0 in idom && po[y] <= po[0];
    assert Parented(idom, po, x);
    assert Chain(idom, po, x) == {x} + Chain(idom, po, idom[x]);
  }

  lemma CommonSnoc(idom: map<nat, nat>, po: seq<nat>, ps: seq<nat>, p: nat, c: nat)
    requires IsTree(idom, po)
    ensures Common(idom, po, ps + [p], c) <==> Common(idom, po, ps, c) && (p in idom ==> c in Chain(idom, po, p))
  {
  }

  /** The lowest block that is above both, found by walking up from the lower number. */
  method Intersect(idom: map<nat, nat>, po: seq<nat>, b1: nat, b2: nat) returns (r: nat)
    requires IsTree(idom, po) && b1 in idom && b2 in idom
    requires forall a: nat, b: nat :: a in idom && b in idom && po[a] == po[b] ==> a == b
    ensures r in idom && Chain(idom, po, r) == Chain(idom, po, b1) * Chain(idom, po, b2)
  {
    hide Chain;
    var x, y := b1, b2;
    while x != y
      invariant x in idom && y in idom
      invariant Chain(idom, po, x) * Chain(idom, po, y) == Chain(idom, po, b1) * Chain(idom, po, b2)
      decreases po[0] - po[x] + po[0] - po[y]
    {
      ghost var x0, y0 := x, y;
      while po[x] < po[y]
        invariant x in idom && po[x] >= po[x0]
        invariant x == x0 || po[x] > po[x0]
        invariant Chain(idom, po, x) * Chain(idom, po, y) == Chain(idom, po, b1) * Chain(idom, po, b2)
        decreases po[0] - po[x]
      {
        ClimbKeepsCommon(idom, po, x, y);
        x := idom[x];
      }
      while po[y] < po[x]
        invariant y in idom && po[y] >= po[y0]
        invariant y == y0 || po[y] > po[y0]
        invariant Chain(idom, po, x) * Chain(idom, po, y) == Chain(idom, po, b1) * Chain(idom, po, b2)
        decreases po[0] - po[y]
      {
        ClimbKeepsCommon(idom, po, y, x);
        y := idom[y];
      }
    }
    r := x;
  }

  /** The meeting point of all predecessors that have a parent. */
  method MeetPreds(idom: map<nat, nat>, po: seq<nat>, ps: seq<nat>) returns (n: Option<nat>)
    requires IsTree(idom, po)
    requires forall a: nat, b: nat :: a in idom && b in idom && po[a] == po[b] ==> a == b
    ensures n.None? <==> forall p :: p in ps ==> p !in idom
    ensures n.Some? ==> n.value in idom
    ensures n.Some? ==> forall c :: c in Chain(idom, po, n.value) <==> Common(idom, po, ps, c)
  {
    hide Chain, IsTree;
    n := None;
    var j := 0;
    while j < |ps|
      invariant 0 <= j <= |ps|
      invariant n.None? <==> forall p :: p in ps[..j] ==> p !in idom
      invariant n.Some? ==> n.value in idom
      invariant n.Some? ==> forall c :: c in Chain(idom, po, n.value) <==> Common(idom, po, ps[..j], c)
    {
      var p := ps[j];
      assert ps[..j + 1] == ps[..j] + [p];
      forall c {
        CommonSnoc(idom, po, ps[..j], p, c);
      }
      hide Common, Chain;
      if p in idom {
        if n.None? {
          n := Some(p);
        } else {
          var r := Intersect(idom, po, p, n.value);
          n := Some(r);
        }
      }
      j := j + 1;
    }
    assert ps[..j] == ps;
  }

  // ----- one sweep of the iteration -----

  /** The blocks numbered `i` and above were visited in this sweep, and none moved unless `changed`. */
  ghost predicate InSweep(g: Graph, preds: seq<seq<nat>>, idom: map<nat, nat>, order: seq<nat>, po: seq<nat>,
                          up: map<nat, nat>, i: int, start: map<nat, nat>, changed: bool)
    requires IsPostorder(g, order, po, up) && ArePreds(g, preds)
  {
    && 0 <= i < |order| && Sweeping(g, preds, idom, po, up, i)
    && (forall b: nat :: b < |g| && po[b] >= i ==> b in idom)
    && (!changed ==> idom == start && SettledFrom(g, preds, idom, po, i))
    && (changed ==> Rank(idom, po, |g|) > Rank(start, po, |g|))
  }

  ghost predicate SettledFrom(g: Graph, preds: seq<seq<nat>>, idom: map<nat, nat>, po: seq<nat>, i: int)
    requires IsTree(idom, po) && |po| == |g| == |preds|
    requires forall b: nat :: b < |g| && po[b] >= i ==> b in idom
  {
    forall b: nat {:trigger po[b]} :: b < |g| && b != 0 && po[b] >= i ==>
      Parented(idom, po, b) && Fixpoint(preds, idom, po, b)
  }

  lemma OrderInjective(g: Graph, order: seq<nat>, po: seq<nat>, up: map<nat, nat>)
    requires IsPostorder(g, order, po, up)
    ensures forall a: nat, b: nat :: a < |g| && b < |g| && po[a] == po[b] ==> a == b
    ensures po[0] == |order| - 1
  {
  }

  /** The meeting point found by the iteration is the one the step needs. */
  lemma MeetIsVisit(g: Graph, preds: seq<seq<nat>>, idom: map<nat, nat>, order: seq<nat>, po: seq<nat>,
                    up: map<nat, nat>, i: int, start: map<nat, nat>, changed: bool, b: nat, n: Option<nat>)
    requires hide Chain, IsSearchTree, Kept, SettledFrom, Visit; IsPostorder(g, order, po, up) && ArePreds(g, preds)
    requires InSweep(g, preds, idom, order, po, up, i, start, changed) && i > 0 && b == order[i - 1]
    requires n.None? <==> forall p :: p in preds[b] ==> p !in idom
    requires n.Some? ==> n.value in idom && forall c :: c in Chain(idom, po, n.value) <==> Common(idom, po, preds[b], c)
    ensures n.Some? && Visit(g, preds, idom, po, up, i, b, n.value)
  {
    hide PredList, Rank, SettledFrom, Sweeping;
    OrderInjective(g, order, po, up);
    PredsAreEdges(g, preds);
    assert b != 0 && Parented(up, po, b) && Edge(g, up[b], b);
    assert up[b] in preds[b] && up[b] in idom;
  }

  lemma QuietVisit(g: Graph, preds: seq<seq<nat>>, idom: map<nat, nat>, order: seq<nat>, po: seq<nat>,
                   up: map<nat, nat>, i: int, start: map<nat, nat>, changed: bool, b: nat, n: nat)
    requires hide ArePreds, IsSearchTree, SettledFrom, Sweeping, Visit;
             IsPostorder(g, order, po, up) && ArePreds(g, preds)
    requires InSweep(g, preds, idom, order, po, up, i, start, changed) && i > 0 && b == order[i - 1]
    requires Visit(g, preds, idom, po, up, i, b, n) && b in idom && idom[b] == n
    ensures InSweep(g, preds, idom, order, po, up, i - 1, start, changed)
  {
    hide ArePreds, Chain, IsSearchTree, IsTree, Rank, SettledFrom, Sweeping, Visit;
    VisitRises(g, preds, idom, po, up, i, b, n);
    VisitKeepsSweeping(g, preds, idom, po, up, i, b, n);
    SameUpdate(idom, b);
    QuietVisitSettles(g, preds, idom, po, up, i, b, n);
    hide Sweeping, SettledFrom, Visit, IsSearchTree;
  }

  lemma QuietVisitSettles(g: Graph, preds: seq<seq<nat>>, idom: map<nat, nat>, po: seq<nat>, up: map<nat, nat>,
                          i: int, b: nat, n: nat)
    requires IsSearchTree(g, po, up) && ArePreds(g, preds)
    requires Visit(g, preds, idom, po, up, i, b, n) && b in idom && idom[b] == n && Parented(idom, po, b)
    requires forall c: nat :: c < |g| && po[c] >= i ==> c in idom
    ensures forall c: nat :: c < |g| && po[c] >= i - 1 ==> c in idom
    ensures SettledFrom(g, preds, idom, po, i) ==> SettledFrom(g, preds, idom, po, i - 1)
  {
    hide Chain, IsSearchTree, Kept, PredList;
    assert Fixpoint(preds, idom, po, b);
    hide Sweeping, Fixpoint;
  }

  lemma SameUpdate(m: map<nat, nat>, b: nat)
    requires b in m
    ensures m[b := m[b]] == m
  {
  }

  lemma MovingVisit(g: Graph, preds: seq<seq<nat>>, idom: map<nat, nat>, order: seq<nat>, po: seq<nat>,
                    up: map<nat, nat>, i: int, start: map<nat, nat>, changed: bool, b: nat, n: nat)
    requires hide ArePreds, IsSearchTree, SettledFrom, Sweeping, Visit;
             IsPostorder(g, order, po, up) && ArePreds(g, preds)
    requires InSweep(g, preds, idom, order, po, up, i, start, changed) && i > 0 && b == order[i - 1]
    requires Visit(g, preds, idom, po, up, i, b, n) && !(b in idom && idom[b] == n)
    ensures InSweep(g, preds, idom[b := n], order, po, up, i - 1, start, true)
  {
    hide ArePreds, Chain, IsSearchTree, Kept, SettledFrom;
    VisitRises(g, preds, idom, po, up, i, b, n);
    VisitKeepsSweeping(g, preds, idom, po, up, i, b, n);
    hide Sweeping, SettledFrom;
    RankRises(idom, po, b, n, |g|);
  }

  lemma QuietSweepIsExact(g: Graph, preds: seq<seq<nat>>, idom: map<nat, nat>, order: seq<nat>, po: seq<nat>,
                          up: map<nat, nat>, start: map<nat, nat>)
    requires hide *; IsPostorder(g, order, po, up) && ArePreds(g, preds)
    requires InSweep(g, preds, idom, order, po, up, 0, start, false)
    ensures Analysed(g, preds, idom, po)
  {
    hide Chain, Dominates, Fixpoint, NotBelow, PredList, Rank, Settled;
    forall b: nat | b < |g|
      ensures b in idom && HasDominators(g, idom, po, b)
      ensures b != 0 ==> Parented(idom, po, b) && Fixpoint(preds, idom, po, b)
    {
      assert po[b] >= 0;
      assert Kept(g, preds, idom, po, up, 0, b);
    }
    StableIsExact(g, preds, idom, po);
  }

  lemma SweepBegins(g: Graph, preds: seq<seq<nat>>, idom: map<nat, nat>, order: seq<nat>, po: seq<nat>,
                    up: map<nat, nat>)
    requires hide ArePreds, InSweep, IsTree, Sweeping;
             IsPostorder(g, order, po, up) && ArePreds(g, preds) && Sweeping(g, preds, idom, po, up, po[0])
    ensures InSweep(g, preds, idom, order, po, up, |order| - 1, idom, false)
  {
    OrderInjective(g, order, po, up);
  }

  lemma SweepFacts(g: Graph, preds: seq<seq<nat>>, idom: map<nat, nat>, order: seq<nat>, po: seq<nat>,
                   up: map<nat, nat>, i: int, start: map<nat, nat>, changed: bool)
    requires hide ArePreds, IsPostorder, Rank, SettledFrom, Sweeping;
             IsPostorder(g, order, po, up) && ArePreds(g, preds)
    requires InSweep(g, preds, idom, order, po, up, i, start, changed)
    ensures 0 <= i < |order| && IsTree(idom, po) && |preds| == |g|
    ensures i > 0 ==> order[i - 1] < |g|
    ensures forall a: nat, b: nat :: a in idom && b in idom && po[a] == po[b] ==> a == b
  {
    OrderInjective(g, order, po, up);
  }

  lemma SweepEnds(g: Graph, preds: seq<seq<nat>>, idom: map<nat, nat>, order: seq<nat>, po: seq<nat>,
                  up: map<nat, nat>, i: int, start: map<nat, nat>, changed: bool)
    requires hide Analysed, ArePreds, InSweep, IsTree, Sweeping; IsPostorder(g, order, po, up) && ArePreds(g, preds)
    requires InSweep(g, preds, idom, order, po, up, i, start, changed) && i <= 0
    ensures Sweeping(g, preds, idom, po, up, po[0])
    ensures changed ==> Rank(idom, po, |g|) > Rank(start, po, |g|)
    ensures !changed ==> idom == start && Analysed(g, preds, idom, po)
  {
    hide Exact, Fixpoint, IsSearchTree, IsTree, Kept, PredList, SettledFrom, Stable;
    if !changed {
      QuietSweepIsExact(g, preds, idom, order, po, up, start);
    }
    SweepingRestarts(g, preds, idom, po, up);
  }

  /** One sweep in reverse postorder, the entry left out. */
  method Sweep(g: Graph, preds: seq<seq<nat>>, order: seq<nat>, po: seq<nat>, ghost up: map<nat, nat>,
               start: map<nat, nat>)
    returns (idom: map<nat, nat>, changed: bool)
    requires hide Analysed, ArePreds, IsTree, Rank, Sweeping;
             IsPostorder(g, order, po, up) && ArePreds(g, preds) && Sweeping(g, preds, start, po, up, po[0])
    ensures Sweeping(g, preds, idom, po, up, po[0])
    ensures changed ==> Rank(idom, po, |g|) > Rank(start, po, |g|)
    ensures !changed ==> idom == start && Analysed(g, preds, idom, po)
  {
    hide *;
    idom, changed := start, false;
    var i := |order| - 1;
    SweepBegins(g, preds, idom, order, po, up);
    while i > 0
      invariant InSweep(g, preds, idom, order, po, up, i, start, changed)
    {
      SweepFacts(g, preds, idom, order, po, up, i, start, changed);
      var b := order[i - 1];
      var n := MeetPreds(idom, po, preds[b]);
      MeetIsVisit(g, preds, idom, order, po, up, i, start, changed, b, n);
      if !(b in idom && idom[b] == n.value) {
        MovingVisit(g, preds, idom, order, po, up, i, start, changed, b, n.value);
        idom := idom[b := n.value];
        changed := true;
      } else {
        QuietVisit(g, preds, idom, order, po, up, i, start, changed, b, n.value);
      }
      i := i - 1;
    }
    SweepEnds(g, preds, idom, order, po, up, i, start, changed);
  }

  lemma RankWithin(g: Graph, preds: seq<seq<nat>>, idom: map<nat, nat>, po: seq<nat>, up: map<nat, nat>, i: int)
    requires hide ArePreds, IsTree, Rank, Sweeping;
             IsSearchTree(g, po, up) && ArePreds(g, preds) && Sweeping(g, preds, idom, po, up, i)
    ensures Rank(idom, po, |g|) <= |g| * (1 + po[0])
  {
    RankBounded(idom, po, |g|);
  }

  lemma PostorderFacts(g: Graph, order: seq<nat>, po: seq<nat>, up: map<nat, nat>)
    requires IsPostorder(g, order, po, up)
    ensures IsSearchTree(g, po, up) && |po| > 0
  {
  }

  /** The Cooper-Harvey-Kennedy iteration: sweeps until nothing changes. */
  method Iterate(g: Graph, preds: seq<seq<nat>>, order: seq<nat>, po: seq<nat>, ghost up: map<nat, nat>)
    returns (idom: map<nat, nat>)
    requires IsPostorder(g, order, po, up) && ArePreds(g, preds)
    ensures Analysed(g, preds, idom, po)
  {
    hide *;
    idom := map[0 := 0];
    var changed := true;
    PostorderFacts(g, order, po, up);
    SweepingStarts(g, preds, po, up);
    ghost var bound := |g| * (1 + po[0]);
    RankWithin(g, preds, idom, po, up, po[0]);
    while changed
      invariant Sweeping(g, preds, idom, po, up, po[0]) && Rank(idom, po, |g|) <= bound
      invariant !changed ==> Analysed(g, preds, idom, po)
      decreases bound - Rank(idom, po, |g|), changed
    {
      idom, changed := Sweep(g, preds, order, po, up, idom);
      RankWithin(g, preds, idom, po, up, po[0]);
    }
  }

  // ----- the analysis object -----

  /** The children of every block in the tree, each once. */
  ghost predicate AreChildren(g: Graph, idom: map<nat, nat>, children: seq<seq<nat>>) {
    && |children| == |g|
    && (forall x: nat :: x < |g| ==> Distinct(children[x]))
    && (forall x: nat, b: nat :: x < |g| ==>
          (b in children[x] <==> b < |g| && b != 0 && b in idom && idom[b] == x))
  }

  ghost predicate AreFrontiers(g: Graph, preds: seq<seq<nat>>, idom: map<nat, nat>, po: seq<nat>, df: seq<seq<nat>>)
    requires IsTree(idom, po)
  {
    && |df| == |g|
    && (forall x: nat :: x < |g| ==> Distinct(df[x]))
    && (forall x: nat, b: nat :: x < |g| ==> (b in df[x] <==> Recorded(idom, po, preds, x, b)))
  }

  /** An empty list for every block. */
  function NoLists(n: nat): (r: seq<seq<nat>>)
    ensures |r| == n && forall i :: 0 <= i < n ==> r[i] == []
  {
    seq(n, _ => [])
  }

  lemma TargetsInRange(fn: Function, b: nat)
    requires Valid(Cfg(fn)) && b < |fn.blocks|
    ensures Cfg(fn)[b] == Targets(fn.blocks[b].term)
    ensures forall k :: 0 <= k < |Cfg(fn)[b]| ==> Cfg(fn)[b][k] < |fn.blocks|
  {
    forall k | 0 <= k < |Cfg(fn)[b]|
      ensures Cfg(fn)[b][k] < |fn.blocks|
    {
      assert Edge(Cfg(fn), b, Cfg(fn)[b][k]);
    }
  }

  /** The edges that leave the first `b` blocks are in both maps. */
  ghost predicate LinkedUpTo(g: Graph, b: nat, preds: seq<seq<nat>>, succs: seq<seq<nat>>)
    requires b <= |g|
  {
    && |preds| == |succs| == |g|
    && (forall x: nat :: x < |g| ==> succs[x] == if x < b then g[x] else [])
    && (forall x: nat :: x < |g| ==> preds[x] == PredList(g, x, b))
  }

  lemma LinksStart(g: Graph, preds: seq<seq<nat>>, succs: seq<seq<nat>>)
    requires preds == NoLists(|g|) && succs == NoLists(|g|)
    ensures LinkedUpTo(g, 0, preds, succs)
  {
  }

  lemma LinksShape(g: Graph, b: nat, preds: seq<seq<nat>>, succs: seq<seq<nat>>)
    requires b < |g| && LinkedUpTo(g, b, preds, succs)
    ensures |preds| == |succs| == |g| && succs[b] == []
  {
  }

  lemma LinksEnd(g: Graph, preds: seq<seq<nat>>, succs: seq<seq<nat>>)
    requires LinkedUpTo(g, |g|, preds, succs)
    ensures succs == g && ArePreds(g, preds)
  {
  }

  lemma AddEdgesLinks(g: Graph, b: nat, preds0: seq<seq<nat>>, succs0: seq<seq<nat>>,
                      preds: seq<seq<nat>>, succs: seq<seq<nat>>)
    requires b < |g| && LinkedUpTo(g, b, preds0, succs0)
    requires |succs| == |preds| == |preds0| && succs[b] == succs0[b] + g[b]
    requires forall x: nat :: x < |succs| && x != b ==> succs[x] == succs0[x]
    requires forall x: nat :: x < |preds| ==> preds[x] == preds0[x] + Occurrences(g[b], x, b)
    ensures LinkedUpTo(g, b + 1, preds, succs)
  {
  }

  // ----- runners -----

  /** `b` was added to the lists of the blocks in `xs`. */
  ghost predicate Extended(df0: seq<seq<nat>>, df: seq<seq<nat>>, b: nat, xs: set<nat>) {
    && |df| == |df0|
    && (forall x: nat :: x < |df| ==> df[x] == if x in xs && b !in df0[x] then df0[x] + [b] else df0[x])
  }

  lemma RunnerAdvances(idom: map<nat, nat>, po: seq<nat>, p: nat, b: nat, runner: nat,
                       df0: seq<seq<nat>>, df: seq<seq<nat>>, df': seq<seq<nat>>)
    requires IsTree(idom, po) && p in idom && b in idom && idom[b] in idom
    requires runner in Chain(idom, po, p) && idom[b] in Chain(idom, po, runner) && runner != idom[b]
    requires Extended(df0, df, b, Chain(idom, po, p) - Chain(idom, po, runner)) && runner < |df|
    requires df' == if b in df[runner] then df else df[runner := df[runner] + [b]]
    ensures idom[runner] in Chain(idom, po, p) && idom[b] in Chain(idom, po, idom[runner])
    ensures po[idom[runner]] > po[runner]
    ensures Extended(df0, df', b, Chain(idom, po, p) - Chain(idom, po, idom[runner]))
  {
    assert runner != 0;
    assert Parented(idom, po, runner);
    assert Chain(idom, po, runner) == {runner} + Chain(idom, po, idom[runner]);
    ChainUpward(idom, po, runner, p);
  }

  /** The frontiers of the joins before `b`, and at `b` those of its first `j` predecessors. */
  ghost predicate FrontiersUpTo(g: Graph, preds: seq<seq<nat>>, idom: map<nat, nat>, po: seq<nat>,
                                df: seq<seq<nat>>, b: nat, j: nat)
    requires IsTree(idom, po)
  {
    && |df| == |g| == |preds|
    && (forall x: nat :: x < |df| ==> Distinct(df[x]))
    && (forall x: nat, y: nat :: x < |df| ==>
          (y in df[x]
           <==> (y < b && Recorded(idom, po, preds, x, y)) || (y == b && RecordedBy(idom, po, preds, x, b, j))))
  }

  ghost predicate RecordedBy(idom: map<nat, nat>, po: seq<nat>, preds: seq<seq<nat>>, x: nat, b: nat, j: nat)
    requires IsTree(idom, po)
  {
    && b < |preds| && |preds[b]| >= 2
    && exists k :: 0 <= k < j && k < |preds[b]| && Passes(idom, po, x, preds[b][k], b)
  }

  lemma RecordedByAll(idom: map<nat, nat>, po: seq<nat>, preds: seq<seq<nat>>, x: nat, b: nat)
    requires IsTree(idom, po) && b < |preds|
    ensures RecordedBy(idom, po, preds, x, b, |preds[b]|) <==> Recorded(idom, po, preds, x, b)
  {
    if Recorded(idom, po, preds, x, b) {
      var p :| p in preds[b] && Passes(idom, po, x, p, b);
      var k :| 0 <= k < |preds[b]| && preds[b][k] == p;
    }
  }

  lemma FrontiersStart(g: Graph, preds: seq<seq<nat>>, idom: map<nat, nat>, po: seq<nat>, df: seq<seq<nat>>)
    requires hide Chain, Dominates, FrontiersUpTo, Stable;
             Analysed(g, preds, idom, po) && |df| == |g| && forall x :: 0 <= x < |df| ==> df[x] == []
    ensures IsTree(idom, po) && FrontiersUpTo(g, preds, idom, po, df, 0, 0)
    ensures |preds| == |g| && forall x :: x in idom ==> x < |g|
  {
  }

  lemma FrontiersEnd(g: Graph, preds: seq<seq<nat>>, idom: map<nat, nat>, po: seq<nat>, df: seq<seq<nat>>)
    requires IsTree(idom, po) && FrontiersUpTo(g, preds, idom, po, df, |g|, 0)
    ensures AreFrontiers(g, preds, idom, po, df)
  {
    assert forall x: nat, y: nat :: Recorded(idom, po, preds, x, y) ==> y < |g|;
  }

  lemma NextJoin(g: Graph, preds: seq<seq<nat>>, idom: map<nat, nat>, po: seq<nat>, df: seq<seq<nat>>, b: nat, j: nat)
    requires IsTree(idom, po) && FrontiersUpTo(g, preds, idom, po, df, b, j) && b < |preds|
    requires j == |preds[b]| || |preds[b]| < 2
    ensures |df| == |g| && FrontiersUpTo(g, preds, idom, po, df, b + 1, 0)
  {
    forall x: nat, y: nat | x < |df|
      ensures y in df[x] <==> y < b + 1 && Recorded(idom, po, preds, x, y)
    {
      RecordedByAll(idom, po, preds, x, b);
    }
  }

  lemma NextPred(g: Graph, preds: seq<seq<nat>>, idom: map<nat, nat>, po: seq<nat>,
                 df: seq<seq<nat>>, df': seq<seq<nat>>, b: nat, j: nat)
    requires IsTree(idom, po) && FrontiersUpTo(g, preds, idom, po, df, b, j)
    requires b < |preds| && 2 <= |preds[b]| && j < |preds[b]|
    requires preds[b][j] in idom && b in idom && idom[b] in idom
    requires Extended(df, df', b, Chain(idom, po, preds[b][j]) - Chain(idom, po, idom[b]))
    ensures |df'| == |g| && FrontiersUpTo(g, preds, idom, po, df', b, j + 1)
  {
    hide Chain, IsTree, Recorded;
    forall x: nat, y: nat | x < |df'|
      ensures y in df'[x]
         <==> (y < b && Recorded(idom, po, preds, x, y)) || (y == b && RecordedBy(idom, po, preds, x, b, j + 1))
    {
      assert RecordedBy(idom, po, preds, x, b, j + 1) <==>
             RecordedBy(idom, po, preds, x, b, j) || Passes(idom, po, x, preds[b][j], b);
      assert y in df'[x] <==> y in df[x] || (y == b && Passes(idom, po, x, preds[b][j], b));
    }
  }

  class DominatorTree {
    var preds: seq<seq<nat>>
    var succs: seq<seq<nat>>
    var idom: map<nat, nat>
    var df: seq<seq<nat>>
    var children: seq<seq<nat>>
    ghost var po: seq<nat>

    /** The object describes `g`. */
    ghost predicate Describes(g: Graph)
      reads this
    {
      && succs == g && Analysed(g, preds, idom, po)
      && AreChildren(g, idom, children) && AreFrontiers(g, preds, idom, po, df)
    }

    constructor ()
    {
      preds, succs, idom, df, children, po := [], [], map[], [], [], [];
    }

    method BuildCfg(fn: Function)
      requires Valid(Cfg(fn))
      modifies `preds, `succs
      ensures succs == Cfg(fn) && ArePreds(Cfg(fn), preds)
    {
      hide *;
      preds, succs := NoLists(|fn.blocks|), NoLists(|fn.blocks|);
      ghost var g := Cfg(fn);
      var b := 0;
      LinksStart(g, preds, succs);
      while b < |fn.blocks|
        invariant 0 <= b <= |fn.blocks| == |g| && LinkedUpTo(g, b, preds, succs)
      {
        var ss := Targets(fn.blocks[b].term);
        TargetsInRange(fn, b);
        LinksShape(g, b, preds, succs);
        ghost var preds0, succs0 := preds, succs;
        AddEdges(b, ss);
        AddEdgesLinks(g, b, preds0, succs0, preds, succs);
        b := b + 1;
      }
      LinksEnd(g, preds, succs);
    }

    method AddEdges(b: nat, ss: seq<nat>)
      requires |preds| == |succs| && b < |succs|
      requires forall k :: 0 <= k < |ss| ==> ss[k] < |preds|
      modifies `preds, `succs
      ensures |succs| == |preds| == |old(preds)| && succs[b] == old(succs[b]) + ss
      ensures forall x: nat :: x < |succs| && x != b ==> succs[x] == old(succs[x])
      ensures forall x: nat :: x < |preds| ==> preds[x] == old(preds[x]) + Occurrences(ss, x, b)
    {
      var j := 0;
      while j < |ss|
        invariant 0 <= j <= |ss| && |succs| == |preds| == |old(preds)| && succs[b] == old(succs[b]) + ss[..j]
        invariant forall x: nat :: x < |succs| && x != b ==> succs[x] == old(succs[x])
        invariant forall x: nat :: x < |preds| ==> preds[x] == old(preds[x]) + Occurrences(ss[..j], x, b)
      {
        var s := ss[j];
        assert ss[..j + 1][..j] == ss[..j];
        forall x: nat
          ensures Occurrences(ss[..j + 1], x, b) == Occurrences(ss[..j], x, b) + if s == x then [b] else []
        {
        }
        hide Occurrences;
        succs := succs[b := succs[b] + [s]];
        preds := preds[s := preds[s] + [b]];
        j := j + 1;
      }
      assert ss[..j] == ss;
    }

    /** Hangs every block but the entry below its parent, in reverse postorder. */
    method FillChildren(order: seq<nat>, ghost up: map<nat, nat>, ghost g: Graph)
      requires IsPostorder(g, order, po, up) && IsTree(idom, po)
      requires forall b: nat :: b < |g| ==> b in idom
      requires |succs| == |g|
      modifies `children
      ensures AreChildren(g, idom, children)
    {
      children := NoLists(|succs|);
      var i := |order|;
      while i > 0
        invariant 0 <= i <= |order| && |children| == |g|
        invariant forall x: nat :: x < |g| ==> Distinct(children[x])
        invariant forall x: nat, b: nat :: x < |g| ==>
                    (b in children[x] <==> b < |g| && b != 0 && po[b] >= i && idom[b] == x)
      {
        i := i - 1;
        var b := order[i];
        if b != 0 {
          assert Parented(idom, po, b);
          children := children[idom[b] := children[idom[b]] + [b]];
        }
      }
    }

    /** Walks from a predecessor of a join up to the join's parent. */
    method RunFrom(p: nat, b: nat)
      requires IsTree(idom, po) && p in idom && b in idom && idom[b] in Chain(idom, po, p)
      requires forall x :: x in idom ==> x < |df|
      modifies `df
      ensures Extended(old(df), df, b, Chain(idom, po, p) - Chain(idom, po, idom[b]))
    {
      var runner := p;
      while runner != idom[b]
        invariant runner in Chain(idom, po, p) && idom[b] in Chain(idom, po, runner)
        invariant Extended(old(df), df, b, Chain(idom, po, p) - Chain(idom, po, runner))
        decreases po[0] - po[runner]
      {
        ghost var before := df;
        if b !in df[runner] {
          df := df[runner := df[runner] + [b]];
        }
        RunnerAdvances(idom, po, p, b, runner, old(df), before, df);
        runner := idom[runner];
      }
    }

    method FillFrontiers(ghost g: Graph)
      requires hide AreFrontiers, Chain, Dominates, IsTree, Stable; Analysed(g, preds, idom, po) && |succs| == |g|
      modifies `df
      ensures AreFrontiers(g, preds, idom, po, df)
    {
      hide *;
      df := NoLists(|succs|);
      FrontiersStart(g, preds, idom, po, df);
      var b := 0;
      while b < |succs|
        invariant 0 <= b <= |succs| && |df| == |g| && FrontiersUpTo(g, preds, idom, po, df, b, 0)
      {
        if |preds[b]| >= 2 {
          var j := 0;
          while j < |preds[b]|
            invariant 0 <= j <= |preds[b]| && |df| == |g| && FrontiersUpTo(g, preds, idom, po, df, b, j)
          {
            RunnerReachesParent(g, preds, idom, po, preds[b][j], b);
            ghost var before := df;
            RunFrom(preds[b][j], b);
            NextPred(g, preds, idom, po, before, df, b, j);
            j := j + 1;
          }
          NextJoin(g, preds, idom, po, df, b, j);
        } else {
          NextJoin(g, preds, idom, po, df, b, 0);
        }
        b := b + 1;
      }
      FrontiersEnd(g, preds, idom, po, df);
    }

    /** Everything: the graph, the parents, the children and the frontiers. */
    method Analyze(fn: Function)
      requires Valid(Cfg(fn)) && AllReachable(Cfg(fn))
      modifies this
      ensures Describes(Cfg(fn))
    {
      hide AllReachable, AreChildren, AreFrontiers, ArePreds, Cfg, Exact, Fixpoint, IsSearchTree;
      BuildCfg(fn);
      ghost var up;
      var order, numbers;
      order, numbers, up := Postorder(succs);
      po := numbers;
      idom := Iterate(succs, preds, order, numbers, up);
      FillChildren(order, up, succs);
      FillFrontiers(succs);
    }
  }

  /** Walks up the tree from `b`. */
  method IsDominatedBy(dt: DominatorTree, ghost g: Graph, d: nat, b: nat) returns (yes: bool)
    requires hide *; dt.Describes(g) && b < |g|
    ensures yes <==> Dominates(g, d, b)
  {
    hide ArePreds, Dominates, AreChildren, AreFrontiers, Valid;
    var cursor: nat := b;
    while true
      invariant cursor < |g| && (d in Chain(dt.idom, dt.po, b) <==> d in Chain(dt.idom, dt.po, cursor))
      decreases dt.po[0] - dt.po[cursor]
    {
      if cursor == d {
        return true;
      }
      var parent := dt.idom[cursor];
      if parent == cursor {
        assert cursor == 0;
        return false;
      }
      assert Chain(dt.idom, dt.po, cursor) == {cursor} + Chain(dt.idom, dt.po, parent);
      cursor := parent;
    }
  }
}
