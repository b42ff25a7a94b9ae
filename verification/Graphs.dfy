/** Control-flow graphs, dominance, and the chains of a parent map that grows towards the entry. */
module Graphs {

  /** Successor lists indexed by block number; block 0 is the entry. */
  type Graph = seq<seq<nat>>

  ghost predicate Valid(g: Graph) {
    && |g| > 0
    && forall a: nat, b: nat :: Edge(g, a, b) ==> b < |g|
  }

  predicate Edge(g: Graph, a: nat, b: nat) {
    a < |g| && b in g[a]
  }

  /** `p` is a path from the entry that ends in `b`. */
  ghost predicate PathTo(g: Graph, p: seq<nat>, b: nat) {
    && |p| > 0
    && p[|p| - 1] == b
    && if |p| == 1 then b == 0 else Edge(g, p[|p| - 2], b) && PathTo(g, p[..|p| - 1], p[|p| - 2])
  }

  ghost predicate Reachable(g: Graph, b: nat) {
    exists p :: PathTo(g, p, b)
  }

  ghost predicate AllReachable(g: Graph) {
    forall b: nat :: b < |g| ==> Reachable(g, b)
  }

  ghost predicate Dominates(g: Graph, d: nat, b: nat) {
    forall p :: PathTo(g, p, b) ==> d in p
  }

  ghost predicate StrictlyDominates(g: Graph, d: nat, b: nat) {
    d != b && Dominates(g, d, b)
  }

  lemma PathExtend(g: Graph, p: seq<nat>, a: nat, b: nat)
    requires PathTo(g, p, a) && Edge(g, a, b)
    ensures PathTo(g, p + [b], b)
  {
    assert (p + [b])[..|p + [b]| - 1] == p;
  }

  lemma SelfDominates(g: Graph, b: nat)
    ensures Dominates(g, b, b)
  {
    forall p | PathTo(g, p, b)
      ensures b in p
    {
      assert p[|p| - 1] == b;
    }
  }

  /** A dominator other than the block itself dominates every predecessor. */
  lemma DominatesPred(g: Graph, d: nat, p: nat, b: nat)
    requires Dominates(g, d, b) && d != b && Edge(g, p, b)
    ensures Dominates(g, d, p)
  {
    forall q | PathTo(g, q, p)
      ensures d in q
    {
      PathExtend(g, q, p, b);
      assert d in q + [b];
    }
  }

  lemma {:induction false} PathPrefix(g: Graph, p: seq<nat>, b: nat, i: nat)
    requires PathTo(g, p, b) && i < |p|
    ensures PathTo(g, p[..i + 1], p[i])
    decreases |p|
  {
    if i == |p| - 1 {
      assert p[..i + 1] == p;
    } else {
      assert p[..|p| - 1][..i + 1] == p[..i + 1];
      PathPrefix(g, p[..|p| - 1], p[|p| - 2], i);
    }
  }

  lemma DominatesThrough(g: Graph, a: nat, b: nat, c: nat)
    requires Dominates(g, a, b) && Dominates(g, b, c)
    ensures Dominates(g, a, c)
  {
    forall p | PathTo(g, p, c)
      ensures a in p
    {
      var i :| 0 <= i < |p| && p[i] == b;
      PathPrefix(g, p, c, i);
    }
  }

  lemma {:induction false} NoMutualDominators(g: Graph, a: nat, b: nat, p: seq<nat>)
    requires Dominates(g, a, b) && Dominates(g, b, a) && a != b
    ensures !PathTo(g, p, b)
    decreases |p|
  {
    if PathTo(g, p, b) {
      var i :| 0 <= i < |p| && p[i] == a;
      PathPrefix(g, p, b, i);
      var j :| 0 <= j < i + 1 && p[..i + 1][j] == b;
      PathPrefix(g, p[..i + 1], a, j);
      NoMutualDominators(g, a, b, p[..i + 1][..j + 1]);
    }
  }

  /** Two reachable blocks that dominate each other are the same. */
  lemma DominatesAntisymmetric(g: Graph, a: nat, b: nat)
    requires Dominates(g, a, b) && Dominates(g, b, a) && Reachable(g, b)
    ensures a == b
  {
    if a != b {
      var p :| PathTo(g, p, b);
      NoMutualDominators(g, a, b, p);
    }
  }

  // ----- sets of blocks -----

  ghost function UpTo(n: nat): (s: set<nat>)
    ensures forall b: nat :: b in s <==> b < n
  {
    if n == 0 then {} else UpTo(n - 1) + {n - 1}
  }

  ghost function Blocks(g: Graph): set<nat> {
    UpTo(|g|)
  }

  lemma GrowsByOne(g: Graph, loop: set<nat>, d: nat)
    requires loop <= Blocks(g) && d < |g| && d !in loop
    ensures loop + {d} <= Blocks(g) && |Blocks(g) - (loop + {d})| < |Blocks(g) - loop|
  {
    assert Blocks(g) - loop == (Blocks(g) - (loop + {d})) + {d};
  }

  // ----- predecessor lists -----

  /** One entry for each occurrence of `b` among the successors of block `a`. */
  function Occurrences(ss: seq<nat>, b: nat, a: nat): seq<nat> {
    if ss == [] then []
    else Occurrences(ss[..|ss| - 1], b, a) + (if ss[|ss| - 1] == b then [a] else [])
  }

  /** The predecessors of `b` among the first `n` blocks, in block order. */
  function PredList(g: Graph, b: nat, n: nat): seq<nat>
    requires n <= |g|
  {
    if n == 0 then [] else PredList(g, b, n - 1) + Occurrences(g[n - 1], b, n - 1)
  }

  lemma {:induction false} OccurrencesElements(ss: seq<nat>, b: nat, a: nat)
    ensures forall x: nat :: x in Occurrences(ss, b, a) <==> x == a && b in ss
    ensures b !in ss ==> Occurrences(ss, b, a) == []
  {
    if ss != [] {
      OccurrencesElements(ss[..|ss| - 1], b, a);
      assert ss == ss[..|ss| - 1] + [ss[|ss| - 1]];
    }
  }

  lemma {:induction false} PredListElements(g: Graph, b: nat, n: nat)
    requires n <= |g|
    ensures forall a: nat :: a in PredList(g, b, n) <==> a < n && Edge(g, a, b)
  {
    if n > 0 {
      PredListElements(g, b, n - 1);
      OccurrencesElements(g[n - 1], b, n - 1);
    }
  }

  ghost predicate Distinct(s: seq<nat>) {
    forall i, j :: 0 <= i < j < |s| ==> s[i] != s[j]
  }

  lemma {:induction false} OccurrencesAtMostOnce(ss: seq<nat>, b: nat, a: nat)
    requires Distinct(ss)
    ensures |Occurrences(ss, b, a)| <= 1
  {
    if ss != [] {
      OccurrencesAtMostOnce(ss[..|ss| - 1], b, a);
      OccurrencesElements(ss[..|ss| - 1], b, a);
    }
  }

  lemma {:induction false} PredListDistinct(g: Graph, b: nat, n: nat)
    requires n <= |g| && forall a :: 0 <= a < |g| ==> Distinct(g[a])
    ensures Distinct(PredList(g, b, n))
  {
    if n > 0 {
      var front, back := PredList(g, b, n - 1), Occurrences(g[n - 1], b, n - 1);
      PredListDistinct(g, b, n - 1);
      PredListElements(g, b, n - 1);
      OccurrencesAtMostOnce(g[n - 1], b, n - 1);
      OccurrencesElements(g[n - 1], b, n - 1);
      forall i, j | 0 <= i < j < |front + back|
        ensures (front + back)[i] != (front + back)[j]
      {
        if j >= |front| {
          assert (front + back)[j] in back;
          assert i < |front|;
          assert (front + back)[i] in front;
        }
      }
    }
  }

  ghost predicate ArePreds(g: Graph, preds: seq<seq<nat>>) {
    && |preds| == |g|
    && forall b: nat :: b < |g| ==> preds[b] == PredList(g, b, |g|)
  }

  lemma PredsAreEdges(g: Graph, preds: seq<seq<nat>>)
    requires ArePreds(g, preds)
    ensures forall a, b: nat :: b < |g| ==> (a in preds[b] <==> Edge(g, a, b))
  {
    forall b: nat | b < |g|
      ensures forall a: nat :: a in preds[b] <==> Edge(g, a, b)
    {
      PredListElements(g, b, |g|);
    }
  }

  // ----- postorder numberings and parent maps -----

  /** `po` gives every block a number, and the entry the largest. */
  ghost predicate Numbering(po: seq<nat>) {
    && |po| > 0
    && (forall b: nat :: b < |po| ==> po[b] <= po[0])
  }

  /** The parent of `b` is in the map and carries a larger number. */
  ghost predicate Parented(up: map<nat, nat>, po: seq<nat>, b: nat)
    requires b in up && forall x :: x in up ==> x < |po|
  {
    up[b] in up && po[up[b]] > po[b]
  }

  /** A map whose parents always carry a larger number; the entry is its own parent. */
  ghost predicate IsTree(up: map<nat, nat>, po: seq<nat>) {
    && Numbering(po)
    && 0 in up && up[0] == 0
    && (forall b :: b in up ==> b < |po|)
    && (forall b {:trigger Parented(up, po, b)} :: b in up && b != 0 ==> Parented(up, po, b))
  }

  /** A block and everything above it. */
  ghost function Chain(up: map<nat, nat>, po: seq<nat>, b: nat): (c: set<nat>)
    requires IsTree(up, po) && b in up
    ensures b in c && 0 in c
    ensures forall x :: x in c ==> x in up && (x == b || po[x] > po[b])
    ensures b != 0 ==> up[b] in up && po[up[b]] > po[b]
    decreases po[0] - po[b]
  {
    if b == 0 then {0} else
      assert Parented(up, po, b);
      {b} + Chain(up, po, up[b])
  }

  lemma {:induction false} ChainUpward(up: map<nat, nat>, po: seq<nat>, a: nat, b: nat)
    requires IsTree(up, po) && b in up && a in Chain(up, po, b)
    ensures Chain(up, po, a) <= Chain(up, po, b)
    decreases po[0] - po[b]
  {
    if a != b {
      ChainUpward(up, po, a, up[b]);
    }
  }

  lemma {:induction false} ChainLinear(up: map<nat, nat>, po: seq<nat>, a: nat, c: nat, b: nat)
    requires IsTree(up, po) && b in up
    requires a in Chain(up, po, b) && c in Chain(up, po, b) && po[a] <= po[c]
    ensures c in Chain(up, po, a)
    decreases po[0] - po[b]
  {
    if a != b {
      ChainLinear(up, po, a, c, up[b]);
    }
  }

  lemma MoveKeepsTree(up: map<nat, nat>, po: seq<nat>, x: nat, n: nat)
    requires IsTree(up, po) && x < |po| && x != 0 && n in up && po[n] > po[x]
    ensures IsTree(up[x := n], po)
  {
    var up' := up[x := n];
    assert forall b :: b in up' ==> b < |po|;
    forall b {:trigger Parented(up', po, b)} | b in up' && b != 0
      ensures Parented(up', po, b)
    {
      if b != x {
        assert Parented(up, po, b);
      }
    }
  }

  /** Moving `x` under a block `n` that is numbered higher keeps every chain that does not pass
      through `x` ... */
  lemma {:induction false} ChainKeep(up: map<nat, nat>, po: seq<nat>, x: nat, n: nat, b: nat)
    requires IsTree(up, po) && IsTree(up[x := n], po)
    requires b in up && x !in Chain(up, po, b)
    ensures Chain(up[x := n], po, b) == Chain(up, po, b)
    decreases po[0] - po[b]
  {
    if b != 0 {
      ChainKeep(up, po, x, n, up[b]);
    }
  }

  /** ... and the others are cut at `x` and continue from `n`. */
  lemma {:induction false} ChainCut(up: map<nat, nat>, po: seq<nat>, x: nat, n: nat, b: nat)
    requires IsTree(up, po) && x != 0 && n in up && IsTree(up[x := n], po)
    requires b in up && x in Chain(up, po, b)
    ensures forall c :: c in Chain(up[x := n], po, b) <==>
                        (c in Chain(up, po, b) && po[c] <= po[x]) || c in Chain(up, po, n)
    decreases po[0] - po[b]
  {
    if b == x {
      assert Parented(up[x := n], po, x);
      ChainKeep(up, po, x, n, n);
      assert Chain(up[x := n], po, x) == {x} + Chain(up, po, n);
    } else {
      ChainCut(up, po, x, n, up[b]);
    }
  }
}
