/** Which blocks receive a phi for a slot: the least set closed under the dominance frontier. */
module PhiPlacement {
  import opened Graphs
  import opened Dominators
  import opened Ir
  import opened Renaming

  /** `S` holds the frontier of every block that stores to `a` and of all its own members. */
  ghost predicate FrontierClosed(f: Function, df: seq<seq<nat>>, a: nat, S: set<nat>) {
    forall x: nat, y: nat :: x < |df| && y in df[x] && (x in S || Stores(f, x, a)) ==> y in S
  }

  ghost predicate LeastClosed(f: Function, df: seq<seq<nat>>, a: nat, S: set<nat>) {
    && FrontierClosed(f, df, a, S)
    && forall T: set<nat> :: FrontierClosed(f, df, a, T) ==> S <= T
  }

  /** The frontier of `x` was added, or `x` is still to do. */
  ghost predicate Pending(df: seq<seq<nat>>, work: seq<nat>, S: set<nat>, x: nat)
    requires x < |df|
  {
    x in work || forall y :: y in df[x] ==> y in S
  }

  ghost predicate InProgress(f: Function, df: seq<seq<nat>>, a: nat, work: seq<nat>, S: set<nat>) {
    && (forall x: nat :: x < |df| && (x in S || Stores(f, x, a)) ==> Pending(df, work, S, x))
    && (forall i :: 0 <= i < |work| ==> work[i] < |df| && (work[i] in S || Stores(f, work[i], a)))
    && (forall T: set<nat> :: FrontierClosed(f, df, a, T) ==> S <= T)
  }

  /** The blocks with a store to `a`, in block order. */
  method StoreBlocks(f: Function, a: nat) returns (work: seq<nat>)
    ensures forall x: nat :: x in work <==> Stores(f, x, a)
  {
    work := [];
    var b := 0;
    while b < |f.blocks|
      invariant 0 <= b <= |f.blocks|
      invariant forall x: nat :: x in work <==> x < b && Stores(f, x, a)
    {
      var k := 0;
      while k < |f.blocks[b].insts|
        invariant 0 <= k <= |f.blocks[b].insts|
        invariant forall x: nat :: x in work <==> (x < b && Stores(f, x, a)) || (x == b && StoresBefore(f, b, a, k))
      {
        var i := f.blocks[b].insts[k];
        if i.Store? && i.ptr == Slot(a) {
          assert i == Store(Slot(a), i.value);
          work := work + [b];
        }
        k := k + 1;
      }
      b := b + 1;
    }
  }

  ghost predicate StoresBefore(f: Function, b: nat, a: nat, k: nat) {
    b < |f.blocks| && exists j, v :: 0 <= j < k && j < |f.blocks[b].insts| && f.blocks[b].insts[j] == Store(Slot(a), v)
  }

  lemma StepPending(f: Function, df: seq<seq<nat>>, a: nat, work: seq<nat>, S: set<nat>, x: nat, j: nat)
    requires hide FrontierClosed, InProgress, Pending, Stores; InProgressAt(f, df, a, work, S, x, j) && j == |df[x]|
    ensures InProgress(f, df, a, work, S)
  {
    forall z: nat | z < |df| && (z in S || Stores(f, z, a))
      ensures Pending(df, work, S, z)
    {
      assert z != x ==> Pending(df, work, S, z);
    }
  }

  /** While the frontier of `x` is added: its first `j` blocks are in. */
  ghost predicate InProgressAt(f: Function, df: seq<seq<nat>>, a: nat, work: seq<nat>, S: set<nat>, x: nat, j: nat) {
    && x < |df| && j <= |df[x]| && (x in S || Stores(f, x, a))
    && (forall i :: 0 <= i < j ==> df[x][i] in S)
    && (forall z: nat :: z < |df| && z != x && (z in S || Stores(f, z, a)) ==> Pending(df, work, S, z))
    && (forall i :: 0 <= i < |work| ==> work[i] < |df| && (work[i] in S || Stores(f, work[i], a)))
    && (forall T: set<nat> :: FrontierClosed(f, df, a, T) ==> S <= T)
  }

  lemma AddToFrontier(f: Function, df: seq<seq<nat>>, a: nat, work: seq<nat>, S: set<nat>, x: nat, j: nat, y: nat)
    requires InProgressAt(f, df, a, work, S, x, j) && j < |df[x]| && df[x][j] == y && y < |df|
    ensures y in S ==> InProgressAt(f, df, a, work, S, x, j + 1)
    ensures y !in S ==> InProgressAt(f, df, a, work + [y], S + {y}, x, j + 1)
  {
    if y !in S {
      var S', work' := S + {y}, work + [y];
      forall z: nat | z < |df| && z != x && (z in S' || Stores(f, z, a))
        ensures Pending(df, work', S', z)
      {
        assert z != y ==> Pending(df, work, S, z);
      }
      forall T: set<nat> | FrontierClosed(f, df, a, T)
        ensures S' <= T
      {
        assert y in df[x] && S <= T;
      }
    }
  }

  lemma PopWork(f: Function, df: seq<seq<nat>>, a: nat, work: seq<nat>, S: set<nat>, last: int)
    requires hide *; InProgress(f, df, a, work, S) && last == |work| - 1 >= 0
    ensures work[last] < |df| && InProgressAt(f, df, a, work[..last], S, work[last], 0)
  {
    hide FrontierClosed, Stores;
    var x := work[last];
    forall z: nat | z < |df| && z != x && (z in S || Stores(f, z, a))
      ensures Pending(df, work[..last], S, z)
    {
      assert Pending(df, work, S, z);
      assert work == work[..last] + [x];
    }
  }

  lemma DoneIsLeast(f: Function, df: seq<seq<nat>>, a: nat, S: set<nat>)
    requires InProgress(f, df, a, [], S)
    ensures LeastClosed(f, df, a, S)
  {
    forall x: nat, y: nat | x < |df| && y in df[x] && (x in S || Stores(f, x, a))
      ensures y in S
    {
      assert Pending(df, [], S, x);
    }
  }

  /** Placing phis at least closed sets satisfies what the renaming needs. */
  lemma LeastClosedIsPlaced(s: Setting, df: seq<seq<nat>>)
    requires hide AreFrontiers, ArePreds, Chain, IsTree, Placed;
             Analysed(Cfg(s.f), s.preds, s.idom, s.po) && AreFrontiers(Cfg(s.f), s.preds, s.idom, s.po, df)
    requires forall a :: a in s.promoted ==> FrontierClosed(s.f, df, a, PhiBlocks(s.phis, a))
    requires forall b, a :: (b, a) in s.phis ==> b < |s.f.blocks|
    ensures Placed(s)
  {
    forall x: nat, p: nat, b: nat, a: nat
      | a in s.promoted && (Stores(s.f, x, a) || (x, a) in s.phis) && Boundary(s, x, p, b)
      ensures (b, a) in s.phis
    {
      PassesIsBoundary(Cfg(s.f), s.preds, s.idom, s.po, x, p, b);
      assert Edge(Cfg(s.f), p, b) && Dominates(Cfg(s.f), x, p) && !StrictlyDominates(Cfg(s.f), x, b);
      assert InFrontier(Cfg(s.f), x, b);
      RecordedIsFrontier(Cfg(s.f), s.preds, s.idom, s.po, x, b);
      assert b in df[x];
      assert FrontierClosed(s.f, df, a, PhiBlocks(s.phis, a));
    }
  }

  ghost function PhiBlocks(phis: map<(nat, nat), nat>, a: nat): (S: set<nat>)
    ensures forall b :: b in S <==> (b, a) in phis
  {
    set k | k in phis && k.1 == a :: k.0
  }

  // ----- the phis in the function -----

  /** `fn` is `f` with empty phis at the front of its blocks: for block `b` one for each slot in
      `slots[b]`, with the register `phis` names and `phiAlloca` leading back to the slot. */
  ghost predicate HasPhis(f: Function, fn: Function, phiAlloca: map<nat, nat>, first: nat, next: nat,
                          slots: seq<seq<nat>>, phis: map<(nat, nat), nat>)
  {
    && |fn.blocks| == |slots| == |f.blocks| && first <= next
    && (forall b: nat :: b < |fn.blocks| ==> PhisOf(fn.blocks[b], f.blocks[b], b, slots[b], phis))
    && (forall k :: k in phis ==> k.0 < |slots| && k.1 in slots[k.0])
    && (forall k :: k in phis ==> first <= phis[k] < next && phis[k] in phiAlloca && phiAlloca[phis[k]] == k.1)
    && (forall k, l :: k in phis && l in phis && phis[k] == phis[l] ==> k == l)
  }

  ghost predicate PhisOf(blk: Block, original: Block, b: nat, xs: seq<nat>, phis: map<(nat, nat), nat>) {
    && blk.insts == original.insts && blk.term == original.term
    && |blk.phis| == |xs| && Distinct(xs)
    && (forall i :: 0 <= i < |xs| ==> (b, xs[i]) in phis && blk.phis[i] == Phi(phis[(b, xs[i])], []))
  }

  lemma AddPhi(f: Function, fn: Function, phiAlloca: map<nat, nat>, first: nat, next: nat,
               slots: seq<seq<nat>>, phis: map<(nat, nat), nat>, y: nat, a: nat)
    requires HasPhis(f, fn, phiAlloca, first, next, slots, phis) && y < |f.blocks| && (y, a) !in phis
    ensures y < |fn.blocks| && y < |slots|
    ensures HasPhis(f, Function(fn.blocks[y := fn.blocks[y].(phis := [Phi(next, [])] + fn.blocks[y].phis)]),
                    phiAlloca[next := a], first, next + 1, slots[y := [a] + slots[y]], phis[(y, a) := next])
  {
    var blk := fn.blocks[y].(phis := [Phi(next, [])] + fn.blocks[y].phis);
    var phis', slots' := phis[(y, a) := next], slots[y := [a] + slots[y]];
    assert a !in slots[y] by {
      assert PhisOf(fn.blocks[y], f.blocks[y], y, slots[y], phis);
    }
    forall b: nat | b < |fn.blocks|
      ensures PhisOf(fn.blocks[y := blk][b], f.blocks[b], b, slots'[b], phis')
    {
      assert PhisOf(fn.blocks[b], f.blocks[b], b, slots[b], phis);
    }
  }

  lemma AddPhiBlock(phis: map<(nat, nat), nat>, y: nat, a: nat, r: nat)
    ensures PhiBlocks(phis[(y, a) := r], a) == PhiBlocks(phis, a) + {y}
  {
    assert forall b :: b in PhiBlocks(phis[(y, a) := r], a) <==> b in PhiBlocks(phis, a) + {y};
  }

  /** Other slots are not concerned. */
  ghost predicate SameElsewhere(a: nat, phis0: map<(nat, nat), nat>, phis: map<(nat, nat), nat>) {
    forall b, c :: c != a ==> ((b, c) in phis0 <==> (b, c) in phis)
  }

  lemma FrontierInRange(g: Graph, preds: seq<seq<nat>>, idom: map<nat, nat>, po: seq<nat>, df: seq<seq<nat>>, x: nat,
                        j: nat)
    requires IsTree(idom, po) && AreFrontiers(g, preds, idom, po, df) && |preds| == |g| && x < |g| && j < |df[x]|
    ensures df[x][j] < |g|
  {
    assert df[x][j] in df[x];
  }
}
