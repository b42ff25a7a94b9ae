/** Promotion of stack slots to registers: phi placement, stack-based renaming over the dominator tree,
    and the clean-up that erases the promoted accesses. */
module Mem2Reg {
  import opened Graphs
  import opened Idoms
  import opened Ir
  import opened Dominators
  import opened Ssa
  import opened Renaming
  import opened Promotion
  import opened PhiPlacement
  import opened Rename
  import opened Cleanup
  import PromotedForm
  import SsaForm

  /** The value on top of a stack; an empty stack stands for the initial 0. */
  function Top(st: seq<Operand>): Operand {
    if st == [] then Const(0) else st[|st| - 1]
  }

  lemma TopOfPush(st: seq<Operand>, v: Operand)
    ensures Top(st + [v]) == v
  {
  }

  /** The stacks show the value every promoted slot has before place `k` of block `b`. */
  ghost predicate Shows(s: Setting, stacks: map<nat, seq<Operand>>, b: nat, k: nat)
    requires hide *; Sound(s) && b < |s.f.blocks| && k <= |Code(s, b)|
  {
    stacks.Keys == s.promoted && forall a :: a in stacks ==> Top(stacks[a]) == Current(s, b, k, a)
  }

  /** What a block finds on the stacks: the values at the end of its parent. */
  ghost function Inherited(s: Setting, b: nat, a: nat): Operand
    requires Sound(s) && b < |s.f.blocks|
  {
    if b == 0 then Const(0)
    else
      assert Parented(s.idom, s.po, b);
      Outgoing(s, s.idom[b], a)
  }

  ghost predicate ShowsInherited(s: Setting, stacks: map<nat, seq<Operand>>, b: nat)
    requires hide *; Sound(s) && b < |s.f.blocks|
  {
    stacks.Keys == s.promoted && forall a :: a in stacks ==> Top(stacks[a]) == Inherited(s, b, a)
  }

  /** `stacks` is `start` with one more value for every entry of `pushed`. */
  ghost predicate Grown(start: map<nat, seq<Operand>>, stacks: map<nat, seq<Operand>>, pushed: seq<nat>) {
    && stacks.Keys == start.Keys
    && (forall i :: 0 <= i < |pushed| ==> pushed[i] in stacks)
    && (forall a :: a in stacks ==> start[a] <= stacks[a] && |stacks[a]| == |start[a]| + multiset(pushed)[a])
  }

  lemma GrownPush(start: map<nat, seq<Operand>>, stacks: map<nat, seq<Operand>>, pushed: seq<nat>, a: nat, v: Operand)
    requires Grown(start, stacks, pushed) && a in stacks
    ensures Grown(start, stacks[a := stacks[a] + [v]], pushed + [a])
  {
  }

  lemma GrownPop(start: map<nat, seq<Operand>>, stacks: map<nat, seq<Operand>>, pushed: seq<nat>, last: int)
    requires Grown(start, stacks, pushed) && last == |pushed| - 1 >= 0
    ensures pushed[last] in stacks && stacks[pushed[last]] != []
    ensures Grown(start, stacks[pushed[last] := stacks[pushed[last]][..|stacks[pushed[last]]| - 1]], pushed[..last])
  {
    assert pushed == pushed[..last] + [pushed[last]];
    assert multiset(pushed) == multiset(pushed[..last]) + multiset{pushed[last]};
  }

  lemma GrownNothing(start: map<nat, seq<Operand>>, stacks: map<nat, seq<Operand>>)
    requires Grown(start, stacks, [])
    ensures stacks == start
  {
    forall a | a in stacks
      ensures stacks[a] == start[a]
    {
      assert |stacks[a]| == |start[a]|;
    }
  }

  /** The renaming is under way: the function is rewritten for the replacements and visits so far. */
  ghost predicate InWalk(s: Setting, fn: Function, phiAlloca: map<nat, nat>, m: map<nat, Operand>, visited: seq<nat>) {
    && Sound(s)
    && (forall k :: k in s.phis ==> s.phis[k] in phiAlloca && phiAlloca[s.phis[k]] == k.1)
    && Rewritten(s, fn, m, visited)
  }

  /** A phi carries the register of its slot, and the map leads back to the slot. */
  lemma PhiNames(s: Setting, fn: Function, phiAlloca: map<nat, nat>, m: map<nat, Operand>, visited: seq<nat>,
                 bb: nat, i: nat)
    requires hide Current, Placed, Rewritten, Site, WellFormed; InWalk(s, fn, phiAlloca, m, visited)
    requires bb < |s.f.blocks| && bb < |fn.blocks| && i < |fn.blocks[bb].phis|
    ensures |s.slots[bb]| == |fn.blocks[bb].phis| && s.slots[bb][i] in s.promoted
    ensures (bb, s.slots[bb][i]) in s.phis
    ensures fn.blocks[bb].phis[i].dst in phiAlloca && phiAlloca[fn.blocks[bb].phis[i].dst] == s.slots[bb][i]
    ensures Current(s, bb, 0, s.slots[bb][i]) == Reg(fn.blocks[bb].phis[i].dst)
  {
    hide ArePreds, Exact, Inflow, Placed, Resolve, Site, SubstInsts, WellFormed;
    assert s.slots[bb][i] in s.slots[bb];
    assert BlockRewritten(s, fn.blocks[bb], bb, m, Arrived(Cfg(s.f), visited, bb));
    assert PhiFilled(s, fn.blocks[bb].phis[i], bb, s.slots[bb][i], Arrived(Cfg(s.f), visited, bb));
  }

  /** After the first `i` phis of a block were pushed. */
  ghost predicate ShowsPhis(s: Setting, stacks: map<nat, seq<Operand>>, b: nat, i: nat)
    requires Sound(s) && b < |s.f.blocks| && i <= |s.slots[b]|
  {
    && stacks.Keys == s.promoted
    && forall a :: a in stacks ==>
         Top(stacks[a]) == if a in s.slots[b][..i] then Current(s, b, 0, a) else Inherited(s, b, a)
  }

  lemma ShowsNoPhi(s: Setting, stacks: map<nat, seq<Operand>>, b: nat)
    requires hide ArePreds, Current, FreshPhis, Placed, WellFormed;
             Sound(s) && b < |s.f.blocks| && ShowsInherited(s, stacks, b)
    ensures ShowsPhis(s, stacks, b, 0) && stacks.Keys == s.promoted
  {
    hide ArePreds, Current, Exact, FreshPhis, Inherited, Placed, WellFormed;
  }

  lemma GrownStarts(stacks: map<nat, seq<Operand>>)
    ensures Grown(stacks, stacks, [])
  {
  }

  lemma ShowsNextPhi(s: Setting, stacks: map<nat, seq<Operand>>, b: nat, i: nat, v: Operand)
    requires hide Current, Placed, ShowsPhis, Site, WellFormed;
             Sound(s) && b < |s.f.blocks| && i < |s.slots[b]| && ShowsPhis(s, stacks, b, i)
    requires s.slots[b][i] in stacks && v == Current(s, b, 0, s.slots[b][i])
    ensures ShowsPhis(s, stacks[s.slots[b][i] := stacks[s.slots[b][i]] + [v]], b, i + 1)
  {
    hide ArePreds, Current, Exact, Inherited, Placed, Site, WellFormed;
    assert b < |s.slots|;
    hide Sound, Current, Inherited, Top, Code, Outgoing;
    var was, slots := stacks, s.slots[b];
    assert forall a :: a in slots[..i + 1] <==> a in slots[..i] || a == slots[i];
    TopOfPush(was[slots[i]], v);
  }

  lemma ShowsAllPhis(s: Setting, stacks: map<nat, seq<Operand>>, b: nat, i: nat)
    requires hide Current, Placed, ShowsPhis, Site, WellFormed;
             Sound(s) && b < |s.f.blocks| && i == |s.slots[b]| && ShowsPhis(s, stacks, b, i)
    ensures Shows(s, stacks, b, 0)
  {
    hide ArePreds, Exact, Placed, Resolve, Site, WellFormed;
    assert s.slots[b][..i] == s.slots[b];
  }

  /** Before instruction `k` of `bb`: everything before it is rewritten, and the stacks are up to date. */
  ghost predicate AtInst(s: Setting, fn: Function, phiAlloca: map<nat, nat>, m: map<nat, Operand>, visited: seq<nat>,
                         stacks: map<nat, seq<Operand>>, bb: nat, k: nat)
  {
    && Sound(s) && InWalk(s, fn, phiAlloca, m, visited)
    && bb < |s.f.blocks| && k <= |Code(s, bb)| && bb !in visited
    && Covers(s, m, visited, bb, k) && Shows(s, stacks, bb, k) && AncestorsVisited(s, visited, bb)
  }

  lemma AtInstFacts(s: Setting, fn: Function, phiAlloca: map<nat, nat>, m: map<nat, Operand>, visited: seq<nat>,
                    stacks: map<nat, seq<Operand>>, bb: nat, k: nat)
    requires hide *; AtInst(s, fn, phiAlloca, m, visited, stacks, bb, k)
    ensures bb < |fn.blocks| == |s.f.blocks| && |fn.blocks[bb].insts| == |Code(s, bb)|
    ensures k < |Code(s, bb)| ==> fn.blocks[bb].insts[k] == SubstInst(m, Code(s, bb)[k])
  {
    hide AncestorsVisited, Covers, Current, InWalk, LoadSite, Sound;
    PhiCount(s, fn, phiAlloca, m, visited, bb);
  }

  lemma LoadStep(s: Setting, fn: Function, phiAlloca: map<nat, nat>, m: map<nat, Operand>, visited: seq<nat>,
                 stacks: map<nat, seq<Operand>>, bb: nat, k: nat, r: nat, a: nat)
    requires hide AncestorsVisited, InWalk, LoadSite, ReplaceAllUses, Sound;
             AtInst(s, fn, phiAlloca, m, visited, stacks, bb, k) && k < |Code(s, bb)|
    requires Code(s, bb)[k] == Load(r, Slot(a)) && a in stacks
    ensures AtInst(s, ReplaceAllUses(fn, r, Top(stacks[a])), phiAlloca, m[r := Top(stacks[a])], visited, stacks, bb,
                   k + 1)
  {
    hide AncestorsVisited, Covers, Current, LoadSite, ReplaceAllUses, Rewritten, Sound;
    ShowsFacts(s, stacks, bb, k);
    hide InWalk, Sound, Covers, Shows, AncestorsVisited;
    InWalkFacts(s, fn, phiAlloca, m, visited);
    ReplaceRewrites(s, fn, m, visited, bb, k, a);
    InWalkAgain(s, ReplaceAllUses(fn, r, Top(stacks[a])), phiAlloca, m[r := Top(stacks[a])], visited);
    ShowsWithoutStore(s, stacks, bb, k);
  }

  lemma ShowsFacts(s: Setting, stacks: map<nat, seq<Operand>>, b: nat, k: nat)
    requires hide *; Sound(s) && b < |s.f.blocks| && k <= |Code(s, b)| && Shows(s, stacks, b, k)
    ensures stacks.Keys == s.promoted && forall a :: a in stacks ==> Top(stacks[a]) == Current(s, b, k, a)
  {
    hide ArePreds, Exact, FreshPhis, Placed, Resolve, WellFormed;
  }

  lemma ShowsWithoutStore(s: Setting, stacks: map<nat, seq<Operand>>, b: nat, k: nat)
    requires hide *; Sound(s) && b < |s.f.blocks| && k < |Code(s, b)| && Shows(s, stacks, b, k)
    requires !(Code(s, b)[k].Store? && Code(s, b)[k].ptr.Slot? && Code(s, b)[k].ptr.slot in s.promoted)
    ensures Shows(s, stacks, b, k + 1)
  {
    hide Resolve, Sound;
    forall x | x in stacks
      ensures Top(stacks[x]) == Current(s, b, k + 1, x)
    {
      assert Current(s, b, k + 1, x) == Current(s, b, k, x);
    }
  }

  lemma ShowsAfterStore(s: Setting, stacks: map<nat, seq<Operand>>, b: nat, k: nat, a: nat, v: Operand)
    requires hide *; Sound(s) && b < |s.f.blocks| && k < |Code(s, b)| && Shows(s, stacks, b, k)
    requires Code(s, b)[k].Store? && Code(s, b)[k].ptr == Slot(a) && a in stacks
    requires v == Current(s, b, k + 1, a)
    ensures Shows(s, stacks[a := stacks[a] + [v]], b, k + 1)
  {
    hide AllDefined, AllReachable, ArePreds, Exact, FreshPhis, Placed, Resolve, UniqueDefs;
    forall x | x in stacks && x != a
      ensures Top(stacks[x]) == Current(s, b, k + 1, x)
    {
      assert Current(s, b, k + 1, x) == Current(s, b, k, x);
    }
  }

  lemma StoreStep(s: Setting, fn: Function, phiAlloca: map<nat, nat>, m: map<nat, Operand>, visited: seq<nat>,
                  stacks: map<nat, seq<Operand>>, bb: nat, k: nat, a: nat, v: Operand)
    requires hide AncestorsVisited, Current, InWalk, LoadSite, Sound;
             AtInst(s, fn, phiAlloca, m, visited, stacks, bb, k) && k < |Code(s, bb)|
    requires Code(s, bb)[k] == Store(Slot(a), v) && a in stacks
    ensures AtInst(s, fn, phiAlloca, m, visited, stacks[a := stacks[a] + [Apply(m, v)]], bb, k + 1)
  {
    hide AncestorsVisited, Current, InWalk, LoadSite, Resolve, Sound, Covers, Shows;
    StoredIsResolved(s, m, visited, bb, k);
    CoversOther(s, m, visited, bb, k);
    ShowsAfterStore(s, stacks, bb, k, a, Apply(m, v));
  }

  lemma OtherStep(s: Setting, fn: Function, phiAlloca: map<nat, nat>, m: map<nat, Operand>, visited: seq<nat>,
                  stacks: map<nat, seq<Operand>>, bb: nat, k: nat)
    requires hide AncestorsVisited, Current, InWalk, LoadSite, Sound;
             AtInst(s, fn, phiAlloca, m, visited, stacks, bb, k) && k < |Code(s, bb)|
    requires !LoadsPromoted(s, bb, k)
    requires !(Code(s, bb)[k].Store? && Code(s, bb)[k].ptr.Slot? && Code(s, bb)[k].ptr.slot in s.promoted)
    ensures AtInst(s, fn, phiAlloca, m, visited, stacks, bb, k + 1)
  {
    hide AncestorsVisited, Covers, Current, InWalk, LoadSite, Sound, Shows;
    CoversOther(s, m, visited, bb, k);
    ShowsWithoutStore(s, stacks, bb, k);
  }

  lemma FilledPhi(s: Setting, fn: Function, phiAlloca: map<nat, nat>, m: map<nat, Operand>, visited: seq<nat>,
                  stacks: map<nat, seq<Operand>>, bb: nat, ss: seq<nat>, j: nat, i: nat)
    requires hide Current, FillingAt, Placed, Site, WellFormed;
             Sound(s) && bb < |s.f.blocks| && Shows(s, stacks, bb, |Code(s, bb)|)
    requires forall k :: k in s.phis ==> s.phis[k] in phiAlloca && phiAlloca[s.phis[k]] == k.1
    requires j < |ss| && ss[j] < |fn.blocks| && Filling(s, fn, m, visited, bb, ss, j) && i < |fn.blocks[ss[j]].phis|
    ensures |fn.blocks[ss[j]].phis| == |s.slots[ss[j]]|
    ensures fn.blocks[ss[j]].phis[i].dst in phiAlloca
    ensures phiAlloca[fn.blocks[ss[j]].phis[i].dst] == s.slots[ss[j]][i] && s.slots[ss[j]][i] in stacks
    ensures Top(stacks[s.slots[ss[j]][i]]) == Outgoing(s, bb, s.slots[ss[j]][i])
  {
    hide Current, Exact, PartlyArrived, Placed, Site, SubstInsts, WellFormed;
    var x := ss[j];
    assert FillingAt(s, fn.blocks[x], m, visited, bb, ss, j, x);
    assert PhiFilled(s, fn.blocks[x].phis[i], x, s.slots[x][i], PartlyArrived(Cfg(s.f), visited, bb, ss, j, x));
  }

  lemma FillingCount(s: Setting, fn: Function, m: map<nat, Operand>, visited: seq<nat>, bb: nat, ss: seq<nat>, j: nat)
    requires hide FillingAt, Sound;
             Sound(s) && bb < |s.f.blocks| && j < |ss| && Filling(s, fn, m, visited, bb, ss, j) && ss[j] < |s.f.blocks|
    ensures |fn.blocks| == |s.f.blocks| == |s.slots| && |fn.blocks[ss[j]].phis| == |s.slots[ss[j]]|
  {
    hide ArePreds, Exact, PartlyArrived, PhiFilled, Placed, Site, SubstInsts, WellFormed;
    assert FillingAt(s, fn.blocks[ss[j]], m, visited, bb, ss, j, ss[j]);
  }

  // ----- before the walk -----

  ghost predicate AllocatedIn(insts: seq<Inst>, a: nat) {
    Alloca(a) in insts
  }

  lemma NotAllocatedTwice(f: Function, k: nat)
    requires UniqueAllocas(f) && |f.blocks| > 0 && k < |f.blocks[0].insts| && f.blocks[0].insts[k].Alloca?
    ensures !AllocatedIn(f.blocks[0].insts[..k], f.blocks[0].insts[k].slot)
  {
    var insts := f.blocks[0].insts;
    assert AllocatedAt(f, 0, k, insts[k].slot);
    forall i | 0 <= i < k
      ensures insts[..k][i] != Alloca(insts[k].slot)
    {
      assert insts[..k][i] == insts[i];
      assert insts[i] == Alloca(insts[k].slot) ==> AllocatedAt(f, 0, i, insts[k].slot);
    }
  }

  lemma FrontiersOf(preds: seq<seq<nat>>, idom: map<nat, nat>, po: seq<nat>, df: seq<seq<nat>>, f: Function)
    requires hide AreFrontiers, ArePreds, Exact, Fixpoint, IsTree;
             Analysed(Cfg(f), preds, idom, po) && AreFrontiers(Cfg(f), preds, idom, po, df)
    ensures |df| == |f.blocks|
    ensures forall x: nat, j: nat :: x < |df| && j < |df[x]| ==> df[x][j] < |f.blocks|
  {
    forall x: nat, j: nat | x < |df| && j < |df[x]|
      ensures df[x][j] < |f.blocks|
    {
      FrontierInRange(Cfg(f), preds, idom, po, df, x, j);
    }
  }

  lemma SameStores(f: Function, fn: Function, phiAlloca: map<nat, nat>, first: nat, next: nat,
                   slots: seq<seq<nat>>, phis: map<(nat, nat), nat>, a: nat)
    requires HasPhis(f, fn, phiAlloca, first, next, slots, phis)
    ensures forall x: nat :: Stores(fn, x, a) <==> Stores(f, x, a)
  {
    forall x: nat | x < |fn.blocks|
      ensures fn.blocks[x].insts == f.blocks[x].insts
    {
      assert PhisOf(fn.blocks[x], f.blocks[x], x, slots[x], phis);
    }
  }

  lemma StartWork(f: Function, df: seq<seq<nat>>, a: nat, work: seq<nat>)
    requires |df| == |f.blocks| && forall x: nat :: x in work <==> Stores(f, x, a)
    ensures InProgress(f, df, a, work, {})
  {
    assert forall i :: 0 <= i < |work| ==> work[i] in work;
  }

  lemma DescribedFrontiers(dt: DominatorTree, f: Function)
    requires hide *; dt.Describes(Cfg(f))
    ensures |dt.df| == |f.blocks|
    ensures forall x: nat, j: nat :: x < |dt.df| && j < |dt.df[x]| ==> dt.df[x][j] < |f.blocks|
  {
    hide Analysed, AreChildren, AreFrontiers;
    FrontiersOf(dt.preds, dt.idom, dt.po, dt.df, f);
  }

  lemma NothingElsewhere(a: nat, phis: map<(nat, nat), nat>)
    ensures SameElsewhere(a, phis, phis)
  {
  }

  lemma FewerLeft(n: nat, S: set<nat>, y: nat)
    requires y < n && y !in S
    ensures AllBlocks(n) - (S + {y}) < AllBlocks(n) - S
  {
    assert y in AllBlocks(n) - S;
  }

  lemma SameElsewhereNext(a: nat, phis0: map<(nat, nat), nat>, phis: map<(nat, nat), nat>, y: nat, r: nat)
    requires SameElsewhere(a, phis0, phis)
    ensures SameElsewhere(a, phis0, phis[(y, a) := r])
  {
  }

  /** The first `i` slots have their phis, the others have none. */
  ghost predicate ClosedFor(f: Function, df: seq<seq<nat>>, promotable: seq<nat>, i: nat, phis: map<(nat, nat), nat>) {
    && i <= |promotable|
    && (forall j :: 0 <= j < i ==> LeastClosed(f, df, promotable[j], PhiBlocks(phis, promotable[j])))
    && (forall k :: k in phis ==> k.1 in promotable[..i])
  }

  lemma NothingClosedYet(f: Function, df: seq<seq<nat>>, promotable: seq<nat>, phis: map<(nat, nat), nat>)
    requires hide *; phis == map[]
    ensures ClosedFor(f, df, promotable, 0, phis)
  {
  }

  lemma NoPhisYet(f: Function, df: seq<seq<nat>>, promotable: seq<nat>, i: nat, phis: map<(nat, nat), nat>)
    requires hide *; Distinct(promotable) && ClosedFor(f, df, promotable, i, phis) && i < |promotable|
    ensures PhiBlocks(phis, promotable[i]) == {}
  {
    forall b | b in PhiBlocks(phis, promotable[i])
      ensures promotable[i] in promotable[..i]
    {
      assert (b, promotable[i]).1 in promotable[..i];
    }
    assert promotable[i] !in promotable[..i];
  }

  lemma ClosedForNext(f: Function, df: seq<seq<nat>>, promotable: seq<nat>, i: nat,
                      phis0: map<(nat, nat), nat>, phis: map<(nat, nat), nat>)
    requires hide *; Distinct(promotable) && ClosedFor(f, df, promotable, i, phis0) && i < |promotable|
    requires LeastClosed(f, df, promotable[i], PhiBlocks(phis, promotable[i]))
    requires SameElsewhere(promotable[i], phis0, phis)
    ensures ClosedFor(f, df, promotable, i + 1, phis)
  {
    hide FrontierClosed;
    forall j | 0 <= j < i
      ensures LeastClosed(f, df, promotable[j], PhiBlocks(phis, promotable[j]))
    {
      assert PhiBlocks(phis, promotable[j]) == PhiBlocks(phis0, promotable[j]);
    }
    forall k | k in phis
      ensures k.1 in promotable[..i + 1]
    {
      assert k == (k.0, k.1);
      if k.1 != promotable[i] {
        assert k in phis0;
        var j :| 0 <= j < i && promotable[..i][j] == k.1;
        assert promotable[..i + 1][j] == k.1;
      } else {
        assert promotable[..i + 1][i] == k.1;
      }
    }
  }

  ghost function SettingOf(f: Function, promotable: seq<nat>, preds: seq<seq<nat>>, idom: map<nat, nat>, po: seq<nat>,
                           slots: seq<seq<nat>>, phis: map<(nat, nat), nat>): Setting
  {
    Setting(f, (set a | a in promotable), preds, idom, po, slots, phis)
  }

  /** Nothing branches to the entry, so the entry is in no frontier ... */
  lemma EntryInNoFrontier(g: Graph, preds: seq<seq<nat>>, idom: map<nat, nat>, po: seq<nat>, df: seq<seq<nat>>, x: nat)
    requires hide AreFrontiers, ArePreds, Exact, Fixpoint, IsTree;
             Analysed(g, preds, idom, po) && AreFrontiers(g, preds, idom, po, df) && x < |df|
    requires forall p: nat :: !Edge(g, p, 0)
    ensures 0 !in df[x]
  {
    PredsAreEdges(g, preds);
    FirstElement(preds[0]);
    assert !Recorded(idom, po, preds, x, 0);
  }

  /** ... and has no phi. */
  lemma NoPhiAtEntry(f: Function, df: seq<seq<nat>>, a: nat, S: set<nat>)
    requires LeastClosed(f, df, a, S) && forall x: nat :: x < |df| ==> 0 !in df[x]
    ensures 0 !in S
  {
    assert FrontierClosed(f, df, a, S - {0});
  }

  lemma PlacedIsSound(f: Function, fn: Function, phiAlloca: map<nat, nat>, first: nat, next: nat, promotable: seq<nat>,
                      preds: seq<seq<nat>>, idom: map<nat, nat>, po: seq<nat>, df: seq<seq<nat>>,
                      slots: seq<seq<nat>>, phis: map<(nat, nat), nat>)
    requires hide ClosedFor, HasPhis, Sound, Stable, WellFormed;
             WellFormed(f) && FreshFrom(f, first) && HasPhis(f, fn, phiAlloca, first, next, slots, phis)
    requires Analysed(Cfg(f), preds, idom, po) && AreFrontiers(Cfg(f), preds, idom, po, df)
    requires ClosedFor(f, df, promotable, |promotable|, phis)
    ensures Sound(SettingOf(f, promotable, preds, idom, po, slots, phis))
  {
    hide AllDefined, AreFrontiers, ArePreds, Exact, Fixpoint, FreshPhis, Placed;
    var s := SettingOf(f, promotable, preds, idom, po, slots, phis);
    assert promotable[..|promotable|] == promotable;
    forall a | a in s.promoted
      ensures FrontierClosed(f, df, a, PhiBlocks(phis, a)) && 0 !in PhiBlocks(phis, a)
    {
      var j :| 0 <= j < |promotable| && promotable[j] == a;
      forall x: nat | x < |df|
        ensures 0 !in df[x]
      {
        EntryInNoFrontier(Cfg(f), preds, idom, po, df, x);
      }
      NoPhiAtEntry(f, df, a, PhiBlocks(phis, a));
    }
    PhisAreFresh(f, fn, phiAlloca, first, next, slots, phis, s);
    LeastClosedIsPlaced(s, df);
  }

  lemma PhisAreFresh(f: Function, fn: Function, phiAlloca: map<nat, nat>, first: nat, next: nat,
                     slots: seq<seq<nat>>, phis: map<(nat, nat), nat>, s: Setting)
    requires FreshFrom(f, first) && HasPhis(f, fn, phiAlloca, first, next, slots, phis)
    requires s.f == f && s.slots == slots && s.phis == phis
    requires forall k :: k in phis ==> k.1 in s.promoted
    requires forall a :: a in s.promoted ==> 0 !in PhiBlocks(phis, a)
    ensures FreshPhis(s)
  {
    forall b, a | (b, a) in phis
      ensures 0 < b < |f.blocks| && a in s.promoted && Site(f, phis[(b, a)]).None?
    {
      assert (b, a).1 in s.promoted && b in PhiBlocks(phis, a);
      assert first <= phis[(b, a)];
    }
    forall b: nat, a: nat | b < |slots|
      ensures a in slots[b] <==> (b, a) in phis
    {
      assert PhisOf(fn.blocks[b], f.blocks[b], b, slots[b], phis);
      assert (b, a) in phis ==> (b, a).1 in slots[(b, a).0];
    }
    forall b: nat | b < |slots|
      ensures Distinct(slots[b])
    {
      assert PhisOf(fn.blocks[b], f.blocks[b], b, slots[b], phis);
    }
  }

  lemma DescribedSound(dt: DominatorTree, f: Function, fn: Function, phiAlloca: map<nat, nat>, first: nat, next: nat,
                       promotable: seq<nat>, slots: seq<seq<nat>>, phis: map<(nat, nat), nat>, s: Setting)
    requires hide *; WellFormed(f) && FreshFrom(f, first) && HasPhis(f, fn, phiAlloca, first, next, slots, phis)
    requires dt.Describes(Cfg(f)) && ClosedFor(f, dt.df, promotable, |promotable|, phis)
    requires s == SettingOf(f, promotable, dt.preds, dt.idom, dt.po, slots, phis)
    ensures Sound(s) && s.f == f && s.preds == dt.preds && s.idom == dt.idom && s.slots == slots && s.phis == phis
    ensures forall a :: a in promotable <==> a in s.promoted
    ensures dt.succs == Cfg(f) && AreChildren(Cfg(f), dt.idom, dt.children)
  {
    hide Analysed, AreFrontiers, ClosedFor, FreshFrom, HasPhis, Sound, WellFormed;
    PlacedIsSound(f, fn, phiAlloca, first, next, promotable, dt.preds, dt.idom, dt.po, dt.df, slots, phis);
  }

  /** An empty stack for every slot. */
  function NoValues(promotable: seq<nat>): (stacks: map<nat, seq<Operand>>)
    ensures stacks.Keys == set a | a in promotable
    ensures forall a :: a in stacks ==> stacks[a] == []
  {
    map a | a in promotable :: []
  }

  lemma SubstNothing(insts: seq<Inst>, t: Terminator)
    ensures SubstInsts(map[], insts) == insts && SubstTerm(map[], t) == t
  {
    forall i | 0 <= i < |insts|
      ensures SubstInst(map[], insts[i]) == insts[i]
    {
      if insts[i].Call? {
        assert ApplyAll(map[], insts[i].args) == insts[i].args;
      }
    }
  }

  lemma MayEnterEntry(s: Setting, first: nat, next: nat, fn: Function, phiAlloca: map<nat, nat>,
                      stacks: map<nat, seq<Operand>>, promotable: seq<nat>)
    requires hide BeforeVisit, FreshPhis, HasPhis, Placed, WellFormed;
             Sound(s) && HasPhis(s.f, fn, phiAlloca, first, next, s.slots, s.phis)
    requires forall a :: a in promotable <==> a in s.promoted
    requires stacks.Keys == s.promoted && forall a :: a in stacks ==> stacks[a] == []
    ensures BeforeVisit(s, fn, phiAlloca, map[], [], stacks, 0)
  {
    hide Covers, Placed, Resolve, Rewritten, ShowsInherited;
    EntryMatches(s, first, next, fn, phiAlloca);
    EntryShows(s, stacks);
    hide Sound, HasPhis, Rewritten, AncestorsVisited, ShowsInherited;
    NothingCovered(s);
  }

  lemma EntryMatches(s: Setting, first: nat, next: nat, fn: Function, phiAlloca: map<nat, nat>)
    requires Sound(s) && HasPhis(s.f, fn, phiAlloca, first, next, s.slots, s.phis)
    ensures InWalk(s, fn, phiAlloca, map[], [])
  {
    hide BlockRewritten, Exact, Placed;
    forall b: nat | b < |fn.blocks|
      ensures BlockRewritten(s, fn.blocks[b], b, map[], [])
    {
      EmptyPhis(s, first, next, fn, phiAlloca, b);
    }
    hide WellFormed, Exact, Placed, BlockRewritten, PhisOf;
  }

  lemma EntryShows(s: Setting, stacks: map<nat, seq<Operand>>)
    requires hide AllDefined, ArePreds, FreshPhis, Placed, ShowsInherited;
             Sound(s) && stacks.Keys == s.promoted && forall a :: a in stacks ==> stacks[a] == []
    ensures 0 < |s.f.blocks| && ShowsInherited(s, stacks, 0) && AncestorsVisited(s, [], 0)
  {
    hide AllDefined, ArePreds, FreshPhis, Outgoing, Placed, UniqueDefs;
    assert Chain(s.idom, s.po, 0) == {0};
  }

  lemma NothingCovered(s: Setting)
    requires hide ArePreds, Covers, FreshPhis, Placed, WellFormed; Sound(s)
    ensures Covers(s, map[], [], 0, 0)
  {
    hide LoadSite, Resolve, Sound;
  }

  lemma EmptyPhis(s: Setting, first: nat, next: nat, fn: Function, phiAlloca: map<nat, nat>, b: nat)
    requires hide BlockRewritten, Sound;
             Sound(s) && HasPhis(s.f, fn, phiAlloca, first, next, s.slots, s.phis) && b < |fn.blocks|
    ensures BlockRewritten(s, fn.blocks[b], b, map[], [])
  {
    hide ArePreds, Exact, Outgoing, Placed, SubstInsts;
    assert PhisOf(fn.blocks[b], s.f.blocks[b], b, s.slots[b], s.phis);
    SubstNothing(Code(s, b), s.f.blocks[b].term);
    forall i | 0 <= i < |s.slots[b]|
      ensures s.slots[b][i] in s.slots[b] && PhiFilled(s, fn.blocks[b].phis[i], b, s.slots[b][i], [])
    {
      assert Inflow(s, [], s.slots[b][i]) == [];
    }
  }

  /** At the end every block was visited and every load replaced. */
  lemma EverythingVisited(s: Setting, fn: Function, phiAlloca: map<nat, nat>, m: map<nat, Operand>, visited: seq<nat>)
    requires hide AfterVisit, Replacement, Rewritten, Sound; AfterVisit(s, fn, phiAlloca, m, [], visited, 0)
    ensures InWalk(s, fn, phiAlloca, m, visited) && Distinct(visited)
    ensures m == Replacement(s) && forall x: nat :: x in visited <==> x < |s.f.blocks|
  {
    hide Chain, Covers, Replacement, Resolve, Rewritten, Sound;
    CoveredIsReplacement(s, m, visited);
  }

  lemma CoveredIsReplacement(s: Setting, m: map<nat, Operand>, visited: seq<nat>)
    requires hide Covers, FreshPhis, Replacement, Resolve, WellFormed;
             Sound(s) && Covers(s, m, visited, 0, 0) && forall x: nat :: x < |s.f.blocks| ==> x in visited
    ensures m == Replacement(s)
  {
    hide Current, Exact, FreshPhis, LoadSite, Loaded, Placed, Resolve, Site, Sound, WellFormed;
    forall r
      ensures r in m <==> r in Loaded(s)
    {
      if LoadSite(s, r).Some? {
        assert LoadSite(s, r).value.0 in visited;
      }
    }
  }

  // ----- the walk over the tree -----

  /** The walk may enter `bb`: everything above it was visited, nothing below it was. */
  ghost predicate BeforeVisit(s: Setting, fn: Function, phiAlloca: map<nat, nat>, m: map<nat, Operand>,
                              visited: seq<nat>, stacks: map<nat, seq<Operand>>, bb: nat)
  {
    && InWalk(s, fn, phiAlloca, m, visited) && bb < |s.f.blocks| && Distinct(visited)
    && ShowsInherited(s, stacks, bb) && Covers(s, m, visited, bb, 0)
    && AncestorsVisited(s, visited, bb)
    && (forall x :: x in visited ==> x < |s.f.blocks| && bb !in Chain(s.idom, s.po, x))
  }

  /** `x` is below one of the blocks in `roots`. */
  ghost predicate BelowOne(s: Setting, roots: seq<nat>, x: nat)
    requires IsTree(s.idom, s.po) && x in s.idom
  {
    exists i :: 0 <= i < |roots| && roots[i] in Chain(s.idom, s.po, x)
  }

  /** The walk has visited, besides `before`, the block `bb` and the subtrees of its first `j` children. */
  ghost predicate PartlyVisited(s: Setting, fn: Function, phiAlloca: map<nat, nat>, m: map<nat, Operand>,
                                before: seq<nat>, visited: seq<nat>, bb: nat, cs: seq<nat>, j: nat)
  {
    && InWalk(s, fn, phiAlloca, m, visited) && bb < |s.f.blocks| && Distinct(visited) && j <= |cs|
    && Covers(s, m, visited, bb, 0)
    && (forall x: nat :: x in visited <==>
          x in before || x == bb || (x < |s.f.blocks| && BelowOne(s, cs[..j], x)))
  }

  /** The walk has visited exactly the subtree of `bb` besides `before`. */
  ghost predicate AfterVisit(s: Setting, fn: Function, phiAlloca: map<nat, nat>, m: map<nat, Operand>,
                             before: seq<nat>, visited: seq<nat>, bb: nat)
  {
    && InWalk(s, fn, phiAlloca, m, visited) && bb < |s.f.blocks| && Distinct(visited)
    && Covers(s, m, visited, bb, 0)
    && (forall x: nat :: x in visited <==> x in before || (x < |s.f.blocks| && bb in Chain(s.idom, s.po, x)))
  }

  lemma Enters(s: Setting, fn: Function, phiAlloca: map<nat, nat>, m: map<nat, Operand>, visited: seq<nat>,
               stacks: map<nat, seq<Operand>>, bb: nat)
    requires hide Covers, FreshPhis, Resolve, Rewritten, WellFormed;
             BeforeVisit(s, fn, phiAlloca, m, visited, stacks, bb)
    ensures InWalk(s, fn, phiAlloca, m, visited) && bb < |s.f.blocks| && ShowsInherited(s, stacks, bb)
    ensures bb !in visited && bb < |fn.blocks| && bb < |s.po| && Distinct(visited)
    ensures AncestorsVisited(s, visited, bb)
    ensures forall x :: x in visited ==> x < |s.f.blocks| && bb !in Chain(s.idom, s.po, x)
    ensures forall st :: Shows(s, st, bb, 0) ==> AtInst(s, fn, phiAlloca, m, visited, st, bb, 0)
  {
    hide BlockRewritten, Covers, Current, FreshPhis, Placed, Resolve, ShowsInherited, WellFormed;
    assert bb in Chain(s.idom, s.po, bb);
  }

  /** After the block itself: its own visit is recorded, no child is entered yet. */
  lemma OwnVisit(s: Setting, fn: Function, phiAlloca: map<nat, nat>, m: map<nat, Operand>, before: seq<nat>,
                 bb: nat, cs: seq<nat>)
    requires hide Covers, FreshPhis, Placed, Rewritten, WellFormed;
             InWalk(s, fn, phiAlloca, m, before + [bb]) && bb < |s.f.blocks|
    requires Distinct(before) && bb !in before && Covers(s, m, before, bb, |Code(s, bb)|)
    ensures PartlyVisited(s, fn, phiAlloca, m, before, before + [bb], bb, cs, 0)
  {
    hide LoadSite, Placed, Resolve, Rewritten;
    CoversVisited(s, m, before, bb, bb);
    assert cs[..0] == [];
  }

  ghost predicate ChildrenOf(s: Setting, bb: nat, cs: seq<nat>) {
    && Distinct(cs)
    && forall c: nat :: c in cs <==> c < |s.f.blocks| && c != 0 && c in s.idom && s.idom[c] == bb
  }

  lemma {:induction false} ChildOnChain(up: map<nat, nat>, po: seq<nat>, a: nat, x: nat) returns (c: nat)
    requires IsTree(up, po) && x in up && a in Chain(up, po, x) && a != x
    ensures c in up && c in Chain(up, po, x) && c != 0 && up[c] == a
    decreases po[0] - po[x]
  {
    if up[x] == a {
      c := x;
    } else {
      c := ChildOnChain(up, po, a, up[x]);
    }
  }

  /** The subtrees of different children are disjoint. */
  lemma SiblingsDisjoint(s: Setting, bb: nat, c: nat, d: nat, x: nat)
    requires hide ArePreds, Chain, FreshPhis, Placed, WellFormed;
             Sound(s) && x in s.idom && c in s.idom && d in s.idom && c != 0 && d != 0 && c != d
    requires s.idom[c] == bb && s.idom[d] == bb
    ensures !(c in Chain(s.idom, s.po, x) && d in Chain(s.idom, s.po, x))
  {
    hide ArePreds, Cfg, Dominates, FreshPhis, Placed, WellFormed;
    assert Parented(s.idom, s.po, c) && Parented(s.idom, s.po, d);
    assert Chain(s.idom, s.po, c) == {c} + Chain(s.idom, s.po, bb);
    assert Chain(s.idom, s.po, d) == {d} + Chain(s.idom, s.po, bb);
    if c in Chain(s.idom, s.po, x) && d in Chain(s.idom, s.po, x) {
      if s.po[c] <= s.po[d] {
        ChainLinear(s.idom, s.po, c, d, x);
      } else {
        ChainLinear(s.idom, s.po, d, c, x);
      }
    }
  }

  lemma MayEnterChild(s: Setting, fn: Function, phiAlloca: map<nat, nat>, m: map<nat, Operand>, before: seq<nat>,
                      visited: seq<nat>, stacks: map<nat, seq<Operand>>, bb: nat, cs: seq<nat>, j: nat)
    requires hide BeforeVisit, Covers, Resolve, Rewritten, WellFormed;
             PartlyVisited(s, fn, phiAlloca, m, before, visited, bb, cs, j) && j < |cs| && ChildrenOf(s, bb, cs)
    requires Shows(s, stacks, bb, |Code(s, bb)|)
    requires AncestorsVisited(s, before, bb)
    requires forall x :: x in before ==> x < |s.f.blocks| && bb !in Chain(s.idom, s.po, x)
    ensures BeforeVisit(s, fn, phiAlloca, m, visited, stacks, cs[j])
    ensures cs[j] < |s.po| && s.po[cs[j]] < s.po[bb]
  {
    hide Covers, Current, FreshPhis, Placed, Resolve, Rewritten, ShowsInherited, WellFormed;
    var c := cs[j];
    ChildFacts(s, bb, cs, j, before, visited, stacks);
    forall x | x in visited
      ensures x < |s.f.blocks| && c !in Chain(s.idom, s.po, x)
    {
      NotBelowChild(s, before, bb, cs, j, x);
    }
    CoversAnywhere(s, m, visited, bb, c);
  }

  lemma ChildFacts(s: Setting, bb: nat, cs: seq<nat>, j: nat, before: seq<nat>, visited: seq<nat>,
                   stacks: map<nat, seq<Operand>>)
    requires hide Current, FreshPhis, Placed, ShowsInherited, WellFormed;
             Sound(s) && bb < |s.f.blocks| && j < |cs| && ChildrenOf(s, bb, cs)
    requires Shows(s, stacks, bb, |Code(s, bb)|) && AncestorsVisited(s, before, bb)
    requires bb in visited && forall x :: x in before ==> x in visited
    ensures cs[j] < |s.f.blocks| && cs[j] < |s.po| && s.po[cs[j]] < s.po[bb]
    ensures ShowsInherited(s, stacks, cs[j]) && AncestorsVisited(s, visited, cs[j])
  {
    hide ArePreds, Current, FreshPhis, Placed, WellFormed;
    assert cs[j] in cs && Parented(s.idom, s.po, cs[j]);
    assert Chain(s.idom, s.po, cs[j]) == {cs[j]} + Chain(s.idom, s.po, bb);
  }

  lemma NotBelowChild(s: Setting, before: seq<nat>, bb: nat, cs: seq<nat>, j: nat, x: nat)
    requires hide ArePreds, Chain, FreshPhis, Placed, WellFormed;
             Sound(s) && bb < |s.f.blocks| && j < |cs| && ChildrenOf(s, bb, cs)
    requires x in before ==> x < |s.f.blocks| && bb !in Chain(s.idom, s.po, x)
    requires x in before || x == bb || (x < |s.f.blocks| && BelowOne(s, cs[..j], x))
    ensures x < |s.f.blocks| && cs[j] !in Chain(s.idom, s.po, x)
  {
    hide ArePreds, Cfg, Dominates, FreshPhis, Placed, WellFormed;
    var c := cs[j];
    assert c in cs && Parented(s.idom, s.po, c);
    assert Chain(s.idom, s.po, c) == {c} + Chain(s.idom, s.po, bb);
    if x in before {
      if c in Chain(s.idom, s.po, x) {
        ChainUpward(s.idom, s.po, c, x);
      }
    } else if x != bb {
      var i :| 0 <= i < |cs[..j]| && cs[..j][i] in Chain(s.idom, s.po, x);
      assert cs[i] in cs && cs[i] != c;
      SiblingsDisjoint(s, bb, c, cs[i], x);
    }
  }

  lemma CoversAnywhere(s: Setting, m: map<nat, Operand>, visited: seq<nat>, b: nat, c: nat)
    requires hide ArePreds, Covers, FreshPhis, Placed, WellFormed; Sound(s) && Covers(s, m, visited, b, 0)
    ensures Covers(s, m, visited, c, 0)
  {
    hide ArePreds, Chain, Dominates, FreshPhis, LoadSite, Placed, Resolve, WellFormed;
    forall q | LoadSite(s, q).Some?
      ensures LoadDone(s, q, visited, b, 0) <==> LoadDone(s, q, visited, c, 0)
    {
    }
  }

  lemma LeftChild(s: Setting, fn: Function, phiAlloca: map<nat, nat>, m: map<nat, Operand>, before: seq<nat>,
                  visited0: seq<nat>, fn0: Function, m0: map<nat, Operand>, visited: seq<nat>, bb: nat, cs: seq<nat>,
                    j: nat)
    requires hide *; PartlyVisited(s, fn0, phiAlloca, m0, before, visited0, bb, cs, j) && j < |cs|
    requires AfterVisit(s, fn, phiAlloca, m, visited0, visited, cs[j])
    ensures PartlyVisited(s, fn, phiAlloca, m, before, visited, bb, cs, j + 1)
  {
    hide Covers, FreshPhis, Placed, Rewritten, WellFormed;
    CoversAnywhere(s, m, visited, cs[j], bb);
    forall x: nat
      ensures x in visited <==> x in before || x == bb || (x < |s.f.blocks| && BelowOne(s, cs[..j + 1], x))
    {
      if x < |s.f.blocks| {
        BelowNext(s, cs, j, x);
      }
    }
  }

  lemma BelowNext(s: Setting, cs: seq<nat>, j: nat, x: nat)
    requires IsTree(s.idom, s.po) && x in s.idom && j < |cs|
    ensures BelowOne(s, cs[..j + 1], x) <==> BelowOne(s, cs[..j], x) || cs[j] in Chain(s.idom, s.po, x)
  {
    assert cs[..j + 1] == cs[..j] + [cs[j]];
    AnyNext(cs[..j], cs[j], cs[..j + 1], Chain(s.idom, s.po, x));
  }

  lemma AnyNext(front: seq<nat>, last: nat, all: seq<nat>, chain: set<nat>)
    requires all == front + [last]
    ensures (exists i :: 0 <= i < |all| && all[i] in chain)
            <==> (exists i :: 0 <= i < |front| && front[i] in chain) || last in chain
  {
    assert all[|front|] == last;
    if i :| 0 <= i < |front| && front[i] in chain {
      assert all[i] in chain;
    }
  }

  lemma LeftBlock(s: Setting, fn: Function, phiAlloca: map<nat, nat>, m: map<nat, Operand>, before: seq<nat>,
                  visited: seq<nat>, bb: nat, cs: seq<nat>)
    requires hide *; PartlyVisited(s, fn, phiAlloca, m, before, visited, bb, cs, |cs|) && ChildrenOf(s, bb, cs)
    ensures AfterVisit(s, fn, phiAlloca, m, before, visited, bb)
  {
    hide Covers, FreshPhis, Placed, Rewritten, WellFormed;
    assert cs[..|cs|] == cs;
    forall x: nat | x < |s.f.blocks|
      ensures x == bb || BelowOne(s, cs, x) <==> bb in Chain(s.idom, s.po, x)
    {
      if bb in Chain(s.idom, s.po, x) && x != bb {
        var c := ChildOnChain(s.idom, s.po, bb, x);
        assert c in cs;
      }
      if BelowOne(s, cs, x) {
        var i :| 0 <= i < |cs| && cs[i] in Chain(s.idom, s.po, x);
        assert cs[i] in cs && Parented(s.idom, s.po, cs[i]);
        assert bb in Chain(s.idom, s.po, cs[i]);
        ChainUpward(s.idom, s.po, cs[i], x);
      }
    }
  }

  class Mem2RegCtx {
    var fn: Function
    var dt: DominatorTree
    var promotable: seq<nat>
    var phiAlloca: map<nat, nat>
    var stacks: map<nat, seq<Operand>>
    var nextId: nat

    ghost var f: Function
    ghost var slots: seq<seq<nat>>
    ghost var phis: map<(nat, nat), nat>
    ghost var s: Setting
    ghost var m: map<nat, Operand>
    ghost var visited: seq<nat>

    constructor (f: Function, next: nat)
      requires WellFormed(f)
      ensures this.f == fn == f && nextId == next && promotable == []
      ensures HasPhis(f, fn, phiAlloca, next, nextId, slots, phis) && phis == map[]
      ensures fresh(dt) && dt.Describes(Cfg(f))
    {
      fn, nextId, promotable, phiAlloca, stacks := f, next, [], map[], map[];
      this.f, slots, phis := f, NoLists(|f.blocks|), map[];
      var tree := new DominatorTree();
      dt := tree;
      new;
      dt.Analyze(f);
    }

    /** The slots allocated in the entry block; loads and stores are their only uses. */
    method CollectPromotable()
      requires |fn.blocks| > 0 && promotable == [] && UniqueAllocas(fn)
      modifies `promotable
      ensures Distinct(promotable)
      ensures forall a :: a in promotable <==> AllocatedIn(fn.blocks[0].insts, a)
    {
      var insts := fn.blocks[0].insts;
      var k := 0;
      while k < |insts|
        invariant 0 <= k <= |insts| && Distinct(promotable)
        invariant forall a :: a in promotable <==> AllocatedIn(insts[..k], a)
      {
        assert insts[..k + 1] == insts[..k] + [insts[k]];
        if insts[k].Alloca? {
          NotAllocatedTwice(fn, k);
          promotable := promotable + [insts[k].slot];
        }
        k := k + 1;
      }
      assert insts[..k] == insts;
    }

    /** Places the phis of slot `a`: a worklist closes the stores under the dominance frontier. */
    method InsertPhi(a: nat, ghost first: nat)
      requires hide *; HasPhis(f, fn, phiAlloca, first, nextId, slots, phis) && PhiBlocks(phis, a) == {}
      requires dt.Describes(Cfg(f))
      modifies `fn, `phiAlloca, `nextId, `slots, `phis
      ensures HasPhis(f, fn, phiAlloca, first, nextId, slots, phis)
      ensures LeastClosed(f, dt.df, a, PhiBlocks(phis, a))
      ensures SameElsewhere(a, old(phis), phis)
    {
      hide *;
      DescribedFrontiers(dt, f);
      var hasPhi: set<nat> := {};
      SameStores(f, fn, phiAlloca, first, nextId, slots, phis, a);
      var work := StoreBlocks(fn, a);
      StartWork(f, dt.df, a, work);
      NothingElsewhere(a, phis);
      while work != []
        invariant HasPhis(f, fn, phiAlloca, first, nextId, slots, phis) && hasPhi == PhiBlocks(phis, a)
        invariant InProgress(f, dt.df, a, work, hasPhi) && SameElsewhere(a, old(phis), phis) && f == old(f)
        decreases AllBlocks(|f.blocks|) - hasPhi, |work|
      {
        var last := |work| - 1;
        PopWork(f, dt.df, a, work, hasPhi, last);
        hasPhi, work := AddFrontier(a, work[last], hasPhi, work[..last], first, old(phis));
      }
      DoneIsLeast(f, dt.df, a, hasPhi);
    }

    /** Gives every block in the frontier of `x` a phi for `a`, and queues the new ones. */
    method AddFrontier(a: nat, x: nat, hasPhi0: set<nat>, work0: seq<nat>, ghost first: nat,
                       ghost phis0: map<(nat, nat), nat>)
      returns (hasPhi: set<nat>, work: seq<nat>)
      requires hide *; HasPhis(f, fn, phiAlloca, first, nextId, slots, phis) && hasPhi0 == PhiBlocks(phis, a)
      requires x < |dt.df| && forall j :: 0 <= j < |dt.df[x]| ==> dt.df[x][j] < |dt.df|
      requires |dt.df| == |f.blocks|
      requires InProgressAt(f, dt.df, a, work0, hasPhi0, x, 0) && SameElsewhere(a, phis0, phis)
      modifies `fn, `phiAlloca, `nextId, `slots, `phis
      ensures HasPhis(f, fn, phiAlloca, first, nextId, slots, phis) && hasPhi == PhiBlocks(phis, a)
      ensures InProgress(f, dt.df, a, work, hasPhi) && SameElsewhere(a, phis0, phis)
      ensures (hasPhi == hasPhi0 && work == work0) || AllBlocks(|f.blocks|) - hasPhi < AllBlocks(|f.blocks|) - hasPhi0
    {
      hide *;
      hasPhi, work := hasPhi0, work0;
      var j := 0;
      while j < |dt.df[x]|
        invariant 0 <= j <= |dt.df[x]| && hasPhi == PhiBlocks(phis, a)
        invariant HasPhis(f, fn, phiAlloca, first, nextId, slots, phis)
        invariant InProgressAt(f, dt.df, a, work, hasPhi, x, j) && SameElsewhere(a, phis0, phis)
        invariant (hasPhi == hasPhi0 && work == work0)
                  || AllBlocks(|f.blocks|) - hasPhi < AllBlocks(|f.blocks|) - hasPhi0
      {
        var y := dt.df[x][j];
        AddToFrontier(f, dt.df, a, work, hasPhi, x, j, y);
        if y !in hasPhi {
          AddPhi(f, fn, phiAlloca, first, nextId, slots, phis, y, a);
          AddPhiBlock(phis, y, a, nextId);
          SameElsewhereNext(a, phis0, phis, y, nextId);
          FewerLeft(|f.blocks|, hasPhi, y);
          fn := Function(fn.blocks[y := fn.blocks[y].(phis := [Phi(nextId, [])] + fn.blocks[y].phis)]);
          phiAlloca := phiAlloca[nextId := a];
          slots, phis := slots[y := [a] + slots[y]], phis[(y, a) := nextId];
          nextId := nextId + 1;
          hasPhi, work := hasPhi + {y}, work + [y];
        }
        j := j + 1;
      }
      StepPending(f, dt.df, a, work, hasPhi, x, j);
    }

    /** The value of a promoted slot at the current point of the walk. */
    method CurrentValue(a: nat) returns (v: Operand)
      ensures v == if a in stacks then Top(stacks[a]) else Const(0)
    {
      if a !in stacks || stacks[a] == [] {
        v := Const(0);
      } else {
        v := stacks[a][|stacks[a]| - 1];
      }
    }

    /** Phis at the front of a block define new values for their slots. */
    method PushPhis(bb: nat) returns (pushed: seq<nat>)
      requires hide Current, FreshPhis, Placed, Rewritten, WellFormed;
               InWalk(s, fn, phiAlloca, m, visited) && bb < |s.f.blocks| && ShowsInherited(s, stacks, bb)
      modifies `stacks
      ensures Shows(s, stacks, bb, 0) && Grown(old(stacks), stacks, pushed)
    {
      hide *;
      pushed := [];
      InWalkFacts(s, fn, phiAlloca, m, visited);
      PhiCount(s, fn, phiAlloca, m, visited, bb);
      var phis := fn.blocks[bb].phis;
      ghost var start := stacks;
      ShowsNoPhi(s, stacks, bb);
      GrownStarts(stacks);
      var i := 0;
      while i < |phis|
        invariant 0 <= i <= |phis| && Grown(start, stacks, pushed) && ShowsPhis(s, stacks, bb, i)
        invariant stacks.Keys == s.promoted
      {
        PhiNames(s, fn, phiAlloca, m, visited, bb, i);
        if phis[i].dst in phiAlloca {
          var slot := phiAlloca[phis[i].dst];
          GrownPush(start, stacks, pushed, slot, Reg(phis[i].dst));
          ShowsNextPhi(s, stacks, bb, i, Reg(phis[i].dst));
          stacks := stacks[slot := stacks[slot] + [Reg(phis[i].dst)]];
          pushed := pushed + [slot];
        }
        i := i + 1;
      }
      ShowsAllPhis(s, stacks, bb, i);
    }

    /** Loads of promoted slots are replaced by the current value, stores record a new one. */
    method RewriteAccesses(bb: nat, pushed0: seq<nat>, ghost start: map<nat, seq<Operand>>) returns (pushed: seq<nat>)
      requires hide *; AtInst(s, fn, phiAlloca, m, visited, stacks, bb, 0) && Grown(start, stacks, pushed0)
      modifies `fn, `m, `stacks
      ensures bb < |s.f.blocks| && AtInst(s, fn, phiAlloca, m, visited, stacks, bb, |Code(s, bb)|)
      ensures Grown(start, stacks, pushed)
    {
      hide *;
      pushed := pushed0;
      var k := 0;
      AtInstFacts(s, fn, phiAlloca, m, visited, stacks, bb, 0);
      while k < |fn.blocks[bb].insts|
        invariant bb < |fn.blocks| == |s.f.blocks| && 0 <= k <= |fn.blocks[bb].insts| == |Code(s, bb)|
        invariant AtInst(s, fn, phiAlloca, m, visited, stacks, bb, k) && Grown(start, stacks, pushed)
        decreases |Code(s, bb)| - k
      {
        AtInstFacts(s, fn, phiAlloca, m, visited, stacks, bb, k);
        var inst := fn.blocks[bb].insts[k];
        SubstInstShape(m, Code(s, bb)[k]);
        if inst.Load? && inst.ptr.Slot? && inst.ptr.slot in stacks {
          LoadStep(s, fn, phiAlloca, m, visited, stacks, bb, k, inst.dst, inst.ptr.slot);
          var v := CurrentValue(inst.ptr.slot);
          fn, m := ReplaceAllUses(fn, inst.dst, v), m[inst.dst := v];
        } else if inst.Store? && inst.ptr.Slot? && inst.ptr.slot in stacks {
          var a := inst.ptr.slot;
          StoreStep(s, fn, phiAlloca, m, visited, stacks, bb, k, a, Code(s, bb)[k].value);
          GrownPush(start, stacks, pushed, a, inst.value);
          stacks := stacks[a := stacks[a] + [inst.value]];
          pushed := pushed + [a];
        } else {
          PlainStep(s, fn, phiAlloca, m, visited, stacks, bb, k);
        }
        k := k + 1;
        AtInstFacts(s, fn, phiAlloca, m, visited, stacks, bb, k);
      }
    }

    /** The value of this block's edge for each phi of a successor. */
    method FillPhis(x: nat, bb: nat, ghost ss: seq<nat>, ghost j: nat) returns (phis: seq<Phi>)
      requires hide Current, Filling, Placed, Site, WellFormed;
               Sound(s) && bb < |s.f.blocks| && Shows(s, stacks, bb, |Code(s, bb)|)
      requires forall k :: k in s.phis ==> s.phis[k] in phiAlloca && phiAlloca[s.phis[k]] == k.1
      requires j < |ss| && ss[j] == x && x < |s.f.blocks| && Filling(s, fn, m, visited, bb, ss, j)
      ensures x < |fn.blocks| && |phis| == |fn.blocks[x].phis| == |s.slots[x]|
      ensures forall i :: 0 <= i < |phis| ==>
                phis[i] == AddIncoming(fn.blocks[x].phis[i], Outgoing(s, bb, s.slots[x][i]), bb)
    {
      hide *;
      FillingCount(s, fn, m, visited, bb, ss, j);
      phis := fn.blocks[x].phis;
      var i := 0;
      while i < |phis|
        invariant 0 <= i <= |phis| == |fn.blocks[x].phis|
        invariant forall k :: i <= k < |phis| ==> phis[k] == fn.blocks[x].phis[k]
        invariant forall k :: 0 <= k < i ==>
                    phis[k] == AddIncoming(fn.blocks[x].phis[k], Outgoing(s, bb, s.slots[x][k]), bb)
      {
        FilledPhi(s, fn, phiAlloca, m, visited, stacks, bb, ss, j, i);
        if phis[i].dst in phiAlloca {
          var v := CurrentValue(phiAlloca[phis[i].dst]);
          phis := phis[i := AddIncoming(phis[i], v, bb)];
        }
        i := i + 1;
      }
    }

    /** Fills the phis of all successors with the value of this block's edge. */
    method FillSuccessors(bb: nat)
      requires hide Rewritten, Shows, Sound;
               InWalk(s, fn, phiAlloca, m, visited) && bb < |s.f.blocks| && Shows(s, stacks, bb, |Code(s, bb)|)
      requires dt.succs == Cfg(s.f)
      modifies `fn, `visited
      ensures visited == old(visited) + [bb] && InWalk(s, fn, phiAlloca, m, visited)
    {
      hide *;
      InWalkFacts(s, fn, phiAlloca, m, visited);
      var ss := dt.succs[bb];
      SuccessorsInRange(s, bb);
      FillingStarts(s, fn, m, visited, bb, ss);
      var j := 0;
      while j < |ss|
        invariant 0 <= j <= |ss| && visited == old(visited) && Filling(s, fn, m, visited, bb, ss, j)
      {
        var x := ss[j];
        var phis := FillPhis(x, bb, ss, j);
        FillSuccessor(s, fn, phis, m, visited, bb, ss, j);
        fn := Function(fn.blocks[x := fn.blocks[x].(phis := phis)]);
        j := j + 1;
      }
      FillingEnds(s, fn, m, visited, bb, ss);
      visited := visited + [bb];
      InWalkAgain(s, fn, phiAlloca, m, visited);
    }

    /** Pops everything a block pushed. */
    method PopAll(pushed0: seq<nat>, ghost start: map<nat, seq<Operand>>)
      requires Grown(start, stacks, pushed0)
      modifies `stacks
      ensures stacks == start
    {
      hide *;
      var pushed := pushed0;
      while |pushed| > 0
        invariant Grown(start, stacks, pushed)
      {
        var last := |pushed| - 1;
        var a := pushed[last];
        GrownPop(start, stacks, pushed, last);
        stacks := stacks[a := stacks[a][..|stacks[a]| - 1]];
        pushed := pushed[..last];
      }
      GrownNothing(start, stacks);
    }

    /** Renames the subtree of `bb` and leaves the stacks as it found them. */
    method RenameBlock(bb: nat)
      requires hide Covers, Resolve, Rewritten, ShowsInherited, WellFormed;
               BeforeVisit(s, fn, phiAlloca, m, visited, stacks, bb)
      requires dt.succs == Cfg(s.f) && AreChildren(Cfg(s.f), s.idom, dt.children)
      modifies `fn, `m, `visited, `stacks
      ensures AfterVisit(s, fn, phiAlloca, m, old(visited), visited, bb) && stacks == old(stacks)
      decreases if bb < |s.po| then s.po[bb] else 0
    {
      hide *;
      ghost var before, start := visited, stacks;
      Enters(s, fn, phiAlloca, m, visited, stacks, bb);
      var pushed := PushPhis(bb);
      pushed := RewriteAccesses(bb, pushed, start);
      AtEndFacts(s, fn, phiAlloca, m, visited, stacks, bb);
      FillSuccessors(bb);
      ChildrenFacts(s, dt.children, bb);
      var cs := dt.children[bb];
      OwnVisit(s, fn, phiAlloca, m, before, bb, cs);
      ghost var here := stacks;
      var j := 0;
      while j < |cs|
        invariant 0 <= j <= |cs| && stacks == here
        invariant PartlyVisited(s, fn, phiAlloca, m, before, visited, bb, cs, j)
      {
        MayEnterChild(s, fn, phiAlloca, m, before, visited, stacks, bb, cs, j);
        ghost var visited0, fn0, m0 := visited, fn, m;
        RenameBlock(cs[j]);
        LeftChild(s, fn, phiAlloca, m, before, visited0, fn0, m0, visited, bb, cs, j);
        j := j + 1;
      }
      LeftBlock(s, fn, phiAlloca, m, before, visited, bb, cs);
      PopAll(pushed, start);
    }

    /** Places the phis of all promotable slots. */
    method InsertPhis(ghost first: nat)
      requires hide *; Distinct(promotable) && dt.Describes(Cfg(f))
      requires HasPhis(f, fn, phiAlloca, first, nextId, slots, phis) && phis == map[]
      modifies `fn, `phiAlloca, `nextId, `slots, `phis
      ensures HasPhis(f, fn, phiAlloca, first, nextId, slots, phis)
      ensures ClosedFor(f, dt.df, promotable, |promotable|, phis)
    {
      hide *;
      var i := 0;
      NothingClosedYet(f, dt.df, promotable, phis);
      while i < |promotable|
        invariant 0 <= i <= |promotable| && f == old(f)
        invariant HasPhis(f, fn, phiAlloca, first, nextId, slots, phis) && ClosedFor(f, dt.df, promotable, i, phis)
      {
        ghost var phis0 := phis;
        NoPhisYet(f, dt.df, promotable, i, phis);
        InsertPhi(promotable[i], first);
        ClosedForNext(f, dt.df, promotable, i, phis0, phis);
        i := i + 1;
      }
    }

    /** Renames everything, from the entry. */
    method RenameAll(ghost first: nat)
      requires hide Analysed, Replacement, Rewritten, Sound, WellFormed;
               WellFormed(f) && FreshFrom(f, first) && dt.Describes(Cfg(f))
      requires HasPhis(f, fn, phiAlloca, first, nextId, slots, phis)
      requires ClosedFor(f, dt.df, promotable, |promotable|, phis)
      modifies `fn, `stacks, `s, `m, `visited
      ensures s.f == f && s.preds == dt.preds && forall a :: a in promotable <==> a in s.promoted
      ensures InWalk(s, fn, phiAlloca, m, visited) && Distinct(visited)
      ensures m == Replacement(s) && forall x: nat :: x in visited <==> x < |s.f.blocks|
    {
      hide *;
      ghost var setting := SettingOf(f, promotable, dt.preds, dt.idom, dt.po, slots, phis);
      DescribedSound(dt, f, fn, phiAlloca, first, nextId, promotable, slots, phis, setting);
      var empty := NoValues(promotable);
      MayEnterEntry(setting, first, nextId, fn, phiAlloca, empty, promotable);
      stacks, s, m, visited := empty, setting, map[], [];
      RenameBlock(0);
      EverythingVisited(s, fn, phiAlloca, m, visited);
    }

    /** One pass over all blocks that erases accesses, or else allocas, of the promoted slots. */
    method ErasePass(accesses: bool, promoted: set<nat>)
      modifies `fn
      ensures |fn.blocks| == |old(fn).blocks|
      ensures forall b: nat :: b < |fn.blocks| ==>
                fn.blocks[b] == old(fn).blocks[b].(insts := Erasing(promoted, accesses, old(fn).blocks[b].insts))
    {
      hide *;
      var b := 0;
      while b < |fn.blocks|
        invariant 0 <= b <= |fn.blocks| == |old(fn).blocks|
        invariant forall x: nat :: b <= x < |fn.blocks| ==> fn.blocks[x] == old(fn).blocks[x]
        invariant forall x: nat :: x < b ==>
                    fn.blocks[x] == old(fn).blocks[x].(insts := Erasing(promoted, accesses, old(fn).blocks[x].insts))
      {
        var insts := Erase(promoted, accesses, fn.blocks[b].insts);
        fn := Function(fn.blocks[b := fn.blocks[b].(insts := insts)]);
        b := b + 1;
      }
    }

    /** Puts the incoming pairs of every phi into the order of the predecessors. */
    method NormalizePhis()
      requires hide ArePreds, FreshPhis, PhisFilled, Placed, WellFormed;
               Sound(s) && dt.preds == s.preds && PhisFilled(s, fn, visited, 0)
      requires Distinct(visited) && forall x: nat :: x in visited <==> x < |s.f.blocks|
      modifies `fn
      ensures PhisFilled(s, fn, visited, |s.f.blocks|)
      ensures |fn.blocks| == |old(fn).blocks|
      ensures forall b: nat :: b < |fn.blocks| ==> fn.blocks[b] == old(fn).blocks[b].(phis := fn.blocks[b].phis)
    {
      hide *;
      PhisFilledFacts(s, fn, visited, 0);
      var b := 0;
      while b < |fn.blocks|
        invariant 0 <= b <= |fn.blocks| == |old(fn).blocks| == |s.f.blocks| == |s.preds|
                  && PhisFilled(s, fn, visited, b)
        invariant forall x: nat :: x < |fn.blocks| ==> fn.blocks[x] == old(fn).blocks[x].(phis := fn.blocks[x].phis)
      {
        var phis := fn.blocks[b].phis;
        ghost var here := fn;
        var i := 0;
        while i < |phis|
          invariant fn == here && 0 <= i <= |phis| == |fn.blocks[b].phis|
          invariant forall k :: i <= k < |phis| ==> phis[k] == fn.blocks[b].phis[k]
          invariant forall k :: 0 <= k < i ==> IsPhiAt(s, phis[k], b, k)
        {
          ReorderReady(s, fn, visited, b, i);
          var inc := ReorderIncoming(phis[i].incoming, dt.preds[b]);
          ReorderedIsPhiAt(s, fn, visited, b, i, inc);
          phis := phis[i := Phi(phis[i].dst, inc)];
          i := i + 1;
        }
        NextNormalized(s, fn, visited, b, phis);
        fn := Function(fn.blocks[b := fn.blocks[b].(phis := phis)]);
        b := b + 1;
      }
    }

    /** Erases the promoted accesses, then the allocas, then puts the phis in order. */
    method Cleanup()
      requires hide PromotedFunction, Replacement, Rewritten, Sound;
               InWalk(s, fn, phiAlloca, m, visited) && m == Replacement(s) && dt.preds == s.preds
      requires Distinct(visited) && forall x: nat :: x in visited <==> x < |s.f.blocks|
      requires forall a :: a in promotable <==> a in s.promoted
      modifies `fn
      ensures Sound(s) && fn == PromotedFunction(s)
    {
      hide *;
      InWalkFacts(s, fn, phiAlloca, m, visited);
      ghost var fn0 := fn;
      var promoted := set a | a in promotable;
      assert promoted == s.promoted;
      ErasePass(true, promoted);
      ErasePass(false, promoted);
      ErasedKeepsPhis(s, fn0, fn, m, visited);
      ghost var fn1 := fn;
      NormalizePhis();
      NormalizedIsPromoted(s, fn0, fn1, fn, m, visited);
    }
  }

  /** Promotion of the slots allocated in the entry block. `next` is the next free register. */
  method PromoteSlots(f: Function, next: nat) returns (g: Function, ghost s: Setting)
    requires hide PromotedFunction, SameRuns, SsaForm.Strict; WellFormed(f) && UniqueAllocas(f) && FreshFrom(f, next)
    ensures Sound(s) && s.f == f && g == PromotedFunction(s)
    ensures forall a :: a in s.promoted <==> AllocatedIn(f.blocks[0].insts, a)
    ensures SameRuns(f, g) && SsaForm.Strict(g)
    ensures forall a :: AllocatedIn(f.blocks[0].insts, a) ==> !UsesSlot(g, a)
  {
    hide *;
    WellFormedHasEntry(f);
    var ctx := new Mem2RegCtx(f, next);
    ctx.CollectPromotable();
    ctx.InsertPhis(next);
    ctx.RenameAll(next);
    ctx.Cleanup();
    g, s := ctx.fn, ctx.s;
    PromotionPreservesRuns(s);
    PromotedForm.PromotedIsStrict(s);
    forall a | AllocatedIn(f.blocks[0].insts, a) ensures !UsesSlot(g, a) {
      SlotIsGone(s, a);
    }
  }

  /** Some instruction allocates the slot, loads it or stores to it. */
  ghost predicate UsesSlot(f: Function, a: nat) {
    exists b: nat, k: nat ::
      && b < |f.blocks| && k < |f.blocks[b].insts|
      && (var i := f.blocks[b].insts[k];
          i == Alloca(a) || (i.Load? && i.ptr == Slot(a)) || (i.Store? && i.ptr == Slot(a)))
  }

  lemma {:induction false} CleanHasNoSlot(promoted: set<nat>, m: map<nat, Operand>, insts: seq<Inst>, k: nat, a: nat)
    requires hide *; k < |Clean(promoted, m, insts)| && a in promoted
    ensures var i := Clean(promoted, m, insts)[k];
      i != Alloca(a) && !(i.Load? && i.ptr == Slot(a)) && !(i.Store? && i.ptr == Slot(a))
  {
    var n := |insts| - 1;
    if k < |Clean(promoted, m, insts[..n])| {
      CleanHasNoSlot(promoted, m, insts[..n], k, a);
    }
  }

  lemma SlotIsGone(s: Setting, a: nat)
    requires hide *; Sound(s) && a in s.promoted
    ensures !UsesSlot(PromotedFunction(s), a)
  {
    hide Sound, Clean;
    var g := PromotedFunction(s);
    forall b: nat, k: nat | b < |g.blocks| && k < |g.blocks[b].insts|
      ensures var i := g.blocks[b].insts[k];
        i != Alloca(a) && !(i.Load? && i.ptr == Slot(a)) && !(i.Store? && i.ptr == Slot(a))
    {
      assert g.blocks[b] == PromotedBlock(s, b);
      CleanHasNoSlot(s.promoted, Replacement(s), Code(s, b), k, a);
    }
  }

  lemma WellFormedHasEntry(f: Function)
    requires WellFormed(f)
    ensures |f.blocks| > 0
  {
    hide AllDefined, AllReachable, Cfg, Targets, TermUses, UniqueDefs, Uses;
  }

  // ----- the phis in order -----

  ghost predicate IsPhiAt(s: Setting, phi: Phi, b: nat, i: nat)
    requires Sound(s) && b < |s.f.blocks|
  {
    i < |s.slots[b]| && (b, s.slots[b][i]) in s.phis && phi == PhiAt(s, b, s.slots[b][i])
  }

  /** The phis of the blocks before `j` are in order, the others as the walk left them. */
  ghost predicate PhisFilled(s: Setting, fn: Function, visited: seq<nat>, j: nat)
    requires Sound(s)
  {
    && |fn.blocks| == |s.f.blocks|
    && forall b: nat :: b < |fn.blocks| ==>
         && |fn.blocks[b].phis| == |s.slots[b]|
         && forall i :: 0 <= i < |s.slots[b]| ==>
              if b < j then IsPhiAt(s, fn.blocks[b].phis[i], b, i)
                else AsVisited(s, fn.blocks[b].phis[i], visited, b, i)
  }

  ghost predicate AsVisited(s: Setting, phi: Phi, visited: seq<nat>, b: nat, i: nat)
    requires Sound(s) && b < |s.f.blocks| && i < |s.slots[b]|
  {
    var ps := Arrived(Cfg(s.f), visited, b);
    && (b, s.slots[b][i]) in s.phis && (forall k :: 0 <= k < |ps| ==> ps[k] < |s.f.blocks|)
    && PhiFilled(s, phi, b, s.slots[b][i], ps)
  }

  lemma PhisFilledFacts(s: Setting, fn: Function, visited: seq<nat>, j: nat)
    requires hide *; Sound(s) && PhisFilled(s, fn, visited, j)
    ensures |fn.blocks| == |s.f.blocks| == |s.preds|
  {
    hide AsVisited, Exact, FreshPhis, Inflow, Placed, WellFormed;
  }

  lemma IncomingOfInflow(s: Setting, ps: seq<nat>, a: nat, p: nat)
    requires hide *; Sound(s) && (forall i :: 0 <= i < |ps| ==> ps[i] < |s.f.blocks|) && p in ps
    ensures p < |s.f.blocks| && Incoming(Inflow(s, ps, a), p) == Some(Outgoing(s, p, a))
  {
    hide *;
    var k :| 0 <= k < |ps| && ps[k] == p;
    assert Inflow(s, ps, a)[k].1 == p;
    IncomingFound(Inflow(s, ps, a), p, Outgoing(s, p, a));
  }

  /** Every predecessor has exactly one pair in a filled phi. */
  lemma ReorderReady(s: Setting, fn: Function, visited: seq<nat>, b: nat, i: nat)
    requires hide *; Sound(s) && PhisFilled(s, fn, visited, b) && b < |fn.blocks| && i < |fn.blocks[b].phis|
    requires Distinct(visited) && forall x: nat :: x in visited <==> x < |s.f.blocks|
    ensures b < |s.preds| && Distinct(s.preds[b])
    ensures var inc := fn.blocks[b].phis[i].incoming;
            && (forall j :: 0 <= j < |s.preds[b]| ==> Incoming(inc, s.preds[b][j]).Some?)
            && (forall j, k :: 0 <= j < k < |inc| ==> inc[j].1 != inc[k].1)
  {
    hide Exact, Outgoing, Placed, Site, WellFormed;
    var g := Cfg(s.f);
    assert AsVisited(s, fn.blocks[b].phis[i], visited, b, i);
    ArrivedElements(g, visited, b);
    ArrivedDistinct(g, visited, b);
    PredsInRange(s, b);
    forall x: nat | x < |g|
      ensures Distinct(g[x])
    {
      SuccessorsInRange(s, x);
    }
    PredListDistinct(g, b, |g|);
    forall j | 0 <= j < |s.preds[b]|
      ensures Incoming(fn.blocks[b].phis[i].incoming, s.preds[b][j]).Some?
    {
      assert s.preds[b][j] in s.preds[b];
      IncomingOfInflow(s, Arrived(g, visited, b), s.slots[b][i], s.preds[b][j]);
    }
  }

  lemma ReorderedIsPhiAt(s: Setting, fn: Function, visited: seq<nat>, b: nat, i: nat, inc: seq<(Operand, nat)>)
    requires hide AsVisited, Inflow, Sound;
             Sound(s) && PhisFilled(s, fn, visited, b) && b < |fn.blocks| && i < |fn.blocks[b].phis| && b < |s.preds|
    requires forall x: nat :: x in visited <==> x < |s.f.blocks|
    requires var inc0 := fn.blocks[b].phis[i].incoming;
             && (forall j :: 0 <= j < |s.preds[b]| ==> Incoming(inc0, s.preds[b][j]).Some?)
             && |inc| == |s.preds[b]|
             && (forall j :: 0 <= j < |inc| ==> inc[j] == (Incoming(inc0, s.preds[b][j]).value, s.preds[b][j]))
    ensures IsPhiAt(s, Phi(fn.blocks[b].phis[i].dst, inc), b, i)
  {
    hide Exact, Outgoing, Placed, Site, WellFormed;
    var g, a := Cfg(s.f), s.slots[b][i];
    assert AsVisited(s, fn.blocks[b].phis[i], visited, b, i);
    ArrivedElements(g, visited, b);
    PredsInRange(s, b);
    forall j | 0 <= j < |inc|
      ensures inc[j] == Inflow(s, s.preds[b], a)[j]
    {
      assert s.preds[b][j] in s.preds[b];
      IncomingOfInflow(s, Arrived(g, visited, b), a, s.preds[b][j]);
    }
    assert inc == Inflow(s, s.preds[b], a);
  }

  lemma NextNormalized(s: Setting, fn: Function, visited: seq<nat>, b: nat, phis: seq<Phi>)
    requires hide AsVisited, Inflow, Sound;
             Sound(s) && PhisFilled(s, fn, visited, b) && b < |fn.blocks| && |phis| == |fn.blocks[b].phis|
    requires forall k :: 0 <= k < |phis| ==> IsPhiAt(s, phis[k], b, k)
    ensures PhisFilled(s, Function(fn.blocks[b := fn.blocks[b].(phis := phis)]), visited, b + 1)
  {
    hide AsVisited, Inflow, Sound;
  }

  lemma ErasedKeepsPhis(s: Setting, fn0: Function, fn: Function, m: map<nat, Operand>, visited: seq<nat>)
    requires hide FreshPhis, Inflow, PhisFilled, Rewritten, WellFormed; Sound(s) && Rewritten(s, fn0, m, visited)
    requires |fn.blocks| == |fn0.blocks| && forall b: nat :: b < |fn.blocks| ==> fn.blocks[b].phis == fn0.blocks[b].phis
    ensures PhisFilled(s, fn, visited, 0)
  {
    hide Exact, Inflow, Placed, Site, SubstInsts, WellFormed;
    forall b: nat | b < |fn.blocks|
      ensures |fn.blocks[b].phis| == |s.slots[b]|
      ensures forall i :: 0 <= i < |s.slots[b]| ==> AsVisited(s, fn.blocks[b].phis[i], visited, b, i)
    {
      assert BlockRewritten(s, fn0.blocks[b], b, m, Arrived(Cfg(s.f), visited, b));
    }
  }

  lemma NormalizedIsPromoted(s: Setting, fn0: Function, fn1: Function, fn: Function, m: map<nat, Operand>,
                             visited: seq<nat>)
    requires hide BlockRewritten, PhisFilled, PromotedFunction, Replacement, WellFormed;
             Sound(s) && Rewritten(s, fn0, m, visited) && m == Replacement(s)
    requires |fn1.blocks| == |fn0.blocks| && forall b: nat :: b < |fn1.blocks| ==>
               fn1.blocks[b].term == fn0.blocks[b].term &&
               fn1.blocks[b].insts == Erasing(s.promoted, false, Erasing(s.promoted, true, fn0.blocks[b].insts))
    requires PhisFilled(s, fn, visited, |s.f.blocks|) && |fn.blocks| == |fn1.blocks|
    requires forall b: nat :: b < |fn.blocks| ==> fn.blocks[b] == fn1.blocks[b].(phis := fn.blocks[b].phis)
    ensures fn == PromotedFunction(s)
  {
    hide Erasing, Exact, Inflow, Placed, Replacement, WellFormed;
    forall b: nat | b < |fn.blocks|
      ensures fn.blocks[b] == PromotedBlock(s, b)
    {
      assert BlockRewritten(s, fn0.blocks[b], b, m, Arrived(Cfg(s.f), visited, b));
      ErasingIsClean(s.promoted, m, Code(s, b));
      forall i | 0 <= i < |s.slots[b]|
        ensures (b, s.slots[b][i]) in s.phis && fn.blocks[b].phis[i] == PhiAt(s, b, s.slots[b][i])
      {
        assert IsPhiAt(s, fn.blocks[b].phis[i], b, i);
      }
      assert fn.blocks[b].phis == PhisAt(s, b, s.slots[b]);
    }
    assert fn.blocks == PromotedFunction(s).blocks;
  }

  lemma ChildrenFacts(s: Setting, children: seq<seq<nat>>, bb: nat)
    requires hide *; Sound(s) && AreChildren(Cfg(s.f), s.idom, children) && bb < |s.f.blocks|
    ensures bb < |children| && ChildrenOf(s, bb, children[bb])
  {
    hide Cfg, Sound;
  }

  lemma AtEndFacts(s: Setting, fn: Function, phiAlloca: map<nat, nat>, m: map<nat, Operand>, visited: seq<nat>,
                   stacks: map<nat, seq<Operand>>, bb: nat)
    requires hide *; bb < |s.f.blocks| && AtInst(s, fn, phiAlloca, m, visited, stacks, bb, |Code(s, bb)|)
    ensures InWalk(s, fn, phiAlloca, m, visited) && Sound(s)
    ensures Shows(s, stacks, bb, |Code(s, bb)|) && Covers(s, m, visited, bb, |Code(s, bb)|)
  {
    hide AncestorsVisited, Current, Exact, FreshPhis, LoadSite, Placed, Resolve, Rewritten, Site, WellFormed;
  }

  lemma InWalkFacts(s: Setting, fn: Function, phiAlloca: map<nat, nat>, m: map<nat, Operand>, visited: seq<nat>)
    requires hide *; InWalk(s, fn, phiAlloca, m, visited)
    ensures Sound(s) && Rewritten(s, fn, m, visited)
    ensures forall k :: k in s.phis ==> s.phis[k] in phiAlloca && phiAlloca[s.phis[k]] == k.1
    ensures |Cfg(s.f)| == |s.f.blocks|
  {
    hide ArePreds, Exact, FreshPhis, Placed, Rewritten, WellFormed;
  }

  lemma InWalkAgain(s: Setting, fn: Function, phiAlloca: map<nat, nat>, m: map<nat, Operand>, visited: seq<nat>)
    requires hide *; Sound(s) && Rewritten(s, fn, m, visited)
    requires forall k :: k in s.phis ==> s.phis[k] in phiAlloca && phiAlloca[s.phis[k]] == k.1
    ensures InWalk(s, fn, phiAlloca, m, visited)
  {
    hide ArePreds, BlockRewritten, Exact, FreshPhis, Placed, WellFormed;
  }

  lemma SuccessorsInRange(s: Setting, b: nat)
    requires hide *; Sound(s) && b < |s.f.blocks|
    ensures Distinct(Cfg(s.f)[b])
    ensures forall j :: 0 <= j < |Cfg(s.f)[b]| ==> Cfg(s.f)[b][j] < |s.f.blocks|
  {
    hide AllDefined, AllReachable, ArePreds, Exact, FreshPhis, Placed, UniqueDefs;
    forall j | 0 <= j < |Cfg(s.f)[b]|
      ensures Cfg(s.f)[b][j] < |s.f.blocks|
    {
      assert Edge(Cfg(s.f), b, Cfg(s.f)[b][j]);
    }
  }

  lemma SubstInstShape(m: map<nat, Operand>, i: Inst)
    ensures SubstInst(m, i).Load? <==> i.Load?
    ensures SubstInst(m, i).Store? <==> i.Store?
    ensures i.Load? ==> SubstInst(m, i) == i
    ensures i.Store? ==> SubstInst(m, i) == Store(i.ptr, Apply(m, i.value))
  {
  }

  lemma PlainStep(s: Setting, fn: Function, phiAlloca: map<nat, nat>, m: map<nat, Operand>, visited: seq<nat>,
                  stacks: map<nat, seq<Operand>>, bb: nat, k: nat)
    requires hide AncestorsVisited, InWalk, LoadSite, Sound, SubstInst;
             AtInst(s, fn, phiAlloca, m, visited, stacks, bb, k) && k < |Code(s, bb)|
    requires var i := SubstInst(m, Code(s, bb)[k]);
             && !(i.Load? && i.ptr.Slot? && i.ptr.slot in stacks)
             && !(i.Store? && i.ptr.Slot? && i.ptr.slot in stacks)
    ensures AtInst(s, fn, phiAlloca, m, visited, stacks, bb, k + 1)
  {
    hide AncestorsVisited, Covers, Current, InWalk, LoadSite, Sound;
    OtherStep(s, fn, phiAlloca, m, visited, stacks, bb, k);
  }

  lemma PhiCount(s: Setting, fn: Function, phiAlloca: map<nat, nat>, m: map<nat, Operand>, visited: seq<nat>, b: nat)
    requires hide *; InWalk(s, fn, phiAlloca, m, visited) && b < |s.f.blocks|
    ensures |fn.blocks| == |s.f.blocks| == |s.slots| && |fn.blocks[b].phis| == |s.slots[b]|
    ensures fn.blocks[b].insts == SubstInsts(m, Code(s, b)) && fn.blocks[b].term == SubstTerm(m, s.f.blocks[b].term)
  {
    hide ArePreds, Exact, PhiFilled, Placed, Site, SubstInsts, WellFormed;
    assert BlockRewritten(s, fn.blocks[b], b, m, Arrived(Cfg(s.f), visited, b));
  }
}
