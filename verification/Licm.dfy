/** Loop-invariant code motion. */
module Licm {
  import opened Int32
  import opened Graphs
  import opened Ir
  import opened Ssa
  import opened SsaForm
  import opened Loops
  import opened Hoisting
  import opened Movable
  import Dominators

  /** The register is set inside the loop. */
  ghost predicate InsideLoop(f: Function, loop: set<nat>, r: nat) {
    exists q :: Sets(f, q, r) && q.block in loop
  }

  /** Every operand that is set inside the loop is in `known`. */
  ghost predicate Supplied(f: Function, loop: set<nat>, i: Inst, known: seq<nat>) {
    forall r: nat :: Reg(r) in Uses(i) && InsideLoop(f, loop, r) ==> r in known
  }

  /** A pure instruction of the loop sets the register. */
  ghost predicate Candidate(f: Function, loop: set<nat>, c: nat, j: nat, r: nat) {
    c in loop && IsPure(f, c, j) && f.blocks[c].insts[j].dst == r
  }

  /** The register comes from the loop, and its operands from outside or from `known`. */
  ghost predicate Invariant(f: Function, loop: set<nat>, r: nat, known: seq<nat>) {
    exists c: nat, j: nat :: Candidate(f, loop, c, j, r) && Supplied(f, loop, f.blocks[c].insts[j], known)
  }

  /** Each register is invariant given those before it, and none is listed twice. */
  ghost predicate InOrder(f: Function, loop: set<nat>, found: seq<nat>) {
    && Distinct(found)
    && forall n: nat :: n < |found| ==> Invariant(f, loop, found[n], found[..n])
  }

  /** No invariant instruction of the loop has been missed. */
  ghost predicate NoneMissed(f: Function, loop: set<nat>, found: seq<nat>) {
    forall c: nat, j: nat :: c in loop && IsPure(f, c, j) && Supplied(f, loop, f.blocks[c].insts[j], found) ==>
      f.blocks[c].insts[j].dst in found
  }

  // ----- the search for invariant instructions -----

  method IsInsideLoop(f: Function, loop: set<nat>, r: nat) returns (yes: bool)
    ensures yes <==> InsideLoop(f, loop, r)
  {
    var b := 0;
    while b < |f.blocks|
      invariant 0 <= b <= |f.blocks| && forall q :: Sets(f, q, r) && q.block in loop ==> q.block >= b
    {
      if b in loop {
        var here := SetIn(f, b, r);
        if here {
          return true;
        }
      }
      b := b + 1;
    }
    return false;
  }

  method SetIn(f: Function, b: nat, r: nat) returns (yes: bool)
    requires b < |f.blocks|
    ensures yes <==> exists q :: Sets(f, q, r) && q.block == b
  {
    var j := 0;
    while j < |f.blocks[b].phis|
      invariant 0 <= j <= |f.blocks[b].phis| && forall i: nat :: i < j ==> !Sets(f, PhiPlace(b, i), r)
    {
      if f.blocks[b].phis[j].dst == r {
        assert Sets(f, PhiPlace(b, j), r);
        return true;
      }
      j := j + 1;
    }
    var k := 0;
    while k < |f.blocks[b].insts|
      invariant 0 <= k <= |f.blocks[b].insts| && forall i: nat :: i < k ==> !Sets(f, InstPlace(b, i), r)
    {
      if Dst(f.blocks[b].insts[k]) == Some(r) {
        assert Sets(f, InstPlace(b, k), r);
        return true;
      }
      k := k + 1;
    }
    return false;
  }

  method AreSupplied(f: Function, loop: set<nat>, i: Inst, known: seq<nat>) returns (yes: bool)
    ensures yes <==> Supplied(f, loop, i, known)
  {
    hide InsideLoop;
    var vs, n := Uses(i), 0;
    while n < |vs|
      invariant 0 <= n <= |vs|
      invariant forall r: nat :: Reg(r) in vs[..n] && InsideLoop(f, loop, r) ==> r in known
    {
      if vs[n].Reg? && vs[n].id !in known {
        var inside := IsInsideLoop(f, loop, vs[n].id);
        if inside {
          assert Reg(vs[n].id) in Uses(i);
          return false;
        }
      }
      assert vs[..n + 1] == vs[..n] + [vs[n]];
      n := n + 1;
    }
    assert vs[..n] == vs;
    return true;
  }

  ghost function PureRegs(f: Function, b: nat): (s: set<nat>)
    requires b <= |f.blocks|
    ensures forall c: nat, j: nat :: c < b && IsPure(f, c, j) ==> f.blocks[c].insts[j].dst in s
  {
    if b == 0 then {} else PureRegs(f, b - 1) + PureRegsOf(f.blocks[b - 1].insts)
  }

  ghost function PureRegsOf(insts: seq<Inst>): (s: set<nat>)
    ensures forall j: nat :: j < |insts| && Pure(insts[j]) ==> insts[j].dst in s
  {
    if insts == [] then {}
    else PureRegsOf(insts[..|insts| - 1]) + if Pure(insts[|insts| - 1]) then {insts[|insts| - 1].dst} else {}
  }

  lemma {:induction false} DistinctInSet(s: seq<nat>, u: set<nat>)
    requires Distinct(s) && forall x :: x in s ==> x in u
    ensures |s| <= |u|
    decreases |s|
  {
    if s != [] {
      var n := |s| - 1;
      assert forall x :: x in s[..n] ==> x in s;
      DistinctInSet(s[..n], u - {s[n]});
    }
  }

  lemma FoundIsBounded(f: Function, loop: set<nat>, found: seq<nat>)
    requires hide *; InOrder(f, loop, found)
    ensures |found| <= |PureRegs(f, |f.blocks|)|
  {
    hide Supplied;
    forall x | x in found ensures x in PureRegs(f, |f.blocks|) {
      var n: nat :| n < |found| && found[n] == x;
      assert Invariant(f, loop, found[n], found[..n]);
    }
    DistinctInSet(found, PureRegs(f, |f.blocks|));
  }

  lemma FoundMore(f: Function, loop: set<nat>, found: seq<nat>, c: nat, j: nat)
    requires InOrder(f, loop, found) && c in loop && IsPure(f, c, j) && Supplied(f, loop, f.blocks[c].insts[j], found)
    requires f.blocks[c].insts[j].dst !in found
    ensures InOrder(f, loop, found + [f.blocks[c].insts[j].dst])
  {
    hide Supplied;
    var r := f.blocks[c].insts[j].dst;
    var more := found + [r];
    assert Candidate(f, loop, c, j, r);
    forall n: nat | n < |more| ensures Invariant(f, loop, more[n], more[..n]) {
      if n < |found| {
        assert more[..n] == found[..n];
        assert Invariant(f, loop, found[n], found[..n]);
      } else {
        assert more[..n] == found;
      }
    }
  }

  /** What the pass over the blocks has looked at, and left out, with the registers it knew. */
  ghost predicate LookedAt(f: Function, loop: set<nat>, b: nat, k: nat, found: seq<nat>) {
    forall c: nat, j: nat :: (c < b || (c == b && j < k)) && Overlooked(f, loop, c, j, found) ==>
      f.blocks[c].insts[j].dst in found
  }

  ghost predicate Overlooked(f: Function, loop: set<nat>, c: nat, j: nat, found: seq<nat>) {
    c in loop && IsPure(f, c, j) && Supplied(f, loop, f.blocks[c].insts[j], found)
  }

  /** Passes over the blocks of the loop until one finds nothing new. */
  method FindInvariant(f: Function, loop: set<nat>) returns (found: seq<nat>)
    ensures InOrder(f, loop, found) && NoneMissed(f, loop, found)
  {
    hide *;
    found := [];
    NothingFound(f, loop);
    var changed := true;
    while changed
      invariant InOrder(f, loop, found) && (!changed ==> NoneMissed(f, loop, found))
      decreases |PureRegs(f, |f.blocks|)| - |found|, changed
    {
      changed := false;
      ghost var before := found;
      var b := 0;
      NothingLookedAt(f, loop, found);
      while b < |f.blocks|
        invariant 0 <= b <= |f.blocks| && InOrder(f, loop, found) && |before| <= |found|
                  && (changed ==> |before| < |found|)
        invariant !changed ==> found == before && LookedAt(f, loop, b, 0, found)
      {
        var more := FindInBlock(f, loop, b, found);
        if more != found {
          changed := true;
        }
        found := more;
        b := b + 1;
      }
      if !changed {
        AllLookedAt(f, loop, found);
      }
      FoundIsBounded(f, loop, found);
    }
  }

  method FindInBlock(f: Function, loop: set<nat>, b: nat, before: seq<nat>) returns (found: seq<nat>)
    requires hide *; b < |f.blocks| && InOrder(f, loop, before)
    ensures InOrder(f, loop, found) && |before| <= |found| && (found != before ==> |before| < |found|)
    ensures found == before && LookedAt(f, loop, b, 0, before) ==> LookedAt(f, loop, b + 1, 0, found)
  {
    hide InOrder, Supplied, LookedAt;
    found := before;
    if b in loop {
      var k := 0;
      while k < |f.blocks[b].insts|
        invariant 0 <= k <= |f.blocks[b].insts| && InOrder(f, loop, found) && |before| <= |found|
        invariant found != before ==> |before| < |found|
        invariant found == before && LookedAt(f, loop, b, 0, before) ==> LookedAt(f, loop, b, k, found)
      {
        var i := f.blocks[b].insts[k];
        LookNext(f, loop, b, k, found);
        if Pure(i) && i.dst !in found {
          var supplied := AreSupplied(f, loop, i, found);
          if supplied {
            FoundMore(f, loop, found, b, k);
            found := found + [i.dst];
          }
        }
        k := k + 1;
      }
    }
    LookNextBlock(f, loop, b, found);
  }

  lemma NothingFound(f: Function, loop: set<nat>)
    ensures InOrder(f, loop, [])
  {
  }

  lemma NothingLookedAt(f: Function, loop: set<nat>, found: seq<nat>)
    ensures hide *; LookedAt(f, loop, 0, 0, found)
  {
  }

  lemma LookNext(f: Function, loop: set<nat>, b: nat, k: nat, found: seq<nat>)
    requires b < |f.blocks| && k < |f.blocks[b].insts| && b in loop
    ensures var i := f.blocks[b].insts[k];
      LookedAt(f, loop, b, k, found) && (Pure(i) && Supplied(f, loop, i, found) ==> i.dst in found) ==>
        LookedAt(f, loop, b, k + 1, found)
  {
    hide Supplied;
  }

  lemma LookNextBlock(f: Function, loop: set<nat>, b: nat, found: seq<nat>)
    requires hide *; b < |f.blocks|
    ensures LookedAt(f, loop, b, |f.blocks[b].insts|, found) ==> LookedAt(f, loop, b + 1, 0, found)
    ensures b !in loop && LookedAt(f, loop, b, 0, found) ==> LookedAt(f, loop, b + 1, 0, found)
  {
    hide Supplied;
  }

  lemma AllLookedAt(f: Function, loop: set<nat>, found: seq<nat>)
    requires hide *; LookedAt(f, loop, |f.blocks|, 0, found)
    ensures NoneMissed(f, loop, found)
  {
    hide Supplied;
    forall c: nat, j: nat | c in loop && IsPure(f, c, j) && Supplied(f, loop, f.blocks[c].insts[j], found)
      ensures f.blocks[c].insts[j].dst in found
    {
      assert Overlooked(f, loop, c, j, found);
    }
  }

  // ----- the order in which the instructions are moved -----

  /** Every operand that is to be moved has been scheduled. */
  predicate Satisfied(i: Inst, found: seq<nat>, ordered: seq<nat>) {
    forall v | v in Uses(i) :: v.Reg? && v.id in found ==> v.id in ordered
  }

  /** What has been scheduled is invariant in its new order, too. */
  ghost predicate Scheduled(f: Function, loop: set<nat>, found: seq<nat>, ordered: seq<nat>) {
    InOrder(f, loop, ordered) && forall r :: r in ordered ==> r in found
  }

  lemma SupplierIsFound(f: Function, loop: set<nat>, found: seq<nat>, n: nat, c: nat, j: nat)
    requires SetOnce(f) && InOrder(f, loop, found) && n < |found| && IsPure(f, c, j)
             && f.blocks[c].insts[j].dst == found[n]
    ensures c in loop && Supplied(f, loop, f.blocks[c].insts[j], found[..n])
  {
    hide Supplied;
    assert Invariant(f, loop, found[n], found[..n]);
    var c': nat, j': nat :| Candidate(f, loop, c', j', found[n])
      && Supplied(f, loop, f.blocks[c'].insts[j'], found[..n]);
    assert Sets(f, InstPlace(c', j'), found[n]) && Sets(f, InstPlace(c, j), found[n]);
  }

  lemma FoundIsInside(f: Function, loop: set<nat>, found: seq<nat>, r: nat)
    requires InOrder(f, loop, found) && r in found
    ensures InsideLoop(f, loop, r) && exists c: nat, j: nat :: Candidate(f, loop, c, j, r)
  {
    hide Supplied;
    var n: nat :| n < |found| && found[n] == r;
    assert Invariant(f, loop, found[n], found[..n]);
    var c: nat, j: nat :| Candidate(f, loop, c, j, r);
    assert Sets(f, InstPlace(c, j), r);
  }

  lemma ScheduleMore(f: Function, loop: set<nat>, found: seq<nat>, ordered: seq<nat>, c: nat, j: nat)
    requires hide *; SetOnce(f) && InOrder(f, loop, found) && Scheduled(f, loop, found, ordered)
    requires c < |f.blocks| && j < |f.blocks[c].insts| && Dst(f.blocks[c].insts[j]).Some?
    requires var r := Dst(f.blocks[c].insts[j]).value; r in found && r !in ordered
    requires Satisfied(f.blocks[c].insts[j], found, ordered)
    ensures Scheduled(f, loop, found, ordered + [Dst(f.blocks[c].insts[j]).value])
  {
    hide InOrder, InsideLoop;
    var i := f.blocks[c].insts[j];
    var r := Dst(i).value;
    FoundIsPure(f, loop, found, c, j);
    var n: nat :| n < |found| && found[n] == r;
    SupplierIsFound(f, loop, found, n, c, j);
    forall q: nat | Reg(q) in Uses(i) && InsideLoop(f, loop, q) ensures q in ordered {
      assert q in found[..n];
      assert q in found;
    }
    FoundMore(f, loop, ordered, c, j);
  }

  lemma FoundIsPure(f: Function, loop: set<nat>, found: seq<nat>, c: nat, j: nat)
    requires hide *; SetOnce(f) && InOrder(f, loop, found) && c < |f.blocks| && j < |f.blocks[c].insts|
    requires Dst(f.blocks[c].insts[j]).Some? && Dst(f.blocks[c].insts[j]).value in found
    ensures IsPure(f, c, j) && c in loop
  {
    hide Distinct, InsideLoop, Supplied;
    var r := Dst(f.blocks[c].insts[j]).value;
    FoundIsInside(f, loop, found, r);
    var c': nat, j': nat :| Candidate(f, loop, c', j', r);
    assert Sets(f, InstPlace(c', j'), r) && Sets(f, InstPlace(c, j), r);
  }

  /** The first register that is not scheduled could be. */
  lemma NextIsSatisfied(f: Function, loop: set<nat>, found: seq<nat>, ordered: seq<nat>)
    returns (r: nat, c: nat, j: nat)
    requires SetOnce(f) && InOrder(f, loop, found) && Scheduled(f, loop, found, ordered) && |ordered| < |found|
    ensures r in found && r !in ordered && Candidate(f, loop, c, j, r)
            && Satisfied(f.blocks[c].insts[j], found, ordered)
  {
    DistinctParts(f, loop, found);
    hide InOrder;
    var n := FirstUnscheduled(found, ordered);
    r := found[n];
    FoundIsInside(f, loop, found, r);
    c, j :| Candidate(f, loop, c, j, r);
    SupplierIsFound(f, loop, found, n, c, j);
    forall v | v in Uses(f.blocks[c].insts[j]) && v.Reg? && v.id in found ensures v.id in ordered {
      FoundIsInside(f, loop, found, v.id);
      assert Reg(v.id) in Uses(f.blocks[c].insts[j]);
      assert v.id in found[..n];
    }
  }

  /** There is one, because the scheduled registers are distinct and fewer. */
  lemma FirstUnscheduled(found: seq<nat>, ordered: seq<nat>) returns (first: nat)
    requires Distinct(found) && |ordered| < |found|
    ensures first < |found| && found[first] !in ordered && forall r :: r in found[..first] ==> r in ordered
  {
    if forall r :: r in found ==> r in ordered {
      DistinctInSet(found, Elements(ordered));
      ElementsBound(ordered);
      assert false;
    }
    var m: nat :| m < |found| && found[m] !in ordered;
    first := Earliest(found, ordered, m);
  }

  lemma {:induction false} Earliest(found: seq<nat>, ordered: seq<nat>, m: nat) returns (first: nat)
    requires m < |found| && found[m] !in ordered
    ensures first < |found| && found[first] !in ordered && forall r :: r in found[..first] ==> r in ordered
    decreases m
  {
    if k: nat :| k < m && found[k] !in ordered {
      first := Earliest(found, ordered, k);
    } else {
      first := m;
      forall r | r in found[..m] ensures r in ordered {
        var k: nat :| k < m && found[..m][k] == r;
      }
    }
  }

  ghost function Elements(s: seq<nat>): (u: set<nat>)
    ensures forall x :: x in u <==> x in s
  {
    set x | x in s
  }

  lemma {:induction false} ElementsBound(s: seq<nat>)
    ensures |Elements(s)| <= |s|
  {
    if s != [] {
      var n := |s| - 1;
      ElementsBound(s[..n]);
      assert s == s[..n] + [s[n]];
      assert Elements(s) == Elements(s[..n]) + {s[n]};
    }
  }

  /** Passes over the function until every invariant instruction is scheduled; no pass is in vain. */
  method Schedule(f: Function, loop: set<nat>, found: seq<nat>) returns (ordered: seq<nat>)
    requires SetOnce(f) && InOrder(f, loop, found)
    ensures InOrder(f, loop, ordered) && forall r :: r in ordered <==> r in found
  {
    hide SetOnce, InOrder, Satisfied;
    ordered := [];
    NothingFound(f, loop);
    while |ordered| < |found|
      invariant Scheduled(f, loop, found, ordered)
      decreases |found| - |ordered|
    {
      ghost var r, c, j := NextIsSatisfied(f, loop, found, ordered);
      ghost var before := ordered;
      var size := |ordered|;
      var b := 0;
      while b < |f.blocks|
        invariant 0 <= b <= |f.blocks| && Scheduled(f, loop, found, ordered) && |before| <= |ordered|
        invariant ordered == before ==> b <= c
        invariant ordered != before ==> |before| < |ordered|
      {
        ordered := ScheduleBlock(f, loop, found, before, ordered, b, r, c, j);
        b := b + 1;
      }
      if |ordered| == size {
        break;
      }
    }
    DistinctParts(f, loop, found);
    DistinctParts(f, loop, ordered);
    forall r | r in found ensures r in ordered {
      SameElements(found, ordered, r);
    }
  }

  lemma DistinctParts(f: Function, loop: set<nat>, found: seq<nat>)
    requires InOrder(f, loop, found)
    ensures Distinct(found)
  {
    hide Invariant;
  }

  lemma SameElements(found: seq<nat>, ordered: seq<nat>, r: nat)
    requires Distinct(found) && Distinct(ordered) && (forall x :: x in ordered ==> x in found) && |ordered| >= |found|
    ensures r in found ==> r in ordered
  {
    if r in found && r !in ordered {
      DistinctInSet(ordered, Elements(found) - {r});
      ElementsBound(found);
    }
  }

  method ScheduleBlock(f: Function, loop: set<nat>, found: seq<nat>, ghost before: seq<nat>, start: seq<nat>, b: nat,
                       ghost r: nat, ghost c: nat, ghost j: nat) returns (ordered: seq<nat>)
    requires SetOnce(f) && InOrder(f, loop, found) && b < |f.blocks| && Scheduled(f, loop, found, start)
    requires |before| <= |start| && (start != before ==> |before| < |start|)
    requires r in found && r !in before && Candidate(f, loop, c, j, r) && Satisfied(f.blocks[c].insts[j], found, before)
    ensures Scheduled(f, loop, found, ordered) && |before| <= |ordered| && (ordered != before ==> |before| < |ordered|)
    ensures ordered == before ==> start == before && c != b
  {
    hide SetOnce, InOrder;
    ordered := start;
    var k := 0;
    while k < |f.blocks[b].insts|
      invariant 0 <= k <= |f.blocks[b].insts| && Scheduled(f, loop, found, ordered)
      invariant |start| <= |ordered| && (ordered != start ==> |start| < |ordered|)
      invariant ordered == before && c == b ==> k <= j
    {
      var i := f.blocks[b].insts[k];
      var d := Dst(i);
      if d.Some? && d.value in found && d.value !in ordered && Satisfied(i, found, ordered) {
        ScheduleMore(f, loop, found, ordered, b, k);
        ordered := ordered + [d.value];
      }
      k := k + 1;
    }
  }

  // ----- moving -----

  /** An instruction of the loop sets the register, and its operands are at the end of the preheader or in `known`. */
  ghost predicate Waiting(f: Function, loop: set<nat>, p: nat, r: nat, known: seq<nat>) {
    p < |f.blocks| && exists c: nat, j: nat :: Candidate(f, loop, c, j, r) && ReadyOr(f, p, f.blocks[c].insts[j], known)
  }

  ghost predicate ReadyOr(f: Function, p: nat, i: Inst, known: seq<nat>)
    requires p < |f.blocks|
  {
    forall v :: v in Uses(i) ==> Ready(f, p, |f.blocks[p].insts|, v) || (v.Reg? && v.id in known)
  }

  ghost predicate Pending(f: Function, loop: set<nat>, p: nat, rest: seq<nat>) {
    Distinct(rest) && forall n: nat :: n < |rest| ==> Waiting(f, loop, p, rest[n], rest[..n])
  }

  /** An operand from outside the loop is there at the end of the preheader. */
  lemma OutsideIsReady(f: Function, l: NaturalLoop, c: nat, j: nat, v: Operand)
    requires hide *; Strict(f) && IsLoopOf(f, l) && l.preheader.Some? && c in l.blocks
    requires c < |f.blocks| && j < |f.blocks[c].insts| && v in Uses(f.blocks[c].insts[j])
    requires v.Reg? ==> !InsideLoop(f, l.blocks, v.id)
    ensures l.preheader.value < |f.blocks| && Ready(f, l.preheader.value, |f.blocks[l.preheader.value].insts|, v)
  {
    hide Describes, Dominates;
    var p := l.preheader.value;
    assert IsPreheader(f, l.header, l.blocks, p);
    assert AllReady(f, c, j, Uses(f.blocks[c].insts[j]));
    if v.Reg? {
      var q :| Sets(f, q, v.id) && Before(f, q, c, j);
      OutsideDominatesPreheader(f, l, q.block, c);
      assert Before(f, q, p, |f.blocks[p].insts|);
    }
  }

  lemma AllPending(f: Function, l: NaturalLoop, ordered: seq<nat>)
    requires hide *; Strict(f) && IsLoopOf(f, l) && l.preheader.Some? && InOrder(f, l.blocks, ordered)
    ensures Pending(f, l.blocks, l.preheader.value, ordered)
  {
    hide Strict, Ready, InsideLoop;
    var p := l.preheader.value;
    forall n: nat | n < |ordered| ensures Waiting(f, l.blocks, p, ordered[n], ordered[..n]) {
      assert Invariant(f, l.blocks, ordered[n], ordered[..n]);
      var c: nat, j: nat :| Candidate(f, l.blocks, c, j, ordered[n])
        && Supplied(f, l.blocks, f.blocks[c].insts[j], ordered[..n]);
      var i := f.blocks[c].insts[j];
      assert p < |f.blocks|;
      forall v | v in Uses(i) ensures Ready(f, p, |f.blocks[p].insts|, v) || (v.Reg? && v.id in ordered[..n]) {
        if v.Reg? && InsideLoop(f, l.blocks, v.id) {
          assert v == Reg(v.id);
        } else {
          OutsideIsReady(f, l, c, j, v);
        }
      }
      assert ReadyOr(f, p, i, ordered[..n]);
    }
  }

  /** The first of the pending instructions may be moved. */
  lemma FirstIsHoistable(f: Function, l: NaturalLoop, rest: seq<nat>, c: nat, j: nat)
    requires hide *; Strict(f) && IsLoopOf(f, l) && l.preheader.Some? && rest != []
             && Pending(f, l.blocks, l.preheader.value, rest)
    requires c < |f.blocks| && j < |f.blocks[c].insts| && Dst(f.blocks[c].insts[j]) == Some(rest[0])
    ensures Hoistable(f, c, j, l.preheader.value) && c in l.blocks
  {
    hide Describes, Dominates, Ready;
    var p := l.preheader.value;
    assert Waiting(f, l.blocks, p, rest[0], rest[..0]);
    var c': nat, j': nat :| Candidate(f, l.blocks, c', j', rest[0]) && ReadyOr(f, p, f.blocks[c'].insts[j'], rest[..0]);
    assert Sets(f, InstPlace(c', j'), rest[0]) && Sets(f, InstPlace(c, j), rest[0]);
    PreheaderDominates(f, l, c);
    assert rest[..0] == [];
  }

  /** The others still wait, and no longer for the one that was moved. */
  lemma StillWaiting(f: Function, loop: set<nat>, c: nat, j: nat, p: nat, r: nat, known: seq<nat>)
    requires Hoistable(f, c, j, p) && p !in loop && known != [] && known[0] == MovedReg(f, c, j) && r != known[0]
    requires Waiting(f, loop, p, r, known)
    ensures Waiting(Hoisted(f, c, j, p), loop, p, r, known[1..])
  {
    hide Hoisted, Hoistable, Ready;
    IsPureHere(f, c, j, p);
    var g := Hoisted(f, c, j, p);
    var c': nat, j': nat :| Candidate(f, loop, c', j', r) && ReadyOr(f, p, f.blocks[c'].insts[j'], known);
    HoistedInsts(f, c, j, p, c');
    var k := NewIndex(c, j, c', j');
    assert g.blocks[c'].insts[k] == f.blocks[c'].insts[j'];
    assert Candidate(g, loop, c', k, r);
    forall v | v in Uses(f.blocks[c'].insts[j'])
      ensures Ready(g, p, |g.blocks[p].insts|, v) || (v.Reg? && v.id in known[1..])
    {
      if v.Reg? && v.id == known[0] {
        MovedIsReady(f, c, j, p);
      } else if Ready(f, p, |f.blocks[p].insts|, v) {
        ReadyAtEnd(f, c, j, p, p, v);
      }
    }
    assert ReadyOr(g, p, g.blocks[c'].insts[k], known[1..]);
  }

  lemma MovedIsReady(f: Function, c: nat, j: nat, p: nat)
    requires hide Cfg, Dominates, Hoisted, Ready, Strict; Hoistable(f, c, j, p)
    ensures var g := Hoisted(f, c, j, p); Ready(g, p, |g.blocks[p].insts|, Reg(MovedReg(f, c, j)))
  {
    hide Hoisted, Strict, Uses;
    var g, n := Hoisted(f, c, j, p), |f.blocks[p].insts|;
    HoistedInsts(f, c, j, p, p);
    hide Hoisted;
    assert Sets(g, InstPlace(p, n), MovedReg(f, c, j));
    assert Before(g, InstPlace(p, n), p, n + 1);
  }

  lemma RestIsPending(f: Function, loop: set<nat>, c: nat, j: nat, p: nat, rest: seq<nat>)
    requires hide AllReady, Fed, Hoisted, Pending, Sets;
             Hoistable(f, c, j, p) && p !in loop && rest != [] && Pending(f, loop, p, rest)
             && rest[0] == MovedReg(f, c, j)
    ensures Pending(Hoisted(f, c, j, p), loop, p, rest[1..])
  {
    hide Hoistable, Hoisted, Waiting;
    IsPureHere(f, c, j, p);
    forall n: nat | n < |rest[1..]| ensures Waiting(Hoisted(f, c, j, p), loop, p, rest[1..][n], rest[1..][..n]) {
      assert Waiting(f, loop, p, rest[n + 1], rest[..n + 1]);
      StillWaiting(f, loop, c, j, p, rest[n + 1], rest[..n + 1]);
      assert rest[..n + 1][1..] == rest[1..][..n];
    }
  }

  lemma StillALoop(f: Function, l: NaturalLoop, c: nat, j: nat, p: nat)
    requires hide *; IsLoopOf(f, l) && c < |f.blocks| && j < |f.blocks[c].insts|
    ensures IsLoopOf(Hoisted(f, c, j, p), l)
  {
    hide Describes;
    SameGraph(f, c, j, p);
    if l.preheader.Some? {
      var q := l.preheader.value;
      assert IsPreheader(f, l.header, l.blocks, q);
      assert Hoisted(f, c, j, p).blocks[q] == HoistedBlock(f, c, j, p, q);
    }
  }

  // ----- what is left in the loop -----

  /** Nothing but the moved registers has left the loop. */
  ghost predicate Remains(f: Function, g: Function, loop: set<nat>, moved: set<nat>) {
    && |g.blocks| == |f.blocks|
    && (forall b: nat, k: nat :: b in loop && b < |g.blocks| && k < |g.blocks[b].insts| ==>
          CameFrom(f, b, g.blocks[b].insts[k], moved))
    && (forall r: nat :: InsideLoop(f, loop, r) && r !in moved ==> InsideLoop(g, loop, r))
  }

  ghost predicate CameFrom(f: Function, b: nat, i: Inst, moved: set<nat>) {
    && (Dst(i).Some? ==> Dst(i).value !in moved)
    && b < |f.blocks| && exists k: nat :: k < |f.blocks[b].insts| && f.blocks[b].insts[k] == i
  }

  lemma NothingMoved(f: Function, loop: set<nat>)
    ensures Remains(f, f, loop, {})
  {
  }

  lemma MoveRemains(f0: Function, f: Function, loop: set<nat>, moved: set<nat>, c: nat, j: nat, p: nat)
    requires hide AllReady, Dominates, Hoisted, Remains, Strict;
             Remains(f0, f, loop, moved) && Hoistable(f, c, j, p) && p !in loop
    ensures Remains(f0, Hoisted(f, c, j, p), loop, moved + {MovedReg(f, c, j)})
  {
    hide AllReady, Cfg, Dominates, HoistedBlock, Strict, Hoistable, Hoisted;
    IsPureHere(f, c, j, p);
    var g, r0 := Hoisted(f, c, j, p), MovedReg(f, c, j);
    forall b: nat, k: nat | b in loop && b < |g.blocks| && k < |g.blocks[b].insts|
      ensures CameFrom(f0, b, g.blocks[b].insts[k], moved + {r0})
    {
      InstCameFrom(f, c, j, p, b, k);
      var q := OldPlace(f, c, j, p, InstPlace(b, k));
      OldPlaceElsewhere(f, c, j, p, b, k);
      assert CameFrom(f0, b, f.blocks[b].insts[q.index], moved);
      OnlyOnce(f, c, j, p, b, q.index);
    }
    forall r: nat | InsideLoop(f0, loop, r) && r !in moved + {r0} ensures InsideLoop(g, loop, r) {
      assert InsideLoop(f, loop, r);
      var q :| Sets(f, q, r) && q.block in loop;
      SetsMoved(f, c, j, p, q, r);
      assert q == InstPlace(c, j) ==> r == r0;
    }
  }

  lemma OldPlaceElsewhere(f: Function, c: nat, j: nat, p: nat, b: nat, k: nat)
    requires p < |f.blocks| && b != p
    ensures var q := OldPlace(f, c, j, p, InstPlace(b, k)); q.InstPlace? && q.block == b && q != InstPlace(c, j)
  {
  }

  lemma OnlyOnce(f: Function, c: nat, j: nat, p: nat, b: nat, k: nat)
    requires hide AllReady, Cfg, Dominates, Dst, Strict;
             Hoistable(f, c, j, p) && b < |f.blocks| && k < |f.blocks[b].insts| && InstPlace(b, k) != InstPlace(c, j)
    ensures Dst(f.blocks[b].insts[k]) != Some(MovedReg(f, c, j))
  {
    hide AllReachable, AllReady, Cfg, Fed, PathTo, TermUses, Uses;
    var r := MovedReg(f, c, j);
    assert Sets(f, InstPlace(c, j), r);
    assert Dst(f.blocks[b].insts[k]) == Some(r) ==> Sets(f, InstPlace(b, k), r);
  }

  /** No instruction left in the loop has all its operands outside. */
  ghost predicate Exhausted(g: Function, loop: set<nat>) {
    forall c: nat, j: nat :: c in loop && IsPure(g, c, j) ==> !Supplied(g, loop, g.blocks[c].insts[j], [])
  }

  lemma RemainsIsExhausted(f: Function, g: Function, loop: set<nat>, found: seq<nat>)
    requires Remains(f, g, loop, Elements(found)) && NoneMissed(f, loop, found)
    ensures Exhausted(g, loop)
  {
    hide InsideLoop;
    forall c: nat, j: nat | c in loop && IsPure(g, c, j) ensures !Supplied(g, loop, g.blocks[c].insts[j], []) {
      var i := g.blocks[c].insts[j];
      assert CameFrom(f, c, i, Elements(found));
      var k: nat :| k < |f.blocks[c].insts| && f.blocks[c].insts[k] == i;
      assert IsPure(f, c, k);
      var r: nat :| Reg(r) in Uses(i) && InsideLoop(f, loop, r) && r !in found;
    }
  }

  // ----- the other loops -----

  /** What is moved out of a loop stays in the loops around it, and was in no loop that nothing is left to move out of.
      */
  lemma MovesWithin(f: Function, l: NaturalLoop, other: NaturalLoop, c: nat, j: nat, p: nat)
    requires Hoistable(f, c, j, p) && l.preheader == Some(p) && c in l.blocks && IsLoopOf(f, l) && IsLoopOf(f, other)
    requires other.preheader.Some? && l.header != other.header && Exhausted(f, other.blocks)
    ensures p in other.blocks <==> c in other.blocks
  {
    hide Cfg, Describes, Fed, Hoisted, InLoop, IsLoopOf, Sets, Dominates;
    StrictReaches(f, c, p);
    if p in other.blocks {
      NestedByPreheader(f, l, other, c);
    } else if c in other.blocks {
      assert !Supplied(f, other.blocks, f.blocks[c].insts[j], []);
      var r: nat :| Reg(r) in Uses(f.blocks[c].insts[j]) && InsideLoop(f, other.blocks, r);
      var q :| Sets(f, q, r) && q.block in other.blocks;
      var q' :| Sets(f, q', r) && Before(f, q', p, |f.blocks[p].insts|);
      StrictIsSetOnce(f);
      assert q' == q;
      WithPreheader(f, other);
      HeaderDominates(Cfg(f), other.header, q.block);
      DominatesThrough(Cfg(f), other.header, q.block, p);
      NothingBetween(Cfg(f), other.header, p, c);
    }
  }

  lemma StrictReaches(f: Function, c: nat, p: nat)
    requires Strict(f) && c < |f.blocks| && p < |f.blocks|
    ensures AllReachable(Cfg(f)) && Reachable(Cfg(f), c) && Reachable(Cfg(f), p)
  {
    hide Cfg, Reachable, Strict, Valid;
    StrictGraph(f);
  }

  lemma OtherStaysExhausted(f: Function, l: NaturalLoop, other: NaturalLoop, c: nat, j: nat, p: nat)
    requires hide Exhausted, Hoisted, IsLoopOf, Sets, Strict;
             Hoistable(f, c, j, p) && l.preheader == Some(p) && c in l.blocks && IsLoopOf(f, l) && IsLoopOf(f, other)
    requires other.preheader.Some? && l.header != other.header && Exhausted(f, other.blocks)
    ensures Exhausted(Hoisted(f, c, j, p), other.blocks)
  {
    hide Hoistable, Hoisted, IsLoopOf, OldPlace, Sets;
    IsPureHere(f, c, j, p);
    MovesWithin(f, l, other, c, j, p);
    var g, loop := Hoisted(f, c, j, p), other.blocks;
    forall b: nat, k: nat | b in loop && IsPure(g, b, k) ensures !Supplied(g, loop, g.blocks[b].insts[k], []) {
      InstCameFrom(f, c, j, p, b, k);
      var q := OldPlace(f, c, j, p, InstPlace(b, k));
      assert q.block in loop && IsPure(f, q.block, q.index);
      var r: nat :| Reg(r) in Uses(f.blocks[q.block].insts[q.index]) && InsideLoop(f, loop, r);
      var d :| Sets(f, d, r) && d.block in loop;
      SetsMoved(f, c, j, p, d, r);
      assert NewPlace(f, c, j, p, d).block in loop;
    }
  }

  lemma HoistingAddsNothing(f: Function, c: nat, j: nat, p: nat)
    requires hide AddsNothing, AllReady, Dominates, Hoisted, Strict; Hoistable(f, c, j, p)
    ensures AddsNothing(f, Hoisted(f, c, j, p))
  {
    hide Hoistable, Hoisted, NewPlace, OldPlace;
    IsPureHere(f, c, j, p);
    hide Hoisted, Hoistable, Pure;
    var g := Hoisted(f, c, j, p);
    forall b: nat, k: nat | b < |g.blocks| && k < |g.blocks[b].insts|
      ensures HasKin(f, g.blocks[b].insts[k])
    {
      InstCameFrom(f, c, j, p, b, k);
      assert Kin(g.blocks[b].insts[k], g.blocks[b].insts[k]);
    }
  }

  /** What a loop with a preheader is exhausted of is what could be moved. */
  lemma ExhaustedIsFree(f: Function, loop: set<nat>)
    requires Exhausted(f, loop)
    ensures NothingToMove(f, loop)
  {
    hide Supplied, SetOutside, CouldMove;
    forall c: nat, j: nat
      ensures !CouldMove(f, loop, c, j)
    {
      if CouldMove(f, loop, c, j) {
        CouldMoveIsPure(f, loop, c, j);
        OperandsOutside(f, loop, c, j);
        OutsideIsSupplied(f, loop, f.blocks[c].insts[j]);
      }
    }
  }

  lemma OutsideIsSupplied(f: Function, loop: set<nat>, i: Inst)
    requires forall v :: v in Uses(i) ==> SetOutside(f, loop, v)
    ensures Supplied(f, loop, i, [])
  {
    forall r: nat | Reg(r) in Uses(i)
      ensures !InsideLoop(f, loop, r)
    {
      assert SetOutside(f, loop, Reg(r));
    }
  }

  /** A loop with a preheader dominates nothing outside that dominates a block of it. */
  lemma LoopIsSealed(f: Function, l: NaturalLoop)
    requires Strict(f) && IsLoopOf(f, l) && l.preheader.Some?
    ensures Sealed(Cfg(f), l.blocks)
  {
    hide Cfg, Describes, InLoop, IsLoopOf, PathTo, Strict, Dominates;
    StrictGraph(f);
    EntryHasNoEdge(f);
    var g, p, h := Cfg(f), l.preheader.value, l.header;
    WithPreheader(f, l);
    HeaderInLoop(g, h);
    HasPreheader(f, l);
    BlockReachable(g, p, h, h);
    PreheaderDominates(f, l, h);
    forall d: nat, c: nat, e: nat | d !in l.blocks && c in l.blocks && e in l.blocks && Dominates(g, d, c)
      ensures !Dominates(g, e, d)
    {
      if Dominates(g, e, d) {
        BlockReachable(g, p, h, c);
        OutsideDominatesPreheader(f, l, d, c);
        PreheaderDominates(f, l, e);
        DominatesThrough(g, h, e, d);
        DominatesThrough(g, h, d, p);
        DominatesAntisymmetric(g, p, h);
      }
    }
  }

  lemma EntryHasNoEdge(f: Function)
    requires hide *; Strict(f)
    ensures forall d: nat :: !Edge(Cfg(f), d, 0)
  {
    hide AllReachable, AllReady, Fed, Sets, Targets, TermUses, Uses;
  }

  lemma HasPreheader(f: Function, l: NaturalLoop)
    requires hide *; IsLoopOf(f, l) && l.preheader.Some?
    ensures Edge(Cfg(f), l.preheader.value, l.header)
  {
  }

  lemma BlockReachable(g: Graph, p: nat, h: nat, c: nat)
    requires Valid(g) && AllReachable(g) && Edge(g, p, h) && InLoop(g, h, c)
    ensures Reachable(g, c)
  {
    if c != h {
      var q: seq<nat> :| Walk(g, h, q) && q[0] == c;
    }
  }

  lemma HeaderInLoop(g: Graph, h: nat)
    ensures InLoop(g, h, h)
  {
  }

  // ----- the pass -----

  method HoistLoop(f0: Function, l: NaturalLoop) returns (f: Function)
    requires Strict(f0) && IsLoopOf(f0, l) && l.preheader.Some?
    ensures Strict(f) && SameRuns(f0, f) && Cfg(f) == Cfg(f0) && Exhausted(f, l.blocks) && AddsNothing(f0, f)
    ensures forall l' :: IsLoopOf(f0, l') ==> IsLoopOf(f, l')
    ensures forall l' :: IsLoopOf(f0, l') && l'.preheader.Some? && Exhausted(f0, l'.blocks) ==> Exhausted(f, l'.blocks)
  {
    hide AddsNothing, Hoistable, Hoisted, InOrder, IsLoopOf, Pending, SameRuns, Strict, NoneMissed, Remains,
         Exhausted;
    StrictIsSetOnce(f0);
    var found := FindInvariant(f0, l.blocks);
    var ordered := Schedule(f0, l.blocks, found);
    var p := l.preheader.value;
    AllPending(f0, l, ordered);
    NothingMoved(f0, l.blocks);
    RunsLikeItself(f0);
    PreheaderOutside(f0, l);
    AddsNothingToItself(f0);
    f := f0;
    var n := 0;
    assert Elements(ordered[..0]) == {} && ordered[0..] == ordered;
    while n < |ordered|
      invariant 0 <= n <= |ordered| && Strict(f) && SameRuns(f0, f) && Cfg(f) == Cfg(f0) && IsLoopOf(f, l)
      invariant AddsNothing(f0, f)
      invariant Pending(f, l.blocks, p, ordered[n..]) && Remains(f0, f, l.blocks, Elements(ordered[..n]))
      invariant forall l' :: IsLoopOf(f0, l') ==> IsLoopOf(f, l')
      invariant forall l' :: Other(f0, l', l.header) ==> Exhausted(f, l'.blocks)
    {
      var r := ordered[n];
      assert ordered[n..][0] == r;
      var place := Definition(f, r);
      PendingHasPlace(f, l.blocks, p, ordered[n..]);
      var (c, j) := place.value;
      assert Sets(f, InstPlace(c, j), r);
      FirstIsHoistable(f, l, ordered[n..], c, j);
      IsPureHere(f, c, j, p);
      HoistedIsStrict(f, c, j, p);
      HoistingPreservesRuns(f, c, j, p);
      SameGraph(f, c, j, p);
      RestIsPending(f, l.blocks, c, j, p, ordered[n..]);
      MoveRemains(f0, f, l.blocks, Elements(ordered[..n]), c, j, p);
      assert ordered[..n + 1] == ordered[..n] + [r];
      assert Elements(ordered[..n + 1]) == Elements(ordered[..n]) + {MovedReg(f, c, j)};
      assert ordered[n..][1..] == ordered[n + 1..];
      forall l' | IsLoopOf(f, l') ensures IsLoopOf(Hoisted(f, c, j, p), l') {
        StillALoop(f, l', c, j, p);
      }
      forall l' | Other(f0, l', l.header) ensures Exhausted(Hoisted(f, c, j, p), l'.blocks) {
        OtherIsLoop(f0, l', l.header);
        OtherStaysExhausted(f, l, l', c, j, p);
      }
      RunsTrans(f0, f, Hoisted(f, c, j, p));
      HoistingAddsNothing(f, c, j, p);
      AddsNothingOn(f0, f, Hoisted(f, c, j, p));
      f := Hoisted(f, c, j, p);
      n := n + 1;
    }
    assert ordered[..n] == ordered;
    assert Elements(ordered) == Elements(found);
    RemainsIsExhausted(f0, f, l.blocks, found);
    forall l' | IsLoopOf(f0, l') && l'.preheader.Some? && Exhausted(f0, l'.blocks) ensures Exhausted(f, l'.blocks) {
      if l'.header == l.header {
        SameLoop(f0, l, l');
      } else {
        assert Other(f0, l', l.header);
      }
    }
  }

  /** A loop with another header that nothing is left to move out of. */
  ghost predicate Other(f: Function, l: NaturalLoop, h: nat) {
    IsLoopOf(f, l) && l.preheader.Some? && l.header != h && Exhausted(f, l.blocks)
  }

  lemma OtherIsLoop(f: Function, l: NaturalLoop, h: nat)
    requires Other(f, l, h)
    ensures IsLoopOf(f, l) && l.preheader.Some? && l.header != h
  {
    hide Cfg, Describes, Exhausted, IsPreheader;
  }

  lemma SameLoop(f: Function, l: NaturalLoop, l': NaturalLoop)
    requires IsLoopOf(f, l) && IsLoopOf(f, l') && l.preheader.Some? && l'.preheader.Some? && l.header == l'.header
    ensures l.blocks == l'.blocks
  {
    hide InLoop, Describes;
    WithPreheader(f, l);
    WithPreheader(f, l');
    assert forall c: nat :: c in l.blocks <==> c in l'.blocks;
  }

  lemma StrictIsSetOnce(f: Function)
    requires Strict(f)
    ensures SetOnce(f)
  {
    hide AllReachable, AllReady, Cfg, Fed, Sets, TermUses, Uses;
  }

  lemma PreheaderOutside(f: Function, l: NaturalLoop)
    requires hide *; IsLoopOf(f, l) && l.preheader.Some?
    ensures l.preheader.value !in l.blocks && l.preheader.value < |f.blocks|
  {
  }

  lemma PendingHasPlace(f: Function, loop: set<nat>, p: nat, rest: seq<nat>)
    requires hide *; Pending(f, loop, p, rest) && rest != []
    ensures exists c: nat, j: nat :: Sets(f, InstPlace(c, j), rest[0])
  {
    assert Waiting(f, loop, p, rest[0], rest[..0]);
    var c: nat, j: nat :| Candidate(f, loop, c, j, rest[0]);
    assert Sets(f, InstPlace(c, j), rest[0]);
  }

  lemma RunsLikeItself(f: Function)
    ensures SameRuns(f, f)
  {
    hide Run;
  }

  lemma RunsTrans(f: Function, g: Function, h: Function)
    requires SameRuns(f, g) && SameRuns(g, h)
    ensures SameRuns(f, h)
  {
    hide Run;
    forall params: seq<i32>, callees: Callees, w: World, n: nat
      ensures SameSoFar(Run(f, params, callees, Start(w), n), Run(h, params, callees, Start(w), n))
    {
      assert SameSoFar(Run(f, params, callees, Start(w), n), Run(g, params, callees, Start(w), n));
      assert SameSoFar(Run(g, params, callees, Start(w), n), Run(h, params, callees, Start(w), n));
    }
  }

  lemma HasLatch(f: Function, l: NaturalLoop)
    requires IsLoopOf(f, l)
    ensures exists t: nat :: IsLatch(Cfg(f), l.header, t)
  {
    hide Cfg, InLoop, IsLatch, IsPreheader, PredsIn;
  }

  /** The loop found for a header is the one with the preheader, if there is one. */
  lemma TheLoop(f0: Function, f: Function, l: NaturalLoop, l': NaturalLoop)
    requires IsLoopOf(f, l) && l.preheader.Some? && Cfg(f) == Cfg(f0) && IsLoopOf(f0, l') && l'.header == l.header
    requires l'.preheader.None? ==> forall q: nat :: !IsPreheader(f0, l'.header, l'.blocks, q)
    ensures l'.preheader.Some? && l'.blocks == l.blocks
  {
    hide InLoop;
    var g, h, p := Cfg(f), l.header, l.preheader.value;
    WithPreheader(f, l);
    assert !Edge(g, h, h);
    assert forall c: nat :: c in l.blocks <==> c in l'.blocks;
    assert l'.blocks == l.blocks;
    assert g[p] == Targets(Br(h)) && g[p] == Targets(f0.blocks[p].term);
    assert IsPreheader(f0, h, l'.blocks, p);
  }

  /** One loop after another, in any order of the headers: whichever it is, no loop with a preheader keeps an
      instruction whose operands are all set outside. */
  method HoistInvariants(f0: Function, order: seq<nat>) returns (f: Function)
    requires Strict(f0)
    ensures Strict(f) && SameRuns(f0, f) && Cfg(f) == Cfg(f0) && AddsNothing(f0, f)
    ensures forall l :: IsLoopOf(f, l) && l.preheader.Some? && l.header in order ==> NothingToMove(f, l.blocks)
  {
    hide *;
    var dt := new Dominators.DominatorTree();
    StrictGraph(f0);
    dt.Analyze(f0);
    var loops := FindNaturalLoops(f0, dt, order);
    f := f0;
    RunsLikeItself(f0);
    AddsNothingToItself(f0);
    var n := 0;
    while n < |loops|
      invariant 0 <= n <= |loops| && Strict(f) && SameRuns(f0, f) && Cfg(f) == Cfg(f0)
      invariant AddsNothing(f0, f) && forall l :: l in loops ==> IsLoopOf(f, l)
      invariant forall i :: 0 <= i < n && loops[i].preheader.Some? ==> Exhausted(f, loops[i].blocks)
    {
      if loops[n].preheader.Some? {
        var g := HoistLoop(f, loops[n]);
        RunsTrans(f0, f, g);
        AddsNothingOn(f0, f, g);
        forall i | 0 <= i < n && loops[i].preheader.Some? ensures Exhausted(g, loops[i].blocks) {
          assert IsLoopOf(f, loops[i]);
        }
        f := g;
      }
      n := n + 1;
    }
    forall l | IsLoopOf(f, l) && l.preheader.Some? && l.header in order ensures NothingToMove(f, l.blocks) {
      HasLatch(f, l);
      var l' :| l' in loops && l'.header == l.header;
      TheLoop(f0, f, l, l');
      ExhaustedIsFree(f, l.blocks);
    }
  }
}
