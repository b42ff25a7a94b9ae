/** Erasing the promoted accesses and putting the incoming pairs of phis into predecessor order. */
module Cleanup {
  import opened Graphs
  import opened Ir
  import opened Ssa
  import opened Renaming

  predicate IsAccess(promoted: set<nat>, i: Inst) {
    match i
    case Load(_, Slot(a)) => a in promoted
    case Store(Slot(a), _) => a in promoted
    case _ => false
  }

  predicate IsAlloca(promoted: set<nat>, i: Inst) {
    i.Alloca? && i.slot in promoted
  }

  /** The first pass erases accesses, the second allocas. */
  predicate Erased(promoted: set<nat>, accesses: bool, i: Inst) {
    if accesses then IsAccess(promoted, i) else IsAlloca(promoted, i)
  }

  /** The instructions that stay when accesses, or else allocas, of promoted slots are erased. */
  function Erasing(promoted: set<nat>, accesses: bool, insts: seq<Inst>): seq<Inst> {
    if insts == [] then []
    else
      var last := insts[|insts| - 1];
      Erasing(promoted, accesses, insts[..|insts| - 1]) +
      (if Erased(promoted, accesses, last) then [] else [last])
  }

  lemma ErasingSnoc(promoted: set<nat>, accesses: bool, insts: seq<Inst>, i: Inst)
    ensures Erasing(promoted, accesses, insts + [i]) ==
            Erasing(promoted, accesses, insts) +
            (if Erased(promoted, accesses, i) then [] else [i])
  {
    assert (insts + [i])[..|insts|] == insts;
  }

  lemma SplitAt(front: seq<Inst>, rest: seq<Inst>)
    requires rest != []
    ensures (front + rest)[|front|] == rest[0]
    ensures (front + rest)[..|front|] + (front + rest)[|front| + 1..] == front + rest[1..]
    ensures (front + [rest[0]]) + rest[1..] == front + rest
  {
  }

  /** One pass over an instruction list, erasing in place. */
  method Erase(promoted: set<nat>, accesses: bool, insts0: seq<Inst>) returns (insts: seq<Inst>)
    ensures insts == Erasing(promoted, accesses, insts0)
  {
    insts := insts0;
    var it := 0;
    ghost var done := 0;
    while it < |insts|
      invariant 0 <= done <= |insts0| && 0 <= it <= |insts|
      invariant it == |Erasing(promoted, accesses, insts0[..done])|
      invariant insts == Erasing(promoted, accesses, insts0[..done]) + insts0[done..]
      decreases |insts0| - done
    {
      ghost var front, rest := Erasing(promoted, accesses, insts0[..done]), insts0[done..];
      assert insts0[..done + 1] == insts0[..done] + [insts0[done]];
      ErasingSnoc(promoted, accesses, insts0[..done], insts0[done]);
      SplitAt(front, rest);
      assert rest[1..] == insts0[done + 1..];
      hide *;
      if Erased(promoted, accesses, insts[it]) {
        insts := insts[..it] + insts[it + 1..];
      } else {
        it := it + 1;
      }
      done := done + 1;
    }
    assert insts0[..done] == insts0;
  }

  lemma RemovedInTwoPasses(promoted: set<nat>, m: map<nat, Operand>, i: Inst)
    ensures Removed(promoted, i)
            <==> Erased(promoted, true, SubstInst(m, i)) || Erased(promoted, false, SubstInst(m, i))
  {
  }

  /** Erasing the accesses and then the allocas of the rewritten code is the cleaned code. */
  lemma {:induction false} ErasingIsClean(promoted: set<nat>, m: map<nat, Operand>, insts: seq<Inst>)
    ensures Erasing(promoted, false, Erasing(promoted, true, SubstInsts(m, insts))) == Clean(promoted, m, insts)
  {
    hide Removed, SubstInst, Erased;
    if insts == [] {
      assert SubstInsts(m, insts) == [];
    } else {
      hide Erasing;
      var front, last := insts[..|insts| - 1], insts[|insts| - 1];
      ErasingIsClean(promoted, m, front);
      assert SubstInsts(m, insts) == SubstInsts(m, front) + [SubstInst(m, last)];
      RemovedInTwoPasses(promoted, m, last);
      ErasingTwice(promoted, SubstInsts(m, front), SubstInst(m, last));
    }
  }

  lemma ErasingTwice(promoted: set<nat>, insts: seq<Inst>, i: Inst)
    ensures Erasing(promoted, false, Erasing(promoted, true, insts + [i]))
         == Erasing(promoted, false, Erasing(promoted, true, insts))
            + if Erased(promoted, true, i) || Erased(promoted, false, i) then [] else [i]
  {
    hide Erasing, Erased;
    var once := Erasing(promoted, true, insts);
    ErasingSnoc(promoted, true, insts, i);
    if Erased(promoted, true, i) {
      assert once + [] == once && Erasing(promoted, false, once) + [] == Erasing(promoted, false, once);
    } else {
      ErasingSnoc(promoted, false, once, i);
    }
  }

  /** `reorder_incoming`: the value of each listed block, in the order of the list. */
  method ReorderIncoming(inc: seq<(Operand, nat)>, order: seq<nat>) returns (r: seq<(Operand, nat)>)
    requires Distinct(order)
    requires forall j :: 0 <= j < |order| ==> Incoming(inc, order[j]).Some?
    requires forall i, k :: 0 <= i < k < |inc| ==> inc[i].1 != inc[k].1
    ensures |r| == |order|
    ensures forall j :: 0 <= j < |r| ==> r[j] == (Incoming(inc, order[j]).value, order[j])
  {
    var vals: seq<Option<Operand>> := seq(|order|, _ => None);
    var i := 0;
    while i < |inc|
      invariant 0 <= i <= |inc| && |vals| == |order|
      invariant forall j :: 0 <= j < |order| ==> vals[j] == Incoming(inc[..i], order[j])
    {
      IncomingSnoc(inc, i);
      var j := 0;
      while j < |order| && order[j] != inc[i].1
        invariant 0 <= j <= |order| && forall k :: 0 <= k < j ==> order[k] != inc[i].1
      {
        j := j + 1;
      }
      if j < |order| {
        IncomingAbsent(inc[..i], order[j]);
        vals := vals[j := Some(inc[i].0)];
      }
      i := i + 1;
    }
    assert inc[..i] == inc;
    r := [];
    var j := 0;
    while j < |order|
      invariant 0 <= j <= |order| && |r| == j
      invariant forall k :: 0 <= k < j ==> r[k] == (Incoming(inc, order[k]).value, order[k])
    {
      r := r + [(vals[j].value, order[j])];
      j := j + 1;
    }
  }

  lemma {:induction false} IncomingAbsent(inc: seq<(Operand, nat)>, b: nat)
    requires forall i :: 0 <= i < |inc| ==> inc[i].1 != b
    ensures Incoming(inc, b) == None
  {
    if inc != [] {
      IncomingAbsent(inc[1..], b);
    }
  }

  lemma IncomingSnoc(inc: seq<(Operand, nat)>, i: nat)
    requires i < |inc|
    ensures forall b :: Incoming(inc[..i + 1], b) ==
                        if Incoming(inc[..i], b).Some? then Incoming(inc[..i], b)
                        else if inc[i].1 == b then Some(inc[i].0) else None
  {
    forall b
      ensures Incoming(inc[..i + 1], b) ==
              if Incoming(inc[..i], b).Some? then Incoming(inc[..i], b)
              else if inc[i].1 == b then Some(inc[i].0) else None
    {
      assert inc[..i + 1] == inc[..i] + [inc[i]];
      IncomingAppend(inc[..i], inc[i], b);
    }
  }

  lemma {:induction false} IncomingAppend(inc: seq<(Operand, nat)>, p: (Operand, nat), b: nat)
    ensures Incoming(inc + [p], b) ==
            if Incoming(inc, b).Some? then Incoming(inc, b) else if p.1 == b then Some(p.0) else None
  {
    if inc != [] {
      assert (inc + [p])[1..] == inc[1..] + [p];
      IncomingAppend(inc[1..], p, b);
    }
  }

  /** The reordered pairs give every listed block the value it had, and no other block one. */
  lemma {:induction false} ReorderKeepsIncoming(inc: seq<(Operand, nat)>, order: seq<nat>, r: seq<(Operand, nat)>,
                                                b: nat)
    requires |r| == |order|
    requires forall j :: 0 <= j < |order| ==> Incoming(inc, order[j]).Some?
    requires forall j :: 0 <= j < |r| ==> r[j] == (Incoming(inc, order[j]).value, order[j])
    ensures Incoming(r, b) == if b in order then Incoming(inc, b) else None
  {
    if r != [] {
      ReorderKeepsIncoming(inc, order[1..], r[1..], b);
      assert order == [order[0]] + order[1..];
    }
  }
}
