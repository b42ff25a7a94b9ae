/** Where the instructions of a block are after some of them were dropped. */
module Dropping {
  import opened Ir

  function Left(insts: seq<Inst>, drop: Inst -> bool): seq<Inst> {
    if insts == [] then []
    else
      var last := insts[|insts| - 1];
      Left(insts[..|insts| - 1], drop) + if drop(last) then [] else [last]
  }

  /** The number of instructions that are left of the first `k`. */
  function NewIndex(insts: seq<Inst>, drop: Inst -> bool, k: nat): nat
    requires k <= |insts|
  {
    if k == 0 then 0 else NewIndex(insts, drop, k - 1) + if drop(insts[k - 1]) then 0 else 1
  }

  lemma {:induction false} NewIndexRises(insts: seq<Inst>, drop: Inst -> bool, k: nat, n: nat)
    requires k <= n <= |insts|
    ensures NewIndex(insts, drop, k) <= NewIndex(insts, drop, n)
    ensures k < n && !drop(insts[k]) ==> NewIndex(insts, drop, k) < NewIndex(insts, drop, n)
    decreases n
  {
    if k < n {
      NewIndexRises(insts, drop, k, n - 1);
    }
  }

  lemma {:induction false} NewIndexOfPrefix(insts: seq<Inst>, drop: Inst -> bool, n: nat, k: nat)
    requires k <= n <= |insts|
    ensures NewIndex(insts[..n], drop, k) == NewIndex(insts, drop, k)
  {
    if k > 0 {
      NewIndexOfPrefix(insts, drop, n, k - 1);
    }
  }

  lemma {:induction false} LeftLength(insts: seq<Inst>, drop: Inst -> bool)
    ensures |Left(insts, drop)| == NewIndex(insts, drop, |insts|)
  {
    if insts != [] {
      var n := |insts| - 1;
      LeftLength(insts[..n], drop);
      NewIndexOfPrefix(insts, drop, n, n);
    }
  }

  /** Every instruction that is not dropped is left. */
  lemma {:induction false} LeftHas(insts: seq<Inst>, drop: Inst -> bool, k: nat)
    requires k < |insts| && !drop(insts[k])
    ensures NewIndex(insts, drop, k) < |Left(insts, drop)| && Left(insts, drop)[NewIndex(insts, drop, k)] == insts[k]
    decreases |insts|
  {
    hide NewIndex;
    var n := |insts| - 1;
    LeftLength(insts[..n], drop);
    NewIndexOfPrefix(insts, drop, n, n);
    if k < n {
      LeftHas(insts[..n], drop, k);
      NewIndexOfPrefix(insts, drop, n, k);
    }
  }

  /** And nothing else is. */
  lemma {:induction false} LeftFrom(insts: seq<Inst>, drop: Inst -> bool, j: nat) returns (k: nat)
    requires j < |Left(insts, drop)|
    ensures k < |insts| && !drop(insts[k]) && NewIndex(insts, drop, k) == j && Left(insts, drop)[j] == insts[k]
    decreases |insts|
  {
    var n := |insts| - 1;
    LeftLength(insts[..n], drop);
    NewIndexOfPrefix(insts, drop, n, n);
    if j < |Left(insts[..n], drop)| {
      k := LeftFrom(insts[..n], drop, j);
      NewIndexOfPrefix(insts, drop, n, k);
    } else {
      k := n;
    }
  }
}
