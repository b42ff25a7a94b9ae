/** Which values a run may still read: from a place of a block some path leads to a read of the value, with nothing on
    the way that sets it. */
module Reading {
  import opened Graphs
  import opened Ir
  import opened Ssa

  /** Instruction `k` of the block reads the value, or its terminator if there are `k` instructions. */
  predicate ReadAt(b: Block, k: nat, v: Operand) {
    if k < |b.insts| then v in Uses(b.insts[k]) else k == |b.insts| && v in TermUses(b.term)
  }

  predicate SetAt(b: Block, k: nat, v: Operand) {
    v.Reg? && k < |b.insts| && Dst(b.insts[k]) == Some(v.id)
  }

  /** Nothing from place `k` up to place `m` of the block sets the value. */
  predicate NotSet(b: Block, k: nat, m: nat, v: Operand) {
    forall j :: k <= j < m ==> !SetAt(b, j, v)
  }

  /** The block reads the value from place `k` on, before anything sets it. */
  ghost predicate ReadBelow(b: Block, k: nat, v: Operand) {
    exists m: nat :: k <= m && ReadAt(b, m, v) && NotSet(b, k, m, v)
  }

  /** No phi of the block from phi `j` on sets the value. */
  predicate NoPhiSets(b: Block, j: nat, v: Operand) {
    forall m :: j <= m < |b.phis| ==> Reg(b.phis[m].dst) != v
  }

  /** Along an edge from `p`, a phi of the block receives the value, and no later phi sets it. */
  ghost predicate ReadFrom(b: Block, p: nat, v: Operand) {
    exists j: nat :: j < |b.phis| && Incoming(b.phis[j].incoming, p) == Some(v) && NoPhiSets(b, j + 1, v)
  }

  /** The path leads from place `k` of its first block to a read of the value that nothing on the way sets. */
  ghost predicate Leads(f: Function, v: Operand, path: seq<nat>, k: nat)
    decreases |path|, 0
  {
    && path != [] && path[0] < |f.blocks| && k <= |f.blocks[path[0]].insts|
    && if |path| == 1 then ReadBelow(f.blocks[path[0]], k, v)
       else NotSet(f.blocks[path[0]], k, |f.blocks[path[0]].insts|, v) && LeadsOn(f, v, path)
  }

  /** The same from the end of the first block: over an edge, where the phis read and set all at once. */
  ghost predicate LeadsOn(f: Function, v: Operand, path: seq<nat>)
    requires |path| > 1
    decreases |path| - 1, 1
  {
    && Edge(Cfg(f), path[0], path[1]) && path[1] < |f.blocks|
    && ((|path| == 2 && ReadFrom(f.blocks[path[1]], path[0], v))
        || (NoPhiSets(f.blocks[path[1]], 0, v) && Leads(f, v, path[1..], 0)))
  }

  /** The value is needed at place `k` of block `b`. */
  ghost predicate Needed(f: Function, v: Operand, b: nat, k: nat) {
    exists path :: path != [] && path[0] == b && Leads(f, v, path, k)
  }

  /** The value is needed behind the terminator of block `b`. */
  ghost predicate NeededBehind(f: Function, v: Operand, b: nat) {
    exists path :: |path| > 1 && path[0] == b && LeadsOn(f, v, path)
  }

  /** What is needed at a place is read in its block, or passes through and is needed behind it. */
  lemma NeededHere(f: Function, v: Operand, b: nat, k: nat)
    requires hide *; b < |f.blocks| && k <= |f.blocks[b].insts|
    ensures Needed(f, v, b, k) <==>
              ReadBelow(f.blocks[b], k, v)
              || (NotSet(f.blocks[b], k, |f.blocks[b].insts|, v) && NeededBehind(f, v, b))
  {
    hide ReadBelow, NotSet, LeadsOn;
    if path :| path != [] && path[0] == b && Leads(f, v, path, k) {
      assert |path| > 1 ==> LeadsOn(f, v, path);
    }
    if ReadBelow(f.blocks[b], k, v) {
      assert Leads(f, v, [b], k);
    } else if NotSet(f.blocks[b], k, |f.blocks[b].insts|, v) && NeededBehind(f, v, b) {
      var path :| |path| > 1 && path[0] == b && LeadsOn(f, v, path);
      assert Leads(f, v, path, k);
    }
  }

  /** What is needed over an edge: a phi receives it, or none sets it and it is needed in the block. */
  ghost predicate NeededOver(f: Function, v: Operand, p: nat, b: nat) {
    && Edge(Cfg(f), p, b) && b < |f.blocks|
    && (ReadFrom(f.blocks[b], p, v) || (NoPhiSets(f.blocks[b], 0, v) && Needed(f, v, b, 0)))
  }

  lemma NeededOnSomeEdge(f: Function, v: Operand, p: nat)
    ensures NeededBehind(f, v, p) <==> exists b: nat :: NeededOver(f, v, p, b)
  {
    hide Cfg, Leads, ReadFrom, NoPhiSets;
    if path :| |path| > 1 && path[0] == p && LeadsOn(f, v, path) {
      assert path[1..] != [] && path[1..][0] == path[1];
      assert NeededOver(f, v, p, path[1]);
    }
    if b: nat :| NeededOver(f, v, p, b) {
      if ReadFrom(f.blocks[b], p, v) {
        assert LeadsOn(f, v, [p, b]);
      } else {
        var path :| path != [] && path[0] == b && Leads(f, v, path, 0);
        assert ([p] + path)[1..] == path;
        assert LeadsOn(f, v, [p] + path);
      }
    }
  }

  // ----- what may not share a register -----

  /** An instruction or a phi of the block sets `x` where `y` is needed next. */
  ghost predicate SetBeside(f: Function, b: nat, x: Operand, y: Operand)
    requires b < |f.blocks|
  {
    var blk := f.blocks[b];
    || (exists k: nat :: k < |blk.insts| && SetAt(blk, k, x) && Needed(f, y, b, k + 1))
    || (Needed(f, y, b, 0)
        && exists j: nat :: j < |blk.phis| && Reg(blk.phis[j].dst) == x && NoPhiSets(blk, j + 1, y))
  }

  /** Both are needed at one place of the block or behind it, or one is set where the other is needed next. */
  ghost predicate ConflictIn(f: Function, b: nat, x: Operand, y: Operand)
    requires hide *; b < |f.blocks|
  {
    || (exists k: nat :: k <= |f.blocks[b].insts| && Needed(f, x, b, k) && Needed(f, y, b, k))
    || (NeededBehind(f, x, b) && NeededBehind(f, y, b))
    || SetBeside(f, b, x, y) || SetBeside(f, b, y, x)
  }

  ghost predicate Conflict(f: Function, x: Operand, y: Operand) {
    x != y && exists b: nat :: b < |f.blocks| && ConflictIn(f, b, x, y)
  }

  /** Some call of the block neither sets the value nor is the last to need it. */
  ghost predicate AcrossCallIn(f: Function, b: nat, v: Operand)
    requires b < |f.blocks|
  {
    var blk := f.blocks[b];
    exists k: nat :: k < |blk.insts| && blk.insts[k].Call? && !SetAt(blk, k, v) && Needed(f, v, b, k + 1)
  }

  ghost predicate AcrossCall(f: Function, v: Operand) {
    exists b: nat :: b < |f.blocks| && AcrossCallIn(f, b, v)
  }
}
