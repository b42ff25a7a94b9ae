/** Runs seen from inside a block: what remains of a block, and where a run gets from there. */
module Runs {
  import opened Int32
  import opened Ir

  /** A function together with everything its runs depend on. */
  datatype Setup = Setup(f: Function, params: seq<i32>, callees: Callees)

  lemma {:induction false} StepsAppend(a: seq<Inst>, b: seq<Inst>, params: seq<i32>, callees: Callees, s: Frame)
    ensures Steps(a + b, params, callees, s) == Steps(b, params, callees, Steps(a, params, callees, s))
  {
    hide Step;
    if b == [] {
      assert a + b == a;
    } else {
      assert (a + b)[..|a + b| - 1] == a + b[..|b| - 1];
      StepsAppend(a, b[..|b| - 1], params, callees, s);
    }
  }

  lemma StepsFront(insts: seq<Inst>, params: seq<i32>, callees: Callees, s: Frame)
    requires hide *; insts != []
    ensures Steps(insts, params, callees, s) == Steps(insts[1..], params, callees, Step(insts[0], params, callees, s))
  {
    hide Step;
    assert insts == [insts[0]] + insts[1..];
    StepsAppend([insts[0]], insts[1..], params, callees, s);
    assert [insts[0]][..0] == [];
    assert Steps([insts[0]], params, callees, s) == Step(insts[0], params, callees, Steps([], params, callees, s));
  }

  lemma OneBlock(f: Function, params: seq<i32>, o: Callees, c: Config)
    requires hide *; c.At? && c.block < |f.blocks|
    ensures var b := f.blocks[c.block];
      RunBlock(f, params, o, c) == Leave(b.term, c.block, params,
                                         Steps(b.insts, params, o, Enter(b, c.prev, params, c.frame)))
  {
    hide Enter, Leave, Steps;
  }

  lemma SameEnter(b: Block, b': Block, prev: nat, params: seq<i32>, s: Frame)
    requires b.phis == b'.phis
    ensures Enter(b, prev, params, s) == Enter(b', prev, params, s)
  {
  }

  lemma {:induction false} RunAdd(f: Function, params: seq<i32>, callees: Callees, c: Config, a: nat, b: nat)
    ensures hide *; Run(f, params, callees, c, a + b) == Run(f, params, callees, Run(f, params, callees, c, a), b)
  {
    hide RunBlock;
    if b > 0 {
      RunAdd(f, params, callees, c, a, b - 1);
    }
  }

  lemma {:induction false} DoneStays(f: Function, params: seq<i32>, callees: Callees, c: Config, n: nat)
    requires c.Done?
    ensures Run(f, params, callees, c, n) == c
  {
    hide Enter, Leave, Steps;
    if n > 0 {
      DoneStays(f, params, callees, c, n - 1);
    }
  }

  /** A run ends in one way. */
  lemma OneEnd(f: Function, params: seq<i32>, o: Callees, c: Config, n: nat, m: nat)
    requires Run(f, params, o, c, n).Done? && Run(f, params, o, c, m).Done?
    ensures Run(f, params, o, c, n) == Run(f, params, o, c, m)
  {
    hide RunBlock;
    if n <= m {
      RunAdd(f, params, o, c, n, m - n);
      DoneStays(f, params, o, Run(f, params, o, c, n), m - n);
    } else {
      RunAdd(f, params, o, c, m, n - m);
      DoneStays(f, params, o, Run(f, params, o, c, m), n - m);
    }
  }

  // ----- the code of a block without its allocas -----

  /** The instructions that do something. */
  function Plain(insts: seq<Inst>): seq<Inst> {
    if insts == [] then []
    else Plain(insts[..|insts| - 1]) + if insts[|insts| - 1].Alloca? then [] else [insts[|insts| - 1]]
  }

  lemma {:induction false} PlainAppend(a: seq<Inst>, b: seq<Inst>)
    ensures Plain(a + b) == Plain(a) + Plain(b)
  {
    if b == [] {
      assert a + b == a;
    } else {
      assert (a + b)[..|a + b| - 1] == a + b[..|b| - 1];
      PlainAppend(a, b[..|b| - 1]);
    }
  }

  lemma PlainOne(i: Inst)
    ensures Plain([i]) == if i.Alloca? then [] else [i]
  {
    assert [i][..0] == [];
    assert Plain([i][..0]) == [];
  }

  lemma {:induction false} PlainSteps(insts: seq<Inst>, params: seq<i32>, callees: Callees, s: Frame)
    ensures Steps(Plain(insts), params, callees, s) == Steps(insts, params, callees, s)
  {
    if insts != [] {
      var front, last := insts[..|insts| - 1], insts[|insts| - 1];
      PlainSteps(front, params, callees, s);
      if last.Alloca? {
        assert Plain(insts) == Plain(front);
      } else {
        assert Plain(insts)[..|Plain(insts)| - 1] == Plain(front);
      }
    }
  }

  function Code(f: Function, b: nat): seq<Inst>
    requires b < |f.blocks|
  {
    Plain(f.blocks[b].insts)
  }

  // ----- points -----

  /** Where a run that stands before place `k` of block `b` is when it leaves the block. */
  function Point(m: Setup, b: nat, k: nat, s: Frame): Config
    requires hide *; b < |m.f.blocks| && k <= |Code(m.f, b)|
  {
    Leave(m.f.blocks[b].term, b, m.params, Steps(Code(m.f, b)[k..], m.params, m.callees, s))
  }

  predicate Goes(m: Setup, c: Config, d: nat, c': Config) {
    Run(m.f, m.params, m.callees, c, d) == c'
  }

  lemma GoesOn(m: Setup, c: Config, d: nat, c': Config, d': nat, c'': Config)
    requires hide *; Goes(m, c, d, c') && Goes(m, c', d', c'')
    ensures Goes(m, c, d + d', c'')
  {
    hide Run;
    RunAdd(m.f, m.params, m.callees, c, d, d');
  }

  /** Passing one instruction. */
  lemma PointStep(m: Setup, b: nat, k: nat, s: Frame)
    requires hide *; b < |m.f.blocks| && k < |Code(m.f, b)|
    ensures Point(m, b, k, s) == Point(m, b, k + 1, Step(Code(m.f, b)[k], m.params, m.callees, s))
  {
    hide Code, Leave, Step, Steps;
    var rest := Code(m.f, b)[k..];
    StepsFront(rest, m.params, m.callees, s);
    assert rest[1..] == Code(m.f, b)[k + 1..];
  }

  /** At the end of a block. */
  lemma PointEnd(m: Setup, b: nat, s: Frame)
    requires hide *; b < |m.f.blocks|
    ensures Point(m, b, |Code(m.f, b)|, s) == Leave(m.f.blocks[b].term, b, m.params, s)
  {
    hide Code, Leave, Step;
    assert Code(m.f, b)[|Code(m.f, b)|..] == [];
  }

  /** Entering a block without phis. */
  lemma EnterPoint(m: Setup, prev: nat, b: nat, s: Frame)
    requires hide *; b < |m.f.blocks| && m.f.blocks[b].phis == []
    ensures Goes(m, At(prev, b, s), 1, Point(m, b, 0, s))
  {
    hide Eval, Leave, Steps;
    var blk := m.f.blocks[b];
    assert Enter(blk, prev, m.params, s) == s;
    PlainSteps(blk.insts, m.params, m.callees, s);
    assert Code(m.f, b)[0..] == Code(m.f, b);
    assert Run(m.f, m.params, m.callees, At(prev, b, s), 0) == At(prev, b, s);
  }
}
