/** The pass that replaces calls of small leaf functions by copies of them. */
module Inliner {
  import opened Graphs
  import opened Ir
  import opened Ssa
  import opened Inlining
  import L = Numbers

  // ----- which functions may be copied -----

  /** The operand is no parameter, or one of `n`. */
  predicate ParamBelow(v: Operand, n: nat) {
    v.Param? ==> v.index < n
  }

  ghost predicate ParamsBelow(f: Function, n: nat) {
    && (forall i: nat, j: nat, v :: i < |f.blocks| && j < |f.blocks[i].insts| && v in Uses(f.blocks[i].insts[j]) ==>
          ParamBelow(v, n))
    && (forall i: nat, v :: i < |f.blocks| && v in TermUses(f.blocks[i].term) ==> ParamBelow(v, n))
  }

  method OperandsDefined(vs: seq<Operand>, defined: set<nat>) returns (yes: bool)
    ensures yes <==> forall v :: v in vs && v.Reg? ==> v.id in defined
  {
    var n := 0;
    while n < |vs|
      invariant 0 <= n <= |vs| && forall i :: 0 <= i < n ==> (vs[i].Reg? ==> vs[i].id in defined)
    {
      if vs[n].Reg? && vs[n].id !in defined {
        assert vs[n] in vs;
        return false;
      }
      n := n + 1;
    }
    return true;
  }

  lemma DefinedHere(insts: seq<Inst>, j: nat, n: nat, vs: seq<Operand>, defined: set<nat>)
    requires (forall r: nat :: r in defined <==> DefinedBefore(insts, j, r)) && forall v :: v in vs ==> ParamBelow(v, n)
    ensures AllLocal(insts, j, n, vs) <==> forall v :: v in vs && v.Reg? ==> v.id in defined
  {
    hide DefinedBefore;
    if AllLocal(insts, j, n, vs) {
      forall v | v in vs && v.Reg? ensures v.id in defined {
        assert Local(insts, j, n, v);
      }
    }
  }

  lemma DefinedAfter(insts: seq<Inst>, j: nat, r: nat)
    requires j < |insts|
    ensures DefinedBefore(insts, j + 1, r) <==> DefinedBefore(insts, j, r) || Dst(insts[j]) == Some(r)
  {
    if DefinedBefore(insts, j + 1, r) {
      DefinedNext(insts, j, r);
    }
  }

  /** The instructions of one block. */
  ghost predicate SafeBlock(b: Block, n: nat) {
    && b.phis == [] && b.term != Ret(None)
    && (forall j: nat :: j < |b.insts| ==> !b.insts[j].Call? && AllLocal(b.insts, j, n, Uses(b.insts[j])))
    && AllLocal(b.insts, |b.insts|, n, TermUses(b.term))
  }

  method IsBlockSafe(b: Block, ghost n: nat) returns (yes: bool)
    requires hide *; forall j: nat, v :: j < |b.insts| && v in Uses(b.insts[j]) ==> ParamBelow(v, n)
    requires forall v :: v in TermUses(b.term) ==> ParamBelow(v, n)
    ensures yes <==> SafeBlock(b, n)
  {
    hide AllLocal, DefinedBefore;
    if b.phis != [] || b.term == Ret(None) {
      return false;
    }
    var defined: set<nat> := {};
    var j := 0;
    assert forall r: nat :: !DefinedBefore(b.insts, 0, r) by { NothingDefined(b.insts); }
    while j < |b.insts|
      invariant 0 <= j <= |b.insts| && forall r: nat :: r in defined <==> DefinedBefore(b.insts, j, r)
      invariant forall i: nat :: i < j ==> !b.insts[i].Call? && AllLocal(b.insts, i, n, Uses(b.insts[i]))
    {
      var i := b.insts[j];
      if i.Call? {
        return false;
      }
      DefinedHere(b.insts, j, n, Uses(i), defined);
      var ok := OperandsDefined(Uses(i), defined);
      if !ok {
        return false;
      }
      forall r: nat ensures DefinedBefore(b.insts, j + 1, r) <==> DefinedBefore(b.insts, j, r) || Dst(i) == Some(r) {
        DefinedAfter(b.insts, j, r);
      }
      if Dst(i).Some? {
        defined := defined + {Dst(i).value};
      }
      j := j + 1;
    }
    DefinedHere(b.insts, j, n, TermUses(b.term), defined);
    yes := OperandsDefined(TermUses(b.term), defined);
  }

  lemma NothingDefined(insts: seq<Inst>)
    ensures forall r: nat :: !DefinedBefore(insts, 0, r)
  {
  }

  /** Whether a function with `n` parameters can be copied in one pass. */
  method IsInlineSafe(f: Function, ghost n: nat) returns (yes: bool)
    requires ParamsBelow(f, n)
    ensures yes <==> SafeToInline(f, n)
  {
    hide AllLocal;
    if f.blocks == [] {
      return false;
    }
    var i := 0;
    while i < |f.blocks|
      invariant 0 <= i <= |f.blocks| && forall b: nat :: b < i ==> SafeBlock(f.blocks[b], n)
    {
      var ok := IsBlockSafe(f.blocks[i], n);
      if !ok {
        return false;
      }
      i := i + 1;
    }
    return true;
  }

  // ----- blocks in loops -----

  /** A walk of at least one edge from `a`. */
  ghost predicate Walk(g: Graph, a: nat, q: seq<nat>)
    decreases |q|
  {
    q != [] && Edge(g, a, q[0]) && (|q| > 1 ==> Walk(g, q[0], q[1..]))
  }

  ghost predicate Reaches(g: Graph, a: nat, c: nat) {
    exists q: seq<nat> :: Walk(g, a, q) && q[|q| - 1] == c
  }

  lemma {:induction false} WalkOn(g: Graph, a: nat, q: seq<nat>, c: nat)
    requires Walk(g, a, q) && Edge(g, q[|q| - 1], c)
    ensures Walk(g, a, q + [c])
    decreases |q|
  {
    if |q| > 1 {
      WalkOn(g, q[0], q[1..], c);
      assert (q + [c])[1..] == q[1..] + [c];
    } else {
      assert (q + [c])[1..] == [c];
      assert Walk(g, q[0], [c]);
    }
  }

  lemma ReachesNext(g: Graph, a: nat, b: nat, c: nat)
    requires Reaches(g, a, b) && Edge(g, b, c)
    ensures Reaches(g, a, c)
  {
    var q: seq<nat> :| Walk(g, a, q) && q[|q| - 1] == b;
    WalkOn(g, a, q, c);
  }

  /** A walk cannot leave a set that contains the successors of its blocks. */
  lemma {:induction false} WalkStays(g: Graph, a: nat, q: seq<nat>, seen: set<nat>)
    requires Walk(g, a, q) && (forall x, c: nat :: (x == a || x in seen) && Edge(g, x, c) ==> c in seen)
    ensures q[|q| - 1] in seen
    decreases |q|
  {
    if |q| > 1 {
      WalkStays(g, q[0], q[1..], seen);
    }
  }

  /** The blocks whose successors have been seen or wait on the stack. */
  ghost predicate Explored(g: Graph, b: nat, seen: set<nat>, stack: seq<nat>) {
    forall x, c: nat :: (x == b || x in seen) && Edge(g, x, c) ==> c in seen || c in stack
  }

  /** A block is in a loop if it reaches itself. */
  method BlockInLoop(f: Function, b: nat) returns (yes: bool)
    requires Valid(Cfg(f)) && b < |f.blocks|
    ensures yes <==> Reaches(Cfg(f), b, b)
  {
    hide Reaches, Explored, Blocks, Cfg;
    ghost var g := Cfg(f);
    var seen: set<nat> := {};
    var stack := Targets(f.blocks[b].term);
    StartsExploring(f, b);
    while stack != []
      invariant b !in seen && seen <= Blocks(g) && Explored(g, b, seen, stack)
      invariant forall x :: x in stack ==> Reaches(g, b, x) && x < |g|
      decreases |Blocks(g) - seen|, |stack|
    {
      var last := |stack| - 1;
      var current, rest := stack[last], stack[..last];
      assert stack == rest + [current];
      assert current in stack;
      if current == b {
        return true;
      }
      if current !in seen {
        GrowsByOne(g, seen, current);
        ExploreMore(f, b, seen, rest, current);
        HasBlock(g, current);
        seen := seen + {current};
        stack := rest + Targets(f.blocks[current].term);
      } else {
        ExploredAlready(g, b, seen, rest, current);
        stack := rest;
      }
    }
    NotReached(g, b, seen);
    return false;
  }

  lemma StartsExploring(f: Function, b: nat)
    requires Valid(Cfg(f)) && b < |f.blocks|
    ensures var stack := Targets(f.blocks[b].term);
      Explored(Cfg(f), b, {}, stack) && forall x :: x in stack ==> Reaches(Cfg(f), b, x) && x < |Cfg(f)|
  {
    hide Reaches;
    forall x: nat | x in Targets(f.blocks[b].term) ensures Reaches(Cfg(f), b, x) && x < |Cfg(f)| {
      assert Edge(Cfg(f), b, x);
      ReachesDirectly(Cfg(f), b, x);
    }
  }

  lemma HasBlock(g: Graph, b: nat)
    requires b < |g|
    ensures b in Blocks(g)
  {
  }

  lemma ExploredAlready(g: Graph, b: nat, seen: set<nat>, rest: seq<nat>, current: nat)
    requires Explored(g, b, seen, rest + [current]) && current in seen
    ensures Explored(g, b, seen, rest)
  {
  }

  lemma ExploreMore(f: Function, b: nat, seen: set<nat>, rest: seq<nat>, current: nat)
    requires Valid(Cfg(f)) && current < |f.blocks| && Reaches(Cfg(f), b, current)
    requires Explored(Cfg(f), b, seen, rest + [current])
    ensures var next := Targets(f.blocks[current].term);
      && Explored(Cfg(f), b, seen + {current}, rest + next)
      && forall x :: x in next ==> Reaches(Cfg(f), b, x) && x < |Cfg(f)|
  {
    hide Reaches;
    var g, next := Cfg(f), Targets(f.blocks[current].term);
    forall c: nat | c in next ensures Reaches(g, b, c) && c < |g| {
      assert Edge(g, current, c);
      ReachesNext(g, b, current, c);
    }
    forall x, c: nat | (x == b || x in seen + {current}) && Edge(g, x, c)
      ensures c in seen + {current} || c in rest + next {
      if x == current {
        assert c in next;
      }
    }
  }

  lemma ReachesDirectly(g: Graph, a: nat, c: nat)
    requires Edge(g, a, c)
    ensures Reaches(g, a, c)
  {
    assert Walk(g, a, [c]);
  }

  lemma NotReached(g: Graph, b: nat, seen: set<nat>)
    requires Explored(g, b, seen, []) && b !in seen
    ensures !Reaches(g, b, b)
  {
    if q: seq<nat> :| Walk(g, b, q) && q[|q| - 1] == b {
      WalkStays(g, b, q, seen);
    }
  }

  // ----- copying the body -----

  /** The plan with the registers that have numbers so far. */
  function With(z: Plan, values: map<nat, nat>): Plan {
    z.(regs := values)
  }

  predicate Extends(m: map<nat, nat>, more: map<nat, nat>) {
    forall x :: x in m ==> x in more && more[x] == m[x]
  }

  /** Every register set before place `j` has a number. */
  ghost predicate Numbered(insts: seq<Inst>, j: nat, values: map<nat, nat>) {
    forall r: nat :: DefinedBefore(insts, j, r) ==> r in values
  }

  lemma OperandStable(z: Plan, insts: seq<Inst>, j: nat, n: nat, v: Operand, values: map<nat, nat>, more: map<nat, nat>)
    requires HasCall(z) && Extends(values, more) && Numbered(insts, j, values) && Local(insts, j, n, v)
    ensures CloneOperand(With(z, values), v) == CloneOperand(With(z, more), v)
    ensures v.Reg? ==> v.id in values
  {
  }

  lemma InstStable(z: Plan, insts: seq<Inst>, j: nat, n: nat, values: map<nat, nat>, more: map<nat, nat>)
    requires HasCall(z) && j < |insts| && Extends(values, more) && Numbered(insts, j + 1, values)
             && AllLocal(insts, j, n, Uses(insts[j]))
    requires !insts[j].Call?
    ensures CloneInst(With(z, values), insts[j]) == CloneInst(With(z, more), insts[j])
  {
    hide DefinedBefore;
    var i := insts[j];
    NumberedBefore(insts, j, values);
    forall v | v in Uses(i) ensures CloneOperand(With(z, values), v) == CloneOperand(With(z, more), v) {
      OperandStable(z, insts, j, n, v, values, more);
    }
    if Dst(i).Some? {
      DefinedAfter(insts, j, Dst(i).value);
    }
    match i
    case Binary(_, _, x, y) => assert x in Uses(i) && y in Uses(i);
    case Unary(_, _, x) => assert x in Uses(i);
    case Store(_, x) => assert x in Uses(i);
    case _ =>
  }

  lemma NumberedBefore(insts: seq<Inst>, j: nat, values: map<nat, nat>)
    requires j < |insts| && Numbered(insts, j + 1, values)
    ensures Numbered(insts, j, values)
  {
    forall r: nat | DefinedBefore(insts, j, r) ensures r in values {
      DefinedAfter(insts, j, r);
    }
  }

  /** Numbers given later do not change the copies made before. */
  lemma {:induction false} InstsStable(z: Plan, insts: seq<Inst>, j: nat, n: nat, values: map<nat, nat>,
                                       more: map<nat, nat>)
    requires HasCall(z) && j <= |insts| && Extends(values, more) && Numbered(insts, j, values)
    requires forall i: nat :: i < j ==> !insts[i].Call? && AllLocal(insts, i, n, Uses(insts[i]))
    ensures CloneInsts(With(z, values), insts[..j]) == CloneInsts(With(z, more), insts[..j])
    decreases j
  {
    hide CloneInst, AllLocal, Numbered, Extends;
    if j == 0 {
      assert insts[..0] == [];
    } else {
      NumberedBefore(insts, j - 1, values);
      InstsStable(z, insts, j - 1, n, values, more);
      assert insts[..j][..j - 1] == insts[..j - 1];
      InstStable(z, insts, j - 1, n, values, more);
    }
  }

  lemma BlockStable(z: Plan, i: nat, n: nat, values: map<nat, nat>, more: map<nat, nat>)
    requires hide CloneBlock, Numbered, SafeBlock;
             HasCall(z) && i < |z.callee.blocks| && SafeBlock(z.callee.blocks[i], n) && Extends(values, more)
    requires Numbered(z.callee.blocks[i].insts, |z.callee.blocks[i].insts|, values)
    ensures CloneBlock(With(z, values), i) == CloneBlock(With(z, more), i)
  {
    hide CloneInsts, CloneOperand;
    var blk := z.callee.blocks[i];
    var insts := blk.insts;
    InstsStable(z, insts, |insts|, n, values, more);
    assert insts[..|insts|] == insts;
    forall v | v in TermUses(blk.term) ensures CloneOperand(With(z, values), v) == CloneOperand(With(z, more), v) {
      OperandStable(z, insts, |insts|, n, v, values, more);
    }
    match blk.term
    case CondBr(v, _, _) => assert v in TermUses(blk.term);
    case Ret(Some(v)) => assert v in TermUses(blk.term);
    case _ =>
  }

  /** What an operand of the callee is in the caller; nothing for a register that has no number yet. */
  method Remap(z: Plan, values: map<nat, nat>, v: Operand) returns (r: Option<Operand>)
    requires HasCall(z) && ParamBelow(v, |TheCall(z).args|)
    ensures r == if v.Reg? && v.id !in values then None else Some(CloneOperand(With(z, values), v))
  {
    match v
    case Const(_) => r := Some(v);
    case Param(i) => r := Some(Apply(Redirected(z), TheCall(z).args[i]));
    case Reg(x) => r := if x in values then Some(Reg(values[x])) else None;
  }

  /** The instructions that the pass knows how to copy. */
  predicate Clonable(i: Inst) {
    !i.Alloca? && !i.Call? && !(i.Binary? && i.op == BinaryOp.And)
  }

  /** The copy of one instruction; nothing if the pass does not know it. */
  method CloneValue(z: Plan, values: map<nat, nat>, number: nat, ghost insts: seq<Inst>, ghost j: nat, i: Inst)
    returns (copy: Option<Inst>, more: map<nat, nat>)
    requires HasCall(z) && j < |insts| && i == insts[j] && Numbered(insts, j, values)
    requires AllLocal(insts, j, |TheCall(z).args|, Uses(i)) && (Dst(i).Some? ==> Dst(i).value !in values)
    ensures copy.Some? <==> Clonable(i)
    ensures more == if Dst(i).Some? then values[Dst(i).value := number] else values
    ensures copy.Some? ==> copy.value == CloneInst(With(z, more), i)
  {
    hide Numbered;
    more := if Dst(i).Some? then values[Dst(i).value := number] else values;
    if i.Alloca? || i.Call? || (i.Binary? && i.op == BinaryOp.And) {
      return None, more;
    }
    forall v | v in Uses(i) ensures ParamBelow(v, |TheCall(z).args|) && (v.Reg? ==> v.id in values) {
      assert Local(insts, j, |TheCall(z).args|, v);
      OperandStable(z, insts, j, |TheCall(z).args|, v, values, more);
    }
    forall v | v in Uses(i) ensures CloneOperand(With(z, values), v) == CloneOperand(With(z, more), v) {
      assert Local(insts, j, |TheCall(z).args|, v);
      OperandStable(z, insts, j, |TheCall(z).args|, v, values, more);
    }
    hide CloneOperand;
    match i
    case Binary(d, op, x, y) =>
      assert x in Uses(i) && y in Uses(i);
      var x' := Remap(z, values, x);
      var y' := Remap(z, values, y);
      copy := Some(Binary(number, op, x'.value, y'.value));
    case Unary(d, op, x) =>
      assert x in Uses(i);
      var x' := Remap(z, values, x);
      copy := Some(Unary(number, op, x'.value));
    case Load(d, p) => copy := Some(Load(number, ClonePointer(z, p)));
    case Store(p, x) =>
      assert x in Uses(i);
      var x' := Remap(z, values, x);
      copy := Some(Store(ClonePointer(z, p), x'.value));
  }

  // ----- all the registers of the callee -----

  /** The numbers given so far: different, from `low` on and below `high`, to the registers set before instruction `j`
      of block `i`. */
  ghost predicate Given(f: Function, i: nat, j: nat, values: map<nat, nat>, low: nat, high: nat) {
    && low <= high && (forall x :: x in values ==> low <= values[x] < high)
    && (forall x, y :: x in values && y in values && values[x] == values[y] ==> x == y)
    && (forall r: nat :: r in values <==> SetEarlier(f, i, j, r))
  }

  ghost predicate SetEarlier(f: Function, i: nat, j: nat, r: nat) {
    exists i': nat, j': nat :: (i' < i || (i' == i && j' < j)) && Defines(f, i', j', r)
  }

  lemma SetEarlierNext(f: Function, i: nat, j: nat, r: nat)
    requires i < |f.blocks| && j < |f.blocks[i].insts|
    ensures SetEarlier(f, i, j + 1, r) <==> SetEarlier(f, i, j, r) || Dst(f.blocks[i].insts[j]) == Some(r)
  {
    if i': nat, j': nat :| (i' < i || (i' == i && j' < j + 1)) && Defines(f, i', j', r) {
      assert (i' == i && j' == j) || (i' < i || (i' == i && j' < j));
    }
    if i': nat, j': nat :| (i' < i || (i' == i && j' < j)) && Defines(f, i', j', r) {
      assert i' < i || (i' == i && j' < j + 1);
    }
    if Dst(f.blocks[i].insts[j]) == Some(r) {
      assert Defines(f, i, j, r);
    }
  }

  lemma SetEarlierBlock(f: Function, i: nat, r: nat)
    requires i < |f.blocks|
    ensures SetEarlier(f, i + 1, 0, r) <==> SetEarlier(f, i, |f.blocks[i].insts|, r)
  {
    if i': nat, j': nat :| (i' < i + 1 || (i' == i + 1 && j' < 0)) && Defines(f, i', j', r) {
      assert i' < i || (i' == i && j' < |f.blocks[i].insts|);
    }
    if i': nat, j': nat :| (i' < i || (i' == i && j' < |f.blocks[i].insts|)) && Defines(f, i', j', r) {
      assert i' < i + 1;
    }
  }

  lemma NotSetEarlier(f: Function, i: nat, j: nat, r: nat)
    requires UniqueDefs(f) && Defines(f, i, j, r)
    ensures !SetEarlier(f, i, j, r)
  {
  }

  lemma EarlierIsNumbered(f: Function, i: nat, j: nat, values: map<nat, nat>, low: nat, high: nat)
    requires Given(f, i, j, values, low, high) && i < |f.blocks| && j <= |f.blocks[i].insts|
    ensures Numbered(f.blocks[i].insts, j, values)
  {
    forall r: nat | DefinedBefore(f.blocks[i].insts, j, r) ensures r in values {
      var n: nat :| n < j && n < |f.blocks[i].insts| && Dst(f.blocks[i].insts[n]) == Some(r);
      assert Defines(f, i, n, r);
      assert SetEarlier(f, i, j, r);
    }
  }

  lemma GiveNext(f: Function, i: nat, j: nat, values: map<nat, nat>, low: nat, high: nat)
    requires Given(f, i, j, values, low, high) && UniqueDefs(f) && i < |f.blocks| && j < |f.blocks[i].insts|
    ensures var d := Dst(f.blocks[i].insts[j]);
      && (d.Some? ==> d.value !in values)
      && Given(f, i, j + 1, if d.Some? then values[d.value := high] else values, low, if d.Some? then high + 1
                                                                                        else high)
  {
    hide SetEarlier;
    var d := Dst(f.blocks[i].insts[j]);
    if d.Some? {
      assert Defines(f, i, j, d.value);
      NotSetEarlier(f, i, j, d.value);
    }
    forall r: nat ensures SetEarlier(f, i, j + 1, r) <==> SetEarlier(f, i, j, r) || d == Some(r) {
      SetEarlierNext(f, i, j, r);
    }
  }

  /** The copy of one block of the callee, instruction by instruction; no operand is ever without a number. */
  method CloneOneBlock(z: Plan, i: nat, start: map<nat, nat>, ghost low: nat, first: nat)
    returns (blk: Block, values: map<nat, nat>, number: nat)
    requires hide CloneBlock, Given, Numbered, SafeBlock, UniqueDefs;
             HasCall(z) && i < |z.callee.blocks| && UniqueDefs(z.callee)
             && SafeBlock(z.callee.blocks[i], |TheCall(z).args|)
    requires Given(z.callee, i, 0, start, low, first)
    requires forall j: nat :: j < |z.callee.blocks[i].insts| ==>
               z.callee.blocks[i].insts[j].Alloca? || Clonable(z.callee.blocks[i].insts[j])
    ensures Given(z.callee, i + 1, 0, values, low, number) && first <= number && Extends(start, values)
    ensures blk == CloneBlock(With(z, values), i)
    ensures Numbered(z.callee.blocks[i].insts, |z.callee.blocks[i].insts|, values)
  {
    hide Given, UniqueDefs, CloneInst, Numbered;
    var old_, n := z.callee.blocks[i], |TheCall(z).args|;
    var copies: seq<Inst> := [];
    values, number := start, first;
    var j := 0;
    assert old_.insts[..0] == [];
    while j < |old_.insts|
      invariant 0 <= j <= |old_.insts| && Given(z.callee, i, j, values, low, number) && first <= number
                && Extends(start, values)
      invariant copies == CloneInsts(With(z, values), old_.insts[..j])
    {
      var inst := old_.insts[j];
      EarlierIsNumbered(z.callee, i, j, values, low, number);
      GiveNext(z.callee, i, j, values, low, number);
      assert old_.insts[..j + 1][..j] == old_.insts[..j];
      if !inst.Alloca? {
        var copy, more := CloneValue(z, values, number, old_.insts, j, inst);
        InstsStable(z, old_.insts, j, n, values, more);
        copies := copies + [copy.value];
        values := more;
        if Dst(inst).Some? {
          number := number + 1;
        }
      }
      j := j + 1;
    }
    assert old_.insts[..j] == old_.insts;
    EarlierIsNumbered(z.callee, i, j, values, low, number);
    forall r: nat ensures SetEarlier(z.callee, i + 1, 0, r) <==> SetEarlier(z.callee, i, j, r) {
      SetEarlierBlock(z.callee, i, r);
    }
    GivenSame(z.callee, i, j, values, low, number);
    blk := CloneTerminator(z, i, values, copies);
  }

  lemma GivenSame(f: Function, i: nat, j: nat, values: map<nat, nat>, low: nat, high: nat)
    requires Given(f, i, j, values, low, high)
    requires forall r: nat :: SetEarlier(f, i + 1, 0, r) <==> SetEarlier(f, i, j, r)
    ensures Given(f, i + 1, 0, values, low, high)
  {
    hide SetEarlier;
  }

  /** A return stores into the result slot and goes to the continuation. */
  method CloneTerminator(z: Plan, i: nat, values: map<nat, nat>, copies: seq<Inst>) returns (blk: Block)
    requires hide CloneBlock, CloneInsts, Numbered, SafeBlock;
             HasCall(z) && i < |z.callee.blocks| && SafeBlock(z.callee.blocks[i], |TheCall(z).args|)
    requires Numbered(z.callee.blocks[i].insts, |z.callee.blocks[i].insts|, values)
    requires copies == CloneInsts(With(z, values), z.callee.blocks[i].insts)
    ensures blk == CloneBlock(With(z, values), i)
  {
    hide CloneInsts, CloneOperand, Numbered;
    var t, insts, n := z.callee.blocks[i].term, z.callee.blocks[i].insts, |TheCall(z).args|;
    forall v | v in TermUses(t) ensures ParamBelow(v, n) && (v.Reg? ==> v.id in values) {
      assert Local(insts, |insts|, n, v);
      OperandStable(z, insts, |insts|, n, v, values, values);
    }
    match t
    case Br(to) => blk := Block([], copies, Br(BodyStart(z) + to));
    case CondBr(v, to, other) =>
      assert v in TermUses(t);
      var v' := Remap(z, values, v);
      blk := Block([], copies, CondBr(v'.value, BodyStart(z) + to, BodyStart(z) + other));
    case Ret(None) => blk := Block([], copies, Br(Continuation(z)));
    case Ret(Some(v)) =>
      assert v in TermUses(t);
      var v' := Remap(z, values, v);
      blk := Block([], copies + [Store(Slot(z.resultSlot), v'.value)], Br(Continuation(z)));
  }

  /** One pass over the callee in block order. */
  method CloneBody(z: Plan, low: nat) returns (blocks: seq<Block>, values: map<nat, nat>, number: nat)
    requires hide AllLocal, CanBeCloned, CloneBlock, Given, UniqueDefs;
             HasCall(z) && UniqueDefs(z.callee) && SafeToInline(z.callee, |TheCall(z).args|) && CanBeCloned(z.callee)
    ensures |blocks| == |z.callee.blocks| && Given(z.callee, |z.callee.blocks|, 0, values, low, number)
    ensures forall i: nat :: i < |blocks| ==> blocks[i] == CloneBlock(With(z, values), i)
  {
    hide Given, UniqueDefs, CloneBlock, AllLocal, Numbered;
    blocks, values, number := [], map[], low;
    NothingGiven(z.callee, low);
    var i := 0;
    while i < |z.callee.blocks|
      invariant 0 <= i <= |z.callee.blocks| && |blocks| == i && Given(z.callee, i, 0, values, low, number)
      invariant forall b: nat :: b < i ==>
                  blocks[b] == CloneBlock(With(z, values), b) && NumberedBlock(z.callee, b, values)
    {
      assert SafeBlock(z.callee.blocks[i], |TheCall(z).args|);
      var blk, more, next := CloneOneBlock(z, i, values, low, number);
      forall b: nat | b < i ensures blocks[b] == CloneBlock(With(z, more), b) && NumberedBlock(z.callee, b, more) {
        assert NumberedBlock(z.callee, b, values);
        assert SafeBlock(z.callee.blocks[b], |TheCall(z).args|);
        BlockStable(z, b, |TheCall(z).args|, values, more);
        NumberedMore(z.callee, b, values, more);
      }
      blocks, values, number := blocks + [blk], more, next;
      i := i + 1;
    }
  }

  ghost predicate NumberedBlock(f: Function, i: nat, values: map<nat, nat>) {
    i < |f.blocks| && Numbered(f.blocks[i].insts, |f.blocks[i].insts|, values)
  }

  lemma NumberedMore(f: Function, i: nat, values: map<nat, nat>, more: map<nat, nat>)
    requires NumberedBlock(f, i, values) && Extends(values, more)
    ensures NumberedBlock(f, i, more)
  {
  }

  lemma NothingGiven(f: Function, low: nat)
    ensures Given(f, 0, 0, map[], low, low)
  {
  }

  /** Only instructions that the pass can copy. */
  predicate CanBeCloned(f: Function) {
    forall i, j :: 0 <= i < |f.blocks| && 0 <= j < |f.blocks[i].insts| ==> ClonedOrDeclared(f.blocks[i].insts[j])
  }

  predicate ClonedOrDeclared(i: Inst) {
    i.Alloca? || i.Call? || Clonable(i)
  }

  // ----- counting -----

  /** Calls, calls whose result is a register, and instructions that set a register. */
  datatype Query = AnyCall | CallInto(reg: nat) | SetsReg(reg: nat)

  function Hit(q: Query, i: Inst): nat {
    match q
    case AnyCall => if i.Call? then 1 else 0
    case CallInto(r) => if i.Call? && i.dst == r then 1 else 0
    case SetsReg(r) => if Dst(i) == Some(r) then 1 else 0
  }

  function Count(insts: seq<Inst>, q: Query): nat {
    if insts == [] then 0 else Count(insts[..|insts| - 1], q) + Hit(q, insts[|insts| - 1])
  }

  function CountAll(f: Function, n: nat, q: Query): nat
    requires n <= |f.blocks|
  {
    if n == 0 then 0 else CountAll(f, n - 1, q) + Count(f.blocks[n - 1].insts, q)
  }

  lemma {:induction false} CountAppend(a: seq<Inst>, b: seq<Inst>, q: Query)
    ensures Count(a + b, q) == Count(a, q) + Count(b, q)
  {
    if b == [] {
      assert a + b == a;
    } else {
      assert (a + b)[..|a + b| - 1] == a + b[..|b| - 1];
      CountAppend(a, b[..|b| - 1], q);
    }
  }

  lemma {:induction false} CountSubst(m: map<nat, Operand>, insts: seq<Inst>, q: Query)
    ensures Count(SubstInsts(m, insts), q) == Count(insts, q)
  {
    if insts != [] {
      var n := |insts| - 1;
      assert SubstInsts(m, insts)[..n] == SubstInsts(m, insts[..n]);
      CountSubst(m, insts[..n], q);
    }
  }

  lemma {:induction false} CountNone(insts: seq<Inst>, q: Query)
    requires forall i :: i in insts ==> Hit(q, i) == 0
    ensures Count(insts, q) == 0
  {
    if insts != [] {
      assert insts[|insts| - 1] in insts;
      CountNone(insts[..|insts| - 1], q);
    }
  }

  lemma {:induction false} CountOne(insts: seq<Inst>, q: Query, j: nat)
    requires j < |insts|
    ensures Count(insts, q) >= Hit(q, insts[j])
  {
    assert insts == insts[..j] + [insts[j]] + insts[j + 1..];
    CountAppend(insts[..j] + [insts[j]], insts[j + 1..], q);
    CountAppend(insts[..j], [insts[j]], q);
    SingleCount(insts[j], q);
  }

  lemma SingleCount(i: Inst, q: Query)
    ensures Count([i], q) == Hit(q, i)
  {
    assert [i][..0] == [];
  }

  lemma {:induction false} CountTwo(insts: seq<Inst>, q: Query, j: nat, j': nat)
    requires j < j' < |insts|
    ensures Count(insts, q) >= Hit(q, insts[j]) + Hit(q, insts[j'])
  {
    assert insts == insts[..j'] + insts[j'..];
    CountAppend(insts[..j'], insts[j'..], q);
    CountOne(insts[..j'], q, j);
    CountOne(insts[j'..], q, 0);
  }

  lemma {:induction false} CountAllOne(f: Function, n: nat, q: Query, i: nat)
    requires i < n <= |f.blocks|
    ensures CountAll(f, n, q) >= Count(f.blocks[i].insts, q)
    decreases n
  {
    if i < n - 1 {
      CountAllOne(f, n - 1, q, i);
    }
  }

  lemma {:induction false} CountAllTwo(f: Function, n: nat, q: Query, i: nat, i': nat)
    requires i < i' < n <= |f.blocks|
    ensures CountAll(f, n, q) >= Count(f.blocks[i].insts, q) + Count(f.blocks[i'].insts, q)
    decreases n
  {
    hide Count;
    if i' < n - 1 {
      CountAllTwo(f, n - 1, q, i, i');
    } else {
      CountAllOne(f, n - 1, q, i);
    }
  }

  /** Two places that are counted. */
  lemma TwoPlaces(f: Function, q: Query, i: nat, j: nat, i': nat, j': nat)
    requires i < |f.blocks| && j < |f.blocks[i].insts| && i' < |f.blocks| && j' < |f.blocks[i'].insts|
    requires (i, j) != (i', j') && Hit(q, f.blocks[i].insts[j]) == Hit(q, f.blocks[i'].insts[j']) == 1
    ensures CountAll(f, |f.blocks|, q) >= 2
  {
    hide Hit;
    if i == i' {
      CountTwo(f.blocks[i].insts, q, if j < j' then j else j', if j < j' then j' else j);
      CountAllOne(f, |f.blocks|, q, i);
    } else {
      CountOne(f.blocks[i].insts, q, j);
      CountOne(f.blocks[i'].insts, q, j');
      CountAllTwo(f, |f.blocks|, q, if i < i' then i else i', if i < i' then i' else i);
    }
  }

  /** Nothing in the copy is counted. */
  predicate OutsideCopy(z: Plan, q: Query) {
    q.SetsReg? ==> q.reg < z.base
  }

  lemma {:induction false} CloneCountsNothing(z: Plan, i: nat, j: nat, q: Query)
    requires hide *; HasCall(z) && Mapped(z) && SafeToInline(z.callee, |TheCall(z).args|) && OutsideCopy(z, q)
    requires i < |z.callee.blocks| && j <= |z.callee.blocks[i].insts|
    ensures Count(CloneInsts(z, z.callee.blocks[i].insts[..j]), q) == 0
    decreases j
  {
    hide Mapped, CloneOperand, AllLocal;
    var insts := z.callee.blocks[i].insts;
    if j == 0 {
      assert insts[..0] == [];
    } else {
      CloneCountsNothing(z, i, j - 1, q);
      assert insts[..j][..j - 1] == insts[..j - 1];
      var front, last := CloneInsts(z, insts[..j - 1]), insts[j - 1];
      assert !last.Call?;
      if last.Alloca? {
        assert CloneInsts(z, insts[..j]) == front;
      } else {
        CloneMisses(z, i, j - 1, q);
        assert CloneInsts(z, insts[..j]) == front + [CloneInst(z, last)];
        CountAppend(front, [CloneInst(z, last)], q);
        SingleCount(CloneInst(z, last), q);
      }
    }
  }

  lemma CloneMisses(z: Plan, i: nat, j: nat, q: Query)
    requires HasCall(z) && Mapped(z) && OutsideCopy(z, q)
    requires i < |z.callee.blocks| && j < |z.callee.blocks[i].insts| && !z.callee.blocks[i].insts[j].Call?
    ensures Hit(q, CloneInst(z, z.callee.blocks[i].insts[j])) == 0
  {
    hide CloneOperand;
    RegMapped(z, i, j);
  }

  lemma BlockCountsNothing(z: Plan, i: nat, q: Query)
    requires hide *; HasCall(z) && Mapped(z) && SafeToInline(z.callee, |TheCall(z).args|) && OutsideCopy(z, q)
             && i < |z.callee.blocks|
    ensures Count(CloneBlock(z, i).insts, q) == 0
  {
    hide Mapped, SafeToInline, CloneOperand, CloneInsts;
    var blk := z.callee.blocks[i];
    CloneCountsNothing(z, i, |blk.insts|, q);
    assert blk.insts[..|blk.insts|] == blk.insts;
    if blk.term.Ret? && blk.term.result.Some? {
      var last := Store(Slot(z.resultSlot), CloneOperand(z, blk.term.result.value));
      CountAppend(CloneInsts(z, blk.insts), [last], q);
      SingleCount(last, q);
    }
  }

  lemma CallerBlockCounts(z: Plan, i: nat, q: Query)
    requires hide CallerBlock, Count; HasCall(z) && i < |z.caller.blocks|
    ensures Count(CallerBlock(z, i).insts, q)
            == Count(if i == z.b then z.caller.blocks[i].insts[..z.k] else z.caller.blocks[i].insts, q)
  {
    hide Count, Declarations, Redirected, SubstInsts, SubstTerm;
    var m := Redirected(z);
    hide Declarations, Redirected;
    var blk := z.caller.blocks[i];
    var front := if i == 0 then Declarations(z.declared) else [];
    var insts := if i == z.b then blk.insts[..z.k] else blk.insts;
    CountNone(front, q);
    CountAppend(front, SubstInsts(m, insts), q);
    CountSubst(m, insts, q);
  }

  lemma {:induction false} CallerCounts(z: Plan, n: nat, q: Query)
    requires HasCall(z) && n <= |z.caller.blocks|
    ensures CountAll(Inlined(z), n, q) + (if z.b < n then Count(z.caller.blocks[z.b].insts[z.k..], q) else 0)
            == CountAll(z.caller, n, q)
    decreases n
  {
    hide CallerBlock, CloneBlock, ContinuationBlock, Count, Inlined, SubstInsts;
    if n > 0 {
      CallerCounts(z, n - 1, q);
      CallerBlockIs(z, n - 1);
      CallerBlockCounts(z, n - 1, q);
      if n - 1 == z.b {
        var insts := z.caller.blocks[z.b].insts;
        assert insts == insts[..z.k] + insts[z.k..];
        CountAppend(insts[..z.k], insts[z.k..], q);
      }
    }
  }

  lemma {:induction false} CopyCounts(z: Plan, n: nat, q: Query)
    requires HasCall(z) && Mapped(z) && SafeToInline(z.callee, |TheCall(z).args|) && OutsideCopy(z, q)
             && n <= |z.callee.blocks|
    ensures CountAll(Inlined(z), BodyStart(z) + n, q) == CountAll(Inlined(z), BodyStart(z), q)
    decreases n
  {
    hide CallerBlock, CloneBlock, ContinuationBlock, Count, Inlined, Mapped, SafeToInline, SubstInsts;
    if n > 0 {
      CopyCounts(z, n - 1, q);
      InlinedBlock(z, n - 1);
      BlockCountsNothing(z, n - 1, q);
    }
  }

  /** Inlining takes away the one call and adds nothing that is counted. */
  lemma InlinedCounts(z: Plan, q: Query)
    requires HasCall(z) && Mapped(z) && SafeToInline(z.callee, |TheCall(z).args|) && OutsideCopy(z, q)
             && z.base <= z.result
    ensures CountAll(Inlined(z), |Inlined(z).blocks|, q) + Hit(q, TheCall(z))
            == CountAll(z.caller, |z.caller.blocks|, q)
  {
    hide *;
    CallerCounts(z, |z.caller.blocks|, q);
    CopyCounts(z, |z.callee.blocks|, q);
    ContinuationCounts(z, q);
    InlinedSize(z, q);
  }

  lemma InlinedSize(z: Plan, q: Query)
    requires hide *; HasCall(z)
    ensures z.b < |z.caller.blocks| && BodyStart(z) == |z.caller.blocks|
            && BodyStart(z) + |z.callee.blocks| == Continuation(z)
    ensures |Inlined(z).blocks| == Continuation(z) + 1
    ensures CountAll(Inlined(z), Continuation(z) + 1, q) == CountAll(Inlined(z), Continuation(z), q)
            + Count(Inlined(z).blocks[Continuation(z)].insts, q)
  {
    hide Count, CallerBlock, CloneBlock, ContinuationBlock;
  }

  lemma ContinuationCounts(z: Plan, q: Query)
    requires HasCall(z) && OutsideCopy(z, q) && z.base <= z.result
    ensures Continuation(z) < |Inlined(z).blocks|
    ensures Count(Inlined(z).blocks[Continuation(z)].insts, q) + Hit(q, TheCall(z))
            == Count(z.caller.blocks[z.b].insts[z.k..], q)
  {
    hide CallerBlock, CloneBlock, Inlined, Count;
    var insts, m := z.caller.blocks[z.b].insts, Redirected(z);
    ContinuationIs(z);
    assert insts[z.k..] == [TheCall(z)] + insts[z.k + 1..];
    CountAppend([TheCall(z)], insts[z.k + 1..], q);
    SingleCount(TheCall(z), q);
    var load, rest := Load(z.result, Slot(z.resultSlot)), SubstInsts(m, insts[z.k + 1..]);
    CountAppend([load], rest, q);
    SingleCount(load, q);
    CountSubst(m, insts[z.k + 1..], q);
  }

  // ----- what every caller keeps -----

  /** The register that a call sets is set nowhere else. */
  ghost predicate CallsUnique(f: Function) {
    forall r: nat :: CountAll(f, |f.blocks|, CallInto(r)) > 0 ==> CountAll(f, |f.blocks|, SetsReg(r)) <= 1
  }

  ghost predicate NoPhisIn(f: Function) {
    forall i: nat :: i < |f.blocks| ==> f.blocks[i].phis == []
  }

  /** A function before the construction of SSA form, with no number from `base` on in use. */
  ghost predicate Caller(f: Function, base: nat) {
    0 < |f.blocks| && L.Below(f, base) && NoPhisIn(f) && TargetsWithin(f) && CallsUnique(f)
  }

  lemma CallIsUnique(f: Function, b: nat, k: nat, i: nat, j: nat)
    requires CallsUnique(f) && b < |f.blocks| && k < |f.blocks[b].insts| && f.blocks[b].insts[k].Call?
    requires i < |f.blocks| && j < |f.blocks[i].insts| && Dst(f.blocks[i].insts[j]) == Some(f.blocks[b].insts[k].dst)
    ensures i == b && j == k
  {
    hide CountAll, Count;
    var r := f.blocks[b].insts[k].dst;
    CountOne(f.blocks[b].insts, CallInto(r), k);
    CountAllOne(f, |f.blocks|, CallInto(r), b);
    if (i, j) != (b, k) {
      TwoPlaces(f, SetsReg(r), i, j, b, k);
    }
  }

  predicate Declares(i: Inst, a: nat) {
    i.Alloca? && i.slot == a
  }

  ghost predicate DeclaresAt(f: Function, i: nat, j: nat, a: nat) {
    i < |f.blocks| && j < |f.blocks[i].insts| && Declares(f.blocks[i].insts[j], a)
  }

  ghost predicate SlotsGiven(f: Function, i: nat, j: nat, slots: map<nat, nat>, low: nat, high: nat) {
    && low <= high && (forall x :: x in slots ==> low <= slots[x] < high)
    && (forall x, y :: x in slots && y in slots && slots[x] == slots[y] ==> x == y)
    && (forall i': nat, j': nat, a: nat :: (i' < i || (i' == i && j' < j)) && DeclaresAt(f, i', j', a) ==> a in slots)
  }

  lemma SlotNext(f: Function, i: nat, j: nat, slots: map<nat, nat>, low: nat, high: nat)
    requires SlotsGiven(f, i, j, slots, low, high) && i < |f.blocks| && j < |f.blocks[i].insts|
    ensures var inst := f.blocks[i].insts[j];
      SlotsGiven(f, i, j + 1, if inst.Alloca? then slots[inst.slot := high] else slots, low, if inst.Alloca?
                                                                                               then high + 1 else high)
  {
    var inst := f.blocks[i].insts[j];
    var more := if inst.Alloca? then slots[inst.slot := high] else slots;
    forall i': nat, j': nat, a: nat | (i' < i || (i' == i && j' < j + 1)) && DeclaresAt(f, i', j', a)
      ensures a in more {
      if i' == i && j' == j {
        assert inst.Alloca? && inst.slot == a;
      }
    }
  }

  /** A slot of its own in the entry of the caller for every slot that the callee declares; the latest comes first. */
  method DeclareSlots(f: Function, low: nat) returns (slots: map<nat, nat>, declared: seq<nat>, high: nat)
    ensures SlotsGiven(f, |f.blocks|, 0, slots, low, high) && forall a :: a in declared ==> low <= a < high
    ensures forall a :: a in slots ==> slots[a] in declared
  {
    hide SlotsGiven;
    slots, declared, high := map[], [], low;
    NoSlotsGiven(f, low);
    var i := 0;
    while i < |f.blocks|
      invariant 0 <= i <= |f.blocks| && SlotsGiven(f, i, 0, slots, low, high) && low <= high
                && (forall a :: a in declared ==> low <= a < high) && forall a :: a in slots ==> slots[a] in declared
    {
      var j := 0;
      while j < |f.blocks[i].insts|
        invariant 0 <= j <= |f.blocks[i].insts| && SlotsGiven(f, i, j, slots, low, high) && low <= high
                  && (forall a :: a in declared ==> low <= a < high) && forall a :: a in slots ==> slots[a] in declared
      {
        var inst := f.blocks[i].insts[j];
        SlotNext(f, i, j, slots, low, high);
        if inst.Alloca? {
          slots := slots[inst.slot := high];
          declared := [high] + declared;
          high := high + 1;
        }
        j := j + 1;
      }
      SlotBlock(f, i, slots, low, high);
      i := i + 1;
    }
  }

  lemma NoSlotsGiven(f: Function, low: nat)
    ensures SlotsGiven(f, 0, 0, map[], low, low)
  {
  }

  lemma SlotBlock(f: Function, i: nat, slots: map<nat, nat>, low: nat, high: nat)
    requires i < |f.blocks| && SlotsGiven(f, i, |f.blocks[i].insts|, slots, low, high)
    ensures SlotsGiven(f, i + 1, 0, slots, low, high)
  {
  }

  /** Every slot used is declared somewhere in the function. */
  ghost predicate DeclaresItsSlots(f: Function) {
    forall i: nat, j: nat, a: nat ::
      i < |f.blocks| && j < |f.blocks[i].insts| && UsesSlot(f.blocks[i].insts[j], a) ==> DeclaredIn(f, a)
  }

  predicate UsesSlot(i: Inst, a: nat) {
    (i.Load? && i.ptr == Slot(a)) || (i.Store? && i.ptr == Slot(a))
  }

  ghost predicate DeclaredIn(f: Function, a: nat) {
    exists i: nat, j: nat :: DeclaresAt(f, i, j, a)
  }

  lemma DeclaredIsGiven(f: Function, slots: map<nat, nat>, low: nat, high: nat, a: nat)
    requires SlotsGiven(f, |f.blocks|, 0, slots, low, high) && DeclaredIn(f, a)
    ensures a in slots
  {
    var i: nat, j: nat :| DeclaresAt(f, i, j, a);
    assert i < |f.blocks|;
  }

  /** All slots that the copy uses are declared in the entry. */
  predicate AllDeclared(z: Plan) {
    && z.resultSlot in z.declared && forall a :: a in z.slots ==> z.slots[a] in z.declared
  }

  /** A function that may be copied. */
  ghost predicate Callee(f: Function, n: nat) {
    SafeToInline(f, n) && UniqueDefs(f) && CanBeCloned(f) && TargetsWithin(f) && DeclaresItsSlots(f)
  }

  lemma PlanIsMapped(z: Plan, low: nat, high: nat, high': nat)
    requires hide *; HasCall(z) && DeclaresItsSlots(z.callee) && z.base <= low && z.base <= z.result < low
             && z.base <= z.resultSlot < low
    requires Given(z.callee, |z.callee.blocks|, 0, z.regs, low, high)
             && SlotsGiven(z.callee, |z.callee.blocks|, 0, z.slots, low, high')
    ensures Mapped(z)
  {
    hide DeclaresAt;
    var f := z.callee;
    forall i: nat, j: nat | i < |f.blocks| && j < |f.blocks[i].insts|
      ensures var inst := f.blocks[i].insts[j];
              (Dst(inst).Some? ==> Dst(inst).value in z.regs) && SlotMapped(inst, z.slots)
    {
      var inst := f.blocks[i].insts[j];
      if Dst(inst).Some? {
        assert Defines(f, i, j, Dst(inst).value);
        assert SetEarlier(f, |f.blocks|, 0, Dst(inst).value);
      }
      match inst
      case Load(_, Slot(a)) =>
        assert UsesSlot(inst, a);
        DeclaredIsGiven(f, z.slots, low, high', a);
      case Store(Slot(a), _) =>
        assert UsesSlot(inst, a);
        DeclaredIsGiven(f, z.slots, low, high', a);
      case _ =>
    }
  }

  lemma PlanIsInlinable(z: Plan)
    requires hide *; HasCall(z) && Caller(z.caller, z.base) && Callee(z.callee, |TheCall(z).args|)
    requires Mapped(z)
    ensures Inlinable(z)
  {
    hide L.Below, SafeToInline, Mapped, DeclaresItsSlots, CallsUnique;
    forall i: nat, j: nat | i < |z.caller.blocks| && j < |z.caller.blocks[i].insts|
      && Dst(z.caller.blocks[i].insts[j]) == Some(TheCall(z).dst)
      ensures i == z.b && j == z.k
    {
      CallIsUnique(z.caller, z.b, z.k, i, j);
    }
  }

  // ----- the numbers in the result -----

  lemma ApplyBelow(z: Plan, v: Operand, more: nat)
    requires HasCall(z) && L.OperandBelow(v, z.base) && z.base <= z.result < more
    ensures L.OperandBelow(Apply(Redirected(z), v), more)
  {
  }

  lemma SubstBelow(z: Plan, i: Inst, more: nat)
    requires hide *; HasCall(z) && L.InstBelow(i, z.base) && z.base <= z.result < more
    ensures L.InstBelow(SubstInst(Redirected(z), i), more)
  {
  }

  /** All numbers that the copy uses are below `more`. */
  predicate CopyBelow(z: Plan, more: nat) {
    && z.base <= z.result < more && z.base <= z.resultSlot < more
    && (forall x :: x in z.regs ==> z.regs[x] < more) && (forall x :: x in z.slots ==> z.slots[x] < more)
    && (forall a :: a in z.declared ==> a < more)
  }

  lemma CloneOperandBelow(z: Plan, i: nat, j: nat, n: nat, v: Operand, more: nat)
    requires hide *; HasCall(z) && Mapped(z) && CopyBelow(z, more) && L.InstBelow(TheCall(z), z.base)
    requires i < |z.callee.blocks| && Local(z.callee.blocks[i].insts, j, n, v) && n == |TheCall(z).args|
    ensures L.OperandBelow(CloneOperand(z, v), more)
  {
    hide Mapped;
    match v
    case Const(_) =>
    case Param(x) => ApplyBelow(z, TheCall(z).args[x], more);
    case Reg(r) => DefinedIsMapped(z, i, j, r);
  }

  lemma CloneBelow(z: Plan, i: nat, j: nat, more: nat)
    requires hide *; HasCall(z) && Mapped(z) && CopyBelow(z, more) && L.InstBelow(TheCall(z), z.base)
    requires SafeToInline(z.callee, |TheCall(z).args|) && i < |z.callee.blocks| && j < |z.callee.blocks[i].insts|
    ensures !z.callee.blocks[i].insts[j].Alloca? ==> L.InstBelow(CloneInst(z, z.callee.blocks[i].insts[j]), more)
  {
    hide Mapped, CloneOperand, L.OperandBelow, Local, CopyBelow;
    var insts, n := z.callee.blocks[i].insts, |TheCall(z).args|;
    var inst := insts[j];
    assert AllLocal(insts, j, n, Uses(inst));
    forall v | v in Uses(inst) ensures L.OperandBelow(CloneOperand(z, v), more) {
      CloneOperandBelow(z, i, j, n, v, more);
    }
    NewBelow(z, i, j, more);
    match inst
    case Binary(_, _, x, y) => assert x in Uses(inst) && y in Uses(inst);
    case Unary(_, _, x) => assert x in Uses(inst);
    case Store(_, x) => assert x in Uses(inst);
    case _ =>
  }

  lemma NewBelow(z: Plan, i: nat, j: nat, more: nat)
    requires Mapped(z) && CopyBelow(z, more) && i < |z.callee.blocks| && j < |z.callee.blocks[i].insts|
    ensures var inst := z.callee.blocks[i].insts[j];
      && (Dst(inst).Some? ==> New(z.regs, Dst(inst).value) < more)
      && (inst.Load? ==> L.PointerBelow(ClonePointer(z, inst.ptr), more))
      && (inst.Store? ==> L.PointerBelow(ClonePointer(z, inst.ptr), more))
  {
    RegMapped(z, i, j);
  }

  lemma {:induction false} CloneInstsBelow(z: Plan, i: nat, j: nat, more: nat)
    requires hide *; HasCall(z) && Mapped(z) && CopyBelow(z, more) && L.InstBelow(TheCall(z), z.base)
    requires SafeToInline(z.callee, |TheCall(z).args|) && i < |z.callee.blocks| && j <= |z.callee.blocks[i].insts|
    ensures var copies := CloneInsts(z, z.callee.blocks[i].insts[..j]); forall c :: c in copies ==> L.InstBelow(c, more)
    decreases j
  {
    hide Mapped, CloneInst, L.InstBelow, SafeToInline, CopyBelow;
    var insts := z.callee.blocks[i].insts;
    if j == 0 {
      assert insts[..0] == [];
    } else {
      CloneInstsBelow(z, i, j - 1, more);
      assert insts[..j][..j - 1] == insts[..j - 1];
      CloneBelow(z, i, j - 1, more);
    }
  }

  lemma CloneBlockBelow(z: Plan, i: nat, more: nat)
    requires hide *; HasCall(z) && Mapped(z) && CopyBelow(z, more) && L.InstBelow(TheCall(z), z.base)
    requires SafeToInline(z.callee, |TheCall(z).args|) && i < |z.callee.blocks|
    ensures L.BlockBelow(CloneBlock(z, i), more)
  {
    hide Mapped, CloneInsts, L.InstBelow, CloneOperand, Local;
    var blk, n := z.callee.blocks[i], |TheCall(z).args|;
    CloneInstsBelow(z, i, |blk.insts|, more);
    assert blk.insts[..|blk.insts|] == blk.insts;
    assert AllLocal(blk.insts, |blk.insts|, n, TermUses(blk.term));
    forall v | v in TermUses(blk.term) ensures L.OperandBelow(CloneOperand(z, v), more) {
      CloneOperandBelow(z, i, |blk.insts|, n, v, more);
    }
    match blk.term
    case CondBr(v, _, _) => assert v in TermUses(blk.term);
    case Ret(Some(v)) =>
      assert v in TermUses(blk.term);
      StoreBelow(z.resultSlot, CloneOperand(z, v), more);
    case _ =>
  }

  lemma StoreBelow(a: nat, v: Operand, more: nat)
    requires a < more && L.OperandBelow(v, more)
    ensures L.InstBelow(Store(Slot(a), v), more)
  {
  }

  lemma SubstTermBelow(z: Plan, t: Terminator, more: nat)
    requires HasCall(z) && L.TermBelow(t, z.base) && z.base <= z.result < more
    ensures L.TermBelow(SubstTerm(Redirected(z), t), more)
  {
  }

  lemma CallerPartBelow(z: Plan, insts: seq<Inst>, front: seq<Inst>, t: Terminator, more: nat)
    requires hide *; HasCall(z) && z.base <= z.result < more && L.TermBelow(t, more)
    requires (forall i :: i in insts ==> L.InstBelow(i, z.base)) && forall i :: i in front ==> L.InstBelow(i, more)
    ensures L.BlockBelow(Block([], front + SubstInsts(Redirected(z), insts), t), more)
  {
    hide L.InstBelow, L.TermBelow;
    var all := front + SubstInsts(Redirected(z), insts);
    forall k | 0 <= k < |all| ensures L.InstBelow(all[k], more) {
      if k < |front| {
        assert all[k] in front;
      } else {
        assert insts[k - |front|] in insts;
        SubstBelow(z, insts[k - |front|], more);
      }
    }
  }

  lemma InlinedBelow(z: Plan, more: nat)
    requires hide Inlined, L.Below, Mapped, SafeToInline; Inlinable(z) && CopyBelow(z, more)
    ensures L.Below(Inlined(z), more) && NoPhisIn(Inlined(z)) && TargetsWithin(Inlined(z))
  {
    hide Inlined, CallerBlock, CloneBlock, ContinuationBlock, L.BlockBelow, Mapped;
    var g := Inlined(z);
    InlinedSize(z, AnyCall);
    forall i: nat | i < |g.blocks|
      ensures L.BlockBelow(g.blocks[i], more) && g.blocks[i].phis == []
              && forall t :: t in Targets(g.blocks[i].term) ==> t < |g.blocks|
    {
      if i < |z.caller.blocks| {
        CallerBlockIs(z, i);
        CallerBlockIsBelow(z, i, more);
      } else if i < Continuation(z) {
        InlinedBlock(z, i - BodyStart(z));
        CopyBlockIsBelow(z, i - BodyStart(z), more);
      } else {
        ContinuationIs(z);
        ContinuationIsBelow(z, more);
      }
    }
  }

  lemma CopyBlockIsBelow(z: Plan, i: nat, more: nat)
    requires hide CloneBlock, L.BlockBelow, Mapped, SafeToInline;
             Inlinable(z) && CopyBelow(z, more) && i < |z.callee.blocks|
    ensures L.BlockBelow(CloneBlock(z, i), more)
    ensures forall t :: t in Targets(CloneBlock(z, i).term) ==> t <= Continuation(z)
  {
    hide CloneInsts, CloneOperand, L.BlockBelow, L.InstBelow, Mapped, SafeToInline;
    CallBelow(z);
    CloneBlockBelow(z, i, more);
    InlinableCallee(z);
    TargetsOfCallee(z.callee, i);
    match z.callee.blocks[i].term
    case Br(t) => assert t in Targets(z.callee.blocks[i].term);
    case CondBr(_, t, e) => assert t in Targets(z.callee.blocks[i].term) && e in Targets(z.callee.blocks[i].term);
    case _ =>
  }

  lemma TargetsOfCallee(f: Function, i: nat)
    requires TargetsWithin(f) && i < |f.blocks|
    ensures forall t: nat :: t in Targets(f.blocks[i].term) ==> t < |f.blocks|
  {
  }

  lemma CallerBlockIsBelow(z: Plan, i: nat, more: nat)
    requires hide CallerBlock, L.BlockBelow, Mapped, SafeToInline;
             Inlinable(z) && CopyBelow(z, more) && i < |z.caller.blocks|
    ensures L.BlockBelow(CallerBlock(z, i), more)
    ensures forall t :: t in Targets(CallerBlock(z, i).term) ==> t <= Continuation(z)
  {
    hide L.InstBelow, Mapped, SafeToInline, SubstInsts, SubstTerm;
    InstsOfCaller(z, i);
    SafeHasEntry(z);
    hide L.BlockBelow, L.InstBelow, Redirected, Inlinable, Declarations;
    var blk := z.caller.blocks[i];
    var front := if i == 0 then Declarations(z.declared) else [];
    DeclarationsBelow(z.declared, more);
    SubstTermBelow(z, blk.term, more);
    if i == z.b {
      CallerPartBelow(z, blk.insts[..z.k], front, Br(BodyStart(z)), more);
    } else {
      CallerPartBelow(z, blk.insts, front, SubstTerm(Redirected(z), blk.term), more);
    }
  }

  lemma SafeHasEntry(z: Plan)
    requires Inlinable(z)
    ensures 0 < |z.callee.blocks|
  {
    hide AllLocal, Dst, L.Below, Mapped, Uses;
  }

  lemma DeclarationsBelow(declared: seq<nat>, more: nat)
    requires forall a :: a in declared ==> a < more
    ensures forall i :: i in Declarations(declared) ==> L.InstBelow(i, more)
  {
    forall i | i in Declarations(declared) ensures L.InstBelow(i, more) {
      var k :| 0 <= k < |declared| && Declarations(declared)[k] == i;
      assert declared[k] in declared;
    }
  }

  lemma ContinuationIsBelow(z: Plan, more: nat)
    requires hide ContinuationBlock, L.BlockBelow, Mapped, SafeToInline; Inlinable(z) && CopyBelow(z, more)
    ensures L.BlockBelow(ContinuationBlock(z), more)
    ensures forall t :: t in Targets(ContinuationBlock(z).term) ==> t <= Continuation(z)
  {
    InstsOfCaller(z, z.b);
    var load := Load(z.result, Slot(z.resultSlot));
    assert L.InstBelow(load, more);
    hide L.BlockBelow, L.InstBelow, Redirected, Inlinable;
    var blk := z.caller.blocks[z.b];
    SubstTermBelow(z, blk.term, more);
    CallerPartBelow(z, blk.insts[z.k + 1..], [load], SubstTerm(Redirected(z), blk.term), more);
  }

  /** The caller is again one that calls may be inlined into, and has one call less. */
  lemma InlinedIsCaller(z: Plan, more: nat)
    requires hide CountAll, Inlined, L.Below, Mapped, SafeToInline;
             Inlinable(z) && Caller(z.caller, z.base) && CopyBelow(z, more)
    ensures Caller(Inlined(z), more)
    ensures CountAll(Inlined(z), |Inlined(z).blocks|, AnyCall) + 1 == CountAll(z.caller, |z.caller.blocks|, AnyCall)
  {
    hide AllLocal, CallerBlock, CloneBlock, ContinuationBlock, L.BlockBelow, SubstInsts, Inlined, L.Below, Mapped,
         SafeToInline, NoPhisIn, TargetsWithin, CountAll;
    var g := Inlined(z);
    InlinedBelow(z, more);
    InlinedSize(z, AnyCall);
    BaseBelowResult(z);
    InlinedCounts(z, AnyCall);
    forall r: nat | CountAll(g, |g.blocks|, CallInto(r)) > 0 ensures CountAll(g, |g.blocks|, SetsReg(r)) <= 1 {
      InlinedCounts(z, CallInto(r));
      CountedIsBelow(z.caller, z.base, |z.caller.blocks|, CallInto(r));
      InlinedCounts(z, SetsReg(r));
    }
  }

  lemma {:induction false} CountedIsBelow(f: Function, base: nat, n: nat, q: Query)
    requires hide *; L.Below(f, base) && q.CallInto? && n <= |f.blocks| && CountAll(f, n, q) > 0
    ensures q.reg < base
    decreases n
  {
    hide Count, L.InstBelow, L.PhiBelow, L.TermBelow;
    if CountAll(f, n - 1, q) > 0 {
      CountedIsBelow(f, base, n - 1, q);
    } else {
      assert L.BlockBelow(f.blocks[n - 1], base);
      CountedInstIsBelow(f.blocks[n - 1].insts, base, q);
    }
  }

  lemma {:induction false} CountedInstIsBelow(insts: seq<Inst>, base: nat, q: Query)
    requires q.CallInto? && (forall k :: 0 <= k < |insts| ==> L.InstBelow(insts[k], base)) && Count(insts, q) > 0
    ensures q.reg < base
    decreases |insts|
  {
    var n := |insts| - 1;
    if Hit(q, insts[n]) == 0 {
      CountedInstIsBelow(insts[..n], base, q);
    }
  }

  // ----- one call -----

  /** Copies the callee into the caller in place of the call. */
  method InlineCall(caller: Function, b: nat, k: nat, callee: Function, base: nat)
    returns (g: Function, more: nat, ghost z: Plan)
    requires hide CountAll, DeclaresItsSlots, Inlined, L.Below, Mapped;
             Caller(caller, base) && b < |caller.blocks| && k < |caller.blocks[b].insts|
             && caller.blocks[b].insts[k].Call?
    requires Callee(callee, |caller.blocks[b].insts[k].args|)
    ensures z.caller == caller && z.b == b && z.k == k && z.callee == callee && Inlinable(z) && g == Inlined(z)
    ensures AllDeclared(z) && base <= more
    ensures Caller(g, more) && CountAll(g, |g.blocks|, AnyCall) + 1 == CountAll(caller, |caller.blocks|, AnyCall)
  {
    hide CallerBlock, CloneBlock, ContinuationBlock, CountAll, Inlinable, Inlined, L.Below, Mapped, SafeToInline,
         SubstInsts, Caller, Callee, Given, SlotsGiven;
    var low := base + 1;
    var slots, declared, high' := DeclareSlots(callee, low);
    var start := Plan(caller, b, k, callee, base, map[], slots, base, base, [base] + declared);
    CalleeParts(callee, |caller.blocks[b].insts[k].args|);
    var copies, values, high := CloneBody(start, low);
    z := With(start, values);
    more := if high < high' then high' else high;
    PlanIsMapped(z, low, high, high');
    PlanIsInlinable(z);
    NumbersAreBelow(z, low, high, high', more);
    InlinedIsCaller(z, more);
    var blocks: seq<Block>, i := [], 0;
    while i < |caller.blocks|
      invariant 0 <= i <= |caller.blocks| && |blocks| == i
      invariant forall n: nat :: n < i ==> blocks[n] == CallerBlock(z, n)
    {
      blocks := blocks + [CallerBlock(start, i)];
      SameCallerBlock(start, values, i);
      i := i + 1;
    }
    SameContinuation(start, values);
    g := Function(blocks + copies + [ContinuationBlock(start)]);
    ThatIsInlined(z, blocks, copies);
  }

  lemma CalleeParts(f: Function, n: nat)
    requires Callee(f, n)
    ensures SafeToInline(f, n) && UniqueDefs(f) && CanBeCloned(f) && DeclaresItsSlots(f)
  {
    hide AllLocal, ClonedOrDeclared, DeclaredIn, Defines, TargetsWithin, TermUses, Uses;
  }

  lemma NumbersAreBelow(z: Plan, low: nat, high: nat, high': nat, more: nat)
    requires hide *; Given(z.callee, |z.callee.blocks|, 0, z.regs, low, high)
             && SlotsGiven(z.callee, |z.callee.blocks|, 0, z.slots, low, high')
    requires z.base == z.result == z.resultSlot < low && high <= more && high' <= more
    requires forall a :: a in z.declared ==> a == z.base || a < high'
    ensures CopyBelow(z, more)
  {
  }

  lemma SameCallerBlock(z: Plan, values: map<nat, nat>, i: nat)
    requires hide CallerBlock, HasCall; HasCall(z) && i < |z.caller.blocks|
    ensures HasCall(With(z, values)) && CallerBlock(With(z, values), i) == CallerBlock(z, i)
  {
    hide Declarations;
  }

  lemma SameContinuation(z: Plan, values: map<nat, nat>)
    requires hide *; HasCall(z)
    ensures HasCall(With(z, values)) && ContinuationBlock(With(z, values)) == ContinuationBlock(z)
  {
  }

  lemma ThatIsInlined(z: Plan, blocks: seq<Block>, copies: seq<Block>)
    requires hide *; HasCall(z) && |blocks| == |z.caller.blocks| && |copies| == |z.callee.blocks|
    requires forall n: nat :: n < |blocks| ==> blocks[n] == CallerBlock(z, n)
    requires forall n: nat :: n < |copies| ==> copies[n] == CloneBlock(z, n)
    ensures Function(blocks + copies + [ContinuationBlock(z)]) == Inlined(z)
  {
    hide CallerBlock, CloneBlock, ContinuationBlock, SubstInsts;
    var all, g := blocks + copies + [ContinuationBlock(z)], Inlined(z);
    forall n | 0 <= n < |all| ensures all[n] == g.blocks[n] {
      if |blocks| <= n < |blocks| + |copies| {
        assert g.blocks[BodyStart(z) + (n - |blocks|)] == CloneBlock(z, n - |blocks|);
      }
    }
  }
}
