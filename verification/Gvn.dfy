/** Value numbering over the dominator tree: an operation whose key is available is replaced by the earlier one. */
module Gvn {
  import opened Int32
  import opened Graphs
  import opened Ir
  import opened Ssa
  import opened SsaForm
  import opened Rewriting
  import opened Redundancy
  import Dominators
  import opened Dropping
  import opened Movable
  import ErasedForm

  // ----- keys -----

  datatype Key = Key(op: BinaryOp, a: Operand, b: Operand) | NegKey(a: Operand)

  predicate Cseable(i: Inst) {
    i.Binary? || (i.Unary? && i.uop == Neg)
  }

  ghost predicate Apart(address: Operand -> int) {
    forall v: Operand, v': Operand :: v != v' ==> address(v) != address(v')
  }

  /** Some addresses. */
  function Somewhere(v: Operand): int {
    match v
    case Const(c) => 3 * (c as int)
    case Param(i) => 3 * i + 1
    case Reg(r) => 3 * r + 2
  }

  /** Where an operand is in memory, which only serves to put the operands of a commutative operation in order:
      different operands are different objects. */
  type Address = a: Operand -> int | Apart(a) ghost witness Somewhere

  function Sorted(op: BinaryOp, a: Operand, b: Operand, address: Address): Key {
    if (op == Add || op == Mul || op == ICmpEq || op == ICmpNe) && address(a) > address(b) then Key(op, b, a)
    else Key(op, a, b)
  }

  /** Greater-than becomes less-than, and commutative operands are sorted. */
  function GvnKey(i: Inst, address: Address): Key
    requires Cseable(i)
  {
    match i
    case Unary(_, _, x) => NegKey(x)
    case Binary(_, op, x, y) =>
      if op == ICmpSgt then Sorted(ICmpSlt, y, x, address)
      else if op == ICmpSge then Sorted(ICmpSle, y, x, address)
      else Sorted(op, x, y, address)
  }

  /** The value that a key stands for. */
  function KeyValue(k: Key, params: seq<i32>, regs: map<nat, i32>): i32 {
    match k
    case NegKey(x) => Unop(Neg, Eval(x, params, regs))
    case Key(op, x, y) => Binop(op, Eval(x, params, regs), Eval(y, params, regs))
  }

  lemma Commutes(op: BinaryOp, x: i32, y: i32)
    requires op == Add || op == Mul || op == ICmpEq || op == ICmpNe
    ensures Binop(op, x, y) == Binop(op, y, x)
  {
    hide Wrap;
    if op == Mul {
      assert (x as int) * (y as int) == (y as int) * (x as int);
    }
  }

  lemma KeyMeans(i: Inst, address: Address, params: seq<i32>, regs: map<nat, i32>)
    requires hide Binop, GvnKey, KeyValue, PureValue, Unop; Cseable(i)
    ensures KeyValue(GvnKey(i, address), params, regs) == PureValue(i, params, regs)
  {
    if i.Binary? && (i.op == Add || i.op == Mul || i.op == ICmpEq || i.op == ICmpNe) {
      Commutes(i.op, Eval(i.lhs, params, regs), Eval(i.rhs, params, regs));
    }
    hide Eval, Wrap, Div, Rem, Int32.And;
  }

  // ----- equal keys -----

  ghost predicate HasKey(f: Function, c: nat, j: nat, q: nat, key: Key, address: Address) {
    && c < |f.blocks| && j < |f.blocks[c].insts| && Cseable(f.blocks[c].insts[j])
    && f.blocks[c].insts[j].dst == q && GvnKey(f.blocks[c].insts[j], address) == key
  }

  /** Equal keys, one definition before the other: the registers are equal wherever the later one is ready. */
  lemma EqualKeysAreRedundant(f: Function, c: nat, j: nat, q: nat, b: nat, k: nat, r: nat, key: Key, address: Address)
    requires Strict(f) && HasKey(f, c, j, q, key, address) && HasKey(f, b, k, r, key, address)
    requires Before(f, InstPlace(c, j), b, k)
    ensures Redundant(f, r, q)
  {
    forall params: seq<i32>, callees: Callees, w: World, b': nat, k': nat, s: Frame |
      Passes(f, params, callees, w, b', k', s) && Ready(f, b', k', Reg(r))
      ensures Get(s.regs, q) == Get(s.regs, r)
    {
      assert Sets(f, InstPlace(b, k), r);
      assert Before(f, InstPlace(b, k), b', k');
      PassesInside(f, params, callees, w, b', k', s);
      BeforeBefore(f, InstPlace(c, j), b, k, b', k');
      DefinitionsHold(f, params, callees, w, b', k', s);
      assert IsPure(f, b, k) && IsPure(f, c, j);
      assert Equation(f, params, b, k, s.regs) && Equation(f, params, c, j, s.regs);
      KeyMeans(f.blocks[b].insts[k], address, params, s.regs);
      KeyMeans(f.blocks[c].insts[j], address, params, s.regs);
    }
  }

  lemma PassesInside(f: Function, params: seq<i32>, callees: Callees, w: World, b: nat, k: nat, s: Frame)
    requires Passes(f, params, callees, w, b, k, s)
    ensures b < |f.blocks|
  {
    hide Inside, Run, Steps;
  }

  // ----- the table -----

  /** The table holds definitions that come before place `k` of block `b`, under their keys, and nothing erased. */
  ghost predicate Available(f: Function, avail: map<Key, nat>, dead: set<nat>, address: Address, b: nat, k: nat) {
    forall key :: key in avail ==> avail[key] !in dead && AvailableAs(f, avail[key], key, address, b, k)
  }

  ghost predicate AvailableAs(f: Function, q: nat, key: Key, address: Address, b: nat, k: nat) {
    exists c: nat, j: nat :: HasKey(f, c, j, q, key, address) && Before(f, InstPlace(c, j), b, k)
  }

  lemma AvailableLater(f: Function, avail: map<Key, nat>, dead: set<nat>, address: Address, b: nat, k: nat)
    requires hide *; Available(f, avail, dead, address, b, k)
    ensures Available(f, avail, dead, address, b, k + 1)
  {
    hide Cfg, Dominates, HasKey;
    forall key | key in avail
      ensures AvailableAs(f, avail[key], key, address, b, k + 1)
    {
      var c: nat, j: nat :| HasKey(f, c, j, avail[key], key, address) && Before(f, InstPlace(c, j), b, k);
      assert Before(f, InstPlace(c, j), b, k + 1);
    }
  }

  /** What is available at the end of a block is available in the blocks it dominates. */
  lemma AvailableBelow(f: Function, avail: map<Key, nat>, dead: set<nat>, address: Address, b: nat, k: nat, b': nat)
    requires hide *; Strict(f) && Available(f, avail, dead, address, b, k) && b < |f.blocks| && b' < |f.blocks|
    requires Dominates(Cfg(f), b, b') && b != b'
    ensures Available(f, avail, dead, address, b', 0)
  {
    hide AllReady, Cfg, Fed, HasKey, PathTo, Sets, Uses;
    forall key | key in avail
      ensures AvailableAs(f, avail[key], key, address, b', 0)
    {
      var c: nat, j: nat :| HasKey(f, c, j, avail[key], key, address) && Before(f, InstPlace(c, j), b, k);
      DominatesThrough(Cfg(f), c, b, b');
      if c == b' {
        assert Reachable(Cfg(f), b);
        DominatesAntisymmetric(Cfg(f), b', b);
      }
      assert Before(f, InstPlace(c, j), b', 0);
    }
  }

  lemma SubstAbsent(r: nat, v: Operand, i: Inst)
    ensures !Mentions(Uses(i), r) ==> SubstInst(map[r := v], i) == i
  {
    if Mentions(Uses(i), r) {
      return;
    }
    match i
    case Binary(_, _, x, y) => assert x in Uses(i) && y in Uses(i);
    case Unary(_, _, x) => assert x in Uses(i);
    case Store(_, x) => assert x in Uses(i);
    case Call(_, _, xs) => assert ApplyAll(map[r := v], xs) == xs;
    case _ =>
  }

  /** Replacing a register touches no definition that comes before its own. */
  lemma EarlierKept(f: Function, r: nat, q: nat, b: nat, k: nat, c: nat, j: nat)
    requires hide Before, ReplaceAllUses, Sets, Strict;
             Strict(f) && Sets(f, InstPlace(b, k), r) && Before(f, InstPlace(c, j), b, k)
    requires b < |f.blocks| && c < |f.blocks| && j < |f.blocks[c].insts|
    ensures ReplaceAllUses(f, r, Reg(q)).blocks[c].insts[j] == f.blocks[c].insts[j]
  {
    hide Cfg, Dominates, Dst, ReplaceAllUses, Strict;
    assert !Before(f, InstPlace(b, k), c, j) by {
      if Before(f, InstPlace(b, k), c, j) {
        BeforeBefore(f, InstPlace(b, k), c, j, b, k);
      }
    }
    UserIsLater(f, r, q, b, k, c, j);
  }

  lemma AvailableKept(f: Function, r: nat, q: nat, avail: map<Key, nat>, dead: set<nat>, address: Address, b: nat,
                      k: nat)
    requires Strict(f) && b < |f.blocks| && Sets(f, InstPlace(b, k), r)
    requires Available(f, avail, dead, address, b, k)
    ensures Available(ReplaceAllUses(f, r, Reg(q)), avail, dead + {r}, address, b, k)
  {
    hide AvailableAs, Cfg, ReplaceAllUses, Sets, Strict;
    var g := ReplaceAllUses(f, r, Reg(q));
    DefinitionStays(f, r, q);
    forall key | key in avail
      ensures avail[key] != r && AvailableAs(g, avail[key], key, address, b, k)
    {
      KeyKept(f, r, q, avail[key], key, address, b, k);
    }
  }

  lemma KeyKept(f: Function, r: nat, q: nat, x: nat, key: Key, address: Address, b: nat, k: nat)
    requires Strict(f) && b < |f.blocks| && Sets(f, InstPlace(b, k), r) && AvailableAs(f, x, key, address, b, k)
    ensures x != r && AvailableAs(ReplaceAllUses(f, r, Reg(q)), x, key, address, b, k)
  {
    var g := ReplaceAllUses(f, r, Reg(q));
    DefinitionStays(f, r, q);
    var c: nat, j: nat :| HasKey(f, c, j, x, key, address) && Before(f, InstPlace(c, j), b, k);
    EarlierKept(f, r, q, b, k, c, j);
    assert Sets(f, InstPlace(c, j), x);
    assert HasKey(g, c, j, x, key, address) && Before(g, InstPlace(c, j), b, k);
  }

  // ----- the erased registers -----

  lemma ReplacedIsUnused(f: Function, r: nat, q: nat, dead: set<nat>)
    requires Unused(f, dead) && q !in dead && q != r
    ensures Unused(ReplaceAllUses(f, r, Reg(q)), dead + {r})
  {
    hide ReplaceAllUses, SubstInst;
    var g, m := ReplaceAllUses(f, r, Reg(q)), map[r := Reg(q)];
    forall b: nat, k: nat, x: nat | x in dead + {r} && b < |g.blocks| && k < |g.blocks[b].insts|
      ensures !Mentions(Uses(g.blocks[b].insts[k]), x)
    {
      UsesReplaced(m, f.blocks[b].insts[k]);
      assert x in dead ==> !Mentions(Uses(f.blocks[b].insts[k]), x);
      forall u | u in Uses(f.blocks[b].insts[k])
        ensures Apply(m, u) != Reg(x)
      {
      }
    }
    forall b: nat, x: nat | x in dead + {r} && b < |g.blocks|
      ensures !Mentions(TermUses(g.blocks[b].term), x)
    {
      assert x in dead ==> !Mentions(TermUses(f.blocks[b].term), x);
    }
  }

  /** What the walk keeps: a strict form with the original runs, in which erased registers are unused and were
      set in visited blocks. */
  ghost predicate Walked(f0: Function, f: Function, dead: set<nat>, visited: set<nat>) {
    && Strict(f) && Alike(f0, f) && Cfg(f) == Cfg(f0) && Unused(f, dead)
    && AddsNothing(f0, f) && FreesNothing(f0, f)
    && (forall r :: r in dead ==> exists c: nat, j: nat :: c in visited && Sets(f, InstPlace(c, j), r))
  }

  /** The erased registers of the block under way were set before place `k`. */
  ghost predicate DeadBefore(f: Function, dead: set<nat>, b: nat, k: nat) {
    forall j: nat, r: nat :: r in dead && Sets(f, InstPlace(b, j), r) ==> j < k
  }

  lemma WalkedReplace(f0: Function, f: Function, dead: set<nat>, visited: set<nat>, b: nat, k: nat, r: nat, q: nat,
                      avail: map<Key, nat>, key: Key, address: Address)
    requires hide *; Walked(f0, f, dead, visited) && b in visited && b < |f.blocks| && HasKey(f, b, k, r, key, address)
    requires Available(f, avail, dead, address, b, k) && key in avail && q == avail[key] && DeadBefore(f, dead, b, k)
    ensures var g := ReplaceAllUses(f, r, Reg(q));
            && Walked(f0, g, dead + {r}, visited) && Available(g, avail, dead + {r}, address, b, k + 1)
            && DeadBefore(g, dead + {r}, b, k + 1) && Sets(f, InstPlace(b, k), r)
  {
    hide AddsNothing, Alike, FreesNothing, HasKey, Redundant, ReplaceAllUses, Steps, Strict, Unused, Available,
         DeadBefore;
    var g := ReplaceAllUses(f, r, Reg(q));
    AvailableKey(f, avail, dead, key, address, b, k);
    var c: nat, j: nat :| HasKey(f, c, j, q, key, address) && Before(f, InstPlace(c, j), b, k);
    EqualKeysAreRedundant(f, c, j, q, b, k, r, key, address);
    RedundantIsAlike(f, r, q);
    KeyIsReady(f, c, j, q, b, k, r, key, address);
    KeyFreesNothing(f, c, j, q, b, k, r, key, address);
    ReplacingAddsNothing(f, r, q);
    AddsNothingOn(f0, f, g);
    FreesNothingOn(f0, f, g);
    hide HasKey, Before, Sets, Ready;
    ReplacementIsStrict(f, r, q, b, k);
    DefinitionStays(f, r, q);
    ReplacedIsUnused(f, r, q, dead);
    AvailableKept(f, r, q, avail, dead, address, b, k);
    AvailableLater(g, avail, dead + {r}, address, b, k);
    AlikeOn(f0, f, g);
    WalkedIntro(f0, f, g, dead, visited, b, k, r);
  }

  lemma AvailableKey(f: Function, avail: map<Key, nat>, dead: set<nat>, key: Key, address: Address, b: nat, k: nat)
    requires hide *; Available(f, avail, dead, address, b, k) && key in avail
    ensures avail[key] !in dead && AvailableAs(f, avail[key], key, address, b, k)
  {
    hide Before, HasKey;
  }

  lemma KeyIsReady(f: Function, c: nat, j: nat, q: nat, b: nat, k: nat, r: nat, key: Key, address: Address)
    requires Strict(f) && HasKey(f, c, j, q, key, address) && HasKey(f, b, k, r, key, address)
             && Before(f, InstPlace(c, j), b, k)
    ensures Sets(f, InstPlace(b, k), r) && Ready(f, b, k, Reg(q)) && q != r
  {
    hide AllReachable, Cfg, Fed, GvnKey, PathTo, TermUses, Uses;
    assert Sets(f, InstPlace(b, k), r) && Sets(f, InstPlace(c, j), q);
  }

  lemma KeyUses(i: Inst, i': Inst, address: Address)
    requires Cseable(i) && Cseable(i') && GvnKey(i, address) == GvnKey(i', address)
    ensures forall u :: u in Uses(i) ==> u in Uses(i')
  {
  }

  lemma KeyFreesNothing(f: Function, c: nat, j: nat, q: nat, b: nat, k: nat, r: nat, key: Key, address: Address)
    requires Strict(f) && HasKey(f, c, j, q, key, address) && HasKey(f, b, k, r, key, address)
             && Before(f, InstPlace(c, j), b, k)
    ensures FreesNothing(f, ReplaceAllUses(f, r, Reg(q)))
  {
    hide Strict, Before, FreesNothing, GvnKey;
    KeyUses(f.blocks[b].insts[k], f.blocks[c].insts[j], address);
    ReplacingFreesNothing(f, c, j, q, b, k, r);
  }

  lemma WalkedIntro(f0: Function, f: Function, g: Function, dead: set<nat>, visited: set<nat>, b: nat, k: nat, r: nat)
    requires hide *;
             Walked(f0, f, dead, visited) && b in visited && Sets(f, InstPlace(b, k), r) && DeadBefore(f, dead, b, k)
    requires Strict(g) && Alike(f0, g) && Cfg(g) == Cfg(f) && Unused(g, dead + {r})
    requires AddsNothing(f0, g) && FreesNothing(f0, g)
    requires forall p, x: nat :: Sets(g, p, x) <==> Sets(f, p, x)
    ensures Walked(f0, g, dead + {r}, visited) && DeadBefore(g, dead + {r}, b, k + 1)
  {
    hide AddsNothing, Alike, FreesNothing, Sets, Unused;
    forall x | x in dead + {r}
      ensures exists c: nat, j: nat :: c in visited && Sets(g, InstPlace(c, j), x)
    {
      if x in dead {
        var c: nat, j: nat :| c in visited && Sets(f, InstPlace(c, j), x);
        assert Sets(g, InstPlace(c, j), x);
      } else {
        assert Sets(g, InstPlace(b, k), x);
      }
    }
    forall j: nat, x: nat | x in dead + {r} && Sets(g, InstPlace(b, j), x)
      ensures j < k + 1
    {
      assert Sets(f, InstPlace(b, j), x);
      if x == r {
        assert InstPlace(b, j) == InstPlace(b, k) by { OnePlace(f, InstPlace(b, j), InstPlace(b, k), r); }
      }
    }
  }

  lemma OnePlace(f: Function, p: Place, q: Place, r: nat)
    requires Strict(f) && Sets(f, p, r) && Sets(f, q, r)
    ensures p == q
  {
    hide AllReachable, AllReady, Cfg, Fed, Sets, TermUses, Uses;
  }

  lemma AlikeOn(f: Function, g: Function, h: Function)
    requires Alike(f, g) && Alike(g, h)
    ensures Alike(f, h)
  {
    hide Run;
    forall params: seq<i32>, callees: Callees, w: World, n: nat
      ensures Run(h, params, callees, Start(w), n) == Run(f, params, callees, Start(w), n)
    {
      assert Run(h, params, callees, Start(w), n) == Run(g, params, callees, Start(w), n);
    }
  }

  /** A new key: the definition is not erased, and comes before the next place. */
  lemma WalkedInsert(f0: Function, f: Function, dead: set<nat>, visited: set<nat>, b: nat, k: nat, r: nat,
                     avail: map<Key, nat>, key: Key, address: Address)
    requires hide *; Walked(f0, f, dead, visited) && b < |f.blocks| && HasKey(f, b, k, r, key, address)
    requires Available(f, avail, dead, address, b, k) && DeadBefore(f, dead, b, k)
    ensures Available(f, avail[key := r], dead, address, b, k + 1) && DeadBefore(f, dead, b, k + 1)
  {
    hide Walked, Available;
    AvailableLater(f, avail, dead, address, b, k);
    assert Sets(f, InstPlace(b, k), r);
    SelfDominates(Cfg(f), b);
    assert Before(f, InstPlace(b, k), b, k + 1);
    assert AvailableAs(f, r, key, address, b, k + 1);
    AvailableMore(f, avail, dead, address, b, k + 1, key, r);
  }

  lemma AvailableMore(f: Function, avail: map<Key, nat>, dead: set<nat>, address: Address, b: nat, k: nat, key: Key,
                      r: nat)
    requires Available(f, avail, dead, address, b, k) && r !in dead && AvailableAs(f, r, key, address, b, k)
    ensures Available(f, avail[key := r], dead, address, b, k)
  {
    hide AvailableAs;
  }

  // ----- no duplicates remain -----

  predicate Counts(f: Function, dead: set<nat>, c: nat, j: nat) {
    c < |f.blocks| && j < |f.blocks[c].insts| && Cseable(f.blocks[c].insts[j]) && f.blocks[c].insts[j].dst !in dead
  }

  /** The table has the key of every definition before the point that is not erased. */
  ghost predicate Complete(f: Function, avail: map<Key, nat>, dead: set<nat>, address: Address, b: nat, k: nat) {
    forall c: nat, j: nat :: Counts(f, dead, c, j) && Before(f, InstPlace(c, j), b, k) ==>
      GvnKey(f.blocks[c].insts[j], address) in avail
  }

  /** No definition before place `k` of block `b` has the same key. */
  ghost predicate Distinctive(f: Function, dead: set<nat>, address: Address, b: nat, k: nat) {
    Counts(f, dead, b, k) ==>
      forall c: nat, j: nat :: Counts(f, dead, c, j) && Before(f, InstPlace(c, j), b, k) ==>
        GvnKey(f.blocks[c].insts[j], address) != GvnKey(f.blocks[b].insts[k], address)
  }

  predicate Passed(visited: set<nat>, b: nat, k: nat, c: nat, j: nat) {
    c in visited && (c == b ==> j < k)
  }

  /** All visited places, up to place `k` of block `b`, are free of duplicates. */
  ghost predicate Numbered(f: Function, dead: set<nat>, address: Address, visited: set<nat>, b: nat, k: nat) {
    forall c: nat, j: nat :: Passed(visited, b, k, c, j) ==> Distinctive(f, dead, address, c, j)
  }

  /** Block `b` is entered before everything it dominates. */
  ghost predicate First(g: Graph, visited: set<nat>, b: nat) {
    forall x: nat :: x in visited && x != b ==> !Dominates(g, b, x)
  }

  /** A replacement at the place under way leaves the instructions before a visited place alone. */
  lemma VisitedKept(f: Function, r: nat, q: nat, b: nat, k: nat, visited: set<nat>, c: nat, j: nat)
    requires hide Sets, Strict, SubstInsts, SubstPhis, SubstTerm;
             Strict(f) && b < |f.blocks| && Sets(f, InstPlace(b, k), r) && First(Cfg(f), visited, b)
             && Passed(visited, b, k, c, j)
    requires c < |f.blocks| && j < |f.blocks[c].insts|
    ensures ReplaceAllUses(f, r, Reg(q)).blocks[c].insts[j] == f.blocks[c].insts[j]
    ensures forall c': nat, j': nat ::
              c' < |f.blocks| && j' < |f.blocks[c'].insts| && Before(f, InstPlace(c', j'), c, j) ==>
              ReplaceAllUses(f, r, Reg(q)).blocks[c'].insts[j'] == f.blocks[c'].insts[j']
  {
    hide Cfg, Dominates, Dst, Strict, SubstInsts, SubstPhis, SubstTerm;
    assert !Before(f, InstPlace(b, k), c, j);
    UserIsLater(f, r, q, b, k, c, j);
    forall c': nat, j': nat | c' < |f.blocks| && j' < |f.blocks[c'].insts| && Before(f, InstPlace(c', j'), c, j)
      ensures ReplaceAllUses(f, r, Reg(q)).blocks[c'].insts[j'] == f.blocks[c'].insts[j']
    {
      if Before(f, InstPlace(b, k), c', j') {
        BeforeBefore(f, InstPlace(b, k), c', j', c, j);
      }
      UserIsLater(f, r, q, b, k, c', j');
    }
  }

  lemma UserIsLater(f: Function, r: nat, q: nat, b: nat, k: nat, c: nat, j: nat)
    requires hide Before, ReplaceAllUses, Sets, Strict;
             Strict(f) && Sets(f, InstPlace(b, k), r) && c < |f.blocks| && j < |f.blocks[c].insts|
    requires !Before(f, InstPlace(b, k), c, j)
    ensures ReplaceAllUses(f, r, Reg(q)).blocks[c].insts[j] == f.blocks[c].insts[j]
  {
    hide AllReachable, Before, Cfg, Fed, Sets, SubstInst, SubstInsts, SubstPhis, SubstTerm, Uses;
    assert AllReady(f, c, j, Uses(f.blocks[c].insts[j]));
    assert Mentions(Uses(f.blocks[c].insts[j]), r) ==> Ready(f, c, j, Reg(r));
    SubstAbsent(r, Reg(q), f.blocks[c].insts[j]);
  }

  lemma NumberedReplace(f: Function, r: nat, q: nat, dead: set<nat>, address: Address, visited: set<nat>, b: nat,
                        k: nat)
    requires hide *; Strict(f) && b < |f.blocks| && Sets(f, InstPlace(b, k), r) && First(Cfg(f), visited, b)
    requires Numbered(f, dead, address, visited, b, k)
    ensures Numbered(ReplaceAllUses(f, r, Reg(q)), dead + {r}, address, visited, b, k + 1)
  {
    hide Cfg, Dominates, GvnKey, ReplaceAllUses, Strict;
    var g := ReplaceAllUses(f, r, Reg(q));
    DefinitionStays(f, r, q);
    forall c: nat, j: nat | Passed(visited, b, k + 1, c, j)
      ensures Distinctive(g, dead + {r}, address, c, j)
    {
      if c == b && j == k {
        assert Sets(g, InstPlace(b, k), r);
      } else if Counts(g, dead + {r}, c, j) {
        assert Passed(visited, b, k, c, j);
        VisitedKept(f, r, q, b, k, visited, c, j);
        assert Distinctive(f, dead, address, c, j);
        DistinctiveKept(f, g, dead, dead + {r}, address, c, j);
      }
    }
  }

  lemma DistinctiveKept(f: Function, g: Function, dead: set<nat>, dead': set<nat>, address: Address, b: nat, k: nat)
    requires hide *; Distinctive(f, dead, address, b, k) && dead <= dead' && Cfg(g) == Cfg(f)
    requires |g.blocks| == |f.blocks| && forall c: nat :: c < |f.blocks| ==> |g.blocks[c].insts| == |f.blocks[c].insts|
    requires b < |f.blocks| && k < |f.blocks[b].insts| && g.blocks[b].insts[k] == f.blocks[b].insts[k]
    requires forall c: nat, j: nat :: c < |f.blocks| && j < |f.blocks[c].insts| && Before(f, InstPlace(c, j), b, k) ==>
               g.blocks[c].insts[j] == f.blocks[c].insts[j]
    ensures Distinctive(g, dead', address, b, k)
  {
    if Counts(g, dead', b, k) {
      assert Counts(f, dead, b, k);
      forall c: nat, j: nat | Counts(g, dead', c, j) && Before(g, InstPlace(c, j), b, k)
        ensures GvnKey(g.blocks[c].insts[j], address) != GvnKey(g.blocks[b].insts[k], address)
      {
        assert Before(f, InstPlace(c, j), b, k);
        assert Counts(f, dead, c, j);
      }
    }
  }

  lemma CompleteReplace(f: Function, r: nat, q: nat, avail: map<Key, nat>, dead: set<nat>, address: Address, b: nat,
                        k: nat)
    requires hide *;
             Strict(f) && b < |f.blocks| && Sets(f, InstPlace(b, k), r) && Complete(f, avail, dead, address, b, k)
    ensures Complete(ReplaceAllUses(f, r, Reg(q)), avail, dead + {r}, address, b, k + 1)
  {
    hide Cfg, Fed, SubstInst, SubstPhis, SubstTerm;
    var g := ReplaceAllUses(f, r, Reg(q));
    DefinitionStays(f, r, q);
    forall c: nat, j: nat | Counts(g, dead + {r}, c, j) && Before(g, InstPlace(c, j), b, k + 1)
      ensures GvnKey(g.blocks[c].insts[j], address) in avail
    {
      assert Sets(g, InstPlace(c, j), g.blocks[c].insts[j].dst);
      assert c != b || j != k;
      assert Before(f, InstPlace(c, j), b, k);
      EarlierKept(f, r, q, b, k, c, j);
      assert Counts(f, dead, c, j);
    }
  }

  lemma CompleteNext(f: Function, avail: map<Key, nat>, dead: set<nat>, address: Address, b: nat, k: nat, r: nat)
    requires hide *; b < |f.blocks| && k < |f.blocks[b].insts| && Complete(f, avail, dead, address, b, k)
    ensures !Cseable(f.blocks[b].insts[k]) ==> Complete(f, avail, dead, address, b, k + 1)
    ensures Cseable(f.blocks[b].insts[k]) ==>
              Complete(f, avail[GvnKey(f.blocks[b].insts[k], address) := r], dead, address, b, k + 1)
  {
    hide Cfg, Cseable, Dominates, GvnKey;
    forall c: nat, j: nat | Counts(f, dead, c, j) && Before(f, InstPlace(c, j), b, k + 1) && (c != b || j != k)
      ensures GvnKey(f.blocks[c].insts[j], address) in avail
    {
      assert Before(f, InstPlace(c, j), b, k);
    }
  }

  lemma NumberedNext(f: Function, avail: map<Key, nat>, dead: set<nat>, address: Address, visited: set<nat>, b: nat,
                     k: nat)
    requires hide *; b < |f.blocks| && k < |f.blocks[b].insts| && Complete(f, avail, dead, address, b, k)
    requires Cseable(f.blocks[b].insts[k]) ==> GvnKey(f.blocks[b].insts[k], address) !in avail
    requires Numbered(f, dead, address, visited, b, k)
    ensures Numbered(f, dead, address, visited, b, k + 1)
  {
    forall c: nat, j: nat | Passed(visited, b, k + 1, c, j)
      ensures Distinctive(f, dead, address, c, j)
    {
      assert c != b || j != k ==> Passed(visited, b, k, c, j);
    }
  }

  /** What is before a child of `b` in the tree is before the end of `b`. */
  lemma CompleteBelow(f: Function, avail: map<Key, nat>, dead: set<nat>, address: Address, b: nat, b': nat)
    requires hide *; b < |f.blocks| && Complete(f, avail, dead, address, b, |f.blocks[b].insts|)
    requires forall d: nat :: Dominates(Cfg(f), d, b') && d != b' ==> Dominates(Cfg(f), d, b)
    ensures Complete(f, avail, dead, address, b', 0)
  {
    hide Cfg, Cseable, Dominates, GvnKey;
    forall c: nat, j: nat | Counts(f, dead, c, j) && Before(f, InstPlace(c, j), b', 0)
      ensures GvnKey(f.blocks[c].insts[j], address) in avail
    {
      assert Before(f, InstPlace(c, j), b, |f.blocks[b].insts|);
    }
  }

  // ----- the tree -----

  /** The visited blocks, and everything that `b` dominates. */
  ghost predicate WithSubtree(g: Graph, visited: set<nat>, visited': set<nat>, b: nat) {
    forall x: nat :: x in visited' <==> x in visited || (x < |g| && Dominates(g, b, x))
  }

  /** After `b` and the subtrees of its first `n` children. */
  ghost predicate WithChildren(g: Graph, visited: set<nat>, visited': set<nat>, b: nat, cs: seq<nat>, n: nat) {
    n <= |cs| && forall x: nat :: x in visited' <==>
      x in visited || x == b || (x < |g| && exists i: nat :: i < n && Dominates(g, cs[i], x))
  }

  lemma ChildFacts(g: Graph, preds: seq<seq<nat>>, idom: map<nat, nat>, po: seq<nat>, children: seq<seq<nat>>,
                   b: nat, c: nat)
    requires Dominators.Analysed(g, preds, idom, po) && Dominators.AreChildren(g, idom, children) && b < |g|
             && c in children[b]
    ensures c < |g| && c != 0 && c in idom && idom[c] == b && b != c && Dominates(g, b, c) && po[c] < po[b]
    ensures forall d: nat :: Dominates(g, d, c) && d != c ==> Dominates(g, d, b)
  {
    assert Parented(idom, po, c);
    assert Chain(idom, po, c) == {c} + Chain(idom, po, b);
  }

  lemma SiblingsApart(g: Graph, preds: seq<seq<nat>>, idom: map<nat, nat>, po: seq<nat>, children: seq<seq<nat>>,
                      b: nat, c: nat, d: nat, x: nat)
    requires hide Dominates, Dominators.Analysed;
             Dominators.Analysed(g, preds, idom, po) && Dominators.AreChildren(g, idom, children) && b < |g|
    requires c in children[b] && d in children[b] && x < |g| && Dominates(g, c, x) && Dominates(g, d, x)
    ensures c == d
  {
    ChildFacts(g, preds, idom, po, children, b, c);
    ChildFacts(g, preds, idom, po, children, b, d);
    if po[c] <= po[d] {
      ChainLinear(idom, po, c, d, x);
    } else {
      ChainLinear(idom, po, d, c, x);
    }
  }

  /** Below `b` means below one of its children. */
  lemma {:induction false} BelowAChild(g: Graph, preds: seq<seq<nat>>, idom: map<nat, nat>, po: seq<nat>,
                                       children: seq<seq<nat>>,
                                       b: nat, x: nat)
    requires Dominators.Analysed(g, preds, idom, po) && Dominators.AreChildren(g, idom, children) && b < |g| && x < |g|
    requires Dominates(g, b, x) && x != b
    ensures exists c :: c in children[b] && Dominates(g, c, x)
    decreases po[0] - po[x]
  {
    hide ArePreds, Dominates, Parented, Valid;
    assert x != 0 ==> Parented(idom, po, x);
    assert b in Chain(idom, po, x);
    if idom[x] == b {
      assert x in children[b];
      assert x in Chain(idom, po, x);
    } else {
      BelowAChild(g, preds, idom, po, children, b, idom[x]);
      var c :| c in children[b] && Dominates(g, c, idom[x]);
      assert c in Chain(idom, po, x);
    }
  }

  // ----- the walk -----

  /** What was changed lies below `b`. */
  ghost predicate OnlyBelow(g: Graph, f: Function, dead: set<nat>, f': Function, dead': set<nat>, b: nat) {
    && |f'.blocks| == |f.blocks| && dead <= dead'
    && (forall c: nat :: c < |f.blocks| ==> |f'.blocks[c].insts| == |f.blocks[c].insts|)
    && (forall c: nat, j: nat :: c < |f.blocks| && j < |f.blocks[c].insts| && !Dominates(g, b, c) ==>
          f'.blocks[c].insts[j] == f.blocks[c].insts[j]
          && (Counts(f', dead', c, j) <==> Counts(f, dead, c, j)))
  }

  lemma OnlyBelowOn(g: Graph, f: Function, dead: set<nat>, f1: Function, dead1: set<nat>, f2: Function,
                    dead2: set<nat>, b: nat, c: nat)
    requires OnlyBelow(g, f, dead, f1, dead1, b) && OnlyBelow(g, f1, dead1, f2, dead2, c) && Dominates(g, b, c)
    ensures OnlyBelow(g, f, dead, f2, dead2, b)
  {
    forall x: nat | x < |f.blocks| && !Dominates(g, b, x)
      ensures !Dominates(g, c, x)
    {
      if Dominates(g, c, x) {
        DominatesThrough(g, b, c, x);
      }
    }
  }

  lemma OnlyBelowReplace(f: Function, r: nat, q: nat, dead: set<nat>, b: nat, k: nat)
    requires Strict(f) && b < |f.blocks| && Sets(f, InstPlace(b, k), r)
    ensures OnlyBelow(Cfg(f), f, dead, ReplaceAllUses(f, r, Reg(q)), dead + {r}, b)
  {
    var g := ReplaceAllUses(f, r, Reg(q));
    forall c: nat, j: nat | c < |f.blocks| && j < |f.blocks[c].insts| && !Dominates(Cfg(f), b, c)
      ensures g.blocks[c].insts[j] == f.blocks[c].insts[j] && (Counts(g, dead + {r}, c, j) <==> Counts(f, dead, c, j))
    {
      UserIsLater(f, r, q, b, k, c, j);
      SelfDominates(Cfg(f), b);
      assert Counts(f, dead, c, j) ==> Sets(f, InstPlace(c, j), f.blocks[c].insts[j].dst);
    }
  }

  /** The table at a point is untouched by changes below a block that does not dominate the point. */
  lemma TableOutside(f: Function, f': Function, dead: set<nat>, dead': set<nat>, avail: map<Key, nat>, address: Address,
                     b: nat, k: nat, c: nat)
    requires OnlyBelow(Cfg(f), f, dead, f', dead', c) && Cfg(f') == Cfg(f)
    requires b < |f.blocks| && !Dominates(Cfg(f), c, b)
    requires Available(f, avail, dead, address, b, k) && Complete(f, avail, dead, address, b, k)
    ensures Available(f', avail, dead', address, b, k) && Complete(f', avail, dead', address, b, k)
  {
    forall x: nat, j: nat | Before(f, InstPlace(x, j), b, k)
      ensures !Dominates(Cfg(f), c, x)
    {
      if Dominates(Cfg(f), c, x) {
        DominatesThrough(Cfg(f), c, x, b);
      }
    }
    forall key | key in avail
      ensures avail[key] !in dead' && AvailableAs(f', avail[key], key, address, b, k)
    {
      var x: nat, j: nat :| HasKey(f, x, j, avail[key], key, address) && Before(f, InstPlace(x, j), b, k);
      assert Counts(f, dead, x, j) && Counts(f', dead', x, j);
      assert HasKey(f', x, j, avail[key], key, address) && Before(f', InstPlace(x, j), b, k);
    }
    forall x: nat, j: nat | Counts(f', dead', x, j) && Before(f', InstPlace(x, j), b, k)
      ensures GvnKey(f'.blocks[x].insts[j], address) in avail
    {
      assert Before(f, InstPlace(x, j), b, k);
      assert Counts(f, dead, x, j);
    }
  }

  /** Everything that holds before place `k` of block `b`. */
  ghost predicate During(f0: Function, f: Function, avail: map<Key, nat>, dead: set<nat>, address: Address,
                         visited: set<nat>, b: nat, k: nat) {
    && Walked(f0, f, dead, visited) && b < |f.blocks| && b in visited && k <= |f.blocks[b].insts|
    && First(Cfg(f0), visited, b)
    && Available(f, avail, dead, address, b, k) && Complete(f, avail, dead, address, b, k)
    && Numbered(f, dead, address, visited, b, k) && DeadBefore(f, dead, b, k)
  }

  /** Everything that holds when block `b` is entered. */
  ghost predicate Entering(f0: Function, f: Function, avail: map<Key, nat>, dead: set<nat>, address: Address,
                           visited: set<nat>, b: nat) {
    && Walked(f0, f, dead, visited) && b < |f.blocks| && (forall x :: x in visited ==> !Dominates(Cfg(f0), b, x))
    && Available(f, avail, dead, address, b, 0) && Complete(f, avail, dead, address, b, 0)
    && AllNumbered(f, dead, address, visited)
  }

  ghost predicate AllNumbered(f: Function, dead: set<nat>, address: Address, visited: set<nat>) {
    forall c: nat, j: nat :: c in visited ==> Distinctive(f, dead, address, c, j)
  }

  lemma BlockEntered(f0: Function, f: Function, avail: map<Key, nat>, dead: set<nat>, address: Address,
                     visited: set<nat>, b: nat)
    requires hide *; Entering(f0, f, avail, dead, address, visited, b)
    ensures During(f0, f, avail, dead, address, visited + {b}, b, 0) && b !in visited
    ensures OnlyBelow(Cfg(f0), f, dead, f, dead, b)
  {
    hide AddsNothing, Alike, FreesNothing, Sets, Strict, Unused;
    SelfDominates(Cfg(f0), b);
    DeadIsVisited(f0, f, dead, visited);
  }

  lemma DeadIsVisited(f0: Function, f: Function, dead: set<nat>, visited: set<nat>)
    requires Walked(f0, f, dead, visited)
    ensures forall b: nat, j: nat, r: nat :: r in dead && Sets(f, InstPlace(b, j), r) ==> b in visited
  {
    hide AddsNothing, Alike, FreesNothing, Strict, Unused;
    forall b: nat, j: nat, r: nat | r in dead && Sets(f, InstPlace(b, j), r)
      ensures b in visited
    {
      var c: nat, i: nat :| c in visited && Sets(f, InstPlace(c, i), r);
      OnePlace(f, InstPlace(b, j), InstPlace(c, i), r);
    }
  }

  lemma DuringReplace(f0: Function, f: Function, avail: map<Key, nat>, dead: set<nat>, address: Address,
                      visited: set<nat>,
                      b: nat, k: nat)
    requires hide Counts, Dominates, Sorted, SubstBlock;
             During(f0, f, avail, dead, address, visited, b, k) && k < |f.blocks[b].insts|
             && Cseable(f.blocks[b].insts[k])
    requires GvnKey(f.blocks[b].insts[k], address) in avail
    ensures var r, q := f.blocks[b].insts[k].dst, avail[GvnKey(f.blocks[b].insts[k], address)];
            && During(f0, ReplaceAllUses(f, r, Reg(q)), avail, dead + {r}, address, visited, b, k + 1)
            && OnlyBelow(Cfg(f0), f, dead, ReplaceAllUses(f, r, Reg(q)), dead + {r}, b)
            && |ReplaceAllUses(f, r, Reg(q)).blocks[b].insts| == |f.blocks[b].insts|
  {
    hide AddsNothing, Alike, FreesNothing, ReplaceAllUses, Strict, Unused;
    var i := f.blocks[b].insts[k];
    var key := GvnKey(i, address);
    assert HasKey(f, b, k, i.dst, key, address) && Strict(f) && Cfg(f) == Cfg(f0);
    hide Walked, Strict, Available, Complete, Numbered, DeadBefore, First, OnlyBelow;
    WalkedReplace(f0, f, dead, visited, b, k, i.dst, avail[key], avail, key, address);
    CompleteReplace(f, i.dst, avail[key], avail, dead, address, b, k);
    NumberedReplace(f, i.dst, avail[key], dead, address, visited, b, k);
    OnlyBelowReplace(f, i.dst, avail[key], dead, b, k);
  }

  lemma DuringInsert(f0: Function, f: Function, avail: map<Key, nat>, dead: set<nat>, address: Address,
                     visited: set<nat>,
                     b: nat, k: nat)
    requires During(f0, f, avail, dead, address, visited, b, k) && k < |f.blocks[b].insts|
             && Cseable(f.blocks[b].insts[k])
    requires GvnKey(f.blocks[b].insts[k], address) !in avail
    ensures During(f0, f, avail[GvnKey(f.blocks[b].insts[k], address) := f.blocks[b].insts[k].dst], dead, address,
                   visited, b, k + 1)
  {
    hide DeadBefore, Numbered, Walked;
    var i := f.blocks[b].insts[k];
    assert HasKey(f, b, k, i.dst, GvnKey(i, address), address);
    hide Walked, Available, Complete, Numbered, DeadBefore, First;
    WalkedInsert(f0, f, dead, visited, b, k, i.dst, avail, GvnKey(i, address), address);
    CompleteNext(f, avail, dead, address, b, k, i.dst);
    NumberedNext(f, avail, dead, address, visited, b, k);
  }

  lemma DuringSkip(f0: Function, f: Function, avail: map<Key, nat>, dead: set<nat>, address: Address, visited: set<nat>,
                   b: nat, k: nat)
    requires During(f0, f, avail, dead, address, visited, b, k) && k < |f.blocks[b].insts|
             && !Cseable(f.blocks[b].insts[k])
    ensures During(f0, f, avail, dead, address, visited, b, k + 1)
  {
    hide Available, Complete, Numbered, Walked;
    AvailableLater(f, avail, dead, address, b, k);
    assert DeadBefore(f, dead, b, k + 1);
    hide Walked, Available, Complete, Numbered, DeadBefore, First;
    CompleteNext(f, avail, dead, address, b, k, 0);
    NumberedNext(f, avail, dead, address, visited, b, k);
  }

  /** Between the children of `b`. */
  ghost predicate Between(f0: Function, f: Function, avail: map<Key, nat>, dead: set<nat>, address: Address,
                          before: set<nat>,
                          visited: set<nat>, b: nat, cs: seq<nat>, n: nat)
  {
    && Walked(f0, f, dead, visited) && b < |f.blocks| && WithChildren(Cfg(f0), before, visited, b, cs, n)
    && Available(f, avail, dead, address, b, |f.blocks[b].insts|)
    && Complete(f, avail, dead, address, b, |f.blocks[b].insts|)
    && AllNumbered(f, dead, address, visited)
  }

  lemma BlockDone(f0: Function, f: Function, avail: map<Key, nat>, dead: set<nat>, address: Address,
                  before: set<nat>, b: nat, cs: seq<nat>)
    requires hide *; b < |f.blocks| && During(f0, f, avail, dead, address, before + {b}, b, |f.blocks[b].insts|)
    ensures Between(f0, f, avail, dead, address, before, before + {b}, b, cs, 0)
  {
    hide Available, Walked;
    forall c: nat, j: nat | c in before + {b}
      ensures Distinctive(f, dead, address, c, j)
    {
      if Counts(f, dead, c, j) {
        assert Passed(before + {b}, b, |f.blocks[b].insts|, c, j);
      }
    }
  }

  /** A child may be entered after its earlier siblings. */
  lemma ChildMayEnter(f0: Function, f: Function, avail: map<Key, nat>, dead: set<nat>, address: Address,
                      before: set<nat>,
                      visited: set<nat>, preds: seq<seq<nat>>, idom: map<nat, nat>, po: seq<nat>,
                        children: seq<seq<nat>>, b: nat, n: nat)
    requires hide AddsNothing, Alike, FreesNothing, Strict, Unused;
             Dominators.Analysed(Cfg(f0), preds, idom, po) && Dominators.AreChildren(Cfg(f0), idom, children)
             && b < |f0.blocks|
    requires n < |children[b]| && Between(f0, f, avail, dead, address, before, visited, b, children[b], n)
    requires forall x :: x in before ==> x < |f0.blocks| && !Dominates(Cfg(f0), b, x)
    ensures Entering(f0, f, avail, dead, address, visited, children[b][n]) && Dominates(Cfg(f0), b, children[b][n])
    ensures !Dominates(Cfg(f0), children[b][n], b) && po[children[b][n]] < po[b] && b < |po| && children[b][n] < |po|
  {
    hide AddsNothing, Alike, FreesNothing, Strict, Unused;
    var g, c := Cfg(f0), children[b][n];
    ChildFacts(g, preds, idom, po, children, b, c);
    assert |f.blocks| == |g| && Reachable(g, b) by { SameSize(f0, f, dead, visited); }
    if Dominates(g, c, b) {
      DominatesAntisymmetric(g, c, b);
    }
    forall x | x in visited
      ensures !Dominates(g, c, x)
    {
      if Dominates(g, c, x) {
        if x in before {
          DominatesThrough(g, b, c, x);
        } else if x != b {
          var i: nat :| i < n && Dominates(g, children[b][i], x);
          SiblingsApart(g, preds, idom, po, children, b, c, children[b][i], x);
        }
      }
    }
    hide Numbered, AllNumbered, Distinctive;
    assert Walked(f0, f, dead, visited);
    assert Strict(f) && Cfg(f) == g;
    AvailableBelow(f, avail, dead, address, b, |f.blocks[b].insts|, c);
    CompleteBelow(f, avail, dead, address, b, c);
  }

  lemma SameSize(f0: Function, f: Function, dead: set<nat>, visited: set<nat>)
    requires Walked(f0, f, dead, visited)
    ensures |f.blocks| == |f0.blocks| == |Cfg(f0)| && AllReachable(Cfg(f0))
  {
    hide AddsNothing, Alike, FreesNothing, Sets, Unused;
    assert |Cfg(f)| == |f.blocks|;
  }

  lemma ChildDone(f0: Function, f: Function, dead: set<nat>, f': Function, dead': set<nat>, avail: map<Key, nat>,
                  address: Address,
                  before: set<nat>, visited: set<nat>, visited': set<nat>, b: nat, cs: seq<nat>, n: nat)
    requires hide *; n < |cs| && Between(f0, f, avail, dead, address, before, visited, b, cs, n)
    requires Walked(f0, f', dead', visited') && AllNumbered(f', dead', address, visited')
    requires WithSubtree(Cfg(f0), visited, visited', cs[n]) && OnlyBelow(Cfg(f0), f, dead, f', dead', cs[n])
    requires !Dominates(Cfg(f0), cs[n], b)
    ensures Between(f0, f', avail, dead', address, before, visited', b, cs, n + 1)
  {
    hide AddsNothing, Alike, Available, FreesNothing, Strict, Unused;
    assert Cfg(f) == Cfg(f') == Cfg(f0);
    TableOutside(f, f', dead, dead', avail, address, b, |f.blocks[b].insts|, cs[n]);
    MoreChildren(Cfg(f0), before, visited, visited', b, cs, n);
  }

  lemma MoreChildren(g: Graph, before: set<nat>, visited: set<nat>, visited': set<nat>, b: nat, cs: seq<nat>, n: nat)
    requires n < |cs| && WithChildren(g, before, visited, b, cs, n) && WithSubtree(g, visited, visited', cs[n])
    ensures WithChildren(g, before, visited', b, cs, n + 1)
  {
    forall x: nat | x < |g| && exists i: nat :: i < n + 1 && Dominates(g, cs[i], x)
      ensures x in visited'
    {
      var i: nat :| i < n + 1 && Dominates(g, cs[i], x);
      assert i < n ==> x in visited;
    }
    forall x: nat | x in visited' && x !in before && x != b
      ensures x < |g| && exists i: nat :: i < n + 1 && Dominates(g, cs[i], x)
    {
      if x in visited {
        var i: nat :| i < n && Dominates(g, cs[i], x);
        assert i < n + 1;
      } else {
        assert Dominates(g, cs[n], x);
      }
    }
  }

  /** The children cover everything below `b`. */
  lemma TreeDone(g: Graph, preds: seq<seq<nat>>, idom: map<nat, nat>, po: seq<nat>, children: seq<seq<nat>>,
                 before: set<nat>,
                 visited: set<nat>, b: nat)
    requires hide Dominates, Dominators.Analysed, WithChildren, WithSubtree;
             Dominators.Analysed(g, preds, idom, po) && Dominators.AreChildren(g, idom, children) && b < |g|
    requires WithChildren(g, before, visited, b, children[b], |children[b]|)
    ensures WithSubtree(g, before, visited, b)
  {
    hide ArePreds, Chain, IsTree, Parented, PathTo, Valid;
    forall x: nat
      ensures x in visited <==> x in before || (x < |g| && Dominates(g, b, x))
    {
      SelfDominates(g, b);
      if x < |g| && Dominates(g, b, x) && x != b {
        BelowAChild(g, preds, idom, po, children, b, x);
        var c :| c in children[b] && Dominates(g, c, x);
        var i: nat :| i < |children[b]| && children[b][i] == c;
        assert x in visited;
      } else if x in visited && x !in before && x != b {
        var i: nat :| i < |children[b]| && Dominates(g, children[b][i], x);
        ChildFacts(g, preds, idom, po, children, b, children[b][i]);
        DominatesThrough(g, b, children[b][i], x);
      }
    }
  }

  lemma NothingWalked(f: Function, address: Address)
    requires hide *; Strict(f)
    ensures 0 < |f.blocks| && Entering(f, f, map[], {}, address, {}, 0)
  {
    hide AddsNothing, FreesNothing, Run, Sets;
    AddsNothingToItself(f);
    assert Walked(f, f, {}, {}) by { hide AddsNothing, FreesNothing; FreesNothingOfItself(f); }
    forall c: nat, j: nat
      ensures !Before(f, InstPlace(c, j), 0, 0)
    {
      OnlyEntryDominatesEntry(Cfg(f));
    }
  }

  lemma EverythingWalked(f0: Function, f: Function, dead: set<nat>, address: Address, visited: set<nat>)
    requires hide *; Walked(f0, f, dead, visited) && AllNumbered(f, dead, address, visited)
             && WithSubtree(Cfg(f0), {}, visited, 0)
    ensures Strict(f) && Alike(f0, f) && SameRuns(f0, EraseDead(f, dead)) && Strict(EraseDead(f, dead))
    ensures AddsNothing(f0, EraseDead(f, dead)) && FreesNothing(f0, EraseDead(f, dead))
    ensures forall b: nat, k: nat :: Distinctive(f, dead, address, b, k)
  {
    hide AddsNothing, EraseDead, FreesNothing, Run, Strict, Unused;
    ErasingPreservesRuns(f, dead);
    ErasedForm.ErasedIsStrict(f, dead);
    AlikeThenSame(f0, f, EraseDead(f, dead));
    ErasingAddsNothing(f, dead);
    ErasingFreesNothing(f, dead);
    hide AddsNothing, FreesNothing;
    AddsNothingOn(f0, f, EraseDead(f, dead));
    FreesNothingOn(f0, f, EraseDead(f, dead));
    forall b: nat, k: nat
      ensures Distinctive(f, dead, address, b, k)
    {
      if b < |f.blocks| {
        EntryDominatesAll(Cfg(f0), b);
        SameSize(f0, f, dead, visited);
      }
    }
  }

  lemma {:induction false} PathFromEntry(g: Graph, p: seq<nat>, b: nat)
    requires PathTo(g, p, b)
    ensures 0 in p
  {
    if |p| > 1 {
      PathFromEntry(g, p[..|p| - 1], p[|p| - 2]);
    }
  }

  lemma EntryDominatesAll(g: Graph, b: nat)
    ensures Dominates(g, 0, b)
  {
    forall p | PathTo(g, p, b)
      ensures 0 in p
    {
      PathFromEntry(g, p, b);
    }
  }

  class Numbering {
    var fn: Function
    var avail: map<Key, nat>
    var dead: set<nat>
    const dt: Dominators.DominatorTree
    const address: Address
    ghost var visited: set<nat>
    ghost const f0: Function

    constructor (fn: Function, dt: Dominators.DominatorTree, address: Address)
      ensures this.fn == this.f0 == fn && this.dt == dt && this.address == address
      ensures avail == map[] && dead == {} && visited == {}
    {
      this.fn, this.dt, this.address := fn, dt, address;
      avail, dead := map[], {};
      visited, f0 := {}, fn;
    }

    /** Numbers the instructions of one block. Returns the keys that were new. */
    method NumberBlock(bb: nat) returns (inserted: seq<Key>)
      requires hide *; Entering(f0, fn, avail, dead, address, visited, bb)
      modifies `fn, `avail, `dead, `visited
      ensures bb < |fn.blocks| && visited == old(visited) + {bb}
      ensures During(f0, fn, avail, dead, address, visited, bb, |fn.blocks[bb].insts|)
      ensures OnlyBelow(Cfg(f0), old(fn), old(dead), fn, dead, bb) && Inserted(old(avail), avail, inserted)
    {
      hide Entering, During, OnlyBelow, ReplaceAllUses, Inserted;
      ghost var fn0, dead0, avail0 := fn, dead, avail;
      BlockEntered(f0, fn, avail, dead, address, visited, bb);
      visited := visited + {bb};
      inserted := [];
      NothingInserted(avail);
      DuringSize(f0, fn, avail, dead, address, visited, bb, 0);
      var k := 0;
      while k < |fn.blocks[bb].insts|
        invariant bb < |fn.blocks| && 0 <= k <= |fn.blocks[bb].insts| && visited == old(visited) + {bb}
        invariant During(f0, fn, avail, dead, address, visited, bb, k)
        invariant OnlyBelow(Cfg(f0), fn0, dead0, fn, dead, bb) && Inserted(avail0, avail, inserted)
        decreases |fn.blocks[bb].insts| - k
      {
        var inst := fn.blocks[bb].insts[k];
        if Cseable(inst) {
          var key := GvnKey(inst, address);
          if key in avail {
            DuringReplace(f0, fn, avail, dead, address, visited, bb, k);
            ghost var fn1, dead1 := fn, dead;
            fn := ReplaceAllUses(fn, inst.dst, Reg(avail[key]));
            dead := dead + {inst.dst};
            SelfDominates(Cfg(f0), bb);
            OnlyBelowOn(Cfg(f0), fn0, dead0, fn1, dead1, fn, dead, bb, bb);
          } else {
            DuringInsert(f0, fn, avail, dead, address, visited, bb, k);
            InsertedMore(avail0, avail, inserted, key, inst.dst);
            avail := avail[key := inst.dst];
            inserted := inserted + [key];
          }
        } else {
          DuringSkip(f0, fn, avail, dead, address, visited, bb, k);
        }
        k := k + 1;
      }
    }

    /** Numbers a block and everything below it; the table is then as it was before. */
    method Walk(bb: nat)
      requires hide *; dt.Describes(Cfg(f0)) && Entering(f0, fn, avail, dead, address, visited, bb)
      requires bb < |f0.blocks| && forall x :: x in visited ==> x < |f0.blocks|
      modifies `fn, `avail, `dead, `visited
      ensures Walked(f0, fn, dead, visited) && AllNumbered(fn, dead, address, visited) && avail == old(avail)
      ensures WithSubtree(Cfg(f0), old(visited), visited, bb)
      ensures OnlyBelow(Cfg(f0), old(fn), old(dead), fn, dead, bb)
      decreases if bb < |dt.po| then dt.po[bb] else 0
    {
      hide AllNumbered, Between, Dominators.Analysed, Dominators.AreFrontiers, Walked, Entering, During, OnlyBelow,
           WithSubtree, WithChildren, Inserted, Dominators.AreChildren;
      ghost var fn0, dead0, avail0, before := fn, dead, avail, visited;
      EnteringFacts(f0, fn, avail, dead, address, visited, bb);
      var inserted := NumberBlock(bb);
      ChildrenSize(Cfg(f0), dt.idom, dt.children);
      var cs := dt.children[bb];
      ghost var here := avail;
      BlockDone(f0, fn, avail, dead, address, before, bb, cs);
      var n := 0;
      while n < |cs|
        invariant 0 <= n <= |cs| && avail == here && bb < |f0.blocks|
        invariant Between(f0, fn, avail, dead, address, before, visited, bb, cs, n)
        invariant OnlyBelow(Cfg(f0), fn0, dead0, fn, dead, bb)
      {
        ChildMayEnter(f0, fn, avail, dead, address, before, visited, dt.preds, dt.idom, dt.po, dt.children, bb, n);
        VisitedInRange(f0, fn, avail, dead, address, before, visited, bb, cs, n);
        ChildSize(f0, fn, avail, dead, address, visited, cs[n]);
        ghost var fn1, dead1, visited1 := fn, dead, visited;
        Walk(cs[n]);
        ChildDone(f0, fn1, dead1, fn, dead, avail, address, before, visited1, visited, bb, cs, n);
        OnlyBelowOn(Cfg(f0), fn0, dead0, fn1, dead1, fn, dead, bb, cs[n]);
        n := n + 1;
      }
      BetweenFacts(f0, fn, avail, dead, address, before, visited, bb, cs);
      TreeDone(Cfg(f0), dt.preds, dt.idom, dt.po, dt.children, before, visited, bb);
      Forget(inserted, avail0);
    }

    /** Takes the new keys out of the table again. */
    method Forget(inserted: seq<Key>, ghost avail0: map<Key, nat>)
      requires Inserted(avail0, avail, inserted)
      modifies `avail
      ensures avail == avail0
    {
      hide Inserted;
      var i := 0;
      assert inserted[0..] == inserted;
      while i < |inserted|
        invariant 0 <= i <= |inserted| && Inserted(avail0, avail, inserted[i..])
      {
        ForgetOne(avail0, avail, inserted[i..]);
        assert inserted[i..][1..] == inserted[i + 1..];
        avail := avail - {inserted[i]};
        i := i + 1;
      }
      assert inserted[i..] == [];
      AllForgotten(avail0, avail);
    }
  }

  lemma ForgetOne(avail0: map<Key, nat>, avail: map<Key, nat>, inserted: seq<Key>)
    requires Inserted(avail0, avail, inserted) && inserted != []
    ensures Inserted(avail0, avail - {inserted[0]}, inserted[1..])
  {
    assert inserted == [inserted[0]] + inserted[1..];
  }

  lemma AllForgotten(avail0: map<Key, nat>, avail: map<Key, nat>)
    requires Inserted(avail0, avail, [])
    ensures avail == avail0
  {
    assert avail.Keys == avail0.Keys;
  }

  /** The table grew by the keys in `inserted`, which are new and different. */
  ghost predicate Inserted(avail0: map<Key, nat>, avail: map<Key, nat>, inserted: seq<Key>) {
    && (forall key :: key in avail <==> key in avail0 || key in inserted)
    && (forall key :: key in avail0 ==> avail[key] == avail0[key])
    && (forall i :: 0 <= i < |inserted| ==> inserted[i] !in avail0)
    && (forall i, j :: 0 <= i < j < |inserted| ==> inserted[i] != inserted[j])
  }

  lemma NothingInserted(avail: map<Key, nat>)
    ensures Inserted(avail, avail, [])
  {
  }

  lemma InsertedMore(avail0: map<Key, nat>, avail: map<Key, nat>, inserted: seq<Key>, key: Key, r: nat)
    requires Inserted(avail0, avail, inserted) && key !in avail
    ensures Inserted(avail0, avail[key := r], inserted + [key])
  {
  }

  lemma DuringSize(f0: Function, f: Function, avail: map<Key, nat>, dead: set<nat>, address: Address,
                   visited: set<nat>, b: nat, k: nat)
    requires During(f0, f, avail, dead, address, visited, b, k)
    ensures b < |f.blocks|
  {
  }

  lemma EnteringFacts(f0: Function, f: Function, avail: map<Key, nat>, dead: set<nat>, address: Address,
                      visited: set<nat>, b: nat)
    requires Entering(f0, f, avail, dead, address, visited, b)
    ensures Walked(f0, f, dead, visited) && forall x :: x in visited ==> !Dominates(Cfg(f0), b, x)
  {
    hide AddsNothing, Alike, FreesNothing, Sets, Strict, Unused;
  }

  lemma ChildrenSize(g: Graph, idom: map<nat, nat>, children: seq<seq<nat>>)
    requires Dominators.AreChildren(g, idom, children)
    ensures |children| == |g|
  {
  }

  lemma VisitedInRange(f0: Function, f: Function, avail: map<Key, nat>, dead: set<nat>, address: Address,
                       before: set<nat>,
                       visited: set<nat>, b: nat, cs: seq<nat>, n: nat)
    requires Between(f0, f, avail, dead, address, before, visited, b, cs, n) && b < |f0.blocks|
    requires forall x :: x in before ==> x < |f0.blocks|
    ensures forall x :: x in visited ==> x < |f0.blocks|
  {
    hide Available, Walked;
  }

  lemma ChildSize(f0: Function, f: Function, avail: map<Key, nat>, dead: set<nat>, address: Address,
                  visited: set<nat>, b: nat)
    requires Entering(f0, f, avail, dead, address, visited, b)
    ensures b < |f0.blocks|
  {
    hide Walked;
    SameSize(f0, f, dead, visited);
  }

  lemma BetweenFacts(f0: Function, f: Function, avail: map<Key, nat>, dead: set<nat>, address: Address,
                     before: set<nat>,
                     visited: set<nat>, b: nat, cs: seq<nat>)
    requires hide *; Between(f0, f, avail, dead, address, before, visited, b, cs, |cs|)
    ensures Walked(f0, f, dead, visited) && AllNumbered(f, dead, address, visited)
    ensures WithChildren(Cfg(f0), before, visited, b, cs, |cs|)
  {
    hide AddsNothing, Alike, Available, FreesNothing, Strict, Unused;
  }

  // ----- what is left repeats nothing -----

  predicate Commutative(op: BinaryOp) {
    op == Add || op == Mul || op == ICmpEq || op == ICmpNe
  }

  /** Greater and less, or their inclusive forms. */
  predicate Mirrored(op: BinaryOp, op': BinaryOp) {
    || (op == ICmpSgt && op' == ICmpSlt) || (op == ICmpSlt && op' == ICmpSgt)
    || (op == ICmpSge && op' == ICmpSle) || (op == ICmpSle && op' == ICmpSge)
  }

  /** Two negations of one operand, or two binary operations on the same operands: one operator with the operands
      in the same order, or in either order if it commutes, or mirrored comparisons with the operands exchanged. */
  predicate SameOperation(i: Inst, i': Inst) {
    || (i.Unary? && i'.Unary? && i.uop == i'.uop == Neg && i.arg == i'.arg)
    || (i.Binary? && i'.Binary?
        && (|| (i.op == i'.op && i.lhs == i'.lhs && i.rhs == i'.rhs)
            || (i.op == i'.op && Commutative(i.op) && i.lhs == i'.rhs && i.rhs == i'.lhs)
            || (Mirrored(i.op, i'.op) && i.lhs == i'.rhs && i.rhs == i'.lhs)))
  }

  /** Instruction `j` of block `c` comes before instruction `k` of block `b` on every path and does the same. */
  ghost predicate Repeats(f: Function, c: nat, j: nat, b: nat, k: nat) {
    && c < |f.blocks| && j < |f.blocks[c].insts| && b < |f.blocks| && k < |f.blocks[b].insts|
    && Before(f, InstPlace(c, j), b, k) && SameOperation(f.blocks[c].insts[j], f.blocks[b].insts[k])
  }

  ghost predicate NoRepeats(f: Function) {
    forall c: nat, j: nat, b: nat, k: nat :: !Repeats(f, c, j, b, k)
  }

  lemma SameOperationSameKey(i: Inst, i': Inst, address: Address)
    requires SameOperation(i, i')
    ensures Cseable(i) && Cseable(i') && GvnKey(i, address) == GvnKey(i', address)
  {
    if i.Binary? && i.lhs != i.rhs {
      assert address(i.lhs) != address(i.rhs);
    }
  }

  /** A repetition that is left was there before anything was erased. */
  lemma RepeatedBefore(f: Function, dead: set<nat>, c: nat, j: nat, b: nat, k: nat) returns (j': nat, k': nat)
    requires hide Before, Dead, EraseDead, SameOperation; Repeats(EraseDead(f, dead), c, j, b, k)
    ensures Repeats(f, c, j', b, k') && !Dead(f.blocks[c].insts[j'], dead) && !Dead(f.blocks[b].insts[k'], dead)
  {
    hide Dominates, SameOperation, Dead, KeepLive, EraseDead, Left, NewIndex;
    ErasedForm.ErasedBlock(f, dead, c);
    ErasedForm.ErasedBlock(f, dead, b);
    ErasedForm.SameCfg(f, dead);
    var drop := ErasedForm.Deadness(dead);
    j' := LeftFrom(f.blocks[c].insts, drop, j);
    k' := LeftFrom(f.blocks[b].insts, drop, k);
    if b == c && k' <= j' {
      NewIndexRises(f.blocks[b].insts, drop, k', j');
    }
  }

  lemma NotRepeated(f: Function, dead: set<nat>, address: Address, c: nat, j: nat, b: nat, k: nat)
    requires hide Before, Dead, Distinctive, SameOperation;
             Distinctive(f, dead, address, b, k) && Repeats(f, c, j, b, k)
    ensures Dead(f.blocks[c].insts[j], dead) || Dead(f.blocks[b].insts[k], dead)
  {
    hide Before, SameOperation, GvnKey;
    SameOperationSameKey(f.blocks[c].insts[j], f.blocks[b].insts[k], address);
  }

  lemma ErasedHasNoRepeats(f: Function, dead: set<nat>, address: Address)
    requires forall b: nat, k: nat :: Distinctive(f, dead, address, b, k)
    ensures NoRepeats(EraseDead(f, dead))
  {
    hide EraseDead, Repeats, Distinctive, Dead;
    forall c: nat, j: nat, b: nat, k: nat
      ensures !Repeats(EraseDead(f, dead), c, j, b, k)
    {
      if Repeats(EraseDead(f, dead), c, j, b, k) {
        var j', k' := RepeatedBefore(f, dead, c, j, b, k);
        NotRepeated(f, dead, address, c, j', b, k');
      }
    }
  }

  /** Value numbering makes every run the original makes, and leaves no operation that repeats an earlier one. */
  method Number(f: Function, address: Address) returns (g: Function)
    requires Strict(f)
    ensures SameRuns(f, g) && Strict(g) && NoRepeats(g) && Cfg(g) == Cfg(f)
    ensures AddsNothing(f, g) && FreesNothing(f, g)
  {
    hide AddsNothing, Distinctive, Dominators.AreFrontiers, FreesNothing, NoRepeats, Run;
    var dt := new Dominators.DominatorTree();
    dt.Analyze(f);
    var walk := new Numbering(f, dt, address);
    NothingWalked(f, address);
    walk.Walk(0);
    EverythingWalked(f, walk.fn, walk.dead, address, walk.visited);
    g := EraseDead(walk.fn, walk.dead);
    ErasedHasNoRepeats(walk.fn, walk.dead, address);
  }
}
