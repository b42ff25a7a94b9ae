/** The state of IR generation, what the finished function has to do with it, and the generator's steps. */
module Drafts {
  import opened Int32
  import opened Ir
  import opened Runs
  import Ast

  datatype Symbol = Local(slot: nat) | Address(name: string) | Value(value: i32)

  /** A block under construction. */
  datatype Draft = Draft(insts: seq<Inst>, term: Option<Terminator>)

  /** The state of the generator. A loop is known by the blocks of its condition and its exit. */
  datatype Gen = Gen(blocks: seq<Draft>, here: nat, next: nat, symbols: map<Ast.Decl, Symbol>,
                     loops: seq<(nat, nat)>, failed: bool)

  predicate Bound(d: Ast.Decl, s: Symbol, consts: Ast.Consts) {
    match d
    case Variable(_) => s.Local?
    case Constant(id) => id in consts && s == Value(consts[id])
    case GlobalVariable(name) => s == Address(name)
  }

  /** Every symbol is of its declaration's kind, and every variable has a slot of its own. */
  ghost predicate Table(symbols: map<Ast.Decl, Symbol>, consts: Ast.Consts) {
    && (forall d :: d in symbols ==> Bound(d, symbols[d], consts))
    && (forall d, d' :: d in symbols && d' in symbols && symbols[d].Local? && symbols[d'] == symbols[d] ==> d == d')
  }

  ghost predicate Valid(g: Gen, consts: Ast.Consts) {
    && g.here < |g.blocks|
    && Table(g.symbols, consts)
    && (forall d :: d in g.symbols && g.symbols[d].Local? ==> g.symbols[d].slot < g.next)
    && (forall i :: 0 <= i < |g.loops| ==> g.loops[i].0 < |g.blocks| && g.loops[i].1 < |g.blocks|)
  }

  predicate Open(g: Gen) {
    g.here < |g.blocks| && g.blocks[g.here].term.None?
  }

  predicate DraftSame(a: Draft, b: Draft) {
    Plain(a.insts) == Plain(b.insts) && a.term == b.term
  }

  predicate DraftGrows(a: Draft, b: Draft) {
    if a.term.Some? then DraftSame(a, b) else Plain(a.insts) <= Plain(b.insts)
  }

  /** The table grew; the slots it gained are not below `next`. */
  ghost predicate TableGrows(symbols: map<Ast.Decl, Symbol>, next: nat, symbols': map<Ast.Decl, Symbol>) {
    && (forall d :: d in symbols ==> d in symbols' && symbols'[d] == symbols[d])
    && (forall d :: d in symbols' && symbols'[d].Local? ==> d in symbols || symbols'[d].slot >= next)
  }

  /** Code was added to the current block and to new blocks only. */
  ghost predicate Grows(g: Gen, g': Gen) {
    && |g.blocks| <= |g'.blocks| && g.next <= g'.next && (g.failed ==> g'.failed)
    && (forall b: nat :: b < |g.blocks| ==> DraftGrows(g.blocks[b], g'.blocks[b]))
    && (forall b: nat :: b < |g.blocks| && b != g.here ==> DraftSame(g.blocks[b], g'.blocks[b]))
    && TableGrows(g.symbols, g.next, g'.symbols)
  }

  predicate Moved(g: Gen, g': Gen) {
    g'.here == g.here || g'.here >= |g.blocks|
  }

  lemma GrowsOn(g: Gen, g1: Gen, g2: Gen)
    requires Grows(g, g1) && Moved(g, g1) && Grows(g1, g2)
    ensures Grows(g, g2)
    ensures Moved(g1, g2) ==> Moved(g, g2)
  {
    hide Plain, TableGrows;
    forall b: nat | b < |g.blocks|
      ensures DraftGrows(g.blocks[b], g2.blocks[b])
      ensures b != g.here ==> DraftSame(g.blocks[b], g2.blocks[b])
    {
      assert DraftGrows(g1.blocks[b], g2.blocks[b]);
    }
    TableGrowsOn(g.symbols, g.next, g1.symbols, g1.next, g2.symbols);
  }

  lemma TableGrowsOn(symbols: map<Ast.Decl, Symbol>, next: nat, symbols1: map<Ast.Decl, Symbol>, next1: nat,
                     symbols2: map<Ast.Decl, Symbol>)
    requires TableGrows(symbols, next, symbols1) && TableGrows(symbols1, next1, symbols2) && next <= next1
    ensures TableGrows(symbols, next, symbols2)
  {
  }

  // ----- the finished function -----

  /** The finished function. A block that was left open ends the function without a value. */
  function Finished(g: Gen): Function {
    Function(seq(|g.blocks|, b requires 0 <= b < |g.blocks| =>
      Block([], g.blocks[b].insts, if g.blocks[b].term.Some? then g.blocks[b].term.value else Ret(None))))
  }

  /** A finished function, the final symbol table, and a choice of everything else its runs depend on. */
  datatype Whole = Whole(setup: Setup, symbols: map<Ast.Decl, Symbol>, consts: Ast.Consts)

  ghost predicate Carries(f: Function, b: nat, d: Draft) {
    && b < |f.blocks| && Plain(d.insts) <= Code(f, b)
    && (d.term.Some? ==> Code(f, b) == Plain(d.insts) && f.blocks[b].term == d.term.value)
  }

  /** The finished function contains everything generated so far. */
  ghost predicate Extends(m: Whole, g: Gen) {
    && Table(m.symbols, m.consts)
    && |g.blocks| <= |m.setup.f.blocks|
    && (forall b: nat :: b < |m.setup.f.blocks| ==> m.setup.f.blocks[b].phis == [])
    && (forall b: nat :: b < |g.blocks| ==> Carries(m.setup.f, b, g.blocks[b]))
    && TableGrows(g.symbols, g.next, m.symbols)
  }

  lemma ExtendsBack(m: Whole, g: Gen, g': Gen)
    requires Grows(g, g') && Extends(m, g')
    ensures Extends(m, g)
  {
    hide Plain, Table, TableGrows;
    forall b: nat | b < |g.blocks|
      ensures Carries(m.setup.f, b, g.blocks[b])
    {
      assert DraftGrows(g.blocks[b], g'.blocks[b]);
      assert Carries(m.setup.f, b, g'.blocks[b]);
    }
    TableGrowsOn(g.symbols, g.next, g'.symbols, g'.next, m.symbols);
  }

  /** The point of the finished function that corresponds to the generator's insertion point. */
  ghost function Here(m: Whole, g: Gen, fr: Frame): Config
    requires g.here < |g.blocks| && Extends(m, g)
  {
    assert Carries(m.setup.f, g.here, g.blocks[g.here]);
    Point(m.setup, g.here, |Plain(g.blocks[g.here].insts)|, fr)
  }

  ghost predicate Match(m: Whole, fr: Frame, st: Ast.State) {
    && fr.world == st.world
    && forall id: nat :: Ast.Variable(id) in m.symbols ==>
         m.symbols[Ast.Variable(id)].Local? && Get(fr.slots, m.symbols[Ast.Variable(id)].slot) == Get(st.locals, id)
  }

  // ----- the generator's steps -----

  function Emit(g: Gen, i: Inst): Gen
    requires g.here < |g.blocks|
  {
    g.(blocks := g.blocks[g.here := g.blocks[g.here].(insts := g.blocks[g.here].insts + [i])])
  }

  /** An instruction with a fresh result. */
  function EmitFresh(g: Gen, i: Inst): Gen
    requires g.here < |g.blocks|
  {
    Emit(g, i).(next := g.next + 1)
  }

  function Close(g: Gen, t: Terminator): Gen
    requires g.here < |g.blocks|
  {
    g.(blocks := g.blocks[g.here := g.blocks[g.here].(term := Some(t))])
  }

  function NewBlock(g: Gen): Gen {
    g.(blocks := g.blocks + [Draft([], None)])
  }

  function LeadingAllocas(insts: seq<Inst>): (k: nat)
    ensures k <= |insts|
  {
    if insts == [] || !insts[0].Alloca? then 0 else 1 + LeadingAllocas(insts[1..])
  }

  function WithAlloca(insts: seq<Inst>, slot: nat): seq<Inst> {
    insts[..LeadingAllocas(insts)] + [Alloca(slot)] + insts[LeadingAllocas(insts)..]
  }

  /** A new slot at the head of the entry block. */
  function NewSlot(g: Gen): Gen
    requires |g.blocks| > 0
  {
    g.(blocks := g.blocks[0 := g.blocks[0].(insts := WithAlloca(g.blocks[0].insts, g.next))], next := g.next + 1)
  }

  function Declare(g: Gen, id: nat): Gen
    requires |g.blocks| > 0
  {
    NewSlot(g).(symbols := g.symbols[Ast.Variable(id) := Local(g.next)])
  }

  lemma EmitGrows(g: Gen, i: Inst, consts: Ast.Consts)
    requires Open(g) && !i.Alloca? && Valid(g, consts)
    ensures Grows(g, Emit(g, i)) && Open(Emit(g, i)) && Valid(Emit(g, i), consts)
    ensures Grows(g, EmitFresh(g, i)) && Open(EmitFresh(g, i)) && Valid(EmitFresh(g, i), consts)
    ensures Plain(Emit(g, i).blocks[g.here].insts) == Plain(g.blocks[g.here].insts) + [i]
  {
    PlainAppend(g.blocks[g.here].insts, [i]);
    PlainOne(i);
  }

  lemma EmitRuns(m: Whole, g: Gen, i: Inst, g': Gen, fr: Frame, consts: Ast.Consts)
    requires hide Extends, Here, Step, Table;
             Open(g) && !i.Alloca? && Valid(g, consts) && (g' == Emit(g, i) || g' == EmitFresh(g, i)) && Extends(m, g')
    ensures Extends(m, g)
    ensures Here(m, g, fr) == Here(m, g', Step(i, m.setup.params, m.setup.callees, fr))
  {
    EmitGrows(g, i, consts);
    ExtendsBack(m, g, g');
    assert Carries(m.setup.f, g'.here, g'.blocks[g'.here]);
    var k := |Plain(g.blocks[g.here].insts)|;
    assert Code(m.setup.f, g.here)[k] == Plain(g'.blocks[g.here].insts)[k] == i;
    PointStep(m.setup, g.here, k, fr);
  }

  lemma CloseGrows(g: Gen, t: Terminator, consts: Ast.Consts)
    requires hide Close, Grows, Open, Table; Open(g) && Valid(g, consts)
    ensures Grows(g, Close(g, t)) && !Open(Close(g, t)) && Valid(Close(g, t), consts)
  {
    hide Plain, Table;
  }

  lemma CloseRuns(m: Whole, g: Gen, t: Terminator, g': Gen, fr: Frame)
    requires hide Extends, Here, Leave; Open(g) && Close(g, t).blocks == g'.blocks && Extends(m, g) && Extends(m, g')
    ensures Here(m, g, fr) == Leave(t, g.here, m.setup.params, fr)
  {
    hide Leave, Point, Table, TableGrows;
    assert Carries(m.setup.f, g.here, g'.blocks[g.here]);
    PointEnd(m.setup, g.here, fr);
  }

  lemma WithAllocaPlain(insts: seq<Inst>, slot: nat)
    ensures Plain(WithAlloca(insts, slot)) == Plain(insts)
  {
    var k := LeadingAllocas(insts);
    assert insts == insts[..k] + insts[k..];
    PlainAppend(insts[..k], insts[k..]);
    PlainAppend(insts[..k], [Alloca(slot)]);
    PlainAppend(insts[..k] + [Alloca(slot)], insts[k..]);
    PlainOne(Alloca(slot));
  }

  lemma NewSlotGrows(g: Gen, consts: Ast.Consts)
    requires hide DraftGrows, NewSlot, Plain, Table, TableGrows; Valid(g, consts)
    ensures Grows(g, NewSlot(g)) && Valid(NewSlot(g), consts) && (Open(g) ==> Open(NewSlot(g)))
    ensures |NewSlot(g).blocks| == |g.blocks|
    ensures forall b: nat :: b < |g.blocks| ==> DraftSame(g.blocks[b], NewSlot(g).blocks[b])
  {
    hide Plain, Table, WithAlloca;
    WithAllocaPlain(g.blocks[0].insts, g.next);
  }

  lemma DeclareGrows(g: Gen, id: nat, consts: Ast.Consts)
    requires hide Declare, DraftGrows, Plain, Table, TableGrows; Valid(g, consts) && Ast.Variable(id) !in g.symbols
    ensures Grows(g, Declare(g, id)) && Valid(Declare(g, id), consts) && (Open(g) ==> Open(Declare(g, id)))
    ensures forall b: nat :: b < |g.blocks| ==> DraftSame(g.blocks[b], Declare(g, id).blocks[b])
  {
    hide DraftGrows, DraftSame, Plain, WithAlloca;
    NewSlotGrows(g, consts);
  }

  /** Steps that leave every block as it is do not move the corresponding point. */
  lemma SameHere(m: Whole, g: Gen, g': Gen, fr: Frame)
    requires hide *; g.here == g'.here < |g.blocks| <= |g'.blocks| && Extends(m, g) && Extends(m, g')
    requires DraftSame(g.blocks[g.here], g'.blocks[g.here])
    ensures Here(m, g, fr) == Here(m, g', fr)
  {
    hide Carries, Extends, Point;
  }

  /** Ends the current block and goes on in block `b`. */
  function Jump(g: Gen, t: Terminator, b: nat): Gen
    requires g.here < |g.blocks|
  {
    Close(g, t).(here := b)
  }

  lemma JumpGrows(g: Gen, t: Terminator, b: nat, consts: Ast.Consts)
    requires hide DraftGrows, Jump, Plain, Table, TableGrows; Open(g) && Valid(g, consts) && b < |g.blocks|
    ensures Grows(g, Jump(g, t, b)) && Valid(Jump(g, t, b), consts)
    ensures b != g.here ==> Jump(g, t, b).blocks[b] == g.blocks[b]
  {
    hide Plain, Table;
  }

  lemma JumpRuns(m: Whole, g: Gen, t: Terminator, b: nat, fr: Frame, consts: Ast.Consts)
    requires hide Extends, Here, Jump, Leave, Table;
             Open(g) && Valid(g, consts) && b < |g.blocks| && Extends(m, Jump(g, t, b))
    ensures Extends(m, g) && Here(m, g, fr) == Leave(t, g.here, m.setup.params, fr)
  {
    hide Extends, Grows, Here, Leave, Valid;
    JumpGrows(g, t, b, consts);
    ExtendsBack(m, g, Jump(g, t, b));
    CloseRuns(m, g, t, Jump(g, t, b), fr);
  }

  /** Coming along an edge to a block that is still empty. */
  lemma StartBlock(m: Whole, g: Gen, prev: nat, fr: Frame)
    requires hide *; Extends(m, g) && g.here < |g.blocks| && Plain(g.blocks[g.here].insts) == []
    ensures Goes(m.setup, At(prev, g.here, fr), 1, Here(m, g, fr))
  {
    hide Point, Run, Steps, Table, TableGrows;
    assert Carries(m.setup.f, g.here, g.blocks[g.here]);
    EnterPoint(m.setup, prev, g.here, fr);
  }

  /** Block `b` exists and nothing was put into it. */
  predicate Blank(g: Gen, b: nat) {
    b < |g.blocks| && Plain(g.blocks[b].insts) == [] && g.blocks[b].term.None?
  }

  lemma BlankStays(g: Gen, g': Gen, b: nat)
    requires Grows(g, g') && Blank(g, b) && b != g.here
    ensures Blank(g', b)
  {
    assert DraftSame(g.blocks[b], g'.blocks[b]);
  }

  lemma StartBlank(m: Whole, g: Gen, prev: nat, fr: Frame)
    requires hide *; Extends(m, g) && Blank(g, g.here)
    ensures g.here < |g.blocks| && Goes(m.setup, At(prev, g.here, fr), 1, Here(m, g, fr))
  {
    hide Carries, Point, Run, Steps, Table;
    StartBlock(m, g, prev, fr);
  }
}
