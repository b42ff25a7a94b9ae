/** Generated functions under the inliner: they have everything that it relies on, and they see what is in their slots
    exactly if the source function sees what its variables hold at first. */
module Blindness {
  import opened Int32
  import opened Ir
  import opened Ssa
  import opened Drafts
  import opened IrGen
  import opened Wiring
  import opened Inlining
  import opened Inliner
  import opened InlinedForm
  import A = Assigned
  import Ast
  import Graphs
  import L = Numbers
  import M = ModuleInliner

  // ----- what is in the slots, and what the variables hold -----

  /** A call gives a result and leaves globals. */
  ghost predicate CallGives(func: Ast.FuncDef, args: seq<i32>, consts: Ast.Consts, callees: Callees, st: Ast.State,
                            result: Option<i32>, globals: map<string, i32>)
  {
    exists w': World :: ReturnsFrom(func, args, consts, callees, st, result, w') && w'.globals == globals
  }

  /** What a call gives does not depend on what the variables hold at first. */
  ghost predicate SourceBlind(func: Ast.FuncDef, n: nat, consts: Ast.Consts, callees: Callees) {
    forall args: seq<i32>, locals: map<nat, i32>, w: World, result: Option<i32>, globals: map<string, i32> ::
      |args| == n ==>
        (CallGives(func, args, consts, callees, Ast.State(locals, w), result, globals)
         <==> CallGives(func, args, consts, callees, Ast.Fresh(w), result, globals))
  }

  lemma GivesAlike(f: Function, func: Ast.FuncDef, symbols: map<Ast.Decl, Symbol>, consts: Ast.Consts, args: seq<i32>,
                   callees: Callees, at: Origin, result: Option<i32>, globals: map<string, i32>)
    requires SameFrom(f, func, symbols, consts) && Alike(symbols, at)
    ensures CallGives(func, args, consts, callees, at.st, result, globals)
       <==> Returns(f, args, callees, at.slots, at.st.world, result, globals)
  {
    hide Run, Ast.RunCall, Alike, SameFrom;
    AllSame(f, func, symbols, consts, args, callees, at, result);
    if CallGives(func, args, consts, callees, at.st, result, globals) {
      var w': World :| ReturnsFrom(func, args, consts, callees, at.st, result, w') && w'.globals == globals;
      var n: nat :| Run(f, args, callees, From(at.slots, at.st.world), n) == Done(result, w');
      assert ReturnsWith(f, args, callees, at.slots, at.st.world, n, result, globals);
    }
    if Returns(f, args, callees, at.slots, at.st.world, result, globals) {
      var n: nat :| ReturnsWith(f, args, callees, at.slots, at.st.world, n, result, globals);
      var d := Run(f, args, callees, From(at.slots, at.st.world), n);
      assert RunReturnsFrom(f, args, callees, at.slots, at.st.world, result, d.world);
      assert ReturnsFrom(func, args, consts, callees, at.st, result, d.world);
    }
  }

  lemma AllSame(f: Function, func: Ast.FuncDef, symbols: map<Ast.Decl, Symbol>, consts: Ast.Consts, args: seq<i32>,
                callees: Callees, at: Origin, result: Option<i32>)
    requires SameFrom(f, func, symbols, consts) && Alike(symbols, at)
    ensures forall w': World :: ReturnsFrom(func, args, consts, callees, at.st, result, w')
                           <==> RunReturnsFrom(f, args, callees, at.slots, at.st.world, result, w')
  {
    hide ReturnsFrom, RunReturnsFrom, Alike;
  }

  /** What the variables hold if the slots hold `slots`. */
  function LocalsOf(symbols: map<Ast.Decl, Symbol>, slots: map<nat, i32>): map<nat, i32> {
    map d | d in symbols && d.Variable? && symbols[d].Local? :: d.id := Get(slots, symbols[d].slot)
  }

  /** Slots that hold what the variables hold. */
  function SlotsOf(symbols: map<Ast.Decl, Symbol>, consts: Ast.Consts, locals: map<nat, i32>): map<nat, i32>
    requires Table(symbols, consts)
  {
    map d | d in symbols && d.Variable? && symbols[d].Local? :: symbols[d].slot := Get(locals, d.id)
  }

  lemma AnySlots(symbols: map<Ast.Decl, Symbol>, slots: map<nat, i32>, w: World)
    ensures Alike(symbols, Origin(slots, Ast.State(LocalsOf(symbols, slots), w)))
  {
    var locals := LocalsOf(symbols, slots);
    forall id: nat | Ast.Variable(id) in symbols && symbols[Ast.Variable(id)].Local?
      ensures Get(slots, symbols[Ast.Variable(id)].slot) == Get(locals, id)
    {
      assert Ast.Variable(id).id in locals;
    }
  }

  lemma AnyLocals(symbols: map<Ast.Decl, Symbol>, consts: Ast.Consts, locals: map<nat, i32>, w: World)
    requires Table(symbols, consts)
    ensures Alike(symbols, Origin(SlotsOf(symbols, consts, locals), Ast.State(locals, w)))
  {
    var slots := SlotsOf(symbols, consts, locals);
    forall id: nat | Ast.Variable(id) in symbols && symbols[Ast.Variable(id)].Local?
      ensures Get(slots, symbols[Ast.Variable(id)].slot) == Get(locals, id)
    {
      assert symbols[Ast.Variable(id)].slot in slots;
    }
  }

  lemma NothingAlike(symbols: map<Ast.Decl, Symbol>, w: World)
    ensures Alike(symbols, Origin(map[], Ast.Fresh(w)))
  {
  }

  /** A generated function sees what is in its slots at first exactly if the source function sees what its variables
      hold. */
  lemma BlindIffSourceIs(f: Function, func: Ast.FuncDef, n: nat, consts: Ast.Consts, callees: Callees)
    requires SameFromAll(f, func, consts)
    ensures Blind(f, n, callees) <==> SourceBlind(func, n, consts, callees)
  {
    var symbols: map<Ast.Decl, Symbol> :| Table(symbols, consts) && SameFrom(f, func, symbols, consts);
    hide Table, SameFrom, Returns, CallGives, Alike, SlotsOf, LocalsOf, Ast.Fresh;
    if SourceBlind(func, n, consts, callees) {
      forall xs: seq<i32>, slots: map<nat, i32>, w: World, result: Option<i32>, globals: map<string, i32> | |xs| == n
        ensures Returns(f, xs, callees, slots, w, result, globals)
           <==> Returns(f, xs, callees, map[], w, result, globals)
      {
        AnySlots(symbols, slots, w);
        NothingAlike(symbols, w);
        FreshWorld(w);
        var st := Ast.State(LocalsOf(symbols, slots), w);
        GivesAlike(f, func, symbols, consts, xs, callees, Origin(slots, st), result, globals);
        GivesAlike(f, func, symbols, consts, xs, callees, Origin(map[], Ast.Fresh(w)), result, globals);
        assert CallGives(func, xs, consts, callees, Ast.State(st.locals, w), result, globals)
          <==> CallGives(func, xs, consts, callees, Ast.Fresh(w), result, globals);
      }
    }
    if Blind(f, n, callees) {
      forall args: seq<i32>, locals: map<nat, i32>, w: World, result: Option<i32>, globals: map<string, i32> |
        |args| == n
        ensures CallGives(func, args, consts, callees, Ast.State(locals, w), result, globals)
           <==> CallGives(func, args, consts, callees, Ast.Fresh(w), result, globals)
      {
        AnyLocals(symbols, consts, locals, w);
        NothingAlike(symbols, w);
        FreshWorld(w);
        var slots := SlotsOf(symbols, consts, locals);
        GivesAlike(f, func, symbols, consts, args, callees, Origin(slots, Ast.State(locals, w)), result, globals);
        GivesAlike(f, func, symbols, consts, args, callees, Origin(map[], Ast.Fresh(w)), result, globals);
        assert Returns(f, args, callees, slots, w, result, globals)
          <==> Returns(f, args, callees, map[], w, result, globals);
      }
    }
  }

  lemma FreshWorld(w: World)
    ensures Ast.Fresh(w).world == w
  {
  }

  lemma AssigningFirstIsSourceBlind(func: Ast.FuncDef, n: nat, consts: Ast.Consts, callees: Callees)
    requires A.AssignsFirst(func, consts)
    ensures SourceBlind(func, n, consts, callees)
  {
    hide A.AssignsFirst, Ast.RunCall;
    forall args: seq<i32>, locals: map<nat, i32>, w: World, result: Option<i32>, w': World
      ensures ReturnsFrom(func, args, consts, callees, Ast.State(locals, w), result, w')
         <==> ReturnsFrom(func, args, consts, callees, Ast.Fresh(w), result, w')
    {
      forall fuel: nat
        ensures Ast.RunCall(func, args, fuel, consts, callees, Ast.State(locals, w))
             == Ast.RunCall(func, args, fuel, consts, callees, Ast.Fresh(w))
      {
        A.AssigningFirstIsBlind(func, args, fuel, consts, callees, Ast.State(locals, w), Ast.Fresh(w));
      }
    }
    hide ReturnsFrom;
  }

  // ----- what the pass relies on -----

  lemma OperandsWired(f: Function, params: nat)
    requires FunctionWired(f, params)
    ensures ParamsBelow(f, params) && CanBeCloned(f)
  {
    forall i, j | 0 <= i < |f.blocks| && 0 <= j < |f.blocks[i].insts| ensures ClonedOrDeclared(f.blocks[i].insts[j]) {
      assert InstWired(f.blocks[i].insts[j], params, f.blocks[0].insts);
    }
  }

  lemma SlotsWired(f: Function, params: nat)
    requires FunctionWired(f, params)
    ensures DeclaresItsSlots(f)
  {
    forall i: nat, j: nat, a: nat | i < |f.blocks| && j < |f.blocks[i].insts| && UsesSlot(f.blocks[i].insts[j], a)
      ensures DeclaredIn(f, a)
    {
      assert InstWired(f.blocks[i].insts[j], params, f.blocks[0].insts);
      var k :| 0 <= k < |f.blocks[0].insts| && f.blocks[0].insts[k] == Alloca(a);
      assert Inliner.DeclaresAt(f, 0, k, a);
    }
  }

  lemma OperandsBelow(f: Function, b: nat, k: nat, vs: seq<Operand>, base: nat)
    requires AllDefined(f, b, k, vs) && FreshFrom(f, base)
    ensures forall v :: v in vs ==> L.OperandBelow(v, base)
  {
    hide Cfg, Defines, Graphs.Dominates, Site;
    forall v | v in vs && v.Reg? ensures v.id < base {
      var s := Site(f, v.id);
      assert Defines(f, s.value.0, s.value.1, v.id);
    }
  }

  lemma InstIsBelow(f: Function, params: nat, b: nat, k: nat, base: nat)
    requires hide *; FunctionWired(f, params) && FreshFrom(f, base) && SlotsFreshFrom(f, base)
    requires b < |f.blocks| && k < |f.blocks[b].insts| && AllDefined(f, b, k, Uses(f.blocks[b].insts[k]))
    ensures L.InstBelow(f.blocks[b].insts[k], base)
  {
    var i, entry := f.blocks[b].insts[k], f.blocks[0].insts;
    assert InstWired(i, params, entry);
    OperandsBelow(f, b, k, Uses(i), base);
    hide FunctionWired, AllDefined, AllWired;
    if Dst(i).Some? {
      assert Defines(f, b, k, Dst(i).value);
    }
    if i.Alloca? {
      assert AllocatedAt(f, b, k, i.slot);
    }
    if (i.Load? || i.Store?) && i.ptr.Slot? {
      var n :| 0 <= n < |entry| && entry[n] == Alloca(i.ptr.slot);
      assert AllocatedAt(f, 0, n, i.ptr.slot);
    }
  }

  lemma GeneratedIsBelow(f: Function, params: nat, base: nat)
    requires WellFormed(f) && FunctionWired(f, params) && FreshFrom(f, base) && SlotsFreshFrom(f, base)
    ensures L.Below(f, base)
  {
    hide AllDefined, Defines, Graphs.AllReachable, InstWired, L.InstBelow, SlotsFreshFrom, Uses;
    forall b | 0 <= b < |f.blocks| ensures L.BlockBelow(f.blocks[b], base) {
      var blk := f.blocks[b];
      assert AllDefined(f, b, |blk.insts|, TermUses(blk.term)) && blk.phis == [];
      forall k | 0 <= k < |blk.insts| ensures AllDefined(f, b, k, Uses(blk.insts[k])) {
      }
      hide WellFormed, FunctionWired, AllDefined, L.InstBelow, FreshFrom, SlotsFreshFrom;
      forall k | 0 <= k < |blk.insts| ensures L.InstBelow(blk.insts[k], base) {
        InstIsBelow(f, params, b, k, base);
      }
      OperandsBelow(f, b, |blk.insts|, TermUses(blk.term), base);
    }
  }

  lemma WellFormedParts(f: Function)
    requires WellFormed(f)
    ensures UniqueDefs(f) && NoPhisIn(f) && TargetsWithin(f)
  {
    hide UniqueDefs, AllDefined, Graphs.Reachable;
    forall i: nat, t: nat | i < |f.blocks| && t in Targets(f.blocks[i].term) ensures t < |f.blocks| {
      assert Graphs.Edge(Cfg(f), i, t);
    }
  }

  lemma SetOnceIsCalledOnce(f: Function)
    requires UniqueDefs(f)
    ensures CallsUnique(f)
  {
    hide UniqueDefs, CountAll;
    forall r: nat ensures CountAll(f, |f.blocks|, SetsReg(r)) <= 1 {
      DefinedAtMostOnce(f, |f.blocks|, r);
    }
  }

  /** A generated function has everything that the inliner relies on. */
  lemma GeneratedIsPlain(f: Function, params: nat, base: nat)
    requires WellFormed(f) && FunctionWired(f, params) && FreshFrom(f, base) && SlotsFreshFrom(f, base)
    ensures InlinedForm.Plain(f, params) && Caller(f, base)
  {
    assert 0 < |f.blocks|;
    hide *;
    WellFormedParts(f);
    OperandsWired(f, params);
    SlotsWired(f, params);
    GeneratedIsBelow(f, params, base);
    SetOnceIsCalledOnce(f);
    IsPlain(f, params, base);
  }

  lemma IsPlain(f: Function, params: nat, base: nat)
    requires 0 < |f.blocks| && UniqueDefs(f) && NoPhisIn(f) && TargetsWithin(f) && ParamsBelow(f, params)
    requires CanBeCloned(f) && DeclaresItsSlots(f) && L.Below(f, base) && CallsUnique(f)
    ensures InlinedForm.Plain(f, params) && Caller(f, base)
  {
    hide UniqueDefs, NoPhisIn, TargetsWithin, ParamsBelow, CanBeCloned, DeclaresItsSlots, L.Below, CallsUnique;
  }

  // ----- the functions of a unit -----

  datatype Source = Source(func: Ast.FuncDef, consts: Ast.Consts)

  type Sources = map<string, Source>

  /** The function was generated from the source, with numbers below `base`. */
  ghost predicate Generated(c: M.FunctionInfo, src: Source, base: nat) {
    && WellFormed(c.f) && FunctionWired(c.f, c.params) && FreshFrom(c.f, base) && SlotsFreshFrom(c.f, base)
    && SameFromAll(c.f, src.func, src.consts)
  }

  ghost predicate AllGenerated(m: M.Module, srcs: Sources, base: nat) {
    m.Keys == srcs.Keys && forall c :: c in m ==> Generated(m[c], srcs[c], base)
  }

  /** Calls give what the int functions of the source give. */
  ghost predicate AnswersAsSource(m: M.Module, srcs: Sources, o: Callees)
    requires hide *; m.Keys == srcs.Keys
  {
    L.GlobalsOnly(o)
    && forall c, xs: seq<i32>, w: World, v: i32, globals: map<string, i32> ::
         c in m && m[c].returnsInt && |xs| == m[c].params
         && CallGives(srcs[c].func, xs, srcs[c].consts, o, Ast.Fresh(World(w.globals, [])), Some(v), globals) ==>
           o(c, xs, w) == (v, globals)
  }

  /** No int function of the source sees what its variables hold at first. */
  ghost predicate SourcesBlind(m: M.Module, srcs: Sources, o: Callees)
    requires hide *; m.Keys == srcs.Keys
  {
    forall c :: c in m && m[c].returnsInt ==> SourceBlind(srcs[c].func, m[c].params, srcs[c].consts, o)
  }

  /** What a function of the module returns, the source function gives. */
  ghost predicate OnlySource(m: M.Module, srcs: Sources, o: Callees)
    requires hide *; m.Keys == srcs.Keys
  {
    forall c, xs: seq<i32>, w: World, result: Option<i32>, globals: map<string, i32> ::
      c in m && Returns(m[c].f, xs, o, map[], w, result, globals) ==>
        CallGives(srcs[c].func, xs, srcs[c].consts, o, Ast.Fresh(w), result, globals)
  }

  /** What a source function gives, the function of the module returns. */
  ghost predicate AllOfSource(m: M.Module, srcs: Sources, o: Callees)
    requires hide *; m.Keys == srcs.Keys
  {
    forall c, xs: seq<i32>, w: World, result: Option<i32>, globals: map<string, i32> ::
      c in m && CallGives(srcs[c].func, xs, srcs[c].consts, o, Ast.Fresh(w), result, globals) ==>
        Returns(m[c].f, xs, o, map[], w, result, globals)
  }

  lemma StartsAlike(f: Function, src: Source, xs: seq<i32>, o: Callees, w: World, result: Option<i32>,
                    globals: map<string, i32>)
    requires SameFromAll(f, src.func, src.consts)
    ensures CallGives(src.func, xs, src.consts, o, Ast.Fresh(w), result, globals)
       <==> Returns(f, xs, o, map[], w, result, globals)
  {
    var symbols: map<Ast.Decl, Symbol> :| Table(symbols, src.consts) && SameFrom(f, src.func, symbols, src.consts);
    hide Table, SameFrom, Returns, CallGives, Alike, Ast.Fresh;
    NothingAlike(symbols, w);
    FreshWorld(w);
    GivesAlike(f, src.func, symbols, src.consts, xs, o, Origin(map[], Ast.Fresh(w)), result, globals);
  }

  lemma GeneratedMeans(m: M.Module, srcs: Sources, base: nat, o: Callees)
    requires hide FreshFrom, FunctionWired, Returns, SameFromAll, WellFormed; AllGenerated(m, srcs, base)
    ensures OnlySource(m, srcs, o) && AllOfSource(m, srcs, o)
  {
    hide WellFormed, FunctionWired, FreshFrom, SlotsFreshFrom, SameFromAll, CallGives, Returns;
    forall c, xs: seq<i32>, w: World, result: Option<i32>, globals: map<string, i32> | c in m
      ensures CallGives(srcs[c].func, xs, srcs[c].consts, o, Ast.Fresh(w), result, globals)
         <==> Returns(m[c].f, xs, o, map[], w, result, globals)
    {
      assert Generated(m[c], srcs[c], base);
      StartsAlike(m[c].f, srcs[c], xs, o, w, result, globals);
    }
  }

  /** Callees that answer as the source does answer as the generated functions do, whatever is in their slots. */
  lemma SourceIsFaithful(m: M.Module, srcs: Sources, base: nat, o: Callees)
    requires hide FunctionWired, M.FaithfulTo, SameFromAll, SourcesBlind, WellFormed;
             AllGenerated(m, srcs, base) && AnswersAsSource(m, srcs, o) && SourcesBlind(m, srcs, o)
    ensures M.FaithfulTo(m, o)
  {
    hide FunctionWired, Run, SameFromAll, WellFormed;
    GeneratedMeans(m, srcs, base, o);
    hide Run, CallGives, SourceBlind, Blind, L.GlobalsOnly, WellFormed, FunctionWired, FreshFrom, SlotsFreshFrom,
         SameFromAll;
    forall c | c in m && m[c].returnsInt ensures Blind(m[c].f, m[c].params, o) {
      assert Generated(m[c], srcs[c], base);
      BlindIffSourceIs(m[c].f, srcs[c].func, m[c].params, srcs[c].consts, o);
    }
    forall c, xs: seq<i32>, w: World, n: nat | c in m && m[c].returnsInt && |xs| == m[c].params
      ensures AnswersAs(o, c, xs, w, Run(m[c].f, xs, o, Start(World(w.globals, [])), n))
    {
      var w0 := World(w.globals, []);
      var d := Run(m[c].f, xs, o, Start(w0), n);
      if d.Done? && d.result.Some? {
        assert ReturnsWith(m[c].f, xs, o, map[], w0, n, d.result, d.world.globals);
        assert Returns(m[c].f, xs, o, map[], w0, d.result, d.world.globals);
      }
    }
    M.BlindAreFaithful(m, o);
  }

  lemma AllArePlain(m: M.Module, srcs: Sources, base: nat)
    requires AllGenerated(m, srcs, base)
    ensures M.AllPlain(m) && M.AllCallers(m, base)
  {
    hide WellFormed, FunctionWired, FreshFrom, SlotsFreshFrom, SameFromAll, InlinedForm.Plain, Caller;
    forall c | c in m ensures InlinedForm.Plain(m[c].f, m[c].params) && Caller(m[c].f, base) {
      assert Generated(m[c], srcs[c], base);
      GeneratedIsPlain(m[c].f, m[c].params, base);
    }
  }

  lemma InlinedMeans(m0: M.Module, m: M.Module, srcs: Sources, base: nat, o: Callees)
    requires hide FunctionWired, M.InlinedReturn, Run, SameFromAll, WellFormed;
             AllGenerated(m0, srcs, base) && AnswersAsSource(m0, srcs, o) && SourcesBlind(m0, srcs, o)
    requires m.Keys == m0.Keys && M.ModuleSafe(m0, m) && M.ModuleComplete(m0, m)
    ensures OnlySource(m, srcs, o) && (M.InlinedReturn(m0, m, o) ==> AllOfSource(m, srcs, o))
  {
    hide AllGenerated, M.InlinedReturn, Run;
    SourceIsFaithful(m0, srcs, base, o);
    GeneratedMeans(m0, srcs, base, o);
    assert M.NothingNew(m0, m, o) by { hide M.FaithfulTo, M.NothingNew; }
    assert M.InlinedReturn(m0, m, o) ==> M.NothingNew(m, m0, o) by { hide M.FaithfulTo, M.NothingNew, M.InlinedReturn; }
    hide M.FaithfulTo, M.InlinedReturn, CallGives, Returns, AllGenerated;
  }

  /** The functions of a source unit, generated and inlined into one another. Among callees that answer as the source
      does, and if no int function of the source sees what its variables hold at first, every function returns only
      what its source gives, and all of it if the inlined functions return. */
  method InlineGenerated(m0: M.Module, ghost srcs: Sources, names: seq<string>, base: nat)
    returns (m: M.Module, more: nat)
    requires hide M.AllCallers, M.AllInlined, M.AllPlain, Run, WellFormed;
             AllGenerated(m0, srcs, base) && forall c :: c in names ==> c in m0
    ensures M.AllPlain(m) && M.AllCallers(m, more) && M.SameHeaders(m0, m) && m.Keys == srcs.Keys
    ensures M.AllInlined(m0, names, m)
    ensures forall o: Callees :: AnswersAsSource(m0, srcs, o) && SourcesBlind(m0, srcs, o) ==>
              OnlySource(m, srcs, o) && (M.InlinedReturn(m0, m, o) ==> AllOfSource(m, srcs, o))
  {
    hide M.AllPlain, M.AllCallers, M.ModuleSafe, M.ModuleComplete, Generated, AnswersAsSource, SourcesBlind,
         OnlySource, AllOfSource, M.InlinedReturn, M.AllInlined;
    AllArePlain(m0, srcs, base);
    m, more := M.InlineFunctions(m0, names, base);
    forall o: Callees | AnswersAsSource(m0, srcs, o) && SourcesBlind(m0, srcs, o)
      ensures OnlySource(m, srcs, o) && (M.InlinedReturn(m0, m, o) ==> AllOfSource(m, srcs, o))
    {
      InlinedMeans(m0, m, srcs, base, o);
    }
  }

  /** In a unit in which every use of a variable lies behind an assignment, that is so among all callees. */
  lemma AssigningFirstIsEnough(m: M.Module, srcs: Sources, o: Callees)
    requires hide *; m.Keys == srcs.Keys
    requires forall c :: c in m && m[c].returnsInt ==> A.AssignsFirst(srcs[c].func, srcs[c].consts)
    ensures SourcesBlind(m, srcs, o)
  {
    hide A.AssignsFirst, SourceBlind;
    forall c | c in m && m[c].returnsInt
      ensures SourceBlind(srcs[c].func, m[c].params, srcs[c].consts, o)
    {
      AssigningFirstIsSourceBlind(srcs[c].func, m[c].params, srcs[c].consts, o);
    }
  }

  // ----- a function that the inliner must not be used on -----

  /** What is generated for `int f(int a) { if (a) int x = 1; return x; }` sees what is in its slots. */
  lemma PeekingIsNotBlind(f: Function, callees: Callees)
    requires hide *; SameFromAll(f, A.Peeking(), map[])
    ensures !Blind(f, 1, callees)
  {
    hide A.AssignsFirst, Ast.ExecAll, Blind, SameFromAll;
    var func, w := A.Peeking(), World(map[], []);
    A.PeekingIsNotBlind(callees, w);
    BlindIffSourceIs(f, func, 1, map[], callees);
    assert [0] == [0 as i32];
    hide Blind, Ast.RunCall, A.Peeking;
    assert ReturnsFrom(func, [0], map[], callees, Ast.State(map[1 := 1], w), Some(1), w);
    assert CallGives(func, [0], map[], callees, Ast.State(map[1 := 1], w), Some(1), map[]);
    if SourceBlind(func, 1, map[], callees) {
      assert CallGives(func, [0], map[], callees, Ast.Fresh(w), Some(1), map[]);
      var w': World :| ReturnsFrom(func, [0], map[], callees, Ast.Fresh(w), Some(1), w');
      var fuel: nat :| Ast.RunCall(func, [0], fuel, map[], callees, Ast.Fresh(w)) == Some((Some(1), w'));
      A.PeekingRuns(fuel, map[], callees, Ast.Fresh(w));
      assert false;
    }
  }
}
