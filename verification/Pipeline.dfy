/** The passes one after another: each leaves what the next one asks for, and the composition keeps the meaning of
    the source function. */
module Pipeline {
  import opened Int32
  import opened Ast
  import opened Lookups
  import opened Sema
  import opened Frontend
  import Counters
  import Gvn
  import IrGen
  import Ir
  import Licm
  import Loops
  import Mem2Reg
  import Movable
  import Rewriting
  import Ssa
  import SsaForm

  /** Two functions that run alike return alike. */
  lemma ReturnsAlike(f: Ir.Function, g: Ir.Function, args: seq<i32>, callees: Ir.Callees, w: Ir.World,
                     result: Ir.Option<i32>, w': Ir.World)
    requires Ir.SameRuns(f, g)
    ensures IrGen.RunReturns(f, args, callees, w, result, w') <==> IrGen.RunReturns(g, args, callees, w, result, w')
  {
    hide Ir.Run;
    if IrGen.RunReturns(f, args, callees, w, result, w') {
      var n: nat :| Ir.Run(f, args, callees, Ir.Start(w), n) == Ir.Done(result, w');
      assert Ir.SameSoFar(Ir.Run(f, args, callees, Ir.Start(w), n), Ir.Run(g, args, callees, Ir.Start(w), n));
    }
    if IrGen.RunReturns(g, args, callees, w, result, w') {
      var n: nat :| Ir.Run(g, args, callees, Ir.Start(w), n) == Ir.Done(result, w');
      assert Ir.SameSoFar(Ir.Run(f, args, callees, Ir.Start(w), n), Ir.Run(g, args, callees, Ir.Start(w), n));
    }
  }

  /** What runs like a compiled function is one. */
  lemma CallsKept(func: FuncDef, consts: Consts, f: Ir.Function, g: Ir.Function)
    requires IrGen.SameCalls(f, func, consts) && Ir.SameRuns(f, g)
    ensures IrGen.SameCalls(g, func, consts)
  {
    hide Ir.SameRuns, IrGen.RunReturns;
    forall args: seq<i32>, callees: Ir.Callees, w: Ir.World, result: Ir.Option<i32>, w': Ir.World
      ensures IrGen.CallReturns(func, args, consts, callees, w, result, w')
              <==> IrGen.RunReturns(g, args, callees, w, result, w')
    {
      hide Ir.SameRuns, IrGen.CallReturns, IrGen.RunReturns;
      ReturnsAlike(f, g, args, callees, w, result, w');
    }
  }

  lemma AlikeRuns(f: Ir.Function, g: Ir.Function)
    requires Rewriting.Alike(f, g)
    ensures Ir.SameRuns(f, g)
  {
    hide Ir.Run;
  }

  /** What has become of a function, and what it means if it was generated: it is in strict SSA form, and returns
      exactly when the source does, with the same result and the same effects. */
  ghost predicate Compiled(func: FuncDef, returnsInt: bool, scope: set<Decl>, values: Consts, o: Fate,
                           consts: Consts)
  {
    && (!o.Rejected? ==> Includes(consts, values) && CleanFunction(func, returnsInt, scope, consts))
    && (o.Rejected? ==> forall final :: Includes(final, values) ==> !CleanFunction(func, returnsInt, scope, final))
    && (o.Undefined? <==> !o.Rejected? && !StaysInside(func, consts))
    && (o.Generated? <==> !o.Rejected? && !o.Undefined? && SkippedIsSilent(Block(func.body), consts))
    && (o.Generated? ==> SsaForm.Strict(o.f) && IrGen.SameCalls(o.f, func, consts))
  }

  /** A function analysed, generated and brought into SSA form. */
  method Compile(func: FuncDef, returnsInt: bool, globals: set<string>, values: Consts, firstId: nat)
    returns (o: Fate, consts: Consts)
    requires Tree(func, values)
    ensures Compiled(func, returnsInt, GlobalNames(globals, values.Keys), values, o, consts)
  {
    hide Ir.Run, Returns, Tidy, Tree, CleanFunction, StaysInside, SkippedIsSilent, SsaForm.Strict, IrGen.SameCalls,
         Ir.SameRuns, Ssa.WellFormed, Ssa.UniqueAllocas, Ssa.FreshFrom;
    var next;
    o, consts, next := Generate(func, returnsInt, globals, values, firstId);
    if o.Generated? {
      var g, s := Mem2Reg.PromoteSlots(o.f, next);
      CallsKept(func, consts, o.f, g);
      o := Generated(g);
    }
  }

  /** What a round needs to be told: an order of the loop headers, and where values lie in memory. */
  datatype Round = Round(headers: seq<nat>, address: Gvn.Address)

  /** No loop with a preheader has an operation on values from outside the loop. */
  ghost predicate LoopsAreDone(g: Ir.Function, headers: seq<nat>) {
    forall l :: Loops.IsLoopOf(g, l) && l.preheader.Some? && l.header in headers ==> Movable.NothingToMove(g, l.blocks)
  }

  /** What one round makes of `f`: its runs are kept; what is left comes from the instructions of `f` with every
      reducible division reduced; the loops are done; and no operation repeats an earlier one. */
  ghost predicate RoundDone(f: Ir.Function, round: Round, g: Ir.Function) {
    && SsaForm.Strict(g) && Ir.SameRuns(f, g)
    && (exists reduced :: Counters.DivisionsReduced(f, reduced) && Movable.AddsNothing(reduced, g))
    && LoopsAreDone(g, round.headers) && Gvn.NoRepeats(g)
  }

  /** One round after another. */
  ghost predicate RoundsDone(f: Ir.Function, rounds: seq<Round>, g: Ir.Function) {
    if rounds == [] then g == f
    else
      var n := |rounds| - 1;
      exists h :: RoundsDone(f, rounds[..n], h) && RoundDone(h, rounds[n], g)
  }

  /** A function with the same graph has the same loops. */
  lemma SameLoops(f: Ir.Function, g: Ir.Function, l: Loops.NaturalLoop)
    requires Ir.Cfg(g) == Ir.Cfg(f) && Loops.IsLoopOf(g, l)
    ensures Loops.IsLoopOf(f, l)
  {
    hide Loops.Describes;
    if l.preheader.Some? {
      var p := l.preheader.value;
      assert Loops.IsPreheader(g, l.header, l.blocks, p);
      assert Ir.Cfg(g)[p] == Ir.Targets(f.blocks[p].term);
    }
  }

  lemma StillNothing(f: Ir.Function, g: Ir.Function, loop: set<nat>)
    requires Movable.FreesNothing(f, g) && Movable.Sealed(Ir.Cfg(f), loop) && Movable.NothingToMove(f, loop)
    ensures Movable.NothingToMove(g, loop)
  {
    hide Movable.NothingToMove, Movable.Sealed;
  }

  /** Value numbering frees nothing that hoisting has left. */
  lemma StillDone(f: Ir.Function, g: Ir.Function, headers: seq<nat>)
    requires SsaForm.Strict(f) && Ir.Cfg(g) == Ir.Cfg(f) && Movable.FreesNothing(f, g) && LoopsAreDone(f, headers)
    ensures LoopsAreDone(g, headers)
  {
    hide Movable.NothingToMove, Movable.Sealed, Movable.FreesNothing, Loops.IsLoopOf, SsaForm.Strict, Ir.Cfg;
    forall l | Loops.IsLoopOf(g, l) && l.preheader.Some? && l.header in headers
      ensures Movable.NothingToMove(g, l.blocks)
    {
      SameLoops(f, g, l);
      Licm.LoopIsSealed(f, l);
      StillNothing(f, g, l.blocks);
    }
  }

  /** One round of the optimizer over a function in SSA form. */
  method OptimizeOnce(f: Ir.Function, round: Round) returns (g: Ir.Function)
    requires SsaForm.Strict(f)
    ensures RoundDone(f, round, g)
  {
    hide *;
    var reduced := Counters.StrengthReduceDivRem(f);
    AlikeRuns(f, reduced);
    var hoisted := Licm.HoistInvariants(reduced, round.headers);
    Licm.RunsTrans(f, reduced, hoisted);
    g := Gvn.Number(hoisted, round.address);
    Licm.RunsTrans(f, hoisted, g);
    Movable.AddsNothingOn(reduced, hoisted, g);
    LoopsAreDoneIntro(hoisted, round.headers);
    StillDone(hoisted, g, round.headers);
    RoundDoneIntro(f, round, reduced, g);
  }

  lemma LoopsAreDoneIntro(g: Ir.Function, headers: seq<nat>)
    requires forall l :: Loops.IsLoopOf(g, l) && l.preheader.Some? && l.header in headers ==>
               Movable.NothingToMove(g, l.blocks)
    ensures LoopsAreDone(g, headers)
  {
    hide Loops.IsLoopOf, Movable.NothingToMove;
  }

  lemma RoundDoneIntro(f: Ir.Function, round: Round, reduced: Ir.Function, g: Ir.Function)
    requires SsaForm.Strict(g) && Ir.SameRuns(f, g)
    requires Counters.DivisionsReduced(f, reduced) && Movable.AddsNothing(reduced, g)
    requires LoopsAreDone(g, round.headers) && Gvn.NoRepeats(g)
    ensures RoundDone(f, round, g)
  {
    hide SsaForm.Strict, Ir.SameRuns, Counters.DivisionsReduced, Movable.AddsNothing, LoopsAreDone, Gvn.NoRepeats;
  }

  lemma RoundKeepsRuns(f: Ir.Function, round: Round, g: Ir.Function)
    requires RoundDone(f, round, g)
    ensures SsaForm.Strict(g) && Ir.SameRuns(f, g)
  {
    hide SsaForm.Strict, Ir.SameRuns, Counters.DivisionsReduced, Movable.AddsNothing, LoopsAreDone, Gvn.NoRepeats;
  }

  lemma OneMoreRound(f: Ir.Function, rounds: seq<Round>, n: nat, h: Ir.Function, g: Ir.Function)
    requires hide *; n < |rounds| && RoundsDone(f, rounds[..n], h) && RoundDone(h, rounds[n], g)
    ensures RoundsDone(f, rounds[..n + 1], g)
  {
    hide RoundDone;
    assert rounds[..n + 1][..n] == rounds[..n];
  }

  /** Any number of rounds. */
  method Optimize(f: Ir.Function, rounds: seq<Round>) returns (g: Ir.Function)
    requires SsaForm.Strict(f)
    ensures SsaForm.Strict(g) && Ir.SameRuns(f, g) && RoundsDone(f, rounds, g)
  {
    hide *;
    g := f;
    Licm.RunsLikeItself(f);
    NoRounds(f, rounds);
    var n := 0;
    while n < |rounds|
      invariant 0 <= n <= |rounds| && SsaForm.Strict(g) && Ir.SameRuns(f, g) && RoundsDone(f, rounds[..n], g)
    {
      var h := OptimizeOnce(g, rounds[n]);
      RoundKeepsRuns(g, rounds[n], h);
      Licm.RunsTrans(f, g, h);
      OneMoreRound(f, rounds, n, g, h);
      g := h;
      n := n + 1;
    }
    assert rounds[..n] == rounds;
  }

  lemma NoRounds(f: Ir.Function, rounds: seq<Round>)
    ensures hide *; RoundsDone(f, rounds[..0], f)
  {
    hide RoundDone;
  }

  /** The code of a function, if there is one, has gone through all rounds. */
  ghost predicate Optimized(compiled: Fate, rounds: seq<Round>, o: Fate) {
    if compiled.Generated? then o.Generated? && RoundsDone(compiled.f, rounds, o.f) else o == compiled
  }

  /** A source function compiled and optimized. */
  method CompileOptimized(func: FuncDef, returnsInt: bool, globals: set<string>, values: Consts, firstId: nat,
                          rounds: seq<Round>)
    returns (o: Fate, consts: Consts, ghost compiled: Fate)
    requires Tree(func, values)
    ensures Compiled(func, returnsInt, GlobalNames(globals, values.Keys), values, compiled, consts)
    ensures Compiled(func, returnsInt, GlobalNames(globals, values.Keys), values, o, consts)
    ensures Optimized(compiled, rounds, o)
  {
    hide Tree, CleanFunction, StaysInside, SkippedIsSilent, SsaForm.Strict, IrGen.SameCalls, Ir.SameRuns, RoundsDone;
    o, consts := Compile(func, returnsInt, globals, values, firstId);
    compiled := o;
    if o.Generated? {
      var g := Optimize(o.f, rounds);
      CallsKept(func, consts, o.f, g);
      o := Generated(g);
    }
  }
}
