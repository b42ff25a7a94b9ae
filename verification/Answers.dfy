/** A whole unit: what its functions answer when they call one another, in the source and compiled. */
module Answers {
  import opened Int32
  import opened Ir
  import opened Runs
  import opened Driver
  import IrGen
  import Pipeline
  import Resolution
  import SsaForm
  import Frontend
  import Sema

  type Functions = map<string, Made>

  // ----- answers by depth of calls -----

  /** What the source of a unit answers to a call, with at most `depth` calls of its functions inside one another.
      A call that needs more, or never returns, is answered with 0 and leaves the globals alone. */
  ghost function SourceAnswer(fns: Functions, others: Callees, depth: nat, c: string, xs: seq<i32>, w: World):
    (i32, map<string, i32>)
    decreases depth, 0
  {
    if c !in fns then others(c, xs, w)
    else if depth == 0 then (0, w.globals)
    else
      var o := SourceCallees(fns, others, depth - 1);
      var w0 := World(w.globals, []);
      if exists result: Option<i32>, last: World ::
           IrGen.CallReturns(fns[c].source, xs, fns[c].consts, o, w0, result, last)
      then
        var result: Option<i32>, last: World :|
          IrGen.CallReturns(fns[c].source, xs, fns[c].consts, o, w0, result, last);
        (if result.Some? then result.value else 0, last.globals)
      else (0, w.globals)
  }

  ghost function SourceCallees(fns: Functions, others: Callees, depth: nat): Callees
    decreases depth, 1
  {
    (c, xs, w) => SourceAnswer(fns, others, depth, c, xs, w)
  }

  /** The same of the code. */
  ghost function CodeAnswer(fns: Functions, others: Callees, depth: nat, c: string, xs: seq<i32>, w: World):
    (i32, map<string, i32>)
    decreases depth, 0
  {
    if c !in fns then others(c, xs, w)
    else if depth == 0 then (0, w.globals)
    else
      var o := CodeCallees(fns, others, depth - 1);
      var w0 := World(w.globals, []);
      if exists result: Option<i32>, last: World :: IrGen.RunReturns(fns[c].code, xs, o, w0, result, last)
      then
        var result: Option<i32>, last: World :| IrGen.RunReturns(fns[c].code, xs, o, w0, result, last);
        (if result.Some? then result.value else 0, last.globals)
      else (0, w.globals)
  }

  ghost function CodeCallees(fns: Functions, others: Callees, depth: nat): Callees
    decreases depth, 1
  {
    (c, xs, w) => CodeAnswer(fns, others, depth, c, xs, w)
  }

  // ----- runs among callees that answer alike -----

  ghost predicate SameAnswers(o: Callees, o': Callees) {
    forall c: string, xs: seq<i32>, w: World :: o(c, xs, w) == o'(c, xs, w)
  }

  lemma {:induction false} StepsAmong(insts: seq<Inst>, params: seq<i32>, o: Callees, o': Callees, s: Frame)
    requires SameAnswers(o, o')
    ensures Steps(insts, params, o, s) == Steps(insts, params, o', s)
  {
    hide Binop, Eval, EvalAll, Unop;
    if insts != [] {
      StepsAmong(insts[..|insts| - 1], params, o, o', s);
    }
  }

  lemma {:induction false} RunAmong(f: Function, params: seq<i32>, o: Callees, o': Callees, c: Config, n: nat)
    requires SameAnswers(o, o')
    ensures Run(f, params, o, c, n) == Run(f, params, o', c, n)
  {
    hide Enter, Leave, Steps, SameAnswers;
    if n > 0 {
      RunAmong(f, params, o, o', c, n - 1);
      var d := Run(f, params, o, c, n - 1);
      if d.At? && d.block < |f.blocks| {
        StepsAmong(f.blocks[d.block].insts, params, o, o', Enter(f.blocks[d.block], d.prev, params, d.frame));
      }
    }
  }

  lemma ReturnsAmong(f: Function, params: seq<i32>, o: Callees, o': Callees, w: World, result: Option<i32>, last: World)
    requires SameAnswers(o, o')
    ensures IrGen.RunReturns(f, params, o, w, result, last) <==> IrGen.RunReturns(f, params, o', w, result, last)
  {
    hide Run, SameAnswers;
    forall n: nat ensures Run(f, params, o, From(map[], w), n) == Run(f, params, o', From(map[], w), n) {
      RunAmong(f, params, o, o', From(map[], w), n);
    }
  }

  lemma ReturnsOnce(f: Function, params: seq<i32>, o: Callees, w: World, result: Option<i32>, last: World,
                    result': Option<i32>, last': World)
    requires IrGen.RunReturns(f, params, o, w, result, last) && IrGen.RunReturns(f, params, o, w, result', last')
    ensures result == result' && last == last'
  {
    hide Run;
    var n: nat :| Run(f, params, o, From(map[], w), n) == Done(result, last);
    var m: nat :| Run(f, params, o, From(map[], w), m) == Done(result', last');
    OneEnd(f, params, o, From(map[], w), n, m);
  }

  // ----- the source and the code -----

  /** The code of every function has the meaning of its source. */
  ghost predicate AllCompiled(fns: Functions) {
    forall c :: c in fns ==> IrGen.SameCalls(fns[c].code, fns[c].source, fns[c].consts)
  }

  /** To any depth of calls, a call of a function of the source returns exactly if its code does, with the same result
      and the same effects. */
  lemma {:induction false} CallsAlike(fns: Functions, others: Callees, depth: nat, c: string, xs: seq<i32>, w: World,
                                      result: Option<i32>, last: World)
    requires hide *; AllCompiled(fns) && c in fns
    ensures IrGen.CallReturns(fns[c].source, xs, fns[c].consts, SourceCallees(fns, others, depth), w, result, last)
       <==> IrGen.RunReturns(fns[c].code, xs, CodeCallees(fns, others, depth), w, result, last)
    decreases depth, 1
  {
    hide CodeAnswer, IrGen.CallReturns, IrGen.RunReturns, SourceAnswer;
    var o, o' := SourceCallees(fns, others, depth), CodeCallees(fns, others, depth);
    forall c': string, xs': seq<i32>, w': World ensures o(c', xs', w') == o'(c', xs', w') {
      AnswersAlike(fns, others, depth, c', xs', w');
    }
    assert SameAnswers(o, o');
    hide IrGen.CallReturns, IrGen.RunReturns, SameAnswers;
    assert IrGen.SameCalls(fns[c].code, fns[c].source, fns[c].consts);
    ReturnsAmong(fns[c].code, xs, o, o', w, result, last);
  }

  /** So the answers are the same. */
  lemma {:induction false} AnswersAlike(fns: Functions, others: Callees, depth: nat, c: string, xs: seq<i32>, w: World)
    requires AllCompiled(fns)
    ensures SourceAnswer(fns, others, depth, c, xs, w) == CodeAnswer(fns, others, depth, c, xs, w)
    decreases depth, 0
  {
    hide IrGen.CallReturns, IrGen.RunReturns, IrGen.SameCalls;
    if c in fns && depth > 0 {
      var o, o' := SourceCallees(fns, others, depth - 1), CodeCallees(fns, others, depth - 1);
      var w0 := World(w.globals, []);
      forall result: Option<i32>, last: World
        ensures IrGen.CallReturns(fns[c].source, xs, fns[c].consts, o, w0, result, last)
           <==> IrGen.RunReturns(fns[c].code, xs, o', w0, result, last)
      {
        CallsAlike(fns, others, depth - 1, c, xs, w0, result, last);
      }
      forall result: Option<i32>, last: World, result': Option<i32>, last': World |
        IrGen.RunReturns(fns[c].code, xs, o', w0, result, last)
        && IrGen.RunReturns(fns[c].code, xs, o', w0, result', last')
        ensures result == result' && last == last'
      {
        ReturnsOnce(fns[c].code, xs, o', w0, result, last, result', last');
      }
    }
  }

  // ----- the units that the driver builds -----

  lemma NextIsCompiled(item: Source, scope: Resolution.Scope, next: nat, u: Unit, u': Unit,
                       rounds: seq<Pipeline.Round>)
    requires AllCompiled(u.functions) && Grows(item, scope, next, u, u', rounds)
    ensures AllCompiled(u'.functions)
  {
    hide GlobalFits, Pipeline.Optimized, Resolution.ResolveExpr, Resolution.ResolveFunction, Sema.CleanFunction,
         Sema.ConstOf, SsaForm.Strict, IrGen.SameCalls, Frontend.StaysInside, Frontend.SkippedIsSilent;
  }

  lemma {:induction false} UnitIsCompiled(items: seq<Source>, u: Unit, rounds: seq<Pipeline.Round>)
    requires Makes(items, u, rounds)
    ensures AllCompiled(u.functions)
    decreases |items|
  {
    hide BehindAll, Grows, AllCompiled;
    if items == [] {
      NothingIsCompiled();
    } else {
      var n := |items| - 1;
      var front := items[..n];
      var (scope, next) := BehindAll(front);
      var before: Unit :| Makes(front, before, rounds) && Grows(items[n], scope, next, before, u, rounds);
      UnitIsCompiled(front, before, rounds);
      NextIsCompiled(items[n], scope, next, before, u, rounds);
    }
  }

  lemma NothingIsCompiled()
    ensures AllCompiled(Nothing.functions)
  {
    hide IrGen.SameCalls;
  }

  lemma {:induction false} FunctionsAreThere(items: seq<Source>, u: Unit, name: string,
                    rounds: seq<Pipeline.Round>)
    requires hide *; Makes(items, u, rounds) && name in BehindAll(items).0 && BehindAll(items).0[name].Function?
    ensures name in u.functions
    decreases |items|
  {
    hide Grows, Behind;
    var n := |items| - 1;
    var front := items[..n];
    var (scope, next) := BehindAll(front);
    var before: Unit :| Makes(front, before, rounds) && Grows(items[n], scope, next, before, u, rounds);
    NextIsThere(items[n], scope, next, before, u, name, rounds);
    if name !in u.functions {
      FunctionsAreThere(front, before, name, rounds);
    }
  }

  /** An item adds its function, and nothing that is not there. */
  lemma NextIsThere(item: Source, scope: Resolution.Scope, next: nat, u: Unit, u': Unit, name: string,
                    rounds: seq<Pipeline.Round>)
    requires hide *; Grows(item, scope, next, u, u', rounds)
    requires name in Behind(item, scope, next).0 && Behind(item, scope, next).0[name].Function?
    ensures u.functions.Keys <= u'.functions.Keys
    ensures name in u'.functions || (name in scope && scope[name].Function?)
  {
    hide GlobalFits, GlobalValue, Pipeline.Compiled, Pipeline.Optimized, Resolution.ResolveExpr,
         Resolution.ResolveFunction;
  }

  /** The function that the program starts with. */
  lemma MainAnswersAlike(items: seq<Source>, u: Unit, others: Callees, depth: nat, result: Option<i32>, last: World,
                         rounds: seq<Pipeline.Round>)
    requires hide *; Makes(items, u, rounds) && HasMain(BehindAll(items).0)
    ensures "main" in u.functions
    ensures var main := u.functions["main"]; var first := World(u.globals, []);
      IrGen.CallReturns(main.source, [], main.consts, SourceCallees(u.functions, others, depth), first, result, last)
      <==> IrGen.RunReturns(main.code, [], CodeCallees(u.functions, others, depth), first, result, last)
  {
    hide Behind, Grows;
    UnitIsCompiled(items, u, rounds);
    FunctionsAreThere(items, u, "main", rounds);
    CallsAlike(u.functions, others, depth, "main", [], World(u.globals, []), result, last);
  }
}
