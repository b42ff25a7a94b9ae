/** From the text of a file to its functions in SSA form. */
module Driver {
  import opened Int32
  import opened Ast
  import opened Lookups
  import opened Sema
  import opened Frontend
  import opened Pipeline
  import opened Resolution
  import opened Standing
  import IrGen
  import Ir
  import Lexing
  import LexerClass
  import ParserClass
  import Parsing
  import Syntax
  import SsaForm

  type Source = Syntax.Item<Syntax.Expr>

  // ----- what the names outside every function stand for -----

  /** The global scope behind an item, and the next free number. */
  function Behind(item: Source, scope: Scope, next: nat): (Scope, nat) {
    match item
    case GlobalConst(name, init) =>
      var n := ResolveExpr(init, [scope], next, true).1;
      (scope[name := Object(Constant(n))], n + 1)
    case GlobalVar(name, init) =>
      (scope[name := Object(GlobalVariable(name))], ResolveExpr(init, [scope], next, true).1)
    case Function(_, name, _, _) => (scope[name := HeaderOf(item)], ResolveFunction(item, scope, next).1)
    case NoItem => (scope, next)
  }

  function BehindAll(items: seq<Source>): (Scope, nat) {
    if items == [] then (map[], 0)
    else
      var (scope, next) := BehindAll(items[..|items| - 1]);
      Behind(items[|items| - 1], scope, next)
  }

  // ----- a compilation unit -----

  /** A function: its source with all names resolved, the constants of its analysis, and its code. */
  datatype Made = Made(source: FuncDef, consts: Consts, code: Ir.Function)

  /** The global variables with their first values, the values of the global constants, and the functions. */
  datatype Unit = Unit(globals: map<string, i32>, values: Consts, functions: map<string, Made>)

  const Nothing := Unit(map[], map[], map[])

  function GlobalsOf(u: Unit): set<Decl> {
    GlobalNames(u.globals.Keys, u.values.Keys)
  }

  /** The initialiser of a global is constant, and its name is new. */
  predicate GlobalFits(name: string, init: Syntax.Expr, scope: Scope, next: nat, u: Unit) {
    var x := ResolveExpr(init, [scope], next, true).0;
    name !in scope && Proper(x, GlobalsOf(u), u.values) && ConstOf(x, u.values).Some?
  }

  function GlobalValue(init: Syntax.Expr, scope: Scope, next: nat, u: Unit): i32
    requires ConstOf(ResolveExpr(init, [scope], next, true).0, u.values).Some?
  {
    ConstOf(ResolveExpr(init, [scope], next, true).0, u.values).value
  }

  /** The unit grows by an item that is as it should be. */
  ghost predicate Grows(item: Source, scope: Scope, next: nat, u: Unit, u': Unit, rounds: seq<Round>) {
    match item
    case GlobalConst(name, init) =>
      && GlobalFits(name, init, scope, next, u)
      && u' == u.(values := u.values[ResolveExpr(init, [scope], next, true).1 := GlobalValue(init, scope, next, u)])
    case GlobalVar(name, init) =>
      && GlobalFits(name, init, scope, next, u)
      && u' == u.(globals := u.globals[name := GlobalValue(init, scope, next, u)])
    case Function(isInt, name, _, _) =>
      exists made: Made, compiled: Fate ::
        && made.source == ResolveFunction(item, scope, next).0
        && Compiled(made.source, isInt, GlobalsOf(u), u.values, compiled, made.consts)
        && Optimized(compiled, rounds, Generated(made.code))
        && Compiled(made.source, isInt, GlobalsOf(u), u.values, Generated(made.code), made.consts)
        && u' == u.(functions := u.functions[name := made])
    case NoItem => false
  }

  /** Something is wrong with the item, after the unit `u`. */
  ghost predicate Wrong(item: Source, scope: Scope, next: nat, u: Unit, fate: Fate, consts: Consts) {
    match item
    case GlobalConst(name, init) => !GlobalFits(name, init, scope, next, u)
    case GlobalVar(name, init) => !GlobalFits(name, init, scope, next, u)
    case Function(isInt, _, _, _) =>
      !fate.Generated?
      && Compiled(ResolveFunction(item, scope, next).0, isInt, GlobalsOf(u), u.values, fate, consts)
    case NoItem => true
  }

  /** The unit that the items make. */
  ghost predicate Makes(items: seq<Source>, u: Unit, rounds: seq<Round>) {
    if items == [] then u == Nothing
    else
      var front := items[..|items| - 1];
      exists before: Unit ::
        Makes(front, before, rounds) && Grows(items[|items| - 1], BehindAll(front).0, BehindAll(front).1, before, u,
                                          rounds)
  }

  // ----- what is known after some items -----

  /** The analysis knows the declarations that the names stand for. */
  ghost predicate Known(scope: Scope, next: nat, u: Unit) {
    && Layered([scope]) && ObjectsOf(scope) == GlobalsOf(u) && (forall id :: id in u.values ==> id < next)
    && u.functions.Keys <= scope.Keys
  }

  lemma NothingKnown()
    ensures Known(map[], 0, Nothing)
  {
  }

  lemma OneMore(scope: Scope, name: string, d: Decl)
    requires name !in scope
    ensures ObjectsOf(scope[name := Object(d)]) == ObjectsOf(scope) + {d}
  {
    var more := scope[name := Object(d)];
    forall x | x in ObjectsOf(scope) ensures x in ObjectsOf(more) {
      var k :| k in scope && scope[k].Object? && scope[k].decl == x;
      assert more[k] == scope[k];
    }
    assert more[name].decl == d;
  }

  lemma NoneMore(scope: Scope, name: string, entry: Entry)
    requires name !in scope && entry.Function?
    ensures ObjectsOf(scope[name := entry]) == ObjectsOf(scope)
  {
    var more := scope[name := entry];
    forall x | x in ObjectsOf(scope) ensures x in ObjectsOf(more) {
      var k :| k in scope && scope[k].Object? && scope[k].decl == x;
      assert more[k] == scope[k];
    }
  }

  lemma StillLayered(scope: Scope, name: string, entry: Entry)
    requires Layered([scope])
    requires entry.Object? && entry.decl.GlobalVariable? ==> entry.decl.name == name
    ensures Layered([scope[name := entry]])
  {
    var more: seq<Scope> := [scope[name := entry]];
    forall k | k in more[0] && more[0][k].Object? && more[0][k].decl.GlobalVariable?
      ensures more[0][k].decl.name == k
    {
      assert k != name ==> k in [scope][0] && [scope][0][k] == more[0][k];
    }
  }

  lemma NewName(item: Source, scope: Scope, next: nat, u: Unit, u': Unit, rounds: seq<Round>)
    requires hide *; Grows(item, scope, next, u, u', rounds) && item.Function?
    ensures item.name !in scope
  {
    hide ConstOf, Optimized, Proper, ResolveAll, ResolveExpr, SsaForm.Strict, Tidy, Accepted, IrGen.SameCalls,
         StaysInside, SkippedIsSilent;
  }

  lemma KnownNext(item: Source, scope: Scope, next: nat, u: Unit, u': Unit, rounds: seq<Round>)
    requires hide Compiled, GlobalFits, GlobalValue, Optimized, ResolveFunction;
             Known(scope, next, u) && Grows(item, scope, next, u, u', rounds)
    ensures next <= Behind(item, scope, next).1
            && Known(Behind(item, scope, next).0, Behind(item, scope, next).1, u')
            && Behind(item, scope, next).0.Keys == scope.Keys + {item.name}
  {
    hide Compiled, ConstOf, Optimized, Proper, ResolveAgain, ResolveFunction, Tree, ObjectsOf;
    match item
    case GlobalConst(name, init) =>
      var n := ResolveExpr(init, [scope], next, true).1;
      ExprWithin(init, [scope], [scope], next, true);
      OneMore(scope, name, Constant(n));
      StillLayered(scope, name, Object(Constant(n)));
    case GlobalVar(name, init) =>
      ExprWithin(init, [scope], [scope], next, true);
      OneMore(scope, name, GlobalVariable(name));
      StillLayered(scope, name, Object(GlobalVariable(name)));
    case Function(_, name, _, _) =>
      NewName(item, scope, next, u, u', rounds);
      ResolvedIsTree(item, scope, next, u.values);
      NoneMore(scope, name, HeaderOf(item));
      StillLayered(scope, name, HeaderOf(item));
  }

  // ----- the driver -----

  /** The value of the initialiser of a global, if nothing is wrong. */
  method EvalGlobal(name: string, init: Syntax.Expr, scope: Scope, next: nat, u: Unit) returns (v: Option<i32>)
    ensures hide ConstOf, Proper, ResolveExpr; v.Some? <==> GlobalFits(name, init, scope, next, u)
    ensures v.Some? ==> v.value == GlobalValue(init, scope, next, u)
  {
    if name in scope {
      return Ir.None;
    }
    var x := ResolveExpr(init, [scope], next, true).0;
    var analyzer := new Analyzer(u.globals.Keys, u.values);
    analyzer.AnalyzeExpr(x);
    NoFaultsIfProper(x, Tables([GlobalsOf(u)], u.values, {}, true));
    OneScope(GlobalsOf(u));
    v := analyzer.EvalConst(x);
    if !analyzer.ok {
      v := Ir.None;
    }
  }

  /** One item more, or what is wrong with it. */
  method AddItem(item: Source, scope: Scope, next: nat, u: Unit, rounds: seq<Round>)
    returns (ok: bool, more: Unit, fate: Fate, consts: Consts)
    requires Known(scope, next, u)
    ensures if ok then Grows(item, scope, next, u, more, rounds) else Wrong(item, scope, next, u, fate, consts)
  {
    hide Compiled, GlobalFits, GlobalValue, Optimized, ResolveExpr, ResolveFunction, Tree;
    ok, more, fate, consts := false, u, Rejected, map[];
    match item
    case GlobalConst(name, init) =>
      var v := EvalGlobal(name, init, scope, next, u);
      if v.Some? {
        ok, more := true, u.(values := u.values[ResolveExpr(init, [scope], next, true).1 := v.value]);
      }
    case GlobalVar(name, init) =>
      var v := EvalGlobal(name, init, scope, next, u);
      if v.Some? {
        ok, more := true, u.(globals := u.globals[name := v.value]);
      }
    case Function(isInt, name, _, _) =>
      var f := ResolveFunction(item, scope, next).0;
      ResolvedIsTree(item, scope, next, u.values);
      ghost var compiled;
      fate, consts, compiled := CompileOptimized(f, isInt, u.globals.Keys, u.values, 0, rounds);
      if fate.Generated? {
        var made := Made(f, consts, fate.f);
        ok, more := true, u.(functions := u.functions[name := made]);
        assert Generated(made.code) == fate && Optimized(compiled, rounds, Generated(made.code));
      }
    case NoItem =>
  }

  lemma NextMakes(items: seq<Source>, k: nat, u: Unit, more: Unit, rounds: seq<Round>)
    requires hide *; k < |items| && Makes(items[..k], u, rounds)
    requires Grows(items[k], BehindAll(items[..k]).0, BehindAll(items[..k]).1, u, more, rounds)
    ensures Makes(items[..k + 1], more, rounds)
    ensures BehindAll(items[..k + 1]) == Behind(items[k], BehindAll(items[..k]).0, BehindAll(items[..k]).1)
  {
    hide Behind, Grows;
    assert items[..k + 1][..k] == items[..k];
  }

  /** Item after item, up to the first with which something is wrong. */
  method BuildUnit(items: seq<Source>, rounds: seq<Round>)
    returns (k: nat, u: Unit, scope: Scope, fate: Fate, consts: Consts)
    ensures hide *; k <= |items| && Makes(items[..k], u, rounds) && scope == BehindAll(items[..k]).0
    ensures k < |items| ==> Wrong(items[k], BehindAll(items[..k]).0, BehindAll(items[..k]).1, u, fate, consts)
  {
    hide Makes, Grows, Wrong, Known, Behind, BehindAll;
    k, u, scope, fate, consts := 0, Nothing, map[], Rejected, map[];
    var next := 0;
    NothingMade(items, rounds);
    NothingKnown();
    while k < |items|
      invariant k <= |items| && Makes(items[..k], u, rounds)
      invariant (scope, next) == BehindAll(items[..k]) && Known(scope, next, u)
    {
      var ok, more;
      ok, more, fate, consts := AddItem(items[k], scope, next, u, rounds);
      if !ok {
        return;
      }
      NextMakes(items, k, u, more, rounds);
      KnownNext(items[k], scope, next, u, more, rounds);
      var behind := Behind(items[k], scope, next);
      scope, next := behind.0, behind.1;
      k, u := k + 1, more;
    }
  }

  lemma NothingMade(items: seq<Source>, rounds: seq<Round>)
    ensures hide *; Makes(items[..0], Nothing, rounds) && BehindAll(items[..0]) == (map[], 0)
  {
    hide Behind, Grows;
    assert items[..0] == [];
  }

  // ----- what a unit means -----

  lemma {:induction false} MakesKnown(items: seq<Source>, u: Unit, rounds: seq<Round>)
    requires Makes(items, u, rounds)
    ensures Known(BehindAll(items).0, BehindAll(items).1, u)
  {
    hide Grows, Behind, Known;
    if items == [] {
      NothingKnown();
    } else {
      var front := items[..|items| - 1];
      var (scope, next) := BehindAll(front);
      var before: Unit :| Makes(front, before, rounds) && Grows(items[|items| - 1], scope, next, before, u, rounds);
      MakesKnown(front, before, rounds);
      KnownNext(items[|items| - 1], scope, next, before, u, rounds);
    }
  }

  /** The constants outside every function that were declared before number `next` have the values of `values`. */
  predicate SharedBelow(next: nat, values: Consts, consts: Consts) {
    forall id :: id in values && id < next ==> id in consts && consts[id] == values[id]
  }

  /** The constants declared before number `next`. */
  function ValuesBelow(next: nat, values: Consts): Consts {
    map id | id in values && id < next :: values[id]
  }

  /** The code is what some function with the meaning of the source became in all rounds of the optimizer. */
  ghost predicate WentThrough(made: Made, rounds: seq<Round>) {
    exists compiled: Ir.Function ::
      SsaForm.Strict(compiled) && IrGen.SameCalls(compiled, made.source, made.consts)
      && RoundsDone(compiled, rounds, made.code)
  }

  /** The function of an item is compiled: its source is what was parsed, with every name standing for its
      declaration; it is clean among the declarations before it; and its code is strict SSA that has gone through all
      rounds and returns exactly when the source does. */
  ghost predicate IsMade(item: Source, scope: Scope, next: nat, u: Unit, rounds: seq<Round>)
    requires hide *; item.Function?
  {
    && item.name in u.functions
    && var made := u.functions[item.name];
       && FunctionStands(item, made.source, scope) && Tree(made.source, ValuesBelow(next, u.values))
       && CleanFunction(made.source, item.isInt, ObjectsOf(scope), made.consts)
       && SharedBelow(next, u.values, made.consts)
       && SsaForm.Strict(made.code) && IrGen.SameCalls(made.code, made.source, made.consts)
       && WentThrough(made, rounds)
  }

  lemma GrownFunction(item: Source, scope: Scope, next: nat, u: Unit, u': Unit, rounds: seq<Round>)
    returns (made: Made, compiled: Ir.Function)
    requires hide *; item.Function? && Grows(item, scope, next, u, u', rounds)
    ensures item.name in u'.functions && u'.functions[item.name] == made && u'.values == u.values
    ensures made.source == ResolveFunction(item, scope, next).0
    ensures Compiled(made.source, item.isInt, GlobalsOf(u), u.values, Generated(compiled), made.consts)
    ensures Compiled(made.source, item.isInt, GlobalsOf(u), u.values, Generated(made.code), made.consts)
    ensures RoundsDone(compiled, rounds, made.code)
  {
    hide Compiled, GlobalFits, GlobalValue, ResolveExpr, ResolveFunction, RoundsDone, GlobalsOf;
    var m: Made, o: Fate :|
      && m.source == ResolveFunction(item, scope, next).0
      && Compiled(m.source, item.isInt, GlobalsOf(u), u.values, o, m.consts)
      && Optimized(o, rounds, Generated(m.code))
      && Compiled(m.source, item.isInt, GlobalsOf(u), u.values, Generated(m.code), m.consts)
      && u' == u.(functions := u.functions[item.name := m]);
    made, compiled := m, o.f;
  }

  lemma CompiledIsClean(func: FuncDef, isInt: bool, scope: set<Decl>, values: Consts, f: Ir.Function, consts: Consts)
    requires hide *; Compiled(func, isInt, scope, values, Generated(f), consts)
    ensures Includes(consts, values) && CleanFunction(func, isInt, scope, consts)
    ensures SsaForm.Strict(f) && IrGen.SameCalls(f, func, consts)
  {
    hide Includes, CleanFunction, SsaForm.Strict, IrGen.SameCalls, StaysInside, SkippedIsSilent;
  }

  lemma IncludesShared(next: nat, values: Consts, consts: Consts)
    requires Includes(consts, values)
    ensures SharedBelow(next, values, consts)
  {
  }

  lemma WentThroughIf(made: Made, compiled: Ir.Function, rounds: seq<Round>)
    requires hide *; SsaForm.Strict(compiled) && IrGen.SameCalls(compiled, made.source, made.consts)
    requires RoundsDone(compiled, rounds, made.code)
    ensures WentThrough(made, rounds)
  {
    hide SsaForm.Strict, IrGen.SameCalls, RoundsDone;
  }

  lemma KnownScope(scope: Scope, next: nat, u: Unit)
    requires hide *; Known(scope, next, u)
    ensures ObjectsOf(scope) == GlobalsOf(u)
  {
    hide ObjectsOf, GlobalsOf, Layered;
  }

  lemma IsMadeIf(item: Source, scope: Scope, next: nat, u: Unit, rounds: seq<Round>)
    requires hide *; item.Function? && item.name in u.functions
    requires var made := u.functions[item.name];
       && FunctionStands(item, made.source, scope) && Tree(made.source, ValuesBelow(next, u.values))
       && CleanFunction(made.source, item.isInt, ObjectsOf(scope), made.consts)
       && SharedBelow(next, u.values, made.consts)
       && SsaForm.Strict(made.code) && IrGen.SameCalls(made.code, made.source, made.consts)
       && WentThrough(made, rounds)
    ensures IsMade(item, scope, next, u, rounds)
  {
    hide FunctionStands, Tree, CleanFunction, ObjectsOf, SharedBelow, SsaForm.Strict, IrGen.SameCalls, WentThrough,
         ValuesBelow;
  }

  lemma LastIsMade(item: Source, scope: Scope, next: nat, u: Unit, u': Unit, rounds: seq<Round>)
    requires hide *; item.Function? && Known(scope, next, u) && Grows(item, scope, next, u, u', rounds)
    ensures IsMade(item, scope, next, u', rounds)
  {
    hide *;
    var made, compiled := GrownFunction(item, scope, next, u, u', rounds);
    CompiledIsClean(made.source, item.isInt, GlobalsOf(u), u.values, compiled, made.consts);
    CompiledIsClean(made.source, item.isInt, GlobalsOf(u), u.values, made.code, made.consts);
    ResolvedFunctionStands(item, scope, next);
    BelowNext(next, u'.values);
    ResolvedIsTree(item, scope, next, ValuesBelow(next, u'.values));
    KnownScope(scope, next, u);
    IncludesShared(next, u.values, made.consts);
    WentThroughIf(made, compiled, rounds);
    IsMadeIf(item, scope, next, u', rounds);
  }

  lemma BelowNext(next: nat, values: Consts)
    ensures forall id :: id in ValuesBelow(next, values) ==> id < next
  {
  }

  lemma StaysMade(item: Source, scope: Scope, next: nat, last: Source, scope': Scope, next': nat, u: Unit, u': Unit,
                  rounds: seq<Round>)
    requires hide *; item.Function? && IsMade(item, scope, next, u, rounds) && next <= next'
    requires Known(scope', next', u) && Grows(last, scope', next', u, u', rounds)
    ensures IsMade(item, scope, next, u', rounds)
  {
    hide CleanFunction, Compiled, ConstOf, FunctionStands, Proper, ResolveAgain, ResolveFunction, RoundsDone,
         SsaForm.Strict, IrGen.SameCalls;
    match last
    case GlobalConst(name, init) => ExprWithin(init, [scope'], [scope'], next', true);
    case GlobalVar(name, init) =>
    case Function(_, name, _, _) => NewName(last, scope', next', u, u', rounds);
    case NoItem =>
  }

  lemma {:induction false} NumbersRise(items: seq<Source>, k: nat, u: Unit, rounds: seq<Round>)
    requires hide *; Makes(items, u, rounds) && k <= |items|
    ensures BehindAll(items[..k]).1 <= BehindAll(items).1
    decreases |items|
  {
    hide Grows, Behind, Known;
    if k == |items| {
      assert items[..k] == items;
    } else {
      var front := items[..|items| - 1];
      var (scope, next) := BehindAll(front);
      var before: Unit :| Makes(front, before, rounds) && Grows(items[|items| - 1], scope, next, before, u, rounds);
      assert front[..k] == items[..k];
      NumbersRise(front, k, before, rounds);
      MakesKnown(front, before, rounds);
      KnownNext(items[|items| - 1], scope, next, before, u, rounds);
    }
  }

  /** Every function of the unit is compiled, behind the items before it. */
  lemma {:induction false} EveryFunctionIsMade(items: seq<Source>, k: nat, u: Unit, rounds: seq<Round>)
    requires hide *; Makes(items, u, rounds) && k < |items| && items[k].Function?
    ensures IsMade(items[k], BehindAll(items[..k]).0, BehindAll(items[..k]).1, u, rounds)
    decreases |items|
  {
    hide Grows, Behind, Known, IsMade;
    var n := |items| - 1;
    var front := items[..n];
    var (scope, next) := BehindAll(front);
    var before: Unit :| Makes(front, before, rounds) && Grows(items[n], scope, next, before, u, rounds);
    MakesKnown(front, before, rounds);
    if k == n {
      LastIsMade(items[n], scope, next, before, u, rounds);
    } else {
      assert front[..k] == items[..k] && front[k] == items[k];
      EveryFunctionIsMade(front, k, before, rounds);
      NumbersRise(front, k, before, rounds);
      StaysMade(items[k], BehindAll(items[..k]).0, BehindAll(items[..k]).1, items[n], scope, next, before, u, rounds);
    }
  }

  // ----- the names outside every function -----

  /** The initialiser stands for an expression over earlier declarations that has this value in every state. */
  ghost predicate HasValue(init: Syntax.Expr, scope: Scope, values: Consts, v: i32) {
    exists x: Expr ::
      && ExprStands(init, x, [scope], [scope], true) && ConstOf(x, values) == Ir.Some(v)
      && forall callees: Ir.Callees, st: State :: Ast.Eval(x, values, callees, st) == (v, st)
  }

  /** What an item declares behind the names of `scope`: a constant or a variable with the value of its initialiser, or
      a function with its parameters. */
  ghost predicate Declares(item: Source, scope: Scope, e: Entry, u: Unit) {
    match item
    case GlobalConst(_, init) =>
      e.Object? && e.decl.Constant? && e.decl.id in u.values && HasValue(init, scope, u.values, u.values[e.decl.id])
    case GlobalVar(name, init) =>
      e == Object(GlobalVariable(name)) && name in u.globals && HasValue(init, scope, u.values, u.globals[name])
    case Function(isInt, name, params, _) => e == Function(|params|, isInt) && name in u.functions
    case NoItem => false
  }

  /** Item `i` has a name of its own among the items before it, and the name stands for what the item declares. */
  ghost predicate NameStands(items: seq<Source>, scope: Scope, u: Unit, i: nat)
    requires hide *; i < |items|
  {
    && !items[i].NoItem? && items[i].name !in BehindAll(items[..i]).0 && items[i].name in scope
    && Declares(items[i], BehindAll(items[..i]).0, scope[items[i].name], u)
  }

  ghost predicate IsNameOf(items: seq<Source>, name: string) {
    exists i: nat :: i < |items| && !items[i].NoItem? && items[i].name == name
  }

  /** Every item has a name of its own, which stands for what it declares, and there is nothing else. */
  ghost predicate NamesStand(items: seq<Source>, scope: Scope, u: Unit) {
    && (forall name :: name in scope ==> IsNameOf(items, name))
    && (forall name :: name in u.globals ==> name in scope && scope[name] == Object(GlobalVariable(name)))
    && (forall name :: name in u.functions ==> name in scope && scope[name].Function?)
    && forall i: nat :: i < |items| ==> NameStands(items, scope, u, i)
  }

  lemma InitialHasValue(init: Syntax.Expr, scope: Scope, next: nat, values: Consts, v: i32)
    requires ConstOf(ResolveExpr(init, [scope], next, true).0, values) == Ir.Some(v)
    ensures HasValue(init, scope, values, v)
  {
    hide ConstOf, Eval, ExprStands, ResolveAgain, Ast.Eval;
    var x := ResolveExpr(init, [scope], next, true).0;
    ResolvedExprStands(init, [scope], [scope], next, true);
    forall callees: Ir.Callees, st: State ensures Ast.Eval(x, values, callees, st) == (v, st) {
      ConstMeans(x, values, callees, st);
    }
  }

  lemma ValueKept(init: Syntax.Expr, scope: Scope, values: Consts, v: i32, more: Consts)
    requires HasValue(init, scope, values, v) && Includes(more, values)
    ensures HasValue(init, scope, more, v)
  {
    hide ExprStands, ConstOf, Ast.Eval, Includes;
    var x: Expr :| ExprStands(init, x, [scope], [scope], true) && ConstOf(x, values) == Ir.Some(v);
    ConstKept(x, values, more);
    forall callees: Ir.Callees, st: State ensures Ast.Eval(x, more, callees, st) == (v, st) {
      ConstMeans(x, more, callees, st);
    }
  }

  /** An item takes nothing away, and its name is new. */
  lemma NextKeeps(item: Source, scope: Scope, next: nat, u: Unit, u': Unit, rounds: seq<Round>)
    requires hide *; Known(scope, next, u) && Grows(item, scope, next, u, u', rounds)
    ensures !item.NoItem? && item.name !in scope && Includes(u'.values, u.values)
    ensures u'.globals.Keys <= u.globals.Keys + {item.name} && u'.functions.Keys <= u.functions.Keys + {item.name}
    ensures forall name :: name in u.globals && name != item.name ==>
              name in u'.globals && u'.globals[name] == u.globals[name]
    ensures u.functions.Keys <= u'.functions.Keys
    ensures var scope' := Behind(item, scope, next).0;
      scope'.Keys == scope.Keys + {item.name} && forall name :: name in scope ==> scope'[name] == scope[name]
  {
    hide Compiled, ConstOf, Optimized, Proper, ResolveAgain, ResolveFunction, ObjectsOf;
    match item
    case GlobalConst(_, init) => ExprWithin(init, [scope], [scope], next, true);
    case GlobalVar(_, _) =>
    case Function(_, _, _, _) => NewName(item, scope, next, u, u', rounds);
    case NoItem =>
  }

  lemma NextDeclares(item: Source, scope: Scope, next: nat, u: Unit, u': Unit, rounds: seq<Round>)
    requires hide *; Known(scope, next, u) && Grows(item, scope, next, u, u', rounds)
    ensures var scope' := Behind(item, scope, next).0;
      !item.NoItem? && item.name in scope' && Declares(item, scope, scope'[item.name], u')
  {
    hide Compiled, ConstOf, HasValue, Optimized, Proper, ResolveExpr, ResolveFunction, ObjectsOf;
    NextKeeps(item, scope, next, u, u', rounds);
    match item
    case GlobalConst(_, init) =>
      InitialHasValue(init, scope, next, u.values, GlobalValue(init, scope, next, u));
      ValueKept(init, scope, u.values, GlobalValue(init, scope, next, u), u'.values);
    case GlobalVar(_, init) => InitialHasValue(init, scope, next, u.values, GlobalValue(init, scope, next, u));
    case Function(_, _, _, _) =>
    case NoItem =>
  }

  lemma DeclaresKept(item: Source, scope: Scope, e: Entry, u: Unit, u': Unit)
    requires hide HasValue;
             Declares(item, scope, e, u) && Includes(u'.values, u.values) && u.functions.Keys <= u'.functions.Keys
    requires item.GlobalVar? ==> item.name in u'.globals && u'.globals[item.name] == u.globals[item.name]
    ensures Declares(item, scope, e, u')
  {
    hide HasValue;
    match item
    case GlobalConst(_, init) => ValueKept(init, scope, u.values, u.values[e.decl.id], u'.values);
    case GlobalVar(name, init) => ValueKept(init, scope, u.values, u.globals[name], u'.values);
    case _ =>
  }

  lemma BehindLast(items: seq<Source>)
    requires hide *; items != []
    ensures var (scope, next) := BehindAll(items[..|items| - 1]);
      BehindAll(items) == Behind(items[|items| - 1], scope, next)
  {
    hide Behind;
  }

  lemma OldNameStands(items: seq<Source>, n: nat, i: nat, scope: Scope, u: Unit, scope': Scope, u': Unit)
    requires hide *; i < n <= |items| && NamesStand(items[..n], scope, u)
    requires Includes(u'.values, u.values) && u.functions.Keys <= u'.functions.Keys
    requires forall name :: name in scope ==> name in scope' && scope'[name] == scope[name]
    requires forall name :: name in u.globals && name in scope ==>
               name in u'.globals && u'.globals[name] == u.globals[name]
    ensures NameStands(items, scope', u', i)
  {
    hide Declares, Includes, BehindAll;
    assert items[..n][i] == items[i] && items[..n][..i] == items[..i];
    assert NameStands(items[..n], scope, u, i);
    IsThere(items[..n], scope, u, i);
    DeclaresKept(items[i], BehindAll(items[..i]).0, scope[items[i].name], u, u');
  }

  lemma NamesStandIf(items: seq<Source>, scope: Scope, u: Unit)
    requires hide *; forall name :: name in scope ==> IsNameOf(items, name)
    requires forall name :: name in u.globals ==> name in scope && scope[name] == Object(GlobalVariable(name))
    requires forall name :: name in u.functions ==> name in scope && scope[name].Function?
    requires forall i: nat :: i < |items| ==> NameStands(items, scope, u, i)
    ensures NamesStand(items, scope, u)
  {
    hide Declares, BehindAll, IsNameOf;
  }

  lemma NamesAreItems(items: seq<Source>, n: nat, scope: Scope, u: Unit, name: string)
    requires hide *; n < |items| && NamesStand(items[..n], scope, u) && !items[n].NoItem?
    requires name in scope || name == items[n].name
    ensures IsNameOf(items, name)
  {
    hide Declares, BehindAll;
    if name in scope {
      assert IsNameOf(items[..n], name);
      var i: nat :| i < n && !items[..n][i].NoItem? && items[..n][i].name == name;
      assert items[i] == items[..n][i];
    }
  }

  lemma NamesStandFacts(items: seq<Source>, scope: Scope, u: Unit)
    requires hide *; NamesStand(items, scope, u)
    ensures forall name :: name in u.globals ==> name in scope && scope[name] == Object(GlobalVariable(name))
    ensures forall name :: name in u.functions ==> name in scope && scope[name].Function?
  {
    hide Declares, BehindAll, IsNameOf;
  }

  lemma OneNameMore(items: seq<Source>, scope: Scope, next: nat, u: Unit, u': Unit, rounds: seq<Round>)
    requires hide *; items != [] && Known(scope, next, u) && (scope, next) == BehindAll(items[..|items| - 1])
    requires NamesStand(items[..|items| - 1], scope, u) && Grows(items[|items| - 1], scope, next, u, u', rounds)
    ensures NamesStand(items, BehindAll(items).0, u')
  {
    hide *;
    var n := |items| - 1;
    var scope' := BehindAll(items).0;
    BehindLast(items);
    NextKeeps(items[n], scope, next, u, u', rounds);
    NextDeclares(items[n], scope, next, u, u', rounds);
    NamesStandFacts(items[..n], scope, u);
    NextIsNamed(items[n], scope, next, u, u', rounds);
    forall name | name in scope' ensures IsNameOf(items, name) {
      NamesAreItems(items, n, scope, u, name);
    }
    forall i: nat | i < |items| ensures NameStands(items, scope', u', i) {
      if i < n {
        OldNameStands(items, n, i, scope, u, scope', u');
      } else {
        NameStandsIf(items, scope', u', n);
      }
    }
    NamesStandIf(items, scope', u');
  }

  lemma NameStandsIf(items: seq<Source>, scope: Scope, u: Unit, i: nat)
    requires hide *; i < |items| && !items[i].NoItem? && items[i].name !in BehindAll(items[..i]).0
    requires items[i].name in scope && Declares(items[i], BehindAll(items[..i]).0, scope[items[i].name], u)
    ensures NameStands(items, scope, u, i)
  {
    hide Declares, BehindAll;
  }

  lemma IsThere(items: seq<Source>, scope: Scope, u: Unit, i: nat)
    requires hide *; NamesStand(items, scope, u) && i < |items|
    ensures items[i].GlobalVar? ==> items[i].name in u.globals
  {
    hide BehindAll, HasValue;
    assert NameStands(items, scope, u, i);
  }

  lemma NextIsNamed(item: Source, scope: Scope, next: nat, u: Unit, u': Unit, rounds: seq<Round>)
    requires hide *; Grows(item, scope, next, u, u', rounds) && Known(scope, next, u)
    requires forall name :: name in u.globals ==> name in scope && scope[name] == Object(GlobalVariable(name))
    requires forall name :: name in u.functions ==> name in scope && scope[name].Function?
    ensures var scope' := Behind(item, scope, next).0;
      && (forall name :: name in u'.globals ==> name in scope' && scope'[name] == Object(GlobalVariable(name)))
      && (forall name :: name in u'.functions ==> name in scope' && scope'[name].Function?)
  {
    hide Compiled, ConstOf, Optimized, Proper, ResolveExpr, ResolveFunction, ObjectsOf;
    NextKeeps(item, scope, next, u, u', rounds);
  }

  /** Whatever the driver accepts: its names stand for its items, and every global has the value of its initialiser. */
  lemma {:induction false} EveryNameStands(items: seq<Source>, u: Unit, rounds: seq<Round>)
    requires Makes(items, u, rounds)
    ensures NamesStand(items, BehindAll(items).0, u)
    decreases |items|
  {
    hide Grows, Behind, Known, Declares;
    if items != [] {
      var n := |items| - 1;
      var front := items[..n];
      var (scope, next) := BehindAll(front);
      var before: Unit :| Makes(front, before, rounds) && Grows(items[n], scope, next, before, u, rounds);
      EveryNameStands(front, before, rounds);
      MakesKnown(front, before, rounds);
      OneNameMore(items, scope, next, before, u, rounds);
    }
  }

  // ----- from the text -----

  /** There is a function `main` without parameters that gives an int. */
  predicate HasMain(scope: Scope) {
    "main" in scope && scope["main"] == Function(0, true)
  }

  /** `int main()` */
  predicate IsMain(item: Source) {
    item.Function? && item.isInt && item.name == "main" && item.params == []
  }

  lemma MainIsThere(items: seq<Source>, scope: Scope, u: Unit)
    requires NamesStand(items, scope, u)
    ensures HasMain(scope) <==> exists item :: item in items && IsMain(item)
  {
    hide BehindAll, HasValue;
    if HasMain(scope) {
      assert IsNameOf(items, "main");
      var i: nat :| i < |items| && !items[i].NoItem? && items[i].name == "main";
      assert NameStands(items, scope, u, i);
      assert items[i] in items && IsMain(items[i]);
    }
    if item :| item in items && IsMain(item) {
      var i: nat :| i < |items| && items[i] == item;
      assert NameStands(items, scope, u, i);
    }
  }

  /** What becomes of a text: no file of the grammar; a number that does not fit an int; something wrong with an item;
      nothing to start with; or a unit. */
  datatype Build =
    | NotAFile
    | OutOfRange
    | WrongItem(index: nat, before: Unit, fate: Fate, consts: Consts)
    | NoMain(before: Unit)
    | Built(unit: Unit)

  lemma {:induction false} NoEndInside(text: string, before: Syntax.Token)
    ensures Syntax.EndOfFile !in Lexing.Lex(text, before)
    decreases |text|
  {
    hide Lexing.NextToken;
    var t := Lexing.NextToken(text, before);
    if t.token != Syntax.EndOfFile && !t.token.Invalid? {
      NoEndInside(t.rest, t.token);
    }
  }

  /** Lexer, parser, analysis, generation, SSA construction and rounds of the optimizer, one behind the other. */
  method BuildIr(text: string, rounds: seq<Round>) returns (r: Build, items: seq<Source>)
    ensures hide *; r.NotAFile? ==> forall unit :: !Parsing.IsFile(Lexing.Lex(text, Syntax.EndOfFile), unit)
    ensures !r.NotAFile? ==> Parsing.IsFile(Lexing.Lex(text, Syntax.EndOfFile), items)
    ensures r.OutOfRange? <==>
              !r.NotAFile? && exists t :: t in Lexing.Lex(text, Syntax.EndOfFile) && t.Number? && !InRange(t.digits)
    ensures r.WrongItem? ==>
              && r.index < |items| && Makes(items[..r.index], r.before, rounds)
              && Wrong(items[r.index], BehindAll(items[..r.index]).0, BehindAll(items[..r.index]).1, r.before, r.fate,
                       r.consts)
    ensures r.NoMain? ==> Makes(items, r.before, rounds) && !HasMain(BehindAll(items).0)
    ensures r.NoMain? ==> forall item :: item in items ==> !IsMain(item)
    ensures r.Built? ==> Makes(items, r.unit, rounds) && HasMain(BehindAll(items).0)
    ensures r.Built? ==> exists item :: item in items && IsMain(item)
    ensures r.Built? ==> forall k: nat :: k < |items| && items[k].Function? ==>
                           IsMade(items[k], BehindAll(items[..k]).0, BehindAll(items[..k]).1, r.unit, rounds)
    ensures r.Built? ==> NamesStand(items, BehindAll(items).0, r.unit)
  {
    hide *;
    var tokens := LexerClass.Tokens(text);
    NoEndInside(text, Syntax.EndOfFile);
    var parser := new ParserClass.Parser(tokens);
    items := parser.ParseCompUnit();
    if parser.hadError {
      return NotAFile, items;
    }
    if exists t :: t in tokens && t.Number? && !InRange(t.digits) {
      return OutOfRange, items;
    }
    var k, u, scope, fate, consts := BuildUnit(items, rounds);
    if k < |items| {
      return WrongItem(k, u, fate, consts), items;
    }
    assert items[..k] == items;
    EveryNameStands(items, u, rounds);
    MainIsThere(items, scope, u);
    if !HasMain(scope) {
      return NoMain(u), items;
    }
    forall n: nat | n < |items| && items[n].Function?
      ensures IsMade(items[n], BehindAll(items[..n]).0, BehindAll(items[..n]).1, u, rounds)
    {
      EveryFunctionIsMade(items, n, u, rounds);
    }
    r := Built(u);
  }

  /** An expression written as text, with the fewest parentheses and spaces between the tokens, is read and parsed
      as itself. */
  lemma TextRoundTrip(e: Syntax.Expr)
    requires hide *; Lexing.WellSpelt(Syntax.Minimal(e, 0))
    ensures var text := Lexing.Spaced(Syntax.Flatten(Syntax.Minimal(e, 0), []));
      Parsing.ParseExpr(0, Lexing.Lex(text, Syntax.EndOfFile)) == Parsing.Parsed(e, [], true)
  {
    hide Syntax.Flatten, Lexing.Lex, Parsing.ParseExpr, Lexing.AllPrintable, Syntax.Minimal;
    Lexing.NothingIsSafe();
    Lexing.TreeIsPrintable(Syntax.Minimal(e, 0), Syntax.EndOfFile, []);
    Lexing.PrintedIsReadBack(Syntax.Flatten(Syntax.Minimal(e, 0), []), Syntax.EndOfFile);
    Parsing.RoundTrip(e, []);
  }
}
