/** The pass that inlines small leaf functions, over the functions of a module. */
module ModuleInliner {
  import opened Int32
  import opened Graphs
  import opened Ir
  import opened Ssa
  import opened Inlining
  import opened Inliner
  import opened InlinedForm
  import L = Numbers

  // ----- all calls of one function -----

  datatype FunctionInfo = FunctionInfo(f: Function, params: nat, returnsInt: bool)

  type Module = map<string, FunctionInfo>

  /** How many instructions a function has, terminators included. */
  function Size(f: Function, n: nat): nat
    requires n <= |f.blocks|
  {
    if n == 0 then 0 else Size(f, n - 1) + |f.blocks[n - 1].insts| + 1
  }

  const INLINE_INST_LIMIT: nat := 100

  /** The call may be replaced: its callee is another function that gives an int, and is small and safe to copy; in
      `main` only inside a loop. */
  ghost predicate Eligible(m: Module, self: string, f: Function, b: nat, k: nat) {
    && b < |f.blocks| && k < |f.blocks[b].insts| && f.blocks[b].insts[k].Call?
    && var i := f.blocks[b].insts[k];
       && i.callee in m && i.callee != self && m[i.callee].returnsInt && |i.args| == m[i.callee].params
       && Size(m[i.callee].f, |m[i.callee].f.blocks|) <= INLINE_INST_LIMIT
       && SafeToInline(m[i.callee].f, m[i.callee].params)
       && (self == "main" ==> Reaches(Cfg(f), b, b))
  }

  method InstCount(f: Function) returns (n: nat)
    ensures n == Size(f, |f.blocks|)
  {
    n := 0;
    var i := 0;
    while i < |f.blocks|
      invariant 0 <= i <= |f.blocks| && n == Size(f, i)
    {
      n := n + |f.blocks[i].insts| + 1;
      i := i + 1;
    }
  }

  method IsLeaf(f: Function) returns (yes: bool)
    ensures yes <==> forall i: nat, j: nat :: i < |f.blocks| && j < |f.blocks[i].insts| ==> !f.blocks[i].insts[j].Call?
  {
    var i := 0;
    while i < |f.blocks|
      invariant 0 <= i <= |f.blocks|
      invariant forall i': nat, j: nat :: i' < i && j < |f.blocks[i'].insts| ==> !f.blocks[i'].insts[j].Call?
    {
      var j := 0;
      while j < |f.blocks[i].insts|
        invariant 0 <= j <= |f.blocks[i].insts| && forall j': nat :: j' < j ==> !f.blocks[i].insts[j'].Call?
      {
        if f.blocks[i].insts[j].Call? {
          return false;
        }
        j := j + 1;
      }
      i := i + 1;
    }
    return true;
  }

  /** Every function of the module is as the pass relies on it. */
  ghost predicate AllPlain(m: Module) {
    forall c :: c in m ==> Plain(m[c].f, m[c].params)
  }

  /** Operands are parameters that the function has. */
  ghost predicate ParamsAreThere(m: Module) {
    forall c :: c in m ==> ParamsBelow(m[c].f, m[c].params)
  }

  method IsEligible(m: Module, self: string, f: Function, b: nat, k: nat) returns (yes: bool)
    requires hide *; ParamsAreThere(m) && Valid(Cfg(f)) && b < |f.blocks| && k < |f.blocks[b].insts|
    ensures yes <==> Eligible(m, self, f, b, k)
  {
    hide Reaches, SafeToInline, ParamsBelow, Size, Cfg;
    var i := f.blocks[b].insts[k];
    if !i.Call? || i.callee !in m || i.callee == self {
      return false;
    }
    var callee := m[i.callee];
    if !callee.returnsInt || |i.args| != callee.params {
      return false;
    }
    var leaf := IsLeaf(callee.f);
    if !leaf {
      NotALeaf(callee.f, callee.params);
      return false;
    }
    var size := InstCount(callee.f);
    if size > INLINE_INST_LIMIT {
      return false;
    }
    var safe := IsInlineSafe(callee.f, callee.params);
    if !safe {
      return false;
    }
    if self == "main" {
      yes := BlockInLoop(f, b);
    } else {
      yes := true;
    }
  }

  lemma NotALeaf(f: Function, n: nat)
    requires hide *; exists i: nat, j: nat :: i < |f.blocks| && j < |f.blocks[i].insts| && f.blocks[i].insts[j].Call?
    ensures !SafeToInline(f, n)
  {
  }

  /** The first eligible call in the order of the blocks. */
  method FindCall(m: Module, self: string, f: Function)
    returns (site: Option<(nat, nat)>)
    requires hide *; ParamsAreThere(m) && Valid(Cfg(f))
    ensures site.Some? ==> Eligible(m, self, f, site.value.0, site.value.1)
    ensures site.None? ==> forall b: nat, k: nat :: !Eligible(m, self, f, b, k)
  {
    hide Cfg, ParamsAreThere, Reaches, SafeToInline, Size, Valid;
    var b := 0;
    while b < |f.blocks|
      invariant 0 <= b <= |f.blocks| && forall b': nat, k: nat :: b' < b ==> !Eligible(m, self, f, b', k)
    {
      var k := 0;
      while k < |f.blocks[b].insts|
        invariant 0 <= k <= |f.blocks[b].insts| && forall k': nat :: k' < k ==> !Eligible(m, self, f, b, k')
      {
        var yes := IsEligible(m, self, f, b, k);
        if yes {
          return Some((b, k));
        }
        k := k + 1;
      }
      b := b + 1;
    }
    return None;
  }

  /** Calls of the module's int functions give what the functions give, whatever is in their slots. */
  ghost predicate FaithfulTo(m: Module, o: Callees) {
    L.GlobalsOnly(o)
    && forall c, xs: seq<i32>, slots: map<nat, i32>, w: World, n: nat ::
         c in m && m[c].returnsInt && |xs| == m[c].params ==>
           AnswersAs(o, c, xs, w, Run(m[c].f, xs, o, From(slots, World(w.globals, [])), n))
  }

  /** Calls of the module's int functions give what the functions give when their slots are empty. */
  ghost predicate FaithfulAtFirstTo(m: Module, o: Callees) {
    L.GlobalsOnly(o)
    && forall c, xs: seq<i32>, w: World, n: nat ::
         c in m && m[c].returnsInt && |xs| == m[c].params ==>
           AnswersAs(o, c, xs, w, Run(m[c].f, xs, o, Start(World(w.globals, [])), n))
  }

  /** No int function sees what is in its slots at first. */
  ghost predicate AllBlind(m: Module, o: Callees) {
    forall c :: c in m && m[c].returnsInt ==> Blind(m[c].f, m[c].params, o)
  }

  lemma BlindAreFaithful(m: Module, o: Callees)
    requires AllBlind(m, o) && FaithfulAtFirstTo(m, o)
    ensures FaithfulTo(m, o)
  {
    hide Run, L.GlobalsOnly, Blind, AnswersAs;
    forall c, xs: seq<i32>, slots: map<nat, i32>, w: World, n: nat | c in m && m[c].returnsInt && |xs| == m[c].params
      ensures AnswersAs(o, c, xs, w, Run(m[c].f, xs, o, From(slots, World(w.globals, [])), n))
    {
      BlindAnswers(m[c].f, o, c, xs, slots, w, n);
    }
  }

  /** What the new function returns, the old one returns. */
  ghost predicate Safe(m: Module, f: Function, g: Function) {
    forall params: seq<i32>, o: Callees, slots: map<nat, i32>, w: World, result: Option<i32>,
           globals: map<string, i32> ::
      FaithfulTo(m, o) && Returns(g, params, o, slots, w, result, globals) ==>
        Returns(f, params, o, slots, w, result, globals)
  }

  /** Every function of the module that may be inlined returns from every call with as many arguments as it has
      parameters. */
  ghost predicate AllReturn(m: Module, o: Callees) {
    forall c, xs: seq<i32>, slots: map<nat, i32>, w: World ::
      c in m && m[c].returnsInt && MayBeInlined(m[c], xs) ==> EndsFrom(m[c].f, xs, o, slots, w)
  }

  ghost predicate MayBeInlined(c: FunctionInfo, xs: seq<i32>) {
    |xs| == c.params && SafeToInline(c.f, c.params)
  }

  /** If all calls return, the new function returns what the old one does. */
  ghost predicate Complete(m: Module, f: Function, g: Function) {
    forall params: seq<i32>, o: Callees, slots: map<nat, i32>, w: World, result: Option<i32>,
           globals: map<string, i32> ::
      FaithfulTo(m, o) && AllReturn(m, o) && Returns(f, params, o, slots, w, result, globals) ==>
        Returns(g, params, o, slots, w, result, globals)
  }

  lemma FaithfulHere(m: Module, z: Plan, o: Callees)
    requires hide *; FaithfulTo(m, o) && HasCall(z) && TheCall(z).callee in m
    requires m[TheCall(z).callee].f == z.callee && m[TheCall(z).callee].params == |TheCall(z).args|
    requires m[TheCall(z).callee].returnsInt
    ensures L.GlobalsOnly(o) && Faithful(z, o)
  {
    hide Run, AnswersAs, L.GlobalsOnly;
  }

  lemma OneIsSound(m: Module, z: Plan)
    requires hide Complete, Inlined, L.Below, Run, SafeToInline;
             Inlinable(z) && TheCall(z).callee in m && m[TheCall(z).callee].returnsInt
    requires m[TheCall(z).callee].f == z.callee && m[TheCall(z).callee].params == |TheCall(z).args|
    requires SafeToInline(z.callee, m[TheCall(z).callee].params)
    ensures Safe(m, z.caller, Inlined(z)) && Complete(m, z.caller, Inlined(z))
  {
    hide CallsReturn, Inlinable, Inlined, Run, SafeToInline, Steps, FaithfulTo, ReturnsWith, AllReturn, L.GlobalsOnly,
         Faithful, Even;
    ItHasACall(z);
    forall params: seq<i32>, o: Callees, slots: map<nat, i32>, w: World, result: Option<i32>,
           globals: map<string, i32> | FaithfulTo(m, o)
      ensures Returns(Inlined(z), params, o, slots, w, result, globals) ==>
                Returns(z.caller, params, o, slots, w, result, globals)
      ensures AllReturn(m, o) && Returns(z.caller, params, o, slots, w, result, globals) ==>
                Returns(Inlined(z), params, o, slots, w, result, globals)
    {
      FaithfulHere(m, z, o);
      if Returns(Inlined(z), params, o, slots, w, result, globals) {
        CopyReturns(z, params, o, slots, w, result, globals);
      }
      if AllReturn(m, o) && Returns(z.caller, params, o, slots, w, result, globals) {
        var n: nat :| ReturnsWith(z.caller, params, o, slots, w, n, result, globals);
        CallsDoReturn(m, z, params, o, From(slots, w), n);
        CallerReturns(z, params, o, slots, w, n, result, globals);
      }
    }
  }

  lemma CallsDoReturn(m: Module, z: Plan, params: seq<i32>, o: Callees, c: Config, n: nat)
    requires hide *; HasCall(z) && AllReturn(m, o) && TheCall(z).callee in m && m[TheCall(z).callee].returnsInt
    requires m[TheCall(z).callee].f == z.callee && SafeToInline(z.callee, m[TheCall(z).callee].params)
    requires |TheCall(z).args| == m[TheCall(z).callee].params
    ensures CallsReturn(z, params, o, c, n)
  {
    hide Run, AtCall, EndsFrom, SafeToInline;
    forall i: nat | i < n ensures CallReturns(z, params, o, Run(z.caller, params, o, c, i)) {
      var d := Run(z.caller, params, o, c, i);
      if d.At? && d.block == z.b {
        assert MayBeInlined(m[TheCall(z).callee], ArgsAt(z, params, o, d));
      }
    }
  }

  lemma SoundTrans(m: Module, f: Function, g: Function, h: Function)
    requires Safe(m, f, g) && Safe(m, g, h) && Complete(m, f, g) && Complete(m, g, h)
    ensures Safe(m, f, h) && Complete(m, f, h)
  {
    hide FaithfulTo, AllReturn, Returns;
  }

  lemma SoundSelf(m: Module, f: Function)
    ensures Safe(m, f, f) && Complete(m, f, f)
  {
    hide FaithfulTo, AllReturn, Returns;
  }

  lemma CallerGraph(f: Function, base: nat)
    requires Caller(f, base)
    ensures Valid(Cfg(f))
  {
    hide L.Below, CallsUnique;
    var g := Cfg(f);
    forall a: nat, b: nat | Edge(g, a, b) ensures b < |g| {
      assert b in Targets(f.blocks[a].term);
    }
  }

  lemma EligibleIsCallee(m: Module, self: string, f: Function, b: nat, k: nat)
    requires hide AllPlain, Callee, Cfg, Reaches, SafeToInline; Eligible(m, self, f, b, k) && AllPlain(m)
    ensures b < |f.blocks| && k < |f.blocks[b].insts| && f.blocks[b].insts[k].Call? && f.blocks[b].insts[k].callee in m
    ensures var i := f.blocks[b].insts[k];
      m[i.callee].returnsInt && |i.args| == m[i.callee].params && Callee(m[i.callee].f, |i.args|)
  {
    hide SafeToInline, UniqueDefs, CanBeCloned, TargetsWithin, DeclaresItsSlots, ParamsBelow, Reaches, Size;
    var c := m[f.blocks[b].insts[k].callee];
    assert Plain(c.f, c.params);
  }

  lemma TheFunction(m: Module, c: string)
    requires hide *; AllPlain(m) && c in m
    ensures Plain(m[c].f, m[c].params)
  {
    hide CanBeCloned, DeclaresItsSlots, ParamsBelow, TargetsWithin, UniqueDefs;
  }

  lemma AllParamsAreThere(m: Module)
    requires AllPlain(m)
    ensures ParamsAreThere(m)
  {
    hide ParamsBelow, UniqueDefs, CanBeCloned, TargetsWithin, DeclaresItsSlots;
    forall c | c in m ensures ParamsBelow(m[c].f, m[c].params) {
      assert Plain(m[c].f, m[c].params);
    }
  }

  lemma StillPlain(z: Plan, params: nat, more: nat)
    requires hide Caller, Inlined, L.Below, Plain, SafeToInline;
             Inlinable(z) && AllDeclared(z) && Plain(z.caller, params) && Caller(Inlined(z), more)
    requires HasCall(z) && Callee(z.callee, |TheCall(z).args|)
    ensures Plain(Inlined(z), params)
  {
    hide Plain, Inlinable, AllDeclared, Inlined, L.Below, NoPhisIn, CallsUnique, SafeToInline, UniqueDefs,
         CanBeCloned, DeclaresItsSlots;
    InlinedIsPlain(z, params);
  }

  /** Inlines into function `self` one call after another; every step takes a call away, so this ends, with no eligible
      call left unless the limit on the number of steps was reached. A function without calls stays as it is. */
  method InlineInto(m: Module, self: string, base: nat) returns (g: Function, more: nat)
    requires hide Eligible, L.Below, Plain, Run, SafeToInline; AllPlain(m) && self in m && Caller(m[self].f, base)
    ensures base <= more && Caller(g, more) && Plain(g, m[self].params)
    ensures Safe(m, m[self].f, g) && Complete(m, m[self].f, g)
    ensures CountAll(m[self].f, |m[self].f.blocks|, AnyCall) < 100000 ==> forall b: nat, k: nat ::
              !Eligible(m, self, g, b, k)
    ensures CountAll(m[self].f, |m[self].f.blocks|, AnyCall) == 0 ==> g == m[self].f
  {
    hide AllPlain, Plain, Caller, Callee, Eligible, Safe, Complete, CountAll, Inlinable, Inlined, AllDeclared,
         SafeToInline, UniqueDefs, CanBeCloned, DeclaresItsSlots, TargetsWithin, ParamsAreThere;
    ghost var f := m[self].f;
    g, more := m[self].f, base;
    TheFunction(m, self);
    AllParamsAreThere(m);
    SoundSelf(m, f);
    var guard := 0;
    while guard < 100000
      invariant base <= more && Caller(g, more) && Plain(g, m[self].params)
      invariant Safe(m, f, g) && Complete(m, f, g) && 0 <= guard <= 100000 && (guard == 0 ==> g == f)
      invariant guard + CountAll(g, |g.blocks|, AnyCall) == CountAll(f, |f.blocks|, AnyCall)
    {
      CallerGraph(g, more);
      var site := FindCall(m, self, g);
      if site.None? {
        break;
      }
      var (b, k) := site.value;
      EligibleIsCallee(m, self, g, b, k);
      var name := g.blocks[b].insts[k].callee;
      var callee := m[name].f;
      var h, next, z := InlineCall(g, b, k, callee, more);
      CalleeParts(callee, m[name].params);
      OneIsSound(m, z);
      StillPlain(z, m[self].params, next);
      SoundTrans(m, f, g, h);
      g, more := h, next;
      guard := guard + 1;
    }
  }

  // ----- all functions of a module -----

  ghost predicate AllCallers(m: Module, base: nat) {
    forall c :: c in m ==> Caller(m[c].f, base)
  }

  /** The same functions with the same parameters and results. */
  predicate SameHeaders(m: Module, m': Module) {
    m.Keys == m'.Keys && forall c :: c in m ==> m'[c].params == m[c].params && m'[c].returnsInt == m[c].returnsInt
  }

  /** What a function of the new module returns, it returned before. */
  ghost predicate NothingNew(m: Module, m': Module, o: Callees) {
    forall c, xs: seq<i32>, slots: map<nat, i32>, w: World, result: Option<i32>, globals: map<string, i32> ::
      c in m && c in m' && Returns(m'[c].f, xs, o, slots, w, result, globals) ==>
        Returns(m[c].f, xs, o, slots, w, result, globals)
  }

  /** Callees that answer as the old functions do answer as the new ones do, and those return nothing new. */
  ghost predicate ModuleSafe(m: Module, m': Module) {
    forall o: Callees :: FaithfulTo(m, o) ==> FaithfulTo(m', o) && NothingNew(m, m', o)
  }

  /** Every function that could have been inlined returns: those that can still be copied in the end. */
  ghost predicate InlinedReturn(m: Module, m': Module, o: Callees) {
    forall c, xs: seq<i32>, slots: map<nat, i32>, w: World ::
      c in m && c in m' && m'[c].returnsInt && MayBeInlined(m'[c], xs) ==> EndsFrom(m[c].f, xs, o, slots, w)
  }

  /** If the inlined functions return, nothing that was returned is lost. */
  ghost predicate ModuleComplete(m: Module, m': Module) {
    forall o: Callees :: FaithfulTo(m, o) && InlinedReturn(m, m', o) ==> NothingNew(m', m, o)
  }

  lemma ModuleSelf(m: Module)
    ensures SameHeaders(m, m) && ModuleSafe(m, m) && ModuleComplete(m, m)
  {
    hide FaithfulTo, Returns, InlinedReturn;
  }

  /** Callees that answer as a function does answer as one that returns nothing else. */
  lemma StillFaithful(m: Module, c: string, g: Function, o: Callees)
    requires hide *; FaithfulTo(m, o) && c in m && Safe(m, m[c].f, g)
    ensures FaithfulTo(m[c := m[c].(f := g)], o)
  {
    hide Run;
    var m' := m[c := m[c].(f := g)];
    hide Run, L.GlobalsOnly;
    forall c', xs: seq<i32>, slots: map<nat, i32>, w: World, n: nat |
      c' in m' && m'[c'].returnsInt && |xs| == m'[c'].params
      ensures AnswersAs(o, c', xs, w, Run(m'[c'].f, xs, o, From(slots, World(w.globals, [])), n))
    {
      if c' == c {
        var d, w0 := Run(g, xs, o, From(slots, World(w.globals, [])), n), World(w.globals, []);
        if d.Done? {
          assert ReturnsWith(g, xs, o, slots, w0, n, d.result, d.world.globals);
          assert Returns(m[c].f, xs, o, slots, w0, d.result, d.world.globals);
          var k: nat :| ReturnsWith(m[c].f, xs, o, slots, w0, k, d.result, d.world.globals);
          assert AnswersAs(o, c, xs, w, Run(m[c].f, xs, o, From(slots, World(w.globals, [])), k));
        }
      }
    }
  }

  lemma EndsOn(m: Module, m': Module, c: string, xs: seq<i32>, o: Callees, slots: map<nat, i32>, w: World)
    requires hide *; c in m && c in m' && EndsFrom(m[c].f, xs, o, slots, w) && NothingNew(m', m, o)
    ensures EndsFrom(m'[c].f, xs, o, slots, w)
  {
    hide Run;
    var n: nat :| Run(m[c].f, xs, o, From(slots, w), n).Done?;
    var d := Run(m[c].f, xs, o, From(slots, w), n);
    assert ReturnsWith(m[c].f, xs, o, slots, w, n, d.result, d.world.globals);
    assert Returns(m'[c].f, xs, o, slots, w, d.result, d.world.globals);
  }

  /** A function that can be copied has no calls. */
  lemma {:induction false} SafeHasNoCalls(f: Function, n: nat, k: nat)
    requires hide *; SafeToInline(f, n) && k <= |f.blocks|
    ensures CountAll(f, k, AnyCall) == 0
    decreases k
  {
    hide AllLocal, Count, Dst, TermUses, Uses;
    if k > 0 {
      SafeHasNoCalls(f, n, k - 1);
      var insts := f.blocks[k - 1].insts;
      forall i | i in insts ensures Hit(AnyCall, i) == 0 {
        var j :| 0 <= j < |insts| && insts[j] == i;
        assert !f.blocks[k - 1].insts[j].Call?;
      }
      CountNone(insts, AnyCall);
    }
  }

  /** One function more. */
  lemma ModuleStep(m0: Module, m: Module, c: string, g: Function)
    requires hide *; SameHeaders(m0, m) && ModuleSafe(m0, m) && ModuleComplete(m0, m) && c in m
    requires Safe(m, m[c].f, g) && Complete(m, m[c].f, g)
    requires CountAll(m[c].f, |m[c].f.blocks|, AnyCall) == 0 ==> g == m[c].f
    ensures var m' := m[c := m[c].(f := g)]; SameHeaders(m0, m') && ModuleSafe(m0, m') && ModuleComplete(m0, m')
  {
    hide CountAll, FaithfulTo, MayBeInlined, Returns, Run;
    var m' := m[c := m[c].(f := g)];
    forall o: Callees | FaithfulTo(m0, o) ensures FaithfulTo(m', o) && NothingNew(m0, m', o) {
      hide FaithfulTo, Returns, Complete, ModuleComplete, CountAll;
      StillFaithful(m, c, g, o);
    }
    forall o: Callees | FaithfulTo(m0, o) && InlinedReturn(m0, m', o) ensures NothingNew(m', m0, o) {
      hide FaithfulTo, Returns, CountAll, EndsFrom, MayBeInlined;
      NowReturns(m0, m, c, g, o);
      assert FaithfulTo(m, o) && NothingNew(m, m0, o);
    }
  }

  /** What may be inlined later could be inlined from the beginning. */
  lemma NowReturns(m0: Module, m: Module, c: string, g: Function, o: Callees)
    requires hide *; SameHeaders(m0, m) && ModuleComplete(m0, m) && c in m && FaithfulTo(m0, o)
    requires CountAll(m[c].f, |m[c].f.blocks|, AnyCall) == 0 ==> g == m[c].f
    requires InlinedReturn(m0, m[c := m[c].(f := g)], o)
    ensures InlinedReturn(m0, m, o) && AllReturn(m, o)
  {
    hide AllLocal, CountAll, FaithfulTo, Returns, Run;
    var m' := m[c := m[c].(f := g)];
    hide FaithfulTo, Returns, CountAll, EndsFrom, SafeToInline;
    forall c', xs: seq<i32>, slots: map<nat, i32>, w: World |
      c' in m0 && c' in m && m[c'].returnsInt && MayBeInlined(m[c'], xs)
      ensures EndsFrom(m0[c'].f, xs, o, slots, w)
    {
      SafeHasNoCalls(m[c'].f, m[c'].params, |m[c'].f.blocks|);
      assert m'[c'] == m[c'];
    }
    forall c', xs: seq<i32>, slots: map<nat, i32>, w: World | c' in m && m[c'].returnsInt && MayBeInlined(m[c'], xs)
      ensures EndsFrom(m[c'].f, xs, o, slots, w)
    {
      EndsOn(m0, m, c', xs, o, slots, w);
    }
  }

  lemma OneReplaced(m: Module, base: nat, c: string, g: Function, more: nat)
    requires hide *; AllPlain(m) && AllCallers(m, base) && c in m && base <= more
    requires Caller(g, more) && Plain(g, m[c].params)
    ensures AllPlain(m[c := m[c].(f := g)]) && AllCallers(m[c := m[c].(f := g)], more)
  {
    hide Caller, Plain;
    forall d | d in m ensures Caller(m[d].f, more) {
      CallerAbove(m[d].f, base, more);
    }
  }

  lemma CallerAbove(f: Function, base: nat, more: nat)
    requires Caller(f, base) && base <= more
    ensures Caller(f, more)
  {
    hide CallsUnique, NoPhisIn, TargetsWithin;
    forall b | 0 <= b < |f.blocks| ensures L.BlockBelow(f.blocks[b], more) {
      assert L.BlockBelow(f.blocks[b], base);
    }
  }

  /** Function `c` alone changed, and no call in it could still be replaced, unless it had too many calls. */
  ghost predicate OneInlined(m: Module, c: string, m': Module) {
    && c in m && c in m' && m' == m[c := m[c].(f := m'[c].f)]
    && (CountAll(m[c].f, |m[c].f.blocks|, AnyCall) < 100000 ==> forall b: nat, k: nat :: !Eligible(m, c, m'[c].f, b, k))
  }

  /** One function after another. */
  ghost predicate AllInlined(m0: Module, names: seq<string>, m: Module) {
    if names == [] then m == m0
    else
      var n := |names| - 1;
      exists h: Module :: AllInlined(m0, names[..n], h) && OneInlined(h, names[n], m)
  }

  lemma OneMoreInlined(m0: Module, names: seq<string>, n: nat, m: Module, g: Function)
    requires hide *; n < |names| && AllInlined(m0, names[..n], m) && names[n] in m
    requires CountAll(m[names[n]].f, |m[names[n]].f.blocks|, AnyCall) < 100000 ==>
               forall b: nat, k: nat :: !Eligible(m, names[n], g, b, k)
    ensures AllInlined(m0, names[..n + 1], m[names[n] := m[names[n]].(f := g)])
  {
    hide Eligible, CountAll;
    assert names[..n + 1][..n] == names[..n];
    assert OneInlined(m, names[n], m[names[n] := m[names[n]].(f := g)]);
  }

  lemma NoneInlined(m: Module, names: seq<string>)
    ensures hide *; AllInlined(m, names[..0], m)
  {
    assert names[..0] == [];
  }

  /** The pass over a module, function by function; what was inlined into one function may be inlined with it into
      later ones. Afterwards every function returns what it returned before and nothing else, if those that were
      inlined return; and nothing that could be inlined when a function had its turn is left in it. */
  method InlineFunctions(m0: Module, names: seq<string>, base: nat) returns (m: Module, more: nat)
    requires AllPlain(m0) && AllCallers(m0, base) && forall c :: c in names ==> c in m0
    ensures AllPlain(m) && AllCallers(m, more) && SameHeaders(m0, m)
    ensures ModuleSafe(m0, m) && ModuleComplete(m0, m) && AllInlined(m0, names, m)
  {
    hide Caller, CountAll, Eligible, Plain, Run, SafeToInline, AllPlain, AllCallers, Safe, Complete, ModuleSafe,
         ModuleComplete, AllInlined;
    m, more := m0, base;
    ModuleSelf(m0);
    NoneInlined(m0, names);
    var n := 0;
    while n < |names|
      invariant 0 <= n <= |names| && AllPlain(m) && AllCallers(m, more) && SameHeaders(m0, m)
      invariant ModuleSafe(m0, m) && ModuleComplete(m0, m) && AllInlined(m0, names[..n], m)
    {
      var c := names[n];
      assert c in names;
      CallerOf(m, more, c);
      var g, next := InlineInto(m, c, more);
      ModuleStep(m0, m, c, g);
      OneReplaced(m, more, c, g, next);
      OneMoreInlined(m0, names, n, m, g);
      m, more := m[c := m[c].(f := g)], next;
      n := n + 1;
    }
    assert names[..n] == names;
  }

  lemma CallerOf(m: Module, base: nat, c: string)
    requires hide *; AllCallers(m, base) && c in m
    ensures Caller(m[c].f, base)
  {
    hide CallsUnique, L.Below, TargetsWithin;
  }
}
