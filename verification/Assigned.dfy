/** Functions that do not see what their variables hold at first: those in which every use of a variable lies behind an
    assignment to it, on all paths. */
module Assigned {
  import opened Int32
  import opened Ast
  import opened Lookups
  import opened Sema
  import Ir

  // ----- uses behind assignments -----

  /** The variables of the expression are among `d`. */
  predicate Covered(e: Expr, d: set<nat>) {
    match e
    case Ident(_, Variable(id), _) => id in d
    case Binary(_, l, r) => Covered(l, d) && Covered(r, d)
    case Unary(_, a) => Covered(a, d)
    case Call(_, args, _) => forall i :: 0 <= i < |args| ==> Covered(args[i], d)
    case _ => true
  }

  /** What is assigned where two ways meet; a way that is not taken has no say. */
  function Meet(a: Ir.Option<set<nat>>, b: Ir.Option<set<nat>>): Ir.Option<set<nat>> {
    if a.None? then b else if b.None? then a else Ir.Some(a.value * b.value)
  }

  /** What is assigned behind a statement, if `d` is assigned before it; nothing can be said of a statement that does
      not complete. */
  function After(s: Stmt, d: set<nat>, consts: Consts): Ir.Option<set<nat>>
    decreases s, 1
  {
    if Returns(s, consts) then Ir.None
    else
      match s
      case Block(body) => AfterAll(body, d, consts)
      case Assign(_, Variable(id), _) => Ir.Some(d + {id})
      case VarDecl(id, _, _) => Ir.Some(d + {id})
      case If(_, _, _) => AfterIf(s, d, consts)
      case Break => Ir.None
      case Continue => Ir.None
      case _ => Ir.Some(d)
  }

  function AfterIf(s: Stmt, d: set<nat>, consts: Consts): Ir.Option<set<nat>>
    requires s.If?
    decreases s, 0
  {
    Meet(After(s.thenBranch, d, consts),
         if s.elseBranch.Some? then After(s.elseBranch.value, d, consts) else Ir.Some(d))
  }

  function AfterAll(ss: seq<Stmt>, d: set<nat>, consts: Consts): Ir.Option<set<nat>>
    decreases ss
  {
    if ss == [] then Ir.Some(d)
    else
      match AfterAll(ss[..|ss| - 1], d, consts)
      case None => Ir.None
      case Some(d1) => After(ss[|ss| - 1], d1, consts)
  }

  /** If `d` is assigned before the statement, then every use of a variable in it lies behind an assignment. */
  predicate Behind(s: Stmt, d: set<nat>, consts: Consts) {
    match s
    case Block(body) => AllBehind(body, d, consts)
    case ExprStmt(e) => Covered(e, d)
    case Assign(_, _, e) => Covered(e, d)
    case VarDecl(_, e, _) => Covered(e, d)
    case If(c, s1, s2) =>
      Covered(c, d) && Behind(s1, d, consts) && (s2.Some? ==> Behind(s2.value, d, consts))
    case While(c, b) => Covered(c, d) && Behind(b, d, consts)
    case Return(Some(e)) => Covered(e, d)
    case _ => true
  }

  predicate AllBehind(ss: seq<Stmt>, d: set<nat>, consts: Consts) {
    || ss == []
    || (&& AllBehind(ss[..|ss| - 1], d, consts)
        && match AfterAll(ss[..|ss| - 1], d, consts)
           case None => true
           case Some(d1) => Behind(ss[|ss| - 1], d1, consts))
  }

  lemma {:induction false} AfterGrows(s: Stmt, d: set<nat>, consts: Consts)
    requires hide *; After(s, d, consts).Some?
    ensures d <= After(s, d, consts).value
    decreases s, 0
  {
    hide AfterAll, ConstOf, ContainsBreak;
    match s
    case Block(body) =>
      assert body[..|body|] == body;
      AllGrow(body, |body|, d, consts);
    case If(_, s1, s2) =>
      if After(s1, d, consts).Some? {
        AfterGrows(s1, d, consts);
      }
      if s2.Some? && After(s2.value, d, consts).Some? {
        AfterGrows(s2.value, d, consts);
      }
    case _ =>
  }

  lemma {:induction false} AllGrow(ss: seq<Stmt>, n: nat, d: set<nat>, consts: Consts)
    requires hide *; n <= |ss| && AfterAll(ss[..n], d, consts).Some?
    ensures d <= AfterAll(ss[..n], d, consts).value
    decreases ss, n
  {
    hide After;
    if n > 0 {
      assert ss[..n][..n - 1] == ss[..n - 1];
      AllGrow(ss, n - 1, d, consts);
      AfterGrows(ss[n - 1], AfterAll(ss[..n - 1], d, consts).value, consts);
    }
  }

  // ----- two executions -----

  /** The same world, and the same values in the variables `d`. */
  ghost predicate Agree(d: set<nat>, st: State, st': State) {
    st.world == st'.world && forall id :: id in d ==> Ir.Get(st.locals, id) == Ir.Get(st'.locals, id)
  }

  lemma {:induction false} EvalAgrees(e: Expr, d: set<nat>, consts: Consts, callees: Ir.Callees, st: State, st': State)
    requires Covered(e, d) && Agree(d, st, st')
    ensures Eval(e, consts, callees, st).0 == Eval(e, consts, callees, st').0
    ensures Agree(d, Eval(e, consts, callees, st).1, Eval(e, consts, callees, st').1)
    decreases e, 0
  {
    hide Arith, EvalArgs, Sign;
    match e
    case Binary(op, l, r) =>
      EvalAgrees(l, d, consts, callees, st, st');
      EvalAgrees(r, d, consts, callees, Eval(l, consts, callees, st).1, Eval(l, consts, callees, st').1);
    case Unary(_, a) => EvalAgrees(a, d, consts, callees, st, st');
    case Call(f, args, _) => ArgsAgree(args, |args|, d, consts, callees, st, st');
      assert args[..|args|] == args;
    case _ =>
  }

  lemma {:induction false} ArgsAgree(args: seq<Expr>, n: nat, d: set<nat>, consts: Consts, callees: Ir.Callees,
                                     st: State, st': State)
    requires hide *; n <= |args| && (forall i :: 0 <= i < |args| ==> Covered(args[i], d)) && Agree(d, st, st')
    ensures EvalArgs(args[..n], consts, callees, st).0 == EvalArgs(args[..n], consts, callees, st').0
    ensures Agree(d, EvalArgs(args[..n], consts, callees, st).1, EvalArgs(args[..n], consts, callees, st').1)
    decreases args, n
  {
    hide Agree, Covered, Eval;
    if n > 0 {
      assert args[..n][..n - 1] == args[..n - 1];
      ArgsAgree(args, n - 1, d, consts, callees, st, st');
      EvalAgrees(args[n - 1], d, consts, callees, EvalArgs(args[..n - 1], consts, callees, st).1,
                 EvalArgs(args[..n - 1], consts, callees, st').1);
    }
  }

  /** Two executions end alike, and agree on what was assigned before; behind a statement that completed, on what is
      assigned there. */
  ghost predicate EndAlike(d: set<nat>, after: Ir.Option<set<nat>>, r: (Outcome, State), r': (Outcome, State)) {
    && r.0 == r'.0 && Agree(d, r.1, r'.1)
    && (r.0.Normal? ==> after.Some? && Agree(after.value, r.1, r'.1))
  }

  lemma {:induction false} ExecAgrees(s: Stmt, d: set<nat>, fuel: nat, consts: Consts, callees: Ir.Callees, st: State,
                                      st': State)
    requires Behind(s, d, consts) && Agree(d, st, st')
    ensures EndAlike(d, After(s, d, consts), Exec(s, fuel, consts, callees, st), Exec(s, fuel, consts, callees, st'))
    decreases fuel, s, 1
  {
    hide AfterIf, ConstOf, Eval;
    if Returns(s, consts) {
      ReturnsIsSound(s, fuel, consts, callees, st);
    }
    match s
    case Block(body) =>
      assert body[..|body|] == body;
      AllAgree(body, |body|, d, fuel, consts, callees, st, st');
    case ExprStmt(e) => EvalAgrees(e, d, consts, callees, st, st');
    case Assign(_, _, e) => EvalAgrees(e, d, consts, callees, st, st');
    case VarDecl(_, e, _) => EvalAgrees(e, d, consts, callees, st, st');
    case If(_, _, _) => BranchesAgree(s, d, fuel, consts, callees, st, st');
    case While(_, _) => LoopAgrees(s, d, fuel, consts, callees, st, st');
    case Return(Some(e)) => EvalAgrees(e, d, consts, callees, st, st');
    case _ =>
  }

  lemma {:induction false} BranchesAgree(s: Stmt, d: set<nat>, fuel: nat, consts: Consts, callees: Ir.Callees,
                                         st: State, st': State)
    requires hide *; s.If? && Behind(s, d, consts) && Agree(d, st, st')
    ensures EndAlike(d, AfterIf(s, d, consts), Exec(s, fuel, consts, callees, st), Exec(s, fuel, consts, callees, st'))
    decreases fuel, s, 0
  {
    hide Eval, Returns;
    EvalAgrees(s.cond, d, consts, callees, st, st');
    var st1, st1' := Eval(s.cond, consts, callees, st).1, Eval(s.cond, consts, callees, st').1;
    hide Returns, Eval, Covered;
    ExecAgrees(s.thenBranch, d, fuel, consts, callees, st1, st1');
    if s.elseBranch.Some? {
      ExecAgrees(s.elseBranch.value, d, fuel, consts, callees, st1, st1');
    }
  }

  lemma {:induction false} LoopAgrees(s: Stmt, d: set<nat>, fuel: nat, consts: Consts, callees: Ir.Callees,
                                      st: State, st': State)
    requires s.While? && Behind(s, d, consts) && Agree(d, st, st')
    ensures EndAlike(d, Ir.Some(d), Exec(s, fuel, consts, callees, st), Exec(s, fuel, consts, callees, st'))
    decreases fuel, s, 0
  {
    hide After, AllBehind, Arith;
    if fuel > 0 {
      EvalAgrees(s.cond, d, consts, callees, st, st');
      var st1, st1' := Eval(s.cond, consts, callees, st).1, Eval(s.cond, consts, callees, st').1;
      ExecAgrees(s.loopBody, d, fuel - 1, consts, callees, st1, st1');
      LoopAgrees(s, d, fuel - 1, consts, callees, Exec(s.loopBody, fuel - 1, consts, callees, st1).1,
                 Exec(s.loopBody, fuel - 1, consts, callees, st1').1);
    }
  }

  lemma {:induction false} AllAgree(ss: seq<Stmt>, n: nat, d: set<nat>, fuel: nat, consts: Consts,
                                    callees: Ir.Callees, st: State, st': State)
    requires hide *; n <= |ss| && AllBehind(ss[..n], d, consts) && Agree(d, st, st')
    ensures EndAlike(d, AfterAll(ss[..n], d, consts), ExecAll(ss[..n], fuel, consts, callees, st),
                     ExecAll(ss[..n], fuel, consts, callees, st'))
    decreases fuel, ss, n
  {
    hide After, Behind, Exec;
    if n > 0 {
      assert ss[..n][..n - 1] == ss[..n - 1];
      AllAgree(ss, n - 1, d, fuel, consts, callees, st, st');
      var r, r' := ExecAll(ss[..n - 1], fuel, consts, callees, st), ExecAll(ss[..n - 1], fuel, consts, callees, st');
      if r.0.Normal? {
        var d1 := AfterAll(ss[..n - 1], d, consts).value;
        ExecAgrees(ss[n - 1], d1, fuel, consts, callees, r.1, r'.1);
        AllGrow(ss, n - 1, d, consts);
      }
    }
  }

  // ----- whole functions -----

  function Params(f: FuncDef): set<nat> {
    set id | id in f.params
  }

  /** Every use of a variable lies behind its declaration, or behind another assignment to it, on all paths. */
  predicate AssignsFirst(f: FuncDef, consts: Consts) {
    Behind(Block(f.body), Params(f), consts)
  }

  lemma {:induction false} BindAgrees(locals: map<nat, i32>, locals': map<nat, i32>, params: seq<nat>, args: seq<i32>,
                                      id: nat)
    requires id in params
    ensures Ir.Get(Bind(locals, params, args), id) == Ir.Get(Bind(locals', params, args), id)
  {
    var n := |params| - 1;
    if id != params[n] {
      assert id in params[..n];
      BindAgrees(locals, locals', params[..n], args, id);
    }
  }

  /** Then what a call does not depend on what the variables hold at first. */
  lemma AssigningFirstIsBlind(f: FuncDef, args: seq<i32>, fuel: nat, consts: Consts, callees: Ir.Callees, st: State,
                              st': State)
    requires AssignsFirst(f, consts) && st.world == st'.world
    ensures RunCall(f, args, fuel, consts, callees, st) == RunCall(f, args, fuel, consts, callees, st')
  {
    hide After, Behind, Eval;
    var first := st.(locals := Bind(st.locals, f.params, args));
    var first' := st'.(locals := Bind(st'.locals, f.params, args));
    forall id | id in Params(f) ensures Ir.Get(first.locals, id) == Ir.Get(first'.locals, id) {
      BindAgrees(st.locals, st'.locals, f.params, args, id);
    }
    ExecAgrees(Block(f.body), Params(f), fuel, consts, callees, first, first');
  }

  // ----- from the scopes -----

  /** No branch and no loop body is itself the declaration of a variable. */
  predicate Braced(s: Stmt) {
    match s
    case Block(body) => forall i :: 0 <= i < |body| ==> Braced(body[i])
    case If(_, s1, s2) => Closed(s1) && Braced(s1) && (s2.Some? ==> Closed(s2.value) && Braced(s2.value))
    case While(_, b) => Closed(b) && Braced(b)
    case _ => true
  }

  /** The statement leaves no variable in scope. */
  predicate Closed(s: Stmt) {
    forall d :: d in Introduces(s) ==> !d.Variable?
  }

  /** The variables in scope are assigned. */
  ghost predicate ScopeAssigned(scope: set<Decl>, d: set<nat>) {
    forall id :: Variable(id) in scope ==> id in d
  }

  lemma {:induction false} ResolvedIsCovered(e: Expr, scope: set<Decl>, d: set<nat>)
    requires Resolves(e, scope) && ScopeAssigned(scope, d)
    ensures Covered(e, d)
    decreases e, 0
  {
    match e
    case Binary(_, l, r) =>
      ResolvedIsCovered(l, scope, d);
      ResolvedIsCovered(r, scope, d);
    case Unary(_, a) => ResolvedIsCovered(a, scope, d);
    case Call(_, args, _) =>
      assert args[..|args|] == args;
      ArgsAreCovered(args, |args|, scope, d);
    case _ =>
  }

  lemma {:induction false} ArgsAreCovered(args: seq<Expr>, n: nat, scope: set<Decl>, d: set<nat>)
    requires n <= |args| && AllResolve(args[..n], scope) && ScopeAssigned(scope, d)
    ensures forall i :: 0 <= i < n ==> Covered(args[i], d)
    decreases args, n
  {
    if n > 0 {
      assert args[..n][..n - 1] == args[..n - 1];
      ArgsAreCovered(args, n - 1, scope, d);
      ResolvedIsCovered(args[n - 1], scope, d);
    }
  }

  /** The scope behind a statement that completes. */
  ghost predicate AssignedBehind(scope: set<Decl>, after: Ir.Option<set<nat>>) {
    after.Some? ==> ScopeAssigned(scope, after.value)
  }

  lemma {:induction false} TidyIsBehind(s: Stmt, scope: set<Decl>, d: set<nat>, consts: Consts)
    requires Tidy(s, scope, consts) && Braced(s) && ScopeAssigned(scope, d)
    ensures Behind(s, d, consts) && AssignedBehind(scope + Introduces(s), After(s, d, consts))
    decreases s, 1
  {
    hide ConstOf, FaultAgain, Faults, Resolves;
    if After(s, d, consts).Some? {
      AfterGrows(s, d, consts);
    }
    match s
    case Block(body) =>
      assert body[..|body|] == body;
      AllTidyBehind(body, |body|, scope, d, consts);
    case ExprStmt(e) => ResolvedIsCovered(e, scope, d);
    case Assign(_, _, e) => ResolvedIsCovered(e, scope, d);
    case VarDecl(_, e, _) => ResolvedIsCovered(e, scope, d);
    case If(c, s1, s2) =>
      ResolvedIsCovered(c, scope, d);
      TidyIsBehind(s1, scope, d, consts);
      if s2.Some? {
        TidyIsBehind(s2.value, scope + Introduces(s1), d, consts);
      }
    case While(c, b) =>
      ResolvedIsCovered(c, scope, d);
      TidyIsBehind(b, scope, d, consts);
    case Return(Some(e)) => ResolvedIsCovered(e, scope, d);
    case _ =>
  }

  lemma {:induction false} AllTidyBehind(ss: seq<Stmt>, n: nat, scope: set<Decl>, d: set<nat>, consts: Consts)
    requires hide *; n <= |ss| && AllTidy(ss[..n], scope, consts) && (forall i :: 0 <= i < |ss| ==> Braced(ss[i]))
    requires ScopeAssigned(scope, d)
    ensures AllBehind(ss[..n], d, consts)
    ensures AssignedBehind(scope + IntroducesAll(ss[..n]), AfterAll(ss[..n], d, consts))
    ensures !Visits(ss, n, consts) ==> AfterAll(ss[..n], d, consts).None?
    decreases ss, n
  {
    if n > 0 {
      assert ss[..n][..n - 1] == ss[..n - 1];
      AllTidyBehind(ss, n - 1, scope, d, consts);
      assert Visits(ss[..n], n - 1, consts) <==> Visits(ss, n - 1, consts);
      var front := AfterAll(ss[..n - 1], d, consts);
      if front.Some? {
        var inner := scope + IntroducesAll(ss[..n - 1]);
        TidyIsBehind(ss[n - 1], inner, front.value, consts);
        assert scope + IntroducesAll(ss[..n]) == inner + Introduces(ss[n - 1]);
      }
    }
  }

  /** An accepted function in which no branch and no loop body is itself the declaration of a variable. */
  lemma BracedAssignsFirst(f: FuncDef, returnsInt: bool, scope: set<Decl>, consts: Consts)
    requires CleanFunction(f, returnsInt, scope, consts) && Braced(Block(f.body))
    requires forall id: nat :: Variable(id) !in scope
    ensures AssignsFirst(f, consts)
  {
    hide Accepted, After, Behind, Returns, Tidy;
    TidyIsBehind(Block(f.body), scope + ParamNames(f.params), Params(f), consts);
  }

  // ----- a function that does see what a variable holds at first -----

  /** `int f(int a) { if (a) int x = 1; return x; }` */
  function Peeking(): FuncDef {
    FuncDef([0], [If(Ident(0, Variable(0), Variable(0)), VarDecl(1, IntLiteral(1), false), Ir.None),
                  Return(Ir.Some(Ident(1, Variable(1), Variable(1))))], false)
  }

  lemma PeekingRuns(fuel: nat, consts: Consts, callees: Ir.Callees, st: State)
    ensures hide Bind, ExecAll; RunCall(Peeking(), [0], fuel, consts, callees, st)
         == Ir.Some((Ir.Some(Ir.Get(st.locals, 1)), st.world))
  {
    var body := Peeking().body;
    assert |body| == 2 && body[..2] == body && body[..2][..1] == body[..1] && body[..1][..0] == [];
    assert [0][..0] == [];
    var first := st.(locals := st.locals[0 := 0]);
    assert Bind(st.locals, [], [0]) == st.locals;
    assert Bind(st.locals, [0], [0]) == st.locals[0 := 0];
    assert ExecAll(body[..0], fuel, consts, callees, first) == (Normal, first);
    assert Exec(body[0], fuel, consts, callees, first) == (Normal, first);
    assert ExecAll(body[..1], fuel, consts, callees, first) == (Normal, first);
    var result := (Returned(Ir.Some(Ir.Get(st.locals, 1))), first);
    assert Exec(body[1], fuel, consts, callees, first) == result;
    assert ExecAll(body, fuel, consts, callees, first) == result;
  }

  /** It is accepted, but not every use of a variable lies behind an assignment, and it returns what the variable
      happens to hold. */
  lemma PeekingIsNotBlind(callees: Ir.Callees, w: Ir.World)
    ensures hide Accepted, Behind, ExecAll, Returns, Tidy;
            CleanFunction(Peeking(), true, {}, map[]) && !AssignsFirst(Peeking(), map[])
    ensures RunCall(Peeking(), [0], 0, map[], callees, Fresh(w)) == Ir.Some((Ir.Some(0), w))
    ensures RunCall(Peeking(), [0], 0, map[], callees, State(map[1 := 1], w)) == Ir.Some((Ir.Some(1), w))
  {
    hide AssignsFirst, CleanFunction, RunCall;
    PeekingRuns(0, map[], callees, Fresh(w));
    PeekingRuns(0, map[], callees, State(map[1 := 1], w));
    if AssignsFirst(Peeking(), map[]) {
      AssigningFirstIsBlind(Peeking(), [0], 0, map[], callees, Fresh(w), State(map[1 := 1], w));
      assert false;
    }
    PeekingIsClean();
  }

  lemma PeekingIsClean()
    ensures CleanFunction(Peeking(), true, {}, map[])
  {
    var body := Peeking().body;
    assert Returns(body[1], map[]);
    assert body[..2] == body && body[..2][..1] == body[..1] && body[..1][..0] == [];
    assert AllTidy([], {} + ParamNames([0]), map[]);
    assert [0][0] == 0 && Variable(0) in {} + ParamNames([0]);
    assert Tidy(body[0], {} + ParamNames([0]), map[]);
    assert AllTidy(body[..1], {} + ParamNames([0]), map[]);
    assert IntroducesAll(body[..1]) == {Variable(1)};
  }
}
