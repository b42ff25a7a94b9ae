/** Conditions of loops are evaluated again behind the body, with their names looked up again. A body that is a
    declaration without braces leaves a name in the scope around the loop, and may capture one of the condition. */
module Conditions {
  import opened Int32
  import opened Ast
  import opened Lookups
  import opened Sema
  import Ir
  import Resolution
  import Syntax

  /** In order when every condition is evaluated once only. */
  predicate TidyOnce(s: Stmt, scope: set<Decl>, consts: Consts) {
    match s
    case Block(body) => AllTidyOnce(body, scope, consts)
    case If(c, s1, s2) =>
      && Proper(c, scope, consts) && TidyOnce(s1, scope, consts)
      && (s2.Some? ==> TidyOnce(s2.value, scope + Introduces(s1), consts))
    case While(c, b) => Proper(c, scope, consts) && TidyOnce(b, scope, consts)
    case _ => Tidy(s, scope, consts)
  }

  predicate AllTidyOnce(ss: seq<Stmt>, scope: set<Decl>, consts: Consts) {
    || ss == []
    || (&& AllTidyOnce(ss[..|ss| - 1], scope, consts)
        && (Visits(ss, |ss| - 1, consts) ==>
              TidyOnce(ss[|ss| - 1], scope + IntroducesAll(ss[..|ss| - 1]), consts)))
  }

  /** No visited condition comes to a division by zero behind its body. */
  predicate Calm(s: Stmt, scope: set<Decl>, consts: Consts) {
    match s
    case Block(body) => AllCalm(body, scope, consts)
    case If(_, s1, s2) => Calm(s1, scope, consts) && (s2.Some? ==> Calm(s2.value, scope + Introduces(s1), consts))
    case While(c, b) => Calm(b, scope, consts) && !FaultAgain(c, scope + Introduces(b), consts)
    case _ => true
  }

  predicate AllCalm(ss: seq<Stmt>, scope: set<Decl>, consts: Consts) {
    || ss == []
    || (&& AllCalm(ss[..|ss| - 1], scope, consts)
        && (Visits(ss, |ss| - 1, consts) ==> Calm(ss[|ss| - 1], scope + IntroducesAll(ss[..|ss| - 1]), consts)))
  }

  /** The second evaluation changes nothing exactly if it comes to no division by zero. */
  lemma {:induction false} TidyIffCalm(s: Stmt, scope: set<Decl>, consts: Consts)
    ensures Tidy(s, scope, consts) <==> TidyOnce(s, scope, consts) && Calm(s, scope, consts)
  {
    hide ConstOf, FaultAgain, Proper, Visits;
    match s
    case Block(body) => AllTidyIffCalm(body, scope, consts);
    case If(_, s1, s2) =>
      TidyIffCalm(s1, scope, consts);
      if s2.Some? {
        TidyIffCalm(s2.value, scope + Introduces(s1), consts);
      }
    case While(_, b) => TidyIffCalm(b, scope, consts);
    case _ =>
  }

  lemma {:induction false} AllTidyIffCalm(ss: seq<Stmt>, scope: set<Decl>, consts: Consts)
    ensures AllTidy(ss, scope, consts) <==> AllTidyOnce(ss, scope, consts) && AllCalm(ss, scope, consts)
  {
    hide ConstOf, FaultAgain, Proper, Tidy, TidyOnce, Visits;
    if ss != [] {
      AllTidyIffCalm(ss[..|ss| - 1], scope, consts);
      TidyIffCalm(ss[|ss| - 1], scope + IntroducesAll(ss[..|ss| - 1]), consts);
    }
  }

  /** What the analysis would accept if it evaluated conditions once. */
  predicate CleanOnce(f: FuncDef, returnsInt: bool, scope: set<Decl>, consts: Consts) {
    !f.again && Accepted(f, returnsInt, consts) && TidyOnce(Block(f.body), scope + ParamNames(f.params), consts)
  }

  /** A function is accepted exactly if it would be accepted with one evaluation, and no condition faults behind its
      body. */
  lemma CleanIffCalm(f: FuncDef, returnsInt: bool, scope: set<Decl>, consts: Consts)
    ensures CleanFunction(f, returnsInt, scope, consts)
            <==> CleanOnce(f, returnsInt, scope, consts) && Calm(Block(f.body), scope + ParamNames(f.params), consts)
  {
    hide Accepted, Calm, ConstOf, FaultAgain, Proper, Tidy, TidyOnce, Visits;
    TidyIffCalm(Block(f.body), scope + ParamNames(f.params), consts);
  }

  /** No body leaves a constant in scope that captures a name of its condition. */
  predicate NoneCaptured(s: Stmt, scope: set<Decl>) {
    match s
    case Block(body) => AllUncaptured(body, scope)
    case If(_, s1, s2) => NoneCaptured(s1, scope) && (s2.Some? ==> NoneCaptured(s2.value, scope + Introduces(s1)))
    case While(c, b) => NoneCaptured(b, scope) && Uncaptured(c, scope + Introduces(b))
    case _ => true
  }

  predicate AllUncaptured(ss: seq<Stmt>, scope: set<Decl>) {
    || ss == []
    || (AllUncaptured(ss[..|ss| - 1], scope) && NoneCaptured(ss[|ss| - 1], scope + IntroducesAll(ss[..|ss| - 1])))
  }

  lemma {:induction false} UncapturedIsCalm(s: Stmt, scope: set<Decl>, consts: Consts)
    requires TidyOnce(s, scope, consts) && NoneCaptured(s, scope)
    ensures Calm(s, scope, consts)
  {
    hide ConstAgain, ConstOf, Fault, FaultAgain, Faults, Resolves, Tidy, Visits;
    match s
    case Block(body) => AllUncapturedAreCalm(body, scope, consts);
    case If(_, s1, s2) =>
      UncapturedIsCalm(s1, scope, consts);
      if s2.Some? {
        UncapturedIsCalm(s2.value, scope + Introduces(s1), consts);
      }
    case While(c, b) =>
      UncapturedIsCalm(b, scope, consts);
      UncapturedIsSame(c, scope + Introduces(b), consts);
      NoFaults(c, consts);
    case _ =>
  }

  lemma {:induction false} AllUncapturedAreCalm(ss: seq<Stmt>, scope: set<Decl>, consts: Consts)
    requires AllTidyOnce(ss, scope, consts) && AllUncaptured(ss, scope)
    ensures AllCalm(ss, scope, consts)
  {
    hide Calm, IntroducesAll, NoneCaptured, TidyOnce, Visits;
    if ss != [] {
      AllUncapturedAreCalm(ss[..|ss| - 1], scope, consts);
      if Visits(ss, |ss| - 1, consts) {
        UncapturedIsCalm(ss[|ss| - 1], scope + IntroducesAll(ss[..|ss| - 1]), consts);
      }
    }
  }

  // ----- a function that is rejected for it -----

  /** `int main() { int c = 1; { while (1 / c) const int c = 0; } return 0; }` */
  function CapturingItem(): Syntax.Item<Syntax.Expr> {
    Syntax.Function(true, "main", [],
                    [Syntax.VarDecl("c", Syntax.IntLiteral("1")),
                     Syntax.Block([Syntax.While(Syntax.Binary(Div, Syntax.IntLiteral("1"), Syntax.Ident("c")),
                                                Syntax.ConstDecl("c", Syntax.IntLiteral("0")))]),
                     Syntax.Return(Ir.Some(Syntax.IntLiteral("0")))])
  }

  function Captured(): Stmt {
    While(Binary(Div, IntLiteral(1), Ident(1, Variable(0), Constant(2))), ConstDecl(2, IntLiteral(0), false))
  }

  function Capturing(): FuncDef {
    FuncDef([], [VarDecl(0, IntLiteral(1), false), Block([Captured()]), Return(Ir.Some(IntLiteral(0)))], false)
  }

  /** One statement more. */
  lemma NextResolved(ss: seq<Syntax.Stmt<Syntax.Expr>>, s: Syntax.Stmt<Syntax.Expr>, env: seq<Resolution.Scope>,
                     next: nat)
    requires hide *; env != []
    ensures var (front, env1, n1) := Resolution.ResolveAll(ss, env, next);
      var (last, env2, n2) := Resolution.ResolveStmt(s, env1, n1);
      Resolution.ResolveAll(ss + [s], env, next) == (front + [last], env2, n2)
  {
    hide Resolution.ResolveStmt;
    assert (ss + [s])[..|ss|] == ss;
  }

  lemma Digits()
    ensures Resolution.NumberValue("0") == 0 && Resolution.NumberValue("1") == 1
  {
    assert "0"[..0] == "" && "1"[..0] == "";
    assert Resolution.Natural("") == 0;
  }

  /** What the parser reads becomes this function. */
  lemma CapturingIsResolved()
    ensures hide Capturing, Resolution.ResolveFunction;
            Resolution.ResolveFunction(CapturingItem(), map[], 0).0 == Capturing()
  {
    var body := CapturingItem().body;
    var env: seq<Resolution.Scope> := [map["main" := Resolution.Function(0, true)], map[], map[]];
    var env1: seq<Resolution.Scope> := [env[0], env[1], map["c" := Resolution.Object(Variable(0))]];
    Digits();
    assert Resolution.ResolveExpr(Syntax.IntLiteral("1"), env, 0, true) == (IntLiteral(1), 0);
    assert Resolution.Enter(env, "c", Resolution.Object(Variable(0))) == env1;
    assert Resolution.ResolveStmt(body[0], env, 0) == (VarDecl(0, IntLiteral(1), false), env1, 1);
    CapturedIsResolved(env1);
    assert Resolution.ResolveExpr(Syntax.IntLiteral("0"), env1, 3, true) == (IntLiteral(0), 3);
    assert Resolution.ResolveStmt(body[2], env1, 3) == (Return(Ir.Some(IntLiteral(0))), env1, 3);
    NextResolved([], body[0], env, 0);
    NextResolved([body[0]], body[1], env, 0);
    NextResolved([body[0], body[1]], body[2], env, 0);
    assert [] + [body[0]] == [body[0]] && [body[0]] + [body[1]] == [body[0], body[1]]
           && [body[0], body[1]] + [body[2]] == body;
    assert Resolution.ResolveAll(body, env, 0).0 == Capturing().body;
    assert Resolution.ParamScope([], 0) == map[];
  }

  lemma CapturedIsResolved(env: seq<Resolution.Scope>)
    requires |env| == 3 && env[2] == map["c" := Resolution.Object(Variable(0))]
    ensures Resolution.ResolveStmt(CapturingItem().body[1], env, 1) == (Block([Captured()]), env, 3)
  {
    var body := CapturingItem().body[1].body;
    var inner: seq<Resolution.Scope> := env + [map[]];
    var behind: seq<Resolution.Scope> := env + [map["c" := Resolution.Object(Constant(2))]];
    Digits();
    assert inner[..3] == env && Resolution.Lookup(env, "c") == Ir.Some(env[2]["c"]);
    assert Resolution.Lookup(inner, "c") == Resolution.Lookup(inner[..3], "c");
    CondIsResolved(inner, behind);
    CondIsResolved(inner, inner);
    assert Resolution.ResolveExpr(Syntax.IntLiteral("0"), inner, 2, true) == (IntLiteral(0), 2);
    assert Resolution.Enter(inner, "c", Resolution.Object(Constant(2))) == behind;
    assert Resolution.ResolveStmt(body[0].loopBody, inner, 2) == (ConstDecl(2, IntLiteral(0), false), behind, 3);
    assert Resolution.ResolveStmt(body[0], inner, 1) == (Captured(), behind, 3);
    NextResolved([], body[0], inner, 1);
    assert [] + [body[0]] == body && [] + [Captured()] == [Captured()];
    assert Resolution.ResolveAll(body, inner, 1) == ([Captured()], behind, 3);
  }

  lemma CondIsResolved(env: seq<Resolution.Scope>, behind: seq<Resolution.Scope>)
    ensures Resolution.ResolveAgain(CapturingItem().body[1].body[0].cond, env, behind, 1, true)
         == (Binary(Div, IntLiteral(1), Ident(1, Resolution.Named(env, "c"), Resolution.Named(behind, "c"))), 2)
  {
    Digits();
    var one, c := Syntax.IntLiteral("1"), Syntax.Ident("c");
    assert Resolution.ResolveAgain(one, env, behind, 1, true) == (IntLiteral(1), 1);
    assert Resolution.ResolveAgain(c, env, behind, 1, true).1 == 2;
  }

  lemma {:induction false} TidyAt(ss: seq<Stmt>, i: nat, scope: set<Decl>, consts: Consts)
    requires hide *; AllTidy(ss, scope, consts) && i < |ss| && Visits(ss, i, consts)
    ensures Tidy(ss[i], scope + IntroducesAll(ss[..i]), consts)
  {
    hide ConstOf, FaultAgain, Proper, Returns;
    var n := |ss| - 1;
    if i < n {
      assert ss[..n][..i] == ss[..i];
      SameVisitsAt(ss, i, consts);
      TidyAt(ss[..n], i, scope, consts);
    }
  }

  lemma SameVisitsAt(ss: seq<Stmt>, i: nat, consts: Consts)
    requires hide *; i < |ss| && Visits(ss, i, consts)
    ensures Visits(ss[..|ss| - 1], i, consts)
  {
    hide Returns;
  }

  /** It is rejected, whatever the constants are, because behind the body `c` is the constant 0. */
  lemma CapturingIsRejected(consts: Consts)
    ensures !CleanFunction(Capturing(), true, {}, consts)
  {
    var body := Capturing().body;
    if CleanFunction(Capturing(), true, {}, consts) {
      var scope := {} + ParamNames([]) + IntroducesAll(body[..1]);
      assert !Returns(body[0], consts);
      TidyAt(body, 1, {} + ParamNames([]), consts);
      TidyAt([Captured()], 0, scope, consts);
      CapturedFaults(scope + IntroducesAll([]), consts);
    }
  }

  lemma CapturedFaults(scope: set<Decl>, consts: Consts)
    requires hide FaultAgain, TruncDiv; 2 in consts && consts[2] == 0
    ensures FaultAgain(Captured().cond, scope + {Constant(2)}, consts)
  {
    var cond := Captured().cond;
    assert ConstAgain(cond.rhs, scope + {Constant(2)}, consts) == Ir.Some(0);
    assert ConstAgain(cond.lhs, scope + {Constant(2)}, consts) == Ir.Some(1);
  }

  /** With one evaluation nothing would be wrong with it. */
  lemma CapturingIsCleanOnce()
    ensures hide CleanOnce; CleanOnce(Capturing(), true, {}, map[2 := 0])
  {
    hide Checked, ConstOf, Decides, Fault, FaultAgain;
    var body, consts := Capturing().body, map[2 := 0];
    var scope := {} + ParamNames([]);
    CapturedIsTidyOnce(scope + {Variable(0)});
    assert !Returns(body[0], consts) && Returns(body[2], consts);
    assert TidyOnce(body[0], scope, consts) && TidyOnce(body[2], scope + {Variable(0)}, consts);
    assert [] + [body[0]] == [body[0]] && [body[0]] + [body[1]] == [body[0], body[1]]
           && [body[0], body[1]] + [body[2]] == body;
    hide TidyOnce, Returns;
    NextTidyOnce([], body[0], scope, scope, consts);
    NextTidyOnce([body[0]], body[1], scope, scope + {Variable(0)}, consts);
    NextTidyOnce([body[0], body[1]], body[2], scope, scope + {Variable(0)}, consts);
    CapturingIsAccepted();
    assert TidyOnce(Block(body), scope, consts) by { BlockIsTidyOnce(body, scope, consts); }
  }

  lemma BlockIsTidyOnce(body: seq<Stmt>, scope: set<Decl>, consts: Consts)
    requires AllTidyOnce(body, scope, consts)
    ensures TidyOnce(Block(body), scope, consts)
  {
    hide Proper, Tidy, Visits;
  }

  lemma NextTidyOnce(ss: seq<Stmt>, s: Stmt, scope: set<Decl>, inside: set<Decl>, consts: Consts)
    requires AllTidyOnce(ss, scope, consts) && inside == scope + IntroducesAll(ss) && TidyOnce(s, inside, consts)
    ensures AllTidyOnce(ss + [s], scope, consts)
    ensures scope + IntroducesAll(ss + [s]) == inside + Introduces(s)
  {
    hide TidyOnce, Visits;
    assert (ss + [s])[..|ss|] == ss;
  }

  lemma CapturingIsAccepted()
    ensures hide Accepted; Accepted(Capturing(), true, map[2 := 0])
  {
    hide ConstOf, TidyOnce;
    var body, consts := Capturing().body, map[2 := 0];
    CapturedIsTidyOnce({Variable(0)});
    assert Returns(body[2], consts);
    forall i: nat | i < |body| && Visits(body, i, consts) ensures Checked(body[i], false, true, consts) {
      assert i == 1 ==> Checked(Captured(), false, true, consts);
    }
  }

  lemma CapturedIsTidyOnce(scope: set<Decl>)
    requires hide Checked, Returns, TidyOnce; Variable(0) in scope
    ensures TidyOnce(Block([Captured()]), scope, map[2 := 0]) && !Returns(Block([Captured()]), map[2 := 0])
    ensures Checked(Captured(), false, true, map[2 := 0])
  {
    var consts: Consts := map[2 := 0];
    var cond := Captured().cond;
    assert Resolves(cond.lhs, scope) && Resolves(cond.rhs, scope) && CallsFit(cond.lhs) && CallsFit(cond.rhs);
    assert ConstOf(cond.rhs, consts).None? && !Faults(cond.lhs, consts) && !Faults(cond.rhs, consts);
    assert !Fault(cond.lhs, consts) && !Fault(cond.rhs, consts);
    assert Proper(cond, scope, consts);
    assert Proper(IntLiteral(0), scope, consts) && ConstOf(IntLiteral(0), consts) == Ir.Some(0);
    assert TidyOnce(ConstDecl(2, IntLiteral(0), false), scope, consts);
    assert TidyOnce(Captured(), scope, consts) && !Returns(Captured(), consts);
    assert [Captured()][..0] == [] && IntroducesAll([]) == {};
    assert scope + IntroducesAll([]) == scope;
    assert AllTidyOnce([Captured()], scope, consts);
  }
}
