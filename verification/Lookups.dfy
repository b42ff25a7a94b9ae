/** What the generator looks up in the tables of the analysis, and when it finds all of it. */
module Lookups {
  import opened Ast
  import Shapes

  /** What the declaration of a use is, by the node of the use, and the value of a constant, by its declaration. */
  datatype Need = Use(node: nat) | ConstValue(id: nat)

  /** What is in the tables. */
  function Answers(uses: set<nat>, consts: Consts): set<Need> {
    (set n | n in uses :: Use(n)) + (set id | id in consts :: ConstValue(id))
  }

  // ----- expressions -----

  function ExprNeeds(e: Expr): set<Need> {
    match e
    case IntLiteral(_) => {}
    case Ident(n, _, _) => {Use(n)}
    case Binary(_, l, r) => ExprNeeds(l) + ExprNeeds(r)
    case Unary(_, a) => ExprNeeds(a)
    case Call(_, args, _) => ArgNeeds(args)
  }

  function ArgNeeds(es: seq<Expr>): set<Need> {
    if es == [] then {} else ArgNeeds(es[..|es| - 1]) + ExprNeeds(es[|es| - 1])
  }

  /** Every name stands for a declaration of `scope`. */
  predicate Resolves(e: Expr, scope: set<Decl>) {
    match e
    case IntLiteral(_) => true
    case Ident(_, d, _) => d in scope
    case Binary(_, l, r) => Resolves(l, scope) && Resolves(r, scope)
    case Unary(_, a) => Resolves(a, scope)
    case Call(_, args, _) => AllResolve(args, scope)
  }

  predicate AllResolve(es: seq<Expr>, scope: set<Decl>) {
    es == [] || (AllResolve(es[..|es| - 1], scope) && Resolves(es[|es| - 1], scope))
  }

  lemma {:induction false} ResolvesMore(e: Expr, scope: set<Decl>, more: set<Decl>)
    requires Resolves(e, scope) && scope <= more
    ensures Resolves(e, more)
  {
    match e
    case Binary(_, l, r) =>
      ResolvesMore(l, scope, more);
      ResolvesMore(r, scope, more);
    case Unary(_, a) => ResolvesMore(a, scope, more);
    case Call(_, args, _) => AllResolveMore(args, scope, more);
    case _ =>
  }

  lemma {:induction false} AllResolveMore(es: seq<Expr>, scope: set<Decl>, more: set<Decl>)
    requires AllResolve(es, scope) && scope <= more
    ensures AllResolve(es, more)
  {
    if es != [] {
      AllResolveMore(es[..|es| - 1], scope, more);
      ResolvesMore(es[|es| - 1], scope, more);
    }
  }

  /** An expression without uses of names resolves everywhere. */
  lemma {:induction false} NamelessResolves(e: Expr, scope: set<Decl>)
    requires ExprNeeds(e) == {}
    ensures Resolves(e, scope)
  {
    match e
    case Binary(_, l, r) =>
      NamelessResolves(l, scope);
      NamelessResolves(r, scope);
    case Unary(_, a) => NamelessResolves(a, scope);
    case Call(_, args, _) => AllNamelessResolve(args, scope);
    case _ =>
  }

  lemma {:induction false} AllNamelessResolve(es: seq<Expr>, scope: set<Decl>)
    requires ArgNeeds(es) == {}
    ensures AllResolve(es, scope)
  {
    if es != [] {
      AllNamelessResolve(es[..|es| - 1], scope);
      NamelessResolves(es[|es| - 1], scope);
    }
  }

  /** Every use of a name has an entry, and what it stands for has a symbol. */
  predicate Found(e: Expr, known: set<Decl>, answers: set<Need>) {
    Resolves(e, known) && ExprNeeds(e) <= answers
  }

  predicate ArgsFound(es: seq<Expr>, known: set<Decl>, answers: set<Need>) {
    AllResolve(es, known) && ArgNeeds(es) <= answers
  }

  // ----- statements -----

  /** The declarations that get a symbol when the statement is generated. */
  function Adds(s: Stmt, answers: set<Need>): set<Decl> {
    match s
    case Block(body) => AddsAll(body, answers)
    case VarDecl(id, _, _) => {Variable(id)}
    case ConstDecl(id, _, _) => if ConstValue(id) in answers then {Constant(id)} else {}
    case If(_, s1, s2) => Adds(s1, answers) + if s2.Some? then Adds(s2.value, answers) else {}
    case While(_, b) => Adds(b, answers)
    case _ => {}
  }

  function AddsAll(ss: seq<Stmt>, answers: set<Need>): set<Decl> {
    if ss == [] then {}
    else AddsAll(ss[..|ss| - 1], answers) + if Shapes.Comes(ss, |ss| - 1) then Adds(ss[|ss| - 1], answers) else {}
  }

  /** The generator finds whatever it looks up. */
  predicate AllFound(s: Stmt, known: set<Decl>, answers: set<Need>) {
    match s
    case Block(body) => FoundIn(body, known, answers)
    case ExprStmt(e) => Found(e, known, answers)
    case Assign(n, d, e) => Use(n) in answers && d in known && Found(e, known, answers)
    case ConstDecl(id, _, _) => ConstValue(id) in answers
    case VarDecl(id, e, _) => Found(e, known + {Variable(id)}, answers)
    case If(c, s1, s2) =>
      && Found(c, known, answers) && AllFound(s1, known, answers)
      && (s2.Some? ==> AllFound(s2.value, known + Adds(s1, answers), answers))
    case While(c, b) => Found(c, known, answers) && AllFound(b, known, answers)
    case Return(Some(e)) => Found(e, known, answers)
    case _ => true
  }

  predicate FoundIn(ss: seq<Stmt>, known: set<Decl>, answers: set<Need>) {
    || ss == []
    || (&& FoundIn(ss[..|ss| - 1], known, answers)
        && (Shapes.Comes(ss, |ss| - 1) ==> AllFound(ss[|ss| - 1], known + AddsAll(ss[..|ss| - 1], answers), answers)))
  }

  /** The declarations outside every function. */
  function GlobalNames(globals: set<string>, globalConsts: set<nat>): set<Decl> {
    (set name | name in globals :: GlobalVariable(name)) + (set id | id in globalConsts :: Constant(id))
  }

  /** The declarations of the parameters. */
  function ParamNames(params: seq<nat>): set<Decl> {
    set i | 0 <= i < |params| :: Variable(params[i])
  }

  lemma NoParamNames()
    ensures ParamNames([]) == {}
  {
  }

  lemma NextParamName(params: seq<nat>, i: nat)
    requires i < |params|
    ensures ParamNames(params[..i + 1]) == ParamNames(params[..i]) + {Variable(params[i])}
  {
    var all := params[..i + 1];
    forall d | d in ParamNames(all)
      ensures d in ParamNames(params[..i]) + {Variable(params[i])}
    {
      var j :| 0 <= j < |all| && Variable(all[j]) == d;
      if j < i {
        assert params[..i][j] == all[j];
      }
    }
    forall d | d in ParamNames(params[..i])
      ensures d in ParamNames(all)
    {
      var j :| 0 <= j < i && Variable(params[..i][j]) == d;
      assert all[j] == params[..i][j];
    }
    assert all[i] == params[i];
  }

  /** The generator finds whatever it looks up in a function. */
  predicate FunctionFound(f: FuncDef, known: set<Decl>, answers: set<Need>) {
    FoundIn(f.body, known + ParamNames(f.params), answers)
  }

  lemma NoneLookedUp(known: set<Decl>, answers: set<Need>)
    ensures FoundIn([], known, answers) && AddsAll([], answers) == {}
  {
    hide Adds, AllFound, Shapes.Comes;
  }

  lemma BlockLooksUp(s: Stmt, known: set<Decl>, answers: set<Need>)
    requires hide *; s.Block?
    ensures AllFound(s, known, answers) == FoundIn(s.body, known, answers)
            && Adds(s, answers) == AddsAll(s.body, answers)
  {
  }

  /** Nothing is looked up behind a statement that closes the block. */
  lemma {:induction false} RestNotLookedUp(ss: seq<Stmt>, i: nat, known: set<Decl>, answers: set<Need>)
    requires hide *; i <= |ss| && (i == |ss| || Shapes.Closes(Block(ss[..i])))
    ensures AddsAll(ss, answers) == AddsAll(ss[..i], answers)
    ensures FoundIn(ss, known, answers) == FoundIn(ss[..i], known, answers)
    decreases |ss|
  {
    hide Adds, AllFound;
    if i == |ss| {
      assert ss[..i] == ss;
    } else {
      var j :| 0 <= j < i && Shapes.Closes(ss[..i][j]);
      assert ss[j] == ss[..i][j];
      var front := ss[..|ss| - 1];
      assert front[..i] == ss[..i];
      RestNotLookedUp(front, i, known, answers);
    }
  }

  /** One more statement of a block. */
  lemma NextLookedUp(ss: seq<Stmt>, i: nat, known: set<Decl>, answers: set<Need>)
    requires hide *; i < |ss| && !Shapes.Closes(Block(ss[..i]))
    ensures AddsAll(ss[..i + 1], answers) == AddsAll(ss[..i], answers) + Adds(ss[i], answers)
    ensures FoundIn(ss[..i + 1], known, answers)
       <==> FoundIn(ss[..i], known, answers) && AllFound(ss[i], known + AddsAll(ss[..i], answers), answers)
  {
    var now := ss[..i + 1];
    assert now[..|now| - 1] == ss[..i];
    assert Shapes.Comes(now, i) by {
      forall j | 0 <= j < i
        ensures !Shapes.Closes(now[j])
      {
        assert ss[..i][j] == now[j];
      }
    }
  }

  /** The generator looks nothing up. */
  predicate Silent(s: Stmt) {
    match s
    case Block(body) => forall i: nat :: i < |body| && Shapes.Comes(body, i) ==> Silent(body[i])
    case ExprStmt(e) => ExprNeeds(e) == {}
    case Assign(_, _, _) => false
    case ConstDecl(_, _, _) => false
    case VarDecl(_, e, _) => ExprNeeds(e) == {}
    case If(c, s1, s2) => ExprNeeds(c) == {} && Silent(s1) && (s2.Some? ==> Silent(s2.value))
    case While(c, b) => ExprNeeds(c) == {} && Silent(b)
    case Return(Some(e)) => ExprNeeds(e) == {}
    case _ => true
  }

  // ----- every node is a node of its own -----

  /** Everything that could be looked up in a statement. */
  function Needs(s: Stmt): set<Need> {
    match s
    case Block(body) => NeedsAll(body)
    case ExprStmt(e) => ExprNeeds(e)
    case Assign(n, _, e) => {Use(n)} + ExprNeeds(e)
    case ConstDecl(id, e, _) => {ConstValue(id)} + ExprNeeds(e)
    case VarDecl(_, e, _) => ExprNeeds(e)
    case If(c, s1, s2) => ExprNeeds(c) + Needs(s1) + if s2.Some? then Needs(s2.value) else {}
    case While(c, b) => ExprNeeds(c) + Needs(b)
    case Return(Some(e)) => ExprNeeds(e)
    case _ => {}
  }

  function NeedsAll(ss: seq<Stmt>): set<Need> {
    if ss == [] then {} else NeedsAll(ss[..|ss| - 1]) + Needs(ss[|ss| - 1])
  }

  /** The declarations that a statement leaves in scope. */
  function Introduces(s: Stmt): set<Decl> {
    match s
    case VarDecl(id, _, _) => {Variable(id)}
    case ConstDecl(id, _, _) => {Constant(id)}
    case If(_, s1, s2) => Introduces(s1) + if s2.Some? then Introduces(s2.value) else {}
    case While(_, b) => Introduces(b)
    case _ => {}
  }

  /** Every name stands for the same when it is looked up again. */
  predicate Steady(e: Expr) {
    match e
    case Ident(_, d, behind) => behind == d
    case Binary(_, l, r) => Steady(l) && Steady(r)
    case Unary(_, a) => Steady(a)
    case Call(_, args, _) => AllSteady(args)
    case _ => true
  }

  predicate AllSteady(es: seq<Expr>) {
    es == [] || (AllSteady(es[..|es| - 1]) && Steady(es[|es| - 1]))
  }

  /** Every node is a node of its own, and behind a body that declares nothing names stand for what they did. */
  predicate DistinctNodes(s: Stmt) {
    match s
    case Block(body) => AllDistinct(body)
    case If(c, s1, s2) =>
      && DistinctNodes(s1) && ExprNeeds(c) !! Needs(s1)
      && (s2.Some? ==> DistinctNodes(s2.value) && ExprNeeds(c) !! Needs(s2.value) && Needs(s1) !! Needs(s2.value))
    case While(c, b) => DistinctNodes(b) && ExprNeeds(c) !! Needs(b) && (Introduces(b) == {} ==> Steady(c))
    case _ => true
  }

  predicate AllDistinct(ss: seq<Stmt>) {
    || ss == []
    || (AllDistinct(ss[..|ss| - 1]) && DistinctNodes(ss[|ss| - 1]) && NeedsAll(ss[..|ss| - 1]) !! Needs(ss[|ss| - 1]))
  }

  lemma {:induction false} DistinctAt(ss: seq<Stmt>, i: nat)
    requires hide *; i < |ss| && AllDistinct(ss)
    ensures DistinctNodes(ss[i]) && NeedsAll(ss[..i]) !! Needs(ss[i]) && Needs(ss[i]) <= NeedsAll(ss)
  {
    if i < |ss| - 1 {
      assert ss[..|ss| - 1][..i] == ss[..i];
      DistinctAt(ss[..|ss| - 1], i);
    }
  }

  lemma {:induction false} DistinctPrefix(ss: seq<Stmt>, i: nat)
    requires hide *; i <= |ss| && AllDistinct(ss)
    ensures AllDistinct(ss[..i]) && NeedsAll(ss[..i]) <= NeedsAll(ss)
  {
    hide DistinctNodes, Needs;
    if i < |ss| {
      assert ss[..|ss| - 1][..i] == ss[..i];
      DistinctPrefix(ss[..|ss| - 1], i);
    } else {
      assert ss[..i] == ss;
    }
  }

  /** Where there are no entries for a statement, the generator must look nothing up, and that is enough. */
  lemma {:induction false} NothingFoundIsSilent(s: Stmt, known: set<Decl>, answers: set<Need>)
    requires answers !! Needs(s)
    ensures AllFound(s, known, answers) <==> Silent(s)
  {
    match s
    case Block(body) =>
      assert body[..|body|] == body;
      NothingFoundIn(body, |body|, known, answers);
    case ExprStmt(e) => NoneFound(e, known, answers);
    case VarDecl(id, e, _) => NoneFound(e, known + {Variable(id)}, answers);
    case If(c, s1, s2) =>
      NoneFound(c, known, answers);
      NothingFoundIsSilent(s1, known, answers);
      if s2.Some? {
        NothingFoundIsSilent(s2.value, known + Adds(s1, answers), answers);
      }
    case While(c, b) =>
      NoneFound(c, known, answers);
      NothingFoundIsSilent(b, known, answers);
    case Return(v) =>
      if v.Some? {
        NoneFound(v.value, known, answers);
      }
    case _ =>
  }

  lemma NoneFound(e: Expr, known: set<Decl>, answers: set<Need>)
    requires answers !! ExprNeeds(e)
    ensures Found(e, known, answers) <==> ExprNeeds(e) == {}
  {
    if ExprNeeds(e) == {} {
      NamelessResolves(e, known);
    } else {
      var k :| k in ExprNeeds(e);
    }
  }

  lemma {:induction false} NothingFoundIn(body: seq<Stmt>, n: nat, known: set<Decl>, answers: set<Need>)
    requires hide *; n <= |body| && answers !! NeedsAll(body[..n])
    ensures FoundIn(body[..n], known, answers) <==> forall i: nat :: i < n && Shapes.Comes(body, i) ==> Silent(body[i])
    decreases body, n
  {
    hide AddsAll, AllFound, Needs, Silent, Shapes.Closes;
    var ss := body[..n];
    if n > 0 {
      assert ss[..n - 1] == body[..n - 1];
      NothingFoundIn(body, n - 1, known, answers);
      NothingFoundIsSilent(body[n - 1], known + AddsAll(ss[..n - 1], answers), answers);
      assert Shapes.Comes(ss, n - 1) <==> Shapes.Comes(body, n - 1) by { SameComes(body, n); }
    }
  }

  lemma SameComes(body: seq<Stmt>, n: nat)
    requires 0 < n <= |body|
    ensures Shapes.Comes(body[..n], n - 1) <==> Shapes.Comes(body, n - 1)
  {
    var ss := body[..n];
    assert forall j :: 0 <= j < n ==> ss[j] == body[j];
    if Shapes.Comes(ss, n - 1) {
      forall j | 0 <= j < n - 1
        ensures !Shapes.Closes(body[j])
      {
        assert !Shapes.Closes(ss[j]);
      }
    }
  }
}
