/** From the tree of the parser to the tree of the analysis: every declaration and every use gets a number of its own,
    and every name is replaced by what it stands for, the declaration of the innermost scope that has the name. */
module Resolution {
  import opened Int32
  import Ir
  import Ast
  import opened Lookups
  import Sema
  import Shapes
  import Syntax

  type Option<T> = Ir.Option<T>

  /** What a name stands for: something with a value, or a function. */
  datatype Entry = Object(decl: Ast.Decl) | Function(params: nat, isInt: bool)

  type Scope = map<string, Entry>

  /** The innermost entry. */
  function Lookup(env: seq<Scope>, name: string): Option<Entry> {
    if env == [] then Ir.None
    else if name in env[|env| - 1] then Ir.Some(env[|env| - 1][name])
    else Lookup(env[..|env| - 1], name)
  }

  predicate IsInnermost(env: seq<Scope>, name: string, i: nat) {
    i < |env| && name in env[i] && forall j :: i < j < |env| ==> name !in env[j]
  }

  lemma {:induction false} LookupIsInnermost(env: seq<Scope>, name: string)
    ensures Lookup(env, name).None? <==> forall i :: 0 <= i < |env| ==> name !in env[i]
    ensures forall i: nat :: IsInnermost(env, name, i) ==> Lookup(env, name) == Ir.Some(env[i][name])
  {
    if env != [] && name !in env[|env| - 1] {
      LookupIsInnermost(env[..|env| - 1], name);
      forall i: nat | IsInnermost(env, name, i) ensures Lookup(env, name) == Ir.Some(env[i][name]) {
        assert IsInnermost(env[..|env| - 1], name, i);
      }
    }
  }

  lemma {:induction false} LookupFinds(env: seq<Scope>, name: string) returns (i: nat)
    requires Lookup(env, name).Some?
    ensures IsInnermost(env, name, i)
  {
    if name in env[|env| - 1] {
      i := |env| - 1;
    } else {
      i := LookupFinds(env[..|env| - 1], name);
    }
  }

  // ----- numbers -----

  function Natural(digits: string): int {
    if digits == "" then 0
    else Natural(digits[..|digits| - 1]) * 10 + (digits[|digits| - 1] as int - '0' as int)
  }

  function NumberValue(digits: string): int {
    if digits != "" && digits[0] == '-' then -Natural(digits[1..]) else Natural(digits)
  }

  /** The conversion of the parser ends the compiler outside this range. */
  predicate InRange(digits: string) {
    -0x8000_0000 <= NumberValue(digits) < 0x8000_0000
  }

  // ----- expressions -----

  function Named(env: seq<Scope>, name: string): Ast.Decl {
    match Lookup(env, name)
    case Some(Object(d)) => d
    case _ => Ast.GlobalVariable(name)
  }

  /** A call fits if its name stands for a function with as many parameters, and with a result if one is needed. */
  predicate CallFits(env: seq<Scope>, callee: string, args: nat, needed: bool) {
    match Lookup(env, callee)
    case Some(Function(params, isInt)) => params == args && (needed ==> isInt)
    case _ => false
  }

  /** An expression, and the next free number. Behind the body of a loop, the names of its condition stand for what
      they stand for in `behind`. */
  function ResolveAgain(e: Syntax.Expr, env: seq<Scope>, behind: seq<Scope>, next: nat, needed: bool): (Ast.Expr, nat) {
    match e
    case IntLiteral(digits) => (Ast.IntLiteral(Wrap(NumberValue(digits))), next)
    case Ident(name) => (Ast.Ident(next, Named(env, name), Named(behind, name)), next + 1)
    case Binary(op, l, r) =>
      var (x, n1) := ResolveAgain(l, env, behind, next, true);
      var (y, n2) := ResolveAgain(r, env, behind, n1, true);
      (Ast.Binary(op, x, y), n2)
    case Unary(op, a) =>
      var (x, n1) := ResolveAgain(a, env, behind, next, true);
      (Ast.Unary(op, x), n1)
    case Call(callee, args) =>
      var (xs, n1) := ResolveArgs(args, env, behind, next);
      (Ast.Call(callee, xs, CallFits(env, callee, |args|, needed)), n1)
  }

  function ResolveArgs(es: seq<Syntax.Expr>, env: seq<Scope>, behind: seq<Scope>, next: nat): (seq<Ast.Expr>, nat) {
    if es == [] then ([], next)
    else
      var (front, n1) := ResolveArgs(es[..|es| - 1], env, behind, next);
      var (last, n2) := ResolveAgain(es[|es| - 1], env, behind, n1, true);
      (front + [last], n2)
  }

  function ResolveExpr(e: Syntax.Expr, env: seq<Scope>, next: nat, needed: bool): (Ast.Expr, nat) {
    ResolveAgain(e, env, env, next, needed)
  }

  // ----- statements -----

  function Top(env: seq<Scope>): Scope
    requires env != []
  {
    env[|env| - 1]
  }

  function Enter(env: seq<Scope>, name: string, entry: Entry): (r: seq<Scope>)
    requires env != []
    ensures |r| == |env|
  {
    if name in Top(env) then env else env[|env| - 1 := Top(env)[name := entry]]
  }

  /** The statement, the scopes behind it, and the next free number. */
  function ResolveStmt(s: Syntax.Stmt<Syntax.Expr>, env: seq<Scope>, next: nat): (r: (Ast.Stmt, seq<Scope>, nat))
    requires env != []
    ensures |r.1| == |env|
  {
    match s
    case Block(body) =>
      var (ss, _, n1) := ResolveAll(body, env + [map[]], next);
      (Ast.Block(ss), env, n1)
    case Empty => (Ast.Empty, env, next)
    case ExprStmt(e) =>
      var (x, n1) := ResolveExpr(e, env, next, false);
      (Ast.ExprStmt(x), env, n1)
    case AssignStmt(name, e) =>
      var (x, n1) := ResolveExpr(e, env, next + 1, true);
      (Ast.Assign(next, Named(env, name), x), env, n1)
    case ConstDecl(name, e) =>
      var (x, n1) := ResolveExpr(e, env, next, true);
      (Ast.ConstDecl(n1, x, name in Top(env)), Enter(env, name, Object(Ast.Constant(n1))), n1 + 1)
    case VarDecl(name, e) =>
      var (x, n1) := ResolveExpr(e, env, next, true);
      (Ast.VarDecl(n1, x, name in Top(env)), Enter(env, name, Object(Ast.Variable(n1))), n1 + 1)
    case If(c, s1, s2) =>
      var (x, n1) := ResolveExpr(c, env, next, true);
      var (t1, env1, n2) := ResolveStmt(s1, env, n1);
      if s2.None? then (Ast.If(x, t1, Ir.None), env1, n2)
      else
        var (t2, env2, n3) := ResolveStmt(s2.value, env1, n2);
        (Ast.If(x, t1, Ir.Some(t2)), env2, n3)
    case While(c, b) =>
      var (t, env1, n2) := ResolveStmt(b, env, ResolveExpr(c, env, next, true).1);
      (Ast.While(ResolveAgain(c, env, env1, next, true).0, t), env1, n2)
    case Break => (Ast.Break, env, next)
    case Continue => (Ast.Continue, env, next)
    case Return(None) => (Ast.Return(Ir.None), env, next)
    case Return(Some(e)) =>
      var (x, n1) := ResolveExpr(e, env, next, true);
      (Ast.Return(Ir.Some(x)), env, n1)
  }

  function ResolveAll(ss: seq<Syntax.Stmt<Syntax.Expr>>, env: seq<Scope>, next: nat)
    : (r: (seq<Ast.Stmt>, seq<Scope>, nat))
    requires env != []
    ensures |r.1| == |env|
  {
    if ss == [] then ([], env, next)
    else
      var (front, env1, n1) := ResolveAll(ss[..|ss| - 1], env, next);
      var (last, env2, n2) := ResolveStmt(ss[|ss| - 1], env1, n1);
      (front + [last], env2, n2)
  }

  // ----- functions -----

  predicate AreDistinct(names: seq<string>) {
    forall i, j :: 0 <= i < j < |names| ==> names[i] != names[j]
  }

  /** The scope of the parameters: of several with one name, the first. */
  function ParamScope(params: seq<string>, next: nat): Scope {
    if params == [] then map[]
    else
      var n := |params| - 1;
      var scope := ParamScope(params[..n], next);
      if params[n] in scope then scope else scope[params[n] := Object(Ast.Variable(next + n))]
  }

  function HeaderOf(item: Syntax.Item<Syntax.Expr>): Entry
    requires item.Function?
  {
    Function(|item.params|, item.isInt)
  }

  /** A function behind the global declarations of `scope`; it can call itself. */
  function ResolveFunction(item: Syntax.Item<Syntax.Expr>, scope: Scope, next: nat): (Ast.FuncDef, nat)
    requires hide *; item.Function?
  {
    var n := |item.params|;
    var known := if item.name in scope then scope else scope[item.name := HeaderOf(item)];
    var (body, _, n1) := ResolveAll(item.body, [known, ParamScope(item.params, next), map[]], next + n);
    (Ast.FuncDef(seq(n, i requires 0 <= i < n => next + i), body, item.name in scope || !AreDistinct(item.params)), n1)
  }

  // ----- every node has a number of its own -----

  predicate Within(needs: set<Need>, low: nat, high: nat) {
    forall x :: x in needs ==> match x
                               case Use(n) => low <= n < high
                               case ConstValue(id) => low <= id < high
  }

  predicate AllWithin(ids: set<nat>, low: nat, high: nat) {
    forall id :: id in ids ==> low <= id < high
  }

  /** The numbers are the same whatever is behind. */
  lemma {:induction false} ExprWithin(e: Syntax.Expr, env: seq<Scope>, behind: seq<Scope>, next: nat, needed: bool)
    ensures var (x, n) := ResolveAgain(e, env, behind, next, needed); next <= n && Within(ExprNeeds(x), next, n)
    ensures ResolveAgain(e, env, behind, next, needed).1 == ResolveExpr(e, env, next, needed).1
  {
    hide ArgNeeds, CallFits, Named, NumberValue, ResolveArgs, Wrap;
    match e
    case Binary(_, l, r) =>
      ExprWithin(l, env, behind, next, true);
      ExprWithin(r, env, behind, ResolveAgain(l, env, behind, next, true).1, true);
    case Unary(_, a) => ExprWithin(a, env, behind, next, true);
    case Call(_, args) => ArgsWithin(args, env, behind, next);
    case _ =>
  }

  lemma {:induction false} ArgsWithin(es: seq<Syntax.Expr>, env: seq<Scope>, behind: seq<Scope>, next: nat)
    ensures var (xs, n) := ResolveArgs(es, env, behind, next);
      next <= n && |xs| == |es| && Within(ArgNeeds(xs), next, n)
    ensures ResolveArgs(es, env, behind, next).1 == ResolveArgs(es, env, env, next).1
  {
    if es != [] {
      ArgsWithin(es[..|es| - 1], env, behind, next);
      var (front, n1) := ResolveArgs(es[..|es| - 1], env, behind, next);
      ExprWithin(es[|es| - 1], env, behind, n1, true);
      var (last, n2) := ResolveAgain(es[|es| - 1], env, behind, n1, true);
      assert (front + [last])[..|front|] == front;
    }
  }

  /** Where nothing changes, names stand for the same behind the body. */
  lemma {:induction false} ResolvedIsSteady(e: Syntax.Expr, env: seq<Scope>, next: nat, needed: bool)
    ensures Steady(ResolveExpr(e, env, next, needed).0)
  {
    match e
    case Binary(_, l, r) =>
      ResolvedIsSteady(l, env, next, true);
      ResolvedIsSteady(r, env, ResolveExpr(l, env, next, true).1, true);
    case Unary(_, a) => ResolvedIsSteady(a, env, next, true);
    case Call(_, args) => ArgsAreSteady(args, env, next);
    case _ =>
  }

  lemma {:induction false} ArgsAreSteady(es: seq<Syntax.Expr>, env: seq<Scope>, next: nat)
    ensures AllSteady(ResolveArgs(es, env, env, next).0)
  {
    hide ResolveAgain, Steady;
    if es != [] {
      ArgsAreSteady(es[..|es| - 1], env, next);
      var (front, n1) := ResolveArgs(es[..|es| - 1], env, env, next);
      ResolvedIsSteady(es[|es| - 1], env, n1, true);
      var (last, n2) := ResolveExpr(es[|es| - 1], env, n1, true);
      assert (front + [last])[..|front|] == front;
    }
  }

  /** A statement that introduces nothing leaves the names as they were. */
  lemma {:induction false} NothingIntroduced(s: Syntax.Stmt<Syntax.Expr>, env: seq<Scope>, next: nat)
    requires hide *; env != [] && Introduces(ResolveStmt(s, env, next).0) == {}
    ensures ResolveStmt(s, env, next).1 == env
  {
    hide Enter, Named, ResolveAgain, ResolveAll;
    match s
    case If(c, s1, s2) =>
      var n1 := ResolveExpr(c, env, next, true).1;
      NothingIntroduced(s1, env, n1);
      if s2.Some? {
        NothingIntroduced(s2.value, env, ResolveStmt(s1, env, n1).2);
      }
    case While(c, b) => NothingIntroduced(b, env, ResolveExpr(c, env, next, true).1);
    case _ =>
  }

  ghost predicate StmtNumbered(t: Ast.Stmt, low: nat, high: nat) {
    && low <= high && Within(Needs(t), low, high) && DistinctNodes(t)
    && AllWithin(Shapes.Declares(t), low, high) && Shapes.DeclaresOnce(t)
  }

  ghost predicate ListNumbered(ts: seq<Ast.Stmt>, low: nat, high: nat) {
    && low <= high && Within(NeedsAll(ts), low, high) && AllDistinct(ts)
    && AllWithin(Shapes.DeclaresAll(ts), low, high) && Shapes.AllDeclareOnce(ts)
  }

  lemma Apart(first: set<Need>, second: set<Need>, low: nat, mid: nat, high: nat)
    requires Within(first, low, mid) && Within(second, mid, high) && low <= mid <= high
    ensures first !! second && Within(first + second, low, high)
  {
  }

  lemma IfNumbered(s: Syntax.Stmt<Syntax.Expr>, env: seq<Scope>, next: nat)
    requires hide *; s.If? && env != []
    requires var (x, n1) := ResolveExpr(s.cond, env, next, true);
      var (t1, env1, n2) := ResolveStmt(s.thenBranch, env, n1);
      && next <= n1 && Within(ExprNeeds(x), next, n1) && StmtNumbered(t1, n1, n2)
      && (s.elseBranch.Some? ==>
            var (t2, _, n3) := ResolveStmt(s.elseBranch.value, env1, n2); StmtNumbered(t2, n2, n3))
    ensures StmtNumbered(ResolveStmt(s, env, next).0, next, ResolveStmt(s, env, next).2)
  {
    hide ExprNeeds, Named, ResolveAgain, ResolveAll, Steady, Within, ResolveExpr;
    var (x, n1) := ResolveExpr(s.cond, env, next, true);
    var (t1, env1, n2) := ResolveStmt(s.thenBranch, env, n1);
    Apart(ExprNeeds(x), Needs(t1), next, n1, n2);
    if s.elseBranch.Some? {
      var (t2, _, n3) := ResolveStmt(s.elseBranch.value, env1, n2);
      Apart(ExprNeeds(x) + Needs(t1), Needs(t2), next, n2, n3);
      assert AllWithin(Shapes.Declares(t1) + Shapes.Declares(t2), next, n3);
    } else {
      assert Needs(Ast.If(x, t1, Ir.None)) == ExprNeeds(x) + Needs(t1);
    }
  }

  lemma WhileNumbered(s: Syntax.Stmt<Syntax.Expr>, env: seq<Scope>, next: nat)
    requires hide *; s.While? && env != []
    requires var n1 := ResolveExpr(s.cond, env, next, true).1;
      var (t, env1, n2) := ResolveStmt(s.loopBody, env, n1);
      && next <= n1 && Within(ExprNeeds(ResolveAgain(s.cond, env, env1, next, true).0), next, n1)
      && StmtNumbered(t, n1, n2)
    ensures StmtNumbered(ResolveStmt(s, env, next).0, next, ResolveStmt(s, env, next).2)
  {
    hide ExprNeeds, Named, ResolveAgain, ResolveAll, Steady;
    var n1 := ResolveExpr(s.cond, env, next, true).1;
    var (t, env1, n2) := ResolveStmt(s.loopBody, env, n1);
    var x := ResolveAgain(s.cond, env, env1, next, true).0;
    if Introduces(t) == {} {
      NothingIntroduced(s.loopBody, env, n1);
      ResolvedIsSteady(s.cond, env, next, true);
    }
    hide Within, ResolveAgain;
    Apart(ExprNeeds(x), Needs(t), next, n1, n2);
  }

  lemma {:induction false} ResolvedIsNumbered(s: Syntax.Stmt<Syntax.Expr>, env: seq<Scope>, next: nat)
    requires hide *; env != []
    ensures StmtNumbered(ResolveStmt(s, env, next).0, next, ResolveStmt(s, env, next).2)
  {
    hide ExprNeeds, Named, ResolveAgain, ResolveAll, Steady;
    match s
    case Block(body) => AllResolvedAreNumbered(body, env + [map[]], next);
    case ExprStmt(e) => ExprWithin(e, env, env, next, false);
    case AssignStmt(_, e) => ExprWithin(e, env, env, next + 1, true);
    case ConstDecl(_, e) => ExprWithin(e, env, env, next, true);
    case VarDecl(_, e) => ExprWithin(e, env, env, next, true);
    case If(c, s1, s2) =>
      ExprWithin(c, env, env, next, true);
      var (_, n1) := ResolveExpr(c, env, next, true);
      ResolvedIsNumbered(s1, env, n1);
      var (_, env1, n2) := ResolveStmt(s1, env, n1);
      if s2.Some? {
        ResolvedIsNumbered(s2.value, env1, n2);
      }
      IfNumbered(s, env, next);
    case While(c, b) =>
      ResolvedIsNumbered(b, env, ResolveExpr(c, env, next, true).1);
      ExprWithin(c, env, ResolveStmt(b, env, ResolveExpr(c, env, next, true).1).1, next, true);
      WhileNumbered(s, env, next);
    case Return(v) =>
      if v.Some? {
        ExprWithin(v.value, env, env, next, true);
      }
    case _ =>
  }

  lemma {:induction false} AllResolvedAreNumbered(ss: seq<Syntax.Stmt<Syntax.Expr>>, env: seq<Scope>, next: nat)
    requires hide *; env != []
    ensures ListNumbered(ResolveAll(ss, env, next).0, next, ResolveAll(ss, env, next).2)
  {
    hide DistinctNodes, Needs, ResolveStmt;
    if ss != [] {
      var (front, env1, n1) := ResolveAll(ss[..|ss| - 1], env, next);
      AllResolvedAreNumbered(ss[..|ss| - 1], env, next);
      ResolvedIsNumbered(ss[|ss| - 1], env1, n1);
      var (last, _, n2) := ResolveStmt(ss[|ss| - 1], env1, n1);
      assert (front + [last])[..|front|] == front;
    }
  }

  /** What the parser reads is a tree to the analysis, once it is resolved. */
  lemma ResolvedIsTree(item: Syntax.Item<Syntax.Expr>, scope: Scope, next: nat, values: Ast.Consts)
    requires hide *; item.Function? && forall id :: id in values ==> id < next
    ensures next <= ResolveFunction(item, scope, next).1
    ensures Sema.Tree(ResolveFunction(item, scope, next).0, values)
  {
    hide AllDistinct, Needs, ResolveAll, Shapes.AllDeclareOnce;
    var n := |item.params|;
    var known := if item.name in scope then scope else scope[item.name := HeaderOf(item)];
    AllResolvedAreNumbered(item.body, [known, ParamScope(item.params, next), map[]], next + n);
  }

  // ----- the scopes of the analysis are those of the names -----

  function ObjectsOf(scope: Scope): set<Ast.Decl> {
    set name | name in scope && scope[name].Object? :: scope[name].decl
  }

  /** The declarations that some name stands for, or would but for one further inside. */
  function Decls(env: seq<Scope>): set<Ast.Decl> {
    if env == [] then {} else Decls(env[..|env| - 1]) + ObjectsOf(Top(env))
  }

  /** Global variables and functions are declared outside everything else, under their own names. */
  predicate Layered(env: seq<Scope>) {
    && env != []
    && (forall name :: name in env[0] && env[0][name].Object? && env[0][name].decl.GlobalVariable? ==>
          env[0][name].decl.name == name)
    && forall i, name :: 0 < i < |env| && name in env[i] ==> env[i][name].Object? && !env[i][name].decl.GlobalVariable?
  }

  lemma {:induction false} InDecls(env: seq<Scope>, i: nat, name: string)
    requires i < |env| && name in env[i] && env[i][name].Object?
    ensures env[i][name].decl in Decls(env)
  {
    if i < |env| - 1 {
      InDecls(env[..|env| - 1], i, name);
    } else {
      assert env[i][name].decl in ObjectsOf(env[i]);
    }
  }

  lemma {:induction false} FromDecls(env: seq<Scope>, d: Ast.Decl) returns (i: nat, name: string)
    requires d in Decls(env)
    ensures i < |env| && name in env[i] && env[i][name] == Object(d)
  {
    if d in Decls(env[..|env| - 1]) {
      i, name := FromDecls(env[..|env| - 1], d);
    } else {
      i := |env| - 1;
      name :| name in env[i] && env[i][name] == Object(d);
    }
  }

  /** A use of a name is in scope for the analysis exactly if the name is declared, and not as a function. */
  lemma InScopeIffDeclared(env: seq<Scope>, name: string)
    requires Layered(env)
    ensures Named(env, name) in Decls(env) <==> Lookup(env, name).Some? && Lookup(env, name).value.Object?
  {
    LookupIsInnermost(env, name);
    if Lookup(env, name).Some? && Lookup(env, name).value.Object? {
      var i := LookupFinds(env, name);
      InDecls(env, i, name);
    } else {
      NotInScope(env, name);
    }
  }

  lemma OnlyOwnName(env: seq<Scope>, i: nat, x: string, name: string)
    requires Layered(env) && i < |env| && x in env[i] && env[i][x] == Object(Ast.GlobalVariable(name))
    ensures i == 0 && x == name
  {
  }

  lemma NotInScope(env: seq<Scope>, name: string)
    requires Layered(env) && (Lookup(env, name).Some? ==> Lookup(env, name).value.Function?)
    ensures Ast.GlobalVariable(name) !in Decls(env)
  {
    LookupIsInnermost(env, name);
    if Ast.GlobalVariable(name) in Decls(env) {
      var i, x := FromDecls(env, Ast.GlobalVariable(name));
      OnlyOwnName(env, i, x, name);
      var j := LookupFinds(env, name);
    }
  }

  /** No declaration that the analysis of the statement comes to declares a name again. */
  predicate NoneAgain(t: Ast.Stmt) {
    match t
    case VarDecl(_, _, again) => !again
    case ConstDecl(_, _, again) => !again
    case If(_, t1, t2) => NoneAgain(t1) && (t2.Some? ==> NoneAgain(t2.value))
    case While(_, b) => NoneAgain(b)
    case _ => true
  }

  lemma {:induction false} CheckedDeclaresAnew(t: Ast.Stmt, inLoop: bool, returnsInt: bool, consts: Ast.Consts)
    requires Sema.Checked(t, inLoop, returnsInt, consts)
    ensures NoneAgain(t)
  {
    match t
    case If(_, t1, t2) =>
      CheckedDeclaresAnew(t1, inLoop, returnsInt, consts);
      if t2.Some? {
        CheckedDeclaresAnew(t2.value, inLoop, returnsInt, consts);
      }
    case While(_, b) => CheckedDeclaresAnew(b, true, returnsInt, consts);
    case _ =>
  }

  lemma EnterAdds(env: seq<Scope>, name: string, d: Ast.Decl)
    requires env != [] && name !in Top(env)
    ensures Decls(Enter(env, name, Object(d))) == Decls(env) + {d}
  {
    var n := |env| - 1;
    var env1 := Enter(env, name, Object(d));
    assert env1[..n] == env[..n];
    assert ObjectsOf(env1[n]) == ObjectsOf(env[n]) + {d} by {
      forall x | x in ObjectsOf(env[n]) ensures x in ObjectsOf(env1[n]) {
        var k :| k in env[n] && env[n][k].Object? && env[n][k].decl == x;
        assert env1[n][k] == env[n][k];
      }
      assert env1[n][name].decl == d;
    }
  }

  lemma PushAddsNothing(env: seq<Scope>)
    ensures Decls(env + [map[]]) == Decls(env)
  {
    assert (env + [map[]])[..|env|] == env;
  }

  /** Behind a statement the names stand for what they stood for before, and for what the statement introduces. */
  lemma {:induction false} ScopesAgree(s: Syntax.Stmt<Syntax.Expr>, env: seq<Scope>, next: nat)
    requires hide *; env != [] && NoneAgain(ResolveStmt(s, env, next).0)
    ensures Decls(ResolveStmt(s, env, next).1) == Decls(env) + Introduces(ResolveStmt(s, env, next).0)
  {
    hide Named, ResolveAgain, ResolveAll;
    match s
    case ConstDecl(name, e) => EnterAdds(env, name, Ast.Constant(ResolveExpr(e, env, next, true).1));
    case VarDecl(name, e) => EnterAdds(env, name, Ast.Variable(ResolveExpr(e, env, next, true).1));
    case If(c, s1, s2) =>
      var (_, n1) := ResolveExpr(c, env, next, true);
      ScopesAgree(s1, env, n1);
      var (_, env1, n2) := ResolveStmt(s1, env, n1);
      if s2.Some? {
        ScopesAgree(s2.value, env1, n2);
      }
    case While(c, b) => ScopesAgree(b, env, ResolveExpr(c, env, next, true).1);
    case _ =>
  }

  lemma {:induction false} FrontResolved(ss: seq<Syntax.Stmt<Syntax.Expr>>, n: nat, env: seq<Scope>, next: nat)
    requires hide *; env != [] && n <= |ss|
    ensures |ResolveAll(ss, env, next).0| == |ss|
    ensures ResolveAll(ss[..n], env, next).0 == ResolveAll(ss, env, next).0[..n]
    decreases |ss|
  {
    hide ResolveStmt;
    if n == |ss| {
      assert ss[..n] == ss;
      if ss != [] {
        FrontResolved(ss[..|ss| - 1], |ss| - 1, env, next);
      }
    } else {
      assert ss[..|ss| - 1][..n] == ss[..n];
      FrontResolved(ss[..|ss| - 1], n, env, next);
    }
  }

  lemma {:induction false} AllScopesAgree(ss: seq<Syntax.Stmt<Syntax.Expr>>, env: seq<Scope>, next: nat)
    requires hide *; env != [] && forall t :: t in ResolveAll(ss, env, next).0 ==> NoneAgain(t)
    ensures Decls(ResolveAll(ss, env, next).1) == Decls(env) + Sema.IntroducesAll(ResolveAll(ss, env, next).0)
  {
    hide Introduces, NoneAgain, ResolveStmt;
    if ss != [] {
      var n := |ss| - 1;
      var (front, env1, n1) := ResolveAll(ss[..n], env, next);
      var (last, _, _) := ResolveStmt(ss[n], env1, n1);
      assert (front + [last])[..|front|] == front;
      AllScopesAgree(ss[..n], env, next);
      ScopesAgree(ss[n], env1, n1);
    }
  }

  /** Where the analysis comes to a statement of a block, the names stand for exactly what it has in scope there: what
      was in scope outside the block, and what the statements before introduce. */
  lemma ScopesAgreeInside(body: seq<Syntax.Stmt<Syntax.Expr>>, n: nat, env: seq<Scope>, next: nat, inLoop: bool,
                          returnsInt: bool, consts: Ast.Consts)
    requires hide *; env != [] && n < |body|
    requires |ResolveAll(body, env + [map[]], next).0| == |body|
    requires Sema.Checked(ResolveStmt(Syntax.Block(body), env, next).0, inLoop, returnsInt, consts)
    requires Sema.Visits(ResolveAll(body, env + [map[]], next).0, n, consts)
    ensures Decls(ResolveAll(body[..n], env + [map[]], next).1)
            == Decls(env) + Sema.IntroducesAll(ResolveAll(body, env + [map[]], next).0[..n])
  {
    var ts := ResolveAll(body, env + [map[]], next).0;
    FrontResolved(body, n, env + [map[]], next);
    forall t | t in ts[..n] ensures NoneAgain(t) {
      var i: nat :| i < n && ts[i] == t;
      assert Sema.Visits(ts, i, consts);
      CheckedDeclaresAnew(ts[i], inLoop, returnsInt, consts);
    }
    PushAddsNothing(env);
    AllScopesAgree(body[..n], env + [map[]], next);
  }
}
