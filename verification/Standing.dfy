/** What the resolved tree says about the parsed one: the same constructs in the same places, every literal with its
    decimal value, and every name standing for the declaration of the innermost scope that has it. */
module Standing {
  import Ast
  import Syntax
  import opened Resolution

  // ----- names and numbers -----

  ghost predicate HasObject(env: seq<Scope>, name: string, d: Ast.Decl) {
    exists i: nat :: IsInnermost(env, name, i) && env[i][name] == Object(d)
  }

  /** The name stands for the declaration. One that is declared as a function, or not at all, stands for a global
      variable that is in no scope. */
  ghost predicate Denotes(env: seq<Scope>, name: string, d: Ast.Decl) {
    || HasObject(env, name, d)
    || (d == Ast.GlobalVariable(name) && forall d' :: !HasObject(env, name, d'))
  }

  /** The name stands for a function with as many parameters, and with a result if one is needed. */
  ghost predicate Callable(env: seq<Scope>, name: string, args: nat, needed: bool) {
    exists i: nat, isInt: bool ::
      IsInnermost(env, name, i) && env[i][name] == Function(args, isInt) && (needed ==> isInt)
  }

  lemma NamedIsDenoted(env: seq<Scope>, name: string)
    ensures Denotes(env, name, Named(env, name))
  {
    LookupIsInnermost(env, name);
    if Lookup(env, name).Some? && Lookup(env, name).value.Object? {
      var i := LookupFinds(env, name);
      assert HasObject(env, name, Named(env, name));
    }
  }

  lemma FitsIsCallable(env: seq<Scope>, name: string, args: nat, needed: bool)
    ensures CallFits(env, name, args, needed) <==> Callable(env, name, args, needed)
  {
    LookupIsInnermost(env, name);
    if Lookup(env, name).Some? && Lookup(env, name).value.Function? {
      var i := LookupFinds(env, name);
    }
  }

  /** Digits behind one another: the number is the decimal one. */
  lemma {:induction false} NumbersJoin(s: string, t: string)
    ensures Natural(s + t) == Natural(s) * TenTo(|t|) + Natural(t)
    ensures |s| == 1 ==> Natural(s) == s[0] as int - '0' as int
  {
    if t == [] {
      assert s + t == s;
    } else {
      var n := |t| - 1;
      NumbersJoin(s, t[..n]);
      assert (s + t)[..|s + t| - 1] == s + t[..n];
    }
    if |s| == 1 {
      assert s[..0] == "";
    }
  }

  function TenTo(n: nat): nat {
    if n == 0 then 1 else 10 * TenTo(n - 1)
  }

  // ----- expressions -----

  /** `x` is `e` with the names of `env`, and, where a loop looks them up again, of `behind`. */
  ghost predicate ExprStands(e: Syntax.Expr, x: Ast.Expr, env: seq<Scope>, behind: seq<Scope>, needed: bool) {
    match e
    case IntLiteral(digits) => x.IntLiteral? && (InRange(digits) ==> x.value as int == NumberValue(digits))
    case Ident(name) => x.Ident? && Denotes(env, name, x.decl) && Denotes(behind, name, x.behind)
    case Binary(op, l, r) =>
      && x.Binary? && x.op == op
      && ExprStands(l, x.lhs, env, behind, true) && ExprStands(r, x.rhs, env, behind, true)
    case Unary(op, a) => x.Unary? && x.uop == op && ExprStands(a, x.operand, env, behind, true)
    case Call(callee, args) =>
      && x.Call? && x.callee == callee && (x.fits <==> Callable(env, callee, |args|, needed))
      && |x.args| == |args| && forall i :: 0 <= i < |args| ==> ExprStands(args[i], x.args[i], env, behind, true)
  }

  lemma {:induction false} ResolvedExprStands(e: Syntax.Expr, env: seq<Scope>, behind: seq<Scope>, next: nat,
                                              needed: bool)
    ensures ExprStands(e, ResolveAgain(e, env, behind, next, needed).0, env, behind, needed)
  {
    hide CallFits, Callable, Denotes, Named, NumberValue, ResolveArgs;
    match e
    case IntLiteral(digits) =>
    case Ident(name) =>
      NamedIsDenoted(env, name);
      NamedIsDenoted(behind, name);
    case Binary(_, l, r) =>
      ResolvedExprStands(l, env, behind, next, true);
      ResolvedExprStands(r, env, behind, ResolveAgain(l, env, behind, next, true).1, true);
    case Unary(_, a) => ResolvedExprStands(a, env, behind, next, true);
    case Call(callee, args) =>
      FitsIsCallable(env, callee, |args|, needed);
      ResolvedArgsStand(args, env, behind, next);
  }

  lemma {:induction false} ResolvedArgsStand(es: seq<Syntax.Expr>, env: seq<Scope>, behind: seq<Scope>, next: nat)
    ensures hide *; var xs := ResolveArgs(es, env, behind, next).0;
      |xs| == |es| && forall i :: 0 <= i < |es| ==> ExprStands(es[i], xs[i], env, behind, true)
  {
    hide ExprStands, ResolveAgain;
    if es != [] {
      var n := |es| - 1;
      ResolvedArgsStand(es[..n], env, behind, next);
      var n1 := ResolveArgs(es[..n], env, behind, next).1;
      ResolvedExprStands(es[n], env, behind, n1, true);
    }
  }

  // ----- statements -----

  /** The innermost scope gets the name, unless it has it. */
  function Declare(env: seq<Scope>, name: string, d: Ast.Decl): (r: seq<Scope>)
    requires env != []
    ensures |r| == |env|
  {
    var n := |env| - 1;
    if name in env[n] then env else env[..n] + [env[n][name := Object(d)]]
  }

  /** The scopes behind a statement: a declaration that is no block's stays in scope. */
  function ScopesBehind(s: Syntax.Stmt<Syntax.Expr>, t: Ast.Stmt, env: seq<Scope>): (r: seq<Scope>)
    requires env != []
    ensures |r| == |env|
  {
    match s
    case ConstDecl(name, _) => if t.ConstDecl? then Declare(env, name, Ast.Constant(t.id)) else env
    case VarDecl(name, _) => if t.VarDecl? then Declare(env, name, Ast.Variable(t.id)) else env
    case If(_, s1, s2) =>
      if !t.If? then env
      else
        var env1 := ScopesBehind(s1, t.thenBranch, env);
        if s2.Some? && t.elseBranch.Some? then ScopesBehind(s2.value, t.elseBranch.value, env1) else env1
    case While(_, b) => if t.While? then ScopesBehind(b, t.loopBody, env) else env
    case _ => env
  }

  function ScopesBehindAll(ss: seq<Syntax.Stmt<Syntax.Expr>>, ts: seq<Ast.Stmt>, env: seq<Scope>): (r: seq<Scope>)
    requires env != [] && |ts| == |ss|
    ensures |r| == |env|
  {
    if ss == [] then env
    else
      var n := |ss| - 1;
      ScopesBehind(ss[n], ts[n], ScopesBehindAll(ss[..n], ts[..n], env))
  }

  /** `t` is `s` with the names of `env` and of the declarations inside. */
  ghost predicate StmtStands(s: Syntax.Stmt<Syntax.Expr>, t: Ast.Stmt, env: seq<Scope>)
    requires hide *; env != []
  {
    match s
    case Block(body) => t.Block? && ListStands(body, t.body, env + [map[]])
    case Empty => t.Empty?
    case ExprStmt(e) => t.ExprStmt? && ExprStands(e, t.expr, env, env, false)
    case AssignStmt(name, e) => t.Assign? && Denotes(env, name, t.target) && ExprStands(e, t.value, env, env, true)
    case ConstDecl(name, e) =>
      t.ConstDecl? && ExprStands(e, t.init, env, env, true) && (t.again <==> name in env[|env| - 1])
    case VarDecl(name, e) =>
      t.VarDecl? && ExprStands(e, t.init, env, env, true) && (t.again <==> name in env[|env| - 1])
    case If(c, s1, s2) =>
      && t.If? && ExprStands(c, t.cond, env, env, true) && StmtStands(s1, t.thenBranch, env)
      && (s2.Some? <==> t.elseBranch.Some?)
      && (s2.Some? ==> StmtStands(s2.value, t.elseBranch.value, ScopesBehind(s1, t.thenBranch, env)))
    case While(c, b) =>
      && t.While? && StmtStands(b, t.loopBody, env)
      && ExprStands(c, t.cond, env, ScopesBehind(b, t.loopBody, env), true)
    case Break => t.Break?
    case Continue => t.Continue?
    case Return(v) =>
      t.Return? && (v.Some? <==> t.result.Some?) && (v.Some? ==> ExprStands(v.value, t.result.value, env, env, true))
  }

  /** Statement after statement, each behind those before it. */
  ghost predicate ListStands(ss: seq<Syntax.Stmt<Syntax.Expr>>, ts: seq<Ast.Stmt>, env: seq<Scope>)
    requires env != []
  {
    && |ts| == |ss|
    && (ss == [] ||
        var n := |ss| - 1;
        ListStands(ss[..n], ts[..n], env) && StmtStands(ss[n], ts[n], ScopesBehindAll(ss[..n], ts[..n], env)))
  }

  lemma {:induction false} ResolvedStands(s: Syntax.Stmt<Syntax.Expr>, env: seq<Scope>, next: nat)
    requires hide *; env != []
    ensures StmtStands(s, ResolveStmt(s, env, next).0, env)
    ensures ScopesBehind(s, ResolveStmt(s, env, next).0, env) == ResolveStmt(s, env, next).1
  {
    hide Denotes, ExprStands, Named, ResolveAgain, ResolveAll;
    match s
    case Block(body) => ResolvedListStands(body, env + [map[]], next);
    case ExprStmt(e) => ResolvedExprStands(e, env, env, next, false);
    case AssignStmt(name, e) =>
      NamedIsDenoted(env, name);
      ResolvedExprStands(e, env, env, next + 1, true);
    case ConstDecl(_, e) => ResolvedExprStands(e, env, env, next, true);
    case VarDecl(_, e) => ResolvedExprStands(e, env, env, next, true);
    case If(c, s1, s2) =>
      ResolvedExprStands(c, env, env, next, true);
      var n1 := ResolveExpr(c, env, next, true).1;
      ResolvedStands(s1, env, n1);
      var (_, env1, n2) := ResolveStmt(s1, env, n1);
      if s2.Some? {
        ResolvedStands(s2.value, env1, n2);
      }
    case While(c, b) =>
      var n1 := ResolveExpr(c, env, next, true).1;
      ResolvedStands(b, env, n1);
      ResolvedExprStands(c, env, ResolveStmt(b, env, n1).1, next, true);
    case Return(v) =>
      if v.Some? {
        ResolvedExprStands(v.value, env, env, next, true);
      }
    case _ =>
  }

  lemma {:induction false} ResolvedListStands(ss: seq<Syntax.Stmt<Syntax.Expr>>, env: seq<Scope>, next: nat)
    requires hide ResolveAll, ScopesBehindAll, StmtStands; env != []
    ensures ListStands(ss, ResolveAll(ss, env, next).0, env)
    ensures ScopesBehindAll(ss, ResolveAll(ss, env, next).0, env) == ResolveAll(ss, env, next).1
  {
    hide ResolveStmt, ScopesBehind, StmtStands;
    if ss != [] {
      var n := |ss| - 1;
      ResolvedListStands(ss[..n], env, next);
      var (front, env1, n1) := ResolveAll(ss[..n], env, next);
      ResolvedStands(ss[n], env1, n1);
      var (last, _, _) := ResolveStmt(ss[n], env1, n1);
      assert (front + [last])[..n] == front;
    }
  }

  // ----- functions -----

  ghost predicate IsFirst(names: seq<string>, i: nat) {
    i < |names| && forall j :: 0 <= j < i ==> names[j] != names[i]
  }

  /** The names of the parameters stand for their numbers; of several with one name, for the first. */
  ghost predicate IsParamScope(scope: Scope, names: seq<string>, ids: seq<nat>)
    requires |ids| == |names|
  {
    && (forall name :: name in scope ==> name in names)
    && forall i: nat :: IsFirst(names, i) ==> names[i] in scope && scope[names[i]] == Object(Ast.Variable(ids[i]))
  }

  /** The global scope of a function, which can call itself. */
  function Around(item: Syntax.Item<Syntax.Expr>, scope: Scope): Scope
    requires item.Function?
  {
    if item.name in scope then scope else scope[item.name := Function(|item.params|, item.isInt)]
  }

  predicate Repeated(names: seq<string>) {
    exists i, j :: 0 <= i < j < |names| && names[i] == names[j]
  }

  /** `f` is the function of the item behind the declarations of `scope`. */
  ghost predicate FunctionStands(item: Syntax.Item<Syntax.Expr>, f: Ast.FuncDef, scope: Scope)
    requires hide *; item.Function?
  {
    && |f.params| == |item.params| && (f.again <==> item.name in scope || Repeated(item.params))
    && exists inner: Scope ::
         && IsParamScope(inner, item.params, f.params)
         && ListStands(item.body, f.body, [Around(item, scope), inner, map[]])
  }

  lemma {:induction false} ParamsStand(names: seq<string>, next: nat)
    ensures forall name :: name in ParamScope(names, next) <==> name in names
    ensures forall i: nat :: IsFirst(names, i) ==> ParamScope(names, next)[names[i]] == Object(Ast.Variable(next + i))
  {
    if names != [] {
      var n := |names| - 1;
      ParamsStand(names[..n], next);
      assert names == names[..n] + [names[n]];
      forall i: nat | IsFirst(names, i) ensures ParamScope(names, next)[names[i]] == Object(Ast.Variable(next + i)) {
        assert i < n ==> IsFirst(names[..n], i) && names[..n][i] == names[i];
      }
    }
  }

  lemma ParamsAreNumbered(names: seq<string>, next: nat, ids: seq<nat>)
    requires |ids| == |names| && forall i :: 0 <= i < |ids| ==> ids[i] == next + i
    ensures IsParamScope(ParamScope(names, next), names, ids)
  {
    hide ParamScope;
    ParamsStand(names, next);
  }

  lemma FunctionParts(item: Syntax.Item<Syntax.Expr>, scope: Scope, next: nat)
    requires hide *; item.Function?
    ensures var f := ResolveFunction(item, scope, next).0;
      && |f.params| == |item.params| && (forall i :: 0 <= i < |f.params| ==> f.params[i] == next + i)
      && f.body == ResolveAll(item.body, [Around(item, scope), ParamScope(item.params, next), map[]],
                              next + |item.params|).0
      && (f.again <==> item.name in scope || !AreDistinct(item.params))
  {
    hide ResolveAll, ParamScope, AreDistinct;
  }

  lemma FunctionStandsIf(item: Syntax.Item<Syntax.Expr>, f: Ast.FuncDef, scope: Scope, inner: Scope)
    requires hide *; item.Function? && |f.params| == |item.params|
    requires f.again <==> item.name in scope || !AreDistinct(item.params)
    requires IsParamScope(inner, item.params, f.params)
    requires ListStands(item.body, f.body, [Around(item, scope), inner, map[]])
    ensures FunctionStands(item, f, scope)
  {
    hide ListStands, IsParamScope, Around;
  }

  /** The resolution of a function stands for what was parsed. */
  lemma ResolvedFunctionStands(item: Syntax.Item<Syntax.Expr>, scope: Scope, next: nat)
    requires hide *; item.Function?
    ensures FunctionStands(item, ResolveFunction(item, scope, next).0, scope)
  {
    hide *;
    var f := ResolveFunction(item, scope, next).0;
    FunctionParts(item, scope, next);
    ParamsAreNumbered(item.params, next, f.params);
    ResolvedListStands(item.body, [Around(item, scope), ParamScope(item.params, next), map[]], next + |item.params|);
    FunctionStandsIf(item, f, scope, ParamScope(item.params, next));
  }
}
