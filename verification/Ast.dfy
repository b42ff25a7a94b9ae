/** The abstract syntax after name resolution, and its meaning: expressions from left to right, statements
    with a bound on the depth of nested loop passes. */
module Ast {
  import opened Int32
  import Ir

  /** What a name was resolved to: a declaration inside the function, or a global. */
  datatype Decl = Variable(id: nat) | Constant(id: nat) | GlobalVariable(name: string)

  datatype BinaryOp = Or | And | Lt | Le | Gt | Ge | Eq | Ne | Add | Sub | Mul | Div | Mod

  datatype UnaryOp = Plus | Minus | Not

  /** A use of a name carries the number of its node, by which the analysis records what the name stands for, and, in
      the condition of a loop, what the name stands for when it is looked up again behind the body. A call
      fits if its name stands for a function with as many parameters, and with a result if one is needed. */
  datatype Expr =
    | IntLiteral(value: i32)
    | Ident(node: nat, decl: Decl, behind: Decl)
    | Binary(op: BinaryOp, lhs: Expr, rhs: Expr)
    | Unary(uop: UnaryOp, operand: Expr)
    | Call(callee: string, args: seq<Expr>, fits: bool)

  /** A declaration is marked if its name was declared before in the same scope. */
  datatype Stmt =
    | Block(body: seq<Stmt>)
    | Empty
    | ExprStmt(expr: Expr)
    | Assign(node: nat, target: Decl, value: Expr)
    | ConstDecl(id: nat, init: Expr, again: bool)
    | VarDecl(id: nat, init: Expr, again: bool)
    | If(cond: Expr, thenBranch: Stmt, elseBranch: Ir.Option<Stmt>)
    | While(cond: Expr, loopBody: Stmt)
    | Break
    | Continue
    | Return(result: Ir.Option<Expr>)

  /** `again` says that the name of the function, or of one of its parameters, was declared before. */
  datatype FuncDef = FuncDef(params: seq<nat>, body: seq<Stmt>, again: bool)

  /** The values of the constants, by declaration. */
  type Consts = map<nat, i32>

  /** The variables of one call, and the world outside it. */
  datatype State = State(locals: map<nat, i32>, world: Ir.World)

  /** How a statement ends. `Timeout` means that the bound on loop passes was reached. */
  datatype Outcome = Normal | Broke | Continued | Returned(result: Ir.Option<i32>) | Timeout

  function Arith(op: BinaryOp, a: i32, b: i32): i32 {
    match op
    case Or => Bool(a != 0 || b != 0)
    case And => Bool(a != 0 && b != 0)
    case Lt => Bool(a < b)
    case Le => Bool(a <= b)
    case Gt => Bool(a > b)
    case Ge => Bool(a >= b)
    case Eq => Bool(a == b)
    case Ne => Bool(a != b)
    case Add => Wrap(a + b)
    case Sub => Wrap(a - b)
    case Mul => Wrap(a * b)
    case Div => Int32.Div(a, b)
    case Mod => Rem(a, b)
  }

  function Sign(op: UnaryOp, a: i32): i32 {
    match op
    case Plus => a
    case Minus => Wrap(0 - a)
    case Not => Bool(a == 0)
  }

  function Fetch(d: Decl, consts: Consts, st: State): (i32, State) {
    match d
    case Variable(id) => (Ir.Get(st.locals, id), st)
    case Constant(id) => (Ir.Get(consts, id), st)
    case GlobalVariable(name) =>
      var v := Ir.Get(st.world.globals, name);
      (v, st.(world := st.world.(trace := st.world.trace + [Ir.Read(name, v)])))
  }

  function Put(d: Decl, v: i32, st: State): State {
    match d
    case Variable(id) => st.(locals := st.locals[id := v])
    case Constant(_) => st
    case GlobalVariable(name) =>
      st.(world := Ir.World(st.world.globals[name := v], st.world.trace + [Ir.Wrote(name, v)]))
  }

  function Invoke(callee: string, args: seq<i32>, callees: Ir.Callees, st: State): (i32, State) {
    var (v, globals) := callees(callee, args, st.world);
    (v, st.(world := Ir.World(globals, st.world.trace + [Ir.Called(callee, args, v)])))
  }

  function Eval(e: Expr, consts: Consts, callees: Ir.Callees, st: State): (i32, State) {
    match e
    case IntLiteral(v) => (v, st)
    case Ident(_, d, _) => Fetch(d, consts, st)
    case Binary(op, l, r) =>
      var (x, st1) := Eval(l, consts, callees, st);
      if op == And && x == 0 then (0, st1)
      else if op == Or && x != 0 then (1, st1)
      else
        var (y, st2) := Eval(r, consts, callees, st1);
        (Arith(op, x, y), st2)
    case Unary(op, a) =>
      var (x, st1) := Eval(a, consts, callees, st);
      (Sign(op, x), st1)
    case Call(f, args, _) =>
      var (xs, st1) := EvalArgs(args, consts, callees, st);
      Invoke(f, xs, callees, st1)
  }

  function EvalArgs(es: seq<Expr>, consts: Consts, callees: Ir.Callees, st: State): (r: (seq<i32>, State))
    ensures |r.0| == |es|
  {
    if es == [] then ([], st)
    else
      var (xs, st1) := EvalArgs(es[..|es| - 1], consts, callees, st);
      var (x, st2) := Eval(es[|es| - 1], consts, callees, st1);
      (xs + [x], st2)
  }

  /** `fuel` bounds the depth of loop passes; a statement that needs more ends in `Timeout`. */
  function Exec(s: Stmt, fuel: nat, consts: Consts, callees: Ir.Callees, st: State): (Outcome, State)
    decreases fuel, s
  {
    match s
    case Block(body) => ExecAll(body, fuel, consts, callees, st)
    case Empty => (Normal, st)
    case ExprStmt(e) => (Normal, Eval(e, consts, callees, st).1)
    case Assign(_, d, e) =>
      var (v, st1) := Eval(e, consts, callees, st);
      (Normal, Put(d, v, st1))
    case ConstDecl(_, _, _) => (Normal, st)
    case VarDecl(id, e, _) =>
      var (v, st1) := Eval(e, consts, callees, st);
      (Normal, Put(Variable(id), v, st1))
    case If(c, s1, s2) =>
      var (v, st1) := Eval(c, consts, callees, st);
      if v != 0 then Exec(s1, fuel, consts, callees, st1)
      else if s2.Some? then Exec(s2.value, fuel, consts, callees, st1)
      else (Normal, st1)
    case While(c, b) =>
      if fuel == 0 then (Timeout, st)
      else
        var (v, st1) := Eval(c, consts, callees, st);
        if v == 0 then (Normal, st1)
        else
          var (o, st2) := Exec(b, fuel - 1, consts, callees, st1);
          if o == Normal || o == Continued then Exec(s, fuel - 1, consts, callees, st2)
          else if o == Broke then (Normal, st2)
          else (o, st2)
    case Break => (Broke, st)
    case Continue => (Continued, st)
    case Return(None) => (Returned(Ir.None), st)
    case Return(Some(e)) =>
      var (v, st1) := Eval(e, consts, callees, st);
      (Returned(Ir.Some(v)), st1)
  }

  function ExecAll(ss: seq<Stmt>, fuel: nat, consts: Consts, callees: Ir.Callees, st: State): (Outcome, State)
    decreases fuel, ss
  {
    if ss == [] then (Normal, st)
    else
      var (o, st1) := ExecAll(ss[..|ss| - 1], fuel, consts, callees, st);
      if o == Normal then Exec(ss[|ss| - 1], fuel, consts, callees, st1) else (o, st1)
  }

  /** The variables of a call at its start: the parameters, and whatever the others hold. */
  function Bind(locals: map<nat, i32>, params: seq<nat>, args: seq<i32>): map<nat, i32> {
    if params == [] then locals
    else
      Bind(locals, params[..|params| - 1], args)
        [params[|params| - 1] := if |params| <= |args| then args[|params| - 1] else 0]
  }

  /** A call with a bound on loop passes: the returned value and the world it leaves, or nothing yet. */
  function RunCall(f: FuncDef, args: seq<i32>, fuel: nat, consts: Consts, callees: Ir.Callees, st: State):
    Ir.Option<(Ir.Option<i32>, Ir.World)>
  {
    var (o, st') := ExecAll(f.body, fuel, consts, callees, st.(locals := Bind(st.locals, f.params, args)));
    match o
    case Timeout => Ir.None
    case Returned(v) => Ir.Some((v, st'.world))
    case _ => Ir.Some((Ir.None, st'.world))
  }

  /** No variable holds anything. */
  function Fresh(w: Ir.World): State {
    State(map[], w)
  }
}
