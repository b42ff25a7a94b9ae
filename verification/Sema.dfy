/** Semantic analysis: names, constant expressions and definite return, against the meaning of the source. */
module Sema {
  import opened Int32
  import Ir
  import opened Ast
  import opened Lookups
  import Shapes

  // ----- constant expressions -----

  /** The compile-time value of an expression, if it has one. The right operand of a logical operator
      counts only when the left one does not decide. */
  function ConstOf(e: Expr, consts: Consts): Ir.Option<i32> {
    match e
    case IntLiteral(v) => Ir.Some(v)
    case Ident(_, Constant(id), _) => if id in consts then Ir.Some(consts[id]) else Ir.None
    case Ident(_, _, _) => Ir.None
    case Unary(op, a) =>
      (match ConstOf(a, consts)
       case Some(x) => Ir.Some(Sign(op, x))
       case None => Ir.None)
    case Binary(op, l, r) =>
      (match ConstOf(l, consts)
       case None => Ir.None
       case Some(x) =>
         if op == And && x == 0 then Ir.Some(0)
         else if op == Or && x != 0 then Ir.Some(1)
         else
           match ConstOf(r, consts)
           case None => Ir.None
           case Some(y) => if (op == Div || op == Mod) && y == 0 then Ir.None else Ir.Some(Arith(op, x, y)))
    case Call(_, _, _) => Ir.None
  }

  /** A compile-time value is the value the expression has whenever it is evaluated, and evaluating it does nothing. */
  lemma {:induction false} ConstMeans(e: Expr, consts: Consts, callees: Ir.Callees, st: State)
    requires hide *; ConstOf(e, consts).Some?
    ensures Eval(e, consts, callees, st) == (ConstOf(e, consts).value, st)
  {
    match e
    case Unary(_, a) => ConstMeans(a, consts, callees, st);
    case Binary(_, l, r) =>
      ConstMeans(l, consts, callees, st);
      if ConstOf(r, consts).Some? {
        ConstMeans(r, consts, callees, st);
      }
    case _ =>
  }

  /** An expression over literals and constants whose values are known. */
  predicate Plain(e: Expr, consts: Consts) {
    match e
    case IntLiteral(_) => true
    case Ident(_, d, _) => d.Constant? && d.id in consts
    case Binary(_, l, r) => Plain(l, consts) && Plain(r, consts)
    case Unary(_, a) => Plain(a, consts)
    case Call(_, _, _) => false
  }

  /** No divisor in the expression is zero in this state. */
  ghost predicate NoZeroDivisor(e: Expr, consts: Consts, callees: Ir.Callees, st: State) {
    match e
    case Binary(op, l, r) =>
      && NoZeroDivisor(l, consts, callees, st) && NoZeroDivisor(r, consts, callees, st)
      && (op == Div || op == Mod ==> Eval(r, consts, callees, st).0 != 0)
    case Unary(_, a) => NoZeroDivisor(a, consts, callees, st)
    case _ => true
  }

  /** Every such expression that divides by no zero has a compile-time value. */
  lemma {:induction false} PlainHasValue(e: Expr, consts: Consts, callees: Ir.Callees, st: State)
    requires Plain(e, consts) && NoZeroDivisor(e, consts, callees, st)
    ensures ConstOf(e, consts).Some?
  {
    hide Arith, Eval, Sign;
    match e
    case Binary(_, l, r) =>
      PlainHasValue(l, consts, callees, st);
      PlainHasValue(r, consts, callees, st);
      ConstMeans(r, consts, callees, st);
    case Unary(_, a) => PlainHasValue(a, consts, callees, st);
    case _ =>
  }

  predicate Includes(more: Consts, consts: Consts) {
    forall id :: id in consts ==> id in more && more[id] == consts[id]
  }

  lemma {:induction false} ConstKept(e: Expr, consts: Consts, more: Consts)
    requires Includes(more, consts) && ConstOf(e, consts).Some?
    ensures ConstOf(e, more) == ConstOf(e, consts)
  {
    match e
    case Unary(_, a) => ConstKept(a, consts, more);
    case Binary(_, l, r) =>
      ConstKept(l, consts, more);
      if ConstOf(r, consts).Some? {
        ConstKept(r, consts, more);
      }
    case _ =>
  }

  // ----- definite return -----

  /** A break that would leave the loop around the statement. */
  predicate ContainsBreak(s: Stmt) {
    match s
    case Break => true
    case Block(body) => exists i :: 0 <= i < |body| && ContainsBreak(body[i])
    case If(_, s1, s2) => ContainsBreak(s1) || (s2.Some? && ContainsBreak(s2.value))
    case _ => false
  }

  /** The analysis finds that the statement returns. */
  predicate Returns(s: Stmt, consts: Consts) {
    match s
    case Return(_) => true
    case Block(body) => exists i :: 0 <= i < |body| && Returns(body[i], consts)
    case If(_, s1, s2) => s2.Some? && Returns(s1, consts) && Returns(s2.value, consts)
    case While(c, b) =>
      ConstOf(c, consts).Some? && ConstOf(c, consts).value != 0 && Returns(b, consts) && !ContainsBreak(b)
    case _ => false
  }

  /** The analysis comes to the `i`-th statement of a block. */
  predicate Visits(body: seq<Stmt>, i: nat, consts: Consts) {
    i <= |body| && forall j :: 0 <= j < i ==> !Returns(body[j], consts)
  }

  /** No visited statement jumps outside a loop, returns the wrong kind of result, assigns to a constant or declares a
      name again. */
  predicate Checked(s: Stmt, inLoop: bool, returnsInt: bool, consts: Consts) {
    match s
    case Block(body) => forall i: nat :: i < |body| && Visits(body, i, consts) ==>
                          Checked(body[i], inLoop, returnsInt, consts)
    case If(_, s1, s2) =>
      Checked(s1, inLoop, returnsInt, consts) && (s2.Some? ==> Checked(s2.value, inLoop, returnsInt, consts))
    case While(_, b) => Checked(b, true, returnsInt, consts)
    case Assign(_, d, _) => !d.Constant?
    case ConstDecl(_, _, again) => !again
    case VarDecl(_, _, again) => !again
    case Break => inLoop
    case Continue => inLoop
    case Return(v) => v.Some? == returnsInt
    case _ => true
  }

  /** What can be said of an execution whatever the analysis finds. */
  lemma {:induction false} BreaksAreFound(s: Stmt, fuel: nat, consts: Consts, callees: Ir.Callees, st: State)
    ensures Exec(s, fuel, consts, callees, st).0.Broke? ==> ContainsBreak(s)
    decreases fuel, s, 0
  {
    match s
    case Block(body) =>
      BreaksAreFoundIn(body, fuel, consts, callees, st, |body|);
      assert body[..|body|] == body;
    case If(c, s1, s2) =>
      var st1 := Eval(c, consts, callees, st).1;
      BreaksAreFound(s1, fuel, consts, callees, st1);
      if s2.Some? {
        BreaksAreFound(s2.value, fuel, consts, callees, st1);
      }
    case While(c, b) =>
      if fuel > 0 {
        var st1 := Eval(c, consts, callees, st).1;
        BreaksAreFound(s, fuel - 1, consts, callees, Exec(b, fuel - 1, consts, callees, st1).1);
      }
    case _ =>
  }

  lemma {:induction false} BreaksAreFoundIn(body: seq<Stmt>, fuel: nat, consts: Consts, callees: Ir.Callees,
                                            st: State, n: nat)
    requires hide *; n <= |body|
    ensures ExecAll(body[..n], fuel, consts, callees, st).0.Broke? ==> exists i :: 0 <= i < n && ContainsBreak(body[i])
    decreases fuel, body, n
  {
    hide ContainsBreak, Exec;
    if n > 0 {
      assert body[..n][..n - 1] == body[..n - 1];
      BreaksAreFoundIn(body, fuel, consts, callees, st, n - 1);
      BreaksAreFound(body[n - 1], fuel, consts, callees, ExecAll(body[..n - 1], fuel, consts, callees, st).1);
    } else {
      assert body[..n] == [];
    }
  }

  /** A statement that the analysis finds to return never completes normally. */
  lemma {:induction false} ReturnsIsSound(s: Stmt, fuel: nat, consts: Consts, callees: Ir.Callees, st: State)
    requires Returns(s, consts)
    ensures !Exec(s, fuel, consts, callees, st).0.Normal?
    decreases fuel, s, 0
  {
    hide Arith, ConstOf, EvalArgs, ExecAll, Fetch, Put;
    match s
    case Block(body) =>
      var i :| 0 <= i < |body| && Returns(body[i], consts);
      ReturnsIsSoundIn(body, fuel, consts, callees, st, i, |body|);
      assert body[..|body|] == body;
    case If(c, s1, s2) =>
      var st1 := Eval(c, consts, callees, st).1;
      ReturnsIsSound(s1, fuel, consts, callees, st1);
      ReturnsIsSound(s2.value, fuel, consts, callees, st1);
    case While(c, b) =>
      if fuel > 0 {
        ConstMeans(c, consts, callees, st);
        ReturnsIsSound(b, fuel - 1, consts, callees, st);
        BreaksAreFound(b, fuel - 1, consts, callees, st);
        ReturnsIsSound(s, fuel - 1, consts, callees, Exec(b, fuel - 1, consts, callees, st).1);
      }
    case Return(_) =>
  }

  /** A block does not go on past a statement that returns. */
  lemma {:induction false} ReturnsIsSoundIn(body: seq<Stmt>, fuel: nat, consts: Consts, callees: Ir.Callees, st: State,
                                            i: nat, n: nat)
    requires hide *; i < n <= |body| && Returns(body[i], consts)
    ensures !ExecAll(body[..n], fuel, consts, callees, st).0.Normal?
    decreases fuel, body, n
  {
    hide Exec, Returns;
    assert body[..n][..n - 1] == body[..n - 1];
    if i == n - 1 {
      ReturnsIsSound(body[i], fuel, consts, callees, ExecAll(body[..n - 1], fuel, consts, callees, st).1);
    } else {
      ReturnsIsSoundIn(body, fuel, consts, callees, st, i, n - 1);
    }
  }

  /** How a checked statement may end: no jump leaves a function, and an int function returns values. */
  predicate Allowed(o: Outcome, inLoop: bool, returnsInt: bool) {
    && (o.Broke? || o.Continued? ==> inLoop)
    && (o.Returned? ==> o.result.Some? == returnsInt)
  }

  lemma {:induction false} CheckedIsSound(s: Stmt, inLoop: bool, returnsInt: bool, fuel: nat, consts: Consts,
                                          callees: Ir.Callees, st: State)
    requires Checked(s, inLoop, returnsInt, consts)
    ensures Allowed(Exec(s, fuel, consts, callees, st).0, inLoop, returnsInt)
    decreases fuel, s, 0
  {
    match s
    case Block(body) =>
      CheckedIsSoundIn(body, inLoop, returnsInt, fuel, consts, callees, st, |body|);
      assert body[..|body|] == body;
    case If(c, s1, s2) =>
      var st1 := Eval(c, consts, callees, st).1;
      CheckedIsSound(s1, inLoop, returnsInt, fuel, consts, callees, st1);
      if s2.Some? {
        CheckedIsSound(s2.value, inLoop, returnsInt, fuel, consts, callees, st1);
      }
    case While(c, b) =>
      if fuel > 0 {
        var st1 := Eval(c, consts, callees, st).1;
        CheckedIsSound(b, true, returnsInt, fuel - 1, consts, callees, st1);
        CheckedIsSound(s, inLoop, returnsInt, fuel - 1, consts, callees, Exec(b, fuel - 1, consts, callees, st1).1);
      }
    case _ =>
  }

  lemma {:induction false} CheckedIsSoundIn(body: seq<Stmt>, inLoop: bool, returnsInt: bool, fuel: nat, consts: Consts,
                                            callees: Ir.Callees, st: State, n: nat)
    requires hide *; Checked(Block(body), inLoop, returnsInt, consts) && n <= |body|
    ensures Allowed(ExecAll(body[..n], fuel, consts, callees, st).0, inLoop, returnsInt)
    decreases fuel, body, n
  {
    hide ConstOf, Exec;
    if n > 0 {
      assert body[..n][..n - 1] == body[..n - 1];
      CheckedIsSoundIn(body, inLoop, returnsInt, fuel, consts, callees, st, n - 1);
      if Visits(body, n - 1, consts) {
        CheckedIsSound(body[n - 1], inLoop, returnsInt, fuel, consts, callees,
                       ExecAll(body[..n - 1], fuel, consts, callees, st).1);
      } else {
        var j :| 0 <= j < n - 1 && Returns(body[j], consts);
        ReturnsIsSoundIn(body, fuel, consts, callees, st, j, n - 1);
      }
    }
  }

  /** What the analysis accepts, if the names and the constants are in order. */
  predicate Accepted(f: FuncDef, returnsInt: bool, consts: Consts) {
    && Checked(Block(f.body), false, returnsInt, consts)
    && (returnsInt ==> Returns(Block(f.body), consts))
  }

  /** An accepted int function never falls off its end: a call that ends returns a value, and only then. */
  lemma DefiniteReturn(f: FuncDef, returnsInt: bool, args: seq<i32>, fuel: nat, consts: Consts, callees: Ir.Callees,
                       st: State)
    requires Accepted(f, returnsInt, consts)
    ensures match RunCall(f, args, fuel, consts, callees, st)
            case Some(r) => r.0.Some? == returnsInt
            case None => true
  {
    hide Checked, Eval, Returns;
    var first := st.(locals := Bind(st.locals, f.params, args));
    CheckedIsSound(Block(f.body), false, returnsInt, fuel, consts, callees, first);
    if returnsInt {
      ReturnsIsSound(Block(f.body), fuel, consts, callees, first);
    }
  }

  // ----- the table of constants grows -----

  lemma {:induction false} ReturnsKept(s: Stmt, consts: Consts, more: Consts)
    requires Includes(more, consts) && Returns(s, consts)
    ensures Returns(s, more)
  {
    hide ConstOf, ContainsBreak;
    match s
    case Block(body) =>
      var i :| 0 <= i < |body| && Returns(body[i], consts);
      ReturnsKept(body[i], consts, more);
    case If(_, s1, s2) =>
      ReturnsKept(s1, consts, more);
      ReturnsKept(s2.value, consts, more);
    case While(c, b) =>
      ConstKept(c, consts, more);
      ReturnsKept(b, consts, more);
    case Return(_) =>
  }

  lemma {:induction false} CheckedKept(s: Stmt, inLoop: bool, returnsInt: bool, consts: Consts, more: Consts)
    requires Includes(more, consts) && Checked(s, inLoop, returnsInt, consts)
    ensures Checked(s, inLoop, returnsInt, more)
  {
    match s
    case Block(body) =>
      forall i: nat | i < |body| && Visits(body, i, more)
        ensures Checked(body[i], inLoop, returnsInt, more)
      {
        forall j | 0 <= j < i
          ensures !Returns(body[j], consts)
        {
          if Returns(body[j], consts) {
            ReturnsKept(body[j], consts, more);
          }
        }
        assert Visits(body, i, consts);
        CheckedKept(body[i], inLoop, returnsInt, consts, more);
      }
    case If(_, s1, s2) =>
      CheckedKept(s1, inLoop, returnsInt, consts, more);
      if s2.Some? {
        CheckedKept(s2.value, inLoop, returnsInt, consts, more);
      }
    case While(_, b) => CheckedKept(b, true, returnsInt, consts, more);
    case _ =>
  }

  // ----- names, constants and divisions by zero -----

  /** The left operand of a logical operator decides its value. */
  predicate Decides(op: BinaryOp, l: Expr, consts: Consts) {
    && ConstOf(l, consts).Some?
    && ((op == And && ConstOf(l, consts).value == 0) || (op == Or && ConstOf(l, consts).value != 0))
  }

  /** Evaluating the expression at compile time comes to a division by zero. */
  predicate Fault(e: Expr, consts: Consts) {
    match e
    case Unary(_, a) => Fault(a, consts)
    case Binary(op, l, r) =>
      if op == And || op == Or then
        Fault(l, consts) || (ConstOf(l, consts).Some? && !Decides(op, l, consts) && Fault(r, consts))
      else
        || Fault(l, consts) || Fault(r, consts)
        || ((op == Div || op == Mod) && ConstOf(l, consts).Some? && ConstOf(r, consts) == Ir.Some(0))
    case _ => false
  }

  /** Analysing the expression does, which evaluates every operand that is not decided away. */
  predicate Faults(e: Expr, consts: Consts) {
    match e
    case Unary(_, a) => Faults(a, consts) || Fault(e, consts)
    case Binary(op, l, r) =>
      Faults(l, consts) || (!Decides(op, l, consts) && (Faults(r, consts) || Fault(e, consts)))
    case Call(_, args, _) => SomeFaults(args, consts)
    case _ => false
  }

  predicate SomeFaults(es: seq<Expr>, consts: Consts) {
    es != [] && (SomeFaults(es[..|es| - 1], consts) || Faults(es[|es| - 1], consts))
  }

  lemma {:induction false} ConstHasNoFault(e: Expr, consts: Consts)
    requires ConstOf(e, consts).Some?
    ensures !Fault(e, consts)
  {
    match e
    case Unary(_, a) => ConstHasNoFault(a, consts);
    case Binary(_, l, r) =>
      ConstHasNoFault(l, consts);
      if ConstOf(r, consts).Some? {
        ConstHasNoFault(r, consts);
      }
    case _ =>
  }

  lemma NoFaults(e: Expr, consts: Consts)
    requires !Faults(e, consts)
    ensures !Fault(e, consts)
  {
    if e.Binary? && Decides(e.op, e.lhs, consts) {
      ConstHasNoFault(e.lhs, consts);
    }
  }

  /** Every constant in scope has a value. */
  ghost predicate Settled(scope: set<Decl>, consts: Consts) {
    forall id :: Constant(id) in scope ==> id in consts
  }

  /** More constants change nothing for an expression whose names are in scope. */
  lemma {:induction false} SameConst(e: Expr, scope: set<Decl>, consts: Consts, more: Consts)
    requires Resolves(e, scope) && Settled(scope, consts) && Includes(more, consts)
    ensures ConstOf(e, more) == ConstOf(e, consts) && Fault(e, more) == Fault(e, consts)
            && Faults(e, more) == Faults(e, consts)
  {
    match e
    case Unary(_, a) => SameConst(a, scope, consts, more);
    case Binary(_, l, r) =>
      SameConst(l, scope, consts, more);
      SameConst(r, scope, consts, more);
    case Call(_, args, _) => SameFaults(args, scope, consts, more);
    case _ =>
  }

  lemma {:induction false} SameFaults(es: seq<Expr>, scope: set<Decl>, consts: Consts, more: Consts)
    requires AllResolve(es, scope) && Settled(scope, consts) && Includes(more, consts)
    ensures SomeFaults(es, more) == SomeFaults(es, consts)
  {
    hide ConstOf, Fault, Faults, Resolves;
    if es != [] {
      SameFaults(es[..|es| - 1], scope, consts, more);
      SameConst(es[|es| - 1], scope, consts, more);
    }
  }

  /** All calls fit. */
  predicate CallsFit(e: Expr) {
    match e
    case Binary(_, l, r) => CallsFit(l) && CallsFit(r)
    case Unary(_, a) => CallsFit(a)
    case Call(_, args, fits) => fits && AllCallsFit(args)
    case _ => true
  }

  predicate AllCallsFit(es: seq<Expr>) {
    es == [] || (AllCallsFit(es[..|es| - 1]) && CallsFit(es[|es| - 1]))
  }

  /** The names of an expression are in scope, its calls fit, and nothing in it is divided by a constant zero. */
  predicate Proper(e: Expr, scope: set<Decl>, consts: Consts) {
    Resolves(e, scope) && CallsFit(e) && !Faults(e, consts)
  }

  // ----- conditions behind the body of their loop -----

  /** The value of a condition when it is evaluated again behind the body, where `scope` is in scope: what had a value
      keeps it, and of the rest, names stand for what they stand for there. */
  function ConstAgain(e: Expr, scope: set<Decl>, consts: Consts): Ir.Option<i32> {
    if ConstOf(e, consts).Some? then ConstOf(e, consts)
    else
      match e
      case Ident(_, _, Constant(id)) =>
        if Constant(id) in scope && id in consts then Ir.Some(consts[id]) else Ir.None
      case Unary(op, a) =>
        (match ConstAgain(a, scope, consts)
         case Some(x) => Ir.Some(Sign(op, x))
         case None => Ir.None)
      case Binary(op, l, r) =>
        (match ConstAgain(l, scope, consts)
         case None => Ir.None
         case Some(x) =>
           if op == And && x == 0 then Ir.Some(0)
           else if op == Or && x != 0 then Ir.Some(1)
           else
             match ConstAgain(r, scope, consts)
             case None => Ir.None
             case Some(y) => if (op == Div || op == Mod) && y == 0 then Ir.None else Ir.Some(Arith(op, x, y)))
      case _ => Ir.None
  }

  /** The second evaluation comes to a division by zero. */
  predicate FaultAgain(e: Expr, scope: set<Decl>, consts: Consts) {
    && ConstOf(e, consts).None?
    && match e
       case Unary(_, a) => FaultAgain(a, scope, consts)
       case Binary(op, l, r) =>
         var x := ConstAgain(l, scope, consts);
         if op == And || op == Or then
           || FaultAgain(l, scope, consts)
           || (x.Some? && (if op == And then x.value != 0 else x.value == 0) && FaultAgain(r, scope, consts))
         else
           || FaultAgain(l, scope, consts) || FaultAgain(r, scope, consts)
           || ((op == Div || op == Mod) && x.Some? && ConstAgain(r, scope, consts) == Ir.Some(0))
       case _ => false
  }

  /** More constants change nothing. */
  lemma {:induction false} SameAgain(e: Expr, scope: set<Decl>, behind: set<Decl>, consts: Consts, more: Consts)
    requires Resolves(e, scope) && Settled(scope, consts) && Settled(behind, consts) && Includes(more, consts)
    ensures ConstAgain(e, behind, more) == ConstAgain(e, behind, consts)
            && FaultAgain(e, behind, more) == FaultAgain(e, behind, consts)
  {
    hide Arith, Fault, Faults;
    SameConst(e, scope, consts, more);
    match e
    case Unary(_, a) => SameAgain(a, scope, behind, consts, more);
    case Binary(_, l, r) =>
      SameAgain(l, scope, behind, consts, more);
      SameAgain(r, scope, behind, consts, more);
    case _ =>
  }

  /** No name stands for another constant that is in scope. */
  predicate Uncaptured(e: Expr, scope: set<Decl>) {
    match e
    case Ident(_, d, behind) => behind.Constant? && behind in scope ==> behind == d
    case Binary(_, l, r) => Uncaptured(l, scope) && Uncaptured(r, scope)
    case Unary(_, a) => Uncaptured(a, scope)
    case _ => true
  }

  lemma {:induction false} SteadyIsUncaptured(e: Expr, scope: set<Decl>)
    requires Steady(e)
    ensures Uncaptured(e, scope)
  {
    match e
    case Binary(_, l, r) =>
      SteadyIsUncaptured(l, scope);
      SteadyIsUncaptured(r, scope);
    case Unary(_, a) => SteadyIsUncaptured(a, scope);
    case _ =>
  }

  /** Where no name is captured by a constant, the second evaluation changes nothing. */
  lemma {:induction false} UncapturedIsSame(e: Expr, scope: set<Decl>, consts: Consts)
    requires Uncaptured(e, scope)
    ensures ConstAgain(e, scope, consts) == ConstOf(e, consts) && (FaultAgain(e, scope, consts) ==> Fault(e, consts))
  {
    match e
    case Unary(_, a) => UncapturedIsSame(a, scope, consts);
    case Binary(_, l, r) =>
      UncapturedIsSame(l, scope, consts);
      UncapturedIsSame(r, scope, consts);
    case _ =>
  }

  /** The values that a later evaluation finds: of an expression that has none, those of its operands. */
  predicate Kept(e: Expr, found: set<Expr>, consts: Consts) {
    if ConstOf(e, consts).Some? then e in found
    else
      match e
      case Unary(_, a) => Kept(a, found, consts)
      case Binary(_, l, r) => Kept(l, found, consts) && Kept(r, found, consts)
      case _ => true
  }

  lemma {:induction false} KeptGrows(e: Expr, found: set<Expr>, all: set<Expr>, consts: Consts)
    requires Kept(e, found, consts) && found <= all
    ensures Kept(e, all, consts)
  {
    if ConstOf(e, consts).None? {
      match e
      case Unary(_, a) => KeptGrows(a, found, all, consts);
      case Binary(_, l, r) =>
        KeptGrows(l, found, all, consts);
        KeptGrows(r, found, all, consts);
      case _ =>
    }
  }

  lemma {:induction false} KeptMore(e: Expr, found: set<Expr>, scope: set<Decl>, consts: Consts, more: Consts)
    requires Kept(e, found, consts)
    requires Resolves(e, scope) && Settled(scope, consts) && Includes(more, consts)
    ensures Kept(e, found, more)
  {
    SameConst(e, scope, consts, more);
    if ConstOf(e, consts).None? {
      match e
      case Unary(_, a) => KeptMore(a, found, scope, consts, more);
      case Binary(_, l, r) =>
        KeptMore(l, found, scope, consts, more);
        KeptMore(r, found, scope, consts, more);
      case _ =>
    }
  }

  // ----- what is in order -----

  function IntroducesAll(ss: seq<Stmt>): set<Decl> {
    if ss == [] then {} else IntroducesAll(ss[..|ss| - 1]) + Introduces(ss[|ss| - 1])
  }

  /** In the visited statements every name is in scope, and every constant has the value of its initialiser. */
  predicate Tidy(s: Stmt, scope: set<Decl>, consts: Consts) {
    match s
    case Block(body) => AllTidy(body, scope, consts)
    case ExprStmt(e) => Proper(e, scope, consts)
    case Assign(_, d, e) => d in scope && Proper(e, scope, consts)
    case ConstDecl(id, e, _) => Proper(e, scope, consts) && id in consts && ConstOf(e, consts) == Ir.Some(consts[id])
    case VarDecl(_, e, _) => Proper(e, scope, consts)
    case If(c, s1, s2) =>
      && Proper(c, scope, consts) && Tidy(s1, scope, consts)
      && (s2.Some? ==> Tidy(s2.value, scope + Introduces(s1), consts))
    case While(c, b) =>
      Proper(c, scope, consts) && Tidy(b, scope, consts) && !FaultAgain(c, scope + Introduces(b), consts)
    case Return(Some(e)) => Proper(e, scope, consts)
    case _ => true
  }

  predicate AllTidy(ss: seq<Stmt>, scope: set<Decl>, consts: Consts) {
    || ss == []
    || (&& AllTidy(ss[..|ss| - 1], scope, consts)
        && (Visits(ss, |ss| - 1, consts) ==> Tidy(ss[|ss| - 1], scope + IntroducesAll(ss[..|ss| - 1]), consts)))
  }

  /** What the analysis enters into its tables. */
  function Recorded(s: Stmt, consts: Consts): set<Need> {
    match s
    case Block(body) => RecordedAll(body, consts)
    case If(c, s1, s2) => ExprNeeds(c) + Recorded(s1, consts) + if s2.Some? then Recorded(s2.value, consts) else {}
    case While(c, b) => ExprNeeds(c) + Recorded(b, consts)
    case _ => Needs(s)
  }

  function RecordedAll(ss: seq<Stmt>, consts: Consts): set<Need> {
    if ss == [] then {}
    else
      RecordedAll(ss[..|ss| - 1], consts)
      + if Visits(ss, |ss| - 1, consts) then Recorded(ss[|ss| - 1], consts) else {}
  }

  // ----- the table of constants grows under the analysis -----

  lemma ReturnsLast(ss: seq<Stmt>, consts: Consts)
    requires hide *; ss != []
    ensures Visits(ss, |ss| - 1, consts) <==> !Returns(Block(ss[..|ss| - 1]), consts)
    ensures Returns(Block(ss), consts) <==> Returns(Block(ss[..|ss| - 1]), consts) || Returns(ss[|ss| - 1], consts)
  {
    var front := ss[..|ss| - 1];
    assert forall j :: 0 <= j < |front| ==> front[j] == ss[j];
    if Returns(Block(front), consts) {
      var j :| 0 <= j < |front| && Returns(front[j], consts);
      assert Returns(ss[j], consts);
    } else {
      forall j | 0 <= j < |ss| - 1
        ensures !Returns(ss[j], consts)
      {
        assert !Returns(front[j], consts);
      }
    }
  }

  lemma CheckedLast(ss: seq<Stmt>, inLoop: bool, returnsInt: bool, consts: Consts)
    requires hide *; ss != []
    ensures Checked(Block(ss), inLoop, returnsInt, consts)
       <==> Checked(Block(ss[..|ss| - 1]), inLoop, returnsInt, consts)
            && (Visits(ss, |ss| - 1, consts) ==> Checked(ss[|ss| - 1], inLoop, returnsInt, consts))
  {
    hide Returns;
    var front := ss[..|ss| - 1];
    assert forall j :: 0 <= j < |front| ==> front[j] == ss[j];
    forall i: nat | i < |front|
      ensures Visits(front, i, consts) <==> Visits(ss, i, consts)
    {
      SameVisits(ss, i, consts);
    }
    if Checked(Block(ss), inLoop, returnsInt, consts) {
      forall i: nat | i < |front| && Visits(front, i, consts)
        ensures Checked(front[i], inLoop, returnsInt, consts)
      {
        assert Checked(ss[i], inLoop, returnsInt, consts);
      }
    }
    if Checked(Block(front), inLoop, returnsInt, consts) {
      forall i: nat | i < |front| && Visits(ss, i, consts)
        ensures Checked(ss[i], inLoop, returnsInt, consts)
      {
        assert Checked(front[i], inLoop, returnsInt, consts);
      }
    }
  }

  lemma SameVisits(ss: seq<Stmt>, i: nat, consts: Consts)
    requires hide *; i < |ss|
    ensures Visits(ss[..|ss| - 1], i, consts) <==> Visits(ss, i, consts)
  {
    hide Returns;
    var front := ss[..|ss| - 1];
    assert forall j :: 0 <= j < i ==> front[j] == ss[j];
    if Visits(front, i, consts) {
      forall j | 0 <= j < i
        ensures !Returns(ss[j], consts)
      {
        assert !Returns(front[j], consts);
      }
    }
  }

  /** A statement in order leaves every constant in scope with a value. */
  lemma {:induction false} StaysSettled(s: Stmt, scope: set<Decl>, consts: Consts)
    requires Tidy(s, scope, consts) && Settled(scope, consts)
    ensures Settled(scope + Introduces(s), consts)
  {
    hide AllTidy, ConstOf, FaultAgain, Proper;
    match s
    case If(_, s1, s2) =>
      StaysSettled(s1, scope, consts);
      if s2.Some? {
        StaysSettled(s2.value, scope + Introduces(s1), consts);
      }
    case While(_, b) => StaysSettled(b, scope, consts);
    case _ =>
  }

  lemma {:induction false} AllStaySettled(ss: seq<Stmt>, scope: set<Decl>, consts: Consts)
    requires AllTidy(ss, scope, consts) && Settled(scope, consts) && !Returns(Block(ss), consts)
    ensures Settled(scope + IntroducesAll(ss), consts)
  {
    hide Returns, Tidy;
    if ss != [] {
      ReturnsLast(ss, consts);
      AllStaySettled(ss[..|ss| - 1], scope, consts);
      StaysSettled(ss[|ss| - 1], scope + IntroducesAll(ss[..|ss| - 1]), consts);
    }
  }

  /** More constants change nothing for statements that are in order. */
  lemma {:induction false} SameStmt(s: Stmt, scope: set<Decl>, consts: Consts, more: Consts)
    requires Tidy(s, scope, consts) && Settled(scope, consts) && Includes(more, consts)
    ensures Tidy(s, scope, more) && Returns(s, more) == Returns(s, consts) && Recorded(s, more) == Recorded(s, consts)
  {
    hide ConstAgain, ConstOf, Fault, FaultAgain, Faults, Resolves;
    match s
    case Block(body) => SameBlock(body, scope, consts, more);
    case ExprStmt(e) => SameConst(e, scope, consts, more);
    case Assign(_, _, e) => SameConst(e, scope, consts, more);
    case ConstDecl(_, e, _) => SameConst(e, scope, consts, more);
    case VarDecl(_, e, _) => SameConst(e, scope, consts, more);
    case If(c, s1, s2) =>
      SameConst(c, scope, consts, more);
      SameStmt(s1, scope, consts, more);
      if s2.Some? {
        StaysSettled(s1, scope, consts);
        SameStmt(s2.value, scope + Introduces(s1), consts, more);
      }
    case While(c, b) =>
      SameConst(c, scope, consts, more);
      SameStmt(b, scope, consts, more);
      StaysSettled(b, scope, consts);
      SameAgain(c, scope, scope + Introduces(b), consts, more);
    case Return(v) =>
      if v.Some? {
        SameConst(v.value, scope, consts, more);
      }
    case _ =>
  }

  lemma {:induction false} SameBlock(ss: seq<Stmt>, scope: set<Decl>, consts: Consts, more: Consts)
    requires AllTidy(ss, scope, consts) && Settled(scope, consts) && Includes(more, consts)
    ensures AllTidy(ss, scope, more) && Returns(Block(ss), more) == Returns(Block(ss), consts)
    ensures RecordedAll(ss, more) == RecordedAll(ss, consts)
  {
    hide ConstOf, IntroducesAll, Recorded, Tidy;
    if ss != [] {
      ReturnsLast(ss, consts);
      ReturnsLast(ss, more);
      SameBlock(ss[..|ss| - 1], scope, consts, more);
      if Visits(ss, |ss| - 1, consts) {
        AllStaySettled(ss[..|ss| - 1], scope, consts);
        SameStmt(ss[|ss| - 1], scope + IntroducesAll(ss[..|ss| - 1]), consts, more);
      }
    }
  }

  // ----- what the analysis of a statement finds out -----

  /** Nothing is wrong with a statement if `consts` are the values of the constants. */
  predicate Clean(s: Stmt, inLoop: bool, returnsInt: bool, scope: set<Decl>, consts: Consts) {
    Checked(s, inLoop, returnsInt, consts) && Tidy(s, scope, consts)
  }

  /** The table grew from `before` to `after` without an error exactly if the statement can be clean at all;
      every table with which it is clean then has the entries of `after`. */
  ghost predicate Analysed(s: Stmt, inLoop: bool, returnsInt: bool, scope: set<Decl>, before: Consts, after: Consts,
                           ok: bool, returned: bool) {
    && (ok ==> Clean(s, inLoop, returnsInt, scope, after) && returned == Returns(s, after))
    && forall final :: Includes(final, before) && Clean(s, inLoop, returnsInt, scope, final) ==>
         ok && Includes(final, after)
  }

  lemma NothingAnalysed(inLoop: bool, returnsInt: bool, scope: set<Decl>, consts: Consts)
    ensures Analysed(Block([]), inLoop, returnsInt, scope, consts, consts, true, false) && RecordedAll([], consts) == {}
  {
  }

  lemma TidyLast(ss: seq<Stmt>, scope: set<Decl>, consts: Consts)
    requires hide *; ss != []
    ensures Tidy(Block(ss), scope, consts)
       <==> Tidy(Block(ss[..|ss| - 1]), scope, consts)
            && (Visits(ss, |ss| - 1, consts) ==> Tidy(ss[|ss| - 1], scope + IntroducesAll(ss[..|ss| - 1]), consts))
  {
    hide ConstOf, FaultAgain, Proper, Visits;
  }

  lemma CleanLast(ss: seq<Stmt>, inLoop: bool, returnsInt: bool, scope: set<Decl>, consts: Consts)
    requires hide *; ss != []
    ensures Clean(Block(ss), inLoop, returnsInt, scope, consts)
       <==> Clean(Block(ss[..|ss| - 1]), inLoop, returnsInt, scope, consts)
            && (!Returns(Block(ss[..|ss| - 1]), consts) ==>
                  Clean(ss[|ss| - 1], inLoop, returnsInt, scope + IntroducesAll(ss[..|ss| - 1]), consts))
  {
    hide Checked, Returns, Visits, Tidy;
    TidyLast(ss, scope, consts);
    ReturnsLast(ss, consts);
    CheckedLast(ss, inLoop, returnsInt, consts);
  }

  lemma {:induction false} CleanFirst(body: seq<Stmt>, i: nat, inLoop: bool, returnsInt: bool, scope: set<Decl>,
                                      consts: Consts)
    requires hide *; i <= |body| && Clean(Block(body), inLoop, returnsInt, scope, consts)
    ensures Clean(Block(body[..i]), inLoop, returnsInt, scope, consts)
    decreases |body|
  {
    hide *;
    if i == |body| {
      assert body[..i] == body;
    } else {
      CleanLast(body, inLoop, returnsInt, scope, consts);
      assert body[..|body| - 1][..i] == body[..i];
      CleanFirst(body[..|body| - 1], i, inLoop, returnsInt, scope, consts);
    }
  }

  lemma RecordedLast(ss: seq<Stmt>, consts: Consts)
    requires hide *; ss != []
    ensures RecordedAll(ss, consts)
            == RecordedAll(ss[..|ss| - 1], consts)
               + if Visits(ss, |ss| - 1, consts) then Recorded(ss[|ss| - 1], consts) else {}
  {
    hide Recorded, Visits;
  }

  /** Behind a statement that returns nothing is visited. */
  lemma {:induction false} RestNotVisited(body: seq<Stmt>, i: nat, inLoop: bool, returnsInt: bool, scope: set<Decl>,
                                          consts: Consts)
    requires hide *; i <= |body| && (i == |body| || Returns(Block(body[..i]), consts))
    ensures Clean(Block(body), inLoop, returnsInt, scope, consts)
            <==> Clean(Block(body[..i]), inLoop, returnsInt, scope, consts)
    ensures Returns(Block(body), consts) == Returns(Block(body[..i]), consts)
    ensures RecordedAll(body, consts) == RecordedAll(body[..i], consts)
    decreases |body|
  {
    if i == |body| {
      assert body[..i] == body;
    } else {
      hide *;
      assert body[..|body| - 1][..i] == body[..i];
      RecordedLast(body, consts);
      RestNotVisited(body[..|body| - 1], i, inLoop, returnsInt, scope, consts);
      ReturnsLast(body, consts);
      CleanLast(body, inLoop, returnsInt, scope, consts);
    }
  }

  lemma NextAnalysed(body: seq<Stmt>, i: nat, inLoop: bool, returnsInt: bool, scope: set<Decl>, before: Consts,
                     mid: Consts,
                     after: Consts, ok: bool, returned: bool)
    requires hide *; i < |body| && Settled(scope, before) && Includes(mid, before) && Includes(after, mid)
    requires Analysed(Block(body[..i]), inLoop, returnsInt, scope, before, mid, true, false)
    requires Analysed(body[i], inLoop, returnsInt, scope + IntroducesAll(body[..i]), mid, after, ok, returned)
    ensures Analysed(Block(body[..i + 1]), inLoop, returnsInt, scope, before, after, ok, returned)
    ensures ok ==> RecordedAll(body[..i + 1], after) == RecordedAll(body[..i], mid) + Recorded(body[i], after)
    ensures IntroducesAll(body[..i + 1]) == IntroducesAll(body[..i]) + Introduces(body[i])
  {
    hide Checked, Recorded, Returns, Tidy, Visits;
    var ss, front := body[..i + 1], body[..i];
    assert ss[..i] == front && ss[i] == body[i];
    if ok {
      FrontKept(front, inLoop, returnsInt, scope, mid, after);
      CleanLast(ss, inLoop, returnsInt, scope, after);
      ReturnsLast(ss, after);
    }
    forall final | Includes(final, before) && Clean(Block(ss), inLoop, returnsInt, scope, final)
      ensures ok && Includes(final, after)
    {
      CleanLast(ss, inLoop, returnsInt, scope, final);
      FrontKept(front, inLoop, returnsInt, scope, mid, final);
    }
  }

  lemma FrontKept(front: seq<Stmt>, inLoop: bool, returnsInt: bool, scope: set<Decl>, consts: Consts, more: Consts)
    requires Clean(Block(front), inLoop, returnsInt, scope, consts) && Settled(scope, consts) && Includes(more, consts)
    ensures Clean(Block(front), inLoop, returnsInt, scope, more)
    ensures Returns(Block(front), more) == Returns(Block(front), consts)
    ensures RecordedAll(front, more) == RecordedAll(front, consts)
  {
    hide AllTidy, Checked, ConstOf, FaultAgain, Proper, RecordedAll, Returns;
    SameBlock(front, scope, consts, more);
    CheckedKept(Block(front), inLoop, returnsInt, consts, more);
  }

  /** An error in the first statements of a block is an error of the block. */
  lemma FailureStays(body: seq<Stmt>, i: nat, n: nat, inLoop: bool, returnsInt: bool, scope: set<Decl>, before: Consts,
                     mid: Consts, after: Consts, first: bool, second: bool)
    requires hide *;
             i <= n <= |body| && Analysed(Block(body[..i]), inLoop, returnsInt, scope, before, mid, false, first)
    ensures Analysed(Block(body[..n]), inLoop, returnsInt, scope, before, after, false, second)
  {
    hide Clean;
    forall final | Includes(final, before) && Clean(Block(body[..n]), inLoop, returnsInt, scope, final)
      ensures false
    {
      assert body[..n][..i] == body[..i];
      CleanFirst(body[..n], i, inLoop, returnsInt, scope, final);
    }
  }

  lemma BlockAnalysed(body: seq<Stmt>, i: nat, inLoop: bool, returnsInt: bool, scope: set<Decl>, before: Consts,
                      after: Consts,
                      ok: bool, returned: bool)
    requires hide *; i <= |body| && Analysed(Block(body[..i]), inLoop, returnsInt, scope, before, after, ok, returned)
    requires i == |body| || (ok ==> returned)
    ensures Analysed(Block(body), inLoop, returnsInt, scope, before, after, ok, returned)
    ensures ok ==> RecordedAll(body, after) == RecordedAll(body[..i], after)
  {
    hide Clean, RecordedAll, Returns;
    assert body[..|body|] == body;
    if ok {
      RestNotVisited(body, i, inLoop, returnsInt, scope, after);
    }
    forall final | Includes(final, before) && Clean(Block(body), inLoop, returnsInt, scope, final)
      ensures ok && Includes(final, after)
    {
      CleanFirst(body, i, inLoop, returnsInt, scope, final);
    }
  }

  /** A statement that the table of constants does not depend on. */
  lemma SimplyAnalysed(s: Stmt, inLoop: bool, returnsInt: bool, scope: set<Decl>, consts: Consts, ok: bool,
                       returned: bool)
    requires s.Empty? || s.ExprStmt? || s.Assign? || s.VarDecl? || s.Break? || s.Continue? || s.Return?
    requires Settled(scope, consts) && returned == s.Return? && ok == Clean(s, inLoop, returnsInt, scope, consts)
    ensures Analysed(s, inLoop, returnsInt, scope, consts, consts, ok, returned)
    ensures Recorded(s, consts) == Needs(s)
  {
    hide ConstOf, Fault, FaultAgain, Faults, Resolves, Visits;
    forall final | Includes(final, consts) && Clean(s, inLoop, returnsInt, scope, final)
      ensures ok
    {
      match s
      case ExprStmt(e) => SameConst(e, scope, consts, final);
      case Assign(_, _, e) => SameConst(e, scope, consts, final);
      case VarDecl(_, e, _) => SameConst(e, scope, consts, final);
      case Return(v) =>
        if v.Some? {
          SameConst(v.value, scope, consts, final);
        }
      case _ =>
    }
  }

  lemma ConstAnalysed(s: Stmt, inLoop: bool, returnsInt: bool, scope: set<Decl>, before: Consts, after: Consts,
                      ok: bool)
    requires hide *; s.ConstDecl? && s.id !in before && Settled(scope, before)
    requires ok == (!s.again && Proper(s.init, scope, before) && ConstOf(s.init, before).Some?)
    requires ok ==> after == before[s.id := ConstOf(s.init, before).value]
    ensures Analysed(s, inLoop, returnsInt, scope, before, after, ok, false)
  {
    hide AllTidy, ConstOf, Fault, FaultAgain, Faults, Resolves, Visits;
    if ok {
      SameConst(s.init, scope, before, after);
    }
    forall final | Includes(final, before) && Clean(s, inLoop, returnsInt, scope, final)
      ensures ok && Includes(final, after)
    {
      SameConst(s.init, scope, before, final);
    }
  }

  /** A condition that is in order, then the parts. */
  lemma IfAnalysed(s: Stmt, inLoop: bool, returnsInt: bool, scope: set<Decl>, before: Consts, mid: Consts,
                   after: Consts,
                   okCond: bool, okThen: bool, ok: bool, thenReturns: bool, elseReturns: bool)
    requires hide *; s.If? && Settled(scope, before) && Includes(mid, before) && Includes(after, mid)
    requires okCond == Proper(s.cond, scope, before) && (ok ==> okThen) && (okThen ==> okCond)
    requires okCond ==> Analysed(s.thenBranch, inLoop, returnsInt, scope, before, mid, okThen, thenReturns)
    requires s.elseBranch.None? ==> after == mid && ok == okThen && !elseReturns
    requires s.elseBranch.Some? && okThen ==>
               Analysed(s.elseBranch.value, inLoop, returnsInt, scope + Introduces(s.thenBranch), mid, after, ok,
                        elseReturns)
    ensures Analysed(s, inLoop, returnsInt, scope, before, after, ok, thenReturns && elseReturns)
    ensures ok ==> Recorded(s, after) == ExprNeeds(s.cond) + Recorded(s.thenBranch, mid)
                                         + if s.elseBranch.Some? then Recorded(s.elseBranch.value, after) else {}
  {
    hide Faults, Resolves;
    if ok {
      SameConst(s.cond, scope, before, after);
      SameStmt(s.thenBranch, scope, mid, after);
      CheckedKept(s.thenBranch, inLoop, returnsInt, mid, after);
    }
    forall final | Includes(final, before) && Clean(s, inLoop, returnsInt, scope, final)
      ensures ok && Includes(final, after)
    {
      SameProper(s.cond, scope, before, final);
    }
  }

  lemma SameProper(e: Expr, scope: set<Decl>, consts: Consts, more: Consts)
    requires Settled(scope, consts) && Includes(more, consts)
    ensures Proper(e, scope, more) == Proper(e, scope, consts)
  {
    hide CallsFit, ConstOf, Fault, Faults, Resolves;
    if Resolves(e, scope) {
      SameConst(e, scope, consts, more);
    }
  }

  lemma BehindTheBody(s: Stmt, scope: set<Decl>, before: Consts, after: Consts, final: Consts)
    requires hide *; s.While? && Settled(scope, before) && Includes(after, before) && Includes(final, after)
    requires Resolves(s.cond, scope) && Tidy(s.loopBody, scope, after)
    ensures FaultAgain(s.cond, scope + Introduces(s.loopBody), final)
            == FaultAgain(s.cond, scope + Introduces(s.loopBody), after)
  {
    hide ConstAgain, FaultAgain, Resolves, Tidy;
    StaysSettled(s.loopBody, scope, after);
    SameAgain(s.cond, scope, scope + Introduces(s.loopBody), after, final);
  }

  lemma WhileAnalysed(s: Stmt, inLoop: bool, returnsInt: bool, scope: set<Decl>, before: Consts, after: Consts,
                      okCond: bool, okBody: bool, ok: bool, bodyReturns: bool, returned: bool)
    requires hide *; s.While? && Settled(scope, before) && Includes(after, before)
    requires okCond == Proper(s.cond, scope, before) && (okBody ==> okCond) && (ok ==> okBody)
    requires okCond ==> Analysed(s.loopBody, true, returnsInt, scope, before, after, okBody, bodyReturns)
    requires okBody ==> ok == !FaultAgain(s.cond, scope + Introduces(s.loopBody), after)
    requires ok ==> returned == (ConstOf(s.cond, after).Some? && ConstOf(s.cond, after).value != 0 && bodyReturns
                                 && !ContainsBreak(s.loopBody))
    ensures Analysed(s, inLoop, returnsInt, scope, before, after, ok, returned)
  {
    hide AllTidy, ConstOf, FaultAgain, Faults, Resolves, Visits, ContainsBreak;
    SameProper(s.cond, scope, before, after);
    forall final | Includes(final, before) && Clean(s, inLoop, returnsInt, scope, final)
      ensures ok && Includes(final, after)
    {
      SameProper(s.cond, scope, before, final);
      if okBody {
        BehindTheBody(s, scope, before, after, final);
      }
    }
  }

  // ----- the analyzer -----

  /** The declarations that can be seen from the innermost scope. */
  function Visible(scopes: seq<set<Decl>>): set<Decl> {
    if scopes == [] then {} else Visible(scopes[..|scopes| - 1]) + scopes[|scopes| - 1]
  }

  lemma {:induction false} SeenFrom(scopes: seq<set<Decl>>, i: nat, d: Decl)
    requires i < |scopes| && d in scopes[i]
    ensures d in Visible(scopes)
  {
    if i < |scopes| - 1 {
      SeenFrom(scopes[..|scopes| - 1], i, d);
    }
  }

  lemma {:induction false} NowhereSeen(scopes: seq<set<Decl>>, d: Decl)
    requires forall i :: 0 <= i < |scopes| ==> d !in scopes[i]
    ensures d !in Visible(scopes)
  {
    if scopes != [] {
      NowhereSeen(scopes[..|scopes| - 1], d);
    }
  }

  lemma OneScope(scope: set<Decl>)
    ensures Visible([scope]) == scope
  {
    assert [scope][..0] == [];
  }

  lemma Pushed(scopes: seq<set<Decl>>)
    ensures Visible(scopes + [{}]) == Visible(scopes)
  {
    assert (scopes + [{}])[..|scopes|] == scopes;
  }

  lemma Declared(scopes: seq<set<Decl>>, d: Decl)
    requires scopes != []
    ensures Visible(scopes[|scopes| - 1 := scopes[|scopes| - 1] + {d}]) == Visible(scopes) + {d}
  {
    var n := |scopes| - 1;
    assert scopes[n := scopes[n] + {d}][..n] == scopes[..n];
  }

  /** The constants declared in a statement have no value yet. */
  predicate Unvalued(needs: set<Need>, consts: Consts) {
    forall id :: id in consts ==> ConstValue(id) !in needs
  }

  /** The nodes of the tree are distinct, as they are objects of their own in the source. */
  predicate Tree(f: FuncDef, values: Consts) {
    && Shapes.Distinct(f.params) && Shapes.AllDeclareOnce(f.body) && AllDistinct(f.body)
    && (forall i :: 0 <= i < |f.params| ==> f.params[i] !in Shapes.DeclaresAll(f.body))
    && Unvalued(NeedsAll(f.body), values)
  }

  /** No constant got a value but those declared in a statement. */
  predicate ValuedWithin(after: Consts, before: Consts, needs: set<Need>) {
    forall id :: id in after ==> id in before || ConstValue(id) in needs
  }

  /** The analyzer's tables, and whether there was no error. */
  datatype Tables = Tables(scopes: seq<set<Decl>>, consts: Consts, answered: set<Need>, ok: bool)

  ghost predicate SettledTables(t: Tables) {
    t.scopes != [] && Settled(Visible(t.scopes), t.consts)
  }

  /** Only the innermost scope changed. */
  predicate OuterSame(t: Tables, t': Tables) {
    t.scopes != [] && |t'.scopes| == |t.scopes| && t'.scopes[..|t.scopes| - 1] == t.scopes[..|t.scopes| - 1]
  }

  predicate ExprAnalysed(e: Expr, t: Tables, t': Tables) {
    && t'.scopes == t.scopes && t'.consts == t.consts
    && t'.ok == (t.ok && Proper(e, Visible(t.scopes), t.consts))
    && (t'.ok ==> t'.answered == t.answered + ExprNeeds(e))
  }

  /** The analysis of a statement made `t'` of `t`. */
  ghost predicate StmtAnalysed(s: Stmt, inLoop: bool, returnsInt: bool, t: Tables, t': Tables, returned: bool) {
    && OuterSame(t, t')
    && Includes(t'.consts, t.consts) && ValuedWithin(t'.consts, t.consts, Needs(s))
    && (t'.ok ==> t.ok && Visible(t'.scopes) == Visible(t.scopes) + Introduces(s))
    && (t'.ok ==> t'.answered == t.answered + Recorded(s, t'.consts))
    && (t'.ok && returned ==> Returns(s, t'.consts))
    && (t.ok ==> Analysed(s, inLoop, returnsInt, Visible(t.scopes), t.consts, t'.consts, t'.ok, returned))
  }

  /** The same for a list of statements in one scope. */
  ghost predicate ListAnalysed(ss: seq<Stmt>, inLoop: bool, returnsInt: bool, t: Tables, t': Tables, returned: bool) {
    && OuterSame(t, t')
    && Includes(t'.consts, t.consts) && ValuedWithin(t'.consts, t.consts, NeedsAll(ss))
    && (t'.ok ==> t.ok && Visible(t'.scopes) == Visible(t.scopes) + IntroducesAll(ss))
    && (t'.ok ==> t'.answered == t.answered + RecordedAll(ss, t'.consts))
    && (t'.ok && returned ==> Returns(Block(ss), t'.consts))
    && (t.ok ==> Analysed(Block(ss), inLoop, returnsInt, Visible(t.scopes), t.consts, t'.consts, t'.ok, returned))
  }

  lemma ListBegins(inLoop: bool, returnsInt: bool, t: Tables)
    requires t.scopes != []
    ensures ListAnalysed([], inLoop, returnsInt, t, t, false)
  {
    hide Introduces, Needs, RecordedAll, Returns;
    NothingAnalysed(inLoop, returnsInt, Visible(t.scopes), t.consts);
  }

  lemma ListNext(body: seq<Stmt>, i: nat, inLoop: bool, returnsInt: bool, t: Tables, mid: Tables, t': Tables,
                 returned: bool)
    requires hide *; i < |body| && SettledTables(t) && ListAnalysed(body[..i], inLoop, returnsInt, t, mid, false)
    requires StmtAnalysed(body[i], inLoop, returnsInt, mid, t', returned)
    ensures ListAnalysed(body[..i + 1], inLoop, returnsInt, t, t', returned)
  {
    hide Analysed, Returns, Visible, Needs, Introduces, Recorded;
    var ss := body[..i + 1];
    assert ss[..|ss| - 1] == body[..i];
    ReturnsLast(ss, t'.consts);
    assert NeedsAll(ss) == NeedsAll(body[..i]) + Needs(body[i]);
    if mid.ok {
      NextAnalysed(body, i, inLoop, returnsInt, Visible(t.scopes), t.consts, mid.consts, t'.consts, t'.ok, returned);
    } else if t.ok {
      FailureStays(body, i, i + 1, inLoop, returnsInt, Visible(t.scopes), t.consts, mid.consts, t'.consts, false,
                   returned);
    }
  }

  /** The next statement of a list may be analysed. */
  lemma NextReady(body: seq<Stmt>, i: nat, inLoop: bool, returnsInt: bool, t: Tables, mid: Tables, returned: bool)
    requires hide *; i < |body| && AllDistinct(body) && Unvalued(NeedsAll(body), t.consts)
    requires ListAnalysed(body[..i], inLoop, returnsInt, t, mid, returned)
    ensures DistinctNodes(body[i]) && Unvalued(Needs(body[i]), mid.consts)
  {
    hide DistinctNodes, IntroducesAll, Needs, RecordedAll, Returns;
    DistinctAt(body, i);
  }

  lemma ListDone(body: seq<Stmt>, i: nat, inLoop: bool, returnsInt: bool, t: Tables, t': Tables, returned: bool)
    requires hide *; i <= |body| && AllDistinct(body) && ListAnalysed(body[..i], inLoop, returnsInt, t, t', returned)
    requires i == |body| || returned
    ensures Includes(t'.consts, t.consts) && ValuedWithin(t'.consts, t.consts, NeedsAll(body))
    ensures t'.ok && returned ==> Returns(Block(body), t'.consts)
    ensures t'.ok ==> t.ok && t'.answered == t.answered + RecordedAll(body, t'.consts)
    ensures t.ok ==> Analysed(Block(body), inLoop, returnsInt, Visible(t.scopes), t.consts, t'.consts, t'.ok, returned)
  {
    hide AllDistinct, ConstOf, IntroducesAll, NeedsAll, RecordedAll, Analysed, Visible;
    assert body[..|body|] == body;
    DistinctPrefix(body, i);
    if returned && t'.ok {
      var j :| 0 <= j < i && Returns(body[..i][j], t'.consts);
      assert Returns(body[j], t'.consts);
    }
    if t.ok {
      BlockAnalysed(body, i, inLoop, returnsInt, Visible(t.scopes), t.consts, t'.consts, t'.ok, returned);
    }
  }

  lemma BlockDone(s: Stmt, i: nat, inLoop: bool, returnsInt: bool, t: Tables, pushed: Tables, last: Tables,
                  t': Tables, returned: bool)
    requires hide *;
             s.Block? && t.scopes != [] && pushed == t.(scopes := t.scopes + [{}]) && t' == last.(scopes := t.scopes)
    requires i <= |s.body| && AllDistinct(s.body)
             && ListAnalysed(s.body[..i], inLoop, returnsInt, pushed, last, returned)
    requires i == |s.body| || returned
    ensures StmtAnalysed(s, inLoop, returnsInt, t, t', returned)
  {
    hide AllDistinct, ExprNeeds, RecordedAll, Returns;
    Pushed(t.scopes);
    ListDone(s.body, i, inLoop, returnsInt, pushed, last, returned);
  }

  /** A statement that adds no constant. */
  lemma SimpleDone(s: Stmt, inLoop: bool, returnsInt: bool, t: Tables, t': Tables, returned: bool)
    requires s.Empty? || s.ExprStmt? || s.Assign? || s.VarDecl? || s.Break? || s.Continue? || s.Return?
    requires SettledTables(t) && OuterSame(t, t') && t'.consts == t.consts && returned == s.Return?
    requires t'.ok ==> Visible(t'.scopes) == Visible(t.scopes) + Introduces(s)
    requires t'.ok == (t.ok && Clean(s, inLoop, returnsInt, Visible(t.scopes), t.consts))
    requires t'.ok ==> t'.answered == t.answered + Needs(s)
    ensures StmtAnalysed(s, inLoop, returnsInt, t, t', returned)
  {
    hide Clean, Needs, Recorded, Returns, Visible;
    if t.ok {
      SimplyAnalysed(s, inLoop, returnsInt, Visible(t.scopes), t.consts, t'.ok, returned);
    }
    SimplyRecorded(s, t.consts);
  }

  lemma SimplyRecorded(s: Stmt, consts: Consts)
    requires s.Empty? || s.ExprStmt? || s.Assign? || s.VarDecl? || s.Break? || s.Continue? || s.Return?
    ensures Recorded(s, consts) == Needs(s) && Returns(s, consts) == s.Return?
  {
    hide ConstOf, ContainsBreak, ExprNeeds, RecordedAll;
  }

  lemma ConstDone(s: Stmt, inLoop: bool, returnsInt: bool, t: Tables, mid: Tables, t': Tables)
    requires hide *; s.ConstDecl? && SettledTables(t) && Unvalued(Needs(s), t.consts)
    requires !s.again ==> ExprAnalysed(s.init, t, mid)
    requires OuterSame(t, t')
    requires if s.again || ConstOf(s.init, t.consts).None? || !mid.ok then
               !t'.ok && Includes(t'.consts, t.consts) && ValuedWithin(t'.consts, t.consts, Needs(s))
             else
               && t'.ok && t'.consts == t.consts[s.id := ConstOf(s.init, t.consts).value]
               && Visible(t'.scopes) == Visible(t.scopes) + {Constant(s.id)}
               && t'.answered == mid.answered + {ConstValue(s.id)}
    ensures StmtAnalysed(s, inLoop, returnsInt, t, t', false)
  {
    hide Visible, Proper;
    assert s.id !in t.consts;
    if t.ok {
      ConstAnalysed(s, inLoop, returnsInt, Visible(t.scopes), t.consts, t'.consts, t'.ok);
    }
  }

  lemma IfDone(s: Stmt, inLoop: bool, returnsInt: bool, t: Tables, cond: Tables, mid: Tables, t': Tables,
               thenReturns: bool, elseReturns: bool)
    requires hide *; s.If? && SettledTables(t) && ExprAnalysed(s.cond, t, cond)
    requires StmtAnalysed(s.thenBranch, inLoop, returnsInt, cond, mid, thenReturns)
    requires s.elseBranch.None? ==> t' == mid && !elseReturns
    requires s.elseBranch.Some? ==> StmtAnalysed(s.elseBranch.value, inLoop, returnsInt, mid, t', elseReturns)
    ensures StmtAnalysed(s, inLoop, returnsInt, t, t', thenReturns && elseReturns)
  {
    hide ConstOf, ExprNeeds, Proper, Recorded, Visible, Analysed;
    if thenReturns && t'.ok {
      ReturnsKept(s.thenBranch, mid.consts, t'.consts);
    }
    if t.ok {
      IfAnalysed(s, inLoop, returnsInt, Visible(t.scopes), t.consts, mid.consts, t'.consts, cond.ok, mid.ok, t'.ok,
                 thenReturns, elseReturns);
    }
  }

  lemma IfReady(s: Stmt, inLoop: bool, returnsInt: bool, t: Tables, mid: Tables, thenReturns: bool)
    requires hide *; s.If? && DistinctNodes(s) && Unvalued(Needs(s), t.consts)
    ensures DistinctNodes(s.thenBranch) && Unvalued(Needs(s.thenBranch), t.consts)
    ensures s.elseBranch.Some? && StmtAnalysed(s.thenBranch, inLoop, returnsInt, t, mid, thenReturns) ==>
              DistinctNodes(s.elseBranch.value) && Unvalued(Needs(s.elseBranch.value), mid.consts)
  {
    assert Needs(s.thenBranch) <= Needs(s);
    assert s.elseBranch.Some? ==> Needs(s.elseBranch.value) <= Needs(s);
  }

  /** What returns leaves nothing in scope. */
  lemma {:induction false} ReturningIntroducesNothing(s: Stmt, consts: Consts)
    requires Returns(s, consts)
    ensures Introduces(s) == {}
  {
    hide ConstOf, ContainsBreak;
    match s
    case If(_, s1, s2) =>
      ReturningIntroducesNothing(s1, consts);
      ReturningIntroducesNothing(s2.value, consts);
    case While(_, b) => ReturningIntroducesNothing(b, consts);
    case _ =>
  }

  /** So the second evaluation decides nothing about a loop that returns. */
  lemma SameWhereItReturns(s: Stmt, scope: set<Decl>, consts: Consts)
    requires hide *; s.While? && DistinctNodes(s) && Returns(s.loopBody, consts)
    ensures ConstAgain(s.cond, scope, consts) == ConstOf(s.cond, consts)
  {
    ReturningIntroducesNothing(s.loopBody, consts);
    SteadyIsUncaptured(s.cond, scope);
    UncapturedIsSame(s.cond, scope, consts);
  }

  lemma WhileDone(s: Stmt, inLoop: bool, returnsInt: bool, t: Tables, cond: Tables, done: Tables, t': Tables,
                  v: Ir.Option<i32>, bodyReturns: bool)
    requires hide *; s.While? && SettledTables(t) && DistinctNodes(s) && ExprAnalysed(s.cond, t, cond)
    requires StmtAnalysed(s.loopBody, true, returnsInt, cond, done, bodyReturns)
    requires t' == done.(ok := t'.ok) && (t'.ok ==> done.ok)
    requires done.ok ==> v == ConstAgain(s.cond, Visible(done.scopes), done.consts)
                         && t'.ok == !FaultAgain(s.cond, Visible(done.scopes), done.consts)
    ensures StmtAnalysed(s, inLoop, returnsInt, t, t',
                         v.Some? && v.value != 0 && bodyReturns && !ContainsBreak(s.loopBody))
  {
    hide ConstAgain, ConstOf, DistinctNodes, FaultAgain, Proper, Visible, Analysed, ContainsBreak;
    if t.ok {
      if done.ok && bodyReturns {
        SameWhereItReturns(s, Visible(done.scopes), done.consts);
      }
      WhileAnalysed(s, inLoop, returnsInt, Visible(t.scopes), t.consts, t'.consts, cond.ok, done.ok, t'.ok,
                    bodyReturns, v.Some? && v.value != 0 && bodyReturns && !ContainsBreak(s.loopBody));
    }
  }

  lemma SimpleReady(s: Stmt, inLoop: bool, returnsInt: bool, t: Tables)
    requires hide *; s.Empty? || s.ExprStmt? || s.Assign? || s.VarDecl? || s.Break? || s.Continue? || s.Return?
    ensures Clean(s, inLoop, returnsInt, Visible(t.scopes), t.consts)
       <==> match s
            case ExprStmt(e) => Proper(e, Visible(t.scopes), t.consts)
            case Assign(_, d, e) => !d.Constant? && d in Visible(t.scopes) && Proper(e, Visible(t.scopes), t.consts)
            case VarDecl(_, e, again) => !again && Proper(e, Visible(t.scopes), t.consts)
            case Break => inLoop
            case Continue => inLoop
            case Return(v) => v.Some? == returnsInt && (v.Some? ==> Proper(v.value, Visible(t.scopes), t.consts))
            case _ => true
  {
    hide AllTidy, ConstOf, FaultAgain, Proper, Visits;
  }

  lemma BlockReady(s: Stmt, consts: Consts)
    requires hide *; s.Block? && DistinctNodes(s) && Unvalued(Needs(s), consts)
    ensures AllDistinct(s.body) && Unvalued(NeedsAll(s.body), consts)
  {
  }

  lemma WhileReady(s: Stmt, consts: Consts)
    requires hide *; s.While? && DistinctNodes(s) && Unvalued(Needs(s), consts)
    ensures DistinctNodes(s.loopBody) && Unvalued(Needs(s.loopBody), consts)
  {
    assert Needs(s.loopBody) <= Needs(s);
  }

  lemma VariableSettled(scope: set<Decl>, id: nat, consts: Consts)
    requires Settled(scope, consts)
    ensures Settled(scope + {Variable(id)}, consts)
  {
  }

  lemma ListScopes(ss: seq<Stmt>, inLoop: bool, returnsInt: bool, t: Tables, t': Tables, returned: bool)
    requires ListAnalysed(ss, inLoop, returnsInt, t, t', returned)
    ensures OuterSame(t, t') && t'.scopes != [] && Includes(t'.consts, t.consts)
  {
  }

  lemma StmtScopes(s: Stmt, inLoop: bool, returnsInt: bool, t: Tables, t': Tables, returned: bool)
    requires StmtAnalysed(s, inLoop, returnsInt, t, t', returned)
    ensures OuterSame(t, t') && t'.scopes != [] && Includes(t'.consts, t.consts)
  {
  }

  /** The scopes outside a block are as settled after it as before. */
  lemma StillSettled(t: Tables, t': Tables)
    requires SettledTables(t) && t'.scopes == t.scopes && Includes(t'.consts, t.consts)
    ensures SettledTables(t')
  {
  }

  lemma UnvaluedHere(s: Stmt, consts: Consts)
    requires s.ConstDecl? && Unvalued(Needs(s), consts)
    ensures s.id !in consts
  {
    assert ConstValue(s.id) in Needs(s);
  }

  lemma NoFaultsIfProper(e: Expr, t: Tables)
    ensures Proper(e, Visible(t.scopes), t.consts)
            <==> Resolves(e, Visible(t.scopes)) && CallsFit(e) && !Faults(e, t.consts)
    ensures Proper(e, Visible(t.scopes), t.consts) ==> !Fault(e, t.consts)
  {
    hide CallsFit, ConstOf, Decides, Fault;
    if !Faults(e, t.consts) {
      NoFaults(e, t.consts);
    }
  }

  /** What was found out about the condition is still known behind the body. */
  lemma CondKept(s: Stmt, returnsInt: bool, t: Tables, cond: Tables, done: Tables, bodyReturns: bool, found: set<Expr>,
                 all: set<Expr>)
    requires hide *; s.While? && SettledTables(t) && ExprAnalysed(s.cond, t, cond) && found <= all
    requires StmtAnalysed(s.loopBody, true, returnsInt, cond, done, bodyReturns)
    requires Resolves(s.cond, Visible(t.scopes)) ==> Kept(s.cond, found, t.consts)
    ensures done.ok ==> Kept(s.cond, all, done.consts)
  {
    hide ConstOf, ExprNeeds, Faults, Needs, Recorded, Resolves, Returns, Visible, Kept;
    if done.ok {
      KeptGrows(s.cond, found, all, t.consts);
      KeptMore(s.cond, all, Visible(t.scopes), t.consts, done.consts);
    }
  }

  /** What the analysis accepts. */
  predicate CleanFunction(f: FuncDef, returnsInt: bool, scope: set<Decl>, consts: Consts) {
    !f.again && Accepted(f, returnsInt, consts) && Tidy(Block(f.body), scope + ParamNames(f.params), consts)
  }

  /** There was no error exactly if the function can be clean; the tables then have what was visited. */
  ghost predicate FuncAnalysed(f: FuncDef, returnsInt: bool, t: Tables, t': Tables) {
    && Includes(t'.consts, t.consts) && ValuedWithin(t'.consts, t.consts, NeedsAll(f.body))
    && (t'.ok ==> t.ok && CleanFunction(f, returnsInt, Visible(t.scopes), t'.consts))
    && (t'.ok ==> t'.answered == t.answered + RecordedAll(f.body, t'.consts))
    && (t.ok ==> forall final :: Includes(final, t.consts) && CleanFunction(f, returnsInt, Visible(t.scopes), final) ==>
                   t'.ok && Includes(final, t'.consts))
  }

  lemma FuncDone(f: FuncDef, returnsInt: bool, t: Tables, inside: Tables, done: Tables, returned: bool, t': Tables)
    requires StmtAnalysed(Block(f.body), false, returnsInt, inside, done, returned)
    requires SettledTables(inside) && Visible(inside.scopes) == Visible(t.scopes) + ParamNames(f.params)
    requires inside.ok == t.ok && inside.consts == t.consts && inside.answered == t.answered
    requires t'.consts == done.consts && t'.answered == done.answered && t'.ok == (done.ok && (returnsInt ==> returned))
    requires !f.again
    ensures FuncAnalysed(f, returnsInt, t, t')
  {
    hide Checked, Returns, Tidy, Visible;
    var s, scope := Block(f.body), Visible(inside.scopes);
    if t.ok {
      forall final | Includes(final, t.consts) && CleanFunction(f, returnsInt, Visible(t.scopes), final)
        ensures t'.ok && Includes(final, t'.consts)
      {
        assert Clean(s, false, returnsInt, scope, final);
        SameStmt(s, scope, done.consts, final);
      }
    }
  }

  class Analyzer {
    /** The values of the declared constants, and of the expressions evaluated so far. */
    var constValues: Consts
    var exprValues: map<Expr, i32>
    /** The uses of names that were resolved. */
    var uses: set<nat>
    var scopes: seq<set<Decl>>
    var suppressDepth: nat
    var loopDepth: nat
    var ok: bool

    /** An analyzer in the scope of the declarations outside every function. */
    constructor (globals: set<string>, values: Consts)
      ensures Valid() && constValues == values && uses == {} && suppressDepth == 0 && loopDepth == 0 && ok
      ensures |scopes| == 1 && Scope() == GlobalNames(globals, values.Keys)
    {
      constValues, exprValues, uses, suppressDepth, loopDepth, ok := values, map[], {}, 0, 0, true;
      scopes := [GlobalNames(globals, values.Keys)];
      new;
      OneScope(GlobalNames(globals, values.Keys));
    }

    ghost function Scope(): set<Decl>
      reads this
    {
      Visible(scopes)
    }

    /** What the tables answer. */
    ghost function Answered(): set<Need>
      reads this
    {
      Answers(uses, constValues)
    }

    /** Every remembered value is the value of its expression, and every constant in scope has a value. */
    ghost predicate Valid()
      reads this
    {
      && Settled(Scope(), constValues)
      && forall e :: e in exprValues ==> ConstOf(e, constValues) == Ir.Some(exprValues[e])
    }

    method Remember(e: Expr, v: i32)
      requires hide *; Valid() && ConstOf(e, constValues) == Ir.Some(v)
      modifies `exprValues
      ensures Valid() && exprValues == old(exprValues)[e := v]
    {
      hide ConstOf, Visible;
      exprValues := exprValues[e := v];
    }

    /** Looks for a declaration from the innermost scope outwards. */
    method Resolve(d: Decl) returns (found: bool)
      ensures found == (d in Scope())
    {
      var i := |scopes|;
      while i > 0
        invariant 0 <= i <= |scopes| && forall j :: i <= j < |scopes| ==> d !in scopes[j]
      {
        i := i - 1;
        if d in scopes[i] {
          SeenFrom(scopes, i, d);
          return true;
        }
      }
      NowhereSeen(scopes, d);
      return false;
    }

    method PushScope()
      modifies `scopes
      ensures scopes == old(scopes) + [{}] && Scope() == old(Scope())
    {
      Pushed(scopes);
      scopes := scopes + [{}];
    }

    method Declare(d: Decl)
      requires scopes != []
      modifies `scopes
      ensures |scopes| == |old(scopes)| && scopes[..|scopes| - 1] == old(scopes)[..|scopes| - 1]
      ensures Scope() == old(Scope()) + {d}
    {
      Declared(scopes, d);
      scopes := scopes[|scopes| - 1 := scopes[|scopes| - 1] + {d}];
    }

    /** The value of an expression, from the table where it is known. */
    method EvalConst(e: Expr) returns (r: Ir.Option<i32>)
      requires hide *; Valid()
      modifies `exprValues, `ok
      ensures Valid() && (ok ==> old(ok)) && (r.Some? ==> r == ConstOf(e, constValues))
      ensures old(exprValues).Keys <= exprValues.Keys
      ensures suppressDepth > 0 ==> r.None? && ok == old(ok)
      ensures suppressDepth == 0 && Resolves(e, Scope()) ==>
                r == ConstOf(e, constValues) && ok == (old(ok) && !Fault(e, constValues))
    {
      if suppressDepth > 0 {
        return Ir.None;
      }
      if e in exprValues {
        ConstHasNoFault(e, constValues);
        return Ir.Some(exprValues[e]);
      }
      match e
      case IntLiteral(v) =>
        Remember(e, v);
        return Ir.Some(v);
      case Ident(_, d, _) =>
        var found := Resolve(d);
        if !found || !d.Constant? {
          return Ir.None;
        }
        Remember(e, constValues[d.id]);
        return Ir.Some(constValues[d.id]);
      case Unary(op, a) =>
        var x := EvalConst(a);
        return if x.None? then Ir.None else Ir.Some(Sign(op, x.value));
      case Binary(op, l, r) =>
        var x := EvalConst(l);
        if op == And || op == Or {
          if x.None? {
            return Ir.None;
          }
          if (op == And && x.value == 0) || (op == Or && x.value != 0) {
            Remember(e, if op == And then 0 else 1);
            return Ir.Some(if op == And then 0 else 1);
          }
          var y := EvalConst(r);
          if y.None? {
            return Ir.None;
          }
          Remember(e, Bool(y.value != 0));
          return Ir.Some(Bool(y.value != 0));
        }
        var y := EvalConst(r);
        if x.None? || y.None? {
          return Ir.None;
        }
        if (op == Div || op == Mod) && y.value == 0 {
          ok := false;
          return Ir.None;
        }
        Remember(e, Arith(op, x.value, y.value));
        return Ir.Some(Arith(op, x.value, y.value));
      case Call(_, _, _) =>
        return Ir.None;
    }

    /** Records what every name stands for, and evaluates what is constant in an expression, except the right operand
        of a logical operator that the left one decides. */
    method AnalyzeExpr(e: Expr)
      requires hide *; Valid()
      modifies `exprValues, `ok, `suppressDepth, `uses
      ensures Valid() && suppressDepth == old(suppressDepth)
      ensures ok == (old(ok) && Resolves(e, Scope()) && CallsFit(e)
                     && (suppressDepth == 0 ==> !Faults(e, constValues)))
      ensures ok ==> Answered() == old(Answered()) + ExprNeeds(e)
      ensures old(exprValues).Keys <= exprValues.Keys
      ensures suppressDepth == 0 && Resolves(e, Scope()) ==> Kept(e, exprValues.Keys, constValues)
      decreases e, 1
    {
      match e
      case IntLiteral(v) =>
        Remember(e, v);
      case Ident(n, d, _) =>
        var found := Resolve(d);
        if !found {
          ok := false;
          return;
        }
        uses := uses + {n};
        if d.Constant? {
          Remember(e, constValues[d.id]);
        }
      case Binary(_, _, _) =>
        AnalyzeBinary(e);
      case Unary(_, a) =>
        AnalyzeExpr(a);
        ghost var found := exprValues.Keys;
        EvalAndRemember(e);
        if suppressDepth == 0 && Resolves(e, Scope()) {
          KeptGrows(a, found, exprValues.Keys, constValues);
        }
      case Call(_, _, _) =>
        AnalyzeCall(e);
    }

    method AnalyzeBinary(e: Expr)
      requires hide *; Valid() && e.Binary?
      modifies `exprValues, `ok, `suppressDepth, `uses
      ensures Valid() && suppressDepth == old(suppressDepth)
      ensures ok == (old(ok) && Resolves(e, Scope()) && CallsFit(e)
                     && (suppressDepth == 0 ==> !Faults(e, constValues)))
      ensures ok ==> Answered() == old(Answered()) + ExprNeeds(e)
      ensures old(exprValues).Keys <= exprValues.Keys
      ensures suppressDepth == 0 && Resolves(e, Scope()) ==> Kept(e, exprValues.Keys, constValues)
      decreases e, 0
    {
      hide Fault, Settled, Answers;
      AnalyzeExpr(e.lhs);
      ghost var left := exprValues.Keys;
      if e.lhs in exprValues && ((e.op == And && exprValues[e.lhs] == 0) || (e.op == Or && exprValues[e.lhs] != 0)) {
        suppressDepth := suppressDepth + 1;
        AnalyzeExpr(e.rhs);
        suppressDepth := suppressDepth - 1;
        Remember(e, if e.op == And then 0 else 1);
      } else {
        AnalyzeExpr(e.rhs);
        ghost var right := exprValues.Keys;
        EvalAndRemember(e);
        if suppressDepth == 0 && Resolves(e, Scope()) {
          KeptGrows(e.lhs, left, exprValues.Keys, constValues);
          KeptGrows(e.rhs, right, exprValues.Keys, constValues);
        }
      }
    }

    method AnalyzeCall(e: Expr)
      requires hide *; Valid() && e.Call?
      modifies `exprValues, `ok, `suppressDepth, `uses
      ensures Valid() && suppressDepth == old(suppressDepth)
      ensures ok == (old(ok) && Resolves(e, Scope()) && CallsFit(e)
                     && (suppressDepth == 0 ==> !Faults(e, constValues)))
      ensures ok ==> Answered() == old(Answered()) + ExprNeeds(e)
      ensures old(exprValues).Keys <= exprValues.Keys
      decreases e, 0
    {
      hide Fault, Settled, Answers;
      assert e.args[..|e.args|] == e.args;
      if !e.fits {
        ok := false;
        return;
      }
      var i := 0;
      while i < |e.args|
        invariant 0 <= i <= |e.args| && Valid() && suppressDepth == old(suppressDepth)
        invariant ok == (old(ok) && AllResolve(e.args[..i], Scope()) && AllCallsFit(e.args[..i])
                         && (suppressDepth == 0 ==> !SomeFaults(e.args[..i], constValues)))
        invariant old(exprValues).Keys <= exprValues.Keys
        invariant ok ==> Answered() == old(Answered()) + ArgNeeds(e.args[..i])
      {
        assert e.args[..i + 1][..i] == e.args[..i];
        AnalyzeExpr(e.args[i]);
        i := i + 1;
      }
    }

    method EvalAndRemember(e: Expr)
      requires hide *; Valid()
      modifies `exprValues, `ok
      ensures Valid() && (ok ==> old(ok)) && (suppressDepth > 0 ==> ok == old(ok))
      ensures old(exprValues).Keys <= exprValues.Keys
      ensures suppressDepth == 0 && Resolves(e, Scope()) ==>
                && ok == (old(ok) && !Fault(e, constValues))
                && (ConstOf(e, constValues).Some? ==> e in exprValues)
    {
      hide ConstOf, Fault, Resolves;
      if suppressDepth == 0 {
        var v := EvalConst(e);
        if v.Some? {
          Remember(e, v.value);
        }
      }
    }

    /** Evaluates a condition once more, with its names looked up again. Nothing looks at its values afterwards, so they
        are not entered. */
    method EvalAgain(e: Expr) returns (r: Ir.Option<i32>)
      requires hide *; Valid()
      modifies `ok
      ensures Valid() && (ok ==> old(ok))
      ensures Kept(e, exprValues.Keys, constValues) ==>
                r == ConstAgain(e, Scope(), constValues) && ok == (old(ok) && !FaultAgain(e, Scope(), constValues))
    {
      if e in exprValues {
        return Ir.Some(exprValues[e]);
      }
      match e
      case IntLiteral(v) =>
        return Ir.Some(v);
      case Ident(_, _, behind) =>
        var found := Resolve(behind);
        return if found && behind.Constant? then Ir.Some(constValues[behind.id]) else Ir.None;
      case Unary(op, a) =>
        var x := EvalAgain(a);
        return if x.None? then Ir.None else Ir.Some(Sign(op, x.value));
      case Binary(op, l, r) =>
        var x := EvalAgain(l);
        if op == And || op == Or {
          if x.None? {
            return Ir.None;
          }
          if (op == And && x.value == 0) || (op == Or && x.value != 0) {
            return Ir.Some(if op == And then 0 else 1);
          }
          var y := EvalAgain(r);
          return if y.None? then Ir.None else Ir.Some(Bool(y.value != 0));
        }
        var y := EvalAgain(r);
        if x.None? || y.None? {
          return Ir.None;
        }
        if (op == Div || op == Mod) && y.value == 0 {
          ok := false;
          return Ir.None;
        }
        return Ir.Some(Arith(op, x.value, y.value));
      case Call(_, _, _) =>
        return Ir.None;
    }

    ghost function Now(): Tables
      reads this
    {
      Tables(scopes, constValues, Answered(), ok)
    }

    /** The analyzer stands before a statement that was not analysed yet. */
    ghost predicate Ready(s: Stmt)
      reads this
    {
      Valid() && suppressDepth == 0 && scopes != [] && DistinctNodes(s) && Unvalued(Needs(s), constValues)
    }

    method AnalyzeStmt(s: Stmt, returnsInt: bool) returns (returned: bool)
      requires hide *; Ready(s)
      modifies this
      ensures Valid() && suppressDepth == 0 && loopDepth == old(loopDepth)
      ensures old(exprValues).Keys <= exprValues.Keys
      ensures StmtAnalysed(s, loopDepth > 0, returnsInt, old(Now()), Now(), returned)
      decreases s, 1
    {
      hide StmtAnalysed, Clean, Visible, DistinctNodes, Unvalued, Settled;
      returned := false;
      match s
      case Block(_) =>
        returned := AnalyzeBlock(s, returnsInt);
      case Empty =>
        SimpleReady(s, loopDepth > 0, returnsInt, Now());
        SimpleDone(s, loopDepth > 0, returnsInt, old(Now()), Now(), returned);
      case ExprStmt(e) =>
        SimpleReady(s, loopDepth > 0, returnsInt, Now());
        AnalyzeExpr(e);
        SimpleDone(s, loopDepth > 0, returnsInt, old(Now()), Now(), returned);
      case Assign(_, _, _) =>
        AnalyzeAssign(s, returnsInt);
      case ConstDecl(_, _, _) =>
        AnalyzeLocalConst(s, returnsInt);
      case VarDecl(id, e, again) =>
        SimpleReady(s, loopDepth > 0, returnsInt, Now());
        if again {
          ok := false;
        } else {
          AnalyzeExpr(e);
          VariableSettled(Scope(), id, constValues);
          Declare(Variable(id));
        }
        SimpleDone(s, loopDepth > 0, returnsInt, old(Now()), Now(), returned);
      case If(_, _, _) =>
        returned := AnalyzeIf(s, returnsInt);
      case While(_, _) =>
        returned := AnalyzeWhile(s, returnsInt);
      case Break =>
        SimpleReady(s, loopDepth > 0, returnsInt, Now());
        if loopDepth == 0 {
          ok := false;
        }
        SimpleDone(s, loopDepth > 0, returnsInt, old(Now()), Now(), returned);
      case Continue =>
        SimpleReady(s, loopDepth > 0, returnsInt, Now());
        if loopDepth == 0 {
          ok := false;
        }
        SimpleDone(s, loopDepth > 0, returnsInt, old(Now()), Now(), returned);
      case Return(_) =>
        AnalyzeReturn(s, returnsInt);
        returned := true;
    }

    method AnalyzeBlock(s: Stmt, returnsInt: bool) returns (returned: bool)
      requires hide *; s.Block? && Ready(s)
      modifies this
      ensures Valid() && suppressDepth == 0 && loopDepth == old(loopDepth)
      ensures old(exprValues).Keys <= exprValues.Keys
      ensures StmtAnalysed(s, loopDepth > 0, returnsInt, old(Now()), Now(), returned)
      decreases s, 0
    {
      hide ConstOf, DistinctNodes, ExprNeeds, ListAnalysed, StmtAnalysed, Visible, Settled, AllDistinct, Unvalued;
      BlockReady(s, constValues);
      PushScope();
      ghost var t := Now();
      returned := false;
      var i := 0;
      assert s.body[..0] == [];
      ListBegins(loopDepth > 0, returnsInt, t);
      while i < |s.body| && !returned
        invariant 0 <= i <= |s.body| && Valid() && suppressDepth == 0 && loopDepth == old(loopDepth)
        invariant ListAnalysed(s.body[..i], loopDepth > 0, returnsInt, t, Now(), returned)
        invariant old(exprValues).Keys <= exprValues.Keys
        decreases |s.body| - i
      {
        ghost var mid := Now();
        NextReady(s.body, i, loopDepth > 0, returnsInt, t, mid, returned);
        ListScopes(s.body[..i], loopDepth > 0, returnsInt, t, mid, returned);
        returned := AnalyzeStmt(s.body[i], returnsInt);
        ListNext(s.body, i, loopDepth > 0, returnsInt, t, mid, Now(), returned);
        i := i + 1;
      }
      ghost var last := Now();
      ListScopes(s.body[..i], loopDepth > 0, returnsInt, t, last, returned);
      scopes := scopes[..|scopes| - 1];
      BlockDone(s, i, loopDepth > 0, returnsInt, old(Now()), t, last, Now(), returned);
      StillSettled(old(Now()), Now());
    }

    method AnalyzeAssign(s: Stmt, returnsInt: bool)
      requires hide *; s.Assign? && Ready(s)
      modifies this
      ensures Valid() && suppressDepth == 0 && loopDepth == old(loopDepth)
      ensures old(exprValues).Keys <= exprValues.Keys
      ensures StmtAnalysed(s, loopDepth > 0, returnsInt, old(Now()), Now(), false)
    {
      hide StmtAnalysed, Clean, Visible;
      SimpleReady(s, loopDepth > 0, returnsInt, Now());
      var found := Resolve(s.target);
      if !found || s.target.Constant? {
        ok := false;
      } else {
        uses := uses + {s.node};
      }
      AnalyzeExpr(s.value);
      SimpleDone(s, loopDepth > 0, returnsInt, old(Now()), Now(), false);
    }

    method DeclareConst(id: nat, v: i32)
      requires hide *; Valid() && scopes != [] && id !in constValues
      modifies `constValues, `scopes
      ensures Valid() && constValues == old(constValues)[id := v]
      ensures |scopes| == |old(scopes)| && scopes[..|scopes| - 1] == old(scopes)[..|scopes| - 1]
      ensures Scope() == old(Scope()) + {Constant(id)}
    {
      hide Visible;
      constValues := constValues[id := v];
      forall e | e in exprValues
        ensures ConstOf(e, constValues) == Ir.Some(exprValues[e])
      {
        ConstKept(e, old(constValues), constValues);
      }
      Declare(Constant(id));
    }

    /** A constant gets the value of its initialiser; one that is not constant is an error. */
    method AnalyzeLocalConst(s: Stmt, returnsInt: bool)
      requires hide *; s.ConstDecl? && Ready(s)
      modifies this
      ensures Valid() && suppressDepth == 0 && loopDepth == old(loopDepth)
      ensures old(exprValues).Keys <= exprValues.Keys
      ensures StmtAnalysed(s, loopDepth > 0, returnsInt, old(Now()), Now(), false)
    {
      hide StmtAnalysed, Visible, Proper, Fault, Faults, ConstOf, Settled;
      ghost var t := Now();
      UnvaluedHere(s, constValues);
      if s.again {
        ok := false;
        ConstDone(s, loopDepth > 0, returnsInt, t, t, Now());
        return;
      }
      AnalyzeExpr(s.init);
      ghost var mid := Now();
      NoFaultsIfProper(s.init, t);
      var v := EvalConst(s.init);
      if v.None? {
        ok := false;
      } else {
        DeclareConst(s.id, v.value);
      }
      ConstDone(s, loopDepth > 0, returnsInt, t, mid, Now());
    }

    method AnalyzeIf(s: Stmt, returnsInt: bool) returns (returned: bool)
      requires hide *; s.If? && Ready(s)
      modifies this
      ensures Valid() && suppressDepth == 0 && loopDepth == old(loopDepth)
      ensures old(exprValues).Keys <= exprValues.Keys
      ensures StmtAnalysed(s, loopDepth > 0, returnsInt, old(Now()), Now(), returned)
      decreases s, 0
    {
      hide ConstOf, DistinctNodes, Faults, Needs, Resolves, StmtAnalysed, Visible, Unvalued, Settled;
      ghost var t := Now();
      AnalyzeExpr(s.cond);
      ghost var cond := Now();
      IfReady(s, loopDepth > 0, returnsInt, cond, cond, false);
      var thenReturns := AnalyzeStmt(s.thenBranch, returnsInt);
      ghost var mid := Now();
      IfReady(s, loopDepth > 0, returnsInt, cond, mid, thenReturns);
      StmtScopes(s.thenBranch, loopDepth > 0, returnsInt, cond, mid, thenReturns);
      var elseReturns := false;
      if s.elseBranch.Some? {
        elseReturns := AnalyzeStmt(s.elseBranch.value, returnsInt);
      }
      returned := thenReturns && elseReturns;
      IfDone(s, loopDepth > 0, returnsInt, t, cond, mid, Now(), thenReturns, elseReturns);
    }

    method AnalyzeWhile(s: Stmt, returnsInt: bool) returns (returned: bool)
      requires hide *; s.While? && Ready(s)
      modifies this
      ensures Valid() && suppressDepth == 0 && loopDepth == old(loopDepth)
      ensures old(exprValues).Keys <= exprValues.Keys
      ensures StmtAnalysed(s, loopDepth > 0, returnsInt, old(Now()), Now(), returned)
      decreases s, 0
    {
      hide ConstAgain, ConstOf, DistinctNodes, Fault, FaultAgain, Faults, Needs, StmtAnalysed, Visible, Unvalued,
           Settled, ContainsBreak, Kept;
      ghost var t := Now();
      AnalyzeExpr(s.cond);
      ghost var cond, found := Now(), exprValues.Keys;
      WhileReady(s, constValues);
      loopDepth := loopDepth + 1;
      var bodyReturns := AnalyzeStmt(s.loopBody, returnsInt);
      loopDepth := loopDepth - 1;
      ghost var done := Now();
      CondKept(s, returnsInt, t, cond, done, bodyReturns, found, exprValues.Keys);
      var v := EvalAgain(s.cond);
      returned := v.Some? && v.value != 0 && bodyReturns && !ContainsBreak(s.loopBody);
      WhileDone(s, loopDepth > 0, returnsInt, t, cond, done, Now(), v, bodyReturns);
    }

    method AnalyzeReturn(s: Stmt, returnsInt: bool)
      requires hide *; s.Return? && Ready(s)
      modifies this
      ensures Valid() && suppressDepth == 0 && loopDepth == old(loopDepth)
      ensures old(exprValues).Keys <= exprValues.Keys
      ensures StmtAnalysed(s, loopDepth > 0, returnsInt, old(Now()), Now(), true)
    {
      hide StmtAnalysed, Clean, Visible;
      SimpleReady(s, loopDepth > 0, returnsInt, Now());
      if s.result.Some? {
        if !returnsInt {
          ok := false;
        }
        AnalyzeExpr(s.result.value);
      } else if returnsInt {
        ok := false;
      }
      SimpleDone(s, loopDepth > 0, returnsInt, old(Now()), Now(), true);
    }

    /** A function without errors is accepted, and every function that can be accepted at all has none. */
    method AnalyzeFunc(f: FuncDef, returnsInt: bool)
      requires hide *; Ready(Block(f.body))
      modifies this
      ensures Valid() && suppressDepth == 0 && scopes == old(scopes)
      ensures FuncAnalysed(f, returnsInt, old(Now()), Now())
    {
      hide Checked, ConstOf, Returns, Tidy, StmtAnalysed, Visible, Clean, DistinctNodes, Unvalued, Settled;
      ghost var t := Now();
      loopDepth := 0;
      if f.again {
        ok := false;
        return;
      }
      PushScope();
      var i := 0;
      NoParamNames();
      assert f.params[..0] == [];
      while i < |f.params|
        invariant 0 <= i <= |f.params| && Ready(Block(f.body)) && loopDepth == 0
        invariant |scopes| == |t.scopes| + 1 && scopes[..|t.scopes|] == t.scopes
        invariant Scope() == Visible(t.scopes) + ParamNames(f.params[..i])
        invariant ok == t.ok && constValues == t.consts && uses == old(uses)
      {
        NextParamName(f.params, i);
        VariableSettled(Scope(), f.params[i], constValues);
        Declare(Variable(f.params[i]));
        i := i + 1;
      }
      assert f.params[..i] == f.params;
      ghost var inside := Now();
      var returned := AnalyzeStmt(Block(f.body), returnsInt);
      ghost var done := Now();
      if returnsInt && !returned {
        ok := false;
      }
      StmtScopes(Block(f.body), false, returnsInt, inside, done, returned);
      scopes := scopes[..|scopes| - 1];
      FuncDone(f, returnsInt, t, inside, done, returned, Now());
      StillSettled(t, Now());
    }
  }

  // ----- where analysis and generation disagree -----

  /** The statements that the generator comes to although the analysis skipped them jump only inside loops. */
  predicate SkippedIsGenerable(s: Stmt, inLoop: bool, consts: Consts) {
    match s
    case Block(body) =>
      forall i: nat :: i < |body| && Shapes.Comes(body, i) ==>
        if Visits(body, i, consts) then SkippedIsGenerable(body[i], inLoop, consts)
          else Shapes.Generable(body[i], inLoop)
    case If(_, s1, s2) =>
      SkippedIsGenerable(s1, inLoop, consts) && (s2.Some? ==> SkippedIsGenerable(s2.value, inLoop, consts))
    case While(_, b) => SkippedIsGenerable(b, true, consts)
    case _ => true
  }

  /** What the analysis checked may be generated exactly if the same holds of what it skipped and the generator
      does not skip. */
  lemma {:induction false} CheckedIsGenerable(s: Stmt, inLoop: bool, returnsInt: bool, consts: Consts)
    requires Checked(s, inLoop, returnsInt, consts)
    ensures Shapes.Generable(s, inLoop) <==> SkippedIsGenerable(s, inLoop, consts)
  {
    match s
    case Block(body) =>
      forall i: nat | i < |body| && Shapes.Comes(body, i) && Visits(body, i, consts)
        ensures Shapes.Generable(body[i], inLoop) <==> SkippedIsGenerable(body[i], inLoop, consts)
      {
        CheckedIsGenerable(body[i], inLoop, returnsInt, consts);
      }
    case If(_, s1, s2) =>
      CheckedIsGenerable(s1, inLoop, returnsInt, consts);
      if s2.Some? {
        CheckedIsGenerable(s2.value, inLoop, returnsInt, consts);
      }
    case While(_, b) => CheckedIsGenerable(b, true, returnsInt, consts);
    case _ =>
  }

  /** An accepted function whose generation jumps outside every loop: `while (1) return 0; break;`. */
  lemma AcceptedButNotGenerable()
    ensures hide Checked, Returns, Shapes.Comes;
            var f := FuncDef([], [While(IntLiteral(1), Return(Ir.Some(IntLiteral(0)))), Break], false);
            Accepted(f, true, map[]) && !Shapes.Generable(Block(f.body), false)
  {
    var body := [While(IntLiteral(1), Return(Ir.Some(IntLiteral(0)))), Break];
    assert Returns(body[0], map[]);
    assert Shapes.Comes(body, 1) && !Shapes.Generable(body[1], false);
    assert Checked(body[0], false, true, map[]);
    assert !Visits(body, 1, map[]);
  }
}
