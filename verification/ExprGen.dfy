/** Generated expressions compute the values of their sources. */
module ExprGen {
  import opened Int32
  import opened Ir
  import opened Runs
  import opened Drafts
  import Ast

  /** No register below `next` changed. */
  ghost predicate Keeps(next: nat, fr: Frame, fr': Frame) {
    forall r: nat :: r < next ==> Get(fr'.regs, r) == Get(fr.regs, r)
  }

  predicate Known(v: Operand, next: nat) {
    v.Reg? ==> v.id < next
  }

  lemma KeptOperand(v: Operand, next: nat, params: seq<i32>, fr: Frame, fr': Frame)
    requires Known(v, next) && Keeps(next, fr, fr')
    ensures Eval(v, params, fr'.regs) == Eval(v, params, fr.regs)
  {
  }

  ghost predicate Arrives(m: Whole, g: Gen, g': Gen, fr: Frame, d: nat, fr': Frame, st': Ast.State) {
    && Extends(m, g) && Extends(m, g') && g.here < |g.blocks| && g'.here < |g'.blocks|
    && Goes(m.setup, Here(m, g, fr), d, Here(m, g', fr')) && Match(m, fr', st') && Keeps(g.next, fr, fr')
  }

  lemma ArrivesOn(m: Whole, g: Gen, g1: Gen, g2: Gen, fr: Frame, d1: nat, fr1: Frame, st1: Ast.State,
                  d2: nat, fr2: Frame, st2: Ast.State)
    requires hide *; Arrives(m, g, g1, fr, d1, fr1, st1) && Arrives(m, g1, g2, fr1, d2, fr2, st2) && g.next <= g1.next
    ensures Arrives(m, g, g2, fr, d1 + d2, fr2, st2)
  {
    hide Extends, Goes, Here, Steps;
    GoesOn(m.setup, Here(m, g, fr), d1, Here(m, g1, fr1), d2, Here(m, g2, fr2));
  }

  /** The code between two states ends in `st'` with `x` in `v`. */
  ghost predicate Computes(m: Whole, g: Gen, g': Gen, v: Operand, fr: Frame, x: i32, st': Ast.State) {
    exists d: nat, fr': Frame :: Arrives(m, g, g', fr, d, fr', st') && Eval(v, m.setup.params, fr'.regs) == x
  }

  ghost predicate ComputesAll(m: Whole, g: Gen, g': Gen, vs: seq<Operand>, fr: Frame, xs: seq<i32>, st': Ast.State) {
    exists d: nat, fr': Frame :: Arrives(m, g, g', fr, d, fr', st') && EvalAll(vs, m.setup.params, fr'.regs) == xs
  }

  /** The code between two states evaluates `e`, and leaves its value in `v`. */
  ghost predicate ExprRuns(m: Whole, g: Gen, e: Ast.Expr, g': Gen, v: Operand, fr: Frame, st: Ast.State) {
    Computes(m, g, g', v, fr, Ast.Eval(e, m.consts, m.setup.callees, st).0,
             Ast.Eval(e, m.consts, m.setup.callees, st).1)
  }

  ghost predicate ArgsRun(m: Whole, g: Gen, es: seq<Ast.Expr>, g': Gen, vs: seq<Operand>, fr: Frame, st: Ast.State) {
    ComputesAll(m, g, g', vs, fr, Ast.EvalArgs(es, m.consts, m.setup.callees, st).0,
                Ast.EvalArgs(es, m.consts, m.setup.callees, st).1)
  }

  /** What generating an expression does to the generator's state. */
  ghost predicate ExprShape(g: Gen, g': Gen, consts: Ast.Consts) {
    && Grows(g, g') && Moved(g, g') && Valid(g', consts) && Open(g')
    && g'.loops == g.loops && g'.symbols == g.symbols
  }

  ghost predicate ExprCompiled(g: Gen, e: Ast.Expr, g': Gen, v: Operand, consts: Ast.Consts) {
    && ExprShape(g, g', consts) && Known(v, g'.next)
    && forall m: Whole, fr: Frame, st: Ast.State ::
         !g'.failed && Extends(m, g') && m.consts == consts && Match(m, fr, st) ==> ExprRuns(m, g, e, g', v, fr, st)
  }

  ghost predicate ArgsCompiled(g: Gen, es: seq<Ast.Expr>, g': Gen, vs: seq<Operand>, consts: Ast.Consts) {
    && ExprShape(g, g', consts) && (forall i :: 0 <= i < |vs| ==> Known(vs[i], g'.next))
    && forall m: Whole, fr: Frame, st: Ast.State ::
         !g'.failed && Extends(m, g') && m.consts == consts && Match(m, fr, st) ==> ArgsRun(m, g, es, g', vs, fr, st)
  }

  lemma EmitShape(g: Gen, i: Inst, consts: Ast.Consts)
    requires hide EmitFresh, ExprShape, Grows, Table; Open(g) && !i.Alloca? && Valid(g, consts)
    ensures ExprShape(g, EmitFresh(g, i), consts) && EmitFresh(g, i).failed == g.failed
    ensures Grows(g, EmitFresh(g, i)) && EmitFresh(g, i).next == g.next + 1
  {
    EmitGrows(g, i, consts);
  }

  lemma CompiledShape(g: Gen, e: Ast.Expr, g': Gen, v: Operand, consts: Ast.Consts)
    requires ExprCompiled(g, e, g', v, consts)
    ensures ExprShape(g, g', consts) && Known(v, g'.next)
    ensures Grows(g, g') && g.next <= g'.next && (g.failed ==> g'.failed) && Open(g') && Valid(g', consts)
  {
    hide ExprRuns, Extends, Table;
  }

  lemma CompiledRuns(m: Whole, g: Gen, e: Ast.Expr, g': Gen, v: Operand, fr: Frame, st: Ast.State)
    returns (d: nat, fr': Frame)
    requires ExprCompiled(g, e, g', v, m.consts) && !g'.failed && Extends(m, g') && Match(m, fr, st)
    ensures Arrives(m, g, g', fr, d, fr', Ast.Eval(e, m.consts, m.setup.callees, st).1)
    ensures Match(m, fr', Ast.Eval(e, m.consts, m.setup.callees, st).1) && Extends(m, g)
    ensures Eval(v, m.setup.params, fr'.regs) == Ast.Eval(e, m.consts, m.setup.callees, st).0
  {
    hide Extends, Match, ExprShape, Goes, Here, Keeps, Eval, Ast.Eval;
    assert ExprRuns(m, g, e, g', v, fr, st) by {
      hide ExprRuns;
    }
    hide ExprCompiled;
    d, fr' :| Arrives(m, g, g', fr, d, fr', Ast.Eval(e, m.consts, m.setup.callees, st).1)
      && Eval(v, m.setup.params, fr'.regs) == Ast.Eval(e, m.consts, m.setup.callees, st).0;
  }

  lemma ExprShapeOn(g: Gen, g1: Gen, g2: Gen, consts: Ast.Consts)
    requires ExprShape(g, g1, consts) && ExprShape(g1, g2, consts)
    ensures ExprShape(g, g2, consts)
  {
    hide Grows, Valid;
    GrowsOn(g, g1, g2);
  }

  lemma ArrivesHere(m: Whole, g: Gen, fr: Frame, st: Ast.State)
    requires hide *; Extends(m, g) && g.here < |g.blocks| && Match(m, fr, st)
    ensures Arrives(m, g, g, fr, 0, fr, st)
  {
    hide Carries, Here, RunBlock, Steps, Table;
  }

  lemma ConstCompiled(g: Gen, e: Ast.Expr, v: i32, consts: Ast.Consts)
    requires hide *; Valid(g, consts) && Open(g)
    requires e == Ast.IntLiteral(v) || (e.Ident? && e.decl in g.symbols && g.symbols[e.decl] == Value(v))
    ensures ExprCompiled(g, e, g, Const(v), consts)
  {
    hide Arrives, Ast.Arith;
    if e.Ident? {
      assert Bound(e.decl, g.symbols[e.decl], consts);
    }
    forall m: Whole, fr: Frame, st: Ast.State | !g.failed && Extends(m, g) && m.consts == consts && Match(m, fr, st)
      ensures ExprRuns(m, g, e, g, Const(v), fr, st)
    {
      assert Ast.Eval(e, m.consts, m.setup.callees, st) == (v, st);
      ArrivesHere(m, g, fr, st);
      assert Eval(Const(v), m.setup.params, fr.regs) == v;
    }
  }

  /** Passing one emitted instruction whose result, if any, is fresh. */
  lemma ArrivesStep(m: Whole, g: Gen, i: Inst, g': Gen, fr: Frame, st': Ast.State, consts: Ast.Consts)
    requires hide Arrives, Extends, Step, Table;
             Open(g) && !i.Alloca? && Valid(g, consts) && (g' == Emit(g, i) || g' == EmitFresh(g, i)) && Extends(m, g')
    requires Match(m, Step(i, m.setup.params, m.setup.callees, fr), st')
    requires Keeps(g.next, fr, Step(i, m.setup.params, m.setup.callees, fr))
    ensures Arrives(m, g, g', fr, 0, Step(i, m.setup.params, m.setup.callees, fr), st')
  {
    hide Extends, Here, RunBlock, Step, Table;
    EmitRuns(m, g, i, g', fr, consts);
  }

  lemma FailedCompiled(g: Gen, e: Ast.Expr, g': Gen, v: Operand, consts: Ast.Consts)
    requires ExprShape(g, g', consts) && g'.failed && Known(v, g'.next)
    ensures ExprCompiled(g, e, g', v, consts)
  {
    hide ExprRuns, Extends, Grows, Valid;
  }

  function AddressOf(s: Symbol): Pointer
    requires !s.Value?
  {
    match s
    case Local(slot) => Slot(slot)
    case Address(name) => Global(name)
  }

  lemma LoadRuns(m: Whole, g: Gen, n: nat, d: Ast.Decl, behind: Ast.Decl, fr: Frame, st: Ast.State)
    requires hide ExprRuns, Extends, Table; Valid(g, m.consts) && Open(g) && d in g.symbols && !g.symbols[d].Value?
    requires Extends(m, EmitFresh(g, Load(g.next, AddressOf(g.symbols[d])))) && Match(m, fr, st)
    ensures ExprRuns(m, g, Ast.Ident(n, d, behind), EmitFresh(g, Load(g.next, AddressOf(g.symbols[d]))), Reg(g.next),
                     fr, st)
  {
    hide Arrives, Carries;
    var i := Load(g.next, AddressOf(g.symbols[d]));
    var g' := EmitFresh(g, i);
    assert Bound(d, g.symbols[d], m.consts);
    var fr' := Step(i, m.setup.params, m.setup.callees, fr);
    var (x, st') := Ast.Eval(Ast.Ident(n, d, behind), m.consts, m.setup.callees, st);
    assert d in m.symbols && m.symbols[d] == g.symbols[d];
    assert Match(m, fr', st') && Keeps(g.next, fr, fr');
    ArrivesStep(m, g, i, g', fr, st', m.consts);
    assert Eval(Reg(g.next), m.setup.params, fr'.regs) == x;
  }

  lemma LoadCompiled(g: Gen, n: nat, d: Ast.Decl, behind: Ast.Decl, consts: Ast.Consts)
    requires hide ExprCompiled; Valid(g, consts) && Open(g) && d in g.symbols && !g.symbols[d].Value?
    ensures ExprCompiled(g, Ast.Ident(n, d, behind), EmitFresh(g, Load(g.next, AddressOf(g.symbols[d]))), Reg(g.next),
                         consts)
  {
    hide Extends, Match, ExprRuns, Valid;
    var i := Load(g.next, AddressOf(g.symbols[d]));
    EmitGrows(g, i, consts);
    forall m: Whole, fr: Frame, st: Ast.State | Extends(m, EmitFresh(g, i)) && m.consts == consts && Match(m, fr, st)
      ensures ExprRuns(m, g, Ast.Ident(n, d, behind), EmitFresh(g, i), Reg(g.next), fr, st)
    {
      LoadRuns(m, g, n, d, behind, fr, st);
    }
  }

  function UnaryInst(op: Ast.UnaryOp, dst: nat, v: Operand): Inst
    requires op != Ast.Plus
  {
    if op == Ast.Minus then Unary(dst, Neg, v) else Binary(dst, ICmpEq, v, Const(0))
  }

  lemma UnaryStep(m: Whole, g: Gen, g1: Gen, v: Operand, op: Ast.UnaryOp, fr: Frame, d: nat, fr1: Frame, x: i32,
                  st1: Ast.State)
    requires hide Arrives, Extends, Table; op != Ast.Plus && Valid(g1, m.consts) && Open(g1) && g.next <= g1.next
    requires Extends(m, EmitFresh(g1, UnaryInst(op, g1.next, v)))
    requires Arrives(m, g, g1, fr, d, fr1, st1) && Eval(v, m.setup.params, fr1.regs) == x
    ensures Computes(m, g, EmitFresh(g1, UnaryInst(op, g1.next, v)), Reg(g1.next), fr, Ast.Sign(op, x), st1)
  {
    hide Extends, Goes, Here, Valid;
    var i := UnaryInst(op, g1.next, v);
    var g2 := EmitFresh(g1, i);
    var fr2 := Step(i, m.setup.params, m.setup.callees, fr1);
    ArrivesStep(m, g1, i, g2, fr1, st1, m.consts);
    ArrivesOn(m, g, g1, g2, fr, d, fr1, st1, 0, fr2, st1);
    assert Eval(Reg(g1.next), m.setup.params, fr2.regs) == Ast.Sign(op, x);
  }

  lemma UnaryValue(m: Whole, e: Ast.Expr, op: Ast.UnaryOp, st: Ast.State)
    ensures var (a, st1) := Ast.Eval(e, m.consts, m.setup.callees, st);
            Ast.Eval(Ast.Unary(op, e), m.consts, m.setup.callees, st) == (Ast.Sign(op, a), st1)
  {
  }

  lemma PlusCompiled(g: Gen, e: Ast.Expr, g1: Gen, v: Operand, consts: Ast.Consts)
    requires ExprCompiled(g, e, g1, v, consts)
    ensures ExprCompiled(g, Ast.Unary(Ast.Plus, e), g1, v, consts)
  {
    hide Ast.Eval, Computes, Extends, Grows, Valid;
    CompiledShape(g, e, g1, v, consts);
    forall m: Whole, fr: Frame, st: Ast.State | !g1.failed && Extends(m, g1) && m.consts == consts && Match(m, fr, st)
      ensures ExprRuns(m, g, Ast.Unary(Ast.Plus, e), g1, v, fr, st)
    {
      assert ExprRuns(m, g, e, g1, v, fr, st);
      UnaryValue(m, e, Ast.Plus, st);
      hide Extends, Match, Grows, Valid, Computes;
    }
  }

  lemma UnaryCompiled(g: Gen, e: Ast.Expr, g1: Gen, v: Operand, op: Ast.UnaryOp, consts: Ast.Consts)
    requires hide ExprRuns, Extends, Grows, Valid; ExprCompiled(g, e, g1, v, consts) && op != Ast.Plus
    ensures ExprCompiled(g, Ast.Unary(op, e), EmitFresh(g1, UnaryInst(op, g1.next, v)), Reg(g1.next), consts)
  {
    var i := UnaryInst(op, g1.next, v);
    var g2 := EmitFresh(g1, i);
    CompiledShape(g, e, g1, v, consts);
    EmitShape(g1, i, consts);
    ExprShapeOn(g, g1, g2, consts);
    forall m: Whole, fr: Frame, st: Ast.State | !g2.failed && Extends(m, g2) && m.consts == consts && Match(m, fr, st)
      ensures ExprRuns(m, g, Ast.Unary(op, e), g2, Reg(g1.next), fr, st)
    {
      hide *;
      ExtendsBack(m, g1, g2);
      var d1, fr1 := CompiledRuns(m, g, e, g1, v, fr, st);
      UnaryStep(m, g, g1, v, op, fr, d1, fr1, Ast.Eval(e, consts, m.setup.callees, st).0,
                Ast.Eval(e, consts, m.setup.callees, st).1);
      UnaryValue(m, e, op, st);
      ComputedExpr(m, g, Ast.Unary(op, e), g2, Reg(g1.next), fr, st);
    }
  }

  function Opcode(op: Ast.BinaryOp): BinaryOp
    requires op != Ast.And && op != Ast.Or
  {
    match op
    case Add => Add
    case Sub => Sub
    case Mul => Mul
    case Div => Sdiv
    case Mod => Srem
    case Lt => ICmpSlt
    case Le => ICmpSle
    case Gt => ICmpSgt
    case Ge => ICmpSge
    case Eq => ICmpEq
    case _ => ICmpNe
  }

  /** A value in hand survives the evaluation of the next expression. */
  lemma KeptOver(m: Whole, g: Gen, g1: Gen, g2: Gen, x: Operand, fr: Frame, d1: nat, fr1: Frame, st1: Ast.State,
                 d2: nat, fr2: Frame, st2: Ast.State)
    requires hide *; Arrives(m, g, g1, fr, d1, fr1, st1) && Arrives(m, g1, g2, fr1, d2, fr2, st2)
    requires Known(x, g1.next) && g.next <= g1.next
    ensures Arrives(m, g, g2, fr, d1 + d2, fr2, st2)
    ensures Eval(x, m.setup.params, fr2.regs) == Eval(x, m.setup.params, fr1.regs)
  {
    hide Extends, Goes, Here, Steps;
    KeptOperand(x, g1.next, m.setup.params, fr1, fr2);
    ArrivesOn(m, g, g1, g2, fr, d1, fr1, st1, d2, fr2, st2);
  }

  lemma BinaryRuns(m: Whole, g: Gen, l: Ast.Expr, g1: Gen, x: Operand, r: Ast.Expr, g2: Gen, y: Operand,
                   op: Ast.BinaryOp, fr: Frame, st: Ast.State)
    requires op != Ast.And && op != Ast.Or
    requires ExprCompiled(g, l, g1, x, m.consts) && ExprCompiled(g1, r, g2, y, m.consts)
    requires !g2.failed && Extends(m, g2) && Extends(m, EmitFresh(g2, Binary(g2.next, Opcode(op), x, y)))
    requires Match(m, fr, st)
    ensures ExprRuns(m, g, Ast.Binary(op, l, r), EmitFresh(g2, Binary(g2.next, Opcode(op), x, y)), Reg(g2.next), fr, st)
  {
    hide *;
    CompiledShape(g, l, g1, x, m.consts);
    CompiledShape(g1, r, g2, y, m.consts);
    ShapeFacts(g1, g2, m.consts);
    ExtendsBack(m, g1, g2);
    var a, st1 := Ast.Eval(l, m.consts, m.setup.callees, st).0, Ast.Eval(l, m.consts, m.setup.callees, st).1;
    var d1, fr1 := CompiledRuns(m, g, l, g1, x, fr, st);
    var b, st2 := Ast.Eval(r, m.consts, m.setup.callees, st1).0, Ast.Eval(r, m.consts, m.setup.callees, st1).1;
    var d2, fr2 := CompiledRuns(m, g1, r, g2, y, fr1, st1);
    KeptOver(m, g, g1, g2, x, fr, d1, fr1, st1, d2, fr2, st2);
    BinaryStep(m, g, g2, x, y, op, fr, d1 + d2, fr2, a, b, st2);
    BinaryValue(m, l, r, op, st);
    ComputedExpr(m, g, Ast.Binary(op, l, r), EmitFresh(g2, Binary(g2.next, Opcode(op), x, y)), Reg(g2.next), fr, st);
  }

  lemma ComputedExpr(m: Whole, g: Gen, e: Ast.Expr, g': Gen, v: Operand, fr: Frame, st: Ast.State)
    requires Computes(m, g, g', v, fr, Ast.Eval(e, m.consts, m.setup.callees, st).0,
                      Ast.Eval(e, m.consts, m.setup.callees, st).1)
    ensures ExprRuns(m, g, e, g', v, fr, st)
  {
    hide Arrives, Ast.Arith;
  }

  lemma BinaryValue(m: Whole, l: Ast.Expr, r: Ast.Expr, op: Ast.BinaryOp, st: Ast.State)
    requires op != Ast.And && op != Ast.Or
    ensures var (a, st1) := Ast.Eval(l, m.consts, m.setup.callees, st);
            var (b, st2) := Ast.Eval(r, m.consts, m.setup.callees, st1);
            Ast.Eval(Ast.Binary(op, l, r), m.consts, m.setup.callees, st) == (Ast.Arith(op, a, b), st2)
  {
    hide Ast.Arith, Ast.EvalArgs, Ast.Fetch, Ast.Invoke, Ast.Sign, Wrap;
  }

  lemma BinaryStep(m: Whole, g: Gen, g2: Gen, x: Operand, y: Operand, op: Ast.BinaryOp, fr: Frame,
                   d: nat, fr2: Frame, a: i32, b: i32, st2: Ast.State)
    requires hide Arrives, Ast.Arith, Extends, Opcode, Table;
             op != Ast.And && op != Ast.Or && g.next <= g2.next && Open(g2) && Valid(g2, m.consts)
    requires Extends(m, EmitFresh(g2, Binary(g2.next, Opcode(op), x, y)))
    requires Arrives(m, g, g2, fr, d, fr2, st2)
    requires Eval(x, m.setup.params, fr2.regs) == a && Eval(y, m.setup.params, fr2.regs) == b
    ensures Computes(m, g, EmitFresh(g2, Binary(g2.next, Opcode(op), x, y)), Reg(g2.next), fr, Ast.Arith(op, a, b), st2)
  {
    hide Extends, Valid, Goes, Here;
    var i := Binary(g2.next, Opcode(op), x, y);
    var g3 := EmitFresh(g2, i);
    var fr3 := Step(i, m.setup.params, m.setup.callees, fr2);
    ArrivesStep(m, g2, i, g3, fr2, st2, m.consts);
    ArrivesOn(m, g, g2, g3, fr, d, fr2, st2, 0, fr3, st2);
    assert Eval(Reg(g2.next), m.setup.params, fr3.regs) == Ast.Arith(op, a, b);
  }

  lemma BinaryCompiled(g: Gen, l: Ast.Expr, g1: Gen, x: Operand, r: Ast.Expr, g2: Gen, y: Operand,
                       op: Ast.BinaryOp, consts: Ast.Consts)
    requires hide ExprRuns, Extends, Grows, Opcode;
             ExprCompiled(g, l, g1, x, consts) && ExprCompiled(g1, r, g2, y, consts) && op != Ast.And && op != Ast.Or
    ensures ExprCompiled(g, Ast.Binary(op, l, r), EmitFresh(g2, Binary(g2.next, Opcode(op), x, y)), Reg(g2.next),
                         consts)
  {
    var i := Binary(g2.next, Opcode(op), x, y);
    var g3 := EmitFresh(g2, i);
    CompiledShape(g, l, g1, x, consts);
    CompiledShape(g1, r, g2, y, consts);
    EmitShape(g2, i, consts);
    ExprShapeOn(g, g1, g2, consts);
    ExprShapeOn(g, g2, g3, consts);
    forall m: Whole, fr: Frame, st: Ast.State | !g3.failed && Extends(m, g3) && m.consts == consts && Match(m, fr, st)
      ensures ExprRuns(m, g, Ast.Binary(op, l, r), g3, Reg(g2.next), fr, st)
    {
      hide *;
      ExtendsBack(m, g2, g3);
      BinaryRuns(m, g, l, g1, x, r, g2, y, op, fr, st);
    }
  }

  lemma ArgsStart(g: Gen, consts: Ast.Consts)
    requires Valid(g, consts) && Open(g)
    ensures ArgsCompiled(g, [], g, [], consts)
  {
    forall m: Whole, fr: Frame, st: Ast.State | !g.failed && Extends(m, g) && m.consts == consts && Match(m, fr, st)
      ensures ArgsRun(m, g, [], g, [], fr, st)
    {
      ArrivesHere(m, g, fr, st);
      assert EvalAll([], m.setup.params, fr.regs) == [];
    }
  }

  lemma ArgsShape(g: Gen, es: seq<Ast.Expr>, g': Gen, vs: seq<Operand>, consts: Ast.Consts)
    requires hide *; ArgsCompiled(g, es, g', vs, consts)
    ensures ExprShape(g, g', consts) && forall i :: 0 <= i < |vs| ==> Known(vs[i], g'.next)
    ensures Grows(g, g') && g.next <= g'.next && (g.failed ==> g'.failed) && Open(g') && Valid(g', consts)
  {
    hide ArgsRun, Extends;
  }

  lemma ArgsCompiledRun(m: Whole, g: Gen, es: seq<Ast.Expr>, g': Gen, vs: seq<Operand>, fr: Frame, st: Ast.State)
    returns (d: nat, fr': Frame)
    requires ArgsCompiled(g, es, g', vs, m.consts) && !g'.failed && Extends(m, g') && Match(m, fr, st)
    ensures Arrives(m, g, g', fr, d, fr', Ast.EvalArgs(es, m.consts, m.setup.callees, st).1)
    ensures Match(m, fr', Ast.EvalArgs(es, m.consts, m.setup.callees, st).1) && Extends(m, g)
    ensures EvalAll(vs, m.setup.params, fr'.regs) == Ast.EvalArgs(es, m.consts, m.setup.callees, st).0
  {
    hide Ast.EvalArgs, Carries, Goes, Grows, Here, Steps;
    assert Grows(g, g');
    ExtendsBack(m, g, g');
    hide Extends, Valid, Match, Grows, Goes, Here, ExprShape;
    assert ArgsRun(m, g, es, g', vs, fr, st);
    d, fr' :| Arrives(m, g, g', fr, d, fr', Ast.EvalArgs(es, m.consts, m.setup.callees, st).1)
      && EvalAll(vs, m.setup.params, fr'.regs) == Ast.EvalArgs(es, m.consts, m.setup.callees, st).0;
  }

  lemma ArgsNextValue(m: Whole, es: seq<Ast.Expr>, i: nat, st: Ast.State)
    requires hide *; i < |es|
    ensures var (xs, st1) := Ast.EvalArgs(es[..i], m.consts, m.setup.callees, st);
            var (x, st2) := Ast.Eval(es[i], m.consts, m.setup.callees, st1);
            Ast.EvalArgs(es[..i + 1], m.consts, m.setup.callees, st) == (xs + [x], st2)
  {
    hide Ast.Eval;
    assert es[..i + 1][..i] == es[..i];
  }

  /** The arguments in hand survive the evaluation of the next one. */
  lemma KeptArgs(m: Whole, g: Gen, g1: Gen, g2: Gen, vs: seq<Operand>, v: Operand, fr: Frame, d1: nat, fr1: Frame,
                 st1: Ast.State, d2: nat, fr2: Frame, st2: Ast.State)
    requires hide *; Arrives(m, g, g1, fr, d1, fr1, st1) && Arrives(m, g1, g2, fr1, d2, fr2, st2)
    requires (forall i :: 0 <= i < |vs| ==> Known(vs[i], g1.next)) && g.next <= g1.next
    ensures ComputesAll(m, g, g2, vs + [v], fr,
                        EvalAll(vs, m.setup.params, fr1.regs) + [Eval(v, m.setup.params, fr2.regs)], st2)
  {
    hide Goes, Leave, Steps, Table;
    ArrivesOn(m, g, g1, g2, fr, d1, fr1, st1, d2, fr2, st2);
    assert Keeps(g1.next, fr1, fr2);
    hide Arrives, Extends;
    forall i | 0 <= i < |vs|
      ensures Eval(vs[i], m.setup.params, fr2.regs) == Eval(vs[i], m.setup.params, fr1.regs)
    {
      KeptOperand(vs[i], g1.next, m.setup.params, fr1, fr2);
    }
    assert EvalAll(vs + [v], m.setup.params, fr2.regs)
        == EvalAll(vs, m.setup.params, fr1.regs) + [Eval(v, m.setup.params, fr2.regs)];
  }

  lemma ArgsNext(g: Gen, es: seq<Ast.Expr>, i: nat, g1: Gen, vs: seq<Operand>, g2: Gen, v: Operand, consts: Ast.Consts)
    requires hide *; i < |es| && ArgsCompiled(g, es[..i], g1, vs, consts) && ExprCompiled(g1, es[i], g2, v, consts)
    ensures ArgsCompiled(g, es[..i + 1], g2, vs + [v], consts)
  {
    ArgsShape(g, es[..i], g1, vs, consts);
    CompiledShape(g1, es[i], g2, v, consts);
    ExprShapeOn(g, g1, g2, consts);
    forall m: Whole, fr: Frame, st: Ast.State | !g2.failed && Extends(m, g2) && m.consts == consts && Match(m, fr, st)
      ensures ArgsRun(m, g, es[..i + 1], g2, vs + [v], fr, st)
    {
      hide *;
      ExtendsBack(m, g1, g2);
      var d1, fr1 := ArgsCompiledRun(m, g, es[..i], g1, vs, fr, st);
      var st1 := Ast.EvalArgs(es[..i], consts, m.setup.callees, st).1;
      var d2, fr2 := CompiledRuns(m, g1, es[i], g2, v, fr1, st1);
      KeptArgs(m, g, g1, g2, vs, v, fr, d1, fr1, st1, d2, fr2, Ast.Eval(es[i], consts, m.setup.callees, st1).1);
      ArgsNextValue(m, es, i, st);
      ComputedArgs(m, g, es[..i + 1], g2, vs + [v], fr, st);
    }
    forall j | 0 <= j < |vs + [v]|
      ensures Known((vs + [v])[j], g2.next)
    {
    }
  }

  lemma ComputedArgs(m: Whole, g: Gen, es: seq<Ast.Expr>, g': Gen, vs: seq<Operand>, fr: Frame, st: Ast.State)
    requires ComputesAll(m, g, g', vs, fr, Ast.EvalArgs(es, m.consts, m.setup.callees, st).0,
                         Ast.EvalArgs(es, m.consts, m.setup.callees, st).1)
    ensures ArgsRun(m, g, es, g', vs, fr, st)
  {
    hide Arrives, Ast.Eval, EvalAll;
  }

  lemma CallStep(m: Whole, g: Gen, g1: Gen, callee: string, vs: seq<Operand>, fr: Frame, d: nat, fr1: Frame,
                 xs: seq<i32>, st1: Ast.State)
    requires hide Arrives, Extends, Table; Valid(g1, m.consts) && Open(g1) && g.next <= g1.next
    requires Extends(m, EmitFresh(g1, Call(g1.next, callee, vs)))
    requires Arrives(m, g, g1, fr, d, fr1, st1) && EvalAll(vs, m.setup.params, fr1.regs) == xs
    ensures var (x, st2) := Ast.Invoke(callee, xs, m.setup.callees, st1);
            Computes(m, g, EmitFresh(g1, Call(g1.next, callee, vs)), Reg(g1.next), fr, x, st2)
  {
    hide Binop, Extends, Goes, Here, Unop, Valid;
    var i := Call(g1.next, callee, vs);
    var g2 := EmitFresh(g1, i);
    var fr2 := Step(i, m.setup.params, m.setup.callees, fr1);
    var x, st2 := Ast.Invoke(callee, xs, m.setup.callees, st1).0, Ast.Invoke(callee, xs, m.setup.callees, st1).1;
    ArrivesStep(m, g1, i, g2, fr1, st2, m.consts);
    ArrivesOn(m, g, g1, g2, fr, d, fr1, st1, 0, fr2, st2);
    assert Eval(Reg(g1.next), m.setup.params, fr2.regs) == x;
  }

  lemma CallCompiled(g: Gen, es: seq<Ast.Expr>, g1: Gen, vs: seq<Operand>, callee: string, fits: bool,
                     consts: Ast.Consts)
    requires hide ArgsRun, Arrives, Ast.Eval, ExprCompiled, Extends; ArgsCompiled(g, es, g1, vs, consts)
    ensures ExprCompiled(g, Ast.Call(callee, es, fits), EmitFresh(g1, Call(g1.next, callee, vs)), Reg(g1.next), consts)
  {
    var i := Call(g1.next, callee, vs);
    var g2 := EmitFresh(g1, i);
    ArgsShape(g, es, g1, vs, consts);
    EmitShape(g1, i, consts);
    ExprShapeOn(g, g1, g2, consts);
    forall m: Whole, fr: Frame, st: Ast.State | !g2.failed && Extends(m, g2) && m.consts == consts && Match(m, fr, st)
      ensures ExprRuns(m, g, Ast.Call(callee, es, fits), g2, Reg(g1.next), fr, st)
    {
      hide *;
      ExtendsBack(m, g1, g2);
      var d, fr1 := ArgsCompiledRun(m, g, es, g1, vs, fr, st);
      CallStep(m, g, g1, callee, vs, fr, d, fr1, Ast.EvalArgs(es, consts, m.setup.callees, st).0,
               Ast.EvalArgs(es, consts, m.setup.callees, st).1);
      CallValue(m, callee, es, fits, st);
      ComputedExpr(m, g, Ast.Call(callee, es, fits), g2, Reg(g1.next), fr, st);
    }
  }

  lemma CallValue(m: Whole, callee: string, es: seq<Ast.Expr>, fits: bool, st: Ast.State)
    ensures var (xs, st1) := Ast.EvalArgs(es, m.consts, m.setup.callees, st);
            Ast.Eval(Ast.Call(callee, es, fits), m.consts, m.setup.callees, st)
              == Ast.Invoke(callee, xs, m.setup.callees, st1)
  {
    hide Ast.Arith, Ast.EvalArgs, Ast.Fetch, Ast.Invoke, Ast.Sign, Wrap;
  }

  // ----- short-circuit operators -----

  /** The state after a test for a value other than 0. */
  function Test(g: Gen, x: Operand): Gen
    requires g.here < |g.blocks|
  {
    EmitFresh(g, Binary(g.next, ICmpNe, x, Const(0)))
  }

  /** Blocks for the right operand, the short way and the merge; generation goes on in the short one. */
  function ToShort(g: Gen, c: Operand, isAnd: bool): Gen
    requires g.here < |g.blocks|
  {
    var n := |g.blocks|;
    Jump(NewBlock(NewBlock(NewBlock(g))), if isAnd then CondBr(c, n, n + 1) else CondBr(c, n + 1, n), n + 1)
  }

  /** Leaves `v` in the temporary, goes to the merge, and goes on generating in block `b`. */
  function Deliver(g: Gen, slot: nat, v: Operand, merge: nat, b: nat): Gen
    requires g.here < |g.blocks|
  {
    Jump(Emit(g, Store(Slot(slot), v)), Br(merge), b)
  }

  function Fetched(g: Gen, slot: nat): Gen
    requires g.here < |g.blocks|
  {
    EmitFresh(g, Load(g.next, Slot(slot)))
  }

  lemma ToShortGrows(g: Gen, c: Operand, isAnd: bool, consts: Ast.Consts)
    requires hide Blank, Grows, Table, ToShort; Open(g) && Valid(g, consts)
    ensures var g' := ToShort(g, c, isAnd);
            && Grows(g, g') && Valid(g', consts) && Open(g') && Moved(g, g')
            && g'.here == |g.blocks| + 1 && g'.next == g.next && g'.symbols == g.symbols && g'.loops == g.loops
            && Blank(g', |g.blocks|) && Blank(g', |g.blocks| + 1) && Blank(g', |g.blocks| + 2)
  {
    assert Plain([]) == [];
  }

  lemma DeliverGrows(g: Gen, slot: nat, v: Operand, merge: nat, b: nat, consts: Ast.Consts)
    requires hide Blank, Deliver, Grows, Table; Open(g) && Valid(g, consts) && Blank(g, b) && g.here != b
    ensures var g' := Deliver(g, slot, v, merge, b);
            && Grows(g, g') && Valid(g', consts) && Open(g') && g'.here == b && Blank(g', b)
            && g'.next == g.next && g'.symbols == g.symbols && g'.loops == g.loops
            && forall c :: Blank(g, c) && c != g.here ==> Blank(g', c)
  {
    hide DraftGrows, EmitFresh, Plain, TableGrows, Valid;
    var i := Store(Slot(slot), v);
    EmitGrows(g, i, consts);
    JumpGrows(Emit(g, i), Br(merge), b, consts);
    GrowsOn(g, Emit(g, i), Deliver(g, slot, v, merge, b));
  }

  /** Slot `t` belongs to no variable. */
  ghost predicate Unbound(m: Whole, t: nat) {
    forall d :: d in m.symbols ==> m.symbols[d] != Local(t)
  }

  lemma NewSlotUnbound(m: Whole, g: Gen)
    requires hide Extends, NewSlot, Table, Unbound; Valid(g, m.consts) && Extends(m, NewSlot(g))
    ensures Unbound(m, g.next)
  {
    hide Carries, Table, WithAlloca;
  }

  lemma TempStore(m: Whole, t: nat, v: Operand, fr: Frame, st: Ast.State)
    requires Unbound(m, t) && Match(m, fr, st)
    ensures var fr' := Step(Store(Slot(t), v), m.setup.params, m.setup.callees, fr);
            && Match(m, fr', st) && fr'.regs == fr.regs
            && Get(fr'.slots, t) == Eval(v, m.setup.params, fr.regs)
  {
    hide Binop, Eval, EvalAll, Unop;
  }

  /** Storing into the temporary and going to the merge. */
  lemma DeliverRuns(m: Whole, g: Gen, slot: nat, v: Operand, merge: nat, b: nat, fr: Frame, st: Ast.State)
    returns (fr': Frame)
    requires hide Deliver, Extends, Here, Table;
             Open(g) && Valid(g, m.consts) && b < |g.blocks| && Extends(m, Deliver(g, slot, v, merge, b))
    requires Unbound(m, slot) && Match(m, fr, st)
    ensures Extends(m, g) && Here(m, g, fr) == At(g.here, merge, fr') && Match(m, fr', st)
    ensures fr'.regs == fr.regs && Get(fr'.slots, slot) == Eval(v, m.setup.params, fr.regs)
  {
    hide Extends, Grows, Here, Step, Valid;
    var i := Store(Slot(slot), v);
    fr' := Step(i, m.setup.params, m.setup.callees, fr);
    EmitGrows(g, i, m.consts);
    JumpRuns(m, Emit(g, i), Br(merge), b, fr', m.consts);
    EmitRuns(m, g, i, Emit(g, i), fr, m.consts);
    TempStore(m, slot, v, fr, st);
  }

  /** From the merge to the loaded result. */
  lemma MergeWay(m: Whole, g: Gen, slot: nat, prev: nat, fr: Frame, st: Ast.State) returns (fr': Frame)
    requires hide Goes, Here, Steps, Table;
             Open(g) && Valid(g, m.consts) && Blank(g, g.here) && Extends(m, Fetched(g, slot)) && Match(m, fr, st)
    ensures Extends(m, g)
    ensures Goes(m.setup, At(prev, g.here, fr), 1, Here(m, Fetched(g, slot), fr')) && Match(m, fr', st)
    ensures Keeps(g.next, fr, fr') && Eval(Reg(g.next), m.setup.params, fr'.regs) == Get(fr.slots, slot)
  {
    hide Binop, Goes, Here, Table, Unop;
    var i := Load(g.next, Slot(slot));
    EmitRuns(m, g, i, Fetched(g, slot), fr, m.consts);
    StartBlock(m, g, prev, fr);
    fr' := Step(i, m.setup.params, m.setup.callees, fr);
  }

  lemma TestGrows(g: Gen, x: Operand, consts: Ast.Consts)
    requires hide Blank, ExprShape, Grows, Table, Test; Open(g) && Valid(g, consts)
    ensures var g' := Test(g, x);
            && ExprShape(g, g', consts) && Grows(g, g') && Valid(g', consts) && Open(g') && g'.here == g.here
            && g'.next == g.next + 1 && g'.failed == g.failed && g'.loops == g.loops && |g'.blocks| == |g.blocks|
            && forall c :: Blank(g, c) && c != g.here ==> Blank(g', c)
  {
    hide DraftGrows, Plain, Table, TableGrows;
    EmitGrows(g, Binary(g.next, ICmpNe, x, Const(0)), consts);
  }

  lemma TestRuns(m: Whole, g: Gen, x: Operand, fr: Frame, st: Ast.State) returns (fr': Frame)
    requires hide Arrives, Extends, Table, Test;
             Open(g) && Valid(g, m.consts) && Extends(m, Test(g, x)) && Match(m, fr, st)
    ensures Arrives(m, g, Test(g, x), fr, 0, fr', st) && Match(m, fr', st) && Extends(m, g)
    ensures Eval(Reg(g.next), m.setup.params, fr'.regs) == Bool(Eval(x, m.setup.params, fr.regs) != 0)
  {
    hide Extends, Goes, Here, Unop, Valid;
    var i := Binary(g.next, ICmpNe, x, Const(0));
    fr' := Step(i, m.setup.params, m.setup.callees, fr);
    ArrivesStep(m, g, i, Test(g, x), fr, st, m.consts);
  }

  lemma ToShortRuns(m: Whole, g: Gen, c: Operand, isAnd: bool, fr: Frame)
    requires hide Eval, Extends, Here, Table, ToShort; Open(g) && Valid(g, m.consts) && Extends(m, ToShort(g, c, isAnd))
    ensures Extends(m, g)
    ensures Here(m, g, fr) == At(g.here, if (Eval(c, m.setup.params, fr.regs) != 0) == isAnd then |g.blocks|
                                           else |g.blocks| + 1, fr)
  {
    hide Grows, Steps, Table;
    ToShortGrows(g, c, isAnd, m.consts);
    ExtendsBack(m, g, ToShort(g, c, isAnd));
    var n := |g.blocks|;
    var t := if isAnd then CondBr(c, n, n + 1) else CondBr(c, n + 1, n);
    var g' := ToShort(g, c, isAnd);
    assert Carries(m.setup.f, g.here, g'.blocks[g.here]);
    PointEnd(m.setup, g.here, fr);
  }

  /** The states passed while `l && r` or `l || r` is generated from `g`. */
  datatype ShortPath = ShortPath(g: Gen, isAnd: bool, left: Gen, x: Operand, right: Gen, y: Operand)
  {
    function Op(): Ast.BinaryOp { if isAnd then Ast.And else Ast.Or }
    function Merge(): nat { |left.blocks| + 2 }

    function Short(): Gen
      requires left.here < |left.blocks|
    {
      ToShort(Test(left, x), Reg(left.next), isAnd)
    }

    function Right(): Gen
      requires left.here < |left.blocks|
    {
      Deliver(Short(), g.next, Const(if isAnd then 0 else 1), Merge(), |left.blocks|)
    }

    function Merged(): Gen
      requires right.here < |right.blocks|
    {
      Deliver(Test(right, y), g.next, Reg(right.next), Merge(), Merge())
    }

    function End(): Gen
      requires right.here < |right.blocks| && Merge() < |right.blocks|
    {
      Fetched(Merged(), g.next)
    }
  }

  ghost predicate ShortPassed(p: ShortPath, l: Ast.Expr, r: Ast.Expr, consts: Ast.Consts) {
    && Valid(p.g, consts) && Open(p.g)
    && ExprCompiled(NewSlot(p.g), l, p.left, p.x, consts)
    && Open(p.left) && ExprCompiled(p.Right(), r, p.right, p.y, consts)
  }

  lemma ShortFacts(p: ShortPath, l: Ast.Expr, r: Ast.Expr, consts: Ast.Consts)
    requires hide *; ShortPassed(p, l, r, consts) && p.left.here < |p.left.blocks|
    ensures Open(p.left) && ExprCompiled(p.Right(), r, p.right, p.y, consts)
  {
    hide Valid, Open, ExprCompiled;
  }

  lemma ShortLeft(p: ShortPath, l: Ast.Expr, r: Ast.Expr, consts: Ast.Consts)
    requires hide ExprCompiled, Grows, Valid; ShortPassed(p, l, r, consts)
    ensures ExprShape(p.g, p.left, consts) && Open(p.left) && Valid(p.left, consts) && p.g.next < p.left.next
    ensures ExprCompiled(NewSlot(p.g), l, p.left, p.x, consts) && Grows(p.g, NewSlot(p.g)) && Valid(p.g, consts)
    ensures Grows(NewSlot(p.g), p.left) && p.g.here < |p.g.blocks|
    ensures DraftSame(p.g.blocks[p.g.here], NewSlot(p.g).blocks[p.g.here]) && NewSlot(p.g).here == p.g.here
    ensures |NewSlot(p.g).blocks| == |p.g.blocks| && NewSlot(p.g).next == p.g.next + 1
  {
    hide ExprRuns, Extends;
    NewSlotGrows(p.g, consts);
    CompiledShape(NewSlot(p.g), l, p.left, p.x, consts);
    GrowsOn(p.g, NewSlot(p.g), p.left);
  }

  lemma ShortMiddle(p: ShortPath, consts: Ast.Consts)
    requires hide Blank, Grows, Table, Test; Open(p.left) && Valid(p.left, consts)
    ensures Grows(p.left, Test(p.left, p.x)) && Grows(Test(p.left, p.x), p.Short()) && Grows(p.Short(), p.Right())
    ensures Grows(p.left, p.Right()) && Moved(p.left, p.Right()) && Open(p.Right()) && Valid(p.Right(), consts)
    ensures Open(Test(p.left, p.x)) && Valid(Test(p.left, p.x), consts) && Test(p.left, p.x).next == p.left.next + 1
    ensures |Test(p.left, p.x).blocks| == |p.left.blocks|
    ensures Open(p.Short()) && Valid(p.Short(), consts) && p.Short().here == |p.left.blocks| + 1
    ensures p.Right().here == |p.left.blocks| < |p.Short().blocks|
    ensures Blank(p.Short(), p.Short().here) && Blank(p.Right(), p.Right().here) && Blank(p.Right(), p.Merge())
    ensures p.Right().next == p.left.next + 1 && p.Right().symbols == p.left.symbols && p.Right().loops == p.left.loops
  {
    hide Deliver, ExprShape, Plain, Table, TableGrows;
    TestGrows(p.left, p.x, consts);
    ToShortGrows(Test(p.left, p.x), Reg(p.left.next), p.isAnd, consts);
    DeliverGrows(p.Short(), p.g.next, Const(if p.isAnd then 0 else 1), p.Merge(), |p.left.blocks|, consts);
    hide Valid, Grows, Blank, ToShort, Deliver, Test;
    GrowsOn(p.left, Test(p.left, p.x), p.Short());
    GrowsOn(p.left, p.Short(), p.Right());
  }

  lemma ShortEnd(p: ShortPath, r: Ast.Expr, consts: Ast.Consts)
    requires hide ExprCompiled, Grows, Valid; Open(p.left) && ExprCompiled(p.Right(), r, p.right, p.y, consts)
    requires Blank(p.Right(), p.Merge()) && p.Right().here != p.Merge()
    ensures Open(p.right) && Valid(p.right, consts) && p.right.next >= p.Right().next
    ensures Grows(p.Right(), p.right) && Moved(p.Right(), p.right) && Blank(p.right, p.Merge())
    ensures p.right.symbols == p.Right().symbols && p.right.loops == p.Right().loops && p.right.here != p.Merge()
    ensures var t := Test(p.right, p.y);
            && Grows(p.right, t) && Open(t) && Valid(t, consts) && t.here == p.right.here && t.next == p.right.next + 1
            && Blank(t, p.Merge()) && t.symbols == p.right.symbols && t.loops == p.right.loops
            && t.failed == p.right.failed
  {
    hide ExprCompiled, Grows, Valid;
    CompiledShape(p.Right(), r, p.right, p.y, consts);
    BlankStays(p.Right(), p.right, p.Merge());
    TestGrows(p.right, p.y, consts);
  }

  lemma ShortMerged(p: ShortPath, consts: Ast.Consts)
    requires hide Grows, Plain, Table; Open(p.right) && Valid(p.right, consts) && p.right.here != p.Merge()
    requires var t := Test(p.right, p.y);
             && Grows(p.right, t) && Open(t) && Valid(t, consts) && t.here == p.right.here && Blank(t, p.Merge())
    ensures Grows(p.right, p.Merged()) && Grows(Test(p.right, p.y), p.Merged()) && Grows(p.Merged(), p.End())
    ensures Open(p.Merged()) && Valid(p.Merged(), consts) && Blank(p.Merged(), p.Merge())
            && p.Merged().here == p.Merge()
    ensures Open(p.End()) && Valid(p.End(), consts) && p.End().here == p.Merge() && p.End().failed == p.right.failed
    ensures p.End().symbols == p.right.symbols && p.End().loops == p.right.loops && p.Merged().next == p.right.next + 1
    ensures p.End().next == p.Merged().next + 1
  {
    hide DraftGrows, Plain, Table, TableGrows;
    DeliverGrows(Test(p.right, p.y), p.g.next, Reg(p.right.next), p.Merge(), p.Merge(), consts);
    EmitGrows(p.Merged(), Load(p.Merged().next, Slot(p.g.next)), consts);
    assert Test(p.right, p.y).failed == p.right.failed && Test(p.right, p.y).symbols == p.right.symbols;
    hide Grows, Valid, Blank, Test;
    GrowsOn(p.right, Test(p.right, p.y), p.Merged());
  }

  lemma ShortNumbers(p: ShortPath, consts: Ast.Consts)
    requires hide Blank, ExprShape, Grows;
             Open(p.left) && Blank(p.Right(), p.Merge()) && p.Right().here == |p.left.blocks|
    requires ExprShape(p.g, p.left, consts) && Grows(p.left, p.Right()) && Moved(p.left, p.Right())
    requires Grows(p.Right(), p.right) && Moved(p.Right(), p.right)
    ensures p.Merge() < |p.right.blocks| && |p.g.blocks| <= |p.left.blocks| <= |p.Right().blocks| <= |p.right.blocks|
    ensures p.Right().here != p.Merge() && p.right.here != p.Merge()
    ensures Moved(p.g, p.left) && Grows(p.g, p.left)
    ensures p.left.symbols == p.g.symbols && p.left.loops == p.g.loops
    ensures p.left.failed ==> p.right.failed
  {
    GrowsOn(p.left, p.Right(), p.right);
  }

  /** All intermediate states grow into the last, which is a state after an expression. */
  lemma ShortShape(p: ShortPath, l: Ast.Expr, r: Ast.Expr, consts: Ast.Consts)
    requires hide *; p.left.here < |p.left.blocks| && ShortPassed(p, l, r, consts)
    ensures p.Merge() < |p.right.blocks| && p.right.here < |p.right.blocks| && p.End().failed == p.right.failed
    ensures ExprShape(p.g, p.End(), consts) && Known(Reg(p.Merged().next), p.End().next)
  {
    hide *;
    ShortFacts(p, l, r, consts);
    ShortLeft(p, l, r, consts);
    ShortMiddle(p, consts);
    CompiledShape(p.Right(), r, p.right, p.y, consts);
    ShapeFacts(p.Right(), p.right, consts);
    ShortNumbers(p, consts);
    ShortEnd(p, r, consts);
    ShortMerged(p, consts);
    GrowsOn(p.g, p.left, p.Right());
    GrowsOn(p.g, p.Right(), p.right);
    GrowsOn(p.g, p.right, p.Merged());
    MergeMoved(p);
    GrowsOn(p.g, p.Merged(), p.End());
    ShapeIntro(p.g, p.End(), Reg(p.Merged().next), consts);
  }

  lemma ShapeFacts(g: Gen, g': Gen, consts: Ast.Consts)
    requires ExprShape(g, g', consts)
    ensures Grows(g, g') && Moved(g, g') && Valid(g', consts) && Open(g') && g'.here < |g'.blocks|
    ensures g'.loops == g.loops && g'.symbols == g.symbols
  {
    hide DraftGrows, DraftSame, Plain, Table, TableGrows;
  }

  lemma MergeMoved(p: ShortPath)
    requires hide *; Open(p.left) && p.right.here < |p.right.blocks| && |p.g.blocks| <= |p.left.blocks|
    requires p.Merge() < |p.right.blocks|
    requires p.Merged().here == p.Merge() && p.End().here == p.Merge()
    ensures Moved(p.g, p.Merged()) && Moved(p.g, p.End())
  {
  }

  lemma ShapeIntro(g: Gen, g': Gen, v: Operand, consts: Ast.Consts)
    requires hide *; Grows(g, g') && Moved(g, g') && Valid(g', consts) && Open(g')
    requires g'.loops == g.loops && g'.symbols == g.symbols && v.Reg? && g'.next == v.id + 1
    ensures ExprShape(g, g', consts) && Known(v, g'.next)
  {
  }

  lemma ShortExtends(m: Whole, p: ShortPath, l: Ast.Expr, r: Ast.Expr)
    requires hide ExprCompiled, Extends, Valid;
             p.left.here < |p.left.blocks| && ShortPassed(p, l, r, m.consts) && p.right.here < |p.right.blocks|
             && p.Merge() < |p.right.blocks|
    requires Extends(m, p.End())
    ensures Extends(m, p.Merged()) && Extends(m, Test(p.right, p.y)) && Extends(m, p.right) && Extends(m, p.Right())
    ensures Extends(m, p.Short()) && Extends(m, Test(p.left, p.x)) && Extends(m, p.left) && Extends(m, NewSlot(p.g))
    ensures Extends(m, p.g) && Unbound(m, p.g.next)
  {
    hide *;
    ShortFacts(p, l, r, m.consts);
    ShortLeft(p, l, r, m.consts);
    ShortMiddle(p, m.consts);
    CompiledShape(p.Right(), r, p.right, p.y, m.consts);
    ShapeFacts(p.Right(), p.right, m.consts);
    ShortNumbers(p, m.consts);
    ShortEnd(p, r, m.consts);
    ShortMerged(p, m.consts);
    ExtendsBack(m, p.Merged(), p.End());
    ExtendsBack(m, Test(p.right, p.y), p.Merged());
    ExtendsBack(m, p.right, Test(p.right, p.y));
    ExtendsBack(m, p.Right(), p.right);
    ExtendsBack(m, p.Short(), p.Right());
    ExtendsBack(m, Test(p.left, p.x), p.Short());
    ExtendsBack(m, p.left, Test(p.left, p.x));
    ExtendsBack(m, NewSlot(p.g), p.left);
    ExtendsBack(m, p.g, NewSlot(p.g));
    NewSlotUnbound(m, p.g);
  }

  /** The merge is reached with the value of the operator in the temporary. */
  ghost predicate Merges(m: Whole, p: ShortPath, c: Config, d: nat, prev: nat, fr: Frame, fr': Frame, x: i32,
                         st: Ast.State) {
    && Goes(m.setup, c, d, At(prev, p.Merge(), fr')) && Match(m, fr', st) && Keeps(p.g.next, fr, fr')
    && Get(fr'.slots, p.g.next) == x
  }

  /** The right operand is not evaluated. */
  lemma LeftDecides(m: Whole, p: ShortPath, prev: nat, fr: Frame, st: Ast.State) returns (fr': Frame)
    requires p.left.here < |p.left.blocks| && Extends(m, p.Right()) && Extends(m, p.Short())
    requires Open(p.Short()) && Valid(p.Short(), m.consts) && Blank(p.Short(), p.Short().here)
    requires p.Short().here == |p.left.blocks| + 1
    requires Match(m, fr, st) && Unbound(m, p.g.next)
    ensures Merges(m, p, At(prev, |p.left.blocks| + 1, fr), 1, |p.left.blocks| + 1, fr, fr', if p.isAnd then 0
                                                                                               else 1, st)
  {
    hide Here, Run, Steps, Table;
    fr' := DeliverRuns(m, p.Short(), p.g.next, Const(if p.isAnd then 0 else 1), p.Merge(), |p.left.blocks|, fr, st);
    StartBlock(m, p.Short(), prev, fr);
  }

  lemma RightArrives(m: Whole, p: ShortPath, prev: nat, fr: Frame, d: nat, fr1: Frame, fr2: Frame, fr': Frame,
                     st': Ast.State)
    requires hide Carries, Goes, Here, Steps, Table; p.left.here < |p.left.blocks| && p.right.here < |p.right.blocks|
             && p.g.next <= p.Right().next <= p.right.next
    requires Arrives(m, p.Right(), p.right, fr, d, fr1, st')
             && Arrives(m, p.right, Test(p.right, p.y), fr1, 0, fr2, st')
    requires Goes(m.setup, At(prev, |p.left.blocks|, fr), 1, Here(m, p.Right(), fr))
    requires Here(m, Test(p.right, p.y), fr2) == At(p.right.here, p.Merge(), fr') && Match(m, fr', st')
             && fr'.regs == fr2.regs
    ensures Merges(m, p, At(prev, |p.left.blocks|, fr), 1 + d, p.right.here, fr, fr', Get(fr'.slots, p.g.next), st')
  {
    hide Carries, Here, RunBlock, Steps, Table, Test;
    ArrivesOn(m, p.Right(), p.right, Test(p.right, p.y), fr, d, fr1, st', 0, fr2, st');
    GoesOn(m.setup, At(prev, |p.left.blocks|, fr), 1, Here(m, p.Right(), fr), d, Here(m, Test(p.right, p.y), fr2));
  }

  lemma RightDelivers(m: Whole, p: ShortPath, fr: Frame, st: Ast.State) returns (fr': Frame)
    requires hide Carries, Here, Table, Test, Valid;
             p.left.here < |p.left.blocks| && p.right.here < |p.right.blocks| && p.Merge() < |p.right.blocks|
    requires Open(Test(p.right, p.y)) && Valid(Test(p.right, p.y), m.consts) && Extends(m, p.Merged())
    requires Unbound(m, p.g.next) && Match(m, fr, st)
    ensures Extends(m, Test(p.right, p.y)) && Here(m, Test(p.right, p.y), fr) == At(p.right.here, p.Merge(), fr')
    ensures Match(m, fr', st) && fr'.regs == fr.regs
    ensures Get(fr'.slots, p.g.next) == Eval(Reg(p.right.next), m.setup.params, fr.regs)
  {
    hide Extends, Here, Valid;
    fr' := DeliverRuns(m, Test(p.right, p.y), p.g.next, Reg(p.right.next), p.Merge(), p.Merge(), fr, st);
  }

  /** The right operand decides. */
  lemma RightDecides(m: Whole, p: ShortPath, r: Ast.Expr, prev: nat, fr: Frame, st: Ast.State) returns (d: nat,
      fr': Frame)
    requires hide Ast.Eval, ExprCompiled, Extends, Valid;
             p.left.here < |p.left.blocks| && p.right.here < |p.right.blocks| && p.Merge() < |p.right.blocks|
    requires Extends(m, p.Right()) && Extends(m, p.right) && Extends(m, Test(p.right, p.y)) && Extends(m, p.Merged())
    requires Blank(p.Right(), p.Right().here) && p.Right().here == |p.left.blocks|
    requires p.g.next <= p.Right().next <= p.right.next
    requires Open(p.right) && Valid(p.right, m.consts)
    requires Open(Test(p.right, p.y)) && Valid(Test(p.right, p.y), m.consts)
    requires ExprCompiled(p.Right(), r, p.right, p.y, m.consts) && !p.right.failed
    requires Match(m, fr, st) && Unbound(m, p.g.next)
    ensures Merges(m, p, At(prev, |p.left.blocks|, fr), d, p.right.here, fr, fr',
                   Bool(Ast.Eval(r, m.consts, m.setup.callees, st).0 != 0),
                     Ast.Eval(r, m.consts, m.setup.callees, st).1)
  {
    hide *;
    var st' := Ast.Eval(r, m.consts, m.setup.callees, st).1;
    StartBlank(m, p.Right(), prev, fr);
    var d1, fr1 := CompiledRuns(m, p.Right(), r, p.right, p.y, fr, st);
    var fr2 := TestRuns(m, p.right, p.y, fr1, st');
    fr' := RightDelivers(m, p, fr2, st');
    RightArrives(m, p, prev, fr, d1, fr1, fr2, fr', st');
    d := 1 + d1;
  }

  /** The left operand, its test, and the branch. */
  lemma LeftRuns(m: Whole, p: ShortPath, l: Ast.Expr, fr: Frame, st: Ast.State) returns (d: nat, fr': Frame)
    requires hide Ast.Eval, ExprCompiled, Goes, Here, Steps;
             p.g.here < |p.g.blocks| && Open(p.left) && p.g.next < p.left.next && Valid(p.left, m.consts)
    requires ExprCompiled(NewSlot(p.g), l, p.left, p.x, m.consts) && !p.left.failed
    requires DraftSame(p.g.blocks[p.g.here], NewSlot(p.g).blocks[p.g.here])
    requires Open(Test(p.left, p.x)) && Valid(Test(p.left, p.x), m.consts)
             && |Test(p.left, p.x).blocks| == |p.left.blocks|
    requires Extends(m, p.g) && Extends(m, NewSlot(p.g)) && Extends(m, p.left) && Extends(m, Test(p.left, p.x))
             && Extends(m, p.Short())
    requires Match(m, fr, st)
    ensures Goes(m.setup, Here(m, p.g, fr), d,
                 At(p.left.here, if (Ast.Eval(l, m.consts, m.setup.callees, st).0 != 0) == p.isAnd then |p.left.blocks|
                                 else |p.left.blocks| + 1, fr'))
    ensures Match(m, fr', Ast.Eval(l, m.consts, m.setup.callees, st).1) && Keeps(p.g.next, fr, fr')
  {
    hide *;
    var st1 := Ast.Eval(l, m.consts, m.setup.callees, st).1;
    var d1, fr1 := CompiledRuns(m, NewSlot(p.g), l, p.left, p.x, fr, st);
    var fr2 := TestRuns(m, p.left, p.x, fr1, st1);
    LeftBranches(m, p, fr, d1, fr1, fr2, st1, Ast.Eval(l, m.consts, m.setup.callees, st).0);
    d, fr' := d1, fr2;
  }

  lemma LeftBranches(m: Whole, p: ShortPath, fr: Frame, d: nat, fr1: Frame, fr2: Frame, st1: Ast.State, a: i32)
    requires hide Extends, Goes, Here, Steps, Valid; p.g.here < |p.g.blocks| && Open(p.left) && p.g.next < p.left.next
    requires DraftSame(p.g.blocks[p.g.here], NewSlot(p.g).blocks[p.g.here])
    requires Open(Test(p.left, p.x)) && Valid(Test(p.left, p.x), m.consts)
             && |Test(p.left, p.x).blocks| == |p.left.blocks|
    requires Extends(m, p.g) && Extends(m, NewSlot(p.g)) && Extends(m, p.Short())
    requires Arrives(m, NewSlot(p.g), p.left, fr, d, fr1, st1)
             && Arrives(m, p.left, Test(p.left, p.x), fr1, 0, fr2, st1)
    requires Eval(Reg(p.left.next), m.setup.params, fr2.regs) == Bool(a != 0)
    ensures Goes(m.setup, Here(m, p.g, fr), d,
                 At(p.left.here, if (a != 0) == p.isAnd then |p.left.blocks| else |p.left.blocks| + 1, fr2))
    ensures Keeps(p.g.next, fr, fr2)
  {
    hide Point, RunBlock, Steps, Table;
    ToShortRuns(m, Test(p.left, p.x), Reg(p.left.next), p.isAnd, fr2);
    SameHere(m, p.g, NewSlot(p.g), fr);
    hide Extends, Valid, Goes, Here, DraftSame;
    ArrivesOn(m, NewSlot(p.g), p.left, Test(p.left, p.x), fr, d, fr1, st1, 0, fr2, st1);
  }

  lemma MergeRuns(m: Whole, p: ShortPath, d: nat, prev: nat, fr: Frame, fr1: Frame, x: i32, st: Ast.State)
    requires hide *;
             p.g.here < |p.g.blocks| && Extends(m, p.g) && Merges(m, p, Here(m, p.g, fr), d, prev, fr, fr1, x, st)
    requires p.left.here < |p.left.blocks| && p.right.here < |p.right.blocks| && p.Merge() < |p.right.blocks|
    requires Open(p.Merged()) && Valid(p.Merged(), m.consts) && Blank(p.Merged(), p.Merge())
             && p.Merged().here == p.Merge()
    requires p.g.next <= p.Merged().next && Extends(m, p.End())
    ensures Computes(m, p.g, p.End(), Reg(p.Merged().next), fr, x, st)
  {
    hide Deliver, Extends, Goes, Here, Steps, Valid, Open, Blank, Match, Test;
    MergeHere(p);
    var fr2 := MergeWay(m, p.Merged(), p.g.next, prev, fr1, st);
    GoesOn(m.setup, Here(m, p.g, fr), d, At(prev, p.Merge(), fr1), 1, Here(m, p.End(), fr2));
    assert Keeps(p.g.next, fr, fr2);
    assert Arrives(m, p.g, p.End(), fr, d + 1, fr2, st);
  }

  lemma MergeHere(p: ShortPath)
    requires hide *; p.left.here < |p.left.blocks| && p.right.here < |p.right.blocks| && p.Merge() < |p.right.blocks|
    requires Blank(p.Merged(), p.Merge()) && p.Merged().here == p.Merge()
    ensures p.Merged().here < |p.Merged().blocks| && p.End().here < |p.End().blocks|
            && p.End() == Fetched(p.Merged(), p.g.next)
  {
  }

  /** What the operator means, from the meaning of its operands. */
  lemma ShortValue(m: Whole, p: ShortPath, l: Ast.Expr, r: Ast.Expr, st: Ast.State)
    ensures var (a, st1) := Ast.Eval(l, m.consts, m.setup.callees, st);
            var (b, st2) := Ast.Eval(r, m.consts, m.setup.callees, st1);
            Ast.Eval(Ast.Binary(p.Op(), l, r), m.consts, m.setup.callees, st)
            == if (a != 0) == p.isAnd then (Bool(b != 0), st2) else (if p.isAnd then 0 else 1, st1)
  {
  }

  lemma MergesFrom(m: Whole, p: ShortPath, c: Config, d1: nat, mid: Config, fr1: Frame, d2: nat, prev: nat, fr: Frame,
                   fr2: Frame, x: i32, st: Ast.State)
    requires hide *;
             Goes(m.setup, c, d1, mid) && Keeps(p.g.next, fr, fr1) && Merges(m, p, mid, d2, prev, fr1, fr2, x, st)
    ensures Merges(m, p, c, d1 + d2, prev, fr, fr2, x, st)
  {
    hide Goes;
    GoesOn(m.setup, c, d1, mid, d2, At(prev, p.Merge(), fr2));
  }

  lemma ShortRuns(m: Whole, p: ShortPath, l: Ast.Expr, r: Ast.Expr, fr: Frame, st: Ast.State)
    requires hide *; p.left.here < |p.left.blocks| && ShortPassed(p, l, r, m.consts)
    requires p.right.here < |p.right.blocks| && p.Merge() < |p.right.blocks|
    requires Extends(m, p.End()) && !p.End().failed && Match(m, fr, st)
    ensures ExprRuns(m, p.g, Ast.Binary(p.Op(), l, r), p.End(), Reg(p.Merged().next), fr, st)
  {
    hide *;
    ShortFacts(p, l, r, m.consts);
    ShortExtends(m, p, l, r);
    ShortLeft(p, l, r, m.consts);
    ShortMiddle(p, m.consts);
    CompiledShape(p.Right(), r, p.right, p.y, m.consts);
    ShapeFacts(p.Right(), p.right, m.consts);
    ShortNumbers(p, m.consts);
    ShortEnd(p, r, m.consts);
    ShortMerged(p, m.consts);
    var st1 := Ast.Eval(l, m.consts, m.setup.callees, st).1;
    var d1, fr1 := LeftRuns(m, p, l, fr, st);
    ShortValue(m, p, l, r, st);
    if (Ast.Eval(l, m.consts, m.setup.callees, st).0 != 0) == p.isAnd {
      var d2, fr2 := RightDecides(m, p, r, p.left.here, fr1, st1);
      var x, st2 := Bool(Ast.Eval(r, m.consts, m.setup.callees, st1).0 != 0),
        Ast.Eval(r, m.consts, m.setup.callees, st1).1;
      MergesFrom(m, p, Here(m, p.g, fr), d1, At(p.left.here, |p.left.blocks|, fr1), fr1, d2, p.right.here, fr, fr2,
                 x, st2);
      MergeRuns(m, p, d1 + d2, p.right.here, fr, fr2, x, st2);
    } else {
      var fr2 := LeftDecides(m, p, p.left.here, fr1, st1);
      var x := if p.isAnd then 0 else 1;
      MergesFrom(m, p, Here(m, p.g, fr), d1, At(p.left.here, |p.left.blocks| + 1, fr1), fr1, 1, |p.left.blocks| + 1,
                 fr, fr2, x, st1);
      MergeRuns(m, p, d1 + 1, |p.left.blocks| + 1, fr, fr2, x, st1);
    }
    ComputedExpr(m, p.g, Ast.Binary(p.Op(), l, r), p.End(), Reg(p.Merged().next), fr, st);
  }

  lemma ShortCompiled(p: ShortPath, l: Ast.Expr, r: Ast.Expr, consts: Ast.Consts)
    requires hide *; ShortPassed(p, l, r, consts)
    ensures p.Merge() < |p.right.blocks| && p.right.here < |p.right.blocks|
    ensures ExprCompiled(p.g, Ast.Binary(p.Op(), l, r), p.End(), Reg(p.Merged().next), consts)
  {
    assert p.left.here < |p.left.blocks|;
    ShortShape(p, l, r, consts);
    forall m: Whole, fr: Frame, st: Ast.State | !p.End().failed && Extends(m, p.End()) && m.consts == consts
      && Match(m, fr, st)
      ensures ExprRuns(m, p.g, Ast.Binary(p.Op(), l, r), p.End(), Reg(p.Merged().next), fr, st)
    {
      hide *;
      ShortRuns(m, p, l, r, fr, st);
    }
  }
}
