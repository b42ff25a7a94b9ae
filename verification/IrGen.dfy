/** Generation of IR from the syntax tree, and its meaning: every run of the generated function ends
    exactly when the source function ends, with the same result and the same effects. */
module IrGen {
  import opened Int32
  import opened Ir
  import opened Runs
  import opened Drafts
  import opened ExprGen
  import opened StmtGen
  import opened Shapes
  import Ast
  import opened Lookups
  import opened Placement
  import opened Fitting
  import opened Wiring
  import Ssa

  // ----- what the generator's methods need to know about their states -----

  lemma ExprStart(g: Gen, e: Ast.Expr, g': Gen, v: Operand, consts: Ast.Consts)
    requires ExprCompiled(g, e, g', v, consts)
    ensures Valid(g', consts) && Open(g') && g'.here < |g'.blocks| && g'.symbols == g.symbols && g'.loops == g.loops
  {
    hide ExprRuns, Extends, Grows, Valid;
  }

  lemma ArgsBegin(g: Gen, es: seq<Ast.Expr>, g': Gen, vs: seq<Operand>, consts: Ast.Consts)
    requires ArgsCompiled(g, es, g', vs, consts)
    ensures Valid(g', consts) && Open(g') && g'.here < |g'.blocks| && g'.symbols == g.symbols && g'.loops == g.loops
  {
    hide ArgsRun, Extends, Grows, Valid;
  }

  lemma OpenHere(g: Gen)
    requires Open(g)
    ensures g.here < |g.blocks|
  {
  }

  lemma UnresolvedCompiled(g: Gen, e: Ast.Expr, consts: Ast.Consts)
    requires hide ExprRuns, ExprShape, Extends, Table; Valid(g, consts) && Open(g)
    ensures ExprCompiled(g, e, g.(failed := true), Const(0), consts)
  {
    hide ExprCompiled, Table;
    FailedCompiled(g, e, g.(failed := true), Const(0), consts);
  }

  lemma IdentCompiled(g: Gen, n: nat, d: Ast.Decl, behind: Ast.Decl, consts: Ast.Consts)
    requires hide ExprCompiled; Valid(g, consts) && Open(g) && d in g.symbols
    ensures g.symbols[d].Value? ==> ExprCompiled(g, Ast.Ident(n, d, behind), g, Const(g.symbols[d].value), consts)
    ensures !g.symbols[d].Value? ==>
              ExprCompiled(g, Ast.Ident(n, d, behind), EmitFresh(g, Load(g.next, AddressOf(g.symbols[d]))),
                           Reg(g.next), consts)
  {
    hide *;
    if g.symbols[d].Value? {
      ConstCompiled(g, Ast.Ident(n, d, behind), g.symbols[d].value, consts);
    } else {
      LoadCompiled(g, n, d, behind, consts);
    }
  }

  lemma SlotReady(g: Gen, consts: Ast.Consts)
    requires hide *; Valid(g, consts) && Open(g)
    ensures |g.blocks| > 0 && Valid(NewSlot(g), consts) && Open(NewSlot(g)) && NewSlot(g).here < |NewSlot(g).blocks|
  {
    hide DraftSame, Grows, Table, WithAlloca;
    NewSlotGrows(g, consts);
  }

  lemma ShortReady(p: ShortPath, consts: Ast.Consts)
    requires hide *; Valid(p.left, consts) && Open(p.left) && p.left.here < |p.left.blocks|
    ensures Valid(p.Right(), consts) && Open(p.Right()) && p.Right().here < |p.Right().blocks|
  {
    hide Blank, Grows, Table, Test;
    ShortMiddle(p, consts);
  }

  lemma SlotOfSymbol(g: Gen, d: Ast.Decl)
    requires d in g.symbols && !g.symbols[d].Value?
    ensures OfVariable(g, AddressOf(g.symbols[d]))
  {
  }

  lemma StaysSame(g: Gen)
    ensures StaysWired(g, g)
  {
    hide *;
    KeepsSame(g, g);
  }

  lemma DeclareWired(g: Gen, id: nat)
    requires hide *; |g.blocks| > 0
    ensures StaysWired(g, Declare(g, id))
  {
    hide *;
    SlotKeeps(g, id);
  }

  class IRGenerator {
    var blocks: seq<Draft>
    var insertPoint: nat
    var nextId: nat
    var symbols: map<Ast.Decl, Symbol>
    var loops: seq<(nat, nat)>
    var hadError: bool
    /** The uses of names that the analysis resolved, and the values of the constants. */
    const recorded: set<nat>
    const consts: Ast.Consts

    function State(): Gen
      reads this
    {
      Gen(blocks, insertPoint, nextId, symbols, loops, hadError)
    }

    /** What the tables of the analysis answer. */
    function Answered(): set<Need> {
      Answers(recorded, consts)
    }

    /** A generator that knows the globals and the tables of the analysis. */
    constructor (recorded: set<nat>, consts: Ast.Consts, globals: set<string>, globalConsts: set<nat>, firstId: nat)
      requires globalConsts <= consts.Keys
      ensures this.recorded == recorded && this.consts == consts && nextId == firstId && !hadError && loops == []
              && blocks == []
      ensures Table(symbols, consts) && forall id: nat :: Ast.Variable(id) !in symbols
      ensures symbols.Keys == GlobalNames(globals, globalConsts)
    {
      this.recorded, this.consts := recorded, consts;
      blocks, insertPoint, nextId, loops, hadError := [], 0, firstId, [], false;
      symbols := (map name | name in globals :: Ast.GlobalVariable(name) := Address(name))
        + (map id | id in globalConsts :: Ast.Constant(id) := Value(consts[id]));
    }

    // ----- building blocks -----

    method CreateBlock() returns (b: nat)
      modifies `blocks
      ensures State() == NewBlock(old(State())) && b == |old(blocks)|
    {
      b := |blocks|;
      blocks := blocks + [Draft([], None)];
    }

    method Append(i: Inst)
      requires insertPoint < |blocks|
      modifies `blocks
      ensures State() == Emit(old(State()), i)
    {
      blocks := blocks[insertPoint := blocks[insertPoint].(insts := blocks[insertPoint].insts + [i])];
    }

    method AppendFresh(i: Inst)
      requires insertPoint < |blocks|
      modifies `blocks, `nextId
      ensures State() == EmitFresh(old(State()), i)
    {
      Append(i);
      nextId := nextId + 1;
    }

    method Terminate(t: Terminator)
      requires insertPoint < |blocks|
      modifies `blocks
      ensures State() == Close(old(State()), t)
    {
      blocks := blocks[insertPoint := blocks[insertPoint].(term := Some(t))];
    }

    predicate Terminated()
      requires insertPoint < |blocks|
      reads this
      ensures Terminated() <==> !Open(State())
    {
      blocks[insertPoint].term.Some?
    }

    /** Puts a new slot behind the allocas that begin the entry block. */
    method AllocaInEntry() returns (slot: nat)
      requires |blocks| > 0
      modifies `blocks, `nextId
      ensures State() == NewSlot(old(State())) && slot == old(nextId)
    {
      slot := nextId;
      var insts := blocks[0].insts;
      var k := 0;
      while k < |insts| && insts[k].Alloca?
        invariant 0 <= k <= |insts| && LeadingAllocas(insts) == k + LeadingAllocas(insts[k..])
      {
        assert insts[k..][1..] == insts[k + 1..];
        k := k + 1;
      }
      assert k < |insts| ==> insts[k..][0] == insts[k];
      blocks := blocks[0 := blocks[0].(insts := insts[..k] + [Alloca(slot)] + insts[k..])];
      nextId := nextId + 1;
    }

    // ----- expressions -----

    method VisitExpr(e: Ast.Expr) returns (v: Operand)
      requires hide *; Valid(State(), consts) && Open(State())
      modifies this
      ensures ExprCompiled(old(State()), e, State(), v, consts)
      ensures ExprFits(old(State()), State(), v)
      ensures symbols == old(symbols) && hadError == (old(hadError) || !Found(e, symbols.Keys, Answered()))
      decreases e, 1
    {
      hide ArgsCompiled, ArgsFit, Arrives, Ast.Eval, ExprCompiled, Valid, Open, ExprFits, OfVariable;
      ghost var g := State();
      OpenHere(g);
      match e
      case IntLiteral(value) =>
        ConstCompiled(g, e, value, consts);
        v := Const(value);
        SameFits(g, e, State(), v, consts);
      case Ident(n, d, behind) =>
        if n !in recorded || d !in symbols {
          UnresolvedCompiled(g, e, consts);
          hadError := true;
          v := Const(0);
          SameFits(g, e, State(), v, consts);
        } else {
          IdentCompiled(g, n, d, behind, consts);
          if symbols[d].Value? {
            v := Const(symbols[d].value);
            SameFits(g, e, State(), v, consts);
          } else {
            v := Reg(nextId);
            NoArgsFit(g);
            SlotOfSymbol(g, d);
            EmittedFits(g, g, [], e, Load(nextId, AddressOf(symbols[d])), consts);
            AppendFresh(Load(nextId, AddressOf(symbols[d])));
          }
        }
      case Binary(op, l, r) =>
        if op == Ast.And || op == Ast.Or {
          v := ShortCircuit(e);
        } else {
          var x := VisitExpr(l);
          ghost var g1 := State();
          ExprStart(g, l, g1, x, consts);
          var y := VisitExpr(r);
          ExprStart(g1, r, State(), y, consts);
          BinaryCompiled(g, l, g1, x, r, State(), y, op, consts);
          PairFits(g, l, g1, x, r, State(), y, consts);
          EmittedFits(g, State(), [x, y], e, Binary(nextId, Opcode(op), x, y), consts);
          v := Reg(nextId);
          AppendFresh(Binary(nextId, Opcode(op), x, y));
        }
      case Unary(op, a) =>
        var x := VisitExpr(a);
        ExprStart(g, a, State(), x, consts);
        if op == Ast.Plus {
          PlusCompiled(g, a, State(), x, consts);
          v := x;
        } else {
          UnaryCompiled(g, a, State(), x, op, consts);
          UnaryFits(g, State(), x, e, op, consts);
          v := Reg(nextId);
          AppendFresh(UnaryInst(op, nextId, x));
        }
      case Call(callee, args, fits) =>
        var vs: seq<Operand> := [];
        var i := 0;
        ArgsStart(g, consts);
        NoArgs(args);
        NoArgsFit(g);
        while i < |args|
          invariant 0 <= i <= |args| && ArgsCompiled(g, args[..i], State(), vs, consts) && ArgsFit(g, State(), vs)
          invariant symbols == g.symbols && hadError == (g.failed || !ArgsFound(args[..i], symbols.Keys, Answered()))
        {
          ghost var g1 := State();
          ArgsBegin(g, args[..i], g1, vs, consts);
          var x := VisitExpr(args[i]);
          ArgsNext(g, args, i, g1, vs, State(), x, consts);
          ArgsNextFits(g, args[..i + 1], g1, vs, State(), x, consts);
          assert args[..i + 1][..i] == args[..i];
          vs := vs + [x];
          i := i + 1;
        }
        AllArgs(args, i);
        ArgsBegin(g, args, State(), vs, consts);
        CallCompiled(g, args, State(), vs, callee, fits, consts);
        EmittedFits(g, State(), vs, e, Call(nextId, callee, vs), consts);
        v := Reg(nextId);
        AppendFresh(Call(nextId, callee, vs));
    }

    /** Whether a value differs from 0. */
    method NotZero(x: Operand) returns (c: Operand)
      requires insertPoint < |blocks|
      modifies `blocks, `nextId
      ensures State() == Test(old(State()), x) && c == Reg(old(nextId))
    {
      c := Reg(nextId);
      AppendFresh(Binary(nextId, ICmpNe, x, Const(0)));
    }

    /** The three blocks of a short-circuit operator, entered with the short one. */
    method ForkShort(c: Operand, isAnd: bool) returns (right: nat, merge: nat)
      requires insertPoint < |blocks|
      modifies `blocks, `insertPoint
      ensures State() == ToShort(old(State()), c, isAnd) && right == |old(blocks)| && merge == right + 2
    {
      right := CreateBlock();
      var short := CreateBlock();
      merge := CreateBlock();
      Terminate(if isAnd then CondBr(c, right, short) else CondBr(c, short, right));
      insertPoint := short;
    }

    method StoreAndJoin(slot: nat, v: Operand, merge: nat, next: nat)
      requires insertPoint < |blocks|
      modifies `blocks, `insertPoint
      ensures State() == Deliver(old(State()), slot, v, merge, next)
    {
      Append(Store(Slot(slot), v));
      Terminate(Br(merge));
      insertPoint := next;
    }

    /** `&&` and `||` through a temporary slot. */
    method ShortCircuit(e: Ast.Expr) returns (v: Operand)
      requires hide *; e.Binary? && (e.op == Ast.And || e.op == Ast.Or)
      requires Valid(State(), consts) && Open(State())
      modifies this
      ensures ExprCompiled(old(State()), e, State(), v, consts)
      ensures ExprFits(old(State()), State(), v)
      ensures symbols == old(symbols) && hadError == (old(hadError) || !Found(e, symbols.Keys, Answered()))
      decreases e, 0
    {
      hide ExprCompiled, ExprFits, Valid, Open, NewSlot, Test, ToShort, Deliver;
      var isAnd := e.op == Ast.And;
      ghost var g := State();
      SlotReady(g, consts);
      var slot := AllocaInEntry();
      var x := VisitExpr(e.lhs);
      ghost var left := State();
      ghost var p := ShortPath(g, isAnd, left, x, left, x);
      ExprStart(NewSlot(g), e.lhs, left, x, consts);
      ShortReady(p, consts);
      ShortInside(p, consts);
      var c := NotZero(x);
      var right, merge := ForkShort(c, isAnd);
      StoreAndJoin(slot, Const(if isAnd then 0 else 1), merge, right);
      assert State() == p.Right();
      var y := VisitExpr(e.rhs);
      p := ShortPath(g, isAnd, left, x, State(), y);
      ExprStart(p.Right(), e.rhs, State(), y, consts);
      ShortCompiled(p, e.lhs, e.rhs, consts);
      ShortDone(p, e.lhs, e.rhs, consts);
      ShortOutside(p);
      c := NotZero(y);
      StoreAndJoin(slot, c, merge, merge);
      assert State() == p.Merged();
      v := Reg(nextId);
      AppendFresh(Load(nextId, Slot(slot)));
    }

    // ----- statements -----

    /** Branches on `c` to two new blocks and goes on in the first. */
    method BranchOn(c: Operand) returns (yes: nat, no: nat)
      requires insertPoint < |blocks|
      modifies `blocks, `insertPoint
      ensures State() == Branch(old(State()), c) && yes == |old(blocks)| && no == yes + 1
    {
      yes := CreateBlock();
      no := CreateBlock();
      Terminate(CondBr(c, yes, no));
      insertPoint := yes;
    }

    /** Joins the ends of two alternatives in a new block, if one of them is open. */
    method JoinAlternatives(thenEnd: nat, thenOpen: bool, ghost yes: Gen)
      requires insertPoint < |blocks| && thenEnd < |blocks| && thenEnd == yes.here && thenOpen == Open(yes)
      modifies `blocks, `insertPoint
      ensures State() == Merge(yes, old(State()))
    {
      var elseEnd, elseOpen := insertPoint, !Terminated();
      if thenOpen || elseOpen {
        var merge := CreateBlock();
        if thenOpen {
          insertPoint := thenEnd;
          Terminate(Br(merge));
        }
        if elseOpen {
          insertPoint := elseEnd;
          Terminate(Br(merge));
        }
        insertPoint := merge;
      } else {
        insertPoint := elseEnd;
      }
    }

    method StartLoop() returns (cond: nat, body: nat, exit: nat)
      requires insertPoint < |blocks|
      modifies `blocks, `insertPoint
      ensures State() == LoopStart(old(State())) && cond == |old(blocks)| && body == cond + 1 && exit == cond + 2
    {
      cond := CreateBlock();
      body := CreateBlock();
      exit := CreateBlock();
      Terminate(Br(cond));
      insertPoint := cond;
    }

    method EnterLoop(c: Operand, cond: nat, body: nat, exit: nat)
      requires insertPoint < |blocks| && body == cond + 1 && exit == cond + 2
      modifies `blocks, `insertPoint, `loops
      ensures State() == LoopBody(old(State()), c, cond)
    {
      Terminate(CondBr(c, body, exit));
      loops := loops + [(cond, exit)];
      insertPoint := body;
    }

    /** Ends the block if it is open, and goes on in `next`. */
    method Leave(target: nat, next: nat)
      requires insertPoint < |blocks|
      modifies `blocks, `insertPoint
      ensures State() == Rejoin(old(State()), target, next)
    {
      if !Terminated() {
        Terminate(Br(target));
      }
      insertPoint := next;
    }

    method VisitStmt(s: Ast.Stmt)
      requires hide *; Valid(State(), consts) && Open(State())
      requires Generable(s, loops != []) && DeclaresOnce(s) && FreshFor(State(), Declares(s))
      modifies this
      ensures StmtCompiled(old(State()), s, State(), consts) && StmtFits(old(State()), State())
      ensures hadError == (old(hadError) || !AllFound(s, old(symbols).Keys, Answered()))
      ensures symbols.Keys == old(symbols).Keys + Adds(s, Answered())
      decreases s, 1
    {
      hide ExprCompiled, ExprFits, Placed, StaysWired, StmtCompiled, StmtFits, Valid, Open, Generable, DeclaresOnce,
           Declares, FreshFor, Closes;
      ghost var g := State();
      OpenHere(g);
      match s
      case Block(body) =>
        VisitBlock(s);
      case Empty =>
        NothingCompiled(g, s, consts);
        SameStmtFits(g, s, g, consts);
      case ExprStmt(e) =>
        var v := VisitExpr(e);
        EffectCompiled(g, e, State(), v, consts);
        EffectFits(g, State(), v);
      case Assign(_, _, _) =>
        VisitAssign(s);
      case ConstDecl(_, _, _) =>
        VisitConstDecl(s);
      case VarDecl(_, _, _) =>
        VisitVarDecl(s);
      case If(c, s1, s2) =>
        VisitIf(s);
      case While(c, b) =>
        VisitWhile(s);
      case Break =>
        LoopsThere(s, loops);
        JumpCompiled(g, s, consts);
        JumpDone(g, s, consts);
        Terminate(Br(loops[|loops| - 1].1));
      case Continue =>
        LoopsThere(s, loops);
        JumpCompiled(g, s, consts);
        JumpDone(g, s, consts);
        Terminate(Br(loops[|loops| - 1].0));
      case Return(None) =>
        ReturnCompiled(g, consts);
        ReturnDone(g, g, s, None, consts);
        Terminate(Ret(None));
      case Return(Some(e)) =>
        var v := VisitExpr(e);
        ExprStart(g, e, State(), v, consts);
        ReturnValueCompiled(g, e, State(), v, consts);
        ReturnDone(g, State(), s, Some(v), consts);
        Terminate(Ret(Some(v)));
    }

    method VisitAssign(s: Ast.Stmt)
      requires hide *; s.Assign? && Valid(State(), consts) && Open(State()) && Generable(s, loops != [])
      modifies this
      ensures StmtCompiled(old(State()), s, State(), consts) && StmtFits(old(State()), State())
      ensures hadError == (old(hadError) || !AllFound(s, old(symbols).Keys, Answered())) && symbols == old(symbols)
      decreases s, 0
    {
      hide ExprCompiled, ExprFits, Placed, StaysWired, StmtCompiled, StmtFits, Valid, Open, Generable, OfVariable;
      ghost var g := State();
      OpenHere(g);
      if s.node !in recorded || s.target !in symbols {
        UnresolvedStmt(g, s, consts);
        hadError := true;
        SameStmtFits(g, s, State(), consts);
      } else {
        AssignReady(g, s, consts);
        var symbol := symbols[s.target];
        var v := VisitExpr(s.value);
        ExprStart(g, s.value, State(), v, consts);
        StoredCompiled(g, s, s.target, s.value, g, State(), v, consts);
        StaysSame(g);
        SlotOfSymbol(State(), s.target);
        StoredDone(g, g, s, State(), v, AddressOf(symbol), consts);
        Append(Store(AddressOf(symbol), v));
      }
    }

    method VisitConstDecl(s: Ast.Stmt)
      requires hide *; s.ConstDecl? && Valid(State(), consts) && Open(State())
      modifies this
      ensures StmtCompiled(old(State()), s, State(), consts) && StmtFits(old(State()), State())
      ensures hadError == (old(hadError) || !AllFound(s, old(symbols).Keys, Answered()))
      ensures symbols.Keys == old(symbols).Keys + Adds(s, Answered())
    {
      hide StmtCompiled, StmtFits, Valid, Open;
      ghost var g := State();
      OpenHere(g);
      NothingCompiled(g, s, consts);
      if s.id in consts {
        symbols := symbols[Ast.Constant(s.id) := Value(consts[s.id])];
      } else {
        UnresolvedStmt(g, s, consts);
        hadError := true;
      }
      SameStmtFits(g, s, State(), consts);
    }

    method VisitVarDecl(s: Ast.Stmt)
      requires hide *; s.VarDecl? && Valid(State(), consts) && Open(State()) && FreshFor(State(), Declares(s))
      modifies this
      ensures StmtCompiled(old(State()), s, State(), consts) && StmtFits(old(State()), State())
      ensures hadError == (old(hadError) || !AllFound(s, old(symbols).Keys, Answered()))
      ensures symbols.Keys == old(symbols).Keys + Adds(s, Answered())
      decreases s, 0
    {
      hide ExprCompiled, ExprFits, Placed, StaysWired, StmtCompiled, StmtFits, Valid, Open, Declares, FreshFor, Found,
           OfVariable;
      ghost var g := State();
      OpenHere(g);
      DeclareReady(g, s, consts);
      var slot := AllocaInEntry();
      symbols := symbols[Ast.Variable(s.id) := Local(slot)];
      assert symbols.Keys == g.symbols.Keys + {Ast.Variable(s.id)};
      var v := VisitExpr(s.init);
      ExprStart(Declare(g, s.id), s.init, State(), v, consts);
      StoredCompiled(g, s, Ast.Variable(s.id), s.init, Declare(g, s.id), State(), v, consts);
      DeclareWired(g, s.id);
      SlotOfSymbol(State(), Ast.Variable(s.id));
      StoredDone(g, Declare(g, s.id), s, State(), v, Slot(slot), consts);
      Append(Store(Slot(slot), v));
    }

    /** The statements of a block, up to one that closes it. */
    method VisitBlock(s: Ast.Stmt)
      requires hide *; s.Block? && Valid(State(), consts) && Open(State())
      requires Generable(s, loops != []) && DeclaresOnce(s) && FreshFor(State(), Declares(s))
      modifies this
      ensures StmtCompiled(old(State()), s, State(), consts) && StmtFits(old(State()), State())
      ensures hadError == (old(hadError) || !AllFound(s, old(symbols).Keys, Answered()))
      ensures symbols.Keys == old(symbols).Keys + Adds(s, Answered())
      decreases s, 0
    {
      hide AllFound, StmtCompiled, StmtFits, Valid, Open, Generable, DeclaresOnce, Declares, FreshFor, Closes,
           FoundIn, AddsAll, Adds;
      ghost var g := State();
      var i := 0;
      BlockStarts(g, s.body, consts);
      SameStmtFits(g, Ast.Block(s.body[..0]), g, consts);
      assert s.body[..0] == [];
      NoneLookedUp(g.symbols.Keys, Answered());
      while i < |s.body| && !Terminated()
        invariant 0 <= i <= |s.body| && insertPoint < |blocks|
        invariant StmtCompiled(g, Ast.Block(s.body[..i]), State(), consts) && StmtFits(g, State())
        invariant hadError == (g.failed || !FoundIn(s.body[..i], g.symbols.Keys, Answered()))
        invariant symbols.Keys == g.symbols.Keys + AddsAll(s.body[..i], Answered())
        decreases |s.body| - i
      {
        ghost var g1 := State();
        BlockStep(g, s, i, g1, g.loops != [], consts);
        VisitStmt(s.body[i]);
        NextCompiled(g, s.body, i, g1, State(), consts);
        NextDone(g, Ast.Block(s.body[..i + 1]), g1, State(), consts);
        NextLookedUp(s.body, i, g.symbols.Keys, Answered());
        BlockHere(g1, s.body[i], State(), consts);
        i := i + 1;
      }
      BlockEnds(g, s.body, i, State(), consts);
      RestDead(g, s.body, i, State(), consts);
      RestNotLookedUp(s.body, i, g.symbols.Keys, Answered());
      BlockLooksUp(s, g.symbols.Keys, Answered());
    }

    method VisitIf(s: Ast.Stmt)
      requires hide *; s.If? && Valid(State(), consts) && Open(State())
      requires Generable(s, loops != []) && DeclaresOnce(s) && FreshFor(State(), Declares(s))
      modifies this
      ensures StmtCompiled(old(State()), s, State(), consts) && StmtFits(old(State()), State())
      ensures hadError == (old(hadError) || !AllFound(s, old(symbols).Keys, Answered()))
      ensures symbols.Keys == old(symbols).Keys + Adds(s, Answered())
      decreases s, 0
    {
      hide ExprCompiled, ExprFits, Placed, StaysWired, StmtCompiled, StmtFits, Valid, Open, Generable, DeclaresOnce,
           Declares, FreshFor, Closes, Branch, Merge, Rejoin, Other, IfPassed, Found;
      ghost var g := State();
      var c := VisitExpr(s.cond);
      ghost var g1 := State();
      ExprStart(g, s.cond, g1, c, consts);
      ThenReady(g, s, g1, c, consts);
      var thenBlock, other := BranchOn(c);
      VisitStmt(s.thenBranch);
      ghost var yes := State();
      ThenDone(g, s, g1, c, yes, consts);
      if s.elseBranch.Some? {
        var thenEnd, thenOpen := insertPoint, !Terminated();
        insertPoint := other;
        OtherState(g1, yes, State());
        ElseReady(g, s, g1, c, yes, consts);
        VisitStmt(s.elseBranch.value);
        IfElseCompiled(g, s.cond, s.thenBranch, s.elseBranch.value, g1, c, yes, State(), consts);
        IfElseDone(g, s.cond, s.thenBranch, s.elseBranch.value, g1, c, yes, State(), consts);
        JoinAlternatives(thenEnd, thenOpen, yes);
      } else {
        IfCompiled(g, s.cond, s.thenBranch, g1, c, yes, consts);
        IfDone(g, s.cond, s.thenBranch, g1, c, yes, consts);
        Leave(other, other);
      }
    }

    method VisitWhile(s: Ast.Stmt)
      requires hide *; s.While? && Valid(State(), consts) && Open(State())
      requires Generable(s, loops != []) && DeclaresOnce(s) && FreshFor(State(), Declares(s))
      modifies this
      ensures StmtCompiled(old(State()), s, State(), consts) && StmtFits(old(State()), State())
      ensures hadError == (old(hadError) || !AllFound(s, old(symbols).Keys, Answered()))
      ensures symbols.Keys == old(symbols).Keys + Adds(s, Answered())
      decreases s, 0
    {
      hide ExprCompiled, ExprFits, Placed, StaysWired, StmtCompiled, StmtFits, Valid, Open, Generable, DeclaresOnce,
           Declares, FreshFor, Closes, LoopStart, LoopBody, LoopEnd, Rejoin;
      ghost var g := State();
      WhileReady(g, s, consts);
      var cond, body, exit := StartLoop();
      var c := VisitExpr(s.cond);
      ghost var g1 := State();
      ExprStart(LoopStart(g), s.cond, g1, c, consts);
      BodyReady(g, s, g1, c, consts);
      EnterLoop(c, cond, body, exit);
      VisitStmt(s.loopBody);
      ghost var done := State();
      BodyDone(g, s, g1, c, done, consts);
      WhileCompiled(g, s.cond, s.loopBody, g1, c, done, consts);
      WhileDone(g, s.cond, s.loopBody, g1, c, done, consts);
      Leave(cond, exit);
      loops := loops[..|loops| - 1];
      LoopLeft(g, done, State());
    }

    // ----- functions -----

    /** One function of a compilation unit. Nothing at the top level may follow a statement that closes its block. */
    method VisitFuncDef(func: Ast.FuncDef) returns (f: Function)
      requires hide *; Table(symbols, consts) && SlotsBelow(symbols, nextId) && loops == []
      requires Distinct(func.params) && Acceptable(func) && TopLevelOpen(func.body)
      requires forall id :: id in func.params || id in DeclaresAll(func.body) ==> Ast.Variable(id) !in symbols
      modifies this
      ensures Table(symbols, consts) && SlotsBelow(symbols, nextId) && loops == []
      ensures hadError == (old(hadError) || !FunctionFound(func, old(symbols).Keys, Answered()))
      ensures !hadError ==> SameFromAll(f, func, consts) && SameCalls(f, func, consts)
      ensures Ssa.WellFormed(f) && Ssa.UniqueAllocas(f)
      ensures NoVariables(old(symbols)) ==> FunctionWired(f, |func.params|)
      ensures Ssa.FreshFrom(f, nextId) && Ssa.SlotsFreshFrom(f, nextId)
    {
      hide AllFound, FuncFits, ParamsPassed, Ssa.WellFormed, StmtCompiled, StmtFits, Valid, Open, Generable,
           DeclaresOnce, Declares, DeclaresAll, FreshFor, Closes, TopLevelOpen, Acceptable, FoundIn, AddsAll, Adds,
           Finished, SameCalls, SameFromAll, Ssa.UniqueAllocas, Ssa.FreshFrom, Ssa.SlotsFreshFrom, FunctionWired;
      ghost var clean := NoVariables(symbols);
      EnterFunction(func);
      ghost var g := State();
      BodyStarts(g, func, consts);
      assert func.body[..0] == [];
      NoneLookedUp(g.symbols.Keys, Answered());
      var i := 0;
      while i < |func.body|
        invariant 0 <= i <= |func.body| && insertPoint < |blocks|
        invariant StmtCompiled(g, Ast.Block(func.body[..i]), State(), consts)
        invariant FuncFits(State(), |func.params|, clean)
        invariant hadError == (g.failed || !FoundIn(func.body[..i], g.symbols.Keys, Answered()))
        invariant symbols.Keys == g.symbols.Keys + AddsAll(func.body[..i], Answered())
      {
        ghost var g1 := State();
        TopLevelStep(g, func, i, g1, consts);
        VisitStmt(func.body[i]);
        NextCompiled(g, func.body, i, g1, State(), consts);
        BodyFits(g1, State(), |func.params|, clean);
        NextLookedUp(func.body, i, g.symbols.Keys, Answered());
        BlockHere(g1, func.body[i], State(), consts);
        i := i + 1;
      }
      assert func.body[..i] == func.body;
      f := Finished(State());
      FinishedIsWellFormed(State(), |func.params|, clean);
      FunctionLeft(g, func, State(), consts);
      if !hadError {
        FunctionCompiled(g, func, State(), consts);
        SameFromNothing(f, func, consts);
      }
    }

    /** Puts the `i`-th parameter into a slot of its own. */
    method PassParam(id: nat, i: nat)
      requires 0 < |blocks| && insertPoint < |blocks|
      modifies `blocks, `nextId, `symbols
      ensures State() == WithParam(old(State()), id, i)
      ensures symbols.Keys == old(symbols).Keys + {Ast.Variable(id)}
    {
      var slot := AllocaInEntry();
      symbols := symbols[Ast.Variable(id) := Local(slot)];
      Append(Store(Slot(slot), Param(i)));
    }

    /** A new function: a slot for every parameter. */
    method EnterFunction(func: Ast.FuncDef)
      requires hide *; Table(symbols, consts) && SlotsBelow(symbols, nextId) && loops == []
      requires Distinct(func.params) && Acceptable(func)
      requires forall id :: id in func.params || id in DeclaresAll(func.body) ==> Ast.Variable(id) !in symbols
      modifies this
      ensures ParamsPassed(State(), func.params, consts) && insertPoint < |blocks| && loops == []
      ensures FuncFits(State(), |func.params|, NoVariables(old(symbols)))
      ensures forall id :: id in DeclaresAll(func.body) ==> Ast.Variable(id) !in symbols
      ensures hadError == old(hadError) && symbols.Keys == old(symbols).Keys + ParamNames(func.params)
    {
      hide Acceptable, FuncFits, ParamsPassed, WithParam, Valid, Open, DeclaresAll, Table, SlotsBelow, Distinct,
           ParamNames, NamesAhead;
      FirstName(func, symbols);
      blocks := [];
      insertPoint := CreateBlock();
      EntryReady(State(), consts);
      ghost var clean := NoVariables(symbols);
      EntryFits(State(), |func.params|, consts, clean);
      NoParamNames();
      var i := 0;
      while i < |func.params|
        invariant 0 <= i <= |func.params| && ParamsPassed(State(), func.params[..i], consts)
        invariant insertPoint < |blocks| && loops == [] && FuncFits(State(), |func.params|, clean)
        invariant NamesAhead(func, i, symbols)
        invariant hadError == old(hadError) && symbols.Keys == old(symbols).Keys + ParamNames(func.params[..i])
      {
        ghost var g := State();
        var id := func.params[i];
        NextName(func, i, symbols);
        ParamReady(g, func.params, i, consts);
        PassParam(id, i);
        WithParamFits(g, func.params, id, i, consts, clean);
        NameTaken(func, i, g.symbols, symbols);
        NextParamName(func.params, i);
        i := i + 1;
      }
      assert func.params[..i] == func.params;
      LastName(func, i, symbols);
    }
  }

  // ----- whole functions -----

  ghost predicate SlotsBelow(symbols: map<Ast.Decl, Symbol>, next: nat) {
    forall d :: d in symbols && symbols[d].Local? ==> symbols[d].slot < next
  }

  ghost predicate NoVariables(symbols: map<Ast.Decl, Symbol>) {
    forall id: nat :: Ast.Variable(id) !in symbols
  }

  predicate Acceptable(func: Ast.FuncDef) {
    && Generable(Ast.Block(func.body), false) && AllDeclareOnce(func.body)
    && forall i :: 0 <= i < |func.params| ==> func.params[i] !in DeclaresAll(func.body)
  }

  predicate TopLevelOpen(body: seq<Ast.Stmt>) {
    forall i :: 0 <= i < |body| - 1 ==> !Closes(body[i])
  }

  /** The source function returns `result` exactly if the IR function does, with the same world; so one of
      them runs forever exactly if the other does. */
  ghost predicate SameCalls(f: Function, func: Ast.FuncDef, consts: Ast.Consts) {
    forall args: seq<i32>, callees: Callees, w: World, result: Option<i32>, w': World ::
      CallReturns(func, args, consts, callees, w, result, w') <==> RunReturns(f, args, callees, w, result, w')
  }

  ghost predicate CallReturns(func: Ast.FuncDef, args: seq<i32>, consts: Ast.Consts, callees: Callees, w: World,
                              result: Option<i32>, w': World) {
    ReturnsFrom(func, args, consts, callees, Ast.Fresh(w), result, w')
  }

  ghost predicate RunReturns(f: Function, args: seq<i32>, callees: Callees, w: World, result: Option<i32>, w': World) {
    RunReturnsFrom(f, args, callees, map[], w, result, w')
  }

  /** A call returns when its variables hold something at first. */
  ghost predicate ReturnsFrom(func: Ast.FuncDef, args: seq<i32>, consts: Ast.Consts, callees: Callees, st: Ast.State,
                              result: Option<i32>, w': World) {
    exists fuel: nat :: Ast.RunCall(func, args, fuel, consts, callees, st) == Some((result, w'))
  }

  ghost predicate RunReturnsFrom(f: Function, args: seq<i32>, callees: Callees, slots: map<nat, i32>, w: World,
                                 result: Option<i32>, w': World) {
    exists n: nat :: Run(f, args, callees, From(slots, w), n) == Done(result, w')
  }

  /** What is in the slots and in the variables at the start of a call. */
  datatype Origin = Origin(slots: map<nat, i32>, st: Ast.State)

  /** Every variable holds what is in its slot. */
  ghost predicate Alike(symbols: map<Ast.Decl, Symbol>, at: Origin) {
    forall id: nat :: Ast.Variable(id) in symbols && symbols[Ast.Variable(id)].Local? ==>
      Get(at.slots, symbols[Ast.Variable(id)].slot) == Get(at.st.locals, id)
  }

  /** Whatever the variables hold at first, as long as the slots hold the same, source and IR function return alike. */
  ghost predicate SameFrom(f: Function, func: Ast.FuncDef, symbols: map<Ast.Decl, Symbol>, consts: Ast.Consts) {
    forall args: seq<i32>, callees: Callees, at: Origin, result: Option<i32>, w': World ::
      Alike(symbols, at) ==>
        (ReturnsFrom(func, args, consts, callees, at.st, result, w')
         <==> RunReturnsFrom(f, args, callees, at.slots, at.st.world, result, w'))
  }

  ghost predicate SameFromAll(f: Function, func: Ast.FuncDef, consts: Ast.Consts) {
    exists symbols: map<Ast.Decl, Symbol> :: Table(symbols, consts) && SameFrom(f, func, symbols, consts)
  }

  lemma SameFromNothing(f: Function, func: Ast.FuncDef, consts: Ast.Consts)
    requires SameFromAll(f, func, consts)
    ensures SameCalls(f, func, consts)
  {
    hide ReturnsFrom, RunReturnsFrom;
    var symbols: map<Ast.Decl, Symbol> :| Table(symbols, consts) && SameFrom(f, func, symbols, consts);
    forall args: seq<i32>, callees: Callees, w: World, result: Option<i32>, w': World
      ensures CallReturns(func, args, consts, callees, w, result, w')
         <==> RunReturns(f, args, callees, w, result, w')
    {
      assert Alike(symbols, Origin(map[], Ast.Fresh(w)));
    }
  }

  /** The entry block has stored the parameters `ids`. */
  ghost predicate ParamsPassed(g: Gen, ids: seq<nat>, consts: Ast.Consts) {
    && Valid(g, consts) && Open(g) && g.loops == []
    && forall m: Whole, at: Origin :: Extends(m, g) && m.consts == consts && Alike(m.symbols, at) ==>
         ParamsStand(m, g, ids, at)
  }

  ghost predicate ParamsStand(m: Whole, g: Gen, ids: seq<nat>, at: Origin) {
    exists fr: Frame :: StandsAt(m, Begin(at), 1, g, fr, Passed(m, ids, at))
  }

  function Begin(at: Origin): Config {
    From(at.slots, at.st.world)
  }

  /** The variables when the parameters `ids` are passed. */
  function Passed(m: Whole, ids: seq<nat>, at: Origin): Ast.State {
    at.st.(locals := Ast.Bind(at.st.locals, ids, m.setup.params))
  }

  function WithParam(g: Gen, id: nat, i: nat): Gen
    requires 0 < |g.blocks| && g.here < |g.blocks|
  {
    Emit(Declare(g, id), Store(Slot(g.next), Param(i)))
  }

  lemma EntryReady(g: Gen, consts: Ast.Consts)
    requires g.blocks == [Draft([], None)] && g.here == 0 && g.loops == []
    requires Table(g.symbols, consts) && SlotsBelow(g.symbols, g.next)
    ensures ParamsPassed(g, [], consts)
  {
    hide Goes, Here, Steps;
    assert Plain([]) == [];
    forall m: Whole, at: Origin | Extends(m, g) && m.consts == consts && Alike(m.symbols, at)
      ensures ParamsStand(m, g, [], at)
    {
      var fr := Frame(map[], at.slots, at.st.world);
      StartBlank(m, g, 0, fr);
      assert StandsAt(m, Begin(at), 1, g, fr, Passed(m, [], at)) by {
        forall id: nat | Ast.Variable(id) in m.symbols
          ensures m.symbols[Ast.Variable(id)].Local?
        {
          assert Bound(Ast.Variable(id), m.symbols[Ast.Variable(id)], consts);
        }
      }
    }
  }

  lemma ParamReady(g: Gen, params: seq<nat>, i: nat, consts: Ast.Consts)
    requires hide *; i < |params| && ParamsPassed(g, params[..i], consts) && Ast.Variable(params[i]) !in g.symbols
    ensures 0 < |g.blocks| && g.here < |g.blocks| && ParamsPassed(WithParam(g, params[i], i), params[..i + 1], consts)
    ensures WithParam(g, params[i], i).here < |WithParam(g, params[i], i).blocks|
            && WithParam(g, params[i], i).loops == g.loops == []
            && WithParam(g, params[i], i).failed == g.failed
  {
    hide Extends, ParamsStand, Table;
    var id, g', upTo := params[i], WithParam(g, params[i], i), params[..i + 1];
    DeclareGrows(g, id, consts);
    EmitGrows(Declare(g, id), Store(Slot(g.next), Param(i)), consts);
    forall m: Whole, at: Origin | Extends(m, g') && m.consts == consts && Alike(m.symbols, at)
      ensures ParamsStand(m, g', upTo, at)
    {
      ParamStands(m, g, params, i, at);
    }
  }

  lemma ParamStands(m: Whole, g: Gen, params: seq<nat>, i: nat, at: Origin)
    requires hide *; i < |params| && ParamsPassed(g, params[..i], m.consts) && Ast.Variable(params[i]) !in g.symbols
    requires 0 < |g.blocks| && g.here < |g.blocks| && Extends(m, WithParam(g, params[i], i)) && Alike(m.symbols, at)
    ensures ParamsStand(m, WithParam(g, params[i], i), params[..i + 1], at)
  {
    hide Point, RunBlock, Steps, Table;
    var id := params[i];
    var g1, g', d := Declare(g, id), WithParam(g, id, i), Ast.Variable(id);
    ParamSteps(m, g, id, i);
    assert ParamsStand(m, g, params[..i], at);
    hide Valid, Extends, ParamsPassed, Match, Emit, Declare, WithParam, Begin, Alike;
    var st := Passed(m, params[..i], at);
    var fr: Frame :| StandsAt(m, Begin(at), 1, g, fr, st);
    var fr' := StoreRuns(m, g1, d, Param(i), fr, st);
    assert params[..i + 1][..i] == params[..i];
    var st' := Passed(m, params[..i + 1], at);
    assert Ast.Put(d, Eval(Param(i), m.setup.params, fr.regs), st) == st';
    SameHere(m, g, g1, fr);
    GoesOn(m.setup, Begin(at), 1, Here(m, g, fr), 0, Here(m, g', fr'));
    assert StandsAt(m, Begin(at), 1, g', fr', st');
  }

  lemma ParamSteps(m: Whole, g: Gen, id: nat, i: nat)
    requires hide DraftSame, Emit, Extends, NewSlot, Valid;
             Valid(g, m.consts) && Open(g) && Ast.Variable(id) !in g.symbols
    requires 0 < |g.blocks| && g.here < |g.blocks| && Extends(m, WithParam(g, id, i))
    ensures var g1 := Declare(g, id);
            && Open(g1) && Valid(g1, m.consts) && g1.here == g.here && |g1.blocks| == |g.blocks| && Extends(m, g1)
            && Extends(m, g)
            && DraftSame(g.blocks[g.here], g1.blocks[g.here])
            && Ast.Variable(id) in g1.symbols && g1.symbols[Ast.Variable(id)] == Local(g.next)
            && WithParam(g, id, i) == Emit(g1, Store(AddressOf(g1.symbols[Ast.Variable(id)]), Param(i)))
    ensures WithParam(g, id, i).here < |WithParam(g, id, i).blocks|
  {
    hide Extends, Grows, Plain, WithAlloca;
    var g1 := Declare(g, id);
    DeclareGrows(g, id, m.consts);
    EmitGrows(g1, Store(Slot(g.next), Param(i)), m.consts);
    ExtendsBack(m, g1, WithParam(g, id, i));
    ExtendsBack(m, g, g1);
  }

  /** The parameters from the `i`-th on and the declarations of the body have no symbols yet. */
  ghost predicate NamesAhead(func: Ast.FuncDef, i: nat, symbols: map<Ast.Decl, Symbol>) {
    && i <= |func.params| && (forall j :: i <= j < |func.params| ==> Ast.Variable(func.params[j]) !in symbols)
    && forall id :: id in DeclaresAll(func.body) ==> Ast.Variable(id) !in symbols
  }

  lemma FirstName(func: Ast.FuncDef, symbols: map<Ast.Decl, Symbol>)
    requires forall id :: id in func.params || id in DeclaresAll(func.body) ==> Ast.Variable(id) !in symbols
    ensures NamesAhead(func, 0, symbols)
  {
  }

  lemma NextName(func: Ast.FuncDef, i: nat, symbols: map<Ast.Decl, Symbol>)
    requires NamesAhead(func, i, symbols) && i < |func.params|
    ensures Ast.Variable(func.params[i]) !in symbols
  {
  }

  lemma NameTaken(func: Ast.FuncDef, i: nat, symbols: map<Ast.Decl, Symbol>, symbols': map<Ast.Decl, Symbol>)
    requires hide *; NamesAhead(func, i, symbols) && i < |func.params| && Distinct(func.params) && Acceptable(func)
    requires symbols'.Keys == symbols.Keys + {Ast.Variable(func.params[i])}
    ensures NamesAhead(func, i + 1, symbols')
  {
  }

  lemma LastName(func: Ast.FuncDef, i: nat, symbols: map<Ast.Decl, Symbol>)
    requires NamesAhead(func, i, symbols)
    ensures forall id :: id in DeclaresAll(func.body) ==> Ast.Variable(id) !in symbols
  {
  }

  lemma WithParamFits(g: Gen, ids: seq<nat>, id: nat, i: nat, consts: Ast.Consts, clean: bool)
    requires hide *; i < |ids| && ParamsPassed(g, ids[..i], consts) && FuncFits(g, |ids|, clean)
    requires 0 < |g.blocks| && g.here < |g.blocks|
    ensures FuncFits(WithParam(g, id, i), |ids|, clean)
  {
    hide Declare, Extends, FuncFits, ParamsStand, Valid;
    ParamFits(g, WithParam(g, id, i), |ids|, clean, id, i);
  }

  lemma UnaryFits(g: Gen, g1: Gen, x: Operand, e: Ast.Expr, op: Ast.UnaryOp, consts: Ast.Consts)
    requires hide *; ExprFits(g, g1, x) && op != Ast.Plus && Open(g1) && g1.here < |g1.blocks|
    requires ExprCompiled(g, e, EmitFresh(g1, UnaryInst(op, g1.next, x)), Reg(g1.next), consts)
    ensures ExprFits(g, EmitFresh(g1, UnaryInst(op, g1.next, x)), Reg(g1.next))
  {
    hide ArgsFit, ExprCompiled;
    OneFit(g, g1, x);
    WithZero(g, g1, x);
    var i := UnaryInst(op, g1.next, x);
    hide ExprFits, ArgsFit, ExprCompiled, Open;
    EmittedFits(g, g1, if op == Ast.Minus then [x] else [x, Const(0)], e, i, consts);
  }

  lemma WithZero(g: Gen, g1: Gen, x: Operand)
    requires hide Grows, Placed, ReachesOn, StaysWired, Usable; ArgsFit(g, g1, [x])
    ensures ArgsFit(g, g1, [x, Const(0)])
  {
    hide Grows, Placed, ReachesOn, SetBefore, StaysWired, Fit;
    forall above | Placed(g.blocks, g.next, above)
      ensures exists above' :: Fit(g, above, g1, above') && Usable(g1, above', [x, Const(0)])
    {
      var above' := Extend(g, above, g1, [x]);
      NoneUsable(g1, above', [Const(0)]);
      AllUsable(g1, above', [x], Const(0));
      Pair(x, Const(0));
    }
  }

  lemma BodyStarts(g: Gen, func: Ast.FuncDef, consts: Ast.Consts)
    requires hide *; ParamsPassed(g, func.params, consts)
    ensures StmtCompiled(g, Ast.Block(func.body[..0]), g, consts) && g.here < |g.blocks|
  {
    hide Extends, ParamsStand, StmtRuns, StmtShape, Valid;
    BlockStarts(g, func.body, consts);
  }

  /** The generator stands in an open block before every statement of the top level. */
  lemma TopLevelStep(g: Gen, func: Ast.FuncDef, i: nat, g1: Gen, consts: Ast.Consts)
    requires hide *; i < |func.body| && StmtCompiled(g, Ast.Block(func.body[..i]), g1, consts) && g.loops == []
    requires Acceptable(func) && TopLevelOpen(func.body)
    requires forall id :: id in DeclaresAll(func.body) ==> Ast.Variable(id) !in g.symbols
    ensures !Closes(Ast.Block(func.body[..i])) && Valid(g1, consts) && Open(g1) && g1.loops == []
    ensures Generable(func.body[i], g1.loops != []) && DeclaresOnce(func.body[i])
            && FreshFor(g1, Declares(func.body[i]))
  {
    hide StmtRuns;
    assert !Closes(Ast.Block(func.body[..i])) by {
      forall j | 0 <= j < i
        ensures !Closes(func.body[..i][j])
      {
        assert func.body[..i][j] == func.body[j];
      }
    }
    StmtFacts(g, Ast.Block(func.body[..i]), g1, consts);
    BlockStep(g, Ast.Block(func.body), i, g1, false, consts);
  }

  lemma FunctionLeft(g: Gen, func: Ast.FuncDef, g1: Gen, consts: Ast.Consts)
    requires StmtCompiled(g, Ast.Block(func.body), g1, consts) && g.loops == []
    ensures Table(g1.symbols, consts) && SlotsBelow(g1.symbols, g1.next) && g1.loops == []
  {
    hide Extends, Grows, StmtRuns;
  }

  // ----- the meaning of a finished function -----

  lemma FinishedExtends(m: Whole, g: Gen)
    requires Valid(g, m.consts) && m.setup.f == Finished(g) && m.symbols == g.symbols
    ensures Extends(m, g)
  {
    hide Plain, Table;
  }

  /** An execution that ends makes the run end in the same way. */
  lemma EndReached(m: Whole, func: Ast.FuncDef, g: Gen, fuel: nat, at: Origin, c: Config)
    requires hide *; Valid(g, m.consts) && m.setup.f == Finished(g) && Goes(m.setup, Begin(at), 1, c)
    requires var (o, st1) := Ast.ExecAll(func.body, fuel, m.consts, m.setup.callees, Passed(m, func.params, at));
      Ends(m, g, [], fuel, o, st1, c)
    ensures match Ast.RunCall(func, m.setup.params, fuel, m.consts, m.setup.callees, at.st)
            case Some(r) => exists n: nat :: Goes(m.setup, Begin(at), n, Done(r.0, r.1))
            case None => exists n: nat, c': Config :: GoesPast(m, Begin(at), fuel, n, c')
  {
    hide Ast.ExecAll, Extends, Here, Run, Steps, Valid;
    var (o, st1) := Ast.ExecAll(func.body, fuel, m.consts, m.setup.callees, Passed(m, func.params, at));
    hide Ast.ExecAll, Match, Valid, Extends, Begin;
    match o
    case Normal =>
      var d: nat, fr: Frame :| StandsAt(m, c, d, g, fr, st1);
      assert fr.world == st1.world by { MatchWorld(m, fr, st1); }
      OpenEnds(m, g, fr);
      GoesOn(m.setup, Begin(at), 1, c, d, Here(m, g, fr));
      assert Goes(m.setup, Begin(at), 1 + d, Done(None, st1.world));
    case Returned(v) =>
      var d: nat :| Goes(m.setup, c, d, Done(v, st1.world));
      GoesOn(m.setup, Begin(at), 1, c, d, Done(v, st1.world));
    case Timeout =>
      var d: nat, c': Config :| GoesPast(m, c, fuel, d, c');
      GoesOn(m.setup, Begin(at), 1, c, d, c');
      assert GoesPast(m, Begin(at), fuel, 1 + d, c');
    case _ =>
  }

  lemma MatchWorld(m: Whole, fr: Frame, st: Ast.State)
    requires Match(m, fr, st)
    ensures fr.world == st.world
  {
  }

  /** Falling off the end. */
  lemma OpenEnds(m: Whole, g: Gen, fr: Frame)
    requires hide Extends, Here; m.setup.f == Finished(g) && Open(g) && Extends(m, g)
    ensures Here(m, g, fr) == Done(None, fr.world)
  {
    hide Eval, Extends, Point;
    PointEnd(m.setup, g.here, fr);
  }

  lemma RunDecides(m: Setup, c: Config, a: nat, b: nat, d: Config)
    requires Goes(m, c, a, d) && d.Done? && a <= b
    ensures Goes(m, c, b, d)
  {
    hide Run;
    RunAdd(m.f, m.params, m.callees, c, a, b - a);
    DoneStays(m.f, m.params, m.callees, d, b - a);
  }

  /** A call that returns makes the run return in the same way; one that needs more loop passes makes it longer. */
  ghost predicate Followed(m: Whole, func: Ast.FuncDef, at: Origin, fuel: nat) {
    match Ast.RunCall(func, m.setup.params, fuel, m.consts, m.setup.callees, at.st)
    case Some(r) => exists n: nat :: Goes(m.setup, Begin(at), n, Done(r.0, r.1))
    case None => exists n: nat, c': Config :: GoesPast(m, Begin(at), fuel, n, c')
  }

  lemma CallFollowed(m: Whole, g: Gen, func: Ast.FuncDef, g1: Gen, at: Origin, fuel: nat)
    requires ParamsPassed(g, func.params, m.consts) && StmtCompiled(g, Ast.Block(func.body), g1, m.consts) && !g1.failed
    requires m.setup.f == Finished(g1) && m.symbols == g1.symbols && Alike(m.symbols, at)
    ensures Followed(m, func, at, fuel)
  {
    hide Ast.Eval, Ends, Here, Run, Steps;
    StmtFacts(g, Ast.Block(func.body), g1, m.consts);
    FinishedExtends(m, g1);
    ExtendsBack(m, g, g1);
    assert ParamsStand(m, g, func.params, at) && g.loops == [];
    hide ParamsPassed, Valid, Extends, Match, StmtCompiled, Finished, Ast.ExecAll, Ast.RunCall, StmtShape, Ends, Here,
         Grows, Alike, Run;
    var st := Passed(m, func.params, at);
    var fr: Frame :| StandsAt(m, Begin(at), 1, g, fr, st);
    StmtEnds(m, g, Ast.Block(func.body), g1, fuel, fr, st);
    EndReached(m, func, g1, fuel, at, Here(m, g, fr));
  }

  lemma CallsAgree(m: Whole, g: Gen, func: Ast.FuncDef, g1: Gen, at: Origin, result: Option<i32>, w': World)
    requires ParamsPassed(g, func.params, m.consts) && StmtCompiled(g, Ast.Block(func.body), g1, m.consts) && !g1.failed
    requires m.setup.f == Finished(g1) && m.symbols == g1.symbols && Alike(m.symbols, at)
    ensures ReturnsFrom(func, m.setup.params, m.consts, m.setup.callees, at.st, result, w')
       <==> RunReturnsFrom(m.setup.f, m.setup.params, m.setup.callees, at.slots, at.st.world, result, w')
  {
    hide ParamsPassed, StmtCompiled, Finished, Ast.RunCall, Alike, Run;
    if ReturnsFrom(func, m.setup.params, m.consts, m.setup.callees, at.st, result, w') {
      var fuel: nat :| Ast.RunCall(func, m.setup.params, fuel, m.consts, m.setup.callees, at.st) == Some((result, w'));
      CallFollowed(m, g, func, g1, at, fuel);
      var n: nat :| Goes(m.setup, Begin(at), n, Done(result, w'));
      assert Run(m.setup.f, m.setup.params, m.setup.callees, Begin(at), n) == Done(result, w');
    }
    if RunReturnsFrom(m.setup.f, m.setup.params, m.setup.callees, at.slots, at.st.world, result, w') {
      var n: nat :| Run(m.setup.f, m.setup.params, m.setup.callees, Begin(at), n) == Done(result, w');
      assert Goes(m.setup, Begin(at), n, Done(result, w'));
      CallFollowed(m, g, func, g1, at, n);
      match Ast.RunCall(func, m.setup.params, n, m.consts, m.setup.callees, at.st)
      case Some(r) =>
        var n': nat :| Goes(m.setup, Begin(at), n', Done(r.0, r.1));
        RunDecides(m.setup, Begin(at), n, if n <= n' then n' else n, Done(result, w'));
        RunDecides(m.setup, Begin(at), n', if n <= n' then n' else n, Done(r.0, r.1));
      case None =>
        var n': nat, c': Config :| GoesPast(m, Begin(at), n, n', c');
        RunDecides(m.setup, Begin(at), n, n', Done(result, w'));
        assert false;
    }
  }

  lemma FunctionCompiled(g: Gen, func: Ast.FuncDef, g1: Gen, consts: Ast.Consts)
    requires ParamsPassed(g, func.params, consts) && StmtCompiled(g, Ast.Block(func.body), g1, consts) && !g1.failed
    requires Table(g1.symbols, consts)
    ensures SameFromAll(Finished(g1), func, consts)
  {
    forall args: seq<i32>, callees: Callees, at: Origin, result: Option<i32>, w': World | Alike(g1.symbols, at)
      ensures ReturnsFrom(func, args, consts, callees, at.st, result, w')
         <==> RunReturnsFrom(Finished(g1), args, callees, at.slots, at.st.world, result, w')
    {
      hide *;
      CallsAgree(Whole(Setup(Finished(g1), args, callees), g1.symbols, consts), g, func, g1, at, result, w');
    }
    assert SameFrom(Finished(g1), func, g1.symbols, consts) by { hide ReturnsFrom, RunReturnsFrom, Alike; }
  }

  // ----- what statements need -----

  ghost predicate FreshFor(g: Gen, ids: set<nat>) {
    forall id :: id in ids ==> Ast.Variable(id) !in g.symbols
  }

  lemma UnresolvedStmt(g: Gen, s: Ast.Stmt, consts: Ast.Consts)
    requires Valid(g, consts) && Open(g) && (s.Assign? || s.ConstDecl?)
    ensures StmtCompiled(g, s, g.(failed := true), consts)
  {
    hide StmtCompiled;
    FailedStmt(g, s, g.(failed := true), consts);
  }

  lemma AssignReady(g: Gen, s: Ast.Stmt, consts: Ast.Consts)
    requires Valid(g, consts) && s.Assign? && s.target in g.symbols && Generable(s, g.loops != [])
    ensures !g.symbols[s.target].Value?
  {
    assert Bound(s.target, g.symbols[s.target], consts);
  }

  lemma DeclareReady(g: Gen, s: Ast.Stmt, consts: Ast.Consts)
    requires hide *; s.VarDecl? && Valid(g, consts) && Open(g) && FreshFor(g, Declares(s))
    ensures |g.blocks| > 0 && Ast.Variable(s.id) !in g.symbols
    ensures Valid(Declare(g, s.id), consts) && Open(Declare(g, s.id))
  {
    hide Declare, DeclaresAll, DraftSame, Grows, Valid;
    assert s.id in Declares(s);
    DeclareGrows(g, s.id, consts);
  }

  lemma LoopsThere(s: Ast.Stmt, loops: seq<(nat, nat)>)
    requires Generable(s, loops != []) && (s.Break? || s.Continue?)
    ensures loops != []
  {
  }

  lemma BlockStarts(g: Gen, body: seq<Ast.Stmt>, consts: Ast.Consts)
    requires hide *; Valid(g, consts) && Open(g)
    ensures g.here < |g.blocks| && StmtCompiled(g, Ast.Block(body[..0]), g, consts)
  {
    hide Extends, StmtRuns, StmtShape;
    assert body[..0] == [];
    NothingCompiled(g, Ast.Block([]), consts);
  }

  lemma {:induction false} DeclaresAt(body: seq<Ast.Stmt>, i: nat)
    requires i < |body| && AllDeclareOnce(body)
    ensures DeclaresOnce(body[i]) && DeclaresAll(body[..i]) !! Declares(body[i])
            && Declares(body[i]) <= DeclaresAll(body)
  {
    if i < |body| - 1 {
      assert body[..|body| - 1][..i] == body[..i];
      DeclaresAt(body[..|body| - 1], i);
    }
  }

  lemma BlockStep(g: Gen, s: Ast.Stmt, i: nat, g1: Gen, inLoop: bool, consts: Ast.Consts)
    requires hide *; s.Block? && i < |s.body| && StmtCompiled(g, Ast.Block(s.body[..i]), g1, consts) && Open(g1)
    requires Generable(s, inLoop) && DeclaresOnce(s) && FreshFor(g, Declares(s)) && inLoop == (g.loops != [])
    ensures !Closes(Ast.Block(s.body[..i])) && Valid(g1, consts) && g1.loops == g.loops
    ensures Generable(s.body[i], g1.loops != []) && DeclaresOnce(s.body[i]) && FreshFor(g1, Declares(s.body[i]))
  {
    hide Grows, StmtCompiled, Valid;
    StmtFacts(g, Ast.Block(s.body[..i]), g1, consts);
    DeclaresAt(s.body, i);
    DeclaresMore(s.body, i);
    hide StmtCompiled, DeclaresAll, AllDeclareOnce, StmtShape;
    assert Comes(s.body, i) by {
      forall j | 0 <= j < i
        ensures !Closes(s.body[j])
      {
        assert s.body[..i][j] == s.body[j];
      }
    }
  }

  lemma BlockHere(g: Gen, s: Ast.Stmt, g': Gen, consts: Ast.Consts)
    requires StmtCompiled(g, s, g', consts)
    ensures g'.here < |g'.blocks|
  {
    hide Extends, Grows, StmtRuns;
  }

  lemma BlockEnds(g: Gen, body: seq<Ast.Stmt>, i: nat, g1: Gen, consts: Ast.Consts)
    requires hide *; i <= |body| && StmtCompiled(g, Ast.Block(body[..i]), g1, consts) && (i == |body| || !Open(g1))
    ensures i == |body| || Closes(Ast.Block(body[..i]))
  {
    hide *;
    StmtFacts(g, Ast.Block(body[..i]), g1, consts);
  }

  lemma ThenReady(g: Gen, s: Ast.Stmt, g1: Gen, c: Operand, consts: Ast.Consts)
    requires hide *; s.If? && Valid(g1, consts) && Open(g1) && g1.here < |g1.blocks|
    requires g1.symbols == g.symbols && g1.loops == g.loops
    requires Generable(s, g.loops != []) && DeclaresOnce(s) && FreshFor(g, Declares(s))
    ensures Valid(Branch(g1, c), consts) && Open(Branch(g1, c)) && Branch(g1, c).loops == g.loops
    ensures Generable(s.thenBranch, g.loops != []) && DeclaresOnce(s.thenBranch)
    ensures FreshFor(Branch(g1, c), Declares(s.thenBranch))
  {
    hide AllDeclareOnce, Blank, Comes, Grows, Jump, Table;
    BranchGrows(g1, c, consts);
    assert Declares(s.thenBranch) <= Declares(s);
  }

  lemma ThenDone(g: Gen, s: Ast.Stmt, g1: Gen, c: Operand, yes: Gen, consts: Ast.Consts)
    requires hide *; s.If? && ExprCompiled(g, s.cond, g1, c, consts) && g1.here < |g1.blocks|
    requires StmtCompiled(Branch(g1, c), s.thenBranch, yes, consts)
    ensures IfPassed(g, s.cond, s.thenBranch, g1, c, yes, consts) && yes.here < |yes.blocks|
  {
    hide ExprCompiled, Grows, StmtCompiled;
    StmtFacts(Branch(g1, c), s.thenBranch, yes, consts);
    hide ExprCompiled, StmtCompiled;
  }

  lemma OtherState(g1: Gen, yes: Gen, now: Gen)
    requires now == yes.(here := |g1.blocks| + 1)
    ensures now == Other(g1, yes)
  {
  }

  lemma ElseReady(g: Gen, s: Ast.Stmt, g1: Gen, c: Operand, yes: Gen, consts: Ast.Consts)
    requires hide *; s.If? && s.elseBranch.Some? && g1.here < |g1.blocks| && yes.here < |yes.blocks|
    requires IfPassed(g, s.cond, s.thenBranch, g1, c, yes, consts)
    requires Generable(s, g.loops != []) && DeclaresOnce(s) && FreshFor(g, Declares(s))
    ensures Valid(Other(g1, yes), consts) && Open(Other(g1, yes)) && Other(g1, yes).loops == g.loops
    ensures Generable(s.elseBranch.value, g.loops != []) && DeclaresOnce(s.elseBranch.value)
    ensures FreshFor(Other(g1, yes), Declares(s.elseBranch.value))
            && Declares(s.thenBranch) !! Declares(s.elseBranch.value)
  {
    hide Grows, IfPassed;
    BranchShape(g, s.cond, s.thenBranch, g1, c, yes, consts);
    assert Declares(s) == Declares(s.thenBranch) + Declares(s.elseBranch.value);
  }

  lemma WhileReady(g: Gen, s: Ast.Stmt, consts: Ast.Consts)
    requires hide *; s.While? && Valid(g, consts) && Open(g)
    ensures g.here < |g.blocks| && Valid(LoopStart(g), consts) && Open(LoopStart(g))
    ensures LoopStart(g).loops == g.loops && LoopStart(g).symbols == g.symbols
  {
    hide Blank, EndedBy, Grows, Jump, Table;
    LoopStartGrows(g, consts);
  }

  lemma BodyReady(g: Gen, s: Ast.Stmt, g1: Gen, c: Operand, consts: Ast.Consts)
    requires hide ExprCompiled, Generable, Valid; s.While? && Valid(g, consts) && Open(g) && g.here < |g.blocks|
    requires ExprCompiled(LoopStart(g), s.cond, g1, c, consts)
    requires Generable(s, g.loops != []) && DeclaresOnce(s) && FreshFor(g, Declares(s))
    ensures g1.here < |g1.blocks| && Valid(LoopBody(g1, c, |g.blocks|), consts) && Open(LoopBody(g1, c, |g.blocks|))
    ensures LoopBody(g1, c, |g.blocks|).loops == g.loops + [(|g.blocks|, |g.blocks| + 2)]
    ensures Generable(s.loopBody, LoopBody(g1, c, |g.blocks|).loops != []) && DeclaresOnce(s.loopBody)
    ensures FreshFor(LoopBody(g1, c, |g.blocks|), Declares(s.loopBody))
  {
    hide ExprRuns, Extends;
    LoopStartGrows(g, consts);
    CompiledShape(LoopStart(g), s.cond, g1, c, consts);
    ShapeFacts(LoopStart(g), g1, consts);
    AfterCondition(g, g1);
    LoopBodyGrows(g1, c, |g.blocks|, consts);
  }

  lemma BodyDone(g: Gen, s: Ast.Stmt, g1: Gen, c: Operand, done: Gen, consts: Ast.Consts)
    requires hide ExprCompiled, StmtCompiled; s.While? && g.here < |g.blocks| && g1.here < |g1.blocks|
    requires ExprCompiled(LoopStart(g), s.cond, g1, c, consts)
    requires StmtCompiled(LoopBody(g1, c, |g.blocks|), s.loopBody, done, consts)
    requires LoopBody(g1, c, |g.blocks|).loops == g.loops + [(|g.blocks|, |g.blocks| + 2)]
    ensures WhilePassed(g, s.cond, s.loopBody, g1, c, done, consts) && done.here < |done.blocks|
    ensures |done.loops| == |g.loops| + 1 && done.loops[..|g.loops|] == g.loops
  {
    hide ExprRuns, StmtRuns;
    StmtFacts(LoopBody(g1, c, |g.blocks|), s.loopBody, done, consts);
    hide ExprCompiled, StmtCompiled;
  }

  lemma LoopLeft(g: Gen, done: Gen, now: Gen)
    requires done.here < |done.blocks| && now == Rejoin(done, |g.blocks|, |g.blocks| + 2).(loops := g.loops)
    ensures now == LoopEnd(done, |g.blocks|, g.loops)
  {
  }

  lemma ShortInside(p: ShortPath, consts: Ast.Consts)
    requires hide *; p.left.here < |p.left.blocks|
    ensures Test(p.left, p.x).here < |Test(p.left, p.x).blocks| == |p.left.blocks|
    ensures p.Short().here < |p.Short().blocks|
  {
  }

  lemma ShortOutside(p: ShortPath)
    requires hide *; p.right.here < |p.right.blocks| && p.Merge() < |p.right.blocks|
    ensures Test(p.right, p.y).here < |Test(p.right, p.y).blocks|
    ensures p.Merged().here < |p.Merged().blocks|
  {
  }

  lemma NoArgs(args: seq<Ast.Expr>)
    ensures args[..0] == []
  {
  }

  lemma AllArgs(args: seq<Ast.Expr>, i: nat)
    requires i == |args|
    ensures args[..i] == args
  {
  }
}
