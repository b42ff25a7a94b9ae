/** Generated statements end as their sources do, and leave the same variables and the same world. */
module StmtGen {
  import opened Int32
  import opened Ir
  import opened Runs
  import opened Drafts
  import opened ExprGen
  import opened Shapes
  import Ast

  // ----- how generated code ends -----

  ghost predicate ArrivesAt(m: Whole, c: Config, d: nat, block: nat, prev: nat, fr: Frame, st: Ast.State) {
    Goes(m.setup, c, d, At(prev, block, fr)) && Match(m, fr, st)
  }

  ghost predicate Reaches(m: Whole, c: Config, block: nat, st: Ast.State) {
    exists d: nat, prev: nat, fr: Frame :: ArrivesAt(m, c, d, block, prev, fr, st)
  }

  ghost predicate StandsAt(m: Whole, c: Config, d: nat, g: Gen, fr: Frame, st: Ast.State) {
    Extends(m, g) && g.here < |g.blocks| && Goes(m.setup, c, d, Here(m, g, fr)) && Match(m, fr, st)
  }

  ghost predicate Finishes(m: Whole, c: Config, result: Option<i32>, w: World) {
    exists d: nat :: Goes(m.setup, c, d, Done(result, w))
  }

  predicate GoesPast(m: Whole, c: Config, fuel: nat, d: nat, c': Config) {
    d >= fuel && Goes(m.setup, c, d, c') && c'.At?
  }

  /** The run from `c` follows a statement that ends in outcome `o` and state `st`. If the statement needs more
      than `fuel` loop passes, then the run needs at least as many blocks. */
  ghost predicate Ends(m: Whole, g: Gen, loops: seq<(nat, nat)>, fuel: nat, o: Ast.Outcome, st: Ast.State, c: Config) {
    match o
    case Normal => Open(g) && exists d: nat, fr: Frame :: StandsAt(m, c, d, g, fr, st)
    case Broke => loops != [] && Reaches(m, c, loops[|loops| - 1].1, st)
    case Continued => loops != [] && Reaches(m, c, loops[|loops| - 1].0, st)
    case Returned(v) => Finishes(m, c, v, st.world)
    case Timeout => exists d: nat, c': Config :: GoesPast(m, c, fuel, d, c')
  }

  lemma EndsAfter(m: Whole, g: Gen, loops: seq<(nat, nat)>, fuel: nat, o: Ast.Outcome, st: Ast.State,
                  c0: Config, d0: nat, c: Config)
    requires hide *; Goes(m.setup, c0, d0, c) && Ends(m, g, loops, fuel, o, st, c)
    ensures Ends(m, g, loops, fuel + if o.Timeout? then d0 else 0, o, st, c0)
  {
    hide Extends, Here, RunBlock, Steps, Match;
    match o
    case Normal =>
      var d: nat, fr: Frame :| StandsAt(m, c, d, g, fr, st);
      GoesOn(m.setup, c0, d0, c, d, Here(m, g, fr));
      assert StandsAt(m, c0, d0 + d, g, fr, st);
    case Broke =>
      var d: nat, prev: nat, fr: Frame :| ArrivesAt(m, c, d, loops[|loops| - 1].1, prev, fr, st);
      GoesOn(m.setup, c0, d0, c, d, At(prev, loops[|loops| - 1].1, fr));
      assert ArrivesAt(m, c0, d0 + d, loops[|loops| - 1].1, prev, fr, st);
    case Continued =>
      var d: nat, prev: nat, fr: Frame :| ArrivesAt(m, c, d, loops[|loops| - 1].0, prev, fr, st);
      GoesOn(m.setup, c0, d0, c, d, At(prev, loops[|loops| - 1].0, fr));
      assert ArrivesAt(m, c0, d0 + d, loops[|loops| - 1].0, prev, fr, st);
    case Returned(v) =>
      var d: nat :| Goes(m.setup, c, d, Done(v, st.world));
      GoesOn(m.setup, c0, d0, c, d, Done(v, st.world));
    case Timeout =>
      var d: nat, c': Config :| GoesPast(m, c, fuel, d, c');
      GoesOn(m.setup, c0, d0, c, d, c');
      assert GoesPast(m, c0, fuel + d0, d0 + d, c');
  }

  lemma EndsSooner(m: Whole, g: Gen, loops: seq<(nat, nat)>, fuel: nat, more: nat, o: Ast.Outcome, st: Ast.State,
                   c: Config)
    requires hide *; Ends(m, g, loops, fuel + more, o, st, c)
    ensures Ends(m, g, loops, fuel, o, st, c)
  {
    hide Reaches, Run, StandsAt, Steps;
    if o.Timeout? {
      var d: nat, c': Config :| GoesPast(m, c, fuel + more, d, c');
      assert GoesPast(m, c, fuel, d, c');
    }
  }

  /** How a statement ends does not depend on where generation goes on, except when it ends normally. */
  lemma EndsElsewhere(m: Whole, g: Gen, g': Gen, loops: seq<(nat, nat)>, fuel: nat, o: Ast.Outcome, st: Ast.State,
                      c: Config)
    requires Ends(m, g, loops, fuel, o, st, c) && !o.Normal?
    ensures Ends(m, g', loops, fuel, o, st, c)
  {
    hide Goes, Reaches, StandsAt, Steps;
  }

  // ----- compiled statements -----

  ghost predicate StmtRuns(m: Whole, g: Gen, s: Ast.Stmt, g': Gen, fuel: nat, fr: Frame, st: Ast.State) {
    && Extends(m, g) && g.here < |g.blocks|
    && Ends(m, g', g.loops, fuel, Ast.Exec(s, fuel, m.consts, m.setup.callees, st).0,
            Ast.Exec(s, fuel, m.consts, m.setup.callees, st).1, Here(m, g, fr))
  }

  ghost predicate NewNames(g: Gen, g': Gen, ids: set<nat>) {
    forall id: nat :: Ast.Variable(id) in g'.symbols ==> Ast.Variable(id) in g.symbols || id in ids
  }

  ghost predicate StmtShape(g: Gen, s: Ast.Stmt, g': Gen, consts: Ast.Consts) {
    && Grows(g, g') && Moved(g, g') && Valid(g', consts) && g'.loops == g.loops
    && (Open(g') <==> !Closes(s)) && NewNames(g, g', Declares(s))
  }

  ghost predicate StmtCompiled(g: Gen, s: Ast.Stmt, g': Gen, consts: Ast.Consts) {
    && StmtShape(g, s, g', consts)
    && forall m: Whole, fuel: nat, fr: Frame, st: Ast.State ::
         !g'.failed && Extends(m, g') && m.consts == consts && Match(m, fr, st) ==> StmtRuns(m, g, s, g', fuel, fr, st)
  }

  lemma StmtFacts(g: Gen, s: Ast.Stmt, g': Gen, consts: Ast.Consts)
    requires StmtCompiled(g, s, g', consts)
    ensures StmtShape(g, s, g', consts) && Grows(g, g') && Moved(g, g') && Valid(g', consts) && g'.loops == g.loops
    ensures Open(g') <==> !Closes(s)
    ensures (g.failed ==> g'.failed) && NewNames(g, g', Declares(s))
  {
    hide Extends, StmtRuns;
  }

  lemma StmtEnds(m: Whole, g: Gen, s: Ast.Stmt, g': Gen, fuel: nat, fr: Frame, st: Ast.State)
    requires hide *; StmtCompiled(g, s, g', m.consts) && !g'.failed && Extends(m, g') && Match(m, fr, st)
    ensures Extends(m, g) && g.here < |g.blocks|
    ensures Ends(m, g', g.loops, fuel, Ast.Exec(s, fuel, m.consts, m.setup.callees, st).0,
                 Ast.Exec(s, fuel, m.consts, m.setup.callees, st).1, Here(m, g, fr))
  {
    hide Ast.Exec, Ends, Extends, Here, Steps, StmtShape, Match;
    assert StmtRuns(m, g, s, g', fuel, fr, st);
  }

  lemma FailedStmt(g: Gen, s: Ast.Stmt, g': Gen, consts: Ast.Consts)
    requires StmtShape(g, s, g', consts) && g'.failed
    ensures StmtCompiled(g, s, g', consts)
  {
    hide Extends, Grows, StmtRuns, Valid;
  }

  lemma StandsHere(m: Whole, g: Gen, fr: Frame, st: Ast.State)
    requires hide *; Extends(m, g) && g.here < |g.blocks| && Match(m, fr, st)
    ensures StandsAt(m, Here(m, g, fr), 0, g, fr, st)
  {
    hide Carries, Here, Match, RunBlock, Steps, Table;
  }

  /** A statement without code. */
  lemma NothingCompiled(g: Gen, s: Ast.Stmt, consts: Ast.Consts)
    requires hide *; Valid(g, consts) && Open(g) && (s.Empty? || s.ConstDecl? || s == Ast.Block([]))
    ensures s.ConstDecl? && s.id in consts ==>
              StmtCompiled(g, s, g.(symbols := g.symbols[Ast.Constant(s.id) := Value(consts[s.id])]), consts)
    ensures StmtCompiled(g, s, g, consts)
  {
    hide Ast.Eval, Goes, Here, Steps;
    forall g': Gen | g' == g || (s.ConstDecl? && s.id in consts
                     && g' == g.(symbols := g.symbols[Ast.Constant(s.id) := Value(consts[s.id])]))
      ensures StmtCompiled(g, s, g', consts)
    {
      NothingShape(g, s, g', consts);
      hide Valid, Bound;
      forall m: Whole, fuel: nat, fr: Frame, st: Ast.State |
        !g'.failed && Extends(m, g') && m.consts == consts && Match(m, fr, st)
        ensures StmtRuns(m, g, s, g', fuel, fr, st)
      {
        ExtendsBack(m, g, g');
        SameHere(m, g, g', fr);
        StandsHere(m, g', fr, st);
        assert Ast.Exec(s, fuel, consts, m.setup.callees, st) == (Ast.Normal, st);
      }
    }
  }

  lemma NothingShape(g: Gen, s: Ast.Stmt, g': Gen, consts: Ast.Consts)
    requires hide *; Valid(g, consts) && Open(g) && (s.Empty? || s.ConstDecl? || s == Ast.Block([]))
    requires g' == g || (s.ConstDecl? && s.id in consts
                         && g' == g.(symbols := g.symbols[Ast.Constant(s.id) := Value(consts[s.id])]))
    ensures StmtShape(g, s, g', consts)
  {
    assert s.ConstDecl? && Ast.Constant(s.id) in g.symbols ==>
        Bound(Ast.Constant(s.id), g.symbols[Ast.Constant(s.id)], consts);
  }

  lemma StandsNormally(m: Whole, g: Gen, s: Ast.Stmt, g': Gen, fuel: nat, fr: Frame, st: Ast.State,
                       d: nat, fr': Frame, st': Ast.State)
    requires hide *; Extends(m, g) && g.here < |g.blocks| && Open(g') && StandsAt(m, Here(m, g, fr), d, g', fr', st')
    requires Ast.Exec(s, fuel, m.consts, m.setup.callees, st) == (Ast.Normal, st')
    ensures StmtRuns(m, g, s, g', fuel, fr, st)
  {
    hide Ast.Exec, Extends, Goes, Here, Steps, StandsAt;
  }

  /** An expression for its effects. */
  lemma EffectCompiled(g: Gen, e: Ast.Expr, g': Gen, v: Operand, consts: Ast.Consts)
    requires ExprCompiled(g, e, g', v, consts)
    ensures StmtCompiled(g, Ast.ExprStmt(e), g', consts)
  {
    CompiledShape(g, e, g', v, consts);
    assert StmtShape(g, Ast.ExprStmt(e), g', consts);
    forall m: Whole, fuel: nat, fr: Frame, st: Ast.State |
      !g'.failed && Extends(m, g') && m.consts == consts && Match(m, fr, st)
      ensures StmtRuns(m, g, Ast.ExprStmt(e), g', fuel, fr, st)
    {
      hide *;
      var d, fr' := CompiledRuns(m, g, e, g', v, fr, st);
      ArrivedStands(m, g, g', fr, d, fr', Ast.Eval(e, consts, m.setup.callees, st).1);
      EffectMeaning(m, e, fuel, st);
      StandsNormally(m, g, Ast.ExprStmt(e), g', fuel, fr, st, d, fr', Ast.Eval(e, consts, m.setup.callees, st).1);
    }
  }

  lemma EffectMeaning(m: Whole, e: Ast.Expr, fuel: nat, st: Ast.State)
    ensures Ast.Exec(Ast.ExprStmt(e), fuel, m.consts, m.setup.callees, st)
         == (Ast.Normal, Ast.Eval(e, m.consts, m.setup.callees, st).1)
  {
    hide Ast.Eval, Ast.ExecAll, Ast.Put;
  }

  lemma ArrivedStands(m: Whole, g: Gen, g': Gen, fr: Frame, d: nat, fr': Frame, st': Ast.State)
    requires hide *; Arrives(m, g, g', fr, d, fr', st')
    ensures Extends(m, g) && g.here < |g.blocks| && StandsAt(m, Here(m, g, fr), d, g', fr', st')
  {
    hide Goes, Point, Steps, Table;
  }

  // ----- assignments -----

  /** Storing into a variable or a global. */
  lemma StoreRuns(m: Whole, g: Gen, d: Ast.Decl, v: Operand, fr: Frame, st: Ast.State) returns (fr': Frame)
    requires hide Extends, Here, StandsAt, Steps, Table;
             Open(g) && Valid(g, m.consts) && d in g.symbols && !g.symbols[d].Value?
    requires Extends(m, Emit(g, Store(AddressOf(g.symbols[d]), v))) && Match(m, fr, st)
    ensures Extends(m, g)
    ensures StandsAt(m, Here(m, g, fr), 0, Emit(g, Store(AddressOf(g.symbols[d]), v)), fr',
                     Ast.Put(d, Eval(v, m.setup.params, fr.regs), st))
  {
    hide Binop, Grows, Point, RunBlock, Table, Unop;
    var i := Store(AddressOf(g.symbols[d]), v);
    fr' := Step(i, m.setup.params, m.setup.callees, fr);
    EmitRuns(m, g, i, Emit(g, i), fr, m.consts);
    StoreMatches(m, g, d, v, fr, st);
    EmitGrows(g, i, m.consts);
  }

  lemma StoreMatches(m: Whole, g: Gen, d: Ast.Decl, v: Operand, fr: Frame, st: Ast.State)
    requires hide *;
             Valid(g, m.consts) && d in g.symbols && !g.symbols[d].Value? && TableGrows(g.symbols, g.next, m.symbols)
    requires Table(m.symbols, m.consts) && Match(m, fr, st)
    ensures Match(m, Step(Store(AddressOf(g.symbols[d]), v), m.setup.params, m.setup.callees, fr),
                  Ast.Put(d, Eval(v, m.setup.params, fr.regs), st))
  {
    hide Binop, Unop;
    assert Bound(d, g.symbols[d], m.consts);
  }

  /** The statements that end in a store: assignments and declarations. */
  lemma StoredCompiled(g0: Gen, s: Ast.Stmt, d: Ast.Decl, e: Ast.Expr, g: Gen, g1: Gen, v: Operand, consts: Ast.Consts)
    requires hide ExprCompiled, StmtCompiled, Valid; (s.Assign? && s.target == d && s.value == e && g == g0)
          || (s.VarDecl? && s == Ast.VarDecl(s.id, e, s.again) && d == Ast.Variable(s.id) && d !in g0.symbols
              && |g0.blocks| > 0 && g == Declare(g0, s.id))
    requires Valid(g0, consts) && Open(g0)
    requires ExprCompiled(g, e, g1, v, consts) && d in g1.symbols && !g1.symbols[d].Value? && Open(g1)
    ensures StmtCompiled(g0, s, Emit(g1, Store(AddressOf(g1.symbols[d]), v)), consts)
  {
    var i := Store(AddressOf(g1.symbols[d]), v);
    StoredShape(g0, s, d, e, g, g1, v, consts);
    forall m: Whole, fuel: nat, fr: Frame, st: Ast.State |
      !Emit(g1, i).failed && Extends(m, Emit(g1, i)) && m.consts == consts && Match(m, fr, st)
      ensures StmtRuns(m, g0, s, Emit(g1, i), fuel, fr, st)
    {
      hide *;
      ExtendsBack(m, g1, Emit(g1, i));
      var d1, fr1 := CompiledRuns(m, g, e, g1, v, fr, st);
      var st1 := Ast.Eval(e, consts, m.setup.callees, st).1;
      var fr2 := StoreRuns(m, g1, d, v, fr1, st1);
      ExtendsBack(m, g0, g);
      SameHere(m, g0, g, fr);
      StoredArrives(m, g, g1, Emit(g1, i), fr, d1, fr1, st1, fr2,
                    Ast.Put(d, Ast.Eval(e, consts, m.setup.callees, st).0, st1));
      StoredMeaning(m, s, d, e, fuel, st);
      StandsNormally(m, g0, s, Emit(g1, i), fuel, fr, st, d1, fr2,
                     Ast.Put(d, Ast.Eval(e, consts, m.setup.callees, st).0, st1));
    }
  }

  lemma StoredShape(g0: Gen, s: Ast.Stmt, d: Ast.Decl, e: Ast.Expr, g: Gen, g1: Gen, v: Operand, consts: Ast.Consts)
    requires hide ExprCompiled, Grows, StmtShape, Valid; (s.Assign? && s.target == d && s.value == e && g == g0)
          || (s.VarDecl? && s == Ast.VarDecl(s.id, e, s.again) && d == Ast.Variable(s.id) && d !in g0.symbols
              && |g0.blocks| > 0 && g == Declare(g0, s.id))
    requires Valid(g0, consts) && Open(g0)
    requires ExprCompiled(g, e, g1, v, consts) && d in g1.symbols && !g1.symbols[d].Value? && Open(g1)
    ensures var g2 := Emit(g1, Store(AddressOf(g1.symbols[d]), v));
            StmtShape(g0, s, g2, consts) && Open(g2) && Grows(g1, g2) && g2.failed == g1.failed
    ensures Grows(g0, g) && g.here == g0.here < |g0.blocks| <= |g.blocks|
            && DraftSame(g0.blocks[g0.here], g.blocks[g0.here])
    ensures Valid(g1, consts)
  {
    hide Declare, ExprRuns, Extends;
    var i := Store(AddressOf(g1.symbols[d]), v);
    var g2 := Emit(g1, i);
    StoreStarts(g0, s, d, e, g, consts);
    hide Valid, ExprCompiled, Grows, Declare, ExprShape;
    CompiledShape(g, e, g1, v, consts);
    ShapeFacts(g, g1, consts);
    EmitGrows(g1, i, consts);
    GrowsOn(g0, g, g1);
    GrowsOn(g0, g1, g2);
  }

  lemma StoreStarts(g0: Gen, s: Ast.Stmt, d: Ast.Decl, e: Ast.Expr, g: Gen, consts: Ast.Consts)
    requires (s.Assign? && s.target == d && s.value == e && g == g0)
          || (s.VarDecl? && s == Ast.VarDecl(s.id, e, s.again) && d == Ast.Variable(s.id) && d !in g0.symbols
              && |g0.blocks| > 0 && g == Declare(g0, s.id))
    requires Valid(g0, consts) && Open(g0)
    ensures Grows(g0, g) && g.here == g0.here < |g0.blocks| == |g.blocks|
            && DraftSame(g0.blocks[g0.here], g.blocks[g0.here])
    ensures NewNames(g0, g, Declares(s)) && !Closes(s) && g.loops == g0.loops
  {
    hide DeclaresAll, Plain, Table, WithAlloca;
    if s.VarDecl? {
      DeclareGrows(g0, s.id, consts);
    }
  }

  lemma StoredMeaning(m: Whole, s: Ast.Stmt, d: Ast.Decl, e: Ast.Expr, fuel: nat, st: Ast.State)
    requires hide *; (s.Assign? && s.target == d && s.value == e)
             || (s.VarDecl? && s == Ast.VarDecl(s.id, e, s.again) && d == Ast.Variable(s.id))
    ensures var (x, st1) := Ast.Eval(e, m.consts, m.setup.callees, st);
            Ast.Exec(s, fuel, m.consts, m.setup.callees, st) == (Ast.Normal, Ast.Put(d, x, st1))
  {
    hide Ast.Eval, Ast.ExecAll, Ast.Put;
  }

  lemma StoredArrives(m: Whole, g: Gen, g1: Gen, g2: Gen, fr: Frame, d: nat, fr1: Frame, st1: Ast.State,
                      fr2: Frame, st2: Ast.State)
    requires hide Extends, Goes, Here, Steps;
             Arrives(m, g, g1, fr, d, fr1, st1) && StandsAt(m, Here(m, g1, fr1), 0, g2, fr2, st2)
    ensures Extends(m, g) && g.here < |g.blocks| && StandsAt(m, Here(m, g, fr), d, g2, fr2, st2)
  {
    hide Point, RunBlock, Steps, Table;
    GoesOn(m.setup, Here(m, g, fr), d, Here(m, g1, fr1), 0, Here(m, g2, fr2));
  }

  // ----- jumps -----

  /** The terminator of a break or a continue. */
  function JumpOf(g: Gen, s: Ast.Stmt): Terminator
    requires g.loops != []
  {
    Br(if s.Break? then g.loops[|g.loops| - 1].1 else g.loops[|g.loops| - 1].0)
  }

  lemma JumpCompiled(g: Gen, s: Ast.Stmt, consts: Ast.Consts)
    requires hide StmtCompiled; Valid(g, consts) && Open(g) && g.loops != [] && (s.Break? || s.Continue?)
    ensures StmtCompiled(g, s, Close(g, JumpOf(g, s)), consts)
  {
    hide Ast.Eval, RunBlock, Steps;
    var g' := Close(g, JumpOf(g, s));
    CloseGrows(g, JumpOf(g, s), consts);
    assert StmtShape(g, s, g', consts);
    forall m: Whole, fuel: nat, fr: Frame, st: Ast.State |
      !g'.failed && Extends(m, g') && m.consts == consts && Match(m, fr, st)
      ensures StmtRuns(m, g, s, g', fuel, fr, st)
    {
      ExtendsBack(m, g, g');
      CloseRuns(m, g, JumpOf(g, s), g', fr);
      hide Match, Extends, Here, Valid, StmtShape, Grows;
      assert Ast.Exec(s, fuel, consts, m.setup.callees, st) == (if s.Break? then Ast.Broke else Ast.Continued, st);
      assert ArrivesAt(m, Here(m, g, fr), 0, JumpOf(g, s).target, g.here, fr, st);
    }
  }

  lemma ReturnCompiled(g: Gen, consts: Ast.Consts)
    requires hide StmtCompiled; Valid(g, consts) && Open(g)
    ensures StmtCompiled(g, Ast.Return(None), Close(g, Ret(None)), consts)
  {
    hide Ast.Eval, RunBlock, Steps;
    var g' := Close(g, Ret(None));
    CloseGrows(g, Ret(None), consts);
    assert StmtShape(g, Ast.Return(None), g', consts);
    forall m: Whole, fuel: nat, fr: Frame, st: Ast.State |
      !g'.failed && Extends(m, g') && m.consts == consts && Match(m, fr, st)
      ensures StmtRuns(m, g, Ast.Return(None), g', fuel, fr, st)
    {
      ExtendsBack(m, g, g');
      CloseRuns(m, g, Ret(None), g', fr);
      assert fr.world == st.world;
      hide Match, Extends, Here, Valid, StmtShape, Grows;
      assert Goes(m.setup, Here(m, g, fr), 0, Done(None, st.world));
    }
  }

  lemma ReturnValueCompiled(g: Gen, e: Ast.Expr, g1: Gen, v: Operand, consts: Ast.Consts)
    requires hide *; ExprCompiled(g, e, g1, v, consts) && g1.here < |g1.blocks|
    ensures StmtCompiled(g, Ast.Return(Some(e)), Close(g1, Ret(Some(v))), consts)
  {
    var g' := Close(g1, Ret(Some(v)));
    CompiledShape(g, e, g1, v, consts);
    CloseGrows(g1, Ret(Some(v)), consts);
    GrowsOn(g, g1, g');
    assert StmtShape(g, Ast.Return(Some(e)), g', consts);
    forall m: Whole, fuel: nat, fr: Frame, st: Ast.State |
      !g'.failed && Extends(m, g') && m.consts == consts && Match(m, fr, st)
      ensures StmtRuns(m, g, Ast.Return(Some(e)), g', fuel, fr, st)
    {
      hide *;
      ExtendsBack(m, g1, g');
      CloseFailed(g1, Ret(Some(v)));
      var d, fr1 := CompiledRuns(m, g, e, g1, v, fr, st);
      ReturnArrives(m, g, e, g1, v, fuel, fr, st, d, fr1);
    }
  }

  lemma CloseFailed(g: Gen, t: Terminator)
    requires g.here < |g.blocks|
    ensures Close(g, t).failed == g.failed
  {
  }

  lemma ReturnArrives(m: Whole, g: Gen, e: Ast.Expr, g1: Gen, v: Operand, fuel: nat, fr: Frame, st: Ast.State,
                      d: nat, fr1: Frame)
    requires hide Arrives, Ast.Eval, Extends, StmtRuns; Open(g1) && Extends(m, Close(g1, Ret(Some(v))))
    requires Arrives(m, g, g1, fr, d, fr1, Ast.Eval(e, m.consts, m.setup.callees, st).1)
    requires Eval(v, m.setup.params, fr1.regs) == Ast.Eval(e, m.consts, m.setup.callees, st).0
    ensures StmtRuns(m, g, Ast.Return(Some(e)), Close(g1, Ret(Some(v))), fuel, fr, st)
  {
    hide Ast.Eval, Ast.Exec, Goes, Steps;
    var (x, st1) := Ast.Eval(e, m.consts, m.setup.callees, st);
    ReturnMeans(e, fuel, m.consts, m.setup.callees, st);
    assert fr1.world == st1.world;
    hide Extends, Here, Match, Ast.Eval, Ast.Exec, Close, Open, Keeps;
    CloseRuns(m, g1, Ret(Some(v)), Close(g1, Ret(Some(v))), fr1);
    assert Goes(m.setup, Here(m, g, fr), d, Done(Some(x), fr1.world));
  }

  lemma ReturnMeans(e: Ast.Expr, fuel: nat, consts: Ast.Consts, callees: Callees, st: Ast.State)
    ensures var (x, st1) := Ast.Eval(e, consts, callees, st);
            Ast.Exec(Ast.Return(Some(e)), fuel, consts, callees, st) == (Ast.Returned(Some(x)), st1)
  {
    hide Ast.Eval, Ast.ExecAll, Ast.Put;
  }

  // ----- blocks -----

  lemma BlockMeaning(m: Whole, body: seq<Ast.Stmt>, i: nat, fuel: nat, st: Ast.State)
    requires hide *; i < |body|
    ensures var (o, st1) := Ast.Exec(Ast.Block(body[..i]), fuel, m.consts, m.setup.callees, st);
            Ast.Exec(Ast.Block(body[..i + 1]), fuel, m.consts, m.setup.callees, st)
            == if o.Normal? then Ast.Exec(body[i], fuel, m.consts, m.setup.callees, st1) else (o, st1)
  {
    hide Ast.Eval, Ast.Put;
    assert body[..i + 1][..i] == body[..i];
  }

  /** One more statement of a block. */
  lemma NextRuns(m: Whole, g: Gen, body: seq<Ast.Stmt>, i: nat, g1: Gen, g2: Gen, fuel: nat, fr: Frame, st: Ast.State)
    requires hide *; i < |body| && StmtCompiled(g, Ast.Block(body[..i]), g1, m.consts)
             && StmtCompiled(g1, body[i], g2, m.consts)
    requires g1.loops == g.loops && !g2.failed && !g1.failed && Extends(m, g2) && Extends(m, g1) && Match(m, fr, st)
    ensures StmtRuns(m, g, Ast.Block(body[..i + 1]), g2, fuel, fr, st)
  {
    hide StmtCompiled, Extends, Match, Here, Ast.Exec, Ends, Goes;
    StmtEnds(m, g, Ast.Block(body[..i]), g1, fuel, fr, st);
    BlockMeaning(m, body, i, fuel, st);
    var o, st1 := Ast.Exec(Ast.Block(body[..i]), fuel, m.consts, m.setup.callees, st).0,
      Ast.Exec(Ast.Block(body[..i]), fuel, m.consts, m.setup.callees, st).1;
    if o.Normal? {
      var d, fr1 := EndsNormally(m, g1, g.loops, fuel, st1, Here(m, g, fr));
      StmtEnds(m, g1, body[i], g2, fuel, fr1, st1);
      EndsFrom(m, g2, g.loops, fuel, fuel, Ast.Exec(body[i], fuel, m.consts, m.setup.callees, st1).0,
               Ast.Exec(body[i], fuel, m.consts, m.setup.callees, st1).1, Here(m, g, fr), d, Here(m, g1, fr1));
    } else {
      EndsElsewhere(m, g1, g2, g.loops, fuel, o, st1, Here(m, g, fr));
    }
  }

  lemma EndsNormally(m: Whole, g: Gen, loops: seq<(nat, nat)>, fuel: nat, st: Ast.State, c: Config) returns (d: nat,
      fr: Frame)
    requires hide *; Ends(m, g, loops, fuel, Ast.Normal, st, c)
    ensures Extends(m, g) && g.here < |g.blocks| && Goes(m.setup, c, d, Here(m, g, fr)) && Match(m, fr, st)
  {
    hide Extends, Match, Here, Goes;
    d, fr :| StandsAt(m, c, d, g, fr, st);
  }

  lemma NextCompiled(g: Gen, body: seq<Ast.Stmt>, i: nat, g1: Gen, g2: Gen, consts: Ast.Consts)
    requires hide *;
             i < |body| && StmtCompiled(g, Ast.Block(body[..i]), g1, consts) && StmtCompiled(g1, body[i], g2, consts)
    requires !Closes(Ast.Block(body[..i]))
    ensures StmtCompiled(g, Ast.Block(body[..i + 1]), g2, consts)
  {
    StmtFacts(g, Ast.Block(body[..i]), g1, consts);
    StmtFacts(g1, body[i], g2, consts);
    NextShape(g, body, i, g1, g2, consts);
    var upTo := Ast.Block(body[..i + 1]);
    forall m: Whole, fuel: nat, fr: Frame, st: Ast.State |
      !g2.failed && Extends(m, g2) && m.consts == consts && Match(m, fr, st)
      ensures StmtRuns(m, g, upTo, g2, fuel, fr, st)
    {
      hide *;
      ExtendsBack(m, g1, g2);
      NextRuns(m, g, body, i, g1, g2, fuel, fr, st);
    }
  }

  lemma NextShape(g: Gen, body: seq<Ast.Stmt>, i: nat, g1: Gen, g2: Gen, consts: Ast.Consts)
    requires hide *; i < |body| && StmtShape(g, Ast.Block(body[..i]), g1, consts) && StmtShape(g1, body[i], g2, consts)
    requires !Closes(Ast.Block(body[..i]))
    ensures StmtShape(g, Ast.Block(body[..i + 1]), g2, consts)
  {
    hide Closes, Grows, Valid;
    var upTo := body[..i + 1];
    assert upTo[..i] == body[..i];
    assert Declares(Ast.Block(upTo)) == DeclaresAll(body[..i]) + Declares(body[i]);
    GrowsOn(g, g1, g2);
    ClosesMore(body, i);
  }

  lemma ClosesMore(body: seq<Ast.Stmt>, i: nat)
    requires i < |body|
    ensures Closes(Ast.Block(body[..i + 1])) <==> Closes(Ast.Block(body[..i])) || Closes(body[i])
  {
    var upTo := body[..i + 1];
    assert upTo == body[..i] + [body[i]];
    if Closes(Ast.Block(body[..i])) {
      var j :| 0 <= j < i && Closes(body[..i][j]);
      assert Closes(upTo[j]);
    } else if Closes(body[i]) {
      assert Closes(upTo[i]);
    }
  }

  lemma {:induction false} ClosedStays(m: Whole, body: seq<Ast.Stmt>, i: nat, j: nat, fuel: nat, st: Ast.State)
    requires hide *; i <= j <= |body| && !Ast.Exec(Ast.Block(body[..i]), fuel, m.consts, m.setup.callees, st).0.Normal?
    ensures Ast.Exec(Ast.Block(body[..j]), fuel, m.consts, m.setup.callees, st)
         == Ast.Exec(Ast.Block(body[..i]), fuel, m.consts, m.setup.callees, st)
  {
    hide Ast.Eval, Ast.ExecAll, Ast.Put;
    if i < j {
      ClosedStays(m, body, i, j - 1, fuel, st);
      BlockMeaning(m, body, j - 1, fuel, st);
    }
  }

  lemma {:induction false} DeclaresMore(body: seq<Ast.Stmt>, i: nat)
    requires i <= |body|
    ensures DeclaresAll(body[..i]) <= DeclaresAll(body)
  {
    if i < |body| {
      assert body[..|body| - 1][..i] == body[..i];
      DeclaresMore(body[..|body| - 1], i);
    } else {
      assert body[..i] == body;
    }
  }

  /** What follows a closing statement is not generated, and not executed. */
  lemma RestDead(g: Gen, body: seq<Ast.Stmt>, i: nat, g1: Gen, consts: Ast.Consts)
    requires hide *; i <= |body| && StmtCompiled(g, Ast.Block(body[..i]), g1, consts)
    requires i == |body| || Closes(Ast.Block(body[..i]))
    ensures StmtCompiled(g, Ast.Block(body), g1, consts)
  {
    hide Extends, Grows, StmtRuns, Valid;
    if i == |body| {
      assert body[..i] == body;
    } else {
      StmtFacts(g, Ast.Block(body[..i]), g1, consts);
      assert Closes(Ast.Block(body)) by {
        var j :| 0 <= j < i && Closes(body[..i][j]);
        assert Closes(body[j]);
      }
      DeclaresMore(body, i);
      hide DeclaresAll;
      assert StmtShape(g, Ast.Block(body), g1, consts);
      forall m: Whole, fuel: nat, fr: Frame, st: Ast.State |
        !g1.failed && Extends(m, g1) && m.consts == consts && Match(m, fr, st)
        ensures StmtRuns(m, g, Ast.Block(body), g1, fuel, fr, st)
      {
        RestDeadRuns(m, g, body, i, g1, fuel, fr, st);
      }
    }
  }

  lemma RestDeadRuns(m: Whole, g: Gen, body: seq<Ast.Stmt>, i: nat, g1: Gen, fuel: nat, fr: Frame, st: Ast.State)
    requires hide *; i <= |body| && StmtCompiled(g, Ast.Block(body[..i]), g1, m.consts) && !Open(g1)
    requires !g1.failed && Extends(m, g1) && Match(m, fr, st)
    ensures StmtRuns(m, g, Ast.Block(body), g1, fuel, fr, st)
  {
    hide Ast.Exec, Extends, Goes, Grows, Here, Steps, Valid;
    StmtEnds(m, g, Ast.Block(body[..i]), g1, fuel, fr, st);
    hide StmtCompiled, Match, Extends, Here, Reaches, Finishes, Ast.Exec;
    ClosedStays(m, body, i, |body|, fuel, st);
    assert body[..|body|] == body;
  }

  // ----- if -----

  /** Branches on `c` to one of two blocks, and goes on in the first. */
  function Branch(g: Gen, c: Operand): Gen
    requires g.here < |g.blocks|
  {
    Jump(NewBlock(NewBlock(g)), CondBr(c, |g.blocks|, |g.blocks| + 1), |g.blocks|)
  }

  lemma BranchGrows(g: Gen, c: Operand, consts: Ast.Consts)
    requires hide Blank, Branch, Grows, Table; Open(g) && Valid(g, consts)
    ensures var g' := Branch(g, c);
            && Grows(g, g') && Moved(g, g') && Valid(g', consts) && Open(g') && g'.here == |g.blocks|
            && g'.next == g.next && g'.symbols == g.symbols && g'.loops == g.loops && g'.failed == g.failed
            && Blank(g', |g.blocks|) && Blank(g', |g.blocks| + 1) && |g'.blocks| == |g.blocks| + 2
  {
    assert Plain([]) == [];
  }

  /** The current block of `g` is ended by `t` in the later state `g'`. */
  predicate EndedBy(g: Gen, g': Gen, t: Terminator) {
    && g.here < |g.blocks| <= |g'.blocks| && Plain(g'.blocks[g.here].insts) == Plain(g.blocks[g.here].insts)
    && g'.blocks[g.here].term == Some(t)
  }

  lemma EndedRuns(m: Whole, g: Gen, g': Gen, t: Terminator, fr: Frame)
    requires hide Extends, Here, Leave; EndedBy(g, g', t) && Extends(m, g) && Extends(m, g')
    ensures Here(m, g, fr) == Leave(t, g.here, m.setup.params, fr)
  {
    hide Eval, Point, Table, TableGrows;
    assert Carries(m.setup.f, g.here, g'.blocks[g.here]);
    PointEnd(m.setup, g.here, fr);
  }

  /** After a statement that ends in state `g`, generation goes on in block `b` of state `g'`. */
  ghost predicate GoesOnIn(g: Gen, g': Gen, b: nat) {
    Open(g) ==> g'.here == b && Blank(g', b) && EndedBy(g, g', Br(b))
  }

  lemma EndsJoined(m: Whole, g: Gen, g': Gen, b: nat, loops: seq<(nat, nat)>, fuel: nat, o: Ast.Outcome,
                   st: Ast.State, c: Config)
    requires Ends(m, g, loops, fuel, o, st, c) && GoesOnIn(g, g', b) && Extends(m, g')
    ensures Ends(m, g', loops, fuel, o, st, c)
  {
    hide Extends, Goes, Here, Steps, EndedBy, Blank, Match, Reaches, Finishes;
    if o.Normal? {
      var d: nat, fr: Frame :| StandsAt(m, c, d, g, fr, st);
      EndedRuns(m, g, g', Br(b), fr);
      StartBlank(m, g', g.here, fr);
      BlankIsOpen(g', b);
      GoesOn(m.setup, c, d, Here(m, g, fr), 1, Here(m, g', fr));
      assert StandsAt(m, c, d + 1, g', fr, st);
    }
  }

  lemma BlankIsThere(g: Gen, b: nat)
    requires Blank(g, b)
    ensures b < |g.blocks|
  {
  }

  lemma BlankIsOpen(g: Gen, b: nat)
    requires Blank(g, b) && g.here == b
    ensures Open(g)
  {
  }

  /** The code of a branch, entered along an edge. */
  lemma BranchEnds(m: Whole, g: Gen, s: Ast.Stmt, g1: Gen, g': Gen, b: nat, prev: nat, fuel: nat, fr: Frame,
                   st: Ast.State)
    requires StmtCompiled(g, s, g1, m.consts) && !g1.failed && Extends(m, g1) && Match(m, fr, st)
    requires Blank(g, g.here) && GoesOnIn(g1, g', b) && Extends(m, g')
    ensures Ends(m, g', g.loops, fuel, Ast.Exec(s, fuel, m.consts, m.setup.callees, st).0,
                 Ast.Exec(s, fuel, m.consts, m.setup.callees, st).1, At(prev, g.here, fr))
  {
    hide *;
    var o, st1 := Ast.Exec(s, fuel, m.consts, m.setup.callees, st).0,
      Ast.Exec(s, fuel, m.consts, m.setup.callees, st).1;
    StmtEnds(m, g, s, g1, fuel, fr, st);
    EndsJoined(m, g1, g', b, g.loops, fuel, o, st1, Here(m, g, fr));
    StartBlank(m, g, prev, fr);
    EndsAfter(m, g', g.loops, fuel, o, st1, At(prev, g.here, fr), 1, Here(m, g, fr));
    EndsSooner(m, g', g.loops, fuel, if o.Timeout? then 1 else 0, o, st1, At(prev, g.here, fr));
  }

  /** The condition and the branch. */
  lemma ConditionRuns(m: Whole, g: Gen, c: Ast.Expr, g1: Gen, v: Operand, fr: Frame, st: Ast.State)
    returns (d: nat, fr1: Frame)
    requires hide Ast.Eval, ExprCompiled, Extends, Goes, Steps;
             ExprCompiled(g, c, g1, v, m.consts) && !g1.failed && g1.here < |g1.blocks| && Match(m, fr, st)
    requires Extends(m, g1) && Extends(m, Branch(g1, v))
    ensures Extends(m, g) && g.here < |g.blocks|
    ensures Goes(m.setup, Here(m, g, fr), d,
                 At(g1.here, if Ast.Eval(c, m.consts, m.setup.callees, st).0 != 0 then |g1.blocks|
                               else |g1.blocks| + 1, fr1))
    ensures Match(m, fr1, Ast.Eval(c, m.consts, m.setup.callees, st).1)
  {
    hide Ast.Eval, ExprCompiled, Extends, Here, Run, Steps, Match;
    d, fr1 := CompiledRuns(m, g, c, g1, v, fr, st);
    EndedRuns(m, g1, Branch(g1, v), CondBr(v, |g1.blocks|, |g1.blocks| + 1), fr1);
  }

  /** Ends the current block with a branch to `target` if it is open, and goes on in block `b`. */
  function Rejoin(g: Gen, target: nat, b: nat): Gen
    requires g.here < |g.blocks|
  {
    (if Open(g) then Close(g, Br(target)) else g).(here := b)
  }

  lemma RejoinGrows(g: Gen, target: nat, b: nat, consts: Ast.Consts)
    requires hide Blank, EndedBy, Grows, Rejoin, Table; Valid(g, consts) && Blank(g, b) && b != g.here
    ensures var g' := Rejoin(g, target, b);
            && Grows(g, g') && Valid(g', consts) && Open(g') && g'.here == b && Blank(g', b)
            && (Open(g) ==> EndedBy(g, g', Br(target)))
            && g'.next == g.next && g'.symbols == g.symbols && g'.loops == g.loops && g'.failed == g.failed
  {
    hide Plain, Table;
  }

  /** The states passed while `if (c) s1` is generated from `g`: after the condition, and after the branch. */
  ghost predicate IfPassed(g: Gen, c: Ast.Expr, s1: Ast.Stmt, g1: Gen, v: Operand, yes: Gen, consts: Ast.Consts) {
    && ExprCompiled(g, c, g1, v, consts) && g1.here < |g1.blocks| && yes.here < |yes.blocks|
    && StmtCompiled(Branch(g1, v), s1, yes, consts)
  }

  lemma IfFacts(g: Gen, c: Ast.Expr, s1: Ast.Stmt, g1: Gen, v: Operand, yes: Gen, consts: Ast.Consts)
    requires hide *; IfPassed(g, c, s1, g1, v, yes, consts)
    ensures ExprCompiled(g, c, g1, v, consts) && g1.here < |g1.blocks| && yes.here < |yes.blocks|
    ensures StmtCompiled(Branch(g1, v), s1, yes, consts)
  {
    hide ExprCompiled, StmtCompiled;
  }

  /** The condition, the branch, and the code of the first alternative. */
  lemma BranchShape(g: Gen, c: Ast.Expr, s1: Ast.Stmt, g1: Gen, v: Operand, yes: Gen, consts: Ast.Consts)
    requires hide ExprRuns, StmtRuns;
             IfPassed(g, c, s1, g1, v, yes, consts) && g1.here < |g1.blocks| && yes.here < |yes.blocks|
    ensures Grows(g1, Branch(g1, v)) && Grows(Branch(g1, v), yes) && Grows(g, yes) && Moved(g, yes)
    ensures Valid(yes, consts) && yes.loops == g.loops == Branch(g1, v).loops && (g1.failed ==> yes.failed)
    ensures Blank(Branch(g1, v), Branch(g1, v).here) && Branch(g1, v).here == |g1.blocks|
    ensures Blank(yes, |g1.blocks| + 1) && (yes.here == |g1.blocks| || yes.here > |g1.blocks| + 1)
    ensures NewNames(g, yes, Declares(s1)) && (Open(yes) <==> !Closes(s1)) && |g.blocks| <= |g1.blocks|
  {
    hide *;
    IfFacts(g, c, s1, g1, v, yes, consts);
    CompiledShape(g, c, g1, v, consts);
    ShapeFacts(g, g1, consts);
    BranchGrows(g1, v, consts);
    StmtFacts(Branch(g1, v), s1, yes, consts);
    BlankStays(Branch(g1, v), yes, |g1.blocks| + 1);
    GrowsOn(g, g1, Branch(g1, v));
    GrowsOn(g, Branch(g1, v), yes);
    BranchMoved(g1, v, yes);
    NewNamesOn(g, g1, Branch(g1, v), yes, Declares(s1));
    GrowsSize(g, g1);
  }

  lemma GrowsSize(g: Gen, g': Gen)
    requires Grows(g, g')
    ensures |g.blocks| <= |g'.blocks| && (g.failed ==> g'.failed)
  {
  }

  lemma BranchMoved(g1: Gen, v: Operand, yes: Gen)
    requires g1.here < |g1.blocks| && Moved(Branch(g1, v), yes)
    ensures yes.here == |g1.blocks| || yes.here > |g1.blocks| + 1
  {
  }

  lemma NewNamesOn(g: Gen, g1: Gen, g2: Gen, g3: Gen, ids: set<nat>)
    requires g1.symbols == g.symbols && g2.symbols == g1.symbols && NewNames(g2, g3, ids)
    ensures NewNames(g, g3, ids)
  {
  }

  lemma IfShape(g: Gen, c: Ast.Expr, s1: Ast.Stmt, g1: Gen, v: Operand, yes: Gen, consts: Ast.Consts)
    requires hide *; IfPassed(g, c, s1, g1, v, yes, consts) && g1.here < |g1.blocks| && yes.here < |yes.blocks|
    ensures var end := Rejoin(yes, |g1.blocks| + 1, |g1.blocks| + 1);
            && StmtShape(g, Ast.If(c, s1, None), end, consts) && Grows(yes, end) && end.failed == yes.failed
            && Blank(end, end.here) && end.here == |g1.blocks| + 1 && GoesOnIn(yes, end, |g1.blocks| + 1)
  {
    hide *;
    var end := Rejoin(yes, |g1.blocks| + 1, |g1.blocks| + 1);
    BranchShape(g, c, s1, g1, v, yes, consts);
    RejoinGrows(yes, |g1.blocks| + 1, |g1.blocks| + 1, consts);
    GrowsOn(g, yes, end);
    IfNames(g, c, s1, g1, yes, end, consts);
  }

  lemma IfNames(g: Gen, c: Ast.Expr, s1: Ast.Stmt, g1: Gen, yes: Gen, end: Gen, consts: Ast.Consts)
    requires hide *;
             Grows(g, end) && Valid(end, consts) && end.loops == yes.loops == g.loops && end.symbols == yes.symbols
    requires end.here == |g1.blocks| + 1 && |g.blocks| <= |g1.blocks| && Open(end) && Blank(end, |g1.blocks| + 1)
    requires NewNames(g, yes, Declares(s1)) && (Open(yes) ==> EndedBy(yes, end, Br(|g1.blocks| + 1)))
    ensures StmtShape(g, Ast.If(c, s1, None), end, consts) && GoesOnIn(yes, end, |g1.blocks| + 1)
  {
    hide Grows, Valid, Blank, EndedBy;
  }

  lemma IfMeaning(m: Whole, c: Ast.Expr, s1: Ast.Stmt, s2: Option<Ast.Stmt>, fuel: nat, st: Ast.State)
    ensures hide *; var (x, st1) := Ast.Eval(c, m.consts, m.setup.callees, st);
            Ast.Exec(Ast.If(c, s1, s2), fuel, m.consts, m.setup.callees, st)
            == if x != 0 then Ast.Exec(s1, fuel, m.consts, m.setup.callees, st1)
               else if s2.Some? then Ast.Exec(s2.value, fuel, m.consts, m.setup.callees, st1)
               else (Ast.Normal, st1)
  {
    hide Ast.Eval, Ast.ExecAll, Ast.Put;
  }

  lemma EndsRun(m: Whole, g: Gen, s: Ast.Stmt, g': Gen, fuel: nat, fr: Frame, st: Ast.State, d: nat, c: Config)
    requires hide *; Extends(m, g) && g.here < |g.blocks| && Goes(m.setup, Here(m, g, fr), d, c)
    requires Ends(m, g', g.loops, fuel, Ast.Exec(s, fuel, m.consts, m.setup.callees, st).0,
                  Ast.Exec(s, fuel, m.consts, m.setup.callees, st).1, c)
    ensures StmtRuns(m, g, s, g', fuel, fr, st)
  {
    hide Extends, Here, Ast.Exec, Goes, Ends;
    var o, st1 := Ast.Exec(s, fuel, m.consts, m.setup.callees, st).0,
      Ast.Exec(s, fuel, m.consts, m.setup.callees, st).1;
    EndsAfter(m, g', g.loops, fuel, o, st1, Here(m, g, fr), d, c);
    EndsSooner(m, g', g.loops, fuel, if o.Timeout? then d else 0, o, st1, Here(m, g, fr));
  }

  lemma EndsBlank(m: Whole, g: Gen, loops: seq<(nat, nat)>, fuel: nat, prev: nat, fr: Frame, st: Ast.State)
    requires Extends(m, g) && Blank(g, g.here) && Match(m, fr, st)
    ensures Ends(m, g, loops, fuel, Ast.Normal, st, At(prev, g.here, fr))
  {
    hide Extends, Goes, Here, Steps;
    StartBlank(m, g, prev, fr);
    assert StandsAt(m, At(prev, g.here, fr), 1, g, fr, st);
  }

  lemma IfRuns(m: Whole, g: Gen, c: Ast.Expr, s1: Ast.Stmt, g1: Gen, v: Operand, yes: Gen, end: Gen,
               fuel: nat, fr: Frame, st: Ast.State)
    requires hide *; IfPassed(g, c, s1, g1, v, yes, m.consts) && g1.here < |g1.blocks| && yes.here < |yes.blocks|
    requires end == Rejoin(yes, |g1.blocks| + 1, |g1.blocks| + 1)
    requires !end.failed && Extends(m, end) && Match(m, fr, st)
    ensures StmtRuns(m, g, Ast.If(c, s1, None), end, fuel, fr, st)
  {
    hide *;
    IfFacts(g, c, s1, g1, v, yes, m.consts);
    BranchShape(g, c, s1, g1, v, yes, m.consts);
    IfShape(g, c, s1, g1, v, yes, m.consts);
    ExtendsBack(m, yes, end);
    ExtendsBack(m, Branch(g1, v), yes);
    ExtendsBack(m, g1, Branch(g1, v));
    var st1 := Ast.Eval(c, m.consts, m.setup.callees, st).1;
    var d, fr1 := ConditionRuns(m, g, c, g1, v, fr, st);
    IfMeaning(m, c, s1, None, fuel, st);
    if Ast.Eval(c, m.consts, m.setup.callees, st).0 != 0 {
      BranchEnds(m, Branch(g1, v), s1, yes, end, |g1.blocks| + 1, g1.here, fuel, fr1, st1);
      EndsRun(m, g, Ast.If(c, s1, None), end, fuel, fr, st, d, At(g1.here, |g1.blocks|, fr1));
    } else {
      EndsBlank(m, end, g.loops, fuel, g1.here, fr1, st1);
      EndsRun(m, g, Ast.If(c, s1, None), end, fuel, fr, st, d, At(g1.here, |g1.blocks| + 1, fr1));
    }
  }

  lemma IfCompiled(g: Gen, c: Ast.Expr, s1: Ast.Stmt, g1: Gen, v: Operand, yes: Gen, consts: Ast.Consts)
    requires hide *; IfPassed(g, c, s1, g1, v, yes, consts) && g1.here < |g1.blocks| && yes.here < |yes.blocks|
    ensures StmtCompiled(g, Ast.If(c, s1, None), Rejoin(yes, |g1.blocks| + 1, |g1.blocks| + 1), consts)
  {
    var end := Rejoin(yes, |g1.blocks| + 1, |g1.blocks| + 1);
    IfShape(g, c, s1, g1, v, yes, consts);
    forall m: Whole, fuel: nat, fr: Frame, st: Ast.State |
      !end.failed && Extends(m, end) && m.consts == consts && Match(m, fr, st)
      ensures StmtRuns(m, g, Ast.If(c, s1, None), end, fuel, fr, st)
    {
      hide *;
      IfRuns(m, g, c, s1, g1, v, yes, end, fuel, fr, st);
    }
  }

  // ----- if with else -----

  /** Ends the current block of `from`, if it is open there, with a branch to `target`. */
  function EndAt(g: Gen, from: Gen, target: nat): (r: Gen)
    requires from.here < |g.blocks|
    ensures |r.blocks| == |g.blocks|
  {
    if Open(from) then Close(g.(here := from.here), Br(target)) else g.(here := from.here)
  }

  /** The merge of two alternatives, which exists only if one of them goes on. */
  function Merge(yes: Gen, no: Gen): Gen
    requires yes.here < |no.blocks| && no.here < |no.blocks|
  {
    if Open(yes) || Open(no) then
      EndAt(EndAt(NewBlock(no), yes, |no.blocks|), no, |no.blocks|).(here := |no.blocks|)
    else no
  }

  /** Neither alternative touches the last block of the other. */
  ghost predicate Apart(yes: Gen, no: Gen) {
    && yes.here < |yes.blocks| <= |no.blocks| && no.here < |no.blocks| && yes.here != no.here
    && DraftSame(yes.blocks[yes.here], no.blocks[yes.here])
  }

  lemma EndAtGrows(g: Gen, from: Gen, target: nat, consts: Ast.Consts)
    requires hide *; Valid(g, consts) && from.here < |from.blocks| <= |g.blocks|
    requires DraftSame(from.blocks[from.here], g.blocks[from.here])
    ensures var g' := EndAt(g, from, target);
            && Grows(g.(here := from.here), g') && Valid(g', consts) && |g'.blocks| == |g.blocks|
            && g'.here == from.here
            && (Open(from) ==> EndedBy(from, g', Br(target)))
            && (forall b: nat :: b < |g.blocks| && b != from.here ==> g'.blocks[b] == g.blocks[b])
            && g'.next == g.next && g'.symbols == g.symbols && g'.loops == g.loops && g'.failed == g.failed
  {
    hide Plain, Table;
  }

  lemma MergeShape(yes: Gen, no: Gen, consts: Ast.Consts)
    requires hide DraftSame, GoesOnIn, Merge, Table; Apart(yes, no) && Valid(no, consts)
    ensures var end := Merge(yes, no);
            && Valid(end, consts) && (Open(end) <==> Open(yes) || Open(no)) && end.loops == no.loops
            && end.symbols == no.symbols && end.next == no.next && end.failed == no.failed
            && GoesOnIn(yes, end, |no.blocks|) && GoesOnIn(no, end, |no.blocks|)
  {
    if Open(yes) || Open(no) {
      assert Plain([]) == [];
      EndAtGrows(NewBlock(no), yes, |no.blocks|, consts);
      EndAtGrows(EndAt(NewBlock(no), yes, |no.blocks|), no, |no.blocks|, consts);
    }
  }

  /** The steps that lead to the merge. */
  lemma MergeSteps(yes: Gen, no: Gen, consts: Ast.Consts)
    requires Apart(yes, no) && Valid(no, consts) && (Open(yes) || Open(no))
    ensures var g1 := NewBlock(no).(here := yes.here);
            var g2 := EndAt(NewBlock(no), yes, |no.blocks|);
            var g3 := EndAt(g2, no, |no.blocks|);
            && Grows(no, g1) && Grows(g1, g2) && Grows(g2, g2.(here := no.here)) && Grows(g2.(here := no.here), g3)
            && g3.here == no.here && g2.here == yes.here && Grows(g3, Merge(yes, no))
            && Merge(yes, no).here == |no.blocks|
  {
    hide EndedBy, Plain, Table, TableGrows;
    EndAtGrows(NewBlock(no), yes, |no.blocks|, consts);
    EndAtGrows(EndAt(NewBlock(no), yes, |no.blocks|), no, |no.blocks|, consts);
  }

  lemma MergeGrows(g: Gen, yes: Gen, no: Gen, consts: Ast.Consts)
    requires hide *; yes.here < |no.blocks| && no.here < |no.blocks|
    requires Apart(yes, no) && Valid(no, consts) && Grows(g, no) && Moved(g, no)
    requires |g.blocks| <= yes.here && |g.blocks| <= no.here && |g.blocks| <= |no.blocks|
    ensures Grows(g, Merge(yes, no)) && Moved(g, Merge(yes, no))
  {
    hide Apart, EndAt, Grows, Valid, Open;
    if Open(yes) || Open(no) {
      MergeSteps(yes, no, consts);
      var g1 := NewBlock(no).(here := yes.here);
      var g2 := EndAt(NewBlock(no), yes, |no.blocks|);
      var g3 := EndAt(g2, no, |no.blocks|);
      GrowsOn(g, no, g1);
      GrowsOn(g, g1, g2);
      GrowsOn(g, g2, g2.(here := no.here));
      GrowsOn(g, g2.(here := no.here), g3);
      GrowsOn(g, g3, Merge(yes, no));
    }
  }

  lemma MergeExtends(m: Whole, yes: Gen, no: Gen)
    requires hide *; yes.here < |no.blocks| && no.here < |no.blocks|
    requires Apart(yes, no) && Valid(no, m.consts) && Extends(m, Merge(yes, no))
    ensures Extends(m, no)
  {
    hide Apart, EndAt, Extends, Grows, Valid, Open;
    if Open(yes) || Open(no) {
      MergeSteps(yes, no, m.consts);
      var g1 := NewBlock(no).(here := yes.here);
      var g2 := EndAt(NewBlock(no), yes, |no.blocks|);
      var g3 := EndAt(g2, no, |no.blocks|);
      ExtendsBack(m, g3, Merge(yes, no));
      ExtendsBack(m, g2.(here := no.here), g3);
      ExtendsBack(m, g2, g2.(here := no.here));
      ExtendsBack(m, g1, g2);
      ExtendsBack(m, no, g1);
    }
  }

  /** The second alternative begins in the block after the one of the first. */
  function Other(g1: Gen, yes: Gen): Gen {
    yes.(here := |g1.blocks| + 1)
  }

  lemma OtherShape(g1: Gen, yes: Gen, s2: Ast.Stmt, no: Gen, consts: Ast.Consts)
    requires hide *; Valid(yes, consts) && Blank(yes, |g1.blocks| + 1)
             && (yes.here == |g1.blocks| || yes.here > |g1.blocks| + 1)
    requires StmtShape(Other(g1, yes), s2, no, consts)
    ensures Apart(yes, no) && |g1.blocks| <= yes.here && |g1.blocks| <= no.here && yes.here < |no.blocks|
            && no.here < |no.blocks|
    ensures Grows(yes, Other(g1, yes)) && Other(g1, yes).here == |g1.blocks| + 1 && Other(g1, yes).loops == yes.loops
    ensures Blank(Other(g1, yes), Other(g1, yes).here) && Other(g1, yes).symbols == yes.symbols
  {
    hide Closes, Declares, NewNames, Plain, Table;
    assert DraftSame(yes.blocks[yes.here], no.blocks[yes.here]);
  }

  lemma IfElseShape(g: Gen, c: Ast.Expr, s1: Ast.Stmt, s2: Ast.Stmt, g1: Gen, v: Operand, yes: Gen, no: Gen,
                    consts: Ast.Consts)
    requires hide *; IfPassed(g, c, s1, g1, v, yes, consts) && g1.here < |g1.blocks| && yes.here < |yes.blocks|
    requires StmtCompiled(Other(g1, yes), s2, no, consts) && Declares(s1) !! Declares(s2)
    ensures Apart(yes, no) && yes.here < |no.blocks| && no.here < |no.blocks|
    ensures StmtShape(g, Ast.If(c, s1, Some(s2)), Merge(yes, no), consts)
    ensures GoesOnIn(yes, Merge(yes, no), |no.blocks|) && GoesOnIn(no, Merge(yes, no), |no.blocks|)
    ensures Grows(yes, Other(g1, yes)) && Grows(Other(g1, yes), no) && Merge(yes, no).failed == no.failed
    ensures Blank(Other(g1, yes), Other(g1, yes).here) && Other(g1, yes).loops == yes.loops && Valid(no, consts)
    ensures Other(g1, yes).here == |g1.blocks| + 1 && (yes.failed ==> no.failed)
  {
    hide *;
    IfFacts(g, c, s1, g1, v, yes, consts);
    BranchShape(g, c, s1, g1, v, yes, consts);
    StmtFacts(Other(g1, yes), s2, no, consts);
    OtherShape(g1, yes, s2, no, consts);
    MergeShape(yes, no, consts);
    OtherGrows(g, g1, yes, no, consts);
    MergeGrows(g, yes, no, consts);
    IfElseNames(g, c, s1, s2, g1, yes, no, Merge(yes, no), consts);
  }

  lemma OtherGrows(g: Gen, g1: Gen, yes: Gen, no: Gen, consts: Ast.Consts)
    requires Grows(g, yes) && Grows(Other(g1, yes), no) && |g.blocks| <= |g1.blocks| && |g1.blocks| <= no.here
    ensures Grows(g, no) && Moved(g, no) && |g.blocks| <= |no.blocks| && (yes.failed ==> no.failed)
  {
    hide DraftGrows, DraftSame, Plain, TableGrows;
    assert Grows(g, Other(g1, yes)) && Moved(g, Other(g1, yes));
    GrowsOn(g, Other(g1, yes), no);
  }

  lemma IfElseNames(g: Gen, c: Ast.Expr, s1: Ast.Stmt, s2: Ast.Stmt, g1: Gen, yes: Gen, no: Gen, end: Gen,
                    consts: Ast.Consts)
    requires Grows(g, end) && Moved(g, end) && Valid(end, consts) && end.loops == no.loops
    requires Other(g1, yes).loops == yes.loops == g.loops && no.loops == Other(g1, yes).loops
    requires Open(end) <==> Open(yes) || Open(no)
    requires (Open(yes) <==> !Closes(s1)) && (Open(no) <==> !Closes(s2))
    requires NewNames(g, yes, Declares(s1)) && NewNames(Other(g1, yes), no, Declares(s2))
    requires Other(g1, yes).symbols == yes.symbols && end.symbols == no.symbols
    ensures StmtShape(g, Ast.If(c, s1, Some(s2)), end, consts)
  {
    hide Valid, Grows, Other;
  }

  lemma IfElseRuns(m: Whole, g: Gen, c: Ast.Expr, s1: Ast.Stmt, s2: Ast.Stmt, g1: Gen, v: Operand, yes: Gen, no: Gen,
                   fuel: nat, fr: Frame, st: Ast.State)
    requires hide *; IfPassed(g, c, s1, g1, v, yes, m.consts) && g1.here < |g1.blocks| && yes.here < |yes.blocks|
    requires StmtCompiled(Other(g1, yes), s2, no, m.consts) && Declares(s1) !! Declares(s2)
    requires yes.here < |no.blocks| && no.here < |no.blocks|
    requires !Merge(yes, no).failed && Extends(m, Merge(yes, no)) && Match(m, fr, st)
    ensures StmtRuns(m, g, Ast.If(c, s1, Some(s2)), Merge(yes, no), fuel, fr, st)
  {
    hide *;
    IfFacts(g, c, s1, g1, v, yes, m.consts);
    BranchShape(g, c, s1, g1, v, yes, m.consts);
    IfElseShape(g, c, s1, s2, g1, v, yes, no, m.consts);
    MergeExtends(m, yes, no);
    ExtendsBack(m, Other(g1, yes), no);
    ExtendsBack(m, yes, Other(g1, yes));
    ExtendsBack(m, Branch(g1, v), yes);
    ExtendsBack(m, g1, Branch(g1, v));
    var st1 := Ast.Eval(c, m.consts, m.setup.callees, st).1;
    var d, fr1 := ConditionRuns(m, g, c, g1, v, fr, st);
    IfMeaning(m, c, s1, Some(s2), fuel, st);
    if Ast.Eval(c, m.consts, m.setup.callees, st).0 != 0 {
      BranchEnds(m, Branch(g1, v), s1, yes, Merge(yes, no), |no.blocks|, g1.here, fuel, fr1, st1);
      EndsRun(m, g, Ast.If(c, s1, Some(s2)), Merge(yes, no), fuel, fr, st, d, At(g1.here, |g1.blocks|, fr1));
    } else {
      BranchEnds(m, Other(g1, yes), s2, no, Merge(yes, no), |no.blocks|, g1.here, fuel, fr1, st1);
      EndsRun(m, g, Ast.If(c, s1, Some(s2)), Merge(yes, no), fuel, fr, st, d, At(g1.here, |g1.blocks| + 1, fr1));
    }
  }

  lemma IfElseCompiled(g: Gen, c: Ast.Expr, s1: Ast.Stmt, s2: Ast.Stmt, g1: Gen, v: Operand, yes: Gen, no: Gen,
                       consts: Ast.Consts)
    requires hide *; IfPassed(g, c, s1, g1, v, yes, consts) && g1.here < |g1.blocks| && yes.here < |yes.blocks|
    requires StmtCompiled(Other(g1, yes), s2, no, consts) && Declares(s1) !! Declares(s2)
    ensures yes.here < |no.blocks| && no.here < |no.blocks|
    ensures StmtCompiled(g, Ast.If(c, s1, Some(s2)), Merge(yes, no), consts)
  {
    IfElseShape(g, c, s1, s2, g1, v, yes, no, consts);
    var s := Ast.If(c, s1, Some(s2));
    forall m: Whole, fuel: nat, fr: Frame, st: Ast.State |
      !Merge(yes, no).failed && Extends(m, Merge(yes, no)) && m.consts == consts && Match(m, fr, st)
      ensures StmtRuns(m, g, s, Merge(yes, no), fuel, fr, st)
    {
      hide *;
      IfElseRuns(m, g, c, s1, s2, g1, v, yes, no, fuel, fr, st);
    }
  }

  // ----- while -----

  /** Blocks for the condition, the body and the exit; generation goes on with the condition. */
  function LoopStart(g: Gen): Gen
    requires g.here < |g.blocks|
  {
    Jump(NewBlock(NewBlock(NewBlock(g))), Br(|g.blocks|), |g.blocks|)
  }

  /** After the condition: the branch, and a loop more to jump in. */
  function LoopBody(g: Gen, c: Operand, n: nat): Gen
    requires g.here < |g.blocks|
  {
    Jump(g, CondBr(c, n + 1, n + 2), n + 1).(loops := g.loops + [(n, n + 2)])
  }

  function LoopEnd(g: Gen, n: nat, loops: seq<(nat, nat)>): Gen
    requires g.here < |g.blocks|
  {
    Rejoin(g, n, n + 2).(loops := loops)
  }

  /** The states passed while `while (c) b` is generated from `g`: after the condition, and after the body. */
  ghost predicate WhilePassed(g: Gen, c: Ast.Expr, b: Ast.Stmt, g1: Gen, v: Operand, done: Gen, consts: Ast.Consts) {
    && g.here < |g.blocks| && g1.here < |g1.blocks| && done.here < |done.blocks|
    && ExprCompiled(LoopStart(g), c, g1, v, consts)
    && StmtCompiled(LoopBody(g1, v, |g.blocks|), b, done, consts)
  }

  lemma WhileFacts(g: Gen, c: Ast.Expr, b: Ast.Stmt, g1: Gen, v: Operand, done: Gen, consts: Ast.Consts)
    requires hide *; WhilePassed(g, c, b, g1, v, done, consts)
    ensures g.here < |g.blocks| && g1.here < |g1.blocks| && done.here < |done.blocks|
    ensures ExprCompiled(LoopStart(g), c, g1, v, consts) && StmtCompiled(LoopBody(g1, v, |g.blocks|), b, done, consts)
  {
    hide ExprCompiled, StmtCompiled;
  }

  lemma LoopStartGrows(g: Gen, consts: Ast.Consts)
    requires hide Blank, EndedBy, Grows, LoopStart, Table; Open(g) && Valid(g, consts)
    ensures var g' := LoopStart(g);
            && Grows(g, g') && Moved(g, g') && Valid(g', consts) && Open(g') && g'.here == |g.blocks|
            && g'.next == g.next && g'.symbols == g.symbols && g'.loops == g.loops && g'.failed == g.failed
            && Blank(g', |g.blocks|) && Blank(g', |g.blocks| + 1) && Blank(g', |g.blocks| + 2)
            && EndedBy(g, g', Br(|g.blocks|)) && |g'.blocks| == |g.blocks| + 3
  {
    assert Plain([]) == [];
  }

  lemma LoopBodyGrows(g: Gen, c: Operand, n: nat, consts: Ast.Consts)
    requires hide Blank, EndedBy, Grows, LoopBody, Table;
             Open(g) && Valid(g, consts) && n < |g.blocks| && Blank(g, n + 1) && Blank(g, n + 2) && g.here != n + 1
             && g.here != n + 2
    ensures var g' := LoopBody(g, c, n);
            && Grows(g, g') && Valid(g', consts) && Open(g') && g'.here == n + 1
            && g'.next == g.next && g'.symbols == g.symbols && g'.failed == g.failed
            && g'.loops == g.loops + [(n, n + 2)] && |g'.blocks| == |g.blocks|
            && Blank(g', n + 1) && Blank(g', n + 2) && EndedBy(g, g', CondBr(c, n + 1, n + 2))
  {
  }

  lemma LoopEndGrows(g: Gen, n: nat, loops: seq<(nat, nat)>, consts: Ast.Consts)
    requires hide Blank, EndedBy, Grows, LoopEnd, Table; Valid(g, consts) && Blank(g, n + 2) && n + 2 != g.here
    requires forall i :: 0 <= i < |loops| ==> loops[i].0 < |g.blocks| && loops[i].1 < |g.blocks|
    ensures var g' := LoopEnd(g, n, loops);
            && Grows(g, g') && Valid(g', consts) && Open(g') && g'.here == n + 2 && Blank(g', n + 2)
            && (Open(g) ==> EndedBy(g, g', Br(n)))
            && g'.next == g.next && g'.symbols == g.symbols && g'.loops == loops && g'.failed == g.failed
  {
    hide Close, DraftGrows, Plain, Table, TableGrows;
    RejoinGrows(g, n, n + 2, consts);
  }

  lemma WhileShape(g: Gen, c: Ast.Expr, b: Ast.Stmt, g1: Gen, v: Operand, done: Gen, consts: Ast.Consts)
    requires hide ExprCompiled, Grows, StmtCompiled, StmtShape;
             WhilePassed(g, c, b, g1, v, done, consts) && Valid(g, consts) && Open(g)
    requires g.here < |g.blocks| && g1.here < |g1.blocks| && done.here < |done.blocks|
    ensures var n := |g.blocks|;
            var end := LoopEnd(done, n, g.loops);
            && StmtShape(g, Ast.While(c, b), end, consts) && end.failed == done.failed && (g1.failed ==> done.failed)
            && Grows(g, LoopStart(g)) && Grows(LoopStart(g), g1) && Grows(g1, LoopBody(g1, v, n))
            && Grows(LoopBody(g1, v, n), done) && Grows(done, end)
            && EndedBy(g, LoopStart(g), Br(n)) && EndedBy(g1, LoopBody(g1, v, n), CondBr(v, n + 1, n + 2))
            && (Open(done) ==> EndedBy(done, end, Br(n)))
            && Blank(LoopStart(g), LoopStart(g).here) && LoopStart(g).here == n
            && Blank(LoopBody(g1, v, n), LoopBody(g1, v, n).here) && LoopBody(g1, v, n).here == n + 1
            && Blank(end, end.here) && end.here == n + 2 && LoopBody(g1, v, n).loops == g.loops + [(n, n + 2)]
  {
    var n := |g.blocks|;
    ghost var start, body, end := LoopStart(g), LoopBody(g1, v, n), LoopEnd(done, n, g.loops);
    WhileNumbers(g, c, b, g1, v, done, consts);
    hide *;
    GrowsOn(g, start, g1);
    GrowsOn(g, g1, body);
    GrowsOn(g, body, done);
    GrowsOn(g, done, end);
    WhileNames(g, c, b, end, consts);
  }

  lemma WhileNames(g: Gen, c: Ast.Expr, b: Ast.Stmt, end: Gen, consts: Ast.Consts)
    requires Grows(g, end) && Moved(g, end) && Valid(end, consts) && end.loops == g.loops && Open(end)
    requires NewNames(g, end, Declares(b))
    ensures StmtShape(g, Ast.While(c, b), end, consts)
  {
    hide Grows, Valid;
  }

  lemma WhileNumbers(g: Gen, c: Ast.Expr, b: Ast.Stmt, g1: Gen, v: Operand, done: Gen, consts: Ast.Consts)
    requires WhilePassed(g, c, b, g1, v, done, consts) && Valid(g, consts) && Open(g)
    requires g.here < |g.blocks| && g1.here < |g1.blocks| && done.here < |done.blocks|
    ensures var n := |g.blocks|;
            var end := LoopEnd(done, n, g.loops);
            && Grows(g, LoopStart(g)) && Moved(g, LoopStart(g)) && EndedBy(g, LoopStart(g), Br(n))
            && Blank(LoopStart(g), LoopStart(g).here) && LoopStart(g).here == n
            && Grows(LoopStart(g), g1) && Moved(g, g1) && Grows(g1, LoopBody(g1, v, n)) && Moved(g, LoopBody(g1, v, n))
            && EndedBy(g1, LoopBody(g1, v, n), CondBr(v, n + 1, n + 2))
            && Blank(LoopBody(g1, v, n), LoopBody(g1, v, n).here) && LoopBody(g1, v, n).here == n + 1
            && LoopBody(g1, v, n).loops == g.loops + [(n, n + 2)]
            && Grows(LoopBody(g1, v, n), done) && Moved(g, done) && (g1.failed ==> done.failed)
            && Grows(done, end) && Moved(g, end) && Valid(end, consts) && Open(end) && end.loops == g.loops
            && (Open(done) ==> EndedBy(done, end, Br(n))) && Blank(end, end.here) && end.here == n + 2
            && end.failed == done.failed && NewNames(g, end, Declares(b))
  {
    hide *;
    var n := |g.blocks|;
    WhileFacts(g, c, b, g1, v, done, consts);
    LoopStartGrows(g, consts);
    CompiledShape(LoopStart(g), c, g1, v, consts);
    ShapeFacts(LoopStart(g), g1, consts);
    AfterCondition(g, g1);
    LoopBodyGrows(g1, v, n, consts);
    StmtFacts(LoopBody(g1, v, n), b, done, consts);
    BlankIsThere(g1, n + 2);
    AfterBody(g, g1, v, done);
    LoopsInside(g, g1, done, consts);
    LoopEndGrows(done, n, g.loops, consts);
    LoopMoved(g, g1, v, done);
    NewNamesOn(g, LoopStart(g), LoopBody(g1, v, n), done, Declares(b));
    SameNames(g, done, LoopEnd(done, n, g.loops), Declares(b));
  }

  lemma SameNames(g: Gen, g1: Gen, g2: Gen, ids: set<nat>)
    requires NewNames(g, g1, ids) && g2.symbols == g1.symbols
    ensures NewNames(g, g2, ids)
  {
  }

  lemma LoopMoved(g: Gen, g1: Gen, v: Operand, done: Gen)
    requires g1.here < |g1.blocks| && done.here < |done.blocks| && |g.blocks| <= g1.here && |g.blocks| <= done.here
    ensures Moved(g, g1) && Moved(g, LoopBody(g1, v, |g.blocks|)) && Moved(g, done)
    ensures Moved(g, LoopEnd(done, |g.blocks|, g.loops))
  {
  }

  lemma AfterCondition(g: Gen, g1: Gen)
    requires hide *; g.here < |g.blocks| && Grows(LoopStart(g), g1) && Moved(LoopStart(g), g1)
    requires Blank(LoopStart(g), |g.blocks| + 1) && Blank(LoopStart(g), |g.blocks| + 2)
    ensures |g.blocks| < |g1.blocks| && Blank(g1, |g.blocks| + 1) && Blank(g1, |g.blocks| + 2)
    ensures g1.here == |g.blocks| || g1.here > |g.blocks| + 2
  {
    hide Close, DraftGrows, NewBlock, Plain, TableGrows;
    BlankStays(LoopStart(g), g1, |g.blocks| + 1);
    BlankStays(LoopStart(g), g1, |g.blocks| + 2);
  }

  lemma AfterBody(g: Gen, g1: Gen, v: Operand, done: Gen)
    requires g1.here < |g1.blocks| && Grows(LoopBody(g1, v, |g.blocks|), done)
             && Moved(LoopBody(g1, v, |g.blocks|), done)
    requires Blank(LoopBody(g1, v, |g.blocks|), |g.blocks| + 2) && |g.blocks| + 2 < |g1.blocks|
    ensures |g1.blocks| <= |done.blocks| && Blank(done, |g.blocks| + 2) && done.here != |g.blocks| + 2
            && done.here >= |g.blocks|
    ensures g1.failed ==> done.failed
  {
    hide DraftGrows, Plain, TableGrows;
    BlankStays(LoopBody(g1, v, |g.blocks|), done, |g.blocks| + 2);
  }

  lemma LoopsInside(g: Gen, g1: Gen, done: Gen, consts: Ast.Consts)
    requires Valid(g, consts) && |g.blocks| <= |g1.blocks| <= |done.blocks|
    ensures forall i :: 0 <= i < |g.loops| ==> g.loops[i].0 < |done.blocks| && g.loops[i].1 < |done.blocks|
  {
  }

  /** Everything a pass through the generated loop rests on. */
  ghost predicate LoopReady(m: Whole, g: Gen, c: Ast.Expr, b: Ast.Stmt, g1: Gen, v: Operand, done: Gen) {
    && g.here < |g.blocks| && g1.here < |g1.blocks| && done.here < |done.blocks| && !g1.failed && !done.failed
    && ExprCompiled(LoopStart(g), c, g1, v, m.consts) && StmtCompiled(LoopBody(g1, v, |g.blocks|), b, done, m.consts)
    && Extends(m, LoopStart(g)) && Extends(m, g1) && Extends(m, LoopBody(g1, v, |g.blocks|)) && Extends(m, done)
    && Extends(m, LoopEnd(done, |g.blocks|, g.loops))
    && EndedBy(g1, LoopBody(g1, v, |g.blocks|), CondBr(v, |g.blocks| + 1, |g.blocks| + 2))
    && (Open(done) ==> EndedBy(done, LoopEnd(done, |g.blocks|, g.loops), Br(|g.blocks|)))
    && Blank(LoopStart(g), LoopStart(g).here) && LoopStart(g).here == |g.blocks|
    && Blank(LoopBody(g1, v, |g.blocks|), LoopBody(g1, v, |g.blocks|).here)
    && LoopBody(g1, v, |g.blocks|).here == |g.blocks| + 1
    && Blank(LoopEnd(done, |g.blocks|, g.loops), LoopEnd(done, |g.blocks|, g.loops).here)
    && LoopEnd(done, |g.blocks|, g.loops).here == |g.blocks| + 2
    && LoopBody(g1, v, |g.blocks|).loops == g.loops + [(|g.blocks|, |g.blocks| + 2)]
  }

  /** The condition of a pass: to the body or to the exit. */
  lemma PassCondition(m: Whole, g: Gen, c: Ast.Expr, b: Ast.Stmt, g1: Gen, v: Operand, done: Gen,
                      prev: nat, fr: Frame, st: Ast.State) returns (d: nat, fr1: Frame)
    requires hide Ast.Eval, ExprCompiled, Extends, Goes, StmtCompiled;
             LoopReady(m, g, c, b, g1, v, done) && Match(m, fr, st)
    ensures d >= 1 && Match(m, fr1, Ast.Eval(c, m.consts, m.setup.callees, st).1)
    ensures Goes(m.setup, At(prev, |g.blocks|, fr), d,
                 At(g1.here, if Ast.Eval(c, m.consts, m.setup.callees, st).0 != 0 then |g.blocks| + 1
                               else |g.blocks| + 2, fr1))
  {
    hide Ast.Eval, ExprCompiled, Extends, Goes, Steps, StmtCompiled, Match, EndedBy, Blank, LoopBody, LoopStart,
         LoopEnd, Open, Here;
    StartBlank(m, LoopStart(g), prev, fr);
    var d1;
    d1, fr1 := CompiledRuns(m, LoopStart(g), c, g1, v, fr, st);
    EndedRuns(m, g1, LoopBody(g1, v, |g.blocks|), CondBr(v, |g.blocks| + 1, |g.blocks| + 2), fr1);
    GoesOn(m.setup, At(prev, |g.blocks|, fr), 1, Here(m, LoopStart(g), fr), d1, Here(m, g1, fr1));
    d := 1 + d1;
  }

  /** The body of a pass. */
  lemma PassBody(m: Whole, g: Gen, c: Ast.Expr, b: Ast.Stmt, g1: Gen, v: Operand, done: Gen,
                 fuel: nat, prev: nat, fr: Frame, st: Ast.State)
    requires hide Ast.Eval, Ast.Exec, Ends, Steps, StmtCompiled; LoopReady(m, g, c, b, g1, v, done) && Match(m, fr, st)
    ensures Ends(m, done, g.loops + [(|g.blocks|, |g.blocks| + 2)], fuel,
                 Ast.Exec(b, fuel, m.consts, m.setup.callees, st).0,
                 Ast.Exec(b, fuel, m.consts, m.setup.callees, st).1, At(prev, |g.blocks| + 1, fr))
  {
    hide Ast.Eval, Ast.Exec, Ends, ExprCompiled, Extends, Goes, Here, Steps, StmtCompiled, Match, EndedBy, Blank,
         LoopBody, LoopStart, LoopEnd, Open;
    var body := LoopBody(g1, v, |g.blocks|);
    var o, st1 := Ast.Exec(b, fuel, m.consts, m.setup.callees, st).0,
      Ast.Exec(b, fuel, m.consts, m.setup.callees, st).1;
    StartBlank(m, body, prev, fr);
    StmtEnds(m, body, b, done, fuel, fr, st);
    EndsAfter(m, done, body.loops, fuel, o, st1, At(prev, |g.blocks| + 1, fr), 1, Here(m, body, fr));
    EndsSooner(m, done, body.loops, fuel, if o.Timeout? then 1 else 0, o, st1, At(prev, |g.blocks| + 1, fr));
  }

  /** A body that goes on leads back to the condition. */
  lemma PassAgain(m: Whole, g: Gen, c: Ast.Expr, b: Ast.Stmt, g1: Gen, v: Operand, done: Gen,
                  fuel: nat, o: Ast.Outcome, st: Ast.State, c0: Config) returns (d: nat, prev: nat, fr: Frame)
    requires hide Ends, ExprRuns, Goes, Steps, StmtCompiled;
             LoopReady(m, g, c, b, g1, v, done) && (o.Normal? || o.Continued?)
    requires Ends(m, done, g.loops + [(|g.blocks|, |g.blocks| + 2)], fuel, o, st, c0)
    ensures Goes(m.setup, c0, d, At(prev, |g.blocks|, fr)) && Match(m, fr, st)
  {
    hide ExprCompiled, Extends, Goes, Steps, StmtCompiled, Match, EndedBy, Blank, LoopBody, LoopStart, LoopEnd, Open,
         Here;
    var loops := g.loops + [(|g.blocks|, |g.blocks| + 2)];
    assert loops[|loops| - 1] == (|g.blocks|, |g.blocks| + 2);
    if o.Normal? {
      d, fr :| StandsAt(m, c0, d, done, fr, st);
      EndedRuns(m, done, LoopEnd(done, |g.blocks|, g.loops), Br(|g.blocks|), fr);
      prev := done.here;
    } else {
      d, prev, fr :| ArrivesAt(m, c0, d, |g.blocks|, prev, fr, st);
    }
  }

  lemma PassBroke(m: Whole, g: Gen, c: Ast.Expr, b: Ast.Stmt, g1: Gen, v: Operand, done: Gen, fuel: nat,
                  st: Ast.State, c0: Config)
    requires hide Ends, ExprRuns, StmtCompiled; LoopReady(m, g, c, b, g1, v, done)
    requires Ends(m, done, g.loops + [(|g.blocks|, |g.blocks| + 2)], fuel, Ast.Broke, st, c0)
    ensures Ends(m, LoopEnd(done, |g.blocks|, g.loops), g.loops, fuel, Ast.Normal, st, c0)
  {
    hide ExprCompiled, Extends, Goes, Here, Steps, StmtCompiled, Match, EndedBy, Blank, LoopBody, LoopStart, LoopEnd,
         Open;
    var end := LoopEnd(done, |g.blocks|, g.loops);
    var loops := g.loops + [(|g.blocks|, |g.blocks| + 2)];
    assert loops[|loops| - 1] == (|g.blocks|, |g.blocks| + 2);
    var d: nat, prev: nat, fr: Frame :| ArrivesAt(m, c0, d, |g.blocks| + 2, prev, fr, st);
    EndsBlank(m, end, g.loops, fuel, prev, fr, st);
    EndsAfter(m, end, g.loops, fuel, Ast.Normal, st, c0, d, At(prev, |g.blocks| + 2, fr));
  }

  lemma WhileMeaning(m: Whole, c: Ast.Expr, b: Ast.Stmt, fuel: nat, st: Ast.State)
    ensures hide *; fuel == 0 ==> Ast.Exec(Ast.While(c, b), fuel, m.consts, m.setup.callees, st) == (Ast.Timeout, st)
    ensures fuel > 0 ==>
              var (x, st1) := Ast.Eval(c, m.consts, m.setup.callees, st);
              var (o, st2) := Ast.Exec(b, fuel - 1, m.consts, m.setup.callees, st1);
              Ast.Exec(Ast.While(c, b), fuel, m.consts, m.setup.callees, st)
              == if x == 0 then (Ast.Normal, st1)
                 else if o == Ast.Normal || o == Ast.Continued
                        then Ast.Exec(Ast.While(c, b), fuel - 1, m.consts, m.setup.callees, st2)
                 else if o == Ast.Broke then (Ast.Normal, st2) else (o, st2)
  {
    hide Ast.Eval, Ast.ExecAll, Ast.Put;
  }

  lemma EndsOutside(m: Whole, g: Gen, loops: seq<(nat, nat)>, g': Gen, loops': seq<(nat, nat)>, fuel: nat,
                    o: Ast.Outcome, st: Ast.State, c: Config)
    requires Ends(m, g, loops, fuel, o, st, c) && (o.Returned? || o.Timeout?)
    ensures Ends(m, g', loops', fuel, o, st, c)
  {
    hide Goes, Reaches, StandsAt, Steps;
  }

  lemma TimesOut(m: Whole, g: Gen, loops: seq<(nat, nat)>, prev: nat, b: nat, fr: Frame, st: Ast.State)
    ensures hide *; Ends(m, g, loops, 0, Ast.Timeout, st, At(prev, b, fr))
  {
    hide Reaches, RunBlock, StandsAt, Steps;
    assert GoesPast(m, At(prev, b, fr), 0, 0, At(prev, b, fr));
  }

  /** From a later point of the run, to the statement's end seen from an earlier one. */
  lemma EndsFrom(m: Whole, g: Gen, loops: seq<(nat, nat)>, fuel: nat, fuel': nat, o: Ast.Outcome, st: Ast.State,
                 c0: Config, d: nat, c: Config)
    requires Goes(m.setup, c0, d, c) && Ends(m, g, loops, fuel, o, st, c) && fuel' <= fuel + d
    ensures Ends(m, g, loops, fuel', o, st, c0)
  {
    hide Goes, Reaches, Finishes, StandsAt;
    EndsAfter(m, g, loops, fuel, o, st, c0, d, c);
    if o.Timeout? {
      EndsSooner(m, g, loops, fuel', fuel + d - fuel', o, st, c0);
    }
  }

  lemma {:induction false} LoopRuns(m: Whole, g: Gen, c: Ast.Expr, b: Ast.Stmt, g1: Gen, v: Operand, done: Gen,
                                    fuel: nat, prev: nat, fr: Frame, st: Ast.State)
    requires hide Ast.Eval, Ast.Exec, ExprCompiled, Steps, StmtCompiled;
             LoopReady(m, g, c, b, g1, v, done) && Match(m, fr, st) && done.here < |done.blocks|
    ensures Ends(m, LoopEnd(done, |g.blocks|, g.loops), g.loops, fuel,
                 Ast.Exec(Ast.While(c, b), fuel, m.consts, m.setup.callees, st).0,
                 Ast.Exec(Ast.While(c, b), fuel, m.consts, m.setup.callees, st).1, At(prev, |g.blocks|, fr))
    decreases fuel
  {
    hide *;
    var n, end := |g.blocks|, LoopEnd(done, |g.blocks|, g.loops);
    WhileMeaning(m, c, b, fuel, st);
    if fuel == 0 {
      TimesOut(m, end, g.loops, prev, n, fr, st);
    } else {
      var x, st1 := Ast.Eval(c, m.consts, m.setup.callees, st).0, Ast.Eval(c, m.consts, m.setup.callees, st).1;
      var d1, fr1 := PassCondition(m, g, c, b, g1, v, done, prev, fr, st);
      var edge := At(g1.here, if x != 0 then n + 1 else n + 2, fr1);
      if x == 0 {
        LoopReadyEnd(m, g, c, b, g1, v, done);
        EndsBlank(m, end, g.loops, fuel, g1.here, fr1, st1);
        EndsFrom(m, end, g.loops, fuel, fuel, Ast.Normal, st1, At(prev, n, fr), d1, edge);
      } else {
        var o, st2 := Ast.Exec(b, fuel - 1, m.consts, m.setup.callees, st1).0,
          Ast.Exec(b, fuel - 1, m.consts, m.setup.callees, st1).1;
        PassBody(m, g, c, b, g1, v, done, fuel - 1, g1.here, fr1, st1);
        if o == Ast.Normal || o == Ast.Continued {
          var d2, prev2, fr2 := PassAgain(m, g, c, b, g1, v, done, fuel - 1, o, st2, edge);
          LoopRuns(m, g, c, b, g1, v, done, fuel - 1, prev2, fr2, st2);
          GoesOn(m.setup, At(prev, n, fr), d1, edge, d2, At(prev2, n, fr2));
          EndsFrom(m, end, g.loops, fuel - 1, fuel,
                   Ast.Exec(Ast.While(c, b), fuel - 1, m.consts, m.setup.callees, st2).0,
                   Ast.Exec(Ast.While(c, b), fuel - 1, m.consts, m.setup.callees, st2).1, At(prev, n, fr), d1 + d2,
                     At(prev2, n, fr2));
        } else if o == Ast.Broke {
          PassBroke(m, g, c, b, g1, v, done, fuel - 1, st2, edge);
          EndsFrom(m, end, g.loops, fuel - 1, fuel, Ast.Normal, st2, At(prev, n, fr), d1, edge);
        } else {
          EndsOutside(m, done, g.loops + [(n, n + 2)], end, g.loops, fuel - 1, o, st2, edge);
          EndsFrom(m, end, g.loops, fuel - 1, fuel, o, st2, At(prev, n, fr), d1, edge);
        }
      }
    }
  }

  lemma LoopReadyEnd(m: Whole, g: Gen, c: Ast.Expr, b: Ast.Stmt, g1: Gen, v: Operand, done: Gen)
    requires hide ExprCompiled, Extends, StmtCompiled; LoopReady(m, g, c, b, g1, v, done) && done.here < |done.blocks|
    ensures var end := LoopEnd(done, |g.blocks|, g.loops);
            Extends(m, end) && Blank(end, end.here) && end.here == |g.blocks| + 2
  {
    hide ExprCompiled, StmtCompiled;
  }

  lemma WhileRuns(m: Whole, g: Gen, c: Ast.Expr, b: Ast.Stmt, g1: Gen, v: Operand, done: Gen, fuel: nat, fr: Frame,
                  st: Ast.State)
    requires hide ExprCompiled, Extends, StmtCompiled, StmtRuns;
             WhilePassed(g, c, b, g1, v, done, m.consts) && Valid(g, m.consts) && Open(g)
    requires g.here < |g.blocks| && g1.here < |g1.blocks| && done.here < |done.blocks|
    requires var end := LoopEnd(done, |g.blocks|, g.loops); !end.failed && Extends(m, end)
    requires Match(m, fr, st)
    ensures StmtRuns(m, g, Ast.While(c, b), LoopEnd(done, |g.blocks|, g.loops), fuel, fr, st)
  {
    hide *;
    var n, end := |g.blocks|, LoopEnd(done, |g.blocks|, g.loops);
    WhileShape(g, c, b, g1, v, done, m.consts);
    WhileFacts(g, c, b, g1, v, done, m.consts);
    ExtendsBack(m, done, end);
    ExtendsBack(m, LoopBody(g1, v, n), done);
    ExtendsBack(m, g1, LoopBody(g1, v, n));
    ExtendsBack(m, LoopStart(g), g1);
    ExtendsBack(m, g, LoopStart(g));
    LoopIsReady(m, g, c, b, g1, v, done);
    LoopRuns(m, g, c, b, g1, v, done, fuel, g.here, fr, st);
    EndedRuns(m, g, LoopStart(g), Br(n), fr);
    LoopEntered(m, g, n, fr);
    EndsRun(m, g, Ast.While(c, b), end, fuel, fr, st, 0, At(g.here, n, fr));
  }

  lemma LoopEntered(m: Whole, g: Gen, n: nat, fr: Frame)
    requires hide *; Extends(m, g) && g.here < |g.blocks| && Here(m, g, fr) == Leave(Br(n), g.here, m.setup.params, fr)
    ensures Goes(m.setup, Here(m, g, fr), 0, At(g.here, n, fr))
  {
    hide Extends, Here, RunBlock, Steps;
  }

  lemma LoopIsReady(m: Whole, g: Gen, c: Ast.Expr, b: Ast.Stmt, g1: Gen, v: Operand, done: Gen)
    requires hide ExprCompiled, Extends, LoopReady, StmtCompiled;
             g.here < |g.blocks| && g1.here < |g1.blocks| && done.here < |done.blocks| && !done.failed
             && (g1.failed ==> done.failed)
    requires ExprCompiled(LoopStart(g), c, g1, v, m.consts)
             && StmtCompiled(LoopBody(g1, v, |g.blocks|), b, done, m.consts)
    requires Extends(m, LoopStart(g)) && Extends(m, g1) && Extends(m, LoopBody(g1, v, |g.blocks|)) && Extends(m, done)
    requires Extends(m, LoopEnd(done, |g.blocks|, g.loops))
    requires EndedBy(g1, LoopBody(g1, v, |g.blocks|), CondBr(v, |g.blocks| + 1, |g.blocks| + 2))
    requires Open(done) ==> EndedBy(done, LoopEnd(done, |g.blocks|, g.loops), Br(|g.blocks|))
    requires Blank(LoopStart(g), LoopStart(g).here) && LoopStart(g).here == |g.blocks|
    requires Blank(LoopBody(g1, v, |g.blocks|), LoopBody(g1, v, |g.blocks|).here)
    requires LoopBody(g1, v, |g.blocks|).here == |g.blocks| + 1
    requires Blank(LoopEnd(done, |g.blocks|, g.loops), LoopEnd(done, |g.blocks|, g.loops).here)
    requires LoopEnd(done, |g.blocks|, g.loops).here == |g.blocks| + 2
    requires LoopBody(g1, v, |g.blocks|).loops == g.loops + [(|g.blocks|, |g.blocks| + 2)]
    ensures LoopReady(m, g, c, b, g1, v, done)
  {
    hide Extends, ExprCompiled, StmtCompiled, EndedBy, Blank, LoopBody, LoopStart, LoopEnd, Open;
  }

  lemma WhileCompiled(g: Gen, c: Ast.Expr, b: Ast.Stmt, g1: Gen, v: Operand, done: Gen, consts: Ast.Consts)
    requires hide *; WhilePassed(g, c, b, g1, v, done, consts) && Valid(g, consts) && Open(g)
    requires g.here < |g.blocks| && g1.here < |g1.blocks| && done.here < |done.blocks|
    ensures StmtCompiled(g, Ast.While(c, b), LoopEnd(done, |g.blocks|, g.loops), consts)
  {
    var end, s := LoopEnd(done, |g.blocks|, g.loops), Ast.While(c, b);
    WhileShape(g, c, b, g1, v, done, consts);
    forall m: Whole, fuel: nat, fr: Frame, st: Ast.State |
      !end.failed && Extends(m, end) && m.consts == consts && Match(m, fr, st)
      ensures StmtRuns(m, g, s, end, fuel, fr, st)
    {
      hide *;
      WhileRuns(m, g, c, b, g1, v, done, fuel, fr, st);
    }
  }
}
