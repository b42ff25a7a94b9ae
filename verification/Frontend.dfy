/** Analysis and generation together. The analysis does not visit what follows a statement that returns, and the
    generator does not come to what follows one that closes its block; between the two lies code that is generated
    without entries in the tables. An accepted function is generated, with its meaning, exactly if that code uses no
    name and declares no constant. */
module Frontend {
  import opened Int32
  import opened Ast
  import opened Lookups
  import opened Sema
  import opened Wiring
  import Drafts
  import IrGen
  import Ir
  import Ssa
  import Shapes

  /** The statements that the generator comes to although the analysis skipped them use no name and declare no
      constant. */
  predicate SkippedIsSilent(s: Stmt, consts: Consts) {
    match s
    case Block(body) =>
      forall i: nat :: i < |body| && Shapes.Comes(body, i) ==>
        if Visits(body, i, consts) then SkippedIsSilent(body[i], consts) else Silent(body[i])
    case If(_, s1, s2) => SkippedIsSilent(s1, consts) && (s2.Some? ==> SkippedIsSilent(s2.value, consts))
    case While(_, b) => SkippedIsSilent(b, consts)
    case _ => true
  }

  lemma {:induction false} RecordedWithin(s: Stmt, consts: Consts)
    ensures Recorded(s, consts) <= Needs(s)
  {
    hide ExprNeeds, RecordedAll;
    match s
    case Block(body) => AllRecordedWithin(body, consts);
    case If(_, s1, s2) =>
      RecordedWithin(s1, consts);
      if s2.Some? {
        RecordedWithin(s2.value, consts);
      }
    case While(_, b) => RecordedWithin(b, consts);
    case _ =>
  }

  lemma {:induction false} AllRecordedWithin(ss: seq<Stmt>, consts: Consts)
    ensures RecordedAll(ss, consts) <= NeedsAll(ss)
  {
    hide Needs, Recorded, Visits;
    if ss != [] {
      AllRecordedWithin(ss[..|ss| - 1], consts);
      RecordedWithin(ss[|ss| - 1], consts);
    }
  }

  /** The generator knows every declaration that the analysis has in scope. */
  lemma {:induction false} AddsWhatIsIntroduced(s: Stmt, consts: Consts, answers: set<Need>)
    requires Recorded(s, consts) <= answers
    ensures Introduces(s) <= Adds(s, answers)
  {
    hide AddsAll, ExprNeeds, RecordedAll;
    match s
    case If(_, s1, s2) =>
      AddsWhatIsIntroduced(s1, consts, answers);
      if s2.Some? {
        AddsWhatIsIntroduced(s2.value, consts, answers);
      }
    case While(_, b) => AddsWhatIsIntroduced(b, consts, answers);
    case _ =>
  }

  lemma {:induction false} AddsAllIntroduced(ss: seq<Stmt>, consts: Consts, answers: set<Need>)
    requires RecordedAll(ss, consts) <= answers && !Shapes.Closes(Block(ss)) && !Returns(Block(ss), consts)
    ensures IntroducesAll(ss) <= AddsAll(ss, answers)
  {
    hide Adds, Introduces, Recorded, Returns, Shapes.Closes;
    if ss != [] {
      ReturnsLast(ss, consts);
      ClosesLast(ss);
      AddsAllIntroduced(ss[..|ss| - 1], consts, answers);
      AddsWhatIsIntroduced(ss[|ss| - 1], consts, answers);
    }
  }

  lemma ClosesLast(ss: seq<Stmt>)
    requires ss != []
    ensures Shapes.Comes(ss, |ss| - 1) <==> !Shapes.Closes(Block(ss[..|ss| - 1]))
    ensures Shapes.Closes(Block(ss)) <==> Shapes.Closes(Block(ss[..|ss| - 1])) || Shapes.Closes(ss[|ss| - 1])
  {
    var front := ss[..|ss| - 1];
    assert forall j :: 0 <= j < |front| ==> front[j] == ss[j];
    if Shapes.Closes(Block(front)) {
      var j :| 0 <= j < |front| && Shapes.Closes(front[j]);
      assert Shapes.Closes(ss[j]);
    } else {
      forall j | 0 <= j < |ss| - 1
        ensures !Shapes.Closes(ss[j])
      {
        assert !Shapes.Closes(front[j]);
      }
    }
  }

  /** The tables have what the analysis of these nodes entered, and nothing else about them. */
  predicate Exactly(answers: set<Need>, needs: set<Need>, recorded: set<Need>) {
    recorded <= answers && answers * needs <= recorded
  }

  lemma FoundWhereTidy(e: Expr, scope: set<Decl>, known: set<Decl>, answers: set<Need>)
    requires Resolves(e, scope) && scope <= known && ExprNeeds(e) <= answers
    ensures Found(e, known, answers)
  {
    ResolvesMore(e, scope, known);
  }

  /** After an analysis without errors the generator finds everything exactly if what was skipped needs nothing. */
  lemma {:induction false} FoundIffSkippedIsSilent(s: Stmt, scope: set<Decl>, known: set<Decl>, consts: Consts,
                                                   answers: set<Need>)
    requires Tidy(s, scope, consts) && DistinctNodes(s) && scope <= known
             && Exactly(answers, Needs(s), Recorded(s, consts))
    ensures AllFound(s, known, answers) <==> SkippedIsSilent(s, consts)
  {
    hide ConstOf, FaultAgain, Faults, Visits;
    match s
    case Block(body) =>
      assert body[..|body|] == body;
      FoundInIffSkippedIsSilent(body, |body|, scope, known, consts, answers);
    case ExprStmt(e) => FoundWhereTidy(e, scope, known, answers);
    case Assign(_, _, e) => FoundWhereTidy(e, scope, known, answers);
    case VarDecl(id, e, _) => FoundWhereTidy(e, scope, known + {Variable(id)}, answers);
    case If(c, s1, s2) =>
      FoundWhereTidy(c, scope, known, answers);
      RecordedWithin(s1, consts);
      if s2.Some? {
        RecordedWithin(s2.value, consts);
        AddsWhatIsIntroduced(s1, consts, answers);
        FoundIffSkippedIsSilent(s2.value, scope + Introduces(s1), known + Adds(s1, answers), consts, answers);
      }
      FoundIffSkippedIsSilent(s1, scope, known, consts, answers);
    case While(c, b) =>
      FoundWhereTidy(c, scope, known, answers);
      RecordedWithin(b, consts);
      FoundIffSkippedIsSilent(b, scope, known, consts, answers);
    case Return(v) =>
      if v.Some? {
        FoundWhereTidy(v.value, scope, known, answers);
      }
    case _ =>
  }

  predicate SilentFrom(body: seq<Stmt>, i: nat, consts: Consts)
    requires hide *; i < |body|
  {
    if Visits(body, i, consts) then SkippedIsSilent(body[i], consts) else Silent(body[i])
  }

  lemma {:induction false} FoundInIffSkippedIsSilent(body: seq<Stmt>, n: nat, scope: set<Decl>, known: set<Decl>,
                                                     consts: Consts,
                                                     answers: set<Need>)
    requires hide *; n <= |body| && AllTidy(body[..n], scope, consts) && AllDistinct(body[..n]) && scope <= known
    requires Exactly(answers, NeedsAll(body[..n]), RecordedAll(body[..n], consts))
    ensures FoundIn(body[..n], known, answers)
            <==> forall i: nat :: i < n && Shapes.Comes(body, i) ==> SilentFrom(body, i, consts)
    decreases body, n
  {
    hide AddsAll, AllFound, DistinctNodes, Tidy, Visits;
    var ss := body[..n];
    if n > 0 {
      var front := body[..n - 1];
      assert ss[..n - 1] == front;
      ListSplits(ss, consts, answers);
      FoundInIffSkippedIsSilent(body, n - 1, scope, known, consts, answers);
      SameComes(body, n);
      PrefixVisits(body, n, consts);
      if Shapes.Comes(ss, n - 1) {
        LastFound(body, n, scope, known, consts, answers);
      }
    }
  }

  lemma PrefixVisits(body: seq<Stmt>, n: nat, consts: Consts)
    requires hide *; 0 < n <= |body|
    ensures Visits(body[..n], n - 1, consts) <==> Visits(body, n - 1, consts)
  {
    hide Returns;
    var ss := body[..n];
    assert forall j :: 0 <= j < n ==> ss[j] == body[j];
    if Visits(ss, n - 1, consts) {
      forall j | 0 <= j < n - 1
        ensures !Returns(body[j], consts)
      {
        assert !Returns(ss[j], consts);
      }
    }
  }

  /** The entries of a list are those of its front and those of its last statement, if that was visited. */
  lemma ListSplits(ss: seq<Stmt>, consts: Consts, answers: set<Need>)
    requires hide *; ss != [] && AllDistinct(ss) && Exactly(answers, NeedsAll(ss), RecordedAll(ss, consts))
    ensures Exactly(answers, NeedsAll(ss[..|ss| - 1]), RecordedAll(ss[..|ss| - 1], consts))
    ensures Visits(ss, |ss| - 1, consts) ==> Exactly(answers, Needs(ss[|ss| - 1]), Recorded(ss[|ss| - 1], consts))
    ensures !Visits(ss, |ss| - 1, consts) ==> answers !! Needs(ss[|ss| - 1])
  {
    hide DistinctNodes, ExprNeeds, Returns;
    RecordedWithin(ss[|ss| - 1], consts);
    AllRecordedWithin(ss[..|ss| - 1], consts);
  }

  lemma {:induction false} LastFound(body: seq<Stmt>, n: nat, scope: set<Decl>, known: set<Decl>, consts: Consts,
                                     answers: set<Need>)
    requires hide *; 0 < n <= |body| && AllTidy(body[..n], scope, consts) && AllDistinct(body[..n]) && scope <= known
    requires Exactly(answers, NeedsAll(body[..n]), RecordedAll(body[..n], consts)) && Shapes.Comes(body[..n], n - 1)
    ensures AllFound(body[n - 1], known + AddsAll(body[..n - 1], answers), answers) <==> SilentFrom(body, n - 1, consts)
    decreases body, n, 0
  {
    hide AddsAll, AllFound, DistinctNodes, Returns, Tidy;
    var ss, front := body[..n], body[..n - 1];
    assert ss[..n - 1] == front && ss[n - 1] == body[n - 1];
    ListSplits(ss, consts, answers);
    PrefixVisits(body, n, consts);
    if Visits(ss, n - 1, consts) {
      ReturnsLast(ss, consts);
      ClosesLast(ss);
      AddsAllIntroduced(front, consts, answers);
      FoundIffSkippedIsSilent(body[n - 1], scope + IntroducesAll(front), known + AddsAll(front, answers), consts,
                              answers);
    } else {
      NothingFoundIsSilent(body[n - 1], known + AddsAll(front, answers), answers);
    }
  }

  // ----- a function through analysis and generation -----

  /** So the code generated for an accepted int function returns a value whenever it returns. */
  lemma CompiledDefiniteReturn(g: Ir.Function, f: FuncDef, returnsInt: bool, args: seq<i32>, consts: Consts,
                               callees: Ir.Callees, w: Ir.World, result: Ir.Option<i32>, w': Ir.World)
    requires Accepted(f, returnsInt, consts) && IrGen.SameCalls(g, f, consts)
    requires IrGen.RunReturns(g, args, callees, w, result, w')
    ensures result.Some? == returnsInt
  {
    hide Accepted, ExecAll;
    assert IrGen.CallReturns(f, args, consts, callees, w, result, w');
    var fuel: nat :| RunCall(f, args, fuel, consts, callees, Fresh(w)) == Ir.Some((result, w'));
    DefiniteReturn(f, returnsInt, args, fuel, consts, callees, Fresh(w));
  }

  /** The generator finds everything in an accepted function exactly if what was skipped needs nothing. */
  lemma AcceptedIsFoundIff(f: FuncDef, returnsInt: bool, t: Tables, t': Tables, globals: set<string>,
                           answers: set<Need>)
    requires Tree(f, t.consts) && FuncAnalysed(f, returnsInt, t, t') && t'.ok
    requires Visible(t.scopes) == GlobalNames(globals, t.consts.Keys) && t.answered == Answers({}, t.consts)
    requires answers == t'.answered
    ensures FunctionFound(f, GlobalNames(globals, t.consts.Keys), answers)
            <==> SkippedIsSilent(Block(f.body), t'.consts)
  {
    hide AllFound, DistinctNodes, FoundIn, Returns, SkippedIsSilent, Tidy, FunctionFound, Checked;
    var scope := Visible(t.scopes) + ParamNames(f.params);
    assert Exactly(answers, NeedsAll(f.body), RecordedAll(f.body, t'.consts)) by {
      AnswersApart(f, t.consts);
    }
    BlockOf(f, answers, t'.consts);
    FoundIffSkippedIsSilent(Block(f.body), scope, scope, t'.consts, answers);
    FoundAsBlock(f, GlobalNames(globals, t.consts.Keys), answers);
  }

  lemma AnswersApart(f: FuncDef, values: Consts)
    requires Unvalued(NeedsAll(f.body), values)
    ensures Answers({}, values) !! NeedsAll(f.body)
  {
  }

  lemma BlockOf(f: FuncDef, answers: set<Need>, consts: Consts)
    requires AllDistinct(f.body) && Exactly(answers, NeedsAll(f.body), RecordedAll(f.body, consts))
    ensures DistinctNodes(Block(f.body)) && Exactly(answers, Needs(Block(f.body)), Recorded(Block(f.body), consts))
  {
    hide ExprNeeds, Introduces, RecordedAll, Steady;
  }

  lemma FoundAsBlock(f: FuncDef, known: set<Decl>, answers: set<Need>)
    ensures FunctionFound(f, known, answers) == AllFound(Block(f.body), known + ParamNames(f.params), answers)
  {
  }

  lemma AcceptedIsAcceptable(f: FuncDef, returnsInt: bool, scope: set<Decl>, consts: Consts, values: Consts)
    requires Tree(f, values) && CleanFunction(f, returnsInt, scope, consts)
             && SkippedIsGenerable(Block(f.body), false, consts)
    ensures IrGen.Acceptable(f)
  {
    hide AllDistinct, Checked, NeedsAll, Returns, Tidy;
    CheckedIsGenerable(Block(f.body), false, returnsInt, consts);
  }

  lemma GlobalsOnly(globals: set<string>, globalConsts: set<nat>, symbols: map<Decl, Drafts.Symbol>)
    requires symbols.Keys == GlobalNames(globals, globalConsts)
    ensures forall id: nat :: Variable(id) !in symbols
  {
    forall id: nat
      ensures Variable(id) !in symbols
    {
      assert Variable(id) !in GlobalNames(globals, globalConsts);
    }
  }

  /** What becomes of a function: errors of the analysis; code that the generator has no meaning for; names without
      entries in the tables; or a function. */
  datatype Fate = Rejected | Undefined | Refused | Generated(f: Ir.Function)

  /** The generator stays within open blocks and loops that are there. */
  predicate StaysInside(f: FuncDef, consts: Consts) {
    IrGen.TopLevelOpen(f.body) && SkippedIsGenerable(Block(f.body), false, consts)
  }

  /** A function among globals, analysed and generated. It is accepted exactly if the constants have values with
      which nothing is wrong with it. Of an accepted function, what only the analysis skips decides: it may jump out of
      loops that are not there, which has no meaning; if it uses a name or declares a constant the function is refused;
      otherwise what is generated returns exactly when the source does, with the same result and the same effects, and
      is in strict single assignment form. */
  method Generate(f: FuncDef, returnsInt: bool, globals: set<string>, values: Consts, firstId: nat)
    returns (o: Fate, consts: Consts, next: nat)
    requires hide *; Tree(f, values)
    ensures !o.Rejected? ==> Includes(consts, values)
                             && CleanFunction(f, returnsInt, GlobalNames(globals, values.Keys), consts)
    ensures o.Rejected? ==> forall final :: Includes(final, values) ==>
                              !CleanFunction(f, returnsInt, GlobalNames(globals, values.Keys), final)
    ensures o.Undefined? <==> !o.Rejected? && !StaysInside(f, consts)
    ensures o.Generated? <==> !o.Rejected? && !o.Undefined? && SkippedIsSilent(Block(f.body), consts)
    ensures o.Generated? ==> IrGen.SameCalls(o.f, f, consts) && IrGen.SameFromAll(o.f, f, consts)
    ensures o.Generated? ==> Ssa.WellFormed(o.f) && Ssa.UniqueAllocas(o.f) && FunctionWired(o.f, |f.params|)
    ensures o.Generated? ==> Ssa.FreshFrom(o.f, next) && Ssa.SlotsFreshFrom(o.f, next)
  {
    hide CleanFunction, ConstOf, FunctionFound, FunctionWired, Ssa.WellFormed, SkippedIsSilent, IrGen.SameCalls,
         SkippedIsGenerable, AllDistinct, Visible, Ssa.UniqueAllocas, Ssa.FreshFrom, Ssa.SlotsFreshFrom,
         IrGen.TopLevelOpen, IrGen.SameFromAll;
    var analyzer := new Analyzer(globals, values);
    ghost var t := analyzer.Now();
    analyzer.AnalyzeFunc(f, returnsInt);
    ghost var t' := analyzer.Now();
    consts, next := analyzer.constValues, firstId;
    if !analyzer.ok {
      o := Rejected;
    } else if !StaysInside(f, consts) {
      o := Undefined;
    } else {
      var generator := new IrGen.IRGenerator(analyzer.uses, consts, globals, values.Keys, firstId);
      AcceptedIsAcceptable(f, returnsInt, GlobalNames(globals, values.Keys), consts, values);
      GlobalsOnly(globals, values.Keys, generator.symbols);
      var g := generator.VisitFuncDef(f);
      AcceptedIsFoundIff(f, returnsInt, t, t', globals, generator.Answered());
      next := generator.nextId;
      o := if generator.hadError then Refused else Generated(g);
    }
  }

  /** `int f() { while (1) return 0; int y = 1; return y; }` */
  function Skipping(): FuncDef {
    FuncDef([], [While(IntLiteral(1), Return(Ir.Some(IntLiteral(0)))), VarDecl(0, IntLiteral(1), false),
                 Return(Ir.Some(Ident(0, Variable(0), Variable(0))))], false)
  }

  lemma SkippingPrefixes()
    ensures |Skipping().body| == 3 && Skipping().body[..2][..1] == Skipping().body[..1]
    ensures Skipping().body[..1][..0] == [] && Skipping().body[..0] == []
  {
  }

  lemma SkippingIsTree()
    ensures Tree(Skipping(), map[])
  {
    var body := Skipping().body;
    SkippingPrefixes();
    assert AllDistinct(body[..1]) && Shapes.AllDeclareOnce(body[..1]);
    assert NeedsAll(body[..1]) == {} && Shapes.DeclaresAll(body[..1]) == {};
    assert AllDistinct(body[..2]) && Shapes.AllDeclareOnce(body[..2]);
    assert NeedsAll(body[..2]) == {} && Shapes.DeclaresAll(body[..2]) == {0};
  }

  lemma SkippingIsTidy()
    ensures Tidy(Block(Skipping().body), {} + ParamNames([]), map[])
  {
    var body := Skipping().body;
    SkippingPrefixes();
    assert Returns(body[0], map[]);
    assert AllTidy(body[..1], {} + ParamNames([]), map[]);
    assert body[..2][0] == body[0] && !Visits(body[..2], 1, map[]);
    assert AllTidy(body[..2], {} + ParamNames([]), map[]);
    assert !Visits(body, 2, map[]);
  }

  /** An accepted function that is not generated, although nothing it skips jumps. */
  lemma AcceptedButNotGenerated()
    ensures CleanFunction(Skipping(), true, {}, map[]) && Tree(Skipping(), map[]) && IrGen.TopLevelOpen(Skipping().body)
    ensures SkippedIsGenerable(Block(Skipping().body), false, map[]) && !SkippedIsSilent(Block(Skipping().body), map[])
  {
    hide AllDistinct, Arith, Tidy;
    var body := Skipping().body;
    var first, second, third := body[0], body[1], body[2];
    SkippingPrefixes();
    assert Returns(first, map[]) && Shapes.Comes(body, 2) && !Silent(third);
    assert !Visits(body, 1, map[]) && !Visits(body, 2, map[]);
    SkippingIsTree();
    SkippingIsTidy();
  }
}
