/** What the recursive-descent parser computes, as functions of the tokens that are left, and the proof that it
    accepts exactly the grammar of `Syntax` and builds the tree that the grammar gives. */
module Parsing {
  import Ast
  import Ir
  import opened Syntax

  /** A tree, the tokens after it, and whether no error has been reported. */
  datatype Parsed<T> = Parsed(value: T, rest: seq<Token>, ok: bool)

  /** The infix operator of level `p` that a token stands for. */
  function InfixAt(p: nat, t: Token): (r: Option<Ast.BinaryOp>)
    ensures r.Some? ==> InfixToken(r.value) == t && Level(r.value) == p
  {
    if Binds(t) == p then InfixOf(t) else Ir.None
  }

  function PrefixOf(t: Token): (r: Option<Ast.UnaryOp>)
    ensures r.Some? ==> PrefixToken(r.value) == t
  {
    match t
    case Plus => Ir.Some(Ast.Plus)
    case Minus => Ir.Some(Ast.Minus)
    case Not => Ir.Some(Ast.Not)
    case _ => Ir.None
  }

  /** Consume the token if it is the expected one; report an error if not. */
  function Expect(t: Token, ts: seq<Token>, ok: bool): (r: (seq<Token>, bool))
    ensures |r.0| <= |ts|
    ensures r.1 ==> ok && (t == EndOfFile || |r.0| < |ts|)
  {
    if Head(ts) == t then (if ts == [] then [] else ts[1..], ok) else (ts, false)
  }

  function ExpectName(ts: seq<Token>, ok: bool): (r: (string, seq<Token>, bool))
    ensures |r.1| <= |ts|
    ensures r.2 ==> ok && |r.1| < |ts|
  {
    if Head(ts).Name? then (ts[0].name, ts[1..], ok) else (Lexeme(Head(ts)), ts, false)
  }

  // ---------------------------------------------------------------- expressions

  /** An expression of level `p`: 0 is `||`, 4 is a product, 5 is unary. */
  function ParseExpr(p: nat, ts: seq<Token>): (r: Parsed<Expr>)
    requires p <= 5
    ensures |r.rest| <= |ts|
    ensures r.ok ==> |r.rest| < |ts|
    decreases |ts|, 10 - p
  {
    if p == 5 then ParseUnary(ts)
    else
      var l := ParseExpr(p + 1, ts);
      ParseFrom(p, l.value, l.rest, l.ok)
  }

  /** The operators of level `p` that follow a left operand. */
  function ParseFrom(p: nat, left: Expr, ts: seq<Token>, ok: bool): (r: Parsed<Expr>)
    requires p <= 4
    ensures |r.rest| <= |ts|
    ensures r.ok ==> ok
    decreases |ts|, 0
  {
    match InfixAt(p, Head(ts))
    case None => Parsed(left, ts, ok)
    case Some(op) =>
      var r := ParseExpr(p + 1, ts[1..]);
      ParseFrom(p, Binary(op, left, r.value), r.rest, ok && r.ok)
  }

  function ParseUnary(ts: seq<Token>): (r: Parsed<Expr>)
    ensures |r.rest| <= |ts|
    ensures r.ok ==> |r.rest| < |ts|
    decreases |ts|, 2
  {
    match PrefixOf(Head(ts))
    case Some(op) =>
      var a := ParseUnary(ts[1..]);
      Parsed(Unary(op, a.value), a.rest, a.ok)
    case None => ParsePrimary(ts)
  }

  function ParsePrimary(ts: seq<Token>): (r: Parsed<Expr>)
    ensures |r.rest| <= |ts|
    ensures r.ok ==> |r.rest| < |ts|
    decreases |ts|, 1
  {
    match Head(ts)
    case Number(s) => Parsed(IntLiteral(s), ts[1..], true)
    case LParen =>
      var e := ParseExpr(0, ts[1..]);
      var (rest, ok) := Expect(RParen, e.rest, e.ok);
      Parsed(e.value, rest, ok)
    case Name(x) => ParseNamed(x, ts[1..])
    case _ => Parsed(IntLiteral("0"), ts, false)
  }

  /** A call or a variable, after its name. */
  function ParseNamed(x: string, ts: seq<Token>): (r: Parsed<Expr>)
    ensures |r.rest| <= |ts|
    decreases |ts|, 1
  {
    if Head(ts) == LParen then
      var args := ParseArgs(ts[1..]);
      Parsed(Call(x, args.value), args.rest, args.ok)
    else Parsed(Ident(x), ts, true)
  }

  /** The arguments of a call, after the opening parenthesis. */
  function ParseArgs(ts: seq<Token>): (r: Parsed<seq<Expr>>)
    ensures |r.rest| <= |ts|
    decreases |ts|, 11
  {
    if Head(ts) == RParen then Parsed([], ts[1..], true)
    else
      var first := ParseExpr(0, ts);
      var args := ParseMoreArgs([first.value], first.rest, first.ok);
      var (rest, ok) := Expect(RParen, args.rest, args.ok);
      Parsed(args.value, rest, ok)
  }

  function ParseMoreArgs(done: seq<Expr>, ts: seq<Token>, ok: bool): (r: Parsed<seq<Expr>>)
    ensures |r.rest| <= |ts|
    ensures r.ok ==> ok
    decreases |ts|, 0
  {
    if Head(ts) == Comma then
      var e := ParseExpr(0, ts[1..]);
      ParseMoreArgs(done + [e.value], e.rest, ok && e.ok)
    else Parsed(done, ts, ok)
  }

  // ---------------------------------------------------------------- statements

  /** `= e ;` after a name. */
  function ParseInit(ts: seq<Token>, ok: bool): (r: Parsed<Expr>)
    ensures |r.rest| <= |ts|
    ensures r.ok ==> ok
  {
    var (after, ok1) := Expect(Assign, ts, ok);
    Ended(ParseExpr(0, after), ok1)
  }

  /** `const int x = e ;` */
  function ParseConst(ts: seq<Token>, ok: bool): (r: Parsed<(string, Expr)>)
    requires Head(ts) == KwConst
    ensures |r.rest| < |ts|
    ensures r.ok ==> ok
  {
    var (ts1, ok1) := Expect(KwInt, ts[1..], ok);
    var (x, ts2, ok2) := ExpectName(ts1, ok1);
    var e := ParseInit(ts2, ok2);
    Parsed((x, e.value), e.rest, e.ok)
  }

  /** `( e )` after `if` or `while`. */
  function ParseCond(ts: seq<Token>, ok: bool): (r: Parsed<Expr>)
    ensures |r.rest| <= |ts|
    ensures r.ok ==> ok
  {
    var (after, ok1) := Expect(LParen, ts, ok);
    var e := ParseExpr(0, after);
    var (rest, ok2) := Expect(RParen, e.rest, ok1 && e.ok);
    Parsed(e.value, rest, ok2)
  }

  /** An expression statement that starts with a name: the tightest operators first. */
  function ParseFromName(x: string, ts: seq<Token>): (r: Parsed<Expr>)
    ensures |r.rest| <= |ts|
  {
    var a := ParseNamed(x, ts);
    var r4 := ParseFrom(4, a.value, a.rest, a.ok);
    var r3 := ParseFrom(3, r4.value, r4.rest, r4.ok);
    var r2 := ParseFrom(2, r3.value, r3.rest, r3.ok);
    var r1 := ParseFrom(1, r2.value, r2.rest, r2.ok);
    ParseFrom(0, r1.value, r1.rest, r1.ok)
  }

  /** The `;` after an expression. */
  function Ended(e: Parsed<Expr>, ok: bool): (r: Parsed<Expr>)
    ensures |r.rest| <= |e.rest|
    ensures r.ok ==> ok && e.ok && |r.rest| < |e.rest|
  {
    var (rest, ok1) := Expect(Semicolon, e.rest, ok && e.ok);
    Parsed(e.value, rest, ok1)
  }

  /** After `return`. */
  function ParseReturn(ts: seq<Token>, ok: bool): (r: Parsed<Stmt<Expr>>)
    ensures |r.rest| <= |ts|
    ensures r.ok ==> ok && |r.rest| < |ts|
  {
    if Head(ts) == Semicolon then Parsed(Return(Ir.None), ts[1..], ok)
    else
      var e := Ended(ParseExpr(0, ts), ok);
      Parsed(Return(Ir.Some(e.value)), e.rest, e.ok)
  }

  function ParseStmt(ts: seq<Token>, ok: bool): (r: Parsed<Stmt<Expr>>)
    ensures |r.rest| <= |ts|
    ensures r.ok ==> ok && |r.rest| < |ts|
    decreases |ts|, 2
  {
    match Head(ts)
    case LBrace =>
      var b := ParseBlock(ts, ok);
      Parsed(Block(b.value), b.rest, b.ok)
    case Semicolon => Parsed(Empty, ts[1..], ok)
    case KwConst =>
      var d := ParseConst(ts, ok);
      Parsed(ConstDecl(d.value.0, d.value.1), d.rest, d.ok)
    case KwInt =>
      var (x, ts1, ok1) := ExpectName(ts[1..], ok);
      var e := ParseInit(ts1, ok1);
      Parsed(VarDecl(x, e.value), e.rest, e.ok)
    case KwIf => ParseIf(ts[1..], ok)
    case KwWhile => ParseWhile(ts[1..], ok)
    case KwBreak =>
      var (rest, ok1) := Expect(Semicolon, ts[1..], ok);
      Parsed(Break, rest, ok1)
    case KwContinue =>
      var (rest, ok1) := Expect(Semicolon, ts[1..], ok);
      Parsed(Continue, rest, ok1)
    case KwReturn => ParseReturn(ts[1..], ok)
    case Name(x) =>
      if Head(ts[1..]) == Assign then
        var e := Ended(ParseExpr(0, ts[2..]), ok);
        Parsed(AssignStmt(x, e.value), e.rest, e.ok)
      else
        var e := Ended(ParseFromName(x, ts[1..]), ok);
        Parsed(ExprStmt(e.value), e.rest, e.ok)
    case _ =>
      var e := Ended(ParseExpr(0, ts), ok);
      Parsed(ExprStmt(e.value), e.rest, e.ok)
  }

  /** After `if`. */
  function ParseIf(ts: seq<Token>, ok: bool): (r: Parsed<Stmt<Expr>>)
    ensures |r.rest| <= |ts|
    ensures r.ok ==> ok && |r.rest| < |ts|
    decreases |ts|, 4
  {
    var c := ParseCond(ts, ok);
    var a := ParseStmt(c.rest, c.ok);
    if Head(a.rest) == KwElse then
      var b := ParseStmt(a.rest[1..], a.ok);
      Parsed(If(c.value, a.value, Ir.Some(b.value)), b.rest, b.ok)
    else Parsed(If(c.value, a.value, Ir.None), a.rest, a.ok)
  }

  /** After `while`. */
  function ParseWhile(ts: seq<Token>, ok: bool): (r: Parsed<Stmt<Expr>>)
    ensures |r.rest| <= |ts|
    ensures r.ok ==> ok && |r.rest| < |ts|
    decreases |ts|, 4
  {
    var c := ParseCond(ts, ok);
    var a := ParseStmt(c.rest, c.ok);
    Parsed(While(c.value, a.value), a.rest, a.ok)
  }

  function ParseBlock(ts: seq<Token>, ok: bool): (r: Parsed<seq<Stmt<Expr>>>)
    ensures |r.rest| <= |ts|
    ensures r.ok ==> ok && |r.rest| < |ts|
    decreases |ts|, 1
  {
    var (inside, ok1) := Expect(LBrace, ts, ok);
    var b := ParseBody([], inside, ok1);
    var (rest, ok2) := Expect(RBrace, b.rest, b.ok);
    Parsed(b.value, rest, ok2)
  }

  predicate Ends(t: Token) {
    t == EndOfFile || t.Invalid?
  }

  /** The statements of a block; the first error ends it. */
  function ParseBody(done: seq<Stmt<Expr>>, ts: seq<Token>, ok: bool): (r: Parsed<seq<Stmt<Expr>>>)
    ensures |r.rest| <= |ts|
    ensures r.ok ==> ok
    decreases |ts|, if ok then 3 else 0
  {
    if Head(ts) == RBrace || Ends(Head(ts)) || !ok then Parsed(done, ts, ok)
    else
      var s := ParseStmt(ts, ok);
      ParseBody(done + [s.value], s.rest, s.ok)
  }

  // ---------------------------------------------------------------- declarations

  function ParseParam(ts: seq<Token>, ok: bool): (r: Parsed<string>)
    ensures |r.rest| <= |ts|
    ensures r.ok ==> ok
  {
    var (ts1, ok1) := Expect(KwInt, ts, ok);
    var (x, rest, ok2) := ExpectName(ts1, ok1);
    Parsed(x, rest, ok2)
  }

  function ParseMoreParams(done: seq<string>, ts: seq<Token>, ok: bool): (r: Parsed<seq<string>>)
    ensures |r.rest| <= |ts|
    ensures r.ok ==> ok
    decreases |ts|
  {
    if Head(ts) == Comma then
      var x := ParseParam(ts[1..], ok);
      ParseMoreParams(done + [x.value], x.rest, x.ok)
    else Parsed(done, ts, ok)
  }

  function ParseParams(ts: seq<Token>, ok: bool): (r: Parsed<seq<string>>)
    ensures |r.rest| <= |ts|
    ensures r.ok ==> ok
  {
    if Head(ts) == RParen then Parsed([], ts, ok)
    else
      var x := ParseParam(ts, ok);
      ParseMoreParams([x.value], x.rest, x.ok)
  }

  /** The parameters and the body, after the name of a function. */
  function ParseFuncDef(isInt: bool, name: string, ts: seq<Token>, ok: bool): (r: Parsed<Item<Expr>>)
    ensures |r.rest| <= |ts|
    ensures r.ok ==> ok
  {
    var (ts1, ok1) := Expect(LParen, ts, ok);
    var ps := ParseParams(ts1, ok1);
    var (ts2, ok2) := Expect(RParen, ps.rest, ps.ok);
    var body := ParseBlock(ts2, ok2);
    Parsed(Function(isInt, name, ps.value, body.value), body.rest, body.ok)
  }

  function ParseItem(ts: seq<Token>, ok: bool): (r: Parsed<Item<Expr>>)
    ensures |r.rest| <= |ts|
    ensures r.ok ==> ok && |r.rest| < |ts|
  {
    match Head(ts)
    case KwConst =>
      var d := ParseConst(ts, ok);
      Parsed(GlobalConst(d.value.0, d.value.1), d.rest, d.ok)
    case KwInt =>
      var (x, ts1, ok1) := ExpectName(ts[1..], ok);
      if Head(ts1) == Assign then
        var e := ParseInit(ts1, ok1);
        Parsed(GlobalVar(x, e.value), e.rest, e.ok)
      else if Head(ts1) == LParen then ParseFuncDef(true, x, ts1, ok1)
      else Parsed(NoItem, ts1, false)
    case KwVoid =>
      var (x, ts1, ok1) := ExpectName(ts[1..], ok);
      ParseFuncDef(false, x, ts1, ok1)
    case _ => Parsed(NoItem, ts, false)
  }

  function ParseItems(done: seq<Item<Expr>>, ts: seq<Token>, ok: bool): (r: Parsed<seq<Item<Expr>>>)
    ensures |r.rest| <= |ts|
    ensures r.ok ==> ok
    decreases |ts|, ok
  {
    if Ends(Head(ts)) || !ok then Parsed(done, ts, ok)
    else
      var x := ParseItem(ts, ok);
      ParseItems(done + [x.value], x.rest, x.ok)
  }

  /** A whole file. */
  function ParseUnit(ts: seq<Token>): Parsed<seq<Item<Expr>>> {
    var items := ParseItems([], ts, true);
    if items.ok then
      var (rest, ok) := Expect(EndOfFile, items.rest, true);
      Parsed(items.value, rest, ok)
    else items
  }

  // ---------------------------------------------------------------- every tree that fits is parsed

  /** The tokens after an expression of level `p`: nothing that would extend it. */
  predicate Follows(p: nat, ts: seq<Token>) {
    Binds(Head(ts)) < p && Head(ts) != LParen
  }

  /** A tree that fits level `p` is read as a left operand of the operators of level `p` that follow it. */
  lemma {:induction false} FitIsParsed(t: Tree, p: nat, after: seq<Token>)
    requires hide *; p <= 4 && Fits(t, p) && Follows(p + 1, after)
    ensures ParseExpr(p, Flatten(t, after)) == ParseFrom(p, Erase(t), after, true)
    decreases t, 7 - p
  {
    hide Flatten, Erase, ParseFrom, ParseExpr;
    FromTighter(p, Flatten(t, after));
    if Rank(t) == p {
      InfixIsParsed(t, after);
    } else if p == 4 {
      UnaryIsParsed(t, after);
    } else {
      FitIsParsed(t, p + 1, after);
      LoopStep(p + 1, Erase(t), after, true);
    }
  }

  lemma FromTighter(p: nat, ts: seq<Token>)
    requires hide *; p <= 4
    ensures var l := ParseExpr(p + 1, ts); ParseExpr(p, ts) == ParseFrom(p, l.value, l.rest, l.ok)
  {
    hide ParseFrom, ParseUnary;
  }

  lemma LoopStep(p: nat, left: Expr, ts: seq<Token>, ok: bool)
    requires hide *; p <= 4
    ensures Binds(Head(ts)) != p ==> ParseFrom(p, left, ts, ok) == Parsed(left, ts, ok)
    ensures Binds(Head(ts)) == p ==> InfixOf(Head(ts)).Some? && ts != [] && var r := ParseExpr(p + 1, ts[1..]);
      ParseFrom(p, left, ts, ok) == ParseFrom(p, Binary(InfixOf(Head(ts)).value, left, r.value), r.rest, ok && r.ok)
  {
    hide InfixToken, Level, ParseExpr;
  }

  lemma {:induction false} InfixIsParsed(t: Tree, after: seq<Token>)
    requires hide *; t.Infix? && Fits(t, Level(t.op)) && Follows(Level(t.op) + 1, after)
    ensures ParseExpr(Level(t.op), Flatten(t, after)) == ParseFrom(Level(t.op), Erase(t), after, true)
    decreases t, 0
  {
    hide ParseExpr, ParseFrom, Level, InfixOf, InfixToken, Follows;
    var p := Level(t.op);
    var right := Flatten(t.right, after);
    InfixFollows(t.op, right);
    FitIsParsed(t.left, p, [InfixToken(t.op)] + right);
    TreeIsParsed(t.right, p + 1, after);
    OneMoreInfix(t.op, Erase(t.left), right);
  }

  lemma InfixFollows(op: Ast.BinaryOp, ts: seq<Token>)
    ensures Follows(Level(op) + 1, [InfixToken(op)] + ts)
  {
  }

  lemma OneMoreInfix(op: Ast.BinaryOp, left: Expr, ts: seq<Token>)
    ensures hide InfixToken, ParseExpr, ParseFrom; var r := ParseExpr(Level(op) + 1, ts);
      ParseFrom(Level(op), left, [InfixToken(op)] + ts, true)
        == ParseFrom(Level(op), Binary(op, left, r.value), r.rest, r.ok)
  {
    hide ParseExpr, ParseFrom;
    InfixOfToken(op);
    LoopStep(Level(op), left, [InfixToken(op)] + ts, true);
  }

  lemma LiteralIsParsed(s: string, after: seq<Token>)
    ensures hide *; ParseExpr(5, [Number(s)] + after) == Parsed(IntLiteral(s), after, true)
  {
    assert ParseUnary([Number(s)] + after) == ParsePrimary([Number(s)] + after);
  }

  lemma NameStep(x: string, ts: seq<Token>)
    ensures hide *; ParseExpr(5, [Token.Name(x)] + ts) == ParseNamed(x, ts)
  {
    hide Expect, ParseFrom, ParseNamed;
    var whole := [Token.Name(x)] + ts;
    assert ParsePrimary(whole) == ParseNamed(x, ts);
    assert ParseUnary(whole) == ParsePrimary(whole);
  }

  lemma PrefixIsParsed(op: Ast.UnaryOp, ts: seq<Token>)
    ensures hide *;
            var a := ParseExpr(5, ts); ParseExpr(5, [PrefixToken(op)] + ts) == Parsed(Unary(op, a.value), a.rest, a.ok)
  {
    assert ([PrefixToken(op)] + ts)[1..] == ts;
  }

  lemma NamedIsParsed(x: string, ts: seq<Token>)
    ensures Head(ts) != LParen ==> ParseNamed(x, ts) == Parsed(Ident(x), ts, true)
    ensures var a := ParseArgs(ts); ParseNamed(x, [LParen] + ts) == Parsed(Call(x, a.value), a.rest, a.ok)
  {
    hide ParseArgs;
    assert ([LParen] + ts)[1..] == ts;
  }

  lemma ParenIsParsed(e: Expr, ts: seq<Token>, after: seq<Token>)
    requires hide *; ParseExpr(0, ts) == Parsed(e, [RParen] + after, true)
    ensures ParseExpr(5, [LParen] + ts) == Parsed(e, after, true)
  {
    hide ParseFrom, ParseNamed;
    var whole := [LParen] + ts;
    assert ParsePrimary(whole) == Parsed(e, after, true);
    assert ParseUnary(whole) == ParsePrimary(whole);
  }

  lemma {:induction false} UnaryIsParsed(t: Tree, after: seq<Token>)
    requires hide *; Fits(t, 5) && Head(after) != LParen
    ensures ParseExpr(5, Flatten(t, after)) == Parsed(Erase(t), after, true)
    decreases t, 1
  {
    hide ParseExpr, ParseArgs, Binds, ParseNamed;
    match t
    case Literal(s) => LiteralIsParsed(s, after);
    case Variable(x) =>
      NameStep(x, after);
      NamedIsParsed(x, after);
    case Prefix(op, a) =>
      UnaryIsParsed(a, after);
      PrefixIsParsed(op, Flatten(a, after));
    case Apply(f, args) =>
      var inside := FlattenArgs(args, [RParen] + after);
      ArgsAreParsed(args, after);
      NameStep(f, [LParen] + inside);
      NamedIsParsed(f, inside);
    case Paren(a) =>
      CommaEnds([RParen] + after);
      TreeIsParsed(a, 0, [RParen] + after);
      ParenIsParsed(Erase(a), Flatten(a, [RParen] + after), after);
  }

  /** Every tree that fits is parsed back, and what follows it is left. */
  lemma {:induction false} TreeIsParsed(t: Tree, p: nat, after: seq<Token>)
    requires hide *; p <= 5 && Fits(t, p) && Follows(p, after)
    ensures ParseExpr(p, Flatten(t, after)) == Parsed(Erase(t), after, true)
    decreases t, 8
  {
    hide Flatten, Erase, ParseFrom, ParseExpr;
    if p == 5 {
      UnaryIsParsed(t, after);
    } else {
      FitIsParsed(t, p, after);
      LoopStep(p, Erase(t), after, true);
    }
  }

  lemma {:induction false} ArgsAreParsed(args: seq<Tree>, after: seq<Token>)
    requires FitsAll(args)
    ensures ParseArgs(FlattenArgs(args, [RParen] + after)) == Parsed(EraseAll(args), after, true)
    decreases args, 9
  {
    hide FitsAll, ParseExpr, ParseMoreArgs, Flatten, Erase;
    if args != [] {
      CommaEnds([RParen] + after);
      hide FlattenArgs, EraseAll;
      MoreArgsAreParsed(args, [RParen] + after);
      ArgsStep(EraseAll(args), [RParen] + after, true);
      var ts := FlattenArgs(args, [RParen] + after);
      MoreArgsAreOk([ParseExpr(0, ts).value], ParseExpr(0, ts).rest, ParseExpr(0, ts).ok);
      StartOfExpr(0, ts);
    }
  }

  lemma MoreArgsAreOk(done: seq<Expr>, ts: seq<Token>, ok: bool)
    requires ParseMoreArgs(done, ts, ok).ok
    ensures ok
  {
    hide *;
  }

  /** A list of arguments up to some point of it, as the loop over the commas sees it. */
  lemma {:induction false} MoreArgsAreParsed(args: seq<Tree>, after: seq<Token>)
    requires hide *; args != [] && FitsAll(args) && Follows(0, after)
    ensures ParseSomeArgs(FlattenArgs(args, after)) == ParseMoreArgs(EraseAll(args), after, true)
    decreases args, 8
  {
    hide *;
    var n := |args| - 1;
    LastArg(args, after);
    TreeIsParsed(args[n], 0, after);
    if n == 0 {
      FirstArg(Flatten(args[0], after));
    } else {
      var tail := [Comma] + Flatten(args[n], after);
      CommaEnds(tail);
      MoreArgsAreParsed(args[..n], tail);
      OneMoreArg(EraseAll(args[..n]), Flatten(args[n], after));
    }
  }

  lemma LastArg(args: seq<Tree>, after: seq<Token>)
    requires hide *; args != [] && FitsAll(args)
    ensures var n := |args| - 1;
      && Fits(args[n], 0) && FitsAll(args[..n])
      && EraseAll(args) == EraseAll(args[..n]) + [Erase(args[n])]
      && if n == 0 then FlattenArgs(args, after) == Flatten(args[0], after) && EraseAll(args) == [Erase(args[0])]
         else FlattenArgs(args, after) == FlattenArgs(args[..n], [Comma] + Flatten(args[n], after))
  {
  }

  lemma FirstArg(ts: seq<Token>)
    ensures hide *; var e := ParseExpr(0, ts); ParseSomeArgs(ts) == ParseMoreArgs([e.value], e.rest, e.ok)
  {
    hide ParseExpr, ParseMoreArgs;
  }

  lemma OneMoreArg(done: seq<Expr>, ts: seq<Token>)
    ensures hide *; var e := ParseExpr(0, ts);
      ParseMoreArgs(done, [Comma] + ts, true) == ParseMoreArgs(done + [e.value], e.rest, e.ok)
  {
    hide ParseExpr;
    assert ([Comma] + ts)[1..] == ts;
  }

  lemma ArgsStep(done: seq<Expr>, ts: seq<Token>, ok: bool)
    ensures hide ParseExpr, ParseMoreArgs; Head(ts) != Comma ==> ParseMoreArgs(done, ts, ok) == Parsed(done, ts, ok)
    ensures Head(ts) == Comma ==> var e := ParseExpr(0, ts[1..]);
      ParseMoreArgs(done, ts, ok) == ParseMoreArgs(done + [e.value], e.rest, ok && e.ok)
  {
    hide ParseExpr;
  }

  /** The arguments up to the closing parenthesis. */
  function ParseSomeArgs(ts: seq<Token>): Parsed<seq<Expr>> {
    var first := ParseExpr(0, ts);
    ParseMoreArgs([first.value], first.rest, first.ok)
  }

  lemma CommaEnds(ts: seq<Token>)
    requires hide *; ts != [] && (ts[0] == Comma || ts[0] == RParen || ts[0] == Semicolon)
    ensures Follows(0, ts)
  {
  }

  /** The tokens an expression may start with. */
  predicate Starts(t: Token) {
    t.Number? || t.Name? || t == LParen || PrefixOf(t).Some?
  }

  lemma {:induction false} StartOfExpr(p: nat, ts: seq<Token>)
    requires hide *; p <= 5 && ParseExpr(p, ts).ok
    ensures Starts(Head(ts))
    decreases 5 - p
  {
    if p < 5 {
      StartOfExpr(p + 1, ts);
    } else {
      assert ParseUnary(ts).ok;
      if PrefixOf(Head(ts)).None? {
        assert ParsePrimary(ts).ok;
      }
    }
  }

  // ---------------------------------------------------------------- what is parsed is a tree that fits

  /** Without an error, the tokens consumed are those of a tree that fits, and the parser took all it could. */
  lemma {:induction false} ParsedFits(p: nat, ts: seq<Token>) returns (t: Tree)
    requires hide *; p <= 5 && ParseExpr(p, ts).ok
    ensures var r := ParseExpr(p, ts);
      Fits(t, p) && Erase(t) == r.value && ts == Flatten(t, r.rest) && Binds(Head(r.rest)) < p
    decreases |ts|, 10 - p
  {
    hide Binds, Erase, Fits, Flatten, ParseFrom, ParseUnary;
    if p == 5 {
      t := ParsedUnaryFits(ts);
      BindsBelow(Head(ParseExpr(p, ts).rest));
    } else {
      var l := ParseExpr(p + 1, ts);
      var left := ParsedFits(p + 1, ts);
      LowerFits(left, p);
      t := ParsedFromFits(p, left, l.rest);
    }
  }

  lemma BindsBelow(t: Token)
    ensures Binds(t) < 5
  {
  }

  lemma LowerFits(t: Tree, p: nat)
    requires Fits(t, p + 1)
    ensures Fits(t, p)
  {
  }

  lemma InfixFits(op: Ast.BinaryOp, l: Tree, r: Tree)
    requires Fits(l, Level(op)) && Fits(r, Level(op) + 1)
    ensures var t := Infix(op, l, r);
      Fits(t, Level(op)) && Erase(t) == Binary(op, Erase(l), Erase(r))
  {
  }

  lemma {:induction false} ParsedFromFits(p: nat, left: Tree, ts: seq<Token>) returns (t: Tree)
    requires hide *; p <= 4 && Fits(left, p) && Binds(Head(ts)) <= p && ParseFrom(p, Erase(left), ts, true).ok
    ensures var r := ParseFrom(p, Erase(left), ts, true);
      Fits(t, p) && Erase(t) == r.value && Flatten(left, ts) == Flatten(t, r.rest) && Binds(Head(r.rest)) < p
    decreases |ts|, 0
  {
    hide Erase, Fits, Flatten, InfixToken, Level, ParseExpr;
    match InfixAt(p, Head(ts))
    case None => t := left;
    case Some(op) =>
      var r := ParseExpr(p + 1, ts[1..]);
      OkFrom(p, Binary(op, Erase(left), r.value), r.rest, r.ok);
      var right := ParsedFits(p + 1, ts[1..]);
      InfixFits(op, left, right);
      InfixTokens(op, left, right, r.rest);
      assert ts == [InfixToken(op)] + ts[1..];
      t := ParsedFromFits(p, Infix(op, left, right), r.rest);
  }

  lemma InfixTokens(op: Ast.BinaryOp, l: Tree, r: Tree, after: seq<Token>)
    ensures Flatten(Infix(op, l, r), after) == Flatten(l, [InfixToken(op)] + Flatten(r, after))
  {
  }

  lemma OkFrom(p: nat, left: Expr, ts: seq<Token>, ok: bool)
    requires hide *; p <= 4 && ParseFrom(p, left, ts, ok).ok
    ensures ok
  {
    hide *;
  }

  /** An error before an expression changes nothing but the report. */
  lemma {:induction false} ErrorBefore(p: nat, left: Expr, ts: seq<Token>, ok: bool)
    requires hide *; p <= 4
    ensures var r := ParseFrom(p, left, ts, true); ParseFrom(p, left, ts, ok) == r.(ok := ok && r.ok)
    decreases |ts|
  {
    hide InfixToken, Level, ParseExpr;
    match InfixAt(p, Head(ts))
    case None =>
    case Some(op) =>
      var r := ParseExpr(p + 1, ts[1..]);
      ErrorBefore(p, Binary(op, left, r.value), r.rest, r.ok);
      ErrorBefore(p, Binary(op, left, r.value), r.rest, ok && r.ok);
  }

  lemma {:induction false} ErrorBeforeArgs(done: seq<Expr>, ts: seq<Token>, ok: bool)
    ensures var r := ParseMoreArgs(done, ts, true); ParseMoreArgs(done, ts, ok) == r.(ok := ok && r.ok)
    decreases |ts|
  {
    hide ParseExpr;
    if Head(ts) == Comma {
      var e := ParseExpr(0, ts[1..]);
      ErrorBeforeArgs(done + [e.value], e.rest, e.ok);
      ErrorBeforeArgs(done + [e.value], e.rest, ok && e.ok);
    }
  }

  /** A rule is its tighter rule and the operators after it. */
  lemma RuleIsLoop(p: nat, ts: seq<Token>, ok: bool)
    requires hide *; p <= 4
    ensures var l := ParseExpr(p + 1, ts); var r := ParseExpr(p, ts);
      ParseFrom(p, l.value, l.rest, ok && l.ok) == r.(ok := ok && r.ok)
  {
    hide ParseFrom, ParseUnary;
    var l := ParseExpr(p + 1, ts);
    ErrorBefore(p, l.value, l.rest, l.ok);
    ErrorBefore(p, l.value, l.rest, ok && l.ok);
  }

  lemma LevelIs(t: Token)
    ensures Binds(t) == 0 <==> t == Or
    ensures Binds(t) == 1 <==> t == And
    ensures Binds(t) == 2 <==> t == Lt || t == Le || t == Gt || t == Ge || t == Eq || t == Ne
    ensures Binds(t) == 3 <==> t == Plus || t == Minus
    ensures Binds(t) == 4 <==> t == Mul || t == Div || t == Mod
  {
  }

  lemma ArgsAreLoop(ts: seq<Token>, ok: bool)
    requires hide *; Head(ts) != RParen
    ensures var first := ParseExpr(0, ts);
      var more := ParseMoreArgs([first.value], first.rest, ok && first.ok);
      var (rest, closed) := Expect(RParen, more.rest, more.ok);
      var r := ParseArgs(ts);
      r.value == more.value && r.rest == rest && (ok && r.ok) == closed
  {
    hide ParseExpr, ParseMoreArgs;
    var first := ParseExpr(0, ts);
    ErrorBeforeArgs([first.value], first.rest, first.ok);
    ErrorBeforeArgs([first.value], first.rest, ok && first.ok);
  }

  lemma ErrorBeforeName(x: string, ts: seq<Token>, ok: bool)
    ensures hide *; var a := ParseNamed(x, ts); var r := ParseFromName(x, ts);
      var r4 := ParseFrom(4, a.value, a.rest, ok && a.ok);
      var r3 := ParseFrom(3, r4.value, r4.rest, r4.ok);
      var r2 := ParseFrom(2, r3.value, r3.rest, r3.ok);
      var r1 := ParseFrom(1, r2.value, r2.rest, r2.ok);
      ParseFrom(0, r1.value, r1.rest, r1.ok) == r.(ok := ok && r.ok)
  {
    hide ParseFrom, ParseNamed;
    var a := ParseNamed(x, ts);
    var r4 := BothErrors(4, a, ok);
    var r3 := BothErrors(3, r4, ok);
    var r2 := BothErrors(2, r3, ok);
    var r1 := BothErrors(1, r2, ok);
    var r0 := BothErrors(0, r1, ok);
  }

  lemma BothErrors(p: nat, left: Parsed<Expr>, ok: bool) returns (r: Parsed<Expr>)
    requires hide *; p <= 4
    ensures r == ParseFrom(p, left.value, left.rest, left.ok)
    ensures ParseFrom(p, left.value, left.rest, ok && left.ok) == r.(ok := ok && r.ok)
  {
    hide *;
    r := ParseFrom(p, left.value, left.rest, left.ok);
    ErrorBefore(p, left.value, left.rest, left.ok);
    ErrorBefore(p, left.value, left.rest, ok && left.ok);
  }

  lemma UnaryStep(ts: seq<Token>)
    ensures hide ParseExpr, ParsePrimary; ParseExpr(5, ts) == if PrefixOf(Head(ts)).None? then ParsePrimary(ts) else
      var a := ParseExpr(5, ts[1..]); Parsed(Unary(PrefixOf(Head(ts)).value, a.value), a.rest, a.ok)
  {
    hide ParseFrom, ParsePrimary, PrefixOf;
  }

  lemma {:induction false} ParsedUnaryFits(ts: seq<Token>) returns (t: Tree)
    requires hide *; ParseUnary(ts).ok
    ensures var r := ParseUnary(ts); Fits(t, 5) && Erase(t) == r.value && ts == Flatten(t, r.rest)
    decreases |ts|, 2
  {
    match PrefixOf(Head(ts))
    case Some(op) =>
      var a := ParsedUnaryFits(ts[1..]);
      t := Prefix(op, a);
      assert ts == [PrefixToken(op)] + ts[1..];
    case None => t := ParsedPrimaryFits(ts);
  }

  /** An expectation that was met. */
  lemma Met(t: Token, ts: seq<Token>, ok: bool)
    requires Expect(t, ts, ok).1 && t != EndOfFile
    ensures ok && ts == [t] + Expect(t, ts, ok).0
  {
  }

  lemma MetName(ts: seq<Token>, ok: bool)
    requires ExpectName(ts, ok).2
    ensures ok && ts == [Token.Name(ExpectName(ts, ok).0)] + ExpectName(ts, ok).1
  {
  }

  lemma {:induction false} ParsedPrimaryFits(ts: seq<Token>) returns (t: Tree)
    requires hide *; ParsePrimary(ts).ok
    ensures var r := ParsePrimary(ts); Fits(t, 5) && Erase(t) == r.value && ts == Flatten(t, r.rest)
    decreases |ts|, 1
  {
    hide ParseExpr, ParseArgs, ParseNamed, Expect;
    match Head(ts)
    case Number(s) =>
      t := Literal(s);
      assert ts == [Number(s)] + ts[1..];
    case LParen =>
      var e := ParseExpr(0, ts[1..]);
      Met(RParen, e.rest, e.ok);
      var a := ParsedFits(0, ts[1..]);
      t := Paren(a);
      assert ts == [LParen] + ts[1..];
    case Name(x) =>
      assert ts == [Token.Name(x)] + ts[1..];
      t := ParsedNamedFits(x, ts[1..]);
    case _ =>
  }

  lemma {:induction false} ParsedNamedFits(x: string, ts: seq<Token>) returns (t: Tree)
    requires hide *; ParseNamed(x, ts).ok
    ensures var r := ParseNamed(x, ts); Fits(t, 5) && Erase(t) == r.value && [Token.Name(x)] + ts == Flatten(t, r.rest)
    decreases |ts|, 1
  {
    hide ParseArgs;
    if Head(ts) == LParen {
      assert ts == [LParen] + ts[1..];
      var args := ParsedArgsFit(ts[1..]);
      t := Apply(x, args);
    } else {
      t := Variable(x);
    }
  }

  lemma {:induction false} ParsedArgsFit(ts: seq<Token>) returns (args: seq<Tree>)
    requires ParseArgs(ts).ok
    ensures var r := ParseArgs(ts);
            FitsAll(args) && EraseAll(args) == r.value && ts == FlattenArgs(args, [RParen] + r.rest)
    decreases |ts|, 11
  {
    hide ParseExpr, ParseMoreArgs, Expect, Fits, Erase, Flatten;
    if Head(ts) == RParen {
      args := [];
      assert ts == [RParen] + ts[1..];
    } else {
      hide FitsAll, EraseAll, FlattenArgs;
      var first := ParseExpr(0, ts);
      var more := ParseMoreArgs([first.value], first.rest, first.ok);
      Met(RParen, more.rest, more.ok);
      OkMoreArgs([first.value], first.rest, first.ok);
      var t := ParsedFits(0, ts);
      SingleArg(t);
      args := ParsedMoreArgsFit([t], first.rest);
    }
  }

  lemma SingleArg(t: Tree)
    requires hide *; Fits(t, 0)
    ensures FitsAll([t]) && EraseAll([t]) == [Erase(t)] && forall after :: FlattenArgs([t], after) == Flatten(t, after)
  {
    hide Erase, Fits, Flatten;
    assert [t][..0] == [];
  }

  lemma SnocArg(args: seq<Tree>, t: Tree)
    requires hide *; args != [] && FitsAll(args) && Fits(t, 0)
    ensures FitsAll(args + [t]) && EraseAll(args + [t]) == EraseAll(args) + [Erase(t)]
    ensures forall after :: FlattenArgs(args + [t], after) == FlattenArgs(args, [Comma] + Flatten(t, after))
  {
    assert (args + [t])[..|args|] == args;
  }

  lemma {:induction false} ParsedMoreArgsFit(done: seq<Tree>, ts: seq<Token>) returns (args: seq<Tree>)
    requires done != [] && FitsAll(done) && ParseMoreArgs(EraseAll(done), ts, true).ok
    ensures var r := ParseMoreArgs(EraseAll(done), ts, true);
      FitsAll(args) && EraseAll(args) == r.value && FlattenArgs(done, ts) == FlattenArgs(args, r.rest)
    decreases |ts|, 0
  {
    hide Binds, Erase, Fits, Flatten, FlattenArgs, ParseExpr, FitsAll, EraseAll;
    if Head(ts) == Comma {
      var e := ParseExpr(0, ts[1..]);
      OkMoreArgs(EraseAll(done) + [e.value], e.rest, e.ok);
      var t := ParsedFits(0, ts[1..]);
      SnocArg(done, t);
      assert ts == [Comma] + ts[1..];
      args := ParsedMoreArgsFit(done + [t], e.rest);
    } else {
      args := done;
    }
  }

  lemma OkMoreArgs(done: seq<Expr>, ts: seq<Token>, ok: bool)
    requires ParseMoreArgs(done, ts, ok).ok
    ensures ok
  {
    hide *;
  }

  // ---------------------------------------------------------------- every statement that fits is parsed

  lemma {:induction false} TreeStarts(t: Tree, after: seq<Token>)
    ensures Starts(Head(Flatten(t, after)))
    decreases t
  {
    match t
    case Infix(op, l, r) => TreeStarts(l, [InfixToken(op)] + Flatten(r, after));
    case _ =>
  }

  /** The tokens that cannot start a statement. */
  predicate Closes(t: Token) {
    Ends(t) || t == RBrace || t == KwElse
  }

  lemma StmtStarts(s: Stmt<Tree>, after: seq<Token>)
    ensures !Closes(Head(FlattenStmt(s, after)))
  {
    hide Flatten, FlattenBody;
    if s.ExprStmt? {
      TreeStarts(s.expr, [Semicolon] + after);
    }
  }

  /** An expression and the token that ends it. */
  lemma ClosedIsParsed(t: Tree, end: Token, after: seq<Token>)
    requires hide *; Fits(t, 0) && (end == Semicolon || end == RParen)
    ensures var e := ParseExpr(0, Flatten(t, [end] + after));
      e == Parsed(Erase(t), [end] + after, true) && Expect(end, e.rest, true) == (after, true)
  {
    hide Erase, Fits, Flatten, Follows, ParseExpr;
    CommaEnds([end] + after);
    TreeIsParsed(t, 0, [end] + after);
  }

  lemma EndedIsParsed(t: Tree, after: seq<Token>)
    requires hide *; Fits(t, 0)
    ensures Ended(ParseExpr(0, Flatten(t, [Semicolon] + after)), true) == Parsed(Erase(t), after, true)
  {
    hide ParseExpr, Expect, Flatten;
    ClosedIsParsed(t, Semicolon, after);
  }

  lemma InitIsParsed(t: Tree, after: seq<Token>)
    requires hide *; Fits(t, 0)
    ensures ParseInit(FlattenInit(t, after), true) == Parsed(Erase(t), after, true)
  {
    hide ParseExpr, Ended, Flatten;
    EndedIsParsed(t, after);
  }

  lemma CondIsParsed(t: Tree, after: seq<Token>)
    requires hide *; Fits(t, 0)
    ensures ParseCond(FlattenCond(t, after), true) == Parsed(Erase(t), after, true)
  {
    hide ParseExpr, Flatten;
    ClosedIsParsed(t, RParen, after);
  }

  lemma ConstIsParsed(x: string, t: Tree, after: seq<Token>)
    requires hide Erase, Fits, FlattenInit, ParseConst; Fits(t, 0)
    ensures ParseConst(FlattenConst(x, t, after), true) == Parsed((x, Erase(t)), after, true)
  {
    hide ParseInit, FlattenInit;
    InitIsParsed(t, after);
  }

  /** The path for statements that start with a name builds the tree that parsing an expression builds. */
  lemma FromNameIsExpr(x: string, ts: seq<Token>)
    ensures hide *; ParseFromName(x, ts) == ParseExpr(0, [Token.Name(x)] + ts)
  {
    hide ParseFrom, ParseNamed, ParseExpr;
    var whole := [Token.Name(x)] + ts;
    NameStep(x, ts);
    FromTighter(4, whole);
    FromTighter(3, whole);
    FromTighter(2, whole);
    FromTighter(1, whole);
    FromTighter(0, whole);
  }

  /** After a name, `=` is never the start of the rest of an expression. */
  lemma NotAssigned(x: string, ts: seq<Token>)
    requires hide *; Head(ts) == Assign
    ensures ParseExpr(0, [Token.Name(x)] + ts) == Parsed(Ident(x), ts, true)
  {
    hide FlattenArgs, InfixToken, Level, ParseExpr;
    TreeIsParsed(Variable(x), 0, ts);
  }

  lemma ExprStmtIsParsed(t: Tree, after: seq<Token>)
    requires hide *; Fits(t, 0)
    ensures ParseStmt(Flatten(t, [Semicolon] + after), true) == Parsed(ExprStmt(Erase(t)), after, true)
  {
    hide ParseExpr, ParseFromName, Flatten, Fits, Ended;
    var ts := Flatten(t, [Semicolon] + after);
    EndedIsParsed(t, after);
    ClosedIsParsed(t, Semicolon, after);
    TreeStarts(t, [Semicolon] + after);
    if Head(ts).Name? {
      var x := Head(ts).name;
      assert ts == [Token.Name(x)] + ts[1..];
      FromNameIsExpr(x, ts[1..]);
      if Head(ts[1..]) == Assign {
        NotAssigned(x, ts[1..]);
        assert false;
      }
    }
  }

  lemma AssignIsParsed(x: string, t: Tree, after: seq<Token>)
    requires hide *; Fits(t, 0)
    ensures ParseStmt([Token.Name(x)] + FlattenInit(t, after), true) == Parsed(AssignStmt(x, Erase(t)), after, true)
  {
    hide Erase, ExpectName, Fits, Flatten, ParseBlock, ParseExpr, ParseFromName, Ended;
    EndedIsParsed(t, after);
    var e := Flatten(t, [Semicolon] + after);
    assert ([Token.Name(x)] + ([Assign] + e))[2..] == e;
  }

  lemma DeclIsParsed(x: string, t: Tree, after: seq<Token>)
    requires hide *; Fits(t, 0)
    ensures ParseStmt([KwInt] + ([Token.Name(x)] + FlattenInit(t, after)), true)
            == Parsed(VarDecl(x, Erase(t)), after, true)
  {
    hide Erase, Fits, FlattenInit, Lexeme, ParseBlock, ParseExpr, ParseFromName, ParseInit;
    InitIsParsed(t, after);
  }

  lemma JumpIsParsed(after: seq<Token>)
    ensures ParseStmt([Semicolon] + after, true) == Parsed(Empty, after, true)
    ensures ParseStmt([KwBreak] + ([Semicolon] + after), true) == Parsed(Break, after, true)
    ensures ParseStmt([KwContinue] + ([Semicolon] + after), true) == Parsed(Continue, after, true)
  {
    hide ExpectName, ParseBlock, ParseExpr, ParseFrom, ParseFromName, ParseIf, ParseWhile;
  }

  lemma ReturnIsParsed(t: Tree, after: seq<Token>)
    requires hide *; Fits(t, 0)
    ensures ParseReturn(Flatten(t, [Semicolon] + after), true) == Parsed(Return(Ir.Some(Erase(t))), after, true)
  {
    hide ParseExpr, Ended, Flatten, Fits;
    EndedIsParsed(t, after);
    TreeStarts(t, [Semicolon] + after);
  }

  /** The statements that start with a keyword are handed to the rule of the keyword. */
  lemma KeywordStep(ts: seq<Token>)
    ensures ParseStmt([KwReturn] + ts, true) == ParseReturn(ts, true)
    ensures ParseStmt([KwIf] + ts, true) == ParseIf(ts, true)
    ensures ParseStmt([KwWhile] + ts, true) == ParseWhile(ts, true)
  {
    hide ExpectName, ParseBlock, ParseExpr, ParseFrom, ParseFromName, ParseIf, ParseWhile, ParseReturn;
  }

  lemma ConstStep(ts: seq<Token>)
    requires hide *; Head(ts) == KwConst
    ensures var d := ParseConst(ts, true); ParseStmt(ts, true) == Parsed(ConstDecl(d.value.0, d.value.1), d.rest, d.ok)
  {
    hide ExpectName, ParseBlock, ParseExpr, ParseFrom, ParseFromName, ParseIf, ParseWhile, ParseConst;
  }

  lemma SimpleStmtIsParsed(s: Stmt<Tree>, after: seq<Token>)
    requires FitsStmt(s) && !s.Block? && !s.If? && !s.While?
    ensures ParseStmt(FlattenStmt(s, after), true) == Parsed(EraseStmt(s), after, true)
  {
    hide Fits, Flatten, ParseConst, ParseExpr, ParseStmt, ParseReturn, FlattenBody, FitsBody, FlattenInit,
         FlattenConst, Erase, EraseBody;
    match s
    case ExprStmt(e) => ExprStmtIsParsed(e, after);
    case AssignStmt(x, e) => AssignIsParsed(x, e, after);
    case ConstDecl(x, e) => ConstDeclIsParsed(x, e, after);
    case VarDecl(x, e) => DeclIsParsed(x, e, after);
    case Return(None) =>
      KeywordStep([Semicolon] + after);
      EmptyReturnIsParsed(after);
    case Return(Some(e)) =>
      KeywordStep(Flatten(e, [Semicolon] + after));
      ReturnIsParsed(e, after);
    case _ => JumpIsParsed(after);
  }

  lemma ConstDeclIsParsed(x: string, t: Tree, after: seq<Token>)
    requires hide *; Fits(t, 0)
    ensures ParseStmt(FlattenConst(x, t, after), true) == Parsed(ConstDecl(x, Erase(t)), after, true)
  {
    hide ParseStmt, ParseConst, FlattenInit;
    ConstStep(FlattenConst(x, t, after));
    ConstIsParsed(x, t, after);
  }

  lemma EmptyReturnIsParsed(after: seq<Token>)
    ensures ParseReturn([Semicolon] + after, true) == Parsed(Return(Ir.None), after, true)
  {
    hide Ended, ParseExpr;
  }

  lemma {:induction false} StmtIsParsed(s: Stmt<Tree>, after: seq<Token>)
    requires FitsStmt(s) && (OpenEnded(s) ==> Head(after) != KwElse)
    ensures ParseStmt(FlattenStmt(s, after), true) == Parsed(EraseStmt(s), after, true)
    decreases s, 4
  {
    hide Fits, Flatten, ParseBlock, ParseExpr, ParseStmt, ParseIf, ParseWhile, FlattenCond;
    match s
    case Block(body) =>
      BlockIsParsed(body, after);
      BlockStep(FlattenBody(body, [RBrace] + after));
    case If(c, a, None) =>
      IfIsParsed(c, a, after);
      KeywordStep(FlattenCond(c, FlattenStmt(a, after)));
    case If(c, a, Some(b)) =>
      IfElseIsParsed(c, a, b, after);
      KeywordStep(FlattenCond(c, FlattenStmt(a, [KwElse] + FlattenStmt(b, after))));
    case While(c, a) =>
      WhileIsParsed(c, a, after);
      KeywordStep(FlattenCond(c, FlattenStmt(a, after)));
    case _ => SimpleStmtIsParsed(s, after);
  }

  lemma {:induction false} IfIsParsed(c: Tree, a: Stmt<Tree>, after: seq<Token>)
    requires hide *; Fits(c, 0) && FitsStmt(a) && Head(after) != KwElse
    ensures ParseIf(FlattenCond(c, FlattenStmt(a, after)), true)
            == Parsed(If(Erase(c), EraseStmt(a), Ir.None), after, true)
    decreases a, 5
  {
    hide ParseStmt, ParseCond, FlattenCond, FlattenStmt;
    CondIsParsed(c, FlattenStmt(a, after));
    StmtIsParsed(a, after);
  }

  lemma {:induction false} IfElseIsParsed(c: Tree, a: Stmt<Tree>, b: Stmt<Tree>, after: seq<Token>)
    requires hide *;
             Fits(c, 0) && FitsStmt(a) && !OpenEnded(a) && FitsStmt(b) && (OpenEnded(b) ==> Head(after) != KwElse)
    ensures ParseIf(FlattenCond(c, FlattenStmt(a, [KwElse] + FlattenStmt(b, after))), true) ==
            Parsed(If(Erase(c), EraseStmt(a), Ir.Some(EraseStmt(b))), after, true)
    decreases If(c, a, Ir.Some(b)), 3
  {
    hide EraseStmt, Fits, FitsStmt, FlattenCond, FlattenStmt, ParseCond, ParseStmt;
    var tail := [KwElse] + FlattenStmt(b, after);
    CondIsParsed(c, FlattenStmt(a, tail));
    StmtIsParsed(a, tail);
    StmtIsParsed(b, after);
  }

  lemma {:induction false} WhileIsParsed(c: Tree, a: Stmt<Tree>, after: seq<Token>)
    requires hide *; Fits(c, 0) && FitsStmt(a) && (OpenEnded(a) ==> Head(after) != KwElse)
    ensures ParseWhile(FlattenCond(c, FlattenStmt(a, after)), true)
            == Parsed(While(Erase(c), EraseStmt(a)), after, true)
    decreases a, 5
  {
    hide EraseStmt, Fits, FitsStmt, FlattenCond, FlattenStmt, ParseCond, ParseStmt;
    CondIsParsed(c, FlattenStmt(a, after));
    StmtIsParsed(a, after);
  }

  lemma BlockStep(ts: seq<Token>)
    ensures var b := ParseBlock([LBrace] + ts, true);
            ParseStmt([LBrace] + ts, true) == Parsed(Block(b.value), b.rest, b.ok)
  {
    hide ExpectName, ParseBlock, ParseExpr, ParseFrom, ParseFromName, ParseIf, ParseWhile;
  }

  lemma {:induction false} BlockIsParsed(body: seq<Stmt<Tree>>, after: seq<Token>)
    requires FitsBody(body)
    ensures ParseBlock([LBrace] + FlattenBody(body, [RBrace] + after), true) == Parsed(EraseBody(body), after, true)
    decreases body, 3
  {
    hide ParseStmt, FlattenStmt, EraseStmt, FitsStmt, FlattenBody;
    BodyIsParsed(body, [RBrace] + after);
  }

  /** The statements of a block up to some point of it, as the loop sees them. */
  lemma {:induction false} BodyIsParsed(body: seq<Stmt<Tree>>, after: seq<Token>)
    requires FitsBody(body) && Head(after) != KwElse
    ensures ParseBody([], FlattenBody(body, after), true) == ParseBody(EraseBody(body), after, true)
    decreases body, 2
  {
    hide ParseStmt, FlattenStmt, EraseStmt, FitsStmt, ParseBody;
    if body != [] {
      var n := |body| - 1;
      var tail := FlattenStmt(body[n], after);
      StmtStarts(body[n], after);
      BodyIsParsed(body[..n], tail);
      StmtIsParsed(body[n], after);
      OneMoreStmt(EraseBody(body[..n]), tail);
    }
  }

  lemma OneMoreStmt(done: seq<Stmt<Expr>>, ts: seq<Token>)
    requires !Closes(Head(ts))
    ensures var s := ParseStmt(ts, true); ParseBody(done, ts, true) == ParseBody(done + [s.value], s.rest, s.ok)
  {
    hide ParseStmt;
  }

  // ---------------------------------------------------------------- every parsed statement fits

  lemma {:induction false} EndedFits(ts: seq<Token>, ok: bool) returns (t: Tree)
    requires hide *; Ended(ParseExpr(0, ts), ok).ok
    ensures var r := Ended(ParseExpr(0, ts), ok);
      ok && Fits(t, 0) && Erase(t) == r.value && ts == Flatten(t, [Semicolon] + r.rest)
  {
    hide ParseExpr, Expect, Fits, Erase, Flatten;
    var e := ParseExpr(0, ts);
    Met(Semicolon, e.rest, ok && e.ok);
    t := ParsedFits(0, ts);
  }

  lemma InitFits(ts: seq<Token>, ok: bool) returns (t: Tree)
    requires hide *; ParseInit(ts, ok).ok
    ensures var r := ParseInit(ts, ok);
      ok && Fits(t, 0) && Erase(t) == r.value && ts == FlattenInit(t, r.rest)
  {
    hide ParseExpr, Expect, Ended, Fits, Erase, Flatten;
    var (after, ok1) := Expect(Assign, ts, ok);
    t := EndedFits(after, ok1);
    Met(Assign, ts, ok);
  }

  lemma CondFits(ts: seq<Token>, ok: bool) returns (t: Tree)
    requires hide *; ParseCond(ts, ok).ok
    ensures var r := ParseCond(ts, ok);
      ok && Fits(t, 0) && Erase(t) == r.value && ts == FlattenCond(t, r.rest)
  {
    hide ParseExpr, Expect, Fits, Erase, Flatten;
    var (after, ok1) := Expect(LParen, ts, ok);
    var e := ParseExpr(0, after);
    Met(RParen, e.rest, ok1 && e.ok);
    Met(LParen, ts, ok);
    t := ParsedFits(0, after);
  }

  lemma ConstFits(ts: seq<Token>, ok: bool) returns (t: Tree)
    requires hide *; Head(ts) == KwConst && ParseConst(ts, ok).ok
    ensures var r := ParseConst(ts, ok);
      && ok && Fits(t, 0) && Erase(t) == r.value.1
      && ts == FlattenConst(r.value.0, t, r.rest)
  {
    hide ParseInit, Expect, ExpectName, Fits, Erase, FlattenInit;
    var (ts1, ok1) := Expect(KwInt, ts[1..], ok);
    var (x, ts2, ok2) := ExpectName(ts1, ok1);
    t := InitFits(ts2, ok2);
    MetName(ts1, ok1);
    Met(KwInt, ts[1..], ok);
    assert ts == [KwConst] + ts[1..];
  }

  lemma ReturnFits(ts: seq<Token>, ok: bool) returns (s: Stmt<Tree>)
    requires ParseReturn(ts, ok).ok
    ensures var r := ParseReturn(ts, ok);
      ok && s.Return? && FitsStmt(s) && EraseStmt(s) == r.value && [KwReturn] + ts == FlattenStmt(s, r.rest)
  {
    hide ParseExpr, Ended, Fits, Erase, Flatten;
    if Head(ts) == Semicolon {
      s := Return(Ir.None);
      assert ts == [Semicolon] + ts[1..];
    } else {
      var t := EndedFits(ts, ok);
      s := Return(Ir.Some(t));
    }
  }

  /** An expression statement or an assignment. */
  lemma ExprFits(ts: seq<Token>) returns (s: Stmt<Tree>)
    requires Head(ts).Name? && ParseStmt(ts, true).ok
    ensures var r := ParseStmt(ts, true);
      (s.ExprStmt? || s.AssignStmt?) && FitsStmt(s) && EraseStmt(s) == r.value && ts == FlattenStmt(s, r.rest)
  {
    hide ParseExpr, Ended, Fits, Erase, Flatten, ParseFromName;
    var x := Head(ts).name;
    assert ts == [Token.Name(x)] + ts[1..];
    if Head(ts[1..]) == Assign {
      assert ts[1..] == [Assign] + ts[2..];
      var t := EndedFits(ts[2..], true);
      s := AssignStmt(x, t);
    } else {
      FromNameIsExpr(x, ts[1..]);
      var t := EndedFits(ts, true);
      s := ExprStmt(t);
    }
  }

  lemma VarFits(ts: seq<Token>) returns (s: Stmt<Tree>)
    requires Head(ts) == KwInt && ParseStmt(ts, true).ok
    ensures var r := ParseStmt(ts, true);
      s.VarDecl? && FitsStmt(s) && EraseStmt(s) == r.value && ts == FlattenStmt(s, r.rest)
  {
    hide ExpectName, Fits, Flatten, ParseBlock, ParseExpr, ParseFromName, ParseInit, Erase, FlattenInit;
    var (x, ts1, ok1) := ExpectName(ts[1..], true);
    var t := InitFits(ts1, ok1);
    MetName(ts[1..], true);
    assert ts == [KwInt] + ts[1..];
    s := VarDecl(x, t);
  }

  lemma JumpFits(ts: seq<Token>) returns (s: Stmt<Tree>)
    requires Head(ts) == Semicolon || Head(ts) == KwBreak || Head(ts) == KwContinue
    requires ParseStmt(ts, true).ok
    ensures var r := ParseStmt(ts, true);
      (s.Empty? || s.Break? || s.Continue?) && EraseStmt(s) == r.value && ts == FlattenStmt(s, r.rest)
  {
    assert ts == [ts[0]] + ts[1..];
    if Head(ts) == Semicolon {
      s := Empty;
    } else {
      Met(Semicolon, ts[1..], true);
      s := if Head(ts) == KwBreak then Break else Continue;
    }
  }

  /** The tokens that start a statement other than an expression; a name starts either. */
  predicate Special(t: Token) {
    || t == LBrace || t == Semicolon || t == KwConst || t == KwInt || t == KwIf || t == KwWhile
    || t == KwBreak || t == KwContinue || t == KwReturn || t.Name?
  }

  lemma OtherFits(ts: seq<Token>) returns (s: Stmt<Tree>)
    requires !Special(Head(ts)) && ParseStmt(ts, true).ok
    ensures var r := ParseStmt(ts, true);
      s.ExprStmt? && FitsStmt(s) && EraseStmt(s) == r.value && ts == FlattenStmt(s, r.rest)
  {
    hide ExpectName, Fits, Flatten, ParseBlock, ParseExpr, ParseFromName, Ended, Erase;
    var t := EndedFits(ts, true);
    s := ExprStmt(t);
  }

  /** Without an error, the tokens consumed are those of a statement that fits, and its `else` was taken. */
  lemma {:induction false} ParsedStmtFits(ts: seq<Token>) returns (s: Stmt<Tree>)
    requires ParseStmt(ts, true).ok
    ensures var r := ParseStmt(ts, true);
      && FitsStmt(s) && EraseStmt(s) == r.value && ts == FlattenStmt(s, r.rest)
      && (OpenEnded(s) ==> Head(r.rest) != KwElse)
    decreases |ts|, 2
  {
    hide Fits, Flatten, ParseBlock, ParseConst, ParseExpr, ParseStmt, ParseIf, ParseWhile, Erase;
    match Head(ts)
    case LBrace =>
      assert ts == [LBrace] + ts[1..];
      BlockStep(ts[1..]);
      s := ParsedBlockFits(ts);
    case KwIf =>
      assert ts == [KwIf] + ts[1..];
      KeywordStep(ts[1..]);
      s := ParsedIfFits(ts[1..]);
    case KwWhile =>
      assert ts == [KwWhile] + ts[1..];
      KeywordStep(ts[1..]);
      s := ParsedWhileFits(ts[1..]);
    case KwReturn =>
      assert ts == [KwReturn] + ts[1..];
      KeywordStep(ts[1..]);
      s := ReturnFits(ts[1..], true);
    case KwConst =>
      ConstStep(ts);
      var t := ConstFits(ts, true);
      s := ConstDecl(ParseConst(ts, true).value.0, t);
    case KwInt => s := VarFits(ts);
    case Name(_) => s := ExprFits(ts);
    case Semicolon => s := JumpFits(ts);
    case KwBreak => s := JumpFits(ts);
    case KwContinue => s := JumpFits(ts);
    case _ => s := OtherFits(ts);
  }

  lemma {:induction false} ParsedBlockFits(ts: seq<Token>) returns (s: Stmt<Tree>)
    requires ParseBlock(ts, true).ok
    ensures var r := ParseBlock(ts, true);
      s.Block? && FitsStmt(s) && EraseStmt(s) == Block(r.value) && ts == FlattenStmt(s, r.rest)
    decreases |ts|, 1
  {
    hide ParseBody, Expect;
    var (inside, ok1) := Expect(LBrace, ts, true);
    var b := ParseBody([], inside, ok1);
    Met(RBrace, b.rest, b.ok);
    Met(LBrace, ts, true);
    var body := ParsedBodyFits([], inside);
    s := Block(body);
  }

  lemma {:induction false} ParsedBodyFits(done: seq<Stmt<Tree>>, ts: seq<Token>) returns (body: seq<Stmt<Tree>>)
    requires FitsBody(done) && ParseBody(EraseBody(done), ts, true).ok
    ensures var r := ParseBody(EraseBody(done), ts, true);
      FitsBody(body) && EraseBody(body) == r.value && FlattenBody(done, ts) == FlattenBody(body, r.rest)
    decreases |ts|, 3
  {
    hide EraseStmt, FitsStmt, FlattenStmt, ParseStmt, FitsBody, EraseBody, FlattenBody;
    if Head(ts) == RBrace || Ends(Head(ts)) {
      body := done;
    } else {
      var s := ParseStmt(ts, true);
      OkBody(EraseBody(done) + [s.value], s.rest, s.ok);
      var next := ParsedStmtFits(ts);
      SnocStmt(done, next);
      body := ParsedBodyFits(done + [next], s.rest);
    }
  }

  lemma BodyStep(done: seq<Stmt<Expr>>, ts: seq<Token>, ok: bool)
    ensures Head(ts) == RBrace || Ends(Head(ts)) || !ok ==> ParseBody(done, ts, ok) == Parsed(done, ts, ok)
    ensures !(Head(ts) == RBrace || Ends(Head(ts)) || !ok) ==> var s := ParseStmt(ts, ok);
      ParseBody(done, ts, ok) == ParseBody(done + [s.value], s.rest, s.ok)
  {
    hide ParseStmt;
  }

  lemma OkBody(done: seq<Stmt<Expr>>, ts: seq<Token>, ok: bool)
    requires ParseBody(done, ts, ok).ok
    ensures ok
  {
    hide *;
  }

  lemma SnocStmt(body: seq<Stmt<Tree>>, s: Stmt<Tree>)
    requires FitsBody(body) && FitsStmt(s)
    ensures FitsBody(body + [s]) && EraseBody(body + [s]) == EraseBody(body) + [EraseStmt(s)]
    ensures forall after :: FlattenBody(body + [s], after) == FlattenBody(body, FlattenStmt(s, after))
  {
    hide EraseStmt, FitsStmt, FlattenStmt;
    assert (body + [s])[..|body|] == body;
  }

  lemma OkStmt(ts: seq<Token>, ok: bool)
    requires ParseStmt(ts, ok).ok
    ensures ok
  {
    hide *;
  }

  lemma {:induction false} ParsedWhileFits(ts: seq<Token>) returns (s: Stmt<Tree>)
    requires ParseWhile(ts, true).ok
    ensures var r := ParseWhile(ts, true);
      && s.While? && FitsStmt(s) && EraseStmt(s) == r.value && [KwWhile] + ts == FlattenStmt(s, r.rest)
      && (OpenEnded(s) ==> Head(r.rest) != KwElse)
    decreases |ts|, 4
  {
    hide ParseStmt, ParseCond, Fits, Erase, FlattenCond;
    var c := ParseCond(ts, true);
    OkStmt(c.rest, c.ok);
    var cond := CondFits(ts, true);
    var a := ParsedStmtFits(c.rest);
    s := While(cond, a);
  }

  lemma {:induction false} ParsedIfFits(ts: seq<Token>) returns (s: Stmt<Tree>)
    requires ParseIf(ts, true).ok
    ensures var r := ParseIf(ts, true);
      && s.If? && FitsStmt(s) && EraseStmt(s) == r.value && [KwIf] + ts == FlattenStmt(s, r.rest)
      && (OpenEnded(s) ==> Head(r.rest) != KwElse)
    decreases |ts|, 4
  {
    hide ParseStmt, ParseCond, Fits, Erase, FlattenCond;
    var c := ParseCond(ts, true);
    var a := ParseStmt(c.rest, c.ok);
    if Head(a.rest) == KwElse {
      OkStmt(a.rest[1..], a.ok);
    }
    OkStmt(c.rest, c.ok);
    var cond := CondFits(ts, true);
    var first := ParsedStmtFits(c.rest);
    if Head(a.rest) == KwElse {
      var second := ParsedStmtFits(a.rest[1..]);
      assert a.rest == [KwElse] + a.rest[1..];
      s := If(cond, first, Ir.Some(second));
    } else {
      s := If(cond, first, Ir.None);
    }
  }

  // ---------------------------------------------------------------- declarations and whole files

  lemma ParamIsParsed(x: string, after: seq<Token>)
    ensures ParseParam([KwInt] + ([Token.Name(x)] + after), true) == Parsed(x, after, true)
  {
  }

  lemma {:induction false} MoreParamsAreParsed(ps: seq<string>, after: seq<Token>)
    requires ps != []
    ensures var ts := FlattenParams(ps, after); var first := ParseParam(ts, true);
      Head(ts) == KwInt && ParseMoreParams([first.value], first.rest, first.ok) == ParseMoreParams(ps, after, true)
    decreases ps
  {
    hide ParseParam;
    var n := |ps| - 1;
    ParamIsParsed(ps[n], after);
    if n == 0 {
      assert ps == [ps[0]];
    } else {
      MoreParamsAreParsed(ps[..n], [Comma] + ([KwInt] + ([Token.Name(ps[n])] + after)));
      assert ps == ps[..n] + [ps[n]];
    }
  }

  lemma ParamsAreParsed(ps: seq<string>, after: seq<Token>)
    requires Head(after) == RParen
    ensures ParseParams(FlattenParams(ps, after), true) == Parsed(ps, after, true)
  {
    hide ParseParam;
    if ps != [] {
      MoreParamsAreParsed(ps, after);
    }
  }

  lemma FuncDefIsParsed(k: bool, f: string, ps: seq<string>, body: seq<Stmt<Tree>>, after: seq<Token>)
    requires FitsBody(body)
    ensures ParseFuncDef(k, f, FlattenFunction(ps, body, after), true)
            == Parsed(Function(k, f, ps, EraseBody(body)), after, true)
  {
    hide ParseParams, ParseBlock, FlattenBody, EraseBody, FitsBody, FlattenParams;
    ParamsAreParsed(ps, [RParen] + FlattenStmt(Block(body), after));
    BlockIsParsed(body, after);
  }

  lemma GlobalIsParsed(x: string, t: Tree, after: seq<Token>)
    requires hide *; Fits(t, 0)
    ensures ParseItem([KwInt] + ([Token.Name(x)] + FlattenInit(t, after)), true)
            == Parsed(GlobalVar(x, Erase(t)), after, true)
    ensures ParseItem(FlattenConst(x, t, after), true) == Parsed(GlobalConst(x, Erase(t)), after, true)
  {
    hide Fits, Flatten, Lexeme, ParseConst, ParseFuncDef, ParseInit;
    InitIsParsed(t, after);
    ConstIsParsed(x, t, after);
  }

  lemma FunctionIsParsed(k: bool, f: string, ts: seq<Token>)
    requires Head(ts) == LParen
    ensures ParseItem([if k then KwInt else KwVoid] + ([Token.Name(f)] + ts), true) == ParseFuncDef(k, f, ts, true)
  {
    hide Lexeme, ParseConst, ParseFuncDef, ParseInit;
  }

  lemma ItemIsParsed(item: Item<Tree>, after: seq<Token>)
    requires FitsItem(item)
    ensures ParseItem(FlattenItem(item, after), true) == Parsed(EraseItem(item), after, true)
  {
    hide ParseItem, ParseFuncDef, Fits, FlattenInit, FlattenConst, FlattenParams, FlattenStmt;
    match item
    case GlobalConst(x, e) => GlobalIsParsed(x, e, after);
    case GlobalVar(x, e) => GlobalIsParsed(x, e, after);
    case Function(k, f, ps, body) =>
      FuncDefIsParsed(k, f, ps, body, after);
      FunctionIsParsed(k, f, FlattenFunction(ps, body, after));
  }

  lemma {:induction false} ItemsAreParsed(items: seq<Item<Tree>>, after: seq<Token>)
    requires FitsUnit(items)
    ensures ParseItems([], FlattenUnit(items, after), true) == ParseItems(EraseUnit(items), after, true)
    decreases items
  {
    hide ParseItem, FlattenItem, EraseItem, FitsItem, ParseItems;
    if items != [] {
      var n := |items| - 1;
      var tail := FlattenItem(items[n], after);
      ItemsAreParsed(items[..n], tail);
      ItemIsParsed(items[n], after);
      ItemStarts(items[n], after);
      OneMoreItem(EraseUnit(items[..n]), tail);
    }
  }

  lemma ItemStarts(item: Item<Tree>, after: seq<Token>)
    requires FitsItem(item)
    ensures !Ends(Head(FlattenItem(item, after)))
  {
    hide FlattenInit, FlattenFunction, Fits, FitsBody;
  }

  lemma OneMoreItem(done: seq<Item<Expr>>, ts: seq<Token>)
    requires !Ends(Head(ts))
    ensures var x := ParseItem(ts, true); ParseItems(done, ts, true) == ParseItems(done + [x.value], x.rest, x.ok)
  {
    hide ParseItem;
  }

  /** A file that obeys the grammar is accepted, and its tree is the one that the grammar gives. */
  lemma UnitIsParsed(items: seq<Item<Tree>>)
    requires FitsUnit(items)
    ensures ParseUnit(FlattenUnit(items, [])) == Parsed(EraseUnit(items), [], true)
  {
    hide ParseItem, FlattenUnit, EraseUnit, FitsUnit;
    ItemsAreParsed(items, []);
  }

  // ---------------------------------------------------------------- every parsed file fits

  lemma ParamFits(ts: seq<Token>, ok: bool)
    requires ParseParam(ts, ok).ok
    ensures ok && ts == [KwInt] + ([Token.Name(ParseParam(ts, ok).value)] + ParseParam(ts, ok).rest)
  {
    hide Expect, ExpectName;
    var (ts1, ok1) := Expect(KwInt, ts, ok);
    MetName(ts1, ok1);
    Met(KwInt, ts, ok);
  }

  lemma {:induction false} MoreParamsFit(done: seq<string>, ts: seq<Token>)
    requires done != [] && ParseMoreParams(done, ts, true).ok
    ensures var r := ParseMoreParams(done, ts, true); FlattenParams(done, ts) == FlattenParams(r.value, r.rest)
    decreases |ts|
  {
    hide ParseParam;
    if Head(ts) == Comma {
      var x := ParseParam(ts[1..], true);
      OkParams(done + [x.value], x.rest, x.ok);
      ParamFits(ts[1..], true);
      assert (done + [x.value])[..|done|] == done;
      assert ts == [Comma] + ts[1..];
      MoreParamsFit(done + [x.value], x.rest);
    }
  }

  lemma OkParams(done: seq<string>, ts: seq<Token>, ok: bool)
    requires ParseMoreParams(done, ts, ok).ok
    ensures ok
  {
    hide *;
  }

  lemma ParamsFit(ts: seq<Token>, ok: bool)
    requires ParseParams(ts, ok).ok
    ensures ok && ts == FlattenParams(ParseParams(ts, ok).value, ParseParams(ts, ok).rest)
  {
    hide ParseParam, ParseMoreParams;
    if Head(ts) != RParen {
      var x := ParseParam(ts, ok);
      OkParams([x.value], x.rest, x.ok);
      ParamFits(ts, ok);
      MoreParamsFit([x.value], x.rest);
    }
  }

  lemma FuncDefFits(k: bool, f: string, ts: seq<Token>, ok: bool) returns (item: Item<Tree>)
    requires ParseFuncDef(k, f, ts, ok).ok
    ensures var r := ParseFuncDef(k, f, ts, ok);
      && ok && FitsItem(item) && EraseItem(item) == r.value
      && [if k then KwInt else KwVoid] + ([Token.Name(f)] + ts) == FlattenItem(item, r.rest)
  {
    hide Fits, Flatten, FlattenStmt, ParseBlock, ParseParams, FlattenBody, EraseBody, FitsBody, FlattenParams, Expect;
    var (ts1, ok1) := Expect(LParen, ts, ok);
    var ps := ParseParams(ts1, ok1);
    var (ts2, ok2) := Expect(RParen, ps.rest, ps.ok);
    OkBlock(ts2, ok2);
    Met(RParen, ps.rest, ps.ok);
    ParamsFit(ts1, ok1);
    Met(LParen, ts, ok);
    var b := ParsedBlockFits(ts2);
    item := Function(k, f, ps.value, b.body);
  }

  lemma OkBlock(ts: seq<Token>, ok: bool)
    requires ParseBlock(ts, ok).ok
    ensures ok
  {
    hide *;
  }

  lemma ParsedItemFits(ts: seq<Token>) returns (item: Item<Tree>)
    requires ParseItem(ts, true).ok
    ensures var r := ParseItem(ts, true);
            FitsItem(item) && EraseItem(item) == r.value && ts == FlattenItem(item, r.rest)
  {
    hide ParseFuncDef, ParseInit, ParseConst, ExpectName, Fits, FlattenInit, FlattenFunction, Erase;
    if Head(ts) == KwConst {
      var t := ConstFits(ts, true);
      item := GlobalConst(ParseConst(ts, true).value.0, t);
    } else {
      var (x, ts1, ok1) := ExpectName(ts[1..], true);
      assert ts == [ts[0]] + ts[1..];
      if Head(ts) == KwInt && Head(ts1) == Assign {
        var t := InitFits(ts1, ok1);
        MetName(ts[1..], true);
        item := GlobalVar(x, t);
      } else {
        item := FuncDefFits(Head(ts) == KwInt, x, ts1, ok1);
        MetName(ts[1..], true);
      }
    }
  }

  lemma {:induction false} ParsedItemsFit(done: seq<Item<Tree>>, ts: seq<Token>) returns (items: seq<Item<Tree>>)
    requires FitsUnit(done) && ParseItems(EraseUnit(done), ts, true).ok
    ensures var r := ParseItems(EraseUnit(done), ts, true);
      && FitsUnit(items) && EraseUnit(items) == r.value && FlattenUnit(done, ts) == FlattenUnit(items, r.rest)
      && Ends(Head(r.rest))
    decreases |ts|
  {
    hide EraseItem, FitsItem, FlattenItem, ParseItem, FitsUnit, EraseUnit, FlattenUnit;
    if Ends(Head(ts)) {
      items := done;
    } else {
      var x := ParseItem(ts, true);
      OkItems(EraseUnit(done) + [x.value], x.rest, x.ok);
      var next := ParsedItemFits(ts);
      SnocItem(done, next);
      items := ParsedItemsFit(done + [next], x.rest);
    }
  }

  lemma OkItems(done: seq<Item<Expr>>, ts: seq<Token>, ok: bool)
    requires ParseItems(done, ts, ok).ok
    ensures ok
  {
    hide *;
  }

  lemma SnocItem(items: seq<Item<Tree>>, x: Item<Tree>)
    requires FitsUnit(items) && FitsItem(x)
    ensures FitsUnit(items + [x]) && EraseUnit(items + [x]) == EraseUnit(items) + [EraseItem(x)]
    ensures forall after :: FlattenUnit(items + [x], after) == FlattenUnit(items, FlattenItem(x, after))
  {
    hide EraseItem, FitsItem, FlattenItem;
    assert (items + [x])[..|items|] == items;
  }

  /** The parser accepts exactly the files of the grammar, and builds the tree that the grammar gives. */
  ghost predicate IsFile(ts: seq<Token>, unit: seq<Item<Expr>>) {
    exists items: seq<Item<Tree>> :: FitsUnit(items) && FlattenUnit(items, []) == ts && EraseUnit(items) == unit
  }

  lemma AcceptsExactlyTheGrammar(ts: seq<Token>, unit: seq<Item<Expr>>)
    requires EndOfFile !in ts
    ensures IsFile(ts, unit) <==> ParseUnit(ts).ok && ParseUnit(ts).value == unit
  {
    hide EraseUnit, FitsUnit, FlattenUnit, ParseUnit;
    if IsFile(ts, unit) {
      var items: seq<Item<Tree>> :| FitsUnit(items) && FlattenUnit(items, []) == ts && EraseUnit(items) == unit;
      UnitIsParsed(items);
    }
    if ParseUnit(ts).ok && ParseUnit(ts).value == unit {
      var items := ParsedFileFits(ts);
    }
  }

  lemma Judged(ts: seq<Token>)
    requires EndOfFile !in ts
    ensures ParseUnit(ts).ok ==> IsFile(ts, ParseUnit(ts).value)
    ensures !ParseUnit(ts).ok ==> forall unit :: !IsFile(ts, unit)
  {
    hide ParseUnit, IsFile;
    forall unit ensures IsFile(ts, unit) <==> ParseUnit(ts).ok && ParseUnit(ts).value == unit {
      AcceptsExactlyTheGrammar(ts, unit);
    }
  }

  lemma HeadIsIn(ts: seq<Token>)
    ensures ts == [] || Head(ts) in ts
  {
  }

  lemma ParsedFileFits(ts: seq<Token>) returns (items: seq<Item<Tree>>)
    requires EndOfFile !in ts && ParseUnit(ts).ok
    ensures FitsUnit(items) && FlattenUnit(items, []) == ts && EraseUnit(items) == ParseUnit(ts).value
  {
    hide FitsItem, EraseItem, FlattenItem, ParseItems;
    items := ParsedItemsFit([], ts);
    var rest := ParseItems([], ts, true).rest;
    HeadIsIn(rest);
  }

  /** The grammar is unambiguous: two derivations of the same tokens differ in nothing but parentheses. */
  lemma GrammarIsUnambiguous(a: seq<Item<Tree>>, b: seq<Item<Tree>>)
    requires FitsUnit(a) && FitsUnit(b) && FlattenUnit(a, []) == FlattenUnit(b, [])
    ensures EraseUnit(a) == EraseUnit(b)
  {
    hide FitsUnit, EraseUnit, FlattenUnit, ParseUnit;
    UnitIsParsed(a);
    UnitIsParsed(b);
  }

  /** Printing an expression with the fewest parentheses and parsing it gives the expression back. */
  lemma RoundTrip(e: Expr, after: seq<Token>)
    requires hide *; Follows(0, after)
    ensures ParseExpr(0, Flatten(Minimal(e, 0), after)) == Parsed(e, after, true)
  {
    hide *;
    MinimalFits(e, 0);
    TreeIsParsed(Minimal(e, 0), 0, after);
  }
}
