/** The recursive-descent parser: one method per rule, one token of lookahead. */
module ParserClass {
  import Ast
  import Ir
  import opened Syntax
  import P = Parsing

  class Parser {
    /** The token under the cursor, and what the lexer will deliver after it. */
    var current: Token
    var upcoming: seq<Token>
    var hadError: bool

    ghost predicate Valid()
      reads this
    {
      EndOfFile !in upcoming && (current == EndOfFile ==> upcoming == [])
    }

    ghost function Remaining(): seq<Token>
      reads this
    {
      if current == EndOfFile then [] else [current] + upcoming
    }

    /** The parser stands where `r` ends and has reported an error exactly if `r` or something before it has. */
    ghost predicate After<T>(r: P.Parsed<T>, v: T, ok: bool)
      reads this
    {
      Valid() && v == r.value && Remaining() == r.rest && hadError == !(ok && r.ok)
    }

    constructor (tokens: seq<Token>)
      requires EndOfFile !in tokens
      ensures Valid() && Remaining() == tokens && !hadError
    {
      if tokens == [] {
        current, upcoming := EndOfFile, [];
      } else {
        current, upcoming := tokens[0], tokens[1..];
      }
      hadError := false;
    }

    method Advance()
      requires Valid()
      modifies this
      ensures Valid() && hadError == old(hadError)
      ensures Remaining() == if old(Remaining()) == [] then [] else old(Remaining())[1..]
    {
      if upcoming == [] {
        current := EndOfFile;
      } else {
        current, upcoming := upcoming[0], upcoming[1..];
      }
    }

    method Match(t: Token) returns (found: bool)
      requires Valid() && t != EndOfFile
      modifies this
      ensures Valid() && hadError == old(hadError) && found == (old(current) == t)
      ensures found == (Head(old(Remaining())) == t)
      ensures Remaining() == if found then old(Remaining())[1..] else old(Remaining())
    {
      found := current == t;
      if found {
        Advance();
      }
    }

    method Expect(t: Token)
      requires Valid()
      modifies this
      ensures Valid() && (Remaining(), !hadError) == P.Expect(t, old(Remaining()), !old(hadError))
    {
      if current != t {
        hadError := true;
      } else {
        Advance();
      }
    }

    method ExpectName() returns (name: string)
      requires hide *; Valid()
      modifies this
      ensures Valid() && (name, Remaining(), !hadError) == P.ExpectName(old(Remaining()), !old(hadError))
    {
      name := Lexeme(current);
      if !current.Name? {
        hadError := true;
      } else {
        Advance();
      }
    }

    // -------------------------------------------------------------- expressions

    method ParseExpr() returns (e: Expr)
      requires hide *; Valid()
      modifies this
      ensures After(P.ParseExpr(0, old(Remaining())), e, !old(hadError))
      decreases |Remaining()|, 30
    {
      hide *;
      e := ParseLorExpr();
    }

    method ParseLorExpr() returns (e: Expr)
      requires hide *; Valid()
      modifies this
      ensures After(P.ParseExpr(0, old(Remaining())), e, !old(hadError))
      decreases |Remaining()|, 20
    {
      hide P.ParseExpr, P.ParseFrom;
      var left := ParseLandExpr();
      P.RuleIsLoop(0, old(Remaining()), !old(hadError));
      e := ParseLorExprFromLeft(left);
    }

    method ParseLorExprFromLeft(start: Expr) returns (left: Expr)
      requires hide *; Valid()
      modifies this
      ensures After(P.ParseFrom(0, start, old(Remaining()), !old(hadError)), left, true)
      decreases |Remaining()|, 9
    {
      hide P.ParseExpr, P.ParseFrom, InfixOf;
      left := start;
      ghost var goal := P.ParseFrom(0, start, Remaining(), !hadError);
      while current == Or
        invariant Valid() && P.ParseFrom(0, left, Remaining(), !hadError) == goal
        invariant |Remaining()| <= |old(Remaining())|
        decreases |Remaining()|
      {
        P.LoopStep(0, left, Remaining(), !hadError);
        InfixOfToken(Ast.Or);
        Advance();
        var right := ParseLandExpr();
        left := Binary(Ast.Or, left, right);
      }
      P.LoopStep(0, left, Remaining(), !hadError);
      P.LevelIs(current);
    }

    method ParseLandExpr() returns (e: Expr)
      requires hide *; Valid()
      modifies this
      ensures After(P.ParseExpr(1, old(Remaining())), e, !old(hadError))
      decreases |Remaining()|, 19
    {
      hide P.ParseExpr, P.ParseFrom;
      var left := ParseRelExpr();
      P.RuleIsLoop(1, old(Remaining()), !old(hadError));
      e := ParseLandExprFromLeft(left);
    }

    method ParseLandExprFromLeft(start: Expr) returns (left: Expr)
      requires hide *; Valid()
      modifies this
      ensures After(P.ParseFrom(1, start, old(Remaining()), !old(hadError)), left, true)
      decreases |Remaining()|, 9
    {
      hide P.ParseExpr, P.ParseFrom, InfixOf;
      left := start;
      ghost var goal := P.ParseFrom(1, start, Remaining(), !hadError);
      while current == And
        invariant Valid() && P.ParseFrom(1, left, Remaining(), !hadError) == goal
        invariant |Remaining()| <= |old(Remaining())|
        decreases |Remaining()|
      {
        P.LoopStep(1, left, Remaining(), !hadError);
        InfixOfToken(Ast.And);
        Advance();
        var right := ParseRelExpr();
        left := Binary(Ast.And, left, right);
      }
      P.LoopStep(1, left, Remaining(), !hadError);
      P.LevelIs(current);
    }

    method ParseRelExpr() returns (e: Expr)
      requires hide *; Valid()
      modifies this
      ensures After(P.ParseExpr(2, old(Remaining())), e, !old(hadError))
      decreases |Remaining()|, 18
    {
      hide P.ParseExpr, P.ParseFrom;
      var left := ParseAddExpr();
      P.RuleIsLoop(2, old(Remaining()), !old(hadError));
      e := ParseRelExprFromLeft(left);
    }

    method ParseRelExprFromLeft(start: Expr) returns (left: Expr)
      requires hide *; Valid()
      modifies this
      ensures After(P.ParseFrom(2, start, old(Remaining()), !old(hadError)), left, true)
      decreases |Remaining()|, 9
    {
      hide InfixOf, P.ParseExpr, P.ParseFrom;
      left := start;
      ghost var goal := P.ParseFrom(2, start, Remaining(), !hadError);
      while true
        invariant Valid() && P.ParseFrom(2, left, Remaining(), !hadError) == goal
        invariant |Remaining()| <= |old(Remaining())|
        decreases |Remaining()|
      {
        P.LoopStep(2, left, Remaining(), !hadError);
        P.LevelIs(current);
        var op: Ast.BinaryOp;
        if current == Lt {
          op := Ast.Lt;
        } else if current == Le {
          op := Ast.Le;
        } else if current == Gt {
          op := Ast.Gt;
        } else if current == Ge {
          op := Ast.Ge;
        } else if current == Eq {
          op := Ast.Eq;
        } else if current == Ne {
          op := Ast.Ne;
        } else {
          break;
        }
        InfixOfToken(op);
        Advance();
        var right := ParseAddExpr();
        left := Binary(op, left, right);
      }
    }

    method ParseAddExpr() returns (e: Expr)
      requires hide *; Valid()
      modifies this
      ensures After(P.ParseExpr(3, old(Remaining())), e, !old(hadError))
      decreases |Remaining()|, 17
    {
      hide P.ParseExpr, P.ParseFrom;
      var left := ParseMulExpr();
      P.RuleIsLoop(3, old(Remaining()), !old(hadError));
      e := ParseAddExprFromLeft(left);
    }

    method ParseAddExprFromLeft(start: Expr) returns (left: Expr)
      requires hide *; Valid()
      modifies this
      ensures After(P.ParseFrom(3, start, old(Remaining()), !old(hadError)), left, true)
      decreases |Remaining()|, 9
    {
      hide InfixOf, P.ParseExpr, P.ParseFrom;
      left := start;
      ghost var goal := P.ParseFrom(3, start, Remaining(), !hadError);
      while true
        invariant Valid() && P.ParseFrom(3, left, Remaining(), !hadError) == goal
        invariant |Remaining()| <= |old(Remaining())|
        decreases |Remaining()|
      {
        P.LoopStep(3, left, Remaining(), !hadError);
        P.LevelIs(current);
        var op: Ast.BinaryOp;
        if current == Plus {
          op := Ast.Add;
        } else if current == Minus {
          op := Ast.Sub;
        } else {
          break;
        }
        InfixOfToken(op);
        Advance();
        var right := ParseMulExpr();
        left := Binary(op, left, right);
      }
    }

    method ParseMulExpr() returns (e: Expr)
      requires hide *; Valid()
      modifies this
      ensures After(P.ParseExpr(4, old(Remaining())), e, !old(hadError))
      decreases |Remaining()|, 16
    {
      hide P.ParseExpr, P.ParseFrom;
      var left := ParseUnaryExpr();
      P.RuleIsLoop(4, old(Remaining()), !old(hadError));
      e := ParseMulExprFromLeft(left);
    }

    method ParseMulExprFromLeft(start: Expr) returns (left: Expr)
      requires hide *; Valid()
      modifies this
      ensures After(P.ParseFrom(4, start, old(Remaining()), !old(hadError)), left, true)
      decreases |Remaining()|, 9
    {
      hide InfixOf, P.ParseExpr, P.ParseFrom;
      left := start;
      ghost var goal := P.ParseFrom(4, start, Remaining(), !hadError);
      while true
        invariant Valid() && P.ParseFrom(4, left, Remaining(), !hadError) == goal
        invariant |Remaining()| <= |old(Remaining())|
        decreases |Remaining()|
      {
        P.LoopStep(4, left, Remaining(), !hadError);
        P.LevelIs(current);
        var op: Ast.BinaryOp;
        if current == Mul {
          op := Ast.Mul;
        } else if current == Div {
          op := Ast.Div;
        } else if current == Mod {
          op := Ast.Mod;
        } else {
          break;
        }
        InfixOfToken(op);
        Advance();
        var right := ParseUnaryExpr();
        left := Binary(op, left, right);
      }
    }

    method ParseUnaryExpr() returns (e: Expr)
      requires hide *; Valid()
      modifies this
      ensures After(P.ParseExpr(5, old(Remaining())), e, !old(hadError))
      decreases |Remaining()|, 12
    {
      hide P.ParsePrimary;
      P.UnaryStep(Remaining());
      hide P.ParseUnary, P.ParseExpr;
      if current == Plus {
        Advance();
        var operand := ParseUnaryExpr();
        return Unary(Ast.Plus, operand);
      }
      if current == Minus {
        Advance();
        var operand := ParseUnaryExpr();
        return Unary(Ast.Minus, operand);
      }
      if current == Not {
        Advance();
        var operand := ParseUnaryExpr();
        return Unary(Ast.Not, operand);
      }
      e := ParsePrimaryExpr();
    }

    method ParsePrimaryExpr() returns (e: Expr)
      requires hide *; Valid()
      modifies this
      ensures After(P.ParsePrimary(old(Remaining())), e, !old(hadError))
      decreases |Remaining()|, 11
    {
      hide P.ParseExpr, P.ParseNamed;
      if current.Number? {
        var digits := current.digits;
        Advance();
        return IntLiteral(digits);
      }
      if current == LParen {
        Advance();
        e := ParseExpr();
        Expect(RParen);
        return;
      }
      if current.Name? {
        var name := current.name;
        Advance();
        e := ParseNamed(name);
        return;
      }
      hadError := true;
      e := IntLiteral("0");
    }

    /** A call or a variable, after its name. */
    method ParseNamed(name: string) returns (e: Expr)
      requires hide *; Valid()
      modifies this
      ensures After(P.ParseNamed(name, old(Remaining())), e, !old(hadError))
      decreases |Remaining()|, 11
    {
      hide P.ParseArgs;
      if current == LParen {
        var args := ParseCallArgs();
        return Call(name, args);
      }
      e := Ident(name);
    }

    method ParseCallArgs() returns (args: seq<Expr>)
      requires hide P.ParseArgs; Valid() && current == LParen
      modifies this
      ensures After(P.ParseArgs(old(Remaining())[1..]), args, !old(hadError))
      decreases |Remaining()|, 10
    {
      hide P.ParseFrom, P.ParseUnary, P.ParseExpr, P.ParseMoreArgs;
      Expect(LParen);
      args := [];
      if current != RParen {
        ghost var ts := Remaining();
        var first := ParseExpr();
        args := [first];
        ghost var goal := P.ParseMoreArgs(args, Remaining(), !hadError);
        P.ArgsAreLoop(ts, !old(hadError));
        while current == Comma
          invariant Valid() && P.ParseMoreArgs(args, Remaining(), !hadError) == goal
          invariant |Remaining()| <= |ts|
          decreases |Remaining()|
        {
          P.ArgsStep(args, Remaining(), !hadError);
          Advance();
          var next := ParseExpr();
          args := args + [next];
        }
        P.ArgsStep(args, Remaining(), !hadError);
      }
      Expect(RParen);
    }

    // -------------------------------------------------------------- statements

    /** The `;` after the expression `e`. */
    method ExpectSemicolon(ghost e: P.Parsed<Expr>, ghost ok: bool)
      requires Valid() && Remaining() == e.rest && hadError == !(ok && e.ok)
      modifies this
      ensures After(P.Ended(e, ok), e.value, true)
    {
      Expect(Semicolon);
    }

    /** `= e ;` */
    method ParseInit() returns (e: Expr)
      requires hide *; Valid()
      modifies this
      ensures After(P.ParseInit(old(Remaining()), !old(hadError)), e, true)
    {
      hide P.ParseExpr, P.Ended;
      Expect(Assign);
      ghost var ts, ok := Remaining(), !hadError;
      e := ParseExpr();
      ExpectSemicolon(P.ParseExpr(0, ts), ok);
    }

    /** `const int x = e ;` */
    method ParseConst() returns (x: string, e: Expr)
      requires hide P.ParseConst; Valid() && current == KwConst
      modifies this
      ensures After(P.ParseConst(old(Remaining()), !old(hadError)), (x, e), true)
    {
      hide P.ParseInit;
      Expect(KwConst);
      Expect(KwInt);
      x := ExpectName();
      e := ParseInit();
    }

    /** `( e )` */
    method ParseCond() returns (e: Expr)
      requires hide *; Valid()
      modifies this
      ensures After(P.ParseCond(old(Remaining()), !old(hadError)), e, true)
    {
      hide P.ParseExpr;
      Expect(LParen);
      e := ParseExpr();
      Expect(RParen);
    }

    method ParseBlock() returns (body: seq<Stmt<Expr>>)
      requires hide *; Valid()
      modifies this
      ensures After(P.ParseBlock(old(Remaining()), !old(hadError)), body, true)
      decreases |Remaining()|, 11
    {
      hide P.ParseStmt, P.ParseBody;
      Expect(LBrace);
      body := [];
      ghost var start := Remaining();
      ghost var clean := !hadError;
      ghost var goal := P.ParseBody(body, start, clean);
      while current != RBrace && current != EndOfFile && !current.Invalid? && !hadError
        invariant Valid() && P.ParseBody(body, Remaining(), !hadError) == goal
        invariant |Remaining()| <= |start|
        invariant !hadError ==> clean
        decreases |Remaining()|, !hadError
      {
        P.BodyStep(body, Remaining(), !hadError);
        var s := ParseStmt();
        body := body + [s];
      }
      P.BodyStep(body, Remaining(), !hadError);
      Expect(RBrace);
    }

    method ParseIfStmt() returns (s: Stmt<Expr>)
      requires hide *; Valid()
      modifies this
      ensures After(P.ParseIf(old(Remaining()), !old(hadError)), s, true)
      decreases |Remaining()|, 13
    {
      hide P.ParseStmt, P.ParseCond;
      var cond := ParseCond();
      var thenBranch := ParseStmt();
      var hasElse := Match(KwElse);
      if hasElse {
        var elseBranch := ParseStmt();
        return If(cond, thenBranch, Ir.Some(elseBranch));
      }
      s := If(cond, thenBranch, Ir.None);
    }

    method ParseWhileStmt() returns (s: Stmt<Expr>)
      requires hide *; Valid()
      modifies this
      ensures After(P.ParseWhile(old(Remaining()), !old(hadError)), s, true)
      decreases |Remaining()|, 13
    {
      hide P.ParseStmt, P.ParseCond;
      var cond := ParseCond();
      var body := ParseStmt();
      s := While(cond, body);
    }

    method ParseReturnStmt() returns (s: Stmt<Expr>)
      requires hide *; Valid()
      modifies this
      ensures After(P.ParseReturn(old(Remaining()), !old(hadError)), s, true)
    {
      hide P.ParseExpr, P.Ended;
      ghost var ts, ok := Remaining(), !hadError;
      if current != Semicolon {
        var e := ParseExpr();
        ExpectSemicolon(P.ParseExpr(0, ts), ok);
        return Return(Ir.Some(e));
      }
      Expect(Semicolon);
      s := Return(Ir.None);
    }

    /** The rest of an expression statement after the name it starts with. */
    method ParseFromName(name: string) returns (e: Expr)
      requires hide *; Valid()
      modifies this
      ensures After(P.ParseFromName(name, old(Remaining())), e, !old(hadError))
    {
      hide P.ParseFrom, P.ParseNamed;
      ghost var ts, clean := Remaining(), !hadError;
      e := ParseNamed(name);
      P.ErrorBeforeName(name, ts, clean);
      e := ParseMulExprFromLeft(e);
      e := ParseAddExprFromLeft(e);
      e := ParseRelExprFromLeft(e);
      e := ParseLandExprFromLeft(e);
      e := ParseLorExprFromLeft(e);
    }

    /** A declaration, a jump, or an expression statement: the statements without statements inside. */
    method ParseSimpleStmt() returns (s: Stmt<Expr>)
      requires hide *; Valid() && current != LBrace && current != KwIf && current != KwWhile
      modifies this
      ensures After(P.ParseStmt(old(Remaining()), !old(hadError)), s, true)
    {
      hide P.ParseExpr, P.ParseInit, P.ParseConst, P.ParseReturn, P.ParseFromName, P.Ended;
      if current == Semicolon {
        Advance();
        return Empty;
      }
      if current == KwConst {
        var x, e := ParseConst();
        return ConstDecl(x, e);
      }
      if current == KwInt {
        Advance();
        var x := ExpectName();
        var e := ParseInit();
        return VarDecl(x, e);
      }
      if current == KwBreak {
        Advance();
        Expect(Semicolon);
        return Break;
      }
      if current == KwContinue {
        Advance();
        Expect(Semicolon);
        return Continue;
      }
      if current == KwReturn {
        Advance();
        s := ParseReturnStmt();
        return;
      }
      s := ParseExprOrAssign();
    }

    /** An assignment or an expression. */
    method ParseExprOrAssign() returns (s: Stmt<Expr>)
      requires hide *; Valid() && (P.Special(current) ==> current.Name?)
      modifies this
      ensures After(P.ParseStmt(old(Remaining()), !old(hadError)), s, true)
    {
      hide P.ExpectName, P.ParseBlock, P.ParseFrom, P.ParseIf, P.ParseNamed, P.ParseUnary, P.ParseWhile, P.ParseExpr,
           P.ParseFromName, P.Ended;
      ghost var ts, ok := Remaining(), !hadError;
      if current.Name? {
        var name := current.name;
        Advance();
        if current == Assign {
          Advance();
          var value := ParseExpr();
          ExpectSemicolon(P.ParseExpr(0, ts[2..]), ok);
          return AssignStmt(name, value);
        }
        var e := ParseFromName(name);
        ExpectSemicolon(P.ParseFromName(name, ts[1..]), ok);
        return ExprStmt(e);
      }
      var e := ParseExpr();
      ExpectSemicolon(P.ParseExpr(0, ts), ok);
      s := ExprStmt(e);
    }

    method ParseStmt() returns (s: Stmt<Expr>)
      requires hide *; Valid()
      modifies this
      ensures After(P.ParseStmt(old(Remaining()), !old(hadError)), s, true)
      decreases |Remaining()|, 12
    {
      hide P.ParseBlock, P.ParseIf, P.ParseWhile;
      if current == LBrace {
        var body := ParseBlock();
        return Block(body);
      }
      if current == KwIf {
        Advance();
        s := ParseIfStmt();
        return;
      }
      if current == KwWhile {
        Advance();
        s := ParseWhileStmt();
        return;
      }
      s := ParseSimpleStmt();
    }

    // -------------------------------------------------------------- declarations

    method ParseParam() returns (x: string)
      requires hide *; Valid()
      modifies this
      ensures After(P.ParseParam(old(Remaining()), !old(hadError)), x, true)
    {
      Expect(KwInt);
      x := ExpectName();
    }

    method ParseParamList() returns (params: seq<string>)
      requires hide *; Valid() && current != RParen
      modifies this
      ensures After(P.ParseParams(old(Remaining()), !old(hadError)), params, true)
    {
      hide P.ParseParam;
      var first := ParseParam();
      params := [first];
      ghost var goal := P.ParseMoreParams(params, Remaining(), !hadError);
      while current == Comma
        invariant Valid() && P.ParseMoreParams(params, Remaining(), !hadError) == goal
        decreases |Remaining()|
      {
        Advance();
        var next := ParseParam();
        params := params + [next];
      }
    }

    method ParseFuncDef(isInt: bool, name: string) returns (item: Item<Expr>)
      requires hide *; Valid()
      modifies this
      ensures After(P.ParseFuncDef(isInt, name, old(Remaining()), !old(hadError)), item, true)
    {
      hide P.ParseParam, P.ParseMoreParams, P.ParseBlock;
      Expect(LParen);
      var params: seq<string> := [];
      if current != RParen {
        params := ParseParamList();
      }
      Expect(RParen);
      var body := ParseBlock();
      item := Function(isInt, name, params, body);
    }

    method ParseTopLevelItem() returns (item: Item<Expr>)
      requires hide *; Valid()
      modifies this
      ensures After(P.ParseItem(old(Remaining()), !old(hadError)), item, true)
    {
      hide P.ExpectName, P.ParseConst, P.ParseFuncDef, P.ParseInit;
      if current == KwConst {
        var x, e := ParseConst();
        return GlobalConst(x, e);
      }
      if current == KwInt {
        Advance();
        var name := ExpectName();
        if current == Assign {
          var e := ParseInit();
          return GlobalVar(name, e);
        }
        if current == LParen {
          item := ParseFuncDef(true, name);
          return;
        }
        hadError := true;
        return NoItem;
      }
      if current == KwVoid {
        Advance();
        var name := ExpectName();
        item := ParseFuncDef(false, name);
        return;
      }
      hadError := true;
      item := NoItem;
    }

    /** The parser reports no error exactly if the tokens are a file of the grammar, and builds its tree. */
    method ParseCompUnit() returns (items: seq<Item<Expr>>)
      requires hide *; Valid() && !hadError
      modifies this
      ensures !hadError == P.ParseUnit(old(Remaining())).ok
      ensures items == P.ParseUnit(old(Remaining())).value
      ensures !hadError ==> P.IsFile(old(Remaining()), items)
      ensures hadError ==> forall unit :: !P.IsFile(old(Remaining()), unit)
    {
      hide P.IsFile, P.ParseItems;
      ghost var ts := Remaining();
      items := ParseItems();
      if !hadError {
        Expect(EndOfFile);
      }
      P.Judged(ts);
    }

    method ParseItems() returns (items: seq<Item<Expr>>)
      requires hide *; Valid() && !hadError
      modifies this
      ensures After(P.ParseItems([], old(Remaining()), true), items, true)
    {
      hide P.ParseItem;
      items := [];
      ghost var goal := P.ParseItems([], Remaining(), true);
      while current != EndOfFile && !current.Invalid? && !hadError
        invariant Valid() && P.ParseItems(items, Remaining(), !hadError) == goal
        decreases |Remaining()|, !hadError
      {
        var item := ParseTopLevelItem();
        items := items + [item];
      }
    }
  }
}
