/** Tokens, syntax trees, and the grammar of ToyC.

    A concrete tree (`Tree`) keeps the parentheses of the text; erasing them gives the abstract tree that the
    parser builds. `Fits` and its kin say which concrete trees obey precedence, associativity and the rule that
    an `else` belongs to the nearest open `if`. */
module Syntax {
  import Ast
  import Ir

  type Option<T> = Ir.Option<T>

  datatype Token =
    | KwConst | KwInt | KwVoid | KwIf | KwElse | KwWhile | KwBreak | KwContinue | KwReturn
    | Name(name: string) | Number(digits: string)
    | Assign
    | Or | And | Lt | Le | Gt | Ge | Eq | Ne | Plus | Minus | Mul | Div | Mod | Not
    | Semicolon | LBrace | RBrace | LParen | RParen | Comma
    | EndOfFile | Invalid(text: string)

  datatype Expr =
    | IntLiteral(digits: string)
    | Ident(name: string)
    | Binary(op: Ast.BinaryOp, lhs: Expr, rhs: Expr)
    | Unary(uop: Ast.UnaryOp, operand: Expr)
    | Call(callee: string, args: seq<Expr>)

  datatype Tree =
    | Literal(digits: string)
    | Variable(name: string)
    | Infix(op: Ast.BinaryOp, left: Tree, right: Tree)
    | Prefix(uop: Ast.UnaryOp, operand: Tree)
    | Apply(callee: string, args: seq<Tree>)
    | Paren(inner: Tree)

  /** Statements and declarations over either kind of expression. */
  datatype Stmt<E> =
    | Block(body: seq<Stmt<E>>)
    | Empty
    | ExprStmt(expr: E)
    | AssignStmt(target: string, value: E)
    | ConstDecl(name: string, init: E)
    | VarDecl(name: string, init: E)
    | If(cond: E, thenBranch: Stmt<E>, elseBranch: Option<Stmt<E>>)
    | While(cond: E, loopBody: Stmt<E>)
    | Break
    | Continue
    | Return(result: Option<E>)

  /** `NoItem` is what the parser leaves behind when an error stops it before it knows the kind of the item. */
  datatype Item<E> =
    | GlobalConst(name: string, init: E)
    | GlobalVar(name: string, init: E)
    | Function(isInt: bool, name: string, params: seq<string>, body: seq<Stmt<E>>)
    | NoItem

  /** The token at the front; the lexer repeats the end of the file for ever. */
  function Head(ts: seq<Token>): Token {
    if ts == [] then EndOfFile else ts[0]
  }

  function Lexeme(t: Token): string {
    match t
    case KwConst => "const" case KwInt => "int" case KwVoid => "void"
    case KwIf => "if" case KwElse => "else" case KwWhile => "while"
    case KwBreak => "break" case KwContinue => "continue" case KwReturn => "return"
    case Name(s) => s
    case Number(s) => s
    case Assign => "="
    case Or => "||" case And => "&&"
    case Lt => "<" case Le => "<=" case Gt => ">" case Ge => ">=" case Eq => "==" case Ne => "!="
    case Plus => "+" case Minus => "-" case Mul => "*" case Div => "/" case Mod => "%" case Not => "!"
    case Semicolon => ";" case LBrace => "{" case RBrace => "}" case LParen => "(" case RParen => ")"
    case Comma => ","
    case EndOfFile => ""
    case Invalid(s) => s
  }

  /** The operators from loosest to tightest: `||`, `&&`, comparisons, sums, products. */
  function Level(op: Ast.BinaryOp): (p: nat)
    ensures p <= 4
  {
    match op
    case Or => 0
    case And => 1
    case Lt => 2 case Le => 2 case Gt => 2 case Ge => 2 case Eq => 2 case Ne => 2
    case Add => 3 case Sub => 3
    case Mul => 4 case Div => 4 case Mod => 4
  }

  function InfixToken(op: Ast.BinaryOp): Token {
    match op
    case Or => Or case And => And
    case Lt => Lt case Le => Le case Gt => Gt case Ge => Ge case Eq => Eq case Ne => Ne
    case Add => Plus case Sub => Minus
    case Mul => Mul case Div => Div case Mod => Mod
  }

  function PrefixToken(op: Ast.UnaryOp): Token {
    match op
    case Plus => Plus case Minus => Minus case Not => Not
  }

  /** The infix operator that a token stands for. */
  function InfixOf(t: Token): (r: Option<Ast.BinaryOp>)
    ensures r.Some? ==> InfixToken(r.value) == t
  {
    match t
    case Or => Ir.Some(Ast.Or)
    case And => Ir.Some(Ast.And)
    case Lt => Ir.Some(Ast.Lt)
    case Le => Ir.Some(Ast.Le)
    case Gt => Ir.Some(Ast.Gt)
    case Ge => Ir.Some(Ast.Ge)
    case Eq => Ir.Some(Ast.Eq)
    case Ne => Ir.Some(Ast.Ne)
    case Plus => Ir.Some(Ast.Add)
    case Minus => Ir.Some(Ast.Sub)
    case Mul => Ir.Some(Ast.Mul)
    case Div => Ir.Some(Ast.Div)
    case Mod => Ir.Some(Ast.Mod)
    case _ => Ir.None
  }

  lemma InfixOfToken(op: Ast.BinaryOp)
    ensures InfixOf(InfixToken(op)) == Ir.Some(op)
  {
  }

  /** How the operators are written, and which bind tighter. */
  lemma OperatorsAreSpelled(op: Ast.BinaryOp, sign: Ast.UnaryOp)
    ensures Lexeme(InfixToken(op)) ==
            match op
            case Or => "||" case And => "&&"
            case Lt => "<" case Le => "<=" case Gt => ">" case Ge => ">=" case Eq => "==" case Ne => "!="
            case Add => "+" case Sub => "-" case Mul => "*" case Div => "/" case Mod => "%"
    ensures Lexeme(PrefixToken(sign)) == match sign case Plus => "+" case Minus => "-" case Not => "!"
    ensures Level(Ast.Or) < Level(Ast.And) < Level(Ast.Lt) < Level(Ast.Add) < Level(Ast.Mul)
    ensures op in {Ast.Lt, Ast.Le, Ast.Gt, Ast.Ge, Ast.Eq, Ast.Ne} <==> Level(op) == Level(Ast.Lt)
    ensures op in {Ast.Add, Ast.Sub} <==> Level(op) == Level(Ast.Add)
    ensures op in {Ast.Mul, Ast.Div, Ast.Mod} <==> Level(op) == Level(Ast.Mul)
  {
  }

  /** How tightly a token binds as an infix operator; -1 if it is none. */
  function Binds(t: Token): int {
    if InfixOf(t).Some? then Level(InfixOf(t).value) else -1
  }

  // ---------------------------------------------------------------- erasing

  function Erase(t: Tree): Expr
    decreases t
  {
    match t
    case Literal(s) => IntLiteral(s)
    case Variable(s) => Ident(s)
    case Infix(op, l, r) => Binary(op, Erase(l), Erase(r))
    case Prefix(op, a) => Unary(op, Erase(a))
    case Apply(f, args) => Call(f, EraseAll(args))
    case Paren(a) => Erase(a)
  }

  function EraseAll(ts: seq<Tree>): (r: seq<Expr>)
    ensures |r| == |ts|
    decreases ts
  {
    if ts == [] then [] else EraseAll(ts[..|ts| - 1]) + [Erase(ts[|ts| - 1])]
  }

  function EraseStmt(s: Stmt<Tree>): Stmt<Expr>
    decreases s
  {
    match s
    case Block(body) => Block(EraseBody(body))
    case Empty => Empty
    case ExprStmt(e) => ExprStmt(Erase(e))
    case AssignStmt(x, e) => AssignStmt(x, Erase(e))
    case ConstDecl(x, e) => ConstDecl(x, Erase(e))
    case VarDecl(x, e) => VarDecl(x, Erase(e))
    case If(c, a, None) => If(Erase(c), EraseStmt(a), Ir.None)
    case If(c, a, Some(b)) => If(Erase(c), EraseStmt(a), Ir.Some(EraseStmt(b)))
    case While(c, a) => While(Erase(c), EraseStmt(a))
    case Break => Break
    case Continue => Continue
    case Return(None) => Return(Ir.None)
    case Return(Some(e)) => Return(Ir.Some(Erase(e)))
  }

  function EraseBody(body: seq<Stmt<Tree>>): seq<Stmt<Expr>>
    decreases body
  {
    if body == [] then [] else EraseBody(body[..|body| - 1]) + [EraseStmt(body[|body| - 1])]
  }

  function EraseItem(item: Item<Tree>): Item<Expr> {
    match item
    case GlobalConst(x, e) => GlobalConst(x, Erase(e))
    case GlobalVar(x, e) => GlobalVar(x, Erase(e))
    case Function(k, f, ps, body) => Function(k, f, ps, EraseBody(body))
    case NoItem => NoItem
  }

  function EraseUnit(items: seq<Item<Tree>>): seq<Item<Expr>> {
    if items == [] then [] else EraseUnit(items[..|items| - 1]) + [EraseItem(items[|items| - 1])]
  }

  // ---------------------------------------------------------------- tokens of a tree

  /** The tokens of a tree, followed by `after`. */
  function Flatten(t: Tree, after: seq<Token>): (ts: seq<Token>)
    ensures |ts| > |after|
    ensures EndOfFile in after ==> EndOfFile in ts
    decreases t
  {
    match t
    case Literal(s) => [Number(s)] + after
    case Variable(s) => [Token.Name(s)] + after
    case Infix(op, l, r) => Flatten(l, [InfixToken(op)] + Flatten(r, after))
    case Prefix(op, a) => [PrefixToken(op)] + Flatten(a, after)
    case Apply(f, args) => [Token.Name(f)] + ([LParen] + FlattenArgs(args, [RParen] + after))
    case Paren(a) => [LParen] + Flatten(a, [RParen] + after)
  }

  function FlattenArgs(args: seq<Tree>, after: seq<Token>): (ts: seq<Token>)
    ensures |ts| >= |after|
    ensures EndOfFile in after ==> EndOfFile in ts
    decreases args
  {
    var n := |args| - 1;
    if n == -1 then after
    else if n == 0 then Flatten(args[0], after)
    else FlattenArgs(args[..n], [Comma] + Flatten(args[n], after))
  }

  /** `= e ;` */
  function FlattenInit(e: Tree, after: seq<Token>): seq<Token> {
    [Assign] + Flatten(e, [Semicolon] + after)
  }

  /** `( e )` */
  function FlattenCond(e: Tree, after: seq<Token>): seq<Token> {
    [LParen] + Flatten(e, [RParen] + after)
  }

  function FlattenConst(x: string, e: Tree, after: seq<Token>): seq<Token> {
    [KwConst] + ([KwInt] + ([Token.Name(x)] + FlattenInit(e, after)))
  }

  function FlattenStmt(s: Stmt<Tree>, after: seq<Token>): (ts: seq<Token>)
    ensures EndOfFile in after ==> EndOfFile in ts
    decreases s
  {
    match s
    case Block(body) => [LBrace] + FlattenBody(body, [RBrace] + after)
    case Empty => [Semicolon] + after
    case ExprStmt(e) => Flatten(e, [Semicolon] + after)
    case AssignStmt(x, e) => [Token.Name(x)] + FlattenInit(e, after)
    case ConstDecl(x, e) => FlattenConst(x, e, after)
    case VarDecl(x, e) => [KwInt] + ([Token.Name(x)] + FlattenInit(e, after))
    case If(c, a, None) => [KwIf] + FlattenCond(c, FlattenStmt(a, after))
    case If(c, a, Some(b)) => [KwIf] + FlattenCond(c, FlattenStmt(a, [KwElse] + FlattenStmt(b, after)))
    case While(c, a) => [KwWhile] + FlattenCond(c, FlattenStmt(a, after))
    case Break => [KwBreak] + ([Semicolon] + after)
    case Continue => [KwContinue] + ([Semicolon] + after)
    case Return(None) => [KwReturn] + ([Semicolon] + after)
    case Return(Some(e)) => [KwReturn] + Flatten(e, [Semicolon] + after)
  }

  function FlattenBody(body: seq<Stmt<Tree>>, after: seq<Token>): (ts: seq<Token>)
    ensures EndOfFile in after ==> EndOfFile in ts
    decreases body
  {
    var n := |body| - 1;
    if n == -1 then after else FlattenBody(body[..n], FlattenStmt(body[n], after))
  }

  function FlattenParams(ps: seq<string>, after: seq<Token>): (ts: seq<Token>)
    ensures EndOfFile in after ==> EndOfFile in ts
  {
    var n := |ps| - 1;
    if n == -1 then after
    else if n == 0 then [KwInt] + ([Token.Name(ps[0])] + after)
    else FlattenParams(ps[..n], [Comma] + ([KwInt] + ([Token.Name(ps[n])] + after)))
  }

  function FlattenItem(item: Item<Tree>, after: seq<Token>): (ts: seq<Token>)
    ensures EndOfFile in after ==> EndOfFile in ts
  {
    match item
    case GlobalConst(x, e) => FlattenConst(x, e, after)
    case GlobalVar(x, e) => [KwInt] + ([Token.Name(x)] + FlattenInit(e, after))
    case Function(k, f, ps, body) => [if k then KwInt else KwVoid]
      + ([Token.Name(f)] + FlattenFunction(ps, body, after))
    case NoItem => after
  }

  function FlattenFunction(ps: seq<string>, body: seq<Stmt<Tree>>, after: seq<Token>): seq<Token> {
    [LParen] + FlattenParams(ps, [RParen] + FlattenStmt(Block(body), after))
  }

  function FlattenUnit(items: seq<Item<Tree>>, after: seq<Token>): (ts: seq<Token>)
    ensures EndOfFile in after ==> EndOfFile in ts
  {
    var n := |items| - 1;
    if n == -1 then after else FlattenUnit(items[..n], FlattenItem(items[n], after))
  }

  // ---------------------------------------------------------------- the grammar

  /** How tightly a tree holds together: the level of its operator, 5 for a prefix operator, 6 for the rest. */
  function Rank(t: Tree): nat {
    match t
    case Infix(op, _, _) => Level(op)
    case Prefix(_, _) => 5
    case _ => 6
  }

  /** The tree may stand where the grammar asks for an expression of level `p` (0 is `||`, 5 is unary). */
  predicate Fits(t: Tree, p: nat)
    decreases t
  {
    && p <= Rank(t)
    && match t
       case Literal(_) => true
       case Variable(_) => true
       case Infix(op, l, r) => Fits(l, Level(op)) && Fits(r, Level(op) + 1)
       case Prefix(_, a) => Fits(a, 5)
       case Apply(_, args) => FitsAll(args)
       case Paren(a) => Fits(a, 0)
  }

  predicate FitsAll(ts: seq<Tree>)
    decreases ts
  {
    ts != [] ==> FitsAll(ts[..|ts| - 1]) && Fits(ts[|ts| - 1], 0)
  }

  /** The statement ends in an `if` that an `else` would attach to. */
  predicate OpenEnded(s: Stmt<Tree>)
    decreases s
  {
    match s
    case If(_, _, None) => true
    case If(_, _, Some(b)) => OpenEnded(b)
    case While(_, a) => OpenEnded(a)
    case _ => false
  }

  predicate FitsStmt(s: Stmt<Tree>)
    decreases s
  {
    match s
    case Block(body) => FitsBody(body)
    case ExprStmt(e) => Fits(e, 0)
    case AssignStmt(_, e) => Fits(e, 0)
    case ConstDecl(_, e) => Fits(e, 0)
    case VarDecl(_, e) => Fits(e, 0)
    case If(c, a, None) => Fits(c, 0) && FitsStmt(a)
    case If(c, a, Some(b)) => Fits(c, 0) && FitsStmt(a) && !OpenEnded(a) && FitsStmt(b)
    case While(c, a) => Fits(c, 0) && FitsStmt(a)
    case Return(Some(e)) => Fits(e, 0)
    case _ => true
  }

  predicate FitsBody(body: seq<Stmt<Tree>>)
    decreases body
  {
    body != [] ==> FitsBody(body[..|body| - 1]) && FitsStmt(body[|body| - 1])
  }

  predicate FitsItem(item: Item<Tree>) {
    match item
    case GlobalConst(_, e) => Fits(e, 0)
    case GlobalVar(_, e) => Fits(e, 0)
    case Function(_, _, _, body) => FitsBody(body)
    case NoItem => false
  }

  predicate FitsUnit(items: seq<Item<Tree>>) {
    items != [] ==> FitsUnit(items[..|items| - 1]) && FitsItem(items[|items| - 1])
  }

  // ---------------------------------------------------------------- minimal parentheses

  /** The tree with parentheses only where level `p` needs them. */
  function Minimal(e: Expr, p: nat): (t: Tree)
    requires p <= 6
    decreases e, 1
  {
    var t := Bare(e);
    if Rank(t) < p then Paren(t) else t
  }

  function Bare(e: Expr): Tree
    decreases e, 0
  {
    match e
    case IntLiteral(s) => Literal(s)
    case Ident(s) => Variable(s)
    case Binary(op, l, r) => Infix(op, Minimal(l, Level(op)), Minimal(r, Level(op) + 1))
    case Unary(op, a) => Prefix(op, Minimal(a, 5))
    case Call(f, args) => Apply(f, MinimalAll(args))
  }

  function MinimalAll(es: seq<Expr>): (ts: seq<Tree>)
    ensures |ts| == |es|
    decreases es
  {
    if es == [] then [] else MinimalAll(es[..|es| - 1]) + [Minimal(es[|es| - 1], 0)]
  }

  /** Printing obeys the grammar and loses nothing. */
  lemma {:induction false} MinimalFits(e: Expr, p: nat)
    requires p <= 6
    ensures Fits(Minimal(e, p), p) && Erase(Minimal(e, p)) == e
    decreases e, 1
  {
    BareFits(e);
  }

  lemma {:induction false} BareFits(e: Expr)
    ensures Fits(Bare(e), 0) && Fits(Bare(e), Rank(Bare(e))) && Erase(Bare(e)) == e
    decreases e, 0
  {
    match e
    case Binary(op, l, r) => MinimalFits(l, Level(op)); MinimalFits(r, Level(op) + 1);
    case Unary(op, a) => MinimalFits(a, 5);
    case Call(f, args) => MinimalAllFits(args);
    case _ =>
  }

  lemma {:induction false} MinimalAllFits(es: seq<Expr>)
    ensures FitsAll(MinimalAll(es)) && EraseAll(MinimalAll(es)) == es
    decreases es
  {
    if es != [] {
      MinimalAllFits(es[..|es| - 1]);
      MinimalFits(es[|es| - 1], 0);
      var ts := MinimalAll(es);
      assert ts[..|ts| - 1] == MinimalAll(es[..|es| - 1]);
      assert es == es[..|es| - 1] + [es[|es| - 1]];
    }
  }

  /** No tree that fits and means the same has fewer tokens. */
  lemma {:induction false} MinimalIsShortest(t: Tree, p: nat, fewer: seq<Token>, after: seq<Token>)
    requires hide *; p <= 6 && Fits(t, p) && |fewer| <= |after|
    ensures |Flatten(Minimal(Erase(t), p), fewer)| <= |Flatten(t, after)|
    decreases t
  {
    hide EraseAll, FlattenArgs, InfixToken, Level, MinimalAll;
    match t
    case Infix(op, l, r) =>
      MinimalIsShortest(r, Level(op) + 1, fewer, after);
      MinimalIsShortest(l, Level(op), [InfixToken(op)] + Flatten(Minimal(Erase(r), Level(op) + 1), fewer),
                        [InfixToken(op)] + Flatten(r, after));
    case Prefix(_, a) => MinimalIsShortest(a, 5, fewer, after);
    case Apply(_, args) => MinimalArgsAreShortest(args, [RParen] + fewer, [RParen] + after);
    case Paren(a) =>
      MinimalIsShortest(a, 0, fewer, [RParen] + after);
      MinimalIsShortest(a, 0, [RParen] + fewer, [RParen] + after);
    case _ =>
  }

  lemma {:induction false} MinimalArgsAreShortest(ts: seq<Tree>, fewer: seq<Token>, after: seq<Token>)
    requires FitsAll(ts) && |fewer| <= |after|
    ensures |FlattenArgs(MinimalAll(EraseAll(ts)), fewer)| <= |FlattenArgs(ts, after)|
    decreases ts
  {
    hide Erase, Fits, Flatten, Minimal;
    var n := |ts| - 1;
    if n >= 0 {
      MinimalIsShortest(ts[n], 0, fewer, after);
      var es := EraseAll(ts);
      assert es[..n] == EraseAll(ts[..n]) && es[n] == Erase(ts[n]);
      var ms := MinimalAll(es);
      assert ms[..n] == MinimalAll(es[..n]) && ms[n] == Minimal(es[n], 0);
      MinimalArgsAreShortest(ts[..n], [Comma] + Flatten(ms[n], fewer), [Comma] + Flatten(ts[n], after));
      assert n == 0 ==> ms == [ms[0]];
    }
  }
}
