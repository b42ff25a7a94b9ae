/** What the lexer computes, as functions of the characters that are left and of the token before, and which
    lists of tokens survive being printed and read again. */
module Lexing {
  import opened Syntax
  import Ast
  import Ir

  predicate IsSpace(c: char) {
    c == ' ' || 9 <= c as int <= 13
  }

  predicate IsDigit(c: char) {
    '0' <= c <= '9'
  }

  predicate StartsName(c: char) {
    'a' <= c <= 'z' || 'A' <= c <= 'Z' || c == '_'
  }

  predicate InName(c: char) {
    StartsName(c) || IsDigit(c)
  }

  /** How many characters at the front belong to a name. */
  function NameRun(cs: string): (n: nat)
    ensures n <= |cs|
  {
    if cs != [] && InName(cs[0]) then 1 + NameRun(cs[1..]) else 0
  }

  function DigitRun(cs: string): (n: nat)
    ensures n <= |cs|
  {
    if cs != [] && IsDigit(cs[0]) then 1 + DigitRun(cs[1..]) else 0
  }

  /** A number never goes on after a leading zero. */
  function NumberRun(cs: string): (n: nat)
    ensures n <= |cs|
  {
    if cs != [] && cs[0] == '0' then 1 else DigitRun(cs)
  }

  function SkipLine(cs: string): (rest: string)
    ensures |rest| <= |cs|
  {
    if cs == [] || cs[0] == '\n' then cs else SkipLine(cs[1..])
  }

  /** The characters after the end of a block comment, if it has one. */
  function SkipBlock(cs: string): (r: Option<string>)
    ensures r.Some? ==> |r.value| <= |cs|
  {
    if cs == [] then Ir.None
    else if cs[0] == '*' && |cs| > 1 && cs[1] == '/' then Ir.Some(cs[2..])
    else SkipBlock(cs[1..])
  }

  /** The characters after white space and comments; none if a comment does not end. */
  function Skip(cs: string): (r: Option<string>)
    ensures r.Some? ==> |r.value| <= |cs|
    decreases |cs|
  {
    if cs == [] then Ir.Some(cs)
    else if IsSpace(cs[0]) then Skip(cs[1..])
    else if cs[0] == '/' && |cs| > 1 && cs[1] == '/' then Skip(SkipLine(cs[2..]))
    else if cs[0] == '/' && |cs| > 1 && cs[1] == '*' then
      match SkipBlock(cs[2..])
      case None => Ir.None
      case Some(rest) => Skip(rest)
    else Ir.Some(cs)
  }

  function Keyword(word: string): Token {
    if word == "const" then KwConst
    else if word == "int" then KwInt
    else if word == "void" then KwVoid
    else if word == "if" then KwIf
    else if word == "else" then KwElse
    else if word == "while" then KwWhile
    else if word == "break" then KwBreak
    else if word == "continue" then KwContinue
    else if word == "return" then KwReturn
    else Name(word)
  }

  /** After such a token `-` is an operator. */
  predicate EndsOperand(t: Token) {
    t.Name? || t.Number? || t == RParen
  }

  /** A token and the characters after it. */
  datatype Scanned = Scanned(token: Token, rest: string)

  /** An operator or a delimiter. */
  function Symbol(cs: string): (r: Scanned)
    requires cs != []
    ensures |r.rest| < |cs|
  {
    var one, two := cs[1..], |cs| > 1;
    match cs[0]
    case '+' => Scanned(Plus, one)
    case '-' => Scanned(Minus, one)
    case '*' => Scanned(Mul, one)
    case '%' => Scanned(Mod, one)
    case ';' => Scanned(Semicolon, one)
    case '{' => Scanned(LBrace, one)
    case '}' => Scanned(RBrace, one)
    case '(' => Scanned(LParen, one)
    case ')' => Scanned(RParen, one)
    case ',' => Scanned(Comma, one)
    case '=' => if two && cs[1] == '=' then Scanned(Eq, cs[2..]) else Scanned(Assign, one)
    case '!' => if two && cs[1] == '=' then Scanned(Ne, cs[2..]) else Scanned(Not, one)
    case '<' => if two && cs[1] == '=' then Scanned(Le, cs[2..]) else Scanned(Lt, one)
    case '>' => if two && cs[1] == '=' then Scanned(Ge, cs[2..]) else Scanned(Gt, one)
    case '/' => Scanned(Div, one)
    case '&' => if two && cs[1] == '&' then Scanned(And, cs[2..]) else Scanned(Invalid("&"), one)
    case '|' => if two && cs[1] == '|' then Scanned(Or, cs[2..]) else Scanned(Invalid("|"), one)
    case c => Scanned(Invalid([c]), one)
  }

  /** The token at the front, where there is one and nothing to skip. */
  function Scan(cs: string, before: Token): (r: Scanned)
    requires cs != []
    ensures |r.rest| < |cs|
  {
    var c := cs[0];
    if StartsName(c) then
      var n := NameRun(cs);
      Scanned(Keyword(cs[..n]), cs[n..])
    else if c == '-' && !EndsOperand(before) && |cs| > 1 && IsDigit(cs[1]) then
      var n := 1 + NumberRun(cs[1..]);
      Scanned(Number(cs[..n]), cs[n..])
    else if IsDigit(c) then
      var n := NumberRun(cs);
      Scanned(Number(cs[..n]), cs[n..])
    else Symbol(cs)
  }

  function NextToken(cs: string, before: Token): (r: Scanned)
    ensures r.token == EndOfFile || r.token.Invalid? || |r.rest| < |cs|
  {
    match Skip(cs)
    case None => Scanned(Invalid(""), [])
    case Some(rest) => if rest == [] then Scanned(EndOfFile, []) else Scan(rest, before)
  }

  /** All the tokens, up to the end of the file or the first error. */
  function Lex(cs: string, before: Token): seq<Token>
    decreases |cs|
  {
    var t := NextToken(cs, before);
    if t.token == EndOfFile then []
    else if t.token.Invalid? then [t.token]
    else [t.token] + Lex(t.rest, t.token)
  }

  /** A space, a tab, a line feed, a vertical tab, a form feed and a carriage return separate tokens, and nothing else
      is passed over without a comment. */
  lemma OnlySpacesAreSkipped(c: char, cs: string)
    requires c != '/'
    ensures Skip([c] + cs) == if c in " \t\n\U{0B}\U{0C}\r" then Skip(cs) else Ir.Some([c] + cs)
  {
    assert ([c] + cs)[1..] == cs;
  }

  // ---------------------------------------------------------------- printing

  /** The lexemes, each followed by a space. */
  function Spaced(ts: seq<Token>): string {
    if ts == [] then [] else Lexeme(ts[0]) + [' '] + Spaced(ts[1..])
  }

  predicate IsNumber(s: string) {
    s != [] && (s == "0" || (s[0] != '0' && forall c :: c in s ==> IsDigit(c)))
  }

  predicate IsName(s: string) {
    s != [] && StartsName(s[0]) && (forall c :: c in s ==> InName(c)) && Keyword(s) == Name(s)
  }

  /** The token can be written after `before` so that it is read as itself. */
  predicate Printable(t: Token, before: Token) {
    match t
    case Name(s) => IsName(s)
    case Number(s) => IsNumber(s) || (s != [] && s[0] == '-' && IsNumber(s[1..]) && !EndsOperand(before))
    case EndOfFile => false
    case Invalid(_) => false
    case _ => true
  }

  predicate AllPrintable(ts: seq<Token>, before: Token) {
    ts != [] ==> Printable(ts[0], before) && AllPrintable(ts[1..], ts[0])
  }

  // ---------------------------------------------------------------- what the lexer delivers is printable

  lemma {:induction false} NameRunIsName(cs: string)
    ensures forall c :: c in cs[..NameRun(cs)] ==> InName(c)
    ensures NameRun(cs) == |cs| || !InName(cs[NameRun(cs)])
  {
    if cs != [] && InName(cs[0]) {
      NameRunIsName(cs[1..]);
      var n := NameRun(cs);
      assert cs[..n] == [cs[0]] + cs[1..][..n - 1];
    }
  }

  lemma {:induction false} DigitRunIsDigits(cs: string)
    ensures forall c :: c in cs[..DigitRun(cs)] ==> IsDigit(c)
    ensures DigitRun(cs) == |cs| || !IsDigit(cs[DigitRun(cs)])
  {
    if cs != [] && IsDigit(cs[0]) {
      DigitRunIsDigits(cs[1..]);
      var n := DigitRun(cs);
      assert cs[..n] == [cs[0]] + cs[1..][..n - 1];
    }
  }

  lemma NumberRunIsNumber(cs: string)
    requires cs != [] && IsDigit(cs[0])
    ensures IsNumber(cs[..NumberRun(cs)])
  {
    DigitRunIsDigits(cs);
  }

  lemma KeywordIsPrintable(word: string, before: Token)
    requires word != [] && StartsName(word[0]) && forall c :: c in word ==> InName(c)
    ensures Printable(Keyword(word), before)
  {
  }

  lemma ScanIsPrintable(cs: string, before: Token)
    requires hide *; cs != [] && !Scan(cs, before).token.Invalid?
    ensures Printable(Scan(cs, before).token, before)
  {
    hide Symbol, Keyword, IsNumber;
    var c := cs[0];
    if StartsName(c) {
      NameRunIsName(cs);
      KeywordIsPrintable(cs[..NameRun(cs)], before);
    } else if c == '-' && !EndsOperand(before) && |cs| > 1 && IsDigit(cs[1]) {
      NumberRunIsNumber(cs[1..]);
      var n := NumberRun(cs[1..]);
      assert cs[..1 + n][1..] == cs[1..][..n];
    } else if IsDigit(c) {
      NumberRunIsNumber(cs);
    } else {
      SymbolIsPrintable(cs, before);
    }
  }

  lemma SymbolIsPrintable(cs: string, before: Token)
    requires cs != [] && !Symbol(cs).token.Invalid?
    ensures Printable(Symbol(cs).token, before)
  {
  }

  /** Without an error, every token of a text is printable after the one before it. */
  lemma {:induction false} LexedIsPrintable(cs: string, before: Token)
    requires forall t :: t in Lex(cs, before) ==> !t.Invalid?
    ensures AllPrintable(Lex(cs, before), before)
    decreases |cs|
  {
    hide Scan, Printable, Skip;
    var t := NextToken(cs, before);
    if t.token != EndOfFile {
      assert Lex(cs, before)[0] == t.token;
      ScanIsPrintable(Skip(cs).value, before);
      assert Lex(cs, before)[1..] == Lex(t.rest, t.token);
      LexedIsPrintable(t.rest, t.token);
    }
  }

  // ---------------------------------------------------------------- what is printable is read back

  lemma {:induction false} NameRunOf(s: string, after: string)
    requires (forall c :: c in s ==> InName(c)) && (after == [] || !InName(after[0]))
    ensures NameRun(s + after) == |s|
  {
    if s == [] {
      assert s + after == after;
    } else {
      NameRunOf(s[1..], after);
      assert (s + after)[1..] == s[1..] + after;
    }
  }

  lemma {:induction false} DigitRunOf(s: string, after: string)
    requires (forall c :: c in s ==> IsDigit(c)) && (after == [] || !IsDigit(after[0]))
    ensures DigitRun(s + after) == |s|
  {
    if s == [] {
      assert s + after == after;
    } else {
      DigitRunOf(s[1..], after);
      assert (s + after)[1..] == s[1..] + after;
    }
  }

  lemma NumberRunOf(s: string, after: string)
    requires IsNumber(s) && (after == [] || !IsDigit(after[0]))
    ensures NumberRun(s + after) == |s|
  {
    if s != "0" {
      DigitRunOf(s, after);
    }
  }

  /** A printable token before a space is scanned as itself, and nothing is skipped before it. */
  lemma ScanBack(t: Token, before: Token, after: string)
    requires hide *; Printable(t, before) && after != [] && after[0] == ' '
    ensures Lexeme(t) != [] && NextToken(Lexeme(t) + after, before) == Scanned(t, after)
  {
    hide NextToken;
    if t.Name? {
      NameBack(t.name, before, after);
    } else if t.Number? {
      if IsNumber(t.digits) {
        NumberBack(t.digits, before, after);
      } else {
        NegativeBack(t.digits, before, after);
      }
    } else if IsKeyword(t) {
      NameBack(Lexeme(t), before, after);
    } else {
      SymbolBack(t, before, after);
    }
  }

  lemma NothingToSkip(cs: string)
    requires cs != [] && !IsSpace(cs[0]) && (cs[0] == '/' ==> |cs| > 1 && cs[1] == ' ')
    ensures Skip(cs) == Ir.Some(cs)
  {
  }

  lemma NameBack(s: string, before: Token, after: string)
    requires hide *; s != [] && StartsName(s[0]) && (forall c :: c in s ==> InName(c)) && after != [] && after[0] == ' '
    ensures NextToken(s + after, before) == Scanned(Keyword(s), after)
  {
    hide Keyword;
    NameRunOf(s, after);
    NothingToSkip(s + after);
    assert (s + after)[..|s|] == s && (s + after)[|s|..] == after;
  }

  lemma NumberBack(s: string, before: Token, after: string)
    requires hide *; IsNumber(s) && after != [] && after[0] == ' '
    ensures NextToken(s + after, before) == Scanned(Number(s), after)
  {
    hide Symbol, Keyword, Skip, NumberRun;
    var cs := s + after;
    assert s[0] in s;
    assert cs[..|s|] == s && cs[|s|..] == after;
    NothingToSkip(cs);
    NumberRunOf(s, after);
  }

  lemma NegativeBack(s: string, before: Token, after: string)
    requires hide *;
             s != [] && s[0] == '-' && IsNumber(s[1..]) && !EndsOperand(before) && after != [] && after[0] == ' '
    ensures NextToken(s + after, before) == Scanned(Number(s), after)
  {
    hide Symbol, Keyword, Skip, NumberRun;
    var cs := s + after;
    assert s[1..][0] in s[1..];
    assert cs[..|s|] == s && cs[|s|..] == after && cs[1..] == s[1..] + after;
    NothingToSkip(cs);
    NumberRunOf(s[1..], after);
  }

  predicate IsKeyword(t: Token) {
    t.KwConst? || t.KwInt? || t.KwVoid? || t.KwIf? || t.KwElse? || t.KwWhile? || t.KwBreak? || t.KwContinue? ||
    t.KwReturn?
  }

  predicate IsSymbol(t: Token) {
    !IsKeyword(t) && !t.Name? && !t.Number? && !t.EndOfFile? && !t.Invalid?
  }

  lemma SymbolStarts(t: Token)
    requires IsSymbol(t)
    ensures var s := Lexeme(t);
      && (|s| == 1 || |s| == 2) && !IsSpace(s[0]) && !StartsName(s[0]) && !IsDigit(s[0])
      && (s[0] == '/' || s[0] == '-' ==> |s| == 1)
  {
  }

  lemma SymbolBack(t: Token, before: Token, after: string)
    requires hide *; IsSymbol(t) && after != [] && after[0] == ' '
    ensures NextToken(Lexeme(t) + after, before) == Scanned(t, after)
  {
    hide IsSymbol, Keyword, Lexeme, NameRun, NumberRun, Skip, Symbol, StartsName;
    SymbolStarts(t);
    var s := Lexeme(t);
    var cs := s + after;
    assert cs[0] == s[0] && (|s| == 1 ==> cs[1] == ' ');
    NothingToSkip(cs);
    if |s| == 1 {
      ShortSymbol(t, after);
    } else {
      LongSymbol(t, after);
    }
  }

  lemma ShortSymbol(t: Token, after: string)
    requires IsSymbol(t) && |Lexeme(t)| == 1 && after != [] && after[0] == ' '
    ensures Symbol(Lexeme(t) + after) == Scanned(t, after)
  {
    var cs := Lexeme(t) + after;
    assert cs[0] == Lexeme(t)[0] && cs[1] == ' ' && cs[1..] == after;
  }

  lemma LongSymbol(t: Token, after: string)
    requires IsSymbol(t) && |Lexeme(t)| == 2
    ensures Symbol(Lexeme(t) + after) == Scanned(t, after)
  {
    var cs := Lexeme(t) + after;
    assert cs[0] == Lexeme(t)[0] && cs[1] == Lexeme(t)[1] && cs[2..] == after;
  }

  /** Printing tokens with spaces between and reading the text gives the tokens back exactly if each is printable
      after the one before it. */
  lemma {:induction false} PrintedIsReadBack(ts: seq<Token>, before: Token)
    ensures AllPrintable(ts, before) <==> Lex(Spaced(ts), before) == ts && forall t :: t in ts ==> !t.Invalid?
  {
    hide *;
    if AllPrintable(ts, before) {
      ReadBack(ts, before);
    }
    if Lex(Spaced(ts), before) == ts && forall t :: t in ts ==> !t.Invalid? {
      LexedIsPrintable(Spaced(ts), before);
    }
  }

  lemma {:induction false} ReadBack(ts: seq<Token>, before: Token)
    requires AllPrintable(ts, before)
    ensures Lex(Spaced(ts), before) == ts && forall t :: t in ts ==> !t.Invalid?
  {
    hide NextToken, Lexeme, Lex, Printable;
    if ts == [] {
      EndOfText(before);
    } else {
      var after := [' '] + Spaced(ts[1..]);
      assert Spaced(ts) == Lexeme(ts[0]) + after;
      ScanBack(ts[0], before, after);
      IsRealToken(ts[0], before);
      LexStep(Spaced(ts), before);
      ReadBack(ts[1..], ts[0]);
      SpaceIsSkipped(Spaced(ts[1..]), ts[0]);
      assert ts == [ts[0]] + ts[1..];
    }
  }

  lemma IsRealToken(t: Token, before: Token)
    requires Printable(t, before)
    ensures !t.EndOfFile? && !t.Invalid?
  {
  }

  lemma LexStep(cs: string, before: Token)
    ensures var t := NextToken(cs, before);
      t.token != EndOfFile && !t.token.Invalid? ==> Lex(cs, before) == [t.token] + Lex(t.rest, t.token)
  {
    hide NextToken;
  }

  lemma EndOfText(before: Token)
    ensures Lex([], before) == []
  {
  }

  lemma SpaceIsSkipped(cs: string, before: Token)
    ensures Lex([' '] + cs, before) == Lex(cs, before)
  {
    hide Scan;
    assert ([' '] + cs)[1..] == cs;
    assert Skip([' '] + cs) == Skip(cs);
  }

  /** Reading, printing and reading again changes nothing. */
  lemma Relex(cs: string)
    requires forall t :: t in Lex(cs, EndOfFile) ==> !t.Invalid?
    ensures Lex(Spaced(Lex(cs, EndOfFile)), EndOfFile) == Lex(cs, EndOfFile)
  {
    hide Lex;
    LexedIsPrintable(cs, EndOfFile);
    PrintedIsReadBack(Lex(cs, EndOfFile), EndOfFile);
  }

  // ---------------------------------------------------------------- expressions as text

  /** The names and the numbers of an expression are written as the lexer wants them. */
  predicate WellSpelt(t: Tree)
    decreases t
  {
    match t
    case Literal(s) => Printable(Number(s), EndOfFile)
    case Variable(x) => IsName(x)
    case Infix(_, l, r) => WellSpelt(l) && WellSpelt(r)
    case Prefix(_, a) => WellSpelt(a)
    case Apply(f, args) => IsName(f) && AllWellSpelt(args)
    case Paren(a) => WellSpelt(a)
  }

  predicate AllWellSpelt(ts: seq<Tree>)
    decreases ts
  {
    ts != [] ==> AllWellSpelt(ts[..|ts| - 1]) && WellSpelt(ts[|ts| - 1])
  }

  lemma ConsPrintable(t: Token, ts: seq<Token>, before: Token)
    requires Printable(t, before) && AllPrintable(ts, t)
    ensures AllPrintable([t] + ts, before)
  {
    assert ([t] + ts)[1..] == ts;
  }

  /** What may follow an operand: nothing that `EndsOperand` could change. */
  ghost predicate Safe(ts: seq<Token>) {
    forall before :: AllPrintable(ts, before)
  }

  lemma ConsSafe(t: Token, ts: seq<Token>)
    requires IsSymbol(t) && AllPrintable(ts, t)
    ensures Safe([t] + ts)
  {
    hide AllPrintable;
    forall before ensures AllPrintable([t] + ts, before) {
      ConsPrintable(t, ts, before);
    }
  }

  lemma {:induction false} TreeIsPrintable(t: Tree, before: Token, after: seq<Token>)
    requires WellSpelt(t) && !EndsOperand(before) && Safe(after)
    ensures AllPrintable(Flatten(t, after), before)
    decreases t
  {
    hide AllPrintable, IsName, IsNumber, Safe, EndsOperand;
    match t
    case Literal(s) => LiteralIsPrintable(s, before, after);
    case Variable(x) =>
      SafeAfter(after, Token.Name(x));
      ConsPrintable(Token.Name(x), after, before);
    case Infix(op, l, r) =>
      InfixIsSymbol(op);
      TreeIsPrintable(r, InfixToken(op), after);
      ConsSafe(InfixToken(op), Flatten(r, after));
      TreeIsPrintable(l, before, [InfixToken(op)] + Flatten(r, after));
    case Prefix(op, a) =>
      InfixIsSymbol(Ast.Or);
      TreeIsPrintable(a, PrefixToken(op), after);
      ConsPrintable(PrefixToken(op), Flatten(a, after), before);
    case Apply(f, args) =>
      ParenIsSymbol();
      SafeAfter(after, RParen);
      ConsSafe(RParen, after);
      ArgsArePrintable(args, LParen, [RParen] + after);
      ConsSafe(LParen, FlattenArgs(args, [RParen] + after));
      SafeAfter([LParen] + FlattenArgs(args, [RParen] + after), Token.Name(f));
      ConsPrintable(Token.Name(f), [LParen] + FlattenArgs(args, [RParen] + after), before);
    case Paren(a) =>
      ParenIsSymbol();
      SafeAfter(after, RParen);
      ConsSafe(RParen, after);
      TreeIsPrintable(a, LParen, [RParen] + after);
      ConsPrintable(LParen, Flatten(a, [RParen] + after), before);
  }

  lemma SafeAfter(ts: seq<Token>, before: Token)
    requires Safe(ts)
    ensures AllPrintable(ts, before)
  {
    hide AllPrintable;
  }

  lemma InfixIsSymbol(op: Ast.BinaryOp)
    ensures IsSymbol(InfixToken(op)) && !EndsOperand(InfixToken(op))
    ensures forall u :: !EndsOperand(PrefixToken(u))
  {
  }

  lemma ParenIsSymbol()
    ensures !EndsOperand(LParen) && !EndsOperand(Comma)
  {
  }

  lemma LiteralIsPrintable(s: string, before: Token, after: seq<Token>)
    requires Printable(Number(s), EndOfFile) && !EndsOperand(before) && Safe(after)
    ensures AllPrintable([Number(s)] + after, before)
  {
    hide IsName, IsNumber;
    SafeAfter(after, Number(s));
    ConsPrintable(Number(s), after, before);
  }

  lemma {:induction false} ArgsArePrintable(args: seq<Tree>, before: Token, after: seq<Token>)
    requires AllWellSpelt(args) && !EndsOperand(before) && Safe(after)
    ensures AllPrintable(FlattenArgs(args, after), before)
    decreases args
  {
    hide Flatten, IsName, Printable, WellSpelt, AllPrintable, Safe, EndsOperand;
    var n := |args| - 1;
    if n == -1 {
      SafeAfter(after, before);
    } else if n == 0 {
      TreeIsPrintable(args[0], before, after);
    } else {
      ParenIsSymbol();
      TreeIsPrintable(args[n], Comma, after);
      ConsSafe(Comma, Flatten(args[n], after));
      ArgsArePrintable(args[..n], before, [Comma] + Flatten(args[n], after));
    }
  }

  lemma NothingIsSafe()
    ensures Safe([]) && !EndsOperand(EndOfFile)
  {
  }
}
