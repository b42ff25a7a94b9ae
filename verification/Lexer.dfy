/** The lexer: it delivers one token at a time from the characters it has not read. */
module LexerClass {
  import opened Syntax
  import opened Lexing

  class Lexer {
    /** What has not been read; its first character is the one under the cursor. */
    var input: string
    /** The token delivered last. */
    var current: Token
    var failed: bool

    constructor (text: string)
      ensures input == text && current == EndOfFile && !failed
    {
      input := text;
      current := EndOfFile;
      failed := false;
    }

    /** Skip white space and comments. */
    method SkipWhitespaceAndComments()
      requires !failed
      modifies this`input, this`failed
      ensures failed == Skip(old(input)).None?
      ensures !failed ==> input == Skip(old(input)).value
      ensures |input| <= |old(input)|
    {
      while input != []
        invariant Skip(input) == Skip(old(input)) && !failed && |input| <= |old(input)|
        decreases |input|
      {
        if IsSpace(input[0]) {
          input := input[1..];
        } else if input[0] == '/' && |input| > 1 && input[1] == '/' {
          input := input[2..];
          ghost var comment := input;
          while input != [] && input[0] != '\n'
            invariant SkipLine(input) == SkipLine(comment) && |input| <= |comment| && !failed
            decreases |input|
          {
            input := input[1..];
          }
        } else if input[0] == '/' && |input| > 1 && input[1] == '*' {
          input := input[2..];
          var closed := SkipBlockComment();
          if !closed {
            failed := true;
            return;
          }
        } else {
          break;
        }
      }
    }

    /** Skip the rest of a block comment. */
    method SkipBlockComment() returns (closed: bool)
      modifies this`input
      ensures closed == SkipBlock(old(input)).Some?
      ensures closed ==> input == SkipBlock(old(input)).value
      ensures |input| <= |old(input)|
    {
      closed := false;
      while input != []
        invariant SkipBlock(input) == SkipBlock(old(input)) && |input| <= |old(input)|
        decreases |input|
      {
        if input[0] == '*' && |input| > 1 && input[1] == '/' {
          input := input[2..];
          return true;
        }
        input := input[1..];
      }
    }

    method ScanIdentifierOrKeyword() returns (t: Token)
      requires input != [] && StartsName(input[0])
      modifies this`input
      ensures var n := NameRun(old(input)); t == Keyword(old(input)[..n]) && input == old(input)[n..]
    {
      hide Keyword;
      ghost var text := input;
      var lexeme := [input[0]];
      input := input[1..];
      while input != [] && InName(input[0])
        invariant text == lexeme + input && NameRun(text) == |lexeme| + NameRun(input)
        decreases |input|
      {
        lexeme := lexeme + [input[0]];
        input := input[1..];
      }
      t := Keyword(lexeme);
    }

    method ScanNumber(leadingMinus: bool) returns (t: Token)
      requires leadingMinus ==> input != []
      modifies this`input
      ensures var sign := if leadingMinus then 1 else 0;
        var n := sign + NumberRun(old(input)[sign..]);
        t == Number(old(input)[..n]) && input == old(input)[n..]
    {
      ghost var text := input;
      var lexeme: string := [];
      if leadingMinus {
        lexeme := [input[0]];
        input := input[1..];
      }
      ghost var digits, sign := input, |lexeme|;
      if input != [] && input[0] == '0' {
        lexeme := lexeme + ['0'];
        input := input[1..];
        assert text == lexeme + input;
      } else {
        while input != [] && IsDigit(input[0])
          invariant text == lexeme + input && sign + DigitRun(digits) == |lexeme| + DigitRun(input)
          decreases |input|
        {
          lexeme := lexeme + [input[0]];
          input := input[1..];
        }
      }
      t := Number(lexeme);
    }

    /** After an error the lexer delivers nothing but an invalid token. */
    method Next() returns (t: Token)
      modifies this
      ensures hide *; t == current
      ensures old(failed) ==> t == Invalid("") && failed && input == old(input)
      ensures !old(failed) ==> var s := Lexing.NextToken(old(input), old(current));
        t == s.token && failed == t.Invalid? && (!failed ==> input == s.rest)
    {
      hide Symbol, Keyword, NumberRun, NameRun, Skip;
      if failed {
        current := Invalid("");
        return current;
      }
      SkipWhitespaceAndComments();
      if failed {
        current := Invalid("");
        return current;
      }
      if input == [] {
        current := EndOfFile;
        return current;
      }
      if StartsName(input[0]) {
        KeywordIsValid();
        current := ScanIdentifierOrKeyword();
        return current;
      }
      if input[0] == '-' && !EndsOperand(current) && |input| > 1 && IsDigit(input[1]) {
        current := ScanNumber(true);
        return current;
      }
      if IsDigit(input[0]) {
        current := ScanNumber(false);
        return current;
      }
      var s := Symbol(input);
      input := s.rest;
      current := s.token;
      failed := current.Invalid?;
      return current;
    }
  }

  lemma KeywordIsValid()
    ensures forall word :: !Keyword(word).Invalid?
  {
  }

  /** The tokens that a fresh lexer delivers up to the end of the text or the first error. */
  method Tokens(text: string) returns (ts: seq<Token>)
    ensures ts == Lex(text, EndOfFile)
  {
    hide NextToken;
    var lexer := new Lexer(text);
    ts := [];
    var t := lexer.Next();
    ghost var rest, before := text, EndOfFile;
    assert ts + Lex(text, EndOfFile) == Lex(text, EndOfFile);
    while t != EndOfFile && !t.Invalid?
      invariant fresh(lexer) && ts + Lex(rest, before) == Lex(text, EndOfFile)
      invariant var s := Lexing.NextToken(rest, before);
        t == s.token && lexer.failed == t.Invalid? && lexer.current == t && (!lexer.failed ==> lexer.input == s.rest)
      decreases |rest|
    {
      LexStep(rest, before);
      ts := ts + [t];
      rest, before := lexer.input, t;
      t := lexer.Next();
    }
    if t.Invalid? {
      ts := ts + [t];
    }
  }
}
