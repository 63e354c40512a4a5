/**
 * The `Lexer` class of src/lexer.ts. Its fields are updated in place, as in
 * the source; every method is proved to compute what the matching function
 * of module Scan computes on the fields it starts from.
 */
module Lexing {

  import opened Wrappers
  import opened Tokens
  import opened Errors
  import Scan

  class Lexer {
    const source: string
    var position: nat
    var line: nat
    var column: nat
    var mode: Scan.Mode

    /** The fields as a value. */
    function State(): Scan.LexState
      reads this
    {
      Scan.LexState(source, position, line, column, mode)
    }

    constructor(source: string)
      ensures State() == Scan.Init(source)
    {
      this.source := source;
      position, line, column, mode := 0, 1, 1, Scan.Normal;
    }

    function CurrentChar(): char
      reads this
    {
      Scan.CharAt(source, position)
    }

    function NextChar(): char
      reads this
    {
      Scan.CharAt(source, position + 1)
    }

    /** `next()`: the next token, or the error it throws. */
    method Next() returns (r: Outcome<Token>)
      modifies this
      ensures Scan.Next(old(State())) == Scan.Lexed(State(), r)
    {
      SkipWhitespace();
      var token := ReadToken();
      if token.Err? {
        return token;
      }
      Advance();
      return token;
    }

    /** The `switch` of `next()`. */
    method ReadToken() returns (r: Outcome<Token>)
      modifies this
      ensures (State(), r) == Scan.ReadToken(old(State()))
    {
      var c := CurrentChar();
      var token: Token;
      match c {
        case '\0' => token := NewToken(EOF, Some("\0"));
        case '(' => token := NewToken(LeftParen, None);
        case ')' => token := NewToken(RightParen, None);
        case '{' =>
          if NextChar() == '{' {
            Advance();
            mode := Scan.Expr;
            token := NewToken(TemplateStart, None);
          } else {
            token := NewToken(LeftBrace, None);
          }
        case '}' =>
          if mode == Scan.Expr && NextChar() == '}' {
            Advance();
            mode := Scan.Normal;
            token := NewToken(TemplateEnd, None);
          } else {
            token := NewToken(RightBrace, None);
          }
        case '[' => token := NewToken(LeftBracket, None);
        case ']' => token := NewToken(RightBracket, None);
        case ',' => token := NewToken(Comma, None);
        case '.' => token := NewToken(Dot, None);
        case ':' => token := OneOrTwo('=', Assign, Some(Colon), ":");
        case '=' => token := OneOrTwo('=', Eq, None, "=");
        case '!' => token := OneOrTwo('=', Neq, None, "!");
        case '<' => token := OneOrTwo('=', Lte, Some(Lt), "<");
        case '>' => token := OneOrTwo('=', Gte, Some(Gt), ">");
        case '$' => token := NewToken(Dollar, None);
        case '?' => token := OneOrTwo('?', Coalesce, Some(QuestionMark), "?");
        case '&' => token := OneOrTwo('&', And, None, "&");
        case '|' => token := OneOrTwo('|', Or, None, "|");
        case '\'' | '"' =>
          var text := ReadString();
          if text.Err? {
            return Err(text.error);
          }
          token := NewToken(String, Some(text.value));
        case _ =>
          r := ReadOther();
          return;
      }
      return Ok(token);
    }

    /** The `default` branch of the switch. */
    method ReadOther() returns (r: Outcome<Token>)
      requires CurrentChar() != '\0'
      modifies this
      ensures (State(), r) == Scan.ReadOther(old(State()))
    {
      var c := CurrentChar();
      if Scan.IsLetter(c) {
        var ident := ReadIdentifier();
        var kind := Scan.ResolveIdentifier(ident);
        return Ok(NewToken(kind, if kind == Identifier then Some(ident) else None));
      } else if Scan.IsNumber(c) || c == '-' {
        var lexeme := ReadNumber();
        if lexeme.Err? {
          return Err(lexeme.error);
        }
        return Ok(NewToken(Number, Some(lexeme.value)));
      }
      return Ok(NewToken(Illegal, Some([c])));
    }

    /**
     * The shared shape of the operator cases: `two` when the next character
     * is `second`, else `one` (a single-character token) or an Illegal token
     * carrying `illegal`.
     */
    method OneOrTwo(second: char, two: TokenType, one: Option<TokenType>, illegal: string) returns (t: Token)
      modifies this
      ensures Scan.Following(old(State())) == second ==>
        State() == Scan.Advance(old(State())) && t == Scan.NewToken(State(), two, None)
      ensures Scan.Following(old(State())) != second ==>
        State() == old(State()) &&
        t == (if one.Some? then Scan.NewToken(State(), one.value, None) else Scan.NewToken(State(), Illegal, Some(illegal)))
    {
      if NextChar() == second {
        Advance();
        t := NewToken(two, None);
      } else if one.Some? {
        t := NewToken(one.value, None);
      } else {
        t := NewToken(Illegal, Some(illegal));
      }
    }

    method Advance()
      modifies this
      ensures State() == Scan.Advance(old(State()))
    {
      position := position + 1;
      column := column + 1;
    }

    method AdvanceNewline()
      modifies this
      ensures State() == Scan.AdvanceNewline(old(State()))
    {
      Advance();
      line := line + 1;
      column := 1;
    }

    method SkipWhitespace()
      modifies this
      ensures State() == Scan.SkipWhitespace(old(State()))
    {
      while CurrentChar() != '\0'
        invariant Scan.SkipWhitespace(State()) == Scan.SkipWhitespace(old(State()))
        decreases |source| - position
      {
        if CurrentChar() == '\r' {
          if NextChar() == '\n' {
            Advance();
          }
          AdvanceNewline();
        } else if CurrentChar() == '\n' {
          AdvanceNewline();
        } else if CurrentChar() == ' ' || CurrentChar() == '\t' {
          Advance();
        } else {
          break;
        }
      }
    }

    method ReadString() returns (r: Outcome<string>)
      requires CurrentChar() == '"' || CurrentChar() == '\''
      modifies this
      ensures (State(), r) == Scan.ReadString(old(State()))
    {
      var start := position + 1;
      var quote := CurrentChar();
      Advance();
      ghost var entry := State();
      while CurrentChar() != '\0'
        invariant mode == old(mode) && line == old(line)
        invariant Scan.StringLoop(State(), quote) == Scan.StringLoop(entry, quote)
        decreases |source| - position
      {
        ghost var s := State();
        if CurrentChar() == '\\' {
          var outcome := ReadEscape();
          if outcome.Err? {
            return Err(outcome.error);
          }
        }
        LoopPasses(s, quote, State());
        if CurrentChar() == quote {
          break;
        }
        Advance();
      }
      return Ok(Scan.Substring(source, start, position));
    }

    /** One pass of readString's loop that validates its escape, if any, and goes on from `e`. */
    static lemma LoopPasses(s: Scan.LexState, quote: char, e: Scan.LexState)
      requires Scan.Current(s) != '\0'
      requires (if Scan.Current(s) == '\\' then Scan.ReadEscape(s) else (s, Ok(()))) == (e, Ok(()))
      ensures Scan.StringLoop(s, quote) == if Scan.Current(e) == quote then (e, Ok(())) else Scan.StringLoop(Scan.Advance(e), quote)
    {
    }

    /** The escape handling inside readString's loop, entered on the backslash. */
    method ReadEscape() returns (r: Outcome<()>)
      requires CurrentChar() == '\\'
      modifies this
      ensures (State(), r) == Scan.ReadEscape(old(State()))
    {
      Advance();
      var c := CurrentChar();
      if Scan.IsSimpleEscape(c) {
        Advance();
      } else if c == 'u' {
        Advance();
        for i := 0 to 4
          invariant mode == old(mode) && line == old(line)
          invariant Scan.HexDigits(State(), 4 - i) == Scan.ReadEscape(old(State()))
        {
          if !Scan.IsHexDigit(CurrentChar()) {
            return Err(InvalidUnicodeEscape);
          }
          Advance();
        }
      } else {
        return Err(InvalidEscape);
      }
      return Ok(());
    }

    method ReadNumber() returns (r: Outcome<string>)
      requires Scan.IsNumber(CurrentChar()) || CurrentChar() == '-'
      modifies this
      ensures (State(), r) == Scan.ReadNumber(old(State()))
    {
      var start := position;
      if CurrentChar() == '-' {
        Advance();
      }
      if CurrentChar() != '0' && !Scan.IsNumber(CurrentChar()) {
        return Err(InvalidNumber);
      }
      IntegerPart();
      FractionPart();
      ExponentPart();
      return Ok(Scan.Substring(source, start, position + 1));
    }

    method IntegerPart()
      modifies this
      ensures State() == Scan.IntegerPart(old(State()))
    {
      if CurrentChar() == '0' {
      } else {
        AdvanceWhileNext(Scan.DigitRun);
      }
    }

    method FractionPart()
      modifies this
      ensures State() == Scan.FractionPart(old(State()))
    {
      if NextChar() == '.' {
        Advance();
        AdvanceWhileNext(Scan.DigitRun);
      }
    }

    method ExponentPart()
      modifies this
      ensures State() == Scan.ExponentPart(old(State()))
    {
      if NextChar() == 'e' || NextChar() == 'E' {
        Advance();
        if NextChar() == '+' || NextChar() == '-' {
          Advance();
        }
        AdvanceWhileNext(Scan.DigitRun);
      }
    }

    method ReadIdentifier() returns (ident: string)
      requires Scan.IsLetter(CurrentChar())
      modifies this
      ensures (State(), ident) == Scan.ReadIdentifier(old(State()))
    {
      var start := position;
      AdvanceWhileNext(Scan.LetterRun);
      return Scan.Substring(source, start, position + 1);
    }

    /** The `while (isNumber(nextCharCode))` and `while (isLetter(nextCharCode))` loops. */
    method AdvanceWhileNext(run: Scan.Run)
      modifies this
      ensures State() == Scan.AdvanceWhileNext(old(State()), run)
    {
      while Scan.InRun(NextChar(), run)
        invariant Scan.AdvanceWhileNext(State(), run) == Scan.AdvanceWhileNext(old(State()), run)
        decreases |source| - position
      {
        Advance();
      }
    }

    function NewToken(kind: TokenType, value: Option<string>): Token
      reads this
    {
      Scan.NewToken(State(), kind, value)
    }
  }
}
