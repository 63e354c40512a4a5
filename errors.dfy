/**
 * The errors the lexer and the parser throw, as values, with the message
 * text each `throw new Error(...)` builds (src/lexer.ts, src/parser.ts).
 */
module Errors {

  import opened Wrappers
  import opened Tokens

  datatype Error =
    | InvalidEscape                                // lexer: `\` followed by an unknown character
    | InvalidUnicodeEscape                         // lexer: `\u` not followed by four hex digits
    | InvalidNumber                                // lexer: `-` not followed by a digit
    | UnexpectedToken(found: TokenType)            // parser: no value starts with this token
    | ExpectedString(keyKind: TokenType)           // parser: object key is not a string
    | ExpectedValue                                // parser: end of input where a value belongs
    | Expected(wanted: TokenType, got: TokenType)  // parser: assertPeekToken / assertCurrentToken

  /** What a failing operation yields: a value or the error it threw. */
  type Outcome<T> = Result<T, Error>

  /** The message of the thrown `Error`. */
  function Message(e: Error): string
  {
    match e
    case InvalidEscape => "Invalid escape sequence"
    case InvalidUnicodeEscape => "Invalid unicode escape sequence"
    case InvalidNumber => "Invalid number"
    case UnexpectedToken(k) => "Unexpected token " + TypeValue(k)
    case ExpectedString(k) => "Expected string got " + TypeValue(k)
    case ExpectedValue => "Expected value"
    case Expected(w, g) => "Expected " + TypeValue(w) + " got " + TypeValue(g)
  }

  /** The kinds named in an "Expected ... got ..." message can be read back from it. */
  lemma ExpectedMessageDeterminesKinds(w1: TokenType, g1: TokenType, w2: TokenType, g2: TokenType)
    requires Message(Expected(w1, g1)) == Message(Expected(w2, g2))
    ensures w1 == w2 && g1 == g2
  {
    TypeValueHasNoSpace(w1);
    TypeValueHasNoSpace(w2);
    SplitExpected(TypeValue(w1), TypeValue(g1), TypeValue(w2), TypeValue(g2));
    TypeValueInjective(w1, w2);
    TypeValueInjective(g1, g2);
  }

  lemma SplitExpected(a1: string, b1: string, a2: string, b2: string)
    requires ' ' !in a1 && ' ' !in a2
    requires "Expected " + a1 + " got " + b1 == "Expected " + a2 + " got " + b2
    ensures a1 == a2 && b1 == b2
  {
    var m1, m2 := "Expected " + a1 + " got " + b1, "Expected " + a2 + " got " + b2;
    var x1, x2 := " got " + b1, " got " + b2;
    assert m1 == "Expected " + (a1 + x1);
    assert m2 == "Expected " + (a2 + x2);
    assert a1 + x1 == m1[9..] == m2[9..] == a2 + x2;
    SplitAtFirstSpace(a1, x1, a2, x2);
    assert b1 == x1[5..] == x2[5..] == b2;
  }
}
