/**
 * Token kinds and tokens (src/token.ts).
 *
 * `TokenType` is a string enum in the source: every kind stands for a fixed
 * string, `TypeValue`. Tokens of a fixed form carry that string as their value.
 */
module Tokens {

  import opened Wrappers

  datatype TokenType =
    | Illegal | EOF | Identifier | Number | String
    | True | False | Quote
    | LeftParen | RightParen | LeftBrace | RightBrace | LeftBracket | RightBracket
    | Comma | Dot | Colon
    | Eq | Neq | Gt | Lt | Gte | Lte
    | Dollar | QuestionMark | Coalesce | SingleQuote
    | TemplateStart | TemplateEnd
    | And | Or | Assign
    | End | Range | If | Else | Null

  /** The string each enum member stands for. */
  function TypeValue(k: TokenType): string
  {
    match k
    case Illegal => "ILLEGAL"
    case EOF => "EOF"
    case Identifier => "IDENT"
    case Number => "NUMBER"
    case String => "STRING"
    case True => "true"
    case False => "false"
    case Quote => "\""
    case LeftParen => "("
    case RightParen => ")"
    case LeftBrace => "{"
    case RightBrace => "}"
    case LeftBracket => "["
    case RightBracket => "]"
    case Comma => ","
    case Dot => "."
    case Colon => ":"
    case Eq => "=="
    case Neq => "!="
    case Gt => ">"
    case Lt => "<"
    case Gte => ">="
    case Lte => "<="
    case Dollar => "$"
    case QuestionMark => "?"
    case Coalesce => "??"
    case SingleQuote => "'"
    case TemplateStart => "{{"
    case TemplateEnd => "}}"
    case And => "&&"
    case Or => "||"
    case Assign => ":="
    case End => "end"
    case Range => "range"
    case If => "if"
    case Else => "else"
    case Null => "null"
  }

  /** Looks an enum string up; the partner of `TypeValue`. */
  function FromValue(s: string): Option<TokenType>
  {
    match s
    case "ILLEGAL" => Some(Illegal)
    case "EOF" => Some(EOF)
    case "IDENT" => Some(Identifier)
    case "NUMBER" => Some(Number)
    case "STRING" => Some(String)
    case "true" => Some(True)
    case "false" => Some(False)
    case "\"" => Some(Quote)
    case "(" => Some(LeftParen)
    case ")" => Some(RightParen)
    case "{" => Some(LeftBrace)
    case "}" => Some(RightBrace)
    case "[" => Some(LeftBracket)
    case "]" => Some(RightBracket)
    case "," => Some(Comma)
    case "." => Some(Dot)
    case ":" => Some(Colon)
    case "==" => Some(Eq)
    case "!=" => Some(Neq)
    case ">" => Some(Gt)
    case "<" => Some(Lt)
    case ">=" => Some(Gte)
    case "<=" => Some(Lte)
    case "$" => Some(Dollar)
    case "?" => Some(QuestionMark)
    case "??" => Some(Coalesce)
    case "'" => Some(SingleQuote)
    case "{{" => Some(TemplateStart)
    case "}}" => Some(TemplateEnd)
    case "&&" => Some(And)
    case "||" => Some(Or)
    case ":=" => Some(Assign)
    case "end" => Some(End)
    case "range" => Some(Range)
    case "if" => Some(If)
    case "else" => Some(Else)
    case "null" => Some(Null)
    case _ => None
  }

  /** A lexed token: its kind, its text, and where it ends in the source. */
  datatype Token = Token(kind: TokenType, value: string, line: nat, column: int, position: nat)

  /** `Token.toString`: the kind's string, a space, the value. */
  function ToString(t: Token): (r: string)
    ensures |r| == |TypeValue(t.kind)| + 1 + |t.value|
    ensures r[..|TypeValue(t.kind)|] == TypeValue(t.kind)
    ensures r[|TypeValue(t.kind)|] == ' '
    ensures r[|TypeValue(t.kind)| + 1..] == t.value
  {
    TypeValue(t.kind) + " " + t.value
  }

  /** No enum string contains a space, so `ToString` splits at its first space. */
  lemma TypeValueHasNoSpace(k: TokenType)
    ensures ' ' !in TypeValue(k)
  {
  }

  /** Distinct kinds stand for distinct strings: `FromValue` inverts `TypeValue`. */
  lemma {:induction false} FromValueInverts(k: TokenType)
    ensures FromValue(TypeValue(k)) == Some(k)
  {
    match k
    case Illegal =>
    case EOF =>
    case Identifier =>
    case Number =>
    case String =>
    case True =>
    case False =>
    case Quote =>
    case LeftParen =>
    case RightParen =>
    case LeftBrace =>
    case RightBrace =>
    case LeftBracket =>
    case RightBracket =>
    case Comma =>
    case Dot =>
    case Colon =>
    case Eq =>
    case Neq =>
    case Gt =>
    case Lt =>
    case Gte =>
    case Lte =>
    case Dollar =>
    case QuestionMark =>
    case Coalesce =>
    case SingleQuote =>
    case TemplateStart =>
    case TemplateEnd =>
    case And =>
    case Or =>
    case Assign =>
    case End =>
    case Range =>
    case If =>
    case Else =>
    case Null =>
  }

  /** Hence the enum strings are pairwise distinct. */
  lemma TypeValueInjective(j: TokenType, k: TokenType)
    requires TypeValue(j) == TypeValue(k)
    ensures j == k
  {
    FromValueInverts(j);
    FromValueInverts(k);
  }

  /** Two strings without a space, each followed by text starting with a space, split equally. */
  lemma SplitAtFirstSpace(a: string, x: string, b: string, y: string)
    requires ' ' !in a && ' ' !in b
    requires |x| > 0 && x[0] == ' ' && |y| > 0 && y[0] == ' '
    requires a + x == b + y
    ensures a == b && x == y
  {
    var k := if |a| < |b| then |a| else |b|;
    CharOfConcat(a, x, k);
    CharOfConcat(b, y, k);
    assert a == (a + x)[..|a|] == (b + y)[..|b|] == b;
    assert x == (a + x)[|a|..] == (b + y)[|b|..] == y;
  }

  lemma CharOfConcat(a: string, x: string, i: nat)
    requires i < |a| + |x|
    ensures (a + x)[i] == if i < |a| then a[i] else x[i - |a|]
  {
  }

  /** `toString` loses nothing: equal strings come from equal kinds and values. */
  lemma ToStringInjective(s: Token, t: Token)
    requires ToString(s) == ToString(t)
    ensures s.kind == t.kind && s.value == t.value
  {
    TypeValueHasNoSpace(s.kind);
    TypeValueHasNoSpace(t.kind);
    SplitAtFirstSpace(TypeValue(s.kind), " " + s.value, TypeValue(t.kind), " " + t.value);
    TypeValueInjective(s.kind, t.kind);
    assert s.value == (" " + s.value)[1..] == (" " + t.value)[1..] == t.value;
  }
}
