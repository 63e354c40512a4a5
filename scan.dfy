/**
 * The lexer of src/lexer.ts as functions on an explicit lexer state.
 *
 * Each private method of the TypeScript `Lexer` that moves the cursor is a
 * function from the state before to the state after (and its result); the
 * `Lexer` class in lexer.dfy is proved to compute exactly these.
 *
 * Reading past the end of the source yields the character NUL, as the
 * source's `this.source[i] ?? '\0'` does; a NUL inside the source reads the same.
 */
module Scan {

  import opened Wrappers
  import opened Tokens
  import opened Errors

  /** LexerMode; its `String` member is never assigned and is left out. */
  datatype Mode = Normal | Expr

  /** The fields of a `Lexer` instance. */
  datatype LexState = LexState(source: string, position: nat, line: nat, column: nat, mode: Mode)

  /** The initial field values of a `Lexer` on `source`. */
  function Init(source: string): LexState
  {
    LexState(source, 0, 1, 1, Normal)
  }

  /** `source[i] ?? '\0'` */
  function CharAt(s: string, i: nat): char
  {
    if i < |s| then s[i] else '\0'
  }

  /** The `currentChar` getter. */
  function Current(st: LexState): char
  {
    CharAt(st.source, st.position)
  }

  /** The `nextChar` getter. */
  function Following(st: LexState): char
  {
    CharAt(st.source, st.position + 1)
  }

  predicate IsNumber(c: char)
  {
    '0' <= c <= '9'
  }

  predicate IsLetter(c: char)
  {
    'A' <= c <= 'Z' || 'a' <= c <= 'z' || c == '_'
  }

  predicate IsHexDigit(c: char)
  {
    '0' <= c <= '9' || 'A' <= c <= 'F' || 'a' <= c <= 'f'
  }

  /** The characters that may follow a backslash on their own: `" \\ / b f n r t`. */
  predicate IsSimpleEscape(c: char)
  {
    c == '"' || c == '\\' || c == '/' || c == 'b' || c == 'f' || c == 'n' || c == 'r' || c == 't'
  }

  predicate IsWhitespace(c: char)
  {
    c == ' ' || c == '\t' || c == '\n' || c == '\r'
  }

  /** `String.prototype.substring`: both ends clamped to the string, swapped when reversed. */
  function Substring(s: string, start: int, end: int): (r: string)
    ensures 0 <= start <= end <= |s| ==> r == s[start..end]
    ensures |r| <= |s|
  {
    var a := if start < 0 then 0 else if start > |s| then |s| else start;
    var b := if end < 0 then 0 else if end > |s| then |s| else end;
    if a <= b then s[a..b] else s[b..a]
  }

  function Advance(st: LexState): LexState
  {
    st.(position := st.position + 1, column := st.column + 1)
  }

  function AdvanceNewline(st: LexState): LexState
  {
    var a := Advance(st);
    a.(line := a.line + 1, column := 1)
  }

  /** `skipWhitespace`: steps over spaces, tabs and line breaks, counting lines. */
  function SkipWhitespace(st: LexState): (r: LexState)
    decreases |st.source| - st.position
    ensures r.source == st.source && r.mode == st.mode && r.position >= st.position
    ensures !IsWhitespace(Current(r))
  {
    var c := Current(st);
    if c == '\0' then st
    else if c == '\r' then SkipWhitespace(AdvanceNewline(if Following(st) == '\n' then Advance(st) else st))
    else if c == '\n' then SkipWhitespace(AdvanceNewline(st))
    else if c == ' ' || c == '\t' then SkipWhitespace(Advance(st))
    else st
  }

  /** The four hex digits after `\u`, `count` of them still to check. */
  function HexDigits(st: LexState, count: nat): (r: (LexState, Outcome<()>))
    decreases count
    ensures r.0 == st.(position := r.0.position, column := r.0.column)
    ensures r.0.position - st.position == r.0.column - st.column <= count
    ensures st.position <= |st.source| ==> r.0.position <= |st.source|
  {
    if count == 0 then (st, Ok(()))
    else if !IsHexDigit(Current(st)) then (st, Err(InvalidUnicodeEscape))
    else HexDigits(Advance(st), count - 1)
  }

  /** The body of readString's `if (currentChar === '\\')`, entered on the backslash. */
  function ReadEscape(st: LexState): (r: (LexState, Outcome<()>))
    requires Current(st) == '\\'
    ensures r.0 == st.(position := r.0.position, column := r.0.column)
    ensures st.position < r.0.position <= |st.source|
  {
    var a := Advance(st);
    var c := Current(a);
    if IsSimpleEscape(c) then (Advance(a), Ok(()))
    else if c == 'u' then HexDigits(Advance(a), 4)
    else (a, Err(InvalidEscape))
  }

  /** readString's `while` loop: stops on NUL, on an error, or on the closing quote. */
  function StringLoop(st: LexState, quote: char): (r: (LexState, Outcome<()>))
    decreases |st.source| - st.position
    ensures r.0 == st.(position := r.0.position, column := r.0.column)
    ensures r.0.position >= st.position
    ensures st.position <= |st.source| + 1 ==> r.0.position <= |st.source| + 1
    ensures r.1.Err? ==> r.0.position <= |st.source|
    ensures r.1.Ok? ==> Current(r.0) == '\0' || Current(r.0) == quote
  {
    if Current(st) == '\0' then (st, Ok(()))
    else
      var e := if Current(st) == '\\' then ReadEscape(st) else (st, Ok(()));
      if e.1.Err? then e
      else if Current(e.0) == quote then (e.0, Ok(()))
      else StringLoop(Advance(e.0), quote)
  }

  /** `readString`, entered on the opening quote: the text up to the closing quote. */
  function ReadString(st: LexState): (r: (LexState, Outcome<string>))
    requires Current(st) == '"' || Current(st) == '\''
    ensures r.0 == st.(position := r.0.position, column := r.0.column)
    ensures st.position < r.0.position <= |st.source| + 1
    ensures r.1.Err? ==> r.0.position <= |st.source|
  {
    var start := st.position + 1;
    var quote := Current(st);
    var (s, outcome) := StringLoop(Advance(st), quote);
    if outcome.Err? then (s, Err(outcome.error))
    else (s, Ok(Substring(st.source, start, s.position)))
  }

  /** The two `while (isX(nextCharCode)) advance()` loops of the lexer. */
  datatype Run = DigitRun | LetterRun

  predicate InRun(c: char, run: Run)
  {
    match run
    case DigitRun => IsNumber(c)
    case LetterRun => IsLetter(c)
  }

  /** Advances while the next character belongs to `run`; stops on the run's last character. */
  function AdvanceWhileNext(st: LexState, run: Run): (r: LexState)
    decreases |st.source| - st.position
    ensures r == st.(position := r.position, column := r.column)
    ensures r.position - st.position == r.column - st.column >= 0
    ensures st.position < |st.source| ==> r.position < |st.source|
  {
    if InRun(Following(st), run) then AdvanceWhileNext(Advance(st), run) else st
  }

  /** `readNumber`, entered on a digit or `-`: its lexeme, the cursor on its last character. */
  function ReadNumber(st: LexState): (r: (LexState, Outcome<string>))
    requires IsNumber(Current(st)) || Current(st) == '-'
    ensures r.0 == st.(position := r.0.position, column := r.0.column)
    ensures r.0.position >= st.position
    ensures r.1.Ok? ==> r.0.position < |st.source|
    ensures r.1.Err? ==> r.0.position <= |st.source|
  {
    var start := st.position;
    var a := if Current(st) == '-' then Advance(st) else st;
    if Current(a) != '0' && !IsNumber(Current(a)) then (a, Err(InvalidNumber))
    else
      var e := ExponentPart(FractionPart(IntegerPart(a)));
      (e, Ok(Substring(st.source, start, e.position + 1)))
  }

  /** A lone `0`, or a digit and the digits after it. */
  function IntegerPart(st: LexState): (r: LexState)
    ensures r == st.(position := r.position, column := r.column)
    ensures r.position - st.position == r.column - st.column >= 0
    ensures st.position < |st.source| ==> r.position < |st.source|
  {
    if Current(st) == '0' then st else AdvanceWhileNext(st, DigitRun)
  }

  /** If the next character is `.`: it and the digits after it. */
  function FractionPart(st: LexState): (r: LexState)
    ensures r == st.(position := r.position, column := r.column)
    ensures r.position - st.position == r.column - st.column >= 0
    ensures st.position < |st.source| ==> r.position < |st.source|
  {
    if Following(st) == '.' then AdvanceWhileNext(Advance(st), DigitRun) else st
  }

  /** If the next character is `e` or `E`: it, an optional sign, and the digits after them. */
  function ExponentPart(st: LexState): (r: LexState)
    ensures r == st.(position := r.position, column := r.column)
    ensures r.position - st.position == r.column - st.column >= 0
    ensures st.position < |st.source| ==> r.position < |st.source|
  {
    if Following(st) == 'e' || Following(st) == 'E' then
      var x := Advance(st);
      AdvanceWhileNext(if Following(x) == '+' || Following(x) == '-' then Advance(x) else x, DigitRun)
    else st
  }

  /** `readIdentifier`, entered on a letter: the maximal run of letters. */
  function ReadIdentifier(st: LexState): (r: (LexState, string))
    requires IsLetter(Current(st))
    ensures r.0 == st.(position := r.0.position, column := r.0.column)
    ensures st.position <= r.0.position < |st.source|
  {
    var e := AdvanceWhileNext(st, LetterRun);
    (e, Substring(st.source, st.position, e.position + 1))
  }

  function LowerChar(c: char): char
  {
    if 'A' <= c <= 'Z' then (c as int + 32) as char else c
  }

  /** `toLowerCase`, exact on the ASCII letters and `_` that identifiers are made of. */
  function ToLower(s: string): (r: string)
    ensures |r| == |s|
  {
    seq(|s|, i requires 0 <= i < |s| => LowerChar(s[i]))
  }

  /** The `keywords` table. */
  const Keywords: map<string, TokenType> :=
    map["if" := If, "else" := Else, "end" := End, "range" := Range,
        "null" := Null, "true" := True, "false" := False]

  /** `resolveIdentifier`: a keyword, matched regardless of case, or an identifier. */
  function ResolveIdentifier(ident: string): TokenType
  {
    var key := ToLower(ident);
    if key in Keywords then Keywords[key] else Identifier
  }

  /** `newToken`: the value defaults to the kind's string; the column is where the value starts. */
  function NewToken(st: LexState, kind: TokenType, value: Option<string>): Token
  {
    var text := if value.Some? then value.value else TypeValue(kind);
    Token(kind, text, st.line, st.column - |text|, st.position)
  }

  /** A token whose text is one character: the cursor stays on it. */
  function One(st: LexState, kind: TokenType): (LexState, Outcome<Token>)
  {
    (st, Ok(NewToken(st, kind, None)))
  }

  /** A token whose text is two characters: the cursor moves to the second. */
  function Two(st: LexState, kind: TokenType): (LexState, Outcome<Token>)
  {
    var a := Advance(st);
    (a, Ok(NewToken(a, kind, None)))
  }

  /** The `switch` of `next()`: builds the token and leaves the cursor on its last character. */
  function ReadToken(st: LexState): (r: (LexState, Outcome<Token>))
    ensures r.0.source == st.source && r.0.line == st.line && r.0.position >= st.position
    ensures r.1.Ok? ==> r.1.value.position == r.0.position
    ensures r.1.Ok? && r.1.value.kind != EOF ==> r.0.position <= |st.source| + 1
    ensures r.1.Err? ==> r.0.position <= |st.source|
  {
    var c := Current(st);
    match c
    case '\0' => (st, Ok(NewToken(st, EOF, Some("\0"))))
    case '(' => One(st, LeftParen)
    case ')' => One(st, RightParen)
    case '{' =>
      if Following(st) == '{' then Two(st.(mode := Expr), TemplateStart)
      else One(st, LeftBrace)
    case '}' =>
      if st.mode == Expr && Following(st) == '}' then Two(st.(mode := Normal), TemplateEnd)
      else One(st, RightBrace)
    case '[' => One(st, LeftBracket)
    case ']' => One(st, RightBracket)
    case ',' => One(st, Comma)
    case '.' => One(st, Dot)
    case ':' => if Following(st) == '=' then Two(st, Assign) else One(st, Colon)
    case '=' => if Following(st) == '=' then Two(st, Eq) else (st, Ok(NewToken(st, Illegal, Some("="))))
    case '!' => if Following(st) == '=' then Two(st, Neq) else (st, Ok(NewToken(st, Illegal, Some("!"))))
    case '<' => if Following(st) == '=' then Two(st, Lte) else One(st, Lt)
    case '>' => if Following(st) == '=' then Two(st, Gte) else One(st, Gt)
    case '$' => One(st, Dollar)
    case '?' => if Following(st) == '?' then Two(st, Coalesce) else One(st, QuestionMark)
    case '&' => if Following(st) == '&' then Two(st, And) else (st, Ok(NewToken(st, Illegal, Some("&"))))
    case '|' => if Following(st) == '|' then Two(st, Or) else (st, Ok(NewToken(st, Illegal, Some("|"))))
    case '\'' | '"' =>
      var (s, text) := ReadString(st);
      if text.Err? then (s, Err(text.error)) else (s, Ok(NewToken(s, String, Some(text.value))))
    case _ => ReadOther(st)
  }

  /** The `default` branch of the switch: an identifier or keyword, a number, or an Illegal character. */
  function ReadOther(st: LexState): (r: (LexState, Outcome<Token>))
    requires Current(st) != '\0'
    ensures r.0.source == st.source && r.0.line == st.line && r.0.position >= st.position
    ensures r.1.Ok? ==> r.1.value.position == r.0.position
    ensures r.1.Ok? && r.1.value.kind != EOF ==> r.0.position <= |st.source| + 1
    ensures r.1.Err? ==> r.0.position <= |st.source|
  {
    var c := Current(st);
    if IsLetter(c) then
      var (s, ident) := ReadIdentifier(st);
      var kind := ResolveIdentifier(ident);
      (s, Ok(NewToken(s, kind, if kind == Identifier then Some(ident) else None)))
    else if IsNumber(c) || c == '-' then
      var (s, lexeme) := ReadNumber(st);
      if lexeme.Err? then (s, Err(lexeme.error)) else (s, Ok(NewToken(s, Number, Some(lexeme.value))))
    else (st, Ok(NewToken(st, Illegal, Some([c]))))
  }

  /** What `next()` leaves behind: the new state and the token, or the error it threw. */
  datatype Lexed = Lexed(state: LexState, result: Outcome<Token>)

  /**
   * `next()`: skips whitespace, reads one token and steps past it. A thrown
   * error skips the final `advance()`.
   */
  function Next(st: LexState): (r: Lexed)
    ensures r.state.source == st.source && r.state.position > st.position
    ensures r.result.Ok? ==> r.result.value.position + 1 == r.state.position
    ensures r.result.Ok? && r.result.value.kind != EOF ==> r.state.position <= |st.source| + 2
    ensures r.result.Err? ==> r.state.position <= |st.source|
  {
    var (s, token) := ReadToken(SkipWhitespace(st));
    if token.Err? then Lexed(s, token) else Lexed(Advance(s), token)
  }
}
