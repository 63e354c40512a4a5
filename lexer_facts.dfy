/**
 * What one call of the lexer's `next()` (src/lexer.ts:42-173) yields, stated
 * against independent descriptions of the input: line breaks, operator
 * tables, the accepted string and number forms.
 *
 * Each lemma is about `Scan.Next(st)`, the state and token `next()` leaves;
 * `s` below is always `SkipWhitespace(st)`, the state at the first
 * character of the token.
 */
module LexerFacts {

  import opened Wrappers
  import opened Tokens
  import opened Errors
  import opened Scan

  /** What `next()` makes of the switch's outcome: the final `advance()`, skipped when the switch threw. */
  function Finish(r: (LexState, Outcome<Token>)): Lexed
  {
    if r.1.Err? then Lexed(r.0, r.1) else Lexed(Advance(r.0), r.1)
  }

  /** `next()` is the switch at the first non-blank character, then `Finish`. */
  lemma {:induction false} NextFrom(st: LexState, s: LexState)
    requires s == SkipWhitespace(st)
    ensures Next(st) == Finish(ReadToken(s))
  {
  }

  // ---------------------------------------------------------------------
  // End of input
  // ---------------------------------------------------------------------

  /** At or past the end of the source `next()` yields EOF with value NUL, never throws, and stays past the end. */
  lemma EofAtEnd(st: LexState)
    requires st.position >= |st.source|
    ensures Next(st).result == Ok(Token(EOF, "\0", st.line, st.column - 1, st.position))
    ensures Next(st).state.position >= |st.source|
  {
  }

  /** EOF is produced exactly when the first non-blank character read is NUL: the end of input, or a NUL inside it. */
  lemma {:induction false} EofIffNul(st: LexState)
    ensures (Next(st).result.Ok? && Next(st).result.value.kind == EOF) <==> Current(SkipWhitespace(st)) == '\0'
  {
    var s := SkipWhitespace(st);
    ReadTokenKinds(s);
    NextFrom(st, s);
  }

  /** Only NUL yields EOF, and only a quote yields a String token. */
  lemma ReadTokenKinds(s: LexState)
    ensures ReadToken(s).1.Ok? && ReadToken(s).1.value.kind == EOF ==> Current(s) == '\0'
    ensures ReadToken(s).1.Ok? && ReadToken(s).1.value.kind == String ==> Current(s) == '"' || Current(s) == '\''
  {
    var c := Current(s);
    if c == '"' || c == '\'' {
      QuoteRead(s);
    } else if StartsWord(c) {
      WordRead(s);
      ReadOtherKinds(s);
    } else {
      SymbolToken(s);
    }
  }

  /** The characters the default branch reads as an identifier or a number. */
  predicate StartsWord(c: char)
  {
    IsLetter(c) || IsNumber(c) || c == '-'
  }

  /** On a letter, a digit or `-` the switch takes its `default` branch. */
  lemma WordRead(s: LexState)
    requires StartsWord(Current(s))
    ensures ReadToken(s) == ReadOther(s)
  {
  }

  /** Any other character than a quote, a letter, a digit or `-` yields a canonical token that is no string, and EOF only on NUL. */
  lemma SymbolToken(s: LexState)
    requires Current(s) != '"' && Current(s) != '\'' && !StartsWord(Current(s))
    ensures ReadToken(s).1.Ok? && Canonical(ReadToken(s).1.value)
    ensures ReadToken(s).1.value.kind != String
    ensures ReadToken(s).1.value.kind == EOF ==> Current(s) == '\0'
  {
    var c := Current(s);
    if c == '{' || c == '}' {
      BraceSymbol(s);
    } else if c in {':', '=', '!', '<', '>', '?', '&', '|'} {
      OperatorSymbol(s);
    } else {
      PlainSymbol(s);
    }
  }

  /** What SymbolToken states about the token read at `s`. */
  predicate SymbolFact(s: LexState)
  {
    && ReadToken(s).1.Ok? && Canonical(ReadToken(s).1.value)
    && ReadToken(s).1.value.kind != String
    && (ReadToken(s).1.value.kind == EOF ==> Current(s) == '\0')
  }

  lemma {:induction false} BraceSymbol(s: LexState)
    requires Current(s) == '{' || Current(s) == '}'
    ensures SymbolFact(s)
  {
  }

  lemma {:induction false} OperatorSymbol(s: LexState)
    requires Current(s) in {':', '=', '!', '<', '>', '?', '&', '|'}
    ensures SymbolFact(s)
  {
    if Current(s) in {':', '<', '>', '?'} {
      OperatorOrSingle(s);
    } else {
      OperatorOrIllegal(s);
    }
  }

  /** `:`, `<`, `>` and `?` fall back to their one-character token. */
  lemma {:induction false} OperatorOrSingle(s: LexState)
    requires Current(s) in {':', '<', '>', '?'}
    ensures SymbolFact(s)
  {
  }

  /** `=`, `!`, `&` and `|` fall back to an Illegal token. */
  lemma {:induction false} OperatorOrIllegal(s: LexState)
    requires Current(s) in {'=', '!', '&', '|'}
    ensures SymbolFact(s)
  {
  }

  lemma {:induction false} PlainSymbol(s: LexState)
    requires Current(s) !in {'"', '\'', '{', '}', ':', '=', '!', '<', '>', '?', '&', '|'} && !StartsWord(Current(s))
    ensures SymbolFact(s)
  {
  }

  /** Only a quote, a digit or `-` can make the switch throw: every other character, letters included, yields a token. */
  lemma ReadTokenFailsOnlyOnStringsAndNumbers(s: LexState)
    requires Current(s) != '"' && Current(s) != '\''
    requires !IsNumber(Current(s)) && Current(s) != '-'
    ensures ReadToken(s).1.Ok?
  {
  }

  /** A keyword kind stands for its own, lowercase, keyword; no keyword is EOF, an identifier or a quote. */
  lemma KeywordIsKeyword(key: string)
    requires key in Keywords
    ensures TypeValue(Keywords[key]) == key
    ensures Keywords[key] !in {EOF, Identifier, String, Number, Illegal, Quote, SingleQuote}
  {
  }

  // ---------------------------------------------------------------------
  // Whitespace
  // ---------------------------------------------------------------------

  /** A line ends at index `i`: a `\n`, or a `\r` not followed by `\n` (so `\r\n` ends one line). */
  predicate EndsLine(s: string, i: nat)
  {
    CharAt(s, i) == '\n' || (CharAt(s, i) == '\r' && CharAt(s, i + 1) != '\n')
  }

  /** The number of line ends in `s[from..to]`. */
  function Breaks(s: string, from: nat, to: nat): nat
    decreases to - from
  {
    if to <= from then 0 else (if EndsLine(s, from) then 1 else 0) + Breaks(s, from + 1, to)
  }

  /** `skipWhitespace` passes over blanks only, and counts one line per line end (`\r\n`, `\r` or `\n`). */
  lemma {:induction false} SkipWhitespaceLines(st: LexState)
    decreases |st.source| - st.position
    ensures var r := SkipWhitespace(st);
      && (forall i :: st.position <= i < r.position ==> IsWhitespace(CharAt(st.source, i)))
      && r.line == st.line + Breaks(st.source, st.position, r.position)
  {
    var c := Current(st);
    if c == '\r' {
      var a := if Following(st) == '\n' then Advance(st) else st;
      SkipWhitespaceLines(AdvanceNewline(a));
      if Following(st) == '\n' {
        LinesAtCrLf(st);
      } else {
        LinesAtCr(st);
      }
    } else if c == '\n' {
      SkipWhitespaceLines(AdvanceNewline(st));
      LinesAtLf(st);
    } else if c == ' ' || c == '\t' {
      SkipWhitespaceLines(Advance(st));
      LinesAtBlank(st);
    } else {
      assert SkipWhitespace(st) == st;
    }
  }

  /** What SkipWhitespaceLines states about the cursor `st`. */
  predicate LinesFact(st: LexState)
  {
    var r := SkipWhitespace(st);
    && (forall i :: st.position <= i < r.position ==> IsWhitespace(CharAt(st.source, i)))
    && r.line == st.line + Breaks(st.source, st.position, r.position)
  }

  lemma {:induction false} LinesAtCrLf(st: LexState)
    requires Current(st) == '\r' && Following(st) == '\n' && LinesFact(AdvanceNewline(Advance(st)))
    ensures LinesFact(st)
  {
    var src, p := st.source, st.position;
    var q := SkipWhitespace(AdvanceNewline(Advance(st))).position;
    assert !EndsLine(src, p) && EndsLine(src, p + 1);
    assert Breaks(src, p, q) == Breaks(src, p + 1, q) == 1 + Breaks(src, p + 2, q);
  }

  lemma {:induction false} LinesAtCr(st: LexState)
    requires Current(st) == '\r' && Following(st) != '\n' && LinesFact(AdvanceNewline(st))
    ensures LinesFact(st)
  {
    var src, p := st.source, st.position;
    var q := SkipWhitespace(AdvanceNewline(st)).position;
    assert EndsLine(src, p);
    assert Breaks(src, p, q) == 1 + Breaks(src, p + 1, q);
  }

  lemma {:induction false} LinesAtLf(st: LexState)
    requires Current(st) == '\n' && LinesFact(AdvanceNewline(st))
    ensures LinesFact(st)
  {
    var src, p := st.source, st.position;
    var q := SkipWhitespace(AdvanceNewline(st)).position;
    assert Breaks(src, p, q) == 1 + Breaks(src, p + 1, q);
  }

  lemma {:induction false} LinesAtBlank(st: LexState)
    requires (Current(st) == ' ' || Current(st) == '\t') && LinesFact(Advance(st))
    ensures LinesFact(st)
  {
    var src, p := st.source, st.position;
    var q := SkipWhitespace(Advance(st)).position;
    assert Breaks(src, p, q) == Breaks(src, p + 1, q);
  }

  /**
   * Where `skipWhitespace` stops, the column is one past the characters
   * since the last line end; with no line end passed, spaces and tabs only
   * advanced it.
   */
  lemma {:induction false} SkipWhitespaceColumns(st: LexState)
    decreases |st.source| - st.position
    ensures var r := SkipWhitespace(st);
      && (Breaks(st.source, st.position, r.position) == 0 ==> r.column == st.column + (r.position - st.position))
      && (forall k :: st.position <= k < r.position && EndsLine(st.source, k) && Breaks(st.source, k + 1, r.position) == 0
            ==> r.column == r.position - k)
  {
    var c := Current(st);
    if c == '\r' {
      var a := if Following(st) == '\n' then Advance(st) else st;
      SkipWhitespaceColumns(AdvanceNewline(a));
      if Following(st) == '\n' {
        ColumnsAtCrLf(st);
      } else {
        ColumnsAtCr(st);
      }
    } else if c == '\n' {
      SkipWhitespaceColumns(AdvanceNewline(st));
      ColumnsAtLf(st);
    } else if c == ' ' || c == '\t' {
      SkipWhitespaceColumns(Advance(st));
      ColumnsAtBlank(st);
    } else {
      assert SkipWhitespace(st) == st;
    }
  }

  /** What SkipWhitespaceColumns states about the cursor `st`. */
  predicate ColumnsFact(st: LexState)
  {
    var r := SkipWhitespace(st);
    && (Breaks(st.source, st.position, r.position) == 0 ==> r.column == st.column + (r.position - st.position))
    && (forall k :: st.position <= k < r.position && EndsLine(st.source, k) && Breaks(st.source, k + 1, r.position) == 0
          ==> r.column == r.position - k)
  }

  lemma {:induction false} ColumnsAtCrLf(st: LexState)
    requires Current(st) == '\r' && Following(st) == '\n' && ColumnsFact(AdvanceNewline(Advance(st)))
    ensures ColumnsFact(st)
  {
    var src, p := st.source, st.position;
    var q := SkipWhitespace(AdvanceNewline(Advance(st))).position;
    assert !EndsLine(src, p) && EndsLine(src, p + 1);
    assert Breaks(src, p, q) == Breaks(src, p + 1, q) == 1 + Breaks(src, p + 2, q);
  }

  lemma {:induction false} ColumnsAtCr(st: LexState)
    requires Current(st) == '\r' && Following(st) != '\n' && ColumnsFact(AdvanceNewline(st))
    ensures ColumnsFact(st)
  {
    var src, p := st.source, st.position;
    var q := SkipWhitespace(AdvanceNewline(st)).position;
    assert EndsLine(src, p);
    assert Breaks(src, p, q) == 1 + Breaks(src, p + 1, q);
  }

  lemma {:induction false} ColumnsAtLf(st: LexState)
    requires Current(st) == '\n' && ColumnsFact(AdvanceNewline(st))
    ensures ColumnsFact(st)
  {
    var src, p := st.source, st.position;
    var q := SkipWhitespace(AdvanceNewline(st)).position;
    assert Breaks(src, p, q) == 1 + Breaks(src, p + 1, q);
  }

  lemma {:induction false} ColumnsAtBlank(st: LexState)
    requires (Current(st) == ' ' || Current(st) == '\t') && ColumnsFact(Advance(st))
    ensures ColumnsFact(st)
  {
    var src, p := st.source, st.position;
    var q := SkipWhitespace(Advance(st)).position;
    assert Breaks(src, p, q) == Breaks(src, p + 1, q);
  }

  // ---------------------------------------------------------------------
  // Braces and the lexer mode
  // ---------------------------------------------------------------------

  /** `{{` is a TemplateStart in either mode and switches to expression mode. */
  lemma {:induction false} TemplateStartInAnyMode(st: LexState)
    requires var s := SkipWhitespace(st); Current(s) == '{' && Following(s) == '{'
    ensures var s := SkipWhitespace(st);
      && Next(st).result.Ok?
      && Next(st).result.value.kind == TemplateStart && Next(st).result.value.value == "{{"
      && Next(st).state.mode == Expr
      && Next(st).state.position == s.position + 2
  {
  }

  /** A `}` starts TemplateEnd exactly in expression mode before another `}`; otherwise it is a RightBrace on its own. */
  lemma {:induction false} RightBraceInModes(st: LexState)
    requires Current(SkipWhitespace(st)) == '}'
    ensures var s := SkipWhitespace(st); var l := Next(st);
      && l.result.Ok?
      && (l.result.value.kind == TemplateEnd <==> st.mode == Expr && Following(s) == '}')
      && (l.result.value.kind == TemplateEnd ==> l.state.mode == Normal && l.state.position == s.position + 2)
      && (l.result.value.kind != TemplateEnd ==>
            l.result.value.kind == RightBrace && l.state.mode == st.mode && l.state.position == s.position + 1)
  {
  }

  /** Only `{{` and `}}` change the mode: to expression and back to normal. */
  lemma ModeChangesOnlyAtTemplates(st: LexState)
    ensures var l := Next(st);
      l.state.mode != st.mode ==>
        && l.result.Ok?
        && ((l.result.value.kind == TemplateStart && l.state.mode == Expr) ||
            (l.result.value.kind == TemplateEnd && l.state.mode == Normal))
  {
  }

  // ---------------------------------------------------------------------
  // Operators
  // ---------------------------------------------------------------------

  /** The two-character operators. */
  const TwoCharOperators: map<(char, char), TokenType> :=
    map[(':', '=') := Assign, ('=', '=') := Eq, ('!', '=') := Neq, ('<', '=') := Lte, ('>', '=') := Gte,
        ('?', '?') := Coalesce, ('&', '&') := And, ('|', '|') := Or]

  /** The first characters of operators that stand on their own as well. */
  const OneCharOperators: map<char, TokenType> :=
    map[':' := Colon, '<' := Lt, '>' := Gt, '?' := QuestionMark]

  /** What the two tables say an operator character, given the one after it, reads as. */
  function ByTable(s: LexState): (LexState, Outcome<Token>)
  {
    var pair := (Current(s), Following(s));
    if pair in TwoCharOperators then Two(s, TwoCharOperators[pair])
    else if Current(s) in OneCharOperators then One(s, OneCharOperators[Current(s)])
    else (s, Ok(NewToken(s, Illegal, Some([Current(s)]))))
  }

  /**
   * An operator character pairs with the next one when the two form an
   * operator; otherwise it is its one-character token, or an Illegal token
   * carrying it when it has none. Either way the token's value is its text.
   */
  lemma {:induction false} OperatorTokens(st: LexState)
    requires Current(SkipWhitespace(st)) in ":=!<>?&|"
    ensures var s := SkipWhitespace(st); var pair := (Current(s), Following(s)); var l := Next(st);
      && l.result.Ok? && l.state.mode == st.mode
      && (pair in TwoCharOperators ==>
            l.result.value.kind == TwoCharOperators[pair] && l.result.value.value == [pair.0, pair.1]
            && l.state.position == s.position + 2)
      && (pair !in TwoCharOperators && Current(s) in OneCharOperators ==>
            l.result.value.kind == OneCharOperators[Current(s)] && l.result.value.value == [Current(s)]
            && l.state.position == s.position + 1)
      && (pair !in TwoCharOperators && Current(s) !in OneCharOperators ==>
            l.result.value.kind == Illegal && l.result.value.value == [Current(s)]
            && l.state.position == s.position + 1)
  {
    var s := SkipWhitespace(st);
    OperatorByTable(s);
    TableValues(s);
  }

  lemma TableValues(s: LexState)
    ensures var pair := (Current(s), Following(s)); var (a, t) := ByTable(s);
      && t.Ok? && a.mode == s.mode
      && (pair in TwoCharOperators ==> t.value.value == [pair.0, pair.1] && a.position == s.position + 1)
      && (pair !in TwoCharOperators ==> t.value.value == [Current(s)] && a.position == s.position)
  {
  }

  lemma OperatorByTable(s: LexState)
    requires Current(s) in ":=!<>?&|"
    ensures ReadToken(s) == ByTable(s)
  {
    var c := Current(s);
    if c == ':' || c == '=' {
      OperatorByTable1(s);
    } else if c == '!' || c == '<' {
      OperatorByTable2(s);
    } else if c == '>' || c == '?' {
      OperatorByTable3(s);
    } else {
      OperatorByTable4(s);
    }
  }

  lemma OperatorByTable1(s: LexState)
    requires Current(s) == ':' || Current(s) == '='
    ensures ReadToken(s) == ByTable(s)
  {
  }

  lemma OperatorByTable2(s: LexState)
    requires Current(s) == '!' || Current(s) == '<'
    ensures ReadToken(s) == ByTable(s)
  {
  }

  lemma OperatorByTable3(s: LexState)
    requires Current(s) == '>' || Current(s) == '?'
    ensures ReadToken(s) == ByTable(s)
  {
  }

  lemma OperatorByTable4(s: LexState)
    requires Current(s) == '&' || Current(s) == '|'
    ensures ReadToken(s) == ByTable(s)
  {
  }

  /** The characters a token can start with. */
  predicate Recognised(c: char)
  {
    c in "\0(){}[],.:=!<>$?&|'\"-" || IsLetter(c) || IsNumber(c)
  }

  /** Any other character is an Illegal token carrying that character. */
  lemma {:induction false} UnknownCharacterIsIllegal(st: LexState)
    requires !Recognised(Current(SkipWhitespace(st)))
    ensures var s := SkipWhitespace(st);
      Next(st).result == Ok(Token(Illegal, [Current(s)], s.line, s.column - 1, s.position))
  {
  }

  // ---------------------------------------------------------------------
  // Token values and kinds
  // ---------------------------------------------------------------------

  /**
   * A token that is not Illegal, EOF, an identifier, a number or a string
   * carries its kind's string as its value; and no token is of the declared
   * Quote or SingleQuote kinds, since quotes always start strings.
   */
  predicate Canonical(t: Token)
  {
    && (!(t.kind.Illegal? || t.kind.EOF? || t.kind.Identifier? || t.kind.Number? || t.kind.String?) ==>
          t.value == TypeValue(t.kind))
    && !t.kind.Quote? && !t.kind.SingleQuote?
  }

  lemma NextIsCanonical(st: LexState)
    ensures Next(st).result.Ok? ==> Canonical(Next(st).result.value)
  {
    var s := SkipWhitespace(st);
    ReadTokenIsCanonical(s);
    NextFrom(st, s);
  }

  lemma ReadTokenIsCanonical(s: LexState)
    ensures ReadToken(s).1.Ok? ==> Canonical(ReadToken(s).1.value)
  {
    var c := Current(s);
    if c == '"' || c == '\'' {
      QuoteRead(s);
    } else if StartsWord(c) {
      WordRead(s);
      ReadOtherIsCanonical(s);
    } else {
      SymbolToken(s);
    }
  }

  lemma ReadOtherIsCanonical(s: LexState)
    requires Current(s) != '\0'
    ensures ReadOther(s).1.Ok? ==> Canonical(ReadOther(s).1.value)
  {
    if IsLetter(Current(s)) {
      var key := ToLower(ReadIdentifier(s).1);
      if key in Keywords {
        KeywordIsKeyword(key);
      }
    }
  }

  // ---------------------------------------------------------------------
  // Strings
  // ---------------------------------------------------------------------

  /**
   * The length of the escape at the start of `b`, a backslash: 2 for one of
   * `\" \\ \/ \b \f \n \r \t`, 6 for `\u` and four hex digits, 0 when invalid.
   */
  function EscapeLength(b: string): nat
    requires |b| > 0 && b[0] == '\\'
  {
    if |b| >= 2 && IsSimpleEscape(b[1]) then 2
    else if |b| >= 6 && b[1] == 'u' && IsHexDigit(b[2]) && IsHexDigit(b[3]) && IsHexDigit(b[4]) && IsHexDigit(b[5]) then 6
    else 0
  }

  /**
   * Text the string reader passes over without stopping: characters other
   * than a backslash, NUL and the quote; and valid escapes, each followed by
   * one character that is not the quote and is taken as it is, even a backslash.
   */
  predicate Chunked(b: string, q: char)
    decreases |b|
  {
    if |b| == 0 then true
    else if b[0] == '\\' then
      var n := EscapeLength(b);
      0 < n < |b| && b[n] != q && Chunked(b[n + 1..], q)
    else b[0] != q && b[0] != '\0' && Chunked(b[1..], q)
  }

  /** Text the string reader accepts before a closing quote: chunks, where the last escape may end the text. */
  predicate Accepted(b: string, q: char)
    decreases |b|
  {
    if |b| == 0 then true
    else if b[0] == '\\' then
      var n := EscapeLength(b);
      0 < n && (n == |b| || (n < |b| && b[n] != q && Accepted(b[n + 1..], q)))
    else b[0] != q && b[0] != '\0' && Accepted(b[1..], q)
  }

  /** The characters from index `p` on spell `b`. */
  predicate Spells(src: string, p: nat, b: string)
  {
    forall i :: 0 <= i < |b| ==> CharAt(src, p + i) == b[i]
  }

  function Moved(st: LexState, n: nat): LexState
  {
    st.(position := st.position + n, column := st.column + n)
  }

  /** The `count` characters from index `p` on are hex digits. */
  predicate HexAt(src: string, p: nat, count: nat)
  {
    forall i :: p <= i < p + count ==> IsHexDigit(CharAt(src, i))
  }

  lemma {:induction false} HexRun(st: LexState, count: nat)
    requires HexAt(st.source, st.position, count)
    ensures HexDigits(st, count) == (Moved(st, count), Ok(()))
    decreases count
  {
    if count > 0 {
      assert IsHexDigit(CharAt(st.source, st.position));
      HexRun(Advance(st), count - 1);
    }
  }

  lemma {:induction false} HexStop(st: LexState, count: nat, j: nat)
    requires j < count && HexAt(st.source, st.position, j) && !IsHexDigit(CharAt(st.source, st.position + j))
    ensures HexDigits(st, count) == (Moved(st, j), Err(InvalidUnicodeEscape))
    decreases count
  {
    if j > 0 {
      assert IsHexDigit(CharAt(st.source, st.position));
      HexStop(Advance(st), count - 1, j - 1);
    }
  }

  /** A valid escape is stepped over whole. */
  lemma ValidEscape(st: LexState, b: string)
    requires |b| > 0 && b[0] == '\\' && EscapeLength(b) > 0 && Spells(st.source, st.position, b)
    ensures ReadEscape(st) == (Moved(st, EscapeLength(b)), Ok(()))
  {
    assert Current(st) == b[0];
    assert Current(Advance(st)) == b[1];
    if EscapeLength(b) == 6 {
      assert !IsSimpleEscape(b[1]);
      assert HexAt(st.source, st.position + 2, 4) by {
        forall i | st.position + 2 <= i < st.position + 6 ensures IsHexDigit(CharAt(st.source, i)) {
          assert CharAt(st.source, i) == b[i - st.position];
        }
      }
      HexRun(Moved(st, 2), 4);
    }
  }

  lemma SpellsSuffix(src: string, p: nat, b: string, k: nat)
    requires Spells(src, p, b) && k <= |b|
    ensures Spells(src, p + k, b[k..])
  {
    forall i | 0 <= i < |b[k..]| ensures CharAt(src, p + k + i) == b[k..][i] {
      assert b[k..][i] == b[k + i];
    }
  }

  /** One turn of readString's loop on a character that is not NUL, a backslash or the quote. */
  lemma {:induction false} PlainStep(st: LexState, q: char)
    requires Current(st) != '\0' && Current(st) != '\\' && Current(st) != q
    ensures StringLoop(st, q) == StringLoop(Advance(st), q)
  {
  }

  /** One turn of readString's loop on a valid escape: it stops when the quote follows, else takes one more character. */
  lemma EscapeStep(st: LexState, q: char, b: string)
    requires |b| > 0 && b[0] == '\\' && EscapeLength(b) > 0 && Spells(st.source, st.position, b)
    ensures var n := EscapeLength(b);
      && (Current(Moved(st, n)) == q ==> StringLoop(st, q) == (Moved(st, n), Ok(())))
      && (Current(Moved(st, n)) != q ==> StringLoop(st, q) == StringLoop(Moved(st, n + 1), q))
  {
    assert Current(st) == b[0];
    ValidEscape(st, b);
    assert Advance(Moved(st, EscapeLength(b))) == Moved(st, EscapeLength(b) + 1);
  }

  /** The length of the chunk at the start of `b`: an escape and the character after it, or one character. */
  function ChunkLength(b: string): nat
    requires |b| > 0
  {
    if b[0] == '\\' then EscapeLength(b) + 1 else 1
  }

  /** `b` is one valid escape and nothing more. */
  predicate LastEscape(b: string)
  {
    |b| > 0 && b[0] == '\\' && EscapeLength(b) == |b|
  }

  /** The chunk at the start of `b` is one the loop passes over without stopping. */
  predicate Passable(b: string, q: char)
    requires |b| > 0
  {
    if b[0] == '\\' then 0 < EscapeLength(b) < |b| && b[EscapeLength(b)] != q
    else b[0] != q && b[0] != '\0'
  }

  lemma {:induction false} ChunkedHead(b: string, q: char)
    requires Chunked(b, q) && |b| > 0
    ensures Passable(b, q) && ChunkLength(b) <= |b| && Chunked(b[ChunkLength(b)..], q)
  {
  }

  lemma {:induction false} AcceptedHead(b: string, q: char)
    requires Accepted(b, q) && |b| > 0 && !LastEscape(b)
    ensures Passable(b, q) && ChunkLength(b) <= |b| && Accepted(b[ChunkLength(b)..], q)
  {
  }

  /** A chunk that is not the last thing before the quote: the loop passes over it. */
  lemma {:induction false} ChunkStep(st: LexState, q: char, b: string)
    requires |b| > 0 && Spells(st.source, st.position, b) && Passable(b, q)
    ensures ChunkLength(b) <= |b|
    ensures StringLoop(st, q) == StringLoop(Moved(st, ChunkLength(b)), q)
    ensures Spells(st.source, st.position + ChunkLength(b), b[ChunkLength(b)..])
  {
    var n := ChunkLength(b);
    assert Current(st) == b[0];
    if b[0] == '\\' {
      assert Current(Moved(st, n - 1)) == b[n - 1];
      EscapeStep(st, q, b);
    } else {
      PlainStep(st, q);
      assert Advance(st) == Moved(st, 1);
    }
    SpellsSuffix(st.source, st.position, b, n);
  }

  /** Chunked text does not stop the reader's loop, which resumes at its end. */
  lemma {:induction false} ChunkedLoop(st: LexState, q: char, b: string)
    requires Chunked(b, q) && Spells(st.source, st.position, b)
    ensures StringLoop(st, q) == StringLoop(Moved(st, |b|), q)
    decreases |b|
  {
    if |b| == 0 {
      assert Moved(st, 0) == st;
    } else {
      var n := ChunkLength(b);
      ChunkedStep(st, q, b);
      ChunkedLoop(Moved(st, n), q, b[n..]);
      MovedTwice(st, n, |b| - n);
    }
  }

  lemma {:induction false} ChunkedStep(st: LexState, q: char, b: string)
    requires Chunked(b, q) && |b| > 0 && Spells(st.source, st.position, b)
    ensures var n := ChunkLength(b);
      && n <= |b| && Chunked(b[n..], q) && |b[n..]| == |b| - n
      && Moved(st, n).source == st.source
      && Spells(st.source, Moved(st, n).position, b[n..])
      && StringLoop(st, q) == StringLoop(Moved(st, n), q)
  {
    ChunkedHead(b, q);
    ChunkStep(st, q, b);
  }

  /** Accepted text followed by the quote: the loop stops on that quote. */
  lemma {:induction false} AcceptedLoop(st: LexState, q: char, b: string)
    requires q == '"' || q == '\''
    requires AcceptedAt(st, q, b)
    ensures StringLoop(st, q) == (Moved(st, |b|), Ok(()))
    decreases |b|
  {
    if |b| == 0 {
      QuoteStops(st, q);
    } else if LastEscape(b) {
      AcceptedLast(st, q, b);
    } else {
      var n := ChunkLength(b);
      AcceptedStepAt(st, q, b);
      AcceptedLoop(Moved(st, n), q, b[n..]);
      LoopChain(st, q, n, |b[n..]|);
    }
  }

  /** Accepted text `b` is spelt at the cursor and the quote follows it. */
  predicate AcceptedAt(st: LexState, q: char, b: string)
  {
    Accepted(b, q) && Spells(st.source, st.position, b) && CharAt(st.source, st.position + |b|) == q
  }

  /** AcceptedStep, for accepted text followed by the quote. */
  lemma {:induction false} AcceptedStepAt(st: LexState, q: char, b: string)
    requires AcceptedAt(st, q, b) && |b| > 0 && !LastEscape(b)
    ensures var n := ChunkLength(b);
      && 0 < n <= |b| && n + |b[n..]| == |b|
      && AcceptedAt(Moved(st, n), q, b[n..])
      && StringLoop(st, q) == StringLoop(Moved(st, n), q)
  {
    AcceptedStep(st, q, b);
  }

  /** Two stretches of the loop, one after the other. */
  lemma {:induction false} LoopChain(st: LexState, q: char, n: nat, k: nat)
    requires StringLoop(st, q) == StringLoop(Moved(st, n), q)
    requires StringLoop(Moved(st, n), q) == (Moved(Moved(st, n), k), Ok(()))
    ensures StringLoop(st, q) == (Moved(st, n + k), Ok(()))
  {
    MovedTwice(st, n, k);
  }

  /** On the closing quote the loop stops at once. */
  lemma {:induction false} QuoteStops(st: LexState, q: char)
    requires q == '"' || q == '\''
    requires Current(st) == q
    ensures StringLoop(st, q) == (Moved(st, 0), Ok(()))
  {
    assert Moved(st, 0) == st;
  }

  lemma {:induction false} MovedTwice(st: LexState, m: nat, k: nat)
    ensures Moved(Moved(st, m), k) == Moved(st, m + k)
  {
  }

  /** Accepted text that is one valid escape, then the quote: the loop stops on the quote. */
  lemma {:induction false} AcceptedLast(st: LexState, q: char, b: string)
    requires LastEscape(b)
    requires Spells(st.source, st.position, b) && CharAt(st.source, st.position + |b|) == q
    ensures StringLoop(st, q) == (Moved(st, |b|), Ok(()))
  {
    assert Current(Moved(st, |b|)) == q;
    EscapeStep(st, q, b);
  }

  /** Accepted text whose first chunk the loop passes over: the rest is accepted text, spelt after that chunk. */
  lemma {:induction false} AcceptedStep(st: LexState, q: char, b: string)
    requires Accepted(b, q) && |b| > 0 && !LastEscape(b)
    requires Spells(st.source, st.position, b)
    ensures var n := ChunkLength(b);
      && n <= |b| && Accepted(b[n..], q)
      && Moved(st, n).source == st.source && Moved(st, n).position + |b[n..]| == st.position + |b|
      && |b[n..]| == |b| - n
      && CharAt(st.source, Moved(st, n).position + |b[n..]|) == CharAt(st.source, st.position + |b|)
      && Spells(st.source, Moved(st, n).position, b[n..])
      && StringLoop(st, q) == StringLoop(Moved(st, n), q)
  {
    AcceptedHead(b, q);
    PassedChunk(st, q, b);
  }

  /** The loop passes over a chunk it does not stop on: what is left is spelt after the chunk, up to the same place. */
  lemma {:induction false} PassedChunk(st: LexState, q: char, b: string)
    requires |b| > 0 && Spells(st.source, st.position, b) && Passable(b, q)
    ensures var n := ChunkLength(b);
      && n <= |b|
      && Moved(st, n).source == st.source && Moved(st, n).position + |b[n..]| == st.position + |b|
      && |b[n..]| == |b| - n
      && CharAt(st.source, Moved(st, n).position + |b[n..]|) == CharAt(st.source, st.position + |b|)
      && Spells(st.source, Moved(st, n).position, b[n..])
      && StringLoop(st, q) == StringLoop(Moved(st, n), q)
  {
    ChunkStep(st, q, b);
  }

  /** Accepted text running to the end of the source: the loop stops at the end, without an error. */
  lemma {:induction false} AcceptedLoopToEnd(st: LexState, q: char, b: string)
    requires q == '"' || q == '\''
    requires Accepted(b, q) && Spells(st.source, st.position, b) && st.position + |b| == |st.source|
    ensures StringLoop(st, q).1 == Ok(()) && StringLoop(st, q).0.position >= |st.source|
    decreases |b|
  {
    if |b| == 0 {
    } else if LastEscape(b) {
      EscapeStep(st, q, b);
    } else {
      var n := ChunkLength(b);
      AcceptedStep(st, q, b);
      AcceptedLoopToEnd(Moved(st, n), q, b[n..]);
    }
  }

  /** readString's loop on a backslash that starts no valid escape. */
  lemma {:induction false} EscapeErrorStep(st: LexState, q: char)
    requires Current(st) == '\\' && !IsSimpleEscape(Following(st)) && Following(st) != 'u'
    ensures StringLoop(st, q) == (Advance(st), Err(InvalidEscape))
  {
  }

  /** readString's loop on `\u` followed by only `j` hex digits. */
  lemma {:induction false} UnicodeErrorStep(st: LexState, q: char, j: nat)
    requires Current(st) == '\\' && Following(st) == 'u'
    requires j < 4 && HexAt(st.source, st.position + 2, j) && !IsHexDigit(CharAt(st.source, st.position + 2 + j))
    ensures StringLoop(st, q) == (Moved(st, 2 + j), Err(InvalidUnicodeEscape))
  {
    var a := Advance(st);
    assert Current(a) == 'u';
    assert Advance(a) == Moved(st, 2);
    HexStop(Moved(st, 2), 4, j);
    assert Moved(Moved(st, 2), j) == Moved(st, 2 + j);
    assert ReadEscape(st) == (Moved(st, 2 + j), Err(InvalidUnicodeEscape));
  }

  /** The hex-digit check throws only 'Invalid unicode escape sequence'. */
  lemma {:induction false} HexDigitsErrors(st: LexState, count: nat)
    decreases count
    ensures HexDigits(st, count).1.Err? ==> HexDigits(st, count).1.error == InvalidUnicodeEscape
  {
    if count > 0 && IsHexDigit(Current(st)) {
      HexDigitsErrors(Advance(st), count - 1);
    }
  }

  /** readString throws only the two escape errors. */
  lemma {:induction false} StringLoopErrors(st: LexState, q: char)
    decreases |st.source| - st.position
    ensures StringLoop(st, q).1.Err? ==> StringLoop(st, q).1.error == InvalidEscape || StringLoop(st, q).1.error == InvalidUnicodeEscape
  {
    if Current(st) != '\0' {
      if Current(st) == '\\' {
        HexDigitsErrors(Moved(st, 2), 4);
        assert Advance(Advance(st)) == Moved(st, 2);
      }
      var e := if Current(st) == '\\' then ReadEscape(st) else (st, Ok(()));
      if e.1.Ok? && Current(e.0) != q {
        StringLoopErrors(Advance(e.0), q);
      }
    }
  }

  /** The source text at `p` that `Spells` `b`, when it lies inside the source, is `b`. */
  lemma SpelledSlice(src: string, p: nat, b: string)
    requires Spells(src, p, b) && p + |b| <= |src|
    ensures src[p..p + |b|] == b
  {
    forall i | 0 <= i < |b| ensures src[p..p + |b|][i] == b[i] {
      assert src[p..p + |b|][i] == CharAt(src, p + i);
    }
  }

  /** On a quote `next()` is `readString` and, when that does not throw, the final `advance()`. */
  lemma {:induction false} NextOnQuote(st: LexState)
    requires Current(SkipWhitespace(st)) == '"' || Current(SkipWhitespace(st)) == '\''
    ensures var (a, text) := ReadString(SkipWhitespace(st));
      Next(st) == if text.Err? then Lexed(a, Err(text.error)) else Lexed(Advance(a), Ok(NewToken(a, String, Some(text.value))))
  {
    var s := SkipWhitespace(st);
    QuoteRead(s);
    NextFrom(st, s);
  }

  /** On a quote the switch is `readString`. */
  lemma QuoteRead(s: LexState)
    requires Current(s) == '"' || Current(s) == '\''
    ensures var (a, text) := ReadString(s);
      ReadToken(s) == if text.Err? then (a, Err(text.error)) else (a, Ok(NewToken(a, String, Some(text.value))))
  {
  }

  /** A `readString` that throws makes `next()` throw, from the state the reader stopped in. */
  lemma {:induction false} NextOnStringError(st: LexState, s: LexState, a: LexState, err: Error)
    requires s == SkipWhitespace(st) && (Current(s) == '"' || Current(s) == '\'')
    requires ReadString(s) == (a, Err(err))
    ensures Next(st) == Lexed(a, Err(err))
  {
    QuoteRead(s);
    NextFrom(st, s);
  }

  /** The String token for the text `b` after the quote at `s`, closed by a quote: its column is that of the text's first character. */
  function StringTokenAt(s: LexState, b: string): Token
  {
    Token(String, b, s.line, s.column + 1, s.position + |b| + 1)
  }

  /**
   * A quote, accepted text and the same quote lex as one String token whose
   * value is that text as written, escapes left undecoded.
   */
  lemma {:induction false} StringToken(st: LexState, q: char, b: string)
    requires q == '"' || q == '\''
    requires var s := SkipWhitespace(st);
      Current(s) == q && Accepted(b, q) && Spells(s.source, s.position + 1, b) && CharAt(s.source, s.position + 1 + |b|) == q
    ensures Next(st) == Lexed(Moved(SkipWhitespace(st), |b| + 2), Ok(StringTokenAt(SkipWhitespace(st), b)))
  {
    var s := SkipWhitespace(st);
    StringRead(s, q, b);
    var a := Moved(s, |b| + 1);
    assert NewToken(a, String, Some(b)) == StringTokenAt(s, b);
    assert Advance(a) == Moved(s, |b| + 2);
    NextOnString(st, s, a, b);
  }

  /** readString on a quote, accepted text and the same quote: the text, the cursor on the closing quote. */
  lemma {:induction false} StringRead(s: LexState, q: char, b: string)
    requires q == '"' || q == '\''
    requires Current(s) == q && Accepted(b, q) && Spells(s.source, s.position + 1, b) && CharAt(s.source, s.position + 1 + |b|) == q
    ensures ReadString(s) == (Moved(s, |b| + 1), Ok(b))
  {
    AcceptedLoop(Advance(s), q, b);
    assert Moved(Advance(s), |b|) == Moved(s, |b| + 1);
    SpelledSlice(s.source, s.position + 1, b);
  }

  /** A `readString` that returns `text` makes `next()` return a String token. */
  lemma {:induction false} NextOnString(st: LexState, s: LexState, a: LexState, text: string)
    requires s == SkipWhitespace(st) && (Current(s) == '"' || Current(s) == '\'')
    requires ReadString(s) == (a, Ok(text))
    ensures Next(st) == Lexed(Advance(a), Ok(NewToken(a, String, Some(text))))
  {
    QuoteRead(s);
    NextFrom(st, s);
  }

  /** An unterminated string is no error: its value is the rest of the source. */
  lemma {:induction false} UnterminatedString(st: LexState, q: char, b: string)
    requires q == '"' || q == '\''
    requires var s := SkipWhitespace(st);
      Current(s) == q && Accepted(b, q) && Spells(s.source, s.position + 1, b) && s.position + 1 + |b| == |s.source|
    ensures Next(st).result.Ok? && Next(st).result.value.kind == String && Next(st).result.value.value == b
  {
    var s := SkipWhitespace(st);
    UnterminatedRead(s, q, b);
    NextOnString(st, s, ReadString(s).0, b);
  }

  /** readString on a quote and accepted text running to the end of the source: that text. */
  lemma {:induction false} UnterminatedRead(s: LexState, q: char, b: string)
    requires q == '"' || q == '\''
    requires Current(s) == q && Accepted(b, q) && Spells(s.source, s.position + 1, b) && s.position + 1 + |b| == |s.source|
    ensures ReadString(s).1 == Ok(b)
  {
    AcceptedLoopToEnd(Advance(s), q, b);
    SpelledSlice(s.source, s.position + 1, b);
    var e := StringLoop(Advance(s), q).0.position;
    assert Substring(s.source, s.position + 1, e) == s.source[s.position + 1..|s.source|];
  }

  /** After chunked text, a backslash before a character that starts no escape is an invalid escape. */
  lemma {:induction false} InvalidEscapeError(st: LexState, q: char, b: string)
    requires q == '"' || q == '\''
    requires var s := SkipWhitespace(st); var e := s.position + 1 + |b|;
      && Current(s) == q && Chunked(b, q) && Spells(s.source, s.position + 1, b)
      && CharAt(s.source, e) == '\\' && !IsSimpleEscape(CharAt(s.source, e + 1)) && CharAt(s.source, e + 1) != 'u'
    ensures Next(st) == Lexed(Moved(SkipWhitespace(st), |b| + 2), Err(InvalidEscape))
  {
    var s := SkipWhitespace(st);
    EscapeErrorRead(s, q, b);
    NextOnStringError(st, s, Moved(s, |b| + 2), InvalidEscape);
  }

  /** readString on a quote, chunked text and a backslash that starts no escape. */
  lemma {:induction false} EscapeErrorRead(s: LexState, q: char, b: string)
    requires q == '"' || q == '\''
    requires var e := s.position + 1 + |b|;
      && Current(s) == q && Chunked(b, q) && Spells(s.source, s.position + 1, b)
      && CharAt(s.source, e) == '\\' && !IsSimpleEscape(CharAt(s.source, e + 1)) && CharAt(s.source, e + 1) != 'u'
    ensures ReadString(s) == (Moved(s, |b| + 2), Err(InvalidEscape))
  {
    var a := Advance(s);
    EscapeErrorLoop(a, q, b);
    assert Moved(a, |b| + 1) == Moved(s, |b| + 2);
    ReadStringError(s, Moved(s, |b| + 2), InvalidEscape);
  }

  /** The loop of readString over chunked text and then a bad escape. */
  lemma {:induction false} EscapeErrorLoop(a: LexState, q: char, b: string)
    requires Chunked(b, q) && Spells(a.source, a.position, b)
    requires var c := CharAt(a.source, a.position + |b| + 1);
      CharAt(a.source, a.position + |b|) == '\\' && !IsSimpleEscape(c) && c != 'u'
    ensures StringLoop(a, q) == (Moved(a, |b| + 1), Err(InvalidEscape))
  {
    ChunkedLoop(a, q, b);
    var e := Moved(a, |b|);
    EscapeErrorStep(e, q);
    assert Advance(e) == Moved(a, |b| + 1);
  }

  /** readString fails with the error its loop fails with, where the loop stops. */
  lemma {:induction false} ReadStringError(s: LexState, e: LexState, err: Error)
    requires Current(s) == '"' || Current(s) == '\''
    requires StringLoop(Advance(s), Current(s)) == (e, Err(err))
    ensures ReadString(s) == (e, Err(err))
  {
  }

  /** After chunked text, `\u` followed by fewer than four hex digits is an invalid unicode escape. */
  lemma {:induction false} InvalidUnicodeError(st: LexState, q: char, b: string, j: nat)
    requires q == '"' || q == '\''
    requires var s := SkipWhitespace(st); var e := s.position + 1 + |b|;
      && Current(s) == q && Chunked(b, q) && Spells(s.source, s.position + 1, b)
      && CharAt(s.source, e) == '\\' && CharAt(s.source, e + 1) == 'u'
      && j < 4 && HexAt(s.source, e + 2, j)
      && !IsHexDigit(CharAt(s.source, e + 2 + j))
    ensures Next(st) == Lexed(Moved(SkipWhitespace(st), |b| + 3 + j), Err(InvalidUnicodeEscape))
  {
    var s := SkipWhitespace(st);
    UnicodeErrorAfter(s, q, b, j);
    assert ReadString(s) == (Moved(s, |b| + 3 + j), Err(InvalidUnicodeEscape));
    NextOnStringError(st, s, Moved(s, |b| + 3 + j), InvalidUnicodeEscape);
  }

  /** readString's loop, started after the opening quote, on chunked text and a short `\u`. */
  lemma {:induction false} UnicodeErrorAfter(s: LexState, q: char, b: string, j: nat)
    requires var e := s.position + 1 + |b|;
      && Chunked(b, q) && Spells(s.source, s.position + 1, b)
      && CharAt(s.source, e) == '\\' && CharAt(s.source, e + 1) == 'u'
      && j < 4 && HexAt(s.source, e + 2, j)
      && !IsHexDigit(CharAt(s.source, e + 2 + j))
    ensures StringLoop(Advance(s), q) == (Moved(s, |b| + 3 + j), Err(InvalidUnicodeEscape))
  {
    var e := Moved(s, |b| + 1);
    assert e.position == s.position + 1 + |b| && e.source == s.source;
    assert Current(e) == '\\' && Following(e) == 'u';
    assert HexAt(e.source, e.position + 2, j) && !IsHexDigit(CharAt(e.source, e.position + 2 + j));
    UnicodeErrorStep(e, q, j);
    assert Advance(s) == Moved(s, 1);
    ChunkedLoop(Advance(s), q, b);
    assert Moved(Advance(s), |b|) == e;
    assert Moved(e, 2 + j) == Moved(s, |b| + 3 + j);
  }

  /**
   * Every String token is the raw source text after its opening quote, up to
   * the next quote of the same kind that the reader stops on, or up to a NUL
   * or the end of the source.
   */
  lemma {:induction false} StringTokenIsRawText(st: LexState)
    ensures var s := SkipWhitespace(st); var l := Next(st);
      l.result.Ok? && l.result.value.kind == String ==>
        var t := l.result.value;
        && (Current(s) == '"' || Current(s) == '\'')
        && s.position < t.position
        && t.value == s.source[s.position + 1 .. if t.position < |s.source| then t.position else |s.source|]
        && (CharAt(s.source, t.position) == Current(s) || CharAt(s.source, t.position) == '\0')
  {
    var s := SkipWhitespace(st);
    if Current(s) == '"' || Current(s) == '\'' {
      NextOnQuote(st);
      var (a, text) := ReadString(s);
      var e := if a.position < |s.source| then a.position else |s.source|;
      assert text.Ok? ==> text.value == Substring(s.source, s.position + 1, a.position) == s.source[s.position + 1..e];
    } else {
      ReadTokenKinds(s);
    }
  }

  /** The default branch of the lexer's switch never yields EOF, a string or a quote token. */
  lemma ReadOtherKinds(s: LexState)
    requires Current(s) != '\0'
    ensures ReadOther(s).1.Ok? ==> ReadOther(s).1.value.kind !in {EOF, String, Quote, SingleQuote}
  {
    if IsLetter(Current(s)) {
      var key := ToLower(ReadIdentifier(s).1);
      if key in Keywords {
        KeywordIsKeyword(key);
      }
    }
  }

  /** The escape quirk: in `"\n\""` the backslash after `\n` is taken as it is, so the string ends at the second quote. */
  lemma EscapeQuirk()
    ensures Next(Init("\"\\n\\\"\"")).result == Ok(Token(String, "\\n\\", 1, 2, 4))
  {
    var src := "\"\\n\\\"\"";
    StringToken(Init(src), '"', "\\n\\");
  }
}
