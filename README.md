# kriti-lang-js front end, modelled in Dafny

Kriti is a template language that puts `{{ ... }}` directives (`range`,
`if`/`else`, paths) on top of JSON literal syntax. This project models the
front end of its JavaScript implementation: the token type, the
mode-aware lexer, the recursive-descent parser with one token of lookahead,
the syntax tree, and `eval1`, which turns a tree into a JSON-like value.

Layout, one module per source file:

| file | module | models |
|---|---|---|
| `wrappers.dfy` | `Wrappers` | `Option` and `Result` |
| `token.dfy` | `Tokens` | `src/token.ts`: the token kinds with their string values, `Token`, `toString()` |
| `errors.dfy` | `Errors` | every `throw new Error(...)` of the lexer and the parser, as a value with its message |
| `ast.dfy` | `Ast` | `src/ast.ts`: one constructor per node class, plus the `type` tag |
| `scan.dfy` | `Scan` | `src/lexer.ts` as pure functions on a lexer state (source, position, line, column, mode) |
| `lexer.dfy` | `Lexing` | `src/lexer.ts` as the class it is: `Lexer` with mutable fields and loops, each method proved equal to its `Scan` function |
| `lexer_facts.dfy` | `LexerFacts` | what one `next()` yields: whitespace and line/column accounting, braces and template modes, operators, strings and escapes |
| `lexer_words.dfy` | `LexerWords` | identifiers, keywords and numbers, including every RFC 8259 number lexing to one token |
| `parse_model.dfy` | `ParseModel` | `src/parser.ts` as pure functions on the parser state (lexer state, current token, peek token) |
| `parser.dfy` | `Parsing` | `src/parser.ts` as the class it is: `Parser` with its two token fields, each method proved equal to its `ParseModel` function |
| `parser_facts.dfy` | `ParserFacts` | what the parser does on literals, objects, arrays, templates and blank input |
| `eval.dfy` | `Evaluation` | `eval1` of `src/eval.ts` |

Throwing is modelled as a `Result` error. Both the pure functions and the
methods return the state reached at the throw, because a JavaScript object is
still usable after a caught exception. The lexer's end-of-input sentinel
`'\0'` and the parser's pull interface (`next()` moves the peek token into
`currentToken` and lexes a new peek) are kept as they are. Parser
termination is shown by a fuel measure: the source length plus 3, minus the
lexer position. Every pull moves the lexer position forward.

Where the code departs from what its structure evidently intends, the model
follows the code:

- A `range` directive never parses. `parseRange` consumes the peek token
  `range`, which makes `range` the *current* token. It then requires the
  current token to be an identifier, so it always throws
  `Expected IDENT got range`, unless lexing the token after `range` throws
  first (`ParserFacts.RangeAlwaysFails`).
- The same thing happens to `if`: `parseIf` checks the current token, which
  is still `{{`, so it always throws `Expected if got {{`
  (`ParserFacts.IfAlwaysFails`).
- Trailing commas are accepted in objects and arrays
  (`ParserFacts.ObjectTrailingComma`, `ParserFacts.ArrayTrailingComma`).
  After a comma the loop goes round again, and a closer there ends it.
- The number reader lets a fraction or an exponent have no digits
  (`1.`, `1e`). `LexerWords.Lexable` is the grammar it really reads, and
  `LexerWords.IsJsonNumber` is RFC 8259 section 6.
- `012` lexes as two numbers, `0` and `12` (`LexerWords.LeadingZero`).
- `eval1` builds a plain JavaScript object. Duplicate keys therefore keep
  the last value (`Evaluation.LastPropertyWins`) rather than all of them in
  order.
- A token's column is the 1-based column of its last character, minus the
  length of its value. For every token except strings this is the 0-based
  column of its first character. A string's value leaves out the opening
  quote, so its column is the 1-based column of its first content
  character (`LexerFacts.EscapeQuirk` shows content at index 1 getting
  column 2).

## Model

| member | source | states |
|---|---|---|
| Tokens.ToString | src/token.ts:55-57 | the text is the kind's value, one space, then the token's value, each part at its place |
| Tokens.TypeValue | src/token.ts:1-44 | the string value of each `TokenType` member; `TypeValueHasNoSpace`, `FromValueInverts` and `TypeValueInjective` state its properties |
| Tokens.FromValue | src/token.ts:1-44 | the reverse lookup from a string value to its kind; `FromValueInverts` proves it inverts `TypeValue` |
| Tokens.TypeValueHasNoSpace | src/token.ts:1-44 | no kind's string value contains a space |
| Tokens.FromValueInverts | src/token.ts:1-44 | looking a kind up by its string value gives that kind back |
| Tokens.TypeValueInjective | src/token.ts:1-44 | distinct kinds have distinct string values |
| Tokens.ToStringInjective | src/token.ts:46-57 | two tokens with the same `toString()` have the same kind and value |
| Errors.ExpectedMessageDeterminesKinds | src/parser.ts:209-224 | an "Expected X got Y" message determines both kinds |
| Errors.Message | src/lexer.ts:226-261 | the text of the `Error` each throw site raises (lexer.ts lines 226, 232 and 261; parser.ts lines 51, 138, 145, 171, 211 and 222); `ExpectedMessageDeterminesKinds` shows the "Expected" texts keep both kinds apart |
| Ast.TagDistinguishesClasses | src/ast.ts:1-65 | equal `type` tags mean the same node class |
| Ast.Tag | src/ast.ts:1-65 | the `type` field each node class sets in its constructor; `TagDistinguishesClasses` shows no two classes share one |
| Scan.Substring | src/lexer.ts:240 | JavaScript `substring` on in-range bounds is the slice, and never longer than the source |
| Scan.Init | src/lexer.ts:13-40 | the field initialisers: position 0, line 1, column 1, normal mode; `Lexing.Lexer.constructor` is tied to it |
| Scan.Advance | src/lexer.ts:175-178 | one character forward on the same line; `Lexing.Lexer.Advance` is tied to it |
| Scan.AdvanceNewline | src/lexer.ts:180-184 | one character forward onto the next line at column 1; `Lexing.Lexer.AdvanceNewline` is tied to it |
| Scan.IsNumber | src/lexer.ts:297-299 | the character class `0`-`9` of `isNumber`; the number lemmas of `LexerWords` are stated with it |
| Scan.IsLetter | src/lexer.ts:301-307 | the class `A`-`Z`, `a`-`z`, `_` of `isLetter`; `ReadTokenFailsOnlyOnStringsAndNumbers` and the identifier lemmas use it |
| Scan.IsHexDigit | src/lexer.ts:243-245 | the class `0`-`9`, `A`-`F`, `a`-`f` of `isHexDigit`; `Scan.HexDigits` is stated with it |
| Scan.ResolveIdentifier | src/lexer.ts:309-322 | keyword lookup of the lower-cased word, else `IDENT`; `KeywordMatchIgnoresCase`, `IdentifierUnlessKeyword`, `IfKeyword` and `KeywordIsKeyword` state its properties |
| Scan.NewToken | src/lexer.ts:293-295 | a token whose text is the value or else the kind's value, ending at the column before the cursor; `NextIsCanonical` states its property |
| Scan.CharAt | src/lexer.ts:22-28 | `source[i] ?? '\0'`: the character at `i`, or NUL past the end; `LexerFacts.EofAtEnd` and `EofIffNul` show NUL is the end-of-input sentinel |
| Scan.Current | src/lexer.ts:22-24 | the `currentChar` getter, `CharAt` at the cursor; `EofIffNul` shows EOF comes back exactly when it is NUL after the blanks |
| Scan.Following | src/lexer.ts:26-28 | the `nextChar` getter, `CharAt` one past the cursor; `OperatorTokens`, `TemplateStartInAnyMode` and `RightBraceInModes` show the pairs it selects |
| Scan.IsWhitespace | src/lexer.ts:186-201 | the blanks `skipWhitespace` passes: space, tab, `\n`, `\r`; `SkipWhitespaceLines` shows every skipped character is one |
| Scan.IsSimpleEscape | src/lexer.ts:212-221 | the characters that may follow a backslash alone: `" \ / b f n r t`; `ValidEscape` and `InvalidEscapeError` show those pass and the rest (other than `u`) throw |
| Scan.LowerChar | src/lexer.ts:320 | `toLowerCase` on one character, `A`-`Z` to `a`-`z` and the rest unchanged; `KeywordMatchIgnoresCase` and `IfKeyword` show keywords match in any case |
| Scan.One | src/lexer.ts:51-153 | a one-character token: `newToken` at the cursor, which stays on the character; `NextIsCanonical` and `OperatorTokens` show the token's text and the new position |
| Scan.Two | src/lexer.ts:57-148 | a two-character token: one `advance()` onto the second character, then `newToken`; `OperatorTokens` and `TemplateStartInAnyMode` show the text is the pair and the cursor passes both |
| Scan.SkipWhitespace | src/lexer.ts:186-201 | stops on a non-blank character, moving forward only, without changing source or mode |
| Scan.HexDigits | src/lexer.ts:222-230 | advances at most `count` characters, on the same line, without passing the end |
| Scan.ReadEscape | src/lexer.ts:209-234 | after a backslash, moves forward along the line and stays inside the source |
| Scan.StringLoop | src/lexer.ts:207-239 | stops on the closing quote or the sentinel when it succeeds; an error stops inside the source |
| Scan.ReadString | src/lexer.ts:203-241 | consumes at least the opening quote and at most one past the end; errors stop inside the source |
| Scan.AdvanceWhileNext | src/lexer.ts:257-259 | moves only position and column, by the same amount, staying on an in-range character |
| Scan.ReadNumber | src/lexer.ts:247-283 | a number read ends on a character inside the source; an error stops inside it |
| Scan.IntegerPart | src/lexer.ts:254-262 | moves only along the line and stays inside the source |
| Scan.FractionPart | src/lexer.ts:264-269 | moves only along the line and stays inside the source |
| Scan.ExponentPart | src/lexer.ts:272-280 | moves only along the line and stays inside the source |
| Scan.ReadIdentifier | src/lexer.ts:285-291 | ends on an in-range character at or after the start, on the same line |
| Scan.ToLower | src/lexer.ts:319-321 | lower-casing keeps the length |
| Scan.ReadToken | src/lexer.ts:47-170 | the token's position is where the switch stopped; successes stay within one past the end |
| Scan.ReadOther | src/lexer.ts:158-169 | the same bounds for the identifier, number and illegal branch |
| Scan.Next | src/lexer.ts:42-173 | every call moves forward; a token's position is one before the new position |
| Lexing.Lexer.constructor | src/lexer.ts:13-40 | a new lexer starts at position 0, line 1, column 1, normal mode |
| Lexing.Lexer.CurrentChar | src/lexer.ts:22-24 | the `currentChar` getter on the object's fields, `Scan.CharAt` at `position` |
| Lexing.Lexer.NextChar | src/lexer.ts:26-28 | the `nextChar` getter on the object's fields, `Scan.CharAt` at `position + 1` |
| Lexing.Lexer.Next | src/lexer.ts:42-173 | the method's new state and token are those of `Scan.Next` |
| Lexing.Lexer.ReadToken | src/lexer.ts:47-170 | the switch, as `Scan.ReadToken` |
| Lexing.Lexer.ReadOther | src/lexer.ts:158-169 | the `default` branch, as `Scan.ReadOther` |
| Lexing.Lexer.OneOrTwo | src/lexer.ts:87-153 | a two-character operator when the next character matches, otherwise the one-character or illegal token |
| Lexing.Lexer.Advance | src/lexer.ts:175-178 | position and column go up by one |
| Lexing.Lexer.AdvanceNewline | src/lexer.ts:180-184 | next line, column 1 |
| Lexing.Lexer.NewToken | src/lexer.ts:293-295 | computes `Scan.NewToken` on the fields |
| Lexing.Lexer.SkipWhitespace | src/lexer.ts:186-201 | the loop computes `Scan.SkipWhitespace` |
| Lexing.Lexer.ReadString | src/lexer.ts:203-241 | the loop computes `Scan.ReadString`, errors included |
| Lexing.Lexer.ReadEscape | src/lexer.ts:209-234 | the escape switch and the four-digit loop compute `Scan.ReadEscape` |
| Lexing.Lexer.ReadNumber | src/lexer.ts:247-283 | computes `Scan.ReadNumber`, errors included |
| Lexing.Lexer.IntegerPart | src/lexer.ts:254-262 | the integer digits loop |
| Lexing.Lexer.FractionPart | src/lexer.ts:264-269 | the fraction loop |
| Lexing.Lexer.ExponentPart | src/lexer.ts:272-280 | the exponent loop |
| Lexing.Lexer.ReadIdentifier | src/lexer.ts:285-291 | the identifier loop computes `Scan.ReadIdentifier` |
| Lexing.Lexer.AdvanceWhileNext | src/lexer.ts:287-289 | the look-ahead loop shared by digits and letters |
| LexerFacts.NextFrom | src/lexer.ts:42-173 | `next()` is the switch at the first non-blank character, then one `advance()` unless it threw |
| LexerFacts.EofAtEnd | src/lexer.ts:22-24 | at or past the end, `next()` yields the EOF token with value `"\0"` |
| LexerFacts.EofIffNul | src/lexer.ts:45-50 | EOF comes back exactly when the first non-blank character is the sentinel |
| LexerFacts.ReadTokenKinds | src/lexer.ts:47-170 | EOF only at the sentinel; strings only at a quote |
| LexerFacts.SymbolToken | src/lexer.ts:47-153 | punctuation never fails, and its token has its canonical value |
| LexerFacts.ReadTokenFailsOnlyOnStringsAndNumbers | src/lexer.ts:47-170 | only strings and numbers can throw: on any other character, a letter included, the switch yields a token |
| LexerFacts.KeywordIsKeyword | src/lexer.ts:309-317 | each keyword's kind has the keyword as its value and is not a variable-form kind |
| LexerFacts.SkipWhitespaceLines | src/lexer.ts:186-201 | skipped characters are blanks; the line count goes up by the line breaks, `\r\n` counting once |
| LexerFacts.SkipWhitespaceColumns | src/lexer.ts:186-201 | the column grows by the skipped blanks, or restarts after the last line break |
| LexerFacts.TemplateStartInAnyMode | src/lexer.ts:57-65 | `{{` is a template start in every mode and switches to expression mode |
| LexerFacts.RightBraceInModes | src/lexer.ts:66-74 | `}}` closes a template exactly in expression mode; otherwise `}` is a right brace |
| LexerFacts.ModeChangesOnlyAtTemplates | src/lexer.ts:57-74 | the mode changes only at `{{` (to expression) and `}}` (to normal) |
| LexerFacts.OperatorTokens | src/lexer.ts:87-153 | operators follow a two-character table, then a one-character table, else illegal; mode unchanged |
| LexerFacts.UnknownCharacterIsIllegal | src/lexer.ts:167-169 | any other character is an illegal token of that character |
| LexerFacts.NextIsCanonical | src/lexer.ts:293-295 | fixed-form tokens carry their kind's value as their text |
| LexerFacts.HexRun | src/lexer.ts:222-230 | four hex digits pass the `\u` loop |
| LexerFacts.HexStop | src/lexer.ts:224-227 | the first non-hex digit throws the unicode escape error there |
| LexerFacts.ValidEscape | src/lexer.ts:209-230 | a valid escape moves past exactly its length |
| LexerFacts.AcceptedLoop | src/lexer.ts:207-239 | string text of the accepted grammar, then the quote, is read in full |
| LexerFacts.AcceptedLoopToEnd | src/lexer.ts:207-239 | accepted text running to the end of the source still succeeds |
| LexerFacts.HexDigitsErrors | src/lexer.ts:224-227 | the hex loop can only fail with the unicode escape error |
| LexerFacts.StringLoopErrors | src/lexer.ts:222-233 | a string can only fail with one of the two escape errors |
| LexerFacts.StringToken | src/lexer.ts:154-157 | a quoted string of accepted text yields a string token of the raw text and moves past the closing quote |
| LexerFacts.UnterminatedString | src/lexer.ts:203-241 | an unclosed string is not an error: the token holds the rest of the source |
| LexerFacts.InvalidEscapeError | src/lexer.ts:231-232 | an unknown escape throws, with the state stopped after the backslash |
| LexerFacts.InvalidUnicodeError | src/lexer.ts:222-227 | `\u` with fewer than four hex digits throws at the first bad character |
| LexerFacts.StringTokenIsRawText | src/lexer.ts:203-241 | every string token's value is the source slice after the opening quote, escapes undecoded |
| LexerFacts.ReadOtherKinds | src/lexer.ts:158-169 | the default branch never yields EOF, string or quote tokens |
| LexerFacts.EscapeQuirk | src/lexer.ts:209-237 | `"\n\""` ends at the escaped quote: the character after an escape is tested as the closer |
| LexerWords.RunIsMaximal | src/lexer.ts:285-291 | the look-ahead loop stops exactly before the first character outside the run |
| LexerWords.IdentifierIsMaximal | src/lexer.ts:285-291 | an identifier is the longest run of letters and `_` |
| LexerWords.KeywordMatchIgnoresCase | src/lexer.ts:319-322 | a word resolves to a keyword exactly when its lower case is that keyword |
| LexerWords.IdentifierUnlessKeyword | src/lexer.ts:319-322 | a word is an identifier exactly when its lower case is no keyword |
| LexerWords.IdentifierToken | src/lexer.ts:159-163 | a maximal letter run lexes to its word token, identifiers keeping their case |
| LexerWords.IfKeyword | src/lexer.ts:309-322 | `if` in any case lexes to the `if` keyword |
| LexerWords.JsonNumberIsLexable | src/lexer.ts:247-283 | every RFC 8259 number is in the grammar the reader accepts |
| LexerWords.NumberRead | src/lexer.ts:247-283 | a number of the reader's grammar is read in full as its text |
| LexerWords.NumberSeen | src/lexer.ts:247-283 | the sign, integer, fraction and exponent parts `readNumber` passes over, read back from the source at the positions its loops stop; `NumberReadBack` shows they form a number of the grammar whose text is the lexeme |
| LexerWords.NumberReadBack | src/lexer.ts:247-283 | conversely, whatever the reader returns without an error is a number of its grammar spelt at the cursor, ended by the next character, and the lexeme is exactly that number's text |
| LexerWords.NumberLexes | src/lexer.ts:164-166 | a number followed by a stop character lexes to a number token of its text |
| LexerWords.JsonNumberLexes | src/lexer.ts:247-283 | a source that is one RFC 8259 number lexes to one number token of the whole text, then EOF |
| LexerWords.LeadingZero | src/lexer.ts:254-255 | `012` lexes as the numbers `0` and `12` |
| LexerWords.InvalidNumberIff | src/lexer.ts:260-262 | `next()` throws "Invalid number" exactly at a `-` not followed by a digit |
| LexerWords.ReadTokenInvalidNumberIff | src/lexer.ts:260-262 | the same, for the switch alone |
| ParseModel.Next | src/parser.ts:203-207 | the old peek becomes current and is returned; the lexer moves forward |
| ParseModel.Parse | src/parser.ts:16-53 | the lexer moves forward; a node comes back only when input remained, and it is pure JSON |
| ParseModel.Present | src/parser.ts:23-48 | `parse()` handing back the node `parseObject`, `parseArray` or `parseTemplate` built, or their error, in the state they left; `ParserFacts.ArrayValue`, `ObjectValue` and `LiteralArray` show the node it passes on |
| ParseModel.ParseValue | src/parser.ts:22-52 | a node from the dispatch is pure JSON |
| ParseModel.ParseTemplate | src/parser.ts:55-65 | a template after `{{` yields only a null node |
| ParseModel.ParseTemplateContent | src/parser.ts:67-70 | a template expression yields a null node |
| ParseModel.ParseEnclosedTemplate | src/parser.ts:72-77 | a parenthesised template is pure JSON; `ParserFacts.EnclosedTemplate` shows it yields the inner value, leaving `)` as the peek token |
| ParseModel.ParseRange | src/parser.ts:79-93 | always an error |
| ParseModel.ParseRangeBody | src/parser.ts:81-92 | a current token that is not an identifier is rejected at once, with the state unchanged |
| ParseModel.ParseIf | src/parser.ts:95-111 | a current token that is not `if` is rejected at once, with the state unchanged |
| ParseModel.ParseElse | src/parser.ts:101-106 | without `else` there is no else body and nothing is consumed |
| ParseModel.ParseObject | src/parser.ts:129-159 | success is an object node of pure JSON values |
| ParseModel.ObjectLoop | src/parser.ts:131-156 | members are only appended, and each new one is pure JSON |
| ParseModel.ObjectLoopAfterValue | src/parser.ts:150-155 | the same after a member |
| ParseModel.ParseArray | src/parser.ts:161-185 | success is an array node of pure JSON values |
| ParseModel.ArrayLoop | src/parser.ts:163-182 | elements are only appended, and each new one is pure JSON |
| ParseModel.Start | src/parser.ts:12-14 | the constructor pulls one token; current is unset |
| ParseModel.ParseSource | src/parser.ts:231-235 | `Parser.parse(source)` yields pure JSON or nothing |
| ParseModel.AssertPeek | src/parser.ts:209-213 | succeeds exactly when the peek token has the kind, and otherwise fails with "Expected k got j" |
| ParseModel.ConsumePeek | src/parser.ts:215-218 | a failed check consumes nothing; a success returns the peek token, which becomes the current token |
| ParseModel.ConsumeCurrent | src/parser.ts:226-229 | a failed check on the current token consumes nothing; a success returns the old peek token, which becomes the current token |
| ParseModel.ParseString | src/parser.ts:187-189 | the string node of a token's value; `ParserFacts.ParseLiteral` and `Evaluation.LiteralValue` state its properties |
| ParseModel.ParseNumber | src/parser.ts:191-193 | the number node of a token's value; the same lemmas state its properties |
| ParseModel.ParseBoolean | src/parser.ts:195-197 | the boolean node; the same lemmas state its properties |
| ParseModel.ParseNull | src/parser.ts:199-201 | the null node; the same lemmas state its properties |
| ParseModel.ParsePath | src/parser.ts:113-127 | the path node with the empty path, as the commented-out loop leaves it |
| ParseModel.RangeAfterComma | src/parser.ts:83-92 | the rest of `parseRange` after the index identifier; it only moves forward (`Later`), and `ParserFacts.RangeAlwaysFails` shows it is never reached with success |
| ParseModel.RangeAfterHeader | src/parser.ts:86-92 | the rest of `parseRange` after the path; it only moves forward |
| ParseModel.Closing | src/parser.ts:88-91 | the closing `{{ end }}`; it only moves forward |
| ParseModel.IfAfterCondition | src/parser.ts:98-110 | the rest of `parseIf` after the condition; it only moves forward, and `ParserFacts.IfAlwaysFails` shows it is never reached |
| Parsing.Parser.constructor | src/parser.ts:12-14 | a parser over a lexer with the given peek token and no current token |
| Parsing.Parser.Create | src/parser.ts:12-14 | the constructor's first pull, or the error it throws |
| Parsing.Parser.ParseText | src/parser.ts:231-235 | the static `parse` computes `ParseModel.ParseSource` |
| Parsing.Parser.Next | src/parser.ts:203-207 | computes `ParseModel.Next` on the fields |
| Parsing.Parser.AssertPeekToken | src/parser.ts:209-213 | the check on the peek token |
| Parsing.Parser.ConsumePeekTokenIf | src/parser.ts:215-218 | checks the peek token, then pulls |
| Parsing.Parser.AssertCurrentToken | src/parser.ts:220-224 | fails with "Expected k got j" exactly when the current token is not `k` |
| Parsing.Parser.ConsumeCurrentTokenIf | src/parser.ts:226-229 | checks the current token, then pulls and returns the old peek |
| Parsing.Parser.Parse | src/parser.ts:16-53 | computes `ParseModel.Parse` |
| Parsing.Parser.ParseValue | src/parser.ts:22-52 | computes `ParseModel.ParseValue` |
| Parsing.Parser.ParseTemplate | src/parser.ts:55-65 | computes `ParseModel.ParseTemplate` |
| Parsing.Parser.ParseTemplateContent | src/parser.ts:67-70 | computes `ParseModel.ParseTemplateContent` |
| Parsing.Parser.ParseEnclosedTemplate | src/parser.ts:72-77 | computes `ParseModel.ParseEnclosedTemplate` |
| Parsing.Parser.ParseRange | src/parser.ts:79-93 | computes `ParseModel.ParseRange` |
| Parsing.Parser.ParseRangeBody | src/parser.ts:81-92 | computes `ParseModel.ParseRangeBody` |
| Parsing.Parser.RangeAfterComma | src/parser.ts:83-92 | computes `ParseModel.RangeAfterComma` |
| Parsing.Parser.RangeAfterHeader | src/parser.ts:86-92 | computes `ParseModel.RangeAfterHeader` |
| Parsing.Parser.Closing | src/parser.ts:88-91 | computes `ParseModel.Closing`, the closing `{{ end }}` |
| Parsing.Parser.ParseIf | src/parser.ts:95-111 | computes `ParseModel.ParseIf` |
| Parsing.Parser.IfAfterCondition | src/parser.ts:98-110 | computes `ParseModel.IfAfterCondition` |
| Parsing.Parser.ParseElse | src/parser.ts:101-106 | computes `ParseModel.ParseElse` |
| Parsing.Parser.ParsePath | src/parser.ts:113-127 | a path node with the empty path |
| Parsing.Parser.ParseObject | src/parser.ts:129-159 | the member loop computes `ParseModel.ParseObject` |
| Parsing.Parser.ParseArray | src/parser.ts:161-185 | the element loop computes `ParseModel.ParseArray` |
| ParserFacts.ParseLiteral | src/parser.ts:29-42 | a string, number, boolean or null token yields its literal node after one pull |
| ParserFacts.UnexpectedStart | src/parser.ts:50-51 | a token that starts no value throws "Unexpected token" |
| ParserFacts.ParseAtEof | src/parser.ts:17-20 | at EOF `parse()` yields no node |
| ParserFacts.NextAtEnd | src/lexer.ts:48-50 | whitespace up to the end lexes to EOF |
| ParserFacts.BlankSourceParsesToNothing | src/parser.ts:231-235 | a blank source parses to no node |
| ParserFacts.EmptyObject | src/parser.ts:132-135 | `{}` is the empty object |
| ParserFacts.ObjectLoopCloses | src/parser.ts:131-156 | a successful object loop has just consumed `}` |
| ParserFacts.AfterValueCloses | src/parser.ts:150-155 | the same after a member |
| ParserFacts.ParseObjectCloses | src/parser.ts:129-159 | a parsed object ends on its `}` |
| ParserFacts.ObjectMember | src/parser.ts:132-148 | a string key, a colon and a value append that property |
| ParserFacts.ObjectTrailingComma | src/parser.ts:150-153 | a comma followed by `}` ends the object |
| ParserFacts.NonStringKey | src/parser.ts:137-139 | a key that is not a string throws "Expected string got ..." |
| ParserFacts.MissingColon | src/parser.ts:141 | a key not followed by `:` throws "Expected : got ..." |
| ParserFacts.MissingMemberValue | src/parser.ts:143-146 | end of input after the colon throws "Expected value" |
| ParserFacts.MemberNotClosed | src/parser.ts:155 | after a member, anything but `,` or `}` throws "Expected } got ..." |
| ParserFacts.EmptyArray | src/parser.ts:164-167 | `[]` is the empty array |
| ParserFacts.ArrayLoopCloses | src/parser.ts:163-182 | a successful array loop has just consumed `]` |
| ParserFacts.ParseArrayCloses | src/parser.ts:161-185 | a parsed array ends on its `]` |
| ParserFacts.ArrayElement | src/parser.ts:169-179 | a value followed by a comma is appended and the loop goes on |
| ParserFacts.ArrayLoopAtClose | src/parser.ts:164-167 | `]` ends the array with the elements so far |
| ParserFacts.ArrayTrailingComma | src/parser.ts:164-179 | a comma followed by `]` ends the array |
| ParserFacts.MissingElement | src/parser.ts:169-172 | end of input where an element belongs throws "Expected value" |
| ParserFacts.ElementNotClosed | src/parser.ts:181 | after an element, anything but `,` or `]` throws "Expected ] got ..." |
| ParserFacts.TemplateIdentifier | src/parser.ts:61-70 | `{{` then an identifier yields a null node after one pull |
| ParserFacts.TemplateOther | src/parser.ts:62-68 | `{{` then anything but an identifier, `range` or `if` throws "Expected IDENT got ..." |
| ParserFacts.RangeAlwaysFails | src/parser.ts:79-81 | `{{ range` always throws "Expected IDENT got range", unless lexing the token after `range` throws first |
| ParserFacts.IfAlwaysFails | src/parser.ts:95-97 | `{{ if` always throws "Expected if got {{", consuming nothing |
| ParserFacts.EnclosedTemplate | src/parser.ts:72-77 | `( {{ v )` yields whatever `v` yields |
| ParserFacts.EnclosedTemplateUnclosed | src/parser.ts:75 | a missing `)` throws "Expected ) got ..." |
| ParserFacts.EnclosedTemplateNeedsStart | src/parser.ts:73 | `(` not followed by `{{` throws "Expected {{ got ..." |
| ParserFacts.FirstValueOnly | src/parser.ts:231-235 | a source starting with a literal parses to that literal, provided the token after the literal lexes; whatever follows that token is never read |
| ParserFacts.PulledValue | src/parser.ts:16-22 | a lookahead other than EOF, pulled without an error, becomes the current token and goes to the `switch` |
| ParserFacts.ArrayValue | src/parser.ts:26-27 | a lookahead `[` runs `parseArray`'s loop after it, and a loop that succeeds gives the array of its elements |
| ParserFacts.ObjectValue | src/parser.ts:23-24 | a lookahead `{` runs `parseObject`'s loop after it, and a loop that succeeds gives the object of its members |
| ParserFacts.LastElement | src/parser.ts:169-181 | an element that `]` follows is pushed and the loop goes on to the `]` |
| ParserFacts.LastLiteral | src/parser.ts:164-181 | a literal element that `]` follows is the last one: the loop ends after the `]` with it pushed |
| ParserFacts.LiteralElements | src/parser.ts:163-182 | over literals separated by commas and closed by `]`, the loop appends their nodes in order and succeeds |
| ParserFacts.LiteralArray | src/parser.ts:161-185 | `[` followed by literals separated by commas and a `]` parses to the array of their nodes |
| ParserFacts.ObjectLoopAtClose | src/parser.ts:133-135 | a key token `}` ends the loop with the members so far |
| ParserFacts.AfterLastMember | src/parser.ts:150-155 | after a member, a lookahead `}` passes the check and the next pull ends the loop |
| ParserFacts.AfterMember | src/parser.ts:150-153 | after a member, a lookahead `,` is pulled and the loop goes on |
| ParserFacts.LiteralMembers | src/parser.ts:131-156 | over string keys, colons and literal values separated by commas and closed by `}`, the loop appends their properties in order and succeeds |
| ParserFacts.LiteralObject | src/parser.ts:129-159 | `{` followed by such members and a `}` parses to the object of their properties |
| Evaluation.Eval | src/eval.ts:4-26 | `eval1` by structural recursion; `ObjectKeys`, `LastPropertyWins`, `ArrayElements`, `UndefinedIffTemplateNode` and `LiteralValue` state what it computes |
| Evaluation.Assign | src/eval.ts:7-10 | the `reduce` fold: `acc[key] := value` once per property, in order, starting from the given map; `AssignKeys`, `AssignKeeps` and `AssignLastWins` state which keys it maps and which write decides each value |
| Evaluation.AssignKeys | src/eval.ts:7-10 | the fold's keys are the keys before it plus every property's key |
| Evaluation.AssignKeeps | src/eval.ts:7-10 | a key no property assigns keeps its value |
| Evaluation.AssignLastWins | src/eval.ts:7-10 | the last assignment of a key decides its value |
| Evaluation.ObjectKeys | src/eval.ts:6-10 | an object evaluates to a map with exactly its properties' keys |
| Evaluation.LastPropertyWins | src/eval.ts:7-10 | with duplicate keys, the value is that of the last property with the key |
| Evaluation.ArrayElements | src/eval.ts:11-12 | an array evaluates element by element, keeping the length |
| Evaluation.UndefinedIffTemplateNode | src/eval.ts:5-25 | `undefined` comes exactly from property, range, if and path nodes |
| Evaluation.JsonIsDefined | src/eval.ts:4-26 | a pure JSON tree evaluates with no `undefined` anywhere inside |
| Evaluation.ParsedValueIsDefined | src/eval.ts:4-26 | whatever `Parser.parse` returns evaluates with no `undefined` inside |
| Evaluation.LiteralValue | src/eval.ts:13-21 | a string token's node evaluates to its raw text, a number's to its text, `true`/`false` to booleans, `null` to null |
| Evaluation.DuplicateKeyExample | src/eval.ts:7-10 | `{"a": 1, "a": 2}` evaluates to `{"a": 2}` |

## Left out

- Number conversion: `parseNumber` stores `Number(value)`, a float (src/parser.ts:192). The model keeps the lexeme, and so `eval1` returns the lexeme too. Floating point is not modelled.
- Keyword lookup on a plain object (src/lexer.ts:309-321): in JavaScript, `keywords["constructor"]` finds a prototype member. The model's keyword table is a map of the seven keywords only.
- `LexerMode.String` is declared but never entered; only `Normal` and `Expr` are modelled.
- Characters are Dafny `char`s. `charCodeAt` and UTF-16 surrogates are not modelled. The lexer's `while (this.currentCharCode)` test is modelled as "current character is not `'\0'`", a NUL inside the source included.
- Key order of `eval1`'s result: a JavaScript object lists keys in insertion order (integer-like keys first), and a Dafny map has no order.
- `eval1` writing `__proto__` and other prototype keys: the model treats every key as an ordinary key.
- The sample program at src/eval.ts:28-55 parses one fixed source text, an eleven-element nested array, and prints its `eval1` as JSON (I/O).
- The `Tokenizer` interface: the parser is modelled over the concrete `Lexer`.
- Parsing.Parser.Create: the TypeScript constructor can throw, because it lexes the first token. It is modelled as a static factory that returns a `Result`, and `Parsing.Parser.constructor` takes the lexed token.
- ParseModel.ParseIf: requires the peek token to be `if`, which its only caller guarantees (src/parser.ts:59-60). The requirement is needed for the termination argument.
- ParseModel.Parse: no converse is claimed. `parse()` can yield no node even when input remains, for example `({{\0)`, so "no node only at EOF" is not stated.
- The example `{"id": {{i}}}` failing with "Expected } got }}" is not stated as one lemma. It follows from ParserFacts.TemplateIdentifier, which says `{{ i` yields a null node and leaves `}}` as the lookahead, and ParserFacts.MemberNotClosed.
- ParserFacts.FirstValueOnly: "the rest of the source is never lexed" is stated only for sources that start with a literal.
- The tests under src/__tests__ and spec/ are not part of this model.
