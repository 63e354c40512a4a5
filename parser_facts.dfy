/**
 * What the parser of src/parser.ts does with the tokens the lexer yields,
 * stated on the parser model of parse_model.dfy: literals, objects and
 * arrays, the errors it throws, and the template forms, including the
 * `range` and `if` forms that always fail.
 *
 * The lemmas speak of the lookahead token `ps.peek` and of what the next
 * calls of the lexer return (`Next(ps)`), so they hold for any source.
 */
module ParserFacts {

  import opened Wrappers
  import opened Tokens
  import opened Errors
  import opened Ast
  import Scan
  import LexerFacts
  import opened ParseModel

  // ---------------------------------------------------------------------
  // Literals
  // ---------------------------------------------------------------------

  /** The token kinds `parse()` turns into a node without reading further. */
  predicate IsLiteral(k: TokenType)
  {
    k == String || k == Number || k == True || k == False || k == Null
  }

  /** The node a literal token stands for: strings stay raw and numbers keep their text. */
  function LiteralNode(t: Token): Node
    requires IsLiteral(t.kind)
  {
    if t.kind == String then StringNode(t.value)
    else if t.kind == Number then NumberNode(t.value)
    else if t.kind == True then BooleanNode(true)
    else if t.kind == False then BooleanNode(false)
    else NullNode
  }

  /**
   * A literal lookahead is the whole value: `parse()` pulls exactly one
   * token, which becomes the current token, and the lexer is asked for one
   * more as the new lookahead.
   */
  lemma {:induction false} ParseLiteral(ps: PState)
    requires Inv(ps) && IsLiteral(ps.peek.kind)
    ensures Parse(ps).state == Next(ps).state
    ensures Parse(ps).state.current == Some(ps.peek)
    ensures Parse(ps).result == if Next(ps).result.Ok? then Ok(Some(LiteralNode(ps.peek))) else Err(Next(ps).result.error)
  {
  }

  /** The kinds a value can start with: everything else makes `parse()` throw. */
  predicate StartsValue(k: TokenType)
  {
    || k == LeftBrace || k == LeftBracket || k == LeftParen || k == TemplateStart
    || IsLiteral(k)
  }

  /** Any other lookahead than EOF or a token that starts a value throws 'Unexpected token'. */
  lemma {:induction false} UnexpectedStart(ps: PState)
    requires Inv(ps) && ps.peek.kind != EOF && !StartsValue(ps.peek.kind) && Next(ps).result.Ok?
    ensures Parse(ps) == Parsed(Next(ps).state, Err(UnexpectedToken(ps.peek.kind)))
  {
  }

  // ---------------------------------------------------------------------
  // End of input
  // ---------------------------------------------------------------------

  /** At an EOF lookahead `parse()` returns no node, unless pulling the token after it throws. */
  lemma {:induction false} ParseAtEof(ps: PState)
    requires Inv(ps) && ps.peek.kind == EOF
    ensures Parse(ps).result == if Next(ps).result.Ok? then Ok(None) else Err(Next(ps).result.error)
  {
  }

  /** `skipWhitespace` runs to the end of a source that is blank from the cursor on. */
  lemma {:induction false} BlankSkipped(st: Scan.LexState)
    requires forall i :: st.position <= i < |st.source| ==> Scan.IsWhitespace(st.source[i])
    ensures Scan.SkipWhitespace(st).position >= |st.source|
    decreases |st.source| - st.position
  {
    var c := Scan.Current(st);
    if c == '\r' {
      var a := if Scan.Following(st) == '\n' then Scan.Advance(st) else st;
      BlankSkipped(Scan.AdvanceNewline(a));
    } else if c == '\n' {
      BlankSkipped(Scan.AdvanceNewline(st));
    } else if c == ' ' || c == '\t' {
      BlankSkipped(Scan.Advance(st));
    } else {
      assert st.position >= |st.source|;
    }
  }

  /** Once only blanks are left, `next()` yields EOF and leaves the cursor past the end. */
  lemma {:induction false} NextAtEnd(st: Scan.LexState)
    requires Scan.SkipWhitespace(st).position >= |st.source|
    ensures Scan.Next(st).result.Ok? && Scan.Next(st).result.value.kind == EOF
    ensures Scan.Next(st).state.position > |st.source|
  {
    var s := Scan.SkipWhitespace(st);
    LexerFacts.NextFrom(st, s);
    assert Scan.Current(s) == '\0';
  }

  /** An empty or blank source parses to no node. */
  lemma {:induction false} BlankSourceParsesToNothing(source: string)
    requires forall i :: 0 <= i < |source| ==> Scan.IsWhitespace(source[i])
    ensures ParseSource(source) == Ok(None)
  {
    var st := Scan.Init(source);
    BlankSkipped(st);
    NextAtEnd(st);
    var ps := Start(source).value;
    assert ps.peek.kind == EOF && ps.lex.position > |source|;
    NextAtEnd(ps.lex);
    ParseAtEof(ps);
  }

  // ---------------------------------------------------------------------
  // Objects
  // ---------------------------------------------------------------------

  /** The current token is of kind `k`. */
  predicate ClosedBy(ps: PState, k: TokenType)
  {
    ps.current.Some? && ps.current.value.kind == k
  }

  /** `{` directly followed by `}` is the empty object; the `}` becomes the current token. */
  lemma {:induction false} EmptyObject(ps: PState)
    requires Inv(ps) && ps.peek.kind == RightBrace && Next(ps).result.Ok?
    ensures ParseObject(ps) == Parsed(Next(ps).state, Ok(ObjectNode([])))
  {
  }

  /** When `parseObject`'s loop ends without an error, it has just consumed the closing `}`. */
  lemma {:induction false} ObjectLoopCloses(ps: PState, props: seq<Property>)
    requires Inv(ps)
    ensures ObjectLoop(ps, props).result.Ok? ==> ClosedBy(ObjectLoop(ps, props).state, RightBrace)
    decreases Fuel(ps), 0
  {
    var k := Next(ps);
    if k.result.Ok? && k.result.value.kind == String {
      var c := ConsumePeek(k.state, Colon);
      if c.result.Ok? {
        var v := Parse(c.state);
        if v.result.Ok? && v.result.value.Some? {
          AfterValueCloses(v.state, props + [Property(k.result.value.value, v.result.value.value)]);
        }
      }
    }
  }

  lemma {:induction false} AfterValueCloses(ps: PState, props: seq<Property>)
    requires Inv(ps)
    ensures ObjectLoopAfterValue(ps, props).result.Ok? ==> ClosedBy(ObjectLoopAfterValue(ps, props).state, RightBrace)
    decreases Fuel(ps), 1
  {
    if ps.peek.kind == Comma {
      var n := Next(ps);
      if n.result.Ok? {
        ObjectLoopCloses(n.state, props);
      }
    } else if ps.peek.kind == RightBrace {
      ObjectLoopCloses(ps, props);
    }
  }

  /** An object that parses ends on its `}`, which is then the current token. */
  lemma {:induction false} ParseObjectCloses(ps: PState)
    requires Inv(ps)
    ensures ParseObject(ps).result.Ok? ==> ClosedBy(ParseObject(ps).state, RightBrace)
  {
    ObjectLoopCloses(ps, []);
  }

  /**
   * A string key, a colon and a value: the member is pushed after the
   * members before it, and the loop goes on from the state after the value.
   */
  lemma {:induction false} ObjectMember(ps: PState, props: seq<Property>, v: Parsed<Option<Node>>)
    requires Inv(ps) && ps.peek.kind == String && Next(ps).result.Ok?
    requires Next(ps).state.peek.kind == Colon && Next(Next(ps).state).result.Ok?
    requires v == Parse(Next(Next(ps).state).state) && v.result.Ok? && v.result.value.Some?
    ensures ObjectLoop(ps, props) == ObjectLoopAfterValue(v.state, props + [Property(ps.peek.value, v.result.value.value)])
  {
  }

  /** A comma directly before the closing `}` is accepted: the object ends with the members before it. */
  lemma {:induction false} ObjectTrailingComma(ps: PState, props: seq<Property>)
    requires Inv(ps) && ps.peek.kind == Comma && Next(ps).result.Ok?
    requires Next(ps).state.peek.kind == RightBrace && Next(Next(ps).state).result.Ok?
    ensures ObjectLoopAfterValue(ps, props) == Parsed(Next(Next(ps).state).state, Ok(props))
  {
    var n := Next(ps);
    assert ObjectLoopAfterValue(ps, props) == ObjectLoop(n.state, props);
  }

  /** A key that is not a string throws 'Expected string got …'. */
  lemma {:induction false} NonStringKey(ps: PState, props: seq<Property>)
    requires Inv(ps) && ps.peek.kind != RightBrace && ps.peek.kind != String && Next(ps).result.Ok?
    ensures ObjectLoop(ps, props) == Parsed(Next(ps).state, Err(ExpectedString(ps.peek.kind)))
  {
  }

  /** A key that no `:` follows fails the lookahead check for the colon. */
  lemma {:induction false} MissingColon(ps: PState, props: seq<Property>)
    requires Inv(ps) && ps.peek.kind == String && Next(ps).result.Ok? && Next(ps).state.peek.kind != Colon
    ensures ObjectLoop(ps, props) == Parsed(Next(ps).state, Err(Expected(Colon, Next(ps).state.peek.kind)))
  {
  }

  /** The end of input after `key:` throws 'Expected value'. */
  lemma {:induction false} MissingMemberValue(ps: PState, props: seq<Property>)
    requires Inv(ps) && ps.peek.kind == String && Next(ps).result.Ok?
    requires Next(ps).state.peek.kind == Colon && Next(Next(ps).state).result.Ok?
    requires Next(Next(ps).state).state.peek.kind == EOF && Next(Next(Next(ps).state).state).result.Ok?
    ensures ObjectLoop(ps, props).result == Err(ExpectedValue)
  {
    var c := Next(Next(ps).state).state;
    ParseAtEof(c);
  }

  /** After a member, anything but `,` or `}` fails the lookahead check for `}`. */
  lemma {:induction false} MemberNotClosed(ps: PState, props: seq<Property>)
    requires Inv(ps) && ps.peek.kind != Comma && ps.peek.kind != RightBrace
    ensures ObjectLoopAfterValue(ps, props) == Parsed(ps, Err(Expected(RightBrace, ps.peek.kind)))
  {
  }

  // ---------------------------------------------------------------------
  // Arrays
  // ---------------------------------------------------------------------

  /** `[` directly followed by `]` is the empty array; the `]` becomes the current token. */
  lemma {:induction false} EmptyArray(ps: PState)
    requires Inv(ps) && ps.peek.kind == RightBracket && Next(ps).result.Ok?
    ensures ParseArray(ps) == Parsed(Next(ps).state, Ok(ArrayNode([])))
  {
  }

  /** When `parseArray`'s loop ends without an error, it has just consumed the closing `]`. */
  lemma {:induction false} ArrayLoopCloses(ps: PState, elems: seq<Node>)
    requires Inv(ps)
    ensures ArrayLoop(ps, elems).result.Ok? ==> ClosedBy(ArrayLoop(ps, elems).state, RightBracket)
    decreases Fuel(ps)
  {
    if ps.peek.kind != RightBracket {
      var v := Parse(ps);
      if v.result.Ok? && v.result.value.Some? {
        var elems' := elems + [v.result.value.value];
        if v.state.peek.kind == Comma {
          var n := Next(v.state);
          if n.result.Ok? {
            ArrayLoopCloses(n.state, elems');
          }
        } else if v.state.peek.kind == RightBracket {
          ArrayLoopCloses(v.state, elems');
        }
      }
    }
  }

  /** An array that parses ends on its `]`, which is then the current token. */
  lemma {:induction false} ParseArrayCloses(ps: PState)
    requires Inv(ps)
    ensures ParseArray(ps).result.Ok? ==> ClosedBy(ParseArray(ps).state, RightBracket)
  {
    ArrayLoopCloses(ps, []);
  }

  /** An element is pushed after the elements before it; a `,` after it moves on to the next. */
  lemma {:induction false} ArrayElement(ps: PState, elems: seq<Node>)
    requires Inv(ps) && ps.peek.kind != RightBracket
    requires Parse(ps).result.Ok? && Parse(ps).result.value.Some?
    requires Parse(ps).state.peek.kind == Comma && Next(Parse(ps).state).result.Ok?
    ensures ArrayLoop(ps, elems) == ArrayLoop(Next(Parse(ps).state).state, elems + [Parse(ps).result.value.value])
  {
  }

  /** On `]` the loop ends with the elements pushed so far, and the `]` becomes the current token. */
  lemma {:induction false} ArrayLoopAtClose(ps: PState, elems: seq<Node>)
    requires Inv(ps) && ps.peek.kind == RightBracket && Next(ps).result.Ok?
    ensures ArrayLoop(ps, elems) == Parsed(Next(ps).state, Ok(elems))
  {
  }

  /** A comma directly before the closing `]` is accepted: the array ends with the elements before it. */
  lemma {:induction false} ArrayTrailingComma(ps: PState, elems: seq<Node>)
    requires Inv(ps) && ps.peek.kind != RightBracket
    requires Parse(ps).result.Ok? && Parse(ps).result.value.Some?
    requires Parse(ps).state.peek.kind == Comma && Next(Parse(ps).state).result.Ok?
    requires Next(Parse(ps).state).state.peek.kind == RightBracket && Next(Next(Parse(ps).state).state).result.Ok?
    ensures ArrayLoop(ps, elems) == Parsed(Next(Next(Parse(ps).state).state).state, Ok(elems + [Parse(ps).result.value.value]))
  {
    var w := Next(Parse(ps).state).state;
    ArrayElement(ps, elems);
    ArrayLoopAtClose(w, elems + [Parse(ps).result.value.value]);
  }

  /** The end of input where an element belongs throws 'Expected value'. */
  lemma {:induction false} MissingElement(ps: PState, elems: seq<Node>)
    requires Inv(ps) && ps.peek.kind == EOF && Next(ps).result.Ok?
    ensures ArrayLoop(ps, elems).result == Err(ExpectedValue)
  {
    ParseAtEof(ps);
  }

  /** After an element, anything but `,` or `]` fails the lookahead check for `]`. */
  lemma {:induction false} ElementNotClosed(ps: PState, elems: seq<Node>)
    requires Inv(ps) && ps.peek.kind != RightBracket
    requires Parse(ps).result.Ok? && Parse(ps).result.value.Some?
    requires Parse(ps).state.peek.kind != Comma && Parse(ps).state.peek.kind != RightBracket
    ensures ArrayLoop(ps, elems) == Parsed(Parse(ps).state, Err(Expected(RightBracket, Parse(ps).state.peek.kind)))
  {
  }

  // ---------------------------------------------------------------------
  // Templates
  // ---------------------------------------------------------------------

  /** `{{` and an identifier: null, with only the identifier consumed (the `}}` is the new lookahead at most). */
  lemma {:induction false} TemplateIdentifier(ps: PState)
    requires Inv(ps) && ps.current.Some? && ps.peek.kind == Identifier
    ensures ParseTemplate(ps).state == Next(ps).state
    ensures ParseTemplate(ps).result == if Next(ps).result.Ok? then Ok(NullNode) else Err(Next(ps).result.error)
  {
  }

  /** `{{` and any token but an identifier, `range` or `if` fails the lookahead check for an identifier. */
  lemma {:induction false} TemplateOther(ps: PState)
    requires Inv(ps) && ps.current.Some? && ps.peek.kind !in {Identifier, Range, If}
    ensures ParseTemplate(ps) == Parsed(ps, Err(Expected(Identifier, ps.peek.kind)))
  {
  }

  /**
   * `{{ range` always fails: once `range` is consumed it is the current
   * token, and the check for an identifier looks at the current token.
   */
  lemma {:induction false} RangeAlwaysFails(ps: PState)
    requires Inv(ps) && ps.current.Some? && ps.peek.kind == Range
    ensures ParseTemplate(ps).result == if Next(ps).result.Ok? then Err(Expected(Identifier, Range)) else Err(Next(ps).result.error)
  {
  }

  /**
   * `{{ if` always fails: `parseIf` checks the current token, which is
   * still the `{{`, against `if`.
   */
  lemma {:induction false} IfAlwaysFails(ps: PState)
    requires Inv(ps) && ps.current.Some? && ps.current.value.kind == TemplateStart && ps.peek.kind == If
    ensures ParseTemplate(ps) == Parsed(ps, Err(Expected(If, TemplateStart)))
  {
  }

  /**
   * `( {{ v )`: the value after `{{` is the result, and the `)` is left as
   * the lookahead, not consumed.
   */
  lemma {:induction false} EnclosedTemplate(ps: PState)
    requires Inv(ps) && ps.peek.kind == TemplateStart && Next(ps).result.Ok?
    requires Parse(Next(ps).state).result.Ok? && Parse(Next(ps).state).state.peek.kind == RightParen
    ensures ParseEnclosedTemplate(ps) == Parse(Next(ps).state)
  {
  }

  /** Without `)` after the value in `( {{ v`, the lookahead check for `)` fails. */
  lemma {:induction false} EnclosedTemplateUnclosed(ps: PState)
    requires Inv(ps) && ps.peek.kind == TemplateStart && Next(ps).result.Ok?
    requires Parse(Next(ps).state).result.Ok? && Parse(Next(ps).state).state.peek.kind != RightParen
    ensures ParseEnclosedTemplate(ps)
      == Parsed(Parse(Next(ps).state).state, Err(Expected(RightParen, Parse(Next(ps).state).state.peek.kind)))
  {
  }

  /** `(` not followed by `{{` fails the lookahead check for `{{`. */
  lemma {:induction false} EnclosedTemplateNeedsStart(ps: PState)
    requires Inv(ps) && ps.peek.kind != TemplateStart
    ensures ParseEnclosedTemplate(ps) == Parsed(ps, Err(Expected(TemplateStart, ps.peek.kind)))
  {
  }

  // ---------------------------------------------------------------------
  // Only the first value is parsed
  // ---------------------------------------------------------------------

  /**
   * A source whose first token is a literal parses to that literal as soon
   * as a second token can be lexed: nothing after the second token is read,
   * so an input that the lexer would reject further on still parses.
   */
  lemma {:induction false} FirstValueOnly(source: string)
    requires Start(source).Ok? && IsLiteral(Start(source).value.peek.kind)
    requires Scan.Next(Start(source).value.lex).result.Ok?
    ensures ParseSource(source) == Ok(Some(LiteralNode(Start(source).value.peek)))
  {
    ParseLiteral(Start(source).value);
  }

  // ---------------------------------------------------------------------
  // Runs of literals
  // ---------------------------------------------------------------------

  /**
   * From `ps` on, the lookahead and the tokens after it are the tokens `ts`
   * separated by commas and closed by `]`, and no pull among them throws.
   */
  predicate ElementRun(ps: PState, ts: seq<Token>)
    decreases |ts|
  {
    if |ts| == 0 then ps.peek.kind == RightBracket && Next(ps).result.Ok?
    else
      && ps.peek == ts[0] && Next(ps).result.Ok?
      && (var a := Next(ps).state;
          if |ts| == 1 then a.peek.kind == RightBracket && Next(a).result.Ok?
          else a.peek.kind == Comma && Next(a).result.Ok? && ElementRun(Next(a).state, ts[1..]))
  }

  /** Every token of `ts` is a literal. */
  predicate AllLiterals(ts: seq<Token>)
    decreases |ts|
  {
    |ts| == 0 || (IsLiteral(ts[0].kind) && AllLiterals(ts[1..]))
  }

  /** The nodes of a sequence of literal tokens, in order. */
  function LiteralNodes(ts: seq<Token>): seq<Node>
    requires AllLiterals(ts)
    decreases |ts|
  {
    if |ts| == 0 then [] else [LiteralNode(ts[0])] + LiteralNodes(ts[1..])
  }

  /** The loop of `parseArray` over a run of literals appends their nodes, in order, and succeeds. */
  lemma {:induction false} LiteralElements(ps: PState, elems: seq<Node>, ts: seq<Token>)
    requires Inv(ps) && ElementRun(ps, ts)
    requires AllLiterals(ts)
    ensures ArrayLoop(ps, elems).result == Ok(elems + LiteralNodes(ts))
    decreases |ts|
  {
    if |ts| == 0 {
      ArrayLoopAtClose(ps, elems);
      AppendLiteralNodes(elems, ts);
    } else if |ts| == 1 {
      LiteralLastElement(ps, elems, ts);
    } else {
      LiteralElementStep(ps, elems, ts);
      LiteralElements(Next(Next(ps).state).state, elems + [LiteralNode(ts[0])], ts[1..]);
      AppendLiteralNodes(elems, ts);
    }
  }

  /** The last literal of a run is pushed and the `]` after it ends the loop. */
  lemma {:induction false} LiteralLastElement(ps: PState, elems: seq<Node>, ts: seq<Token>)
    requires Inv(ps) && ElementRun(ps, ts) && |ts| == 1 && IsLiteral(ts[0].kind)
    ensures ArrayLoop(ps, elems).result == Ok(elems + LiteralNodes(ts))
  {
    LastLiteral(ps, elems);
    AppendLiteralNodes(elems, ts);
  }

  /** A literal that `]` follows is the last element: the loop ends after the `]`. */
  lemma {:induction false} LastLiteral(ps: PState, elems: seq<Node>)
    requires Inv(ps) && IsLiteral(ps.peek.kind) && Next(ps).result.Ok?
    requires Next(ps).state.peek.kind == RightBracket && Next(Next(ps).state).result.Ok?
    ensures ArrayLoop(ps, elems) == Parsed(Next(Next(ps).state).state, Ok(elems + [LiteralNode(ps.peek)]))
  {
    ParseLiteral(ps);
    LastElement(ps, elems);
    ArrayLoopAtClose(Next(ps).state, elems + [LiteralNode(ps.peek)]);
  }

  /** Pushing the nodes of a run one at a time appends them all. */
  lemma {:induction false} AppendLiteralNodes(elems: seq<Node>, ts: seq<Token>)
    requires AllLiterals(ts)
    ensures |ts| == 0 ==> elems + LiteralNodes(ts) == elems
    ensures |ts| == 1 ==> elems + [LiteralNode(ts[0])] == elems + LiteralNodes(ts)
    ensures |ts| > 0 ==> (elems + [LiteralNode(ts[0])]) + LiteralNodes(ts[1..]) == elems + LiteralNodes(ts)
  {
    if |ts| > 0 {
      assert LiteralNodes(ts) == [LiteralNode(ts[0])] + LiteralNodes(ts[1..]);
    }
  }

  /** A literal of a run that a comma follows is pushed, and the loop goes on after the comma with the rest of the run. */
  lemma {:induction false} LiteralElementStep(ps: PState, elems: seq<Node>, ts: seq<Token>)
    requires Inv(ps) && ElementRun(ps, ts) && |ts| > 1 && IsLiteral(ts[0].kind)
    ensures Inv(Next(Next(ps).state).state) && ElementRun(Next(Next(ps).state).state, ts[1..])
    ensures ArrayLoop(ps, elems) == ArrayLoop(Next(Next(ps).state).state, elems + [LiteralNode(ts[0])])
  {
    ParseLiteral(ps);
    ArrayElement(ps, elems);
  }

  /** An element the lookahead `]` follows is pushed, and the loop goes on to the `]`. */
  lemma {:induction false} LastElement(ps: PState, elems: seq<Node>)
    requires Inv(ps) && ps.peek.kind != RightBracket
    requires Parse(ps).result.Ok? && Parse(ps).result.value.Some?
    requires Parse(ps).state.peek.kind == RightBracket
    ensures ArrayLoop(ps, elems) == ArrayLoop(Parse(ps).state, elems + [Parse(ps).result.value.value])
  {
  }

  /** A lookahead `[` makes `parse()` pull it and run `parseArray`'s loop from the state after it. */
  lemma {:induction false} ArrayValue(ps: PState)
    requires Inv(ps) && ps.peek.kind == LeftBracket && Next(ps).result.Ok?
    ensures ArrayLoop(Next(ps).state, []).result.Ok? ==> Parse(ps).result == Ok(Some(ArrayNode(ArrayLoop(Next(ps).state, []).result.value)))
  {
    PulledValue(ps);
    var st := Next(ps).state;
    assert ParseValue(st, ps.peek) == Present(ParseArray(st));
  }

  /** A lookahead other than EOF, pulled without an error, goes to the `switch` of `parse()`. */
  lemma {:induction false} PulledValue(ps: PState)
    requires Inv(ps) && ps.peek.kind != EOF && Next(ps).result.Ok?
    ensures Next(ps).state.current == Some(ps.peek)
    ensures Parse(ps) == ParseValue(Next(ps).state, ps.peek)
  {
  }

  /** `[` followed by literals separated by commas and a `]` parses to the array of their nodes. */
  lemma {:induction false} LiteralArray(ps: PState, ts: seq<Token>)
    requires Inv(ps) && ps.peek.kind == LeftBracket && Next(ps).result.Ok?
    requires ElementRun(Next(ps).state, ts)
    requires AllLiterals(ts)
    ensures Parse(ps).result == Ok(Some(ArrayNode(LiteralNodes(ts))))
  {
    LiteralElements(Next(ps).state, [], ts);
    assert [] + LiteralNodes(ts) == LiteralNodes(ts);
    ArrayValue(ps);
  }

  /**
   * From `ps` on, the lookahead and the tokens after it are, for each pair
   * of `ms`, its key, a colon and its value, the members separated by commas
   * and closed by `}`, and no pull among them throws.
   */
  predicate MemberRun(ps: PState, ms: seq<(Token, Token)>)
    decreases |ms|
  {
    if |ms| == 0 then ps.peek.kind == RightBrace && Next(ps).result.Ok?
    else
      && ps.peek == ms[0].0 && Next(ps).result.Ok?
      && (var c := Next(ps).state;
          && c.peek.kind == Colon && Next(c).result.Ok?
          && (var v := Next(c).state;
              && v.peek == ms[0].1 && Next(v).result.Ok?
              && (var a := Next(v).state;
                  if |ms| == 1 then a.peek.kind == RightBrace && Next(a).result.Ok?
                  else a.peek.kind == Comma && Next(a).result.Ok? && MemberRun(Next(a).state, ms[1..]))))
  }

  /** Every pair of `ms` is a string key with a literal value. */
  predicate LiteralPairs(ms: seq<(Token, Token)>)
    decreases |ms|
  {
    |ms| == 0 || (ms[0].0.kind == String && IsLiteral(ms[0].1.kind) && LiteralPairs(ms[1..]))
  }

  /** The properties of a sequence of string keys paired with literal values, in order. */
  function LiteralProperties(ms: seq<(Token, Token)>): seq<Property>
    requires LiteralPairs(ms)
    decreases |ms|
  {
    if |ms| == 0 then [] else [Property(ms[0].0.value, LiteralNode(ms[0].1))] + LiteralProperties(ms[1..])
  }

  /** The loop of `parseObject` over a run of literal members appends their properties, in order, and succeeds. */
  lemma {:induction false} LiteralMembers(ps: PState, props: seq<Property>, ms: seq<(Token, Token)>)
    requires Inv(ps) && MemberRun(ps, ms)
    requires LiteralPairs(ms)
    ensures ObjectLoop(ps, props).result == Ok(props + LiteralProperties(ms))
    decreases |ms|
  {
    AppendLiteralProperties(props, ms);
    if |ms| == 0 {
      ObjectLoopAtClose(ps, props);
    } else {
      var props' := props + [Property(ms[0].0.value, LiteralNode(ms[0].1))];
      var a := LiteralMember(ps, props, ms);
      if |ms| == 1 {
        AfterLastMember(a, props');
      } else {
        AfterMember(a, props');
        LiteralMembers(Next(a).state, props', ms[1..]);
      }
    }
  }

  /** Pushing the properties of a run one at a time appends them all. */
  lemma {:induction false} AppendLiteralProperties(props: seq<Property>, ms: seq<(Token, Token)>)
    requires LiteralPairs(ms)
    ensures |ms| == 0 ==> props + LiteralProperties(ms) == props
    ensures |ms| == 1 ==> props + [Property(ms[0].0.value, LiteralNode(ms[0].1))] == props + LiteralProperties(ms)
    ensures |ms| > 0 ==> (props + [Property(ms[0].0.value, LiteralNode(ms[0].1))]) + LiteralProperties(ms[1..]) == props + LiteralProperties(ms)
  {
    if |ms| > 0 {
      assert LiteralProperties(ms) == [Property(ms[0].0.value, LiteralNode(ms[0].1))] + LiteralProperties(ms[1..]);
    }
  }

  /** The state after the first member of a run: its key, colon and literal value are pulled and the property is pushed. */
  function AfterFirstMember(ps: PState): PState
  {
    Next(Next(Next(ps).state).state).state
  }

  /** The first member of a run is pushed, and the loop goes on with the token after its value. */
  lemma {:induction false} LiteralMember(ps: PState, props: seq<Property>, ms: seq<(Token, Token)>) returns (a: PState)
    requires Inv(ps) && MemberRun(ps, ms) && |ms| > 0
    requires ms[0].0.kind == String && IsLiteral(ms[0].1.kind)
    ensures a == AfterFirstMember(ps) && Inv(a)
    ensures ObjectLoop(ps, props) == ObjectLoopAfterValue(a, props + [Property(ms[0].0.value, LiteralNode(ms[0].1))])
    ensures |ms| == 1 ==> a.peek.kind == RightBrace && Next(a).result.Ok?
    ensures |ms| > 1 ==> a.peek.kind == Comma && Next(a).result.Ok? && MemberRun(Next(a).state, ms[1..])
  {
    var v := Next(Next(ps).state).state;
    ParseLiteral(v);
    ObjectMember(ps, props, Parse(v));
    a := Next(v).state;
  }

  /** On `}` the loop ends with the members pushed so far, and the `}` becomes the current token. */
  lemma {:induction false} ObjectLoopAtClose(ps: PState, props: seq<Property>)
    requires Inv(ps) && ps.peek.kind == RightBrace && Next(ps).result.Ok?
    ensures ObjectLoop(ps, props) == Parsed(Next(ps).state, Ok(props))
  {
  }

  /** After a member, a lookahead `}` ends the loop with the members so far. */
  lemma {:induction false} AfterLastMember(ps: PState, props: seq<Property>)
    requires Inv(ps) && ps.peek.kind == RightBrace && Next(ps).result.Ok?
    ensures ObjectLoopAfterValue(ps, props) == Parsed(Next(ps).state, Ok(props))
  {
  }

  /** After a member, a lookahead `,` is pulled and the loop goes on. */
  lemma {:induction false} AfterMember(ps: PState, props: seq<Property>)
    requires Inv(ps) && ps.peek.kind == Comma && Next(ps).result.Ok?
    ensures ObjectLoopAfterValue(ps, props) == ObjectLoop(Next(ps).state, props)
  {
  }

  /** A lookahead `{` makes `parse()` pull it and run `parseObject`'s loop from the state after it. */
  lemma {:induction false} ObjectValue(ps: PState)
    requires Inv(ps) && ps.peek.kind == LeftBrace && Next(ps).result.Ok?
    ensures ObjectLoop(Next(ps).state, []).result.Ok? ==> Parse(ps).result == Ok(Some(ObjectNode(ObjectLoop(Next(ps).state, []).result.value)))
  {
    PulledValue(ps);
    var st := Next(ps).state;
    assert ParseValue(st, ps.peek) == Present(ParseObject(st));
  }

  /** `{` followed by literal members separated by commas and a `}` parses to the object of their properties. */
  lemma {:induction false} LiteralObject(ps: PState, ms: seq<(Token, Token)>)
    requires Inv(ps) && ps.peek.kind == LeftBrace && Next(ps).result.Ok?
    requires MemberRun(Next(ps).state, ms)
    requires LiteralPairs(ms)
    ensures Parse(ps).result == Ok(Some(ObjectNode(LiteralProperties(ms))))
  {
    LiteralMembers(Next(ps).state, [], ms);
    assert [] + LiteralProperties(ms) == LiteralProperties(ms);
    ObjectValue(ps);
  }
}
