/**
 * The parser of src/parser.ts as functions on an explicit parser state: the
 * lexer's fields, `currentToken` (unset until the first `next()`) and
 * `peekToken`. Each function returns the state it leaves together with its
 * result or the error it threw; the `Parser` class in parser.dfy is proved
 * to compute exactly these.
 *
 * Recursion is measured by `Fuel`: every `next()` moves the lexer forward,
 * and while the lookahead is not EOF the lexer has not run past the end of
 * the source by more than two characters (`Inv`).
 */
module ParseModel {

  import opened Wrappers
  import opened Tokens
  import opened Errors
  import opened Ast
  import Scan

  datatype PState = PState(lex: Scan.LexState, current: Option<Token>, peek: Token)

  datatype Parsed<T> = Parsed(state: PState, result: Outcome<T>)

  predicate Inv(ps: PState)
  {
    ps.peek.kind != EOF ==> ps.lex.position <= |ps.lex.source| + 2
  }

  function Fuel(ps: PState): int
  {
    |ps.lex.source| + 3 - ps.lex.position
  }

  /** `qs` is a state the parser can reach from `ps`. */
  predicate Later(ps: PState, qs: PState)
  {
    && qs.lex.source == ps.lex.source
    && qs.lex.position >= ps.lex.position
    && Inv(qs)
    && (ps.current.Some? ==> qs.current.Some?)
  }

  function Failed<T, U>(p: Parsed<U>): Parsed<T>
    requires p.result.Err?
  {
    Parsed(p.state, Err(p.result.error))
  }

  /**
   * `next()`: the lookahead becomes the current token and the lexer is asked
   * for a new one. When the lexer throws, `currentToken` has already moved
   * and `peekToken` is unchanged.
   */
  function Next(ps: PState): (r: Parsed<Token>)
    ensures r.state.lex.source == ps.lex.source && r.state.lex.position > ps.lex.position
    ensures Inv(r.state)
    ensures r.state.current == Some(ps.peek)
    ensures r.result.Ok? ==> r.result.value == ps.peek
  {
    var l := Scan.Next(ps.lex);
    match l.result
    case Ok(t) => Parsed(PState(l.state, Some(ps.peek), t), Ok(ps.peek))
    case Err(e) => Parsed(PState(l.state, Some(ps.peek), ps.peek), Err(e))
  }

  /** `assertPeekToken` */
  function AssertPeek(ps: PState, k: TokenType): (r: Outcome<()>)
    ensures r.Ok? <==> ps.peek.kind == k
    ensures r.Err? ==> r.error == Expected(k, ps.peek.kind)
  {
    if ps.peek.kind != k then Err(Expected(k, ps.peek.kind)) else Ok(())
  }

  /** `consumePeekTokenIf`: check the lookahead, then `next()`. */
  function ConsumePeek(ps: PState, k: TokenType): (r: Parsed<Token>)
    ensures ps.peek.kind != k ==> r == Parsed(ps, Err(Expected(k, ps.peek.kind)))
    ensures r.result.Ok? ==> ps.peek.kind == k && r.result.value == ps.peek && r.state.current == Some(ps.peek)
  {
    if ps.peek.kind != k then Parsed(ps, Err(Expected(k, ps.peek.kind))) else Next(ps)
  }

  /** `consumeCurrentTokenIf`: check the current token, then `next()`. */
  function ConsumeCurrent(ps: PState, k: TokenType): (r: Parsed<Token>)
    requires ps.current.Some?
    ensures ps.current.value.kind != k ==> r == Parsed(ps, Err(Expected(k, ps.current.value.kind)))
    ensures r.result.Ok? ==> ps.current.value.kind == k && r.result.value == ps.peek && r.state.current == Some(ps.peek)
  {
    if ps.current.value.kind != k then Parsed(ps, Err(Expected(k, ps.current.value.kind))) else Next(ps)
  }

  function ParseString(value: string): Node
  {
    StringNode(value)
  }

  function ParseNumber(value: string): Node
  {
    NumberNode(value)
  }

  function ParseBoolean(value: bool): Node
  {
    BooleanNode(value)
  }

  function ParseNull(): Node
  {
    NullNode
  }

  /** `parsePath`: a stub returning an empty path. */
  function ParsePath(): Node
  {
    PathNode("")
  }

  function Present(p: Parsed<Node>): (r: Parsed<Option<Node>>)
  {
    match p.result
    case Ok(n) => Parsed(p.state, Ok(Some(n)))
    case Err(e) => Parsed(p.state, Err(e))
  }

  /**
   * `parse()`: one value starting at the lookahead, or nothing at EOF.
   * Everything it returns is a JSON tree, and a value always starts at a
   * token that is not EOF.
   */
  function Parse(ps: PState): (r: Parsed<Option<Node>>)
    requires Inv(ps)
    decreases Fuel(ps), 0
    ensures Later(ps, r.state) && r.state.lex.position > ps.lex.position && r.state.current.Some?
    ensures r.result.Ok? && r.result.value.Some? ==> ps.peek.kind != EOF && IsJson(r.result.value.value)
  {
    var n := Next(ps);
    if n.result.Err? then Failed(n)
    else
      var token := n.result.value;
      var st := n.state;
      if token.kind == EOF then Parsed(st, Ok(None)) else ParseValue(st, token)
  }

  /** The `switch` of `parse()` on the token it just pulled, which is not EOF. */
  function ParseValue(ps: PState, token: Token): (r: Parsed<Option<Node>>)
    requires Inv(ps) && ps.current == Some(token)
    decreases Fuel(ps), 3
    ensures Later(ps, r.state)
    ensures r.result.Ok? && r.result.value.Some? ==> IsJson(r.result.value.value)
  {
    if token.kind == LeftBrace then Present(ParseObject(ps))
    else if token.kind == LeftBracket then Present(ParseArray(ps))
    else if token.kind == String then Parsed(ps, Ok(Some(ParseString(token.value))))
    else if token.kind == Number then Parsed(ps, Ok(Some(ParseNumber(token.value))))
    else if token.kind == True then Parsed(ps, Ok(Some(ParseBoolean(true))))
    else if token.kind == False then Parsed(ps, Ok(Some(ParseBoolean(false))))
    else if token.kind == Null then Parsed(ps, Ok(Some(ParseNull())))
    else if token.kind == LeftParen then ParseEnclosedTemplate(ps)
    else if token.kind == TemplateStart then Present(ParseTemplate(ps))
    else Parsed(ps, Err(UnexpectedToken(token.kind)))
  }

  /** `parseTemplate`, entered with `{{` as the current token when reached from `parse()`. */
  function ParseTemplate(ps: PState): (r: Parsed<Node>)
    requires Inv(ps) && ps.current.Some?
    decreases Fuel(ps), 1
    ensures Later(ps, r.state)
    ensures ps.current.value.kind == TemplateStart && r.result.Ok? ==> r.result.value == NullNode
  {
    if ps.peek.kind == Range then ParseRange(ps)
    else if ps.peek.kind == If then ParseIf(ps)
    else ParseTemplateContent(ps)
  }

  /** `parseTemplateContent`: consumes one identifier and yields null. */
  function ParseTemplateContent(ps: PState): (r: Parsed<Node>)
    requires Inv(ps)
    ensures Later(ps, r.state)
    ensures r.result.Ok? ==> r.result.value == NullNode
  {
    var c := ConsumePeek(ps, Identifier);
    if c.result.Err? then Failed(c) else Parsed(c.state, Ok(ParseNull()))
  }

  /** `parseEnclosedTemplate`: `{{`, a value, and a `)` left as lookahead. */
  function ParseEnclosedTemplate(ps: PState): (r: Parsed<Option<Node>>)
    requires Inv(ps)
    decreases Fuel(ps), 0
    ensures Later(ps, r.state)
    ensures r.result.Ok? && r.result.value.Some? ==> IsJson(r.result.value.value)
  {
    var c := ConsumePeek(ps, TemplateStart);
    if c.result.Err? then Failed(c)
    else
      var v := Parse(c.state);
      if v.result.Err? then v
      else
        var check := AssertPeek(v.state, RightParen);
        if check.Err? then Parsed(v.state, Err(check.error)) else v
  }

  /** `parseRange`, line 80; the rest of its body is `ParseRangeBody`. */
  function ParseRange(ps: PState): (r: Parsed<Node>)
    requires Inv(ps)
    decreases Fuel(ps), 0
    ensures Later(ps, r.state)
    ensures r.result.Err?
  {
    var c := ConsumePeek(ps, Range);
    if c.result.Err? then Failed(c) else ParseRangeBody(c.state)
  }

  /** Lines 81-92 of `parseRange`, from whatever state line 80 leaves. */
  function ParseRangeBody(ps: PState): (r: Parsed<Node>)
    requires Inv(ps) && ps.current.Some?
    decreases Fuel(ps), 0
    ensures Later(ps, r.state)
    ensures ps.current.value.kind != Identifier ==> r == Parsed(ps, Err(Expected(Identifier, ps.current.value.kind)))
  {
    var i := ConsumeCurrent(ps, Identifier);
    if i.result.Err? then Failed(i)
    else
      var c := ConsumeCurrent(i.state, Comma);
      if c.result.Err? then Failed(c) else RangeAfterComma(c.state, i.result.value)
  }

  /** Lines 83-86 of `parseRange`: the value identifier, `:=`, the path and `}}`. */
  function RangeAfterComma(ps: PState, indexIdent: Token): (r: Parsed<Node>)
    requires Inv(ps) && ps.current.Some?
    decreases Fuel(ps), 0
    ensures Later(ps, r.state)
  {
    var v := ConsumeCurrent(ps, Identifier);
    if v.result.Err? then Failed(v)
    else
      var a := ConsumeCurrent(v.state, Assign);
      if a.result.Err? then Failed(a)
      else
        var path := ParsePath();
        var e := ConsumeCurrent(a.state, TemplateEnd);
        if e.result.Err? then Failed(e) else RangeAfterHeader(e.state, indexIdent, v.result.value, path)
  }

  /** Lines 87-92 of `parseRange`: the body, the closing `{{ end }}`, one more `next()`. */
  function RangeAfterHeader(ps: PState, indexIdent: Token, valueIdent: Token, path: Node): (r: Parsed<Node>)
    requires Inv(ps)
    decreases Fuel(ps), 1
    ensures Later(ps, r.state)
  {
    var body := Parse(ps);
    if body.result.Err? then Failed(body)
    else Closing(body.state, RangeNode(indexIdent.value, valueIdent.value, path, body.result.value), true)
  }

  /**
   * The `{{ end }}` checks after a range or if body: three
   * `consumeCurrentTokenIf` calls, then (for a range only) one more `next()`.
   */
  function Closing(ps: PState, node: Node, pullAfter: bool): (r: Parsed<Node>)
    requires Inv(ps) && ps.current.Some?
    ensures Later(ps, r.state)
  {
    var s := ConsumeCurrent(ps, TemplateStart);
    if s.result.Err? then Failed(s)
    else
      var e := ConsumeCurrent(s.state, End);
      if e.result.Err? then Failed(e)
      else
        var t := ConsumeCurrent(e.state, TemplateEnd);
        if t.result.Err? then Failed(t)
        else if !pullAfter then Parsed(t.state, Ok(node))
        else
          var n := Next(t.state);
          if n.result.Err? then Failed(n) else Parsed(n.state, Ok(node))
  }

  /** `parseIf`, reached while the lookahead is `if`. */
  function ParseIf(ps: PState): (r: Parsed<Node>)
    requires Inv(ps) && ps.current.Some? && ps.peek.kind == If
    decreases Fuel(ps), 0
    ensures Later(ps, r.state)
    ensures ps.current.value.kind != If ==> r == Parsed(ps, Err(Expected(If, ps.current.value.kind)))
  {
    var i := ConsumeCurrent(ps, If);
    if i.result.Err? then Failed(i)
    else
      var cond := ParseTemplate(i.state);
      if cond.result.Err? then cond
      else
        var e := ConsumeCurrent(cond.state, TemplateEnd);
        if e.result.Err? then Failed(e) else IfAfterCondition(e.state, cond.result.value)
  }

  /** Lines 99-110 of `parseIf`: the then-branch, an optional else-branch, the closing `{{ end }}`. */
  function IfAfterCondition(ps: PState, cond: Node): (r: Parsed<Node>)
    requires Inv(ps)
    decreases Fuel(ps), 1
    ensures Later(ps, r.state)
  {
    var then_ := Parse(ps);
    if then_.result.Err? then Failed(then_)
    else
      var s := ConsumeCurrent(then_.state, TemplateStart);
      if s.result.Err? then Failed(s)
      else
        var elseBody := ParseElse(s.state);
        if elseBody.result.Err? then Failed(elseBody)
        else Closing(elseBody.state, IfNode(cond, then_.result.value, elseBody.result.value), false)
  }

  /** The optional `else` branch of `parseIf` (lines 101-106). */
  function ParseElse(ps: PState): (r: Parsed<Option<Node>>)
    requires Inv(ps) && ps.current.Some?
    decreases Fuel(ps), 0
    ensures Later(ps, r.state)
    ensures ps.current.value.kind != Else ==> r == Parsed(ps, Ok(None))
  {
    if ps.current.value.kind != Else then Parsed(ps, Ok(None))
    else
      var l := ConsumeCurrent(ps, Else);
      if l.result.Err? then Failed(l)
      else
        var e := ConsumeCurrent(l.state, TemplateEnd);
        if e.result.Err? then Failed(e)
        else Parse(e.state)
  }

  /** `parseObject`, entered after `{`. */
  function ParseObject(ps: PState): (r: Parsed<Node>)
    requires Inv(ps)
    decreases Fuel(ps), 1
    ensures Later(ps, r.state) && r.state.lex.position > ps.lex.position
    ensures r.result.Ok? ==> r.result.value.ObjectNode? && IsJson(r.result.value)
  {
    var l := ObjectLoop(ps, []);
    if l.result.Err? then Failed(l) else Parsed(l.state, Ok(ObjectNode(l.result.value)))
  }

  /** The `while (true)` loop of `parseObject`; `props` holds the members pushed so far. */
  function ObjectLoop(ps: PState, props: seq<Property>): (r: Parsed<seq<Property>>)
    requires Inv(ps)
    decreases Fuel(ps), 0
    ensures Later(ps, r.state) && r.state.lex.position > ps.lex.position
    ensures r.result.Ok? ==> |r.result.value| >= |props| && forall i :: 0 <= i < |props| ==> r.result.value[i] == props[i]
    ensures r.result.Ok? ==> forall i :: |props| <= i < |r.result.value| ==> IsJson(r.result.value[i].value)
  {
    var k := Next(ps);
    if k.result.Err? then Failed(k)
    else
      var key := k.result.value;
      if key.kind == RightBrace then Parsed(k.state, Ok(props))
      else if key.kind != String then Parsed(k.state, Err(ExpectedString(key.kind)))
      else
        var c := ConsumePeek(k.state, Colon);
        if c.result.Err? then Failed(c)
        else
          var v := Parse(c.state);
          if v.result.Err? then Failed(v)
          else if v.result.value.None? then Parsed(v.state, Err(ExpectedValue))
          else ObjectLoopAfterValue(v.state, props + [Property(key.value, v.result.value.value)])
  }

  /** The rest of an iteration of `parseObject`'s loop, after a member is pushed (lines 150-155). */
  function ObjectLoopAfterValue(ps: PState, props: seq<Property>): (r: Parsed<seq<Property>>)
    requires Inv(ps)
    decreases Fuel(ps), 1
    ensures Later(ps, r.state)
    ensures r.result.Ok? ==> |r.result.value| >= |props| && forall i :: 0 <= i < |props| ==> r.result.value[i] == props[i]
    ensures r.result.Ok? ==> forall i :: |props| <= i < |r.result.value| ==> IsJson(r.result.value[i].value)
  {
    if ps.peek.kind == Comma then
      var n := Next(ps);
      if n.result.Err? then Failed(n) else ObjectLoop(n.state, props)
    else
      var check := AssertPeek(ps, RightBrace);
      if check.Err? then Parsed(ps, Err(check.error)) else ObjectLoop(ps, props)
  }

  /** `parseArray`, entered after `[`. */
  function ParseArray(ps: PState): (r: Parsed<Node>)
    requires Inv(ps)
    decreases Fuel(ps), 2
    ensures Later(ps, r.state) && r.state.lex.position > ps.lex.position
    ensures r.result.Ok? ==> r.result.value.ArrayNode? && IsJson(r.result.value)
  {
    var l := ArrayLoop(ps, []);
    if l.result.Err? then Failed(l) else Parsed(l.state, Ok(ArrayNode(l.result.value)))
  }

  /** The `while (true)` loop of `parseArray`; `elems` holds the elements pushed so far. */
  function ArrayLoop(ps: PState, elems: seq<Node>): (r: Parsed<seq<Node>>)
    requires Inv(ps)
    decreases Fuel(ps), 1
    ensures Later(ps, r.state) && r.state.lex.position > ps.lex.position
    ensures r.result.Ok? ==> |r.result.value| >= |elems| && forall i :: 0 <= i < |elems| ==> r.result.value[i] == elems[i]
    ensures r.result.Ok? ==> forall i :: |elems| <= i < |r.result.value| ==> IsJson(r.result.value[i])
  {
    if ps.peek.kind == RightBracket then
      var n := Next(ps);
      if n.result.Err? then Failed(n) else Parsed(n.state, Ok(elems))
    else
      var v := Parse(ps);
      if v.result.Err? then Failed(v)
      else if v.result.value.None? then Parsed(v.state, Err(ExpectedValue))
      else
        var elems' := elems + [v.result.value.value];
        if v.state.peek.kind == Comma then
          var n := Next(v.state);
          if n.result.Err? then Failed(n) else ArrayLoop(n.state, elems')
        else
          var check := AssertPeek(v.state, RightBracket);
          if check.Err? then Parsed(v.state, Err(check.error)) else ArrayLoop(v.state, elems')
  }

  /** The state right after `new Parser(new Lexer(source))`: one token pulled as lookahead. */
  function Start(source: string): (r: Outcome<PState>)
    ensures r.Ok? ==> r.value.lex.source == source && r.value.current == None && Inv(r.value)
  {
    var l := Scan.Next(Scan.Init(source));
    match l.result
    case Ok(t) => Ok(PState(l.state, None, t))
    case Err(e) => Err(e)
  }

  /** `Parser.parse(source)` */
  function ParseSource(source: string): (r: Outcome<Option<Node>>)
    ensures r.Ok? && r.value.Some? ==> IsJson(r.value.value)
  {
    match Start(source)
    case Err(e) => Err(e)
    case Ok(ps) => Parse(ps).result
  }
}
