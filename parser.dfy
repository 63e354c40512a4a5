/**
 * The `Parser` class of src/parser.ts. It owns a `Lexer` and pulls one token
 * at a time into `currentToken`/`peekToken`; each method is proved to compute
 * what the function of the same name in ParseModel computes from the state
 * it starts in (the lexer's fields, the current token and the lookahead).
 */
module Parsing {

  import opened Wrappers
  import opened Tokens
  import opened Errors
  import opened Ast
  import Scan
  import Lexing
  import M = ParseModel

  class Parser {
    const lexer: Lexing.Lexer
    var current: Option<Token>
    var peek: Token

    function State(): M.PState
      reads this, lexer
    {
      M.PState(lexer.State(), current, peek)
    }

    predicate Valid()
      reads this, lexer
    {
      M.Inv(State())
    }

    /**
     * The object `new Parser(lexer)` builds once the lexer has produced the
     * first lookahead; `Create` performs that first `next()`.
     */
    constructor(lexer: Lexing.Lexer, first: Token)
      ensures this.lexer == lexer && current == None && peek == first
    {
      this.lexer := lexer;
      current := None;
      peek := first;
    }

    /** `new Parser(lexer)`: pulls the first token, which may throw. */
    static method Create(lexer: Lexing.Lexer) returns (r: Outcome<Parser>)
      modifies lexer
      ensures var l := Scan.Next(old(lexer.State()));
        lexer.State() == l.state &&
        match l.result
        case Ok(t) => r.Ok? && fresh(r.value) && r.value.lexer == lexer && r.value.State() == M.PState(l.state, None, t)
        case Err(e) => r == Err(e)
    {
      var first := lexer.Next();
      if first.Err? {
        return Err(first.error);
      }
      var p := new Parser(lexer, first.value);
      return Ok(p);
    }

    /** `Parser.parse(source)` */
    static method ParseText(source: string) returns (r: Outcome<Option<Node>>)
      ensures r == M.ParseSource(source)
    {
      var lexer := new Lexing.Lexer(source);
      var p := Create(lexer);
      if p.Err? {
        return Err(p.error);
      }
      var parser := p.value;
      r := parser.Parse();
    }

    method Next() returns (r: Outcome<Token>)
      modifies this, lexer
      ensures M.Next(old(State())) == M.Parsed(State(), r)
    {
      current := Some(peek);
      var t := lexer.Next();
      if t.Err? {
        return Err(t.error);
      }
      peek := t.value;
      return Ok(current.value);
    }

    method AssertPeekToken(k: TokenType) returns (r: Outcome<()>)
      ensures r == M.AssertPeek(State(), k)
    {
      if peek.kind != k {
        return Err(Expected(k, peek.kind));
      }
      return Ok(());
    }

    method ConsumePeekTokenIf(k: TokenType) returns (r: Outcome<Token>)
      modifies this, lexer
      ensures M.ConsumePeek(old(State()), k) == M.Parsed(State(), r)
    {
      var check := AssertPeekToken(k);
      if check.Err? {
        return Err(check.error);
      }
      r := Next();
    }

    method AssertCurrentToken(k: TokenType) returns (r: Outcome<()>)
      requires current.Some?
      ensures r == if current.value.kind != k then Err(Expected(k, current.value.kind)) else Ok(())
    {
      if current.value.kind != k {
        return Err(Expected(k, current.value.kind));
      }
      return Ok(());
    }

    method ConsumeCurrentTokenIf(k: TokenType) returns (r: Outcome<Token>)
      requires current.Some?
      modifies this, lexer
      ensures M.ConsumeCurrent(old(State()), k) == M.Parsed(State(), r)
    {
      var check := AssertCurrentToken(k);
      if check.Err? {
        return Err(check.error);
      }
      r := Next();
    }

    method Parse() returns (r: Outcome<Option<Node>>)
      requires Valid()
      modifies this, lexer
      decreases M.Fuel(State()), 0
      ensures M.Parse(old(State())) == M.Parsed(State(), r)
    {
      var token := Next();
      if token.Err? {
        return Err(token.error);
      }
      var t := token.value;
      if t.kind == EOF {
        return Ok(None);
      }
      r := ParseValue(t);
    }

    /** The `switch` of `parse()`. */
    method ParseValue(t: Token) returns (r: Outcome<Option<Node>>)
      requires Valid() && current == Some(t)
      modifies this, lexer
      decreases M.Fuel(State()), 3
      ensures M.ParseValue(old(State()), t) == M.Parsed(State(), r)
    {
      if t.kind == LeftBrace {
        var o := ParseObject();
        r := if o.Ok? then Ok(Some(o.value)) else Err(o.error);
      } else if t.kind == LeftBracket {
        var a := ParseArray();
        r := if a.Ok? then Ok(Some(a.value)) else Err(a.error);
      } else if t.kind == String {
        r := Ok(Some(M.ParseString(t.value)));
      } else if t.kind == Number {
        r := Ok(Some(M.ParseNumber(t.value)));
      } else if t.kind == True {
        r := Ok(Some(M.ParseBoolean(true)));
      } else if t.kind == False {
        r := Ok(Some(M.ParseBoolean(false)));
      } else if t.kind == Null {
        r := Ok(Some(M.ParseNull()));
      } else if t.kind == LeftParen {
        r := ParseEnclosedTemplate();
      } else if t.kind == TemplateStart {
        var n := ParseTemplate();
        r := if n.Ok? then Ok(Some(n.value)) else Err(n.error);
      } else {
        r := Err(UnexpectedToken(t.kind));
      }
    }

    method ParseTemplate() returns (r: Outcome<Node>)
      requires Valid() && current.Some?
      modifies this, lexer
      decreases M.Fuel(State()), 1
      ensures M.ParseTemplate(old(State())) == M.Parsed(State(), r)
    {
      if peek.kind == Range {
        r := ParseRange();
      } else if peek.kind == If {
        r := ParseIf();
      } else {
        r := ParseTemplateContent();
      }
    }

    method ParseTemplateContent() returns (r: Outcome<Node>)
      requires Valid()
      modifies this, lexer
      ensures M.ParseTemplateContent(old(State())) == M.Parsed(State(), r)
    {
      var c := ConsumePeekTokenIf(Identifier);
      if c.Err? {
        return Err(c.error);
      }
      return Ok(M.ParseNull());
    }

    method ParseEnclosedTemplate() returns (r: Outcome<Option<Node>>)
      requires Valid()
      modifies this, lexer
      decreases M.Fuel(State()), 0
      ensures M.ParseEnclosedTemplate(old(State())) == M.Parsed(State(), r)
    {
      var c := ConsumePeekTokenIf(TemplateStart);
      if c.Err? {
        return Err(c.error);
      }
      var node := Parse();
      if node.Err? {
        return node;
      }
      var check := AssertPeekToken(RightParen);
      if check.Err? {
        return Err(check.error);
      }
      return node;
    }

    method ParseRange() returns (r: Outcome<Node>)
      requires Valid()
      modifies this, lexer
      decreases M.Fuel(State()), 0
      ensures M.ParseRange(old(State())) == M.Parsed(State(), r)
    {
      var c := ConsumePeekTokenIf(Range);
      if c.Err? {
        return Err(c.error);
      }
      r := ParseRangeBody();
    }

    /** Lines 81-82 of `parseRange`. */
    method ParseRangeBody() returns (r: Outcome<Node>)
      requires Valid() && current.Some?
      modifies this, lexer
      decreases M.Fuel(State()), 0
      ensures M.ParseRangeBody(old(State())) == M.Parsed(State(), r)
    {
      var indexIdent := ConsumeCurrentTokenIf(Identifier);
      if indexIdent.Err? {
        return Err(indexIdent.error);
      }
      var c := ConsumeCurrentTokenIf(Comma);
      if c.Err? {
        return Err(c.error);
      }
      r := RangeAfterComma(indexIdent.value);
    }

    /** Lines 83-86 of `parseRange`. */
    method RangeAfterComma(indexIdent: Token) returns (r: Outcome<Node>)
      requires Valid() && current.Some?
      modifies this, lexer
      decreases M.Fuel(State()), 0
      ensures M.RangeAfterComma(old(State()), indexIdent) == M.Parsed(State(), r)
    {
      var valueIdent := ConsumeCurrentTokenIf(Identifier);
      if valueIdent.Err? {
        return Err(valueIdent.error);
      }
      var a := ConsumeCurrentTokenIf(Assign);
      if a.Err? {
        return Err(a.error);
      }
      var path := ParsePath();
      var e := ConsumeCurrentTokenIf(TemplateEnd);
      if e.Err? {
        return Err(e.error);
      }
      r := RangeAfterHeader(indexIdent, valueIdent.value, path);
    }

    /** Lines 87-92 of `parseRange`. */
    method RangeAfterHeader(indexIdent: Token, valueIdent: Token, path: Node) returns (r: Outcome<Node>)
      requires Valid()
      modifies this, lexer
      decreases M.Fuel(State()), 1
      ensures M.RangeAfterHeader(old(State()), indexIdent, valueIdent, path) == M.Parsed(State(), r)
    {
      var body := Parse();
      if body.Err? {
        return Err(body.error);
      }
      r := Closing(RangeNode(indexIdent.value, valueIdent.value, path, body.value), true);
    }

    /** The `{{ end }}` checks that close a range or an if. */
    method Closing(node: Node, pullAfter: bool) returns (r: Outcome<Node>)
      requires Valid() && current.Some?
      modifies this, lexer
      ensures M.Closing(old(State()), node, pullAfter) == M.Parsed(State(), r)
    {
      var s := ConsumeCurrentTokenIf(TemplateStart);
      if s.Err? {
        return Err(s.error);
      }
      var e := ConsumeCurrentTokenIf(End);
      if e.Err? {
        return Err(e.error);
      }
      var t := ConsumeCurrentTokenIf(TemplateEnd);
      if t.Err? {
        return Err(t.error);
      }
      if pullAfter {
        var n := Next();
        if n.Err? {
          return Err(n.error);
        }
      }
      return Ok(node);
    }

    method ParseIf() returns (r: Outcome<Node>)
      requires Valid() && current.Some? && peek.kind == If
      modifies this, lexer
      decreases M.Fuel(State()), 0
      ensures M.ParseIf(old(State())) == M.Parsed(State(), r)
    {
      var i := ConsumeCurrentTokenIf(If);
      if i.Err? {
        return Err(i.error);
      }
      var cond := ParseTemplate();
      if cond.Err? {
        return cond;
      }
      var e := ConsumeCurrentTokenIf(TemplateEnd);
      if e.Err? {
        return Err(e.error);
      }
      r := IfAfterCondition(cond.value);
    }

    /** Lines 99-110 of `parseIf`. */
    method IfAfterCondition(cond: Node) returns (r: Outcome<Node>)
      requires Valid()
      modifies this, lexer
      decreases M.Fuel(State()), 1
      ensures M.IfAfterCondition(old(State()), cond) == M.Parsed(State(), r)
    {
      var then_ := Parse();
      if then_.Err? {
        return Err(then_.error);
      }
      var s := ConsumeCurrentTokenIf(TemplateStart);
      if s.Err? {
        return Err(s.error);
      }
      var elseBody := ParseElse();
      if elseBody.Err? {
        return Err(elseBody.error);
      }
      r := Closing(IfNode(cond, then_.value, elseBody.value), false);
    }

    /** Lines 101-106 of `parseIf`. */
    method ParseElse() returns (r: Outcome<Option<Node>>)
      requires Valid() && current.Some?
      modifies this, lexer
      decreases M.Fuel(State()), 0
      ensures M.ParseElse(old(State())) == M.Parsed(State(), r)
    {
      if current.value.kind != Else {
        return Ok(None);
      }
      var l := ConsumeCurrentTokenIf(Else);
      if l.Err? {
        return Err(l.error);
      }
      var e := ConsumeCurrentTokenIf(TemplateEnd);
      if e.Err? {
        return Err(e.error);
      }
      r := Parse();
    }

    method ParsePath() returns (n: Node)
      ensures n == M.ParsePath()
    {
      return PathNode("");
    }

    method ParseObject() returns (r: Outcome<Node>)
      requires Valid()
      modifies this, lexer
      decreases M.Fuel(State()), 1
      ensures M.ParseObject(old(State())) == M.Parsed(State(), r)
    {
      var props: seq<Property> := [];
      while true
        invariant Valid() && lexer.position >= old(lexer.position)
        invariant M.ObjectLoop(State(), props) == M.ObjectLoop(old(State()), [])
        decreases M.Fuel(State())
      {
        ghost var start := State();
        var key := Next();
        if key.Err? {
          return Err(key.error);
        }
        if key.value.kind == RightBrace {
          break;
        }
        if key.value.kind != String {
          return Err(ExpectedString(key.value.kind));
        }
        var c := ConsumePeekTokenIf(Colon);
        if c.Err? {
          return Err(c.error);
        }
        var value := Parse();
        if value.Err? {
          return Err(value.error);
        }
        if value.value.None? {
          return Err(ExpectedValue);
        }
        props := props + [Property(key.value.value, value.value.value)];
        ghost var pushed := State();
        assert M.ObjectLoop(start, props[..|props| - 1]) == M.ObjectLoopAfterValue(pushed, props);
        if peek.kind == Comma {
          var n := Next();
          if n.Err? {
            return Err(n.error);
          }
          continue;
        }
        var check := AssertPeekToken(RightBrace);
        if check.Err? {
          return Err(check.error);
        }
      }
      return Ok(ObjectNode(props));
    }

    method ParseArray() returns (r: Outcome<Node>)
      requires Valid()
      modifies this, lexer
      decreases M.Fuel(State()), 2
      ensures M.ParseArray(old(State())) == M.Parsed(State(), r)
    {
      var elems: seq<Node> := [];
      while true
        invariant Valid() && lexer.position >= old(lexer.position)
        invariant M.ArrayLoop(State(), elems) == M.ArrayLoop(old(State()), [])
        decreases M.Fuel(State())
      {
        if peek.kind == RightBracket {
          var n := Next();
          if n.Err? {
            return Err(n.error);
          }
          break;
        }
        var value := Parse();
        if value.Err? {
          return Err(value.error);
        }
        if value.value.None? {
          return Err(ExpectedValue);
        }
        elems := elems + [value.value.value];
        if peek.kind == Comma {
          var n := Next();
          if n.Err? {
            return Err(n.error);
          }
          continue;
        }
        var check := AssertPeekToken(RightBracket);
        if check.Err? {
          return Err(check.error);
        }
      }
      return Ok(ArrayNode(elems));
    }
  }
}
