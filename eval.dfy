/**
 * `eval1` of src/eval.ts: the fold from a syntax tree to a JSON-like value.
 * An object becomes a map from keys to values (the source builds a plain
 * object with `reduce`, one key assignment per property, in order); an array
 * maps `eval1` over its elements; the template nodes give `undefined`.
 */
module Evaluation {

  import opened Wrappers
  import opened Ast
  import Tokens
  import ParseModel
  import ParserFacts

  /** What `eval1` returns: a JavaScript value of one of these shapes. */
  datatype Value =
    | VString(text: string)
    | VNumber(lexeme: string)
    | VBool(truth: bool)
    | VNull
    | VArray(items: seq<Value>)
    | VObject(fields: map<string, Value>)
    | VUndefined

  /** One step of the `reduce` callback: `acc[key] = value`, for each entry in turn. */
  function Assign(acc: map<string, Value>, entries: seq<(string, Value)>): map<string, Value>
    decreases |entries|
  {
    if |entries| == 0 then acc else Assign(acc[entries[0].0 := entries[0].1], entries[1..])
  }

  /** The key and the evaluated value of each property, in order. */
  function Entries(ps: seq<Property>, values: seq<Value>): (r: seq<(string, Value)>)
    requires |values| == |ps|
    ensures |r| == |ps| && forall i :: 0 <= i < |ps| ==> r[i] == (ps[i].key, values[i])
  {
    seq(|ps|, i requires 0 <= i < |ps| => (ps[i].key, values[i]))
  }

  /** The keys of a sequence of entries. */
  function EntryKeys(entries: seq<(string, Value)>): set<string>
  {
    set i | 0 <= i < |entries| :: entries[i].0
  }

  /** The keys of an object's properties. */
  function PropertyKeys(ps: seq<Property>): set<string>
  {
    set i | 0 <= i < |ps| :: ps[i].key
  }

  function Eval(n: Node): (r: Value)
    decreases n
  {
    match n
    case ObjectNode(ps) =>
      var values := seq(|ps|, i requires 0 <= i < |ps| => Eval(ps[i].value));
      VObject(Assign(map[], Entries(ps, values)))
    case ArrayNode(es) => VArray(seq(|es|, i requires 0 <= i < |es| => Eval(es[i])))
    case StringNode(s) => VString(s)
    case NumberNode(x) => VNumber(x)
    case NullNode => VNull
    case BooleanNode(b) => VBool(b)
    case _ => VUndefined
  }

  // ---------------------------------------------------------------------
  // The fold over an object's properties
  // ---------------------------------------------------------------------

  /** The keys after the fold are the keys before it and every entry's key. */
  lemma {:induction false} AssignKeys(acc: map<string, Value>, entries: seq<(string, Value)>)
    ensures Assign(acc, entries).Keys == acc.Keys + EntryKeys(entries)
    decreases |entries|
  {
    if |entries| > 0 {
      var rest := entries[1..];
      AssignKeys(acc[entries[0].0 := entries[0].1], rest);
      assert EntryKeys(entries) == {entries[0].0} + EntryKeys(rest) by {
        forall k | k in EntryKeys(entries)
          ensures k in {entries[0].0} + EntryKeys(rest)
        {
          var i :| 0 <= i < |entries| && entries[i].0 == k;
          if i > 0 {
            assert rest[i - 1].0 == k;
          }
        }
      }
    }
  }

  /** A key that no entry assigns keeps the value it had. */
  lemma {:induction false} AssignKeeps(acc: map<string, Value>, entries: seq<(string, Value)>, k: string)
    requires k in acc && forall i :: 0 <= i < |entries| ==> entries[i].0 != k
    ensures k in Assign(acc, entries) && Assign(acc, entries)[k] == acc[k]
    decreases |entries|
  {
    if |entries| > 0 {
      AssignKeeps(acc[entries[0].0 := entries[0].1], entries[1..], k);
    }
  }

  /** The last entry with a key decides that key's value. */
  lemma {:induction false} AssignLastWins(acc: map<string, Value>, entries: seq<(string, Value)>, j: nat)
    requires j < |entries| && forall i :: j < i < |entries| ==> entries[i].0 != entries[j].0
    ensures entries[j].0 in Assign(acc, entries) && Assign(acc, entries)[entries[j].0] == entries[j].1
    decreases |entries|
  {
    var head := acc[entries[0].0 := entries[0].1];
    if j == 0 {
      AssignKeeps(head, entries[1..], entries[0].0);
    } else {
      AssignLastWins(head, entries[1..], j - 1);
    }
  }

  // ---------------------------------------------------------------------
  // eval1
  // ---------------------------------------------------------------------

  /** An object evaluates to a map with exactly the keys of its properties. */
  lemma {:induction false} ObjectKeys(ps: seq<Property>)
    ensures Eval(ObjectNode(ps)).VObject?
    ensures Eval(ObjectNode(ps)).fields.Keys == PropertyKeys(ps)
  {
    var values := seq(|ps|, i requires 0 <= i < |ps| => Eval(ps[i].value));
    var entries := Entries(ps, values);
    AssignKeys(map[], entries);
    assert EntryKeys(entries) == PropertyKeys(ps) by {
      forall k | k in PropertyKeys(ps)
        ensures k in EntryKeys(entries)
      {
        var i :| 0 <= i < |ps| && ps[i].key == k;
        assert entries[i].0 == k;
      }
    }
  }

  /** With duplicate keys, the last property with a key gives that key's value. */
  lemma {:induction false} LastPropertyWins(ps: seq<Property>, j: nat)
    requires j < |ps| && forall i :: j < i < |ps| ==> ps[i].key != ps[j].key
    ensures Eval(ObjectNode(ps)).VObject?
    ensures ps[j].key in Eval(ObjectNode(ps)).fields
    ensures Eval(ObjectNode(ps)).fields[ps[j].key] == Eval(ps[j].value)
  {
    var values := seq(|ps|, i requires 0 <= i < |ps| => Eval(ps[i].value));
    var entries := Entries(ps, values);
    AssignLastWins(map[], entries, j);
  }

  /** An array evaluates to an array of the same length, element by element. */
  lemma {:induction false} ArrayElements(es: seq<Node>)
    ensures Eval(ArrayNode(es)).VArray? && |Eval(ArrayNode(es)).items| == |es|
    ensures forall i :: 0 <= i < |es| ==> Eval(ArrayNode(es)).items[i] == Eval(es[i])
  {
  }

  /** A value with no `undefined` anywhere inside it. */
  predicate Defined(v: Value)
  {
    match v
    case VUndefined => false
    case VArray(items) => forall i :: 0 <= i < |items| ==> Defined(items[i])
    case VObject(fields) => forall k :: k in fields ==> Defined(fields[k])
    case _ => true
  }

  /** `undefined` comes exactly from the property, range, if and path nodes. */
  lemma {:induction false} UndefinedIffTemplateNode(n: Node)
    ensures Eval(n) == VUndefined <==> n.PropertyNode? || n.RangeNode? || n.IfNode? || n.PathNode?
  {
  }

  /** A JSON tree evaluates to a value with no `undefined` inside it. */
  lemma {:induction false} JsonIsDefined(n: Node)
    requires IsJson(n)
    ensures Defined(Eval(n))
    decreases n
  {
    match n
    case ArrayNode(es) =>
      forall i | 0 <= i < |es| ensures Defined(Eval(ArrayNode(es)).items[i]) {
        JsonIsDefined(es[i]);
      }
    case ObjectNode(ps) =>
      var fields := Eval(n).fields;
      ObjectKeys(ps);
      forall k | k in fields ensures Defined(fields[k]) {
        var j := LastIndexOf(ps, k);
        LastPropertyWins(ps, j);
        JsonIsDefined(ps[j].value);
      }
    case _ =>
  }

  /** The index of the last property with key `k`. */
  function LastIndexOf(ps: seq<Property>, k: string): (j: nat)
    requires k in PropertyKeys(ps)
    ensures j < |ps| && ps[j].key == k && forall i :: j < i < |ps| ==> ps[i].key != k
  {
    if ps[|ps| - 1].key == k then |ps| - 1
    else
      assert k in PropertyKeys(ps[..|ps| - 1]) by {
        var i :| 0 <= i < |ps| && ps[i].key == k;
        assert i < |ps| - 1 && ps[..|ps| - 1][i] == ps[i];
      }
      LastIndexOf(ps[..|ps| - 1], k)
  }

  /** Whatever `Parser.parse` returns evaluates without `undefined` anywhere inside it. */
  lemma {:induction false} ParsedValueIsDefined(source: string)
    requires ParseModel.ParseSource(source).Ok? && ParseModel.ParseSource(source).value.Some?
    ensures Defined(Eval(ParseModel.ParseSource(source).value.value))
  {
    JsonIsDefined(ParseModel.ParseSource(source).value.value);
  }

  /** The node of a literal token evaluates to the token's own payload: strings stay undecoded, numbers keep their text. */
  lemma {:induction false} LiteralValue(t: Tokens.Token)
    requires ParserFacts.IsLiteral(t.kind)
    ensures t.kind == Tokens.String ==> Eval(ParserFacts.LiteralNode(t)) == VString(t.value)
    ensures t.kind == Tokens.Number ==> Eval(ParserFacts.LiteralNode(t)) == VNumber(t.value)
    ensures t.kind == Tokens.True ==> Eval(ParserFacts.LiteralNode(t)) == VBool(true)
    ensures t.kind == Tokens.False ==> Eval(ParserFacts.LiteralNode(t)) == VBool(false)
    ensures t.kind == Tokens.Null ==> Eval(ParserFacts.LiteralNode(t)) == VNull
  {
  }

  /** `{"a": 1, "a": 2}` evaluates to `{"a": 2}`. */
  lemma DuplicateKeyExample()
    ensures Eval(ObjectNode([Property("a", NumberNode("1")), Property("a", NumberNode("2"))])) == VObject(map["a" := VNumber("2")])
  {
    var ps := [Property("a", NumberNode("1")), Property("a", NumberNode("2"))];
    var values := seq(|ps|, i requires 0 <= i < |ps| => Eval(ps[i].value));
    assert values == [VNumber("1"), VNumber("2")];
    var entries := Entries(ps, values);
    assert entries == [("a", VNumber("1")), ("a", VNumber("2"))];
    assert Assign(map[], entries) == Assign(map["a" := VNumber("1")], entries[1..]);
    assert entries[1..][1..] == [];
    assert Assign(map[], entries) == map["a" := VNumber("1")]["a" := VNumber("2")];
  }
}
