/**
 * The syntax tree the parser builds (src/ast.ts). Every node class of the
 * source is one constructor; its `type` tag is `Tag`.
 */
module Ast {

  import opened Wrappers

  datatype Node =
    | StringNode(text: string)
    | NumberNode(lexeme: string)          // the number's source text; see README for why not a float
    | ObjectNode(properties: seq<Property>)
    | ArrayNode(elements: seq<Node>)
    | BooleanNode(truth: bool)
    | NullNode
    | PropertyNode(key: string, value: Node)
    | RangeNode(indexIdentifier: string, valueIdentifier: string, itertable: Node, body: Option<Node>)
    | IfNode(condition: Node, thenBody: Option<Node>, elseBody: Option<Node>)
    | PathNode(path: string)

  /** An object's entries: the source's PropertyNode instances stored in ObjectNode.value. */
  datatype Property = Property(key: string, value: Node)

  /** The node's `type` field. */
  function Tag(n: Node): string
  {
    match n
    case StringNode(_) => "String"
    case NumberNode(_) => "Number"
    case ObjectNode(_) => "Object"
    case ArrayNode(_) => "Array"
    case BooleanNode(_) => "Boolean"
    case NullNode => "Null"
    case PropertyNode(_, _) => "Property"
    case RangeNode(_, _, _, _) => "KritiRange"
    case IfNode(_, _, _) => "KritiIf"
    case PathNode(_) => "KritiPath"
  }

  /** A tree made of JSON nodes only: strings, numbers, booleans, null, arrays and objects of them. */
  predicate IsJson(n: Node)
  {
    match n
    case StringNode(_) => true
    case NumberNode(_) => true
    case BooleanNode(_) => true
    case NullNode => true
    case ArrayNode(es) => forall i :: 0 <= i < |es| ==> IsJson(es[i])
    case ObjectNode(ps) => forall i :: 0 <= i < |ps| ==> IsJson(ps[i].value)
    case _ => false
  }

  /** The tag tells the node class: distinct constructors have distinct tags. */
  lemma TagDistinguishesClasses(m: Node, n: Node)
    requires Tag(m) == Tag(n)
    ensures m.StringNode? == n.StringNode? && m.NumberNode? == n.NumberNode?
    ensures m.ObjectNode? == n.ObjectNode? && m.ArrayNode? == n.ArrayNode?
    ensures m.BooleanNode? == n.BooleanNode? && m.NullNode? == n.NullNode?
    ensures m.PropertyNode? == n.PropertyNode? && m.RangeNode? == n.RangeNode?
    ensures m.IfNode? == n.IfNode? && m.PathNode? == n.PathNode?
  {
  }
}
