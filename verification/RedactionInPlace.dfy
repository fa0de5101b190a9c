/**
  The redaction of Services/Audit/AuditMetadataSerializer.cs on mutable nodes: objects are
  overwritten entry by entry, and the tree a node stands for changes as Redaction.Redacted says.

  A node has at most one parent, so what two children reach never overlaps. Repr holds the nodes a
  container reached when it was built; redaction only ever takes nodes away from it.
*/
module RedactionInPlace {
  import opened Redaction
  import opened SensitiveFieldNames

  datatype Node =
    | NullNode
    | BoolNode(value: bool)
    | NumberNode(digits: string)
    | StringNode(text: string)
    | ArrayNode(elements: JsonArray)
    | ObjectNode(entries: JsonObject)

  class JsonArray {
    const items: seq<Node>
    ghost const Repr: set<object>

    constructor (items: seq<Node>, ghost trees: seq<Json>)
      requires Separate(items) && AllDenote(items, trees)
      ensures fresh(this) && Footprint(ArrayNode(this)) == {this} + Union(items)
      ensures Denotes(ArrayNode(this), Array(trees))
    {
      hide Union, Redacted, RedactedProperty;
      this.items := items;
      Repr := {this} + Union(items);
      new;
      assert Below(this, Repr, items);
    }
  }

  class JsonObject {
    const names: seq<string>
    var values: seq<Node>
    ghost const Repr: set<object>

    constructor (names: seq<string>, values: seq<Node>, ghost trees: seq<Json>)
      requires |names| == |values| && Separate(values) && AllDenote(values, trees)
      ensures fresh(this) && Footprint(ObjectNode(this)) == {this} + Union(values)
      ensures Denotes(ObjectNode(this), Object(Properties(names, trees)))
    {
      hide Union, Redacted, RedactedProperty;
      this.names, this.values := names, values;
      Repr := {this} + Union(values);
      new;
      assert forall i :: 0 <= i < |values| ==> DenotesEntry(this, i, Properties(names, trees)[i]);
    }
  }

  ghost function Properties(names: seq<string>, trees: seq<Json>): seq<Property>
    requires |names| == |trees|
  {
    seq(|names|, i requires 0 <= i < |names| => Property(names[i], trees[i]))
  }

  /** The containers a node reached when it was built. */
  ghost function Footprint(node: Node): set<object> {
    match node
    case ArrayNode(elements) => elements.Repr
    case ObjectNode(entries) => entries.Repr
    case _ => {}
  }

  ghost function Union(nodes: seq<Node>): (union: set<object>)
    ensures forall i :: 0 <= i < |nodes| ==> Footprint(nodes[i]) <= union
  {
    set i, o | 0 <= i < |nodes| && o in Footprint(nodes[i]) :: o
  }

  ghost predicate Separate(nodes: seq<Node>) {
    forall i, j :: 0 <= i < j < |nodes| ==> Footprint(nodes[i]) !! Footprint(nodes[j])
  }

  /** The children of a container lie apart from it and from each other. */
  ghost predicate Below(container: object, Repr: set<object>, children: seq<Node>) {
    && container in Repr && Separate(children)
    && forall i :: 0 <= i < |children| ==> Footprint(children[i]) <= Repr - {container}
  }

  ghost predicate AllDenote(nodes: seq<Node>, trees: seq<Json>)
    reads Union(nodes)
    decreases trees, 0
  {
    |nodes| == |trees| && forall i :: 0 <= i < |nodes| ==> Denotes(nodes[i], trees[i])
  }

  /** The node is a tree of containers, none reached twice, and stands for `j`. */
  ghost predicate Denotes(node: Node, j: Json)
    reads Footprint(node)
    decreases j, 1
  {
    match node
    case NullNode => j == Null
    case BoolNode(value) => j == Bool(value)
    case NumberNode(digits) => j == Number(digits)
    case StringNode(text) => j == String(text)
    case ArrayNode(elements) =>
      && j.Array? && Below(elements, elements.Repr, elements.items) && |elements.items| == |j.items|
      && forall i :: 0 <= i < |j.items| ==> Denotes(elements.items[i], j.items[i])
    case ObjectNode(entries) =>
      && j.Object? && entries in entries.Repr && Below(entries, entries.Repr, entries.values)
      && |entries.names| == |entries.values| == |j.properties|
      && forall i :: 0 <= i < |j.properties| ==> DenotesEntry(entries, i, j.properties[i])
  }

  ghost predicate DenotesEntry(entries: JsonObject, i: nat, p: Property)
    requires i < |entries.names| && i < |entries.values|
    reads entries, Footprint(entries.values[i])
    decreases p, 1
  {
    p.name == entries.names[i] && Denotes(entries.values[i], p.value)
  }

  /** A node stands for one tree only. */
  lemma {:induction false} DenotesOne(node: Node, x: Json, y: Json)
    requires Denotes(node, x) && Denotes(node, y)
    ensures x == y
    decreases x
  {
    match node
    case ArrayNode(elements) =>
      forall i | 0 <= i < |elements.items|
        ensures x.items[i] == y.items[i]
      {
        DenotesOne(elements.items[i], x.items[i], y.items[i]);
      }
    case ObjectNode(entries) =>
      forall i | 0 <= i < |entries.values|
        ensures x.properties[i] == y.properties[i]
      {
        assert DenotesEntry(entries, i, x.properties[i]) && DenotesEntry(entries, i, y.properties[i]);
        DenotesOne(entries.values[i], x.properties[i].value, y.properties[i].value);
      }
    case _ =>
  }

  method Redact(node: Node, ghost j: Json)
    requires Denotes(node, j)
    modifies Footprint(node)
    ensures Denotes(node, Redacted(j))
    decreases j, 1
  {
    match node {
      case ArrayNode(elements) => RedactElements(elements, j);
      case ObjectNode(entries) => RedactEntries(entries, j);
      case _ =>
    }
  }

  method RedactElements(elements: JsonArray, ghost j: Json)
    requires Denotes(ArrayNode(elements), j)
    modifies elements.Repr
    ensures Denotes(ArrayNode(elements), Redacted(j))
    decreases j, 0
  {
    var items := elements.items;
    for k := 0 to |items|
      invariant forall i :: 0 <= i < k ==> Denotes(items[i], Redacted(j).items[i])
      invariant forall i :: k <= i < |items| ==> Denotes(items[i], j.items[i])
    {
      Redact(items[k], j.items[k]);
    }
  }

  method RedactEntries(entries: JsonObject, ghost j: Json)
    requires Denotes(ObjectNode(entries), j)
    modifies entries.Repr
    ensures Denotes(ObjectNode(entries), Redacted(j))
    decreases j, 0
  {
    for k := 0 to |entries.names|
      invariant |entries.values| == |entries.names| && Below(entries, entries.Repr, entries.values)
      invariant forall i :: 0 <= i < k ==> DenotesEntry(entries, i, Redacted(j).properties[i])
      invariant forall i :: k <= i < |entries.names| ==> DenotesEntry(entries, i, j.properties[i])
    {
      RedactProperty(entries, k, j.properties[k]);
    }
  }

  /** Names are unique within an object, so the name RedactProperty is given is an index here. */
  method RedactProperty(entries: JsonObject, k: nat, ghost p: Property)
    requires k < |entries.names| == |entries.values| && DenotesEntry(entries, k, p)
    requires entries !in Footprint(entries.values[k])
    modifies entries, Footprint(entries.values[k])
    ensures |entries.values| == |old(entries.values)| && DenotesEntry(entries, k, RedactedProperty(p))
    ensures Footprint(entries.values[k]) <= old(Footprint(entries.values[k]))
    ensures forall i :: 0 <= i < |entries.values| && i != k ==> entries.values[i] == old(entries.values)[i]
    decreases p, 0
  {
    var name, value := entries.names[k], entries.values[k];
    if IsSecret(name) {
      entries.values := entries.values[k := StringNode(REDACTED)];
      return;
    }
    if value.NullNode? {
      return;
    }
    if IsEmail(name) && value.StringNode? {
      entries.values := entries.values[k := StringNode(MaskEmail(value.text))];
      return;
    }
    Redact(value, p.value);
  }
}
