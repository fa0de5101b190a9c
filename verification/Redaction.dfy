/**
  Redaction of audit metadata (Services/Audit/AuditMetadataSerializer.cs) as a function on JSON
  trees, and what it hides. RedactionInPlace carries it out on mutable nodes.
*/
module Redaction {
  import opened SensitiveFieldNames

  /** Property names are unique within an object; their order is kept. */
  datatype Json =
    | Null
    | Bool(value: bool)
    | Number(digits: string)
    | String(text: string)
    | Array(items: seq<Json>)
    | Object(properties: seq<Property>)

  datatype Property = Property(name: string, value: Json)

  function Redacted(j: Json): Json {
    match j
    case Array(items) => Array(seq(|items|, i requires 0 <= i < |items| => Redacted(items[i])))
    case Object(properties) =>
      Object(seq(|properties|, i requires 0 <= i < |properties| => RedactedProperty(properties[i])))
    case _ => j
  }

  function RedactedProperty(p: Property): Property {
    if IsSecret(p.name) then p.(value := String(REDACTED))
    else if p.value.Null? then p
    else if IsEmail(p.name) && p.value.String? then p.(value := String(MaskEmail(p.value.text)))
    else p.(value := Redacted(p.value))
  }

  /** Nothing in the tree is left to redact. */
  predicate Clean(j: Json) {
    match j
    case Array(items) => forall i :: 0 <= i < |items| ==> Clean(items[i])
    case Object(properties) => forall i :: 0 <= i < |properties| ==> CleanProperty(properties[i])
    case _ => true
  }

  predicate CleanProperty(p: Property) {
    if IsSecret(p.name) then p.value == String(REDACTED)
    else if IsEmail(p.name) && p.value.String? then IsMasked(p.value.text)
    else Clean(p.value)
  }

  /** The result is clean, and clean trees are exactly those that redaction leaves alone. */
  lemma {:induction false} CleanExactly(j: Json)
    ensures Clean(Redacted(j))
    ensures Redacted(j) == j <==> Clean(j)
  {
    match j
    case Array(items) =>
      forall i | 0 <= i < |items|
        ensures Clean(Redacted(items[i])) && (Redacted(items[i]) == items[i] <==> Clean(items[i]))
      {
        CleanExactly(items[i]);
      }
      assert Redacted(j) == j ==> forall i :: 0 <= i < |items| ==> Redacted(j).items[i] == items[i];
    case Object(properties) =>
      forall i | 0 <= i < |properties|
        ensures CleanProperty(RedactedProperty(properties[i]))
        ensures RedactedProperty(properties[i]) == properties[i] <==> CleanProperty(properties[i])
      {
        if properties[i].value.String? {
          MaskExactly(properties[i].value.text);
        }
        CleanExactly(properties[i].value);
      }
      assert Redacted(j) == j ==>
        forall i :: 0 <= i < |properties| ==> Redacted(j).properties[i] == properties[i];
    case _ =>
  }

  lemma Idempotent(j: Json)
    ensures Redacted(Redacted(j)) == Redacted(j)
  {
    CleanExactly(j);
    CleanExactly(Redacted(j));
  }

  /**
    The trees agree except below secret names and in what masking hides of an e-mail address.
  */
  predicate Alike(x: Json, y: Json) {
    if x.Array? && y.Array? then
      |x.items| == |y.items| && forall i :: 0 <= i < |x.items| ==> Alike(x.items[i], y.items[i])
    else if x.Object? && y.Object? then
      && |x.properties| == |y.properties|
      && forall i :: 0 <= i < |x.properties| ==> AlikeProperty(x.properties[i], y.properties[i])
    else x == y
  }

  predicate AlikeProperty(p: Property, q: Property) {
    && p.name == q.name
    && (!IsSecret(p.name) ==>
          if IsEmail(p.name) && p.value.String? && q.value.String?
          then var a, b := p.value.text, q.value.text;
               IsAddress(a) == IsAddress(b) && (IsAddress(a) ==> Shown(a) == Shown(b))
          else Alike(p.value, q.value))
  }

  /** Redaction hides exactly those differences: no more is lost and no more is shown. */
  lemma {:induction false} HidesExactly(x: Json, y: Json)
    ensures Redacted(x) == Redacted(y) <==> Alike(x, y)
    decreases x, 1
  {
    if x.Array? && y.Array? {
      ItemsHidden(x.items, y.items);
    } else if x.Object? && y.Object? {
      PropertiesHidden(x.properties, y.properties);
    }
  }

  lemma ItemsHidden(a: seq<Json>, b: seq<Json>)
    ensures Redacted(Array(a)) == Redacted(Array(b)) <==> Alike(Array(a), Array(b))
    decreases a, 0
  {
    var x, y := Redacted(Array(a)), Redacted(Array(b));
    if |a| == |b| {
      forall i | 0 <= i < |a|
        ensures x.items[i] == y.items[i] <==> Alike(a[i], b[i])
      {
        HidesExactly(a[i], b[i]);
      }
      if x == y {
        assert forall i :: 0 <= i < |a| ==> (Alike(a[i], b[i]) <==> x.items[i] == y.items[i]);
      } else {
        assert x.items != y.items;
      }
    } else {
      assert |x.items| != |y.items|;
    }
  }

  lemma PropertiesHidden(a: seq<Property>, b: seq<Property>)
    ensures Redacted(Object(a)) == Redacted(Object(b)) <==> Alike(Object(a), Object(b))
    decreases a, 0
  {
    var x, y := Redacted(Object(a)), Redacted(Object(b));
    if |a| == |b| {
      forall i | 0 <= i < |a|
        ensures x.properties[i] == y.properties[i] <==> AlikeProperty(a[i], b[i])
      {
        PropertyHidden(a[i], b[i]);
      }
      if x == y {
        assert forall i :: 0 <= i < |a| ==> (AlikeProperty(a[i], b[i]) <==> x.properties[i] == y.properties[i]);
      } else {
        assert x.properties != y.properties;
      }
    } else {
      assert |x.properties| != |y.properties|;
    }
  }

  lemma PropertyHidden(p: Property, q: Property)
    ensures RedactedProperty(p) == RedactedProperty(q) <==> AlikeProperty(p, q)
    decreases p, 0
  {
    if p.value.String? && q.value.String? {
      MaskReveals(p.value.text, q.value.text);
    }
    HidesExactly(p.value, q.value);
  }
}
