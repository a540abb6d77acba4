/** Metadata filters: a conjunction of conditions on named fields. */
module Filters {
  import opened Types

  datatype Condition =
    | Eq(field: string, value: MetadataValue)
    | Ne(field: string, value: MetadataValue)
    | Gt(field: string, value: MetadataValue)
    | Gte(field: string, value: MetadataValue)
    | Lt(field: string, value: MetadataValue)
    | Lte(field: string, value: MetadataValue)
    | In(field: string, values: seq<MetadataValue>)

  type Conditions = seq<Condition>

  function Lookup(metadata: Metadata, field: string): Option<MetadataValue> {
    if field in metadata then Some(metadata[field]) else None
  }

  function Number(v: MetadataValue): Option<real> {
    match v
    case Integer(i) => Some(i as real)
    case Float(f) => Some(f)
    case _ => None
  }

  predicate Compare(actual: Option<MetadataValue>, expected: MetadataValue, cmp: (real, real) -> bool) {
    actual.Some? && Number(actual.value).Some? && Number(expected).Some?
      && cmp(Number(actual.value).value, Number(expected).value)
  }

  predicate Holds(c: Condition, metadata: Metadata) {
    var actual := Lookup(metadata, c.field);
    match c
    case Eq(_, v) => actual == Some(v)
    case Ne(_, v) => actual != Some(v)
    case Gt(_, v) => Compare(actual, v, (a, b) => a > b)
    case Gte(_, v) => Compare(actual, v, (a, b) => a >= b)
    case Lt(_, v) => Compare(actual, v, (a, b) => a < b)
    case Lte(_, v) => Compare(actual, v, (a, b) => a <= b)
    case In(_, vs) => actual.Some? && actual.value in vs
  }

  predicate Matches(filter: Conditions, metadata: Metadata) {
    forall i :: 0 <= i < |filter| ==> Holds(filter[i], metadata)
  }

  ghost predicate NumberIs(v: MetadataValue, r: real) {
    (v.Integer? && r == v.i as real) || (v.Float? && r == v.f)
  }

  /** Equality and membership look at the value of the field; a missing field differs from everything. */
  lemma EqualityConditions(field: string, v: MetadataValue, vs: seq<MetadataValue>, metadata: Metadata)
    ensures Holds(Eq(field, v), metadata) <==> field in metadata && metadata[field] == v
    ensures Holds(Ne(field, v), metadata) <==> !(field in metadata && metadata[field] == v)
    ensures Holds(In(field, vs), metadata) <==>
      field in metadata && exists i :: 0 <= i < |vs| && vs[i] == metadata[field]
  {}

  /** The order conditions compare two numbers, integer or not; anything else, and a missing field, fails them all. */
  lemma OrderConditions(field: string, v: MetadataValue, metadata: Metadata)
    ensures Holds(Gt(field, v), metadata) <==>
      field in metadata && exists a, b :: NumberIs(metadata[field], a) && NumberIs(v, b) && a > b
    ensures Holds(Gte(field, v), metadata) <==>
      field in metadata && exists a, b :: NumberIs(metadata[field], a) && NumberIs(v, b) && a >= b
    ensures Holds(Lt(field, v), metadata) <==>
      field in metadata && exists a, b :: NumberIs(metadata[field], a) && NumberIs(v, b) && a < b
    ensures Holds(Lte(field, v), metadata) <==>
      field in metadata && exists a, b :: NumberIs(metadata[field], a) && NumberIs(v, b) && a <= b
  {
    if field in metadata && Number(metadata[field]).Some? && Number(v).Some? {
      var a, b := Number(metadata[field]).value, Number(v).value;
      assert NumberIs(metadata[field], a) && NumberIs(v, b);
    }
  }

  /** Builder order and repetition do not matter; adding a condition only narrows. */
  lemma MatchesConjunction(a: Conditions, b: Conditions, metadata: Metadata)
    ensures Matches(a + b, metadata) <==> Matches(a, metadata) && Matches(b, metadata)
  {
    if Matches(a + b, metadata) {
      forall i | 0 <= i < |a| ensures Holds(a[i], metadata) { assert (a + b)[i] == a[i]; }
      forall i | 0 <= i < |b| ensures Holds(b[i], metadata) { assert (a + b)[|a| + i] == b[i]; }
    }
  }
}
