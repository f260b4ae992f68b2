/**
 * Generic structural equality (src/augs/templates/introspection_utils/introspective_equal.h).
 * The source dispatches on C++ types at compile time; the model makes the type's shape a
 * datatype constructor, and types with their own `operator==` carry a key compared by a
 * caller-supplied relation `eq` (the user-defined `==`).
 */
module IntrospectiveEqual {
  import opened Wrappers

  datatype Value =
    | Optional(content: Option<Value>)   // std::optional
    | Tuple(elements: seq<Value>)         // std::tuple / std::pair, compared field-wise
    | Range(items: seq<Value>)            // a sized range, compared element-wise
    | Comparable(key: int)                // a type with its own operator==
    | Struct(fields: seq<Value>)          // a type compared through its introspector

  /**
   * `equal_or_introspective_equal`: the case ladder of the source, in its order. Values of
   * different shapes cannot meet in the source (both sides have the same C++ type); the model
   * answers false for them.
   */
  function EqualOrIntrospectiveEqual(eq: (int, int) -> bool, a: Value, b: Value): bool
    decreases a
  {
    match a
    case Optional(oa) =>
      b.Optional? &&
      (if oa.Some? != b.content.Some? then false
       else if oa.Some? then EqualOrIntrospectiveEqual(eq, oa.value, b.content.value)
       else true)
    case Tuple(xs) => b.Tuple? && AllFieldsEqual(eq, xs, b.elements)
    case Range(xs) =>
      b.Range? && |xs| == |b.items| && RangesEqual(eq, xs, b.items)
    case Comparable(k) => b.Comparable? && eq(k, b.key)
    case Struct(xs) => b.Struct? && AllFieldsEqual(eq, xs, b.fields)
  }

  /** The introspector's visit: every pair of corresponding fields is equal. */
  predicate AllFieldsEqual(eq: (int, int) -> bool, xs: seq<Value>, ys: seq<Value>)
    decreases xs
  {
    |xs| == |ys| && forall i | 0 <= i < |xs| :: EqualOrIntrospectiveEqual(eq, xs[i], ys[i])
  }

  /** `ranges_equal` with the same relation applied to corresponding elements. */
  predicate RangesEqual(eq: (int, int) -> bool, xs: seq<Value>, ys: seq<Value>)
    requires |xs| == |ys|
    decreases xs
  {
    forall i | 0 <= i < |xs| :: EqualOrIntrospectiveEqual(eq, xs[i], ys[i])
  }

  /**
   * `introspective_equal`: visits the field pairs in order, accumulating into `are_equal`
   * with `are_equal && ...`; once false the flag stays false and later fields are not compared.
   */
  method IntrospectiveEqual(eq: (int, int) -> bool, a: seq<Value>, b: seq<Value>) returns (areEqual: bool)
    requires |a| == |b|
    ensures areEqual <==> AllFieldsEqual(eq, a, b)
    ensures areEqual <==> forall i | 0 <= i < |a| :: EqualOrIntrospectiveEqual(eq, a[i], b[i])
  {
    areEqual := true;
    var i := 0;
    while i < |a|
      invariant 0 <= i <= |a|
      invariant areEqual <==> forall j | 0 <= j < i :: EqualOrIntrospectiveEqual(eq, a[j], b[j])
    {
      areEqual := areEqual && EqualOrIntrospectiveEqual(eq, a[i], b[i]);
      i := i + 1;
    }
  }

  /** Two optionals of different presence are unequal; two absent ones are equal. */
  lemma OptionalCases(eq: (int, int) -> bool, x: Value)
    ensures !EqualOrIntrospectiveEqual(eq, Optional(None), Optional(Some(x)))
    ensures !EqualOrIntrospectiveEqual(eq, Optional(Some(x)), Optional(None))
    ensures EqualOrIntrospectiveEqual(eq, Optional(None), Optional(None))
  {
  }

  /** Present optionals compare their contents; tuples and structs compare field-wise. */
  lemma CompositeCases(eq: (int, int) -> bool, x: Value, y: Value, xs: seq<Value>, ys: seq<Value>)
    ensures EqualOrIntrospectiveEqual(eq, Optional(Some(x)), Optional(Some(y))) == EqualOrIntrospectiveEqual(eq, x, y)
    ensures EqualOrIntrospectiveEqual(eq, Struct(xs), Struct(ys)) == AllFieldsEqual(eq, xs, ys)
    ensures EqualOrIntrospectiveEqual(eq, Tuple(xs), Tuple(ys)) == AllFieldsEqual(eq, xs, ys)
  {
  }

  /** A reflexive user `==` makes structural equality reflexive, at every depth. */
  lemma {:induction false} ReflexiveWhenEqIs(eq: (int, int) -> bool, v: Value)
    requires forall k :: eq(k, k)
    ensures EqualOrIntrospectiveEqual(eq, v, v)
    decreases v
  {
    match v
    case Optional(o) =>
      if o.Some? { ReflexiveWhenEqIs(eq, o.value); }
    case Tuple(xs) =>
      forall i | 0 <= i < |xs| ensures EqualOrIntrospectiveEqual(eq, xs[i], xs[i]) {
        ReflexiveWhenEqIs(eq, xs[i]);
      }
    case Range(xs) =>
      forall i | 0 <= i < |xs| ensures EqualOrIntrospectiveEqual(eq, xs[i], xs[i]) {
        ReflexiveWhenEqIs(eq, xs[i]);
      }
    case Comparable(k) =>
    case Struct(xs) =>
      forall i | 0 <= i < |xs| ensures EqualOrIntrospectiveEqual(eq, xs[i], xs[i]) {
        ReflexiveWhenEqIs(eq, xs[i]);
      }
  }

  /** A symmetric user `==` makes structural equality symmetric, at every depth. */
  lemma {:induction false} SymmetricWhenEqIs(eq: (int, int) -> bool, v: Value, w: Value)
    requires forall k, l :: eq(k, l) ==> eq(l, k)
    ensures EqualOrIntrospectiveEqual(eq, v, w) ==> EqualOrIntrospectiveEqual(eq, w, v)
    decreases v
  {
    if EqualOrIntrospectiveEqual(eq, v, w) {
      match v
      case Optional(o) =>
        if o.Some? { SymmetricWhenEqIs(eq, o.value, w.content.value); }
      case Tuple(xs) =>
        assert w.Tuple? && AllFieldsEqual(eq, xs, w.elements);
        forall i | 0 <= i < |xs| ensures EqualOrIntrospectiveEqual(eq, w.elements[i], xs[i]) {
          SymmetricWhenEqIs(eq, xs[i], w.elements[i]);
        }
        assert AllFieldsEqual(eq, w.elements, xs);
      case Range(xs) =>
        assert w.Range? && |xs| == |w.items| && RangesEqual(eq, xs, w.items);
        forall i | 0 <= i < |xs| ensures EqualOrIntrospectiveEqual(eq, w.items[i], xs[i]) {
          SymmetricWhenEqIs(eq, xs[i], w.items[i]);
        }
        assert RangesEqual(eq, w.items, xs);
      case Comparable(k) =>
      case Struct(xs) =>
        assert w.Struct? && AllFieldsEqual(eq, xs, w.fields);
        forall i | 0 <= i < |xs| ensures EqualOrIntrospectiveEqual(eq, w.fields[i], xs[i]) {
          SymmetricWhenEqIs(eq, xs[i], w.fields[i]);
        }
        assert AllFieldsEqual(eq, w.fields, xs);
    }
  }
}
