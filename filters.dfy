/** Query filters and sort orders (ndb.py, classes Filter and SortOrder, and the comparison
    operators of Property that build them). */
module Filters {
  import opened Results
  import opened Values
  import opened Properties

  /** A filter's right-hand side: one value, or the list that `IN` builds. */
  datatype Operand = Single(v: Value) | Many(vs: seq<Value>)

  /** A filter as a property's comparison operator builds it. The operator is a string, as in
      the library, so that a filter built by hand may carry one it does not know. */
  datatype Filter = Filter(prop: PropRef, op: string, operand: Operand)

  /** A sort order: descending when `reversed`. */
  datatype SortOrder = SortOrder(prop: PropRef, reversed: bool)

  /** A filter once a query has bound it to the name of one of its model's properties. */
  datatype BoundFilter = BoundFilter(name: string, op: string, operand: Operand)

  /** A sort order once a query has bound it to a property name. */
  datatype BoundOrder = BoundOrder(name: string, reversed: bool)

  const Comparisons: set<string> := {"=", "!=", "<", "<=", ">", ">="}

  /** Property.__eq__, __ne__, __lt__, __le__, __gt__ and __ge__: a value other than None is
      validated before it is embedded in the filter; None is embedded as it is. */
  function Comparison(p: Property, op: string, value: Value): (r: Result<Filter>)
    requires op in Comparisons
    ensures value.VNone? ==> r == Ok(Filter(p.ref, op, Single(VNone)))
    ensures !value.VNone? ==> (r.Ok? <==> Admissible(p, value))
    ensures r.Ok? ==> r.value == Filter(p.ref, op, Single(value))
    ensures r.Err? ==> Validate(p, value) == Err(r.error)
  {
    if value != VNone then
      match Validate(p, value)
      case Ok(v) => Ok(Filter(p.ref, op, Single(v)))
      case Err(e) => Err(e)
    else
      Ok(Filter(p.ref, op, Single(value)))
  }

  /** Every value of the list other than None is acceptable for the property. */
  predicate AllAdmissible(p: Property, vs: seq<Value>) {
    forall i :: 0 <= i < |vs| && !vs[i].VNone? ==> Admissible(p, vs[i])
  }

  /** Property.IN: validates each value other than None, in order, and builds an `in` filter. */
  method In(p: Property, values: seq<Value>) returns (r: Result<Filter>)
    ensures r.Ok? <==> AllAdmissible(p, values)
    ensures r.Ok? ==> r.value == Filter(p.ref, "in", Many(values))
    ensures r.Err? ==> exists i :: 0 <= i < |values| && AllAdmissible(p, values[..i])
                        && !values[i].VNone? && Validate(p, values[i]) == Err(r.error)
  {
    var validated: seq<Value> := [];
    for i := 0 to |values|
      invariant validated == values[..i]
      invariant AllAdmissible(p, values[..i])
    {
      var v := values[i];
      if v != VNone {
        match Validate(p, v)
        case Err(e) =>
          assert AllAdmissible(p, values[..i]);
          return Err(e);
        case Ok(w) =>
          v := w;
      }
      validated := validated + [v];
      assert values[..i + 1] == values[..i] + [values[i]];
    }
    assert values[..|values|] == values;
    r := Ok(Filter(p.ref, "in", Many(validated)));
  }

  /** Property.__neg__: descending order by the property. */
  function Descending(p: Property): (r: SortOrder)
    ensures r.prop == p.ref && r.reversed
  {
    SortOrder(p.ref, true)
  }

  /** Property.__pos__: ascending order by the property. */
  function Ascending(p: Property): (r: SortOrder)
    ensures r.prop == p.ref && !r.reversed
  {
    SortOrder(p.ref, false)
  }

  /** The raw value an entity holds for a field, None when the field is unset. */
  function FieldOrNone(fields: map<string, Value>, name: string): Value {
    if name in fields then fields[name] else VNone
  }

  /** Filter._apply on an entity's fields. `!=` is evaluated as `v < value or v > value`. */
  function Apply(f: BoundFilter, fields: map<string, Value>): (r: Result<bool>)
    ensures f.op !in Comparisons && f.op != "in" ==> r == Err(UnknownOperator)
    ensures r.Err? ==> r.error in {UnknownOperator, Incomparable, OperandMismatch}
  {
    var v := FieldOrNone(fields, f.name);
    if f.op == "=" then
      match f.operand
      case Single(w) => Ok(PyEq(v, w))
      case Many(_) => Ok(false) // a value never equals a list
    else if f.op in Comparisons then
      match f.operand
      case Many(_) => Err(OperandMismatch)
      case Single(w) =>
        if f.op == "!=" then
          match Lt(v, w)
          case Ok(false) => Lt(w, v)
          case other => other
        else if f.op == "<" then Lt(v, w)
        else if f.op == "<=" then Le(v, w)
        else if f.op == ">" then Lt(w, v)
        else Le(w, v)
    else if f.op == "in" then
      match f.operand
      case Many(ws) => Ok(PyIn(v, ws))
      case Single(_) => Err(OperandMismatch)
    else
      Err(UnknownOperator)
  }

  /** `!=` agrees with not-equal wherever Python can order the two values, and raises where it
      cannot (a datetime against anything else), although plain `!=` would then answer true. */
  lemma NotEqualSemantics(name: string, w: Value, fields: map<string, Value>)
    ensures var v := FieldOrNone(fields, name);
      Apply(BoundFilter(name, "!=", Single(w)), fields)
        == if Comparable(v, w) then Ok(!PyEq(v, w)) else Err(Incomparable)
  {
    KeyTiesArePyEq(FieldOrNone(fields, name), w);
  }

  /** `=` is Python equality on the raw field, an unset field reading as None, and never raises. */
  lemma EqualSemantics(name: string, w: Value, fields: map<string, Value>)
    ensures Apply(BoundFilter(name, "=", Single(w)), fields) == Ok(PyEq(FieldOrNone(fields, name), w))
  {
  }

  /** `<`, `<=`, `>` and `>=` are the native orderings, raising only on a datetime against anything else. */
  lemma OrderingSemantics(name: string, op: string, w: Value, fields: map<string, Value>)
    requires op in {"<", "<=", ">", ">="}
    ensures var v := FieldOrNone(fields, name);
      var r := Apply(BoundFilter(name, op, Single(w)), fields);
      && (r.Err? <==> !Comparable(v, w))
      && (r.Ok? ==> r.value == match op
                               case "<" => KeyLess(v, w)
                               case "<=" => !KeyLess(w, v)
                               case ">" => KeyLess(w, v)
                               case _ => !KeyLess(v, w))
  {
  }

  /** `in` is membership by Python equality in the list. */
  lemma InSemantics(name: string, ws: seq<Value>, fields: map<string, Value>)
    ensures Apply(BoundFilter(name, "in", Many(ws)), fields)
            == Ok(exists i :: 0 <= i < |ws| && PyEq(FieldOrNone(fields, name), ws[i]))
  {
  }

  /** Query._apply_filters as a reference: the filters are tried in order, the first one that
      rejects decides, and the first one that raises raises. */
  function PassesAll(filters: seq<BoundFilter>, fields: map<string, Value>): Result<bool> {
    if filters == [] then Ok(true)
    else match Apply(filters[0], fields)
      case Err(e) => Err(e)
      case Ok(false) => Ok(false)
      case Ok(true) => PassesAll(filters[1..], fields)
  }

  /** Filters are conjunctive: an entity passes exactly when every filter accepts it. */
  lemma {:induction false} PassesAllIsConjunction(filters: seq<BoundFilter>, fields: map<string, Value>)
    ensures PassesAll(filters, fields) == Ok(true)
            <==> forall i :: 0 <= i < |filters| ==> Apply(filters[i], fields) == Ok(true)
  {
    if filters != [] {
      PassesAllIsConjunction(filters[1..], fields);
      assert forall i :: 1 <= i < |filters| ==> filters[i] == filters[1..][i - 1];
    }
  }

  /** Adding filters intersects: passing the concatenation is passing both lists. */
  lemma PassesAllAppend(a: seq<BoundFilter>, b: seq<BoundFilter>, fields: map<string, Value>)
    ensures PassesAll(a + b, fields) == Ok(true)
            <==> PassesAll(a, fields) == Ok(true) && PassesAll(b, fields) == Ok(true)
  {
    PassesAllIsConjunction(a + b, fields);
    PassesAllIsConjunction(a, fields);
    PassesAllIsConjunction(b, fields);
    assert forall i :: 0 <= i < |a| ==> (a + b)[i] == a[i];
    assert forall i :: 0 <= i < |b| ==> (a + b)[|a| + i] == b[i];
  }
}
