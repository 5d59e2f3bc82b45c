/** The values a property can hold, and the Python 2 comparisons the library applies to them.

    A field holds a string, an integer, a boolean, a float, a timestamp, or None.
    Python 2 compares numbers with each other by numeric value (True == 1 == 1.0),
    orders None below every number and every number below every string, and raises
    TypeError when a datetime is ordered against anything that is not a datetime
    (equality never raises: a datetime simply differs from a non-datetime). */
module Values {
  import opened Results

  datatype Value =
    | VNone
    | VString(s: string)
    | VInt(i: int)
    | VBool(b: bool)
    | VFloat(f: real)
    | VTimestamp(t: int)

  predicate IsNumber(v: Value) {
    v.VInt? || v.VBool? || v.VFloat?
  }

  /** The numeric value Python uses when comparing int, long, bool and float. */
  function Num(v: Value): real
    requires IsNumber(v)
  {
    match v
    case VInt(i) => i as real
    case VBool(b) => if b then 1.0 else 0.0
    case VFloat(f) => f
  }

  /** Python 2's cross-type order: None, then numbers, then strings.
      Timestamps get the last rank; they are never ordered against the others (see Comparable). */
  function Rank(v: Value): nat {
    match v
    case VNone => 0
    case VInt(_) => 1
    case VBool(_) => 1
    case VFloat(_) => 1
    case VString(_) => 2
    case VTimestamp(_) => 3
  }

  /** Lexicographic order on strings by character code. */
  predicate StrLess(a: string, b: string)
    decreases |a|
  {
    if |a| == 0 then |b| > 0
    else |b| > 0 && (a[0] < b[0] || (a[0] == b[0] && StrLess(a[1..], b[1..])))
  }

  /** The `<` that Python applies to two values it can order. */
  predicate KeyLess(a: Value, b: Value) {
    if Rank(a) != Rank(b) then Rank(a) < Rank(b)
    else match a
      case VNone => false
      case VString(s) => StrLess(s, b.s)
      case VTimestamp(t) => t < b.t
      case _ => Num(a) < Num(b)
  }

  /** Python's `==` on two values. */
  predicate PyEq(a: Value, b: Value) {
    if IsNumber(a) && IsNumber(b) then Num(a) == Num(b)
    else if IsNumber(a) || IsNumber(b) then false
    else a == b
  }

  /** Python's `v in vs` on a list. */
  predicate PyIn(v: Value, vs: seq<Value>) {
    exists i :: 0 <= i < |vs| && PyEq(v, vs[i])
  }

  /** Python orders two values without raising unless exactly one is a datetime. */
  predicate Comparable(a: Value, b: Value) {
    a.VTimestamp? == b.VTimestamp?
  }

  /** `a < b`; `a > b` is `Lt(b, a)`. */
  function Lt(a: Value, b: Value): (r: Result<bool>)
    ensures r.Err? <==> !Comparable(a, b)
    ensures r.Err? ==> r.error == Incomparable
  {
    if Comparable(a, b) then Ok(KeyLess(a, b)) else Err(Incomparable)
  }

  /** `a <= b`; `a >= b` is `Le(b, a)`. */
  function Le(a: Value, b: Value): (r: Result<bool>)
    ensures r.Err? <==> !Comparable(a, b)
    ensures r.Err? ==> r.error == Incomparable
  {
    if Comparable(a, b) then Ok(!KeyLess(b, a)) else Err(Incomparable)
  }

  lemma {:induction false} StrLessIrreflexive(a: string)
    ensures !StrLess(a, a)
    decreases |a|
  {
    if |a| > 0 {
      StrLessIrreflexive(a[1..]);
    }
  }

  lemma {:induction false} StrLessTransitive(a: string, b: string, c: string)
    requires StrLess(a, b) && StrLess(b, c)
    ensures StrLess(a, c)
    decreases |a|
  {
    if |a| > 0 && a[0] == b[0] && b[0] == c[0] {
      StrLessTransitive(a[1..], b[1..], c[1..]);
    }
  }

  /** Two different strings are always ordered one way or the other. */
  lemma {:induction false} StrLessTotal(a: string, b: string)
    requires a != b
    ensures StrLess(a, b) || StrLess(b, a)
    decreases |a|
  {
    if |a| > 0 && |b| > 0 && a[0] == b[0] {
      assert a == [a[0]] + a[1..] && b == [b[0]] + b[1..];
      StrLessTotal(a[1..], b[1..]);
    }
  }

  lemma {:induction false} StrLessAsymmetric(a: string, b: string)
    requires StrLess(a, b)
    ensures !StrLess(b, a)
  {
    if StrLess(b, a) {
      StrLessTransitive(a, b, a);
      StrLessIrreflexive(a);
    }
  }

  lemma KeyLessTransitive(a: Value, b: Value, c: Value)
    requires KeyLess(a, b) && KeyLess(b, c)
    ensures KeyLess(a, c)
  {
    if a.VString? && b.VString? && c.VString? {
      StrLessTransitive(a.s, b.s, c.s);
    }
  }

  lemma KeyLessAsymmetric(a: Value, b: Value)
    ensures KeyLess(a, b) ==> !KeyLess(b, a)
  {
    if KeyLess(a, b) && a.VString? && b.VString? {
      StrLessAsymmetric(a.s, b.s);
    }
  }

  /** Two values neither of which is below the other are equal in Python's sense. */
  lemma KeyTiesArePyEq(a: Value, b: Value)
    ensures !KeyLess(a, b) && !KeyLess(b, a) <==> PyEq(a, b)
  {
    if a.VString? && b.VString? {
      if a.s != b.s {
        StrLessTotal(a.s, b.s);
      } else {
        StrLessIrreflexive(a.s);
      }
    }
  }

  lemma PyEqTransitive(a: Value, b: Value, c: Value)
    requires PyEq(a, b) && PyEq(b, c)
    ensures PyEq(a, c)
  {
  }

  /** "Not below" is transitive: KeyLess is a strict weak order, so a stable sort by it is well defined. */
  lemma KeyLeTransitive(a: Value, b: Value, c: Value)
    requires !KeyLess(b, a) && !KeyLess(c, b)
    ensures !KeyLess(c, a)
  {
    KeyTiesArePyEq(a, b);
    KeyTiesArePyEq(b, c);
    KeyTiesArePyEq(a, c);
    if KeyLess(a, b) {
      if a.VString? && b.VString? && c.VString? {
        StrLessAsymmetricImp(c.s, a.s, b.s);
      }
    } else if KeyLess(b, c) {
      if a.VString? && b.VString? && c.VString? {
        StrLessAsymmetricImp(b.s, c.s, a.s);
      }
    } else {
      PyEqTransitive(a, b, c);
    }
  }

  /** If x < y < z then z is not below x (stated without a requires, for case splits). */
  lemma StrLessAsymmetricImp(x: string, y: string, z: string)
    ensures StrLess(x, y) && StrLess(y, z) ==> !StrLess(z, x)
  {
    if StrLess(x, y) && StrLess(y, z) {
      StrLessTransitive(x, y, z);
      StrLessAsymmetric(x, z);
    }
  }
}
