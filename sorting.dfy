/** The multi-key sort of an ordered query (ndb.py, QueryOrderedIterator.next).

    The library re-sorts its whole buffer once per sort order, taking the orders last
    first, with Python's list.sort: a stable sort, and stable also with reverse=True.
    SortBy is that sort (a stable sort's result is determined by the order, so an insertion
    sort is a faithful reference). The theorem of this module is that the passes together
    give a permutation of the buffer ordered lexicographically by the declared orders, the
    first declared one primary. Elements are generic; `keyOf(x, name)` is the field an order reads. */
module StableSort {
  import opened Results
  import opened Values
  import opened Filters

  /** `a` strictly precedes `b` under order `o`. */
  predicate Before<T>(keyOf: (T, string) -> Value, o: BoundOrder, a: T, b: T) {
    if o.reversed then KeyLess(keyOf(b, o.name), keyOf(a, o.name))
    else KeyLess(keyOf(a, o.name), keyOf(b, o.name))
  }

  /** Inserts `x` in front of the first element it does not strictly follow, so in front of its ties. */
  function Insert<T>(keyOf: (T, string) -> Value, o: BoundOrder, x: T, s: seq<T>): seq<T> {
    if s == [] then [x]
    else if Before(keyOf, o, s[0], x) then [s[0]] + Insert(keyOf, o, x, s[1..])
    else [x] + s
  }

  /** list.sort(key=..., reverse=o.reversed). */
  function SortBy<T>(keyOf: (T, string) -> Value, o: BoundOrder, s: seq<T>): seq<T> {
    if s == [] then []
    else Insert(keyOf, o, s[0], SortBy(keyOf, o, s[1..]))
  }

  /** `a` may come before `b` in the lexicographic order of `orders`, the first one primary. */
  predicate LexLe<T>(keyOf: (T, string) -> Value, orders: seq<BoundOrder>, a: T, b: T)
    decreases |orders|
  {
    || orders == []
    || Before(keyOf, orders[0], a, b)
    || (!Before(keyOf, orders[0], b, a) && LexLe(keyOf, orders[1..], a, b))
  }

  predicate LexSorted<T>(keyOf: (T, string) -> Value, orders: seq<BoundOrder>, s: seq<T>) {
    forall i, j :: 0 <= i < j < |s| ==> LexLe(keyOf, orders, s[i], s[j])
  }

  /** The keys of `name` mix datetimes with other values, so list.sort raises TypeError. */
  predicate Mixed<T>(keyOf: (T, string) -> Value, name: string, s: seq<T>) {
    && (exists i :: 0 <= i < |s| && keyOf(s[i], name).VTimestamp?)
    && (exists i :: 0 <= i < |s| && !keyOf(s[i], name).VTimestamp?)
  }

  /** One pass: list.sort on the buffer by one order. */
  function SortPass<T>(keyOf: (T, string) -> Value, o: BoundOrder, s: seq<T>): Result<seq<T>> {
    if Mixed(keyOf, o.name, s) then Err(Incomparable) else Ok(SortBy(keyOf, o, s))
  }

  /** All passes, the last declared order first and the first declared order last. */
  function SortPasses<T>(keyOf: (T, string) -> Value, orders: seq<BoundOrder>, s: seq<T>): Result<seq<T>>
    decreases |orders|
  {
    if orders == [] then Ok(s)
    else match SortPasses(keyOf, orders[1..], s)
      case Err(e) => Err(e)
      case Ok(t) => SortPass(keyOf, orders[0], t)
  }

  lemma BeforeAsymmetric<T>(keyOf: (T, string) -> Value, o: BoundOrder, a: T, b: T)
    ensures Before(keyOf, o, a, b) ==> !Before(keyOf, o, b, a)
  {
    KeyLessAsymmetric(keyOf(a, o.name), keyOf(b, o.name));
    KeyLessAsymmetric(keyOf(b, o.name), keyOf(a, o.name));
  }

  lemma NotBeforeTransitive<T>(keyOf: (T, string) -> Value, o: BoundOrder, a: T, b: T, c: T)
    requires !Before(keyOf, o, b, a) && !Before(keyOf, o, c, b)
    ensures !Before(keyOf, o, c, a)
  {
    var ka, kb, kc := keyOf(a, o.name), keyOf(b, o.name), keyOf(c, o.name);
    if o.reversed {
      KeyLeTransitive(kc, kb, ka);
    } else {
      KeyLeTransitive(ka, kb, kc);
    }
  }

  lemma {:induction false} InsertPermutes<T>(keyOf: (T, string) -> Value, o: BoundOrder, x: T, s: seq<T>)
    ensures multiset(Insert(keyOf, o, x, s)) == multiset(s) + multiset{x}
    ensures |Insert(keyOf, o, x, s)| == |s| + 1
  {
    if s != [] && Before(keyOf, o, s[0], x) {
      InsertPermutes(keyOf, o, x, s[1..]);
      assert s == [s[0]] + s[1..];
    }
  }

  /** Each pass only reorders the buffer. */
  lemma {:induction false} SortByPermutes<T>(keyOf: (T, string) -> Value, o: BoundOrder, s: seq<T>)
    ensures multiset(SortBy(keyOf, o, s)) == multiset(s)
    ensures |SortBy(keyOf, o, s)| == |s|
  {
    if s != [] {
      SortByPermutes(keyOf, o, s[1..]);
      InsertPermutes(keyOf, o, s[0], SortBy(keyOf, o, s[1..]));
      assert s == [s[0]] + s[1..];
    }
  }

  /** Lexicographic order implies order by the primary key. */
  lemma LexLeImpliesNotBefore<T>(keyOf: (T, string) -> Value, orders: seq<BoundOrder>, a: T, b: T)
    requires orders != [] && LexLe(keyOf, orders, a, b)
    ensures !Before(keyOf, orders[0], b, a)
  {
    BeforeAsymmetric(keyOf, orders[0], a, b);
  }

  /** Inserting into a buffer sorted by `o` + `rest` an element that comes first under `rest`
      keeps it sorted by `o` + `rest`. */
  lemma {:induction false} InsertLexSorted<T>(keyOf: (T, string) -> Value, o: BoundOrder,
                                                  rest: seq<BoundOrder>, x: T, s: seq<T>)
    requires LexSorted(keyOf, [o] + rest, s)
    requires forall k :: 0 <= k < |s| ==> LexLe(keyOf, rest, x, s[k])
    ensures LexSorted(keyOf, [o] + rest, Insert(keyOf, o, x, s))
  {
    var orders := [o] + rest;
    assert orders[1..] == rest;
    if s == [] {
    } else if Before(keyOf, o, s[0], x) {
      var tail := s[1..];
      assert LexSorted(keyOf, orders, tail) by {
        forall i, j | 0 <= i < j < |tail| ensures LexLe(keyOf, orders, tail[i], tail[j]) {
          assert tail[i] == s[i + 1] && tail[j] == s[j + 1];
        }
      }
      forall k | 0 <= k < |tail| ensures LexLe(keyOf, rest, x, tail[k]) {
        assert tail[k] == s[k + 1];
      }
      InsertLexSorted(keyOf, o, rest, x, tail);
      var ins := Insert(keyOf, o, x, tail);
      InsertPermutes(keyOf, o, x, tail);
      var r := [s[0]] + ins;
      forall i, j | 0 <= i < j < |r| ensures LexLe(keyOf, orders, r[i], r[j]) {
        if i > 0 {
          assert r[i] == ins[i - 1] && r[j] == ins[j - 1];
        } else {
          assert r[j] in multiset(tail) + multiset{x} by {
            assert r[j] == ins[j - 1];
            assert ins[j - 1] in multiset(ins);
          }
          if r[j] != x {
            assert r[j] in tail;
            var m :| 0 <= m < |tail| && tail[m] == r[j];
            assert LexLe(keyOf, orders, s[0], s[m + 1]);
          }
        }
      }
    } else {
      var r := [x] + s;
      forall i, j | 0 <= i < j < |r| ensures LexLe(keyOf, orders, r[i], r[j]) {
        if i > 0 {
          assert r[i] == s[i - 1] && r[j] == s[j - 1];
        } else {
          var y := s[j - 1];
          if j - 1 > 0 {
            LexLeImpliesNotBefore(keyOf, orders, s[0], y);
            NotBeforeTransitive(keyOf, o, x, s[0], y);
          }
          assert !Before(keyOf, o, y, x);
          assert LexLe(keyOf, rest, x, y);
        }
      }
    }
  }

  /** The heart of the ordered query: a stable sort by `o` of a buffer already sorted by
      `rest` yields a buffer sorted by `o` first and `rest` among ties. */
  lemma {:induction false} SortByExtendsLex<T>(keyOf: (T, string) -> Value, o: BoundOrder,
                                                   rest: seq<BoundOrder>, s: seq<T>)
    requires LexSorted(keyOf, rest, s)
    ensures LexSorted(keyOf, [o] + rest, SortBy(keyOf, o, s))
  {
    if s != [] {
      var tail := s[1..];
      assert LexSorted(keyOf, rest, tail) by {
        forall i, j | 0 <= i < j < |tail| ensures LexLe(keyOf, rest, tail[i], tail[j]) {
          assert tail[i] == s[i + 1] && tail[j] == s[j + 1];
        }
      }
      SortByExtendsLex(keyOf, o, rest, tail);
      var sorted := SortBy(keyOf, o, tail);
      SortByPermutes(keyOf, o, tail);
      forall k | 0 <= k < |sorted| ensures LexLe(keyOf, rest, s[0], sorted[k]) {
        assert sorted[k] in multiset(sorted);
        assert sorted[k] in tail;
        var m :| 0 <= m < |tail| && tail[m] == sorted[k];
        assert s[m + 1] == sorted[k];
      }
      InsertLexSorted(keyOf, o, rest, s[0], sorted);
    }
  }

  /** Reordering a buffer does not change whether its keys mix datetimes with other values. */
  lemma MixedIsPermutationInvariant<T>(keyOf: (T, string) -> Value, name: string, s: seq<T>, t: seq<T>)
    requires multiset(s) == multiset(t)
    ensures Mixed(keyOf, name, s) ==> Mixed(keyOf, name, t)
  {
    if Mixed(keyOf, name, s) {
      var i :| 0 <= i < |s| && keyOf(s[i], name).VTimestamp?;
      var k :| 0 <= k < |s| && !keyOf(s[k], name).VTimestamp?;
      assert s[i] in multiset(s) && s[k] in multiset(s);
      assert s[i] in t && s[k] in t;
      var j :| 0 <= j < |t| && t[j] == s[i];
      var l :| 0 <= l < |t| && t[l] == s[k];
    }
  }

  /** The ordered query's sort passes, last order first, produce a permutation of the buffer
      that is ordered lexicographically by the declared orders, the first declared primary. */
  lemma {:induction false} SortPassesCorrect<T>(keyOf: (T, string) -> Value, orders: seq<BoundOrder>, s: seq<T>)
    requires SortPasses(keyOf, orders, s).Ok?
    ensures multiset(SortPasses(keyOf, orders, s).value) == multiset(s)
    ensures LexSorted(keyOf, orders, SortPasses(keyOf, orders, s).value)
    decreases |orders|
  {
    if orders != [] {
      SortPassesCorrect(keyOf, orders[1..], s);
      var t := SortPasses(keyOf, orders[1..], s).value;
      SortByPermutes(keyOf, orders[0], t);
      SortByExtendsLex(keyOf, orders[0], orders[1..], t);
      assert [orders[0]] + orders[1..] == orders;
    }
  }

  /** The passes raise exactly when some declared order's keys mix datetimes with other values. */
  lemma {:induction false} SortPassesFails<T>(keyOf: (T, string) -> Value, orders: seq<BoundOrder>, s: seq<T>)
    ensures SortPasses(keyOf, orders, s).Err?
            <==> exists k :: 0 <= k < |orders| && Mixed(keyOf, orders[k].name, s)
    ensures SortPasses(keyOf, orders, s).Err? ==> SortPasses(keyOf, orders, s).error == Incomparable
    decreases |orders|
  {
    if orders != [] {
      SortPassesFails(keyOf, orders[1..], s);
      var r := SortPasses(keyOf, orders[1..], s);
      if r.Ok? {
        SortPassesCorrect(keyOf, orders[1..], s);
        MixedIsPermutationInvariant(keyOf, orders[0].name, s, r.value);
        MixedIsPermutationInvariant(keyOf, orders[0].name, r.value, s);
      }
      assert forall k :: 1 <= k < |orders| ==> orders[k] == orders[1..][k - 1];
      assert (exists k :: 0 <= k < |orders| && Mixed(keyOf, orders[k].name, s))
             <==> Mixed(keyOf, orders[0].name, s)
                  || exists k :: 0 <= k < |orders[1..]| && Mixed(keyOf, orders[1..][k].name, s);
    }
  }
}
