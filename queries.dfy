/** Queries over the instances of one model (ndb.py, classes Query, QueryIterator and
    QueryOrderedIterator, and Model.query).

    A query binds each filter and sort order to the attribute name of the declared property
    it was built from. Iteration walks the kind's keys in the store's order, reads each
    instance back with get_by_id and yields those that pass every filter. An ordered query
    first buffers every such instance, then sorts the buffer once per sort order, the last
    declared order first. */
module Queries {
  import opened Results
  import opened Values
  import opened Properties
  import opened Filters
  import opened StableSort
  import opened MemStore
  import opened Models

  /** The model declares this very property. */
  predicate DeclaresRef(mc: ModelClass, prop: PropRef) {
    exists i :: 0 <= i < |mc.props| && mc.props[i].ref == prop
  }

  /** The scan of the class dictionary in Query.filter and Query.order: the attribute name
      under which the model holds the property, found by identity. */
  method FindName(mc: ModelClass, prop: PropRef) returns (name: Option<string>)
    ensures name.Some? <==> DeclaresRef(mc, prop)
    ensures name.Some? ==> name.value == prop.name
  {
    name := None;
    for i := 0 to |mc.props|
      invariant name.Some? <==> exists j :: 0 <= j < i && mc.props[j].ref == prop
      invariant name.Some? ==> name.value == prop.name
    {
      if mc.props[i].ref == prop {
        name := Some(mc.props[i].ref.name);
      }
    }
  }

  /** An argument of Query.order: a property (ascending) or a sort order built with - or +. */
  datatype OrderArg = ByProperty(prop: PropRef) | ByOrder(order: SortOrder)

  function AsSortOrder(a: OrderArg): SortOrder {
    match a
    case ByProperty(p) => SortOrder(p, false)
    case ByOrder(o) => o
  }

  function BindFilter(f: Filter): BoundFilter {
    BoundFilter(f.prop.name, f.op, f.operand)
  }

  function BindOrder(a: OrderArg): BoundOrder {
    BoundOrder(AsSortOrder(a).prop.name, AsSortOrder(a).reversed)
  }

  function BindOrders(args: seq<OrderArg>): seq<BoundOrder> {
    seq(|args|, i requires 0 <= i < |args| => BindOrder(args[i]))
  }

  function BindFilters(fs: seq<Filter>): seq<BoundFilter> {
    seq(|fs|, i requires 0 <= i < |fs| => BindFilter(fs[i]))
  }

  /** The position of the first argument whose property the model does not declare, |args| when there is none. */
  function FirstUndeclared(mc: ModelClass, args: seq<OrderArg>): (k: nat)
    ensures k <= |args|
    ensures forall j :: 0 <= j < k ==> DeclaresRef(mc, AsSortOrder(args[j]).prop)
    ensures k < |args| ==> !DeclaresRef(mc, AsSortOrder(args[k]).prop)
    decreases |args|
  {
    if args == [] || !DeclaresRef(mc, AsSortOrder(args[0]).prop) then 0
    else 1 + FirstUndeclared(mc, args[1..])
  }

  /** Property.__neg__ and __pos__ as Query.order binds them: a descending order places
      instances exactly as the ascending order on the same property places them reversed. */
  lemma DescendingReversesAscending<T>(keyOf: (T, string) -> Value, p: Property, a: T, b: T)
    ensures BindOrder(ByOrder(Descending(p))).name == BindOrder(ByOrder(Ascending(p))).name == p.ref.name
    ensures BindOrder(ByOrder(Ascending(p))) == BindOrder(ByProperty(p.ref))
    ensures Before(keyOf, BindOrder(ByOrder(Descending(p))), a, b)
            <==> Before(keyOf, BindOrder(ByOrder(Ascending(p))), b, a)
  {
  }

  /** One instance read back by a query: its key and its fields. */
  datatype Row = Row(key: string, fields: Fields)

  function KeysOf(rows: seq<Row>): seq<string> {
    seq(|rows|, i requires 0 <= i < |rows| => rows[i].key)
  }

  /** `xs` is `ys` with some elements left out, the others kept in order. */
  predicate IsSubsequence(xs: seq<string>, ys: seq<string>)
    decreases |ys|
  {
    || xs == []
    || (ys != [] && ((xs[0] == ys[0] && IsSubsequence(xs[1..], ys[1..])) || IsSubsequence(xs, ys[1..])))
  }

  /** The instances among `keys` that a query yields, in the order of `keys`; the first
      instance that cannot be read back or that a filter raises on decides the error. */
  function Matching(mc: ModelClass, data: map<string, map<string, Record>>, filters: seq<BoundFilter>,
                    keys: seq<string>): Result<seq<Row>>
    decreases |keys|
  {
    if keys == [] then Ok([])
    else match Fetch(mc, data, keys[0])
      case Err(e) => Err(e)
      case Ok(f) =>
        match PassesAll(filters, f)
        case Err(e) => Err(e)
        case Ok(false) => Matching(mc, data, filters, keys[1..])
        case Ok(true) => Prepend([Row(keys[0], f)], Matching(mc, data, filters, keys[1..]))
  }

  function Prepend(rows: seq<Row>, r: Result<seq<Row>>): Result<seq<Row>> {
    match r
    case Ok(rest) => Ok(rows + rest)
    case Err(e) => Err(e)
  }

  lemma PrependNothing(r: Result<seq<Row>>)
    ensures Prepend([], r) == r
  {
    if r.Ok? {
      assert [] + r.value == r.value;
    }
  }

  lemma PrependTwice(a: seq<Row>, b: seq<Row>, r: Result<seq<Row>>)
    ensures Prepend(a, Prepend(b, r)) == Prepend(a + b, r)
  {
    if r.Ok? {
      assert a + (b + r.value) == (a + b) + r.value;
    }
  }

  /** What one call of QueryIterator.next finds from position `pos` of the key snapshot:
      a row and the position after it, the end of the keys, or an error and the position after
      the key that raised it. */
  datatype Hit = Found(row: Row, next: nat) | Done | Fault(error: Error, next: nat)

  function Scan(mc: ModelClass, data: map<string, map<string, Record>>, filters: seq<BoundFilter>,
                keys: seq<string>, pos: nat): (h: Hit)
    ensures h.Found? || h.Fault? ==> pos < h.next <= |keys|
    decreases |keys| - pos
  {
    if pos >= |keys| then Done
    else match Fetch(mc, data, keys[pos])
      case Err(e) => Fault(e, pos + 1)
      case Ok(f) =>
        match PassesAll(filters, f)
        case Err(e) => Fault(e, pos + 1)
        case Ok(true) => Found(Row(keys[pos], f), pos + 1)
        case Ok(false) => Scan(mc, data, filters, keys, pos + 1)
  }

  /** The instance under `key` cannot be read back, or a filter raises on it. */
  predicate Fails(mc: ModelClass, data: map<string, map<string, Record>>, filters: seq<BoundFilter>, key: string) {
    Fetch(mc, data, key).Err? || PassesAll(filters, Fetch(mc, data, key).value).Err?
  }

  /** The position just after the first key from `pos` on that fails, |keys| when none does. */
  function FaultAt(mc: ModelClass, data: map<string, map<string, Record>>, filters: seq<BoundFilter>,
                   keys: seq<string>, pos: nat): (n: nat)
    ensures pos < |keys| ==> pos < n <= |keys|
    decreases |keys| - pos
  {
    if pos >= |keys| then |keys|
    else if Fails(mc, data, filters, keys[pos]) then pos + 1
    else FaultAt(mc, data, filters, keys, pos + 1)
  }

  /** When Matching fails, FaultAt is just after the first key that fails: every key before it
      reads back and passes or is rejected without raising. */
  lemma {:induction false} FaultAtFirstFailure(mc: ModelClass, data: map<string, map<string, Record>>,
                                               filters: seq<BoundFilter>, keys: seq<string>, pos: nat)
    requires pos <= |keys|
    requires Matching(mc, data, filters, keys[pos..]).Err?
    ensures pos < FaultAt(mc, data, filters, keys, pos) <= |keys|
    ensures Fails(mc, data, filters, keys[FaultAt(mc, data, filters, keys, pos) - 1])
    ensures forall i :: pos <= i < FaultAt(mc, data, filters, keys, pos) - 1 ==> !Fails(mc, data, filters, keys[i])
    decreases |keys| - pos
  {
    assert keys[pos..] != [];
    assert keys[pos..][0] == keys[pos] && keys[pos..][1..] == keys[pos + 1..];
    if !Fails(mc, data, filters, keys[pos]) {
      FaultAtFirstFailure(mc, data, filters, keys, pos + 1);
    }
  }

  /** One call of next keeps FaultAt when it yields, and stops at it when it raises. */
  lemma {:induction false} ScanKeepsFaultAt(mc: ModelClass, data: map<string, map<string, Record>>,
                                            filters: seq<BoundFilter>, keys: seq<string>, pos: nat)
    ensures var h := Scan(mc, data, filters, keys, pos);
      && (h.Found? ==> FaultAt(mc, data, filters, keys, pos) == FaultAt(mc, data, filters, keys, h.next))
      && (h.Fault? ==> FaultAt(mc, data, filters, keys, pos) == h.next)
    decreases |keys| - pos
  {
    if pos < |keys| {
      ScanKeepsFaultAt(mc, data, filters, keys, pos + 1);
    }
  }

  /** Successive calls of next yield the rows of Matching one by one: each call finds the
      first remaining row, and an error or the end exactly when Matching reports it. */
  lemma {:induction false} ScanFollowsMatching(mc: ModelClass, data: map<string, map<string, Record>>,
                                               filters: seq<BoundFilter>, keys: seq<string>, pos: nat)
    requires pos <= |keys|
    ensures var h := Scan(mc, data, filters, keys, pos);
      && (h.Done? ==> Matching(mc, data, filters, keys[pos..]) == Ok([]))
      && (h.Found? ==> Matching(mc, data, filters, keys[pos..])
                        == Prepend([h.row], Matching(mc, data, filters, keys[h.next..])))
      && (h.Fault? ==> Matching(mc, data, filters, keys[pos..]) == Err(h.error))
    decreases |keys| - pos
  {
    if pos < |keys| {
      assert keys[pos..][1..] == keys[pos + 1..];
      assert keys[pos..][0] == keys[pos];
      ScanFollowsMatching(mc, data, filters, keys, pos + 1);
    }
  }

  /** Matching yields exactly the instances of `keys` that read back and pass every filter,
      in the order of `keys`, and fails exactly when some instance cannot be read back or
      some filter raises on it. */
  lemma {:induction false} MatchingCharacterized(mc: ModelClass, data: map<string, map<string, Record>>,
                                                 filters: seq<BoundFilter>, keys: seq<string>)
    ensures var r := Matching(mc, data, filters, keys);
      && (r.Ok? <==> forall i :: 0 <= i < |keys| ==>
                       Fetch(mc, data, keys[i]).Ok? && PassesAll(filters, Fetch(mc, data, keys[i]).value).Ok?)
      && (r.Ok? ==> forall row :: row in r.value <==>
                      row.key in keys && Fetch(mc, data, row.key) == Ok(row.fields)
                      && PassesAll(filters, row.fields) == Ok(true))
      && (r.Ok? ==> IsSubsequence(KeysOf(r.value), keys))
    decreases |keys|
  {
    if keys != [] {
      var tail := keys[1..];
      MatchingCharacterized(mc, data, filters, tail);
      assert forall i :: 1 <= i < |keys| ==> keys[i] == tail[i - 1];
      assert forall k :: k in keys <==> k == keys[0] || k in tail;
      var r := Matching(mc, data, filters, keys);
      if r.Ok? {
        var f := Fetch(mc, data, keys[0]).value;
        var rest := Matching(mc, data, filters, tail).value;
        if PassesAll(filters, f) == Ok(true) {
          assert r.value == [Row(keys[0], f)] + rest;
          assert KeysOf(r.value)[1..] == KeysOf(rest);
        } else {
          assert r.value == rest;
        }
      }
    }
  }

  /** Without filters a query yields every instance of the kind, in key order. */
  lemma {:induction false} NoFiltersYieldsAll(mc: ModelClass, data: map<string, map<string, Record>>, keys: seq<string>)
    requires Matching(mc, data, [], keys).Ok?
    ensures KeysOf(Matching(mc, data, [], keys).value) == keys
    decreases |keys|
  {
    if keys != [] {
      NoFiltersYieldsAll(mc, data, keys[1..]);
      var rest := Matching(mc, data, [], keys[1..]).value;
      assert KeysOf([Row(keys[0], Fetch(mc, data, keys[0]).value)] + rest) == [keys[0]] + KeysOf(rest);
    }
  }

  /** What a query iterator's next returns. */
  datatype Step = Yield(entity: Entity) | Exhausted | Failed(error: Error)

  /** Query (ndb.py). */
  class Query {
    const model: ModelClass
    var filters: seq<BoundFilter>
    var sortOrders: seq<BoundOrder>

    constructor (model: ModelClass)
      ensures this.model == model && filters == [] && sortOrders == []
    {
      this.model := model;
      filters := [];
      sortOrders := [];
    }

    /** Query.filter: binds the filter to the property's name and appends it; a filter on a
        property the model does not declare raises ValueError and leaves the query as it was. */
    method AddFilter(f: Filter) returns (r: Result<Query>)
      modifies this
      ensures sortOrders == old(sortOrders)
      ensures DeclaresRef(model, f.prop) ==> r == Ok(this) && filters == old(filters) + [BindFilter(f)]
      ensures !DeclaresRef(model, f.prop) ==> r == Err(UnknownProperty) && filters == old(filters)
    {
      var name := FindName(model, f.prop);
      if name.None? {
        return Err(UnknownProperty);
      }
      filters := filters + [BoundFilter(name.value, f.op, f.operand)];
      r := Ok(this);
    }

    /** Query.order: appends the arguments' sort orders one by one. On the first argument
        naming an undeclared property it raises ValueError; the orders appended before it stay. */
    method Order(args: seq<OrderArg>) returns (r: Result<Query>)
      modifies this
      ensures filters == old(filters)
      ensures var k := FirstUndeclared(model, args);
        && sortOrders == old(sortOrders) + BindOrders(args[..k])
        && r == (if k == |args| then Ok(this) else Err(UnknownProperty))
    {
      for i := 0 to |args|
        invariant filters == old(filters)
        invariant sortOrders == old(sortOrders) + BindOrders(args[..i])
        invariant forall j :: 0 <= j < i ==> DeclaresRef(model, AsSortOrder(args[j]).prop)
      {
        var so := AsSortOrder(args[i]);
        var name := FindName(model, so.prop);
        if name.None? {
          return Err(UnknownProperty);
        }
        assert BindOrders(args[..i + 1]) == BindOrders(args[..i]) + [BindOrder(args[i])];
        sortOrders := sortOrders + [BoundOrder(name.value, so.reversed)];
      }
      assert args[..|args|] == args;
      r := Ok(this);
    }

    /** Query._apply_filters. */
    method ApplyFilters(obj: Entity) returns (r: Result<bool>)
      ensures r == PassesAll(filters, obj.fields)
    {
      for i := 0 to |filters|
        invariant PassesAll(filters, obj.fields) == PassesAll(filters[i..], obj.fields)
      {
        assert filters[i..][1..] == filters[i + 1..];
        var res := Apply(filters[i], obj.fields);
        match res
        case Err(e) =>
          return Err(e);
        case Ok(accepted) =>
          if !accepted {
            return Ok(false);
          }
      }
      r := Ok(true);
    }

    /** Query.iter: the plain iterator when no sort order is set, the ordered one otherwise. */
    method Iter(store: MemDatastore<Record>) returns (it: QueryIter)
      modifies store
      ensures store.data == if model.kind in old(store.data) then old(store.data) else old(store.data)[model.kind := map[]]
      ensures sortOrders == [] ==> it.Plain? && fresh(it.plain) && it.plain.query == this && it.plain.store == store
                                   && it.plain.Valid() && it.plain.dsIter.pos == 0
                                   && Distinct(it.plain.dsIter.keys)
                                   && (forall k :: k in it.plain.dsIter.keys <==> k in store.data[model.kind])
      ensures sortOrders != [] ==> it.Ordered? && fresh(it.ordered) && it.ordered.query == this
                                   && it.ordered.inner.store == store && it.ordered.Valid() && !it.ordered.started
                                   && it.ordered.inner.dsIter.pos == 0
                                   && Distinct(it.ordered.inner.dsIter.keys)
                                   && (forall k :: k in it.ordered.inner.dsIter.keys <==> k in store.data[model.kind])
    {
      if sortOrders == [] {
        var p := new QueryIterator(this, store);
        it := Plain(p);
      } else {
        var o := new QueryOrderedIterator(this, store);
        it := Ordered(o);
      }
    }
  }

  /** Model.query: a new query on the model with the given filters added in order. */
  method NewQuery(mc: ModelClass, fs: seq<Filter>) returns (r: Result<Query>)
    ensures (forall i :: 0 <= i < |fs| ==> DeclaresRef(mc, fs[i].prop)) ==>
              r.Ok? && fresh(r.value) && r.value.model == mc
              && r.value.filters == BindFilters(fs) && r.value.sortOrders == []
    ensures !(forall i :: 0 <= i < |fs| ==> DeclaresRef(mc, fs[i].prop)) ==> r == Err(UnknownProperty)
  {
    var q := new Query(mc);
    for i := 0 to |fs|
      invariant fresh(q) && q.model == mc
      invariant q.filters == BindFilters(fs[..i]) && q.sortOrders == []
      invariant forall j :: 0 <= j < i ==> DeclaresRef(mc, fs[j].prop)
    {
      var res := q.AddFilter(fs[i]);
      if res.Err? {
        return Err(UnknownProperty);
      }
      assert BindFilters(fs[..i + 1]) == BindFilters(fs[..i]) + [BindFilter(fs[i])];
    }
    assert fs[..|fs|] == fs;
    r := Ok(q);
  }

  datatype QueryIter = Plain(plain: QueryIterator) | Ordered(ordered: QueryOrderedIterator)

  /** QueryIterator: walks a snapshot of the kind's keys. */
  class QueryIterator {
    const query: Query
    const store: MemDatastore<Record>
    const dsIter: MemDatastoreIterator<Record>

    predicate Valid()
      reads this, dsIter
    {
      dsIter.pos <= |dsIter.keys|
    }

    /** Opens the store's iterator over the model's kind, which creates the kind when it is absent. */
    constructor (query: Query, store: MemDatastore<Record>)
      modifies store
      ensures this.query == query && this.store == store
      ensures store.data == if query.model.kind in old(store.data) then old(store.data)
                            else old(store.data)[query.model.kind := map[]]
      ensures fresh(dsIter) && dsIter.pos == 0 && Distinct(dsIter.keys)
      ensures forall k :: k in dsIter.keys <==> k in store.data[query.model.kind]
      ensures Valid()
    {
      this.query := query;
      this.store := store;
      var it := store.Iter(query.model.kind);
      dsIter := it;
    }

    /** QueryIterator.next: the next instance, in key order, that reads back and passes
        every filter; Exhausted (StopIteration) at the end of the keys; an error raised by
        get_by_id or by a filter ends the call. */
    method Next() returns (r: Step)
      requires Valid()
      modifies dsIter
      ensures Valid()
      ensures var h := Scan(query.model, store.data, query.filters, dsIter.keys, old(dsIter.pos));
        && (h.Done? ==> r == Exhausted && dsIter.pos == |dsIter.keys|)
        && (h.Found? ==> r.Yield? && fresh(r.entity) && r.entity.cls == query.model
                         && r.entity.key == h.row.key && r.entity.fields == h.row.fields
                         && dsIter.pos == h.next)
        && (h.Fault? ==> r == Failed(h.error) && dsIter.pos == h.next)
    {
      while true
        invariant dsIter.pos <= |dsIter.keys|
        invariant Scan(query.model, store.data, query.filters, dsIter.keys, old(dsIter.pos))
                  == Scan(query.model, store.data, query.filters, dsIter.keys, dsIter.pos)
        decreases |dsIter.keys| - dsIter.pos
      {
        var key := dsIter.Next();
        if key.None? {
          return Exhausted;
        }
        var obj := GetById(query.model, store, key.value);
        if obj.Err? {
          return Failed(obj.error);
        }
        var pass := query.ApplyFilters(obj.value);
        if pass.Err? {
          return Failed(pass.error);
        }
        if pass.value {
          return Yield(obj.value);
        }
      }
    }
  }

  /** A buffered instance of an ordered query, with the row it was read back as. */
  datatype Item = Item(entity: Entity, row: Row)

  /** The sort key: the raw field of the instance. Every instance read back holds every
      declared property, so the lookup of QueryOrderedIterator.next never fails. */
  function ItemKey(x: Item, name: string): Value {
    FieldOrNone(x.row.fields, name)
  }

  function RowKey(x: Row, name: string): Value {
    FieldOrNone(x.fields, name)
  }

  function RowsOf(items: seq<Item>): seq<Row> {
    seq(|items|, i requires 0 <= i < |items| => items[i].row)
  }

  /** Some sort order's keys mix datetimes with other values, so sorting raises TypeError. */
  predicate Unsortable(orders: seq<BoundOrder>, rows: seq<Row>) {
    exists k :: 0 <= k < |orders| && Mixed(RowKey, orders[k].name, rows)
  }

  /** QueryOrderedIterator. `started` stands for the list iterator over the sorted buffer
      having been created; until then `buffer` plays no part. */
  class QueryOrderedIterator {
    const query: Query
    const inner: QueryIterator
    var buffer: seq<Item>
    var started: bool
    var pos: nat

    predicate Valid()
      reads this, inner, inner.dsIter
    {
      inner.Valid() && inner.query == query && pos <= |buffer|
    }

    constructor (query: Query, store: MemDatastore<Record>)
      modifies store
      ensures this.query == query && fresh(inner) && fresh(inner.dsIter) && inner.store == store
      ensures store.data == if query.model.kind in old(store.data) then old(store.data)
                            else old(store.data)[query.model.kind := map[]]
      ensures Distinct(inner.dsIter.keys) && forall k :: k in inner.dsIter.keys <==> k in store.data[query.model.kind]
      ensures !started && inner.dsIter.pos == 0 && Valid()
    {
      this.query := query;
      var it := new QueryIterator(query, store);
      inner := it;
      buffer := [];
      started := false;
      pos := 0;
    }

    /** QueryOrderedIterator.next. The first call buffers every remaining instance the plain
        iterator yields, sorts the buffer by each sort order, the last declared first, and
        yields the first buffered instance; later calls yield the rest in order. An error in
        buffering or sorting ends the call and the next call buffers afresh. */
    method Next() returns (r: Step)
      requires Valid()
      modifies this, inner.dsIter
      ensures Valid()
      ensures old(started) ==>
                && started && buffer == old(buffer) && inner.dsIter.pos == old(inner.dsIter.pos)
                && (old(pos) < |buffer| ==> r == Yield(buffer[old(pos)].entity) && pos == old(pos) + 1)
                && (old(pos) >= |buffer| ==> r == Exhausted && pos == old(pos))
      ensures var m := Matching(query.model, inner.store.data, query.filters, inner.dsIter.keys[old(inner.dsIter.pos)..]);
        !old(started) && m.Err? ==>
          && r == Failed(m.error) && !started
          && inner.dsIter.pos == FaultAt(query.model, inner.store.data, query.filters,
                                         inner.dsIter.keys, old(inner.dsIter.pos))
      ensures var m := Matching(query.model, inner.store.data, query.filters, inner.dsIter.keys[old(inner.dsIter.pos)..]);
        !old(started) && m.Ok? && Unsortable(query.sortOrders, m.value) ==>
          r == Failed(Incomparable) && !started && inner.dsIter.pos == |inner.dsIter.keys|
      ensures var m := Matching(query.model, inner.store.data, query.filters, inner.dsIter.keys[old(inner.dsIter.pos)..]);
        !old(started) && m.Ok? && !Unsortable(query.sortOrders, m.value) ==>
          && started && inner.dsIter.pos == |inner.dsIter.keys|
          && multiset(RowsOf(buffer)) == multiset(m.value)
          && LexSorted(RowKey, query.sortOrders, RowsOf(buffer))
          && (forall i :: 0 <= i < |buffer| ==> fresh(buffer[i].entity))
          && (forall i :: 0 <= i < |buffer| ==> MatchesRow(query.model, buffer[i]))
          && r == (if buffer == [] then Exhausted else Yield(buffer[0].entity))
          && pos == (if buffer == [] then 0 else 1)
    {
      if !started {
        var collected := Collect();
        if collected.Err? {
          return Failed(collected.error);
        }
        var items := collected.value;
        var orders := query.sortOrders;
        var sorted := SortBuffer(items);
        SortedItemsFail(orders, items);
        if sorted.Err? {
          return Failed(sorted.error);
        }
        SortedItems(orders, items);
        buffer := sorted.value;
        forall i | 0 <= i < |buffer|
          ensures fresh(buffer[i].entity) && MatchesRow(query.model, buffer[i])
        {
          var j :| 0 <= j < |items| && items[j] == buffer[i];
        }
        started := true;
        pos := 0;
      }
      if pos < |buffer| {
        r := Yield(buffer[pos].entity);
        pos := pos + 1;
      } else {
        r := Exhausted;
      }
    }

    /** The buffering loop of QueryOrderedIterator.next: every instance the plain iterator
        yields until StopIteration, the rows of Matching on the remaining keys. */
    method Collect() returns (collected: Result<seq<Item>>)
      requires Valid()
      modifies inner.dsIter
      ensures Valid()
      ensures var m := Matching(query.model, inner.store.data, query.filters, inner.dsIter.keys[old(inner.dsIter.pos)..]);
        && (m.Err? ==> collected == Err(m.error)
                       && inner.dsIter.pos == FaultAt(query.model, inner.store.data, query.filters,
                                                      inner.dsIter.keys, old(inner.dsIter.pos)))
        && (m.Ok? ==> collected.Ok? && RowsOf(collected.value) == m.value && inner.dsIter.pos == |inner.dsIter.keys|)
      ensures collected.Ok? ==> forall i :: 0 <= i < |collected.value| ==> fresh(collected.value[i].entity)
      ensures collected.Ok? ==> forall i :: 0 <= i < |collected.value| ==> MatchesRow(query.model, collected.value[i])
    {
      var mc, data, filters, keys := query.model, inner.store.data, query.filters, inner.dsIter.keys;
      ghost var m := Matching(mc, data, filters, keys[inner.dsIter.pos..]);
      ghost var fault := FaultAt(mc, data, filters, keys, inner.dsIter.pos);
      var items: seq<Item> := [];
      assert RowsOf(items) == [];
      PrependNothing(Matching(mc, data, filters, keys[inner.dsIter.pos..]));
      while true
        invariant inner.Valid() && inner.store.data == data && query.filters == filters
        invariant m == Prepend(RowsOf(items), Matching(mc, data, filters, keys[inner.dsIter.pos..]))
        invariant fault == FaultAt(mc, data, filters, keys, inner.dsIter.pos)
        invariant forall i :: 0 <= i < |items| ==> fresh(items[i].entity) && MatchesRow(mc, items[i])
        decreases |keys| - inner.dsIter.pos
      {
        ghost var before := inner.dsIter.pos;
        ScanFollowsMatching(mc, data, filters, keys, before);
        ScanKeepsFaultAt(mc, data, filters, keys, before);
        var step := inner.Next();
        match step
        case Exhausted =>
          assert before == |keys| || Scan(mc, data, filters, keys, before).Done?;
          assert RowsOf(items) + [] == RowsOf(items);
          return Ok(items);
        case Failed(e) =>
          return Err(e);
        case Yield(obj) =>
          var item := Item(obj, Row(obj.key, obj.fields));
          assert RowsOf(items + [item]) == RowsOf(items) + [item.row];
          PrependTwice(RowsOf(items), [item.row], Matching(mc, data, filters, keys[inner.dsIter.pos..]));
          items := items + [item];
      }
    }

    /** The sorting loop of QueryOrderedIterator.next: one stable sort per sort order, the
        last declared first. */
    method SortBuffer(collected: seq<Item>) returns (sorted: Result<seq<Item>>)
      ensures sorted == SortPasses(ItemKey, query.sortOrders, collected)
    {
      var orders := query.sortOrders;
      var s := collected;
      var i := |orders|;
      while i > 0
        invariant 0 <= i <= |orders|
        invariant SortPasses(ItemKey, orders[i..], collected) == Ok(s)
      {
        i := i - 1;
        assert orders[i..][1..] == orders[i + 1..];
        var pass := SortPass(ItemKey, orders[i], s);
        if pass.Err? {
          SortPassesErrorPersists(ItemKey, orders, i, collected);
          return Err(pass.error);
        }
        s := pass.value;
      }
      assert orders[0..] == orders;
      sorted := Ok(s);
    }
  }

  /** A buffered instance is the one its row was read back as. */
  ghost predicate MatchesRow(mc: ModelClass, x: Item)
    reads x.entity
  {
    x.entity.cls == mc && x.entity.key == x.row.key && x.entity.fields == x.row.fields
  }

  /** Once the passes fail from some order on, they fail for all the orders. */
  lemma {:induction false} SortPassesErrorPersists<T>(keyOf: (T, string) -> Value, orders: seq<BoundOrder>, i: nat, s: seq<T>)
    requires i <= |orders| && SortPasses(keyOf, orders[i..], s).Err?
    ensures SortPasses(keyOf, orders, s) == SortPasses(keyOf, orders[i..], s)
    decreases i
  {
    if i > 0 {
      assert orders[i - 1..][1..] == orders[i..];
      SortPassesErrorPersists(keyOf, orders, i - 1, s);
    } else {
      assert orders[0..] == orders;
    }
  }

  /** Sorting the buffered items fails exactly when sorting their rows does. */
  lemma SortedItemsFail(orders: seq<BoundOrder>, items: seq<Item>)
    ensures SortPasses(ItemKey, orders, items).Err? <==> Unsortable(orders, RowsOf(items))
    ensures SortPasses(ItemKey, orders, items).Err? ==> SortPasses(ItemKey, orders, items).error == Incomparable
  {
    SortPassesProject(orders, items);
    SortPassesFails(RowKey, orders, RowsOf(items));
  }

  /** Sorted items are a permutation of the buffered ones whose rows are in order. */
  lemma SortedItems(orders: seq<BoundOrder>, items: seq<Item>)
    requires SortPasses(ItemKey, orders, items).Ok?
    ensures var sorted := SortPasses(ItemKey, orders, items).value;
      && multiset(RowsOf(sorted)) == multiset(RowsOf(items))
      && LexSorted(RowKey, orders, RowsOf(sorted))
      && forall i :: 0 <= i < |sorted| ==> exists j :: 0 <= j < |items| && items[j] == sorted[i]
  {
    var sorted := SortPasses(ItemKey, orders, items).value;
    SortPassesProject(orders, items);
    SortPassesCorrect(ItemKey, orders, items);
    SortPassesCorrect(RowKey, orders, RowsOf(items));
    forall i | 0 <= i < |sorted| ensures exists j :: 0 <= j < |items| && items[j] == sorted[i] {
      assert sorted[i] in multiset(items);
    }
  }

  /** Sorting the buffered items is sorting their rows: one insertion step. */
  lemma {:induction false} InsertProject(o: BoundOrder, x: Item, s: seq<Item>)
    ensures RowsOf(Insert(ItemKey, o, x, s)) == Insert(RowKey, o, x.row, RowsOf(s))
    decreases |s|
  {
    if s != [] {
      InsertProject(o, x, s[1..]);
      assert RowsOf(s)[1..] == RowsOf(s[1..]);
      if Before(ItemKey, o, s[0], x) {
        assert RowsOf([s[0]] + Insert(ItemKey, o, x, s[1..])) == [s[0].row] + RowsOf(Insert(ItemKey, o, x, s[1..]));
      } else {
        assert RowsOf([x] + s) == [x.row] + RowsOf(s);
      }
    }
  }

  lemma {:induction false} SortByProject(o: BoundOrder, s: seq<Item>)
    ensures RowsOf(SortBy(ItemKey, o, s)) == SortBy(RowKey, o, RowsOf(s))
    decreases |s|
  {
    if s != [] {
      SortByProject(o, s[1..]);
      assert RowsOf(s)[1..] == RowsOf(s[1..]);
      InsertProject(o, s[0], SortBy(ItemKey, o, s[1..]));
    }
  }

  lemma MixedProject(name: string, items: seq<Item>)
    ensures Mixed(ItemKey, name, items) <==> Mixed(RowKey, name, RowsOf(items))
  {
    assert forall i :: 0 <= i < |items| ==> ItemKey(items[i], name) == RowKey(RowsOf(items)[i], name);
  }

  function RowsResult(r: Result<seq<Item>>): Result<seq<Row>> {
    match r
    case Ok(t) => Ok(RowsOf(t))
    case Err(e) => Err(e)
  }

  /** Sorting the buffered items by every order is sorting their rows. */
  lemma {:induction false} SortPassesProject(orders: seq<BoundOrder>, s: seq<Item>)
    ensures SortPasses(RowKey, orders, RowsOf(s)) == RowsResult(SortPasses(ItemKey, orders, s))
    decreases |orders|
  {
    if orders != [] {
      SortPassesProject(orders[1..], s);
      var r := SortPasses(ItemKey, orders[1..], s);
      if r.Ok? {
        MixedProject(orders[0].name, r.value);
        SortByProject(orders[0], r.value);
      }
    }
  }
}
