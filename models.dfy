/** Model classes and their instances (ndb.py, class Model).

    A model class is a kind plus the properties it declares, in the order the class
    dictionary lists them. An instance holds a key ("" when it has none: the library treats
    None and "" alike) and the attributes set on it. The stored payload is a record with one
    entry per declared property; its JSON text is not modelled. The datastore that the
    library reaches through its global handle is passed to each operation. */
module Models {
  import opened Results
  import opened Values
  import opened Properties
  import opened Filters
  import opened MemStore

  type Fields = map<string, Value>
  type Record = map<string, Value>

  datatype ModelClass = ModelClass(kind: string, props: seq<Property>)

  /** The clock readings of one write, by property name: each DateTime property's
      _to_datastore reads the clock on its own, so two auto-populated timestamps of one
      write need not get the same reading. */
  type Clock = string -> int

  /** What the Python class guarantees: each property is identified by its model and its
      attribute name, and attribute names are distinct. */
  predicate WellFormed(mc: ModelClass) {
    && (forall i :: 0 <= i < |mc.props| ==> mc.props[i].ref.kind == mc.kind)
    && DistinctNames(mc.props)
  }

  predicate DistinctNames(ps: seq<Property>) {
    forall i, j :: 0 <= i < j < |ps| ==> ps[i].ref.name != ps[j].ref.name
  }

  predicate Declares(mc: ModelClass, name: string) {
    exists i :: 0 <= i < |mc.props| && mc.props[i].ref.name == name
  }

  function Names(ps: seq<Property>): set<string> {
    set i | 0 <= i < |ps| :: ps[i].ref.name
  }

  function Last<T>(s: seq<T>): T
    requires s != []
  {
    s[|s| - 1]
  }

  function AllButLast<T>(s: seq<T>): seq<T>
    requires s != []
  {
    s[..|s| - 1]
  }

  /** Whether to_dict keeps a property, with include and exclude tested for membership by
      identity, as the comment on to_dict describes. */
  predicate Selected(p: Property, includeProps: Option<seq<PropRef>>, excludeProps: Option<seq<PropRef>>) {
    && (includeProps.None? || p.ref in includeProps.value)
    && (excludeProps.None? || p.ref !in excludeProps.value)
  }

  /** The attribute names to_dict keeps. */
  function SelectedNames(ps: seq<Property>, includeProps: Option<seq<PropRef>>, excludeProps: Option<seq<PropRef>>)
    : set<string>
  {
    set i | 0 <= i < |ps| && Selected(ps[i], includeProps, excludeProps) :: ps[i].ref.name
  }

  /** The loop shared by to_dict, _to_dict_datastore and the decoding in get_by_id: the
      properties are visited in order, and each one's step either binds a value to its name,
      skips it (Ok(None)), or raises, which ends the loop. */
  function Collect(ps: seq<Property>, step: Property -> Result<Option<Value>>): Result<map<string, Value>>
    decreases |ps|
  {
    if ps == [] then Ok(map[])
    else match Collect(AllButLast(ps), step)
      case Err(e) => Err(e)
      case Ok(m) =>
        match step(Last(ps))
        case Err(e) => Err(e)
        case Ok(None) => Ok(m)
        case Ok(Some(v)) => Ok(m[Last(ps).ref.name := v])
  }

  /** The names a successful loop binds. */
  function Kept(ps: seq<Property>, step: Property -> Result<Option<Value>>): set<string> {
    set i | 0 <= i < |ps| && step(ps[i]).Ok? && step(ps[i]).value.Some? :: ps[i].ref.name
  }

  /** One property in to_dict: skipped unless selected, otherwise its validated value. */
  function DictStep(p: Property, fields: Fields, includeProps: Option<seq<PropRef>>,
                    excludeProps: Option<seq<PropRef>>): Result<Option<Value>>
  {
    if !Selected(p, includeProps, excludeProps) then Ok(None)
    else match Validate(p, FieldOrNone(fields, p.ref.name))
      case Err(e) => Err(e)
      case Ok(v) => Ok(Some(v))
  }

  function DictSteps(fields: Fields, includeProps: Option<seq<PropRef>>, excludeProps: Option<seq<PropRef>>)
    : Property -> Result<Option<Value>>
  {
    p => DictStep(p, fields, includeProps, excludeProps)
  }

  /** to_dict over the properties `ps`. */
  function DictOf(ps: seq<Property>, fields: Fields, includeProps: Option<seq<PropRef>>,
                  excludeProps: Option<seq<PropRef>>): Result<Fields>
  {
    Collect(ps, DictSteps(fields, includeProps, excludeProps))
  }

  /** One property in _to_dict_datastore: validated, then converted for storage with the
      reading `clock` takes for this property. */
  function StoreStep(p: Property, fields: Fields, clock: Clock): Result<Option<Value>> {
    match Validate(p, FieldOrNone(fields, p.ref.name))
    case Err(e) => Err(e)
    case Ok(v) => Ok(Some(ToStored(p, v, clock(p.ref.name))))
  }

  function StoreSteps(fields: Fields, clock: Clock): Property -> Result<Option<Value>> {
    p => StoreStep(p, fields, clock)
  }

  /** _to_dict_datastore over the properties `ps`. */
  function StoredRecord(ps: seq<Property>, fields: Fields, clock: Clock): Result<Record> {
    Collect(ps, StoreSteps(fields, clock))
  }

  function EntryOf(rec: Record, name: string): Option<Value> {
    if name in rec then Some(rec[name]) else None
  }

  /** One property in get_by_id: read back from the record's entry for its name. */
  function DecodeStep(p: Property, rec: Record): Result<Option<Value>> {
    match FromStored(p, EntryOf(rec, p.ref.name))
    case Err(e) => Err(e)
    case Ok(v) => Ok(Some(v))
  }

  function DecodeSteps(rec: Record): Property -> Result<Option<Value>> {
    p => DecodeStep(p, rec)
  }

  /** The decoding loop of get_by_id. */
  function Decode(ps: seq<Property>, rec: Record): Result<Fields> {
    Collect(ps, DecodeSteps(rec))
  }

  /** get_by_id as a function of the datastore contents: the fields of the hydrated instance. */
  function Fetch(mc: ModelClass, data: map<string, map<string, Record>>, key: string): Result<Fields> {
    if key == "" then Err(EmptyKey)
    else match Lookup(data, mc.kind, key)
      case None => Err(NotFound)
      case Some(rec) => Decode(mc.props, rec)
  }

  /** The initialisers get_or_insert keeps: those that name declared properties. */
  function DeclaredOnly(mc: ModelClass, inits: Fields): (r: Fields)
    ensures forall k :: k in r <==> k in inits && Declares(mc, k)
    ensures forall k :: k in r ==> r[k] == inits[k]
  {
    map k | k in inits && Declares(mc, k) :: inits[k]
  }

  function KindKeys(data: map<string, map<string, Record>>, kind: string): set<string> {
    if kind in data then data[kind].Keys else {}
  }

  /** A model instance. */
  class Entity {
    const cls: ModelClass
    var key: string
    var fields: Fields

    /** Model.__init__: every keyword initialiser is set, declared or not. */
    constructor (cls: ModelClass, key: string, fields: Fields)
      ensures this.cls == cls && this.key == key && this.fields == fields
    {
      this.cls := cls;
      this.key := key;
      this.fields := fields;
    }

    /** Model.to_dict. */
    method ToDict(includeProps: Option<seq<PropRef>>, excludeProps: Option<seq<PropRef>>) returns (r: Result<Fields>)
      ensures r == DictOf(cls.props, fields, includeProps, excludeProps)
    {
      var ps := cls.props;
      var dict: Fields := map[];
      for i := 0 to |ps|
        invariant DictOf(ps[..i], fields, includeProps, excludeProps) == Ok(dict)
      {
        assert AllButLast(ps[..i + 1]) == ps[..i];
        var p := ps[i];
        if includeProps.Some? && p.ref !in includeProps.value {
          continue;
        }
        if excludeProps.Some? && p.ref in excludeProps.value {
          continue;
        }
        var v := FieldOrNone(fields, p.ref.name);
        match Validate(p, v)
        case Err(e) =>
          CollectErrorPersists(ps[..i + 1], ps[i + 1..], DictSteps(fields, includeProps, excludeProps));
          assert ps[..i + 1] + ps[i + 1..] == ps;
          return Err(e);
        case Ok(w) =>
          dict := dict[p.ref.name := w];
      }
      assert ps[..|ps|] == ps;
      r := Ok(dict);
    }

    /** Model._to_dict_datastore: the record put() writes. */
    method ToDictDatastore(clock: Clock) returns (r: Result<Record>)
      ensures r == StoredRecord(cls.props, fields, clock)
    {
      var ps := cls.props;
      var dict: Record := map[];
      for i := 0 to |ps|
        invariant StoredRecord(ps[..i], fields, clock) == Ok(dict)
      {
        assert AllButLast(ps[..i + 1]) == ps[..i];
        var p := ps[i];
        var v := FieldOrNone(fields, p.ref.name);
        match Validate(p, v)
        case Err(e) =>
          CollectErrorPersists(ps[..i + 1], ps[i + 1..], StoreSteps(fields, clock));
          assert ps[..i + 1] + ps[i + 1..] == ps;
          return Err(e);
        case Ok(w) =>
          dict := dict[p.ref.name := ToStored(p, w, clock(p.ref.name))];
      }
      assert ps[..|ps|] == ps;
      r := Ok(dict);
    }

    /** Model.put: an instance without a key first gets a new one (generateKey: time and random
        bits, here any non-empty key the kind does not hold); then the record is written and the
        key returned. The key is assigned even when validation then fails. */
    method Put(store: MemDatastore<Record>, clock: Clock) returns (r: Result<string>)
      modifies this, store
      ensures fields == old(fields)
      ensures old(key) != "" ==> key == old(key)
      ensures old(key) == "" ==> key != "" && key !in KindKeys(old(store.data), cls.kind)
      ensures r.Ok? <==> StoredRecord(cls.props, fields, clock).Ok?
      ensures r.Ok? ==> r.value == key
                        && store.data == AfterSet(old(store.data), cls.kind, key, StoredRecord(cls.props, fields, clock).value)
      ensures r.Err? ==> r.error == StoredRecord(cls.props, fields, clock).error && store.data == old(store.data)
    {
      if key == "" {
        FreshKeyExists(KindKeys(store.data, cls.kind));
        var k :| k != "" && k !in KindKeys(store.data, cls.kind);
        key := k;
      }
      var rec := ToDictDatastore(clock);
      if rec.Err? {
        return Err(rec.error);
      }
      store.Set(cls.kind, key, rec.value);
      r := Ok(key);
    }

    /** Model.delete: fails without a key; otherwise removes the record (absent or not). */
    method Delete(store: MemDatastore<Record>) returns (r: Result<string>)
      modifies store
      ensures key == "" ==> r == Err(NoKey) && store.data == old(store.data)
      ensures key != "" ==> r == Ok(key)
      ensures key != "" ==> Fetch(cls, store.data, key) == Err(NotFound)
      ensures key != "" ==> store.data == AfterDelete(old(store.data), cls.kind, key)
    {
      if key == "" {
        return Err(NoKey);
      }
      store.Delete(cls.kind, key);
      r := Ok(key);
    }
  }

  /** Model.get_by_id. */
  method GetById(mc: ModelClass, store: MemDatastore<Record>, key: string) returns (r: Result<Entity>)
    ensures Fetch(mc, store.data, key).Err? ==> r == Err(Fetch(mc, store.data, key).error)
    ensures Fetch(mc, store.data, key).Ok? ==>
              (r.Ok? && fresh(r.value) && r.value.cls == mc
               && r.value.key == key && r.value.fields == Fetch(mc, store.data, key).value)
  {
    if key == "" {
      return Err(EmptyKey);
    }
    var encoded := store.Get(mc.kind, key);
    if encoded.None? {
      return Err(NotFound);
    }
    var rec := encoded.value;
    var ps := mc.props;
    var kwds: Fields := map[];
    for i := 0 to |ps|
      invariant Decode(ps[..i], rec) == Ok(kwds)
    {
      assert AllButLast(ps[..i + 1]) == ps[..i];
      var p := ps[i];
      match FromStored(p, EntryOf(rec, p.ref.name))
      case Err(e) =>
        CollectErrorPersists(ps[..i + 1], ps[i + 1..], DecodeSteps(rec));
        assert ps[..i + 1] + ps[i + 1..] == ps;
        return Err(e);
      case Ok(v) =>
        kwds := kwds[p.ref.name := v];
    }
    assert ps[..|ps|] == ps;
    var e := new Entity(mc, key, kwds);
    r := Ok(e);
  }

  /** Model.get_or_insert: the stored instance when there is one, initialisers ignored;
      otherwise, on NotFound only, a new instance with the declared initialisers is put and
      fetched again. An empty key raises before anything is written. */
  method GetOrInsert(mc: ModelClass, store: MemDatastore<Record>, key: string, inits: Fields, clock: Clock)
    returns (r: Result<Entity>)
    modifies store
    ensures var f := Fetch(mc, old(store.data), key);
      f.Ok? ==> store.data == old(store.data) && r.Ok? && fresh(r.value)
                && r.value.cls == mc && r.value.key == key && r.value.fields == f.value
    ensures var f := Fetch(mc, old(store.data), key);
      f.Err? && f.error != NotFound ==> store.data == old(store.data) && r == Err(f.error)
    ensures var f := Fetch(mc, old(store.data), key);
      var w := StoredRecord(mc.props, DeclaredOnly(mc, inits), clock);
      f == Err(NotFound) && w.Err? ==> store.data == old(store.data) && r == Err(w.error)
    ensures var f := Fetch(mc, old(store.data), key);
      var w := StoredRecord(mc.props, DeclaredOnly(mc, inits), clock);
      f == Err(NotFound) && w.Ok? ==>
        && store.data == AfterSet(old(store.data), mc.kind, key, w.value)
        && (Decode(mc.props, w.value).Ok? ==> r.Ok? && fresh(r.value) && r.value.cls == mc && r.value.key == key
                                              && r.value.fields == Decode(mc.props, w.value).value)
        && (Decode(mc.props, w.value).Err? ==> r == Err(Decode(mc.props, w.value).error))
  {
    r := GetById(mc, store, key);
    if r.Ok? || r.error != NotFound {
      return;
    }
    var obj := new Entity(mc, key, DeclaredOnly(mc, inits));
    var put := obj.Put(store, clock);
    if put.Err? {
      return Err(put.error);
    }
    assert Lookup(store.data, mc.kind, key) == Some(StoredRecord(mc.props, DeclaredOnly(mc, inits), clock).value);
    r := GetById(mc, store, key);
  }

  /** Once the loop has raised, visiting more properties changes nothing. */
  lemma {:induction false} CollectErrorPersists(ps: seq<Property>, more: seq<Property>,
                                                step: Property -> Result<Option<Value>>)
    requires Collect(ps, step).Err?
    ensures Collect(ps + more, step) == Collect(ps, step)
    decreases |more|
  {
    if more != [] {
      CollectErrorPersists(ps, AllButLast(more), step);
      assert AllButLast(ps + more) == ps + AllButLast(more);
      assert Last(ps + more) == Last(more);
    } else {
      assert ps + more == ps;
    }
  }

  /** The loop succeeds exactly when no step raises; otherwise it raises some step's error. */
  lemma {:induction false} CollectSucceeds(ps: seq<Property>, step: Property -> Result<Option<Value>>)
    ensures Collect(ps, step).Ok? <==> forall i :: 0 <= i < |ps| ==> step(ps[i]).Ok?
    ensures Collect(ps, step).Err? ==> exists i :: 0 <= i < |ps| && step(ps[i]) == Err(Collect(ps, step).error)
    decreases |ps|
  {
    if ps != [] {
      var q, n := AllButLast(ps), |ps| - 1;
      assert forall i :: 0 <= i < |q| ==> q[i] == ps[i];
      assert ps[n] == Last(ps);
      CollectSucceeds(q, step);
    }
  }

  /** A successful loop binds exactly the names whose step gives a value, each to that value,
      when the names are distinct. */
  lemma {:induction false} CollectValues(ps: seq<Property>, step: Property -> Result<Option<Value>>)
    requires DistinctNames(ps)
    requires Collect(ps, step).Ok?
    ensures Collect(ps, step).value.Keys == Kept(ps, step)
    ensures forall i :: 0 <= i < |ps| ==>
              && step(ps[i]).Ok?
              && (step(ps[i]).value.Some? ==> Collect(ps, step).value[ps[i].ref.name] == step(ps[i]).value.value)
    decreases |ps|
  {
    if ps != [] {
      var q, p, n := AllButLast(ps), Last(ps), |ps| - 1;
      assert forall i :: 0 <= i < |q| ==> q[i] == ps[i];
      assert ps[n] == p;
      CollectValues(q, step);
      KeptSnoc(ps, step);
      var m := Collect(q, step).value;
      var r := Collect(ps, step).value;
      forall i | 0 <= i < |ps|
        ensures step(ps[i]).Ok? && (step(ps[i]).value.Some? ==> r[ps[i].ref.name] == step(ps[i]).value.value)
      {
        if i < n {
          assert ps[i].ref.name != p.ref.name;
        }
      }
    }
  }

  lemma KeptSnoc(ps: seq<Property>, step: Property -> Result<Option<Value>>)
    requires ps != []
    ensures Kept(ps, step) == Kept(AllButLast(ps), step)
                             + (if step(Last(ps)).Ok? && step(Last(ps)).value.Some? then {Last(ps).ref.name} else {})
  {
    var q, p := AllButLast(ps), Last(ps);
    assert ps[|ps| - 1] == p;
    forall k | k in Kept(ps, step)
      ensures k in Kept(q, step) + (if step(p).Ok? && step(p).value.Some? then {p.ref.name} else {})
    {
      var i :| 0 <= i < |ps| && step(ps[i]).Ok? && step(ps[i]).value.Some? && ps[i].ref.name == k;
      if i < |q| {
        assert q[i] == ps[i];
      }
    }
    forall k | k in Kept(q, step) ensures k in Kept(ps, step) {
      var i :| 0 <= i < |q| && step(q[i]).Ok? && step(q[i]).value.Some? && q[i].ref.name == k;
      assert ps[i] == q[i];
    }
  }

  /** When to_dict succeeds: exactly when every selected property validates; a failure is
      some selected property's validation error. */
  lemma DictOfSucceeds(ps: seq<Property>, fields: Fields,
                       includeProps: Option<seq<PropRef>>, excludeProps: Option<seq<PropRef>>)
    ensures DictOf(ps, fields, includeProps, excludeProps).Ok?
            <==> forall i :: 0 <= i < |ps| && Selected(ps[i], includeProps, excludeProps)
                             ==> Validate(ps[i], FieldOrNone(fields, ps[i].ref.name)).Ok?
    ensures DictOf(ps, fields, includeProps, excludeProps).Err? ==>
              exists i :: 0 <= i < |ps| && Selected(ps[i], includeProps, excludeProps)
                          && Validate(ps[i], FieldOrNone(fields, ps[i].ref.name))
                             == Err(DictOf(ps, fields, includeProps, excludeProps).error)
  {
    CollectSucceeds(ps, DictSteps(fields, includeProps, excludeProps));
  }

  /** What a successful to_dict holds: exactly the selected names, each bound to its
      property's validated value. */
  lemma DictOfValues(ps: seq<Property>, fields: Fields,
                     includeProps: Option<seq<PropRef>>, excludeProps: Option<seq<PropRef>>)
    requires DistinctNames(ps)
    requires DictOf(ps, fields, includeProps, excludeProps).Ok?
    ensures DictOf(ps, fields, includeProps, excludeProps).value.Keys == SelectedNames(ps, includeProps, excludeProps)
    ensures forall i :: 0 <= i < |ps| && Selected(ps[i], includeProps, excludeProps) ==>
              Validate(ps[i], FieldOrNone(fields, ps[i].ref.name))
              == Ok(DictOf(ps, fields, includeProps, excludeProps).value[ps[i].ref.name])
  {
    var step := DictSteps(fields, includeProps, excludeProps);
    CollectValues(ps, step);
    assert Kept(ps, step) == SelectedNames(ps, includeProps, excludeProps);
  }

  /** When _to_dict_datastore succeeds: exactly when every declared property validates; a
      failure is some property's validation error. */
  lemma StoredSucceeds(ps: seq<Property>, fields: Fields, clock: Clock)
    ensures StoredRecord(ps, fields, clock).Ok?
            <==> forall i :: 0 <= i < |ps| ==> Validate(ps[i], FieldOrNone(fields, ps[i].ref.name)).Ok?
    ensures StoredRecord(ps, fields, clock).Err? ==>
              exists i :: 0 <= i < |ps| && Validate(ps[i], FieldOrNone(fields, ps[i].ref.name))
                                           == Err(StoredRecord(ps, fields, clock).error)
  {
    CollectSucceeds(ps, StoreSteps(fields, clock));
  }

  /** What a successful _to_dict_datastore holds: one entry per declared name, each the
      stored form of its property's validated value. */
  lemma StoredValues(ps: seq<Property>, fields: Fields, clock: Clock)
    requires DistinctNames(ps)
    requires StoredRecord(ps, fields, clock).Ok?
    ensures StoredRecord(ps, fields, clock).value.Keys == Names(ps)
    ensures forall i :: 0 <= i < |ps| ==>
              && Validate(ps[i], FieldOrNone(fields, ps[i].ref.name)).Ok?
              && StoredRecord(ps, fields, clock).value[ps[i].ref.name]
                 == ToStored(ps[i], Validate(ps[i], FieldOrNone(fields, ps[i].ref.name)).value, clock(ps[i].ref.name))
  {
    var step := StoreSteps(fields, clock);
    CollectValues(ps, step);
    assert Kept(ps, step) == Names(ps);
  }

  /** When the decoding of get_by_id succeeds: exactly when every declared property reads
      back; a failure is some property's error. */
  lemma DecodeSucceeds(ps: seq<Property>, rec: Record)
    ensures Decode(ps, rec).Ok? <==> forall i :: 0 <= i < |ps| ==> FromStored(ps[i], EntryOf(rec, ps[i].ref.name)).Ok?
    ensures Decode(ps, rec).Err? ==>
              exists i :: 0 <= i < |ps| && FromStored(ps[i], EntryOf(rec, ps[i].ref.name)) == Err(Decode(ps, rec).error)
  {
    CollectSucceeds(ps, DecodeSteps(rec));
  }

  /** What a successful decoding holds: one entry per declared name, each the value read back. */
  lemma DecodeValues(ps: seq<Property>, rec: Record)
    requires DistinctNames(ps)
    requires Decode(ps, rec).Ok?
    ensures Decode(ps, rec).value.Keys == Names(ps)
    ensures forall i :: 0 <= i < |ps| ==>
              FromStored(ps[i], EntryOf(rec, ps[i].ref.name)) == Ok(Decode(ps, rec).value[ps[i].ref.name])
  {
    var step := DecodeSteps(rec);
    CollectValues(ps, step);
    assert Kept(ps, step) == Names(ps);
  }

  /** With neither include nor exclude, to_dict keeps every name. */
  lemma SelectedNamesAll(ps: seq<Property>)
    ensures SelectedNames(ps, None, None) == Names(ps)
  {
  }

  /** Two maps over the names of `ps` that agree on every name are equal. */
  lemma MapsAgree(ps: seq<Property>, d: Fields, t: Fields)
    requires d.Keys == Names(ps) && t.Keys == Names(ps)
    requires forall i :: 0 <= i < |ps| ==> d[ps[i].ref.name] == t[ps[i].ref.name]
    ensures d == t
  {
    forall k | k in d ensures d[k] == t[k] {
      var i :| 0 <= i < |ps| && ps[i].ref.name == k;
    }
  }

  /** Reading back the record _to_dict_datastore builds gives what to_dict returns, for
      properties that are not auto-populated timestamps. */
  lemma StoredRecordDecodes(ps: seq<Property>, fields: Fields, clock: Clock)
    requires DistinctNames(ps)
    requires forall i :: 0 <= i < |ps| ==> !IsAutoTimestamp(ps[i])
    requires StoredRecord(ps, fields, clock).Ok?
    ensures Decode(ps, StoredRecord(ps, fields, clock).value) == DictOf(ps, fields, None, None)
  {
    var rec := StoredRecord(ps, fields, clock).value;
    DecodeOfStored(ps, fields, clock);
    StoredSucceeds(ps, fields, clock);
    DictOfSucceeds(ps, fields, None, None);
    DictOfValues(ps, fields, None, None);
    SelectedNamesAll(ps);
    MapsAgree(ps, Decode(ps, rec).value, DictOf(ps, fields, None, None).value);
  }

  /** The record _to_dict_datastore builds decodes to one entry per declared name, each the
      property's validated value, for properties that are not auto-populated timestamps. */
  lemma DecodeOfStored(ps: seq<Property>, fields: Fields, clock: Clock)
    requires DistinctNames(ps)
    requires forall i :: 0 <= i < |ps| ==> !IsAutoTimestamp(ps[i])
    requires StoredRecord(ps, fields, clock).Ok?
    ensures Decode(ps, StoredRecord(ps, fields, clock).value).Ok?
    ensures Decode(ps, StoredRecord(ps, fields, clock).value).value.Keys == Names(ps)
    ensures forall i :: 0 <= i < |ps| ==>
              Validate(ps[i], FieldOrNone(fields, ps[i].ref.name))
              == Ok(Decode(ps, StoredRecord(ps, fields, clock).value).value[ps[i].ref.name])
  {
    var rec := StoredRecord(ps, fields, clock).value;
    StoredEntriesReadBack(ps, fields, clock);
    StoredSucceeds(ps, fields, clock);
    DecodeSucceeds(ps, rec);
    DecodeValues(ps, rec);
  }

  /** Each entry of the record _to_dict_datastore builds reads back as its property's
      validated value, for properties that are not auto-populated timestamps. */
  lemma StoredEntriesReadBack(ps: seq<Property>, fields: Fields, clock: Clock)
    requires DistinctNames(ps)
    requires forall i :: 0 <= i < |ps| ==> !IsAutoTimestamp(ps[i])
    requires StoredRecord(ps, fields, clock).Ok?
    ensures forall i :: 0 <= i < |ps| ==>
              FromStored(ps[i], EntryOf(StoredRecord(ps, fields, clock).value, ps[i].ref.name))
              == Validate(ps[i], FieldOrNone(fields, ps[i].ref.name))
  {
    var rec := StoredRecord(ps, fields, clock).value;
    StoredValues(ps, fields, clock);
    forall i | 0 <= i < |ps|
      ensures FromStored(ps[i], EntryOf(rec, ps[i].ref.name)) == Validate(ps[i], FieldOrNone(fields, ps[i].ref.name))
    {
      assert ps[i].ref.name in Names(ps);
      StoredRoundTrip(ps[i], FieldOrNone(fields, ps[i].ref.name), clock(ps[i].ref.name));
    }
  }

  /** put then get_by_id: for a model without auto-populated timestamps, the instance read
      back holds exactly what to_dict of the instance written returns. */
  lemma PutThenFetch(mc: ModelClass, data: map<string, map<string, Record>>, key: string, fields: Fields, clock: Clock)
    requires WellFormed(mc) && key != ""
    requires forall i :: 0 <= i < |mc.props| ==> !IsAutoTimestamp(mc.props[i])
    requires StoredRecord(mc.props, fields, clock).Ok?
    ensures Fetch(mc, AfterSet(data, mc.kind, key, StoredRecord(mc.props, fields, clock).value), key)
            == DictOf(mc.props, fields, None, None)
  {
    StoredRecordDecodes(mc.props, fields, clock);
  }

  /** What put writes for property `p` of an instance holding `fields`: the stored form of its
      validated value, with the reading `clock` gives this property. */
  function Written(p: Property, fields: Fields, clock: Clock): Value
    requires Validate(p, FieldOrNone(fields, p.ref.name)).Ok?
  {
    ToStored(p, Validate(p, FieldOrNone(fields, p.ref.name)).value, clock(p.ref.name))
  }

  /** put then get_by_id, for any model, auto-populated timestamps included: the fetch
      succeeds exactly when every written entry validates again, and the instance read back
      holds one field per declared name, bound to what put wrote for it. */
  lemma PutThenFetchWritten(mc: ModelClass, data: map<string, map<string, Record>>, key: string,
                            fields: Fields, clock: Clock)
    requires WellFormed(mc) && key != ""
    requires StoredRecord(mc.props, fields, clock).Ok?
    ensures forall i :: 0 <= i < |mc.props| ==> Validate(mc.props[i], FieldOrNone(fields, mc.props[i].ref.name)).Ok?
    ensures var f := Fetch(mc, AfterSet(data, mc.kind, key, StoredRecord(mc.props, fields, clock).value), key);
      && (f.Ok? <==> forall i :: 0 <= i < |mc.props| ==> Validate(mc.props[i], Written(mc.props[i], fields, clock)).Ok?)
      && (f.Ok? ==> f.value.Keys == Names(mc.props)
                    && forall i :: 0 <= i < |mc.props| ==> f.value[mc.props[i].ref.name] == Written(mc.props[i], fields, clock))
  {
    var ps := mc.props;
    var rec := StoredRecord(ps, fields, clock).value;
    StoredSucceeds(ps, fields, clock);
    StoredValues(ps, fields, clock);
    SetThenGet(data, mc.kind, key, rec, mc.kind, key);
    assert Fetch(mc, AfterSet(data, mc.kind, key, rec), key) == Decode(ps, rec);
    forall i | 0 <= i < |ps|
      ensures FromStored(ps[i], EntryOf(rec, ps[i].ref.name)) == Validate(ps[i], Written(ps[i], fields, clock))
    {
      assert ps[i].ref.name in Names(ps);
    }
    DecodeSucceeds(ps, rec);
    if Decode(ps, rec).Ok? {
      DecodeValues(ps, rec);
      forall i | 0 <= i < |ps|
        ensures Decode(ps, rec).value[ps[i].ref.name] == Written(ps[i], fields, clock)
      {
        var w := Written(ps[i], fields, clock);
        assert w.VNone? ==> ps[i].default.VNone?;
      }
    }
  }

  /** Membership in to_dict's include or exclude list as written: `prop in lst` compares
      with Property.__eq__, which validates the list element against the property and, on an
      element that is another property, raises ValueError (bad type). CPython returns true
      without calling __eq__ only when the element is the property itself; so the test answers
      true when the property is first, false on an empty list and raises otherwise. */
  function ContainsAsWritten(p: Property, refs: seq<PropRef>): (r: Result<bool>)
    ensures r == Ok(false) <==> refs == []
    ensures r == Ok(true) <==> refs != [] && refs[0] == p.ref
    ensures r.Err? ==> r.error == BadType
  {
    if refs == [] then Ok(false)
    else if refs[0] == p.ref then Ok(true)
    else Err(BadType)
  }

  /** One property in to_dict as written, with the membership test above: the include list
      is consulted first, then the exclude list. */
  function AsWrittenStep(p: Property, fields: Fields, includeProps: Option<seq<PropRef>>,
                         excludeProps: Option<seq<PropRef>>): Result<Option<Value>>
  {
    var inc := if includeProps.None? then Ok(true) else ContainsAsWritten(p, includeProps.value);
    var exc := if excludeProps.None? then Ok(false) else ContainsAsWritten(p, excludeProps.value);
    if inc.Err? then Err(inc.error)
    else if !inc.value then Ok(None)
    else if exc.Err? then Err(exc.error)
    else if exc.value then Ok(None)
    else match Validate(p, FieldOrNone(fields, p.ref.name))
      case Err(e) => Err(e)
      case Ok(v) => Ok(Some(v))
  }

  function AsWrittenSteps(fields: Fields, includeProps: Option<seq<PropRef>>, excludeProps: Option<seq<PropRef>>)
    : Property -> Result<Option<Value>>
  {
    p => AsWrittenStep(p, fields, includeProps, excludeProps)
  }

  /** Two loops whose steps agree wherever the first does not raise agree wherever the
      first loop does not raise; steps that agree everywhere give the same loop. */
  lemma {:induction false} CollectAgreesWhereOk(ps: seq<Property>, s1: Property -> Result<Option<Value>>,
                                                s2: Property -> Result<Option<Value>>)
    requires forall p :: s1(p).Ok? ==> s1(p) == s2(p)
    ensures Collect(ps, s1).Ok? ==> Collect(ps, s1) == Collect(ps, s2)
    ensures (forall p :: s1(p) == s2(p)) ==> Collect(ps, s1) == Collect(ps, s2)
    decreases |ps|
  {
    if ps != [] {
      CollectAgreesWhereOk(AllButLast(ps), s1, s2);
    }
  }

  /** to_dict as written: when it does not raise, it returns what the intended to_dict
      returns, and without include and exclude lists it is the intended to_dict. */
  function DictAsWritten(ps: seq<Property>, fields: Fields, includeProps: Option<seq<PropRef>>,
                         excludeProps: Option<seq<PropRef>>): (r: Result<Fields>)
    ensures r.Ok? ==> r == DictOf(ps, fields, includeProps, excludeProps)
    ensures includeProps.None? && excludeProps.None? ==> r == DictOf(ps, fields, None, None)
  {
    var s1 := AsWrittenSteps(fields, includeProps, excludeProps);
    var s2 := DictSteps(fields, includeProps, excludeProps);
    assert forall p :: s1(p).Ok? ==> s1(p) == s2(p);
    CollectAgreesWhereOk(ps, s1, s2);
    Collect(ps, s1)
  }

  /** A model with two optional string properties and no field set. */
  function TwoStrings(): ModelClass {
    ModelClass("User", [
      Property(PropRef("User", "email"), StringType, VNone, false, None, None),
      Property(PropRef("User", "name"), StringType, VNone, false, None, None)])
  }

  /** to_dict(include=[User.email, User.name]) raises ValueError as written, where both
      properties are meant to be returned; excluding a property that is not first in the
      exclude list raises too. */
  lemma ToDictIncludeRaises()
    ensures var mc := TwoStrings();
      && DictAsWritten(mc.props, map[], Some([mc.props[0].ref, mc.props[1].ref]), None) == Err(BadType)
      && DictOf(mc.props, map[], Some([mc.props[0].ref, mc.props[1].ref]), None)
         == Ok(map["email" := VNone, "name" := VNone])
      && DictAsWritten(mc.props, map[], None, Some([mc.props[1].ref])) == Err(BadType)
      && DictOf(mc.props, map[], None, Some([mc.props[1].ref])) == Ok(map["email" := VNone])
  {
    var mc := TwoStrings();
    assert AllButLast(mc.props) == [mc.props[0]];
    assert AllButLast([mc.props[0]]) == [];
  }
}
