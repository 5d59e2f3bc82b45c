# ndb-py entity layer and in-memory datastore, in Dafny

ndb-py is a small object store for Python 2 in the style of the App Engine `ndb` API. A
model class declares typed properties. Instances are validated and written to a datastore
under their kind (the class name) and a string key. They are read back by key, or through a
query that filters instances by their properties and can sort them.

This project models the entity layer of `ndb.py` and the in-memory datastore of
`ndb_datastore.py`, and proves properties of that model:

- `results.dfy` (`Results`): `Option`, `Result` and the errors the library raises. Each error
  is named after the condition that raises it.
- `values.dfy` (`Values`): the values a field holds, with Python 2 comparison semantics.
  - int, bool and float compare numerically.
  - None sorts below numbers, and numbers sort below strings.
  - Ordering a datetime against a non-datetime raises TypeError.
- `properties.dfy` (`Properties`): `Property.validate`, and conversion to and from the stored
  form, including the `auto_now` and `auto_now_add` flags of DateTime properties.
- `filters.dfy` (`Filters`): the comparison operators that build filters, `IN`, `-`/`+` sort
  orders, and `Filter._apply`.
- `sorting.dfy` (`StableSort`): Python's stable `list.sort`, and the ordered query's
  repeated sorts, one per sort order with the last declared order first.
- `memstore.dfy` (`MemStore`): `MemDatastore`, a dictionary of dictionaries, and its key
  iterator.
- `models.dfy` (`Models`): model classes and instances: `get_by_id`, `get_or_insert`, `put`,
  `delete`, `to_dict` and `_to_dict_datastore`.
- `queries.dfy` (`Queries`): `Query`, `QueryIterator` and `QueryOrderedIterator`.
- `registry.dfy` (`Registry`): the single-datastore handle (`setDatastore`,
  `closeDatastore`).

A model class is its kind plus its declared properties, in class-dictionary order. Property
identity (Python's `is`) is the pair (kind, attribute name). The stored payload of an
instance is a record: a map from property name to stored value. The datastore that the
library reaches through its global handle is passed to each operation as a parameter. The
library treats an instance key of None and of `""` alike, and the model writes both as `""`.

`Matching` is the reference definition of a query's result. It lists, in the order of the
kind's key snapshot, the rows that read back and pass every filter. The first key that fails
to read back, or that a filter raises on, decides the error. `QueryIterator.Next` is proved
to step through exactly these rows. `QueryOrderedIterator.Next` is proved to buffer them,
and to hold a permutation of them that is lexicographically sorted by the declared sort
orders, the first declared order being primary.

## Model

| member | source | states |
|---|---|---|
| Values.Lt | ndb.py:214-220 | Python `<` on two field values raises TypeError exactly when one is a datetime and the other is not. Otherwise the answer is the native order. |
| Values.Le | ndb.py:217-222 | Python `<=` raises exactly when `<` does. Otherwise it is "not greater than". |
| Values.KeyLessTransitive | ndb.py:338 | The native order on values is transitive, as the stable sort of query results needs. |
| Values.KeyTiesArePyEq | ndb.py:213-214 | Two values are neither less nor greater than each other in the native order exactly when Python calls them equal. So `v < value or v > value` means "not equal" wherever it does not raise. |
| Properties.Validate | ndb.py:364-383 | The result is OK exactly when the defaulted value meets four conditions: present if required, of the declared type if present, among the choices, and accepted by the validator. The result is then the defaulted value. A present value of the wrong type is BadType. A required value missing with no default is MissingRequired. |
| Properties.ValidateErrorOrder | ndb.py:365-382 | Which error validation reports, in the order the checks run: required, then type, then choices, then validator. |
| Properties.ValidateIdempotent | ndb.py:364-383 | A validated value validates to itself. |
| Properties.TestSuiteExamples | ndb.py:364-383 | The test suite's cases. A missing `isAdmin` (required, default False) reads as False. A missing `importance` reads as "normal". `""` and `"asdf"` are rejected as outside its choices, and `"urgent"` is kept. |
| Properties.ToStored | ndb.py:493-500 | The stored form of a validated value, by `DateTimeProperty._to_datastore` for a DateTime property and by `Property._to_datastore` (ndb.py:390-393) otherwise. `auto_now` stores the clock reading this property's conversion takes. `auto_now_add` stores it only when no value is set. A present value is otherwise stored as it is. A missing one is stored as the default. |
| Properties.FromStored | ndb.py:502-506 | How a stored entry reads back, by `DateTimeProperty._from_datastore` for a DateTime property and by `Property._from_datastore` (ndb.py:396-400) otherwise. A DateTime property with no entry raises (MissingTimestamp). Any other property validates the entry, or None when there is no entry. |
| Properties.StoredRoundTrip | ndb.py:390-400 | Storing a validated value and reading it back gives the same value, for every property that is not auto-populated. |
| Properties.AutoNowRoundTrip | ndb.py:493-506 | An `auto_now` property reads back as the clock reading its own conversion took at the last write, whatever it held. |
| Properties.AutoNowAddStable | ndb.py:493-497 | An `auto_now_add` property keeps the timestamp it holds on later writes, unless `auto_now` is also set, which takes precedence. |
| Filters.Comparison | ndb.py:404-432 | `==`, `!=`, `<`, `<=`, `>` and `>=` on a property build a filter. The filter holds None unchecked and a validated value otherwise. They raise exactly when the value is not admissible, with validation's error. |
| Filters.In | ndb.py:434-440 | `IN` builds an `in` filter over the list exactly when every value other than None is admissible. Otherwise it raises the error of the first inadmissible value. |
| Filters.Apply | ndb.py:207-225 | An operator the filter does not know raises. On the operand shapes the builders produce (a single value for a comparison, a list for `in`), the only other error is an incomparable pair. A hand-built filter of another shape raises OperandMismatch in the model; see "## Left out". |
| Filters.NotEqualSemantics | ndb.py:213-214 | `!=` answers "not equal" wherever Python can order the two values. It raises where one value is a datetime and the other is not. |
| Filters.EqualSemantics | ndb.py:208-212 | `=` is Python equality on the raw field, an unset field reading as None, and never raises. |
| Filters.OrderingSemantics | ndb.py:215-222 | `<`, `<=`, `>` and `>=` are the native orders on the raw field. They raise exactly on a datetime against a non-datetime. |
| Filters.InSemantics | ndb.py:223-224 | `in` is membership by Python equality in the operand list. |
| Filters.Descending | ndb.py:444-445 | `-prop` is a sort order on the property itself, descending. Filters.Ascending with Queries.DescendingReversesAscending shows it orders as `+prop` reversed. |
| Filters.Ascending | ndb.py:448-449 | `+prop` is a sort order on the property itself, ascending, the same order a bare property gets in `Query.order`. |
| Filters.PassesAllIsConjunction | ndb.py:291-295 | An instance passes a query's filters exactly when every filter accepts it. |
| Filters.PassesAllAppend | ndb.py:249-259 | Adding filters to a query intersects the sets of instances that pass. |
| StableSort.SortPassesCorrect | ndb.py:337-338 | Sorting once per sort order, last declared first, gives a permutation of the input. That permutation is lexicographically sorted by the orders, the first declared being primary and a reversed order descending. |
| StableSort.SortPassesFails | ndb.py:337-338 | The sorts raise TypeError exactly when some order's keys mix datetimes with other values. |
| StableSort.InsertLexSorted | ndb.py:338 | Stability: take a sequence sorted by order `o` and then the orders `rest`, and an element that precedes every member under `rest`. Inserting the element by `o`, in front of its ties, keeps the sequence sorted the same way. |
| MemStore.MemDatastore.Set | ndb_datastore.py:40-43 | The new contents are the old with the entry (kind, key) set, creating the kind's dictionary when it is absent. |
| MemStore.MemDatastore.Get | ndb_datastore.py:45-50 | None when the kind or the key is absent, otherwise the stored value. |
| MemStore.MemDatastore.Delete | ndb_datastore.py:52-57 | The new contents are the old with the entry (kind, key) removed. An absent kind or key changes nothing. |
| MemStore.SetThenGet | ndb_datastore.py:40-50 | After `set(kind, key, v)`, `get(kind, key)` returns `v` and every other entry reads as before. |
| MemStore.MemDatastore.constructor | ndb_datastore.py:37-38 | A new in-memory datastore holds no kind. |
| MemStore.DeleteThenGet | ndb_datastore.py:45-57 | After `delete(kind, key)`, `get(kind, key)` returns None and every other entry reads as before. |
| MemStore.MemDatastore.Iter | ndb_datastore.py:59-62 | Creates an empty dictionary for an absent kind, and nothing else changes. The iterator lists each key of the kind exactly once. |
| MemStore.EnumerateKeys | ndb_datastore.py:69 | A dictionary's iteration visits every key exactly once, in an order left open. |
| MemStore.MemDatastoreIterator.Next | ndb_datastore.py:74-75 | The next key of the snapshot, or StopIteration once all have been visited. |
| MemStore.MemDatastoreIterator.constructor | ndb_datastore.py:66-69 | The iterator is bound to its datastore and kind and starts before the first key of the kind's key snapshot. |
| MemStore.FreshKeyExists | ndb.py:145-146 | A key can always be generated that the kind does not hold. |
| Models.Entity.constructor | ndb.py:85-89 | A new instance holds the given key ("" for none) and every keyword initialiser as a field, declared or not. |
| Models.Entity.ToDict | ndb.py:164-180 | The intended `to_dict`: the loop over the declared properties described by DictOf, with include and exclude tested by identity. The source as written raises on most include and exclude lists; that behaviour is Models.DictAsWritten, shown by Models.ToDictIncludeRaises (see "## Findings"). |
| Models.DictOfSucceeds | ndb.py:164-180 | The intended `to_dict` (membership by identity) succeeds exactly when every selected property validates. A failure is some selected property's validation error. As written, the source also raises ValueError from its membership test (Models.DictAsWritten). |
| Models.DictOfValues | ndb.py:164-180 | A successful intended `to_dict` (membership by identity) holds exactly the selected names. Each is bound to its property's validated value. As written, the source instead raises on an include or exclude list whose first element is another property (Models.DictAsWritten, Models.ToDictIncludeRaises). |
| Models.Entity.ToDictDatastore | ndb.py:183-194 | `_to_dict_datastore` is the loop over the declared properties described by StoredRecord. |
| Models.StoredSucceeds | ndb.py:183-194 | The record is built exactly when every declared property validates. A failure is some property's error. |
| Models.StoredValues | ndb.py:183-194 | The record has one entry per declared name. Each is the stored form of the property's validated value. |
| Models.Entity.Put | ndb.py:149-153 | An instance without a key gets a non-empty key the kind does not hold, even if validation then fails. A kept key is unchanged. On success the record is written under (kind, key) and the key is returned. On failure the store is unchanged and the error is validation's. |
| Models.Entity.Delete | ndb.py:156-160 | Without a key, raises and changes nothing. Otherwise removes (kind, key), returns the key, and afterwards `get_by_id` fails with NotFound. |
| Models.GetById | ndb.py:97-112 | An empty key raises EmptyKey, and an absent key raises NotFound (KeyError). Otherwise the result is a fresh instance whose fields are the record decoded property by property, or the first decoding error. |
| Models.DecodeSucceeds | ndb.py:104-111 | Decoding succeeds exactly when every declared property reads back. A failure is some property's error. |
| Models.DecodeValues | ndb.py:104-111 | A decoded instance holds one field per declared name: the entry read back. |
| Models.GetOrInsert | ndb.py:117-128 | A stored instance is returned unchanged and the initialisers are ignored. Any error other than NotFound is raised with nothing written. On NotFound, an instance with the declared initialisers only is put, then fetched again. |
| Models.DeclaredOnly | ndb.py:122-126 | `get_or_insert` keeps exactly the initialisers that name declared properties, with their values. |
| Models.CollectSucceeds | ndb.py:105-111 | For the property loop shared by `to_dict`, `_to_dict_datastore` and `get_by_id`: it succeeds exactly when no step raises. Otherwise it raises some step's error. |
| Models.CollectValues | ndb.py:105-111 | A successful property loop binds exactly the names whose step yields a value, each to that value. |
| Models.CollectErrorPersists | ndb.py:105-111 | Once the property loop has raised, the remaining properties change nothing. |
| Models.StoredEntriesReadBack | ndb.py:183-194 | Each entry of a written record reads back as its property's validated value, for properties that are not auto-populated. |
| Models.DecodeOfStored | ndb.py:97-112 | A written record decodes to one field per declared name, each the property's validated value, for properties that are not auto-populated. |
| Models.StoredRecordDecodes | ndb.py:183-194 | Decoding the record `_to_dict_datastore` builds gives what `to_dict` without include or exclude returns, for properties that are not auto-populated. |
| Models.PutThenFetch | ndb.py:149-153 | After `put`, `get_by_id` of the key returns the fields `to_dict` of the written instance returns, for a model without auto-populated timestamps. Models.PutThenFetchWritten states the round trip for every model, the test suite's User and Message with their `created` and `updated` timestamps included. |
| Models.PutThenFetchWritten | ndb.py:149-153 | For any model, auto-populated timestamps included: after `put`, `get_by_id` of the key succeeds exactly when every written entry validates again, and then holds one field per declared name, bound to what `put` wrote for it (Models.Written). That is the validated value for a plain property. Under `auto_now` it is the clock reading taken for that property. Under `auto_now_add` it is that reading when the value is None, and the held value otherwise. Each property has its own reading, so the `created` and `updated` of one write need not be equal. |
| Models.ContainsAsWritten | ndb.py:168-173 | The include and exclude membership test as written. It answers False on an empty list and True when the property is first. Otherwise it raises BadType. |
| Models.ToDictIncludeRaises | ndb.py:168-173 | `to_dict(include=[User.email, User.name])` and `to_dict(exclude=[User.name])` raise ValueError as written. The intended results are both names, and `email` alone. |
| Models.DictAsWritten | ndb.py:164-180 | `to_dict` as written, with list membership through `Property.__eq__` (Models.ContainsAsWritten). Whenever it does not raise, it returns what the intended `to_dict` (Models.DictOf) returns. Without include and exclude lists it is the intended `to_dict`. |
| Queries.FindName | ndb.py:252-255 | The attribute name of the property in the model, found by identity, exactly when the model declares it. |
| Queries.Query.constructor | ndb.py:240-243 | A new query holds the model, no filter and no sort order. |
| Queries.Query.AddFilter | ndb.py:249-259 | A filter on a declared property is bound to its name and appended, earlier filters untouched, and the query is returned. Otherwise it raises and nothing changes. |
| Queries.Query.Order | ndb.py:266-279 | Each argument's sort order is appended in turn, ascending for a bare property. On the first argument naming an undeclared property it raises, keeping the orders appended before it. |
| Queries.FirstUndeclared | ndb.py:266-279 | The position of the first sort-order argument whose property the model does not declare. |
| Queries.DescendingReversesAscending | ndb.py:444-449 | `-prop` orders instances exactly as `+prop` orders them that sort reversed. `+prop` and a bare property bind the same order. |
| Queries.Query.ApplyFilters | ndb.py:291-295 | `_apply_filters` is PassesAll: filters in order, the first rejection decides and the first exception propagates. |
| Queries.NewQuery | ndb.py:133-137 | `Model.query` succeeds exactly when every filter's property is declared. The new query holds the bound filters in order and no sort order. |
| Queries.Query.Iter | ndb.py:284-288 | The plain iterator when there is no sort order, the ordered one otherwise. The kind is created in the store when it is absent. The new iterator walks the kind's keys, each exactly once, from the first. |
| Queries.QueryIterator.constructor | ndb.py:301-303 | Opens the store's key iterator over the model's kind. The kind is created when it is absent, nothing else in the store changes, and the iterator lists each key of the kind once, starting at the first. |
| Queries.QueryIterator.Next | ndb.py:308-313 | The next instance, in key-snapshot order, that reads back and passes every filter. At the end of the keys, StopIteration. An error raised by `get_by_id` or a filter ends the call. |
| Queries.Scan | ndb.py:308-313 | One call of `next` always consumes at least one key when it yields or raises. |
| Queries.ScanFollowsMatching | ndb.py:308-313 | Successive calls of `next` yield the rows of Matching one by one, and end or raise exactly when Matching does. |
| Queries.MatchingCharacterized | ndb.py:291-313 | Unordered iteration yields exactly the instances of the kind that read back and pass every filter, in key order. It fails exactly when one cannot be read back or a filter raises on it. |
| Queries.NoFiltersYieldsAll | ndb.py:308-313 | Without filters a query yields every instance of the kind, in key order. |
| Queries.QueryOrderedIterator.Next | ndb.py:328-340 | The first call buffers the rows of Matching on the remaining keys and sorts them. The buffer is then a permutation of those rows, lexicographically sorted by the sort orders, and the first is yielded. An unreadable instance or a raising filter raises instead. The cursor is then just after the key that failed (FaultAt), and the next call buffers afresh from there. Mixed datetime keys raise after all keys are consumed. Later calls yield the rest in order. |
| Queries.QueryOrderedIterator.Collect | ndb.py:330-336 | The buffering loop collects the rows of Matching, as fresh instances, until StopIteration. On an error it stops with the cursor just after the first key that failed (FaultAt). |
| Queries.FaultAt | ndb.py:308-313 | The position just after the first key that cannot be read back or that a filter raises on, from a given position on. It is past that position whenever keys remain. |
| Queries.FaultAtFirstFailure | ndb.py:308-313 | When Matching fails, the key just before FaultAt fails, and every key before it reads back and passes the filters or is rejected without raising. |
| Queries.ScanKeepsFaultAt | ndb.py:308-313 | A call of `next` that yields keeps FaultAt unchanged. A call that raises leaves the cursor at FaultAt. |
| Queries.QueryOrderedIterator.SortBuffer | ndb.py:337-338 | The sorting loop computes SortPasses: one stable sort per order, last declared first. |
| Queries.QueryOrderedIterator.constructor | ndb.py:319-323 | Wraps a fresh plain iterator over the kind, created in the store when absent, with nothing buffered yet. |
| Queries.SortedItems | ndb.py:337-339 | The sorted buffer is a permutation of the collected instances whose rows are in lexicographic order. |
| Queries.SortedItemsFail | ndb.py:337-338 | Sorting the buffer raises TypeError exactly when some order's keys mix datetimes with other values. |
| Registry.Handle.SetDatastore | ndb.py:35-41 | Opening while a datastore is open raises and keeps the open one. Otherwise the given datastore becomes the open one. |
| Registry.Handle.CloseDatastore | ndb.py:44-49 | Afterwards no datastore is open. Closing twice is the same as closing once. |
| Registry.Handle.constructor | ndb.py:31 | The handle starts with no datastore open. |

## Left out

- JSON text. The payload is a record of values, not its `json.dumps` text. The double encoding of stored entries is not modelled.
- Properties.ToStored: DateTime values are integer clock ticks, not the float seconds since the epoch of `ndb.py:499` and `ndb.py:505`. The float round trip is not modelled.
- The wall clock is a parameter (`clock`) of `put` and `_to_dict_datastore`. It gives one reading per property, by name, because `DateTimeProperty._to_datastore` reads the clock itself (`ndb.py:495`). So two auto-populated timestamps of one write may differ. The readings are otherwise arbitrary: the model does not assume that the clock moves forward between properties or between writes.
- Models.Entity.Put: `generateKey` (time and random bytes) is any non-empty key the kind does not hold. A random key that collides is not modelled.
- `initDatastoreFromParams`, `log` and the module-load side effect are not modelled: they are argument parsing and output.
- The LevelDB, LMDB and BDB backends are not part of this model. They wrap foreign libraries. `get_kinds` exists only on the BDB backend.
- Threading and timing in the test suite are not modelled (concurrency and I/O).
- The validator is a predicate on values. The library ignores its return value and counts only an exception as a rejection, so "returns false" stands for "raises".
- Only None counts as empty (`Property.empty`). No subclass overrides it.
- `Model.kind` and `get_datastore` are not separate members. The kind is a field of the model class, and the datastore is passed explicitly, so the AttributeError on a missing datastore does not arise.
- `MemDatastore.close` does nothing, so closing the datastore affects only the handle.
- Iteration walks a snapshot of the kind's keys. The RuntimeError Python raises when a dictionary changes size during iteration is not modelled.
- Aliasing is not modelled, in three cases:
  - a property object reused under two attribute names;
  - a property named `key`, which clashes with the instance key;
  - `Query.filter` and `Query.order` writing `propertyName` into a filter or sort order object shared between queries.
- The `assert isinstance(...)` checks of `Query.filter` and `Query.order` are types in the model.
- NaN and floats compared with Python's float rules are not modelled: floats are exact reals.
- Strings are one type of character sequence. Python 2's split between `str` and `unicode` is not modelled, nor its decoding errors. `json.loads` reads strings back as unicode. Ordering a non-ASCII byte string against unicode raises UnicodeDecodeError, and `==` answers False with a warning. `json.dumps` rejects byte strings that are not UTF-8. So Values.Lt, Values.Le, Values.PyEq, Properties.StoredRoundTrip and Models.PutThenFetch hold in the model for such strings, where Python raises or reads back an unequal value.
- Filters.Apply: operand shapes that only a hand-built filter can have are not modelled. `Filter` is internal to the library and its builders never produce them. Python 2 orders a list against a non-datetime by type name, so `0 < [1]` is True and `"a" < [1]` is False; the model raises OperandMismatch for a list operand to `<`, `<=`, `>`, `>=` or `!=`. An `in` filter with a single string operand is a substring test in Python on a string field; the model raises OperandMismatch.
- After an error in buffering, the ordered iterator buffers afresh on its next call, from the key just after the one that failed (FaultAt in the contract of `QueryOrderedIterator.Next`). The library does the same, because `sortedObjectsIterator` is still None.
- `include` and `exclude` are lists of property objects, as the comment on `to_dict` says, not lists of attribute names. The model follows the code.

## Findings

| source | as written | input that shows it | evidently intended | confidence | as-written member | corrected member |
|---|---|---|---|---|---|---|
| ndb.py:168-173 | `prop not in include` and `prop in exclude` test list membership with `Property.__eq__`. That operator validates the list element against the property, and a Property object is never a valid value, so ValueError is raised. CPython skips `__eq__` only for the element that is the property itself. Membership therefore answers only for a property listed first or an empty list, and raises otherwise. | `User` with optional string properties `email` and `name`, no field set: `to_dict(include=[User.email, User.name])` raises ValueError when it reaches `name`; `to_dict(exclude=[User.name])` raises at `email` | membership by identity: the first returns both names bound to None, the second returns `email` alone | not executed | Models.ToDictIncludeRaises | Models.DictOfValues |
