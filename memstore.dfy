/** The in-memory reference datastore (ndb_datastore.py, MemDatastore and MemDatastoreIterator):
    a dictionary from kind to a dictionary from key to the stored value. */
module MemStore {
  import opened Results

  predicate Distinct(s: seq<string>) {
    forall i, j :: 0 <= i < j < |s| ==> s[i] != s[j]
  }

  /** The entry stored under (kind, key), if any. */
  function Lookup<V>(data: map<string, map<string, V>>, kind: string, key: string): Option<V> {
    if kind in data && key in data[kind] then Some(data[kind][key]) else None
  }

  /** The contents after set(kind, key, value). */
  function AfterSet<V>(data: map<string, map<string, V>>, kind: string, key: string, value: V)
    : map<string, map<string, V>>
  {
    data[kind := (if kind in data then data[kind] else map[])[key := value]]
  }

  /** The contents after delete(kind, key): an absent kind is left absent. */
  function AfterDelete<V>(data: map<string, map<string, V>>, kind: string, key: string)
    : map<string, map<string, V>>
  {
    if kind in data then data[kind := data[kind] - {key}] else data
  }

  /** After set(kind, key, v), get(kind, key) returns v and every other entry reads as before. */
  lemma SetThenGet<V>(data: map<string, map<string, V>>, kind: string, key: string, value: V, k: string, j: string)
    ensures Lookup(AfterSet(data, kind, key, value), k, j)
            == if k == kind && j == key then Some(value) else Lookup(data, k, j)
  {
  }

  /** After delete(kind, key), get(kind, key) returns None and every other entry reads as before. */
  lemma DeleteThenGet<V>(data: map<string, map<string, V>>, kind: string, key: string, k: string, j: string)
    ensures Lookup(AfterDelete(data, kind, key), k, j)
            == if k == kind && j == key then None else Lookup(data, k, j)
  {
  }

  class MemDatastore<V> {
    var data: map<string, map<string, V>>

    constructor ()
      ensures data == map[]
    {
      data := map[];
    }

    /** Inserts or overwrites the entry (kind, key), creating the kind's dictionary when it is missing. */
    method Set(kind: string, key: string, value: V)
      modifies this
      ensures data == AfterSet(old(data), kind, key, value)
    {
      if kind !in data {
        data := data[kind := map[]];
      }
      data := data[kind := data[kind][key := value]];
    }

    /** The stored value, or None when the kind or the key is absent. */
    function Get(kind: string, key: string): (r: Option<V>)
      reads this
      ensures r.Some? <==> kind in data && key in data[kind]
      ensures r.Some? ==> r.value == data[kind][key]
      ensures r == Lookup(data, kind, key)
    {
      if kind !in data then None
      else if key !in data[kind] then None
      else Some(data[kind][key])
    }

    /** Removes the entry (kind, key); an absent kind or key is left alone. The kind's
        dictionary stays even when it becomes empty. */
    method Delete(kind: string, key: string)
      modifies this
      ensures data == AfterDelete(old(data), kind, key)
    {
      if kind !in data {
        return;
      }
      if key !in data[kind] {
        assert data[kind] - {key} == data[kind];
        return;
      }
      data := data[kind := data[kind] - {key}];
    }

    /** Iterates over the keys of a kind, first creating an empty dictionary for an absent kind. */
    method Iter(kind: string) returns (it: MemDatastoreIterator<V>)
      modifies this
      ensures data == if kind in old(data) then old(data) else old(data)[kind := map[]]
      ensures fresh(it) && it.store == this && it.kind == kind && it.pos == 0
      ensures Distinct(it.keys) && (forall k :: k in it.keys <==> k in data[kind])
      ensures |it.keys| == |data[kind]|
    {
      if kind !in data {
        data := data[kind := map[]];
      }
      var keys := EnumerateKeys(data[kind].Keys);
      it := new MemDatastoreIterator(this, kind, keys);
    }
  }

  /** The order in which iterating a dictionary visits its keys: every key once, in an order
      the model leaves open. */
  method EnumerateKeys(keys: set<string>) returns (order: seq<string>)
    ensures Distinct(order)
    ensures forall k :: k in order <==> k in keys
    ensures |order| == |keys|
  {
    order := [];
    var remaining := keys;
    while remaining != {}
      invariant Distinct(order)
      invariant forall k :: k in keys <==> k in order || k in remaining
      invariant forall k :: k in order ==> k !in remaining
      invariant |order| + |remaining| == |keys|
      decreases |remaining|
    {
      var k :| k in remaining;
      order := order + [k];
      remaining := remaining - {k};
    }
  }

  /** Iterates over a snapshot of one kind's keys. */
  class MemDatastoreIterator<V> {
    const store: MemDatastore<V>
    const kind: string
    const keys: seq<string>
    var pos: nat

    constructor (store: MemDatastore<V>, kind: string, keys: seq<string>)
      ensures this.store == store && this.kind == kind && this.keys == keys && pos == 0
    {
      this.store := store;
      this.kind := kind;
      this.keys := keys;
      pos := 0;
    }

    /** The next key, or None (StopIteration) once every key has been visited. */
    method Next() returns (r: Option<string>)
      modifies this
      ensures old(pos) < |keys| ==> r == Some(keys[old(pos)]) && pos == old(pos) + 1
      ensures old(pos) >= |keys| ==> r == None && pos == old(pos)
    {
      if pos < |keys| {
        r := Some(keys[pos]);
        pos := pos + 1;
      } else {
        r := None;
      }
    }
  }

  /** A set of keys never holds every non-empty string: a generated key can always be new. */
  lemma FreshKeyExists(keys: set<string>)
    ensures exists k :: k != "" && k !in keys
  {
    var n := LengthBound(keys);
    var k := seq(n + 1, _ => 'k');
    assert |k| == n + 1;
    assert k != "" && k !in keys;
  }

  lemma {:induction false} LengthBound(keys: set<string>) returns (n: nat)
    ensures forall k :: k in keys ==> |k| < n
    decreases |keys|
  {
    if keys == {} {
      n := 0;
    } else {
      var k :| k in keys;
      var m := LengthBound(keys - {k});
      n := if |k| + 1 > m then |k| + 1 else m;
    }
  }
}
