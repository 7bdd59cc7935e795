/** Access by key: the first record with the key, and tables that act as maps. */
module LdbKeyed {
  import opened Bytes
  import opened Sequences
  import opened LdbFormat
  import opened LdbAppend
  import opened LdbMeta
  import opened LdbView
  import opened LdbRun

  /** The first item from `start` on with the key. */
  function FindItem(items: seq<Item>, start: nat, key: bytes): (r: Option<nat>)
    ensures r.Some? ==> start <= r.value < |items| && items[r.value].key == Some(key)
    ensures r.Some? ==> forall i :: start <= i < r.value ==> items[i].key != Some(key)
    ensures r.None? ==> forall i :: start <= i < |items| ==> items[i].key != Some(key)
    decreases |items| - start
  {
    if start >= |items| then None
    else if items[start].key == Some(key) then Some(start)
    else FindItem(items, start + 1, key)
  }

  datatype Entry = Entry(value: Option<bytes>, metadata: Option<bytes>)

  /** Every item has a key, and no two the same. */
  ghost predicate Keyed(items: seq<Item>) {
    && (forall i :: 0 <= i < |items| ==> items[i].key.Some?)
    && (forall i, j :: 0 <= i < j < |items| ==> items[i].key != items[j].key)
  }

  /** The map a keyed table stands for. */
  function AsMap(items: seq<Item>): map<bytes, Entry> {
    if items == [] then map[]
    else
      var last := items[|items| - 1];
      var m := AsMap(items[..|items| - 1]);
      if last.key.Some? then m[last.key.value := Entry(last.value, last.metadata)] else m
  }

  lemma {:induction false} AsMapIs(items: seq<Item>)
    requires Keyed(items)
    ensures forall i :: 0 <= i < |items| ==>
      items[i].key.value in AsMap(items) && AsMap(items)[items[i].key.value] == Entry(items[i].value, items[i].metadata)
    ensures forall k :: k in AsMap(items) ==> exists i :: 0 <= i < |items| && items[i].key == Some(k)
  {
    if items != [] {
      var init := items[..|items| - 1];
      assert forall i :: 0 <= i < |init| ==> init[i] == items[i];
      AsMapIs(init);
    }
  }

  /** The operation `Set` turns into: an append when the key is not found, else a SET of the record found. */
  function SetOp(name: bytes, items: seq<Item>, start: nat, key: bytes, value: Option<bytes>, metadata: Option<bytes>): Op {
    match FindItem(items, start, key)
    case None => Append(name, Some(key), value, metadata)
    case Some(i) => SetByIndex(name, i, Some(key), value, metadata)
  }

  /** The operation `Delete` turns into, if the key is found. */
  function DeleteOp(name: bytes, items: seq<Item>, start: nat, key: bytes): Option<Op> {
    match FindItem(items, start, key)
    case None => None
    case Some(i) => Some(DeleteByIndex(name, i))
  }

  /** What setting a key means for a map: NULL keeps what was there. */
  function MapSet(m: map<bytes, Entry>, key: bytes, value: Option<bytes>, metadata: Option<bytes>): map<bytes, Entry> {
    if key in m then
      m[key := Entry(if value.None? then m[key].value else value, if metadata.None? then m[key].metadata else metadata)]
    else m[key := Entry(value, metadata)]
  }

  /** Finding a key from index 0 is looking it up. */
  lemma FindIsLookup(items: seq<Item>, key: bytes)
    requires Keyed(items)
    ensures var r := FindItem(items, 0, key);
      && (r.Some? <==> key in AsMap(items))
      && (r.Some? ==> AsMap(items)[key] == Entry(items[r.value].value, items[r.value].metadata))
  {
    AsMapIs(items);
  }

  lemma ChangedKeyed(items: seq<Item>, i: nat, item: Item)
    requires Keyed(items) && i < |items| && item.key == items[i].key
    ensures Keyed(items[i := item])
  {
    var items' := items[i := item];
    assert forall j :: 0 <= j < |items| ==> items'[j].key == items[j].key;
  }

  lemma KeysDiffer(items: seq<Item>, i: nat, j: nat)
    requires Keyed(items) && i < |items| && j < |items| && i != j
    ensures items[i].key.Some? && items[j].key.Some? && items[i].key.value != items[j].key.value
  {
    if i < j {
      assert items[i].key != items[j].key;
    } else {
      assert items[j].key != items[i].key;
    }
  }

  lemma ChangedItem(items: seq<Item>, i: nat, item: Item)
    requires Keyed(items) && i < |items| && item.key == items[i].key
    ensures Keyed(items[i := item]) && item.key.Some?
    ensures AsMap(items[i := item]) == AsMap(items)[item.key.value := Entry(item.value, item.metadata)]
  {
    hide AsMap, Keyed;
    var items' := items[i := item];
    ChangedKeyed(items, i, item);
    AllHaveKeys(items);
    AsMapIs(items);
    AsMapIs(items');
    var a, b := AsMap(items'), AsMap(items)[item.key.value := Entry(item.value, item.metadata)];
    forall j: nat | j < |items| ensures items'[j].key == items[j].key && items[j].key.value in a && items[j].key.value in b && a[items[j].key.value] == b[items[j].key.value] {
      if j != i {
        KeysDiffer(items, i, j);
      }
    }
    forall k | k in a ensures k in b && a[k] == b[k] {
      var j: nat :| j < |items'| && items'[j].key == Some(k);
    }
    forall k | k in b ensures k in a {
      if k != item.key.value {
        var j: nat :| j < |items| && items[j].key == Some(k);
      }
    }
  }

  lemma AllHaveKeys(items: seq<Item>)
    requires Keyed(items)
    ensures forall i :: 0 <= i < |items| ==> items[i].key.Some?
  {
  }

  lemma AddedItem(items: seq<Item>, item: Item)
    requires Keyed(items) && item.key.Some? && forall i :: 0 <= i < |items| ==> items[i].key != item.key
    ensures Keyed(items + [item]) && AsMap(items + [item]) == AsMap(items)[item.key.value := Entry(item.value, item.metadata)]
  {
    assert (items + [item])[..|items|] == items;
  }

  lemma RemovedKeyed(items: seq<Item>, i: nat)
    requires Keyed(items) && i < |items|
    ensures Keyed(RemovedAt(items, i))
  {
    Removed(items, i);
    var items' := RemovedAt(items, i);
    forall j: nat, m: nat | j < m < |items'| ensures items'[j].key != items'[m].key {
      assert items[Before(i, j)].key != items[Before(i, m)].key;
    }
    forall j: nat | j < |items'| ensures items'[j].key.Some? {
      assert items'[j] == items[Before(i, j)];
    }
  }

  /** An item that stays has another key than the one removed. */
  lemma StayingItem(items: seq<Item>, i: nat, j: nat)
    requires Keyed(items) && i < |items| && j < |items| - 1
    ensures var m := Before(i, j); m < |items| && RemovedAt(items, i)[j] == items[m] && items[m].key.Some? && items[m].key.value != items[i].key.value
  {
    Removed(items, i);
    var m := Before(i, j);
    if m < i {
      assert items[m].key != items[i].key;
    } else {
      assert items[i].key != items[m].key;
    }
  }

  lemma RemovedItem(items: seq<Item>, i: nat)
    requires Keyed(items) && i < |items|
    ensures Keyed(RemovedAt(items, i)) && AsMap(RemovedAt(items, i)) == AsMap(items) - {items[i].key.value}
  {
    hide AsMap, RemovedAt;
    RemovedKeyed(items, i);
    var a, b := AsMap(RemovedAt(items, i)), AsMap(items) - {items[i].key.value};
    forall k | k in a ensures k in b && a[k] == b[k] {
      RemovedEntry(items, i, k);
    }
    forall k | k in b ensures k in a {
      StayingEntry(items, i, k);
    }
  }

  lemma RemovedEntry(items: seq<Item>, i: nat, k: bytes)
    requires Keyed(items) && i < |items| && Keyed(RemovedAt(items, i)) && k in AsMap(RemovedAt(items, i))
    ensures k in AsMap(items) && k != items[i].key.value && AsMap(items)[k] == AsMap(RemovedAt(items, i))[k]
  {
    AsMapIs(items);
    AsMapIs(RemovedAt(items, i));
    var j: nat :| j < |items| - 1 && RemovedAt(items, i)[j].key == Some(k);
    StayingItem(items, i, j);
  }

  lemma StayingEntry(items: seq<Item>, i: nat, k: bytes)
    requires Keyed(items) && i < |items| && Keyed(RemovedAt(items, i)) && k in AsMap(items) && k != items[i].key.value
    ensures k in AsMap(RemovedAt(items, i))
  {
    hide AsMap, RemovedAt;
    AsMapIs(items);
    AsMapIs(RemovedAt(items, i));
    Removed(items, i);
    var m: nat :| m < |items| && items[m].key == Some(k);
    var j: nat := if m < i then m else m - 1;
    assert Before(i, j) == m;
  }

  /** A keyed table stays keyed under `Set` from index 0, and the map changes as a map should. */
  lemma SetRefinesMap(name: bytes, v: Contents, key: bytes, value: Option<bytes>, metadata: Option<bytes>)
    requires name in v && Keyed(v[name])
    ensures var v' := Spec(v, SetOp(name, v[name], 0, key, value, metadata));
      && v'.Keys == v.Keys && (forall n :: n in v && n != name ==> v'[n] == v[n])
      && Keyed(v'[name]) && AsMap(v'[name]) == MapSet(AsMap(v[name]), key, value, metadata)
  {
    hide AsMap;
    var items := v[name];
    FindIsLookup(items, key);
    match FindItem(items, 0, key)
    case None =>
      AddedItem(items, Item(Some(key), value, metadata));
    case Some(i) =>
      var q := Request(OPERATION_SET, i, Some(key), value, metadata);
      ChangedItem(items, i, Merged(items[i], q));
  }

  /** `Delete` from index 0 removes the key from the map, or changes nothing when it is not there. */
  lemma DeleteRefinesMap(name: bytes, v: Contents, key: bytes)
    requires name in v && Keyed(v[name])
    ensures var op := DeleteOp(name, v[name], 0, key);
      && (op.None? <==> key !in AsMap(v[name]))
      && (op.Some? ==>
            var v' := Spec(v, op.value);
            && v'.Keys == v.Keys && (forall n :: n in v && n != name ==> v'[n] == v[n])
            && Keyed(v'[name]) && AsMap(v'[name]) == AsMap(v[name]) - {key})
  {
    FindIsLookup(v[name], key);
    match FindItem(v[name], 0, key)
    case None =>
    case Some(i) =>
      RemovedItem(v[name], i);
      assert RemovedAt(v[name], i) == v[name][..i] + v[name][i + 1..];
  }

  /** `ClearAllRecords` empties the map. */
  lemma ClearRefinesMap(name: bytes, v: Contents)
    requires name in v
    ensures var v' := Spec(v, ClearAllRecords(name)); Keyed(v'[name]) && AsMap(v'[name]) == map[]
  {
  }

  /** A call of a keyed operation from index 0. */
  datatype KeyedCall = KeySet(key: bytes, value: Option<bytes>, metadata: Option<bytes>) | KeyDelete(key: bytes) | KeyClear

  function KeyedStep(name: bytes, v: Contents, call: KeyedCall): Contents
    requires name in v
  {
    match call
    case KeySet(key, value, metadata) => Spec(v, SetOp(name, v[name], 0, key, value, metadata))
    case KeyDelete(key) => (match DeleteOp(name, v[name], 0, key) case None => v case Some(op) => Spec(v, op))
    case KeyClear => Spec(v, ClearAllRecords(name))
  }

  function MapStep(m: map<bytes, Entry>, call: KeyedCall): map<bytes, Entry> {
    match call
    case KeySet(key, value, metadata) => MapSet(m, key, value, metadata)
    case KeyDelete(key) => m - {key}
    case KeyClear => map[]
  }

  function MapRun(calls: seq<KeyedCall>): map<bytes, Entry> {
    if calls == [] then map[] else MapStep(MapRun(calls[..|calls| - 1]), calls[|calls| - 1])
  }

  /** The contents after keyed calls on a table that was just created. */
  ghost predicate KeyedRun(name: bytes, calls: seq<KeyedCall>, states: seq<Contents>) {
    && |states| == |calls| + 1
    && name in states[0] && states[0][name] == []
    && forall n {:trigger calls[n]} :: 0 <= n < |calls| ==> name in states[n] && states[n + 1] == KeyedStep(name, states[n], calls[n])
  }

  lemma KeyedStepRefines(name: bytes, v: Contents, call: KeyedCall)
    requires name in v && Keyed(v[name])
    ensures var v' := KeyedStep(name, v, call);
      name in v' && Keyed(v'[name]) && AsMap(v'[name]) == MapStep(AsMap(v[name]), call)
  {
    match call
    case KeySet(key, value, metadata) => SetRefinesMap(name, v, key, value, metadata);
    case KeyDelete(key) =>
      DeleteRefinesMap(name, v, key);
      if key !in AsMap(v[name]) {
        assert AsMap(v[name]) - {key} == AsMap(v[name]);
      }
    case KeyClear => ClearRefinesMap(name, v);
  }

  /** A table driven only by keyed calls is a map throughout. */
  lemma {:induction false} KeyedRunRefines(name: bytes, calls: seq<KeyedCall>, states: seq<Contents>, n: nat)
    requires KeyedRun(name, calls, states) && n <= |calls|
    ensures name in states[n] && Keyed(states[n][name]) && AsMap(states[n][name]) == MapRun(calls[..n])
  {
    if n == 0 {
      assert calls[..0] == [];
    } else {
      KeyedRunRefines(name, calls, states, n - 1);
      var call := calls[n - 1];
      assert states[n] == KeyedStep(name, states[n - 1], call);
      KeyedStepRefines(name, states[n - 1], call);
      assert calls[..n][..n - 1] == calls[..n - 1];
    }
  }
}
