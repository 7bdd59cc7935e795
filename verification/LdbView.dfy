/** What a database means to its callers, and how each kind of request changes it. */
module LdbView {
  import opened Bytes
  import opened Sequences
  import opened LdbFormat
  import opened LdbLoad
  import opened LdbAppend
  import opened LdbTable
  import opened LdbStore
  import opened LdbAppended
  import opened LdbCommit
  import opened LdbUser
  import opened LdbMeta

  // ----- What a database means -----

  /** One record as a caller sees it; NULL fields are None. */
  datatype Item = Item(key: Option<bytes>, value: Option<bytes>, metadata: Option<bytes>)

  type Contents = map<bytes, seq<Item>>

  function ViewField(d: bytes, f: Field): Option<bytes> {
    if f.offset == 0 then None else Some(FieldBytes(d, f))
  }

  function ViewRecord(d: bytes, r: LogRecord): Item {
    Item(ViewField(d, r.key), ViewField(d, r.value), ViewField(d, r.metadata))
  }

  function ViewRecords(d: bytes, records: seq<LogRecord>): (items: seq<Item>)
    ensures |items| == |records|
  {
    seq(|records|, a requires 0 <= a < |records| => ViewRecord(d, records[a]))
  }

  /** The contents of all named tables. */
  function ViewTables(d: bytes, tables: seq<TableInfo>): Contents {
    if |tables| <= 1 then map[]
    else
      var last := tables[|tables| - 1];
      ViewTables(d, tables[..|tables| - 1])[last.name := ViewRecords(d, last.records)]
  }

  function View(s: Store): Contents {
    ViewTables(s.disk, s.tables)
  }

  /** What a request means for the items of a table. */
  function SpecRequest(items: seq<Item>, q: Request): seq<Item> {
    var item := Item(q.key, q.value, q.metadata);
    if q.operation == OPERATION_APPEND then items + [item]
    else if q.operation == OPERATION_SET then
      if q.index < |items| then items[q.index := Merged(items[q.index], q)] else items
    else if q.operation == OPERATION_INSERT then
      if q.index < |items| || q.index == 0 then items[..q.index] + [item] + items[q.index..] else items
    else if q.operation == OPERATION_DELETE then
      if q.index < |items| then items[..q.index] + items[q.index + 1..] else items
    else []
  }

  /** A SET replaces the fields passed and keeps the others. */
  function Merged(was: Item, q: Request): Item {
    Item(if q.key.None? then was.key else q.key,
         if q.value.None? then was.value else q.value,
         if q.metadata.None? then was.metadata else q.metadata)
  }

  lemma {:induction false} ViewIs(d: bytes, tables: seq<TableInfo>)
    requires NamesDistinct(tables)
    ensures forall i :: 1 <= i < |tables| ==>
      tables[i].name in ViewTables(d, tables) && ViewTables(d, tables)[tables[i].name] == ViewRecords(d, tables[i].records)
    ensures forall n :: n in ViewTables(d, tables) ==> exists i :: 1 <= i < |tables| && tables[i].name == n
  {
    if |tables| > 1 {
      var init := tables[..|tables| - 1];
      assert forall i :: 0 <= i < |init| ==> init[i] == tables[i];
      ViewIs(d, init);
    }
  }

  // ----- Requests and what they mean -----

  lemma ItemMade(d: bytes, records: seq<LogRecord>, q: Request, record: LogRecord, lo: nat)
    requires FieldsMade(d, record, q, records, lo) && 0 < lo && RequestOk(q, |records|)
    ensures q.operation == OPERATION_SET ==> ViewRecord(d, record) == Merged(ViewRecord(d, records[q.index]), q)
    ensures q.operation != OPERATION_SET ==> ViewRecord(d, record) == Item(q.key, q.value, q.metadata)
  {
    FieldSeen(d, record.key, q.key, Kept(q, records, 0), lo);
    FieldSeen(d, record.value, q.value, Kept(q, records, 1), lo + Length(q.key));
    FieldSeen(d, record.metadata, q.metadata, Kept(q, records, 2), lo + Length(q.key) + Length(q.value));
  }

  lemma FieldSeen(d: bytes, f: Field, data: Option<bytes>, kept: Field, at: nat)
    requires FieldMade(d, f, data, kept, at) && 0 < at
    ensures ViewField(d, f) == if data.None? then ViewField(d, kept) else data
  {
  }

  /** Replaying a record on records is carrying out the request on items. */
  lemma ViewReplayed(d: bytes, records: seq<LogRecord>, record: LogRecord, q: Request)
    requires RequestOk(q, |records|) && record.operation == q.operation && record.index == q.index
    requires q.operation == OPERATION_SET ==> ViewRecord(d, record) == Merged(ViewRecord(d, records[q.index]), q)
    requires q.operation != OPERATION_SET ==> ViewRecord(d, record) == Item(q.key, q.value, q.metadata)
    ensures ViewRecords(d, ReplayRecord(records, record)) == SpecRequest(ViewRecords(d, records), q)
  {
    var a, b := ViewRecords(d, ReplayRecord(records, record)), SpecRequest(ViewRecords(d, records), q);
    assert |a| == |b|;
    forall i | 0 <= i < |a| ensures a[i] == b[i] {
    }
  }

  /** Records of tables other than the metatable are seen as before when the data is the same. */
  lemma ViewKept(d: bytes, d': bytes, tables: seq<TableInfo>, i: nat)
    requires SameData(d, d', tables) && 1 <= i < |tables|
    ensures ViewRecords(d, tables[i].records) == ViewRecords(d', tables[i].records)
  {
    forall a | 0 <= a < |tables[i].records| ensures ViewRecord(d, tables[i].records[a]) == ViewRecord(d', tables[i].records[a]) {
      assert IsData(tables, i, a, 0) && DataAt(tables, i, a, 0) == tables[i].records[a].key;
      assert IsData(tables, i, a, 1) && DataAt(tables, i, a, 1) == tables[i].records[a].value;
      assert IsData(tables, i, a, 2) && DataAt(tables, i, a, 2) == tables[i].records[a].metadata;
    }
  }

  lemma ItemsAfter(d: bytes, d': bytes, records: seq<LogRecord>, q: Request, record: LogRecord, lo: nat)
    requires FieldsMade(d', record, q, records, lo) && 0 < lo && RequestOk(q, |records|)
    requires record.operation == q.operation && record.index == q.index
    requires ViewRecords(d, records) == ViewRecords(d', records)
    ensures ViewRecords(d', ReplayRecord(records, record)) == SpecRequest(ViewRecords(d, records), q)
  {
    ItemMade(d', records, q, record, lo);
    ViewReplayed(d', records, record, q);
  }

  /** The items of the table after a request on it. */
  lemma RequestItems(cfg: Config, s: Store, lay: Layout, t: nat, q: Request, d': bytes)
    requires Inv(s, lay) && Possible(cfg, s, t, q) && 1 <= t && Done(cfg, s, lay, t, q, d') && SameData(s.disk, d', s.tables)
    ensures ViewRecords(d', TableAfter(s.tables[t], s.next, RequestRecord(cfg, s, t, q)).records)
         == SpecRequest(ViewRecords(s.disk, s.tables[t].records), q)
  {
    hide FieldsMade, Kept, FieldFor;
    InvSized(s, lay);
    DoneFields(cfg, s, lay, t, q, d');
    NewRecordIs(cfg, |s.disk|, s.next, s.tables[t], NextId(s), q);
    ViewKept(s.disk, d', s.tables, t);
    ItemsAfter(s.disk, d', s.tables[t].records, q, RequestRecord(cfg, s, t, q), Top(s.next, s.tables[t].last));
  }

  // ----- The contents after each kind of step -----

  /** Changing one table changes one entry. */
  lemma ViewChanged(d: bytes, d': bytes, tables: seq<TableInfo>, t: nat, t': TableInfo)
    requires NamesDistinct(tables) && SameData(d, d', tables) && 1 <= t < |tables| && t'.name == tables[t].name
    ensures ViewTables(d', tables[t := t']) == ViewTables(d, tables)[tables[t].name := ViewRecords(d', t'.records)]
  {
    hide ViewTables, ViewRecords, NamesDistinct, SameData;
    var tables' := tables[t := t'];
    NamesKept(tables, t, t');
    ViewIs(d, tables);
    ViewIs(d', tables');
    var a, b := ViewTables(d', tables'), ViewTables(d, tables)[tables[t].name := ViewRecords(d', t'.records)];
    forall i: nat | 1 <= i < |tables| ensures tables'[i].name == tables[i].name && tables[i].name in a && tables[i].name in b && a[tables[i].name] == b[tables[i].name] {
      assert tables'[i].name in a && a[tables'[i].name] == ViewRecords(d', tables'[i].records);
      if i != t {
        NamesDiffer(tables, i, t);
        ViewKept(d, d', tables, i);
      }
    }
    forall n | n in a ensures n in b && a[n] == b[n] {
      var i :| 1 <= i < |tables'| && tables'[i].name == n;
      assert tables[i].name == n;
    }
    forall n | n in b ensures n in a {
      if n != tables[t].name {
        var i :| 1 <= i < |tables| && tables[i].name == n;
      } else {
        assert tables[t].name in a;
      }
    }
  }

  /** Changing the metatable alone changes no contents. */
  lemma {:induction false} ViewSame(d: bytes, d': bytes, tables: seq<TableInfo>, tables': seq<TableInfo>)
    requires |tables| == |tables'|
    requires forall i :: 1 <= i < |tables| ==> tables'[i].name == tables[i].name && ViewRecords(d', tables'[i].records) == ViewRecords(d, tables[i].records)
    ensures ViewTables(d', tables') == ViewTables(d, tables)
  {
    if |tables| > 1 {
      var init, init' := tables[..|tables| - 1], tables'[..|tables| - 1];
      assert forall i :: 0 <= i < |init| ==> init[i] == tables[i] && init'[i] == tables'[i];
      ViewSame(d, d', init, init');
    }
  }

  lemma ViewCreated(d: bytes, d': bytes, tables: seq<TableInfo>, meta': TableInfo, t: TableInfo)
    requires SameData(d, d', tables) && tables != [] && t.records == []
    ensures ViewTables(d', tables[0 := meta'] + [t]) == ViewTables(d, tables)[t.name := []]
  {
    var tables' := tables[0 := meta'];
    forall i: nat | 1 <= i < |tables| ensures ViewRecords(d', tables'[i].records) == ViewRecords(d, tables[i].records) {
      ViewKept(d, d', tables, i);
    }
    ViewSame(d, d', tables, tables');
    assert (tables' + [t])[..|tables'|] == tables';
    assert ViewRecords(d', t.records) == [];
  }

  lemma NamesDiffer(tables: seq<TableInfo>, j: nat, k: nat)
    requires NamesDistinct(tables) && 1 <= j < |tables| && 1 <= k < |tables| && j != k
    ensures tables[j].name != tables[k].name
  {
    if j < k {
      assert tables[j].name != tables[k].name;
    } else {
      assert tables[k].name != tables[j].name;
    }
  }

  lemma ViewDeleted(d: bytes, d': bytes, tables: seq<TableInfo>, meta': TableInfo, k: nat)
    requires SameData(d, d', tables) && NamesDistinct(tables) && 1 <= k < |tables|
    ensures ViewTables(d', RemovedAt(tables[0 := meta'], k)) == ViewTables(d, tables) - {tables[k].name}
  {
    hide ViewTables, RemovedAt, ViewRecords, NamesDistinct, SameData;
    var tables' := RemovedAt(tables[0 := meta'], k);
    Removed(tables[0 := meta'], k);
    NamesRemoved(tables, meta', k);
    ViewIs(d, tables);
    ViewIs(d', tables');
    var a, b := ViewTables(d', tables'), ViewTables(d, tables) - {tables[k].name};
    forall i: nat | 1 <= i < |tables'| ensures tables'[i].name in a && tables'[i].name in b && a[tables'[i].name] == b[tables'[i].name] {
      var j := Before(k, i);
      assert tables'[i] == tables[j];
      ViewKept(d, d', tables, j);
      NamesDiffer(tables, j, k);
      assert tables[j].name in ViewTables(d, tables);
    }
    forall n | n in a ensures n in b && a[n] == b[n] {
      var i: nat :| 1 <= i < |tables'| && tables'[i].name == n;
    }
    forall n | n in b ensures n in a {
      var j :| 1 <= j < |tables| && tables[j].name == n;
      var i: nat := if j < k then j else j - 1;
      assert j != k && Before(k, i) == j && tables'[i] == tables[j];
    }
  }
}
