/** Creating and deleting tables: requests on the metatable. */
module LdbMeta {
  import opened Bytes
  import opened Sequences
  import opened Disk
  import opened LdbFormat
  import opened LdbLoad
  import opened LdbAppend
  import opened LdbTable
  import opened LdbStore
  import opened LdbAppended
  import opened LdbCommit
  import opened LdbUser

  /** The first block of a new table, as `CreateTable` hands it to the metatable as a value. */
  const EMPTY_BLOCK: bytes := EncodeHeader(BlockHeader(BLOCK_SIZE, 0, 0)) + Fill(BLOCK_SIZE - BLOCK_HEADER_SIZE, UNINITIALIZED_BYTE)

  function CreateRequest(count: nat, name: bytes): Request {
    Request(OPERATION_APPEND, count % WORD_LIMIT, Some(name), Some(EMPTY_BLOCK), None)
  }

  function DeleteRequest(index: nat): Request {
    Request(OPERATION_DELETE, index, None, None, None)
  }

  // ----- Creating -----

  /** Where the first block of a new table goes. */
  function NewRoot(s: Store, name: bytes): nat
    requires |s.tables| > 0
  {
    Top(s.next, s.tables[0].last) + |name|
  }

  function NewTable(s: Store, name: bytes): TableInfo
    requires |s.tables| > 0
  {
    TableInfo(name, HeaderInfo(BlockHeader(BLOCK_SIZE, 0, 0), NewRoot(s, name)), [])
  }

  /** The database after `CreateTable` of a name it does not have. */
  function AfterCreate(cfg: Config, s: Store, name: bytes): Store
    requires |s.tables| > 0 && Possible(cfg, s, 0, CreateRequest(|s.tables[0].records|, name))
  {
    var r := AfterRequest(cfg, s, 0, CreateRequest(|s.tables[0].records|, name));
    r.(tables := r.tables + [NewTable(s, name)])
  }

  function LayoutCreated(s: Store, lay: Layout, name: bytes): Layout
    requires |lay| == |s.tables| > 0
  {
    LayoutAfter(s, lay, 0) + [[NewRoot(s, name)]]
  }

  lemma EmptyBlockLoads(d: bytes, f: Field, at: nat, name: bytes)
    requires f.offset == at && Stored(d, f, EMPTY_BLOCK)
    ensures TableOk(d, [at], TableInfo(name, HeaderInfo(BlockHeader(BLOCK_SIZE, 0, 0), at), []))
    ensures Log(d, [at]) == []
  {
    assert d[at..at + BLOCK_HEADER_SIZE] == d[at..at + BLOCK_SIZE][..BLOCK_HEADER_SIZE] == EncodeHeader(BlockHeader(BLOCK_SIZE, 0, 0));
    HeaderRoundTrip(BlockHeader(BLOCK_SIZE, 0, 0), d, at);
    assert BlockLog(d, at) == [];
    assert Log(d, []) == [];
    assert [at][..0] == [];
  }

  /** Tables, logs and blocks after a new table has been added at the end. */
  lemma TablesExtended(d: bytes, next: nat, tables: seq<TableInfo>, lay: Layout, t: TableInfo, root: nat, below: nat)
    requires Has(OfBlocks, d, next, tables, lay)
    requires TableOk(d, [root], t) && Log(d, [root]) == [] && root + BLOCK_SIZE <= next && ROOT <= root
    requires forall i :: 0 <= i < |lay| ==> Below(lay[i], below)
    requires below <= root
    ensures Has(OfBlocks, d, next, tables + [t], lay + [[root]])
  {
    hide HeaderAt, Log, Replay, BlocksOk, ChainsApart, LogCovered, LogBelow, Below;
    OpenBlocks(d, next, tables, lay);
    OneMoreChain(lay, root, below);
    assert AllTables(d, next, tables + [t], lay + [[root]]) by {
      assert Below([root], next) by {
        RootBelow(root, next);
      }
    }
    EmptyLogIsFine(next);
    CloseBlocks(d, next, tables + [t], lay + [[root]]);
  }

  lemma RootBelow(root: nat, next: nat)
    requires root + BLOCK_SIZE <= next
    ensures Below([root], next)
  {
  }

  lemma EmptyLogIsFine(next: nat)
    ensures LogCovered([]) && LogBelow([], next)
  {
  }

  lemma OneMoreChain(lay: Layout, root: nat, below: nat)
    requires ChainsApart(lay) && below <= root && forall i :: 0 <= i < |lay| ==> Below(lay[i], below)
    ensures ChainsApart(lay + [[root]])
  {
    var lay' := lay + [[root]];
    forall i, j | 0 <= i < j < |lay'| ensures ChainApart(lay'[i], lay'[j]) {
      if j < |lay| {
        assert ChainApart(lay[i], lay[j]);
      } else {
        assert Below(lay[i], below);
      }
    }
  }

  lemma RootedCreated(s: Store, lay: Layout, d': bytes, meta': TableInfo, name: bytes, record: LogRecord)
    requires Rooted(s.disk, s.tables, lay) && SameData(s.disk, d', s.tables) && |s.disk| <= |d'|
    requires meta'.name == s.tables[0].name && meta'.records == s.tables[0].records + [record]
    requires record.key.offset > 0 && FieldEnd(record.key) <= |d'| && FieldBytes(d', record.key) == name
    requires record.value.offset == NewRoot(s, name) && record.value.size == BLOCK_SIZE && record.metadata == NULL_FIELD
    ensures Rooted(d', s.tables[0 := meta'] + [NewTable(s, name)], LayoutCreated(s, lay, name))
  {
    var tables', lay' := s.tables[0 := meta'] + [NewTable(s, name)], LayoutCreated(s, lay, name);
    assert lay'[0][0] == lay[0][0];
    forall a | 0 <= a < |tables'[0].records| ensures Roots(d', tables', lay', a) {
      if a < |s.tables[0].records| {
        assert Roots(s.disk, s.tables, lay, a);
        assert IsData(s.tables, 0, a, 0) && DataAt(s.tables, 0, a, 0) == s.tables[0].records[a].key;
        assert meta'.records[a] == s.tables[0].records[a];
      } else {
        assert meta'.records[a] == record;
      }
    }
  }

  /** A table without records adds no data. */
  lemma DataExtended(tables: seq<TableInfo>, t: TableInfo)
    requires t.records == []
    ensures forall i: nat, a: nat, x: nat :: IsData(tables + [t], i, a, x) <==> IsData(tables, i, a, x)
    ensures forall i: nat, a: nat, x: nat :: IsData(tables, i, a, x) ==> DataAt(tables + [t], i, a, x) == DataAt(tables, i, a, x)
  {
  }

  lemma FieldsExtended(d: bytes, next: nat, tables: seq<TableInfo>, lay: Layout, t: TableInfo, root: nat)
    requires Has(OfData, d, next, tables, lay) && t.records == []
    requires forall i: nat, a: nat, x: nat :: IsData(tables, i, a, x) ==> FieldEnd(DataAt(tables, i, a, x)) <= root
    ensures Has(OfData, d, next, tables + [t], lay + [[root]])
  {
    OpenData(d, next, tables, lay);
    DataExtended(tables, t);
    var tables', lay' := tables + [t], lay + [[root]];
    forall i: nat, a: nat, x: nat, j: nat | IsData(tables', i, a, x) && j < |lay'|
      ensures OffChain(DataAt(tables', i, a, x), lay'[j])
    {
      assert IsData(tables, i, a, x);
      if j < |lay| {
        assert OffChain(DataAt(tables, i, a, x), lay[j]);
      }
    }
    CloseData(d, next, tables', lay');
  }

  /** After the metatable record of a new table, all data ends where the first block of the table starts. */
  lemma DataBelowRoot(cfg: Config, s: Store, lay: Layout, name: bytes, d': bytes)
    requires Inv(s, lay) && Possible(cfg, s, 0, CreateRequest(|s.tables[0].records|, name))
    requires Done(cfg, s, lay, 0, CreateRequest(|s.tables[0].records|, name), d')
    ensures var q := CreateRequest(|s.tables[0].records|, name);
      var tables' := s.tables[0 := TableAfter(s.tables[0], s.next, RequestRecord(cfg, s, 0, q))];
      forall i: nat, a: nat, x: nat :: IsData(tables', i, a, x) ==> FieldEnd(DataAt(tables', i, a, x)) <= NewRoot(s, name)
  {
    InvData(s, lay);
    DoneFields(cfg, s, lay, 0, CreateRequest(|s.tables[0].records|, name), d');
    var q := CreateRequest(|s.tables[0].records|, name);
    var meta, record := s.tables[0], RequestRecord(cfg, s, 0, q);
    var tables' := s.tables[0 := TableAfter(meta, s.next, record)];
    NewRecordIs(cfg, |s.disk|, s.next, meta, NextId(s), q);
    forall i: nat, a: nat, x: nat | IsData(tables', i, a, x)
      ensures FieldEnd(DataAt(tables', i, a, x)) <= NewRoot(s, name)
    {
      if i == 0 && a == |meta.records| {
        assert tables'[0].records[a] == record;
      } else {
        assert IsData(s.tables, i, a, x) && DataAt(tables', i, a, x) == DataAt(s.tables, i, a, x);
        assert FieldOk(s.disk, s.next, DataAt(s.tables, i, a, x));
      }
    }
  }

  lemma LayoutBelowTop(s: Store, lay: Layout)
    requires AllTables(s.disk, s.next, s.tables, lay) && |lay| > 0
    ensures forall i :: 0 <= i < |lay| ==> Below(LayoutAfter(s, lay, 0)[i], Top(s.next, s.tables[0].last))
  {
    hide HeaderAt, Log, Replay;
    assert TableOk(s.disk, lay[0], s.tables[0]);
    assert BlockOk(HeaderAt(s.disk, lay[0][|lay[0]| - 1]));
  }

  /** The request to create a table has been carried out. */
  ghost predicate Created(cfg: Config, s: Store, lay: Layout, name: bytes, d': bytes) {
    && Inv(s, lay) && Possible(cfg, s, 0, CreateRequest(|s.tables[0].records|, name))
    && Done(cfg, s, lay, 0, CreateRequest(|s.tables[0].records|, name), d')
  }

  function MetaAfterCreate(cfg: Config, s: Store, name: bytes): TableInfo
    requires |s.tables| > 0 && Possible(cfg, s, 0, CreateRequest(|s.tables[0].records|, name))
  {
    TableAfter(s.tables[0], s.next, RequestRecord(cfg, s, 0, CreateRequest(|s.tables[0].records|, name)))
  }

  lemma NewTableLoads(cfg: Config, s: Store, lay: Layout, name: bytes, d': bytes)
    requires Created(cfg, s, lay, name, d')
    ensures TableOk(d', [NewRoot(s, name)], NewTable(s, name)) && Log(d', [NewRoot(s, name)]) == []
  {
    var q := CreateRequest(|s.tables[0].records|, name);
    DoneFields(cfg, s, lay, 0, q, d');
    EmptyBlockLoads(d', RequestRecord(cfg, s, 0, q).value, NewRoot(s, name), name);
  }

  lemma CreateTables(cfg: Config, s: Store, lay: Layout, name: bytes, d': bytes)
    requires Created(cfg, s, lay, name, d')
    ensures SameData(s.disk, d', s.tables)
    ensures Has(OfBlocks, d', NewRoot(s, name) + BLOCK_SIZE, s.tables[0 := MetaAfterCreate(cfg, s, name)] + [NewTable(s, name)], LayoutCreated(s, lay, name))
  {
    hide HeaderAt, Log, TableOk;
    var q := CreateRequest(|s.tables[0].records|, name);
    BlocksAfterRequest(cfg, s, lay, 0, q, d');
    NewTableLoads(cfg, s, lay, name, d');
    NewRootFits(s, lay, name);
    TablesExtended(d', NewRoot(s, name) + BLOCK_SIZE, s.tables[0 := MetaAfterCreate(cfg, s, name)], LayoutAfter(s, lay, 0),
                   NewTable(s, name), NewRoot(s, name), Top(s.next, s.tables[0].last));
  }

  lemma NewRootFits(s: Store, lay: Layout, name: bytes)
    requires Inv(s, lay)
    ensures ROOT <= NewRoot(s, name)
    ensures forall i :: 0 <= i < |lay| ==> Below(LayoutAfter(s, lay, 0)[i], Top(s.next, s.tables[0].last))
  {
    InvBlocks(s, lay);
    LayoutBelowTop(s, lay);
  }

  lemma CreateRooted(cfg: Config, s: Store, lay: Layout, name: bytes, d': bytes)
    requires Created(cfg, s, lay, name, d') && SameData(s.disk, d', s.tables) && Rooted(s.disk, s.tables, lay)
    ensures Rooted(d', s.tables[0 := MetaAfterCreate(cfg, s, name)] + [NewTable(s, name)], LayoutCreated(s, lay, name))
  {
    hide DoHash;
    InvSized(s, lay);
    var q := CreateRequest(|s.tables[0].records|, name);
    DoneFields(cfg, s, lay, 0, q, d');
    NewRecordIs(cfg, |s.disk|, s.next, s.tables[0], NextId(s), q);
    RootedCreated(s, lay, d', MetaAfterCreate(cfg, s, name), name, RequestRecord(cfg, s, 0, q));
  }

  lemma CreateRoots(cfg: Config, s: Store, lay: Layout, name: bytes, d': bytes)
    requires Created(cfg, s, lay, name, d') && SameData(s.disk, d', s.tables)
    requires forall i :: 1 <= i < |s.tables| ==> s.tables[i].name != name
    ensures Has(OfNames, d', NewRoot(s, name) + BLOCK_SIZE, s.tables[0 := MetaAfterCreate(cfg, s, name)] + [NewTable(s, name)], LayoutCreated(s, lay, name))
  {
    InvNames(s, lay);
    CreateRooted(cfg, s, lay, name, d');
    NamesCreated(s.tables, MetaAfterCreate(cfg, s, name), NewTable(s, name));
    CloseNames(d', NewRoot(s, name) + BLOCK_SIZE, s.tables[0 := MetaAfterCreate(cfg, s, name)] + [NewTable(s, name)], LayoutCreated(s, lay, name));
  }

  lemma CreateData(cfg: Config, s: Store, lay: Layout, name: bytes, d': bytes)
    requires Created(cfg, s, lay, name, d') && SameData(s.disk, d', s.tables)
    ensures Has(OfData, d', NewRoot(s, name) + BLOCK_SIZE, s.tables[0 := MetaAfterCreate(cfg, s, name)] + [NewTable(s, name)], LayoutCreated(s, lay, name))
  {
    var q := CreateRequest(|s.tables[0].records|, name);
    DataAfterRequest(cfg, s, lay, 0, q, d');
    DataBelowRoot(cfg, s, lay, name, d');
    FieldsExtended(d', NewRoot(s, name) + BLOCK_SIZE, s.tables[0 := MetaAfterCreate(cfg, s, name)], LayoutAfter(s, lay, 0),
                   NewTable(s, name), NewRoot(s, name));
  }

  /** Creating a table keeps the invariant. */
  lemma CreateKeepsInv(cfg: Config, s: Store, lay: Layout, name: bytes)
    requires Inv(s, lay) && Possible(cfg, s, 0, CreateRequest(|s.tables[0].records|, name))
    requires forall i :: 1 <= i < |s.tables| ==> s.tables[i].name != name
    ensures Inv(AfterCreate(cfg, s, name), LayoutCreated(s, lay, name))
  {
    var q := CreateRequest(|s.tables[0].records|, name);
    var s' := AfterCreate(cfg, s, name);
    AllWritten(cfg, s, lay, 0, q);
    AfterRequestIs(cfg, s, 0, q);
    CreateTables(cfg, s, lay, name, s'.disk);
    CreateRoots(cfg, s, lay, name, s'.disk);
    CreateData(cfg, s, lay, name, s'.disk);
  }

  lemma NamesCreated(tables: seq<TableInfo>, meta: TableInfo, t: TableInfo)
    requires NamesDistinct(tables) && tables != [] && forall i :: 1 <= i < |tables| ==> tables[i].name != t.name
    ensures NamesDistinct(tables[0 := meta] + [t])
  {
  }

  // ----- Deleting -----

  /** The database after `DeleteTable` has found the name at record `index` of the metatable. */
  function AfterDelete(cfg: Config, s: Store, index: nat): Store
    requires |s.tables| > 0 && Possible(cfg, s, 0, DeleteRequest(index)) && index + 1 < |s.tables|
  {
    var r := AfterRequest(cfg, s, 0, DeleteRequest(index));
    r.(tables := RemovedAt(r.tables, index + 1))
  }

  function LayoutDeleted(s: Store, lay: Layout, index: nat): Layout
    requires |lay| == |s.tables| > 0 && index + 1 < |s.tables|
  {
    RemovedAt(LayoutAfter(s, lay, 0), index + 1)
  }

  /** The old place of element `i` after element `k` is gone. */
  function Before(k: nat, i: nat): nat {
    if i < k then i else i + 1
  }

  lemma Removed<T>(s: seq<T>, k: nat)
    requires k < |s|
    ensures forall i: nat :: i < |s| - 1 ==> RemovedAt(s, k)[i] == s[Before(k, i)]
  {
  }

  lemma TablesRemoved(d: bytes, next: nat, tables: seq<TableInfo>, lay: Layout, k: nat)
    requires Has(OfBlocks, d, next, tables, lay) && k < |lay|
    ensures Has(OfBlocks, d, next, RemovedAt(tables, k), RemovedAt(lay, k))
  {
    OpenBlocks(d, next, tables, lay);
    Removed(tables, k);
    Removed(lay, k);
    var lay' := RemovedAt(lay, k);
    forall i: nat, j: nat | i < j < |lay'| ensures ChainApart(lay'[i], lay'[j]) {
      assert ChainApart(lay[Before(k, i)], lay[Before(k, j)]);
    }
    CloseBlocks(d, next, RemovedAt(tables, k), lay');
  }

  lemma DataRemoved(tables: seq<TableInfo>, k: nat)
    requires 1 <= k < |tables|
    ensures forall i: nat, a: nat, x: nat :: IsData(RemovedAt(tables, k), i, a, x) ==>
      IsData(tables, Before(k, i), a, x) && DataAt(RemovedAt(tables, k), i, a, x) == DataAt(tables, Before(k, i), a, x)
  {
    Removed(tables, k);
    var tables' := RemovedAt(tables, k);
    forall i: nat, a: nat, x: nat | IsData(tables', i, a, x)
      ensures IsData(tables, Before(k, i), a, x) && DataAt(tables', i, a, x) == DataAt(tables, Before(k, i), a, x)
    {
      assert tables'[i] == tables[Before(k, i)];
    }
  }

  lemma FieldsRemoved(d: bytes, next: nat, tables: seq<TableInfo>, lay: Layout, k: nat)
    requires Has(OfData, d, next, tables, lay) && 1 <= k < |tables|
    ensures Has(OfData, d, next, RemovedAt(tables, k), RemovedAt(lay, k))
  {
    OpenData(d, next, tables, lay);
    DataRemoved(tables, k);
    Removed(lay, k);
    var tables', lay' := RemovedAt(tables, k), RemovedAt(lay, k);
    forall i: nat, a: nat, x: nat, j: nat | IsData(tables', i, a, x) && j < |lay'|
      ensures OffChain(DataAt(tables', i, a, x), lay'[j])
    {
      assert IsData(tables, Before(k, i), a, x);
      assert OffChain(DataAt(tables, Before(k, i), a, x), lay[Before(k, j)]);
    }
    forall i: nat, a: nat, x: nat, j: nat, b: nat, y: nat | IsData(tables', i, a, x) && IsData(tables', j, b, y) && (i, a, x) != (j, b, y)
      ensures FieldsDisjoint(DataAt(tables', i, a, x), DataAt(tables', j, b, y))
    {
      assert FieldsDisjoint(DataAt(tables, Before(k, i), a, x), DataAt(tables, Before(k, j), b, y));
    }
    CloseData(d, next, tables', lay');
  }

  lemma RootedDeleted(s: Store, lay: Layout, d': bytes, meta': TableInfo, index: nat)
    requires Rooted(s.disk, s.tables, lay) && SameData(s.disk, d', s.tables) && |s.disk| <= |d'|
    requires index < |s.tables[0].records|
    requires meta'.name == s.tables[0].name && meta'.records == RemovedAt(s.tables[0].records, index)
    ensures Rooted(d', RemovedAt(s.tables[0 := meta'], index + 1), LayoutDeleted(s, lay, index))
  {
    var tables', lay' := RemovedAt(s.tables[0 := meta'], index + 1), LayoutDeleted(s, lay, index);
    Removed(s.tables[0 := meta'], index + 1);
    Removed(LayoutAfter(s, lay, 0), index + 1);
    Removed(s.tables[0].records, index);
    assert lay'[0] == LayoutAfter(s, lay, 0)[0] && lay'[0][0] == lay[0][0];
    forall a | 0 <= a < |tables'[0].records| ensures Roots(d', tables', lay', a) {
      RootDeleted(s, lay, d', meta', index, a);
    }
  }

  lemma RootDeleted(s: Store, lay: Layout, d': bytes, meta': TableInfo, index: nat, a: nat)
    requires Rooted(s.disk, s.tables, lay) && SameData(s.disk, d', s.tables) && |s.disk| <= |d'|
    requires index < |s.tables[0].records| && a < |s.tables[0].records| - 1
    requires meta'.name == s.tables[0].name && meta'.records == RemovedAt(s.tables[0].records, index)
    ensures Roots(d', RemovedAt(s.tables[0 := meta'], index + 1), LayoutDeleted(s, lay, index), a)
  {
    var b := Before(index, a);
    Removed(s.tables[0 := meta'], index + 1);
    Removed(LayoutAfter(s, lay, 0), index + 1);
    Removed(s.tables[0].records, index);
    assert Before(index + 1, a + 1) == b + 1;
    assert Before(index + 1, 0) == 0;
    var tables', lay' := RemovedAt(s.tables[0 := meta'], index + 1), LayoutDeleted(s, lay, index);
    assert tables'[a + 1] == s.tables[b + 1] && lay'[a + 1] == lay[b + 1] && tables'[0] == meta';
    assert meta'.records[a] == s.tables[0].records[b];
    assert Roots(s.disk, s.tables, lay, b);
    assert IsData(s.tables, 0, b, 0) && DataAt(s.tables, 0, b, 0) == s.tables[0].records[b].key;
  }

  lemma NamesRemoved(tables: seq<TableInfo>, meta: TableInfo, k: nat)
    requires NamesDistinct(tables) && 1 <= k < |tables|
    ensures NamesDistinct(RemovedAt(tables[0 := meta], k))
  {
    Removed(tables[0 := meta], k);
    var tables' := RemovedAt(tables[0 := meta], k);
    forall i: nat, j: nat | 1 <= i < j < |tables'| ensures tables'[i].name != tables'[j].name {
      assert tables'[i] == tables[Before(k, i)] && tables'[j] == tables[Before(k, j)];
    }
  }

  lemma DeletedMeta(cfg: Config, s: Store, index: nat)
    requires |s.tables| > 0 && Possible(cfg, s, 0, DeleteRequest(index))
    ensures var meta' := TableAfter(s.tables[0], s.next, RequestRecord(cfg, s, 0, DeleteRequest(index)));
      meta'.name == s.tables[0].name && meta'.records == RemovedAt(s.tables[0].records, index)
  {
    NewRecordIs(cfg, |s.disk|, s.next, s.tables[0], NextId(s), DeleteRequest(index));
  }

  function MetaAfterDelete(cfg: Config, s: Store, index: nat): TableInfo
    requires |s.tables| > 0 && Possible(cfg, s, 0, DeleteRequest(index))
  {
    TableAfter(s.tables[0], s.next, RequestRecord(cfg, s, 0, DeleteRequest(index)))
  }

  lemma AfterDeleteIs(cfg: Config, s: Store, index: nat)
    requires |s.tables| > 0 && Possible(cfg, s, 0, DeleteRequest(index)) && index + 1 < |s.tables|
    ensures AfterDelete(cfg, s, index).tables == RemovedAt(s.tables[0 := MetaAfterDelete(cfg, s, index)], index + 1)
    ensures AfterDelete(cfg, s, index).next == Top(s.next, s.tables[0].last)
  {
    AfterRequestIs(cfg, s, 0, DeleteRequest(index));
  }

  /** The request to delete a table has been carried out. */
  ghost predicate Deleted(cfg: Config, s: Store, lay: Layout, index: nat, d': bytes) {
    && Inv(s, lay) && Possible(cfg, s, 0, DeleteRequest(index)) && index + 1 < |s.tables|
    && Done(cfg, s, lay, 0, DeleteRequest(index), d')
  }

  lemma DeleteTables(cfg: Config, s: Store, lay: Layout, index: nat, d': bytes)
    requires Deleted(cfg, s, lay, index, d')
    ensures SameData(s.disk, d', s.tables)
    ensures Has(OfBlocks, d', Top(s.next, s.tables[0].last), RemovedAt(s.tables[0 := MetaAfterDelete(cfg, s, index)], index + 1), LayoutDeleted(s, lay, index))
  {
    BlocksAfterRequest(cfg, s, lay, 0, DeleteRequest(index), d');
    TablesRemoved(d', Top(s.next, s.tables[0].last), s.tables[0 := MetaAfterDelete(cfg, s, index)], LayoutAfter(s, lay, 0), index + 1);
  }

  lemma DeleteRoots(cfg: Config, s: Store, lay: Layout, index: nat, d': bytes)
    requires Deleted(cfg, s, lay, index, d') && SameData(s.disk, d', s.tables)
    ensures Has(OfNames, d', Top(s.next, s.tables[0].last), RemovedAt(s.tables[0 := MetaAfterDelete(cfg, s, index)], index + 1), LayoutDeleted(s, lay, index))
  {
    InvNames(s, lay);
    DeletedMeta(cfg, s, index);
    RootedDeleted(s, lay, d', MetaAfterDelete(cfg, s, index), index);
    NamesRemoved(s.tables, MetaAfterDelete(cfg, s, index), index + 1);
    CloseNames(d', Top(s.next, s.tables[0].last), RemovedAt(s.tables[0 := MetaAfterDelete(cfg, s, index)], index + 1), LayoutDeleted(s, lay, index));
  }

  lemma DeleteData(cfg: Config, s: Store, lay: Layout, index: nat, d': bytes)
    requires Deleted(cfg, s, lay, index, d') && SameData(s.disk, d', s.tables)
    ensures Has(OfData, d', Top(s.next, s.tables[0].last), RemovedAt(s.tables[0 := MetaAfterDelete(cfg, s, index)], index + 1), LayoutDeleted(s, lay, index))
  {
    DataAfterRequest(cfg, s, lay, 0, DeleteRequest(index), d');
    FieldsRemoved(d', Top(s.next, s.tables[0].last), s.tables[0 := MetaAfterDelete(cfg, s, index)], LayoutAfter(s, lay, 0), index + 1);
  }

  /** Deleting a table keeps the invariant. */
  lemma DeleteKeepsInv(cfg: Config, s: Store, lay: Layout, index: nat)
    requires Inv(s, lay) && Possible(cfg, s, 0, DeleteRequest(index)) && index + 1 < |s.tables|
    ensures Inv(AfterDelete(cfg, s, index), LayoutDeleted(s, lay, index))
  {
    var s' := AfterDelete(cfg, s, index);
    AllWritten(cfg, s, lay, 0, DeleteRequest(index));
    AfterDeleteIs(cfg, s, index);
    DeleteTables(cfg, s, lay, index, s'.disk);
    DeleteRoots(cfg, s, lay, index, s'.disk);
    DeleteData(cfg, s, lay, index, s'.disk);
  }
}
