/** Runs from a new file that end in each of the two failures of a reload. */
module LdbFailures {
  import opened Bytes
  import opened Disk
  import opened LdbFormat
  import opened LdbLoad
  import opened LdbAppend
  import opened LdbTable
  import opened LdbStore
  import opened LdbRecover
  import opened LdbAppended
  import opened LdbCommit
  import opened LdbUser
  import opened LdbMeta
  import opened LdbRun
  import opened LdbLimits

  /** Pages and growth as the source sets them. */
  const CONFIG: Config := Config(4096, 1024)

  /** The size of a new file, which is 4 MB. */
  const NEW_FILE: nat := 4194304

  const NAME: bytes := [116]

  // ----- Small requests -----

  /** A request that needs no block and for which there is room leaves the size of the file as it is. */
  lemma FitsInFile(cfg: Config, size: nat, next: nat, last: HeaderInfo, q: Request)
    requires ConfigOk(cfg) && !NeedsBlock(last.header) && DataEnd(q, next) <= size
    ensures AfterData(cfg, size, next, last, q).size == size
  {
    hide GrowBytes, NeedsBlock;
  }

  /** What a small request leaves: the file as long as it was, and the new record. */
  lemma SmallRequest(s: Store, lay: Layout, t: nat, q: Request)
    requires Inv(s, lay) && t < |s.tables| && !NeedsBlock(s.tables[t].last.header) && DataEnd(q, s.next) <= |s.disk|
    requires RequestOk(q, |s.tables[t].records|) || (q.operation == OPERATION_INSERT && q.index == 0)
    ensures Writable(CONFIG, s, t, q)
    ensures |AfterRequest(CONFIG, s, t, q).disk| == |s.disk|
    ensures AfterRequest(CONFIG, s, t, q).next == DataEnd(q, s.next)
    ensures RecordIs(RequestRecord(CONFIG, s, t, q), q, s.tables[t].records, s.next)
  {
    hide GrowBytes, NeedsBlock, RecordIs, FieldsMade, Log, TableOk, Keeps;
    InvSized(s, lay);
    FitsInFile(CONFIG, |s.disk|, s.next, s.tables[t].last, q);
    AllWritten(CONFIG, s, lay, t, q);
    OpenDone(CONFIG, s, lay, t, q, AfterRequest(CONFIG, s, t, q).disk);
    CursorsMove(CONFIG, |s.disk|, s.next, s.tables[t].last, q);
    NewRecordIs(CONFIG, |s.disk|, s.next, s.tables[t], NextId(s), q);
  }

  lemma EmptyHasRoom(h: BlockHeader)
    requires h.size == BLOCK_SIZE && h.used <= 2
    ensures !NeedsBlock(h)
  {
  }

  // ----- A new database with one table -----

  ghost const NEW: Store := InitialStore(CONFIG)

  lemma NewIs()
    ensures Inv(NEW, [[ROOT]]) && |NEW.disk| == NEW_FILE && NEW.next == 4112
    ensures |NEW.tables| == 1 && NEW.tables[0].records == [] && !NeedsBlock(NEW.tables[0].last.header)
  {
    hide DoAll, Inv;
    assert GrowBytes(CONFIG, INITIAL_NEXT + 4096) == NEW_FILE;
    InitialIsSound(CONFIG);
    InitialSize(CONFIG);
    EmptyHasRoom(NEW.tables[0].last.header);
  }

  lemma CreateIsAllowed()
    ensures Allowed(CONFIG, NEW, CreateTable(NAME)) && Resolve(NEW.tables, CreateTable(NAME)) == Create(NAME)
    ensures Possible(CONFIG, NEW, 0, CreateRequest(0, NAME))
    ensures |AfterRequest(CONFIG, NEW, 0, CreateRequest(0, NAME)).disk| == NEW_FILE
    ensures AfterRequest(CONFIG, NEW, 0, CreateRequest(0, NAME)).next == 8209
  {
    hide NeedsBlock, DoAll, AfterData;
    NewIs();
    assert |EMPTY_BLOCK| == BLOCK_SIZE;
    SmallRequest(NEW, [[ROOT]], 0, CreateRequest(0, NAME));
  }

  /** The database after its first table has been created. */
  ghost function OneTable(): Store {
    CreateIsAllowed();
    After(CONFIG, NEW, CreateTable(NAME))
  }

  ghost function OneTableLayout(): Layout {
    LayoutOf(NEW, [[ROOT]], CreateTable(NAME))
  }

  lemma OneTableIs()
    ensures var s := OneTable();
      && Inv(s, OneTableLayout()) && |s.disk| == NEW_FILE && s.next == 8209
      && |s.tables| == 2 && s.tables[1].name == NAME && s.tables[1].records == [] && !NeedsBlock(s.tables[1].last.header)
  {
    hide NeedsBlock, DoAll, AfterData, Inv;
    NewIs();
    CreateIsAllowed();
    OperationKeepsInv(CONFIG, NEW, [[ROOT]], CreateTable(NAME));
    EmptyHasRoom(OneTable().tables[1].last.header);
  }

  // ----- An insertion into an empty table -----

  const INSERT: Op := InsertByIndex(NAME, 0, None, Some([7]), None)

  /**
    A table is created and one record inserted at index 0: the table has one record, and two after a reload.
    The source accepts the call; only what is replayed is wrong.
    */
  lemma InsertedRecordIsDoubled()
    ensures var s := OneTable();
      && RequestOf(INSERT, |s.tables[1].records|) == Some(Request(OPERATION_INSERT, 0, None, Some([7]), None))
      && var q := RequestOf(INSERT, |s.tables[1].records|).value;
      && Writable(CONFIG, s, 1, q)
      && var l := LoadFile(AfterRequest(CONFIG, s, 1, q).disk);
      && l.Some? && |l.value.tables| == 1
      && |AfterRequest(CONFIG, s, 1, q).tables[1].records| == 1 && |l.value.tables[0].records| == 2
  {
    hide LoadFile, DoAll, AfterData, Inv, NeedsBlock;
    var s, q := OneTable(), Request(OPERATION_INSERT, 0, None, Some([7]), None);
    OneTableIs();
    SmallRequest(s, OneTableLayout(), 1, q);
    ReplayedIffNotIntoEmpty(CONFIG, s, OneTableLayout(), 1, q);
  }

  // ----- A tie -----

  const FIRST: Op := Append(NAME, None, Some([7]), Some([]))

  const FIRST_REQUEST: Request := Request(OPERATION_APPEND, 0, None, Some([7]), Some([]))

  const SECOND: Op := SetByIndex(NAME, 0, None, Some([9]), None)

  const SECOND_REQUEST: Request := Request(OPERATION_SET, 0, None, Some([9]), None)

  lemma FirstIsAllowed()
    ensures |OneTable().tables| == 2 && RequestOf(FIRST, |OneTable().tables[1].records|) == Some(FIRST_REQUEST)
    ensures Possible(CONFIG, OneTable(), 1, FIRST_REQUEST)
    ensures var s := AfterRequest(CONFIG, OneTable(), 1, FIRST_REQUEST); |s.disk| == NEW_FILE && s.next == 8210
    ensures RecordIs(RequestRecord(CONFIG, OneTable(), 1, FIRST_REQUEST), FIRST_REQUEST, [], 8209)
  {
    hide DoAll, AfterData, Inv, NeedsBlock, RecordIs;
    OneTableIs();
    SmallRequest(OneTable(), OneTableLayout(), 1, FIRST_REQUEST);
  }

  /** One record, whose metadata is there but empty, and so lies where free space starts. */
  ghost function OneRecord(): Store {
    FirstIsAllowed();
    AfterRequest(CONFIG, OneTable(), 1, FIRST_REQUEST)
  }

  ghost function OneRecordLayout(): Layout {
    OneTableIs();
    LayoutAfter(OneTable(), OneTableLayout(), 1)
  }

  lemma OneRecordIs()
    ensures var s := OneRecord();
      && Inv(s, OneRecordLayout()) && |s.disk| == NEW_FILE && s.next == 8210 && |s.tables| == 2
      && |s.tables[1].records| == 1 && s.tables[1].records[0].metadata.offset == 8210
      && !NeedsBlock(s.tables[1].last.header)
  {
    hide DoAll, AfterData, NeedsBlock, DoHash;
    OneTableIs();
    FirstIsAllowed();
    AfterRequestIs(CONFIG, OneTable(), 1, FIRST_REQUEST);
    RequestKeepsInv(CONFIG, OneTable(), OneTableLayout(), 1, FIRST_REQUEST);
    UsedOnce();
  }

  lemma UsedOnce()
    ensures !NeedsBlock(OneRecord().tables[1].last.header)
  {
    hide DoAll, AfterData, NeedsBlock;
    OneTableIs();
    FirstIsAllowed();
    EmptyHasRoom(OneRecord().tables[1].last.header);
  }

  lemma TieIsBroken()
    ensures |OneRecord().tables| == 2 && RequestOf(SECOND, |OneRecord().tables[1].records|) == Some(SECOND_REQUEST)
    ensures Possible(CONFIG, OneRecord(), 1, SECOND_REQUEST)
    ensures var s := OneRecord(); !NoTie(SECOND_REQUEST, s.tables[1].records, Top(s.next, s.tables[1].last))
    ensures |AfterRequest(CONFIG, OneRecord(), 1, SECOND_REQUEST).disk| == NEW_FILE
  {
    hide DoAll, AfterData, Inv, NeedsBlock, RecordIs;
    OneRecordIs();
    SmallRequest(OneRecord(), OneRecordLayout(), 1, SECOND_REQUEST);
  }

  /**
    A table is created, a record appended with a value and empty metadata, and the value then set alone:
    a reload finds free space in front of the value, which is live.
    */
  lemma ReloadFallsShort()
    ensures Possible(CONFIG, OneRecord(), 1, SECOND_REQUEST)
    ensures var s := AfterRequest(CONFIG, OneRecord(), 1, SECOND_REQUEST);
      && LoadFile(s.disk).Some?
      && IsData(s.tables, 1, 0, 1) && FieldBytes(s.disk, DataAt(s.tables, 1, 0, 1)) == [9]
      && LoadFile(s.disk).value.next < FieldEnd(DataAt(s.tables, 1, 0, 1))
  {
    hide LoadFile, DoAll, AfterData, NeedsBlock, DoHash;
    var s, lay := OneRecord(), OneRecordLayout();
    OneRecordIs();
    TieIsBroken();
    TieReload(CONFIG, s, lay, 1, SECOND_REQUEST);
    AfterRequestIs(CONFIG, s, 1, SECOND_REQUEST);
    AllWritten(CONFIG, s, lay, 1, SECOND_REQUEST);
    DoneFields(CONFIG, s, lay, 1, SECOND_REQUEST, AfterRequest(CONFIG, s, 1, SECOND_REQUEST).disk);
  }

  /** The database found by a reload after that. */
  ghost function Reloaded(): Store {
    ReloadFallsShort();
    var d := AfterRequest(CONFIG, OneRecord(), 1, SECOND_REQUEST).disk;
    Reopened(d, LoadFile(d).value)
  }

  lemma ReloadedIs()
    ensures var r := Reloaded();
      && |r.disk| == NEW_FILE && r.next == 8210 && |r.tables| == 2 && |r.tables[1].records| == 1 && !NeedsBlock(r.tables[1].last.header)
      && IsData(r.tables, 1, 0, 1) && FieldEnd(DataAt(r.tables, 1, 0, 1)) == 8211 && FieldBytes(r.disk, DataAt(r.tables, 1, 0, 1)) == [9]
  {
    hide LoadFile, DoAll, AfterData, NeedsBlock, DoHash;
    var s, lay := OneRecord(), OneRecordLayout();
    OneRecordIs();
    TieIsBroken();
    ReloadFallsShort();
    TieReload(CONFIG, s, lay, 1, SECOND_REQUEST);
    TieRecord(CONFIG, s, lay, 1, SECOND_REQUEST);
    AfterRequestIs(CONFIG, s, 1, SECOND_REQUEST);
    NewRecordIs(CONFIG, |s.disk|, s.next, s.tables[1], NextId(s), SECOND_REQUEST);
    UsedTwice();
  }

  lemma UsedTwice()
    ensures Possible(CONFIG, OneRecord(), 1, SECOND_REQUEST)
    ensures var t := OneRecord().tables[1];
      !NeedsBlock(TableAfter(t, OneRecord().next, RequestRecord(CONFIG, OneRecord(), 1, SECOND_REQUEST)).last.header)
  {
    hide DoAll, AfterData, NeedsBlock;
    OneTableIs();
    FirstIsAllowed();
    OneRecordIs();
    TieIsBroken();
    EmptyHasRoom(TableAfter(OneRecord().tables[1], OneRecord().next, RequestRecord(CONFIG, OneRecord(), 1, SECOND_REQUEST)).last.header);
  }

  /** And then a value appended to the table takes the place of the one that was set. */
  lemma LiveValueIsOverwritten()
    ensures Writable(CONFIG, Reloaded(), 1, AppendValue(1, [5]))
    ensures var r := Reloaded();
      && IsData(r.tables, 1, 0, 1) && FieldBytes(r.disk, DataAt(r.tables, 1, 0, 1)) == [9]
      && FieldBytes(AfterRequest(CONFIG, r, 1, AppendValue(1, [5])).disk, DataAt(r.tables, 1, 0, 1)) == [5]
  {
    hide LoadFile, DoAll, AfterData, NeedsBlock, Inv, NoTie, RecordIs;
    var r, q := Reloaded(), AppendValue(1, [5]);
    OneRecordIs();
    TieIsBroken();
    ReloadFallsShort();
    ReloadedIs();
    FitsInFile(CONFIG, |r.disk|, r.next, r.tables[1].last, q);
    TieOverwrites(CONFIG, OneRecord(), OneRecordLayout(), 1, SECOND_REQUEST, r, 1, [5]);
    var after := FieldBytes(AfterRequest(CONFIG, r, 1, q).disk, DataAt(r.tables, 1, 0, 1));
    assert |after| == 1;
  }

  // ----- A block linked right behind another -----

  const CLEAR: Op := ClearAllRecords(NAME)

  const CLEAR_REQUEST: Request := Request(OPERATION_CLEAR, 0, None, None, None)

  /** The last block of table 1 holds `n` log records, and nothing has been allocated behind it. */
  ghost predicate Filling(s: Store, lay: Layout, n: nat) {
    && Inv(s, lay) && |s.disk| == NEW_FILE && |s.tables| == 2
    && s.tables[1].last.header.size == BLOCK_SIZE && s.tables[1].last.header.used == n
    && s.next == s.tables[1].last.offset + BLOCK_SIZE == 8209
  }

  lemma FillingStarts()
    ensures Filling(OneTable(), OneTableLayout(), 0)
  {
    hide DoAll, AfterData, Inv, NeedsBlock;
    NewIs();
    OneTableIs();
    CreateIsAllowed();
  }

  /** While the block has room, clearing the table takes one more slot and no other space. */
  lemma ClearTakesASlot(s: Store, lay: Layout, n: nat)
    requires Filling(s, lay, n) && n < 85
    ensures Possible(CONFIG, s, 1, CLEAR_REQUEST) && RequestOf(CLEAR, |s.tables[1].records|) == Some(CLEAR_REQUEST)
    ensures Filling(AfterRequest(CONFIG, s, 1, CLEAR_REQUEST), LayoutAfter(s, lay, 1), n + 1)
  {
    hide DoAll, AfterData, NeedsBlock, RecordIs, Inv, TableOk;
    FullBlock(s.tables[1].last.header);
    SmallRequest(s, lay, 1, CLEAR_REQUEST);
    RequestKeepsInv(CONFIG, s, lay, 1, CLEAR_REQUEST);
    AfterRequestIs(CONFIG, s, 1, CLEAR_REQUEST);
  }

  /** The database after its table has been cleared `n` times. */
  ghost function Cleared(n: nat): (r: (Store, Layout))
    requires n <= 85
    ensures Filling(r.0, r.1, n)
  {
    if n == 0 then
      FillingStarts();
      (OneTable(), OneTableLayout())
    else
      var (s, lay) := Cleared(n - 1);
      ClearTakesASlot(s, lay, n - 1);
      (AfterRequest(CONFIG, s, 1, CLEAR_REQUEST), LayoutAfter(s, lay, 1))
  }

  /** A table is created and cleared 86 times: its second block is linked right at the end of its first, which the loader asserts not to be. */
  lemma SecondBlockIsAdjacent()
    ensures var s := Cleared(85).0;
      && |s.tables| == 2 && Writable(CONFIG, s, 1, CLEAR_REQUEST)
      && var d', last := AfterRequest(CONFIG, s, 1, CLEAR_REQUEST).disk, s.tables[1].last.offset;
      && last + BLOCK_HEADER_SIZE <= |d'|
      && HeaderAt(d', last).next != 0 && HeaderAt(d', last).next == last + HeaderAt(d', last).size
  {
    hide DoAll, Inv, HeaderAt;
    var (s, lay) := Cleared(85);
    FullBlock(s.tables[1].last.header);
    FullFits(s, lay);
    AdjacentLink(CONFIG, s, lay, 1, CLEAR_REQUEST);
  }

  /** A request without data on a full block is written within the file. */
  lemma FullFits(s: Store, lay: Layout)
    requires Filling(s, lay, 85)
    ensures Writable(CONFIG, s, 1, CLEAR_REQUEST)
  {
    hide GrowBytes;
    FullBlock(s.tables[1].last.header);
  }
}
