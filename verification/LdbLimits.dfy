/** New files, and exactly which requests a reload does not survive. */
module LdbLimits {
  import opened Bytes
  import opened Disk
  import opened LdbFormat
  import opened LdbLoad
  import opened LdbAppend
  import opened LdbTable
  import opened LdbStore
  import opened LdbRecover
  import opened LdbAppended
  import opened LdbCommit
  import opened LdbUser
  import opened LdbRun

  // ----- InitializeFile -----

  const INITIAL_NEXT: nat := ROOT + BLOCK_SIZE

  const INITIAL_HEADER: BlockHeader := BlockHeader(BLOCK_SIZE, 0, 0)

  const FILE_HEADER: bytes := EncodeWords([MAGIC, 1, 0, ROOT])

  /** The writes of `InitializeFile` on an empty file: the first block before the file header. */
  function InitialWrites(cfg: Config): seq<Io>
    requires ConfigOk(cfg)
  {
    [Grow(GrowBytes(cfg, INITIAL_NEXT + cfg.pageSize)), Put(ROOT, EncodeHeader(INITIAL_HEADER)), Put(0, FILE_HEADER)]
  }

  function InitialStore(cfg: Config): Store
    requires ConfigOk(cfg)
  {
    Store(DoAll([], InitialWrites(cfg)), INITIAL_NEXT, [TableInfo([], HeaderInfo(INITIAL_HEADER, ROOT), [])], 0)
  }

  lemma InitialDisk(cfg: Config)
    requires ConfigOk(cfg)
    ensures var size := GrowBytes(cfg, INITIAL_NEXT + cfg.pageSize);
      var blank := Fill(size, UNINITIALIZED_BYTE);
      && DoAll([], InitialWrites(cfg)[..0]) == []
      && DoAll([], InitialWrites(cfg)[..1]) == blank
      && DoAll([], InitialWrites(cfg)[..2]) == Overwrite(blank, ROOT, EncodeHeader(INITIAL_HEADER))
      && DoAll([], InitialWrites(cfg)) == Overwrite(Overwrite(blank, ROOT, EncodeHeader(INITIAL_HEADER)), 0, FILE_HEADER)
  {
    var ios := InitialWrites(cfg);
    assert ios[..0] == [];
    assert ios[..1] == [] + [ios[0]];
    assert ios[..2] == ios[..1] + [ios[1]];
    assert ios == ios[..2] + [ios[2]];
    DoAllSnoc([], [], ios[0]);
    DoAllSnoc([], ios[..1], ios[1]);
    DoAllSnoc([], ios[..2], ios[2]);
  }

  /** The header and the first block of a new file can be read back. */
  lemma InitialReadsBack(cfg: Config)
    requires ConfigOk(cfg)
    ensures var d := InitialStore(cfg).disk;
      && INITIAL_NEXT <= |d| && WordAt(d, 0) == MAGIC && WordAt(d, 12) == ROOT && HeaderAt(d, ROOT) == INITIAL_HEADER
  {
    hide WordAt, EncodeWords, HeaderAt, GrowBytes;
    InitialDisk(cfg);
    var d := InitialStore(cfg).disk;
    assert d[0..16] == FILE_HEADER;
    EncodedWordAt([MAGIC, 1, 0, ROOT], 0, d, 0);
    EncodedWordAt([MAGIC, 1, 0, ROOT], 3, d, 0);
    assert d[ROOT..ROOT + BLOCK_HEADER_SIZE] == EncodeHeader(INITIAL_HEADER);
    HeaderRoundTrip(INITIAL_HEADER, d, ROOT);
  }

  lemma EmptyMetatable(d: bytes)
    requires INITIAL_NEXT <= |d| && HeaderAt(d, ROOT) == INITIAL_HEADER
    ensures TableOk(d, [ROOT], TableInfo([], HeaderInfo(INITIAL_HEADER, ROOT), [])) && AllFit(d, [ROOT]) && Log(d, [ROOT]) == []
  {
    assert BlockLog(d, ROOT) == [];
    assert [ROOT][..0] == [];
  }

  /** A new file is a sound database without tables. */
  lemma InitialIsSound(cfg: Config)
    requires ConfigOk(cfg) && GrowBytes(cfg, INITIAL_NEXT + cfg.pageSize) < WORD_LIMIT
    ensures Inv(InitialStore(cfg), [[ROOT]]) && Sound(InitialStore(cfg)) && InitialStore(cfg).tables[1..] == []
  {
    hide GrowBytes, HeaderAt, Log, TableOk, DoAll, Inv;
    InitialReadsBack(cfg);
    var s := InitialStore(cfg);
    EmptyMetatable(s.disk);
    InitialSize(cfg);
    MakeInv(s, [[ROOT]]);
  }

  lemma InitialSize(cfg: Config)
    requires ConfigOk(cfg)
    ensures |InitialStore(cfg).disk| == GrowBytes(cfg, INITIAL_NEXT + cfg.pageSize)
  {
    InitialDisk(cfg);
  }

  /** Until the last write of `InitializeFile` the file is not taken for a database. */
  lemma HalfInitialized(cfg: Config, k: nat)
    requires ConfigOk(cfg) && k < |InitialWrites(cfg)|
    ensures LoadFile(DoAll([], InitialWrites(cfg)[..k])) == None
  {
    InitialDisk(cfg);
    var d := DoAll([], InitialWrites(cfg)[..k]);
    if k > 0 {
      assert d[0] == UNINITIALIZED_BYTE && d[1] == UNINITIALIZED_BYTE && d[2] == UNINITIALIZED_BYTE && d[3] == UNINITIALIZED_BYTE;
    }
  }

  /** Every run of a database that starts with a new file is sound. */
  lemma RunsFromNewFile(cfg: Config, states: seq<Store>, events: seq<Event>, n: nat)
    requires ConfigOk(cfg) && GrowBytes(cfg, INITIAL_NEXT + cfg.pageSize) < WORD_LIMIT
    requires Run(cfg, states, events) && states[0] == InitialStore(cfg) && n <= |events|
    ensures Sound(states[n])
  {
    InitialIsSound(cfg);
    RunsAreSound(cfg, states, events, n);
  }

  // ----- What a reload finds after any request -----

  /** After a request the file loads, and the table holds what the log replays to. */
  lemma ReloadAfterRequest(cfg: Config, s: Store, lay: Layout, t: nat, q: Request)
    requires Inv(s, lay) && Writable(cfg, s, t, q) && 1 <= t
    ensures var l := LoadFile(AfterRequest(cfg, s, t, q).disk);
      && l.Some? && 1 + |l.value.tables| == |s.tables|
      && [l.value.meta] + l.value.tables == s.tables[t := TableAfter(s.tables[t], s.next, RequestRecord(cfg, s, t, q))]
      && l.value.next <= DataEnd(q, Top(s.next, s.tables[t].last))
  {
    InvAll(s, lay);
    var d', t' := AfterRequest(cfg, s, t, q).disk, TableAfter(s.tables[t], s.next, RequestRecord(cfg, s, t, q));
    AllWritten(cfg, s, lay, t, q);
    RequestTables(cfg, s, lay, t, q, d');
    RootedAfter(s, lay, t, d', t');
    var s' := Store(d', DataEnd(q, Top(s.next, s.tables[t].last)), s.tables[t := t'], 0);
    LoadIsFound(s', LayoutAfter(s, lay, t));
    AllLoaded(s'.tables, LoadFile(d').value);
  }

  /**
    A reload rebuilds the tables that are in memory if and only if the request was not an insertion
    into an empty table; such a record is found twice.
    */
  lemma ReplayedIffNotIntoEmpty(cfg: Config, s: Store, lay: Layout, t: nat, q: Request)
    requires Inv(s, lay) && Writable(cfg, s, t, q) && 1 <= t
    requires q.operation == OPERATION_INSERT ==> q.index == 0 || q.index < |s.tables[t].records|
    ensures var l := LoadFile(AfterRequest(cfg, s, t, q).disk);
      && l.Some? && 1 + |l.value.tables| == |s.tables|
      && ([l.value.meta] + l.value.tables == AfterRequest(cfg, s, t, q).tables <==> !(q.operation == OPERATION_INSERT && s.tables[t].records == []))
      && (q.operation == OPERATION_INSERT && s.tables[t].records == [] ==>
            |AfterRequest(cfg, s, t, q).tables[t].records| == 1 && |l.value.tables[t - 1].records| == 2)
  {
    InvAll(s, lay);
    var record, s' := RequestRecord(cfg, s, t, q), AfterRequest(cfg, s, t, q);
    ReloadAfterRequest(cfg, s, lay, t, q);
    NewRecordIs(cfg, |s.disk|, s.next, s.tables[t], NextId(s), q);
    var l := LoadFile(s'.disk).value;
    FoundAndRemembered(s.tables, t, TableAfter(s.tables[t], s.next, record), record, l, s'.tables);
  }

  lemma FoundAndRemembered(tables: seq<TableInfo>, t: nat, replayed: TableInfo, record: LogRecord, l: Loaded, memory: seq<TableInfo>)
    requires 1 <= t < |tables| && 1 + |l.tables| == |tables|
    requires record.operation == OPERATION_INSERT ==> record.index == 0 || record.index < |tables[t].records|
    requires record.operation == OPERATION_SET || record.operation == OPERATION_DELETE ==> record.index < |tables[t].records|
    requires replayed.records == ReplayRecord(tables[t].records, record)
    requires [l.meta] + l.tables == tables[t := replayed]
    requires memory == tables[t := replayed.(records := Remember(tables[t].records, record))]
    ensures [l.meta] + l.tables == memory <==> !(record.operation == OPERATION_INSERT && tables[t].records == [])
    ensures record.operation == OPERATION_INSERT && tables[t].records == [] ==> |memory[t].records| == 1 && |l.tables[t - 1].records| == 2
  {
    var found := [l.meta] + l.tables;
    assert found[t] == replayed && l.tables[t - 1] == found[t];
    assert memory[t].records == Remember(tables[t].records, record);
    ReplayRemembers(tables[t].records, record);
  }

  // ----- Where a reload allocates next -----

  /** The field that holds the first byte a request that breaks a tie brings. */
  function FirstData(q: Request): (x: nat)
    ensures x < 3
  {
    if q.key.Some? && |q.key.value| > 0 then 0 else 1
  }

  /** A broken tie makes the end of the new record look like its start, which is where free space was. */
  lemma TieEnd(r: LogRecord, q: Request, was: LogRecord, lo: nat)
    requires Placed(r.key, q.key, was.key, lo)
    requires Placed(r.value, q.value, was.value, lo + Length(q.key))
    requires Placed(r.metadata, q.metadata, was.metadata, lo + Length(q.key) + Length(q.value))
    requires Covered(was) && RecordEnd(was) <= lo && TieBroken(q, was, lo)
    ensures RecordEnd(r) == lo
    ensures FieldEnd(r.key) > lo || FieldEnd(r.value) > lo
    ensures var live := FieldOf(r, FirstData(q)); live.offset == lo && live.size > 0
    ensures was.value.offset == lo || was.metadata.offset == lo
  {
  }

  /** With a broken tie a reload finds free space where it was before the request, in front of the data the request brought. */
  lemma TieReload(cfg: Config, s: Store, lay: Layout, t: nat, q: Request)
    requires Inv(s, lay) && Possible(cfg, s, t, q) && 1 <= t
    requires !NoTie(q, s.tables[t].records, Top(s.next, s.tables[t].last))
    ensures LoadFile(AfterRequest(cfg, s, t, q).disk).Some? && LoadFile(AfterRequest(cfg, s, t, q).disk).value.next == s.next
    ensures var r := RequestRecord(cfg, s, t, q); FieldEnd(r.key) > s.next || FieldEnd(r.value) > s.next
    ensures var live := FieldOf(RequestRecord(cfg, s, t, q), FirstData(q)); live.offset == s.next && live.size > 0
    ensures TieLeft(cfg, s, lay, t, q, AfterRequest(cfg, s, t, q).disk)
  {
    var d', table, record := AfterRequest(cfg, s, t, q).disk, s.tables[t], RequestRecord(cfg, s, t, q);
    var top, was := Top(s.next, table.last), table.records[q.index];
    AllWritten(cfg, s, lay, t, q);
    DoneFields(cfg, s, lay, t, q, d');
    WasBelow(s, lay, t, q);
    TieEnd(record, q, was, top);
    InvLastBlock(s, lay, t);
    LoadAfterTie(cfg, s, lay, t, q, d');
  }

  /** What a reload finds behind a broken tie: all tables in place, and free space from `s.next` on. */
  ghost predicate TieLeft(cfg: Config, s: Store, lay: Layout, t: nat, q: Request, d': bytes)
    requires Writable(cfg, s, t, q) && |lay| == |s.tables|
  {
    && LoadFile(d').Some?
    && var r := Reopened(d', LoadFile(d').value);
    && r.next == s.next && r.tables == s.tables[t := TableAfter(s.tables[t], s.next, RequestRecord(cfg, s, t, q))]
    && AllTables(d', s.next, r.tables, LayoutAfter(s, lay, t))
  }

  lemma InvLastBlock(s: Store, lay: Layout, t: nat)
    requires Inv(s, lay) && t < |s.tables|
    ensures lay[t] != [] && s.tables[t].last.offset == lay[t][|lay[t]| - 1]
    ensures BlockOk(s.tables[t].last.header) && s.tables[t].last.offset + BLOCK_SIZE <= s.next
  {
    InvBlocks(s, lay);
    assert TableOk(s.disk, lay[t], s.tables[t]) && Below(lay[t], s.next);
    assert BlockOk(HeaderAt(s.disk, lay[t][|lay[t]| - 1]));
  }

  /** What a request leaves behind can be loaded even when its new record ends in front of its own data. */
  lemma LoadAfterTie(cfg: Config, s: Store, lay: Layout, t: nat, q: Request, d': bytes)
    requires Inv(s, lay) && Writable(cfg, s, t, q) && 1 <= t && Done(cfg, s, lay, t, q, d')
    requires !NeedsBlock(s.tables[t].last.header) && RecordEnd(RequestRecord(cfg, s, t, q)) == s.next
    ensures TieLeft(cfg, s, lay, t, q, d')
  {
    hide HeaderAt, Log, Replay, FieldsMade, IsChain, DoHash, Keeps;
    InvAll(s, lay);
    OpenDone(cfg, s, lay, t, q, d');
    var record := RequestRecord(cfg, s, t, q);
    var t' := TableAfter(s.tables[t], s.next, record);
    OthersKept(s, lay, t, d');
    SizedAfter(s, lay, d', s.next);
    AllTablesAfter(s, lay, t, d', s.next, t');
    InvLastBlock(s, lay, t);
    RootedAfter(s, lay, t, d', t');
    LogsBelowAfter(s, lay, t, d', s.next, record);
    var s' := Store(d', s.next, s.tables[t := t'], 0);
    LoadIsFound(s', LayoutAfter(s, lay, t));
    AllLoaded(s'.tables, LoadFile(d').value);
    var chain := LayoutAfter(s, lay, t)[t];
    assert Reached(d', chain, LoadFile(d').value.next);
    var log := Log(d', chain);
    assert log[|log| - 1] == record;
  }

  lemma WasBelow(s: Store, lay: Layout, t: nat, q: Request)
    requires Inv(s, lay) && 1 <= t < |s.tables| && q.operation == OPERATION_SET && q.index < |s.tables[t].records|
    ensures var was := s.tables[t].records[q.index];
      Covered(was) && RecordEnd(was) <= s.next && FieldEnd(was.value) <= s.next && FieldEnd(was.metadata) <= s.next
  {
    InvAll(s, lay);
    var records := s.tables[t].records;
    assert TableOk(s.disk, lay[t], s.tables[t]);
    assert Covered(KeptRecord(q, records)) && RecordEnd(KeptRecord(q, records)) <= s.next by {
      KeptIsCovered(Log(s.disk, lay[t]), records, s.next, q);
    }
  }

  /** A reload allocates beyond all live data. */
  lemma LoadIsBeyond(s: Store, lay: Layout)
    requires Inv(s, lay)
    ensures LoadFile(s.disk).Some?
    ensures forall i: nat, a: nat, x: nat :: IsData(s.tables, i, a, x) ==> FieldEnd(DataAt(s.tables, i, a, x)) <= LoadFile(s.disk).value.next
  {
    Reload(s, lay);
    var r := Reopened(s.disk, LoadFile(s.disk).value);
    InvData(r, lay);
    forall i: nat, a: nat, x: nat | IsData(s.tables, i, a, x) ensures FieldEnd(DataAt(s.tables, i, a, x)) <= r.next {
      assert FieldOk(r.disk, r.next, DataAt(r.tables, i, a, x));
    }
  }

  /** An append of one value to a table. */
  function AppendValue(count: nat, w: bytes): Request {
    Request(OPERATION_APPEND, count % WORD_LIMIT, None, Some(w), None)
  }

  /**
    After a request that broke the tie and a reload, the next value appended to any table whose block has room
    overwrites the data the request brought, from its first byte on.
    */
  lemma TieOverwrites(cfg: Config, s: Store, lay: Layout, t: nat, q: Request, r: Store, u: nat, w: bytes)
    requires Inv(s, lay) && Possible(cfg, s, t, q) && 1 <= t && !NoTie(q, s.tables[t].records, Top(s.next, s.tables[t].last))
    requires var d' := AfterRequest(cfg, s, t, q).disk; LoadFile(d').Some? && r == Reopened(d', LoadFile(d').value)
    requires u < |r.tables| && w != [] && !NeedsBlock(r.tables[u].last.header)
    requires Writable(cfg, r, u, AppendValue(|r.tables[u].records|, w))
    ensures IsData(r.tables, t, q.index, FirstData(q))
    ensures var live, d'' := DataAt(r.tables, t, q.index, FirstData(q)), DoAll(r.disk, RequestWrites(cfg, r, u, AppendValue(|r.tables[u].records|, w)));
      && live.size > 0 && live.offset == r.next
      && FieldBytes(r.disk, live) != [] && FieldBytes(d'', live) != [] && FieldBytes(d'', live)[0] == w[0]
  {
    hide LoadFile, AllTables, FieldBytes, NoTie, NeedsBlock, AppendValue, TableAfter;
    TieReload(cfg, s, lay, t, q);
    TieRecord(cfg, s, lay, t, q);
    AppendLands(cfg, r, LayoutAfter(s, lay, t), u, w);
    var live, d'' := DataAt(r.tables, t, q.index, FirstData(q)), DoAll(r.disk, RequestWrites(cfg, r, u, AppendValue(|r.tables[u].records|, w)));
    FirstByte(r.disk, live);
    FirstByte(d'', live);
  }

  lemma FirstByte(d: bytes, f: Field)
    requires f.size > 0 && FieldEnd(f) <= |d|
    ensures FieldBytes(d, f) != [] && FieldBytes(d, f)[0] == d[f.offset]
  {
  }

  /** A value appended to a table whose block has room is written where free space starts. */
  lemma AppendLands(cfg: Config, r: Store, lay: Layout, u: nat, w: bytes)
    requires AllTables(r.disk, r.next, r.tables, lay) && u < |r.tables| && w != [] && !NeedsBlock(r.tables[u].last.header)
    requires Writable(cfg, r, u, AppendValue(|r.tables[u].records|, w))
    ensures var d'' := DoAll(r.disk, RequestWrites(cfg, r, u, AppendValue(|r.tables[u].records|, w)));
      |r.disk| <= |d''| && r.next < |d''| && d''[r.next] == w[0]
  {
    hide AllTables, Log, TableOk, NeedsBlock, DoHash, DoAll;
    var q := AppendValue(|r.tables[u].records|, w);
    var d'' := DoAll(r.disk, RequestWrites(cfg, r, u, q));
    AllCarried(cfg, r, lay, u, q);
    var made := RequestRecord(cfg, r, u, q).value;
    assert FieldMade(d'', made, Some(w), Kept(q, r.tables[u].records, 1), r.next);
    assert d''[made.offset..FieldEnd(made)][0] == d''[made.offset];
  }

  /** The record of a request that broke a tie is in its place, and its first data in the file. */
  lemma TieRecord(cfg: Config, s: Store, lay: Layout, t: nat, q: Request)
    requires Inv(s, lay) && Possible(cfg, s, t, q) && 1 <= t && !NoTie(q, s.tables[t].records, Top(s.next, s.tables[t].last))
    ensures var record, t' := RequestRecord(cfg, s, t, q), TableAfter(s.tables[t], s.next, RequestRecord(cfg, s, t, q));
      && q.index < |t'.records| && t'.records[q.index] == record
      && FieldEnd(FieldOf(record, FirstData(q))) <= |AfterRequest(cfg, s, t, q).disk|
  {
    hide LoadFile, Log, HeaderAt, Replay, DoHash;
    InvSized(s, lay);
    var d' := AfterRequest(cfg, s, t, q).disk;
    AllWritten(cfg, s, lay, t, q);
    DoneFields(cfg, s, lay, t, q, d');
    NewRecordIs(cfg, |s.disk|, s.next, s.tables[t], NextId(s), q);
  }

  /** After a request a reload allocates beyond all live data if and only if the request did not break the tie. */
  lemma FreeSpaceIffNoTie(cfg: Config, s: Store, lay: Layout, t: nat, q: Request)
    requires Inv(s, lay) && Possible(cfg, s, t, q) && 1 <= t
    ensures var s', l := AfterRequest(cfg, s, t, q), LoadFile(AfterRequest(cfg, s, t, q).disk);
      && l.Some?
      && ((forall i: nat, a: nat, x: nat :: IsData(s'.tables, i, a, x) ==> FieldEnd(DataAt(s'.tables, i, a, x)) <= l.value.next)
          <==> NoTie(q, s.tables[t].records, Top(s.next, s.tables[t].last)))
  {
    var s', record := AfterRequest(cfg, s, t, q), RequestRecord(cfg, s, t, q);
    if NoTie(q, s.tables[t].records, Top(s.next, s.tables[t].last)) {
      RequestKeepsInv(cfg, s, lay, t, q);
      LoadIsBeyond(s', LayoutAfter(s, lay, t));
    } else {
      TieReload(cfg, s, lay, t, q);
      AfterRequestIs(cfg, s, t, q);
      assert IsData(s'.tables, t, q.index, 0) && DataAt(s'.tables, t, q.index, 0) == record.key;
      assert IsData(s'.tables, t, q.index, 1) && DataAt(s'.tables, t, q.index, 1) == record.value;
    }
  }

  // ----- Links between adjacent blocks -----

  /**
    A new block is linked right behind the block before it, and not beyond it as the loader asserts,
    exactly when nothing was allocated after that block.
    */
  lemma AdjacentLink(cfg: Config, s: Store, lay: Layout, t: nat, q: Request)
    requires Inv(s, lay) && Writable(cfg, s, t, q) && NeedsBlock(s.tables[t].last.header)
    ensures var d', last := AfterRequest(cfg, s, t, q).disk, s.tables[t].last.offset;
      && last + BLOCK_HEADER_SIZE <= |d'|
      && HeaderAt(d', last).next >= last + HeaderAt(d', last).size
      && (HeaderAt(d', last).next > last + HeaderAt(d', last).size <==> s.next != last + BLOCK_SIZE)
  {
    hide Log, FieldsMade, Keeps, Replay;
    AllWritten(cfg, s, lay, t, q);
    var d' := AfterRequest(cfg, s, t, q).disk;
    OpenDone(cfg, s, lay, t, q, d');
    InvLastBlock(s, lay, t);
    var chain, chain' := lay[t], lay[t] + [s.next];
    assert TableOk(d', chain', TableAfter(s.tables[t], s.next, RequestRecord(cfg, s, t, q)));
    var k := |chain| - 1;
    assert chain'[k] == s.tables[t].last.offset && chain'[k + 1] == s.next;
    assert BlockOk(HeaderAt(d', chain'[k])) && HeaderAt(d', chain'[k]).next == chain'[k + 1];
  }
}
