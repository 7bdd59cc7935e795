/** The `Ldb` class: the code that reads and writes the file, against the description of its writes. */
module LdbEngine {
  import opened Bytes
  import opened Sequences
  import opened Disk
  import opened Paging
  import opened LdbFormat
  import opened LdbLoad
  import opened LdbAppend
  import opened LdbTable
  import opened LdbStore
  import opened LdbRecover
  import opened LdbAppended
  import opened LdbCommit
  import opened LdbUser
  import opened LdbMeta
  import opened LdbView
  import opened LdbRun
  import opened LdbKeyed
  import opened LdbLimits

  lemma HeaderInBuffer(d: bytes, offset: nat, buffer: bytes)
    requires offset + BLOCK_HEADER_SIZE <= |d| && buffer == d[offset..offset + BLOCK_HEADER_SIZE]
    ensures HeaderAt(buffer, 0) == HeaderAt(d, offset)
  {
    WordInBuffer(d, offset, buffer, 0);
    WordInBuffer(d, offset, buffer, 4);
    WordInBuffer(d, offset, buffer, 8);
  }

  lemma WordInBuffer(d: bytes, offset: nat, buffer: bytes, k: nat)
    requires offset + |buffer| <= |d| && buffer == d[offset..offset + |buffer|] && k + 4 <= |buffer|
    ensures WordAt(buffer, k) == WordAt(d, offset + k)
  {
    assert forall i :: 0 <= i < |buffer| ==> buffer[i] == d[offset + i];
    assert buffer[k] == d[offset + k] && buffer[k + 1] == d[offset + (k + 1)] && buffer[k + 2] == d[offset + (k + 2)] && buffer[k + 3] == d[offset + (k + 3)];
  }

  lemma FieldInBuffer(d: bytes, offset: nat, buffer: bytes, k: nat)
    requires offset + |buffer| <= |d| && buffer == d[offset..offset + |buffer|] && k + 12 <= |buffer|
    ensures FieldAt(buffer, k) == FieldAt(d, offset + k)
  {
    WordInBuffer(d, offset, buffer, k);
    WordInBuffer(d, offset, buffer, k + 4);
    WordInBuffer(d, offset, buffer, k + 8);
  }

  lemma RecordInBuffer(d: bytes, offset: nat, buffer: bytes, k: nat)
    requires offset + |buffer| <= |d| && buffer == d[offset..offset + |buffer|] && k + LOG_RECORD_SIZE <= |buffer|
    ensures RecordAt(buffer, k) == RecordAt(d, offset + k)
  {
    FieldInBuffer(d, offset, buffer, k);
    FieldInBuffer(d, offset, buffer, k + 12);
    FieldInBuffer(d, offset, buffer, k + 24);
    FieldInBuffer(d, offset, buffer, k + 36);
  }

  // ----- Replay in pieces -----

  function ReplayOn(records: seq<LogRecord>, log: seq<LogRecord>): seq<LogRecord> {
    if log == [] then records else ReplayRecord(ReplayOn(records, log[..|log| - 1]), log[|log| - 1])
  }

  lemma {:induction false} ReplayOnward(a: seq<LogRecord>, b: seq<LogRecord>)
    ensures Replay(a + b) == ReplayOn(Replay(a), b)
  {
    if b == [] {
      assert a + b == a;
    } else {
      ReplayOnward(a, b[..|b| - 1]);
      assert (a + b)[..|a + b| - 1] == a + b[..|b| - 1];
    }
  }

  lemma {:induction false} LastIdOnward(a: seq<LogRecord>, b: seq<LogRecord>, id: nat)
    ensures LogLastId(a + b, id) == LogLastId(b, LogLastId(a, id))
  {
    if b == [] {
      assert a + b == a;
    } else {
      LastIdOnward(a, b[..|b| - 1], id);
      assert (a + b)[..|a + b| - 1] == a + b[..|b| - 1];
    }
  }

  /** One more block of a chain: what the table, the free space and the last id become. */
  lemma OneMoreBlock(d: bytes, chain: seq<nat>, k: nat, next: nat, id: nat)
    requires AllFit(d, chain) && k < |chain|
    ensures AllFit(d, chain[..k]) && AllFit(d, chain[..k + 1])
    ensures Replay(Log(d, chain[..k + 1])) == ReplayOn(Replay(Log(d, chain[..k])), BlockLog(d, chain[k]))
    ensures ChainEnd(d, chain[..k + 1], next)
         == LogEnd(BlockLog(d, chain[k]), Max(ChainEnd(d, chain[..k], next), chain[k] + HeaderAt(d, chain[k]).size))
    ensures LogLastId(Log(d, chain[..k + 1]), id) == LogLastId(BlockLog(d, chain[k]), LogLastId(Log(d, chain[..k]), id))
  {
    hide HeaderAt, BlockLog;
    assert chain[..k + 1][..k] == chain[..k];
    ReplayOnward(Log(d, chain[..k]), BlockLog(d, chain[k]));
    LastIdOnward(Log(d, chain[..k]), BlockLog(d, chain[k]), id);
  }

  /** Tables by name; a later table of the same name would replace an earlier one. */
  function ByName(tables: seq<TableInfo>): map<bytes, TableInfo> {
    if tables == [] then map[] else ByName(tables[..|tables| - 1])[tables[|tables| - 1].name := tables[|tables| - 1]]
  }

  lemma {:induction false} ByNameIs(tables: seq<TableInfo>)
    requires forall i, j :: 0 <= i < j < |tables| ==> tables[i].name != tables[j].name
    ensures forall i :: 0 <= i < |tables| ==> tables[i].name in ByName(tables) && ByName(tables)[tables[i].name] == tables[i]
    ensures forall n :: n in ByName(tables) ==> exists i :: 0 <= i < |tables| && tables[i].name == n
  {
    if tables != [] {
      var init := tables[..|tables| - 1];
      assert forall i :: 0 <= i < |init| ==> init[i] == tables[i];
      ByNameIs(init);
    }
  }

  lemma TailDistinct(tables: seq<TableInfo>)
    requires NamesDistinct(tables) && tables != []
    ensures forall i, j :: 0 <= i < j < |tables[1..]| ==> tables[1..][i].name != tables[1..][j].name
  {
    var tail := tables[1..];
    forall i, j | 0 <= i < j < |tail| ensures tail[i].name != tail[j].name {
      assert tail[i] == tables[i + 1] && tail[j] == tables[j + 1];
    }
  }

  /** Looking a name up in the map finds the table of that name. */
  lemma NameFound(tables: seq<TableInfo>, name: bytes)
    requires NamesDistinct(tables) && tables != []
    ensures name in ByName(tables[1..]) <==> TableIndex(tables, name).Some?
    ensures TableIndex(tables, name).Some? ==> ByName(tables[1..])[name] == tables[TableIndex(tables, name).value]
  {
    TailDistinct(tables);
    ByNameIs(tables[1..]);
    var tail := tables[1..];
    assert forall i :: 0 <= i < |tail| ==> tail[i] == tables[i + 1];
    if TableIndex(tables, name).Some? {
      assert tail[TableIndex(tables, name).value - 1].name == name;
    }
  }

  lemma TableIndexUnique(tables: seq<TableInfo>, t: nat)
    requires NamesDistinct(tables) && 1 <= t < |tables|
    ensures TableIndex(tables, tables[t].name) == Some(t)
  {
    var r := TableIndex(tables, tables[t].name);
    assert r.Some? && tables[r.value].name == tables[t].name;
    assert NamesDistinct(tables);
  }

  lemma ByNameChanged(tables: seq<TableInfo>, t: nat, t': TableInfo)
    requires NamesDistinct(tables) && 1 <= t < |tables| && t'.name == tables[t].name
    ensures ByName(tables[t := t'][1..]) == ByName(tables[1..])[t'.name := t']
  {
    var tables' := tables[t := t'];
    NamesKept(tables, t, t');
    var a, b := ByName(tables'[1..]), ByName(tables[1..])[t'.name := t'];
    forall n | n in a || n in b ensures n in a && n in b && a[n] == b[n] {
      NameFound(tables, n);
      NameFound(tables', n);
      if TableIndex(tables, n).Some? {
        TableIndexUnique(tables', TableIndex(tables, n).value);
      }
      if TableIndex(tables', n).Some? {
        TableIndexUnique(tables, TableIndex(tables', n).value);
      }
      TableIndexUnique(tables, t);
    }
  }

  lemma ByNameRemoved(tables: seq<TableInfo>, meta: TableInfo, k: nat)
    requires NamesDistinct(tables) && 1 <= k < |tables|
    ensures ByName(RemovedAt(tables[0 := meta], k)[1..]) == ByName(tables[1..]) - {tables[k].name}
  {
    hide RemovedAt, ByName;
    var tables' := RemovedAt(tables[0 := meta], k);
    NamesRemoved(tables, meta, k);
    Removed(tables[0 := meta], k);
    var a, b := ByName(tables'[1..]), ByName(tables[1..]) - {tables[k].name};
    forall n | n in a ensures n in b && a[n] == b[n] {
      NameFound(tables', n);
      var i := TableIndex(tables', n).value;
      assert tables'[i] == tables[Before(k, i)];
      TableIndexUnique(tables, Before(k, i));
      TableIndexUnique(tables, k);
      NameFound(tables, n);
    }
    forall n | n in b ensures n in a {
      NameFound(tables, n);
      var j := TableIndex(tables, n).value;
      var i: nat := if j < k then j else j - 1;
      assert Before(k, i) == j && tables'[i] == tables[j];
      TableIndexUnique(tables', i);
      NameFound(tables', n);
    }
  }

  /** The record of the metatable with the name is the one of the table of that name. */
  lemma NameIsKey(s: Store, lay: Layout, name: bytes)
    requires Inv(s, lay)
    ensures FindItem(ViewRecords(s.disk, s.tables[0].records), 0, name)
         == match TableIndex(s.tables, name) case None => None case Some(t) => Some(t - 1)
  {
    InvNames(s, lay);
    InvData(s, lay);
    var items := ViewRecords(s.disk, s.tables[0].records);
    forall a: nat | a < |items| ensures items[a].key == Some(s.tables[a + 1].name) {
      assert Roots(s.disk, s.tables, lay, a);
      assert IsData(s.tables, 0, a, 0) && FieldOk(s.disk, s.next, DataAt(s.tables, 0, a, 0));
    }
    var r, t := FindItem(items, 0, name), TableIndex(s.tables, name);
    if r.Some? {
      TableIndexUnique(s.tables, r.value + 1);
    }
    assert t.Some? ==> items[t.value - 1].key == Some(name);
  }

  class Ldb {
    const file: PagedFile
    var metatable: TableInfo
    var tables: map<bytes, TableInfo>
    var nextDataOffset: nat
    var growPagesStep: nat
    var lastRecordID: nat

    constructor (file: PagedFile)
      requires file.Valid()
      ensures this.file == file && nextDataOffset == 0 && lastRecordID == 0
      ensures file.pageSize > 0 ==> growPagesStep == CACHE_BYTES / file.pageSize
    {
      this.file := file;
      nextDataOffset := 0;
      growPagesStep := CACHE_BYTES / file.pageSize;
      lastRecordID := 0;
      metatable := TableInfo([], HeaderInfo(BlockHeader(0, 0, 0), 0), []);
      tables := map[];
    }

    function Cfg(): Config
      reads this, file
    {
      Config(file.pageSize, growPagesStep)
    }

    /** The file is usable and `nextDataOffset` lies inside it. */
    ghost predicate Valid()
      reads this, file
    {
      file.Valid() && file.WholePages() && nextDataOffset <= |file.file|
    }

    /** The planned writes up to the cursor have been made, starting from file `d0` and write history `h0`. */
    ghost predicate At(d0: bytes, h0: seq<Io>, c: Cursor)
      reads this, file
    {
      && file.file == DoAll(d0, c.ios)
      && file.history == h0 + c.ios
      && nextDataOffset == c.next && |file.file| == c.size
    }

    // ----- Writing -----

    method LeaveRoom(size: nat)
      requires file.Valid() && file.WholePages()
      modifies file
      ensures file.Valid() && file.WholePages() && file.pageSize == old(file.pageSize)
      ensures file.file == Do(old(file.file), Grow(GrowBytes(Cfg(), size)))
      ensures file.history == old(file.history) + [Grow(GrowBytes(Cfg(), size))]
    {
      var pages := size / file.pageSize + 1;
      if pages < growPagesStep {
        pages := growPagesStep;
      }
      file.GrowFile(pages);
    }

    method EnsureSpace(count: nat, ghost d0: bytes, ghost h0: seq<Io>, ghost c: Cursor)
      requires Valid() && At(d0, h0, c)
      modifies file
      ensures Valid() && file.pageSize == old(file.pageSize)
      ensures At(d0, h0, LdbAppend.EnsureSpace(Cfg(), c, count))
    {
      hide GrowBytes;
      var space := |file.file| - nextDataOffset;
      if space < count {
        LeaveRoom(count - space);
        DoAllSnoc(d0, c.ios, Grow(GrowBytes(Cfg(), count - space)));
      }
    }

    /** A write inside the file. */
    method WriteAt(offset: nat, data: bytes, ghost d0: bytes, ghost h0: seq<Io>, ghost ios: seq<Io>)
      requires Valid() && offset + |data| <= |file.file|
      requires file.file == DoAll(d0, ios) && file.history == h0 + ios
      modifies file
      ensures Valid() && file.pageSize == old(file.pageSize)
      ensures file.file == DoAll(d0, ios + [Put(offset, data)]) && file.history == h0 + (ios + [Put(offset, data)])
      ensures |file.file| == old(|file.file|)
    {
      file.Write(offset, data);
      DoAllSnoc(d0, ios, Put(offset, data));
    }

    method WriteLdbData(data: Option<bytes>, ghost d0: bytes, ghost h0: seq<Io>, ghost c: Cursor) returns (field: Field)
      requires Valid() && At(d0, h0, c)
      modifies this`nextDataOffset, file
      ensures Valid() && file.pageSize == old(file.pageSize)
      ensures field == FieldFor(c.next, data)
      ensures At(d0, h0, PlanData(Cfg(), c, data))
    {
      hide GrowBytes, DoHash;
      match data
      case None =>
        field := NULL_FIELD;
      case Some(bs) =>
        field := Field(nextDataOffset, |bs|, DoHash(bs));
        EnsureSpace(|bs|, d0, h0, c);
        ghost var e := LdbAppend.EnsureSpace(Cfg(), c, |bs|);
        WriteAt(nextDataOffset, bs, d0, h0, e.ios);
        nextDataOffset := nextDataOffset + |bs|;
    }

    method CreateNewBlockIfNeeded(current: HeaderInfo, ghost d0: bytes, ghost h0: seq<Io>) returns (created: bool, target: HeaderInfo)
      requires Valid() && At(d0, h0, Cursor([], nextDataOffset, |d0|)) && d0 == file.file
      requires current.header.size >= BLOCK_HEADER_SIZE
      modifies this`nextDataOffset, file
      ensures Valid() && file.pageSize == old(file.pageSize)
      ensures created == NeedsBlock(current.header)
      ensures target == TargetBlock(old(nextDataOffset), current)
      ensures At(d0, h0, AfterBlock(Cfg(), |d0|, old(nextDataOffset), current))
    {
      created := NeedsBlock(current.header);
      target := current;
      if created {
        ghost var c := Cursor([], nextDataOffset, |d0|);
        EnsureSpace(current.header.size, d0, h0, c);
        ghost var e := LdbAppend.EnsureSpace(Cfg(), c, current.header.size);
        var header := BlockHeader(current.header.size, 0, 0);
        WriteAt(nextDataOffset, EncodeHeader(header), d0, h0, e.ios);
        target := HeaderInfo(header, nextDataOffset);
        nextDataOffset := nextDataOffset + header.size;
      }
    }

    /** `AppendLogRecord`: makes exactly the planned writes, in their order, and updates the table in memory. */
    method AppendLogRecord(t: TableInfo, q: Request) returns (t': TableInfo)
      requires Valid() && Ready(Cfg(), file.file, nextDataOffset, t, q)
      requires IndexFits(t, q)
      modifies this`nextDataOffset, this`lastRecordID, file
      ensures Valid() && file.pageSize == old(file.pageSize)
      ensures lastRecordID == (old(lastRecordID) + 1) % WORD_LIMIT
      ensures var ios := Writes(old(Cfg()), old(|file.file|), old(nextDataOffset), t, lastRecordID, q);
        file.file == DoAll(old(file.file), ios) && file.history == old(file.history) + ios
      ensures nextDataOffset == AfterData(old(Cfg()), old(|file.file|), old(nextDataOffset), t.last, q).next
      ensures t' == TableRemembered(old(Cfg()), old(|file.file|), old(nextDataOffset), t, lastRecordID, q)
    {
      ghost var d0, h0, next0, cfg := file.file, file.history, nextDataOffset, Cfg();
      lastRecordID := (lastRecordID + 1) % WORD_LIMIT;
      assert h0 + [] == h0;
      var created, target := CreateNewBlockIfNeeded(t.last, d0, h0);
      var record := WriteFields(t, q, d0, h0, next0, cfg);
      TargetFits(cfg, |d0|, next0, t.last, q);
      CommitRecord(t, target, created, record, d0, h0, next0, AfterData(cfg, |d0|, next0, t.last, q));
      WritesEndWithCommit(cfg, |d0|, next0, t, lastRecordID, q);
      t' := TableInfo(t.name, Bumped(target), Remember(t.records, record));
    }

    /** The data of the request, and the record that points to it or to what a SET keeps. */
    method WriteFields(t: TableInfo, q: Request, ghost d0: bytes, ghost h0: seq<Io>, ghost next0: nat, ghost cfg: Config) returns (record: LogRecord)
      requires Valid() && next0 <= |d0| && cfg == Cfg() && At(d0, h0, AfterBlock(cfg, |d0|, next0, t.last))
      requires q.operation == OPERATION_SET ==> q.index < |t.records|
      modifies this`nextDataOffset, file
      ensures Valid() && file.pageSize == old(file.pageSize)
      ensures At(d0, h0, AfterData(cfg, |d0|, next0, t.last, q))
      ensures record == NewRecord(cfg, |d0|, next0, t, lastRecordID, q)
    {
      var key := WriteLdbData(q.key, d0, h0, AfterBlock(cfg, |d0|, next0, t.last));
      var value := WriteLdbData(q.value, d0, h0, AfterKey(cfg, |d0|, next0, t.last, q));
      var metadata := WriteLdbData(q.metadata, d0, h0, AfterValue(cfg, |d0|, next0, t.last, q));
      if q.operation == OPERATION_SET {
        var was := t.records[q.index];
        if q.key.None? {
          key := was.key;
        }
        if q.value.None? {
          value := was.value;
        }
        if q.metadata.None? {
          metadata := was.metadata;
        }
      }
      record := LogRecord(q.operation, q.index, lastRecordID, key, value, metadata);
    }

    /** The record into its slot, the header of its block, and last the link to a new block. */
    method CommitRecord(t: TableInfo, target: HeaderInfo, created: bool, record: LogRecord, ghost d0: bytes, ghost h0: seq<Io>, ghost next0: nat, ghost c: Cursor)
      requires Valid() && At(d0, h0, c)
      requires BlockOk(t.last.header) && t.last.header.next == 0 && t.last.offset + BLOCK_SIZE <= next0
      requires created == NeedsBlock(t.last.header) && target == TargetBlock(next0, t.last)
      requires target.offset + BLOCK_SIZE <= c.size
      requires next0 <= c.size
      modifies file
      ensures Valid() && file.pageSize == old(file.pageSize)
      ensures var ios := BeforeCommit(c.ios, next0, t.last, record) + [Commit(next0, t.last)];
        file.file == DoAll(d0, ios) && file.history == h0 + ios
    {
      SlotInside(next0, t.last);
      var slot := SlotOffset(target.offset, target.header.used);
      var bumped := Bumped(target);
      WriteAt(slot, EncodeRecord(record), d0, h0, c.ios);
      ghost var ios := c.ios + [Put(slot, EncodeRecord(record))];
      WriteAt(target.offset, EncodeHeader(bumped.header), d0, h0, ios);
      if created {
        var linked := t.last.header.(next := target.offset);
        WriteAt(t.last.offset, EncodeHeader(linked), d0, h0, ios + [Put(target.offset, EncodeHeader(bumped.header))]);
        assert BeforeCommit(c.ios, next0, t.last, record) == ios + [Put(target.offset, EncodeHeader(bumped.header))];
      } else {
        assert BeforeCommit(c.ios, next0, t.last, record) == ios;
      }
    }

    // ----- Loading -----

    method ReadHeader(block: nat) returns (header: BlockHeader)
      requires file.Valid() && block + BLOCK_HEADER_SIZE <= |file.file|
      modifies file`cache, file`cachePages
      ensures file.Valid() && header == HeaderAt(file.file, block)
    {
      var buffer := file.Read(block, BLOCK_HEADER_SIZE);
      HeaderInBuffer(file.file, block, buffer);
      header := HeaderAt(buffer, 0);
    }

    /** `LoadLogRecords`: all log records of a block, read in one go. */
    method LoadLogRecords(block: nat, header: BlockHeader) returns (log: seq<LogRecord>)
      requires file.Valid() && BlockFits(file.file, block) && header == HeaderAt(file.file, block)
      modifies file`cache, file`cachePages
      ensures file.Valid() && log == BlockLog(file.file, block)
    {
      if header.used == 0 {
        return [];
      }
      var buffer := file.Read(block + BLOCK_HEADER_SIZE, header.used * LOG_RECORD_SIZE);
      log := seq(header.used, a requires 0 <= a < header.used => RecordAt(buffer, LOG_RECORD_SIZE * a));
      forall a | 0 <= a < header.used ensures log[a] == RecordAt(file.file, SlotOffset(block, a)) {
        RecordInBuffer(file.file, block + BLOCK_HEADER_SIZE, buffer, LOG_RECORD_SIZE * a);
      }
    }

    /** Does what the log records say, in order, and finds the last data and the last id. */
    method ReplayLog(log: seq<LogRecord>, before: seq<LogRecord>) returns (records: seq<LogRecord>)
      modifies this`nextDataOffset, this`lastRecordID
      ensures records == ReplayOn(before, log)
      ensures nextDataOffset == LogEnd(log, old(nextDataOffset))
      ensures lastRecordID == LogLastId(log, old(lastRecordID))
    {
      records := before;
      for a := 0 to |log|
        invariant records == ReplayOn(before, log[..a])
        invariant nextDataOffset == LogEnd(log[..a], old(nextDataOffset))
        invariant lastRecordID == LogLastId(log[..a], old(lastRecordID))
      {
        assert log[..a + 1][..a] == log[..a];
        records := ReplayRecord(records, log[a]);
        if log[a].id > lastRecordID {
          lastRecordID := log[a].id;
        }
        if RecordEnd(log[a]) > nextDataOffset {
          nextDataOffset := RecordEnd(log[a]);
        }
      }
      assert log[..|log|] == log;
    }

    /** Reads a block and does what its log records say. */
    method LoadBlock(t: TableInfo) returns (t': TableInfo)
      requires file.Valid() && BlockFits(file.file, t.last.offset)
      modifies this`nextDataOffset, this`lastRecordID, file`cache, file`cachePages
      ensures file.Valid()
      ensures t' == TableInfo(t.name, HeaderInfo(HeaderAt(file.file, t.last.offset), t.last.offset),
                              ReplayOn(t.records, BlockLog(file.file, t.last.offset)))
      ensures nextDataOffset == LogEnd(BlockLog(file.file, t.last.offset), Max(old(nextDataOffset), t.last.offset + t'.last.header.size))
      ensures lastRecordID == LogLastId(BlockLog(file.file, t.last.offset), old(lastRecordID))
    {
      var header := ReadHeader(t.last.offset);
      if t.last.offset + header.size > nextDataOffset {
        nextDataOffset := t.last.offset + header.size;
      }
      var log := LoadLogRecords(t.last.offset, header);
      var records := ReplayLog(log, t.records);
      t' := TableInfo(t.name, HeaderInfo(header, t.last.offset), records);
    }

    /** Follows the chain from the first block; every block is loaded in turn. */
    method LoadAllBlocks(name: bytes, first: nat) returns (t: TableInfo)
      requires file.Valid() && ChainFrom(file.file, first).Some? && first > 0
      modifies this`nextDataOffset, this`lastRecordID, file`cache, file`cachePages
      ensures file.Valid()
      ensures Some(t) == LoadTable(file.file, name, first)
      ensures var chain := ChainFrom(file.file, first).value;
        && AllFit(file.file, chain)
        && nextDataOffset == ChainEnd(file.file, chain, old(nextDataOffset))
        && lastRecordID == LogLastId(Log(file.file, chain), old(lastRecordID))
    {
      hide HeaderAt, Log, ChainEnd, LogLastId, LoadTable, Loading;
      ghost var chain := ChainFrom(file.file, first).value;
      FoundIsChain(file.file, first);
      t := TableInfo(name, HeaderInfo(BlockHeader(0, 0, 0), first), []);
      var nextTableOffset := first;
      ghost var k := 0;
      StartLoading(file.file, chain, t, nextDataOffset, lastRecordID);
      while nextTableOffset != 0
        invariant file.Valid()
        invariant 0 <= k <= |chain| && nextTableOffset == if k < |chain| then chain[k] else 0
        invariant t.name == name
        invariant Loading(file.file, chain, k, t, old(nextDataOffset), old(lastRecordID), nextDataOffset, lastRecordID)
        decreases |chain| - k
      {
        ghost var before, next, id := t, nextDataOffset, lastRecordID;
        t := t.(last := t.last.(offset := nextTableOffset));
        t := LoadBlock(t);
        nextTableOffset := t.last.header.next;
        KeepLoading(file.file, chain, k, before, t, old(nextDataOffset), old(lastRecordID), next, id, nextDataOffset, lastRecordID);
        NextBlock(file.file, chain, k);
        k := k + 1;
      }
      ChainPositive(file.file, chain, k);
      LoadedAll(file.file, chain, name, first, t, old(nextDataOffset), old(lastRecordID), nextDataOffset, lastRecordID);
    }

    /** Loads the metatable and then the table of each of its records. */
    method LoadTables(root: nat)
      requires file.Valid() && root > 0
      requires ChainFrom(file.file, root).Some?
      requires LoadAllNamed(file.file, Base(file.file, root).meta.records, Base(file.file, root)).Some?
      requires forall r :: r in Base(file.file, root).meta.records ==> r.value.offset > 0
      requires lastRecordID == 0
      modifies this`metatable, this`tables, this`nextDataOffset, this`lastRecordID, file`cache, file`cachePages
      ensures file.Valid()
      ensures var l := LoadAllNamed(file.file, Base(file.file, root).meta.records, Base(file.file, root)).value;
        metatable == l.meta && tables == ByName(l.tables) && nextDataOffset == l.next && lastRecordID == l.lastId
    {
      nextDataOffset := 0;
      metatable := LoadAllBlocks([], root);
      tables := map[];
      ghost var d, base := file.file, Base(file.file, root);
      var records := metatable.records;
      assert records[..0] == [];
      for i := 0 to |records|
        invariant file.Valid() && metatable == base.meta
        invariant LoadedNamed(d, records, i, base, tables, nextDataOffset, lastRecordID)
      {
        LoadOneTable(records, i, base);
      }
      AllNamed(d, records, base, tables, nextDataOffset, lastRecordID);
    }

    /** The table of one metatable record. */
    method LoadOneTable(records: seq<LogRecord>, i: nat, ghost base: Loaded)
      requires file.Valid() && i < |records| && records[i].value.offset > 0
      requires LoadAllNamed(file.file, records, base).Some?
      requires LoadedNamed(file.file, records, i, base, tables, nextDataOffset, lastRecordID)
      modifies this`tables, this`nextDataOffset, this`lastRecordID, file`cache, file`cachePages
      ensures file.Valid()
      ensures LoadedNamed(file.file, records, i + 1, base, tables, nextDataOffset, lastRecordID)
    {
      hide LoadedNamed, LoadAllNamed, ChainFrom;
      CanLoad(file.file, records, i, base);
      var name := file.Read(records[i].key.offset, records[i].key.size);
      ghost var before, next, id := tables, nextDataOffset, lastRecordID;
      var table := LoadAllBlocks(name, records[i].value.offset);
      tables := tables[name := table];
      LoadedOneMore(file.file, records, i, base, before, next, id, name, table, tables, nextDataOffset, lastRecordID);
    }

    // ----- Opening -----

    /** A new file: room, the first block of the metatable, and last the file header, which makes it a database. */
    method InitializeFile()
      requires file.Valid() && file.WholePages() && file.file == [] && lastRecordID == 0
      requires GrowBytes(Cfg(), INITIAL_NEXT + file.pageSize) < WORD_LIMIT
      modifies this`metatable, this`tables, this`nextDataOffset, file
      ensures Cfg() == old(Cfg()) && Open(InitialStore(Cfg()), [[ROOT]])
      ensures file.history == old(file.history) + InitialWrites(Cfg())
    {
      ghost var h0, room := file.history, Grow(GrowBytes(Cfg(), INITIAL_NEXT + file.pageSize));
      metatable := TableInfo([], HeaderInfo(INITIAL_HEADER, ROOT), []);
      tables := map[];
      nextDataOffset := metatable.last.offset + metatable.last.header.size;
      LeaveRoom(nextDataOffset + file.pageSize);
      DoAllSnoc([], [], room);
      assert [] + [room] == [room];
      WriteAt(metatable.last.offset, EncodeHeader(metatable.last.header), [], h0, [room]);
      WriteAt(0, FILE_HEADER, [], h0, [room] + [Put(ROOT, EncodeHeader(INITIAL_HEADER))]);
      InitialHolds(Cfg());
    }

    /**
      Reads the file back into a new object, through pages of 4 MB, and returns to the page size it had.
      A file that is not a database is refused; one that is holds the tables it held, and can be worked with.
      */
    method LoadFile(ghost s: Store, ghost lay: Layout) returns (ok: bool)
      requires file.Valid() && file.WholePages() && file.pageSize <= CACHE_BYTES && |file.file| >= FILE_HEADER_SIZE
      requires WordAt(file.file, 0) == MAGIC ==> Inv(s, lay) && s.disk == file.file
      modifies this`metatable, this`tables, this`nextDataOffset, this`lastRecordID, file
      ensures file.file == old(file.file) && file.history == old(file.history) && Cfg() == old(Cfg())
      ensures ok <==> WordAt(file.file, 0) == MAGIC
      ensures ok ==> LdbLoad.LoadFile(s.disk).Some?
      ensures ok ==> var r := Reopened(s.disk, LdbLoad.LoadFile(s.disk).value); Open(r, lay) && r.tables == s.tables
    {
      hide Inv, LdbLoad.LoadFile, LoadAllNamed, ChainFrom;
      Clear();
      var header := file.Read(0, FILE_HEADER_SIZE);
      WordInBuffer(file.file, 0, header, 0);
      WordInBuffer(file.file, 0, header, 12);
      if WordAt(header, 0) != MAGIC {
        return false;
      }
      InvLoads(s, lay);
      var currentPageSize := file.pageSize;
      file.SetPageSize(CACHE_BYTES);
      LoadTables(WordAt(header, 12));
      file.SetPageSize(currentPageSize);
      LoadedHolds(s, lay, metatable, tables, nextDataOffset, lastRecordID);
      ok := true;
    }

    method Clear()
      modifies this`metatable, this`tables, this`nextDataOffset, this`lastRecordID
      ensures tables == map[] && nextDataOffset == 0 && lastRecordID == 0 && metatable.records == []
    {
      metatable := TableInfo([], HeaderInfo(BlockHeader(0, 0, 0), 0), []);
      tables := map[];
      nextDataOffset := 0;
      lastRecordID := 0;
    }

    /** An empty file is made a database, and any other is loaded. */
    method Create(ghost s: Store, ghost lay: Layout) returns (ok: bool)
      requires file.Valid() && file.WholePages() && FILE_HEADER_SIZE <= file.pageSize <= CACHE_BYTES && lastRecordID == 0
      requires GrowBytes(Cfg(), INITIAL_NEXT + file.pageSize) < WORD_LIMIT
      requires |file.file| >= FILE_HEADER_SIZE && WordAt(file.file, 0) == MAGIC ==> Inv(s, lay) && s.disk == file.file
      modifies this`metatable, this`tables, this`nextDataOffset, this`lastRecordID, file
      ensures Cfg() == old(Cfg())
      ensures old(file.file) == [] ==> ok && Open(InitialStore(Cfg()), [[ROOT]])
      ensures old(file.file) != [] ==> file.file == old(file.file) && (ok <==> WordAt(file.file, 0) == MAGIC)
      ensures old(file.file) != [] && ok ==>
        LdbLoad.LoadFile(s.disk).Some? && Open(Reopened(s.disk, LdbLoad.LoadFile(s.disk).value), lay)
    {
      if |file.file| < FILE_HEADER_SIZE {
        InitializeFile();
        ok := true;
      } else {
        ok := LoadFile(s, lay);
      }
    }

    /**
      Crash atomicity of the object: opening what an object left that stopped after any number of the writes of an
      operation gives one that holds the old contents or, if all were made, the new ones.
      */
    method OpenAfterCrash(ghost cfg: Config, ghost s: Store, ghost lay: Layout, ghost op: Op, ghost k: nat) returns (ok: bool)
      requires file.Valid() && file.WholePages() && file.pageSize <= CACHE_BYTES
      requires Inv(s, lay) && Allowed(cfg, s, op) && k <= |WritesOf(cfg, s, op)|
      requires file.file == DoAll(s.disk, WritesOf(cfg, s, op)[..k])
      modifies this`metatable, this`tables, this`nextDataOffset, this`lastRecordID, file
      ensures ok && file.file == old(file.file) && file.history == old(file.history) && Cfg() == old(Cfg())
      ensures Recovered(cfg, s, op, k).Some?
      ensures var r := Recovered(cfg, s, op, k).value;
        && Open(r, if k < |WritesOf(cfg, s, op)| then lay else LayoutOf(s, lay, op))
        && View(r) == if k < |WritesOf(cfg, s, op)| then View(s) else Spec(View(s), op)
    {
      CrashAtomicity(cfg, s, lay, op, k);
      LeftByCrash(cfg, s, lay, op, k);
      ghost var left := LeftStore(cfg, s, op, k);
      ok := LoadFile(left, if k < |WritesOf(cfg, s, op)| then lay else LayoutOf(s, lay, op));
    }

    // ----- Public operations -----

    /** The object holds the database `s`. */
    ghost predicate Shows(s: Store)
      reads this, file
    {
      Holds(s, file.file, nextDataOffset, lastRecordID, metatable, tables)
    }

    /** What every operation finds: a database with its invariant, in whole pages. */
    ghost predicate Open(s: Store, lay: Layout)
      reads this, file
    {
      Valid() && Shows(s) && Inv(s, lay)
    }

    /** Compares a stored key: by size and hash first, then by reading it. */
    method KeyEquals(field: Field, key: bytes, keyHash: nat) returns (equal: bool)
      requires Valid() && FieldOk(file.file, nextDataOffset, field) && keyHash == DoHash(key)
      modifies file`cache, file`cachePages
      ensures Valid()
      ensures equal <==> ViewField(file.file, field) == Some(key)
    {
      if field.size != |key| || field.hash != keyHash {
        return false;
      }
      var keyFromDb := [];
      if field.size != 0 {
        keyFromDb := file.Read(field.offset, field.size);
      }
      equal := keyFromDb == key;
    }

    /** The first record with the key; the same as a plain search on the key bytes. */
    method FindKey(records: seq<LogRecord>, start: nat, key: bytes) returns (r: Option<nat>)
      requires Valid()
      requires forall a :: 0 <= a < |records| ==> FieldOk(file.file, nextDataOffset, records[a].key)
      modifies file`cache, file`cachePages
      ensures Valid()
      ensures r == FindItem(ViewRecords(file.file, records), start, key)
    {
      if start >= |records| {
        return None;
      }
      var keyHash := DoHash(key);
      ghost var items := ViewRecords(file.file, records);
      for a := start to |records|
        invariant Valid()
        invariant FindItem(items, start, key) == FindItem(items, a, key)
      {
        var equal := KeyEquals(records[a].key, key, keyHash);
        assert items[a].key == ViewField(file.file, records[a].key);
        if equal {
          return Some(a);
        }
      }
      r := None;
    }

    /** A request on a table of the map. */
    method ChangeTable(name: bytes, q: Request)
      requires Valid() && name in tables && Ready(Cfg(), file.file, nextDataOffset, tables[name], q)
      requires IndexFits(tables[name], q)
      modifies this`tables, this`nextDataOffset, this`lastRecordID, file
      ensures Valid() && file.pageSize == old(file.pageSize)
      ensures TableChanged(old(Cfg()), q, name, old(file.file), old(nextDataOffset), old(lastRecordID), old(tables), old(file.history),
                           file.file, nextDataOffset, lastRecordID, tables, file.history)
    {
      var t' := AppendLogRecord(tables[name], q);
      tables := tables[name := t'];
    }

    /** A request on a table changes the database as described. */
    method Change(name: bytes, q: Request, ghost s: Store, ghost lay: Layout, ghost t: nat)
      requires Open(s, lay) && 1 <= t < |s.tables| && s.tables[t].name == name && Writable(Cfg(), s, t, q)
      modifies this`tables, this`nextDataOffset, this`lastRecordID, file
      ensures Valid() && Shows(AfterRequest(old(Cfg()), s, t, q)) && Cfg() == old(Cfg())
      ensures file.history == old(file.history) + RequestWrites(old(Cfg()), s, t, q)
    {
      HeldReady(Cfg(), s, lay, t, q);
      InvDistinct(s, lay);
      ChangeTable(name, q);
      ChangedHolds(old(Cfg()), s, t, q, old(tables), old(file.history), metatable, file.file, nextDataOffset, lastRecordID, tables, file.history);
    }

    /** Append, SetByIndex, InsertByIndex, DeleteByIndex and ClearAllRecords: the index is checked, then the request made. */
    method Perform(op: Op, ghost s: Store, ghost lay: Layout)
      requires Open(s, lay) && Allowed(Cfg(), s, op) && !op.CreateTable? && !op.DeleteTable?
      modifies this`tables, this`nextDataOffset, this`lastRecordID, file
      ensures Valid() && Cfg() == old(Cfg()) && Shows(After(old(Cfg()), s, op))
      ensures file.history == old(file.history) + WritesOf(old(Cfg()), s, op)
    {
      InvDistinct(s, lay);
      NameFound(s.tables, op.name);
      if op.name in tables {
        match RequestOf(op, |tables[op.name].records|)
        case None =>
          assert file.history == file.history + [];
        case Some(q) =>
          Change(op.name, q, s, lay, TableIndex(s.tables, op.name).value);
      } else {
        assert file.history == file.history + [];
      }
    }

    // ----- Access by key -----

    /** The data of a field, empty when none was ever given for it. */
    method ReadData(field: Field) returns (data: bytes)
      requires Valid() && FieldOk(file.file, nextDataOffset, field)
      modifies file`cache, file`cachePages
      ensures Valid() && data == DataOr(ViewField(file.file, field))
    {
      data := [];
      if field.size != 0 {
        data := file.Read(field.offset, field.size);
      }
    }

    /** The first record from `start` on with the key, in a table of the database. */
    method FindInTable(name: bytes, start: nat, key: bytes, ghost s: Store, ghost lay: Layout) returns (index: Option<nat>)
      requires Open(s, lay) && name in tables
      modifies file`cache, file`cachePages
      ensures Open(s, lay) && Cfg() == old(Cfg()) && name in View(s) && |View(s)[name]| == |tables[name].records|
      ensures index == FindItem(View(s)[name], start, key)
    {
      HeldFields(s, lay, name);
      index := FindKey(tables[name].records, start, key);
    }

    /**
      `Get`: whether the key is there, and its value and metadata. On a table where no key occurs twice this is
      looking the key up in the map the table stands for.
      */
    method Get(name: bytes, start: nat, key: bytes, ghost s: Store, ghost lay: Layout)
      returns (index: Option<nat>, value: bytes, metadata: bytes)
      requires Open(s, lay) && name in tables
      modifies file`cache, file`cachePages
      ensures Open(s, lay) && Cfg() == old(Cfg()) && name in View(s)
      ensures index == FindItem(View(s)[name], start, key)
      ensures index.Some? ==>
        var item := View(s)[name][index.value]; value == DataOr(item.value) && metadata == DataOr(item.metadata)
      ensures start == 0 && Keyed(View(s)[name]) ==>
        && (index.Some? <==> key in AsMap(View(s)[name]))
        && (index.Some? ==> var e := AsMap(View(s)[name])[key]; value == DataOr(e.value) && metadata == DataOr(e.metadata))
    {
      hide AsMap, ViewTables, Inv;
      index := FindInTable(name, start, key, s, lay);
      value, metadata := [], [];
      if index.Some? {
        HeldFields(s, lay, name);
        var record := tables[name].records[index.value];
        value := ReadData(record.value);
        metadata := ReadData(record.metadata);
        ItemIs(file.file, tables[name].records, index.value);
      }
      if start == 0 && Keyed(View(s)[name]) {
        FindIsLookup(View(s)[name], key);
      }
    }

    /**
      `Set`: sets the record found by its key, or appends one. On a table where no key occurs twice this sets the
      key in the map the table stands for.
      */
    method Set(name: bytes, start: nat, key: bytes, value: Option<bytes>, metadata: Option<bytes>, ghost s: Store, ghost lay: Layout)
      returns (index: nat)
      requires Open(s, lay) && name in tables && name in View(s)
      requires Allowed(Cfg(), s, SetOp(name, View(s)[name], start, key, value, metadata))
      modifies this`tables, this`nextDataOffset, this`lastRecordID, file
      ensures Valid() && Cfg() == old(Cfg())
      ensures SetDone(old(Cfg()), s, lay, name, start, key, value, metadata, index, old(file.history), file.file, nextDataOffset, lastRecordID, metatable, tables, file.history)
    {
      hide SetDone, ViewTables, Allowed, Holds, Inv;
      index := |tables[name].records|;
      var found := FindInTable(name, start, key, s, lay);
      ghost var op := SetOp(name, View(s)[name], start, key, value, metadata);
      if found.Some? {
        index := found.value;
        Perform(Op.SetByIndex(name, found.value, Some(key), value, metadata), s, lay);
      } else {
        Perform(Op.Append(name, Some(key), value, metadata), s, lay);
      }
      SetIsDone(old(Cfg()), s, lay, name, start, key, value, metadata, index, old(file.history), file.file, nextDataOffset, lastRecordID, metatable, tables, file.history);
    }

    /** `Delete`: removes the record found by its key, which on a table where no key occurs twice removes it from the map. */
    method Delete(name: bytes, start: nat, key: bytes, ghost s: Store, ghost lay: Layout) returns (index: Option<nat>)
      requires Open(s, lay) && name in tables && name in View(s)
      requires DeleteOp(name, View(s)[name], start, key).Some? ==> Allowed(Cfg(), s, DeleteOp(name, View(s)[name], start, key).value)
      modifies this`tables, this`nextDataOffset, this`lastRecordID, file
      ensures Valid() && Cfg() == old(Cfg())
      ensures DeleteDone(old(Cfg()), s, lay, name, start, key, index, old(file.history), file.file, nextDataOffset, lastRecordID, metatable, tables, file.history)
    {
      hide DeleteDone, ViewTables, Allowed, Inv, Holds;
      index := FindInTable(name, start, key, s, lay);
      if index.Some? {
        Perform(Op.DeleteByIndex(name, index.value), s, lay);
      }
      DeleteIsDone(old(Cfg()), s, lay, name, start, key, index, old(file.history), file.file, nextDataOffset, lastRecordID, metatable, tables, file.history);
    }

    /** A request on the metatable. */
    method ChangeMeta(q: Request)
      requires Valid() && Ready(Cfg(), file.file, nextDataOffset, metatable, q)
      requires IndexFits(metatable, q)
      modifies this`metatable, this`nextDataOffset, this`lastRecordID, file
      ensures Valid() && file.pageSize == old(file.pageSize)
      ensures MetaChanged(old(Cfg()), q, old(file.file), old(nextDataOffset), old(lastRecordID), old(metatable), old(file.history),
                          file.file, nextDataOffset, lastRecordID, metatable, file.history)
    {
      metatable := AppendLogRecord(metatable, q);
    }

    /** A new table: its metatable record, whose value is its first block, and its entry. */
    method AddTable(name: bytes)
      requires Valid() && Ready(Cfg(), file.file, nextDataOffset, metatable, CreateRequest(|metatable.records|, name))
      modifies this`tables, this`metatable, this`nextDataOffset, this`lastRecordID, file
      ensures Valid() && file.pageSize == old(file.pageSize)
      ensures MetaChanged(old(Cfg()), CreateRequest(|old(metatable).records|, name), old(file.file), old(nextDataOffset), old(lastRecordID), old(metatable), old(file.history),
                          file.file, nextDataOffset, lastRecordID, metatable, file.history)
      ensures tables == WithTable(old(tables), name, Top(old(nextDataOffset), old(metatable).last) + |name|)
    {
      var index := |metatable.records|;
      ChangeMeta(CreateRequest(index, name));
      MetaGrown(old(Cfg()), name, old(file.file), old(nextDataOffset), old(lastRecordID), old(metatable), old(file.history),
                file.file, nextDataOffset, lastRecordID, metatable, file.history);
      var first := metatable.records[index].value.offset;
      tables := WithTable(tables, name, first);
    }

    /** Adds a table of a name the database does not have. */
    method AddMissing(name: bytes, ghost s: Store, ghost lay: Layout)
      requires Open(s, lay) && Possible(Cfg(), s, 0, CreateRequest(|s.tables[0].records|, name))
      modifies this`tables, this`metatable, this`nextDataOffset, this`lastRecordID, file
      ensures Valid() && Cfg() == old(Cfg()) && Shows(AfterCreate(old(Cfg()), s, name))
      ensures file.history == old(file.history) + RequestWrites(old(Cfg()), s, 0, CreateRequest(|s.tables[0].records|, name))
    {
      InvReady(Cfg(), s, lay, 0, CreateRequest(|s.tables[0].records|, name));
      AddTable(name);
      CreatedHolds(old(Cfg()), s, name, old(metatable), old(tables), old(file.history), file.file, nextDataOffset, lastRecordID, metatable, tables, file.history);
    }

    /** Adds a table, unless there is one of that name. */
    method CreateTable(name: bytes, ghost s: Store, ghost lay: Layout)
      requires Open(s, lay) && Allowed(Cfg(), s, Op.CreateTable(name))
      modifies this`tables, this`metatable, this`nextDataOffset, this`lastRecordID, file
      ensures Valid() && Cfg() == old(Cfg()) && Shows(After(old(Cfg()), s, Op.CreateTable(name)))
      ensures file.history == old(file.history) + WritesOf(old(Cfg()), s, Op.CreateTable(name))
    {
      InvDistinct(s, lay);
      NameFound(s.tables, name);
      if name in tables {
        assert file.history == file.history + [];
      } else {
        CreateIs(Cfg(), s, name);
        AddMissing(name, s, lay);
      }
    }

    /** A record removed from the metatable, and a table with it. */
    method RemoveTable(index: nat, name: bytes)
      requires Valid() && Ready(Cfg(), file.file, nextDataOffset, metatable, DeleteRequest(index)) && index < |metatable.records|
      modifies this`tables, this`metatable, this`nextDataOffset, this`lastRecordID, file
      ensures Valid() && file.pageSize == old(file.pageSize)
      ensures MetaChanged(old(Cfg()), DeleteRequest(index), old(file.file), old(nextDataOffset), old(lastRecordID), old(metatable), old(file.history),
                          file.file, nextDataOffset, lastRecordID, metatable, file.history)
      ensures tables == old(tables) - {name}
    {
      ChangeMeta(DeleteRequest(index));
      tables := tables - {name};
    }

    /** The search in the metatable by name finds the table of that name. */
    method FindTable(name: bytes, ghost s: Store, ghost lay: Layout) returns (index: Option<nat>)
      requires Open(s, lay)
      modifies file`cache, file`cachePages
      ensures Open(s, lay) && Cfg() == old(Cfg())
      ensures FoundAt(s.tables, name, index)
    {
      FieldsReadable(s, lay, 0);
      NameIsKey(s, lay, name);
      index := FindKey(metatable.records, 0, name);
    }

    /** Removes the metatable record at an index, and the table it stands for. */
    method DropAt(index: nat, name: bytes, ghost s: Store, ghost lay: Layout)
      requires Open(s, lay) && Possible(Cfg(), s, 0, DeleteRequest(index)) && index + 1 < |s.tables| && s.tables[index + 1].name == name
      modifies this`tables, this`metatable, this`nextDataOffset, this`lastRecordID, file
      ensures Valid() && Cfg() == old(Cfg()) && Shows(AfterDelete(old(Cfg()), s, index))
      ensures file.history == old(file.history) + RequestWrites(old(Cfg()), s, 0, DeleteRequest(index))
    {
      InvReady(Cfg(), s, lay, 0, DeleteRequest(index));
      InvDistinct(s, lay);
      RemoveTable(index, name);
      DeletedHolds(old(Cfg()), s, index, name, old(metatable), old(tables), old(file.history), file.file, nextDataOffset, lastRecordID, metatable, tables, file.history);
    }

    method DropNamed(index: nat, name: bytes, ghost s: Store, ghost lay: Layout)
      requires Open(s, lay) && Allowed(Cfg(), s, Op.DeleteTable(name)) && FoundAt(s.tables, name, Some(index))
      modifies this`tables, this`metatable, this`nextDataOffset, this`lastRecordID, file
      ensures Valid() && Cfg() == old(Cfg())
      ensures Performed(old(Cfg()), s, Op.DeleteTable(name), old(file.history), file.file, nextDataOffset, lastRecordID, metatable, tables, file.history)
    {
      DeleteIs(Cfg(), s, name, index);
      DropAt(index, name, s, lay);
    }

    /** The deletion proper, when the search found the table. */
    method DropFound(index: Option<nat>, name: bytes, ghost s: Store, ghost lay: Layout)
      requires Open(s, lay) && Allowed(Cfg(), s, Op.DeleteTable(name)) && FoundAt(s.tables, name, index)
      modifies this`tables, this`metatable, this`nextDataOffset, this`lastRecordID, file
      ensures Valid() && Cfg() == old(Cfg())
      ensures Performed(old(Cfg()), s, Op.DeleteTable(name), old(file.history), file.file, nextDataOffset, lastRecordID, metatable, tables, file.history)
    {
      if index.Some? {
        DropNamed(index.value, name, s, lay);
      } else {
        DeleteIsNothing(Cfg(), s, name, file.history, file.file, nextDataOffset, lastRecordID, metatable, tables);
      }
    }

    /** Removes the metatable record with the name, found by key, and the table. */
    method DeleteTable(name: bytes, ghost s: Store, ghost lay: Layout) returns (found: bool)
      requires Open(s, lay) && Allowed(Cfg(), s, Op.DeleteTable(name))
      modifies this`tables, this`metatable, this`nextDataOffset, this`lastRecordID, file
      ensures Valid() && Cfg() == old(Cfg())
      ensures Performed(old(Cfg()), s, Op.DeleteTable(name), old(file.history), file.file, nextDataOffset, lastRecordID, metatable, tables, file.history)
      ensures found <==> TableIndex(s.tables, name).Some?
    {
      var index := FindTable(name, s, lay);
      DropFound(index, name, s, lay);
      found := index.Some?;
    }
  }

  /** `index` is where the metatable records the table of that name. */
  ghost predicate FoundAt(tables: seq<TableInfo>, name: bytes, index: Option<nat>) {
    index == match TableIndex(tables, name) case None => None case Some(t) => Some(t - 1)
  }

  /** The object holds the database after the operation, and has written what the operation writes. */
  ghost predicate Performed(cfg: Config, s: Store, op: Op, h: seq<Io>,
                            disk: bytes, next: nat, id: nat, meta: TableInfo, tables: map<bytes, TableInfo>, h': seq<Io>) {
    && Allowed(cfg, s, op)
    && Holds(After(cfg, s, op), disk, next, id, meta, tables)
    && h' == h + WritesOf(cfg, s, op)
  }

  function WithTable(tables: map<bytes, TableInfo>, name: bytes, first: nat): map<bytes, TableInfo> {
    tables[name := TableInfo(name, HeaderInfo(BlockHeader(BLOCK_SIZE, 0, 0), first), [])]
  }

  lemma CreateIs(cfg: Config, s: Store, name: bytes)
    requires Allowed(cfg, s, Op.CreateTable(name)) && TableIndex(s.tables, name).None?
    ensures |s.tables| > 0 && Possible(cfg, s, 0, CreateRequest(|s.tables[0].records|, name))
    ensures After(cfg, s, Op.CreateTable(name)) == AfterCreate(cfg, s, name)
    ensures WritesOf(cfg, s, Op.CreateTable(name)) == RequestWrites(cfg, s, 0, CreateRequest(|s.tables[0].records|, name))
  {
    assert Resolve(s.tables, Op.CreateTable(name)) == Create(name);
  }

  lemma DeleteIs(cfg: Config, s: Store, name: bytes, index: nat)
    requires Allowed(cfg, s, Op.DeleteTable(name)) && FoundAt(s.tables, name, Some(index))
    ensures Possible(cfg, s, 0, DeleteRequest(index)) && index + 1 < |s.tables|
    ensures After(cfg, s, Op.DeleteTable(name)) == AfterDelete(cfg, s, index)
    ensures WritesOf(cfg, s, Op.DeleteTable(name)) == RequestWrites(cfg, s, 0, DeleteRequest(index))
  {
    assert Resolve(s.tables, Op.DeleteTable(name)) == Drop(index);
  }

  lemma DeleteIsNothing(cfg: Config, s: Store, name: bytes, h: seq<Io>,
                        disk: bytes, next: nat, id: nat, meta: TableInfo, tables: map<bytes, TableInfo>)
    requires Allowed(cfg, s, Op.DeleteTable(name)) && FoundAt(s.tables, name, None)
    requires Holds(s, disk, next, id, meta, tables)
    ensures Performed(cfg, s, Op.DeleteTable(name), h, disk, next, id, meta, tables, h)
  {
    assert Resolve(s.tables, Op.DeleteTable(name)) == Nothing;
    assert h == h + [];
  }

  /** The values of an object that holds the database `s`. */
  ghost predicate Holds(s: Store, disk: bytes, next: nat, id: nat, meta: TableInfo, tables: map<bytes, TableInfo>) {
    && s.disk == disk && s.next == next && s.lastId == id
    && s.tables != [] && s.tables[0] == meta && tables == ByName(s.tables[1..])
  }

  /** One table of the map has been changed by a request, and the file by its writes. */
  ghost predicate TableChanged(cfg: Config, q: Request, name: bytes, d: bytes, next: nat, id: nat, tables: map<bytes, TableInfo>, h: seq<Io>,
                               d': bytes, next': nat, id': nat, tables': map<bytes, TableInfo>, h': seq<Io>) {
    && name in tables && ConfigOk(cfg) && next <= |d| && id' == (id + 1) % WORD_LIMIT
    && var t := tables[name];
    && IndexFits(t, q)
    && var ios := Writes(cfg, |d|, next, t, id', q);
    && d' == DoAll(d, ios) && h' == h + ios
    && next' == AfterData(cfg, |d|, next, t.last, q).next
    && tables' == tables[name := TableRemembered(cfg, |d|, next, t, id', q)]
  }

  /** The metatable has been changed by a request, and the file by its writes. */
  ghost predicate MetaChanged(cfg: Config, q: Request, d: bytes, next: nat, id: nat, t: TableInfo, h: seq<Io>,
                              d': bytes, next': nat, id': nat, t': TableInfo, h': seq<Io>) {
    && ConfigOk(cfg) && next <= |d| && id' == (id + 1) % WORD_LIMIT
    && IndexFits(t, q)
    && var ios := Writes(cfg, |d|, next, t, id', q);
    && d' == DoAll(d, ios) && h' == h + ios
    && next' == AfterData(cfg, |d|, next, t.last, q).next
    && t' == TableRemembered(cfg, |d|, next, t, id', q)
  }

  /** The new record is the last of the metatable, and its value lies behind the name. */
  lemma MetaGrown(cfg: Config, name: bytes, d: bytes, next: nat, id: nat, t: TableInfo, h: seq<Io>,
                  d': bytes, next': nat, id': nat, t': TableInfo, h': seq<Io>)
    requires MetaChanged(cfg, CreateRequest(|t.records|, name), d, next, id, t, h, d', next', id', t', h')
    ensures |t'.records| == |t.records| + 1
    ensures t'.records[|t.records|].value.offset == Top(next, t.last) + |name|
  {
    NewRecordIs(cfg, |d|, next, t, id', CreateRequest(|t.records|, name));
  }

  /** The database of which the metatable has been changed by a request. */
  lemma MetaChangedIs(cfg: Config, s: Store, q: Request, h: seq<Io>,
                      d': bytes, next': nat, id': nat, meta': TableInfo, h': seq<Io>)
    requires Writable(cfg, s, 0, q)
    requires MetaChanged(cfg, q, s.disk, s.next, s.lastId, s.tables[0], h, d', next', id', meta', h')
    ensures AfterRequest(cfg, s, 0, q) == Store(d', next', s.tables[0 := meta'], id')
    ensures h' == h + RequestWrites(cfg, s, 0, q)
  {
  }

  /** The database is in the object after a table has been added. */
  lemma AddedHolds(s: Store, r: Store, name: bytes, tables: map<bytes, TableInfo>,
                   d': bytes, next': nat, id': nat, meta': TableInfo, tables': map<bytes, TableInfo>)
    requires s.tables != [] && tables == ByName(s.tables[1..])
    requires r == Store(d', next', s.tables[0 := meta'], id')
    requires tables' == WithTable(tables, name, NewRoot(s, name))
    ensures Holds(r.(tables := r.tables + [NewTable(s, name)]), d', next', id', meta', tables')
  {
    ByNameAdded(s.tables, meta', NewTable(s, name));
  }

  lemma CreatedHolds(cfg: Config, s: Store, name: bytes, meta: TableInfo, tables: map<bytes, TableInfo>, h: seq<Io>,
                     d': bytes, next': nat, id': nat, meta': TableInfo, tables': map<bytes, TableInfo>, h': seq<Io>)
    requires |s.tables| > 0 && Possible(cfg, s, 0, CreateRequest(|s.tables[0].records|, name))
    requires Holds(s, s.disk, s.next, s.lastId, meta, tables)
    requires MetaChanged(cfg, CreateRequest(|meta.records|, name), s.disk, s.next, s.lastId, meta, h, d', next', id', meta', h')
    requires tables' == WithTable(tables, name, Top(s.next, meta.last) + |name|)
    ensures Holds(AfterCreate(cfg, s, name), d', next', id', meta', tables')
    ensures h' == h + RequestWrites(cfg, s, 0, CreateRequest(|s.tables[0].records|, name))
  {
    var q := CreateRequest(|s.tables[0].records|, name);
    MetaChangedIs(cfg, s, q, h, d', next', id', meta', h');
    AddedHolds(s, AfterRequest(cfg, s, 0, q), name, tables, d', next', id', meta', tables');
  }

  lemma ByNameAdded(tables: seq<TableInfo>, meta: TableInfo, t: TableInfo)
    requires tables != []
    ensures tables[0 := meta] + [t] != [] && (tables[0 := meta] + [t])[0] == meta
    ensures ByName((tables[0 := meta] + [t])[1..]) == ByName(tables[1..])[t.name := t]
  {
    assert (tables[0 := meta] + [t])[1..] == tables[1..] + [t];
    assert (tables[1..] + [t])[..|tables| - 1] == tables[1..];
  }

  /** All fields of a table but the values of the metatable are data, and can be read. */
  lemma FieldsReadable(s: Store, lay: Layout, t: nat)
    requires Inv(s, lay) && t < |s.tables|
    ensures forall a :: 0 <= a < |s.tables[t].records| ==> var r := s.tables[t].records[a];
      FieldOk(s.disk, s.next, r.key) && FieldOk(s.disk, s.next, r.metadata) && (t > 0 ==> FieldOk(s.disk, s.next, r.value))
  {
    hide FieldOk;
    InvData(s, lay);
    forall a: nat | a < |s.tables[t].records| ensures var r := s.tables[t].records[a];
      FieldOk(s.disk, s.next, r.key) && FieldOk(s.disk, s.next, r.metadata) && (t > 0 ==> FieldOk(s.disk, s.next, r.value))
    {
      assert IsData(s.tables, t, a, 0) && FieldOk(s.disk, s.next, DataAt(s.tables, t, a, 0));
      assert IsData(s.tables, t, a, 2) && FieldOk(s.disk, s.next, DataAt(s.tables, t, a, 2));
      if t > 0 {
        assert IsData(s.tables, t, a, 1) && FieldOk(s.disk, s.next, DataAt(s.tables, t, a, 1));
      }
    }
  }

  function DataOr(data: Option<bytes>): bytes {
    if data.Some? then data.value else []
  }

  lemma ItemIs(d: bytes, records: seq<LogRecord>, a: nat)
    requires a < |records|
    ensures ViewRecords(d, records)[a] == Item(ViewField(d, records[a].key), ViewField(d, records[a].value), ViewField(d, records[a].metadata))
  {
  }

  /** A table the object holds: it shows as the contents of its name, and all its data can be read. */
  lemma HeldFields(s: Store, lay: Layout, name: bytes)
    requires Inv(s, lay) && name in ByName(s.tables[1..])
    ensures var records := ByName(s.tables[1..])[name].records;
      && name in View(s) && View(s)[name] == ViewRecords(s.disk, records)
      && forall a :: 0 <= a < |records| ==>
           FieldOk(s.disk, s.next, records[a].key) && FieldOk(s.disk, s.next, records[a].value) && FieldOk(s.disk, s.next, records[a].metadata)
  {
    hide FieldOk, ByName, ViewTables;
    InvDistinct(s, lay);
    NameFound(s.tables, name);
    TableIndexIsName(s, name);
    FieldsReadable(s, lay, TableIndex(s.tables, name).value);
  }

  /** The object holds the database after `Set`, and has written what it writes. */
  ghost predicate SetDone(cfg: Config, s: Store, lay: Layout, name: bytes, start: nat, key: bytes, value: Option<bytes>, metadata: Option<bytes>,
                          index: nat, h: seq<Io>, disk: bytes, next: nat, id: nat, meta: TableInfo, tables: map<bytes, TableInfo>, h': seq<Io>) {
    && name in View(s)
    && var items := View(s)[name];
    && var op := SetOp(name, items, start, key, value, metadata);
    && Allowed(cfg, s, op)
    && var s' := After(cfg, s, op);
    && Performed(cfg, s, op, h, disk, next, id, meta, tables, h')
    && index == (match FindItem(items, start, key) case None => |items| case Some(i) => i)
    && |lay| == |s.tables| && Inv(s', LayoutOf(s, lay, op)) && View(s') == Spec(View(s), op)
    && (start == 0 && Keyed(items) ==>
          && View(s').Keys == View(s).Keys && (forall n :: n in View(s) && n != name ==> View(s')[n] == View(s)[n])
          && Keyed(View(s')[name]) && AsMap(View(s')[name]) == MapSet(AsMap(items), key, value, metadata))
  }

  lemma SetIsDone(cfg: Config, s: Store, lay: Layout, name: bytes, start: nat, key: bytes, value: Option<bytes>, metadata: Option<bytes>,
                  index: nat, h: seq<Io>, disk: bytes, next: nat, id: nat, meta: TableInfo, tables: map<bytes, TableInfo>, h': seq<Io>)
    requires Inv(s, lay) && name in View(s)
    requires var op := SetOp(name, View(s)[name], start, key, value, metadata);
      && Allowed(cfg, s, op) && Holds(After(cfg, s, op), disk, next, id, meta, tables) && h' == h + WritesOf(cfg, s, op)
      && index == (match FindItem(View(s)[name], start, key) case None => |View(s)[name]| case Some(i) => i)
    ensures SetDone(cfg, s, lay, name, start, key, value, metadata, index, h, disk, next, id, meta, tables, h')
  {
    hide AsMap, ViewTables, Allowed, Holds, After, WritesOf, LayoutOf, Spec, Keyed;
    var op := SetOp(name, View(s)[name], start, key, value, metadata);
    OperationKeepsInv(cfg, s, lay, op);
    OperationMeans(cfg, s, lay, op);
    if start == 0 && Keyed(View(s)[name]) {
      SetRefinesMap(name, View(s), key, value, metadata);
    }
  }

  /** The object holds the database after `Delete`: without the record if the key was found, and unchanged otherwise. */
  ghost predicate DeleteDone(cfg: Config, s: Store, lay: Layout, name: bytes, start: nat, key: bytes, index: Option<nat>,
                             h: seq<Io>, disk: bytes, next: nat, id: nat, meta: TableInfo, tables: map<bytes, TableInfo>, h': seq<Io>) {
    && name in View(s)
    && var items := View(s)[name];
    && var op := DeleteOp(name, items, start, key);
    && index == FindItem(items, start, key)
    && (index.None? ==> Holds(s, disk, next, id, meta, tables) && h' == h)
    && (index.Some? ==>
          && Performed(cfg, s, op.value, h, disk, next, id, meta, tables, h')
          && |lay| == |s.tables| && Inv(After(cfg, s, op.value), LayoutOf(s, lay, op.value))
          && View(After(cfg, s, op.value)) == Spec(View(s), op.value))
    && (start == 0 && Keyed(items) ==>
          && (index.Some? <==> key in AsMap(items))
          && var v' := if index.Some? then View(After(cfg, s, op.value)) else View(s);
          && v'.Keys == View(s).Keys && (forall n :: n in View(s) && n != name ==> v'[n] == View(s)[n])
          && Keyed(v'[name]) && AsMap(v'[name]) == AsMap(items) - {key})
  }

  lemma DeleteIsDone(cfg: Config, s: Store, lay: Layout, name: bytes, start: nat, key: bytes, index: Option<nat>,
                     h: seq<Io>, disk: bytes, next: nat, id: nat, meta: TableInfo, tables: map<bytes, TableInfo>, h': seq<Io>)
    requires Inv(s, lay) && name in View(s) && index == FindItem(View(s)[name], start, key)
    requires index.None? ==> Holds(s, disk, next, id, meta, tables) && h' == h
    requires index.Some? ==>
      var op := Op.DeleteByIndex(name, index.value);
      Allowed(cfg, s, op) && Holds(After(cfg, s, op), disk, next, id, meta, tables) && h' == h + WritesOf(cfg, s, op)
    ensures DeleteDone(cfg, s, lay, name, start, key, index, h, disk, next, id, meta, tables, h')
  {
    hide AsMap, ViewTables, Allowed, Holds, After, WritesOf, LayoutOf, Spec, Keyed;
    var items := View(s)[name];
    if index.Some? {
      OperationKeepsInv(cfg, s, lay, Op.DeleteByIndex(name, index.value));
      OperationMeans(cfg, s, lay, Op.DeleteByIndex(name, index.value));
    }
    if start == 0 && Keyed(items) {
      DeleteRefinesMap(name, View(s), key);
      if key !in AsMap(items) {
        assert AsMap(items) - {key} == AsMap(items);
      }
    }
  }

  lemma DeletedHolds(cfg: Config, s: Store, index: nat, name: bytes, meta: TableInfo, tables: map<bytes, TableInfo>, h: seq<Io>,
                     d': bytes, next': nat, id': nat, meta': TableInfo, tables': map<bytes, TableInfo>, h': seq<Io>)
    requires Possible(cfg, s, 0, DeleteRequest(index)) && index + 1 < |s.tables| && s.tables[index + 1].name == name && NamesDistinct(s.tables)
    requires Holds(s, s.disk, s.next, s.lastId, meta, tables)
    requires MetaChanged(cfg, DeleteRequest(index), s.disk, s.next, s.lastId, meta, h, d', next', id', meta', h')
    requires tables' == tables - {name}
    ensures Holds(AfterDelete(cfg, s, index), d', next', id', meta', tables')
    ensures h' == h + RequestWrites(cfg, s, 0, DeleteRequest(index))
  {
    MetaChangedIs(cfg, s, DeleteRequest(index), h, d', next', id', meta', h');
    ByNameRemoved(s.tables, meta', index + 1);
  }

  lemma HeldReady(cfg: Config, s: Store, lay: Layout, t: nat, q: Request)
    requires Inv(s, lay) && 1 <= t < |s.tables| && Writable(cfg, s, t, q)
    ensures s.tables[t].name in ByName(s.tables[1..]) && ByName(s.tables[1..])[s.tables[t].name] == s.tables[t]
    ensures Ready(cfg, s.disk, s.next, s.tables[t], q)
  {
    InvDistinct(s, lay);
    TableIndexUnique(s.tables, t);
    NameFound(s.tables, s.tables[t].name);
    InvReady(cfg, s, lay, t, q);
  }

  lemma ChangedHolds(cfg: Config, s: Store, t: nat, q: Request, tables: map<bytes, TableInfo>, h: seq<Io>, meta: TableInfo,
                     d': bytes, next': nat, id': nat, tables': map<bytes, TableInfo>, h': seq<Io>)
    requires NamesDistinct(s.tables) && 1 <= t && Writable(cfg, s, t, q)
    requires Holds(s, s.disk, s.next, s.lastId, meta, tables)
    requires TableChanged(cfg, q, s.tables[t].name, s.disk, s.next, s.lastId, tables, h, d', next', id', tables', h')
    ensures Holds(AfterRequest(cfg, s, t, q), d', next', id', meta, tables')
    ensures h' == h + RequestWrites(cfg, s, t, q)
  {
    TableIndexUnique(s.tables, t);
    NameFound(s.tables, s.tables[t].name);
    ByNameChanged(s.tables, t, AfterRequest(cfg, s, t, q).tables[t]);
  }

  lemma AllNamed(d: bytes, records: seq<LogRecord>, base: Loaded, tables: map<bytes, TableInfo>, next: nat, id: nat)
    requires LoadedNamed(d, records, |records|, base, tables, next, id)
    ensures LoadAllNamed(d, records, base).Some?
    ensures var l := LoadAllNamed(d, records, base).value;
      l.meta == base.meta && tables == ByName(l.tables) && next == l.next && id == l.lastId
  {
    assert records[..|records|] == records;
  }

  /** The tables of the first `n` metatable records have been loaded. */
  ghost predicate LoadedNamed(d: bytes, records: seq<LogRecord>, n: nat, base: Loaded, tables: map<bytes, TableInfo>, next: nat, id: nat) {
    && n <= |records|
    && LoadAllNamed(d, records[..n], base).Some?
    && var l := LoadAllNamed(d, records[..n], base).value;
    && l.meta == base.meta && tables == ByName(l.tables) && next == l.next && id == l.lastId
  }

  lemma NamedLoads(d: bytes, records: seq<LogRecord>, n: nat, base: Loaded)
    requires n < |records| && LoadAllNamed(d, records, base).Some?
    ensures LoadAllNamed(d, records[..n], base).Some? && LoadAllNamed(d, records[..n + 1], base).Some?
    ensures LoadAllNamed(d, records[..n + 1], base) == LoadNamed(d, records[n], LoadAllNamed(d, records[..n], base).value)
    ensures FieldEnd(records[n].key) <= |d| && ChainFrom(d, records[n].value.offset).Some?
  {
    PrefixLoads(d, records, n, base);
    PrefixLoads(d, records, n + 1, base);
    assert records[..n + 1][..n] == records[..n];
  }

  lemma CanLoad(d: bytes, records: seq<LogRecord>, n: nat, base: Loaded)
    requires n < |records| && LoadAllNamed(d, records, base).Some?
    ensures FieldEnd(records[n].key) <= |d| && ChainFrom(d, records[n].value.offset).Some?
  {
    NamedLoads(d, records, n, base);
  }

  lemma LoadedOneMore(d: bytes, records: seq<LogRecord>, n: nat, base: Loaded, tables: map<bytes, TableInfo>, next: nat, id: nat, name: bytes, table: TableInfo, tables': map<bytes, TableInfo>, next': nat, id': nat)
    requires n < |records| && LoadAllNamed(d, records, base).Some?
    requires LoadedNamed(d, records, n, base, tables, next, id)
    requires FieldEnd(records[n].key) <= |d| && name == FieldBytes(d, records[n].key)
    requires Some(table) == LoadTable(d, name, records[n].value.offset)
    requires var chain := ChainFrom(d, records[n].value.offset).value;
      AllFit(d, chain) && next' == ChainEnd(d, chain, next) && id' == LogLastId(Log(d, chain), id)
    requires tables' == tables[name := table]
    ensures LoadedNamed(d, records, n + 1, base, tables', next', id')
  {
    NamedLoads(d, records, n, base);
    var before := LoadAllNamed(d, records[..n], base).value;
    assert (before.tables + [table])[..|before.tables|] == before.tables;
  }

  /** The first `k` blocks of a chain have been loaded into the table. */
  ghost predicate Loading(d: bytes, chain: seq<nat>, k: nat, t: TableInfo, next0: nat, id0: nat, next: nat, id: nat) {
    && AllFit(d, chain) && k <= |chain| && AllFit(d, chain[..k])
    && t.records == Replay(Log(d, chain[..k]))
    && (k > 0 ==> t.last == HeaderInfo(HeaderAt(d, chain[k - 1]), chain[k - 1]))
    && next == ChainEnd(d, chain[..k], next0)
    && id == LogLastId(Log(d, chain[..k]), id0)
  }

  lemma StartLoading(d: bytes, chain: seq<nat>, t: TableInfo, next0: nat, id0: nat)
    requires AllFit(d, chain) && t.records == []
    ensures Loading(d, chain, 0, t, next0, id0, next0, id0)
  {
    assert chain[..0] == [];
  }

  lemma KeepLoading(d: bytes, chain: seq<nat>, k: nat, t: TableInfo, t': TableInfo, next0: nat, id0: nat, next: nat, id: nat, next': nat, id': nat)
    requires k < |chain| && Loading(d, chain, k, t, next0, id0, next, id)
    requires t' == TableInfo(t.name, HeaderInfo(HeaderAt(d, chain[k]), chain[k]), ReplayOn(t.records, BlockLog(d, chain[k])))
    requires next' == LogEnd(BlockLog(d, chain[k]), Max(next, chain[k] + HeaderAt(d, chain[k]).size))
    requires id' == LogLastId(BlockLog(d, chain[k]), id)
    ensures Loading(d, chain, k + 1, t', next0, id0, next', id')
  {
    OneMoreBlock(d, chain, k, next0, id0);
  }

  lemma LoadedAll(d: bytes, chain: seq<nat>, name: bytes, first: nat, t: TableInfo, next0: nat, id0: nat, next: nat, id: nat)
    requires ChainFrom(d, first) == Some(chain) && t.name == name
    requires Loading(d, chain, |chain|, t, next0, id0, next, id) && chain[..|chain|] == chain
    ensures Some(t) == LoadTable(d, name, first)
    ensures AllFit(d, chain) && next == ChainEnd(d, chain, next0) && id == LogLastId(Log(d, chain), id0)
  {
    FoundIsChain(d, first);
  }

  lemma NextBlock(d: bytes, chain: seq<nat>, k: nat)
    requires IsChain(d, chain) && k < |chain|
    ensures HeaderAt(d, chain[k]).next == if k + 1 < |chain| then chain[k + 1] else 0
  {
    if k + 1 < |chain| {
      assert chain[k] < chain[k + 1];
    }
  }

  /** A chain that starts at a positive offset never holds offset 0, so the loop stops only at its end. */
  lemma ChainPositive(d: bytes, chain: seq<nat>, k: nat)
    requires IsChain(d, chain) && chain[0] > 0 && k <= |chain|
    requires (if k < |chain| then chain[k] else 0) == 0
    ensures k == |chain| && chain[..k] == chain
  {
    if k < |chain| {
      Ascending(d, chain, k);
    }
  }

  lemma {:induction false} Ascending(d: bytes, chain: seq<nat>, k: nat)
    requires IsChain(d, chain) && k < |chain|
    ensures chain[0] <= chain[k]
  {
    if k > 0 {
      Ascending(d, chain, k - 1);
      assert chain[k - 1] < chain[k - 1 + 1];
    }
  }

  /** What is loaded before the first named table. */
  function Base(d: bytes, root: nat): Loaded
    requires ChainFrom(d, root).Some?
  {
    FoundIsChain(d, root);
    var chain := ChainFrom(d, root).value;
    Loaded(LoadTable(d, [], root).value, [], ChainEnd(d, chain, 0), LogLastId(Log(d, chain), 0))
  }

  lemma {:induction false} PrefixLoads(d: bytes, records: seq<LogRecord>, n: nat, base: Loaded)
    requires n <= |records| && LoadAllNamed(d, records, base).Some?
    ensures LoadAllNamed(d, records[..n], base).Some?
  {
    if n == |records| {
      assert records[..n] == records;
    } else {
      PrefixLoads(d, records[..|records| - 1], n, base);
      assert records[..|records| - 1][..n] == records[..n];
    }
  }

  // ----- Opening -----

  lemma InitialHolds(cfg: Config)
    requires ConfigOk(cfg) && GrowBytes(cfg, INITIAL_NEXT + cfg.pageSize) < WORD_LIMIT
    ensures var room := Grow(GrowBytes(cfg, INITIAL_NEXT + cfg.pageSize));
      InitialWrites(cfg) == [room] + [Put(ROOT, EncodeHeader(INITIAL_HEADER))] + [Put(0, FILE_HEADER)]
    ensures Inv(InitialStore(cfg), [[ROOT]]) && ByName(InitialStore(cfg).tables[1..]) == map[]
    ensures InitialStore(cfg).disk == DoAll([], InitialWrites(cfg)) && INITIAL_NEXT <= |InitialStore(cfg).disk|
  {
    hide Inv;
    InitialIsSound(cfg);
    InvSized(InitialStore(cfg), [[ROOT]]);
  }

  /** A file of a database can be loaded. */
  lemma InvLoads(s: Store, lay: Layout)
    requires Inv(s, lay)
    ensures |s.disk| >= FILE_HEADER_SIZE && WordAt(s.disk, 0) == MAGIC && WordAt(s.disk, 12) == ROOT
    ensures ChainFrom(s.disk, ROOT).Some?
    ensures var base := Base(s.disk, ROOT);
      && LoadAllNamed(s.disk, base.meta.records, base).Some?
      && LdbLoad.LoadFile(s.disk) == LoadAllNamed(s.disk, base.meta.records, base)
      && forall r :: r in base.meta.records ==> r.value.offset > 0
  {
    InvBlocks(s, lay);
    InvNames(s, lay);
    LoadIsFound(s, lay);
    assert TableOk(s.disk, lay[0], s.tables[0]);
    ChainIsFound(s.disk, lay[0]);
    RootsPositive(s, lay);
  }

  lemma RootsPositive(s: Store, lay: Layout)
    requires AllTables(s.disk, s.next, s.tables, lay) && Rooted(s.disk, s.tables, lay)
    ensures forall r :: r in s.tables[0].records ==> r.value.offset > 0
  {
    forall r | r in s.tables[0].records ensures r.value.offset > 0 {
      var a :| 0 <= a < |s.tables[0].records| && s.tables[0].records[a] == r;
      assert Roots(s.disk, s.tables, lay, a);
      assert ROOT <= lay[a + 1][0];
    }
  }

  lemma LoadedHolds(s: Store, lay: Layout, meta: TableInfo, tables: map<bytes, TableInfo>, next: nat, id: nat)
    requires Inv(s, lay) && LdbLoad.LoadFile(s.disk).Some?
    requires var l := LdbLoad.LoadFile(s.disk).value; meta == l.meta && tables == ByName(l.tables) && next == l.next && id == l.lastId
    ensures var r := Reopened(s.disk, LdbLoad.LoadFile(s.disk).value);
      Holds(r, s.disk, next, id, meta, tables) && Inv(r, lay) && r.tables == s.tables && next <= |s.disk|
  {
    hide LdbLoad.LoadFile;
    Reload(s, lay);
    InvSized(s, lay);
    var l := LdbLoad.LoadFile(s.disk).value;
    assert ([l.meta] + l.tables)[1..] == l.tables;
  }

  /** A database whose file is what the first writes of an operation left. */
  ghost function LeftStore(cfg: Config, s: Store, op: Op, k: nat): Store
    requires Allowed(cfg, s, op) && k <= |WritesOf(cfg, s, op)|
  {
    if k < |WritesOf(cfg, s, op)| then s.(disk := DoAll(s.disk, WritesOf(cfg, s, op)[..k])) else After(cfg, s, op)
  }

  lemma LeftByCrash(cfg: Config, s: Store, lay: Layout, op: Op, k: nat)
    requires Inv(s, lay) && Allowed(cfg, s, op) && k <= |WritesOf(cfg, s, op)|
    ensures var lay' := if k < |WritesOf(cfg, s, op)| then lay else LayoutOf(s, lay, op);
      Inv(LeftStore(cfg, s, op, k), lay')
    ensures LeftStore(cfg, s, op, k).disk == DoAll(s.disk, WritesOf(cfg, s, op)[..k])
    ensures |DoAll(s.disk, WritesOf(cfg, s, op)[..k])| >= FILE_HEADER_SIZE
  {
    hide LayoutOf;
    var ios, left := WritesOf(cfg, s, op), LeftStore(cfg, s, op, k);
    if k < |ios| {
      StoppedOperation(cfg, s, lay, op, k);
      InvSized(left, lay);
    } else {
      assert ios[..k] == ios;
      AllWritesOf(cfg, s, op);
      OperationKeepsInv(cfg, s, lay, op);
      InvSized(left, LayoutOf(s, lay, op));
    }
  }
}
