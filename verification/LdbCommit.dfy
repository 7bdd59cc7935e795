/** The file after all, and after some, of the writes of one request. */
module LdbCommit {
  import opened Bytes
  import opened Disk
  import opened LdbFormat
  import opened LdbLoad
  import opened LdbAppend
  import opened LdbTable
  import opened LdbStore
  import opened LdbRecover
  import opened LdbStep
  import opened LdbAppended

  /** The request can be written to table `t` without the file reaching 2^32 bytes. */
  ghost predicate Writable(cfg: Config, s: Store, t: nat, q: Request) {
    && ConfigOk(cfg) && t < |s.tables| && s.next <= |s.disk|
    && OPERATION_APPEND <= q.operation <= OPERATION_CLEAR && q.index < WORD_LIMIT
    && (q.operation == OPERATION_SET || q.operation == OPERATION_DELETE ==> q.index < |s.tables[t].records|)
    && (q.operation == OPERATION_INSERT ==> q.index <= |s.tables[t].records|)
    && AfterData(cfg, |s.disk|, s.next, s.tables[t].last, q).size < WORD_LIMIT
  }

  /** The request is one of those that a reload replays as they were carried out. */
  ghost predicate Possible(cfg: Config, s: Store, t: nat, q: Request) {
    Writable(cfg, s, t, q) && RequestOk(q, |s.tables[t].records|)
  }

  function RequestWrites(cfg: Config, s: Store, t: nat, q: Request): seq<Io>
    requires Writable(cfg, s, t, q)
  {
    Writes(cfg, |s.disk|, s.next, s.tables[t], NextId(s), q)
  }

  function NextId(s: Store): nat {
    (s.lastId + 1) % WORD_LIMIT
  }

  function RequestRecord(cfg: Config, s: Store, t: nat, q: Request): LogRecord
    requires Writable(cfg, s, t, q)
  {
    NewRecord(cfg, |s.disk|, s.next, s.tables[t], NextId(s), q)
  }

  lemma LiveFits(d: bytes, chain: seq<nat>, t: TableInfo)
    requires TableOk(d, chain, t)
    ensures forall i :: 0 <= i < |t.records| ==> RecordFits(t.records[i])
  {
    LogFits(d, chain);
    LiveIsLogged(Log(d, chain));
  }

  lemma IsReady(cfg: Config, s: Store, lay: Layout, t: nat, q: Request)
    requires AllTables(s.disk, s.next, s.tables, lay) && Writable(cfg, s, t, q)
    ensures Ready(cfg, s.disk, s.next, s.tables[t], q)
  {
    assert TableOk(s.disk, lay[t], s.tables[t]) && Below(lay[t], s.next);
    LiveFits(s.disk, lay[t], s.tables[t]);
    var last := lay[t][|lay[t]| - 1];
    assert BlockOk(HeaderAt(s.disk, last));
  }

  lemma InvReady(cfg: Config, s: Store, lay: Layout, t: nat, q: Request)
    requires Inv(s, lay) && Writable(cfg, s, t, q)
    ensures Ready(cfg, s.disk, s.next, s.tables[t], q)
  {
    InvBlocks(s, lay);
    IsReady(cfg, s, lay, t, q);
  }

  /** The writes up to the commit, as one piece of reasoning on the file. */
  lemma PreparedRequest(cfg: Config, d: bytes, next: nat, t: TableInfo, id: nat, q: Request)
    requires Ready(cfg, d, next, t, q) && id < WORD_LIMIT
    ensures var data, record := AfterData(cfg, |d|, next, t.last, q).ios, NewRecord(cfg, |d|, next, t, id, q);
      var before := BeforeCommit(data, next, t.last, record);
      && Prepared(d, data, before, next, Slot(next, t.last), Top(next, t.last), record)
      && |DoAll(d, before)| == AfterData(cfg, |d|, next, t.last, q).size
      && AtCommit(d, DoAll(d, before), next, t.last, record)
  {
    var c, record := AfterData(cfg, |d|, next, t.last, q), NewRecord(cfg, |d|, next, t, id, q);
    DataWritten(cfg, d, next, t.last, q);
    NewRecordFits(cfg, d, next, t, id, q);
    TargetFits(cfg, |d|, next, t.last, q);
    UntilCommit(d, c, next, t.last, record);
    PreparedIsAtCommit(d, c, next, t.last, record);
  }

  lemma PreparedIsAtCommit(d: bytes, c: Cursor, next: nat, last: HeaderInfo, record: LogRecord)
    requires CursorOk(d, c, next) && TargetBlock(next, last).offset + BLOCK_SIZE <= c.size
    requires Prepared(d, c.ios, BeforeCommit(c.ios, next, last, record), next, Slot(next, last), Top(next, last), record)
    requires NeedsBlock(last.header) ==>
      HeaderAt(DoAll(d, BeforeCommit(c.ios, next, last, record)), next) == Bumped(TargetBlock(next, last)).header
    ensures |DoAll(d, BeforeCommit(c.ios, next, last, record))| == c.size
    ensures AtCommit(d, DoAll(d, BeforeCommit(c.ios, next, last, record)), next, last, record)
  {
    SafeAll(d, BeforeCommit(c.ios, next, last, record), next, Slot(next, last), Slot(next, last) + LOG_RECORD_SIZE);
  }

  /** Stopping anywhere before the last write leaves the database as it was, in the file and for a reload. */
  lemma Stopped(cfg: Config, s: Store, lay: Layout, t: nat, q: Request, k: nat)
    requires Inv(s, lay) && Writable(cfg, s, t, q) && k < |RequestWrites(cfg, s, t, q)|
    ensures var d' := DoAll(s.disk, RequestWrites(cfg, s, t, q)[..k]);
      Inv(s.(disk := d'), lay) && SameContents(s.disk, d', s.tables, lay)
  {
    InvAll(s, lay);
    var table, record := s.tables[t], RequestRecord(cfg, s, t, q);
    IsReady(cfg, s, lay, t, q);
    PreparedRequest(cfg, s.disk, s.next, table, NextId(s), q);
    WritesEndWithCommit(cfg, |s.disk|, s.next, table, NextId(s), q);
    var data := AfterData(cfg, |s.disk|, s.next, table.last, q).ios;
    var before := BeforeCommit(data, s.next, table.last, record);
    PrefixOfSnoc(before, Commit(s.next, table.last), k);
    StopBeforeCommit(s, lay, t, data, before, record, k);
  }

  lemma PrefixOfSnoc(ios: seq<Io>, io: Io, k: nat)
    requires k <= |ios|
    ensures (ios + [io])[..k] == ios[..k]
  {
  }

  /** What all the writes of a request leave in the file. */
  ghost predicate Carried(cfg: Config, s: Store, lay: Layout, t: nat, q: Request, d': bytes)
    requires Writable(cfg, s, t, q) && |lay| == |s.tables|
  {
    var table, record := s.tables[t], RequestRecord(cfg, s, t, q);
    var chain' := ChainAfter(lay[t], s.next, table.last);
    && |d'| == AfterData(cfg, |s.disk|, s.next, table.last, q).size
    && TableOk(d', chain', TableAfter(table, s.next, record))
    && AllFit(s.disk, lay[t]) && Log(d', chain') == Log(s.disk, lay[t]) + [record]
    && Keeps(s.disk, d', s.next, table.last.offset, table.last.offset + BLOCK_SIZE)
    && FieldsMade(d', record, q, table.records, Top(s.next, table.last))
  }

  /** The same, to be passed on. */
  ghost predicate Done(cfg: Config, s: Store, lay: Layout, t: nat, q: Request, d': bytes)
    requires Writable(cfg, s, t, q) && |lay| == |s.tables|
  {
    |s.disk| <= |d'| && forall w {:trigger Wanted(w)} :: Wanted(w) && w == OfRequest ==> Carried(cfg, s, lay, t, q, d')
  }

  lemma OpenDone(cfg: Config, s: Store, lay: Layout, t: nat, q: Request, d': bytes)
    requires Writable(cfg, s, t, q) && |lay| == |s.tables| && Done(cfg, s, lay, t, q, d')
    ensures Carried(cfg, s, lay, t, q, d')
  {
    assert Wanted(OfRequest);
  }

  /** The fields of the new record. */
  lemma DoneFields(cfg: Config, s: Store, lay: Layout, t: nat, q: Request, d': bytes)
    requires Writable(cfg, s, t, q) && |lay| == |s.tables| && Done(cfg, s, lay, t, q, d')
    ensures FieldsMade(d', RequestRecord(cfg, s, t, q), q, s.tables[t].records, Top(s.next, s.tables[t].last))
  {
    OpenDone(cfg, s, lay, t, q, d');
  }

  lemma AllCarried(cfg: Config, s: Store, lay: Layout, t: nat, q: Request)
    requires AllTables(s.disk, s.next, s.tables, lay) && Writable(cfg, s, t, q)
    ensures Carried(cfg, s, lay, t, q, DoAll(s.disk, RequestWrites(cfg, s, t, q)))
  {
    hide HeaderAt, RecordAt, AfterData, NewRecord;
    var d, table, record := s.disk, s.tables[t], RequestRecord(cfg, s, t, q);
    IsReady(cfg, s, lay, t, q);
    PreparedRequest(cfg, d, s.next, table, NextId(s), q);
    WritesEndWithCommit(cfg, |d|, s.next, table, NextId(s), q);
    var data := AfterData(cfg, |d|, s.next, table.last, q).ios;
    var before := BeforeCommit(data, s.next, table.last, record);
    assert TableOk(d, lay[t], table) && Below(lay[t], s.next);
    Committed(d, DoAll(d, before), lay[t], table, s.next, record);
    DoAllSnoc(d, before, Commit(s.next, table.last));
    var d' := DoAll(d, RequestWrites(cfg, s, t, q));
    SameAboveTrans(DoAll(d, data), DoAll(d, before), d', s.next, Top(s.next, table.last));
    DataIsStored(cfg, d, s.next, table.last, q);
    NewRecordIs(cfg, |d|, s.next, table, NextId(s), q);
    RecordMade(DoAll(d, data), d', record, q, table.records, Top(s.next, table.last));
  }

  lemma AllWritten(cfg: Config, s: Store, lay: Layout, t: nat, q: Request)
    requires Inv(s, lay) && Writable(cfg, s, t, q)
    ensures Done(cfg, s, lay, t, q, DoAll(s.disk, RequestWrites(cfg, s, t, q)))
  {
    InvBlocks(s, lay);
    AllCarried(cfg, s, lay, t, q);
  }

  lemma SameAboveTrans(a: bytes, b: bytes, c: bytes, lo: nat, top: nat)
    requires SameAbove(a, b, top) && SameAbove(b, c, lo) && lo <= top
    ensures SameAbove(a, c, top)
  {
  }
}
