/** Record operations on a table: the invariant is kept. */
module LdbUser {
  import opened Bytes
  import opened Disk
  import opened LdbFormat
  import opened LdbLoad
  import opened LdbAppend
  import opened LdbTable
  import opened LdbStore
  import opened LdbRecover
  import opened LdbStep
  import opened LdbAppended
  import opened LdbCommit

  /** What `AppendLogRecord` does to the records in memory, once the file has been written. */
  function Remember(records: seq<LogRecord>, r: LogRecord): seq<LogRecord>
    requires r.operation == OPERATION_INSERT ==> r.index <= |records|
    requires r.operation == OPERATION_SET || r.operation == OPERATION_DELETE ==> r.index < |records|
  {
    if r.operation == OPERATION_APPEND then records + [r]
    else if r.operation == OPERATION_SET then records[r.index := r]
    else if r.operation == OPERATION_INSERT then
      if r.index == |records| then records + [r] else records[..r.index] + [r] + records[r.index..]
    else if r.operation == OPERATION_DELETE then records[..r.index] + records[r.index + 1..]
    else if r.operation == OPERATION_CLEAR then []
    else records
  }

  /** Memory and replay agree on every request but the insertion at the end, which a replay does twice. */
  lemma ReplayRemembers(records: seq<LogRecord>, r: LogRecord)
    requires r.operation == OPERATION_INSERT ==> r.index <= |records|
    requires r.operation == OPERATION_SET || r.operation == OPERATION_DELETE ==> r.index < |records|
    ensures ReplayRecord(records, r) == Remember(records, r) <==> !(r.operation == OPERATION_INSERT && r.index == |records|)
    ensures r.operation == OPERATION_INSERT && r.index == |records| ==> ReplayRecord(records, r) == records + [r, r]
  {
    if r.operation == OPERATION_INSERT && r.index == |records| {
      assert ReplayRecord(records, r) == records + [r, r];
      assert |ReplayRecord(records, r)| != |Remember(records, r)|;
    }
  }

  /** The index of the request fits the records of the table. */
  predicate IndexFits(t: TableInfo, q: Request) {
    && (q.operation == OPERATION_SET || q.operation == OPERATION_DELETE ==> q.index < |t.records|)
    && (q.operation == OPERATION_INSERT ==> q.index <= |t.records|)
  }

  /** The table in memory after a request. */
  function TableRemembered(cfg: Config, size: nat, next: nat, t: TableInfo, id: nat, q: Request): TableInfo
    requires ConfigOk(cfg) && next <= size && IndexFits(t, q)
  {
    TableInfo(t.name, Bumped(TargetBlock(next, t.last)), Remember(t.records, NewRecord(cfg, size, next, t, id, q)))
  }

  /** The database after a request on one of its tables. */
  function AfterRequest(cfg: Config, s: Store, t: nat, q: Request): Store
    requires Writable(cfg, s, t, q)
  {
    Store(DoAll(s.disk, RequestWrites(cfg, s, t, q)),
          AfterData(cfg, |s.disk|, s.next, s.tables[t].last, q).next,
          s.tables[t := TableRemembered(cfg, |s.disk|, s.next, s.tables[t], NextId(s), q)],
          NextId(s))
  }

  function LayoutAfter(s: Store, lay: Layout, t: nat): Layout
    requires |lay| == |s.tables| && t < |s.tables|
  {
    lay[t := ChainAfter(lay[t], s.next, s.tables[t].last)]
  }

  lemma AfterRequestIs(cfg: Config, s: Store, t: nat, q: Request)
    requires Possible(cfg, s, t, q)
    ensures AfterRequest(cfg, s, t, q).tables == s.tables[t := TableAfter(s.tables[t], s.next, RequestRecord(cfg, s, t, q))]
    ensures AfterRequest(cfg, s, t, q).next == DataEnd(q, Top(s.next, s.tables[t].last))
  {
    ReplayRemembers(s.tables[t].records, RequestRecord(cfg, s, t, q));
    CursorsMove(cfg, |s.disk|, s.next, s.tables[t].last, q);
  }

  // ----- The parts of the invariant after a request -----

  /** Only the last block of table `t` changes below `next`: other tables and all data are kept. */
  lemma OthersKept(s: Store, lay: Layout, t: nat, d': bytes)
    requires Inv(s, lay) && t < |s.tables|
    requires Keeps(s.disk, d', s.next, s.tables[t].last.offset, s.tables[t].last.offset + BLOCK_SIZE)
    ensures forall i :: 0 <= i < |lay| && i != t ==> SameChain(s.disk, d', lay[i])
    ensures SameData(s.disk, d', s.tables)
    ensures SameOn(s.disk, d', 0, FILE_HEADER_SIZE)
  {
    hide HeaderAt, Log, Replay, FieldsOk, FieldsOffBlocks, FieldsApart, LogsCovered, LogsBelow, SameData, SameChain;
    InvBlocks(s, lay);
    InvData(s, lay);
    assert TableOk(s.disk, lay[t], s.tables[t]);
    FirstBlockLeast(lay[t], |lay[t]| - 1);
    forall i | 0 <= i < |lay| && i != t ensures SameChain(s.disk, d', lay[i]) {
      OtherChainKept(s, lay, t, d', i);
    }
    DataOffBlock(s, lay, t, d', lay[t][|lay[t]| - 1]);
  }

  lemma DataOffBlock(s: Store, lay: Layout, t: nat, d': bytes, block: nat)
    requires DataHolds(s.disk, s.next, s.tables, lay) && t < |lay| && lay[t] != [] && block == lay[t][|lay[t]| - 1]
    requires Keeps(s.disk, d', s.next, block, block + BLOCK_SIZE)
    ensures SameData(s.disk, d', s.tables)
  {
    hide DoHash, FieldsApart, Keeps;
    forall i: nat, a: nat, x: nat | IsData(s.tables, i, a, x)
      ensures FieldBytes(s.disk, DataAt(s.tables, i, a, x)) == FieldBytes(d', DataAt(s.tables, i, a, x))
    {
      var f := DataAt(s.tables, i, a, x);
      assert FieldOk(s.disk, s.next, f);
      assert OffChain(f, lay[t]) && OffBlock(f, block);
      FieldKept(s.disk, d', s.next, f, block, block + BLOCK_SIZE);
    }
  }

  lemma OtherChainKept(s: Store, lay: Layout, t: nat, d': bytes, i: nat)
    requires AllTables(s.disk, s.next, s.tables, lay) && ChainsApart(lay) && t < |lay| && i < |lay| && i != t
    requires Keeps(s.disk, d', s.next, s.tables[t].last.offset, s.tables[t].last.offset + BLOCK_SIZE)
    ensures SameChain(s.disk, d', lay[i])
  {
    assert TableOk(s.disk, lay[i], s.tables[i]);
    forall k | 0 <= k < |lay[i]| ensures SameBlock(s.disk, d', lay[i][k]) {
      LayoutBlocks(s.disk, s.next, s.tables, lay, i, k, t);
      BlockInside(s.disk, lay[i][k]);
    }
  }

  lemma SizedAfter(s: Store, lay: Layout, d': bytes, next': nat)
    requires Sized(s.disk, s.next) && SameOn(s.disk, d', 0, FILE_HEADER_SIZE)
    requires s.next <= next' <= |d'| < WORD_LIMIT
    ensures Sized(d', next')
  {
    WordFrame(s.disk, d', 0);
    WordFrame(s.disk, d', 12);
  }

  /** A table that is kept stays in place while `next` moves up. */
  lemma TableStays(d: bytes, d': bytes, next: nat, next': nat, chain: seq<nat>, t: TableInfo)
    requires TableOk(d, chain, t) && Below(chain, next) && SameChain(d, d', chain) && next <= next'
    ensures TableOk(d', chain, t) && Below(chain, next') && chain != []
    ensures AllFit(d, chain) && AllFit(d', chain) && Log(d', chain) == Log(d, chain)
  {
    TableFrame(d, d', chain, t);
  }

  lemma ChainAfterBelow(chain: seq<nat>, next: nat, next': nat, last: HeaderInfo)
    requires Below(chain, next) && next <= next' && (NeedsBlock(last.header) ==> next + BLOCK_SIZE <= next')
    ensures Below(ChainAfter(chain, next, last), next')
  {
  }

  lemma ChangedTableStays(s: Store, lay: Layout, t: nat, d': bytes, next': nat, t': TableInfo)
    requires AllTables(s.disk, s.next, s.tables, lay) && t < |lay| && s.next <= next'
    requires TableOk(d', ChainAfter(lay[t], s.next, s.tables[t].last), t')
    requires NeedsBlock(s.tables[t].last.header) ==> s.next + BLOCK_SIZE <= next'
    ensures var chain := LayoutAfter(s, lay, t)[t];
      TableOk(d', chain, t') && Below(chain, next') && chain != [] && ROOT <= chain[0]
  {
    hide Log, HeaderAt, Replay;
    assert TableOk(s.disk, lay[t], s.tables[t]) && Below(lay[t], s.next) && ROOT <= lay[t][0];
    ChainAfterBelow(lay[t], s.next, next', s.tables[t].last);
  }

  lemma AllTablesAfter(s: Store, lay: Layout, t: nat, d': bytes, next': nat, t': TableInfo)
    requires AllTables(s.disk, s.next, s.tables, lay) && t < |lay| && s.next <= next'
    requires forall i :: 0 <= i < |lay| && i != t ==> SameChain(s.disk, d', lay[i])
    requires TableOk(d', ChainAfter(lay[t], s.next, s.tables[t].last), t')
    requires NeedsBlock(s.tables[t].last.header) ==> s.next + BLOCK_SIZE <= next'
    ensures AllTables(d', next', s.tables[t := t'], LayoutAfter(s, lay, t))
    ensures forall i :: 0 <= i < |lay| && i != t ==> AllFit(s.disk, lay[i]) && AllFit(d', lay[i]) && Log(d', lay[i]) == Log(s.disk, lay[i])
  {
    hide ChainAfter, Log, TableOk, SameChain;
    var lay', tables' := LayoutAfter(s, lay, t), s.tables[t := t'];
    ChangedTableStays(s, lay, t, d', next', t');
    forall i | 0 <= i < |lay|
      ensures TableOk(d', lay'[i], tables'[i]) && Below(lay'[i], next') && lay'[i] != [] && ROOT <= lay'[i][0]
      ensures i != t ==> AllFit(s.disk, lay[i]) && AllFit(d', lay[i]) && Log(d', lay[i]) == Log(s.disk, lay[i])
    {
      if i != t {
        TableStays(s.disk, d', s.next, next', lay[i], s.tables[i]);
      }
    }
  }

  lemma RootedAfter(s: Store, lay: Layout, t: nat, d': bytes, t': TableInfo)
    requires Rooted(s.disk, s.tables, lay) && 1 <= t < |lay| && t'.name == s.tables[t].name && lay[t] != []
    requires SameData(s.disk, d', s.tables) && |s.disk| <= |d'|
    ensures Rooted(d', s.tables[t := t'], LayoutAfter(s, lay, t))
  {
    var lay', tables' := LayoutAfter(s, lay, t), s.tables[t := t'];
    assert lay'[t][0] == lay[t][0];
    forall a | 0 <= a < |tables'[0].records| ensures Roots(d', tables', lay', a) {
      assert Roots(s.disk, s.tables, lay, a);
      assert IsData(s.tables, 0, a, 0) && DataAt(s.tables, 0, a, 0) == s.tables[0].records[a].key;
    }
  }

  lemma ChainApartAfter(c: seq<nat>, e: seq<nat>, next: nat, last: HeaderInfo)
    requires ChainApart(c, e) && Below(c, next) && Below(e, next)
    ensures ChainApart(ChainAfter(c, next, last), e) && ChainApart(c, ChainAfter(e, next, last))
  {
    forall k, m | 0 <= k < |c| && 0 <= m < |ChainAfter(e, next, last)| ensures BlocksDisjoint(c[k], ChainAfter(e, next, last)[m]) {
    }
  }

  lemma ChainsApartAfter(s: Store, lay: Layout, t: nat)
    requires AllTables(s.disk, s.next, s.tables, lay) && ChainsApart(lay) && t < |lay|
    ensures ChainsApart(LayoutAfter(s, lay, t))
  {
    hide TableOk, Log;
    var lay' := LayoutAfter(s, lay, t);
    forall i, j | 0 <= i < j < |lay'| ensures ChainApart(lay'[i], lay'[j]) {
      assert ChainApart(lay[i], lay[j]);
      ChainApartAfter(lay[i], lay[j], s.next, s.tables[t].last);
    }
  }

  lemma LogsBelowAfter(s: Store, lay: Layout, t: nat, d': bytes, next': nat, record: LogRecord)
    requires LogsBelow(s.disk, s.next, lay) && t < |lay| && |lay| == |s.tables| && s.next <= next'
    requires forall i :: 0 <= i < |lay| && i != t ==> AllFit(d', lay[i]) && Log(d', lay[i]) == Log(s.disk, lay[i])
    requires var chain' := ChainAfter(lay[t], s.next, s.tables[t].last);
      AllFit(d', chain') && Log(d', chain') == Log(s.disk, lay[t]) + [record]
    requires RecordEnd(record) <= next'
    ensures LogsBelow(d', next', LayoutAfter(s, lay, t))
  {
    var lay' := LayoutAfter(s, lay, t);
    forall i | 0 <= i < |lay'| ensures AllFit(d', lay'[i]) && LogBelow(Log(d', lay'[i]), next') {
      assert AllFit(s.disk, lay[i]) && LogBelow(Log(s.disk, lay[i]), s.next);
      if i == t {
        LogBelowJoin(Log(s.disk, lay[t]), [record], s.next, next');
      }
    }
  }

  lemma LogsCoveredAfter(s: Store, lay: Layout, t: nat, d': bytes, record: LogRecord)
    requires LogsCovered(s.disk, lay) && t < |lay| && |lay| == |s.tables| && Covered(record)
    requires forall i :: 0 <= i < |lay| && i != t ==> AllFit(d', lay[i]) && Log(d', lay[i]) == Log(s.disk, lay[i])
    requires var chain' := ChainAfter(lay[t], s.next, s.tables[t].last);
      AllFit(d', chain') && Log(d', chain') == Log(s.disk, lay[t]) + [record]
    ensures LogsCovered(d', LayoutAfter(s, lay, t))
  {
    var lay' := LayoutAfter(s, lay, t);
    forall i | 0 <= i < |lay'| ensures AllFit(d', lay'[i]) && LogCovered(Log(d', lay'[i])) {
      assert AllFit(s.disk, lay[i]) && LogCovered(Log(s.disk, lay[i]));
    }
  }

  // ----- Data after a request -----

  /** Where each data field comes from: fields of other records stay, those of the new record are fresh or kept. */
  function RequestSource(q: Request, t: nat, count: nat): (nat, nat, nat) -> Source {
    (i: nat, a: nat, x: nat) =>
      if i != t then Old(i, a, x)
      else
        match Origin(q, count, a)
        case Some(b) => Old(t, b, x)
        case None => if x < 3 && DataOf(q, x).None? && q.operation == OPERATION_SET then Old(t, q.index, x) else Fresh(x)
  }

  lemma RequestSources(tables: seq<TableInfo>, t: nat, q: Request, record: LogRecord, t': TableInfo)
    requires t < |tables| && RequestOk(q, |tables[t].records|)
    requires RecordsFrom(q, tables[t].records, record, t'.records)
    requires forall x: nat :: x < 3 && DataOf(q, x).None? ==> FieldOf(record, x) == Kept(q, tables[t].records, x)
    ensures Sources(tables, tables[t := t'], record, RequestSource(q, t, |tables[t].records|))
  {
    var tables', src := tables[t := t'], RequestSource(q, t, |tables[t].records|);
    forall i: nat, a: nat, x: nat | IsData(tables', i, a, x)
      ensures SourceOk(tables, tables', record, i, a, x, src(i, a, x))
    {
      if i == t {
        assert tables'[t].records[a] == t'.records[a];
      }
    }
    forall i: nat, a: nat, x: nat, j: nat, b: nat, y: nat | IsData(tables', i, a, x) && IsData(tables', j, b, y) && (i, a, x) != (j, b, y)
      ensures src(i, a, x) != src(j, b, y)
    {
      RequestSourceInjective(q, t, tables[t].records, record, t'.records, i, a, x, j, b, y);
    }
  }

  lemma RequestSourceInjective(q: Request, t: nat, records: seq<LogRecord>, record: LogRecord, records': seq<LogRecord>, i: nat, a: nat, x: nat, j: nat, b: nat, y: nat)
    requires RecordsFrom(q, records, record, records')
    requires (i == t ==> a < |records'|) && (j == t ==> b < |records'|) && (i, a, x) != (j, b, y)
    ensures RequestSource(q, t, |records|)(i, a, x) != RequestSource(q, t, |records|)(j, b, y)
  {
    if i == t && j == t {
      assert records'[a] == records'[a] && records'[b] == records'[b];
      if a < b {
        assert Origin(q, |records|, a) != Origin(q, |records|, b);
      } else if b < a {
        assert Origin(q, |records|, b) != Origin(q, |records|, a);
      }
    }
  }

  lemma RequestFresh(d': bytes, tables': seq<TableInfo>, q: Request, t: nat, records: seq<LogRecord>, record: LogRecord, lo: nat)
    requires FieldsMade(d', record, q, records, lo) && 0 < lo
    requires q.operation != OPERATION_SET || q.index < |records|
    ensures var src := RequestSource(q, t, |records|);
      FreshSources(d', tables', record, src, lo, DataEnd(q, lo)) && FreshApart(tables', record, src)
  {
    hide DoHash;
    FreshFields(d', q, records, record, lo);
  }

  /** The field is taken over from the record a SET replaces. */
  predicate IsKept(q: Request, records: seq<LogRecord>, x: nat)
    requires x < 3
  {
    DataOf(q, x).None? && q.operation == OPERATION_SET && q.index < |records|
  }

  /** The fields of the record that were passed or are NULL: fresh, and one after the other. */
  lemma FreshFields(d': bytes, q: Request, records: seq<LogRecord>, record: LogRecord, lo: nat)
    requires FieldsMade(d', record, q, records, lo)
    ensures forall x: nat :: x < 3 && !IsKept(q, records, x) ==> FreshOk(d', FieldOf(record, x), lo, DataEnd(q, lo))
    ensures forall x: nat, y: nat :: x < y < 3 && !IsKept(q, records, x) && !IsKept(q, records, y) ==>
      FieldsDisjoint(FieldOf(record, x), FieldOf(record, y))
  {
    var hi := DataEnd(q, lo);
    var valueAt := lo + Length(q.key);
    var metadataAt := valueAt + Length(q.value);
    if !IsKept(q, records, 0) {
      FreshField(d', record.key, q.key, Kept(q, records, 0), lo, lo, hi);
    }
    if !IsKept(q, records, 1) {
      FreshField(d', record.value, q.value, Kept(q, records, 1), valueAt, lo, hi);
    }
    if !IsKept(q, records, 2) {
      FreshField(d', record.metadata, q.metadata, Kept(q, records, 2), metadataAt, lo, hi);
    }
    forall x: nat | x < 3 && !IsKept(q, records, x) ensures FreshOk(d', FieldOf(record, x), lo, hi) {
      assert x == 0 || x == 1 || x == 2;
    }
    forall x: nat, y: nat | x < y < 3 && !IsKept(q, records, x) && !IsKept(q, records, y)
      ensures FieldsDisjoint(FieldOf(record, x), FieldOf(record, y))
    {
      assert x == 0 || x == 1;
      assert y == 1 || y == 2;
    }
  }

  lemma FreshField(d': bytes, f: Field, data: Option<bytes>, kept: Field, at: nat, lo: nat, hi: nat)
    requires FieldMade(d', f, data, kept, at) && (data.None? ==> kept == NULL_FIELD)
    requires lo <= at && at + Length(data) <= hi
    ensures FreshOk(d', f, lo, hi)
    ensures f.size == Length(data) && (data.Some? ==> f.offset == at)
  {
  }

  // ----- The step -----

  lemma MadeKeeps(d': bytes, q: Request, records: seq<LogRecord>, record: LogRecord, lo: nat)
    requires FieldsMade(d', record, q, records, lo)
    ensures forall x: nat :: x < 3 && DataOf(q, x).None? ==> FieldOf(record, x) == Kept(q, records, x)
  {
  }

  /** The record a SET replaces is known to the log, so that its end can be found. */
  lemma KeptIsCovered(log: seq<LogRecord>, records: seq<LogRecord>, next: nat, q: Request)
    requires LogCovered(log) && LogBelow(log, next) && records == Replay(log)
    ensures Covered(KeptRecord(q, records)) && RecordEnd(KeptRecord(q, records)) <= next
  {
    LiveIsCovered(log, next);
    if q.operation == OPERATION_SET && q.index < |records| {
      assert KeptRecord(q, records) == Replay(log)[q.index];
    } else {
      assert KeptRecord(q, records) == NO_RECORD;
    }
  }

  lemma LiveIsCovered(log: seq<LogRecord>, next: nat)
    requires LogCovered(log) && LogBelow(log, next)
    ensures forall a :: 0 <= a < |Replay(log)| ==> Covered(Replay(log)[a]) && RecordEnd(Replay(log)[a]) <= next
  {
    LiveIsLogged(log);
    var live := Replay(log);
    forall a | 0 <= a < |live| ensures Covered(live[a]) && RecordEnd(live[a]) <= next {
      assert live[a] in log;
      var k :| 0 <= k < |log| && log[k] == live[a];
    }
  }

  /** After a request a reload finds the end of the new record if and only if the request breaks no tie. */
  lemma RequestCovered(s: Store, lay: Layout, t: nat, q: Request, record: LogRecord, d': bytes)
    requires AllTables(s.disk, s.next, s.tables, lay) && LogsCovered(s.disk, lay) && LogsBelow(s.disk, s.next, lay) && t < |lay| && ROOT <= s.next
    requires FieldsMade(d', record, q, s.tables[t].records, Top(s.next, s.tables[t].last))
    ensures Covered(record) <==> NoTie(q, s.tables[t].records, Top(s.next, s.tables[t].last))
    ensures RecordEnd(record) <= DataEnd(q, Top(s.next, s.tables[t].last))
  {
    var records := s.tables[t].records;
    assert TableOk(s.disk, lay[t], s.tables[t]);
    assert Covered(KeptRecord(q, records)) && RecordEnd(KeptRecord(q, records)) <= s.next by {
      KeptIsCovered(Log(s.disk, lay[t]), records, s.next, q);
    }
    CoveredIffNoTie(d', record, q, records, Top(s.next, s.tables[t].last));
  }

  /** Blocks of the new layout are old blocks or the new one in front of the fresh data. */
  lemma RequestBlocks(s: Store, lay: Layout, t: nat, d': bytes, tables': seq<TableInfo>, record: LogRecord, src: (nat, nat, nat) -> Source, hi: nat)
    requires AllTables(s.disk, s.next, s.tables, lay) && t < |lay|
    requires FreshSources(d', tables', record, src, Top(s.next, s.tables[t].last), hi)
    ensures forall j, k :: 0 <= j < |lay| && 0 <= k < |LayoutAfter(s, lay, t)[j]| ==>
      InLayout(lay, LayoutAfter(s, lay, t)[j][k]) || NewBlockOk(tables', record, src, s.next, LayoutAfter(s, lay, t)[j][k])
  {
    var lay' := LayoutAfter(s, lay, t);
    forall j, k | 0 <= j < |lay| && 0 <= k < |lay'[j]|
      ensures InLayout(lay, lay'[j][k]) || NewBlockOk(tables', record, src, s.next, lay'[j][k])
    {
      if k < |lay[j]| {
        assert lay[j][k] == lay'[j][k];
      } else {
        assert j == t && lay'[j][k] == s.next && NeedsBlock(s.tables[t].last.header);
        assert TableOk(s.disk, lay[t], s.tables[t]);
        assert BlockOk(HeaderAt(s.disk, lay[t][|lay[t]| - 1]));
      }
    }
  }

  lemma BlocksAboveRoot(d: bytes, next: nat, tables: seq<TableInfo>, lay: Layout)
    requires AllTables(d, next, tables, lay)
    ensures forall j :: 0 <= j < |lay| ==> Below(lay[j], next) && (forall k :: 0 <= k < |lay[j]| ==> ROOT <= lay[j][k])
  {
    forall j, k | 0 <= j < |lay| && 0 <= k < |lay[j]| ensures ROOT <= lay[j][k] {
      assert TableOk(d, lay[j], tables[j]);
      FirstBlockLeast(lay[j], k);
    }
  }

  /** The data part of the invariant after a request. */
  lemma RequestData(cfg: Config, s: Store, lay: Layout, t: nat, q: Request, d': bytes)
    requires Inv(s, lay) && Possible(cfg, s, t, q) && Done(cfg, s, lay, t, q, d')
    requires SameData(s.disk, d', s.tables)
    ensures var tables' := s.tables[t := TableAfter(s.tables[t], s.next, RequestRecord(cfg, s, t, q))];
      && FieldsOk(d', DataEnd(q, Top(s.next, s.tables[t].last)), tables')
      && FieldsOffBlocks(tables', LayoutAfter(s, lay, t))
      && FieldsApart(tables')
  {
    hide HeaderAt, Log, Replay, TableOk, DoHash, Keeps, ReplayRecord;
    OpenDone(cfg, s, lay, t, q, d');
    InvAll(s, lay);
    var table, record := s.tables[t], RequestRecord(cfg, s, t, q);
    var t' := TableAfter(table, s.next, record);
    var tables', src := s.tables[t := t'], RequestSource(q, t, |table.records|);
    var lo, hi := Top(s.next, table.last), DataEnd(q, Top(s.next, table.last));
    NewRecordIs(cfg, |s.disk|, s.next, table, NextId(s), q);
    ReplayedRecords(q, table.records, record);
    MadeKeeps(d', q, table.records, record, lo);
    RequestSources(s.tables, t, q, record, t');
    RequestFresh(d', tables', q, t, table.records, record, lo);
    RequestBlocks(s, lay, t, d', tables', record, src, hi);
    BlocksAboveRoot(s.disk, s.next, s.tables, lay);
    FieldsOkAfter(s.disk, d', s.next, lo, hi, s.tables, tables', record, src);
    FieldsApartAfter(s.disk, d', s.next, lo, hi, s.tables, tables', record, src);
    FieldsOffBlocksAfter(s.disk, d', s.next, lo, hi, s.tables, tables', lay, LayoutAfter(s, lay, t), record, src);
  }

  /** The tables and blocks after a request. */
  lemma RequestTables(cfg: Config, s: Store, lay: Layout, t: nat, q: Request, d': bytes)
    requires Inv(s, lay) && Writable(cfg, s, t, q) && Done(cfg, s, lay, t, q, d')
    ensures SameData(s.disk, d', s.tables)
    ensures var next' := DataEnd(q, Top(s.next, s.tables[t].last));
      var tables', lay' := s.tables[t := TableAfter(s.tables[t], s.next, RequestRecord(cfg, s, t, q))], LayoutAfter(s, lay, t);
      && Sized(d', next') && AllTables(d', next', tables', lay') && LogsBelow(d', next', lay')
      && (NoTie(q, s.tables[t].records, Top(s.next, s.tables[t].last)) ==> LogsCovered(d', lay'))
  {
    OpenDone(cfg, s, lay, t, q, d');
    InvAll(s, lay);
    var table, record := s.tables[t], RequestRecord(cfg, s, t, q);
    var t', next' := TableAfter(table, s.next, record), DataEnd(q, Top(s.next, table.last));
    CursorsMove(cfg, |s.disk|, s.next, table.last, q);
    OthersKept(s, lay, t, d');
    SizedAfter(s, lay, d', next');
    AllTablesAfter(s, lay, t, d', next', t');
    RequestCovered(s, lay, t, q, record, d');
    LogsBelowAfter(s, lay, t, d', next', record);
    if Covered(record) {
      LogsCoveredAfter(s, lay, t, d', record);
    }
  }

  /** Data that was there is there after a request. */
  lemma RequestKeepsData(cfg: Config, s: Store, lay: Layout, t: nat, q: Request, d': bytes)
    requires Inv(s, lay) && Writable(cfg, s, t, q) && Done(cfg, s, lay, t, q, d')
    ensures SameData(s.disk, d', s.tables)
  {
    OpenDone(cfg, s, lay, t, q, d');
    OthersKept(s, lay, t, d');
  }

  /** Blocks and logs after a request that breaks no tie. */
  lemma BlocksAfterRequest(cfg: Config, s: Store, lay: Layout, t: nat, q: Request, d': bytes)
    requires Inv(s, lay) && Writable(cfg, s, t, q) && Done(cfg, s, lay, t, q, d')
    requires NoTie(q, s.tables[t].records, Top(s.next, s.tables[t].last))
    ensures SameData(s.disk, d', s.tables)
    ensures Has(OfBlocks, d', DataEnd(q, Top(s.next, s.tables[t].last)),
                s.tables[t := TableAfter(s.tables[t], s.next, RequestRecord(cfg, s, t, q))], LayoutAfter(s, lay, t))
  {
    RequestTables(cfg, s, lay, t, q, d');
    assert ChainsApart(LayoutAfter(s, lay, t)) by {
      InvBlocks(s, lay);
      ChainsApartAfter(s, lay, t);
    }
    CloseBlocks(d', DataEnd(q, Top(s.next, s.tables[t].last)),
                s.tables[t := TableAfter(s.tables[t], s.next, RequestRecord(cfg, s, t, q))], LayoutAfter(s, lay, t));
  }

  /** The data after a request. */
  lemma DataAfterRequest(cfg: Config, s: Store, lay: Layout, t: nat, q: Request, d': bytes)
    requires Inv(s, lay) && Possible(cfg, s, t, q) && Done(cfg, s, lay, t, q, d') && SameData(s.disk, d', s.tables)
    ensures Has(OfData, d', DataEnd(q, Top(s.next, s.tables[t].last)),
                s.tables[t := TableAfter(s.tables[t], s.next, RequestRecord(cfg, s, t, q))], LayoutAfter(s, lay, t))
  {
    RequestData(cfg, s, lay, t, q, d');
    CloseData(d', DataEnd(q, Top(s.next, s.tables[t].last)),
              s.tables[t := TableAfter(s.tables[t], s.next, RequestRecord(cfg, s, t, q))], LayoutAfter(s, lay, t));
  }

  /** The names after a request on a table other than the metatable. */
  lemma NamesAfterRequest(s: Store, lay: Layout, t: nat, d': bytes, next': nat, t': TableInfo)
    requires Inv(s, lay) && 1 <= t < |s.tables| && t'.name == s.tables[t].name
    requires SameData(s.disk, d', s.tables) && |s.disk| <= |d'|
    ensures Has(OfNames, d', next', s.tables[t := t'], LayoutAfter(s, lay, t))
  {
    InvNames(s, lay);
    assert lay[t] != [] by {
      InvBlocks(s, lay);
      assert TableOk(s.disk, lay[t], s.tables[t]);
    }
    RootedAfter(s, lay, t, d', t');
    NamesKept(s.tables, t, t');
    CloseNames(d', next', s.tables[t := t'], LayoutAfter(s, lay, t));
  }

  lemma NamesKept(tables: seq<TableInfo>, t: nat, t': TableInfo)
    requires NamesDistinct(tables) && t < |tables| && t'.name == tables[t].name
    ensures NamesDistinct(tables[t := t'])
  {
  }

  /** A request on a user table keeps the invariant. */
  lemma RequestKeepsInv(cfg: Config, s: Store, lay: Layout, t: nat, q: Request)
    requires Inv(s, lay) && Possible(cfg, s, t, q) && 1 <= t
    requires NoTie(q, s.tables[t].records, Top(s.next, s.tables[t].last))
    ensures Inv(AfterRequest(cfg, s, t, q), LayoutAfter(s, lay, t))
  {
    var s' := AfterRequest(cfg, s, t, q);
    AllWritten(cfg, s, lay, t, q);
    AfterRequestIs(cfg, s, t, q);
    BlocksAfterRequest(cfg, s, lay, t, q, s'.disk);
    NamesAfterRequest(s, lay, t, s'.disk, s'.next, TableAfter(s.tables[t], s.next, RequestRecord(cfg, s, t, q)));
    DataAfterRequest(cfg, s, lay, t, q, s'.disk);
  }
}
