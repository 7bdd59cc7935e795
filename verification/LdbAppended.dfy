/** What a request leaves in the table it was made on: which records are old ones and which fields are fresh. */
module LdbAppended {
  import opened Bytes
  import opened Disk
  import opened LdbFormat
  import opened LdbLoad
  import opened LdbAppend
  import opened LdbTable
  import opened LdbStore

  // ----- Requests -----

  function DataOf(q: Request, x: nat): Option<bytes>
    requires x < 3
  {
    if x == 0 then q.key else if x == 1 then q.value else q.metadata
  }

  predicate NoData(q: Request) {
    q.key.None? && q.value.None? && q.metadata.None?
  }

  /**
    The requests the public operations make on a table of `count` records, save the insertion into
    an empty table, which a reload replays twice.
    */
  predicate RequestOk(q: Request, count: nat) {
    && q.index < WORD_LIMIT
    && (|| q.operation == OPERATION_APPEND
        || (q.operation == OPERATION_INSERT && q.index < count)
        || (q.operation == OPERATION_SET && q.index < count)
        || (q.operation == OPERATION_DELETE && q.index < count && NoData(q))
        || (q.operation == OPERATION_CLEAR && NoData(q)))
  }

  /**
    A SET that keeps a zero-length field placed exactly where the new data goes: the tie on the
    offset is decided for the kept field, and the end of the record is taken for its start.
    */
  predicate TieBroken(q: Request, was: LogRecord, start: nat) {
    || (q.key.Some? && |q.key.value| > 0 && q.value.None? && q.metadata.None? && (was.value.offset == start || was.metadata.offset == start))
    || (q.value.Some? && |q.value.value| > 0 && (q.key.None? || q.key.value == []) && q.metadata.None? && was.metadata.offset == start)
  }

  predicate NoTie(q: Request, records: seq<LogRecord>, start: nat) {
    q.operation == OPERATION_SET && q.index < |records| ==> !TieBroken(q, records[q.index], start)
  }

  // ----- Records -----

  /** The old index of record `a` of the table after the request; none for the record just written. */
  function Origin(q: Request, count: nat, a: nat): Option<nat> {
    if q.operation == OPERATION_APPEND then
      if a < count then Some(a) else None
    else if q.operation == OPERATION_SET then
      if a == q.index then None else Some(a)
    else if q.operation == OPERATION_INSERT then
      if a < q.index then Some(a) else if a == q.index then None else Some(a - 1)
    else
      if a < q.index then Some(a) else Some(a + 1)
  }

  ghost predicate RecordsFrom(q: Request, records: seq<LogRecord>, record: LogRecord, records': seq<LogRecord>) {
    && (forall a {:trigger records'[a]} :: 0 <= a < |records'| ==>
          match Origin(q, |records|, a)
          case None => records'[a] == record
          case Some(b) => b < |records| && records'[a] == records[b] && (q.operation == OPERATION_SET ==> b != q.index))
    && (forall a, b :: 0 <= a < b < |records'| ==> Origin(q, |records|, a) != Origin(q, |records|, b))
  }

  lemma ReplayedRecords(q: Request, records: seq<LogRecord>, record: LogRecord)
    requires RequestOk(q, |records|) && record.operation == q.operation && record.index == q.index
    ensures RecordsFrom(q, records, record, ReplayRecord(records, record))
  {
    var records' := ReplayRecord(records, record);
    forall a | 0 <= a < |records'|
      ensures match Origin(q, |records|, a)
              case None => records'[a] == record
              case Some(b) => b < |records| && records'[a] == records[b] && (q.operation == OPERATION_SET ==> b != q.index)
    {
    }
    forall a, b | 0 <= a < b < |records'| ensures Origin(q, |records|, a) != Origin(q, |records|, b) {
    }
  }

  // ----- Fields of the record -----

  function Length(data: Option<bytes>): nat {
    if data.Some? then |data.value| else 0
  }

  /** What a field is when no data is passed for it. */
  function Kept(q: Request, records: seq<LogRecord>, x: nat): Field
    requires x < 3
  {
    if q.operation == OPERATION_SET && q.index < |records| then FieldOf(records[q.index], x) else NULL_FIELD
  }

  /** Data that was passed is stored at `at`; without data the field is the one kept. */
  ghost predicate FieldMade(d: bytes, f: Field, data: Option<bytes>, kept: Field, at: nat) {
    match data
    case None => f == kept
    case Some(bs) => f == Field(at, |bs|, DoHash(bs)) && Stored(d, f, bs)
  }

  /** The fields passed are stored one after the other from `lo` on. */
  ghost predicate FieldsMade(d: bytes, record: LogRecord, q: Request, records: seq<LogRecord>, lo: nat) {
    && FieldMade(d, record.key, q.key, Kept(q, records, 0), lo)
    && FieldMade(d, record.value, q.value, Kept(q, records, 1), lo + Length(q.key))
    && FieldMade(d, record.metadata, q.metadata, Kept(q, records, 2), lo + Length(q.key) + Length(q.value))
  }

  function DataEnd(q: Request, lo: nat): nat {
    lo + Length(q.key) + Length(q.value) + Length(q.metadata)
  }

  lemma StoredAbove(a: bytes, b: bytes, f: Field, data: bytes, top: nat)
    requires Stored(a, f, data) && SameAbove(a, b, top) && top <= f.offset
    ensures Stored(b, f, data)
  {
    SliceFrame(a, b, f.offset, FieldEnd(f));
  }

  /** The cursors move by the lengths of the data. */
  lemma CursorsMove(cfg: Config, size: nat, next: nat, last: HeaderInfo, q: Request)
    requires ConfigOk(cfg) && next <= size
    ensures AfterBlock(cfg, size, next, last).next == Top(next, last)
    ensures AfterKey(cfg, size, next, last, q).next == Top(next, last) + Length(q.key)
    ensures AfterValue(cfg, size, next, last, q).next == Top(next, last) + Length(q.key) + Length(q.value)
    ensures AfterData(cfg, size, next, last, q).next == DataEnd(q, Top(next, last))
  {
  }

  /** The fields of the new record, told by lengths instead of cursors. */
  predicate RecordIs(r: LogRecord, q: Request, records: seq<LogRecord>, top: nat) {
    && r.operation == q.operation && r.index == q.index
    && r.key == (if q.key.None? then Kept(q, records, 0) else FieldFor(top, q.key))
    && r.value == (if q.value.None? then Kept(q, records, 1) else FieldFor(top + Length(q.key), q.value))
    && r.metadata == (if q.metadata.None? then Kept(q, records, 2) else FieldFor(top + Length(q.key) + Length(q.value), q.metadata))
  }

  lemma NewRecordIs(cfg: Config, size: nat, next: nat, t: TableInfo, id: nat, q: Request)
    requires ConfigOk(cfg) && next <= size
    requires q.operation == OPERATION_SET ==> q.index < |t.records|
    ensures RecordIs(NewRecord(cfg, size, next, t, id, q), q, t.records, Top(next, t.last))
  {
    CursorsMove(cfg, size, next, t.last, q);
  }

  ghost predicate DataStored(d: bytes, q: Request, top: nat) {
    DataPlaced(d, q, top, top + Length(q.key), top + Length(q.key) + Length(q.value))
  }

  lemma DataIsStored(cfg: Config, d: bytes, next: nat, last: HeaderInfo, q: Request)
    requires ConfigOk(cfg) && next <= |d| && last.header.size >= BLOCK_HEADER_SIZE
    ensures DataStored(DoAll(d, AfterData(cfg, |d|, next, last, q).ios), q, Top(next, last))
  {
    var d' := DoAll(d, AfterData(cfg, |d|, next, last, q).ios);
    var a, b, c := AfterBlock(cfg, |d|, next, last).next, AfterKey(cfg, |d|, next, last, q).next, AfterValue(cfg, |d|, next, last, q).next;
    assert DataPlaced(d', q, a, b, c) by {
      DataWritten(cfg, d, next, last, q);
    }
    assert a == Top(next, last) && b == a + Length(q.key) && c == b + Length(q.value) by {
      CursorsMove(cfg, |d|, next, last, q);
    }
    PlacedIsStored(d', q, a, b, c);
  }

  lemma PlacedIsStored(d: bytes, q: Request, a: nat, b: nat, c: nat)
    requires DataPlaced(d, q, a, b, c) && b == a + Length(q.key) && c == b + Length(q.value)
    ensures DataStored(d, q, a)
  {
  }

  lemma FieldIsMade(d0: bytes, d': bytes, f: Field, data: Option<bytes>, kept: Field, at: nat, top: nat)
    requires SameAbove(d0, d', top) && top <= at
    requires f == if data.None? then kept else FieldFor(at, data)
    requires data.Some? ==> Stored(d0, FieldFor(at, data), data.value)
    ensures FieldMade(d', f, data, kept, at)
  {
    if data.Some? {
      StoredAbove(d0, d', f, data.value, top);
    }
  }

  /** After the writes the fields of the new record are in place. */
  lemma RecordMade(d0: bytes, d': bytes, r: LogRecord, q: Request, records: seq<LogRecord>, top: nat)
    requires DataStored(d0, q, top) && SameAbove(d0, d', top) && RecordIs(r, q, records, top)
    ensures FieldsMade(d', r, q, records, top)
  {
    FieldIsMade(d0, d', r.key, q.key, Kept(q, records, 0), top, top);
    FieldIsMade(d0, d', r.value, q.value, Kept(q, records, 1), top + Length(q.key), top);
    FieldIsMade(d0, d', r.metadata, q.metadata, Kept(q, records, 2), top + Length(q.key) + Length(q.value), top);
  }

  // ----- Where a reload finds the end of the record -----

  predicate Placed(f: Field, data: Option<bytes>, kept: Field, at: nat) {
    if data.None? then f == kept else f.offset == at && f.size == |data.value|
  }

  lemma TieCases(r: LogRecord, q: Request, was: LogRecord, lo: nat)
    requires Placed(r.key, q.key, was.key, lo)
    requires Placed(r.value, q.value, was.value, lo + Length(q.key))
    requires Placed(r.metadata, q.metadata, was.metadata, lo + Length(q.key) + Length(q.value))
    requires Covered(was) && RecordEnd(was) <= lo
    ensures Covered(r) <==> !TieBroken(q, was, lo)
    ensures RecordEnd(r) <= DataEnd(q, lo)
  {
    if q.metadata.Some? {
      assert Covered(r);
    } else if q.value.Some? {
      assert was.metadata.offset < lo ==> Covered(r);
    } else if q.key.Some? {
    } else {
      assert RecordEnd(r) == RecordEnd(was);
    }
  }

  const NO_RECORD: LogRecord := LogRecord(0, 0, 0, NULL_FIELD, NULL_FIELD, NULL_FIELD)

  function KeptRecord(q: Request, records: seq<LogRecord>): LogRecord {
    if q.operation == OPERATION_SET && q.index < |records| then records[q.index] else NO_RECORD
  }

  /**
    A reload finds the end of the data of the new record if and only if the request does not break the tie,
    given that it finds the end of the record whose fields are kept.
    */
  lemma CoveredIffNoTie(d: bytes, record: LogRecord, q: Request, records: seq<LogRecord>, lo: nat)
    requires FieldsMade(d, record, q, records, lo) && 0 < lo
    requires Covered(KeptRecord(q, records)) && RecordEnd(KeptRecord(q, records)) <= lo
    ensures Covered(record) <==> NoTie(q, records, lo)
    ensures RecordEnd(record) <= DataEnd(q, lo)
  {
    TieCases(record, q, KeptRecord(q, records), lo);
  }
}
