/** `AppendLogRecord`: the file writes it makes, in order, and what they leave in the file. */
module LdbAppend {
  import opened Bytes
  import opened Disk
  import opened LdbFormat
  import opened LdbLoad

  /** Page size and grow step, which decide by how much the file grows. */
  datatype Config = Config(pageSize: nat, growPages: nat)

  predicate ConfigOk(cfg: Config) {
    cfg.pageSize > 0
  }

  // ----- Planning the writes -----

  /** The writes planned so far, with `_nextDataOffset` and the file size after them. */
  datatype Cursor = Cursor(ios: seq<Io>, next: nat, size: nat)

  function GrowBytes(cfg: Config, missing: nat): (count: nat)
    requires ConfigOk(cfg)
    ensures count >= missing
  {
    var pages := Max(missing / cfg.pageSize + 1, cfg.growPages);
    EnoughPages(missing, cfg.pageSize, pages);
    pages * cfg.pageSize
  }

  lemma EnoughPages(missing: nat, pageSize: nat, pages: nat)
    requires pageSize > 0 && pages >= missing / pageSize + 1
    ensures pages * pageSize >= missing
  {
    var q, r: nat := missing / pageSize, missing % pageSize;
    assert missing == q * pageSize + r && r < pageSize;
    assert (q + 1) * pageSize == q * pageSize + pageSize;
    MoreTimes(q + 1, pages, pageSize);
  }

  lemma MoreTimes(a: nat, b: nat, n: nat)
    requires a <= b
    ensures a * n <= b * n
  {
    assert b * n == a * n + (b - a) * n;
  }

  /** `EnsureSpace` and `LeaveRoom`. */
  function EnsureSpace(cfg: Config, c: Cursor, count: nat): (r: Cursor)
    requires ConfigOk(cfg) && c.next <= c.size
    ensures r.next == c.next && r.next + count <= r.size
  {
    var space := c.size - c.next;
    if space < count then
      var grown := GrowBytes(cfg, count - space);
      Cursor(c.ios + [Grow(grown)], c.next, c.size + grown)
    else c
  }

  /** The part of `CreateNewBlockIfNeeded` that allocates: room for a block, of which the header is written. */
  function PlanBlock(cfg: Config, c: Cursor, blockSize: nat): (r: Cursor)
    requires ConfigOk(cfg) && c.next <= c.size
    ensures r.next == c.next + blockSize && r.next <= r.size
  {
    var e := EnsureSpace(cfg, c, blockSize);
    Cursor(e.ios + [Put(e.next, EncodeHeader(BlockHeader(blockSize, 0, 0)))], e.next + blockSize, e.size)
  }

  /** `WriteLdbData`: nothing for NULL, else room for the data and the data. */
  function PlanData(cfg: Config, c: Cursor, data: Option<bytes>): (r: Cursor)
    requires ConfigOk(cfg) && c.next <= c.size
    ensures r.next == c.next + (if data.Some? then |data.value| else 0) && r.next <= r.size
  {
    match data
    case None => c
    case Some(bs) =>
      var e := EnsureSpace(cfg, c, |bs|);
      Cursor(e.ios + [Put(e.next, bs)], e.next + |bs|, e.size)
  }

  function FieldFor(next: nat, data: Option<bytes>): Field {
    match data
    case None => NULL_FIELD
    case Some(bs) => Field(next, |bs|, DoHash(bs))
  }

  /** `CheckNeedForNewBlock`, which measures with the size of the file header and unsigned arithmetic. */
  predicate NeedsBlock(h: BlockHeader) {
    (h.size - (FILE_HEADER_SIZE + h.used * LOG_RECORD_SIZE)) % WORD_LIMIT < LOG_RECORD_SIZE
  }

  /** The operation of one call of `AppendLogRecord`. */
  datatype Request = Request(operation: nat, index: nat, key: Option<bytes>, value: Option<bytes>, metadata: Option<bytes>)

  /** The cursors after the new block, the key, the value and the metadata. */
  function AfterBlock(cfg: Config, size: nat, next: nat, last: HeaderInfo): (r: Cursor)
    requires ConfigOk(cfg) && next <= size
    ensures next <= r.next <= r.size
  {
    var c := Cursor([], next, size);
    if NeedsBlock(last.header) then PlanBlock(cfg, c, last.header.size) else c
  }

  function AfterKey(cfg: Config, size: nat, next: nat, last: HeaderInfo, q: Request): (r: Cursor)
    requires ConfigOk(cfg) && next <= size
    ensures next <= r.next <= r.size
  {
    PlanData(cfg, AfterBlock(cfg, size, next, last), q.key)
  }

  function AfterValue(cfg: Config, size: nat, next: nat, last: HeaderInfo, q: Request): (r: Cursor)
    requires ConfigOk(cfg) && next <= size
    ensures next <= r.next <= r.size
  {
    PlanData(cfg, AfterKey(cfg, size, next, last, q), q.value)
  }

  function AfterData(cfg: Config, size: nat, next: nat, last: HeaderInfo, q: Request): (r: Cursor)
    requires ConfigOk(cfg) && next <= size
    ensures next <= r.next <= r.size
  {
    PlanData(cfg, AfterValue(cfg, size, next, last, q), q.metadata)
  }

  /** The log record written; a SET keeps the fields for which NULL was passed. */
  function NewRecord(cfg: Config, size: nat, next: nat, t: TableInfo, id: nat, q: Request): LogRecord
    requires ConfigOk(cfg) && next <= size
    requires q.operation == OPERATION_SET ==> q.index < |t.records|
  {
    var key := FieldFor(AfterBlock(cfg, size, next, t.last).next, q.key);
    var value := FieldFor(AfterKey(cfg, size, next, t.last, q).next, q.value);
    var metadata := FieldFor(AfterValue(cfg, size, next, t.last, q).next, q.metadata);
    if q.operation == OPERATION_SET then
      var was := t.records[q.index];
      LogRecord(q.operation, q.index, id,
                if q.key.None? then was.key else key,
                if q.value.None? then was.value else value,
                if q.metadata.None? then was.metadata else metadata)
    else
      LogRecord(q.operation, q.index, id, key, value, metadata)
  }

  /** The block that takes the record: the last one, or a new one placed at `next`. */
  function TargetBlock(next: nat, last: HeaderInfo): HeaderInfo {
    if NeedsBlock(last.header) then HeaderInfo(BlockHeader(last.header.size, 0, 0), next) else last
  }

  function Bumped(b: HeaderInfo): HeaderInfo {
    b.(header := b.header.(used := b.header.used + 1))
  }

  /** All the writes of one `AppendLogRecord`: data, then record, then header, then link. */
  function Writes(cfg: Config, size: nat, next: nat, t: TableInfo, id: nat, q: Request): (ios: seq<Io>)
    requires ConfigOk(cfg) && next <= size
    requires q.operation == OPERATION_SET ==> q.index < |t.records|
    ensures |ios| > 0
  {
    var target := TargetBlock(next, t.last);
    var record := NewRecord(cfg, size, next, t, id, q);
    AfterData(cfg, size, next, t.last, q).ios
    + [Put(SlotOffset(target.offset, target.header.used), EncodeRecord(record)),
       Put(target.offset, EncodeHeader(Bumped(target).header))]
    + if NeedsBlock(t.last.header)
      then [Put(t.last.offset, EncodeHeader(t.last.header.(next := target.offset)))]
      else []
  }

  // ----- What a run of writes leaves alone -----

  /** Every byte of `a` below `lo` is still there in `b`, save perhaps those of one hole. */
  ghost predicate Keeps(a: bytes, b: bytes, lo: nat, hole: nat, holeEnd: nat) {
    && lo <= |a| <= |b|
    && forall p {:trigger b[p]} :: 0 <= p < lo && !(hole <= p < holeEnd) ==> b[p] == a[p]
  }

  /** Stopping after any of the writes leaves everything below `lo` but the hole alone. */
  ghost predicate Safe(d: bytes, ios: seq<Io>, lo: nat, hole: nat, holeEnd: nat) {
    forall k {:trigger ios[..k]} :: 0 <= k <= |ios| ==> Keeps(d, DoAll(d, ios[..k]), lo, hole, holeEnd)
  }

  lemma DoAllSnoc(d: bytes, ios: seq<Io>, io: Io)
    ensures DoAll(d, ios + [io]) == Do(DoAll(d, ios), io)
  {
    assert (ios + [io])[..|ios|] == ios;
  }

  lemma SafeSnoc(d: bytes, ios: seq<Io>, io: Io, lo: nat, hole: nat, holeEnd: nat)
    requires Safe(d, ios, lo, hole, holeEnd)
    requires Keeps(d, Do(DoAll(d, ios), io), lo, hole, holeEnd)
    ensures Safe(d, ios + [io], lo, hole, holeEnd)
  {
    DoAllSnoc(d, ios, io);
    var all := ios + [io];
    forall k | 0 <= k <= |all| ensures Keeps(d, DoAll(d, all[..k]), lo, hole, holeEnd) {
      if k <= |ios| {
        assert all[..k] == ios[..k];
      } else {
        assert all[..k] == all;
      }
    }
  }

  lemma SafeAll(d: bytes, ios: seq<Io>, lo: nat, hole: nat, holeEnd: nat)
    requires Safe(d, ios, lo, hole, holeEnd)
    ensures Keeps(d, DoAll(d, ios), lo, hole, holeEnd)
  {
    assert ios[..|ios|] == ios;
  }

  // ----- Cursors describe the file and write only above where they started -----

  ghost predicate CursorOk(d: bytes, c: Cursor, lo: nat) {
    && lo <= c.next <= c.size == |DoAll(d, c.ios)|
    && Safe(d, c.ios, lo, 0, 0)
  }

  lemma CursorStarts(d: bytes, next: nat)
    requires next <= |d|
    ensures CursorOk(d, Cursor([], next, |d|), next)
  {
  }

  lemma EnsureSpaceOk(cfg: Config, d: bytes, c: Cursor, count: nat, lo: nat)
    requires ConfigOk(cfg) && CursorOk(d, c, lo)
    ensures CursorOk(d, EnsureSpace(cfg, c, count), lo)
    ensures Keeps(DoAll(d, c.ios), DoAll(d, EnsureSpace(cfg, c, count).ios), c.next, 0, 0)
  {
    var space := c.size - c.next;
    SafeAll(d, c.ios, lo, 0, 0);
    if space < count {
      var io := Grow(GrowBytes(cfg, count - space));
      DoAllSnoc(d, c.ios, io);
      SafeSnoc(d, c.ios, io, lo, 0, 0);
    }
  }

  /** Writing at the cursor. */
  lemma PutOk(d: bytes, c: Cursor, data: bytes, next: nat, lo: nat)
    requires CursorOk(d, c, lo) && c.next + |data| <= next <= c.size
    ensures var r := Cursor(c.ios + [Put(c.next, data)], next, c.size);
      && CursorOk(d, r, lo)
      && Keeps(DoAll(d, c.ios), DoAll(d, r.ios), c.next, 0, 0)
      && DoAll(d, r.ios)[c.next..c.next + |data|] == data
  {
    var io := Put(c.next, data);
    SafeAll(d, c.ios, lo, 0, 0);
    DoAllSnoc(d, c.ios, io);
    SafeSnoc(d, c.ios, io, lo, 0, 0);
  }

  lemma KeepsTrans(a: bytes, b: bytes, c: bytes, lo: nat, lo': nat)
    requires Keeps(a, b, lo, 0, 0) && Keeps(b, c, lo', 0, 0) && lo <= lo'
    ensures Keeps(a, c, lo, 0, 0)
  {
  }

  lemma PlanBlockOk(cfg: Config, d: bytes, c: Cursor, blockSize: nat, lo: nat)
    requires ConfigOk(cfg) && CursorOk(d, c, lo) && blockSize >= BLOCK_HEADER_SIZE
    ensures CursorOk(d, PlanBlock(cfg, c, blockSize), lo)
  {
    EnsureSpaceOk(cfg, d, c, blockSize, lo);
    var e := EnsureSpace(cfg, c, blockSize);
    PutOk(d, e, EncodeHeader(BlockHeader(blockSize, 0, 0)), e.next + blockSize, lo);
  }

  /** The bytes of the field are in the file. */
  ghost predicate Stored(d: bytes, f: Field, data: bytes) {
    f.size == |data| && FieldEnd(f) <= |d| && d[f.offset..FieldEnd(f)] == data
  }

  lemma PlanDataOk(cfg: Config, d: bytes, c: Cursor, data: Option<bytes>, lo: nat)
    requires ConfigOk(cfg) && CursorOk(d, c, lo)
    ensures var r := PlanData(cfg, c, data);
      && CursorOk(d, r, lo)
      && Keeps(DoAll(d, c.ios), DoAll(d, r.ios), c.next, 0, 0)
      && (data.Some? ==> Stored(DoAll(d, r.ios), FieldFor(c.next, data), data.value))
  {
    match data
    case None => SafeAll(d, c.ios, lo, 0, 0);
    case Some(bs) =>
      EnsureSpaceOk(cfg, d, c, |bs|, lo);
      var e := EnsureSpace(cfg, c, |bs|);
      PutOk(d, e, bs, e.next + |bs|, lo);
      KeepsTrans(DoAll(d, c.ios), DoAll(d, e.ios), DoAll(d, PlanData(cfg, c, data).ios), c.next, e.next);
  }

  lemma StoredFrame(a: bytes, b: bytes, f: Field, data: bytes, lo: nat)
    requires Stored(a, f, data) && Keeps(a, b, lo, 0, 0) && FieldEnd(f) <= lo
    ensures Stored(b, f, data)
  {
    assert SameOn(a, b, f.offset, FieldEnd(f));
    SliceFrame(a, b, f.offset, FieldEnd(f));
  }

  /** The data passed with a request is in the file at the three places. */
  ghost predicate DataPlaced(d: bytes, q: Request, keyAt: nat, valueAt: nat, metadataAt: nat) {
    && (q.key.Some? ==> Stored(d, FieldFor(keyAt, q.key), q.key.value))
    && (q.value.Some? ==> Stored(d, FieldFor(valueAt, q.value), q.value.value))
    && (q.metadata.Some? ==> Stored(d, FieldFor(metadataAt, q.metadata), q.metadata.value))
  }

  /** What the data writes leave: everything old below `next`, and the new data above it. */
  lemma DataWritten(cfg: Config, d: bytes, next: nat, last: HeaderInfo, q: Request)
    requires ConfigOk(cfg) && next <= |d| && last.header.size >= BLOCK_HEADER_SIZE
    ensures var c := AfterData(cfg, |d|, next, last, q);
      var d' := DoAll(d, c.ios);
      && CursorOk(d, c, next)
      && DataPlaced(d', q, AfterBlock(cfg, |d|, next, last).next, AfterKey(cfg, |d|, next, last, q).next, AfterValue(cfg, |d|, next, last, q).next)
  {
    CursorStarts(d, next);
    var c0 := AfterBlock(cfg, |d|, next, last);
    var c1 := AfterKey(cfg, |d|, next, last, q);
    var c2 := AfterValue(cfg, |d|, next, last, q);
    var c3 := AfterData(cfg, |d|, next, last, q);
    if NeedsBlock(last.header) {
      PlanBlockOk(cfg, d, Cursor([], next, |d|), last.header.size, next);
    }
    PlanDataOk(cfg, d, c0, q.key, next);
    PlanDataOk(cfg, d, c1, q.value, next);
    PlanDataOk(cfg, d, c2, q.metadata, next);
    var d1, d2, d3 := DoAll(d, c1.ios), DoAll(d, c2.ios), DoAll(d, c3.ios);
    if q.key.Some? {
      StoredFrame(d1, d2, FieldFor(c0.next, q.key), q.key.value, c1.next);
      StoredFrame(d2, d3, FieldFor(c0.next, q.key), q.key.value, c2.next);
    }
    if q.value.Some? {
      StoredFrame(d2, d3, FieldFor(c1.next, q.value), q.value.value, c2.next);
    }
  }
}
