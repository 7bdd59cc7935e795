/** One `AppendLogRecord` on an open database: before its last write nothing has happened, after it all has. */
module LdbStep {
  import opened Bytes
  import opened Disk
  import opened LdbFormat
  import opened LdbLoad
  import opened LdbAppend
  import opened LdbTable
  import opened LdbStore

  // ----- Until the commit -----

  lemma {:induction false} PrefixIsShorter(d: bytes, ios: seq<Io>, k: nat)
    requires k <= |ios|
    ensures |DoAll(d, ios[..k])| <= |DoAll(d, ios)|
  {
    if k == |ios| {
      assert ios[..k] == ios;
    } else {
      var init := ios[..|ios| - 1];
      PrefixIsShorter(d, init, k);
      assert init[..k] == ios[..k];
    }
  }

  lemma {:induction false} FirstBlockLeast(chain: seq<nat>, k: nat)
    requires Spaced(chain) && k < |chain|
    ensures chain[0] <= chain[k]
  {
    if k > 0 {
      BlockBefore(chain, 0, k);
    }
  }

  /** The used part of a block is out of the way of a free slot. */
  lemma BlockOffSlot(d: bytes, d': bytes, next: nat, last: HeaderInfo, block: nat)
    requires BlockOk(last.header) && last.header.next == 0
    requires BlockFits(d, block) && BlockOk(HeaderAt(d, block)) && block + BLOCK_SIZE <= next
    requires Keeps(d, d', next, Slot(next, last), Slot(next, last) + LOG_RECORD_SIZE)
    requires block == last.offset ==> HeaderAt(d, block) == last.header
    requires block != last.offset ==> BlocksDisjoint(block, last.offset)
    ensures SameBlock(d, d', block)
  {
    SlotInside(next, last);
    BlockInside(d, block);
  }

  /** Blocks of a layout that are not the same block do not overlap. */
  lemma LayoutBlocks(d: bytes, next: nat, tables: seq<TableInfo>, lay: Layout, i: nat, k: nat, t: nat)
    requires AllTables(d, next, tables, lay) && ChainsApart(lay)
    requires i < |lay| && k < |lay[i]| && t < |lay|
    ensures lay[i][k] == tables[t].last.offset ==> HeaderAt(d, lay[i][k]) == tables[t].last.header
    ensures lay[i][k] != tables[t].last.offset ==> BlocksDisjoint(lay[i][k], tables[t].last.offset)
    ensures i != t ==> BlocksDisjoint(lay[i][k], tables[t].last.offset)
  {
    assert TableOk(d, lay[i], tables[i]) && TableOk(d, lay[t], tables[t]);
    var m := |lay[t]| - 1;
    if i < t {
      assert ChainApart(lay[i], lay[t]);
      assert BlocksDisjoint(lay[i][k], lay[t][m]);
    } else if t < i {
      assert ChainApart(lay[t], lay[i]);
      assert BlocksDisjoint(lay[t][m], lay[i][k]);
    } else if k < m {
      BlockBefore(lay[t], k, m);
    }
  }

  /** A field that is off the block is unchanged when only the block, or space above `next`, changes. */
  lemma FieldKept(d: bytes, d': bytes, next: nat, f: Field, hole: nat, holeEnd: nat)
    requires Keeps(d, d', next, hole, holeEnd) && FieldEnd(f) <= next
    requires FieldEnd(f) <= hole || holeEnd <= f.offset
    ensures FieldBytes(d, f) == FieldBytes(d', f)
  {
    assert SameOn(d, d', f.offset, FieldEnd(f));
    SliceFrame(d, d', f.offset, FieldEnd(f));
  }

  lemma SlotOffChains(s: Store, lay: Layout, t: nat, d': bytes)
    requires AllTables(s.disk, s.next, s.tables, lay) && ChainsApart(lay) && t < |s.tables|
    requires Keeps(s.disk, d', s.next, Slot(s.next, s.tables[t].last), Slot(s.next, s.tables[t].last) + LOG_RECORD_SIZE)
    ensures forall i :: 0 <= i < |lay| ==> SameChain(s.disk, d', lay[i])
  {
    var d, last := s.disk, s.tables[t].last;
    assert TableOk(d, lay[t], s.tables[t]);
    assert BlockOk(HeaderAt(d, lay[t][|lay[t]| - 1]));
    forall i | 0 <= i < |lay| ensures SameChain(d, d', lay[i]) {
      assert TableOk(d, lay[i], s.tables[i]);
      forall k | 0 <= k < |lay[i]| ensures SameBlock(d, d', lay[i][k]) {
        LayoutBlocks(d, s.next, s.tables, lay, i, k, t);
        BlockOffSlot(d, d', s.next, last, lay[i][k]);
      }
    }
  }

  lemma SlotOffData(s: Store, lay: Layout, t: nat, d': bytes, slot: nat)
    requires DataHolds(s.disk, s.next, s.tables, lay) && t < |lay| && lay[t] != []
    requires Keeps(s.disk, d', s.next, slot, slot + LOG_RECORD_SIZE)
    requires var end := lay[t][|lay[t]| - 1]; slot >= s.next || (end <= slot && slot + LOG_RECORD_SIZE <= end + BLOCK_SIZE)
    ensures SameData(s.disk, d', s.tables)
  {
    hide DoHash, FieldsApart;
    forall i: nat, a: nat, x: nat | IsData(s.tables, i, a, x)
      ensures FieldBytes(s.disk, DataAt(s.tables, i, a, x)) == FieldBytes(d', DataAt(s.tables, i, a, x))
    {
      var f := DataAt(s.tables, i, a, x);
      assert FieldOk(s.disk, s.next, f);
      assert OffChain(f, lay[t]) && OffBlock(f, lay[t][|lay[t]| - 1]);
      FieldKept(s.disk, d', s.next, f, slot, slot + LOG_RECORD_SIZE);
    }
  }

  /** Writing a free slot, or above `next`, changes no contents. */
  lemma SlotIsFree(s: Store, lay: Layout, t: nat, d': bytes)
    requires Inv(s, lay) && t < |s.tables|
    requires Keeps(s.disk, d', s.next, Slot(s.next, s.tables[t].last), Slot(s.next, s.tables[t].last) + LOG_RECORD_SIZE)
    ensures SameContents(s.disk, d', s.tables, lay)
  {
    hide HeaderAt, Log, Replay, FieldsOk, FieldsOffBlocks, FieldsApart, LogsCovered, LogsBelow, SameData, SameChain;
    InvBlocks(s, lay);
    InvData(s, lay);
    var d, last := s.disk, s.tables[t].last;
    assert TableOk(d, lay[t], s.tables[t]);
    var end := lay[t][|lay[t]| - 1];
    FirstBlockLeast(lay[t], |lay[t]| - 1);
    assert BlockOk(HeaderAt(d, end));
    SlotInside(s.next, last);
    SlotOffChains(s, lay, t, d');
    SlotOffData(s, lay, t, d', Slot(s.next, last));
  }

  /** Stopping after any of the writes before the commit leaves the database as it was. */
  lemma StopBeforeCommit(s: Store, lay: Layout, t: nat, data: seq<Io>, before: seq<Io>, record: LogRecord, k: nat)
    requires Inv(s, lay) && t < |s.tables| && k <= |before|
    requires Prepared(s.disk, data, before, s.next, Slot(s.next, s.tables[t].last), Top(s.next, s.tables[t].last), record)
    requires |DoAll(s.disk, before)| < WORD_LIMIT
    ensures Inv(s.(disk := DoAll(s.disk, before[..k])), lay)
    ensures SameContents(s.disk, DoAll(s.disk, before[..k]), s.tables, lay)
  {
    InvAll(s, lay);
    var d' := DoAll(s.disk, before[..k]);
    PrefixIsShorter(s.disk, before, k);
    assert Keeps(s.disk, d', s.next, Slot(s.next, s.tables[t].last), Slot(s.next, s.tables[t].last) + LOG_RECORD_SIZE);
    SlotIsFree(s, lay, t, d');
    InvFrame(s, lay, d');
  }

  // ----- Where the data of the new state comes from -----

  /** A data field of the new state: one of the old state, or one of the record just written. */
  datatype Source = Old(i: nat, a: nat, x: nat) | Fresh(x: nat)

  ghost predicate SourceOk(tables: seq<TableInfo>, tables': seq<TableInfo>, record: LogRecord, i: nat, a: nat, x: nat, src: Source)
    requires IsData(tables', i, a, x)
  {
    match src
    case Old(j, b, y) => IsData(tables, j, b, y) && DataAt(tables', i, a, x) == DataAt(tables, j, b, y)
    case Fresh(y) => y < 3 && DataAt(tables', i, a, x) == FieldOf(record, y)
  }

  ghost predicate Sources(tables: seq<TableInfo>, tables': seq<TableInfo>, record: LogRecord, src: (nat, nat, nat) -> Source) {
    && (forall i: nat, a: nat, x: nat :: IsData(tables', i, a, x) ==> SourceOk(tables, tables', record, i, a, x, src(i, a, x)))
    && (forall i: nat, a: nat, x: nat, j: nat, b: nat, y: nat ::
          IsData(tables', i, a, x) && IsData(tables', j, b, y) && (i, a, x) != (j, b, y) ==> src(i, a, x) != src(j, b, y))
  }

  /** A field of the record just written: NULL, or allocated between `lo` and `hi`. */
  predicate FreshOk(d: bytes, f: Field, lo: nat, hi: nat) {
    f == NULL_FIELD || (lo <= f.offset && FieldEnd(f) <= hi && f.hash == DoHash(FieldBytes(d, f)))
  }

  /** The source map uses only fields of the record that are fresh. */
  ghost predicate FreshSources(d: bytes, tables': seq<TableInfo>, record: LogRecord, src: (nat, nat, nat) -> Source, lo: nat, hi: nat) {
    forall i: nat, a: nat, x: nat :: IsData(tables', i, a, x) && src(i, a, x).Fresh? && src(i, a, x).x < 3 ==>
      FreshOk(d, FieldOf(record, src(i, a, x).x), lo, hi)
  }

  /** Of two fields of the record that are both used fresh, one ends before the other starts. */
  ghost predicate FreshApart(tables': seq<TableInfo>, record: LogRecord, src: (nat, nat, nat) -> Source) {
    forall i: nat, a: nat, x: nat, j: nat, b: nat, y: nat ::
      IsData(tables', i, a, x) && IsData(tables', j, b, y) && src(i, a, x).Fresh? && src(j, b, y).Fresh?
      && src(i, a, x).x < src(j, b, y).x < 3 ==>
        FieldsDisjoint(FieldOf(record, src(i, a, x).x), FieldOf(record, src(j, b, y).x))
  }

  lemma FieldsOkAfter(d: bytes, d': bytes, next: nat, lo: nat, next': nat, tables: seq<TableInfo>, tables': seq<TableInfo>, record: LogRecord, src: (nat, nat, nat) -> Source)
    requires FieldsOk(d, next, tables) && SameData(d, d', tables) && next <= next' && ROOT <= lo
    requires Sources(tables, tables', record, src) && FreshSources(d', tables', record, src, lo, next')
    ensures FieldsOk(d', next', tables')
  {
    forall i: nat, a: nat, x: nat | IsData(tables', i, a, x) ensures FieldOk(d', next', DataAt(tables', i, a, x)) {
      assert SourceOk(tables, tables', record, i, a, x, src(i, a, x));
      match src(i, a, x)
      case Old(j, b, y) =>
        assert FieldOk(d, next, DataAt(tables, j, b, y));
      case Fresh(y) =>
    }
  }

  lemma FieldsApartAfter(d: bytes, d': bytes, next: nat, lo: nat, next': nat, tables: seq<TableInfo>, tables': seq<TableInfo>, record: LogRecord, src: (nat, nat, nat) -> Source)
    requires FieldsOk(d, next, tables) && FieldsApart(tables) && next <= lo
    requires Sources(tables, tables', record, src) && FreshSources(d', tables', record, src, lo, next') && FreshApart(tables', record, src)
    ensures FieldsApart(tables')
  {
    forall i: nat, a: nat, x: nat, j: nat, b: nat, y: nat | IsData(tables', i, a, x) && IsData(tables', j, b, y) && (i, a, x) != (j, b, y)
      ensures FieldsDisjoint(DataAt(tables', i, a, x), DataAt(tables', j, b, y))
    {
      var p, q := src(i, a, x), src(j, b, y);
      assert p != q;
      assert SourceOk(tables, tables', record, i, a, x, p) && SourceOk(tables, tables', record, j, b, y, q);
      if p.Old? && q.Old? {
        assert FieldsDisjoint(DataAt(tables, p.i, p.a, p.x), DataAt(tables, q.i, q.a, q.x));
      } else if p.Old? {
        assert FieldOk(d, next, DataAt(tables, p.i, p.a, p.x));
      } else if q.Old? {
        assert FieldOk(d, next, DataAt(tables, q.i, q.a, q.x));
      } else if p.x < q.x {
      } else {
        assert FieldsDisjoint(FieldOf(record, q.x), FieldOf(record, p.x));
      }
    }
  }

  ghost predicate InLayout(lay: Layout, block: nat) {
    exists j, k :: 0 <= j < |lay| && 0 <= k < |lay[j]| && lay[j][k] == block
  }

  /** The new block, if any, lies above all old ones and out of the way of the fresh fields. */
  ghost predicate NewBlockOk(tables': seq<TableInfo>, record: LogRecord, src: (nat, nat, nat) -> Source, next: nat, block: nat) {
    && next <= block
    && forall i: nat, a: nat, x: nat :: IsData(tables', i, a, x) && src(i, a, x).Fresh? && src(i, a, x).x < 3 ==>
      OffBlock(FieldOf(record, src(i, a, x).x), block)
  }

  /** Old blocks lie below all fresh fields. */
  lemma FieldsOffBlocksAfter(d: bytes, d': bytes, next: nat, lo: nat, next': nat, tables: seq<TableInfo>, tables': seq<TableInfo>, lay: Layout, lay': Layout, record: LogRecord, src: (nat, nat, nat) -> Source)
    requires FieldsOk(d, next, tables) && FieldsOffBlocks(tables, lay) && next <= lo
    requires forall j :: 0 <= j < |lay| ==> Below(lay[j], next) && (forall k :: 0 <= k < |lay[j]| ==> ROOT <= lay[j][k])
    requires Sources(tables, tables', record, src) && FreshSources(d', tables', record, src, lo, next')
    requires forall j, k :: 0 <= j < |lay'| && 0 <= k < |lay'[j]| ==>
      InLayout(lay, lay'[j][k]) || NewBlockOk(tables', record, src, next, lay'[j][k])
    ensures FieldsOffBlocks(tables', lay')
  {
    forall i: nat, a: nat, x: nat, j: nat | IsData(tables', i, a, x) && j < |lay'|
      ensures OffChain(DataAt(tables', i, a, x), lay'[j])
    {
      forall k | 0 <= k < |lay'[j]| ensures OffBlock(DataAt(tables', i, a, x), lay'[j][k]) {
        FieldOffBlockAfter(d, d', next, lo, next', tables, tables', lay, record, src, i, a, x, lay'[j][k]);
      }
    }
  }

  lemma FieldOffBlockAfter(d: bytes, d': bytes, next: nat, lo: nat, next': nat, tables: seq<TableInfo>, tables': seq<TableInfo>, lay: Layout, record: LogRecord, src: (nat, nat, nat) -> Source, i: nat, a: nat, x: nat, block: nat)
    requires FieldsOk(d, next, tables) && FieldsOffBlocks(tables, lay) && next <= lo
    requires forall j :: 0 <= j < |lay| ==> Below(lay[j], next) && (forall k :: 0 <= k < |lay[j]| ==> ROOT <= lay[j][k])
    requires Sources(tables, tables', record, src) && FreshSources(d', tables', record, src, lo, next')
    requires IsData(tables', i, a, x)
    requires InLayout(lay, block) || NewBlockOk(tables', record, src, next, block)
    ensures OffBlock(DataAt(tables', i, a, x), block)
  {
    var p := src(i, a, x);
    assert SourceOk(tables, tables', record, i, a, x, p);
    if InLayout(lay, block) {
      var j, k :| 0 <= j < |lay| && 0 <= k < |lay[j]| && lay[j][k] == block;
      assert Below(lay[j], next) && block + BLOCK_SIZE <= next;
      if p.Old? {
        assert OffChain(DataAt(tables, p.i, p.a, p.x), lay[j]);
      }
    } else if p.Old? {
      assert FieldOk(d, next, DataAt(tables, p.i, p.a, p.x));
    }
  }
}
