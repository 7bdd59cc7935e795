/** One table in the file, and what committing a log record does to it. */
module LdbTable {
  import opened Bytes
  import opened Disk
  import opened LdbFormat
  import opened LdbLoad
  import opened LdbAppend

  // ----- A table and its blocks -----

  ghost predicate Spaced(chain: seq<nat>) {
    forall k {:trigger chain[k]} :: 0 <= k < |chain| - 1 ==> chain[k] + BLOCK_SIZE <= chain[k + 1]
  }

  predicate BlockOk(h: BlockHeader) {
    h.size == BLOCK_SIZE && h.used <= MAX_RECORDS
  }

  ghost predicate BlocksOk(d: bytes, chain: seq<nat>)
    requires AllFit(d, chain)
  {
    forall k :: 0 <= k < |chain| ==> BlockOk(HeaderAt(d, chain[k]))
  }

  /** The chain of blocks in the file holds the table that is in memory. */
  ghost predicate TableOk(d: bytes, chain: seq<nat>, t: TableInfo) {
    && IsChain(d, chain)
    && Spaced(chain)
    && BlocksOk(d, chain)
    && t.last == HeaderInfo(HeaderAt(d, chain[|chain| - 1]), chain[|chain| - 1])
    && t.records == Replay(Log(d, chain))
  }

  /** All blocks of the chain end at or below `next`. */
  ghost predicate Below(chain: seq<nat>, next: nat) {
    forall k :: 0 <= k < |chain| ==> chain[k] + BLOCK_SIZE <= next
  }

  /** A block is full at 85 records, and 85 records still fit in it. */
  lemma FullBlock(h: BlockHeader)
    requires BlockOk(h)
    ensures NeedsBlock(h) <==> h.used == MAX_RECORDS
    ensures h.used < MAX_RECORDS ==> BLOCK_HEADER_SIZE + LOG_RECORD_SIZE * (h.used + 1) <= BLOCK_SIZE
  {
  }

  lemma {:induction false} BlockBefore(chain: seq<nat>, k: nat, m: nat)
    requires Spaced(chain) && k < m < |chain|
    ensures chain[k] + BLOCK_SIZE <= chain[m]
  {
    if k + 1 < m {
      BlockBefore(chain, k, m - 1);
      assert chain[m - 1] + BLOCK_SIZE <= chain[m];
    } else {
      assert chain[k] + BLOCK_SIZE <= chain[k + 1];
    }
  }

  // ----- The commit: slot, header and link -----

  /** The state in which `AppendLogRecord` finds the last block of a table. */
  ghost predicate Ready(cfg: Config, d: bytes, next: nat, t: TableInfo, q: Request) {
    && ConfigOk(cfg)
    && BlockOk(t.last.header) && t.last.header.next == 0
    && t.last.offset + BLOCK_SIZE <= next <= |d|
    && HeaderAt(d, t.last.offset) == t.last.header
    && (forall i :: 0 <= i < |t.records| ==> RecordFits(t.records[i]))
    && (q.operation == OPERATION_SET ==> q.index < |t.records|)
    && q.operation < WORD_LIMIT && q.index < WORD_LIMIT
    && AfterData(cfg, |d|, next, t.last, q).size < WORD_LIMIT
  }

  function Slot(next: nat, last: HeaderInfo): nat {
    var target := TargetBlock(next, last);
    SlotOffset(target.offset, target.header.used)
  }

  /** Where the new data starts: at `next`, or behind the new block. */
  function Top(next: nat, last: HeaderInfo): nat {
    if NeedsBlock(last.header) then next + last.header.size else next
  }

  lemma SlotInside(next: nat, last: HeaderInfo)
    requires BlockOk(last.header) && last.header.next == 0
    ensures var target := TargetBlock(next, last);
      && target.offset + BLOCK_HEADER_SIZE <= Slot(next, last)
      && Slot(next, last) + LOG_RECORD_SIZE <= target.offset + BLOCK_SIZE
      && target.header.size == BLOCK_SIZE && target.header.used < MAX_RECORDS && HeaderFits(Bumped(target).header)
  {
    FullBlock(last.header);
  }

  lemma NewRecordFits(cfg: Config, d: bytes, next: nat, t: TableInfo, id: nat, q: Request)
    requires Ready(cfg, d, next, t, q) && id < WORD_LIMIT
    ensures RecordFits(NewRecord(cfg, |d|, next, t, id, q))
  {
  }

  /** Overwriting one place keeps all others. */
  lemma PutKeeps(a: bytes, b: bytes, offset: nat, data: bytes, lo: nat, hole: nat, holeEnd: nat)
    requires Keeps(a, b, lo, hole, holeEnd) && offset + |data| <= |b|
    requires offset >= lo || (hole <= offset && offset + |data| <= holeEnd)
    ensures Keeps(a, Do(b, Put(offset, data)), lo, hole, holeEnd)
  {
  }

  lemma SafeWeaker(d: bytes, ios: seq<Io>, lo: nat, hole: nat, holeEnd: nat)
    requires Safe(d, ios, lo, 0, 0)
    ensures Safe(d, ios, lo, hole, holeEnd)
  {
    forall k | 0 <= k <= |ios| ensures Keeps(d, DoAll(d, ios[..k]), lo, hole, holeEnd) {
      assert Keeps(d, DoAll(d, ios[..k]), lo, 0, 0);
    }
  }

  /** The writes before the last one, when `data` are those of the data. */
  function BeforeCommit(data: seq<Io>, next: nat, last: HeaderInfo, record: LogRecord): seq<Io> {
    var target := TargetBlock(next, last);
    data + [Put(Slot(next, last), EncodeRecord(record))]
    + if NeedsBlock(last.header) then [Put(target.offset, EncodeHeader(Bumped(target).header))] else []
  }

  /** The last write: the link to the new block, or the header that counts the record. */
  function Commit(next: nat, last: HeaderInfo): Io {
    if NeedsBlock(last.header) then Put(last.offset, EncodeHeader(last.header.(next := next)))
    else Put(last.offset, EncodeHeader(Bumped(last).header))
  }

  lemma WritesEndWithCommit(cfg: Config, size: nat, next: nat, t: TableInfo, id: nat, q: Request)
    requires ConfigOk(cfg) && next <= size
    requires q.operation == OPERATION_SET ==> q.index < |t.records|
    ensures Writes(cfg, size, next, t, id, q)
         == BeforeCommit(AfterData(cfg, size, next, t.last, q).ios, next, t.last, NewRecord(cfg, size, next, t, id, q))
          + [Commit(next, t.last)]
  {
  }

  ghost predicate SameAbove(a: bytes, b: bytes, top: nat) {
    |a| == |b| && forall p {:trigger b[p]} :: top <= p < |a| ==> b[p] == a[p]
  }

  /** All writes stay in free space and leave the new data alone, and the record has been written to its slot. */
  ghost predicate Prepared(d: bytes, data: seq<Io>, ios: seq<Io>, next: nat, slot: nat, top: nat, record: LogRecord) {
    && Safe(d, ios, next, slot, slot + LOG_RECORD_SIZE)
    && SameAbove(DoAll(d, data), DoAll(d, ios), top)
    && slot + LOG_RECORD_SIZE <= |DoAll(d, ios)| && RecordAt(DoAll(d, ios), slot) == record
  }

  /** Before the commit only free space has been written: all else below `next` is as it was. */
  lemma UntilCommit(d: bytes, c: Cursor, next: nat, last: HeaderInfo, record: LogRecord)
    requires CursorOk(d, c, next)
    requires BlockOk(last.header) && last.header.next == 0
    requires last.offset + BLOCK_SIZE <= next && TargetBlock(next, last).offset + BLOCK_SIZE <= c.size
    requires RecordFits(record)
    ensures Prepared(d, c.ios, BeforeCommit(c.ios, next, last, record), next, Slot(next, last), Top(next, last), record)
    ensures NeedsBlock(last.header) ==>
      HeaderAt(DoAll(d, BeforeCommit(c.ios, next, last, record)), next) == Bumped(TargetBlock(next, last)).header
  {
    hide HeaderAt, RecordAt, EncodeHeader, EncodeRecord;
    var target := TargetBlock(next, last);
    var slot := Slot(next, last);
    SlotInside(next, last);
    var ios := c.ios + [Put(slot, EncodeRecord(record))];
    SlotWritten(d, c, slot, next, Top(next, last), record);
    if NeedsBlock(last.header) {
      HeaderWritten(d, c.ios, ios, target, slot, next, Top(next, last), record);
    } else {
      assert BeforeCommit(c.ios, next, last, record) == ios;
    }
  }

  lemma TargetFits(cfg: Config, size: nat, next: nat, last: HeaderInfo, q: Request)
    requires ConfigOk(cfg) && next <= size && last.header.size == BLOCK_SIZE && last.offset + BLOCK_SIZE <= next
    ensures TargetBlock(next, last).offset + BLOCK_SIZE <= AfterData(cfg, size, next, last, q).size
  {
    assert TargetBlock(next, last).offset + BLOCK_SIZE <= AfterBlock(cfg, size, next, last).next;
  }

  lemma SlotWritten(d: bytes, c: Cursor, slot: nat, next: nat, top: nat, record: LogRecord)
    requires CursorOk(d, c, next) && slot + LOG_RECORD_SIZE <= c.size && slot + LOG_RECORD_SIZE <= top && RecordFits(record)
    ensures Prepared(d, c.ios, c.ios + [Put(slot, EncodeRecord(record))], next, slot, top, record)
  {
    var d0 := DoAll(d, c.ios);
    var data := EncodeRecord(record);
    var io := Put(slot, data);
    var d1 := Do(d0, io);
    SafeAll(d, c.ios, next, 0, 0);
    SafeWeaker(d, c.ios, next, slot, slot + LOG_RECORD_SIZE);
    PutKeeps(d, d0, slot, data, next, slot, slot + LOG_RECORD_SIZE);
    SafeSnoc(d, c.ios, io, next, slot, slot + LOG_RECORD_SIZE);
    DoAllSnoc(d, c.ios, io);
    assert d1[slot..slot + LOG_RECORD_SIZE] == data;
    RecordRoundTrip(record, d1, slot);
  }

  /** The header of the new block goes above `next` and in front of the record already written. */
  lemma HeaderWritten(d: bytes, data: seq<Io>, ios: seq<Io>, target: HeaderInfo, slot: nat, next: nat, top: nat, record: LogRecord)
    requires Prepared(d, data, ios, next, slot, top, record) && slot <= top
    requires target.offset == next && target.offset + BLOCK_HEADER_SIZE <= slot
    requires HeaderFits(Bumped(target).header)
    ensures Prepared(d, data, ios + [Put(target.offset, EncodeHeader(Bumped(target).header))], next, slot, top, record)
    ensures HeaderAt(DoAll(d, ios + [Put(target.offset, EncodeHeader(Bumped(target).header))]), next) == Bumped(target).header
  {
    hide HeaderAt, RecordAt, EncodeHeader, EncodeRecord, Bumped, HeaderFits, Keeps;
    var header := EncodeHeader(Bumped(target).header);
    var io := Put(target.offset, header);
    var d1 := DoAll(d, ios);
    SafeAll(d, ios, next, slot, slot + LOG_RECORD_SIZE);
    PutKeeps(d, d1, target.offset, header, next, slot, slot + LOG_RECORD_SIZE);
    SafeSnoc(d, ios, io, next, slot, slot + LOG_RECORD_SIZE);
    DoAllSnoc(d, ios, io);
    var d2 := Do(d1, io);
    assert d2[next..next + BLOCK_HEADER_SIZE] == header;
    HeaderRoundTrip(Bumped(target).header, d2, next);
    RecordFrame(d1, d2, slot);
  }

  // ----- What the commit makes of the table -----

  function ChainAfter(chain: seq<nat>, next: nat, last: HeaderInfo): seq<nat> {
    if NeedsBlock(last.header) then chain + [next] else chain
  }

  function TableAfter(t: TableInfo, next: nat, record: LogRecord): TableInfo {
    TableInfo(t.name, Bumped(TargetBlock(next, t.last)), ReplayRecord(t.records, record))
  }

  /** The file just before the commit, as far as the table is concerned. */
  ghost predicate AtCommit(d: bytes, d1: bytes, next: nat, last: HeaderInfo, record: LogRecord) {
    var slot := Slot(next, last);
    && Keeps(d, d1, next, slot, slot + LOG_RECORD_SIZE)
    && slot + LOG_RECORD_SIZE <= |d1| && RecordAt(d1, slot) == record
    && (NeedsBlock(last.header) ==> next + BLOCK_SIZE <= |d1| && HeaderAt(d1, next) == Bumped(TargetBlock(next, last)).header)
  }

  /** Blocks of the table before the last one are not touched. */
  lemma EarlierBlocksKept(d: bytes, d': bytes, chain: seq<nat>, next: nat, hole: nat, holeEnd: nat)
    requires IsChain(d, chain) && Spaced(chain) && BlocksOk(d, chain) && Below(chain, next)
    requires Keeps(d, d', next, hole, holeEnd) && chain[|chain| - 1] <= hole
    ensures forall k :: 0 <= k < |chain| - 1 ==> SameBlock(d, d', chain[k])
  {
    forall k | 0 <= k < |chain| - 1 ensures SameBlock(d, d', chain[k]) {
      BlockBefore(chain, k, |chain| - 1);
      BlockInside(d, chain[k]);
    }
  }

  lemma BlockInside(d: bytes, block: nat)
    requires BlockFits(d, block) && BlockOk(HeaderAt(d, block))
    ensures SlotOffset(block, HeaderAt(d, block).used) <= block + BLOCK_SIZE
  {
  }

  /** The last block after its header has been rewritten. */
  lemma HeaderRewritten(d1: bytes, block: nat, h: BlockHeader)
    requires block + BLOCK_HEADER_SIZE <= |d1| && HeaderFits(h)
    ensures var d' := Do(d1, Put(block, EncodeHeader(h)));
      && |d'| == |d1| && HeaderAt(d', block) == h
      && forall p {:trigger d'[p]} :: 0 <= p < |d1| && !(block <= p < block + BLOCK_HEADER_SIZE) ==> d'[p] == d1[p]
  {
    var d' := Do(d1, Put(block, EncodeHeader(h)));
    assert d'[block..block + BLOCK_HEADER_SIZE] == EncodeHeader(h);
    HeaderRoundTrip(h, d', block);
  }

  lemma UsedRecordsKept(d: bytes, d': bytes, block: nat, used: nat)
    requires BlockFits(d, block) && used <= HeaderAt(d, block).used
    requires SameOn(d, d', block + BLOCK_HEADER_SIZE, SlotOffset(block, used))
    ensures forall i :: 0 <= i < used ==> RecordAt(d, SlotOffset(block, i)) == RecordAt(d', SlotOffset(block, i))
  {
    forall i | 0 <= i < used ensures RecordAt(d, SlotOffset(block, i)) == RecordAt(d', SlotOffset(block, i)) {
      RecordFrame(d, d', SlotOffset(block, i));
    }
  }

  lemma BlockLogGrows(d: bytes, d': bytes, block: nat, record: LogRecord)
    requires BlockFits(d, block) && BlockFits(d', block)
    requires HeaderAt(d', block).used == HeaderAt(d, block).used + 1
    requires forall i :: 0 <= i < HeaderAt(d, block).used ==> RecordAt(d, SlotOffset(block, i)) == RecordAt(d', SlotOffset(block, i))
    requires RecordAt(d', SlotOffset(block, HeaderAt(d, block).used)) == record
    ensures BlockLog(d', block) == BlockLog(d, block) + [record]
  {
    var a, b := BlockLog(d', block), BlockLog(d, block) + [record];
    forall i | 0 <= i < |a| ensures a[i] == b[i] {
      assert a[i] == RecordAt(d', SlotOffset(block, i));
    }
  }

  /** The last block gets one more record. */
  lemma LastBlockGrows(d: bytes, d1: bytes, next: nat, last: HeaderInfo, record: LogRecord)
    requires !NeedsBlock(last.header) && BlockOk(last.header) && last.header.next == 0
    requires BlockFits(d, last.offset) && HeaderAt(d, last.offset) == last.header && last.offset + BLOCK_SIZE <= next
    requires AtCommit(d, d1, next, last, record)
    ensures var d' := Do(d1, Commit(next, last));
      && BlockFits(d', last.offset) && HeaderAt(d', last.offset) == Bumped(last).header
      && BlockLog(d', last.offset) == BlockLog(d, last.offset) + [record]
      && Keeps(d, d', next, last.offset, last.offset + BLOCK_SIZE)
  {
    hide HeaderAt, RecordAt, EncodeHeader, EncodeRecord;
    var d' := Do(d1, Commit(next, last));
    SlotInside(next, last);
    HeaderRewritten(d1, last.offset, Bumped(last).header);
    UsedRecordsKept(d, d', last.offset, last.header.used);
    RecordFrame(d1, d', Slot(next, last));
    BlockLogGrows(d, d', last.offset, record);
  }

  /** The last block gets linked to a new block that holds the record. */
  lemma LastBlockLinked(d: bytes, d1: bytes, next: nat, last: HeaderInfo, record: LogRecord)
    requires NeedsBlock(last.header) && BlockOk(last.header) && last.header.next == 0 && 0 < next < WORD_LIMIT
    requires BlockFits(d, last.offset) && HeaderAt(d, last.offset) == last.header && last.offset + BLOCK_SIZE <= next
    requires AtCommit(d, d1, next, last, record)
    ensures var d' := Do(d1, Commit(next, last));
      && BlockFits(d', last.offset) && HeaderAt(d', last.offset) == last.header.(next := next)
      && BlockLog(d', last.offset) == BlockLog(d, last.offset)
      && BlockFits(d', next) && HeaderAt(d', next) == BlockHeader(BLOCK_SIZE, 1, 0)
      && BlockLog(d', next) == [record]
      && Keeps(d, d', next, last.offset, last.offset + BLOCK_SIZE)
  {
    hide HeaderAt, RecordAt, EncodeHeader, EncodeRecord;
    var d' := Do(d1, Commit(next, last));
    SlotInside(next, last);
    HeaderRewritten(d1, last.offset, last.header.(next := next));
    BlockInside(d, last.offset);
    UsedRecordsKept(d, d', last.offset, last.header.used);
    HeaderFrame(d1, d', next);
    RecordFrame(d1, d', Slot(next, last));
  }

  lemma ReplayOneMore(log: seq<LogRecord>, record: LogRecord)
    ensures Replay(log + [record]) == ReplayRecord(Replay(log), record)
  {
    assert (log + [record])[..|log|] == log;
  }

  lemma LogOneMore(d: bytes, chain: seq<nat>, block: nat)
    requires AllFit(d, chain) && BlockFits(d, block)
    ensures AllFit(d, chain + [block]) && Log(d, chain + [block]) == Log(d, chain) + BlockLog(d, block)
  {
    assert (chain + [block])[..|chain|] == chain;
  }

  /** Links, sizes and counts of all blocks but the last are read as before. */
  lemma LinksKept(d: bytes, d': bytes, chain: seq<nat>)
    requires IsChain(d, chain) && BlocksOk(d, chain)
    requires forall k :: 0 <= k < |chain| - 1 ==> SameBlock(d, d', chain[k])
    requires BlockFits(d', chain[|chain| - 1]) && BlockOk(HeaderAt(d', chain[|chain| - 1]))
    ensures AllFit(d', chain) && Linked(d', chain) && BlocksOk(d', chain)
  {
    forall k | 0 <= k < |chain|
      ensures BlockFits(d', chain[k]) && BlockOk(HeaderAt(d', chain[k]))
      ensures k < |chain| - 1 ==> HeaderAt(d', chain[k]) == HeaderAt(d, chain[k])
    {
      if k < |chain| - 1 {
        BlockFrame(d, d', chain[k]);
        assert BlockOk(HeaderAt(d, chain[k]));
      }
    }
    forall k | 0 <= k < |chain| - 1 ensures chain[k] < chain[k + 1] && HeaderAt(d', chain[k]).next == chain[k + 1] {
      assert chain[k] < chain[k + 1];
    }
  }

  /** Only the log of the last block matters when the earlier blocks are kept. */
  lemma LogByLastBlock(d: bytes, d': bytes, chain: seq<nat>)
    requires chain != [] && AllFit(d, chain)
    requires forall k :: 0 <= k < |chain| - 1 ==> SameBlock(d, d', chain[k])
    requires BlockFits(d', chain[|chain| - 1])
    ensures AllFit(d', chain)
    ensures Log(d, chain) == Log(d, chain[..|chain| - 1]) + BlockLog(d, chain[|chain| - 1])
    ensures Log(d', chain) == Log(d, chain[..|chain| - 1]) + BlockLog(d', chain[|chain| - 1])
  {
    var init := chain[..|chain| - 1];
    forall k | 0 <= k < |init| ensures SameBlock(d, d', init[k]) {
      assert init[k] == chain[k];
    }
    LogFrame(d, d', init);
    forall k | 0 <= k < |chain| ensures BlockFits(d', chain[k]) {
      assert k == |chain| - 1 || chain[k] == init[k];
    }
  }

  lemma ChainGrowsInPlace(d: bytes, d': bytes, chain: seq<nat>, record: LogRecord)
    requires IsChain(d, chain) && BlocksOk(d, chain)
    requires forall k :: 0 <= k < |chain| - 1 ==> SameBlock(d, d', chain[k])
    requires var last := chain[|chain| - 1];
      && BlockFits(d', last) && BlockOk(HeaderAt(d', last)) && HeaderAt(d', last).next == 0
      && BlockLog(d', last) == BlockLog(d, last) + [record]
    ensures IsChain(d', chain) && BlocksOk(d', chain)
    ensures Log(d', chain) == Log(d, chain) + [record]
  {
    hide HeaderAt, BlockLog, Log;
    LinksKept(d, d', chain);
    LogByLastBlock(d, d', chain);
  }

  lemma ChainGrowsByBlock(d: bytes, d': bytes, chain: seq<nat>, next: nat, record: LogRecord)
    requires IsChain(d, chain) && BlocksOk(d, chain) && Spaced(chain)
    requires forall k :: 0 <= k < |chain| - 1 ==> SameBlock(d, d', chain[k])
    requires var last := chain[|chain| - 1];
      && BlockFits(d', last) && BlockOk(HeaderAt(d', last)) && HeaderAt(d', last).next == next
      && last + BLOCK_SIZE <= next
      && BlockLog(d', last) == BlockLog(d, last)
    requires BlockFits(d', next) && BlockOk(HeaderAt(d', next)) && HeaderAt(d', next).next == 0 && BlockLog(d', next) == [record]
    ensures IsChain(d', chain + [next]) && BlocksOk(d', chain + [next]) && Spaced(chain + [next])
    ensures Log(d', chain + [next]) == Log(d, chain) + [record]
  {
    hide HeaderAt, BlockLog, Log, RecordAt;
    LinksKept(d, d', chain);
    LogByLastBlock(d, d', chain);
    LogOneMore(d', chain, next);
    var chain' := chain + [next];
    forall k | 0 <= k < |chain'| - 1
      ensures chain'[k] + BLOCK_SIZE <= chain'[k + 1] && HeaderAt(d', chain'[k]).next == chain'[k + 1]
    {
      if k < |chain| - 1 {
        assert chain'[k] == chain[k] && chain'[k + 1] == chain[k + 1];
        assert chain[k] + BLOCK_SIZE <= chain[k + 1];
      }
    }
  }

  /** The commit appends the record to the log of the table, in the last block or in a new one. */
  lemma Committed(d: bytes, d1: bytes, chain: seq<nat>, t: TableInfo, next: nat, record: LogRecord)
    requires TableOk(d, chain, t) && Below(chain, next) && next < WORD_LIMIT
    requires AtCommit(d, d1, next, t.last, record)
    ensures var d' := Do(d1, Commit(next, t.last));
      var chain' := ChainAfter(chain, next, t.last);
      && TableOk(d', chain', TableAfter(t, next, record))
      && Log(d', chain') == Log(d, chain) + [record]
      && Keeps(d, d', next, t.last.offset, t.last.offset + BLOCK_SIZE)
      && SameAbove(d1, d', next)
  {
    hide HeaderAt, RecordAt, EncodeHeader, EncodeRecord, BlockLog, Log, Replay;
    var d' := Do(d1, Commit(next, t.last));
    var last := chain[|chain| - 1];
    assert last + BLOCK_SIZE <= next;
    FullBlock(t.last.header);
    if NeedsBlock(t.last.header) {
      LastBlockLinked(d, d1, next, t.last, record);
      EarlierBlocksKept(d, d', chain, next, last, last + BLOCK_SIZE);
      ChainGrowsByBlock(d, d', chain, next, record);
    } else {
      LastBlockGrows(d, d1, next, t.last, record);
      EarlierBlocksKept(d, d', chain, next, last, last + BLOCK_SIZE);
      ChainGrowsInPlace(d, d', chain, record);
    }
    ReplayOneMore(Log(d, chain), record);
  }
}
