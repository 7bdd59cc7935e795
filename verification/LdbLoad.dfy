/** Rebuilding the tables of a `logdb` file: block chains, their log, and the replay of the log. */
module LdbLoad {
  import opened Bytes
  import opened LdbFormat

  datatype TableInfo = TableInfo(name: bytes, last: HeaderInfo, records: seq<LogRecord>)

  // ----- Replay of log records -----

  /** What `LoadBlock` does to the records of a table on reading one log record. */
  function ReplayRecord(records: seq<LogRecord>, r: LogRecord): seq<LogRecord> {
    if r.operation == OPERATION_APPEND then
      records + [r]
    else if r.operation == OPERATION_SET then
      if r.index < |records| then records[r.index := r] else records
    else if r.operation == OPERATION_CLEAR then
      []
    else if r.operation == OPERATION_INSERT then
      // two separate tests: after the first has appended, the second holds too
      var appended := if r.index == |records| then records + [r] else records;
      if r.index < |appended| then appended[..r.index] + [r] + appended[r.index..] else appended
    else if r.operation == OPERATION_DELETE then
      if r.index < |records| then records[..r.index] + records[r.index + 1..] else records
    else
      records
  }

  function Replay(log: seq<LogRecord>): seq<LogRecord> {
    if log == [] then [] else ReplayRecord(Replay(log[..|log| - 1]), log[|log| - 1])
  }

  /** Where the data of a record ends, judged by the field with the greatest offset. */
  function RecordEnd(r: LogRecord): nat {
    if r.key.offset > r.value.offset then
      if r.key.offset > r.metadata.offset then FieldEnd(r.key) else FieldEnd(r.metadata)
    else
      if r.value.offset > r.metadata.offset then FieldEnd(r.value) else FieldEnd(r.metadata)
  }

  // ----- Blocks and chains -----

  function SlotOffset(block: nat, slot: nat): nat {
    block + BLOCK_HEADER_SIZE + LOG_RECORD_SIZE * slot
  }

  /** The header at `block` and the log records it announces lie inside the file. */
  predicate BlockFits(d: bytes, block: nat) {
    block + BLOCK_HEADER_SIZE <= |d| && SlotOffset(block, HeaderAt(d, block).used) <= |d|
  }

  function BlockLog(d: bytes, block: nat): (log: seq<LogRecord>)
    requires BlockFits(d, block)
    ensures |log| == HeaderAt(d, block).used
  {
    var used := HeaderAt(d, block).used;
    seq(used, i requires 0 <= i < used => RecordAt(d, SlotOffset(block, i)))
  }

  /** The blocks of a table from the first on, found by following the links as `LoadAllBlocks` does. */
  function ChainFrom(d: bytes, block: nat): Option<seq<nat>>
    decreases |d| - block
  {
    if !BlockFits(d, block) then None
    else
      var next := HeaderAt(d, block).next;
      if next == 0 then Some([block])
      else if next <= block then None  // the links do not lead forward: no promise that the loop ends
      else
        match ChainFrom(d, next)
        case None => None
        case Some(rest) => Some([block] + rest)
  }

  ghost predicate AllFit(d: bytes, chain: seq<nat>) {
    forall k :: 0 <= k < |chain| ==> BlockFits(d, chain[k])
  }

  ghost predicate Linked(d: bytes, chain: seq<nat>)
    requires AllFit(d, chain)
  {
    forall k {:trigger chain[k]} :: 0 <= k < |chain| - 1 ==> chain[k] < chain[k + 1] && HeaderAt(d, chain[k]).next == chain[k + 1]
  }

  ghost predicate IsChain(d: bytes, chain: seq<nat>) {
    && chain != []
    && AllFit(d, chain)
    && Linked(d, chain)
    && HeaderAt(d, chain[|chain| - 1]).next == 0
  }

  lemma {:induction false} ChainIsFound(d: bytes, chain: seq<nat>)
    requires IsChain(d, chain)
    ensures ChainFrom(d, chain[0]) == Some(chain)
    decreases |chain|
  {
    if |chain| == 1 {
      assert chain == [chain[0]];
    } else {
      ChainTail(d, chain);
      ChainIsFound(d, chain[1..]);
      assert chain[0] < chain[1];
      assert chain == [chain[0]] + chain[1..];
    }
  }

  lemma ChainTail(d: bytes, chain: seq<nat>)
    requires IsChain(d, chain) && |chain| > 1
    ensures IsChain(d, chain[1..])
  {
    var rest := chain[1..];
    forall k | 0 <= k < |rest| ensures BlockFits(d, rest[k]) {
      assert rest[k] == chain[k + 1];
    }
    forall k | 0 <= k < |rest| - 1 ensures rest[k] < rest[k + 1] && HeaderAt(d, rest[k]).next == rest[k + 1] {
      assert rest[k] == chain[k + 1];
    }
  }

  lemma {:induction false} FoundIsChain(d: bytes, block: nat)
    requires ChainFrom(d, block).Some?
    ensures var chain := ChainFrom(d, block).value; IsChain(d, chain) && chain[0] == block
    decreases |d| - block
  {
    var next := HeaderAt(d, block).next;
    if next != 0 {
      FoundIsChain(d, next);
      var rest := ChainFrom(d, next).value;
      var chain := [block] + rest;
      assert forall k :: 0 <= k < |rest| ==> chain[k + 1] == rest[k];
      forall k | 0 <= k < |chain| ensures BlockFits(d, chain[k]) {
        assert k == 0 || chain[k] == rest[k - 1];
      }
      forall k | 0 <= k < |chain| - 1 ensures chain[k] < chain[k + 1] && HeaderAt(d, chain[k]).next == chain[k + 1] {
        if k > 0 {
          assert chain[k] == rest[k - 1] && chain[k + 1] == rest[k];
        }
      }
    }
  }

  /** The log of a table: the records of its blocks, block after block. */
  function Log(d: bytes, chain: seq<nat>): seq<LogRecord>
    requires forall k :: 0 <= k < |chain| ==> BlockFits(d, chain[k])
  {
    if chain == [] then [] else Log(d, chain[..|chain| - 1]) + BlockLog(d, chain[|chain| - 1])
  }

  // ----- Reading depends on the blocks only -----

  /** The part of a block that reading it depends on. */
  ghost predicate SameBlock(a: bytes, b: bytes, block: nat)
    requires BlockFits(a, block)
  {
    SameOn(a, b, block, SlotOffset(block, HeaderAt(a, block).used))
  }

  lemma BlockFrame(a: bytes, b: bytes, block: nat)
    requires BlockFits(a, block) && SameBlock(a, b, block)
    ensures BlockFits(b, block) && HeaderAt(a, block) == HeaderAt(b, block)
    ensures BlockLog(a, block) == BlockLog(b, block)
  {
    HeaderFrame(a, b, block);
    var used := HeaderAt(a, block).used;
    forall i | 0 <= i < used
      ensures RecordAt(a, SlotOffset(block, i)) == RecordAt(b, SlotOffset(block, i))
    {
      RecordFrame(a, b, SlotOffset(block, i));
    }
  }

  lemma {:induction false} LogFrame(a: bytes, b: bytes, chain: seq<nat>)
    requires AllFit(a, chain)
    requires forall k :: 0 <= k < |chain| ==> SameBlock(a, b, chain[k])
    ensures AllFit(b, chain)
    ensures Log(a, chain) == Log(b, chain)
  {
    forall k | 0 <= k < |chain| ensures BlockFits(b, chain[k]) {
      BlockFrame(a, b, chain[k]);
    }
    if chain != [] {
      LogFrame(a, b, chain[..|chain| - 1]);
      BlockFrame(a, b, chain[|chain| - 1]);
    }
  }

  lemma ChainFrame(a: bytes, b: bytes, chain: seq<nat>)
    requires IsChain(a, chain)
    requires forall k :: 0 <= k < |chain| ==> SameBlock(a, b, chain[k])
    ensures IsChain(b, chain)
    ensures HeaderAt(b, chain[|chain| - 1]) == HeaderAt(a, chain[|chain| - 1])
    ensures Log(a, chain) == Log(b, chain)
  {
    LogFrame(a, b, chain);
    forall k | 0 <= k < |chain|
      ensures HeaderAt(a, chain[k]) == HeaderAt(b, chain[k])
    {
      BlockFrame(a, b, chain[k]);
    }
    forall k | 0 <= k < |chain| - 1 ensures chain[k] < chain[k + 1] && HeaderAt(b, chain[k]).next == chain[k + 1] {
      assert HeaderAt(a, chain[k]) == HeaderAt(b, chain[k]);
    }
  }

  // ----- The loader -----

  function LoadTable(d: bytes, name: bytes, block: nat): Option<TableInfo> {
    match ChainFrom(d, block)
    case None => None
    case Some(chain) =>
      FoundIsChain(d, block);
      var last := chain[|chain| - 1];
      Some(TableInfo(name, HeaderInfo(HeaderAt(d, last), last), Replay(Log(d, chain))))
  }

  /** The end of the data and blocks that a log reaches, and at least `next`. */
  function LogEnd(log: seq<LogRecord>, next: nat): (r: nat)
    ensures r >= next
    ensures forall i :: 0 <= i < |log| ==> RecordEnd(log[i]) <= r
  {
    if log == [] then next else Max(LogEnd(log[..|log| - 1], next), RecordEnd(log[|log| - 1]))
  }

  /** `_nextDataOffset` after reading a chain, when it was `next` before. */
  function ChainEnd(d: bytes, chain: seq<nat>, next: nat): (r: nat)
    requires forall k :: 0 <= k < |chain| ==> BlockFits(d, chain[k])
    ensures r >= next
  {
    if chain == [] then next
    else
      var last := chain[|chain| - 1];
      var before := ChainEnd(d, chain[..|chain| - 1], next);
      LogEnd(BlockLog(d, last), Max(before, last + HeaderAt(d, last).size))
  }

  function LogLastId(log: seq<LogRecord>, id: nat): nat {
    if log == [] then id else Max(LogLastId(log[..|log| - 1], id), log[|log| - 1].id)
  }

  function FieldBytes(d: bytes, f: Field): bytes {
    if FieldEnd(f) <= |d| then d[f.offset..FieldEnd(f)] else []
  }

  /** What reloading a file rebuilds: the metatable, the tables in metatable order and the counters. */
  datatype Loaded = Loaded(meta: TableInfo, tables: seq<TableInfo>, next: nat, lastId: nat)

  /** Loads the table of one metatable record after those before it. */
  function LoadNamed(d: bytes, r: LogRecord, before: Loaded): Option<Loaded> {
    if FieldEnd(r.key) > |d| then None
    else
      var name := FieldBytes(d, r.key);
      match ChainFrom(d, r.value.offset)
      case None => None
      case Some(chain) =>
        FoundIsChain(d, r.value.offset);
        Some(before.(tables := before.tables + [LoadTable(d, name, r.value.offset).value],
                     next := ChainEnd(d, chain, before.next),
                     lastId := LogLastId(Log(d, chain), before.lastId)))
  }

  function LoadAllNamed(d: bytes, records: seq<LogRecord>, before: Loaded): Option<Loaded> {
    if records == [] then Some(before)
    else
      match LoadAllNamed(d, records[..|records| - 1], before)
      case None => None
      case Some(most) => LoadNamed(d, records[|records| - 1], most)
  }

  /** `LoadFile`: the whole file read back into tables, or nothing when it is no such file. */
  function LoadFile(d: bytes): Option<Loaded> {
    if |d| < FILE_HEADER_SIZE || WordAt(d, 0) != MAGIC then None
    else
      var root := WordAt(d, 12);
      match ChainFrom(d, root)
      case None => None
      case Some(chain) =>
        FoundIsChain(d, root);
        var meta := LoadTable(d, [], root).value;
        LoadAllNamed(d, meta.records, Loaded(meta, [], ChainEnd(d, chain, 0), LogLastId(Log(d, chain), 0)))
  }
}
