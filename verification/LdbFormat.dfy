/** The structures `logdb` keeps in its file: block headers, log records and the fields they point to. */
module LdbFormat {
  import opened Bytes

  const MAGIC: nat := 0x00BABACA
  const FILE_HEADER_SIZE: nat := 16
  const BLOCK_HEADER_SIZE: nat := 12
  const LOG_RECORD_SIZE: nat := 48
  const BLOCK_SIZE: nat := 4096
  const MAX_RECORDS: nat := 85

  const OPERATION_APPEND: nat := 1
  const OPERATION_INSERT: nat := 2
  const OPERATION_SET: nat := 3
  const OPERATION_DELETE: nat := 4
  const OPERATION_CLEAR: nat := 5

  datatype BlockHeader = BlockHeader(size: nat, used: nat, next: nat)

  datatype HeaderInfo = HeaderInfo(header: BlockHeader, offset: nat)

  datatype Field = Field(offset: nat, size: nat, hash: nat)

  const NULL_FIELD: Field := Field(0, 0, 0)

  datatype LogRecord = LogRecord(operation: nat, index: nat, id: nat, key: Field, value: Field, metadata: Field)

  function FieldEnd(f: Field): nat {
    f.offset + f.size
  }

  predicate HeaderFits(h: BlockHeader) {
    h.size < WORD_LIMIT && h.used < WORD_LIMIT && h.next < WORD_LIMIT
  }

  predicate FieldFits(f: Field) {
    f.offset < WORD_LIMIT && f.size < WORD_LIMIT && f.hash < WORD_LIMIT
  }

  predicate RecordFits(r: LogRecord) {
    && r.operation < WORD_LIMIT && r.index < WORD_LIMIT && r.id < WORD_LIMIT
    && FieldFits(r.key) && FieldFits(r.value) && FieldFits(r.metadata)
  }

  function HeaderWords(h: BlockHeader): seq<nat> {
    [h.size, h.used, h.next]
  }

  function EncodeHeader(h: BlockHeader): (r: bytes)
    ensures |r| == BLOCK_HEADER_SIZE
  {
    EncodeWords(HeaderWords(h))
  }

  function RecordWords(r: LogRecord): seq<nat> {
    [r.operation, r.index, r.id,
     r.key.offset, r.key.size, r.key.hash,
     r.value.offset, r.value.size, r.value.hash,
     r.metadata.offset, r.metadata.size, r.metadata.hash]
  }

  function EncodeRecord(r: LogRecord): (s: bytes)
    ensures |s| == LOG_RECORD_SIZE
  {
    EncodeWords(RecordWords(r))
  }

  function HeaderAt(d: bytes, offset: nat): (h: BlockHeader)
    requires offset + BLOCK_HEADER_SIZE <= |d|
    ensures HeaderFits(h)
  {
    BlockHeader(WordAt(d, offset), WordAt(d, offset + 4), WordAt(d, offset + 8))
  }

  function FieldAt(d: bytes, offset: nat): (f: Field)
    requires offset + 12 <= |d|
    ensures FieldFits(f)
  {
    Field(WordAt(d, offset), WordAt(d, offset + 4), WordAt(d, offset + 8))
  }

  function RecordAt(d: bytes, offset: nat): (r: LogRecord)
    requires offset + LOG_RECORD_SIZE <= |d|
    ensures RecordFits(r)
  {
    LogRecord(WordAt(d, offset), WordAt(d, offset + 4), WordAt(d, offset + 8),
              FieldAt(d, offset + 12), FieldAt(d, offset + 24), FieldAt(d, offset + 36))
  }

  lemma HeaderRoundTrip(h: BlockHeader, d: bytes, offset: nat)
    requires HeaderFits(h) && offset + BLOCK_HEADER_SIZE <= |d|
    requires d[offset..offset + BLOCK_HEADER_SIZE] == EncodeHeader(h)
    ensures HeaderAt(d, offset) == h
  {
    var w := HeaderWords(h);
    EncodedWordAt(w, 0, d, offset);
    EncodedWordAt(w, 1, d, offset);
    EncodedWordAt(w, 2, d, offset);
  }

  lemma FieldRoundTrip(words: seq<nat>, k: nat, d: bytes, offset: nat)
    requires k + 3 <= |words| && offset + 4 * |words| <= |d|
    requires words[k] < WORD_LIMIT && words[k + 1] < WORD_LIMIT && words[k + 2] < WORD_LIMIT
    requires d[offset..offset + 4 * |words|] == EncodeWords(words)
    ensures FieldAt(d, offset + 4 * k) == Field(words[k], words[k + 1], words[k + 2])
  {
    EncodedWordAt(words, k, d, offset);
    EncodedWordAt(words, k + 1, d, offset);
    EncodedWordAt(words, k + 2, d, offset);
  }

  lemma RecordRoundTrip(r: LogRecord, d: bytes, offset: nat)
    requires RecordFits(r) && offset + LOG_RECORD_SIZE <= |d|
    requires d[offset..offset + LOG_RECORD_SIZE] == EncodeRecord(r)
    ensures RecordAt(d, offset) == r
  {
    var w := RecordWords(r);
    FieldRoundTrip(w, 0, d, offset);
    FieldRoundTrip(w, 3, d, offset);
    FieldRoundTrip(w, 6, d, offset);
    FieldRoundTrip(w, 9, d, offset);
  }

  lemma HeaderFrame(a: bytes, b: bytes, offset: nat)
    requires SameOn(a, b, offset, offset + BLOCK_HEADER_SIZE)
    ensures HeaderAt(a, offset) == HeaderAt(b, offset)
  {
    WordFrame(a, b, offset);
    WordFrame(a, b, offset + 4);
    WordFrame(a, b, offset + 8);
  }

  lemma FieldFrame(a: bytes, b: bytes, offset: nat)
    requires SameOn(a, b, offset, offset + 12)
    ensures FieldAt(a, offset) == FieldAt(b, offset)
  {
    WordFrame(a, b, offset);
    WordFrame(a, b, offset + 4);
    WordFrame(a, b, offset + 8);
  }

  lemma RecordFrame(a: bytes, b: bytes, offset: nat)
    requires SameOn(a, b, offset, offset + LOG_RECORD_SIZE)
    ensures RecordAt(a, offset) == RecordAt(b, offset)
  {
    FieldFrame(a, b, offset);
    FieldFrame(a, b, offset + 12);
    FieldFrame(a, b, offset + 24);
    FieldFrame(a, b, offset + 36);
  }

  /** Exclusive or of two numbers. */
  function Xor(a: nat, b: nat): nat {
    if a == 0 && b == 0 then 0 else 2 * Xor(a / 2, b / 2) + (a % 2 + b % 2) % 2
  }

  /** The hash of a key: all its bytes xor-ed onto 2. */
  function DoHash(data: bytes): (hash: nat)
    ensures hash < 256
  {
    if data == [] then 2
    else
      XorOfBytes(DoHash(data[..|data| - 1]), data[|data| - 1]);
      Xor(DoHash(data[..|data| - 1]), data[|data| - 1])
  }

  function Pow2(n: nat): nat {
    if n == 0 then 1 else 2 * Pow2(n - 1)
  }

  lemma {:induction false} XorBound(a: nat, b: nat, bits: nat)
    requires a < Pow2(bits) && b < Pow2(bits)
    ensures Xor(a, b) < Pow2(bits)
  {
    if bits > 0 && (a != 0 || b != 0) {
      XorBound(a / 2, b / 2, bits - 1);
    }
  }

  lemma XorOfBytes(a: nat, b: nat)
    requires a < 256 && b < 256
    ensures Xor(a, b) < 256
  {
    assert Pow2(8) == 256;
    XorBound(a, b, 8);
  }
}
