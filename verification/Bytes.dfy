/** Byte strings, in-place overwriting of a byte string, and little-endian words. */
module Bytes {

  type byte = x: int | 0 <= x < 256
  type bytes = seq<byte>

  const WORD_LIMIT: nat := 0x1_0000_0000

  datatype Option<+T> = None | Some(value: T)

  function Min(a: nat, b: nat): nat {
    if a < b then a else b
  }

  function Max(a: nat, b: nat): nat {
    if a < b then b else a
  }

  /** `count` copies of `x`. */
  function Fill(count: nat, x: byte): (r: bytes)
    ensures |r| == count
    ensures forall i :: 0 <= i < count ==> r[i] == x
  {
    seq(count, i => x)
  }

  /** `data` with the bytes from `offset` on replaced by `patch`. */
  function Overwrite(data: bytes, offset: nat, patch: bytes): (r: bytes)
    requires offset + |patch| <= |data|
    ensures |r| == |data|
    ensures forall i :: 0 <= i < |data| ==>
      r[i] == if offset <= i < offset + |patch| then patch[i - offset] else data[i]
  {
    seq(|data|, i requires 0 <= i < |data| => if offset <= i < offset + |patch| then patch[i - offset] else data[i])
  }

  /** The two byte strings agree on the positions from `lo` up to `hi`. */
  ghost predicate SameOn(a: bytes, b: bytes, lo: nat, hi: nat) {
    hi <= |a| && hi <= |b| && forall p {:trigger a[p]} {:trigger b[p]} :: lo <= p < hi ==> a[p] == b[p]
  }

  /** Byte `k` of the little-endian form of `w`; higher bits than 32 are lost. */
  function ByteOf(w: nat, k: nat): (b: byte)
    requires k < 4
  {
    if k == 0 then w % 256
    else if k == 1 then w / 0x100 % 256
    else if k == 2 then w / 0x1_0000 % 256
    else w / 0x100_0000 % 256
  }

  /** The little-endian word at `offset`. */
  function WordAt(d: bytes, offset: nat): (w: nat)
    requires offset + 4 <= |d|
    ensures w < WORD_LIMIT
  {
    var b0: int, b1: int, b2: int, b3: int := d[offset], d[offset + 1], d[offset + 2], d[offset + 3];
    b0 + 0x100 * b1 + 0x1_0000 * b2 + 0x100_0000 * b3
  }

  /** Consecutive little-endian words, as a struct of DWORDs is laid out. */
  function EncodeWords(words: seq<nat>): (r: bytes)
    ensures |r| == 4 * |words|
  {
    seq(4 * |words|, i requires 0 <= i < 4 * |words| => ByteOf(words[i / 4], i % 4))
  }

  lemma WordOfBytes(w: nat)
    requires w < WORD_LIMIT
    ensures
      var b0: int, b1: int, b2: int, b3: int := ByteOf(w, 0), ByteOf(w, 1), ByteOf(w, 2), ByteOf(w, 3);
      b0 + 0x100 * b1 + 0x1_0000 * b2 + 0x100_0000 * b3 == w
  {
    assert w == 0x100 * (w / 0x100) + w % 256;
    assert w / 0x1_0000 == w / 0x100 / 0x100;
    assert w / 0x100_0000 == w / 0x1_0000 / 0x100;
  }

  /** A word of a struct, written anywhere in a byte string, is read back. */
  lemma EncodedWordAt(words: seq<nat>, k: nat, d: bytes, offset: nat)
    requires k < |words| && words[k] < WORD_LIMIT
    requires offset + 4 * |words| <= |d|
    requires d[offset..offset + 4 * |words|] == EncodeWords(words)
    ensures WordAt(d, offset + 4 * k) == words[k]
  {
    var e := EncodeWords(words);
    var s := d[offset..offset + 4 * |words|];
    forall i | 0 <= i < 4 ensures d[offset + 4 * k + i] == ByteOf(words[k], i) {
      assert (4 * k + i) / 4 == k && (4 * k + i) % 4 == i;
      assert s[4 * k + i] == e[4 * k + i];
    }
    assert d[offset + 4 * k + 0] == ByteOf(words[k], 0);
    WordOfBytes(words[k]);
  }

  lemma WordFrame(a: bytes, b: bytes, offset: nat)
    requires SameOn(a, b, offset, offset + 4)
    ensures WordAt(a, offset) == WordAt(b, offset)
  {
  }

  lemma SliceFrame(a: bytes, b: bytes, lo: nat, hi: nat)
    requires lo <= hi && SameOn(a, b, lo, hi)
    ensures a[lo..hi] == b[lo..hi]
  {
    forall i | 0 <= i < hi - lo ensures a[lo..hi][i] == b[lo..hi][i] {
      assert a[lo + i] == b[lo + i];
    }
  }
}

/** The byte file under the page cache, and the steps that change it. */
module Disk {
  import opened Bytes

  const UNINITIALIZED_BYTE: byte := 0xEE

  /** One change of the file: overwriting bytes in place, or appending uninitialised bytes. */
  datatype Io = Put(offset: nat, data: bytes) | Grow(count: nat)

  /** `io` touches nothing beyond the end of a file of `size` bytes. */
  predicate Fits(io: Io, size: nat) {
    io.Put? ==> io.offset + |io.data| <= size
  }

  function Do(d: bytes, io: Io): (r: bytes)
    ensures |r| == |d| + if io.Grow? then io.count else 0
  {
    match io
    case Put(offset, data) => if Fits(io, |d|) then Overwrite(d, offset, data) else d
    case Grow(count) => d + Fill(count, UNINITIALIZED_BYTE)
  }

  /** The file after all the steps, in order. */
  function DoAll(d: bytes, ios: seq<Io>): (r: bytes)
    ensures |r| >= |d|
  {
    if ios == [] then d else Do(DoAll(d, ios[..|ios| - 1]), ios[|ios| - 1])
  }

  lemma {:induction false} DoAllAppend(d: bytes, a: seq<Io>, b: seq<Io>)
    ensures DoAll(d, a + b) == DoAll(DoAll(d, a), b)
  {
    if b == [] {
      assert a + b == a;
    } else {
      var b' := b[..|b| - 1];
      DoAllAppend(d, a, b');
      assert (a + b)[..|a + b| - 1] == a + b';
    }
  }
}

/** Ways to cut and join a sequence. */
module Sequences {

  ghost predicate Distinct<T>(s: seq<T>) {
    forall i, j :: 0 <= i < j < |s| ==> s[i] != s[j]
  }

  function RemovedAt<T>(s: seq<T>, k: nat): (r: seq<T>)
    requires k < |s|
    ensures |r| == |s| - 1
  {
    s[..k] + s[k + 1..]
  }

  lemma Unit<T>(a: seq<T>)
    ensures a + [] == a
  {
  }

  lemma Assoc<T>(a: seq<T>, b: seq<T>, c: seq<T>)
    ensures a + b + c == a + (b + c)
  {
  }

  lemma Snoc<T>(s: seq<T>, p: nat)
    requires p < |s|
    ensures s[..p + 1] == s[..p] + [s[p]]
  {
  }

  lemma Joins<T>(s: seq<T>, p: nat, q: nat)
    requires p <= q <= |s|
    ensures s[..q] == s[..p] + s[p..q]
  {
  }

  lemma Halves<T>(s: seq<T>, p: nat)
    requires p <= |s|
    ensures s == s[..p] + s[p..]
  {
  }

  lemma Whole<T>(s: seq<T>)
    ensures s[..|s|] == s
  {
  }
}
