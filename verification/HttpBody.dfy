/** Lengths, and the bytes delivered as a body. */
module HttpBody {
  import opened Bytes
  import opened HttpMachine
  import opened HttpFraming

  // ----- Feeding in pieces -----

  function Then(a: Outcome, b: Outcome): Outcome {
    Outcome(b.f, a.out + b.out, a.read + b.read, b.stop)
  }

  lemma FeedSnoc(cfg: Config, f: Fields, data: bytes, ch: byte)
    requires Feed(cfg, f, data).stop.More?
    ensures Feed(cfg, f, data + [ch]) == After(Feed(cfg, f, data), Exec(cfg, Feed(cfg, f, data).f, ch))
  {
    assert (data + [ch])[..|data|] == data;
  }

  lemma AfterThen(a: Outcome, r: Outcome, m: Effect)
    ensures After(Then(a, r), m) == Then(a, After(r, m))
  {
  }

  /** The machine has no memory but its fields: feeding two pieces is feeding them joined. */
  lemma {:induction false} FeedAppend(cfg: Config, f: Fields, a: bytes, b: bytes)
    requires Feed(cfg, f, a).stop.More?
    ensures Feed(cfg, f, a + b) == Then(Feed(cfg, f, a), Feed(cfg, Feed(cfg, f, a).f, b))
  {
    if b == [] {
      assert a + b == a;
    } else {
      var n := |b| - 1;
      assert (a + b)[..|a + b| - 1] == a + b[..n];
      FeedAppend(cfg, f, a, b[..n]);
      var r := Feed(cfg, Feed(cfg, f, a).f, b[..n]);
      AfterThen(Feed(cfg, f, a), r, Exec(cfg, r.f, b[n]));
    }
  }

  lemma {:induction false} FeedStops(cfg: Config, f: Fields, a: bytes, b: bytes)
    requires !Feed(cfg, f, a).stop.More?
    ensures Feed(cfg, f, a + b) == Feed(cfg, f, a)
  {
    if b == [] {
      assert a + b == a;
    } else {
      assert (a + b)[..|a + b| - 1] == a + b[..|b| - 1];
      FeedStops(cfg, f, a, b[..|b| - 1]);
    }
  }

  /** Bytes of one kind. */
  function Tokens(kind: Kind, data: bytes): (r: seq<Token>)
    ensures |r| == |data| && forall i :: 0 <= i < |r| ==> r[i] == Byte(kind, data[i])
  {
    seq(|data|, i requires 0 <= i < |data| => Byte(kind, data[i]))
  }

  // ----- Content-Length -----

  /** The number the digits write, spaces left out. */
  function Decimal(text: bytes): int {
    if text == [] then 0
    else
      var c: int := text[|text| - 1];
      if c == SP then Decimal(text[..|text| - 1]) else 10 * Decimal(text[..|text| - 1]) + (c - 48)
  }

  /** A digit, then digits and spaces, no digit following a number above the limit. */
  predicate IsLength(text: bytes) {
    && |text| > 0 && IsNum(text[0])
    && forall i {:trigger text[i]} :: 1 <= i < |text| ==> text[i] == SP || (IsNum(text[i]) && Decimal(text[..i]) <= (NO_LENGTH - 10) / 10)
  }

  lemma IsLengthInit(text: bytes)
    requires |text| > 1
    ensures var n := |text| - 1;
      IsLength(text) <==> IsLength(text[..n]) && (text[n] == SP || (IsNum(text[n]) && Decimal(text[..n]) <= (NO_LENGTH - 10) / 10))
  {
    var n := |text| - 1;
    forall i | 1 <= i < n ensures text[..n][..i] == text[..i] && text[..n][i] == text[i] {
    }
  }

  /** The machine reading the value of a `Content-Length` header. */
  predicate LengthIs(r: Outcome, f: Fields, text: bytes) {
    && r.stop.More?
    && Decimal(text) >= 0
    && r.f == f.(state := HeaderValue, index := 0, flags := f.flags.(contentLength := true), length := Decimal(text))
    && Decimal(text) < NO_LENGTH
  }

  /** The first digit. */
  lemma FirstDigit(cfg: Config, f: Fields, ch: byte)
    requires f.state.ValueDiscardWs? && f.header.ContentLength? && !f.flags.contentLength && ch !in [CR, LF, SP, HT]
    ensures IsLength([ch]) ==> LengthIs(Feed(cfg, f, [ch]), f, [ch])
    ensures !IsLength([ch]) ==> Feed(cfg, f, [ch]).stop.Wrong?
  {
    assert [ch][..0] == [];
    assert Decimal([]) == 0;
    assert Feed(cfg, f, []) == Outcome(f, [], 0, More);
    assert IsLength([ch]) <==> IsNum(ch);
  }

  lemma NextDigit(cfg: Config, f: Fields, ch: byte)
    requires f.state.HeaderValue? && f.header.ContentLength? && ch != CR && ch != LF
    ensures var m := Exec(cfg, f, ch);
      && (m.Next? || m.Fail?)
      && (m.Next? <==> ch == SP || (IsNum(ch) && f.length <= (NO_LENGTH - 10) / 10))
      && (m.Next? && ch == SP ==> m.f == f)
      && (m.Next? && ch != SP ==> m.f == f.(length := 10 * f.length + (ch - 48)) && m.f.length < NO_LENGTH)
  {
    if LengthDigit(f, ch, Tell(Byte(Value, ch))).Go? && ch != SP {
      LengthDigitExact(f, ch, Tell(Byte(Value, ch)));
    }
  }

  /**
    A content length is accepted if and only if it is digits, possibly with spaces, and none follows a number above the limit;
    then it is the number they write, which has not wrapped and is not the sentinel.
    */
  lemma {:induction false} ContentLengthIsExact(cfg: Config, f: Fields, text: bytes)
    requires f.state.ValueDiscardWs? && f.header.ContentLength? && !f.flags.contentLength
    requires text != [] && text[0] != SP && text[0] != HT && CR !in text && LF !in text
    ensures IsLength(text) ==> LengthIs(Feed(cfg, f, text), f, text)
    ensures !IsLength(text) ==> Feed(cfg, f, text).stop.Wrong?
  {
    var n := |text| - 1;
    assert text == text[..n] + [text[n]];
    if n == 0 {
      assert text[..0] == [];
      FirstDigit(cfg, f, text[0]);
    } else {
      ContentLengthIsExact(cfg, f, text[..n]);
      IsLengthInit(text);
      if IsLength(text[..n]) {
        FeedSnoc(cfg, f, text[..n], text[n]);
        NextDigit(cfg, Feed(cfg, f, text[..n]).f, text[n]);
      }
    }
  }

  // ----- Chunk sizes -----

  function Hex(text: bytes): int {
    if text == [] then 0 else 16 * Hex(text[..|text| - 1]) + Unhex(text[|text| - 1])
  }

  /** Hexadecimal digits, none following a number above the limit. */
  predicate IsChunkSize(text: bytes) {
    && |text| > 0
    && forall i {:trigger text[i]} :: 0 <= i < |text| ==> Unhex(text[i]) != -1 && Hex(text[..i]) <= (NO_LENGTH - 16) / 16
  }

  lemma IsChunkSizeInit(text: bytes)
    requires |text| > 1
    ensures var n := |text| - 1;
      IsChunkSize(text) <==> IsChunkSize(text[..n]) && Unhex(text[n]) != -1 && Hex(text[..n]) <= (NO_LENGTH - 16) / 16
  {
    var n := |text| - 1;
    forall i | 0 <= i < n ensures text[..n][..i] == text[..i] && text[..n][i] == text[i] {
    }
  }

  predicate SizeIs(r: Outcome, f: Fields, text: bytes) {
    && r.stop.More? && r.out == []
    && 0 <= Hex(text) < NO_LENGTH
    && r.f == f.(state := ChunkSize, length := Hex(text))
  }

  lemma FirstHexDigit(cfg: Config, f: Fields, ch: byte)
    requires f.state.ChunkSizeStart?
    ensures IsChunkSize([ch]) ==> SizeIs(Feed(cfg, f, [ch]), f, [ch])
    ensures !IsChunkSize([ch]) ==> Feed(cfg, f, [ch]).stop.Wrong?
  {
    assert [ch][..0] == [];
    assert Hex([]) == 0;
    assert Feed(cfg, f, []) == Outcome(f, [], 0, More);
    assert [ch][0] == ch;
    assert IsChunkSize([ch]) <==> Unhex(ch) != -1;
  }

  lemma NextHexDigit(cfg: Config, f: Fields, ch: byte)
    requires f.state.ChunkSize? && ch !in [CR, SEMICOLON, SP]
    ensures var m := Exec(cfg, f, ch);
      && (m.Next? || m.Fail?)
      && (m.Next? <==> Unhex(ch) != -1 && f.length <= (NO_LENGTH - 16) / 16)
      && (m.Next? ==> m.out == [] && m.f == f.(length := 16 * f.length + Unhex(ch)) && m.f.length < NO_LENGTH)
  {
    if ChunkDigit(f, ch).Go? {
      ChunkDigitExact(f, ch);
    }
  }

  /** A chunk size is accepted if and only if it is hexadecimal digits, none following a number above the limit; then it is their number. */
  lemma {:induction false} ChunkSizeIsExact(cfg: Config, f: Fields, text: bytes)
    requires f.state.ChunkSizeStart? && text != [] && CR !in text && SEMICOLON !in text && SP !in text
    ensures IsChunkSize(text) ==> SizeIs(Feed(cfg, f, text), f, text)
    ensures !IsChunkSize(text) ==> Feed(cfg, f, text).stop.Wrong?
  {
    var n := |text| - 1;
    assert text == text[..n] + [text[n]];
    if n == 0 {
      assert text[..0] == [];
      FirstHexDigit(cfg, f, text[0]);
    } else {
      ChunkSizeIsExact(cfg, f, text[..n]);
      IsChunkSizeInit(text);
      if IsChunkSize(text[..n]) {
        FeedSnoc(cfg, f, text[..n], text[n]);
        NextHexDigit(cfg, Feed(cfg, f, text[..n]).f, text[n]);
      }
    }
  }

  // ----- Bodies -----

  lemma TokensSnoc(kind: Kind, data: bytes, ch: byte)
    ensures Tokens(kind, data + [ch]) == Tokens(kind, data) + [Byte(kind, ch)]
  {
  }

  lemma BodyByte(cfg: Config, f: Fields, ch: byte)
    requires f.state.BodyIdentity? && f.length > 1
    ensures Exec(cfg, f, ch) == Next(f.(length := f.length - 1), [Byte(Body, ch)])
  {
  }

  /** Feeding one byte more, where the machine takes it and goes on. */
  lemma FeedOneMore(cfg: Config, f: Fields, data: bytes, g: Fields, kind: Kind, g': Fields)
    requires data != [] && Feed(cfg, f, data[..|data| - 1]) == Outcome(g, Tokens(kind, data[..|data| - 1]), |data| - 1, More)
    requires Exec(cfg, g, data[|data| - 1]) == Next(g', [Byte(kind, data[|data| - 1])])
    ensures Feed(cfg, f, data) == Outcome(g', Tokens(kind, data), |data|, More)
  {
    hide Exec;
    var n := |data| - 1;
    assert data == data[..n] + [data[n]];
    TokensSnoc(kind, data[..n], data[n]);
  }

  /** Less than the announced bytes: all of them are body, and the rest is still to come. */
  lemma {:induction false} BodyPart(cfg: Config, f: Fields, data: bytes)
    requires f.state.BodyIdentity? && |data| < f.length
    ensures Feed(cfg, f, data) == Outcome(f.(length := f.length - |data|), Tokens(Body, data), |data|, More)
  {
    hide Exec;
    if data != [] {
      var n := |data| - 1;
      var g := f.(length := f.length - n);
      BodyPart(cfg, f, data[..n]);
      BodyByte(cfg, g, data[n]);
      FeedOneMore(cfg, f, data, g, Body, f.(length := f.length - |data|));
    }
  }

  /** The parser once it has read some bytes of the data of a chunk. */
  function ChunkAfter(f: Fields, k: nat): Fields
    requires k <= f.length
  {
    f.(length := f.length - k, state := if k == f.length then ChunkDataAlmostDone else ChunkData)
  }

  /** The parser once it has read a whole body. */
  function BodyAfter(f: Fields): Fields {
    f.(length := 0, state := NewMessage(f))
  }

  /** How a message ends. */
  function Ending(f: Fields): Stop {
    if f.upgrade then Upgraded else More
  }

  lemma LastBodyByte(cfg: Config, f: Fields, ch: byte)
    requires f.state.BodyIdentity? && f.length == 1
    ensures var g, out := f.(length := 0, state := NewMessage(f)), [Byte(Body, ch), Notify(MessageComplete)];
      Exec(cfg, f, ch) == if f.upgrade then Switch(g, out) else Next(g, out)
  {
    assert [Byte(Body, ch)] + [Notify(MessageComplete)] == [Byte(Body, ch), Notify(MessageComplete)];
    var m := One(cfg, f, ch);
    assert m.Again? && m.f == f.(length := 0, state := MessageDone) && NewMessage(m.f) == NewMessage(f);
    assert !One(cfg, m.f, ch).Again?;
  }

  /** Exactly the announced bytes are delivered as the body, and then the message is complete. */
  lemma BodyWhole(cfg: Config, f: Fields, data: bytes)
    requires f.state.BodyIdentity? && |data| == f.length && data != []
    ensures Feed(cfg, f, data)
         == Outcome(BodyAfter(f), Tokens(Body, data) + [Notify(MessageComplete)], |data|, Ending(f))
  {
    hide Feed, Exec;
    var n := |data| - 1;
    BodyPart(cfg, f, data[..n]);
    assert data == data[..n] + [data[n]];
    FeedSnoc(cfg, f, data[..n], data[n]);
    LastBodyByte(cfg, f.(length := 1), data[n]);
    TokensSnoc(Body, data[..n], data[n]);
  }

  lemma ChunkByte(cfg: Config, f: Fields, k: nat, ch: byte)
    requires f.state.ChunkData? && k < f.length
    ensures Exec(cfg, ChunkAfter(f, k), ch) == Next(ChunkAfter(f, k + 1), [Byte(Body, ch)])
  {
  }

  /** The data of a chunk, up to all of it. */
  lemma {:induction false} ChunkPart(cfg: Config, f: Fields, data: bytes)
    requires f.state.ChunkData? && |data| <= f.length && f.length > 0
    ensures Feed(cfg, f, data)
         == Outcome(ChunkAfter(f, |data|), Tokens(Body, data), |data|, More)
  {
    hide Exec;
    if data != [] {
      var n := |data| - 1;
      ChunkPart(cfg, f, data[..n]);
      ChunkByte(cfg, f, n, data[n]);
      FeedOneMore(cfg, f, data, ChunkAfter(f, n), Body, ChunkAfter(f, |data|));
    }
  }

  // ----- Chunks -----

  const CRLF: bytes := [CR, LF]

  /** What may stand behind a chunk size: nothing, or anything without CR that a semicolon or a space begins. */
  predicate IsExtension(text: bytes) {
    text == [] || ((text[0] == SEMICOLON || text[0] == SP) && CR !in text)
  }

  function SizeLine(size: bytes, extension: bytes): bytes {
    size + extension + CRLF
  }

  /** A chunk as it is sent: its size in hexadecimal, what is said about it, and its data. */
  datatype Chunk = Chunk(size: bytes, extension: bytes, data: bytes)

  predicate ChunkOk(c: Chunk) {
    IsChunkSize(c.size) && Hex(c.size) == |c.data| && |c.data| > 0 && IsExtension(c.extension)
  }

  function Wire(c: Chunk): bytes {
    SizeLine(c.size, c.extension) + c.data + CRLF
  }

  lemma ParameterByte(cfg: Config, f: Fields, ch: byte)
    requires f.state.ChunkParameters? && ch != CR
    ensures Exec(cfg, f, ch) == Next(f, [])
  {
  }

  lemma {:induction false} ParametersSkipped(cfg: Config, f: Fields, text: bytes)
    requires f.state.ChunkParameters? && CR !in text
    ensures Feed(cfg, f, text) == Outcome(f, [], |text|, More)
  {
    hide Exec;
    if text != [] {
      var n := |text| - 1;
      ParametersSkipped(cfg, f, text[..n]);
      assert text[n] in text;
      ParameterByte(cfg, f, text[n]);
    }
  }

  /** An extension is read and forgotten. */
  lemma ExtensionSkipped(cfg: Config, f: Fields, text: bytes)
    requires f.state.ChunkSize? && IsExtension(text)
    ensures Feed(cfg, f, text) == Outcome(f.(state := if text == [] then ChunkSize else ChunkParameters), [], |text|, More)
  {
    if text != [] {
      FeedTwo(cfg, f, text[0], text[0]);
      assert Exec(cfg, f, text[0]) == Next(f.(state := ChunkParameters), []);
      ParametersSkipped(cfg, f.(state := ChunkParameters), text[1..]);
      FeedAppend(cfg, f, [text[0]], text[1..]);
      assert text == [text[0]] + text[1..];
    }
  }

  /** The parser behind the size line of a chunk of `n` bytes: in its data, or in the trailer if there are none. */
  function SizeRead(f: Fields, n: nat): Fields {
    if n == 0 then f.(length := 0, flags := f.flags.(trailing := true), state := HeaderFieldStart)
    else f.(length := n, state := ChunkData)
  }

  /** The end of a size line: the chunk header is announced. */
  lemma SizeLineEnds(cfg: Config, f: Fields)
    requires f.state.ChunkSize? || f.state.ChunkParameters?
    ensures Feed(cfg, f, CRLF) == Outcome(SizeRead(f, f.length), [Notify(ChunkHeader(f.length))], 2, More)
  {
    FeedTwo(cfg, f, CR, LF);
  }

  lemma {:induction false} SizeIsPlain(size: bytes)
    requires IsChunkSize(size)
    ensures CR !in size && SEMICOLON !in size && SP !in size
  {
    assert forall i :: 0 <= i < |size| ==> Unhex(size[i]) != -1;
  }

  lemma SizeLineRead(cfg: Config, f: Fields, size: bytes, extension: bytes)
    requires f.state.ChunkSizeStart? && IsChunkSize(size) && IsExtension(extension)
    ensures Hex(size) >= 0
    ensures Feed(cfg, f, SizeLine(size, extension))
         == Outcome(SizeRead(f, Hex(size)), [Notify(ChunkHeader(Hex(size)))], |SizeLine(size, extension)|, More)
  {
    hide Exec, Feed, Hex, IsChunkSize;
    SizeIsPlain(size);
    assert size != [] by {
      SizeIsSome(size);
    }
    ChunkSizeIsExact(cfg, f, size);
    var g := f.(state := ChunkSize, length := Hex(size));
    ExtensionSkipped(cfg, g, extension);
    FeedAppend(cfg, f, size, extension);
    FeedAppend(cfg, f, size + extension, CRLF);
    SizeLineEnds(cfg, g.(state := if extension == [] then ChunkSize else ChunkParameters));
  }

  lemma SizeIsSome(size: bytes)
    requires IsChunkSize(size)
    ensures size != []
  {
  }

  lemma FeedTwo(cfg: Config, f: Fields, a: byte, b: byte)
    ensures Feed(cfg, f, []) == Outcome(f, [], 0, More)
    ensures Feed(cfg, f, [a]) == After(Outcome(f, [], 0, More), Exec(cfg, f, a))
    ensures Feed(cfg, f, [a]).stop.More? ==> Feed(cfg, f, [a, b]) == After(Feed(cfg, f, [a]), Exec(cfg, Feed(cfg, f, [a]).f, b))
  {
    assert [a][..0] == [] && [a, b][..1] == [a];
  }

  lemma ChunkEnds(cfg: Config, f: Fields)
    requires f.state.ChunkDataAlmostDone?
    ensures Feed(cfg, f, CRLF) == Outcome(f.(state := ChunkSizeStart), [Notify(ChunkComplete)], 2, More)
  {
    FeedTwo(cfg, f, CR, LF);
  }

  /** What the callbacks are told of a chunk. */
  function Told(c: Chunk): seq<Token> {
    [Notify(ChunkHeader(|c.data|))] + Tokens(Body, c.data) + [Notify(ChunkComplete)]
  }

  /** A chunk is delivered whole, between its two notifications, and the next one awaited. */
  lemma ChunkDelivered(cfg: Config, f: Fields, c: Chunk)
    requires f.state.ChunkSizeStart? && ChunkOk(c)
    ensures Feed(cfg, f, Wire(c)) == Outcome(f.(length := 0), Told(c), |Wire(c)|, More)
  {
    hide Exec, Feed;
    var line, g := SizeLine(c.size, c.extension), f.(length := |c.data|, state := ChunkData);
    SizeLineRead(cfg, f, c.size, c.extension);
    FeedAppend(cfg, f, line, c.data);
    ChunkPart(cfg, g, c.data);
    FeedAppend(cfg, f, line + c.data, CRLF);
    ChunkEnds(cfg, g.(length := 0, state := ChunkDataAlmostDone));
  }

  function Wires(chunks: seq<Chunk>): bytes {
    if chunks == [] then [] else Wires(chunks[..|chunks| - 1]) + Wire(chunks[|chunks| - 1])
  }

  function AllTold(chunks: seq<Chunk>): seq<Token> {
    if chunks == [] then [] else AllTold(chunks[..|chunks| - 1]) + Told(chunks[|chunks| - 1])
  }

  lemma {:induction false} ChunksDelivered(cfg: Config, f: Fields, chunks: seq<Chunk>)
    requires f.state.ChunkSizeStart? && forall i :: 0 <= i < |chunks| ==> ChunkOk(chunks[i])
    ensures var r := Feed(cfg, f, Wires(chunks));
      r == Outcome(f.(length := if chunks == [] then f.length else 0), AllTold(chunks), |Wires(chunks)|, More)
  {
    if chunks != [] {
      var n := |chunks| - 1;
      ChunksDelivered(cfg, f, chunks[..n]);
      var r := Feed(cfg, f, Wires(chunks[..n]));
      FeedAppend(cfg, f, Wires(chunks[..n]), Wire(chunks[n]));
      ChunkDelivered(cfg, r.f, chunks[n]);
    }
  }

  /** The body bytes among what the callbacks are told. */
  function BodyOf(out: seq<Token>): bytes {
    if out == [] then []
    else
      var t := out[|out| - 1];
      BodyOf(out[..|out| - 1]) + if t.Byte? && t.kind.Body? then [t.b] else []
  }

  lemma {:induction false} BodyOfAppend(a: seq<Token>, b: seq<Token>)
    ensures BodyOf(a + b) == BodyOf(a) + BodyOf(b)
  {
    if b == [] {
      assert a + b == a;
    } else {
      assert (a + b)[..|a + b| - 1] == a + b[..|b| - 1];
      BodyOfAppend(a, b[..|b| - 1]);
    }
  }

  lemma {:induction false} BodyOfTokens(data: bytes)
    ensures BodyOf(Tokens(Body, data)) == data
  {
    if data != [] {
      var n := |data| - 1;
      assert Tokens(Body, data)[..n] == Tokens(Body, data[..n]);
      BodyOfTokens(data[..n]);
    }
  }

  lemma BodyOfTold(c: Chunk)
    ensures BodyOf(Told(c)) == c.data
  {
    BodyOfAppend([Notify(ChunkHeader(|c.data|))], Tokens(Body, c.data));
    BodyOfAppend([Notify(ChunkHeader(|c.data|))] + Tokens(Body, c.data), [Notify(ChunkComplete)]);
    BodyOfTokens(c.data);
    BodyOfNotice(ChunkHeader(|c.data|));
    BodyOfNotice(ChunkComplete);
  }

  lemma BodyOfNotice(n: Notice)
    ensures BodyOf([Notify(n)]) == []
  {
    assert [Notify(n)][..0] == [];
  }

  /** The data of the chunks, joined. */
  function Joined(chunks: seq<Chunk>): bytes {
    if chunks == [] then [] else Joined(chunks[..|chunks| - 1]) + chunks[|chunks| - 1].data
  }

  lemma {:induction false} BodyOfChunks(chunks: seq<Chunk>)
    ensures BodyOf(AllTold(chunks)) == Joined(chunks)
  {
    if chunks != [] {
      var n := |chunks| - 1;
      BodyOfChunks(chunks[..n]);
      BodyOfTold(chunks[n]);
      BodyOfAppend(AllTold(chunks[..n]), Told(chunks[n]));
    }
  }
}
