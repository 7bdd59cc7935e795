/** Whole messages: the bytes of the headers, and the body they announce. */
module HttpMessage {
  import opened Bytes
  import opened HttpMachine
  import opened HttpFraming
  import opened HttpBody

  // ----- What headers leave alone -----

  /** The states between two bytes of the headers, or of a trailer. */
  predicate InHeaders(s: State) {
    || s.HeaderFieldStart? || s.HeaderField? || s.ValueDiscardWs? || s.ValueDiscardWsAlmostDone? || s.ValueDiscardLws?
    || s.ValueStart? || s.HeaderValue? || s.ValueLws? || s.HeaderAlmostDone? || s.HeadersAlmostDone?
  }

  /** A content length has been read, and its digits have ended. */
  predicate LengthKnown(f: Fields) {
    f.flags.contentLength && !(f.state.HeaderValue? && f.header.ContentLength?)
  }

  /** What the bytes of headers cannot change. */
  predicate KeptBy(f: Fields, g: Fields) {
    && g.connect == f.connect && g.upgrade == f.upgrade && g.flags.trailing == f.flags.trailing
    && (f.flags.chunked ==> g.flags.chunked)
    && (LengthKnown(f) ==> LengthKnown(g) && g.length == f.length)
  }

  /** Neither a byte of a body nor the end of a message. */
  predicate Quiet(out: seq<Token>) {
    forall i :: 0 <= i < |out| ==> !(out[i].Byte? && out[i].kind.Body?) && out[i] != Notify(MessageComplete)
  }

  lemma QuietAppend(a: seq<Token>, b: seq<Token>)
    requires Quiet(a) && Quiet(b)
    ensures Quiet(a + b)
  {
  }

  /** The state stays within the headers, and nothing but header data is told. */
  predicate Stays(f: Fields, m: Micro) {
    (m.Go? || m.Again?) && InHeaders(m.f.state) && KeptBy(f, m.f) && Quiet(Said(m.emit)) && (m.Again? ==> m.emit.Silent?)
  }

  lemma MatchedStays(f: Fields, name: Name, c: byte, full: HeaderState, other: HeaderState, emit: Emit)
    requires InHeaders(f.state) && !full.ContentLength? && !other.ContentLength? && Quiet(Said(emit))
    ensures Stays(f, Go(Matched(f, name, c, full, other), emit))
  {
    MatchedKeeps(f, name, c, full, other);
  }

  lemma NameStays(f: Fields, ch: byte)
    requires f.state.HeaderField?
    ensures InName(f, ch).Bad? || Stays(f, InName(f, ch))
  {
    hide Matched;
    var c := TokenOf(ch);
    MatchedKeeps(f, NameConnection, c, Connection, General);
    MatchedKeeps(f, NameProxyConnection, c, Connection, General);
    MatchedKeeps(f, NameContentLength, c, ContentLength, General);
    MatchedKeeps(f, NameTransferEncoding, c, TransferEncoding, General);
    MatchedKeeps(f, NameUpgrade, c, Upgrade, General);
  }

  lemma QuietValue(ch: byte)
    ensures Quiet([Byte(Value, ch)])
  {
  }

  lemma NoLengthWord(c: byte)
    ensures !ConnectionWord(c).ContentLength?
  {
  }

  /** A first character that leaves flags and length alone. */
  lemma FirstStays(f: Fields, header: HeaderState, ch: byte)
    requires (f.state.ValueDiscardWs? || f.state.ValueStart?) && !header.ContentLength?
    ensures Stays(f, Go(f.(state := HeaderValue, index := 0, header := header), Tell(Byte(Value, ch))))
  {
    QuietValue(ch);
  }

  /** A second content length is refused where its digits would begin. */
  lemma ValueFirstStays(f: Fields, ch: byte)
    requires f.state.ValueDiscardWs? || f.state.ValueStart?
    ensures ValueFirst(f, ch).Bad? || Stays(f, ValueFirst(f, ch))
  {
    hide Lower, ConnectionWord, Quiet;
    QuietValue(ch);
    NoLengthWord(Lower(ch));
    var c := Lower(ch);
    if f.header.TransferEncoding? {
      FirstStays(f, if c == 99 then MatchingChunked else General, ch);
    } else if f.header.Connection? {
      FirstStays(f, ConnectionWord(c), ch);
    } else if f.header.TokenStart? {
      FirstStays(f, TokenStart, ch);
    } else if !f.header.Upgrade? && !f.header.ContentLength? {
      FirstStays(f, General, ch);
    }
  }

  lemma ValueNextStays(f: Fields, ch: byte)
    requires f.state.HeaderValue?
    ensures ValueNext(f, ch).Bad? || Stays(f, ValueNext(f, ch))
  {
    hide Matched;
    var c, emit := Lower(ch), Tell(Byte(Value, ch));
    match f.header
    case MatchingChunked => MatchedStays(f, NameChunked, c, Chunked, General, emit);
    case MatchingKeepAlive => MatchedStays(f, NameKeepAlive, c, KeepAlive, ConnectionToken, emit);
    case MatchingClose => MatchedStays(f, NameClose, c, Close, ConnectionToken, emit);
    case MatchingConnectionUpgrade => MatchedStays(f, NameUpgrade, c, ConnectionUpgrade, ConnectionToken, emit);
    case _ =>
  }

  lemma OneStays(cfg: Config, f: Fields, ch: byte)
    requires InHeaders(f.state) && !f.state.HeadersAlmostDone?
    ensures One(cfg, f, ch).Bad? || Stays(f, One(cfg, f, ch))
  {
    hide ValueFirst, ValueNext, InName;
    match f.state
    case HeaderField => NameStays(f, ch);
    case ValueDiscardWs => ValueFirstStays(f, ch);
    case ValueStart => ValueFirstStays(f, ch);
    case HeaderValue => ValueNextStays(f, ch);
    case _ =>
  }

  /** The parser once the line feed that ends the headers is all that is left to see. */
  function AtEnd(f: Fields): Fields {
    (if f.state.ValueLws? || f.state.ValueDiscardLws? then HeaderFlags(f) else f).(state := HeadersAlmostDone)
  }

  lemma AgainToEnd(cfg: Config, f: Fields)
    requires InHeaders(f.state) && !f.state.HeadersAlmostDone? && One(cfg, f, LF).Again?
    ensures AtEnd(One(cfg, f, LF).f) == AtEnd(f)
  {
  }

  lemma PrependedNothing(m: Effect)
    ensures Prepended([], m) == m
  {
    if !m.Fail? {
      assert [] + m.out == m.out;
    }
  }

  /** A byte of the headers is refused, or leaves the parser within them, or is the line feed that ends them. */
  lemma {:induction false} HeaderByte(cfg: Config, f: Fields, ch: byte)
    requires InHeaders(f.state)
    ensures var m := Exec(cfg, f, ch);
      || m.Fail?
      || (m.Next? && InHeaders(m.f.state) && KeptBy(f, m.f) && Quiet(m.out))
      || (ch == LF && m == Exec(cfg, AtEnd(f), LF) && KeptBy(f, AtEnd(f)))
    decreases Rank(f.state)
  {
    hide One, Stays;
    if f.state.HeadersAlmostDone? {
      EndNeedsLf(cfg, f, ch);
    } else {
      var m := One(cfg, f, ch);
      OneStays(cfg, f, ch);
      if m.Again? {
        StaysIs(f, m);
        AgainLowersRank(cfg, f, ch);
        HeaderByte(cfg, m.f, ch);
        PrependedNothing(Exec(cfg, m.f, ch));
        if ch == LF {
          AgainToEnd(cfg, f);
        }
      } else if m.Go? {
        StaysIs(f, m);
      } else {
        NoQuit(f, m);
      }
    }
  }

  lemma StaysIs(f: Fields, m: Micro)
    requires Stays(f, m)
    ensures (m.Go? || m.Again?) && InHeaders(m.f.state) && KeptBy(f, m.f) && Quiet(Said(m.emit)) && (m.Again? ==> Said(m.emit) == [])
  {
  }

  lemma NoQuit(f: Fields, m: Micro)
    requires m.Bad? || Stays(f, m)
    ensures !m.Quit?
  {
  }

  lemma EndNeedsLf(cfg: Config, f: Fields, ch: byte)
    requires f.state.HeadersAlmostDone?
    ensures ch != LF ==> Exec(cfg, f, ch).Fail?
    ensures AtEnd(f) == f
  {
  }

  // ----- Where headers end -----

  /** All the bytes are taken, and after each of them the parser is within the headers. */
  ghost predicate Within(cfg: Config, f: Fields, data: bytes) {
    if data == [] then InHeaders(f.state)
    else
      Within(cfg, f, data[..|data| - 1]) && Feed(cfg, f, data).stop.More? && InHeaders(Feed(cfg, f, data).f.state)
  }

  /** The bytes are taken, and the last of them is the one that ends the headers. */
  ghost predicate EndsHeaders(cfg: Config, f: Fields, data: bytes) {
    data != [] && Within(cfg, f, data[..|data| - 1]) && !Feed(cfg, f, data).stop.Wrong? && !Within(cfg, f, data)
  }

  lemma EndIsSome(cfg: Config, f: Fields, data: bytes)
    requires EndsHeaders(cfg, f, data)
    ensures data != []
  {
  }

  /** Whatever the bytes: they are refused, or are all within the headers, or some of them end the headers. */
  lemma {:induction false} HeadersCases(cfg: Config, f: Fields, data: bytes)
    requires InHeaders(f.state)
    ensures Within(cfg, f, data) || Feed(cfg, f, data).stop.Wrong? || exists k: nat :: k <= |data| && EndsHeaders(cfg, f, data[..k])
  {
    hide Exec, InHeaders;
    if data != [] {
      var n := |data| - 1;
      HeadersCases(cfg, f, data[..n]);
      if exists k: nat :: k <= n && EndsHeaders(cfg, f, data[..n][..k]) {
        var k: nat :| k <= n && EndsHeaders(cfg, f, data[..n][..k]);
        assert data[..n][..k] == data[..k];
      } else if Within(cfg, f, data[..n]) && !Within(cfg, f, data) && !Feed(cfg, f, data).stop.Wrong? {
        assert data[..|data|] == data;
        assert EndsHeaders(cfg, f, data[..|data|]);
      }
    }
  }

  lemma KeptTwice(f: Fields, g: Fields, h: Fields)
    requires KeptBy(f, g) && KeptBy(g, h)
    ensures KeptBy(f, h)
  {
  }

  lemma {:induction false} WithinKeeps(cfg: Config, f: Fields, data: bytes)
    requires Within(cfg, f, data)
    ensures var r := Feed(cfg, f, data);
      r.stop.More? && InHeaders(r.f.state) && KeptBy(f, r.f) && Quiet(r.out)
  {
    hide Exec, KeptBy, InHeaders, AtEnd;
    if data == [] {
      KeptSelf(f);
    } else {
      var n := |data| - 1;
      var r := Feed(cfg, f, data[..n]);
      WithinKeeps(cfg, f, data[..n]);
      HeaderByte(cfg, r.f, data[n]);
      var m := Exec(cfg, r.f, data[n]);
      assert Feed(cfg, f, data) == After(r, m);
      if m.Next? && KeptBy(r.f, m.f) && Quiet(m.out) {
        KeptTwice(f, r.f, m.f);
        QuietAppend(r.out, m.out);
      } else {
        AtEndIs(r.f);
        EndLeaves(cfg, AtEnd(r.f));
      }
    }
  }

  lemma KeptSelf(f: Fields)
    ensures KeptBy(f, f)
  {
  }

  lemma AtEndIs(f: Fields)
    ensures AtEnd(f).state == HeadersAlmostDone
  {
  }

  /** The line feed that ends the headers leaves them. */
  lemma EndLeaves(cfg: Config, f: Fields)
    requires f.state.HeadersAlmostDone?
    ensures Exec(cfg, f, LF).Next? ==> !InHeaders(Exec(cfg, f, LF).f.state)
  {
    EndExec(cfg, f);
  }

  /** Whether an upgrade is asked for. */
  predicate Upgrades(f: Fields) {
    (f.flags.upgrade && f.flags.connectionUpgrade) || f.connect
  }

  /** The end of the headers of a message, or of its trailer. */
  function EndEffect(f: Fields): Effect {
    if f.flags.trailing then
      var g, out := f.(state := NewMessage(f)), [Notify(ChunkComplete)] + [Notify(MessageComplete)];
      if f.upgrade then Switch(g, out) else Next(g, out)
    else if f.flags.chunked && f.flags.contentLength then Fail(UnexpectedContentLength)
    else
      var g := f.(upgrade := Upgrades(f));
      var body := f.flags.chunked || (f.length > 0 && f.length != NO_LENGTH);
      if g.upgrade && (g.connect || !body) then Switch(g.(state := NewMessage(f)), [Notify(HeadersComplete)] + [Notify(MessageComplete)])
      else if f.flags.chunked then Next(g.(state := ChunkSizeStart), [Notify(HeadersComplete)])
      else if body then Next(g.(state := BodyIdentity), [Notify(HeadersComplete)])
      else Next(g.(state := NewMessage(f)), [Notify(HeadersComplete)] + [Notify(MessageComplete)])
  }

  lemma SameNext(f: Fields, g: Fields)
    requires g.major == f.major && g.minor == f.minor && g.flags == f.flags
    ensures NewMessage(g) == NewMessage(f)
  {
  }

  lemma TrailerExec(cfg: Config, f: Fields)
    requires f.state.HeadersAlmostDone? && f.flags.trailing
    ensures Exec(cfg, f, LF) == EndEffect(f)
  {
    hide NewMessage;
    var g := f.(state := MessageDone);
    SameNext(f, g);
    assert One(cfg, f, LF) == Again(g, Tell(Notify(ChunkComplete)));
    assert !One(cfg, g, LF).Again?;
  }

  lemma HeadExec(cfg: Config, f: Fields)
    requires f.state.HeadersAlmostDone? && !f.flags.trailing && !(f.flags.chunked && f.flags.contentLength)
    ensures Exec(cfg, f, LF) == EndEffect(f)
  {
    hide NewMessage;
    var g := f.(state := HeadersDone, upgrade := Upgrades(f));
    SameNext(f, g);
    assert One(cfg, f, LF) == Again(g, Tell(Notify(HeadersComplete)));
    assert !One(cfg, g, LF).Again?;
  }

  lemma EndExec(cfg: Config, f: Fields)
    requires f.state.HeadersAlmostDone?
    ensures Exec(cfg, f, LF) == EndEffect(f)
  {
    if f.flags.trailing {
      TrailerExec(cfg, f);
    } else if !(f.flags.chunked && f.flags.contentLength) {
      HeadExec(cfg, f);
    }
  }

  /** Where headers have ended, what they told is quiet, and only the end itself decides what follows. */
  lemma HeadersEnded(cfg: Config, f: Fields, data: bytes)
    requires EndsHeaders(cfg, f, data)
    ensures var r := Feed(cfg, f, data[..|data| - 1]);
      && r.stop.More? && r.read == |data| - 1 && Quiet(r.out) && KeptBy(f, AtEnd(r.f))
      && Feed(cfg, f, data) == After(r, EndEffect(AtEnd(r.f))) && !EndEffect(AtEnd(r.f)).Fail?
  {
    hide Exec, KeptBy, AtEnd, EndEffect, InHeaders;
    var n := |data| - 1;
    var r := Feed(cfg, f, data[..n]);
    WithinKeeps(cfg, f, data[..n]);
    HeaderByte(cfg, r.f, data[n]);
    assert Feed(cfg, f, data) == After(r, Exec(cfg, r.f, data[n]));
    AtEndIs(r.f);
    EndExec(cfg, AtEnd(r.f));
    KeptTwice(f, r.f, AtEnd(r.f));
  }

  // ----- A body of a length announced -----

  lemma {:induction false} LengthIsPlain(text: bytes)
    requires IsLength(text)
    ensures text != [] && text[0] != SP && text[0] != HT && CR !in text && LF !in text
  {
    assert forall i :: 0 <= i < |text| ==> text[i] == SP || IsNum(text[i]);
  }

  /** The end of the digits: the length is known. */
  lemma DigitsEnd(cfg: Config, f: Fields, eol: byte)
    requires f.state.HeaderValue? && f.header.ContentLength? && f.flags.contentLength && (eol == CR || eol == LF)
    ensures Exec(cfg, f, eol) == Next(f.(state := if eol == CR then HeaderAlmostDone else ValueLws), [])
  {
    if eol == LF {
      assert One(cfg, f, LF) == Again(f.(state := HeaderAlmostDone), Silent);
      assert One(cfg, f.(state := HeaderAlmostDone), LF).Go?;
    }
  }

  /** The parser behind the line of a content length. */
  function LengthRead(f: Fields, n: nat, eol: byte): Fields {
    f.(state := if eol == CR then HeaderAlmostDone else ValueLws, index := 0, flags := f.flags.(contentLength := true), length := n)
  }

  lemma LengthLine(cfg: Config, f: Fields, text: bytes, eol: byte)
    requires f.state.ValueDiscardWs? && f.header.ContentLength? && !f.flags.contentLength && IsLength(text) && (eol == CR || eol == LF)
    ensures 0 <= Decimal(text) < NO_LENGTH
    ensures var r := Feed(cfg, f, text + [eol]);
      r.stop.More? && r.f == LengthRead(f, Decimal(text), eol) && r.read == |text| + 1
  {
    hide Exec, Decimal, IsLength;
    LengthIsPlain(text);
    ContentLengthIsExact(cfg, f, text);
    FeedSnoc(cfg, f, text, eol);
    DigitsEnd(cfg, Feed(cfg, f, text).f, eol);
  }

  /** With a length known, the headers end in front of a body of that length, or of none. */
  lemma LengthEnds(f: Fields, g: Fields)
    requires KeptBy(f, g) && LengthKnown(f) && !f.flags.trailing && !f.connect && f.length != NO_LENGTH && !EndEffect(g).Fail?
    ensures var m, h := EndEffect(g), g.(upgrade := Upgrades(g));
      && h.length == f.length
      && (f.length > 0 ==> m == Next(h.(state := BodyIdentity), [Notify(HeadersComplete)]))
      && (f.length == 0 ==> (m.Next? || m.Switch?) && m.out == [Notify(HeadersComplete)] + [Notify(MessageComplete)])
  {
  }

  /** The headers `told`, then the body, then the end of the message, and every byte taken. */
  ghost predicate Delivers(r: Outcome, told: seq<Token>, body: bytes, size: nat) {
    && !r.stop.Wrong? && r.read == size && Quiet(told)
    && r.out == told + [Notify(HeadersComplete)] + Tokens(Body, body) + [Notify(MessageComplete)]
  }

  lemma NoBody(told: seq<Token>)
    ensures told + ([Notify(HeadersComplete)] + [Notify(MessageComplete)])
         == told + [Notify(HeadersComplete)] + Tokens(Body, []) + [Notify(MessageComplete)]
  {
  }

  lemma SomeBody(told: seq<Token>, body: bytes)
    ensures told + [Notify(HeadersComplete)] + (Tokens(Body, body) + [Notify(MessageComplete)])
         == told + [Notify(HeadersComplete)] + Tokens(Body, body) + [Notify(MessageComplete)]
  {
  }

  /** Once the length is known, whatever the headers that follow, it is the length of the body that follows them. */
  lemma LengthDecides(cfg: Config, f: Fields, headers: bytes, body: bytes)
    requires LengthKnown(f) && !f.flags.trailing && !f.connect && f.length != NO_LENGTH
    requires EndsHeaders(cfg, f, headers) && |body| == f.length
    ensures Delivers(Feed(cfg, f, headers + body), Feed(cfg, f, headers[..|headers| - 1]).out, body, |headers| + |body|)
  {
    hide Feed, EndEffect, AtEnd, KeptBy, EndsHeaders, LengthKnown, Quiet;
    HeadersEnded(cfg, f, headers);
    var r := Feed(cfg, f, headers[..|headers| - 1]);
    var g := AtEnd(r.f);
    LengthEnds(f, g);
    if body == [] {
      assert headers + body == headers;
      NoBody(r.out);
    } else {
      FeedAppend(cfg, f, headers, body);
      BodyWhole(cfg, Feed(cfg, f, headers).f, body);
      SomeBody(r.out, body);
    }
  }

  lemma {:induction false} LengthWithin(cfg: Config, f: Fields, text: bytes)
    requires f.state.ValueDiscardWs? && f.header.ContentLength? && !f.flags.contentLength && IsLength(text)
    ensures Within(cfg, f, text)
  {
    hide Feed, Decimal, IsLength;
    LengthIsPlain(text);
    ContentLengthIsExact(cfg, f, text);
    var n := |text| - 1;
    if n == 0 {
      assert text[..0] == [];
    } else {
      IsLengthInit(text);
      LengthWithin(cfg, f, text[..n]);
    }
  }

  lemma LineIsQuiet(cfg: Config, f: Fields, text: bytes, eol: byte)
    requires f.state.ValueDiscardWs? && f.header.ContentLength? && !f.flags.contentLength && IsLength(text) && (eol == CR || eol == LF)
    ensures Quiet(Feed(cfg, f, text + [eol]).out)
  {
    hide Feed, Decimal, IsLength;
    LengthWithin(cfg, f, text);
    LengthLine(cfg, f, text, eol);
    assert (text + [eol])[..|text|] == text;
    assert Within(cfg, f, text + [eol]);
    WithinKeeps(cfg, f, text + [eol]);
  }

  lemma {:induction false} QuietHasNoBody(out: seq<Token>)
    requires Quiet(out)
    ensures BodyOf(out) == []
  {
    if out != [] {
      QuietHasNoBody(out[..|out| - 1]);
    }
  }

  /** What is delivered is the body and nothing else. */
  lemma DeliversBody(r: Outcome, told: seq<Token>, body: bytes, size: nat)
    requires Delivers(r, told, body, size)
    ensures BodyOf(r.out) == body
  {
    hide BodyOf, Tokens, Quiet;
    QuietHasNoBody(told);
    BodyOfNotice(HeadersComplete);
    BodyOfNotice(MessageComplete);
    BodyOfTokens(body);
    BodyOfAppend(told, [Notify(HeadersComplete)]);
    BodyOfAppend(told + [Notify(HeadersComplete)], Tokens(Body, body));
    BodyOfAppend(told + [Notify(HeadersComplete)] + Tokens(Body, body), [Notify(MessageComplete)]);
  }

  lemma DeliversBehind(r0: Outcome, r: Outcome, told: seq<Token>, body: bytes, size: nat)
    requires Delivers(r, told, body, size) && Quiet(r0.out)
    ensures Delivers(Then(r0, r), r0.out + told, body, r0.read + size)
  {
    QuietAppend(r0.out, told);
    assert r0.out + r.out == r0.out + told + [Notify(HeadersComplete)] + Tokens(Body, body) + [Notify(MessageComplete)];
  }

  /**
    A message with a content length that is accepted, outside a trailer and not a CONNECT: whatever headers follow
    the length, exactly as many bytes behind them as it says are delivered as the body, and then the message is complete.
    */
  lemma ContentLengthBody(cfg: Config, f: Fields, text: bytes, eol: byte, headers: bytes, body: bytes)
    requires f.state.ValueDiscardWs? && f.header.ContentLength? && !f.flags.contentLength && !f.flags.trailing && !f.connect
    requires IsLength(text) && (eol == CR || eol == LF)
    requires EndsHeaders(cfg, Feed(cfg, f, text + [eol]).f, headers) && |body| == Decimal(text)
    ensures var r0 := Feed(cfg, f, text + [eol]);
      var r := Feed(cfg, f, text + [eol] + (headers + body));
      && Delivers(r, r0.out + Feed(cfg, r0.f, headers[..|headers| - 1]).out, body, |text| + 1 + |headers| + |body|)
      && BodyOf(r.out) == body
  {
    hide Feed, Delivers, EndsHeaders, Decimal, IsLength, BodyOf;
    LengthLine(cfg, f, text, eol);
    LineIsQuiet(cfg, f, text, eol);
    var r0 := Feed(cfg, f, text + [eol]);
    EndIsSome(cfg, r0.f, headers);
    LengthDecides(cfg, r0.f, headers, body);
    FeedAppend(cfg, f, text + [eol], headers + body);
    var told := Feed(cfg, r0.f, headers[..|headers| - 1]).out;
    DeliversBehind(r0, Feed(cfg, r0.f, headers + body), told, body, |headers| + |body|);
    DeliversBody(Feed(cfg, f, text + [eol] + (headers + body)), r0.out + told, body, |text| + 1 + |headers| + |body|);
  }

  /** A CONNECT has no body whatever its headers announce: the parser gives the connection up where the headers end. */
  lemma ConnectHasNoBody(cfg: Config, f: Fields, headers: bytes, rest: bytes)
    requires f.connect && !f.flags.trailing && EndsHeaders(cfg, f, headers)
    ensures var r, told := Feed(cfg, f, headers + rest), Feed(cfg, f, headers[..|headers| - 1]).out;
      && r.stop.Upgraded? && r.read == |headers| && Quiet(told)
      && r.out == told + ([Notify(HeadersComplete)] + [Notify(MessageComplete)])
  {
    hide Feed, AtEnd, EndsHeaders, Quiet;
    EndIsSome(cfg, f, headers);
    HeadersEnded(cfg, f, headers);
    FeedStops(cfg, f, headers, rest);
  }

  // ----- A chunked body -----

  /** What is told of the chunks and of the last, empty one. */
  function ChunksTold(chunks: seq<Chunk>): seq<Token> {
    AllTold(chunks) + [Notify(ChunkHeader(0))]
  }

  /** The chunks and the line of size zero that ends them. */
  function ChunkLines(chunks: seq<Chunk>, size: bytes, extension: bytes): bytes {
    Wires(chunks) + SizeLine(size, extension)
  }

  predicate LastOk(size: bytes, extension: bytes) {
    IsChunkSize(size) && Hex(size) == 0 && IsExtension(extension)
  }

  lemma ChunksRead(cfg: Config, f: Fields, chunks: seq<Chunk>, size: bytes, extension: bytes)
    requires f.state.ChunkSizeStart? && LastOk(size, extension) && forall i :: 0 <= i < |chunks| ==> ChunkOk(chunks[i])
    ensures Feed(cfg, f, ChunkLines(chunks, size, extension))
         == Outcome(SizeRead(f, 0), ChunksTold(chunks), |ChunkLines(chunks, size, extension)|, More)
  {
    hide Feed, AllTold, Wires, IsChunkSize, Hex;
    ChunksDelivered(cfg, f, chunks);
    var g := Feed(cfg, f, Wires(chunks)).f;
    SizeLineRead(cfg, g, size, extension);
    FeedAppend(cfg, f, Wires(chunks), SizeLine(size, extension));
    assert SizeRead(g, 0) == SizeRead(f, 0);
  }

  /** A trailer of any headers ends the chunk of size zero, and the message. */
  lemma TrailerEnds(cfg: Config, f: Fields, trailer: bytes)
    requires f.flags.trailing && EndsHeaders(cfg, f, trailer)
    ensures var r, told := Feed(cfg, f, trailer), Feed(cfg, f, trailer[..|trailer| - 1]).out;
      && !r.stop.Wrong? && r.read == |trailer| && Quiet(told)
      && r.out == told + ([Notify(ChunkComplete)] + [Notify(MessageComplete)])
  {
    hide Feed, AtEnd, EndsHeaders, Quiet;
    HeadersEnded(cfg, f, trailer);
  }

  /** With a chunked encoding the headers end in front of the first chunk. */
  lemma ChunkedEnds(f: Fields, g: Fields)
    requires KeptBy(f, g) && f.flags.chunked && !f.flags.trailing && !f.connect && !EndEffect(g).Fail?
    ensures EndEffect(g) == Next(g.(upgrade := Upgrades(g), state := ChunkSizeStart), [Notify(HeadersComplete)])
  {
  }

  lemma ChunkedBegins(cfg: Config, f: Fields, headers: bytes)
    requires f.flags.chunked && !f.flags.trailing && !f.connect && EndsHeaders(cfg, f, headers)
    ensures var r, told := Feed(cfg, f, headers), Feed(cfg, f, headers[..|headers| - 1]).out;
      && r.stop.More? && r.read == |headers| && r.f.state.ChunkSizeStart?
      && Quiet(told) && r.out == told + [Notify(HeadersComplete)]
  {
    hide Feed, AtEnd, EndsHeaders, Quiet, EndEffect, KeptBy;
    HeadersEnded(cfg, f, headers);
    ChunkedEnds(f, AtEnd(Feed(cfg, f, headers[..|headers| - 1]).f));
  }

  lemma ChunkedToldBody(head: seq<Token>, chunks: seq<Chunk>, tail: seq<Token>)
    requires Quiet(head) && Quiet(tail)
    ensures BodyOf(head + [Notify(HeadersComplete)] + ChunksTold(chunks) + (tail + ([Notify(ChunkComplete)] + [Notify(MessageComplete)]))) == Joined(chunks)
  {
    hide BodyOf, Quiet, AllTold, Joined;
    QuietHasNoBody(head);
    QuietHasNoBody(tail);
    BodyOfNotice(HeadersComplete);
    BodyOfNotice(ChunkHeader(0));
    BodyOfNotice(ChunkComplete);
    BodyOfNotice(MessageComplete);
    BodyOfChunks(chunks);
    BodyOfAppend(AllTold(chunks), [Notify(ChunkHeader(0))]);
    BodyOfAppend(head, [Notify(HeadersComplete)]);
    BodyOfAppend(head + [Notify(HeadersComplete)], ChunksTold(chunks));
    BodyOfAppend([Notify(ChunkComplete)], [Notify(MessageComplete)]);
    BodyOfAppend(tail, [Notify(ChunkComplete)] + [Notify(MessageComplete)]);
    BodyOfAppend(head + [Notify(HeadersComplete)] + ChunksTold(chunks), tail + ([Notify(ChunkComplete)] + [Notify(MessageComplete)]));
  }

  /** What is told of a chunked message whose headers told `head` and whose trailer told `tail`. */
  function ChunkedTold(head: seq<Token>, chunks: seq<Chunk>, tail: seq<Token>): seq<Token> {
    head + [Notify(HeadersComplete)] + ChunksTold(chunks) + (tail + ([Notify(ChunkComplete)] + [Notify(MessageComplete)]))
  }

  /**
    A chunked message, outside a trailer and not a CONNECT: whatever headers are still to come, any chunks with any
    extensions, a last chunk that writes zero in any way, and any trailer. The bytes delivered are the joined data of
    the chunks, nothing else is told as body, and the message is complete at the end of the trailer and not before.
    */
  lemma ChunkedBody(cfg: Config, f: Fields, headers: bytes, chunks: seq<Chunk>, size: bytes, extension: bytes, trailer: bytes)
    requires f.flags.chunked && !f.flags.trailing && !f.connect && EndsHeaders(cfg, f, headers)
    requires LastOk(size, extension) && forall i :: 0 <= i < |chunks| ==> ChunkOk(chunks[i])
    requires EndsHeaders(cfg, SizeRead(Feed(cfg, f, headers).f, 0), trailer)
    ensures var lines, start := ChunkLines(chunks, size, extension), SizeRead(Feed(cfg, f, headers).f, 0);
      var head, tail := Feed(cfg, f, headers[..|headers| - 1]).out, Feed(cfg, start, trailer[..|trailer| - 1]).out;
      var r := Feed(cfg, f, headers + lines + trailer);
      && !r.stop.Wrong? && r.read == |headers| + |lines| + |trailer|
      && Quiet(head) && Quiet(tail) && r.out == ChunkedTold(head, chunks, tail)
      && BodyOf(r.out) == Joined(chunks) && Notify(MessageComplete) !in AllTold(chunks)
  {
    ChunksTellNoEnd(chunks);
    hide Feed, EndsHeaders, Quiet, AllTold, ChunksTold, ChunkLines, BodyOf, Joined, SizeRead, LastOk, ChunkOk;
    var lines, start := ChunkLines(chunks, size, extension), SizeRead(Feed(cfg, f, headers).f, 0);
    EndIsSome(cfg, f, headers);
    EndIsSome(cfg, start, trailer);
    ChunkedBegins(cfg, f, headers);
    ChunksRead(cfg, Feed(cfg, f, headers).f, chunks, size, extension);
    FeedAppend(cfg, f, headers, lines);
    SizeReadTrails(Feed(cfg, f, headers).f);
    TrailerEnds(cfg, start, trailer);
    FeedAppend(cfg, f, headers + lines, trailer);
    ChunkedToldBody(Feed(cfg, f, headers[..|headers| - 1]).out, chunks, Feed(cfg, start, trailer[..|trailer| - 1]).out);
  }

  lemma SizeReadTrails(f: Fields)
    ensures SizeRead(f, 0).flags.trailing
  {
  }

  /** The chunks tell the end of the message nowhere, so it comes with the end of the trailer alone. */
  lemma {:induction false} ChunksTellNoEnd(chunks: seq<Chunk>)
    ensures Notify(MessageComplete) !in AllTold(chunks)
  {
    if chunks != [] {
      ChunksTellNoEnd(chunks[..|chunks| - 1]);
      var told := Told(chunks[|chunks| - 1]);
      assert forall i :: 0 <= i < |told| ==> told[i] != Notify(MessageComplete);
    }
  }
}
