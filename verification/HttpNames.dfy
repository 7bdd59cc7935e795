/** From the text of a header to what it means: the names the parser knows, the encoding it knows, and whole messages. */
module HttpNames {
  import opened Bytes
  import opened HttpMachine
  import opened HttpFraming
  import opened HttpBody
  import opened HttpMessage

  // ----- Words -----

  /** The names and words that are matched, spelled out. */
  function Spelling(name: Name): string {
    match name
    case NameConnection => "connection"
    case NameProxyConnection => "proxy-connection"
    case NameContentLength => "content-length"
    case NameTransferEncoding => "transfer-encoding"
    case NameUpgrade => "upgrade"
    case NameChunked => "chunked"
    case NameKeepAlive => "keep-alive"
    case NameClose => "close"
  }

  lemma NamesAreSpelled(name: Name, i: nat)
    ensures NameSize(name) == |Spelling(name)|
    ensures NameChar(name, i) == if i < NameSize(name) then Spelling(name)[i] as int else 0
  {
  }

  /** Some text may stand as the name of a header. */
  predicate IsToken(text: bytes) {
    text != [] && forall i :: 0 <= i < |text| ==> TokenOf(text[i]) != 0
  }

  /** A text is a word, without regard to case. */
  predicate Spells(text: bytes, word: string) {
    |text| == |word| && forall i :: 0 <= i < |text| ==> TokenOf(text[i]) == word[i] as int
  }

  /** A text is a name as far as it goes. */
  predicate Starts(text: bytes, name: Name) {
    |text| <= NameSize(name) && forall i :: 0 <= i < |text| ==> TokenOf(text[i]) == NameChar(name, i)
  }

  lemma StartsWhole(text: bytes, name: Name)
    ensures Starts(text, name) && |text| == NameSize(name) <==> Spells(text, Spelling(name))
  {
    hide NameChar;
    NamesAreSpelled(name, 0);
    forall i | 0 <= i < |text| && i < NameSize(name)
      ensures NameChar(name, i) == Spelling(name)[i] as int
    {
      NamesAreSpelled(name, i);
    }
  }

  lemma StartsSnoc(text: bytes, c: byte, name: Name)
    ensures Starts(text + [c], name) <==> Starts(text, name) && |text| < NameSize(name) && TokenOf(c) == NameChar(name, |text|)
  {
    hide NameChar, NameSize, TokenOf;
    assert forall i :: 0 <= i < |text| ==> (text + [c])[i] == text[i];
    assert (text + [c])[|text|] == c;
  }

  /** Of the names of headers no two begin alike, but for the first three characters of two of them. */
  lemma StartsApart(text: bytes)
    requires text != []
    ensures Starts(text, NameProxyConnection) ==> TokenOf(text[0]) == 112
    ensures Starts(text, NameTransferEncoding) ==> TokenOf(text[0]) == 116
    ensures Starts(text, NameUpgrade) ==> TokenOf(text[0]) == 117
    ensures Starts(text, NameConnection) || Starts(text, NameContentLength) ==> TokenOf(text[0]) == 99
    ensures |text| > 3 ==> !(Starts(text, NameConnection) && Starts(text, NameContentLength))
  {
    hide TokenOf;
    if |text| > 3 && Starts(text, NameConnection) {
      assert TokenOf(text[3]) == NameChar(NameConnection, 3);
    }
  }

  // ----- The name of a header -----

  /** How far a name has been matched, once `text` of it has been read. */
  predicate Known(f: Fields, text: bytes) {
    && text != []
    && (f.header.General? || |text| - 1 == f.index)
    && match f.header
       case C => |text| == 1 && Starts(text, NameConnection) && Starts(text, NameContentLength)
       case CO => |text| == 2 && Starts(text, NameConnection) && Starts(text, NameContentLength)
       case CON => |text| == 3 && Starts(text, NameConnection) && Starts(text, NameContentLength)
       case MatchingConnection => 3 < |text| < NameSize(NameConnection) && Starts(text, NameConnection)
       case MatchingContentLength => 3 < |text| < NameSize(NameContentLength) && Starts(text, NameContentLength)
       case MatchingProxyConnection => |text| < NameSize(NameProxyConnection) && Starts(text, NameProxyConnection)
       case MatchingTransferEncoding => |text| < NameSize(NameTransferEncoding) && Starts(text, NameTransferEncoding)
       case MatchingUpgrade => |text| < NameSize(NameUpgrade) && Starts(text, NameUpgrade)
       case Connection =>
         || (|text| == NameSize(NameConnection) && Starts(text, NameConnection))
         || (|text| == NameSize(NameProxyConnection) && Starts(text, NameProxyConnection))
       case ContentLength => |text| == NameSize(NameContentLength) && Starts(text, NameContentLength)
       case TransferEncoding => |text| == NameSize(NameTransferEncoding) && Starts(text, NameTransferEncoding)
       case Upgrade => |text| == NameSize(NameUpgrade) && Starts(text, NameUpgrade)
       case General =>
         && !Starts(text, NameConnection) && !Starts(text, NameContentLength) && !Starts(text, NameProxyConnection)
         && !Starts(text, NameTransferEncoding) && !Starts(text, NameUpgrade)
       case _ => false
  }

  lemma FirstKnown(f: Fields, c: byte)
    requires TokenOf(c) != 0
    ensures Known(NameFirst(f, TokenOf(c)), [c])
  {
    hide Starts, TokenOf;
    OneStarts(c, NameConnection);
    OneStarts(c, NameContentLength);
    OneStarts(c, NameProxyConnection);
    OneStarts(c, NameTransferEncoding);
    OneStarts(c, NameUpgrade);
  }

  lemma OneStarts(c: byte, name: Name)
    ensures Starts([c], name) <==> TokenOf(c) == NameChar(name, 0)
  {
    hide TokenOf, NameChar;
    StartsSnoc([], c, name);
    assert [] + [c] == [c];
  }

  lemma ShortKnown(f: Fields, text: bytes, c: byte)
    requires Known(f, text) && TokenOf(c) != 0 && (f.header.C? || f.header.CO? || f.header.CON?)
    ensures Known(NameNext(f, TokenOf(c)), text + [c])
  {
    hide Starts, TokenOf;
    StartsSnoc(text, c, NameConnection);
    StartsSnoc(text, c, NameContentLength);
    StartsApart(text);
    StartsApart(text + [c]);
    assert (text + [c])[0] == text[0];
  }

  lemma NextKnown(f: Fields, text: bytes, c: byte)
    requires Known(f, text) && TokenOf(c) != 0
    ensures Known(NameNext(f, TokenOf(c)), text + [c])
  {
    hide Starts, TokenOf, NameChar;
    if f.header.C? || f.header.CO? || f.header.CON? {
      ShortKnown(f, text, c);
    } else {
      StartsSnoc(text, c, NameConnection);
      StartsSnoc(text, c, NameContentLength);
      StartsSnoc(text, c, NameProxyConnection);
      StartsSnoc(text, c, NameTransferEncoding);
      StartsSnoc(text, c, NameUpgrade);
      StartsApart(text);
    }
  }

  lemma NameOnly(f: Fields, c: byte)
    ensures NameFirst(f, c) == f.(state := HeaderField, header := NameFirst(f, c).header, index := 0)
    ensures NameNext(f, c) == f.(header := NameNext(f, c).header, index := NameNext(f, c).index)
  {
    hide Matched;
    MatchedKeeps(f, NameConnection, c, Connection, General);
    MatchedKeeps(f, NameProxyConnection, c, Connection, General);
    MatchedKeeps(f, NameContentLength, c, ContentLength, General);
    MatchedKeeps(f, NameTransferEncoding, c, TransferEncoding, General);
    MatchedKeeps(f, NameUpgrade, c, Upgrade, General);
  }

  /** The characters of a name are told, and how far the name is known is all that changes. */
  lemma {:induction false} NameRead(cfg: Config, f: Fields, name: bytes)
    requires f.state.HeaderFieldStart? && IsToken(name)
    ensures var r := Feed(cfg, f, name);
      && r == Outcome(r.f, Tokens(Field, name), |name|, More)
      && r.f == f.(state := HeaderField, header := r.f.header, index := r.f.index) && Known(r.f, name)
  {
    hide Known, NameFirst, NameNext, TokenOf, Feed;
    var n := |name| - 1;
    assert name == name[..n] + [name[n]];
    if n == 0 {
      FirstToken(name[0]);
      FirstKnown(f, name[0]);
      NameOnly(f, TokenOf(name[0]));
      FeedNothing(cfg, f);
      assert name[..0] == [] && Tokens(Field, []) == [] && name == [name[0]];
      FeedOneMore(cfg, f, name, f, Field, NameFirst(f, TokenOf(name[0])));
    } else {
      NameRead(cfg, f, name[..n]);
      var g := Feed(cfg, f, name[..n]).f;
      NextKnown(g, name[..n], name[n]);
      NameOnly(g, TokenOf(name[n]));
      FeedOneMore(cfg, f, name, g, Field, NameNext(g, TokenOf(name[n])));
    }
  }

  lemma FeedNothing(cfg: Config, f: Fields)
    ensures Feed(cfg, f, []) == Outcome(f, [], 0, More)
  {
  }

  /** Neither of the ends of a line may stand in a name. */
  lemma FirstToken(c: byte)
    ensures TokenOf(c) != 0 ==> c != CR && c != LF && c != COLON
  {
  }

  /** What is known of a name at its end is which header it is. */
  lemma KnownIs(f: Fields, text: bytes)
    requires Known(f, text)
    ensures f.header.ContentLength? <==> Spells(text, "content-length")
    ensures f.header.TransferEncoding? <==> Spells(text, "transfer-encoding")
    ensures f.header.Upgrade? <==> Spells(text, "upgrade")
    ensures f.header.Connection? <==> Spells(text, "connection") || Spells(text, "proxy-connection")
  {
    hide Starts, Spells, TokenOf;
    StartsWhole(text, NameConnection);
    StartsWhole(text, NameContentLength);
    StartsWhole(text, NameProxyConnection);
    StartsWhole(text, NameTransferEncoding);
    StartsWhole(text, NameUpgrade);
    StartsApart(text);
  }

  /**
    The name of a header and its colon: all is told, flags and length stay, and the parser takes the header for one of
    those it knows if and only if the name is that word, in upper case or lower.
    */
  lemma HeaderIsKnown(cfg: Config, f: Fields, name: bytes)
    requires f.state.HeaderFieldStart? && IsToken(name)
    ensures var r := Feed(cfg, f, name + [COLON]);
      && r == Outcome(r.f, Tokens(Field, name), |name| + 1, More)
      && r.f == f.(state := ValueDiscardWs, header := r.f.header, index := r.f.index)
      && (r.f.header.ContentLength? <==> Spells(name, "content-length"))
      && (r.f.header.TransferEncoding? <==> Spells(name, "transfer-encoding"))
      && (r.f.header.Upgrade? <==> Spells(name, "upgrade"))
      && (r.f.header.Connection? <==> Spells(name, "connection") || Spells(name, "proxy-connection"))
  {
    hide Known, Feed, Spells, IsToken;
    NameRead(cfg, f, name);
    var g := Feed(cfg, f, name).f;
    KnownIs(g, name);
    FeedSnoc(cfg, f, name, COLON);
    ColonEnds(cfg, g);
    NothingMore(Tokens(Field, name));
  }

  lemma ColonEnds(cfg: Config, f: Fields)
    requires f.state.HeaderField?
    ensures Exec(cfg, f, COLON) == Next(f.(state := ValueDiscardWs), [])
  {
  }

  lemma NothingMore(out: seq<Token>)
    ensures out + [] == out
  {
  }

  // ----- Blanks in front of a value -----

  predicate IsBlank(c: byte) {
    c == SP || c == HT
  }

  predicate AreBlanks(text: bytes) {
    forall i :: 0 <= i < |text| ==> IsBlank(text[i])
  }

  lemma {:induction false} BlanksSkipped(cfg: Config, f: Fields, blanks: bytes)
    requires f.state.ValueDiscardWs? && AreBlanks(blanks)
    ensures Feed(cfg, f, blanks) == Outcome(f, [], |blanks|, More)
  {
    if blanks != [] {
      var n := |blanks| - 1;
      BlanksSkipped(cfg, f, blanks[..n]);
      assert IsBlank(blanks[n]);
      assert Exec(cfg, f, blanks[n]) == Next(f, []);
    }
  }

  /** A name, its colon and blanks. */
  function Opening(name: bytes, blanks: bytes): bytes {
    name + [COLON] + blanks
  }

  lemma OpeningRead(cfg: Config, f: Fields, name: bytes, blanks: bytes)
    requires f.state.HeaderFieldStart? && IsToken(name) && AreBlanks(blanks)
    ensures var r := Feed(cfg, f, Opening(name, blanks));
      && r == Outcome(r.f, Tokens(Field, name), |name| + 1 + |blanks|, More) && Quiet(r.out)
      && r.f == f.(state := ValueDiscardWs, header := r.f.header, index := r.f.index)
      && (r.f.header.ContentLength? <==> Spells(name, "content-length"))
      && (r.f.header.TransferEncoding? <==> Spells(name, "transfer-encoding"))
  {
    hide Feed, Spells, IsToken, AreBlanks, Quiet;
    HeaderIsKnown(cfg, f, name);
    var g := Feed(cfg, f, name + [COLON]).f;
    BlanksSkipped(cfg, g, blanks);
    FeedAppend(cfg, f, name + [COLON], blanks);
    NothingMore(Tokens(Field, name));
    QuietTokens(Field, name);
  }

  lemma QuietTokens(kind: Kind, data: bytes)
    requires !kind.Body?
    ensures Quiet(Tokens(kind, data))
  {
  }

  lemma SpelledIsToken(text: bytes, name: Name)
    requires Spells(text, Spelling(name))
    ensures IsToken(text)
  {
    hide TokenOf;
    forall i | 0 <= i < |text|
      ensures TokenOf(text[i]) != 0
    {
      assert TokenOf(text[i]) == Spelling(name)[i] as int;
    }
  }

  // ----- A message with a content length -----

  /**
    A message with a content length, from the first character of the header on, outside a trailer and not a CONNECT:
    exactly as many bytes behind the headers as its value says are delivered as the body.
    */
  lemma ContentLengthMessage(cfg: Config, f: Fields, name: bytes, blanks: bytes, text: bytes, eol: byte, headers: bytes, body: bytes)
    requires f.state.HeaderFieldStart? && !f.flags.contentLength && !f.flags.trailing && !f.connect
    requires Spells(name, "content-length") && AreBlanks(blanks) && IsLength(text) && (eol == CR || eol == LF)
    requires EndsHeaders(cfg, Feed(cfg, f, Opening(name, blanks) + (text + [eol])).f, headers) && |body| == Decimal(text)
    ensures var line := Opening(name, blanks) + (text + [eol]);
      var r0 := Feed(cfg, f, line);
      var r := Feed(cfg, f, Opening(name, blanks) + (text + [eol] + (headers + body)));
      && Delivers(r, r0.out + Feed(cfg, r0.f, headers[..|headers| - 1]).out, body, |line| + |headers| + |body|)
      && BodyOf(r.out) == body
  {
    hide Feed, Delivers, EndsHeaders, Decimal, IsLength, BodyOf, Spells, AreBlanks, IsToken, Quiet;
    SpelledIsToken(name, NameContentLength);
    OpeningRead(cfg, f, name, blanks);
    var opening := Opening(name, blanks);
    var r1 := Feed(cfg, f, opening);
    LengthLine(cfg, r1.f, text, eol);
    FeedAppend(cfg, f, opening, text + [eol]);
    ContentLengthBody(cfg, r1.f, text, eol, headers, body);
    var r0 := Feed(cfg, r1.f, text + [eol]);
    EndIsSome(cfg, r0.f, headers);
    var told := Feed(cfg, r0.f, headers[..|headers| - 1]).out;
    var rest := text + [eol] + (headers + body);
    FeedAppend(cfg, f, opening, rest);
    DeliversBehind(r1, Feed(cfg, r1.f, rest), r0.out + told, body, |text| + 1 + |headers| + |body|);
    assert r1.out + (r0.out + told) == r1.out + r0.out + told;
    DeliversBody(Feed(cfg, f, opening + rest), r1.out + r0.out + told, body, |opening| + (|text| + 1 + |headers| + |body|));
  }

  // ----- The value of a transfer encoding -----

  /** A text is the word `chunked`, without regard to case and with any spaces behind it, as far as it goes. */
  predicate ChunkedStart(text: bytes) {
    forall i :: 0 <= i < |text| ==> if i < NameSize(NameChunked) then Lower(text[i]) == NameChar(NameChunked, i) else text[i] == SP
  }

  predicate IsChunked(text: bytes) {
    |text| >= |"chunked"| && Spells(text[..|"chunked"|], "chunked") && forall i :: |"chunked"| <= i < |text| ==> text[i] == SP
  }

  /** The value of a header on one line: it neither begins with a blank nor holds an end of line. */
  predicate OnOneLine(text: bytes) {
    text != [] && !IsBlank(text[0]) && CR !in text && LF !in text
  }

  lemma ChunkedStartSnoc(text: bytes, c: byte)
    ensures ChunkedStart(text + [c]) <==>
      ChunkedStart(text) && if |text| < NameSize(NameChunked) then Lower(c) == NameChar(NameChunked, |text|) else c == SP
  {
    hide NameChar, Lower;
    assert forall i :: 0 <= i < |text| ==> (text + [c])[i] == text[i];
    assert (text + [c])[|text|] == c;
  }

  /** Setting one bit makes a lower-case letter of that letter only, in either case. */
  lemma LowerIsToken(c: byte, i: nat)
    requires i < NameSize(NameChunked)
    ensures Lower(c) == NameChar(NameChunked, i) <==> TokenOf(c) == Spelling(NameChunked)[i] as int
  {
  }

  lemma ChunkedWhole(text: bytes)
    ensures ChunkedStart(text) && |text| >= NameSize(NameChunked) <==> IsChunked(text)
  {
    hide NameChar, Lower, TokenOf;
    forall i | 0 <= i < |text| && i < NameSize(NameChunked)
      ensures Lower(text[i]) == NameChar(NameChunked, i) <==> TokenOf(text[i]) == "chunked"[i] as int
    {
      LowerIsToken(text[i], i);
    }
  }

  /** How far the word has been matched, once `text` of the value has been read. */
  predicate KnownEncoding(f: Fields, text: bytes) {
    && text != []
    && (f.header.MatchingChunked? ==> f.index == |text| - 1)
    && (f.header.MatchingChunked? || f.header.Chunked? || f.header.General?)
    && (f.header.MatchingChunked? <==> ChunkedStart(text) && |text| < NameSize(NameChunked))
    && (f.header.Chunked? <==> ChunkedStart(text) && |text| >= NameSize(NameChunked))
  }

  lemma FirstEncoding(f: Fields, c: byte)
    requires f.header.TransferEncoding?
    ensures var m := ValueFirst(f, c);
      && m == Go(f.(state := HeaderValue, index := 0, header := m.f.header), Tell(Byte(Value, c))) && KnownEncoding(m.f, [c])
  {
    hide Lower;
    ChunkedStartSnoc([], c);
    assert [] + [c] == [c];
  }

  lemma NextEncoding(f: Fields, text: bytes, c: byte)
    requires KnownEncoding(f, text)
    ensures var m := ValueNext(f, c);
      && m == Go(f.(index := m.f.index, header := m.f.header), Tell(Byte(Value, c))) && KnownEncoding(m.f, text + [c])
  {
    hide Lower, ChunkedStart;
    ChunkedStartSnoc(text, c);
  }

  lemma ChunkedIsPlain(text: bytes, c: byte)
    requires ChunkedStart(text + [c])
    ensures IsHeaderChar(c) && ChunkedStart(text)
  {
    hide NameChar;
    ChunkedStartSnoc(text, c);
    if |text| < NameSize(NameChunked) {
      LetterIsPlain(c, |text|);
    }
  }

  lemma LetterIsPlain(c: byte, i: nat)
    requires i < NameSize(NameChunked) && Lower(c) == NameChar(NameChunked, i)
    ensures IsHeaderChar(c)
  {
  }

  /** A value on one line: while it is taken, the encoding is known for what it is; and `chunked` is taken. */
  lemma {:induction false} EncodingRead(cfg: Config, f: Fields, text: bytes)
    requires f.state.ValueDiscardWs? && f.header.TransferEncoding? && OnOneLine(text)
    ensures var r := Feed(cfg, f, text);
      && (ChunkedStart(text) ==> r.stop.More?)
      && (r.stop.More? ==>
            && r == Outcome(r.f, Tokens(Value, text), |text|, More)
            && r.f == f.(state := HeaderValue, header := r.f.header, index := r.f.index) && KnownEncoding(r.f, text))
  {
    hide KnownEncoding, ChunkedStart, ValueFirst, ValueNext, Tokens, IsHeaderChar, Exec, Feed;
    var n := |text| - 1;
    assert text == text[..n] + [text[n]];
    if n == 0 {
      FirstEncoding(f, text[0]);
      ValueFirstByte(cfg, f, text[0]);
      FeedNothing(cfg, f);
      assert text[..0] == [] && Tokens(Value, []) == [] && text == [text[0]];
      FeedOneMore(cfg, f, text, f, Value, ValueFirst(f, text[0]).f);
    } else {
      EncodingRead(cfg, f, text[..n]);
      var r := Feed(cfg, f, text[..n]);
      if ChunkedStart(text) {
        ChunkedIsPlain(text[..n], text[n]);
      }
      if r.stop.More? {
        NextEncoding(r.f, text[..n], text[n]);
        ValueByte(cfg, r.f, text[n]);
        if cfg.lenient || IsHeaderChar(text[n]) {
          FeedOneMore(cfg, f, text, r.f, Value, ValueNext(r.f, text[n]).f);
        } else {
          FeedSnoc(cfg, f, text[..n], text[n]);
        }
      } else {
        FeedStops(cfg, f, text[..n], [text[n]]);
      }
    }
  }

  lemma ValueByte(cfg: Config, f: Fields, c: byte)
    requires f.state.HeaderValue? && c != CR && c != LF && ValueNext(f, c).Go?
    ensures Exec(cfg, f, c) == if cfg.lenient || IsHeaderChar(c) then Next(ValueNext(f, c).f, Said(ValueNext(f, c).emit))
                               else Fail(InvalidHeaderToken)
  {
    hide ValueNext, IsHeaderChar;
  }

  lemma ValueFirstByte(cfg: Config, f: Fields, c: byte)
    requires f.state.ValueDiscardWs? && c != CR && c != LF && !IsBlank(c) && ValueFirst(f, c).Go?
    ensures Exec(cfg, f, c) == Next(ValueFirst(f, c).f, Said(ValueFirst(f, c).emit))
  {
    hide ValueFirst;
  }

  // ----- The end of a line -----

  predicate IsEol(eol: bytes) {
    eol == [LF] || eol == [CR, LF]
  }

  lemma LineEnds(cfg: Config, f: Fields, eol: bytes)
    requires f.state.HeaderValue? && IsEol(eol)
    ensures Feed(cfg, f, eol) == Outcome(f.(state := ValueLws), [], |eol|, More)
  {
    var g := f.(state := HeaderAlmostDone);
    FeedNothing(cfg, f);
    assert Exec(cfg, g, LF) == Next(f.(state := ValueLws), []);
    if eol == [LF] {
      assert One(cfg, f, LF) == Again(g, Silent);
      FeedSnoc(cfg, f, [], LF);
      assert [] + [LF] == [LF];
    } else {
      assert Exec(cfg, f, CR) == Next(g, []);
      FeedTwo(cfg, f, CR, LF);
    }
  }

  /** The parser behind a header, once the next line is seen not to continue it. */
  function LineRead(f: Fields): Fields {
    HeaderFlags(f).(state := HeaderFieldStart)
  }

  lemma NextLine(cfg: Config, f: Fields, ch: byte)
    requires f.state.ValueLws? && !IsBlank(ch)
    ensures Exec(cfg, f, ch) == Exec(cfg, LineRead(f), ch)
  {
    assert One(cfg, f, ch) == Again(LineRead(f), Silent);
    PrependedNothing(Exec(cfg, LineRead(f), ch));
  }

  /** Where the next line begins with no blank, the header is over before its first byte. */
  lemma {:induction false} NextLines(cfg: Config, f: Fields, data: bytes)
    requires f.state.ValueLws? && data != [] && !IsBlank(data[0])
    ensures Alike(Feed(cfg, f, data), Feed(cfg, LineRead(f), data))
  {
    hide Exec, LineRead;
    var n := |data| - 1;
    if n == 0 {
      assert data[..0] == [];
      NextLine(cfg, f, data[0]);
    } else {
      NextLines(cfg, f, data[..n]);
    }
  }

  /** The same is told and read, and unless a byte was refused the parser is left the same. */
  predicate Alike(a: Outcome, b: Outcome) {
    a.out == b.out && a.read == b.read && a.stop == b.stop && (!a.stop.Wrong? ==> a.f == b.f)
  }

  lemma {:induction false} NextWithin(cfg: Config, f: Fields, data: bytes)
    requires f.state.ValueLws? && (data != [] ==> !IsBlank(data[0]))
    ensures Within(cfg, f, data) <==> Within(cfg, LineRead(f), data)
  {
    hide Feed;
    if data != [] {
      NextWithin(cfg, f, data[..|data| - 1]);
      NextLines(cfg, f, data);
    }
  }

  lemma NextEnds(cfg: Config, f: Fields, data: bytes)
    requires f.state.ValueLws? && data != [] && !IsBlank(data[0])
    ensures EndsHeaders(cfg, f, data) <==> EndsHeaders(cfg, LineRead(f), data)
  {
    hide Feed, Within, LineRead;
    NextWithin(cfg, f, data);
    NextWithin(cfg, f, data[..|data| - 1]);
    NextLines(cfg, f, data);
  }

  // ----- A chunked message -----

  /** A whole line: name, colon, blanks, value, end. */
  function HeaderLine(name: bytes, blanks: bytes, value: bytes, eol: bytes): bytes {
    Opening(name, blanks) + (value + eol)
  }

  /**
    The line of a transfer encoding whose value is on one line, from its first character on: if it is taken, the message
    is chunked behind it if and only if it was before or the value is `chunked`. A line with that value is taken.
    */
  lemma TransferEncodingLine(cfg: Config, f: Fields, name: bytes, blanks: bytes, value: bytes, eol: bytes)
    requires f.state.HeaderFieldStart? && Spells(name, "transfer-encoding") && AreBlanks(blanks) && OnOneLine(value) && IsEol(eol)
    ensures var line := HeaderLine(name, blanks, value, eol);
      var r := Feed(cfg, f, line);
      && (IsChunked(value) ==> r.stop.More?)
      && (r.stop.More? ==>
            && r.read == |line| && r.f.state.ValueLws? && r.out == Tokens(Field, name) + Tokens(Value, value) && Quiet(r.out)
            && LineRead(r.f) == f.(header := r.f.header, index := r.f.index,
                                   flags := f.flags.(chunked := f.flags.chunked || IsChunked(value))))
  {
    hide Feed, Spells, AreBlanks, IsToken, Quiet, OnOneLine, ChunkedStart, IsChunked, Tokens;
    SpelledIsToken(name, NameTransferEncoding);
    OpeningRead(cfg, f, name, blanks);
    var r1 := Feed(cfg, f, Opening(name, blanks));
    EncodingRead(cfg, r1.f, value);
    ChunkedWhole(value);
    var r2 := Feed(cfg, r1.f, value);
    FeedAppend(cfg, f, Opening(name, blanks), value + eol);
    if r2.stop.More? {
      LineEnds(cfg, r2.f, eol);
      FeedAppend(cfg, r1.f, value, eol);
      NothingMore(r2.out);
      QuietTokens(Value, value);
      QuietAppend(r1.out, r2.out);
    } else {
      FeedStops(cfg, r1.f, value, eol);
    }
  }

  lemma QuietlyBehind(a: seq<Token>, head: seq<Token>, chunks: seq<Chunk>, tail: seq<Token>)
    ensures a + ChunkedTold(head, chunks, tail) == ChunkedTold(a + head, chunks, tail)
  {
    hide ChunksTold;
  }

  /**
    A chunked message, from the first character of the header that says so on, outside a trailer and not a CONNECT:
    the headers that follow do not continue that line, and then the body is the joined data of the chunks.
    */
  lemma ChunkedMessage(cfg: Config, f: Fields, line: bytes, name: bytes, blanks: bytes, value: bytes, eol: bytes, headers: bytes,
                       chunks: seq<Chunk>, size: bytes, extension: bytes, trailer: bytes)
    requires f.state.HeaderFieldStart? && !f.flags.trailing && !f.connect && line == HeaderLine(name, blanks, value, eol)
    requires Spells(name, "transfer-encoding") && AreBlanks(blanks) && OnOneLine(value) && IsChunked(value) && IsEol(eol)
    requires headers != [] && !IsBlank(headers[0]) && EndsHeaders(cfg, Feed(cfg, f, line).f, headers)
    requires LastOk(size, extension) && forall i :: 0 <= i < |chunks| ==> ChunkOk(chunks[i])
    requires EndsHeaders(cfg, SizeRead(Feed(cfg, f, line + headers).f, 0), trailer)
    ensures var lines := ChunkLines(chunks, size, extension);
      var r := Feed(cfg, f, line + (headers + lines + trailer));
      && !r.stop.Wrong? && r.read == |line| + |headers| + |lines| + |trailer|
      && BodyOf(r.out) == Joined(chunks)
      && exists head, tail :: Quiet(head) && Quiet(tail) && r.out == ChunkedTold(head, chunks, tail)
  {
    hide Feed, EndsHeaders, Quiet, AllTold, ChunksTold, ChunkLines, BodyOf, Joined, SizeRead, LastOk, ChunkOk;
    hide LineRead, HeaderLine, Spells, AreBlanks, OnOneLine, IsChunked, IsEol;
    TransferEncodingLine(cfg, f, name, blanks, value, eol);
    var r0 := Feed(cfg, f, line);
    var g, lines := LineRead(r0.f), ChunkLines(chunks, size, extension);
    NextEnds(cfg, r0.f, headers);
    NextLines(cfg, r0.f, headers);
    FeedAppend(cfg, f, line, headers);
    EndsRight(cfg, r0.f, headers);
    ChunkedBody(cfg, g, headers, chunks, size, extension, trailer);
    NextLines(cfg, r0.f, headers + lines + trailer);
    FeedAppend(cfg, f, line, headers + lines + trailer);
    var start := SizeRead(Feed(cfg, g, headers).f, 0);
    EndIsSome(cfg, start, trailer);
    var head, tail := Feed(cfg, g, headers[..|headers| - 1]).out, Feed(cfg, start, trailer[..|trailer| - 1]).out;
    QuietlyBehind(r0.out, head, chunks, tail);
    QuietAppend(r0.out, head);
    ToldBody(r0.out + head, chunks, tail);
  }

  lemma ToldBody(head: seq<Token>, chunks: seq<Chunk>, tail: seq<Token>)
    requires Quiet(head) && Quiet(tail)
    ensures BodyOf(ChunkedTold(head, chunks, tail)) == Joined(chunks)
  {
    hide Quiet, BodyOf, Joined, ChunksTold;
    ChunkedToldBody(head, chunks, tail);
  }

  lemma EndsRight(cfg: Config, f: Fields, data: bytes)
    requires EndsHeaders(cfg, f, data)
    ensures !Feed(cfg, f, data).stop.Wrong?
  {
  }
}
