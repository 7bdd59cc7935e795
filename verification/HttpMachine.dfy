/**
  The HTTP request parser as a machine that takes one byte at a time, from the headers on.
  The request line is any recogniser that works byte by byte.
  */
module HttpMachine {
  import opened Bytes

  const CR: byte := 13
  const LF: byte := 10
  const SP: byte := 32
  const HT: byte := 9
  const COLON: byte := 58
  const COMMA: byte := 44
  const SEMICOLON: byte := 59

  /** `ULLONG_MAX`, which stands for no content length. */
  const NO_LENGTH: nat := 0xFFFF_FFFF_FFFF_FFFF

  const HTTP_MAX_HEADER_SIZE: nat := 80 * 1024

  datatype State =
    | Dead | StartReq | Line(inner: nat)
    | HeaderFieldStart | HeaderField
    | ValueDiscardWs | ValueDiscardWsAlmostDone | ValueDiscardLws | ValueStart | HeaderValue | ValueLws
    | HeaderAlmostDone
    | ChunkSizeStart | ChunkSize | ChunkParameters | ChunkSizeAlmostDone
    | HeadersAlmostDone | HeadersDone
    | ChunkData | ChunkDataAlmostDone | ChunkDataDone
    | BodyIdentity | MessageDone

  /** The states in which bytes count as header bytes. */
  predicate ParsingHeader(s: State) {
    !(s.ChunkData? || s.ChunkDataAlmostDone? || s.ChunkDataDone? || s.BodyIdentity? || s.MessageDone?)
  }

  datatype HeaderState =
    | General | C | CO | CON
    | MatchingConnection | MatchingProxyConnection | MatchingContentLength | MatchingTransferEncoding | MatchingUpgrade
    | Connection | ContentLength | TransferEncoding | Upgrade
    | MatchingChunked | TokenStart | MatchingKeepAlive | MatchingClose | MatchingConnectionUpgrade | ConnectionToken
    | Chunked | KeepAlive | Close | ConnectionUpgrade

  datatype Flags = Flags(chunked: bool, keepAlive: bool, close: bool, connectionUpgrade: bool,
                         trailing: bool, upgrade: bool, contentLength: bool)

  const NO_FLAGS := Flags(false, false, false, false, false, false, false)

  /** The fields of `http_parser` that steer it, without the count of header bytes. */
  datatype Fields = Fields(state: State, header: HeaderState, index: nat, flags: Flags, length: nat,
                           major: nat, minor: nat, connect: bool, upgrade: bool)

  datatype Error = InvalidHeaderToken | InvalidContentLength | UnexpectedContentLength | InvalidChunkSize
                 | LfExpected | Strict | ClosedConnection | HeaderOverflow | InvalidEofState | BadLine

  /**
    What the callbacks are told: the bytes of a kind of data, one by one, and the notifications. A call of a callback
    with no bytes, which the parser makes for an empty header value, leaves no token.
    */
  datatype Kind = Field | Value | Body | Url
  datatype Notice = MessageBegin | HeadersComplete | ChunkHeader(size: nat) | ChunkComplete | MessageComplete
  datatype Token = Byte(kind: Kind, b: byte) | Notify(notice: Notice)

  /** What a visit of a state tells: nothing, or one thing. */
  datatype Emit = Silent | Tell(token: Token)

  /** What one byte of the request line does. */
  datatype LineResult = LineTo(inner: nat, emit: Emit) | LineDone(major: nat, minor: nat, connect: bool, emit: Emit) | LineError

  /** The recogniser of the request line, and whether header values may hold any byte. */
  datatype Config = Config(line: (nat, byte) -> LineResult, lenient: bool)

  /** What one visit of a state does with a byte: done with it, the same byte again, done with the connection, or wrong. */
  datatype Micro = Go(f: Fields, emit: Emit) | Again(f: Fields, emit: Emit) | Quit(f: Fields, emit: Emit) | Bad(error: Error)

  // ----- Characters -----

  function Lower(c: byte): byte {
    if 64 <= c < 96 || 0 <= c < 32 || 128 <= c < 160 || 192 <= c < 224 then c + 32 else c
  }

  predicate IsNum(c: byte) {
    48 <= c <= 57
  }

  /** The lower-case of a character that may stand in a token, 0 for any other. */
  function TokenOf(c: byte): byte {
    if 65 <= c <= 90 then c + 32
    else if 97 <= c <= 122 || IsNum(c) then c
    else if c == 33 || 35 <= c <= 39 || c == 42 || c == 43 || c == 45 || c == 46 || 94 <= c <= 96 || c == 124 || c == 126 then c
    else 0
  }

  predicate IsHeaderChar(c: byte) {
    c == CR || c == LF || c == 9 || (c > 31 && c != 127)
  }

  /** The value of a hexadecimal digit, -1 for any other character. */
  function Unhex(c: byte): (r: int)
    ensures -1 <= r < 16
  {
    if IsNum(c) then c - 48
    else if 65 <= c <= 70 then c - 55
    else if 97 <= c <= 102 then c - 87
    else -1
  }

  /** The names and words that are matched. */
  datatype Name = NameConnection | NameProxyConnection | NameContentLength | NameTransferEncoding | NameUpgrade | NameChunked | NameKeepAlive | NameClose

  function NameSize(name: Name): nat {
    match name
    case NameConnection => 10
    case NameProxyConnection => 16
    case NameContentLength => 14
    case NameTransferEncoding => 17
    case NameUpgrade => 7
    case NameChunked => 7
    case NameKeepAlive => 10
    case NameClose => 5
  }

  /** The character of a name at an index, 0 behind its end. */
  function NameChar(name: Name, i: nat): byte {
    match name
    case NameConnection => // connection
      if i == 0 then 99 else if i == 1 then 111 else if i == 2 then 110 else if i == 3 then 110 else if i == 4 then 101
      else if i == 5 then 99 else if i == 6 then 116 else if i == 7 then 105 else if i == 8 then 111 else if i == 9 then 110 else 0
    case NameProxyConnection => // proxy-connection
      if i == 0 then 112 else if i == 1 then 114 else if i == 2 then 111 else if i == 3 then 120 else if i == 4 then 121
      else if i == 5 then 45 else if i == 6 then 99 else if i == 7 then 111 else if i == 8 then 110 else if i == 9 then 110
      else if i == 10 then 101 else if i == 11 then 99 else if i == 12 then 116 else if i == 13 then 105 else if i == 14 then 111
      else if i == 15 then 110 else 0
    case NameContentLength => // content-length
      if i == 0 then 99 else if i == 1 then 111 else if i == 2 then 110 else if i == 3 then 116 else if i == 4 then 101
      else if i == 5 then 110 else if i == 6 then 116 else if i == 7 then 45 else if i == 8 then 108 else if i == 9 then 101
      else if i == 10 then 110 else if i == 11 then 103 else if i == 12 then 116 else if i == 13 then 104 else 0
    case NameTransferEncoding => // transfer-encoding
      if i == 0 then 116 else if i == 1 then 114 else if i == 2 then 97 else if i == 3 then 110 else if i == 4 then 115
      else if i == 5 then 102 else if i == 6 then 101 else if i == 7 then 114 else if i == 8 then 45 else if i == 9 then 101
      else if i == 10 then 110 else if i == 11 then 99 else if i == 12 then 111 else if i == 13 then 100 else if i == 14 then 105
      else if i == 15 then 110 else if i == 16 then 103 else 0
    case NameUpgrade => // upgrade
      if i == 0 then 117 else if i == 1 then 112 else if i == 2 then 103 else if i == 3 then 114 else if i == 4 then 97
      else if i == 5 then 100 else if i == 6 then 101 else 0
    case NameChunked => // chunked
      if i == 0 then 99 else if i == 1 then 104 else if i == 2 then 117 else if i == 3 then 110 else if i == 4 then 107
      else if i == 5 then 101 else if i == 6 then 100 else 0
    case NameKeepAlive => // keep-alive
      if i == 0 then 107 else if i == 1 then 101 else if i == 2 then 101 else if i == 3 then 112 else if i == 4 then 45
      else if i == 5 then 97 else if i == 6 then 108 else if i == 7 then 105 else if i == 8 then 118 else if i == 9 then 101 else 0
    case NameClose => // close
      if i == 0 then 99 else if i == 1 then 108 else if i == 2 then 111 else if i == 3 then 115 else if i == 4 then 101 else 0
  }

  /** One more character of a name that is being matched. */
  function Matched(f: Fields, name: Name, c: byte, full: HeaderState, other: HeaderState): Fields {
    var i := f.index + 1;
    if i > NameSize(name) || c != NameChar(name, i) then f.(index := i, header := other)
    else if i == NameSize(name) - 1 then f.(index := i, header := full)
    else f.(index := i)
  }

  // ----- Header names -----

  /** The first character of a header name. */
  function NameFirst(f: Fields, c: byte): Fields {
    f.(state := HeaderField, index := 0,
       header := if c == 99 then C else if c == 112 then MatchingProxyConnection
                 else if c == 116 then MatchingTransferEncoding else if c == 117 then MatchingUpgrade else General)
  }

  /** A further character of a header name. */
  function NameNext(f: Fields, c: byte): Fields {
    match f.header
    case C => f.(index := f.index + 1, header := if c == 111 then CO else General)
    case CO => f.(index := f.index + 1, header := if c == 110 then CON else General)
    case CON => f.(index := f.index + 1,
                   header := if c == 110 then MatchingConnection else if c == 116 then MatchingContentLength else General)
    case MatchingConnection => Matched(f, NameConnection, c, Connection, General)
    case MatchingProxyConnection => Matched(f, NameProxyConnection, c, Connection, General)
    case MatchingContentLength => Matched(f, NameContentLength, c, ContentLength, General)
    case MatchingTransferEncoding => Matched(f, NameTransferEncoding, c, TransferEncoding, General)
    case MatchingUpgrade => Matched(f, NameUpgrade, c, Upgrade, General)
    case Connection => f.(header := General)
    case ContentLength => f.(header := General)
    case TransferEncoding => f.(header := General)
    case Upgrade => f.(header := General)
    case _ => f
  }

  function InName(f: Fields, ch: byte): Micro {
    if TokenOf(ch) != 0 then Go(NameNext(f, TokenOf(ch)), Tell(Byte(Field, ch)))
    else if ch == COLON then Go(f.(state := ValueDiscardWs), Silent)
    else Bad(InvalidHeaderToken)
  }

  // ----- Header values -----

  /** The first character of a header value. */
  function ValueFirst(f: Fields, ch: byte): Micro {
    var g, emit, c := f.(state := HeaderValue, index := 0), Tell(Byte(Value, ch)), Lower(ch);
    match f.header
    case Upgrade => Go(g.(flags := f.flags.(upgrade := true), header := General), emit)
    case TransferEncoding => Go(g.(header := if c == 99 then MatchingChunked else General), emit)
    case ContentLength =>
      if !IsNum(ch) then Bad(InvalidContentLength)
      else if f.flags.contentLength then Bad(UnexpectedContentLength)
      else Go(g.(flags := f.flags.(contentLength := true), length := ch - 48), emit)
    case Connection => Go(g.(header := ConnectionWord(c)), emit)
    case TokenStart => Go(g, emit)
    case _ => Go(g.(header := General), emit)
  }

  function ConnectionWord(c: byte): HeaderState {
    if c == 107 then MatchingKeepAlive else if c == 99 then MatchingClose
    else if c == 117 then MatchingConnectionUpgrade else ConnectionToken
  }

  /** A further character of a header value, other than CR and LF. */
  function ValueNext(f: Fields, ch: byte): Micro {
    var emit, c := Tell(Byte(Value, ch)), Lower(ch);
    match f.header
    case ContentLength => LengthDigit(f, ch, emit)
    case MatchingChunked => Go(Matched(f, NameChunked, c, Chunked, General), emit)
    case TokenStart =>
      Go(if c == 107 || c == 99 || c == 117 || TokenOf(c) != 0 then f.(header := ConnectionWord(c))
           else if c == SP || c == HT then f else f.(header := General), emit)
    case MatchingKeepAlive => Go(Matched(f, NameKeepAlive, c, KeepAlive, ConnectionToken), emit)
    case MatchingClose => Go(Matched(f, NameClose, c, Close, ConnectionToken), emit)
    case MatchingConnectionUpgrade => Go(Matched(f, NameUpgrade, c, ConnectionUpgrade, ConnectionToken), emit)
    case ConnectionToken => Go(if ch == COMMA then f.(header := TokenStart, index := 0) else f, emit)
    case Chunked => Go(if ch != SP then f.(header := General) else f, emit)
    case KeepAlive => Go(WordEnd(f, ch), emit)
    case Close => Go(WordEnd(f, ch), emit)
    case ConnectionUpgrade => Go(WordEnd(f, ch), emit)
    case _ => Go(f.(header := General), emit)
  }

  /** What follows a word of a `Connection` value that has been matched. */
  function WordEnd(f: Fields, ch: byte): Fields {
    if ch == COMMA then HeaderFlags(f).(header := TokenStart, index := 0)
    else if ch != SP then f.(header := ConnectionToken)
    else f
  }

  function LengthDigit(f: Fields, ch: byte, emit: Emit): Micro {
    if ch == SP then Go(f, emit)
    else if !IsNum(ch) then Bad(InvalidContentLength)
    else if (NO_LENGTH - 10) / 10 < f.length then Bad(InvalidContentLength)
    else Go(f.(length := (10 * f.length + (ch - 48)) % (NO_LENGTH + 1)), emit)
  }

  function InValue(cfg: Config, f: Fields, ch: byte): Micro {
    if ch == CR then Go(f.(state := HeaderAlmostDone), Silent)
    else if ch == LF then Again(f.(state := HeaderAlmostDone), Silent)
    else if !cfg.lenient && !IsHeaderChar(ch) then Bad(InvalidHeaderToken)
    else ValueNext(f, ch)
  }

  /** The flag a finished header value stands for. */
  function WithFlag(flags: Flags, header: HeaderState): (r: Flags)
    ensures r.trailing == flags.trailing && r.contentLength == flags.contentLength && (flags.chunked ==> r.chunked)
  {
    match header
    case KeepAlive => flags.(keepAlive := true)
    case Close => flags.(close := true)
    case Chunked => flags.(chunked := true)
    case ConnectionUpgrade => flags.(connectionUpgrade := true)
    case _ => flags
  }

  function HeaderFlags(f: Fields): Fields {
    f.(flags := WithFlag(f.flags, f.header))
  }

  // ----- The end of the headers -----

  /** `http_should_keep_alive`, for a request. */
  predicate KeepsAlive(f: Fields) {
    if f.major > 0 && f.minor > 0 then !f.flags.close else f.flags.keepAlive
  }

  function NewMessage(f: Fields): State {
    if KeepsAlive(f) then StartReq else Dead
  }

  function HeadersEnd(f: Fields, ch: byte): Micro {
    if ch != LF then Bad(Strict)
    else if f.flags.trailing then Again(f.(state := MessageDone), Tell(Notify(ChunkComplete)))
    else if f.flags.chunked && f.flags.contentLength then Bad(UnexpectedContentLength)
    else Again(f.(state := HeadersDone, upgrade := (f.flags.upgrade && f.flags.connectionUpgrade) || f.connect), Tell(Notify(HeadersComplete)))
  }

  function BodyBegin(f: Fields, ch: byte): Micro {
    var hasBody := f.flags.chunked || (f.length > 0 && f.length != NO_LENGTH);
    var complete := f.(state := NewMessage(f));
    if ch != LF then Bad(Strict)
    else if f.upgrade && (f.connect || !hasBody) then Quit(complete, Tell(Notify(MessageComplete)))
    else if f.flags.chunked then Go(f.(state := ChunkSizeStart), Silent)
    else if f.length == 0 then Go(complete, Tell(Notify(MessageComplete)))
    else if f.length != NO_LENGTH then Go(f.(state := BodyIdentity), Silent)
    else Go(complete, Tell(Notify(MessageComplete)))
  }

  // ----- Chunks -----

  function ChunkDigit(f: Fields, ch: byte): Micro {
    if ch == CR then Go(f.(state := ChunkSizeAlmostDone), Silent)
    else if Unhex(ch) == -1 then
      if ch == SEMICOLON || ch == SP then Go(f.(state := ChunkParameters), Silent) else Bad(InvalidChunkSize)
    else if (NO_LENGTH - 16) / 16 < f.length then Bad(InvalidContentLength)
    else Go(f.(length := (16 * f.length + Unhex(ch)) % (NO_LENGTH + 1)), Silent)
  }

  function ChunkSizeEnd(f: Fields, ch: byte): Micro {
    if ch != LF then Bad(Strict)
    else
      Go(if f.length == 0 then f.(flags := f.flags.(trailing := true), state := HeaderFieldStart) else f.(state := ChunkData),
           Tell(Notify(ChunkHeader(f.length))))
  }

  // ----- The machine -----

  function LineByte(cfg: Config, f: Fields, inner: nat, ch: byte): Micro {
    match cfg.line(inner, ch)
    case LineTo(next, emit) => Go(f.(state := Line(next)), emit)
    case LineDone(major, minor, connect, emit) => Go(f.(state := HeaderFieldStart, major := major, minor := minor, connect := connect), emit)
    case LineError => Bad(BadLine)
  }

  /** One visit of a state. */
  function One(cfg: Config, f: Fields, ch: byte): Micro {
    match f.state
    case Dead => if ch == CR || ch == LF then Go(f, Silent) else Bad(ClosedConnection)
    case StartReq => if ch == CR || ch == LF then Go(f, Silent) else LineByte(cfg, f.(flags := NO_FLAGS, length := NO_LENGTH), 0, ch)
    case Line(inner) => LineByte(cfg, f, inner, ch)
    case HeaderFieldStart =>
      if ch == CR then Go(f.(state := HeadersAlmostDone), Silent)
      else if ch == LF then Again(f.(state := HeadersAlmostDone), Silent)
      else if TokenOf(ch) == 0 then Bad(InvalidHeaderToken)
      else Go(NameFirst(f, TokenOf(ch)), Tell(Byte(Field, ch)))
    case HeaderField => InName(f, ch)
    case ValueDiscardWs =>
      if ch == SP || ch == HT then Go(f, Silent)
      else if ch == CR then Go(f.(state := ValueDiscardWsAlmostDone), Silent)
      else if ch == LF then Go(f.(state := ValueDiscardLws), Silent)
      else ValueFirst(f, ch)
    case ValueStart => ValueFirst(f, ch)
    case HeaderValue => InValue(cfg, f, ch)
    case HeaderAlmostDone => if ch != LF then Bad(LfExpected) else Go(f.(state := ValueLws), Silent)
    case ValueLws =>
      if ch == SP || ch == HT then Again(f.(state := ValueStart), Silent) else Again(HeaderFlags(f).(state := HeaderFieldStart), Silent)
    case ValueDiscardWsAlmostDone => if ch != LF then Bad(Strict) else Go(f.(state := ValueDiscardLws), Silent)
    case ValueDiscardLws =>
      if ch == SP || ch == HT then Go(f.(state := ValueDiscardWs), Silent) else Again(HeaderFlags(f).(state := HeaderFieldStart), Silent)
    case HeadersAlmostDone => HeadersEnd(f, ch)
    case HeadersDone => BodyBegin(f, ch)
    case BodyIdentity =>
      if f.length == 1 then Again(f.(length := 0, state := MessageDone), Tell(Byte(Body, ch)))
      else Go(f.(length := if f.length == 0 then NO_LENGTH else f.length - 1), Tell(Byte(Body, ch)))
    case MessageDone =>
      var complete := f.(state := NewMessage(f));
      if f.upgrade then Quit(complete, Tell(Notify(MessageComplete))) else Go(complete, Tell(Notify(MessageComplete)))
    case ChunkSizeStart =>
      if Unhex(ch) == -1 then Bad(InvalidChunkSize) else Go(f.(length := Unhex(ch), state := ChunkSize), Silent)
    case ChunkSize => ChunkDigit(f, ch)
    case ChunkParameters => if ch == CR then Go(f.(state := ChunkSizeAlmostDone), Silent) else Go(f, Silent)
    case ChunkSizeAlmostDone => ChunkSizeEnd(f, ch)
    case ChunkData =>
      Go(if f.length == 1 then f.(length := 0, state := ChunkDataAlmostDone)
           else f.(length := if f.length == 0 then NO_LENGTH else f.length - 1), Tell(Byte(Body, ch)))
    case ChunkDataAlmostDone => if ch != CR then Bad(Strict) else Go(f.(state := ChunkDataDone), Silent)
    case ChunkDataDone => if ch != LF then Bad(Strict) else Go(f.(state := ChunkSizeStart), Tell(Notify(ChunkComplete)))
  }

  /** A rank that every re-execution of a byte lowers. */
  function Rank(s: State): nat {
    match s
    case ValueLws => 5
    case ValueDiscardLws => 5
    case HeaderFieldStart => 4
    case HeadersAlmostDone => 3
    case HeadersDone => 2
    case HeaderValue => 2
    case BodyIdentity => 2
    case _ => 1
  }

  lemma AgainLowersRank(cfg: Config, f: Fields, ch: byte)
    requires One(cfg, f, ch).Again?
    ensures Rank(One(cfg, f, ch).f.state) < Rank(f.state)
  {
  }

  /** What a byte does. */
  datatype Effect = Next(f: Fields, out: seq<Token>) | Switch(f: Fields, out: seq<Token>) | Fail(error: Error)

  function Said(e: Emit): seq<Token> {
    if e.Tell? then [e.token] else []
  }

  function Prepended(out: seq<Token>, m: Effect): Effect {
    match m
    case Next(f, rest) => Next(f, out + rest)
    case Switch(f, rest) => Switch(f, out + rest)
    case Fail(_) => m
  }

  lemma PrependedTwice(a: seq<Token>, b: seq<Token>, m: Effect)
    ensures Prepended(a, Prepended(b, m)) == Prepended(a + b, m)
  {
    if !m.Fail? {
      assert a + (b + m.out) == a + b + m.out;
    }
  }

  /** What a byte does, with its re-executions. */
  function Exec(cfg: Config, f: Fields, ch: byte): Effect
    decreases Rank(f.state)
  {
    match One(cfg, f, ch)
    case Go(g, emit) => Next(g, Said(emit))
    case Quit(g, emit) => Switch(g, Said(emit))
    case Bad(error) => Fail(error)
    case Again(g, emit) =>
      AgainLowersRank(cfg, f, ch);
      Prepended(Said(emit), Exec(cfg, g, ch))
  }

  /** How far the bytes were taken, and why no further. */
  datatype Stop = More | Upgraded | Wrong(error: Error)
  datatype Outcome = Outcome(f: Fields, out: seq<Token>, read: nat, stop: Stop)

  function After(r: Outcome, m: Effect): Outcome {
    match m
    case Next(f, out) => Outcome(f, r.out + out, r.read + 1, More)
    case Switch(f, out) => Outcome(f, r.out + out, r.read + 1, Upgraded)
    case Fail(error) => Outcome(r.f, r.out, r.read, Wrong(error))
  }

  /** The machine fed some bytes, one at a time. */
  function Feed(cfg: Config, f: Fields, data: bytes): (r: Outcome)
    ensures r.read <= |data| && (r.stop.More? ==> r.read == |data|)
  {
    if data == [] then Outcome(f, [], 0, More)
    else
      var r := Feed(cfg, f, data[..|data| - 1]);
      if r.stop.More? then After(r, Exec(cfg, r.f, data[|data| - 1])) else r
  }
}
