/** What holds in every state the machine reaches, and what it delivers as a body. */
module HttpFraming {
  import opened Bytes
  import opened HttpMachine

  // ----- Reachable states -----

  /** The header states met while a name is read and until its value begins. */
  predicate NameState(h: HeaderState) {
    h.General? || h.C? || h.CO? || h.CON? || h.MatchingConnection? || h.MatchingProxyConnection? || h.MatchingContentLength?
    || h.MatchingTransferEncoding? || h.MatchingUpgrade? || h.Connection? || h.ContentLength? || h.TransferEncoding? || h.Upgrade?
  }

  /** The header states met from the first character of a value on. */
  predicate ValueState(h: HeaderState) {
    h.General? || h.ContentLength? || h.MatchingChunked? || h.TokenStart? || h.MatchingKeepAlive? || h.MatchingClose?
    || h.MatchingConnectionUpgrade? || h.ConnectionToken? || h.Chunked? || h.KeepAlive? || h.Close? || h.ConnectionUpgrade?
  }

  /** The parser's own assertions, and what they rest on. */
  predicate Sound(f: Fields) {
    && f.length <= NO_LENGTH
    && (f.flags.trailing ==> f.flags.chunked)
    && match f.state
       case HeaderField => NameState(f.header)
       case ValueDiscardWs => NameState(f.header)
       case ValueDiscardWsAlmostDone => NameState(f.header)
       case ValueDiscardLws => NameState(f.header)
       case ValueStart => InValueSound(f)
       case HeaderValue => InValueSound(f)
       case HeaderAlmostDone => InValueSound(f)
       case ValueLws => InValueSound(f)
       case ChunkSizeStart => f.flags.chunked
       case ChunkSize => f.flags.chunked && f.length != NO_LENGTH
       case ChunkParameters => f.flags.chunked && f.length != NO_LENGTH
       case ChunkSizeAlmostDone => f.flags.chunked && f.length != NO_LENGTH
       case ChunkData => f.flags.chunked && f.length != 0 && f.length != NO_LENGTH
       case ChunkDataAlmostDone => f.flags.chunked && f.length == 0
       case ChunkDataDone => f.flags.chunked
       case BodyIdentity => f.length != 0 && f.length != NO_LENGTH
       case _ => true
  }

  predicate InValueSound(f: Fields) {
    ValueState(f.header) && (f.header.ContentLength? ==> f.length != NO_LENGTH && f.flags.contentLength)
  }

  /** What leaves a state soundly. */
  predicate Leaves(m: Micro) {
    m.Bad? || Sound(m.f)
  }

  lemma MatchedKeeps(f: Fields, name: Name, c: byte, full: HeaderState, other: HeaderState)
    ensures var g := Matched(f, name, c, full, other);
      && g == f.(index := g.index, header := g.header) && (g.header == f.header || g.header == full || g.header == other)
  {
  }

  lemma NameKeeps(f: Fields, ch: byte)
    requires Sound(f) && f.state.HeaderField?
    ensures Leaves(InName(f, ch))
  {
    hide NameChar, NameSize;
  }

  lemma ValueFirstSound(f: Fields, ch: byte)
    requires Sound(f) && (NameState(f.header) || InValueSound(f))
    ensures Leaves(ValueFirst(f, ch))
  {
    hide Lower;
  }

  /** A digit that is accepted neither wraps the length nor makes it the sentinel. */
  lemma LengthDigitExact(f: Fields, ch: byte, emit: Emit)
    requires LengthDigit(f, ch, emit).Go? && ch != SP
    ensures IsNum(ch) && LengthDigit(f, ch, emit).f == f.(length := 10 * f.length + (ch - 48)) && 10 * f.length + (ch - 48) < NO_LENGTH
  {
  }

  lemma ChunkDigitExact(f: Fields, ch: byte)
    requires ChunkDigit(f, ch).Go? && Unhex(ch) != -1
    ensures ChunkDigit(f, ch).f == f.(length := 16 * f.length + Unhex(ch)) && 16 * f.length + Unhex(ch) < NO_LENGTH
  {
  }

  /** A step that leaves state, flags and length alone and stays among the states of a value. */
  lemma WithinValue(f: Fields, g: Fields)
    requires Sound(f) && f.state.HeaderValue?
    requires g == f.(index := g.index, header := g.header, flags := g.flags)
    requires ValueState(g.header) && (g.header.ContentLength? ==> f.header.ContentLength?)
    requires g.flags.trailing == f.flags.trailing && (f.flags.chunked ==> g.flags.chunked) && g.flags.contentLength == f.flags.contentLength
    ensures Sound(g)
  {
  }

  lemma MatchingSound(f: Fields, name: Name, c: byte, full: HeaderState, other: HeaderState)
    requires Sound(f) && f.state.HeaderValue? && ValueState(full) && ValueState(other) && !full.ContentLength? && !other.ContentLength?
    ensures Sound(Matched(f, name, c, full, other))
  {
    MatchedKeeps(f, name, c, full, other);
    WithinValue(f, Matched(f, name, c, full, other));
  }

  lemma LengthSound(f: Fields, ch: byte, emit: Emit)
    requires Sound(f) && f.state.HeaderValue? && f.header.ContentLength?
    ensures Leaves(LengthDigit(f, ch, emit))
  {
    if LengthDigit(f, ch, emit).Go? && ch != SP {
      LengthDigitExact(f, ch, emit);
    }
  }

  lemma WordEndSound(f: Fields, ch: byte)
    requires Sound(f) && f.state.HeaderValue?
    ensures Sound(WordEnd(f, ch))
  {
    var g := HeaderFlags(f);
    if ch == COMMA {
      WithinValue(f, g.(header := TokenStart, index := 0));
    } else if ch != SP {
      WithinValue(f, f.(header := ConnectionToken));
    }
  }

  lemma ValueNextSound(f: Fields, ch: byte)
    requires Sound(f) && f.state.HeaderValue?
    ensures Leaves(ValueNext(f, ch))
  {
    hide Matched, Lower, LengthDigit, WordEnd, Sound, TokenOf;
    var c := Lower(ch);
    match f.header
    case ContentLength => LengthSound(f, ch, Tell(Byte(Value, ch)));
    case MatchingChunked => MatchingSound(f, NameChunked, c, Chunked, General);
    case MatchingKeepAlive => MatchingSound(f, NameKeepAlive, c, KeepAlive, ConnectionToken);
    case MatchingClose => MatchingSound(f, NameClose, c, Close, ConnectionToken);
    case MatchingConnectionUpgrade => MatchingSound(f, NameUpgrade, c, ConnectionUpgrade, ConnectionToken);
    case KeepAlive => WordEndSound(f, ch);
    case Close => WordEndSound(f, ch);
    case ConnectionUpgrade => WordEndSound(f, ch);
    case TokenStart => WithinValue(f, ValueNext(f, ch).f);
    case ConnectionToken => WithinValue(f, ValueNext(f, ch).f);
    case _ => WithinValue(f, f.(header := General));
  }

  lemma ValueSound(cfg: Config, f: Fields, ch: byte)
    requires Sound(f) && f.state.HeaderValue?
    ensures Leaves(InValue(cfg, f, ch))
  {
    ValueNextSound(f, ch);
  }

  lemma LineSound(cfg: Config, f: Fields, inner: nat, ch: byte)
    requires f.length <= NO_LENGTH && (f.flags.trailing ==> f.flags.chunked)
    ensures Leaves(LineByte(cfg, f, inner, ch))
  {
  }

  lemma ChunkSound(f: Fields, ch: byte)
    requires Sound(f) && (f.state.ChunkSize? || f.state.ChunkSizeAlmostDone?)
    ensures f.state.ChunkSize? ==> Leaves(ChunkDigit(f, ch))
    ensures f.state.ChunkSizeAlmostDone? ==> Leaves(ChunkSizeEnd(f, ch))
  {
  }

  lemma NameStepSound(cfg: Config, f: Fields, ch: byte)
    requires Sound(f) && (f.state.HeaderFieldStart? || f.state.HeaderField? || f.state.Dead? || f.state.StartReq? || f.state.Line?)
    ensures Leaves(One(cfg, f, ch))
  {
    match f.state
    case StartReq => LineSound(cfg, f.(flags := NO_FLAGS, length := NO_LENGTH), 0, ch);
    case Line(inner) => LineSound(cfg, f, inner, ch);
    case HeaderField => NameKeeps(f, ch);
    case _ =>
  }

  /** A finished value leads back to where a header name begins. */
  lemma ValueEndSound(f: Fields)
    requires Sound(f)
    ensures Sound(HeaderFlags(f).(state := HeaderFieldStart))
  {
  }

  lemma ValueStepSound(cfg: Config, f: Fields, ch: byte)
    requires Sound(f) && (f.state.ValueDiscardWs? || f.state.ValueDiscardWsAlmostDone? || f.state.ValueDiscardLws? || f.state.ValueStart?
                          || f.state.HeaderValue? || f.state.HeaderAlmostDone? || f.state.ValueLws?)
    ensures Leaves(One(cfg, f, ch))
  {
    match f.state
    case ValueDiscardWs => ValueFirstSound(f, ch);
    case ValueStart => ValueFirstSound(f, ch);
    case HeaderValue => ValueSound(cfg, f, ch);
    case ValueLws => ValueEndSound(f);
    case ValueDiscardLws => ValueEndSound(f);
    case _ =>
  }

  lemma ChunkStepSound(cfg: Config, f: Fields, ch: byte)
    requires Sound(f) && (f.state.ChunkSizeStart? || f.state.ChunkSize? || f.state.ChunkParameters? || f.state.ChunkSizeAlmostDone?
                          || f.state.HeadersAlmostDone? || f.state.HeadersDone?)
    ensures Leaves(One(cfg, f, ch))
  {
    if f.state.ChunkSize? || f.state.ChunkSizeAlmostDone? {
      ChunkSound(f, ch);
    }
  }

  lemma BodyStepSound(cfg: Config, f: Fields, ch: byte)
    requires Sound(f) && !ParsingHeader(f.state)
    ensures Leaves(One(cfg, f, ch))
  {
  }

  lemma OneSound(cfg: Config, f: Fields, ch: byte)
    requires Sound(f)
    ensures Leaves(One(cfg, f, ch))
  {
    var s := f.state;
    if !ParsingHeader(s) {
      BodyStepSound(cfg, f, ch);
    } else if s.HeaderFieldStart? || s.HeaderField? || s.Dead? || s.StartReq? || s.Line? {
      NameStepSound(cfg, f, ch);
    } else if s.ChunkSizeStart? || s.ChunkSize? || s.ChunkParameters? || s.ChunkSizeAlmostDone? || s.HeadersAlmostDone? || s.HeadersDone? {
      ChunkStepSound(cfg, f, ch);
    } else {
      ValueStepSound(cfg, f, ch);
    }
  }

  lemma {:induction false} ExecSound(cfg: Config, f: Fields, ch: byte)
    requires Sound(f)
    ensures !Exec(cfg, f, ch).Fail? ==> Sound(Exec(cfg, f, ch).f)
    decreases Rank(f.state)
  {
    OneSound(cfg, f, ch);
    var m := One(cfg, f, ch);
    if m.Again? {
      AgainLowersRank(cfg, f, ch);
      ExecSound(cfg, m.f, ch);
    }
  }

  /** The parser as `http_parser_init` leaves it for a request. */
  const INITIAL := Fields(StartReq, General, 0, NO_FLAGS, 0, 0, 0, false, false)

  /** The parser's assertions hold in every state reached from the initial one, whatever the bytes. */
  lemma {:induction false} ReachableIsSound(cfg: Config, data: bytes)
    ensures Sound(Feed(cfg, INITIAL, data).f)
  {
    if data != [] {
      ReachableIsSound(cfg, data[..|data| - 1]);
      ExecSound(cfg, Feed(cfg, INITIAL, data[..|data| - 1]).f, data[|data| - 1]);
    }
  }

  /** And from any sound state. */
  lemma {:induction false} FeedSound(cfg: Config, f: Fields, data: bytes)
    requires Sound(f)
    ensures Sound(Feed(cfg, f, data).f)
  {
    if data != [] {
      FeedSound(cfg, f, data[..|data| - 1]);
      ExecSound(cfg, Feed(cfg, f, data[..|data| - 1]).f, data[|data| - 1]);
    }
  }
}
