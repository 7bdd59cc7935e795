/** A call of `http_parser_execute` in progress, against the machine that takes one byte at a time. */
module HttpBulk {
  import opened Bytes
  import opened Sequences
  import opened HttpMachine
  import opened HttpFraming
  import opened HttpBody

  /** What a call started from, and what the machine makes of its data, byte by byte. */
  datatype Call = Call(cfg: Config, f: Fields, told: seq<Token>, nread: nat, data: bytes, run: nat -> Outcome)

  /** Marks a place at which the machine is looked up; elsewhere its steps need not be known. */
  predicate Look(p: nat) {
    true
  }

  /** `run` is the machine, fed the first bytes of the data; it may let any byte stand in a header value. */
  ghost predicate Linked(c: Call) {
    forall p: nat {:trigger Look(p)} :: Look(p) && p <= |c.data| ==> c.run(p) == Feed(Lenient(c.cfg), c.f, c.data[..p])
  }

  lemma RunIs(c: Call, p: nat)
    requires Linked(c) && p <= |c.data|
    ensures c.run(p) == Feed(Lenient(c.cfg), c.f, c.data[..p])
  {
    assert Look(p);
  }

  lemma RunEnds(c: Call)
    requires Linked(c)
    ensures c.run(|c.data|) == Feed(Lenient(c.cfg), c.f, c.data)
  {
    RunIs(c, |c.data|);
    Whole(c.data);
  }

  /** Where the data not yet handed to a callback begins. */
  datatype Marks = Marks(field: Option<nat>, value: Option<nat>, body: Option<nat>)

  const NO_MARKS := Marks(None, None, None)

  function Lenient(cfg: Config): Config {
    cfg.(lenient := true)
  }

  /** The states in which a visit takes one byte and no data is pending. */
  predicate Plain(s: State) {
    !s.HeaderField? && !s.HeaderValue? && !s.BodyIdentity? && !s.ChunkData? && !s.ChunkDataAlmostDone?
  }

  function Slice(data: bytes, mark: Option<nat>, p: nat): (r: bytes)
  {
    if mark.Some? && mark.value <= p <= |data| then data[mark.value..p] else []
  }

  /** The data marked and not yet handed over. */
  function Pending(data: bytes, m: Marks, p: nat): seq<Token> {
    Tokens(Field, Slice(data, m.field, p)) + Tokens(Value, Slice(data, m.value, p)) + Tokens(Body, Slice(data, m.body, p))
  }

  /** The marks go with the state: at most one is set, and a body only waits for the end of its chunk. */
  predicate MarksOk(s: State, m: Marks, p: nat, size: nat) {
    && (m.field.Some? <==> s.HeaderField?) && (m.field.Some? ==> m.field.value <= p)
    && (m.value.Some? <==> s.HeaderValue?) && (m.value.Some? ==> m.value.value <= p)
    && (m.body.Some? ==> m.body.value <= p && (s.ChunkDataAlmostDone? || (p == size && (s.BodyIdentity? || s.ChunkData?))))
  }

  lemma AtMostOneMark(s: State, m: Marks, p: nat, size: nat)
    requires MarksOk(s, m, p, size)
    ensures (if m.field.Some? then 1 else 0) + (if m.value.Some? then 1 else 0) + (if m.body.Some? then 1 else 0) <= 1
  {
  }

  /** The machine, fed the first `p` bytes, is in `f` and has told what has been told or is pending. */
  ghost predicate Reads(c: Call, p: nat, f: Fields, all: seq<Token>) {
    && Linked(c) && p <= |c.data|
    && c.run(p).stop.More? && c.run(p).f == f && all == c.told + c.run(p).out
  }

  /** A call that has come to byte `p`, as far as the machine goes. */
  ghost predicate Scan(c: Call, p: nat, f: Fields, told: seq<Token>, m: Marks) {
    && Reads(c, p, f, told + Pending(c.data, m, p))
    && MarksOk(f.state, m, p, |c.data|) && Sound(f)
  }

  /** And with the count of header bytes. */
  ghost predicate At(c: Call, p: nat, f: Fields, told: seq<Token>, m: Marks, nread: nat) {
    && Scan(c, p, f, told, m)
    && nread <= c.nread + p + (if p == |c.data| then 1 else 0)
    && (f.state.ChunkSizeStart? ==> nread == 0)
  }

  // ----- Strict and lenient -----

  lemma {:induction false} ExecLenient(cfg: Config, f: Fields, ch: byte)
    ensures !Exec(cfg, f, ch).Fail? || Plain(f.state) ==> Exec(Lenient(cfg), f, ch) == Exec(cfg, f, ch)
    decreases Rank(f.state)
  {
    var m := One(cfg, f, ch);
    if m.Again? {
      AgainLowersRank(cfg, f, ch);
      AgainIsPlain(cfg, f, ch);
      ExecLenient(cfg, m.f, ch);
    }
  }

  lemma OneLenient(cfg: Config, f: Fields, ch: byte)
    requires !f.state.HeaderValue?
    ensures One(Lenient(cfg), f, ch) == One(cfg, f, ch)
  {
    match f.state
    case StartReq =>
    case Line(_) =>
    case _ =>
  }

  lemma AgainIsPlain(cfg: Config, f: Fields, ch: byte)
    requires One(cfg, f, ch).Again?
    ensures Plain(One(cfg, f, ch).f.state) && One(Lenient(cfg), f, ch) == One(cfg, f, ch)
  {
    if !f.state.HeaderValue? {
      OneLenient(cfg, f, ch);
      AgainTo(cfg, f, ch);
    }
  }

  lemma AgainTo(cfg: Config, f: Fields, ch: byte)
    requires One(cfg, f, ch).Again? && !f.state.HeaderValue?
    ensures Plain(One(cfg, f, ch).f.state)
  {
    hide Matched, NameFirst, NameNext, ConnectionWord, WordEnd, HeaderFlags, Lower, TokenOf, Unhex, KeepsAlive;
  }

  /** What the strict machine accepts, the lenient one accepts in the same way. */
  lemma {:induction false} FeedLenient(cfg: Config, f: Fields, data: bytes)
    requires !Feed(cfg, f, data).stop.Wrong?
    ensures Feed(Lenient(cfg), f, data) == Feed(cfg, f, data)
  {
    if data != [] {
      var n := |data| - 1;
      FeedLenient(cfg, f, data[..n]);
      ExecLenient(cfg, Feed(cfg, f, data[..n]).f, data[n]);
    }
  }

  // ----- Which bytes of a value are checked -----

  /** The parser before byte `i`. */
  ghost function Before(c: Call, i: nat): Fields
    requires i <= |c.data|
  {
    c.run(i).f
  }

  /** In a value that means nothing, from where the rest of the value is skipped. */
  predicate Skips(f: Fields) {
    f.state.HeaderValue? && f.header.General?
  }

  /** The byte is not one that an earlier byte of the call lets the parser skip. */
  ghost predicate Fresh(c: Call, i: nat) {
    i <= |c.data| && (i == 0 || !Skips(Before(c, i - 1)))
  }

  /** A byte of a header value that is looked at and is not a header character. */
  ghost predicate BadCheck(c: Call, i: nat) {
    && !c.cfg.lenient && i < |c.data| && !IsHeaderChar(c.data[i])
    && c.run(i).stop.More? && Before(c, i).state.HeaderValue? && Fresh(c, i)
  }

  /** A call refuses its data if the machine does, or a byte that is looked at is not a header character. */
  ghost predicate Rejects(c: Call) {
    c.run(|c.data|).stop.Wrong? || exists i: nat :: BadCheck(c, i)
  }

  /** No byte before `p` was refused. */
  ghost predicate Clean(c: Call, p: nat) {
    p == 0 || (Clean(c, p - 1) && !BadCheck(c, p - 1))
  }

  lemma {:induction false} CleanAt(c: Call, p: nat, i: nat)
    requires Clean(c, p) && i < p
    ensures !BadCheck(c, i)
  {
    if i < p - 1 {
      CleanAt(c, p - 1, i);
    }
  }

  lemma FeedWrong(cfg: Config, f: Fields, data: bytes, p: nat)
    requires p <= |data| && Feed(cfg, f, data[..p]).stop.Wrong?
    ensures Feed(cfg, f, data).stop.Wrong?
  {
    Halves(data, p);
    FeedStops(cfg, f, data[..p], data[p..]);
  }

  lemma FeedWrongAt(cfg: Config, f: Fields, data: bytes, p: nat)
    requires p < |data| && Feed(cfg, f, data[..p]).stop.More? && Exec(cfg, Feed(cfg, f, data[..p]).f, data[p]).Fail?
    ensures Feed(cfg, f, data).stop.Wrong?
  {
    FeedSnoc(cfg, f, data[..p], data[p]);
    Snoc(data, p);
    FeedWrong(cfg, f, data, p + 1);
  }

  /** A byte on which the machine fails where the call has come to. */
  lemma FailRejects(c: Call, p: nat, f: Fields, all: seq<Token>)
    requires Reads(c, p, f, all) && p < |c.data| && Exec(Lenient(c.cfg), f, c.data[p]).Fail?
    ensures Rejects(c)
  {
    RunIs(c, p);
    RunEnds(c);
    FeedWrongAt(Lenient(c.cfg), c.f, c.data, p);
  }

  /** Data that the strict machine accepts is not refused. */
  lemma StrictIsNotRejected(c: Call)
    requires Linked(c) && !Feed(c.cfg, c.f, c.data).stop.Wrong?
    ensures !Rejects(c)
  {
    RunEnds(c);
    FeedLenient(c.cfg, c.f, c.data);
    forall i: nat ensures !BadCheck(c, i) {
      if BadCheck(c, i) {
        BadCheckIsWrong(c, i);
      }
    }
  }

  lemma BadCheckIsWrong(c: Call, i: nat)
    requires Linked(c) && BadCheck(c, i)
    ensures Feed(c.cfg, c.f, c.data).stop.Wrong?
  {
    RunIs(c, i);
    if Feed(c.cfg, c.f, c.data[..i]).stop.Wrong? {
      FeedWrong(c.cfg, c.f, c.data, i);
    } else {
      FeedLenient(c.cfg, c.f, c.data[..i]);
      FeedWrongAt(c.cfg, c.f, c.data, i);
    }
  }

  // ----- Going on -----

  /** The bytes from `p` to `q` are what the machine does next. */
  lemma ReadsOn(c: Call, p: nat, q: nat, f: Fields, all: seq<Token>, r: Outcome)
    requires Reads(c, p, f, all) && p <= q <= |c.data|
    requires Feed(Lenient(c.cfg), f, c.data[p..q]) == r && r.stop.More?
    ensures Reads(c, q, r.f, all + r.out)
  {
    OutcomeOn(c, p, q, f, all, r);
    Assoc(c.told, c.run(p).out, r.out);
  }

  lemma ByteRuns(c: Call, p: nat, f: Fields, all: seq<Token>)
    requires Reads(c, p, f, all) && p < |c.data|
    ensures c.run(p + 1) == After(c.run(p), Exec(Lenient(c.cfg), f, c.data[p])) && c.run(p).read == p
  {
    RunIs(c, p);
    RunIs(c, p + 1);
    Snoc(c.data, p);
    FeedSnoc(Lenient(c.cfg), c.f, c.data[..p], c.data[p]);
  }

  lemma ReadsByte(c: Call, p: nat, f: Fields, all: seq<Token>, g: Fields, out: seq<Token>)
    requires Reads(c, p, f, all) && p < |c.data| && Exec(Lenient(c.cfg), f, c.data[p]) == Next(g, out)
    ensures Reads(c, p + 1, g, all + out)
  {
    ByteRuns(c, p, f, all);
    Assoc(c.told, c.run(p).out, out);
  }

  // ----- Header names -----

  lemma PendingField(data: bytes, m: Marks, p: nat)
    requires m.field.Some? && m.value.None? && m.body.None? && m.field.value <= p < |data|
    ensures Pending(data, m, p + 1) == Pending(data, m, p) + [Byte(Field, data[p])]
  {
    assert data[m.field.value..p + 1] == data[m.field.value..p] + [data[p]];
    TokensSnoc(Field, data[m.field.value..p], data[p]);
  }

  lemma NameByte(c: Call, p: nat, f: Fields, told: seq<Token>, m: Marks)
    requires Scan(c, p, f, told, m) && p < |c.data| && f.state.HeaderField? && TokenOf(c.data[p]) != 0
    ensures Scan(c, p + 1, NameNext(f, TokenOf(c.data[p])), told, m)
  {
    var g := NameNext(f, TokenOf(c.data[p]));
    NameKeeps(f, c.data[p]);
    NameStays(f, TokenOf(c.data[p]));
    assert Exec(Lenient(c.cfg), f, c.data[p]) == Next(g, [Byte(Field, c.data[p])]);
    ReadsByte(c, p, f, told + Pending(c.data, m, p), g, [Byte(Field, c.data[p])]);
    PendingField(c.data, m, p);
    Assoc(told, Pending(c.data, m, p), [Byte(Field, c.data[p])]);
  }

  lemma NameStays(f: Fields, c: byte)
    ensures NameNext(f, c).state == f.state
  {
  }

  lemma NothingPending(data: bytes, p: nat)
    ensures Pending(data, NO_MARKS, p) == []
  {
  }

  /** The colon: the name is handed over. */
  lemma NameEnd(c: Call, p: nat, f: Fields, told: seq<Token>, m: Marks)
    requires Scan(c, p, f, told, m) && p < |c.data| && f.state.HeaderField? && c.data[p] == COLON
    ensures Scan(c, p + 1, f.(state := ValueDiscardWs), told + Pending(c.data, m, p), NO_MARKS)
  {
    var g := f.(state := ValueDiscardWs);
    assert Exec(Lenient(c.cfg), f, c.data[p]) == Next(g, []);
    ReadsByte(c, p, f, told + Pending(c.data, m, p), g, []);
    NothingPending(c.data, p + 1);
    Unit(told + Pending(c.data, m, p));
  }

  lemma NameFails(c: Call, p: nat, f: Fields, told: seq<Token>, m: Marks)
    requires Scan(c, p, f, told, m) && p < |c.data| && f.state.HeaderField? && c.data[p] != COLON && TokenOf(c.data[p]) == 0
    ensures Rejects(c)
  {
    FailRejects(c, p, f, told + Pending(c.data, m, p));
  }

  lemma OneToken(kind: Kind, data: bytes, p: nat)
    requires p < |data|
    ensures Tokens(kind, data[p..p + 1]) == [Byte(kind, data[p])]
  {
  }

  // ----- Header values -----

  lemma PendingValue(data: bytes, m: Marks, p: nat, q: nat)
    requires m.value.Some? && m.field.None? && m.body.None? && m.value.value <= p <= q <= |data|
    ensures Pending(data, m, q) == Pending(data, m, p) + Tokens(Value, data[p..q])
  {
    assert data[m.value.value..q] == data[m.value.value..p] + data[p..q];
    assert Tokens(Value, data[m.value.value..q]) == Tokens(Value, data[m.value.value..p]) + Tokens(Value, data[p..q]);
  }

  lemma ValueStays(f: Fields, ch: byte)
    ensures var m := ValueNext(f, ch); m.Bad? || (m.Go? && m.f.state == f.state && m.emit == Tell(Byte(Value, ch)))
  {
  }

  lemma ValueByte(c: Call, p: nat, f: Fields, told: seq<Token>, m: Marks)
    requires Scan(c, p, f, told, m) && p < |c.data| && f.state.HeaderValue? && c.data[p] != CR && c.data[p] != LF
    requires ValueNext(f, c.data[p]).Go?
    ensures Scan(c, p + 1, ValueNext(f, c.data[p]).f, told, m)
  {
    var ch := c.data[p];
    var g := ValueNext(f, ch).f;
    ValueNextSound(f, ch);
    ValueStays(f, ch);
    assert Exec(Lenient(c.cfg), f, ch) == Next(g, [Byte(Value, ch)]);
    ReadsByte(c, p, f, told + Pending(c.data, m, p), g, [Byte(Value, ch)]);
    PendingValue(c.data, m, p, p + 1);
    OneToken(Value, c.data, p);
    Assoc(told, Pending(c.data, m, p), [Byte(Value, ch)]);
  }

  lemma ValueFails(c: Call, p: nat, f: Fields, told: seq<Token>, m: Marks)
    requires Scan(c, p, f, told, m) && p < |c.data| && f.state.HeaderValue? && c.data[p] != CR && c.data[p] != LF
    requires ValueNext(f, c.data[p]).Bad?
    ensures Rejects(c)
  {
    FailRejects(c, p, f, told + Pending(c.data, m, p));
  }

  lemma CheckFails(c: Call, p: nat, f: Fields, told: seq<Token>, m: Marks)
    requires Scan(c, p, f, told, m) && p < |c.data| && f.state.HeaderValue? && Fresh(c, p)
    requires !c.cfg.lenient && !IsHeaderChar(c.data[p])
    ensures Rejects(c)
  {
    assert BadCheck(c, p);
  }

  /** In a value that means nothing to the parser, every byte up to the next CR or LF is just data. */
  lemma {:induction false} GeneralRun(cfg: Config, f: Fields, text: bytes)
    requires f.state.HeaderValue? && f.header.General? && CR !in text && LF !in text
    ensures Feed(Lenient(cfg), f, text) == Outcome(f, Tokens(Value, text), |text|, More)
  {
    hide Exec;
    if text != [] {
      var n := |text| - 1;
      GeneralRun(cfg, f, text[..n]);
      assert text[n] in text;
      GeneralByte(cfg, f, text[n]);
      FeedOneMore(Lenient(cfg), f, text, f, Value, f);
    }
  }

  lemma GeneralByte(cfg: Config, f: Fields, ch: byte)
    requires f.state.HeaderValue? && f.header.General? && ch != CR && ch != LF
    ensures Exec(Lenient(cfg), f, ch) == Next(f, [Byte(Value, ch)])
  {
  }

  lemma ValueSkip(c: Call, p: nat, q: nat, f: Fields, told: seq<Token>, m: Marks)
    requires Scan(c, p, f, told, m) && p <= q <= |c.data| && f.state.HeaderValue? && f.header.General?
    requires CR !in c.data[p..q] && LF !in c.data[p..q]
    ensures Scan(c, q, f, told, m)
  {
    GeneralRun(c.cfg, f, c.data[p..q]);
    ReadsOn(c, p, q, f, told + Pending(c.data, m, p), Outcome(f, Tokens(Value, c.data[p..q]), q - p, More));
    PendingValue(c.data, m, p, q);
    Assoc(told, Pending(c.data, m, p), Tokens(Value, c.data[p..q]));
  }

  /** CR or LF: the value is handed over. */
  lemma ValueEnd(c: Call, p: nat, f: Fields, told: seq<Token>, m: Marks)
    requires Scan(c, p, f, told, m) && p < |c.data| && f.state.HeaderValue? && (c.data[p] == CR || c.data[p] == LF)
    ensures Scan(c, p + 1, f.(state := if c.data[p] == CR then HeaderAlmostDone else ValueLws), told + Pending(c.data, m, p), NO_MARKS)
  {
    var g := f.(state := if c.data[p] == CR then HeaderAlmostDone else ValueLws);
    ValueEndByte(Lenient(c.cfg), f, c.data[p]);
    ReadsByte(c, p, f, told + Pending(c.data, m, p), g, []);
    NothingPending(c.data, p + 1);
    Unit(told + Pending(c.data, m, p));
  }

  lemma ValueEndByte(cfg: Config, f: Fields, ch: byte)
    requires f.state.HeaderValue? && (ch == CR || ch == LF)
    ensures Exec(cfg, f, ch) == Next(f.(state := if ch == CR then HeaderAlmostDone else ValueLws), [])
  {
    if ch == LF {
      var g := f.(state := HeaderAlmostDone);
      assert One(cfg, f, ch) == Again(g, Silent);
      assert One(cfg, g, ch) == Go(f.(state := ValueLws), Silent);
    }
  }

  // ----- States that take one byte -----

  /** The states that start the count of header bytes anew. */
  predicate Resets(s: State) {
    s.HeadersDone? || s.ChunkSizeAlmostDone? || s.ChunkDataDone?
  }

  /** Where a visit leads from a plain state. */
  lemma PlainLeads(cfg: Config, f: Fields, ch: byte)
    requires Plain(f.state) && One(cfg, f, ch).Go?
    ensures var m := One(cfg, f, ch);
      && (m.f.state.HeaderField? ==> m.emit == Tell(Byte(Field, ch)))
      && (m.f.state.HeaderValue? ==> m.emit == Tell(Byte(Value, ch)))
      && (m.f.state.ChunkSizeStart? ==> Resets(f.state))
  {
    match f.state
    case StartReq =>
    case Line(_) =>
    case ValueDiscardWs => ValueFirstLeads(f, ch);
    case ValueStart => ValueFirstLeads(f, ch);
    case _ =>
  }

  lemma ValueFirstLeads(f: Fields, ch: byte)
    ensures ValueFirst(f, ch).Go? ==> ValueFirst(f, ch).f.state.HeaderValue? && ValueFirst(f, ch).emit == Tell(Byte(Value, ch))
  {
  }

  lemma PlainReads(c: Call, p: nat, f: Fields, told: seq<Token>, g: Fields, out: seq<Token>)
    requires Scan(c, p, f, told, NO_MARKS) && p < |c.data| && Plain(f.state) && Exec(c.cfg, f, c.data[p]) == Next(g, out)
    ensures Reads(c, p + 1, g, told + out) && Sound(g)
  {
    ExecLenient(c.cfg, f, c.data[p]);
    ExecSound(c.cfg, f, c.data[p]);
    NothingPending(c.data, p);
    Unit(told);
    ReadsByte(c, p, f, told, g, out);
  }

  /** The marks after a byte that leads to `g`. */
  function MarksAfter(g: State, p: nat): Marks {
    if g.HeaderField? then Marks(Some(p), None, None) else if g.HeaderValue? then Marks(None, Some(p), None) else NO_MARKS
  }

  /** Which of the tokens of the last visit have been handed over: not those of a byte just marked. */
  function Handed(g: State, out: seq<Token>): seq<Token> {
    if g.HeaderField? || g.HeaderValue? then [] else out
  }

  lemma JustMarked(data: bytes, p: nat, g: State, out: seq<Token>)
    requires p < |data|
    requires g.HeaderField? ==> out == [Byte(Field, data[p])]
    requires g.HeaderValue? ==> out == [Byte(Value, data[p])]
    ensures Handed(g, out) + Pending(data, MarksAfter(g, p), p + 1) == out
    ensures MarksOk(g, MarksAfter(g, p), p + 1, |data|)
  {
    assert data[p..p + 1] == [data[p]];
  }

  /** A byte read in plain states, through `sofar` and a last visit that told `out`. */
  lemma PlainByte(c: Call, p: nat, f: Fields, told: seq<Token>, sofar: seq<Token>, g: Fields, out: seq<Token>)
    requires Scan(c, p, f, told, NO_MARKS) && p < |c.data| && Plain(f.state) && Exec(c.cfg, f, c.data[p]) == Next(g, sofar + out)
    requires g.state.HeaderField? ==> out == [Byte(Field, c.data[p])]
    requires g.state.HeaderValue? ==> out == [Byte(Value, c.data[p])]
    ensures Scan(c, p + 1, g, told + sofar + Handed(g.state, out), MarksAfter(g.state, p))
  {
    PlainReads(c, p, f, told, g, sofar + out);
    JustMarked(c.data, p, g.state, out);
    Assoc(told, sofar, out);
    Assoc(told + sofar, Handed(g.state, out), Pending(c.data, MarksAfter(g.state, p), p + 1));
  }

  // ----- Endings -----

  /** The call is over without an error, and has done what the machine does. */
  ghost predicate Ended(c: Call, n: nat, f: Fields, told: seq<Token>) {
    var r := c.run(|c.data|);
    && !r.stop.Wrong? && r.read == n && r.f == f && told == c.told + r.out && Sound(f)
    && n <= |c.data| && (n == |c.data| || c.run(n).stop.Upgraded?)
  }

  lemma StaysStopped(c: Call, p: nat, q: nat)
    requires Linked(c) && p <= q <= |c.data| && !c.run(p).stop.More?
    ensures c.run(q) == c.run(p)
  {
    RunIs(c, p);
    RunIs(c, q);
    Joins(c.data, p, q);
    FeedStops(Lenient(c.cfg), c.f, c.data[..p], c.data[p..q]);
  }

  lemma StoppedEnds(c: Call, q: nat, r: Outcome, told: seq<Token>)
    requires Linked(c) && q <= |c.data| && c.run(q) == r && r.stop.Upgraded? && r.read == q && Sound(r.f)
    requires told == c.told + r.out
    ensures Ended(c, q, r.f, told)
  {
    StaysStopped(c, q, |c.data|);
  }

  lemma SwitchEnds(c: Call, p: nat, f: Fields, all: seq<Token>, g: Fields, out: seq<Token>)
    requires Reads(c, p, f, all) && Sound(g) && p < |c.data| && Exec(Lenient(c.cfg), f, c.data[p]) == Switch(g, out)
    ensures Ended(c, p + 1, g, all + out)
  {
    ByteRuns(c, p, f, all);
    Assoc(c.told, c.run(p).out, out);
    StoppedEnds(c, p + 1, c.run(p + 1), all + out);
  }

  lemma FreshBehind(c: Call, p: nat, f: Fields, all: seq<Token>)
    requires Reads(c, p, f, all) && p < |c.data| && !Skips(f)
    ensures Fresh(c, p + 1)
  {
  }

  lemma SwitchTo(cfg: Config, f: Fields, ch: byte)
    requires One(cfg, f, ch).Quit?
    ensures !One(cfg, f, ch).f.state.ChunkSizeStart?
  {
  }

  /** The byte that ends the message and the connection's use of HTTP. */
  lemma SwitchByte(c: Call, p: nat, f: Fields, told: seq<Token>, sofar: seq<Token>, g: Fields, out: seq<Token>)
    requires Scan(c, p, f, told, NO_MARKS) && p < |c.data| && Plain(f.state) && Exec(c.cfg, f, c.data[p]) == Switch(g, sofar + out)
    ensures Ended(c, p + 1, g, told + sofar + out)
  {
    ExecLenient(c.cfg, f, c.data[p]);
    ExecSound(c.cfg, f, c.data[p]);
    NothingPending(c.data, p);
    Unit(told);
    SwitchEnds(c, p, f, told, g, sofar + out);
    Assoc(told, sofar, out);
  }

  /** At the end of the data what is pending is handed over. */
  lemma DataEnds(c: Call, f: Fields, told: seq<Token>, m: Marks)
    requires Scan(c, |c.data|, f, told, m)
    ensures Ended(c, |c.data|, f, told + Pending(c.data, m, |c.data|))
  {
    RunEnds(c);
  }

  // ----- Bodies -----

  function BodyMark(p: nat): Marks {
    Marks(None, None, Some(p))
  }

  lemma PendingBody(data: bytes, p: nat, q: nat)
    requires p <= q <= |data|
    ensures Pending(data, BodyMark(p), q) == Tokens(Body, data[p..q])
  {
  }

  /** The rest of the data is body, and there is more to come. */
  lemma BodyGoesOn(c: Call, p: nat, f: Fields, told: seq<Token>)
    requires Scan(c, p, f, told, NO_MARKS) && f.state.BodyIdentity? && |c.data| - p < f.length
    ensures Scan(c, |c.data|, f.(length := f.length - (|c.data| - p)), told, BodyMark(p))
  {
    var q := |c.data|;
    BodyPart(Lenient(c.cfg), f, c.data[p..q]);
    NothingPending(c.data, p);
    Unit(told);
    ReadsOn(c, p, q, f, told, Outcome(f.(length := f.length - (q - p)), Tokens(Body, c.data[p..q]), q - p, More));
    PendingBody(c.data, p, q);
  }

  /** The body ends within the data: it is handed over, and the message is complete. */
  lemma BodyEnds(c: Call, p: nat, f: Fields, told: seq<Token>)
    requires Scan(c, p, f, told, NO_MARKS) && f.state.BodyIdentity? && f.length <= |c.data| - p && !f.upgrade
    ensures var q := p + f.length;
      Scan(c, q, BodyAfter(f), told + Tokens(Body, c.data[p..q]) + [Notify(MessageComplete)], NO_MARKS)
  {
    var q := p + f.length;
    BodyAfterSound(f);
    NothingPending(c.data, p);
    Unit(told);
    BodyReads(c, p, f, told);
    NothingPending(c.data, q);
    Assoc(told, Tokens(Body, c.data[p..q]), [Notify(MessageComplete)]);
    var all := told + Tokens(Body, c.data[p..q]) + [Notify(MessageComplete)];
    Unit(all);
  }

  lemma BodyEndsUpgraded(c: Call, p: nat, f: Fields, told: seq<Token>)
    requires Scan(c, p, f, told, NO_MARKS) && f.state.BodyIdentity? && f.length <= |c.data| - p && f.upgrade
    ensures var q := p + f.length;
      Ended(c, q, BodyAfter(f), told + Tokens(Body, c.data[p..q]) + [Notify(MessageComplete)])
  {
    hide Feed, Exec, Reads, Ended, Tokens;
    var q, body := p + f.length, Tokens(Body, c.data[p..p + f.length]);
    var r := Outcome(BodyAfter(f), body + [Notify(MessageComplete)], f.length, Upgraded);
    NothingPending(c.data, p);
    Unit(told);
    BodyAfterSound(f);
    BodyWhole(Lenient(c.cfg), f, c.data[p..q]);
    OutcomeEnds(c, p, q, f, told, r);
    Assoc(told, body, [Notify(MessageComplete)]);
  }

  lemma OutcomeEnds(c: Call, p: nat, q: nat, f: Fields, all: seq<Token>, r: Outcome)
    requires Reads(c, p, f, all) && p <= q <= |c.data| && Feed(Lenient(c.cfg), f, c.data[p..q]) == r
    requires r.stop.Upgraded? && r.read == q - p && Sound(r.f)
    ensures Ended(c, q, r.f, all + r.out)
  {
    OutcomeOn(c, p, q, f, all, r);
    Assoc(c.told, c.run(p).out, r.out);
    StoppedEnds(c, q, c.run(q), all + r.out);
  }

  lemma OutcomeOn(c: Call, p: nat, q: nat, f: Fields, all: seq<Token>, r: Outcome)
    requires Reads(c, p, f, all) && p <= q <= |c.data| && Feed(Lenient(c.cfg), f, c.data[p..q]) == r
    ensures c.run(q) == Then(c.run(p), r) && c.run(p).read == p
  {
    RunIs(c, p);
    RunIs(c, q);
    Joins(c.data, p, q);
    FeedAppend(Lenient(c.cfg), c.f, c.data[..p], c.data[p..q]);
  }

  /** The assertions of the body states. */
  lemma BodyAsserts(f: Fields)
    requires Sound(f)
    ensures f.state.BodyIdentity? ==> f.length != 0 && f.length != NO_LENGTH
    ensures f.state.ChunkData? ==> f.flags.chunked && f.length != 0 && f.length != NO_LENGTH
    ensures f.state.ChunkDataAlmostDone? ==> f.flags.chunked && f.length == 0
  {
  }

  /** Data of a chunk, up to the end of the chunk or of the data. */
  lemma ChunkGoesOn(c: Call, p: nat, f: Fields, told: seq<Token>, k: nat)
    requires Scan(c, p, f, told, NO_MARKS) && f.state.ChunkData? && p < |c.data| && k == Min(f.length, |c.data| - p)
    ensures Scan(c, p + k, ChunkAfter(f, k), told, BodyMark(p))
  {
    ChunkAfterSound(f, k);
    NothingPending(c.data, p);
    Unit(told);
    ChunkReads(c, p, f, told, k);
    PendingBody(c.data, p, p + k);
  }

  lemma ChunkReads(c: Call, p: nat, f: Fields, all: seq<Token>, k: nat)
    requires Reads(c, p, f, all) && f.state.ChunkData? && 0 < f.length && k <= f.length && p + k <= |c.data|
    ensures Reads(c, p + k, ChunkAfter(f, k), all + Tokens(Body, c.data[p..p + k]))
  {
    hide Feed, Reads, Tokens, ChunkAfter;
    var piece := c.data[p..p + k];
    ChunkPart(Lenient(c.cfg), f, piece);
    ReadsOn(c, p, p + k, f, all, Outcome(ChunkAfter(f, k), Tokens(Body, piece), k, More));
  }

  lemma BodyReads(c: Call, p: nat, f: Fields, all: seq<Token>)
    requires Reads(c, p, f, all) && f.state.BodyIdentity? && 0 < f.length <= |c.data| - p && !f.upgrade
    ensures Reads(c, p + f.length, BodyAfter(f), all + (Tokens(Body, c.data[p..p + f.length]) + [Notify(MessageComplete)]))
  {
    hide Feed, Reads, Tokens;
    var piece := c.data[p..p + f.length];
    BodyWhole(Lenient(c.cfg), f, piece);
    ReadsOn(c, p, p + f.length, f, all, Outcome(BodyAfter(f), Tokens(Body, piece) + [Notify(MessageComplete)], f.length, More));
  }

  lemma ChunkAfterSound(f: Fields, k: nat)
    requires Sound(f) && f.state.ChunkData? && k <= f.length
    ensures Sound(ChunkAfter(f, k)) && f.length > 0
    ensures ChunkAfter(f, k).state == if k == f.length then ChunkDataAlmostDone else ChunkData
  {
  }

  lemma BodyAfterSound(f: Fields)
    requires Sound(f) && f.state.BodyIdentity?
    ensures Sound(BodyAfter(f)) && f.length > 0
    ensures BodyAfter(f).state.StartReq? || BodyAfter(f).state.Dead?
  {
  }

  /** The CR behind the data of a chunk: the data is handed over. */
  lemma ChunkHandedOver(c: Call, p: nat, f: Fields, told: seq<Token>, m: Marks)
    requires Scan(c, p, f, told, m) && p < |c.data| && f.state.ChunkDataAlmostDone? && c.data[p] == CR
    ensures Scan(c, p + 1, f.(state := ChunkDataDone), told + Pending(c.data, m, p), NO_MARKS)
  {
    var g := f.(state := ChunkDataDone);
    assert Exec(Lenient(c.cfg), f, c.data[p]) == Next(g, []);
    ReadsByte(c, p, f, told + Pending(c.data, m, p), g, []);
    NothingPending(c.data, p + 1);
    Unit(told + Pending(c.data, m, p));
  }

  // ----- Bytes passed without a look -----

  lemma CleanByte(c: Call, p: nat, f: Fields, all: seq<Token>)
    requires Clean(c, p) && Reads(c, p, f, all) && p < |c.data|
    requires !f.state.HeaderValue? || c.cfg.lenient || IsHeaderChar(c.data[p])
    ensures Clean(c, p + 1)
  {
  }

  lemma EndedAccepts(c: Call, n: nat, f: Fields, told: seq<Token>)
    requires Linked(c) && Ended(c, n, f, told) && Clean(c, n)
    ensures !Rejects(c)
  {
    forall i: nat | i < n ensures !BadCheck(c, i) {
      CleanAt(c, n, i);
    }
    forall i: nat | n <= i < |c.data| ensures !BadCheck(c, i) {
      StaysStopped(c, n, i);
    }
  }

  /** The parser after `j` more bytes. */
  lemma BeforeOn(c: Call, p: nat, j: nat, f: Fields, all: seq<Token>, r: Outcome)
    requires Reads(c, p, f, all) && p + j <= |c.data| && Feed(Lenient(c.cfg), f, c.data[p..p + j]) == r
    ensures Before(c, p + j) == r.f
  {
    OutcomeOn(c, p, p + j, f, all, r);
  }

  lemma BeforeInBody(c: Call, p: nat, j: nat, f: Fields, all: seq<Token>)
    requires Reads(c, p, f, all) && p + j <= |c.data| && f.state.BodyIdentity? && j < f.length
    ensures Before(c, p + j).state.BodyIdentity?
  {
    var piece := c.data[p..p + j];
    BodyPart(Lenient(c.cfg), f, piece);
    BeforeOn(c, p, j, f, all, Outcome(f.(length := f.length - j), Tokens(Body, piece), j, More));
  }

  lemma BeforeInChunk(c: Call, p: nat, j: nat, f: Fields, all: seq<Token>)
    requires Reads(c, p, f, all) && p + j <= |c.data| && f.state.ChunkData? && j < f.length
    ensures Before(c, p + j) == ChunkAfter(f, j)
  {
    var piece := c.data[p..p + j];
    ChunkPart(Lenient(c.cfg), f, piece);
    BeforeOn(c, p, j, f, all, Outcome(ChunkAfter(f, j), Tokens(Body, piece), j, More));
  }

  lemma BodyUnchecked(c: Call, p: nat, j: nat, f: Fields, all: seq<Token>)
    requires Reads(c, p, f, all) && p + j <= |c.data| && (f.state.BodyIdentity? || f.state.ChunkData?) && j < f.length
    ensures !BadCheck(c, p + j)
  {
    if f.state.BodyIdentity? {
      BeforeInBody(c, p, j, f, all);
    } else {
      BeforeInChunk(c, p, j, f, all);
    }
  }

  /** Bytes of a body are not bytes of a value. */
  lemma {:induction false} CleanBody(c: Call, p: nat, q: nat, f: Fields, all: seq<Token>)
    requires Clean(c, p) && Reads(c, p, f, all) && p <= q <= |c.data|
    requires (f.state.BodyIdentity? || f.state.ChunkData?) && q - p <= f.length
    ensures Clean(c, q)
  {
    if p < q {
      CleanBody(c, p, q - 1, f, all);
      BodyUnchecked(c, p, q - 1 - p, f, all);
    }
  }

  lemma NoBreaks(data: bytes, p: nat, r: nat, q: nat)
    requires p <= r <= q <= |data| && CR !in data[p..q] && LF !in data[p..q]
    ensures CR !in data[p..r] && LF !in data[p..r]
  {
    assert data[p..r] == data[p..q][..r - p];
  }

  lemma SkipUnchecked(c: Call, p: nat, j: nat, f: Fields, all: seq<Token>)
    requires Reads(c, p, f, all) && p + j < |c.data| && Skips(f) && CR !in c.data[p..p + j] && LF !in c.data[p..p + j]
    ensures !BadCheck(c, p + j + 1)
  {
    GeneralRun(c.cfg, f, c.data[p..p + j]);
    BeforeOn(c, p, j, f, all, Outcome(f, Tokens(Value, c.data[p..p + j]), j, More));
  }

  /** Of the bytes of a value that means nothing only the first is looked at. */
  lemma {:induction false} CleanSkip(c: Call, p: nat, q: nat, f: Fields, all: seq<Token>)
    requires Clean(c, p + 1) && Reads(c, p, f, all) && p < q <= |c.data| && Skips(f)
    requires CR !in c.data[p..q] && LF !in c.data[p..q]
    ensures Clean(c, q)
  {
    if p + 1 < q {
      NoBreaks(c.data, p, q - 1, q);
      CleanSkip(c, p, q - 1, f, all);
      NoBreaks(c.data, p, q - 2, q);
      SkipUnchecked(c, p, q - 2 - p, f, all);
    }
  }

  // ----- Turns of the loop -----

  /** A call that has come to byte `p`, with all it will need to know. */
  ghost predicate Come(c: Call, p: nat, f: Fields, told: seq<Token>, m: Marks, nread: nat) {
    At(c, p, f, told, m, nread) && Clean(c, p) && (f.state.HeaderValue? && p < |c.data| ==> Fresh(c, p))
  }

  lemma ScanComes(c: Call, p: nat, f: Fields, told: seq<Token>, m: Marks, nread: nat)
    requires Scan(c, p, f, told, m) && Clean(c, p) && !f.state.ChunkSizeStart? && (f.state.HeaderValue? ==> p == |c.data|)
    requires nread <= c.nread + p + (if p == |c.data| then 1 else 0)
    ensures Come(c, p, f, told, m, nread)
  {
  }

  lemma NameComes(c: Call, p: nat, f: Fields, told: seq<Token>, m: Marks, nread: nat)
    requires Scan(c, p, f, told, m) && Clean(c, p) && p < |c.data| && f.state.HeaderField? && c.data[p] == COLON && nread <= c.nread + p + 1
    ensures Come(c, p + 1, f.(state := ValueDiscardWs), told + Pending(c.data, m, p), NO_MARKS, nread)
  {
    NameEnd(c, p, f, told, m);
    CleanByte(c, p, f, told + Pending(c.data, m, p));
    ScanComes(c, p + 1, f.(state := ValueDiscardWs), told + Pending(c.data, m, p), NO_MARKS, nread);
  }

  lemma ValueComes(c: Call, p: nat, f: Fields, told: seq<Token>, m: Marks, nread: nat)
    requires Scan(c, p, f, told, m) && Clean(c, p) && p < |c.data| && f.state.HeaderValue? && (c.data[p] == CR || c.data[p] == LF)
    requires nread <= c.nread + p + 1
    ensures Come(c, p + 1, f.(state := if c.data[p] == CR then HeaderAlmostDone else ValueLws), told + Pending(c.data, m, p), NO_MARKS, nread)
  {
    ValueEnd(c, p, f, told, m);
    CleanByte(c, p, f, told + Pending(c.data, m, p));
    ScanComes(c, p + 1, f.(state := if c.data[p] == CR then HeaderAlmostDone else ValueLws), told + Pending(c.data, m, p), NO_MARKS, nread);
  }

  /** A body that ends within the data, and either the message or the use of HTTP with it. */
  lemma BodyComes(c: Call, p: nat, f: Fields, told: seq<Token>, nread: nat)
    requires Scan(c, p, f, told, NO_MARKS) && Clean(c, p) && f.state.BodyIdentity? && f.length <= |c.data| - p && nread <= c.nread + p
    ensures var q, told' := p + f.length, told + Tokens(Body, c.data[p..p + f.length]) + [Notify(MessageComplete)];
      && Clean(c, q) && !BodyAfter(f).state.ChunkSizeStart?
      && if f.upgrade then Ended(c, q, BodyAfter(f), told') else Come(c, q, BodyAfter(f), told', NO_MARKS, nread)
  {
    var q, told' := p + f.length, told + Tokens(Body, c.data[p..p + f.length]) + [Notify(MessageComplete)];
    CleanBody(c, p, q, f, told + Pending(c.data, NO_MARKS, p));
    BodyAfterSound(f);
    if f.upgrade {
      BodyEndsUpgraded(c, p, f, told);
    } else {
      BodyEnds(c, p, f, told);
      ScanComes(c, q, BodyAfter(f), told', NO_MARKS, nread);
    }
  }

  // ----- Starting -----

  function CallOf(cfg: Config, f: Fields, told: seq<Token>, nread: nat, data: bytes): Call {
    Call(cfg, f, told, nread, data, (p: nat) => Feed(Lenient(cfg), f, data[..Min(p, |data|)]))
  }

  lemma CallIsLinked(cfg: Config, f: Fields, told: seq<Token>, nread: nat, data: bytes)
    ensures Linked(CallOf(cfg, f, told, nread, data))
  {
  }

  /** The marks a call starts with: data of the state it finds is data from the first byte on. */
  function FirstMarks(s: State): Marks {
    Marks(if s.HeaderField? then Some(0) else None, if s.HeaderValue? then Some(0) else None, None)
  }

  lemma CallStarts(c: Call)
    requires Linked(c) && c.data != [] && Sound(c.f) && (c.f.state.ChunkSizeStart? ==> c.nread == 0)
    ensures Come(c, 0, c.f, c.told, FirstMarks(c.f.state), c.nread)
  {
    RunIs(c, 0);
    Unit(c.told);
    assert c.data[..0] == [] && c.data[0..0] == [];
  }
}
