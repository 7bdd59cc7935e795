/** `http_parser_execute`: the loop over the data with its bulk steps, for requests and callbacks that return 0. */
module HttpParser {
  import opened Bytes
  import opened Sequences
  import opened HttpMachine
  import opened HttpFraming
  import opened HttpBody
  import opened HttpBulk
  import opened HttpSplits

  /** How a step of the loop ends: on with the next byte, out of the call, or with an error. */
  datatype Status = Continue | Leave | Broken

  class Parser {
    const cfg: Config
    var f: Fields
    var nread: nat
    var errno: Option<Error>
    var told: seq<Token>
    var marks: Marks

    ghost predicate Valid()
      reads this
    {
      Sound(f) && (f.state.ChunkSizeStart? ==> nread == 0)
    }

    constructor (cfg: Config)
      ensures Valid() && f == INITIAL && errno == None && told == [] && nread == 0 && this.cfg == cfg
    {
      this.cfg := cfg;
      f, nread, errno, told, marks := INITIAL, 0, None, [], NO_MARKS;
    }

    /** The call has come to byte `p`. */
    ghost predicate Reached(c: Call, p: nat)
      reads this
    {
      c.cfg == cfg && Come(c, p, f, told, marks, nread)
    }

    ghost predicate Scanned(c: Call, p: nat)
      reads this
    {
      c.cfg == cfg && Scan(c, p, f, told, marks) && Clean(c, p)
    }

    /** Why a call fails: the machine rejects the bytes, or they are too many for a header. */
    ghost predicate Failed(c: Call)
      reads this
    {
      errno.Some? && (Rejects(c) || c.nread + |c.data| >= HTTP_MAX_HEADER_SIZE)
    }

    /** Counts header bytes; too many are an error. */
    method CountHeaderSize(n: nat, ghost c: Call) returns (ok: bool)
      requires errno.None? && (nread + n > HTTP_MAX_HEADER_SIZE ==> c.nread + |c.data| >= HTTP_MAX_HEADER_SIZE)
      modifies this`nread, this`errno
      ensures nread == old(nread) + n
      ensures ok ==> errno.None? && nread <= HTTP_MAX_HEADER_SIZE
      ensures !ok ==> Failed(c)
    {
      nread := nread + n;
      ok := nread <= HTTP_MAX_HEADER_SIZE;
      if !ok {
        errno := Some(HeaderOverflow);
      }
    }

    /** As many token characters as there are. */
    method TokenLoop(data: bytes, start: nat, ghost c: Call) returns (p: nat)
      requires data == c.data && start <= |data| && f.state.HeaderField? && Scanned(c, start)
      modifies this`f
      ensures start <= p <= |data| && f.state.HeaderField? && Scanned(c, p)
      ensures p < |data| ==> TokenOf(data[p]) == 0
    {
      p := start;
      while p < |data| && TokenOf(data[p]) != 0
        invariant start <= p <= |data|
        invariant f.state.HeaderField? && Scanned(c, p)
      {
        NameByte(c, p, f, told, marks);
        CleanByte(c, p, f, told + Pending(data, marks, p));
        NameStays(f, TokenOf(data[p]));
        f := NameNext(f, TokenOf(data[p]));
        p := p + 1;
      }
    }

    /** A header name: token characters, then a colon. */
    method ScanName(data: bytes, start: nat, ghost c: Call) returns (p: nat, status: Status)
      requires errno.None? && data == c.data && start < |data| && f.state.HeaderField? && Scanned(c, start) && nread <= c.nread + start + 1
      modifies this
      ensures status.Continue? ==> errno.None? && start < p <= |data| && Reached(c, p)
      ensures status.Broken? ==> Failed(c)
      ensures !status.Leave?
    {
      hide Scan, Rejects, Clean, Come, Pending;
      p := TokenLoop(data, start, c);
      var ok := CountHeaderSize(p - start, c);
      if !ok {
        return p, Broken;
      }
      if p == |data| {
        ScanComes(c, p, f, told, marks, nread);
        return p, Continue;
      }
      if data[p] == COLON {
        NameComes(c, p, f, told, marks, nread);
        f := f.(state := ValueDiscardWs);
        told := told + Pending(data, marks, p);
        marks := NO_MARKS;
        return p + 1, Continue;
      }
      NameFails(c, p, f, told, marks);
      errno := Some(InvalidHeaderToken);
      return p, Broken;
    }

    /** The first place of a byte among the next `limit` ones. */
    method MemChr(data: bytes, ch: byte, start: nat, limit: nat) returns (r: Option<nat>)
      requires start + limit <= |data|
      ensures r.Some? ==> start <= r.value < start + limit && data[r.value] == ch && ch !in data[start..r.value]
      ensures r.None? ==> ch !in data[start..start + limit]
    {
      var p := start;
      while p < start + limit
        invariant start <= p <= start + limit && ch !in data[start..p]
      {
        if data[p] == ch {
          return Some(p);
        }
        assert data[start..p + 1] == data[start..p] + [data[p]];
        p := p + 1;
      }
      r := None;
    }

    /** Where a value that means nothing ends: at the next CR or LF, sought no further than the header limit. */
    method SkipValue(data: bytes, p: nat) returns (q: nat)
      requires p <= |data|
      ensures p <= q <= |data|
      ensures q < |data| ==> data[q] == CR || data[q] == LF
      ensures |data| - p <= HTTP_MAX_HEADER_SIZE || q < |data| ==> CR !in data[p..q] && LF !in data[p..q]
    {
      var limit := Min(|data| - p, HTTP_MAX_HEADER_SIZE);
      var cr := MemChr(data, CR, p, limit);
      var lf := MemChr(data, LF, p, limit);
      if cr.Some? {
        if lf.Some? && cr.value >= lf.value {
          assert data[p..cr.value][..lf.value - p] == data[p..lf.value];
          q := lf.value;
        } else {
          if lf.Some? {
            assert data[p..lf.value][..cr.value - p] == data[p..cr.value];
          } else {
            assert data[p..p + limit][..cr.value - p] == data[p..cr.value];
          }
          q := cr.value;
        }
      } else if lf.Some? {
        assert data[p..p + limit][..lf.value - p] == data[p..lf.value];
        q := lf.value;
      } else {
        q := |data|;
      }
    }

    /** One step within a value: a single character, or all that a meaningless value has. */
    method ValueStep(data: bytes, p: nat, ghost c: Call) returns (q: nat, ok: bool)
      requires errno.None? && data == c.data && p < |data| && f.state.HeaderValue? && Scanned(c, p) && data[p] != CR && data[p] != LF
      requires Fresh(c, p)
      modifies this`f, this`errno
      ensures ok ==> errno.None? && p < q <= |data| && f.state.HeaderValue?
      ensures ok ==> Scanned(c, q) || (q == |data| && q - p > HTTP_MAX_HEADER_SIZE)
      ensures ok && q < |data| ==> data[q] == CR || data[q] == LF || Fresh(c, q)
      ensures !ok ==> Failed(c)
    {
      var ch := data[p];
      if !cfg.lenient && !IsHeaderChar(ch) {
        CheckFails(c, p, f, told, marks);
        errno := Some(InvalidHeaderToken);
        return p, false;
      }
      CleanByte(c, p, f, told + Pending(data, marks, p));
      if f.header.General? {
        q := SkipValue(data, p);
        if q > p && (q < |data| || |data| - p <= HTTP_MAX_HEADER_SIZE) {
          ValueSkip(c, p, q, f, told, marks);
          CleanSkip(c, p, q, f, told + Pending(data, marks, p));
        }
        return q, true;
      }
      var m := ValueNext(f, ch);
      ValueStays(f, ch);
      if m.Bad? {
        ValueFails(c, p, f, told, marks);
        errno := Some(m.error);
        return p, false;
      }
      ValueByte(c, p, f, told, marks);
      FreshBehind(c, p, f, told + Pending(data, marks, p));
      f := m.f;
      return p + 1, true;
    }

    method ValueLoop(data: bytes, start: nat, ghost c: Call) returns (p: nat, ok: bool)
      requires errno.None? && data == c.data && start < |data| && f.state.HeaderValue? && Scanned(c, start) && Fresh(c, start)
      modifies this`f, this`errno
      ensures ok ==> errno.None? && start <= p <= |data| && f.state.HeaderValue?
      ensures ok ==> Scanned(c, p) || (p == |data| && p - start > HTTP_MAX_HEADER_SIZE)
      ensures ok && p < |data| ==> data[p] == CR || data[p] == LF
      ensures !ok ==> Failed(c)
    {
      p, ok := start, true;
      while p < |data| && data[p] != CR && data[p] != LF
        invariant ok && errno.None? && start <= p <= |data| && f.state.HeaderValue?
        invariant Scanned(c, p) || (p == |data| && p - start > HTTP_MAX_HEADER_SIZE)
        invariant p < |data| ==> data[p] == CR || data[p] == LF || Fresh(c, p)
      {
        p, ok := ValueStep(data, p, c);
        if !ok {
          return;
        }
      }
    }

    /** A header value: up to CR or LF, where it is handed over. */
    method ScanValue(data: bytes, start: nat, ghost c: Call) returns (p: nat, status: Status)
      requires errno.None? && data == c.data && start < |data| && f.state.HeaderValue? && Scanned(c, start) && Fresh(c, start)
      requires nread <= c.nread + start + 1
      modifies this
      ensures status.Continue? ==> errno.None? && start < p <= |data| && Reached(c, p)
      ensures status.Broken? ==> Failed(c)
      ensures !status.Leave?
    {
      hide Scan, Rejects, Clean, Come, Pending, Fresh;
      var ok;
      p, ok := ValueLoop(data, start, c);
      if !ok {
        return p, Broken;
      }
      ok := CountHeaderSize(p - start, c);
      if !ok {
        return p, Broken;
      }
      if p == |data| {
        ScanComes(c, p, f, told, marks, nread);
        return p, Continue;
      }
      ValueComes(c, p, f, told, marks, nread);
      f := f.(state := if data[p] == CR then HeaderAlmostDone else ValueLws);
      told := told + Pending(data, marks, p);
      marks := NO_MARKS;
      return p + 1, Continue;
    }

    /** A body that ends within the data. */
    method FinishBody(data: bytes, start: nat, ghost c: Call) returns (p: nat, status: Status)
      requires data == c.data && start < |data| && f.state.BodyIdentity? && Scanned(c, start) && marks == NO_MARKS
      requires 0 < f.length <= |data| - start && nread <= c.nread + start
      modifies this`f, this`told
      ensures !status.Broken? && start < p <= |data|
      ensures status.Continue? ==> Reached(c, p)
      ensures status.Leave? ==> Ended(c, p, f, told) && Clean(c, p) && !f.state.ChunkSizeStart?
    {
      p := start + f.length;
      status := if f.upgrade then Leave else Continue;
      BodyComes(c, start, f, told, nread);
      told := told + Tokens(Body, data[start..p]);
      told := told + [Notify(MessageComplete)];
      f := BodyAfter(f);
    }

    /** A body of known length: as much of it as there is. */
    method ReadBody(data: bytes, start: nat, ghost c: Call) returns (p: nat, status: Status)
      requires errno.None? && data == c.data && start < |data| && f.state.BodyIdentity? && Scanned(c, start) && marks == NO_MARKS
      requires nread <= c.nread + start
      modifies this`f, this`told, this`marks
      ensures !status.Broken? && start < p <= |data|
      ensures status.Continue? ==> Reached(c, p)
      ensures status.Leave? ==> Ended(c, p, f, told) && Clean(c, p) && !f.state.ChunkSizeStart?
    {
      BodyAsserts(f);
      var toRead := Min(f.length, |data| - start);
      if toRead == f.length {
        p, status := FinishBody(data, start, c);
      } else {
        BodyGoesOn(c, start, f, told);
        CleanBody(c, start, |data|, f, told + Pending(data, marks, start));
        f := f.(length := f.length - toRead);
        marks := BodyMark(start);
        p, status := |data|, Continue;
      }
    }

    /** The data of a chunk: as much of it as there is. */
    method ReadChunk(data: bytes, start: nat, ghost c: Call) returns (p: nat)
      requires data == c.data && start < |data| && f.state.ChunkData? && Scanned(c, start) && marks == NO_MARKS
      requires nread <= c.nread + start
      modifies this`f, this`marks
      ensures start < p <= |data| && Reached(c, p)
    {
      BodyAsserts(f);
      var toRead := Min(f.length, |data| - start);
      ChunkGoesOn(c, start, f, told, toRead);
      CleanBody(c, start, start + toRead, f, told + Pending(data, marks, start));
      marks := BodyMark(start);
      f := ChunkAfter(f, toRead);
      p := start + toRead;
    }

    /** The CR behind the data of a chunk. */
    method EndChunk(data: bytes, start: nat, ghost c: Call) returns (p: nat, status: Status)
      requires errno.None? && data == c.data && start < |data| && f.state.ChunkDataAlmostDone? && Scanned(c, start)
      requires nread <= c.nread + start
      modifies this
      ensures status.Continue? ==> errno.None? && start < p <= |data| && Reached(c, p)
      ensures status.Broken? ==> Failed(c)
      ensures !status.Leave?
    {
      BodyAsserts(f);
      if data[start] != CR {
        FailRejects(c, start, f, told + Pending(data, marks, start));
        errno := Some(Strict);
        return start, Broken;
      }
      ChunkHandedOver(c, start, f, told, marks);
      CleanByte(c, start, f, told + Pending(data, marks, start));
      f := f.(state := ChunkDataDone);
      told := told + Pending(data, marks, start);
      marks := NO_MARKS;
      return start + 1, Continue;
    }

    /** A byte in a state that takes one at a time, with its re-executions. */
    method OneByte(data: bytes, p: nat, ghost c: Call) returns (status: Status)
      requires errno.None? && data == c.data && p < |data| && Plain(f.state) && Scanned(c, p) && marks == NO_MARKS
      requires nread <= c.nread + p + 1
      modifies this
      ensures status.Continue? ==> errno.None? && Reached(c, p + 1)
      ensures status.Leave? ==> errno.None? && Ended(c, p + 1, f, told) && Clean(c, p + 1) && !f.state.ChunkSizeStart? && nread <= c.nread + p + 1
      ensures status.Broken? ==> Failed(c)
    {
      hide Rejects, Clean, Feed;
      var ch := data[p];
      ghost var first, sofar := f, [];
      CleanByte(c, p, f, told + Pending(data, marks, p));
      FreshBehind(c, p, f, told + Pending(data, marks, p));
      while true
        invariant errno.None? && Plain(f.state) && marks == NO_MARKS && nread <= c.nread + p + 1
        invariant told == old(told) + sofar
        invariant Exec(cfg, first, ch) == Prepended(sofar, Exec(cfg, f, ch))
        decreases Rank(f.state)
      {
        var m := One(cfg, f, ch);
        match m {
          case Again(g, emit) =>
            var out := Said(emit);
            AgainLowersRank(cfg, f, ch);
            AgainIsPlain(cfg, f, ch);
            PrependedTwice(sofar, out, Exec(cfg, g, ch));
            Assoc(old(told), sofar, out);
            told := told + out;
            sofar := sofar + out;
            f := g;
          case Go(g, emit) =>
            var out := Said(emit);
            PlainLeads(cfg, f, ch);
            PlainByte(c, p, first, old(told), sofar, g, out);
            if Resets(f.state) {
              nread := 0;
            }
            told := told + Handed(g.state, out);
            marks := MarksAfter(g.state, p);
            f := g;
            return Continue;
          case Quit(g, emit) =>
            var out := Said(emit);
            SwitchTo(cfg, f, ch);
            SwitchByte(c, p, first, old(told), sofar, g, out);
            if Resets(f.state) {
              nread := 0;
            }
            told := told + out;
            f := g;
            return Leave;
          case Bad(error) =>
            ExecLenient(cfg, first, ch);
            FailRejects(c, p, first, old(told) + Pending(data, NO_MARKS, p));
            errno := Some(error);
            return Broken;
        }
      }
    }

    /** One turn of the loop over the data. */
    method Turn(data: bytes, p: nat, ghost c: Call) returns (q: nat, status: Status)
      requires errno.None? && data == c.data && p < |data| && Reached(c, p)
      modifies this
      ensures status.Continue? ==> errno.None? && p < q <= |data| && Reached(c, q)
      ensures status.Leave? ==> errno.None? && Linked(c) && p < q <= |data| && Ended(c, q, f, told) && Clean(c, q) && !f.state.ChunkSizeStart? && nread <= c.nread + q
      ensures status.Broken? ==> Failed(c)
    {
      hide Rejects, Clean, Pending, Feed, Exec;
      if ParsingHeader(f.state) {
        var ok := CountHeaderSize(1, c);
        if !ok {
          return p, Broken;
        }
      }
      // The source asserts that a chunk size begins with the first byte counted.
      assert f.state.ChunkSizeStart? ==> nread == 1;
      if f.state.HeaderField? {
        q, status := ScanName(data, p, c);
      } else if f.state.HeaderValue? {
        q, status := ScanValue(data, p, c);
      } else if f.state.BodyIdentity? {
        q, status := ReadBody(data, p, c);
      } else if f.state.ChunkData? {
        q := ReadChunk(data, p, c);
        status := Continue;
      } else if f.state.ChunkDataAlmostDone? {
        q, status := EndChunk(data, p, c);
      } else {
        q := p + 1;
        status := OneByte(data, p, c);
      }
    }

    /** The loop over the data, and what is pending behind it. */
    method Loop(data: bytes, ghost c: Call) returns (n: nat)
      requires errno.None? && data == c.data && data != [] && Reached(c, 0)
      modifies this
      ensures errno.None? ==> Linked(c) && Ended(c, n, f, told) && !Rejects(c) && Valid() && nread <= c.nread + |data| + 1
      ensures errno.Some? ==> Failed(c)
    {
      var p: nat := 0;
      var status := Continue;
      while p < |data| && status.Continue?
        invariant status.Continue? ==> errno.None? && p <= |data| && Reached(c, p)
        invariant status.Leave? ==> errno.None? && Linked(c) && p <= |data| && Ended(c, p, f, told) && Clean(c, p) && !f.state.ChunkSizeStart? && nread <= c.nread + p
        invariant status.Broken? ==> Failed(c)
        decreases if status.Continue? then |data| - p + 1 else 0
      {
        p, status := Turn(data, p, c);
      }
      n := p;
      if status.Broken? {
        return;
      }
      if status.Continue? {
        AtMostOneMark(f.state, marks, p, |data|);
        DataEnds(c, f, told, marks);
        told := told + Pending(data, marks, p);
        marks := NO_MARKS;
      }
      EndedAccepts(c, n, f, told);
    }

    /**
      One call. Unless the count of header bytes may pass the limit, it fails if and only if it refuses the data:
      the machine does, or a byte that is looked at is no header character. Otherwise it has done what the machine does.
      */
    method Execute(data: bytes) returns (n: nat)
      requires Valid()
      modifies this
      ensures old(errno).Some? ==> n == 0 && errno == old(errno) && f == old(f) && told == old(told) && nread == old(nread)
      ensures old(errno).None? && data == [] ==>
        f == old(f) && told == old(told) && nread == old(nread) && (errno.None? <==> f.state.Dead? || f.state.StartReq?)
      ensures old(errno).None? && data != [] ==>
        && (errno.Some? ==> Refuses(cfg, old(f), data) || old(nread) + |data| >= HTTP_MAX_HEADER_SIZE)
        && (errno.None? ==> !Refuses(cfg, old(f), data) && Valid() && nread <= old(nread) + |data| + 1)
        && (errno.None? ==>
              var r := Feed(Lenient(cfg), old(f), data);
              !r.stop.Wrong? && n == r.read && f == r.f && told == old(told) + r.out)
    {
      if errno.Some? {
        return 0;
      }
      if data == [] {
        if f.state.Dead? || f.state.StartReq? {
          return 0;
        }
        errno := Some(InvalidEofState);
        return 1;
      }
      ghost var c := CallOf(cfg, f, told, nread, data);
      CallIsLinked(cfg, f, told, nread, data);
      marks := FirstMarks(f.state);
      CallStarts(c);
      n := Loop(data, c);
      RunEnds(c);
      RefusesIs(cfg, old(f), old(told), old(nread), data);
    }

    /** A further piece of data. */
    method ExecutePiece(data: bytes, ghost before: Fields, ghost told0: seq<Token>, ghost sofar: bytes) returns (ok: bool)
      requires Valid() && errno.None? && data != [] && nread + |data| < HTTP_MAX_HEADER_SIZE
      requires FedSoFar(cfg, before, told0, sofar, f, told) && !Feed(Lenient(cfg), before, sofar + data).stop.Upgraded?
      modifies this
      ensures ok <==> errno.None?
      ensures ok <==> CallTakes(cfg, old(f), data)
      ensures ok ==> Valid() && nread <= old(nread) + |data| + 1 && f == Feed(Lenient(cfg), old(f), data).f
      ensures ok ==> FedSoFar(cfg, before, told0, sofar + data, f, told)
    {
      FedOn(cfg, before, told0, sofar, f, told, data);
      var n := Execute(data);
      ok := errno.None?;
    }

    /**
      The same bytes in pieces, however cut, up to the first piece that is refused. As long as the header bytes stay
      below the limit and the connection is not given up, the calls succeed if and only if each piece is taken;
      then the parser and all that was told are as if the bytes had been fed one by one.
      */
    method ExecuteAll(pieces: seq<bytes>) returns (ok: bool)
      requires Valid() && errno.None? && (forall i :: 0 <= i < |pieces| ==> pieces[i] != [])
      requires !Feed(Lenient(cfg), f, Flat(pieces)).stop.Upgraded?
      requires nread + |Flat(pieces)| + |pieces| <= HTTP_MAX_HEADER_SIZE
      modifies this
      ensures ok <==> errno.None?
      ensures ok <==> Calls(cfg, old(f), pieces).Some?
      ensures ok ==> Calls(cfg, old(f), pieces) == Some(f) && FedSoFar(cfg, old(f), old(told), Flat(pieces), f, told)
    {
      hide Feed, CallTakes;
      var i := 0;
      NothingFed(cfg, f, told, pieces);
      while i < |pieces|
        invariant 0 <= i <= |pieces| && Valid() && errno.None?
        invariant Calls(cfg, old(f), pieces[..i]) == Some(f)
        invariant FedSoFar(cfg, old(f), old(told), Flat(pieces[..i]), f, told)
        invariant nread <= old(nread) + |Flat(pieces[..i])| + i
      {
        NextPiece(cfg, old(f), pieces, i);
        NextCall(cfg, old(f), pieces, i);
        ok := ExecutePiece(pieces[i], old(f), old(told), Flat(pieces[..i]));
        if !ok {
          CallsStop(cfg, old(f), pieces, i + 1);
          return;
        }
        i := i + 1;
      }
      Whole(pieces);
      ok := true;
    }
  }

  /** The machine, fed `data`, is where the parser is. */
  ghost predicate FedSoFar(cfg: Config, f0: Fields, told0: seq<Token>, data: bytes, f: Fields, told: seq<Token>) {
    var r := Feed(Lenient(cfg), f0, data);
    r.stop.More? && r.f == f && told == told0 + r.out
  }

  lemma NothingFed(cfg: Config, f: Fields, told: seq<Token>, pieces: seq<bytes>)
    ensures FedSoFar(cfg, f, told, Flat(pieces[..0]), f, told) && Flat(pieces[..0]) == [] && Calls(cfg, f, pieces[..0]) == Some(f)
  {
    Unit(told);
  }

  /** The pieces up to the next one fit, and do not give the connection up, as all of them do not. */
  lemma NextPiece(cfg: Config, f: Fields, pieces: seq<bytes>, i: nat)
    requires i < |pieces| && !Feed(Lenient(cfg), f, Flat(pieces)).stop.Upgraded?
    ensures Flat(pieces[..i + 1]) == Flat(pieces[..i]) + pieces[i]
    ensures !Feed(Lenient(cfg), f, Flat(pieces[..i]) + pieces[i]).stop.Upgraded?
    ensures |Flat(pieces[..i])| + |pieces[i]| <= |Flat(pieces)|
  {
    assert pieces[..i + 1][..i] == pieces[..i];
    FlatPrefix(pieces, i + 1);
    var a := Flat(pieces[..i + 1]);
    assert Flat(pieces) == a + Flat(pieces)[|a|..];
    if !Feed(Lenient(cfg), f, a).stop.More? {
      FeedStops(Lenient(cfg), f, a, Flat(pieces)[|a|..]);
    }
  }

  lemma NextCall(cfg: Config, f: Fields, pieces: seq<bytes>, i: nat)
    requires i < |pieces| && Calls(cfg, f, pieces[..i]).Some?
    ensures var g := Calls(cfg, f, pieces[..i]).value;
      && (CallTakes(cfg, g, pieces[i]) ==> Calls(cfg, f, pieces[..i + 1]) == Some(Feed(Lenient(cfg), g, pieces[i]).f))
      && (!CallTakes(cfg, g, pieces[i]) ==> Calls(cfg, f, pieces[..i + 1]).None?)
  {
    assert pieces[..i + 1][..i] == pieces[..i];
  }

  /** What feeding one piece more makes of what has been fed so far. */
  lemma FedOn(cfg: Config, f0: Fields, told0: seq<Token>, before: bytes, f: Fields, told: seq<Token>, data: bytes)
    requires FedSoFar(cfg, f0, told0, before, f, told) && !Feed(Lenient(cfg), f0, before + data).stop.Upgraded?
    ensures var r := Feed(Lenient(cfg), f, data);
      && !r.stop.Upgraded?
      && (r.stop.More? ==> FedSoFar(cfg, f0, told0, before + data, r.f, told + r.out))
  {
    FeedAppend(Lenient(cfg), f0, before, data);
    Assoc(told0, Feed(Lenient(cfg), f0, before).out, Feed(Lenient(cfg), f, data).out);
  }
}
