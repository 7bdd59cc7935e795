/** Where the data is cut into calls, and when that makes a difference. */
module HttpSplits {
  import opened Bytes
  import opened Sequences
  import opened HttpMachine
  import opened HttpBody
  import opened HttpBulk

  // ----- What one call refuses -----

  /** A byte of a header value that is looked at and is no header character. Within a value that means nothing only its first byte in the call is. */
  ghost predicate BadByte(cfg: Config, f: Fields, data: bytes, i: nat) {
    && !cfg.lenient && i < |data| && !IsHeaderChar(data[i])
    && Feed(Lenient(cfg), f, data[..i]).stop.More? && Feed(Lenient(cfg), f, data[..i]).f.state.HeaderValue?
    && (i == 0 || !Skips(Feed(Lenient(cfg), f, data[..i - 1]).f))
  }

  /** What one call refuses, below the limit on header bytes. */
  ghost predicate Refuses(cfg: Config, f: Fields, data: bytes) {
    Feed(Lenient(cfg), f, data).stop.Wrong? || exists i: nat :: BadByte(cfg, f, data, i)
  }

  lemma RefusesIs(cfg: Config, f: Fields, told: seq<Token>, nread: nat, data: bytes)
    ensures Rejects(CallOf(cfg, f, told, nread, data)) <==> Refuses(cfg, f, data)
  {
    var c := CallOf(cfg, f, told, nread, data);
    CallIsLinked(cfg, f, told, nread, data);
    RunEnds(c);
    forall i: nat ensures BadCheck(c, i) <==> BadByte(cfg, f, data, i) {
      BadByteIs(cfg, f, told, nread, data, i);
    }
  }

  lemma BadByteIs(cfg: Config, f: Fields, told: seq<Token>, nread: nat, data: bytes, i: nat)
    ensures BadCheck(CallOf(cfg, f, told, nread, data), i) <==> BadByte(cfg, f, data, i)
  {
    hide Feed;
    var c := CallOf(cfg, f, told, nread, data);
    CallIsLinked(cfg, f, told, nread, data);
    if i < |data| {
      RunIs(c, i);
      if i > 0 {
        RunIs(c, i - 1);
      }
    }
  }

  /** One call takes all of the data, and the connection goes on. */
  ghost predicate CallTakes(cfg: Config, f: Fields, data: bytes) {
    !Refuses(cfg, f, data) && Feed(Lenient(cfg), f, data).stop.More?
  }

  /** The parser after one call for each piece; none if a call does not take its piece. */
  ghost function Calls(cfg: Config, f: Fields, pieces: seq<bytes>): Option<Fields> {
    if pieces == [] then Some(f)
    else
      match Calls(cfg, f, pieces[..|pieces| - 1])
      case None => None
      case Some(g) =>
        var data := pieces[|pieces| - 1];
        if CallTakes(cfg, g, data) then Some(Feed(Lenient(cfg), g, data).f) else None
  }

  /** The pieces joined. */
  function Flat(pieces: seq<bytes>): bytes {
    if pieces == [] then [] else Flat(pieces[..|pieces| - 1]) + pieces[|pieces| - 1]
  }

  lemma {:induction false} FlatPrefix(pieces: seq<bytes>, i: nat)
    requires i <= |pieces|
    ensures Flat(pieces[..i]) <= Flat(pieces)
    decreases |pieces| - i
  {
    if i < |pieces| {
      FlatPrefix(pieces, i + 1);
      assert pieces[..i + 1][..i] == pieces[..i];
    } else {
      Whole(pieces);
    }
  }

  lemma {:induction false} CallsStop(cfg: Config, f: Fields, pieces: seq<bytes>, i: nat)
    requires i <= |pieces| && Calls(cfg, f, pieces[..i]).None?
    ensures Calls(cfg, f, pieces).None?
    decreases |pieces| - i
  {
    if i < |pieces| {
      assert pieces[..i + 1][..i] == pieces[..i];
      CallsStop(cfg, f, pieces, i + 1);
    } else {
      Whole(pieces);
    }
  }

  // ----- When the cuts make no difference -----

  /** The strict machine fails where the lenient one does, and on a byte of a value that is no header character. */
  lemma StrictFails(cfg: Config, f: Fields, ch: byte)
    ensures Exec(cfg, f, ch).Fail? <==> Exec(Lenient(cfg), f, ch).Fail? || (!cfg.lenient && f.state.HeaderValue? && !IsHeaderChar(ch))
    ensures !Exec(cfg, f, ch).Fail? ==> Exec(Lenient(cfg), f, ch) == Exec(cfg, f, ch)
  {
    ExecLenient(cfg, f, ch);
    if f.state.HeaderValue? {
      ValueFailsAlike(cfg, f, ch);
    } else if !Plain(f.state) {
      OneLenient(cfg, f, ch);
      var m := One(cfg, f, ch);
      if m.Again? {
        AgainIsPlain(cfg, f, ch);
        ExecLenient(cfg, m.f, ch);
      }
    }
  }

  lemma ValueFailsAlike(cfg: Config, f: Fields, ch: byte)
    requires f.state.HeaderValue?
    ensures Exec(cfg, f, ch).Fail? <==> Exec(Lenient(cfg), f, ch).Fail? || (!cfg.lenient && !IsHeaderChar(ch))
  {
    hide ValueNext;
    if ch == LF {
      var g := f.(state := HeaderAlmostDone);
      assert One(cfg, f, ch) == Again(g, Silent) && One(Lenient(cfg), f, ch) == Again(g, Silent);
      assert One(cfg, g, ch) == One(Lenient(cfg), g, ch) && One(cfg, g, ch).Go?;
      assert Exec(cfg, g, ch).Next? && Exec(Lenient(cfg), g, ch).Next?;
      assert Exec(cfg, f, ch).Next? && Exec(Lenient(cfg), f, ch).Next?;
      assert IsHeaderChar(LF);
    } else {
      NoAgain(f, ch);
    }
  }

  lemma NoAgain(f: Fields, ch: byte)
    ensures ValueNext(f, ch).Go? || ValueNext(f, ch).Bad?
  {
    hide Matched, WordEnd, ConnectionWord;
  }

  /** Every byte of a header value is a header character. */
  ghost predicate ValuesOk(cfg: Config, f: Fields, data: bytes) {
    cfg.lenient || forall i {:trigger data[i]} :: 0 <= i < |data| && Feed(Lenient(cfg), f, data[..i]).f.state.HeaderValue? ==> IsHeaderChar(data[i])
  }

  lemma ValuesOkInit(cfg: Config, f: Fields, data: bytes)
    requires data != []
    ensures var n := |data| - 1;
      var last := cfg.lenient || !Feed(Lenient(cfg), f, data[..n]).f.state.HeaderValue? || IsHeaderChar(data[n]);
      ValuesOk(cfg, f, data) <==> ValuesOk(cfg, f, data[..n]) && last
  {
    hide Feed, IsHeaderChar;
    var n := |data| - 1;
    forall i | 0 <= i < n ensures data[..n][..i] == data[..i] && data[..n][i] == data[i] {
    }
  }

  /** The strict machine takes the data if and only if the lenient one does and every byte of a value is a header character. */
  lemma {:induction false} StrictIs(cfg: Config, f: Fields, data: bytes)
    ensures Feed(cfg, f, data).stop.More? <==> Feed(Lenient(cfg), f, data).stop.More? && ValuesOk(cfg, f, data)
    ensures Feed(cfg, f, data).stop.More? ==> Feed(Lenient(cfg), f, data) == Feed(cfg, f, data)
  {
    hide Exec, ValuesOk, IsHeaderChar;
    if data == [] {
      NoValues(cfg, f);
    } else {
      var n := |data| - 1;
      StrictIs(cfg, f, data[..n]);
      ValuesOkInit(cfg, f, data);
      StrictFails(cfg, Feed(Lenient(cfg), f, data[..n]).f, data[n]);
    }
  }

  lemma NoValues(cfg: Config, f: Fields)
    ensures ValuesOk(cfg, f, [])
  {
  }

  /** What the strict machine takes is not refused by a call. */
  lemma StrictIsTaken(cfg: Config, f: Fields, data: bytes)
    requires Feed(cfg, f, data).stop.More?
    ensures CallTakes(cfg, f, data) && Feed(Lenient(cfg), f, data) == Feed(cfg, f, data)
  {
    hide Rejects, Refuses;
    StrictIs(cfg, f, data);
    CallIsLinked(cfg, f, [], 0, data);
    StrictIsNotRejected(CallOf(cfg, f, [], 0, data));
    RefusesIs(cfg, f, [], 0, data);
  }

  /** Then every piece is taken, however the data is cut. */
  lemma {:induction false} StrictSplits(cfg: Config, f: Fields, pieces: seq<bytes>)
    requires Feed(cfg, f, Flat(pieces)).stop.More?
    ensures Calls(cfg, f, pieces) == Some(Feed(cfg, f, Flat(pieces)).f)
  {
    hide CallTakes;
    if pieces != [] {
      var n := |pieces| - 1;
      var a, b := Flat(pieces[..n]), pieces[n];
      if !Feed(cfg, f, a).stop.More? {
        FeedStops(cfg, f, a, b);
        assert false;
      }
      FeedAppend(cfg, f, a, b);
      StrictSplits(cfg, f, pieces[..n]);
      StrictIsTaken(cfg, Feed(cfg, f, a).f, b);
    }
  }

  // ----- Cutting before every byte -----

  function Singles(data: bytes): (r: seq<bytes>)
    ensures |r| == |data| && forall i :: 0 <= i < |r| ==> r[i] == [data[i]]
  {
    seq(|data|, i requires 0 <= i < |data| => [data[i]])
  }

  lemma {:induction false} FlatSingles(data: bytes)
    ensures Flat(Singles(data)) == data
  {
    if data != [] {
      var n := |data| - 1;
      assert Singles(data)[..n] == Singles(data[..n]);
      FlatSingles(data[..n]);
      assert data == data[..n] + [data[n]];
    }
  }

  /** A byte that a call of its own takes is one that the strict machine takes. */
  lemma SingleIsStrict(cfg: Config, f: Fields, ch: byte)
    requires CallTakes(cfg, f, [ch])
    ensures Exec(cfg, f, ch).Next? && Feed(Lenient(cfg), f, [ch]) == After(Outcome(f, [], 0, More), Exec(cfg, f, ch))
  {
    hide Exec;
    FeedTwo(Lenient(cfg), f, ch, ch);
    StrictFails(cfg, f, ch);
    assert [ch][..0] == [] && [ch][0] == ch;
    assert !BadByte(cfg, f, [ch], 0);
  }

  lemma {:induction false} SinglesAreStrict(cfg: Config, f: Fields, data: bytes)
    requires Calls(cfg, f, Singles(data)).Some?
    ensures Feed(cfg, f, data).stop.More? && Feed(cfg, f, data).f == Calls(cfg, f, Singles(data)).value
  {
    hide Exec, CallTakes;
    if data != [] {
      var n := |data| - 1;
      assert Singles(data)[..n] == Singles(data[..n]);
      SinglesAreStrict(cfg, f, data[..n]);
      SingleIsStrict(cfg, Feed(cfg, f, data[..n]).f, data[n]);
    }
  }

  ghost predicate IsSplit(pieces: seq<bytes>, data: bytes) {
    (forall i :: 0 <= i < |pieces| ==> pieces[i] != []) && Flat(pieces) == data
  }

  /**
    Cuts make no difference exactly for the data that the strict machine takes: every way to cut it into calls is
    taken call by call if and only if the machine that checks every byte of every header value takes it.
    */
  lemma EverySplitIffStrict(cfg: Config, f: Fields, data: bytes)
    ensures (forall pieces :: IsSplit(pieces, data) ==> Calls(cfg, f, pieces).Some?) <==> Feed(cfg, f, data).stop.More?
  {
    hide Feed, Calls;
    if Feed(cfg, f, data).stop.More? {
      forall pieces | IsSplit(pieces, data) ensures Calls(cfg, f, pieces).Some? {
        StrictSplits(cfg, f, pieces);
      }
    }
    if forall pieces :: IsSplit(pieces, data) ==> Calls(cfg, f, pieces).Some? {
      FlatSingles(data);
      assert IsSplit(Singles(data), data);
      SinglesAreStrict(cfg, f, data);
    }
  }

  /** The same in terms of a single call: it must take the data whole, and every byte of a header value must be a header character. */
  lemma EverySplitIffChecked(cfg: Config, f: Fields, data: bytes)
    ensures (forall pieces :: IsSplit(pieces, data) ==> Calls(cfg, f, pieces).Some?) <==> CallTakes(cfg, f, data) && ValuesOk(cfg, f, data)
  {
    hide Feed, Calls, ValuesOk, Refuses, IsSplit;
    EverySplitIffStrict(cfg, f, data);
    StrictIs(cfg, f, data);
    if Feed(cfg, f, data).stop.More? {
      StrictIsTaken(cfg, f, data);
    }
  }

  // ----- Where a cut makes a difference -----

  /** In a value that means nothing, one call takes any text that begins with a header character, whatever follows. */
  lemma OneCallTakesAll(cfg: Config, f: Fields, data: bytes)
    requires Skips(f) && data != [] && CR !in data && LF !in data && (cfg.lenient || IsHeaderChar(data[0]))
    ensures CallTakes(cfg, f, data)
  {
    hide Exec, IsHeaderChar;
    GeneralRun(cfg, f, data);
    forall i: nat ensures !BadByte(cfg, f, data, i) {
      if 0 < i < |data| {
        assert forall x :: x in data[..i - 1] ==> x in data;
        GeneralRun(cfg, f, data[..i - 1]);
      }
    }
  }

  /** In the same value a byte that comes in a call of its own is taken if and only if it is a header character. */
  lemma OneByteIsChecked(cfg: Config, f: Fields, ch: byte)
    requires Skips(f) && ch != CR && ch != LF
    ensures CallTakes(cfg, f, [ch]) <==> cfg.lenient || IsHeaderChar(ch)
  {
    hide Exec, IsHeaderChar;
    if cfg.lenient || IsHeaderChar(ch) {
      OneCallTakesAll(cfg, f, [ch]);
    } else {
      assert [ch][..0] == [] && [ch][0] == ch;
      assert BadByte(cfg, f, [ch], 0);
    }
  }

  /** "A:ab" and a control character, at the start of a header. */
  const CONTROL_IN_VALUE: bytes := [65, 58, 97, 98, 1]

  lemma NameAndFirst(cfg: Config, f: Fields)
    requires f.state.HeaderFieldStart?
    ensures Feed(cfg, f, [65, 58]).stop.More? && Feed(cfg, f, [65, 58]).f == f.(state := ValueDiscardWs, index := 0, header := General)
  {
    FeedTwo(cfg, f, 65, 58);
  }

  lemma ValueBegins(cfg: Config, f: Fields)
    requires f.state.ValueDiscardWs? && f.header.General?
    ensures Feed(cfg, f, [97, 98]).stop.More? && Feed(cfg, f, [97, 98]).f == f.(state := HeaderValue, index := 0)
  {
    FeedTwo(cfg, f, 97, 98);
  }

  lemma ValueReached(cfg: Config, f: Fields)
    requires f.state.HeaderFieldStart?
    ensures var r := Feed(cfg, f, [65, 58, 97, 98]);
      r.stop.More? && r.f == f.(state := HeaderValue, index := 0, header := General)
    ensures var r := Feed(cfg, f, [65, 58, 97]);
      r.stop.More? && r.f == f.(state := HeaderValue, index := 0, header := General)
  {
    hide Exec;
    NameAndFirst(cfg, f);
    var g := f.(state := ValueDiscardWs, index := 0, header := General);
    ValueBegins(cfg, g);
    FeedAppend(cfg, f, [65, 58], [97, 98]);
    assert [65, 58] + [97, 98] == [65, 58, 97, 98 as byte];
    FeedAppend(cfg, f, [65, 58], [97]);
    assert [65, 58] + [97] == [65, 58, 97 as byte];
    FirstOfTwo(cfg, g);
  }

  lemma FirstOfTwo(cfg: Config, f: Fields)
    requires f.state.ValueDiscardWs? && f.header.General?
    ensures Feed(cfg, f, [97]).stop.More? && Feed(cfg, f, [97]).f == f.(state := HeaderValue, index := 0)
  {
    FeedTwo(cfg, f, 97, 98);
  }

  /** One call takes that header; cut before the control character, it is refused. So the cuts can make a difference. */
  lemma CutMakesADifference(cfg: Config, f: Fields)
    requires !cfg.lenient && f.state.HeaderFieldStart?
    ensures Calls(cfg, f, [CONTROL_IN_VALUE]).Some?
    ensures IsSplit([CONTROL_IN_VALUE[..4], [1]], CONTROL_IN_VALUE) && Calls(cfg, f, [CONTROL_IN_VALUE[..4], [1]]).None?
  {
    var data, head := CONTROL_IN_VALUE, [65, 58, 97, 98 as byte];
    var g := f.(state := HeaderValue, index := 0, header := General);
    assert data[..4] == head && data[..3] == [65, 58, 97] && head + [1] == data;
    WholeIsTaken(cfg, f);
    CallsOfOne(cfg, f, data);
    SplitIs(head, [1]);
    ValueReached(Lenient(cfg), f);
    OneByteIsChecked(cfg, g, 1);
    CallsOfTwo(cfg, f, head, [1]);
  }

  lemma WholeIsTaken(cfg: Config, f: Fields)
    requires !cfg.lenient && f.state.HeaderFieldStart?
    ensures CallTakes(cfg, f, CONTROL_IN_VALUE)
  {
    hide Exec, Feed;
    var data, head := CONTROL_IN_VALUE, [65, 58, 97, 98 as byte];
    var g := f.(state := HeaderValue, index := 0, header := General);
    assert data[..3] == [65, 58, 97] && head + [1] == data;
    ValueReached(Lenient(cfg), f);
    GeneralRun(cfg, g, [1]);
    FeedAppend(Lenient(cfg), f, head, [1]);
    forall i: nat ensures !BadByte(cfg, f, data, i) {
      if i < |data| {
        assert i < 4 ==> IsHeaderChar(data[i]);
      }
    }
  }

  lemma CallsOfOne(cfg: Config, f: Fields, data: bytes)
    ensures Calls(cfg, f, [data]).Some? <==> CallTakes(cfg, f, data)
  {
    assert [data][..0] == [];
  }

  lemma CallsOfTwo(cfg: Config, f: Fields, a: bytes, b: bytes)
    ensures Calls(cfg, f, [a, b]).Some? <==> CallTakes(cfg, f, a) && CallTakes(cfg, Feed(Lenient(cfg), f, a).f, b)
  {
    hide CallTakes, Feed;
    assert [a][..0] == [];
    assert CallTakes(cfg, f, a) ==> Calls(cfg, f, [a]) == Some(Feed(Lenient(cfg), f, a).f);
    assert !CallTakes(cfg, f, a) ==> Calls(cfg, f, [a]) == None;
    assert [a, b][..1] == [a];
  }

  lemma SplitIs(a: bytes, b: bytes)
    requires a != [] && b != []
    ensures IsSplit([a, b], a + b)
  {
    assert [a, b][..1] == [a] && [a][..0] == [];
    assert Flat([a]) == [] + a && [] + a == a;
  }
}
