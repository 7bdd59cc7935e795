/** The binary messages of the client: building them in a growing buffer, receiving them and parsing them. */
module Pr1 {
  import opened Bytes
  import opened Sequences

  const FIELD_ID_MAX: nat := 0x11
  const FIELD_TYPE_MAX: nat := 0x4
  const HEADER_SIZE: nat := 8

  datatype Field = Field(id: nat, kind: nat, data: bytes)

  /** A field the parser accepts. */
  predicate FieldOk(f: Field) {
    0 < f.id <= FIELD_ID_MAX && 0 < f.kind <= FIELD_TYPE_MAX && |f.data| < WORD_LIMIT
  }

  predicate FieldsOk(fields: seq<Field>) {
    forall i :: 0 <= i < |fields| ==> FieldOk(fields[i])
  }

  // ----- Numbers -----

  function Le2(n: nat): (r: bytes)
    requires n < 0x1_0000
    ensures |r| == 2
  {
    [n % 256, n / 256]
  }

  function Le4(n: nat): (r: bytes)
    requires n < WORD_LIMIT
    ensures |r| == 4
  {
    [ByteOf(n, 0), ByteOf(n, 1), ByteOf(n, 2), ByteOf(n, 3)]
  }

  function Nat2(d: bytes): nat
    requires |d| >= 2
  {
    var b0: int, b1: int := d[0], d[1];
    b0 + 0x100 * b1
  }

  lemma Le2Back(n: nat, rest: bytes)
    requires n < 0x1_0000
    ensures Nat2(Le2(n) + rest) == n
  {
  }

  lemma Le4Back(n: nat, rest: bytes)
    requires n < WORD_LIMIT
    ensures WordAt(Le4(n) + rest, 0) == n
  {
    assert n / 0x1_0000 == n / 0x100 / 0x100;
    assert n / 0x100_0000 == n / 0x1_0000 / 0x100;
  }

  // ----- Fields -----

  function FieldHeader(id: nat, kind: nat, size: nat): (r: bytes)
    requires id < 0x1_0000 && kind < 0x1_0000 && size < WORD_LIMIT
    ensures |r| == HEADER_SIZE
  {
    Le2(id) + Le2(kind) + Le4(size)
  }

  function EncodeField(f: Field): (r: bytes)
    requires FieldOk(f)
    ensures |r| == HEADER_SIZE + |f.data|
  {
    FieldHeader(f.id, f.kind, |f.data|) + f.data
  }

  function EncodeFields(fields: seq<Field>): bytes
    requires FieldsOk(fields)
  {
    if fields == [] then [] else EncodeFields(fields[..|fields| - 1]) + EncodeField(fields[|fields| - 1])
  }

  lemma EncodeFieldsSnoc(fields: seq<Field>, f: Field)
    requires FieldsOk(fields) && FieldOk(f)
    ensures FieldsOk(fields + [f]) && EncodeFields(fields + [f]) == EncodeFields(fields) + EncodeField(f)
  {
    assert (fields + [f])[..|fields|] == fields;
  }

  lemma {:induction false} EncodeFieldsCons(fields: seq<Field>)
    requires FieldsOk(fields) && fields != []
    ensures EncodeFields(fields) == EncodeField(fields[0]) + EncodeFields(fields[1..])
  {
    var n := |fields| - 1;
    if n == 0 {
      assert fields[..0] == [] && fields[1..] == [];
    } else {
      EncodeFieldsCons(fields[..n]);
      assert fields[..n][1..] == fields[1..][..n - 1];
      Assoc(EncodeField(fields[0]), EncodeFields(fields[1..][..n - 1]), EncodeField(fields[n]));
    }
  }

  /** The first field of a payload, if its assertions hold. */
  function FirstField(d: bytes): (r: Option<Field>)
    ensures r.Some? ==> FieldOk(r.value) && HEADER_SIZE + |r.value.data| <= |d|
  {
    if |d| < HEADER_SIZE then None
    else
      var id, kind, size := Nat2(d), Nat2(d[2..]), WordAt(d[4..], 0);
      if 0 < id <= FIELD_ID_MAX && 0 < kind <= FIELD_TYPE_MAX && HEADER_SIZE + size <= |d|
      then Some(Field(id, kind, d[HEADER_SIZE..HEADER_SIZE + size])) else None
  }

  /** A payload parsed as so many fields; none if an assertion of the parser fails. */
  function ParseFields(d: bytes, count: nat): (r: Option<seq<Field>>)
    ensures r.Some? ==> |r.value| == count && FieldsOk(r.value)
    decreases count
  {
    if count == 0 then if d == [] then Some([]) else None
    else
      match FirstField(d)
      case None => None
      case Some(f) =>
        match ParseFields(d[HEADER_SIZE + |f.data|..], count - 1)
        case None => None
        case Some(rest) => Some([f] + rest)
  }

  lemma HeaderParts(id: nat, kind: nat, size: nat, rest: bytes)
    requires id < 0x1_0000 && kind < 0x1_0000 && size < WORD_LIMIT
    ensures var d := FieldHeader(id, kind, size) + rest;
      Nat2(d) == id && Nat2(d[2..]) == kind && WordAt(d[4..], 0) == size && d[HEADER_SIZE..] == rest
  {
    var d := FieldHeader(id, kind, size) + rest;
    assert d == Le2(id) + (Le2(kind) + Le4(size) + rest);
    Le2Back(id, Le2(kind) + Le4(size) + rest);
    assert d[2..] == Le2(kind) + (Le4(size) + rest);
    Le2Back(kind, Le4(size) + rest);
    assert d[4..] == Le4(size) + rest;
    Le4Back(size, rest);
  }

  lemma FirstFieldBack(f: Field, rest: bytes)
    requires FieldOk(f)
    ensures FirstField(EncodeField(f) + rest) == Some(f)
    ensures (EncodeField(f) + rest)[HEADER_SIZE + |f.data|..] == rest
  {
    var d := EncodeField(f) + rest;
    Assoc(FieldHeader(f.id, f.kind, |f.data|), f.data, rest);
    HeaderParts(f.id, f.kind, |f.data|, f.data + rest);
    assert d[HEADER_SIZE..HEADER_SIZE + |f.data|] == f.data;
  }

  /** What was built is what is parsed. */
  lemma {:induction false} ParseBack(fields: seq<Field>)
    requires FieldsOk(fields)
    ensures ParseFields(EncodeFields(fields), |fields|) == Some(fields)
  {
    if fields != [] {
      EncodeFieldsCons(fields);
      FirstFieldBack(fields[0], EncodeFields(fields[1..]));
      ParseBack(fields[1..]);
      assert [fields[0]] + fields[1..] == fields;
    }
  }

  /** And what is parsed is what would have been built: no two payloads parse to the same fields. */
  lemma {:induction false} ParseIsExact(d: bytes, count: nat)
    requires ParseFields(d, count).Some?
    ensures EncodeFields(ParseFields(d, count).value) == d
    decreases count
  {
    if count > 0 {
      var f := FirstField(d).value;
      var rest := d[HEADER_SIZE + |f.data|..];
      ParseIsExact(rest, count - 1);
      var fields := ParseFields(d, count).value;
      assert fields[1..] == ParseFields(rest, count - 1).value;
      EncodeFieldsCons(fields);
      FirstFieldForth(d);
    }
  }

  lemma FirstFieldForth(d: bytes)
    requires FirstField(d).Some?
    ensures var f := FirstField(d).value; EncodeField(f) + d[HEADER_SIZE + |f.data|..] == d
  {
    var f := FirstField(d).value;
    assert d[..2] == Le2(f.id) && d[2..4] == Le2(f.kind);
    NumberForth(d[4..]);
    assert d[4..8] == d[4..][..4] == Le4(|f.data|);
    assert d[..8] == d[..2] + d[2..4] + d[4..8];
  }

  lemma LowByte(b: nat, m: nat)
    requires b < 256
    ensures (b + 256 * m) % 256 == b && (b + 256 * m) / 256 == m
  {
  }

  lemma NumberForth(d: bytes)
    requires |d| >= 4
    ensures WordAt(d, 0) < WORD_LIMIT && Le4(WordAt(d, 0)) == d[..4]
  {
    var b0: int, b1: int, b2: int, b3: int := d[0], d[1], d[2], d[3];
    var m2: nat := b2 + 256 * b3;
    var m1: nat := b1 + 256 * m2;
    var n := WordAt(d, 0);
    assert n == b0 + 256 * m1;
    LowByte(b0, m1);
    LowByte(b1, m2);
    LowByte(b2, b3);
    assert n / 0x1_0000 == n / 0x100 / 0x100;
    assert n / 0x100_0000 == n / 0x1_0000 / 0x100;
  }

  // ----- Messages -----

  /** A message: its fields and the number it is sent under. */
  datatype Message = Message(fields: seq<Field>, seqNum: nat)

  predicate MessageOk(m: Message) {
    FieldsOk(m.fields) && |m.fields| < 0x1_0000 && m.seqNum < 0x1_0000 && |EncodeFields(m.fields)| < WORD_LIMIT
  }

  function MessageHeader(size: nat, count: nat, seqNum: nat): (r: bytes)
    requires size < WORD_LIMIT && count < 0x1_0000 && seqNum < 0x1_0000
    ensures |r| == HEADER_SIZE
  {
    Le4(size) + Le2(count) + Le2(seqNum)
  }

  function EncodeMessage(m: Message): bytes
    requires MessageOk(m)
  {
    MessageHeader(|EncodeFields(m.fields)|, |m.fields|, m.seqNum) + EncodeFields(m.fields)
  }

  /** What is received from a stream: a message and the rest; none if the stream ends early or the payload does not parse. */
  function Receive(stream: bytes): (r: Option<(Message, bytes)>)
    ensures r.Some? ==> |r.value.1| < |stream|
  {
    if |stream| < HEADER_SIZE then None
    else
      var size, count, seqNum := WordAt(stream, 0), Nat2(stream[4..]), Nat2(stream[6..]);
      if |stream| < HEADER_SIZE + size then None
      else
        match ParseFields(stream[HEADER_SIZE..HEADER_SIZE + size], count)
        case None => None
        case Some(fields) => Some((Message(fields, seqNum), stream[HEADER_SIZE + size..]))
  }

  lemma MessageParts(size: nat, count: nat, seqNum: nat, rest: bytes)
    requires size < WORD_LIMIT && count < 0x1_0000 && seqNum < 0x1_0000
    ensures var d := MessageHeader(size, count, seqNum) + rest;
      WordAt(d, 0) == size && Nat2(d[4..]) == count && Nat2(d[6..]) == seqNum && d[HEADER_SIZE..] == rest
  {
    var d := MessageHeader(size, count, seqNum) + rest;
    assert d == Le4(size) + (Le2(count) + Le2(seqNum) + rest);
    Le4Back(size, Le2(count) + Le2(seqNum) + rest);
    assert d[4..] == Le2(count) + (Le2(seqNum) + rest);
    Le2Back(count, Le2(seqNum) + rest);
    assert d[6..] == Le2(seqNum) + rest;
    Le2Back(seqNum, rest);
  }

  /** A message is received as it was sent, and nothing behind it is touched. */
  lemma ReceiveBack(m: Message, rest: bytes)
    requires MessageOk(m)
    ensures Receive(EncodeMessage(m) + rest) == Some((m, rest))
  {
    var payload := EncodeFields(m.fields);
    var header := MessageHeader(|payload|, |m.fields|, m.seqNum);
    var d := EncodeMessage(m) + rest;
    Assoc(header, payload, rest);
    MessageParts(|payload|, |m.fields|, m.seqNum, payload + rest);
    assert d[HEADER_SIZE..HEADER_SIZE + |payload|] == payload && d[HEADER_SIZE + |payload|..] == rest;
    ParseBack(m.fields);
  }

  function EncodeAll(messages: seq<Message>): bytes
    requires forall i :: 0 <= i < |messages| ==> MessageOk(messages[i])
  {
    if messages == [] then [] else EncodeMessage(messages[0]) + EncodeAll(messages[1..])
  }

  function ReceiveAll(stream: bytes): Option<seq<Message>>
    decreases |stream|
  {
    if stream == [] then Some([])
    else
      match Receive(stream)
      case None => None
      case Some((m, rest)) =>
        match ReceiveAll(rest)
        case None => None
        case Some(others) => Some([m] + others)
  }

  /** A stream of messages splits into exactly those messages. */
  lemma {:induction false} FramingBack(messages: seq<Message>)
    requires forall i :: 0 <= i < |messages| ==> MessageOk(messages[i])
    ensures ReceiveAll(EncodeAll(messages)) == Some(messages)
  {
    if messages != [] {
      ReceiveBack(messages[0], EncodeAll(messages[1..]));
      FramingBack(messages[1..]);
      assert EncodeAll(messages) != [];
      assert [messages[0]] + messages[1..] == messages;
    }
  }
}
