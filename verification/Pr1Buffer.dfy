/** The buffer a message is built in, and the loops over it. */
module Pr1Buffer {
  import opened Bytes
  import opened Sequences
  import opened Pr1

  class StreamBuffer {
    var buffer: array<byte>
    var current: nat

    ghost predicate Valid()
      reads this
    {
      current <= buffer.Length
    }

    /** What has been written so far. */
    ghost function Used(): (r: bytes)
      requires Valid()
      reads this, buffer
      ensures |r| == current
    {
      buffer[..current]
    }

    constructor ()
      ensures Valid() && fresh(buffer) && Used() == []
    {
      buffer := new byte[4096](_ => 0xFF);
      current := 0;
    }

    /** Makes room, if need be in a larger buffer to which the old one is copied. */
    method EnsureSpaceLeft(size: nat)
      requires Valid()
      modifies this`buffer
      ensures Valid() && buffer.Length - current >= size && (buffer == old(buffer) || fresh(buffer))
      ensures Used() == old(Used())
    {
      if buffer.Length - current >= size {
        return;
      }
      var smaller := buffer;
      var larger := new byte[smaller.Length + size * 2](_ => 0xFF);
      for i := 0 to smaller.Length
        invariant buffer == smaller && forall j :: 0 <= j < i ==> larger[j] == smaller[j]
      {
        larger[i] := smaller[i];
      }
      buffer := larger;
      assert buffer[..current] == smaller[..current];
    }

    /** Reserves space to be filled in afterwards. */
    method GetWritePointer(size: nat) returns (at: nat)
      requires Valid()
      modifies this
      ensures Valid() && (buffer == old(buffer) || fresh(buffer)) && at == old(current) && current == at + size
      ensures Used()[..at] == old(Used())
    {
      EnsureSpaceLeft(size);
      at := current;
      current := current + size;
    }

    /** Fills in reserved space. */
    method Fill(at: nat, data: bytes)
      requires Valid() && at + |data| <= current
      modifies buffer
      ensures Used() == old(Used())[..at] + data + old(Used())[at + |data|..]
    {
      for i := 0 to |data|
        invariant forall j :: 0 <= j < i ==> buffer[at + j] == data[j]
        invariant forall j :: 0 <= j < buffer.Length && !(at <= j < at + i) ==> buffer[j] == old(buffer[j])
      {
        buffer[at + i] := data[i];
      }
      assert Used()[at..at + |data|] == data;
    }

    method Write(data: bytes)
      requires Valid()
      modifies this, buffer
      ensures Valid() && (buffer == old(buffer) || fresh(buffer)) && Used() == old(Used()) + data
    {
      var at := GetWritePointer(|data|);
      Fill(at, data);
    }
  }

  /** A message that is being built. */
  class Builder {
    const stream: StreamBuffer
    var fieldCount: nat
    ghost var fields: seq<Field>

    /** Behind the space of the header lie the fields, as they are sent. */
    ghost predicate Valid()
      reads this, stream, stream.buffer
    {
      && stream.Valid() && FieldsOk(fields) && fieldCount == |fields|
      && stream.current >= HEADER_SIZE && stream.Used()[HEADER_SIZE..] == EncodeFields(fields)
    }

    constructor ()
      ensures Valid() && fields == [] && fresh(stream) && fresh(stream.buffer)
    {
      stream := new StreamBuffer();
      fieldCount, fields := 0, [];
      new;
      var _ := stream.GetWritePointer(HEADER_SIZE);
    }

    /** The header of a field is written into space reserved for it. */
    method AddFieldHeader(header: bytes)
      requires stream.Valid() && |header| == HEADER_SIZE
      modifies stream, stream.buffer
      ensures stream.Valid() && stream.Used() == old(stream.Used()) + header && (stream.buffer == old(stream.buffer) || fresh(stream.buffer))
    {
      ghost var before := stream.Used();
      var at := stream.GetWritePointer(HEADER_SIZE);
      ghost var reserved := stream.Used();
      stream.Fill(at, header);
      Filled(before, reserved, header);
    }

    /** The header of the field is filled in before its data, which may move the whole buffer. */
    method AddField(id: nat, kind: nat, data: bytes)
      requires Valid() && FieldOk(Field(id, kind, data))
      modifies this, stream, stream.buffer
      ensures Valid() && fields == old(fields) + [Field(id, kind, data)] && (stream.buffer == old(stream.buffer) || fresh(stream.buffer))
    {
      ghost var f := Field(id, kind, data);
      ghost var before := stream.Used();
      AddFieldHeader(FieldHeader(id, kind, |data|));
      stream.Write(data);
      Assoc(before, FieldHeader(id, kind, |data|), data);
      Behead(before, EncodeField(f));
      EncodeFieldsSnoc(fields, f);
      fieldCount := fieldCount + 1;
      fields := fields + [f];
    }

    /** The finished message, under its sequence number. */
    method GetBuffer(seqNum: nat) returns (r: bytes)
      requires Valid() && MessageOk(Message(fields, seqNum))
      modifies stream.buffer
      ensures Valid() && r == EncodeMessage(Message(fields, seqNum))
    {
      ghost var before := stream.Used();
      var header := MessageHeader(stream.current - HEADER_SIZE, fieldCount, seqNum);
      stream.Fill(0, header);
      assert stream.Used() == header + before[HEADER_SIZE..];
      r := stream.buffer[..stream.current];
    }
  }

  lemma Filled(before: bytes, reserved: bytes, header: bytes)
    requires |reserved| == |before| + |header| && reserved[..|before|] == before
    ensures reserved[..|before|] + header + reserved[|before| + |header|..] == before + header
  {
  }

  lemma Behead(a: bytes, b: bytes)
    requires |a| >= HEADER_SIZE
    ensures (a + b)[HEADER_SIZE..] == a[HEADER_SIZE..] + b
  {
  }

  /** Fields read so far, before what the rest parses to. */
  function Behind(fields: seq<Field>, rest: Option<seq<Field>>): Option<seq<Field>> {
    if rest.Some? then Some(fields + rest.value) else None
  }

  /** `fields` have been read up to `current`, and so many are left. */
  ghost predicate Parsed(payload: bytes, count: nat, fields: seq<Field>, current: nat, left: nat) {
    current <= |payload| && ParseFields(payload, count) == Behind(fields, ParseFields(payload[current..], left))
  }

  lemma NothingParsed(payload: bytes, count: nat)
    ensures Parsed(payload, count, [], 0, count)
  {
    assert payload[0..] == payload;
    var r := ParseFields(payload, count);
    if r.Some? {
      assert [] + r.value == r.value;
    }
  }

  lemma NextParsed(payload: bytes, count: nat, fields: seq<Field>, current: nat, left: nat)
    requires Parsed(payload, count, fields, current, left) && left > 0
    ensures var f := FirstField(payload[current..]);
      if f.None? then ParseFields(payload, count) == None
      else Parsed(payload, count, fields + [f.value], current + HEADER_SIZE + |f.value.data|, left - 1)
  {
    var f := FirstField(payload[current..]);
    if f.Some? {
      var offset := HEADER_SIZE + |f.value.data|;
      assert payload[current..][offset..] == payload[current + offset..];
      var rest := ParseFields(payload[current + offset..], left - 1);
      if rest.Some? {
        Assoc(fields, [f.value], rest.value);
      }
    }
  }

  lemma AllParsed(payload: bytes, count: nat, fields: seq<Field>, current: nat)
    requires Parsed(payload, count, fields, current, 0)
    ensures ParseFields(payload, count) == if current == |payload| then Some(fields) else None
  {
    Unit(fields);
    assert payload[current..] == [] <==> current == |payload|;
  }

  /** Parses a payload field by field; none if an assertion fails. */
  method Parse(payload: bytes, count: nat) returns (r: Option<seq<Field>>)
    ensures r == ParseFields(payload, count)
  {
    hide FirstField, ParseFields;
    var fields: seq<Field> := [];
    var current: nat := 0;
    NothingParsed(payload, count);
    for a := 0 to count
      invariant Parsed(payload, count, fields, current, count - a)
    {
      NextParsed(payload, count, fields, current, count - a);
      var f := FirstField(payload[current..]);
      if f.None? {
        return None;
      }
      fields := fields + [f.value];
      current := current + HEADER_SIZE + |f.value.data|;
    }
    AllParsed(payload, count, fields, current);
    r := if current == |payload| then Some(fields) else None;
  }

  /** The first field with an id. */
  method FindById(fields: seq<Field>, id: nat) returns (r: Option<nat>)
    ensures r.Some? ==> r.value < |fields| && fields[r.value].id == id && forall i :: 0 <= i < r.value ==> fields[i].id != id
    ensures r.None? ==> forall i :: 0 <= i < |fields| ==> fields[i].id != id
  {
    for a := 0 to |fields|
      invariant forall i :: 0 <= i < a ==> fields[i].id != id
    {
      if fields[a].id == id {
        return Some(a);
      }
    }
    r := None;
  }
}
