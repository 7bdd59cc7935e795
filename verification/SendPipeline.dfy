/**
  The sending side of a session. A write handed to the socket is complete when its callback is called, without an error;
  every method is one indivisible step. A session begins in text and may turn binary once; the two streams are kept apart.
  */
module SendPipeline {
  import opened Bytes
  import opened Sequences

  const SEND_BUFFER_SIZE: nat := 10 * 1024 * 1024
  const TOO_MUCH_PENDING: nat := 100 * 1024 * 1024

  /** A binary message: six bytes of header, the two of the debug sequence number, which sending fills in, and the rest. */
  datatype Message = Message(head: bytes, rest: bytes)

  function Size(m: Message): nat {
    |m.head| + 2 + |m.rest|
  }

  function Sizes(messages: seq<Message>): nat {
    if messages == [] then 0 else Size(messages[0]) + Sizes(messages[1..])
  }

  /** A 16-bit sequence number, as it is sent. */
  datatype SeqNum = SeqNum(low: byte, high: byte)

  function Incremented(n: SeqNum): SeqNum {
    if n.low < 255 then n.(low := n.low + 1)
    else if n.high < 255 then SeqNum(0, n.high + 1)
    else SeqNum(0, 0)
  }

  /** A message as it is sent under a sequence number. */
  function Wire(m: Message, seqNum: SeqNum): (r: bytes)
    ensures |r| == Size(m)
  {
    m.head + [seqNum.low, seqNum.high] + m.rest
  }

  /** Messages one behind the other, each under its number. */
  function Stream(messages: seq<Message>, seqNums: seq<SeqNum>): bytes
    requires |messages| == |seqNums|
  {
    if messages == [] then []
    else Stream(messages[..|messages| - 1], seqNums[..|messages| - 1]) + Wire(messages[|messages| - 1], seqNums[|messages| - 1])
  }

  function Join(texts: seq<bytes>): bytes {
    if texts == [] then [] else Join(texts[..|texts| - 1]) + texts[|texts| - 1]
  }

  function Lengths(texts: seq<bytes>): nat {
    if texts == [] then 0 else Lengths(texts[..|texts| - 1]) + |texts[|texts| - 1]|
  }

  lemma {:induction false} SizesSnoc(messages: seq<Message>, m: Message)
    ensures Sizes(messages + [m]) == Sizes(messages) + Size(m)
  {
    if messages == [] {
      assert [m][1..] == [];
    } else {
      SizesSnoc(messages[1..], m);
      assert (messages + [m])[1..] == messages[1..] + [m];
    }
  }

  lemma StreamSnoc(messages: seq<Message>, seqNums: seq<SeqNum>, m: Message, seqNum: SeqNum)
    requires |messages| == |seqNums|
    ensures Stream(messages + [m], seqNums + [seqNum]) == Stream(messages, seqNums) + Wire(m, seqNum)
  {
    assert (messages + [m])[..|messages|] == messages && (seqNums + [seqNum])[..|messages|] == seqNums;
  }

  lemma JoinSnoc(texts: seq<bytes>, t: bytes)
    ensures Join(texts + [t]) == Join(texts) + t
  {
    assert (texts + [t])[..|texts|] == texts;
  }

  class Session {
    var valid: bool
    var pendingSendSize: int
    var pendingBinarySendData: seq<Message>
    var binarySendInProgress: bool
    var binarySendBuffer: bytes
    var debugSeqNum: SeqNum
    var pendingSendData: seq<bytes>
    /** The texts handed to the socket whose callback has not come yet. */
    var beingWritten: seq<bytes>
    /** The server has been told that the client does not receive any more, and will remove the session. */
    var failed: bool
    /** What the socket has written, in binary and in text. */
    ghost var wire: bytes
    ghost var textWire: bytes
    /** The messages that have left the queue, under which numbers, and the texts that have been written. */
    ghost var gone: seq<Message>
    ghost var seqNums: seq<SeqNum>
    ghost var textGone: seq<bytes>

    /** Every message and every text accepted for sending, in order. */
    ghost function Sent(): seq<Message>
      reads this
    {
      gone + pendingBinarySendData
    }

    ghost function Texts(): seq<bytes>
      reads this
    {
      textGone + beingWritten + pendingSendData
    }

    ghost function InFlight(): bytes
      reads this
    {
      if binarySendInProgress then binarySendBuffer else []
    }

    /** The counter is what it is meant to be: text being written, binary queued and binary being written. */
    ghost predicate Counted()
      reads this
    {
      pendingSendSize == Lengths(beingWritten) + Sizes(pendingBinarySendData) + |InFlight()|
    }

    /** The bytes written or being written are the messages that have left the queue, in order. */
    ghost predicate Ordered()
      reads this
    {
      |seqNums| == |gone| && wire + InFlight() == Stream(gone, seqNums)
    }

    /** At most one text is being written, none is empty, and while the session sends only text none waits for nothing. */
    ghost predicate TextOrdered()
      reads this
    {
      && textWire == Join(textGone) && NoneEmpty(beingWritten) && NoneEmpty(pendingSendData) && |beingWritten| <= 1
      && (valid && Sent() == [] && pendingSendData != [] ==> beingWritten != [])
    }

    ghost predicate Steady()
      reads this
    {
      Counted() && Ordered() && TextOrdered()
    }

    /** And no queued message waits without a write in progress. */
    ghost predicate Valid()
      reads this
    {
      Steady() && (valid && pendingBinarySendData != [] ==> binarySendInProgress)
    }

    constructor ()
      ensures Valid() && valid && !failed && Sent() == [] && wire == [] && textWire == [] && !binarySendInProgress
      ensures textGone == [] && beingWritten == [] && pendingSendData == [] && pendingSendSize == 0
    {
      valid, failed, pendingSendSize, binarySendInProgress, debugSeqNum := true, false, 0, false, SeqNum(0, 0);
      pendingBinarySendData, binarySendBuffer, pendingSendData, beingWritten := [], [], [], [];
      wire, textWire, gone, seqNums, textGone := [], [], [], [], [];
    }

    // ----- Binary -----

    /** As many whole messages as fit go into the buffer. */
    method FillBuffer()
      requires |seqNums| == |gone| && wire == Stream(gone, seqNums) && pendingBinarySendData != []
      modifies this`pendingBinarySendData, this`binarySendBuffer, this`debugSeqNum, this`gone, this`seqNums
      ensures |seqNums| == |gone| && wire + binarySendBuffer == Stream(gone, seqNums) && Sent() == old(Sent())
      ensures |binarySendBuffer| + Sizes(pendingBinarySendData) == Sizes(old(pendingBinarySendData))
      ensures |binarySendBuffer| <= SEND_BUFFER_SIZE && |gone| >= |old(gone)|
      ensures |gone| == |old(gone)| <==> Size(old(pendingBinarySendData)[0]) > SEND_BUFFER_SIZE
    {
      binarySendBuffer := [];
      Unit(wire);
      ghost var first := Size(pendingBinarySendData[0]);
      while pendingBinarySendData != []
        invariant |seqNums| == |gone| >= |old(gone)| && |binarySendBuffer| <= SEND_BUFFER_SIZE
        invariant wire + binarySendBuffer == Stream(gone, seqNums)
        invariant Sent() == old(Sent())
        invariant |binarySendBuffer| + Sizes(pendingBinarySendData) == Sizes(old(pendingBinarySendData))
        invariant if |gone| == |old(gone)| then pendingBinarySendData == old(pendingBinarySendData) && binarySendBuffer == [] else first <= SEND_BUFFER_SIZE
        decreases |pendingBinarySendData|
      {
        var item := pendingBinarySendData[0];
        debugSeqNum := Incremented(debugSeqNum);
        if |binarySendBuffer| + Size(item) > SEND_BUFFER_SIZE {
          break;
        }
        StreamSnoc(gone, seqNums, item, debugSeqNum);
        Assoc(wire, binarySendBuffer, Wire(item, debugSeqNum));
        TakeFirst(gone, pendingBinarySendData);
        binarySendBuffer := binarySendBuffer + Wire(item, debugSeqNum);
        gone, seqNums := gone + [item], seqNums + [debugSeqNum];
        pendingBinarySendData := pendingBinarySendData[1..];
      }
    }

    /**
      Hands as many whole messages to the socket as the buffer takes, unless a write is in progress.
      Nothing is handed over if and only if the first message does not fit the buffer.
      */
    method SendPendingBinaryData()
      requires Steady()
      modifies this`pendingBinarySendData, this`binarySendInProgress, this`binarySendBuffer, this`debugSeqNum, this`gone, this`seqNums
      ensures Valid() && Sent() == old(Sent()) && |gone| >= |old(gone)|
      ensures old(binarySendInProgress) || !valid || old(pendingBinarySendData) == [] ==>
        binarySendInProgress == old(binarySendInProgress) && pendingBinarySendData == old(pendingBinarySendData)
      ensures !old(binarySendInProgress) && valid && old(pendingBinarySendData) != [] ==> binarySendInProgress
      ensures !old(binarySendInProgress) && valid && old(pendingBinarySendData) != [] ==>
        (|gone| == |old(gone)| <==> Size(old(pendingBinarySendData)[0]) > SEND_BUFFER_SIZE)
    {
      hide Stream;
      if binarySendInProgress || !valid || pendingBinarySendData == [] {
        return;
      }
      Unit(wire);
      FillBuffer();
      binarySendInProgress := true;
    }

    method Queue(message: Message)
      requires Steady()
      modifies this`pendingBinarySendData, this`pendingSendSize
      ensures Steady() && Sent() == old(Sent()) + [message] && pendingBinarySendData == old(pendingBinarySendData) + [message]
      ensures pendingSendSize == old(pendingSendSize) + Size(message)
    {
      var queued := pendingBinarySendData;
      pendingBinarySendData := queued + [message];
      pendingSendSize := pendingSendSize + Size(message);
      SizesSnoc(queued, message);
      Assoc(gone, queued, [message]);
    }

    method SendBinaryMessage(message: Message)
      requires Valid()
      modifies this`pendingBinarySendData, this`pendingSendSize, this`binarySendInProgress, this`binarySendBuffer
      modifies this`debugSeqNum, this`gone, this`seqNums
      ensures Valid() && Sent() == if valid then old(Sent()) + [message] else old(Sent())
      ensures pendingSendSize == old(pendingSendSize) + if valid then Size(message) else 0
      ensures valid && !old(binarySendInProgress) && Size(message) <= SEND_BUFFER_SIZE ==>
        binarySendInProgress && pendingBinarySendData == [] && |binarySendBuffer| == Size(message)
    {
      hide Stream;
      if !valid {
        return;
      }
      Queue(message);
      SendPendingBinaryData();
    }

    /** A snapshot: its messages are queued together. */
    method SendBinaryMessages(messages: seq<Message>)
      requires Valid()
      modifies this`pendingBinarySendData, this`pendingSendSize, this`binarySendInProgress, this`binarySendBuffer
      modifies this`debugSeqNum, this`gone, this`seqNums
      ensures Valid() && Sent() == if valid then old(Sent()) + messages else old(Sent())
    {
      hide Stream;
      if !valid {
        return;
      }
      Unit(Sent());
      for n := 0 to |messages|
        invariant Steady() && Sent() == old(Sent()) + messages[..n]
      {
        Snoc(messages, n);
        Assoc(old(Sent()), messages[..n], [messages[n]]);
        Queue(messages[n]);
      }
      Whole(messages);
      SendPendingBinaryData();
    }

    /** The callback of a binary write: all of the buffer is written, and the next messages follow. */
    method OnBinaryMessageSent()
      requires Valid() && binarySendInProgress
      modifies this`pendingBinarySendData, this`pendingSendSize, this`binarySendInProgress, this`binarySendBuffer
      modifies this`debugSeqNum, this`gone, this`seqNums, this`wire
      ensures Valid() && Sent() == old(Sent())
      ensures wire == old(wire) + old(binarySendBuffer)
      ensures pendingSendSize == old(pendingSendSize) - |old(binarySendBuffer)| >= 0
      ensures |gone| >= |old(gone)| && (old(pendingBinarySendData) == [] ==> !binarySendInProgress && pendingBinarySendData == [])
      ensures valid && old(pendingBinarySendData) != [] ==>
        (|gone| > |old(gone)| <==> Size(old(pendingBinarySendData)[0]) <= SEND_BUFFER_SIZE)
    {
      pendingSendSize := pendingSendSize - |binarySendBuffer|;
      wire := wire + binarySendBuffer;
      binarySendInProgress := false;
      Unit(wire);
      SendPendingBinaryData();
    }

    // ----- Text -----

    method SendStringNow(str: bytes)
      requires Counted() && Ordered() && textWire == Join(textGone) && NoneEmpty(pendingSendData) && str != [] && beingWritten == []
      modifies this`pendingSendSize, this`beingWritten
      ensures Counted() && (valid ==> Steady()) && beingWritten == if valid then [str] else []
      ensures pendingSendSize == old(pendingSendSize) + if valid then |str| else 0
    {
      if !valid {
        return;
      }
      beingWritten := [str];
      pendingSendSize := pendingSendSize + |str|;
      OneLength(str);
    }

    /**
      A text goes out at once if nothing is pending; otherwise it queues, unless far too much is pending, and then the
      server is told. It keeps its place unless texts are queued and nothing is pending, and that only happens once
      binary was sent too: when a text snapshot is still being sent by the publisher thread after the session has turned binary.
      */
    method SendString(str: bytes) returns (dropped: bool)
      requires Valid() && str != []
      modifies this`pendingSendSize, this`beingWritten, this`pendingSendData, this`failed
      ensures Valid()
      ensures dropped <==> !valid || old(pendingSendSize) > TOO_MUCH_PENDING
      ensures failed <==> old(failed) || (valid && old(pendingSendSize) > TOO_MUCH_PENDING)
      ensures dropped || old(pendingSendSize) != 0 ==> pendingSendSize == old(pendingSendSize) && beingWritten == old(beingWritten)
      ensures dropped ==> pendingSendData == old(pendingSendData)
      ensures !dropped && old(pendingSendSize) != 0 ==> pendingSendData == old(pendingSendData) + [str]
      ensures !dropped && old(pendingSendSize) == 0 ==>
        pendingSendSize == |str| && beingWritten == [str] && old(beingWritten) == [] && pendingSendData == old(pendingSendData)
      ensures !dropped ==> Texts() == if old(pendingSendSize) == 0 && old(pendingSendData) != []
        then old(textGone) + [str] + old(pendingSendData) else old(Texts()) + [str]
      ensures valid && old(pendingSendSize) == 0 && old(pendingSendData) != [] ==> Sent() != []
    {
      if !valid {
        return true;
      }
      if pendingSendSize != 0 {
        if pendingSendSize > TOO_MUCH_PENDING {
          failed := true;
          return true;
        }
        QueuedText(pendingSendData, str);
        Assoc(textGone + beingWritten, pendingSendData, [str]);
        pendingSendData := pendingSendData + [str];
        return false;
      }
      NothingLong(beingWritten);
      Unit(textGone);
      SendStringNow(str);
      Unit(textGone + [str]);
      return false;
    }

    method TextWritten()
      requires Steady() && beingWritten != []
      modifies this`pendingSendSize, this`textWire, this`textGone, this`beingWritten
      ensures Counted() && textWire == Join(textGone) && beingWritten == []
      ensures textWire == old(textWire) + old(beingWritten)[0] && textGone == old(textGone) + old(beingWritten)
    {
      var written := beingWritten[0];
      assert beingWritten == [written];
      OneLength(written);
      JoinSnoc(textGone, written);
      pendingSendSize := pendingSendSize - |written|;
      textWire, textGone := textWire + written, textGone + [written];
      beingWritten := [];
    }

    /** The callback of a text write: the next text of the queue follows. */
    method OnWrite()
      requires Valid() && beingWritten != []
      modifies this`pendingSendSize, this`textWire, this`textGone, this`beingWritten, this`pendingSendData
      ensures Valid()
      ensures textWire == old(textWire) + old(beingWritten)[0] && pendingSendSize >= 0
      ensures valid ==> Texts() == old(Texts())
      ensures beingWritten == if valid && old(pendingSendData) != [] then [old(pendingSendData)[0]] else []
    {
      hide Stream;
      TextWritten();
      if pendingSendData != [] {
        var next := pendingSendData[0];
        pendingSendData := pendingSendData[1..];
        SendStringNow(next);
      }
    }

    /** Once the socket has written all it was given, every message accepted is out, in order, and none of it is counted as pending. */
    method WriteOut()
      requires Valid() && valid && forall i :: 0 <= i < |Sent()| ==> Size(Sent()[i]) <= SEND_BUFFER_SIZE
      modifies this`pendingBinarySendData, this`pendingSendSize, this`binarySendInProgress, this`binarySendBuffer
      modifies this`debugSeqNum, this`gone, this`seqNums, this`wire
      ensures Valid() && Sent() == old(Sent()) && !binarySendInProgress && pendingSendSize == Lengths(beingWritten)
      ensures |seqNums| == |Sent()| && wire == Stream(Sent(), seqNums) && old(wire) <= wire
    {
      while binarySendInProgress
        invariant Valid() && Sent() == old(Sent()) && old(wire) <= wire
        decreases |pendingBinarySendData|, binarySendInProgress
      {
        ghost var queued := pendingBinarySendData;
        assert queued != [] ==> queued[0] == Sent()[|gone|];
        OnBinaryMessageSent();
        Shorter(old(Sent()), gone, pendingBinarySendData);
      }
      Unit(wire);
      Unit(gone);
    }
  }

  /**
    A text that queues behind a binary message is overtaken by the next one: the message is written, nothing is pending
    any more, and nobody sends the text that waits.
    */
  method TextOvertaken(message: Message, a: bytes, b: bytes) returns (s: Session)
    requires a != [] && b != [] && Size(message) <= SEND_BUFFER_SIZE
    ensures s.Valid() && s.valid && s.beingWritten == [b] && s.pendingSendData == [a] && s.Texts() == [b, a]
  {
    hide Session.Steady;
    s := new Session();
    s.SendBinaryMessage(message);
    var dropped := s.SendString(a);
    assert s.pendingSendData == [a] && s.beingWritten == [];
    s.OnBinaryMessageSent();
    assert s.pendingSendSize == 0;
    dropped := s.SendString(b);
  }

  lemma Shorter<T>(all: seq<T>, a: seq<T>, b: seq<T>)
    requires all == a + b
    ensures |b| == |all| - |a|
  {
  }

  predicate NoneEmpty(texts: seq<bytes>) {
    forall i :: 0 <= i < |texts| ==> texts[i] != []
  }

  lemma QueuedText(queued: seq<bytes>, t: bytes)
    requires NoneEmpty(queued) && t != []
    ensures NoneEmpty(queued + [t])
  {
  }

  lemma NothingLong(texts: seq<bytes>)
    requires |texts| <= 1 && NoneEmpty(texts)
    ensures Lengths(texts) == 0 <==> texts == []
  {
  }

  lemma OneLength(t: bytes)
    ensures Lengths([t]) == |t|
  {
    assert [t][..0] == [];
  }

  lemma TakeFirst<T>(gone: seq<T>, queued: seq<T>)
    requires queued != []
    ensures gone + [queued[0]] + queued[1..] == gone + queued
  {
  }
}
