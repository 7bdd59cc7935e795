/**
  The ring queue of the protocol logger. Every method below is one indivisible step of the producer, who holds the
  lock of the queue, or of the writing thread, who holds none; the steps of the two may follow one another in any order.
  */
module ProtocolLogger {
  import opened Sequences

  /** Where the producer is in `RawLog`: the slot is written before there is room, then the head moves, then it wraps. */
  datatype Producer = Resting | Put(what: string) | Moved

  /** Where the writing thread is: it writes an entry to the file, clears its slot, moves the tail, then wraps it. */
  datatype Consumer = Looking | Wrote | Cleared | Stepped

  class Logger {
    const rawLogQueue: array<string>
    var logQueueHead: nat
    var logQueueTail: nat
    var producer: Producer
    var consumer: Consumer
    var file: seq<string>
    /** Every entry the head has moved past, and how many of them the tail has moved past. */
    ghost var logged: seq<string>
    ghost var passed: nat

    /** The place behind `n` steps round the ring from `from`. */
    ghost function Round(from: nat, n: nat): nat {
      if from + n < rawLogQueue.Length then from + n else from + n - rawLogQueue.Length
    }

    /** Head and tail once they have wrapped. */
    ghost function Head(): nat
      reads this
    {
      if logQueueHead == rawLogQueue.Length then 0 else logQueueHead
    }

    ghost function Tail(): nat
      reads this
    {
      if logQueueTail == rawLogQueue.Length then 0 else logQueueTail
    }

    /** The entries not yet passed, of which the first may have been written to the file already. */
    ghost function Unread(): seq<string>
      requires passed <= |logged|
      reads this
    {
      logged[passed..]
    }

    /** Whatever the steps of the two threads do, head and tail stay in the ring but for the moment before they wrap. */
    ghost predicate Bounded()
      reads this
    {
      && rawLogQueue.Length > 1 && logQueueHead <= rawLogQueue.Length && logQueueTail <= rawLogQueue.Length
      && (logQueueHead == rawLogQueue.Length ==> producer.Moved?)
      && (logQueueTail == rawLogQueue.Length ==> consumer.Stepped?)
    }

    ghost predicate Indexed()
      reads this
    {
      && Bounded() && passed <= |logged|
      && |Unread()| == (if Tail() <= Head() then Head() - Tail() else rawLogQueue.Length - Tail() + Head())
    }

    /** The slots from the tail on hold the entries not yet passed; there is always a slot to spare, which the producer may fill. */
    ghost predicate Valid()
      reads this, rawLogQueue
    {
      && Indexed()
      && (forall i :: 0 <= i < |Unread()| && (consumer.Cleared? ==> i > 0) ==> rawLogQueue[Round(Tail(), i)] == Unread()[i])
      && (producer.Put? ==> rawLogQueue[Head()] == producer.what)
      && (consumer.Wrote? || consumer.Cleared? ==> |Unread()| > 0)
      && passed + (if consumer.Wrote? || consumer.Cleared? then 1 else 0) <= |logged|
      && file == logged[..passed + (if consumer.Wrote? || consumer.Cleared? then 1 else 0)]
    }

    constructor (size: nat)
      requires size > 1
      ensures Valid() && fresh(rawLogQueue) && rawLogQueue[..] == seq(size, _ => "") && logQueueHead == 0 && logQueueTail == 0
      ensures producer == Resting && consumer == Looking && file == [] && logged == [] && passed == 0
    {
      rawLogQueue := new string[size](_ => "");
      logQueueHead, logQueueTail, producer, consumer, file := 0, 0, Resting, Looking, [];
      logged, passed := [], 0;
    }

    /** Full means that all slots but one hold an entry the tail has not passed. */
    predicate IsLogQueueFull()
      requires rawLogQueue.Length > 0 && logQueueTail <= rawLogQueue.Length
      reads this
    {
      (rawLogQueue.Length - logQueueTail + logQueueHead) % rawLogQueue.Length == rawLogQueue.Length - 1
    }

    lemma FullIs()
      requires Indexed() && !producer.Moved?
      ensures IsLogQueueFull() <==> |Unread()| == rawLogQueue.Length - 1
    {
      var n := rawLogQueue.Length;
      RingModulo(n, n - logQueueTail + logQueueHead);
    }

    /** The producer puts its entry into the slot at the head, whether or not there is room. */
    method PutSlot(what: string)
      requires Bounded() && producer.Resting?
      modifies this`producer, rawLogQueue
      ensures Bounded() && producer == Put(what) && rawLogQueue[..] == old(rawLogQueue[..])[logQueueHead := what]
      ensures old(Valid()) ==> Valid()
    {
      rawLogQueue[logQueueHead] := what;
      producer := Put(what);
    }

    /** If there is room the head moves, and the entry is logged; otherwise the producer goes on waiting. */
    method MoveHead() returns (moved: bool)
      requires Bounded() && producer.Put?
      modifies this`producer, this`logQueueHead, this`logged
      ensures Bounded() && (moved <==> !old(IsLogQueueFull())) && logQueueHead == old(logQueueHead) + if moved then 1 else 0
      ensures moved ==> producer == Moved && logged == old(logged) + [old(producer).what]
      ensures !moved ==> producer == old(producer) && logged == old(logged)
      ensures old(Valid()) ==> Valid() && (moved <==> |old(Unread())| < rawLogQueue.Length - 1)
    {
      if Valid() {
        FullIs();
      }
      if IsLogQueueFull() {
        return false;
      }
      Grown(logged, passed, producer.what);
      logged := logged + [producer.what];
      logQueueHead := logQueueHead + 1;
      producer := Moved;
      return true;
    }

    method WrapHead()
      requires Bounded() && producer.Moved?
      modifies this`producer, this`logQueueHead
      ensures Bounded() && producer == Resting
      ensures logQueueHead == if old(logQueueHead) == rawLogQueue.Length then 0 else old(logQueueHead)
      ensures old(Valid()) ==> Valid()
    {
      if logQueueHead >= rawLogQueue.Length {
        logQueueHead := 0;
      }
      producer := Resting;
    }

    /**
      The thread takes the queue for empty if head and tail are equal. It is right unless it looks at an empty queue
      between the move of the head past the last slot and its wrap.
      */
    lemma EmptyTestIs()
      requires Indexed() && consumer.Looking?
      ensures (logQueueTail == logQueueHead <==> |Unread()| == 0) <==> !(logQueueHead == rawLogQueue.Length && |Unread()| == 0)
    {
    }

    /** The slot at the tail is written to the file unless the queue is taken for empty. */
    method WriteEntry() returns (wrote: bool)
      requires Bounded() && consumer.Looking?
      modifies this`consumer, this`file
      ensures Bounded() && (wrote <==> logQueueTail != logQueueHead)
      ensures wrote ==> consumer == Wrote && file == old(file) + [rawLogQueue[logQueueTail]]
      ensures !wrote ==> consumer == Looking && file == old(file)
      ensures old(Valid()) && (logQueueHead == rawLogQueue.Length ==> |old(Unread())| > 0) ==>
        Valid() && (wrote <==> |old(Unread())| > 0) && (wrote ==> rawLogQueue[logQueueTail] == old(Unread())[0])
    {
      if Valid() {
        EmptyTestIs();
      }
      if logQueueTail == logQueueHead {
        return false;
      }
      if Valid() && |Unread()| > 0 {
        assert rawLogQueue[Round(Tail(), 0)] == Unread()[0];
        assert logged[..passed + 1] == logged[..passed] + [logged[passed]];
      }
      file := file + [rawLogQueue[logQueueTail]];
      consumer := Wrote;
      return true;
    }

    method ClearSlot()
      requires Bounded() && consumer.Wrote?
      modifies this`consumer, rawLogQueue
      ensures Bounded() && consumer == Cleared && rawLogQueue[..] == old(rawLogQueue[..])[logQueueTail := ""]
      ensures old(Valid()) ==> Valid()
    {
      rawLogQueue[logQueueTail] := "";
      consumer := Cleared;
    }

    method MoveTail()
      requires Bounded() && consumer.Cleared?
      modifies this`consumer, this`logQueueTail, this`passed
      ensures Bounded() && consumer == Stepped && logQueueTail == old(logQueueTail) + 1 && passed == old(passed) + 1
      ensures old(Valid()) ==> Valid()
    {
      if Valid() {
        assert logged[passed + 1..] == Unread()[1..];
      }
      logQueueTail := logQueueTail + 1;
      passed := passed + 1;
      consumer := Stepped;
    }

    method WrapTail()
      requires Bounded() && consumer.Stepped?
      modifies this`consumer, this`logQueueTail
      ensures Bounded() && consumer == Looking
      ensures logQueueTail == if old(logQueueTail) == rawLogQueue.Length then 0 else old(logQueueTail)
      ensures old(Valid()) ==> Valid()
    {
      if logQueueTail >= rawLogQueue.Length {
        logQueueTail := 0;
      }
      consumer := Looking;
    }
  }

  // ----- Any schedule -----

  /** One of the two threads makes its next step. */
  datatype Tick = Produce | Consume

  /** What a schedule is about: the entries still to be handed in, where the two threads are, and the entries logged and passed. */
  datatype Log = Log(todo: seq<string>, producer: Producer, consumer: Consumer, logged: seq<string>, passed: nat)

  function InHand(producer: Producer): seq<string> {
    if producer.Put? then [producer.what] else []
  }

  /** A queue of bounded size, without a ring. */
  function Ticked(q: Log, size: nat, tick: Tick): Log {
    match tick
    case Produce =>
      if q.producer.Put? then
        if |q.logged| - q.passed < size - 1 then q.(producer := Resting, logged := q.logged + [q.producer.what]) else q
      else if q.todo == [] then q
      else q.(todo := q.todo[1..], producer := Put(q.todo[0]))
    case Consume =>
      match q.consumer
      case Looking => if q.passed < |q.logged| then q.(consumer := Wrote) else q
      case Wrote => q.(consumer := Cleared)
      case Cleared => q.(consumer := Stepped, passed := q.passed + 1)
      case Stepped => q.(consumer := Looking)
  }

  function TickedAll(q: Log, size: nat, ticks: seq<Tick>): Log {
    if ticks == [] then q else Ticked(TickedAll(q, size, ticks[..|ticks| - 1]), size, ticks[|ticks| - 1])
  }

  ghost function LogOf(l: Logger, todo: seq<string>): Log
    reads l
  {
    Log(todo, l.producer, l.consumer, l.logged, l.passed)
  }

  /**
    Any schedule of the two threads, the move of the head and its wrap being one step, is that of the bounded queue: the
    file is always a beginning of what has been logged, and what it lacks fits the ring with a slot to spare.
    */
  method Run(l: Logger, entries: seq<string>, ticks: seq<Tick>) returns (todo: seq<string>)
    requires l.Valid() && !l.producer.Moved?
    modifies l, l.rawLogQueue
    ensures l.Valid() && !l.producer.Moved?
    ensures LogOf(l, todo) == TickedAll(old(LogOf(l, entries)), l.rawLogQueue.Length, ticks)
    ensures l.logged + InHand(l.producer) + todo == old(l.logged) + InHand(old(l.producer)) + entries
    ensures l.file <= l.logged && |l.logged| - |l.file| < l.rawLogQueue.Length
    ensures old(l.file) <= l.file && old(l.logged) <= l.logged
  {
    hide Logger.Valid, Ticked;
    todo := entries;
    for n := 0 to |ticks|
      invariant l.Valid() && !l.producer.Moved?
      invariant LogOf(l, todo) == TickedAll(old(LogOf(l, entries)), l.rawLogQueue.Length, ticks[..n])
      invariant old(l.file) <= l.file && old(l.logged) <= l.logged
    {
      Snoc(ticks, n);
      assert ticks[..n + 1][..n] == ticks[..n];
      match ticks[n] {
        case Produce =>
          todo := ProducerStep(l, todo);
        case Consume =>
          ConsumerStep(l, todo);
      }
    }
    Whole(ticks);
    NothingIsLost(old(LogOf(l, entries)), l.rawLogQueue.Length, ticks);
    FileIs(l);
  }

  lemma FileIs(l: Logger)
    requires l.Valid()
    ensures l.file <= l.logged && |l.logged| - |l.file| < l.rawLogQueue.Length
  {
  }

  method ProducerStep(l: Logger, entries: seq<string>) returns (todo: seq<string>)
    requires l.Valid() && !l.producer.Moved?
    modifies l, l.rawLogQueue
    ensures l.Valid() && !l.producer.Moved? && LogOf(l, todo) == Ticked(old(LogOf(l, entries)), l.rawLogQueue.Length, Produce)
    ensures old(l.file) <= l.file && old(l.logged) <= l.logged
  {
    todo := entries;
    if l.producer.Put? {
      var moved := l.MoveHead();
      if moved {
        l.WrapHead();
      }
    } else if todo != [] {
      l.PutSlot(todo[0]);
      todo := todo[1..];
    }
  }

  method ConsumerStep(l: Logger, ghost todo: seq<string>)
    requires l.Valid() && !l.producer.Moved?
    modifies l, l.rawLogQueue
    ensures l.Valid() && !l.producer.Moved? && LogOf(l, todo) == Ticked(old(LogOf(l, todo)), l.rawLogQueue.Length, Consume)
    ensures old(l.file) <= l.file && old(l.logged) <= l.logged
  {
    match l.consumer {
      case Looking => var _ := l.WriteEntry();
      case Wrote => l.ClearSlot();
      case Cleared => l.MoveTail();
      case Stepped => l.WrapTail();
    }
  }

  /** Nothing handed in is lost, doubled or put out of order: what is logged, in hand and still to come is always the same. */
  lemma {:induction false} NothingIsLost(q: Log, size: nat, ticks: seq<Tick>)
    requires !q.producer.Moved?
    ensures var r := TickedAll(q, size, ticks);
      !r.producer.Moved? && r.logged + InHand(r.producer) + r.todo == q.logged + InHand(q.producer) + q.todo
  {
    if ticks != [] {
      NothingIsLost(q, size, ticks[..|ticks| - 1]);
      TickKeeps(TickedAll(q, size, ticks[..|ticks| - 1]), size, ticks[|ticks| - 1]);
    }
  }

  lemma TickKeeps(q: Log, size: nat, tick: Tick)
    requires !q.producer.Moved?
    ensures var r := Ticked(q, size, tick);
      !r.producer.Moved? && r.logged + InHand(r.producer) + r.todo == q.logged + InHand(q.producer) + q.todo
  {
    Unit(q.logged);
    if tick.Produce? && q.producer.Put? {
      Unit(q.logged + [q.producer.what]);
    } else if tick.Produce? && q.todo != [] {
      assert q.logged + [q.todo[0]] + q.todo[1..] == q.logged + q.todo;
    }
  }

  /** A schedule in which the producer hands in an entry and the thread writes it out, `n` times over. */
  function Turns(n: nat): seq<Tick> {
    if n == 0 then [] else [Produce, Produce, Consume, Consume, Consume, Consume] + Turns(n - 1)
  }

  /** Everything can be written out: the turns of the two threads end with all entries logged, passed and, with that, in the file. */
  lemma {:induction false} EverythingIsWritten(q: Log, size: nat)
    requires size > 1 && q.producer.Resting? && q.consumer.Looking? && q.passed == |q.logged|
    ensures TickedAll(q, size, Turns(|q.todo|)) == Log([], Resting, Looking, q.logged + q.todo, |q.logged| + |q.todo|)
    decreases |q.todo|
  {
    hide Ticked;
    Unit(q.logged);
    if q.todo != [] {
      var turn := [Produce, Produce, Consume, Consume, Consume, Consume];
      var next := Log(q.todo[1..], Resting, Looking, q.logged + [q.todo[0]], q.passed + 1);
      OneTurn(q, size);
      TickedOn(q, size, turn, Turns(|q.todo| - 1));
      EverythingIsWritten(next, size);
      assert q.logged + [q.todo[0]] + q.todo[1..] == q.logged + q.todo;
    }
  }

  lemma OneTurn(q: Log, size: nat)
    requires size > 1 && q.producer.Resting? && q.consumer.Looking? && q.passed == |q.logged| && q.todo != []
    ensures TickedAll(q, size, [Produce, Produce, Consume, Consume, Consume, Consume]) ==
      Log(q.todo[1..], Resting, Looking, q.logged + [q.todo[0]], q.passed + 1)
  {
    TickedOn(q, size, [Produce, Produce, Consume], [Consume, Consume, Consume]);
    ThreeTicks(q, size, Produce, Produce, Consume);
    ThreeTicks(TickedAll(q, size, [Produce, Produce, Consume]), size, Consume, Consume, Consume);
    assert [Produce, Produce, Consume] + [Consume, Consume, Consume] == [Produce, Produce, Consume, Consume, Consume, Consume];
  }

  lemma ThreeTicks(q: Log, size: nat, a: Tick, b: Tick, c: Tick)
    ensures TickedAll(q, size, [a, b, c]) == Ticked(Ticked(Ticked(q, size, a), size, b), size, c)
  {
    assert [a, b, c][..2] == [a, b] && [a, b][..1] == [a] && [a][..0] == [];
    assert TickedAll(q, size, [a]) == Ticked(q, size, a);
    assert TickedAll(q, size, [a, b]) == Ticked(TickedAll(q, size, [a]), size, b);
  }

  lemma {:induction false} TickedOn(q: Log, size: nat, a: seq<Tick>, b: seq<Tick>)
    ensures TickedAll(q, size, a + b) == TickedAll(TickedAll(q, size, a), size, b)
    decreases |b|
  {
    if b == [] {
      Unit(a);
    } else {
      TickedOn(q, size, a, b[..|b| - 1]);
      assert (a + b)[..|a + b| - 1] == a + b[..|b| - 1];
    }
  }

  // ----- The wrap as a step of its own -----

  /** The producer logs an entry, up to the wrap. */
  method LogOne(l: Logger, what: string)
    requires l.Bounded() && l.producer.Resting? && !l.IsLogQueueFull()
    modifies l`producer, l`logQueueHead, l`logged, l.rawLogQueue
    ensures l.Bounded() && l.producer == Moved && l.logged == old(l.logged) + [what]
    ensures l.logQueueHead == old(l.logQueueHead) + 1 && l.rawLogQueue[..] == old(l.rawLogQueue[..])[old(l.logQueueHead) := what]
    ensures old(l.Valid()) ==> l.Valid()
  {
    hide Logger.Valid;
    l.PutSlot(what);
    var _ := l.MoveHead();
  }

  /** The thread writes out the slot at the tail. */
  method WriteOut(l: Logger)
    requires l.Bounded() && l.consumer.Looking? && l.logQueueTail != l.logQueueHead
    modifies l`consumer, l`file, l`logQueueTail, l`passed, l.rawLogQueue
    ensures l.Bounded() && l.consumer == Looking && l.passed == old(l.passed) + 1
    ensures l.logQueueTail == if old(l.logQueueTail) + 1 == l.rawLogQueue.Length then 0 else old(l.logQueueTail) + 1
    ensures l.file == old(l.file) + [old(l.rawLogQueue[l.logQueueTail])]
    ensures l.rawLogQueue[..] == old(l.rawLogQueue[..])[old(l.logQueueTail) := ""]
    ensures old(l.Valid()) && |old(l.Unread())| > 0 ==> l.Valid()
  {
    hide Logger.Valid;
    var _ := l.WriteEntry();
    l.ClearSlot();
    l.MoveTail();
    l.WrapTail();
  }

  /**
    With the wrap as a step of its own the test for an empty queue can be wrong: in a ring of two slots the second entry
    is written out while the head has moved past the last slot and not wrapped.
    */
  method TornWrap(first: string, second: string) returns (l: Logger)
    ensures l.Valid() && l.producer == Moved && l.consumer == Looking && l.logged == [first, second] && |l.Unread()| == 0
    ensures l.file == [first, second] && l.rawLogQueue[..] == ["", ""] && l.logQueueTail == 0 && l.logQueueHead == 2
    ensures fresh(l) && fresh(l.rawLogQueue)
  {
    hide Logger.Round;
    l := new Logger(2);
    LogOne(l, first);
    l.WrapHead();
    WriteOut(l);
    LogOne(l, second);
    WriteOut(l);
  }

  /**
    And then an entry is lost: the thread writes the empty slot at the tail, the producer wraps and fills that slot, the
    thread clears it, and head and tail both move past it.
    */
  method LostEntry(first: string, second: string, third: string) returns (l: Logger)
    ensures l.Bounded() && l.producer == Resting && l.consumer == Looking && l.logQueueTail == l.logQueueHead
    ensures l.logged == [first, second, third] && l.file == [first, second, ""] && l.rawLogQueue[..] == ["", ""]
  {
    hide Logger.Valid;
    l := TornWrap(first, second);
    var _ := l.WriteEntry();
    l.WrapHead();
    l.PutSlot(third);
    l.ClearSlot();
    assert l.rawLogQueue[..] == ["", ""] && l.logQueueHead == 0 && !l.IsLogQueueFull();
    var _ := l.MoveHead();
    l.WrapHead();
    l.MoveTail();
    l.WrapTail();
  }

  lemma Grown(logged: seq<string>, passed: nat, what: string)
    ensures passed <= |logged| ==> (logged + [what])[passed..] == logged[passed..] + [what]
  {
  }

  lemma RingModulo(n: nat, x: nat)
    requires 0 < n && x < 2 * n
    ensures x % n == if x < n then x else x - n
  {
  }
}
