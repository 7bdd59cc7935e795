/** The events a client has received and not yet dispatched, and the batches of commands sent without waiting. */
module ClientBatch {
  import opened Bytes
  import opened Sequences

  /** A received message, known by its place in the stream. */
  type Message = nat

  class Node {
    var next: Node?
    const message: Message

    constructor (message: Message)
      ensures this.message == message
    {
      this.message := message;
      next := null;
    }
  }

  /** What arrives from the server. */
  datatype Incoming = Event(message: Message) | Answer(message: Message)

  // ----- What finishing a batch does -----

  datatype Finished = Finished(taken: nat, queue: seq<Message>, dispatched: seq<Message>, done: bool)

  /**
    A batch of `commands` commands of which `answered` have been answered. The counter of pending events starts at the
    number of commands and also counts the events queued; the loop ends when it is reached after an answer, or at once.
    */
  function Finish(waiting: bool, answered: nat, commands: nat, queue: seq<Message>, max: nat, incoming: seq<Incoming>): Finished
    decreases |incoming|
  {
    if !waiting && answered >= commands + |queue| then Finished(0, queue, [], true)
    else if incoming == [] then Finished(0, queue, [], false)
    else
      match incoming[0]
      case Answer(_) => OneMore([], Finish(false, answered + 1, commands, queue, max, incoming[1..]))
      case Event(m) =>
        var q := queue + [m];
        if commands + |q| >= max then OneMore(q, Finish(true, answered, commands, [], max, incoming[1..]))
        else OneMore([], Finish(true, answered, commands, q, max, incoming[1..]))
  }

  function OneMore(dispatched: seq<Message>, r: Finished): Finished {
    r.(taken := r.taken + 1, dispatched := dispatched + r.dispatched)
  }

  function Answers(incoming: seq<Incoming>): nat {
    if incoming == [] then 0 else (if incoming[0].Answer? then 1 else 0) + Answers(incoming[1..])
  }

  function Events(incoming: seq<Incoming>): seq<Message> {
    if incoming == [] then [] else (if incoming[0].Event? then [incoming[0].message] else []) + Events(incoming[1..])
  }

  /** Exactly the answers to the commands have been taken, and every event before the last of them dispatched, in order. */
  predicate Exact(commands: nat, incoming: seq<Incoming>, r: Finished) {
    && r.taken <= |incoming| && r.queue == [] && r.done
    && Answers(incoming[..r.taken]) == commands && r.dispatched == Events(incoming[..r.taken])
    && (commands == 0 ==> r.taken == 0) && (r.taken > 0 ==> incoming[r.taken - 1].Answer?)
  }

  lemma {:induction false} FinishIsExact(waiting: bool, answered: nat, commands: nat, max: nat, incoming: seq<Incoming>)
    requires answered <= commands && (waiting ==> answered < commands) && max <= commands + 1 && answered + Answers(incoming) >= commands
    ensures var r := Finish(waiting, answered, commands, [], max, incoming);
      && r.taken <= |incoming| && r.queue == [] && r.done
      && answered + Answers(incoming[..r.taken]) == commands && r.dispatched == Events(incoming[..r.taken])
      && (answered == commands ==> r.taken == 0) && (r.taken > 0 ==> incoming[r.taken - 1].Answer?)
    decreases |incoming|
  {
    if answered < commands {
      var rest := incoming[1..];
      var next := if incoming[0].Answer? then answered + 1 else answered;
      FinishIsExact(incoming[0].Event?, next, commands, max, rest);
      var r := Finish(incoming[0].Event?, next, commands, [], max, rest);
      TakenOneMore(incoming, r.taken);
      assert incoming[0].Event? ==> [] + [incoming[0].message] == [incoming[0].message];
    }
  }

  lemma TakenOneMore(incoming: seq<Incoming>, k: nat)
    requires incoming != [] && k <= |incoming| - 1
    ensures incoming[..k + 1][0] == incoming[0] && incoming[..k + 1][1..] == incoming[1..][..k]
  {
  }

  /** As many answers as wanted. */
  function AnswersOnly(n: nat): (r: seq<Incoming>)
    ensures |r| == n
  {
    if n == 0 then [] else [Answer(0)] + AnswersOnly(n - 1)
  }

  lemma {:induction false} AnswersFirst(n: nat, incoming: seq<Incoming>)
    ensures Answers(AnswersOnly(n) + incoming) == n + Answers(incoming)
  {
    if n == 0 {
      assert [] + incoming == incoming;
    } else {
      AnswersFirst(n - 1, incoming);
      FirstAnswer(n, incoming);
    }
  }

  lemma FirstAnswer(n: nat, incoming: seq<Incoming>)
    requires n > 0
    ensures var s := AnswersOnly(n) + incoming; s != [] && s[0].Answer? && s[1..] == AnswersOnly(n - 1) + incoming
  {
  }

  lemma FinishAnswer(answered: nat, commands: nat, max: nat, incoming: seq<Incoming>)
    requires answered < commands && incoming != [] && incoming[0].Answer?
    ensures Finish(false, answered, commands, [], max, incoming).done == Finish(false, answered + 1, commands, [], max, incoming[1..]).done
  {
  }

  lemma {:induction false} FinishAfterAnswers(answered: nat, commands: nat, max: nat, n: nat, incoming: seq<Incoming>)
    requires answered + n < commands
    ensures Finish(false, answered, commands, [], max, AnswersOnly(n) + incoming).done == Finish(false, answered + n, commands, [], max, incoming).done
    decreases n
  {
    if n == 0 {
      assert [] + incoming == incoming;
    } else {
      FinishAfterAnswers(answered + 1, commands, max, n - 1, incoming);
      FirstAnswer(n, incoming);
      FinishAnswer(answered, commands, max, AnswersOnly(n) + incoming);
    }
  }

  /** An event just before the last answer, with a limit that lets it wait in the queue: the batch waits for one answer too many. */
  function LateEvent(commands: nat): seq<Incoming>
    requires commands > 0
  {
    AnswersOnly(commands - 1) + [Event(0), Answer(0)]
  }

  lemma LateEventStalls(commands: nat, max: nat)
    requires commands > 0 && max > commands + 1
    ensures Answers(LateEvent(commands)) == commands
    ensures !Finish(false, 0, commands, [], max, LateEvent(commands)).done
  {
    var tail := [Event(0), Answer(0)];
    assert tail[1..] == [Answer(0)] && tail[1..][1..] == [];
    AnswersFirst(commands - 1, tail);
    FinishAfterAnswers(0, commands, max, commands - 1, tail);
    assert [] + [0 as Message] == [0 as Message];
  }

  /** Batches of `commands` commands always finish exactly, however many events come between, if and only if the limit is at most one more. */
  lemma BatchIsExactIff(commands: nat, max: nat)
    ensures (forall incoming :: Answers(incoming) >= commands ==> Exact(commands, incoming, Finish(false, 0, commands, [], max, incoming)))
       <==> commands == 0 || max <= commands + 1
  {
    if commands == 0 || max <= commands + 1 {
      forall incoming | Answers(incoming) >= commands ensures Exact(commands, incoming, Finish(false, 0, commands, [], max, incoming)) {
        if commands > 0 {
          FinishIsExact(false, 0, commands, max, incoming);
        }
      }
    } else {
      LateEventStalls(commands, max);
      assert !Exact(commands, LateEvent(commands), Finish(false, 0, commands, [], max, LateEvent(commands)));
    }
  }

  // ----- The connection -----

  class Connection {
    var eventListQueueEnd: Node?
    var pendingEventCount: int
    var maxPendingEventCount: nat
    var waitForAnswer: bool
    /** The messages the callbacks have been called with. */
    var dispatched: seq<Message>
    /** The nodes of the circular list, from the first to the one the connection points to. */
    ghost var nodes: seq<Node>

    ghost predicate Valid()
      reads this, nodes
    {
      && (eventListQueueEnd == null <==> nodes == [])
      && (nodes != [] ==> eventListQueueEnd == nodes[|nodes| - 1] && nodes[|nodes| - 1].next == nodes[0])
      && (forall i, j :: 0 <= i < j < |nodes| ==> nodes[i] != nodes[j])
      && (forall i :: 0 <= i < |nodes| - 1 ==> nodes[i].next == nodes[i + 1])
    }

    ghost function Repr(): set<Node>
      reads this
    {
      set n | n in nodes
    }

    /** The messages waiting, the oldest first. */
    ghost function Queue(): (r: seq<Message>)
      reads this
      ensures |r| == |nodes|
    {
      Messages(nodes)
    }

    constructor (max: nat)
      ensures Valid() && Queue() == [] && pendingEventCount == 0 && waitForAnswer && maxPendingEventCount == max && dispatched == []
    {
      eventListQueueEnd, pendingEventCount, maxPendingEventCount, waitForAnswer := null, 0, max, true;
      dispatched, nodes := [], [];
    }

    /** A new node goes behind the last one, and before the first. */
    method Push(message: Message)
      requires Valid()
      modifies this`eventListQueueEnd, this`pendingEventCount, this`nodes, Repr()
      ensures Valid() && Queue() == old(Queue()) + [message] && pendingEventCount == old(pendingEventCount) + 1
      ensures fresh(Repr() - old(Repr()))
    {
      var node := new Node(message);
      if eventListQueueEnd == null {
        node.next := node;
      } else {
        node.next := eventListQueueEnd.next;
        eventListQueueEnd.next := node;
      }
      nodes := nodes + [node];
      eventListQueueEnd := node;
      pendingEventCount := pendingEventCount + 1;
    }

    /** The first node is the one behind the last. */
    method Pop() returns (message: Option<Message>)
      requires Valid()
      modifies this`eventListQueueEnd, this`pendingEventCount, this`nodes, Repr()
      ensures Valid() && Repr() <= old(Repr())
      ensures if old(Queue()) == [] then message == None && Queue() == [] && pendingEventCount == old(pendingEventCount)
        else message == Some(old(Queue())[0]) && Queue() == old(Queue())[1..] && pendingEventCount == old(pendingEventCount) - 1
    {
      if eventListQueueEnd == null {
        return None;
      }
      var first := eventListQueueEnd.next;
      assert first == nodes[0];
      if first == eventListQueueEnd {
        eventListQueueEnd := null;
      } else {
        eventListQueueEnd.next := first.next;
      }
      nodes := nodes[1..];
      pendingEventCount := pendingEventCount - 1;
      return Some(first.message);
    }

    /** Takes the oldest event, if any, and calls its callback. */
    method DispatchOne() returns (more: bool)
      requires Valid()
      modifies this`eventListQueueEnd, this`pendingEventCount, this`nodes, this`dispatched, Repr()
      ensures Valid() && Repr() <= old(Repr()) && (more <==> old(Queue()) != [])
      ensures pendingEventCount == old(pendingEventCount) - if more then 1 else 0
      ensures if more then Queue() == old(Queue())[1..] && dispatched == old(dispatched) + [old(Queue())[0]]
        else Queue() == [] && dispatched == old(dispatched)
    {
      var message := Pop();
      more := message.Some?;
      if more {
        dispatched := dispatched + [message.value];
      }
    }

    /** Dispatches waiting events, the oldest first, up to a number. */
    method DispatchPendingEvents(maxEvents: nat)
      requires Valid()
      modifies this`eventListQueueEnd, this`pendingEventCount, this`nodes, this`dispatched, Repr()
      ensures Valid() && Repr() <= old(Repr())
      ensures Moved(old(Queue()), old(dispatched), Min(maxEvents, |old(Queue())|), Queue(), dispatched)
      ensures pendingEventCount == old(pendingEventCount) - Min(maxEvents, |old(Queue())|)
    {
      var a := 0;
      NoneMoved(Queue(), dispatched);
      while a < maxEvents
        invariant Valid() && a <= maxEvents && Repr() <= old(Repr())
        invariant Moved(old(Queue()), old(dispatched), a, Queue(), dispatched) && pendingEventCount == old(pendingEventCount) - a
      {
        ghost var queue, called := Queue(), dispatched;
        var more := DispatchOne();
        if !more {
          break;
        }
        OneMoved(old(Queue()), old(dispatched), a, queue, called);
        a := a + 1;
      }
    }

    /** An event is queued; once the counter is at its limit all that is queued is dispatched. */
    method OnEventReceive(message: Message)
      requires Valid() && |Queue()| < 0xFFFF_FFFF
      modifies this`eventListQueueEnd, this`pendingEventCount, this`nodes, this`dispatched, Repr()
      ensures Valid() && fresh(Repr() - old(Repr()))
      ensures if old(pendingEventCount) + 1 >= maxPendingEventCount
        then Queue() == [] && dispatched == old(dispatched) + (old(Queue()) + [message]) && pendingEventCount == old(pendingEventCount) - |old(Queue())|
        else Queue() == old(Queue()) + [message] && dispatched == old(dispatched) && pendingEventCount == old(pendingEventCount) + 1
    {
      Push(message);
      if pendingEventCount >= maxPendingEventCount {
        Whole(Queue());
        DispatchPendingEvents(0xFFFF_FFFF);
      }
    }

    method BeginNetworkBatch()
      requires Valid() && pendingEventCount == 0 && waitForAnswer
      modifies this`waitForAnswer
      ensures Valid() && !waitForAnswer
    {
      waitForAnswer := false;
    }

    /** A command sent within a batch is only counted, by the counter of pending events. */
    method SendCommand()
      requires Valid() && !waitForAnswer
      modifies this`pendingEventCount
      ensures Valid() && pendingEventCount == old(pendingEventCount) + 1
    {
      pendingEventCount := pendingEventCount + 1;
    }

    /** Receives until the counter is reached; not done if the server stays silent before that. */
    method FinishNetworkBatch(incoming: seq<Incoming>) returns (taken: nat, done: bool)
      requires Valid() && !waitForAnswer && pendingEventCount >= |Queue()| && |Queue()| + |incoming| < 0xFFFF_FFFF
      modifies this, Repr()
      ensures Valid() && waitForAnswer && (done ==> pendingEventCount == 0)
      ensures var commands := old(pendingEventCount) - |old(Queue())|;
        var r := Finish(false, 0, commands, old(Queue()), old(maxPendingEventCount), incoming);
        taken == r.taken && done == r.done && Queue() == r.queue && dispatched == old(dispatched) + r.dispatched
    {
      hide Along, Finish;
      waitForAnswer := true;
      ghost var commands: nat := pendingEventCount - |Queue()|;
      ghost var expected := Finish(false, 0, commands, Queue(), maxPendingEventCount, incoming);
      var a, waiting := 0, false;
      taken := 0;
      BatchBegins(commands, maxPendingEventCount, Queue(), dispatched, incoming);
      while waiting || a < pendingEventCount
        invariant Valid() && waitForAnswer && taken <= |incoming| && fresh(Repr() - old(Repr()))
        invariant maxPendingEventCount == old(maxPendingEventCount) && pendingEventCount == commands + |Queue()|
        invariant |Queue()| <= |old(Queue())| + taken
        invariant Along(expected, old(dispatched), commands, maxPendingEventCount, incoming, waiting, a, taken, Queue(), dispatched)
        decreases |incoming| - taken
      {
        BatchStep(expected, old(dispatched), commands, maxPendingEventCount, incoming, waiting, a, taken, Queue(), dispatched);
        if taken == |incoming| {
          return taken, false;
        }
        waiting := incoming[taken].Event?;
        if waiting {
          OnEventReceive(incoming[taken].message);
        } else {
          a := a + 1;
        }
        taken := taken + 1;
      }
      BatchEnds(expected, old(dispatched), commands, maxPendingEventCount, incoming, a, taken, Queue(), dispatched);
      pendingEventCount := 0;
      done := true;
    }
  }

  /** What remains to be done leads where the whole was to lead. */
  ghost predicate Along(expected: Finished, d0: seq<Message>, commands: nat, max: nat, incoming: seq<Incoming>,
                        waiting: bool, answered: nat, taken: nat, queue: seq<Message>, dispatched: seq<Message>) {
    && taken <= |incoming|
    && var r := Finish(waiting, answered, commands, queue, max, incoming[taken..]);
    && expected.taken == taken + r.taken && expected.queue == r.queue && expected.done == r.done
    && d0 + expected.dispatched == dispatched + r.dispatched
  }

  lemma BatchBegins(commands: nat, max: nat, queue: seq<Message>, dispatched: seq<Message>, incoming: seq<Incoming>)
    ensures Along(Finish(false, 0, commands, queue, max, incoming), dispatched, commands, max, incoming, false, 0, 0, queue, dispatched)
  {
    assert incoming[0..] == incoming;
  }

  lemma BatchStep(expected: Finished, d0: seq<Message>, commands: nat, max: nat, incoming: seq<Incoming>,
                  waiting: bool, answered: nat, taken: nat, queue: seq<Message>, dispatched: seq<Message>)
    requires Along(expected, d0, commands, max, incoming, waiting, answered, taken, queue, dispatched)
    requires waiting || answered < commands + |queue|
    ensures taken == |incoming| ==> expected.taken == taken && !expected.done && expected.queue == queue && d0 + expected.dispatched == dispatched
    ensures taken < |incoming| && incoming[taken].Answer? ==>
      Along(expected, d0, commands, max, incoming, false, answered + 1, taken + 1, queue, dispatched)
    ensures taken < |incoming| && incoming[taken].Event? ==>
      if commands + |queue| + 1 >= max
      then Along(expected, d0, commands, max, incoming, true, answered, taken + 1, [], dispatched + (queue + [incoming[taken].message]))
      else Along(expected, d0, commands, max, incoming, true, answered, taken + 1, queue + [incoming[taken].message], dispatched)
  {
    if taken < |incoming| {
      var rest := incoming[taken..];
      assert rest[0] == incoming[taken] && rest[1..] == incoming[taken + 1..];
      if rest[0].Event? {
        var q := queue + [rest[0].message];
        var r := Finish(true, answered, commands, [], max, rest[1..]);
        Assoc(dispatched, q, r.dispatched);
        assert [] + Finish(true, answered, commands, q, max, rest[1..]).dispatched == Finish(true, answered, commands, q, max, rest[1..]).dispatched;
      } else {
        assert [] + Finish(false, answered + 1, commands, queue, max, rest[1..]).dispatched == Finish(false, answered + 1, commands, queue, max, rest[1..]).dispatched;
      }
    } else {
      Unit(dispatched);
    }
  }

  lemma BatchEnds(expected: Finished, d0: seq<Message>, commands: nat, max: nat, incoming: seq<Incoming>,
                  answered: nat, taken: nat, queue: seq<Message>, dispatched: seq<Message>)
    requires Along(expected, d0, commands, max, incoming, false, answered, taken, queue, dispatched) && answered >= commands + |queue|
    ensures expected.taken == taken && expected.done && expected.queue == queue && d0 + expected.dispatched == dispatched
  {
    Unit(dispatched);
  }

  /** The first `k` messages of the queue have been dispatched, in order. */
  ghost predicate Moved(q0: seq<Message>, d0: seq<Message>, k: nat, q: seq<Message>, d: seq<Message>) {
    k <= |q0| && q == q0[k..] && d == d0 + q0[..k]
  }

  lemma NoneMoved(q: seq<Message>, d: seq<Message>)
    ensures Moved(q, d, 0, q, d)
  {
    Unit(d);
  }

  lemma OneMoved(q0: seq<Message>, d0: seq<Message>, k: nat, q: seq<Message>, d: seq<Message>)
    requires Moved(q0, d0, k, q, d) && q != []
    ensures Moved(q0, d0, k + 1, q[1..], d + [q[0]])
  {
    Snoc(q0, k);
    Assoc(d0, q0[..k], [q0[k]]);
  }

  function Messages(nodes: seq<Node>): (r: seq<Message>)
    ensures |r| == |nodes| && forall i :: 0 <= i < |r| ==> r[i] == nodes[i].message
  {
    seq(|nodes|, i requires 0 <= i < |nodes| => nodes[i].message)
  }
}
