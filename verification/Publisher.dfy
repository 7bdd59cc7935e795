/**
  Snapshot-plus-updates publishing: the event queue, the publisher thread, the subscriptions and the writers,
  as a state machine whose steps interleave freely.
  */
module Publisher {
  import opened Bytes
  import opened Sequences
  import opened Containers

  /** An entry of the event queue. */
  datatype Item = Item(storage: nat, event: Event)

  /**
    A subscription. `sent` is what its session has been sent on its handle. `snapshot`, `since` and `clean` are
    history: the snapshot sent, how many items had been taken from the queue when it stopped being pending,
    and whether nothing of its storage was then queued or in flight.
    */
  datatype Subscription = Subscription(storage: nat, session: nat, start: string, pending: bool,
                                       sent: seq<Event>, snapshot: seq<Event>, since: nat, clean: bool)

  /** What the publisher is at: nothing, or an item and the subscribers it has still to visit with it. */
  datatype Handling = Idle | Visiting(item: Item, rest: seq<nat>)

  /**
    The containers by storage, the events written but not yet published, the shared and the swapped-out queue,
    the publisher, the subscribers of each storage, the subscriptions and the connected sessions.
    `log` and `taken` are history: every item ever queued, and how many of them the publisher has taken.
    */
  datatype State = State(data: map<nat, Container>, inFlight: map<nat, seq<Event>>,
                         queue: seq<Item>, local: seq<Item>, handling: Handling,
                         subscribers: map<nat, seq<nat>>, subs: seq<Subscription>, alive: set<nat>,
                         log: seq<Item>, taken: nat)

  function Initial(data: map<nat, Container>): State {
    State(data, map[], [], [], Idle, map[], [], {}, [], 0)
  }

  // ----- The start of a subscription -----

  predicate IsDigit(c: char) {
    '0' <= c <= '9'
  }

  /** The number written by decimal digits. */
  function Digits(s: string): (r: Option<nat>)
  {
    if s == [] || !IsDigit(s[|s| - 1]) then None
    else
      var d := s[|s| - 1] as int - '0' as int;
      if |s| == 1 then Some(d)
      else
        match Digits(s[..|s| - 1])
        case None => None
        case Some(n) => Some(10 * n + d)
  }

  /** The start converted to an `int`; what does not convert leaves 0. */
  function Number(s: string): int {
    if s == [] then 0
    else
      var digits := Digits(if s[0] == '-' || s[0] == '+' then s[1..] else s);
      if digits.None? then 0
      else
        var n: int := if s[0] == '-' then 0 - digits.value else digits.value;
        if -0x8000_0000 <= n < 0x8000_0000 then n else 0
  }

  // ----- Steps -----

  datatype Step =
    | Write(storage: nat, event: Event)        // a map applies a change under its lock
    | Publish(storage: nat, writer: nat)       // and hands the event to the sink, the lock released
    | WriteList(storage: nat, event: Event)    // a list does both under its lock
    | Subscribe(storage: nat, session: nat, start: string)
    | Connect(session: nat)
    | Disconnect(session: nat)
    | Swap                                     // the publisher takes the whole queue
    | Take                                     // goes on to the next item and copies its subscribers
    | Visit                                    // handles one of them

  function InFlight(st: State, x: nat): seq<Event> {
    if x in st.inFlight then st.inFlight[x] else []
  }

  /** `OnAnyContainerEvent`: queued if the storage has ever had a subscriber. */
  function Enqueued(st: State, x: nat, e: Event): State {
    if x in st.subscribers then st.(queue := st.queue + [Item(x, e)], log := st.log + [Item(x, e)]) else st
  }

  function SubscribersOf(st: State, x: nat): seq<nat> {
    if x in st.subscribers then st.subscribers[x] else []
  }

  /** `SessionAsyncSubscribe`: the marker and the subscription go in under both locks. */
  function Subscribed(st: State, x: nat, session: nat, start: string): State {
    var marker := Item(x, END_OF_SNAPSHOT);
    st.(queue := st.queue + [marker], log := st.log + [marker],
        subscribers := st.subscribers[x := SubscribersOf(st, x) + [|st.subs|]],
        subs := st.subs + [Subscription(x, session, start, true, [], [], 0, false)])
  }

  predicate Available(st: State) {
    st.handling.Idle? || st.handling.rest == []
  }

  function Taken(st: State): State
    requires st.local != []
  {
    var item := st.local[0];
    st.(local := st.local[1..], taken := st.taken + 1,
        handling := if item.storage in st.subscribers then Visiting(item, st.subscribers[item.storage]) else Idle)
  }

  /** The events of a storage among queue items, markers left out. */
  function EventsOf(items: seq<Item>, x: nat): seq<Event> {
    if items == [] then []
    else
      var last := items[|items| - 1];
      EventsOf(items[..|items| - 1], x) + (if last.storage == x && !last.event.code.SnapshotEnd? then [last.event] else [])
  }

  /** The events of a storage still to be handled: queued ones, then those in flight. */
  function Ahead(st: State, x: nat): seq<Event> {
    EventsOf(st.local + st.queue, x) + InFlight(st, x)
  }

  /** What the publisher does to one subscription it visits with an item. */
  function Visited(st: State, s: Subscription, item: Item): Subscription
    requires s.storage in st.data
  {
    if item.event.code.SnapshotEnd? then
      if !s.pending then s
      else if s.start == "" then s.(pending := false, since := st.taken)
      else if s.session !in st.alive then s
      else
        var snapshot := Snapshot(st.data[s.storage], Number(s.start));
        s.(pending := false, sent := s.sent + snapshot, snapshot := snapshot, since := st.taken, clean := Ahead(st, s.storage) == [])
    else if s.pending || s.session !in st.alive then s
    else s.(sent := s.sent + [item.event])
  }

  predicate Enabled(st: State, step: Step) {
    match step
    case Write(x, e) => x in st.data && st.data[x].MapContainer? && !e.code.SnapshotEnd?
    case Publish(x, w) => w < |InFlight(st, x)|
    case WriteList(x, e) => x in st.data && st.data[x].ListContainer? && !e.code.SnapshotEnd?
    case Subscribe(x, session, _) => x in st.data && session in st.alive
    case Connect(session) => forall i :: 0 <= i < |st.subs| ==> st.subs[i].session != session
    case Disconnect(_) => true
    case Swap => Available(st) && st.local == [] && st.queue != []
    case Take => Available(st) && st.local != []
    case Visit =>
      && st.handling.Visiting? && st.handling.rest != []
      && st.handling.rest[0] < |st.subs| && st.subs[st.handling.rest[0]].storage in st.data
  }

  function Do(st: State, step: Step): State
    requires Enabled(st, step)
  {
    match step
    case Write(x, e) => st.(data := st.data[x := Apply(st.data[x], e)], inFlight := st.inFlight[x := InFlight(st, x) + [e]])
    case Publish(x, w) =>
      Enqueued(st.(inFlight := st.inFlight[x := RemovedAt(InFlight(st, x), w)]), x, InFlight(st, x)[w])
    case WriteList(x, e) => Enqueued(st.(data := st.data[x := Apply(st.data[x], e)]), x, e)
    case Subscribe(x, session, start) => Subscribed(st, x, session, start)
    case Connect(session) => st.(alive := st.alive + {session})
    case Disconnect(session) => st.(alive := st.alive - {session})
    case Swap => st.(local := st.queue, queue := [])
    case Take => Taken(st)
    case Visit =>
      var i := st.handling.rest[0];
      st.(handling := Visiting(st.handling.item, st.handling.rest[1..]),
          subs := st.subs[i := Visited(st, st.subs[i], st.handling.item)])
  }

  /** One writer at a time on a map: none is between its change and its event when another begins. */
  predicate SingleWriter(st: State, step: Step) {
    step.Write? ==> InFlight(st, step.storage) == []
  }

  /** The state after a run of steps, each enabled where it is made; none when one is not. */
  ghost function Run(st: State, steps: seq<Step>): Option<State> {
    if steps == [] then Some(st)
    else
      match Run(st, steps[..|steps| - 1])
      case None => None
      case Some(mid) =>
        var step := steps[|steps| - 1];
        if Enabled(mid, step) && SingleWriter(mid, step) then Some(Do(mid, step)) else None
  }
}
