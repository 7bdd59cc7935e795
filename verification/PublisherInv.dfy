/** What every step of the publishing protocol keeps. */
module PublisherInv {
  import opened Bytes
  import opened Sequences
  import opened Containers
  import opened Publisher

  // ----- The queue -----

  /** The queues hold exactly the items not yet taken, in the order they were queued. */
  ghost predicate Queued(st: State) {
    && st.taken <= |st.log| && st.log[st.taken..] == st.local + st.queue
    && (st.handling.Visiting? ==> st.taken > 0 && st.handling.item == st.log[st.taken - 1])
  }

  // ----- The subscribers -----

  /** The list of a storage has distinct subscriptions, of that storage. */
  ghost predicate Listed(subs: seq<Subscription>, x: nat, list: seq<nat>) {
    Distinct(list) && forall i :: i in list ==> i < |subs| && subs[i].storage == x
  }

  ghost predicate Registered(st: State) {
    && (forall x :: x in st.subscribers ==> Listed(st.subs, x, st.subscribers[x]))
    && (forall i :: 0 <= i < |st.subs| ==> st.subs[i].storage in st.data && i in SubscribersOf(st, st.subs[i].storage))
    && (st.handling.Visiting? ==> Listed(st.subs, st.handling.item.storage, st.handling.rest))
    && (forall item :: item in st.local + st.queue ==> item.storage in st.subscribers)
  }

  // ----- Containers and the events still ahead -----

  ghost predicate Makes(base: Container, events: seq<Event>, c: Container) {
    base.MapContainer? && Fold(base, events) == c
  }

  /** The container is what the events still ahead make of some earlier map. */
  ghost predicate HasBase(c: Container, events: seq<Event>) {
    exists base: Container :: Makes(base, events, c)
  }

  /** A map has at most one event in flight and is made by what is ahead; a list has none in flight. */
  ghost predicate Sound(c: Container, ahead: seq<Event>, inFlight: seq<Event>) {
    && Proper(c) && (forall e :: e in inFlight ==> !e.code.SnapshotEnd?)
    && if c.MapContainer? then |inFlight| <= 1 && HasBase(c, ahead) else inFlight == []
  }

  ghost predicate Based(st: State, x: nat)
    requires x in st.data
  {
    Sound(st.data[x], Ahead(st, x), InFlight(st, x))
  }

  // ----- One subscription -----

  /** The publisher is handling an item and has still to visit the subscription with it. */
  predicate Waiting(st: State, i: nat) {
    st.handling.Visiting? && i in st.handling.rest
  }

  predicate WaitingForEvent(st: State, i: nat) {
    Waiting(st, i) && !st.handling.item.event.code.SnapshotEnd?
  }

  /** How many of the items taken have been dealt with, as far as the subscription goes. */
  function Handled(st: State, i: nat): int {
    if WaitingForEvent(st, i) then st.taken - 1 else st.taken
  }

  /** The events a subscription has still to be sent, if its session stays. */
  function Owed(st: State, i: nat): seq<Event>
    requires i < |st.subs|
  {
    (if WaitingForEvent(st, i) then [st.handling.item.event] else []) + Ahead(st, st.subs[i].storage)
  }

  predicate IsMarker(item: Item, x: nat) {
    item.storage == x && item.event.code.SnapshotEnd?
  }

  /** A marker that will end the pending state of the subscription is queued or being handled. */
  ghost predicate MarkerAhead(st: State, i: nat)
    requires i < |st.subs|
  {
    || (Waiting(st, i) && st.handling.item.event.code.SnapshotEnd?)
    || exists j :: 0 <= j < |st.local + st.queue| && IsMarker((st.local + st.queue)[j], st.subs[i].storage)
  }

  /** A pending subscription has been sent nothing, and while its session lives its marker is still ahead. */
  ghost predicate PendingOk(st: State, i: nat)
    requires i < |st.subs|
  {
    var s := st.subs[i];
    s.pending ==> s.sent == [] && s.snapshot == [] && (s.session in st.alive ==> MarkerAhead(st, i))
  }

  /** Is it a snapshot: records, and the end mark once, at the end? */
  ghost predicate IsSnapshot(events: seq<Event>) {
    && events != [] && events[|events| - 1] == END_OF_SNAPSHOT
    && forall j :: 0 <= j < |events| - 1 ==> !events[j].code.SnapshotEnd?
  }

  /** One snapshot, or none if the start was empty; then every event of the storage, once and in order. */
  ghost predicate SentOk(st: State, i: nat)
    requires i < |st.subs|
  {
    var s := st.subs[i];
    !s.pending ==>
      && (if s.start == "" then s.snapshot == [] else IsSnapshot(s.snapshot))
      && (s.session in st.alive ==>
            && 0 <= s.since <= Handled(st, i) <= |st.log|
            && s.sent == s.snapshot + EventsOf(st.log[s.since..Handled(st, i)], s.storage))
  }

  /** What a subscriber holds that applies to an empty container all it has been sent. */
  function Replica(st: State, i: nat): Container
    requires i < |st.subs| && st.subs[i].storage in st.data
  {
    Fold(Empty(st.data[st.subs[i].storage]), st.subs[i].sent)
  }

  /** A subscription from the beginning, whose snapshot has been sent to a session that is still there. */
  predicate Following(st: State, i: nat)
    requires i < |st.subs|
  {
    var s := st.subs[i];
    !s.pending && s.session in st.alive && s.start != "" && Number(s.start) == 0
  }

  /** With the events it is still owed, the replica is the container. */
  ghost predicate Converges(st: State, i: nat)
    requires i < |st.subs| && st.subs[i].storage in st.data
  {
    var c := st.data[st.subs[i].storage];
    Following(st, i) && (c.MapContainer? || st.subs[i].clean) ==> Fold(Replica(st, i), Owed(st, i)) == c
  }

  ghost predicate SubOk(st: State, i: nat)
    requires i < |st.subs| && st.subs[i].storage in st.data
  {
    PendingOk(st, i) && SentOk(st, i) && Converges(st, i)
  }

  ghost predicate Inv(st: State) {
    && Queued(st) && Registered(st)
    && AllBased(st) && AllSubs(st)
  }

  // ----- Events of a storage -----

  lemma {:induction false} EventsOfAppend(a: seq<Item>, b: seq<Item>, x: nat)
    ensures EventsOf(a + b, x) == EventsOf(a, x) + EventsOf(b, x)
  {
    if b == [] {
      assert a + b == a;
    } else {
      assert (a + b)[..|a + b| - 1] == a + b[..|b| - 1];
      EventsOfAppend(a, b[..|b| - 1], x);
    }
  }

  lemma EventsOfOne(item: Item, x: nat)
    ensures EventsOf([item], x) == if item.storage == x && !item.event.code.SnapshotEnd? then [item.event] else []
  {
    assert [item][..0] == [];
    assert EventsOf([], x) == [];
  }

  lemma EventsOfCons(items: seq<Item>, x: nat)
    requires items != []
    ensures EventsOf(items, x)
         == (if items[0].storage == x && !items[0].event.code.SnapshotEnd? then [items[0].event] else []) + EventsOf(items[1..], x)
  {
    EventsOfAppend([items[0]], items[1..], x);
    EventsOfOne(items[0], x);
    assert items == [items[0]] + items[1..];
  }

  lemma EventsOfSnoc(items: seq<Item>, item: Item, x: nat)
    ensures EventsOf(items + [item], x)
         == EventsOf(items, x) + if item.storage == x && !item.event.code.SnapshotEnd? then [item.event] else []
  {
    EventsOfAppend(items, [item], x);
    EventsOfOne(item, x);
  }

  // ----- How the steps change what is ahead -----

  lemma AheadEnqueued(st: State, x: nat, e: Event, y: nat)
    requires !e.code.SnapshotEnd?
    ensures x in st.subscribers ==>
      Ahead(Enqueued(st, x, e), y) == EventsOf(st.local + st.queue, y) + (if x == y then [e] else []) + InFlight(st, y)
  {
    if x in st.subscribers {
      assert st.local + (st.queue + [Item(x, e)]) == (st.local + st.queue) + [Item(x, e)];
      EventsOfSnoc(st.local + st.queue, Item(x, e), y);
    }
  }

  lemma AheadTaken(st: State, y: nat)
    requires st.local != []
    ensures var first := st.local[0];
      Ahead(st, y) == (if first.storage == y && !first.event.code.SnapshotEnd? then [first.event] else []) + Ahead(Taken(st), y)
  {
    assert (st.local + st.queue)[1..] == st.local[1..] + st.queue;
    EventsOfCons(st.local + st.queue, y);
  }

  /** The first event ahead has been taken: the map it made is the new base. */
  lemma BaseAdvances(c: Container, e: Event, events: seq<Event>)
    requires HasBase(c, [e] + events)
    ensures HasBase(c, events)
  {
    var base: Container :| Makes(base, [e] + events, c);
    FoldCons(base, e, events);
    assert Makes(Apply(base, e), events, c);
  }

  lemma BaseExtends(c: Container, events: seq<Event>, e: Event)
    requires HasBase(c, events)
    ensures HasBase(Apply(c, e), events + [e])
  {
    var base: Container :| Makes(base, events, c);
    FoldSnoc(base, events, e);
    assert Makes(base, events + [e], Apply(c, e));
  }

  lemma BaseIsItself(c: Container)
    requires c.MapContainer?
    ensures HasBase(c, [])
  {
    assert Makes(c, [], c);
  }

  // ----- Steps that leave the publisher and the subscriptions alone -----

  /** Subscriptions, publisher and items taken are the same; sessions may have gone; items may have been queued. */
  ghost predicate Extends(st: State, st': State) {
    && |st.subs| <= |st'.subs| && (forall i :: 0 <= i < |st.subs| ==> st'.subs[i] == st.subs[i])
    && st'.handling == st.handling && st'.taken == st.taken
    && st.log <= st'.log && st.local + st.queue <= st'.local + st'.queue
    && forall i :: 0 <= i < |st.subs| && st.subs[i].session in st'.alive ==> st.subs[i].session in st.alive
  }

  lemma PendingKept(st: State, st': State, i: nat)
    requires Extends(st, st') && i < |st.subs| && PendingOk(st, i)
    ensures PendingOk(st', i)
  {
    var a, b := st.local + st.queue, st'.local + st'.queue;
    if j :| 0 <= j < |a| && IsMarker(a[j], st.subs[i].storage) {
      assert b[j] == a[j] && IsMarker(b[j], st.subs[i].storage);
    }
  }

  lemma SentKept(st: State, st': State, i: nat)
    requires Extends(st, st') && i < |st.subs| && SentOk(st, i)
    ensures SentOk(st', i)
  {
    var s := st.subs[i];
    if !s.pending && s.session in st'.alive {
      assert st'.log[s.since..Handled(st, i)] == st.log[s.since..Handled(st, i)];
    }
  }

  /** The container is the same, and so is what is ahead of it. */
  lemma ConvergesKept(st: State, st': State, i: nat)
    requires Extends(st, st') && i < |st.subs|
    requires st.subs[i].storage in st.data && st.subs[i].storage in st'.data
    requires Converges(st, i)
    requires st'.data[st.subs[i].storage] == st.data[st.subs[i].storage] && Ahead(st', st.subs[i].storage) == Ahead(st, st.subs[i].storage)
    ensures Converges(st', i)
  {
  }

  /** An event has been applied to the container and put behind everything that is ahead. */
  lemma ConvergesExtended(st: State, st': State, i: nat, e: Event)
    requires Extends(st, st') && i < |st.subs|
    requires st.subs[i].storage in st.data && st.subs[i].storage in st'.data
    requires Converges(st, i)
    requires st'.data[st.subs[i].storage] == Apply(st.data[st.subs[i].storage], e)
    requires Ahead(st', st.subs[i].storage) == Ahead(st, st.subs[i].storage) + [e]
    ensures Converges(st', i)
  {
    assert Owed(st', i) == Owed(st, i) + [e];
    FoldSnoc(Replica(st, i), Owed(st, i), e);
  }

  /** The container and what is ahead of it: both as they were, or both with one more event, or without subscribers. */
  ghost predicate Follows(st: State, st': State, x: nat, e: Option<Event>) {
    && x in st.data && x in st'.data
    && match e
       case None => st'.data[x] == st.data[x] && Ahead(st', x) == Ahead(st, x)
       case Some(ev) => st'.data[x] == Apply(st.data[x], ev) && Ahead(st', x) == Ahead(st, x) + [ev]
  }

  lemma SubKept(st: State, st': State, i: nat, e: Option<Event>)
    requires Extends(st, st') && i < |st.subs| && Follows(st, st', st.subs[i].storage, e)
    requires SubOk(st, i)
    ensures SubOk(st', i)
  {
    PendingKept(st, st', i);
    SentKept(st, st', i);
    match e
    case None => ConvergesKept(st, st', i);
    case Some(ev) => ConvergesExtended(st, st', i, ev);
  }

  ghost predicate AllSubs(st: State) {
    forall i :: 0 <= i < |st.subs| ==> st.subs[i].storage in st.data && SubOk(st, i)
  }

  /** A step on storage `x` that leaves publisher and subscriptions alone keeps every subscription's promises. */
  lemma SubsKept(st: State, st': State, x: nat, e: Option<Event>)
    requires AllSubs(st) && Extends(st, st') && |st'.subs| == |st.subs|
    requires forall y :: y in st.data && y != x ==> Follows(st, st', y, None)
    requires Follows(st, st', x, e) || forall i :: 0 <= i < |st.subs| ==> st.subs[i].storage != x
    ensures AllSubs(st')
  {
    forall i | 0 <= i < |st'.subs| ensures st'.subs[i].storage in st'.data && SubOk(st', i) {
      SubKept(st, st', i, if st.subs[i].storage == x then e else None);
    }
  }

  ghost predicate AllBased(st: State) {
    && (forall x :: x in st.data ==> Based(st, x))
    && forall x :: x in st.inFlight ==> x in st.data
  }

  /** Nothing changes for the storages other than `x`. */
  ghost predicate OthersKept(st: State, st': State, x: nat) {
    && st'.data.Keys == st.data.Keys && st'.inFlight.Keys <= st.inFlight.Keys + {x}
    && forall y :: y in st.data && y != x ==> Follows(st, st', y, None) && InFlight(st', y) == InFlight(st, y)
  }

  lemma BasedKept(st: State, st': State, x: nat)
    requires AllBased(st) && OthersKept(st, st', x)
    requires x in st'.data && Based(st', x)
    ensures AllBased(st')
  {
    forall y | y in st'.data ensures Based(st', y) {
      assert Based(st, y);
    }
  }

  /** A step on storage `x` that leaves publisher and subscriptions alone and may queue an item. */
  lemma StorageStep(st: State, st': State, x: nat, e: Option<Event>)
    requires Inv(st) && Queued(st') && Registered(st') && Extends(st, st') && |st'.subs| == |st.subs|
    requires OthersKept(st, st', x) && x in st.data && Based(st', x)
    requires Follows(st, st', x, e) || x !in st.subscribers
    ensures Inv(st')
  {
    BasedKept(st, st', x);
    SubsKept(st, st', x, e);
  }

  // ----- Writing and publishing -----

  lemma SoundWritten(c: Container, ahead: seq<Event>, e: Event)
    requires c.MapContainer? && Sound(c, ahead, []) && !e.code.SnapshotEnd?
    ensures Sound(Apply(c, e), ahead + [e], [e])
  {
    ApplyKeepsProper(c, e);
    BaseExtends(c, ahead, e);
  }

  lemma AheadWritten(st: State, x: nat, e: Event, y: nat)
    requires Enabled(st, Write(x, e)) && InFlight(st, x) == []
    ensures InFlight(Do(st, Write(x, e)), y) == if x == y then [e] else InFlight(st, y)
    ensures Ahead(Do(st, Write(x, e)), y) == Ahead(st, y) + if x == y then [e] else []
  {
    assert [] + [e] == [e];
  }

  /** A write to a map: the change is in the container, and its event in flight. */
  lemma WriteKeeps(st: State, x: nat, e: Event)
    requires Inv(st) && Enabled(st, Write(x, e)) && InFlight(st, x) == []
    ensures Inv(Do(st, Write(x, e)))
  {
    hide SubOk, Apply, EventsOf, HasBase, Ahead;
    var st' := Do(st, Write(x, e));
    AheadWritten(st, x, e, x);
    forall y | y in st.data && y != x ensures Follows(st, st', y, None) {
      AheadWritten(st, x, e, y);
    }
    assert Based(st, x);
    SoundWritten(st.data[x], Ahead(st, x), e);
    StorageStep(st, st', x, Some(e));
  }

  lemma ItemQueued(st: State, item: Item, st': State)
    requires Queued(st)
    requires st'.queue == st.queue + [item] && st'.log == st.log + [item]
    requires st'.local == st.local && st'.handling == st.handling && st'.taken == st.taken
    ensures Queued(st') && st.local + st.queue <= st'.local + st'.queue && st.log <= st'.log
  {
    assert st'.log[st.taken..] == st.log[st.taken..] + [item];
    assert st.local + (st.queue + [item]) == (st.local + st.queue) + [item];
  }

  /** Nothing is queued for a storage without subscribers. */
  lemma {:induction false} NoEventsOf(items: seq<Item>, x: nat)
    requires forall item :: item in items ==> item.storage != x
    ensures EventsOf(items, x) == []
  {
    if items != [] {
      NoEventsOf(items[..|items| - 1], x);
      assert items[|items| - 1] in items;
    }
  }

  lemma AheadPublished(st: State, x: nat, y: nat)
    requires |InFlight(st, x)| == 1 && !InFlight(st, x)[0].code.SnapshotEnd?
    requires x in st.subscribers || y != x
    ensures Ahead(Do(st, Publish(x, 0)), y) == Ahead(st, y)
    ensures InFlight(Do(st, Publish(x, 0)), y) == if x == y then [] else InFlight(st, y)
  {
    var e := InFlight(st, x)[0];
    var mid := st.(inFlight := st.inFlight[x := RemovedAt(InFlight(st, x), 0)]);
    AheadEnqueued(mid, x, e, y);
    assert InFlight(st, x) == [e];
  }

  lemma PublishOthers(st: State, x: nat)
    requires |InFlight(st, x)| == 1 && !InFlight(st, x)[0].code.SnapshotEnd?
    ensures OthersKept(st, Do(st, Publish(x, 0)), x)
  {
    forall y | y in st.data && y != x ensures Follows(st, Do(st, Publish(x, 0)), y, None) {
      AheadPublished(st, x, y);
    }
  }

  /** The queue has one more item, of a storage that has subscribers. */
  lemma EnqueuedKeeps(st: State, st': State, item: Item)
    requires Queued(st) && Registered(st) && item.storage in st.subscribers
    requires st'.queue == st.queue + [item] && st'.log == st.log + [item] && st'.local == st.local
    requires st'.handling == st.handling && st'.taken == st.taken && st'.subs == st.subs && st'.subscribers == st.subscribers
    requires st'.data.Keys == st.data.Keys && st'.alive == st.alive
    ensures Queued(st') && Registered(st') && Extends(st, st')
  {
    ItemQueued(st, item, st');
  }

  lemma PublishQueues(st: State, x: nat)
    requires Inv(st) && Enabled(st, Publish(x, 0)) && x in st.data && x in st.subscribers
    ensures Inv(Do(st, Publish(x, 0)))
  {
    var st' := Do(st, Publish(x, 0));
    assert Based(st, x) && |InFlight(st, x)| == 1 && InFlight(st, x)[0] in InFlight(st, x);
    EnqueuedKeeps(st, st', Item(x, InFlight(st, x)[0]));
    AheadPublished(st, x, x);
    PublishOthers(st, x);
    StorageStep(st, st', x, None);
  }

  lemma DropBased(st: State, x: nat)
    requires Queued(st) && Registered(st) && x in st.data && x !in st.subscribers && Based(st, x) && |InFlight(st, x)| == 1
    ensures Based(Do(st, Publish(x, 0)), x)
  {
    var st' := Do(st, Publish(x, 0));
    assert InFlight(st, x)[0] in InFlight(st, x);
    NoEventsOf(st.local + st.queue, x);
    BaseIsItself(st.data[x]);
    assert Ahead(st', x) == [];
  }

  lemma PublishDrops(st: State, x: nat)
    requires Inv(st) && Enabled(st, Publish(x, 0)) && x in st.data && x !in st.subscribers
    ensures Inv(Do(st, Publish(x, 0)))
  {
    hide SubOk, HasBase, EventsOf, Follows;
    var st' := Do(st, Publish(x, 0));
    assert Based(st, x) && |InFlight(st, x)| == 1 && InFlight(st, x)[0] in InFlight(st, x);
    DropBased(st, x);
    PublishOthers(st, x);
    StorageStep(st, st', x, None);
  }

  /** The writer of a map hands its event over: it is queued, or dropped where nobody ever subscribed. */
  lemma PublishKeeps(st: State, x: nat, w: nat)
    requires Inv(st) && Enabled(st, Publish(x, w))
    ensures Inv(Do(st, Publish(x, w)))
  {
    assert x in st.inFlight && x in st.data && Based(st, x);
    if x in st.subscribers {
      PublishQueues(st, x);
    } else {
      PublishDrops(st, x);
    }
  }

  lemma AheadListed(st: State, st': State, x: nat, e: Event, y: nat)
    requires !e.code.SnapshotEnd? && st' == Enqueued(st.(data := st'.data), x, e) && x in st.subscribers
    requires x == y ==> InFlight(st, y) == []
    ensures Ahead(st', y) == Ahead(st, y) + if x == y then [e] else []
    ensures InFlight(st', y) == InFlight(st, y)
  {
    hide EventsOf;
    AheadEnqueued(st.(data := st'.data), x, e, y);
  }

  lemma WriteListQueues(st: State, x: nat, e: Event)
    requires Inv(st) && Enabled(st, WriteList(x, e)) && x in st.subscribers
    ensures Inv(Do(st, WriteList(x, e)))
  {
    var st' := Do(st, WriteList(x, e));
    assert Based(st, x);
    EnqueuedKeeps(st, st', Item(x, e));
    AheadListed(st, st', x, e, x);
    forall y | y in st.data && y != x ensures Follows(st, st', y, None) && InFlight(st', y) == InFlight(st, y) {
      AheadListed(st, st', x, e, y);
    }
    StorageStep(st, st', x, Some(e));
  }

  lemma WriteListDrops(st: State, x: nat, e: Event)
    requires Inv(st) && Enabled(st, WriteList(x, e)) && x !in st.subscribers
    ensures Inv(Do(st, WriteList(x, e)))
  {
    hide SubOk, Apply, EventsOf, HasBase;
    var st' := Do(st, WriteList(x, e));
    assert Based(st, x);
    StorageStep(st, st', x, Some(e));
  }

  // ----- Subscribing, sessions, and the swap -----

  lemma AheadSubscribed(st: State, x: nat, session: nat, start: string, y: nat)
    ensures Ahead(Subscribed(st, x, session, start), y) == Ahead(st, y)
  {
    var marker := Item(x, END_OF_SNAPSHOT);
    assert st.local + (st.queue + [marker]) == (st.local + st.queue) + [marker];
    EventsOfSnoc(st.local + st.queue, marker, y);
  }

  lemma ListedGrows(subs: seq<Subscription>, s: Subscription, x: nat, list: seq<nat>)
    requires Listed(subs, x, list)
    ensures Listed(subs + [s], x, list)
    ensures s.storage == x ==> Listed(subs + [s], x, list + [|subs|])
  {
    forall a | 0 <= a < |list| ensures list[a] < |subs| {
      assert list[a] in list;
    }
    forall i | i in list + [|subs|] ensures i in list || i == |subs| {
    }
  }

  lemma SubscribeRegisters(st: State, x: nat, session: nat, start: string)
    requires Registered(st) && x in st.data
    ensures Registered(Subscribed(st, x, session, start))
  {
    var st' := Subscribed(st, x, session, start);
    var n := |st.subs|;
    var s := st'.subs[n];
    forall y | y in st'.subscribers ensures Listed(st'.subs, y, st'.subscribers[y]) {
      assert Listed(st.subs, y, SubscribersOf(st, y));
      ListedGrows(st.subs, s, y, SubscribersOf(st, y));
    }
    if st.handling.Visiting? {
      ListedGrows(st.subs, s, st.handling.item.storage, st.handling.rest);
    }
    forall item | item in st'.local + st'.queue ensures item.storage in st'.subscribers {
      assert item in st.local + st.queue || item == Item(x, END_OF_SNAPSHOT);
    }
    assert n in st'.subscribers[x] by {
      assert st'.subscribers[x][|SubscribersOf(st, x)|] == n;
    }
    forall i | 0 <= i < n ensures i in SubscribersOf(st', st'.subs[i].storage) {
      assert i in SubscribersOf(st, st.subs[i].storage);
    }
  }

  /** The new subscription is pending, and its marker is the last item queued. */
  lemma NewIsPending(st: State, x: nat, session: nat, start: string)
    requires x in st.data
    ensures SubOk(Subscribed(st, x, session, start), |st.subs|)
  {
    var st' := Subscribed(st, x, session, start);
    var items := st'.local + st'.queue;
    assert IsMarker(items[|items| - 1], x);
  }

  lemma SubscribeKeeps(st: State, x: nat, session: nat, start: string)
    requires Inv(st) && Enabled(st, Subscribe(x, session, start))
    ensures Inv(Do(st, Subscribe(x, session, start)))
  {
    hide PendingOk, SentOk, Converges, Sound, EventsOf;
    var st' := Subscribed(st, x, session, start);
    ItemQueued(st, Item(x, END_OF_SNAPSHOT), st');
    SubscribeRegisters(st, x, session, start);
    forall y | y in st'.data ensures Based(st', y) && Follows(st, st', y, None) {
      assert Based(st, y);
      AheadSubscribed(st, x, session, start, y);
    }
    forall i | 0 <= i < |st'.subs| ensures SubOk(st', i) {
      if i < |st.subs| {
        SubKept(st, st', i, None);
      } else {
        NewIsPending(st, x, session, start);
      }
    }
  }

  /** Sessions may come and go, and the queue may be handed to the publisher. */
  lemma QuietKeeps(st: State, st': State)
    requires Inv(st) && st' == st.(alive := st'.alive, local := st'.local, queue := st'.queue)
    requires st'.local + st'.queue == st.local + st.queue && Extends(st, st')
    ensures Inv(st')
  {
    forall y | y in st'.data ensures Based(st', y) && Follows(st, st', y, None) {
      assert Based(st, y);
    }
    forall i | 0 <= i < |st'.subs| ensures SubOk(st', i) {
      SubKept(st, st', i, None);
    }
  }

  // ----- The publisher takes an item -----

  lemma TakeQueued(st: State)
    requires Queued(st) && st.local != []
    ensures Queued(Taken(st)) && st.taken < |st.log| && st.log[st.taken] == st.local[0]
  {
    var st' := Taken(st);
    assert st.log[st.taken..][0] == st.local[0];
    assert st.log[st.taken..][1..] == st.log[st.taken + 1..];
    assert (st.local + st.queue)[1..] == st'.local + st'.queue;
  }

  lemma TakeRegistered(st: State)
    requires Registered(st) && st.local != []
    ensures Registered(Taken(st))
  {
    var st' := Taken(st);
    forall item | item in st'.local + st'.queue ensures item in st.local + st.queue {
      assert (st.local + st.queue)[1..] == st'.local + st'.queue;
    }
  }

  /** A subscription waits for the item taken if and only if it is of its storage. */
  lemma TakeWaits(st: State, i: nat)
    requires Registered(st) && st.local != [] && i < |st.subs|
    ensures Waiting(Taken(st), i) <==> st.subs[i].storage == st.local[0].storage
  {
    assert i in SubscribersOf(st, st.subs[i].storage);
    var x := st.local[0].storage;
    if x in st.subscribers {
      assert Listed(st.subs, x, st.subscribers[x]);
    }
  }

  lemma TakePending(st: State, i: nat)
    requires Registered(st) && st.local != [] && Available(st) && i < |st.subs| && PendingOk(st, i)
    ensures PendingOk(Taken(st), i)
  {
    var st', x := Taken(st), st.subs[i].storage;
    var a, b := st.local + st.queue, st'.local + st'.queue;
    TakeWaits(st, i);
    if j :| 0 <= j < |a| && IsMarker(a[j], x) {
      if j > 0 {
        assert b[j - 1] == a[j] && IsMarker(b[j - 1], x);
      }
    }
  }

  /** An item that is a marker or of another storage adds nothing to what a subscription is sent. */
  lemma TakeSent(st: State, i: nat)
    requires Registered(st) && Queued(st) && st.local != [] && Available(st) && i < |st.subs| && SentOk(st, i)
    ensures SentOk(Taken(st), i)
  {
    var st', s := Taken(st), st.subs[i];
    TakeWaits(st, i);
    TakeQueued(st);
    if !s.pending && s.session in st.alive && !WaitingForEvent(st', i) {
      assert st.log[s.since..st.taken + 1] == st.log[s.since..st.taken] + [st.local[0]];
      EventsOfSnoc(st.log[s.since..st.taken], st.local[0], s.storage);
    }
  }

  lemma TakeConverges(st: State, i: nat)
    requires Registered(st) && st.local != [] && Available(st) && i < |st.subs| && st.subs[i].storage in st.data && Converges(st, i)
    ensures Converges(Taken(st), i)
  {
    TakeWaits(st, i);
    AheadTaken(st, st.subs[i].storage);
    assert Owed(Taken(st), i) == Owed(st, i);
  }

  lemma TakeBased(st: State, x: nat)
    requires st.local != [] && x in st.data && Based(st, x)
    ensures Based(Taken(st), x)
  {
    AheadTaken(st, x);
    if Ahead(st, x) != Ahead(Taken(st), x) && st.data[x].MapContainer? {
      BaseAdvances(st.data[x], st.local[0].event, Ahead(Taken(st), x));
    }
  }

  lemma TakeKeeps(st: State)
    requires Inv(st) && Enabled(st, Take)
    ensures Inv(Do(st, Take))
  {
    TakeQueued(st);
    TakeRegistered(st);
    forall x | x in st.data ensures Based(Taken(st), x) {
      TakeBased(st, x);
    }
    forall i | 0 <= i < |st.subs| ensures SubOk(Taken(st), i) {
      assert SubOk(st, i);
      TakePending(st, i);
      TakeSent(st, i);
      TakeConverges(st, i);
    }
  }

  // ----- The publisher visits a subscriber -----

  /** The visit is over for the first subscriber waiting, and for no other. */
  lemma VisitWaits(st: State, j: nat)
    requires Registered(st) && Enabled(st, Visit)
    ensures Waiting(Do(st, Visit), j) <==> Waiting(st, j) && j != st.handling.rest[0]
  {
    var rest := st.handling.rest;
    assert rest == [rest[0]] + rest[1..];
    if j in rest[1..] {
      var a :| 0 <= a < |rest[1..]| && rest[1..][a] == j;
      assert rest[a + 1] == j;
    }
  }

  lemma VisitOthers(st: State, j: nat)
    requires Registered(st) && Enabled(st, Visit) && j < |st.subs| && j != st.handling.rest[0]
    requires st.subs[j].storage in st.data && SubOk(st, j)
    ensures SubOk(Do(st, Visit), j)
  {
    var st' := Do(st, Visit);
    VisitWaits(st, j);
    assert st'.subs[j] == st.subs[j];
    assert Ahead(st', st.subs[j].storage) == Ahead(st, st.subs[j].storage);
  }

  /** The subscriptions are the same but for what one has been sent, and the publisher has one less to visit. */
  lemma VisitRegistered(st: State)
    requires Registered(st) && Enabled(st, Visit)
    ensures Registered(Do(st, Visit))
  {
    var st', rest := Do(st, Visit), st.handling.rest;
    forall i | 0 <= i < |st.subs| ensures st'.subs[i].storage == st.subs[i].storage {
    }
    forall y | y in st'.subscribers ensures Listed(st'.subs, y, st'.subscribers[y]) {
      assert Listed(st.subs, y, st.subscribers[y]);
    }
    forall i | i in rest[1..] ensures i in rest {
    }
    forall i | 0 <= i < |st'.subs| ensures i in SubscribersOf(st', st'.subs[i].storage) {
      assert i in SubscribersOf(st, st.subs[i].storage);
    }
  }

  lemma MarkAtEnd(events: seq<Event>)
    requires forall i :: 0 <= i < |events| ==> !events[i].code.SnapshotEnd?
    ensures IsSnapshot(events + [END_OF_SNAPSHOT])
  {
  }

  lemma QueryHasNoMark(c: Container, start: int)
    ensures IsSnapshot(Snapshot(c, start))
  {
    MarkAtEnd(QueryEvents(c, start));
  }

  ghost predicate AtSub(st: State, i: nat) {
    st.handling.Visiting? && i < |st.subs| && Waiting(st, i) && st.subs[i].storage in st.data
  }

  /** The state after a visit that leaves subscription `i` as `s`. */
  ghost predicate VisitedAs(st: State, st': State, i: nat, s: Subscription) {
    && AtSub(st, i)
    && st' == st.(handling := st'.handling, subs := st.subs[i := s])
    && st'.handling.Visiting? && st'.handling.item == st.handling.item && !Waiting(st', i)
    && s.storage == st.subs[i].storage == st.handling.item.storage && s.session == st.subs[i].session && s.start == st.subs[i].start
  }

  lemma EventApplied(empty: Container, sent: seq<Event>, e: Event, ahead: seq<Event>)
    ensures Fold(Fold(empty, sent), [e] + ahead) == Fold(Fold(empty, sent + [e]), ahead)
  {
    FoldCons(Fold(empty, sent), e, ahead);
    FoldSnoc(empty, sent, e);
  }

  /** Nothing changes for a subscription that is passed over: a dead one, or one the item is not for. */
  lemma PassedOver(st: State, st': State, i: nat)
    requires AtSub(st, i) && VisitedAs(st, st', i, st.subs[i]) && SubOk(st, i)
    requires st.subs[i].session !in st.alive
          || if st.handling.item.event.code.SnapshotEnd? then !st.subs[i].pending else st.subs[i].pending
    ensures SubOk(st', i)
  {
  }

  lemma EventSent(st: State, st': State, i: nat)
    requires AtSub(st, i) && Queued(st) && SubOk(st, i) && !st.subs[i].pending && st.subs[i].session in st.alive
    requires !st.handling.item.event.code.SnapshotEnd?
    requires VisitedAs(st, st', i, st.subs[i].(sent := st.subs[i].sent + [st.handling.item.event]))
    ensures SubOk(st', i)
  {
    hide EventsOf, Fold, Snapshot;
    var s, item := st.subs[i], st.handling.item;
    assert st.log[s.since..st.taken] == st.log[s.since..st.taken - 1] + [item];
    EventsOfSnoc(st.log[s.since..st.taken - 1], item, s.storage);
    EventApplied(Empty(st.data[s.storage]), s.sent, item.event, Ahead(st, s.storage));
    assert Owed(st', i) == Ahead(st, s.storage);
    assert s.snapshot + (EventsOf(st.log[s.since..st.taken - 1], s.storage) + [item.event]) == s.sent + [item.event];
  }

  lemma StartEmpty(st: State, st': State, i: nat)
    requires AtSub(st, i) && Queued(st) && SubOk(st, i) && st.subs[i].pending && st.subs[i].start == ""
    requires VisitedAs(st, st', i, st.subs[i].(pending := false, since := st.taken)) && st.handling.item.event.code.SnapshotEnd?
    ensures SubOk(st', i)
  {
    assert st.log[st.taken..st.taken] == [];
  }

  /**
    The snapshot is taken when the marker is handled, so it may hold what is still ahead.
    On a map, replaying what is ahead on the map it made changes nothing.
    */
  lemma SnapshotConverges(c: Container, ahead: seq<Event>, inFlight: seq<Event>)
    requires Sound(c, ahead, inFlight) && (c.MapContainer? || ahead == [])
    ensures Fold(c, ahead) == c
  {
    if c.MapContainer? {
      var base: Container :| Makes(base, ahead, c);
      ReplayIsIdempotent(base, ahead);
    }
  }

  lemma SnapshotSent(st: State, st': State, i: nat, snapshot: seq<Event>, clean: bool)
    requires AtSub(st, i) && Queued(st) && SubOk(st, i) && st.subs[i].pending && st.subs[i].start != ""
    requires VisitedAs(st, st', i, st.subs[i].(pending := false, sent := snapshot, snapshot := snapshot, since := st.taken, clean := clean))
    requires st.handling.item.event.code.SnapshotEnd? && IsSnapshot(snapshot)
    requires var c := st.data[st.subs[i].storage];
      Number(st.subs[i].start) == 0 && (c.MapContainer? || clean) ==>
        Fold(Empty(c), snapshot) == c && Fold(c, Ahead(st, st.subs[i].storage)) == c
    ensures SubOk(st', i)
  {
    assert st.log[st.taken..st.taken] == [];
    assert snapshot + [] == snapshot;
    assert Owed(st', i) == Ahead(st, st.subs[i].storage);
  }

  /** A marker ends the pending state of a live subscriber, with one snapshot or, from an empty start, none. */
  lemma MarkerVisit(st: State, st': State, i: nat)
    requires AtSub(st, i) && Queued(st) && Based(st, st.subs[i].storage) && SubOk(st, i) && st.subs[i].pending
    requires st.subs[i].start != "" && st.subs[i].session in st.alive && st.handling.item.event.code.SnapshotEnd?
    requires VisitedAs(st, st', i, Visited(st, st.subs[i], st.handling.item))
    ensures SubOk(st', i)
  {
    var s := st.subs[i];
    var c, ahead := st.data[s.storage], Ahead(st, s.storage);
    var snapshot := Snapshot(c, Number(s.start));
    QueryHasNoMark(c, Number(s.start));
    assert [] + snapshot == snapshot;
    if Number(s.start) == 0 && (c.MapContainer? || ahead == []) {
      SnapshotRestores(c);
      SnapshotConverges(c, ahead, InFlight(st, s.storage));
    }
    SnapshotSent(st, st', i, snapshot, ahead == []);
  }

  lemma VisitOne(st: State, st': State, i: nat)
    requires AtSub(st, i) && Queued(st) && SubOk(st, i) && Based(st, st.subs[i].storage)
    requires VisitedAs(st, st', i, Visited(st, st.subs[i], st.handling.item))
    ensures SubOk(st', i)
  {
    var s, marker := st.subs[i], st.handling.item.event.code.SnapshotEnd?;
    if marker && s.pending && s.start == "" {
      StartEmpty(st, st', i);
    } else if s.session !in st.alive || marker == !s.pending {
      PassedOver(st, st', i);
    } else if marker {
      MarkerVisit(st, st', i);
    } else {
      EventSent(st, st', i);
    }
  }

  lemma VisitKeeps(st: State)
    requires Inv(st) && Enabled(st, Visit)
    ensures Inv(Do(st, Visit))
  {
    hide PendingOk, SentOk, Converges, Sound, EventsOf;
    var st', i := Do(st, Visit), st.handling.rest[0];
    VisitRegistered(st);
    forall x | x in st'.data ensures Based(st', x) {
      assert Based(st, x) && Ahead(st', x) == Ahead(st, x);
    }
    forall j | 0 <= j < |st'.subs| ensures SubOk(st', j) {
      assert SubOk(st, j);
      if j != i {
        VisitOthers(st, j);
      } else {
        VisitWaits(st, i);
        assert Waiting(st, i) && Based(st, st.subs[i].storage);
        VisitOne(st, st', i);
      }
    }
  }
}
