/** The part of the server that queues events and publishes them, as it updates its fields. */
module TioTcpServer {
  import opened Containers
  import opened Publisher
  import opened PublisherInv
  import opened PublisherRuns

  /** The publisher goes on until it has handled everything it has taken, nothing else happening meanwhile. */
  ghost function Drained(st: State): State
    decreases |st.local|, if st.handling.Visiting? then |st.handling.rest| else 0
  {
    if Enabled(st, Visit) then Drained(Do(st, Visit))
    else if Enabled(st, Take) then Drained(Do(st, Take))
    else st
  }

  lemma DrainedVisit(st: State)
    requires Enabled(st, Visit)
    ensures Drained(st) == Drained(Do(st, Visit))
  {
  }

  lemma DrainedTake(st: State)
    requires Enabled(st, Take)
    ensures Drained(st) == Drained(Do(st, Take))
  {
  }

  lemma DrainedIdle(st: State)
    requires st.handling.Idle? && st.local == []
    ensures Drained(st) == st
  {
  }

  /** Draining is a run of steps, so it keeps what every step keeps, and it leaves nothing behind. */
  lemma {:induction false} DrainedKeeps(st: State)
    requires Inv(st)
    ensures Inv(Drained(st)) && Drained(st).local == [] && Available(Drained(st))
    ensures Drained(st).queue == st.queue && Drained(st).data == st.data && Drained(st).alive == st.alive
    ensures |Drained(st).subs| == |st.subs| && Drained(st).inFlight == st.inFlight
    decreases |st.local|, if st.handling.Visiting? then |st.handling.rest| else 0
  {
    if Enabled(st, Visit) {
      VisitKeeps(st);
      DrainedKeeps(Do(st, Visit));
    } else if Enabled(st, Take) {
      TakeKeeps(st);
      DrainedKeeps(Do(st, Take));
    } else {
      VisitEnabled(st);
    }
  }

  lemma VisitEnabled(st: State)
    requires Registered(st)
    ensures st.handling.Visiting? && st.handling.rest != [] ==> Enabled(st, Visit)
  {
    if st.handling.Visiting? && st.handling.rest != [] {
      assert st.handling.rest[0] in st.handling.rest;
      assert st.subs[st.handling.rest[0]].storage in st.data;
    }
  }

  /** Drained, and waiting for the queue again. */
  ghost function Settled(st: State): State {
    Drained(st).(handling := Idle)
  }

  /** With no subscriber left to visit the publisher is as good as idle. */
  lemma DoneIsIdle(st: State)
    requires st.handling.Visiting? && st.handling.rest == [] && Registered(st)
    ensures Settled(st) == Settled(st.(handling := Idle)) && Registered(st.(handling := Idle))
  {
    if st.local != [] {
      assert Do(st, Take) == Do(st.(handling := Idle), Take);
    }
  }

  lemma IdleKeeps(st: State)
    requires Inv(st) && Available(st)
    ensures Inv(st.(handling := Idle))
  {
    var st' := st.(handling := Idle);
    forall x | x in st'.data ensures Based(st', x) {
      assert Based(st, x) && Ahead(st', x) == Ahead(st, x);
    }
    forall i | 0 <= i < |st'.subs| ensures SubOk(st', i) {
      assert SubOk(st, i) && Ahead(st', st.subs[i].storage) == Ahead(st, st.subs[i].storage);
    }
  }

  /** A `SubscriptionInfo`, with all its session has been sent on its handle. */
  datatype Info = Info(storage: nat, session: nat, start: string, snapshotPending: bool, sent: seq<Event>)

  /** The history of a subscription. */
  datatype History = History(snapshot: seq<Event>, since: nat, clean: bool)

  ghost function Whole(infos: seq<Info>, histories: seq<History>): (r: seq<Subscription>)
    requires |infos| == |histories|
    ensures |r| == |infos|
    ensures forall i :: 0 <= i < |r| ==>
      r[i] == Subscription(infos[i].storage, infos[i].session, infos[i].start, infos[i].snapshotPending, infos[i].sent,
                           histories[i].snapshot, histories[i].since, histories[i].clean)
  {
    seq(|infos|, i requires 0 <= i < |infos| =>
      Subscription(infos[i].storage, infos[i].session, infos[i].start, infos[i].snapshotPending, infos[i].sent,
                   histories[i].snapshot, histories[i].since, histories[i].clean))
  }

  class Server {
    var eventQueue: seq<Item>
    var subscribers: map<nat, seq<nat>>
    var infos: seq<Info>
    var data: map<nat, Container>
    var sessions: set<nat>
    ghost var histories: seq<History>
    ghost var inFlight: map<nat, seq<Event>>
    ghost var log: seq<Item>
    ghost var taken: nat

    ghost predicate Valid()
      reads this
    {
      |infos| == |histories|
    }

    constructor (data: map<nat, Container>)
      ensures Valid() && View() == Initial(data)
    {
      eventQueue, subscribers, infos, sessions := [], map[], [], {};
      histories, inFlight, log, taken := [], map[], [], 0;
      this.data := data;
    }

    /** The server while the publisher is at `handling` and has `local` still to take. */
    ghost function At(local: seq<Item>, handling: Handling): State
      requires Valid()
      reads this
    {
      State(data, inFlight, eventQueue, local, handling, subscribers, Whole(infos, histories), sessions, log, taken)
    }

    /** The server between two passes of the publisher. */
    ghost function View(): State
      requires Valid()
      reads this
    {
      At([], Idle)
    }

    method OnAnyContainerEvent(storage: nat, event: Event)
      requires Valid()
      modifies this`eventQueue, this`log
      ensures Valid() && View() == Enqueued(old(View()), storage, event)
    {
      if storage !in subscribers {
        return;
      }
      eventQueue := eventQueue + [Item(storage, event)];
      log := log + [Item(storage, event)];
    }

    method SessionAsyncSubscribe(storage: nat, session: nat, start: string)
      requires Valid()
      modifies this`eventQueue, this`log, this`subscribers, this`infos, this`histories
      ensures Valid() && View() == Subscribed(old(View()), storage, session, start)
    {
      eventQueue := eventQueue + [Item(storage, END_OF_SNAPSHOT)];
      log := log + [Item(storage, END_OF_SNAPSHOT)];
      if storage !in subscribers {
        subscribers := subscribers[storage := []];
      }
      subscribers := subscribers[storage := subscribers[storage] + [|infos|]];
      infos := infos + [Info(storage, session, start, true, [])];
      histories := histories + [History([], 0, false)];
      assert View().subs == old(View()).subs + [Subscription(storage, session, start, true, [], [], 0, false)];
    }

    /** A subscription changes, and its history with it. */
    method Update(i: nat, info: Info, ghost history: History)
      requires Valid() && i < |infos|
      modifies this`infos, this`histories
      ensures Valid()
      ensures Whole(infos, histories) == old(Whole(infos, histories))[i :=
        Subscription(info.storage, info.session, info.start, info.snapshotPending, info.sent, history.snapshot, history.since, history.clean)]
    {
      infos := infos[i := info];
      histories := histories[i := history];
    }

    /** What the publisher does with one of the subscribers it copied. */
    method HandleSubscriber(i: nat, eventInfo: Item, ghost local: seq<Item>, ghost handling: Handling)
      requires Valid() && i < |infos| && infos[i].storage in data
      modifies this`infos, this`histories
      ensures Valid()
      ensures Whole(infos, histories)
           == old(Whole(infos, histories))[i := Visited(old(At(local, handling)), old(Whole(infos, histories))[i], eventInfo)]
    {
      var s := infos[i];
      ghost var h := histories[i];
      if eventInfo.event.code.SnapshotEnd? {
        if !s.snapshotPending {
          return;
        }
        if s.start == "" {
          Update(i, s.(snapshotPending := false), h.(since := taken));
          return;
        }
        if s.session !in sessions {
          return;
        }
        var snapshot := Snapshot(data[s.storage], Number(s.start));
        Update(i, s.(snapshotPending := false, sent := s.sent + snapshot),
               History(snapshot, taken, Ahead(At(local, handling), s.storage) == []));
      } else {
        if s.snapshotPending {
          return;
        }
        if s.session !in sessions {
          return;
        }
        Update(i, s.(sent := s.sent + [eventInfo.event]), h);
      }
    }

    /** One item: every subscriber there was when it was taken. */
    method HandleItem(eventInfo: Item, ghost local: seq<Item>)
      requires Valid() && Registered(Taking(eventInfo, local))
      modifies this`infos, this`histories
      ensures Valid() && Registered(At(local, Idle))
      ensures Settled(old(Taking(eventInfo, local))) == Settled(At(local, Idle))
    {
      hide EventsOf, Drained;
      ghost var begin := Taking(eventInfo, local);
      if eventInfo.storage !in subscribers {
        return;
      }
      var interestedSubscribers := subscribers[eventInfo.storage];
      var n := 0;
      while n < |interestedSubscribers|
        invariant 0 <= n <= |interestedSubscribers| && Valid()
        invariant Registered(At(local, Visiting(eventInfo, interestedSubscribers[n..])))
        invariant Drained(begin) == Drained(At(local, Visiting(eventInfo, interestedSubscribers[n..])))
      {
        ghost var rest := interestedSubscribers[n..];
        ghost var st := At(local, Visiting(eventInfo, rest));
        var i := interestedSubscribers[n];
        assert rest[0] == i && i in rest && Listed(st.subs, eventInfo.storage, rest);
        assert st.subs[i].storage in st.data;
        HandleSubscriber(i, eventInfo, local, Visiting(eventInfo, rest));
        n := n + 1;
        assert interestedSubscribers[n..] == rest[1..];
        assert At(local, Visiting(eventInfo, interestedSubscribers[n..])) == Do(st, Visit);
        VisitRegistered(st);
        DrainedVisit(st);
      }
      assert interestedSubscribers[n..] == [];
      DoneIsIdle(At(local, Visiting(eventInfo, [])));
    }

    ghost function Taking(eventInfo: Item, local: seq<Item>): State
      requires Valid()
      reads this
    {
      At(local, if eventInfo.storage in subscribers then Visiting(eventInfo, subscribers[eventInfo.storage]) else Idle)
    }

    /** One pass of the publisher thread, from the swap of the queue on, with nothing else happening meanwhile. */
    method PublisherPass()
      requires Valid() && Inv(View()) && eventQueue != []
      modifies this`eventQueue, this`infos, this`histories, this`taken
      ensures Valid() && View() == Settled(Do(old(View()), Swap))
      ensures Inv(View()) && Quiet(View())
    {
      hide EventsOf, Inv, Registered, Drained;
      ghost var begin := Do(View(), Swap);
      StepKeeps(View(), Swap);
      DrainedKeeps(begin);
      IdleKeeps(Drained(begin));
      var localEventQueue := eventQueue;
      eventQueue := [];
      var n := 0;
      while n < |localEventQueue|
        invariant 0 <= n <= |localEventQueue| && Valid() && eventQueue == []
        invariant Registered(At(localEventQueue[n..], Idle))
        invariant Settled(begin) == Settled(At(localEventQueue[n..], Idle))
      {
        ghost var st := At(localEventQueue[n..], Idle);
        var eventInfo := localEventQueue[n];
        n := n + 1;
        taken := taken + 1;
        assert localEventQueue[n - 1..][1..] == localEventQueue[n..];
        assert Taking(eventInfo, localEventQueue[n..]) == Do(st, Take);
        TakeRegistered(st);
        DrainedTake(st);
        HandleItem(eventInfo, localEventQueue[n..]);
      }
      assert localEventQueue[n..] == [];
      DrainedIdle(At([], Idle));
    }
  }
}
