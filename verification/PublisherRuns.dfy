/** Whole runs of the publishing protocol: what a subscriber has been sent, and what it then holds. */
module PublisherRuns {
  import opened Bytes
  import opened Sequences
  import opened Containers
  import opened Publisher
  import opened PublisherInv

  lemma StepKeeps(st: State, step: Step)
    requires Inv(st) && Enabled(st, step) && SingleWriter(st, step)
    ensures Inv(Do(st, step))
  {
    match step
    case Write(x, e) => WriteKeeps(st, x, e);
    case Publish(x, w) => PublishKeeps(st, x, w);
    case WriteList(x, e) =>
      if x in st.subscribers {
        WriteListQueues(st, x, e);
      } else {
        WriteListDrops(st, x, e);
      }
    case Subscribe(x, session, start) => SubscribeKeeps(st, x, session, start);
    case Connect(_) => QuietKeeps(st, Do(st, step));
    case Disconnect(_) => QuietKeeps(st, Do(st, step));
    case Swap =>
      assert st.queue + [] == [] + st.queue;
      QuietKeeps(st, Do(st, step));
    case Take => TakeKeeps(st);
    case Visit => VisitKeeps(st);
  }

  /** Every state reached from containers nobody has subscribed to, by any interleaving, satisfies the invariant. */
  lemma {:induction false} RunsKeepInv(data: map<nat, Container>, steps: seq<Step>)
    requires forall x :: x in data ==> Proper(data[x])
    ensures Run(Initial(data), steps).Some? ==> Inv(Run(Initial(data), steps).value)
  {
    if steps == [] {
      var st := Initial(data);
      forall x | x in data ensures Based(st, x) {
        assert Ahead(st, x) == [];
        if data[x].MapContainer? {
          BaseIsItself(data[x]);
        }
      }
    } else {
      RunsKeepInv(data, steps[..|steps| - 1]);
      var mid := Run(Initial(data), steps[..|steps| - 1]);
      if mid.Some? && Enabled(mid.value, steps[|steps| - 1]) && SingleWriter(mid.value, steps[|steps| - 1]) {
        StepKeeps(mid.value, steps[|steps| - 1]);
      }
    }
  }

  // ----- Convergence -----

  /** A map subscription from the beginning: with what it is still owed, the replica is the map, in every reachable state. */
  lemma MapConvergence(data: map<nat, Container>, steps: seq<Step>, i: nat)
    requires forall x :: x in data ==> Proper(data[x])
    requires Run(Initial(data), steps).Some?
    requires var st := Run(Initial(data), steps).value;
      i < |st.subs| && Following(st, i) && st.subs[i].storage in st.data && st.data[st.subs[i].storage].MapContainer?
    ensures var st := Run(Initial(data), steps).value;
      && Fold(Replica(st, i), Owed(st, i)) == st.data[st.subs[i].storage]
      && (Owed(st, i) == [] ==> Replica(st, i) == st.data[st.subs[i].storage])
  {
    RunsKeepInv(data, steps);
    var st := Run(Initial(data), steps).value;
    assert SubOk(st, i);
  }

  /** A list subscription from the beginning, whose snapshot was taken with nothing of the list ahead. */
  lemma ListConvergence(data: map<nat, Container>, steps: seq<Step>, i: nat)
    requires forall x :: x in data ==> Proper(data[x])
    requires Run(Initial(data), steps).Some?
    requires var st := Run(Initial(data), steps).value;
      i < |st.subs| && Following(st, i) && st.subs[i].clean && st.subs[i].storage in st.data
    ensures var st := Run(Initial(data), steps).value;
      && Fold(Replica(st, i), Owed(st, i)) == st.data[st.subs[i].storage]
      && (Owed(st, i) == [] ==> Replica(st, i) == st.data[st.subs[i].storage])
  {
    RunsKeepInv(data, steps);
    var st := Run(Initial(data), steps).value;
    assert SubOk(st, i);
  }

  // ----- Delivery -----

  /** How many snapshots were finished. */
  function Marks(events: seq<Event>): nat {
    if events == [] then 0 else Marks(events[..|events| - 1]) + if events[|events| - 1].code.SnapshotEnd? then 1 else 0
  }

  lemma {:induction false} MarksAppend(a: seq<Event>, b: seq<Event>)
    ensures Marks(a + b) == Marks(a) + Marks(b)
  {
    if b == [] {
      assert a + b == a;
    } else {
      assert (a + b)[..|a + b| - 1] == a + b[..|b| - 1];
      MarksAppend(a, b[..|b| - 1]);
    }
  }

  lemma {:induction false} NoMarks(events: seq<Event>)
    requires forall j :: 0 <= j < |events| ==> !events[j].code.SnapshotEnd?
    ensures Marks(events) == 0
  {
    if events != [] {
      NoMarks(events[..|events| - 1]);
    }
  }

  lemma {:induction false} EventsHaveNoMarks(items: seq<Item>, x: nat)
    ensures Marks(EventsOf(items, x)) == 0
  {
    if items != [] {
      var n := |items| - 1;
      EventsHaveNoMarks(items[..n], x);
      var last := if items[n].storage == x && !items[n].event.code.SnapshotEnd? then [items[n].event] else [];
      MarksAppend(EventsOf(items[..n], x), last);
      NoMarks(last);
    }
  }

  lemma OneMark(events: seq<Event>)
    requires IsSnapshot(events)
    ensures Marks(events) == 1
  {
    NoMarks(events[..|events| - 1]);
  }

  /**
    In every reachable state, for a subscription whose session is there: while pending it has been sent nothing and
    a marker that will end this is ahead; afterwards it has been sent one snapshot, or none from an empty start,
    and behind it every event of its storage handled since, once and in the order they were queued.
    */
  lemma Delivery(data: map<nat, Container>, steps: seq<Step>, i: nat)
    requires forall x :: x in data ==> Proper(data[x])
    requires Run(Initial(data), steps).Some?
    requires var st := Run(Initial(data), steps).value; i < |st.subs| && st.subs[i].session in st.alive
    ensures var st := Run(Initial(data), steps).value;
      var s := st.subs[i];
      && (s.pending ==> s.sent == [] && MarkerAhead(st, i))
      && (!s.pending ==>
            && 0 <= s.since <= Handled(st, i) <= |st.log|
            && s.sent == s.snapshot + EventsOf(st.log[s.since..Handled(st, i)], s.storage)
            && Marks(s.sent) == Marks(s.snapshot) == if s.start == "" then 0 else 1)
  {
    RunsKeepInv(data, steps);
    var st := Run(Initial(data), steps).value;
    var s := st.subs[i];
    assert SubOk(st, i);
    if !s.pending {
      var events := EventsOf(st.log[s.since..Handled(st, i)], s.storage);
      MarksAppend(s.snapshot, events);
      EventsHaveNoMarks(st.log[s.since..Handled(st, i)], s.storage);
      if s.start != "" {
        OneMark(s.snapshot);
      }
    }
  }

  /** The publisher has nothing left to do. */
  predicate Quiet(st: State) {
    st.local == [] && st.queue == [] && Available(st)
  }

  /** When the publisher has nothing left to do, no live subscription is pending, and each has been sent all there was. */
  lemma QuietMeansDelivered(st: State, i: nat)
    requires Inv(st) && Quiet(st) && i < |st.subs| && st.subs[i].session in st.alive
    ensures !st.subs[i].pending
    ensures st.subs[i].since <= |st.log|
    ensures st.subs[i].sent == st.subs[i].snapshot + EventsOf(st.log[st.subs[i].since..], st.subs[i].storage)
  {
    assert SubOk(st, i);
    assert st.log[st.taken..] == [];
    assert st.log[st.subs[i].since..st.taken] == st.log[st.subs[i].since..];
  }

  /** And with no writer between its change and its event, every map subscriber holds the map. */
  lemma QuietMeansEqual(st: State, i: nat)
    requires Inv(st) && Quiet(st) && i < |st.subs| && Following(st, i)
    requires st.data[st.subs[i].storage].MapContainer? && InFlight(st, st.subs[i].storage) == []
    ensures Replica(st, i) == st.data[st.subs[i].storage]
  {
    assert SubOk(st, i);
    assert Owed(st, i) == [];
  }

  // ----- Where convergence stops -----

  /** The length of a list after an event, from its length before. */
  function SizeAfterOne(size: nat, e: Event): nat {
    match e.code
    case PushBack => size + 1
    case PushFront => size + 1
    case Clear => 0
    case Insert => if e.key.Int? && InsertPosition(e.key.number, size).Ok? then size + 1 else size
    case Delete => if e.key.Int? && size > 0 && NormalizeIndex(e.key.number, size).Ok? then size - 1 else size
    case _ => size
  }

  function SizeAfter(size: nat, events: seq<Event>): nat {
    if events == [] then size else SizeAfterOne(SizeAfter(size, events[..|events| - 1]), events[|events| - 1])
  }

  lemma {:induction false} SizeIsAfter(l: seq<Record>, events: seq<Event>)
    ensures |Fold(ListContainer(l), events).items| == SizeAfter(|l|, events)
  {
    if events != [] {
      SizeIsAfter(l, events[..|events| - 1]);
    }
  }

  /** Pushes change the length on balance, whatever the length was. */
  lemma {:induction false} PushesLengthen(size: nat, events: seq<Event>)
    requires forall j :: 0 <= j < |events| ==> events[j].code.PushBack? || events[j].code.PushFront?
    ensures SizeAfter(size, events) == size + |events|
  {
    if events != [] {
      PushesLengthen(size, events[..|events| - 1]);
    }
  }

  /** A live list subscriber, from the start of the list, is visited with the marker that ends its waiting. */
  ghost predicate ListSnapshotDue(st: State, i: nat) {
    && Inv(st) && Enabled(st, Visit) && i == st.handling.rest[0] && st.handling.item.event.code.SnapshotEnd?
    && st.subs[i].pending && st.subs[i].session in st.alive && st.subs[i].start != "" && Number(st.subs[i].start) == 0
    && st.data[st.subs[i].storage].ListContainer?
  }

  /** What a subscriber of the container has, with what it is still owed, is the container. */
  ghost predicate Brought(st: State, i: nat) {
    && i < |st.subs| && st.subs[i].storage in st.data
    && Fold(Replica(st, i), Owed(st, i)) == st.data[st.subs[i].storage]
  }

  /**
    It will be brought to the list if and only if the events still ahead, which the snapshot holds already,
    change nothing when they are made a second time; never if they change the length on balance.
    */
  lemma ListConvergesIffRepeatable(st: State, i: nat)
    requires ListSnapshotDue(st, i)
    ensures var c, ahead := st.data[st.subs[i].storage], Ahead(st, st.subs[i].storage);
      && (Brought(Do(st, Visit), i) <==> Fold(c, ahead) == c)
      && (SizeAfter(|c.items|, ahead) != |c.items| ==> !Brought(Do(st, Visit), i))
  {
    hide Inv, Do, Replica, Owed, Ahead, Fold, SizeAfter;
    SnapshotVisit(st, i);
    SizeIsAfter(st.data[st.subs[i].storage].items, Ahead(st, st.subs[i].storage));
  }

  /** The snapshot makes the list as it is now, and what is ahead is then owed on top of it. */
  lemma SnapshotVisit(st: State, i: nat)
    requires ListSnapshotDue(st, i)
    ensures var st', x := Do(st, Visit), st.subs[i].storage;
      i < |st'.subs| && st'.subs[i].storage == x && x in st'.data && st'.data[x] == st.data[x] && Replica(st', i) == st.data[x] && Owed(st', i) == Ahead(st, x)
  {
    hide EventsOf, Fold, Snapshot;
    var st', s := Do(st, Visit), st.subs[i];
    assert SubOk(st, i) && Based(st, s.storage);
    VisitWaits(st, i);
    assert st'.subs[i].sent == Snapshot(st.data[s.storage], 0);
    SnapshotRestores(st.data[s.storage]);
  }

  /** So with any events that change the length on balance, pushes among them, it is brought to the list if and only if there are none. */
  lemma ListConvergesIffNothingAhead(st: State, i: nat)
    requires ListSnapshotDue(st, i)
    requires var c, ahead := st.data[st.subs[i].storage], Ahead(st, st.subs[i].storage);
      ahead != [] ==> SizeAfter(|c.items|, ahead) != |c.items|
    ensures Brought(Do(st, Visit), i) <==> Ahead(st, st.subs[i].storage) == []
  {
    hide Inv, Do, Brought, Ahead, EventsOf;
    ListConvergesIffRepeatable(st, i);
  }

  /** Two writers on one map, the second to change it being the first to publish. */
  ghost function Crossed(st: State, x: nat, e: Event, f: Event): State
    requires x in st.data && st.data[x].MapContainer? && x in st.subscribers && InFlight(st, x) == []
  {
    var c := Apply(Apply(st.data[x], e), f);
    var written := st.(data := st.data[x := c], inFlight := st.inFlight[x := [e, f]]);
    Enqueued(Enqueued(written.(inFlight := st.inFlight[x := []]), x, f), x, e)
  }

  lemma CrossedIsReached(st: State, x: nat, e: Event, f: Event)
    requires x in st.data && st.data[x].MapContainer? && x in st.subscribers && InFlight(st, x) == []
    requires !e.code.SnapshotEnd? && !f.code.SnapshotEnd?
    ensures var a := Do(st, Write(x, e));
      && Enabled(a, Write(x, f))
      && var b := Do(a, Write(x, f));
      && Enabled(b, Publish(x, 1))
      && var c := Do(b, Publish(x, 1));
      && Enabled(c, Publish(x, 0)) && Do(c, Publish(x, 0)) == Crossed(st, x, e, f)
  {
    var a := Do(st, Write(x, e));
    assert InFlight(a, x) == [e];
    var b := Do(a, Write(x, f));
    assert InFlight(b, x) == [e, f];
    var c := Do(b, Publish(x, 1));
    assert InFlight(c, x) == [e];
    assert RemovedAt([e], 0) == [];
  }

  lemma CrossedAhead(st: State, x: nat, e: Event, f: Event)
    requires x in st.data && st.data[x].MapContainer? && x in st.subscribers && Ahead(st, x) == []
    requires !e.code.SnapshotEnd? && !f.code.SnapshotEnd?
    ensures Ahead(Crossed(st, x, e, f), x) == [f, e]
  {
    assert |Ahead(st, x)| == |EventsOf(st.local + st.queue, x)| + |InFlight(st, x)|;
    var written := st.(data := Crossed(st, x, e, f).data, inFlight := st.inFlight[x := []]);
    AheadEnqueued(written, x, f, x);
    AheadEnqueued(Enqueued(written, x, f), x, e, x);
  }

  /**
    A subscriber that was up to date is brought to the map if and only if the two changes decide no common key,
    or leave the same under it: two sets of one key must set the same, two deletes or two clears always agree, and a set
    against a delete of its key or a clear never does.
    */
  lemma TwoWritersConvergeIff(st: State, i: nat, e: Event, f: Event)
    requires Inv(st) && i < |st.subs| && Following(st, i) && st.data[st.subs[i].storage].MapContainer?
    requires Owed(st, i) == [] && !e.code.SnapshotEnd? && !f.code.SnapshotEnd?
    ensures var x := st.subs[i].storage;
      && x in st.subscribers && InFlight(st, x) == []
      && (Brought(Crossed(st, x, e, f), i) <==> (Meet(e, f) ==> Leaves(e) == Leaves(f)))
  {
    hide ApplyMap;
    var x := st.subs[i].storage;
    assert SubOk(st, i) && i in SubscribersOf(st, x);
    var st', c := Crossed(st, x, e, f), st.data[x];
    CrossedAhead(st, x, e, f);
    assert Owed(st', i) == [f, e];
    FoldTwo(c, f, e);
    OrderIsFreeIff(c.records, e, f);
  }

  lemma FoldTwo(c: Container, e: Event, f: Event)
    ensures Fold(c, [e, f]) == Apply(Apply(c, e), f)
  {
    assert [e, f] == [e] + [f];
    FoldCons(c, e, [f]);
    FoldSnoc(Apply(c, e), [], f);
    assert [] + [f] == [f];
  }

  // ----- A list that is duplicated -----

  lemma RunSnoc(st: State, steps: seq<Step>, step: Step)
    requires Run(st, steps).Some? && Enabled(Run(st, steps).value, step) && SingleWriter(Run(st, steps).value, step)
    ensures Run(st, steps + [step]) == Some(Do(Run(st, steps).value, step))
  {
    assert (steps + [step])[..|steps|] == steps;
  }

  /** An element pushed between the subscription and the handling of its marker. */
  function LatePush(e: Event): seq<Step> {
    [Connect(1)] + [Subscribe(0, 1, "0")] + [WriteList(0, e)] + [Swap] + [Take]
  }

  /** Storage 0 is an empty list, and session 1 has just subscribed to it from the start. */
  function JustSubscribed(): State {
    var marker := Item(0, END_OF_SNAPSHOT);
    State(map[0 := ListContainer([])], map[], [marker], [], Idle,
          map[0 := [0]], [Subscription(0, 1, "0", true, [], [], 0, false)], {1}, [marker], 0)
  }

  lemma SubscribeFirst()
    ensures Run(Initial(map[0 := ListContainer([])]), [Connect(1)] + [Subscribe(0, 1, "0")]) == Some(JustSubscribed())
  {
    var s0 := Initial(map[0 := ListContainer([])]);
    assert Run(s0, []) == Some(s0);
    RunSnoc(s0, [], Connect(1));
    assert [] + [Connect(1)] == [Connect(1)];
    RunSnoc(s0, [Connect(1)], Subscribe(0, 1, "0"));
    var s2, expected := Do(Do(s0, Connect(1)), Subscribe(0, 1, "0")), JustSubscribed();
    assert s2.alive == expected.alive && s2.subs == expected.subs;
    assert SubscribersOf(s0, 0) + [0] == [0];
    assert s2.subscribers == expected.subscribers;
    assert s2.queue == expected.queue;
  }

  /** The publisher has taken the marker, and the event that was pushed is behind it. */
  function MarkerTaken(e: Event): State {
    var marker := Item(0, END_OF_SNAPSHOT);
    JustSubscribed().(data := map[0 := Apply(ListContainer([]), e)], queue := [], local := [Item(0, e)],
                      handling := Visiting(marker, [0]), log := [marker, Item(0, e)], taken := 1)
  }

  lemma PushAndTake(e: Event)
    requires e.code.PushBack?
    ensures var s2 := JustSubscribed();
      && Enabled(s2, WriteList(0, e)) && Enabled(Do(s2, WriteList(0, e)), Swap)
      && Enabled(Do(Do(s2, WriteList(0, e)), Swap), Take)
      && Do(Do(Do(s2, WriteList(0, e)), Swap), Take) == MarkerTaken(e)
  {
    hide Apply;
    var s3 := Do(JustSubscribed(), WriteList(0, e));
    assert s3.queue == [Item(0, END_OF_SNAPSHOT), Item(0, e)];
    assert s3.data == MarkerTaken(e).data && s3.log == MarkerTaken(e).log;
    assert s3.queue[1..] == [Item(0, e)];
  }

  lemma LatePushIs(e: Event)
    requires e.code.PushBack?
    ensures Run(Initial(map[0 := ListContainer([])]), LatePush(e)) == Some(MarkerTaken(e))
    ensures Ahead(MarkerTaken(e), 0) == [e]
  {
    hide Do, EventsOf;
    var s0 := Initial(map[0 := ListContainer([])]);
    SubscribeFirst();
    PushAndTake(e);
    RunSnoc(s0, [Connect(1)] + [Subscribe(0, 1, "0")], WriteList(0, e));
    RunSnoc(s0, [Connect(1)] + [Subscribe(0, 1, "0")] + [WriteList(0, e)], Swap);
    RunSnoc(s0, [Connect(1)] + [Subscribe(0, 1, "0")] + [WriteList(0, e)] + [Swap], Take);
    assert [Item(0, e)] + [] == [Item(0, e)];
    EventsOfOne(Item(0, e), 0);
  }

  /** Lists do not converge in every run: here the subscriber would end with the element twice. */
  lemma ListsCanDiverge(e: Event)
    requires e.code.PushBack?
    ensures var data := map[0 := ListContainer([])];
      && Run(Initial(data), LatePush(e)).Some?
      && var st := Run(Initial(data), LatePush(e)).value;
      && Enabled(st, Visit)
      && var st' := Do(st, Visit);
      && |st'.subs| > 0 && Following(st', 0) && st'.subs[0].storage in st'.data && !Brought(st', 0)
  {
    LatePushIs(e);
    RunsKeepInv(map[0 := ListContainer([])], LatePush(e));
    assert Digits("0") == Some(0);
    PushesLengthen(|MarkerTaken(e).data[0].items|, [e]);
    ListConvergesIffNothingAhead(MarkerTaken(e), 0);
  }
}
