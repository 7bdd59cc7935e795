/** Values, events and the two in-memory containers as values: what an event does to a map or to a list. */
module Containers {
  import opened Bytes
  import opened Sequences

  datatype Result<+T> = Ok(value: T) | Err(error: string)

  /** A `TioData`. */
  datatype Data = Null | Int(number: int) | Real(fraction: real) | Text(text: string)

  /** A `ValueAndMetadata`. */
  datatype Record = Record(value: Data, metadata: Data)

  datatype EventCode = Set | Insert | Delete | Clear | PushBack | PushFront | SnapshotEnd

  datatype Event = Event(code: EventCode, key: Data, value: Data, metadata: Data)

  // ----- Indexes -----

  /** `NormalizeIndex` with bounds checked: negative indexes count from the end; index 0 is never refused. */
  function NormalizeIndex(index: int, size: nat): (r: Result<nat>)
    ensures r.Ok? <==> index == 0 || 0 <= index + size < 2 * size
    ensures r.Ok? ==> r.value == (if index < 0 then index + size else index) && (size > 0 ==> r.value < size)
  {
    if index == 0 then Ok(0)
    else if index < 0 then
      if -index > size then Err("out of bounds")
      else Ok(size + index)
    else if index >= size then Err("out of bounds")
    else Ok(index)
  }

  /** `NormalizeForQueries`: an index outside the bounds is brought to the nearest bound. */
  function NormalizeForQueries(index: int, size: nat): (r: nat)
    ensures r <= size
    ensures 0 <= index + size < 2 * size ==> r < size && r == NormalizeIndex(index, size).value
  {
    if size == 0 || (index < 0 && -index > size) then 0
    else if index >= size then size
    else NormalizeIndex(index, size).value
  }

  /** `NormalizeQueryLimits`: an end of 0 stands for the size. */
  function NormalizeQueryLimits(start: int, end: int, size: nat): (r: (nat, nat))
    ensures r.0 <= r.1 <= size
  {
    var e := if end == 0 then size else NormalizeForQueries(end, size);
    var s := NormalizeForQueries(start, size);
    (if s > e then e else s, e)
  }

  /** An index counts from the end if it is negative. */
  function Position(index: int, size: nat): int {
    if index < 0 then index + size else index
  }

  /** The limits select exactly the positions from the start on and in front of the end, as far as there are any. */
  lemma QueryLimitsSelect(start: int, end: int, size: nat, k: int)
    ensures var r := NormalizeQueryLimits(start, end, size);
      r.0 <= k < r.1 <==> 0 <= k < size && Position(start, size) <= k && (end == 0 || k < Position(end, size))
  {
  }

  // ----- Maps -----

  /** The key as `AsSz` hands it over: up to the first NUL character. */
  function Sz(s: string): string {
    if s == [] || s[0] == '\0' then [] else [s[0]] + Sz(s[1..])
  }

  /** What an event does to a map. */
  function ApplyMap(m: map<string, Record>, e: Event): map<string, Record> {
    match e.code
    case Set => if e.key.Text? then m[Sz(e.key.text) := Record(e.value, e.metadata)] else m
    case Delete => if e.key.Text? then m - {Sz(e.key.text)} else m
    case Clear => map[]
    case _ => m
  }

  /** The event decides what a map holds under the key. */
  predicate Decides(e: Event, k: string) {
    e.code.Clear? || ((e.code.Set? || e.code.Delete?) && e.key.Text? && Sz(e.key.text) == k)
  }

  // ----- Lists -----

  /** `ListStorage::Insert`: index 0 and the size are the ends; anything else is normalised. */
  function InsertPosition(index: int, size: nat): (r: Result<nat>)
    ensures r.Ok? ==> r.value <= size
    ensures r.Ok? <==> 0 <= index + size <= 2 * size
  {
    if index == 0 then Ok(0)
    else if index == size then Ok(size)
    else NormalizeIndex(index, size)
  }

  function InsertedAt<T>(l: seq<T>, k: nat, x: T): (r: seq<T>)
    requires k <= |l|
    ensures |r| == |l| + 1
  {
    l[..k] + [x] + l[k..]
  }

  /** A null value or metadata keeps the previous one. */
  function Kept(old_: Record, value: Data, metadata: Data): Record {
    Record(if value.Null? then old_.value else value, if metadata.Null? then old_.metadata else metadata)
  }

  /** What an event does to a list; an event that does not fit the list does nothing. */
  function ApplyList(l: seq<Record>, e: Event): seq<Record> {
    match e.code
    case PushBack => l + [Record(e.value, e.metadata)]
    case PushFront => [Record(e.value, e.metadata)] + l
    case Clear => []
    case Set =>
      if e.key.Int? && l != [] && NormalizeIndex(e.key.number, |l|).Ok? then
        var k := NormalizeIndex(e.key.number, |l|).value;
        l[k := Kept(l[k], e.value, e.metadata)]
      else l
    case Insert =>
      if e.key.Int? && InsertPosition(e.key.number, |l|).Ok? then
        InsertedAt(l, InsertPosition(e.key.number, |l|).value, Record(e.value, e.metadata))
      else l
    case Delete =>
      if e.key.Int? && l != [] && NormalizeIndex(e.key.number, |l|).Ok? then
        RemovedAt(l, NormalizeIndex(e.key.number, |l|).value)
      else l
    case SnapshotEnd => l
  }

  // ----- Containers -----

  datatype Container = MapContainer(records: map<string, Record>) | ListContainer(items: seq<Record>)

  function Apply(c: Container, e: Event): (r: Container)
    ensures r.MapContainer? <==> c.MapContainer?
  {
    match c
    case MapContainer(m) => MapContainer(ApplyMap(m, e))
    case ListContainer(l) => ListContainer(ApplyList(l, e))
  }

  /** What a run of events does to a container. */
  function Fold(c: Container, events: seq<Event>): (r: Container)
    ensures r.MapContainer? <==> c.MapContainer?
  {
    if events == [] then c else Apply(Fold(c, events[..|events| - 1]), events[|events| - 1])
  }

  lemma {:induction false} FoldAppend(c: Container, a: seq<Event>, b: seq<Event>)
    ensures Fold(c, a + b) == Fold(Fold(c, a), b)
  {
    if b == [] {
      assert a + b == a;
    } else {
      assert (a + b)[..|a + b| - 1] == a + b[..|b| - 1];
      FoldAppend(c, a, b[..|b| - 1]);
    }
  }

  lemma FoldSnoc(c: Container, a: seq<Event>, e: Event)
    ensures Fold(c, a + [e]) == Apply(Fold(c, a), e)
  {
    assert (a + [e])[..|a|] == a;
  }

  lemma FoldCons(c: Container, e: Event, a: seq<Event>)
    ensures Fold(c, [e] + a) == Fold(Apply(c, e), a)
  {
    FoldAppend(c, [e], a);
    assert [e][..0] == [];
  }

  // ----- Replaying a suffix -----

  /** Two maps agree on a key, both in having it and in what they hold under it. */
  ghost predicate AgreeOn(a: map<string, Record>, b: map<string, Record>, k: string) {
    (k in a <==> k in b) && (k in a ==> a[k] == b[k])
  }

  /** A run of events leaves two maps in agreement on a key it decides, and as they were on any other key. */
  lemma {:induction false} KeyAfter(a: Container, b: Container, events: seq<Event>, k: string)
    requires a.MapContainer? && b.MapContainer?
    ensures (exists i :: 0 <= i < |events| && Decides(events[i], k)) ==> AgreeOn(Fold(a, events).records, Fold(b, events).records, k)
    ensures !(exists i :: 0 <= i < |events| && Decides(events[i], k)) ==> AgreeOn(Fold(a, events).records, a.records, k)
  {
    if events != [] {
      var n := |events| - 1;
      var init := events[..n];
      KeyAfter(a, b, init, k);
      if Decides(events[n], k) {
      } else if i :| 0 <= i < |events| && Decides(events[i], k) {
        assert Decides(init[i], k);
      } else {
        assert forall i :: 0 <= i < |init| ==> init[i] == events[i];
      }
    }
  }

  /** Replaying the events that produced a map, on that map, changes nothing. */
  lemma ReplayIsIdempotent(base: Container, events: seq<Event>)
    requires base.MapContainer?
    ensures Fold(Fold(base, events), events) == Fold(base, events)
  {
    var c := Fold(base, events);
    var d := Fold(c, events);
    forall k ensures AgreeOn(d.records, c.records, k) {
      KeyAfter(c, base, events, k);
    }
    SameMap(d.records, c.records);
  }

  lemma SameMap(a: map<string, Record>, b: map<string, Record>)
    requires forall k :: AgreeOn(a, b, k)
    ensures a == b
  {
    forall k ensures k in a <==> k in b {
      assert AgreeOn(a, b, k);
    }
    forall k | k in a ensures a[k] == b[k] {
      assert AgreeOn(a, b, k);
    }
  }

  // ----- Two changes in either order -----

  /** A set or a delete of a key, as a map takes it. */
  predicate Keyed(e: Event) {
    (e.code.Set? || e.code.Delete?) && e.key.Text?
  }

  /** Both decide one key: the same one, or any when one of them clears the map. */
  predicate Meet(e: Event, f: Event) {
    || (e.code.Clear? && Keyed(f))
    || (Keyed(e) && f.code.Clear?)
    || (Keyed(e) && Keyed(f) && Sz(e.key.text) == Sz(f.key.text))
  }

  /** What an event leaves under a key it decides. */
  function Leaves(e: Event): Option<Record> {
    if e.code.Set? then Some(Record(e.value, e.metadata)) else None
  }

  /** What a map holds under a key after an event. */
  function HeldAfter(m: map<string, Record>, e: Event, k: string): Option<Record> {
    if Decides(e, k) then Leaves(e) else if k in m then Some(m[k]) else None
  }

  lemma HeldIs(m: map<string, Record>, e: Event, k: string)
    ensures HeldAfter(m, e, k) == if k in ApplyMap(m, e) then Some(ApplyMap(m, e)[k]) else None
  {
  }

  lemma HeldTwice(m: map<string, Record>, e: Event, f: Event, k: string)
    ensures var r := ApplyMap(ApplyMap(m, e), f);
      (if k in r then Some(r[k]) else None) == if Decides(f, k) then Leaves(f) else HeldAfter(m, e, k)
  {
    HeldIs(m, e, k);
    HeldIs(ApplyMap(m, e), f, k);
  }

  /** On every map two changes come to the same in either order if and only if they decide no common key or leave the same under it. */
  lemma OrderIsFreeIff(m: map<string, Record>, e: Event, f: Event)
    ensures ApplyMap(ApplyMap(m, e), f) == ApplyMap(ApplyMap(m, f), e) <==> (Meet(e, f) ==> Leaves(e) == Leaves(f))
  {
    hide ApplyMap;
    var a, b := ApplyMap(ApplyMap(m, e), f), ApplyMap(ApplyMap(m, f), e);
    if Meet(e, f) ==> Leaves(e) == Leaves(f) {
      forall k ensures AgreeOn(a, b, k) {
        HeldTwice(m, e, f, k);
        HeldTwice(m, f, e, k);
      }
      SameMap(a, b);
    } else {
      var k := Sz(if Keyed(e) then e.key.text else f.key.text);
      HeldTwice(m, e, f, k);
      HeldTwice(m, f, e, k);
    }
  }

  // ----- Snapshots -----

  predicate Before(a: string, b: string) {
    if a == [] then b != []
    else b != [] && (a[0] < b[0] || (a[0] == b[0] && Before(a[1..], b[1..])))
  }

  lemma {:induction false} BeforeIsTotal(a: string, b: string)
    ensures Before(a, b) || a == b || Before(b, a)
  {
    if a != [] && b != [] && a[0] == b[0] {
      BeforeIsTotal(a[1..], b[1..]);
      assert a == [a[0]] + a[1..] && b == [b[0]] + b[1..];
    }
  }

  lemma {:induction false} BeforeIsStrict(a: string, b: string, c: string)
    requires Before(a, b) && Before(b, c)
    ensures Before(a, c)
  {
    if a != [] && a[0] == b[0] && b[0] == c[0] {
      BeforeIsStrict(a[1..], b[1..], c[1..]);
    }
  }

  lemma {:induction false} NotBeforeItself(a: string)
    ensures !Before(a, a)
  {
    if a != [] {
      NotBeforeItself(a[1..]);
    }
  }

  predicate IsFirst(k: string, keys: set<string>) {
    k in keys && forall x :: x in keys ==> x == k || Before(k, x)
  }

  lemma {:induction false} FirstExists(keys: set<string>)
    requires keys != {}
    ensures exists k :: IsFirst(k, keys)
  {
    var x :| x in keys;
    var rest := keys - {x};
    if rest == {} {
      assert keys == {x};
      assert IsFirst(x, keys);
    } else {
      FirstExists(rest);
      var k :| IsFirst(k, rest);
      BeforeIsTotal(x, k);
      if Before(x, k) {
        forall y | y in keys ensures y == x || Before(x, y) {
          if y != x && y != k {
            assert y in rest;
            BeforeIsStrict(x, k, y);
          }
        }
        assert IsFirst(x, keys);
      } else {
        assert IsFirst(k, keys);
      }
    }
  }

  lemma FirstIsUnique(a: string, b: string, keys: set<string>)
    requires IsFirst(a, keys) && IsFirst(b, keys)
    ensures a == b
  {
    if a != b {
      BeforeIsStrict(a, b, a);
      NotBeforeItself(a);
    }
  }

  function First(keys: set<string>): (k: string)
    requires keys != {}
    ensures IsFirst(k, keys)
  {
    FirstExists(keys);
    assert forall a, b :: IsFirst(a, keys) && IsFirst(b, keys) ==> a == b by {
      forall a, b | IsFirst(a, keys) && IsFirst(b, keys) ensures a == b {
        FirstIsUnique(a, b, keys);
      }
    }
    var k :| IsFirst(k, keys);
    k
  }

  /** The keys in the order `std::map` walks them. */
  function InOrder(keys: set<string>): (r: seq<string>)
    ensures forall k :: k in r <==> k in keys
    ensures |r| == |keys|
    ensures forall i, j :: 0 <= i < j < |r| ==> Before(r[i], r[j])
  {
    if keys == {} then []
    else
      var k := First(keys);
      [k] + InOrder(keys - {k})
  }

  /** The event by which a snapshot hands over one key of a map. */
  function SetEvent(m: map<string, Record>, k: string): Event
    requires k in m
  {
    Event(Set, Text(k), m[k].value, m[k].metadata)
  }

  function SetEvents(m: map<string, Record>, keys: seq<string>): (r: seq<Event>)
    requires forall i :: 0 <= i < |keys| ==> keys[i] in m
    ensures |r| == |keys| && forall i :: 0 <= i < |r| ==> r[i] == SetEvent(m, keys[i])
  {
    seq(|keys|, i requires 0 <= i < |keys| => SetEvent(m, keys[i]))
  }

  /** The events by which a snapshot hands over the records of a list from an index on. */
  function PushEvents(l: seq<Record>, from: nat): (r: seq<Event>)
    requires from <= |l|
    ensures |r| == |l| - from
    ensures forall i :: 0 <= i < |r| ==> r[i] == Event(PushBack, Int(from + i), l[from + i].value, l[from + i].metadata)
  {
    seq(|l| - from, i requires 0 <= i < |l| - from => Event(PushBack, Int(from + i), l[from + i].value, l[from + i].metadata))
  }

  /** What `Query(start, 0)` returns, as the events a snapshot sends. */
  function QueryEvents(c: Container, start: int): (r: seq<Event>)
    ensures forall i :: 0 <= i < |r| ==> !r[i].code.SnapshotEnd?
  {
    match c
    case MapContainer(m) =>
      var keys := InOrder(m.Keys);
      SetEvents(m, keys[NormalizeForQueries(start, |keys|)..])
    case ListContainer(l) =>
      PushEvents(l, NormalizeForQueries(start, |l|))
  }

  const END_OF_SNAPSHOT := Event(SnapshotEnd, Null, Null, Null)

  /** A snapshot as it is sent: the records, then the end mark. */
  function Snapshot(c: Container, start: int): seq<Event> {
    QueryEvents(c, start) + [END_OF_SNAPSHOT]
  }

  function Empty(c: Container): Container {
    if c.MapContainer? then MapContainer(map[]) else ListContainer([])
  }

  /** The keys of a map are as `AsSz` leaves them. */
  ghost predicate Proper(c: Container) {
    c.MapContainer? ==> forall k :: k in c.records ==> Sz(k) == k
  }

  lemma {:induction false} SzTwice(s: string)
    ensures Sz(Sz(s)) == Sz(s)
  {
    if s != [] && s[0] != '\0' {
      SzTwice(s[1..]);
      assert Sz(s)[1..] == Sz(s[1..]);
    }
  }

  lemma ApplyKeepsProper(c: Container, e: Event)
    requires Proper(c)
    ensures Proper(Apply(c, e))
  {
    if e.key.Text? {
      SzTwice(e.key.text);
    }
  }

  /** The part of a map under some of its keys. */
  ghost function Part(m: map<string, Record>, keys: seq<string>): map<string, Record> {
    map k | k in m && k in keys :: m[k]
  }

  lemma PartSnoc(m: map<string, Record>, keys: seq<string>, k: string)
    requires k in m
    ensures Part(m, keys + [k]) == Part(m, keys)[k := m[k]]
  {
  }

  lemma {:induction false} SetsRestore(m: map<string, Record>, keys: seq<string>, events: seq<Event>)
    requires |events| == |keys|
    requires forall i :: 0 <= i < |keys| ==> keys[i] in m && Sz(keys[i]) == keys[i] && events[i] == SetEvent(m, keys[i])
    ensures Fold(MapContainer(map[]), events) == MapContainer(Part(m, keys))
  {
    if keys != [] {
      var n := |keys| - 1;
      SetsRestore(m, keys[..n], events[..n]);
      assert events == events[..n] + [events[n]];
      FoldSnoc(MapContainer(map[]), events[..n], events[n]);
      assert keys == keys[..n] + [keys[n]];
      PartSnoc(m, keys[..n], keys[n]);
    }
  }

  lemma {:induction false} PushesRestore(l: seq<Record>, events: seq<Event>)
    requires |events| == |l|
    requires forall i :: 0 <= i < |l| ==> events[i].code == PushBack && Record(events[i].value, events[i].metadata) == l[i]
    ensures Fold(ListContainer([]), events) == ListContainer(l)
  {
    if l != [] {
      var n := |l| - 1;
      PushesRestore(l[..n], events[..n]);
      assert events == events[..n] + [events[n]];
      FoldSnoc(ListContainer([]), events[..n], events[n]);
      assert l == l[..n] + [l[n]];
    }
  }

  lemma AllKeysRestore(m: map<string, Record>, keys: seq<string>)
    requires Proper(MapContainer(m)) && (forall k :: k in keys <==> k in m)
    ensures Fold(MapContainer(map[]), SetEvents(m, keys)) == MapContainer(m)
  {
    SetsRestore(m, keys, SetEvents(m, keys));
    assert Part(m, keys) == m;
  }

  lemma MapQueryRestores(m: map<string, Record>)
    requires Proper(MapContainer(m))
    ensures Fold(MapContainer(map[]), QueryEvents(MapContainer(m), 0)) == MapContainer(m)
  {
    var keys := InOrder(m.Keys);
    AllKeysRestore(m, keys);
    assert keys[0..] == keys;
  }

  lemma ListQueryRestores(l: seq<Record>)
    ensures Fold(ListContainer([]), QueryEvents(ListContainer(l), 0)) == ListContainer(l)
  {
    PushesRestore(l, QueryEvents(ListContainer(l), 0));
  }

  /** A subscriber that starts empty and applies a whole snapshot holds the container. */
  lemma SnapshotRestores(c: Container)
    requires Proper(c)
    ensures Fold(Empty(c), Snapshot(c, 0)) == c
  {
    FoldSnoc(Empty(c), QueryEvents(c, 0), END_OF_SNAPSHOT);
    match c
    case MapContainer(m) => MapQueryRestores(m);
    case ListContainer(l) => ListQueryRestores(l);
  }
}
