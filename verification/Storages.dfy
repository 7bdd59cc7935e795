/** The in-memory storages, as they update their fields; `published` is what they have handed to the event sink. */
module Storages {
  import opened Sequences
  import opened Containers

  const NO_DATA := Null

  /** A row of a result set. */
  datatype Row = Row(key: Data, value: Data, metadata: Data)

  class ListStorage {
    var data: seq<Record>
    var revNum: nat
    ghost var published: seq<Event>

    /** Folding the published events from the empty list gives the list, and every change was counted and published. */
    ghost predicate Valid()
      reads this
    {
      && ListContainer(data) == Fold(ListContainer([]), published)
      && revNum == |published|
    }

    constructor ()
      ensures Valid() && data == [] && published == []
    {
      data, revNum, published := [], 0, [];
    }

    method UpdateRevNumAndPublish(event: Event, ghost before: seq<Record>)
      requires ListContainer(before) == Fold(ListContainer([]), published) && revNum == |published|
      requires data == ApplyList(before, event)
      modifies this`revNum, this`published
      ensures Valid() && published == old(published) + [event]
    {
      revNum := revNum + 1;
      published := published + [event];
      FoldSnoc(ListContainer([]), old(published), event);
    }

    method PushBack(value: Data, metadata: Data) returns (r: Result<()>)
      requires Valid()
      modifies this
      ensures Valid() && (r.Ok? <==> !value.Null?)
      ensures r.Ok? ==>
        && data == old(data) + [Record(value, metadata)]
        && published == old(published) + [Event(EventCode.PushBack, Int(|old(data)|), value, metadata)]
      ensures r.Err? ==> data == old(data) && published == old(published)
    {
      if value.Null? {
        return Err("value??");
      }
      data := data + [Record(value, metadata)];
      UpdateRevNumAndPublish(Event(EventCode.PushBack, Int(|data| - 1), value, metadata), old(data));
      return Ok(());
    }

    method PushFront(value: Data, metadata: Data) returns (r: Result<()>)
      requires Valid()
      modifies this
      ensures Valid() && (r.Ok? <==> !value.Null?)
      ensures r.Ok? ==>
        && data == [Record(value, metadata)] + old(data)
        && published == old(published) + [Event(EventCode.PushFront, Int(0), value, metadata)]
      ensures r.Err? ==> data == old(data) && published == old(published)
    {
      if value.Null? {
        return Err("value??");
      }
      data := [Record(value, metadata)] + data;
      UpdateRevNumAndPublish(Event(EventCode.PushFront, Int(0), value, metadata), old(data));
      return Ok(());
    }

    method PopBack() returns (r: Result<Row>)
      requires Valid()
      modifies this
      ensures Valid() && (r.Ok? <==> old(data) != [])
      ensures r.Ok? ==>
        && old(data) == data + [Record(r.value.value, r.value.metadata)] && r.value.key == Int(|data|)
        && published == old(published) + [Event(EventCode.Delete, Int(|data|), NO_DATA, NO_DATA)]
      ensures r.Err? ==> data == old(data) && published == old(published)
    {
      if data == [] {
        return Err("empty");
      }
      var last := data[|data| - 1];
      data := data[..|data| - 1];
      var index := |data|;
      assert data == RemovedAt(old(data), index);
      UpdateRevNumAndPublish(Event(EventCode.Delete, Int(index), NO_DATA, NO_DATA), old(data));
      return Ok(Row(Int(index), last.value, last.metadata));
    }

    method PopFront() returns (r: Result<Row>)
      requires Valid()
      modifies this
      ensures Valid() && (r.Ok? <==> old(data) != [])
      ensures r.Ok? ==>
        && old(data) == [Record(r.value.value, r.value.metadata)] + data && r.value.key == Int(0)
        && published == old(published) + [Event(EventCode.Delete, Int(0), NO_DATA, NO_DATA)]
      ensures r.Err? ==> data == old(data) && published == old(published)
    {
      if data == [] {
        return Err("empty");
      }
      var first := data[0];
      data := data[1..];
      assert data == RemovedAt(old(data), 0);
      UpdateRevNumAndPublish(Event(EventCode.Delete, Int(0), NO_DATA, NO_DATA), old(data));
      return Ok(Row(Int(0), first.value, first.metadata));
    }

    /**
      The position of an index: walked to from the front when in the first half, from the end otherwise.
      Either way it is the normalised index, except that an empty list only has its end.
      */
    method GetOffset(key: Data) returns (r: Result<nat>)
      ensures r.Ok? <==> key.Int? && NormalizeIndex(key.number, |data|).Ok?
      ensures r.Ok? ==> r.value == (if data == [] then 0 else NormalizeIndex(key.number, |data|).value)
      ensures r.Ok? ==> (r.value == |data| <==> data == []) && r.value <= |data|
    {
      if !key.Int? {
        return Err("invalid data type");
      }
      var index := NormalizeIndex(key.number, |data|);
      if index.Err? {
        return Err("out of bounds");
      }
      var i: nat;
      if data == [] {
        i := |data|;
      } else if index.value <= |data| / 2 {
        i := 0;
        var x := 0;
        while x < index.value
          invariant i == x <= index.value
        {
          x, i := x + 1, i + 1;
        }
      } else {
        i := |data|;
        var walk := |data| - index.value;
        var x := 0;
        while x < walk
          invariant 0 <= x <= walk && i == |data| - x
        {
          x, i := x + 1, i - 1;
        }
      }
      return Ok(i);
    }

    method Set(key: Data, value: Data, metadata: Data) returns (r: Result<()>)
      requires Valid() && data != []
      modifies this
      ensures Valid() && (r.Ok? <==> key.Int? && NormalizeIndex(key.number, |old(data)|).Ok?)
      ensures r.Ok? ==> var k := NormalizeIndex(key.number, |old(data)|).value;
        && data == old(data)[k := Kept(old(data)[k], value, metadata)]
        && published == old(published) + [Event(EventCode.Set, key, value, metadata)]
      ensures r.Err? ==> data == old(data) && published == old(published)
    {
      var i := GetOffset(key);
      if i.Err? {
        return Err(i.error);
      }
      var item := data[i.value];
      data := data[i.value := Kept(item, value, metadata)];
      UpdateRevNumAndPublish(Event(EventCode.Set, key, value, metadata), old(data));
      return Ok(());
    }

    method Insert(key: Data, value: Data, metadata: Data) returns (r: Result<()>)
      requires Valid()
      modifies this
      ensures Valid() && (r.Ok? <==> key.Int? && InsertPosition(key.number, |old(data)|).Ok?)
      ensures r.Ok? ==>
        && data == InsertedAt(old(data), InsertPosition(key.number, |old(data)|).value, Record(value, metadata))
        && published == old(published) + [Event(EventCode.Insert, key, value, metadata)]
      ensures r.Err? ==> data == old(data) && published == old(published)
    {
      if !key.Int? {
        return Err("invalid data type");
      }
      var record := Record(value, metadata);
      if key.number == 0 {
        data := [record] + data;
        assert data == InsertedAt(old(data), 0, record);
      } else if key.number == |data| {
        data := data + [record];
        assert data == InsertedAt(old(data), |old(data)|, record);
      } else {
        var i := GetOffset(key);
        if i.Err? {
          return Err(i.error);
        }
        data := data[..i.value] + [record] + data[i.value..];
      }
      UpdateRevNumAndPublish(Event(EventCode.Insert, key, value, metadata), old(data));
      return Ok(());
    }

    method Delete(key: Data, value: Data, metadata: Data) returns (r: Result<()>)
      requires Valid()
      modifies this
      ensures Valid() && (r.Ok? <==> key.Int? && old(data) != [] && NormalizeIndex(key.number, |old(data)|).Ok?)
      ensures r.Ok? ==> var k := NormalizeIndex(key.number, |old(data)|).value;
        && data == RemovedAt(old(data), k)
        && published == old(published) + [Event(EventCode.Delete, Int(k), value, metadata)]
      ensures r.Err? ==> data == old(data) && published == old(published)
    {
      var i := GetOffset(key);
      if i.Err? {
        return Err(i.error);
      }
      if i.value == |data| {
        return Err("invalid index");
      }
      data := data[..i.value] + data[i.value + 1..];
      UpdateRevNumAndPublish(Event(EventCode.Delete, Int(i.value), value, metadata), old(data));
      return Ok(());
    }

    method Clear()
      requires Valid()
      modifies this
      ensures Valid() && data == [] && published == old(published) + [Event(EventCode.Clear, NO_DATA, NO_DATA, NO_DATA)]
    {
      data := [];
      UpdateRevNumAndPublish(Event(EventCode.Clear, NO_DATA, NO_DATA, NO_DATA), old(data));
    }

    /** The records from `start` up to `end`, with their indexes; limits outside the list are brought to its bounds. */
    method Query(start: int, end: int) returns (rows: seq<Row>)
      ensures var (lo, hi) := NormalizeQueryLimits(start, end, |data|);
        && |rows| == hi - lo
        && forall i :: 0 <= i < |rows| ==> rows[i] == Row(Int(lo + i), data[lo + i].value, data[lo + i].metadata)
      ensures end == 0 ==> AsEvents(EventCode.PushBack, rows) == QueryEvents(ListContainer(data), start)
    {
      rows := [];
      if |data| == 0 {
        return;
      }
      var (lo, hi) := NormalizeQueryLimits(start, end, |data|);
      var begin := lo;
      while begin != hi
        invariant lo <= begin <= hi && |rows| == begin - lo
        invariant forall i :: 0 <= i < |rows| ==> rows[i] == Row(Int(lo + i), data[lo + i].value, data[lo + i].metadata)
        decreases hi - begin
      {
        rows := rows + [Row(Int(begin), data[begin].value, data[begin].metadata)];
        begin := begin + 1;
      }
    }
  }

  class MapStorage {
    var data: map<string, Record>
    var revNum: nat
    ghost var published: seq<Event>

    ghost predicate Valid()
      reads this
    {
      && MapContainer(data) == Fold(MapContainer(map[]), published)
      && Proper(MapContainer(data)) && revNum == |published|
    }

    constructor ()
      ensures Valid() && data == map[] && published == []
    {
      data, revNum, published := map[], 0, [];
    }

    method UpdateRevNumAndPublish(event: Event, ghost before: map<string, Record>)
      requires MapContainer(before) == Fold(MapContainer(map[]), published) && revNum == |published|
      requires Proper(MapContainer(before)) && data == ApplyMap(before, event)
      modifies this`revNum, this`published
      ensures Valid() && published == old(published) + [event]
    {
      revNum := revNum + 1;
      published := published + [event];
      FoldSnoc(MapContainer(map[]), old(published), event);
      ApplyKeepsProper(MapContainer(before), event);
    }

    method Set(key: Data, value: Data, metadata: Data) returns (r: Result<()>)
      requires Valid()
      modifies this
      ensures Valid() && (r.Ok? <==> key.Text?)
      ensures r.Ok? ==>
        && data == old(data)[Sz(key.text) := Record(value, metadata)]
        && published == old(published) + [Event(EventCode.Set, key, value, metadata)]
      ensures r.Err? ==> data == old(data) && published == old(published)
    {
      if !key.Text? {
        return Err("invalid key");
      }
      data := data[Sz(key.text) := Record(value, metadata)];
      UpdateRevNumAndPublish(Event(EventCode.Set, key, value, metadata), old(data));
      return Ok(());
    }

    /** A key that is there is refused; a new one is published as a set. */
    method Insert(key: Data, value: Data, metadata: Data) returns (r: Result<()>)
      requires Valid()
      modifies this
      ensures Valid() && (r.Ok? <==> key.Text? && Sz(key.text) !in old(data))
      ensures r.Ok? ==>
        && data == old(data)[Sz(key.text) := Record(value, metadata)]
        && published == old(published) + [Event(EventCode.Set, key, value, metadata)]
      ensures r.Err? ==> data == old(data) && published == old(published)
    {
      if !key.Text? {
        return Err("invalid key");
      }
      if Sz(key.text) in data {
        return Err("already exits");
      }
      data := data[Sz(key.text) := Record(value, metadata)];
      UpdateRevNumAndPublish(Event(EventCode.Set, key, value, metadata), old(data));
      return Ok(());
    }

    method Delete(key: Data, value: Data, metadata: Data) returns (r: Result<()>)
      requires Valid()
      modifies this
      ensures Valid() && (r.Ok? <==> key.Text? && Sz(key.text) in old(data))
      ensures r.Ok? ==>
        && data == old(data) - {Sz(key.text)}
        && published == old(published) + [Event(EventCode.Delete, key, value, metadata)]
      ensures r.Err? ==> data == old(data) && published == old(published)
    {
      if !key.Text? {
        return Err("invalid key");
      }
      if Sz(key.text) !in data {
        return Err("key not found");
      }
      data := data - {Sz(key.text)};
      UpdateRevNumAndPublish(Event(EventCode.Delete, key, value, metadata), old(data));
      return Ok(());
    }

    method Clear()
      requires Valid()
      modifies this
      ensures Valid() && data == map[] && published == old(published) + [Event(EventCode.Clear, NO_DATA, NO_DATA, NO_DATA)]
    {
      data := map[];
      UpdateRevNumAndPublish(Event(EventCode.Clear, NO_DATA, NO_DATA, NO_DATA), old(data));
    }

    /** The records of the keys from `start` up to `end` in key order. */
    method Query(start: int, end: int) returns (rows: seq<Row>)
      ensures var keys := InOrder(data.Keys);
        var (lo, hi) := NormalizeQueryLimits(start, end, |keys|);
        rows == RowsOf(data, keys[lo..hi])
      ensures end == 0 ==> AsEvents(EventCode.Set, rows) == QueryEvents(MapContainer(data), start)
    {
      hide InOrder, AsEvents, RowsOf;
      var keys := InOrder(data.Keys);
      rows := QueryKeys(keys, start, end);
      if end == 0 {
        RowsAreEvents(data, keys[NormalizeForQueries(start, |keys|)..]);
      }
    }

    method QueryKeys(keys: seq<string>, start: int, end: int) returns (rows: seq<Row>)
      requires forall k :: k in keys ==> k in data
      ensures var (lo, hi) := NormalizeQueryLimits(start, end, |keys|);
        rows == RowsOf(data, keys[lo..hi])
    {
      var lo, hi := 0, |keys|;
      if start != 0 || end != 0 {
        if end == 0 {
          lo := NormalizeForQueries(start, |keys|);
        } else {
          var limits := NormalizeQueryLimits(start, end, |keys|);
          lo, hi := limits.0, limits.1;
        }
      }
      rows := [];
      var i := lo;
      while i != hi
        invariant lo <= i <= hi
        invariant rows == RowsOf(data, keys[lo..i])
        decreases hi - i
      {
        assert keys[lo..i + 1] == keys[lo..i] + [keys[i]];
        rows := rows + [Row(Text(keys[i]), data[keys[i]].value, data[keys[i]].metadata)];
        i := i + 1;
      }
    }
  }

  /** The rows of some keys of a map. */
  function RowsOf(data: map<string, Record>, keys: seq<string>): (r: seq<Row>)
    requires forall i :: 0 <= i < |keys| ==> keys[i] in data
    ensures |r| == |keys| && forall i :: 0 <= i < |r| ==> r[i] == Row(Text(keys[i]), data[keys[i]].value, data[keys[i]].metadata)
  {
    seq(|keys|, i requires 0 <= i < |keys| => Row(Text(keys[i]), data[keys[i]].value, data[keys[i]].metadata))
  }

  /** Rows as a snapshot sends them. */
  function AsEvents(code: EventCode, rows: seq<Row>): (r: seq<Event>)
    ensures |r| == |rows| && forall i :: 0 <= i < |r| ==> r[i] == Event(code, rows[i].key, rows[i].value, rows[i].metadata)
  {
    seq(|rows|, i requires 0 <= i < |rows| => Event(code, rows[i].key, rows[i].value, rows[i].metadata))
  }

  lemma RowsAreEvents(data: map<string, Record>, keys: seq<string>)
    requires forall i :: 0 <= i < |keys| ==> keys[i] in data
    ensures AsEvents(EventCode.Set, RowsOf(data, keys)) == SetEvents(data, keys)
  {
  }
}
