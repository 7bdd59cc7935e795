/** Reloading a file that satisfies the invariant gives back the tables and the invariant. */
module LdbRecover {
  import opened Bytes
  import opened LdbFormat
  import opened LdbLoad
  import opened LdbTable
  import opened LdbStore

  // ----- Where a reload believes free space starts -----

  lemma {:induction false} LogEndBounded(log: seq<LogRecord>, next: nat, bound: nat)
    requires next <= bound && forall i :: 0 <= i < |log| ==> RecordEnd(log[i]) <= bound
    ensures LogEnd(log, next) <= bound
  {
    if log != [] {
      var init := log[..|log| - 1];
      assert forall i :: 0 <= i < |init| ==> init[i] == log[i];
      LogEndBounded(init, next, bound);
    }
  }

  /** Reading a chain moves `next` beyond its blocks and its data, and no further than they reach. */
  lemma {:induction false} ChainEndReaches(d: bytes, chain: seq<nat>, next: nat, bound: nat)
    requires AllFit(d, chain) && BlocksOk(d, chain)
    requires next <= bound && Below(chain, bound) && LogBelow(Log(d, chain), bound)
    ensures next <= ChainEnd(d, chain, next) <= bound
    ensures Below(chain, ChainEnd(d, chain, next)) && LogBelow(Log(d, chain), ChainEnd(d, chain, next))
  {
    hide HeaderAt, RecordAt;
    if chain != [] {
      var init, last := chain[..|chain| - 1], chain[|chain| - 1];
      assert forall k :: 0 <= k < |init| ==> init[k] == chain[k];
      var before, log := Log(d, init), BlockLog(d, last);
      LogBelowSplit(before, log, bound);
      ChainEndReaches(d, init, next, bound);
      var reached := ChainEnd(d, init, next);
      LogEndBounded(log, Max(reached, last + HeaderAt(d, last).size), bound);
      LogBelowJoin(before, log, reached, ChainEnd(d, chain, next));
      forall k | 0 <= k < |chain| ensures chain[k] + BLOCK_SIZE <= ChainEnd(d, chain, next) {
        assert k == |init| || chain[k] == init[k];
      }
    }
  }

  lemma LogBelowSplit(a: seq<LogRecord>, b: seq<LogRecord>, next: nat)
    requires LogBelow(a + b, next)
    ensures LogBelow(a, next) && LogBelow(b, next)
  {
    assert forall i :: 0 <= i < |a| ==> a[i] == (a + b)[i];
    assert forall i :: 0 <= i < |b| ==> b[i] == (a + b)[|a| + i];
  }

  lemma LogBelowJoin(a: seq<LogRecord>, b: seq<LogRecord>, next: nat, next': nat)
    requires LogBelow(a, next) && next <= next'
    requires LogBelow(b, next')
    ensures LogBelow(a + b, next')
  {
  }

  lemma {:induction false} LogLastIdFits(log: seq<LogRecord>, id: nat)
    requires id < WORD_LIMIT && forall i :: 0 <= i < |log| ==> log[i].id < WORD_LIMIT
    ensures LogLastId(log, id) < WORD_LIMIT
  {
    if log != [] {
      var init := log[..|log| - 1];
      assert forall i :: 0 <= i < |init| ==> init[i] == log[i];
      LogLastIdFits(init, id);
    }
  }

  lemma {:induction false} LogFits(d: bytes, chain: seq<nat>)
    requires AllFit(d, chain)
    ensures forall i :: 0 <= i < |Log(d, chain)| ==> RecordFits(Log(d, chain)[i])
  {
    if chain != [] {
      LogFits(d, chain[..|chain| - 1]);
    }
  }

  /** Every live record is a record of the log. */
  lemma {:induction false} LiveIsLogged(log: seq<LogRecord>)
    ensures forall a :: 0 <= a < |Replay(log)| ==> Replay(log)[a] in log
  {
    if log != [] {
      LiveIsLogged(log[..|log| - 1]);
      var before, r := Replay(log[..|log| - 1]), log[|log| - 1];
      forall a | 0 <= a < |Replay(log)| ensures Replay(log)[a] in log {
        ReplayedFrom(before, r, a);
      }
    }
  }

  lemma ReplayedFrom(records: seq<LogRecord>, r: LogRecord, a: nat)
    requires a < |ReplayRecord(records, r)|
    ensures ReplayRecord(records, r)[a] == r || ReplayRecord(records, r)[a] in records
  {
  }

  // ----- Loading the tables of the metatable -----

  /** What has been loaded after the first `n` records of the metatable. */
  ghost predicate LoadedFirst(s: Store, lay: Layout, n: nat, r: Option<Loaded>)
    requires |s.tables| == |lay| && n < |s.tables|
  {
    && r.Some?
    && r.value.meta == s.tables[0]
    && |r.value.tables| == n && (forall k :: 0 <= k < n ==> r.value.tables[k] == s.tables[k + 1])
    && r.value.next <= s.next && r.value.lastId < WORD_LIMIT
    && forall i :: 0 <= i <= n ==> Reached(s.disk, lay[i], r.value.next)
  }

  /** The blocks of a chain and all data its log points to lie below `next`. */
  ghost predicate Reached(d: bytes, chain: seq<nat>, next: nat) {
    AllFit(d, chain) && Below(chain, next) && LogBelow(Log(d, chain), next)
  }

  lemma ReachedMore(d: bytes, chain: seq<nat>, next: nat, next': nat)
    requires Reached(d, chain, next) && next <= next'
    ensures Reached(d, chain, next')
  {
  }

  /** Reading one more chain finds its table. */
  lemma LoadOne(d: bytes, chain: seq<nat>, t: TableInfo, r: LogRecord, before: Loaded, bound: nat)
    requires TableOk(d, chain, t) && Below(chain, bound) && LogBelow(Log(d, chain), bound)
    requires chain[0] == r.value.offset && FieldEnd(r.key) <= |d| && t.name == FieldBytes(d, r.key)
    requires before.next <= bound && before.lastId < WORD_LIMIT
    ensures var after := LoadNamed(d, r, before);
      && after.Some? && after.value.meta == before.meta && after.value.tables == before.tables + [t]
      && before.next <= after.value.next <= bound && after.value.lastId < WORD_LIMIT
      && Reached(d, chain, after.value.next)
  {
    ChainIsFound(d, chain);
    ChainEndReaches(d, chain, before.next, bound);
    LogFits(d, chain);
    LogLastIdFits(Log(d, chain), before.lastId);
  }

  lemma LoadOneMore(s: Store, lay: Layout, n: nat, before: Loaded)
    requires AllTables(s.disk, s.next, s.tables, lay) && Rooted(s.disk, s.tables, lay) && LogsBelow(s.disk, s.next, lay)
    requires n + 1 < |s.tables| && LoadedFirst(s, lay, n, Some(before))
    ensures LoadedFirst(s, lay, n + 1, LoadNamed(s.disk, s.tables[0].records[n], before))
  {
    hide HeaderAt, LoadNamed, TableOk, Log, Reached;
    assert Roots(s.disk, s.tables, lay, n);
    assert TableOk(s.disk, lay[n + 1], s.tables[n + 1]);
    LoadOne(s.disk, lay[n + 1], s.tables[n + 1], s.tables[0].records[n], before, s.next);
    var after := LoadNamed(s.disk, s.tables[0].records[n], before).value;
    forall k | 0 <= k < n + 1 ensures after.tables[k] == s.tables[k + 1] {
      if k < n {
        assert after.tables[k] == before.tables[k];
      }
    }
    forall i | 0 <= i <= n + 1 ensures Reached(s.disk, lay[i], after.next) {
      if i <= n {
        ReachedMore(s.disk, lay[i], before.next, after.next);
      }
    }
  }

  lemma {:induction false} LoadFirst(s: Store, lay: Layout, n: nat, base: Loaded)
    requires AllTables(s.disk, s.next, s.tables, lay) && Rooted(s.disk, s.tables, lay) && LogsBelow(s.disk, s.next, lay)
    requires n < |s.tables| && LoadedFirst(s, lay, 0, Some(base))
    ensures LoadedFirst(s, lay, n, LoadAllNamed(s.disk, s.tables[0].records[..n], base))
  {
    var records := s.tables[0].records;
    if n == 0 {
      assert records[..0] == [];
    } else {
      LoadFirst(s, lay, n - 1, base);
      assert records[..n][..n - 1] == records[..n - 1];
      LoadOneMore(s, lay, n - 1, LoadAllNamed(s.disk, records[..n - 1], base).value);
    }
  }

  /** The database that `LoadFile` opens. */
  function Reopened(d: bytes, l: Loaded): Store {
    Store(d, l.next, [l.meta] + l.tables, l.lastId)
  }

  lemma LoadIsFound(s: Store, lay: Layout)
    requires Sized(s.disk, s.next) && AllTables(s.disk, s.next, s.tables, lay) && Rooted(s.disk, s.tables, lay) && LogsBelow(s.disk, s.next, lay)
    ensures LoadedFirst(s, lay, |s.tables| - 1, LoadFile(s.disk))
  {
    var d, chain := s.disk, lay[0];
    assert TableOk(d, chain, s.tables[0]);
    ChainIsFound(d, chain);
    ChainEndReaches(d, chain, 0, s.next);
    LogFits(d, chain);
    LogLastIdFits(Log(d, chain), 0);
    var meta := LoadTable(d, [], ROOT).value;
    assert meta == s.tables[0];
    var base := Loaded(meta, [], ChainEnd(d, chain, 0), LogLastId(Log(d, chain), 0));
    LoadFirst(s, lay, |s.tables| - 1, base);
    assert meta.records[..|s.tables| - 1] == meta.records;
  }

  lemma AllLoaded(tables: seq<TableInfo>, l: Loaded)
    requires |tables| == 1 + |l.tables| && l.meta == tables[0]
    requires forall k :: 0 <= k < |l.tables| ==> l.tables[k] == tables[k + 1]
    ensures [l.meta] + l.tables == tables
  {
  }

  /** A live field ends where a reload will not allocate again. */
  lemma LiveFieldBelow(s: Store, lay: Layout, next: nat, i: nat, a: nat, x: nat)
    requires AllTables(s.disk, s.next, s.tables, lay) && LogsCovered(s.disk, lay) && IsData(s.tables, i, a, x)
    requires AllFit(s.disk, lay[i]) && LogBelow(Log(s.disk, lay[i]), next)
    ensures FieldEnd(DataAt(s.tables, i, a, x)) <= next
  {
    var log := Log(s.disk, lay[i]);
    assert TableOk(s.disk, lay[i], s.tables[i]);
    LiveIsLogged(log);
    var r := s.tables[i].records[a];
    assert r in log;
    assert LogCovered(log);
    var k :| 0 <= k < |log| && log[k] == r;
    assert Covered(log[k]);
  }

  /**
    Reload is replay: reading the file back finds exactly the tables in memory, with their
    records, field extents and last blocks, and a start of free space beyond all of them.
    */
  lemma Reload(s: Store, lay: Layout)
    requires Inv(s, lay)
    ensures LoadFile(s.disk).Some?
    ensures var r := Reopened(s.disk, LoadFile(s.disk).value);
      r.tables == s.tables && r.next <= s.next && Inv(r, lay)
  {
    hide HeaderAt, LoadFile, Replay;
    InvAll(s, lay);
    LoadIsFound(s, lay);
    var l := LoadFile(s.disk).value;
    var r := Reopened(s.disk, l);
    AllLoaded(s.tables, l);
    assert Reached(s.disk, lay[0], l.next) && lay[0][0] + BLOCK_SIZE <= l.next;
    forall i: nat, a: nat, x: nat | IsData(s.tables, i, a, x) ensures FieldOk(s.disk, l.next, DataAt(s.tables, i, a, x)) {
      assert FieldOk(s.disk, s.next, DataAt(s.tables, i, a, x));
      assert Reached(s.disk, lay[i], l.next);
      LiveFieldBelow(s, lay, l.next, i, a, x);
    }
    forall i | 0 <= i < |lay|
      ensures TableOk(s.disk, lay[i], r.tables[i]) && Below(lay[i], l.next) && LogBelow(Log(s.disk, lay[i]), l.next)
    {
      assert TableOk(s.disk, lay[i], s.tables[i]) && Reached(s.disk, lay[i], l.next);
    }
  }
}
