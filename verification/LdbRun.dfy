/** The public operations, and whole runs of them with crashes and reloads. */
module LdbRun {
  import opened Bytes
  import opened Disk
  import opened LdbFormat
  import opened LdbLoad
  import opened LdbAppend
  import opened LdbTable
  import opened LdbStore
  import opened LdbRecover
  import opened LdbAppended
  import opened LdbCommit
  import opened LdbUser
  import opened LdbMeta
  import opened LdbView

  // ----- Operations -----

  datatype Op =
    | CreateTable(name: bytes)
    | DeleteTable(name: bytes)
    | Append(name: bytes, key: Option<bytes>, value: Option<bytes>, metadata: Option<bytes>)
    | SetByIndex(name: bytes, index: nat, key: Option<bytes>, value: Option<bytes>, metadata: Option<bytes>)
    | InsertByIndex(name: bytes, index: nat, key: Option<bytes>, value: Option<bytes>, metadata: Option<bytes>)
    | DeleteByIndex(name: bytes, index: nat)
    | ClearAllRecords(name: bytes)

  /** The request an operation makes of a table of `count` records; none when the index is refused. */
  function RequestOf(op: Op, count: nat): Option<Request>
    requires !op.CreateTable? && !op.DeleteTable?
  {
    match op
    case Append(_, key, value, metadata) => Some(Request(OPERATION_APPEND, count % WORD_LIMIT, key, value, metadata))
    case SetByIndex(_, index, key, value, metadata) =>
      if index < count then Some(Request(OPERATION_SET, index, key, value, metadata)) else None
    case InsertByIndex(_, index, key, value, metadata) =>
      if index != 0 && index >= count then None else Some(Request(OPERATION_INSERT, index, key, value, metadata))
    case DeleteByIndex(_, index) => if index < count then Some(Request(OPERATION_DELETE, index, None, None, None)) else None
    case ClearAllRecords(_) => Some(Request(OPERATION_CLEAR, 0, None, None, None))
  }

  /** What an operation means. */
  function Spec(v: Contents, op: Op): Contents {
    match op
    case CreateTable(name) => if name in v then v else v[name := []]
    case DeleteTable(name) => v - {name}
    case _ =>
      if op.name !in v then v
      else
        match RequestOf(op, |v[op.name]|)
        case None => v
        case Some(q) => v[op.name := SpecRequest(v[op.name], q)]
  }

  /** The table of that name, if any. */
  function TableIndex(tables: seq<TableInfo>, name: bytes): (r: Option<nat>)
    ensures r.Some? ==> 1 <= r.value < |tables| && tables[r.value].name == name
    ensures r.None? ==> forall i :: 1 <= i < |tables| ==> tables[i].name != name
  {
    if |tables| <= 1 then None
    else if tables[|tables| - 1].name == name then Some(|tables| - 1)
    else TableIndex(tables[..|tables| - 1], name)
  }

  /** The change of the database an operation comes down to. */
  datatype Action = Nothing | OnTable(table: nat, request: Request) | Create(name: bytes) | Drop(index: nat)

  function Resolve(tables: seq<TableInfo>, op: Op): Action {
    match TableIndex(tables, op.name)
    case None => if op.CreateTable? then Create(op.name) else Nothing
    case Some(i) =>
      if op.CreateTable? then Nothing
      else if op.DeleteTable? then Drop(i - 1)
      else
        match RequestOf(op, |tables[i].records|)
        case None => Nothing
        case Some(q) => OnTable(i, q)
  }

  /**
    The operation does not insert into an empty table, does not break the tie of kept and new fields,
    and the file does not reach 2^32 bytes.
    */
  ghost predicate ActionOk(cfg: Config, s: Store, act: Action) {
    match act
    case Nothing => true
    case OnTable(t, q) => 1 <= t && Possible(cfg, s, t, q) && NoTie(q, s.tables[t].records, Top(s.next, s.tables[t].last))
    case Create(name) => |s.tables| > 0 && Possible(cfg, s, 0, CreateRequest(|s.tables[0].records|, name))
    case Drop(index) => |s.tables| > 0 && Possible(cfg, s, 0, DeleteRequest(index)) && index + 1 < |s.tables|
  }

  ghost predicate Allowed(cfg: Config, s: Store, op: Op) {
    ActionOk(cfg, s, Resolve(s.tables, op))
  }

  /** The writes of an operation, in order. */
  function WritesOf(cfg: Config, s: Store, op: Op): seq<Io>
    requires Allowed(cfg, s, op)
  {
    match Resolve(s.tables, op)
    case Nothing => []
    case OnTable(t, q) => RequestWrites(cfg, s, t, q)
    case Create(name) => RequestWrites(cfg, s, 0, CreateRequest(|s.tables[0].records|, name))
    case Drop(index) => RequestWrites(cfg, s, 0, DeleteRequest(index))
  }

  /** The database after an operation. */
  function After(cfg: Config, s: Store, op: Op): Store
    requires Allowed(cfg, s, op)
  {
    match Resolve(s.tables, op)
    case Nothing => s
    case OnTable(t, q) => AfterRequest(cfg, s, t, q)
    case Create(name) => AfterCreate(cfg, s, name)
    case Drop(index) => AfterDelete(cfg, s, index)
  }

  function LayoutOf(s: Store, lay: Layout, op: Op): Layout
    requires |lay| == |s.tables| > 0
  {
    match Resolve(s.tables, op)
    case Nothing => lay
    case OnTable(t, q) => if t < |lay| then LayoutAfter(s, lay, t) else lay
    case Create(name) => LayoutCreated(s, lay, name)
    case Drop(index) => if index + 1 < |lay| then LayoutDeleted(s, lay, index) else lay
  }

  /** The invariant holds after every operation. */
  lemma OperationKeepsInv(cfg: Config, s: Store, lay: Layout, op: Op)
    requires Inv(s, lay) && Allowed(cfg, s, op)
    ensures Inv(After(cfg, s, op), LayoutOf(s, lay, op))
  {
    hide AfterRequest, AfterCreate, AfterDelete, Possible;
    match Resolve(s.tables, op)
    case Nothing =>
    case OnTable(t, q) => RequestKeepsInv(cfg, s, lay, t, q);
    case Create(name) => CreateKeepsInv(cfg, s, lay, name);
    case Drop(index) => DeleteKeepsInv(cfg, s, lay, index);
  }

  // ----- Operations mean what they should -----

  lemma TableIndexIsName(s: Store, name: bytes)
    requires NamesDistinct(s.tables)
    ensures var i := TableIndex(s.tables, name);
      && (i.None? ==> name !in View(s))
      && (i.Some? ==> name in View(s) && View(s)[name] == ViewRecords(s.disk, s.tables[i.value].records))
  {
    ViewIs(s.disk, s.tables);
  }

  lemma RequestView(cfg: Config, s: Store, lay: Layout, t: nat, q: Request)
    requires Inv(s, lay) && ActionOk(cfg, s, OnTable(t, q))
    ensures View(AfterRequest(cfg, s, t, q))
         == View(s)[s.tables[t].name := SpecRequest(ViewRecords(s.disk, s.tables[t].records), q)]
  {
    var d' := AfterRequest(cfg, s, t, q).disk;
    AllWritten(cfg, s, lay, t, q);
    AfterRequestIs(cfg, s, t, q);
    RequestKeepsData(cfg, s, lay, t, q, d');
    RequestItems(cfg, s, lay, t, q, d');
    InvDistinct(s, lay);
    ViewChanged(s.disk, d', s.tables, t, TableAfter(s.tables[t], s.next, RequestRecord(cfg, s, t, q)));
  }

  lemma CreateView(cfg: Config, s: Store, lay: Layout, name: bytes)
    requires Inv(s, lay) && ActionOk(cfg, s, Create(name))
    ensures View(AfterCreate(cfg, s, name)) == View(s)[name := []]
  {
    var q := CreateRequest(|s.tables[0].records|, name);
    var d' := AfterCreate(cfg, s, name).disk;
    AllWritten(cfg, s, lay, 0, q);
    AfterRequestIs(cfg, s, 0, q);
    RequestKeepsData(cfg, s, lay, 0, q, d');
    ViewCreated(s.disk, d', s.tables, MetaAfterCreate(cfg, s, name), NewTable(s, name));
  }

  lemma DeleteView(cfg: Config, s: Store, lay: Layout, index: nat)
    requires Inv(s, lay) && ActionOk(cfg, s, Drop(index))
    ensures View(AfterDelete(cfg, s, index)) == View(s) - {s.tables[index + 1].name}
  {
    var d' := AfterDelete(cfg, s, index).disk;
    AllWritten(cfg, s, lay, 0, DeleteRequest(index));
    AfterDeleteIs(cfg, s, index);
    RequestKeepsData(cfg, s, lay, 0, DeleteRequest(index), d');
    InvDistinct(s, lay);
    ViewDeleted(s.disk, d', s.tables, MetaAfterDelete(cfg, s, index), index + 1);
  }

  /** What the resolved action is meant to do to the contents. */
  function Meant(s: Store, act: Action): Contents {
    match act
    case Nothing => View(s)
    case OnTable(t, q) =>
      if t < |s.tables| then View(s)[s.tables[t].name := SpecRequest(ViewRecords(s.disk, s.tables[t].records), q)] else View(s)
    case Create(name) => View(s)[name := []]
    case Drop(index) => if index + 1 < |s.tables| then View(s) - {s.tables[index + 1].name} else View(s)
  }

  /** Resolving an operation does not change what it means. */
  lemma ResolveMeans(s: Store, op: Op)
    requires NamesDistinct(s.tables)
    ensures Meant(s, Resolve(s.tables, op)) == Spec(View(s), op)
  {
    TableIndexIsName(s, op.name);
    var v := View(s);
    if op.DeleteTable? && op.name !in v {
      assert v - {op.name} == v;
    }
  }

  /** Every operation does to the contents what it means, and nothing else. */
  lemma OperationMeans(cfg: Config, s: Store, lay: Layout, op: Op)
    requires Inv(s, lay) && Allowed(cfg, s, op)
    ensures View(After(cfg, s, op)) == Spec(View(s), op)
  {
    InvDistinct(s, lay);
    ResolveMeans(s, op);
    var act, s' := Resolve(s.tables, op), After(cfg, s, op);
    if act.OnTable? {
      assert s' == AfterRequest(cfg, s, act.table, act.request);
      RequestView(cfg, s, lay, act.table, act.request);
    } else if act.Create? {
      assert s' == AfterCreate(cfg, s, act.name);
      CreateView(cfg, s, lay, act.name);
    } else if act.Drop? {
      assert s' == AfterDelete(cfg, s, act.index);
      DeleteView(cfg, s, lay, act.index);
    }
  }

  // ----- Crashes -----

  lemma StoppedOperation(cfg: Config, s: Store, lay: Layout, op: Op, k: nat)
    requires Inv(s, lay) && Allowed(cfg, s, op) && k < |WritesOf(cfg, s, op)|
    ensures var d' := DoAll(s.disk, WritesOf(cfg, s, op)[..k]);
      Inv(s.(disk := d'), lay) && SameData(s.disk, d', s.tables)
  {
    match Resolve(s.tables, op)
    case OnTable(t, q) => Stopped(cfg, s, lay, t, q, k);
    case Create(name) => Stopped(cfg, s, lay, 0, CreateRequest(|s.tables[0].records|, name), k);
    case Drop(index) => Stopped(cfg, s, lay, 0, DeleteRequest(index), k);
  }

  lemma AllWritesOf(cfg: Config, s: Store, op: Op)
    requires Allowed(cfg, s, op)
    ensures After(cfg, s, op).disk == DoAll(s.disk, WritesOf(cfg, s, op))
  {
  }

  lemma ViewUnchanged(d: bytes, d': bytes, tables: seq<TableInfo>)
    requires SameData(d, d', tables)
    ensures ViewTables(d', tables) == ViewTables(d, tables)
  {
    forall i: nat | 1 <= i < |tables| ensures ViewRecords(d', tables[i].records) == ViewRecords(d, tables[i].records) {
      ViewKept(d, d', tables, i);
    }
    ViewSame(d, d', tables, tables);
  }

  /** The database found by reopening after the first `k` writes of an operation. */
  function Recovered(cfg: Config, s: Store, op: Op, k: nat): Option<Store>
    requires Allowed(cfg, s, op) && k <= |WritesOf(cfg, s, op)|
  {
    var d := DoAll(s.disk, WritesOf(cfg, s, op)[..k]);
    match LoadFile(d)
    case None => None
    case Some(l) => Some(Reopened(d, l))
  }

  /**
    Crash atomicity: stopping between any two writes of an operation and reopening the file finds
    exactly the old tables, unless all writes were made, and then exactly the new ones. What is
    found is again a database with the invariant.
    */
  lemma CrashAtomicity(cfg: Config, s: Store, lay: Layout, op: Op, k: nat)
    requires Inv(s, lay) && Allowed(cfg, s, op) && k <= |WritesOf(cfg, s, op)|
    ensures var r := Recovered(cfg, s, op, k);
      && r.Some?
      && (k < |WritesOf(cfg, s, op)| ==> r.value.tables == s.tables && View(r.value) == View(s) && Inv(r.value, lay))
      && (k == |WritesOf(cfg, s, op)| ==>
            r.value.tables == After(cfg, s, op).tables && View(r.value) == Spec(View(s), op) && Inv(r.value, LayoutOf(s, lay, op)))
  {
    var ios := WritesOf(cfg, s, op);
    if k < |ios| {
      var d' := DoAll(s.disk, ios[..k]);
      StoppedOperation(cfg, s, lay, op, k);
      Reload(s.(disk := d'), lay);
      ViewUnchanged(s.disk, d', s.tables);
    } else {
      assert ios[..k] == ios;
      AllWritesOf(cfg, s, op);
      OperationKeepsInv(cfg, s, lay, op);
      OperationMeans(cfg, s, lay, op);
      Reload(After(cfg, s, op), LayoutOf(s, lay, op));
    }
  }

  // ----- Runs -----

  /** An operation carried out, an operation cut short by a crash after some writes and a reopening, or a clean reopening. */
  datatype Event = Call(op: Op) | Crash(op: Op, writes: nat) | Reopen

  function Next(cfg: Config, s: Store, e: Event): Option<Store>
    requires !e.Reopen? ==> Allowed(cfg, s, e.op)
    requires e.Crash? ==> e.writes <= |WritesOf(cfg, s, e.op)|
  {
    match e
    case Call(op) => Some(After(cfg, s, op))
    case Crash(op, k) => Recovered(cfg, s, op, k)
    case Reopen =>
      match LoadFile(s.disk)
      case None => None
      case Some(l) => Some(Reopened(s.disk, l))
  }

  /** The event may happen in state `s` and leads to state `s'`. */
  ghost predicate Follows(cfg: Config, s: Store, e: Event, s': Store) {
    && (!e.Reopen? ==> Allowed(cfg, s, e.op))
    && (e.Crash? ==> e.writes <= |WritesOf(cfg, s, e.op)|)
    && Next(cfg, s, e) == Some(s')
  }

  /** A run of a database: each state follows from the one before. */
  ghost predicate Run(cfg: Config, states: seq<Store>, events: seq<Event>) {
    && |states| == |events| + 1
    && forall n {:trigger events[n]} :: 0 <= n < |events| ==> Follows(cfg, states[n], events[n], states[n + 1])
  }

  /** What a run may leave: a crashed operation has happened completely or not at all. */
  ghost predicate Outcome(v: Contents, e: Event, v': Contents) {
    match e
    case Call(op) => v' == Spec(v, op)
    case Crash(op, _) => v' == v || v' == Spec(v, op)
    case Reopen => v' == v
  }

  ghost predicate Sound(s: Store) {
    exists lay :: Inv(s, lay)
  }

  /** No event of a run can fail to find a database: reopening always succeeds. */
  lemma NextExists(cfg: Config, s: Store, e: Event)
    requires Sound(s)
    requires !e.Reopen? ==> Allowed(cfg, s, e.op)
    requires e.Crash? ==> e.writes <= |WritesOf(cfg, s, e.op)|
    ensures Next(cfg, s, e).Some? && Sound(Next(cfg, s, e).value) && Outcome(View(s), e, View(Next(cfg, s, e).value))
  {
    var lay :| Inv(s, lay);
    match e
    case Call(op) =>
      OperationKeepsInv(cfg, s, lay, op);
      OperationMeans(cfg, s, lay, op);
    case Crash(op, k) =>
      CrashAtomicity(cfg, s, lay, op, k);
    case Reopen =>
      Reload(s, lay);
  }

  lemma FollowsIsSound(cfg: Config, s: Store, e: Event, s': Store)
    requires Sound(s) && Follows(cfg, s, e, s')
    ensures Sound(s') && Outcome(View(s), e, View(s'))
  {
    NextExists(cfg, s, e);
  }

  /** Over every run of operations, crashes and reopenings the database stays sound. */
  lemma {:induction false} RunsAreSound(cfg: Config, states: seq<Store>, events: seq<Event>, n: nat)
    requires Run(cfg, states, events) && Sound(states[0]) && n <= |events|
    ensures Sound(states[n])
  {
    hide Follows;
    if n > 0 {
      RunsAreSound(cfg, states, events, n - 1);
      var e := events[n - 1];
      FollowsIsSound(cfg, states[n - 1], e, states[n]);
    }
  }

  /** Over every run each event has its meaning: nothing is lost, and nothing half done is ever found. */
  lemma RunsAreFaithful(cfg: Config, states: seq<Store>, events: seq<Event>, n: nat)
    requires Run(cfg, states, events) && Sound(states[0]) && n < |events|
    ensures Outcome(View(states[n]), events[n], View(states[n + 1]))
  {
    RunsAreSound(cfg, states, events, n);
    FollowsIsSound(cfg, states[n], events[n], states[n + 1]);
  }
}
