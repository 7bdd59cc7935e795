/** All tables of a `logdb` file together: what always holds of the file and the tables in memory. */
module LdbStore {
  import opened Bytes
  import opened LdbFormat
  import opened LdbLoad
  import opened LdbTable

  /** The file and the memory of an open database. Table 0 is the metatable; table i + 1 belongs to its record i. */
  datatype Store = Store(disk: bytes, next: nat, tables: seq<TableInfo>, lastId: nat)

  /** The blocks of every table, in the order of the tables. */
  type Layout = seq<seq<nat>>

  const ROOT: nat := FILE_HEADER_SIZE

  // ----- Positions of data fields -----

  function FieldOf(r: LogRecord, x: nat): Field
    requires x < 3
  {
    if x == 0 then r.key else if x == 1 then r.value else r.metadata
  }

  /**
    Field `x` of record `a` of table `i` is data. The value of a metatable record is
    not: it is the first block of the table it names.
    */
  predicate IsData(tables: seq<TableInfo>, i: nat, a: nat, x: nat) {
    i < |tables| && a < |tables[i].records| && x < 3 && !(i == 0 && x == 1)
  }

  function DataAt(tables: seq<TableInfo>, i: nat, a: nat, x: nat): Field
    requires IsData(tables, i, a, x)
  {
    FieldOf(tables[i].records[a], x)
  }

  // ----- The parts of the invariant -----

  /** The file has its header and room for everything below `next`. */
  ghost predicate Sized(d: bytes, next: nat) {
    && FILE_HEADER_SIZE + BLOCK_SIZE <= next <= |d| < WORD_LIMIT
    && WordAt(d, 0) == MAGIC && WordAt(d, 12) == ROOT
  }

  ghost predicate AllTables(d: bytes, next: nat, tables: seq<TableInfo>, lay: Layout) {
    && |tables| == |lay|
    && forall i :: 0 <= i < |lay| ==> TableOk(d, lay[i], tables[i]) && Below(lay[i], next) && ROOT <= lay[i][0]
  }

  /** Record `a` of the metatable names table `a + 1` and holds its first block. */
  ghost predicate Roots(d: bytes, tables: seq<TableInfo>, lay: Layout, a: nat)
    requires |tables| == |lay| >= 1
  {
    && a < |tables[0].records| && a + 1 < |tables|
    && var r := tables[0].records[a];
    && lay[a + 1] != [] && lay[a + 1][0] == r.value.offset
    && r.value.size == BLOCK_SIZE
    && r.key != NULL_FIELD && r.metadata == NULL_FIELD
    && FieldEnd(r.key) <= |d| && tables[a + 1].name == FieldBytes(d, r.key)
  }

  ghost predicate Rooted(d: bytes, tables: seq<TableInfo>, lay: Layout) {
    && |tables| == |lay| >= 1
    && |tables| == 1 + |tables[0].records|
    && tables[0].name == []
    && lay[0] != [] && lay[0][0] == ROOT
    && forall a :: 0 <= a < |tables[0].records| ==> Roots(d, tables, lay, a)
  }

  predicate BlocksDisjoint(a: nat, b: nat) {
    a + BLOCK_SIZE <= b || b + BLOCK_SIZE <= a
  }

  ghost predicate ChainApart(c: seq<nat>, e: seq<nat>) {
    forall k, m :: 0 <= k < |c| && 0 <= m < |e| ==> BlocksDisjoint(c[k], e[m])
  }

  /** Blocks of different tables never overlap. */
  ghost predicate ChainsApart(lay: Layout) {
    forall i, j :: 0 <= i < j < |lay| ==> ChainApart(lay[i], lay[j])
  }

  /** `RecordEnd` reaches the end of each field, so that a reload finds where free space starts. */
  predicate Covered(r: LogRecord) {
    FieldEnd(r.key) <= RecordEnd(r) && FieldEnd(r.value) <= RecordEnd(r) && FieldEnd(r.metadata) <= RecordEnd(r)
  }

  ghost predicate LogCovered(log: seq<LogRecord>) {
    forall i :: 0 <= i < |log| ==> Covered(log[i])
  }

  ghost predicate LogBelow(log: seq<LogRecord>, next: nat) {
    forall i :: 0 <= i < |log| ==> RecordEnd(log[i]) <= next
  }

  ghost predicate LogsCovered(d: bytes, lay: Layout) {
    forall i :: 0 <= i < |lay| ==> AllFit(d, lay[i]) && LogCovered(Log(d, lay[i]))
  }

  ghost predicate LogsBelow(d: bytes, next: nat, lay: Layout) {
    forall i :: 0 <= i < |lay| ==> AllFit(d, lay[i]) && LogBelow(Log(d, lay[i]), next)
  }

  predicate FieldOk(d: bytes, next: nat, f: Field) {
    f == NULL_FIELD || (ROOT <= f.offset && FieldEnd(f) <= next && f.hash == DoHash(FieldBytes(d, f)))
  }

  ghost predicate FieldsOk(d: bytes, next: nat, tables: seq<TableInfo>) {
    forall i: nat, a: nat, x: nat :: IsData(tables, i, a, x) ==> FieldOk(d, next, DataAt(tables, i, a, x))
  }

  predicate OffBlock(f: Field, block: nat) {
    FieldEnd(f) <= block || block + BLOCK_SIZE <= f.offset
  }

  ghost predicate OffChain(f: Field, chain: seq<nat>) {
    forall k :: 0 <= k < |chain| ==> OffBlock(f, chain[k])
  }

  /** Data never overlaps a block. */
  ghost predicate FieldsOffBlocks(tables: seq<TableInfo>, lay: Layout) {
    forall i: nat, a: nat, x: nat, j: nat :: IsData(tables, i, a, x) && j < |lay| ==> OffChain(DataAt(tables, i, a, x), lay[j])
  }

  predicate FieldsDisjoint(f: Field, g: Field) {
    FieldEnd(f) <= g.offset || FieldEnd(g) <= f.offset || f.size == 0 || g.size == 0
  }

  /** Different data fields never overlap. */
  ghost predicate FieldsApart(tables: seq<TableInfo>) {
    forall i: nat, a: nat, x: nat, j: nat, b: nat, y: nat :: IsData(tables, i, a, x) && IsData(tables, j, b, y) && (i, a, x) != (j, b, y) ==>
      FieldsDisjoint(DataAt(tables, i, a, x), DataAt(tables, j, b, y))
  }

  ghost predicate NamesDistinct(tables: seq<TableInfo>) {
    forall i, j :: 1 <= i < j < |tables| ==> tables[i].name != tables[j].name
  }

  /** The blocks: each table is read from its chain, and chains and logs keep to their places. */
  ghost predicate BlocksHold(d: bytes, next: nat, tables: seq<TableInfo>, lay: Layout) {
    && Sized(d, next) && AllTables(d, next, tables, lay) && ChainsApart(lay)
    && LogsCovered(d, lay) && LogsBelow(d, next, lay)
  }

  /** The metatable: it names the tables and tells where their chains begin. */
  ghost predicate NamesHold(d: bytes, tables: seq<TableInfo>, lay: Layout) {
    Rooted(d, tables, lay) && NamesDistinct(tables)
  }

  /** The data. */
  ghost predicate DataHolds(d: bytes, next: nat, tables: seq<TableInfo>, lay: Layout) {
    FieldsOk(d, next, tables) && FieldsOffBlocks(tables, lay) && FieldsApart(tables)
  }

  /** The three aspects of the invariant, and what a request leaves behind. */
  datatype Aspect = OfBlocks | OfNames | OfData | OfRequest

  /** Says that an aspect is wanted in full; where it is only passed on it need not be known. */
  predicate Wanted(a: Aspect) {
    true
  }

  ghost predicate Has(a: Aspect, d: bytes, next: nat, tables: seq<TableInfo>, lay: Layout) {
    && |lay| == |tables|
    && forall w {:trigger Wanted(w)} :: Wanted(w) && w == a ==>
      match w
      case OfBlocks => BlocksHold(d, next, tables, lay)
      case OfNames => NamesHold(d, tables, lay)
      case OfData => DataHolds(d, next, tables, lay)
      case OfRequest => true
  }

  /** Everything that holds of an open database, whatever has been done to it. */
  ghost predicate Inv(s: Store, lay: Layout) {
    && |s.tables| >= 1 && s.lastId < WORD_LIMIT
    && Has(OfBlocks, s.disk, s.next, s.tables, lay) && Has(OfNames, s.disk, s.next, s.tables, lay) && Has(OfData, s.disk, s.next, s.tables, lay)
  }

  lemma OpenBlocks(d: bytes, next: nat, tables: seq<TableInfo>, lay: Layout)
    requires Has(OfBlocks, d, next, tables, lay)
    ensures BlocksHold(d, next, tables, lay)
  {
    assert Wanted(OfBlocks);
  }

  lemma OpenNames(d: bytes, next: nat, tables: seq<TableInfo>, lay: Layout)
    requires Has(OfNames, d, next, tables, lay)
    ensures NamesHold(d, tables, lay)
  {
    assert Wanted(OfNames);
  }

  lemma OpenData(d: bytes, next: nat, tables: seq<TableInfo>, lay: Layout)
    requires Has(OfData, d, next, tables, lay)
    ensures DataHolds(d, next, tables, lay)
  {
    assert Wanted(OfData);
  }

  lemma CloseBlocks(d: bytes, next: nat, tables: seq<TableInfo>, lay: Layout)
    requires BlocksHold(d, next, tables, lay)
    ensures Has(OfBlocks, d, next, tables, lay)
  {
  }

  lemma CloseNames(d: bytes, next: nat, tables: seq<TableInfo>, lay: Layout)
    requires NamesHold(d, tables, lay)
    ensures Has(OfNames, d, next, tables, lay)
  {
  }

  lemma CloseData(d: bytes, next: nat, tables: seq<TableInfo>, lay: Layout)
    requires DataHolds(d, next, tables, lay) && |lay| == |tables|
    ensures Has(OfData, d, next, tables, lay)
  {
  }

  lemma InvBlocks(s: Store, lay: Layout)
    requires Inv(s, lay)
    ensures BlocksHold(s.disk, s.next, s.tables, lay)
  {
    OpenBlocks(s.disk, s.next, s.tables, lay);
  }

  lemma InvSized(s: Store, lay: Layout)
    requires Inv(s, lay)
    ensures ROOT + BLOCK_SIZE <= s.next <= |s.disk| < WORD_LIMIT
  {
    InvBlocks(s, lay);
  }

  lemma InvNames(s: Store, lay: Layout)
    requires Inv(s, lay)
    ensures NamesHold(s.disk, s.tables, lay)
  {
    OpenNames(s.disk, s.next, s.tables, lay);
  }

  lemma InvDistinct(s: Store, lay: Layout)
    requires Inv(s, lay)
    ensures NamesDistinct(s.tables)
  {
    InvNames(s, lay);
  }

  lemma InvData(s: Store, lay: Layout)
    requires Inv(s, lay)
    ensures DataHolds(s.disk, s.next, s.tables, lay)
  {
    OpenData(s.disk, s.next, s.tables, lay);
  }

  lemma InvAll(s: Store, lay: Layout)
    requires Inv(s, lay)
    ensures BlocksHold(s.disk, s.next, s.tables, lay) && NamesHold(s.disk, s.tables, lay) && DataHolds(s.disk, s.next, s.tables, lay)
  {
    InvBlocks(s, lay);
    InvNames(s, lay);
    InvData(s, lay);
  }

  lemma MakeInv(s: Store, lay: Layout)
    requires BlocksHold(s.disk, s.next, s.tables, lay) && NamesHold(s.disk, s.tables, lay) && DataHolds(s.disk, s.next, s.tables, lay)
    requires s.lastId < WORD_LIMIT
    ensures Inv(s, lay)
  {
  }

  // ----- The invariant depends on blocks and data only -----

  ghost predicate SameChain(d: bytes, d': bytes, chain: seq<nat>) {
    AllFit(d, chain) && forall k :: 0 <= k < |chain| ==> SameBlock(d, d', chain[k])
  }

  ghost predicate SameData(d: bytes, d': bytes, tables: seq<TableInfo>) {
    forall i: nat, a: nat, x: nat :: IsData(tables, i, a, x) ==> FieldBytes(d, DataAt(tables, i, a, x)) == FieldBytes(d', DataAt(tables, i, a, x))
  }

  /** `d'` has the same file header, the same used part of each block and the same data as `d`. */
  ghost predicate SameContents(d: bytes, d': bytes, tables: seq<TableInfo>, lay: Layout)
  {
    && |d| <= |d'|
    && SameOn(d, d', 0, FILE_HEADER_SIZE)
    && (forall i :: 0 <= i < |lay| ==> SameChain(d, d', lay[i]))
    && SameData(d, d', tables)
  }

  lemma TableFrame(d: bytes, d': bytes, chain: seq<nat>, t: TableInfo)
    requires TableOk(d, chain, t)
    requires SameChain(d, d', chain)
    ensures TableOk(d', chain, t) && Log(d', chain) == Log(d, chain)
  {
    ChainFrame(d, d', chain);
    forall k | 0 <= k < |chain| ensures BlockOk(HeaderAt(d', chain[k])) {
      BlockFrame(d, d', chain[k]);
    }
  }

  lemma RootsFrame(d: bytes, d': bytes, tables: seq<TableInfo>, lay: Layout)
    requires Rooted(d, tables, lay) && |d| <= |d'|
    requires SameData(d, d', tables)
    ensures Rooted(d', tables, lay)
  {
    forall a | 0 <= a < |tables[0].records| ensures Roots(d', tables, lay, a) {
      assert Roots(d, tables, lay, a);
      assert IsData(tables, 0, a, 0) && DataAt(tables, 0, a, 0) == tables[0].records[a].key;
    }
  }

  /** Changing only free space keeps the invariant. */
  lemma InvFrame(s: Store, lay: Layout, d': bytes)
    requires Inv(s, lay) && SameContents(s.disk, d', s.tables, lay) && |d'| < WORD_LIMIT
    ensures Inv(s.(disk := d'), lay)
  {
    InvAll(s, lay);
    var d := s.disk;
    WordFrame(d, d', 0);
    WordFrame(d, d', 12);
    forall i | 0 <= i < |lay| ensures TableOk(d', lay[i], s.tables[i]) && Log(d', lay[i]) == Log(d, lay[i]) {
      TableFrame(d, d', lay[i], s.tables[i]);
    }
    RootsFrame(d, d', s.tables, lay);
    forall i: nat, a: nat, x: nat | IsData(s.tables, i, a, x) ensures FieldOk(d', s.next, DataAt(s.tables, i, a, x)) {
      assert FieldOk(d, s.next, DataAt(s.tables, i, a, x));
    }
    MakeInv(s.(disk := d'), lay);
  }
}
