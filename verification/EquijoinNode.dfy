/**
 The hash equijoin operator: a build phase into a hash table, probe batches buffered until the build side
 has ended, output queued as chunks, and a pending batch held back until it is known whether it is the last.
 */
module Equijoin {
  import opened Basics
  import opened RowBatches
  import opened JoinSpec
  import opened JoinMeaning
  import opened Runs

  const DEFAULT_JOIN_ROW_BATCH_SIZE: nat := 1024

  datatype TableSpec = TableSpec(
    emitUnmatchedRows: bool, keyIndices: seq<nat>, inputColIndices: seq<nat>, outputColIndices: seq<nat>)

  datatype Config = Config(probeIsLeft: bool, buildSpec: TableSpec, probeSpec: TableSpec)

  datatype Result<T> = Ok(value: T) | InternalError(message: string)

  /** The output columns taken from one table, among the first `n`. */
  ghost function ColumnsOf(plan: JoinPlan, left: bool, n: nat): seq<nat>
    requires n <= |plan.outputColumns|
  {
    if n == 0 then []
    else ColumnsOf(plan, left, n - 1) + if (plan.outputColumns[n - 1].parent == 0) == left then [n - 1] else []
  }

  /** A table specification that agrees with the plan on one table. */
  ghost predicate SpecFor(plan: JoinPlan, left: bool, spec: TableSpec) {
    && spec.emitUnmatchedRows == plan.KeepsUnmatched(left)
    && KeysFor(plan, left, spec.keyIndices, |plan.conditions|)
    && spec.outputColIndices == ColumnsOf(plan, left, |plan.outputColumns|)
    && InputColumns(plan, spec)
  }

  ghost predicate InputColumns(plan: JoinPlan, spec: TableSpec) {
    && |spec.inputColIndices| == |spec.outputColIndices|
    && (forall j | 0 <= j < |spec.outputColIndices| ::
          && spec.outputColIndices[j] < |plan.outputColumns|
          && spec.inputColIndices[j] == plan.outputColumns[spec.outputColIndices[j]].column)
  }

  /** The table of a configuration that parent `parentIndex` feeds. */
  predicate IsProbeTable(probeIsLeft: bool, parentIndex: nat) {
    (parentIndex == 0) == probeIsLeft
  }

  ghost predicate KeysFor(plan: JoinPlan, left: bool, keys: seq<nat>, n: nat)
    requires n <= |plan.conditions|
  {
    && |keys| == n
    && forall i | 0 <= i < n ::
         keys[i] == if left then plan.conditions[i].leftColumn else plan.conditions[i].rightColumn
  }

  method InitKeys(plan: JoinPlan, probeIsLeft: bool) returns (buildKeys: seq<nat>, probeKeys: seq<nat>)
    ensures KeysFor(plan, !probeIsLeft, buildKeys, |plan.conditions|) &&
            KeysFor(plan, probeIsLeft, probeKeys, |plan.conditions|)
  {
    buildKeys, probeKeys := [], [];
    for i := 0 to |plan.conditions|
      invariant KeysFor(plan, !probeIsLeft, buildKeys, i) && KeysFor(plan, probeIsLeft, probeKeys, i)
    {
      var left, right := plan.conditions[i].leftColumn, plan.conditions[i].rightColumn;
      buildKeys := buildKeys + [if probeIsLeft then right else left];
      probeKeys := probeKeys + [if probeIsLeft then left else right];
    }
  }

  ghost predicate ColumnsFor(plan: JoinPlan, left: bool, spec: TableSpec, n: nat)
    requires n <= |plan.outputColumns|
  {
    spec.outputColIndices == ColumnsOf(plan, left, n) && InputColumns(plan, spec)
  }

  /** Give the next output column to the table it comes from. */
  function AddColumn(plan: JoinPlan, left: bool, spec: TableSpec, i: nat): TableSpec
    requires i < |plan.outputColumns|
  {
    var c := plan.outputColumns[i];
    if (c.parent == 0) == left then
      spec.(inputColIndices := spec.inputColIndices + [c.column], outputColIndices := spec.outputColIndices + [i])
    else spec
  }

  method InitColumns(plan: JoinPlan, probeIsLeft: bool, build0: TableSpec, probe0: TableSpec)
    returns (build: TableSpec, probe: TableSpec)
    requires ColumnsFor(plan, !probeIsLeft, build0, 0) && ColumnsFor(plan, probeIsLeft, probe0, 0)
    ensures ColumnsFor(plan, !probeIsLeft, build, |plan.outputColumns|) &&
            ColumnsFor(plan, probeIsLeft, probe, |plan.outputColumns|)
    ensures build.keyIndices == build0.keyIndices && build.emitUnmatchedRows == build0.emitUnmatchedRows
    ensures probe.keyIndices == probe0.keyIndices && probe.emitUnmatchedRows == probe0.emitUnmatchedRows
  {
    build, probe := build0, probe0;
    for i := 0 to |plan.outputColumns|
      invariant build.keyIndices == build0.keyIndices && build.emitUnmatchedRows == build0.emitUnmatchedRows
      invariant probe.keyIndices == probe0.keyIndices && probe.emitUnmatchedRows == probe0.emitUnmatchedRows
      invariant ColumnsFor(plan, !probeIsLeft, build, i) && ColumnsFor(plan, probeIsLeft, probe, i)
    {
      probe := AddColumn(plan, probeIsLeft, probe, i);
      build := AddColumn(plan, !probeIsLeft, build, i);
    }
  }

  method InitImpl(plan: JoinPlan) returns (r: Result<Config>)
    requires plan.Valid()
    ensures r.Ok? <==> plan.joinType != UNKNOWN
    ensures r.Ok? ==>
      && r.value.probeIsLeft == plan.OrderedByLeft()
      && SpecFor(plan, plan.OrderedByLeft(), r.value.probeSpec)
      && SpecFor(plan, !plan.OrderedByLeft(), r.value.buildSpec)
  {
    var probeIsLeft := plan.orderByTime && plan.timeParent == 0;
    var emitBuild, emitProbe;
    match plan.joinType {
      case INNER => emitBuild, emitProbe := false, false;
      case LEFT_OUTER => emitBuild, emitProbe := !probeIsLeft, probeIsLeft;
      case FULL_OUTER => emitBuild, emitProbe := true, true;
      case UNKNOWN => return InternalError("EquijoinNode: Unknown Join Type");
    }
    var buildKeys, probeKeys := InitKeys(plan, probeIsLeft);
    var build, probe := InitColumns(plan, probeIsLeft, TableSpec(emitBuild, buildKeys, [], []),
      TableSpec(emitProbe, probeKeys, [], []));
    r := Ok(Config(probeIsLeft, build, probe));
  }

  // ---- Chunks of queued output, and the column builders they are written to ----

  /** The builder of one output column. */
  datatype Builder = Builder(vals: seq<Value>)

  /** Output rows pairing one probe row (or none) with a run of build rows (or none). */
  datatype OutputChunk = OutputChunk(
    rb: Option<seq<Row>>, wrappers: Option<seq<Row>>, numRows: nat, bbRowIdx: nat, probeRowIdx: nat)

  /** The chunk's rows exist and have the columns of their tables. */
  ghost predicate ChunkOk(plan: JoinPlan, c: OutputChunk) {
    && (c.rb.Some? ==> c.probeRowIdx < |c.rb.value| && plan.AreRows(plan.OrderedByLeft(), c.rb.value))
    && (c.wrappers.Some? ==>
          c.bbRowIdx + c.numRows <= |c.wrappers.value| && plan.AreRows(!plan.OrderedByLeft(), c.wrappers.value))
  }

  ghost predicate ChunksOk(plan: JoinPlan, chunks: seq<OutputChunk>) {
    forall c | c in chunks :: ChunkOk(plan, c)
  }

  ghost function RowAt(rows: Option<seq<Row>>, i: nat): Option<Row> {
    if rows.Some? && i < |rows.value| then Some(rows.value[i]) else None
  }

  /** The output rows that a chunk stands for. */
  ghost function ChunkRows(plan: JoinPlan, c: OutputChunk): (rows: seq<Row>)
    ensures |rows| == c.numRows
    ensures forall r: nat | r < |rows| ::
      rows[r] == plan.PairRow(RowAt(c.rb, c.probeRowIdx), RowAt(c.wrappers, c.bbRowIdx + r))
  {
    seq(c.numRows, r requires 0 <= r => plan.PairRow(RowAt(c.rb, c.probeRowIdx), RowAt(c.wrappers, c.bbRowIdx + r)))
  }

  ghost function ChunksRows(plan: JoinPlan, chunks: seq<OutputChunk>): seq<Row> {
    if chunks == [] then []
    else ChunksRows(plan, chunks[..|chunks| - 1]) + ChunkRows(plan, chunks[|chunks| - 1])
  }

  /** The values a chunk contributes to a column of its probe side or its build side. */
  function ChunkColumn(c: OutputChunk, probe: bool, col: nat, dflt: Value): (vals: seq<Value>)
    requires probe && c.rb.Some? ==> c.probeRowIdx < |c.rb.value| && col < |c.rb.value[c.probeRowIdx].cols|
    requires !probe && c.wrappers.Some? ==> c.bbRowIdx + c.numRows <= |c.wrappers.value|
    requires !probe && c.wrappers.Some? ==> forall r | 0 <= r < |c.wrappers.value| :: col < |c.wrappers.value[r].cols|
    ensures |vals| == c.numRows
  {
    if (if probe then c.rb.None? else c.wrappers.None?) then
      seq(c.numRows, _ => dflt)
    else if probe then
      var v := c.rb.value[c.probeRowIdx].cols[col];
      seq(c.numRows, _ => v)
    else
      var run := c.wrappers.value[c.bbRowIdx..c.bbRowIdx + c.numRows];
      seq(c.numRows, r requires 0 <= r < |run| && col < |run[r].cols| => run[r].cols[col])
  }

  lemma {:induction false} ColumnIn(plan: JoinPlan, left: bool, n: nat, i: nat)
    requires n <= |plan.outputColumns|
    ensures i in ColumnsOf(plan, left, n) <==> i < n && (plan.outputColumns[i].parent == 0) == left
  {
    if n > 0 { ColumnIn(plan, left, n - 1, i); }
  }

  lemma {:induction false} ColumnOnce(plan: JoinPlan, left: bool, n: nat, j: nat)
    requires n <= |plan.outputColumns| && j < |ColumnsOf(plan, left, n)|
    ensures ColumnsOf(plan, left, n)[j] !in ColumnsOf(plan, left, n)[..j]
  {
    var cols, init := ColumnsOf(plan, left, n), ColumnsOf(plan, left, n - 1);
    if j < |init| {
      ColumnOnce(plan, left, n - 1, j);
      assert cols[..j] == init[..j];
    } else {
      ColumnIn(plan, left, n - 1, n - 1);
      assert cols[..j] == init;
    }
  }

  lemma ChunkColumnIs(plan: JoinPlan, probe: bool, c: OutputChunk, i: nat)
    requires plan.Valid() && ChunkOk(plan, c) && i < |plan.outputColumns|
    requires (plan.outputColumns[i].parent == 0) == (plan.OrderedByLeft() == probe)
    ensures var col := plan.outputColumns[i].column;
      && (probe && c.rb.Some? ==> col < |c.rb.value[c.probeRowIdx].cols|)
      && (!probe && c.wrappers.Some? ==> forall r | 0 <= r < |c.wrappers.value| :: col < |c.wrappers.value[r].cols|)
      && ChunkColumn(c, probe, col, plan.Default(plan.outputColumns[i])) == ColumnValues(ChunkRows(plan, c), i)
  {
    var rows := ChunkRows(plan, c);
    var col := plan.outputColumns[i].column;
    forall r | 0 <= r < c.numRows
      ensures ChunkColumn(c, probe, col, plan.Default(plan.outputColumns[i]))[r] == ColumnValues(rows, i)[r]
    {
      assert rows[r] == plan.PairRow(RowAt(c.rb, c.probeRowIdx), RowAt(c.wrappers, c.bbRowIdx + r));
    }
  }

  /** Builder `i` has grown by its column of `rows` if it is done, and not changed otherwise. */
  ghost predicate Filled(was: seq<Builder>, now: seq<Builder>, done: seq<nat>, rows: seq<Row>, i: nat) {
    i < |was| && i < |now| ==>
      if i in done then now[i].vals == was[i].vals + ColumnValues(rows, i) else now[i] == was[i]
  }

  ghost predicate AllFilled(was: seq<Builder>, now: seq<Builder>, done: seq<nat>, rows: seq<Row>) {
    |now| == |was| && forall i: nat :: Filled(was, now, done, rows, i)
  }

  lemma FillNext(was: seq<Builder>, now: seq<Builder>, done: seq<nat>, rows: seq<Row>, i: nat, vals: seq<Value>)
    requires AllFilled(was, now, done, rows) && i < |was| && i !in done
    requires vals == now[i].vals + ColumnValues(rows, i)
    ensures AllFilled(was, now[i := Builder(vals)], done + [i], rows)
  {
    var next, more := now[i := Builder(vals)], done + [i];
    assert Filled(was, now, done, rows, i);
    forall k: nat ensures Filled(was, next, more, rows, k) {
      assert Filled(was, now, done, rows, k);
    }
  }

  /** Write the columns taken from one table, for all chunks, to the builders, column by column. */
  method AppendColumns(plan: JoinPlan, spec: TableSpec, left: bool, chunks: seq<OutputChunk>, builders: seq<Builder>)
    returns (builders': seq<Builder>)
    requires plan.Valid() && ChunksOk(plan, chunks) && |builders| == |plan.outputColumns|
    requires SpecFor(plan, left, spec)
    ensures |builders'| == |builders|
    ensures forall i | 0 <= i < |builders| && (plan.outputColumns[i].parent == 0) == left ::
      builders'[i].vals == builders[i].vals + ColumnValues(ChunksRows(plan, chunks), i)
    ensures forall i | 0 <= i < |builders| && (plan.outputColumns[i].parent == 0) != left ::
      builders'[i] == builders[i]
  {
    var cols := spec.outputColIndices;
    ghost var rows := ChunksRows(plan, chunks);
    builders' := builders;
    for j := 0 to |cols|
      invariant AllFilled(builders, builders', cols[..j], rows)
    {
      var i := cols[j];
      ColumnIn(plan, left, |plan.outputColumns|, i);
      ColumnOnce(plan, left, |plan.outputColumns|, j);
      TakeNext(cols, j);
      var values := AppendChunks(plan, left == plan.OrderedByLeft(), chunks, i, builders'[i].vals);
      FillNext(builders, builders', cols[..j], rows, i, values);
      builders' := builders'[i := Builder(values)];
    }
    TakeAll(cols);
    forall i: nat | i < |builders|
      ensures if (plan.outputColumns[i].parent == 0) == left
              then builders'[i].vals == builders[i].vals + ColumnValues(rows, i)
              else builders'[i] == builders[i]
    {
      ColumnIn(plan, left, |plan.outputColumns|, i);
      assert Filled(builders, builders', cols, rows, i);
    }
  }

  lemma ChunksSnoc(plan: JoinPlan, chunks: seq<OutputChunk>, c: OutputChunk)
    ensures ChunksRows(plan, chunks + [c]) == ChunksRows(plan, chunks) + ChunkRows(plan, c)
  {
    assert (chunks + [c])[..|chunks|] == chunks;
  }

  /** Append all chunks' values for output column `i` to its builder. */
  method AppendChunks(plan: JoinPlan, probe: bool, chunks: seq<OutputChunk>, i: nat, builder: seq<Value>)
    returns (builder': seq<Value>)
    requires plan.Valid() && ChunksOk(plan, chunks) && i < |plan.outputColumns|
    requires (plan.outputColumns[i].parent == 0) == (plan.OrderedByLeft() == probe)
    ensures builder' == builder + ColumnValues(ChunksRows(plan, chunks), i)
  {
    var c := plan.outputColumns[i];
    builder' := builder;
    for k := 0 to |chunks|
      invariant builder' == builder + ColumnValues(ChunksRows(plan, chunks[..k]), i)
    {
      ChunkColumnIs(plan, probe, chunks[k], i);
      assert chunks[..k + 1] == chunks[..k] + [chunks[k]];
      ChunksSnoc(plan, chunks[..k], chunks[k]);
      ColumnAppend(ChunksRows(plan, chunks[..k]), ChunkRows(plan, chunks[k]), i);
      Regroup(builder, ColumnValues(ChunksRows(plan, chunks[..k]), i), ColumnValues(ChunkRows(plan, chunks[k]), i));
      builder' := builder' + ChunkColumn(chunks[k], probe, c.column, plan.Default(c));
    }
    assert chunks[..|chunks|] == chunks;
  }

  /** Rows of a batch assembled from its columns. */
  function FromColumnBuilders(builders: seq<Builder>): (rows: seq<Row>)
    requires builders != [] && forall i | 0 <= i < |builders| :: |builders[i].vals| == |builders[0].vals|
  {
    seq(|builders[0].vals|, r requires 0 <= r < |builders[0].vals| &&
      (forall i | 0 <= i < |builders| :: |builders[i].vals| == |builders[0].vals|) =>
      Row(seq(|builders|, i requires 0 <= i < |builders| &&
        |builders[i].vals| == |builders[0].vals| => builders[i].vals[r])))
  }

  /** The builders hold the columns of some rows. */
  ghost predicate Holds(builders: seq<Builder>, rows: seq<Row>) {
    && builders != []
    && (forall r | 0 <= r < |rows| :: |rows[r].cols| == |builders|)
    && (forall i | 0 <= i < |builders| :: builders[i].vals == ColumnValues(rows, i))
  }

  ghost predicate AllEmpty(builders: seq<Builder>, n: nat) {
    |builders| == n && forall i | 0 <= i < n :: builders[i].vals == []
  }

  lemma {:induction false} ChunksRowsWidth(plan: JoinPlan, chunks: seq<OutputChunk>)
    ensures forall r | 0 <= r < |ChunksRows(plan, chunks)| :: |ChunksRows(plan, chunks)[r].cols| == |plan.outputColumns|
  {
    if chunks != [] { ChunksRowsWidth(plan, chunks[..|chunks| - 1]); }
  }

  lemma FromColumnsIs(rows: seq<Row>, builders: seq<Builder>)
    requires Holds(builders, rows)
    ensures forall i | 0 <= i < |builders| :: |builders[i].vals| == |builders[0].vals|
    ensures FromColumnBuilders(builders) == rows
  {
    forall r | 0 <= r < |rows| ensures FromColumnBuilders(builders)[r] == rows[r] {
      assert forall i | 0 <= i < |builders| :: FromColumnBuilders(builders)[r].cols[i] == ColumnValues(rows, i)[r];
    }
  }

  // ---- Runs of matching build rows ----

  /** Appending a chunk extends the run of pairs emitted so far by exactly the chunk's rows. */
  lemma ChunkTiles(plan: JoinPlan, c: OutputChunk, before: seq<Row>, now: seq<Row>)
    requires ChunkOk(plan, c) && c.wrappers.Some?
    requires now == before + plan.Pairs(RowAt(c.rb, c.probeRowIdx), c.wrappers.value[..c.bbRowIdx])
    ensures now + ChunkRows(plan, c) ==
            before + plan.Pairs(RowAt(c.rb, c.probeRowIdx), c.wrappers.value[..c.bbRowIdx + c.numRows])
  {
    var probe, w, a, b := RowAt(c.rb, c.probeRowIdx), c.wrappers.value, c.bbRowIdx, c.bbRowIdx + c.numRows;
    assert plan.Pairs(probe, w[..a]) + ChunkRows(plan, c) == plan.Pairs(probe, w[..b]);
  }

  /** The join key of a row of one table. */
  function KeyOf(spec: TableSpec, row: Row): Key
    requires forall i | 0 <= i < |spec.keyIndices| :: spec.keyIndices[i] < |row.cols|
  {
    Key(seq(|spec.keyIndices|, i requires 0 <= i < |spec.keyIndices| &&
      spec.keyIndices[i] < |row.cols| => row.cols[spec.keyIndices[i]]))
  }

  lemma KeyOfIsKey(plan: JoinPlan, left: bool, spec: TableSpec, row: Row)
    requires plan.Valid() && SpecFor(plan, left, spec) && plan.IsRow(left, row)
    ensures forall i | 0 <= i < |spec.keyIndices| :: spec.keyIndices[i] < |row.cols|
    ensures KeyOf(spec, row) == plan.KeyOf(left, row)
  {
  }

  // ---- The hash table ----

  function Count(counts: map<Key, nat>, k: Key): nat {
    if k in counts then counts[k] else 0
  }

  function Lookup(table: map<Key, seq<Row>>, k: Key): Option<seq<Row>> {
    if k in table then Some(table[k]) else None
  }

  /** What the hash table holds for one key: the build rows with that key in arrival order, and their number. */
  ghost predicate TableEntry(plan: JoinPlan, rows: seq<Row>, table: map<Key, seq<Row>>, counts: map<Key, nat>, k: Key) {
    if k in table then k in counts && table[k] == plan.Matches(rows, k) != [] && counts[k] == |table[k]|
    else k !in counts && plan.Matches(rows, k) == []
  }

  ghost predicate IsTable(plan: JoinPlan, rows: seq<Row>, table: map<Key, seq<Row>>, counts: map<Key, nat>) {
    forall k :: TableEntry(plan, rows, table, counts, k)
  }

  /** A key counts as probed exactly when it is in the table and some probe row has it. */
  ghost predicate ProbedEntry(plan: JoinPlan, probes: seq<Row>, table: map<Key, seq<Row>>, probedKeys: set<Key>,
                              k: Key) {
    k in probedKeys <==> k in table && plan.ProbesKey(probes, k)
  }

  ghost predicate AreProbed(plan: JoinPlan, probes: seq<Row>, table: map<Key, seq<Row>>, probedKeys: set<Key>) {
    forall k :: ProbedEntry(plan, probes, table, probedKeys, k)
  }

  /** Before any probing, no key counts as probed, whatever the table holds. */
  lemma NoneProbed(plan: JoinPlan, table: map<Key, seq<Row>>, table': map<Key, seq<Row>>, probedKeys: set<Key>)
    requires AreProbed(plan, [], table, probedKeys)
    ensures AreProbed(plan, [], table', probedKeys)
  {
    forall k ensures ProbedEntry(plan, [], table', probedKeys, k) {
      assert ProbedEntry(plan, [], table, probedKeys, k);
    }
  }

  lemma MatchesSnoc(plan: JoinPlan, rows: seq<Row>, row: Row, k: Key)
    ensures plan.Matches(rows + [row], k) == plan.Matches(rows, k) + if plan.BuildKey(row) == k then [row] else []
  {
    assert (rows + [row])[..|rows|] == rows;
  }

  lemma ProbesKeySnoc(plan: JoinPlan, rows: seq<Row>, row: Row, k: Key)
    ensures plan.ProbesKey(rows + [row], k) <==> plan.ProbesKey(rows, k) || plan.ProbeKey(row) == k
  {
    assert (rows + [row])[..|rows|] == rows;
  }

  lemma ProbedStep(plan: JoinPlan, rows: seq<Row>, row: Row, table: map<Key, seq<Row>>, probedKeys: set<Key>)
    requires AreProbed(plan, rows, table, probedKeys)
    ensures var k := plan.ProbeKey(row);
      AreProbed(plan, rows + [row], table, if k in table then probedKeys + {k} else probedKeys)
  {
    var hit := plan.ProbeKey(row);
    var probedKeys' := if hit in table then probedKeys + {hit} else probedKeys;
    forall k ensures ProbedEntry(plan, rows + [row], table, probedKeys', k) {
      assert ProbedEntry(plan, rows, table, probedKeys, k);
      ProbesKeySnoc(plan, rows, row, k);
    }
  }

  lemma NestedLoopSnoc(plan: JoinPlan, probes: seq<Row>, row: Row, builds: seq<Row>)
    ensures plan.NestedLoop(probes + [row], builds) == plan.NestedLoop(probes, builds) + plan.JoinOne(row, builds)
  {
    assert (probes + [row])[..|probes|] == probes;
  }

  lemma TableInsert(plan: JoinPlan, rows: seq<Row>, row: Row, table: map<Key, seq<Row>>, counts: map<Key, nat>)
    requires IsTable(plan, rows, table, counts)
    ensures var k := plan.BuildKey(row);
      IsTable(plan, rows + [row], table[k := (if k in table then table[k] else []) + [row]],
              counts[k := (if k in counts then counts[k] else 0) + 1])
  {
    var key := plan.BuildKey(row);
    var table' := table[key := (if key in table then table[key] else []) + [row]];
    var counts' := counts[key := (if key in counts then counts[key] else 0) + 1];
    forall k ensures TableEntry(plan, rows + [row], table', counts', k) {
      assert TableEntry(plan, rows, table, counts, k);
      MatchesSnoc(plan, rows, row, k);
    }
  }

  /** One probe row against the table, by looking up its key in the hash table. */
  lemma JoinOneByTable(plan: JoinPlan, row: Row, builds: seq<Row>, table: map<Key, seq<Row>>, counts: map<Key, nat>)
    requires IsTable(plan, builds, table, counts)
    ensures var k := plan.ProbeKey(row);
      if k in table then Count(counts, k) == |table[k]| && plan.JoinOne(row, builds) == plan.Pairs(Some(row), table[k])
      else plan.JoinOne(row, builds) ==
           if plan.KeepsUnmatched(plan.OrderedByLeft()) then [plan.PairRow(Some(row), None)] else []
  {
    assert TableEntry(plan, builds, table, counts, plan.ProbeKey(row));
  }

  lemma {:induction false} MatchesAreRows(plan: JoinPlan, builds: seq<Row>, k: Key)
    requires plan.AreRows(!plan.OrderedByLeft(), builds)
    ensures plan.AreRows(!plan.OrderedByLeft(), plan.Matches(builds, k))
  {
    if builds != [] { MatchesAreRows(plan, builds[..|builds| - 1], k); }
  }

  lemma UnmatchedSnoc(plan: JoinPlan, ks: seq<Key>, k: Key, builds: seq<Row>)
    ensures plan.Unmatched(ks + [k], builds) == plan.Unmatched(ks, builds) + plan.Pairs(None, plan.Matches(builds, k))
  {
    assert (ks + [k])[..|ks|] == ks;
  }

  /** `ks` lists the elements of a set, each once. */
  ghost predicate ListsRest(ks: seq<Key>, keys: set<Key>) {
    && (forall i, j | 0 <= i < j < |ks| :: ks[i] != ks[j])
    && (forall k :: k in ks <==> k in keys)
  }

  lemma UnprobedKeys(plan: JoinPlan, ks: seq<Key>, probes: seq<Row>, builds: seq<Row>,
                     table: map<Key, seq<Row>>, counts: map<Key, nat>, probedKeys: set<Key>)
    requires IsTable(plan, builds, table, counts) && AreProbed(plan, probes, table, probedKeys)
    requires ListsRest(ks, table.Keys - probedKeys)
    ensures plan.ListsUnmatchedKeys(ks, probes, builds)
  {
    forall k ensures k in ks <==> plan.Matches(builds, k) != [] && !plan.ProbesKey(probes, k) {
      assert TableEntry(plan, builds, table, counts, k) && ProbedEntry(plan, probes, table, probedKeys, k);
    }
  }

  lemma ListsRestStep(ks: seq<Key>, all: set<Key>, keys: set<Key>, probed: set<Key>, k: Key)
    requires keys <= all && k in keys && ListsRest(ks, all - keys - probed)
    ensures k in probed ==> ListsRest(ks, all - (keys - {k}) - probed)
    ensures k !in probed ==> ListsRest(ks + [k], all - (keys - {k}) - probed)
  {
    assert forall x :: x in ks + [k] <==> x in ks || x == k;
    assert k !in ks;
  }

  // ---- The sent stream ----

  /** A batch that is not the last one: 1 to the limit rows, no end markers. */
  ghost predicate FullBatch(limit: nat, b: RowBatch<Row>) {
    !b.eos && !b.eow && 1 <= |b.rows| <= limit
  }

  ghost predicate AllFull(limit: nat, sent: seq<RowBatch<Row>>) {
    forall b | b in sent :: FullBatch(limit, b)
  }

  /** A finished stream of full batches; only an empty join sends a single batch without rows. */
  ghost predicate IsFinished(limit: nat, sent: seq<RowBatch<Row>>) {
    && WellFormed(sent)
    && AllFull(limit, sent[..|sent| - 1])
    && |sent[|sent| - 1].rows| <= limit
    && (sent[|sent| - 1].rows == [] ==> |sent| == 1)
  }

  lemma LastBatch(limit: nat, sent: seq<RowBatch<Row>>, pending: Option<RowBatch<Row>>)
    requires AllFull(limit, sent)
    requires if pending.None? then sent == [] else FullBatch(limit, pending.value)
    ensures var last := if pending.None? then RowBatch([], true, true) else pending.value.(eos := true, eow := true);
      IsFinished(limit, sent + [last]) &&
        Rows(sent + [last]) == Rows(sent) + if pending.None? then [] else pending.value.rows
  {
    var last := if pending.None? then RowBatch([], true, true) else pending.value.(eos := true, eow := true);
    RowsSnoc(sent, last);
    assert (sent + [last])[..|sent|] == sent;
    assert forall i | 0 <= i < |sent| :: sent[i] in sent;
  }

  /** Taking the batch that has waited longest. */
  lemma {:induction false} FrontRows(plan: JoinPlan, probed: seq<Row>, queue: seq<RowBatch<Row>>)
    requires WellFormedPrefix(queue) && queue != [] && plan.AreRows(plan.OrderedByLeft(), Rows(queue))
    ensures plan.AreRows(plan.OrderedByLeft(), queue[0].rows) && plan.AreRows(plan.OrderedByLeft(), Rows(queue[1..]))
    ensures WellFormedPrefix(queue[1..])
    ensures queue[0].eos ==> queue[1..] == []
    ensures Ended(queue) == (queue[0].eos || Ended(queue[1..]))
    ensures (probed + queue[0].rows) + Rows(queue[1..]) == probed + Rows(queue)
  {
    RowsCons(queue);
    Regroup(probed, queue[0].rows, Rows(queue[1..]));
    var all, rest := Rows(queue), Rows(queue[1..]);
    assert forall i | 0 <= i < |queue[0].rows| :: queue[0].rows[i] == all[i];
    assert forall i | 0 <= i < |rest| :: rest[i] == all[|queue[0].rows| + i];
  }

  lemma WaitingSnoc(plan: JoinPlan, queue: seq<RowBatch<Row>>, rb: RowBatch<Row>)
    requires WellFormedPrefix(queue) && !Ended(queue) && plan.AreRows(plan.OrderedByLeft(), Rows(queue))
    requires plan.AreRows(plan.OrderedByLeft(), rb.rows) && (rb.eos ==> rb.eow)
    ensures WellFormedPrefix(queue + [rb]) && plan.AreRows(plan.OrderedByLeft(), Rows(queue + [rb]))
    ensures Rows(queue + [rb]) == Rows(queue) + rb.rows && Ended(queue + [rb]) == rb.eos
  {
    RowsSnoc(queue, rb);
  }

  // ---- Facts that are carried along as they stand ----

  /** Always true, as CitedQueue; a fact that quantifies over it is unfolded only where a proof asserts an instance. */
  ghost predicate CitedLoop(n: int) { true }

  ghost predicate CitedQueue(n: int) { true }

  /** `out` is the nested loop. */
  ghost predicate IsLoop(plan: JoinPlan, out: seq<Row>, probes: seq<Row>, builds: seq<Row>) {
    forall n: int {:trigger CitedLoop(n)} :: CitedLoop(n) ==> out == plan.NestedLoop(probes, builds)
  }

  ghost predicate QueueHolds(plan: JoinPlan, limit: nat, out: seq<Row>, queued: nat, chunks: seq<OutputChunk>,
                             builders: seq<Builder>, pending: Option<RowBatch<Row>>, sent: seq<RowBatch<Row>>) {
    forall n: int {:trigger CitedQueue(n)} :: CitedQueue(n) ==>
      QueueOk(plan, limit, out, queued, chunks, builders, pending, sent)
  }

  ghost function PendingRows(pending: Option<RowBatch<Row>>): seq<Row> {
    if pending.Some? then pending.value.rows else []
  }

  /** What was sent, the pending batch and the chunks make up `out`; all batches so far are full and none is last. */
  ghost predicate QueueOk(plan: JoinPlan, limit: nat, out: seq<Row>, queued: nat, chunks: seq<OutputChunk>,
                          builders: seq<Builder>, pending: Option<RowBatch<Row>>, sent: seq<RowBatch<Row>>) {
    && ChunksOk(plan, chunks) && queued == |ChunksRows(plan, chunks)|
    && out == Rows(sent) + PendingRows(pending) + ChunksRows(plan, chunks)
    && AllEmpty(builders, |plan.outputColumns|)
    && (pending.Some? ==> FullBatch(limit, pending.value))
    && (pending.None? ==> sent == [])
    && AllFull(limit, sent)
  }

  lemma QueuePush(plan: JoinPlan, limit: nat, out: seq<Row>, queued: nat, chunks: seq<OutputChunk>,
                  builders: seq<Builder>, pending: Option<RowBatch<Row>>, sent: seq<RowBatch<Row>>, c: OutputChunk)
    requires QueueHolds(plan, limit, out, queued, chunks, builders, pending, sent) && ChunkOk(plan, c)
    ensures QueueHolds(plan, limit, out + ChunkRows(plan, c), queued + c.numRows, chunks + [c], builders, pending, sent)
  {
    assert CitedQueue(0);
    ChunksSnoc(plan, chunks, c);
    Regroup(Rows(sent) + PendingRows(pending), ChunksRows(plan, chunks), ChunkRows(plan, c));
  }

  lemma QueueFlush(plan: JoinPlan, limit: nat, out: seq<Row>, queued: nat, chunks: seq<OutputChunk>,
                   builders: seq<Builder>, pending: Option<RowBatch<Row>>, sent: seq<RowBatch<Row>>,
                   empty: seq<Builder>, next: Option<RowBatch<Row>>, sent': seq<RowBatch<Row>>)
    requires QueueHolds(plan, limit, out, queued, chunks, builders, pending, sent) && 0 < queued <= limit
    requires AllEmpty(empty, |plan.outputColumns|) && next == Some(RowBatch(ChunksRows(plan, chunks), false, false))
    requires sent' == sent + if pending.Some? then [pending.value] else []
    ensures QueueHolds(plan, limit, out, 0, [], empty, next, sent')
  {
    assert CitedQueue(0);
    if pending.Some? {
      RowsSnoc(sent, pending.value);
    } else {
      assert sent' == sent;
    }
  }

  lemma QueueEnd(plan: JoinPlan, limit: nat, out: seq<Row>, queued: nat, chunks: seq<OutputChunk>,
                 builders: seq<Builder>, pending: Option<RowBatch<Row>>, sent: seq<RowBatch<Row>>)
    requires QueueHolds(plan, limit, out, queued, chunks, builders, pending, sent) && queued == 0
    ensures var last := if pending.None? then RowBatch([], true, true) else pending.value.(eos := true, eow := true);
      IsFinished(limit, sent + [last]) && Rows(sent + [last]) == out
  {
    assert CitedQueue(0);
    LastBatch(limit, sent, pending);
  }

  /** The builders, filled from all chunks, hold the chunks' rows. */
  lemma BuiltRows(plan: JoinPlan, chunks: seq<OutputChunk>, builders: seq<Builder>)
    requires builders != [] && |builders| == |plan.outputColumns|
    requires forall i | 0 <= i < |builders| :: builders[i].vals == [] + ColumnValues(ChunksRows(plan, chunks), i)
    ensures Holds(builders, ChunksRows(plan, chunks))
  {
    ChunksRowsWidth(plan, chunks);
  }

  class EquijoinNode {
    const plan: JoinPlan
    const config: Config

    var buildEos: bool
    var probeEos: bool
    var queuedRows: nat
    var chunks: seq<OutputChunk>
    /** Probe batches that arrived before the build side ended. */
    var probeBatches: seq<RowBatch<Row>>
    /** One builder per output column. */
    var columnBuilders: seq<Builder>
    var buildBuffer: map<Key, seq<Row>>
    var buildBufferRows: map<Key, nat>
    var probedKeys: set<Key>
    var pendingOutputBatch: Option<RowBatch<Row>>
    /** Batches delivered to the children. */
    var sent: seq<RowBatch<Row>>

    /** All rows output so far, whether sent, pending or queued. */
    ghost var out: seq<Row>
    ghost var buildArrived: seq<Row>
    ghost var probed: seq<Row>
    ghost var emittedKeys: seq<Key>

    function OutputRowsPerBatch(): (n: nat)
      ensures n > 0
    {
      if plan.rowsPerBatch == 0 then DEFAULT_JOIN_ROW_BATCH_SIZE else plan.rowsPerBatch
    }

    ghost predicate Configured() {
      && plan.Valid()
      && config.probeIsLeft == plan.OrderedByLeft()
      && SpecFor(plan, plan.OrderedByLeft(), config.probeSpec)
      && SpecFor(plan, !plan.OrderedByLeft(), config.buildSpec)
    }

    /** The output queue is in order and holds room for at most one batch of chunks. */
    ghost predicate Queue()
      reads this`out, this`chunks, this`queuedRows, this`columnBuilders, this`pendingOutputBatch, this`sent
    {
      && Configured() && queuedRows <= OutputRowsPerBatch() && |columnBuilders| > 0 && columnBuilders[0].vals == []
      && QueueHolds(plan, OutputRowsPerBatch(), out, queuedRows, chunks, columnBuilders, pendingOutputBatch, sent)
    }

    /** Turn the builders into the pending batch, sending the previous pending batch. */
    method NextOutputBatch(ghost rows: seq<Row>)
      requires Configured() && Holds(columnBuilders, rows)
      modifies this`columnBuilders, this`pendingOutputBatch, this`sent
      ensures AllEmpty(columnBuilders, |plan.outputColumns|)
      ensures pendingOutputBatch == Some(RowBatch(rows, false, false))
      ensures sent == old(sent) + if old(pendingOutputBatch).Some? then [old(pendingOutputBatch).value] else []
    {
      FromColumnsIs(rows, columnBuilders);
      var outputBatch := RowBatch(FromColumnBuilders(columnBuilders), false, false);
      if pendingOutputBatch.Some? {
        sent := sent + [pendingOutputBatch.value];
      }
      pendingOutputBatch := Some(outputBatch);
      columnBuilders := seq(|plan.outputColumns|, _ => Builder([]));
    }

    /** The builders after all chunks are written: first the build columns, then the probe columns. */
    method FillBuilders() returns (builders: seq<Builder>)
      requires Queue()
      ensures Holds(builders, ChunksRows(plan, chunks))
    {
      assert CitedQueue(0);
      builders := AppendColumns(plan, config.buildSpec, !config.probeIsLeft, chunks, columnBuilders);
      builders := AppendColumns(plan, config.probeSpec, config.probeIsLeft, chunks, builders);
      BuiltRows(plan, chunks, builders);
    }

    /** Write the queued chunks to the builders and make them the next batch. */
    method FlushChunkedRows()
      requires Queue() && queuedRows > 0
      modifies this`columnBuilders, this`pendingOutputBatch, this`sent, this`chunks, this`queuedRows
      ensures Queue() && queuedRows == 0
    {
      ghost var was, queued, builders0, pending0, sent0 := chunks, queuedRows, columnBuilders, pendingOutputBatch, sent;
      columnBuilders := FillBuilders();
      NextOutputBatch(ChunksRows(plan, chunks));
      QueueFlush(plan, OutputRowsPerBatch(), out, queued, was, builders0, pending0, sent0, columnBuilders,
        pendingOutputBatch, sent);
      chunks := [];
      queuedRows := 0;
    }

    /** Queue a chunk, which may leave the queue full. */
    method PushChunk(c: OutputChunk)
      requires Queue() && ChunkOk(plan, c) && queuedRows + c.numRows <= OutputRowsPerBatch()
      modifies this`out, this`chunks, this`queuedRows
      ensures Queue() && out == old(out) + ChunkRows(plan, c)
      ensures queuedRows == old(queuedRows) + c.numRows
    {
      QueuePush(plan, OutputRowsPerBatch(), out, queuedRows, chunks, columnBuilders, pendingOutputBatch, sent, c);
      chunks := chunks + [c];
      queuedRows := queuedRows + c.numRows;
      out := out + ChunkRows(plan, c);
    }

    /** Queue a chunk, flushing if that fills a batch. */
    method QueueChunk(c: OutputChunk)
      requires Queue() && ChunkOk(plan, c) && queuedRows + c.numRows <= OutputRowsPerBatch()
      modifies this`out, this`columnBuilders, this`pendingOutputBatch, this`sent, this`chunks, this`queuedRows
      ensures Queue() && queuedRows < OutputRowsPerBatch()
      ensures out == old(out) + ChunkRows(plan, c)
    {
      PushChunk(c);
      if queuedRows == OutputRowsPerBatch() {
        FlushChunkedRows();
      }
    }

    /** Queue as many of the remaining matches as fit into the current batch; at least one does. */
    method QueueRun(wrappers: seq<Row>, probeRb: Option<seq<Row>>, probeRbRow: nat, start: nat, bbRowsLeft: nat,
                    ghost before: seq<Row>) returns (chunkRows: nat)
      requires Queue() && queuedRows < OutputRowsPerBatch()
      requires 0 < bbRowsLeft && start + bbRowsLeft <= |wrappers| && plan.AreRows(!plan.OrderedByLeft(), wrappers)
      requires ChunkOk(plan, OutputChunk(probeRb, None, 0, 0, probeRbRow))
      requires out == before + plan.Pairs(RowAt(probeRb, probeRbRow), wrappers[..start])
      modifies this`out, this`columnBuilders, this`pendingOutputBatch, this`sent, this`chunks, this`queuedRows
      ensures Queue() && queuedRows < OutputRowsPerBatch()
      ensures 0 < chunkRows <= bbRowsLeft
      ensures out == before + plan.Pairs(RowAt(probeRb, probeRbRow), wrappers[..start + chunkRows])
    {
      var available := OutputRowsPerBatch() - (|columnBuilders[0].vals| + queuedRows);
      chunkRows := if bbRowsLeft < available then bbRowsLeft else available;
      var c := OutputChunk(probeRb, Some(wrappers), chunkRows, start, probeRbRow);
      ChunkTiles(plan, c, before, out);
      QueueChunk(c);
    }

    /** Queue one output row per matching build row, flushing whenever a batch is full. */
    method MatchBuildValuesAndFlush(wrappers: seq<Row>, probeRb: Option<seq<Row>>, probeRbRow: nat, matchingBbRows: nat)
      requires Queue() && queuedRows < OutputRowsPerBatch()
      requires matchingBbRows <= |wrappers| && plan.AreRows(!plan.OrderedByLeft(), wrappers)
      requires ChunkOk(plan, OutputChunk(probeRb, None, 0, 0, probeRbRow))
      modifies this`out, this`columnBuilders, this`pendingOutputBatch, this`sent, this`chunks, this`queuedRows
      ensures Queue() && queuedRows < OutputRowsPerBatch()
      ensures out == old(out) + plan.Pairs(RowAt(probeRb, probeRbRow), wrappers[..matchingBbRows])
    {
      ghost var before := out;
      var bbRowsLeft := matchingBbRows;
      while bbRowsLeft > 0
        invariant 0 <= bbRowsLeft <= matchingBbRows
        invariant Queue() && queuedRows < OutputRowsPerBatch()
        invariant out == before + plan.Pairs(RowAt(probeRb, probeRbRow), wrappers[..matchingBbRows - bbRowsLeft])
      {
        var chunkRows := QueueRun(wrappers, probeRb, probeRbRow, matchingBbRows - bbRowsLeft, bbRowsLeft, before);
        bbRowsLeft := bbRowsLeft - chunkRows;
      }
    }

    // ---- Build phase ----

    ghost predicate Built()
      reads this`buildBuffer, this`buildBufferRows, this`buildArrived
    {
      Configured() && plan.AreRows(!plan.OrderedByLeft(), buildArrived) &&
      IsTable(plan, buildArrived, buildBuffer, buildBufferRows)
    }

    /** Add the rows of a build batch to the hash table. */
    method HashRowBatch(rb: RowBatch<Row>)
      requires Built() && plan.AreRows(!plan.OrderedByLeft(), rb.rows)
      modifies this`buildBuffer, this`buildBufferRows, this`buildArrived
      ensures Built() && buildArrived == old(buildArrived) + rb.rows
    {
      for i := 0 to |rb.rows|
        invariant Built() && buildArrived == old(buildArrived) + rb.rows[..i]
      {
        var row := rb.rows[i];
        TakeNext(rb.rows, i);
        Regroup(old(buildArrived), rb.rows[..i], [row]);
        KeyOfIsKey(plan, !plan.OrderedByLeft(), config.buildSpec, row);
        var key := KeyOf(config.buildSpec, row);
        TableInsert(plan, buildArrived, row, buildBuffer, buildBufferRows);
        var current := if key in buildBuffer then buildBuffer[key] else [];
        var rows := if key in buildBufferRows then buildBufferRows[key] else 0;
        buildBuffer := buildBuffer[key := current + [row]];
        buildBufferRows := buildBufferRows[key := rows + 1];
        buildArrived := buildArrived + [row];
      }
      TakeAll(rb.rows);
    }

    // ---- Probe phase ----

    /** Queue a probe row without a partner; the batch is flushed later if this fills it. */
    method QueueUnmatched(rows: seq<Row>, rowIdx: nat)
      requires Queue() && queuedRows < OutputRowsPerBatch()
      requires rowIdx < |rows| && plan.AreRows(plan.OrderedByLeft(), rows)
      modifies this`out, this`chunks, this`queuedRows
      ensures Queue()
      ensures out == old(out) + [plan.PairRow(Some(rows[rowIdx]), None)]
    {
      var c := OutputChunk(Some(rows), None, 1, 0, rowIdx);
      assert ChunkRows(plan, c) == [plan.PairRow(Some(rows[rowIdx]), None)];
      PushChunk(c);
    }

    /** Queue the output of one probe row, given what the hash table holds for its key. */
    method ProbeOne(rows: seq<Row>, rowIdx: nat, wrappers: Option<seq<Row>>, matchingBbRows: nat)
      requires Queue() && Built() && rowIdx < |rows| && plan.AreRows(plan.OrderedByLeft(), rows)
      requires wrappers == Lookup(buildBuffer, plan.ProbeKey(rows[rowIdx]))
      requires matchingBbRows == Count(buildBufferRows, plan.ProbeKey(rows[rowIdx]))
      modifies this`out, this`columnBuilders, this`pendingOutputBatch, this`sent, this`chunks, this`queuedRows
      ensures Queue()
      ensures out == old(out) + plan.JoinOne(rows[rowIdx], buildArrived)
    {
      JoinOneByTable(plan, rows[rowIdx], buildArrived, buildBuffer, buildBufferRows);
      if queuedRows >= OutputRowsPerBatch() - |columnBuilders[0].vals| {
        FlushChunkedRows();
      }
      if wrappers.None? {
        if config.probeSpec.emitUnmatchedRows {
          QueueUnmatched(rows, rowIdx);
        }
      } else {
        assert TableEntry(plan, buildArrived, buildBuffer, buildBufferRows, plan.ProbeKey(rows[rowIdx]));
        MatchesAreRows(plan, buildArrived, plan.ProbeKey(rows[rowIdx]));
        TakeAll(wrappers.value);
        MatchBuildValuesAndFlush(wrappers.value, Some(rows), rowIdx, matchingBbRows);
      }
    }

    method LookupRow(row: Row, ghost before: seq<Row>) returns (wrapper: Option<seq<Row>>)
      requires Built() && plan.IsRow(plan.OrderedByLeft(), row)
      requires AreProbed(plan, before, buildBuffer, probedKeys)
      modifies this`probedKeys
      ensures wrapper == Lookup(buildBuffer, plan.ProbeKey(row))
      ensures AreProbed(plan, before + [row], buildBuffer, probedKeys)
    {
      KeyOfIsKey(plan, plan.OrderedByLeft(), config.probeSpec, row);
      ProbedStep(plan, before, row, buildBuffer, probedKeys);
      var key := KeyOf(config.probeSpec, row);
      wrapper := None;
      if key in buildBuffer {
        wrapper := Some(buildBuffer[key]);
        probedKeys := probedKeys + {key};
      }
    }

    /** Look up every row of a probe batch, noting the keys that were hit. */
    method LookupRows(rows: seq<Row>, ghost before: seq<Row>) returns (wrappers: seq<Option<seq<Row>>>)
      requires Built() && plan.AreRows(plan.OrderedByLeft(), rows)
      requires AreProbed(plan, before, buildBuffer, probedKeys)
      modifies this`probedKeys
      ensures |wrappers| == |rows|
      ensures forall i | 0 <= i < |rows| :: wrappers[i] == Lookup(buildBuffer, plan.ProbeKey(rows[i]))
      ensures AreProbed(plan, before + rows, buildBuffer, probedKeys)
    {
      wrappers := [];
      assert before + rows[..0] == before;
      for i := 0 to |rows|
        invariant |wrappers| == i
        invariant forall j | 0 <= j < i :: wrappers[j] == Lookup(buildBuffer, plan.ProbeKey(rows[j]))
        invariant AreProbed(plan, before + rows[..i], buildBuffer, probedKeys)
      {
        TakeNext(rows, i);
        Regroup(before, rows[..i], [rows[i]]);
        var wrapper := LookupRow(rows[i], before + rows[..i]);
        wrappers := wrappers + [wrapper];
      }
      TakeAll(rows);
    }

    /** The output so far is the nested loop of the probed rows over the complete build table. */
    ghost predicate Probing()
      reads this`out, this`probed, this`probedKeys, this`buildArrived, this`buildBuffer
    {
      && IsLoop(plan, out, probed, buildArrived)
      && AreProbed(plan, probed, buildBuffer, probedKeys)
    }

    method MatchingRows(row: Row) returns (n: nat)
      requires Built() && plan.IsRow(plan.OrderedByLeft(), row)
      ensures n == Count(buildBufferRows, plan.ProbeKey(row))
    {
      KeyOfIsKey(plan, plan.OrderedByLeft(), config.probeSpec, row);
      var key := KeyOf(config.probeSpec, row);
      n := Count(buildBufferRows, key);
    }

    /** Probe one row and add it to the nested loop. */
    method ProbeNext(rows: seq<Row>, i: nat, wrappers: Option<seq<Row>>)
      requires Queue() && Built() && i < |rows| && plan.AreRows(plan.OrderedByLeft(), rows)
      requires wrappers == Lookup(buildBuffer, plan.ProbeKey(rows[i]))
      requires IsLoop(plan, out, probed, buildArrived)
      modifies this`out, this`columnBuilders, this`pendingOutputBatch, this`sent, this`chunks, this`queuedRows,
               this`probed
      ensures Queue() && probed == old(probed) + [rows[i]]
      ensures IsLoop(plan, out, probed, buildArrived)
    {
      assert CitedLoop(0);
      var matching := MatchingRows(rows[i]);
      ProbeOne(rows, i, wrappers, matching);
      NestedLoopSnoc(plan, probed, rows[i], buildArrived);
      probed := probed + [rows[i]];
    }

    /** Probe the rows of a batch in order. */
    method ProbeRows(rows: seq<Row>, wrappers: seq<Option<seq<Row>>>)
      requires Queue() && Built() && plan.AreRows(plan.OrderedByLeft(), rows)
      requires |wrappers| == |rows|
      requires forall i | 0 <= i < |rows| :: wrappers[i] == Lookup(buildBuffer, plan.ProbeKey(rows[i]))
      requires IsLoop(plan, out, probed, buildArrived)
      modifies this`out, this`columnBuilders, this`pendingOutputBatch, this`sent, this`chunks, this`queuedRows,
               this`probed
      ensures Queue() && probed == old(probed) + rows
      ensures IsLoop(plan, out, probed, buildArrived)
    {
      ghost var before := probed;
      for i := 0 to |rows|
        invariant Queue() && probed == before + rows[..i]
        invariant IsLoop(plan, out, probed, buildArrived)
      {
        TakeNext(rows, i);
        Regroup(before, rows[..i], [rows[i]]);
        ProbeNext(rows, i, wrappers[i]);
      }
      TakeAll(rows);
    }

    /** Look up and probe the rows of a batch. */
    method ProbeBatch(rows: seq<Row>)
      requires Queue() && Built() && Probing() && plan.AreRows(plan.OrderedByLeft(), rows)
      modifies this`out, this`columnBuilders, this`pendingOutputBatch, this`sent, this`chunks, this`queuedRows
      modifies this`probedKeys, this`probed
      ensures Queue() && Probing()
      ensures probed == old(probed) + rows
    {
      var wrappers := LookupRows(rows, probed);
      ProbeRows(rows, wrappers);
    }

    method DoProbe(rb: RowBatch<Row>)
      requires Queue() && Built() && Probing() && !probeEos
      requires plan.AreRows(plan.OrderedByLeft(), rb.rows)
      modifies this`out, this`columnBuilders, this`pendingOutputBatch, this`sent, this`chunks, this`queuedRows
      modifies this`probedKeys, this`probed, this`probeEos
      ensures Queue() && Probing()
      ensures probed == old(probed) + rb.rows && probeEos == rb.eos
      ensures probeEos ==> queuedRows == 0
    {
      if rb.eos { probeEos := true; }
      ProbeBatch(rb.rows);
      if probeEos && queuedRows > 0 {
        FlushChunkedRows();
      }
    }

    // ---- End of the join ----

    /** Emit the rows of one build key that was never probed. */
    method EmitKey(k: Key)
      requires Queue() && Built() && queuedRows < OutputRowsPerBatch() && k in buildBuffer
      requires out == plan.NestedLoop(probed, buildArrived) + plan.Unmatched(emittedKeys, buildArrived)
      modifies this`out, this`columnBuilders, this`pendingOutputBatch, this`sent, this`chunks, this`queuedRows,
               this`emittedKeys
      ensures Queue() && queuedRows < OutputRowsPerBatch() && emittedKeys == old(emittedKeys) + [k]
      ensures out == plan.NestedLoop(probed, buildArrived) + plan.Unmatched(emittedKeys, buildArrived)
    {
      var wrappers := buildBuffer[k];
      assert TableEntry(plan, buildArrived, buildBuffer, buildBufferRows, k);
      MatchesAreRows(plan, buildArrived, k);
      TakeAll(wrappers);
      MatchBuildValuesAndFlush(wrappers, None, 0, buildBufferRows[k]);
      UnmatchedSnoc(plan, emittedKeys, k, buildArrived);
      Regroup(plan.NestedLoop(probed, buildArrived), plan.Unmatched(emittedKeys, buildArrived),
        plan.Pairs(None, wrappers));
      emittedKeys := emittedKeys + [k];
    }

    /** Visit one of the build keys that are left. */
    method EmitUnlessProbed(k: Key, ghost keys: set<Key>)
      requires Queue() && Built() && queuedRows < OutputRowsPerBatch() && keys <= buildBuffer.Keys && k in keys
      requires out == plan.NestedLoop(probed, buildArrived) + plan.Unmatched(emittedKeys, buildArrived)
      requires ListsRest(emittedKeys, buildBuffer.Keys - keys - probedKeys)
      modifies this`out, this`columnBuilders, this`pendingOutputBatch, this`sent, this`chunks, this`queuedRows
      modifies this`emittedKeys
      ensures Queue() && queuedRows < OutputRowsPerBatch()
      ensures out == plan.NestedLoop(probed, buildArrived) + plan.Unmatched(emittedKeys, buildArrived)
      ensures ListsRest(emittedKeys, buildBuffer.Keys - (keys - {k}) - probedKeys)
    {
      ListsRestStep(emittedKeys, buildBuffer.Keys, keys, probedKeys, k);
      if k !in probedKeys {
        EmitKey(k);
      }
    }

    /** Emit the build rows whose key was never probed, in any order of the keys. */
    method EmitUnmatchedBuildRows()
      requires Queue() && Built() && queuedRows == 0 && emittedKeys == []
      requires out == plan.NestedLoop(probed, buildArrived)
      modifies this`out, this`columnBuilders, this`pendingOutputBatch, this`sent, this`chunks, this`queuedRows,
               this`emittedKeys
      ensures Queue() && queuedRows == 0
      ensures ListsRest(emittedKeys, buildBuffer.Keys - probedKeys)
      ensures out == plan.NestedLoop(probed, buildArrived) + plan.Unmatched(emittedKeys, buildArrived)
    {
      var keys := buildBuffer.Keys;
      while keys != {}
        invariant Queue() && queuedRows < OutputRowsPerBatch()
        invariant keys <= buildBuffer.Keys
        invariant out == plan.NestedLoop(probed, buildArrived) + plan.Unmatched(emittedKeys, buildArrived)
        invariant ListsRest(emittedKeys, buildBuffer.Keys - keys - probedKeys)
        decreases keys
      {
        var k :| k in keys;
        EmitUnlessProbed(k, keys);
        keys := keys - {k};
      }
      if queuedRows > 0 {
        FlushChunkedRows();
      }
    }

    /** Emit what remains after the last probe row, so that the output is the whole join. */
    method EmitRest()
      requires Queue() && Built() && Probing() && queuedRows == 0 && emittedKeys == []
      modifies this`out, this`columnBuilders, this`pendingOutputBatch, this`sent, this`chunks, this`queuedRows,
               this`emittedKeys
      ensures Queue() && queuedRows == 0
      ensures plan.IsJoin(out, probed, buildArrived)
    {
      assert CitedLoop(0);
      if config.buildSpec.emitUnmatchedRows {
        EmitUnmatchedBuildRows();
        UnprobedKeys(plan, emittedKeys, probed, buildArrived, buildBuffer, buildBufferRows, probedKeys);
        assert plan.IsJoinWith(emittedKeys, out, probed, buildArrived);
      }
    }

    /** Send the pending batch, or an empty one if there is none, as the last batch. */
    method Finish()
      requires Queue() && Built() && Probing() && queuedRows == 0 && emittedKeys == []
      modifies this`out, this`columnBuilders, this`pendingOutputBatch, this`sent, this`chunks, this`queuedRows,
               this`emittedKeys
      ensures IsFinished(OutputRowsPerBatch(), sent) && plan.IsJoin(Rows(sent), probed, buildArrived)
    {
      EmitRest();
      SendLast();
    }

    method SendLast()
      requires Queue() && queuedRows == 0
      modifies this`pendingOutputBatch, this`sent
      ensures IsFinished(OutputRowsPerBatch(), sent) && Rows(sent) == out
    {
      QueueEnd(plan, OutputRowsPerBatch(), out, queuedRows, chunks, columnBuilders, pendingOutputBatch, sent);
      if pendingOutputBatch.None? {
        pendingOutputBatch := Some(RowBatch([], true, true));
      } else {
        pendingOutputBatch := Some(pendingOutputBatch.value.(eos := true, eow := true));
      }
      sent := sent + [pendingOutputBatch.value];
    }

    // ---- Consuming batches ----

    /** The probe batches still waiting for the build side to end. */
    ghost predicate Waiting()
      reads this`probeBatches, this`buildEos, this`probeEos, this`probed, this`queuedRows, this`emittedKeys
    {
      && WellFormedPrefix(probeBatches) && plan.AreRows(plan.OrderedByLeft(), Rows(probeBatches))
      && (!buildEos ==> probed == [] && !probeEos && queuedRows == 0)
      && (probeEos ==> probeBatches == [] && queuedRows == 0)
      && emittedKeys == []
    }

    ghost predicate Joining()
      reads this
    {
      Queue() && Built() && Probing() && Waiting()
    }

    ghost predicate Valid()
      reads this
    {
      && Configured()
      && (buildEos ==> probeBatches == [])
      && if buildEos && probeEos
         then IsFinished(OutputRowsPerBatch(), sent) && plan.IsJoin(Rows(sent), probed, buildArrived)
         else Joining()
    }

    ghost function ProbeArrived(): seq<Row>
      reads this`probed, this`probeBatches
    {
      probed + Rows(probeBatches)
    }

    ghost predicate ProbeEnded()
      reads this`probeEos, this`probeBatches
    {
      probeEos || Ended(probeBatches)
    }

    constructor (plan: JoinPlan, config: Config)
      requires plan.Valid() && config.probeIsLeft == plan.OrderedByLeft()
      requires SpecFor(plan, plan.OrderedByLeft(), config.probeSpec) &&
               SpecFor(plan, !plan.OrderedByLeft(), config.buildSpec)
      ensures Valid() && this.plan == plan && this.config == config
      ensures !buildEos && !ProbeEnded() && buildArrived == [] && ProbeArrived() == []
    {
      this.plan, this.config := plan, config;
      buildEos, probeEos, queuedRows, chunks, probeBatches := false, false, 0, [], [];
      columnBuilders := seq(|plan.outputColumns|, _ => Builder([]));
      buildBuffer, buildBufferRows, probedKeys := map[], map[], {};
      pendingOutputBatch, sent := None, [];
      out, buildArrived, probed, emittedKeys := [], [], [], [];
    }

    /** Take the batch that has waited longest. */
    method TakeFront() returns (front: RowBatch<Row>)
      requires Joining() && buildEos && probeBatches != []
      modifies this`probeBatches
      ensures Joining() && !probeEos && front == old(probeBatches)[0] && probeBatches == old(probeBatches)[1..]
      ensures plan.AreRows(plan.OrderedByLeft(), front.rows) && (front.eos ==> probeBatches == [])
      ensures (probed + front.rows) + Rows(probeBatches) == old(ProbeArrived())
      ensures old(ProbeEnded()) == (front.eos || Ended(probeBatches))
    {
      FrontRows(plan, probed, probeBatches);
      front := probeBatches[0];
      probeBatches := probeBatches[1..];
    }

    /** Probe the batch that has waited longest. */
    method ProbeFront()
      requires Joining() && buildEos && probeBatches != []
      modifies this
      ensures Joining() && buildEos && buildArrived == old(buildArrived)
      ensures probeBatches == old(probeBatches)[1..]
      ensures ProbeArrived() == old(ProbeArrived()) && ProbeEnded() == old(ProbeEnded())
    {
      var front := TakeFront();
      DoProbe(front);
    }

    /** Probe the batches that waited for the build side to end. */
    method DrainProbeBatches()
      requires Joining() && buildEos
      modifies this
      ensures Joining() && buildEos && probeBatches == [] && buildArrived == old(buildArrived)
      ensures ProbeArrived() == old(ProbeArrived()) && ProbeEnded() == old(ProbeEnded())
    {
      while probeBatches != []
        invariant Joining() && buildEos && buildArrived == old(buildArrived)
        invariant ProbeArrived() == old(ProbeArrived()) && ProbeEnded() == old(ProbeEnded())
        decreases |probeBatches|
      {
        ProbeFront();
      }
    }

    method ConsumeBuildBatch(rb: RowBatch<Row>)
      requires Joining() && !buildEos && plan.AreRows(!plan.OrderedByLeft(), rb.rows)
      modifies this
      ensures Joining() && buildEos == rb.eos && (buildEos ==> probeBatches == [])
      ensures buildArrived == old(buildArrived) + rb.rows
      ensures ProbeArrived() == old(ProbeArrived()) && ProbeEnded() == old(ProbeEnded())
    {
      HashRowBatch(rb);
      NoneProbed(plan, old(buildBuffer), buildBuffer, probedKeys);
      if rb.eos {
        buildEos := true;
        DrainProbeBatches();
      }
    }

    /** Keep a probe batch until the build side has ended. */
    method KeepProbeBatch(rb: RowBatch<Row>)
      requires Waiting() && !buildEos && !ProbeEnded()
      requires plan.AreRows(plan.OrderedByLeft(), rb.rows) && (rb.eos ==> rb.eow)
      modifies this`probeBatches
      ensures Waiting()
      ensures ProbeArrived() == old(ProbeArrived()) + rb.rows && ProbeEnded() == rb.eos
    {
      WaitingSnoc(plan, probeBatches, rb);
      Regroup(probed, Rows(probeBatches), rb.rows);
      probeBatches := probeBatches + [rb];
    }

    method ConsumeProbeBatch(rb: RowBatch<Row>)
      requires Joining() && !ProbeEnded() && (buildEos ==> probeBatches == [])
      requires plan.AreRows(plan.OrderedByLeft(), rb.rows) && (rb.eos ==> rb.eow)
      modifies this
      ensures Joining() && buildEos == old(buildEos) && (buildEos ==> probeBatches == [])
      ensures buildArrived == old(buildArrived)
      ensures ProbeArrived() == old(ProbeArrived()) + rb.rows && ProbeEnded() == rb.eos
    {
      if !buildEos {
        KeepProbeBatch(rb);
      } else {
        ProbeNow(rb);
      }
    }

    method ProbeNow(rb: RowBatch<Row>)
      requires Joining() && buildEos && !probeEos && probeBatches == [] && plan.AreRows(plan.OrderedByLeft(), rb.rows)
      modifies this`out, this`columnBuilders, this`pendingOutputBatch, this`sent, this`chunks, this`queuedRows
      modifies this`probedKeys, this`probed, this`probeEos
      ensures Joining()
      ensures ProbeArrived() == old(ProbeArrived()) + rb.rows && ProbeEnded() == rb.eos
    {
      assert Rows(probeBatches) == [];
      DoProbe(rb);
    }

    /** Once both sides have ended, send what remains. */
    method FinishIfDone()
      requires Joining() && (buildEos ==> probeBatches == [])
      modifies this`out, this`columnBuilders, this`pendingOutputBatch, this`sent, this`chunks, this`queuedRows,
               this`emittedKeys
      ensures Valid()
    {
      if buildEos && probeEos {
        Finish();
      }
    }

    lemma Outcome()
      requires Valid()
      ensures WellFormedPrefix(sent) && (Ended(sent) <==> buildEos && ProbeEnded())
      ensures buildEos && ProbeEnded() ==>
        IsFinished(OutputRowsPerBatch(), sent) && plan.IsJoin(Rows(sent), ProbeArrived(), buildArrived)
    {
      if buildEos && probeEos {
        assert ProbeArrived() == probed;
      } else {
        assert CitedQueue(0);
        assert forall i | 0 <= i < |sent| :: sent[i] in sent;
      }
    }

    method ConsumeNextImpl(parentIndex: nat, rb: RowBatch<Row>)
      requires Valid() && !(buildEos && probeEos)
      requires parentIndex < 2 && (rb.eos ==> rb.eow) && plan.AreRows(parentIndex == 0, rb.rows)
      requires if IsProbeTable(config.probeIsLeft, parentIndex) then !ProbeEnded() else !buildEos
      modifies this
      ensures Valid()
      ensures IsProbeTable(config.probeIsLeft, parentIndex) ==>
        && ProbeArrived() == old(ProbeArrived()) + rb.rows && ProbeEnded() == rb.eos
        && buildArrived == old(buildArrived) && buildEos == old(buildEos)
      ensures !IsProbeTable(config.probeIsLeft, parentIndex) ==>
        && buildArrived == old(buildArrived) + rb.rows && buildEos == rb.eos
        && ProbeArrived() == old(ProbeArrived()) && ProbeEnded() == old(ProbeEnded())
    {
      if IsProbeTable(config.probeIsLeft, parentIndex) {
        ConsumeProbeBatch(rb);
      } else {
        ConsumeBuildBatch(rb);
      }
      FinishIfDone();
    }
  }

  // ---- Whole runs ----

  /** The parent that feeds the probe side or the build side. */
  function ParentOf(plan: JoinPlan, probe: bool): nat {
    if plan.OrderedByLeft() == probe then 0 else 1
  }

  ghost predicate JoinInputs(plan: JoinPlan, calls: seq<Call>) {
    && WellFormedCalls(2, calls)
    && (forall i | 0 <= i < |calls| :: plan.AreRows(calls[i].parent == 0, calls[i].batch.rows))
  }

  /** What a node has received after some calls. */
  ghost predicate Received(node: EquijoinNode, calls: seq<Call>)
    reads node
  {
    var probe, build := StreamFrom(calls, ParentOf(node.plan, true)), StreamFrom(calls, ParentOf(node.plan, false));
    && node.ProbeArrived() == Rows(probe) && node.ProbeEnded() == Ended(probe)
    && node.buildArrived == Rows(build) && node.buildEos == Ended(build)
  }

  method Feed(node: EquijoinNode, calls: seq<Call>, i: nat)
    requires JoinInputs(node.plan, calls) && i < |calls|
    requires node.Valid() && Received(node, calls[..i])
    modifies node
    ensures node.Valid() && Received(node, calls[..i + 1])
  {
    var c := calls[i];
    CallAllowed(2, calls, i);
    StreamStep(calls, i, 0);
    StreamStep(calls, i, 1);
    RowsSnoc(StreamFrom(calls[..i], c.parent), c.batch);
    node.ConsumeNextImpl(c.parent, c.batch);
  }

  /** The output ends exactly when both inputs have, and then it is their join in full batches. */
  ghost predicate JoinsStreams(plan: JoinPlan, calls: seq<Call>, out: seq<RowBatch<Row>>) {
    && WellFormedPrefix(out) && (Ended(out) <==> AllEnded(2, calls))
    && (AllEnded(2, calls) ==>
          && IsFinished(if plan.rowsPerBatch == 0 then DEFAULT_JOIN_ROW_BATCH_SIZE else plan.rowsPerBatch, out)
          && plan.IsJoin(Rows(out), Rows(StreamFrom(calls, ParentOf(plan, true))),
             Rows(StreamFrom(calls, ParentOf(plan, false)))))
  }

  lemma {:induction false} Conclude(plan: JoinPlan, calls: seq<Call>, out: seq<RowBatch<Row>>, probes: seq<Row>,
                                    builds: seq<Row>, done: bool)
    requires WellFormedPrefix(out) && (Ended(out) <==> done)
    requires probes == Rows(StreamFrom(calls, ParentOf(plan, true))) &&
             builds == Rows(StreamFrom(calls, ParentOf(plan, false)))
    requires done <==> Ended(StreamFrom(calls, ParentOf(plan, true))) && Ended(StreamFrom(calls, ParentOf(plan, false)))
    requires done ==> IsFinished(if plan.rowsPerBatch == 0 then DEFAULT_JOIN_ROW_BATCH_SIZE else plan.rowsPerBatch, out)
    requires done ==> plan.IsJoin(Rows(out), probes, builds)
    ensures JoinsStreams(plan, calls, out)
  {
    TwoEnded(calls);
  }

  lemma MeansJoin(plan: JoinPlan, calls: seq<Call>, out: seq<RowBatch<Row>>)
    requires JoinsStreams(plan, calls, out) && AllEnded(2, calls) && plan.joinType != UNKNOWN
    ensures multiset(Rows(out)) == Meaning(plan, Rows(StreamFrom(calls, 0)), Rows(StreamFrom(calls, 1)))
  {
    JoinMeans(plan, Rows(out), Rows(StreamFrom(calls, ParentOf(plan, true))),
              Rows(StreamFrom(calls, ParentOf(plan, false))));
  }

  lemma OutcomeOf(node: EquijoinNode, calls: seq<Call>)
    requires node.Valid() && Received(node, calls)
    ensures JoinsStreams(node.plan, calls, node.sent)
  {
    node.Outcome();
    Conclude(node.plan, calls, node.sent, node.ProbeArrived(), node.buildArrived, node.buildEos && node.ProbeEnded());
  }

  method FeedAll(node: EquijoinNode, calls: seq<Call>)
    requires JoinInputs(node.plan, calls)
    requires node.Valid() && Received(node, [])
    modifies node
    ensures node.Valid() && Received(node, calls)
  {
    var i := 0;
    assert calls[..0] == [];
    while i < |calls|
      invariant 0 <= i <= |calls|
      invariant node.Valid() && Received(node, calls[..i])
    {
      Feed(node, calls, i);
      i := i + 1;
    }
    TakeAll(calls);
  }

  /**
   A join fed by any interleaving of two well-formed streams in any batching. It never ends early; once
   both streams have ended, the output is a finished stream holding exactly the nested-loop join of the
   two tables, which has the meaning that the join type names for the left and the right table.
   */
  method RunJoin(plan: JoinPlan, calls: seq<Call>) returns (r: Result<seq<RowBatch<Row>>>)
    requires plan.Valid() && JoinInputs(plan, calls)
    ensures r.Ok? <==> plan.joinType != UNKNOWN
    ensures r.Ok? ==> JoinsStreams(plan, calls, r.value)
    ensures r.Ok? && AllEnded(2, calls) ==>
            multiset(Rows(r.value)) == Meaning(plan, Rows(StreamFrom(calls, 0)), Rows(StreamFrom(calls, 1)))
  {
    var config := InitImpl(plan);
    if config.InternalError? { return InternalError(config.message); }
    var node := new EquijoinNode(plan, config.value);
    FeedAll(node, calls);
    OutcomeOf(node, calls);
    if AllEnded(2, calls) {
      MeansJoin(plan, calls, node.sent);
    }
    r := Ok(node.sent);
  }
}
