/**
 The aggregation node: rows are grouped through a hash table, the argument columns of each group are collected and
 folded into its aggregates whenever enough have gathered, and a window is emitted when it closes.
 */
module Agg {
  import opened Basics
  import opened RowBatches
  import opened AggSpec
  import opened TwoPhaseAgg
  import opened AggMeaning

  datatype ColumnWrapper = ColumnWrapper(vals: seq<Value>)

  /** The aggregates of a group and the argument columns collected for them. */
  datatype AggHashValue<!S> = AggHashValue(udas: seq<S>, aggCols: seq<ColumnWrapper>)

  /** Which input columns are collected, and where. */
  datatype ColumnMapping = ColumnMapping(toStored: map<nat, nat>, stored: seq<nat>)

  // ---- Column mapping ----

  ghost predicate UsesColumn<S(!new)>(expr: AggExpr<S>, c: nat) {
    exists j :: 0 <= j < |expr.args| && expr.args[j] == Column(c)
  }

  ghost predicate Covers<S(!new)>(m: ColumnMapping, expr: AggExpr<S>) {
    forall c | UsesColumn(expr, c) :: c in m.toStored
  }

  /** Every mapped column is stored where the mapping says, once, and nothing else is stored. */
  ghost predicate Consistent(m: ColumnMapping) {
    && (forall c | c in m.toStored :: m.toStored[c] < |m.stored| && m.stored[m.toStored[c]] == c)
    && (forall i | 0 <= i < |m.stored| :: m.stored[i] in m.toStored && m.toStored[m.stored[i]] == i)
  }

  /** The mapping serves the plan: partial aggregation stores exactly the columns its aggregates read. */
  ghost predicate Serves<S(!new)>(m: ColumnMapping, plan: AggPlan<S>) {
    && Consistent(m)
    && (plan.partialAgg ==> forall i | 0 <= i < |plan.values| :: Covers(m, plan.values[i]))
    && (plan.partialAgg ==>
          forall c | c in m.toStored :: exists i :: 0 <= i < |plan.values| && UsesColumn(plan.values[i], c))
    && (!plan.partialAgg ==> |m.stored| == |plan.groups| + |plan.values|)
  }

  method MapColumns<S(!new)>(m: ColumnMapping, expr: AggExpr<S>) returns (r: ColumnMapping)
    requires Consistent(m)
    ensures Consistent(r) && Covers(r, expr)
    ensures forall c :: c in r.toStored <==> c in m.toStored || UsesColumn(expr, c)
  {
    r := m;
    for j := 0 to |expr.args|
      invariant Consistent(r)
      invariant forall c | c in m.toStored :: c in r.toStored
      invariant forall c | c in r.toStored && c !in m.toStored :: UsesColumn(expr, c)
      invariant forall i | 0 <= i < j && expr.args[i].Column? :: expr.args[i].idx in r.toStored
    {
      if expr.args[j].Column? {
        var c := expr.args[j].idx;
        assert UsesColumn(expr, c);
        if c !in r.toStored {
          r := ColumnMapping(r.toStored[c := |r.stored|], r.stored + [c]);
        }
      }
    }
  }

  method CreateColumnMapping<S(!new)>(plan: AggPlan<S>) returns (m: ColumnMapping)
    ensures Serves(m, plan)
  {
    m := ColumnMapping(map[], []);
    if !plan.partialAgg {
      for i := 0 to |plan.groups| + |plan.values|
        invariant Consistent(m) && |m.stored| == i
        invariant forall c | c in m.toStored :: c < i
      {
        m := ColumnMapping(m.toStored[i := i], m.stored + [i]);
      }
    } else {
      for i := 0 to |plan.values|
        invariant Consistent(m)
        invariant forall h | 0 <= h < i :: Covers(m, plan.values[h])
        invariant forall c | c in m.toStored :: exists h :: 0 <= h < |plan.values| && UsesColumn(plan.values[h], c)
      {
        m := MapColumns(m, plan.values[i]);
      }
    }
  }

  /** The columns that are collected from rows: when merging partial states, only the group columns. */
  function Extracted<S(!new)>(plan: AggPlan<S>, m: ColumnMapping): nat {
    if plan.partialAgg then |m.stored| else |plan.groups|
  }

  /** A plan the node can run: folding early looks at the first collected column, so there must be one. */
  ghost predicate Runnable<S(!new)>(plan: AggPlan<S>) {
    plan.partialAgg && plan.values != [] && plan.groups != [] ==>
      exists i, c :: 0 <= i < |plan.values| && UsesColumn(plan.values[i], c)
  }

  // ---- What the state of a group stands for ----

  /**
   Aggregate `i` of a group in state `s`: `done` are all rows of the group, of which `pend` are collected but not
   yet folded.
   */
  ghost predicate StateOk<S(!new)>(plan: AggPlan<S>, i: nat, s: S, pend: seq<Row>, done: seq<Row>)
    requires i < |plan.values|
  {
    if plan.partialAgg then
      plan.values[i].uda.UpdateAll(s, plan.values[i].ArgsList(pend)) == plan.StateOf(i, done)
    else s == plan.StateOf(i, done)
  }

  ghost predicate StatesOk<S(!new)>(plan: AggPlan<S>, udas: seq<S>, pend: seq<Row>, done: seq<Row>) {
    |udas| == |plan.values| && forall i | 0 <= i < |plan.values| :: StateOk(plan, i, udas[i], pend, done)
  }

  ghost predicate CollectedOne(m: ColumnMapping, aggCols: seq<ColumnWrapper>, pend: seq<Row>, j: nat)
    requires |aggCols| == |m.stored| && j < |m.stored|
  {
    aggCols[j].vals == ColumnValues(pend, m.stored[j])
  }

  /** The first `n` collected columns are those of the pending rows. */
  ghost predicate Collected(m: ColumnMapping, n: nat, aggCols: seq<ColumnWrapper>, pend: seq<Row>) {
    && |aggCols| == |m.stored|
    && forall j | 0 <= j < n && j < |m.stored| :: CollectedOne(m, aggCols, pend, j)
  }

  ghost predicate GroupOk<S(!new)>(plan: AggPlan<S>, m: ColumnMapping, val: AggHashValue<S>, pend: seq<Row>,
                                   done: seq<Row>) {
    StatesOk(plan, val.udas, pend, done) && Collected(m, Extracted(plan, m), val.aggCols, pend)
  }

  /** The table has an entry for the groups of `seen`, standing for their rows in `done`. */
  ghost predicate TableEntry<S(!new)>(plan: AggPlan<S>, m: ColumnMapping, table: map<Key, AggHashValue<S>>,
                                     pending: map<Key, seq<Row>>, seen: seq<Row>, done: seq<Row>, k: Key) {
    && (k in table <==> plan.RowsOf(seen, k) != [])
    && (k in table ==> k in pending && GroupOk(plan, m, table[k], pending[k], plan.RowsOf(done, k)))
  }

  ghost predicate IsTable<S(!new)>(plan: AggPlan<S>, m: ColumnMapping, table: map<Key, AggHashValue<S>>,
                                  pending: map<Key, seq<Row>>, seen: seq<Row>, done: seq<Row>) {
    forall k :: TableEntry(plan, m, table, pending, seen, done, k)
  }

  // ---- Folding the collected columns ----

  lemma {:induction false} UpdateAllAppend<S(!new)>(uda: Uda<S>, s: S, a: seq<Args>, b: seq<Args>)
    ensures uda.UpdateAll(s, a + b) == uda.UpdateAll(uda.UpdateAll(s, a), b)
  {
    if b == [] {
      assert a + b == a;
    } else {
      assert (a + b)[..|a + b| - 1] == a + b[..|b| - 1];
      UpdateAllAppend(uda, s, a, b[..|b| - 1]);
    }
  }

  lemma ArgsListSnoc<S(!new)>(expr: AggExpr<S>, rows: seq<Row>, r: nat)
    requires r < |rows|
    ensures expr.ArgsList(rows[..r + 1]) == expr.ArgsList(rows[..r]) + [expr.ArgsOf(rows[r])]
  {
    assert rows[..r + 1][..r] == rows[..r];
  }

  lemma UpdateAllSnoc<S(!new)>(uda: Uda<S>, s: S, args: seq<Args>, x: Args)
    ensures uda.UpdateAll(s, args + [x]) == uda.update(uda.UpdateAll(s, args), x)
  {
    assert (args + [x])[..|args|] == args;
  }

  /** The arguments of one update call, read from the collected columns. */
  function StoredArg(arg: Arg, m: ColumnMapping, aggCols: seq<ColumnWrapper>, r: nat): Value
    requires arg.Column? ==> arg.idx in m.toStored && m.toStored[arg.idx] < |aggCols|
    requires arg.Column? ==> r < |aggCols[m.toStored[arg.idx]].vals|
  {
    if arg.Column? then aggCols[m.toStored[arg.idx]].vals[r] else arg.value
  }

  method StoredArgs<S(!new)>(expr: AggExpr<S>, m: ColumnMapping, aggCols: seq<ColumnWrapper>, r: nat,
                             ghost pend: seq<Row>)
    returns (a: Args)
    requires Consistent(m) && Covers(m, expr) && Collected(m, |m.stored|, aggCols, pend) && r < |pend|
    ensures a == expr.ArgsOf(pend[r])
  {
    var vals: seq<Value> := [];
    for j := 0 to |expr.args|
      invariant |vals| == j
      invariant forall h | 0 <= h < j :: vals[h] == expr.ArgsOf(pend[r]).vals[h]
    {
      if expr.args[j].Column? {
        assert UsesColumn(expr, expr.args[j].idx);
        assert CollectedOne(m, aggCols, pend, m.toStored[expr.args[j].idx]);
      }
      vals := vals + [StoredArg(expr.args[j], m, aggCols, r)];
    }
    assert vals == expr.ArgsOf(pend[r]).vals;
    a := Args(vals);
  }

  method ExecBatchUpdate<S(!new)>(expr: AggExpr<S>, m: ColumnMapping, aggCols: seq<ColumnWrapper>, s: S,
                                  ghost pend: seq<Row>)
    returns (s': S)
    requires Consistent(m) && Covers(m, expr) && Collected(m, |m.stored|, aggCols, pend) && m.stored != []
    ensures s' == expr.uda.UpdateAll(s, expr.ArgsList(pend))
  {
    assert CollectedOne(m, aggCols, pend, 0);
    var numRecords := |aggCols[0].vals|;
    s' := s;
    for r := 0 to numRecords
      invariant s' == expr.uda.UpdateAll(s, expr.ArgsList(pend[..r]))
    {
      var args := StoredArgs(expr, m, aggCols, r, pend);
      ArgsListSnoc(expr, pend, r);
      UpdateAllSnoc(expr.uda, s, expr.ArgsList(pend[..r]), args);
      s' := expr.uda.update(s', args);
    }
    TakeAll(pend);
  }

  /** Fold the collected rows of a group into its aggregates and forget them; its meaning does not change. */
  method EvaluateAggHashValue<S(!new)>(plan: AggPlan<S>, m: ColumnMapping, val: AggHashValue<S>, ghost pend: seq<Row>,
                                       ghost done: seq<Row>)
    returns (val': AggHashValue<S>)
    requires plan.partialAgg && Serves(m, plan) && (plan.values != [] ==> m.stored != [])
    requires GroupOk(plan, m, val, pend, done)
    ensures GroupOk(plan, m, val', [], done)
  {
    var udas := val.udas;
    for i := 0 to |plan.values|
      invariant |udas| == |plan.values|
      invariant forall h | 0 <= h < i :: StateOk(plan, h, udas[h], [], done)
      invariant forall h | i <= h < |plan.values| :: StateOk(plan, h, udas[h], pend, done)
    {
      var s := ExecBatchUpdate(plan.values[i], m, val.aggCols, udas[i], pend);
      udas := udas[i := s];
    }
    var aggCols := [];
    for j := 0 to |val.aggCols|
      invariant |aggCols| == j
      invariant forall h | 0 <= h < j :: aggCols[h] == ColumnWrapper([])
    {
      aggCols := aggCols + [ColumnWrapper([])];
    }
    assert forall j | 0 <= j < |m.stored| :: CollectedOne(m, aggCols, [], j);
    val' := AggHashValue(udas, aggCols);
  }

  // ---- Hashing a batch of rows ----

  method CreateUDAInfoValues<S(!new)>(plan: AggPlan<S>) returns (udas: seq<S>)
    ensures StatesOk(plan, udas, [], [])
  {
    udas := [];
    for i := 0 to |plan.values|
      invariant |udas| == i
      invariant forall h | 0 <= h < i :: StateOk(plan, h, udas[h], [], [])
    {
      var uda := plan.values[i].uda;
      udas := udas + [if plan.partialAgg then uda.init else uda.made];
    }
  }

  method CreateAggHashValue<S(!new)>(plan: AggPlan<S>, m: ColumnMapping) returns (val: AggHashValue<S>)
    ensures GroupOk(plan, m, val, [], [])
  {
    var udas := CreateUDAInfoValues(plan);
    var aggCols := [];
    for j := 0 to |m.stored|
      invariant |aggCols| == j
      invariant forall h | 0 <= h < j :: aggCols[h] == ColumnWrapper([])
    {
      aggCols := aggCols + [ColumnWrapper([])];
    }
    assert forall j | 0 <= j < |m.stored| :: CollectedOne(m, aggCols, [], j);
    val := AggHashValue(udas, aggCols);
  }

  /** Find or create the group of every row of a batch. */
  method FindGroups<S(!new)>(plan: AggPlan<S>, m: ColumnMapping, table: map<Key, AggHashValue<S>>, rows: seq<Row>,
                            ghost pending: map<Key, seq<Row>>, ghost window: seq<Row>)
    returns (table': map<Key, AggHashValue<S>>, ghost pending': map<Key, seq<Row>>)
    requires IsTable(plan, m, table, pending, window, window)
    ensures IsTable(plan, m, table', pending', window + rows, window)
  {
    table', pending' := table, pending;
    assert window + rows[..0] == window;
    for r := 0 to |rows|
      invariant IsTable(plan, m, table', pending', window + rows[..r], window)
    {
      var k := plan.GroupKey(rows[r]);
      assert TableEntry(plan, m, table', pending', window + rows[..r], window, k);
      ghost var before, wasPending := table', pending';
      if k !in table' {
        var val := CreateAggHashValue(plan, m);
        table' := table'[k := val];
        pending' := pending'[k := []];
        RowsOfAppend(plan, window, rows[..r], k);
      }
      ghost var seen := window + rows[..r + 1];
      assert seen == (window + rows[..r]) + [rows[r]];
      forall q ensures TableEntry(plan, m, table', pending', seen, window, q) {
        assert TableEntry(plan, m, before, wasPending, window + rows[..r], window, q);
        RowsOfSnoc(plan, window + rows[..r], rows[r], q);
      }
    }
    TakeAll(rows);
  }

  /** A column of a group after collecting the rows of a batch up to row `r`. */
  ghost predicate GrownColumn(m: ColumnMapping, was: seq<ColumnWrapper>, now: seq<ColumnWrapper>, group: seq<Row>,
                              j: nat)
    requires |was| == |now| == |m.stored| && j < |m.stored|
  {
    now[j].vals == was[j].vals + ColumnValues(group, m.stored[j])
  }

  /** A group after collecting columns before `i` from the rows `group`, and column `i` from the rows `part`. */
  ghost predicate Grown<S>(m: ColumnMapping, was: AggHashValue<S>, now: AggHashValue<S>, i: nat, group: seq<Row>,
                           part: seq<Row>) {
    && now.udas == was.udas && |was.aggCols| == |now.aggCols| == |m.stored|
    && (forall j | 0 <= j < |m.stored| && j < i :: GrownColumn(m, was.aggCols, now.aggCols, group, j))
    && (i < |m.stored| ==> GrownColumn(m, was.aggCols, now.aggCols, part, i))
    && (forall j | i < j < |m.stored| :: now.aggCols[j] == was.aggCols[j])
  }

  ghost predicate GrownEntry<S(!new)>(plan: AggPlan<S>, m: ColumnMapping, was: map<Key, AggHashValue<S>>,
                                      now: map<Key, AggHashValue<S>>, i: nat, rows: seq<Row>, r: nat, k: Key)
    requires r <= |rows|
  {
    && (k in was <==> k in now)
    && (k in was ==> Grown(m, was[k], now[k], i, plan.RowsOf(rows, k), plan.RowsOf(rows[..r], k)))
  }

  ghost predicate GrownTable<S(!new)>(plan: AggPlan<S>, m: ColumnMapping, was: map<Key, AggHashValue<S>>,
                                      now: map<Key, AggHashValue<S>>, i: nat, rows: seq<Row>, r: nat)
    requires r <= |rows|
  {
    forall k :: GrownEntry(plan, m, was, now, i, rows, r, k)
  }

  function Collect<S>(val: AggHashValue<S>, i: nat, v: Value): AggHashValue<S>
    requires i < |val.aggCols|
  {
    val.(aggCols := val.aggCols[i := ColumnWrapper(val.aggCols[i].vals + [v])])
  }

  lemma CollectGrows<S>(m: ColumnMapping, was: AggHashValue<S>, now: AggHashValue<S>, i: nat, group: seq<Row>,
                        part: seq<Row>, row: Row)
    requires i < |m.stored| && Grown(m, was, now, i, group, part)
    ensures Grown(m, was, Collect(now, i, At(row, m.stored[i])), i, group, part + [row])
  {
    var next := Collect(now, i, At(row, m.stored[i]));
    forall j | 0 <= j < i ensures GrownColumn(m, was.aggCols, next.aggCols, group, j) {
      assert GrownColumn(m, was.aggCols, now.aggCols, group, j);
    }
    ColumnAppend(part, [row], m.stored[i]);
    assert ColumnValues([row], m.stored[i]) == [At(row, m.stored[i])];
    Regroup(was.aggCols[i].vals, ColumnValues(part, m.stored[i]), [At(row, m.stored[i])]);
  }

  /** Append one column of a batch to the collected columns of the rows' groups. */
  method ExtractToColumnWrapper<S(!new)>(plan: AggPlan<S>, m: ColumnMapping, table: map<Key, AggHashValue<S>>,
                                         rows: seq<Row>, i: nat, ghost was: map<Key, AggHashValue<S>>)
    returns (table': map<Key, AggHashValue<S>>)
    requires i < |m.stored| && GrownTable(plan, m, was, table, i, rows, 0)
    requires forall r | 0 <= r < |rows| :: plan.GroupKey(rows[r]) in was
    ensures GrownTable(plan, m, was, table', i, rows, |rows|)
  {
    table' := table;
    for r := 0 to |rows|
      invariant GrownTable(plan, m, was, table', i, rows, r)
    {
      var k := plan.GroupKey(rows[r]);
      assert GrownEntry(plan, m, was, table', i, rows, r, k);
      ghost var before := table';
      table' := table'[k := Collect(table'[k], i, At(rows[r], m.stored[i]))];
      CollectGrows(m, was[k], before[k], i, plan.RowsOf(rows, k), plan.RowsOf(rows[..r], k), rows[r]);
      ghost var next := r + 1;
      forall q ensures GrownEntry(plan, m, was, table', i, rows, next, q) {
        assert GrownEntry(plan, m, was, before, i, rows, r, q);
        TakeNext(rows, r);
        RowsOfSnoc(plan, rows[..r], rows[r], q);
      }
    }
  }

  lemma NextColumn<S(!new)>(plan: AggPlan<S>, m: ColumnMapping, was: map<Key, AggHashValue<S>>,
                            now: map<Key, AggHashValue<S>>, i: nat, rows: seq<Row>)
    requires i < |m.stored| && GrownTable(plan, m, was, now, i, rows, |rows|)
    ensures GrownTable(plan, m, was, now, i + 1, rows, 0)
  {
    var j := i + 1;
    forall k ensures GrownEntry(plan, m, was, now, j, rows, 0, k) {
      assert GrownEntry(plan, m, was, now, i, rows, |rows|, k);
      TakeAll(rows);
      if k in was && j < |m.stored| {
        assert ColumnValues(plan.RowsOf(rows[..0], k), m.stored[j]) == [];
        assert now[k].aggCols[j].vals == was[k].aggCols[j].vals + [];
      }
    }
  }

  /** Collect the stored columns of a batch, column by column. */
  method ExtractColumns<S(!new)>(plan: AggPlan<S>, m: ColumnMapping, table: map<Key, AggHashValue<S>>, rows: seq<Row>)
    returns (table': map<Key, AggHashValue<S>>)
    requires Serves(m, plan) && forall k | k in table :: |table[k].aggCols| == |m.stored|
    requires forall r | 0 <= r < |rows| :: plan.GroupKey(rows[r]) in table
    ensures GrownTable(plan, m, table, table', Extracted(plan, m), rows, 0)
  {
    table' := table;
    forall k ensures GrownEntry(plan, m, table, table', 0, rows, 0, k) {
      if k in table && 0 < |m.stored| {
        assert ColumnValues(plan.RowsOf(rows[..0], k), m.stored[0]) == [];
        assert table[k].aggCols[0].vals == table[k].aggCols[0].vals + [];
      }
    }
    var n := Extracted(plan, m);
    for i := 0 to n
      invariant GrownTable(plan, m, table, table', i, rows, 0)
    {
      table' := ExtractToColumnWrapper(plan, m, table', rows, i, table);
      NextColumn(plan, m, table, table', i, rows);
    }
  }

  /** The pending rows of every group once a batch has been collected. */
  ghost function PendingWith<S(!new)>(plan: AggPlan<S>, table: map<Key, AggHashValue<S>>, pending: map<Key, seq<Row>>,
                                      rows: seq<Row>): map<Key, seq<Row>> {
    map k | k in table && k in pending :: pending[k] + plan.RowsOf(rows, k)
  }

  lemma PendingState<S(!new)>(plan: AggPlan<S>, i: nat, s: S, pend: seq<Row>, done: seq<Row>, more: seq<Row>)
    requires i < |plan.values| && plan.partialAgg && StateOk(plan, i, s, pend, done)
    ensures StateOk(plan, i, s, pend + more, done + more)
  {
    var expr := plan.values[i];
    ArgsListAppend(expr, pend, more);
    ArgsListAppend(expr, done, more);
    UpdateAllAppend(expr.uda, s, expr.ArgsList(pend), expr.ArgsList(more));
    UpdateAllAppend(expr.uda, expr.uda.init, expr.ArgsList(done), expr.ArgsList(more));
  }

  lemma GrownCollected<S>(m: ColumnMapping, was: AggHashValue<S>, now: AggHashValue<S>, n: nat, pend: seq<Row>,
                          group: seq<Row>)
    requires Grown(m, was, now, n, group, []) && Collected(m, n, was.aggCols, pend)
    ensures Collected(m, n, now.aggCols, pend + group)
  {
    forall j | 0 <= j < n && j < |m.stored| ensures CollectedOne(m, now.aggCols, pend + group, j) {
      assert CollectedOne(m, was.aggCols, pend, j) && GrownColumn(m, was.aggCols, now.aggCols, group, j);
      ColumnAppend(pend, group, m.stored[j]);
    }
  }

  /** The rows that the groups stand for once a batch has been collected: merged states are still to be updated. */
  ghost function DoneAfter<S(!new)>(plan: AggPlan<S>, window: seq<Row>, rows: seq<Row>): seq<Row> {
    if plan.partialAgg then window + rows else window
  }

  lemma GrownGroup<S(!new)>(plan: AggPlan<S>, m: ColumnMapping, was: AggHashValue<S>, now: AggHashValue<S>,
                            pend: seq<Row>, window: seq<Row>, rows: seq<Row>, k: Key)
    requires GroupOk(plan, m, was, pend, plan.RowsOf(window, k))
    requires Grown(m, was, now, Extracted(plan, m), plan.RowsOf(rows, k), [])
    ensures GroupOk(plan, m, now, pend + plan.RowsOf(rows, k), plan.RowsOf(DoneAfter(plan, window, rows), k))
  {
    var group := plan.RowsOf(rows, k);
    GrownCollected(m, was, now, Extracted(plan, m), pend, group);
    RowsOfAppend(plan, window, rows, k);
    if plan.partialAgg {
      forall i | 0 <= i < |plan.values|
        ensures StateOk(plan, i, now.udas[i], pend + group, plan.RowsOf(window + rows, k))
      {
        assert StateOk(plan, i, was.udas[i], pend, plan.RowsOf(window, k));
        PendingState(plan, i, was.udas[i], pend, plan.RowsOf(window, k), group);
      }
    } else {
      forall i | 0 <= i < |plan.values| ensures StateOk(plan, i, now.udas[i], pend + group, plan.RowsOf(window, k)) {
        assert StateOk(plan, i, was.udas[i], pend, plan.RowsOf(window, k));
      }
    }
  }

  lemma GrownIsTable<S(!new)>(plan: AggPlan<S>, m: ColumnMapping, was: map<Key, AggHashValue<S>>,
                              now: map<Key, AggHashValue<S>>,
                             pending: map<Key, seq<Row>>, window: seq<Row>, rows: seq<Row>)
    requires IsTable(plan, m, was, pending, window + rows, window)
    requires GrownTable(plan, m, was, now, Extracted(plan, m), rows, 0)
    ensures IsTable(plan, m, now, PendingWith(plan, was, pending, rows), window + rows, DoneAfter(plan, window, rows))
  {
    var pending', seen, done := PendingWith(plan, was, pending, rows), window + rows, DoneAfter(plan, window, rows);
    forall k ensures TableEntry(plan, m, now, pending', seen, done, k) {
      assert TableEntry(plan, m, was, pending, seen, window, k);
      assert GrownEntry(plan, m, was, now, Extracted(plan, m), rows, 0, k);
      if k in was {
        assert plan.RowsOf(rows[..0], k) == [];
        GrownGroup(plan, m, was[k], now[k], pending[k], window, rows, k);
      }
    }
  }

  lemma HasGroup<S(!new)>(plan: AggPlan<S>, m: ColumnMapping, table: map<Key, AggHashValue<S>>,
                          pending: map<Key, seq<Row>>, window: seq<Row>, rows: seq<Row>, done: seq<Row>, r: nat)
    requires IsTable(plan, m, table, pending, window + rows, done) && r < |rows|
    ensures plan.GroupKey(rows[r]) in table && plan.GroupKey(rows[r]) in pending
  {
    var k := plan.GroupKey(rows[r]);
    assert TableEntry(plan, m, table, pending, window + rows, done, k);
    assert window + rows == window + rows[..r + 1] + rows[r + 1..];
    RowsOfAppend(plan, window + rows[..r + 1], rows[r + 1..], k);
    assert window + rows[..r + 1] == (window + rows[..r]) + [rows[r]];
    RowsOfSnoc(plan, window + rows[..r], rows[r], k);
  }

  // ---- Merging partial states ----

  lemma MergeRowsSnoc<S(!new)>(plan: AggPlan<S>, i: nat, s: S, rows: seq<Row>, row: Row)
    requires i < |plan.values|
    ensures plan.MergeRows(i, s, rows + [row]) ==
            plan.values[i].uda.merge(plan.MergeRows(i, s, rows), plan.values[i].uda.deserialize(plan.PartOf(row, i)))
  {
    assert (rows + [row])[..|rows|] == rows;
  }

  method DeserializeAndMergeRow<S(!new)>(plan: AggPlan<S>, udas: seq<S>, row: Row, ghost pend: seq<Row>,
                                         ghost done: seq<Row>)
    returns (udas': seq<S>)
    requires !plan.partialAgg && StatesOk(plan, udas, pend, done)
    ensures StatesOk(plan, udas', pend, done + [row])
  {
    udas' := udas;
    for i := 0 to |udas|
      invariant |udas'| == |plan.values|
      invariant forall h | 0 <= h < i :: StateOk(plan, h, udas'[h], pend, done + [row])
      invariant forall h | i <= h < |udas| :: StateOk(plan, h, udas'[h], pend, done)
    {
      var uda := plan.values[i].uda;
      MergeRowsSnoc(plan, i, uda.made, done, row);
      var deserialized := uda.deserialize(plan.PartOf(row, i));
      udas' := udas'[i := uda.merge(udas'[i], deserialized)];
    }
  }

  method DeserializeAndMergeGrouped<S(!new)>(plan: AggPlan<S>, m: ColumnMapping, table: map<Key, AggHashValue<S>>,
                                             rows: seq<Row>, ghost pending: map<Key, seq<Row>>, ghost window: seq<Row>)
    returns (table': map<Key, AggHashValue<S>>)
    requires !plan.partialAgg && IsTable(plan, m, table, pending, window + rows, window)
    ensures IsTable(plan, m, table', pending, window + rows, window + rows)
  {
    table' := table;
    assert window + rows[..0] == window;
    for r := 0 to |rows|
      invariant IsTable(plan, m, table', pending, window + rows, window + rows[..r])
    {
      var k := plan.GroupKey(rows[r]);
      HasGroup(plan, m, table', pending, window, rows, window + rows[..r], r);
      ghost var done, next := window + rows[..r], window + rows[..r + 1];
      assert next == done + [rows[r]];
      assert TableEntry(plan, m, table', pending, window + rows, done, k);
      ghost var before := table';
      var udas := DeserializeAndMergeRow(plan, table'[k].udas, rows[r], pending[k], plan.RowsOf(done, k));
      table' := table'[k := table'[k].(udas := udas)];
      forall q ensures TableEntry(plan, m, table', pending, window + rows, next, q) {
        assert TableEntry(plan, m, before, pending, window + rows, done, q);
        RowsOfSnoc(plan, done, rows[r], q);
      }
    }
    TakeAll(rows);
  }

  // ---- Early folding and emission ----

  /** Fold the groups of the batch's rows that have collected more than `threshold` rows. */
  method EvaluatePartialAggregates<S(!new)>(plan: AggPlan<S>, m: ColumnMapping, threshold: nat,
                                            table: map<Key, AggHashValue<S>>,
                                           rows: seq<Row>, ghost pending: map<Key, seq<Row>>, ghost window: seq<Row>)
    returns (table': map<Key, AggHashValue<S>>, ghost pending': map<Key, seq<Row>>)
    requires plan.partialAgg && Serves(m, plan) && m.stored != []
    requires IsTable(plan, m, table, pending, window + rows, window + rows)
    ensures IsTable(plan, m, table', pending', window + rows, window + rows)
  {
    table', pending' := table, pending;
    ghost var done := window + rows;
    for r := 0 to |rows|
      invariant IsTable(plan, m, table', pending', done, done)
    {
      var k := plan.GroupKey(rows[r]);
      HasGroup(plan, m, table', pending', window, rows, done, r);
      assert TableEntry(plan, m, table', pending', done, done, k);
      if |table'[k].aggCols[0].vals| > threshold {
        ghost var before, wasPending := table', pending';
        var val := EvaluateAggHashValue(plan, m, table'[k], pending'[k], plan.RowsOf(done, k));
        table' := table'[k := val];
        pending' := pending'[k := []];
        forall q ensures TableEntry(plan, m, table', pending', done, done, q) {
          assert TableEntry(plan, m, before, wasPending, done, done, q);
        }
      }
    }
  }

  method EmitResults<S(!new)>(plan: AggPlan<S>, udas: seq<S>, ghost pend: seq<Row>, ghost done: seq<Row>)
    returns (vals: seq<Value>)
    requires StatesOk(plan, udas, pend, done) && (plan.partialAgg ==> pend == [])
    ensures vals == plan.Results(done)
  {
    vals := [];
    for i := 0 to |udas|
      invariant |vals| == i
      invariant forall h | 0 <= h < i :: vals[h] == plan.Results(done)[h]
    {
      assert StateOk(plan, i, udas[i], pend, done);
      vals := vals + [plan.Emit(i, udas[i])];
    }
    assert vals == plan.Results(done);
  }

  method EmitGroup<S(!new)>(plan: AggPlan<S>, m: ColumnMapping, k: Key, val: AggHashValue<S>, ghost pend: seq<Row>,
                            ghost window: seq<Row>)
    returns (row: Row)
    requires Serves(m, plan) && (plan.partialAgg && plan.values != [] ==> m.stored != [])
    requires GroupOk(plan, m, val, pend, plan.RowsOf(window, k))
    ensures row == plan.ResultRow(k, window)
  {
    var udas := val.udas;
    ghost var left := pend;
    if plan.partialAgg {
      var folded := EvaluateAggHashValue(plan, m, val, pend, plan.RowsOf(window, k));
      udas, left := folded.udas, [];
    }
    var vals := EmitResults(plan, udas, left, plan.RowsOf(window, k));
    row := Row(k.vals + vals);
  }

  /** Emit every group, in whatever order the table lists them. */
  method ConvertAggHashMapToRowBatch<S(!new)>(plan: AggPlan<S>, m: ColumnMapping, table: map<Key, AggHashValue<S>>,
                                             ghost pending: map<Key, seq<Row>>, ghost window: seq<Row>)
    returns (out: seq<Row>)
    requires Serves(m, plan) && (plan.partialAgg && plan.values != [] ==> m.stored != []) && plan.groups != []
    requires IsTable(plan, m, table, pending, window, window)
    ensures plan.IsAggregate(out, window)
  {
    out := [];
    ghost var ks: seq<Key> := [];
    var left := table.Keys;
    while left != {}
      invariant left <= table.Keys && out == plan.ResultRows(ks, window)
      invariant forall i, j | 0 <= i < j < |ks| :: ks[i] != ks[j]
      invariant forall k :: k in ks <==> k in table && k !in left
      decreases left
    {
      var k :| k in left;
      assert TableEntry(plan, m, table, pending, window, window, k);
      var row := EmitGroup(plan, m, k, table[k], pending[k], window);
      ResultRowsSnoc(plan, ks, k, window);
      out, ks, left := out + [row], ks + [k], left - {k};
    }
    forall k ensures k in ks <==> plan.RowsOf(window, k) != [] {
      assert TableEntry(plan, m, table, pending, window, window, k);
    }
    assert plan.IsAggregateWith(ks, out, window);
  }

  // ---- Without group columns ----

  function ArgOf(arg: Arg, row: Row): Value {
    if arg.Column? then At(row, arg.idx) else arg.value
  }

  method EvaluateSingleExpressionNoGroups<S(!new)>(plan: AggPlan<S>, i: nat, s: S, rows: seq<Row>,
                                                   ghost window: seq<Row>)
    returns (s': S)
    requires plan.partialAgg && i < |plan.values| && StateOk(plan, i, s, [], window)
    ensures StateOk(plan, i, s', [], window + rows)
  {
    var expr := plan.values[i];
    s' := s;
    for r := 0 to |rows|
      invariant s' == expr.uda.UpdateAll(s, expr.ArgsList(rows[..r]))
    {
      var args := Args(seq(|expr.args|, j requires 0 <= j < |expr.args| => ArgOf(expr.args[j], rows[r])));
      assert args.vals == expr.ArgsOf(rows[r]).vals;
      ArgsListSnoc(expr, rows, r);
      UpdateAllSnoc(expr.uda, s, expr.ArgsList(rows[..r]), args);
      s' := expr.uda.update(s', args);
    }
    TakeAll(rows);
    ArgsListAppend(expr, window, rows);
    UpdateAllAppend(expr.uda, expr.uda.init, expr.ArgsList(window), expr.ArgsList(rows));
  }

  method UpdateNoGroups<S(!new)>(plan: AggPlan<S>, udas: seq<S>, rows: seq<Row>, ghost window: seq<Row>)
    returns (udas': seq<S>)
    requires plan.partialAgg && StatesOk(plan, udas, [], window)
    ensures StatesOk(plan, udas', [], window + rows)
  {
    udas' := udas;
    for i := 0 to |plan.values|
      invariant |udas'| == |plan.values|
      invariant forall h | 0 <= h < i :: StateOk(plan, h, udas'[h], [], window + rows)
      invariant forall h | i <= h < |plan.values| :: StateOk(plan, h, udas'[h], [], window)
    {
      var s := EvaluateSingleExpressionNoGroups(plan, i, udas'[i], rows, window);
      udas' := udas'[i := s];
    }
  }

  method DeserializeAndMergeNoGroups<S(!new)>(plan: AggPlan<S>, udas: seq<S>, rows: seq<Row>, ghost window: seq<Row>)
    returns (udas': seq<S>)
    requires !plan.partialAgg && StatesOk(plan, udas, [], window)
    ensures StatesOk(plan, udas', [], window + rows)
  {
    udas' := udas;
    assert window + rows[..0] == window;
    for r := 0 to |rows|
      invariant StatesOk(plan, udas', [], window + rows[..r])
    {
      udas' := DeserializeAndMergeRow(plan, udas', rows[r], [], window + rows[..r]);
      assert window + rows[..r + 1] == (window + rows[..r]) + [rows[r]];
    }
    TakeAll(rows);
  }

  // ---- The node ----

  lemma StoresSomething<S(!new)>(plan: AggPlan<S>, m: ColumnMapping)
    requires Serves(m, plan) && Runnable(plan)
    ensures plan.partialAgg && plan.values != [] && plan.groups != [] ==> m.stored != []
  {
  }

  class AggNode<S(!new)> {
    const plan: AggPlan<S>
    const threshold: nat
    const mapping: ColumnMapping
    var aggHashMap: map<Key, AggHashValue<S>>
    var udasNoGroups: seq<S>
    var sent: seq<RowBatch<Row>>
    /** The collected rows of each group that are not folded yet. */
    ghost var pending: map<Key, seq<Row>>
    ghost var consumed: seq<RowBatch<Row>>

    ghost predicate Configured() {
      Serves(mapping, plan) && Runnable(plan)
    }

    /** The aggregates stand for the rows of a window. */
    ghost predicate Holds(window: seq<Row>)
      reads this`aggHashMap, this`udasNoGroups, this`pending
    {
      if plan.groups == [] then StatesOk(plan, udasNoGroups, [], window)
      else IsTable(plan, mapping, aggHashMap, pending, window, window)
    }

    ghost predicate Valid()
      reads this
    {
      && Configured()
      && Holds(plan.Open(consumed))
      && plan.ReportsAll(sent, plan.Windows(consumed))
    }

    constructor (plan: AggPlan<S>, threshold: nat)
      requires Runnable(plan)
      ensures Valid() && this.plan == plan && consumed == [] && sent == []
    {
      this.plan := plan;
      this.threshold := threshold;
      var m := CreateColumnMapping(plan);
      mapping := m;
      aggHashMap := map[];
      pending := map[];
      sent := [];
      consumed := [];
      var udas := CreateUDAInfoValues(plan);
      udasNoGroups := udas;
    }

    method HashRowBatch(rows: seq<Row>, ghost window: seq<Row>)
      requires Configured() && plan.groups != [] && Holds(window)
      modifies this`aggHashMap, this`pending
      ensures Holds(window + rows)
    {
      var table, after := FindGroups(plan, mapping, aggHashMap, rows, pending, window);
      forall k | k in table ensures |table[k].aggCols| == |mapping.stored| {
        assert TableEntry(plan, mapping, table, after, window + rows, window, k);
      }
      forall r | 0 <= r < |rows| ensures plan.GroupKey(rows[r]) in table {
        HasGroup(plan, mapping, table, after, window, rows, window, r);
      }
      var grown := ExtractColumns(plan, mapping, table, rows);
      GrownIsTable(plan, mapping, table, grown, after, window, rows);
      pending := PendingWith(plan, table, after, rows);
      if !plan.partialAgg {
        grown := DeserializeAndMergeGrouped(plan, mapping, grown, rows, pending, window);
      }
      aggHashMap := grown;
    }

    method Compact(rows: seq<Row>, ghost window: seq<Row>)
      requires Configured() && plan.groups != [] && Holds(window + rows)
      modifies this`aggHashMap, this`pending
      ensures Holds(window + rows)
    {
      StoresSomething(plan, mapping);
      if plan.partialAgg && plan.values != [] {
        var table, after := EvaluatePartialAggregates(plan, mapping, threshold, aggHashMap, rows, pending, window);
        aggHashMap, pending := table, after;
      }
    }

    method ClearAggState()
      requires Configured()
      modifies this`aggHashMap, this`udasNoGroups, this`pending
      ensures Holds([])
    {
      if plan.groups == [] {
        udasNoGroups := CreateUDAInfoValues(plan);
      }
      aggHashMap, pending := map[], map[];
    }

    method UpdateUngrouped(rows: seq<Row>, ghost window: seq<Row>)
      requires Configured() && plan.groups == [] && Holds(window)
      modifies this`udasNoGroups
      ensures Holds(window + rows)
    {
      if plan.partialAgg {
        udasNoGroups := UpdateNoGroups(plan, udasNoGroups, rows, window);
      } else {
        udasNoGroups := DeserializeAndMergeNoGroups(plan, udasNoGroups, rows, window);
      }
    }

    method EmitUngrouped(b: RowBatch<Row>, ghost window: seq<Row>) returns (out: RowBatch<Row>)
      requires Configured() && plan.groups == [] && Holds(window)
      ensures plan.Reports(out, Window(window, b.eow, b.eos))
    {
      var vals := EmitResults(plan, udasNoGroups, [], window);
      out := RowBatch([Row(vals)], b.eow, b.eos);
    }

    method EmitGroups(b: RowBatch<Row>, ghost window: seq<Row>) returns (out: RowBatch<Row>)
      requires Configured() && plan.groups != [] && Holds(window)
      ensures plan.Reports(out, Window(window, b.eow, b.eos))
    {
      StoresSomething(plan, mapping);
      var rows := ConvertAggHashMapToRowBatch(plan, mapping, aggHashMap, pending, window);
      out := RowBatch(rows, b.eow, b.eos);
    }

    /** If the batch closes its window, send the window's aggregate and start over. */
    method EmitIfReady(b: RowBatch<Row>, ghost window: seq<Row>)
      requires Configured() && Holds(window) && window == plan.Open(consumed) + b.rows &&
               plan.ReportsAll(sent, plan.Windows(consumed))
      modifies this
      ensures Valid() && consumed == old(consumed) + [b]
    {
      OpenSnoc(plan, consumed, b);
      if plan.Closes(b) {
        var out;
        if plan.groups == [] {
          out := EmitUngrouped(b, window);
        } else {
          out := EmitGroups(b, window);
        }
        ReportsSnoc(plan, sent, plan.Windows(consumed), out, Window(window, b.eow, b.eos));
        sent := sent + [out];
        ClearAggState();
      }
      consumed := consumed + [b];
    }

    method AggregateGroupByNone(b: RowBatch<Row>)
      requires Valid() && plan.groups == []
      modifies this
      ensures Valid() && consumed == old(consumed) + [b]
    {
      ghost var window := plan.Open(consumed);
      UpdateUngrouped(b.rows, window);
      EmitIfReady(b, window + b.rows);
    }

    method AggregateGroupByClause(b: RowBatch<Row>)
      requires Valid() && plan.groups != []
      modifies this
      ensures Valid() && consumed == old(consumed) + [b]
    {
      ghost var window := plan.Open(consumed);
      HashRowBatch(b.rows, window);
      Compact(b.rows, window);
      EmitIfReady(b, window + b.rows);
    }

    method ConsumeNextImpl(b: RowBatch<Row>)
      requires Valid()
      modifies this
      ensures Valid() && consumed == old(consumed) + [b]
    {
      if plan.groups == [] {
        AggregateGroupByNone(b);
      } else {
        AggregateGroupByClause(b);
      }
    }
  }

  /**
   Feed a stream to a node. Whatever the batching and the compaction threshold, it sends one batch per closed window
   with exactly the aggregate of that window's rows.
   */
  method RunAgg<S(!new)>(plan: AggPlan<S>, threshold: nat, stream: seq<RowBatch<Row>>) returns (out: seq<RowBatch<Row>>)
    requires Runnable(plan)
    ensures plan.ReportsAll(out, plan.Windows(stream))
    ensures plan.windowed && WellFormedPrefix(stream) ==> exists ends :: ByWindow(plan, stream, ends, out)
    ensures WellFormed(stream) ==> WellFormed(out)
    ensures WellFormed(stream) && !plan.windowed ==> |out| == 1 && plan.IsAggregate(out[0].rows, Rows(stream))
  {
    var node := new AggNode<S>(plan, threshold);
    for i := 0 to |stream|
      invariant node.Valid() && node.plan == plan && node.consumed == stream[..i]
    {
      node.ConsumeNextImpl(stream[i]);
      TakeNext(stream, i);
    }
    TakeAll(stream);
    out := node.sent;
    if plan.windowed && WellFormedPrefix(stream) {
      ghost var ends := ReportsByWindow(plan, stream, out);
    }
    if WellFormed(stream) {
      ReportsWellFormed(plan, stream, out);
      if !plan.windowed {
        OneWindow(plan, stream);
        ReportsAt(plan, out, plan.Windows(stream));
      }
    }
  }

  /**
   Feed the partial results of any number of agents, in any order, to a finalizing node: for each window it sends the
   aggregate of all rows that the agents had in it.
   */
  method RunFinalAgg<S(!new)>(plan: AggPlan<S>, threshold: nat, stream: seq<RowBatch<Row>>, ghost shares: seq<Share>)
    returns (out: seq<RowBatch<Row>>)
    requires IsPartial(plan) && SharesArrive(plan, shares, FinalPlan(plan).Windows(stream))
    ensures |out| == |shares| && forall i | 0 <= i < |out| :: DirectPlan(plan).IsAggregate(out[i].rows, shares[i].all)
    ensures WellFormed(stream) ==> WellFormed(out) && (!plan.windowed ==> |out| == 1)
  {
    ghost var final := FinalPlan(plan);
    ghost var windows := final.Windows(stream);
    out := RunAgg(FinalPlan(plan), threshold, stream);
    ReportsAt(final, out, windows);
    forall i | 0 <= i < |out| ensures DirectPlan(plan).IsAggregate(out[i].rows, shares[i].all) {
      assert final.Reports(out[i], windows[i]);
      var share := shares[i];
      TwoPhasePreservesMeaning(plan, share.all, share.agents, share.parts, windows[i].rows, out[i].rows);
    }
  }
}
