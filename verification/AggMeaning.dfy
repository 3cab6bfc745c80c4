/**
 What an aggregation means, in rows, columns and markers: where the windows of a stream lie, and what the rows of an
 aggregate are.
 */
module AggMeaning {
  import opened Basics
  import opened RowBatches
  import opened AggSpec

  // ---- Where windows end ----

  ghost predicate EndAt(stream: seq<RowBatch<Row>>, ends: seq<nat>, k: nat) {
    k in ends <==> k < |stream| && stream[k].eow
  }

  /** `ends` lists in order the positions of the batches that mark the end of a window. */
  ghost predicate AreEnds(stream: seq<RowBatch<Row>>, ends: seq<nat>) {
    && (forall i, j | 0 <= i < j < |ends| :: ends[i] < ends[j])
    && (forall k: nat :: EndAt(stream, ends, k))
  }

  /** The position of the first batch of window `i`. */
  ghost function Start(ends: seq<nat>, i: nat): nat
    requires i <= |ends|
  {
    if i == 0 then 0 else ends[i - 1] + 1
  }

  /** The batch has the markers of the end of window `i` and the aggregate of the rows of its batches. */
  ghost predicate ReportsWindow<S(!new)>(plan: AggPlan<S>, stream: seq<RowBatch<Row>>, ends: seq<nat>, i: nat,
                                         b: RowBatch<Row>)
    requires i < |ends|
  {
    && Start(ends, i) <= ends[i] < |stream|
    && b.eow == stream[ends[i]].eow && b.eos == stream[ends[i]].eos
    && plan.IsAggregate(b.rows, Rows(stream[Start(ends, i)..ends[i] + 1]))
  }

  /** One batch per window, in order. */
  ghost predicate ByWindow<S(!new)>(plan: AggPlan<S>, stream: seq<RowBatch<Row>>, ends: seq<nat>,
                                    out: seq<RowBatch<Row>>) {
    && AreEnds(stream, ends) && |out| == |ends|
    && forall i | 0 <= i < |out| :: ReportsWindow(plan, stream, ends, i, out[i])
  }

  ghost predicate WindowAt<S(!new)>(plan: AggPlan<S>, stream: seq<RowBatch<Row>>, ends: seq<nat>, i: nat)
    requires i < |ends| && i < |plan.Windows(stream)|
  {
    && Start(ends, i) <= ends[i] < |stream|
    && plan.Windows(stream)[i] ==
       Window(Rows(stream[Start(ends, i)..ends[i] + 1]), stream[ends[i]].eow, stream[ends[i]].eos)
  }

  ghost predicate Cut<S(!new)>(plan: AggPlan<S>, stream: seq<RowBatch<Row>>, ends: seq<nat>) {
    && AreEnds(stream, ends) && |plan.Windows(stream)| == |ends|
    && (forall i | 0 <= i < |ends| :: WindowAt(plan, stream, ends, i))
    && Start(ends, |ends|) <= |stream| && plan.Open(stream) == Rows(stream[Start(ends, |ends|)..])
  }

  /** The ends of windows after one more batch, batch `n`. */
  ghost function Next(ends: seq<nat>, n: nat, b: RowBatch<Row>): seq<nat> {
    if b.eow then ends + [n] else ends
  }

  lemma EndsNext(stream: seq<RowBatch<Row>>, ends: seq<nat>, b: RowBatch<Row>)
    requires AreEnds(stream, ends)
    ensures AreEnds(stream + [b], Next(ends, |stream|, b))
  {
    var more, next := stream + [b], Next(ends, |stream|, b);
    forall k: nat ensures EndAt(more, next, k) {
      assert EndAt(stream, ends, k);
    }
    forall i, j | 0 <= i < j < |next| ensures next[i] < next[j] {
      if j == |ends| {
        assert ends[i] in ends && EndAt(stream, ends, ends[i]);
      }
    }
  }

  lemma OpenRows(stream: seq<RowBatch<Row>>, from: nat, b: RowBatch<Row>)
    requires from <= |stream|
    ensures Rows((stream + [b])[from..]) == Rows(stream[from..]) + b.rows
    ensures Rows((stream + [b])[from..|stream| + 1]) == Rows(stream[from..]) + b.rows
  {
    assert (stream + [b])[from..|stream| + 1] == (stream + [b])[from..];
    assert (stream + [b])[from..] == stream[from..] + [b];
    RowsSnoc(stream[from..], b);
  }

  lemma OldWindow<S(!new)>(plan: AggPlan<S>, stream: seq<RowBatch<Row>>, ends: seq<nat>, b: RowBatch<Row>, i: nat)
    requires i < |ends| && i < |plan.Windows(stream)| && WindowAt(plan, stream, ends, i)
    ensures var next := Next(ends, |stream|, b);
            i < |plan.Windows(stream + [b])| && i < |next| && WindowAt(plan, stream + [b], next, i)
  {
    OpenSnoc(plan, stream, b);
    var more := stream + [b];
    assert more[Start(ends, i)..ends[i] + 1] == stream[Start(ends, i)..ends[i] + 1];
  }

  lemma NewWindow<S(!new)>(plan: AggPlan<S>, stream: seq<RowBatch<Row>>, ends: seq<nat>, b: RowBatch<Row>)
    requires |plan.Windows(stream)| == |ends| && Start(ends, |ends|) <= |stream|
    requires plan.Open(stream) == Rows(stream[Start(ends, |ends|)..]) && plan.windowed && b.eow
    ensures |plan.Windows(stream + [b])| == |ends| + 1
    ensures WindowAt(plan, stream + [b], ends + [|stream|], |ends|)
  {
    var more, next, from := stream + [b], ends + [|stream|], Start(ends, |ends|);
    var w := Window(plan.Open(stream) + b.rows, b.eow, b.eos);
    assert plan.Windows(more) == plan.Windows(stream) + [w] by {
      OpenSnoc(plan, stream, b);
    }
    assert Rows(more[from..|stream| + 1]) == w.rows by {
      OpenRows(stream, from, b);
    }
    assert Start(next, |ends|) == from && next[|ends|] == |stream| && more[|stream|] == b;
  }

  lemma CutNext<S(!new)>(plan: AggPlan<S>, stream: seq<RowBatch<Row>>, ends: seq<nat>, b: RowBatch<Row>)
    requires Cut(plan, stream, ends) && plan.windowed && (b.eos ==> b.eow)
    ensures Cut(plan, stream + [b], Next(ends, |stream|, b))
  {
    var more, next := stream + [b], Next(ends, |stream|, b);
    var from := Start(ends, |ends|);
    EndsNext(stream, ends, b);
    OpenSnoc(plan, stream, b);
    OpenRows(stream, from, b);
    forall i | 0 <= i < |next| ensures WindowAt(plan, more, next, i) {
      if i < |ends| {
        OldWindow(plan, stream, ends, b, i);
      } else {
        NewWindow(plan, stream, ends, b);
      }
    }
    if b.eow {
      assert more[|more|..] == [];
    }
  }

  lemma NoWindow<S(!new)>(plan: AggPlan<S>)
    ensures Cut(plan, [], [])
  {
    forall k: nat ensures EndAt([], [], k) {
    }
  }

  /** Every end of a stream is the end of a window. */
  ghost predicate EosEndsWindow(stream: seq<RowBatch<Row>>) {
    stream == [] ||
    ((stream[|stream| - 1].eos ==> stream[|stream| - 1].eow) && EosEndsWindow(stream[..|stream| - 1]))
  }

  ghost function EndsOf(stream: seq<RowBatch<Row>>): seq<nat> {
    if stream == [] then []
    else Next(EndsOf(stream[..|stream| - 1]), |stream| - 1, stream[|stream| - 1])
  }

  lemma {:induction false} WindowsCut<S(!new)>(plan: AggPlan<S>, stream: seq<RowBatch<Row>>)
    requires plan.windowed && EosEndsWindow(stream)
    ensures Cut(plan, stream, EndsOf(stream))
  {
    if stream == [] {
      NoWindow(plan);
    } else {
      WindowsCut(plan, stream[..|stream| - 1]);
      CutNext(plan, stream[..|stream| - 1], EndsOf(stream[..|stream| - 1]), stream[|stream| - 1]);
      assert stream == stream[..|stream| - 1] + [stream[|stream| - 1]];
    }
  }

  lemma {:induction false} EosEnds(stream: seq<RowBatch<Row>>)
    requires forall i | 0 <= i < |stream| :: stream[i].eos ==> stream[i].eow
    ensures EosEndsWindow(stream)
  {
    if stream != [] {
      EosEnds(stream[..|stream| - 1]);
    }
  }

  /** A windowed aggregate reports each stretch of batches up to an end of window. */
  lemma ReportsByWindow<S(!new)>(plan: AggPlan<S>, stream: seq<RowBatch<Row>>, out: seq<RowBatch<Row>>)
    returns (ends: seq<nat>)
    requires plan.windowed && WellFormedPrefix(stream) && plan.ReportsAll(out, plan.Windows(stream))
    ensures ByWindow(plan, stream, ends, out)
  {
    ends := EndsOf(stream);
    EosEnds(stream);
    WindowsCut(plan, stream);
    ReportsAt(plan, out, plan.Windows(stream));
    forall i | 0 <= i < |out| ensures ReportsWindow(plan, stream, ends, i, out[i]) {
      assert WindowAt(plan, stream, ends, i) && plan.Reports(out[i], plan.Windows(stream)[i]);
    }
  }

  // ---- What the rows of an aggregate are ----

  /** Two rows have equal values in all group columns. */
  ghost predicate SameGroup<S(!new)>(plan: AggPlan<S>, a: Row, b: Row) {
    forall j | 0 <= j < |plan.groups| :: At(a, plan.groups[j]) == At(b, plan.groups[j])
  }

  /** The rows of the group of a row, in order. */
  ghost function GroupOf<S(!new)>(plan: AggPlan<S>, rows: seq<Row>, row: Row): seq<Row> {
    if rows == [] then []
    else GroupOf(plan, rows[..|rows| - 1], row) +
         if SameGroup(plan, rows[|rows| - 1], row) then [rows[|rows| - 1]] else []
  }

  /** The value of an argument of an aggregate for a row. */
  ghost predicate ArgIs(arg: Arg, row: Row, v: Value) {
    match arg
    case Column(idx) => v == At(row, idx)
    case Constant(value) => v == value
  }

  /** The aggregate's updates take the arguments of the rows, one after the other. */
  ghost predicate UpdatesWith<S(!new)>(expr: AggExpr<S>, rows: seq<Row>, updates: seq<Args>) {
    && |updates| == |rows|
    && forall k | 0 <= k < |rows| ::
         && |updates[k].vals| == |expr.args|
         && forall j | 0 <= j < |expr.args| :: ArgIs(expr.args[j], rows[k], updates[k].vals[j])
  }

  /** Result `i` over some rows: the fold of their arguments, finalized or serialized. */
  ghost predicate ResultIs<S(!new)>(plan: AggPlan<S>, i: nat, rows: seq<Row>, v: Value)
    requires i < |plan.values|
  {
    var uda := plan.values[i].uda;
    exists updates :: UpdatesWith(plan.values[i], rows, updates) &&
      v == if plan.finalizeResults then uda.finalize(uda.UpdateAll(uda.init, updates))
           else Str(uda.serialize(uda.UpdateAll(uda.init, updates)))
  }

  /** The results stand behind the group columns. */
  ghost predicate ResultAt<S(!new)>(plan: AggPlan<S>, i: nat, rows: seq<Row>, out: Row)
    requires i < |plan.values| && |out.cols| == |plan.groups| + |plan.values|
  {
    ResultIs(plan, i, rows, out.cols[|plan.groups| + i])
  }

  /** The output row of the group of `row`: first the group columns, then the results over the group's rows. */
  ghost predicate IsGroupRow<S(!new)>(plan: AggPlan<S>, window: seq<Row>, row: Row, out: Row) {
    && |out.cols| == |plan.groups| + |plan.values|
    && (forall j | 0 <= j < |plan.groups| :: out.cols[j] == At(row, plan.groups[j]))
    && (forall i | 0 <= i < |plan.values| :: ResultAt(plan, i, GroupOf(plan, window, row), out))
  }

  ghost predicate Differ<S(!new)>(plan: AggPlan<S>, a: Row, b: Row) {
    exists j :: 0 <= j < |plan.groups| && At(a, j) != At(b, j)
  }

  lemma SameKey<S(!new)>(plan: AggPlan<S>, a: Row, b: Row)
    ensures plan.GroupKey(a) == plan.GroupKey(b) <==> SameGroup(plan, a, b)
  {
    var x, y := plan.GroupKey(a).vals, plan.GroupKey(b).vals;
    if SameGroup(plan, a, b) {
      assert x == y;
    }
    if plan.GroupKey(a) == plan.GroupKey(b) {
      forall j | 0 <= j < |plan.groups| ensures At(a, plan.groups[j]) == At(b, plan.groups[j]) {
        assert x[j] == y[j];
      }
    }
  }

  lemma {:induction false} GroupIsRowsOf<S(!new)>(plan: AggPlan<S>, rows: seq<Row>, row: Row)
    ensures GroupOf(plan, rows, row) == plan.RowsOf(rows, plan.GroupKey(row))
  {
    if rows != [] {
      GroupIsRowsOf(plan, rows[..|rows| - 1], row);
      SameKey(plan, rows[|rows| - 1], row);
    }
  }

  lemma {:induction false} ArgsAreUpdates<S(!new)>(expr: AggExpr<S>, rows: seq<Row>)
    ensures UpdatesWith(expr, rows, expr.ArgsList(rows))
  {
    if rows != [] {
      ArgsAreUpdates(expr, rows[..|rows| - 1]);
    }
  }

  lemma ResultSpelledOut<S(!new)>(plan: AggPlan<S>, i: nat, rows: seq<Row>)
    requires plan.partialAgg && i < |plan.values|
    ensures ResultIs(plan, i, rows, plan.Results(rows)[i])
  {
    ArgsAreUpdates(plan.values[i], rows);
  }

  /** A key that occurs is the key of a row. */
  lemma {:induction false} KeyOccurs<S(!new)>(plan: AggPlan<S>, rows: seq<Row>, k: Key) returns (row: Row)
    requires plan.RowsOf(rows, k) != []
    ensures row in rows && plan.GroupKey(row) == k
  {
    var init, last := rows[..|rows| - 1], rows[|rows| - 1];
    if plan.GroupKey(last) == k {
      row := last;
    } else {
      row := KeyOccurs(plan, init, k);
    }
  }

  lemma {:induction false} RowOccurs<S(!new)>(plan: AggPlan<S>, rows: seq<Row>, row: Row)
    requires row in rows
    ensures plan.RowsOf(rows, plan.GroupKey(row)) != []
  {
    if rows[|rows| - 1] != row {
      assert row in rows[..|rows| - 1];
      RowOccurs(plan, rows[..|rows| - 1], row);
    }
  }

  lemma {:induction false} ResultRowAt<S(!new)>(plan: AggPlan<S>, ks: seq<Key>, window: seq<Row>, k: nat)
    requires k < |ks|
    ensures |plan.ResultRows(ks, window)| == |ks|
    ensures plan.ResultRows(ks, window)[k] == plan.ResultRow(ks[k], window)
  {
    if |ks| > 1 {
      ResultRowAt(plan, ks[..|ks| - 1], window, if k < |ks| - 1 then k else 0);
    }
  }

  lemma {:induction false} ResultRowsLength<S(!new)>(plan: AggPlan<S>, ks: seq<Key>, window: seq<Row>)
    ensures |plan.ResultRows(ks, window)| == |ks|
  {
    if ks != [] {
      ResultRowsLength(plan, ks[..|ks| - 1], window);
    }
  }

  lemma RowOfGroup<S(!new)>(plan: AggPlan<S>, window: seq<Row>, row: Row)
    requires plan.partialAgg
    ensures IsGroupRow(plan, window, row, plan.ResultRow(plan.GroupKey(row), window))
  {
    var out, group := plan.ResultRow(plan.GroupKey(row), window), GroupOf(plan, window, row);
    GroupIsRowsOf(plan, window, row);
    forall i | 0 <= i < |plan.values| ensures ResultAt(plan, i, group, out) {
      ResultSpelledOut(plan, i, group);
    }
  }

  /** The group of the row has an output row. */
  ghost predicate Reported<S(!new)>(plan: AggPlan<S>, window: seq<Row>, row: Row, out: seq<Row>) {
    exists k :: 0 <= k < |out| && IsGroupRow(plan, window, row, out[k])
  }

  /** The output row is that of the group of some row. */
  ghost predicate Explained<S(!new)>(plan: AggPlan<S>, window: seq<Row>, out: Row) {
    exists row :: row in window && IsGroupRow(plan, window, row, out)
  }

  lemma RowReported<S(!new)>(plan: AggPlan<S>, ks: seq<Key>, window: seq<Row>, row: Row)
    requires plan.partialAgg && row in window
    requires forall k :: k in ks <==> plan.RowsOf(window, k) != []
    ensures Reported(plan, window, row, plan.ResultRows(ks, window))
  {
    RowOccurs(plan, window, row);
    var k :| 0 <= k < |ks| && ks[k] == plan.GroupKey(row);
    ResultRowAt(plan, ks, window, k);
    RowOfGroup(plan, window, row);
  }

  lemma RowExplained<S(!new)>(plan: AggPlan<S>, k: Key, window: seq<Row>)
    requires plan.partialAgg && plan.RowsOf(window, k) != []
    ensures Explained(plan, window, plan.ResultRow(k, window))
  {
    var row := KeyOccurs(plan, window, k);
    RowOfGroup(plan, window, row);
  }

  lemma DifferentRows<S(!new)>(plan: AggPlan<S>, ks: seq<Key>, window: seq<Row>, j: nat, k: nat)
    requires j < |ks| && k < |ks| && ks[j] != ks[k]
    requires plan.RowsOf(window, ks[j]) != [] && plan.RowsOf(window, ks[k]) != []
    ensures |plan.ResultRows(ks, window)| == |ks|
    ensures Differ(plan, plan.ResultRows(ks, window)[j], plan.ResultRows(ks, window)[k])
  {
    ResultRowAt(plan, ks, window, j);
    ResultRowAt(plan, ks, window, k);
    var r := KeyOccurs(plan, window, ks[j]);
    var s := KeyOccurs(plan, window, ks[k]);
    var a, b := plan.ResultRows(ks, window)[j], plan.ResultRows(ks, window)[k];
    var i := DifferentAt(ks[j].vals, ks[k].vals);
    assert At(a, i) != At(b, i);
  }

  lemma DifferentAt(x: seq<Value>, y: seq<Value>) returns (i: nat)
    requires |x| == |y| && x != y
    ensures i < |x| && x[i] != y[i]
  {
    i :| 0 <= i < |x| && x[i] != y[i];
  }

  /**
   An aggregate that folds rows: every row of the window has the output row of its group, every output row is that of
   the group of some row, and no two output rows are of the same group.
   */
  lemma AggregateMeans<S(!new)>(plan: AggPlan<S>, out: seq<Row>, window: seq<Row>)
    requires plan.partialAgg && plan.groups != [] && plan.IsAggregate(out, window)
    ensures forall row | row in window :: Reported(plan, window, row, out)
    ensures forall k | 0 <= k < |out| :: Explained(plan, window, out[k])
    ensures forall j, k | 0 <= j < k < |out| :: Differ(plan, out[j], out[k])
  {
    var ks :| plan.IsAggregateWith(ks, out, window);
    ResultRowsLength(plan, ks, window);
    forall row | row in window ensures Reported(plan, window, row, out) {
      RowReported(plan, ks, window, row);
    }
    forall k | 0 <= k < |out| ensures Explained(plan, window, out[k]) {
      ResultRowAt(plan, ks, window, k);
      RowExplained(plan, ks[k], window);
    }
    forall j, k | 0 <= j < k < |out| ensures Differ(plan, out[j], out[k]) {
      assert ks[j] in ks && ks[k] in ks;
      DifferentRows(plan, ks, window, j, k);
    }
  }

  /** Without group columns there is exactly one output row, the results over all rows. */
  lemma UngroupedMeans<S(!new)>(plan: AggPlan<S>, out: seq<Row>, window: seq<Row>)
    requires plan.partialAgg && plan.groups == [] && plan.IsAggregate(out, window)
    ensures |out| == 1 && |out[0].cols| == |plan.values|
    ensures forall i | 0 <= i < |plan.values| :: ResultIs(plan, i, window, out[0].cols[i])
  {
    forall i | 0 <= i < |plan.values| ensures ResultIs(plan, i, window, out[0].cols[i]) {
      ResultSpelledOut(plan, i, window);
    }
  }
}
