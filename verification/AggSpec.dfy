/**
 The reference behaviour of group-by aggregation: one output row per distinct group key, holding the fold
 of each aggregate over the rows with that key. User-defined aggregates are abstract.
 */
module AggSpec {
  import opened Basics
  import opened RowBatches

  /** The arguments of one update call. */
  datatype Args = Args(vals: seq<Value>)

  /**
   A user-defined aggregate with states of type `S`: the state of a fresh instance, the state after Init,
   and the operations on states.
   */
  datatype Uda<!S(!new)> = Uda(
    made: S, init: S, update: (S, Args) -> S, merge: (S, S) -> S,
    serialize: S -> string, deserialize: string -> S, finalize: S -> Value)
  {
    /** The state after updating with each of `args` in turn. */
    ghost function UpdateAll(s: S, args: seq<Args>): S {
      if args == [] then s else update(UpdateAll(s, args[..|args| - 1]), args[|args| - 1])
    }

    /** The state after Init and some updates. */
    ghost function Fold(args: seq<Args>): S { UpdateAll(init, args) }

    /** Merging two folds folds both inputs, in either order. */
    ghost predicate Merges(a: seq<Args>, b: seq<Args>) {
      merge(Fold(a), Fold(b)) == merge(Fold(b), Fold(a)) == Fold(a + b)
    }

    /** A fresh instance adopts a fold that is merged into it, and serializing loses nothing. */
    ghost predicate Transfers(a: seq<Args>) {
      merge(made, Fold(a)) == Fold(a) && deserialize(serialize(Fold(a))) == Fold(a)
    }

    /** What two-phase aggregation expects of an aggregate. */
    ghost predicate Lawful() {
      (forall a: seq<Args>, b: seq<Args> :: Merges(a, b)) && (forall a: seq<Args> :: Transfers(a))
    }
  }

  // ---- A fold that merges commutatively depends only on the multiset of its inputs ----

  /** Inputs with equal folds can be exchanged in context. */
  lemma FoldMiddle<S(!new)>(uda: Uda<S>, pre: seq<Args>, x: seq<Args>, y: seq<Args>, post: seq<Args>)
    requires uda.Lawful() && uda.Fold(x) == uda.Fold(y)
    ensures uda.Fold(pre + x + post) == uda.Fold(pre + y + post)
  {
    assert uda.Merges(pre, x) && uda.Merges(pre, y);
    assert uda.Merges(pre + x, post) && uda.Merges(pre + y, post);
  }

  lemma FoldSwap<S(!new)>(uda: Uda<S>, a: seq<Args>, b: seq<Args>)
    requires uda.Lawful()
    ensures uda.Fold(a + b) == uda.Fold(b + a)
  {
    assert uda.Merges(a, b) && uda.Merges(b, a);
  }

  /** Moving an input to the front does not change the fold. */
  lemma FoldMove<S(!new)>(uda: Uda<S>, pre: seq<Args>, x: Args, post: seq<Args>)
    requires uda.Lawful()
    ensures uda.Fold(pre + [x] + post) == uda.Fold([x] + (pre + post))
  {
    FoldSwap(uda, pre, [x]);
    FoldMiddle(uda, [], pre + [x], [x] + pre, post);
    assert [] + (pre + [x]) + post == pre + [x] + post;
    assert [] + ([x] + pre) + post == [x] + (pre + post);
  }

  /** The first element of a sequence, found in a permutation of it. */
  lemma FindHead<T>(a: seq<T>, b: seq<T>) returns (i: nat)
    requires a != [] && multiset(a) == multiset(b)
    ensures i < |b| && b[i] == a[0] && b == b[..i] + [a[0]] + b[i + 1..]
    ensures a == [a[0]] + a[1..]
    ensures multiset(a[1..]) == multiset(b[..i] + b[i + 1..])
  {
    assert a == [a[0]] + a[1..];
    assert a[0] in multiset(b);
    i :| 0 <= i < |b| && b[i] == a[0];
    assert b == b[..i] + [a[0]] + b[i + 1..];
    assert multiset(b) == multiset{a[0]} + multiset(b[..i] + b[i + 1..]);
    assert multiset(a) == multiset{a[0]} + multiset(a[1..]);
    assert multiset(a[1..]) == multiset(a) - multiset{a[0]} == multiset(b) - multiset{a[0]};
  }

  /** A lawful fold depends only on the multiset of its inputs. */
  lemma {:induction false} FoldPermutation<S(!new)>(uda: Uda<S>, a: seq<Args>, b: seq<Args>)
    requires uda.Lawful() && multiset(a) == multiset(b)
    ensures uda.Fold(a) == uda.Fold(b)
    decreases |a|
  {
    if a == [] {
      assert |multiset(b)| == 0;
    } else {
      var i := FindHead(a, b);
      var x, rest, others := a[0], a[1..], b[..i] + b[i + 1..];
      FoldPermutation(uda, rest, others);
      assert uda.Merges([x], rest) && uda.Merges([x], others);
      FoldMove(uda, b[..i], x, b[i + 1..]);
    }
  }

  // ---- Plans ----

  /** An aggregate argument: a column of the row, or a constant. */
  datatype Arg = Column(idx: nat) | Constant(value: Value)

  datatype AggExpr<!S(!new)> = AggExpr(uda: Uda<S>, args: seq<Arg>) {
    ghost function ArgsOf(row: Row): Args {
      Args(seq(|args|, j requires 0 <= j < |args| => if args[j].Column? then At(row, args[j].idx) else args[j].value))
    }

    ghost function ArgsList(rows: seq<Row>): seq<Args> {
      if rows == [] then [] else ArgsList(rows[..|rows| - 1]) + [ArgsOf(rows[|rows| - 1])]
    }
  }

  /** The rows aggregated together, and the markers of the batch that closed the window. */
  datatype Window = Window(rows: seq<Row>, eow: bool, eos: bool)

  /**
   An aggregation: the group columns, the aggregates, whether it emits per window, whether it folds rows itself
   or merges serialized partial states, and whether it finalizes or serializes its results.
   */
  datatype AggPlan<!S(!new)> = AggPlan(
    groups: seq<nat>, values: seq<AggExpr<S>>, windowed: bool, partialAgg: bool, finalizeResults: bool)
  {
    function GroupKey(row: Row): Key {
      Key(seq(|groups|, i requires 0 <= i < |groups| => At(row, groups[i])))
    }

    /** The rows of one group, in arrival order. */
    ghost function RowsOf(rows: seq<Row>, k: Key): seq<Row> {
      if rows == [] then []
      else
        var last := rows[|rows| - 1];
        if GroupKey(last) == k then RowsOf(rows[..|rows| - 1], k) + [last] else RowsOf(rows[..|rows| - 1], k)
    }

    /** The serialized partial state of aggregate `i` in a row sent by another agent. */
    function PartOf(row: Row, i: nat): string {
      match At(row, |groups| + i) case Str(chars) => chars case Fixed(_) => []
    }

    /** Merge the partial states of rows into a state, one after the other. */
    ghost function MergeRows(i: nat, s: S, rows: seq<Row>): S
      requires i < |values|
    {
      if rows == [] then s
      else
        var uda := values[i].uda;
        uda.merge(MergeRows(i, s, rows[..|rows| - 1]), uda.deserialize(PartOf(rows[|rows| - 1], i)))
    }

    /** The state of aggregate `i` over the rows of one group. */
    ghost function StateOf(i: nat, rows: seq<Row>): S
      requires i < |values|
    {
      if partialAgg then values[i].uda.Fold(values[i].ArgsList(rows)) else MergeRows(i, values[i].uda.made, rows)
    }

    function Emit(i: nat, s: S): Value
      requires i < |values|
    {
      if finalizeResults then values[i].uda.finalize(s) else Str(values[i].uda.serialize(s))
    }

    ghost function Results(rows: seq<Row>): seq<Value> {
      seq(|values|, i requires 0 <= i < |values| => Emit(i, StateOf(i, rows)))
    }

    ghost function ResultRow(k: Key, window: seq<Row>): Row {
      Row(k.vals + Results(RowsOf(window, k)))
    }

    ghost function ResultRows(ks: seq<Key>, window: seq<Row>): seq<Row> {
      if ks == [] then [] else ResultRows(ks[..|ks| - 1], window) + [ResultRow(ks[|ks| - 1], window)]
    }

    /** `ks` lists the group keys of a window, each once. */
    ghost predicate ListsKeys(ks: seq<Key>, window: seq<Row>) {
      && (forall i, j | 0 <= i < j < |ks| :: ks[i] != ks[j])
      && (forall k :: k in ks <==> RowsOf(window, k) != [])
    }

    ghost predicate IsAggregateWith(ks: seq<Key>, out: seq<Row>, window: seq<Row>) {
      ListsKeys(ks, window) && out == ResultRows(ks, window)
    }

    /** One row per group in some order; without group columns, exactly one row over all rows. */
    ghost predicate IsAggregate(out: seq<Row>, window: seq<Row>) {
      if groups == [] then out == [Row(Results(window))]
      else exists ks :: IsAggregateWith(ks, out, window)
    }

    /** The batch completes a window: the end of the stream, or the end of a window in a windowed aggregate. */
    predicate Closes(b: RowBatch<Row>) {
      b.eos || (b.eow && windowed)
    }

    /** The rows since the last closed window. */
    ghost function Open(batches: seq<RowBatch<Row>>): seq<Row> {
      if batches == [] then []
      else
        var init, last := batches[..|batches| - 1], batches[|batches| - 1];
        if Closes(last) then [] else Open(init) + last.rows
    }

    /** The closed windows. */
    ghost function Windows(batches: seq<RowBatch<Row>>): seq<Window> {
      if batches == [] then []
      else
        var init, last := batches[..|batches| - 1], batches[|batches| - 1];
        if Closes(last) then Windows(init) + [Window(Open(init) + last.rows, last.eow, last.eos)] else Windows(init)
    }

    /** The batch reports the aggregate of a window and carries its markers. */
    ghost predicate Reports(b: RowBatch<Row>, w: Window) {
      IsAggregate(b.rows, w.rows) && b.eow == w.eow && b.eos == w.eos
    }

    /** One batch per window, in order. */
    ghost predicate ReportsAll(out: seq<RowBatch<Row>>, windows: seq<Window>) {
      if out == [] || windows == [] then out == [] && windows == []
      else Reports(out[|out| - 1], windows[|windows| - 1]) && ReportsAll(out[..|out| - 1], windows[..|windows| - 1])
    }
  }

  lemma ReportsSnoc<S(!new)>(plan: AggPlan<S>, out: seq<RowBatch<Row>>, windows: seq<Window>, b: RowBatch<Row>,
                             w: Window)
    requires plan.ReportsAll(out, windows) && plan.Reports(b, w)
    ensures plan.ReportsAll(out + [b], windows + [w])
  {
    var c, d := out + [b], windows + [w];
    assert c[..|c| - 1] == out && d[..|d| - 1] == windows && c[|c| - 1] == b && d[|d| - 1] == w;
  }

  lemma {:induction false} ReportsAt<S(!new)>(plan: AggPlan<S>, out: seq<RowBatch<Row>>, windows: seq<Window>)
    requires plan.ReportsAll(out, windows)
    ensures |out| == |windows| && forall i | 0 <= i < |out| :: plan.Reports(out[i], windows[i])
  {
    if out != [] && windows != [] {
      ReportsAt(plan, out[..|out| - 1], windows[..|windows| - 1]);
    }
  }

  /** The rows of some windows, in order. */
  ghost function WindowRows(windows: seq<Window>): seq<Row> {
    if windows == [] then [] else WindowRows(windows[..|windows| - 1]) + windows[|windows| - 1].rows
  }

  lemma OpenSnoc<S(!new)>(plan: AggPlan<S>, batches: seq<RowBatch<Row>>, b: RowBatch<Row>)
    ensures plan.Open(batches + [b]) == if plan.Closes(b) then [] else plan.Open(batches) + b.rows
    ensures plan.Windows(batches + [b]) ==
            if plan.Closes(b) then plan.Windows(batches) + [Window(plan.Open(batches) + b.rows, b.eow, b.eos)]
            else plan.Windows(batches)
  {
    assert (batches + [b])[..|batches|] == batches;
  }

  /** The closed windows and the open one partition the input. */
  lemma {:induction false} WindowsPartition<S(!new)>(plan: AggPlan<S>, batches: seq<RowBatch<Row>>)
    ensures WindowRows(plan.Windows(batches)) + plan.Open(batches) == Rows(batches)
  {
    if batches != [] {
      var init, last := batches[..|batches| - 1], batches[|batches| - 1];
      WindowsPartition(plan, init);
      Regroup(WindowRows(plan.Windows(init)), plan.Open(init), last.rows);
      if plan.Closes(last) {
        assert plan.Windows(batches)[..|plan.Windows(batches)| - 1] == plan.Windows(init);
      }
    }
  }

  lemma {:induction false} NoWindow<S(!new)>(plan: AggPlan<S>, batches: seq<RowBatch<Row>>)
    requires forall i | 0 <= i < |batches| :: !plan.Closes(batches[i])
    ensures plan.Windows(batches) == [] && plan.Open(batches) == Rows(batches)
  {
    if batches != [] {
      NoWindow(plan, batches[..|batches| - 1]);
    }
  }

  /** An aggregate that is not windowed has one window: the whole stream. */
  lemma OneWindow<S(!new)>(plan: AggPlan<S>, stream: seq<RowBatch<Row>>)
    requires !plan.windowed && WellFormed(stream)
    ensures plan.Windows(stream) == [Window(Rows(stream), true, true)]
  {
    NoWindow(plan, stream[..|stream| - 1]);
  }

  lemma {:induction false} WindowMarkers<S(!new)>(plan: AggPlan<S>, batches: seq<RowBatch<Row>>)
    requires forall i | 0 <= i < |batches| :: !batches[i].eos
    ensures forall i | 0 <= i < |plan.Windows(batches)| :: !plan.Windows(batches)[i].eos
  {
    if batches != [] {
      WindowMarkers(plan, batches[..|batches| - 1]);
    }
  }

  /** A finished input stream yields a finished output stream. */
  lemma ReportsWellFormed<S(!new)>(plan: AggPlan<S>, stream: seq<RowBatch<Row>>, out: seq<RowBatch<Row>>)
    requires WellFormed(stream) && plan.ReportsAll(out, plan.Windows(stream))
    ensures WellFormed(out) && plan.Open(stream) == []
  {
    var init, last := stream[..|stream| - 1], stream[|stream| - 1];
    WindowMarkers(plan, init);
    ReportsAt(plan, out, plan.Windows(stream));
    assert plan.Windows(stream) == plan.Windows(init) + [Window(plan.Open(init) + last.rows, true, true)];
    forall i | 0 <= i < |out| && out[i].eos ensures i == |out| - 1 && out[i].eow {
      assert plan.Reports(out[i], plan.Windows(stream)[i]);
    }
    assert plan.Reports(out[|out| - 1], plan.Windows(stream)[|out| - 1]);
  }
}
