/** The limit node: pass on the first rows of a stream, end the output, and stop the sources that feed it. */
module Limit {
  import opened Basics
  import opened RowBatches

  datatype LimitPlan = LimitPlan(recordLimit: int, selectedCols: seq<nat>, abortableSrcs: seq<int>) {
    function Project(row: Row): Row {
      Row(seq(|selectedCols|, i requires 0 <= i < |selectedCols| => At(row, selectedCols[i])))
    }

    function ProjectAll(rows: seq<Row>): seq<Row> {
      if rows == [] then [] else ProjectAll(rows[..|rows| - 1]) + [Project(rows[|rows| - 1])]
    }

    /** The limit as a number of rows. */
    function Limit(): nat { if recordLimit < 0 then 0 else recordLimit }

    /** The selected columns of the first rows. */
    ghost function FirstRows(rows: seq<Row>): seq<Row> {
      ProjectAll(if |rows| <= Limit() then rows else rows[..Limit()])
    }
  }

  lemma {:induction false} ProjectAppend(plan: LimitPlan, a: seq<Row>, b: seq<Row>)
    ensures plan.ProjectAll(a + b) == plan.ProjectAll(a) + plan.ProjectAll(b)
  {
    if b == [] {
      assert a + b == a;
    } else {
      var init := b[..|b| - 1];
      assert (a + b)[..|a + b| - 1] == a + init;
      ProjectAppend(plan, a, init);
      Regroup(plan.ProjectAll(a), plan.ProjectAll(init), [plan.Project(b[|b| - 1])]);
    }
  }

  /** Column `i` of the output row is the selected column `i` of the input row. */
  ghost predicate IsSelected(plan: LimitPlan, row: Row, out: Row) {
    && |out.cols| == |plan.selectedCols|
    && forall i | 0 <= i < |out.cols| :: out.cols[i] == At(row, plan.selectedCols[i])
  }

  lemma {:induction false} ProjectAt(plan: LimitPlan, rows: seq<Row>)
    ensures |plan.ProjectAll(rows)| == |rows|
    ensures forall k | 0 <= k < |rows| :: IsSelected(plan, rows[k], plan.ProjectAll(rows)[k])
  {
    if rows != [] {
      ProjectAt(plan, rows[..|rows| - 1]);
    }
  }

  lemma FirstRowsMean(plan: LimitPlan, rows: seq<Row>)
    ensures var out := plan.FirstRows(rows);
            && |out| == (if plan.Limit() < |rows| then plan.Limit() else |rows|)
            && forall k | 0 <= k < |out| :: IsSelected(plan, rows[k], out[k])
  {
    ProjectAt(plan, if |rows| <= plan.Limit() then rows else rows[..plan.Limit()]);
  }

  lemma FirstRowsGrow(plan: LimitPlan, rows: seq<Row>, more: seq<Row>)
    requires |rows| >= plan.Limit()
    ensures plan.FirstRows(rows + more) == plan.FirstRows(rows)
  {
    assert (rows + more)[..plan.Limit()] == rows[..plan.Limit()];
    if |rows| == plan.Limit() {
      assert rows[..plan.Limit()] == rows;
      assert more == [] ==> rows + more == rows;
    }
  }

  /** Two streams of batches with the same markers. */
  ghost predicate SameMarkers(a: seq<RowBatch<Row>>, b: seq<RowBatch<Row>>) {
    if a == [] || b == [] then a == b
    else
      var x, y := a[|a| - 1], b[|b| - 1];
      x.eow == y.eow && x.eos == y.eos && SameMarkers(a[..|a| - 1], b[..|b| - 1])
  }

  lemma MarkersSnoc(a: seq<RowBatch<Row>>, b: seq<RowBatch<Row>>, x: RowBatch<Row>, y: RowBatch<Row>)
    requires SameMarkers(a, b) && x.eow == y.eow && x.eos == y.eos
    ensures SameMarkers(a + [x], b + [y])
  {
    var c, d := a + [x], b + [y];
    assert c[..|c| - 1] == a && d[..|d| - 1] == b && c[|c| - 1] == x && d[|d| - 1] == y;
  }

  lemma {:induction false} MarkersAt(a: seq<RowBatch<Row>>, b: seq<RowBatch<Row>>)
    requires SameMarkers(a, b)
    ensures |a| == |b| && forall i | 0 <= i < |a| :: a[i].eow == b[i].eow && a[i].eos == b[i].eos
  {
    if a != [] && b != [] {
      MarkersAt(a[..|a| - 1], b[..|b| - 1]);
    }
  }

  /** All but the last batch. */
  ghost function Init(s: seq<RowBatch<Row>>): seq<RowBatch<Row>> { if s == [] then [] else s[..|s| - 1] }

  ghost function Prefix(s: seq<RowBatch<Row>>, n: nat): seq<RowBatch<Row>> { if n <= |s| then s[..n] else s }

  lemma PrefixGrows(s: seq<RowBatch<Row>>, b: RowBatch<Row>, n: nat)
    requires n <= |s|
    ensures Prefix(s + [b], n) == Prefix(s, n) && Prefix(s + [b], |s| + 1) == s + [b]
  {
  }

  ghost predicate AllStopped(stopped: set<int>, ids: seq<int>) {
    forall id :: id in stopped <==> id in ids
  }

  class LimitNode {
    const plan: LimitPlan
    var recordsProcessed: int
    var limitReached: bool
    var sent: seq<RowBatch<Row>>
    var stoppedSources: set<int>
    ghost var consumed: seq<RowBatch<Row>>
    /** The batches that were passed on whole. */
    ghost var passed: seq<RowBatch<Row>>

    /** Before the limit: every batch was passed on. */
    ghost predicate Passing()
      reads this
    {
      && recordsProcessed == |Rows(consumed)| && (consumed == [] || recordsProcessed < plan.Limit())
      && stoppedSources == {} && SameMarkers(sent, consumed)
    }

    /** After the limit: the output has ended after the batches that were passed on, whatever the input still brings. */
    ghost predicate Stopped()
      reads this
    {
      && |Rows(consumed)| >= plan.Limit() && Ended(sent) && sent[|sent| - 1].eow
      && SameMarkers(Init(sent), passed) && AllStopped(stoppedSources, plan.abortableSrcs)
    }

    ghost predicate Valid()
      reads this
    {
      && Rows(sent) == plan.FirstRows(Rows(consumed))
      && passed == Prefix(consumed, |passed|)
      && if limitReached then Stopped() && |passed| < |consumed| else Passing() && passed == consumed
    }

    constructor (plan: LimitPlan)
      ensures Valid() && this.plan == plan && consumed == [] && sent == []
    {
      this.plan := plan;
      recordsProcessed, limitReached, sent, stoppedSources, consumed, passed := 0, false, [], {}, [], [];
    }

    method StopSources()
      requires stoppedSources == {}
      modifies this`stoppedSources
      ensures AllStopped(stoppedSources, plan.abortableSrcs)
    {
      for i := 0 to |plan.abortableSrcs|
        invariant AllStopped(stoppedSources, plan.abortableSrcs[..i])
      {
        stoppedSources := stoppedSources + {plan.abortableSrcs[i]};
        assert plan.abortableSrcs[..i + 1] == plan.abortableSrcs[..i] + [plan.abortableSrcs[i]];
      }
      assert plan.abortableSrcs[..|plan.abortableSrcs|] == plan.abortableSrcs;
    }

    /** The whole batch is below the limit. */
    method PassOn(b: RowBatch<Row>)
      requires Valid() && !limitReached && recordsProcessed + |b.rows| < plan.Limit()
      modifies this
      ensures Valid() && consumed == old(consumed) + [b]
    {
      var out := RowBatch(plan.ProjectAll(b.rows), b.eow, b.eos);
      BatchPassed(plan, sent, consumed, out, b);
      PrefixGrows(consumed, b, 0);
      recordsProcessed := recordsProcessed + |b.rows|;
      sent, consumed := sent + [out], consumed + [b];
      passed := consumed;
    }

    /** The batch fills up the limit: send the rest of the allowance, end the stream, stop the sources. */
    method SendLast(b: RowBatch<Row>, remainder: nat)
      requires Valid() && !limitReached && |Rows(consumed)| <= plan.Limit() &&
               remainder == plan.Limit() - |Rows(consumed)| <= |b.rows|
      modifies this
      ensures Valid() && consumed == old(consumed) + [b]
    {
      var out := RowBatch(plan.ProjectAll(b.rows[..remainder]), true, true);
      BatchCut(plan, sent, consumed, out, b, remainder);
      EndsWith(sent, out);
      PrefixGrows(consumed, b, |passed|);
      StopSources();
      recordsProcessed, limitReached := recordsProcessed + remainder, true;
      sent, consumed := sent + [out], consumed + [b];
    }

    method ConsumeNextImpl(b: RowBatch<Row>)
      requires Valid()
      modifies this
      ensures Valid() && consumed == old(consumed) + [b]
    {
      var remainder := plan.recordLimit - recordsProcessed;
      if remainder < 0 {
        remainder := 0;
      }
      if limitReached {
        RowsSnoc(consumed, b);
        FirstRowsGrow(plan, Rows(consumed), b.rows);
        PrefixGrows(consumed, b, |passed|);
        consumed := consumed + [b];
      } else if remainder > |b.rows| {
        PassOn(b);
      } else {
        SendLast(b, remainder);
      }
    }
  }

  lemma PassedRows(plan: LimitPlan, before: seq<Row>, rows: seq<Row>)
    requires |before| + |rows| <= plan.Limit()
    ensures plan.FirstRows(before + rows) == plan.FirstRows(before) + plan.ProjectAll(rows)
  {
    ProjectAppend(plan, before, rows);
  }

  /** The rows that fill up the limit. */
  lemma LastRows(plan: LimitPlan, before: seq<Row>, rows: seq<Row>, remainder: nat)
    requires |before| <= plan.Limit() && remainder == plan.Limit() - |before| <= |rows|
    ensures plan.FirstRows(before + rows) == plan.FirstRows(before) + plan.ProjectAll(rows[..remainder])
  {
    assert (before + rows)[..plan.Limit()] == before + rows[..remainder];
    ProjectAppend(plan, before, rows[..remainder]);
    if |before + rows| == plan.Limit() {
      assert (before + rows)[..plan.Limit()] == before + rows;
    }
  }

  lemma BatchPassed(plan: LimitPlan, sent: seq<RowBatch<Row>>, consumed: seq<RowBatch<Row>>, out: RowBatch<Row>,
                    b: RowBatch<Row>)
    requires Rows(sent) == plan.FirstRows(Rows(consumed)) && SameMarkers(sent, consumed)
    requires out == RowBatch(plan.ProjectAll(b.rows), b.eow, b.eos) && |Rows(consumed)| + |b.rows| <= plan.Limit()
    ensures Rows(sent + [out]) == plan.FirstRows(Rows(consumed + [b])) &&
            |Rows(consumed + [b])| == |Rows(consumed)| + |b.rows|
    ensures SameMarkers(sent + [out], consumed + [b])
  {
    RowsSnoc(consumed, b);
    RowsSnoc(sent, out);
    PassedRows(plan, Rows(consumed), b.rows);
    MarkersSnoc(sent, consumed, out, b);
  }

  lemma BatchCut(plan: LimitPlan, sent: seq<RowBatch<Row>>, consumed: seq<RowBatch<Row>>, out: RowBatch<Row>,
                 b: RowBatch<Row>, remainder: nat)
    requires Rows(sent) == plan.FirstRows(Rows(consumed)) && SameMarkers(sent, consumed)
    requires |Rows(consumed)| <= plan.Limit() && remainder == plan.Limit() - |Rows(consumed)| <= |b.rows|
    requires out.rows == plan.ProjectAll(b.rows[..remainder])
    ensures Rows(sent + [out]) == plan.FirstRows(Rows(consumed + [b])) && |Rows(consumed + [b])| >= plan.Limit()
  {
    RowsSnoc(consumed, b);
    RowsSnoc(sent, out);
    LastRows(plan, Rows(consumed), b.rows, remainder);
  }

  lemma EndsWith(sent: seq<RowBatch<Row>>, out: RowBatch<Row>)
    requires out.eos && out.eow
    ensures var all := sent + [out]; Init(all) == sent && Ended(all) && all[|all| - 1].eow
  {
  }

  lemma PassedWellFormed(out: seq<RowBatch<Row>>, stream: seq<RowBatch<Row>>)
    requires SameMarkers(out, stream) && WellFormed(stream)
    ensures WellFormed(out)
  {
    MarkersAt(out, stream);
  }

  lemma {:induction false} CutWellFormed(out: seq<RowBatch<Row>>, passed: seq<RowBatch<Row>>,
                                         stream: seq<RowBatch<Row>>)
    requires Ended(out) && out[|out| - 1].eow && SameMarkers(Init(out), passed)
    requires WellFormed(stream) && |passed| < |stream| && passed == stream[..|passed|]
    ensures WellFormed(out)
  {
    MarkersAt(Init(out), passed);
    forall i | 0 <= i < |out| - 1 ensures !out[i].eos {
      assert Init(out)[i].eos == passed[i].eos == stream[i].eos;
    }
  }

  /**
   Feed a stream to a limit node: it sends the selected columns of the first rows, a finished stream if the input is
   one, and it stops the sources exactly when the limit is reached.
   */
  method RunLimit(plan: LimitPlan, stream: seq<RowBatch<Row>>)
    returns (out: seq<RowBatch<Row>>, stoppedSources: set<int>)
    ensures Rows(out) == plan.FirstRows(Rows(stream))
    ensures |Rows(out)| == if plan.recordLimit < 0 then 0
                           else if plan.recordLimit < |Rows(stream)| then plan.recordLimit else |Rows(stream)|
    ensures forall k | 0 <= k < |Rows(out)| :: IsSelected(plan, Rows(stream)[k], Rows(out)[k])
    ensures WellFormed(stream) ==> WellFormed(out)
    ensures stream != [] ==>
            forall id :: id in stoppedSources <==> |Rows(stream)| >= plan.Limit() && id in plan.abortableSrcs
  {
    var node := new LimitNode(plan);
    for i := 0 to |stream|
      invariant node.Valid() && node.plan == plan && node.consumed == stream[..i]
    {
      node.ConsumeNextImpl(stream[i]);
      TakeNext(stream, i);
    }
    TakeAll(stream);
    out, stoppedSources := node.sent, node.stoppedSources;
    FirstRowsMean(plan, Rows(stream));
    if WellFormed(stream) {
      if node.limitReached {
        CutWellFormed(out, node.passed, stream);
      } else {
        PassedWellFormed(out, stream);
      }
    }
  }
}
