/** Runs of an operator: the calls its parents make, and the stream each parent sends over a run. */
module Runs {
  import opened RowBatches

  /** One ConsumeNext call: which parent sends which batch, and whether a flush timeout has passed. */
  datatype Call = Call(parent: nat, batch: RowBatch<Row>, timedOut: bool)

  /** The stream that one parent sends over a run. */
  ghost function StreamFrom(calls: seq<Call>, p: nat): seq<RowBatch<Row>> {
    if calls == [] then []
    else
      var last := calls[|calls| - 1];
      StreamFrom(calls[..|calls| - 1], p) + if last.parent == p then [last.batch] else []
  }

  /** Every one of `n` parents sends a well-formed stream, so far. */
  ghost predicate WellFormedCalls(n: nat, calls: seq<Call>) {
    && (forall i | 0 <= i < |calls| :: calls[i].parent < n)
    && (forall p: nat | p < n :: WellFormedPrefix(StreamFrom(calls, p)))
  }

  ghost predicate AllEnded(n: nat, calls: seq<Call>) {
    forall p: nat | p < n :: Ended(StreamFrom(calls, p))
  }

  lemma {:induction false} StreamPrefix(calls: seq<Call>, p: nat, i: nat)
    requires i <= |calls|
    ensures StreamFrom(calls[..i], p) <= StreamFrom(calls, p)
    decreases |calls|
  {
    if i < |calls| {
      StreamPrefix(calls[..|calls| - 1], p, i);
      assert calls[..|calls| - 1][..i] == calls[..i];
    } else {
      assert calls[..i] == calls;
    }
  }

  lemma StreamStep(calls: seq<Call>, i: nat, p: nat)
    requires i < |calls|
    ensures StreamFrom(calls[..i + 1], p) ==
            if calls[i].parent == p then StreamFrom(calls[..i], p) + [calls[i].batch] else StreamFrom(calls[..i], p)
  {
    assert calls[..i + 1][..i] == calls[..i];
  }

  /** A parent that calls has not ended before, and its batch marks the end of a window with the end of stream. */
  lemma CallAllowed(n: nat, calls: seq<Call>, i: nat)
    requires WellFormedCalls(n, calls) && i < |calls|
    ensures !Ended(StreamFrom(calls[..i], calls[i].parent))
    ensures calls[i].batch.eos ==> calls[i].batch.eow
    ensures WellFormedPrefix(StreamFrom(calls[..i], calls[i].parent))
    ensures Ended(StreamFrom(calls[..i + 1], calls[i].parent)) <==> calls[i].batch.eos
  {
    var p := calls[i].parent;
    var before, all := StreamFrom(calls[..i], p), StreamFrom(calls, p);
    StreamStep(calls, i, p);
    StreamPrefix(calls, p, i + 1);
    assert all[|before|] == calls[i].batch;
    assert forall j | 0 <= j < |before| :: before[j] == all[j];
  }

  lemma TwoEnded(calls: seq<Call>)
    ensures AllEnded(2, calls) <==> Ended(StreamFrom(calls, 0)) && Ended(StreamFrom(calls, 1))
  {
  }
}
