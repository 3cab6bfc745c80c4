/**
 One gRPC source as the router and the source node see it: the tracker that holds batches until the node is
 registered, the node's queue and flags, and the result stream that feeds it.
 */
module SourceTracking {

  datatype Batch = Batch(payload: int, eos: bool)

  /** What a source did towards its children, in order. */
  datatype Event = Generated(eos: bool) | SentEndOfStream | Stopped

  /** Where the handler of the source's result stream is: between messages, or about to wake the executor. */
  datatype Producer = Reading | PendingRestart | PendingContinue | Finished

  datatype Source = Source(
    registered: bool, connectionInitiatedBySink: bool, connectionClosedBySink: bool, backlog: seq<Batch>,
    queue: seq<Batch>, upstreamInitiated: bool, upstreamClosed: bool, sentEos: bool, stopped: bool, producer: Producer,
    accepted: seq<Batch>, popped: seq<Batch>, log: seq<Event>)
  {
    predicate HasBatchesRemaining() { !sentEos }

    predicate NextBatchReady() { HasBatchesRemaining() && queue != [] }

    /**
     The second half of the health check: the queue was found without a batch before, and the connection is closed
     now.
     */
    predicate ClosedTooEarly(empty: bool) {
      empty && HasBatchesRemaining() && upstreamClosed
    }

    // ---- Steps of the result stream ----

    /** A batch arrives: into the backlog before registration, into the node's queue afterwards. */
    function Enqueue(b: Batch): Source {
      if !registered then this.(connectionInitiatedBySink := true, backlog := backlog + [b], accepted := accepted + [b])
      else this.(upstreamInitiated := true, queue := queue + [b], accepted := accepted + [b],
        producer := PendingRestart)
    }

    function Close(): Source {
      if !registered then this.(connectionClosedBySink := true, producer := Finished)
      else this.(upstreamClosed := true, producer := Finished)
    }

    /** The node is registered: the flags and the backlog are handed over. */
    function Register(): Source {
      this.(
        registered := true,
        upstreamInitiated := upstreamInitiated || connectionInitiatedBySink,
        queue := queue + backlog,
        backlog := [],
        upstreamClosed := upstreamClosed || connectionClosedBySink)
    }

    // ---- Steps of the executor ----

    function GenerateNext(): Source
      requires queue != []
    {
      this.(
        queue := queue[1..], popped := popped + [queue[0]],
        sentEos := sentEos || queue[0].eos, log := log + [Generated(queue[0].eos)])
    }

    function SendEndOfStream(): Source {
      this.(sentEos := true, log := log + [SentEndOfStream])
    }

    function Stop(): Source {
      this.(stopped := true, log := log + [Stopped])
    }

    // ---- What every step keeps ----

    /** Batches handed to the node, followed by the backlog, are the batches accepted. */
    ghost predicate Conserved() {
      popped + queue + backlog == accepted
    }

    ghost predicate Consistent() {
      && (registered ==> backlog == [])
      && (!registered ==> queue == [] && popped == [] && !upstreamClosed)
      && (upstreamClosed || connectionClosedBySink ==> producer == Finished)
      && (producer == Finished ==> upstreamClosed || (!registered && connectionClosedBySink))
      && (producer == PendingRestart || producer == PendingContinue ==> registered)
      && (accepted != [] ==> if registered then upstreamInitiated else connectionInitiatedBySink)
    }

    /**
     The log agrees with the flags; a source sends at most one end of stream, and generates nothing after it or after
     a stop.
     */
    ghost predicate Disciplined() {
      && (sentEos <==> EndsStream(log))
      && (stopped <==> Stopped in log)
      && (HasEos(popped) ==> sentEos)
      && (forall i, j | 0 <= i < j < |log| :: Orderly(log, i, j))
    }

    ghost predicate Ok() {
      Conserved() && Consistent() && Disciplined()
    }
  }

  ghost predicate HasEos(batches: seq<Batch>) {
    exists i :: 0 <= i < |batches| && batches[i].eos
  }

  predicate IsEnd(e: Event) {
    e == Generated(true) || e == SentEndOfStream
  }

  ghost predicate EndsStream(log: seq<Event>) {
    exists i :: 0 <= i < |log| && IsEnd(log[i])
  }

  ghost predicate Orderly(log: seq<Event>, i: nat, j: nat)
    requires i < j < |log|
  {
    && (log[j].Generated? ==> log[i] == Generated(false))
    && !(IsEnd(log[i]) && IsEnd(log[j]))
  }

  const Fresh: Source := Source(false, false, false, [], [], false, false, false, false, Reading, [], [], [])

  lemma FreshOk()
    ensures Fresh.Ok()
  {
  }

  lemma EosAppend(a: seq<Batch>, b: Batch)
    ensures HasEos(a + [b]) <==> HasEos(a) || b.eos
  {
    var s := a + [b];
    if HasEos(a) {
      var i :| 0 <= i < |a| && a[i].eos;
      assert s[i].eos;
    }
    if b.eos {
      assert s[|a|].eos;
    }
    if HasEos(s) {
      var i :| 0 <= i < |s| && s[i].eos;
      assert i < |a| ==> a[i].eos;
    }
  }

  lemma EosSplit(a: seq<Batch>, b: seq<Batch>)
    ensures HasEos(a + b) <==> HasEos(a) || HasEos(b)
  {
    var s := a + b;
    if HasEos(a) {
      var i :| 0 <= i < |a| && a[i].eos;
      assert s[i].eos;
    }
    if HasEos(b) {
      var i :| 0 <= i < |b| && b[i].eos;
      assert s[|a| + i].eos;
    }
    if HasEos(s) {
      var i :| 0 <= i < |s| && s[i].eos;
      if i < |a| {
        assert a[i].eos;
      } else {
        assert b[i - |a|].eos;
      }
    }
  }

  lemma LogAppend(log: seq<Event>, e: Event)
    requires forall i, j | 0 <= i < j < |log| :: Orderly(log, i, j)
    requires e.Generated? ==> !EndsStream(log) && Stopped !in log
    requires IsEnd(e) ==> !EndsStream(log)
    ensures forall i, j | 0 <= i < j < |log + [e]| :: Orderly(log + [e], i, j)
    ensures EndsStream(log + [e]) <==> EndsStream(log) || IsEnd(e)
  {
    var l := log + [e];
    forall i, j | 0 <= i < j < |l| ensures Orderly(l, i, j) {
      if j < |log| {
        assert Orderly(log, i, j);
      } else {
        assert log[i] in log;
      }
    }
    if EndsStream(log) {
      var i :| 0 <= i < |log| && IsEnd(log[i]);
      assert IsEnd(l[i]);
    }
    if IsEnd(e) {
      assert IsEnd(l[|log|]);
    }
    if EndsStream(l) {
      var i :| 0 <= i < |l| && IsEnd(l[i]);
      assert i < |log| ==> IsEnd(log[i]);
    }
  }

  lemma EnqueueOk(x: Source, b: Batch)
    requires x.Ok() && x.producer == Reading
    ensures x.Enqueue(b).Ok()
  {
    var y := x.Enqueue(b);
    if x.registered {
      assert y.popped + y.queue + y.backlog == (x.popped + x.queue + x.backlog) + [b];
    } else {
      assert y.popped + y.queue + y.backlog == (x.popped + x.queue + x.backlog) + [b];
    }
  }

  lemma CloseOk(x: Source)
    requires x.Ok() && x.producer == Reading
    ensures x.Close().Ok()
  {
  }

  lemma RegisterOk(x: Source)
    requires x.Ok() && !x.registered
    ensures x.Register().Ok()
  {
    var y := x.Register();
    assert y.popped + y.queue + y.backlog == x.popped + x.queue + x.backlog;
  }

  lemma GenerateOk(x: Source)
    requires x.Ok() && x.NextBatchReady() && !x.stopped
    ensures x.GenerateNext().Ok()
  {
    var y := x.GenerateNext();
    assert y.popped + y.queue == x.popped + x.queue;
    LogAppend(x.log, Generated(x.queue[0].eos));
    EosAppend(x.popped, x.queue[0]);
  }

  lemma SendOk(x: Source)
    requires x.Ok() && x.HasBatchesRemaining()
    ensures x.SendEndOfStream().Ok()
  {
    LogAppend(x.log, SentEndOfStream);
  }

  lemma StopOk(x: Source)
    requires x.Ok()
    ensures x.Stop().Ok()
  {
    LogAppend(x.log, Stopped);
  }

  /**
   The check reads the queue at one moment and the closed flag at a later one, with deliveries in between. It fails the
   source exactly when everything delivered before the first read was consumed and the stream had ended by the second;
   an end of stream that it misses then is one that arrived between the two reads.
   */
  lemma CloseSafety(first: Source, second: Source)
    requires first.Ok() && second.Ok() && first.registered && second.registered
    requires first.popped == second.popped && first.sentEos == second.sentEos && first.accepted <= second.accepted
    ensures second.ClosedTooEarly(!first.NextBatchReady()) <==>
            second.producer == Finished && first.popped == first.accepted && !first.sentEos
    ensures second.ClosedTooEarly(!first.NextBatchReady()) ==>
            (HasEos(second.accepted) <==> HasEos(second.accepted[|first.accepted|..]))
  {
    assert |first.accepted| == |first.popped| + |first.queue|;
    if second.ClosedTooEarly(!first.NextBatchReady()) {
      assert first.popped + first.queue + first.backlog == first.popped;
      assert second.accepted == first.accepted + second.accepted[|first.accepted|..];
      EosSplit(first.accepted, second.accepted[|first.accepted|..]);
    }
  }
}
