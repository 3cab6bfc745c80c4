/**
 The router's tracker of one source and the source node it feeds, as objects. Each method is one lock-held region and
 takes the corresponding step of the protocol.
 */
module GrpcRouter {
  import opened SourceTracking

  class GRPCSourceNode {
    var rowBatchQueue: seq<Batch>
    var upstreamInitiatedConnection: bool
    var upstreamClosedConnection: bool
    var sentEos: bool

    constructor ()
      ensures rowBatchQueue == [] && !upstreamInitiatedConnection && !upstreamClosedConnection && !sentEos
    {
      rowBatchQueue := [];
      upstreamInitiatedConnection, upstreamClosedConnection, sentEos := false, false, false;
    }

    method EnqueueRowBatch(b: Batch)
      modifies this`rowBatchQueue
      ensures rowBatchQueue == old(rowBatchQueue) + [b]
    {
      rowBatchQueue := rowBatchQueue + [b];
    }

    /** Pop the next batch and send it to the children; fails if the queue is empty. */
    method GenerateNextImpl() returns (ok: bool, rb: Batch)
      modifies this`rowBatchQueue, this`sentEos
      ensures ok <==> old(rowBatchQueue) != []
      ensures ok ==> [rb] + rowBatchQueue == old(rowBatchQueue) && sentEos == (old(sentEos) || rb.eos)
      ensures !ok ==> rowBatchQueue == [] && sentEos == old(sentEos)
    {
      if rowBatchQueue == [] {
        return false, Batch(0, false);
      }
      ok, rb := true, rowBatchQueue[0];
      rowBatchQueue := rowBatchQueue[1..];
      if rb.eos {
        sentEos := true;
      }
    }
  }

  class SourceNodeTracker {
    var sourceNode: GRPCSourceNode?
    var connectionInitiatedBySink: bool
    var connectionClosedBySink: bool
    var responseBacklog: seq<Batch>
    /** The source in the protocol that the two objects implement. */
    ghost var model: Source

    ghost predicate Valid()
      reads this, sourceNode
    {
      && model.Ok()
      && model.registered == (sourceNode != null)
      && model.connectionInitiatedBySink == connectionInitiatedBySink &&
         model.connectionClosedBySink == connectionClosedBySink
      && model.backlog == (if sourceNode == null then responseBacklog else []) &&
         (sourceNode != null ==> responseBacklog == [])
      && (sourceNode != null ==> model.queue == sourceNode.rowBatchQueue && model.sentEos == sourceNode.sentEos)
      && (sourceNode != null ==> model.upstreamInitiated == sourceNode.upstreamInitiatedConnection)
      && (sourceNode != null ==> model.upstreamClosed == sourceNode.upstreamClosedConnection)
      && (sourceNode == null ==> !model.sentEos && !model.upstreamInitiated && !model.upstreamClosed)
    }

    constructor ()
      ensures Valid() && model == Fresh && sourceNode == null
    {
      sourceNode, connectionInitiatedBySink, connectionClosedBySink, responseBacklog := null, false, false, [];
      model := Fresh;
      FreshOk();
    }

    /** Accept a batch; `restart` tells the caller to restart the execution afterwards. */
    method EnqueueRowBatch(b: Batch) returns (restart: bool)
      requires Valid() && model.producer == Reading
      modifies this, sourceNode
      ensures Valid() && model == old(model).Enqueue(b) && sourceNode == old(sourceNode)
      ensures restart <==> model.producer == PendingRestart
    {
      EnqueueOk(model, b);
      model := model.Enqueue(b);
      if sourceNode == null {
        connectionInitiatedBySink := true;
        responseBacklog := responseBacklog + [b];
        return false;
      }
      sourceNode.upstreamInitiatedConnection := true;
      sourceNode.EnqueueRowBatch(b);
      return true;
    }

    method MarkResultStreamClosed()
      requires Valid() && model.producer == Reading
      modifies this, sourceNode
      ensures Valid() && model == old(model).Close() && sourceNode == old(sourceNode)
    {
      CloseOk(model);
      model := model.Close();
      if sourceNode == null {
        connectionClosedBySink := true;
        return;
      }
      sourceNode.upstreamClosedConnection := true;
    }

    /** Register the node: hand over the flags and, batch by batch, the backlog. */
    method AddGRPCSourceNode(node: GRPCSourceNode)
      requires Valid() && sourceNode == null
      requires node.rowBatchQueue == [] && !node.upstreamInitiatedConnection && !node.upstreamClosedConnection &&
               !node.sentEos
      modifies this, node
      ensures Valid() && model == old(model).Register() && sourceNode == node
    {
      RegisterOk(model);
      model := model.Register();
      sourceNode := node;
      if connectionInitiatedBySink {
        node.upstreamInitiatedConnection := true;
      }
      for i := 0 to |responseBacklog|
        modifies node`rowBatchQueue
        invariant node.rowBatchQueue == responseBacklog[..i]
      {
        node.EnqueueRowBatch(responseBacklog[i]);
        assert responseBacklog[..i + 1] == responseBacklog[..i] + [responseBacklog[i]];
      }
      assert responseBacklog[..|responseBacklog|] == responseBacklog;
      responseBacklog := [];
      if connectionClosedBySink {
        node.upstreamClosedConnection := true;
      }
    }

    /** The executor takes the next batch of a running source. */
    method GenerateNext() returns (rb: Batch)
      requires Valid() && sourceNode != null && model.NextBatchReady() && !model.stopped
      modifies this, sourceNode
      ensures Valid() && model == old(model).GenerateNext() && sourceNode == old(sourceNode)
      ensures model.popped == old(model).popped + [rb]
    {
      GenerateOk(model);
      model := model.GenerateNext();
      var ok;
      ok, rb := sourceNode.GenerateNextImpl();
    }
  }
}
