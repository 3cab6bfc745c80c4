/**
 The union operator. The time-ordered form is an online merge over per-parent queues of row batches,
 with cursors, cached columns, size flushes and timeout flushes; the unordered form forwards batches.
 */
module UnionNodes {
  import opened Basics
  import opened RowBatches
  import opened TimeMerge
  import opened Runs

  const DEFAULT_UNION_ROW_BATCH_SIZE: nat := 1024

  /** The batches queued for one parent. */
  datatype Queue = Queue(batches: seq<RowBatch<Row>>)

  /** The rows of the batch at the front of a queue, as cached for column access. */
  datatype Cached = Cached(rows: seq<Row>)

  /** The plan of a union: per parent, where output columns come from and which column is the time. */
  datatype UnionPlan = UnionPlan(columnMapping: seq<seq<nat>>, timeColumn: seq<nat>, rowsPerBatch: nat) {

    predicate Valid() { |columnMapping| == |timeColumn| > 0 }

    function NumParents(): nat { |columnMapping| }

    function OutputRowsPerBatch(): (n: nat)
      ensures n > 0
    {
      if rowsPerBatch == 0 then DEFAULT_UNION_ROW_BATCH_SIZE else rowsPerBatch
    }

    predicate HasColumns(p: nat, row: Row) {
      p < |columnMapping| && forall i | 0 <= i < |columnMapping[p]| :: columnMapping[p][i] < |row.cols|
    }

    predicate HasTime(p: nat, row: Row) {
      p < |timeColumn| && timeColumn[p] < |row.cols| && row.cols[timeColumn[p]].Fixed?
    }

    function OutRow(p: nat, row: Row): Row
      requires HasColumns(p, row)
    {
      Row(seq(|columnMapping[p]|, i requires 0 <= i < |columnMapping[p]| => row.cols[columnMapping[p][i]]))
    }

    function OutRows(p: nat, rows: seq<Row>): seq<Row> {
      seq(|rows|, i requires 0 <= i < |rows| => if HasColumns(p, rows[i]) then OutRow(p, rows[i]) else Row([]))
    }

    predicate Fits(p: nat, row: Row) { HasColumns(p, row) && HasTime(p, row) }

    ghost predicate AllFit(p: nat, rows: seq<Row>) {
      forall i | 0 <= i < |rows| :: Fits(p, rows[i])
    }

    ghost function ItemOf(p: nat, row: Row): Item {
      if Fits(p, row) then Item(row.cols[timeColumn[p]].bits, OutRow(p, row)) else Item(0, Row([]))
    }

    ghost function Items(p: nat, rows: seq<Row>): (items: seq<Item>)
      ensures |items| == |rows|
      ensures forall i | 0 <= i < |rows| :: items[i] == ItemOf(p, rows[i])
    {
      seq(|rows|, i requires 0 <= i < |rows| => ItemOf(p, rows[i]))
    }

    /** Per parent, the items still queued behind its cursor. */
    ghost function Left(queues: seq<Queue>, cursors: seq<nat>): (left: seq<seq<Item>>)
      requires |queues| == |cursors|
      ensures |left| == |queues|
      ensures forall p: nat | p < |left| :: left[p] == Items(p, LeftRows(queues[p].batches, cursors[p]))
    {
      seq(|queues|, p requires 0 <= p < |queues| == |cursors| => Items(p, LeftRows(queues[p].batches, cursors[p])))
    }
  }

  /** The output rows of a merge. */
  ghost function Outs(t: seq<Tagged>): (rows: seq<Row>)
    ensures |rows| == |t|
    ensures forall i | 0 <= i < |t| :: rows[i] == t[i].item.out
  {
    seq(|t|, i requires 0 <= i < |t| => t[i].item.out)
  }

  lemma OutsSnoc(t: seq<Tagged>, x: Tagged)
    ensures Outs(t + [x]) == Outs(t) + [x.item.out]
  {
  }

  // ---- One parent's queue ----

  ghost predicate NoEos(queue: seq<RowBatch<Row>>) {
    forall i | 0 <= i < |queue| :: !queue[i].eos
  }

  /** The queue is a stream tail; the parent is flushed once its end of stream has been popped. */
  ghost predicate Queued(queue: seq<RowBatch<Row>>, cursor: nat, flushed: bool, ended: bool) {
    && WellFormedPrefix(queue)
    && (queue == [] ==> cursor == 0)
    && (queue != [] ==> cursor < |queue[0].rows| || cursor == |queue[0].rows| == 0)
    && (flushed ==> ended && queue == [])
    && (ended && !flushed ==> Ended(queue))
    && (!ended ==> NoEos(queue))
  }

  ghost predicate Ready(queue: seq<RowBatch<Row>>, cursor: nat, cached: seq<Row>, flushed: bool, ended: bool) {
    && Queued(queue, cursor, flushed, ended)
    && (queue != [] ==> cursor < |queue[0].rows| && cached == queue[0].rows)
  }

  ghost predicate ParentOk(plan: UnionPlan, p: nat, queue: seq<RowBatch<Row>>, cursor: nat, cached: seq<Row>,
                           flushed: bool, ended: bool) {
    Ready(queue, cursor, cached, flushed, ended) && plan.AllFit(p, Rows(queue))
  }

  /** Rows of the queue that have not been appended to the output yet. */
  ghost function LeftRows(queue: seq<RowBatch<Row>>, cursor: nat): seq<Row> {
    if cursor <= |Rows(queue)| then Rows(queue)[cursor..] else []
  }

  lemma LeftPush(queue: seq<RowBatch<Row>>, cursor: nat, flushed: bool, b: RowBatch<Row>)
    requires Queued(queue, cursor, flushed, false)
    ensures LeftRows(queue + [b], cursor) == LeftRows(queue, cursor) + b.rows
  {
    CursorInRows(queue, cursor, flushed);
    RowsSnoc(queue, b);
    TailAppend(Rows(queue), b.rows, cursor);
  }

  lemma CursorInRows(queue: seq<RowBatch<Row>>, cursor: nat, flushed: bool)
    requires Queued(queue, cursor, flushed, false)
    ensures cursor <= |Rows(queue)|
  {
    if queue != [] {
      RowsCons(queue);
    }
  }

  lemma QueuedPush(queue: seq<RowBatch<Row>>, cursor: nat, flushed: bool, b: RowBatch<Row>)
    requires Queued(queue, cursor, flushed, false)
    requires b.eos ==> b.eow
    ensures Queued(queue + [b], cursor, flushed, b.eos)
  {
    var next := queue + [b];
    assert queue != [] ==> next[0] == queue[0];
    assert forall i | 0 <= i < |queue| :: next[i] == queue[i] && !queue[i].eos;
  }

  lemma LeftPurge(queue: seq<RowBatch<Row>>, flushed: bool, ended: bool)
    requires Queued(queue, 0, flushed, ended) && queue != [] && queue[0].rows == []
    ensures LeftRows(queue[1..], 0) == LeftRows(queue, 0)
    ensures Queued(queue[1..], 0, flushed || queue[0].eos, ended)
  {
    RowsCons(queue);
    assert !flushed;
    if ended && !queue[0].eos {
      assert |queue| > 1 && queue[1..][|queue| - 2] == queue[|queue| - 1];
    }
  }

  lemma {:induction false} LeftAdvance(queue: seq<RowBatch<Row>>, cursor: nat, flushed: bool, ended: bool)
    requires Queued(queue, cursor, flushed, ended) && queue != [] && cursor < |queue[0].rows|
    ensures LeftRows(queue, cursor) != [] && LeftRows(queue, cursor)[0] == queue[0].rows[cursor]
    ensures cursor + 1 < |queue[0].rows| ==> LeftRows(queue, cursor)[1..] == LeftRows(queue, cursor + 1)
    ensures cursor + 1 == |queue[0].rows| ==>
      && LeftRows(queue, cursor)[1..] == LeftRows(queue[1..], 0)
      && Queued(queue[1..], 0, flushed || queue[0].eos, ended)
  {
    RowsCons(queue);
    assert !flushed;
    if ended && !queue[0].eos {
      assert |queue| > 1 && queue[1..][|queue| - 2] == queue[|queue| - 1];
    }
  }

  lemma PopOk(plan: UnionPlan, p: nat, queue: seq<RowBatch<Row>>, cursor: nat, cached: seq<Row>,
              flushed: bool, ended: bool)
    requires ParentOk(plan, p, queue, cursor, cached, flushed, ended)
    requires queue != [] && cursor + 1 == |queue[0].rows|
    ensures Queued(queue[1..], 0, flushed || queue[0].eos, ended)
    ensures plan.AllFit(p, Rows(queue[1..]))
    ensures LeftRows(queue, cursor) != [] && LeftRows(queue[1..], 0) == LeftRows(queue, cursor)[1..]
  {
    LeftAdvance(queue, cursor, flushed, ended);
    RowsCons(queue);
    forall i | 0 <= i < |Rows(queue[1..])| ensures plan.Fits(p, Rows(queue[1..])[i]) {
      assert Rows(queue[1..])[i] == Rows(queue)[i + |queue[0].rows|];
    }
  }

  lemma LeftUnchanged(plan: UnionPlan, queues: seq<Queue>, cursors: seq<nat>, p: nat,
                      queue: seq<RowBatch<Row>>, cursor: nat)
    requires p < |queues| == |cursors|
    requires LeftRows(queue, cursor) == LeftRows(queues[p].batches, cursors[p])
    ensures plan.Left(queues[p := Queue(queue)], cursors[p := cursor]) == plan.Left(queues, cursors)
  {
    var a, b := plan.Left(queues[p := Queue(queue)], cursors[p := cursor]), plan.Left(queues, cursors);
    assert forall q: nat | q < |queues| :: a[q] == b[q];
  }

  lemma LeftDropped(plan: UnionPlan, queues: seq<Queue>, cursors: seq<nat>, p: nat,
                    queue: seq<RowBatch<Row>>, cursor: nat)
    requires p < |queues| == |cursors| && LeftRows(queues[p].batches, cursors[p]) != []
    requires LeftRows(queue, cursor) == LeftRows(queues[p].batches, cursors[p])[1..]
    ensures plan.Left(queues[p := Queue(queue)], cursors[p := cursor]) == DropHead(plan.Left(queues, cursors), p)
  {
    var a, b := plan.Left(queues[p := Queue(queue)], cursors[p := cursor]), DropHead(plan.Left(queues, cursors), p);
    assert a[p] == b[p];
    assert forall q: nat | q < |queues| :: a[q] == b[q];
  }

  lemma {:induction false} LeftArrived(plan: UnionPlan, queues: seq<Queue>, cursors: seq<nat>, p: nat,
                    queue: seq<RowBatch<Row>>, rows: seq<Row>)
    requires p < |queues| == |cursors|
    requires LeftRows(queue, cursors[p]) == LeftRows(queues[p].batches, cursors[p]) + rows
    ensures plan.Left(queues[p := Queue(queue)], cursors) ==
            plan.Left(queues, cursors)[p := plan.Left(queues, cursors)[p] + plan.Items(p, rows)]
  {
    var old_ := plan.Left(queues, cursors);
    var a, b := plan.Left(queues[p := Queue(queue)], cursors), old_[p := old_[p] + plan.Items(p, rows)];
    ItemsAppend(plan, p, LeftRows(queues[p].batches, cursors[p]), rows);
    assert a[p] == b[p];
    assert forall q: nat | q < |queues| :: a[q] == b[q];
  }

  /** Pop 0-row batches from the front of a queue; a popped end of stream flushes the parent. */
  method PurgeEmptyBatches(queue: seq<RowBatch<Row>>, cursor: nat, flushed: bool, ghost ended: bool)
    returns (queue': seq<RowBatch<Row>>, flushed': bool)
    requires Queued(queue, cursor, flushed, ended)
    ensures Queued(queue', cursor, flushed', ended)
    ensures queue' != [] ==> cursor < |queue'[0].rows|
    ensures LeftRows(queue', cursor) == LeftRows(queue, cursor)
    ensures Rows(queue') == Rows(queue)
  {
    queue', flushed' := queue, flushed;
    while queue' != [] && |queue'[0].rows| == 0
      invariant Queued(queue', cursor, flushed', ended)
      invariant LeftRows(queue', cursor) == LeftRows(queue, cursor)
      invariant Rows(queue') == Rows(queue)
      decreases |queue'|
    {
      LeftPurge(queue', flushed', ended);
      RowsCons(queue');
      if queue'[0].eos { flushed' := true; }
      queue' := queue'[1..];
    }
  }

  // ---- All parents ----

  ghost predicate ParentEntry(plan: UnionPlan, queues: seq<Queue>, cursors: seq<nat>, cached: seq<Cached>,
                              flushed: seq<bool>, ended: seq<bool>, p: nat)
    requires p < |queues| == |cursors| == |cached| == |flushed| == |ended|
  {
    ParentOk(plan, p, queues[p].batches, cursors[p], cached[p].rows, flushed[p], ended[p])
  }

  /** Every parent but `p` is as it should be; `p` may be no parent at all. */
  ghost predicate AllParentsBut(plan: UnionPlan, queues: seq<Queue>, cursors: seq<nat>, cached: seq<Cached>,
                                flushed: seq<bool>, ended: seq<bool>, p: nat) {
    && |queues| == |cursors| == |cached| == |flushed| == |ended|
    && forall q: nat | q < |queues| && q != p :: ParentEntry(plan, queues, cursors, cached, flushed, ended, q)
  }

  /** Changing one parent leaves the others as they were. */
  lemma ChangeParent(plan: UnionPlan, queues: seq<Queue>, cursors: seq<nat>, cached: seq<Cached>, flushed: seq<bool>,
                     ended: seq<bool>, p: nat, queue: Queue, cursor: nat, rows: Cached, fl: bool, en: bool)
    requires p < |queues| && (AllParentsBut(plan, queues, cursors, cached, flushed, ended, |queues|) ||
             AllParentsBut(plan, queues, cursors, cached, flushed, ended, p))
    ensures AllParentsBut(plan, queues[p := queue], cursors[p := cursor], cached[p := rows], flushed[p := fl],
            ended[p := en], p)
    ensures ParentOk(plan, p, queue.batches, cursor, rows.rows, fl, en) ==>
              AllParentsBut(plan, queues[p := queue], cursors[p := cursor], cached[p := rows], flushed[p := fl],
                ended[p := en], |queues|)
  {
    var queues', cursors', cached', flushed', ended' := queues[p := queue], cursors[p := cursor], cached[p := rows],
      flushed[p := fl], ended[p := en];
    forall q: nat | q < |queues| && q != p ensures ParentEntry(plan, queues', cursors', cached', flushed', ended', q) {
      assert ParentEntry(plan, queues, cursors, cached, flushed, ended, q);
    }
    assert ParentOk(plan, p, queue.batches, cursor, rows.rows, fl, en) ==>
      ParentEntry(plan, queues', cursors', cached', flushed', ended', p);
  }

  /** Stepping past a row that is not the last one of its batch. */
  lemma StepParent(plan: UnionPlan, queues: seq<Queue>, cursors: seq<nat>, cached: seq<Cached>, flushed: seq<bool>,
                   ended: seq<bool>, p: nat)
    requires AllParentsBut(plan, queues, cursors, cached, flushed, ended, |queues|) && p < |queues|
    requires queues[p].batches != [] && cursors[p] + 1 < |queues[p].batches[0].rows|
    ensures AllParentsBut(plan, queues, cursors[p := cursors[p] + 1], cached, flushed, ended, |queues|)
    ensures plan.Left(queues, cursors)[p] != []
    ensures plan.Left(queues, cursors[p := cursors[p] + 1]) == DropHead(plan.Left(queues, cursors), p)
  {
    var queue, cursor := queues[p].batches, cursors[p];
    assert ParentEntry(plan, queues, cursors, cached, flushed, ended, p);
    LeftAdvance(queue, cursor, flushed[p], ended[p]);
    LeftDropped(plan, queues, cursors, p, queue, cursor + 1);
    assert queues[p := Queue(queue)] == queues;
    var next := cursors[p := cursor + 1];
    forall q: nat | q < |queues| ensures ParentEntry(plan, queues, next, cached, flushed, ended, q) {
      assert ParentEntry(plan, queues, cursors, cached, flushed, ended, q);
    }
  }

  /** Popping a used-up batch. */
  lemma PopParent(plan: UnionPlan, queues: seq<Queue>, cursors: seq<nat>, cached: seq<Cached>, flushed: seq<bool>,
                  ended: seq<bool>, p: nat)
    requires AllParentsBut(plan, queues, cursors, cached, flushed, ended, |queues|) && p < |queues|
    requires queues[p].batches != [] && cursors[p] + 1 == |queues[p].batches[0].rows|
    ensures var queue, fl := queues[p].batches[1..], flushed[p] || queues[p].batches[0].eos;
            && AllParentsBut(plan, queues[p := Queue(queue)], cursors[p := 0], cached, flushed[p := fl], ended, p)
            && Queued(queue, 0, fl, ended[p]) && plan.AllFit(p, Rows(queue)) && plan.Left(queues, cursors)[p] != []
            && plan.Left(queues[p := Queue(queue)], cursors[p := 0]) == DropHead(plan.Left(queues, cursors), p)
  {
    var queue, fl := queues[p].batches, flushed[p] || queues[p].batches[0].eos;
    assert ParentEntry(plan, queues, cursors, cached, flushed, ended, p);
    PopOk(plan, p, queue, cursors[p], cached[p].rows, flushed[p], ended[p]);
    LeftDropped(plan, queues, cursors, p, queue[1..], 0);
    ChangeParent(plan, queues, cursors, cached, flushed, ended, p, Queue(queue[1..]), 0, cached[p], fl, ended[p]);
    assert cached[p := cached[p]] == cached && ended[p := ended[p]] == ended;
  }

  // ---- Ordering the parents by their next row ----

  /** A parent and the time at its cursor. */
  datatype Stream = Stream(parent: nat, time: int)

  ghost predicate Lists(streams: seq<Stream>, p: nat) { exists x :: x in streams && x.parent == p }

  /** A parent with a queued row, and the time of that row. */
  ghost predicate StreamOf(x: Stream, flushed: seq<bool>, queues: seq<Queue>, left: seq<seq<Item>>) {
    && x.parent < |flushed| == |queues| == |left| && !flushed[x.parent] && queues[x.parent].batches != []
    && left[x.parent] != [] && x.time == left[x.parent][0].time
  }

  ghost predicate StreamAt(streams: seq<Stream>, i: nat, flushed: seq<bool>, queues: seq<Queue>, left: seq<seq<Item>>,
                           n: nat) {
    i < |streams| ==> StreamOf(streams[i], flushed, queues, left) && streams[i].parent < n
  }

  ghost predicate ListsUnflushed(streams: seq<Stream>, flushed: seq<bool>, p: nat) {
    p < |flushed| && !flushed[p] ==> Lists(streams, p)
  }

  ghost predicate Apart(streams: seq<Stream>, i: nat, j: nat) {
    i < j < |streams| ==> streams[i].parent != streams[j].parent
  }

  /** The streams of the unflushed ones among the first `n` parents, each once. */
  ghost predicate Collected(streams: seq<Stream>, flushed: seq<bool>, queues: seq<Queue>, left: seq<seq<Item>>,
                            n: nat) {
    && (forall i: nat :: StreamAt(streams, i, flushed, queues, left, n))
    && (forall p: nat | p < n :: ListsUnflushed(streams, flushed, p))
    && (forall i: nat, j: nat :: Apart(streams, i, j))
  }

  lemma CollectNext(streams: seq<Stream>, flushed: seq<bool>, queues: seq<Queue>, left: seq<seq<Item>>, x: Stream)
    requires Collected(streams, flushed, queues, left, x.parent) && StreamOf(x, flushed, queues, left)
    ensures Collected(streams + [x], flushed, queues, left, x.parent + 1)
  {
    var more, n := streams + [x], x.parent + 1;
    forall i: nat ensures StreamAt(more, i, flushed, queues, left, n) {
      assert StreamAt(streams, i, flushed, queues, left, x.parent);
    }
    forall p: nat | p < n ensures ListsUnflushed(more, flushed, p) {
      assert more[|streams|] == x && x in more;
      if p < x.parent && p < |flushed| && !flushed[p] {
        assert ListsUnflushed(streams, flushed, p);
        var y :| y in streams && y.parent == p;
        assert y in more;
      }
    }
    forall i: nat, j: nat ensures Apart(more, i, j) {
      assert Apart(streams, i, j) && StreamAt(streams, i, flushed, queues, left, x.parent);
    }
  }

  lemma CollectSkip(streams: seq<Stream>, flushed: seq<bool>, queues: seq<Queue>, left: seq<seq<Item>>, n: nat)
    requires Collected(streams, flushed, queues, left, n) && n < |flushed| && flushed[n]
    ensures Collected(streams, flushed, queues, left, n + 1)
  {
    var next := n + 1;
    forall i: nat ensures StreamAt(streams, i, flushed, queues, left, next) {
      assert StreamAt(streams, i, flushed, queues, left, n);
    }
    forall p: nat | p < next ensures ListsUnflushed(streams, flushed, p) {
      assert p < n ==> ListsUnflushed(streams, flushed, p);
    }
  }

  lemma CollectedApart(streams: seq<Stream>, flushed: seq<bool>, queues: seq<Queue>, left: seq<seq<Item>>, n: nat)
    requires Collected(streams, flushed, queues, left, n)
    ensures forall i, j | 0 <= i < j < |streams| :: streams[i].parent != streams[j].parent
  {
    forall i, j | 0 <= i < j < |streams| ensures streams[i].parent != streams[j].parent {
      assert Apart(streams, i, j);
    }
  }

  /** The streams in any order are those of the unflushed parents. */
  lemma CollectedMembers(streams: seq<Stream>, sorted: seq<Stream>, flushed: seq<bool>, queues: seq<Queue>,
                         left: seq<seq<Item>>, n: nat)
    requires Collected(streams, flushed, queues, left, n) && forall y :: y in sorted <==> y in streams
    ensures forall x | x in sorted :: StreamOf(x, flushed, queues, left)
    ensures forall p: nat | p < n && p < |flushed| && !flushed[p] :: Lists(sorted, p)
  {
    forall x | x in sorted ensures StreamOf(x, flushed, queues, left) {
      var i :| 0 <= i < |streams| && streams[i] == x;
      assert StreamAt(streams, i, flushed, queues, left, n);
    }
    forall p: nat | p < n && p < |flushed| && !flushed[p] ensures Lists(sorted, p) {
      assert ListsUnflushed(streams, flushed, p);
      var y :| y in streams && y.parent == p;
      assert y in sorted;
    }
  }

  predicate ComesFirst(a: Stream, b: Stream) {
    a.time < b.time || (a.time == b.time && a.parent < b.parent)
  }

  ghost predicate SortedStreams(streams: seq<Stream>) {
    forall i, j | 0 <= i < j < |streams| :: ComesFirst(streams[i], streams[j])
  }

  function InsertStream(x: Stream, streams: seq<Stream>): (r: seq<Stream>)
    requires SortedStreams(streams)
    requires forall y | y in streams :: y.parent != x.parent
    ensures |r| == |streams| + 1
    ensures forall y :: y in r <==> y == x || y in streams
    ensures SortedStreams(r)
  {
    if streams == [] || ComesFirst(x, streams[0]) then
      [x] + streams
    else
      assert streams == [streams[0]] + streams[1..];
      var rest := InsertStream(x, streams[1..]);
      assert forall i | 0 <= i < |rest| :: rest[i] in rest;
      [streams[0]] + rest
  }

  function SortStreams(streams: seq<Stream>): (r: seq<Stream>)
    requires forall i, j | 0 <= i < j < |streams| :: streams[i].parent != streams[j].parent
    ensures |r| == |streams|
    ensures forall y :: y in r <==> y in streams
    ensures SortedStreams(r)
  {
    if streams == [] then []
    else
      assert streams == [streams[0]] + streams[1..];
      InsertStream(streams[0], SortStreams(streams[1..]))
  }

  lemma LeastIsNext(left: seq<seq<Item>>, streams: seq<Stream>, p: nat)
    requires p < |left| && left[p] != []
    requires SortedStreams(streams) && streams != [] && streams[0].parent == p
    requires forall q: nat | q < |left| && q != p && left[q] != [] :: Stream(q, left[q][0].time) in streams
    requires |streams| > 1 ==> ComesFirst(Stream(p, left[p][0].time), streams[1])
    ensures IsNext(left, p)
  {
    forall q: nat | q < |left| && q != p && left[q] != [] ensures Before(Head(left, p), Head(left, q)) {
      var i :| 0 <= i < |streams| && streams[i] == Stream(q, left[q][0].time);
      assert i == 1 || ComesFirst(streams[1], streams[i]);
    }
  }

  /** Only parent `p` may have advanced. */
  ghost predicate SameBut(now: seq<seq<Item>>, was: seq<seq<Item>>, p: nat) {
    |now| == |was| && forall q: nat | q < |now| && q != p :: now[q] == was[q]
  }

  lemma SameButNext(now: seq<seq<Item>>, was: seq<seq<Item>>, p: nat)
    requires SameBut(now, was, p) && p < |now| && now[p] != []
    ensures SameBut(DropHead(now, p), was, p)
  {
  }

  /** The ordered streams are exactly the parents with rows left; the other parents have ended. */
  ghost predicate Covers(streams: seq<Stream>, left: seq<seq<Item>>, ended: seq<bool>) {
    && |ended| == |left| && SortedStreams(streams) && streams != []
    && (forall x | x in streams :: x.parent < |left| && left[x.parent] != [] && x.time == left[x.parent][0].time)
    && (forall q: nat | q < |left| :: if left[q] == [] then ended[q] else Stream(q, left[q][0].time) in streams)
  }

  // ---- The emitted stream ----

  /** A sent batch respects the size limit, and has rows unless it is the last one. */
  ghost predicate WellSized(b: RowBatch<Row>, limit: nat) {
    |b.rows| <= limit && (b.eos || |b.rows| > 0)
  }

  /** Every sent batch but an ending one is as large as batches get. */
  ghost predicate AllFull(sent: seq<RowBatch<Row>>, limit: nat) {
    sent == [] ||
    (AllFull(sent[..|sent| - 1], limit) && (sent[|sent| - 1].eos || |sent[|sent| - 1].rows| == limit))
  }

  lemma AllFullSnoc(sent: seq<RowBatch<Row>>, b: RowBatch<Row>, limit: nat)
    ensures AllFull(sent + [b], limit) <==> AllFull(sent, limit) && (b.eos || |b.rows| == limit)
  {
    assert (sent + [b])[..|sent|] == sent;
  }

  lemma {:induction false} AllFullAt(sent: seq<RowBatch<Row>>, limit: nat)
    requires AllFull(sent, limit)
    ensures forall i | 0 <= i < |sent| :: sent[i].eos || |sent[i].rows| == limit
  {
    if sent != [] {
      AllFullAt(sent[..|sent| - 1], limit);
    }
  }

  ghost predicate EmittedOk(sent: seq<RowBatch<Row>>, builders: seq<Row>, outs: seq<Row>, limit: nat) {
    && Rows(sent) + builders == outs
    && WellFormedPrefix(sent)
    && (forall i | 0 <= i < |sent| :: WellSized(sent[i], limit))
  }

  /** Always true; a fact that quantifies over it is unfolded only where a proof asserts an instance. */
  ghost predicate CitedEmitted(n: int) { true }

  /** Sent batches and builder contents make up `outs`; the fact is unfolded only in proofs that cite it. */
  ghost predicate Emitted(sent: seq<RowBatch<Row>>, builders: seq<Row>, outs: seq<Row>, limit: nat) {
    forall n: int {:trigger CitedEmitted(n)} :: CitedEmitted(n) ==> EmittedOk(sent, builders, outs, limit)
  }

  lemma EmittedNothing(limit: nat)
    ensures Emitted([], [], [], limit)
  {
  }

  lemma EmittedFlush(sent: seq<RowBatch<Row>>, builders: seq<Row>, outs: seq<Row>, limit: nat, eos: bool)
    requires Emitted(sent, builders, outs, limit) && !Ended(sent)
    requires |builders| <= limit && (eos || builders != [])
    ensures Emitted(sent + [RowBatch(builders, eos, eos)], [], outs, limit)
    ensures Ended(sent + [RowBatch(builders, eos, eos)]) == eos
  {
    assert CitedEmitted(0);
    var rb := RowBatch(builders, eos, eos);
    RowsSnoc(sent, rb);
    var sent' := sent + [rb];
    assert forall i | 0 <= i < |sent| :: sent'[i] == sent[i] && !sent[i].eos;
  }

  lemma EmittedAppend(sent: seq<RowBatch<Row>>, builders: seq<Row>, outs: seq<Row>, limit: nat, row: Row)
    requires Emitted(sent, builders, outs, limit)
    ensures Emitted(sent, builders + [row], outs + [row], limit)
  {
    assert CitedEmitted(0);
    Regroup(Rows(sent), builders, [row]);
  }

  /** A batch joins its parent's queue: its rows join the rows left to merge. */
  lemma {:induction false} Arrive(plan: UnionPlan, queues: seq<Queue>, cursors: seq<nat>, p: nat, cached: seq<Row>,
                                  flushed: bool,
               rb: RowBatch<Row>, arrived: seq<seq<Item>>, ended: seq<bool>, merged: seq<Tagged>)
    requires p < |queues| == |cursors| == |arrived| == |ended| && !ended[p]
    requires ParentOk(plan, p, queues[p].batches, cursors[p], cached, flushed, false)
    requires (rb.eos ==> rb.eow) && plan.AllFit(p, rb.rows)
    requires Confluent(arrived, ended, merged, plan.Left(queues, cursors))
    ensures Queued(queues[p].batches + [rb], cursors[p], flushed, rb.eos) &&
            plan.AllFit(p, Rows(queues[p].batches + [rb]))
    ensures Confluent(arrived[p := arrived[p] + plan.Items(p, rb.rows)], ended[p := rb.eos], merged,
                      plan.Left(queues[p := Queue(queues[p].batches + [rb])], cursors))
  {
    LeftPush(queues[p].batches, cursors[p], flushed, rb);
    QueuedPush(queues[p].batches, cursors[p], flushed, rb);
    RowsSnoc(queues[p].batches, rb);
    LeftArrived(plan, queues, cursors, p, queues[p].batches + [rb], rb.rows);
    ConfluentArrive(arrived, ended, merged, plan.Left(queues, cursors), p, plan.Items(p, rb.rows), rb.eos);
  }

  // ---- The node ----

  class UnionNode {
    const plan: UnionPlan
    var flushedParentEoses: seq<bool>
    var parentRowBatches: seq<Queue>
    var rowCursors: seq<nat>
    /** Rows of the batch at the front of each queue, as cached for column access. */
    var cachedRows: seq<Cached>
    var columnBuilders: seq<Row>
    var sentEos: bool
    /** Batches delivered to the children. */
    var sent: seq<RowBatch<Row>>

    ghost var arrived: seq<seq<Item>>
    ghost var ended: seq<bool>
    ghost var merged: seq<Tagged>

    ghost predicate Shape()
      reads this`flushedParentEoses, this`parentRowBatches, this`rowCursors, this`cachedRows, this`arrived, this`ended
    {
      && plan.Valid()
      && |flushedParentEoses| == |parentRowBatches| == |rowCursors| == |cachedRows| == |arrived| == |ended| ==
         plan.NumParents()
    }

    ghost predicate ParentsReady()
      reads this`flushedParentEoses, this`parentRowBatches, this`rowCursors, this`cachedRows, this`arrived, this`ended
      requires Shape()
    {
      AllParentsBut(plan, parentRowBatches, rowCursors, cachedRows, flushedParentEoses, ended, plan.NumParents())
    }

    /** All parents but one are ready. */
    ghost predicate OthersReady(p: nat)
      reads this`flushedParentEoses, this`parentRowBatches, this`rowCursors, this`cachedRows, this`arrived, this`ended
      requires Shape()
    {
      AllParentsBut(plan, parentRowBatches, rowCursors, cachedRows, flushedParentEoses, ended, p)
    }

    ghost function Left(): (left: seq<seq<Item>>)
      reads this`flushedParentEoses, this`parentRowBatches, this`rowCursors, this`cachedRows, this`arrived, this`ended
      requires Shape()
    {
      plan.Left(parentRowBatches, rowCursors)
    }

    /** What has been appended is what any completion of the streams would emit first. */
    ghost predicate Merging()
      reads this
    {
      && Shape() && ParentsReady()
      && Confluent(arrived, ended, merged, Left())
    }

    /** What was sent and what the builders hold are the appended rows; sent batches are well sized. */
    ghost predicate Emitting()
      reads this
    {
      && Emitted(sent, columnBuilders, Outs(merged), plan.OutputRowsPerBatch())
      && sentEos == Ended(sent)
    }

    ghost predicate Full()
      reads this`sent
    {
      AllFull(sent, plan.OutputRowsPerBatch())
    }

    /** A parent that has not ended has no row to merge. */
    ghost predicate Starved()
      reads this`flushedParentEoses, this`parentRowBatches, this`rowCursors, this`cachedRows, this`arrived, this`ended
      requires Shape()
    {
      exists p: nat :: p < plan.NumParents() && StarvedAt(p)
    }

    ghost predicate StarvedAt(p: nat)
      reads this`flushedParentEoses, this`parentRowBatches, this`rowCursors, this`cachedRows, this`arrived, this`ended
      requires Shape() && p < plan.NumParents()
    {
      !ended[p] && Left()[p] == []
    }

    ghost predicate AllFlushed()
      reads this`flushedParentEoses
    {
      forall p: nat | p < |flushedParentEoses| :: flushedParentEoses[p]
    }

    ghost predicate Valid()
      reads this
    {
      && Merging() && Emitting()
      && |columnBuilders| < plan.OutputRowsPerBatch()
      && (sentEos <==> AllFlushed())
      && (sentEos ==> columnBuilders == [])
    }

    constructor (plan: UnionPlan)
      requires plan.Valid()
      ensures Valid() && this.plan == plan && !sentEos && sent == [] && columnBuilders == []
      ensures arrived == seq(plan.NumParents(), _ => []) && ended == seq(plan.NumParents(), _ => false)
      ensures Starved()
    {
      this.plan := plan;
      var n := plan.NumParents();
      flushedParentEoses := seq(n, _ => false);
      parentRowBatches := seq(n, _ => Queue([]));
      rowCursors := seq(n, _ => 0);
      cachedRows := seq(n, _ => Cached([]));
      columnBuilders := [];
      sentEos := false;
      sent := [];
      arrived := seq(n, _ => []);
      ended := seq(n, _ => false);
      merged := [];
      new;
      EmittedNothing(plan.OutputRowsPerBatch());
      ConfluentInitially(n);
      assert Left() == seq(n, _ => []);
      assert !flushedParentEoses[0] && StarvedAt(0);
    }

    method InputsComplete() returns (complete: bool)
      ensures complete == AllFlushed()
    {
      var i := 0;
      while i < |flushedParentEoses|
        invariant 0 <= i <= |flushedParentEoses|
        invariant forall p: nat | p < i :: flushedParentEoses[p]
      {
        if !flushedParentEoses[i] { return false; }
        i := i + 1;
      }
      return true;
    }

    function TimeAtParentCursor(p: nat): int
      reads this
      requires p < |cachedRows| == |rowCursors| && rowCursors[p] < |cachedRows[p].rows|
      requires plan.HasTime(p, cachedRows[p].rows[rowCursors[p]])
    {
      cachedRows[p].rows[rowCursors[p]].cols[plan.timeColumn[p]].bits
    }

    /** Send the builder contents as a batch. */
    method SendBuilders(eos: bool)
      requires Emitting() && !sentEos && |columnBuilders| <= plan.OutputRowsPerBatch()
      requires columnBuilders != [] || eos
      modifies this`sent, this`sentEos, this`columnBuilders
      ensures Emitting() && columnBuilders == [] && sentEos == eos
      ensures sent == old(sent) + [RowBatch(old(columnBuilders), eos, eos)]
    {
      EmittedFlush(sent, columnBuilders, Outs(merged), plan.OutputRowsPerBatch(), eos);
      sent, columnBuilders := sent + [RowBatch(columnBuilders, eos, eos)], [];
      if eos { sentEos := true; }
    }

    method FlushBatch()
      requires Shape() && Emitting() && !sentEos
      requires |columnBuilders| <= plan.OutputRowsPerBatch()
      requires columnBuilders != [] || AllFlushed()
      modifies this`sent, this`sentEos, this`columnBuilders
      ensures Emitting() && columnBuilders == []
      ensures sentEos == AllFlushed()
      ensures sent == old(sent) + [RowBatch(old(columnBuilders), sentEos, sentEos)]
    {
      var eos := InputsComplete();
      SendBuilders(eos);
    }

    method OptionallyFlushRowBatchIfMaxRowsOrEOS()
      requires Shape() && Emitting() && !sentEos
      requires |columnBuilders| <= plan.OutputRowsPerBatch()
      modifies this`sent, this`sentEos, this`columnBuilders
      ensures Emitting() && sentEos == AllFlushed()
      ensures |columnBuilders| < plan.OutputRowsPerBatch() && (sentEos ==> columnBuilders == [])
      ensures old(Full()) ==> Full()
    {
      var eos := InputsComplete();
      if |columnBuilders| < plan.OutputRowsPerBatch() && !eos { return; }
      AllFullSnoc(sent, RowBatch(columnBuilders, eos, eos), plan.OutputRowsPerBatch());
      FlushBatch();
    }

    method OptionallyFlushRowBatchIfTimeout(timedOut: bool)
      requires Valid()
      modifies this`sent, this`sentEos, this`columnBuilders
      ensures Valid()
      ensures sentEos == old(sentEos)
      ensures if timedOut && old(columnBuilders) != []
              then columnBuilders == [] && sent == old(sent) + [RowBatch(old(columnBuilders), false, false)]
              else columnBuilders == old(columnBuilders) && sent == old(sent)
    {
      if timedOut && |columnBuilders| > 0 {
        FlushBatch();
      }
    }

    /** Purge leading 0-row batches of a parent, noting its end of stream, and cache the next batch. */
    method CacheNextRowBatch(p: nat)
      requires Shape() && p < plan.NumParents() && OthersReady(p)
      requires Queued(parentRowBatches[p].batches, rowCursors[p], flushedParentEoses[p], ended[p])
      requires plan.AllFit(p, Rows(parentRowBatches[p].batches))
      modifies this`parentRowBatches, this`flushedParentEoses, this`cachedRows
      ensures Shape() && ParentsReady() && Left() == old(Left())
      ensures parentRowBatches == old(parentRowBatches)[p := parentRowBatches[p]]
      ensures flushedParentEoses == old(flushedParentEoses)[p := flushedParentEoses[p]]
      ensures cachedRows == old(cachedRows)[p := cachedRows[p]]
    {
      var queue, flushed := PurgeEmptyBatches(parentRowBatches[p].batches, rowCursors[p], flushedParentEoses[p],
        ended[p]);
      LeftUnchanged(plan, parentRowBatches, rowCursors, p, queue, rowCursors[p]);
      assert rowCursors[p := rowCursors[p]] == rowCursors;
      var rows := if queue != [] then Cached(queue[0].rows) else cachedRows[p];
      ChangeParent(plan, parentRowBatches, rowCursors, cachedRows, flushedParentEoses, ended, p, Queue(queue),
        rowCursors[p], rows, flushed, ended[p]);
      assert ended[p := ended[p]] == ended;
      parentRowBatches := parentRowBatches[p := Queue(queue)];
      flushedParentEoses := flushedParentEoses[p := flushed];
      cachedRows := cachedRows[p := rows];
    }

    /** Copy the row at a parent's cursor into the builders. */
    method AppendRow(p: nat)
      requires Shape() && Emitting() && p < plan.NumParents()
      requires rowCursors[p] < |cachedRows[p].rows| && plan.Fits(p, cachedRows[p].rows[rowCursors[p]])
      modifies this`columnBuilders, this`merged
      ensures Emitting() && |columnBuilders| == |old(columnBuilders)| + 1
      ensures merged == old(merged) + [Tagged(p, plan.ItemOf(p, cachedRows[p].rows[rowCursors[p]]))]
    {
      var row := cachedRows[p].rows[rowCursors[p]];
      ghost var x := Tagged(p, plan.ItemOf(p, row));
      OutsSnoc(merged, x);
      EmittedAppend(sent, columnBuilders, Outs(merged), plan.OutputRowsPerBatch(), plan.OutRow(p, row));
      columnBuilders := columnBuilders + [plan.OutRow(p, row)];
      merged := merged + [x];
    }

    /** Delete the used-up batch at the front of a parent's queue. */
    method PopRowBatch(p: nat)
      requires Shape() && ParentsReady() && p < plan.NumParents()
      requires parentRowBatches[p].batches != [] && rowCursors[p] + 1 == |parentRowBatches[p].batches[0].rows|
      modifies this`flushedParentEoses, this`parentRowBatches, this`rowCursors, this`cachedRows
      ensures Shape() && ParentsReady()
      ensures old(Left())[p] != [] && Left() == DropHead(old(Left()), p)
      ensures parentRowBatches == old(parentRowBatches)[p := parentRowBatches[p]]
      ensures flushedParentEoses == old(flushedParentEoses)[p := flushedParentEoses[p]]
    {
      PopParent(plan, parentRowBatches, rowCursors, cachedRows, flushedParentEoses, ended, p);
      var queue := parentRowBatches[p].batches;
      flushedParentEoses := flushedParentEoses[p := flushedParentEoses[p] || queue[0].eos];
      parentRowBatches := parentRowBatches[p := Queue(queue[1..])];
      rowCursors := rowCursors[p := 0];
      CacheNextRowBatch(p);
    }

    method StepCursor(p: nat)
      requires Shape() && ParentsReady() && p < plan.NumParents()
      requires parentRowBatches[p].batches != [] && rowCursors[p] + 1 < |parentRowBatches[p].batches[0].rows|
      modifies this`rowCursors
      ensures Shape() && ParentsReady()
      ensures old(Left())[p] != [] && Left() == DropHead(old(Left()), p)
    {
      StepParent(plan, parentRowBatches, rowCursors, cachedRows, flushedParentEoses, ended, p);
      rowCursors := rowCursors[p := rowCursors[p] + 1];
    }

    /** Step past the row at a parent's cursor, popping the batch once it is used up. */
    method Advance(p: nat)
      requires Shape() && ParentsReady()
      requires p < plan.NumParents() && parentRowBatches[p].batches != []
      modifies this`flushedParentEoses, this`parentRowBatches, this`rowCursors, this`cachedRows
      ensures Shape() && ParentsReady()
      ensures old(Left())[p] != [] && Left() == DropHead(old(Left()), p)
      ensures parentRowBatches == old(parentRowBatches)[p := parentRowBatches[p]]
      ensures flushedParentEoses == old(flushedParentEoses)[p := flushedParentEoses[p]]
    {
      assert ParentEntry(plan, parentRowBatches, rowCursors, cachedRows, flushedParentEoses, ended, p);
      if rowCursors[p] + 1 == |parentRowBatches[p].batches[0].rows| {
        PopRowBatch(p);
      } else {
        StepCursor(p);
      }
    }

    /** Append the least row and step past it, flushing the builders if that is due. */
    method AppendNextRow(p: nat)
      requires Merging() && Emitting() && !sentEos && |columnBuilders| < plan.OutputRowsPerBatch()
      requires p < plan.NumParents() && parentRowBatches[p].batches != [] && IsNext(Left(), p)
      requires forall q: nat | q < plan.NumParents() && Left()[q] == [] :: ended[q]
      modifies this`flushedParentEoses, this`parentRowBatches, this`rowCursors, this`cachedRows
      modifies this`columnBuilders, this`sentEos, this`sent, this`merged
      ensures old(Full()) ==> Full()
      ensures Valid()
      ensures Left() == DropHead(old(Left()), p)
      ensures parentRowBatches == old(parentRowBatches)[p := parentRowBatches[p]]
      ensures flushedParentEoses == old(flushedParentEoses)[p := flushedParentEoses[p]]
    {
      HeadAtCursor(p);
      assert Head(Left(), p) == Tagged(p, plan.ItemOf(p, cachedRows[p].rows[rowCursors[p]]));
      ConfluentAppend(arrived, ended, merged, Left(), p);
      AppendRow(p);
      Advance(p);
      OptionallyFlushRowBatchIfMaxRowsOrEOS();
    }

    /** The unflushed parents with the time at their cursors; `missing` if one of them has no row. */
    method CollectStreams() returns (streams: seq<Stream>, missing: bool)
      requires Shape() && ParentsReady()
      ensures missing ==> Starved() && !AllFlushed()
      ensures !missing ==> Collected(streams, flushedParentEoses, parentRowBatches, Left(), plan.NumParents())
    {
      streams := [];
      var parent := 0;
      while parent < |rowCursors|
        invariant parent <= |rowCursors|
        invariant Collected(streams, flushedParentEoses, parentRowBatches, Left(), parent)
      {
        if !flushedParentEoses[parent] {
          assert ParentEntry(plan, parentRowBatches, rowCursors, cachedRows, flushedParentEoses, ended, parent);
          if parentRowBatches[parent].batches == [] {
            assert StarvedAt(parent);
            return streams, true;
          }
          HeadAtCursor(parent);
          var x := Stream(parent, TimeAtParentCursor(parent));
          CollectNext(streams, flushedParentEoses, parentRowBatches, Left(), x);
          streams := streams + [x];
        } else {
          CollectSkip(streams, flushedParentEoses, parentRowBatches, Left(), parent);
        }
        parent := parent + 1;
      }
      missing := false;
    }

    ghost predicate IsStream(x: Stream)
      reads this
      requires Shape()
    {
      StreamOf(x, flushedParentEoses, parentRowBatches, Left())
    }

    lemma HeadAtCursor(p: nat)
      requires Shape() && ParentsReady() && p < plan.NumParents() && parentRowBatches[p].batches != []
      ensures rowCursors[p] < |cachedRows[p].rows| && plan.Fits(p, cachedRows[p].rows[rowCursors[p]])
      ensures Left()[p] != [] && Left()[p][0] == plan.ItemOf(p, cachedRows[p].rows[rowCursors[p]])
    {
      assert ParentEntry(plan, parentRowBatches, rowCursors, cachedRows, flushedParentEoses, ended, p);
      RowsCons(parentRowBatches[p].batches);
      assert cachedRows[p].rows[rowCursors[p]] == Rows(parentRowBatches[p].batches)[rowCursors[p]];
    }

    lemma Covered(q: nat, streams: seq<Stream>)
      requires Shape() && ParentsReady() && q < plan.NumParents()
      requires forall x | x in streams :: IsStream(x)
      requires !flushedParentEoses[q] ==> Lists(streams, q)
      ensures if Left()[q] == [] then ended[q] else Stream(q, Left()[q][0].time) in streams
    {
      assert ParentEntry(plan, parentRowBatches, rowCursors, cachedRows, flushedParentEoses, ended, q);
    }

    /** Only the first candidate may have advanced since the candidates were ordered. */
    ghost predicate Candidates(streams: seq<Stream>, left0: seq<seq<Item>>)
      reads this
    {
      && Shape() && |left0| == plan.NumParents() && Covers(streams, left0, ended)
      && SameBut(Left(), left0, streams[0].parent)
    }

    /** Whether the second candidate's next row comes before the first one's. */
    method ReachedLimit(streams: seq<Stream>, ghost left0: seq<seq<Item>>) returns (stop: bool)
      requires Merging() && Candidates(streams, left0) && parentRowBatches[streams[0].parent].batches != []
      ensures stop ==> Left() != left0
      ensures !stop ==> IsNext(Left(), streams[0].parent)
    {
      var parent := streams[0].parent;
      HeadAtCursor(parent);
      if |streams| > 1 {
        var next := streams[1].parent;
        assert streams[0] in streams && streams[1] in streams && ComesFirst(streams[0], streams[1]);
        assert next != parent by {
          assert streams[0].time == left0[parent][0].time && streams[1].time == left0[next][0].time;
        }
        assert Left()[next] == left0[next] != [];
        HeadAtCursor(next);
        if TimeAtParentCursor(parent) > TimeAtParentCursor(next) ||
           (TimeAtParentCursor(parent) == TimeAtParentCursor(next) && parent > next) {
          return true;
        }
      }
      LeastIsNext(Left(), streams, parent);
      stop := false;
    }

    /** Append one row of the first candidate, unless the second one's next row comes first. */
    method MergeOne(streams: seq<Stream>, ghost left0: seq<seq<Item>>) returns (stop: bool)
      requires Valid() && Candidates(streams, left0) && parentRowBatches[streams[0].parent].batches != []
      modifies this`flushedParentEoses, this`parentRowBatches, this`rowCursors, this`cachedRows
      modifies this`columnBuilders, this`sentEos, this`sent, this`merged
      ensures old(Full()) ==> Full()
      ensures Valid() && Candidates(streams, left0)
      ensures stop ==> Left() == old(Left()) && Left() != left0 && parentRowBatches == old(parentRowBatches)
      ensures !stop ==> Total(Left()) < Total(old(Left()))
    {
      stop := ReachedLimit(streams, left0);
      if !stop {
        MergeStep(Left(), streams[0].parent);
        UnflushedHaveHeads(streams, left0);
        SameButNext(Left(), left0, streams[0].parent);
        AppendNextRow(streams[0].parent);
      }
    }

    lemma UnflushedHaveHeads(streams: seq<Stream>, left0: seq<seq<Item>>)
      requires Merging() && Candidates(streams, left0) && parentRowBatches[streams[0].parent].batches != []
      ensures !AllFlushed()
      ensures forall q: nat | q < plan.NumParents() && Left()[q] == [] :: ended[q]
    {
      var p := streams[0].parent;
      HeadAtCursor(p);
      assert ParentEntry(plan, parentRowBatches, rowCursors, cachedRows, flushedParentEoses, ended, p);
    }

    /** Append rows of the least parent until another parent's next row comes first. */
    method MergeFrom(streams: seq<Stream>)
      requires Valid() && Candidates(streams, Left()) && parentRowBatches[streams[0].parent].batches != []
      modifies this`flushedParentEoses, this`parentRowBatches, this`rowCursors, this`cachedRows
      modifies this`columnBuilders, this`sentEos, this`sent, this`merged
      ensures old(Full()) ==> Full()
      ensures Valid() && Total(Left()) < Total(old(Left()))
    {
      ghost var left0 := Left();
      while parentRowBatches[streams[0].parent].batches != []
        invariant old(Full()) ==> Full()
        invariant Valid() && Candidates(streams, left0)
        invariant Left() == left0 || Total(Left()) < Total(left0)
        invariant Left() == left0 ==> parentRowBatches[streams[0].parent].batches != []
        decreases Total(Left())
      {
        var stop := MergeOne(streams, left0);
        if stop { break; }
      }
    }

    lemma {:induction false} AreCandidates(streams: seq<Stream>)
      requires Shape() && ParentsReady() && SortedStreams(streams) && streams != []
      requires forall x | x in streams :: IsStream(x)
      requires forall p: nat | p < plan.NumParents() && !flushedParentEoses[p] :: Lists(streams, p)
      ensures Candidates(streams, Left()) && parentRowBatches[streams[0].parent].batches != []
      ensures !AllFlushed()
    {
      assert streams[0] in streams;
      forall q: nat | q < plan.NumParents()
        ensures if Left()[q] == [] then ended[q] else Stream(q, Left()[q][0].time) in streams
      {
        Covered(q, streams);
      }
    }

    method MergeData()
      requires Merging() && Emitting() && !sentEos && |columnBuilders| < plan.OutputRowsPerBatch()
      modifies this`flushedParentEoses, this`parentRowBatches, this`rowCursors, this`cachedRows
      modifies this`columnBuilders, this`sentEos, this`sent, this`merged
      ensures Valid() && (sentEos || Starved())
      ensures old(Full()) ==> Full()
    {
      while !sentEos
        invariant Merging() && Emitting() && |columnBuilders| < plan.OutputRowsPerBatch()
        invariant old(Full()) ==> Full()
        invariant sentEos ==> Valid()
        decreases Total(Left()), !sentEos
      {
        var streams, missing := CollectStreams();
        if missing { return; }
        CollectedMembers(streams, streams, flushedParentEoses, parentRowBatches, Left(), plan.NumParents());
        if streams == [] {
          OptionallyFlushRowBatchIfMaxRowsOrEOS();
          return;
        }
        CollectedApart(streams, flushedParentEoses, parentRowBatches, Left(), plan.NumParents());
        var sorted := SortStreams(streams);
        CollectedMembers(streams, sorted, flushedParentEoses, parentRowBatches, Left(), plan.NumParents());
        AreCandidates(sorted);
        MergeFrom(sorted);
      }
    }

    /** Put a batch at the end of a parent's queue. */
    method PushBatch(p: nat, rb: RowBatch<Row>)
      requires Merging() && p < plan.NumParents() && !ended[p]
      requires (rb.eos ==> rb.eow) && plan.AllFit(p, rb.rows)
      modifies this`parentRowBatches, this`arrived, this`ended
      ensures Shape() && OthersReady(p) && Confluent(arrived, ended, merged, Left())
      ensures Queued(parentRowBatches[p].batches, rowCursors[p], flushedParentEoses[p], ended[p])
      ensures plan.AllFit(p, Rows(parentRowBatches[p].batches))
      ensures arrived == old(arrived)[p := old(arrived)[p] + plan.Items(p, rb.rows)]
      ensures ended == old(ended)[p := rb.eos]
    {
      var queue := Queue(parentRowBatches[p].batches + [rb]);
      OthersStay(p, queue, rb.eos);
      assert ParentEntry(plan, parentRowBatches, rowCursors, cachedRows, flushedParentEoses, ended, p);
      Arrive(plan, parentRowBatches, rowCursors, p, cachedRows[p].rows, flushedParentEoses[p], rb, arrived, ended,
        merged);
      arrived := arrived[p := arrived[p] + plan.Items(p, rb.rows)];
      ended := ended[p := rb.eos];
      parentRowBatches := parentRowBatches[p := queue];
    }

    lemma OthersStay(p: nat, queue: Queue, eos: bool)
      requires Shape() && ParentsReady() && p < plan.NumParents()
      ensures AllParentsBut(plan, parentRowBatches[p := queue], rowCursors, cachedRows, flushedParentEoses,
              ended[p := eos], p)
    {
      ChangeParent(plan, parentRowBatches, rowCursors, cachedRows, flushedParentEoses, ended, p, queue, rowCursors[p],
        cachedRows[p], flushedParentEoses[p], eos);
      assert rowCursors[p := rowCursors[p]] == rowCursors && cachedRows[p := cachedRows[p]] == cachedRows;
      assert flushedParentEoses[p := flushedParentEoses[p]] == flushedParentEoses;
    }

    /** Queue a batch from parent `p`. */
    method Enqueue(p: nat, rb: RowBatch<Row>)
      requires Merging() && p < plan.NumParents() && !ended[p]
      requires (rb.eos ==> rb.eow) && plan.AllFit(p, rb.rows)
      modifies this`flushedParentEoses, this`parentRowBatches, this`cachedRows, this`arrived, this`ended
      ensures Merging()
      ensures arrived == old(arrived)[p := old(arrived)[p] + plan.Items(p, rb.rows)]
      ensures ended == old(ended)[p := rb.eos]
    {
      PushBatch(p, rb);
      CacheNextRowBatch(p);
    }

    /** One call from parent `p`; `timedOut` is whether the flush timeout has passed. */
    method ConsumeNextOrdered(p: nat, rb: RowBatch<Row>, timedOut: bool)
      requires Valid() && p < plan.NumParents() && !ended[p]
      requires (rb.eos ==> rb.eow) && plan.AllFit(p, rb.rows)
      modifies this
      ensures Valid()
      ensures arrived == old(arrived)[p := old(arrived)[p] + plan.Items(p, rb.rows)]
      ensures ended == old(ended)[p := rb.eos]
      ensures sentEos <==> forall q: nat | q < plan.NumParents() :: ended[q]
      ensures sentEos || Starved()
      ensures timedOut ==> columnBuilders == []
      ensures !timedOut && old(Full()) ==> Full()
    {
      assert !flushedParentEoses[p] by {
        assert ParentEntry(plan, parentRowBatches, rowCursors, cachedRows, flushedParentEoses, ended, p);
      }
      Enqueue(p, rb);
      MergeData();
      OptionallyFlushRowBatchIfTimeout(timedOut);
      if sentEos { FlushedEnded(); }
    }

    /** No parent is flushed before it has ended. */
    lemma NoneFlushed()
      requires Shape() && ParentsReady() && forall p: nat | p < plan.NumParents() :: !ended[p]
      ensures forall p: nat | p < plan.NumParents() :: !flushedParentEoses[p]
    {
      forall p: nat | p < plan.NumParents() ensures !flushedParentEoses[p] {
        assert ParentEntry(plan, parentRowBatches, rowCursors, cachedRows, flushedParentEoses, ended, p);
      }
    }

    lemma MergedSoFar()
      requires Valid()
      ensures forall more | Future(ended, more) :: Rows(sent) + columnBuilders <= Outs(Merge(Extend(arrived, more)))
      ensures sentEos ==> Rows(sent) == Outs(Merge(arrived))
      ensures EmittedOk(sent, columnBuilders, Outs(merged), plan.OutputRowsPerBatch())
    {
      assert CitedEmitted(0);
      forall more | Future(ended, more) ensures Rows(sent) + columnBuilders <= Outs(Merge(Extend(arrived, more))) {
        assert Completes(arrived, ended, merged, Left(), more);
      }
      if sentEos {
        FlushedEnded();
        ConfluentDone(arrived, ended, merged, Left());
      }
    }

    lemma FlushedEnded()
      requires Shape() && ParentsReady() && AllFlushed()
      ensures forall q: nat | q < plan.NumParents() :: ended[q]
      ensures AllEmpty(Left())
    {
      forall q: nat | q < plan.NumParents() ensures ended[q] && Left()[q] == [] {
        assert ParentEntry(plan, parentRowBatches, rowCursors, cachedRows, flushedParentEoses, ended, q);
      }
    }

    /** The unordered form: forward the mapped batch, marking the end once every parent has ended. */
    method ConsumeNextUnordered(p: nat, rb: RowBatch<Row>)
      requires plan.Valid() && p < plan.NumParents() == |flushedParentEoses| && !flushedParentEoses[p]
      requires WellFormedPrefix(sent) && !Ended(sent) && sentEos == Ended(sent)
      requires forall i | 0 <= i < |rb.rows| :: plan.HasColumns(p, rb.rows[i])
      modifies this`flushedParentEoses, this`sent, this`sentEos
      ensures flushedParentEoses == old(flushedParentEoses)[p := rb.eos]
      ensures WellFormedPrefix(sent) && sentEos == Ended(sent) == AllFlushed()
      ensures Rows(sent) == Rows(old(sent)) + plan.OutRows(p, rb.rows)
    {
      if rb.eos { flushedParentEoses := flushedParentEoses[p := true]; }
      var complete := InputsComplete();
      var outputRb := RowBatch(plan.OutRows(p, rb.rows), complete, complete);
      RowsSnoc(sent, outputRb);
      sent := sent + [outputRb];
      if complete { sentEos := true; }
    }
  }

  // ---- Whole runs ----

  /** Every parent sends a well-formed stream of rows that have the mapped columns. */
  ghost predicate Feeds(plan: UnionPlan, calls: seq<Call>) {
    && WellFormedCalls(plan.NumParents(), calls)
    && (forall i | 0 <= i < |calls| :: forall j | 0 <= j < |calls[i].batch.rows| ::
          plan.HasColumns(calls[i].parent, calls[i].batch.rows[j]))
  }

  /** Every row has a time at its parent's time column. */
  ghost predicate Timed(plan: UnionPlan, calls: seq<Call>) {
    forall i | 0 <= i < |calls| :: forall j | 0 <= j < |calls[i].batch.rows| ::
      plan.HasTime(calls[i].parent, calls[i].batch.rows[j])
  }

  /** Everything each parent has sent, independent of batching and of the order of the calls. */
  ghost function Arrivals(plan: UnionPlan, calls: seq<Call>): (ss: seq<seq<Item>>)
    ensures |ss| == plan.NumParents()
    ensures forall p: nat | p < |ss| :: ss[p] == plan.Items(p, Rows(StreamFrom(calls, p)))
  {
    seq(plan.NumParents(), p requires 0 <= p => plan.Items(p, Rows(StreamFrom(calls, p))))
  }

  ghost function EndedParents(plan: UnionPlan, calls: seq<Call>): (e: seq<bool>)
    ensures |e| == plan.NumParents()
    ensures forall p: nat | p < |e| :: e[p] == Ended(StreamFrom(calls, p))
  {
    seq(plan.NumParents(), p requires 0 <= p => Ended(StreamFrom(calls, p)))
  }

  lemma ItemsAppend(plan: UnionPlan, p: nat, a: seq<Row>, b: seq<Row>)
    ensures plan.Items(p, a + b) == plan.Items(p, a) + plan.Items(p, b)
  {
  }

  /** One more call adds its rows to what its parent has sent, and nothing to the others. */
  lemma ArrivalStep(plan: UnionPlan, calls: seq<Call>, i: nat, q: nat)
    requires i < |calls|
    ensures var was := plan.Items(q, Rows(StreamFrom(calls[..i], q)));
            plan.Items(q, Rows(StreamFrom(calls[..i + 1], q))) ==
            if q == calls[i].parent then was + plan.Items(q, calls[i].batch.rows) else was
  {
    StreamStep(calls, i, q);
    if q == calls[i].parent {
      RowsSnoc(StreamFrom(calls[..i], q), calls[i].batch);
      ItemsAppend(plan, q, Rows(StreamFrom(calls[..i], q)), calls[i].batch.rows);
    }
  }

  lemma {:induction false} ArrivalsStep(plan: UnionPlan, calls: seq<Call>, i: nat)
    requires i < |calls| && calls[i].parent < plan.NumParents()
    ensures var p, before := calls[i].parent, Arrivals(plan, calls[..i]);
      Arrivals(plan, calls[..i + 1]) == before[p := before[p] + plan.Items(p, calls[i].batch.rows)]
  {
    var p, before, after := calls[i].parent, Arrivals(plan, calls[..i]), Arrivals(plan, calls[..i + 1]);
    var expected := before[p := before[p] + plan.Items(p, calls[i].batch.rows)];
    forall q: nat | q < plan.NumParents() ensures after[q] == expected[q] {
      ArrivalStep(plan, calls, i, q);
    }
  }

  lemma EndedStep(plan: UnionPlan, calls: seq<Call>, i: nat)
    requires WellFormedCalls(plan.NumParents(), calls) && i < |calls|
    ensures EndedParents(plan, calls[..i + 1]) == EndedParents(plan, calls[..i])[calls[i].parent := calls[i].batch.eos]
  {
    var p, before, after := calls[i].parent, EndedParents(plan, calls[..i]), EndedParents(plan, calls[..i + 1]);
    CallAllowed(plan.NumParents(), calls, i);
    forall q: nat | q < plan.NumParents() && q != p ensures after[q] == before[q] {
      StreamStep(calls, i, q);
    }
  }

  lemma CallStep(plan: UnionPlan, calls: seq<Call>, i: nat)
    requires WellFormedCalls(plan.NumParents(), calls) && i < |calls|
    ensures !EndedParents(plan, calls[..i])[calls[i].parent]
    ensures calls[i].batch.eos ==> calls[i].batch.eow
    ensures var p, before := calls[i].parent, Arrivals(plan, calls[..i]);
      Arrivals(plan, calls[..i + 1]) == before[p := before[p] + plan.Items(p, calls[i].batch.rows)]
    ensures EndedParents(plan, calls[..i + 1]) == EndedParents(plan, calls[..i])[calls[i].parent := calls[i].batch.eos]
  {
    CallAllowed(plan.NumParents(), calls, i);
    ArrivalsStep(plan, calls, i);
    EndedStep(plan, calls, i);
  }

  /** The flush timeout passes during no call. */
  ghost predicate NoTimeout(calls: seq<Call>) {
    calls == [] || (NoTimeout(calls[..|calls| - 1]) && !calls[|calls| - 1].timedOut)
  }

  /** What the node has consumed over some calls, and how far it got. */
  ghost predicate Fed(node: UnionNode, calls: seq<Call>)
    reads node
  {
    && node.Valid() && node.arrived == Arrivals(node.plan, calls) && node.ended == EndedParents(node.plan, calls)
    && (node.sentEos <==> AllEnded(node.plan.NumParents(), calls)) && (node.sentEos || node.Starved())
  }

  method FeedOne(node: UnionNode, calls: seq<Call>, i: nat)
    requires Feeds(node.plan, calls) && Timed(node.plan, calls) && i < |calls| && Fed(node, calls[..i])
    modifies node
    ensures Fed(node, calls[..i + 1])
    ensures calls[i].timedOut ==> node.columnBuilders == []
    ensures !calls[i].timedOut && old(node.Full()) ==> node.Full()
  {
    CallStep(node.plan, calls, i);
    node.ConsumeNextOrdered(calls[i].parent, calls[i].batch, calls[i].timedOut);
  }

  method FeedOrdered(node: UnionNode, calls: seq<Call>)
    requires Fed(node, []) && Feeds(node.plan, calls) && Timed(node.plan, calls)
    modifies node
    ensures Fed(node, calls)
    ensures calls != [] && calls[|calls| - 1].timedOut ==> node.columnBuilders == []
    ensures NoTimeout(calls) && old(node.Full()) ==> node.Full()
  {
    assert calls[..0] == [];
    for i := 0 to |calls|
      invariant Fed(node, calls[..i])
      invariant i > 0 && calls[i - 1].timedOut ==> node.columnBuilders == []
      invariant NoTimeout(calls[..i]) && old(node.Full()) ==> node.Full()
    {
      assert calls[..i + 1][..i] == calls[..i];
      FeedOne(node, calls, i);
    }
    assert calls[..|calls|] == calls;
  }

  // ---- The output spelled out in rows and columns ----

  /** A row that some parent sent: the parent, and its position among that parent's rows. */
  datatype Origin = Origin(parent: nat, index: nat)

  ghost predicate IsOrigin(plan: UnionPlan, calls: seq<Call>, o: Origin) {
    o.parent < plan.NumParents() && o.index < |Rows(StreamFrom(calls, o.parent))|
  }

  ghost function SourceRow(calls: seq<Call>, o: Origin): Row {
    var rows := Rows(StreamFrom(calls, o.parent));
    if o.index < |rows| then rows[o.index] else Row([])
  }

  ghost function TimeOf(plan: UnionPlan, p: nat, row: Row): int {
    if p < |plan.timeColumn| && At(row, plan.timeColumn[p]).Fixed? then At(row, plan.timeColumn[p]).bits else 0
  }

  /** Earlier rows come first; at the same time those of an earlier parent, and those sent earlier by the same one. */
  ghost predicate Precedes(plan: UnionPlan, calls: seq<Call>, a: Origin, b: Origin) {
    var s, t := TimeOf(plan, a.parent, SourceRow(calls, a)), TimeOf(plan, b.parent, SourceRow(calls, b));
    s < t || (s == t && (a.parent < b.parent || (a.parent == b.parent && a.index < b.index)))
  }

  /** Column `c` of the output is the column of the row that the parent's mapping gives for `c`. */
  ghost predicate IsMapped(plan: UnionPlan, p: nat, row: Row, out: Row) {
    p < plan.NumParents() && |out.cols| == |plan.columnMapping[p]| &&
    forall c | 0 <= c < |out.cols| :: out.cols[c] == At(row, plan.columnMapping[p][c])
  }

  ghost predicate Comes(plan: UnionPlan, calls: seq<Call>, o: Origin, out: Row) {
    IsOrigin(plan, calls, o) && IsMapped(plan, o.parent, SourceRow(calls, o), out)
  }

  /** `rows` are all rows of all parents, each once, in order. */
  ghost predicate Interleaved(plan: UnionPlan, calls: seq<Call>, rows: seq<Row>, origins: seq<Origin>) {
    && |origins| == |rows|
    && (forall k | 0 <= k < |rows| :: Comes(plan, calls, origins[k], rows[k]))
    && (forall j, k | 0 <= j < k < |rows| :: Precedes(plan, calls, origins[j], origins[k]))
    && (forall o :: IsOrigin(plan, calls, o) ==> o in origins)
  }

  /** The rows of each parent are in the order of their times. */
  ghost predicate InTimeOrder(plan: UnionPlan, calls: seq<Call>) {
    forall p: nat, i: nat, j: nat | i < j < |Rows(StreamFrom(calls, p))| ::
      TimeOf(plan, p, SourceRow(calls, Origin(p, i))) <= TimeOf(plan, p, SourceRow(calls, Origin(p, j)))
  }

  lemma AllFitAppend(plan: UnionPlan, p: nat, a: seq<Row>, b: seq<Row>)
    requires plan.AllFit(p, a) && plan.AllFit(p, b)
    ensures plan.AllFit(p, a + b)
  {
  }

  lemma {:induction false} StreamFits(plan: UnionPlan, calls: seq<Call>, p: nat)
    requires (forall i | 0 <= i < |calls| :: plan.AllFit(calls[i].parent, calls[i].batch.rows))
    ensures plan.AllFit(p, Rows(StreamFrom(calls, p)))
  {
    if calls != [] {
      var n := |calls| - 1;
      StreamFits(plan, calls[..n], p);
      var init := StreamFrom(calls[..n], p);
      if calls[n].parent == p {
        RowsSnoc(init, calls[n].batch);
        AllFitAppend(plan, p, Rows(init), calls[n].batch.rows);
      } else {
        assert StreamFrom(calls, p) == init;
      }
    }
  }

  lemma FeedsFit(plan: UnionPlan, calls: seq<Call>, p: nat)
    requires Feeds(plan, calls) && Timed(plan, calls)
    ensures plan.AllFit(p, Rows(StreamFrom(calls, p)))
  {
    forall i | 0 <= i < |calls| ensures plan.AllFit(calls[i].parent, calls[i].batch.rows) {
    }
    StreamFits(plan, calls, p);
  }

  lemma ArrivalsSorted(plan: UnionPlan, calls: seq<Call>, p: nat)
    requires plan.Valid() && Feeds(plan, calls) && Timed(plan, calls) && InTimeOrder(plan, calls)
    requires p < plan.NumParents()
    ensures SortedByTime(Arrivals(plan, calls)[p])
  {
    var items, rows := Arrivals(plan, calls)[p], Rows(StreamFrom(calls, p));
    FeedsFit(plan, calls, p);
    forall i, j | 0 <= i < j < |items| ensures items[i].time <= items[j].time {
      assert plan.Fits(p, rows[i]) && plan.Fits(p, rows[j]);
      assert SourceRow(calls, Origin(p, i)) == rows[i] && SourceRow(calls, Origin(p, j)) == rows[j];
    }
  }

  ghost function OriginOf(t: seq<Tagged>, k: nat): Origin
    requires k < |t|
  {
    Origin(t[k].parent, IndexOf(t, k))
  }

  lemma MergedRow(plan: UnionPlan, calls: seq<Call>, t: seq<Tagged>, k: nat)
    requires plan.Valid() && Feeds(plan, calls) && Timed(plan, calls)
    requires IsStableMerge(t, Arrivals(plan, calls)) && k < |t|
    ensures Comes(plan, calls, OriginOf(t, k), t[k].item.out)
    ensures t[k].item.time == TimeOf(plan, t[k].parent, SourceRow(calls, OriginOf(t, k)))
  {
    var p, o := t[k].parent, OriginOf(t, k);
    assert FromParent(t, p) == Arrivals(plan, calls)[p];
    IndexedItem(t, k);
    FeedsFit(plan, calls, p);
    assert plan.Fits(p, SourceRow(calls, o));
  }

  lemma MergedOrder(plan: UnionPlan, calls: seq<Call>, t: seq<Tagged>, j: nat, k: nat)
    requires plan.Valid() && Feeds(plan, calls) && Timed(plan, calls)
    requires IsStableMerge(t, Arrivals(plan, calls)) && j < k < |t|
    ensures Precedes(plan, calls, OriginOf(t, j), OriginOf(t, k))
  {
    MergedRow(plan, calls, t, j);
    MergedRow(plan, calls, t, k);
    assert NotAfter(t[j], t[k]);
    if t[j].parent == t[k].parent {
      IndexGrows(t, j, k);
    }
  }

  /** For parents that send their rows in time order, the merge is every row once, by time, parent and position. */
  lemma MergeIsInterleaved(plan: UnionPlan, calls: seq<Call>) returns (origins: seq<Origin>)
    requires plan.Valid() && Feeds(plan, calls) && Timed(plan, calls) && InTimeOrder(plan, calls)
    ensures Interleaved(plan, calls, Outs(Merge(Arrivals(plan, calls))), origins)
  {
    var ss := Arrivals(plan, calls);
    var t := Merge(ss);
    forall p: nat | p < |ss| ensures SortedByTime(ss[p]) {
      ArrivalsSorted(plan, calls, p);
    }
    MergeIsStable(ss);
    origins := seq(|t|, k requires 0 <= k < |t| => OriginOf(t, k));
    forall k | 0 <= k < |t| ensures Comes(plan, calls, origins[k], Outs(t)[k]) {
      MergedRow(plan, calls, t, k);
    }
    forall j, k | 0 <= j < k < |t| ensures Precedes(plan, calls, origins[j], origins[k]) {
      MergedOrder(plan, calls, t, j, k);
    }
    forall o ensures IsOrigin(plan, calls, o) ==> o in origins {
      if IsOrigin(plan, calls, o) {
        assert FromParent(t, o.parent) == ss[o.parent];
        var k := IndexFound(t, o.parent, o.index);
        assert origins[k] == o;
      }
    }
  }

  /** A row and the parent that sent it. */
  datatype Sent = Sent(parent: nat, row: Row)

  /** All rows in the order in which they were sent. */
  ghost function InCallOrder(calls: seq<Call>): seq<Sent> {
    if calls == [] then []
    else
      var last := calls[|calls| - 1];
      InCallOrder(calls[..|calls| - 1]) +
      seq(|last.batch.rows|, i requires 0 <= i < |last.batch.rows| => Sent(last.parent, last.batch.rows[i]))
  }

  ghost predicate AllMapped(plan: UnionPlan, sent: seq<Sent>, rows: seq<Row>) {
    |rows| == |sent| && forall k | 0 <= k < |rows| :: IsMapped(plan, sent[k].parent, sent[k].row, rows[k])
  }

  lemma AllMappedAppend(plan: UnionPlan, s: seq<Sent>, rows: seq<Row>, more: seq<Sent>, b: seq<Row>)
    requires AllMapped(plan, s, rows) && AllMapped(plan, more, b)
    ensures AllMapped(plan, s + more, rows + b)
  {
  }

  lemma {:induction false} ForwardedIsMapped(plan: UnionPlan, calls: seq<Call>)
    requires forall i | 0 <= i < |calls| :: forall j | 0 <= j < |calls[i].batch.rows| ::
               plan.HasColumns(calls[i].parent, calls[i].batch.rows[j])
    ensures AllMapped(plan, InCallOrder(calls), Forwarded(plan, calls))
  {
    if calls != [] {
      var init, last := calls[..|calls| - 1], calls[|calls| - 1];
      ForwardedIsMapped(plan, init);
      var rows, b := last.batch.rows, plan.OutRows(last.parent, last.batch.rows);
      var more := seq(|rows|, i requires 0 <= i < |rows| => Sent(last.parent, rows[i]));
      forall k | 0 <= k < |b| ensures IsMapped(plan, last.parent, rows[k], b[k]) {
        assert plan.HasColumns(last.parent, rows[k]);
      }
      AllMappedAppend(plan, InCallOrder(init), Forwarded(plan, init), more, b);
    }
  }

  /** `rows` is what the merge emits first, up to a parent that has not ended and whose rows are all among them. */
  ghost predicate StopsAt(plan: UnionPlan, calls: seq<Call>, rows: seq<Row>, t: seq<Tagged>, p: nat) {
    && t <= Merge(Arrivals(plan, calls)) && Outs(t) == rows
    && p < plan.NumParents() && !Ended(StreamFrom(calls, p)) && FromParent(t, p) == Arrivals(plan, calls)[p]
  }

  /**
   A time-ordered union fed by any interleaving of well-formed parent streams, in any batching and
   with any timeout flushes. At every moment what was sent and what is pending is a prefix of the
   merge of any completion of the streams, and it goes as far as it can: up to a parent that may
   still send and has no row left. Once all parents have ended, the output is a finished stream
   holding exactly the merge of the parent streams.
   */
  method RunOrdered(plan: UnionPlan, calls: seq<Call>) returns (out: seq<RowBatch<Row>>, pending: seq<Row>)
    requires plan.Valid() && Feeds(plan, calls) && Timed(plan, calls)
    ensures WellFormedPrefix(out) && (Ended(out) <==> AllEnded(plan.NumParents(), calls))
    ensures AllEnded(plan.NumParents(), calls) ==> pending == [] && Rows(out) == Outs(Merge(Arrivals(plan, calls)))
    ensures forall more | Future(EndedParents(plan, calls), more) ::
      Rows(out) + pending <= Outs(Merge(Extend(Arrivals(plan, calls), more)))
    ensures AllEnded(plan.NumParents(), calls) && InTimeOrder(plan, calls) ==>
            exists origins :: Interleaved(plan, calls, Rows(out), origins)
    ensures !AllEnded(plan.NumParents(), calls) ==> exists t, p :: StopsAt(plan, calls, Rows(out) + pending, t, p)
    ensures |pending| < plan.OutputRowsPerBatch()
    ensures forall i | 0 <= i < |out| :: WellSized(out[i], plan.OutputRowsPerBatch())
    ensures NoTimeout(calls) ==>
            forall i | 0 <= i < |out| :: out[i].eos || |out[i].rows| == plan.OutputRowsPerBatch()
    ensures calls != [] && calls[|calls| - 1].timedOut ==> pending == []
  {
    var node := new UnionNode(plan);
    assert node.plan.NumParents() > 0 && !node.ended[0];
    FeedOrdered(node, calls);
    node.MergedSoFar();
    if !node.sentEos {
      ghost var p: nat :| p < plan.NumParents() && node.StarvedAt(p);
      ConfluentNow(node.arrived, node.ended, node.merged, node.Left(), p);
      assert StopsAt(plan, calls, Rows(node.sent) + node.columnBuilders, node.merged, p);
    }
    if node.sentEos && InTimeOrder(plan, calls) {
      ghost var origins := MergeIsInterleaved(plan, calls);
    }
    if NoTimeout(calls) {
      AllFullAt(node.sent, plan.OutputRowsPerBatch());
    }
    out, pending := node.sent, node.columnBuilders;
  }

  /** The unordered union forwards all rows in arrival order and ends exactly once. */
  method RunUnordered(plan: UnionPlan, calls: seq<Call>) returns (out: seq<RowBatch<Row>>)
    requires plan.Valid() && Feeds(plan, calls)
    ensures WellFormedPrefix(out) && (Ended(out) <==> AllEnded(plan.NumParents(), calls))
    ensures Rows(out) == Forwarded(plan, calls) && AllMapped(plan, InCallOrder(calls), Rows(out))
  {
    var node := new UnionNode(plan);
    var i := 0;
    assert calls[..0] == [];
    node.NoneFlushed();
    while i < |calls|
      invariant 0 <= i <= |calls|
      invariant node.plan == plan
      invariant node.flushedParentEoses == EndedParents(plan, calls[..i])
      invariant WellFormedPrefix(node.sent) && node.sentEos == Ended(node.sent) == node.AllFlushed()
      invariant Rows(node.sent) == Forwarded(plan, calls[..i])
    {
      CallStep(plan, calls, i);
      assert calls[..i + 1][..i] == calls[..i];
      node.ConsumeNextUnordered(calls[i].parent, calls[i].batch);
      i := i + 1;
    }
    assert calls[..i] == calls;
    ForwardedIsMapped(plan, calls);
    out := node.sent;
  }

  ghost function Forwarded(plan: UnionPlan, calls: seq<Call>): seq<Row> {
    if calls == [] then []
    else
      var last := calls[|calls| - 1];
      Forwarded(plan, calls[..|calls| - 1]) + plan.OutRows(last.parent, last.batch.rows)
  }
}
