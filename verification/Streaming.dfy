/**
 The protocol between result streams and the executor of a query, as a state machine with one atomic step per
 lock-held region: batches arrive and wake the executor while it schedules the sources and yields for data.
 */
module Streaming {
  import opened SourceTracking

  /** Where the query thread is. Sets of sources still to visit stand for an arbitrary iteration order. */
  datatype Pc =
    | Init
    | Pass(todo: set<int>, completed: set<int>)
    | PassHealth(source: int, todo: set<int>, completed: set<int>, empty: bool)
    | Generating(source: int, todo: set<int>, completed: set<int>, calls: nat)
    | Flush(completed: set<int>)
    | Scan(todo: set<int>)
    | Yielding
    | Blocked
    | WaitLook(todo: set<int>, completed: set<int>, ready: bool)
    | WaitLooked(source: int, todo: set<int>, completed: set<int>, ready: bool)
    | WaitHealth(source: int, todo: set<int>, completed: set<int>, ready: bool, empty: bool)
    | Done(ok: bool)

  datatype State = State(sources: map<int, Source>, restartSet: bool, continue_: bool, pc: Pc, running: set<int>) {
    function At(s: int): Source { if s in sources then sources[s] else Fresh }

    function With(s: int, x: Source): State { this.(sources := sources[s := x]) }

    function To(pc: Pc): State { this.(pc := pc) }

    /** Children that have enough rows stop some sources. */
    function StopAll(ids: set<int>): State {
      this.(sources := map s | s in sources :: if s in ids then sources[s].Stop() else sources[s])
    }
  }

  /** A step of a result stream, of the clock, or of the query thread. `stop` are the sources stopped by a send. */
  datatype Step =
    | Deliver(s: int, batch: Batch)
    | Restart(s: int)
    | Continue(s: int)
    | CloseStream(s: int)
    | SetRestartExecution
    | AddSourceNode(s: int)
    | Start
    | ReadQueue(s: int)
    | CheckFails(deadline: bool, stop: set<int>)
    | CheckPasses(calls: nat)
    | Generate(stop: set<int>)
    | EndCalls
    | EndPass
    | FlushCompleted
    | LookReady(s: int)
    | LookEmpty(s: int)
    | EndScan
    | Yield
    | Wake
    | Timeout
    | LookAgain(s: int)
    | WaitReadQueue
    | WaitCheckFails(deadline: bool, stop: set<int>)
    | WaitCheckPasses
    | EndWait
    | Fail

  /** A health check has read the queue of a source and not yet the flags of its connection. */
  predicate Checking(pc: Pc) { pc.PassHealth? || pc.WaitHealth? }

  /** The check finds the connection closed although the end of stream is pending. */
  predicate FindsClosed(v: State) {
    Checking(v.pc) && v.At(v.pc.source).ClosedTooEarly(v.pc.empty)
  }

  /** The connection is unhealthy: closed too early, or not initiated before the deadline. */
  predicate Unhealthy(v: State, deadline: bool) {
    Checking(v.pc) && (FindsClosed(v) || (deadline && !v.At(v.pc.source).upstreamInitiated))
  }

  predicate Executing(pc: Pc) { !pc.Init? && !pc.Done? }

  predicate Enabled(v: State, step: Step) {
    match step
    case Deliver(s, batch) => s in v.sources && v.At(s).producer == Reading
    case Restart(s) => s in v.sources && v.At(s).producer == PendingRestart
    case Continue(s) => s in v.sources && v.At(s).producer == PendingContinue
    case CloseStream(s) => s in v.sources && v.At(s).producer == Reading && v.At(s).accepted != []
    case SetRestartExecution => v.pc.Init?
    case AddSourceNode(s) => v.pc.Init? && v.restartSet && s in v.sources && !v.At(s).registered
    case Start => v.pc.Init? && v.restartSet && forall s | s in v.sources :: v.sources[s].registered
    case ReadQueue(s) => v.pc.Pass? && s in v.pc.todo
    case CheckFails(deadline, stop) => v.pc.PassHealth? && Unhealthy(v, deadline)
    case CheckPasses(calls) => v.pc.PassHealth? && !FindsClosed(v)
    case Generate(stop) => v.pc.Generating? && v.pc.calls > 0 && v.At(v.pc.source).NextBatchReady() &&
      !v.At(v.pc.source).stopped
    case EndCalls => v.pc.Generating? &&
      (v.pc.calls == 0 || !v.At(v.pc.source).NextBatchReady() || v.At(v.pc.source).stopped)
    case EndPass => v.pc.Pass? && v.pc.todo == {}
    case FlushCompleted => v.pc.Flush?
    case LookReady(s) => v.pc.Scan? && s in v.pc.todo && v.At(s).NextBatchReady()
    case LookEmpty(s) => v.pc.Scan? && s in v.pc.todo && !v.At(s).NextBatchReady()
    case EndScan => v.pc.Scan? && v.pc.todo == {}
    case Yield => v.pc.Yielding?
    case Wake => v.pc.Blocked? && v.continue_
    case Timeout => v.pc.Blocked?
    case LookAgain(s) => v.pc.WaitLook? && s in v.pc.todo
    case WaitReadQueue => v.pc.WaitLooked?
    case WaitCheckFails(deadline, stop) => v.pc.WaitHealth? && Unhealthy(v, deadline)
    case WaitCheckPasses => v.pc.WaitHealth? && !FindsClosed(v)
    case EndWait => v.pc.WaitLook? && v.pc.todo == {}
    case Fail => Executing(v.pc)
  }

  /** The executor goes back to the head of its loop, or waits again. */
  function Resume(v: State, ready: bool): State {
    if v.running == {} then v.To(Done(true)) else if ready then v.To(Pass(v.running, {})) else v.To(Yielding)
  }

  function Next(v: State, step: Step): State
    requires Enabled(v, step)
  {
    match step
    case Deliver(s, batch) => v.With(s, v.At(s).Enqueue(batch))
    case Restart(s) => v.With(s, v.At(s).(producer := if v.restartSet then PendingContinue else Reading))
    case Continue(s) => v.With(s, v.At(s).(producer := Reading)).(continue_ := true)
    case CloseStream(s) => v.With(s, v.At(s).Close())
    case SetRestartExecution => v.(restartSet := true)
    case AddSourceNode(s) => v.With(s, v.At(s).Register())
    case Start =>
      if v.sources.Keys == {} then v.To(Done(true)) else v.(running := v.sources.Keys, pc := Pass(v.sources.Keys, {}))
    case ReadQueue(s) => v.To(PassHealth(s, v.pc.todo - {s}, v.pc.completed, !v.At(s).NextBatchReady()))
    case CheckFails(deadline, stop) =>
      v.With(v.pc.source, v.At(v.pc.source).SendEndOfStream()).StopAll(stop)
        .To(Pass(v.pc.todo, v.pc.completed + {v.pc.source}))
    case CheckPasses(calls) => v.To(Generating(v.pc.source, v.pc.todo, v.pc.completed, calls))
    case Generate(stop) =>
      v.With(v.pc.source, v.At(v.pc.source).GenerateNext()).StopAll(stop).To(v.pc.(calls := v.pc.calls - 1))
    case EndCalls =>
      if v.At(v.pc.source).sentEos || v.At(v.pc.source).stopped then v.To(Flush(v.pc.completed + {v.pc.source}))
      else v.To(Pass(v.pc.todo, v.pc.completed))
    case EndPass => v.To(Flush(v.pc.completed))
    case FlushCompleted =>
      var left := v.running - v.pc.completed;
      v.(running := left, pc := if left == {} then Done(true) else Scan(left))
    case LookReady(s) => v.To(Pass(v.running, {}))
    case LookEmpty(s) => v.To(Scan(v.pc.todo - {s}))
    case EndScan => v.To(Yielding)
    case Yield => if v.continue_ then v.(continue_ := false, pc := WaitLook(v.running, {}, false)) else v.To(Blocked)
    case Wake => v.To(WaitLook(v.running, {}, false))
    case Timeout => v.To(WaitLook(v.running, {}, false))
    case LookAgain(s) => v.To(WaitLooked(s, v.pc.todo - {s}, v.pc.completed, v.pc.ready || v.At(s).NextBatchReady()))
    case WaitReadQueue =>
      v.To(WaitHealth(v.pc.source, v.pc.todo, v.pc.completed, v.pc.ready, !v.At(v.pc.source).NextBatchReady()))
    case WaitCheckFails(deadline, stop) =>
      v.With(v.pc.source, v.At(v.pc.source).SendEndOfStream()).StopAll(stop)
        .To(WaitLook(v.pc.todo, v.pc.completed + {v.pc.source}, v.pc.ready))
    case WaitCheckPasses => v.To(WaitLook(v.pc.todo, v.pc.completed, v.pc.ready))
    case EndWait => Resume(v.(running := v.running - v.pc.completed), v.pc.ready)
    case Fail => v.To(Done(false))
  }

  // ---- What every step keeps ----

  /** A wakeup is on its way: a stream handler has not yet called Continue. */
  ghost predicate PendingAt(v: State, s: int) {
    s in v.sources && (v.At(s).producer == PendingRestart || v.At(s).producer == PendingContinue)
  }

  ghost predicate WakeupComing(v: State) {
    v.continue_ || exists s :: PendingAt(v, s)
  }

  /** The executor found no batch at `s`; if there is one by now, a wakeup is coming. */
  ghost predicate NotLost(v: State, s: int) {
    v.At(s).NextBatchReady() ==> WakeupComing(v)
  }

  ghost predicate NoneLost(v: State, looked: set<int>) {
    forall s | s in looked :: NotLost(v, s)
  }

  ghost predicate IsOver(x: Source) { x.sentEos || x.stopped }

  ghost predicate SourceOk(v: State, s: int) {
    v.At(s).Ok() && if v.pc.Init? then !v.At(s).sentEos else s in v.sources ==> v.At(s).registered
  }

  /** A source that is not running any more has ended its stream or was stopped. */
  ghost predicate OverUnlessRunning(v: State, s: int) {
    !v.pc.Init? && s in v.sources && s !in v.running ==> IsOver(v.At(s))
  }

  /** A running source that is not marked as completed has not ended its stream. */
  ghost predicate LiveUnlessCompleted(v: State, completed: set<int>, s: int) {
    s in v.running ==> s in v.sources && if s in completed then IsOver(v.At(s)) else !v.At(s).sentEos
  }

  ghost predicate Live(v: State, completed: set<int>) {
    completed <= v.running && forall s :: LiveUnlessCompleted(v, completed, s)
  }

  /** The executor is at `s` in the pass over the running sources that follows a yield. */
  ghost predicate WaitOk(v: State, s: int, todo: set<int>, completed: set<int>, ready: bool) {
    && s in v.running && s !in completed && s !in todo && todo <= v.running && todo !! completed
    && Live(v, completed) && (!ready ==> NoneLost(v, v.running - todo))
  }

  ghost predicate PcOk(v: State) {
    match v.pc
    case Init => v.running == {}
    case Pass(todo, completed) => todo <= v.running && todo !! completed && Live(v, completed)
    case PassHealth(s, todo, completed, empty) =>
      && s in v.running && s !in completed && s !in todo && todo <= v.running && todo !! completed && Live(v, completed)
    case Generating(s, todo, completed, calls) =>
      && s in v.running && s !in completed && s !in todo && todo <= v.running && todo !! completed &&
         completed <= v.running
      && (forall r | r != s :: LiveUnlessCompleted(v, completed, r)) && s in v.sources
    case Flush(completed) => Live(v, completed)
    case Scan(todo) => todo <= v.running && Live(v, {}) && NoneLost(v, v.running - todo)
    case Yielding => Live(v, {}) && NoneLost(v, v.running)
    case Blocked => Live(v, {}) && NoneLost(v, v.running)
    case WaitLook(todo, completed, ready) =>
      todo <= v.running && todo !! completed && Live(v, completed) && (!ready ==> NoneLost(v, v.running - todo))
    case WaitLooked(s, todo, completed, ready) => WaitOk(v, s, todo, completed, ready)
    case WaitHealth(s, todo, completed, ready, empty) => WaitOk(v, s, todo, completed, ready)
    case Done(ok) => ok ==> v.running == {}
  }

  ghost predicate Inv(v: State) {
    && (v.pc.Init? || v.restartSet)
    && (forall s :: SourceOk(v, s))
    && (forall s :: OverUnlessRunning(v, s))
    && PcOk(v)
  }

  // ---- Steps of result streams and registration ----

  /** A source as the executor sees it, apart from its queue. */
  ghost predicate SameOutcome(v: State, w: State, s: int) {
    && (s in v.sources <==> s in w.sources)
    && v.At(s).sentEos == w.At(s).sentEos && v.At(s).stopped == w.At(s).stopped
    && (v.At(s).registered ==> w.At(s).registered)
  }

  ghost predicate KeepsWakeup(v: State, w: State, s: int) {
    v.pc.Init? || (NotLost(v, s) ==> NotLost(w, s))
  }

  /** A step that leaves the executor where it is and the outcome of every source as it was. */
  lemma OutsideStep(v: State, w: State)
    requires Inv(v) && v.pc == w.pc && v.running == w.running && (v.restartSet ==> w.restartSet)
    requires forall s :: SameOutcome(v, w, s) && KeepsWakeup(v, w, s) && w.At(s).Ok()
    ensures Inv(w)
  {
    forall s ensures SourceOk(w, s) && OverUnlessRunning(w, s) {
      assert SourceOk(v, s) && OverUnlessRunning(v, s) && SameOutcome(v, w, s);
    }
    if !v.pc.Init? {
      forall s ensures NotLost(v, s) ==> NotLost(w, s) {
        assert KeepsWakeup(v, w, s);
      }
      OutsidePc(v, w);
    }
  }

  lemma LiveFrame(v: State, w: State, completed: set<int>, s: int)
    requires v.running == w.running && SameOutcome(v, w, s) && LiveUnlessCompleted(v, completed, s)
    ensures LiveUnlessCompleted(w, completed, s)
  {
  }

  lemma NoneLostFrame(v: State, w: State, looked: set<int>)
    requires NoneLost(v, looked) && forall s :: NotLost(v, s) ==> NotLost(w, s)
    ensures NoneLost(w, looked)
  {
    forall s | s in looked ensures NotLost(w, s) {
      assert NotLost(v, s);
    }
  }

  lemma OutsidePc(v: State, w: State)
    requires PcOk(v) && v.pc == w.pc && v.running == w.running && !v.pc.Init?
    requires forall s :: SameOutcome(v, w, s)
    requires forall s :: NotLost(v, s) ==> NotLost(w, s)
    ensures PcOk(w)
  {
    forall completed, s ensures LiveUnlessCompleted(v, completed, s) ==> LiveUnlessCompleted(w, completed, s) {
      if LiveUnlessCompleted(v, completed, s) {
        LiveFrame(v, w, completed, s);
      }
    }
    match v.pc
    case Generating(s, todo, completed, calls) => assert SameOutcome(v, w, s);
    case Scan(todo) => NoneLostFrame(v, w, v.running - todo);
    case Yielding => NoneLostFrame(v, w, v.running);
    case Blocked => NoneLostFrame(v, w, v.running);
    case WaitLook(todo, completed, ready) => if !ready { NoneLostFrame(v, w, v.running - todo); }
    case WaitLooked(s, todo, completed, ready) => if !ready { NoneLostFrame(v, w, v.running - todo); }
    case WaitHealth(s, todo, completed, ready, empty) => if !ready { NoneLostFrame(v, w, v.running - todo); }
    case _ =>
  }

  lemma PendingElsewhere(v: State, w: State, s: int, x: Source)
    requires w.sources == v.sources[s := x] && s in v.sources && v.At(s).producer == Reading
    ensures (exists r :: PendingAt(v, r)) ==> exists r :: PendingAt(w, r)
  {
    if r :| PendingAt(v, r) {
      assert PendingAt(w, r);
    }
  }

  lemma DeliverKeeps(v: State, s: int, batch: Batch)
    requires Inv(v) && Enabled(v, Deliver(s, batch))
    ensures Inv(Next(v, Deliver(s, batch)))
  {
    var w := Next(v, Deliver(s, batch));
    assert SourceOk(v, s);
    EnqueueOk(v.At(s), batch);
    if v.At(s).registered {
      assert PendingAt(w, s);
    } else {
      PendingElsewhere(v, w, s, w.At(s));
    }
    forall r ensures SameOutcome(v, w, r) && KeepsWakeup(v, w, r) && w.At(r).Ok() {
      assert SourceOk(v, r);
    }
    OutsideStep(v, w);
  }

  lemma RestartKeeps(v: State, s: int)
    requires Inv(v) && Enabled(v, Restart(s))
    ensures Inv(Next(v, Restart(s)))
  {
    var w := Next(v, Restart(s));
    assert SourceOk(v, s);
    if v.restartSet {
      assert PendingAt(w, s);
    }
    forall r ensures SameOutcome(v, w, r) && KeepsWakeup(v, w, r) && w.At(r).Ok() {
      assert SourceOk(v, r);
    }
    OutsideStep(v, w);
  }

  lemma ContinueKeeps(v: State, s: int)
    requires Inv(v) && Enabled(v, Continue(s))
    ensures Inv(Next(v, Continue(s)))
  {
    var w := Next(v, Continue(s));
    forall r ensures SameOutcome(v, w, r) && KeepsWakeup(v, w, r) && w.At(r).Ok() {
      assert SourceOk(v, r);
    }
    OutsideStep(v, w);
  }

  lemma CloseKeeps(v: State, s: int)
    requires Inv(v) && Enabled(v, CloseStream(s))
    ensures Inv(Next(v, CloseStream(s)))
  {
    var w := Next(v, CloseStream(s));
    assert SourceOk(v, s);
    CloseOk(v.At(s));
    PendingElsewhere(v, w, s, w.At(s));
    forall r ensures SameOutcome(v, w, r) && KeepsWakeup(v, w, r) && w.At(r).Ok() {
      assert SourceOk(v, r);
    }
    OutsideStep(v, w);
  }

  lemma AddSourceKeeps(v: State, s: int)
    requires Inv(v) && Enabled(v, AddSourceNode(s))
    ensures Inv(Next(v, AddSourceNode(s)))
  {
    var w := Next(v, AddSourceNode(s));
    assert SourceOk(v, s);
    RegisterOk(v.At(s));
    forall r ensures SameOutcome(v, w, r) && KeepsWakeup(v, w, r) && w.At(r).Ok() {
      assert SourceOk(v, r);
    }
    OutsideStep(v, w);
  }

  lemma StartKeeps(v: State)
    requires Inv(v) && Enabled(v, Start)
    ensures Inv(Next(v, Start))
  {
    var w := Next(v, Start);
    forall s ensures SourceOk(w, s) && OverUnlessRunning(w, s) && LiveUnlessCompleted(w, {}, s) {
      assert SourceOk(v, s);
    }
  }

  // ---- Steps of the executor ----

  /** What a send does to a source: the sender changes to `x`, and some sources are stopped. */
  ghost predicate Sent(v: State, w: State, s: int, x: Source, stop: set<int>, r: int) {
    && (r in v.sources <==> r in w.sources)
    && w.At(r) == (var y := if r == s then x else v.At(r); if r in v.sources && r in stop then y.Stop() else y)
  }

  lemma SendEffect(v: State, s: int, x: Source, stop: set<int>, pc: Pc)
    requires s in v.sources
    ensures forall r :: Sent(v, v.With(s, x).StopAll(stop).To(pc), s, x, stop, r)
  {
    forall r ensures Sent(v, v.With(s, x).StopAll(stop).To(pc), s, x, stop, r) {
    }
  }

  lemma SentOk(v: State, w: State, s: int, x: Source, stop: set<int>, r: int)
    requires Inv(v) && Executing(v.pc) && Executing(w.pc) && Sent(v, w, s, x, stop, r) && v.running == w.running
    requires s in v.sources && x.Ok() && x.registered && s in v.running
    ensures SourceOk(w, r) && OverUnlessRunning(w, r)
  {
    assert SourceOk(v, r) && OverUnlessRunning(v, r);
    StopOk(if r == s then x else v.At(r));
  }

  lemma SentKeepsWakeup(v: State, w: State, s: int, x: Source, stop: set<int>, r: int)
    requires forall q :: Sent(v, w, s, x, stop, q)
    requires v.continue_ == w.continue_ && x.producer == v.At(s).producer && NotLost(v, r)
    requires r == s ==> x.sentEos
    ensures NotLost(w, r)
  {
    assert Sent(v, w, s, x, stop, r);
    if q :| PendingAt(v, q) {
      assert Sent(v, w, s, x, stop, q);
      assert PendingAt(w, q);
    }
  }

  /** A source that is failed has ended its stream and counts as completed. */
  lemma EndedSource(v: State, w: State, s: int, x: Source, stop: set<int>, completed: set<int>)
    requires Inv(v) && Executing(v.pc) && Executing(w.pc) && v.running == w.running && Live(v, completed)
    requires s in v.running && s !in completed && x == v.At(s).SendEndOfStream()
    requires forall r :: Sent(v, w, s, x, stop, r)
    ensures Live(w, completed + {s}) && forall r :: SourceOk(w, r) && OverUnlessRunning(w, r)
  {
    assert LiveUnlessCompleted(v, completed, s) && SourceOk(v, s);
    SendOk(v.At(s));
    forall r ensures SourceOk(w, r) && OverUnlessRunning(w, r) && LiveUnlessCompleted(w, completed + {s}, r) {
      assert Sent(v, w, s, x, stop, r) && LiveUnlessCompleted(v, completed, r);
      SentOk(v, w, s, x, stop, r);
    }
  }

  lemma CheckFailsKeeps(v: State, deadline: bool, stop: set<int>)
    requires Inv(v) && Enabled(v, CheckFails(deadline, stop))
    ensures Inv(Next(v, CheckFails(deadline, stop)))
  {
    var w, s := Next(v, CheckFails(deadline, stop)), v.pc.source;
    var x := v.At(s).SendEndOfStream();
    assert LiveUnlessCompleted(v, v.pc.completed, s);
    SendEffect(v, s, x, stop, w.pc);
    EndedSource(v, w, s, x, stop, v.pc.completed);
  }

  lemma GenerateKeeps(v: State, stop: set<int>)
    requires Inv(v) && Enabled(v, Generate(stop))
    ensures Inv(Next(v, Generate(stop)))
  {
    var w, s := Next(v, Generate(stop)), v.pc.source;
    var x := v.At(s).GenerateNext();
    assert SourceOk(v, s);
    GenerateOk(v.At(s));
    SendEffect(v, s, x, stop, w.pc);
    forall r
      ensures SourceOk(w, r) && OverUnlessRunning(w, r) && (r != s ==> LiveUnlessCompleted(w, w.pc.completed, r))
    {
      assert Sent(v, w, s, x, stop, r) && (r != s ==> LiveUnlessCompleted(v, v.pc.completed, r));
      SentOk(v, w, s, x, stop, r);
    }
    assert Sent(v, w, s, x, stop, s);
  }

  lemma WaitCheckFailsKeeps(v: State, deadline: bool, stop: set<int>)
    requires Inv(v) && Enabled(v, WaitCheckFails(deadline, stop))
    ensures Inv(Next(v, WaitCheckFails(deadline, stop)))
  {
    var w, s := Next(v, WaitCheckFails(deadline, stop)), v.pc.source;
    var x := v.At(s).SendEndOfStream();
    assert LiveUnlessCompleted(v, v.pc.completed, s);
    SendEffect(v, s, x, stop, w.pc);
    EndedSource(v, w, s, x, stop, v.pc.completed);
    if !v.pc.ready {
      SentKeepsWakeups(v, w, s, x, stop, v.running - v.pc.todo);
    }
  }

  lemma SentKeepsWakeups(v: State, w: State, s: int, x: Source, stop: set<int>, looked: set<int>)
    requires (forall q :: Sent(v, w, s, x, stop, q)) && v.continue_ == w.continue_
    requires x.producer == v.At(s).producer && x.sentEos && NoneLost(v, looked)
    ensures NoneLost(w, looked)
  {
    forall r | r in looked ensures NotLost(w, r) {
      assert NotLost(v, r);
      SentKeepsWakeup(v, w, s, x, stop, r);
    }
  }

  /** A step that only moves the executor and takes completed sources out of the running ones. */
  lemma MoveStep(v: State, w: State)
    requires Inv(v) && w.sources == v.sources && (v.restartSet ==> w.restartSet) && Executing(v.pc) && !w.pc.Init?
    requires w.running <= v.running && forall s | s in v.running && s !in w.running :: IsOver(v.At(s))
    requires PcOk(w)
    ensures Inv(w)
  {
    forall s ensures SourceOk(w, s) && OverUnlessRunning(w, s) {
      assert SourceOk(v, s) && OverUnlessRunning(v, s);
    }
  }

  lemma PassSteps(v: State, step: Step)
    requires Inv(v) && Enabled(v, step) && (step.ReadQueue? || step.CheckPasses? || step.EndCalls? || step.EndPass?)
    ensures Inv(Next(v, step))
  {
    var w := Next(v, step);
    match step
    case ReadQueue(s) =>
      SameLive(v, w, v.pc.completed);
      MoveStep(v, w);
    case CheckPasses(calls) =>
      assert LiveUnlessCompleted(v, v.pc.completed, v.pc.source);
      forall r | r != v.pc.source ensures LiveUnlessCompleted(w, w.pc.completed, r) {
        assert LiveUnlessCompleted(v, v.pc.completed, r);
      }
      MoveStep(v, w);
    case EndCalls =>
      forall r ensures LiveUnlessCompleted(w, w.pc.completed, r) {
        assert r != v.pc.source ==> LiveUnlessCompleted(v, v.pc.completed, r);
      }
      MoveStep(v, w);
    case EndPass =>
      forall r ensures LiveUnlessCompleted(w, w.pc.completed, r) {
        assert LiveUnlessCompleted(v, v.pc.completed, r);
      }
      MoveStep(v, w);
  }

  /** Taking the completed sources out leaves running sources that have not ended. */
  lemma Drop(v: State, completed: set<int>, w: State)
    requires Live(v, completed) && w.sources == v.sources && w.running == v.running - completed
    ensures Live(w, {})
    ensures forall s | s in v.running && s !in w.running :: IsOver(v.At(s))
  {
    forall s ensures LiveUnlessCompleted(w, {}, s) {
      assert LiveUnlessCompleted(v, completed, s);
    }
    forall s | s in v.running && s !in w.running ensures IsOver(v.At(s)) {
      assert LiveUnlessCompleted(v, completed, s);
    }
  }

  lemma FlushKeeps(v: State)
    requires Inv(v) && Enabled(v, FlushCompleted)
    ensures Inv(Next(v, FlushCompleted))
  {
    var w := Next(v, FlushCompleted);
    Drop(v, v.pc.completed, w);
    MoveStep(v, w);
  }

  /** Nothing about wakeups changes while `continue_` and the sources stay. */
  lemma SameWakeup(v: State, w: State, s: int)
    requires v.sources == w.sources && v.continue_ == w.continue_ && NotLost(v, s)
    ensures NotLost(w, s)
  {
    if q :| PendingAt(v, q) {
      assert PendingAt(w, q);
    }
  }

  lemma SameLive(v: State, w: State, completed: set<int>)
    requires v.sources == w.sources && v.running == w.running && Live(v, completed)
    ensures Live(w, completed)
  {
    forall s ensures LiveUnlessCompleted(w, completed, s) {
      assert LiveUnlessCompleted(v, completed, s);
    }
  }

  lemma ScanSteps(v: State, step: Step)
    requires Inv(v) && Enabled(v, step) && (step.LookReady? || step.LookEmpty? || step.EndScan?)
    ensures Inv(Next(v, step))
  {
    var w := Next(v, step);
    SameLive(v, w, {});
    if !step.LookReady? {
      var looked := if step.LookEmpty? then w.running - w.pc.todo else w.running;
      forall r | r in looked ensures NotLost(w, r) {
        if step.EndScan? || r != step.s {
          assert NotLost(v, r);
          SameWakeup(v, w, r);
        }
      }
    }
    MoveStep(v, w);
  }

  lemma YieldSteps(v: State, step: Step)
    requires Inv(v) && Enabled(v, step) && (step.Yield? || step.Wake? || step.Timeout?)
    ensures Inv(Next(v, step))
  {
    var w := Next(v, step);
    SameLive(v, w, {});
    if w.pc.Blocked? {
      forall r | r in w.running ensures NotLost(w, r) {
        assert NotLost(v, r);
        SameWakeup(v, w, r);
      }
    }
    MoveStep(v, w);
  }

  lemma WaitSteps(v: State, step: Step)
    requires Inv(v) && Enabled(v, step) && (step.LookAgain? || step.WaitReadQueue? || step.WaitCheckPasses?)
    ensures Inv(Next(v, step))
  {
    var w := Next(v, step);
    SameLive(v, w, v.pc.completed);
    if !w.pc.ready {
      forall r | r in w.running - w.pc.todo ensures NotLost(w, r) {
        if !step.LookAgain? || r != step.s {
          assert NotLost(v, r);
          SameWakeup(v, w, r);
        }
      }
    }
    MoveStep(v, w);
  }

  lemma EndWaitKeeps(v: State)
    requires Inv(v) && Enabled(v, EndWait)
    ensures Inv(Next(v, EndWait))
  {
    var w := Next(v, EndWait);
    Drop(v, v.pc.completed, w);
    if !v.pc.ready {
      forall r | r in w.running ensures NotLost(w, r) {
        assert NotLost(v, r);
        SameWakeup(v, w, r);
      }
    }
    MoveStep(v, w);
  }

  predicate IsOutside(step: Step) {
    step.Deliver? || step.Restart? || step.Continue? || step.CloseStream? || step.SetRestartExecution? ||
      step.AddSourceNode? || step.Start?
  }

  lemma OutsideKeepsInv(v: State, step: Step)
    requires Inv(v) && Enabled(v, step) && IsOutside(step)
    ensures Inv(Next(v, step))
  {
    match step
    case Deliver(s, batch) => DeliverKeeps(v, s, batch);
    case Restart(s) => RestartKeeps(v, s);
    case Continue(s) => ContinueKeeps(v, s);
    case CloseStream(s) => CloseKeeps(v, s);
    case SetRestartExecution => SetRestartKeeps(v);
    case AddSourceNode(s) => AddSourceKeeps(v, s);
    case Start => StartKeeps(v);
  }

  predicate IsScheduling(step: Step) {
    step.ReadQueue? || step.CheckFails? || step.CheckPasses? || step.Generate? || step.EndCalls? || step.EndPass? ||
      step.FlushCompleted?
  }

  lemma SchedulingKeepsInv(v: State, step: Step)
    requires Inv(v) && Enabled(v, step) && IsScheduling(step)
    ensures Inv(Next(v, step))
  {
    if step.CheckFails? {
      CheckFailsKeeps(v, step.deadline, step.stop);
    } else if step.Generate? {
      GenerateKeeps(v, step.stop);
    } else if step.FlushCompleted? {
      FlushKeeps(v);
    } else {
      PassSteps(v, step);
    }
  }

  lemma WaitingKeepsInv(v: State, step: Step)
    requires Inv(v) && Enabled(v, step) && !IsOutside(step) && !IsScheduling(step)
    ensures Inv(Next(v, step))
  {
    if step.WaitCheckFails? {
      WaitCheckFailsKeeps(v, step.deadline, step.stop);
    } else if step.EndWait? {
      EndWaitKeeps(v);
    } else if step.Fail? {
      MoveStep(v, Next(v, step));
    } else if step.LookAgain? || step.WaitReadQueue? || step.WaitCheckPasses? {
      WaitSteps(v, step);
    } else if step.Yield? || step.Wake? || step.Timeout? {
      YieldSteps(v, step);
    } else {
      ScanSteps(v, step);
    }
  }

  /** Every step of every thread keeps the invariant. */
  lemma StepKeepsInv(v: State, step: Step)
    requires Inv(v) && Enabled(v, step)
    ensures Inv(Next(v, step))
  {
    if IsOutside(step) {
      OutsideKeepsInv(v, step);
    } else if IsScheduling(step) {
      SchedulingKeepsInv(v, step);
    } else {
      WaitingKeepsInv(v, step);
    }
  }

  lemma SetRestartKeeps(v: State)
    requires Inv(v) && Enabled(v, SetRestartExecution)
    ensures Inv(Next(v, SetRestartExecution))
  {
    var w := Next(v, SetRestartExecution);
    forall s ensures SourceOk(w, s) && OverUnlessRunning(w, s) {
      assert SourceOk(v, s);
    }
  }

  // ---- Whole runs ----

  /** A query with the given sources before anything happened. */
  function Initial(ids: set<int>): State {
    State(map s | s in ids :: Fresh, false, false, Init, {})
  }

  /** The steps can be taken one after the other. */
  ghost predicate IsRun(v: State, steps: seq<Step>)
    decreases |steps|
  {
    steps == [] || (Enabled(v, steps[0]) && IsRun(Next(v, steps[0]), steps[1..]))
  }

  ghost function After(v: State, steps: seq<Step>): State
    requires IsRun(v, steps)
    decreases |steps|
  {
    if steps == [] then v else After(Next(v, steps[0]), steps[1..])
  }

  lemma RunCons(v: State, a: Step, rest: seq<Step>)
    requires Enabled(v, a) && IsRun(Next(v, a), rest)
    ensures IsRun(v, [a] + rest) && After(v, [a] + rest) == After(Next(v, a), rest)
  {
    assert ([a] + rest)[1..] == rest;
  }

  lemma {:induction false} RunSnoc(v: State, steps: seq<Step>)
    requires IsRun(v, steps) && steps != []
    ensures var n := |steps| - 1;
            && IsRun(v, steps[..n]) && Enabled(After(v, steps[..n]), steps[n])
            && After(v, steps) == Next(After(v, steps[..n]), steps[n])
    decreases |steps|
  {
    var n := |steps| - 1;
    if n > 0 {
      RunSnoc(Next(v, steps[0]), steps[1..]);
      assert steps[1..][..n - 1] == steps[..n][1..];
    } else {
      assert steps[1..] == [] && steps[..n] == [];
    }
  }

  lemma {:induction false} RunKeepsInv(v: State, steps: seq<Step>)
    requires Inv(v) && IsRun(v, steps)
    ensures Inv(After(v, steps))
    decreases |steps|
  {
    if steps != [] {
      StepKeepsInv(v, steps[0]);
      RunKeepsInv(Next(v, steps[0]), steps[1..]);
    }
  }

  lemma RunInv(ids: set<int>, steps: seq<Step>)
    requires IsRun(Initial(ids), steps)
    ensures Inv(After(Initial(ids), steps))
  {
    FreshOk();
    assert Inv(Initial(ids));
    RunKeepsInv(Initial(ids), steps);
  }

  /** In every run, the batches handed to a source node followed by the backlog are the batches accepted, in order. */
  lemma Conservation(ids: set<int>, steps: seq<Step>, s: int)
    requires IsRun(Initial(ids), steps)
    ensures var x := After(Initial(ids), steps).At(s); x.popped + x.queue + x.backlog == x.accepted
  {
    RunInv(ids, steps);
    assert SourceOk(After(Initial(ids), steps), s);
  }

  // ---- The health check ----

  /** A step of a result stream. */
  predicate IsStream(step: Step) { step.Deliver? || step.Restart? || step.Continue? || step.CloseStream? }

  /** The first half of a health check. */
  predicate IsRead(step: Step) { step.ReadQueue? || step.WaitReadQueue? }

  predicate DeliversEos(step: Step, s: int) { step.Deliver? && step.s == s && step.batch.eos }

  /** An end of stream of `s` was delivered after the last read of a queue. */
  ghost predicate EosSinceRead(steps: seq<Step>, s: int) {
    exists i :: 0 <= i < |steps| && DeliversEos(steps[i], s) && forall j | i < j < |steps| :: !IsRead(steps[j])
  }

  lemma EosSinceReadSnoc(steps: seq<Step>, step: Step, s: int)
    ensures EosSinceRead(steps + [step], s) <==> !IsRead(step) && (EosSinceRead(steps, s) || DeliversEos(step, s))
  {
    var all := steps + [step];
    if EosSinceRead(all, s) {
      var i :| 0 <= i < |all| && DeliversEos(all[i], s) && forall j | i < j < |all| :: !IsRead(all[j]);
      assert !IsRead(all[|steps|]);
      if i < |steps| {
        assert DeliversEos(steps[i], s) && forall j | i < j < |steps| :: !IsRead(steps[j]) by {
          forall j | i < j < |steps| ensures !IsRead(steps[j]) {
            assert !IsRead(all[j]);
          }
        }
      }
    }
    if !IsRead(step) && EosSinceRead(steps, s) {
      var i :| 0 <= i < |steps| && DeliversEos(steps[i], s) && forall j | i < j < |steps| :: !IsRead(steps[j]);
      assert DeliversEos(all[i], s);
    }
    if DeliversEos(step, s) {
      assert DeliversEos(all[|steps|], s);
    }
  }

  /**
   While a check that found no batch is under way, the queue holds an end of stream exactly if one was `seen`
   arriving.
   */
  ghost predicate QueueKnown(v: State, s: int, seen: bool) {
    Checking(v.pc) && v.pc.source == s && v.pc.empty ==> (HasEos(v.At(s).queue) <==> seen)
  }

  lemma StreamKeepsQueueKnown(v: State, step: Step, s: int, seen: bool)
    requires Inv(v) && Enabled(v, step) && IsStream(step) && QueueKnown(v, s, seen)
    ensures QueueKnown(Next(v, step), s, seen || DeliversEos(step, s))
  {
    if Checking(v.pc) && step.Deliver? && step.s == s {
      assert SourceOk(v, s);
      EosAppend(v.At(s).queue, step.batch);
    }
  }

  lemma ReadKnowsQueue(v: State, step: Step, s: int)
    requires Inv(v) && Enabled(v, step) && IsRead(step)
    ensures QueueKnown(Next(v, step), s, false)
  {
    if Next(v, step).pc.source == s {
      assert LiveUnlessCompleted(v, v.pc.completed, s);
    }
  }

  lemma NotChecking(v: State, step: Step)
    requires Enabled(v, step) && !IsStream(step) && !IsRead(step)
    ensures !Checking(Next(v, step).pc)
  {
  }

  lemma StepKeepsQueueKnown(v: State, step: Step, s: int, seen: bool)
    requires Inv(v) && Enabled(v, step) && QueueKnown(v, s, seen)
    ensures QueueKnown(Next(v, step), s, !IsRead(step) && (seen || DeliversEos(step, s)))
  {
    if IsStream(step) {
      StreamKeepsQueueKnown(v, step, s, seen);
    } else if IsRead(step) {
      ReadKnowsQueue(v, step, s);
    } else {
      NotChecking(v, step);
    }
  }

  lemma {:induction false} RunKeepsQueueKnown(ids: set<int>, steps: seq<Step>, s: int)
    requires IsRun(Initial(ids), steps)
    ensures QueueKnown(After(Initial(ids), steps), s, EosSinceRead(steps, s))
    decreases |steps|
  {
    if steps != [] {
      var n := |steps| - 1;
      RunSnoc(Initial(ids), steps);
      RunKeepsQueueKnown(ids, steps[..n], s);
      RunInv(ids, steps[..n]);
      StepKeepsQueueKnown(After(Initial(ids), steps[..n]), steps[n], s, EosSinceRead(steps[..n], s));
      EosSinceReadSnoc(steps[..n], steps[n], s);
      assert steps == steps[..n] + [steps[n]];
    }
  }

  /**
   In every run, a health check that fails had the end of stream of its source accepted if and only if it found the
   connection closed and that end of stream was delivered after it had read the queue.
   */
  lemma FailedAfterEos(ids: set<int>, steps: seq<Step>, deadline: bool)
    requires IsRun(Initial(ids), steps) && Unhealthy(After(Initial(ids), steps), deadline)
    ensures var v := After(Initial(ids), steps);
            HasEos(v.At(v.pc.source).accepted) <==> FindsClosed(v) && EosSinceRead(steps, v.pc.source)
  {
    RunInv(ids, steps);
    var v := After(Initial(ids), steps);
    var x := v.At(v.pc.source);
    assert SourceOk(v, v.pc.source) && LiveUnlessCompleted(v, v.pc.completed, v.pc.source);
    if FindsClosed(v) {
      RunKeepsQueueKnown(ids, steps, v.pc.source);
      assert x.accepted == x.popped + x.queue;
      EosSplit(x.popped, x.queue);
    }
  }

  /** A check found the queue empty while the stream is open and between two messages. */
  ghost predicate OpenCheck(v: State) {
    Checking(v.pc) && v.pc.empty && v.pc.source in v.sources && v.At(v.pc.source).producer == Reading
  }

  /** A batch arrives and its handler wakes the executor. */
  ghost function Delivered(v: State, s: int, b: Batch): State {
    v.(sources := v.sources[s := v.At(s).Enqueue(b).(producer := Reading)], continue_ := true)
  }

  lemma DeliverySteps(v: State, s: int, b: Batch, rest: seq<Step>)
    requires v.restartSet && s in v.sources && v.At(s).producer == Reading && v.At(s).registered
    requires IsRun(Delivered(v, s, b), rest)
    ensures var steps := [Deliver(s, b)] + ([Restart(s)] + ([Continue(s)] + rest));
            IsRun(v, steps) && After(v, steps) == After(Delivered(v, s, b), rest)
  {
    var delivered := Next(v, Deliver(s, b));
    var restarted := Next(delivered, Restart(s));
    assert Next(restarted, Continue(s)) == Delivered(v, s, b);
    RunCons(restarted, Continue(s), rest);
    RunCons(delivered, Restart(s), [Continue(s)] + rest);
    RunCons(v, Deliver(s, b), [Restart(s)] + ([Continue(s)] + rest));
  }

  /**
   From every such state an end of stream and a close can come before the second read and fail the complete source.
   */
  lemma HealthCheckRace(v: State, b: Batch) returns (steps: seq<Step>)
    requires Inv(v) && OpenCheck(v) && b.eos
    ensures IsRun(v, steps) && After(v, steps).pc == v.pc && FindsClosed(After(v, steps))
    ensures HasEos(After(v, steps).At(v.pc.source).accepted)
  {
    var s := v.pc.source;
    assert SourceOk(v, s) && LiveUnlessCompleted(v, v.pc.completed, s);
    var open := Delivered(v, s, b);
    EosAppend(v.At(s).accepted, b);
    RunCons(open, CloseStream(s), []);
    DeliverySteps(v, s, b, [CloseStream(s)] + []);
    steps := [Deliver(s, b)] + ([Restart(s)] + ([Continue(s)] + ([CloseStream(s)] + [])));
  }

  /** Such a state is reached by the first check of a query whose source has not received anything. */
  lemma OpenCheckReached() returns (steps: seq<Step>)
    ensures IsRun(Initial({0}), steps) && OpenCheck(After(Initial({0}), steps))
  {
    var created := Initial({0});
    var prepared := Next(created, SetRestartExecution);
    var added := State(map[0 := Fresh.Register()], true, false, Init, {});
    assert prepared.At(0) == Fresh && Next(prepared, AddSourceNode(0)) == added;
    var started := State(added.sources, true, false, Pass({0}, {}), {0});
    assert added.sources.Keys == {0} && Next(added, Start) == started;
    RunCons(started, ReadQueue(0), []);
    steps := [ReadQueue(0)] + [];
    RunCons(added, Start, steps);
    steps := [Start] + steps;
    RunCons(prepared, AddSourceNode(0), steps);
    steps := [AddSourceNode(0)] + steps;
    RunCons(created, SetRestartExecution, steps);
    steps := [SetRestartExecution] + steps;
  }

  // ---- Wakeups ----

  /** A running source has data while the executor yields. */
  ghost predicate DataWaits(v: State, s: int) {
    (v.pc.Yielding? || v.pc.Blocked?) && s in v.running && v.At(s).queue != []
  }

  lemma WaitingData(v: State, s: int)
    requires Inv(v) && DataWaits(v, s)
    ensures WakeupComing(v)
  {
    assert LiveUnlessCompleted(v, {}, s) && NotLost(v, s);
  }

  /** In every run, data for a running source never waits on an executor that yields without a wakeup coming. */
  lemma NoLostWakeup(ids: set<int>, steps: seq<Step>, s: int)
    requires IsRun(Initial(ids), steps) && DataWaits(After(Initial(ids), steps), s)
    ensures WakeupComing(After(Initial(ids), steps))
  {
    RunInv(ids, steps);
    WaitingData(After(Initial(ids), steps), s);
  }

  /** How many steps the stream of `s` takes. */
  function StepsOf(steps: seq<Step>, s: int): nat {
    if steps == [] then 0 else (if IsStream(steps[0]) && steps[0].s == s then 1 else 0) + StepsOf(steps[1..], s)
  }

  /** The steps that the handler of `s` still has to take until the executor can wake. */
  function Due(v: State, s: int): nat {
    if v.continue_ then 0 else if v.At(s).producer == PendingRestart then 2 else 1
  }

  lemma {:induction false} DueSteps(v: State, steps: seq<Step>, s: int)
    requires Inv(v) && v.pc.Blocked? && (v.continue_ || PendingAt(v, s))
    requires IsRun(v, steps) && (forall i | 0 <= i < |steps| :: IsStream(steps[i])) && StepsOf(steps, s) >= Due(v, s)
    ensures Enabled(After(v, steps), Wake)
    decreases |steps|
  {
    if steps != [] {
      assert IsStream(steps[0]);
      StepKeepsInv(v, steps[0]);
      DueSteps(Next(v, steps[0]), steps[1..], s);
    }
  }

  /**
   From a blocked executor with a wakeup coming from `s`, every run of the streams in which that handler takes two more
   steps lets the executor wake, whatever the other streams do.
   */
  lemma WakeupArrives(v: State, steps: seq<Step>, s: int)
    requires Inv(v) && v.pc.Blocked? && PendingAt(v, s)
    requires IsRun(v, steps) && (forall i | 0 <= i < |steps| :: IsStream(steps[i])) && StepsOf(steps, s) >= 2
    ensures Enabled(After(v, steps), Wake)
  {
    DueSteps(v, steps, s);
  }

  /** Nothing blocks those steps: the executor can be woken at once, or after the pending handler's remaining steps. */
  lemma WakeupPossible(v: State) returns (steps: seq<Step>)
    requires Inv(v) && v.pc.Blocked? && WakeupComing(v)
    ensures IsRun(v, steps) && |steps| <= 3 && After(v, steps).pc == WaitLook(v.running, {}, false)
    ensures forall i | 0 <= i < |steps| :: steps[i].Restart? || steps[i].Continue? || steps[i].Wake?
  {
    if v.continue_ {
      steps := [Wake] + [];
      RunCons(v, Wake, []);
    } else {
      var s :| PendingAt(v, s);
      var u := if v.At(s).producer == PendingRestart then Next(v, Restart(s)) else v;
      steps := [Continue(s)] + ([Wake] + []);
      RunCons(Next(u, Continue(s)), Wake, []);
      RunCons(u, Continue(s), [Wake] + []);
      if v.At(s).producer == PendingRestart {
        RunCons(v, Restart(s), steps);
        steps := [Restart(s)] + steps;
      }
    }
  }

  // ---- Ends of streams ----

  /**
   In every run: no source sends two ends of stream or generates after its end or after it was stopped; at the head
   of the loop no running source has ended; and when the query returns successfully every source has ended or was
   stopped.
   */
  lemma EosDiscipline(ids: set<int>, steps: seq<Step>, s: int)
    requires IsRun(Initial(ids), steps)
    ensures var log := After(Initial(ids), steps).At(s).log; forall i, j | 0 <= i < j < |log| :: Orderly(log, i, j)
    ensures var v := After(Initial(ids), steps);
            v.pc == Pass(v.running, {}) && s in v.running ==> !EndsStream(v.At(s).log)
    ensures var v := After(Initial(ids), steps);
            v.pc == Done(true) && s in v.sources ==> EndsStream(v.At(s).log) || Stopped in v.At(s).log
  {
    RunInv(ids, steps);
    var v := After(Initial(ids), steps);
    assert SourceOk(v, s) && OverUnlessRunning(v, s);
    if v.pc == Pass(v.running, {}) {
      assert LiveUnlessCompleted(v, {}, s);
    }
  }
}
