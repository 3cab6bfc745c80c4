/**
 Progress of the streaming protocol: how the calls for a source end, that the executor is never stuck, that a queued
 batch can always be handed to its source, and that a query whose streams have ended can return.
 */
module StreamingProgress {
  import opened SourceTracking
  import opened Streaming

  // ---- How the calls for a source end ----

  /** The number of calls chosen for the source that was visited last. */
  function Chosen(steps: seq<Step>): nat {
    if steps == [] then 0
    else match steps[|steps| - 1]
         case CheckPasses(calls) => calls
         case _ => Chosen(steps[..|steps| - 1])
  }

  /** The number of batches generated since then. */
  function GeneratedSince(steps: seq<Step>): nat {
    if steps == [] then 0
    else match steps[|steps| - 1]
         case CheckPasses(_) => 0
         case Generate(_) => GeneratedSince(steps[..|steps| - 1]) + 1
         case _ => GeneratedSince(steps[..|steps| - 1])
  }

  ghost predicate Counted(v: State, steps: seq<Step>) {
    v.pc.Generating? ==> v.pc.calls + GeneratedSince(steps) == Chosen(steps)
  }

  lemma StepCounted(v: State, steps: seq<Step>, step: Step)
    requires Counted(v, steps) && Enabled(v, step)
    ensures Counted(Next(v, step), steps + [step])
  {
    assert (steps + [step])[..|steps|] == steps;
  }

  lemma {:induction false} RunCounted(ids: set<int>, steps: seq<Step>)
    requires IsRun(Initial(ids), steps)
    ensures Counted(After(Initial(ids), steps), steps)
    decreases |steps|
  {
    if steps != [] {
      var n := |steps| - 1;
      RunSnoc(Initial(ids), steps);
      RunCounted(ids, steps[..n]);
      StepCounted(After(Initial(ids), steps[..n]), steps[..n], steps[n]);
      assert steps == steps[..n] + [steps[n]];
    }
  }

  /**
   In every run, the calls for a source go on exactly as long as fewer batches than chosen were generated, its queue
   holds a batch, and it has neither ended nor been stopped.
   */
  lemma CallsEnd(ids: set<int>, steps: seq<Step>, stop: set<int>)
    requires IsRun(Initial(ids), steps) && After(Initial(ids), steps).pc.Generating?
    ensures var v := After(Initial(ids), steps);
            var x := v.At(v.pc.source);
            && (Enabled(v, EndCalls) <==>
                GeneratedSince(steps) >= Chosen(steps) || x.queue == [] || x.sentEos || x.stopped)
            && (Enabled(v, Generate(stop)) <==>
                GeneratedSince(steps) < Chosen(steps) && x.queue != [] && !x.sentEos && !x.stopped)
  {
    RunCounted(ids, steps);
  }

  // ---- The executor is never stuck ----

  /** A step of the executor, with `c` calls per source, that is neither a failure nor a timeout and stops no source. */
  predicate IsExecutor(step: Step, c: nat) {
    match step
    case CheckFails(deadline, stop) => !deadline && stop == {}
    case WaitCheckFails(deadline, stop) => !deadline && stop == {}
    case Generate(stop) => stop == {}
    case CheckPasses(calls) => calls == c
    case _ => !IsOutside(step) && !step.Fail? && !step.Timeout?
  }

  /** A step of the executor, or of a handler that wakes it. */
  predicate IsQuiet(step: Step, c: nat) { IsExecutor(step, c) || step.Restart? || step.Continue? }

  ghost predicate AllQuiet(steps: seq<Step>, c: nat) { forall i | 0 <= i < |steps| :: IsQuiet(steps[i], c) }

  /** One of the sources to visit, `s` if it is among them. */
  ghost function Pick(todo: set<int>, s: int): int {
    if s !in todo && exists r :: r in todo then var r :| r in todo; r else s
  }

  lemma PickIn(todo: set<int>, s: int)
    ensures todo != {} ==> Pick(todo, s) in todo
  {
    if forall r :: r !in todo {
      assert todo == {};
    }
  }

  /** What lets a blocked executor go on. */
  ghost function Waker(v: State): Step {
    if v.continue_ then Wake
    else if q :| q in v.sources && v.At(q).producer == PendingContinue then Continue(q)
    else if q :| q in v.sources && v.At(q).producer == PendingRestart then Restart(q)
    else Wake
  }

  /** A schedule that serves `s`. */
  ghost function Choose(v: State, s: int, c: nat): Step {
    match v.pc
    case Pass(todo, _) => if todo == {} then EndPass else ReadQueue(Pick(todo, s))
    case PassHealth(_, _, _, _) => if FindsClosed(v) then CheckFails(false, {}) else CheckPasses(c)
    case Generating(_, _, _, _) => if Enabled(v, Generate({})) then Generate({}) else EndCalls
    case Flush(_) => FlushCompleted
    case Scan(todo) =>
      if todo == {} then EndScan
      else if v.At(Pick(todo, s)).NextBatchReady() then LookReady(Pick(todo, s)) else LookEmpty(Pick(todo, s))
    case Yielding => Yield
    case Blocked => Waker(v)
    case WaitLook(todo, _, _) => if todo == {} then EndWait else LookAgain(Pick(todo, s))
    case WaitLooked(_, _, _, _) => WaitReadQueue
    case WaitHealth(_, _, _, _, _) => if FindsClosed(v) then WaitCheckFails(false, {}) else WaitCheckPasses
    case _ => Fail
  }

  lemma ChooseEnabled(v: State, s: int, c: nat)
    requires Executing(v.pc) && (v.pc.Blocked? ==> WakeupComing(v))
    ensures Enabled(v, Choose(v, s, c)) && IsQuiet(Choose(v, s, c), c)
    ensures !v.pc.Blocked? ==> IsExecutor(Choose(v, s, c), c)
  {
    if v.pc.Blocked? && !v.continue_ {
      var q :| PendingAt(v, q);
    } else if v.pc.Pass? || v.pc.Scan? || v.pc.WaitLook? {
      PickIn(v.pc.todo, s);
    }
  }

  /** In every run, an executor that is not blocked can take a step of its own that is not a failure. */
  lemma NeverStuck(ids: set<int>, steps: seq<Step>, c: nat) returns (step: Step)
    requires IsRun(Initial(ids), steps) && Executing(After(Initial(ids), steps).pc)
    requires !After(Initial(ids), steps).pc.Blocked?
    ensures Enabled(After(Initial(ids), steps), step) && IsExecutor(step, c)
  {
    step := Choose(After(Initial(ids), steps), 0, c);
    ChooseEnabled(After(Initial(ids), steps), 0, c);
  }

  // ---- A queued batch can be handed to its source ----

  /** The check under way has already found `s` closed too early. */
  ghost predicate Doomed(v: State, s: int) {
    FindsClosed(v) && v.pc.source == s
  }

  /** A running source that has not ended has a batch. */
  ghost predicate Waits(v: State, s: int) {
    && Executing(v.pc) && s in v.running && s in v.sources && !Doomed(v, s)
    && v.At(s).queue != [] && !v.At(s).sentEos
  }

  /** The executor is about to generate the front batch of `s`. */
  ghost predicate AboutToPop(v: State, s: int) {
    v.pc.Generating? && v.pc.source == s && v.pc.calls > 0 && !v.At(s).stopped
  }

  /** The front batch was handed to the source. */
  ghost predicate Popped(x: Source, y: Source) {
    && x.queue != [] && y.popped == x.popped + [x.queue[0]] && y.queue == x.queue[1..]
    && y.sentEos == (x.sentEos || x.queue[0].eos) && y.stopped == x.stopped
  }

  ghost predicate Same(x: Source, y: Source) {
    x.queue == y.queue && x.popped == y.popped && x.sentEos == y.sentEos && x.stopped == y.stopped
  }

  lemma SendElsewhere(v: State, s: int, r: int, x: Source, pc: Pc)
    requires r != s
    ensures v.With(r, x).StopAll({}).To(pc).At(s) == v.At(s)
  {
  }

  lemma SendHere(v: State, s: int, x: Source, pc: Pc)
    ensures v.With(s, x).StopAll({}).To(pc).At(s) == x
  {
  }

  lemma CheckEffect(v: State, s: int, c: nat)
    requires Waits(v, s) && Enabled(v, Choose(v, s, c)) && Checking(v.pc)
    ensures Same(v.At(s), Next(v, Choose(v, s, c)).At(s))
  {
    if FindsClosed(v) {
      var r := v.pc.source;
      SendElsewhere(v, s, r, v.At(r).SendEndOfStream(), Next(v, Choose(v, s, c)).pc);
    }
  }

  lemma GenerateEffect(v: State, s: int, c: nat)
    requires Waits(v, s) && Enabled(v, Choose(v, s, c)) && v.pc.Generating?
    ensures var w := Next(v, Choose(v, s, c));
            if AboutToPop(v, s) then w.pc.Generating? && Popped(v.At(s), w.At(s)) else Same(v.At(s), w.At(s))
  {
    var r := v.pc.source;
    if Enabled(v, Generate({})) {
      var x, pc := v.At(r).GenerateNext(), v.pc.(calls := v.pc.calls - 1);
      if r == s {
        SendHere(v, s, x, pc);
      } else {
        SendElsewhere(v, s, r, x, pc);
      }
    }
  }

  lemma BlockedEffect(v: State, s: int, c: nat)
    requires Enabled(v, Choose(v, s, c)) && v.pc.Blocked?
    ensures Same(v.At(s), Next(v, Choose(v, s, c)).At(s))
  {
  }

  /** The other steps leave all sources as they are. */
  lemma MoveEffect(v: State, s: int, c: nat)
    requires Executing(v.pc) && Enabled(v, Choose(v, s, c))
    requires !v.pc.Blocked? && !v.pc.Generating? && !Checking(v.pc)
    ensures Next(v, Choose(v, s, c)).sources == v.sources
  {
  }

  lemma ChooseEffect(v: State, s: int, c: nat)
    requires Waits(v, s) && Enabled(v, Choose(v, s, c))
    ensures var w := Next(v, Choose(v, s, c));
            if AboutToPop(v, s) then w.pc.Generating? && Popped(v.At(s), w.At(s)) else Same(v.At(s), w.At(s))
  {
    if Checking(v.pc) {
      CheckEffect(v, s, c);
    } else if v.pc.Generating? {
      GenerateEffect(v, s, c);
    } else if v.pc.Blocked? {
      BlockedEffect(v, s, c);
    } else {
      MoveEffect(v, s, c);
    }
  }

  lemma StillWaits(v: State, s: int, c: nat)
    requires Waits(v, s) && Enabled(v, Choose(v, s, c)) && Same(v.At(s), Next(v, Choose(v, s, c)).At(s))
    requires Inv(Next(v, Choose(v, s, c))) && s in Next(v, Choose(v, s, c)).running
    ensures Waits(Next(v, Choose(v, s, c)), s)
  {
    var w := Next(v, Choose(v, s, c));
    assert Executing(w.pc);
    RunningIsSource(w, s);
  }

  lemma StaysRunning(v: State, s: int)
    requires Inv(v) && Executing(v.pc) && s in v.sources && !v.At(s).sentEos && !v.At(s).stopped
    ensures s in v.running
  {
    assert OverUnlessRunning(v, s);
  }

  /** A source that is neither over nor stopped goes on running, so the executor does not return. */
  lemma ChooseKeepsRunning(v: State, s: int, c: nat)
    requires Inv(v) && Waits(v, s) && !v.At(s).stopped && Enabled(v, Choose(v, s, c))
    requires Same(v.At(s), Next(v, Choose(v, s, c)).At(s))
    ensures s in Next(v, Choose(v, s, c)).running
  {
    var w := Next(v, Choose(v, s, c));
    StepKeepsInv(v, Choose(v, s, c));
    assert OverUnlessRunning(w, s);
    StepKeepsSources(v, Choose(v, s, c), s);
  }

  /** How far the executor is from visiting `s`. */
  ghost function Stage(v: State, s: int): nat {
    match v.pc
    case Pass(todo, _) => if s in todo then 1 else 7
    case PassHealth(r, _, _, _) => if r == s then 1 else 7
    case Generating(r, _, _, calls) => if r == s && calls > 0 then 1 else 7
    case Flush(_) => 6
    case Scan(_) => 5
    case Yielding => 3
    case Blocked => 3
    case WaitLook(todo, _, ready) => if ready || s in todo then 2 else 4
    case WaitLooked(_, todo, _, ready) => if ready || s in todo then 2 else 4
    case WaitHealth(_, todo, _, ready, _) => if ready || s in todo then 2 else 4
    case _ => 0
  }

  /** The sources still to visit in this stage. */
  ghost function Left(v: State): nat {
    match v.pc
    case Pass(todo, _) => |todo|
    case PassHealth(_, todo, _, _) => |todo|
    case Generating(_, todo, _, _) => |todo|
    case Scan(todo) => |todo|
    case Yielding => 1
    case WaitLook(todo, _, _) => |todo|
    case WaitLooked(_, todo, _, _) => |todo|
    case WaitHealth(_, todo, _, _, _) => |todo|
    case _ => 0
  }

  ghost predicate Continues(v: State) { exists q :: q in v.sources && v.At(q).producer == PendingContinue }

  /** The steps still to take at one source. */
  ghost function Sub(v: State, c: nat): nat {
    match v.pc
    case PassHealth(_, _, _, _) => c + 2
    case Generating(_, _, _, calls) => calls + 1
    case Blocked => if v.continue_ then 1 else if Continues(v) then 2 else 3
    case WaitLooked(_, _, _, _) => 2
    case WaitHealth(_, _, _, _, _) => 1
    case _ => 0
  }

  ghost predicate Closer(w: State, v: State, s: int, c: nat) {
    || Stage(w, s) < Stage(v, s)
    || (Stage(w, s) == Stage(v, s) && Left(w) < Left(v))
    || (Stage(w, s) == Stage(v, s) && Left(w) == Left(v) && Sub(w, c) < Sub(v, c))
  }

  lemma BlockedCloser(v: State, s: int, c: nat)
    requires Inv(v) && Waits(v, s) && v.pc.Blocked?
    ensures Enabled(v, Choose(v, s, c)) && Closer(Next(v, Choose(v, s, c)), v, s, c)
  {
    assert NotLost(v, s);
    ChooseEnabled(v, s, c);
    var step := Choose(v, s, c);
    var w := Next(v, step);
    if step.Restart? {
      assert w.At(step.s).producer == PendingContinue;
    }
  }

  lemma PassCloser(v: State, s: int, c: nat)
    requires Waits(v, s) && (v.pc.Pass? || v.pc.PassHealth? || v.pc.Generating?) && Enabled(v, Choose(v, s, c)) && c > 0
    requires !(v.pc.Generating? && v.pc.source == s && v.pc.calls > 0)
    ensures Closer(Next(v, Choose(v, s, c)), v, s, c)
  {
  }

  lemma LookCloser(v: State, s: int, c: nat)
    requires Waits(v, s) && v.pc.WaitLook? && Enabled(v, Choose(v, s, c)) && s in Next(v, Choose(v, s, c)).running
    ensures Closer(Next(v, Choose(v, s, c)), v, s, c)
  {
  }

  lemma WaitCloser(v: State, s: int, c: nat)
    requires Waits(v, s) && (v.pc.WaitLooked? || v.pc.WaitHealth?) && Enabled(v, Choose(v, s, c))
    ensures Closer(Next(v, Choose(v, s, c)), v, s, c)
  {
  }

  lemma OtherCloser(v: State, s: int, c: nat)
    requires Waits(v, s) && (v.pc.Flush? || v.pc.Scan? || v.pc.Yielding?) && Enabled(v, Choose(v, s, c))
    requires s in Next(v, Choose(v, s, c)).running
    ensures Closer(Next(v, Choose(v, s, c)), v, s, c)
  {
  }

  lemma ChooseCloser(v: State, s: int, c: nat)
    requires Inv(v) && Waits(v, s) && Enabled(v, Choose(v, s, c)) && s in Next(v, Choose(v, s, c)).running && c > 0
    requires !(v.pc.Generating? && v.pc.source == s && v.pc.calls > 0)
    ensures Closer(Next(v, Choose(v, s, c)), v, s, c)
  {
    match v.pc
    case Blocked => BlockedCloser(v, s, c);
    case Pass(_, _) => PassCloser(v, s, c);
    case PassHealth(_, _, _, _) => PassCloser(v, s, c);
    case Generating(_, _, _, _) => PassCloser(v, s, c);
    case WaitLook(_, _, _) => LookCloser(v, s, c);
    case WaitLooked(_, _, _, _) => WaitCloser(v, s, c);
    case WaitHealth(_, _, _, _, _) => WaitCloser(v, s, c);
    case _ => OtherCloser(v, s, c);
  }

  lemma QuietCons(step: Step, rest: seq<Step>, c: nat)
    requires IsQuiet(step, c) && AllQuiet(rest, c)
    ensures AllQuiet([step] + rest, c)
  {
  }

  /** A waiting batch can be handed to its source by the executor and by handlers that wake it. */
  lemma {:induction false} Serve(v: State, s: int, c: nat) returns (steps: seq<Step>)
    requires Inv(v) && Waits(v, s) && !v.At(s).stopped && c > 0
    ensures IsRun(v, steps) && AllQuiet(steps, c)
    ensures After(v, steps).pc.Generating? && Popped(v.At(s), After(v, steps).At(s))
    decreases Stage(v, s), Left(v), Sub(v, c)
  {
    var step := Choose(v, s, c);
    WaitsEnabled(v, s, c);
    ChooseEffect(v, s, c);
    var w := Next(v, step);
    if AboutToPop(v, s) {
      steps := [step] + [];
      RunCons(v, step, []);
    } else {
      StepKeepsInv(v, step);
      ChooseKeepsRunning(v, s, c);
      StillWaits(v, s, c);
      ChooseCloser(v, s, c);
      var rest := Serve(w, s, c);
      steps := [step] + rest;
      RunCons(v, step, rest);
      QuietCons(step, rest, c);
    }
  }

  lemma WaitsEnabled(v: State, s: int, c: nat)
    requires Inv(v) && Waits(v, s)
    ensures Enabled(v, Choose(v, s, c)) && IsQuiet(Choose(v, s, c), c)
  {
    if v.pc.Blocked? {
      assert NotLost(v, s);
    }
    ChooseEnabled(v, s, c);
  }

  // ---- Any queued batch, and the end of the stream ----

  lemma {:induction false} RunAppend(v: State, a: seq<Step>, b: seq<Step>)
    requires IsRun(v, a) && IsRun(After(v, a), b)
    ensures IsRun(v, a + b) && After(v, a + b) == After(After(v, a), b)
    decreases |a|
  {
    if a == [] {
      assert a + b == b;
    } else {
      RunAppend(Next(v, a[0]), a[1..], b);
      assert (a + b)[0] == a[0] && (a + b)[1..] == a[1..] + b;
    }
  }

  lemma QuietAppend(a: seq<Step>, b: seq<Step>, c: nat)
    requires AllQuiet(a, c) && AllQuiet(b, c)
    ensures AllQuiet(a + b, c)
  {
  }

  lemma NoEosIn(b: Batch, c: seq<Batch>)
    requires !HasEos([b] + c)
    ensures !b.eos && !HasEos(c)
  {
    var all := [b] + c;
    assert all[0] == b;
    forall i | 0 <= i < |c| ensures !c[i].eos {
      assert all[i + 1] == c[i];
    }
  }

  /** Unless an end of stream comes before it, any waiting batch can be handed to its source, after those before it. */
  lemma {:induction false} ServeUpTo(v: State, s: int, k: nat, c: nat) returns (steps: seq<Step>)
    requires Inv(v) && Waits(v, s) && !v.At(s).stopped && c > 0
    requires k < |v.At(s).queue| && !HasEos(v.At(s).queue[..k])
    ensures IsRun(v, steps) && AllQuiet(steps, c) && Inv(After(v, steps)) && After(v, steps).pc.Generating?
    ensures After(v, steps).At(s).popped == v.At(s).popped + v.At(s).queue[..k + 1]
    ensures After(v, steps).At(s).sentEos == v.At(s).queue[k].eos
    decreases k
  {
    steps := Serve(v, s, c);
    RunKeepsInv(v, steps);
    var x, w := v.At(s), After(v, steps);
    PoppedNext(x, w.At(s), k);
    if k > 0 {
      WaitsOn(v, steps, s);
      var rest := ServeUpTo(w, s, k - 1, c);
      RunAppend(v, steps, rest);
      QuietAppend(steps, rest, c);
      steps := steps + rest;
    }
  }

  /** The batches still to hand over after the front one. */
  lemma PoppedNext(x: Source, y: Source, k: nat)
    requires Popped(x, y) && k < |x.queue| && !HasEos(x.queue[..k])
    ensures k == 0 ==> y.popped == x.popped + x.queue[..k + 1]
    ensures k > 0 ==> !x.queue[0].eos && !HasEos(y.queue[..k - 1]) && y.queue[k - 1] == x.queue[k] &&
                      y.popped + y.queue[..k] == x.popped + x.queue[..k + 1]
  {
    if k == 0 {
      assert x.queue[..1] == [x.queue[0]];
    } else {
      assert x.queue[..k] == [x.queue[0]] + y.queue[..k - 1];
      NoEosIn(x.queue[0], y.queue[..k - 1]);
    }
  }

  lemma WaitsOn(v: State, steps: seq<Step>, s: int)
    requires Inv(v) && Waits(v, s) && !v.At(s).stopped && IsRun(v, steps) && After(v, steps).pc.Generating?
    requires Popped(v.At(s), After(v, steps).At(s)) && !v.At(s).queue[0].eos && |v.At(s).queue| > 1
    ensures Waits(After(v, steps), s) && !After(v, steps).At(s).stopped
  {
    RunKeepsInv(v, steps);
    KeepsSources(v, steps, s);
    StaysRunning(After(v, steps), s);
  }

  lemma StepKeepsSources(v: State, step: Step, s: int)
    requires Inv(v) && Enabled(v, step)
    ensures s in v.sources <==> s in Next(v, step).sources
  {
    if Checking(v.pc) || v.pc.Generating? {
      RunningIsSource(v, v.pc.source);
    }
  }

  lemma {:induction false} KeepsSources(v: State, steps: seq<Step>, s: int)
    requires Inv(v) && IsRun(v, steps)
    ensures s in v.sources <==> s in After(v, steps).sources
    decreases |steps|
  {
    if steps != [] {
      StepKeepsInv(v, steps[0]);
      StepKeepsSources(v, steps[0], s);
      KeepsSources(Next(v, steps[0]), steps[1..], s);
    }
  }

  /** The health check under way ends a source that it found closed. */
  lemma EndsDoomed(v: State, s: int, c: nat) returns (steps: seq<Step>)
    requires Inv(v) && Doomed(v, s)
    ensures IsRun(v, steps) && AllQuiet(steps, c) && Inv(After(v, steps)) && Executing(After(v, steps).pc)
    ensures After(v, steps).At(s).sentEos
  {
    var step := if v.pc.PassHealth? then CheckFails(false, {}) else WaitCheckFails(false, {});
    StepKeepsInv(v, step);
    SendHere(v, s, v.At(s).SendEndOfStream(), Next(v, step).pc);
    steps := [step] + [];
    RunCons(v, step, []);
  }

  /** The first end of stream in a queue. */
  lemma {:induction false} FirstEos(batches: seq<Batch>) returns (k: nat)
    requires HasEos(batches)
    ensures k < |batches| && batches[k].eos && !HasEos(batches[..k])
  {
    var n := |batches| - 1;
    if HasEos(batches[..n]) {
      k := FirstEos(batches[..n]);
      assert batches[..n][..k] == batches[..k];
    } else {
      k := n;
      EosAppend(batches[..n], batches[n]);
      assert batches == batches[..n] + [batches[n]];
    }
  }

  /**
   From every reachable state in which a running source that is not stopped has a batch in its queue, a run of the
   executor and of handlers that wake it hands that batch to the source, or ends the source. It does not end the
   source if it has not ended, has no end of stream before that batch, and is not found closed by a check under way.
   */
  lemma QueuedBatchIsServed(ids: set<int>, steps: seq<Step>, s: int, k: nat, c: nat) returns (more: seq<Step>)
    requires IsRun(Initial(ids), steps) && Executing(After(Initial(ids), steps).pc) && c > 0
    requires var v := After(Initial(ids), steps); s in v.running && !v.At(s).stopped && k < |v.At(s).queue|
    ensures var v := After(Initial(ids), steps);
            && IsRun(v, more) && AllQuiet(more, c)
            && (var x, y := v.At(s), After(v, more).At(s);
                && (y.popped == x.popped + x.queue[..k + 1] || y.sentEos)
                && (!x.sentEos && !HasEos(x.queue[..k]) && !Doomed(v, s) ==>
                      y.popped == x.popped + x.queue[..k + 1]))
  {
    RunInv(ids, steps);
    var v := After(Initial(ids), steps);
    var x := v.At(s);
    if x.sentEos {
      more := [];
    } else if Doomed(v, s) {
      more := EndsDoomed(v, s, c);
    } else {
      var last := k;
      if HasEos(x.queue[..k]) {
        last := FirstEos(x.queue[..k]);
        assert x.queue[..k][..last] == x.queue[..last];
      }
      RunningIsSource(v, s);
      more := ServeUpTo(v, s, last, c);
    }
  }

  lemma RunningIsSource(v: State, s: int)
    requires Inv(v) && Executing(v.pc) && s in v.running
    ensures s in v.sources
  {
    if v.pc.Generating? {
      assert s != v.pc.source ==> LiveUnlessCompleted(v, v.pc.completed, s);
    } else if v.pc.Scan? || v.pc.Yielding? || v.pc.Blocked? {
      assert LiveUnlessCompleted(v, {}, s);
    } else {
      assert LiveUnlessCompleted(v, v.pc.completed, s);
    }
  }

  // ---- The query can return ----

  /** The source has ended its stream, or will when its queue is generated. */
  ghost predicate Ending(x: Source) {
    x.sentEos || HasEos(x.queue)
  }

  lemma PopKeepsEnding(x: Source)
    requires Ending(x) && x.NextBatchReady()
    ensures Ending(x.GenerateNext())
  {
    var y := x.GenerateNext();
    if !y.sentEos {
      EosSplit([x.queue[0]], y.queue);
      assert x.queue == [x.queue[0]] + y.queue;
    }
  }

  lemma QuietKeepsEnding(v: State, step: Step, r: int, c: nat)
    requires Enabled(v, step) && IsQuiet(step, c) && Ending(v.At(r))
    ensures Ending(Next(v, step).At(r)) && (v.At(r).sentEos ==> Next(v, step).At(r).sentEos)
  {
    if step.CheckFails? || step.WaitCheckFails? {
      SentKeepsEnding(v, r, v.At(v.pc.source).SendEndOfStream(), Next(v, step).pc);
    } else if step.Generate? {
      if Ending(v.At(v.pc.source)) {
        PopKeepsEnding(v.At(v.pc.source));
      }
      SentKeepsEnding(v, r, v.At(v.pc.source).GenerateNext(), Next(v, step).pc);
    }
  }

  lemma SentKeepsEnding(v: State, r: int, x: Source, pc: Pc)
    requires (v.pc.Generating? || Checking(v.pc)) && Ending(v.At(r))
    requires r == v.pc.source ==> Ending(x) && (v.At(r).sentEos ==> x.sentEos)
    ensures var w := v.With(v.pc.source, x).StopAll({}).To(pc);
            Ending(w.At(r)) && (v.At(r).sentEos ==> w.At(r).sentEos)
  {
    if r == v.pc.source {
      SendHere(v, r, x, pc);
    } else {
      SendElsewhere(v, r, v.pc.source, x, pc);
    }
  }

  lemma {:induction false} RunKeepsEnding(v: State, steps: seq<Step>, r: int, c: nat)
    requires IsRun(v, steps) && AllQuiet(steps, c) && Ending(v.At(r))
    ensures Ending(After(v, steps).At(r)) && (v.At(r).sentEos ==> After(v, steps).At(r).sentEos)
    decreases |steps|
  {
    if steps != [] {
      assert IsQuiet(steps[0], c);
      QuietKeepsEnding(v, steps[0], r, c);
      QuietTail(steps, c);
      RunKeepsEnding(Next(v, steps[0]), steps[1..], r, c);
    }
  }

  lemma QuietTail(steps: seq<Step>, c: nat)
    requires steps != [] && AllQuiet(steps, c)
    ensures AllQuiet(steps[1..], c)
  {
  }

  /** The calls for a stopped source end at once, and it does not run any more. */
  lemma LeaveNow(v: State, s: int, c: nat) returns (steps: seq<Step>)
    requires v.pc.Generating? && v.pc.source == s && v.At(s).stopped
    ensures IsRun(v, steps) && AllQuiet(steps, c)
    ensures After(v, steps).pc == Done(true) || (Executing(After(v, steps).pc) && s !in After(v, steps).running)
  {
    steps := [EndCalls] + ([FlushCompleted] + []);
    RunCons(Next(v, EndCalls), FlushCompleted, []);
    RunCons(v, EndCalls, [FlushCompleted] + []);
  }

  /** A source that is stopped and has a batch can be visited, and then it does not run any more. */
  lemma {:induction false} Leave(v: State, s: int, c: nat) returns (steps: seq<Step>)
    requires Inv(v) && Waits(v, s) && v.At(s).stopped && c > 0
    ensures IsRun(v, steps) && AllQuiet(steps, c)
    ensures After(v, steps).pc == Done(true) || (Executing(After(v, steps).pc) && s !in After(v, steps).running)
    decreases Stage(v, s), Left(v), Sub(v, c)
  {
    var step := Choose(v, s, c);
    WaitsEnabled(v, s, c);
    ChooseEffect(v, s, c);
    StepKeepsInv(v, step);
    var w := Next(v, step);
    if v.pc.Generating? && v.pc.source == s {
      steps := LeaveNow(v, s, c);
    } else if s !in w.running {
      steps := [step] + [];
      RunCons(v, step, []);
      LeftExecuting(v, s, c);
    } else {
      StillWaits(v, s, c);
      ChooseCloser(v, s, c);
      var rest := Leave(w, s, c);
      steps := [step] + rest;
      RunCons(v, step, rest);
      QuietCons(step, rest, c);
    }
  }

  lemma LeftExecuting(v: State, s: int, c: nat)
    requires Waits(v, s) && Enabled(v, Choose(v, s, c))
    ensures Next(v, Choose(v, s, c)).pc == Done(true) || Executing(Next(v, Choose(v, s, c)).pc)
  {
  }

  /** A source whose end of stream is queued can be brought to its end. */
  lemma EndSource(v: State, s: int, c: nat) returns (steps: seq<Step>)
    requires Inv(v) && Executing(v.pc) && s in v.sources && Ending(v.At(s)) && !v.At(s).sentEos && c > 0
    requires !v.At(s).stopped
    ensures IsRun(v, steps) && AllQuiet(steps, c) && Inv(After(v, steps)) && Executing(After(v, steps).pc)
    ensures After(v, steps).At(s).sentEos
  {
    if Doomed(v, s) {
      steps := EndsDoomed(v, s, c);
    } else {
      StaysRunning(v, s);
      var k := FirstEos(v.At(s).queue);
      steps := ServeUpTo(v, s, k, c);
    }
  }

  /** The executor waits for data only while sources are running. */
  ghost predicate Busy(v: State) {
    v.pc.Scan? || v.pc.Yielding? || v.pc.Blocked? ==> v.running != {}
  }

  lemma {:induction false} RunKeepsBusy(v: State, steps: seq<Step>)
    requires Busy(v) && IsRun(v, steps)
    ensures Busy(After(v, steps))
    decreases |steps|
  {
    if steps != [] {
      StepKeepsBusy(v, steps[0]);
      RunKeepsBusy(Next(v, steps[0]), steps[1..]);
    }
  }

  lemma StepKeepsBusy(v: State, step: Step)
    requires Busy(v) && Enabled(v, step)
    ensures Busy(Next(v, step))
  {
  }

  /** Every running source has ended its stream or has the end of stream in its queue. */
  ghost predicate AllEnding(v: State) { forall r | r in v.running :: Ending(v.At(r)) }

  ghost predicate EndedUnlessNot(v: State, r: int) { r in v.running ==> v.At(r).sentEos }

  lemma CompletedAll(v: State, completed: set<int>)
    requires Live(v, completed) && forall r :: EndedUnlessNot(v, r)
    ensures v.running == completed
  {
    forall r | r in v.running ensures r in completed {
      assert LiveUnlessCompleted(v, completed, r) && EndedUnlessNot(v, r);
    }
  }

  lemma FlushReturns(v: State, c: nat) returns (steps: seq<Step>)
    requires Inv(v) && v.pc.Flush? && forall r :: EndedUnlessNot(v, r)
    ensures IsRun(v, steps) && AllQuiet(steps, c) && After(v, steps).pc == Done(true)
  {
    CompletedAll(v, v.pc.completed);
    steps := [FlushCompleted] + [];
    RunCons(v, FlushCompleted, []);
  }

  lemma ThenFlush(v: State, step: Step, c: nat) returns (steps: seq<Step>)
    requires Inv(v) && (forall r :: EndedUnlessNot(v, r)) && IsExecutor(step, c) && Enabled(v, step)
    requires Next(v, step).pc.Flush? && Next(v, step).sources == v.sources && Next(v, step).running == v.running
    ensures IsRun(v, steps) && AllQuiet(steps, c) && After(v, steps).pc == Done(true)
  {
    var w := Next(v, step);
    StepKeepsInv(v, step);
    forall r ensures EndedUnlessNot(w, r) {
      assert EndedUnlessNot(v, r);
    }
    steps := FlushReturns(w, c);
    RunCons(v, step, steps);
    QuietCons(step, steps, c);
    steps := [step] + steps;
  }

  /** When every running source has ended, the executor neither looks at one nor waits for data. */
  lemma NothingToVisit(v: State)
    requires Inv(v) && Busy(v) && Executing(v.pc) && forall r :: EndedUnlessNot(v, r)
    ensures v.pc.Pass? || v.pc.Generating? || v.pc.Flush? || v.pc.WaitLook?
  {
    if v.pc.PassHealth? || v.pc.WaitLooked? || v.pc.WaitHealth? {
      CompletedAll(v, v.pc.completed);
    } else if v.pc.Scan? || v.pc.Yielding? || v.pc.Blocked? {
      CompletedAll(v, {});
    }
  }

  /** Then it returns. */
  lemma Drain(v: State, c: nat) returns (steps: seq<Step>)
    requires Inv(v) && Busy(v) && Executing(v.pc) && forall r :: EndedUnlessNot(v, r)
    ensures IsRun(v, steps) && AllQuiet(steps, c) && After(v, steps).pc == Done(true)
  {
    NothingToVisit(v);
    match v.pc
    case Pass(todo, completed) =>
      CompletedAll(v, completed);
      assert todo == {};
      steps := ThenFlush(v, EndPass, c);
    case Generating(r, _, _, _) =>
      assert EndedUnlessNot(v, r);
      steps := ThenFlush(v, EndCalls, c);
    case Flush(_) => steps := FlushReturns(v, c);
    case WaitLook(todo, completed, _) =>
      CompletedAll(v, completed);
      assert todo == {} && v.running - completed == {};
      steps := [EndWait] + [];
      RunCons(v, EndWait, []);
  }

  /** The running sources that have not ended. */
  ghost function Unended(v: State): set<int> {
    set r | r in v.running && !v.At(r).sentEos
  }

  lemma FewerUnended(v: State, w: State, s: int)
    requires s in Unended(v) && s !in Unended(w) && w.running <= v.running
    requires forall r | r in v.running :: v.At(r).sentEos ==> w.At(r).sentEos
    ensures |Unended(w)| < |Unended(v)|
  {
    SmallerSet(Unended(w), Unended(v), s);
  }

  lemma SmallerSet(a: set<int>, b: set<int>, s: int)
    requires a <= b && s in b && s !in a
    ensures |a| < |b|
  {
    assert a <= b - {s};
    SubsetSize(a, b - {s});
  }

  lemma {:induction false} SubsetSize(a: set<int>, b: set<int>)
    requires a <= b
    ensures |a| <= |b|
  {
    if forall x :: x !in a {
      assert a == {};
    } else {
      var x :| x in a;
      SubsetSize(a - {x}, b - {x});
    }
  }

  lemma {:induction false} RunningShrinks(v: State, steps: seq<Step>, c: nat)
    requires IsRun(v, steps) && AllQuiet(steps, c)
    ensures After(v, steps).running <= v.running
    decreases |steps|
  {
    if steps != [] {
      assert IsQuiet(steps[0], c);
      QuietTail(steps, c);
      RunningShrinks(Next(v, steps[0]), steps[1..], c);
    }
  }

  lemma RunKeepsAllEnding(v: State, steps: seq<Step>, c: nat)
    requires IsRun(v, steps) && AllQuiet(steps, c) && AllEnding(v)
    ensures AllEnding(After(v, steps))
  {
    RunningShrinks(v, steps, c);
    forall r | r in After(v, steps).running ensures Ending(After(v, steps).At(r)) {
      RunKeepsEnding(v, steps, r, c);
    }
  }

  /** One running source is brought to its end, or does not run any more. */
  lemma RetireOne(v: State, s: int, c: nat) returns (steps: seq<Step>)
    requires Inv(v) && Executing(v.pc) && AllEnding(v) && s in Unended(v) && c > 0
    ensures IsRun(v, steps) && AllQuiet(steps, c)
    ensures After(v, steps).pc == Done(true) || (Executing(After(v, steps).pc) && s !in Unended(After(v, steps)))
  {
    RunningIsSource(v, s);
    if !v.At(s).stopped {
      steps := EndSource(v, s, c);
    } else if Doomed(v, s) {
      steps := EndsDoomed(v, s, c);
    } else {
      steps := Leave(v, s, c);
    }
  }

  lemma RetiredOne(v: State, steps: seq<Step>, s: int, c: nat)
    requires IsRun(v, steps) && AllQuiet(steps, c) && AllEnding(v) && s in Unended(v)
    requires s !in Unended(After(v, steps))
    ensures AllEnding(After(v, steps)) && |Unended(After(v, steps))| < |Unended(v)|
  {
    var w := After(v, steps);
    RunKeepsAllEnding(v, steps, c);
    RunningShrinks(v, steps, c);
    forall r | r in v.running ensures v.At(r).sentEos ==> w.At(r).sentEos {
      RunKeepsEnding(v, steps, r, c);
    }
    FewerUnended(v, w, s);
  }

  lemma {:induction false} Return(v: State, c: nat) returns (steps: seq<Step>)
    requires Inv(v) && Busy(v) && Executing(v.pc) && AllEnding(v) && c > 0
    ensures IsRun(v, steps) && AllQuiet(steps, c) && After(v, steps).pc == Done(true)
    decreases |Unended(v)|
  {
    if s :| s in Unended(v) {
      steps := RetireOne(v, s, c);
      var w := After(v, steps);
      if w.pc != Done(true) {
        RunKeepsInv(v, steps);
        RunKeepsBusy(v, steps);
        RetiredOne(v, steps, s, c);
        var rest := Return(w, c);
        RunAppend(v, steps, rest);
        QuietAppend(steps, rest, c);
        steps := steps + rest;
      }
    } else {
      forall r ensures EndedUnlessNot(v, r) {
        assert r !in Unended(v);
      }
      steps := Drain(v, c);
    }
  }

  /**
   From every reachable state in which each running source has ended or has its end of stream in its queue, a run of
   the executor and of handlers that wake it makes the query return successfully.
   */
  lemma CanReturn(ids: set<int>, steps: seq<Step>, c: nat) returns (more: seq<Step>)
    requires IsRun(Initial(ids), steps) && Executing(After(Initial(ids), steps).pc) && c > 0
    requires AllEnding(After(Initial(ids), steps))
    ensures var v := After(Initial(ids), steps);
            IsRun(v, more) && AllQuiet(more, c) && After(v, more).pc == Done(true)
  {
    RunInv(ids, steps);
    RunKeepsBusy(Initial(ids), steps);
    more := Return(After(Initial(ids), steps), c);
  }

  // ---- Without calls there is no progress ----

  ghost predicate NoCalls(step: Step) { step.CheckPasses? ==> step.calls == 0 }

  ghost predicate Untouched(v: State, s: int) { v.At(s).popped == [] && (v.pc.Generating? ==> v.pc.calls == 0) }

  lemma SendUntouched(v: State, r: int, x: Source, stop: set<int>, pc: Pc, s: int)
    requires v.At(s).popped == [] && (r == s ==> x.popped == [])
    ensures v.With(r, x).StopAll(stop).To(pc).At(s).popped == []
  {
  }

  lemma StepUntouched(v: State, step: Step, s: int)
    requires Enabled(v, step) && NoCalls(step) && Untouched(v, s)
    ensures Untouched(Next(v, step), s)
  {
    if step.CheckFails? || step.WaitCheckFails? {
      SendUntouched(v, v.pc.source, v.At(v.pc.source).SendEndOfStream(), step.stop, Next(v, step).pc, s);
    }
  }

  /** The number of calls per source has to be positive: a query that allows none never takes a batch. */
  lemma {:induction false} WithoutCalls(ids: set<int>, steps: seq<Step>, s: int)
    requires IsRun(Initial(ids), steps) && forall i | 0 <= i < |steps| :: NoCalls(steps[i])
    ensures Untouched(After(Initial(ids), steps), s)
    decreases |steps|
  {
    if steps != [] {
      var n := |steps| - 1;
      RunSnoc(Initial(ids), steps);
      WithoutCalls(ids, steps[..n], s);
      StepUntouched(After(Initial(ids), steps[..n]), steps[n], s);
    }
  }
}
