/** A shutdown of the OpenSL queue always completes: it is never stuck, and every schedule of it is bounded. */
module OpenSlProgress {
  import opened Outcomes
  import Q = OpenSlQueue
  import opened OpenSlRuns

  /** The step that the operation under way takes next. */
  function NextOfOperation(op: Operation): Step {
    match op
    case NoOperation => CallSinkShutdown
    case Enqueueing(_, _, Calling) => SinkRefuses
    case Enqueueing(_, _, _) => EndEnqueue
    case Clearing => EndClear(false)
    case Tuning => EndTune
    case Closing => SinkShutdownReturns
  }

  function NextOfWorker(worker: Worker): Step {
    match worker
    case Checking => ExitWorker
    case Asleep => SpuriousWake
    case HasJob => StartCallback
    case InCallback => ReturnCallback
    case Exited => Join
  }

  /** No new registration, no join that fails, and no wake-up for no reason. */
  predicate Progress(step: Step) {
    !step.Register? && !step.JoinFails? && !step.SpuriousWake?
  }

  /** Everything the shutdown waits for has happened, and the callback thread is gone. */
  ghost predicate AtRest(s: State) {
    && s.q.complete && s.op.NoOperation? && s.lent == {} && s.releasing == {} && s.notifying == 0
    && s.worker == Exited
  }

  /** A callback thread that sleeps through a shutdown has not been notified yet. */
  lemma WorkerIsAwake(s: State)
    requires NoLostWakeup(s) && s.q.stopping && !s.shutter.Announcing?
    ensures s.worker != Asleep
  {
  }

  /** While a shutdown is incomplete, or the callback thread still there, some thread or the sink can move. */
  lemma ShutdownNeverSticks(s: State) returns (step: Step)
    requires PhasesAgree(s) && WorkerAgrees(s) && NoLostWakeup(s) && TicketsCovered(s) && s.q.stopping && !AtRest(s)
    ensures Enabled(s, step) && Progress(step)
  {
    if s.notifying > 0 {
      return NotifyRelease;
    }
    if !s.shutter.Announcing? {
      WorkerIsAwake(s);
    }
    match s.shutter
    case Announcing(_) => step := NotifyShutdown;
    case Stopping(_) => step := NextOfOperation(s.op);
    case InSink(_) => step := NextOfSink(s);
    case Joining(byWorker) => step := if byWorker then Join else NextOfWorker(s.worker);
    case Finishing(_) => step := Finish;
    case Done(_) => step := NextOfWorker(s.worker);
  }

  /** During the sink's Shutdown a release can go on, or the sink returns. */
  lemma NextOfSink(s: State) returns (step: Step)
    requires TicketsCovered(s) && s.op.Closing? && s.shutter.InSink?
    ensures Enabled(s, step) && Progress(step)
  {
    if s.releasing != {} {
      step := EndRelease(Any(s.releasing), 0);
    } else if s.lent != {} {
      assert Any(s.lent) in s.lent + s.releasing;
      step := BeginRelease(Any(s.lent));
    } else {
      step := SinkShutdownReturns;
    }
  }

  /** A job that was queued is not forgotten: the callback thread is at work, or about to be told. */
  lemma JobsAreNotForgotten(s: State) returns (step: Step)
    requires NoLostWakeup(s) && !s.q.stopping && s.shutter.Running? && s.q.jobs != [] && s.worker != Exited
    ensures Enabled(s, step) && (step.NotifyRelease? || step.PopJob? || step.StartCallback? || step.ReturnCallback?)
    ensures step.NotifyRelease? ==> Apply(s, step).worker == Checking
  {
    match s.worker
    case Checking => step := PopJob;
    case Asleep => step := NotifyRelease;
    case HasJob => step := StartCallback;
    case InCallback => step := ReturnCallback;
  }

  // ---------------------------------------------------------------- a bound

  function OperationRank(op: Operation): nat {
    match op
    case NoOperation => 0
    case Enqueueing(_, _, Calling) => 4
    case _ => 1
  }

  function ShutterRank(shutter: Shutter): nat {
    match shutter
    case Running => 0
    case Announcing(_) => 7
    case Stopping(_) => 6
    case InSink(_) => 4
    case Joining(_) => 3
    case Finishing(_) => 2
    case Done(_) => 1
  }

  function WorkerRank(worker: Worker): nat {
    match worker
    case HasJob => 3
    case InCallback => 2
    case Asleep => 2
    case Checking => 1
    case Exited => 0
  }

  function Rank(s: State): nat {
    OperationRank(s.op) + ShutterRank(s.shutter) + WorkerRank(s.worker) + s.notifying + 2 * |s.lent| + |s.releasing|
  }

  /** The part of the rank that has nothing to do with buffers. */
  function ThreadRank(op: Operation, shutter: Shutter, worker: Worker, notifying: nat): nat {
    OperationRank(op) + ShutterRank(shutter) + WorkerRank(worker) + notifying
  }

  lemma RankWithoutBuffers(s: State, n: State)
    requires n.lent == s.lent && n.releasing == s.releasing
    requires ThreadRank(n.op, n.shutter, n.worker, n.notifying) < ThreadRank(s.op, s.shutter, s.worker, s.notifying)
    ensures Rank(n) < Rank(s)
  {
    hide OperationRank, ShutterRank, WorkerRank;
  }

  lemma WorkerMoves(s: State, step: Step)
    requires s.q.stopping && Enabled(s, step) && IsWorker(step)
    ensures var n := Apply(s, step);
            && n == s.(q := n.q, worker := n.worker, lateCallback := n.lateCallback, called := n.called) && n.q.stopping
            && WorkerRank(n.worker) < WorkerRank(s.worker)
  {
    hide Q.Admit, Q.RollBack, Q.Release, Q.Clear, Q.FinishShutdown, Q.Admission';
    assert step.SpuriousWake? || step.StartCallback? || step.ReturnCallback? || step.ExitWorker?;
  }

  lemma WorkerLowersRank(s: State, step: Step)
    requires s.q.stopping && Enabled(s, step) && IsWorker(step)
    ensures Apply(s, step).q.stopping && Rank(Apply(s, step)) < Rank(s)
  {
    hide Apply, Enabled, Rank, OperationRank, ShutterRank, WorkerRank;
    WorkerMoves(s, step);
    RankWithoutBuffers(s, Apply(s, step));
  }

  lemma ControlMoves(s: State, step: Step)
    requires PhasesAgree(s) && s.q.stopping && Enabled(s, step) && IsControl(step) && !step.Register?
    ensures var n := Apply(s, step);
            && n.q.stopping && n.op == s.op
            && ThreadRank(n.op, n.shutter, n.worker, n.notifying) < ThreadRank(s.op, s.shutter, s.worker, s.notifying)
  {
    hide Q.Admit, Q.RollBack, Q.Release, Q.Clear, Q.FinishShutdown, Q.Admission', OperationRank;
    assert !step.BeginShutdown?;
    if step.NotifyRelease? || step.NotifyShutdown? {
      assert WorkerRank(Apply(s, step).worker) <= WorkerRank(s.worker);
    }
  }

  lemma ControlLowersRank(s: State, step: Step)
    requires PhasesAgree(s) && s.q.stopping && Enabled(s, step) && IsControl(step) && !step.Register?
    ensures Apply(s, step).q.stopping && Rank(Apply(s, step)) < Rank(s)
  {
    hide Apply, Enabled, Rank, PhasesAgree, ThreadRank;
    ControlMoves(s, step);
    ControlLeavesTickets(s, step);
    RankWithoutBuffers(s, Apply(s, step));
  }

  /** What operations other than transfers leave alone. */
  lemma OperationMoves(s: State, step: Step)
    requires s.q.stopping && Enabled(s, step) && IsOperation(step)
    ensures var n := Apply(s, step);
            && n.q.stopping
            && n == s.(q := n.q, op := n.op, retained := n.retained, lateSinkCall := n.lateSinkCall,
                       shutter := n.shutter, sinkShut := n.sinkShut)
            && OperationRank(n.op) + ShutterRank(n.shutter) < OperationRank(s.op) + ShutterRank(s.shutter)
  {
    hide Q.Admit, Q.RollBack, Q.Release, Q.Clear, Q.Admission', WorkerRank;
    assert !step.BeginClear? && !step.BeginTune?;
  }

  lemma OperationLowersRank(s: State, step: Step)
    requires s.q.stopping && Enabled(s, step) && IsOperation(step)
    ensures Apply(s, step).q.stopping && Rank(Apply(s, step)) < Rank(s)
  {
    hide Apply, Enabled, Rank, WorkerRank, OperationRank, ShutterRank;
    OperationMoves(s, step);
    RankWithoutBuffers(s, Apply(s, step));
  }

  lemma AnswerLowersRank(s: State, step: Step)
    requires s.q.stopping && Enabled(s, step)
    requires step.SinkAccepts? || step.SinkRefuses? || step.EndEnqueue?
    ensures Apply(s, step).q.stopping && Rank(Apply(s, step)) < Rank(s)
  {
    hide ShutterRank, WorkerRank;
    if step.SinkAccepts? {
      var l := Lent(s.op.id, s.op.slot, s.q.tickets[s.op.slot].generation);
      assert |s.lent + {l}| <= |s.lent| + 1;
    }
  }

  lemma ReleaseLowersRank(s: State, step: Step)
    requires s.q.stopping && Enabled(s, step) && (step.BeginRelease? || step.EndRelease?)
    ensures Apply(s, step).q.stopping && Rank(Apply(s, step)) < Rank(s)
  {
    hide OperationRank, ShutterRank, WorkerRank;
    match step
    case BeginRelease(l) =>
      assert |s.lent - {l}| == |s.lent| - 1;
      assert |s.releasing + {l}| <= |s.releasing| + 1;
    case EndRelease(l, _) => assert |s.releasing - {l}| == |s.releasing| - 1;
  }

  lemma StepLowersRank(s: State, step: Step)
    requires PhasesAgree(s) && s.q.stopping && Enabled(s, step) && !step.Register?
    ensures Apply(s, step).q.stopping && Rank(Apply(s, step)) < Rank(s)
  {
    assert !step.BeginEnqueue?;
    hide Apply, Enabled, Rank, PhasesAgree;
    if IsWorker(step) {
      WorkerLowersRank(s, step);
    } else if IsControl(step) {
      ControlLowersRank(s, step);
    } else if IsOperation(step) {
      OperationLowersRank(s, step);
    } else if step.BeginRelease? || step.EndRelease? {
      ReleaseLowersRank(s, step);
    } else {
      AnswerLowersRank(s, step);
    }
  }

  /**
   * Once a shutdown has begun, every schedule ends within the rank of the state it starts from, however
   * many guests call in meanwhile, and where nothing can move any more the shutdown is complete, no
   * buffer is out and the callback thread has exited.
   */
  lemma {:induction false} ShutdownAlwaysCompletes(s: State, steps: seq<Step>, end: State)
    requires Safe(s) && s.q.stopping && IsRun(s, steps, end)
    requires forall i :: 0 <= i < |steps| ==> !steps[i].Register?
    ensures |steps| <= Rank(s)
    ensures (forall step: Step :: Progress(step) ==> !Enabled(end, step)) ==> AtRest(end)
    decreases |steps|
  {
    assert PhasesAgree(s) && WorkerAgrees(s) && NoLostWakeup(s) && TicketsCovered(s);
    hide Safe, PhasesAgree, WorkerAgrees, NoLostWakeup, TicketsCovered, Rank, Enabled, Apply, AtRest;
    if steps != [] {
      StepKeepsSafe(s, steps[0]);
      StepLowersRank(s, steps[0]);
      ShutdownAlwaysCompletes(Apply(s, steps[0]), steps[1..], end);
    } else if !AtRest(s) {
      var step := ShutdownNeverSticks(s);
    }
  }
}
