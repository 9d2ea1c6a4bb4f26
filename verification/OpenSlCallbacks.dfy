/** When a guest callback can start after the OpenSL shutdown is complete. */
module OpenSlCallbacks {
  import Q = OpenSlQueue
  import opened OpenSlRuns

  /** Some continuation starts a guest callback in the completed queue. */
  ghost predicate CanCallLate(s: State) {
    exists steps, end :: IsRun(s, steps, end) && end.lateCallback
  }

  /** The queue is stopping, the callback thread holds no job, and no callback has started late. */
  predicate Jobless(s: State) {
    s.q.stopping && s.worker != HasJob && !s.lateCallback
  }

  lemma JoblessWorker(s: State, step: Step)
    requires Jobless(s) && Enabled(s, step) && IsWorker(step)
    ensures Jobless(Apply(s, step))
  {
    hide Q.AllFree, Q.InUse;
  }

  lemma JoblessControl(s: State, step: Step)
    requires Jobless(s) && Enabled(s, step) && IsControl(step)
    ensures Jobless(Apply(s, step))
  {
    hide Q.AllFree, Q.InUse;
  }

  lemma JoblessTransfer(s: State, step: Step)
    requires Jobless(s) && Enabled(s, step) && IsTransfer(step)
    ensures Jobless(Apply(s, step))
  {
    hide Q.AllFree, Q.InUse;
  }

  lemma JoblessOperation(s: State, step: Step)
    requires Jobless(s) && Enabled(s, step) && IsOperation(step)
    ensures Jobless(Apply(s, step))
  {
    hide Q.AllFree, Q.InUse;
  }

  /** In a stopping queue the callback thread never gets a job again, and only a job makes it call. */
  lemma NoNewJob(s: State, step: Step)
    requires Jobless(s) && Enabled(s, step)
    ensures Jobless(Apply(s, step))
  {
    hide Enabled, Apply, Jobless;
    if IsWorker(step) {
      JoblessWorker(s, step);
    } else if IsControl(step) {
      JoblessControl(s, step);
    } else if IsTransfer(step) {
      JoblessTransfer(s, step);
    } else {
      JoblessOperation(s, step);
    }
  }

  lemma {:induction false} NoNewJobRun(s: State, steps: seq<Step>, end: State)
    requires Jobless(s) && IsRun(s, steps, end)
    ensures !end.lateCallback
    decreases |steps|
  {
    hide Enabled, Apply;
    if steps != [] {
      NoNewJob(s, steps[0]);
      NoNewJobRun(Apply(s, steps[0]), steps[1..], end);
    }
  }

  lemma JobIsEnough(s: State)
    requires s.worker == HasJob && s.q.complete
    ensures CanCallLate(s)
  {
    var end := Apply(s, StartCallback);
    hide Apply, Enabled;
    assert [StartCallback][1..] == [];
    assert IsRun(end, [], end);
    assert IsRun(s, [StartCallback], end);
  }

  /**
   * In every run whose shutdown is complete and that has started no guest callback since, one can still
   * start if and only if the callback thread holds a job it has not begun; and it holds one only if
   * joining it failed, which the shutdown records and ignores.
   */
  lemma LateCallbackIff(capacity: nat, steps: seq<Step>, s: State)
    requires IsRun(Start(capacity), steps, s) && s.q.complete && !s.lateCallback
    ensures CanCallLate(s) <==> s.worker == HasJob
    ensures s.worker == HasJob ==> s.joinFailed
  {
    StartIsSafe(capacity);
    hide Start, Enabled, Apply, NoLostWakeup, TicketsCovered, TicketsOwned, Q.Inv;
    RunKeepsSafe(Start(capacity), steps, s);
    if s.worker == HasJob {
      JobIsEnough(s);
    } else {
      hide IsRun;
      forall more, end | IsRun(s, more, end)
        ensures !end.lateCallback
      {
        NoNewJobRun(s, more, end);
      }
    }
  }

  // ---------------------------------------------------------------- such an execution

  /** A one-buffer queue with a callback registered. */
  lemma RegisterFirst() returns (s: State)
    ensures Enabled(Start(1), Register(7)) && s == Apply(Start(1), Register(7))
    ensures s == Start(1).(q := Start(1).q.(callback := 7))
    ensures s.q.tickets == [Q.IDLE] && s.q.free == [0]
  {
    s := Apply(Start(1), Register(7));
    assert s.q.tickets == [Q.IDLE] && s.q.free == [0];
  }

  /** Its buffer goes to the sink. */
  lemma LendWithCallback(s: State) returns (s2: State, s3: State, s4: State)
    requires s == Start(1).(q := Start(1).q.(callback := 7)) && s.q.tickets == [Q.IDLE] && s.q.free == [0]
    ensures Enabled(s, BeginEnqueue) && s2 == Apply(s, BeginEnqueue)
    ensures Enabled(s2, SinkAccepts) && s3 == Apply(s2, SinkAccepts)
    ensures Enabled(s3, EndEnqueue) && s4 == Apply(s3, EndEnqueue)
    ensures Lending(s4)
  {
    s2 := Apply(s, BeginEnqueue);
    assert s2.q.tickets == [Q.Ticket(true, 1, 1, true)] && s2.op == Enqueueing(0, 1, Calling);
    hide Q.Admit, Q.Admission';
    s3 := Apply(s2, SinkAccepts);
    assert s3.lent == {Lent(1, 0, 1)};
    s4 := Apply(s3, EndEnqueue);
  }

  /** The sink has the only buffer, and its return will call the guest. */
  ghost predicate Lending(s: State) {
    && s.q.tickets == [Q.Ticket(true, 1, 1, true)] && s.q.generation == 1 && s.q.callback == 7 && s.q.jobs == []
    && !s.q.stopping && !s.q.complete && s.q.pending == 1 && s.op.NoOperation?
    && s.lent == {Lent(1, 0, 1)} && s.releasing == {} && s.worker == Checking && s.shutter.Running?
  }

  /** It comes back, and the callback thread takes the job. */
  lemma TakeJob(s: State) returns (s1: State, s2: State, s3: State)
    requires Lending(s)
    ensures Enabled(s, BeginRelease(Lent(1, 0, 1))) && s1 == Apply(s, BeginRelease(Lent(1, 0, 1)))
    ensures Enabled(s1, EndRelease(Lent(1, 0, 1), 4)) && s2 == Apply(s1, EndRelease(Lent(1, 0, 1), 4))
    ensures Enabled(s2, PopJob) && s3 == Apply(s2, PopJob)
    ensures s3.q.pending == 0 && !s3.q.stopping && s3.op.NoOperation? && s3.lent == {} && s3.releasing == {}
    ensures s3.worker == HasJob && s3.shutter.Running?
  {
    var l := Lent(1, 0, 1);
    s1 := Apply(s, BeginRelease(l));
    assert s1.lent == {} && s1.releasing == {l};
    s2 := Apply(s1, EndRelease(l, 4));
    assert s2.releasing == {} && s2.q.jobs == [7];
    s3 := Apply(s2, PopJob);
  }

  /** The sink is shut down while the callback thread holds its job. */
  lemma ShutSinkDown(s: State) returns (s1: State, s2: State, s3: State, s4: State)
    requires s.q.pending == 0 && !s.q.stopping && s.op.NoOperation? && s.lent == {} && s.releasing == {}
    requires s.worker == HasJob && s.shutter.Running?
    ensures Enabled(s, BeginShutdown(false)) && s1 == Apply(s, BeginShutdown(false))
    ensures Enabled(s1, NotifyShutdown) && s2 == Apply(s1, NotifyShutdown)
    ensures Enabled(s2, CallSinkShutdown) && s3 == Apply(s2, CallSinkShutdown)
    ensures Enabled(s3, SinkShutdownReturns) && s4 == Apply(s3, SinkShutdownReturns)
    ensures s4.q.pending == 0 && s4.worker == HasJob && s4.shutter == Joining(false)
  {
    hide Q.Admit, Q.RollBack, Q.Release, Q.Clear, Q.Admission', Q.FinishShutdown;
    s1 := Apply(s, BeginShutdown(false));
    s2 := Apply(s1, NotifyShutdown);
    s3 := Apply(s2, CallSinkShutdown);
    s4 := Apply(s3, SinkShutdownReturns);
  }

  /** The join fails, the shutdown completes, and the thread calls the guest. */
  lemma CallAnyway(s: State) returns (steps: seq<Step>, end: State)
    requires s.q.pending == 0 && s.worker == HasJob && s.shutter == Joining(false)
    ensures IsRun(s, steps, end) && end.lateCallback
  {
    hide Q.Admit, Q.RollBack, Q.Release, Q.Clear, Q.Admission', IsRun;
    var s1 := Apply(s, JoinFails);
    var s2 := Apply(s1, Finish);
    assert s2.q.complete && s2.worker == HasJob;
    JobIsEnough(s2);
    hide Apply, Enabled;
    steps, end :| IsRun(s2, steps, end) && end.lateCallback;
    Prepend(s1, Finish, s2, steps, end);
    steps := [Finish] + steps;
    Prepend(s, JoinFails, s1, steps, end);
    steps := [JoinFails] + steps;
  }

  lemma ShutDownAround(s: State) returns (steps: seq<Step>, end: State)
    requires s.q.pending == 0 && !s.q.stopping && s.op.NoOperation? && s.lent == {} && s.releasing == {}
    requires s.worker == HasJob && s.shutter.Running?
    ensures IsRun(s, steps, end) && end.lateCallback
  {
    hide Apply, Enabled, IsRun;
    var s1, s2, s3, s4 := ShutSinkDown(s);
    steps, end := CallAnyway(s4);
    Prepend(s3, SinkShutdownReturns, s4, steps, end);
    steps := [SinkShutdownReturns] + steps;
    Prepend(s2, CallSinkShutdown, s3, steps, end);
    steps := [CallSinkShutdown] + steps;
    Prepend(s1, NotifyShutdown, s2, steps, end);
    steps := [NotifyShutdown] + steps;
    Prepend(s, BeginShutdown(false), s1, steps, end);
    steps := [BeginShutdown(false)] + steps;
  }

  /** Such runs exist: a job is taken, the join fails, the shutdown completes, the guest is called. */
  lemma FailedJoinCallsLate() returns (steps: seq<Step>, end: State)
    ensures IsRun(Start(1), steps, end) && end.lateCallback
  {
    var l := Lent(1, 0, 1);
    hide Apply, Enabled, Start, IsRun, Lending;
    var s1 := RegisterFirst();
    var s2, s3, s4 := LendWithCallback(s1);
    var s5, s6, s7 := TakeJob(s4);
    steps, end := ShutDownAround(s7);
    Prepend(s6, PopJob, s7, steps, end);
    steps := [PopJob] + steps;
    Prepend(s5, EndRelease(l, 4), s6, steps, end);
    steps := [EndRelease(l, 4)] + steps;
    Prepend(s4, BeginRelease(l), s5, steps, end);
    steps := [BeginRelease(l)] + steps;
    Prepend(s3, EndEnqueue, s4, steps, end);
    steps := [EndEnqueue] + steps;
    Prepend(s2, SinkAccepts, s3, steps, end);
    steps := [SinkAccepts] + steps;
    Prepend(s1, BeginEnqueue, s2, steps, end);
    steps := [BeginEnqueue] + steps;
    Prepend(Start(1), Register(7), s1, steps, end);
    steps := [Register(7)] + steps;
  }
}
