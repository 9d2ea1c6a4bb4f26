/** Which guest callbacks the OpenSL callback thread makes: one for each consumed buffer, in order. */
module OpenSlJobs {
  import Q = OpenSlQueue
  import opened OpenSlRuns

  /** The callback the guest registered last, as its own calls tell. */
  function Latest(step: Step, registered: int): int {
    if step.Register? then step.callback else registered
  }

  /** The step counts a buffer as consumed. */
  predicate Consumes(s: State, step: Step)
    requires Enabled(s, step)
  {
    step.EndRelease? && Apply(s, step).q.consumed > s.q.consumed
  }

  /** What the step owes the guest. */
  function Owed(s: State, step: Step, registered: int): seq<int>
    requires Enabled(s, step)
  {
    if Consumes(s, step) && registered != 0 then [registered] else []
  }

  /** The callbacks registered at each consumed release of a run, in order. */
  ghost function Due(s: State, steps: seq<Step>, registered: int): seq<int>
    decreases |steps|
  {
    if steps == [] || !Enabled(s, steps[0]) then []
    else Owed(s, steps[0], registered) + Due(Apply(s, steps[0]), steps[1..], Latest(steps[0], registered))
  }

  /** The job the callback thread has taken and not started. */
  function InHand(s: State): seq<int> {
    if s.worker == HasJob then [s.job] else []
  }

  /** Everything due so far has been called, is in hand or is queued; a shutdown forgets what is queued. */
  ghost predicate Answered(s: State, due: seq<int>, registered: int) {
    && s.called + InHand(s) <= due
    && (!s.q.stopping ==> s.called + InHand(s) + s.q.jobs == due && s.q.callback == registered)
  }

  lemma WorkerAnswers(s: State, step: Step, due: seq<int>, registered: int)
    requires Answered(s, due, registered) && Enabled(s, step) && IsWorker(step)
    ensures Answered(Apply(s, step), due + Owed(s, step, registered), Latest(step, registered))
  {
    var n := Apply(s, step);
    assert due + [] == due;
    if step.PopJob? {
      assert [s.q.jobs[0]] + s.q.jobs[1..] == s.q.jobs;
      assert s.called + [] == s.called;
      assert s.called + [n.job] + n.q.jobs == s.called + ([n.job] + n.q.jobs);
    } else if step.StartCallback? {
      assert n.called + [] == n.called;
    }
  }

  lemma ControlAnswers(s: State, step: Step, due: seq<int>, registered: int)
    requires Answered(s, due, registered) && Enabled(s, step) && IsControl(step)
    ensures Answered(Apply(s, step), due + Owed(s, step, registered), Latest(step, registered))
  {
    assert due + [] == due;
  }

  lemma ReleaseAnswers(s: State, step: Step, due: seq<int>, registered: int)
    requires Answered(s, due, registered) && Enabled(s, step) && step.EndRelease?
    ensures Answered(Apply(s, step), due + Owed(s, step, registered), Latest(step, registered))
  {
    hide Q.AllFree, Q.InUse;
    var n, done := Apply(s, step), s.called + InHand(s);
    assert due + [] == due;
    assert done + (s.q.jobs + [registered]) == done + s.q.jobs + [registered];
  }

  lemma OtherAnswers(s: State, step: Step, due: seq<int>, registered: int)
    requires Answered(s, due, registered) && Enabled(s, step)
    requires !IsWorker(step) && !IsControl(step) && !step.EndRelease?
    ensures Answered(Apply(s, step), due + Owed(s, step, registered), Latest(step, registered))
  {
    hide Q.AllFree, Q.InUse;
    assert due + [] == due;
  }

  lemma StepAnswers(s: State, step: Step, due: seq<int>, registered: int)
    requires Answered(s, due, registered) && Enabled(s, step)
    ensures Answered(Apply(s, step), due + Owed(s, step, registered), Latest(step, registered))
  {
    hide Enabled, Apply, Answered, Owed, Latest;
    if IsWorker(step) {
      WorkerAnswers(s, step, due, registered);
    } else if IsControl(step) {
      ControlAnswers(s, step, due, registered);
    } else if step.EndRelease? {
      ReleaseAnswers(s, step, due, registered);
    } else {
      OtherAnswers(s, step, due, registered);
    }
  }

  lemma {:induction false} RunAnswers(s: State, steps: seq<Step>, end: State, due: seq<int>, registered: int)
    returns (last: int)
    requires Answered(s, due, registered) && IsRun(s, steps, end)
    ensures Answered(end, due + Due(s, steps, registered), last)
    decreases |steps|
  {
    hide Enabled, Apply, Answered, Owed, Latest;
    if steps == [] {
      assert due + Due(s, steps, registered) == due;
      last := registered;
    } else {
      var step, rest := steps[0], steps[1..];
      var owed, next := Owed(s, step, registered), Latest(step, registered);
      StepAnswers(s, step, due, registered);
      last := RunAnswers(Apply(s, step), rest, end, due + owed, next);
      assert due + owed + Due(Apply(s, step), rest, next) == due + (owed + Due(Apply(s, step), rest, next));
    }
  }

  /**
   * In every run: the guest callbacks made, the one in hand and the queued ones are exactly, in order,
   * the callbacks that were registered when each consumed buffer was released. A shutdown drops what is
   * queued, and what was made or is in hand stays the front part of that sequence.
   */
  lemma EveryConsumedBufferIsAnswered(capacity: nat, steps: seq<Step>, s: State)
    requires IsRun(Start(capacity), steps, s)
    ensures var due := Due(Start(capacity), steps, 0);
            && s.called + InHand(s) <= due
            && (!s.q.stopping ==> s.called + InHand(s) + s.q.jobs == due)
  {
    var start := Start(capacity);
    assert Answered(start, [], 0);
    hide IsRun, Due;
    var last := RunAnswers(start, steps, s, [], 0);
    assert [] + Due(start, steps, 0) == Due(start, steps, 0);
  }

  lemma RegionConsumes(q: Q.Queue, r: Q.Region)
    ensures Q.Apply(q, r).consumed == q.consumed || (r.ReleaseRegion? && Q.Apply(q, r).consumed == q.consumed + 1)
  {
    hide Q.AllFree, Q.InUse;
  }

  lemma ConsumedGrowsByOne(s: State, step: Step)
    requires PhasesAgree(s) && Enabled(s, step)
    ensures Apply(s, step).q.consumed == s.q.consumed + if Consumes(s, step) then 1 else 0
  {
    hide Enabled, Apply, PhasesAgree, Q.Apply;
    StepRunsRegion(s, step);
    if RegionOf(s, step).Some? {
      RegionConsumes(s.q, RegionOf(s, step).value);
    }
  }

  lemma {:induction false} CountDue(s: State, steps: seq<Step>, end: State, registered: int)
    requires PhasesAgree(s) && WorkerAgrees(s) && IsRun(s, steps, end)
    requires registered != 0 && forall i :: 0 <= i < |steps| ==> steps[i] != Register(0)
    ensures s.q.consumed + |Due(s, steps, registered)| == end.q.consumed
    decreases |steps|
  {
    hide Enabled, Apply, PhasesAgree, WorkerAgrees, Consumes;
    if steps != [] {
      ConsumedGrowsByOne(s, steps[0]);
      PhasesStep(s, steps[0]);
      assert steps[0] != Register(0);
      CountDue(Apply(s, steps[0]), steps[1..], end, Latest(steps[0], registered));
    }
  }

  lemma StartRegisters(capacity: nat, registered: int)
    ensures Enabled(Start(capacity), Register(registered))
    ensures var n := Apply(Start(capacity), Register(registered));
            PhasesAgree(n) && WorkerAgrees(n) && n.q.consumed == 0 && !Consumes(Start(capacity), Register(registered))
  {
    hide Q.AllFree;
  }

  lemma UnrollOnce(s: State, step: Step, rest: seq<Step>, end: State, registered: int)
    requires IsRun(s, [step] + rest, end)
    ensures Enabled(s, step) && IsRun(Apply(s, step), rest, end)
    ensures Due(s, [step] + rest, registered) ==
            Owed(s, step, registered) + Due(Apply(s, step), rest, Latest(step, registered))
  {
    assert ([step] + rest)[0] == step && ([step] + rest)[1..] == rest;
    hide Enabled, Apply, Owed, Latest;
  }

  /**
   * With a callback registered first and never null, the guest is called once for each consumed buffer:
   * as many calls as buffers, counting those still to be made.
   */
  lemma OneCallForEachBuffer(capacity: nat, registered: int, steps: seq<Step>, s: State)
    requires IsRun(Start(capacity), [Register(registered)] + steps, s) && !s.q.stopping
    requires registered != 0 && forall i :: 0 <= i < |steps| ==> steps[i] != Register(0)
    ensures |s.called| + |InHand(s)| + |s.q.jobs| == s.q.consumed
  {
    hide Due, IsRun, Apply, Enabled, Start, PhasesAgree, WorkerAgrees, InHand, Consumes;
    var first := Register(registered);
    EveryConsumedBufferIsAnswered(capacity, [first] + steps, s);
    StartRegisters(capacity, registered);
    UnrollOnce(Start(capacity), first, steps, s, 0);
    CountDue(Apply(Start(capacity), first), steps, s, registered);
  }

  // ---------------------------------------------------------------- after a shutdown has begun

  predicate Forgotten(q: Q.Queue) {
    q.stopping ==> q.jobs == [] && q.callback == 0
  }

  lemma RegionForgets(q: Q.Queue, r: Q.Region)
    requires Forgotten(q)
    ensures Forgotten(Q.Apply(q, r))
  {
    hide Q.AllFree, Q.InUse;
  }

  lemma {:induction false} RunForgets(s: State, steps: seq<Step>, end: State)
    requires PhasesAgree(s) && WorkerAgrees(s) && Forgotten(s.q) && IsRun(s, steps, end)
    ensures Forgotten(end.q)
    decreases |steps|
  {
    hide Enabled, Apply, PhasesAgree, WorkerAgrees, Q.Apply, Forgotten;
    if steps != [] {
      StepRunsRegion(s, steps[0]);
      if RegionOf(s, steps[0]).Some? {
        RegionForgets(s.q, RegionOf(s, steps[0]).value);
      }
      PhasesStep(s, steps[0]);
      RunForgets(Apply(s, steps[0]), steps[1..], end);
    }
  }

  /** From the moment a shutdown begins no job is queued and no callback is registered. */
  lemma ShutdownForgetsJobs(capacity: nat, steps: seq<Step>, s: State)
    requires IsRun(Start(capacity), steps, s)
    ensures s.q.stopping ==> s.q.jobs == [] && s.q.callback == 0
  {
    StartIsSafe(capacity);
    RunForgets(Start(capacity), steps, s);
  }
}
