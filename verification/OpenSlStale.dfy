/** When a buffer from before a Clear can pass for one from after it. */
module OpenSlStale {
  import opened Outcomes
  import Q = OpenSlQueue
  import opened OpenSlRuns

  ghost predicate NoClear(steps: seq<Step>) {
    forall i :: 0 <= i < |steps| ==> !steps[i].BeginClear?
  }

  /** Some continuation without another Clear counts a buffer of an older generation as consumed. */
  ghost predicate CanCountOldBuffer(s: State) {
    exists steps, end :: IsRun(s.(staleConsumed := false), steps, end) && NoClear(steps) && end.staleConsumed
  }

  // ------------------------------------------------ nothing left out, nothing stale

  /** Whatever is out, or about to go out, is of the current generation, or a shutdown has begun. */
  ghost predicate AllCurrent(s: State) {
    s.q.stopping ||
    (&& (forall l :: Out(s, l) ==> l.epoch == s.q.generation)
     && (s.op.Enqueueing? ==> s.op.slot < |s.q.tickets| && s.q.tickets[s.op.slot].generation == s.q.generation))
  }

  /** A buffer is with the sink, or in a release callback. */
  predicate Out(s: State, l: Lent) {
    l in s.lent || l in s.releasing
  }

  /** Only an Enqueue that the sink accepts adds a borrowed buffer, of its ticket's generation. */
  lemma OnlyTheSinkBorrows(s: State, step: Step, l: Lent)
    requires Enabled(s, step) && Out(Apply(s, step), l)
    ensures Out(s, l) || (step.SinkAccepts? && l.epoch == s.q.tickets[s.op.slot].generation)
  {
    if IsWorker(step) {
      WorkerLeavesTickets(s, step);
      hide Apply, Enabled;
    } else if IsControl(step) {
      ControlLeavesTickets(s, step);
      hide Apply, Enabled;
    } else {
      OthersBorrow(s, step, l);
    }
  }

  lemma OthersBorrow(s: State, step: Step, l: Lent)
    requires Enabled(s, step) && Out(Apply(s, step), l) && (IsTransfer(step) || IsOperation(step))
    ensures Out(s, l) || (step.SinkAccepts? && l.epoch == s.q.tickets[s.op.slot].generation)
  {
    hide Q.Admit, Q.RollBack, Q.Release, Q.Clear, Q.FinishShutdown;
  }

  /** Regions other than Clear and the start of a shutdown keep the generation, and never age a ticket. */
  lemma RegionKeepsGeneration(q: Q.Queue, r: Q.Region, i: nat)
    requires !r.ClearRegion? && !r.BeginShutdownRegion? && i < |q.tickets|
    ensures var n := Q.Apply(q, r);
            && n.generation == q.generation && n.stopping == q.stopping && |n.tickets| == |q.tickets|
            && (n.tickets[i].generation == q.tickets[i].generation || n.tickets[i].generation == n.generation)
  {
  }

  lemma AdmittedIsCurrent(s: State)
    requires Enabled(s, BeginEnqueue)
    ensures var n := Apply(s, BeginEnqueue);
            !s.q.stopping && n.op.slot < |n.q.tickets| && n.q.tickets[n.op.slot].generation == n.q.generation
  {
  }

  lemma OperationContinues(s: State, step: Step)
    requires PhasesAgree(s) && Enabled(s, step) && Apply(s, step).op.Enqueueing? && !step.BeginEnqueue?
    ensures s.op.Enqueueing? && Apply(s, step).op.slot == s.op.slot && RegionOf(s, step) != Some(Q.ClearRegion)
    ensures RegionOf(s, step) == Some(Q.BeginShutdownRegion) ==> Apply(s, step).q.stopping
  {
    hide Q.Admit, Q.RollBack, Q.Release, Q.Clear, Q.FinishShutdown;
    if IsWorker(step) {
      WorkerLeavesTickets(s, step);
      hide Apply, Enabled;
    }
  }

  lemma CurrentOperation(s: State, step: Step)
    requires PhasesAgree(s) && AllCurrent(s) && Enabled(s, step) && !step.BeginClear?
    requires !s.q.stopping && !Apply(s, step).q.stopping && Apply(s, step).op.Enqueueing?
    ensures var n := Apply(s, step);
            n.op.slot < |n.q.tickets| && n.q.tickets[n.op.slot].generation == n.q.generation
  {
    if step.BeginEnqueue? {
      AdmittedIsCurrent(s);
    } else {
      StepRunsRegion(s, step);
      OperationContinues(s, step);
      hide Apply, Enabled, PhasesAgree, RegionOf, Q.Apply;
      match RegionOf(s, step)
      case Some(r) =>
        if !r.BeginShutdownRegion? {
          RegionKeepsGeneration(s.q, r, s.op.slot);
        }
      case None =>
    }
  }

  /** Apart from Clear, only the start of a shutdown changes the generation. */
  lemma GenerationStays(s: State, step: Step)
    requires PhasesAgree(s) && Enabled(s, step) && !step.BeginClear?
    ensures s.q.stopping ==> Apply(s, step).q.stopping
    ensures !Apply(s, step).q.stopping ==> Apply(s, step).q.generation == s.q.generation
  {
    StepRunsRegion(s, step);
    assert step.BeginShutdown? <==> RegionOf(s, step) == Some(Q.BeginShutdownRegion);
    assert RegionOf(s, step) == Some(Q.ClearRegion) ==> step.BeginClear?;
    hide Apply, Enabled, RegionOf, PhasesAgree;
    match RegionOf(s, step)
    case Some(r) =>
      if !r.BeginShutdownRegion? {
        RegionKeepsFlags(s.q, r);
      }
    case None =>
  }

  lemma RegionKeepsFlags(q: Q.Queue, r: Q.Region)
    requires !r.ClearRegion? && !r.BeginShutdownRegion?
    ensures Q.Apply(q, r).generation == q.generation && Q.Apply(q, r).stopping == q.stopping
  {
    hide Q.Clear;
  }

  /** A release is counted as consumed only while no shutdown has begun. */
  lemma OnlyOpenQueuesConsume(s: State, step: Step)
    requires Enabled(s, step) && !s.staleConsumed && Apply(s, step).staleConsumed
    ensures step.EndRelease? && !s.q.stopping && step.released in s.releasing && step.released.epoch < s.q.generation
  {
    hide Q.Admit, Q.RollBack, Q.Clear, Q.BeginShutdown, Q.FinishShutdown;
  }

  lemma CurrentStep(s: State, step: Step)
    requires PhasesAgree(s) && AllCurrent(s) && !s.staleConsumed && Enabled(s, step) && !step.BeginClear?
    ensures AllCurrent(Apply(s, step)) && !Apply(s, step).staleConsumed
  {
    hide Apply, Enabled, PhasesAgree;
    var n := Apply(s, step);
    GenerationStays(s, step);
    if n.staleConsumed {
      OnlyOpenQueuesConsume(s, step);
    }
    if !n.q.stopping {
      forall l | Out(n, l)
        ensures l.epoch == n.q.generation
      {
        OnlyTheSinkBorrows(s, step, l);
        assert step.SinkAccepts? ==> s.op.Enqueueing? by {
          AcceptingMeansEnqueueing(s, step);
        }
      }
      if n.op.Enqueueing? {
        CurrentOperation(s, step);
      }
    }
  }

  lemma AcceptingMeansEnqueueing(s: State, step: Step)
    requires Enabled(s, step)
    ensures step.SinkAccepts? ==> s.op.Enqueueing?
  {
  }

  lemma {:induction false} CurrentRun(s: State, steps: seq<Step>, end: State)
    requires PhasesAgree(s) && WorkerAgrees(s) && AllCurrent(s) && !s.staleConsumed
    requires IsRun(s, steps, end) && NoClear(steps)
    ensures !end.staleConsumed
    decreases |steps|
  {
    hide AllCurrent, Enabled, Apply, PhasesAgree, WorkerAgrees;
    if steps != [] {
      PhasesStep(s, steps[0]);
      CurrentStep(s, steps[0]);
      CurrentRun(Apply(s, steps[0]), steps[1..], end);
    }
  }

  // ------------------------------------------------ one left out is enough

  lemma PrependWithoutClear(s: State, step: Step, n: State, rest: seq<Step>, end: State)
    requires Enabled(s, step) && Apply(s, step) == n && IsRun(n, rest, end) && NoClear(rest) && !step.BeginClear?
    ensures IsRun(s, [step] + rest, end) && NoClear([step] + rest)
  {
    OpenSlRuns.Prepend(s, step, n, rest, end);
    hide Enabled, Apply, IsRun;
  }

  /** Open for business: no operation, no shutdown, exact books, current tickets. */
  ghost predicate Open(s: State) {
    && s.op.NoOperation? && !s.q.stopping && s.q.lost == 0 && Q.Inv(s.q) && Q.GenerationsCurrent(s.q)
    && (forall l :: Out(s, l) ==> l.slot < |s.q.tickets|)
  }

  /** The ticket of an old buffer is in use again: its release is counted as consumed. */
  lemma ReleaseCountsIt(s: State, l: Lent) returns (steps: seq<Step>, end: State)
    requires Open(s) && l in s.lent + s.releasing && l.epoch < s.q.generation && s.q.tickets[l.slot].inUse
    ensures IsRun(s, steps, end) && NoClear(steps) && end.staleConsumed
  {
    var m := s;
    if l !in s.releasing {
      m := Apply(s, BeginRelease(l));
    }
    assert l in m.releasing && m.q == s.q;
    end := Apply(m, EndRelease(l, 0));
    assert end.staleConsumed;
    hide Open, Q.Inv;
    assert IsRun(end, [], end);
    PrependWithoutClear(m, EndRelease(l, 0), end, [], end);
    steps := [EndRelease(l, 0)] + [];
    if l !in s.releasing {
      PrependWithoutClear(s, BeginRelease(l), m, steps, end);
      steps := [BeginRelease(l)] + steps;
    }
  }

  /** One more buffer goes to the sink and takes the last free ticket. */
  lemma LendOne(s: State) returns (s1: State, s2: State, n: State)
    requires Open(s) && s.q.free != []
    ensures Enabled(s, BeginEnqueue) && s1 == Apply(s, BeginEnqueue)
    ensures Enabled(s1, SinkAccepts) && s2 == Apply(s1, SinkAccepts)
    ensures Enabled(s2, EndEnqueue) && n == Apply(s2, EndEnqueue)
    ensures Open(n) && |n.q.free| == |s.q.free| - 1 && n.q.generation == s.q.generation
    ensures s.lent <= n.lent && s.releasing == n.releasing
  {
    Q.FreeListSize(s.q.tickets, s.q.free);
    Q.AdmitKeeps(s.q);
    Q.RegionDecidesFate(s.q, Q.AdmitRegion);
    hide Q.Inv, Q.InUse, Q.AllFree;
    s1 := Apply(s, BeginEnqueue);
    s2 := Apply(s1, SinkAccepts);
    n := Apply(s2, EndEnqueue);
  }

  /** Lending on until the old buffer's ticket is out again. */
  lemma {:induction false} LendUntilReused(s: State, l: Lent) returns (steps: seq<Step>, end: State)
    requires Open(s) && l in s.lent + s.releasing && l.epoch < s.q.generation
    ensures IsRun(s, steps, end) && NoClear(steps) && end.staleConsumed
    decreases |s.q.free|
  {
    if s.q.tickets[l.slot].inUse {
      steps, end := ReleaseCountsIt(s, l);
    } else {
      assert s.q.free != [];
      var s1, s2, n := LendOne(s);
      hide Open, IsRun, Enabled, Apply;
      steps, end := LendUntilReused(n, l);
      PrependWithoutClear(s2, EndEnqueue, n, steps, end);
      steps := [EndEnqueue] + steps;
      PrependWithoutClear(s1, SinkAccepts, s2, steps, end);
      steps := [SinkAccepts] + steps;
      PrependWithoutClear(s, BeginEnqueue, s1, steps, end);
      steps := [BeginEnqueue] + steps;
    }
  }

  // ---------------------------------------------------------------- generations

  /** Buffers are never of a later generation than the queue, and during a Clear of an earlier one. */
  ghost predicate EpochsBounded(s: State) {
    && Q.GenerationsCurrent(s.q)
    && (forall i :: 0 <= i < |s.q.tickets| ==> s.q.tickets[i].generation <= s.q.generation)
    && (forall l :: Out(s, l) ==> l.epoch <= s.q.generation)
    && (s.op.Clearing? ==> forall l :: Out(s, l) ==> l.epoch < s.q.generation)
  }

  /** No region makes a ticket younger than the queue; a Clear leaves every ticket older. */
  lemma RegionBoundsGenerations(q: Q.Queue, r: Q.Region)
    requires forall i :: 0 <= i < |q.tickets| ==> q.tickets[i].generation <= q.generation
    ensures var n := Q.Apply(q, r);
            && q.generation <= n.generation && (r.ClearRegion? && !q.stopping ==> q.generation < n.generation)
            && forall i :: 0 <= i < |n.tickets| ==> n.tickets[i].generation <= n.generation
  {
    hide Q.InUse, Q.AllFree;
  }

  lemma EpochsQueue(s: State, step: Step)
    requires PhasesAgree(s) && EpochsBounded(s) && Q.Inv(s.q) && Enabled(s, step)
    ensures var n := Apply(s, step).q;
            && Q.GenerationsCurrent(n) && s.q.generation <= n.generation
            && (step.BeginClear? ==> s.q.generation < n.generation)
            && forall i :: 0 <= i < |n.tickets| ==> n.tickets[i].generation <= n.generation
  {
    StepRunsRegion(s, step);
    assert step.BeginClear? ==> !s.q.stopping;
    hide Apply, Enabled, Q.Apply, Q.Inv, PhasesAgree, Q.GenerationsCurrent;
    match RegionOf(s, step)
    case Some(r) =>
      Q.RegionDecidesFate(s.q, r);
      RegionBoundsGenerations(s.q, r);
    case None =>
  }

  lemma ClearingComesFromClear(s: State, step: Step)
    requires Enabled(s, step) && Apply(s, step).op.Clearing? && !step.BeginClear?
    ensures s.op.Clearing? && !step.SinkAccepts?
  {
    hide Q.Admit, Q.RollBack, Q.Release, Q.Clear, Q.FinishShutdown;
    if IsWorker(step) {
      WorkerLeavesTickets(s, step);
      hide Apply, Enabled;
    } else if IsControl(step) {
      ControlLeavesTickets(s, step);
      hide Apply, Enabled;
    }
  }

  lemma EpochsStep(s: State, step: Step)
    requires PhasesAgree(s) && EpochsBounded(s) && Q.Inv(s.q) && TicketsCovered(s) && Enabled(s, step)
    ensures EpochsBounded(Apply(s, step))
  {
    EpochsQueue(s, step);
    AcceptingMeansEnqueueing(s, step);
    assert step.SinkAccepts? ==> s.q.tickets[s.op.slot].generation <= s.q.generation;
    hide Apply, Enabled, Q.Inv, PhasesAgree, TicketsCovered, Q.GenerationsCurrent;
    var n := Apply(s, step);
    forall l | Out(n, l)
      ensures l.epoch <= n.q.generation && (n.op.Clearing? ==> l.epoch < n.q.generation)
    {
      OnlyTheSinkBorrows(s, step, l);
      if n.op.Clearing? && !step.BeginClear? {
        ClearingComesFromClear(s, step);
      }
      assert step.BeginClear? ==> !step.SinkAccepts?;
    }
  }

  lemma {:induction false} EpochsRun(s: State, steps: seq<Step>, end: State)
    requires Safe(s) && EpochsBounded(s) && IsRun(s, steps, end)
    ensures Safe(end) && EpochsBounded(end)
    decreases |steps|
  {
    if steps != [] {
      assert PhasesAgree(s) && Q.Inv(s.q) && TicketsCovered(s);
      hide Safe, EpochsBounded, Enabled, Apply, Q.Inv, PhasesAgree, TicketsCovered;
      StepKeepsSafe(s, steps[0]);
      EpochsStep(s, steps[0]);
      EpochsRun(Apply(s, steps[0]), steps[1..], end);
    }
  }

  lemma StartIsBounded(capacity: nat)
    ensures EpochsBounded(Start(capacity))
  {
    var s := Start(capacity);
    assert forall i :: 0 <= i < |s.q.tickets| ==> s.q.tickets[i] == Q.IDLE;
    hide Q.AllFree;
  }

  lemma ReachableEpochs(capacity: nat, steps: seq<Step>, s: State)
    requires IsRun(Start(capacity), steps, s)
    ensures Safe(s) && EpochsBounded(s)
  {
    hide Safe, EpochsBounded, IsRun, Start;
    StartIsSafe(capacity);
    StartIsBounded(capacity);
    EpochsRun(Start(capacity), steps, s);
  }

  // ---------------------------------------------------------------- main result

  /** A Clear returns with no operation under way, and whatever it left out is old. */
  lemma ClearReturns(during: State, ok: bool)
    requires Safe(during) && EpochsBounded(during) && Enabled(during, EndClear(ok))
    ensures var s := Apply(during, EndClear(ok)).(staleConsumed := false);
            && s.op.NoOperation? && (s.q.stopping || Open(s)) && PhasesAgree(s) && WorkerAgrees(s)
            && forall l :: Out(s, l) ==> l.epoch < s.q.generation
  {
    PhasesStep(during, EndClear(ok));
    hide TicketsOwned, Q.Inv, Q.GenerationsCurrent;
  }

  lemma LeftOutIsEnough(s: State)
    requires Open(s) && s.lent + s.releasing != {}
    requires forall l :: Out(s, l) ==> l.epoch < s.q.generation
    ensures exists steps, end :: IsRun(s, steps, end) && NoClear(steps) && end.staleConsumed
  {
    hide Open;
    var l :| l in s.lent + s.releasing;
    var steps, end := LendUntilReused(s, l);
  }

  lemma NothingLeftOut(s: State)
    requires PhasesAgree(s) && WorkerAgrees(s)
    requires !s.staleConsumed && s.op.NoOperation? && (s.q.stopping || s.lent + s.releasing == {})
    ensures !exists steps, end :: IsRun(s, steps, end) && NoClear(steps) && end.staleConsumed
  {
    assert AllCurrent(s);
    hide AllCurrent, IsRun, NoClear, PhasesAgree, WorkerAgrees;
    forall steps, end | IsRun(s, steps, end) && NoClear(steps)
      ensures !end.staleConsumed
    {
      CurrentRun(s, steps, end);
    }
  }

  /**
   * After a Clear has returned, and until the next one, an old buffer can be counted as consumed if and
   * only if that Clear left one with the sink, or in a release callback, and no shutdown has begun.
   */
  lemma ClearIsFinalIff(capacity: nat, steps: seq<Step>, during: State, ok: bool)
    requires IsRun(Start(capacity), steps, during) && Enabled(during, EndClear(ok))
    ensures var s := Apply(during, EndClear(ok));
            CanCountOldBuffer(s) <==> s.lent + s.releasing != {} && !s.q.stopping
  {
    ReachableEpochs(capacity, steps, during);
    ClearReturns(during, ok);
    hide IsRun, NoClear, Enabled, Apply, Start, Safe, EpochsBounded, Open, PhasesAgree, WorkerAgrees;
    var s := Apply(during, EndClear(ok)).(staleConsumed := false);
    if s.lent + s.releasing != {} && !s.q.stopping {
      LeftOutIsEnough(s);
    } else {
      NothingLeftOut(s);
    }
  }
}
