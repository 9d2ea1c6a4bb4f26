/**
 * Whole runs of the OpenSL queue with a sink that keeps its contract: every accepted buffer is
 * released exactly once, a refused one never, and a shutdown returns only when nothing is borrowed.
 * A step is one region under a mutex, one call into the sink, or one move of the callback thread.
 */
module OpenSlRuns {
  import opened Outcomes
  import opened OpenSlQueue

  /** A buffer in the sink's hands: its number, its ticket, and the generation it was enqueued in. */
  datatype Lent = Lent(id: nat, slot: nat, epoch: nat)

  datatype Stage = Calling | Accepted | Refused

  /** Who holds the sink-operation mutex, and how far it has come. */
  datatype Operation = NoOperation | Enqueueing(slot: nat, id: nat, stage: Stage) | Clearing | Tuning | Closing

  /** The callback thread: about to look at its queue, asleep on the condition, or busy with a job. */
  datatype Worker = Checking | Asleep | HasJob | InCallback | Exited

  /** Progress of the one shutdown; `byWorker` when a guest callback asked for it. */
  datatype Shutter =
    | Running
    | Announcing(byWorker: bool)
    | Stopping(byWorker: bool)
    | InSink(byWorker: bool)
    | Joining(byWorker: bool)
    | Finishing(byWorker: bool)
    | Done(byWorker: bool)

  datatype State = State(
    q: Queue,
    op: Operation,
    lent: set<Lent>,       // accepted, not yet released
    releasing: set<Lent>,  // release callbacks that have read the ticket but not taken the mutex
    sinkShut: bool,
    worker: Worker,
    notifying: nat,        // release callbacks that have queued a job and not yet notified
    shutter: Shutter,
    retained: bool,        // a Clear returned while buffers were still borrowed
    joinFailed: bool,
    staleConsumed: bool,   // a buffer from before a Clear or Shutdown was counted consumed after it
    lateSinkCall: bool,    // the sink was called after its Shutdown
    lateCallback: bool,    // a guest callback started after the shutdown was complete
    job: int,              // the job the callback thread took last
    called: seq<int>)      // the guest callbacks it has started, in order

  function Start(capacity: nat): State {
    State(Fresh(capacity), NoOperation, {}, {}, false, Checking, 0, Running, false, false, false, false, false,
          0, [])
  }

  datatype Step =
    | BeginEnqueue
    | SinkAccepts
    | SinkRefuses
    | EndEnqueue
    | BeginRelease(buffer: Lent)
    | EndRelease(released: Lent, bytes: nat)
    | BeginClear
    | EndClear(ok: bool)
    | BeginTune
    | EndTune
    | Register(callback: int)
    | NotifyRelease
    | BeginShutdown(byWorker: bool)
    | NotifyShutdown
    | CallSinkShutdown
    | SinkShutdownReturns
    | Join
    | JoinFails
    | Finish
    | Sleep
    | SpuriousWake
    | PopJob
    | StartCallback
    | ReturnCallback
    | ExitWorker

  predicate Enabled(s: State, step: Step) {
    match step
    case BeginEnqueue => s.op.NoOperation? && Admission'(s.q).Admitted? && Admission'(s.q).slot < |s.q.tickets|
    case SinkAccepts => s.op.Enqueueing? && s.op.stage == Calling && s.op.slot < |s.q.tickets|
    case SinkRefuses => s.op.Enqueueing? && s.op.stage == Calling
    case EndEnqueue => s.op.Enqueueing? && s.op.stage != Calling
    case BeginRelease(l) => l in s.lent && l.slot < |s.q.tickets|
    case EndRelease(l, _) => l in s.releasing
    case BeginClear => s.op.NoOperation? && !s.q.stopping
    case EndClear(ok) => s.op.Clearing? && (ok ==> s.lent == {} && s.releasing == {})
    case BeginTune => s.op.NoOperation? && !s.q.stopping
    case EndTune => s.op.Tuning?
    case Register(_) => true
    case BeginShutdown(byWorker) => s.shutter.Running? && (byWorker ==> s.worker == InCallback)
    case NotifyRelease => s.notifying > 0
    case NotifyShutdown => s.shutter.Announcing?
    case CallSinkShutdown => s.shutter.Stopping? && s.op.NoOperation?
    case SinkShutdownReturns => s.op.Closing? && s.shutter.InSink? && s.lent == {} && s.releasing == {}
    case Join => s.shutter.Joining? && (s.shutter.byWorker || s.worker == Exited)
    case JoinFails => s.shutter.Joining?
    case Finish => s.shutter.Finishing?
    case Sleep => s.worker == Checking && !s.q.stopping && s.q.jobs == []
    case SpuriousWake => s.worker == Asleep
    case PopJob => s.worker == Checking && !s.q.stopping && s.q.jobs != []
    case StartCallback => s.worker == HasJob
    case ReturnCallback => s.worker == InCallback && (s.shutter.Running? || s.shutter.Done? || !s.shutter.byWorker)
    case ExitWorker => s.worker == Checking && s.q.stopping
  }

  /** A notification reaches the callback thread if it sleeps. */
  function Wake(worker: Worker): Worker {
    if worker == Asleep then Checking else worker
  }

  function Apply(s: State, step: Step): State
    requires Enabled(s, step)
  {
    match step
    case BeginEnqueue =>
      var a := Admission'(s.q);
      s.(q := Admit(s.q), op := Enqueueing(a.slot, a.id, Calling))
    case SinkAccepts =>
      var l := Lent(s.op.id, s.op.slot, s.q.tickets[s.op.slot].generation);
      s.(lent := s.lent + {l}, op := s.op.(stage := Accepted), lateSinkCall := s.lateSinkCall || s.sinkShut)
    case SinkRefuses => s.(op := s.op.(stage := Refused), lateSinkCall := s.lateSinkCall || s.sinkShut)
    case EndEnqueue =>
      s.(q := if s.op.stage == Refused then RollBack(s.q, s.op.slot, s.op.id) else s.q, op := NoOperation)
    case BeginRelease(l) =>
      s.(lent := s.lent - {l}, releasing := if s.q.tickets[l.slot].linked then s.releasing + {l} else s.releasing)
    case EndRelease(l, bytes) =>
      var q' := Release(s.q, l.slot, bytes);
      s.(q := q', releasing := s.releasing - {l}, notifying := s.notifying + (if |q'.jobs| > |s.q.jobs| then 1 else 0),
         staleConsumed := s.staleConsumed || (q'.consumed > s.q.consumed && l.epoch < s.q.generation))
    case NotifyRelease => s.(notifying := s.notifying - 1, worker := Wake(s.worker))
    case BeginClear => s.(q := Clear(s.q), op := Clearing, lateSinkCall := s.lateSinkCall || s.sinkShut)
    case EndClear(_) => s.(op := NoOperation, retained := s.retained || s.lent != {} || s.releasing != {})
    case BeginTune => s.(op := Tuning, lateSinkCall := s.lateSinkCall || s.sinkShut)
    case EndTune => s.(op := NoOperation)
    case Register(callback) => s.(q := if s.q.stopping then s.q else s.q.(callback := callback))
    case BeginShutdown(byWorker) => s.(q := OpenSlQueue.BeginShutdown(s.q), shutter := Announcing(byWorker))
    case NotifyShutdown => s.(shutter := Stopping(s.shutter.byWorker), worker := Wake(s.worker))
    case CallSinkShutdown => s.(op := Closing, shutter := InSink(s.shutter.byWorker), sinkShut := true)
    case SinkShutdownReturns => s.(op := NoOperation, shutter := Joining(s.shutter.byWorker))
    case Join => s.(shutter := Finishing(s.shutter.byWorker))
    case JoinFails => s.(shutter := Finishing(s.shutter.byWorker), joinFailed := true)
    case Finish => s.(q := FinishShutdown(s.q), shutter := Done(s.shutter.byWorker))
    case Sleep => s.(worker := Asleep)
    case SpuriousWake => s.(worker := Checking)
    case PopJob => s.(q := s.q.(jobs := s.q.jobs[1..]), job := s.q.jobs[0], worker := HasJob)
    case StartCallback =>
      s.(worker := InCallback, called := s.called + [s.job], lateCallback := s.lateCallback || s.q.complete)
    case ReturnCallback => s.(worker := Checking)
    case ExitWorker => s.(q := s.q.(jobs := []), worker := Exited)
  }

  predicate IsWorker(step: Step) {
    || step.Sleep? || step.SpuriousWake? || step.PopJob? || step.StartCallback? || step.ReturnCallback?
    || step.ExitWorker?
  }

  predicate IsControl(step: Step) {
    || step.NotifyRelease? || step.Register? || step.BeginShutdown? || step.NotifyShutdown? || step.Join?
    || step.JoinFails?
  }

  /** Steps on the way of a buffer to the sink and back. */
  predicate IsTransfer(step: Step) {
    || step.BeginEnqueue? || step.SinkAccepts? || step.SinkRefuses? || step.EndEnqueue? || step.BeginRelease?
    || step.EndRelease?
  }

  /** Steps that begin or end some other operation on the sink, and the last of the shutdown. */
  predicate IsOperation(step: Step) {
    !IsWorker(step) && !IsControl(step) && !IsTransfer(step)
  }

  // ---------------------------------------------------------------- invariants

  /** The shutdown phases against the flags, the sink and the operation mutex. */
  ghost predicate PhasesAgree(s: State) {
    && (s.q.stopping <==> !s.shutter.Running?)
    && (s.q.complete <==> s.shutter.Done?)
    && (s.sinkShut <==> s.shutter.InSink? || s.shutter.Joining? || s.shutter.Finishing? || s.shutter.Done?)
    && (s.op.Closing? <==> s.shutter.InSink?)
    && (s.sinkShut ==> s.op.NoOperation? || s.op.Closing?)
    && (s.sinkShut && !s.shutter.InSink? ==> s.lent == {} && s.releasing == {})
    && !s.lateSinkCall
  }

  /** Where the callback thread can be while a shutdown runs. */
  ghost predicate WorkerAgrees(s: State) {
    && (!s.shutter.Running? && !s.shutter.Done? && s.shutter.byWorker ==> s.worker == InCallback)
    && (!s.joinFailed && s.shutter.Finishing? && !s.shutter.byWorker ==> s.worker == Exited)
    && (!s.joinFailed && s.shutter.Done? ==> s.worker != HasJob)
    && (!s.joinFailed ==> !s.lateCallback)
  }

  /** A callback thread that sleeps although it has something to do has a notification on its way. */
  ghost predicate NoLostWakeup(s: State) {
    s.worker == Asleep ==> if s.q.stopping then s.shutter.Announcing? else s.q.jobs != [] ==> s.notifying > 0
  }

  ghost predicate NoneInUse(q: Queue) {
    forall i :: 0 <= i < |q.tickets| ==> !q.tickets[i].inUse
  }

  /** The ticket is out with a borrowed buffer, or with the Enqueue that is under way. */
  ghost predicate Covered(s: State, slot: nat)
    requires slot < |s.q.tickets|
  {
    || (exists l :: l in s.lent + s.releasing && l.slot == slot && l.id == s.q.tickets[slot].id)
    || (s.op.Enqueueing? && s.op.stage != Accepted && s.op.slot == slot)
  }

  /** Every ticket in use is on its way back, so no ticket is ever taken back by force. */
  ghost predicate TicketsCovered(s: State) {
    && s.q.lost == 0
    && (forall l :: l in s.lent + s.releasing ==> l.slot < |s.q.tickets| && l.id < s.q.nextId)
    && (s.op.Enqueueing? ==> s.op.slot < |s.q.tickets| && s.op.id < s.q.nextId)
    && (s.op.Enqueueing? && s.op.stage != Accepted ==>
          && (s.q.tickets[s.op.slot].inUse ==> s.q.tickets[s.op.slot].id == s.op.id)
          && forall l :: l in s.lent + s.releasing ==> l.id != s.op.id)
    && (forall i :: 0 <= i < |s.q.tickets| && s.q.tickets[i].inUse ==> Covered(s, i))
    && (forall i :: 0 <= i < |s.q.tickets| ==> s.q.tickets[i].id < s.q.nextId || !s.q.tickets[i].inUse)
  }

  /** A borrowed buffer owns its ticket, except while a Clear waits for the sink to give it back. */
  ghost predicate OwnsTicket(s: State, l: Lent) {
    && l.slot < |s.q.tickets|
    && (s.q.tickets[l.slot] == Ticket(true, l.id, l.epoch, true) || (s.op.Clearing? && NoneInUse(s.q)))
  }

  /** Tickets and borrowed buffers belong together one to one. */
  ghost predicate TicketsOwned(s: State) {
    && s.lent !! s.releasing
    && (forall l :: l in s.lent + s.releasing ==> OwnsTicket(s, l))
    && (s.op.Enqueueing? && s.op.stage != Accepted ==>
          s.op.slot < |s.q.tickets| && s.q.tickets[s.op.slot].inUse && s.q.tickets[s.op.slot].linked)
    && !s.staleConsumed
  }

  /** What holds in every run; ownership is lost only when a Clear returns with buffers still borrowed. */
  ghost predicate Safe(s: State) {
    && PhasesAgree(s) && WorkerAgrees(s) && NoLostWakeup(s) && OpenSlQueue.Inv(s.q)
    && TicketsCovered(s) && (!s.retained ==> TicketsOwned(s))
  }

  // ---------------------------------------------------------------- phases and books

  lemma PhasesWorker(s: State, step: Step)
    requires PhasesAgree(s) && WorkerAgrees(s) && Enabled(s, step) && IsWorker(step)
    ensures PhasesAgree(Apply(s, step)) && WorkerAgrees(Apply(s, step))
  {
    hide AllFree, InUse;
  }

  lemma PhasesControl(s: State, step: Step)
    requires PhasesAgree(s) && WorkerAgrees(s) && Enabled(s, step) && IsControl(step)
    ensures PhasesAgree(Apply(s, step)) && WorkerAgrees(Apply(s, step))
  {
    hide AllFree, InUse;
  }

  lemma PhasesTransfer(s: State, step: Step)
    requires PhasesAgree(s) && WorkerAgrees(s) && Enabled(s, step) && IsTransfer(step)
    ensures PhasesAgree(Apply(s, step)) && WorkerAgrees(Apply(s, step))
  {
    hide AllFree, InUse;
  }

  lemma PhasesOperation(s: State, step: Step)
    requires PhasesAgree(s) && WorkerAgrees(s) && Enabled(s, step) && IsOperation(step)
    ensures PhasesAgree(Apply(s, step)) && WorkerAgrees(Apply(s, step))
  {
    hide AllFree, InUse;
  }

  lemma PhasesStep(s: State, step: Step)
    requires PhasesAgree(s) && WorkerAgrees(s) && Enabled(s, step)
    ensures PhasesAgree(Apply(s, step)) && WorkerAgrees(Apply(s, step))
  {
    hide Enabled, Apply, PhasesAgree, WorkerAgrees;
    if IsWorker(step) {
      PhasesWorker(s, step);
    } else if IsControl(step) {
      PhasesControl(s, step);
    } else if IsTransfer(step) {
      PhasesTransfer(s, step);
    } else {
      PhasesOperation(s, step);
    }
  }

  lemma WakeupWorker(s: State, step: Step)
    requires PhasesAgree(s) && NoLostWakeup(s) && Enabled(s, step) && IsWorker(step)
    ensures NoLostWakeup(Apply(s, step))
  {
    hide AllFree, InUse;
  }

  lemma WakeupControl(s: State, step: Step)
    requires PhasesAgree(s) && NoLostWakeup(s) && Enabled(s, step) && IsControl(step)
    ensures NoLostWakeup(Apply(s, step))
  {
    hide AllFree, InUse;
  }

  lemma WakeupTransfer(s: State, step: Step)
    requires PhasesAgree(s) && NoLostWakeup(s) && Enabled(s, step) && IsTransfer(step)
    ensures NoLostWakeup(Apply(s, step))
  {
    hide AllFree, InUse;
  }

  lemma WakeupOperation(s: State, step: Step)
    requires PhasesAgree(s) && NoLostWakeup(s) && Enabled(s, step) && IsOperation(step)
    ensures NoLostWakeup(Apply(s, step))
  {
    hide AllFree, InUse;
  }

  lemma WakeupStep(s: State, step: Step)
    requires PhasesAgree(s) && NoLostWakeup(s) && Enabled(s, step)
    ensures NoLostWakeup(Apply(s, step))
  {
    hide Enabled, Apply, PhasesAgree, NoLostWakeup;
    if IsWorker(step) {
      WakeupWorker(s, step);
    } else if IsControl(step) {
      WakeupControl(s, step);
    } else if IsTransfer(step) {
      WakeupTransfer(s, step);
    } else {
      WakeupOperation(s, step);
    }
  }

  /** The region of the queue that a step runs, if any. */
  function RegionOf(s: State, step: Step): Option<Region> {
    match step
    case BeginEnqueue => Some(AdmitRegion)
    case EndEnqueue =>
      if s.op.Enqueueing? && s.op.stage == Refused then Some(RollBackRegion(s.op.slot, s.op.id)) else None
    case EndRelease(l, bytes) => Some(ReleaseRegion(l.slot, bytes))
    case BeginClear => Some(ClearRegion)
    case Register(callback) => Some(RegisterRegion(callback))
    case BeginShutdown(_) => Some(BeginShutdownRegion)
    case Finish => Some(FinishShutdownRegion)
    case PopJob => Some(PopJobRegion)
    case ExitWorker => Some(PopJobRegion)
    case _ => None
  }

  /** The queue after a step is the queue after its region. */
  ghost predicate RunsRegion(s: State, step: Step, n: State) {
    n.q == match RegionOf(s, step)
           case Some(r) => OpenSlQueue.Apply(s.q, r)
           case None => s.q
  }

  lemma TransferRunsRegion(s: State, step: Step)
    requires Enabled(s, step) && IsTransfer(step)
    ensures RunsRegion(s, step, Apply(s, step))
  {
    hide Admit, RollBack, Release, Clear, OpenSlQueue.BeginShutdown, FinishShutdown, Admission';
  }

  lemma WorkerRunsRegion(s: State, step: Step)
    requires Enabled(s, step) && IsWorker(step)
    ensures RunsRegion(s, step, Apply(s, step))
  {
    hide Admit, RollBack, Release, Clear, OpenSlQueue.BeginShutdown, FinishShutdown;
  }

  lemma ControlRunsRegion(s: State, step: Step)
    requires PhasesAgree(s) && Enabled(s, step) && (IsControl(step) || IsOperation(step))
    ensures RunsRegion(s, step, Apply(s, step))
  {
    hide Admit, RollBack, Release, Clear, OpenSlQueue.BeginShutdown, FinishShutdown;
  }

  /** The queue changes by whole regions only. */
  lemma StepRunsRegion(s: State, step: Step)
    requires PhasesAgree(s) && Enabled(s, step)
    ensures RunsRegion(s, step, Apply(s, step))
  {
    hide Enabled, Apply, PhasesAgree, RunsRegion;
    if IsTransfer(step) {
      TransferRunsRegion(s, step);
    } else if IsWorker(step) {
      WorkerRunsRegion(s, step);
    } else {
      ControlRunsRegion(s, step);
    }
  }

  lemma QueueStep(s: State, step: Step)
    requires PhasesAgree(s) && OpenSlQueue.Inv(s.q) && Enabled(s, step)
    ensures OpenSlQueue.Inv(Apply(s, step).q)
  {
    hide Apply, Enabled, OpenSlQueue.Apply, OpenSlQueue.Inv, PhasesAgree;
    StepRunsRegion(s, step);
    if RegionOf(s, step).Some? {
      ApplyKeeps(s.q, RegionOf(s, step).value);
    }
  }

  // ---------------------------------------------------------------- cover

  /** The buffer that covers a ticket in use, unless the Enqueue under way does. */
  lemma Holder(s: State, slot: nat) returns (l: Lent)
    requires slot < |s.q.tickets| && Covered(s, slot)
    requires !(s.op.Enqueueing? && s.op.stage != Accepted && s.op.slot == slot)
    ensures l in s.lent + s.releasing && l.slot == slot && l.id == s.q.tickets[slot].id
  {
    l :| l in s.lent + s.releasing && l.slot == slot && l.id == s.q.tickets[slot].id;
  }

  /** Nothing that the cover depends on has changed, or only an operation without a ticket. */
  lemma SameCover(s: State, n: State)
    requires TicketsCovered(s) && n.q.tickets == s.q.tickets && n.q.nextId == s.q.nextId && n.q.lost == 0
    requires n.lent == s.lent && n.releasing == s.releasing
    requires n.op == s.op || (!s.op.Enqueueing? && !n.op.Enqueueing?)
    ensures TicketsCovered(n)
  {
    forall i | 0 <= i < |n.q.tickets| && n.q.tickets[i].inUse
      ensures Covered(n, i)
    {
      assert Covered(s, i);
    }
  }

  lemma AdmitCover(s: State)
    requires TicketsCovered(s) && OpenSlQueue.Inv(s.q) && Enabled(s, BeginEnqueue)
    ensures TicketsCovered(Apply(s, BeginEnqueue))
  {
    AdmitKeeps(s.q);
    hide OpenSlQueue.Inv;
    var n := Apply(s, BeginEnqueue);
    forall i | 0 <= i < |n.q.tickets| && n.q.tickets[i].inUse
      ensures Covered(n, i)
    {
      assert i != n.op.slot ==> Covered(s, i);
    }
  }

  lemma AnswerCover(s: State, step: Step)
    requires TicketsCovered(s) && Enabled(s, step) && (step.SinkAccepts? || step.SinkRefuses?)
    ensures TicketsCovered(Apply(s, step))
  {
    var n := Apply(s, step);
    forall i | 0 <= i < |n.q.tickets| && n.q.tickets[i].inUse
      ensures Covered(n, i)
    {
      assert Covered(s, i);
      if step.SinkAccepts? {
        if i == s.op.slot {
          assert Lent(s.op.id, i, s.q.tickets[i].generation) in n.lent + n.releasing;
        } else {
          var l := Holder(s, i);
          assert l in n.lent + n.releasing;
        }
      }
    }
  }

  lemma EndEnqueueCover(s: State)
    requires TicketsCovered(s) && Enabled(s, EndEnqueue)
    ensures TicketsCovered(Apply(s, EndEnqueue))
  {
    var n := Apply(s, EndEnqueue);
    forall i | 0 <= i < |n.q.tickets| && n.q.tickets[i].inUse
      ensures Covered(n, i)
    {
      assert Covered(s, i);
      var l := Holder(s, i);
      assert l in n.lent + n.releasing;
    }
  }

  /** A release that leaves its ticket free uncovers no other. */
  lemma ReleaseCover(s: State, n: State, l0: Lent)
    requires TicketsCovered(s) && l0 in s.lent + s.releasing && n.op == s.op && n.q.lost == 0
    requires s.lent + s.releasing - {l0} <= n.lent + n.releasing <= s.lent + s.releasing
    requires |n.q.tickets| == |s.q.tickets| && n.q.nextId == s.q.nextId
    requires forall i :: 0 <= i < |s.q.tickets| && i != l0.slot ==> n.q.tickets[i] == s.q.tickets[i]
    requires n.q.tickets[l0.slot].inUse ==> n.q.tickets == s.q.tickets && l0 in n.lent + n.releasing
    ensures TicketsCovered(n)
  {
    forall i | 0 <= i < |n.q.tickets| && n.q.tickets[i].inUse
      ensures Covered(n, i)
    {
      assert Covered(s, i);
      if !(s.op.Enqueueing? && s.op.stage != Accepted && s.op.slot == i) {
        var l := Holder(s, i);
        assert l in n.lent + n.releasing;
      }
    }
  }

  lemma BeginReleaseCover(s: State, l0: Lent)
    requires TicketsCovered(s) && Enabled(s, BeginRelease(l0))
    requires forall i :: 0 <= i < |s.q.tickets| ==> s.q.tickets[i].linked == s.q.tickets[i].inUse
    ensures TicketsCovered(Apply(s, BeginRelease(l0)))
  {
    ReleaseCover(s, Apply(s, BeginRelease(l0)), l0);
  }

  lemma EndReleaseCover(s: State, l0: Lent, bytes: nat)
    requires TicketsCovered(s) && Enabled(s, EndRelease(l0, bytes))
    ensures TicketsCovered(Apply(s, EndRelease(l0, bytes)))
  {
    var n := Apply(s, EndRelease(l0, bytes));
    assert n.lent + n.releasing >= s.lent + s.releasing - {l0};
    ReleaseCover(s, n, l0);
  }

  lemma BeginClearCover(s: State)
    requires TicketsCovered(s) && Enabled(s, BeginClear)
    ensures TicketsCovered(Apply(s, BeginClear)) && NoneInUse(Apply(s, BeginClear).q)
  {
    hide AllFree, InUse;
  }

  /** The last step of the shutdown finds every ticket back. */
  lemma FinishCover(s: State)
    requires PhasesAgree(s) && TicketsCovered(s) && OpenSlQueue.Inv(s.q)
    requires s.sinkShut && !s.shutter.InSink?
    ensures NoneInUse(s.q) && s.q.pending == 0
    ensures Enabled(s, Finish) ==> TicketsCovered(Apply(s, Finish))
  {
    forall i | 0 <= i < |s.q.tickets|
      ensures !s.q.tickets[i].inUse
    {
      assert s.q.tickets[i].inUse ==> Covered(s, i);
    }
    InUseNone(s.q.tickets);
    hide InUse;
    if Enabled(s, Finish) {
      SameCover(s, Apply(s, Finish));
    }
  }

  /** Only the queue's jobs and flags, the callback thread and the shutdown have moved. */
  ghost predicate TicketsUntouched(s: State, n: State) {
    && n.q == s.q.(jobs := n.q.jobs, callback := n.q.callback, stopping := n.q.stopping, generation := n.q.generation)
    && n == s.(q := n.q, worker := n.worker, notifying := n.notifying, shutter := n.shutter,
               joinFailed := n.joinFailed, lateCallback := n.lateCallback, job := n.job, called := n.called)
  }

  lemma WorkerLeavesTickets(s: State, step: Step)
    requires Enabled(s, step) && IsWorker(step)
    ensures TicketsUntouched(s, Apply(s, step))
  {
    hide Admit, RollBack, Release, Clear, FinishShutdown, Admission';
  }

  lemma ControlLeavesTickets(s: State, step: Step)
    requires Enabled(s, step) && IsControl(step)
    ensures TicketsUntouched(s, Apply(s, step))
  {
    hide Admit, RollBack, Release, Clear, FinishShutdown, Admission';
  }

  lemma TransferCover(s: State, step: Step)
    requires PhasesAgree(s) && TicketsCovered(s) && OpenSlQueue.Inv(s.q) && Enabled(s, step) && IsTransfer(step)
    ensures TicketsCovered(Apply(s, step))
  {
    assert s.q.lost == 0;
    assert forall i :: 0 <= i < |s.q.tickets| ==> s.q.tickets[i].linked == s.q.tickets[i].inUse;
    hide Apply, Enabled, TicketsCovered, OpenSlQueue.Inv, PhasesAgree;
    match step
    case BeginEnqueue => AdmitCover(s);
    case SinkAccepts => AnswerCover(s, step);
    case SinkRefuses => AnswerCover(s, step);
    case EndEnqueue => EndEnqueueCover(s);
    case BeginRelease(l) => BeginReleaseCover(s, l);
    case EndRelease(l, bytes) => EndReleaseCover(s, l, bytes);
  }

  lemma OperationCover(s: State, step: Step)
    requires PhasesAgree(s) && TicketsCovered(s) && OpenSlQueue.Inv(s.q) && Enabled(s, step) && IsOperation(step)
    ensures TicketsCovered(Apply(s, step))
  {
    if step.BeginClear? {
      BeginClearCover(s);
    } else if step.Finish? {
      FinishCover(s);
    } else {
      assert s.q.lost == 0;
      hide TicketsCovered, OpenSlQueue.Inv, Clear, FinishShutdown;
      SameCover(s, Apply(s, step));
    }
  }

  lemma UntouchedCover(s: State, n: State)
    requires TicketsCovered(s) && TicketsUntouched(s, n)
    ensures TicketsCovered(n)
  {
    assert s.q.lost == 0;
    hide TicketsCovered;
    SameCover(s, n);
  }

  lemma CoverStep(s: State, step: Step)
    requires PhasesAgree(s) && TicketsCovered(s) && OpenSlQueue.Inv(s.q) && Enabled(s, step)
    ensures TicketsCovered(Apply(s, step))
  {
    hide Apply, Enabled, TicketsCovered, OpenSlQueue.Inv, PhasesAgree, TicketsUntouched;
    if IsTransfer(step) {
      TransferCover(s, step);
    } else if IsOperation(step) {
      OperationCover(s, step);
    } else if IsWorker(step) {
      WorkerLeavesTickets(s, step);
      UntouchedCover(s, Apply(s, step));
    } else {
      ControlLeavesTickets(s, step);
      UntouchedCover(s, Apply(s, step));
    }
  }

  // ---------------------------------------------------------------- ownership

  /** Tickets, buffers and the operation's own ticket are as they were. */
  lemma SameOwners(s: State, n: State)
    requires TicketsOwned(s) && n.q.tickets == s.q.tickets && n.staleConsumed == s.staleConsumed
    requires n.lent == s.lent && n.releasing == s.releasing
    requires n.op == s.op || (!n.op.Enqueueing? && (s.op.Clearing? ==> s.lent + s.releasing == {}))
    ensures TicketsOwned(n)
  {
    forall l | l in n.lent + n.releasing
      ensures OwnsTicket(n, l)
    {
      assert OwnsTicket(s, l);
    }
  }

  lemma EnqueueOwners(s: State, step: Step)
    requires TicketsCovered(s) && TicketsOwned(s) && OpenSlQueue.Inv(s.q) && Enabled(s, step)
    requires step.BeginEnqueue? || step.SinkAccepts? || step.SinkRefuses? || step.EndEnqueue?
    ensures TicketsOwned(Apply(s, step))
  {
    if step.BeginEnqueue? {
      AdmitKeeps(s.q);
    }
    hide OpenSlQueue.Inv, Covered;
    var n := Apply(s, step);
    forall l | l in n.lent + n.releasing
      ensures OwnsTicket(n, l)
    {
      assert l in s.lent + s.releasing ==> OwnsTicket(s, l);
    }
  }

  lemma ReleaseOwners(s: State, step: Step)
    requires TicketsCovered(s) && TicketsOwned(s) && Enabled(s, step) && (step.BeginRelease? || step.EndRelease?)
    ensures TicketsOwned(Apply(s, step))
  {
    hide Covered;
    var n, l0 := Apply(s, step), if step.BeginRelease? then step.buffer else step.released;
    assert l0 in s.lent + s.releasing && OwnsTicket(s, l0);
    forall l | l in n.lent + n.releasing
      ensures OwnsTicket(n, l)
    {
      assert l in s.lent + s.releasing;
      assert OwnsTicket(s, l);
    }
  }

  lemma ClearOwners(s: State)
    requires TicketsCovered(s) && TicketsOwned(s) && Enabled(s, BeginClear)
    ensures TicketsOwned(Apply(s, BeginClear))
  {
    BeginClearCover(s);
    hide AllFree, InUse, Covered;
    var n := Apply(s, BeginClear);
    forall l | l in n.lent + n.releasing
      ensures OwnsTicket(n, l)
    {
      assert OwnsTicket(s, l);
    }
  }

  lemma OperationOwners(s: State, step: Step)
    requires PhasesAgree(s) && TicketsCovered(s) && TicketsOwned(s) && OpenSlQueue.Inv(s.q)
    requires Enabled(s, step) && IsOperation(step) && !Apply(s, step).retained
    ensures TicketsOwned(Apply(s, step))
  {
    if step.BeginClear? {
      ClearOwners(s);
    } else if step.Finish? {
      FinishOwners(s);
    } else {
      hide TicketsCovered, TicketsOwned, OpenSlQueue.Inv, Clear, FinishShutdown;
      SameOwners(s, Apply(s, step));
    }
  }

  lemma OwnersStep(s: State, step: Step)
    requires Safe(s) && !s.retained && Enabled(s, step) && !Apply(s, step).retained
    ensures TicketsOwned(Apply(s, step))
  {
    hide Apply, Enabled, PhasesAgree, WorkerAgrees, NoLostWakeup, TicketsCovered, TicketsOwned, OpenSlQueue.Inv;
    if IsTransfer(step) {
      if step.BeginRelease? || step.EndRelease? {
        ReleaseOwners(s, step);
      } else {
        EnqueueOwners(s, step);
      }
    } else if IsOperation(step) {
      OperationOwners(s, step);
    } else {
      if IsWorker(step) {
        WorkerLeavesTickets(s, step);
      } else {
        ControlLeavesTickets(s, step);
      }
      SameOwners(s, Apply(s, step));
    }
  }

  lemma FinishOwners(s: State)
    requires PhasesAgree(s) && TicketsCovered(s) && TicketsOwned(s) && OpenSlQueue.Inv(s.q) && Enabled(s, Finish)
    ensures TicketsOwned(Apply(s, Finish))
  {
    FinishCover(s);
    hide TicketsOwned, TicketsCovered, OpenSlQueue.Inv;
    SameOwners(s, Apply(s, Finish));
  }

  lemma StepKeepsSafe(s: State, step: Step)
    requires Safe(s) && Enabled(s, step)
    ensures Safe(Apply(s, step))
  {
    PhasesStep(s, step);
    WakeupStep(s, step);
    QueueStep(s, step);
    CoverStep(s, step);
    if !Apply(s, step).retained {
      OwnersStep(s, step);
    }
  }

  // ------------------------------------------------------------ main results

  ghost predicate IsRun(s: State, steps: seq<Step>, end: State)
    decreases |steps|
  {
    if steps == [] then s == end
    else Enabled(s, steps[0]) && IsRun(Apply(s, steps[0]), steps[1..], end)
  }

  lemma Prepend(s: State, step: Step, n: State, rest: seq<Step>, end: State)
    requires Enabled(s, step) && Apply(s, step) == n && IsRun(n, rest, end)
    ensures IsRun(s, [step] + rest, end)
  {
    assert ([step] + rest)[1..] == rest;
    hide Enabled, Apply;
  }

  lemma {:induction false} RunKeepsSafe(s: State, steps: seq<Step>, end: State)
    requires Safe(s) && IsRun(s, steps, end)
    ensures Safe(end)
    decreases |steps|
  {
    if steps != [] {
      StepKeepsSafe(s, steps[0]);
      RunKeepsSafe(Apply(s, steps[0]), steps[1..], end);
    }
  }

  lemma StartIsSafe(capacity: nat)
    ensures Safe(Start(capacity))
  {
    FreshAccounted(capacity);
    var s := Start(capacity);
    assert forall i :: 0 <= i < |s.q.tickets| ==> s.q.tickets[i] == IDLE;
  }

  /**
   * In every run: the sink is never called after its Shutdown; no guest callback starts after the
   * shutdown is complete, whoever asked for it, as long as the join succeeded; the books balance, no
   * ticket is ever taken back by force, and a complete shutdown leaves nothing pending or borrowed; and
   * unless a Clear came back with buffers still borrowed, nothing from before a Clear or Shutdown is
   * counted consumed after it.
   */
  lemma ShutdownAndClearAreFinal(capacity: nat, steps: seq<Step>, s: State)
    requires IsRun(Start(capacity), steps, s)
    ensures !s.lateSinkCall
    ensures !s.joinFailed ==> !s.lateCallback
    ensures s.q.lost == 0 && Accounted(s.q)
    ensures s.q.complete ==> s.q.pending == 0 && s.lent == {} && s.releasing == {}
    ensures !s.retained ==> !s.staleConsumed
  {
    StartIsSafe(capacity);
    RunKeepsSafe(Start(capacity), steps, s);
    hide IsRun;
    if s.q.complete {
      FinishCover(s);
    }
  }

  /** Buffer 1 is lent to the sink of a one-buffer queue. */
  lemma Lend() returns (s1: State, s2: State, s: State)
    ensures Enabled(Start(1), BeginEnqueue) && s1 == Apply(Start(1), BeginEnqueue)
    ensures Enabled(s1, SinkAccepts) && s2 == Apply(s1, SinkAccepts)
    ensures Enabled(s2, EndEnqueue) && s == Apply(s2, EndEnqueue)
    ensures s.q.tickets == [Ticket(true, 1, 1, true)] && s.q.nextId == 2 && s.q.generation == 1 && s.q.consumed == 0
    ensures !s.q.stopping && s.op.NoOperation? && s.lent == {Lent(1, 0, 1)} && s.releasing == {}
  {
    var s0 := Start(1);
    assert s0.q.tickets == [IDLE] && s0.q.free == [0];
    s1 := Apply(s0, BeginEnqueue);
    assert s1.q.tickets == [Ticket(true, 1, 1, true)] && s1.op == Enqueueing(0, 1, Calling);
    s2 := Apply(s1, SinkAccepts);
    assert s2.lent == {Lent(1, 0, 1)};
    s := Apply(s2, EndEnqueue);
  }

  /** A Clear fails while the sink keeps buffer 1. */
  lemma FailToClear(s: State) returns (s4: State, s5: State)
    requires s.q.tickets == [Ticket(true, 1, 1, true)] && s.q.nextId == 2 && s.q.generation == 1 && s.q.consumed == 0
    requires !s.q.stopping && s.op.NoOperation? && s.lent == {Lent(1, 0, 1)} && s.releasing == {}
    ensures Enabled(s, BeginClear) && s4 == Apply(s, BeginClear)
    ensures Enabled(s4, EndClear(false)) && s5 == Apply(s4, EndClear(false))
    ensures s5.q.tickets == [Ticket(false, 1, 1, false)] && s5.q.free == [0] && s5.q.pending == 0 && s5.q.nextId == 2
    ensures s5.q.generation == 2 && s5.q.consumed == 0 && !s5.q.stopping && s5.op.NoOperation?
    ensures s5.lent == {Lent(1, 0, 1)} && s5.releasing == {} && s5.retained
  {
    s4 := Apply(s, BeginClear);
    assert s4.q.tickets == [Ticket(false, 1, 1, false)] && s4.q.free == [0];
    s5 := Apply(s4, EndClear(false));
  }

  /** The first half of the run below: buffer 1 is lent and a Clear fails while the sink keeps it. */
  lemma LendThenFailToClear() returns (s: State)
    ensures IsRun(Start(1), [BeginEnqueue, SinkAccepts, EndEnqueue, BeginClear, EndClear(false)], s)
    ensures s.q.tickets == [Ticket(false, 1, 1, false)] && s.q.free == [0] && s.q.pending == 0 && s.q.nextId == 2
    ensures s.q.generation == 2 && s.q.consumed == 0 && !s.q.stopping && s.op.NoOperation?
    ensures s.lent == {Lent(1, 0, 1)} && s.releasing == {} && s.retained
  {
    var s1, s2, s3 := Lend();
    var s4, s5 := FailToClear(s3);
    s := s5;
    var steps := [BeginEnqueue, SinkAccepts, EndEnqueue, BeginClear, EndClear(false)];
    hide Apply, Enabled, Start;
    assert IsRun(s, steps[1..][1..][1..][1..][1..], s);
    assert IsRun(s4, steps[1..][1..][1..][1..], s);
    assert IsRun(s3, steps[1..][1..][1..], s);
    assert IsRun(s2, steps[1..][1..], s);
    assert IsRun(s1, steps[1..], s);
  }

  /**
   * The exception is real: after that, buffer 2 gets the same ticket, and the late release of
   * buffer 1 is counted as consumed.
   */
  lemma FailedClearMixesUpBuffers() returns (middle: State, s: State)
    ensures IsRun(Start(1), [BeginEnqueue, SinkAccepts, EndEnqueue, BeginClear, EndClear(false)], middle)
    ensures IsRun(middle, [BeginEnqueue, BeginRelease(Lent(1, 0, 1)), EndRelease(Lent(1, 0, 1), 4)], s)
    ensures s.staleConsumed && s.q.consumed == 1
  {
    middle := LendThenFailToClear();
    var first := Lent(1, 0, 1);
    var s1 := Apply(middle, BeginEnqueue);
    assert s1.q.tickets == [Ticket(true, 2, 2, true)];
    var s2 := Apply(s1, BeginRelease(first));
    s := Apply(s2, EndRelease(first, 4));
    var steps := [BeginEnqueue, BeginRelease(first), EndRelease(first, 4)];
    hide Apply, Enabled;
    assert IsRun(s, steps[1..][1..][1..], s);
    assert IsRun(s2, steps[1..][1..], s);
    assert IsRun(s1, steps[1..], s);
  }
}
