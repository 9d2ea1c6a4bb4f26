/** FMOD devices make progress: nothing blocks for ever, and closing always finishes. */
module FmodProgress {
  import opened Outcomes
  import opened FmodPool
  import opened FmodDevice
  import opened FmodDeviceRuns

  /** A step that some thread or the sink takes on its own: no new call, and no spurious wake-up. */
  predicate Progress(step: Step) {
    !step.Arrive? && !step.BeginClose? && !step.SpuriousWake?
  }

  predicate Busy(d: Device) {
    || d.holder != Nobody || d.waiting != map[] || d.announcing != {} || d.closers != {}
    || |d.notifying| > 0 || |d.counting| > 0
  }

  /** The step the holder of the operation mutex takes next; a sleeper and a sink shutdown may have to wait. */
  function NextOfHolder(h: Holder): Step {
    match h
    case Nobody => Inspect
    case Closer(_, CallingSink) => CallShutdown
    case Closer(_, InSink) => ShutdownReturns
    case Closer(_, Inspecting) => Inspect
    case Closer(_, Closed(_)) => LeaveClose
    case Writer(_, w) =>
      match w
      case Entering(_) => Enter
      case Asleep(_) => SpuriousWake
      case Awake(_) => Recheck
      case Copying(_, _) => PublishCopy
      case Published(_, _) => CountPending
      case Calling(_, _) => SinkRefuses
      case Accepted(_) => CountSubmitted
      case Refused(_, _) => Undo
      case Undone(_) => CountUndo
      case Returning(_) => LeaveWrite
  }

  lemma HolderMoves(d: Device)
    requires SlotsAgree(d) && d.holder != Nobody && !Sleeping(d) && (CloseIs(d, InSink) ==> d.held == {})
    ensures Enabled(d, NextOfHolder(d.holder)) && Progress(NextOfHolder(d.holder))
  {
  }

  /** A sleeper that nothing is about to wake sleeps because the sink holds every buffer. */
  lemma SleeperWaitsForSink(d: Device)
    requires Inv(d) && Sleeping(d) && d.announcing == {} && |d.notifying| == 0
    ensures !d.pool.closing && forall i :: 0 <= i < |d.pool.slots| ==> i in d.held
  {
    hide CountersBalance, PendingTally;
    PendingFull(d.pool.slots);
  }

  /** No device with at least one block is ever stuck: some thread can move, or the sink has a buffer to return. */
  lemma NeverStuck(d: Device) returns (step: Step)
    requires Inv(d) && Busy(d) && (d.pool.closing || |d.pool.slots| > 0)
    ensures Enabled(d, step) && Progress(step)
  {
    hide CountersBalance, SinkAgrees, NoLostWakeup, Accounted;
    if |d.notifying| > 0 {
      step := NotifyRelease(0);
    } else if |d.counting| > 0 {
      step := CountRelease(0);
    } else if d.announcing != {} {
      step := NotifyClose(Any(d.announcing));
    } else if Sleeping(d) {
      SleeperWaitsForSink(d);
      assert 0 in d.held;
      step := Release(0);
    } else if CloseIs(d, InSink) && d.held != {} {
      step := Release(Any(d.held));
    } else if d.holder != Nobody {
      HolderMoves(d);
      step := NextOfHolder(d.holder);
    } else if d.closers != {} {
      step := LockClose(Any(d.closers));
    } else {
      assert d.waiting.Keys != {};
      step := LockWrite(Any(d.waiting.Keys));
    }
  }

  /** A bound on the steps the holder can still take, returns of its buffers included. */
  function HolderRank(h: Holder, closing: bool): nat {
    match h
    case Nobody => 0
    case Closer(_, CallingSink) => 4
    case Closer(_, InSink) => 3
    case Closer(_, Inspecting) => 2
    case Closer(_, Closed(_)) => 1
    case Writer(_, w) =>
      match w
      case Entering(_) => 12
      case Asleep(_) => if closing then 12 else 10
      case Awake(_) => 11
      case Copying(_, _) => 9
      case Published(_, _) => 8
      case Calling(_, _) => 7
      case Accepted(_) => 2
      case Refused(_, _) => 3
      case Undone(_) => 2
      case Returning(_) => 1
  }

  function Rank(d: Device): nat {
    RankOf(d) + 13 * |d.waiting.Keys| + 7 * |d.announcing| + 5 * |d.closers| +
    4 * |d.held| + 3 * |d.notifying| + |d.counting|
  }

  /** A step of a call under way; a writer woken for no reason counts only on a closing device. */
  predicate Bounded(d: Device, step: Step) {
    !step.Arrive? && !step.BeginClose? && (step.SpuriousWake? ==> d.pool.closing)
  }

  lemma DroppedOne<T>(s: set<T>, x: T)
    requires x in s
    ensures |s - {x}| == |s| - 1
  {
  }

  /** With `closing` set, the gate sends the writer back and leaves the pool alone. */
  lemma ClosedGate(d: Device, size: nat)
    requires d.pool.closing
    ensures PassGate(d, size) == Writing(d, Returning(false))
  {
    hide FindFreeSlot;
  }

  lemma GateLowersRank(d: Device, size: nat)
    requires d.holder.Writer?
    ensures PassGate(d, size).pool.closing == d.pool.closing
    ensures HolderRank(PassGate(d, size).holder, d.pool.closing) < 11
  {
    BlockedMeansOpen(d.pool);
    hide PassGate, GateAnswer;
    if GateAnswer(d.pool).Granted? {
      GateGrants(d, size);
    } else {
      GateDenies(d, size);
    }
  }

  /** The callers, the closers and the releases are where they were. */
  ghost predicate SameThreads(d: Device, n: Device) {
    n.waiting == d.waiting && n.announcing == d.announcing && n.closers == d.closers
  }

  ghost predicate SameReleases(d: Device, n: Device) {
    n.held == d.held && n.notifying == d.notifying && n.counting == d.counting
  }

  function RankOf(d: Device): nat {
    HolderRank(d.holder, d.pool.closing)
  }

  lemma HolderAlone(d: Device, n: Device)
    requires SameThreads(d, n) && SameReleases(d, n) && RankOf(n) < RankOf(d)
    ensures Rank(n) < Rank(d)
  {
    hide HolderRank;
  }

  lemma EntryLowersRank(d: Device, step: Step)
    requires Enabled(d, step) && Bounded(d, step) && IsEntry(step) && !step.LockWrite?
    ensures var n := ApplyWrite(d, step); RankOf(n) < RankOf(d) && SameThreads(d, n) && SameReleases(d, n)
  {
    hide PassGate;
    if step.Enter? || step.Recheck? {
      GateLowersRank(d, d.holder.write.size);
      PassGateFrame(d, d.holder.write.size);
    }
  }

  lemma HandOverLowersRank(d: Device, step: Step)
    requires Enabled(d, step) && IsHandOver(step) && !step.SinkAccepts?
    ensures var n := ApplyWrite(d, step); RankOf(n) < RankOf(d) && SameThreads(d, n) && SameReleases(d, n)
  {
  }

  lemma EndingLowersRank(d: Device, step: Step)
    requires Enabled(d, step) && IsEnding(step)
    ensures var n := ApplyWrite(d, step); RankOf(n) < RankOf(d) && SameThreads(d, n) && SameReleases(d, n)
  {
    hide Subtract;
  }

  lemma LockWriteLowersRank(d: Device, n: Device, tid: nat)
    requires tid in d.waiting && n.waiting == d.waiting - {tid} && RankOf(n) <= RankOf(d) + 12
    requires n.announcing == d.announcing && n.closers == d.closers && SameReleases(d, n)
    ensures Rank(n) < Rank(d)
  {
    hide HolderRank;
    DroppedOne(d.waiting.Keys, tid);
    assert n.waiting.Keys == d.waiting.Keys - {tid};
  }

  lemma AcceptLowersRank(d: Device, n: Device, slot: nat)
    requires n.held == d.held + {slot} && SameThreads(d, n) && RankOf(n) + 5 <= RankOf(d)
    requires n.notifying == d.notifying && n.counting == d.counting
    ensures Rank(n) < Rank(d)
  {
    hide HolderRank;
    assert |d.held + {slot}| <= |d.held| + 1;
  }

  lemma WriteLowersRank(d: Device, step: Step)
    requires Enabled(d, step) && Bounded(d, step) && !IsClose(step) && !IsRelease(step)
    ensures ApplyWrite(d, step).pool.closing == d.pool.closing && Rank(ApplyWrite(d, step)) < Rank(d)
  {
    WriteFrame(d, step);
    hide Rank;
    var n := ApplyWrite(d, step);
    if step.LockWrite? {
      LockWriteLowersRank(d, n, step.writer);
    } else if step.SinkAccepts? {
      AcceptLowersRank(d, n, d.holder.write.slot);
    } else {
      hide ApplyWrite, Enabled, HolderRank;
      if IsEntry(step) {
        EntryLowersRank(d, step);
      } else if IsHandOver(step) {
        HandOverLowersRank(d, step);
      } else {
        EndingLowersRank(d, step);
      }
      HolderAlone(d, n);
    }
  }

  lemma NotifyLowersRank(d: Device, n: Device, tid: nat)
    requires tid in d.announcing && n.announcing == d.announcing - {tid} && n.closers == d.closers + {tid}
    requires n.waiting == d.waiting && SameReleases(d, n) && RankOf(n) <= RankOf(d) + 1
    ensures Rank(n) < Rank(d)
  {
    hide HolderRank;
    DroppedOne(d.announcing, tid);
    assert |d.closers + {tid}| <= |d.closers| + 1;
  }

  lemma LockLowersRank(d: Device, n: Device, tid: nat)
    requires tid in d.closers && n.closers == d.closers - {tid} && n.announcing == d.announcing
    requires n.waiting == d.waiting && SameReleases(d, n) && RankOf(n) <= RankOf(d) + 4
    ensures Rank(n) < Rank(d)
  {
    hide HolderRank;
    DroppedOne(d.closers, tid);
  }

  lemma CloseLowersRank(d: Device, step: Step)
    requires Enabled(d, step) && IsClose(step) && !step.BeginClose?
    ensures ApplyClose(d, step).pool.closing == d.pool.closing && Rank(ApplyClose(d, step)) < Rank(d)
  {
    hide Rank;
    var n := ApplyClose(d, step);
    if step.NotifyClose? {
      NotifyLowersRank(d, n, step.notifier);
    } else if step.LockClose? {
      LockLowersRank(d, n, step.locker);
    } else {
      HolderAlone(d, n);
    }
  }

  /** A close that begins adds its own announcement, and at most two steps of a sleeping writer. */
  lemma BeginCloseRank(d: Device, tid: nat)
    requires Enabled(d, BeginClose(tid))
    ensures Rank(Apply(d, BeginClose(tid))) <= Rank(d) + 9
  {
    assert |d.announcing + {tid}| == |d.announcing| + 1;
    assert HolderRank(d.holder, true) <= HolderRank(d.holder, d.pool.closing) + 2;
    hide HolderRank;
  }

  lemma ArriveRank(d: Device, tid: nat, size: nat)
    requires Enabled(d, Arrive(tid, size))
    ensures Rank(Apply(d, Arrive(tid, size))) == Rank(d) + 13
  {
    assert d.waiting[tid := size].Keys == d.waiting.Keys + {tid};
    hide HolderRank;
  }

  lemma ReleaseLowersRank(d: Device, step: Step)
    requires Enabled(d, step) && IsRelease(step)
    ensures ApplyRelease(d, step).pool.closing == d.pool.closing && Rank(ApplyRelease(d, step)) < Rank(d)
  {
    hide Rank, Settle;
    var n := ApplyRelease(d, step);
    if step.Release? {
      BufferReturns(d, n, step.slot);
    } else if step.NotifyRelease? {
      ReceiptMoves(d, n, 1);
    } else {
      ReceiptMoves(d, n, 0);
    }
  }

  lemma BufferReturns(d: Device, n: Device, slot: nat)
    requires slot in d.held && n.held == d.held - {slot} && SameThreads(d, n) && RankOf(n) == RankOf(d)
    requires |n.notifying| <= |d.notifying| + 1 && n.counting == d.counting
    ensures Rank(n) < Rank(d)
  {
    hide HolderRank;
    DroppedOne(d.held, slot);
  }

  /** From the notification to the counters, or out: `moved` is 1 in the first case. */
  lemma ReceiptMoves(d: Device, n: Device, moved: nat)
    requires n.held == d.held && SameThreads(d, n) && moved <= 1 && RankOf(n) <= RankOf(d) + moved
    requires |n.notifying| == |d.notifying| - moved && |n.counting| == |d.counting| + 2 * moved - 1
    ensures Rank(n) < Rank(d)
  {
    hide HolderRank;
  }

  lemma StepLowersRank(d: Device, step: Step)
    requires Enabled(d, step) && Bounded(d, step)
    ensures Apply(d, step).pool.closing == d.pool.closing && Rank(Apply(d, step)) < Rank(d)
  {
    hide ApplyWrite, ApplyClose, ApplyRelease, Rank;
    if IsRelease(step) {
      ReleaseLowersRank(d, step);
    } else if IsClose(step) {
      CloseLowersRank(d, step);
    } else {
      WriteLowersRank(d, step);
    }
  }

  ghost predicate NoNewCalls(steps: seq<Step>) {
    forall i :: 0 <= i < |steps| ==> !steps[i].Arrive? && !steps[i].BeginClose?
  }

  /**
   * Once `closing` is set, every schedule without new calls stops within a bound known beforehand,
   * and where it can go no further, every writer and closer has returned. So the closer that waits
   * for a blocked writer's mutex always gets it.
   */
  lemma {:induction false} CloseAlwaysFinishes(d: Device, steps: seq<Step>, end: Device)
    requires Inv(d) && d.pool.closing && IsRun(d, steps, end) && NoNewCalls(steps)
    ensures |steps| <= Rank(d)
    ensures (forall step: Step :: Progress(step) ==> !Enabled(end, step)) ==> !Busy(end)
    decreases |steps|
  {
    hide Inv, Rank;
    if steps != [] {
      var d' := Apply(d, steps[0]);
      StepKeepsInv(d, steps[0]);
      StepLowersRank(d, steps[0]);
      CloseAlwaysFinishes(d', steps[1..], end);
    } else if Busy(d) {
      var step := NeverStuck(d);
    }
  }

  lemma NotifiedWriterGivesUp(d: Device, step: Step)
    requires Sleeping(d) && d.pool.closing && Enabled(d, step) && (step.NotifyClose? || step.NotifyRelease?)
    ensures var n := Apply(d, step); Enabled(n, Recheck) && Apply(n, Recheck) == Writing(n, Returning(false))
  {
    var n := Apply(d, step);
    assert n.holder == Writer(d.holder.tid, Awake(d.holder.write.size)) && n.pool == d.pool;
    ClosedGate(n, d.holder.write.size);
    hide PassGate, ApplyClose, ApplyRelease;
  }

  /**
   * A writer blocked for capacity when `closing` is set has a notification on its way; every thread
   * that delivers one wakes it, and it then gives up without touching the pool.
   */
  lemma ClosingFreesTheWriter(d: Device)
    requires Inv(d) && Sleeping(d) && d.pool.closing
    ensures exists step: Step :: (step.NotifyClose? || step.NotifyRelease?) && Enabled(d, step)
    ensures forall step: Step :: Enabled(d, step) && (step.NotifyClose? || step.NotifyRelease?) ==>
              var n := Apply(d, step); Enabled(n, Recheck) && Apply(n, Recheck) == Writing(n, Returning(false))
  {
    hide SlotsAgree, SinkAgrees, CountersBalance, Accounted, Apply;
    forall step: Step | Enabled(d, step) && (step.NotifyClose? || step.NotifyRelease?)
      ensures var n := Apply(d, step); Enabled(n, Recheck) && Apply(n, Recheck) == Writing(n, Returning(false))
    {
      NotifiedWriterGivesUp(d, step);
    }
    assert d.announcing != {} || |d.notifying| > 0;
    if |d.notifying| > 0 {
      assert Enabled(d, NotifyRelease(0));
    } else {
      assert Enabled(d, NotifyClose(Any(d.announcing)));
    }
  }
}
