/** What every step of an FMOD device keeps, and what that says about whole runs. */
module FmodDeviceRuns {
  import opened FmodPool
  import opened FmodDevice

  // ---------------------------------------------------------------- frames

  /** A write leaves the closers, the sink's flags and the releases alone. */
  ghost predicate WriteMoved(d: Device, n: Device) {
    && n.pool == d.pool.(slots := n.pool.slots, pendingBuffers := n.pool.pendingBuffers,
                         pendingBytes := n.pool.pendingBytes)
    && n.counters == d.counters.(pending := n.counters.pending, submitted := n.counters.submitted)
    && n == d.(pool := n.pool, holder := n.holder, waiting := n.waiting, held := n.held, counters := n.counters,
               lateEnqueue := n.lateEnqueue, inconsistent := n.inconsistent)
  }

  predicate IsEntry(step: Step) {
    step.Arrive? || step.LockWrite? || step.Enter? || step.Recheck? || step.SpuriousWake?
  }

  predicate IsHandOver(step: Step) {
    step.PublishCopy? || step.CountPending? || step.SinkAccepts? || step.SinkRefuses?
  }

  predicate IsEnding(step: Step) {
    step.Undo? || step.CountUndo? || step.CountSubmitted? || step.LeaveWrite?
  }

  lemma EntryFrame(d: Device, step: Step)
    requires Enabled(d, step) && IsEntry(step)
    ensures WriteMoved(d, ApplyWrite(d, step))
  {
    if step.Enter? || step.Recheck? {
      PassGateFrame(d, d.holder.write.size);
    }
    hide PassGate;
  }

  lemma HandOverFrame(d: Device, step: Step)
    requires Enabled(d, step) && IsHandOver(step)
    ensures WriteMoved(d, ApplyWrite(d, step))
  {
  }

  lemma EndingFrame(d: Device, step: Step)
    requires Enabled(d, step) && IsEnding(step)
    ensures WriteMoved(d, ApplyWrite(d, step))
  {
    hide Subtract;
  }

  lemma WriteFrame(d: Device, step: Step)
    requires Enabled(d, step) && !IsClose(step) && !IsRelease(step)
    ensures WriteMoved(d, ApplyWrite(d, step))
  {
    hide Enabled, ApplyWrite, WriteMoved;
    if IsEntry(step) {
      EntryFrame(d, step);
    } else if IsHandOver(step) {
      HandOverFrame(d, step);
    } else {
      EndingFrame(d, step);
    }
  }

  /** A close leaves the slots, the counters and the buffers alone. */
  ghost predicate CloseMoved(d: Device, n: Device) {
    && n.pool == d.pool.(closing := n.pool.closing, sinkAlive := n.pool.sinkAlive)
    && n == d.(pool := n.pool, holder := n.holder, announcing := n.announcing, closers := n.closers,
               sinkShut := n.sinkShut)
    && OwedPending(n.holder) == OwedPending(d.holder) && OwedSubmitted(n.holder) == OwedSubmitted(d.holder)
  }

  lemma AnnounceFrame(d: Device, step: Step)
    requires Enabled(d, step) && (step.BeginClose? || step.NotifyClose? || step.LockClose?)
    ensures CloseMoved(d, ApplyClose(d, step))
  {
  }

  lemma ShutFrame(d: Device, step: Step)
    requires Enabled(d, step)
    requires step.CallShutdown? || step.ShutdownReturns? || step.Inspect? || step.LeaveClose?
    ensures CloseMoved(d, ApplyClose(d, step))
  {
  }

  lemma CloseFrame(d: Device, step: Step)
    requires Enabled(d, step) && IsClose(step)
    ensures CloseMoved(d, ApplyClose(d, step))
  {
    hide Enabled, ApplyClose, CloseMoved;
    if step.BeginClose? || step.NotifyClose? || step.LockClose? {
      AnnounceFrame(d, step);
    } else {
      ShutFrame(d, step);
    }
  }

  // ---------------------------------------------------------------- slots

  /** The write that holds the device has no slot. */
  predicate Slotless(h: Holder) {
    h.Writer? ==> !HasSlot(h.write)
  }

  lemma SameSlots(d: Device, n: Device)
    requires SlotsAgree(d) && n.pool.slots == d.pool.slots && n.held == d.held
    requires n.holder == d.holder || (Slotless(d.holder) && Slotless(n.holder))
    ensures SlotsAgree(n)
  {
  }

  /** An open gate with a Free slot behind it reserves that slot for the writer. */
  lemma GateGrants(d: Device, size: nat)
    requires d.holder.Writer? && GateAnswer(d.pool).Granted?
    ensures var slot := GateAnswer(d.pool).slot;
            && slot < |d.pool.slots| && d.pool.slots[slot].state == Free
            && PassGate(d, size) == d.(pool := d.pool.(slots := d.pool.slots[slot := Slot(Reserved, size)]),
                                       holder := Writer(d.holder.tid, Copying(slot, size)))
  {
    hide FindFreeSlot;
  }

  /** Any other answer leaves the pool alone. */
  lemma GateDenies(d: Device, size: nat)
    requires d.holder.Writer? && !GateAnswer(d.pool).Granted?
    ensures var n := PassGate(d, size);
            && n == d.(holder := n.holder, inconsistent := n.inconsistent)
            && n.holder == Writer(d.holder.tid, if GateAnswer(d.pool).Blocked? then Asleep(size) else Returning(false))
            && n.inconsistent == (d.inconsistent || GateAnswer(d.pool).Exhausted?)
  {
    hide FindFreeSlot;
  }

  /** The gate changes the pool and the writer's own progress. */
  lemma PassGateFrame(d: Device, size: nat)
    requires d.holder.Writer?
    ensures var n := PassGate(d, size);
            && n == d.(pool := n.pool, holder := n.holder, inconsistent := n.inconsistent)
            && n.holder.Writer? && n.holder.tid == d.holder.tid
            && n.pool == d.pool.(slots := n.pool.slots) && |n.pool.slots| == |d.pool.slots|
  {
    hide PassGate, GateAnswer;
    if GateAnswer(d.pool).Granted? {
      GateGrants(d, size);
    } else {
      GateDenies(d, size);
    }
  }

  lemma PassGateSlots(d: Device, size: nat)
    requires SlotsAgree(d) && d.holder.Writer? && Slotless(d.holder)
    ensures SlotsAgree(PassGate(d, size))
  {
    hide PassGate, GateAnswer, SlotsAgree;
    var n := PassGate(d, size);
    if GateAnswer(d.pool).Granted? {
      GateGrants(d, size);
      ReserveSlots(d, n, GateAnswer(d.pool).slot, size);
    } else {
      GateDenies(d, size);
      SameSlots(d, n);
    }
  }

  lemma ReserveSlots(d: Device, n: Device, slot: nat, size: nat)
    requires SlotsAgree(d) && Slotless(d.holder) && slot < |d.pool.slots| && d.pool.slots[slot].state == Free
    requires n.pool.slots == d.pool.slots[slot := Slot(Reserved, size)] && n.held == d.held
    requires n.holder.Writer? && n.holder.write == Copying(slot, size)
    ensures SlotsAgree(n)
  {
  }

  lemma HandOverSlots(d: Device, step: Step)
    requires SlotsAgree(d) && Enabled(d, step) && IsHandOver(step) && !step.PublishCopy?
    ensures SlotsAgree(ApplyWrite(d, step))
  {
  }

  lemma PublishSlots(d: Device)
    requires SlotsAgree(d) && Enabled(d, PublishCopy)
    ensures SlotsAgree(ApplyWrite(d, PublishCopy))
  {
  }

  lemma UndoSlots(d: Device)
    requires SlotsAgree(d) && Enabled(d, Undo)
    ensures SlotsAgree(ApplyWrite(d, Undo))
  {
    hide Subtract;
  }

  lemma ReleaseSlots(d: Device, slot: nat)
    requires SlotsAgree(d) && Enabled(d, Release(slot))
    ensures SlotsAgree(ApplyRelease(d, Release(slot)))
  {
  }

  lemma CloseSlots(d: Device, step: Step)
    requires SlotsAgree(d) && Enabled(d, step) && IsClose(step)
    ensures SlotsAgree(ApplyClose(d, step))
  {
    hide SlotsAgree;
    SameSlots(d, ApplyClose(d, step));
  }

  lemma WriteSlotsStep(d: Device, step: Step)
    requires SlotsAgree(d) && Enabled(d, step) && !IsClose(step) && !IsRelease(step)
    ensures SlotsAgree(ApplyWrite(d, step))
  {
    hide SlotsAgree, PassGate, Publish, Withdraw;
    if step.Enter? {
      PassGateSlots(d, d.holder.write.size);
      SameSlots(d, Writing(d, Returning(false)));
    } else if step.Recheck? {
      PassGateSlots(d, d.holder.write.size);
    } else if step.PublishCopy? {
      PublishSlots(d);
    } else if step.Undo? {
      UndoSlots(d);
    } else if IsHandOver(step) {
      HandOverSlots(d, step);
    } else {
      SameSlots(d, ApplyWrite(d, step));
    }
  }

  lemma SlotsStep(d: Device, step: Step)
    requires SlotsAgree(d) && Enabled(d, step)
    ensures SlotsAgree(Apply(d, step))
  {
    hide SlotsAgree, ApplyClose, ApplyWrite, TakeBack, Settle, Without;
    if step.Release? {
      ReleaseSlots(d, step.slot);
    } else if IsRelease(step) {
      SameSlots(d, ApplyRelease(d, step));
    } else if IsClose(step) {
      CloseSlots(d, step);
    } else {
      WriteSlotsStep(d, step);
    }
  }

  // ---------------------------------------------------------------- pending counts

  lemma PassGatePool(d: Device, size: nat)
    requires Accounted(d.pool) && d.holder.Writer?
    ensures Accounted(PassGate(d, size).pool)
  {
    ReserveKeeps(d.pool, size);
    hide Accounted, GateAnswer, Reserve;
  }

  lemma WritePool(d: Device, step: Step)
    requires SlotsAgree(d) && Accounted(d.pool) && Enabled(d, step) && !IsClose(step) && !IsRelease(step)
    ensures Accounted(ApplyWrite(d, step).pool)
  {
    if step.Enter? || step.Recheck? {
      PassGatePool(d, d.holder.write.size);
    } else if step.PublishCopy? {
      assert WriterReserves(d.holder, d.holder.write.slot);
      PublishKeeps(d.pool, d.holder.write.slot, d.holder.write.size);
    } else if step.Undo? {
      assert WriterOwns(d.holder, d.holder.write.slot);
      FreeingIsExact(d.pool, d.holder.write.slot);
    }
    hide SlotsAgree, PassGate, Accounted, Publish, Withdraw, TakeBack;
  }

  lemma PoolStep(d: Device, step: Step)
    requires SlotsAgree(d) && Accounted(d.pool) && Enabled(d, step)
    ensures Accounted(Apply(d, step).pool)
  {
    hide ApplyWrite, PendingTally;
    if step.Release? {
      FreeingIsExact(d.pool, step.slot);
    } else if !IsRelease(step) && !IsClose(step) {
      WritePool(d, step);
    }
  }

  // ---------------------------------------------------------------- the sink

  lemma NoneReserved(d: Device)
    requires SlotsAgree(d) && Slotless(d.holder)
    ensures forall i :: 0 <= i < |d.pool.slots| ==> d.pool.slots[i].state != Reserved
  {
  }

  lemma PassGateSink(d: Device, size: nat)
    requires SlotsAgree(d) && Accounted(d.pool) && SinkAgrees(d) && d.holder.Writer? && Slotless(d.holder)
    ensures SinkAgrees(PassGate(d, size))
  {
    NoneReserved(d);
    if CanProceed(d.pool) && !Shut(d.pool) {
      GateHasFreeSlot(d.pool);
    }
    assert !GateAnswer(d.pool).Exhausted?;
    hide SlotsAgree, Accounted, GateAnswer, PassGate;
    if GateAnswer(d.pool).Granted? {
      assert !d.pool.closing by {
        GrantedMeansOpen(d.pool);
      }
      GateGrants(d, size);
    } else {
      GateDenies(d, size);
      BlockedMeansOpen(d.pool);
    }
  }

  lemma GrantedMeansOpen(p: Pool)
    requires GateAnswer(p).Granted?
    ensures !Shut(p)
  {
  }

  lemma BlockedMeansOpen(p: Pool)
    ensures GateAnswer(p).Blocked? ==> !CanProceed(p)
  {
  }

  /** A closer that has the device and whose sink is shut down finds nothing pending. */
  lemma NothingPending(d: Device)
    requires SlotsAgree(d) && Accounted(d.pool) && d.held == {} && !d.holder.Writer?
    ensures AllReturned(d.pool)
  {
    PendingNone(d.pool.slots);
  }

  lemma WriteSink(d: Device, step: Step)
    requires SlotsAgree(d) && Accounted(d.pool) && SinkAgrees(d)
    requires Enabled(d, step) && !IsClose(step) && !IsRelease(step)
    ensures SinkAgrees(ApplyWrite(d, step))
  {
    if step.Enter? || step.Recheck? {
      PassGateSink(d, d.holder.write.size);
    } else if step.Undo? {
      assert WriterOwns(d.holder, d.holder.write.slot);
    }
    hide PassGate, Accounted, Subtract;
  }

  lemma SinkStep(d: Device, step: Step)
    requires SlotsAgree(d) && Accounted(d.pool) && SinkAgrees(d) && Enabled(d, step)
    ensures SinkAgrees(Apply(d, step))
  {
    hide ApplyWrite, Accounted, Without, Settle;
    if !IsClose(step) && !IsRelease(step) {
      WriteSink(d, step);
    } else if step.Inspect? {
      NothingPending(d);
    }
  }

  // ---------------------------------------------------------------- wake-ups

  lemma PassGateWakeup(d: Device, size: nat)
    requires d.holder.Writer?
    ensures NoLostWakeup(PassGate(d, size))
  {
    hide PassGate, GateAnswer;
    BlockedMeansOpen(d.pool);
    if GateAnswer(d.pool).Granted? {
      GateGrants(d, size);
    } else {
      GateDenies(d, size);
    }
  }

  lemma WakeupStep(d: Device, step: Step)
    requires NoLostWakeup(d) && Enabled(d, step)
    ensures NoLostWakeup(Apply(d, step))
  {
    hide PassGate, FindFreeSlot;
    match step
    case Enter => PassGateWakeup(d, d.holder.write.size);
    case Recheck => PassGateWakeup(d, d.holder.write.size);
    case _ =>
  }

  // ---------------------------------------------------------------- counters

  lemma {:induction false} ReleasedAppend(rs: seq<Released>, r: Released)
    ensures ReleasedTally(rs + [r]) == ReleasedTally(rs).Add(r.size)
  {
    if |rs| > 0 {
      ReleasedAppend(rs[1..], r);
      assert (rs + [r])[1..] == rs[1..] + [r];
    } else {
      assert (rs + [r])[0] == r;
      assert |(rs + [r])[1..]| == 0;
    }
  }

  lemma {:induction false} ReleasedWithout(rs: seq<Released>, i: nat)
    requires i < |rs|
    ensures ReleasedTally(Without(rs, i)) == ReleasedTally(rs).Drop(rs[i].size)
  {
    if i > 0 {
      ReleasedWithout(rs[1..], i - 1);
      assert Without(rs, i)[1..] == Without(rs[1..], i - 1);
    } else {
      assert Without(rs, 0) == rs[1..];
    }
  }

  lemma SameCounters(d: Device, n: Device)
    requires CountersBalance(d) && n.counters == d.counters && n.notifying == d.notifying && n.counting == d.counting
    requires n.pool.pendingBuffers == d.pool.pendingBuffers && n.pool.pendingBytes == d.pool.pendingBytes
    requires OwedPending(n.holder) == OwedPending(d.holder) && OwedSubmitted(n.holder) == OwedSubmitted(d.holder)
    ensures CountersBalance(n)
  {
  }

  lemma PassGateCounters(d: Device, size: nat)
    requires CountersBalance(d) && d.holder.Writer? && (d.holder.write.Entering? || d.holder.write.Awake?)
    ensures CountersBalance(PassGate(d, size))
  {
    hide PassGate, GateAnswer, CountersBalance;
    if GateAnswer(d.pool).Granted? {
      GateGrants(d, size);
    } else {
      GateDenies(d, size);
    }
    SameCounters(d, PassGate(d, size));
  }

  lemma WriteCounters(d: Device, step: Step)
    requires CountersBalance(d) && Enabled(d, step)
    requires step.PublishCopy? || step.CountPending? || step.CountUndo? || step.CountSubmitted?
    ensures CountersBalance(ApplyWrite(d, step))
  {
    hide ReleasedTally, Subtract;
  }

  lemma UndoCounters(d: Device)
    requires SlotsAgree(d) && Accounted(d.pool) && CountersBalance(d) && Enabled(d, Undo)
    ensures CountersBalance(ApplyWrite(d, Undo))
  {
    assert WriterOwns(d.holder, d.holder.write.slot);
    FreeingIsExact(d.pool, d.holder.write.slot);
    hide ReleasedTally, PendingTally, SlotsAgree, TakeBack, Withdraw;
  }

  lemma ReleaseCounters(d: Device, slot: nat)
    requires SlotsAgree(d) && Accounted(d.pool) && CountersBalance(d) && Enabled(d, Release(slot))
    ensures CountersBalance(ApplyRelease(d, Release(slot)))
  {
    FreeingIsExact(d.pool, slot);
    ReleasedAppend(d.notifying, Receipt(d.pool, slot));
    hide ReleasedTally, PendingTally, SlotsAgree, TakeBack, Withdraw;
  }

  lemma NotifyCounters(d: Device, i: nat)
    requires CountersBalance(d) && Enabled(d, NotifyRelease(i))
    ensures CountersBalance(ApplyRelease(d, NotifyRelease(i)))
  {
    ReleasedWithout(d.notifying, i);
    ReleasedAppend(d.counting, d.notifying[i]);
    var n := ApplyRelease(d, NotifyRelease(i));
    assert InFlight(n) == InFlight(d);
    hide ReleasedTally, Without, InFlight;
  }

  lemma SettleCounters(d: Device, i: nat)
    requires CountersBalance(d) && Enabled(d, CountRelease(i))
    ensures CountersBalance(ApplyRelease(d, CountRelease(i)))
  {
    ReleasedWithout(d.counting, i);
    hide ReleasedTally, Without, OwedPending, OwedSubmitted;
  }

  lemma CloseCounters(d: Device, step: Step)
    requires CountersBalance(d) && Enabled(d, step) && IsClose(step)
    ensures CountersBalance(ApplyClose(d, step))
  {
    CloseFrame(d, step);
    hide CountersBalance, Enabled, ApplyClose, OwedPending, OwedSubmitted;
    SameCounters(d, ApplyClose(d, step));
  }

  lemma WriteCountersStep(d: Device, step: Step)
    requires SlotsAgree(d) && Accounted(d.pool) && CountersBalance(d) && Enabled(d, step)
    requires !IsClose(step) && !IsRelease(step)
    ensures CountersBalance(ApplyWrite(d, step))
  {
    hide SlotsAgree, Accounted, CountersBalance, PassGate, Publish, Withdraw;
    if step.Enter? {
      PassGateCounters(d, d.holder.write.size);
      SameCounters(d, Writing(d, Returning(false)));
    } else if step.Recheck? {
      PassGateCounters(d, d.holder.write.size);
    } else if step.PublishCopy? || step.CountPending? || step.CountUndo? || step.CountSubmitted? {
      WriteCounters(d, step);
    } else if step.Undo? {
      UndoCounters(d);
    } else {
      SameCounters(d, ApplyWrite(d, step));
    }
  }

  lemma CountersStep(d: Device, step: Step)
    requires SlotsAgree(d) && Accounted(d.pool) && CountersBalance(d) && Enabled(d, step)
    ensures CountersBalance(Apply(d, step))
  {
    hide SlotsAgree, Accounted, CountersBalance, ApplyWrite, ApplyRelease, ApplyClose;
    if step.Release? {
      ReleaseCounters(d, step.slot);
    } else if step.NotifyRelease? {
      NotifyCounters(d, step.index);
    } else if step.CountRelease? {
      SettleCounters(d, step.settled);
    } else if IsClose(step) {
      CloseCounters(d, step);
    } else {
      WriteCountersStep(d, step);
    }
  }

  // ---------------------------------------------------------------- runs

  lemma ThreadsWrite(d: Device, step: Step)
    requires ThreadsDistinct(d) && Enabled(d, step) && !IsClose(step) && !IsRelease(step)
    ensures ThreadsDistinct(ApplyWrite(d, step))
  {
    hide PassGate, Publish, Withdraw;
    if step.Enter? || step.Recheck? {
      PassGateFrame(d, d.holder.write.size);
    }
  }

  lemma ThreadsStep(d: Device, step: Step)
    requires ThreadsDistinct(d) && Enabled(d, step)
    ensures ThreadsDistinct(Apply(d, step))
  {
    hide ApplyWrite, TakeBack, Settle, Without;
    if !IsClose(step) && !IsRelease(step) {
      ThreadsWrite(d, step);
    }
  }

  lemma StepKeepsInv(d: Device, step: Step)
    requires Inv(d) && Enabled(d, step)
    ensures Inv(Apply(d, step))
  {
    ThreadsStep(d, step);
    SlotsStep(d, step);
    PoolStep(d, step);
    SinkStep(d, step);
    WakeupStep(d, step);
    CountersStep(d, step);
    hide Apply, Enabled;
  }

  lemma IdleInv(d: Device)
    requires Accounted(d.pool) && AllReturned(d.pool) && d.holder.Nobody? && d.held == {} && !d.sinkShut
    requires forall i :: 0 <= i < |d.pool.slots| ==> d.pool.slots[i].state == Free
    requires d.announcing == {} && d.closers == {} && |d.notifying| == 0 && |d.counting| == 0
    requires d.counters == Counters(Tally(0, 0), Tally(0, 0), Tally(0, 0), Tally(0, 0))
    requires d.pool.sinkAlive && !d.lateEnqueue && !d.inconsistent
    ensures Inv(d)
  {
    hide PendingTally;
    assert SlotsAgree(d);
  }

  lemma NewDeviceInv(frameBytes: FrameSize, blockBytes: nat, blocks: nat)
    ensures Inv(NewDevice(frameBytes, blockBytes, blocks))
  {
    hide Inv;
    var d := NewDevice(frameBytes, blockBytes, blocks);
    PendingNone(d.pool.slots);
    IdleInv(d);
  }

  lemma {:induction false} RunKeepsInv(d: Device, steps: seq<Step>, end: Device)
    requires Inv(d) && IsRun(d, steps, end)
    ensures Inv(end)
    decreases |steps|
  {
    hide Inv;
    if steps != [] {
      StepKeepsInv(d, steps[0]);
      RunKeepsInv(Apply(d, steps[0]), steps[1..], end);
    }
  }

  // ---------------------------------------------------------------- main results

  /**
   * In every run: the stored pending counts are the number of Pending slots and the sum of their
   * sizes, at most one slot is Reserved, the branches for broken accounting are never taken, and no
   * buffer goes to the sink after its Shutdown.
   */
  lemma PoolIsExact(frameBytes: FrameSize, blockBytes: nat, blocks: nat, steps: seq<Step>, d: Device)
    requires IsRun(NewDevice(frameBytes, blockBytes, blocks), steps, d)
    ensures Tally(d.pool.pendingBuffers, d.pool.pendingBytes) == PendingTally(d.pool.slots)
    ensures forall i, j :: 0 <= i < |d.pool.slots| && 0 <= j < |d.pool.slots| ==>
              (d.pool.slots[i].state == Reserved && d.pool.slots[j].state == Reserved ==> i == j)
    ensures !d.inconsistent && !d.lateEnqueue
    ensures d.holder.Closer? && d.holder.close.Closed? ==> d.holder.close.clean
  {
    NewDeviceInv(frameBytes, blockBytes, blocks);
    RunKeepsInv(NewDevice(frameBytes, blockBytes, blocks), steps, d);
    hide CountersBalance, IsRun, PendingTally;
  }

  /** Nothing is between two steps of a call or of a release. */
  predicate Quiet(d: Device) {
    d.holder.Nobody? && |d.notifying| == 0 && |d.counting| == 0
  }

  /** Whenever nothing is in flight, every buffer and byte submitted is consumed, discarded or pending. */
  lemma QuietDeviceBalances(d: Device)
    requires Inv(d) && Quiet(d)
    ensures d.counters.pending == PendingTally(d.pool.slots) && Conserved(d.counters)
  {
    hide PendingTally, SlotsAgree, SinkAgrees, NoLostWakeup;
  }
}
