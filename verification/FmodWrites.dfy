/** What a write on an FMOD device achieves: when it is admitted, when it may fail, and what success means. */
module FmodWrites {
  import opened FmodPool
  import opened FmodDevice
  import D = FmodDeviceRuns

  /** The write that holds the device, and the size it was called with. */
  predicate InWrite(d: Device, tid: nat) {
    d.holder.Writer? && d.holder.tid == tid
  }

  // ---------------------------------------------------------------- admission

  /** With a Free slot and nothing Reserved, an open gate lets the writer through to the first Free one. */
  lemma OpenGate(d: Device, size: nat, first: nat)
    requires D.Slotless(d.holder) && SlotsAgree(d) && Accounted(d.pool) && !Shut(d.pool)
    requires first < |d.pool.slots| && d.pool.slots[first].state == Free
    requires forall j :: 0 <= j < first ==> d.pool.slots[j].state != Free
    ensures GateAnswer(d.pool) == Granted(first)
  {
    PendingFull(d.pool.slots);
    hide SlotsAgree;
  }

  /** And without one, it makes the writer wait. */
  lemma FullGate(d: Device)
    requires D.Slotless(d.holder) && SlotsAgree(d) && Accounted(d.pool) && !Shut(d.pool)
    requires forall j :: 0 <= j < |d.pool.slots| ==> d.pool.slots[j].state != Free
    ensures GateAnswer(d.pool) == Blocked
  {
    D.NoneReserved(d);
    PendingFull(d.pool.slots);
    hide SlotsAgree;
  }

  /**
   * A write is turned away at once exactly when the device is shut, the bytes are not whole frames or
   * they exceed a block. Otherwise it copies into the first Free slot, or sleeps if there is none.
   */
  lemma AdmissionIsExact(d: Device)
    requires Inv(d) && Enabled(d, Enter)
    ensures var n, size, tid := Apply(d, Enter), d.holder.write.size, d.holder.tid;
            if d.pool.closing || !d.pool.sinkAlive || size % d.frameBytes != 0 || size > d.blockBytes
            then n == d.(holder := Writer(tid, Returning(false)))
            else if forall i :: 0 <= i < |d.pool.slots| ==> d.pool.slots[i].state != Free
            then n == d.(holder := Writer(tid, Asleep(size)))
            else exists i :: FirstFree(d.pool, i) && n == Copies(d, i, size)
  {
    hide PassGate;
    var size := d.holder.write.size;
    if !(Shut(d.pool) || size % d.frameBytes != 0 || size > d.blockBytes) {
      GateIsExact(d, size);
    }
  }

  predicate FirstFree(p: Pool, i: int) {
    && 0 <= i < |p.slots| && p.slots[i].state == Free
    && forall j :: 0 <= j < i ==> p.slots[j].state != Free
  }

  lemma FirstIsInPool(p: Pool, i: int)
    requires FirstFree(p, i)
    ensures 0 <= i < |p.slots|
  {
  }

  /** Slot `i` is reserved for `size` bytes and the writer is about to copy them. */
  function Copies(d: Device, i: int, size: nat): Device
    requires 0 <= i < |d.pool.slots| && d.holder.Writer?
  {
    d.(pool := d.pool.(slots := d.pool.slots[i := Slot(Reserved, size)]),
       holder := Writer(d.holder.tid, Copying(i, size)))
  }

  lemma GateIsExact(d: Device, size: nat)
    requires Inv(d) && d.holder.Writer? && D.Slotless(d.holder) && !Shut(d.pool)
    ensures if forall i :: 0 <= i < |d.pool.slots| ==> d.pool.slots[i].state != Free
            then PassGate(d, size) == d.(holder := Writer(d.holder.tid, Asleep(size)))
            else exists i :: FirstFree(d.pool, i) && PassGate(d, size) == Copies(d, i, size)
  {
    hide PassGate, GateAnswer, SinkAgrees, NoLostWakeup, CountersBalance, SlotsAgree, Accounted;
    if forall i :: 0 <= i < |d.pool.slots| ==> d.pool.slots[i].state != Free {
      FullGate(d);
      D.GateDenies(d, size);
    } else {
      var i := FindFreeSlot(d.pool.slots);
      OpenGate(d, size, i);
      D.GateGrants(d, size);
      assert FirstFree(d.pool, i);
    }
  }

  // ---------------------------------------------------------------- undisturbed writes

  /** `size` bytes are Pending in slot `i`. */
  function Filled(p: Pool, i: int, size: nat): Pool
    requires 0 <= i < |p.slots|
  {
    p.(slots := p.slots[i := Slot(Pending, size)],
       pendingBuffers := p.pendingBuffers + 1, pendingBytes := p.pendingBytes + size)
  }

  lemma RunOf(d: Device, step: Step, n: Device, rest: seq<Step>, end: Device)
    requires Enabled(d, step) && n == Apply(d, step) && IsRun(n, rest, end)
    ensures IsRun(d, [step] + rest, end)
  {
    assert ([step] + rest)[0] == step && ([step] + rest)[1..] == rest;
  }

  lemma ArriveAndLock(d: Device, tid: nat, size: nat)
    requires d.holder.Nobody? && tid !in d.waiting
    ensures Enabled(d, Arrive(tid, size))
    ensures var a := Apply(d, Arrive(tid, size));
            Enabled(a, LockWrite(tid)) && Apply(a, LockWrite(tid)) == d.(holder := Writer(tid, Entering(size)))
  {
    assert d.waiting[tid := size] - {tid} == d.waiting;
  }

  lemma EnterReserves(d: Device, i: nat)
    requires Inv(d) && d.holder.Writer? && d.holder.write.Entering? && !Shut(d.pool) && FirstFree(d.pool, i)
    requires d.holder.write.size % d.frameBytes == 0 && d.holder.write.size <= d.blockBytes
    ensures Enabled(d, Enter) && Apply(d, Enter) == Copies(d, i, d.holder.write.size)
  {
    hide Inv, PassGate;
    GateIsExact(d, d.holder.write.size);
  }

  /** Arriving at a device nobody holds, up to a reserved slot. */
  lemma WriteReserves(d: Device, tid: nat, size: nat, i: nat)
    requires Inv(d) && d.holder.Nobody? && tid !in d.waiting && !Shut(d.pool) && FirstFree(d.pool, i)
    requires size % d.frameBytes == 0 && size <= d.blockBytes
    ensures Enabled(d, Arrive(tid, size))
    ensures var a := Apply(d, Arrive(tid, size));
            && Enabled(a, LockWrite(tid))
            && var b := Apply(a, LockWrite(tid));
               && Inv(b) && Enabled(b, Enter)
               && Apply(b, Enter) == Copies(d.(holder := Writer(tid, Entering(size))), i, size)
  {
    hide Inv, Apply, Enabled, FirstFree;
    ArriveAndLock(d, tid, size);
    var a := Apply(d, Arrive(tid, size));
    D.StepKeepsInv(d, Arrive(tid, size));
    D.StepKeepsInv(a, LockWrite(tid));
    EnterReserves(Apply(a, LockWrite(tid)), i);
  }

  /** From the reserved slot to the sink's answer. */
  lemma WriteReachesSink(d: Device, i: nat, size: nat)
    requires i < |d.pool.slots| && d.holder.Writer? && !Shut(d.pool)
    ensures var a := Copies(d, i, size);
            && Enabled(a, PublishCopy)
            && var b := Apply(a, PublishCopy);
               && Enabled(b, CountPending)
               && Apply(b, CountPending) ==
                  d.(pool := Filled(d.pool, i, size), holder := Writer(d.holder.tid, Calling(i, size)),
                     counters := d.counters.(pending := d.counters.pending.Add(size)))
  {
    var slots := d.pool.slots;
    assert slots[i := Slot(Reserved, size)][i := Slot(Pending, size)] == slots[i := Slot(Pending, size)];
  }

  lemma WriteAccepted(d: Device, size: nat)
    requires d.holder.Writer? && d.holder.write.Calling? && d.holder.write.size == size && !d.sinkShut
    ensures IsRun(d, [SinkAccepts, CountSubmitted],
                  d.(holder := Writer(d.holder.tid, Returning(true)), held := d.held + {d.holder.write.slot},
                     counters := d.counters.(submitted := d.counters.submitted.Add(size))))
  {
    var a := Apply(d, SinkAccepts);
    var b := Apply(a, CountSubmitted);
    assert [SinkAccepts, CountSubmitted][1..] == [CountSubmitted] && [CountSubmitted][1..] == [];
    assert IsRun(a, [CountSubmitted], b);
  }

  /** The steps up to the sink's answer, and then whatever follows. */
  lemma WriteThen(d: Device, tid: nat, size: nat, i: nat, rest: seq<Step>, end: Device)
    requires Inv(d) && d.holder.Nobody? && tid !in d.waiting && !Shut(d.pool) && FirstFree(d.pool, i)
    requires size % d.frameBytes == 0 && size <= d.blockBytes
    requires IsRun(d.(pool := Filled(d.pool, i, size), holder := Writer(tid, Calling(i, size)),
                      counters := d.counters.(pending := d.counters.pending.Add(size))), rest, end)
    ensures IsRun(d, [Arrive(tid, size), LockWrite(tid), Enter, PublishCopy, CountPending] + rest, end)
  {
    hide Inv, Enabled, Apply, IsRun;
    WriteReserves(d, tid, size, i);
    var a := Apply(d, Arrive(tid, size));
    var b := Apply(a, LockWrite(tid));
    var held := d.(holder := Writer(tid, Entering(size)));
    var c := Copies(held, i, size);
    WriteReachesSink(held, i, size);
    var e := Apply(c, PublishCopy);
    RunOf(e, CountPending, Apply(e, CountPending), rest, end);
    RunOf(c, PublishCopy, e, [CountPending] + rest, end);
    RunOf(b, Enter, c, [PublishCopy] + ([CountPending] + rest), end);
    RunOf(a, LockWrite(tid), b, [Enter] + ([PublishCopy] + ([CountPending] + rest)), end);
    RunOf(d, Arrive(tid, size), a, [LockWrite(tid)] + ([Enter] + ([PublishCopy] + ([CountPending] + rest))), end);
    assert [Arrive(tid, size)] + ([LockWrite(tid)] + ([Enter] + ([PublishCopy] + ([CountPending] + rest)))) ==
           [Arrive(tid, size), LockWrite(tid), Enter, PublishCopy, CountPending] + rest;
  }

  lemma FreeIsNotLent(d: Device, i: nat)
    requires Inv(d) && FirstFree(d.pool, i) && !d.pool.closing
    ensures i !in d.held && !d.sinkShut
  {
    hide Accounted, NoLostWakeup, CountersBalance, ThreadsDistinct;
  }

  /**
   * A write of whole frames, at most a block, on an open device with a Free slot and a sink that
   * accepts, answers true: its slot, the first Free one, is filled and lent to the sink, pending
   * and submitted have grown by exactly this buffer, and nothing else has changed.
   */
  lemma AcceptedWrite(d: Device, tid: nat, size: nat, i: nat)
    requires Inv(d) && d.holder.Nobody? && tid !in d.waiting && !d.pool.closing && d.pool.sinkAlive
    requires FirstFree(d.pool, i) && size % d.frameBytes == 0 && size <= d.blockBytes
    ensures i !in d.held
    ensures IsRun(d, [Arrive(tid, size), LockWrite(tid), Enter, PublishCopy, CountPending, SinkAccepts, CountSubmitted],
                  d.(holder := Writer(tid, Returning(true)),
                     pool := d.pool.(slots := d.pool.slots[i := Slot(Pending, size)],
                                     pendingBuffers := d.pool.pendingBuffers + 1,
                                     pendingBytes := d.pool.pendingBytes + size),
                     held := d.held + {i},
                     counters := d.counters.(pending := d.counters.pending.Add(size),
                                             submitted := d.counters.submitted.Add(size))))
  {
    hide Inv, IsRun, FirstFree;
    FirstIsInPool(d.pool, i);
    FreeIsNotLent(d, i);
    var f := d.(pool := Filled(d.pool, i, size), holder := Writer(tid, Calling(i, size)),
                counters := d.counters.(pending := d.counters.pending.Add(size)));
    WriteAccepted(f, size);
    WriteThen(d, tid, size, i, [SinkAccepts, CountSubmitted],
              f.(holder := Writer(tid, Returning(true)), held := d.held + {i},
                 counters := f.counters.(submitted := d.counters.submitted.Add(size))));
    assert [Arrive(tid, size), LockWrite(tid), Enter, PublishCopy, CountPending] + [SinkAccepts, CountSubmitted] ==
           [Arrive(tid, size), LockWrite(tid), Enter, PublishCopy, CountPending, SinkAccepts, CountSubmitted];
  }

  lemma UndoFilled(d: Device, p: Pool, i: nat, size: nat, tid: nat)
    requires i < |p.slots| && d.pool == Filled(p, i, size) && d.holder == Writer(tid, Refused(i, size))
    ensures Enabled(d, Undo)
    ensures Apply(d, Undo) == d.(holder := Writer(tid, Undone(size)), pool := p.(slots := p.slots[i := Slot(Free, 0)]))
  {
    assert p.slots[i := Slot(Pending, size)][i := Slot(Free, 0)] == p.slots[i := Slot(Free, 0)];
  }

  lemma CountUndone(d: Device, size: nat, tid: nat)
    requires d.holder == Writer(tid, Undone(size))
    ensures Enabled(d, CountUndo)
    ensures Apply(d, CountUndo) == d.(holder := Writer(tid, Returning(false)),
                                      counters := d.counters.(pending := d.counters.pending.Drop(size)))
  {
  }

  lemma RefuseFilled(d: Device, i: nat, size: nat, tid: nat)
    requires d.holder == Writer(tid, Calling(i, size)) && !d.sinkShut
    ensures Enabled(d, SinkRefuses) && Apply(d, SinkRefuses) == d.(holder := Writer(tid, Refused(i, size)))
  {
  }

  lemma WriteRefused(d: Device, p: Pool, i: nat, size: nat, tid: nat)
    requires i < |p.slots| && d.pool == Filled(p, i, size) && d.holder == Writer(tid, Calling(i, size)) && !d.sinkShut
    ensures IsRun(d, [SinkRefuses, Undo, CountUndo],
                  d.(holder := Writer(tid, Returning(false)), pool := p.(slots := p.slots[i := Slot(Free, 0)]),
                     counters := d.counters.(pending := d.counters.pending.Drop(size))))
  {
    hide Apply, Enabled, Filled;
    RefuseFilled(d, i, size, tid);
    var a := Apply(d, SinkRefuses);
    UndoFilled(a, p, i, size, tid);
    var b := Apply(a, Undo);
    CountUndone(b, size, tid);
    var c := Apply(b, CountUndo);
    var none: seq<Step> := [];
    assert IsRun(c, none, c);
    hide IsRun;
    RunOf(b, CountUndo, c, none, c);
    RunOf(a, Undo, b, [CountUndo] + none, c);
    RunOf(d, SinkRefuses, a, [Undo] + ([CountUndo] + none), c);
    assert [SinkRefuses] + ([Undo] + ([CountUndo] + none)) == [SinkRefuses, Undo, CountUndo];
  }

  /** The same write with a sink that refuses answers false and leaves no trace: the slot is Free and empty again. */
  lemma RefusedWrite(d: Device, tid: nat, size: nat, i: nat)
    requires Inv(d) && d.holder.Nobody? && tid !in d.waiting && !d.pool.closing && d.pool.sinkAlive
    requires FirstFree(d.pool, i) && size % d.frameBytes == 0 && size <= d.blockBytes
    ensures IsRun(d, [Arrive(tid, size), LockWrite(tid), Enter, PublishCopy, CountPending,
                      SinkRefuses, Undo, CountUndo],
                  d.(holder := Writer(tid, Returning(false)),
                     pool := d.pool.(slots := d.pool.slots[i := Slot(Free, 0)])))
  {
    hide Inv, IsRun, FirstFree;
    FirstIsInPool(d.pool, i);
    FreeIsNotLent(d, i);
    var f := d.(pool := Filled(d.pool, i, size), holder := Writer(tid, Calling(i, size)),
                counters := d.counters.(pending := d.counters.pending.Add(size)));
    WriteRefused(f, d.pool, i, size, tid);
    var n := d.(holder := Writer(tid, Returning(false)), pool := d.pool.(slots := d.pool.slots[i := Slot(Free, 0)]));
    assert f.counters.pending.Drop(size) == d.counters.pending;
    WriteThen(d, tid, size, i, [SinkRefuses, Undo, CountUndo], n);
    assert [Arrive(tid, size), LockWrite(tid), Enter, PublishCopy, CountPending] + [SinkRefuses, Undo, CountUndo] ==
           [Arrive(tid, size), LockWrite(tid), Enter, PublishCopy, CountPending, SinkRefuses, Undo, CountUndo];
  }

  // ---------------------------------------------------------------- every run

  lemma GeometryStep(d: Device, step: Step)
    requires Enabled(d, step)
    ensures Apply(d, step).frameBytes == d.frameBytes && Apply(d, step).blockBytes == d.blockBytes
  {
    hide Enabled, ApplyWrite, ApplyClose;
    if IsClose(step) {
      D.CloseFrame(d, step);
    } else if !IsRelease(step) {
      D.WriteFrame(d, step);
    } else {
      hide Without, Settle, TakeBack;
    }
  }

  lemma {:induction false} GeometryRun(d: Device, steps: seq<Step>, end: Device)
    requires IsRun(d, steps, end)
    ensures end.frameBytes == d.frameBytes && end.blockBytes == d.blockBytes
    decreases |steps|
  {
    hide Enabled, Apply;
    if steps != [] {
      GeometryStep(d, steps[0]);
      GeometryRun(Apply(d, steps[0]), steps[1..], end);
    }
  }

  /** How far the write of `size` bytes has come since it entered with `submitted` buffers counted. */
  ghost predicate Story(d: Device, tid: nat, size: nat, submitted: Tally, refused: bool, accepted: bool) {
    && InWrite(d, tid)
    && match d.holder.write
       case Returning(ok) =>
         if ok then d.counters.submitted == submitted.Add(size) && Whole(d, size) && accepted
         else d.counters.submitted == submitted && (Shut(d.pool) || refused || !Whole(d, size))
       case Accepted(s) => d.counters.submitted == submitted && s == size && Whole(d, size) && accepted
       case Entering(s) => d.counters.submitted == submitted && s == size
       case Refused(_, s) => d.counters.submitted == submitted && s == size && Whole(d, size) && refused
       case Undone(s) => d.counters.submitted == submitted && s == size && Whole(d, size) && refused
       case w => d.counters.submitted == submitted && w.size == size && Whole(d, size)
  }

  /** Whole frames, and at most a block of them. */
  predicate Whole(d: Device, size: nat) {
    size % d.frameBytes == 0 && size <= d.blockBytes
  }

  lemma EntryStory(d: Device, step: Step, tid: nat, size: nat, submitted: Tally, refused: bool, accepted: bool)
    requires Inv(d) && Enabled(d, step) && D.IsEntry(step) && Story(d, tid, size, submitted, refused, accepted)
    ensures Story(Apply(d, step), tid, size, submitted, refused, accepted)
  {
    if step.Enter? {
      EnterStory(d, tid, size, submitted, refused, accepted);
    } else if step.Recheck? {
      RecheckStory(d, tid, size, submitted, refused, accepted);
    } else {
      hide Inv, PassGate, GateAnswer;
    }
  }

  lemma EnterStory(d: Device, tid: nat, size: nat, submitted: Tally, refused: bool, accepted: bool)
    requires Inv(d) && Enabled(d, Enter) && Story(d, tid, size, submitted, refused, accepted)
    ensures Story(Apply(d, Enter), tid, size, submitted, refused, accepted)
  {
    hide Inv, PassGate, FirstFree;
    if !Shut(d.pool) && Whole(d, size) {
      GateIsExact(d, size);
    }
  }

  lemma RecheckStory(d: Device, tid: nat, size: nat, submitted: Tally, refused: bool, accepted: bool)
    requires Inv(d) && Enabled(d, Recheck) && Story(d, tid, size, submitted, refused, accepted)
    ensures Story(Apply(d, Recheck), tid, size, submitted, refused, accepted)
  {
    hide Inv, PassGate, FirstFree;
    if Shut(d.pool) {
      ShutGate(d, size);
    } else {
      GateIsExact(d, size);
    }
  }

  lemma ShutGate(d: Device, size: nat)
    requires Shut(d.pool) && d.holder.Writer?
    ensures PassGate(d, size) == d.(holder := Writer(d.holder.tid, Returning(false)))
  {
  }

  lemma HandOverStory(d: Device, step: Step, tid: nat, size: nat, submitted: Tally, refused: bool, accepted: bool)
    requires Enabled(d, step) && D.IsHandOver(step) && Story(d, tid, size, submitted, refused, accepted)
    ensures Story(Apply(d, step), tid, size, submitted, refused || step.SinkRefuses?, accepted || step.SinkAccepts?)
  {
  }

  lemma EndingStory(d: Device, step: Step, tid: nat, size: nat, submitted: Tally, refused: bool, accepted: bool)
    requires Enabled(d, step) && D.IsEnding(step) && !step.LeaveWrite?
    requires Story(d, tid, size, submitted, refused, accepted)
    ensures Story(Apply(d, step), tid, size, submitted, refused, accepted)
  {
  }

  lemma ReleaseStory(d: Device, step: Step, tid: nat, size: nat, submitted: Tally, refused: bool, accepted: bool)
    requires Enabled(d, step) && IsRelease(step) && Story(d, tid, size, submitted, refused, accepted)
    ensures Story(Apply(d, step), tid, size, submitted, refused, accepted)
  {
    hide Without;
  }

  lemma CloseStory(d: Device, step: Step, tid: nat, size: nat, submitted: Tally, refused: bool, accepted: bool)
    requires Enabled(d, step) && IsClose(step) && Story(d, tid, size, submitted, refused, accepted)
    ensures Story(Apply(d, step), tid, size, submitted, refused, accepted)
  {
  }

  lemma StoryStep(d: Device, step: Step, tid: nat, size: nat, submitted: Tally, refused: bool, accepted: bool)
    requires Inv(d) && Enabled(d, step) && !step.LeaveWrite? && Story(d, tid, size, submitted, refused, accepted)
    ensures Story(Apply(d, step), tid, size, submitted, refused || step.SinkRefuses?, accepted || step.SinkAccepts?)
  {
    hide Inv, Enabled, Apply, Story;
    if IsRelease(step) {
      ReleaseStory(d, step, tid, size, submitted, refused, accepted);
    } else if IsClose(step) {
      CloseStory(d, step, tid, size, submitted, refused, accepted);
    } else if D.IsEntry(step) {
      EntryStory(d, step, tid, size, submitted, refused, accepted);
    } else if D.IsHandOver(step) {
      HandOverStory(d, step, tid, size, submitted, refused, accepted);
    } else {
      EndingStory(d, step, tid, size, submitted, refused, accepted);
    }
  }

  lemma {:induction false} StoryRun(d: Device, steps: seq<Step>, end: Device, tid: nat, size: nat, submitted: Tally,
                                    refused: bool, accepted: bool)
    requires Inv(d) && IsRun(d, steps, end) && LeaveWrite !in steps && Story(d, tid, size, submitted, refused, accepted)
    ensures Story(end, tid, size, submitted, refused || SinkRefuses in steps,
                  accepted || SinkAccepts in steps)
    decreases |steps|
  {
    hide Inv, Enabled, Apply, Story;
    if steps != [] {
      StoryStep(d, steps[0], tid, size, submitted, refused, accepted);
      D.StepKeepsInv(d, steps[0]);
      StoryRun(Apply(d, steps[0]), steps[1..], end, tid, size, submitted, refused || steps[0].SinkRefuses?,
               accepted || steps[0].SinkAccepts?);
    }
  }

  /**
   * In every run, from the moment a write has the device until it gives it up: nobody else gets it;
   * submitted grows by exactly this buffer if the write answers true and not at all if it answers
   * false; and it answers false only if the size is wrong, the device is closing, or the sink refused.
   */
  lemma WriteAnswersTheTruth(frameBytes: FrameSize, blockBytes: nat, blocks: nat, before: seq<Step>, d: Device,
                             tid: nat, size: nat, steps: seq<Step>, end: Device)
    requires IsRun(NewDevice(frameBytes, blockBytes, blocks), before, d)
    requires d.holder == Writer(tid, Entering(size)) && IsRun(d, steps, end) && LeaveWrite !in steps
    ensures end.holder.Writer? && end.holder.tid == tid
    ensures end.counters.submitted == if end.holder.write == Returning(true) then d.counters.submitted.Add(size)
                                      else d.counters.submitted
    ensures end.holder.write == Returning(false) ==>
              size % frameBytes != 0 || size > blockBytes || end.pool.closing || SinkRefuses in steps
    ensures end.holder.write == Returning(true) ==>
              size % frameBytes == 0 && size <= blockBytes && SinkAccepts in steps
  {
    var fresh' := NewDevice(frameBytes, blockBytes, blocks);
    D.NewDeviceInv(frameBytes, blockBytes, blocks);
    D.RunKeepsInv(fresh', before, d);
    D.RunKeepsInv(d, steps, end);
    GeometryRun(fresh', before, d);
    GeometryRun(d, steps, end);
    assert Story(d, tid, size, d.counters.submitted, false, false);
    StoryRun(d, steps, end, tid, size, d.counters.submitted, false, false);
    assert SinkAgrees(end);
    hide IsRun, Inv;
  }
}
