/** What becomes of a buffer: it fits its slot, and whether the device was closing decides how it counts. */
module FmodFates {
  import opened FmodPool
  import opened FmodDevice
  import D = FmodDeviceRuns

  // ---------------------------------------------------------------- sizes

  /** Whole frames, and no more than a slot's storage. */
  predicate Fits(d: Device, size: nat) {
    size % d.frameBytes == 0 && size <= d.blockBytes
  }

  ghost predicate SlotsFit(d: Device) {
    forall i :: 0 <= i < |d.pool.slots| ==> d.pool.slots[i].state == Free || Fits(d, d.pool.slots[i].size)
  }

  /** Past the argument checks of a write. */
  predicate Admitted(w: WritePc) {
    !w.Entering? && !w.Returning?
  }

  ghost predicate WriteFits(d: Device) {
    d.holder.Writer? && Admitted(d.holder.write) ==> Fits(d, d.holder.write.size)
  }

  ghost predicate SizesFit(d: Device) {
    SlotsFit(d) && WriteFits(d)
  }

  lemma PassGateFits(d: Device, size: nat)
    requires SizesFit(d) && d.holder.Writer? && Fits(d, size)
    ensures SizesFit(PassGate(d, size))
  {
    hide FindFreeSlot, Fits;
    D.PassGateFrame(d, size);
    assert Fits(PassGate(d, size), size) by {
      SameFits(d, PassGate(d, size), size);
    }
    forall i | 0 <= i < |d.pool.slots| && Fits(d, d.pool.slots[i].size)
      ensures Fits(PassGate(d, size), d.pool.slots[i].size)
    {
      SameFits(d, PassGate(d, size), d.pool.slots[i].size);
    }
  }

  lemma SameFits(d: Device, n: Device, size: nat)
    requires n.frameBytes == d.frameBytes && n.blockBytes == d.blockBytes
    ensures Fits(n, size) == Fits(d, size)
  {
  }

  lemma EntryFits(d: Device, step: Step)
    requires SizesFit(d) && Enabled(d, step) && D.IsEntry(step)
    ensures SizesFit(ApplyWrite(d, step))
  {
    hide PassGate;
    if (step.Enter? || step.Recheck?) && Fits(d, d.holder.write.size) {
      PassGateFits(d, d.holder.write.size);
    }
  }

  lemma HandOverFits(d: Device, step: Step)
    requires SizesFit(d) && Enabled(d, step) && D.IsHandOver(step)
    ensures SizesFit(ApplyWrite(d, step))
  {
  }

  lemma EndingFits(d: Device, step: Step)
    requires SizesFit(d) && Enabled(d, step) && D.IsEnding(step)
    ensures SizesFit(ApplyWrite(d, step))
  {
    hide Subtract;
  }

  lemma ReleaseFits(d: Device, step: Step)
    requires SizesFit(d) && Enabled(d, step) && IsRelease(step)
    ensures SizesFit(ApplyRelease(d, step))
  {
    hide Settle, Without;
  }

  lemma CloseFits(d: Device, step: Step)
    requires SizesFit(d) && Enabled(d, step) && IsClose(step)
    ensures SizesFit(ApplyClose(d, step))
  {
  }

  lemma SizesStep(d: Device, step: Step)
    requires SizesFit(d) && Enabled(d, step)
    ensures SizesFit(Apply(d, step))
  {
    hide Enabled, ApplyWrite, ApplyClose, ApplyRelease, SizesFit;
    if IsRelease(step) {
      ReleaseFits(d, step);
    } else if IsClose(step) {
      CloseFits(d, step);
    } else if D.IsEntry(step) {
      EntryFits(d, step);
    } else if D.IsHandOver(step) {
      HandOverFits(d, step);
    } else {
      EndingFits(d, step);
    }
  }

  lemma {:induction false} SizesRun(d: Device, steps: seq<Step>, end: Device)
    requires SizesFit(d) && IsRun(d, steps, end)
    ensures SizesFit(end)
    decreases |steps|
  {
    hide SizesFit;
    if steps != [] {
      SizesStep(d, steps[0]);
      SizesRun(Apply(d, steps[0]), steps[1..], end);
    }
  }

  /** No copy ever exceeds the storage of its slot: every slot in use holds whole frames of at most a block. */
  lemma CopiesFitTheirSlots(frameBytes: FrameSize, blockBytes: nat, blocks: nat, steps: seq<Step>, d: Device)
    requires IsRun(NewDevice(frameBytes, blockBytes, blocks), steps, d)
    ensures forall i :: 0 <= i < |d.pool.slots| ==> d.pool.slots[i].state == Free || Fits(d, d.pool.slots[i].size)
    ensures d.holder.Writer? && d.holder.write.Copying? ==> Fits(d, d.holder.write.size)
  {
    SizesRun(NewDevice(frameBytes, blockBytes, blocks), steps, d);
    hide IsRun;
  }

  // ---------------------------------------------------------------- consumed or discarded

  function KindTally(rs: seq<Released>, discarded: bool): Tally {
    if |rs| == 0 then Tally(0, 0)
    else if rs[0].discarded == discarded then KindTally(rs[1..], discarded).Add(rs[0].size)
    else KindTally(rs[1..], discarded)
  }

  lemma {:induction false} KindAppend(rs: seq<Released>, r: Released, discarded: bool)
    ensures KindTally(rs + [r], discarded) ==
            if r.discarded == discarded then KindTally(rs, discarded).Add(r.size) else KindTally(rs, discarded)
  {
    if |rs| > 0 {
      KindAppend(rs[1..], r, discarded);
      assert (rs + [r])[1..] == rs[1..] + [r];
    } else {
      assert (rs + [r])[0] == r;
      assert |(rs + [r])[1..]| == 0;
    }
  }

  lemma {:induction false} KindWithout(rs: seq<Released>, i: nat, discarded: bool)
    requires i < |rs|
    ensures KindTally(rs, discarded) ==
            if rs[i].discarded == discarded then KindTally(Without(rs, i), discarded).Add(rs[i].size)
            else KindTally(Without(rs, i), discarded)
  {
    if i > 0 {
      KindWithout(rs[1..], i - 1, discarded);
      assert Without(rs, i)[1..] == Without(rs[1..], i - 1);
    } else {
      assert Without(rs, 0) == rs[1..];
    }
  }

  /** Everything counted as discarded, or as consumed, once the releases in flight are through. */
  function Bound(d: Device, discarded: bool): Tally {
    var c := if discarded then d.counters.discarded else d.counters.consumed;
    var n, k := KindTally(d.notifying, discarded), KindTally(d.counting, discarded);
    Tally(c.buffers + n.buffers + k.buffers, c.bytes + n.bytes + k.bytes)
  }

  lemma ReleaseBound(d: Device, step: Step, discarded: bool)
    requires Enabled(d, step) && IsRelease(step)
    ensures Bound(ApplyRelease(d, step), discarded) ==
            if step.Release? && IsPending(d.pool, step.slot) && d.pool.closing == discarded
            then Bound(d, discarded).Add(d.pool.slots[step.slot].size) else Bound(d, discarded)
  {
    hide KindTally, TakeBack, Without;
    if step.Release? {
      KindAppend(d.notifying, Receipt(d.pool, step.slot), discarded);
    } else if step.NotifyRelease? {
      KindWithout(d.notifying, step.index, discarded);
      KindAppend(d.counting, d.notifying[step.index], discarded);
    } else {
      KindWithout(d.counting, step.settled, discarded);
    }
  }

  lemma SameBound(d: Device, n: Device, discarded: bool)
    requires n.notifying == d.notifying && n.counting == d.counting
    requires n.counters.consumed == d.counters.consumed && n.counters.discarded == d.counters.discarded
    ensures Bound(n, discarded) == Bound(d, discarded)
  {
    hide KindTally;
  }

  lemma OtherBound(d: Device, step: Step, discarded: bool)
    requires Enabled(d, step) && !IsRelease(step)
    ensures Bound(Apply(d, step), discarded) == Bound(d, discarded)
  {
    hide Bound, Enabled, ApplyWrite, ApplyClose, ApplyRelease;
    if IsClose(step) {
      D.CloseFrame(d, step);
    } else {
      D.WriteFrame(d, step);
    }
    SameBound(d, Apply(d, step), discarded);
  }

  /**
   * A buffer's fate is decided when it comes back: it will count as discarded if the device is closing
   * by then and as consumed if not, once, with its size; no other step changes either sum.
   */
  lemma ReleaseDecidesFate(d: Device, step: Step, discarded: bool)
    requires Enabled(d, step)
    ensures Bound(Apply(d, step), discarded) ==
            if step.Release? && IsPending(d.pool, step.slot) && d.pool.closing == discarded
            then Bound(d, discarded).Add(d.pool.slots[step.slot].size) else Bound(d, discarded)
  {
    hide Bound, ApplyWrite, ApplyClose, ApplyRelease;
    if IsRelease(step) {
      ReleaseBound(d, step, discarded);
    } else {
      OtherBound(d, step, discarded);
    }
  }

  lemma ClosingStays(d: Device, step: Step)
    requires Enabled(d, step)
    ensures Apply(d, step).pool.closing == (d.pool.closing || step.BeginClose?)
  {
    if IsRelease(step) {
      hide ApplyWrite, ApplyClose, Settle, Without;
    } else if IsClose(step) {
      hide ApplyWrite, ApplyRelease;
    } else {
      D.WriteFrame(d, step);
      hide ApplyWrite, ApplyClose, ApplyRelease, Enabled;
    }
  }

  /** Nothing is consumed that comes back after a close has begun. */
  lemma {:induction false} ClosingEndsConsumption(d: Device, steps: seq<Step>, end: Device)
    requires d.pool.closing && IsRun(d, steps, end)
    ensures end.pool.closing && Bound(end, false) == Bound(d, false)
    decreases |steps|
  {
    hide Bound, Enabled, Apply;
    if steps != [] {
      ClosingStays(d, steps[0]);
      ReleaseDecidesFate(d, steps[0], false);
      ClosingEndsConsumption(Apply(d, steps[0]), steps[1..], end);
    }
  }

  /** And nothing is discarded before. */
  lemma {:induction false} OpenDeviceDiscardsNothing(d: Device, steps: seq<Step>, end: Device)
    requires IsRun(d, steps, end) && !end.pool.closing
    ensures !d.pool.closing && Bound(end, true) == Bound(d, true)
    decreases |steps|
  {
    hide Bound, Enabled, Apply;
    if steps != [] {
      OpenDeviceDiscardsNothing(Apply(d, steps[0]), steps[1..], end);
      ClosingStays(d, steps[0]);
      ReleaseDecidesFate(d, steps[0], true);
    }
  }
}
