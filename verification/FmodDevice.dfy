/**
 * One FMOD output device as a step system: a pool of slots, a sink that borrows them, writers that
 * block for capacity, and closers. A step is one region under the device mutex, one call into the
 * sink, one notification, or one group of counter updates; threads interleave at every step.
 */
module FmodDevice {
  import opened FmodPool

  /** The size of a PCM frame: never zero for a valid format. */
  type FrameSize = n: int | n > 0 witness 1

  /** What the write that holds the operation mutex is about to do. */
  datatype WritePc =
    | Entering(size: nat)
    | Asleep(size: nat)
    | Awake(size: nat)
    | Copying(slot: nat, size: nat)
    | Published(slot: nat, size: nat)
    | Calling(slot: nat, size: nat)
    | Accepted(size: nat)
    | Refused(slot: nat, size: nat)
    | Undone(size: nat)
    | Returning(ok: bool)

  datatype ClosePc = CallingSink | InSink | Inspecting | Closed(clean: bool)

  /** The holder of the operation mutex. */
  datatype Holder = Nobody | Writer(tid: nat, write: WritePc) | Closer(tid: nat, close: ClosePc)

  /** The device's share of the runtime counters. */
  datatype Counters = Counters(pending: Tally, submitted: Tally, consumed: Tally, discarded: Tally)

  datatype Device = Device(
    frameBytes: FrameSize, blockBytes: nat,
    pool: Pool,
    holder: Holder,
    waiting: map<nat, nat>,     // writers that want the operation mutex, with their sizes
    announcing: set<nat>,       // closers that have set `closing` and not yet notified
    closers: set<nat>,          // closers that want the operation mutex
    held: set<nat>,             // slots the sink has borrowed
    sinkShut: bool,             // the sink's Shutdown was called
    notifying: seq<Released>,   // release callbacks past their locked region
    counting: seq<Released>,    // release callbacks past their notification
    counters: Counters,
    lateEnqueue: bool,          // the sink was given a buffer after its Shutdown
    inconsistent: bool)         // a branch for broken accounting was taken

  function NewDevice(frameBytes: FrameSize, blockBytes: nat, blocks: nat): Device {
    Device(frameBytes, blockBytes, NewPool(blocks), Nobody, map[], {}, {}, {}, false, [], [],
           Counters(Tally(0, 0), Tally(0, 0), Tally(0, 0), Tally(0, 0)), false, false)
  }

  // ---------------------------------------------------------------- steps

  datatype Step =
    | Arrive(tid: nat, size: nat)
    | LockWrite(writer: nat)
    | Enter
    | Recheck
    | SpuriousWake
    | PublishCopy
    | CountPending
    | SinkAccepts
    | SinkRefuses
    | Undo
    | CountUndo
    | CountSubmitted
    | LeaveWrite
    | BeginClose(closer: nat)
    | NotifyClose(notifier: nat)
    | LockClose(locker: nat)
    | CallShutdown
    | ShutdownReturns
    | Inspect
    | LeaveClose
    | Release(slot: nat)
    | NotifyRelease(index: nat)
    | CountRelease(settled: nat)

  function Writing(d: Device, pc: WritePc): Device {
    if d.holder.Writer? then d.(holder := Writer(d.holder.tid, pc)) else d
  }

  predicate HasSlot(w: WritePc) {
    w.Copying? || w.Published? || w.Calling? || w.Refused?
  }

  predicate InPool(d: Device) {
    d.holder.Writer? && HasSlot(d.holder.write) && d.holder.write.slot < |d.pool.slots|
  }

  predicate Sleeping(d: Device) {
    d.holder.Writer? && d.holder.write.Asleep?
  }

  predicate CloseIs(d: Device, pc: ClosePc) {
    d.holder.Closer? && d.holder.close == pc
  }

  predicate WritesIn(d: Device, tid: nat) {
    tid in d.waiting || (d.holder.Writer? && d.holder.tid == tid)
  }

  predicate ClosesIn(d: Device, tid: nat) {
    tid in d.announcing || tid in d.closers || (d.holder.Closer? && d.holder.tid == tid)
  }

  predicate Enabled(d: Device, step: Step) {
    match step
    case Arrive(tid, _) => !WritesIn(d, tid)
    case LockWrite(tid) => d.holder.Nobody? && tid in d.waiting
    case Enter => d.holder.Writer? && d.holder.write.Entering?
    case Recheck => d.holder.Writer? && d.holder.write.Awake?
    case SpuriousWake => Sleeping(d)
    case PublishCopy => InPool(d) && d.holder.write.Copying?
    case CountPending => d.holder.Writer? && d.holder.write.Published?
    case SinkAccepts => d.holder.Writer? && d.holder.write.Calling?
    case SinkRefuses => d.holder.Writer? && d.holder.write.Calling?
    case Undo => d.holder.Writer? && d.holder.write.Refused?
    case CountUndo => d.holder.Writer? && d.holder.write.Undone?
    case CountSubmitted => d.holder.Writer? && d.holder.write.Accepted?
    case LeaveWrite => d.holder.Writer? && d.holder.write.Returning?
    case BeginClose(tid) => !ClosesIn(d, tid)
    case NotifyClose(tid) => tid in d.announcing
    case LockClose(tid) => d.holder.Nobody? && tid in d.closers
    case CallShutdown => CloseIs(d, CallingSink)
    case ShutdownReturns => CloseIs(d, InSink) && d.held == {}
    case Inspect => CloseIs(d, Inspecting)
    case LeaveClose => d.holder.Closer? && d.holder.close.Closed?
    case Release(slot) => slot in d.held && slot < |d.pool.slots|
    case NotifyRelease(i) => i < |d.notifying|
    case CountRelease(i) => i < |d.counting|
  }

  /** The capacity gate and the reservation behind it. */
  function PassGate(d: Device, size: nat): Device {
    var d' := d.(pool := Reserve(d.pool, size));
    match GateAnswer(d.pool)
    case Blocked => Writing(d', Asleep(size))
    case Denied => Writing(d', Returning(false))
    case Exhausted => Writing(d', Returning(false)).(inconsistent := true)
    case Granted(slot) => Writing(d', Copying(slot, size))
  }

  /** Wakes the writer that sleeps for capacity. */
  function NotifyAll(d: Device): Device {
    if Sleeping(d) then Writing(d, Awake(d.holder.write.size)) else d
  }

  function Settle(c: Counters, r: Released): Counters {
    var c' := c.(pending := c.pending.Drop(r.size));
    if r.discarded then c'.(discarded := c.discarded.Add(r.size))
    else c'.(consumed := c.consumed.Add(r.size))
  }

  function Without(rs: seq<Released>, i: nat): seq<Released>
    requires i < |rs|
  {
    rs[..i] + rs[i + 1..]
  }

  function ApplyWrite(d: Device, step: Step): Device
    requires Enabled(d, step)
  {
    match step
    case Arrive(tid, size) => d.(waiting := d.waiting[tid := size])
    case LockWrite(tid) => d.(waiting := d.waiting - {tid}, holder := Writer(tid, Entering(d.waiting[tid])))
    case Enter =>
      var size := d.holder.write.size;
      if Shut(d.pool) || size % d.frameBytes != 0 || size > d.blockBytes then Writing(d, Returning(false))
      else PassGate(d, size)
    case Recheck => PassGate(d, d.holder.write.size)
    case SpuriousWake => NotifyAll(d)
    case PublishCopy =>
      var slot, size := d.holder.write.slot, d.holder.write.size;
      Writing(d, if Shut(d.pool) then Returning(false) else Published(slot, size)).(pool := Publish(d.pool, slot, size))
    case CountPending =>
      var slot, size := d.holder.write.slot, d.holder.write.size;
      Writing(d, Calling(slot, size)).(counters := d.counters.(pending := d.counters.pending.Add(size)))
    case SinkAccepts =>
      var slot, size := d.holder.write.slot, d.holder.write.size;
      Writing(d, Accepted(size)).(held := d.held + {slot}, lateEnqueue := d.lateEnqueue || d.sinkShut)
    case SinkRefuses =>
      Writing(d, Refused(d.holder.write.slot, d.holder.write.size)).(lateEnqueue := d.lateEnqueue || d.sinkShut)
    case Undo =>
      var slot, size := d.holder.write.slot, d.holder.write.size;
      Writing(d, if IsPending(d.pool, slot) then Undone(size) else Returning(false))
        .(pool := Withdraw(d.pool, slot, size), inconsistent := d.inconsistent || !IsPending(d.pool, slot))
    case CountUndo =>
      var size := d.holder.write.size;
      Writing(d, Returning(false)).(counters := d.counters.(pending := d.counters.pending.Drop(size)))
    case CountSubmitted =>
      var size := d.holder.write.size;
      Writing(d, Returning(true)).(counters := d.counters.(submitted := d.counters.submitted.Add(size)))
    case LeaveWrite => d.(holder := Nobody)
    case _ => d
  }

  function ApplyClose(d: Device, step: Step): Device
    requires Enabled(d, step)
  {
    match step
    case BeginClose(tid) => d.(pool := d.pool.(closing := true), announcing := d.announcing + {tid})
    case NotifyClose(tid) => NotifyAll(d).(announcing := d.announcing - {tid}, closers := d.closers + {tid})
    case LockClose(tid) => d.(closers := d.closers - {tid}, holder := Closer(tid, CallingSink))
    case CallShutdown =>
      if d.pool.sinkAlive then d.(sinkShut := true, holder := Closer(d.holder.tid, InSink))
      else d.(holder := Closer(d.holder.tid, Inspecting))
    case ShutdownReturns => d.(holder := Closer(d.holder.tid, Inspecting))
    case Inspect =>
      d.(pool := d.pool.(sinkAlive := false), holder := Closer(d.holder.tid, Closed(AllReturned(d.pool))))
    case LeaveClose => d.(holder := Nobody)
    case _ => d
  }

  function ApplyRelease(d: Device, step: Step): Device
    requires Enabled(d, step)
  {
    match step
    case Release(slot) =>
      var taken := IsPending(d.pool, slot);
      d.(pool := TakeBack(d.pool, slot), held := d.held - {slot}, inconsistent := d.inconsistent || !taken,
         notifying := if taken then d.notifying + [Receipt(d.pool, slot)] else d.notifying)
    case NotifyRelease(i) =>
      NotifyAll(d).(notifying := Without(d.notifying, i), counting := d.counting + [d.notifying[i]])
    case CountRelease(i) =>
      d.(counting := Without(d.counting, i), counters := Settle(d.counters, d.counting[i]))
    case _ => d
  }

  predicate IsRelease(step: Step) {
    step.Release? || step.NotifyRelease? || step.CountRelease?
  }

  predicate IsClose(step: Step) {
    || step.BeginClose? || step.NotifyClose? || step.LockClose? || step.CallShutdown? || step.ShutdownReturns?
    || step.Inspect? || step.LeaveClose?
  }

  function Apply(d: Device, step: Step): Device
    requires Enabled(d, step)
  {
    if IsRelease(step) then ApplyRelease(d, step)
    else if IsClose(step) then ApplyClose(d, step)
    else ApplyWrite(d, step)
  }

  ghost predicate IsRun(d: Device, steps: seq<Step>, end: Device)
    decreases |steps|
  {
    if steps == [] then d == end
    else Enabled(d, steps[0]) && IsRun(Apply(d, steps[0]), steps[1..], end)
  }

  // ---------------------------------------------------------------- invariants

  /** The slot that the write in progress has made Pending but not handed over. */
  predicate WriterOwns(h: Holder, slot: nat) {
    h.Writer? && (h.write.Published? || h.write.Calling? || h.write.Refused?) && h.write.slot == slot
  }

  predicate WriterReserves(h: Holder, slot: nat) {
    h.Writer? && h.write.Copying? && h.write.slot == slot
  }

  /** Each slot is Reserved for the copy in progress, Pending with the writer or the sink, or Free. */
  ghost predicate SlotsAgree(d: Device) {
    var slots := d.pool.slots;
    && (forall i :: 0 <= i < |slots| ==> (slots[i].state == Reserved <==> WriterReserves(d.holder, i)))
    && (forall i :: 0 <= i < |slots| ==> (slots[i].state == Pending <==> i in d.held || WriterOwns(d.holder, i)))
    && (forall i :: i in d.held ==> i < |slots| && !WriterOwns(d.holder, i))
    && (d.holder.Writer? && HasSlot(d.holder.write) ==>
          d.holder.write.slot < |slots| && slots[d.holder.write.slot].size == d.holder.write.size)
  }

  /** A writer past the gate excludes the sink's Shutdown, and only a shut-down sink is dropped. */
  ghost predicate SinkAgrees(d: Device) {
    && (d.sinkShut ==> d.pool.closing)
    && (d.sinkShut && d.holder.Writer? ==> d.holder.write.Entering? || d.holder.write.Returning?)
    && (!d.pool.sinkAlive ==> d.sinkShut)
    && (d.sinkShut && !CloseIs(d, InSink) ==> d.held == {})
    && (CloseIs(d, InSink) ==> d.sinkShut)
    && (d.holder.Closer? && (d.holder.close.Inspecting? || d.holder.close.Closed?) ==> d.sinkShut)
    && (d.holder.Closer? || d.closers != {} || d.announcing != {} ==> d.pool.closing)
    && (d.holder.Closer? && d.holder.close.Closed? ==> d.holder.close.clean && !d.pool.sinkAlive)
    && !d.lateEnqueue && !d.inconsistent
  }

  /** A sleeping writer that could go on has a notification on its way. */
  ghost predicate NoLostWakeup(d: Device) {
    Sleeping(d) && CanProceed(d.pool) ==> d.announcing != {} || |d.notifying| > 0
  }

  function ReleasedTally(rs: seq<Released>): Tally {
    if |rs| == 0 then Tally(0, 0) else ReleasedTally(rs[1..]).Add(rs[0].size)
  }

  /** What the write in progress still owes to, or has left too long in, each counter. */
  function OwedPending(h: Holder): Tally {
    if h.Writer? && h.write.Published? then Tally(1, h.write.size)
    else if h.Writer? && h.write.Undone? then Tally(-1, 0 - h.write.size)
    else Tally(0, 0)
  }

  function OwedSubmitted(h: Holder): Tally {
    if h.Writer? && (h.write.Accepted? || h.write.Published? || h.write.Calling? || h.write.Refused?)
    then Tally(1, h.write.size)
    else Tally(0, 0)
  }

  function InFlight(d: Device): Tally {
    var n, c := ReleasedTally(d.notifying), ReleasedTally(d.counting);
    Tally(n.buffers + c.buffers, n.bytes + c.bytes)
  }

  /** The counters against the pool, the releases in flight, and the write in progress. */
  ghost predicate CountersBalance(d: Device) {
    var c, p, f := d.counters, d.pool, InFlight(d);
    var late, missing := OwedPending(d.holder), OwedSubmitted(d.holder);
    && c.pending.buffers + late.buffers == p.pendingBuffers + f.buffers
    && c.pending.bytes + late.bytes == p.pendingBytes + f.bytes
    && c.submitted.buffers + missing.buffers ==
       c.consumed.buffers + c.discarded.buffers + f.buffers + p.pendingBuffers
    && c.submitted.bytes + missing.bytes == c.consumed.bytes + c.discarded.bytes + f.bytes + p.pendingBytes
  }

  /** Every buffer and byte submitted is consumed, discarded or pending. */
  ghost predicate Conserved(c: Counters) {
    && c.submitted.buffers == c.consumed.buffers + c.discarded.buffers + c.pending.buffers
    && c.submitted.bytes == c.consumed.bytes + c.discarded.bytes + c.pending.bytes
  }

  /** A thread is at one place of a write, and at one place of a close. */
  ghost predicate ThreadsDistinct(d: Device) {
    && (d.holder.Writer? ==> d.holder.tid !in d.waiting)
    && d.announcing !! d.closers
    && (d.holder.Closer? ==> d.holder.tid !in d.announcing && d.holder.tid !in d.closers)
  }

  ghost predicate Inv(d: Device) {
    ThreadsDistinct(d) && SlotsAgree(d) && Accounted(d.pool) && SinkAgrees(d) && NoLostWakeup(d) && CountersBalance(d)
  }
}
