/** Left alone, the FMOD runtime comes to rest: every shutdown completes within a bound known beforehand. */
module FmodTermination {
  import opened FmodDevice
  import P = FmodProgress
  import opened FmodRuntime
  import opened FmodRuntimeSteps
  import opened FmodRuntimeRuns

  /** A bound on the steps a call can still take, those of the device steps it starts included. */
  function CallRank(c: Call): nat {
    match c
    case InitEntered(_) => 18
    case InitReserved(_) => 17
    case InitHasSink(_, _) => 16
    case InitHasDevice(_, _) => 15
    case InitCancels(_) => 4
    case WriteEntered(_, _) => 18
    case InWrite(_) => 4
    case CloseEntered(_) => 15
    case MustClose(_) => 14
    case InClose(_) => 4
    case Exiting => 3
  }

  function ShutterRank(s: Shutter): nat {
    match s
    case NotStarted => 0
    case Between(todo) => 3 + 12 * |todo|
    case ClosingOne(_, todo) => 5 + 12 * |todo|
    case Waiting => 2
    case Completing => 1
    case Done => 0
  }

  function DevicesRank(devs: seq<Device>): nat {
    if |devs| == 0 then 0 else P.Rank(devs[0]) + DevicesRank(devs[1..])
  }

  /** Over the threads numbered below `n`. */
  function CallsRank(calls: map<nat, Call>, n: nat): nat {
    if n == 0 then 0 else (if n - 1 in calls then CallRank(calls[n - 1]) else 0) + CallsRank(calls, n - 1)
  }

  function Rank(r: Runtime, n: nat): nat {
    DevicesRank(r.devs) + CallsRank(r.calls, n) + ShutterRank(r.shutter) + 2 * r.leaving
  }

  lemma {:induction false} DevicesUpdate(devs: seq<Device>, i: nat, d: Device)
    requires i < |devs|
    ensures DevicesRank(devs[i := d]) == DevicesRank(devs) - P.Rank(devs[i]) + P.Rank(d)
  {
    hide P.Rank;
    if i > 0 {
      DevicesUpdate(devs[1..], i - 1, d);
      assert devs[i := d][1..] == devs[1..][i - 1 := d];
    } else {
      assert devs[i := d][1..] == devs[1..];
    }
  }

  lemma {:induction false} DevicesAppend(devs: seq<Device>, d: Device)
    ensures DevicesRank(devs + [d]) == DevicesRank(devs) + P.Rank(d)
  {
    hide P.Rank;
    if |devs| > 0 {
      DevicesAppend(devs[1..], d);
      assert (devs + [d])[1..] == devs[1..] + [d];
    } else {
      assert (devs + [d])[0] == d;
      assert |(devs + [d])[1..]| == 0;
    }
  }

  lemma {:induction false} CallsUpdate(calls: map<nat, Call>, tid: nat, c: Call, n: nat)
    requires tid in calls
    ensures CallsRank(calls[tid := c], n) ==
            CallsRank(calls, n) + if tid < n then CallRank(c) - CallRank(calls[tid]) else 0
  {
    hide CallRank;
    if n > 0 {
      CallsUpdate(calls, tid, c, n - 1);
    }
  }

  lemma {:induction false} CallsRemove(calls: map<nat, Call>, tid: nat, n: nat)
    requires tid in calls
    ensures CallsRank(calls - {tid}, n) == CallsRank(calls, n) - if tid < n then CallRank(calls[tid]) else 0
  {
    hide CallRank;
    if n > 0 {
      CallsRemove(calls, tid, n - 1);
    }
  }

  /** Every call has a number below `n`. */
  ghost predicate Numbered(r: Runtime, n: nat) {
    forall tid :: tid in r.calls ==> tid < n
  }

  /** No new call, no new shutdown, and nobody woken for no reason. */
  predicate Bounded(step: RuntimeStep) {
    && !step.EnterInit? && !step.EnterWrite? && !step.EnterClose? && !step.BeginShutdown? && !step.ShutterWakes?
    && (step.InDevice? ==> !step.step.SpuriousWake?)
  }

  /** A call alone moves on. */
  lemma CallAlone(r: Runtime, m: Runtime, tid: nat, c: Call, n: nat)
    requires tid in r.calls && Numbered(r, n) && m.devs == r.devs && m.shutter == r.shutter && m.leaving == r.leaving
    requires m.calls == r.calls[tid := c] && CallRank(c) < CallRank(r.calls[tid])
    ensures Rank(m, n) < Rank(r, n) && Numbered(m, n)
  {
    hide DevicesRank, CallsRank, CallRank, P.Rank;
    CallsUpdate(r.calls, tid, c, n);
  }

  lemma AllocateLowersRank(r: Runtime, tid: nat, n: nat)
    requires CanStep(r, AllocateDevice(tid)) && Numbered(r, n)
    ensures var m := StepInit(r, AllocateDevice(tid)); Rank(m, n) < Rank(r, n) && Numbered(m, n)
  {
    var args := r.calls[tid].args;
    DevicesAppend(r.devs, DeviceFor(args));
    assert P.Rank(DeviceFor(args)) == 0;
    hide ValidInit, DevicesRank, CallsRank, P.Rank, DeviceFor;
    CallsUpdate(r.calls, tid, InitHasDevice(args, |r.devs|), n);
  }

  lemma InitLowersRank(r: Runtime, step: RuntimeStep, n: nat)
    requires CanStep(r, step) && IsInit(step) && Numbered(r, n)
    ensures Rank(StepInit(r, step), n) < Rank(r, n) && Numbered(StepInit(r, step), n)
  {
    hide Rank, Numbered;
    if step.AllocateDevice? {
      AllocateLowersRank(r, step.tid, n);
    } else {
      InitFrame(r, step);
      InitCallLowers(r, step);
      hide StepInit, CanStep, CallRank;
      CallAlone(r, StepInit(r, step), step.tid, StepInit(r, step).calls[step.tid], n);
    }
  }

  lemma InitCallLowers(r: Runtime, step: RuntimeStep)
    requires CanStep(r, step) && IsInit(step) && !step.AllocateDevice?
    ensures var m := StepInit(r, step);
            step.tid in m.calls && m.devs == r.devs && CallRank(m.calls[step.tid]) < CallRank(r.calls[step.tid])
  {
    hide ValidInit, DeviceFor;
  }

  /** A call and one device move together. */
  lemma CallOnDevice(r: Runtime, tid: nat, c: Call, dev: nat, s: Step, n: nat)
    requires tid in r.calls && tid < n && dev < |r.devs| && Enabled(r.devs[dev], s)
    requires P.Rank(Apply(r.devs[dev], s)) + CallRank(c) < P.Rank(r.devs[dev]) + CallRank(r.calls[tid])
    ensures Rank(Goto(OnDevice(r, dev, s), tid, c), n) < Rank(r, n)
  {
    hide Apply, Enabled, DevicesRank, CallsRank, CallRank, P.Rank;
    DevicesUpdate(r.devs, dev, Apply(r.devs[dev], s));
    CallsUpdate(r.calls, tid, c, n);
  }

  lemma CallLowersRank(r: Runtime, step: RuntimeStep, n: nat)
    requires CanStep(r, step) && !IsInit(step) && !IsShutter(step) && !step.InDevice? && Bounded(step) && Numbered(r, n)
    ensures Rank(StepCall(r, step), n) < Rank(r, n) && Numbered(StepCall(r, step), n)
  {
    hide Apply, DevicesRank, CallsRank, P.Rank, ValidInit;
    var tid := step.tid;
    if step.Exit? {
      CallsRemove(r.calls, tid, n);
    } else if step.FindForWrite? && Finds(r, r.calls[tid]) {
      var dev := r.reg.devices[r.calls[tid].id];
      P.ArriveRank(r.devs[dev], tid, r.calls[tid].size);
      CallOnDevice(r, tid, InWrite(dev), dev, Arrive(tid, r.calls[tid].size), n);
    } else if step.FinishWrite? {
      P.StepLowersRank(r.devs[r.calls[tid].dev], LeaveWrite);
      CallOnDevice(r, tid, Exiting, r.calls[tid].dev, LeaveWrite, n);
    } else if step.StartClose? {
      P.BeginCloseRank(r.devs[r.calls[tid].dev], tid);
      CallOnDevice(r, tid, InClose(r.calls[tid].dev), r.calls[tid].dev, BeginClose(tid), n);
    } else if step.FinishClose? {
      P.StepLowersRank(r.devs[r.calls[tid].dev], LeaveClose);
      CallOnDevice(r, tid, Exiting, r.calls[tid].dev, LeaveClose, n);
    } else {
      CallsUpdate(r.calls, tid, StepCall(r, step).calls[tid], n);
    }
  }

  /** The shutdown and one device move together. */
  lemma ShutterOnDevice(r: Runtime, dev: nat, s: Step, shutter: Shutter, n: nat)
    requires dev < |r.devs| && Enabled(r.devs[dev], s)
    requires P.Rank(Apply(r.devs[dev], s)) + ShutterRank(shutter) < P.Rank(r.devs[dev]) + ShutterRank(r.shutter)
    ensures Rank(OnDevice(r, dev, s).(shutter := shutter), n) < Rank(r, n)
  {
    hide Apply, Enabled, DevicesRank, CallsRank, P.Rank, ShutterRank;
    DevicesUpdate(r.devs, dev, Apply(r.devs[dev], s));
  }

  lemma StartLowersRank(r: Runtime, dev: nat, n: nat)
    requires CanStep(r, ShutterStarts(dev))
    ensures Rank(StepShutter(r, ShutterStarts(dev)), n) < Rank(r, n)
  {
    hide Apply, Enabled, Rank, P.Rank;
    P.DroppedOne(r.shutter.todo, dev);
    P.BeginCloseRank(r.devs[dev], 0);
    ShutterOnDevice(r, dev, BeginClose(0), ClosingOne(dev, r.shutter.todo - {dev}), n);
  }

  lemma FinishLowersRank(r: Runtime, n: nat)
    requires CanStep(r, ShutterFinishes)
    ensures Rank(StepShutter(r, ShutterFinishes), n) < Rank(r, n)
  {
    hide Apply, Rank, P.Rank;
    P.StepLowersRank(r.devs[r.shutter.dev], LeaveClose);
    ShutterOnDevice(r, r.shutter.dev, LeaveClose, Between(r.shutter.todo), n);
  }

  lemma ShutterLowersRank(r: Runtime, step: RuntimeStep, n: nat)
    requires CanStep(r, step) && IsShutter(step) && !step.BeginShutdown? && !step.ShutterWakes?
    ensures Rank(StepShutter(r, step), n) < Rank(r, n)
  {
    if step.ShutterStarts? {
      StartLowersRank(r, step.dev, n);
    } else if step.ShutterFinishes? {
      FinishLowersRank(r, n);
    } else {
      ShutterFrame(r, step);
      LastStepsLower(r, step);
      hide StepShutter, CanStep, DevicesRank, CallsRank, ShutterRank;
    }
  }

  lemma LastStepsLower(r: Runtime, step: RuntimeStep)
    requires CanStep(r, step) && (step.ShutterChecks? || step.NotifyExit? || step.Complete?)
    ensures var m := StepShutter(r, step);
            m.devs == r.devs && ShutterRank(m.shutter) + 2 * m.leaving < ShutterRank(r.shutter) + 2 * r.leaving
  {
    hide OnDevice, Enabled;
  }

  lemma AdvanceLowersRank(r: Runtime, step: RuntimeStep, n: nat)
    requires CanStep(r, step) && Bounded(step) && Numbered(r, n)
    ensures Rank(Advance(r, step), n) < Rank(r, n) && Numbered(Advance(r, step), n)
  {
    hide Apply, Enabled, DevicesRank, CallsRank, P.Rank, StepInit, StepCall;
    if step.InDevice? {
      hide StepShutter;
      P.StepLowersRank(r.devs[step.dev], step.step);
      DevicesUpdate(r.devs, step.dev, Apply(r.devs[step.dev], step.step));
    } else if IsInit(step) {
      InitLowersRank(r, step, n);
    } else if IsShutter(step) {
      ShutterLowersRank(r, step, n);
    } else {
      CallLowersRank(r, step, n);
    }
  }

  /** Nobody is inside, and a shutdown that has begun is complete. */
  ghost predicate AtRest(r: Runtime) {
    !AnyBusy(r) && r.calls == map[] && r.leaving == 0 && (r.reg.started ==> r.reg.complete)
  }

  /**
   * From any reachable state, every schedule without new calls ends within the rank of that state,
   * and where no thread and no sink can move any more, all calls have returned and a shutdown that had
   * begun is complete. In particular every Shutdown returns if the sinks give their buffers back.
   */
  lemma {:induction false} ShutdownAlwaysCompletes(r: Runtime, steps: seq<RuntimeStep>, end: Runtime, n: nat)
    requires RuntimeInv(r) && Numbered(r, n) && IsExecution(r, steps, end)
    requires forall i :: 0 <= i < |steps| ==> Bounded(steps[i])
    ensures |steps| <= Rank(r, n)
    ensures (forall step: RuntimeStep :: Progress(step) ==> !CanStep(end, step)) ==> AtRest(end)
    decreases |steps|
  {
    hide RuntimeInv, Rank, CanStep, Advance, Bounded, Numbered;
    if steps != [] {
      AdvanceKeepsInv(r, steps[0]);
      AdvanceLowersRank(r, steps[0], n);
      ShutdownAlwaysCompletes(Advance(r, steps[0]), steps[1..], end, n);
    } else if !AtRest(r) {
      var step := RuntimeNeverSticks(r);
    }
  }
}
