/** Whole runs of the FMOD runtime: what a completed shutdown leaves behind, conservation, and progress. */
module FmodRuntimeRuns {
  import opened Outcomes
  import opened FmodPool
  import opened FmodDevice
  import D = FmodDeviceRuns
  import P = FmodProgress
  import R = FmodRegistry
  import opened FmodRuntime
  import opened FmodRuntimeSteps

  lemma NewRuntimeInv(limits: Limits, selfClosing: bool)
    ensures RuntimeInv(NewRuntime(limits, selfClosing))
  {
  }

  lemma {:induction false} ExecutionKeepsInv(r: Runtime, steps: seq<RuntimeStep>, end: Runtime)
    requires RuntimeInv(r) && IsExecution(r, steps, end)
    ensures RuntimeInv(end)
    decreases |steps|
  {
    hide RuntimeInv;
    if steps != [] {
      AdvanceKeepsInv(r, steps[0]);
      ExecutionKeepsInv(Advance(r, steps[0]), steps[1..], end);
    }
  }

  // ---------------------------------------------------------------- safety

  /**
   * In every run: no reserved Init fails to publish except for a shutdown, no branch for broken
   * accounting is taken, no sink gets a buffer after its Shutdown, no identity is both published and
   * initializing, the device limit holds, and every device's pending counts are exact.
   */
  lemma RunsAreSafe(limits: Limits, selfClosing: bool, steps: seq<RuntimeStep>, r: Runtime)
    requires IsExecution(NewRuntime(limits, selfClosing), steps, r)
    ensures !r.refused
    ensures r.reg.devices.Keys !! r.reg.initializing && |r.reg.devices| + |r.reg.initializing| <= r.reg.maxDevices
    ensures forall i :: 0 <= i < |r.devs| ==> !r.devs[i].inconsistent && !r.devs[i].lateEnqueue
    ensures forall i :: 0 <= i < |r.devs| ==> Accounted(r.devs[i].pool)
  {
    NewRuntimeInv(limits, selfClosing);
    ExecutionKeepsInv(NewRuntime(limits, selfClosing), steps, r);
    hide IsExecution, ThreadsAgree, SinksAgree, ReservationsAgree, Accounted, SlotsAgree, CountersBalance;
  }

  /** Nobody is inside the device, the sink is shut down, and every buffer has come back. */
  ghost predicate Abandoned(d: Device) {
    && d.sinkShut && d.holder.Nobody? && d.waiting == map[] && d.announcing == {} && d.closers == {}
    && d.held == {} && AllReturned(d.pool)
  }

  lemma NobodyInside(r: Runtime, i: nat)
    requires ThreadsAgree(r) && i < |r.devs| && r.calls == map[] && !r.shutter.ClosingOne?
    ensures r.devs[i].holder.Nobody? && r.devs[i].waiting == map[]
    ensures r.devs[i].announcing == {} && r.devs[i].closers == {}
  {
    var d := r.devs[i];
    forall tid: nat
      ensures !WritesIn(d, tid) && !ClosesIn(d, tid)
    {
      assert !CallWrites(r, tid, i) && !CallCloses(r, tid, i);
    }
    assert d.holder.Writer? ==> WritesIn(d, d.holder.tid);
    assert d.holder.Closer? ==> ClosesIn(d, d.holder.tid);
    assert forall tid: nat :: tid in d.waiting ==> WritesIn(d, tid);
    assert forall tid: nat :: tid in d.announcing || tid in d.closers ==> ClosesIn(d, tid);
  }

  lemma AbandonedWhenComplete(r: Runtime, i: nat)
    requires RuntimeInv(r) && r.reg.complete && i < |r.devs|
    ensures Abandoned(r.devs[i])
  {
    NobodyInside(r, i);
    hide ThreadsAgree, SinksAgree, ReservationsAgree, PendingTally, CountersBalance, NoLostWakeup;
    assert !Responsible(r, i);
    D.NothingPending(r.devs[i]);
  }

  /**
   * When a shutdown is complete, no API call is past its gate, nothing is published or initializing,
   * every device is shut down with nobody inside and no buffer outstanding, and every sink the factory
   * produced was shut down or dropped.
   */
  lemma CompletionIsFinal(limits: Limits, selfClosing: bool, steps: seq<RuntimeStep>, r: Runtime)
    requires IsExecution(NewRuntime(limits, selfClosing), steps, r) && r.reg.complete
    ensures r.calls == map[] && r.reg.active == 0
    ensures r.reg.devices == map[] && r.reg.initializing == {}
    ensures forall i :: 0 <= i < |r.devs| ==> Abandoned(r.devs[i])
    ensures forall s :: 0 <= s < |r.sinks| ==> WasShutDown(r, s) || r.sinks[s].Dropped?
  {
    NewRuntimeInv(limits, selfClosing);
    ExecutionKeepsInv(NewRuntime(limits, selfClosing), steps, r);
    forall i: nat | i < |r.devs|
      ensures Abandoned(r.devs[i])
    {
      AbandonedWhenComplete(r, i);
    }
    hide IsExecution, ThreadsAgree, DevicesAgree;
  }

  predicate WasShutDown(r: Runtime, s: nat)
    requires s < |r.sinks|
  {
    match r.sinks[s]
    case ShutDown => true
    case Owned(dev) => dev < |r.devs| && r.devs[dev].sinkShut
    case _ => false
  }

  // ---------------------------------------------------------------- dropped sinks

  ghost predicate AnyDropped(r: Runtime) {
    exists s :: 0 <= s < |r.sinks| && r.sinks[s].Dropped?
  }

  ghost predicate AnyNullAllocation(steps: seq<RuntimeStep>) {
    exists i :: 0 <= i < |steps| && steps[i].AllocateNothing?
  }

  /** The step destroys a sink that nobody shut down and that does not shut itself down. */
  predicate Drops(r: Runtime, step: RuntimeStep) {
    step.AllocateNothing? && !r.selfClosing
  }

  /** Where a step leaves the sinks: only the null allocation drops one, and it had one in hand. */
  lemma SinksMove(r: Runtime, step: RuntimeStep, s: nat)
    requires SinksAgree(r) && CanStep(r, step)
    ensures var n := Advance(r, step).sinks;
            && (s < |r.sinks| && r.sinks[s].Dropped? ==> s < |n| && n[s].Dropped?)
            && (s < |n| && n[s].Dropped? && !Drops(r, step) ==> s < |r.sinks| && r.sinks[s].Dropped?)
    ensures Drops(r, step) ==> AnyDropped(Advance(r, step))
  {
    hide Apply, Enabled, ValidInit, StepCall, StepShutter;
    var n := Advance(r, step);
    if IsInit(step) {
      assert Drops(r, step) ==> n.sinks[r.calls[step.tid].sink].Dropped?;
    } else {
      OthersKeepSinks(r, step);
    }
  }

  lemma OthersKeepSinks(r: Runtime, step: RuntimeStep)
    requires CanStep(r, step) && !IsInit(step)
    ensures Advance(r, step).sinks == r.sinks
  {
    hide Apply, Enabled, ValidInit, StepInit;
  }

  lemma SinkKindStays(r: Runtime, step: RuntimeStep)
    requires CanStep(r, step)
    ensures Advance(r, step).selfClosing == r.selfClosing
  {
    if IsInit(step) {
      InitFrame(r, step);
      hide StepInit, CanStep;
    } else if IsMove(step) {
      MoveFrame(r, step);
      hide StepCall, CanStep;
    } else {
      hide Apply, Enabled, StepInit;
    }
  }

  lemma DroppedStep(r: Runtime, step: RuntimeStep)
    requires SinksAgree(r) && CanStep(r, step)
    ensures AnyDropped(Advance(r, step)) <==> AnyDropped(r) || Drops(r, step)
  {
    hide CanStep, Advance, SinksAgree;
    SinksMove(r, step, 0);
    var n := Advance(r, step).sinks;
    if AnyDropped(r) {
      var s :| 0 <= s < |r.sinks| && r.sinks[s].Dropped?;
      SinksMove(r, step, s);
    }
    if s :| 0 <= s < |n| && n[s].Dropped? {
      SinksMove(r, step, s);
    }
  }

  lemma AnyNullCons(steps: seq<RuntimeStep>)
    requires steps != []
    ensures AnyNullAllocation(steps) <==> steps[0].AllocateNothing? || AnyNullAllocation(steps[1..])
  {
    assert forall i :: 0 <= i < |steps[1..]| ==> steps[1..][i] == steps[i + 1];
    if i :| 0 <= i < |steps| && steps[i].AllocateNothing? {
      assert i > 0 ==> steps[1..][i - 1].AllocateNothing?;
    }
  }

  lemma {:induction false} DroppedRun(r: Runtime, steps: seq<RuntimeStep>, end: Runtime)
    requires RuntimeInv(r) && IsExecution(r, steps, end)
    ensures AnyDropped(end) <==> AnyDropped(r) || (!r.selfClosing && AnyNullAllocation(steps))
    decreases |steps|
  {
    if steps != [] {
      assert SinksAgree(r);
      hide RuntimeInv, AnyDropped, CanStep, Advance, SinksAgree;
      AdvanceKeepsInv(r, steps[0]);
      DroppedStep(r, steps[0]);
      SinkKindStays(r, steps[0]);
      AnyNullCons(steps);
      hide AnyNullAllocation;
      DroppedRun(Advance(r, steps[0]), steps[1..], end);
    }
  }

  /**
   * When a shutdown is complete, every sink the factory ever produced has been shut down if and only if
   * its sinks shut themselves down when they are destroyed, as the SDL sink does, or no allocation of a
   * device state ever came back null: that one path destroys a good sink without calling its Shutdown,
   * and the sink interface does not ask for a destructor that makes up for it.
   */
  lemma SinksShutIffNoNullAllocation(limits: Limits, selfClosing: bool, steps: seq<RuntimeStep>, r: Runtime)
    requires IsExecution(NewRuntime(limits, selfClosing), steps, r) && r.reg.complete
    ensures (forall s :: 0 <= s < |r.sinks| ==> WasShutDown(r, s)) <==> selfClosing || !AnyNullAllocation(steps)
  {
    NewRuntimeInv(limits, selfClosing);
    DroppedRun(NewRuntime(limits, selfClosing), steps, r);
    CompletionIsFinal(limits, selfClosing, steps, r);
    hide RuntimeInv, IsExecution, Abandoned, AnyNullAllocation;
    if s :| 0 <= s < |r.sinks| && r.sinks[s].Dropped? {
      assert !WasShutDown(r, s);
    }
  }

  lemma Prepend(r: Runtime, step: RuntimeStep, n: Runtime, rest: seq<RuntimeStep>, end: Runtime)
    requires CanStep(r, step) && Advance(r, step) == n && IsExecution(n, rest, end)
    ensures IsExecution(r, [step] + rest, end)
  {
    assert ([step] + rest)[1..] == rest;
    hide CanStep, Advance;
  }

  /** A shutdown of an idle runtime without devices completes. */
  lemma IdleShutdown(r: Runtime) returns (steps: seq<RuntimeStep>, end: Runtime)
    requires r.reg.devices == map[] && r.reg.active == 0 && !r.reg.started
    ensures IsExecution(r, steps, end) && end.reg.complete && end.sinks == r.sinks
  {
    hide Apply, Enabled, ValidInit, StepInit, StepCall, OnDevice;
    var r1 := Advance(r, BeginShutdown);
    assert r1.shutter == Between({});
    var r2 := Advance(r1, ShutterChecks);
    end := Advance(r2, Complete);
    hide CanStep, Advance;
    assert IsExecution(end, [], end);
    hide IsExecution;
    Prepend(r2, Complete, end, [], end);
    Prepend(r1, ShutterChecks, r2, [Complete] + [], end);
    steps := [ShutterChecks] + ([Complete] + []);
    Prepend(r, BeginShutdown, r1, steps, end);
    steps := [BeginShutdown] + steps;
  }

  /** The factory succeeds and the device state cannot be allocated. */
  lemma DropSink(r: Runtime, args: InitArgs) returns (r1: Runtime, r2: Runtime)
    requires r.calls == map[1 := InitReserved(args)] && r.sinks == [] && !r.selfClosing
    ensures CanStep(r, FactoryGoodSink(1)) && r1 == Advance(r, FactoryGoodSink(1))
    ensures CanStep(r1, AllocateNothing(1)) && r2 == Advance(r1, AllocateNothing(1))
    ensures r2 == r.(calls := map[1 := InitCancels(args)], sinks := [Dropped])
  {
    hide Apply, Enabled, ValidInit;
    r1 := Advance(r, FactoryGoodSink(1));
    assert r1.calls[1] == InitHasSink(args, 0) && r1.sinks == [InHand(1)];
    r2 := Advance(r1, AllocateNothing(1));
    assert r2.calls == map[1 := InitCancels(args)];
  }

  /** From where an Init has reserved an identity in an otherwise idle runtime. */
  lemma DropRun(r: Runtime, args: InitArgs) returns (steps: seq<RuntimeStep>, end: Runtime)
    requires r.calls == map[1 := InitReserved(args)] && r.sinks == [] && r.reg.devices == map[] && r.reg.active == 1
    requires !r.reg.started && !r.selfClosing
    ensures IsExecution(r, steps, end) && end.reg.complete && end.sinks == [Dropped]
  {
    hide Apply, Enabled, ValidInit, IsExecution;
    var r1, r2 := DropSink(r, args);
    var r3 := Advance(r2, CancelInit(1));
    var r4 := Advance(r3, Exit(1));
    hide CanStep, Advance;
    steps, end := IdleShutdown(r4);
    Prepend(r3, Exit(1), r4, steps, end);
    steps := [Exit(1)] + steps;
    Prepend(r2, CancelInit(1), r3, steps, end);
    steps := [CancelInit(1)] + steps;
    Prepend(r1, AllocateNothing(1), r2, steps, end);
    steps := [AllocateNothing(1)] + steps;
    Prepend(r, FactoryGoodSink(1), r1, steps, end);
    steps := [FactoryGoodSink(1)] + steps;
  }

  /** The first Init of a runtime reserves its identity. */
  lemma ReserveFirst(args: InitArgs) returns (r1: Runtime, r2: Runtime)
    requires args == InitArgs(1, 1, 8000, 1, 1)
    ensures var r0 := NewRuntime(Limits(1, 1, 2), false);
            && CanStep(r0, EnterInit(1, args)) && r1 == Advance(r0, EnterInit(1, args))
            && CanStep(r1, ReserveIdentity(1)) && r2 == Advance(r1, ReserveIdentity(1))
    ensures r2.calls == map[1 := InitReserved(args)] && r2.sinks == [] && r2.reg.devices == map[] && r2.reg.active == 1
    ensures !r2.reg.started && !r2.selfClosing
  {
    hide Apply, Enabled, OnDevice;
    var r0 := NewRuntime(Limits(1, 1, 2), false);
    assert ValidInit(r0.limits, args);
    hide ValidInit;
    r1 := Advance(r0, EnterInit(1, args));
    assert r1.calls == map[1 := InitEntered(args)];
    r2 := Advance(r1, ReserveIdentity(1));
    assert r2.calls == map[1 := InitReserved(args)];
  }

  /**
   * With sinks that need to be shut down, such runs exist: one Init whose device state cannot be
   * allocated, then a shutdown that completes.
   */
  lemma NullAllocationLosesASink() returns (steps: seq<RuntimeStep>, end: Runtime)
    ensures IsExecution(NewRuntime(Limits(1, 1, 2), false), steps, end) && end.reg.complete
    ensures end.sinks == [Dropped] && !WasShutDown(end, 0)
  {
    hide IsExecution, Advance, CanStep, NewRuntime;
    var args := InitArgs(1, 1, 8000, 1, 1);
    var r1, r2 := ReserveFirst(args);
    steps, end := DropRun(r2, args);
    Prepend(r1, ReserveIdentity(1), r2, steps, end);
    steps := [ReserveIdentity(1)] + steps;
    Prepend(NewRuntime(Limits(1, 1, 2), false), EnterInit(1, args), r1, steps, end);
    steps := [EnterInit(1, args)] + steps;
  }

  // ---------------------------------------------------------------- conservation

  function Sum(a: Tally, b: Tally): Tally {
    Tally(a.buffers + b.buffers, a.bytes + b.bytes)
  }

  /** The runtime's counters: every device adds to the same ones. */
  function Totals(devs: seq<Device>): Counters {
    if |devs| == 0 then Counters(Tally(0, 0), Tally(0, 0), Tally(0, 0), Tally(0, 0))
    else
      var c, t := devs[0].counters, Totals(devs[1..]);
      Counters(Sum(c.pending, t.pending), Sum(c.submitted, t.submitted), Sum(c.consumed, t.consumed),
               Sum(c.discarded, t.discarded))
  }

  function AllPending(devs: seq<Device>): Tally {
    if |devs| == 0 then Tally(0, 0) else Sum(PendingTally(devs[0].pool.slots), AllPending(devs[1..]))
  }

  lemma {:induction false} QuietDevicesBalance(devs: seq<Device>)
    requires forall i :: 0 <= i < |devs| ==> Inv(devs[i]) && D.Quiet(devs[i])
    ensures Conserved(Totals(devs)) && Totals(devs).pending == AllPending(devs)
  {
    if |devs| > 0 {
      D.QuietDeviceBalances(devs[0]);
      QuietDevicesBalance(devs[1..]);
      hide Inv, D.Quiet, PendingTally;
    }
  }

  /**
   * Whenever no call and no release is inside any device, the runtime's totals balance: buffers and
   * bytes submitted are those consumed, discarded and pending, and pending is what the slots say.
   */
  lemma RuntimeConserves(limits: Limits, selfClosing: bool, steps: seq<RuntimeStep>, r: Runtime)
    requires IsExecution(NewRuntime(limits, selfClosing), steps, r)
    requires forall i :: 0 <= i < |r.devs| ==> D.Quiet(r.devs[i])
    ensures Conserved(Totals(r.devs)) && Totals(r.devs).pending == AllPending(r.devs)
  {
    NewRuntimeInv(limits, selfClosing);
    ExecutionKeepsInv(NewRuntime(limits, selfClosing), steps, r);
    hide IsExecution, ThreadsAgree, SinksAgree, ReservationsAgree, Inv, D.Quiet, Conserved, Totals, AllPending;
    QuietDevicesBalance(r.devs);
  }

  // ---------------------------------------------------------------- progress

  /** A step that a thread inside the runtime, or a sink, takes on its own; nobody wakes for no reason. */
  predicate Progress(step: RuntimeStep) {
    && !step.EnterInit? && !step.EnterWrite? && !step.EnterClose? && !step.BeginShutdown? && !step.ShutterWakes?
    && (step.InDevice? ==> P.Progress(step.step))
  }

  lemma HolderLeaves(r: Runtime, i: nat) returns (step: RuntimeStep)
    requires ThreadsAgree(r) && i < |r.devs|
    requires Enabled(r.devs[i], LeaveWrite) || Enabled(r.devs[i], LeaveClose)
    ensures CanStep(r, step) && Progress(step)
  {
    var d := r.devs[i];
    var tid := d.holder.tid;
    if d.holder.Writer? {
      assert WritesIn(d, tid) && CallWrites(r, tid, i);
      step := FinishWrite(tid);
    } else {
      assert ClosesIn(d, tid) && CallCloses(r, tid, i);
      step := if tid in r.calls && r.calls[tid] == InClose(i) then FinishClose(tid) else ShutterFinishes;
    }
  }

  lemma BusyDeviceMoves(r: Runtime, i: nat) returns (step: RuntimeStep)
    requires RuntimeInv(r) && i < |r.devs| && P.Busy(r.devs[i])
    ensures CanStep(r, step) && Progress(step)
  {
    hide R.Inv, PhasesAgree, SinksAgree, ReservationsAgree, Responsible, ThreadsAgree, Inv, P.Busy, Enabled;
    var s := P.NeverStuck(r.devs[i]);
    if s.LeaveWrite? || s.LeaveClose? {
      step := HolderLeaves(r, i);
    } else {
      step := InDevice(i, s);
    }
  }

  /** The step of a call that is not inside a device. */
  function NextOfCall(tid: nat, c: Call): RuntimeStep {
    match c
    case InitEntered(_) => ReserveIdentity(tid)
    case InitReserved(_) => FactoryFails(tid)
    case InitHasSink(_, _) => AllocateNoSlots(tid)
    case InitCancels(_) => CancelInit(tid)
    case InitHasDevice(_, _) => PublishDevice(tid)
    case WriteEntered(_, _) => FindForWrite(tid)
    case InWrite(_) => FinishWrite(tid)
    case CloseEntered(_) => FindForClose(tid)
    case MustClose(_) => StartClose(tid)
    case InClose(_) => FinishClose(tid)
    case Exiting => Exit(tid)
  }

  /** Nobody is inside a device that is not busy, so anybody may come in. */
  lemma IdleMeansEmpty(r: Runtime, tid: nat)
    requires ThreadsAgree(r) && forall i :: 0 <= i < |r.devs| ==> !P.Busy(r.devs[i])
    ensures tid in r.calls ==> !r.calls[tid].InWrite? && !r.calls[tid].InClose?
    ensures tid == 0 ==> !r.shutter.ClosingOne?
    ensures forall i :: 0 <= i < |r.devs| ==> Enabled(r.devs[i], BeginClose(tid))
    ensures forall i, size: nat :: 0 <= i < |r.devs| ==> Enabled(r.devs[i], Arrive(tid, size))
  {
    assert tid in r.calls && r.calls[tid].InWrite? ==> CallWrites(r, tid, r.calls[tid].dev);
    assert tid in r.calls && r.calls[tid].InClose? ==> CallCloses(r, tid, r.calls[tid].dev);
    assert tid == 0 && r.shutter.ClosingOne? ==> CallCloses(r, tid, r.shutter.dev);
    assert forall i: nat :: i < |r.devs| ==> !WritesIn(r.devs[i], tid) && !ClosesIn(r.devs[i], tid);
    hide WritesIn, ClosesIn, CallWrites, CallCloses, P.Busy;
  }

  lemma InitMoves(r: Runtime, tid: nat)
    requires SinksAgree(r) && tid in r.calls && (r.calls[tid].InitEntered? || Reserving(r.calls[tid]))
    ensures CanStep(r, NextOfCall(tid, r.calls[tid])) && Progress(NextOfCall(tid, r.calls[tid]))
  {
    hide Enabled, ValidInit;
  }

  lemma OtherCallMoves(r: Runtime, tid: nat)
    requires tid in r.calls && !r.calls[tid].InitEntered? && !Reserving(r.calls[tid])
    requires !r.calls[tid].InWrite? && !r.calls[tid].InClose? && r.reg.active > 0
    requires forall id :: id in r.reg.devices ==> r.reg.devices[id] < |r.devs|
    requires HasDevice(r.calls[tid]) ==> r.calls[tid].dev < |r.devs|
    requires forall i :: 0 <= i < |r.devs| ==> Enabled(r.devs[i], BeginClose(tid))
    requires forall i, size: nat :: 0 <= i < |r.devs| ==> Enabled(r.devs[i], Arrive(tid, size))
    ensures CanStep(r, NextOfCall(tid, r.calls[tid])) && Progress(NextOfCall(tid, r.calls[tid]))
  {
    hide Enabled, ValidInit;
  }

  lemma CallMoves(r: Runtime, tid: nat)
    requires RuntimeInv(r) && tid in r.calls && forall i :: 0 <= i < |r.devs| ==> !P.Busy(r.devs[i])
    ensures CanStep(r, NextOfCall(tid, r.calls[tid])) && Progress(NextOfCall(tid, r.calls[tid]))
  {
    hide CanStep, Progress, NextOfCall, Inv, R.Inv, ReservationsAgree, Responsible, ThreadsAgree, SinksAgree, P.Busy;
    if r.calls[tid].InitEntered? || Reserving(r.calls[tid]) {
      InitMoves(r, tid);
    } else {
      IdleMeansEmpty(r, tid);
      assert |r.calls.Keys| > 0;
      hide Enabled;
      OtherCallMoves(r, tid);
    }
  }

  lemma ShutterMoves(r: Runtime) returns (step: RuntimeStep)
    requires PhasesAgree(r) && DevicesAgree(r) && ThreadsAgree(r)
    requires r.calls == map[] && !r.shutter.NotStarted? && !r.shutter.Done?
    requires forall i :: 0 <= i < |r.devs| ==> !P.Busy(r.devs[i])
    ensures CanStep(r, step) && Progress(step)
  {
    IdleMeansEmpty(r, 0);
    TodoExists(r);
    WaitingIsNotified(r);
    hide PhasesAgree, DevicesAgree, ThreadsAgree, P.Busy, Enabled, CanStep, Progress;
    if r.shutter.Between? && r.shutter.todo != {} {
      step := ShutterStarts(Any(r.shutter.todo));
      CanStart(r, step.dev);
    } else {
      step := LastSteps(r);
    }
  }

  lemma CanStart(r: Runtime, dev: nat)
    requires r.shutter.Between? && dev in r.shutter.todo && dev < |r.devs| && Enabled(r.devs[dev], BeginClose(0))
    ensures CanStep(r, ShutterStarts(dev)) && Progress(ShutterStarts(dev))
  {
    hide Enabled;
  }

  lemma LastSteps(r: Runtime) returns (step: RuntimeStep)
    requires r.shutter.Completing? || (r.shutter.Waiting? && r.leaving > 0) || r.shutter == Between({})
    ensures CanStep(r, step) && Progress(step)
  {
    step := if r.shutter.Completing? then Complete else if r.shutter.Waiting? then NotifyExit else ShutterChecks;
  }

  lemma TodoExists(r: Runtime)
    requires DevicesAgree(r)
    ensures r.shutter.Between? ==> forall dev :: dev in r.shutter.todo ==> dev < |r.devs|
  {
  }

  /** A shutdown that sleeps although every call is out has a notification on its way. */
  lemma WaitingIsNotified(r: Runtime)
    requires PhasesAgree(r) && r.calls == map[]
    ensures r.shutter.Waiting? ==> r.leaving > 0
  {
    assert |r.calls| == 0;
  }

  ghost predicate AnyBusy(r: Runtime) {
    exists i :: 0 <= i < |r.devs| && P.Busy(r.devs[i])
  }

  /**
   * The runtime cannot deadlock: as long as a device is busy, a call is past its gate or about to
   * notify, or a shutdown has begun and is not complete, some thread can take a step or some sink has a
   * buffer to return.
   */
  lemma RuntimeNeverSticks(r: Runtime) returns (step: RuntimeStep)
    requires RuntimeInv(r)
    requires AnyBusy(r) || r.calls != map[] || r.leaving > 0 || (r.reg.started && !r.reg.complete)
    ensures CanStep(r, step) && Progress(step)
  {
    if r.leaving > 0 {
      return NotifyExit;
    }
    hide R.Inv, ReservationsAgree, DevicesAgree, ThreadsAgree, SinksAgree, CanStep, Progress;
    if i: nat :| i < |r.devs| && P.Busy(r.devs[i]) {
      step := BusyDeviceMoves(r, i);
    } else if r.calls != map[] {
      assert r.calls.Keys != {};
      var tid := Any(r.calls.Keys);
      CallMoves(r, tid);
      step := NextOfCall(tid, r.calls[tid]);
    } else {
      step := ShutterMoves(r);
    }
  }
}
