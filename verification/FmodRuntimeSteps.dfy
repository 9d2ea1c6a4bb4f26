/** Every step of the FMOD runtime keeps the runtime's invariant, part by part. */
module FmodRuntimeSteps {
  import opened FmodPool
  import opened FmodDevice
  import D = FmodDeviceRuns
  import R = FmodRegistry
  import opened FmodRuntime

  // ---------------------------------------------------------------- devices

  lemma WriteKeepsShape(d: Device, step: Step)
    requires Enabled(d, step) && !IsClose(step) && !IsRelease(step)
    ensures |ApplyWrite(d, step).pool.slots| == |d.pool.slots| && ApplyWrite(d, step).sinkShut == d.sinkShut
  {
    hide PassGate, Subtract;
    if step.Enter? || step.Recheck? {
      D.PassGateFrame(d, d.holder.write.size);
    }
  }

  lemma CloseKeepsShape(d: Device, step: Step)
    requires SinkAgrees(d) && Enabled(d, step) && (IsClose(step) || IsRelease(step))
    ensures |Apply(d, step).pool.slots| == |d.pool.slots|
    ensures d.sinkShut || step.LeaveClose? ==> Apply(d, step).sinkShut
  {
    hide ApplyWrite, Settle, Without;
  }

  /** What a device step means to the rest of the runtime. */
  lemma DeviceFrame(d: Device, step: Step)
    requires Inv(d) && Enabled(d, step)
    ensures Inv(Apply(d, step))
    ensures |Apply(d, step).pool.slots| == |d.pool.slots|
    ensures d.sinkShut || step.LeaveClose? ==> Apply(d, step).sinkShut
  {
    assert SinkAgrees(d);
    hide Inv, Enabled, SinkAgrees, ApplyWrite, ApplyClose, ApplyRelease;
    D.StepKeepsInv(d, step);
    if IsClose(step) || IsRelease(step) {
      CloseKeepsShape(d, step);
    } else {
      WriteKeepsShape(d, step);
    }
  }

  /** The writers in a device change only when a write arrives or leaves, and so for closers. */
  ghost predicate ThreadsMove(d: Device, step: Step, n: Device, tid: nat)
    requires Enabled(d, step)
  {
    && (WritesIn(n, tid) <==>
          (WritesIn(d, tid) && !(step.LeaveWrite? && d.holder.tid == tid)) || (step.Arrive? && step.tid == tid))
    && (ClosesIn(n, tid) <==>
          (ClosesIn(d, tid) && !(step.LeaveClose? && d.holder.tid == tid)) || (step.BeginClose? && step.closer == tid))
  }

  lemma WriteThreads(d: Device, step: Step, tid: nat)
    requires ThreadsDistinct(d) && Enabled(d, step) && !IsClose(step) && !IsRelease(step)
    ensures ThreadsMove(d, step, ApplyWrite(d, step), tid)
  {
    hide PassGate, Publish, Withdraw;
    if step.Enter? || step.Recheck? {
      D.PassGateFrame(d, d.holder.write.size);
    }
  }

  lemma CloseThreads(d: Device, step: Step, tid: nat)
    requires ThreadsDistinct(d) && Enabled(d, step) && IsClose(step)
    ensures ThreadsMove(d, step, ApplyClose(d, step), tid)
  {
  }

  lemma ReleaseThreads(d: Device, step: Step, tid: nat)
    requires Enabled(d, step) && IsRelease(step)
    ensures ThreadsMove(d, step, ApplyRelease(d, step), tid)
  {
    hide TakeBack, Settle, Without;
  }

  lemma ThreadsFrame(d: Device, step: Step, tid: nat)
    requires ThreadsDistinct(d) && Enabled(d, step)
    ensures ThreadsMove(d, step, Apply(d, step), tid)
  {
    hide ApplyWrite, ApplyClose, ApplyRelease, ThreadsDistinct, ThreadsMove;
    if IsRelease(step) {
      ReleaseThreads(d, step, tid);
    } else if IsClose(step) {
      CloseThreads(d, step, tid);
    } else {
      WriteThreads(d, step, tid);
    }
  }

  // ---------------------------------------------------------------- frames

  /** One call moves on; of the rest only devices, sinks and its own entry in the registry may change. */
  ghost predicate CallMoved(r: Runtime, n: Runtime, tid: nat) {
    && tid in r.calls && tid in n.calls && n.calls == r.calls[tid := n.calls[tid]]
    && n.reg == r.reg.(devices := n.reg.devices, initializing := n.reg.initializing)
    && n == r.(reg := n.reg, devs := n.devs, sinks := n.sinks, calls := n.calls, refused := n.refused)
  }

  lemma FactoryFrame(r: Runtime, step: RuntimeStep)
    requires CanStep(r, step)
    requires step.FactoryFails? || step.FactoryBadSink? || step.FactoryGoodSink? || step.AllocateNothing? ||
             step.AllocateNoSlots?
    ensures var n := StepInit(r, step);
            CallMoved(r, n, step.tid) && n.reg == r.reg && n.devs == r.devs && n.refused == r.refused
  {
  }

  lemma ReserveFrame(r: Runtime, step: RuntimeStep)
    requires CanStep(r, step)
    requires step.ReserveIdentity? || step.AllocateDevice? || step.CancelInit? || step.PublishDevice?
    ensures CallMoved(r, StepInit(r, step), step.tid)
  {
    hide ValidInit, R.ReserveAnswer, R.PublishAnswer, NewDevice;
  }

  lemma InitFrame(r: Runtime, step: RuntimeStep)
    requires CanStep(r, step) && IsInit(step)
    ensures CallMoved(r, StepInit(r, step), step.tid)
  {
    hide CanStep, StepInit, CallMoved;
    if step.ReserveIdentity? || step.AllocateDevice? || step.CancelInit? || step.PublishDevice? {
      ReserveFrame(r, step);
    } else {
      FactoryFrame(r, step);
    }
  }

  /** Calls that are neither entering nor leaving. */
  predicate IsMove(step: RuntimeStep) {
    || step.FindForWrite? || step.FinishWrite? || step.FindForClose? || step.StartClose? || step.FinishClose?
  }

  predicate IsGate(step: RuntimeStep) {
    step.EnterInit? || step.EnterWrite? || step.EnterClose? || step.Exit?
  }

  lemma FindFrame(r: Runtime, step: RuntimeStep)
    requires CanStep(r, step) && (step.FindForWrite? || step.FindForClose?)
    ensures var n := StepCall(r, step);
            && CallMoved(r, n, step.tid) && n.sinks == r.sinks && n.refused == r.refused
            && n.reg.initializing == r.reg.initializing
  {
    hide Apply, Enabled;
  }

  lemma FinishFrame(r: Runtime, step: RuntimeStep)
    requires CanStep(r, step) && (step.FinishWrite? || step.StartClose? || step.FinishClose?)
    ensures var n := StepCall(r, step);
            CallMoved(r, n, step.tid) && n.sinks == r.sinks && n.refused == r.refused && n.reg == r.reg
  {
    hide Apply, Enabled;
  }

  lemma MoveFrame(r: Runtime, step: RuntimeStep)
    requires CanStep(r, step) && IsMove(step)
    ensures var n := StepCall(r, step);
            && CallMoved(r, n, step.tid) && n.sinks == r.sinks && n.refused == r.refused
            && n.reg.initializing == r.reg.initializing
  {
    hide CanStep, StepCall, CallMoved;
    if step.FindForWrite? || step.FindForClose? {
      FindFrame(r, step);
    } else {
      FinishFrame(r, step);
    }
  }

  predicate IsInitCall(c: Call) {
    c.InitEntered? || Reserving(c)
  }

  lemma MoveKinds(r: Runtime, step: RuntimeStep)
    requires CanStep(r, step) && IsMove(step)
    ensures !IsInitCall(r.calls[step.tid]) && step.tid in StepCall(r, step).calls
    ensures !IsInitCall(StepCall(r, step).calls[step.tid])
  {
    hide Apply, Enabled;
  }

  lemma InitKinds(r: Runtime, step: RuntimeStep)
    requires CanStep(r, step) && IsInit(step)
    ensures var c, n := r.calls[step.tid], StepInit(r, step);
            && IsInitCall(c) && step.tid in n.calls
            && (IsInitCall(n.calls[step.tid]) || n.calls[step.tid].Exiting? || n.calls[step.tid].MustClose?)
  {
    hide ValidInit, R.ReserveAnswer, R.PublishAnswer, NewDevice, R.Publish, R.Reserve, R.Cancel;
  }

  /** The shutdown moves on, or a call that has left notifies it. */
  lemma ShutterFrame(r: Runtime, step: RuntimeStep)
    requires CanStep(r, step) && IsShutter(step)
    ensures var n := StepShutter(r, step);
            && n == r.(reg := n.reg, devs := n.devs, shutter := n.shutter, leaving := n.leaving)
            && n.reg.initializing == r.reg.initializing && |n.devs| == |r.devs|
  {
    hide Apply, Enabled;
  }

  // ---------------------------------------------------------------- registry and phases

  lemma RegistryInit(r: Runtime, step: RuntimeStep)
    requires R.Inv(r.reg) && ReservationsAgree(r) && CanStep(r, step) && IsInit(step)
    ensures R.Inv(StepInit(r, step).reg)
  {
    hide ValidInit, R.Inv, R.ReserveAnswer, R.PublishAnswer, R.Reserve, R.Publish, R.Cancel, NewDevice;
    if step.ReserveIdentity? {
      R.ReserveKeeps(r.reg, r.calls[step.tid].args.id);
    } else if step.CancelInit? {
      R.CancelKeeps(r.reg, r.calls[step.tid].args.id);
    } else if step.PublishDevice? {
      R.PublishKeeps(r.reg, r.calls[step.tid].args.id, r.calls[step.tid].dev);
    } else if !step.AllocateDevice? {
      FactoryFrame(r, step);
      hide StepInit, CanStep;
    }
  }

  lemma RegistryMove(r: Runtime, step: RuntimeStep)
    requires R.Inv(r.reg) && CanStep(r, step) && IsMove(step)
    ensures R.Inv(StepCall(r, step).reg)
  {
    if step.FindForClose? {
      R.TakeKeeps(r.reg, r.calls[step.tid].id);
      hide R.Inv, R.Take, OnDevice;
    } else if step.FindForWrite? {
      hide Apply, Enabled, R.Inv;
    } else {
      FinishFrame(r, step);
      hide StepCall, CanStep, R.Inv;
    }
  }

  lemma RegistryGate(r: Runtime, step: RuntimeStep)
    requires R.Inv(r.reg) && CanStep(r, step) && IsGate(step)
    ensures R.Inv(StepCall(r, step).reg)
  {
    hide OnDevice, Enabled;
  }

  lemma RegistryShutter(r: Runtime, step: RuntimeStep)
    requires R.Inv(r.reg) && PhasesAgree(r) && CanStep(r, step) && IsShutter(step)
    ensures R.Inv(StepShutter(r, step).reg)
  {
    hide Apply, Enabled;
  }

  lemma RegistryStep(r: Runtime, step: RuntimeStep)
    requires R.Inv(r.reg) && PhasesAgree(r) && ReservationsAgree(r) && CanStep(r, step)
    ensures R.Inv(Advance(r, step).reg)
  {
    if step.InDevice? {
      hide Apply, Enabled, R.Inv, PhasesAgree, ReservationsAgree;
    } else {
      hide CanStep, StepInit, StepCall, StepShutter, R.Inv, PhasesAgree, ReservationsAgree;
      if IsInit(step) {
        RegistryInit(r, step);
      } else if IsShutter(step) {
        RegistryShutter(r, step);
      } else if IsGate(step) {
        RegistryGate(r, step);
      } else {
        RegistryMove(r, step);
      }
    }
  }

  /** A call moves on and changes nothing that the phases depend on. */
  lemma MovedPhases(r: Runtime, n: Runtime, tid: nat)
    requires PhasesAgree(r) && CallMoved(r, n, tid) && !n.refused
    ensures PhasesAgree(n)
  {
    assert n.calls.Keys == r.calls.Keys;
  }

  lemma PublishPhases(r: Runtime, tid: nat)
    requires R.Inv(r.reg) && ReservationsAgree(r) && CanStep(r, PublishDevice(tid))
    ensures StepInit(r, PublishDevice(tid)).refused == r.refused
  {
    R.ReservedIsPublishable(r.reg, r.calls[tid].args.id);
    hide ValidInit, R.Inv, ReservationsAgree, R.PublishAnswer;
  }

  lemma OthersRefuseNothing(r: Runtime, step: RuntimeStep)
    requires CanStep(r, step) && (step.ReserveIdentity? || step.AllocateDevice? || step.CancelInit?)
    ensures StepInit(r, step).refused == r.refused
  {
    hide ValidInit, R.ReserveAnswer, NewDevice;
  }

  lemma PhasesInit(r: Runtime, step: RuntimeStep)
    requires R.Inv(r.reg) && PhasesAgree(r) && ReservationsAgree(r) && CanStep(r, step) && IsInit(step)
    ensures PhasesAgree(StepInit(r, step))
  {
    assert !r.refused;
    hide CanStep, StepInit, ReservationsAgree, PhasesAgree, R.Inv, CallMoved;
    InitFrame(r, step);
    if step.PublishDevice? {
      PublishPhases(r, step.tid);
    } else if step.ReserveIdentity? || step.AllocateDevice? || step.CancelInit? {
      OthersRefuseNothing(r, step);
    } else {
      FactoryFrame(r, step);
    }
    MovedPhases(r, StepInit(r, step), step.tid);
  }

  /** A call passes the gate. */
  lemma EnterPhases(r: Runtime, tid: nat, c: Call)
    requires PhasesAgree(r) && tid > 0 && tid !in r.calls && !r.reg.started
    ensures PhasesAgree(PassEntry(r, tid, c))
  {
    assert r.calls[tid := c].Keys == r.calls.Keys + {tid};
  }

  lemma ExitPhases(r: Runtime, tid: nat)
    requires PhasesAgree(r) && CanStep(r, Exit(tid))
    ensures PhasesAgree(StepCall(r, Exit(tid)))
  {
    assert (r.calls - {tid}).Keys == r.calls.Keys - {tid};
  }

  lemma PhasesGate(r: Runtime, step: RuntimeStep)
    requires PhasesAgree(r) && CanStep(r, step) && IsGate(step)
    ensures PhasesAgree(StepCall(r, step))
  {
    hide PhasesAgree, PassEntry;
    match step
    case EnterInit(tid, args) => EnterPhases(r, tid, InitEntered(args));
    case EnterWrite(tid, id, size) => EnterPhases(r, tid, WriteEntered(id, size));
    case EnterClose(tid, id) => EnterPhases(r, tid, CloseEntered(id));
    case Exit(tid) => ExitPhases(r, tid);
  }

  lemma PhasesMove(r: Runtime, step: RuntimeStep)
    requires PhasesAgree(r) && CanStep(r, step) && IsMove(step)
    ensures PhasesAgree(StepCall(r, step))
  {
    assert !r.refused;
    hide CanStep, StepCall, PhasesAgree, CallMoved;
    MoveFrame(r, step);
    MovedPhases(r, StepCall(r, step), step.tid);
  }

  lemma PhasesShutter(r: Runtime, step: RuntimeStep)
    requires PhasesAgree(r) && CanStep(r, step) && IsShutter(step)
    ensures PhasesAgree(StepShutter(r, step))
  {
    hide Apply, Enabled;
    assert |r.calls| == 0 ==> r.calls == map[];
  }

  lemma PhasesStep(r: Runtime, step: RuntimeStep)
    requires R.Inv(r.reg) && PhasesAgree(r) && ReservationsAgree(r) && CanStep(r, step)
    ensures PhasesAgree(Advance(r, step))
  {
    if step.InDevice? {
      hide Apply, Enabled, R.Inv, ReservationsAgree;
    } else {
      hide CanStep, StepInit, StepCall, StepShutter, R.Inv, PhasesAgree, ReservationsAgree;
      if IsInit(step) {
        PhasesInit(r, step);
      } else if IsShutter(step) {
        PhasesShutter(r, step);
      } else if IsGate(step) {
        PhasesGate(r, step);
      } else {
        PhasesMove(r, step);
      }
    }
  }

  // ---------------------------------------------------------------- reservations

  /** One call moves on without taking or giving up an identity. */
  lemma GotoReservations(r: Runtime, n: Runtime, tid: nat, c: Call)
    requires ReservationsAgree(r) && n.limits == r.limits && n.reg.initializing == r.reg.initializing
    requires n.calls == r.calls[tid := c]
    requires if tid in r.calls && Reserving(r.calls[tid]) then Reserving(c) && c.args == r.calls[tid].args
             else !Reserving(c)
    ensures ReservationsAgree(n)
  {
    hide ValidInit;
    forall id | id in n.reg.initializing
      ensures exists t :: t in n.calls && Reserving(n.calls[t]) && n.calls[t].args.id == id
    {
      var t :| t in r.calls && Reserving(r.calls[t]) && r.calls[t].args.id == id;
      assert t in n.calls && Reserving(n.calls[t]);
    }
  }

  lemma TakeReservation(r: Runtime, n: Runtime, tid: nat, args: InitArgs)
    requires ReservationsAgree(r) && n.limits == r.limits && ValidInit(r.limits, args)
    requires tid in r.calls && !Reserving(r.calls[tid]) && args.id !in r.reg.initializing
    requires n.calls == r.calls[tid := InitReserved(args)] && n.reg.initializing == r.reg.initializing + {args.id}
    ensures ReservationsAgree(n)
  {
    hide ValidInit;
    forall id | id in n.reg.initializing
      ensures exists t :: t in n.calls && Reserving(n.calls[t]) && n.calls[t].args.id == id
    {
      if id == args.id {
        assert Reserving(n.calls[tid]);
      } else {
        var t :| t in r.calls && Reserving(r.calls[t]) && r.calls[t].args.id == id;
        assert t in n.calls && Reserving(n.calls[t]);
      }
    }
  }

  lemma EndReservation(r: Runtime, n: Runtime, tid: nat, c: Call)
    requires ReservationsAgree(r) && n.limits == r.limits && !Reserving(c)
    requires tid in r.calls && Reserving(r.calls[tid]) && n.calls == r.calls[tid := c]
    requires n.reg.initializing == r.reg.initializing - {r.calls[tid].args.id}
    ensures ReservationsAgree(n)
  {
    hide ValidInit;
    forall id | id in n.reg.initializing
      ensures exists t :: t in n.calls && Reserving(n.calls[t]) && n.calls[t].args.id == id
    {
      var t :| t in r.calls && Reserving(r.calls[t]) && r.calls[t].args.id == id;
      assert t in n.calls && Reserving(n.calls[t]);
    }
  }

  lemma ExitReservations(r: Runtime, n: Runtime, tid: nat)
    requires ReservationsAgree(r) && n.limits == r.limits && n.reg.initializing == r.reg.initializing
    requires tid in r.calls && !Reserving(r.calls[tid]) && n.calls == r.calls - {tid}
    ensures ReservationsAgree(n)
  {
    hide ValidInit;
    forall id | id in n.reg.initializing
      ensures exists t :: t in n.calls && Reserving(n.calls[t]) && n.calls[t].args.id == id
    {
      var t :| t in r.calls && Reserving(r.calls[t]) && r.calls[t].args.id == id;
      assert t in n.calls && Reserving(n.calls[t]);
    }
  }

  lemma ReservationsInit(r: Runtime, step: RuntimeStep)
    requires ReservationsAgree(r) && CanStep(r, step) && IsInit(step)
    ensures ReservationsAgree(StepInit(r, step))
  {
    hide Apply, Enabled, ValidInit, ReservationsAgree;
    var n, tid := StepInit(r, step), step.tid;
    if step.CancelInit? || step.PublishDevice? {
      EndReservation(r, n, tid, n.calls[tid]);
    } else if step.ReserveIdentity? && n.calls[tid].InitReserved? {
      TakeReservation(r, n, tid, r.calls[tid].args);
    } else {
      GotoReservations(r, n, tid, n.calls[tid]);
    }
  }

  lemma ReservationsGate(r: Runtime, step: RuntimeStep)
    requires ReservationsAgree(r) && CanStep(r, step) && IsGate(step)
    ensures ReservationsAgree(StepCall(r, step))
  {
    hide ReservationsAgree;
    var n := StepCall(r, step);
    if step.Exit? {
      ExitReservations(r, n, step.tid);
    } else {
      GotoReservations(r, n, step.tid, n.calls[step.tid]);
    }
  }

  lemma ReservationsMove(r: Runtime, step: RuntimeStep)
    requires ReservationsAgree(r) && CanStep(r, step) && IsMove(step)
    ensures ReservationsAgree(StepCall(r, step))
  {
    MoveFrame(r, step);
    MoveKinds(r, step);
    hide CanStep, StepCall, ReservationsAgree;
    GotoReservations(r, StepCall(r, step), step.tid, StepCall(r, step).calls[step.tid]);
  }

  lemma ReservationsStep(r: Runtime, step: RuntimeStep)
    requires ReservationsAgree(r) && CanStep(r, step)
    ensures ReservationsAgree(Advance(r, step))
  {
    if step.InDevice? {
      hide Apply, Enabled, ReservationsAgree;
      SameReservations(r, Advance(r, step));
    } else {
      hide CanStep, StepInit, StepCall, StepShutter, ReservationsAgree;
      if IsInit(step) {
        ReservationsInit(r, step);
      } else if IsShutter(step) {
        ShutterFrame(r, step);
        SameReservations(r, StepShutter(r, step));
      } else if IsGate(step) {
        ReservationsGate(r, step);
      } else {
        ReservationsMove(r, step);
      }
    }
  }

  lemma SameReservations(r: Runtime, n: Runtime)
    requires ReservationsAgree(r) && n.limits == r.limits && n.reg.initializing == r.reg.initializing
    requires n.calls == r.calls
    ensures ReservationsAgree(n)
  {
  }

  // ---------------------------------------------------------------- devices

  /** One call moves on and keeps the device it has to close. */
  lemma GotoDevices(r: Runtime, n: Runtime, tid: nat, c: Call)
    requires DevicesAgree(r) && n.devs == r.devs && n.reg.devices == r.reg.devices && n.shutter == r.shutter
    requires n.calls == r.calls[tid := c]
    requires tid in r.calls && HasDevice(r.calls[tid]) ==> HasDevice(c) && c.dev == r.calls[tid].dev
    requires HasDevice(c) ==> c.dev < |r.devs|
    ensures DevicesAgree(n)
  {
    hide Inv;
    forall i | 0 <= i < |n.devs|
      ensures n.devs[i].sinkShut || Responsible(n, i)
    {
      if t :| t in r.calls && Closes(r.calls[t], i) {
        assert Closes(n.calls[t], i);
      } else {
        assert r.devs[i].sinkShut || Responsible(r, i);
      }
    }
  }

  /** A device moves on. */
  /** One device is replaced by what became of it. */
  lemma ReplaceDevice(r: Runtime, n: Runtime, dev: nat)
    requires DevicesAgree(r) && dev < |r.devs| == |n.devs| && n == r.(devs := n.devs)
    requires n.devs == r.devs[dev := n.devs[dev]]
    requires Inv(n.devs[dev]) && |n.devs[dev].pool.slots| > 0 && (r.devs[dev].sinkShut ==> n.devs[dev].sinkShut)
    ensures DevicesAgree(n)
  {
    hide Inv;
    forall i | 0 <= i < |n.devs|
      ensures n.devs[i].sinkShut || Responsible(n, i)
    {
      assert r.devs[i].sinkShut || Responsible(r, i);
      if t :| t in r.calls && Closes(r.calls[t], i) {
        assert Closes(n.calls[t], i);
      }
    }
  }

  lemma OnDeviceDevices(r: Runtime, dev: nat, s: Step)
    requires DevicesAgree(r) && dev < |r.devs| && Enabled(r.devs[dev], s)
    ensures DevicesAgree(OnDevice(r, dev, s))
    ensures s.LeaveClose? ==> OnDevice(r, dev, s).devs[dev].sinkShut
  {
    assert Inv(r.devs[dev]) && |r.devs[dev].pool.slots| > 0;
    hide Inv, Apply, Enabled, DevicesAgree;
    DeviceFrame(r.devs[dev], s);
    ReplaceDevice(r, OnDevice(r, dev, s), dev);
  }

  /** A call whose device has been shut down lets go of it. */
  lemma LetGo(r: Runtime, n: Runtime, tid: nat, c: Call)
    requires DevicesAgree(r) && n.devs == r.devs && n.reg.devices == r.reg.devices && n.shutter == r.shutter
    requires tid in r.calls && n.calls == r.calls[tid := c] && !HasDevice(c)
    requires HasDevice(r.calls[tid]) ==> r.devs[r.calls[tid].dev].sinkShut
    ensures DevicesAgree(n)
  {
    hide Inv;
    forall i | 0 <= i < |n.devs|
      ensures n.devs[i].sinkShut || Responsible(n, i)
    {
      assert r.devs[i].sinkShut || Responsible(r, i);
      if t :| t in r.calls && Closes(r.calls[t], i) {
        assert t != tid ==> Closes(n.calls[t], i);
      }
    }
  }

  /** A new device joins, and the call that made it is responsible for it. */
  lemma AddDevice(r: Runtime, n: Runtime, tid: nat, d: Device)
    requires DevicesAgree(r) && Inv(d) && |d.pool.slots| > 0 && tid in r.calls && !HasDevice(r.calls[tid])
    requires n.devs == r.devs + [d] && n.reg == r.reg && n.shutter == r.shutter
    requires tid in n.calls && n.calls == r.calls[tid := n.calls[tid]] && Closes(n.calls[tid], |r.devs|)
    ensures DevicesAgree(n)
  {
    hide Inv;
    forall i | 0 <= i < |n.devs|
      ensures n.devs[i].sinkShut || Responsible(n, i)
    {
      if i == |r.devs| {
        assert Closes(n.calls[tid], i);
      } else {
        assert r.devs[i].sinkShut || Responsible(r, i);
        if t :| t in r.calls && Closes(r.calls[t], i) {
          assert Closes(n.calls[t], i);
        }
      }
    }
  }

  lemma AllocateDevices(r: Runtime, tid: nat)
    requires DevicesAgree(r) && CanStep(r, AllocateDevice(tid))
    ensures DevicesAgree(StepInit(r, AllocateDevice(tid)))
  {
    var a := r.calls[tid].args;
    var d := DeviceFor(a);
    D.NewDeviceInv(FrameBytes(a.channels), a.frames * FrameBytes(a.channels), a.blocks);
    assert |d.pool.slots| == a.blocks;
    hide Inv, ValidInit, NewDevice, DevicesAgree;
    AddDevice(r, StepInit(r, AllocateDevice(tid)), tid, d);
  }

  /** An Init passes its device on to the registry, or keeps it to close it. */
  lemma HandOver(r: Runtime, n: Runtime, tid: nat, c: Call)
    requires DevicesAgree(r) && tid in r.calls && r.calls[tid].InitHasDevice? && n.calls == r.calls[tid := c]
    requires n.devs == r.devs && n.shutter == r.shutter
    requires forall k :: k in r.reg.devices ==> k in n.reg.devices && n.reg.devices[k] == r.reg.devices[k]
    requires forall k :: k in n.reg.devices && k !in r.reg.devices ==> n.reg.devices[k] == r.calls[tid].dev
    requires c == MustClose(r.calls[tid].dev) || (c.Exiting? && r.calls[tid].dev in n.reg.devices.Values)
    ensures DevicesAgree(n)
  {
    hide Inv;
    forall i | 0 <= i < |n.devs|
      ensures n.devs[i].sinkShut || Responsible(n, i)
    {
      assert r.devs[i].sinkShut || Responsible(r, i);
      if t :| t in r.calls && Closes(r.calls[t], i) {
        assert t != tid || c.MustClose? ==> Closes(n.calls[t], i);
      }
    }
  }

  lemma PublishDevices(r: Runtime, tid: nat)
    requires DevicesAgree(r) && R.Inv(r.reg) && ReservationsAgree(r) && CanStep(r, PublishDevice(tid))
    ensures DevicesAgree(StepInit(r, PublishDevice(tid)))
  {
    var n, id := StepInit(r, PublishDevice(tid)), r.calls[tid].args.id;
    assert id !in r.reg.devices;
    hide DevicesAgree, ReservationsAgree, R.Inv, ValidInit, CanStep;
    assert n.calls[tid].Exiting? ==> id in n.reg.devices && n.reg.devices[id] == r.calls[tid].dev;
    HandOver(r, n, tid, n.calls[tid]);
  }

  /** A Close takes the device it found over from the registry. */
  lemma TakeOver(r: Runtime, n: Runtime, tid: nat, id: nat)
    requires DevicesAgree(r) && n.devs == r.devs && n.shutter == r.shutter && tid in r.calls && !HasDevice(r.calls[tid])
    requires id in r.reg.devices && n.reg.devices == r.reg.devices - {id}
    requires n.calls == r.calls[tid := MustClose(r.reg.devices[id])]
    ensures DevicesAgree(n)
  {
    hide Inv;
    forall i | 0 <= i < |n.devs|
      ensures n.devs[i].sinkShut || Responsible(n, i)
    {
      assert r.devs[i].sinkShut || Responsible(r, i);
      if t :| t in r.calls && Closes(r.calls[t], i) {
        assert Closes(n.calls[t], i);
      } else if k :| k in r.reg.devices && r.reg.devices[k] == i {
        if k == id {
          assert Closes(n.calls[tid], i);
        } else {
          assert k in n.reg.devices && n.reg.devices[k] == i;
        }
      }
    }
  }

  lemma FindForCloseDevices(r: Runtime, tid: nat)
    requires DevicesAgree(r) && CanStep(r, FindForClose(tid))
    ensures DevicesAgree(StepCall(r, FindForClose(tid)))
  {
    hide DevicesAgree;
    var n, id := StepCall(r, FindForClose(tid)), r.calls[tid].id;
    if id in r.reg.devices {
      TakeOver(r, n, tid, id);
    } else {
      GotoDevices(r, n, tid, Exiting);
    }
  }

  lemma ExitDevices(r: Runtime, n: Runtime, tid: nat)
    requires DevicesAgree(r) && n.devs == r.devs && n.reg.devices == r.reg.devices && n.shutter == r.shutter
    requires tid in r.calls && !HasDevice(r.calls[tid]) && n.calls == r.calls - {tid}
    ensures DevicesAgree(n)
  {
    hide Inv;
    forall i | 0 <= i < |n.devs|
      ensures n.devs[i].sinkShut || Responsible(n, i)
    {
      assert r.devs[i].sinkShut || Responsible(r, i);
      if t :| t in r.calls && Closes(r.calls[t], i) {
        assert Closes(n.calls[t], i);
      }
    }
  }

  /** The shutdown takes over what was published, and passes on what it has not yet closed. */
  lemma ShutterDevices(r: Runtime, n: Runtime)
    requires DevicesAgree(r) && n.devs == r.devs && n.calls == r.calls
    requires forall i :: 0 <= i < |r.devs| && !r.devs[i].sinkShut && InRegistryOrShutter(r, i) ==>
               InRegistryOrShutter(n, i)
    requires forall i: nat :: InRegistryOrShutter(n, i) ==> i < |r.devs|
    ensures DevicesAgree(n)
  {
    hide Inv;
    forall i | 0 <= i < |n.devs|
      ensures n.devs[i].sinkShut || Responsible(n, i)
    {
      assert r.devs[i].sinkShut || Responsible(r, i);
      if t :| t in r.calls && Closes(r.calls[t], i) {
        assert Closes(n.calls[t], i);
      } else {
        assert Responsible(r, i) ==> InRegistryOrShutter(r, i);
      }
    }
    forall id | id in n.reg.devices
      ensures n.reg.devices[id] < |n.devs|
    {
      assert InRegistryOrShutter(n, n.reg.devices[id]);
    }
    forall dev | (n.shutter.Between? || n.shutter.ClosingOne?) && dev in n.shutter.todo
      ensures dev < |n.devs|
    {
      assert InRegistryOrShutter(n, dev);
    }
    assert n.shutter.ClosingOne? ==> InRegistryOrShutter(n, n.shutter.dev);
  }

  ghost predicate InRegistryOrShutter(r: Runtime, dev: nat) {
    || dev in r.reg.devices.Values
    || ((r.shutter.Between? || r.shutter.ClosingOne?) && dev in r.shutter.todo)
    || (r.shutter.ClosingOne? && r.shutter.dev == dev)
  }

  lemma DevicesInit(r: Runtime, step: RuntimeStep)
    requires R.Inv(r.reg) && ReservationsAgree(r) && DevicesAgree(r) && CanStep(r, step) && IsInit(step)
    ensures DevicesAgree(StepInit(r, step))
  {
    hide Apply, Enabled, ValidInit, DevicesAgree, ReservationsAgree, R.Inv;
    if step.AllocateDevice? {
      AllocateDevices(r, step.tid);
    } else if step.PublishDevice? {
      PublishDevices(r, step.tid);
    } else {
      GotoDevices(r, StepInit(r, step), step.tid, StepInit(r, step).calls[step.tid]);
    }
  }

  lemma DevicesCall(r: Runtime, step: RuntimeStep)
    requires DevicesAgree(r) && CanStep(r, step) && !IsInit(step) && !IsShutter(step) && !step.InDevice?
    ensures DevicesAgree(StepCall(r, step))
  {
    hide Apply, Enabled, DevicesAgree;
    var n, tid := StepCall(r, step), step.tid;
    if step.Exit? {
      ExitDevices(r, n, tid);
    } else if step.FindForClose? {
      FindForCloseDevices(r, tid);
    } else if step.FinishClose? {
      var m := OnDevice(r, r.calls[tid].dev, LeaveClose);
      OnDeviceDevices(r, r.calls[tid].dev, LeaveClose);
      LetGo(m, n, tid, Exiting);
    } else if step.StartClose? {
      OnDeviceDevices(r, r.calls[tid].dev, BeginClose(tid));
      GotoDevices(OnDevice(r, r.calls[tid].dev, BeginClose(tid)), n, tid, n.calls[tid]);
    } else if step.FinishWrite? {
      OnDeviceDevices(r, r.calls[tid].dev, LeaveWrite);
      GotoDevices(OnDevice(r, r.calls[tid].dev, LeaveWrite), n, tid, n.calls[tid]);
    } else if step.FindForWrite? && Finds(r, r.calls[tid]) {
      var dev, s := r.reg.devices[r.calls[tid].id], Arrive(tid, r.calls[tid].size);
      OnDeviceDevices(r, dev, s);
      GotoDevices(OnDevice(r, dev, s), n, tid, n.calls[tid]);
    } else {
      GotoDevices(r, n, tid, n.calls[tid]);
    }
  }

  lemma ShutterDeviceSteps(r: Runtime, step: RuntimeStep)
    requires DevicesAgree(r) && CanStep(r, step) && (step.ShutterStarts? || step.ShutterFinishes?)
    ensures DevicesAgree(StepShutter(r, step))
  {
    hide Apply, Enabled, Inv, Responsible;
    var n := StepShutter(r, step);
    if step.ShutterStarts? {
      OnDeviceDevices(r, step.dev, BeginClose(0));
      ShutterDevices(OnDevice(r, step.dev, BeginClose(0)), n);
    } else {
      OnDeviceDevices(r, r.shutter.dev, LeaveClose);
      ShutterDevices(OnDevice(r, r.shutter.dev, LeaveClose), n);
    }
  }

  lemma DevicesShutter(r: Runtime, step: RuntimeStep)
    requires DevicesAgree(r) && PhasesAgree(r) && CanStep(r, step) && IsShutter(step)
    ensures DevicesAgree(StepShutter(r, step))
  {
    if step.ShutterStarts? || step.ShutterFinishes? {
      ShutterDeviceSteps(r, step);
    } else {
      HandedOn(r, step);
      hide CanStep, StepShutter, Inv, Responsible, DevicesAgree, InRegistryOrShutter;
      ShutterDevices(r, StepShutter(r, step));
    }
  }

  /** The other steps of the shutdown take over what is published, and drop nothing. */
  lemma HandedOn(r: Runtime, step: RuntimeStep)
    requires DevicesAgree(r) && PhasesAgree(r) && CanStep(r, step) && IsShutter(step)
    requires !step.ShutterStarts? && !step.ShutterFinishes?
    ensures var n := StepShutter(r, step);
            && n.devs == r.devs && n.calls == r.calls
            && (forall i: nat :: InRegistryOrShutter(n, i) ==> i < |r.devs|)
            && (forall i :: 0 <= i < |r.devs| && !r.devs[i].sinkShut && InRegistryOrShutter(r, i) ==>
                  InRegistryOrShutter(n, i))
  {
    hide OnDevice, Enabled, Inv, Responsible;
  }

  lemma DevicesStep(r: Runtime, step: RuntimeStep)
    requires R.Inv(r.reg) && PhasesAgree(r) && ReservationsAgree(r) && DevicesAgree(r) && CanStep(r, step)
    ensures DevicesAgree(Advance(r, step))
  {
    hide Apply, Enabled, DevicesAgree, StepInit, StepCall, StepShutter, ReservationsAgree, PhasesAgree, R.Inv;
    if step.InDevice? {
      OnDeviceDevices(r, step.dev, step.step);
    } else if IsInit(step) {
      DevicesInit(r, step);
    } else if IsShutter(step) {
      DevicesShutter(r, step);
    } else {
      DevicesCall(r, step);
    }
  }

  // ---------------------------------------------------------------- threads

  /** Nobody enters or leaves a device; new devices are empty. */
  lemma SameThreads(r: Runtime, n: Runtime)
    requires ThreadsAgree(r) && |n.devs| >= |r.devs|
    requires forall i :: 0 <= i < |r.devs| ==> n.devs[i] == r.devs[i]
    requires forall i: nat, tid: nat :: |r.devs| <= i < |n.devs| ==>
               !WritesIn(n.devs[i], tid) && !ClosesIn(n.devs[i], tid)
    requires forall i: nat, tid: nat :: CallWrites(n, tid, i) <==> CallWrites(r, tid, i)
    requires forall i: nat, tid: nat :: CallCloses(n, tid, i) <==> CallCloses(r, tid, i)
    ensures ThreadsAgree(n)
  {
    hide WritesIn, ClosesIn, CallWrites, CallCloses;
  }

  /** The devices and the calls agree on who enters and who leaves. */
  lemma DeviceThreads(r: Runtime, n: Runtime, dev: nat, s: Step)
    requires ThreadsAgree(r) && dev < |r.devs| && Enabled(r.devs[dev], s) && ThreadsDistinct(r.devs[dev])
    requires n.devs == r.devs[dev := Apply(r.devs[dev], s)]
    requires forall i: nat, tid: nat :: CallWrites(n, tid, i) <==>
               (CallWrites(r, tid, i) && !(i == dev && s.LeaveWrite? && r.devs[dev].holder.tid == tid)) ||
               (i == dev && s.Arrive? && s.tid == tid)
    requires forall i: nat, tid: nat :: CallCloses(n, tid, i) <==>
               (CallCloses(r, tid, i) && !(i == dev && s.LeaveClose? && r.devs[dev].holder.tid == tid)) ||
               (i == dev && s.BeginClose? && s.closer == tid)
    ensures ThreadsAgree(n)
  {
    hide Apply, WritesIn, ClosesIn, CallWrites, CallCloses, ThreadsDistinct;
    forall i: nat, tid: nat | i < |n.devs|
      ensures WritesIn(n.devs[i], tid) <==> CallWrites(n, tid, i)
      ensures ClosesIn(n.devs[i], tid) <==> CallCloses(n, tid, i)
    {
      ThreadsFrame(r.devs[dev], s, tid);
      assert WritesIn(r.devs[i], tid) <==> CallWrites(r, tid, i);
      assert ClosesIn(r.devs[i], tid) <==> CallCloses(r, tid, i);
    }
  }

  lemma ThreadsInit(r: Runtime, step: RuntimeStep)
    requires ThreadsAgree(r) && CanStep(r, step) && IsInit(step)
    ensures ThreadsAgree(StepInit(r, step))
  {
    var n := StepInit(r, step);
    InitFrame(r, step);
    InitKinds(r, step);
    InitDevices(r, step);
    hide CanStep, StepInit, ThreadsAgree, WritesIn, ClosesIn;
    forall i: nat, tid: nat
      ensures CallWrites(n, tid, i) == CallWrites(r, tid, i) && CallCloses(n, tid, i) == CallCloses(r, tid, i)
    {
    }
    SameThreads(r, n);
  }

  /** An Init leaves the devices alone, or adds an empty one. */
  lemma InitDevices(r: Runtime, step: RuntimeStep)
    requires CanStep(r, step) && IsInit(step)
    ensures var n := StepInit(r, step);
            && |n.devs| >= |r.devs| && (forall i :: 0 <= i < |r.devs| ==> n.devs[i] == r.devs[i])
            && forall i: nat, tid: nat :: |r.devs| <= i < |n.devs| ==>
                 !WritesIn(n.devs[i], tid) && !ClosesIn(n.devs[i], tid)
  {
    if !step.AllocateDevice? {
      assert StepInit(r, step).devs == r.devs by {
        hide ValidInit, R.ReserveAnswer, R.PublishAnswer, R.Publish, R.Reserve, R.Cancel;
      }
    }
    hide StepInit;
    if step.AllocateDevice? {
      NewDeviceIsEmpty(r, step.tid);
    }
  }

  lemma NewDeviceIsEmpty(r: Runtime, tid: nat)
    requires CanStep(r, AllocateDevice(tid))
    ensures var n := StepInit(r, AllocateDevice(tid));
            && |n.devs| == |r.devs| + 1 && (forall i :: 0 <= i < |r.devs| ==> n.devs[i] == r.devs[i])
            && forall t: nat :: !WritesIn(n.devs[|r.devs|], t) && !ClosesIn(n.devs[|r.devs|], t)
  {
    hide ValidInit;
  }

  lemma ThreadsClose(r: Runtime, step: RuntimeStep)
    requires ThreadsAgree(r) && CanStep(r, step) && (step.StartClose? || step.FinishClose?)
    requires 0 !in r.calls && ThreadsDistinct(r.devs[r.calls[step.tid].dev])
    ensures ThreadsAgree(StepCall(r, step))
  {
    hide Apply, ThreadsAgree;
    var s := if step.StartClose? then BeginClose(step.tid) else LeaveClose;
    DeviceThreads(r, StepCall(r, step), r.calls[step.tid].dev, s);
  }

  lemma ThreadsWrite(r: Runtime, step: RuntimeStep)
    requires ThreadsAgree(r) && CanStep(r, step)
    requires step.FinishWrite? || (step.FindForWrite? && Finds(r, r.calls[step.tid]))
    requires forall i :: 0 <= i < |r.devs| ==> ThreadsDistinct(r.devs[i])
    ensures ThreadsAgree(StepCall(r, step))
  {
    hide Apply, ThreadsAgree, ThreadsDistinct;
    var n, c := StepCall(r, step), r.calls[step.tid];
    if step.FinishWrite? {
      DeviceThreads(r, n, c.dev, LeaveWrite);
    } else {
      DeviceThreads(r, n, r.reg.devices[c.id], Arrive(step.tid, c.size));
    }
  }

  /** A call outside every device moves on, or leaves. */
  lemma OutsideThreads(r: Runtime, n: Runtime, tid: nat)
    requires ThreadsAgree(r) && n.devs == r.devs && n.shutter == r.shutter
    requires n.calls == r.calls - {tid} || (tid in n.calls && n.calls == r.calls[tid := n.calls[tid]])
    requires tid in r.calls ==> !r.calls[tid].InWrite? && !r.calls[tid].InClose?
    requires tid in n.calls ==> !n.calls[tid].InWrite? && !n.calls[tid].InClose?
    ensures ThreadsAgree(n)
  {
    hide ThreadsAgree;
    SameThreads(r, n);
  }

  lemma ThreadsCall(r: Runtime, step: RuntimeStep)
    requires ThreadsAgree(r) && DevicesAgree(r) && PhasesAgree(r) && CanStep(r, step)
    requires !IsInit(step) && !IsShutter(step) && !step.InDevice?
    ensures ThreadsAgree(StepCall(r, step))
  {
    assert forall i :: 0 <= i < |r.devs| ==> ThreadsDistinct(r.devs[i]);
    assert 0 !in r.calls;
    hide ThreadsAgree, DevicesAgree, PhasesAgree, ThreadsDistinct;
    if step.StartClose? || step.FinishClose? {
      hide Apply, Enabled, StepCall;
      ThreadsClose(r, step);
    } else if step.FinishWrite? || (step.FindForWrite? && Finds(r, r.calls[step.tid])) {
      hide Enabled, StepCall;
      ThreadsWrite(r, step);
    } else {
      StaysOutside(r, step);
      hide CanStep, StepCall;
      OutsideThreads(r, StepCall(r, step), step.tid);
    }
  }

  /** Calls that enter, leave or find no device have nothing to do with the threads inside. */
  lemma StaysOutside(r: Runtime, step: RuntimeStep)
    requires CanStep(r, step) && (IsGate(step) || step.FindForClose? || step.FindForWrite?)
    requires step.FindForWrite? ==> !Finds(r, r.calls[step.tid])
    ensures var n, tid := StepCall(r, step), step.tid;
            && n.devs == r.devs && n.shutter == r.shutter
            && (n.calls == r.calls - {tid} || (tid in n.calls && n.calls == r.calls[tid := n.calls[tid]]))
            && (tid in r.calls ==> !r.calls[tid].InWrite? && !r.calls[tid].InClose?)
            && (tid in n.calls ==> !n.calls[tid].InWrite? && !n.calls[tid].InClose?)
  {
    hide OnDevice, Enabled;
  }

  lemma ThreadsShutter(r: Runtime, step: RuntimeStep)
    requires ThreadsAgree(r) && DevicesAgree(r) && PhasesAgree(r) && CanStep(r, step) && IsShutter(step)
    ensures ThreadsAgree(StepShutter(r, step))
  {
    hide Apply, ThreadsAgree;
    var n := StepShutter(r, step);
    if step.ShutterStarts? {
      DeviceThreads(r, n, step.dev, BeginClose(0));
    } else if step.ShutterFinishes? {
      DeviceThreads(r, n, r.shutter.dev, LeaveClose);
    } else {
      SameThreads(r, n);
    }
  }

  lemma ThreadsStep(r: Runtime, step: RuntimeStep)
    requires ThreadsAgree(r) && DevicesAgree(r) && PhasesAgree(r) && CanStep(r, step)
    ensures ThreadsAgree(Advance(r, step))
  {
    hide ThreadsAgree, PhasesAgree, StepInit, StepCall, StepShutter, Responsible;
    if step.InDevice? {
      DeviceThreads(r, Advance(r, step), step.dev, step.step);
    } else if IsInit(step) {
      ThreadsInit(r, step);
    } else if IsShutter(step) {
      ThreadsShutter(r, step);
    } else {
      ThreadsCall(r, step);
    }
  }

  // ---------------------------------------------------------------- sinks

  lemma GotoSinks(r: Runtime, n: Runtime, tid: nat, c: Call)
    requires SinksAgree(r) && n.sinks == r.sinks && |n.devs| >= |r.devs| && n.calls == r.calls[tid := c]
    requires !c.InitHasSink? && (tid in r.calls ==> !r.calls[tid].InitHasSink?)
    ensures SinksAgree(n)
  {
  }

  /** The factory made a sink: the call keeps it, or has already shut it down. */
  lemma NewSink(r: Runtime, n: Runtime, tid: nat, c: Call, sink: Sink)
    requires SinksAgree(r) && n.sinks == r.sinks + [sink] && n.devs == r.devs && n.calls == r.calls[tid := c]
    requires tid in r.calls && !r.calls[tid].InitHasSink?
    requires if c.InitHasSink? then c.sink == |r.sinks| && sink == InHand(tid) else sink.ShutDown?
    ensures SinksAgree(n)
  {
  }

  /** The call gives its sink up. */
  lemma EndSink(r: Runtime, n: Runtime, tid: nat, c: Call, sink: Sink)
    requires SinksAgree(r) && tid in r.calls && r.calls[tid].InitHasSink? && |n.devs| >= |r.devs|
    requires n.sinks == r.sinks[r.calls[tid].sink := sink] && n.calls == r.calls[tid := c] && !c.InitHasSink?
    requires !sink.InHand? && (sink.Owned? ==> sink.dev < |n.devs|)
    ensures SinksAgree(n)
  {
  }

  lemma SinksInit(r: Runtime, step: RuntimeStep)
    requires SinksAgree(r) && CanStep(r, step) && IsInit(step)
    ensures SinksAgree(StepInit(r, step))
  {
    assert r.calls[step.tid].InitHasSink? ==> r.calls[step.tid].sink < |r.sinks|;
    hide Apply, Enabled, ValidInit, SinksAgree;
    var n, tid := StepInit(r, step), step.tid;
    if step.FactoryBadSink? || step.FactoryGoodSink? {
      NewSink(r, n, tid, n.calls[tid], n.sinks[|r.sinks|]);
    } else if step.AllocateNothing? || step.AllocateNoSlots? || step.AllocateDevice? {
      EndSink(r, n, tid, n.calls[tid], n.sinks[r.calls[tid].sink]);
    } else {
      GotoSinks(r, n, tid, n.calls[tid]);
    }
  }

  lemma SameSinks(r: Runtime, n: Runtime)
    requires SinksAgree(r) && n.sinks == r.sinks && n.calls == r.calls && |n.devs| >= |r.devs|
    ensures SinksAgree(n)
  {
  }

  lemma ExitSinks(r: Runtime, n: Runtime, tid: nat)
    requires SinksAgree(r) && n.sinks == r.sinks && n.devs == r.devs
    requires tid in r.calls && r.calls[tid].Exiting? && n.calls == r.calls - {tid}
    ensures SinksAgree(n)
  {
  }

  lemma SinksGate(r: Runtime, step: RuntimeStep)
    requires SinksAgree(r) && CanStep(r, step) && IsGate(step)
    ensures SinksAgree(StepCall(r, step))
  {
    hide SinksAgree;
    var n := StepCall(r, step);
    if step.Exit? {
      ExitSinks(r, n, step.tid);
    } else {
      GotoSinks(r, n, step.tid, n.calls[step.tid]);
    }
  }

  lemma MoveKeepsDevices(r: Runtime, step: RuntimeStep)
    requires CanStep(r, step) && IsMove(step)
    ensures |StepCall(r, step).devs| == |r.devs|
  {
    hide Apply, Enabled;
  }

  lemma SinksMoveCall(r: Runtime, step: RuntimeStep)
    requires SinksAgree(r) && CanStep(r, step) && IsMove(step)
    ensures SinksAgree(StepCall(r, step))
  {
    MoveFrame(r, step);
    MoveKinds(r, step);
    MoveKeepsDevices(r, step);
    hide CanStep, StepCall, SinksAgree;
    GotoSinks(r, StepCall(r, step), step.tid, StepCall(r, step).calls[step.tid]);
  }

  lemma SinksStep(r: Runtime, step: RuntimeStep)
    requires SinksAgree(r) && CanStep(r, step)
    ensures SinksAgree(Advance(r, step))
  {
    if step.InDevice? {
      hide Apply, Enabled, SinksAgree;
      SameSinks(r, Advance(r, step));
    } else {
      hide CanStep, StepInit, StepCall, StepShutter, SinksAgree;
      if IsInit(step) {
        SinksInit(r, step);
      } else if IsShutter(step) {
        ShutterFrame(r, step);
        SameSinks(r, StepShutter(r, step));
      } else if IsGate(step) {
        SinksGate(r, step);
      } else {
        SinksMoveCall(r, step);
      }
    }
  }

  // ---------------------------------------------------------------- all together

  lemma AdvanceKeepsInv(r: Runtime, step: RuntimeStep)
    requires RuntimeInv(r) && CanStep(r, step)
    ensures RuntimeInv(Advance(r, step))
  {
    hide Apply, Enabled, R.Inv, PhasesAgree, ReservationsAgree, DevicesAgree, ThreadsAgree, SinksAgree, Advance;
    RegistryStep(r, step);
    PhasesStep(r, step);
    ReservationsStep(r, step);
    DevicesStep(r, step);
    ThreadsStep(r, step);
    SinksStep(r, step);
  }
}
