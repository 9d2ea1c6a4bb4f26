/**
 * The whole FMOD runtime as a step system: API calls past their gate, the registry they share, the
 * devices they use, the sinks the factory produced, and the one thread that shuts everything down.
 */
module FmodRuntime {
  import opened FmodDevice
  import R = FmodRegistry

  datatype Limits = Limits(maxDevices: nat, maxBlocks: nat, maxBytes: nat)

  datatype InitArgs = InitArgs(id: nat, channels: int, rate: int, frames: int, blocks: int)

  const SIZE_MAX := 0xFFFF_FFFF_FFFF_FFFF
  const INT_MAX := 0x7FFF_FFFF

  /** Sixteen-bit samples. */
  function FrameBytes(channels: int): int {
    2 * channels
  }

  /** Everything Init demands before it reserves an identity. */
  predicate ValidInit(l: Limits, a: InitArgs) {
    && l.maxDevices != 0 && l.maxBlocks != 0 && l.maxBytes != 0
    && a.id != 0
    && (a.channels == 1 || a.channels == 2 || a.channels == 6 || a.channels == 8)
    && a.frames > 0 && a.blocks > 0 && a.blocks <= l.maxBlocks
    && 8000 <= a.rate <= 384000
    && a.frames <= SIZE_MAX / FrameBytes(a.channels)
    && a.frames * FrameBytes(a.channels) <= SIZE_MAX / a.blocks
    && var bytes := a.frames * FrameBytes(a.channels) * a.blocks;
       bytes != 0 && bytes <= l.maxBytes && bytes <= INT_MAX
  }

  /** What an API call past the gate is about to do. */
  datatype Call =
    | InitEntered(args: InitArgs)
    | InitReserved(args: InitArgs)
    | InitHasSink(args: InitArgs, sink: nat)
    | InitCancels(args: InitArgs)
    | InitHasDevice(args: InitArgs, dev: nat)
    | WriteEntered(id: nat, size: nat)
    | InWrite(dev: nat)
    | CloseEntered(id: nat)
    | MustClose(dev: nat)
    | InClose(dev: nat)
    | Exiting

  /** Where a sink the factory produced has gone; a dropped one was destroyed without a Shutdown. */
  datatype Sink = InHand(tid: nat) | Owned(dev: nat) | ShutDown | Dropped

  /** The thread that shuts down: between two devices, in one, asleep until the calls are out, or past that. */
  datatype Shutter =
    | NotStarted
    | Between(todo: set<nat>)
    | ClosingOne(dev: nat, todo: set<nat>)
    | Waiting
    | Completing
    | Done

  datatype Runtime = Runtime(
    limits: Limits, reg: R.Registry, devs: seq<Device>, sinks: seq<Sink>,
    calls: map<nat, Call>,     // the thread that shuts down is number 0, so no call is
    leaving: nat,              // calls that are out of the count and have not yet notified
    shutter: Shutter,
    selfClosing: bool,         // the sinks of this factory shut themselves down when they are destroyed
    refused: bool)             // a reserved Init failed to publish with no shutdown under way

  function NewRuntime(limits: Limits, selfClosing: bool): Runtime {
    Runtime(limits, R.NewRegistry(limits.maxDevices), [], [], map[], 0, NotStarted, selfClosing, false)
  }

  datatype RuntimeStep =
    | EnterInit(tid: nat, args: InitArgs)
    | EnterWrite(tid: nat, id: nat, size: nat)
    | EnterClose(tid: nat, id: nat)
    | ReserveIdentity(tid: nat)
    | FactoryFails(tid: nat)
    | FactoryBadSink(tid: nat)
    | FactoryGoodSink(tid: nat)
    | AllocateNothing(tid: nat)
    | AllocateNoSlots(tid: nat)
    | AllocateDevice(tid: nat)
    | CancelInit(tid: nat)
    | PublishDevice(tid: nat)
    | FindForWrite(tid: nat)
    | FinishWrite(tid: nat)
    | FindForClose(tid: nat)
    | StartClose(tid: nat)
    | FinishClose(tid: nat)
    | Exit(tid: nat)
    | NotifyExit
    | InDevice(dev: nat, step: Step)
    | BeginShutdown
    | ShutterStarts(dev: nat)
    | ShutterFinishes
    | ShutterChecks
    | ShutterWakes
    | Complete

  /** Device steps that are not also a step of the call that makes them. */
  predicate Internal(step: Step) {
    !step.Arrive? && !step.BeginClose? && !step.LeaveWrite? && !step.LeaveClose?
  }

  predicate WriteDone(r: Runtime, dev: nat, tid: nat) {
    dev < |r.devs| && r.devs[dev].holder.Writer? && r.devs[dev].holder.tid == tid && Enabled(r.devs[dev], LeaveWrite)
  }

  predicate CloseDone(r: Runtime, dev: nat, tid: nat) {
    dev < |r.devs| && r.devs[dev].holder.Closer? && r.devs[dev].holder.tid == tid && Enabled(r.devs[dev], LeaveClose)
  }

  predicate CanStep(r: Runtime, step: RuntimeStep) {
    match step
    case EnterInit(tid, _) => tid > 0 && tid !in r.calls && !r.reg.started
    case EnterWrite(tid, _, _) => tid > 0 && tid !in r.calls && !r.reg.started
    case EnterClose(tid, id) => tid > 0 && tid !in r.calls && !r.reg.started && id != 0
    case ReserveIdentity(tid) => tid in r.calls && r.calls[tid].InitEntered?
    case FactoryFails(tid) => tid in r.calls && r.calls[tid].InitReserved?
    case FactoryBadSink(tid) => tid in r.calls && r.calls[tid].InitReserved?
    case FactoryGoodSink(tid) => tid in r.calls && r.calls[tid].InitReserved?
    case AllocateNothing(tid) => tid in r.calls && r.calls[tid].InitHasSink? && r.calls[tid].sink < |r.sinks|
    case AllocateNoSlots(tid) => tid in r.calls && r.calls[tid].InitHasSink? && r.calls[tid].sink < |r.sinks|
    case AllocateDevice(tid) =>
      tid in r.calls && r.calls[tid].InitHasSink? && r.calls[tid].sink < |r.sinks| &&
      ValidInit(r.limits, r.calls[tid].args)
    case CancelInit(tid) => tid in r.calls && r.calls[tid].InitCancels?
    case PublishDevice(tid) => tid in r.calls && r.calls[tid].InitHasDevice?
    case FindForWrite(tid) =>
      tid in r.calls && r.calls[tid].WriteEntered? &&
      (Finds(r, r.calls[tid]) ==>
         var dev := r.reg.devices[r.calls[tid].id];
         dev < |r.devs| && Enabled(r.devs[dev], Arrive(tid, r.calls[tid].size)))
    case FinishWrite(tid) => tid in r.calls && r.calls[tid].InWrite? && WriteDone(r, r.calls[tid].dev, tid)
    case FindForClose(tid) => tid in r.calls && r.calls[tid].CloseEntered?
    case StartClose(tid) =>
      tid in r.calls && r.calls[tid].MustClose? && r.calls[tid].dev < |r.devs| &&
      Enabled(r.devs[r.calls[tid].dev], BeginClose(tid))
    case FinishClose(tid) => tid in r.calls && r.calls[tid].InClose? && CloseDone(r, r.calls[tid].dev, tid)
    case Exit(tid) => tid in r.calls && r.calls[tid].Exiting? && r.reg.active > 0
    case NotifyExit => r.leaving > 0
    case InDevice(dev, s) => dev < |r.devs| && Internal(s) && Enabled(r.devs[dev], s)
    case BeginShutdown => !r.reg.started
    case ShutterStarts(dev) =>
      r.shutter.Between? && dev in r.shutter.todo && dev < |r.devs| && Enabled(r.devs[dev], BeginClose(0))
    case ShutterFinishes => r.shutter.ClosingOne? && CloseDone(r, r.shutter.dev, 0)
    case ShutterChecks => r.shutter == Between({})
    case ShutterWakes => r.shutter.Waiting?
    case Complete => r.shutter.Completing?
  }

  /** The write names a published device and carries data. */
  predicate Finds(r: Runtime, c: Call) {
    c.WriteEntered? && c.id != 0 && c.size != 0 && !r.reg.started && c.id in r.reg.devices
  }

  function PassEntry(r: Runtime, tid: nat, c: Call): Runtime {
    r.(reg := r.reg.(active := r.reg.active + 1), calls := r.calls[tid := c])
  }

  function Goto(r: Runtime, tid: nat, c: Call): Runtime {
    r.(calls := r.calls[tid := c])
  }

  function OnDevice(r: Runtime, dev: nat, s: Step): Runtime
    requires dev < |r.devs| && Enabled(r.devs[dev], s)
  {
    r.(devs := r.devs[dev := Apply(r.devs[dev], s)])
  }

  function DeviceFor(a: InitArgs): Device
    requires FrameBytes(a.channels) > 0 && a.frames > 0 && a.blocks > 0
  {
    NewDevice(FrameBytes(a.channels), a.frames * FrameBytes(a.channels), a.blocks)
  }

  function StepInit(r: Runtime, step: RuntimeStep): Runtime
    requires CanStep(r, step)
  {
    match step
    case ReserveIdentity(tid) =>
      var a := r.calls[tid].args;
      if ValidInit(r.limits, a) && R.ReserveAnswer(r.reg, a.id).Reserved?
      then Goto(r, tid, InitReserved(a)).(reg := R.Reserve(r.reg, a.id))
      else Goto(r, tid, Exiting)
    case FactoryFails(tid) => Goto(r, tid, InitCancels(r.calls[tid].args))
    case FactoryBadSink(tid) => Goto(r, tid, InitCancels(r.calls[tid].args)).(sinks := r.sinks + [ShutDown])
    case FactoryGoodSink(tid) =>
      Goto(r, tid, InitHasSink(r.calls[tid].args, |r.sinks|)).(sinks := r.sinks + [InHand(tid)])
    case AllocateNothing(tid) =>
      var fate := if r.selfClosing then ShutDown else Dropped;
      Goto(r, tid, InitCancels(r.calls[tid].args)).(sinks := r.sinks[r.calls[tid].sink := fate])
    case AllocateNoSlots(tid) =>
      Goto(r, tid, InitCancels(r.calls[tid].args)).(sinks := r.sinks[r.calls[tid].sink := ShutDown])
    case AllocateDevice(tid) =>
      var a := r.calls[tid].args;
      Goto(r, tid, InitHasDevice(a, |r.devs|))
        .(sinks := r.sinks[r.calls[tid].sink := Owned(|r.devs|)], devs := r.devs + [DeviceFor(a)])
    case CancelInit(tid) => Goto(r, tid, Exiting).(reg := R.Cancel(r.reg, r.calls[tid].args.id))
    case PublishDevice(tid) =>
      var id, dev := r.calls[tid].args.id, r.calls[tid].dev;
      var answer := R.PublishAnswer(R.Cancel(r.reg, id), id);
      Goto(r, tid, if answer.Published? then Exiting else MustClose(dev))
        .(reg := R.Publish(r.reg, id, dev), refused := r.refused || answer.Duplicate? || answer.NoRoom?)
    case _ => r
  }

  function StepCall(r: Runtime, step: RuntimeStep): Runtime
    requires CanStep(r, step)
  {
    match step
    case EnterInit(tid, args) => PassEntry(r, tid, InitEntered(args))
    case EnterWrite(tid, id, size) => PassEntry(r, tid, WriteEntered(id, size))
    case EnterClose(tid, id) => PassEntry(r, tid, CloseEntered(id))
    case FindForWrite(tid) =>
      var c := r.calls[tid];
      if Finds(r, c) then
        var dev := r.reg.devices[c.id];
        Goto(OnDevice(r, dev, Arrive(tid, c.size)), tid, InWrite(dev))
      else Goto(r, tid, Exiting)
    case FinishWrite(tid) => Goto(OnDevice(r, r.calls[tid].dev, LeaveWrite), tid, Exiting)
    case FindForClose(tid) =>
      var id := r.calls[tid].id;
      if id in r.reg.devices then Goto(r, tid, MustClose(r.reg.devices[id])).(reg := R.Take(r.reg, id))
      else Goto(r, tid, Exiting)
    case StartClose(tid) => Goto(OnDevice(r, r.calls[tid].dev, BeginClose(tid)), tid, InClose(r.calls[tid].dev))
    case FinishClose(tid) => Goto(OnDevice(r, r.calls[tid].dev, LeaveClose), tid, Exiting)
    case Exit(tid) =>
      r.(reg := r.reg.(active := r.reg.active - 1), calls := r.calls - {tid}, leaving := r.leaving + 1)
    case _ => r
  }

  function StepShutter(r: Runtime, step: RuntimeStep): Runtime
    requires CanStep(r, step)
  {
    match step
    case BeginShutdown => r.(reg := R.Stop(r.reg), shutter := Between(r.reg.devices.Values))
    case ShutterStarts(dev) => OnDevice(r, dev, BeginClose(0)).(shutter := ClosingOne(dev, r.shutter.todo - {dev}))
    case ShutterFinishes => OnDevice(r, r.shutter.dev, LeaveClose).(shutter := Between(r.shutter.todo))
    case ShutterChecks => r.(shutter := if r.reg.active == 0 then Completing else Waiting)
    case ShutterWakes => r.(shutter := Between({}))
    case NotifyExit => r.(leaving := r.leaving - 1, shutter := if r.shutter.Waiting? then Between({}) else r.shutter)
    case Complete => r.(reg := r.reg.(complete := true), shutter := Done)
    case _ => r
  }

  predicate IsInit(step: RuntimeStep) {
    || step.ReserveIdentity? || step.FactoryFails? || step.FactoryBadSink? || step.FactoryGoodSink?
    || step.AllocateNothing? || step.AllocateNoSlots? || step.AllocateDevice? || step.CancelInit? || step.PublishDevice?
  }

  predicate IsShutter(step: RuntimeStep) {
    || step.BeginShutdown? || step.ShutterStarts? || step.ShutterFinishes? || step.ShutterChecks? || step.ShutterWakes?
    || step.NotifyExit? || step.Complete?
  }

  function Advance(r: Runtime, step: RuntimeStep): Runtime
    requires CanStep(r, step)
  {
    if step.InDevice? then OnDevice(r, step.dev, step.step)
    else if IsInit(step) then StepInit(r, step)
    else if IsShutter(step) then StepShutter(r, step)
    else StepCall(r, step)
  }

  ghost predicate IsExecution(r: Runtime, steps: seq<RuntimeStep>, end: Runtime)
    decreases |steps|
  {
    if steps == [] then r == end
    else CanStep(r, steps[0]) && IsExecution(Advance(r, steps[0]), steps[1..], end)
  }

  // ---------------------------------------------------------------- invariants

  /** The call has reserved its identity and not given it up. */
  predicate Reserving(c: Call) {
    c.InitReserved? || c.InitHasSink? || c.InitCancels? || c.InitHasDevice?
  }

  /** Each identity being initialized belongs to exactly one call. */
  ghost predicate ReservationsAgree(r: Runtime) {
    && (forall tid :: tid in r.calls && Reserving(r.calls[tid]) ==> r.calls[tid].args.id in r.reg.initializing)
    && (forall t, u :: t in r.calls && u in r.calls && Reserving(r.calls[t]) && Reserving(r.calls[u]) ==>
          (r.calls[t].args.id == r.calls[u].args.id ==> t == u))
    && (forall id :: id in r.reg.initializing ==>
          exists tid :: tid in r.calls && Reserving(r.calls[tid]) && r.calls[tid].args.id == id)
    && (forall tid :: tid in r.calls && Reserving(r.calls[tid]) ==> ValidInit(r.limits, r.calls[tid].args))
  }

  /** The counters of calls and the phases of the shutdown. */
  ghost predicate PhasesAgree(r: Runtime) {
    && r.reg.active == |r.calls| && 0 !in r.calls
    && (r.reg.started <==> !r.shutter.NotStarted?)
    && (r.reg.complete <==> r.shutter.Done?)
    && (r.shutter.Completing? || r.shutter.Done? ==> r.calls == map[])
    && (r.shutter.Waiting? && r.reg.active == 0 ==> r.leaving > 0)  // a notification is on its way
    && !r.refused
  }

  /** Somebody still has to shut the device's sink down: its Init, a Close, the shutdown, or a later one of these. */
  ghost predicate Responsible(r: Runtime, dev: nat) {
    || dev in r.reg.devices.Values
    || (exists tid :: tid in r.calls && Closes(r.calls[tid], dev))
    || ((r.shutter.Between? || r.shutter.ClosingOne?) && dev in r.shutter.todo)
    || (r.shutter.ClosingOne? && r.shutter.dev == dev)
  }

  predicate HasDevice(c: Call) {
    c.InitHasDevice? || c.MustClose? || c.InClose?
  }

  predicate Closes(c: Call, dev: nat) {
    HasDevice(c) && c.dev == dev
  }

  ghost predicate DevicesAgree(r: Runtime) {
    && (forall i :: 0 <= i < |r.devs| ==> Inv(r.devs[i]) && |r.devs[i].pool.slots| > 0)
    && (forall i :: 0 <= i < |r.devs| ==> r.devs[i].sinkShut || Responsible(r, i))
    && (forall id :: id in r.reg.devices ==> r.reg.devices[id] < |r.devs|)
    && (forall tid :: tid in r.calls && HasDevice(r.calls[tid]) ==> r.calls[tid].dev < |r.devs|)
    && (forall dev :: (r.shutter.Between? || r.shutter.ClosingOne?) && dev in r.shutter.todo ==> dev < |r.devs|)
    && (r.shutter.ClosingOne? ==> r.shutter.dev < |r.devs|)
  }

  predicate CallWrites(r: Runtime, tid: nat, dev: nat) {
    tid in r.calls && r.calls[tid] == InWrite(dev)
  }

  predicate CallCloses(r: Runtime, tid: nat, dev: nat) {
    (tid in r.calls && r.calls[tid] == InClose(dev)) || (tid == 0 && r.shutter.ClosingOne? && r.shutter.dev == dev)
  }

  /** A thread is inside a device exactly when its call, or the shutdown, says so. */
  ghost predicate ThreadsAgree(r: Runtime) {
    && (forall i: nat, tid: nat :: i < |r.devs| ==> (WritesIn(r.devs[i], tid) <==> CallWrites(r, tid, i)))
    && (forall i: nat, tid: nat :: i < |r.devs| ==> (ClosesIn(r.devs[i], tid) <==> CallCloses(r, tid, i)))
    && (forall i: nat, tid: nat :: CallWrites(r, tid, i) || CallCloses(r, tid, i) ==> i < |r.devs|)
  }

  ghost predicate SinksAgree(r: Runtime) {
    && (forall s :: 0 <= s < |r.sinks| && r.sinks[s].InHand? ==>
          var tid := r.sinks[s].tid; tid in r.calls && r.calls[tid].InitHasSink? && r.calls[tid].sink == s)
    && (forall s :: 0 <= s < |r.sinks| && r.sinks[s].Owned? ==> r.sinks[s].dev < |r.devs|)
    && (forall tid :: tid in r.calls && r.calls[tid].InitHasSink? ==>
          r.calls[tid].sink < |r.sinks| && r.sinks[r.calls[tid].sink] == InHand(tid))
  }

  ghost predicate RuntimeInv(r: Runtime) {
    && R.Inv(r.reg) && PhasesAgree(r) && ReservationsAgree(r) && DevicesAgree(r) && ThreadsAgree(r) && SinksAgree(r)
  }
}
