/**
 * What an Init, a Write and a Close of the FMOD runtime achieve: exactly when each gets through, and
 * the whole state a call leaves behind that nothing gets in the way of.
 */
module FmodCalls {
  import opened FmodPool
  import opened FmodDevice
  import opened FmodRuntime
  import R = FmodRegistry
  import D = FmodDeviceRuns
  import W = FmodWrites

  // ---------------------------------------------------------------- arguments of Init

  lemma LessFactor(a: nat, c: nat, b: nat)
    requires a * b < c * b
    ensures a < c
  {
    assert a >= c ==> (a - c) * b >= 0;
  }

  lemma ProductBound(a: nat, b: nat, c: nat)
    requires b > 0 && a * b <= c
    ensures a <= c / b
  {
    var q := c / b;
    assert c == q * b + c % b < (q + 1) * b;
    LessFactor(a, q + 1, b);
  }

  lemma FactorBound(a: nat, b: nat)
    requires b > 0
    ensures a <= a * b
  {
    assert a * b == a + a * (b - 1);
  }

  /** What Init is asked for: identity, channels, rate and a queue with something in it. */
  predicate IsFormat(a: InitArgs) {
    && a.id != 0 && (a.channels == 1 || a.channels == 2 || a.channels == 6 || a.channels == 8)
    && 8000 <= a.rate <= 384000 && a.frames > 0 && a.blocks > 0
  }

  /** The bytes of all blocks, at two bytes a sample. */
  predicate FitsLimits(l: Limits, a: InitArgs) {
    && l.maxDevices > 0 && a.blocks <= l.maxBlocks
    && a.frames * (2 * a.channels) * a.blocks <= l.maxBytes
    && a.frames * (2 * a.channels) * a.blocks <= 0x7FFF_FFFF
  }

  /** The checks against overflow exclude nothing that the limit on the queue's bytes would admit. */
  lemma ArgumentsAreExact(l: Limits, a: InitArgs)
    ensures ValidInit(l, a) <==> IsFormat(a) && FitsLimits(l, a)
  {
    if IsFormat(a) {
      var block := a.frames * (2 * a.channels);
      FactorBound(block, a.blocks);
      FactorBound(a.frames, 2 * a.channels);
      assert block * a.blocks > 0;
      if block * a.blocks <= 0x7FFF_FFFF {
        ProductBound(block, a.blocks, SIZE_MAX);
        ProductBound(a.frames, 2 * a.channels, SIZE_MAX);
      }
    }
  }

  /** Whether Init gets an identity: a matter of its arguments and of what is registered just then. */
  predicate Admits(r: Runtime, a: InitArgs) {
    && IsFormat(a) && FitsLimits(r.limits, a) && !r.reg.started && a.id !in r.reg.devices && a.id !in r.reg.initializing
    && |r.reg.devices| + |r.reg.initializing| < r.reg.maxDevices
  }

  lemma AdmittedFormat(r: Runtime, a: InitArgs)
    requires Admits(r, a)
    ensures IsFormat(a) && FitsLimits(r.limits, a) && a.channels > 0 && a.frames > 0 && a.blocks > 0
  {
    hide FitsLimits;
  }

  /** Init goes on exactly when it is admitted, with its identity reserved, and leaves at once otherwise. */
  lemma ReservationIsExact(r: Runtime, tid: nat)
    requires CanStep(r, ReserveIdentity(tid))
    ensures var a, n := r.calls[tid].args, Advance(r, ReserveIdentity(tid));
            n == if Admits(r, a)
                 then r.(calls := r.calls[tid := InitReserved(a)],
                         reg := r.reg.(initializing := r.reg.initializing + {a.id}))
                 else r.(calls := r.calls[tid := Exiting])
  {
    ArgumentsAreExact(r.limits, r.calls[tid].args);
    hide ValidInit, FitsLimits;
  }

  // ---------------------------------------------------------------- executions

  lemma {:induction false} Join(r: Runtime, a: seq<RuntimeStep>, m: Runtime, b: seq<RuntimeStep>, n: Runtime)
    requires IsExecution(r, a, m) && IsExecution(m, b, n)
    ensures IsExecution(r, a + b, n)
    decreases |a|
  {
    hide CanStep, Advance;
    if a == [] {
      assert a + b == b;
    } else {
      assert (a + b)[0] == a[0] && (a + b)[1..] == a[1..] + b;
      Join(Advance(r, a[0]), a[1..], m, b, n);
    }
  }

  lemma Single(r: Runtime, step: RuntimeStep, n: Runtime)
    requires CanStep(r, step) && n == Advance(r, step)
    ensures IsExecution(r, [step], n)
  {
    hide CanStep, Advance;
    assert [step][1..] == [];
    assert IsExecution(n, [], n);
  }

  lemma Pair(r: Runtime, a: RuntimeStep, m: Runtime, b: RuntimeStep, n: Runtime)
    requires CanStep(r, a) && m == Advance(r, a) && CanStep(m, b) && n == Advance(m, b)
    ensures IsExecution(r, [a, b], n)
  {
    hide CanStep, Advance;
    Single(m, b, n);
    assert [a, b][1..] == [b];
  }

  // ---------------------------------------------------------------- Init

  function ReserveSteps(tid: nat, a: InitArgs): seq<RuntimeStep> {
    [EnterInit(tid, a), ReserveIdentity(tid)]
  }

  function BuildSteps(tid: nat): seq<RuntimeStep> {
    [FactoryGoodSink(tid), AllocateDevice(tid)]
  }

  function PublishSteps(tid: nat): seq<RuntimeStep> {
    [PublishDevice(tid), Exit(tid)]
  }

  /** A whole Init in which nothing fails. */
  function InitSteps(tid: nat, a: InitArgs): seq<RuntimeStep> {
    [EnterInit(tid, a), ReserveIdentity(tid), FactoryGoodSink(tid), AllocateDevice(tid), PublishDevice(tid), Exit(tid)]
  }

  lemma InitStepsAre(tid: nat, a: InitArgs)
    ensures ReserveSteps(tid, a) + BuildSteps(tid) + PublishSteps(tid) == InitSteps(tid, a)
  {
  }

  lemma EnterIs(r: Runtime, tid: nat, a: InitArgs)
    requires tid > 0 && tid !in r.calls && !r.reg.started
    ensures CanStep(r, EnterInit(tid, a))
    ensures Advance(r, EnterInit(tid, a)) ==
            r.(reg := r.reg.(active := r.reg.active + 1), calls := r.calls[tid := InitEntered(a)])
  {
    hide ValidInit;
  }

  lemma ExitIs(r: Runtime, tid: nat)
    requires tid in r.calls && r.calls[tid].Exiting? && r.reg.active > 0
    ensures CanStep(r, Exit(tid))
    ensures Advance(r, Exit(tid)) ==
            r.(reg := r.reg.(active := r.reg.active - 1), calls := r.calls - {tid}, leaving := r.leaving + 1)
  {
    hide ValidInit;
  }

  lemma ReserveIs(r: Runtime, tid: nat, a: InitArgs)
    requires tid in r.calls && r.calls[tid] == InitEntered(a) && Admits(r, a)
    ensures CanStep(r, ReserveIdentity(tid))
    ensures Advance(r, ReserveIdentity(tid)) ==
            r.(calls := r.calls[tid := InitReserved(a)], reg := r.reg.(initializing := r.reg.initializing + {a.id}))
  {
    hide Advance, ValidInit, FitsLimits;
    ReservationIsExact(r, tid);
  }

  lemma InitGetsIdentity(r: Runtime, tid: nat, a: InitArgs)
    requires tid > 0 && tid !in r.calls && Admits(r, a)
    ensures IsExecution(r, ReserveSteps(tid, a),
                        r.(calls := r.calls[tid := InitReserved(a)],
                           reg := r.reg.(active := r.reg.active + 1,
                                         initializing := r.reg.initializing + {a.id})))
  {
    hide IsExecution, CanStep, Advance, ValidInit, FitsLimits;
    EnterIs(r, tid, a);
    var m := Advance(r, EnterInit(tid, a));
    ReserveIs(m, tid, a);
    assert r.calls[tid := InitEntered(a)][tid := InitReserved(a)] == r.calls[tid := InitReserved(a)];
    Pair(r, EnterInit(tid, a), m, ReserveIdentity(tid), Advance(m, ReserveIdentity(tid)));
  }

  /** A device as Init asked for it: 16-bit samples, all slots Free. */
  function Asked(a: InitArgs): Device
    requires a.channels > 0 && a.frames > 0 && a.blocks > 0
  {
    NewDevice(2 * a.channels, a.frames * (2 * a.channels), a.blocks)
  }

  lemma InitGetsDevice(r: Runtime, tid: nat, a: InitArgs)
    requires tid in r.calls && r.calls[tid] == InitReserved(a) && IsFormat(a) && FitsLimits(r.limits, a)
    ensures IsExecution(r, BuildSteps(tid),
                        r.(calls := r.calls[tid := InitHasDevice(a, |r.devs|)], devs := r.devs + [Asked(a)],
                           sinks := r.sinks + [Owned(|r.devs|)]))
  {
    hide IsExecution, CanStep, Advance, ValidInit, FitsLimits;
    FactoryIs(r, tid, a);
    var m := Advance(r, FactoryGoodSink(tid));
    ArgumentsAreExact(r.limits, a);
    AllocateIs(m, tid, a, |r.sinks|);
    assert r.calls[tid := InitHasSink(a, |r.sinks|)][tid := InitHasDevice(a, |r.devs|)] ==
           r.calls[tid := InitHasDevice(a, |r.devs|)];
    assert (r.sinks + [InHand(tid)])[|r.sinks| := Owned(|r.devs|)] == r.sinks + [Owned(|r.devs|)];
    Pair(r, FactoryGoodSink(tid), m, AllocateDevice(tid), Advance(m, AllocateDevice(tid)));
  }

  lemma FactoryIs(r: Runtime, tid: nat, a: InitArgs)
    requires tid in r.calls && r.calls[tid] == InitReserved(a)
    ensures CanStep(r, FactoryGoodSink(tid))
    ensures Advance(r, FactoryGoodSink(tid)) ==
            r.(calls := r.calls[tid := InitHasSink(a, |r.sinks|)], sinks := r.sinks + [InHand(tid)])
  {
    hide ValidInit;
  }

  lemma AllocateIs(r: Runtime, tid: nat, a: InitArgs, sink: nat)
    requires tid in r.calls && r.calls[tid] == InitHasSink(a, sink) && sink < |r.sinks|
    requires IsFormat(a) && ValidInit(r.limits, a)
    ensures CanStep(r, AllocateDevice(tid))
    ensures Advance(r, AllocateDevice(tid)) ==
            r.(calls := r.calls[tid := InitHasDevice(a, |r.devs|)], devs := r.devs + [Asked(a)],
               sinks := r.sinks[sink := Owned(|r.devs|)])
  {
    hide ValidInit;
  }

  lemma PublishIs(r: Runtime, tid: nat, a: InitArgs, dev: nat)
    requires tid in r.calls && r.calls[tid] == InitHasDevice(a, dev)
    requires R.Inv(r.reg) && a.id in r.reg.initializing && !r.reg.started
    ensures CanStep(r, PublishDevice(tid))
    ensures Advance(r, PublishDevice(tid)) ==
            r.(calls := r.calls[tid := Exiting],
               reg := r.reg.(devices := r.reg.devices[a.id := dev], initializing := r.reg.initializing - {a.id}))
  {
    R.ReservedIsPublishable(r.reg, a.id);
    hide ValidInit, R.Inv, R.PublishAnswer;
  }

  /** The runtime while the call holds a device that is not registered yet. */
  function HasDevice(r: Runtime, tid: nat, a: InitArgs): Runtime
    requires a.channels > 0 && a.frames > 0 && a.blocks > 0
  {
    r.(calls := r.calls[tid := InitHasDevice(a, |r.devs|)], devs := r.devs + [Asked(a)],
       sinks := r.sinks + [Owned(|r.devs|)],
       reg := r.reg.(active := r.reg.active + 1, initializing := r.reg.initializing + {a.id}))
  }

  lemma InitBuildsDevice(r: Runtime, tid: nat, a: InitArgs)
    requires tid > 0 && tid !in r.calls && Admits(r, a)
    ensures IsExecution(r, ReserveSteps(tid, a) + BuildSteps(tid), HasDevice(r, tid, a))
  {
    hide IsExecution, CanStep, Advance, FitsLimits, Asked, ReserveSteps, BuildSteps, Admits, IsFormat;
    AdmittedFormat(r, a);
    var m := r.(calls := r.calls[tid := InitReserved(a)],
                reg := r.reg.(active := r.reg.active + 1, initializing := r.reg.initializing + {a.id}));
    InitGetsIdentity(r, tid, a);
    InitGetsDevice(m, tid, a);
    assert m.calls[tid := InitHasDevice(a, |r.devs|)] == r.calls[tid := InitHasDevice(a, |r.devs|)];
    Join(r, ReserveSteps(tid, a), m, BuildSteps(tid), HasDevice(r, tid, a));
  }

  lemma InitPublishes(r: Runtime, tid: nat, a: InitArgs, dev: nat)
    requires tid in r.calls && r.calls[tid] == InitHasDevice(a, dev) && r.reg.active > 0
    requires R.Inv(r.reg) && a.id in r.reg.initializing && !r.reg.started
    ensures IsExecution(r, PublishSteps(tid),
                        r.(calls := r.calls - {tid}, leaving := r.leaving + 1,
                           reg := r.reg.(active := r.reg.active - 1, devices := r.reg.devices[a.id := dev],
                                         initializing := r.reg.initializing - {a.id})))
  {
    hide IsExecution, CanStep, Advance, R.Inv;
    PublishIs(r, tid, a, dev);
    var m := Advance(r, PublishDevice(tid));
    ExitIs(m, tid);
    assert r.calls[tid := Exiting] - {tid} == r.calls - {tid};
    Pair(r, PublishDevice(tid), m, Exit(tid), Advance(m, Exit(tid)));
  }

  /** The runtime with one more device, registered under the identity that asked for it. */
  function Registered(r: Runtime, a: InitArgs): Runtime
    requires a.channels > 0 && a.frames > 0 && a.blocks > 0
  {
    r.(reg := r.reg.(devices := r.reg.devices[a.id := |r.devs|]), devs := r.devs + [Asked(a)],
       sinks := r.sinks + [Owned(|r.devs|)], leaving := r.leaving + 1)
  }

  lemma InitLeavesOnlyDevice(r: Runtime, tid: nat, a: InitArgs)
    requires a.channels > 0 && a.frames > 0 && a.blocks > 0 && tid !in r.calls && a.id !in r.reg.initializing
    ensures var m := HasDevice(r, tid, a);
            m.(calls := m.calls - {tid}, leaving := m.leaving + 1,
               reg := m.reg.(active := m.reg.active - 1, devices := m.reg.devices[a.id := |r.devs|],
                             initializing := m.reg.initializing - {a.id})) == Registered(r, a)
  {
    var m := HasDevice(r, tid, a);
    assert m.calls - {tid} == r.calls;
    assert m.reg.initializing - {a.id} == r.reg.initializing;
  }

  /**
   * An admitted Init whose factory and allocations succeed registers exactly one new device under its
   * identity, with the geometry it asked for and the sink it was given, and changes nothing else.
   */
  lemma InitRegistersDevice(r: Runtime, tid: nat, a: InitArgs)
    requires RuntimeInv(r) && tid > 0 && tid !in r.calls && Admits(r, a)
    ensures IsExecution(r, InitSteps(tid, a), Registered(r, a))
  {
    hide IsExecution, CanStep, Advance, RuntimeInv, FitsLimits, Asked, ReserveSteps, BuildSteps, PublishSteps,
      InitSteps, Registered, R.Inv, Admits, IsFormat;
    AdmittedFormat(r, a);
    InitBuildsDevice(r, tid, a);
    FreshInit(r, a);
    InitPublishes(HasDevice(r, tid, a), tid, a, |r.devs|);
    InitLeavesOnlyDevice(r, tid, a);
    Join(r, ReserveSteps(tid, a) + BuildSteps(tid), HasDevice(r, tid, a), PublishSteps(tid), Registered(r, a));
    InitStepsAre(tid, a);
  }

  lemma FreshInit(r: Runtime, a: InitArgs)
    requires RuntimeInv(r) && Admits(r, a)
    ensures a.id !in r.reg.initializing && !r.reg.started
    ensures R.Inv(r.reg.(active := r.reg.active + 1, initializing := r.reg.initializing + {a.id}))
  {
    hide PhasesAgree, ReservationsAgree, DevicesAgree, ThreadsAgree, SinksAgree, ValidInit, FitsLimits;
    R.ReserveKeeps(r.reg, a.id);
  }

  // ---------------------------------------------------------------- device runs in the runtime

  function Lifted(dev: nat, steps: seq<Step>): seq<RuntimeStep> {
    seq(|steps|, k requires 0 <= k < |steps| => InDevice(dev, steps[k]))
  }

  function With(r: Runtime, dev: nat, d: Device): Runtime
    requires dev < |r.devs|
  {
    r.(devs := r.devs[dev := d])
  }

  /** A run of one device is an execution of the runtime that touches nothing else. */
  lemma {:induction false} LiftRun(r: Runtime, dev: nat, steps: seq<Step>, d: Device)
    requires dev < |r.devs| && IsRun(r.devs[dev], steps, d)
    requires forall k :: 0 <= k < |steps| ==> Internal(steps[k])
    ensures IsExecution(r, Lifted(dev, steps), With(r, dev, d))
    decreases |steps|
  {
    hide Enabled, Apply, ValidInit;
    if steps == [] {
      assert r.devs[dev := d] == r.devs;
    } else {
      var step, all := InDevice(dev, steps[0]), Lifted(dev, steps);
      assert Internal(steps[0]);
      var m := Advance(r, step);
      assert m == With(r, dev, Apply(r.devs[dev], steps[0])) && CanStep(r, step);
      hide CanStep, Advance, Internal;
      assert forall k :: 0 <= k < |steps[1..]| ==> steps[1..][k] == steps[k + 1];
      LiftRun(m, dev, steps[1..], d);
      assert all[0] == step && all[1..] == Lifted(dev, steps[1..]);
      assert m.devs[dev := d] == r.devs[dev := d];
    }
  }

  // ---------------------------------------------------------------- Write

  /** A write reaches a device exactly when it names a registered one and carries data; it leaves at once otherwise. */
  lemma WriteLookupIsExact(r: Runtime, tid: nat)
    requires CanStep(r, FindForWrite(tid))
    ensures var id, size, n := r.calls[tid].id, r.calls[tid].size, Advance(r, FindForWrite(tid));
            if id != 0 && size != 0 && !r.reg.started && id in r.reg.devices
            then var dev := r.reg.devices[id];
                 && dev < |r.devs|
                 && n == With(r, dev, r.devs[dev].(waiting := r.devs[dev].waiting[tid := size]))
                         .(calls := r.calls[tid := InWrite(dev)])
            else n == r.(calls := r.calls[tid := Exiting])
  {
    hide ValidInit;
  }

  /** A close takes the registered device away, and leaves at once if there is none. */
  lemma CloseLookupIsExact(r: Runtime, tid: nat)
    requires CanStep(r, FindForClose(tid))
    ensures var id, n := r.calls[tid].id, Advance(r, FindForClose(tid));
            n == if id in r.reg.devices
                 then r.(calls := r.calls[tid := MustClose(r.reg.devices[id])],
                         reg := r.reg.(devices := r.reg.devices - {id}))
                 else r.(calls := r.calls[tid := Exiting])
  {
    hide ValidInit;
  }

  /** A close that has a device marks it closing and is the one to notify its writers. */
  lemma CloseStartIsExact(r: Runtime, tid: nat)
    requires CanStep(r, StartClose(tid))
    ensures var dev := r.calls[tid].dev;
            && dev < |r.devs|
            && var d := r.devs[dev];
               Advance(r, StartClose(tid)) ==
               With(r, dev, d.(pool := d.pool.(closing := true), announcing := d.announcing + {tid}))
               .(calls := r.calls[tid := InClose(dev)])
  {
    hide ValidInit;
  }

  lemma ClosedDevice(d: Device)
    requires Inv(d) && d.holder.Closer? && d.holder.close.Closed?
    ensures d.pool.closing && !d.pool.sinkAlive && d.sinkShut && d.held == {} && AllReturned(d.pool)
  {
    assert d.held == {} by {
      hide SlotsAgree, Accounted, CountersBalance, NoLostWakeup;
    }
    D.NothingPending(d);
    hide SlotsAgree, Accounted, CountersBalance, NoLostWakeup;
  }

  lemma CloseIsDone(r: Runtime, tid: nat)
    requires CanStep(r, FinishClose(tid))
    ensures tid in r.calls && r.calls[tid].InClose? && r.calls[tid].dev < |r.devs|
    ensures var d := r.devs[r.calls[tid].dev]; d.holder.Closer? && d.holder.close.Closed?
  {
    hide ValidInit;
  }

  /** When a close returns, the device's sink has been shut down and dropped, with every buffer back. */
  lemma ClosedMeansShut(r: Runtime, tid: nat)
    requires DevicesAgree(r) && CanStep(r, FinishClose(tid))
    ensures tid in r.calls && r.calls[tid].InClose? && r.calls[tid].dev < |r.devs|
    ensures var d := r.devs[r.calls[tid].dev];
            && d.pool.closing && !d.pool.sinkAlive && d.sinkShut && d.held == {}
            && d.pool.pendingBuffers == 0 && d.pool.pendingBytes == 0
  {
    hide CanStep, Inv;
    CloseIsDone(r, tid);
    ClosedDevice(r.devs[r.calls[tid].dev]);
  }

  /** The device with `size` more bytes in slot `i`, lent to the sink and counted. */
  function Submitted(d: Device, i: nat, size: nat): Device
    requires i < |d.pool.slots|
  {
    d.(pool := d.pool.(slots := d.pool.slots[i := Slot(Pending, size)],
                       pendingBuffers := d.pool.pendingBuffers + 1, pendingBytes := d.pool.pendingBytes + size),
       held := d.held + {i},
       counters := d.counters.(pending := d.counters.pending.Add(size), submitted := d.counters.submitted.Add(size)))
  }

  function InsideWrite(tid: nat): seq<Step> {
    [LockWrite(tid), Enter, PublishCopy, CountPending, SinkAccepts, CountSubmitted]
  }

  /** A whole write in which the sink accepts. */
  function WriteSteps(tid: nat, id: nat, size: nat, dev: nat): seq<RuntimeStep> {
    [EnterWrite(tid, id, size), FindForWrite(tid)] + Lifted(dev, InsideWrite(tid)) + [FinishWrite(tid), Exit(tid)]
  }

  lemma WriteInside(d: Device, tid: nat, size: nat, i: nat)
    requires Inv(d) && d.holder.Nobody? && tid !in d.waiting && !d.pool.closing && d.pool.sinkAlive
    requires W.FirstFree(d.pool, i) && size % d.frameBytes == 0 && size <= d.blockBytes
    ensures IsRun(d.(waiting := d.waiting[tid := size]), InsideWrite(tid),
                  Submitted(d, i, size).(holder := Writer(tid, Returning(true))))
  {
    hide Inv, W.FirstFree;
    W.FirstIsInPool(d.pool, i);
    W.AcceptedWrite(d, tid, size, i);
    var all := [Arrive(tid, size), LockWrite(tid), Enter, PublishCopy, CountPending, SinkAccepts, CountSubmitted];
    assert all[0] == Arrive(tid, size) && all[1..] == InsideWrite(tid);
    assert Apply(d, Arrive(tid, size)) == d.(waiting := d.waiting[tid := size]);
    hide Enabled, Apply, InsideWrite, Submitted;
  }

  /** The registered device, as a write by a thread that is nowhere in the runtime finds it. */
  lemma DeviceIsReady(r: Runtime, tid: nat, id: nat)
    requires DevicesAgree(r) && ThreadsAgree(r) && tid !in r.calls && id in r.reg.devices
    ensures var dev := r.reg.devices[id];
            && dev < |r.devs| && Inv(r.devs[dev]) && !WritesIn(r.devs[dev], tid)
            && (!r.devs[dev].pool.closing ==> r.devs[dev].pool.sinkAlive)
  {
    var dev := r.reg.devices[id];
    assert dev < |r.devs| && Inv(r.devs[dev]);
    assert !CallWrites(r, tid, dev);
    hide SlotsAgree, Accounted, NoLostWakeup, CountersBalance, ThreadsDistinct, Responsible;
  }

  /** The call once it waits for the device. */
  function AtDevice(r: Runtime, tid: nat, size: nat, dev: nat): Runtime
    requires dev < |r.devs|
  {
    With(r, dev, r.devs[dev].(waiting := r.devs[dev].waiting[tid := size]))
    .(calls := r.calls[tid := InWrite(dev)], reg := r.reg.(active := r.reg.active + 1))
  }

  lemma EnterWriteIs(r: Runtime, tid: nat, id: nat, size: nat)
    requires tid > 0 && tid !in r.calls && !r.reg.started
    ensures CanStep(r, EnterWrite(tid, id, size))
    ensures Advance(r, EnterWrite(tid, id, size)) ==
            r.(reg := r.reg.(active := r.reg.active + 1), calls := r.calls[tid := WriteEntered(id, size)])
  {
    hide ValidInit;
  }

  lemma LookupIs(r: Runtime, tid: nat, id: nat, size: nat, dev: nat)
    requires tid in r.calls && r.calls[tid] == WriteEntered(id, size) && !r.reg.started && id != 0 && size > 0
    requires id in r.reg.devices && r.reg.devices[id] == dev < |r.devs| && !WritesIn(r.devs[dev], tid)
    ensures CanStep(r, FindForWrite(tid))
    ensures Advance(r, FindForWrite(tid)) ==
            With(r, dev, r.devs[dev].(waiting := r.devs[dev].waiting[tid := size]))
            .(calls := r.calls[tid := InWrite(dev)])
  {
    assert CanStep(r, FindForWrite(tid)) by {
      hide ValidInit;
    }
    hide CanStep, Advance;
    WriteLookupIsExact(r, tid);
  }

  lemma WriteArrives(r: Runtime, tid: nat, id: nat, size: nat, dev: nat)
    requires tid > 0 && tid !in r.calls && !r.reg.started && id != 0 && size > 0
    requires id in r.reg.devices && r.reg.devices[id] == dev < |r.devs| && !WritesIn(r.devs[dev], tid)
    ensures IsExecution(r, [EnterWrite(tid, id, size), FindForWrite(tid)], AtDevice(r, tid, size, dev))
  {
    hide IsExecution, CanStep, Advance;
    EnterWriteIs(r, tid, id, size);
    var m := Advance(r, EnterWrite(tid, id, size));
    LookupIs(m, tid, id, size, dev);
    assert r.calls[tid := WriteEntered(id, size)][tid := InWrite(dev)] == r.calls[tid := InWrite(dev)];
    Pair(r, EnterWrite(tid, id, size), m, FindForWrite(tid), Advance(m, FindForWrite(tid)));
  }

  /** The call inside the device, which it has brought to `d`. */
  function Inside(r: Runtime, tid: nat, dev: nat, d: Device): Runtime
    requires dev < |r.devs|
  {
    With(r, dev, d).(calls := r.calls[tid := InWrite(dev)], reg := r.reg.(active := r.reg.active + 1))
  }

  lemma WriteRuns(r: Runtime, tid: nat, size: nat, dev: nat, i: nat)
    requires dev < |r.devs| && Inv(r.devs[dev]) && r.devs[dev].holder.Nobody? && tid !in r.devs[dev].waiting
    requires !r.devs[dev].pool.closing && r.devs[dev].pool.sinkAlive && W.FirstFree(r.devs[dev].pool, i)
    requires size % r.devs[dev].frameBytes == 0 && size <= r.devs[dev].blockBytes
    ensures IsExecution(AtDevice(r, tid, size, dev), Lifted(dev, InsideWrite(tid)),
                        Inside(r, tid, dev, Submitted(r.devs[dev], i, size).(holder := Writer(tid, Returning(true)))))
  {
    hide IsExecution, Inv, IsRun, Lifted, InsideWrite, Submitted;
    var busy := Submitted(r.devs[dev], i, size).(holder := Writer(tid, Returning(true)));
    WriteInside(r.devs[dev], tid, size, i);
    InsideIsInternal(tid);
    LiftRun(AtDevice(r, tid, size, dev), dev, InsideWrite(tid), busy);
    assert AtDevice(r, tid, size, dev).devs[dev := busy] == r.devs[dev := busy];
  }

  lemma FinishWriteIs(r: Runtime, tid: nat, dev: nat, ok: bool)
    requires tid in r.calls && r.calls[tid] == InWrite(dev) && dev < |r.devs|
    requires r.devs[dev].holder == Writer(tid, Returning(ok))
    ensures CanStep(r, FinishWrite(tid))
    ensures Advance(r, FinishWrite(tid)) ==
            With(r, dev, r.devs[dev].(holder := Nobody)).(calls := r.calls[tid := Exiting])
  {
    hide ValidInit;
  }

  lemma WriteReturns(r: Runtime, tid: nat, dev: nat, d: Device)
    requires dev < |r.devs| && d.holder.Nobody? && tid !in r.calls
    ensures IsExecution(Inside(r, tid, dev, d.(holder := Writer(tid, Returning(true)))),
                        [FinishWrite(tid), Exit(tid)], With(r, dev, d).(leaving := r.leaving + 1))
  {
    hide IsExecution, CanStep, Advance;
    var busy := d.(holder := Writer(tid, Returning(true)));
    var m := Inside(r, tid, dev, busy);
    FinishWriteIs(m, tid, dev, true);
    assert busy.(holder := Nobody) == d;
    var n := Advance(m, FinishWrite(tid));
    assert n.devs == r.devs[dev := d];
    ExitIs(n, tid);
    assert r.calls[tid := InWrite(dev)][tid := Exiting] - {tid} == r.calls;
    Pair(m, FinishWrite(tid), n, Exit(tid), Advance(n, Exit(tid)));
  }

  /**
   * A write of whole frames, at most a block, to a registered device that is open, not busy and has a
   * Free slot, with a sink that accepts: the call gets through the runtime and back, and what it leaves
   * behind is that buffer in the first Free slot, lent to the sink and counted once, and nothing else.
   */
  lemma WriteIsSubmitted(r: Runtime, tid: nat, id: nat, size: nat, dev: nat, i: nat)
    requires RuntimeInv(r) && tid > 0 && tid !in r.calls && !r.reg.started && id != 0 && size > 0
    requires id in r.reg.devices && r.reg.devices[id] == dev < |r.devs|
    requires r.devs[dev].holder.Nobody? && !r.devs[dev].pool.closing && W.FirstFree(r.devs[dev].pool, i)
    requires size % r.devs[dev].frameBytes == 0 && size <= r.devs[dev].blockBytes
    ensures IsExecution(r, WriteSteps(tid, id, size, dev),
                        With(r, dev, Submitted(r.devs[dev], i, size)).(leaving := r.leaving + 1))
  {
    assert DevicesAgree(r) && ThreadsAgree(r);
    hide RuntimeInv, DevicesAgree, ThreadsAgree, IsExecution, Inv, Lifted, InsideWrite, W.FirstFree, AtDevice, Inside,
      With, Apply, Enabled, ValidInit;
    DeviceIsReady(r, tid, id);
    W.FirstIsInPool(r.devs[dev].pool, i);
    SubmittedIsIdle(r.devs[dev], i, size);
    hide Submitted;
    WriteArrives(r, tid, id, size, dev);
    WriteRuns(r, tid, size, dev, i);
    WriteReturns(r, tid, dev, Submitted(r.devs[dev], i, size));
    var sent := Submitted(r.devs[dev], i, size);
    var m := Inside(r, tid, dev, sent.(holder := Writer(tid, Returning(true))));
    Join(r, [EnterWrite(tid, id, size), FindForWrite(tid)], AtDevice(r, tid, size, dev),
         Lifted(dev, InsideWrite(tid)), m);
    Join(r, [EnterWrite(tid, id, size), FindForWrite(tid)] + Lifted(dev, InsideWrite(tid)), m,
         [FinishWrite(tid), Exit(tid)], With(r, dev, sent).(leaving := r.leaving + 1));
  }

  lemma SubmittedIsIdle(d: Device, i: nat, size: nat)
    requires i < |d.pool.slots| && d.holder.Nobody?
    ensures Submitted(d, i, size).holder.Nobody?
  {
  }

  lemma InsideIsInternal(tid: nat)
    ensures forall k :: 0 <= k < |InsideWrite(tid)| ==> Internal(InsideWrite(tid)[k])
  {
  }
}
