/**
 * The device registry of the FMOD runtime: the state under the runtime mutex, each region under
 * that mutex as a function of it, and the same regions in place.
 */
module FmodRegistry {

  /** Identities and devices are numbers; identity 0 is the null object. */
  datatype Registry = Registry(
    maxDevices: nat, devices: map<nat, nat>, initializing: set<nat>, started: bool, complete: bool, active: nat)

  datatype Reservation = Reserved | ShutDown | AlreadyInitialized | LimitReached
  datatype Publication = Published | ShuttingDown | Duplicate | NoRoom

  function NewRegistry(maxDevices: nat): Registry {
    Registry(maxDevices, map[], {}, false, false, 0)
  }

  function ReserveAnswer(r: Registry, id: nat): Reservation {
    if r.started then ShutDown
    else if id in r.devices || id in r.initializing then AlreadyInitialized
    else if |r.devices| + |r.initializing| >= r.maxDevices then LimitReached
    else Reserved
  }

  function Reserve(r: Registry, id: nat): Registry {
    if ReserveAnswer(r, id).Reserved? then r.(initializing := r.initializing + {id}) else r
  }

  function Cancel(r: Registry, id: nat): Registry {
    r.(initializing := r.initializing - {id})
  }

  function PublishAnswer(r: Registry, id: nat): Publication {
    if r.started then ShuttingDown
    else if id in r.devices then Duplicate
    else if |r.devices| >= r.maxDevices then NoRoom
    else Published
  }

  function Publish(r: Registry, id: nat, device: nat): Registry {
    var r' := Cancel(r, id);
    if PublishAnswer(r', id).Published? then r'.(devices := r.devices[id := device]) else r'
  }

  function Take(r: Registry, id: nat): Registry {
    r.(devices := r.devices - {id})
  }

  function Stop(r: Registry): Registry {
    r.(started := true, devices := map[])
  }

  // ---------------------------------------------------------------- invariant

  /** No identity is both published and initializing, the limit holds, and a stopped registry is empty. */
  ghost predicate Inv(r: Registry) {
    && r.devices.Keys !! r.initializing
    && |r.devices| + |r.initializing| <= r.maxDevices
    && (r.started ==> r.devices == map[])
    && (r.complete ==> r.started)
  }

  lemma ReserveKeeps(r: Registry, id: nat)
    requires Inv(r)
    ensures Inv(Reserve(r, id))
  {
  }

  lemma CancelKeeps(r: Registry, id: nat)
    requires Inv(r)
    ensures Inv(Cancel(r, id))
    ensures id in r.initializing ==> |Cancel(r, id).initializing| == |r.initializing| - 1
  {
    if id !in r.initializing {
      assert r.initializing - {id} == r.initializing;
    }
  }

  /** A reserved identity is published unless a shutdown has begun: the two other answers cannot occur. */
  lemma ReservedIsPublishable(r: Registry, id: nat)
    requires Inv(r) && id in r.initializing
    ensures PublishAnswer(Cancel(r, id), id) == if r.started then ShuttingDown else Published
  {
    CancelKeeps(r, id);
  }

  lemma PublishKeeps(r: Registry, id: nat, device: nat)
    requires Inv(r) && id in r.initializing
    ensures Inv(Publish(r, id, device))
  {
    CancelKeeps(r, id);
    assert r.devices[id := device].Keys == r.devices.Keys + {id};
    assert |r.devices[id := device].Keys| == |r.devices.Keys| + 1;
  }

  lemma TakeKeeps(r: Registry, id: nat)
    requires Inv(r)
    ensures Inv(Take(r, id))
  {
    var rest := r.devices - {id};
    assert rest.Keys == r.devices.Keys - {id};
    assert |rest.Keys| <= |r.devices.Keys|;
  }

  // ---------------------------------------------------------------- in place

  class State {
    const maxDevices: nat
    var devices: map<nat, nat>
    var initializing: set<nat>
    var started: bool
    var complete: bool
    var active: nat

    ghost function View(): Registry
      reads this
    {
      Registry(maxDevices, devices, initializing, started, complete, active)
    }

    constructor (limit: nat)
      ensures View() == NewRegistry(limit) && Inv(View())
    {
      maxDevices := limit;
      devices, initializing, started, complete, active := map[], {}, false, false, 0;
    }

    /** The gate every API call passes; a false answer means the call is turned away. */
    method Enter() returns (ok: bool)
      modifies this`active
      ensures ok == !old(View()).started
      ensures View() == if ok then old(View()).(active := old(active) + 1) else old(View())
    {
      ok := !started;
      if ok {
        active := active + 1;
      }
    }

    method Leave()
      requires active > 0
      modifies this`active
      ensures View() == old(View()).(active := old(active) - 1)
    {
      active := active - 1;
    }

    method ReserveIdentity(id: nat) returns (answer: Reservation)
      requires Inv(View())
      modifies this`initializing
      ensures answer == ReserveAnswer(old(View()), id) && View() == Reserve(old(View()), id) && Inv(View())
      ensures answer == ShutDown <==> started
      ensures answer == AlreadyInitialized <==> !started && (id in devices || id in old(initializing))
      ensures answer == Reserved <==> && !started && id !in devices && id !in old(initializing)
                                      && |devices| + |old(initializing)| < maxDevices
      ensures initializing == old(initializing) + if answer == Reserved then {id} else {}
    {
      ReserveKeeps(View(), id);
      if started {
        return ShutDown;
      }
      if id in devices || id in initializing {
        return AlreadyInitialized;
      }
      if |devices| + |initializing| >= maxDevices {
        return LimitReached;
      }
      initializing := initializing + {id};
      answer := Reserved;
    }

    method CancelInitialization(id: nat)
      requires Inv(View())
      modifies this`initializing
      ensures View() == Cancel(old(View()), id) && Inv(View())
    {
      CancelKeeps(View(), id);
      initializing := initializing - {id};
    }

    method PublishDevice(id: nat, device: nat) returns (answer: Publication)
      requires Inv(View()) && id in initializing
      modifies this`initializing, this`devices
      ensures View() == Publish(old(View()), id, device) && Inv(View())
      ensures answer == if started then ShuttingDown else Published
      ensures initializing == old(initializing) - {id}
      ensures devices == if started then old(devices) else old(devices)[id := device]
    {
      ReservedIsPublishable(View(), id);
      PublishKeeps(View(), id, device);
      initializing := initializing - {id};
      if started {
        answer := ShuttingDown;
      } else if id in devices {
        answer := Duplicate;
      } else if |devices| >= maxDevices {
        answer := NoRoom;
      } else {
        devices := devices[id := device];
        answer := Published;
      }
    }

    /** Close removes the device it found, so that only this call will close it. */
    method TakeDevice(id: nat) returns (found: bool, device: nat)
      requires Inv(View())
      modifies this`devices
      ensures found == (id in old(devices)) && (found ==> device == old(devices)[id])
      ensures View() == Take(old(View()), id) && Inv(View()) && devices == old(devices) - {id}
    {
      TakeKeeps(View(), id);
      found, device := id in devices, 0;
      if found {
        device := devices[id];
        devices := devices - {id};
      } else {
        assert devices - {id} == devices;
      }
    }

    /** The first Shutdown takes every device away with the flag; later ones get nothing. */
    method BeginShutdown() returns (first: bool, taken: map<nat, nat>)
      requires Inv(View())
      modifies this`started, this`devices
      ensures first == !old(started) && taken == old(devices) && View() == Stop(old(View())) && Inv(View())
      ensures started && devices == map[]
    {
      first, taken := !started, devices;
      if first {
        started := true;
        devices := map[];
      }
    }
  }
}
