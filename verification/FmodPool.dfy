/**
 * The buffer pool of one FMOD output device: the state under the device mutex, and each region
 * that runs under that mutex as a function of it. `DeviceState` does the same in place.
 */
module FmodPool {

  datatype SlotState = Free | Reserved | Pending
  datatype Slot = Slot(state: SlotState, size: nat)

  /** A number of buffers and their bytes. */
  datatype Tally = Tally(buffers: int, bytes: int) {
    function Add(size: nat): Tally { Tally(buffers + 1, bytes + size) }
    function Drop(size: nat): Tally { Tally(buffers - 1, bytes - size) }
  }

  datatype Pool = Pool(slots: seq<Slot>, pendingBuffers: nat, pendingBytes: nat, closing: bool, sinkAlive: bool)

  function NewPool(blocks: nat): Pool {
    Pool(seq(blocks, i => Slot(Free, 0)), 0, 0, false, true)
  }

  // ---------------------------------------------------------------- counting

  /** The number of Pending slots, and the sum of their sizes. */
  function PendingTally(slots: seq<Slot>): (t: Tally)
    ensures 0 <= t.buffers <= |slots| && 0 <= t.bytes
  {
    if |slots| == 0 then Tally(0, 0)
    else if slots[0].state == Pending then PendingTally(slots[1..]).Add(slots[0].size)
    else PendingTally(slots[1..])
  }

  lemma {:induction false} PendingUpdate(slots: seq<Slot>, i: nat, s: Slot)
    requires i < |slots|
    ensures slots[i].state != Pending && s.state == Pending ==>
              PendingTally(slots[i := s]) == PendingTally(slots).Add(s.size)
    ensures slots[i].state == Pending && s.state != Pending ==>
              PendingTally(slots[i := s]) == PendingTally(slots).Drop(slots[i].size)
    ensures slots[i].state != Pending && s.state != Pending ==> PendingTally(slots[i := s]) == PendingTally(slots)
  {
    if i > 0 {
      PendingUpdate(slots[1..], i - 1, s);
      assert slots[i := s][1..] == slots[1..][i - 1 := s];
    } else {
      assert slots[i := s][1..] == slots[1..];
    }
  }

  lemma {:induction false} PendingFull(slots: seq<Slot>)
    ensures PendingTally(slots).buffers == |slots| <==> forall i :: 0 <= i < |slots| ==> slots[i].state == Pending
  {
    if |slots| > 0 {
      PendingFull(slots[1..]);
      assert forall i :: 0 < i < |slots| ==> slots[i] == slots[1..][i - 1];
      if forall i :: 0 <= i < |slots| ==> slots[i].state == Pending {
        assert slots[0].state == Pending;
        assert forall i :: 0 <= i < |slots[1..]| ==> slots[1..][i] == slots[i + 1];
      }
    }
  }

  lemma {:induction false} PendingNone(slots: seq<Slot>)
    requires forall i :: 0 <= i < |slots| ==> slots[i].state != Pending
    ensures PendingTally(slots) == Tally(0, 0)
  {
    if |slots| > 0 {
      PendingNone(slots[1..]);
    }
  }

  /** The stored counts are the real ones. */
  ghost predicate Accounted(p: Pool) {
    Tally(p.pendingBuffers, p.pendingBytes) == PendingTally(p.slots)
  }

  // ---------------------------------------------------------------- regions

  /** The first Free slot, or the number of slots when there is none. */
  function FindFreeSlot(slots: seq<Slot>): (i: nat)
    ensures i <= |slots|
    ensures i < |slots| ==> slots[i].state == Free
    ensures forall j :: 0 <= j < i ==> slots[j].state != Free
  {
    if |slots| == 0 || slots[0].state == Free then 0 else 1 + FindFreeSlot(slots[1..])
  }

  predicate Shut(p: Pool) {
    p.closing || !p.sinkAlive
  }

  /** What the capacity wait waits for. */
  predicate CanProceed(p: Pool) {
    Shut(p) || p.pendingBuffers < |p.slots|
  }

  datatype Gate = Blocked | Denied | Exhausted | Granted(slot: nat)

  function GateAnswer(p: Pool): Gate {
    if !CanProceed(p) then Blocked
    else if Shut(p) then Denied
    else if FindFreeSlot(p.slots) == |p.slots| then Exhausted
    else Granted(FindFreeSlot(p.slots))
  }

  function Reserve(p: Pool, size: nat): Pool {
    match GateAnswer(p)
    case Granted(slot) => if slot < |p.slots| then p.(slots := p.slots[slot := Slot(Reserved, size)]) else p
    case _ => p
  }

  function Publish(p: Pool, slot: nat, size: nat): Pool
    requires slot < |p.slots|
  {
    if Shut(p) then p.(slots := p.slots[slot := Slot(Free, 0)])
    else p.(slots := p.slots[slot := Slot(Pending, size)],
            pendingBuffers := p.pendingBuffers + 1, pendingBytes := p.pendingBytes + size)
  }

  /** Subtraction of sizes: below zero it wraps around. */
  function Subtract(x: nat, k: nat): nat {
    if k <= x then x - k else (x - k) % 0x1_0000_0000_0000_0000
  }

  predicate IsPending(p: Pool, slot: nat) {
    slot < |p.slots| && p.slots[slot].state == Pending
  }

  /** The rollback after a refused Enqueue. */
  function Withdraw(p: Pool, slot: nat, size: nat): Pool {
    if !IsPending(p, slot) then p
    else p.(slots := p.slots[slot := Slot(Free, 0)],
            pendingBuffers := Subtract(p.pendingBuffers, 1), pendingBytes := Subtract(p.pendingBytes, size))
  }

  /** A buffer that came back: its size, and whether the device was closing. */
  datatype Released = Released(size: nat, discarded: bool)

  function Receipt(p: Pool, slot: nat): Released
    requires slot < |p.slots|
  {
    Released(p.slots[slot].size, p.closing)
  }

  /** The release callback; it subtracts only as far as the stored values allow. */
  function TakeBack(p: Pool, slot: nat): Pool
    requires slot < |p.slots|
  {
    if p.slots[slot].state != Pending then p
    else
      var size := p.slots[slot].size;
      p.(slots := p.slots[slot := Slot(Free, 0)],
         pendingBuffers := if p.pendingBuffers > 0 then p.pendingBuffers - 1 else 0,
         pendingBytes := if p.pendingBytes >= size then p.pendingBytes - size else 0)
  }

  predicate AllReturned(p: Pool) {
    p.pendingBuffers == 0 && p.pendingBytes == 0
  }

  // ------------------------------------------------------- what regions keep

  /** When the gate opens and no slot is Reserved, there is a Free slot behind it. */
  lemma GateHasFreeSlot(p: Pool)
    requires Accounted(p) && CanProceed(p) && !Shut(p)
    requires forall i :: 0 <= i < |p.slots| ==> p.slots[i].state != Reserved
    ensures GateAnswer(p).Granted?
  {
    PendingFull(p.slots);
  }

  lemma ReserveKeeps(p: Pool, size: nat)
    requires Accounted(p)
    ensures Accounted(Reserve(p, size))
  {
    var slot := FindFreeSlot(p.slots);
    if slot < |p.slots| {
      PendingUpdate(p.slots, slot, Slot(Reserved, size));
    }
  }

  lemma PublishKeeps(p: Pool, slot: nat, size: nat)
    requires Accounted(p) && slot < |p.slots| && p.slots[slot].state == Reserved
    ensures Accounted(Publish(p, slot, size))
  {
    PendingUpdate(p.slots, slot, Slot(Free, 0));
    PendingUpdate(p.slots, slot, Slot(Pending, size));
  }

  /** No subtraction is ever clipped or wrapped: both ways of freeing a slot are exact and agree. */
  lemma FreeingIsExact(p: Pool, slot: nat)
    requires Accounted(p) && slot < |p.slots| && p.slots[slot].state == Pending
    ensures Accounted(TakeBack(p, slot))
    ensures Tally(TakeBack(p, slot).pendingBuffers, TakeBack(p, slot).pendingBytes) ==
            Tally(p.pendingBuffers, p.pendingBytes).Drop(p.slots[slot].size)
    ensures Withdraw(p, slot, p.slots[slot].size) == TakeBack(p, slot)
  {
    PendingUpdate(p.slots, slot, Slot(Free, 0));
    assert PendingTally(p.slots[slot := Slot(Free, 0)]).buffers >= 0;
  }

  /** A refused buffer leaves the pool as if its slot had never been reserved. */
  lemma WithdrawUndoesPublish(p: Pool, size: nat)
    requires Accounted(p) && GateAnswer(p).Granted?
    ensures var slot := GateAnswer(p).slot;
            Withdraw(Publish(Reserve(p, size), slot, size), slot, size) == p.(slots := p.slots[slot := Slot(Free, 0)])
  {
  }

  // ---------------------------------------------------------------- in place

  class DeviceState {
    const slots: array<Slot>
    var pendingBuffers: nat
    var pendingBytes: nat
    var closing: bool
    var sinkAlive: bool

    ghost function View(): Pool
      reads this, slots
    {
      Pool(slots[..], pendingBuffers, pendingBytes, closing, sinkAlive)
    }

    constructor (blocks: nat)
      ensures View() == NewPool(blocks) && Accounted(View()) && fresh(slots)
    {
      slots := new Slot[blocks](i => Slot(Free, 0));
      pendingBuffers, pendingBytes, closing, sinkAlive := 0, 0, false, true;
      new;
      assert slots[..] == NewPool(blocks).slots;
      PendingNone(slots[..]);
    }

    method FindFree() returns (slot: nat)
      ensures slot == FindFreeSlot(slots[..])
    {
      slot := 0;
      while slot < slots.Length
        invariant slot <= slots.Length
        invariant forall j :: 0 <= j < slot ==> slots[j].state != Free
      {
        if slots[slot].state == Free {
          break;
        }
        slot := slot + 1;
      }
      assert FindFreeSlot(slots[..]) < |slots[..]| ==> slots[..][FindFreeSlot(slots[..])].state == Free;
      assert slot < slots.Length ==> slots[..][slot].state == Free;
    }

    method PassGate(size: nat) returns (answer: Gate)
      modifies slots
      ensures answer == GateAnswer(old(View())) && View() == Reserve(old(View()), size)
      ensures old(Accounted(View())) ==> Accounted(View())
    {
      ghost var p := View();
      if !(closing || !sinkAlive || pendingBuffers < slots.Length) {
        answer := Blocked;
      } else if closing || !sinkAlive {
        answer := Denied;
      } else {
        var slot := FindFree();
        if slot == slots.Length {
          answer := Exhausted;
        } else {
          slots[slot] := Slot(Reserved, size);
          answer := Granted(slot);
        }
      }
      if Accounted(p) {
        ReserveKeeps(p, size);
      }
    }

    method PublishSlot(slot: nat, size: nat) returns (ok: bool)
      requires slot < slots.Length
      modifies this`pendingBuffers, this`pendingBytes, slots
      ensures ok == !Shut(old(View())) && View() == Publish(old(View()), slot, size)
      ensures old(Accounted(View())) && old(slots[slot]).state == Reserved ==>
                Accounted(View()) &&
                PendingTally(slots[..]) ==
                if ok then PendingTally(old(slots[..])).Add(size) else PendingTally(old(slots[..]))
    {
      ghost var p := View();
      if Accounted(p) && slots[slot].state == Reserved {
        PublishKeeps(p, slot, size);
      }
      if closing || !sinkAlive {
        slots[slot] := Slot(Free, 0);
        return false;
      }
      slots[slot] := Slot(Pending, size);
      pendingBuffers := pendingBuffers + 1;
      pendingBytes := pendingBytes + size;
      ok := true;
    }

    method WithdrawSlot(slot: nat, size: nat) returns (rolledBack: bool)
      requires slot < slots.Length
      modifies this`pendingBuffers, this`pendingBytes, slots
      ensures rolledBack == IsPending(old(View()), slot) && View() == Withdraw(old(View()), slot, size)
      ensures old(Accounted(View())) && (rolledBack ==> old(slots[slot]).size == size) ==>
                Accounted(View()) &&
                PendingTally(slots[..]) ==
                if rolledBack then PendingTally(old(slots[..])).Drop(size) else PendingTally(old(slots[..]))
    {
      ghost var p := View();
      if Accounted(p) && slots[slot] == Slot(Pending, size) {
        FreeingIsExact(p, slot);
      }
      rolledBack := false;
      if slots[slot].state == Pending {
        slots[slot] := Slot(Free, 0);
        pendingBuffers := Subtract(pendingBuffers, 1);
        pendingBytes := Subtract(pendingBytes, size);
        rolledBack := true;
      }
    }

    method ReleaseOwnedBuffer(slot: nat) returns (taken: bool, r: Released)
      requires slot < slots.Length
      modifies this`pendingBuffers, this`pendingBytes, slots
      ensures taken == IsPending(old(View()), slot) && (taken ==> r == Receipt(old(View()), slot))
      ensures View() == TakeBack(old(View()), slot)
      ensures old(Accounted(View())) ==> Accounted(View())
    {
      ghost var p := View();
      r := Released(slots[slot].size, closing);
      taken := slots[slot].state == Pending;
      if !taken {
        return;
      }
      var size := slots[slot].size;
      slots[slot] := Slot(Free, 0);
      if pendingBuffers > 0 {
        pendingBuffers := pendingBuffers - 1;
      }
      if pendingBytes >= size {
        pendingBytes := pendingBytes - size;
      } else {
        pendingBytes := 0;
      }
      if Accounted(p) {
        FreeingIsExact(p, slot);
      }
    }

    method BeginClose()
      modifies this`closing
      ensures View() == old(View()).(closing := true)
    {
      closing := true;
    }

    /** Reads the counts after the sink's Shutdown, then drops the sink. */
    method FinishClose() returns (clean: bool)
      modifies this`sinkAlive
      ensures clean == AllReturned(old(View())) && View() == old(View()).(sinkAlive := false)
    {
      clean := pendingBuffers == 0 && pendingBytes == 0;
      sinkAlive := false;
    }
  }
}
