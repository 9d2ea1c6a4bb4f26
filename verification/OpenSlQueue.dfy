/**
 * The OpenSL buffer queue's ticket pool. Every function of `Queue` below is one region that runs
 * under the queue mutex; the class methods carry out the same regions on the pool in place.
 */
module OpenSlQueue {

  /** A ticket lent to the sink with one buffer; `linked` is whether it still points at its queue. */
  datatype Ticket = Ticket(linked: bool, id: nat, generation: nat, inUse: bool)

  const IDLE := Ticket(false, 0, 0, false)

  datatype Queue = Queue(
    tickets: seq<Ticket>, free: seq<nat>, pending: nat,
    nextId: nat, generation: nat,
    submitted: nat, consumed: nat, discarded: nat, consumedBytes: nat,
    callback: int, jobs: seq<int>,
    stopping: bool, complete: bool,
    lost: nat)  // tickets taken back by force in the last step of a shutdown

  datatype Admission = Admitted(slot: nat, id: nat) | Stopped | Full

  // ---------------------------------------------------------------- counting

  function InUse(tickets: seq<Ticket>): (n: nat)
    ensures n <= |tickets|
  {
    if tickets == [] then 0 else (if tickets[0].inUse then 1 else 0) + InUse(tickets[1..])
  }

  lemma {:induction false} InUseUpdate(tickets: seq<Ticket>, i: nat, t: Ticket)
    requires i < |tickets|
    ensures InUse(tickets[i := t]) ==
            InUse(tickets) + (if t.inUse then 1 else 0) - (if tickets[i].inUse then 1 else 0)
  {
    if i > 0 {
      InUseUpdate(tickets[1..], i - 1, t);
      assert tickets[i := t][1..] == tickets[1..][i - 1 := t];
    } else {
      assert tickets[i := t][1..] == tickets[1..];
    }
  }

  lemma {:induction false} InUseNone(tickets: seq<Ticket>)
    ensures InUse(tickets) == 0 <==> forall i :: 0 <= i < |tickets| ==> !tickets[i].inUse
  {
    if tickets != [] {
      InUseNone(tickets[1..]);
      assert forall i :: 0 < i < |tickets| ==> tickets[i] == tickets[1..][i - 1];
      assert tickets[0] == tickets[0];
      if forall i :: 0 <= i < |tickets| ==> !tickets[i].inUse {
        assert forall i :: 0 <= i < |tickets[1..]| ==> tickets[1..][i] == tickets[i + 1];
      }
    }
  }

  /** The free list as it is first filled: highest slot first, so slot 0 is handed out first. */
  function AllFree(n: nat): (r: seq<nat>)
    ensures |r| == n && forall i :: 0 <= i < n ==> r[i] == n - 1 - i
  {
    seq(n, i requires 0 <= i < n => n - 1 - i)
  }

  // ---------------------------------------------------------------- regions

  function Fresh(capacity: nat): Queue {
    Queue(seq(capacity, i => IDLE), AllFree(capacity), 0, 1, 1, 0, 0, 0, 0, 0, [], false, false, 0)
  }

  function Admission'(q: Queue): Admission {
    if q.stopping then Stopped
    else if q.pending >= |q.tickets| || q.free == [] then Full
    else Admitted(q.free[|q.free| - 1], q.nextId)
  }

  function Admit(q: Queue): Queue {
    match Admission'(q)
    case Admitted(slot, id) =>
      if slot < |q.tickets| then
        q.(tickets := q.tickets[slot := Ticket(true, id, q.generation, true)],
           free := q.free[..|q.free| - 1], nextId := q.nextId + 1,
           pending := q.pending + 1, submitted := q.submitted + 1)
      else q
    case _ => q
  }

  function Minus1(n: nat): nat {
    if n > 0 then n - 1 else 0
  }

  /** Gives a ticket back to the free list. */
  function PutBack(q: Queue, slot: nat): Queue
    requires slot < |q.tickets|
  {
    q.(tickets := q.tickets[slot := q.tickets[slot].(linked := false, inUse := false)],
       free := q.free + [slot], pending := Minus1(q.pending))
  }

  /** After the sink refused buffer `id`. */
  function RollBack(q: Queue, slot: nat, id: nat): Queue {
    if slot < |q.tickets| && q.tickets[slot].inUse && q.tickets[slot].id == id
    then PutBack(q, slot).(submitted := Minus1(q.submitted))
    else q
  }

  function Clear(q: Queue): Queue {
    if q.stopping then q else
    q.(generation := q.generation + 1,
       tickets := seq(|q.tickets|, i requires 0 <= i < |q.tickets| => ClearTicket(q.tickets[i])),
       free := AllFree(|q.tickets|),
       discarded := q.discarded + InUse(q.tickets),
       pending := 0)
  }

  function ClearTicket(t: Ticket): Ticket {
    if t.inUse then t.(linked := false, inUse := false) else t
  }

  /** A release callback for `slot`, whenever and however often it arrives. */
  function Release(q: Queue, slot: nat, bytes: nat): Queue {
    if slot >= |q.tickets| || !q.tickets[slot].inUse then q
    else if !q.stopping && q.tickets[slot].generation == q.generation then
      PutBack(q, slot).(consumed := q.consumed + 1, consumedBytes := q.consumedBytes + bytes,
                        jobs := if q.callback != 0 then q.jobs + [q.callback] else q.jobs)
    else
      PutBack(q, slot).(discarded := q.discarded + 1)
  }

  function BeginShutdown(q: Queue): Queue {
    q.(stopping := true, generation := q.generation + 1, callback := 0, jobs := [])
  }

  function FinishShutdown(q: Queue): Queue {
    if q.pending > 0 then
      q.(tickets := seq(|q.tickets|, i requires 0 <= i < |q.tickets| => q.tickets[i].(linked := false, inUse := false)),
         pending := 0, lost := q.lost + q.pending, complete := true)
    else q.(complete := true)
  }

  // ---------------------------------------------------------------- the invariant

  /** The free list holds every ticket not in use, once. */
  ghost predicate FreeListExact(tickets: seq<Ticket>, free: seq<nat>) {
    && (forall i, j :: 0 <= i < j < |free| ==> free[i] != free[j])
    && (forall i :: 0 <= i < |free| ==> free[i] < |tickets| && !tickets[free[i]].inUse)
    && (forall s :: 0 <= s < |tickets| && !tickets[s].inUse ==> s in free)
  }

  ghost predicate Accounted(q: Queue) {
    && FreeListExact(q.tickets, q.free)
    && q.pending == InUse(q.tickets)
    && q.submitted == q.consumed + q.discarded + q.pending
    && forall s :: 0 <= s < |q.tickets| ==> q.tickets[s].linked == q.tickets[s].inUse
  }

  /** After tickets were taken back by force: they are neither free, pending nor counted. */
  ghost predicate Forfeited(q: Queue) {
    && q.lost > 0 && q.stopping
    && q.pending == 0 && (forall s :: 0 <= s < |q.tickets| ==> !q.tickets[s].inUse && !q.tickets[s].linked)
    && q.submitted == q.consumed + q.discarded + q.lost
  }

  ghost predicate Inv(q: Queue) {
    if q.lost == 0 then Accounted(q) else Forfeited(q)
  }

  lemma PutBackExact(q: Queue, slot: nat)
    requires Accounted(q) && slot < |q.tickets| && q.tickets[slot].inUse
    ensures FreeListExact(PutBack(q, slot).tickets, PutBack(q, slot).free)
    ensures PutBack(q, slot).pending == InUse(PutBack(q, slot).tickets) == q.pending - 1
  {
    InUseUpdate(q.tickets, slot, q.tickets[slot].(linked := false, inUse := false));
    var n := PutBack(q, slot);
    assert slot !in q.free;
    forall s | 0 <= s < |n.tickets| && !n.tickets[s].inUse
      ensures s in n.free
    {
      assert s != slot ==> s in q.free;
    }
  }

  /** Handing out the last free ticket keeps the list exact. */
  lemma TakeLastExact(tickets: seq<Ticket>, free: seq<nat>, t: Ticket)
    requires FreeListExact(tickets, free) && free != [] && t.inUse
    ensures free[|free| - 1] < |tickets|
    ensures FreeListExact(tickets[free[|free| - 1] := t], free[..|free| - 1])
    ensures InUse(tickets[free[|free| - 1] := t]) == InUse(tickets) + 1
  {
    var last := |free| - 1;
    var slot, rest := free[last], free[..last];
    var taken := tickets[slot := t];
    InUseUpdate(tickets, slot, t);
    forall s | 0 <= s < |taken| && !taken[s].inUse
      ensures s in rest
    {
      assert s in free;
      var i :| 0 <= i < |free| && free[i] == s;
      assert rest[i] == s;
    }
  }

  /** Both ends of the pool agree on when it is empty. */
  lemma {:induction false} FreeListSize(tickets: seq<Ticket>, free: seq<nat>)
    requires FreeListExact(tickets, free)
    ensures |free| + InUse(tickets) == |tickets|
    decreases |free|
  {
    if free == [] {
      AllInUse(tickets);
    } else {
      var t := Ticket(true, 0, 0, true);
      TakeLastExact(tickets, free, t);
      FreeListSize(tickets[free[|free| - 1] := t], free[..|free| - 1]);
    }
  }

  lemma {:induction false} AllInUse(tickets: seq<Ticket>)
    requires forall s :: 0 <= s < |tickets| ==> tickets[s].inUse
    ensures InUse(tickets) == |tickets|
  {
    if tickets != [] {
      AllInUse(tickets[1..]);
    }
  }

  lemma AdmitKeeps(q: Queue)
    requires Inv(q)
    ensures Inv(Admit(q))
    ensures Admission'(q).Stopped? <==> q.stopping
    ensures Admission'(q).Full? <==> !q.stopping && InUse(q.tickets) == |q.tickets|
    ensures Admission'(q).Admitted? ==>
              var slot := Admission'(q).slot;
              && slot < |q.tickets| && !q.tickets[slot].inUse
              && Admission'(q).id == q.nextId
              && Admit(q).tickets == q.tickets[slot := Ticket(true, q.nextId, q.generation, true)]
              && Admit(q).nextId == q.nextId + 1 && Admit(q).submitted == q.submitted + 1
  {
    if q.lost == 0 {
      FreeListSize(q.tickets, q.free);
      if q.free != [] {
        TakeLastExact(q.tickets, q.free, Ticket(true, q.nextId, q.generation, true));
      }
    }
    hide InUse, FreeListExact;
  }

  lemma ReleaseKeeps(q: Queue, slot: nat, bytes: nat)
    requires Inv(q)
    ensures Inv(Release(q, slot, bytes))
  {
    if q.lost == 0 && slot < |q.tickets| && q.tickets[slot].inUse {
      InUseNone(q.tickets);
      PutBackExact(q, slot);
    }
    hide InUse, FreeListExact;
  }

  lemma RollBackKeeps(q: Queue, slot: nat, id: nat)
    requires Inv(q)
    ensures Inv(RollBack(q, slot, id))
  {
    if q.lost == 0 && slot < |q.tickets| && q.tickets[slot].inUse {
      InUseNone(q.tickets);
      PutBackExact(q, slot);
    }
  }

  /** Rolling back right after an admission leaves the queue as it was, except for the number it used up. */
  lemma RollBackUndoesAdmit(q: Queue)
    requires Inv(q) && Admission'(q).Admitted?
    ensures var slot, id := Admission'(q).slot, Admission'(q).id;
            && slot < |q.tickets|
            && RollBack(Admit(q), slot, id) ==
               q.(nextId := q.nextId + 1, tickets := q.tickets[slot := Ticket(false, id, q.generation, false)])
  {
    AdmitKeeps(q);
    hide Inv;
    var slot, last := Admission'(q).slot, |q.free| - 1;
    var t := Ticket(true, q.nextId, q.generation, true);
    assert q.tickets[slot := t][slot := t.(linked := false, inUse := false)] ==
           q.tickets[slot := t.(linked := false, inUse := false)];
    assert q.free[..last] + [q.free[last]] == q.free;
  }

  lemma ClearKeeps(q: Queue)
    requires Inv(q)
    ensures Inv(Clear(q))
    ensures !q.stopping ==>
              && Clear(q).pending == 0 && Clear(q).discarded == q.discarded + q.pending
              && Clear(q).generation == q.generation + 1
              && forall s :: 0 <= s < |q.tickets| ==> !Clear(q).tickets[s].inUse
  {
    var n := Clear(q);
    if q.lost == 0 && !q.stopping {
      InUseNone(n.tickets);
      forall s | 0 <= s < |n.tickets|
        ensures s in n.free
      {
        assert n.free[|n.tickets| - 1 - s] == s;
      }
    }
  }

  lemma FinishKeeps(q: Queue)
    requires Inv(q) && q.stopping
    ensures Inv(FinishShutdown(q)) && (q.lost == 0 ==> FinishShutdown(q).lost == InUse(q.tickets))
  {
    InUseNone(q.tickets);
  }

  // ------------------------------------------------------------ whole runs

  /** One region, by any thread, with any argument the sink may come up with. */
  datatype Region =
    | AdmitRegion
    | RollBackRegion(slot: nat, id: nat)
    | ClearRegion
    | ReleaseRegion(slot: nat, bytes: nat)
    | RegisterRegion(callback: int)
    | PopJobRegion
    | BeginShutdownRegion
    | FinishShutdownRegion

  function Apply(q: Queue, r: Region): Queue {
    match r
    case AdmitRegion => Admit(q)
    case RollBackRegion(slot, id) => RollBack(q, slot, id)
    case ClearRegion => Clear(q)
    case ReleaseRegion(slot, bytes) => Release(q, slot, bytes)
    case RegisterRegion(callback) => if q.stopping then q else q.(callback := callback)
    case PopJobRegion => if q.stopping then q.(jobs := []) else if q.jobs == [] then q else q.(jobs := q.jobs[1..])
    case BeginShutdownRegion => BeginShutdown(q)
    case FinishShutdownRegion => if q.stopping then FinishShutdown(q) else q
  }

  function Run(q: Queue, regions: seq<Region>): Queue
    decreases |regions|
  {
    if regions == [] then q else Run(Apply(q, regions[0]), regions[1..])
  }

  lemma ApplyKeeps(q: Queue, r: Region)
    requires Inv(q)
    ensures Inv(Apply(q, r)) && Apply(q, r).lost >= q.lost
  {
    match r
    case AdmitRegion => AdmitKeeps(q);
    case RollBackRegion(slot, id) => RollBackKeeps(q, slot, id);
    case ClearRegion => ClearKeeps(q);
    case ReleaseRegion(slot, bytes) => ReleaseKeeps(q, slot, bytes);
    case FinishShutdownRegion => if q.stopping { FinishKeeps(q); }
    case _ =>
  }

  lemma {:induction false} RunKeeps(q: Queue, regions: seq<Region>)
    requires Inv(q)
    ensures Inv(Run(q, regions))
    decreases |regions|
  {
    if regions != [] {
      ApplyKeeps(q, regions[0]);
      RunKeeps(Apply(q, regions[0]), regions[1..]);
    }
  }

  lemma FreshAccounted(capacity: nat)
    ensures Inv(Fresh(capacity))
  {
    var q := Fresh(capacity);
    InUseNone(q.tickets);
    forall s | 0 <= s < capacity
      ensures s in q.free
    {
      assert q.free[capacity - 1 - s] == s;
    }
  }

  /** The guard of the forced reclaim: the last region of a shutdown, with buffers still pending. */
  predicate Reclaims(q: Queue, r: Region) {
    r.FinishShutdownRegion? && q.stopping && q.pending > 0
  }

  /** Some shutdown of the run ended before all buffers were back. */
  ghost predicate AnyReclaim(q: Queue, regions: seq<Region>) {
    exists k :: 0 <= k < |regions| && Reclaims(Run(q, regions[..k]), regions[k])
  }

  lemma AnyReclaimCons(q: Queue, regions: seq<Region>)
    requires regions != []
    ensures AnyReclaim(q, regions) <==> Reclaims(q, regions[0]) || AnyReclaim(Apply(q, regions[0]), regions[1..])
  {
    var q', rest := Apply(q, regions[0]), regions[1..];
    forall k | 0 <= k < |rest|
      ensures Run(q, regions[..k + 1]) == Run(q', rest[..k]) && regions[k + 1] == rest[k]
    {
      assert regions[..k + 1][1..] == rest[..k];
    }
    if AnyReclaim(q, regions) {
      var k :| 0 <= k < |regions| && Reclaims(Run(q, regions[..k]), regions[k]);
      assert k > 0 ==> Reclaims(Run(q', rest[..k - 1]), rest[k - 1]);
    }
    if Reclaims(q, regions[0]) {
      assert Reclaims(Run(q, regions[..0]), regions[0]);
    }
    if k :| 0 <= k < |rest| && Reclaims(Run(q', rest[..k]), rest[k]) {
      assert Reclaims(Run(q, regions[..k + 1]), regions[k + 1]);
    }
  }

  lemma {:induction false} LostIffReclaimed(q: Queue, regions: seq<Region>)
    ensures Run(q, regions).lost > 0 <==> q.lost > 0 || AnyReclaim(q, regions)
    decreases |regions|
  {
    if regions != [] {
      AnyReclaimCons(q, regions);
      hide AnyReclaim;
      LostIffReclaimed(Apply(q, regions[0]), regions[1..]);
    }
  }

  /**
   * From a new queue, whatever regions run in whatever order and however the sink misbehaves, the free
   * list and all counters are exact if and only if no shutdown ended with buffers still pending.
   */
  lemma BooksBalanceUntilForced(capacity: nat, regions: seq<Region>)
    ensures Accounted(Run(Fresh(capacity), regions)) <==> !AnyReclaim(Fresh(capacity), regions)
  {
    FreshAccounted(capacity);
    RunKeeps(Fresh(capacity), regions);
    LostIffReclaimed(Fresh(capacity), regions);
  }

  // ------------------------------------------------------- consumed or discarded

  /** Before a shutdown begins, every ticket in use is of the current generation. */
  ghost predicate GenerationsCurrent(q: Queue) {
    !q.stopping ==>
      forall s :: 0 <= s < |q.tickets| && q.tickets[s].inUse ==> q.tickets[s].generation == q.generation
  }

  predicate ReleasesTicket(q: Queue, r: Region) {
    r.ReleaseRegion? && r.slot < |q.tickets| && q.tickets[r.slot].inUse
  }

  /**
   * What each region adds: a release counts as consumed until a shutdown begins and as discarded from
   * then on, a Clear discards what is pending, and nothing else is counted either way.
   */
  lemma RegionDecidesFate(q: Queue, r: Region)
    requires Inv(q) && GenerationsCurrent(q)
    ensures GenerationsCurrent(Apply(q, r))
    ensures Apply(q, r).consumed == q.consumed + if ReleasesTicket(q, r) && !q.stopping then 1 else 0
    ensures Apply(q, r).consumedBytes == q.consumedBytes + if ReleasesTicket(q, r) && !q.stopping then r.bytes else 0
    ensures Apply(q, r).discarded == q.discarded + if ReleasesTicket(q, r) && q.stopping then 1
                                                   else if r.ClearRegion? && !q.stopping then q.pending else 0
  {
    hide AllFree, InUse;
  }

  /** Without a Clear or a shutdown nothing is discarded: every submitted buffer is consumed or pending. */
  lemma {:induction false} UninterruptedRun(q: Queue, regions: seq<Region>)
    requires Inv(q) && GenerationsCurrent(q) && !q.stopping
    requires forall i :: 0 <= i < |regions| ==> !regions[i].ClearRegion? && !regions[i].BeginShutdownRegion?
    ensures !Run(q, regions).stopping && Run(q, regions).discarded == q.discarded
    decreases |regions|
  {
    hide Inv, GenerationsCurrent;
    if regions != [] {
      RegionDecidesFate(q, regions[0]);
      ApplyKeeps(q, regions[0]);
      UninterruptedRun(Apply(q, regions[0]), regions[1..]);
    }
  }

  lemma UninterruptedQueueDiscardsNothing(capacity: nat, regions: seq<Region>)
    requires forall i :: 0 <= i < |regions| ==> !regions[i].ClearRegion? && !regions[i].BeginShutdownRegion?
    ensures var q := Run(Fresh(capacity), regions); q.discarded == 0 && q.submitted == q.consumed + q.pending
  {
    FreshAccounted(capacity);
    RunKeeps(Fresh(capacity), regions);
    UninterruptedRun(Fresh(capacity), regions);
    NothingLost(Fresh(capacity), regions);
  }

  /** Tickets are reclaimed by force only in a queue that is stopping. */
  lemma {:induction false} NothingLost(q: Queue, regions: seq<Region>)
    requires q.lost > 0 ==> q.stopping
    ensures Run(q, regions).lost > 0 ==> Run(q, regions).stopping
    decreases |regions|
  {
    if regions != [] {
      assert Apply(q, regions[0]).lost > 0 ==> Apply(q, regions[0]).stopping;
      NothingLost(Apply(q, regions[0]), regions[1..]);
    }
  }

  // ------------------------------------------------------- the regions in place

  class State {
    const tickets: array<Ticket>
    var free: seq<nat>
    var pending: nat
    var nextId: nat
    var generation: nat
    var submitted: nat
    var consumed: nat
    var discarded: nat
    var consumedBytes: nat
    var callback: int
    var jobs: seq<int>
    var stopping: bool
    var complete: bool
    ghost var lost: nat

    ghost function View(): Queue
      reads this, tickets
    {
      Queue(tickets[..], free, pending, nextId, generation, submitted, consumed, discarded, consumedBytes,
            callback, jobs, stopping, complete, lost)
    }

    ghost predicate Valid()
      reads this, tickets
    {
      Inv(View())
    }

    constructor (capacity: nat)
      ensures Valid() && fresh(tickets) && View() == Fresh(capacity)
    {
      tickets := new Ticket[capacity](i => IDLE);
      free, pending, nextId, generation := AllFree(capacity), 0, 1, 1;
      submitted, consumed, discarded, consumedBytes := 0, 0, 0, 0;
      callback, jobs, stopping, complete, lost := 0, [], false, false, 0;
      new;
      FreshAccounted(capacity);
      assert tickets[..] == seq(capacity, i => IDLE);
    }

    method AdmitBuffer() returns (a: Admission)
      requires Valid()
      modifies this`free, this`nextId, this`pending, this`submitted, tickets
      ensures Valid() && a == Admission'(old(View())) && View() == Admit(old(View()))
    {
      hide Inv, InUse;
      AdmitKeeps(View());
      if stopping {
        return Stopped;
      }
      if pending >= tickets.Length || free == [] {
        return Full;
      }
      var slot, id := free[|free| - 1], nextId;
      free := free[..|free| - 1];
      tickets[slot] := Ticket(true, id, generation, true);
      nextId, pending, submitted := nextId + 1, pending + 1, submitted + 1;
      return Admitted(slot, id);
    }

    method RollBackBuffer(slot: nat, id: nat)
      requires Valid() && slot < tickets.Length
      modifies this`free, this`pending, this`submitted, tickets
      ensures Valid() && View() == RollBack(old(View()), slot, id)
    {
      hide Inv, InUse;
      RollBackKeeps(View(), slot, id);
      if tickets[slot].inUse && tickets[slot].id == id {
        tickets[slot] := tickets[slot].(linked := false, inUse := false);
        free := free + [slot];
        pending, submitted := Minus1(pending), Minus1(submitted);
      }
    }

    method ClearTickets() returns (count: nat)
      modifies tickets
      ensures forall j :: 0 <= j < tickets.Length ==> tickets[j] == ClearTicket(old(tickets[j]))
      ensures count == InUse(old(tickets[..]))
    {
      ghost var before := tickets[..];
      count := 0;
      for i := 0 to tickets.Length
        invariant forall j :: 0 <= j < i ==> tickets[j] == ClearTicket(before[j])
        invariant forall j :: i <= j < tickets.Length ==> tickets[j] == before[j]
        invariant count + InUse(before[i..]) == InUse(before)
      {
        assert before[i..][1..] == before[i + 1..];
        if tickets[i].inUse {
          tickets[i] := tickets[i].(linked := false, inUse := false);
          count := count + 1;
        }
      }
    }

    method RefillFreeList()
      modifies this`free
      ensures free == AllFree(tickets.Length)
    {
      free := [];
      var n := tickets.Length;
      while n > 0
        invariant 0 <= n <= tickets.Length && free == AllFree(tickets.Length)[..tickets.Length - n]
      {
        n := n - 1;
        free := free + [n];
      }
    }

    /** Takes every ticket back and rebuilds the free list. */
    method ClearAll()
      requires Valid()
      modifies this`generation, this`free, this`discarded, this`pending, tickets
      ensures Valid() && View() == Clear(old(View()))
    {
      hide Inv, InUse, AllFree;
      ClearKeeps(View());
      if stopping {
        return;
      }
      generation := generation + 1;
      var count := ClearTickets();
      RefillFreeList();
      discarded, pending := discarded + count, 0;
      assert tickets[..] == Clear(old(View())).tickets;
      assert View() == Clear(old(View()));
    }

    method TakeTicketBack(slot: nat)
      requires slot < tickets.Length
      modifies this`free, this`pending, tickets
      ensures View() == PutBack(old(View()), slot)
    {
      tickets[slot] := tickets[slot].(linked := false, inUse := false);
      free, pending := free + [slot], Minus1(pending);
    }

    method ReleaseBuffer(slot: nat, bytes: nat)
      requires Valid() && slot < tickets.Length
      modifies this`free, this`pending, this`consumed, this`consumedBytes, this`discarded, this`jobs, tickets
      ensures Valid() && View() == Release(old(View()), slot, bytes)
      ensures var taken := old(tickets[slot].inUse);
              var counts := taken && !old(stopping) && old(tickets[slot]).generation == old(generation);
              && consumed == old(consumed) + (if counts then 1 else 0)
              && consumedBytes == old(consumedBytes) + (if counts then bytes else 0)
              && discarded == old(discarded) + (if taken && !counts then 1 else 0)
              && jobs == old(jobs) + (if counts && callback != 0 then [callback] else [])
    {
      hide Inv, InUse, PutBack;
      ReleaseKeeps(View(), slot, bytes);
      if tickets[slot].inUse {
        var current := tickets[slot].generation == generation;
        TakeTicketBack(slot);
        if !stopping && current {
          consumed, consumedBytes := consumed + 1, consumedBytes + bytes;
          if callback != 0 {
            jobs := jobs + [callback];
          }
        } else {
          discarded := discarded + 1;
        }
      }
    }

    /** Refused once the queue is stopping. */
    method RegisterCallback(registered: int) returns (ok: bool)
      requires Valid()
      modifies this`callback
      ensures Valid() && ok == !stopping && View() == Apply(old(View()), RegisterRegion(registered))
    {
      ok := !stopping;
      if ok {
        callback := registered;
      }
    }

    /** What the callback thread does when its wait is over: it leaves, or takes the oldest job. */
    method TakeJob() returns (exit: bool, job: int)
      requires Valid() && (stopping || jobs != [])
      modifies this`jobs
      ensures Valid() && exit == stopping && View() == Apply(old(View()), PopJobRegion)
      ensures if exit then jobs == [] else [job] + jobs == old(jobs)
    {
      exit, job := stopping, 0;
      if exit {
        jobs := [];
      } else {
        job, jobs := jobs[0], jobs[1..];
      }
    }

    method Stop()
      requires Valid()
      modifies this`stopping, this`generation, this`callback, this`jobs
      ensures Valid() && View() == BeginShutdown(old(View()))
    {
      stopping, generation, callback, jobs := true, generation + 1, 0, [];
    }

    method Finish()
      requires Valid() && stopping
      modifies this`complete, this`pending, this`lost, tickets
      ensures Valid() && View() == FinishShutdown(old(View()))
    {
      hide Inv, InUse;
      FinishKeeps(View());
      if pending > 0 {
        for i := 0 to tickets.Length
          invariant forall j :: 0 <= j < i ==> tickets[j] == old(tickets[j]).(linked := false, inUse := false)
          invariant forall j :: i <= j < tickets.Length ==> tickets[j] == old(tickets[j])
          modifies tickets
        {
          tickets[i] := tickets[i].(linked := false, inUse := false);
        }
        lost, pending := lost + pending, 0;
      }
      complete := true;
      assert tickets[..] == FinishShutdown(old(View())).tickets;
    }
  }
}
