/** What an Enqueue on the OpenSL queue achieves when nothing gets in its way. */
module OpenSlEnqueues {
  import Q = OpenSlQueue
  import opened OpenSlRuns

  /** The queue takes buffers and has a ticket to spare; nobody is in the sink. */
  ghost predicate Ready(s: State) {
    Safe(s) && s.op.NoOperation? && !s.q.stopping && Q.InUse(s.q.tickets) < |s.q.tickets|
  }

  lemma ReadyAdmits(s: State)
    requires Ready(s)
    ensures s.q.free != [] && !s.sinkShut
    ensures Q.Admission'(s.q) == Q.Admitted(s.q.free[|s.q.free| - 1], s.q.nextId)
    ensures var slot := s.q.free[|s.q.free| - 1];
            && slot < |s.q.tickets| && !s.q.tickets[slot].inUse && Q.Admit(s.q) == Lending(s.q, slot)
  {
    assert PhasesAgree(s) && Q.Inv(s.q);
    Q.AdmitKeeps(s.q);
    hide Safe, Q.Inv, Q.InUse;
  }

  /** The queue with ticket `slot` made out to the next buffer. */
  function Lending(q: Q.Queue, slot: nat): Q.Queue
    requires slot < |q.tickets| && q.free != []
  {
    q.(tickets := q.tickets[slot := Q.Ticket(true, q.nextId, q.generation, true)], free := q.free[..|q.free| - 1],
       nextId := q.nextId + 1, pending := q.pending + 1, submitted := q.submitted + 1)
  }

  /** The Enqueue while it is in the sink. */
  function InSinkWith(s: State, slot: nat): State
    requires slot < |s.q.tickets| && s.q.free != []
  {
    s.(q := Lending(s.q, slot), op := Enqueueing(slot, s.q.nextId, Calling))
  }

  lemma BeginIs(s: State)
    requires Ready(s)
    ensures s.q.free != [] && s.q.free[|s.q.free| - 1] < |s.q.tickets|
    ensures Enabled(s, BeginEnqueue) && Apply(s, BeginEnqueue) == InSinkWith(s, s.q.free[|s.q.free| - 1])
  {
    ReadyAdmits(s);
    hide Safe, Q.InUse, Q.Admit, Q.Admission';
  }

  lemma AcceptIs(s: State, slot: nat, id: nat)
    requires s.op == Enqueueing(slot, id, Calling) && slot < |s.q.tickets| && !s.sinkShut
    ensures Enabled(s, SinkAccepts)
    ensures var a := Apply(s, SinkAccepts);
            && Enabled(a, EndEnqueue)
            && Apply(a, EndEnqueue) ==
               s.(op := NoOperation, lent := s.lent + {Lent(id, slot, s.q.tickets[slot].generation)})
  {
  }

  lemma RefuseIs(s: State, slot: nat, id: nat)
    requires s.op == Enqueueing(slot, id, Calling) && !s.sinkShut
    ensures Enabled(s, SinkRefuses)
    ensures var a := Apply(s, SinkRefuses);
            && Enabled(a, EndEnqueue)
            && Apply(a, EndEnqueue) == s.(op := NoOperation, q := Q.RollBack(s.q, slot, id))
  {
    hide Q.RollBack;
  }

  lemma RunOfThree(s: State, a: Step, s1: State, b: Step, s2: State, c: Step, s3: State)
    requires Enabled(s, a) && Apply(s, a) == s1 && Enabled(s1, b) && Apply(s1, b) == s2
    requires Enabled(s2, c) && Apply(s2, c) == s3
    ensures IsRun(s, [a, b, c], s3)
  {
    hide Enabled, Apply;
    assert [a, b, c][1..] == [b, c] && [b, c][1..] == [c] && [c][1..] == [];
    assert IsRun(s2, [c], s3);
    assert IsRun(s1, [b, c], s3);
  }

  /**
   * A buffer that the sink accepts is lent to it under the next number and the current generation, on a
   * ticket that was free, and counted once as submitted and pending; nothing else changes.
   */
  lemma AcceptedEnqueue(s: State)
    requires Ready(s)
    ensures s.q.free != [] && s.q.free[|s.q.free| - 1] < |s.q.tickets|
    ensures var slot := s.q.free[|s.q.free| - 1];
            && !s.q.tickets[slot].inUse
            && IsRun(s, [BeginEnqueue, SinkAccepts, EndEnqueue],
                     s.(q := Lending(s.q, slot), lent := s.lent + {Lent(s.q.nextId, slot, s.q.generation)}))
  {
    ReadyAdmits(s);
    BeginIs(s);
    hide Ready, IsRun, Enabled, Apply;
    var slot := s.q.free[|s.q.free| - 1];
    var s1 := InSinkWith(s, slot);
    AcceptIs(s1, slot, s.q.nextId);
    var s2 := Apply(s1, SinkAccepts);
    RunOfThree(s, BeginEnqueue, s1, SinkAccepts, s2, EndEnqueue, Apply(s2, EndEnqueue));
  }

  /** A buffer that the sink refuses leaves the queue as it was, except for the number it used up. */
  lemma RefusedEnqueue(s: State)
    requires Ready(s)
    ensures s.q.free != [] && s.q.free[|s.q.free| - 1] < |s.q.tickets|
    ensures var slot := s.q.free[|s.q.free| - 1];
            IsRun(s, [BeginEnqueue, SinkRefuses, EndEnqueue],
                  s.(q := s.q.(nextId := s.q.nextId + 1,
                               tickets := s.q.tickets[slot := Q.Ticket(false, s.q.nextId, s.q.generation, false)])))
  {
    ReadyAdmits(s);
    BeginIs(s);
    assert Q.Inv(s.q);
    hide Ready, IsRun, Enabled, Apply, Q.Inv;
    Q.RollBackUndoesAdmit(s.q);
    hide Q.RollBack, Q.Admit, Q.Admission';
    var slot := s.q.free[|s.q.free| - 1];
    var s1 := InSinkWith(s, slot);
    RefuseIs(s1, slot, s.q.nextId);
    var s2 := Apply(s1, SinkRefuses);
    RunOfThree(s, BeginEnqueue, s1, SinkRefuses, s2, EndEnqueue, Apply(s2, EndEnqueue));
  }
}
