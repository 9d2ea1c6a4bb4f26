/**
 * What removals and polls mean for the idents handed out: a removed registration never comes back,
 * and a poll that no other thread disturbs hands out exactly what was ready.
 */
module LooperPolls {
  import opened Looper
  import opened LooperRuns

  // ---------------------------------------------------------------- removal

  /** The step takes the current registration of `fd` out of the tables. */
  predicate Removes(s: State, step: Step, fd: int)
    requires Enabled(s, step)
  {
    match step
    case RemoveFd(target) => target == fd
    case Dispatch(keep) =>
      var r := s.poller.responses[s.poller.done].registration;
      !keep && r.callback != 0 && r.fd == fd && fd in s.tables.tokenByFd && s.tables.tokenByFd[fd] == r.token
    case _ => false
  }

  /** No registration of `fd` among `born` is in the tables. */
  ghost predicate AllGone(born: map<nat, Registration>, fd: int, n: State) {
    && (forall t :: t in born ==> t in n.born && n.born[t] == born[t])
    && (forall t :: t in born && born[t].fd == fd ==> t !in n.tables.registrations)
  }

  lemma RemovalTakesAll(s: State, step: Step, fd: int)
    requires TokensUnique(s) && Enabled(s, step) && Removes(s, step, fd)
    ensures AllGone(s.born, fd, Apply(s, step))
  {
    forall t | t in s.born && s.born[t].fd == fd
      ensures t !in Apply(s, step).tables.registrations
    {
      if t in s.tables.registrations {
        assert s.tables.registrations[t].fd == fd && s.tables.tokenByFd[fd] == t;
      }
    }
  }

  /** What no step does: bring back a token, or hand out one that is not in the tables. */
  ghost predicate BringsNothingBack(s: State, n: State) {
    && (forall t :: t in s.born ==> t in n.born && n.born[t] == s.born[t])
    && (forall t :: t in n.tables.registrations ==> t in s.tables.registrations || t !in s.born)
    && |s.taken| <= |n.taken| && n.taken[..|s.taken|] == s.taken
    && (forall i :: |s.taken| <= i < |n.taken| ==>
          Genuine(s.born, n.taken[i]) && n.taken[i].registration.token in s.tables.registrations)
  }

  lemma TableStepRegisters(s: State, step: Step)
    requires Enabled(s, step) && IsTableStep(step)
    ensures forall t :: t in Apply(s, step).tables.registrations ==> t in s.tables.registrations || t == s.issued + 1
  {
  }

  lemma TableStepBringsNothingBack(s: State, step: Step)
    requires TokensUnique(s) && Enabled(s, step) && IsTableStep(step)
    ensures BringsNothingBack(s, Apply(s, step))
  {
    hide TokensUnique, Enabled, Apply;
    NextIsUnborn(s);
    TablesStep(s, step);
    TableStepFrame(s, step);
    TableStepRegisters(s, step);
  }

  lemma TakeBringsNothingBack(s: State)
    requires QueueAgrees(s) && Enabled(s, Take)
    ensures BringsNothingBack(s, Apply(s, Take))
  {
    assert Genuine(s.born, s.pending[0]) by {
      assert s.pending[0] == s.enqueued[|s.enqueued| - |s.pending|];
    }
    hide QueueAgrees, Genuine;
  }

  lemma StepBringsNothingBack(s: State, step: Step)
    requires Inv(s) && Enabled(s, step)
    ensures BringsNothingBack(s, Apply(s, step))
  {
    hide TokensUnique, QueueAgrees;
    if IsTableStep(step) {
      hide Apply, Enabled;
      TableStepBringsNothingBack(s, step);
    } else if step.Take? {
      hide Apply, Enabled;
      TakeBringsNothingBack(s);
    } else {
      hide Inv, Found, Idents;
    }
  }

  lemma {:induction false} GoneForGood(born: map<nat, Registration>, fd: int, s: State, steps: seq<Step>, end: State)
    requires Inv(s) && AllGone(born, fd, s) && IsRun(s, steps, end)
    ensures AllGone(born, fd, end) && |s.taken| <= |end.taken| && end.taken[..|s.taken|] == s.taken
    ensures forall i :: |s.taken| <= i < |end.taken| ==>
              !(end.taken[i].registration.fd == fd && end.taken[i].registration.token in born)
    decreases |steps|
  {
    hide Inv, Enabled, Apply;
    if steps != [] {
      var n := Apply(s, steps[0]);
      StepBringsNothingBack(s, steps[0]);
      ApplyKeepsInv(s, steps[0]);
      assert AllGone(born, fd, n);
      GoneForGood(born, fd, n, steps[1..], end);
      forall i | |s.taken| <= i < |end.taken|
        ensures !(end.taken[i].registration.fd == fd && end.taken[i].registration.token in born)
      {
        if i < |n.taken| {
          assert end.taken[i] == n.taken[i] && Genuine(s.born, n.taken[i]);
        }
      }
    }
  }

  /**
   * Once a descriptor has been removed, by RemoveFd or by its callback's answer, no registration of
   * it made before is ever in the tables again and no entry of one is handed out, in any continuation.
   */
  lemma RemovedIsNeverHandedOut(before: seq<Step>, s: State, step: Step, fd: int, after: seq<Step>, end: State)
    requires IsRun(START, before, s) && Enabled(s, step) && Removes(s, step, fd)
    requires IsRun(Apply(s, step), after, end)
    ensures fd !in Apply(s, step).tables.tokenByFd
    ensures forall t :: t in s.born && s.born[t].fd == fd ==> t !in end.tables.registrations
    ensures |s.taken| <= |end.taken| && end.taken[..|s.taken|] == s.taken
    ensures forall i :: |s.taken| <= i < |end.taken| ==>
              !(end.taken[i].registration.fd == fd && end.taken[i].registration.token in s.born)
  {
    StartInv();
    RunKeepsInv(START, before, s);
    assert TokensUnique(s);
    RemovalTakesAll(s, step, fd);
    ApplyKeepsInv(s, step);
    assert Apply(s, step).taken == s.taken;
    hide Inv;
    GoneForGood(s.born, fd, Apply(s, step), after, end);
  }

  /** Removing touches no other descriptor; a callback that keeps its registration touches nothing. */
  lemma RemovalIsExact(s: State, step: Step)
    requires TokensUnique(s) && Enabled(s, step) && (step.RemoveFd? || step.Dispatch?)
    ensures var n := Apply(s, step);
            && (forall fd :: fd in n.tables.tokenByFd <==> fd in s.tables.tokenByFd && !Removes(s, step, fd))
            && (forall fd :: fd in n.tables.tokenByFd ==>
                  && n.tables.tokenByFd[fd] == s.tables.tokenByFd[fd]
                  && n.tables.tokenByFd[fd] in n.tables.registrations
                  && n.tables.registrations[n.tables.tokenByFd[fd]] == s.tables.registrations[s.tables.tokenByFd[fd]])
    ensures step == Dispatch(true) ==> Apply(s, step).tables == s.tables && Apply(s, step).kernel == s.kernel
  {
  }

  // -------------------------------------------------------- undisturbed polls

  /** What the kernel reports, as registration and events, in the order it reports them. */
  function Reported(s: State, ready: seq<(int, int)>): seq<(Registration, int)>
    requires Enabled(s, Fetch(ready))
  {
    seq(|ready|, i requires 0 <= i < |ready| && Enabled(s, Fetch(ready)) =>
          (s.tables.registrations[s.kernel[ready[i].0]], ready[i].1))
  }

  function WithoutCallback(xs: seq<(Registration, int)>): (r: seq<(Registration, int)>)
    ensures |r| <= |xs|
  {
    if xs == [] then []
    else (if xs[0].0.callback == 0 then [xs[0]] else []) + WithoutCallback(xs[1..])
  }

  function Pairs(qs: seq<Queued>): seq<(Registration, int)> {
    seq(|qs|, i requires 0 <= i < |qs| => (qs[i].registration, qs[i].event.events))
  }

  function Dispatches(keeps: seq<bool>): seq<Step> {
    seq(|keeps|, i requires 0 <= i < |keeps| => Dispatch(keeps[i]))
  }

  function Takes(n: nat): seq<Step> {
    seq(n, i => Take)
  }

  /** One poll and the takes that empty the queue after it. */
  function PollSteps(ready: seq<(int, int)>, keeps: seq<bool>, n: nat): seq<Step> {
    [Fetch(ready), Collect] + (Dispatches(keeps) + ([Enqueue] + Takes(n)))
  }

  lemma {:induction false} RunsJoin(s: State, a: seq<Step>, m: State, b: seq<Step>, n: State)
    requires IsRun(s, a, m) && IsRun(m, b, n)
    ensures IsRun(s, a + b, n)
    decreases |a|
  {
    hide Enabled, Apply;
    if a == [] {
      assert a + b == b;
    } else {
      assert (a + b)[0] == a[0] && (a + b)[1..] == a[1..] + b;
      RunsJoin(Apply(s, a[0]), a[1..], m, b, n);
    }
  }

  lemma {:induction false} PairsOfIdents(qs: seq<Queued>)
    ensures Pairs(Idents(qs)) == WithoutCallback(Pairs(qs))
  {
    if qs != [] {
      PairsOfIdents(qs[1..]);
      assert Pairs(qs)[1..] == Pairs(qs[1..]);
    }
  }

  /** With all producers still registered, the lookup finds every one of them. */
  lemma {:induction false} AllFound(tables: Tables, batch: seq<Event>)
    requires forall i :: 0 <= i < |batch| ==> Registered(tables, batch[i].producer)
    ensures Found(tables, batch) == InFlight(Fetched(batch))
  {
    if batch != [] {
      AllFound(tables, batch[1..]);
      assert InFlight(Fetched(batch)) == [Queued(batch[0], batch[0].producer)] + InFlight(Fetched(batch[1..]));
    }
  }

  /** All idents of the batch are registered. */
  ghost predicate IdentsRegistered(tables: Tables, qs: seq<Queued>) {
    forall i :: 0 <= i < |qs| && qs[i].registration.callback == 0 ==> Registered(tables, qs[i].registration)
  }

  lemma FetchFinds(s: State, ready: seq<(int, int)>)
    requires TokensUnique(s) && Enabled(s, Fetch(ready))
    ensures var batch := Apply(s, Fetch(ready)).poller.batch;
            && Found(s.tables, batch) == InFlight(Fetched(batch))
            && |batch| == |ready| && IdentsRegistered(s.tables, InFlight(Fetched(batch)))
            && Pairs(InFlight(Fetched(batch))) == Reported(s, ready)
  {
    var batch := Apply(s, Fetch(ready)).poller.batch;
    forall i | 0 <= i < |ready|
      ensures Registered(s.tables, batch[i].producer)
    {
      assert s.kernel[ready[i].0] in s.tables.registrations;
    }
    hide TokensUnique, Registered, Found;
    AllFound(s.tables, batch);
  }

  lemma RunOfTwo(s: State, a: Step, m: State, b: Step, n: State)
    requires Enabled(s, a) && m == Apply(s, a) && Enabled(m, b) && n == Apply(m, b)
    ensures IsRun(s, [a, b], n)
  {
    hide Enabled, Apply;
    assert [a, b][1..] == [b] && [b][1..] == [];
    assert IsRun(m, [b], n);
  }

  lemma FetchAndCollect(s: State, ready: seq<(int, int)>) returns (n: State)
    requires TokensUnique(s) && Enabled(s, Fetch(ready))
    ensures IsRun(s, [Fetch(ready), Collect], n) && n == s.(poller := n.poller, serial := n.serial)
    ensures n.poller.Dispatching? && n.poller.done == 0 && |n.poller.responses| == |ready|
    ensures Pairs(n.poller.responses) == Reported(s, ready) && IdentsRegistered(s.tables, n.poller.responses)
  {
    FetchFinds(s, ready);
    hide TokensUnique, Found, IdentsRegistered, Pairs, Reported, IsRun;
    var m := Apply(s, Fetch(ready));
    n := Apply(m, Collect);
    RunOfTwo(s, Fetch(ready), m, Collect, n);
  }

  /** A callback's answer concerns its own registration, which is not an ident. */
  lemma DispatchSpares(s: State, keep: bool)
    requires TokensUnique(s) && PollAgrees(s, s.poller) && Enabled(s, Dispatch(keep))
    requires IdentsRegistered(s.tables, s.poller.responses)
    ensures var n := Apply(s, Dispatch(keep));
            && n == s.(tables := n.tables, kernel := n.kernel, poller := s.poller.(done := s.poller.done + 1))
            && IdentsRegistered(n.tables, s.poller.responses)
  {
    assert Genuine(s.born, s.poller.responses[s.poller.done]);
  }

  lemma DispatchOne(s: State, keep: bool)
    requires Inv(s) && s.poller.Dispatching? && s.poller.done < |s.poller.responses|
    requires IdentsRegistered(s.tables, s.poller.responses)
    ensures Enabled(s, Dispatch(keep)) && Inv(Apply(s, Dispatch(keep)))
    ensures var n := Apply(s, Dispatch(keep));
            && n == s.(tables := n.tables, kernel := n.kernel, poller := s.poller.(done := s.poller.done + 1))
            && IdentsRegistered(n.tables, s.poller.responses)
  {
    assert TokensUnique(s) && PollAgrees(s, s.poller);
    assert Enabled(s, Dispatch(keep));
    hide Inv, Enabled, Apply, TokensUnique, PollAgrees, IdentsRegistered;
    DispatchSpares(s, keep);
    ApplyKeepsInv(s, Dispatch(keep));
  }

  lemma {:induction false} DispatchAll(s: State, keeps: seq<bool>) returns (n: State)
    requires Inv(s) && s.poller.Dispatching? && s.poller.done + |keeps| == |s.poller.responses|
    requires IdentsRegistered(s.tables, s.poller.responses)
    ensures IsRun(s, Dispatches(keeps), n)
    ensures n == s.(tables := n.tables, kernel := n.kernel, poller := s.poller.(done := |s.poller.responses|))
    ensures IdentsRegistered(n.tables, s.poller.responses)
    decreases |keeps|
  {
    hide Inv, Enabled, Apply, IdentsRegistered;
    if keeps == [] {
      n := s;
    } else {
      DispatchOne(s, keeps[0]);
      n := DispatchAll(Apply(s, Dispatch(keeps[0])), keeps[1..]);
      assert Dispatches(keeps)[0] == Dispatch(keeps[0]) && Dispatches(keeps)[1..] == Dispatches(keeps[1..]);
    }
  }

  /** Everything queued can be handed out. */
  ghost predicate AllTakeable(tables: Tables, qs: seq<Queued>) {
    IdentsRegistered(tables, qs) && forall i :: 0 <= i < |qs| ==> qs[i].registration.callback == 0
  }

  lemma TakeOne(s: State)
    requires s.poller.Idle? && s.pending != [] && AllTakeable(s.tables, s.pending)
    ensures Enabled(s, Take)
    ensures var n := Apply(s, Take);
            && n == s.(pending := s.pending[1..], taken := s.taken + [s.pending[0]], takenAt := n.takenAt)
            && AllTakeable(n.tables, n.pending)
  {
    assert Registered(s.tables, s.pending[0].registration);
    assert forall i :: 0 <= i < |s.pending[1..]| ==> s.pending[1..][i] == s.pending[i + 1];
  }

  lemma {:induction false} TakeAll(s: State) returns (n: State)
    requires s.poller.Idle? && AllTakeable(s.tables, s.pending)
    ensures IsRun(s, Takes(|s.pending|), n)
    ensures n == s.(pending := [], taken := s.taken + s.pending, takenAt := n.takenAt)
    decreases |s.pending|
  {
    hide Enabled, Apply, AllTakeable;
    if s.pending == [] {
      n := s;
      assert s.taken + s.pending == s.taken;
    } else {
      TakeOne(s);
      var m := Apply(s, Take);
      n := TakeAll(m);
      assert Takes(|s.pending|)[0] == Take && Takes(|s.pending|)[1..] == Takes(|m.pending|);
      assert m.taken + m.pending == s.taken + s.pending;
    }
  }

  lemma {:induction false} IdentsAreTakeable(qs: seq<Queued>, tables: Tables)
    requires IdentsRegistered(tables, qs)
    ensures AllTakeable(tables, Idents(qs))
  {
    if qs != [] {
      assert forall i :: 0 <= i < |qs[1..]| ==> qs[1..][i] == qs[i + 1];
      IdentsAreTakeable(qs[1..], tables);
    }
  }

  lemma EnqueueAndTake(s: State) returns (n: State)
    requires s.poller.Dispatching? && s.poller.done == |s.poller.responses| && s.pending == []
    requires IdentsRegistered(s.tables, s.poller.responses)
    ensures var idents := Idents(s.poller.responses);
            && IsRun(s, [Enqueue] + Takes(|idents|), n)
            && n.poller.Idle? && n.pending == [] && n.taken == s.taken + idents
  {
    var idents, m := Idents(s.poller.responses), Apply(s, Enqueue);
    IdentsAreTakeable(s.poller.responses, s.tables);
    assert m.pending == idents;
    n := TakeAll(m);
    var steps := [Enqueue] + Takes(|idents|);
    assert steps[0] == Enqueue && steps[1..] == Takes(|idents|);
  }

  /**
   * A poll that no other thread disturbs hands out exactly the ready descriptors without a callback,
   * in the kernel's order, each with its registration and its events, whatever the callbacks answer.
   */
  lemma UndisturbedPoll(before: seq<Step>, s: State, ready: seq<(int, int)>, keeps: seq<bool>) returns (n: State)
    requires IsRun(START, before, s) && s.pending == [] && Enabled(s, Fetch(ready)) && |keeps| == |ready|
    ensures var idents := WithoutCallback(Reported(s, ready));
            && IsRun(s, PollSteps(ready, keeps, |idents|), n)
            && n.poller.Idle? && n.pending == [] && |n.taken| == |s.taken| + |idents|
            && n.taken[..|s.taken|] == s.taken && Pairs(n.taken[|s.taken|..]) == idents
  {
    StartInv();
    RunKeepsInv(START, before, s);
    assert TokensUnique(s);
    hide Inv, TokensUnique, Idents, IdentsRegistered, Enabled, Apply, IsRun;
    var a := FetchAndCollect(s, ready);
    RunKeepsInv(s, [Fetch(ready), Collect], a);
    var qs := a.poller.responses;
    var b := DispatchAll(a, keeps);
    PairsOfIdents(qs);
    n := EnqueueAndTake(b);
    var last := [Enqueue] + Takes(|Idents(qs)|);
    RunsJoin(a, Dispatches(keeps), b, last, n);
    RunsJoin(s, [Fetch(ready), Collect], a, Dispatches(keeps) + last, n);
    assert n.taken[|s.taken|..] == Idents(qs);
  }

  /** A descriptor added with an ident and reported ready is handed out with that ident, its data and the events. */
  lemma AddedIsHandedOut(before: seq<Step>, s: State, fd: int, ident: int, events: int, data: int, got: int)
    returns (n: State)
    requires IsRun(START, before, s) && s.issued < MAX_TOKEN && s.poller.Idle? && s.pending == []
    ensures IsRun(s, [Add(fd, ident, events, 0, data)] + PollSteps([(fd, got)], [true], 1), n)
    ensures |n.taken| == |s.taken| + 1 && n.taken[..|s.taken|] == s.taken
    ensures n.taken[|s.taken|].registration == Registration(fd, ident, events, 0, data, s.issued + 1)
    ensures n.taken[|s.taken|].event.events == got
  {
    var add, ready, none := Add(fd, ident, events, 0, data), [(fd, got)], [];
    var m := Apply(s, add);
    assert IsRun(m, none, m) && [add][1..] == none;
    assert IsRun(s, [add], m);
    assert Enabled(m, Fetch(ready)) && m.pending == [] && m.taken == s.taken;
    var r := Registration(fd, ident, events, 0, data, s.issued + 1);
    assert Reported(m, ready) == [(r, got)];
    assert WithoutCallback([(r, got)]) == [(r, got)] by {
      assert [(r, got)][1..] == [];
    }
    hide Enabled, Apply, IsRun;
    RunsJoin(START, before, s, [add], m);
    n := UndisturbedPoll(before + [add], m, ready, [true]);
    RunsJoin(s, [add], m, PollSteps(ready, [true], 1), n);
    assert Pairs(n.taken[|s.taken|..])[0] == (r, got);
  }
}
