/**
 * Whole runs of the event loop: any interleaving of threads that add, replace, remove and close
 * descriptors with the polling thread, which fetches events, looks them up, runs callbacks, queues
 * idents and hands them out. A callback may itself poll, to any depth.
 */
module LooperRuns {
  import opened Outcomes
  import opened Looper

  /** An event as the kernel reported it: numbered, with the registration that armed it. */
  datatype Event = Event(serial: nat, producer: Registration, events: int)

  /** An event paired with the registration found for its token. */
  datatype Queued = Queued(event: Event, registration: Registration)

  /** Where the innermost poll of the polling thread is between two locked regions. */
  datatype Poller = Idle | Fetched(batch: seq<Event>) | Dispatching(responses: seq<Queued>, done: nat)

  datatype State = State(
    tables: Tables,
    kernel: map<int, nat>,
    issued: nat,                  // tokens handed out so far, including failed adds
    born: map<nat, Registration>, // every registration that was ever current, by token
    poller: Poller,
    suspended: seq<Poller>,       // outer polls, each inside a callback
    nested: bool,                 // a callback has polled
    pending: seq<Queued>,
    serial: nat,
    enqueued: seq<Queued>,        // every entry that was ever queued
    taken: seq<Queued>,
    takenAt: seq<nat>)            // where each was among them

  const START := State(Tables(map[], map[]), map[], 0, map[], Idle, [], false, [], 0, [], [], [])

  datatype Step =
    | Add(fd: int, ident: int, events: int, callback: int, data: int)
    | AddFails
    | RemoveFd(target: int)
    | CloseFd(closed: int)
    | Fetch(ready: seq<(int, int)>)
    | Collect
    | Dispatch(keep: bool)
    | Nest
    | Unnest
    | Enqueue
    | Take

  /** Tokens are handed out in order as long as they have not wrapped. */
  predicate Enabled(s: State, step: Step) {
    match step
    case Add(_, _, _, _, _) => s.issued < MAX_TOKEN
    case AddFails => s.issued < MAX_TOKEN
    case RemoveFd(_) => true
    case CloseFd(_) => true
    case Fetch(ready) =>
      s.poller.Idle? && forall i :: 0 <= i < |ready| ==>
        ready[i].0 in s.kernel && s.kernel[ready[i].0] in s.tables.registrations
    case Collect => s.poller.Fetched?
    case Dispatch(_) => s.poller.Dispatching? && s.poller.done < |s.poller.responses|
    case Nest =>
      && s.poller.Dispatching? && s.poller.done < |s.poller.responses|
      && s.poller.responses[s.poller.done].registration.callback != 0
    case Unnest => s.poller.Idle? && s.suspended != []
    case Enqueue => s.poller.Dispatching? && s.poller.done == |s.poller.responses|
    case Take => s.poller.Idle? && s.pending != []
  }

  function Found(tables: Tables, batch: seq<Event>): seq<Queued> {
    if batch == [] then []
    else (if batch[0].producer.token in tables.registrations
          then [Queued(batch[0], tables.registrations[batch[0].producer.token])] else []) +
         Found(tables, batch[1..])
  }

  function Idents(responses: seq<Queued>): seq<Queued> {
    if responses == [] then []
    else (if responses[0].registration.callback == 0 then [responses[0]] else []) + Idents(responses[1..])
  }

  function Apply(s: State, step: Step): State
    requires Enabled(s, step)
  {
    match step
    case Add(fd, ident, events, callback, data) =>
      var r := Registration(fd, if callback != 0 then POLL_CALLBACK else ident, events, callback, data, s.issued + 1);
      s.(tables := Replace(s.tables, r), kernel := s.kernel[fd := r.token],
         issued := s.issued + 1, born := s.born[r.token := r])
    case AddFails => s.(issued := s.issued + 1)
    case RemoveFd(fd) => s.(tables := Remove(s.tables, fd), kernel := s.kernel - {fd})
    case CloseFd(fd) => s.(kernel := s.kernel - {fd})
    case Fetch(ready) =>
      var batch := seq(|ready|, i requires 0 <= i < |ready| && Enabled(s, step) =>
                         Event(s.serial + i, s.tables.registrations[s.kernel[ready[i].0]], ready[i].1));
      s.(poller := Fetched(batch), serial := s.serial + |ready|)
    case Collect => s.(poller := Dispatching(Found(s.tables, s.poller.batch), 0))
    case Dispatch(keep) =>
      var r := s.poller.responses[s.poller.done].registration;
      var s' := s.(poller := s.poller.(done := s.poller.done + 1));
      if r.callback != 0 && !keep && r.fd in s.tables.tokenByFd && s.tables.tokenByFd[r.fd] == r.token
      then s'.(tables := Remove(s.tables, r.fd), kernel := s.kernel - {r.fd})
      else s'
    case Nest => s.(poller := Idle, suspended := s.suspended + [s.poller], nested := true)
    case Unnest =>
      var outer := |s.suspended| - 1;
      s.(poller := s.suspended[outer], suspended := s.suspended[..outer])
    case Enqueue =>
      var idents := Idents(s.poller.responses);
      s.(poller := Idle, pending := s.pending + idents, enqueued := s.enqueued + idents)
    case Take =>
      var q, s' := s.pending[0], s.(pending := s.pending[1..]);
      if Takeable(s.tables, Response(q.registration, q.event.events))
      then s'.(taken := s.taken + [q], takenAt := s.takenAt + [Position(s)]) else s'
  }

  /** Where the oldest pending entry is among all that were queued. */
  function Position(s: State): nat {
    if |s.pending| <= |s.enqueued| then |s.enqueued| - |s.pending| else 0
  }

  /** The events the poll has not queued yet. */
  function InFlight(p: Poller): seq<Queued> {
    match p
    case Idle => []
    case Fetched(batch) => seq(|batch|, i requires 0 <= i < |batch| => Queued(batch[i], batch[i].producer))
    case Dispatching(responses, _) => responses
  }

  /** Serial numbers grow along the sequence, so it is in order and has no event twice. */
  ghost predicate InOrder(qs: seq<Queued>) {
    forall i, j :: 0 <= i < j < |qs| ==> qs[i].event.serial < qs[j].event.serial
  }

  ghost predicate Before(a: seq<Queued>, bound: nat) {
    forall i :: 0 <= i < |a| ==> a[i].event.serial < bound
  }

  ghost predicate Precedes(a: seq<Queued>, b: seq<Queued>) {
    forall i, j :: 0 <= i < |a| && 0 <= j < |b| ==> a[i].event.serial < b[j].event.serial
  }

  /** The entry refers to a registration that existed, and found the very one that produced its event. */
  ghost predicate Genuine(born: map<nat, Registration>, q: Queued) {
    && q.registration == q.event.producer
    && q.event.producer.token in born
    && born[q.event.producer.token] == q.event.producer
  }

  ghost predicate AllGenuine(born: map<nat, Registration>, qs: seq<Queued>) {
    forall i :: 0 <= i < |qs| ==> Genuine(born, qs[i])
  }

  ghost predicate TokensUnique(s: State) {
    && Mirrored(s.tables)
    && (forall t :: t in s.born ==> 1 <= t <= s.issued && s.born[t].token == t)
    && (forall t :: t in s.tables.registrations ==> t in s.born && s.born[t] == s.tables.registrations[t])
    && (forall fd :: fd in s.kernel ==> fd in s.tables.tokenByFd && s.kernel[fd] == s.tables.tokenByFd[fd])
    && s.issued <= MAX_TOKEN
  }

  /** No event is in both. */
  ghost predicate Apart(a: seq<Queued>, b: seq<Queued>) {
    forall i, j :: 0 <= i < |a| && 0 <= j < |b| ==> a[i].event.serial != b[j].event.serial
  }

  ghost predicate NoneTwice(qs: seq<Queued>) {
    forall i, j :: 0 <= i < j < |qs| ==> qs[i].event.serial != qs[j].event.serial
  }

  /** What one poll holds is genuine, in kernel order, and not queued yet. */
  ghost predicate PollAgrees(s: State, p: Poller) {
    && AllGenuine(s.born, InFlight(p)) && InOrder(InFlight(p)) && Before(InFlight(p), s.serial)
    && Apart(s.enqueued, InFlight(p))
  }

  ghost predicate PollsAgree(s: State) {
    && PollAgrees(s, s.poller)
    && (forall k :: 0 <= k < |s.suspended| ==>
          PollAgrees(s, s.suspended[k]) && Apart(InFlight(s.suspended[k]), InFlight(s.poller)))
    && (forall j, k :: 0 <= j < k < |s.suspended| ==> Apart(InFlight(s.suspended[j]), InFlight(s.suspended[k])))
  }

  /** What was queued is genuine and without repeats; the pending entries are the last of it. */
  ghost predicate QueueAgrees(s: State) {
    && AllGenuine(s.born, s.enqueued) && NoneTwice(s.enqueued) && Before(s.enqueued, s.serial)
    && |s.pending| <= |s.enqueued| && s.pending == s.enqueued[|s.enqueued| - |s.pending|..]
  }

  /** What was handed out came from the queue front to back. */
  ghost predicate TakenAgrees(s: State) {
    && |s.takenAt| == |s.taken| && Increasing(s.takenAt) && |s.pending| <= |s.enqueued|
    && (forall i :: 0 <= i < |s.taken| ==> s.takenAt[i] < Position(s) && s.taken[i] == s.enqueued[s.takenAt[i]])
  }

  /** Without nested polls the queue is in kernel order. */
  ghost predicate OrderAgrees(s: State) {
    !s.nested ==> s.suspended == [] && InOrder(s.enqueued) && Precedes(s.enqueued, InFlight(s.poller))
  }

  ghost predicate Inv(s: State) {
    TokensUnique(s) && PollsAgree(s) && QueueAgrees(s) && TakenAgrees(s) && OrderAgrees(s)
  }

  // ---------------------------------------------------------------- filters

  ghost predicate Member(q: Queued, qs: seq<Queued>) {
    exists j :: 0 <= j < |qs| && qs[j] == q
  }

  ghost predicate Within(a: seq<Queued>, b: seq<Queued>) {
    forall i :: 0 <= i < |a| ==> Member(a[i], b)
  }

  /** Keeping or leaving out the head of an ordered sequence. */
  lemma FilterHead(keep: bool, tail: seq<Queued>, whole: seq<Queued>)
    requires whole != [] && Within(tail, whole[1..]) && InOrder(tail) && InOrder(whole)
    ensures var r := (if keep then [whole[0]] else []) + tail; Within(r, whole) && InOrder(r)
  {
    var rest, r := whole[1..], (if keep then [whole[0]] else []) + tail;
    forall i | 0 <= i < |tail|
      ensures Member(tail[i], whole) && whole[0].event.serial < tail[i].event.serial
    {
      assert Member(tail[i], rest);
      var j :| 0 <= j < |rest| && rest[j] == tail[i];
      assert whole[j + 1] == tail[i];
    }
    if keep {
      assert Member(whole[0], whole);
      assert forall i :: 0 < i < |r| ==> r[i] == tail[i - 1];
    } else {
      assert r == tail;
    }
  }

  lemma {:induction false} FoundKeeps(s: State, batch: seq<Event>)
    requires TokensUnique(s) && AllGenuine(s.born, InFlight(Fetched(batch))) && InOrder(InFlight(Fetched(batch)))
    ensures Within(Found(s.tables, batch), InFlight(Fetched(batch)))
    ensures InOrder(Found(s.tables, batch))
  {
    if batch != [] {
      var whole, rest := InFlight(Fetched(batch)), InFlight(Fetched(batch[1..]));
      assert rest == whole[1..];
      assert Genuine(s.born, whole[0]);
      assert forall i :: 0 <= i < |rest| ==> rest[i] == whole[i + 1];
      FoundKeeps(s, batch[1..]);
      FilterHead(batch[0].producer.token in s.tables.registrations, Found(s.tables, batch[1..]), whole);
    }
  }

  lemma {:induction false} IdentsKeep(responses: seq<Queued>)
    requires InOrder(responses)
    ensures Within(Idents(responses), responses) && InOrder(Idents(responses))
  {
    if responses != [] {
      IdentsKeep(responses[1..]);
      FilterHead(responses[0].registration.callback == 0, Idents(responses[1..]), responses);
    }
  }

  lemma WithinKeeps(a: seq<Queued>, b: seq<Queued>, born: map<nat, Registration>, bound: nat)
    requires Within(a, b) && AllGenuine(born, b) && Before(b, bound)
    ensures AllGenuine(born, a) && Before(a, bound)
    ensures forall earlier :: Precedes(earlier, b) ==> Precedes(earlier, a)
    ensures forall other :: Apart(other, b) ==> Apart(other, a)
  {
    forall i | 0 <= i < |a|
      ensures exists j :: 0 <= j < |b| && a[i] == b[j]
    {
      assert Member(a[i], b);
    }
  }

  // ---------------------------------------------------------------- steps

  lemma BornAdd(s: State, n: State, r: Registration)
    requires TokensUnique(s) && r.token == s.issued + 1
    requires n.tables == Replace(s.tables, r) && n.born == s.born[r.token := r]
    ensures forall t :: t in n.tables.registrations ==> t in n.born && n.born[t] == n.tables.registrations[t]
  {
    hide Mirrored;
  }

  lemma KernelAdd(s: State, n: State, r: Registration)
    requires TokensUnique(s) && n.tables == Replace(s.tables, r) && n.kernel == s.kernel[r.fd := r.token]
    ensures forall fd :: fd in n.kernel ==> fd in n.tables.tokenByFd && n.kernel[fd] == n.tables.tokenByFd[fd]
  {
    hide Mirrored;
  }

  lemma TablesAdd(s: State, n: State, r: Registration)
    requires TokensUnique(s) && s.issued < MAX_TOKEN && r.token == s.issued + 1
    requires n.tables == Replace(s.tables, r) && n.kernel == s.kernel[r.fd := r.token]
    requires n.issued == s.issued + 1 && n.born == s.born[r.token := r]
    ensures TokensUnique(n)
  {
    assert r.token !in s.tables.registrations;
    ReplaceMirrors(s.tables, r);
    BornAdd(s, n, r);
    KernelAdd(s, n, r);
    hide Mirrored, Replace;
  }

  lemma TablesRemove(s: State, n: State, fd: int)
    requires TokensUnique(s) && n.tables == Remove(s.tables, fd) && n.kernel == s.kernel - {fd}
    requires n.issued == s.issued && n.born == s.born
    ensures TokensUnique(n)
  {
    RemoveMirrors(s.tables, fd);
  }

  lemma DispatchTables(s: State, step: Step)
    requires TokensUnique(s) && Enabled(s, step) && step.Dispatch?
    ensures TokensUnique(Apply(s, step)) && Apply(s, step).born == s.born
  {
    hide TokensUnique, Remove;
    var n := Apply(s, step);
    if n.tables != s.tables || n.kernel != s.kernel {
      TablesRemove(s, n, s.poller.responses[s.poller.done].registration.fd);
    } else {
      TokensDependOnTables(s, n);
    }
  }

  /** Adds, removes and closed descriptors keep the tokens unique, and no registration is forgotten. */
  lemma TablesStep(s: State, step: Step)
    requires TokensUnique(s) && Enabled(s, step) && IsTableStep(step)
    ensures TokensUnique(Apply(s, step))
    ensures forall t :: t in s.born ==> t in Apply(s, step).born && Apply(s, step).born[t] == s.born[t]
  {
    assert s.issued <= MAX_TOKEN;
    NextIsUnborn(s);
    hide TokensUnique, Replace, Remove;
    var n := Apply(s, step);
    if step.Add? {
      TablesAdd(s, n, n.born[s.issued + 1]);
    } else if step.AddFails? || step.CloseFd? {
      TablesLose(s, n);
    } else if step.RemoveFd? {
      TablesRemove(s, n, step.target);
    } else {
      DispatchTables(s, step);
    }
  }

  lemma NextIsUnborn(s: State)
    requires TokensUnique(s)
    ensures s.issued + 1 !in s.born
  {
  }

  /** A failed add uses up a token; a closed descriptor leaves the kernel's set. */
  lemma TablesLose(s: State, n: State)
    requires TokensUnique(s) && n.tables == s.tables && n.born == s.born && s.issued <= n.issued <= MAX_TOKEN
    requires forall fd :: fd in n.kernel ==> fd in s.kernel && n.kernel[fd] == s.kernel[fd]
    ensures TokensUnique(n)
  {
    hide Mirrored;
  }

  lemma TokensDependOnTables(s: State, n: State)
    requires TokensUnique(s) && n.tables == s.tables && n.kernel == s.kernel && n.issued == s.issued && n.born == s.born
    ensures TokensUnique(n)
  {
  }

  lemma AllGenuineGrows(born: map<nat, Registration>, born': map<nat, Registration>, qs: seq<Queued>)
    requires AllGenuine(born, qs) && forall t :: t in born ==> t in born' && born'[t] == born[t]
    ensures AllGenuine(born', qs)
  {
  }

  /** The tables may have changed; polls hold what they held, and the queue is the same. */
  lemma SameQueues(s: State, n: State)
    requires Inv(s) && TokensUnique(n) && forall t :: t in s.born ==> t in n.born && n.born[t] == s.born[t]
    requires n.suspended == s.suspended && n.nested == s.nested && n.serial == s.serial && n.pending == s.pending
    requires n.enqueued == s.enqueued && n.taken == s.taken && n.takenAt == s.takenAt
    requires InFlight(n.poller) == InFlight(s.poller)
    ensures Inv(n)
  {
    AllGenuineGrows(s.born, n.born, s.enqueued);
    AllGenuineGrows(s.born, n.born, InFlight(s.poller));
    forall k | 0 <= k < |s.suspended|
      ensures PollAgrees(n, n.suspended[k])
    {
      AllGenuineGrows(s.born, n.born, InFlight(s.suspended[k]));
    }
  }

  /** A poll takes new events: they are later than everything there is. */
  lemma FetchStep(s: State, ready: seq<(int, int)>)
    requires Inv(s) && Enabled(s, Fetch(ready))
    ensures Inv(Apply(s, Fetch(ready)))
  {
    var n := Apply(s, Fetch(ready));
    var fresh' := InFlight(n.poller);
    forall i | 0 <= i < |ready|
      ensures Genuine(n.born, fresh'[i]) && fresh'[i].event.serial == s.serial + i
    {
      assert s.kernel[ready[i].0] in s.tables.registrations;
    }
    LaterIsApart(s.enqueued, fresh', s.serial);
    forall k | 0 <= k < |s.suspended|
      ensures PollAgrees(n, n.suspended[k]) && Apart(InFlight(n.suspended[k]), fresh')
    {
      assert PollAgrees(s, s.suspended[k]);
      LaterIsApart(InFlight(s.suspended[k]), fresh', s.serial);
    }
    hide TokensUnique, Genuine;
    assert PollAgrees(n, n.poller);
  }

  lemma LaterIsApart(a: seq<Queued>, b: seq<Queued>, bound: nat)
    requires Before(a, bound) && forall j :: 0 <= j < |b| ==> b[j].event.serial >= bound
    ensures Apart(a, b) && Precedes(a, b)
  {
  }

  lemma CollectStep(s: State)
    requires Inv(s) && Enabled(s, Collect)
    ensures Inv(Apply(s, Collect))
  {
    var n := Apply(s, Collect);
    FoundKeeps(s, s.poller.batch);
    WithinKeeps(InFlight(n.poller), InFlight(s.poller), s.born, s.serial);
    hide AllGenuine, InOrder, Before, Apart, Precedes, TokensUnique, Found;
    forall k | 0 <= k < |s.suspended|
      ensures PollAgrees(n, n.suspended[k])
    {
      assert PollAgrees(s, s.suspended[k]);
    }
    assert PollAgrees(n, n.poller);
  }

  /** The polls are the same set, and the queue they look at is the same. */
  lemma SamePolls(s: State, n: State)
    requires PollsAgree(s) && n.born == s.born && n.serial == s.serial && n.enqueued == s.enqueued
    requires n.poller == s.poller && n.suspended == s.suspended
    ensures PollsAgree(n)
  {
    hide AllGenuine, InOrder, Before, Apart;
    forall k | 0 <= k < |s.suspended|
      ensures PollAgrees(n, n.suspended[k])
    {
      assert PollAgrees(s, s.suspended[k]);
    }
    assert PollAgrees(n, n.poller);
  }

  /** The innermost poll moves to the stack, or back. */
  lemma PollsNest(s: State, n: State)
    requires PollsAgree(s) && n.born == s.born && n.serial == s.serial && n.enqueued == s.enqueued
    requires n.poller.Idle? && n.suspended == s.suspended + [s.poller]
    ensures PollsAgree(n)
  {
    assert PollAgrees(n, Idle);
    hide AllGenuine, InOrder, Before;
    forall k | 0 <= k < |n.suspended|
      ensures PollAgrees(n, n.suspended[k])
    {
      assert if k < |s.suspended| then PollAgrees(s, s.suspended[k]) else PollAgrees(s, s.poller);
    }
  }

  lemma PollsUnnest(s: State, n: State)
    requires PollsAgree(s) && n.born == s.born && n.serial == s.serial && n.enqueued == s.enqueued
    requires s.suspended == n.suspended + [n.poller]
    ensures PollsAgree(n)
  {
    hide AllGenuine, InOrder, Before, Apart;
    forall k | 0 <= k < |n.suspended|
      ensures PollAgrees(n, n.suspended[k]) && Apart(InFlight(n.suspended[k]), InFlight(n.poller))
    {
      assert PollAgrees(s, s.suspended[k]) && s.suspended[|n.suspended|] == n.poller;
    }
    assert PollAgrees(s, s.suspended[|n.suspended|]) && s.suspended[|n.suspended|] == n.poller;
    forall j, k | 0 <= j < k < |n.suspended|
      ensures Apart(InFlight(n.suspended[j]), InFlight(n.suspended[k]))
    {
      assert n.suspended[j] == s.suspended[j] && n.suspended[k] == s.suspended[k];
    }
  }

  lemma NestStep(s: State, step: Step)
    requires Inv(s) && Enabled(s, step) && (step.Nest? || step.Unnest?)
    ensures Inv(Apply(s, step))
  {
    hide PollsAgree, TokensUnique;
    var n := Apply(s, step);
    if step.Nest? {
      PollsNest(s, n);
    } else {
      PollsUnnest(s, n);
    }
    TokensDependOnTables(s, n);
  }

  lemma ApartConcat(a: seq<Queued>, b: seq<Queued>, c: seq<Queued>)
    requires Apart(a, c) && Apart(b, c)
    ensures Apart(a + b, c)
  {
  }

  lemma ApartFlip(a: seq<Queued>, b: seq<Queued>)
    requires Apart(a, b)
    ensures Apart(b, a)
  {
  }

  lemma EnqueuePolls(s: State, n: State, idents: seq<Queued>)
    requires PollsAgree(s) && n.born == s.born && n.serial == s.serial && n.enqueued == s.enqueued + idents
    requires n.poller.Idle? && n.suspended == s.suspended
    requires forall other :: Apart(other, InFlight(s.poller)) ==> Apart(other, idents)
    ensures PollsAgree(n)
  {
    assert PollAgrees(n, Idle);
    forall k | 0 <= k < |s.suspended|
      ensures PollAgrees(n, n.suspended[k])
    {
      assert PollAgrees(s, s.suspended[k]) && Apart(InFlight(s.suspended[k]), idents);
      ApartFlip(InFlight(s.suspended[k]), idents);
      ApartConcat(s.enqueued, idents, InFlight(s.suspended[k]));
    }
  }

  /** The idents of a batch join the queue. */
  lemma EnqueueStep(s: State)
    requires Inv(s) && Enabled(s, Enqueue)
    ensures Inv(Apply(s, Enqueue))
  {
    var n, idents := Apply(s, Enqueue), Idents(s.poller.responses);
    assert PollAgrees(s, s.poller);
    IdentsKeep(s.poller.responses);
    WithinKeeps(idents, s.poller.responses, s.born, s.serial);
    EnqueuePolls(s, n, idents);
    EnqueueQueue(s, n, idents);
    EnqueueTaken(s, n, idents);
    EnqueueOrder(s, n, idents);
    hide TokensUnique, PollsAgree, QueueAgrees, TakenAgrees, OrderAgrees, Idents;
    TokensDependOnTables(s, n);
  }

  lemma EnqueueQueue(s: State, n: State, idents: seq<Queued>)
    requires QueueAgrees(s) && n.born == s.born && n.serial == s.serial
    requires n.pending == s.pending + idents && n.enqueued == s.enqueued + idents
    requires AllGenuine(s.born, idents) && InOrder(idents) && Before(idents, s.serial) && Apart(s.enqueued, idents)
    ensures QueueAgrees(n) && Position(n) == Position(s)
  {
    hide Genuine;
    assert n.pending == n.enqueued[|n.enqueued| - |n.pending|..];
  }

  lemma EnqueueTaken(s: State, n: State, idents: seq<Queued>)
    requires TakenAgrees(s) && n.taken == s.taken && n.takenAt == s.takenAt && Position(n) == Position(s)
    requires |n.pending| <= |n.enqueued| && n.enqueued == s.enqueued + idents
    ensures TakenAgrees(n)
  {
  }

  lemma EnqueueOrder(s: State, n: State, idents: seq<Queued>)
    requires OrderAgrees(s) && InOrder(idents) && n.nested == s.nested && n.suspended == s.suspended && n.poller.Idle?
    requires n.enqueued == s.enqueued + idents
    requires Precedes(s.enqueued, InFlight(s.poller)) ==> Precedes(s.enqueued, idents)
    ensures OrderAgrees(n)
  {
  }

  lemma TakeQueue(s: State)
    requires QueueAgrees(s) && Enabled(s, Take)
    ensures QueueAgrees(Apply(s, Take)) && s.pending[0] == s.enqueued[Position(s)]
    ensures Position(Apply(s, Take)) == Position(s) + 1
  {
    var n := Apply(s, Take);
    hide AllGenuine, NoneTwice, Before;
    assert n.pending == n.enqueued[|n.enqueued| - |n.pending|..];
  }

  lemma TakeTaken(s: State)
    requires TakenAgrees(s) && Enabled(s, Take) && |s.pending| <= |s.enqueued|
    requires s.pending[0] == s.enqueued[Position(s)] && Position(Apply(s, Take)) == Position(s) + 1
    ensures TakenAgrees(Apply(s, Take))
  {
    hide Takeable;
  }

  lemma TakeStep(s: State)
    requires Inv(s) && Enabled(s, Take)
    ensures Inv(Apply(s, Take))
  {
    var n := Apply(s, Take);
    SamePolls(s, n);
    TokensDependOnTables(s, n);
    TakeQueue(s);
    TakeTaken(s);
    assert OrderAgrees(n) by {
      hide TokensUnique, PollsAgree, QueueAgrees, TakenAgrees, InOrder, Precedes;
    }
    hide TokensUnique, PollsAgree, QueueAgrees, TakenAgrees, OrderAgrees, Apply;
  }

  predicate IsTableStep(step: Step) {
    step.Add? || step.AddFails? || step.RemoveFd? || step.CloseFd? || step.Dispatch?
  }

  lemma TableStepFrame(s: State, step: Step)
    requires Enabled(s, step) && IsTableStep(step)
    ensures var n := Apply(s, step);
            && n == s.(tables := n.tables, kernel := n.kernel, issued := n.issued, born := n.born, poller := n.poller)
            && InFlight(n.poller) == InFlight(s.poller)
  {
    hide Replace, Remove, Found, Idents;
  }

  lemma ApplyKeepsInv(s: State, step: Step)
    requires Inv(s) && Enabled(s, step)
    ensures Inv(Apply(s, step))
  {
    assert TokensUnique(s);
    hide Apply, Enabled, Inv, TokensUnique;
    match step
    case Fetch(ready) => FetchStep(s, ready);
    case Collect => CollectStep(s);
    case Nest => NestStep(s, step);
    case Unnest => NestStep(s, step);
    case Enqueue => EnqueueStep(s);
    case Take => TakeStep(s);
    case _ =>
      TablesStep(s, step);
      TableStepFrame(s, step);
      SameQueues(s, Apply(s, step));
  }

  /** Until the counter wraps, the token search hands out the next number at once. */
  lemma TokensFollow(s: State, token: nat)
    requires TokensUnique(s) && s.issued < MAX_TOKEN
    ensures FirstFree(s.tables.registrations, s.issued + 1, token) <==> token == s.issued + 1
  {
    var next := s.issued + 1;
    assert next !in s.born;
    ProbeStep(next, 0);
    assert Probe(next, 0) == next;
    if FirstFree(s.tables.registrations, next, token) {
      var k: nat :| k < MAX_TOKEN && token == Probe(next, k) &&
                    forall j: nat :: j < k ==> Probe(next, j) in s.tables.registrations;
      assert k == 0;
    }
  }

  /** So a looper whose counter is one past the tokens issued stays so after every add, failed ones included. */
  lemma CounterFollows(s: State, later: nat)
    requires TokensUnique(s) && s.issued < MAX_TOKEN
    ensures SearchMoves(s.tables.registrations, s.issued + 1, later) <==> later == After(s.issued + 1)
    ensures s.issued + 1 < MAX_TOKEN ==> After(s.issued + 1) == Apply(s, AddFails).issued + 1
  {
    TokensFollow(s, s.issued + 1);
    if SearchMoves(s.tables.registrations, s.issued + 1, later) {
      var token: nat :| FirstFree(s.tables.registrations, s.issued + 1, token) && later == After(token);
      TokensFollow(s, token);
    }
  }

  // ------------------------------------------------------------ main results

  ghost predicate IsRun(s: State, steps: seq<Step>, end: State)
    decreases |steps|
  {
    if steps == [] then s == end
    else Enabled(s, steps[0]) && IsRun(Apply(s, steps[0]), steps[1..], end)
  }

  lemma {:induction false} RunKeepsInv(s: State, steps: seq<Step>, end: State)
    requires Inv(s) && IsRun(s, steps, end)
    ensures Inv(end)
    decreases |steps|
  {
    if steps != [] {
      ApplyKeepsInv(s, steps[0]);
      RunKeepsInv(Apply(s, steps[0]), steps[1..], end);
    }
  }

  /** `r` itself is the current registration of its descriptor. */
  ghost predicate Registered(t: Tables, r: Registration) {
    r.fd in t.tokenByFd && t.tokenByFd[r.fd] == r.token && r.token in t.registrations && t.registrations[r.token] == r
  }

  /** An event whose producer is still registered when the batch is looked up is not skipped. */
  lemma {:induction false} CurrentEventsAreFound(tables: Tables, batch: seq<Event>, i: nat)
    requires i < |batch| && Registered(tables, batch[i].producer)
    ensures Queued(batch[i], batch[i].producer) in Found(tables, batch)
  {
    if i > 0 {
      CurrentEventsAreFound(tables, batch[1..], i - 1);
    }
  }

  lemma {:induction false} IdentsAreQueued(responses: seq<Queued>, q: Queued)
    requires q in responses && q.registration.callback == 0
    ensures q in Idents(responses)
  {
    if responses[0] != q {
      IdentsAreQueued(responses[1..], q);
    }
  }

  lemma TakeIsExact(s: State)
    requires TokensUnique(s) && AllGenuine(s.born, s.pending) && Enabled(s, Take)
    ensures var q, n := s.pending[0], Apply(s, Take);
            && n.pending == s.pending[1..]
            && n.taken == if Registered(s.tables, q.event.producer) && q.event.producer.callback == 0
                          then s.taken + [q] else s.taken
  {
    assert Genuine(s.born, s.pending[0]);
  }

  /**
   * In every run that issues fewer than 2^64 tokens, idents leave the queue front to back, no event
   * twice, each for the very registration that produced its event; unless a callback polled, that is
   * the order the kernel produced them in. And the next take hands out the oldest entry exactly when the
   * registration that produced its event is still the current one of its descriptor and has no callback.
   */
  lemma IdentsAreCurrentAndInOrder(steps: seq<Step>, s: State)
    requires IsRun(START, steps, s)
    ensures |s.taken| == |s.takenAt| && Increasing(s.takenAt)
    ensures forall i :: 0 <= i < |s.taken| ==> s.takenAt[i] < |s.enqueued| && s.taken[i] == s.enqueued[s.takenAt[i]]
    ensures NoneTwice(s.taken) && (!s.nested ==> InOrder(s.taken))
    ensures forall i :: 0 <= i < |s.taken| ==> s.taken[i].registration == s.taken[i].event.producer
    ensures Enabled(s, Take) ==>
              var q, n := s.pending[0], Apply(s, Take);
              && n.pending == s.pending[1..]
              && n.taken == if Registered(s.tables, q.event.producer) && q.event.producer.callback == 0
                            then s.taken + [q] else s.taken
  {
    hide IsRun, Enabled, Apply, TokensUnique, Registered, PollsAgree, InOrder, NoneTwice, OrderAgrees;
    StartInv();
    RunKeepsInv(START, steps, s);
    TakenFacts(s);
    if Enabled(s, Take) {
      assert AllGenuine(s.born, s.pending);
      TakeIsExact(s);
    }
  }

  lemma StartInv()
    ensures Inv(START)
  {
  }

  lemma TakenFacts(s: State)
    requires QueueAgrees(s) && TakenAgrees(s) && OrderAgrees(s)
    ensures NoneTwice(s.taken) && (!s.nested ==> InOrder(s.taken))
    ensures forall i :: 0 <= i < |s.taken| ==> s.taken[i].registration == s.taken[i].event.producer
  {
    hide Before, Precedes;
    assert forall i :: 0 <= i < |s.enqueued| ==> Genuine(s.born, s.enqueued[i]);
  }
}
