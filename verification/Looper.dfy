/**
 * The event loop's registrations: two tables that mirror each other and the kernel's poll set, with
 * 64-bit registration tokens that wrap around.
 */
module Looper {
  import opened Outcomes

  const WAKE_TOKEN := 0
  const MAX_TOKEN := 0xFFFF_FFFF_FFFF_FFFF
  const POLL_CALLBACK := -2

  /** Callbacks and data pointers are opaque; callback 0 is null. */
  datatype Registration = Registration(fd: int, ident: int, events: int, callback: int, data: int, token: nat)

  datatype Response = Response(registration: Registration, events: int)

  datatype Tables = Tables(tokenByFd: map<int, nat>, registrations: map<nat, Registration>)

  /** The two tables are inverse to each other, fds match, and 0 is never a token. */
  ghost predicate Mirrored(t: Tables) {
    && (forall fd :: fd in t.tokenByFd ==>
          t.tokenByFd[fd] in t.registrations && t.registrations[t.tokenByFd[fd]].fd == fd)
    && (forall token :: token in t.registrations ==>
          && 1 <= token <= MAX_TOKEN
          && t.registrations[token].token == token
          && t.registrations[token].fd in t.tokenByFd
          && t.tokenByFd[t.registrations[token].fd] == token)
  }

  /** Whatever the kernel still polls carries its current token; the wake fd carries 0. */
  ghost predicate KernelAgrees(t: Tables, kernel: map<int, nat>, wakeFd: int) {
    forall fd :: fd in kernel ==>
      if fd in t.tokenByFd then kernel[fd] == t.tokenByFd[fd] else fd == wakeFd && kernel[fd] == WAKE_TOKEN
  }

  function Replace(t: Tables, r: Registration): Tables {
    var others := if r.fd in t.tokenByFd then t.registrations - {t.tokenByFd[r.fd]} else t.registrations;
    Tables(t.tokenByFd[r.fd := r.token], others[r.token := r])
  }

  function Remove(t: Tables, fd: int): Tables {
    if fd in t.tokenByFd then Tables(t.tokenByFd - {fd}, t.registrations - {t.tokenByFd[fd]}) else t
  }

  predicate IsCurrent(t: Tables, r: Registration) {
    r.fd in t.tokenByFd && t.tokenByFd[r.fd] == r.token && r.token in t.registrations
  }

  lemma ReplaceMirrors(t: Tables, r: Registration)
    requires Mirrored(t) && 1 <= r.token <= MAX_TOKEN && r.token !in t.registrations
    ensures Mirrored(Replace(t, r))
  {
  }

  lemma RemoveMirrors(t: Tables, fd: int)
    requires Mirrored(t)
    ensures Mirrored(Remove(t, fd))
  {
  }

  /** Taking a tentative registration out again leaves the tables as they were. */
  lemma UndoInsert(t: Tables, fd: int, r: Registration)
    requires r.token !in t.registrations
    ensures t.registrations[r.token := r] - {r.token} == t.registrations
    ensures fd in t.tokenByFd ==> t.tokenByFd[fd := r.token][fd := t.tokenByFd[fd]] == t.tokenByFd
    ensures fd !in t.tokenByFd ==> t.tokenByFd[fd := r.token] - {fd} == t.tokenByFd
  {
  }

  /** Retiring the old token last gives the same tables as replacing it at once. */
  lemma InsertThenRetire(t: Tables, r: Registration)
    requires Mirrored(t) && r.token !in t.registrations
    ensures r.fd in t.tokenByFd ==>
              var last := t.tokenByFd[r.fd];
              t.registrations[r.token := r] - {last} == (t.registrations - {last})[r.token := r]
  {
  }

  lemma ReplaceAgrees(t: Tables, kernel: map<int, nat>, wakeFd: int, r: Registration)
    requires KernelAgrees(t, kernel, wakeFd)
    ensures KernelAgrees(Replace(t, r), kernel[r.fd := r.token], wakeFd)
  {
  }

  // ---------------------------------------------------------------- tokens

  /** The token reached after `k` increments, skipping 0 at the wrap. */
  function Probe(next: nat, k: nat): nat
    requires next >= 1
  {
    1 + (next - 1 + k) % MAX_TOKEN
  }

  /** `token` is the first unused one at or after `next`, going around at most once. */
  ghost predicate FirstFree(registrations: map<nat, Registration>, next: nat, token: nat)
    requires next >= 1
  {
    token !in registrations &&
    exists k: nat :: k < MAX_TOKEN && token == Probe(next, k) &&
                     forall j: nat :: j < k ==> Probe(next, j) in registrations
  }

  /** The counter after `token`, skipping 0 at the wrap. */
  function After(token: nat): nat {
    if token == MAX_TOKEN then 1 else token + 1
  }

  /** A search from `next` leaves the counter at `later`. */
  ghost predicate SearchMoves(registrations: map<nat, Registration>, next: nat, later: nat)
    requires next >= 1
  {
    exists token: nat :: FirstFree(registrations, next, token) && later == After(token)
  }

  /** The arguments an add accepts. */
  predicate CanAdd(fd: int, ident: int, callback: int, allowNonCallbacks: bool) {
    && fd >= 0
    && (callback == 0 ==> allowNonCallbacks && ident >= 0)
    && (callback != 0 ==> ident >= 0 || ident == POLL_CALLBACK)
  }

  lemma TokenIsFree(registrations: map<nat, Registration>, next: nat, token: nat)
    requires next >= 1 && FirstFree(registrations, next, token)
    ensures token !in registrations
  {
  }

  lemma ProbeStep(next: nat, k: nat)
    requires 1 <= next <= MAX_TOKEN && k < MAX_TOKEN
    ensures 1 <= Probe(next, k) <= MAX_TOKEN
    ensures Probe(next, k + 1) == if Probe(next, k) == MAX_TOKEN then 1 else Probe(next, k) + 1
    ensures forall j: nat :: j < k ==> Probe(next, j) != Probe(next, k)
  {
    forall j: nat | j < k
      ensures Probe(next, j) != Probe(next, k)
    {
      var a := next - 1 + j;
      assert Probe(next, j) == 1 + (if a < MAX_TOKEN then a else a - MAX_TOKEN);
    }
  }

  /** What one epoll call answers when the entry is in the state it needs. */
  datatype Answer = Granted | Refused

  class ALooper {
    const allowNonCallbacks: bool
    const wakeFd: int
    var tokenByFd: map<int, nat>
    var registrations: map<nat, Registration>
    var nextToken: nat
    var pending: seq<Response>
    /** The kernel's poll set, as far as it can be observed. */
    var kernel: map<int, nat>

    ghost function View(): Tables
      reads this
    {
      Tables(tokenByFd, registrations)
    }

    ghost predicate Valid()
      reads this
    {
      Mirrored(View()) && KernelAgrees(View(), kernel, wakeFd) && 1 <= nextToken <= MAX_TOKEN
    }

    constructor (allowNonCallbacks: bool, wakeFd: int)
      ensures Valid() && View() == Tables(map[], map[]) && pending == [] && nextToken == 1
    {
      this.allowNonCallbacks, this.wakeFd := allowNonCallbacks, wakeFd;
      tokenByFd, registrations, nextToken, pending := map[], map[], 1, [];
      kernel := map[wakeFd := WAKE_TOKEN];
    }

    /** A polled descriptor is closed, which takes it out of the kernel's set. */
    method Vanish(fd: int)
      requires Valid()
      modifies this`kernel
      ensures Valid() && kernel == old(kernel) - {fd}
    {
      kernel := kernel - {fd};
    }

    /** Ends while fewer than 2^64 - 1 tokens are live, also across the wrap. */
    method NextRegistrationToken() returns (token: nat)
      requires 1 <= nextToken <= MAX_TOKEN && |registrations| < MAX_TOKEN
      modifies this`nextToken
      ensures 1 <= token <= MAX_TOKEN && FirstFree(registrations, old(nextToken), token)
      ensures nextToken == After(token)
    {
      ghost var start, k, tried: set<nat> := nextToken, 0, {};
      while true
        invariant 1 <= nextToken <= MAX_TOKEN && k <= |registrations| && nextToken == Probe(start, k)
        invariant tried <= registrations.Keys && |tried| == k
        invariant forall t :: t in tried ==> exists j: nat :: j < k && t == Probe(start, j)
        invariant forall j: nat :: j < k ==> Probe(start, j) in registrations
        decreases |registrations| - k
      {
        token := nextToken;
        ProbeStep(start, k);
        nextToken := After(token);
        if token != WAKE_TOKEN && token !in registrations {
          return;
        }
        tried, k := tried + {token}, k + 1;
        SubsetSize(tried, registrations.Keys);
      }
    }

    /** EPOLL_CTL_ADD or EPOLL_CTL_MOD on one fd; `missing` reports the wrong-state errors. */
    method Control(add: bool, fd: int, token: nat, answer: Answer) returns (ok: bool, missing: bool)
      modifies this`kernel
      ensures missing == (add == (fd in old(kernel)))
      ensures ok == (!missing && answer == Granted)
      ensures kernel == if ok then old(kernel)[fd := token] else old(kernel)
    {
      missing := add == (fd in kernel);
      ok := !missing && answer == Granted;
      if ok {
        kernel := kernel[fd := token];
      }
    }

    /** Adds or replaces a registration; a refused epoll call undoes the table updates. */
    method AddFd(fd: int, ident: int, events: int, callback: int, data: int, first: Answer, second: Answer)
      returns (r: int)
      requires Valid() && |registrations| < MAX_TOKEN
      modifies this`tokenByFd, this`registrations, this`nextToken, this`kernel
      ensures Valid() && (r == 1 || r == -1)
      ensures r == -1 ==> View() == old(View()) && kernel == old(kernel)
      ensures r == 1 ==>
                && fd >= 0 && fd in tokenByFd
                && FirstFree(old(registrations), old(nextToken), tokenByFd[fd])
                && tokenByFd == old(tokenByFd)[fd := tokenByFd[fd]]
                && registrations ==
                   (if fd in old(tokenByFd) then old(registrations) - {old(tokenByFd)[fd]} else old(registrations))
                   [tokenByFd[fd] := Registration(fd, if callback != 0 then -2 else ident, events, callback, data,
                                                  tokenByFd[fd])]
                && kernel == old(kernel)[fd := tokenByFd[fd]]
                && nextToken == After(tokenByFd[fd])
      ensures if CanAdd(fd, ident, callback, allowNonCallbacks)
              then SearchMoves(old(registrations), old(nextToken), nextToken) else nextToken == old(nextToken)
      ensures r == 1 <==>
                && CanAdd(fd, ident, callback, allowNonCallbacks)
                && (if (fd in old(tokenByFd)) == (fd in old(kernel)) then first == Granted else second == Granted)
    {
      hide Mirrored, KernelAgrees, FirstFree;
      var identOk := ident >= 0 || ident == POLL_CALLBACK;
      if fd < 0 || (callback == 0 && (!allowNonCallbacks || ident < 0)) || (callback != 0 && !identOk) {
        return -1;
      }
      ghost var before := View();
      var update := fd in tokenByFd;
      var oldToken := if update then tokenByFd[fd] else 0;
      var token := NextRegistrationToken();
      var shown := if callback != 0 then POLL_CALLBACK else ident;
      var registration := Registration(fd, shown, events, callback, data, token);
      TokenIsFree(registrations, old(nextToken), token);
      UndoInsert(before, fd, registration);
      InsertThenRetire(before, registration);
      registrations := registrations[token := registration];
      tokenByFd := tokenByFd[fd := token];
      var ok, missing := Control(!update, fd, token, first);
      if missing {
        ok, missing := Control(update, fd, token, second);
      }
      if !ok {
        registrations := registrations - {token};
        tokenByFd := if update then tokenByFd[fd := oldToken] else tokenByFd - {fd};
        return -1;
      }
      if update {
        registrations := registrations - {oldToken};
      }
      ReplaceMirrors(before, registration);
      ReplaceAgrees(before, old(kernel), wakeFd, registration);
      return 1;
    }

    /** `expected` 0 accepts any registration of the fd; a real kernel failure keeps everything. */
    method RemoveFd(fd: int, expected: nat, answer: Answer) returns (r: int)
      requires Valid()
      modifies this`tokenByFd, this`registrations, this`kernel
      ensures Valid() && (r == -1 || r == 0 || r == 1)
      ensures r == 1 ==>
                && fd in old(tokenByFd) && tokenByFd == old(tokenByFd) - {fd}
                && registrations == old(registrations) - {old(tokenByFd)[fd]}
                && kernel == old(kernel) - {fd}
      ensures r != 1 ==> View() == old(View()) && kernel == old(kernel)
      ensures r == 0 <==> fd !in old(tokenByFd) || (expected != 0 && old(tokenByFd)[fd] != expected)
      ensures r == -1 <==> r != 0 && fd in old(kernel) && answer == Refused
    {
      if fd !in tokenByFd || (expected != 0 && tokenByFd[fd] != expected) {
        return 0;
      }
      if fd in kernel && answer == Refused {
        return -1;
      }
      RemoveMirrors(View(), fd);
      kernel := kernel - {fd};
      registrations := registrations - {tokenByFd[fd]};
      tokenByFd := tokenByFd - {fd};
      return 1;
    }

    /** The public call: a negative descriptor is refused before anything is looked up. */
    method RemoveDescriptor(fd: int, answer: Answer) returns (r: int)
      requires Valid()
      modifies this`tokenByFd, this`registrations, this`kernel
      ensures Valid() && (r == -1 || r == 0 || r == 1)
      ensures r == 1 <==> fd >= 0 && fd in old(tokenByFd) && (fd in old(kernel) ==> answer == Granted)
      ensures r == 0 <==> fd >= 0 && fd !in old(tokenByFd)
      ensures if r == 1
              then && tokenByFd == old(tokenByFd) - {fd} && kernel == old(kernel) - {fd}
                   && registrations == old(registrations) - {old(tokenByFd)[fd]}
              else View() == old(View()) && kernel == old(kernel)
    {
      if fd < 0 {
        return -1;
      }
      r := RemoveFd(fd, 0, answer);
    }

    /** The oldest queued ident whose registration is still current; stale and callback entries are dropped. */
    method TakePendingIdent() returns (taken: Option<Response>)
      modifies this`pending
      ensures taken.None? ==>
                pending == [] && forall i :: 0 <= i < |old(pending)| ==> !Takeable(View(), old(pending)[i])
      ensures taken.Some? ==>
                var n := |old(pending)| - |pending| - 1;
                && 0 <= n && pending == old(pending)[n + 1..]
                && taken.value == old(pending)[n] && Takeable(View(), taken.value)
                && forall i :: 0 <= i < n ==> !Takeable(View(), old(pending)[i])
    {
      ghost var n := 0;
      while pending != []
        invariant n <= |old(pending)| && pending == old(pending)[n..]
        invariant forall i :: 0 <= i < n ==> !Takeable(View(), old(pending)[i])
        decreases |pending|
      {
        var response := pending[0];
        pending, n := pending[1..], n + 1;
        if IsCurrent(Tables(tokenByFd, registrations), response.registration) && response.registration.callback == 0 {
          return Some(response);
        }
      }
      return None;
    }
  }

  predicate Takeable(t: Tables, r: Response) {
    IsCurrent(t, r.registration) && r.registration.callback == 0
  }

  lemma {:induction false} SubsetSize<T>(a: set<T>, b: set<T>)
    requires a <= b
    ensures |a| <= |b|
  {
    assert b == a + (b - a);
  }

  // ---------------------------------------------------------------- timeouts

  const INT_MAX := 0x7FFF_FFFF
  const NANOSECONDS_PER_MILLISECOND := 1_000_000

  /** Milliseconds to wait when `remaining` nanoseconds are left: rounded up, so never early and never extended. */
  function RemainingPollTimeout(original: int, remaining: int): (ms: int)
    ensures original < 0 ==> ms == -1
    ensures original == 0 || (original > 0 && remaining <= 0) ==> ms == 0
    ensures original > 0 && remaining > 0 ==>
              0 < ms <= INT_MAX && (ms - 1) * NANOSECONDS_PER_MILLISECOND < remaining &&
              (remaining <= ms * NANOSECONDS_PER_MILLISECOND || ms == INT_MAX)
  {
    if original < 0 then -1
    else if original == 0 || remaining <= 0 then 0
    else
      var whole := remaining / NANOSECONDS_PER_MILLISECOND;
      var ms := if whole * NANOSECONDS_PER_MILLISECOND < remaining then whole + 1 else whole;
      if ms < INT_MAX then ms else INT_MAX
  }
}
