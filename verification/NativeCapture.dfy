/** Sinks registered for microphone PCM, and the shared references moved in with them. */
module NativeCapture {
  import opened ControlBlock

  /** A shared pointer as the guest passes it: object and control block, 0 for null. */
  datatype SharedSink = SharedSink(target: int, owner: int)

  const EMPTY := SharedSink(0, 0)

  /** A sink kept by a session; `id` names the reference that was moved in with it. */
  datatype Sink = Sink(target: int, owner: int, id: nat)

  /** Where an unreleased reference is: in a session, or taken out and about to be released. */
  datatype Place = InSession(self: int) | Loose
  datatype Reference = Reference(owner: int, place: Place)

  /** The sessions, plus what happened to every reference ever moved in. */
  datatype Book = Book(
    sessions: map<int, seq<Sink>>,
    loose: seq<Sink>,
    held: map<nat, Reference>,
    released: seq<nat>,
    moved: nat,
    blocks: map<int, Control>)

  function HeldFrom(held: map<nat, Reference>, owner: int): set<nat> {
    set id | id in held && held[id].owner == owner
  }

  ghost predicate HasId(sinks: seq<Sink>, id: nat) {
    exists k :: 0 <= k < |sinks| && sinks[k].id == id
  }

  /** The sinks of one place hold exactly the references recorded there, one each. */
  ghost predicate Matches(sinks: seq<Sink>, held: map<nat, Reference>, place: Place) {
    && (forall k :: 0 <= k < |sinks| ==>
          sinks[k].id in held && held[sinks[k].id] == Reference(sinks[k].owner, place))
    && (forall i, j :: 0 <= i < j < |sinks| ==> sinks[i].id != sinks[j].id)
    && (forall id :: id in held && held[id].place == place ==> HasId(sinks, id))
  }

  /** Each reference moved in is either held, in one place, or was released exactly once. */
  ghost predicate ReferencesBalance(b: Book) {
    && (forall id :: id in b.held ==> id < b.moved && id !in b.released)
    && (forall i, j :: 0 <= i < j < |b.released| ==> b.released[i] != b.released[j])
    && (forall i :: 0 <= i < |b.released| ==> b.released[i] < b.moved)
    && (forall id: nat :: id < b.moved ==> id in b.held || id in b.released)
  }

  /** The control blocks count at least the references held here. */
  ghost predicate BlocksCount(held: map<nat, Reference>, blocks: map<int, Control>) {
    && (forall id :: id in held ==> held[id].owner in blocks)
    && (forall o :: o in blocks ==> blocks[o].Valid() && blocks[o].strong >= |HeldFrom(held, o)|)
  }

  ghost predicate SessionsMatch(b: Book) {
    && (forall self :: self in b.sessions ==>
          b.sessions[self] != [] && Matches(b.sessions[self], b.held, InSession(self)))
    && (forall id :: id in b.held && b.held[id].place.InSession? ==> b.held[id].place.self in b.sessions)
    && Matches(b.loose, b.held, Loose)
  }

  ghost predicate Balanced(b: Book) {
    SessionsMatch(b) && ReferencesBalance(b) && BlocksCount(b.held, b.blocks)
  }

  // ---------------------------------------------------------------- steps

  /** Releases the first loose sink. */
  function ReleaseFirst(b: Book): Book
    requires b.loose != [] && b.loose[0].owner in b.blocks && b.blocks[b.loose[0].owner].strong > 0
  {
    var s := b.loose[0];
    b.(loose := b.loose[1..],
       held := b.held - {s.id},
       released := b.released + [s.id],
       blocks := b.blocks[s.owner := Release(b.blocks[s.owner])])
  }

  lemma LooseIsCounted(b: Book)
    requires Balanced(b) && b.loose != []
    ensures b.loose[0].owner in b.blocks && b.blocks[b.loose[0].owner].strong > 0
  {
    var s := b.loose[0];
    assert s.id in b.held && b.held[s.id].owner == s.owner;
    assert s.id in HeldFrom(b.held, s.owner);
  }

  lemma MatchesElsewhere(sinks: seq<Sink>, held: map<nat, Reference>, held': map<nat, Reference>, place: Place)
    requires Matches(sinks, held, place)
    requires forall id :: id in held && held[id].place == place ==> id in held' && held'[id] == held[id]
    requires forall id :: id in held' && held'[id].place == place ==> id in held && held'[id] == held[id]
    ensures Matches(sinks, held', place)
  {
  }

  lemma MatchesRemove(sinks: seq<Sink>, held: map<nat, Reference>, held': map<nat, Reference>, place: Place, k: nat)
    requires Matches(sinks, held, place) && k < |sinks|
    requires forall id :: id in held' && held'[id].place == place ==>
               id in held && held[id].place == place && id != sinks[k].id
    requires forall id :: id in held && id != sinks[k].id ==> id in held' && held'[id] == held[id]
    ensures Matches(sinks[..k] + sinks[k + 1..], held', place)
  {
    var rest := sinks[..k] + sinks[k + 1..];
    forall id | id in held' && held'[id].place == place
      ensures HasId(rest, id)
    {
      assert HasId(sinks, id);
      var j :| 0 <= j < |sinks| && sinks[j].id == id;
      assert rest[if j < k then j else j - 1].id == id;
    }
  }

  lemma MatchesAppend(sinks: seq<Sink>, held: map<nat, Reference>, held': map<nat, Reference>, place: Place, s: Sink)
    requires Matches(sinks, held, place) && (s.id in held ==> held[s.id].place != place)
    requires held' == held[s.id := Reference(s.owner, place)]
    ensures Matches(sinks + [s], held', place)
  {
    var after := sinks + [s];
    forall id | id in held' && held'[id].place == place
      ensures HasId(after, id)
    {
      if id == s.id {
        assert after[|sinks|].id == id;
      } else {
        assert HasId(sinks, id);
        var j :| 0 <= j < |sinks| && sinks[j].id == id;
        assert after[j].id == id;
      }
    }
  }

  lemma BlocksAfterRelease(held: map<nat, Reference>, blocks: map<int, Control>, id: nat)
    requires BlocksCount(held, blocks) && id in held && blocks[held[id].owner].strong > 0
    ensures BlocksCount(held - {id}, blocks[held[id].owner := Release(blocks[held[id].owner])])
  {
    hide Release;
    var owner := held[id].owner;
    ReleaseDropsOneOwner(blocks[owner]);
    forall o | o in blocks
      ensures |HeldFrom(held - {id}, o)| == |HeldFrom(held, o)| - (if o == owner then 1 else 0)
    {
      if o == owner {
        assert id in HeldFrom(held, o);
        assert HeldFrom(held - {id}, o) == HeldFrom(held, o) - {id};
      } else {
        assert HeldFrom(held - {id}, o) == HeldFrom(held, o);
      }
    }
  }

  lemma BlocksAfterMove(held: map<nat, Reference>, blocks: map<int, Control>, id: nat, place: Place)
    requires BlocksCount(held, blocks) && id in held
    ensures BlocksCount(held[id := Reference(held[id].owner, place)], blocks)
  {
    var held' := held[id := Reference(held[id].owner, place)];
    forall o | o in blocks
      ensures |HeldFrom(held', o)| == |HeldFrom(held, o)|
    {
      assert HeldFrom(held', o) == HeldFrom(held, o);
    }
  }

  lemma BlocksAfterInsert(held: map<nat, Reference>, blocks: map<int, Control>, id: nat, r: Reference)
    requires BlocksCount(held, blocks) && id !in held
    requires r.owner in blocks && blocks[r.owner].strong > |HeldFrom(held, r.owner)|
    ensures BlocksCount(held[id := r], blocks)
  {
    forall o | o in blocks
      ensures |HeldFrom(held[id := r], o)| <= |HeldFrom(held, o)| + (if o == r.owner then 1 else 0)
    {
      if o == r.owner {
        assert HeldFrom(held[id := r], o) == HeldFrom(held, o) + {id};
      } else {
        assert HeldFrom(held[id := r], o) == HeldFrom(held, o);
      }
    }
  }

  lemma LooseIsHeld(b: Book)
    requires SessionsMatch(b) && b.loose != []
    ensures b.loose[0].id in b.held && b.held[b.loose[0].id] == Reference(b.loose[0].owner, Loose)
  {
  }

  /** Dropping a loose reference leaves the sessions' references alone. */
  lemma SessionsElsewhere(b: Book, held': map<nat, Reference>, id: nat, self: int)
    requires SessionsMatch(b) && self in b.sessions && id in b.held && b.held[id].place.Loose? && held' == b.held - {id}
    ensures Matches(b.sessions[self], held', InSession(self))
  {
    hide Matches;
    MatchesElsewhere(b.sessions[self], b.held, held', InSession(self));
  }

  lemma LooseWithoutFirst(b: Book, held': map<nat, Reference>)
    requires SessionsMatch(b) && b.loose != [] && held' == b.held - {b.loose[0].id}
    ensures Matches(b.loose[1..], held', Loose)
  {
    hide Matches;
    MatchesRemove(b.loose, b.held, held', Loose, 0);
    assert b.loose[1..] == b.loose[..0] + b.loose[1..];
  }

  /** The sessions are the same; one loose reference is gone. */
  lemma SessionsWithoutLoose(b: Book, n: Book)
    requires SessionsMatch(b) && b.loose != [] && b.loose[0].id in b.held && b.held[b.loose[0].id].place.Loose?
    requires n.held == b.held - {b.loose[0].id} && n.sessions == b.sessions && n.loose == b.loose[1..]
    ensures SessionsMatch(n)
  {
    LooseWithoutFirst(b, n.held);
    forall self | self in n.sessions
      ensures n.sessions[self] != [] && Matches(n.sessions[self], n.held, InSession(self))
    {
      SessionsElsewhere(b, n.held, b.loose[0].id, self);
    }
    hide Matches;
  }

  lemma ReleaseFirstSessions(b: Book)
    requires SessionsMatch(b) && b.loose != []
    requires b.loose[0].owner in b.blocks && b.blocks[b.loose[0].owner].strong > 0
    ensures SessionsMatch(ReleaseFirst(b))
  {
    LooseIsHeld(b);
    hide Release, SessionsMatch;
    SessionsWithoutLoose(b, ReleaseFirst(b));
  }

  lemma ReleaseFirstReferences(b: Book)
    requires ReferencesBalance(b) && b.loose != [] && b.loose[0].id in b.held
    requires b.loose[0].owner in b.blocks && b.blocks[b.loose[0].owner].strong > 0
    ensures ReferencesBalance(ReleaseFirst(b))
  {
    hide Release;
  }

  lemma ReleaseFirstBalances(b: Book)
    requires Balanced(b) && b.loose != []
    requires b.loose[0].owner in b.blocks && b.blocks[b.loose[0].owner].strong > 0
    ensures Balanced(ReleaseFirst(b))
  {
    LooseIsHeld(b);
    hide Release, SessionsMatch, BlocksCount, ReferencesBalance;
    ReleaseFirstSessions(b);
    ReleaseFirstReferences(b);
    BlocksAfterRelease(b.held, b.blocks, b.loose[0].id);
  }

  lemma GuestBlocks(held: map<nat, Reference>, blocks: map<int, Control>, owner: int, step: Step)
    requires BlocksCount(held, blocks) && owner in blocks && Enabled(blocks[owner], step)
    requires step == DropStrong ==> blocks[owner].strong > |HeldFrom(held, owner)|
    ensures BlocksCount(held, blocks[owner := Apply(blocks[owner], step)])
  {
    hide HeldFrom;
  }

  lemma GuestFrame(b: Book, n: Book)
    requires SessionsMatch(b) && ReferencesBalance(b) && n == b.(blocks := n.blocks)
    ensures SessionsMatch(n) && ReferencesBalance(n)
  {
  }

  /** Takes sink `k` out of a session, closing the session when it was the last one. */
  function TakeOut(b: Book, self: int, k: nat): Book
    requires self in b.sessions && k < |b.sessions[self]|
  {
    var sinks := b.sessions[self];
    var rest := sinks[..k] + sinks[k + 1..];
    b.(sessions := if rest == [] then b.sessions - {self} else b.sessions[self := rest],
       loose := b.loose + [sinks[k]],
       held := b.held[sinks[k].id := Reference(sinks[k].owner, Loose)])
  }

  lemma SessionSinkIsHeld(b: Book, self: int, k: nat)
    requires SessionsMatch(b) && self in b.sessions && k < |b.sessions[self]|
    ensures var s := b.sessions[self][k]; s.id in b.held && b.held[s.id] == Reference(s.owner, InSession(self))
  {
    assert Matches(b.sessions[self], b.held, InSession(self));
  }

  /** The reference `id` moves from session `self` to the loose ones. */
  ghost predicate Moved(held: map<nat, Reference>, held': map<nat, Reference>, id: nat, self: int) {
    id in held && held[id].place == InSession(self) && held' == held[id := Reference(held[id].owner, Loose)]
  }

  lemma OtherSessionMatches(b: Book, held': map<nat, Reference>, id: nat, self: int, other: int)
    requires SessionsMatch(b) && Moved(b.held, held', id, self) && other in b.sessions && other != self
    ensures Matches(b.sessions[other], held', InSession(other))
  {
    hide Matches;
    MatchesElsewhere(b.sessions[other], b.held, held', InSession(other));
  }

  lemma ThisSessionMatches(b: Book, held': map<nat, Reference>, self: int, k: nat)
    requires SessionsMatch(b) && self in b.sessions && k < |b.sessions[self]|
    requires Moved(b.held, held', b.sessions[self][k].id, self)
    ensures Matches(b.sessions[self][..k] + b.sessions[self][k + 1..], held', InSession(self))
  {
    hide Matches;
    MatchesRemove(b.sessions[self], b.held, held', InSession(self), k);
  }

  lemma LooseMatches(b: Book, held': map<nat, Reference>, s: Sink, self: int)
    requires SessionsMatch(b) && Moved(b.held, held', s.id, self) && b.held[s.id].owner == s.owner
    ensures Matches(b.loose + [s], held', Loose)
  {
    hide Matches;
    MatchesAppend(b.loose, b.held, held', Loose, s);
  }

  /** Each reference in a session is in one that is still open. */
  lemma SessionsStayOpen(b: Book, n: Book, self: int, k: nat)
    requires SessionsMatch(b) && self in b.sessions && k < |b.sessions[self]| && n == TakeOut(b, self, k)
    requires Moved(b.held, n.held, b.sessions[self][k].id, self)
    requires self !in n.sessions ==> Matches([], n.held, InSession(self))
    ensures forall id :: id in n.held && n.held[id].place.InSession? ==> n.held[id].place.self in n.sessions
  {
    if self !in n.sessions {
      MatchesNone(n.held, InSession(self));
    }
    hide Matches;
  }

  lemma TakeOutSessions(b: Book, self: int, k: nat)
    requires SessionsMatch(b) && self in b.sessions && k < |b.sessions[self]|
    ensures SessionsMatch(TakeOut(b, self, k))
    ensures var s := b.sessions[self][k]; s.id in b.held && b.held[s.id].owner == s.owner
  {
    var n, s := TakeOut(b, self, k), b.sessions[self][k];
    SessionSinkIsHeld(b, self, k);
    assert Moved(b.held, n.held, s.id, self);
    ThisSessionMatches(b, n.held, self, k);
    LooseMatches(b, n.held, s, self);
    SessionsStayOpen(b, n, self, k);
    forall other | other in n.sessions && other != self
      ensures n.sessions[other] == b.sessions[other] && n.sessions[other] != []
      ensures Matches(n.sessions[other], n.held, InSession(other))
    {
      OtherSessionMatches(b, n.held, s.id, self, other);
    }
    hide Matches, Moved;
  }

  lemma MatchesNone(held: map<nat, Reference>, place: Place)
    ensures Matches([], held, place) <==> forall id :: id in held ==> held[id].place != place
  {
    assert forall id :: !HasId([], id);
  }

  lemma TakeOutBalances(b: Book, self: int, k: nat)
    requires Balanced(b) && self in b.sessions && k < |b.sessions[self]|
    ensures Balanced(TakeOut(b, self, k))
  {
    TakeOutSessions(b, self, k);
    hide SessionsMatch, BlocksCount;
    var s := b.sessions[self][k];
    BlocksAfterMove(b.held, b.blocks, s.id, Loose);
  }

  /** Registers a sink, moving the caller's reference in. */
  function MoveIn(b: Book, self: int, sink: SharedSink): Book {
    var sinks := if self in b.sessions then b.sessions[self] else [];
    b.(sessions := b.sessions[self := sinks + [Sink(sink.target, sink.owner, b.moved)]],
       held := b.held[b.moved := Reference(sink.owner, InSession(self))],
       moved := b.moved + 1)
  }

  lemma MoveInSessions(b: Book, self: int, sink: SharedSink)
    requires SessionsMatch(b) && b.moved !in b.held
    ensures SessionsMatch(MoveIn(b, self, sink))
  {
    var n := MoveIn(b, self, sink);
    var sinks := if self in b.sessions then b.sessions[self] else [];
    MatchesNone(b.held, InSession(self));
    hide Matches;
    MatchesAppend(sinks, b.held, n.held, InSession(self), Sink(sink.target, sink.owner, b.moved));
    MatchesElsewhere(b.loose, b.held, n.held, Loose);
    forall other | other in b.sessions && other != self
      ensures Matches(b.sessions[other], n.held, InSession(other))
    {
      MatchesElsewhere(b.sessions[other], b.held, n.held, InSession(other));
    }
  }

  lemma MoveInReferences(b: Book, self: int, sink: SharedSink)
    requires ReferencesBalance(b)
    ensures ReferencesBalance(MoveIn(b, self, sink)) && b.moved !in b.held
  {
  }

  lemma MoveInBalances(b: Book, self: int, sink: SharedSink)
    requires Balanced(b)
    requires sink.owner in b.blocks && b.blocks[sink.owner].strong > |HeldFrom(b.held, sink.owner)|
    ensures Balanced(MoveIn(b, self, sink))
  {
    hide SessionsMatch, BlocksCount, ReferencesBalance, HeldFrom;
    MoveInReferences(b, self, sink);
    MoveInSessions(b, self, sink);
    BlocksAfterInsert(b.held, b.blocks, b.moved, Reference(sink.owner, InSession(self)));
  }

  /** With no session left, every reference ever moved in has been released, and just once. */
  lemma OnceInDistinct(xs: seq<nat>, x: nat)
    requires x in xs && forall i, j :: 0 <= i < j < |xs| ==> xs[i] != xs[j]
    ensures multiset(xs)[x] == 1
  {
    var k :| 0 <= k < |xs| && xs[k] == x;
    var before, after := xs[..k], xs[k + 1..];
    assert xs == before + [x] + after;
    assert x !in before && x !in after;
    assert multiset(xs) == multiset(before) + multiset([x]) + multiset(after);
  }

  lemma AllReleasedOnce(b: Book, id: nat)
    requires Balanced(b) && b.sessions == map[] && b.loose == [] && id < b.moved
    ensures multiset(b.released)[id] == 1
  {
    assert id !in b.held by {
      MatchesNone(b.held, Loose);
    }
    hide SessionsMatch, BlocksCount;
    OnceInDistinct(b.released, id);
  }

  function IndexOf(sinks: seq<Sink>, target: int): (k: nat)
    ensures k <= |sinks|
    ensures k < |sinks| ==> sinks[k].target == target
    ensures forall j :: 0 <= j < k ==> sinks[j].target != target
  {
    if sinks == [] then 0
    else if sinks[0].target == target then 0
    else 1 + IndexOf(sinks[1..], target)
  }

  /** The references moved in with the sinks, in order. */
  function Ids(sinks: seq<Sink>): seq<nat> {
    seq(|sinks|, k requires 0 <= k < |sinks| => sinks[k].id)
  }

  lemma IdsStep(released: seq<nat>, sinks: seq<Sink>)
    ensures |sinks| == 1 ==> released + [sinks[0].id] == released + Ids(sinks)
    ensures |sinks| > 1 ==> released + [sinks[0].id] + Ids(sinks[1..]) == released + Ids(sinks)
  {
  }

  /** Some sink of the list delivers to `target`. */
  predicate HasTarget(sinks: seq<Sink>, target: int) {
    exists k :: 0 <= k < |sinks| && sinks[k].target == target
  }

  lemma IndexFinds(sinks: seq<Sink>, target: int)
    ensures HasTarget(sinks, target) <==> IndexOf(sinks, target) < |sinks|
  {
  }

  /** A start that succeeds: a target the session already has moves nothing. */
  function Started(b: Book, self: int, sink: SharedSink): Book {
    if self in b.sessions && HasTarget(b.sessions[self], sink.target) then b else MoveIn(b, self, sink)
  }

  /** A stop takes the first sink with the target out and releases it. */
  ghost function Stopped(b: Book, self: int, target: int): Book
    requires Balanced(b) && b.loose == []
  {
    if self in b.sessions && IndexOf(b.sessions[self], target) < |b.sessions[self]| then
      var n := TakeOut(b, self, IndexOf(b.sessions[self], target));
      TakeOutBalances(b, self, IndexOf(b.sessions[self], target));
      LooseIsCounted(n);
      ReleaseFirst(n)
    else b
  }

  /** A second start of the same target succeeds without moving anything. */
  lemma SecondStartMovesNothing(b: Book, self: int, sink: SharedSink, again: SharedSink)
    requires again.target == sink.target
    ensures Started(Started(b, self, sink), self, again) == Started(b, self, sink)
  {
    if !(self in b.sessions && HasTarget(b.sessions[self], sink.target)) {
      var sinks := Started(b, self, sink).sessions[self];
      assert sinks[|sinks| - 1].target == again.target;
    }
  }

  /** The new sink is the only one with its target, and taking it out leaves the earlier ones. */
  lemma NewSinkIsLast(sinks: seq<Sink>, s: Sink)
    requires !HasTarget(sinks, s.target)
    ensures IndexOf(sinks + [s], s.target) == |sinks|
    ensures (sinks + [s])[..|sinks|] + (sinks + [s])[|sinks| + 1..] == sinks
  {
    assert (sinks + [s])[|sinks|].target == s.target;
  }

  lemma SessionRestored(sessions: map<int, seq<Sink>>, self: int, other: seq<Sink>)
    ensures if self in sessions then sessions[self := other][self := sessions[self]] == sessions
            else sessions[self := other] - {self} == sessions
  {
  }

  /** Taking the new sink out again leaves its reference loose and everything else as it was. */
  lemma TakeOutNewSink(b: Book, self: int, sink: SharedSink, sinks: seq<Sink>)
    requires sinks == if self in b.sessions then b.sessions[self] else []
    requires (self in b.sessions ==> sinks != []) && b.loose == [] && !HasTarget(sinks, sink.target)
    ensures IndexOf(MoveIn(b, self, sink).sessions[self], sink.target) == |sinks|
    ensures TakeOut(MoveIn(b, self, sink), self, |sinks|) ==
            b.(loose := [Sink(sink.target, sink.owner, b.moved)], moved := b.moved + 1,
               held := b.held[b.moved := Reference(sink.owner, Loose)])
  {
    hide HasTarget, IndexOf;
    var s := Sink(sink.target, sink.owner, b.moved);
    NewSinkIsLast(sinks, s);
    var n, t := MoveIn(b, self, sink), TakeOut(MoveIn(b, self, sink), self, |sinks|);
    assert n.sessions[self] == sinks + [s];
    SessionRestored(b.sessions, self, sinks + [s]);
    assert t.loose == [s];
  }

  /**
   * A stop of the same target right after a start that moved a reference in releases exactly that
   * reference, once, on its own control block, and leaves every session as it was.
   */
  lemma StopUndoesStart(b: Book, self: int, sink: SharedSink)
    requires Balanced(b) && b.loose == [] && !(self in b.sessions && HasTarget(b.sessions[self], sink.target))
    requires sink.owner in b.blocks && b.blocks[sink.owner].strong > |HeldFrom(b.held, sink.owner)|
    ensures Balanced(Started(b, self, sink))
    ensures Stopped(Started(b, self, sink), self, sink.target) ==
            b.(released := b.released + [b.moved], moved := b.moved + 1,
               blocks := b.blocks[sink.owner := Release(b.blocks[sink.owner])])
  {
    hide Balanced, Release, ReleaseFirst, HeldFrom, IndexOf, MoveIn, TakeOut;
    var sinks := if self in b.sessions then b.sessions[self] else [];
    if self in b.sessions {
      SessionNotEmpty(b, self);
    }
    NextIsNotHeld(b);
    MoveInBalances(b, self, sink);
    MoveInOpens(b, self, sink);
    TakeOutNewSink(b, self, sink, sinks);
    ReleaseOnlyLoose(b, Sink(sink.target, sink.owner, b.moved));
  }

  lemma NextIsNotHeld(b: Book)
    requires Balanced(b)
    ensures b.moved !in b.held
  {
    hide SessionsMatch, BlocksCount;
  }

  lemma ReleaseOnlyLoose(b: Book, s: Sink)
    requires s.id !in b.held && s.id == b.moved && b.loose == []
    requires s.owner in b.blocks && b.blocks[s.owner].strong > 0
    ensures ReleaseFirst(b.(loose := [s], moved := b.moved + 1,
                            held := b.held[b.moved := Reference(s.owner, Loose)])) ==
            b.(released := b.released + [b.moved], moved := b.moved + 1,
               blocks := b.blocks[s.owner := Release(b.blocks[s.owner])])
  {
    hide Release;
    assert b.held[b.moved := Reference(s.owner, Loose)] - {b.moved} == b.held;
  }

  lemma MoveInOpens(b: Book, self: int, sink: SharedSink)
    ensures var n := MoveIn(b, self, sink);
            && self in n.sessions && n.loose == b.loose
            && |n.sessions[self]| == 1 + if self in b.sessions then |b.sessions[self]| else 0
  {
  }

  method FindSink(sinks: seq<Sink>, target: int) returns (k: nat)
    ensures k == IndexOf(sinks, target)
  {
    k := 0;
    while k < |sinks| && sinks[k].target != target
      invariant k <= |sinks| && forall j :: 0 <= j < k ==> sinks[j].target != target
    {
      k := k + 1;
    }
  }

  // ---------------------------------------------------------------- the capture

  class NativeInputCapture {
    const enabled: bool
    var closed: bool
    var sessions: map<int, seq<Sink>>
    var blocks: map<int, Control>
    ghost var held: map<nat, Reference>
    ghost var released: seq<nat>
    var moved: nat
    var loose: seq<Sink>

    ghost function View(): Book
      reads this
    {
      Book(sessions, loose, held, released, moved, blocks)
    }

    ghost predicate Valid()
      reads this
    {
      Balanced(View()) && loose == [] && (closed ==> sessions == map[])
    }

    constructor (enabled: bool)
      ensures Valid() && !closed && sessions == map[] && moved == 0
    {
      this.enabled := enabled;
      closed, sessions, blocks := false, map[], map[];
      held, released, moved, loose := map[], [], 0, [];
    }

    /** A guest thread copies or drops a reference of its own. */
    method Guest(owner: int, step: Step)
      requires Valid() && owner in blocks && Enabled(blocks[owner], step)
      requires step == DropStrong ==> blocks[owner].strong > |HeldFrom(held, owner)|
      modifies this`blocks
      ensures Valid() && blocks == old(blocks)[owner := Apply(old(blocks)[owner], step)]
    {
      GuestBlocks(held, blocks, owner, step);
      hide SessionsMatch, ReferencesBalance, BlocksCount, Apply;
      blocks := blocks[owner := Apply(blocks[owner], step)];
      assert SessionsMatch(View()) && ReferencesBalance(View()) by {
        GuestFrame(old(View()), View());
      }
    }

    method ReleaseLoose()
      requires Balanced(View()) && loose != []
      modifies this`loose, this`held, this`released, this`blocks
      ensures Balanced(View())
      ensures old(loose)[0].owner in old(blocks) && old(blocks)[old(loose)[0].owner].strong > 0
      ensures View() == ReleaseFirst(old(View()))
    {
      hide Balanced, Release;
      LooseIsCounted(View());
      ReleaseFirstBalances(View());
      var s := loose[0];
      blocks := blocks[s.owner := Release(blocks[s.owner])];
      loose, held, released := loose[1..], held - {s.id}, released + [s.id];
    }

    /** `accepted` is the outcome of the vtable checks, `opened` that of opening a capture device. */
    method StartSink(self: int, sink: SharedSink, accepted: bool, deviceOpened: bool)
      returns (ok: bool, left: SharedSink)
      requires Valid()
      requires sink.target != 0 && sink.owner != 0 ==>
                 sink.owner in blocks && blocks[sink.owner].strong > |HeldFrom(held, sink.owner)|
      modifies this`sessions, this`held, this`moved
      ensures Valid()
      ensures ok <==> !old(closed) && enabled && self != 0 && sink.target != 0 && sink.owner != 0 && accepted &&
                      (self in old(sessions) || deviceOpened)
      ensures View() == if ok then Started(old(View()), self, sink) else old(View())
      ensures ok ==> self in sessions &&
                     exists k :: 0 <= k < |sessions[self]| && sessions[self][k].target == sink.target
      ensures if ok && !(self in old(sessions) && HasTarget(old(sessions)[self], sink.target))
              then && left == SharedSink(0, 0) && moved == old(moved) + 1
                   && sessions == old(sessions)[self := (if self in old(sessions) then old(sessions)[self] else []) +
                                                        [Sink(sink.target, sink.owner, old(moved))]]
              else left == sink && moved == old(moved) && sessions == old(sessions)
    {
      hide Balanced, HeldFrom, IndexOf;
      left := sink;
      if closed || !enabled || self == 0 || sink.target == 0 || sink.owner == 0 || !accepted {
        return false, left;
      }
      var sinks: seq<Sink> := [];
      if self in sessions {
        sinks := sessions[self];
        var k := FindSink(sinks, sink.target);
        if k < |sinks| {
          return true, left;
        }
      } else if !deviceOpened {
        return false, left;
      }
      MoveInBalances(View(), self, sink);
      sessions := sessions[self := sinks + [Sink(sink.target, sink.owner, moved)]];
      held, moved := held[moved := Reference(sink.owner, InSession(self))], moved + 1;
      assert sessions[self][|sinks|].target == sink.target;
      return true, EMPTY;
    }

    method StopSink(self: int, target: int)
      requires Valid()
      modifies this
      ensures Valid() && closed == old(closed) && moved == old(moved)
      ensures View() == Stopped(old(View()), self, target)
      ensures if self in old(sessions) && HasTarget(old(sessions)[self], target)
              then var sinks := old(sessions)[self];
                   exists k :: && 0 <= k < |sinks| && sinks[k].target == target
                               && (forall j :: 0 <= j < k ==> sinks[j].target != target)
                               && sessions == (if |sinks| == 1 then old(sessions) - {self}
                                               else old(sessions)[self := sinks[..k] + sinks[k + 1..]])
                               && released == old(released) + [sinks[k].id]
              else View() == old(View())
    {
      hide Balanced;
      if self !in sessions {
        return;
      }
      var sinks := sessions[self];
      var k := FindSink(sinks, target);
      if k == |sinks| {
        return;
      }
      TakeOutBalances(View(), self, k);
      var rest := sinks[..k] + sinks[k + 1..];
      held := held[sinks[k].id := Reference(sinks[k].owner, Loose)];
      loose := loose + [sinks[k]];
      sessions := if rest == [] then sessions - {self} else sessions[self := rest];
      ReleaseLoose();
    }

    /** Releases the first sink of a session; the session goes with its last one. */
    method ReleaseNext(self: int)
      requires Balanced(View()) && loose == [] && self in sessions
      modifies this`sessions, this`held, this`released, this`loose, this`blocks
      ensures Balanced(View()) && loose == [] && old(sessions)[self] != []
      ensures var sinks := old(sessions)[self];
              && released == old(released) + [sinks[0].id]
              && sessions == if |sinks| == 1 then old(sessions) - {self} else old(sessions)[self := sinks[1..]]
    {
      hide Balanced, Release;
      SessionNotEmpty(View(), self);
      TakeOutBalances(View(), self, 0);
      var sinks := sessions[self];
      assert sinks[..0] + sinks[1..] == sinks[1..];
      held := held[sinks[0].id := Reference(sinks[0].owner, Loose)];
      loose := loose + [sinks[0]];
      sessions := if sinks[1..] == [] then sessions - {self} else sessions[self := sinks[1..]];
      ReleaseLoose();
    }

    /** Releases every sink of one session, first to last, and forgets the session. */
    method Close(self: int)
      requires Balanced(View()) && loose == [] && self in sessions
      modifies this`sessions, this`held, this`released, this`loose, this`blocks
      ensures Balanced(View()) && loose == []
      ensures sessions == old(sessions) - {self} && released == old(released) + Ids(old(sessions)[self])
    {
      hide Balanced, Ids;
      while self in sessions
        invariant Balanced(View()) && loose == []
        invariant sessions - {self} == old(sessions) - {self}
        invariant self in sessions ==> released + Ids(sessions[self]) == old(released) + Ids(old(sessions)[self])
        invariant self !in sessions ==> released == old(released) + Ids(old(sessions)[self])
        decreases if self in sessions then |sessions[self]| else 0, self in sessions
      {
        IdsStep(released, sessions[self]);
        ReleaseNext(self);
      }
      assert sessions == sessions - {self};
    }

    method Shutdown()
      requires Valid()
      modifies this
      ensures Valid() && closed && sessions == map[] && moved == old(moved)
      ensures old(released) <= released
      ensures forall id: nat :: id < moved ==> multiset(released)[id] == 1
    {
      closed := true;
      var keys := sessions.Keys;
      while keys != {}
        invariant Balanced(View()) && loose == [] && old(released) <= released && closed && moved == old(moved)
        invariant sessions.Keys == keys
        decreases |keys|
      {
        var self := AnyKey(keys);
        Close(self);
        keys := keys - {self};
      }
      assert sessions == map[];
      forall id: nat | id < moved
        ensures multiset(released)[id] == 1
      {
        AllReleasedOnce(View(), id);
      }
    }
  }

  method AnyKey<T>(keys: set<T>) returns (k: T)
    requires keys != {}
    ensures k in keys
  {
    k :| k in keys;
  }

  lemma SessionNotEmpty(b: Book, self: int)
    requires Balanced(b) && self in b.sessions
    ensures b.sessions[self] != []
  {
  }
}
