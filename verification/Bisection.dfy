/** Finding the constructors that break a library, by trial runs of growing prefixes. */
module Bisection {
  import opened Outcomes

  type Offset = string

  datatype Verdict = Good | Bad | Unknown

  /** One run of the first constructors: the verdict and the offsets its log revealed. */
  datatype Trial = Trial(verdict: Verdict, offsets: map<int, Offset>)

  /** Runs the first `max` constructors without the skipped ones; the last argument numbers the run. */
  type Runner = (nat, seq<Offset>, nat) -> Trial

  /** The library under test: where its constructors are and which of them are bad. */
  datatype Library = Library(offsets: seq<Offset>, bad: set<nat>) {
    ghost predicate Valid() {
      && (forall i, j :: 0 <= i < j < |offsets| ==> offsets[i] != offsets[j])
      && (forall i :: i in bad ==> i < |offsets|)
    }

    /** Constructor `i` is bad and still runs. */
    predicate Live(i: nat, skipped: seq<Offset>) {
      i in bad && i < |offsets| && offsets[i] !in skipped
    }

    predicate PrefixBad(max: nat, skipped: seq<Offset>) {
      exists i :: i in bad && i < max && Live(i, skipped)
    }

    ghost function Remaining(skipped: seq<Offset>): set<nat> {
      set i | i in bad && Live(i, skipped)
    }
  }

  /** A prefix fails just when it runs a bad constructor, and logs every offset in it. */
  ghost predicate Faithful(run: Runner, lib: Library) {
    forall max: nat, skipped: seq<Offset>, n: nat :: max <= |lib.offsets| ==>
      FaithfulTrial(run(max, skipped, n), lib, max, skipped)
  }

  ghost predicate FaithfulTrial(t: Trial, lib: Library, max: nat, skipped: seq<Offset>)
    requires max <= |lib.offsets|
  {
    && t.verdict == (if lib.PrefixBad(max, skipped) then Bad else Good)
    && forall i :: 0 <= i < max ==> i in t.offsets && t.offsets[i] == lib.offsets[i]
  }

  function Lookup(offsets: map<int, Offset>, i: int): Option<Offset> {
    if i in offsets then Some(offsets[i]) else None
  }

  function CeilLog2(n: nat): nat {
    if n <= 1 then 0 else 1 + CeilLog2((n + 1) / 2)
  }

  function Pow2(k: nat): nat {
    if k == 0 then 1 else 2 * Pow2(k - 1)
  }

  lemma {:induction false} CeilLog2IsLogarithm(n: nat)
    requires n >= 1
    ensures n <= Pow2(CeilLog2(n))
    ensures n > 1 ==> Pow2(CeilLog2(n) - 1) < n
  {
    if n > 1 {
      var half := (n + 1) / 2;
      CeilLog2IsLogarithm(half);
      if half > 1 {
        var k := CeilLog2(half);
        assert Pow2(k) == 2 * Pow2(k - 1);
      }
    }
  }

  lemma {:induction false} CeilLog2Monotone(m: nat, n: nat)
    requires m <= n
    ensures CeilLog2(m) <= CeilLog2(n)
  {
    if m > 1 {
      CeilLog2Monotone((m + 1) / 2, (n + 1) / 2);
    }
  }

  /** What one bisection reports: the index, its offset if it could be read, and the failing run. */
  datatype Culprit = Culprit(index: int, offset: Option<Offset>, trial: Trial)

  ghost predicate Smallest(i: int, s: set<nat>) {
    i in s && forall j :: j in s ==> i <= j
  }

  /** What a faithful trial of a prefix tells. */
  lemma TrialTells(run: Runner, lib: Library, max: nat, skipped: seq<Offset>, n: nat)
    requires Faithful(run, lib) && max <= |lib.offsets|
    ensures FaithfulTrial(run(max, skipped, n), lib, max, skipped)
    ensures run(max, skipped, n).verdict == if lib.PrefixBad(max, skipped) then Bad else Good
  {
  }

  lemma NothingRemains(lib: Library, skipped: seq<Offset>)
    requires lib.Valid()
    ensures lib.Remaining(skipped) == {} <==> !lib.PrefixBad(|lib.offsets|, skipped)
  {
    if lib.PrefixBad(|lib.offsets|, skipped) {
      var i :| i in lib.bad && i < |lib.offsets| && lib.Live(i, skipped);
      assert i in lib.Remaining(skipped);
    }
  }

  /** Where a bad prefix follows a good one, the last constructor of the bad one is the smallest that is left. */
  lemma EdgeIsSmallest(lib: Library, skipped: seq<Offset>, high: nat)
    requires lib.Valid() && 0 < high <= |lib.offsets|
    requires lib.PrefixBad(high, skipped) && !lib.PrefixBad(high - 1, skipped)
    ensures Smallest(high - 1, lib.Remaining(skipped))
  {
    var i :| i in lib.bad && i < high && lib.Live(i, skipped);
    assert i == high - 1 && i in lib.Remaining(skipped);
  }

  lemma EmptyPrefixIsGood(lib: Library, skipped: seq<Offset>)
    ensures !lib.PrefixBad(0, skipped)
  {
  }

  lemma HalvesShrink(low: int, high: int)
    requires high - low > 1
    ensures var mid := (low + high) / 2;
            && low < mid < high
            && 1 + CeilLog2(mid - low) <= CeilLog2(high - low) && 1 + CeilLog2(high - mid) <= CeilLog2(high - low)
  {
    var mid := (low + high) / 2;
    CeilLog2Monotone(mid - low, (high - low + 1) / 2);
    CeilLog2Monotone(high - mid, (high - low + 1) / 2);
  }

  method FindFirstBad(run: Runner, count: nat, skipped: seq<Offset>, counter: nat, ghost lib: Library)
    returns (result: Option<Culprit>, full: Trial, next: nat)
    ensures full == run(count, skipped, counter)
    ensures result.None? <==> full.verdict != Bad
    ensures Faithful(run, lib) && lib.Valid() && count == |lib.offsets| ==>
              && (lib.Remaining(skipped) == {} ==> result.None? && full.verdict == Good && next == counter + 1)
              && (lib.Remaining(skipped) != {} ==>
                    && result.Some?
                    && Smallest(result.value.index, lib.Remaining(skipped))
                    && result.value.index < count
                    && result.value.offset == Some(lib.offsets[result.value.index])
                    && next <= counter + 1 + CeilLog2(count))
  {
    ghost var honest := Faithful(run, lib) && lib.Valid() && count == |lib.offsets|;
    full, next := run(count, skipped, counter), counter + 1;
    if honest {
      TrialTells(run, lib, count, skipped, counter);
      NothingRemains(lib, skipped);
      EmptyPrefixIsGood(lib, skipped);
    }
    hide Faithful, CeilLog2, Library.PrefixBad, Library.Remaining, Library.Valid, Smallest;
    if full.verdict != Bad {
      return None, full, next;
    }
    var low, high, lastBad := 0, count, full;
    while high - low > 1
      invariant 0 <= low && high <= count && (low < high || high == count)
      invariant honest ==> low < high
      invariant honest ==> FaithfulTrial(lastBad, lib, high, skipped) && lib.PrefixBad(high, skipped)
      invariant honest ==> !lib.PrefixBad(low, skipped)
      invariant next + CeilLog2(if high > low then high - low else 0) <= counter + 1 + CeilLog2(count)
    {
      var mid := (low + high) / 2;
      HalvesShrink(low, high);
      var trial := run(mid, skipped, next);
      if honest {
        TrialTells(run, lib, mid, skipped, next);
      }
      next := next + 1;
      if trial.verdict == Good {
        low := mid;
      } else {
        high, lastBad := mid, trial;
      }
    }
    var index := high - 1;
    var offset := Lookup(lastBad.offsets, index);
    if honest {
      assert low == index;
      EdgeIsSmallest(lib, skipped, high);
    }
    if offset.None? {
      lastBad, next := run(high, skipped, next), next + 1;
      offset := Lookup(lastBad.offsets, index);
    }
    return Some(Culprit(index, offset, lastBad)), full, next;
  }

  // ------------------------------------------------------- the quarantine list

  datatype Found = Found(index: int, offset: Offset)

  /** `found` lists members of `all` in increasing order, with their offsets, and leaves out only larger ones. */
  ghost predicate SmallestFirst(found: seq<Found>, lib: Library, all: set<nat>) {
    && (forall k :: 0 <= k < |found| ==> found[k].index in all && 0 <= found[k].index < |lib.offsets| &&
                                         found[k].offset == lib.offsets[found[k].index])
    && (forall j, k :: 0 <= j < k < |found| ==> found[j].index < found[k].index)
    && (forall i, k :: i in all && 0 <= k < |found| && i < found[k].index ==> Listed(found, i))
  }

  ghost predicate Listed(found: seq<Found>, i: int) {
    exists k :: 0 <= k < |found| && found[k].index == i
  }

  /** The constructors that still fail are exactly those of `all` not yet listed. */
  ghost predicate Tracks(lib: Library, all: set<nat>, found: seq<Found>, skipped: seq<Offset>) {
    && SmallestFirst(found, lib, all)
    && all <= lib.bad
    && forall i :: i in lib.bad ==> (lib.Live(i, skipped) <==> i in all && !Listed(found, i))
  }

  lemma ListedAppend(found: seq<Found>, f: Found)
    ensures forall i :: Listed(found + [f], i) <==> Listed(found, i) || i == f.index
  {
    var after := found + [f];
    forall i
      ensures Listed(after, i) <==> Listed(found, i) || i == f.index
    {
      if Listed(found, i) {
        var k :| 0 <= k < |found| && found[k].index == i;
        assert after[k].index == i;
      }
      if i == f.index {
        assert after[|found|].index == i;
      }
    }
  }

  /** Quarantining the smallest remaining constructor keeps the list exact. */
  lemma TracksStep(lib: Library, all: set<nat>, found: seq<Found>, skipped: seq<Offset>, index: int)
    requires lib.Valid() && Tracks(lib, all, found, skipped)
    requires Smallest(index, lib.Remaining(skipped)) && 0 <= index < |lib.offsets|
    ensures Tracks(lib, all, found + [Found(index, lib.offsets[index])], skipped + [lib.offsets[index]])
  {
    var f := Found(index, lib.offsets[index]);
    var after, skipped' := found + [f], skipped + [f.offset];
    ListedAppend(found, f);
    assert index in lib.bad && lib.Live(index, skipped);
    forall k | 0 <= k < |found|
      ensures found[k].index < index
    {
      assert Listed(found, found[k].index);
      assert index < found[k].index ==> Listed(found, index);
    }
    forall i, k | i in all && 0 <= k < |after| && i < after[k].index
      ensures Listed(after, i)
    {
      assert !Listed(found, i) ==> i in lib.Remaining(skipped);
    }
    forall i | i in lib.bad
      ensures lib.Live(i, skipped') <==> i in all && !Listed(after, i)
    {
      assert i < |lib.offsets|;
    }
  }

  /** And takes exactly that one out of the remaining ones. */
  lemma RemainingStep(lib: Library, skipped: seq<Offset>, index: int)
    requires lib.Valid() && index in lib.Remaining(skipped) && 0 <= index < |lib.offsets|
    ensures lib.Remaining(skipped + [lib.offsets[index]]) == lib.Remaining(skipped) - {index}
    ensures |lib.Remaining(skipped + [lib.offsets[index]])| == |lib.Remaining(skipped)| - 1
  {
    var before, after := lib.Remaining(skipped), lib.Remaining(skipped + [lib.offsets[index]]);
    forall i: nat
      ensures i in after <==> i in before && i != index
    {
      assert i < |lib.offsets| && i != index ==> lib.offsets[i] != lib.offsets[index];
    }
    assert after == before - {index};
  }

  /** The oracle is honest about the library, and the list so far is exact. */
  ghost predicate Honest(run: Runner, lib: Library, count: nat, all: set<nat>, found: seq<Found>,
                         skipped: seq<Offset>)
  {
    Faithful(run, lib) && lib.Valid() && count == |lib.offsets| && Tracks(lib, all, found, skipped)
  }

  /** The greedy loop: at most `rounds` bisections, each adding its culprit to the skip list. */
  method Quarantine(run: Runner, count: nat, rounds: nat, skipped0: seq<Offset>, found0: seq<Found>, counter0: nat,
                    ghost lib: Library, ghost all: set<nat>)
    returns (found: seq<Found>, skipped: seq<Offset>, clean: bool, counter: nat)
    ensures found0 <= found && skipped0 <= skipped && |found| <= |found0| + rounds
    ensures Honest(run, lib, count, all, found0, skipped0) ==>
              && Tracks(lib, all, found, skipped)
              && (clean <==> |lib.Remaining(skipped0)| < rounds)
              && (clean ==> lib.Remaining(skipped) == {} && |found| == |found0| + |lib.Remaining(skipped0)|)
              && (!clean ==> |found| == |found0| + rounds)
              && counter <= counter0 + rounds * (1 + CeilLog2(count))
  {
    ghost var honest := Honest(run, lib, count, all, found0, skipped0);
    hide CeilLog2, Faithful, Tracks, Library.Remaining;
    ghost var cost := 1 + CeilLog2(count);
    found, skipped, counter, clean := found0, skipped0, counter0, false;
    Budget(0, 0, cost);
    for round := 0 to rounds
      invariant found0 <= found && skipped0 <= skipped && |found| <= |found0| + round
      invariant honest ==> Tracks(lib, all, found, skipped) && |found| == |found0| + round
      invariant honest ==> |lib.Remaining(skipped)| == |lib.Remaining(skipped0)| - round
      invariant honest ==> counter <= counter0 + round * cost
    {
      Budget(round, round + 1, cost);
      var result, full;
      result, full, counter := FindFirstBad(run, count, skipped, counter, lib);
      if result.None? {
        clean := full.verdict == Good;
        Budget(round + 1, rounds, cost);
        return;
      }
      var culprit := result.value;
      if culprit.offset.None? {
        return;
      }
      if honest {
        TracksStep(lib, all, found, skipped, culprit.index);
        RemainingStep(lib, skipped, culprit.index);
      }
      found := found + [Found(culprit.index, culprit.offset.value)];
      skipped := skipped + [culprit.offset.value];
    }
  }

  lemma Budget(a: nat, b: nat, c: nat)
    requires a <= b
    ensures a * c <= b * c && (b == a + 1 ==> b * c == a * c + c) && 0 * c == 0
  {
  }

  // ------------------------------------------------------------ the linear scan

  datatype Scan = Scan(current: nat, skipped: seq<Offset>, found: seq<Found>, counter: nat, stopped: bool)

  /** One pass of the scan loop at `s.current`. */
  function ScanStep(run: Runner, s: Scan): Scan {
    var trial := run(s.current + 1, s.skipped, s.counter);
    var s' := s.(counter := s.counter + 1);
    match trial.verdict
    case Good => s'.(current := s.current + 1)
    case Unknown => s'.(stopped := true)
    case Bad =>
      match Lookup(trial.offsets, s.current)
      case None => s'.(stopped := true)
      case Some(offset) =>
        s'.(found := s.found + [Found(s.current, offset)], skipped := s.skipped + [offset])
  }

  predicate Halted(end: int, s: Scan) {
    s.stopped || s.current >= end
  }

  /** The scan loop, cut off after `n` passes. */
  function ScanLoop(run: Runner, end: int, s: Scan, n: nat): Scan
    decreases n
  {
    if n == 0 || Halted(end, s) then s else ScanLoop(run, end, ScanStep(run, s), n - 1)
  }

  ghost predicate Ends(run: Runner, end: int, s: Scan) {
    exists n: nat :: Halted(end, ScanLoop(run, end, s, n))
  }

  ghost predicate LiveBelow(lib: Library, position: int, skipped: seq<Offset>) {
    exists i: nat :: i < position && lib.Live(i, skipped)
  }

  /**
   * With a live bad constructor below the scan position the loop never moves again: every pass
   * fails for the old reason and quarantines the innocent current constructor once more.
   */
  lemma {:induction false} ScanNeverAdvances(run: Runner, lib: Library, end: int, s: Scan, n: nat, i: nat)
    requires Faithful(run, lib) && lib.Valid() && s.current < end <= |lib.offsets| && !s.stopped
    requires i < s.current && lib.Live(i, s.skipped)
    ensures var t := ScanLoop(run, end, s, n);
            t.current == s.current && !t.stopped && |t.found| == |s.found| + n && lib.Live(i, t.skipped)
    decreases n
  {
    if n > 0 {
      var t := ScanStep(run, s);
      assert FaithfulTrial(run(s.current + 1, s.skipped, s.counter), lib, s.current + 1, s.skipped);
      assert lib.offsets[i] != lib.offsets[s.current];
      ScanNeverAdvances(run, lib, end, t, n - 1, i);
    }
  }

  /** Without one, every pass moves on or quarantines the current constructor for good. */
  lemma {:induction false} ScanAdvances(run: Runner, lib: Library, end: int, s: Scan) returns (n: nat)
    requires Faithful(run, lib) && lib.Valid() && end <= |lib.offsets| && !LiveBelow(lib, s.current, s.skipped)
    ensures Halted(end, ScanLoop(run, end, s, n))
    decreases end - s.current, lib.Live(s.current, s.skipped)
  {
    if Halted(end, s) {
      return 0;
    }
    var t := ScanStep(run, s);
    assert FaithfulTrial(run(s.current + 1, s.skipped, s.counter), lib, s.current + 1, s.skipped);
    assert !LiveBelow(lib, t.current, t.skipped) by {
      assert forall i: nat :: lib.Live(i, t.skipped) ==> lib.Live(i, s.skipped);
    }
    n := ScanAdvances(run, lib, end, t);
    n := n + 1;
  }

  /** The scan ends if and only if it has nothing to do or no bad constructor still runs below its start. */
  lemma ScanEndsIff(run: Runner, lib: Library, end: int, s: Scan)
    requires Faithful(run, lib) && lib.Valid() && end <= |lib.offsets| && !s.stopped
    ensures Ends(run, end, s) <==> s.current >= end || !LiveBelow(lib, s.current, s.skipped)
  {
    if s.current >= end {
      assert Halted(end, ScanLoop(run, end, s, 0));
    } else if LiveBelow(lib, s.current, s.skipped) {
      var i: nat :| i < s.current && lib.Live(i, s.skipped);
      forall n: nat
        ensures !Halted(end, ScanLoop(run, end, s, n))
      {
        ScanNeverAdvances(run, lib, end, s, n, i);
      }
    } else {
      var n := ScanAdvances(run, lib, end, s);
    }
  }

  function ScanStart(from: int): (start: nat)
    ensures from <= start && (start == from || start == 0)
  {
    if from > 0 then from else 0
  }

  function ScanEnd(limit: int, count: nat): (end: int)
    ensures end <= limit && end <= count && (end == limit || end == count)
  {
    if limit < count then limit else count
  }

  /** Those of `s` that a scan from `from` up to `limit` leaves alone. */
  ghost function Beyond(s: set<nat>, count: nat, limit: int, from: int): set<nat> {
    if ScanStart(from) < ScanEnd(limit, count) then set i | i in s && i >= limit else s
  }

  /** Where it ends, the scan has listed exactly the live constructors below its limit, in order. */
  method ScanPrefix(run: Runner, count: nat, limit: int, from: int, skipped0: seq<Offset>, counter0: nat,
                    ghost lib: Library)
    returns (found: seq<Found>, skipped: seq<Offset>, counter: nat)
    requires Faithful(run, lib) && lib.Valid() && count == |lib.offsets|
    requires ScanStart(from) < ScanEnd(limit, count) ==> !LiveBelow(lib, ScanStart(from), skipped0)
    ensures Tracks(lib, lib.Remaining(skipped0), found, skipped)
    ensures lib.Remaining(skipped) == Beyond(lib.Remaining(skipped0), count, limit, from)
    ensures ScanStart(from) >= ScanEnd(limit, count) ==> found == [] && skipped == skipped0 && counter == counter0
    ensures counter <= counter0 + count + |found|
  {
    found, skipped, counter := [], skipped0, counter0;
    if limit <= 0 {
      return;
    }
    var start, end := ScanStart(from), ScanEnd(limit, count);
    var s := Scan(start, skipped0, [], counter0, false);
    hide Faithful, Tracks, Library.Remaining, ScanStep, ScanInv;
    ScanBegins(lib, skipped0, counter0, start, end);
    while s.current < end && !s.stopped
      invariant ScanInv(lib, skipped0, counter0, start, end, s)
      decreases end - s.current, lib.Live(s.current, s.skipped)
    {
      ScanPass(run, lib, skipped0, counter0, start, end, s);
      s := ScanStep(run, s);
    }
    found, skipped, counter := s.found, s.skipped, s.counter;
    ScanResult(lib, skipped0, counter0, start, end, s);
    ScanLeavesTheRest(lib, skipped0, found, skipped, count, limit, from);
  }

  /** How far a scan from `start` to `end` has come. */
  ghost predicate ScanInv(lib: Library, skipped0: seq<Offset>, counter0: nat, start: nat, end: int, s: Scan) {
    && start <= s.current && (s.current <= end || s.current == start) && !s.stopped
    && Tracks(lib, lib.Remaining(skipped0), s.found, s.skipped)
    && (start < end ==> forall i :: i in lib.bad && i < s.current ==> !lib.Live(i, s.skipped))
    && (forall k :: 0 <= k < |s.found| ==> s.found[k].index < end)
    && (start >= end ==> s == Scan(start, skipped0, [], counter0, false))
    && s.counter == counter0 + (s.current - start) + |s.found|
  }

  lemma ScanBegins(lib: Library, skipped0: seq<Offset>, counter0: nat, start: nat, end: int)
    requires lib.Valid() && (start < end ==> !LiveBelow(lib, start, skipped0))
    ensures ScanInv(lib, skipped0, counter0, start, end, Scan(start, skipped0, [], counter0, false))
  {
  }

  /** One pass keeps it, and moves on or disposes of the current constructor. */
  lemma ScanPass(run: Runner, lib: Library, skipped0: seq<Offset>, counter0: nat, start: nat, end: int, s: Scan)
    requires Faithful(run, lib) && lib.Valid() && end <= |lib.offsets|
    requires ScanInv(lib, skipped0, counter0, start, end, s) && s.current < end
    ensures var t := ScanStep(run, s);
            && ScanInv(lib, skipped0, counter0, start, end, t)
            && (t.current > s.current || (t.current == s.current && lib.Live(s.current, s.skipped) &&
                                          !lib.Live(t.current, t.skipped)))
  {
    TrialTells(run, lib, s.current + 1, s.skipped, s.counter);
    hide Faithful;
    if lib.Live(s.current, s.skipped) {
      assert Smallest(s.current, lib.Remaining(s.skipped));
      TracksStep(lib, lib.Remaining(skipped0), s.found, s.skipped, s.current);
    }
    hide Tracks;
  }

  /** What the scan leaves when it is through. */
  lemma ScanResult(lib: Library, skipped0: seq<Offset>, counter0: nat, start: nat, end: int, s: Scan)
    requires ScanInv(lib, skipped0, counter0, start, end, s) && s.current >= end
    ensures !s.stopped && Tracks(lib, lib.Remaining(skipped0), s.found, s.skipped)
    ensures start < end ==> forall i :: i in lib.bad && i < end ==> !lib.Live(i, s.skipped)
    ensures start < end ==> s.current == end
    ensures forall k :: 0 <= k < |s.found| ==> s.found[k].index < end
    ensures start >= end ==> s == Scan(start, skipped0, [], counter0, false)
    ensures s.counter == counter0 + (s.current - start) + |s.found|
  {
  }

  lemma ScanLeavesTheRest(lib: Library, skipped0: seq<Offset>, found: seq<Found>, skipped: seq<Offset>, count: nat,
                          limit: int, from: int)
    requires lib.Valid() && count == |lib.offsets| && Tracks(lib, lib.Remaining(skipped0), found, skipped)
    requires if ScanStart(from) < ScanEnd(limit, count)
             then (forall i :: i in lib.bad && i < ScanEnd(limit, count) ==> !lib.Live(i, skipped)) &&
                  (forall k :: 0 <= k < |found| ==> found[k].index < limit)
             else skipped == skipped0
    ensures lib.Remaining(skipped) == Beyond(lib.Remaining(skipped0), count, limit, from)
  {
    forall i: nat
      ensures i in lib.Remaining(skipped) <==> i in Beyond(lib.Remaining(skipped0), count, limit, from)
    {
      if i in lib.bad {
        assert lib.Live(i, skipped) <==> i in lib.Remaining(skipped0) && !Listed(found, i);
      }
    }
  }

  /** The whole search: a baseline run, the scan, then the greedy loop. */
  method LocateBadConstructors(run: Runner, count: nat, limit: int, from: int, rounds: nat, skipped0: seq<Offset>,
                               ghost lib: Library)
    returns (found: seq<Found>, skipped: seq<Offset>, clean: bool)
    requires Faithful(run, lib) && lib.Valid() && count == |lib.offsets|
    requires ScanStart(from) < ScanEnd(limit, count) ==> !LiveBelow(lib, ScanStart(from), skipped0)
    ensures SmallestFirst(found, lib, lib.Remaining(skipped0))
    ensures clean <==> |Beyond(lib.Remaining(skipped0), count, limit, from)| < rounds
    ensures clean ==> forall i :: i in lib.Remaining(skipped0) ==> Listed(found, i)
    ensures !clean ==> |found| >= rounds
  {
    var baseline := run(0, skipped0, 1);
    assert FaithfulTrial(baseline, lib, 0, skipped0);
    assert baseline.verdict == Good;
    var counter;
    found, skipped, counter := ScanPrefix(run, count, limit, from, skipped0, 2, lib);
    found, skipped, clean, counter :=
      Quarantine(run, count, rounds, skipped, found, counter, lib, lib.Remaining(skipped0));
    assert forall i :: i in lib.Remaining(skipped0) && !Listed(found, i) ==> i in lib.Remaining(skipped);
  }
}
