/** Moving every live microphone capture to another device, all of them or none. */
module MicrophoneSwitch {
  import opened Outcomes

  /** A live capture: its stream, the replacement being prepared, and whether it records. */
  datatype Capture = Capture(stream: nat, replacement: Option<nat>, running: bool)

  /** The open streams; the value says whether the stream is unpaused. */
  type Streams = map<nat, bool>

  /** What a host audio call reports and whether it really took effect. */
  datatype Call = Call(reported: bool, effect: bool)

  /** The answers of the host during one switch, per phase and capture. */
  datatype Host = Host(
    open: nat -> bool, pause: nat -> Call, lock: nat -> bool, start: nat -> Call, restore: nat -> Call)

  /** Every pause that reports success has silenced its stream. */
  ghost predicate PausesWork(h: Host) {
    forall i: nat :: h.pause(i).reported ==> h.pause(i).effect
  }

  ghost predicate StartsWork(h: Host) {
    forall i: nat :: h.start(i).reported ==> h.start(i).effect
  }

  ghost predicate RestoresWork(h: Host) {
    forall i: nat :: h.restore(i).reported ==> h.restore(i).effect
  }

  /** The host opens a replacement for each of the first `n` captures. */
  ghost predicate OpensAll(h: Host, n: nat) {
    forall i :: 0 <= i < n ==> h.open(i)
  }

  /** It reports every old stream paused, and lets each be locked once. */
  ghost predicate SilencesAll(h: Host, n: nat) {
    forall i :: 0 <= i < n ==> h.pause(i).reported && h.lock(i)
  }

  /** It reports every replacement resumed whose capture records. */
  ghost predicate StartsAll(h: Host, captures: seq<Capture>) {
    forall i :: 0 <= i < |captures| && captures[i].running ==> h.start(i).reported
  }

  /** It reports every old stream resumed whose capture records. */
  ghost predicate ResumesAll(h: Host, captures: seq<Capture>) {
    forall i :: 0 <= i < |captures| && captures[i].running ==> h.restore(i).reported
  }

  /** The streams after one pause or resume call. */
  function AfterCall(streams: Streams, id: nat, unpaused: bool, call: Call): Streams {
    if call.effect && id in streams then streams[id := unpaused] else streams
  }

  predicate Unpaused(streams: Streams, id: nat) {
    id in streams && streams[id]
  }

  /** At most one stream of each capture can deliver audio. */
  ghost predicate AtMostOneUnpaused(captures: seq<Capture>, streams: Streams) {
    forall i :: 0 <= i < |captures| && captures[i].replacement.Some? ==>
      !(Unpaused(streams, captures[i].stream) && Unpaused(streams, captures[i].replacement.value))
  }

  ghost predicate AllPaused(captures: seq<Capture>, streams: Streams) {
    forall i :: 0 <= i < |captures| ==> !Unpaused(streams, captures[i].stream)
  }

  datatype Snapshot = Snapshot(captures: seq<Capture>, streams: Streams)

  ghost predicate QuietThroughout(trace: seq<Snapshot>) {
    forall k :: 0 <= k < |trace| ==> AtMostOneUnpaused(trace[k].captures, trace[k].streams)
  }

  /** Two states one host call apart: at most one stream and one capture differ. */
  ghost predicate OneCall(a: Snapshot, b: Snapshot) {
    exists id: nat, i: nat :: DifferAt(a, b, id, i)
  }

  ghost predicate DifferAt(a: Snapshot, b: Snapshot, id: nat, i: nat) {
    && |a.captures| == |b.captures|
    && (forall j :: 0 <= j < |a.captures| && j != i ==> a.captures[j] == b.captures[j])
    && (forall k :: k != id ==> (k in a.streams <==> k in b.streams))
    && (forall k :: k != id && k in a.streams && k in b.streams ==> a.streams[k] == b.streams[k])
  }

  /** From `before` to `now` the trace grew by every state in between, one host call at a time. */
  ghost predicate Recorded(trace0: seq<Snapshot>, before: Snapshot, trace: seq<Snapshot>, now: Snapshot) {
    && trace0 <= trace
    && (if |trace| == |trace0| then now == before
        else OneCall(before, trace[|trace0|]) && trace[|trace| - 1] == now)
    && (forall k :: |trace0| < k < |trace| ==> OneCall(trace[k - 1], trace[k]))
  }

  lemma RecordedNone(trace: seq<Snapshot>, now: Snapshot)
    ensures Recorded(trace, now, trace, now)
  {
  }

  lemma RecordedOne(trace0: seq<Snapshot>, before: Snapshot, trace: seq<Snapshot>, now: Snapshot, next: Snapshot)
    requires Recorded(trace0, before, trace, now) && OneCall(now, next)
    ensures Recorded(trace0, before, trace + [next], next)
  {
    hide OneCall;
  }

  lemma RecordedThen(t0: seq<Snapshot>, a: Snapshot, t1: seq<Snapshot>, b: Snapshot, t2: seq<Snapshot>, c: Snapshot)
    requires Recorded(t0, a, t1, b) && Recorded(t1, b, t2, c)
    ensures Recorded(t0, a, t2, c)
  {
    hide OneCall;
    if |t1| < |t2| {
      assert |t1| > |t0| ==> OneCall(t2[|t1| - 1], t2[|t1|]);
    }
  }

  lemma OneStream(captures: seq<Capture>, streams: Streams, streams': Streams, id: nat)
    requires forall k :: k != id ==> (k in streams <==> k in streams')
    requires forall k :: k != id && k in streams && k in streams' ==> streams[k] == streams'[k]
    ensures OneCall(Snapshot(captures, streams), Snapshot(captures, streams'))
  {
    assert DifferAt(Snapshot(captures, streams), Snapshot(captures, streams'), id, 0);
  }

  lemma OpenIsOneCall(captures: seq<Capture>, i: nat, c: Capture, streams: Streams, id: nat)
    requires i < |captures|
    ensures OneCall(Snapshot(captures, streams), Snapshot(captures[i := c], streams[id := false]))
    ensures OneCall(Snapshot(captures, streams), Snapshot(captures[i := c], streams - {id}))
  {
    OneCapture(captures, captures[i := c], i, streams, streams[id := false], id);
    OneCapture(captures, captures[i := c], i, streams, streams - {id}, id);
  }

  lemma OneCapture(captures: seq<Capture>, captures': seq<Capture>, i: nat, streams: Streams, streams': Streams,
                   id: nat)
    requires i < |captures| == |captures'| && captures' == captures[i := captures'[i]]
    requires forall k :: k != id ==> (k in streams <==> k in streams')
    requires forall k :: k != id && k in streams && k in streams' ==> streams[k] == streams'[k]
    ensures OneCall(Snapshot(captures, streams), Snapshot(captures', streams'))
  {
    assert DifferAt(Snapshot(captures, streams), Snapshot(captures', streams'), id, i);
  }

  ghost predicate Owns(captures: seq<Capture>, id: nat) {
    exists i :: 0 <= i < |captures| && captures[i].stream == id
  }

  /** Outside a switch: one open stream per capture, none shared, none leaked. */
  ghost predicate Settled(captures: seq<Capture>, streams: Streams, nextStream: nat) {
    && (forall i :: 0 <= i < |captures| ==> captures[i].replacement == None && captures[i].stream in streams)
    && (forall i, j :: 0 <= i < j < |captures| ==> captures[i].stream != captures[j].stream)
    && (forall id :: id in streams ==> id < nextStream && Owns(captures, id))
  }

  /** Recording captures are exactly the ones whose stream delivers. */
  ghost predicate RecordsWhatRuns(captures: seq<Capture>, streams: Streams) {
    forall i :: 0 <= i < |captures| ==> (Unpaused(streams, captures[i].stream) <==> captures[i].running)
  }

  /**
   * A switch under way, relative to its start: the first `k` captures have replacements, which are the
   * streams from `base` on, and nothing else was opened or closed.
   */
  ghost predicate Prepared(c0: seq<Capture>, s0: Streams, base: nat, k: nat, captures: seq<Capture>, streams: Streams) {
    && k <= |captures| == |c0|
    && (forall i :: 0 <= i < |c0| ==> captures[i] == c0[i].(replacement := if i < k then Some(base + i) else None))
    && (forall id :: id in streams <==> id in s0 || base <= id < base + k)
  }

  /**
   * The live captures and their streams. Starting and stopping one capture outside a switch is not
   * part of it: `running` is what the guest last asked for.
   */
  class RecordingSubsystem {
    var captures: seq<Capture>
    var streams: Streams
    var nextStream: nat
    var deviceId: nat
    var deviceName: string
    /** Every state the host could observe, oldest first. */
    ghost var trace: seq<Snapshot>

    ghost predicate Valid()
      reads this
    {
      Settled(captures, streams, nextStream)
    }

    constructor ()
      ensures Valid() && captures == [] && deviceId == 0 && deviceName == "default"
    {
      captures, streams, nextStream, deviceId, deviceName, trace := [], map[], 1, 0, "default", [];
    }

    /** Opens a capture; a new stream starts paused. */
    method Create(deviceOpened: bool) returns (ok: bool)
      requires Valid()
      modifies this`captures, this`streams, this`nextStream
      ensures Valid() && ok == deviceOpened
      ensures ok ==> captures == old(captures) + [Capture(old(nextStream), None, false)] &&
                     streams == old(streams)[old(nextStream) := false]
      ensures !ok ==> captures == old(captures) && streams == old(streams)
    {
      if !deviceOpened {
        return false;
      }
      SettledAppend(captures, streams, nextStream);
      streams := streams[nextStream := false];
      captures := captures + [Capture(nextStream, None, false)];
      nextStream := nextStream + 1;
      return true;
    }

    /** Closes one capture and takes it off the list. */
    method Shutdown(i: nat)
      requires Valid() && i < |captures|
      modifies this`captures, this`streams
      ensures Valid()
      ensures captures == old(captures)[..i] + old(captures)[i + 1..]
      ensures streams == old(streams) - {old(captures)[i].stream}
    {
      SettledRemove(captures, streams, nextStream, i);
      streams := streams - {captures[i].stream};
      captures := captures[..i] + captures[i + 1..];
    }

    ghost function Now(): Snapshot
      reads this
    {
      Snapshot(captures, streams)
    }

    /** Records the current state in the trace. */
    ghost method Observe()
      modifies this`trace
      ensures trace == old(trace) + [Snapshot(captures, streams)]
      ensures QuietThroughout(old(trace)) && AtMostOneUnpaused(captures, streams) ==> QuietThroughout(trace)
    {
      trace := trace + [Snapshot(captures, streams)];
    }

    method SetPaused(id: nat, unpaused: bool, call: Call)
      modifies this`streams, this`trace
      ensures streams == AfterCall(old(streams), id, unpaused, call)
      ensures trace == old(trace) + [Snapshot(captures, streams)] && OneCall(old(Now()), Now())
      ensures QuietThroughout(old(trace)) && AtMostOneUnpaused(captures, streams) ==> QuietThroughout(trace)
    {
      if call.effect && id in streams {
        streams := streams[id := unpaused];
      }
      OneStream(captures, old(streams), streams, id);
      hide OneCall;
      Observe();
    }

    /** Opens the replacement of one capture, paused. */
    method PrepareOne(k: nat, ghost c0: seq<Capture>, ghost s0: Streams, ghost base: nat)
      requires Settled(c0, s0, base) && Prepared(c0, s0, base, k, captures, streams) && k < |captures|
      requires nextStream == base + k && NewOnesPaused(s0, streams)
      modifies this`captures, this`streams, this`nextStream, this`trace
      ensures Prepared(c0, s0, base, k + 1, captures, streams) && |captures| == |old(captures)|
      ensures nextStream == base + k + 1 && NewOnesPaused(s0, streams) && AtMostOneUnpaused(captures, streams)
      ensures trace == old(trace) + [Now()] && OneCall(old(Now()), Now())
      ensures QuietThroughout(old(trace)) ==> QuietThroughout(trace)
    {
      hide Settled, Prepared, NewOnesPaused, AtMostOneUnpaused, QuietThroughout, OneCall;
      PreparedStep(c0, s0, base, k, captures, streams);
      OpenIsOneCall(captures, k, captures[k].(replacement := Some(nextStream)), streams, nextStream);
      streams := streams[nextStream := false];
      captures := captures[k := captures[k].(replacement := Some(nextStream))];
      nextStream := nextStream + 1;
      Observe();
    }

    /** Opens replacements until one fails; `k` of them are open. */
    method PrepareAll(h: Host) returns (ok: bool, k: nat)
      requires Valid()
      modifies this`captures, this`streams, this`nextStream, this`trace
      ensures Prepared(old(captures), old(streams), old(nextStream), k, captures, streams)
      ensures nextStream == old(nextStream) + k && k <= |captures| == |old(captures)| && (ok <==> k == |captures|)
      ensures ok <==> OpensAll(h, |old(captures)|)
      ensures Recorded(old(trace), old(Now()), trace, Now())
      ensures NewOnesPaused(old(streams), streams)
      ensures AtMostOneUnpaused(captures, streams)
      ensures QuietThroughout(old(trace)) ==> QuietThroughout(trace)
    {
      hide Prepared, AtMostOneUnpaused, QuietThroughout, Recorded, OneCall, OpensAll, NewOnesPaused, Settled;
      k := 0;
      NothingNew(streams);
      RecordedNone(trace, Now());
      NoneOpened(h);
      PreparedNone(captures, streams, nextStream);
      while k < |captures|
        invariant k <= |captures| == |old(captures)|
        invariant Prepared(old(captures), old(streams), old(nextStream), k, captures, streams)
        invariant nextStream == old(nextStream) + k && AtMostOneUnpaused(captures, streams)
        invariant OpensAll(h, k) && NewOnesPaused(old(streams), streams)
        invariant Recorded(old(trace), old(Now()), trace, Now())
        invariant QuietThroughout(old(trace)) ==> QuietThroughout(trace)
      {
        OpenedOne(h, k, |captures|);
        if !h.open(k) {
          return false, k;
        }
        ghost var before, logged := Now(), trace;
        PrepareOne(k, old(captures), old(streams), old(nextStream));
        RecordedOne(old(trace), old(Now()), logged, before, Now());
        k := k + 1;
      }
      return true, k;
    }

    method PauseAll(h: Host, ghost c0: seq<Capture>, ghost s0: Streams, ghost base: nat) returns (ok: bool)
      requires Prepared(c0, s0, base, |captures|, captures, streams) && PausedFrom(base, streams)
      modifies this`streams, this`trace
      ensures Quieter(base, old(streams), streams)
      ensures ok <==> SilencesAll(h, |captures|)
      ensures Recorded(old(trace), old(Now()), trace, Now())
      ensures ok && PausesWork(h) ==> AllPaused(captures, streams)
      ensures AtMostOneUnpaused(captures, streams)
      ensures QuietThroughout(old(trace)) ==> QuietThroughout(trace)
    {
      PreparedKeeps(c0, s0, base, |captures|, captures, streams, streams);
      assert Quieter(base, streams, streams) && FirstSilent(captures, streams, 0);
      assert forall i :: 0 <= i < |captures| ==> captures[i].replacement == Some(base + i);
      FreshOnesPaused(captures, streams, base);
      hide Prepared, QuietThroughout, AtMostOneUnpaused, AllPaused, Recorded, OneCall, Quieter, FirstSilent;
      hide AfterCall, PausesWork, SilencesAll;
      RecordedNone(trace, Now());
      NoneSilenced(h);
      for i := 0 to |captures|
        invariant Quieter(base, old(streams), streams) && SilencesAll(h, i)
        invariant PausesWork(h) ==> FirstSilent(captures, streams, i)
        invariant AtMostOneUnpaused(captures, streams)
        invariant QuietThroughout(old(trace)) ==> QuietThroughout(trace)
        invariant Recorded(old(trace), old(Now()), trace, Now())
      {
        SilencedOne(h, i, |captures|);
        QuieterStep(base, old(streams), streams, captures, captures[i].stream, h.pause(i));
        SilentStep(h, captures, streams, i);
        ghost var before, logged := Now(), trace;
        SetPaused(captures[i].stream, false, h.pause(i));
        RecordedOne(old(trace), old(Now()), logged, before, Now());
        if !h.pause(i).reported || !h.lock(i) {
          return false;
        }
      }
      AllSilent(captures, streams);
      return true;
    }

    /** Starts the replacement of one capture that records. */
    method StartOne(h: Host, i: nat, ghost base: nat, ghost s0: Streams) returns (ok: bool)
      requires Starting(h, captures, base, s0, i, streams) && i < |captures|
      modifies this`streams, this`trace
      ensures ok == (captures[i].running ==> h.start(i).reported)
      ensures if ok then Starting(h, captures, base, s0, i + 1, streams)
              else !StartsAll(h, captures) && SameBelow(base, s0, streams)
      ensures AllPaused(captures, s0) && AtMostOneUnpaused(captures, old(streams)) ==>
                AtMostOneUnpaused(captures, streams)
      ensures AllPaused(captures, s0) && QuietThroughout(old(trace)) ==> QuietThroughout(trace)
      ensures Recorded(old(trace), old(Now()), trace, Now())
    {
      hide Starting, QuietThroughout, AtMostOneUnpaused, AllPaused, Recorded, OneCall, AfterCall, StartsAll, SameBelow;
      StartingStep(h, captures, base, s0, i, streams);
      RecordedNone(trace, Now());
      ok := true;
      if captures[i].running {
        SetPaused(captures[i].replacement.value, true, h.start(i));
        RecordedOne(old(trace), old(Now()), old(trace), old(Now()), Now());
        ok := h.start(i).reported;
      }
    }

    method StartAll(h: Host, ghost base: nat) returns (ok: bool)
      requires Replaceable(captures, base, streams) && PausedFrom(base, streams)
      modifies this`streams, this`trace
      ensures SameBelow(base, old(streams), streams)
      ensures ok <==> StartsAll(h, captures)
      ensures Recorded(old(trace), old(Now()), trace, Now())
      ensures ok && StartsWork(h) ==> StartedAsNeeded(captures, base, streams)
      ensures AllPaused(captures, old(streams)) ==> AtMostOneUnpaused(captures, streams)
      ensures AllPaused(captures, old(streams)) && QuietThroughout(old(trace)) ==> QuietThroughout(trace)
    {
      PausedIsQuiet(captures, base, old(streams), streams);
      assert Starting(h, captures, base, streams, 0, streams);
      hide QuietThroughout, AtMostOneUnpaused, AllPaused, Recorded, Starting, StartsAll, StartsWork;
      hide SameBelow, StartedAsNeeded;
      RecordedNone(trace, Now());
      ok := true;
      for i := 0 to |captures|
        invariant Starting(h, captures, base, old(streams), i, streams)
        invariant Recorded(old(trace), old(Now()), trace, Now())
        invariant AllPaused(captures, old(streams)) ==> AtMostOneUnpaused(captures, streams)
        invariant AllPaused(captures, old(streams)) && QuietThroughout(old(trace)) ==> QuietThroughout(trace)
      {
        ghost var before, logged := Now(), trace;
        ok := StartOne(h, i, base, old(streams));
        RecordedThen(old(trace), old(Now()), logged, before, trace, Now());
        if !ok {
          return;
        }
      }
      StartedAll(h, captures, base, old(streams), streams);
      return true;
    }

    /** Destroys the replacement of one capture, if it has one. */
    method CancelOne(i: nat, ghost c0: seq<Capture>, ghost s0: Streams, ghost base: nat, ghost k: nat)
      requires Cancelled(c0, s0, base, k, i, captures, streams) && i < |captures| == |c0|
      modifies this`captures, this`streams, this`trace
      ensures Cancelled(c0, s0, base, k, i + 1, captures, streams) && |captures| == |c0|
      ensures LeftFrom(old(streams), streams)
      ensures AtMostOneUnpaused(old(captures), old(streams)) ==> AtMostOneUnpaused(captures, streams)
      ensures QuietThroughout(old(trace)) && AtMostOneUnpaused(old(captures), old(streams)) ==> QuietThroughout(trace)
      ensures Recorded(old(trace), old(Now()), trace, Now())
    {
      hide Cancelled, QuietThroughout, AtMostOneUnpaused, Recorded, OneCall, LeftFrom;
      CancelStep(c0, s0, base, k, i, captures, streams);
      RecordedNone(trace, Now());
      NothingLeft(streams);
      if captures[i].replacement.Some? {
        var id := captures[i].replacement.value;
        LeftWithout(streams, streams, id);
        OpenIsOneCall(captures, i, captures[i].(replacement := None), streams, id);
        streams := streams - {id};
        captures := captures[i := captures[i].(replacement := None)];
        Observe();
        RecordedOne(old(trace), old(Now()), old(trace), old(Now()), Now());
      }
    }

    /** Destroys whatever replacements were opened. */
    method CancelAll(ghost c0: seq<Capture>, ghost s0: Streams, ghost base: nat, ghost k: nat)
      requires Prepared(c0, s0, base, k, captures, streams)
      requires forall id :: id in s0 ==> id < base
      requires forall i :: 0 <= i < |c0| ==> c0[i].replacement == None
      modifies this`captures, this`streams, this`trace
      ensures captures == c0 && streams.Keys == s0.Keys && LeftFrom(old(streams), streams)
      ensures QuietThroughout(old(trace)) && AtMostOneUnpaused(old(captures), old(streams)) ==> QuietThroughout(trace)
      ensures Recorded(old(trace), old(Now()), trace, Now())
    {
      CancelBegins(c0, s0, base, k, captures, streams);
      assert |captures| == |c0|;
      hide Prepared, QuietThroughout, AtMostOneUnpaused, Recorded, Cancelled, LeftFrom;
      NothingLeft(streams);
      RecordedNone(trace, Now());
      for i := 0 to |captures|
        invariant |captures| == |c0| && Cancelled(c0, s0, base, k, i, captures, streams)
        invariant LeftFrom(old(streams), streams)
        invariant AtMostOneUnpaused(old(captures), old(streams)) ==> AtMostOneUnpaused(captures, streams)
        invariant QuietThroughout(old(trace)) && AtMostOneUnpaused(old(captures), old(streams)) ==>
                    QuietThroughout(trace)
        invariant Recorded(old(trace), old(Now()), trace, Now())
      {
        ghost var before, logged := Now(), trace;
        CancelOne(i, c0, s0, base, k);
        RecordedThen(old(trace), old(Now()), logged, before, trace, Now());
        LeftThen(old(streams), before.streams, streams);
      }
      CancelEnds(c0, s0, base, k, captures, streams);
    }

    /** Resumes the old streams; the first refusal ends it. */
    method RestoreAll(h: Host) returns (ok: bool)
      requires forall i :: 0 <= i < |captures| ==> captures[i].replacement == None
      requires forall i, j :: 0 <= i < j < |captures| ==> captures[i].stream != captures[j].stream
      requires forall i :: 0 <= i < |captures| ==> captures[i].stream in streams
      modifies this`streams, this`trace
      ensures streams.Keys == old(streams).Keys
      ensures ok <==> ResumesAll(h, captures)
      ensures Recorded(old(trace), old(Now()), trace, Now())
      ensures ok && RestoresWork(h) ==>
                forall i :: 0 <= i < |captures| && captures[i].running ==> streams[captures[i].stream]
      ensures forall i :: 0 <= i < |captures| && !captures[i].running ==>
                streams[captures[i].stream] == old(streams)[captures[i].stream]
      ensures QuietThroughout(old(trace)) ==> QuietThroughout(trace)
    {
      assert Restoring(h, captures, streams, 0, streams);
      assert forall t: Streams :: AtMostOneUnpaused(captures, t);
      hide QuietThroughout, AtMostOneUnpaused, Recorded, OneCall, Restoring, AfterCall, ResumesAll, RestoresWork;
      RecordedNone(trace, Now());
      for i := 0 to |captures|
        invariant Restoring(h, captures, old(streams), i, streams)
        invariant Recorded(old(trace), old(Now()), trace, Now())
        invariant QuietThroughout(old(trace)) ==> QuietThroughout(trace)
      {
        RestoringStep(h, captures, old(streams), i, streams);
        if captures[i].running {
          ghost var before, logged := Now(), trace;
          SetPaused(captures[i].stream, true, h.restore(i));
          RecordedOne(old(trace), old(Now()), logged, before, Now());
          if !h.restore(i).reported {
            return false;
          }
        }
      }
      RestoredAll(h, captures, old(streams), streams);
      return true;
    }

    /** Destroys the old stream of one capture and adopts its replacement. */
    method CommitOne(i: nat, ghost c0: seq<Capture>, ghost s0: Streams, ghost base: nat)
      requires Settled(c0, s0, base) && Committed(c0, base, i, captures, streams) && i < |captures| == |c0|
      modifies this`captures, this`streams, this`trace
      ensures Committed(c0, base, i + 1, captures, streams) && |captures| == |c0|
      ensures forall id :: id in streams ==> id in old(streams) && streams[id] == old(streams)[id]
      ensures AtMostOneUnpaused(old(captures), old(streams)) ==> AtMostOneUnpaused(captures, streams)
      ensures QuietThroughout(old(trace)) && AtMostOneUnpaused(old(captures), old(streams)) ==> QuietThroughout(trace)
      ensures trace == old(trace) + [Now()] && OneCall(old(Now()), Now())
    {
      hide Committed, AtMostOneUnpaused, QuietThroughout, Settled, OneCall;
      CommitStep(c0, s0, base, i, captures, streams);
      OpenIsOneCall(captures, i, Capture(captures[i].replacement.value, None, captures[i].running), streams,
                    captures[i].stream);
      streams := streams - {captures[i].stream};
      captures := captures[i := Capture(captures[i].replacement.value, None, captures[i].running)];
      Observe();
    }

    method CommitAll(ghost c0: seq<Capture>, ghost s0: Streams, ghost base: nat)
      requires Prepared(c0, s0, base, |captures|, captures, streams) && Settled(c0, s0, base)
      modifies this`captures, this`streams, this`trace
      ensures Committed(c0, base, |c0|, captures, streams)
      ensures Recorded(old(trace), old(Now()), trace, Now())
      ensures forall id :: id in streams ==> id in old(streams) && streams[id] == old(streams)[id]
      ensures QuietThroughout(old(trace)) && AtMostOneUnpaused(old(captures), old(streams)) ==> QuietThroughout(trace)
    {
      CommitStart(c0, s0, base, captures, streams);
      hide Committed, AtMostOneUnpaused, Prepared, QuietThroughout, Settled, Recorded, OneCall;
      RecordedNone(trace, Now());
      for i := 0 to |captures|
        invariant |captures| == |c0| && Committed(c0, base, i, captures, streams)
        invariant forall id :: id in streams ==> id in old(streams) && streams[id] == old(streams)[id]
        invariant AtMostOneUnpaused(old(captures), old(streams)) ==> AtMostOneUnpaused(captures, streams)
        invariant QuietThroughout(old(trace)) && AtMostOneUnpaused(old(captures), old(streams)) ==>
                    QuietThroughout(trace)
        invariant Recorded(old(trace), old(Now()), trace, Now())
      {
        ghost var before, logged := Now(), trace;
        CommitOne(i, c0, s0, base);
        RecordedOne(old(trace), old(Now()), logged, before, Now());
      }
    }

    /** Opens, pauses and starts, stopping at the first failure; `k` replacements are open. */
    method TryReplace(h: Host) returns (ok: bool, k: nat)
      requires Valid()
      modifies this`captures, this`streams, this`nextStream, this`trace
      ensures Prepared(old(captures), old(streams), old(nextStream), k, captures, streams)
      ensures nextStream == old(nextStream) + k && |captures| == |old(captures)| && (ok ==> k == |captures|)
      ensures ok <==> OpensAll(h, |old(captures)|) && SilencesAll(h, |old(captures)|) && StartsAll(h, old(captures))
      ensures Recorded(old(trace), old(Now()), trace, Now())
      ensures NoneLouder(old(streams), streams)
      ensures ok && StartsWork(h) ==> StartedAsNeeded(old(captures), old(nextStream), streams)
      ensures PausesWork(h) && QuietThroughout(old(trace)) ==>
                QuietThroughout(trace) && AtMostOneUnpaused(captures, streams)
    {
      ghost var c0, s0, base := captures, streams, nextStream;
      hide QuietThroughout, AtMostOneUnpaused, AllPaused, Settled, StartsWork, PausesWork, Prepared, NewOnesPaused;
      hide OpensAll, SilencesAll, StartsAll, Recorded, NoneLouder, Quieter, SameBelow, StartedAsNeeded, Replaceable;
      hide PausedFrom;
      ok, k := PrepareAll(h);
      AfterPrepare(c0, s0, base, k, captures, streams);
      if ok {
        ghost var before, logged := Now(), trace;
        ok := PauseAll(h, c0, s0, base);
        RecordedThen(old(trace), old(Now()), logged, before, trace, Now());
        AfterPause(c0, s0, base, captures, before.streams, streams);
        if ok {
          SameRunning(h, c0, captures);
          before, logged := Now(), trace;
          ok := StartAll(h, base);
          RecordedThen(old(trace), old(Now()), logged, before, trace, Now());
          AfterStart(c0, s0, base, captures, before.streams, streams);
        }
      }
    }

    /** Undoes a failed attempt. */
    method RollBack(h: Host, ghost c0: seq<Capture>, ghost s0: Streams, ghost base: nat, ghost k: nat)
      requires Settled(c0, s0, base) && Prepared(c0, s0, base, k, captures, streams)
      requires NoneLouder(s0, streams)
      modifies this`captures, this`streams, this`trace
      ensures captures == c0 && streams.Keys == s0.Keys
      ensures RestoresWork(h) && ResumesAll(h, c0) && RecordsWhatRuns(c0, s0) ==>
                RecordsWhatRuns(captures, streams)
      ensures QuietThroughout(old(trace)) && AtMostOneUnpaused(old(captures), old(streams)) ==> QuietThroughout(trace)
      ensures Recorded(old(trace), old(Now()), trace, Now())
    {
      hide QuietThroughout, Prepared, Recorded;
      CancelAll(c0, s0, base, k);
      ghost var before, logged := Now(), trace;
      var _ := RestoreAll(h);
      RecordedThen(old(trace), old(Now()), logged, before, trace, Now());
    }

    /**
     * `resolved` is the requested device after lookup. Either every capture owns the replacement opened
     * for it and the configuration changes, or everything is as before.
     */
    method Switch(resolved: Option<(nat, string)>, initialized: bool, h: Host) returns (ok: bool)
      requires Valid()
      modifies this
      ensures Valid()
      ensures ok <==>
                && resolved.Some? && initialized
                && OpensAll(h, |old(captures)|) && SilencesAll(h, |old(captures)|) && StartsAll(h, old(captures))
      ensures ok ==> resolved == Some((deviceId, deviceName)) && |captures| == |old(captures)|
      ensures ok ==> forall i :: 0 <= i < |captures| ==>
                captures[i] == old(captures)[i].(stream := old(nextStream) + i) && captures[i].stream !in old(streams)
      ensures !ok ==> captures == old(captures) && streams.Keys == old(streams).Keys &&
                      deviceId == old(deviceId) && deviceName == old(deviceName)
      ensures Recorded(old(trace), old(Now()), trace, Now())
      ensures PausesWork(h) && QuietThroughout(old(trace)) ==> QuietThroughout(trace)
      ensures ok && StartsWork(h) ==> RecordsWhatRuns(captures, streams)
      ensures !ok && RestoresWork(h) && ResumesAll(h, old(captures)) ==>
                (RecordsWhatRuns(old(captures), old(streams)) ==> RecordsWhatRuns(captures, streams))
    {
      hide Prepared, QuietThroughout, AtMostOneUnpaused, Settled, Committed, PausesWork, StartsWork, RestoresWork;
      hide RecordsWhatRuns, OpensAll, SilencesAll, StartsAll, ResumesAll, Recorded;
      RecordedNone(trace, Now());
      if resolved.None? || !initialized {
        return false;
      }
      ghost var c0, s0, base := captures, streams, nextStream;
      var k;
      ok, k := TryReplace(h);
      ghost var middle, logged := Now(), trace;
      if !ok {
        RollBack(h, c0, s0, base, k);
        RecordedThen(old(trace), old(Now()), logged, middle, trace, Now());
        SettledKeepsKeys(c0, s0, base, streams, nextStream);
        return;
      }
      ghost var before := streams;
      CommitAll(c0, s0, base);
      RecordedThen(old(trace), old(Now()), logged, middle, trace, Now());
      SettledCommitted(c0, s0, base, captures, streams);
      if StartsWork(h) {
        CommittedRecords(c0, base, before, captures, streams);
      }
      deviceId, deviceName := resolved.value.0, resolved.value.1;
    }
  }

  // ---------------------------------------------------------------- helpers

  /** The first `i` captures own their replacements; the others still have both streams. */
  ghost predicate Committed(c0: seq<Capture>, base: nat, i: nat, captures: seq<Capture>, streams: Streams) {
    && i <= |captures| == |c0|
    && (forall j :: 0 <= j < i ==> captures[j] == c0[j].(stream := base + j))
    && (forall j :: i <= j < |c0| ==> captures[j] == c0[j].(replacement := Some(base + j)))
    && (forall id :: base <= id < base + |c0| ==> id in streams)
    && (forall id :: id in streams ==> base <= id < base + |c0| || OwnsFrom(c0, i, id))
  }

  ghost predicate OwnsFrom(c0: seq<Capture>, i: nat, id: nat) {
    exists j :: i <= j < |c0| && c0[j].stream == id
  }

  lemma NoneOpened(h: Host)
    ensures OpensAll(h, 0)
  {
  }

  lemma OpenedOne(h: Host, k: nat, n: nat)
    requires k < n && OpensAll(h, k)
    ensures h.open(k) ==> OpensAll(h, k + 1)
    ensures !h.open(k) ==> !OpensAll(h, n)
  {
  }

  /** Replacements that are all paused cannot make a second unpaused stream. */
  lemma FreshOnesPaused(captures: seq<Capture>, streams: Streams, base: nat)
    requires forall i :: 0 <= i < |captures| && captures[i].replacement.Some? ==> captures[i].replacement.value >= base
    requires forall id :: id in streams && id >= base ==> !streams[id]
    ensures AtMostOneUnpaused(captures, streams)
  {
  }

  /** The replacements of the first `i` captures are gone. */
  ghost predicate Cancelled(c0: seq<Capture>, s0: Streams, base: nat, k: nat, i: nat, captures: seq<Capture>,
                            streams: Streams)
  {
    && |captures| == |c0| && k <= |c0|
    && (forall j :: 0 <= j < |c0| ==>
          captures[j] == c0[j].(replacement := if i <= j < k then Some(base + j) else None))
    && (forall id :: id in streams <==> id in s0 || base + i <= id < base + k)
    && (forall id :: id in s0 ==> id < base)
    && (forall j :: 0 <= j < |c0| ==> c0[j].replacement == None)
  }

  lemma CancelBegins(c0: seq<Capture>, s0: Streams, base: nat, k: nat, captures: seq<Capture>, streams: Streams)
    requires Prepared(c0, s0, base, k, captures, streams) && forall id :: id in s0 ==> id < base
    requires forall i :: 0 <= i < |c0| ==> c0[i].replacement == None
    ensures Cancelled(c0, s0, base, k, 0, captures, streams)
  {
  }

  lemma CancelStep(c0: seq<Capture>, s0: Streams, base: nat, k: nat, i: nat, captures: seq<Capture>, streams: Streams)
    requires Cancelled(c0, s0, base, k, i, captures, streams) && i < |c0|
    ensures captures[i].replacement.Some? ==>
              var id := captures[i].replacement.value;
              var captures' := captures[i := captures[i].(replacement := None)];
              && Cancelled(c0, s0, base, k, i + 1, captures', streams - {id})
              && (AtMostOneUnpaused(captures, streams) ==> AtMostOneUnpaused(captures', streams - {id}))
    ensures captures[i].replacement.None? ==> Cancelled(c0, s0, base, k, i + 1, captures, streams)
  {
  }

  lemma CancelEnds(c0: seq<Capture>, s0: Streams, base: nat, k: nat, captures: seq<Capture>, streams: Streams)
    requires Cancelled(c0, s0, base, k, |c0|, captures, streams)
    ensures captures == c0 && streams.Keys == s0.Keys
  {
    assert forall i :: 0 <= i < |c0| ==> captures[i] == c0[i];
  }

  /** The old streams are still open, and none is louder. */
  ghost predicate NoneLouder(s0: Streams, streams: Streams) {
    forall id :: id in s0 ==> id in streams && (streams[id] ==> s0[id])
  }

  /** Whatever is open was open before, and as loud. */
  ghost predicate LeftFrom(s0: Streams, streams: Streams) {
    forall id :: id in streams ==> id in s0 && streams[id] == s0[id]
  }

  lemma NothingLeft(streams: Streams)
    ensures LeftFrom(streams, streams)
  {
  }

  lemma LeftThen(a: Streams, b: Streams, c: Streams)
    requires LeftFrom(a, b) && LeftFrom(b, c)
    ensures LeftFrom(a, c)
  {
  }

  lemma LeftWithout(s0: Streams, streams: Streams, id: nat)
    requires LeftFrom(s0, streams)
    ensures LeftFrom(s0, streams - {id})
  {
  }

  /** Old streams are as loud as before, new ones silent. */
  ghost predicate NewOnesPaused(s0: Streams, streams: Streams) {
    forall id :: id in streams ==> streams[id] == (id in s0 && s0[id])
  }

  lemma NothingNew(streams: Streams)
    ensures NewOnesPaused(streams, streams)
  {
  }

  /** The same streams, and those below `base` as loud as before. */
  ghost predicate SameBelow(base: nat, s0: Streams, streams: Streams) {
    streams.Keys == s0.Keys && forall id :: id in streams && id < base ==> streams[id] == s0[id]
  }

  /** Each replacement delivers if and only if its capture records. */
  ghost predicate StartedAsNeeded(captures: seq<Capture>, base: nat, streams: Streams) {
    forall i :: 0 <= i < |captures| ==> base + i in streams && streams[base + i] == captures[i].running
  }

  ghost predicate PausedFrom(base: nat, streams: Streams) {
    forall id :: id in streams && id >= base ==> !streams[id]
  }

  /** Every capture has its old stream below `base` and its replacement, open, from `base` on. */
  ghost predicate Replaceable(captures: seq<Capture>, base: nat, streams: Streams) {
    && (forall i :: 0 <= i < |captures| ==> captures[i].stream < base && captures[i].replacement == Some(base + i))
    && (forall id :: base <= id < base + |captures| ==> id in streams)
  }

  lemma AfterPrepare(c0: seq<Capture>, s0: Streams, base: nat, k: nat, captures: seq<Capture>, streams: Streams)
    requires Settled(c0, s0, base) && Prepared(c0, s0, base, k, captures, streams) && NewOnesPaused(s0, streams)
    ensures PausedFrom(base, streams) && NoneLouder(s0, streams) && |captures| == |c0|
    ensures forall i :: 0 <= i < |c0| ==> captures[i].running == c0[i].running
  {
  }

  lemma AfterPause(c0: seq<Capture>, s0: Streams, base: nat, captures: seq<Capture>, before: Streams, streams: Streams)
    requires Settled(c0, s0, base) && Prepared(c0, s0, base, |captures|, captures, before)
    requires NoneLouder(s0, before) && Quieter(base, before, streams)
    ensures Prepared(c0, s0, base, |captures|, captures, streams) && NoneLouder(s0, streams)
    ensures Replaceable(captures, base, streams) && PausedFrom(base, streams)
  {
    PreparedKeeps(c0, s0, base, |captures|, captures, before, streams);
  }

  lemma AfterStart(c0: seq<Capture>, s0: Streams, base: nat, captures: seq<Capture>, before: Streams, streams: Streams)
    requires Settled(c0, s0, base) && Prepared(c0, s0, base, |captures|, captures, before)
    requires NoneLouder(s0, before) && SameBelow(base, before, streams)
    ensures Prepared(c0, s0, base, |captures|, captures, streams) && NoneLouder(s0, streams)
    ensures StartedAsNeeded(captures, base, streams) ==> StartedAsNeeded(c0, base, streams)
  {
    PreparedKeeps(c0, s0, base, |captures|, captures, before, streams);
    if StartedAsNeeded(captures, base, streams) {
      assert forall i :: 0 <= i < |c0| ==> captures[i].running == c0[i].running;
    }
  }

  /** The same streams, none louder, and every one from `base` on paused. */
  ghost predicate Quieter(base: nat, s0: Streams, streams: Streams) {
    && streams.Keys == s0.Keys
    && (forall id :: id in streams && id >= base ==> !streams[id])
    && (forall id :: id in streams && streams[id] ==> s0[id])
  }

  lemma QuieterStep(base: nat, s0: Streams, streams: Streams, captures: seq<Capture>, id: nat, call: Call)
    requires Quieter(base, s0, streams)
    requires forall i :: 0 <= i < |captures| && captures[i].replacement.Some? ==> captures[i].replacement.value >= base
    ensures Quieter(base, s0, AfterCall(streams, id, false, call))
    ensures AtMostOneUnpaused(captures, AfterCall(streams, id, false, call))
  {
    FreshOnesPaused(captures, AfterCall(streams, id, false, call), base);
  }

  ghost predicate FirstSilent(captures: seq<Capture>, streams: Streams, n: nat) {
    forall j :: 0 <= j < n && j < |captures| ==> !Unpaused(streams, captures[j].stream)
  }

  lemma SilentStep(h: Host, captures: seq<Capture>, streams: Streams, i: nat)
    requires i < |captures| && (PausesWork(h) ==> FirstSilent(captures, streams, i))
    ensures var after := AfterCall(streams, captures[i].stream, false, h.pause(i));
            PausesWork(h) && h.pause(i).reported ==> FirstSilent(captures, after, i + 1)
  {
  }

  lemma AllSilent(captures: seq<Capture>, streams: Streams)
    ensures FirstSilent(captures, streams, |captures|) ==> AllPaused(captures, streams)
  {
  }

  lemma NoneSilenced(h: Host)
    ensures SilencesAll(h, 0)
  {
  }

  lemma SilencedOne(h: Host, k: nat, n: nat)
    requires k < n && SilencesAll(h, k)
    ensures if h.pause(k).reported && h.lock(k) then SilencesAll(h, k + 1) else !SilencesAll(h, n)
  {
  }

  /** The replacements of the first `n` captures have been started where needed. */
  ghost predicate Starting(h: Host, captures: seq<Capture>, base: nat, s0: Streams, n: nat, streams: Streams) {
    && streams.Keys == s0.Keys && n <= |captures|
    && (forall id :: id in streams && id < base ==> streams[id] == s0[id])
    && (forall id :: id in streams && id >= base + n ==> !streams[id])
    && (forall id :: base <= id < base + |captures| ==> id in streams)
    && (forall i :: 0 <= i < |captures| ==> captures[i].stream < base && captures[i].replacement == Some(base + i))
    && (forall j :: 0 <= j < n && captures[j].running ==> h.start(j).reported)
    && (StartsWork(h) ==> forall j :: 0 <= j < n ==> streams[base + j] == captures[j].running)
  }

  lemma StartingStep(h: Host, captures: seq<Capture>, base: nat, s0: Streams, i: nat, streams: Streams)
    requires Starting(h, captures, base, s0, i, streams) && i < |captures|
    ensures captures[i].replacement == Some(base + i)
    ensures !captures[i].running ==> Starting(h, captures, base, s0, i + 1, streams)
    ensures var after := AfterCall(streams, base + i, true, h.start(i));
            && (AllPaused(captures, s0) ==> AtMostOneUnpaused(captures, after))
            && (captures[i].running && h.start(i).reported ==> Starting(h, captures, base, s0, i + 1, after))
            && (captures[i].running && !h.start(i).reported ==>
                  !StartsAll(h, captures) && SameBelow(base, s0, after))
  {
    PausedIsQuiet(captures, base, s0, AfterCall(streams, base + i, true, h.start(i)));
  }

  lemma StartedAll(h: Host, captures: seq<Capture>, base: nat, s0: Streams, streams: Streams)
    requires Starting(h, captures, base, s0, |captures|, streams)
    ensures StartsAll(h, captures) && SameBelow(base, s0, streams)
    ensures StartsWork(h) ==> StartedAsNeeded(captures, base, streams)
  {
  }

  /** The streams of the first `n` captures have been resumed where needed. */
  ghost predicate Restoring(h: Host, captures: seq<Capture>, s0: Streams, n: nat, streams: Streams) {
    && streams.Keys == s0.Keys && n <= |captures|
    && (forall i, j :: 0 <= i < j < |captures| ==> captures[i].stream != captures[j].stream)
    && (forall j :: 0 <= j < |captures| ==> captures[j].stream in streams)
    && (forall j :: 0 <= j < |captures| && !captures[j].running ==>
          streams[captures[j].stream] == s0[captures[j].stream])
    && (forall j :: 0 <= j < n && captures[j].running ==> h.restore(j).reported)
    && (RestoresWork(h) ==> forall j :: 0 <= j < n && captures[j].running ==> streams[captures[j].stream])
  }

  lemma RestoringStep(h: Host, captures: seq<Capture>, s0: Streams, i: nat, streams: Streams)
    requires Restoring(h, captures, s0, i, streams) && i < |captures|
    ensures !captures[i].running ==> Restoring(h, captures, s0, i + 1, streams)
    ensures var after := AfterCall(streams, captures[i].stream, true, h.restore(i));
            && (captures[i].running && h.restore(i).reported ==> Restoring(h, captures, s0, i + 1, after))
            && (captures[i].running && !h.restore(i).reported ==>
                  !ResumesAll(h, captures) && Restored(captures, s0, after))
  {
  }

  /** Whatever was resumed, captures that do not record keep their streams as they were. */
  ghost predicate Restored(captures: seq<Capture>, s0: Streams, streams: Streams) {
    && streams.Keys == s0.Keys
    && (forall j :: 0 <= j < |captures| ==> captures[j].stream in streams)
    && (forall j :: 0 <= j < |captures| && !captures[j].running ==>
          streams[captures[j].stream] == s0[captures[j].stream])
  }

  lemma RestoredAll(h: Host, captures: seq<Capture>, s0: Streams, streams: Streams)
    requires Restoring(h, captures, s0, |captures|, streams)
    ensures ResumesAll(h, captures) && Restored(captures, s0, streams)
    ensures RestoresWork(h) ==>
              forall i :: 0 <= i < |captures| && captures[i].running ==> streams[captures[i].stream]
  {
  }

  lemma SameRunning(h: Host, c0: seq<Capture>, captures: seq<Capture>)
    requires |captures| == |c0| && forall i :: 0 <= i < |c0| ==> captures[i].running == c0[i].running
    ensures StartsAll(h, captures) <==> StartsAll(h, c0)
  {
    assert forall i :: 0 <= i < |c0| ==> c0[i].running == captures[i].running;
  }

  lemma CommitStart(c0: seq<Capture>, s0: Streams, base: nat, captures: seq<Capture>, streams: Streams)
    requires Prepared(c0, s0, base, |captures|, captures, streams) && Settled(c0, s0, base)
    ensures Committed(c0, base, 0, captures, streams) && |captures| == |c0|
  {
    forall id | id in streams && id in s0
      ensures OwnsFrom(c0, 0, id)
    {
      assert Owns(c0, id);
    }
  }

  lemma CommitStep(c0: seq<Capture>, s0: Streams, base: nat, i: nat, captures: seq<Capture>, streams: Streams)
    requires Settled(c0, s0, base) && Committed(c0, base, i, captures, streams) && i < |c0|
    ensures captures[i].replacement == Some(base + i)
    ensures var captures' := captures[i := Capture(base + i, None, captures[i].running)];
            var streams' := streams - {captures[i].stream};
            && Committed(c0, base, i + 1, captures', streams')
            && (AtMostOneUnpaused(captures, streams) ==> AtMostOneUnpaused(captures', streams'))
  {
    var gone := c0[i].stream;
    assert gone in s0 && gone < base;
    forall id | id in streams && id != gone && !(base <= id < base + |c0|)
      ensures OwnsFrom(c0, i + 1, id)
    {
      assert OwnsFrom(c0, i, id);
    }
  }

  lemma SettledKeepsKeys(c0: seq<Capture>, s0: Streams, base: nat, streams: Streams, next: nat)
    requires Settled(c0, s0, base) && streams.Keys == s0.Keys && base <= next
    ensures Settled(c0, streams, next)
  {
    assert forall id :: id in streams <==> id in s0;
  }

  lemma PausedIsQuiet(captures: seq<Capture>, base: nat, before: Streams, streams: Streams)
    requires forall i :: 0 <= i < |captures| ==> captures[i].stream < base
    requires streams.Keys == before.Keys
    requires forall id :: id in streams && id < base ==> streams[id] == before[id]
    ensures AllPaused(captures, before) ==> AtMostOneUnpaused(captures, streams)
  {
    assert forall id :: id in streams <==> id in before;
  }

  lemma SettledCommitted(c0: seq<Capture>, s0: Streams, base: nat, captures: seq<Capture>, streams: Streams)
    requires Settled(c0, s0, base) && Committed(c0, base, |c0|, captures, streams)
    ensures Settled(captures, streams, base + |c0|) && |captures| == |c0|
    ensures forall i :: 0 <= i < |captures| ==> captures[i] == c0[i].(stream := base + i) && captures[i].stream !in s0
  {
    forall id | id in streams
      ensures Owns(captures, id) && id < base + |c0|
    {
      assert !OwnsFrom(c0, |c0|, id);
      assert captures[id - base].stream == id;
    }
    forall i | 0 <= i < |captures|
      ensures captures[i].stream !in s0 && captures[i].stream in streams && captures[i].replacement == None
    {
      assert captures[i].stream == base + i;
      assert c0[i].replacement == None;
    }
  }

  lemma CommittedRecords(c0: seq<Capture>, base: nat, before: Streams, captures: seq<Capture>, streams: Streams)
    requires Committed(c0, base, |c0|, captures, streams)
    requires forall id :: id in streams ==> id in before && streams[id] == before[id]
    requires forall i :: 0 <= i < |c0| && base + i in before ==> before[base + i] == c0[i].running
    ensures RecordsWhatRuns(captures, streams)
  {
    forall i | 0 <= i < |captures|
      ensures Unpaused(streams, captures[i].stream) <==> captures[i].running
    {
      assert captures[i] == c0[i].(stream := base + i);
    }
  }

  lemma PreparedNone(c0: seq<Capture>, s0: Streams, base: nat)
    requires Settled(c0, s0, base)
    ensures Prepared(c0, s0, base, 0, c0, s0) && AtMostOneUnpaused(c0, s0)
  {
  }

  lemma PreparedKeeps(c0: seq<Capture>, s0: Streams, base: nat, k: nat, captures: seq<Capture>, streams: Streams,
                      streams': Streams)
    requires Prepared(c0, s0, base, k, captures, streams) && streams.Keys == streams'.Keys
    ensures Prepared(c0, s0, base, k, captures, streams')
    ensures forall i :: 0 <= i < |c0| ==> captures[i].running == c0[i].running && captures[i].stream == c0[i].stream
    ensures forall i :: 0 <= i < k ==> captures[i].replacement == Some(base + i)
    ensures forall id :: id in s0 ==> id in streams'
    ensures forall id :: base <= id < base + k ==> id in streams'
  {
    assert forall id :: id in streams <==> id in streams';
  }

  lemma PreparedStep(c0: seq<Capture>, s0: Streams, base: nat, k: nat, captures: seq<Capture>, streams: Streams)
    requires Settled(c0, s0, base) && Prepared(c0, s0, base, k, captures, streams) && k < |captures|
    requires NewOnesPaused(s0, streams)
    ensures var captures' := captures[k := captures[k].(replacement := Some(base + k))];
            var streams' := streams[base + k := false];
            && Prepared(c0, s0, base, k + 1, captures', streams')
            && NewOnesPaused(s0, streams')
            && AtMostOneUnpaused(captures', streams')
  {
  }

  lemma SettledAppend(captures: seq<Capture>, streams: Streams, next: nat)
    requires Settled(captures, streams, next)
    ensures Settled(captures + [Capture(next, None, false)], streams[next := false], next + 1)
  {
    var after := captures + [Capture(next, None, false)];
    forall id | id in streams[next := false]
      ensures Owns(after, id)
    {
      if id == next {
        assert after[|captures|].stream == id;
      } else {
        assert Owns(captures, id);
        var i :| 0 <= i < |captures| && captures[i].stream == id;
        assert after[i].stream == id;
      }
    }
  }

  lemma SettledRemove(captures: seq<Capture>, streams: Streams, next: nat, i: nat)
    requires Settled(captures, streams, next) && i < |captures|
    ensures Settled(captures[..i] + captures[i + 1..], streams - {captures[i].stream}, next)
  {
    var after, gone := captures[..i] + captures[i + 1..], captures[i].stream;
    assert forall j :: 0 <= j < |after| ==> after[j] == captures[if j < i then j else j + 1];
    var streams' := streams - {gone};
    forall id | id in streams'
      ensures Owns(after, id)
    {
      assert Owns(captures, id);
      var j :| 0 <= j < |captures| && captures[j].stream == id;
      assert after[if j < i then j else j - 1].stream == id;
    }
  }
}
