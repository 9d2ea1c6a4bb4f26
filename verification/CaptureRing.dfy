/** The microphone frame ring between the capture thread and the recording thread. */
module CaptureRing {
  import opened Outcomes

  const CAPACITY := 20
  const FRAME_BYTES := 960
  const FRAME_NANOSECONDS := 10_000_000

  type Frame = seq<int>

  // ------------------------------------------------------- the simple queue

  /** A queue of at most `CAPACITY` frames that forgets its oldest one to make room. */
  function Push(queue: seq<Frame>, frame: Frame): (r: seq<Frame>)
    requires |queue| <= CAPACITY
    ensures |r| <= CAPACITY
  {
    (if |queue| == CAPACITY then queue[1..] else queue) + [frame]
  }

  // --------------------------------------------------- the ring refines it

  /** The `i`-th place from `head` on, wrapping around. */
  function Place(head: nat, i: nat): (k: nat)
    ensures k < CAPACITY
  {
    (head + i) % CAPACITY
  }

  /** The frames from `head` on, wrapping around. */
  function Unrolled(frames: seq<Frame>, head: nat, count: nat): (q: seq<Frame>)
    requires |frames| == CAPACITY && head < CAPACITY && count <= CAPACITY
    ensures |q| == count
  {
    seq(count, i requires 0 <= i => frames[Place(head, i)])
  }

  lemma UnrolledDrop(frames: seq<Frame>, head: nat, count: nat)
    requires |frames| == CAPACITY && head < CAPACITY && 0 < count <= CAPACITY
    ensures Unrolled(frames, Place(head, 1), count - 1) == Unrolled(frames, head, count)[1..]
    ensures Unrolled(frames, head, count)[0] == frames[head]
  {
  }

  lemma UnrolledPush(frames: seq<Frame>, head: nat, count: nat, frame: Frame)
    requires |frames| == CAPACITY && head < CAPACITY && count < CAPACITY
    ensures Unrolled(frames[Place(head, count) := frame], head, count + 1) ==
            Unrolled(frames, head, count) + [frame]
  {
    var q := Unrolled(frames, head, count);
    var after := Unrolled(frames[Place(head, count) := frame], head, count + 1);
    forall i | 0 <= i < count
      ensures after[i] == q[i]
    {
      assert Place(head, i) != Place(head, count);
    }
  }

  // ------------------------------------------------------------ whole runs

  /** One locked region of either thread. */
  datatype Step = Capture(frame: Frame) | Dequeue

  /** The queue, every frame accepted so far, and where the delivered and dropped ones were among them. */
  datatype History = History(queue: seq<Frame>, accepted: seq<Frame>, deliveredAt: seq<nat>, droppedAt: seq<nat>)

  function Next(h: History, s: Step): History
    requires |h.queue| <= CAPACITY
  {
    var oldest := if |h.accepted| >= |h.queue| then |h.accepted| - |h.queue| else 0;
    match s
    case Capture(frame) =>
      History(Push(h.queue, frame), h.accepted + [frame], h.deliveredAt,
              if |h.queue| == CAPACITY then h.droppedAt + [oldest] else h.droppedAt)
    case Dequeue =>
      if h.queue == [] then h else h.(queue := h.queue[1..], deliveredAt := h.deliveredAt + [oldest])
  }

  /**
   * The queue is the newest accepted frames, oldest first; every older frame was either delivered or
   * dropped, never both; both happened in capture order and at most once per frame.
   */
  ghost predicate Consistent(h: History) {
    && |h.queue| <= CAPACITY
    && |h.queue| <= |h.accepted|
    && h.queue == h.accepted[|h.accepted| - |h.queue|..]
    && |h.accepted| == |h.deliveredAt| + |h.droppedAt| + |h.queue|
    && Increasing(h.deliveredAt) && Increasing(h.droppedAt)
    && (forall i :: 0 <= i < |h.accepted| - |h.queue| ==> (i in h.deliveredAt <==> i !in h.droppedAt))
    && (forall i :: i in h.deliveredAt || i in h.droppedAt ==> i < |h.accepted| - |h.queue|)
  }

  function Run(h: History, steps: seq<Step>): (r: History)
    requires |h.queue| <= CAPACITY
    ensures |r.queue| <= CAPACITY
    decreases |steps|
  {
    if steps == [] then h else Run(Next(h, steps[0]), steps[1..])
  }

  lemma CaptureKeepsConsistent(h: History, frame: Frame)
    requires Consistent(h)
    ensures Consistent(Next(h, Capture(frame)))
  {
    var n, oldest := Next(h, Capture(frame)), |h.accepted| - |h.queue|;
    assert forall k :: 0 <= k < |h.droppedAt| ==> h.droppedAt[k] in h.droppedAt;
    assert n.queue == n.accepted[|n.accepted| - |n.queue|..];
    assert forall i :: i in h.droppedAt + [oldest] <==> i in h.droppedAt || i == oldest;
  }

  lemma DequeueKeepsConsistent(h: History)
    requires Consistent(h)
    ensures Consistent(Next(h, Dequeue))
  {
    var n, oldest := Next(h, Dequeue), |h.accepted| - |h.queue|;
    assert forall k :: 0 <= k < |h.deliveredAt| ==> h.deliveredAt[k] in h.deliveredAt;
    if h.queue != [] {
      assert n.queue == n.accepted[|n.accepted| - |n.queue|..];
      assert forall i :: i in n.deliveredAt <==> i in h.deliveredAt || i == oldest;
    }
  }

  lemma NextKeepsConsistent(h: History, s: Step)
    requires Consistent(h)
    ensures Consistent(Next(h, s))
  {
    match s
    case Capture(frame) => CaptureKeepsConsistent(h, frame);
    case Dequeue => DequeueKeepsConsistent(h);
  }

  /** From an empty ring, every interleaving of the two threads is consistent. */
  lemma {:induction false} RunIsConsistent(h: History, steps: seq<Step>)
    requires Consistent(h)
    ensures Consistent(Run(h, steps))
    decreases |steps|
  {
    if steps != [] {
      NextKeepsConsistent(h, steps[0]);
      RunIsConsistent(Next(h, steps[0]), steps[1..]);
    }
  }

  /** What a delivery hands to the sinks is the accepted frame at the position it records. */
  lemma DequeueDeliversItsPosition(h: History)
    requires Consistent(h) && h.queue != []
    ensures var n := Next(h, Dequeue);
            h.queue[0] == h.accepted[n.deliveredAt[|n.deliveredAt| - 1]] && n.accepted == h.accepted
  {
    assert h.queue[0] == h.accepted[|h.accepted| - |h.queue|..][0];
  }

  // ---------------------------------------------------------------- delivery passes

  /** A ring that starts out with these frames. */
  function Holding(queue: seq<Frame>): History {
    History(queue, queue, [], [])
  }

  lemma HoldingIsConsistent(queue: seq<Frame>)
    requires |queue| <= CAPACITY
    ensures Consistent(Holding(queue)) && Handed(Holding(queue)) == []
  {
  }

  /** The frames delivered so far, in order. */
  ghost function Handed(h: History): (out: seq<Frame>)
    requires Consistent(h)
    ensures |out| == |h.deliveredAt|
  {
    seq(|h.deliveredAt|, i requires 0 <= i < |h.deliveredAt| =>
      assert h.deliveredAt[i] in h.deliveredAt; h.accepted[h.deliveredAt[i]])
  }

  function Captures(frames: seq<Frame>): seq<Step> {
    seq(|frames|, i requires 0 <= i < |frames| => Capture(frames[i]))
  }

  /** The steps of the first `passes` passes, arrivals before each dequeue. */
  function Schedule(arrivals: seq<seq<Frame>>, passes: nat): seq<Step>
    requires passes <= |arrivals|
  {
    if passes == 0 then [] else Schedule(arrivals, passes - 1) + Captures(arrivals[passes - 1]) + [Dequeue]
  }

  lemma {:induction false} RunConcat(h: History, a: seq<Step>, b: seq<Step>)
    requires |h.queue| <= CAPACITY
    ensures Run(h, a + b) == Run(Run(h, a), b)
    decreases |a|
  {
    if a == [] {
      assert a + b == b;
    } else {
      assert (a + b)[1..] == a[1..] + b;
      RunConcat(Next(h, a[0]), a[1..], b);
    }
  }

  lemma RunCaptures(h: History, arrivals: seq<Frame>, i: nat)
    requires |h.queue| <= CAPACITY && i <= |arrivals|
    ensures Run(h, Captures([])) == h && arrivals[..0] == []
    ensures i < |arrivals| ==>
              Run(h, Captures(arrivals[..i + 1])) == Next(Run(h, Captures(arrivals[..i])), Capture(arrivals[i]))
  {
    if i < |arrivals| {
      var last := [Capture(arrivals[i])];
      assert Captures(arrivals[..i + 1]) == Captures(arrivals[..i]) + last;
      RunConcat(h, Captures(arrivals[..i]), last);
      var m := Run(h, Captures(arrivals[..i]));
      assert last[1..] == [];
      assert Run(m, last) == Next(m, last[0]);
    }
  }

  lemma RunSchedule(h: History, arrivals: seq<seq<Frame>>, passes: nat)
    requires |h.queue| <= CAPACITY && passes < |arrivals|
    ensures Run(h, Schedule(arrivals, passes + 1)) ==
            Next(Run(Run(h, Schedule(arrivals, passes)), Captures(arrivals[passes])), Dequeue)
  {
    var before, captures := Schedule(arrivals, passes), Captures(arrivals[passes]);
    RunConcat(h, before + captures, [Dequeue]);
    RunConcat(h, before, captures);
    var m := Run(h, before + captures);
    assert [Dequeue][1..] == [];
    assert Run(m, [Dequeue]) == Next(m, [Dequeue][0]);
  }

  lemma NextCapture(h: History, frame: Frame)
    requires |h.queue| <= CAPACITY
    ensures Next(h, Capture(frame)).queue == Push(h.queue, frame)
    ensures |Next(h, Capture(frame)).droppedAt| == |h.droppedAt| + if |h.queue| == CAPACITY then 1 else 0
  {
  }

  lemma CaptureHandsNothing(h: History, frame: Frame)
    requires Consistent(h) && Consistent(Next(h, Capture(frame)))
    ensures Handed(Next(h, Capture(frame))) == Handed(h)
  {
    assert forall i :: 0 <= i < |h.deliveredAt| ==> h.deliveredAt[i] in h.deliveredAt;
  }

  lemma DequeueHandsOne(h: History)
    requires Consistent(h) && Consistent(Next(h, Dequeue))
    ensures var n := Next(h, Dequeue);
            && n.droppedAt == h.droppedAt
            && if h.queue == [] then n == h else n.queue == h.queue[1..] && Handed(n) == Handed(h) + [h.queue[0]]
  {
    if h.queue != [] {
      DequeueDeliversItsPosition(h);
      assert forall i :: 0 <= i < |h.deliveredAt| ==> h.deliveredAt[i] in h.deliveredAt;
    }
  }

  // ---------------------------------------------------------------- the ring in place

  class Session {
    const frames: array<Frame>
    var head: nat
    var count: nat
    var delivered: nat
    var dropped: nat

    ghost predicate Valid()
      reads this
    {
      frames.Length == CAPACITY && head < CAPACITY && count <= CAPACITY
    }

    ghost function Queue(): (q: seq<Frame>)
      requires Valid()
      reads this, frames
      ensures |q| == count
    {
      Unrolled(frames[..], head, count)
    }

    constructor ()
      ensures Valid() && fresh(frames) && Queue() == [] && delivered == dropped == 0
    {
      frames := new Frame[CAPACITY];
      head, count, delivered, dropped := 0, 0, 0, 0;
    }

    /** The capture thread's locked region; a buffer of any other size is ignored. */
    method OnData(bytes: nat, buffer: Frame)
      requires Valid()
      modifies this`head, this`count, this`dropped, frames
      ensures Valid()
      ensures bytes == 960 ==> Queue() == Push(old(Queue()), buffer)
      ensures bytes == 960 ==>
                Queue() == (if |old(Queue())| == 20 then old(Queue())[1..] else old(Queue())) + [buffer]
      ensures bytes != 960 ==> Queue() == old(Queue())
      ensures dropped == old(dropped) + if bytes == 960 && |old(Queue())| == 20 then 1 else 0
    {
      if bytes != FRAME_BYTES {
        return;
      }
      hide Unrolled, Place;
      if count == CAPACITY {
        UnrolledDrop(frames[..], head, count);
        head := Place(head, 1);
        count := count - 1;
        dropped := dropped + 1;
      }
      ghost var before := frames[..];
      UnrolledPush(before, head, count, buffer);
      var slot := Place(head, count);
      frames[slot] := buffer;
      assert frames[..] == before[slot := buffer];
      count := count + 1;
    }

    /** The recording thread's locked region: the oldest frame and the delay of the whole queue. */
    method TakeFrame() returns (pcm: Option<Frame>, delay: nat)
      requires Valid()
      modifies this`head, this`count
      ensures Valid()
      ensures old(Queue()) == [] ==> pcm.None? && Queue() == []
      ensures old(Queue()) != [] ==> pcm == Some(old(Queue())[0]) && Queue() == old(Queue())[1..]
      ensures delay == |old(Queue())| * 10_000_000
    {
      delay := count * FRAME_NANOSECONDS;
      if count == 0 {
        return None, delay;
      }
      hide Place;
      UnrolledDrop(frames[..], head, count);
      pcm := Some(frames[head]);
      head := Place(head, 1);
      count := count - 1;
    }

    /** The ring and its drop count have followed the history. */
    ghost predicate At(h: History, drops: nat)
      requires Valid()
      reads this, frames
    {
      Consistent(h) && Queue() == h.queue && dropped == drops + |h.droppedAt|
    }

    /** The capture thread gets in with these frames, one after the other. */
    method CaptureAll(arrivals: seq<Frame>, ghost h: History, ghost drops: nat) returns (ghost n: History)
      requires Valid() && At(h, drops)
      modifies this`head, this`count, this`dropped, frames
      ensures Valid() && n == Run(h, Captures(arrivals)) && At(n, drops) && Handed(n) == Handed(h)
    {
      hide Unrolled, Push, Consistent, Handed;
      n := h;
      RunCaptures(h, arrivals, 0);
      for i := 0 to |arrivals|
        invariant Valid() && At(n, drops) && n == Run(h, Captures(arrivals[..i])) && Handed(n) == Handed(h)
      {
        RunCaptures(h, arrivals, i);
        NextKeepsConsistent(n, Capture(arrivals[i]));
        CaptureHandsNothing(n, arrivals[i]);
        NextCapture(n, arrivals[i]);
        OnData(FRAME_BYTES, arrivals[i]);
        n := Next(n, Capture(arrivals[i]));
      }
      assert arrivals[..|arrivals|] == arrivals;
    }

    /**
     * One delivery pass during which the capture thread gets in before every dequeue with the frames
     * of `arrivals`. What is handed over, left in the ring and dropped is what the interleaved steps
     * make of the queue, and the pass ends early only on an empty ring.
     */
    method Deliver(arrivals: seq<seq<Frame>>) returns (out: seq<Frame>, passes: nat)
      requires Valid() && |arrivals| == CAPACITY
      modifies this`head, this`count, this`delivered, this`dropped, frames
      ensures Valid() && passes <= CAPACITY
      ensures var h := Run(Holding(old(Queue())), Schedule(arrivals, passes));
              && At(h, old(dropped)) && out == Handed(h) && delivered == old(delivered) + |out|
              && (passes < CAPACITY ==> Queue() == [])
    {
      hide Unrolled, Consistent, Handed, Push;
      ghost var h := Holding(Queue());
      HoldingIsConsistent(Queue());
      out, passes := [], 0;
      while passes < CAPACITY
        invariant Valid() && passes <= CAPACITY && h == Run(Holding(old(Queue())), Schedule(arrivals, passes))
        invariant At(h, old(dropped)) && out == Handed(h) && delivered == old(delivered) + |out|
      {
        RunSchedule(Holding(old(Queue())), arrivals, passes);
        h := CaptureAll(arrivals[passes], h, old(dropped));
        NextKeepsConsistent(h, Dequeue);
        DequeueHandsOne(h);
        var pcm, _ := TakeFrame();
        h, passes := Next(h, Dequeue), passes + 1;
        if pcm.None? {
          break;
        }
        out := out + [pcm.value];
        delivered := delivered + 1;
      }
    }
  }
}
