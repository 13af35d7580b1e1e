/**
 ContinuousTTSAudioSource (ttsbot/audio.py). First the two-thread form as a state machine over lock regions and queue
 operations: the event loop enqueues and clears, the player thread reads. Then the object itself, one call at a time.
 */
module AudioSource {
  import opened Bytes
  import opened OpusPacket

  /** What the event loop is in the middle of. */
  datatype Loop = Idle | Putting(rest: seq<nat>) | Clearing(taken: nat) // clear holds the lock throughout

  /** Frames are numbered in the order they were announced. */
  datatype State = State(
    queue: seq<nat>,
    pending: nat,
    drained: bool,
    loop: Loop,
    taken: Option<nat>, // taken by the player thread, not counted yet
    played: seq<nat>,
    dropped: seq<nat>, // by clear
    next: nat)

  const START := State([], 0, true, Idle, None, [], [], 0)

  datatype Step =
    | Announce(n: nat) | Put // enqueue_frames: the count first, then each frame
    | Take | Count // read
    | ClearStart | ClearTake | ClearFinish

  predicate Enabled(s: State, step: Step) {
    match step
    case Announce(n) => s.loop.Idle? && n > 0
    case Put => s.loop.Putting?
    case Take => s.taken.None? && s.queue != []
    case Count => s.taken.Some? && !s.loop.Clearing?
    case ClearStart => s.loop.Idle?
    case ClearTake => s.loop.Clearing? && s.queue != []
    case ClearFinish => s.loop.Clearing? && s.queue == []
  }

  function Numbers(first: nat, n: nat): (r: seq<nat>)
    ensures |r| == n
  {
    seq(n, i requires 0 <= i < n => first + i)
  }

  function Apply(s: State, step: Step): State
    requires Enabled(s, step)
  {
    match step
    case Announce(n) =>
      s.(pending := s.pending + n, drained := false, loop := Putting(Numbers(s.next, n)), next := s.next + n)
    case Put =>
      if s.loop.rest == [] then s.(loop := Idle)
      else s.(queue := s.queue + [s.loop.rest[0]], loop := Putting(s.loop.rest[1..]))
    case Take => s.(queue := s.queue[1..], taken := Some(s.queue[0]))
    case Count =>
      var left := if s.pending > 0 then s.pending - 1 else 0;
      s.(pending := left, drained := s.drained || left == 0, taken := None, played := s.played + [s.taken.value])
    case ClearStart => s.(loop := Clearing(0))
    case ClearTake =>
      s.(queue := s.queue[1..], loop := Clearing(s.loop.taken + 1), dropped := s.dropped + [s.queue[0]])
    case ClearFinish => s.(loop := Idle, pending := 0, drained := true)
  }

  ghost predicate Runs(s: State, steps: seq<Step>, t: State)
    decreases |steps|
  {
    if steps == [] then s == t else Enabled(s, steps[0]) && Runs(Apply(s, steps[0]), steps[1..], t)
  }

  // ---- The count

  function Unput(s: State): seq<nat> { if s.loop.Putting? then s.loop.rest else [] }

  function InHand(s: State): seq<nat> { if s.taken.Some? then [s.taken.value] else [] }

  /** Frames that will still be played. */
  function Left(s: State): nat { |s.queue| + |Unput(s)| + |InHand(s)| }

  /** What the counter stands for: a running clear has not written its drops off yet. */
  function Owed(s: State): nat { Left(s) + (if s.loop.Clearing? then s.loop.taken else 0) }

  predicate Exact(s: State) { s.pending == Owed(s) }

  predicate CountSound(s: State) {
    s.pending <= Owed(s) <= s.pending + 1 && (s.drained <==> s.pending == 0)
  }

  /** clear ends between a read's take and its count. */
  predicate LateClear(s: State, step: Step) { step.ClearFinish? && s.taken.Some? }

  ghost predicate NoLateClear(s: State, steps: seq<Step>)
    decreases |steps|
  {
    steps != [] ==>
      && Enabled(s, steps[0]) && !LateClear(s, steps[0])
      && NoLateClear(Apply(s, steps[0]), steps[1..])
  }

  lemma CountStep(s: State, step: Step)
    requires CountSound(s) && Enabled(s, step)
    ensures CountSound(Apply(s, step))
    ensures Exact(s) ==> (Exact(Apply(s, step)) <==> !LateClear(s, step))
  {}

  lemma {:induction false} CountRuns(s: State, steps: seq<Step>, t: State)
    requires CountSound(s) && Runs(s, steps, t)
    ensures CountSound(t) && (Exact(s) && NoLateClear(s, steps) ==> Exact(t))
    decreases |steps|
  {
    hide CountSound, Exact, LateClear, Enabled, Apply;
    if steps != [] {
      CountStep(s, steps[0]);
      CountRuns(Apply(s, steps[0]), steps[1..], t);
    }
  }

  /** With no clear ending inside a read, the counter is exact, and drained means no frame is left anywhere. */
  lemma DrainedIsExact(steps: seq<Step>, t: State)
    requires Runs(START, steps, t) && NoLateClear(START, steps)
    ensures t.pending == Owed(t) && (t.drained <==> Owed(t) == 0)
  {
    CountRuns(START, steps, t);
  }

  /** A clear that ends inside a read is the only step that makes an exact counter wrong. */
  lemma OnlyLateClearBreaks(steps: seq<Step>, s: State, step: Step)
    requires Runs(START, steps, s) && Exact(s) && Enabled(s, step)
    ensures Exact(Apply(s, step)) <==> !(step.ClearFinish? && s.taken.Some?)
  {
    CountRuns(START, steps, s);
    CountStep(s, step);
  }

  /** In every run, late clears or not: drained is never missing, and comes at most one frame early. */
  lemma DrainedNeverMissing(steps: seq<Step>, t: State)
    requires Runs(START, steps, t)
    ensures Owed(t) == 0 ==> t.drained
    ensures t.drained ==> Left(t) <= 1
  {
    CountRuns(START, steps, t);
  }

  /** A clear inside a read, then one new frame: the event is set while that frame still waits to be played. */
  lemma EarlyDrain() returns (steps: seq<Step>, t: State)
    ensures Runs(START, steps, t) && t.drained && t.queue == [1] && t.loop.Idle? && t.taken.None?
  {
    assert Numbers(0, 1) == [0] && Numbers(1, 1) == [1];
    hide Numbers;
    var s1 := Apply(START, Announce(1));
    var s2 := Apply(Apply(s1, Put), Put);
    var s3 := Apply(s2, Take);
    var s4 := Apply(Apply(s3, ClearStart), ClearFinish);
    var s5 := Apply(s4, Announce(1));
    var s6 := Apply(Apply(s5, Put), Put);
    t := Apply(s6, Count);
    assert t.drained && t.queue == [1] && t.loop.Idle? && t.taken.None?;
    var last: seq<Step> := [Count];
    assert last[1..] == [] && Runs(t, last[1..], t);
    assert Runs(s6, last, t);
    hide Runs;
    var end := [Announce(1), Put, Put] + last;
    RunsThree(s4, Announce(1), Put, Put, last, t);
    var middle := [Take, ClearStart, ClearFinish] + end;
    RunsThree(s2, Take, ClearStart, ClearFinish, end, t);
    steps := [Announce(1), Put, Put] + middle;
    RunsThree(START, Announce(1), Put, Put, middle, t);
  }

  lemma RunsThree(s: State, a: Step, b: Step, c: Step, rest: seq<Step>, t: State)
    requires Enabled(s, a) && Enabled(Apply(s, a), b) && Enabled(Apply(Apply(s, a), b), c)
    requires Runs(Apply(Apply(Apply(s, a), b), c), rest, t)
    ensures Runs(s, [a, b, c] + rest, t)
  {
    hide Enabled, Apply;
    var all := [a, b, c] + rest;
    assert all[1..][1..][1..] == rest;
    assert Runs(Apply(Apply(s, a), b), all[1..][1..], t);
    assert Runs(Apply(s, a), all[1..], t);
  }

  // ---- The order

  /** All frames still in play, oldest first. */
  function Line(s: State): seq<nat> { s.played + (InHand(s) + (s.queue + Unput(s))) }

  ghost predicate Rising(q: seq<nat>, bound: nat) {
    (forall i :: 0 <= i < |q| ==> q[i] < bound) && forall i, j :: 0 <= i < j < |q| ==> q[i] < q[j]
  }

  /** Every announced frame is in the line or was dropped, and only one of the two. */
  ghost predicate Accounted(line: seq<nat>, dropped: seq<nat>, next: nat) {
    |line| + |dropped| == next && forall n: nat :: n < next ==> n in line || n in dropped
  }

  ghost predicate OrderSound(s: State) {
    Rising(Line(s), s.next) && Accounted(Line(s), s.dropped, s.next)
  }

  lemma LineMoves(s: State, step: Step)
    requires Enabled(s, step)
    ensures var t := Apply(s, step);
            match step
            case Announce(n) => Line(t) == Line(s) + Numbers(s.next, n)
            case ClearTake =>
              var before := s.played + InHand(s);
              Line(s) == before + [s.queue[0]] + s.queue[1..] && Line(t) == before + s.queue[1..]
            case _ => Line(t) == Line(s)
  {
    match step {
      case Announce(n) =>
        JoinThree(s.played, InHand(s) + s.queue, Numbers(s.next, n));
        JoinThree(InHand(s), s.queue, Numbers(s.next, n));
        assert s.queue + [] == s.queue;
      case Put =>
        if s.loop.rest != [] {
          assert [s.loop.rest[0]] + s.loop.rest[1..] == s.loop.rest;
          JoinThree(s.queue, [s.loop.rest[0]], s.loop.rest[1..]);
        }
      case Take =>
        assert [s.queue[0]] + s.queue[1..] == s.queue;
        JoinThree([s.queue[0]], s.queue[1..], Unput(s));
        assert [] + (s.queue + Unput(s)) == s.queue + Unput(s);
      case Count =>
        JoinThree(s.played, [s.taken.value], s.queue + Unput(s));
        assert [] + (s.queue + Unput(s)) == s.queue + Unput(s);
      case ClearTake =>
        assert [s.queue[0]] + s.queue[1..] == s.queue;
        assert s.queue + [] == s.queue && s.queue[1..] + [] == s.queue[1..];
        JoinThree(s.played, InHand(s), s.queue);
        JoinThree(s.played, InHand(s), s.queue[1..]);
        JoinThree(s.played + InHand(s), [s.queue[0]], s.queue[1..]);
      case _ =>
    }
  }

  lemma RisingMore(q: seq<nat>, next: nat, n: nat)
    requires Rising(q, next)
    ensures Rising(q + Numbers(next, n), next + n)
  {}

  lemma AccountedMore(line: seq<nat>, dropped: seq<nat>, next: nat, n: nat)
    requires Accounted(line, dropped, next)
    ensures Accounted(line + Numbers(next, n), dropped, next + n)
  {
    forall k: nat | k < next + n ensures k in line + Numbers(next, n) || k in dropped {
      if k >= next { assert Numbers(next, n)[k - next] == k; }
    }
  }

  lemma RisingWithout(a: seq<nat>, x: nat, b: seq<nat>, bound: nat)
    requires Rising(a + [x] + b, bound)
    ensures Rising(a + b, bound)
  {
    var q := a + [x] + b;
    forall i, j | 0 <= i < j < |a + b| ensures (a + b)[i] < (a + b)[j] {
      var k, m := if i < |a| then i else i + 1, if j < |a| then j else j + 1;
      assert (a + b)[i] == q[k] && (a + b)[j] == q[m];
    }
    forall i | 0 <= i < |a + b| ensures (a + b)[i] < bound {
      assert (a + b)[i] == q[if i < |a| then i else i + 1];
    }
  }

  lemma AccountedWithout(a: seq<nat>, x: nat, b: seq<nat>, dropped: seq<nat>, next: nat)
    requires Accounted(a + [x] + b, dropped, next)
    ensures Accounted(a + b, dropped + [x], next)
  {
    forall n: nat | n < next ensures n in a + b || n in dropped + [x] {
      assert n in a + [x] + b || n in dropped;
    }
  }

  lemma OrderStep(s: State, step: Step)
    requires OrderSound(s) && Enabled(s, step)
    ensures OrderSound(Apply(s, step))
  {
    hide Line, Rising, Accounted, Numbers;
    LineMoves(s, step);
    match step {
      case Announce(n) =>
        RisingMore(Line(s), s.next, n);
        AccountedMore(Line(s), s.dropped, s.next, n);
      case ClearTake =>
        RisingWithout(s.played + InHand(s), s.queue[0], s.queue[1..], s.next);
        AccountedWithout(s.played + InHand(s), s.queue[0], s.queue[1..], s.dropped, s.next);
      case _ =>
    }
  }

  lemma {:induction false} OrderRuns(s: State, steps: seq<Step>, t: State)
    requires OrderSound(s) && Runs(s, steps, t)
    ensures OrderSound(t)
    decreases |steps|
  {
    hide OrderSound, Enabled, Apply;
    if steps != [] {
      OrderStep(s, steps[0]);
      OrderRuns(Apply(s, steps[0]), steps[1..], t);
    }
  }

  /** Frames play in the order they were enqueued, each at most once, and none is lost but by clear. */
  lemma PlayOrder(steps: seq<Step>, t: State)
    requires Runs(START, steps, t)
    ensures forall i, j :: 0 <= i < j < |t.played| ==> t.played[i] < t.played[j]
    ensures |t.played| + Left(t) + |t.dropped| == t.next
    ensures forall n: nat :: n < t.next ==>
      n in t.played || n in InHand(t) || n in t.queue || n in Unput(t) || n in t.dropped
  {
    OrderRuns(START, steps, t);
    forall i, j | 0 <= i < j < |t.played| ensures t.played[i] < t.played[j] {
      assert Line(t)[i] < Line(t)[j];
    }
    LineHas(t);
  }

  lemma LineHas(s: State)
    ensures |Line(s)| == |s.played| + Left(s)
    ensures forall n :: n in Line(s) <==> n in s.played || n in InHand(s) || n in s.queue || n in Unput(s)
  {}

  /** Where nothing was dropped the player has heard exactly the first frames enqueued. */
  lemma PlayedIsPrefix(steps: seq<Step>, t: State, i: nat)
    requires Runs(START, steps, t) && t.dropped == [] && i < |t.played|
    ensures t.played[i] == i
  {
    OrderRuns(START, steps, t);
    RisingFull(Line(t), t.next, i);
    assert Line(t)[i] == t.played[i];
  }

  lemma RisingFull(q: seq<nat>, bound: nat, i: nat)
    requires Rising(q, bound) && |q| == bound && i < bound
    ensures q[i] == i
  {
    RisingFromBelow(q, bound, i);
    RisingFromAbove(q, bound, i);
  }

  lemma {:induction false} RisingFromBelow(q: seq<nat>, bound: nat, i: nat)
    requires Rising(q, bound) && i < |q|
    ensures q[i] >= i
  {
    if i > 0 { RisingFromBelow(q, bound, i - 1); }
  }

  lemma {:induction false} RisingFromAbove(q: seq<nat>, bound: nat, i: nat)
    requires Rising(q, bound) && i < |q|
    ensures q[i] + (|q| - i) <= bound
    decreases |q| - i
  {
    if i < |q| - 1 { RisingFromAbove(q, bound, i + 1); }
  }

  // ---- The object, one call at a time

  const PCM_FRAME_BYTES := 3840

  /** _check_frame: a PCM frame always, a 20 ms Opus packet in Opus mode. */
  predicate FrameOk(frame: bytes, opus: bool) { |frame| == PCM_FRAME_BYTES || (opus && DiscordFrame(frame)) }

  class ContinuousTTSAudioSource {
    const opus: bool
    const idleFrame: bytes
    var frames: seq<bytes>
    var pendingFrames: int
    var stopped: bool
    var drained: bool

    ghost predicate Valid() reads this {
      && pendingFrames == |frames| && (drained <==> stopped || pendingFrames == 0)
      && forall i :: 0 <= i < |frames| ==> FrameOk(frames[i], opus)
    }

    constructor (idleFrame: bytes, opus: bool)
      requires FrameOk(idleFrame, opus)
      ensures Valid() && frames == [] && drained && !stopped && this.opus == opus && this.idleFrame == idleFrame
    {
      this.idleFrame, this.opus := idleFrame, opus;
      frames, pendingFrames, stopped, drained := [], 0, false, true;
    }

    /** All of the batch or, if one frame is refused, none of it; ignored once stopped. */
    method EnqueueFrames(batch: seq<bytes>) returns (ok: bool)
      requires Valid()
      modifies this`frames, this`pendingFrames, this`drained
      ensures Valid()
      ensures ok <==> stopped || forall i :: 0 <= i < |batch| ==> FrameOk(batch[i], opus)
      ensures frames == (if ok && !stopped then old(frames) + batch else old(frames))
      ensures drained ==> stopped || frames == []
    {
      if batch == [] || stopped { return true; }
      for i := 0 to |batch|
        invariant forall k :: 0 <= k < i ==> FrameOk(batch[k], opus)
      {
        if !FrameOk(batch[i], opus) { return false; }
      }
      pendingFrames := pendingFrames + |batch|;
      drained := false;
      for i := 0 to |batch|
        invariant frames == old(frames) + batch[..i]
        invariant pendingFrames == |old(frames)| + |batch| && !drained
      {
        frames := frames + [batch[i]];
      }
      assert batch[..|batch|] == batch;
      ok := true;
    }

    /** The next frame, or the idle frame: never an end of stream until stopped. Encoding is left out. */
    method Read() returns (frame: bytes)
      requires Valid()
      modifies this`frames, this`pendingFrames, this`drained
      ensures Valid()
      ensures stopped ==> frame == [] && frames == old(frames) && drained == old(drained)
      ensures !stopped && old(frames) == [] ==> frame == idleFrame && frames == []
      ensures !stopped && old(frames) != [] ==> old(frames) == [frame] + frames && (drained <==> frames == [])
    {
      if stopped { return []; }
      if frames == [] { return idleFrame; }
      frame := frames[0];
      frames := frames[1..];
      pendingFrames := if pendingFrames > 0 then pendingFrames - 1 else 0;
      if pendingFrames == 0 { drained := true; }
    }

    method Clear() returns (dropped: nat)
      requires Valid()
      modifies this`frames, this`pendingFrames, this`drained
      ensures Valid() && frames == [] && drained && dropped == |old(frames)|
    {
      dropped := 0;
      while frames != []
        invariant dropped + |frames| == |old(frames)|
        decreases |frames|
      {
        frames := frames[1..];
        dropped := dropped + 1;
      }
      pendingFrames, drained := 0, true;
    }

    method Stop()
      requires Valid()
      modifies this`stopped, this`drained
      ensures Valid() && stopped && drained && frames == old(frames)
    {
      stopped, drained := true, true;
    }
  }
}
