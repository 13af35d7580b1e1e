/**
 The per-guild pipeline (ttsbot/session.py, pipeline.py, playback.py) as a state machine: one generation worker,
 generation tasks running at once, one playback worker. A step is what runs between two awaits.
 */
module Session {
  import opened Bytes

  /** Jobs are numbered in the order they were submitted. */
  type Job = nat

  datatype State = State(
    submitted: nat,
    queue: seq<Job>, // session.queue
    inHand: Option<Job>, // taken by the generation worker, waiting for room in ready
    ready: seq<Job>, // session.ready
    playing: Option<Job>, // taken by the playback worker
    draining: bool, // it only empties the channel (skipped job, no voice)
    consumed: nat, // batches it has taken from the channel
    active: set<Job>, // session.active
    generating: set<Job>,
    produced: map<Job, nat>, // batches put into each channel
    ended: set<Job>, // jobs whose channel is complete
    cancelled: set<Job>,
    played: seq<(Job, nat)>) // batches given to the player: job, place in its channel

  const START := State(0, [], None, [], None, false, 0, {}, {}, map[], {}, {}, [])

  datatype Step =
    | Submit | TakeJob | PutReady
    | Emit(job: Job) | Finish(job: Job)
    | PlayTake | VoiceFails(giveUp: bool) | PlayBatch(stopped: bool) | PlayEnd | PlayFails | PlayDrop
    | CancelAll | Disconnect

  datatype Limits = Limits(queueMax: nat, lookahead: nat)

  function Made(s: State, job: Job): nat { if job in s.produced then s.produced[job] else 0 }

  predicate Enabled(s: State, l: Limits, step: Step) {
    match step
    case Submit => |s.queue| < l.queueMax
    case TakeJob => s.inHand.None? && s.queue != []
    case PutReady => s.inHand.Some? && |s.ready| < l.lookahead
    case Emit(job) => job in s.generating
    case Finish(job) => job in s.generating
    case PlayTake => s.playing.None? && s.ready != []
    case VoiceFails(_) => s.playing.Some? && !s.draining && s.consumed == 0
    case PlayBatch(_) => s.playing.Some? && s.consumed < Made(s, s.playing.value)
    case PlayEnd => s.playing.Some? && s.consumed == Made(s, s.playing.value) && s.playing.value in s.ended
    case PlayFails => s.playing.Some?
    case PlayDrop => s.playing.Some? && s.draining && s.playing.value in s.cancelled // after the disconnect that PlayFails starts
    case CancelAll => true
    case Disconnect => true
  }

  function Apply(s: State, l: Limits, step: Step): State
    requires Enabled(s, l, step)
  {
    match step
    case Submit => s.(queue := s.queue + [s.submitted], submitted := s.submitted + 1)
    case TakeJob => s.(queue := s.queue[1..], inHand := Some(s.queue[0]), active := s.active + {s.queue[0]})
    case PutReady =>
      // The put that finds room and the start of generation are one step.
      s.(inHand := None, ready := s.ready + [s.inHand.value], generating := s.generating + {s.inHand.value})
    case Emit(job) => s.(produced := s.produced[job := Made(s, job) + 1])
    case Finish(job) => s.(ended := s.ended + {job}, generating := s.generating - {job})
    case PlayTake =>
      s.(ready := s.ready[1..], playing := Some(s.ready[0]), consumed := 0, draining := s.ready[0] in s.cancelled)
    case VoiceFails(giveUp) =>
      s.(draining := true, cancelled := if giveUp then s.cancelled + {s.playing.value} else s.cancelled)
    case PlayBatch(stopped) =>
      var job, taken := s.playing.value, s.(consumed := s.consumed + 1);
      if s.draining || job in s.cancelled then taken
      else if stopped then taken.(cancelled := s.cancelled + {job})
      else taken.(played := s.played + [(job, s.consumed)])
    case PlayEnd => s.(playing := None, active := s.active - {s.playing.value})
    case PlayFails => s.(draining := true, cancelled := s.cancelled + {s.playing.value})
    case PlayDrop => s.(playing := None, active := s.active - {s.playing.value})
    case CancelAll => s.(queue := [], cancelled := s.cancelled + s.active)
    case Disconnect => s.(cancelled := s.cancelled + s.active) // a deliberate one; the queue stays
  }

  /** Any interleaving of the workers, the tasks, submissions and cancellations. */
  ghost predicate Runs(s: State, l: Limits, steps: seq<Step>, t: State)
    decreases |steps|
  {
    if steps == [] then s == t
    else Enabled(s, l, steps[0]) && Runs(Apply(s, l, steps[0]), l, steps[1..], t)
  }

  // ---- The invariant

  function Opt(o: Option<Job>): seq<Job> { if o.Some? then [o.value] else [] }

  /** Jobs not yet at the player, the next one first. */
  function Behind(s: State): seq<Job> { s.ready + Opt(s.inHand) + s.queue }

  function Line(s: State): seq<Job> { Opt(s.playing) + Behind(s) }

  predicate InFlight(s: State, j: Job) { s.playing == Some(j) || j in s.ready || s.inHand == Some(j) }

  ghost predicate Rising(q: seq<Job>, bound: nat) {
    (forall i :: 0 <= i < |q| ==> q[i] < bound) && forall i, j :: 0 <= i < j < |q| ==> q[i] < q[j]
  }

  /** Jobs in order, each job's batches in order from its first without a hole. */
  ghost predicate InOrder(played: seq<(Job, nat)>) {
    && (played != [] ==> played[0].1 == 0)
    && forall i :: 0 < i < |played| ==>
         if played[i].1 > 0 then played[i - 1] == (played[i].0, played[i].1 - 1) else played[i - 1].0 < played[i].0
  }

  /** Nothing played so far has a number above n. */
  ghost predicate Reached(played: seq<(Job, nat)>, n: int) { played != [] ==> played[|played| - 1].0 <= n }

  /** The player goes on where it left off: the next batch of this job continues what was played. */
  ghost predicate Continues(played: seq<(Job, nat)>, job: Job, consumed: nat) {
    if consumed == 0 then Reached(played, job - 1) else played != [] && played[|played| - 1] == (job, consumed - 1)
  }

  /** What is in hand or queued comes after everything played. */
  ghost predicate PlayedSoFar(s: State) {
    && InOrder(s.played)
    && Reached(s.played, s.submitted - 1)
    && (forall j <- Behind(s) :: Reached(s.played, j - 1))
    && (s.playing.Some? ==> Reached(s.played, s.playing.value))
    && (s.playing.Some? && !s.draining && s.playing.value !in s.cancelled ==>
          Continues(s.played, s.playing.value, s.consumed))
  }

  ghost predicate ActiveExact(s: State) { forall j :: j in s.active <==> InFlight(s, j) }

  ghost predicate Sound(s: State, l: Limits) {
    && Rising(Line(s), s.submitted) && ActiveExact(s) && |s.ready| <= l.lookahead && PlayedSoFar(s)
  }

  lemma StartSound(l: Limits)
    ensures Sound(START, l)
  {}

  lemma HeadOff(q: seq<Job>, r: seq<Job>)
    requires q != []
    ensures (q + r)[0] == q[0] && (q + r)[1..] == q[1..] + r
  {}

  /** What each step does to the jobs behind the player. */
  lemma BehindMoves(s: State, l: Limits, step: Step)
    requires Enabled(s, l, step)
    ensures var t := Apply(s, l, step);
            match step
            case Submit => Behind(t) == Behind(s) + [s.submitted]
            case CancelAll => Behind(t) <= Behind(s) && forall j <- Behind(t) :: j in Behind(s)
            case PlayTake => Behind(s) != [] && Behind(s)[0] == s.ready[0] && Behind(t) == Behind(s)[1..]
            case _ => Behind(t) == Behind(s)
  {
    match step {
      case TakeJob =>
        JoinThree(s.ready, [s.queue[0]], s.queue[1..]);
        assert [s.queue[0]] + s.queue[1..] == s.queue;
        assert s.ready + [] == s.ready;
      case PutReady =>
        assert s.ready + [s.inHand.value] + [] == s.ready + [s.inHand.value];
      case PlayTake =>
        HeadOff(s.ready, Opt(s.inHand));
        HeadOff(s.ready + Opt(s.inHand), s.queue);
      case Submit => JoinThree(s.ready + Opt(s.inHand), s.queue, [s.submitted]);
      case _ =>
    }
  }

  lemma StepRising(s: State, l: Limits, step: Step)
    requires Rising(Line(s), s.submitted) && Enabled(s, l, step)
    ensures Rising(Line(Apply(s, l, step)), Apply(s, l, step).submitted)
  {
    hide Behind, Rising;
    var t := Apply(s, l, step);
    BehindMoves(s, l, step);
    match step {
      case Submit =>
        JoinThree(Opt(s.playing), Behind(s), [s.submitted]);
        RisingMore(Line(s), s.submitted);
      case CancelAll =>
        assert Line(t) == Line(s)[0..|Line(t)|];
        RisingPart(Line(s), s.submitted, 0, |Line(t)|);
      case PlayTake =>
        assert [s.ready[0]] + Behind(s)[1..] == Behind(s);
        assert Line(s) == Behind(s);
      case PlayEnd =>
        assert Line(t) == Line(s)[1..|Line(s)|];
        RisingPart(Line(s), s.submitted, 1, |Line(s)|);
      case PlayDrop =>
        assert Line(t) == Line(s)[1..|Line(s)|];
        RisingPart(Line(s), s.submitted, 1, |Line(s)|);
      case _ =>
    }
  }

  lemma RisingMore(q: seq<Job>, bound: nat)
    requires Rising(q, bound)
    ensures Rising(q + [bound], bound + 1)
  {}

  lemma RisingPart(q: seq<Job>, bound: nat, i: nat, j: nat)
    requires Rising(q, bound) && i <= j <= |q|
    ensures Rising(q[i..j], bound)
  {}

  /** Behind(s), by membership. */
  lemma BehindHas(s: State)
    ensures forall j :: j in Behind(s) <==> j in s.ready || s.inHand == Some(j) || j in s.queue
  {}

  /** The job being played is ahead of all behind it. */
  lemma PlayerAhead(s: State)
    requires Rising(Line(s), s.submitted) && s.playing.Some?
    ensures s.playing.value < s.submitted && forall j <- Behind(s) :: s.playing.value < j
  {
    hide Behind;
    assert Line(s)[0] == s.playing.value;
    forall j <- Behind(s) ensures s.playing.value < j {
      var i: nat :| i < |Behind(s)| && Behind(s)[i] == j;
      assert Line(s)[i + 1] == j;
    }
  }

  lemma StepActive(s: State, l: Limits, step: Step)
    requires Rising(Line(s), s.submitted) && ActiveExact(s) && Enabled(s, l, step)
    ensures ActiveExact(Apply(s, l, step))
  {
    hide Rising, Behind, Line;
    if s.playing.Some? { PlayerAhead(s); }
    BehindHas(s);
    if step.PlayTake? { assert s.ready == [s.ready[0]] + s.ready[1..]; }
  }

  lemma StepPlayed(s: State, l: Limits, step: Step)
    requires Rising(Line(s), s.submitted) && PlayedSoFar(s) && Enabled(s, l, step)
    ensures PlayedSoFar(Apply(s, l, step))
  {
    hide Rising, Behind, Line, InOrder, Reached;
    BehindMoves(s, l, step);
    if step.PlayTake? { TakePlayed(s, l); }
    else if step.PlayBatch? { BatchPlayed(s, l, step); }
    else if step.Submit? { SubmitReached(s.played, s.submitted); }
  }

  lemma SubmitReached(played: seq<(Job, nat)>, n: nat)
    requires Reached(played, n - 1)
    ensures Reached(played, n)
  {}

  lemma TakePlayed(s: State, l: Limits)
    requires PlayedSoFar(s) && Enabled(s, l, PlayTake)
    ensures PlayedSoFar(Apply(s, l, PlayTake))
  {
    hide Behind, InOrder;
    BehindMoves(s, l, PlayTake);
    var t := Apply(s, l, PlayTake);
    var next: int := s.ready[0];
    assert next in Behind(s);
    assert Reached(s.played, next - 1);
    assert Reached(s.played, next);
    forall j <- Behind(t) ensures Reached(t.played, j - 1) { assert j in Behind(s); }
  }

  lemma BatchPlayed(s: State, l: Limits, step: Step)
    requires Rising(Line(s), s.submitted) && PlayedSoFar(s) && Enabled(s, l, step) && step.PlayBatch?
    ensures PlayedSoFar(Apply(s, l, step))
  {
    hide Behind, Line, Rising;
    PlayerAhead(s);
    BehindMoves(s, l, step);
  }

  lemma StepSound(s: State, l: Limits, step: Step)
    requires Sound(s, l) && Enabled(s, l, step)
    ensures Sound(Apply(s, l, step), l)
  {
    hide Rising, PlayedSoFar, ActiveExact, Line;
    StepRising(s, l, step);
    StepActive(s, l, step);
    StepPlayed(s, l, step);
  }

  lemma {:induction false} RunsSound(s: State, l: Limits, steps: seq<Step>, t: State)
    requires Sound(s, l) && Runs(s, l, steps, t)
    ensures Sound(t, l)
    decreases |steps|
  {
    if steps != [] {
      StepSound(s, l, steps[0]);
      RunsSound(Apply(s, l, steps[0]), l, steps[1..], t);
    }
  }

  // ---- What it means

  /** Batches reach the player grouped by job, jobs in queue order, nothing interleaved. */
  lemma PlayedGrouped(l: Limits, steps: seq<Step>, t: State, i: nat, j: nat)
    requires Runs(START, l, steps, t) && i < j < |t.played|
    ensures t.played[i].0 < t.played[j].0 || (t.played[i].0 == t.played[j].0 && t.played[i].1 < t.played[j].1)
  {
    hide InOrder;
    StartSound(l);
    RunsSound(START, l, steps, t);
    OrderCarries(t.played, i, j);
  }

  lemma {:induction false} OrderCarries(played: seq<(Job, nat)>, i: nat, j: nat)
    requires InOrder(played) && i < j < |played|
    ensures played[i].0 < played[j].0 || (played[i].0 == played[j].0 && played[i].1 < played[j].1)
    decreases j
  {
    if i < j - 1 { OrderCarries(played, i, j - 1); }
  }

  /** A job that ends neither cancelled nor skipped was played whole, in one unbroken block at the end of the log. */
  lemma EndedPlayedWhole(l: Limits, steps: seq<Step>, t: State)
    requires Runs(START, l, steps, t) && Enabled(t, l, PlayEnd) && !t.draining && t.playing.value !in t.cancelled
    ensures var job, n := t.playing.value, Made(t, t.playing.value);
            |t.played| >= n && forall k :: 0 <= k < n ==> t.played[|t.played| - n + k] == (job, k)
  {
    hide InOrder;
    StartSound(l);
    RunsSound(START, l, steps, t);
    var n := Made(t, t.playing.value);
    if n > 0 { BlockEndsAt(t.played, |t.played| - 1); }
  }

  lemma {:induction false} BlockEndsAt(played: seq<(Job, nat)>, i: nat)
    requires InOrder(played) && i < |played|
    ensures played[i].1 <= i && forall k :: 0 <= k <= played[i].1 ==> played[i - played[i].1 + k] == (played[i].0, k)
  {
    if played[i].1 > 0 {
      var before := played[i - 1];
      assert before == (played[i].0, played[i].1 - 1);
      BlockEndsAt(played, i - 1);
    }
  }

  /** At most lookahead + 2 jobs are being generated or played. */
  lemma ActiveBounded(l: Limits, steps: seq<Step>, t: State)
    requires Runs(START, l, steps, t)
    ensures |t.active| <= l.lookahead + 2
  {
    hide Rising, PlayedSoFar;
    StartSound(l);
    RunsSound(START, l, steps, t);
    SizeOfElements(Opt(t.playing) + t.ready + Opt(t.inHand), t.active);
  }

  lemma {:induction false} SizeOfElements(q: seq<Job>, s: set<Job>)
    requires forall j <- s :: j in q
    ensures |s| <= |q|
    decreases |q|
  {
    if q != [] {
      SizeOfElements(q[1..], s - {q[0]});
      if q[0] !in s { assert s - {q[0]} == s; }
    } else {
      assert s == {};
    }
  }

  /** No job numbered below n can be played any more. */
  ghost predicate Silenced(s: State, n: nat) {
    n <= s.submitted && (forall j <- s.queue :: j >= n) && forall j: nat :: InFlight(s, j) && j < n ==> j in s.cancelled
  }

  lemma SilencedStep(s: State, l: Limits, step: Step, n: nat)
    requires Silenced(s, n) && Enabled(s, l, step)
    ensures Silenced(Apply(s, l, step), n)
    ensures var t := Apply(s, l, step);
            t.played == s.played || (t.played == s.played + [(s.playing.value, s.consumed)] && s.playing.value >= n)
  {
    var t := Apply(s, l, step);
    forall j: nat | InFlight(t, j) && j < n ensures j in t.cancelled {
      if step.TakeJob? { assert s.queue[0] in s.queue; }
      assert InFlight(s, j);
    }
    assert forall j <- t.queue :: j >= n by {
      if step.TakeJob? { assert forall j <- t.queue :: j in s.queue; }
    }
    assert n <= t.submitted;
    assert Silenced(t, n);
    if step.PlayBatch? { assert InFlight(s, s.playing.value); }
  }

  lemma {:induction false} SilencedRuns(s: State, l: Limits, steps: seq<Step>, t: State, n: nat)
    requires Silenced(s, n) && Runs(s, l, steps, t)
    ensures s.played <= t.played && forall i :: |s.played| <= i < |t.played| ==> t.played[i].0 >= n
    decreases |steps|
  {
    hide Silenced, Enabled, Apply;
    if steps != [] {
      SilencedStep(s, l, steps[0], n);
      SilencedRuns(Apply(s, l, steps[0]), l, steps[1..], t, n);
    }
  }

  /** After cancel_all nothing submitted before it is given to the player again, whatever happens next. */
  lemma CancelAllIsFinal(l: Limits, before: seq<Step>, s: State, after: seq<Step>, t: State)
    requires Runs(START, l, before, s) && Runs(Apply(s, l, CancelAll), l, after, t)
    ensures s.played <= t.played
    ensures forall i :: |s.played| <= i < |t.played| ==> t.played[i].0 >= s.submitted
  {
    hide Rising, PlayedSoFar, Runs;
    StartSound(l);
    RunsSound(START, l, before, s);
    var c := Apply(s, l, CancelAll);
    forall j: nat | InFlight(c, j) ensures j in c.cancelled { assert InFlight(s, j); }
    SilencedRuns(c, l, after, t, s.submitted);
  }

  // ---- cancel_all itself

  class PreparedAudio {
    var cancelled: bool
    constructor ()
      ensures !cancelled
    {
      cancelled := false;
    }
  }

  class GuildSession {
    var queue: seq<Job>
    var active: set<PreparedAudio>

    /** Empties the queue, flags every active item, and says how many jobs that dropped. */
    method CancelAll() returns (removed: nat)
      modifies this`queue, active
      ensures queue == [] && active == old(active) && forall p <- active :: p.cancelled
      ensures removed == |old(queue)| + |set p | p in old(active) && !old(p.cancelled)|
    {
      removed := 0;
      while queue != []
        invariant removed + |queue| == |old(queue)| && unchanged(active)
        decreases |queue|
      {
        queue := queue[1..];
        removed := removed + 1;
      }
      ghost var live := set p | p in active && !old(p.cancelled);
      assert live == set p | p in active && !p.cancelled;
      var flagged := FlagActive();
      removed := removed + flagged;
    }

    method FlagActive() returns (flagged: nat)
      modifies active
      ensures forall p <- active :: p.cancelled
      ensures flagged == |set p | p in active && !old(p.cancelled)|
    {
      flagged := 0;
      var rest := active;
      ghost var live := set p | p in active && !old(p.cancelled);
      ghost var flipped: set<PreparedAudio> := {};
      while rest != {}
        invariant rest <= active && flagged == |flipped|
        invariant forall p :: p in flipped <==> p in live && p !in rest
        invariant forall p <- active :: p.cancelled == (old(p.cancelled) || p !in rest)
        decreases |rest|
      {
        var p :| p in rest;
        if !p.cancelled {
          p.cancelled := true;
          flagged := flagged + 1;
          flipped := flipped + {p};
        }
        rest := rest - {p};
      }
      assert flipped == live;
    }
  }
}
