/** What becomes of every job of a guild over whole runs (ttsbot/session.py, pipeline.py, playback.py). */
module SessionRuns {
  import opened Bytes
  import opened Session

  // ---- Generation

  /** A job is generated once, after it found room and before the jobs behind it. */
  ghost predicate Pipe(s: State) {
    && s.generating !! s.ended
    && (forall j :: j in s.generating || j in s.ended ==> j < s.submitted && Before(j, s))
    && (forall j :: s.playing == Some(j) || j in s.ready ==> j in s.generating || j in s.ended)
    && (s.playing.Some? ==> s.consumed <= Made(s, s.playing.value))
  }

  ghost predicate Before(j: Job, s: State) {
    (s.inHand.Some? ==> j < s.inHand.value) && forall k <- s.queue :: j < k
  }

  /** The job in hand is ahead of the queue. */
  lemma HandAhead(s: State)
    requires Rising(Line(s), s.submitted) && s.inHand.Some?
    ensures s.inHand.value < s.submitted && forall k <- s.queue :: s.inHand.value < k
  {
    var at := |Opt(s.playing)| + |s.ready|;
    assert Line(s)[at] == s.inHand.value;
    forall k <- s.queue ensures s.inHand.value < k {
      var i: nat :| i < |s.queue| && s.queue[i] == k;
      assert Line(s)[at + 1 + i] == k;
    }
  }

  lemma StaysBefore(s: State, l: Limits, step: Step, j: Job)
    requires Enabled(s, l, step) && Before(j, s) && j < s.submitted
    ensures Before(j, Apply(s, l, step))
  {
    var t := Apply(s, l, step);
    assert forall k <- t.queue :: k in s.queue || k == s.submitted;
    if step.TakeJob? { assert t.inHand.value in s.queue; }
  }

  lemma NowBefore(s: State, l: Limits)
    requires Rising(Line(s), s.submitted) && Enabled(s, l, PutReady)
    ensures s.inHand.value < s.submitted && Before(s.inHand.value, Apply(s, l, PutReady))
  {
    HandAhead(s);
  }

  lemma NotBeforeItself(s: State)
    requires s.inHand.Some?
    ensures !Before(s.inHand.value, s)
  {}

  lemma StepPipe(s: State, l: Limits, step: Step)
    requires Rising(Line(s), s.submitted) && Pipe(s) && Enabled(s, l, step)
    ensures Pipe(Apply(s, l, step))
  {
    hide Rising, Line, Before;
    var t := Apply(s, l, step);
    forall j: Job | Before(j, s) && j < s.submitted ensures Before(j, t) { StaysBefore(s, l, step, j); }
    if step.PutReady? {
      NowBefore(s, l);
      assert s.inHand.value !in s.ended by { assert !Before(s.inHand.value, s) by { NotBeforeItself(s); } }
    }
  }

  /** Both invariants in every state of a run. */
  lemma {:induction false} RunsPipe(s: State, l: Limits, steps: seq<Step>, t: State)
    requires Sound(s, l) && Pipe(s) && Runs(s, l, steps, t)
    ensures Sound(t, l) && Pipe(t)
    decreases |steps|
  {
    hide Sound, Pipe, Enabled, Apply;
    if steps != [] {
      StepBoth(s, l, steps[0]);
      RunsPipe(Apply(s, l, steps[0]), l, steps[1..], t);
    }
  }

  lemma StepBoth(s: State, l: Limits, step: Step)
    requires Sound(s, l) && Pipe(s) && Enabled(s, l, step)
    ensures Sound(Apply(s, l, step), l) && Pipe(Apply(s, l, step))
  {
    hide Apply, Enabled, Pipe, Rising, ActiveExact, PlayedSoFar;
    StepSound(s, l, step);
    StepPipe(s, l, step);
  }

  lemma StartBoth(l: Limits)
    ensures Sound(START, l) && Pipe(START)
  {
    StartSound(l);
  }

  lemma CountFirst(steps: seq<Step>, e: Step)
    requires steps != []
    ensures multiset(steps)[e] == multiset(steps[1..])[e] + if steps[0] == e then 1 else 0
  {
    assert steps == [steps[0]] + steps[1..];
  }

  /** A channel holds one batch for each Emit of its job. */
  lemma {:induction false} MadeCounts(s: State, l: Limits, steps: seq<Step>, t: State, job: Job)
    requires Runs(s, l, steps, t)
    ensures Made(t, job) == Made(s, job) + multiset(steps)[Emit(job)]
    decreases |steps|
  {
    if steps != [] {
      CountFirst(steps, Emit(job));
      MadeCounts(Apply(s, l, steps[0]), l, steps[1..], t, job);
    }
  }

  // ---- Who is cancelled

  /** The step cancels the job: it is active, or the player had it and gave it up. */
  predicate Cancels(s: State, step: Step, job: Job) {
    match step
    case CancelAll => InFlight(s, job)
    case Disconnect => InFlight(s, job)
    case VoiceFails(giveUp) => s.playing == Some(job) && giveUp
    case PlayFails => s.playing == Some(job)
    case PlayBatch(stopped) => s.playing == Some(job) && stopped && !s.draining
    case _ => false
  }

  ghost predicate CancelledIn(s: State, l: Limits, steps: seq<Step>, job: Job)
    decreases |steps|
  {
    steps != [] && Enabled(s, l, steps[0]) &&
    (Cancels(s, steps[0], job) || CancelledIn(Apply(s, l, steps[0]), l, steps[1..], job))
  }

  lemma StepCancels(s: State, l: Limits, step: Step, job: Job)
    requires ActiveExact(s) && Enabled(s, l, step)
    ensures job in Apply(s, l, step).cancelled <==> job in s.cancelled || Cancels(s, step, job)
  {}

  lemma {:induction false} CancelledSince(s: State, l: Limits, steps: seq<Step>, t: State, job: Job)
    requires Sound(s, l) && Runs(s, l, steps, t)
    ensures job in t.cancelled <==> job in s.cancelled || CancelledIn(s, l, steps, job)
    decreases |steps|
  {
    hide Cancels, Enabled, Apply, Rising, PlayedSoFar, Line;
    if steps != [] {
      StepCancels(s, l, steps[0], job);
      StepSound(s, l, steps[0]);
      CancelledSince(Apply(s, l, steps[0]), l, steps[1..], t, job);
    }
  }

  /** A job is cancelled exactly when some step of the run cancelled it. */
  lemma CancelledIff(l: Limits, steps: seq<Step>, t: State, job: Job)
    requires Runs(START, l, steps, t)
    ensures job in t.cancelled <==> CancelledIn(START, l, steps, job)
  {
    hide Sound, Runs, CancelledIn;
    StartSound(l);
    CancelledSince(START, l, steps, t, job);
  }

  // ---- What becomes of a job

  /** The step cancels the job, drops it from the queue, or skips it for want of voice. */
  predicate Strikes(s: State, step: Step, job: Job) {
    || Cancels(s, step, job)
    || (step.CancelAll? && job in s.queue)
    || (step.VoiceFails? && s.playing == Some(job))
  }

  ghost predicate Struck(s: State, l: Limits, steps: seq<Step>, job: Job)
    decreases |steps|
  {
    steps != [] && Enabled(s, l, steps[0]) &&
    (Strikes(s, steps[0], job) || Struck(Apply(s, l, steps[0]), l, steps[1..], job))
  }

  /** Every batch made for the job was given to the player, in one unbroken block. */
  ghost predicate PlayedWhole(s: State, job: Job) {
    exists i: nat :: BlockAt(s.played, i, job, Made(s, job))
  }

  /** The first n batches of the job, from place i of the log. */
  ghost predicate BlockAt(played: seq<(Job, nat)>, i: nat, job: Job, n: nat) {
    i + n <= |played| && forall k :: 0 <= k < n ==> played[i + k] == (job, k)
  }

  /** A job nothing has struck: not submitted yet, in line and not being drained, or played whole. */
  ghost predicate Unharmed(s: State, job: Job) {
    && job !in s.cancelled && (s.playing == Some(job) ==> !s.draining)
    && (job < s.submitted ==> job in Line(s) || (job in s.ended && PlayedWhole(s, job)))
  }

  lemma LineHas(s: State)
    ensures forall j :: j in Line(s) <==> InFlight(s, j) || j in s.queue
  {}

  lemma WholeStays(s: State, t: State, job: Job)
    requires PlayedWhole(s, job) && s.played <= t.played && Made(t, job) == Made(s, job)
    ensures PlayedWhole(t, job)
  {
    var i: nat :| BlockAt(s.played, i, job, Made(s, job));
    assert BlockAt(t.played, i, job, Made(t, job));
  }

  lemma LastBlock(played: seq<(Job, nat)>, job: Job, n: nat)
    requires InOrder(played) && n > 0 && played != [] && played[|played| - 1] == (job, n - 1)
    ensures |played| >= n && BlockAt(played, |played| - n, job, n)
  {
    BlockEndsAt(played, |played| - 1);
    hide InOrder;
    forall k | 0 <= k < n ensures played[|played| - n + k] == (job, k) {
      assert played[|played| - 1 - (n - 1) + k] == (job, k);
    }
  }

  lemma NoBlock(played: seq<(Job, nat)>, job: Job)
    ensures BlockAt(played, 0, job, 0)
  {}

  /** The job at the player ends, undisturbed. */
  lemma EndsWhole(s: State, l: Limits)
    requires PlayedSoFar(s) && Enabled(s, l, PlayEnd) && !s.draining && s.playing.value !in s.cancelled
    ensures PlayedWhole(Apply(s, l, PlayEnd), s.playing.value)
  {
    hide Line, Behind, InOrder, Reached, BlockAt;
    var job, n, t := s.playing.value, Made(s, s.playing.value), Apply(s, l, PlayEnd);
    if n > 0 {
      LastBlock(s.played, job, n);
      assert BlockAt(t.played, |s.played| - n, job, Made(t, job));
    } else {
      assert BlockAt(t.played, 0, job, Made(t, job)) by { NoBlock(t.played, job); }
    }
  }

  lemma StaysInLine(s: State, l: Limits, step: Step, job: Job)
    requires Enabled(s, l, step) && job in Line(s) && !Strikes(s, step, job) && job !in s.cancelled
    ensures job in Line(Apply(s, l, step)) || (step.PlayEnd? && s.playing == Some(job))
  {
    hide Line;
    LineHas(s);
    LineHas(Apply(s, l, step));
  }

  lemma JoinsLine(s: State, l: Limits, step: Step, job: Job)
    requires Enabled(s, l, step) && s.submitted <= job < Apply(s, l, step).submitted
    ensures job in Line(Apply(s, l, step))
  {
    hide Line;
    LineHas(Apply(s, l, step));
  }

  lemma StepUnharmed(s: State, l: Limits, step: Step, job: Job)
    requires Sound(s, l) && Pipe(s) && Enabled(s, l, step) && Unharmed(s, job) && !Strikes(s, step, job)
    ensures Unharmed(Apply(s, l, step), job)
  {
    hide Rising, Line, PlayedWhole, PlayedSoFar, Before;
    var t := Apply(s, l, step);
    StepCancels(s, l, step, job);
    if job in Line(s) {
      StaysInLine(s, l, step, job);
      if step.PlayEnd? && s.playing == Some(job) { EndsWhole(s, l); }
    } else if job < s.submitted {
      WholeStays(s, t, job);
    } else if job < t.submitted {
      JoinsLine(s, l, step, job);
    }
  }

  lemma {:induction false} RunsUnharmed(s: State, l: Limits, steps: seq<Step>, t: State, job: Job)
    requires Sound(s, l) && Pipe(s) && Runs(s, l, steps, t) && Unharmed(s, job) && !Struck(s, l, steps, job)
    ensures Unharmed(t, job)
    decreases |steps|
  {
    hide Sound, Pipe, Strikes, Unharmed, Enabled, Apply;
    if steps != [] {
      StepUnharmed(s, l, steps[0], job);
      StepBoth(s, l, steps[0]);
      RunsUnharmed(Apply(s, l, steps[0]), l, steps[1..], t, job);
    }
  }

  /**
   Whatever happens, every job submitted is still in line, was struck, or was played whole: one batch for each Emit of
   it, in one block. One that was not struck is never drained.
   */
  lemma NothingLost(l: Limits, steps: seq<Step>, t: State, job: Job)
    requires Runs(START, l, steps, t) && job < t.submitted && !Struck(START, l, steps, job)
    ensures job !in t.cancelled && (t.playing == Some(job) ==> !t.draining)
    ensures job in Line(t) || PlayedWhole(t, job)
    ensures Made(t, job) == multiset(steps)[Emit(job)]
  {
    hide Sound, Pipe, Struck, Line, PlayedWhole, Runs;
    StartBoth(l);
    RunsUnharmed(START, l, steps, t, job);
    MadeCounts(START, l, steps, t, job);
  }

  // ---- Runs in which nothing goes wrong

  /** No cancellation, no lost voice, no stopped player. */
  predicate Smooth(steps: seq<Step>) {
    forall e <- steps :: !e.CancelAll? && !e.Disconnect? && !e.VoiceFails? && !e.PlayFails? && e != PlayBatch(true)
  }

  function Batches(job: Job, n: nat): seq<(Job, nat)> { seq(n, k => (job, k)) }

  /** All batches made for the jobs below n, job by job. */
  function BlocksBelow(s: State, n: nat): seq<(Job, nat)> {
    if n == 0 then [] else BlocksBelow(s, n - 1) + Batches(n - 1, Made(s, n - 1))
  }

  /** Jobs below done have ended and were played whole; the rest are in line, each in its turn. */
  ghost predicate Flowing(s: State, done: nat) { InTurn(s, done) && s.played == BlocksBelow(s, done) + PartPlayed(s) }

  ghost predicate InTurn(s: State, done: nat) {
    && s.cancelled == {} && !s.draining && (forall j <- s.generating :: done <= j)
    && |Line(s)| == s.submitted - done && Numbered(Line(s), done)
  }

  ghost predicate Numbered(q: seq<Job>, first: nat) { forall i :: 0 <= i < |q| ==> q[i] == first + i }

  function PartPlayed(s: State): seq<(Job, nat)> { if s.playing.Some? then Batches(s.playing.value, s.consumed) else [] }

  lemma {:induction false} BlocksKept(s: State, t: State, n: nat)
    requires forall j: Job :: j < n ==> Made(t, j) == Made(s, j)
    ensures BlocksBelow(t, n) == BlocksBelow(s, n)
  {
    if n > 0 { BlocksKept(s, t, n - 1); }
  }

  /** What a step does to the line. */
  lemma LineMoves(s: State, l: Limits, step: Step)
    requires Enabled(s, l, step) && !step.CancelAll?
    ensures var t := Apply(s, l, step);
      match step
      case Submit => Line(t) == Line(s) + [s.submitted]
      case PlayEnd => Line(s) != [] && Line(t) == Line(s)[1..]
      case PlayDrop => Line(s) != [] && Line(t) == Line(s)[1..]
      case _ => Line(t) == Line(s)
  {
    hide Behind;
    BehindMoves(s, l, step);
    match step {
      case Submit => JoinThree(Opt(s.playing), Behind(s), [s.submitted]);
      case PlayTake => assert [s.ready[0]] + Behind(s)[1..] == Behind(s);
      case _ =>
    }
  }

  lemma NumberedMoves(q: seq<Job>, first: nat, n: nat)
    requires Numbered(q, first)
    ensures first + |q| == n ==> Numbered(q + [n], first)
    ensures q != [] ==> Numbered(q[1..], first + 1)
    ensures forall j <- q :: first <= j
  {}

  lemma HandInLine(s: State)
    ensures s.playing.Some? ==> Line(s) != [] && Line(s)[0] == s.playing.value
    ensures s.inHand.Some? ==> s.inHand.value in Line(s)
  {
    BehindHas(s);
  }

  lemma StepInTurn(s: State, l: Limits, step: Step, done: nat)
    requires InTurn(s, done) && Pipe(s) && Enabled(s, l, step) && Smooth([step])
    ensures InTurn(Apply(s, l, step), if step.PlayEnd? then done + 1 else done)
  {
    hide Line, Before, Numbered;
    assert step in [step];
    LineMoves(s, l, step);
    NumberedMoves(Line(s), done, s.submitted);
    HandInLine(s);
    if step.PlayEnd? { HeadIs(Line(s), done); }
  }

  lemma HeadIs(q: seq<Job>, first: nat)
    requires Numbered(q, first) && q != []
    ensures q[0] == first
  {}

  lemma StepBlocks(s: State, l: Limits, step: Step, done: nat)
    requires Flowing(s, done) && Enabled(s, l, step) && Smooth([step])
    ensures var t := Apply(s, l, step);
            t.played == BlocksBelow(t, if step.PlayEnd? then done + 1 else done) + PartPlayed(t)
            && |t.played| == |s.played| + if step.PlayBatch? then 1 else 0
  {
    hide Line, Numbered;
    var t := Apply(s, l, step);
    assert step in [step];
    HandInLine(s);
    if s.playing.Some? { HeadIs(Line(s), done); }
    BlocksKept(s, t, done);
    if step.PlayBatch? {
      var last := [(s.playing.value, s.consumed)];
      assert Batches(s.playing.value, s.consumed + 1) == Batches(s.playing.value, s.consumed) + last;
      JoinThree(BlocksBelow(s, done), Batches(s.playing.value, s.consumed), last);
    } else if step.PlayEnd? {
      assert BlocksBelow(t, done + 1) == BlocksBelow(t, done) + Batches(done, Made(t, done));
    }
  }

  lemma {:induction false} RunsFlowing(s: State, l: Limits, steps: seq<Step>, t: State, done: nat)
    requires Sound(s, l) && Pipe(s) && Flowing(s, done) && Runs(s, l, steps, t) && Smooth(steps)
    ensures Flowing(t, done + multiset(steps)[PlayEnd])
    ensures |t.played| == |s.played| + multiset(steps)[PlayBatch(false)]
    ensures t.submitted == s.submitted + multiset(steps)[Submit]
    decreases |steps|
  {
    hide Sound, Pipe, Flowing, Enabled;
    if steps != [] {
      var e, next := steps[0], Apply(s, l, steps[0]);
      assert e in steps;
      CountFirst(steps, PlayEnd);
      CountFirst(steps, PlayBatch(false));
      CountFirst(steps, Submit);
      StepSmooth(s, l, e, done);
      hide Apply;
      StepBoth(s, l, e);
      RunsFlowing(next, l, steps[1..], t, if e.PlayEnd? then done + 1 else done);
    }
  }

  lemma StepSmooth(s: State, l: Limits, step: Step, done: nat)
    requires Flowing(s, done) && Pipe(s) && Enabled(s, l, step) && Smooth([step])
    ensures Flowing(Apply(s, l, step), if step.PlayEnd? then done + 1 else done)
    ensures |Apply(s, l, step).played| == |s.played| + if step.PlayBatch? then 1 else 0
  {
    StepInTurn(s, l, step, done);
    StepBlocks(s, l, step, done);
    hide *;
    BothFlow(Apply(s, l, step), if step.PlayEnd? then done + 1 else done);
  }

  lemma BothFlow(s: State, done: nat)
    ensures Flowing(s, done) <==> InTurn(s, done) && s.played == BlocksBelow(s, done) + PartPlayed(s)
  {}

  /** The batches made for the jobs below n over a run, job by job. */
  function BlocksOf(steps: seq<Step>, n: nat): seq<(Job, nat)> {
    if n == 0 then [] else BlocksOf(steps, n - 1) + Batches(n - 1, multiset(steps)[Emit(n - 1)])
  }

  lemma {:induction false} BlocksAreCounts(l: Limits, steps: seq<Step>, t: State, n: nat)
    requires Runs(START, l, steps, t)
    ensures BlocksBelow(t, n) == BlocksOf(steps, n)
  {
    hide Runs;
    if n > 0 {
      BlocksAreCounts(l, steps, t, n - 1);
      MadeCounts(START, l, steps, t, n - 1);
    }
  }

  /**
   Until something goes wrong: the jobs that ended are the first ones, each was played whole and in order, the next one
   as far as it was taken, and all others are in line in their turn.
   */
  lemma SmoothRun(l: Limits, steps: seq<Step>, t: State)
    requires Runs(START, l, steps, t) && Smooth(steps)
    ensures var done := multiset(steps)[PlayEnd];
      && t.played == BlocksOf(steps, done) + (if t.playing.Some? then Batches(done, t.consumed) else [])
      && |t.played| == multiset(steps)[PlayBatch(false)]
      && |Line(t)| == multiset(steps)[Submit] - done && (forall i :: 0 <= i < |Line(t)| ==> Line(t)[i] == done + i)
      && t.cancelled == {} && !t.draining
  {
    hide Sound, Pipe, Runs, Smooth, Behind, BlocksBelow, BlocksOf;
    var done := multiset(steps)[PlayEnd];
    StartBoth(l);
    StartFlows();
    RunsFlowing(START, l, steps, t, 0);
    BlocksAreCounts(l, steps, t, done);
    if t.playing.Some? { assert Line(t)[0] == t.playing.value; }
  }

  lemma StartFlows()
    ensures Flowing(START, 0)
  {}

  // ---- Generation runs ahead of playback

  /** As many jobs as the window holds can be in generation at once, none of them playing yet. */
  lemma CanPrefetch(l: Limits) returns (steps: seq<Step>, t: State)
    requires l.queueMax > 0
    ensures Runs(START, l, steps, t) && |t.ready| == l.lookahead && t.playing.None?
    ensures (forall j <- t.ready :: j in t.generating) && forall i, j :: 0 <= i < j < |t.ready| ==> t.ready[i] != t.ready[j]
  {
    StartAhead();
    steps, t := CanPrefetchMore(START, l);
  }

  lemma StartAhead()
    ensures Ahead(START)
  {}

  /** Nothing waits before the window and everything in it is being generated. */
  ghost predicate Ahead(s: State) {
    && s.queue == [] && s.inHand.None? && s.playing.None?
    && (forall j <- s.ready :: j < s.submitted && j in s.generating)
    && forall i, j :: 0 <= i < j < |s.ready| ==> s.ready[i] != s.ready[j]
  }

  lemma {:induction false} CanPrefetchMore(s: State, l: Limits) returns (steps: seq<Step>, t: State)
    requires l.queueMax > 0 && Ahead(s) && |s.ready| <= l.lookahead
    ensures Runs(s, l, steps, t) && Ahead(t) && |t.ready| == l.lookahead
    decreases l.lookahead - |s.ready|
  {
    if |s.ready| == l.lookahead {
      return [], s;
    }
    var a := Apply(s, l, Submit);
    assert a.queue == [s.submitted];
    var b := Apply(a, l, TakeJob);
    var c := Apply(b, l, PutReady);
    assert b.queue == [] && c.ready == s.ready + [s.submitted];
    steps, t := CanPrefetchMore(c, l);
    RunsThree(s, l, Submit, TakeJob, PutReady, steps, t);
    steps := [Submit, TakeJob, PutReady] + steps;
  }

  lemma RunsThree(s: State, l: Limits, a: Step, b: Step, c: Step, rest: seq<Step>, t: State)
    requires Enabled(s, l, a) && Enabled(Apply(s, l, a), l, b) && Enabled(Apply(Apply(s, l, a), l, b), l, c)
    requires Runs(Apply(Apply(Apply(s, l, a), l, b), l, c), l, rest, t)
    ensures Runs(s, l, [a, b, c] + rest, t)
  {
    hide Enabled, Apply;
    var all := [a, b, c] + rest;
    assert all[1..][1..][1..] == rest;
    assert Runs(Apply(Apply(s, l, a), l, b), l, all[1..][1..], t);
    assert Runs(Apply(s, l, a), l, all[1..], t);
  }

  // ---- The workers alone empty the line

  predicate WorkersOnly(steps: seq<Step>) {
    forall e <- steps :: e.TakeJob? || e.PutReady? || e.Finish? || e.PlayTake? || e.PlayEnd? || e == PlayBatch(false)
  }

  /** What the workers do next. */
  function NextStep(s: State): Step {
    if s.playing.Some? then
      if s.consumed < Made(s, s.playing.value) then PlayBatch(false)
      else if s.playing.value in s.ended then PlayEnd else Finish(s.playing.value)
    else if s.ready != [] then PlayTake
    else if s.inHand.Some? then PutReady
    else TakeJob
  }

  function Unfinished(s: State): nat { if s.playing.Some? && s.playing.value in s.ended then 0 else 1 }

  function Untaken(s: State): nat {
    if s.playing.Some? && s.consumed <= Made(s, s.playing.value) then Made(s, s.playing.value) - s.consumed else 0
  }

  lemma NextStepGoes(s: State, l: Limits)
    requires Pipe(s) && Line(s) != [] && l.lookahead > 0
    ensures Enabled(s, l, NextStep(s))
    ensures var e, t := NextStep(s), Apply(s, l, NextStep(s));
      match e
      case PlayBatch(_) => |Line(t)| == |Line(s)| && t.queue == s.queue && t.inHand == s.inHand && t.ready == s.ready
                           && Unfinished(t) == Unfinished(s) && Untaken(t) < Untaken(s)
      case PlayEnd => |Line(t)| < |Line(s)|
      case Finish(_) => |Line(t)| == |Line(s)| && t.queue == s.queue && t.inHand == s.inHand && t.ready == s.ready
                        && Unfinished(t) < Unfinished(s)
      case PlayTake => |Line(t)| == |Line(s)| && t.queue == s.queue && t.inHand == s.inHand && |t.ready| < |s.ready|
      case PutReady => |Line(t)| == |Line(s)| && t.queue == s.queue && s.inHand.Some? && t.inHand.None?
      case TakeJob => |Line(t)| == |Line(s)| && |t.queue| < |s.queue|
      case _ => false
  {
    hide Before;
    BehindMoves(s, l, NextStep(s));
  }

  /** From any state, the workers alone can empty the line; nothing is ever stuck. */
  lemma {:induction false} CanFinish(s: State, l: Limits) returns (steps: seq<Step>, t: State)
    requires Sound(s, l) && Pipe(s) && l.lookahead > 0
    ensures Runs(s, l, steps, t) && WorkersOnly(steps) && Line(t) == []
    decreases |Line(s)|, |s.queue|, |Opt(s.inHand)|, |s.ready|, Unfinished(s), Untaken(s)
  {
    hide Sound, Pipe, Enabled, Apply, Untaken, Unfinished, Line;
    if Line(s) == [] {
      return [], s;
    }
    NextStepGoes(s, l);
    StepBoth(s, l, NextStep(s));
    steps, t := CanFinish(Apply(s, l, NextStep(s)), l);
    var e := NextStep(s);
    assert ([e] + steps)[0] == e && ([e] + steps)[1..] == steps;
    steps := [e] + steps;
  }

  lemma {:induction false} RunsJoin(s: State, l: Limits, a: seq<Step>, u: State, b: seq<Step>, t: State)
    requires Runs(s, l, a, u) && Runs(u, l, b, t)
    ensures Runs(s, l, a + b, t)
    decreases |a|
  {
    hide Enabled, Apply;
    if a == [] {
      assert a + b == b;
    } else {
      FirstOfSum(a, b);
      RunsJoin(Apply(s, l, a[0]), l, a[1..], u, b, t);
    }
  }

  lemma {:induction false} WorkersStrikeNone(s: State, l: Limits, steps: seq<Step>, t: State, job: Job)
    requires Runs(s, l, steps, t) && WorkersOnly(steps)
    ensures !Struck(s, l, steps, job)
    decreases |steps|
  {
    if steps != [] {
      assert steps[0] in steps;
      WorkersStrikeNone(Apply(s, l, steps[0]), l, steps[1..], t, job);
    }
  }

  lemma {:induction false} StruckJoin(s: State, l: Limits, a: seq<Step>, u: State, b: seq<Step>, t: State, job: Job)
    requires Runs(s, l, a, u) && Runs(u, l, b, t) && WorkersOnly(b)
    ensures Struck(s, l, a + b, job) <==> Struck(s, l, a, job)
    decreases |a|
  {
    if a != [] {
      FirstOfSum(a, b);
      StruckJoin(Apply(s, l, a[0]), l, a[1..], u, b, t, job);
    } else {
      assert a + b == b;
      WorkersStrikeNone(s, l, b, t, job);
    }
  }

  /** Whatever has happened so far, the workers alone can bring every job that was not struck to be played whole. */
  lemma AllCanBePlayed(l: Limits, before: seq<Step>, s: State) returns (after: seq<Step>, t: State)
    requires Runs(START, l, before, s) && l.lookahead > 0
    ensures Runs(START, l, before + after, t) && WorkersOnly(after) && t.submitted == s.submitted
    ensures forall job: Job :: job < s.submitted && !Struck(START, l, before, job) ==> PlayedWhole(t, job)
  {
    hide Sound, Pipe, Runs, Struck, PlayedWhole, WorkersOnly;
    StartBoth(l);
    RunsPipe(START, l, before, s);
    after, t := CanFinish(s, l);
    RunsJoin(START, l, before, s, after, t);
    WorkersSubmitNone(s, l, after, t);
    forall job: Job | job < s.submitted && !Struck(START, l, before, job) ensures PlayedWhole(t, job) {
      StruckJoin(START, l, before, s, after, t, job);
      NothingLost(l, before + after, t, job);
    }
  }

  lemma {:induction false} WorkersSubmitNone(s: State, l: Limits, steps: seq<Step>, t: State)
    requires Runs(s, l, steps, t) && WorkersOnly(steps)
    ensures t.submitted == s.submitted
    decreases |steps|
  {
    if steps != [] {
      assert steps[0] in steps;
      WorkersSubmitNone(Apply(s, l, steps[0]), l, steps[1..], t);
    }
  }
}
