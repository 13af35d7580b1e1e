/**
 Fish's shared requests (ttsbot/fish.py) as a state machine: one producer per text and voice, any number of listeners
 that join while it runs. A step is what runs between two awaits.
 */
module Flights {
  import opened Bytes

  type Key = nat

  datatype Failure = NoAudio | Upstream(code: nat)

  datatype Producer = Streaming | Finishing | Done // Finishing: the stream is over, done is not set yet

  datatype Flight = Flight(
    key: Key,
    chunks: seq<seq<byte>>,
    listeners: nat,
    error: Option<Failure>,
    producer: Producer,
    cancelled: bool) // its task was told to stop

  datatype Outcome = Ended | Raised(error: Failure) | Abandoned

  datatype Phase = Reading | Leaving(how: Outcome) | Left(how: Outcome)

  datatype Listener = Listener(key: Key, flight: nat, index: nat, seen: seq<seq<byte>>, phase: Phase)

  datatype State = State(table: map<Key, nat>, flights: seq<Flight>, listeners: seq<Listener>)

  const START := State(map[], [], [])

  datatype Step =
    | Join(key: Key)
    | Chunk(f: nat, chunk: seq<byte>) | StreamEnds(f: nat) | StreamFails(f: nat, code: nat) | StreamCancelled(f: nat)
    | SetDone(f: nat)
    | Read(who: nat) | Finish(who: nat) | Abandon(who: nat) | Leave(who: nat)

  predicate Running(s: State, f: nat) { f < |s.flights| && s.flights[f].producer.Streaming? }

  predicate Waits(s: State, who: nat) {
    who < |s.listeners| && s.listeners[who].phase.Reading? && s.listeners[who].flight < |s.flights|
  }

  predicate Enabled(s: State, step: Step) {
    match step
    case Join(_) => true
    case Chunk(f, _) => Running(s, f)
    case StreamEnds(f) => Running(s, f)
    case StreamFails(f, _) => Running(s, f)
    case StreamCancelled(f) => Running(s, f) && s.flights[f].cancelled
    case SetDone(f) => f < |s.flights| && s.flights[f].producer.Finishing?
    case Read(who) => Waits(s, who) && s.listeners[who].index < |s.flights[s.listeners[who].flight].chunks|
    case Finish(who) =>
      && Waits(s, who)
      && s.listeners[who].index >= |s.flights[s.listeners[who].flight].chunks|
      && s.flights[s.listeners[who].flight].producer.Done?
    case Abandon(who) => Waits(s, who)
    case Leave(who) =>
      who < |s.listeners| && s.listeners[who].phase.Leaving? && s.listeners[who].flight < |s.flights|
  }

  function JoinKey(s: State, key: Key): State {
    if key in s.table && s.table[key] < |s.flights| then
      var f := s.table[key];
      s.(flights := s.flights[f := s.flights[f].(listeners := s.flights[f].listeners + 1)],
         listeners := s.listeners + [Listener(key, f, 0, [], Reading)])
    else
      State(s.table[key := |s.flights|],
            s.flights + [Flight(key, [], 1, None, Streaming, false)],
            s.listeners + [Listener(key, |s.flights|, 0, [], Reading)])
  }

  /** The finally block; the last listener stops an unfinished producer and takes the key out of the table. */
  function LeaveFlight(s: State, who: nat): State
    requires Enabled(s, Leave(who))
  {
    var x := s.listeners[who];
    var flight := s.flights[x.flight];
    var left := if flight.listeners > 0 then flight.listeners - 1 else 0;
    State(
      if left == 0 then s.table - {x.key} else s.table,
      s.flights[x.flight := flight.(listeners := left,
                                    cancelled := flight.cancelled || (left == 0 && !flight.producer.Done?))],
      s.listeners[who := x.(phase := Left(x.phase.how))])
  }

  /** What a step does to the one flight it is about. */
  function Change(flight: Flight, step: Step): Flight {
    match step
    case Chunk(_, chunk) => if chunk == [] then flight else flight.(chunks := flight.chunks + [chunk])
    case StreamEnds(_) =>
      flight.(producer := Finishing, error := if flight.chunks == [] then Some(NoAudio) else flight.error)
    case StreamFails(_, code) => flight.(producer := Finishing, error := Some(Upstream(code)))
    case StreamCancelled(_) => flight.(producer := Finishing)
    case _ => flight.(producer := Done)
  }

  predicate ByProducer(step: Step) {
    step.Chunk? || step.StreamEnds? || step.StreamFails? || step.StreamCancelled? || step.SetDone?
  }

  /** What a step does to the one listener that takes it. */
  function Listen(x: Listener, flight: Flight, step: Step): Listener
    requires step.Read? ==> x.index < |flight.chunks|
  {
    match step
    case Read(_) => x.(index := x.index + 1, seen := x.seen + [flight.chunks[x.index]])
    case Finish(_) => x.(phase := Leaving(if flight.error.Some? then Raised(flight.error.value) else Ended))
    case _ => x.(phase := Leaving(Abandoned))
  }

  function Apply(s: State, step: Step): State
    requires Enabled(s, step)
  {
    if step.Join? then JoinKey(s, step.key)
    else if step.Leave? then LeaveFlight(s, step.who)
    else if ByProducer(step) then s.(flights := s.flights[step.f := Change(s.flights[step.f], step)])
    else
      var x := s.listeners[step.who];
      s.(listeners := s.listeners[step.who := Listen(x, s.flights[x.flight], step)])
  }

  ghost predicate Runs(s: State, steps: seq<Step>, t: State)
    decreases |steps|
  {
    if steps == [] then s == t else Enabled(s, steps[0]) && Runs(Apply(s, steps[0]), steps[1..], t)
  }

  // ---- The invariant

  predicate Holds(x: Listener, f: nat) { x.flight == f && !x.phase.Left? }

  function Bit(b: bool): nat { if b then 1 else 0 }

  /** How many listeners of a flight have not left it. */
  function Held(xs: seq<Listener>, f: nat): nat {
    if xs == [] then 0 else Held(xs[..|xs| - 1], f) + Bit(Holds(xs[|xs| - 1], f))
  }

  predicate FlightOk(flight: Flight) {
    && (flight.cancelled ==> flight.listeners == 0)
    && (flight.listeners == 0 ==> flight.cancelled || flight.producer.Done?)
    && (flight.producer.Streaming? ==> flight.error.None?)
    && (!flight.producer.Streaming? && flight.error.None? && !flight.cancelled ==> flight.chunks != [])
    && forall i :: 0 <= i < |flight.chunks| ==> flight.chunks[i] != []
  }

  /** A listener has read its flight's chunks in order from the first; a normal end came after all of them. */
  predicate ListenerOk(x: Listener, flight: Flight) {
    && x.key == flight.key && x.index <= |flight.chunks| && x.seen == flight.chunks[..x.index]
    && (!x.phase.Reading? && !x.phase.how.Abandoned? ==> flight.producer.Done? && x.index == |flight.chunks|)
    && (!x.phase.Reading? && x.phase.how.Ended? ==> flight.error.None? && flight.chunks != [])
    && (!x.phase.Reading? && x.phase.how.Raised? ==> flight.error == Some(x.phase.how.error))
  }

  ghost predicate TableExact(table: map<Key, nat>, flights: seq<Flight>) {
    && (forall k <- table :: table[k] < |flights| && flights[table[k]].key == k && flights[table[k]].listeners > 0)
    && forall f :: 0 <= f < |flights| && flights[f].listeners > 0 ==>
         flights[f].key in table && table[flights[f].key] == f
  }

  ghost predicate Counted(flights: seq<Flight>, xs: seq<Listener>) {
    forall f :: 0 <= f < |flights| ==> flights[f].listeners == Held(xs, f)
  }

  ghost predicate FlightsOk(flights: seq<Flight>) { forall f :: 0 <= f < |flights| ==> FlightOk(flights[f]) }

  ghost predicate ListenersOk(flights: seq<Flight>, xs: seq<Listener>) {
    forall i :: 0 <= i < |xs| ==> xs[i].flight < |flights| && ListenerOk(xs[i], flights[xs[i].flight])
  }

  ghost predicate Sound(s: State) {
    && TableExact(s.table, s.flights) && Counted(s.flights, s.listeners) && FlightsOk(s.flights)
    && ListenersOk(s.flights, s.listeners)
  }

  // ---- Counting listeners

  lemma {:induction false} HeldUpdate(xs: seq<Listener>, i: nat, x: Listener, f: nat)
    requires i < |xs|
    ensures Held(xs[i := x], f) + Bit(Holds(xs[i], f)) == Held(xs, f) + Bit(Holds(x, f))
    decreases |xs|
  {
    var last := |xs| - 1;
    if i == last { assert xs[i := x][..last] == xs[..last]; }
    else {
      assert xs[i := x][..last] == xs[..last][i := x];
      HeldUpdate(xs[..last], i, x, f);
    }
  }

  lemma HeldMore(xs: seq<Listener>, x: Listener, f: nat)
    ensures Held(xs + [x], f) == Held(xs, f) + Bit(Holds(x, f))
  {
    assert (xs + [x])[..|xs|] == xs;
  }

  lemma {:induction false} HeldHas(xs: seq<Listener>, i: nat, f: nat)
    requires i < |xs| && Holds(xs[i], f)
    ensures Held(xs, f) > 0
    decreases |xs|
  {
    if i < |xs| - 1 { HeldHas(xs[..|xs| - 1], i, f); }
  }

  lemma {:induction false} HeldNone(xs: seq<Listener>, f: nat)
    requires forall i :: 0 <= i < |xs| ==> !Holds(xs[i], f)
    ensures Held(xs, f) == 0
    decreases |xs|
  {
    if xs != [] { HeldNone(xs[..|xs| - 1], f); }
  }

  /** A listener that has not left keeps its flight in the table and its producer running. */
  lemma HeldTabled(s: State, who: nat)
    requires Sound(s) && who < |s.listeners| && !s.listeners[who].phase.Left?
    ensures var x := s.listeners[who];
            && x.flight < |s.flights| && s.flights[x.flight].listeners > 0 && !s.flights[x.flight].cancelled
            && x.key in s.table && s.table[x.key] == x.flight
  {
    HeldHas(s.listeners, who, s.listeners[who].flight);
  }

  // ---- Every step keeps it

  lemma ChangeOk(flight: Flight, step: Step)
    requires FlightOk(flight) && ByProducer(step)
    requires if step.SetDone? then flight.producer.Finishing? else flight.producer.Streaming?
    requires step.StreamCancelled? ==> flight.cancelled
    ensures var g := Change(flight, step); FlightOk(g) && g.key == flight.key && g.listeners == flight.listeners
  {}

  lemma TableKept(table: map<Key, nat>, flights: seq<Flight>, f: nat, g: Flight)
    requires TableExact(table, flights) && f < |flights| && g.key == flights[f].key && g.listeners == flights[f].listeners
    ensures TableExact(table, flights[f := g])
  {}

  lemma ProducerStep(s: State, step: Step)
    requires Sound(s) && Enabled(s, step) && ByProducer(step)
    ensures Sound(Apply(s, step))
  {
    hide Held, TableExact, FlightOk;
    var t, f := Apply(s, step), step.f;
    ChangeOk(s.flights[f], step);
    TableKept(s.table, s.flights, f, t.flights[f]);
    forall i | 0 <= i < |s.listeners| ensures ListenerOk(s.listeners[i], t.flights[s.listeners[i].flight]) {
      assert ListenerOk(s.listeners[i], s.flights[s.listeners[i].flight]);
    }
  }

  lemma ListenerStep(s: State, step: Step)
    requires Sound(s) && Enabled(s, step) && (step.Read? || step.Finish? || step.Abandon?)
    ensures Sound(Apply(s, step))
  {
    var who, x := step.who, s.listeners[step.who];
    HeldTabled(s, who);
    var y := Listen(x, s.flights[x.flight], step);
    forall f | 0 <= f < |s.flights| ensures s.flights[f].listeners == Held(s.listeners[who := y], f) {
      HeldUpdate(s.listeners, who, y, f);
    }
    hide Held, TableExact;
    assert ListenerOk(y, s.flights[x.flight]);
  }

  lemma JoinStep(s: State, key: Key)
    requires Sound(s)
    ensures Sound(JoinKey(s, key))
  {
    var t := JoinKey(s, key);
    var x := t.listeners[|s.listeners|];
    forall f | 0 <= f < |t.flights| ensures t.flights[f].listeners == Held(t.listeners, f) {
      HeldMore(s.listeners, x, f);
      if f == |s.flights| { HeldNone(s.listeners, f); }
    }
    hide Held;
    if key in s.table { JoinTabled(s, key); } else { JoinNew(s, key); }
  }

  lemma JoinTabled(s: State, key: Key)
    requires Sound(s) && key in s.table
    ensures var t := JoinKey(s, key);
            TableExact(t.table, t.flights) && FlightsOk(t.flights) && ListenersOk(t.flights, t.listeners)
  {
    hide Held, Counted;
  }

  lemma JoinNew(s: State, key: Key)
    requires Sound(s) && key !in s.table
    ensures var t := JoinKey(s, key);
            TableExact(t.table, t.flights) && FlightsOk(t.flights) && ListenersOk(t.flights, t.listeners)
  {
    hide Held, Counted;
  }

  lemma LeaveStep(s: State, who: nat)
    requires Sound(s) && Enabled(s, Leave(who))
    ensures Sound(LeaveFlight(s, who))
  {
    var t, x := LeaveFlight(s, who), s.listeners[who];
    HeldTabled(s, who);
    forall f | 0 <= f < |t.flights| ensures t.flights[f].listeners == Held(t.listeners, f) {
      HeldUpdate(s.listeners, who, t.listeners[who], f);
    }
    hide Held, Counted;
    LeaveListeners(s, who);
    LeaveTable(s, who);
  }

  lemma LeaveTable(s: State, who: nat)
    requires Sound(s) && Enabled(s, Leave(who))
    ensures var t := LeaveFlight(s, who); TableExact(t.table, t.flights) && FlightsOk(t.flights)
  {
    hide Held, Counted, ListenersOk;
    HeldTabled(s, who);
  }

  lemma LeaveListeners(s: State, who: nat)
    requires ListenersOk(s.flights, s.listeners) && Enabled(s, Leave(who))
    ensures ListenersOk(LeaveFlight(s, who).flights, LeaveFlight(s, who).listeners)
  {}

  lemma StepSound(s: State, step: Step)
    requires Sound(s) && Enabled(s, step)
    ensures Sound(Apply(s, step))
  {
    hide Sound;
    if step.Join? { JoinStep(s, step.key); }
    else if step.Leave? { LeaveStep(s, step.who); }
    else if ByProducer(step) { ProducerStep(s, step); }
    else { ListenerStep(s, step); }
  }

  lemma StartSound()
    ensures Sound(START)
  {}

  lemma {:induction false} RunsSound(s: State, steps: seq<Step>, t: State)
    requires Sound(s) && Runs(s, steps, t)
    ensures Sound(t)
    decreases |steps|
  {
    hide Sound, Apply, Enabled;
    if steps != [] {
      StepSound(s, steps[0]);
      RunsSound(Apply(s, steps[0]), steps[1..], t);
    }
  }

  // ---- What it means

  /** In every run: a flight is in the table exactly while somebody listens to it. */
  lemma TabledIffHeld(steps: seq<Step>, s: State, f: nat)
    requires Runs(START, steps, s) && f < |s.flights|
    ensures (exists k <- s.table :: s.table[k] == f) <==> exists i :: 0 <= i < |s.listeners| && Holds(s.listeners[i], f)
  {
    RunsSound(START, steps, s);
    assert s.flights[f].listeners == Held(s.listeners, f);
    if forall i :: 0 <= i < |s.listeners| ==> !Holds(s.listeners[i], f) {
      HeldNone(s.listeners, f);
    } else {
      var i :| 0 <= i < |s.listeners| && Holds(s.listeners[i], f);
      HeldHas(s.listeners, i, f);
    }
  }

  /** At most one producer per key is running without having been told to stop, and it is the one in the table. */
  lemma OneProducer(steps: seq<Step>, s: State, f: nat)
    requires Runs(START, steps, s) && f < |s.flights| && !s.flights[f].producer.Done? && !s.flights[f].cancelled
    ensures s.flights[f].key in s.table && s.table[s.flights[f].key] == f
  {
    RunsSound(START, steps, s);
  }

  /** A producer is stopped only once every listener has left, and nobody joins it afterwards. */
  lemma StoppedUnheard(steps: seq<Step>, s: State, more: seq<Step>, t: State, f: nat, i: nat)
    requires Runs(START, steps, s) && f < |s.flights| && s.flights[f].cancelled
    requires Runs(s, more, t) && i < |t.listeners| && t.listeners[i].flight == f
    ensures t.listeners[i].phase.Left? && i < |s.listeners|
  {
    RunsSound(START, steps, s);
    UnheardStays(s, more, t, f, i);
  }

  ghost predicate Unheard(s: State, f: nat) {
    && f < |s.flights| && s.flights[f].listeners == 0
  }

  lemma UnheardStep(s: State, step: Step, f: nat)
    requires Sound(s) && Unheard(s, f) && Enabled(s, step)
    ensures var t := Apply(s, step);
            && Unheard(t, f) && |s.listeners| <= |t.listeners|
            && forall i :: |s.listeners| <= i < |t.listeners| ==> t.listeners[i].flight != f
  {
    hide Held;
    if step.Leave? { HeldTabled(s, step.who); }
  }

  lemma {:induction false} UnheardStays(s: State, steps: seq<Step>, t: State, f: nat, i: nat)
    requires Sound(s) && Unheard(s, f) && Runs(s, steps, t) && i < |t.listeners| && t.listeners[i].flight == f
    ensures t.listeners[i].phase.Left? && i < |s.listeners|
    decreases |steps|
  {
    if steps != [] {
      var next := Apply(s, steps[0]);
      StepSound(s, steps[0]);
      UnheardStep(s, steps[0], f);
      UnheardStays(next, steps[1..], t, f, i);
      ListenersStay(next, steps[1..], t);
    } else if !t.listeners[i].phase.Left? {
      HeldTabled(t, i);
    }
  }

  lemma {:induction false} ListenersStay(s: State, steps: seq<Step>, t: State)
    requires Runs(s, steps, t)
    ensures |s.listeners| <= |t.listeners| && forall i :: 0 <= i < |s.listeners| ==> t.listeners[i].flight == s.listeners[i].flight
    decreases |steps|
  {
    if steps != [] { ListenersStay(Apply(s, steps[0]), steps[1..], t); }
  }

  /** A listener that ended normally has, at any later time, seen all of its flight's chunks: one at least, none empty. */
  lemma NormalEndSawAll(steps: seq<Step>, s: State, i: nat)
    requires Runs(START, steps, s) && i < |s.listeners|
    requires !s.listeners[i].phase.Reading? && s.listeners[i].phase.how.Ended?
    ensures var x := s.listeners[i]; x.flight < |s.flights| && x.seen == s.flights[x.flight].chunks
    ensures s.flights[s.listeners[i].flight].error.None?
    ensures s.listeners[i].seen != [] && forall k :: 0 <= k < |s.listeners[i].seen| ==> s.listeners[i].seen[k] != []
  {
    hide Held;
    RunsSound(START, steps, s);
  }

  /** Listeners of one flight, whenever they joined, have read the same chunks as far as both got. */
  lemma SameStream(steps: seq<Step>, s: State, i: nat, j: nat)
    requires Runs(START, steps, s) && i < |s.listeners| && j < |s.listeners|
    requires s.listeners[i].flight == s.listeners[j].flight && |s.listeners[i].seen| <= |s.listeners[j].seen|
    ensures s.listeners[i].seen <= s.listeners[j].seen && s.listeners[i].key == s.listeners[j].key
  {
    hide Held;
    RunsSound(START, steps, s);
  }

  /** Two listeners to one text and voice at the same time share the request. */
  lemma SharesFlight(steps: seq<Step>, s: State, i: nat, j: nat)
    requires Runs(START, steps, s) && i < |s.listeners| && j < |s.listeners| && s.listeners[i].key == s.listeners[j].key
    requires !s.listeners[i].phase.Left? && !s.listeners[j].phase.Left?
    ensures s.listeners[i].flight == s.listeners[j].flight
  {
    RunsSound(START, steps, s);
    HeldTabled(s, i);
    HeldTabled(s, j);
  }

  /** A waiting listener is never stranded: it can go on, or its producer is alive and can. */
  lemma NeverStranded(steps: seq<Step>, s: State, who: nat)
    requires Runs(START, steps, s) && Waits(s, who)
    ensures var f := s.listeners[who].flight;
            || Enabled(s, Read(who)) || Enabled(s, Finish(who)) || Enabled(s, SetDone(f))
            || (Enabled(s, StreamEnds(f)) && !s.flights[f].cancelled)
  {
    RunsSound(START, steps, s);
    HeldTabled(s, who);
  }

  // ---- Runs in terms of their steps

  lemma {:induction false} RunsLast(s: State, steps: seq<Step>, t: State) returns (u: State)
    requires Runs(s, steps, t) && steps != []
    ensures Runs(s, steps[..|steps| - 1], u) && Enabled(u, steps[|steps| - 1]) && t == Apply(u, steps[|steps| - 1])
    decreases |steps|
  {
    hide Enabled, Apply;
    var last := |steps| - 1;
    if last == 0 {
      u := s;
    } else {
      u := RunsLast(Apply(s, steps[0]), steps[1..], t);
      assert steps[1..][..last - 1] == steps[..last][1..];
    }
  }

  /** The payloads that came for flight f, without the empty ones. */
  function Payloads(steps: seq<Step>, f: nat): seq<seq<byte>> {
    if steps == [] then []
    else
      var last := steps[|steps| - 1];
      Payloads(steps[..|steps| - 1], f) + if last.Chunk? && last.f == f && last.chunk != [] then [last.chunk] else []
  }

  /** The step ends flight f's stream, in one way or another. */
  predicate EndsStream(step: Step, f: nat) {
    (step.StreamEnds? || step.StreamFails? || step.StreamCancelled?) && step.f == f
  }

  predicate StreamOver(steps: seq<Step>, f: nat) { exists e <- steps :: EndsStream(e, f) }

  /** What the steps say of flight f. */
  ghost predicate FlightSaid(steps: seq<Step>, flight: Flight, f: nat) {
    && flight.chunks == Payloads(steps, f)
    && (flight.producer.Streaming? <==> !StreamOver(steps, f))
    && (flight.producer.Done? <==> SetDone(f) in steps)
    && ErrorSaid(steps, flight.error, Payloads(steps, f) == [], f)
  }

  ghost predicate ErrorSaid(steps: seq<Step>, error: Option<Failure>, silent: bool, f: nat) {
    && (forall code :: error == Some(Upstream(code)) <==> StreamFails(f, code) in steps)
    && (error == Some(NoAudio) <==> StreamEnds(f) in steps && silent)
  }

  lemma OneMore(steps: seq<Step>, step: Step, e: Step)
    ensures e in steps + [step] <==> e in steps || e == step
  {}

  lemma OverMore(steps: seq<Step>, step: Step, f: nat)
    ensures StreamOver(steps + [step], f) <==> StreamOver(steps, f) || EndsStream(step, f)
  {
    hide EndsStream;
    OneMore(steps, step, step);
    forall e ensures e in steps + [step] <==> e in steps || e == step { OneMore(steps, step, e); }
  }

  lemma PayloadsMore(steps: seq<Step>, step: Step, f: nat)
    ensures Payloads(steps + [step], f)
         == Payloads(steps, f) + if step.Chunk? && step.f == f && step.chunk != [] then [step.chunk] else []
  {
    assert (steps + [step])[..|steps|] == steps;
  }

  /** While the stream goes on there is no error yet. */
  lemma ErrorMore(steps: seq<Step>, error: Option<Failure>, silent: bool, f: nat, step: Step, error': Option<Failure>, silent': bool)
    requires ErrorSaid(steps, error, silent, f)
    requires EndsStream(step, f) ==> error.None? && silent == silent'
    requires error' == match step
                       case StreamEnds(g) => if g == f && silent then Some(NoAudio) else error
                       case StreamFails(g, code) => if g == f then Some(Upstream(code)) else error
                       case _ => error
    requires silent == silent' || StreamEnds(f) !in steps
    ensures ErrorSaid(steps + [step], error', silent', f)
  {
    OneMore(steps, step, StreamEnds(f));
    forall code ensures StreamFails(f, code) in steps + [step] <==> StreamFails(f, code) in steps || StreamFails(f, code) == step {
      OneMore(steps, step, StreamFails(f, code));
    }
  }

  lemma NotOver(steps: seq<Step>, f: nat)
    requires !StreamOver(steps, f)
    ensures StreamEnds(f) !in steps
  {
    if StreamEnds(f) in steps { assert EndsStream(StreamEnds(f), f); }
  }

  lemma SaidMore(steps: seq<Step>, flight: Flight, f: nat, step: Step)
    requires FlightSaid(steps, flight, f) && (flight.producer.Streaming? ==> flight.error.None?)
    requires ByProducer(step) && step.f == f ==>
      if step.SetDone? then flight.producer.Finishing? else flight.producer.Streaming?
    ensures FlightSaid(steps + [step], if ByProducer(step) && step.f == f then Change(flight, step) else flight, f)
  {
    hide ErrorSaid, StreamOver, Payloads;
    var flight' := if ByProducer(step) && step.f == f then Change(flight, step) else flight;
    var silent, silent' := Payloads(steps, f) == [], Payloads(steps + [step], f) == [];
    PayloadsMore(steps, step, f);
    OverMore(steps, step, f);
    OneMore(steps, step, SetDone(f));
    if !StreamOver(steps, f) { NotOver(steps, f); }
    ErrorMore(steps, flight.error, silent, f, step, flight'.error, silent');
  }

  lemma NothingSaid(steps: seq<Step>, key: Key, f: nat)
    requires forall e <- steps :: ByProducer(e) ==> e.f != f
    ensures FlightSaid(steps, Flight(key, [], 1, None, Streaming, false), f)
  {
    NoPayloads(steps, f);
  }

  lemma {:induction false} NoPayloads(steps: seq<Step>, f: nat)
    requires forall e <- steps :: ByProducer(e) ==> e.f != f
    ensures Payloads(steps, f) == []
  {
    if steps != [] { NoPayloads(steps[..|steps| - 1], f); }
  }

  lemma {:induction false} OnlyKnown(s: State, steps: seq<Step>, t: State)
    requires Runs(s, steps, t)
    ensures |s.flights| <= |t.flights| && forall e <- steps :: ByProducer(e) ==> e.f < |t.flights|
    decreases |steps|
  {
    if steps != [] {
      OnlyKnown(Apply(s, steps[0]), steps[1..], t);
      assert steps == [steps[0]] + steps[1..];
    }
  }

  /** What a step does to flight f. */
  lemma FlightAfter(s: State, step: Step, f: nat)
    requires Enabled(s, step) && f < |s.flights|
    ensures var t := Apply(s, step);
      && f < |t.flights|
      && var g := if ByProducer(step) && step.f == f then Change(s.flights[f], step) else s.flights[f];
         t.flights[f].chunks == g.chunks && t.flights[f].producer == g.producer && t.flights[f].error == g.error
  {}

  lemma SaidSame(steps: seq<Step>, a: Flight, b: Flight, f: nat)
    requires FlightSaid(steps, a, f) && a.chunks == b.chunks && a.producer == b.producer && a.error == b.error
    ensures FlightSaid(steps, b, f)
  {}

  lemma NewFlight(s: State, step: Step, f: nat)
    requires Enabled(s, step) && |s.flights| <= f < |Apply(s, step).flights|
    ensures f == |s.flights| && step.Join?
    ensures Apply(s, step).flights[f] == Flight(step.key, [], 1, None, Streaming, false)
  {}

  /**
   Whoever listens, a flight holds the payloads that came for it, in order and without the empty ones; its error is the
   one it failed with, or that it ended without audio; it is done once that was said.
   */
  lemma {:induction false} FlightIsItsSteps(steps: seq<Step>, t: State, f: nat)
    requires Runs(START, steps, t) && f < |t.flights|
    ensures FlightSaid(steps, t.flights[f], f)
    decreases |steps|
  {
    hide FlightSaid, Apply, Enabled, Sound, FlightOk, Runs;
    StartSound();
    if steps == [] {
      EmptyRun(START, t);
    } else {
      var front, step := steps[..|steps| - 1], steps[|steps| - 1];
      var u := RunsLast(START, steps, t);
      RunsSound(START, front, u);
      assert steps == front + [step];
      if f < |u.flights| {
        FlightIsItsSteps(front, u, f);
        FlightAfter(u, step, f);
        MaySay(u, step, f);
        SaidMore(front, u.flights[f], f, step);
        SaidSame(steps, if ByProducer(step) && step.f == f then Change(u.flights[f], step) else u.flights[f], t.flights[f], f);
      } else {
        NewFlight(u, step, f);
        OnlyKnown(START, front, u);
        NothingSaid(steps, step.key, f);
      }
    }
  }

  lemma EmptyRun(s: State, t: State)
    requires Runs(s, [], t)
    ensures s == t
  {}

  lemma MaySay(s: State, step: Step, f: nat)
    requires Sound(s) && Enabled(s, step) && f < |s.flights|
    ensures s.flights[f].producer.Streaming? ==> s.flights[f].error.None?
    ensures ByProducer(step) && step.f == f ==>
      if step.SetDone? then s.flights[f].producer.Finishing? else s.flights[f].producer.Streaming?
  {
    hide TableExact, Counted, ListenersOk;
    assert FlightOk(s.flights[f]);
  }

  /** The texts joined for, in order. */
  function Joined(steps: seq<Step>): seq<Key> {
    if steps == [] then []
    else
      var last := steps[|steps| - 1];
      Joined(steps[..|steps| - 1]) + if last.Join? then [last.key] else []
  }

  /** What the steps say of listener i. */
  ghost predicate ListenerSaid(steps: seq<Step>, x: Listener, i: nat) {
    && x.index == multiset(steps)[Read(i)]
    && (x.phase.Reading? <==> Finish(i) !in steps && Abandon(i) !in steps)
    && (!x.phase.Reading? ==> (x.phase.how.Abandoned? <==> Abandon(i) in steps))
    && (x.phase.Left? <==> Leave(i) in steps)
  }

  predicate ByListener(step: Step, i: nat) {
    (step.Read? || step.Finish? || step.Abandon? || step.Leave?) && step.who == i
  }

  lemma ListenMore(steps: seq<Step>, s: State, step: Step, i: nat)
    requires Enabled(s, step) && i < |s.listeners| && ListenerSaid(steps, s.listeners[i], i)
    ensures i < |Apply(s, step).listeners| && ListenerSaid(steps + [step], Apply(s, step).listeners[i], i)
    ensures Apply(s, step).listeners[i].key == s.listeners[i].key
  {
    OneMore(steps, step, Finish(i));
    OneMore(steps, step, Abandon(i));
    OneMore(steps, step, Leave(i));
    assert multiset(steps + [step])[Read(i)] == multiset(steps)[Read(i)] + if step == Read(i) then 1 else 0;
  }

  lemma NewListener(s: State, step: Step)
    requires Enabled(s, step)
    ensures var t := Apply(s, step);
      if step.Join? then |t.listeners| == |s.listeners| + 1 && t.listeners[|s.listeners|].index == 0
                         && t.listeners[|s.listeners|].phase == Reading && t.listeners[|s.listeners|].key == step.key
      else |t.listeners| == |s.listeners|
  {}

  lemma {:induction false} OnlyJoined(s: State, steps: seq<Step>, t: State)
    requires Runs(s, steps, t)
    ensures |s.listeners| <= |t.listeners| && forall e <- steps :: e.Read? || e.Finish? || e.Abandon? || e.Leave? ==> e.who < |t.listeners|
    decreases |steps|
  {
    if steps != [] {
      OnlyJoined(Apply(s, steps[0]), steps[1..], t);
      NewListener(s, steps[0]);
      assert steps == [steps[0]] + steps[1..];
    }
  }

  lemma NothingListened(steps: seq<Step>, x: Listener, i: nat)
    requires x.index == 0 && x.phase.Reading? && forall e <- steps :: !ByListener(e, i)
    ensures ListenerSaid(steps, x, i)
  {
    assert !ByListener(Read(i), i) || Read(i) !in steps;
    assert !ByListener(Finish(i), i) || Finish(i) !in steps;
    assert !ByListener(Abandon(i), i) || Abandon(i) !in steps;
    assert !ByListener(Leave(i), i) || Leave(i) !in steps;
  }

  lemma JoinedMore(steps: seq<Step>, step: Step)
    ensures Joined(steps + [step]) == Joined(steps) + if step.Join? then [step.key] else []
  {
    assert (steps + [step])[..|steps|] == steps;
  }

  lemma {:induction false} ListenersAreTheirSteps(steps: seq<Step>, t: State)
    requires Runs(START, steps, t)
    ensures |t.listeners| == |Joined(steps)|
    ensures forall i :: 0 <= i < |t.listeners| ==> t.listeners[i].key == Joined(steps)[i] && ListenerSaid(steps, t.listeners[i], i)
    decreases |steps|
  {
    hide ListenerSaid, Apply, Enabled, Runs, ByListener, Joined;
    if steps == [] {
      assert t == START && Joined([]) == [] by { EmptyRun(START, t); NoneJoined(); }
    } else {
      var front, step := steps[..|steps| - 1], steps[|steps| - 1];
      var u := RunsLast(START, steps, t);
      assert steps == front + [step];
      ListenersAreTheirSteps(front, u);
      NewListener(u, step);
      JoinedMore(front, step);
      forall i | 0 <= i < |t.listeners|
        ensures t.listeners[i].key == Joined(steps)[i] && ListenerSaid(steps, t.listeners[i], i)
      {
        if i < |u.listeners| {
          ListenMore(front, u, step, i);
        } else {
          NotYet(front, u, step, i);
          NothingListened(steps, t.listeners[i], i);
        }
      }
    }
  }

  lemma NoneJoined()
    ensures Joined([]) == []
  {}

  lemma NotYet(steps: seq<Step>, u: State, step: Step, i: nat)
    requires Runs(START, steps, u) && |u.listeners| <= i && step.Join?
    ensures forall e <- steps + [step] :: !ByListener(e, i)
  {
    OnlyJoined(START, steps, u);
    forall e <- steps + [step] ensures !ByListener(e, i) { OneMore(steps, step, e); }
  }

  /**
   The i-th to join hears, of the text it joined for, one payload for each of its reads, in order; unless it gave up, it
   ends after all of them, with the error its flight failed with, if it did.
   */
  lemma HeardIsItsSteps(steps: seq<Step>, t: State, i: nat)
    requires Runs(START, steps, t) && i < |t.listeners|
    ensures var x, n := t.listeners[i], multiset(steps)[Read(i)];
      && |t.listeners| == |Joined(steps)| && x.key == Joined(steps)[i] && x.flight < |t.flights|
      && n <= |Payloads(steps, x.flight)| && x.seen == Payloads(steps, x.flight)[..n]
      && (Finish(i) in steps && Abandon(i) !in steps ==>
            && !x.phase.Reading? && x.seen == Payloads(steps, x.flight) && SetDone(x.flight) in steps
            && x.phase.how == match t.flights[x.flight].error case None => Ended case Some(e) => Raised(e))
      && (Abandon(i) in steps ==> !x.phase.Reading? && x.phase.how == Abandoned)
  {
    hide Runs, Payloads, Joined, TableExact, Counted, FlightsOk, ErrorSaid, StreamOver;
    StartSound();
    RunsSound(START, steps, t);
    ListenersAreTheirSteps(steps, t);
    FlightIsItsSteps(steps, t, t.listeners[i].flight);
  }
}
