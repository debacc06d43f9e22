/** Flushing traces (apps/observability/src/sampling/worker.ts). */
module Traces {
  import opened Wrappers
  import opened Buffering
  import opened Sampling

  // Ticks of the flush worker overlap: a timer starts one while an earlier one
  // still waits for its writes, and spans keep arriving. An action is one move
  // of such a run; the results hold after every run.

  // ----- Runs of the worker

  // A trace taken from the buffer whose writes are under way; `written` once
  // its spans are in the store and the trace's own document and the service
  // map are still to be written.
  datatype Work = Work(spans: Spans, reason: Reason, written: bool)

  // One tick or final flush: what it drained and has not looked at yet, and
  // what it is writing.
  datatype Flight = Flight(todo: seq<Spans>, current: Option<Work>)

  datatype Stats = Stats(tracesBuffered: nat, tracesFlushed: nat, tracesDropped: nat,
                         error: nat, slow: nat, probabilistic: nat, dropped: nat)

  function Counted(stats: Stats, reason: Reason): Stats {
    var s := stats.(tracesFlushed := stats.tracesFlushed + 1);
    match reason
    case Error => s.(error := s.error + 1)
    case Slow => s.(slow := s.slow + 1)
    case Probabilistic => s.(probabilistic := s.probabilistic + 1)
  }

  function CountedDrop(stats: Stats): Stats {
    stats.(tracesDropped := stats.tracesDropped + 1, dropped := stats.dropped + 1)
  }

  // `lost` and `broken` record what no code keeps: traces that were drained
  // and whose spans were never stored because a write failed, and traces whose
  // spans were stored but a later write failed.
  datatype State = State(buffer: seq<Bucket>, flights: seq<Flight>, stats: Stats,
                         stored: seq<Spans>, dropped: seq<Spans>, lost: seq<Spans>, broken: nat,
                         arrived: seq<Span>, drained: nat)

  // The service starts with nothing buffered, in process, stored or counted.
  ghost predicate Starts(s: State) {
    && s.buffer == [] && s.flights == [] && s.stored == [] && s.dropped == [] && s.lost == [] && s.arrived == []
    && s.broken == 0 && s.drained == 0
    && s.stats.tracesFlushed == s.stats.tracesDropped == 0
    && s.stats.error == s.stats.slow == s.stats.probabilistic == s.stats.dropped == 0
  }

  datatype Action =
    | Add(span: Span, now: real)
    | Tick(now: real, holdMs: real)
    | FlushAll
    | Look(flight: nat, random: real)     // decide on the next trace of a flight
    | Store(flight: nat)                  // the spans are stored
    | Map(flight: nat)                    // the trace's document and the service map are written
    | Fail(flight: nat)                   // the pending write throws and ends the flight

  function SpansOf(buckets: seq<Bucket>): seq<Spans> {
    seq(|buckets|, i requires 0 <= i < |buckets| => buckets[i].spans)
  }

  predicate Enabled(s: State, a: Action) {
    match a
    case Look(f, _) => f < |s.flights| && s.flights[f].current.None? && s.flights[f].todo != []
    case Store(f) => f < |s.flights| && s.flights[f].current.Some? && !s.flights[f].current.value.written
    case Map(f) => f < |s.flights| && s.flights[f].current.Some? && s.flights[f].current.value.written
    case Fail(f) => f < |s.flights| && s.flights[f].current.Some?
    case _ => true
  }

  function Step(s: State, policy: Policy, a: Action): State
    requires Enabled(s, a)
  {
    match a
    case Add(span, now) => s.(buffer := Added(s.buffer, span, now), arrived := s.arrived + [span])
    case Tick(now, holdMs) =>
      var ready, rest := Ready(s.buffer, now, holdMs), Waiting(s.buffer, now, holdMs);
      s.(buffer := rest, flights := s.flights + [Flight(SpansOf(ready), None)],
         stats := s.stats.(tracesBuffered := |rest|), drained := s.drained + |ready|)
    case FlushAll =>
      s.(buffer := [], flights := s.flights + [Flight(SpansOf(s.buffer), None)], drained := s.drained + |s.buffer|)
    case Look(f, random) =>
      var spans, rest := s.flights[f].todo[0], s.flights[f].todo[1..];
      var decision := Decide(spans, policy, random);
      if decision.Drop? then
        s.(flights := s.flights[f := Flight(rest, None)], dropped := s.dropped + [spans], stats := CountedDrop(s.stats))
      else
        s.(flights := s.flights[f := Flight(rest, Some(Work(spans, decision.trace.sampledReason, false)))])
    case Store(f) =>
      var work := s.flights[f].current.value;
      s.(flights := s.flights[f := Flight(s.flights[f].todo, Some(work.(written := true)))],
         stored := s.stored + [work.spans])
    case Map(f) =>
      s.(flights := s.flights[f := Flight(s.flights[f].todo, None)],
         stats := Counted(s.stats, s.flights[f].current.value.reason))
    case Fail(f) =>
      var work := s.flights[f].current.value;
      s.(flights := s.flights[f := Flight([], None)],
         lost := s.lost + (if work.written then [] else [work.spans]) + s.flights[f].todo,
         broken := s.broken + if work.written then 1 else 0)
  }

  ghost predicate Run(s: State, policy: Policy, acts: seq<Action>, t: State)
    decreases |acts|
  {
    if acts == [] then s == t
    else Enabled(s, acts[0]) && Run(Step(s, policy, acts[0]), policy, acts[1..], t)
  }

  // ----- Conservation

  function Count(traces: seq<Spans>, x: Span): nat {
    if traces == [] then 0 else Count(traces[..|traces| - 1], x) + Copies(traces[|traces| - 1], x)
  }

  function FlightCount(f: Flight, x: Span): nat {
    Count(f.todo, x) + if f.current.Some? && !f.current.value.written then Copies(f.current.value.spans, x) else 0
  }

  function FlightsCount(flights: seq<Flight>, x: Span): nat {
    if flights == [] then 0 else FlightsCount(flights[..|flights| - 1], x) + FlightCount(flights[|flights| - 1], x)
  }

  function FlightSize(f: Flight): nat {
    |f.todo| + if f.current.Some? then 1 else 0
  }

  function InProcess(flights: seq<Flight>): nat {
    if flights == [] then 0 else InProcess(flights[..|flights| - 1]) + FlightSize(flights[|flights| - 1])
  }

  // Every span is in the buffer, with a flight, stored, dropped or lost, and
  // in one of them only.
  ghost predicate SpanConserved(s: State, x: Span) {
    Copies(s.arrived, x) == BucketCount(s.buffer, x) + FlightsCount(s.flights, x)
                    + Count(s.stored, x) + Count(s.dropped, x) + Count(s.lost, x)
  }

  // Every drained trace is counted once, or still in process, or a casualty
  // of a failed write.
  ghost predicate TracesConserved(s: State) {
    && s.drained == s.stats.tracesFlushed + s.stats.tracesDropped + InProcess(s.flights) + |s.lost| + s.broken
    && s.stats.error + s.stats.slow + s.stats.probabilistic == s.stats.tracesFlushed
    && s.stats.dropped == s.stats.tracesDropped == |s.dropped|
  }

  ghost predicate Judged(s: State, policy: Policy) {
    && (forall spans :: spans in s.dropped ==> Droppable(spans, policy))
    && (forall i :: 0 <= i < |s.flights| && s.flights[i].current.Some? ==>
          Deserves(s.flights[i].current.value.spans, policy, s.flights[i].current.value.reason))
  }

  // No trace mixes spans of different traces, and none is empty.
  ghost predicate Unmixed(s: State) {
    && Sorted(s.buffer)
    && (forall i :: 0 <= i < |s.flights| ==> UnmixedFlight(s.flights[i]))
    && (forall spans :: spans in s.stored || spans in s.dropped || spans in s.lost ==> OneTrace(spans))
  }

  ghost predicate UnmixedFlight(f: Flight) {
    && (forall spans :: spans in f.todo ==> OneTrace(spans))
    && (f.current.Some? ==> OneTrace(f.current.value.spans))
  }

  lemma CountSnoc(traces: seq<Spans>, spans: Spans, x: Span)
    ensures Count(traces + [spans], x) == Count(traces, x) + Copies(spans, x)
  {
    assert (traces + [spans])[..|traces|] == traces;
  }

  lemma {:induction false} CountConcat(a: seq<Spans>, b: seq<Spans>, x: Span)
    ensures Count(a + b, x) == Count(a, x) + Count(b, x)
    decreases |b|
  {
    if b == [] {
      assert a + b == a;
    } else {
      assert (a + b)[..|a + b| - 1] == a + b[..|b| - 1];
      CountConcat(a, b[..|b| - 1], x);
    }
  }

  lemma {:induction false} CountOfBuckets(buckets: seq<Bucket>, x: Span)
    ensures Count(SpansOf(buckets), x) == BucketCount(buckets, x)
    decreases |buckets|
  {
    if buckets != [] {
      assert SpansOf(buckets)[..|buckets| - 1] == SpansOf(buckets[..|buckets| - 1]);
      CountOfBuckets(buckets[..|buckets| - 1], x);
    }
  }

  lemma CountHead(traces: seq<Spans>, x: Span)
    requires traces != []
    ensures Count(traces, x) == Copies(traces[0], x) + Count(traces[1..], x)
  {
    assert traces == [traces[0]] + traces[1..];
    CountConcat([traces[0]], traces[1..], x);
    CountSnoc([], traces[0], x);
    assert [] + [traces[0]] == [traces[0]];
  }

  lemma {:induction false} FlightsUpdate(flights: seq<Flight>, i: nat, f: Flight, x: Span)
    requires i < |flights|
    ensures FlightsCount(flights[i := f], x)
        == FlightsCount(flights, x) - FlightCount(flights[i], x) + FlightCount(f, x)
    decreases |flights|
  {
    var init := flights[..|flights| - 1];
    if i < |init| {
      assert flights[i := f][..|init|] == init[i := f];
      FlightsUpdate(init, i, f, x);
    } else {
      assert flights[i := f][..|init|] == init;
    }
  }

  lemma {:induction false} InProcessUpdate(flights: seq<Flight>, i: nat, f: Flight)
    requires i < |flights|
    ensures InProcess(flights[i := f]) == InProcess(flights) - FlightSize(flights[i]) + FlightSize(f)
    decreases |flights|
  {
    var init := flights[..|flights| - 1];
    if i < |init| {
      assert flights[i := f][..|init|] == init[i := f];
      InProcessUpdate(init, i, f);
    } else {
      assert flights[i := f][..|init|] == init;
    }
  }

  lemma FlightsSnoc(flights: seq<Flight>, f: Flight, x: Span)
    ensures FlightsCount(flights + [f], x) == FlightsCount(flights, x) + FlightCount(f, x)
  {
    assert (flights + [f])[..|flights|] == flights;
  }

  lemma InProcessSnoc(flights: seq<Flight>, f: Flight)
    ensures InProcess(flights + [f]) == InProcess(flights) + FlightSize(f)
  {
    assert (flights + [f])[..|flights|] == flights;
  }

  /** A tick makes a flight of the idle traces and counts those it leaves; a final flush makes one of them all. */
  lemma FlightTakes(s: State, policy: Policy, a: Action, t: State)
    requires (a.Tick? || a.FlushAll?) && t == Step(s, policy, a)
    ensures |t.flights| == |s.flights| + 1 && t.flights[..|s.flights|] == s.flights
    ensures var f := t.flights[|s.flights|];
            && f.current == None
            && (forall b | b in s.buffer :: b in t.buffer <==> a.Tick? && a.now - b.lastSpanAt < a.holdMs)
            && (forall b | b in s.buffer && b !in t.buffer :: b.spans in f.todo)
            && |f.todo| + |t.buffer| == |s.buffer|
    ensures t.stats == if a.Tick? then s.stats.(tracesBuffered := |t.buffer|) else s.stats
  {
    if a.Tick? {
      var ready := Ready(s.buffer, a.now, a.holdMs);
      DrainSplits(s.buffer, a.now, a.holdMs);
      DrainSizes(s.buffer, a.now, a.holdMs);
      InFlight(ready);
    } else {
      InFlight(s.buffer);
    }
  }

  lemma InFlight(buckets: seq<Bucket>)
    ensures forall b | b in buckets :: b.spans in SpansOf(buckets)
  {
    forall b | b in buckets ensures b.spans in SpansOf(buckets) {
      var i :| 0 <= i < |buckets| && buckets[i] == b;
      assert SpansOf(buckets)[i] == b.spans;
    }
  }

  lemma {:induction false} DrainSizes(buckets: seq<Bucket>, now: real, maxIdleMs: real)
    ensures |Ready(buckets, now, maxIdleMs)| + |Waiting(buckets, now, maxIdleMs)| == |buckets|
    decreases |buckets|
  {
    if buckets != [] {
      DrainSizes(buckets[..|buckets| - 1], now, maxIdleMs);
    }
  }

  lemma SpansStep(s: State, policy: Policy, a: Action, x: Span)
    requires Enabled(s, a) && SpanConserved(s, x)
    ensures SpanConserved(Step(s, policy, a), x)
  {
    if a.Add? {
      BucketCountAdded(s.buffer, a.span, a.now, x);
    } else if a.Tick? {
      TickDrains(s, policy, a.now, a.holdMs, x);
    } else if a.FlushAll? {
      CountOfBuckets(s.buffer, x);
      FlightsSnoc(s.flights, Flight(SpansOf(s.buffer), None), x);
    } else if a.Look? {
      LookMoves(s, policy, a, x, Step(s, policy, a));
    } else if a.Store? {
      StoreMoves(s, policy, a.flight, x);
    } else if a.Map? {
      FlightsUpdate(s.flights, a.flight, Flight(s.flights[a.flight].todo, None), x);
    } else {
      FailLoses(s, policy, a.flight, x);
    }
  }

  lemma TickDrains(s: State, policy: Policy, now: real, holdMs: real, x: Span)
    requires SpanConserved(s, x)
    ensures SpanConserved(Step(s, policy, Tick(now, holdMs)), x)
  {
    DrainConserves(s.buffer, now, holdMs, x);
    CountOfBuckets(Ready(s.buffer, now, holdMs), x);
    FlightsSnoc(s.flights, Flight(SpansOf(Ready(s.buffer, now, holdMs)), None), x);
  }

  // The head of a flight's list goes to the dropped traces.
  lemma HeadDropped(f: Flight, dropped: seq<Spans>, x: Span)
    requires f.todo != [] && f.current.None?
    ensures FlightCount(Flight(f.todo[1..], None), x) + Count(dropped + [f.todo[0]], x)
        == FlightCount(f, x) + Count(dropped, x)
  {
    CountHead(f.todo, x);
    CountSnoc(dropped, f.todo[0], x);
  }

  // Or it becomes the flight's current work.
  lemma HeadTaken(f: Flight, reason: Reason, x: Span)
    requires f.todo != [] && f.current.None?
    ensures FlightCount(Flight(f.todo[1..], Some(Work(f.todo[0], reason, false))), x) == FlightCount(f, x)
  {
    CountHead(f.todo, x);
  }

  lemma LookMoves(s: State, policy: Policy, a: Action, x: Span, t: State)
    requires a.Look? && Enabled(s, a) && SpanConserved(s, x) && t == Step(s, policy, a)
    ensures SpanConserved(t, x)
  {
    var f, g := s.flights[a.flight], t.flights[a.flight];
    FlightsUpdate(s.flights, a.flight, g, x);
    if g.current.None? {
      HeadDropped(f, s.dropped, x);
    } else {
      HeadTaken(f, g.current.value.reason, x);
    }
  }

  lemma StoreMoves(s: State, policy: Policy, f: nat, x: Span)
    requires Enabled(s, Store(f)) && SpanConserved(s, x)
    ensures SpanConserved(Step(s, policy, Store(f)), x)
  {
    var work := s.flights[f].current.value;
    CountSnoc(s.stored, work.spans, x);
    FlightsUpdate(s.flights, f, Flight(s.flights[f].todo, Some(work.(written := true))), x);
  }

  lemma LostCount(lost: seq<Spans>, work: Work, todo: seq<Spans>, x: Span)
    ensures Count(lost + (if work.written then [] else [work.spans]) + todo, x)
         == Count(lost, x) + (if work.written then 0 else Copies(work.spans, x)) + Count(todo, x)
  {
    if work.written {
      assert lost + [] == lost;
      CountConcat(lost, todo, x);
    } else {
      CountConcat(lost + [work.spans], todo, x);
      CountSnoc(lost, work.spans, x);
    }
  }

  lemma FailLoses(s: State, policy: Policy, f: nat, x: Span)
    requires Enabled(s, Fail(f)) && SpanConserved(s, x)
    ensures SpanConserved(Step(s, policy, Fail(f)), x)
  {
    FlightsUpdate(s.flights, f, Flight([], None), x);
    LostCount(s.lost, s.flights[f].current.value, s.flights[f].todo, x);
    assert Count([], x) == 0;
  }

  lemma TracesStep(s: State, policy: Policy, a: Action)
    requires Enabled(s, a) && TracesConserved(s)
    ensures TracesConserved(Step(s, policy, a))
  {
    if a.Tick? {
      InProcessSnoc(s.flights, Flight(SpansOf(Ready(s.buffer, a.now, a.holdMs)), None));
    } else if a.FlushAll? {
      InProcessSnoc(s.flights, Flight(SpansOf(s.buffer), None));
    } else if a.Look? {
      LookCounts(s, policy, a.flight, a.random);
    } else if a.Store? {
      var f := s.flights[a.flight];
      InProcessUpdate(s.flights, a.flight, Flight(f.todo, Some(f.current.value.(written := true))));
    } else if a.Map? {
      InProcessUpdate(s.flights, a.flight, Flight(s.flights[a.flight].todo, None));
    } else if a.Fail? {
      InProcessUpdate(s.flights, a.flight, Flight([], None));
    }
  }

  lemma LookCounts(s: State, policy: Policy, f: nat, random: real)
    requires Enabled(s, Look(f, random)) && TracesConserved(s)
    ensures TracesConserved(Step(s, policy, Look(f, random)))
  {
    InProcessUpdate(s.flights, f, Step(s, policy, Look(f, random)).flights[f]);
  }

  // A trace is dropped only if it may be, and kept for the reason it deserves,
  // whatever the random draw.
  lemma DecideJudges(spans: Spans, policy: Policy, random: real)
    ensures Decide(spans, policy, random).Drop? ==> Droppable(spans, policy)
    ensures Decide(spans, policy, random).Keep? ==>
      var doc := Decide(spans, policy, random).trace;
      && Deserves(spans, policy, doc.sampledReason)
      && (forall s :: s in spans ==> doc.startMs <= s.startMs && s.endMs <= doc.endMs)
      && (OneTrace(spans) ==> forall s :: s in spans ==> s.traceId == doc.traceId)
  {
    assert HasError(spans) <==> Errors(spans) > 0;
  }

  lemma JudgedStep(s: State, policy: Policy, a: Action)
    requires Enabled(s, a) && Judged(s, policy)
    ensures Judged(Step(s, policy, a), policy)
  {
    if a.Look? {
      DecideJudges(s.flights[a.flight].todo[0], policy, a.random);
    }
  }

  lemma UnmixedStep(s: State, policy: Policy, a: Action)
    requires Enabled(s, a) && Unmixed(s)
    ensures Unmixed(Step(s, policy, a))
  {
    if a.Add? {
      AddKeepsSorted(s.buffer, a.span, a.now);
    } else if a.Tick? {
      DrainKeepsSorted(s.buffer, a.now, a.holdMs);
      DrainSplits(s.buffer, a.now, a.holdMs);
      forall spans | spans in SpansOf(Ready(s.buffer, a.now, a.holdMs)) ensures OneTrace(spans) {
        var b :| b in Ready(s.buffer, a.now, a.holdMs) && b.spans == spans;
      }
    } else if a.FlushAll? {
      forall spans | spans in SpansOf(s.buffer) ensures OneTrace(spans) {
        var b :| b in s.buffer && b.spans == spans;
      }
    } else {
      var f := s.flights[a.flight];
      assert UnmixedFlight(f);
      assert a.Look? ==> f.todo[0] in f.todo && forall spans :: spans in f.todo[1..] ==> spans in f.todo;
      assert UnmixedFlight(Step(s, policy, a).flights[a.flight]);
    }
  }

  ghost predicate Accounted(s: State, policy: Policy) {
    (forall x :: SpanConserved(s, x)) && TracesConserved(s) && Judged(s, policy) && Unmixed(s)
  }

  /** Over every run, however adds, ticks and writes interleave and fail: nothing is lost track of or counted twice. */
  lemma {:induction false} TracesAreConserved(s: State, policy: Policy, acts: seq<Action>, t: State)
    requires Run(s, policy, acts, t)
    requires Accounted(s, policy)
    ensures Accounted(t, policy)
    decreases |acts|
  {
    if acts != [] {
      forall x ensures SpanConserved(Step(s, policy, acts[0]), x) {
        SpansStep(s, policy, acts[0], x);
      }
      TracesStep(s, policy, acts[0]);
      JudgedStep(s, policy, acts[0]);
      UnmixedStep(s, policy, acts[0]);
      TracesAreConserved(Step(s, policy, acts[0]), policy, acts[1..], t);
    }
  }

  ghost predicate NoFailures(acts: seq<Action>) {
    forall i :: 0 <= i < |acts| ==> !acts[i].Fail?
  }

  lemma {:induction false} NothingLostWithoutFailures(s: State, policy: Policy, acts: seq<Action>, t: State)
    requires Run(s, policy, acts, t) && NoFailures(acts)
    ensures t.lost == s.lost && t.broken == s.broken
    decreases |acts|
  {
    if acts != [] {
      assert forall i :: 0 <= i < |acts| - 1 ==> acts[1..][i] == acts[i + 1];
      NothingLostWithoutFailures(Step(s, policy, acts[0]), policy, acts[1..], t);
    }
  }

  /**
   * While no write has failed, every drained trace is flushed, dropped or in process, the reasons add up to the
   * flushed and dropped ones, and a span with an error is never dropped.
   */
  lemma CleanRun(s: State, policy: Policy, acts: seq<Action>, t: State)
    requires Run(s, policy, acts, t) && NoFailures(acts)
    requires Accounted(s, policy) && s.lost == [] && s.broken == 0
    ensures t.drained == t.stats.tracesFlushed + t.stats.tracesDropped + InProcess(t.flights)
    ensures t.stats.error + t.stats.slow + t.stats.probabilistic + t.stats.dropped
         == t.stats.tracesFlushed + t.stats.tracesDropped
    ensures forall x: Span :: x.failed ==>
      Copies(t.arrived, x) == BucketCount(t.buffer, x) + FlightsCount(t.flights, x) + Count(t.stored, x)
  {
    TracesAreConserved(s, policy, acts, t);
    NothingLostWithoutFailures(s, policy, acts, t);
    forall x: Span | x.failed
      ensures Copies(t.arrived, x) == BucketCount(t.buffer, x) + FlightsCount(t.flights, x) + Count(t.stored, x)
    {
      ErrorSurvives(t, policy, x);
    }
  }

  lemma ErrorSurvives(s: State, policy: Policy, x: Span)
    requires SpanConserved(s, x) && Judged(s, policy) && s.lost == [] && x.failed
    ensures Copies(s.arrived, x) == BucketCount(s.buffer, x) + FlightsCount(s.flights, x) + Count(s.stored, x)
  {
    DroppedHasNone(s.dropped, policy, x);
  }

  /** So from the start of the service on: everything is accounted for, and while no write has failed every drained
      trace is flushed, dropped or in process. */
  lemma RunFromStart(s: State, policy: Policy, acts: seq<Action>, t: State)
    requires Starts(s) && Run(s, policy, acts, t)
    ensures Accounted(t, policy)
    ensures NoFailures(acts) ==>
              t.drained == t.stats.tracesFlushed + t.stats.tracesDropped + InProcess(t.flights)
  {
    StartAccounted(s, policy);
    TracesAreConserved(s, policy, acts, t);
    if NoFailures(acts) {
      CleanRun(s, policy, acts, t);
    }
  }

  lemma StartAccounted(s: State, policy: Policy)
    requires Starts(s)
    ensures Accounted(s, policy)
  {
  }

  lemma {:induction false} DroppedHasNone(traces: seq<Spans>, policy: Policy, x: Span)
    requires x.failed && forall spans :: spans in traces ==> Droppable(spans, policy)
    ensures Count(traces, x) == 0
    decreases |traces|
  {
    if traces != [] {
      var last := traces[|traces| - 1];
      assert last in traces && !HasError(last);
      assert x !in last;
      DroppedHasNone(traces[..|traces| - 1], policy, x);
    }
  }
}
