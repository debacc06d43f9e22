/** The flush worker's own code (apps/observability/src/sampling/worker.ts), undisturbed. */
module Flushing {
  import opened Wrappers
  import opened Buffering
  import opened Sampling
  import opened Traces

  // The random draw for one trace, whether its spans get stored, and whether
  // the writes after that, of its document and the service map, all succeed.
  datatype Draw = Draw(random: real, writes: bool, maps: bool)

  // Processing the next trace of a flight with nothing in between.
  function Processed(s: State, policy: Policy, f: nat, draw: Draw): (r: State)
    requires Enabled(s, Look(f, draw.random))
    ensures |r.flights| == |s.flights| && r.flights[f].current.None?
    ensures r.flights[f].todo == [] || r.flights[f].todo == s.flights[f].todo[1..]
  {
    var t := Step(s, policy, Look(f, draw.random));
    if t.flights[f].current.None? then t
    else if !draw.writes then Step(t, policy, Fail(f))
    else
      var u := Step(t, policy, Store(f));
      if !draw.maps then Step(u, policy, Fail(f)) else Step(u, policy, Map(f))
  }

  // The rest of a flight; `draws(k)` is for the k-th trace.
  function Flown(s: State, policy: Policy, f: nat, draws: nat -> Draw, k: nat): State
    requires f < |s.flights| && s.flights[f].current.None?
    decreases |s.flights[f].todo|
  {
    if s.flights[f].todo == [] then s else Flown(Processed(s, policy, f, draws(k)), policy, f, draws, k + 1)
  }

  lemma ProcessedEffect(s: State, policy: Policy, f: nat, draw: Draw)
    requires Enabled(s, Look(f, draw.random))
    ensures var decision := Decide(s.flights[f].todo[0], policy, draw.random);
      var r := Processed(s, policy, f, draw);
      var counts := decision.Drop? || (draw.writes && draw.maps);
      && r.stats == (if decision.Drop? then CountedDrop(s.stats)
                     else if counts then Counted(s.stats, decision.trace.sampledReason) else s.stats)
      && r.stored == (if decision.Keep? && draw.writes then s.stored + [s.flights[f].todo[0]] else s.stored)
      && r.flights[f].todo == if counts then s.flights[f].todo[1..] else []
  {
  }

  // Whether and why a trace is kept.
  lemma KeptFor(spans: Spans, policy: Policy, random: real, decision: Decision)
    requires decision == Decide(spans, policy, random)
    ensures decision.Keep? <==> spans != [] && (HasError(spans) || IsSlow(spans, policy) || random < policy.sampleRate)
    ensures decision.Keep? ==>
              decision.trace.sampledReason
              == if HasError(spans) then Error else if IsSlow(spans, policy) then Slow else Probabilistic
  {
    if spans != [] { KeptIff(spans, policy, random); }
    DecideJudges(spans, policy, random);
  }

  ghost predicate CountedAs(was: Stats, now: Stats, kept: bool, done: bool, reason: Reason) {
    var flushed := if kept && done then 1 else 0;
    && now.tracesFlushed == was.tracesFlushed + flushed
    && now.error == was.error + (if reason == Error then flushed else 0)
    && now.slow == was.slow + (if reason == Slow then flushed else 0)
    && now.probabilistic == was.probabilistic + (if reason == Probabilistic then flushed else 0)
    && now.tracesDropped == was.tracesDropped + (if kept then 0 else 1)
    && now.dropped == was.dropped + (if kept then 0 else 1)
    && now.tracesBuffered == was.tracesBuffered
  }

  /** What is counted of a trace: a drop as dropped; one kept, stored and mapped as flushed, under error if it has one,
      else under slow if it is, else as probabilistic; one whose writes fail not at all. */
  lemma CountsTheReason(s: State, policy: Policy, f: nat, draw: Draw, spans: Spans, r: State)
    requires Enabled(s, Look(f, draw.random)) && spans == s.flights[f].todo[0] && r == Processed(s, policy, f, draw)
    ensures var keeps := spans != [] && (HasError(spans) || IsSlow(spans, policy) || draw.random < policy.sampleRate);
            var reason := if HasError(spans) then Error else if IsSlow(spans, policy) then Slow else Probabilistic;
            && CountedAs(s.stats, r.stats, keeps, draw.writes && draw.maps, reason)
            && r.stored == s.stored + (if keeps && draw.writes then [spans] else [])
            && r.dropped == s.dropped + (if keeps then [] else [spans])
  {
    ProcessedEffect(s, policy, f, draw);
    KeptFor(spans, policy, draw.random, Decide(spans, policy, draw.random));
  }

  lemma FlownStep(s: State, policy: Policy, f: nat, draws: nat -> Draw, k: nat)
    requires f < |s.flights| && s.flights[f].current.None? && s.flights[f].todo != []
    ensures var t := Processed(s, policy, f, draws(k));
      && Flown(s, policy, f, draws, k) == Flown(t, policy, f, draws, k + 1)
      && (t.flights[f].todo == [] ==> Flown(t, policy, f, draws, k + 1) == t)
  {
  }

  class FlushWorker {
    const policy: Policy
    var stats: Stats
    var stored: seq<Spans>

    constructor (policy: Policy)
      ensures this.policy == policy && stats == Stats(0, 0, 0, 0, 0, 0, 0) && stored == []
    {
      this.policy, stats, stored := policy, Stats(0, 0, 0, 0, 0, 0, 0), [];
    }

    method ProcessOne(spans: Spans, draw: Draw, ghost s: State, ghost f: nat) returns (threw: bool)
      requires Enabled(s, Look(f, draw.random)) && s.flights[f].todo[0] == spans
      requires stats == s.stats && stored == s.stored
      modifies this
      ensures stats == Processed(s, policy, f, draw).stats && stored == Processed(s, policy, f, draw).stored
      ensures threw ==> Processed(s, policy, f, draw).flights[f].todo == []
      ensures !threw ==> Processed(s, policy, f, draw).flights[f].todo == s.flights[f].todo[1..]
    {
      ProcessedEffect(s, policy, f, draw);
      var decision := Decide(spans, policy, draw.random);
      if decision.Drop? {
        stats := stats.(tracesDropped := stats.tracesDropped + 1);
        stats := stats.(dropped := stats.dropped + 1);
        return false;
      }
      if !draw.writes {
        return true;
      }
      stored := stored + [spans];
      if !draw.maps {
        return true;
      }
      stats := stats.(tracesFlushed := stats.tracesFlushed + 1);
      match decision.trace.sampledReason {
        case Error => stats := stats.(error := stats.error + 1);
        case Slow => stats := stats.(slow := stats.slow + 1);
        case Probabilistic => stats := stats.(probabilistic := stats.probabilistic + 1);
      }
      return false;
    }

    // The loop over the drained traces, which a failed write ends.
    method Fly(ready: seq<Spans>, draws: nat -> Draw, ghost s: State, ghost f: nat)
      requires f < |s.flights| && s.flights[f] == Flight(ready, None)
      requires stats == s.stats && stored == s.stored
      modifies this
      ensures var t := Flown(s, policy, f, draws, 0); stats == t.stats && stored == t.stored
    {
      ghost var at := s;
      var k := 0;
      while k < |ready|
        invariant 0 <= k <= |ready|
        invariant f < |at.flights| && at.flights[f] == Flight(ready[k..], None)
        invariant stats == at.stats && stored == at.stored
        invariant Flown(s, policy, f, draws, 0) == Flown(at, policy, f, draws, k)
      {
        var threw := ProcessOne(ready[k], draws(k), at, f);
        FlownStep(at, policy, f, draws, k);
        at := Processed(at, policy, f, draws(k));
        if threw {
          return;
        }
        k := k + 1;
      }
    }

    // A tick that nothing interrupts: the move Tick and then those of its flight.
    method Tick(buffer: TraceBuffer, now: real, holdMs: real, draws: nat -> Draw, ghost s: State)
      requires Sorted(buffer.buckets)
      requires buffer.buckets == s.buffer && stats == s.stats && stored == s.stored
      modifies this, buffer
      ensures var t := Flown(Step(s, policy, Action.Tick(now, holdMs)), policy, |s.flights|, draws, 0);
        stats == t.stats && stored == t.stored
      ensures buffer.buckets == Waiting(s.buffer, now, holdMs) && Sorted(buffer.buckets)
    {
      var ready := buffer.DrainIdle(now, holdMs);
      stats := stats.(tracesBuffered := |buffer.buckets|);
      Fly(SpansOf(ready), draws, Step(s, policy, Action.Tick(now, holdMs)), |s.flights|);
    }
  }
}
