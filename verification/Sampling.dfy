/** The tail-sampling decision (apps/observability/src/sampling/tail.ts). */
module Sampling {
  import opened Wrappers
  import opened Buffering

  datatype Reason = Error | Slow | Probabilistic

  datatype Policy = Policy(slowTraceMs: real, sampleRate: real)

  datatype TraceDoc = TraceDoc(traceId: string, startMs: real, endMs: real, durationMs: real,
                               spanCount: nat, errorCount: nat, sampledReason: Reason)

  datatype Decision = Drop | Keep(trace: TraceDoc)

  function MinStart(spans: Spans): (m: real)
    requires spans != []
    ensures forall s :: s in spans ==> m <= s.startMs
    ensures exists s :: s in spans && m == s.startMs
  {
    if |spans| == 1 then spans[0].startMs
    else
      var m := MinStart(spans[1..]);
      assert spans == [spans[0]] + spans[1..];
      if spans[0].startMs <= m then spans[0].startMs else m
  }

  function MaxEnd(spans: Spans): (m: real)
    requires spans != []
    ensures forall s :: s in spans ==> s.endMs <= m
    ensures exists s :: s in spans && m == s.endMs
  {
    if |spans| == 1 then spans[0].endMs
    else
      var m := MaxEnd(spans[1..]);
      assert spans == [spans[0]] + spans[1..];
      if spans[0].endMs >= m then spans[0].endMs else m
  }

  function Errors(spans: Spans): (n: nat)
    ensures n > 0 <==> exists s :: s in spans && s.failed
  {
    if spans == [] then 0
    else
      assert spans == [spans[0]] + spans[1..];
      (if spans[0].failed then 1 else 0) + Errors(spans[1..])
  }

  function Duration(spans: Spans): real
    requires spans != []
  {
    var d := MaxEnd(spans) - MinStart(spans);
    if d < 0.0 then 0.0 else d
  }

  function Decide(spans: Spans, policy: Policy, random: real): Decision {
    if spans == [] then Drop
    else
      var reason :=
        if Errors(spans) > 0 then Some(Error)
        else if Duration(spans) >= policy.slowTraceMs then Some(Slow)
        else if random < policy.sampleRate then Some(Probabilistic)
        else None;
      if reason.None? then Drop
      else Keep(TraceDoc(spans[0].traceId, MinStart(spans), MaxEnd(spans), Duration(spans), |spans|, Errors(spans),
                         reason.value))
  }

  predicate HasError(spans: Spans) {
    exists s :: s in spans && s.failed
  }

  predicate IsSlow(spans: Spans, policy: Policy) {
    spans != [] && Duration(spans) >= policy.slowTraceMs
  }

  // What may be kept under a reason, and what may be dropped.
  predicate Deserves(spans: Spans, policy: Policy, reason: Reason) {
    match reason
    case Error => HasError(spans)
    case Slow => !HasError(spans) && IsSlow(spans, policy)
    case Probabilistic => !HasError(spans) && !IsSlow(spans, policy)
  }

  predicate Droppable(spans: Spans, policy: Policy) {
    !HasError(spans) && !IsSlow(spans, policy)
  }

  // ---- the judgement by the spans themselves ----

  // From the start of one span to the end of another.
  ghost predicate Spread(spans: Spans, d: real) {
    exists a, b :: a in spans && b in spans && d == b.endMs - a.startMs
  }

  ghost predicate Longest(spans: Spans, d: real) {
    Spread(spans, d) && forall a, b :: a in spans && b in spans ==> b.endMs - a.startMs <= d
  }

  lemma LongestIs(spans: Spans)
    requires spans != []
    ensures Longest(spans, MaxEnd(spans) - MinStart(spans))
  {
  }

  /** A trace is slow exactly when no time at all is slow already, or some span ends long enough after some span starts.
      */
  lemma SlowIff(spans: Spans, policy: Policy)
    requires spans != []
    ensures IsSlow(spans, policy) <==>
              policy.slowTraceMs <= 0.0
              || exists a, b :: a in spans && b in spans && b.endMs - a.startMs >= policy.slowTraceMs
  {
    LongestIs(spans);
  }

  ghost function Failures(spans: Spans): set<nat> {
    set i: nat | i < |spans| && spans[i].failed
  }

  lemma {:induction false} ErrorsCount(spans: Spans)
    ensures Errors(spans) == |Failures(spans)|
    decreases |spans|
  {
    if spans == [] {
      assert Failures(spans) == {};
    } else {
      var rest := spans[1..];
      ErrorsCount(rest);
      ShiftCount(spans);
    }
  }

  lemma ShiftCount(spans: Spans)
    requires spans != []
    ensures |Failures(spans)| == (if spans[0].failed then 1 else 0) + |Failures(spans[1..])|
  {
    var rest := Failures(spans[1..]);
    var moved := set i | i in rest :: i + 1;
    Moved(rest, moved);
    assert 0 !in moved;
    forall i | i in Failures(spans) ensures i == 0 || i in moved {
      if i > 0 { assert i - 1 in rest; }
    }
    forall i | i in moved ensures i in Failures(spans) {
      var k: nat :| k in rest && k + 1 == i;
      assert spans[1..][k] == spans[k + 1];
    }
    assert Failures(spans) == (if spans[0].failed then {0} else {}) + moved;
  }

  lemma {:induction false} Moved(ids: set<nat>, moved: set<nat>)
    requires moved == set i | i in ids :: i + 1
    ensures |moved| == |ids|
    decreases |ids|
  {
    if ids != {} {
      var k :| k in ids;
      var rest := set i | i in ids - {k} :: i + 1;
      Moved(ids - {k}, rest);
      forall i | i in moved ensures i in rest + {k + 1} {
        var n: nat :| n in ids && n + 1 == i;
        assert n == k || n in ids - {k};
      }
      assert moved == rest + {k + 1};
      assert k + 1 !in rest;
    }
  }

  /** A kept trace's document has its first start and last end, its duration (never negative), and as many spans and
      errors as there are. */
  lemma DocumentTells(spans: Spans, policy: Policy, random: real)
    requires Decide(spans, policy, random).Keep?
    ensures var doc := Decide(spans, policy, random).trace;
            && (forall s :: s in spans ==> doc.startMs <= s.startMs && s.endMs <= doc.endMs)
            && (exists a, b :: a in spans && b in spans && doc.startMs == a.startMs && doc.endMs == b.endMs)
            && doc.durationMs == (if doc.endMs < doc.startMs then 0.0 else doc.endMs - doc.startMs)
            && doc.spanCount == |spans| && doc.errorCount == |Failures(spans)| && doc.traceId == spans[0].traceId
  {
    ErrorsCount(spans);
  }

  /** With neither an error nor a slow pair of spans a trace is kept exactly when the draw is below the sample rate;
      with one of them always. */
  lemma KeptIff(spans: Spans, policy: Policy, random: real)
    requires spans != []
    ensures Decide(spans, policy, random).Keep? <==>
              HasError(spans) || IsSlow(spans, policy) || random < policy.sampleRate
  {
  }
}
