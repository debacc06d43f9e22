/** The per-upstream circuit breaker and the retry loop that drives it
    (apps/api-gateway/src: middleware/circuit.ts, proxy/handler.ts). */
module Circuit {
  import opened Wrappers

  datatype Opts = Opts(errorRate: real, minRequests: int, openMs: int, windowMs: int)

  datatype Mode = Closed | Open | HalfOpen

  datatype Breaker = Breaker(mode: Mode, total: nat, failures: nat, windowStartedAt: int, openedAt: Option<int>,
                             lastError: Option<string>, probing: bool)

  function NewBreaker(now: int): Breaker {
    Breaker(Closed, 0, 0, now, None, None, false)
  }

  // A missing time and the time zero are both falsy.
  predicate Elapsed(o: Opts, b: Breaker, now: int) {
    b.openedAt.Some? && b.openedAt.value != 0 && now - b.openedAt.value >= o.openMs
  }

  function ShouldAllow(o: Opts, b: Breaker, now: int): (Breaker, bool) {
    match b.mode
    case Open => if Elapsed(o, b, now) then (b.(mode := HalfOpen, probing := false), true) else (b, false)
    case HalfOpen => if b.probing then (b, false) else (b.(probing := true), true)
    case Closed => (b, true)
  }

  function Rolled(o: Opts, b: Breaker, now: int): Breaker {
    if now - b.windowStartedAt > o.windowMs then b.(windowStartedAt := now, total := 0, failures := 0) else b
  }

  function RecordSuccess(o: Opts, b: Breaker, now: int): Breaker {
    if b.mode == HalfOpen then NewBreaker(now)
    else
      var r := Rolled(o, b, now);
      r.(total := r.total + 1)
  }

  predicate Trips(o: Opts, total: nat, failures: nat) {
    total >= o.minRequests && failures as real >= o.errorRate * total as real
  }

  function RecordFailure(o: Opts, b: Breaker, now: int, error: string): Breaker {
    var e := b.(lastError := Some(error));
    if e.mode == HalfOpen then e.(mode := Open, openedAt := Some(now), probing := false)
    else
      var r := Rolled(o, e, now);
      var c := r.(total := r.total + 1, failures := r.failures + 1);
      if Trips(o, c.total, c.failures) then c.(mode := Open, openedAt := Some(now)) else c
  }

  function Get(states: map<string, Breaker>, key: string, now: int): Breaker {
    if key in states then states[key] else NewBreaker(now)
  }

  class CircuitBreaker {
    const opts: Opts
    var states: map<string, Breaker>

    constructor (opts: Opts)
      ensures this.opts == opts && states == map[]
    {
      this.opts, states := opts, map[];
    }

    method Allow(key: string, now: int) returns (allow: bool)
      modifies this
      ensures var (b, ok) := ShouldAllow(opts, Get(old(states), key, now), now);
              allow == ok && states == old(states)[key := b]
    {
      var s := Get(states, key, now);
      if s.mode == Open {
        if s.openedAt.Some? && s.openedAt.value != 0 && now - s.openedAt.value >= opts.openMs {
          s := s.(mode := HalfOpen, probing := false);
          allow := true;
        } else {
          allow := false;
        }
      } else if s.mode == HalfOpen {
        allow := !s.probing;
        s := s.(probing := true);
      } else {
        allow := true;
      }
      states := states[key := s];
    }

    method Success(key: string, now: int)
      modifies this
      ensures states == old(states)[key := RecordSuccess(opts, Get(old(states), key, now), now)]
    {
      var s := Get(states, key, now);
      if s.mode == HalfOpen {
        s := Breaker(Closed, 0, 0, now, None, None, false);
      } else {
        if now - s.windowStartedAt > opts.windowMs {
          s := s.(windowStartedAt := now, total := 0, failures := 0);
        }
        s := s.(total := s.total + 1);
      }
      states := states[key := s];
    }

    // The rate is compared as a quotient; the total counted is never zero.
    method Failure(key: string, now: int, error: string)
      modifies this
      ensures states == old(states)[key := RecordFailure(opts, Get(old(states), key, now), now, error)]
    {
      var s := Get(states, key, now).(lastError := Some(error));
      if s.mode == HalfOpen {
        s := s.(mode := Open, openedAt := Some(now), probing := false);
      } else {
        if now - s.windowStartedAt > opts.windowMs {
          s := s.(windowStartedAt := now, total := 0, failures := 0);
        }
        s := s.(total := s.total + 1, failures := s.failures + 1);
        if s.total >= opts.minRequests {
          var rate := s.failures as real / s.total as real;
          QuotientTrips(opts, s.total, s.failures);
          if rate >= opts.errorRate {
            s := s.(mode := Open, openedAt := Some(now));
          }
        }
      }
      states := states[key := s];
    }
  }

  lemma QuotientTrips(o: Opts, total: nat, failures: nat)
    requires total > 0
    ensures failures as real / total as real >= o.errorRate <==> failures as real >= o.errorRate * total as real
  {
    var rate := failures as real / total as real;
    assert rate * total as real == failures as real;
    if rate >= o.errorRate {
      Scale(o.errorRate, rate, total as real);
    } else {
      ScaleStrictly(rate, o.errorRate, total as real);
    }
  }

  lemma Scale(x: real, y: real, n: real)
    requires x <= y && 0.0 < n
    ensures x * n <= y * n
  {
  }

  lemma ScaleStrictly(x: real, y: real, n: real)
    requires x < y && 0.0 < n
    ensures x * n < y * n
  {
  }

  // ---- requests driving one breaker ----

  // Routes to one upstream share its breaker and have retry settings of their own.
  datatype Route = Route(maxRetries: nat, retryOnStatus: set<int>)

  // The breaker's options, and the route each request takes.
  datatype Config = Config(opts: Opts, route: nat -> Route)

  datatype Phase = Ready(retries: nat) | InFlight(retries: nat) | Done

  // A recorded report: when, whether it was a failure, and whether the breaker was half open then.
  datatype Heard = Heard(at: int, failed: bool, probing: bool)

  datatype Gate = Gate(
    breaker: Breaker,
    clock: int,
    requests: map<nat, Phase>,
    // history
    lastOpened: Option<int>,     // the last time the breaker was set open
    probes: set<nat>,            // admitted since the breaker last became half open
    admissions: multiset<nat>,
    records: multiset<nat>,
    log: seq<Heard>)             // every report recorded, in order

  // What the forwarder reported: a response with its status, or an error, with the headers sent or not.
  datatype Report = Response(status: int) | Thrown(error: string, headersSent: bool)

  // A response of status 500 and up, or an error.
  predicate Failing(report: Report) {
    report.Thrown? || report.status >= 500
  }

  datatype Action = Arrive(r: nat) | Admit(r: nat) | Finish(r: nat, report: Report) | Tick(dt: int)

  predicate Enabled(g: Gate, a: Action) {
    match a
    case Arrive(r) => r !in g.requests
    case Admit(r) => r in g.requests && g.requests[r].Ready?
    case Finish(r, _) => r in g.requests && g.requests[r].InFlight?
    case Tick(dt) => 0 <= dt
  }

  function Recorded(o: Opts, b: Breaker, now: int, report: Report): Breaker {
    match report
    case Response(status) => if status >= 500 then RecordFailure(o, b, now, "status") else RecordSuccess(o, b, now)
    case Thrown(error, _) => RecordFailure(o, b, now, error)
  }

  predicate Retries(route: Route, retries: nat, report: Report) {
    && retries < route.maxRetries
    && (match report
        case Response(status) => status in route.retryOnStatus
        case Thrown(_, headersSent) => !headersSent)
  }

  predicate Opens(before: Breaker, after: Breaker) {
    after.mode == Open && (before.mode != Open || after.openedAt != before.openedAt)
  }

  function Step(c: Config, g: Gate, a: Action): Gate
    requires Enabled(g, a)
  {
    match a
    case Arrive(r) => g.(requests := g.requests[r := Ready(0)])
    case Admit(r) =>
      var (b, ok) := ShouldAllow(c.opts, g.breaker, g.clock);
      if ok then g.(breaker := b, requests := g.requests[r := InFlight(g.requests[r].retries)],
                    probes := if b.mode != HalfOpen then {}
                              else if g.breaker.mode == HalfOpen then g.probes + {r}
                              else {r},
                    admissions := g.admissions + multiset{r})
      else g.(breaker := b, requests := g.requests[r := Done])
    case Finish(r, report) =>
      var b := Recorded(c.opts, g.breaker, g.clock, report);
      var retries := g.requests[r].retries;
      g.(breaker := b,
         requests := g.requests[r := if Retries(c.route(r), retries, report) then Ready(retries + 1) else Done],
         lastOpened := if Opens(g.breaker, b) then Some(g.clock) else g.lastOpened,
         probes := if b.mode == HalfOpen then g.probes else {},
         records := g.records + multiset{r},
         log := g.log + [Heard(g.clock, Failing(report), g.breaker.mode == HalfOpen)])
    case Tick(dt) => g.(clock := g.clock + dt)
  }

  ghost predicate Exec(c: Config, g: Gate, acts: seq<Action>, h: Gate)
    decreases |acts|
  {
    if acts == [] then g == h else Enabled(g, acts[0]) && Exec(c, Step(c, g, acts[0]), acts[1..], h)
  }

  // Clocks count from the epoch and are past it.
  function Begin(now: int): Gate {
    Gate(NewBreaker(now), now, map[], None, {}, multiset{}, multiset{}, [])
  }

  ghost predicate Sound(c: Config, g: Gate) {
    && 0 < g.clock
    && (g.breaker.mode == Open ==> g.lastOpened.Some? && g.breaker.openedAt == g.lastOpened)
    && (g.lastOpened.Some? ==> 0 < g.lastOpened.value <= g.clock)
    && (g.lastOpened.Some? && g.breaker.mode != Open ==> g.clock >= g.lastOpened.value + c.opts.openMs)
    && (forall r | r in g.probes :: r in g.requests && g.requests[r].InFlight?)
    && (g.breaker.mode == HalfOpen ==> g.lastOpened.Some? && |g.probes| == if g.breaker.probing then 2 else 1)
    && (forall r | r in g.requests ::
          && g.admissions[r] == g.records[r] + (if g.requests[r].InFlight? then 1 else 0)
          && (g.requests[r].Ready? ==> g.admissions[r] == g.requests[r].retries <= c.route(r).maxRetries)
          && (g.requests[r].InFlight? ==>
              g.admissions[r] == g.requests[r].retries + 1 && g.requests[r].retries <= c.route(r).maxRetries)
          && g.admissions[r] <= c.route(r).maxRetries + 1)
    && (forall r :: r !in g.requests ==> g.admissions[r] == 0 && g.records[r] == 0)
  }

  lemma SoundAdmitted(c: Config, g: Gate, r: nat, h: Gate)
    requires Sound(c, g) && Enabled(g, Admit(r)) && h == Step(c, g, Admit(r))
    requires ShouldAllow(c.opts, g.breaker, g.clock).1
    ensures Sound(c, h)
  {
    assert r !in g.probes;
  }

  lemma SoundRefused(c: Config, g: Gate, r: nat, h: Gate)
    requires Sound(c, g) && Enabled(g, Admit(r)) && h == Step(c, g, Admit(r))
    requires !ShouldAllow(c.opts, g.breaker, g.clock).1
    ensures Sound(c, h)
  {
    assert r !in g.probes;
  }

  // After any record the breaker is not half open.
  lemma RecordLeavesHalfOpen(o: Opts, b: Breaker, now: int, report: Report)
    ensures b.mode == HalfOpen ==> Recorded(o, b, now, report).mode != HalfOpen
    ensures Recorded(o, b, now, report).mode == HalfOpen ==> b.mode == HalfOpen
    ensures Recorded(o, b, now, report).mode == Open ==>
              Recorded(o, b, now, report).openedAt == Some(now)
                  || (b.mode == Open && Recorded(o, b, now, report).openedAt == b.openedAt)
    ensures b.mode == Open ==> Recorded(o, b, now, report).mode == Open
  {
  }

  lemma SoundFinish(c: Config, g: Gate, r: nat, report: Report)
    requires Sound(c, g) && Enabled(g, Finish(r, report))
    ensures Sound(c, Step(c, g, Finish(r, report)))
  {
    RecordLeavesHalfOpen(c.opts, g.breaker, g.clock, report);
  }

  lemma SoundStep(c: Config, g: Gate, a: Action)
    requires Sound(c, g) && Enabled(g, a)
    ensures Sound(c, Step(c, g, a))
  {
    match a
    case Arrive(r) =>
    case Admit(r) =>
      if ShouldAllow(c.opts, g.breaker, g.clock).1 {
        SoundAdmitted(c, g, r, Step(c, g, a));
      } else {
        SoundRefused(c, g, r, Step(c, g, a));
      }
    case Finish(r, report) => SoundFinish(c, g, r, report);
    case Tick(dt) =>
  }

  lemma {:induction false} SoundRun(c: Config, g: Gate, acts: seq<Action>, h: Gate)
    requires Sound(c, g) && Exec(c, g, acts, h)
    ensures Sound(c, h)
    decreases |acts|
  {
    if acts != [] {
      SoundStep(c, g, acts[0]);
      SoundRun(c, Step(c, g, acts[0]), acts[1..], h);
    }
  }

  ghost predicate Admits(c: Config, g: Gate) {
    ShouldAllow(c.opts, g.breaker, g.clock).1
  }

  /** Over every interleaving: nothing is admitted less than openMs after the breaker last opened. */
  lemma NoEarlyAdmission(c: Config, start: int, acts: seq<Action>, g: Gate)
    requires 0 < start && Exec(c, Begin(start), acts, g)
    ensures Admits(c, g) && g.lastOpened.Some? ==> g.clock >= g.lastOpened.value + c.opts.openMs
  {
    SoundRun(c, Begin(start), acts, g);
  }

  /** A half-open episode admits at most two requests, neither of which has recorded yet: the one that moved the breaker
      to half open and the one that sets the probing flag. */
  lemma AtMostTwoProbes(c: Config, start: int, acts: seq<Action>, g: Gate)
    requires 0 < start && Exec(c, Begin(start), acts, g) && g.breaker.mode == HalfOpen
    ensures 1 <= |g.probes| <= 2 && forall r | r in g.probes :: r in g.requests && g.requests[r].InFlight?
    ensures Admits(c, g) <==> |g.probes| == 1
  {
    SoundRun(c, Begin(start), acts, g);
  }

  /** The breaker is never stuck: open, it admits as soon as openMs has passed; half open, some admitted call is still
      out, and whatever that call reports takes the breaker out of half open. */
  lemma NeverStuck(c: Config, start: int, acts: seq<Action>, g: Gate, dt: nat)
    requires 0 < start && Exec(c, Begin(start), acts, g)
    ensures g.breaker.mode == Open ==>
              g.lastOpened.Some?
                  && (Admits(c, Step(c, g, Tick(dt))) <==> g.clock + dt >= g.lastOpened.value + c.opts.openMs)
    ensures g.breaker.mode == HalfOpen ==>
              exists r :: r in g.requests && g.requests[r].InFlight?
                && forall report :: Step(c, g, Finish(r, report)).breaker.mode != HalfOpen
  {
    SoundRun(c, Begin(start), acts, g);
    if g.breaker.mode == HalfOpen {
      var r :| r in g.probes;
      forall report ensures Step(c, g, Finish(r, report)).breaker.mode != HalfOpen {
        RecordLeavesHalfOpen(c.opts, g.breaker, g.clock, report);
      }
    }
  }

  /** Every admission is recorded exactly once, and a request is admitted at most its route's maxRetries + 1 times. */
  lemma RecordedOncePerAdmission(c: Config, start: int, acts: seq<Action>, g: Gate, r: nat)
    requires 0 < start && Exec(c, Begin(start), acts, g)
    ensures g.admissions[r] == g.records[r] + (if r in g.requests && g.requests[r].InFlight? then 1 else 0)
    ensures g.admissions[r] <= c.route(r).maxRetries + 1
  {
    SoundRun(c, Begin(start), acts, g);
  }

  /** "Exactly one probe at a time" is false of the code: two requests get through one half-open episode. */
  lemma TwoProbesAdmitted()
    ensures var o := Opts(0.5, 1, 10, 1000);
            var open := RecordFailure(o, NewBreaker(5), 5, "down");
            var (half, first) := ShouldAllow(o, open, 15);
            var (again, second) := ShouldAllow(o, half, 15);
            open.mode == Open && half.mode == HalfOpen && first && second && !ShouldAllow(o, again, 15).1
  {
  }

  // ---- the retry loop of one request, alone with its breaker ----

  datatype Verdict = Verdict(breaker: Breaker, retries: nat, circuitOpen: bool, admitted: nat)

  // The k-th round runs at clock(k) and, if admitted, reports report(k).
  function Rounds(o: Opts, route: Route, b: Breaker, clock: nat -> int, report: nat -> Report, k: nat,
                  admitted: nat): Verdict
    decreases route.maxRetries - k
  {
    var (asked, ok) := ShouldAllow(o, b, clock(k));
    if !ok then Verdict(asked, k, true, admitted)
    else
      var after := Recorded(o, asked, clock(k), report(k));
      if Retries(route, k, report(k)) then Rounds(o, route, after, clock, report, k + 1, admitted + 1)
      else Verdict(after, k, false, admitted + 1)
  }

  lemma ExecFirst(c: Config, g: Gate, a: Action, rest: seq<Action>, h: Gate)
    requires Enabled(g, a) && Exec(c, Step(c, g, a), rest, h)
    ensures Exec(c, g, [a] + rest, h)
  {
    assert ([a] + rest)[1..] == rest;
  }

  // The moves of request r, with time passing.
  ghost predicate Alone(acts: seq<Action>, r: nat) {
    forall i | 0 <= i < |acts| :: acts[i] == Admit(r) || acts[i].Tick? || (acts[i].Finish? && acts[i].r == r)
  }

  // acts is such a course from g to h, and v what the loop returns after it.
  ghost predicate RanOut(c: Config, g: Gate, r: nat, k: nat, admitted: nat, acts: seq<Action>, h: Gate, v: Verdict) {
    && Exec(c, g, acts, h) && Alone(acts, r) && acts != [] && r in h.requests && h.requests[r] == Done
    && v.breaker == h.breaker
    && v.admitted - admitted as int == h.admissions[r] - g.admissions[r] as int
    && (v.circuitOpen <==> acts[|acts| - 1] == Admit(r))
    && v.retries - k as int == v.admitted - admitted as int - (if v.circuitOpen then 0 else 1)
  }

  lemma RanOutLater(c: Config, g: Gate, r: nat, k: nat, admitted: nat, report: Report, dt: int, g1: Gate, g2: Gate,
                    acts: seq<Action>, h: Gate, v: Verdict)
    requires Enabled(g, Admit(r)) && g1 == Step(c, g, Admit(r))
    requires Enabled(g1, Finish(r, report)) && g2 == Step(c, g1, Finish(r, report))
    requires 0 <= dt && g2.admissions[r] == g.admissions[r] + 1
    requires RanOut(c, Step(c, g2, Tick(dt)), r, k + 1, admitted + 1, acts, h, v)
    ensures RanOut(c, g, r, k, admitted, [Admit(r)] + ([Finish(r, report)] + ([Tick(dt)] + acts)), h, v)
  {
    ExecFirst(c, g2, Tick(dt), acts, h);
    ExecFirst(c, g1, Finish(r, report), [Tick(dt)] + acts, h);
    ExecFirst(c, g, Admit(r), [Finish(r, report)] + ([Tick(dt)] + acts), h);
  }

  // One round of the loop is an admission and, if it is granted, a report.
  lemma RoundIsSteps(c: Config, g: Gate, r: nat, clock: nat -> int, report: nat -> Report, k: nat, admitted: nat,
                     g1: Gate)
    requires r in g.requests && g.requests[r] == Ready(k) && g.clock == clock(k) && g1 == Step(c, g, Admit(r))
    ensures var v := Rounds(c.opts, c.route(r), g.breaker, clock, report, k, admitted);
            if g1.requests[r] == Done
            then v == Verdict(g1.breaker, k, true, admitted) && g1.admissions == g.admissions
            else
              && Enabled(g1, Finish(r, report(k)))
              && var g2 := Step(c, g1, Finish(r, report(k)));
                 && g2.admissions[r] == g.admissions[r] + 1 && g2.clock == g.clock
                 && (g2.requests[r] == Done || (g2.requests[r] == Ready(k + 1) && k < c.route(r).maxRetries))
                 && v == if g2.requests[r] == Done then Verdict(g2.breaker, k, false, admitted + 1)
                         else Rounds(c.opts, c.route(r), g2.breaker, clock, report, k + 1, admitted + 1)
  {
  }

  /** The loop is a course of the gate in which no other request moves: it ends with the request done and the breaker
      as the gate has it, it counts the admissions, and it answers "circuit open" exactly when its last move is an
      admission refused. */
  lemma {:induction false} RoundsAreACourse(c: Config, g: Gate, r: nat, clock: nat -> int, report: nat -> Report,
                                            k: nat,
                                            admitted: nat)
      returns (acts: seq<Action>, h: Gate)
    requires r in g.requests && g.requests[r] == Ready(k) && g.clock == clock(k) && k <= c.route(r).maxRetries
    requires forall i: nat :: clock(i) <= clock(i + 1)
    ensures RanOut(c, g, r, k, admitted, acts, h,
                   Rounds(c.opts, c.route(r), g.breaker, clock, report, k, admitted))
    decreases c.route(r).maxRetries - k
  {
    var g1 := Step(c, g, Admit(r));
    RoundIsSteps(c, g, r, clock, report, k, admitted, g1);
    if g1.requests[r] == Done {
      acts, h := [Admit(r)], g1;
    } else {
      var g2 := Step(c, g1, Finish(r, report(k)));
      if g2.requests[r] == Done {
        acts, h := [Admit(r), Finish(r, report(k))], g2;
        ExecFirst(c, g1, Finish(r, report(k)), [], h);
        ExecFirst(c, g, Admit(r), [Finish(r, report(k))], h);
      } else {
        var dt := clock(k + 1) - clock(k);
        acts, h := RoundsAreACourse(c, Step(c, g2, Tick(dt)), r, clock, report, k + 1, admitted + 1);
        RanOutLater(c, g, r, k, admitted, report(k), dt, g1, g2, acts, h,
                    Rounds(c.opts, c.route(r), g.breaker, clock, report, k, admitted));
        acts := [Admit(r)] + ([Finish(r, report(k))] + ([Tick(dt)] + acts));
      }
    }
  }

  method Handle(circuit: CircuitBreaker, route: Route, upstream: string, clock: nat -> int, report: nat -> Report)
    returns (retries: nat, circuitOpen: bool, admitted: nat, recorded: nat)
    modifies circuit
    ensures upstream in circuit.states
         && Verdict(circuit.states[upstream], retries, circuitOpen, admitted)
            == Rounds(circuit.opts, route, Get(old(circuit.states), upstream, clock(0)), clock, report, 0, 0)
    ensures recorded == admitted && retries <= route.maxRetries && admitted == if circuitOpen then retries
        else retries + 1
    ensures circuit.states - {upstream} == old(circuit.states) - {upstream}
  {
    retries, circuitOpen, admitted, recorded := 0, false, 0, 0;
    while true
      invariant retries > 0 ==> upstream in circuit.states
      invariant retries <= route.maxRetries && admitted == retries && recorded == admitted && !circuitOpen
      invariant Rounds(circuit.opts, route, Get(circuit.states, upstream, clock(retries)), clock, report, retries,
                       admitted)
             == Rounds(circuit.opts, route, Get(old(circuit.states), upstream, clock(0)), clock, report, 0, 0)
      invariant circuit.states - {upstream} == old(circuit.states) - {upstream}
      decreases route.maxRetries - retries
    {
      var now := clock(retries);
      var allow := circuit.Allow(upstream, now);
      if !allow {
        circuitOpen := true;
        return;
      }
      admitted := admitted + 1;
      var again := false;
      match report(retries) {
        case Response(status) =>
          if status >= 500 {
            circuit.Failure(upstream, now, "status");
          } else {
            circuit.Success(upstream, now);
          }
          again := status in route.retryOnStatus && retries < route.maxRetries;
        case Thrown(error, headersSent) =>
          circuit.Failure(upstream, now, error);
          again := !headersSent && retries < route.maxRetries;
      }
      recorded := recorded + 1;
      if !again {
        return;
      }
      retries := retries + 1;
    }
  }
}
