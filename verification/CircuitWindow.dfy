/** What the breaker of an upstream has counted and when it changes its mode, read off the reports it was given
    (apps/api-gateway/src/middleware/circuit.ts). */
module CircuitWindow {
  import opened Wrappers
  import opened Circuit

  // ---- the window of a history ----

  // When the current window began, and the first report that can belong to it.
  datatype Window = Window(began: int, from: nat)

  // A successful probe closes the breaker with a fresh window; a report more than windowMs after the window's beginning
  // begins another. Failed probes belong to no window.
  function Current(windowMs: int, start: int, log: seq<Heard>): (w: Window)
    ensures w.from <= |log|
  {
    if log == [] then Window(start, 0)
    else Next(windowMs, Current(windowMs, start, log[..|log| - 1]), |log| - 1, log[|log| - 1])
  }

  // The window once report n has been heard.
  function Next(windowMs: int, w: Window, n: nat, last: Heard): Window {
    if last.probing then if last.failed then w else Window(last.at, n + 1)
    else if last.at - w.began > windowMs then Window(last.at, n)
    else w
  }

  ghost function Counted(log: seq<Heard>, from: nat): set<nat> {
    set i: nat | from <= i < |log| && !log[i].probing
  }

  ghost function CountedFailures(log: seq<Heard>, from: nat): set<nat> {
    set i: nat | from <= i < |log| && !log[i].probing && log[i].failed
  }

  /** A window begins at the start, with a successful probe just before its first report, or with that report itself,
      the first more than windowMs after the window before it began; and it has no report more than windowMs after its
      beginning. */
  lemma {:induction false} WindowIs(windowMs: int, start: int, log: seq<Heard>)
    requires 0 <= windowMs
    ensures var w := Current(windowMs, start, log);
            && (forall i | w.from <= i < |log| && !log[i].probing :: log[i].at - w.began <= windowMs)
            && (|| w == Window(start, 0)
                || (w.from > 0 && log[w.from - 1].probing && !log[w.from - 1].failed && w.began == log[w.from - 1].at)
                || (w.from < |log| && !log[w.from].probing && w.began == log[w.from].at
                    && log[w.from].at - Current(windowMs, start, log[..w.from]).began > windowMs))
    decreases |log|
  {
    if log != [] {
      var init := log[..|log| - 1];
      WindowIs(windowMs, start, init);
      var v, w := Current(windowMs, start, init), Current(windowMs, start, log);
      if w == v {
        assert v.from < |init| ==> init[..v.from] == log[..v.from];
      } else {
        assert w.from == |log| || log[..w.from] == init;
      }
    }
  }

  // ---- the counters ----

  ghost predicate CountsOf(b: Breaker, log: seq<Heard>, w: Window) {
    && b.windowStartedAt == w.began && b.total == |Counted(log, w.from)| && b.failures == |CountedFailures(log, w.from)|
  }

  ghost predicate Tallied(c: Config, start: int, g: Gate) {
    CountsOf(g.breaker, g.log, Current(c.opts.windowMs, start, g.log))
  }

  // Adding a report to a window.
  lemma CountSnoc(log: seq<Heard>, last: Heard, from: nat)
    requires from <= |log|
    ensures |Counted(log + [last], from)| == |Counted(log, from)| + if last.probing then 0 else 1
    ensures |CountedFailures(log + [last], from)|
         == |CountedFailures(log, from)| + if !last.probing && last.failed then 1 else 0
  {
    var all := log + [last];
    assert forall i: nat | i < |log| :: all[i] == log[i];
    assert Counted(all, from) == Counted(log, from) + if last.probing then {} else {|log|};
    assert CountedFailures(all, from) == CountedFailures(log, from) + if last.probing || !last.failed then {}
        else {|log|};
  }

  lemma CountNone(log: seq<Heard>)
    ensures Counted(log, |log|) == {} && CountedFailures(log, |log|) == {}
  {
  }

  lemma CurrentSnoc(windowMs: int, start: int, log: seq<Heard>, last: Heard)
    ensures Current(windowMs, start, log + [last]) == Next(windowMs, Current(windowMs, start, log), |log|, last)
  {
    assert (log + [last])[..|log|] == log;
  }

  lemma RecordCounts(o: Opts, b: Breaker, now: int, report: Report, log: seq<Heard>, w: Window, last: Heard,
                     after: Breaker)
    requires CountsOf(b, log, w) && w.from <= |log| && after == Recorded(o, b, now, report)
    requires last == Heard(now, Failing(report), b.mode == HalfOpen)
    ensures CountsOf(after, log + [last], Next(o.windowMs, w, |log|, last))
  {
    CountNone(log);
    CountNone(log + [last]);
    CountSnoc(log, last, w.from);
    CountSnoc(log, last, |log|);
  }

  lemma TalliedFinish(c: Config, start: int, g: Gate, r: nat, report: Report)
    requires Tallied(c, start, g) && Enabled(g, Finish(r, report))
    ensures Tallied(c, start, Step(c, g, Finish(r, report)))
  {
    var last := Heard(g.clock, Failing(report), g.breaker.mode == HalfOpen);
    CurrentSnoc(c.opts.windowMs, start, g.log, last);
    RecordCounts(c.opts, g.breaker, g.clock, report, g.log, Current(c.opts.windowMs, start, g.log), last,
                 Step(c, g, Finish(r, report)).breaker);
  }

  lemma {:induction false} TalliedRun(c: Config, start: int, g: Gate, acts: seq<Action>, h: Gate)
    requires Tallied(c, start, g) && Exec(c, g, acts, h)
    ensures Tallied(c, start, h)
    decreases |acts|
  {
    if acts != [] {
      if acts[0].Finish? { TalliedFinish(c, start, g, acts[0].r, acts[0].report); }
      TalliedRun(c, start, Step(c, g, acts[0]), acts[1..], h);
    }
  }

  /** Over every interleaving the counters are those of the current window of the reports: how many, and how many of
      them failures. */
  lemma CountersAreReports(c: Config, start: int, acts: seq<Action>, g: Gate)
    requires Exec(c, Begin(start), acts, g)
    ensures Tallied(c, start, g)
  {
    TalliedRun(c, start, Begin(start), acts, g);
  }

  // ---- changes of mode ----

  ghost predicate TooManyFail(o: Opts, total: nat, failures: nat) {
    total >= o.minRequests && total > 0 && failures as real / total as real >= o.errorRate
  }

  lemma FailureOpensIff(o: Opts, b: Breaker, now: int, error: string, after: Breaker)
    requires b.mode == Closed && after == RecordFailure(o, b, now, error)
    ensures after.total > 0 && after.mode == if TooManyFail(o, after.total, after.failures) then Open else Closed
  {
    QuotientTrips(o, after.total, after.failures);
  }

  lemma ClosedAfterReport(c: Config, g: Gate, r: nat, report: Report, h: Gate)
    requires Enabled(g, Finish(r, report)) && h == Step(c, g, Finish(r, report)) && g.breaker.mode == Closed
    ensures h.breaker.mode ==
              if Failing(report) && TooManyFail(c.opts, h.breaker.total, h.breaker.failures) then Open else Closed
  {
    if Failing(report) {
      FailureOpensIff(c.opts, g.breaker, g.clock, if report.Thrown? then report.error else "status", h.breaker);
    }
  }

  lemma OtherAfterReport(c: Config, g: Gate, r: nat, report: Report, h: Gate)
    requires Enabled(g, Finish(r, report)) && h == Step(c, g, Finish(r, report)) && g.breaker.mode != Closed
    ensures h.breaker.mode == if g.breaker.mode == HalfOpen && !Failing(report) then Closed else Open
  {
  }

  lemma CountersNow(c: Config, start: int, acts: seq<Action>, g: Gate, r: nat, report: Report, h: Gate)
    requires Exec(c, Begin(start), acts, g) && Enabled(g, Finish(r, report)) && h == Step(c, g, Finish(r, report))
    ensures CountsOf(h.breaker, h.log, Current(c.opts.windowMs, start, h.log))
  {
    CountersAreReports(c, start, acts, g);
    TalliedFinish(c, start, g, r, report);
  }

  ghost predicate TooManyFailed(o: Opts, start: int, log: seq<Heard>) {
    var from := Current(o.windowMs, start, log).from;
    TooManyFail(o, |Counted(log, from)|, |CountedFailures(log, from)|)
  }

  lemma CountsTooMany(o: Opts, start: int, b: Breaker, log: seq<Heard>)
    requires CountsOf(b, log, Current(o.windowMs, start, log))
    ensures TooManyFailed(o, start, log) <==> TooManyFail(o, b.total, b.failures)
  {
  }

  /** A closed breaker opens exactly on a failure with which the window has at least minRequests reports and a share of
      failures at or above the error rate; a half-open one opens on a failure and closes on a success; an open one stays
      open. */
  lemma ModeAfterReport(c: Config, start: int, acts: seq<Action>, g: Gate, r: nat, report: Report, h: Gate)
    requires Exec(c, Begin(start), acts, g) && Enabled(g, Finish(r, report)) && h == Step(c, g, Finish(r, report))
    ensures g.breaker.mode == Closed ==>
              h.breaker.mode == if Failing(report) && TooManyFailed(c.opts, start, h.log) then Open else Closed
    ensures g.breaker.mode == HalfOpen ==> h.breaker.mode == if Failing(report) then Open else Closed
    ensures g.breaker.mode == Open ==> h.breaker.mode == Open
  {
    if g.breaker.mode == Closed {
      CountersNow(c, start, acts, g, r, report, h);
      CountsTooMany(c.opts, start, h.breaker, h.log);
      ClosedAfterReport(c, g, r, report, h);
    } else {
      OtherAfterReport(c, g, r, report, h);
    }
  }

  /** The error kept is that of the last failure, until a probe succeeds. */
  lemma LastErrorIs(c: Config, g: Gate, r: nat, report: Report, h: Gate)
    requires Enabled(g, Finish(r, report)) && h == Step(c, g, Finish(r, report))
    ensures report.Thrown? ==> h.breaker.lastError == Some(report.error)
    ensures report.Response? && Failing(report) ==> h.breaker.lastError.Some?
    ensures !Failing(report) ==>
              h.breaker.lastError == if g.breaker.mode == HalfOpen then None else g.breaker.lastError
    ensures g.breaker.mode == HalfOpen ==> !h.breaker.probing
  {
  }

  /** Requests are admitted exactly while the breaker is closed, once openMs has passed since it last opened, and while
      a half-open episode has admitted one only. Admission is what moves an open breaker to half open. */
  lemma AdmitsIff(c: Config, start: int, acts: seq<Action>, g: Gate)
    requires 0 < start && Exec(c, Begin(start), acts, g)
    ensures Admits(c, g) <==>
              match g.breaker.mode
              case Closed => true
              case Open => g.lastOpened.Some? && g.clock >= g.lastOpened.value + c.opts.openMs
              case HalfOpen => |g.probes| == 1
    ensures forall r | Enabled(g, Admit(r)) ::
              Step(c, g, Admit(r)).breaker.mode
                == if g.breaker.mode == Open && Admits(c, g) then HalfOpen else g.breaker.mode
  {
    SoundRun(c, Begin(start), acts, g);
  }

  /** A request admitted is in flight with the retries it has made; one refused is done, and leaves the breaker as it
      was. */
  lemma AsksOnce(c: Config, g: Gate, r: nat, h: Gate)
    requires Enabled(g, Admit(r)) && h == Step(c, g, Admit(r))
    ensures if Admits(c, g)
            then h.requests == g.requests[r := InFlight(g.requests[r].retries)]
                 && h.admissions == g.admissions + multiset{r}
            else h == g.(requests := g.requests[r := Done])
    ensures h.log == g.log && h.clock == g.clock && h.records == g.records && h.lastOpened == g.lastOpened
    ensures r !in (g.requests - {r}) && Step(c, g.(requests := g.requests - {r}), Arrive(r)).requests[r] == Ready(0)
  {
  }

  /** A request tries again exactly when its route has retries left and the report is a status the route retries on, or
      an error before the headers were sent. */
  lemma RetriesIff(c: Config, g: Gate, r: nat, report: Report)
    requires Enabled(g, Finish(r, report))
    ensures var again := Step(c, g, Finish(r, report)).requests[r];
            var retries, route := g.requests[r].retries, c.route(r);
            if retries < route.maxRetries
               && (if report.Response? then report.status in route.retryOnStatus else !report.headersSent)
            then again == Ready(retries + 1) else again == Done
  {
  }
}
