/** The distributed job queue as a transition system. */
module JobProtocol {
  // Producers, workers, reapers and schedulers take turns on the shared store, one Redis call or one local event at a
  // time, and any process may crash between two of them.

  import opened JobStore
  import Backoff

  // Reapers are numbered below `reapers`; `visibility` is the idle time after which they claim.
  datatype Config = Config(visibility: real, reapers: nat)

  // What a process is doing with an entry. A Wrote phase has issued the HSET of the retry path but not its script.
  datatype Phase = Fetched | Running | Wrote(runAt: real)

  datatype Handling = Handling(entry: EntryId, phase: Phase)

  datatype Ending = EndedCompleted | EndedDead

  datatype System = System(
    store: Store,
    clock: real,                     // the clock Redis measures idle times with
    workers: map<EntryId, Phase>,    // each entry is delivered to at most one worker
    reapers: map<nat, Handling>,
    // history
    added: set<JobId>,
    expired: set<JobId>,
    ending: map<JobId, Ending>,      // how the job ended, unless added or requeued since
    invoked: multiset<JobId>)        // one element per handler invocation

  const INIT := System(EMPTY_STORE, 0.0, map[], map[], {}, {}, map[], multiset{})

  // Times passed as `now` are the acting process's own clock and need not agree with Redis's.
  datatype Action =
    | Add(job: Job)
    | Read
    | Start(e: EntryId)
    | Complete(e: EntryId)
    | Die(e: EntryId)
    | Write(e: EntryId, now: real, random: real)
    | Retry(e: EntryId)
    | WriteRetry(e: EntryId, now: real, random: real)
    | Crash(e: EntryId)
    | ReaperClaim(r: nat, e: EntryId)
    | ReaperDie(r: nat)
    | ReaperWrite(r: nat, now: real, random: real)
    | ReaperRetry(r: nat)
    | ReaperWriteRetry(r: nat, now: real, random: real)
    | ReaperCrash(r: nat)
    | Move(now: real, limit: nat)
    | Requeue(j: JobId)
    | Expire(j: JobId)
    | Tick(dt: real)

  // The moves of a worker, and those of a reaper that has claimed.
  predicate ByWorker(a: Action) {
    a.Start? || a.Complete? || a.Die? || a.Write? || a.Retry? || a.WriteRetry? || a.Crash?
  }

  predicate ByReaper(a: Action) {
    a.ReaperDie? || a.ReaperWrite? || a.ReaperRetry? || a.ReaperWriteRetry? || a.ReaperCrash?
  }

  // The record a process holding entry e settles: the entry's own data with one more attempt.
  function Settling(s: System, e: EntryId): Job
    requires e < |s.store.issued|
  {
    Attempted(s.store.issued[e])
  }

  function RunAt(job: Job, now: real, random: real): real {
    now + Backoff.Compute(job.attempts, job.backoff, random)
  }

  // Clocks count from the epoch.
  ghost predicate IsNew(job: Job) {
    exists id, max, backoff, delay, now :: 0.0 <= now && job == NewJob(id, max, backoff, delay, now)
  }

  ghost predicate WorkerIn(s: System, e: EntryId) {
    e in s.workers && e < |s.store.issued|
  }

  ghost predicate ReaperIn(s: System, r: nat) {
    r in s.reapers && s.reapers[r].entry < |s.store.issued|
  }

  ghost predicate Enabled(c: Config, s: System, a: Action) {
    match a
    case Add(job) => IsNew(job)
    case Read => true
    case Start(e) => WorkerIn(s, e) && s.workers[e] == Fetched
    case Complete(e) => WorkerIn(s, e) && s.workers[e] == Running
    case Die(e) => WorkerIn(s, e) && s.workers[e] == Running && Exhausted(Settling(s, e))
    case Write(e, _, _) => WorkerIn(s, e) && s.workers[e] == Running && !Exhausted(Settling(s, e))
    case WriteRetry(e, _, _) => WorkerIn(s, e) && s.workers[e] == Running && !Exhausted(Settling(s, e))
    case Retry(e) => WorkerIn(s, e) && s.workers[e].Wrote?
    case Crash(e) => WorkerIn(s, e)
    case ReaperClaim(r, e) => r < c.reapers && r !in s.reapers && CanClaim(s.store, e, s.clock, c.visibility)
    case ReaperDie(r) => ReaperIn(s, r) && s.reapers[r].phase == Running && Exhausted(Settling(s, s.reapers[r].entry))
    case ReaperWrite(r, _, _) => ReaperIn(s, r) && s.reapers[r].phase == Running
        && !Exhausted(Settling(s, s.reapers[r].entry))
    case ReaperWriteRetry(r, _, _) => ReaperIn(s, r) && s.reapers[r].phase == Running
        && !Exhausted(Settling(s, s.reapers[r].entry))
    case ReaperRetry(r) => ReaperIn(s, r) && s.reapers[r].phase.Wrote?
    case ReaperCrash(r) => ReaperIn(s, r)
    case Move(_, _) => true
    case Requeue(_) => true
    case Expire(_) => true
    case Tick(dt) => 0.0 <= dt
  }

  function Fetch(s: System): System {
    var e := FirstLive(s.store.live, s.store.cursor, |s.store.issued|);
    s.(store := ReadOne(s.store, s.clock),
       workers := if e < |s.store.issued| then s.workers[e := Fetched] else s.workers)
  }

  function Finish(s: System, e: EntryId): System
    requires e < |s.store.issued|
  {
    var j := s.store.issued[e].id;
    s.(store := AckAndComplete(s.store, e, j), ending := s.ending[j := EndedCompleted])
  }

  function Bury(s: System, e: EntryId): System
    requires e < |s.store.issued|
  {
    var job := Settling(s, e).(state := Dead);
    s.(store := AckAndDead(s.store, e, job), ending := s.ending[job.id := EndedDead])
  }

  function Note(s: System, e: EntryId, runAt: real): System
    requires e < |s.store.issued|
  {
    s.(store := SetData(s.store, Rescheduled(Settling(s, e), runAt)))
  }

  function Postpone(s: System, e: EntryId, runAt: real): System
    requires e < |s.store.issued|
  {
    var job := Settling(s, e);
    s.(store := AckAndRetry(s.store, e, job.id, runAt, job.attempts))
  }

  function Claimed(s: System, r: nat, e: EntryId, minIdle: real): System {
    s.(store := Claim(s.store, e, s.clock, minIdle),
       reapers := if e in s.store.live then s.reapers[r := Handling(e, Running)] else s.reapers)
  }

  function DropWorker(s: System, e: EntryId): System {
    s.(workers := s.workers - {e})
  }

  function DropReaper(s: System, r: nat): System {
    s.(reapers := s.reapers - {r})
  }

  ghost function Step(c: Config, s: System, a: Action): System
    requires Enabled(c, s, a)
  {
    match a
    case Add(job) => s.(store := Enqueue(s.store, job), added := s.added + {job.id}, expired := s.expired - {job.id},
                        ending := s.ending - {job.id})
    case Read => Fetch(s)
    case Start(e) => s.(workers := s.workers[e := Running], invoked := s.invoked + multiset{s.store.issued[e].id})
    case Complete(e) => DropWorker(Finish(s, e), e)
    case Die(e) => DropWorker(Bury(s, e), e)
    case Write(e, now, random) =>
      var runAt := RunAt(Settling(s, e), now, random);
      Note(s, e, runAt).(workers := s.workers[e := Wrote(runAt)])
    case Retry(e) => DropWorker(Postpone(s, e, s.workers[e].runAt), e)
    case WriteRetry(e, now, random) =>
      var runAt := RunAt(Settling(s, e), now, random);
      DropWorker(Postpone(Note(s, e, runAt), e, runAt), e)
    case Crash(e) => DropWorker(s, e)
    case ReaperClaim(r, e) => Claimed(s, r, e, c.visibility)
    case ReaperDie(r) => DropReaper(Bury(s, s.reapers[r].entry), r)
    case ReaperWrite(r, now, random) =>
      var e := s.reapers[r].entry;
      var runAt := RunAt(Settling(s, e), now, random);
      Note(s, e, runAt).(reapers := s.reapers[r := Handling(e, Wrote(runAt))])
    case ReaperRetry(r) => DropReaper(Postpone(s, s.reapers[r].entry, s.reapers[r].phase.runAt), r)
    case ReaperWriteRetry(r, now, random) =>
      var e := s.reapers[r].entry;
      var runAt := RunAt(Settling(s, e), now, random);
      DropReaper(Postpone(Note(s, e, runAt), e, runAt), r)
    case ReaperCrash(r) => DropReaper(s, r)
    case Move(now, limit) => s.(store := MoveDelayed(s.store, now, limit))
    case Requeue(j) =>
      if HasData(s.store, j)
      then s.(store := JobStore.Requeue(s.store, j), ending := s.ending - {j})
      else s
    case Expire(j) => s.(store := JobStore.Expire(s.store, j), expired := s.expired + {j})
    case Tick(dt) => s.(clock := s.clock + dt)
  }

  /** A run from s to t through `acts`, each enabled where it is taken and admitted by `rule`. */
  ghost predicate Exec(c: Config, rule: (System, Action) -> bool, s: System, acts: seq<Action>, t: System)
    decreases |acts|
  {
    if acts == [] then s == t
    else Enabled(c, s, acts[0]) && rule(s, acts[0]) && Exec(c, rule, Step(c, s, acts[0]), acts[1..], t)
  }

  lemma ExecCons(c: Config, rule: (System, Action) -> bool, s: System, a: Action, rest: seq<Action>, t: System)
    requires Enabled(c, s, a) && rule(s, a) && Exec(c, rule, Step(c, s, a), rest, t)
    ensures Exec(c, rule, s, [a] + rest, t)
  {
    assert ([a] + rest)[1..] == rest;
  }

  lemma {:induction false} ExecConcat(c: Config, rule: (System, Action) -> bool, s: System, xs: seq<Action>, t: System,
                                      ys: seq<Action>, u: System)
    requires Exec(c, rule, s, xs, t) && Exec(c, rule, t, ys, u)
    ensures Exec(c, rule, s, xs + ys, u)
    decreases |xs|
  {
    if xs == [] {
      assert xs + ys == ys;
    } else {
      ExecConcat(c, rule, Step(c, s, xs[0]), xs[1..], t, ys, u);
      ExecCons(c, rule, s, xs[0], xs[1..] + ys, u);
      assert xs + ys == [xs[0]] + (xs[1..] + ys);
    }
  }

  lemma ExecSnoc(c: Config, rule: (System, Action) -> bool, s: System, acts: seq<Action>, t: System, a: Action)
    requires Exec(c, rule, s, acts, t) && Enabled(c, t, a) && rule(t, a)
    ensures Exec(c, rule, s, acts + [a], Step(c, t, a))
  {
    assert [a][1..] == [];
    ExecConcat(c, rule, s, acts, t, [a], Step(c, t, a));
  }

  /** What every step of a run keeps holds at its end. */
  lemma {:induction false} ExecKeeps(c: Config, rule: (System, Action) -> bool, inv: System -> bool,
                                     s: System, acts: seq<Action>, t: System)
    requires Exec(c, rule, s, acts, t) && inv(s)
    requires forall x, a | Enabled(c, x, a) && rule(x, a) && inv(x) :: inv(Step(c, x, a))
    ensures inv(t)
    decreases |acts|
  {
    if acts != [] {
      ExecKeeps(c, rule, inv, Step(c, s, acts[0]), acts[1..], t);
    }
  }

  /** A run under one rule is a run under another that it implies in every state the run goes through. */
  lemma {:induction false} ExecWeaken(c: Config, rule: (System, Action) -> bool, inv: System -> bool,
                                      wider: (System, Action) -> bool, s: System, acts: seq<Action>, t: System)
    requires Exec(c, rule, s, acts, t) && inv(s)
    requires forall x, a | Enabled(c, x, a) && rule(x, a) && inv(x) :: wider(x, a) && inv(Step(c, x, a))
    ensures Exec(c, wider, s, acts, t)
    decreases |acts|
  {
    if acts != [] {
      ExecWeaken(c, rule, inv, wider, Step(c, s, acts[0]), acts[1..], t);
    }
  }

  // The composite step of the atomic model is its two calls with nothing in between.
  lemma RetryIsTwoCalls(c: Config, s: System, e: EntryId, now: real, random: real)
    requires Enabled(c, s, WriteRetry(e, now, random))
    ensures Enabled(c, s, Write(e, now, random))
    ensures var mid := Step(c, s, Write(e, now, random));
            Enabled(c, mid, Retry(e)) && Step(c, mid, Retry(e)) == Step(c, s, WriteRetry(e, now, random))
  {
    var mid := Step(c, s, Write(e, now, random));
    assert mid.workers - {e} == s.workers - {e};
  }

  lemma ReaperRetryIsTwoCalls(c: Config, s: System, r: nat, now: real, random: real)
    requires Enabled(c, s, ReaperWriteRetry(r, now, random))
    ensures Enabled(c, s, ReaperWrite(r, now, random))
    ensures var mid := Step(c, s, ReaperWrite(r, now, random));
            Enabled(c, mid, ReaperRetry(r))
                && Step(c, mid, ReaperRetry(r)) == Step(c, s, ReaperWriteRetry(r, now, random))
  {
    var mid := Step(c, s, ReaperWrite(r, now, random));
    assert mid.reapers - {r} == s.reapers - {r};
  }
}
