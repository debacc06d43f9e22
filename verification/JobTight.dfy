/** The bound of JobBound is attained. */
module JobTight {
  // For any number of reapers, any attempt limit and any sane backoff, some run in which every clock agrees invokes the
  // handler exactly as often as the bound allows. "At most n runs" is therefore true of the queue exactly when there is
  // no reaper or the limit is one or less. The run handles entries in stream order: a worker starts the entry, every
  // reaper claims it, and then worker and reapers each retry it, each retry promoted at once.

  import opened Wrappers
  import opened JobStore
  import opened JobProtocol
  import opened JobBound
  import Backoff

  ghost predicate Synced(s: System, a: Action) {
    match a
    case Write(_, now, _) => now == s.clock
    case WriteRetry(_, now, _) => now == s.clock
    case ReaperWrite(_, now, _) => now == s.clock
    case ReaperWriteRetry(_, now, _) => now == s.clock
    case Move(now, _) => now == s.clock
    case _ => true
  }

  // The runs looked for: one clock, the job added once, retries atomic.
  ghost predicate Fair(j: JobId, max: int, s: System, a: Action) {
    OnceAtomic(j, max, s, a) && Synced(s, a)
  }

  ghost predicate Runs(c: Config, j: JobId, max: int, s: System, acts: seq<Action>, t: System) {
    Exec(c, (x, a) => Fair(j, max, x, a), s, acts, t)
  }

  lemma RunsOne(c: Config, j: JobId, max: int, s: System, a: Action)
    requires Enabled(c, s, a) && Fair(j, max, s, a)
    ensures Runs(c, j, max, s, [a], Step(c, s, a))
  {
    assert Exec(c, (x, b) => Fair(j, max, x, b), Step(c, s, a), [], Step(c, s, a));
    assert [a][1..] == [];
  }

  lemma RunsThen(c: Config, j: JobId, max: int, s: System, xs: seq<Action>, t: System, ys: seq<Action>, u: System)
    requires Runs(c, j, max, s, xs, t) && Runs(c, j, max, t, ys, u)
    ensures Runs(c, j, max, s, xs + ys, u)
  {
    ExecConcat(c, (x, a) => Fair(j, max, x, a), s, xs, t, ys, u);
  }

  lemma Then(c: Config, j: JobId, max: int, s: System, xs: seq<Action>, t: System, a: Action)
    requires Runs(c, j, max, s, xs, t) && Enabled(c, t, a) && Fair(j, max, t, a)
    ensures Runs(c, j, max, s, xs + [a], Step(c, t, a))
  {
    RunsOne(c, j, max, t, a);
    RunsThen(c, j, max, s, xs, t, [a], Step(c, t, a));
  }

  ghost predicate Carries(job: Job, j: JobId, max: int, a: nat) {
    job.id == j && job.maxAttempts == max && job.attempts == a < AtLeastOne(max) && Backoff.Sane(job.backoff)
  }

  // An entry still to be delivered, carrying attempt count a.
  ghost predicate Waits(s: System, j: JobId, max: int, e: EntryId, a: nat) {
    e < |s.store.issued| && e in s.store.live && Carries(s.store.issued[e], j, max, a)
  }

  // The undelivered entries are all job j's, with the attempt counts of `backlog` in order.
  ghost predicate Queued(s: System, j: JobId, max: int, backlog: seq<nat>) {
    && HasData(s.store, j) && s.store.hashes[j].data.value.id == j
    && (forall e | e in s.workers :: e < s.store.cursor)
    && |s.store.issued| == s.store.cursor + |backlog|
    && forall i | 0 <= i < |backlog| :: Waits(s, j, max, s.store.cursor + i, backlog[i])
  }

  // And nothing is delayed.
  ghost predicate Stocked(s: System, j: JobId, max: int, backlog: seq<nat>) {
    Queued(s, j, max, backlog) && s.store.delayed == map[]
  }

  // And the job alone is delayed, carrying attempt count a.
  ghost predicate Postponed(s: System, j: JobId, max: int, backlog: seq<nat>, a: nat) {
    && Queued(s, j, max, backlog) && s.store.delayed.Keys == {j} && s.store.delayed[j] >= s.clock
    && Carries(s.store.hashes[j].data.value, j, max, a)
  }

  // Entry e has been delivered and carries attempt count a.
  ghost predicate Delivered(s: System, j: JobId, max: int, a: nat, e: EntryId) {
    e < s.store.cursor <= |s.store.issued| && Carries(s.store.issued[e], j, max, a)
  }

  ghost predicate Running(s: System, e: EntryId) {
    e in s.workers && s.workers[e] == Phase.Running
  }

  ghost predicate Claimable(s: System, e: EntryId) {
    e in s.store.live && e in s.store.pel && s.store.pel[e] <= s.clock
  }

  // The stream has at most grown at its end, and no handler has run.
  ghost predicate Grows(s: System, t: System) {
    s.store.issued <= t.store.issued && t.store.cursor == s.store.cursor && t.invoked == s.invoked
  }

  // ---- delivery ----

  lemma QueuedRest(s: System, t: System, j: JobId, max: int, backlog: seq<nat>)
    requires Queued(s, j, max, backlog) && backlog != []
    requires t.store == s.store.(cursor := s.store.cursor + 1, pel := t.store.pel)
    requires forall e | e in t.workers :: e <= s.store.cursor
    ensures Queued(t, j, max, backlog[1..])
  {
    forall i | 0 <= i < |backlog| - 1 ensures Waits(t, j, max, t.store.cursor + i, backlog[1..][i]) {
      assert Waits(s, j, max, s.store.cursor + (i + 1), backlog[i + 1]);
    }
  }

  lemma Deliver(c: Config, j: JobId, max: int, s: System, backlog: seq<nat>) returns (acts: seq<Action>, t: System)
    requires Stocked(s, j, max, backlog) && backlog != []
    ensures Runs(c, j, max, s, acts, t) && Stocked(t, j, max, backlog[1..])
    ensures Delivered(t, j, max, backlog[0], s.store.cursor) && Running(t, s.store.cursor)
    ensures Claimable(t, s.store.cursor)
    ensures t.reapers == s.reapers && t.invoked[j] == s.invoked[j] + 1
  {
    var e := s.store.cursor;
    assert Waits(s, j, max, e + 0, backlog[0]);
    assert FirstLive(s.store.live, e, |s.store.issued|) == e;
    var s1 := Step(c, s, Read);
    RunsOne(c, j, max, s, Read);
    Then(c, j, max, s, [Read], s1, Start(e));
    acts, t := [Read] + [Start(e)], Step(c, s1, Start(e));
    QueuedRest(s, t, j, max, backlog);
  }

  // ---- claims ----

  // Reapers 0..k-1 have claimed entry e.
  ghost function Holding(e: EntryId, k: nat): (held: map<nat, Handling>)
    ensures forall r :: r in held ==> r < k
  {
    if k == 0 then map[] else Holding(e, k - 1)[k - 1 := Handling(e, Phase.Running)]
  }

  // Everybody waits for the visibility timeout, and reaper k claims.
  lemma ClaimNext(c: Config, j: JobId, max: int, s: System, e: EntryId, k: nat) returns (acts: seq<Action>, t: System)
    requires k < c.reapers && s.reapers == Holding(e, k) && Claimable(s, e)
    ensures Runs(c, j, max, s, acts, t) && t.reapers == Holding(e, k + 1) && Claimable(t, e)
    ensures t.store == s.store.(pel := t.store.pel) && t.workers == s.workers && t.invoked == s.invoked
  {
    var wait := Tick(if c.visibility < 0.0 then 0.0 else c.visibility);
    var s1 := Step(c, s, wait);
    RunsOne(c, j, max, s, wait);
    Then(c, j, max, s, [wait], s1, ReaperClaim(k, e));
    acts, t := [wait] + [ReaperClaim(k, e)], Step(c, s1, ReaperClaim(k, e));
  }

  lemma {:induction false} ClaimAll(c: Config, j: JobId, max: int, s: System, e: EntryId, k: nat)
    returns (acts: seq<Action>, t: System)
    requires k <= c.reapers && s.reapers == map[] && Claimable(s, e)
    ensures Runs(c, j, max, s, acts, t) && t.reapers == Holding(e, k) && Claimable(t, e)
    ensures t.store == s.store.(pel := t.store.pel) && t.workers == s.workers && t.invoked == s.invoked
    decreases k
  {
    if k == 0 {
      acts, t := [], s;
      assert Holding(e, 0) == map[];
    } else {
      var xs, mid := ClaimAll(c, j, max, s, e, k - 1);
      var ys: seq<Action>;
      ys, t := ClaimNext(c, j, max, mid, e, k - 1);
      RunsThen(c, j, max, s, xs, mid, ys, t);
      acts := xs + ys;
    }
  }

  lemma StockedSame(s: System, t: System, j: JobId, max: int, backlog: seq<nat>)
    requires Stocked(s, j, max, backlog) && t.store == s.store.(pel := t.store.pel) && t.workers == s.workers
    ensures Stocked(t, j, max, backlog)
  {
    forall i | 0 <= i < |backlog| ensures Waits(t, j, max, t.store.cursor + i, backlog[i]) {
      assert Waits(s, j, max, s.store.cursor + i, backlog[i]);
    }
  }

  // ---- retries ----

  lemma RunAtLater(job: Job, now: real)
    requires Backoff.Sane(job.backoff)
    ensures RunAt(job, now, 0.0) >= now
  {
    var n: nat := if job.attempts < 1 then 1 else job.attempts;
    Backoff.GrownWithinCap(n, job.backoff);
  }

  // What a retry of entry e at this moment leaves in the store.
  lemma PostponedBy(s: System, t: System, j: JobId, max: int, backlog: seq<nat>, a: nat, e: EntryId, runAt: real)
    requires Stocked(s, j, max, backlog) && Delivered(s, j, max, a, e) && a + 1 < max && runAt >= s.clock
    requires t.store == Postpone(Note(s, e, runAt), e, runAt).store && t.clock == s.clock
    requires forall f | f in t.workers :: f in s.workers
    ensures Postponed(t, j, max, backlog, a + 1)
  {
    forall i | 0 <= i < |backlog| ensures Waits(t, j, max, t.store.cursor + i, backlog[i]) {
      assert Waits(s, j, max, s.store.cursor + i, backlog[i]);
    }
  }

  // Moving the one due member promotes it.
  lemma SoleMove(st: Store, j: JobId, now: real)
    requires st.delayed.Keys == {j} && st.delayed[j] <= now
    ensures MoveDelayed(st, now, 1) == Promote(st, j)
  {
    var js := [j];
    assert Due(st.delayed, now, 1) == js by {
      assert Least(st.delayed) == j;
      assert Due(st.delayed - {j}, now, 0) == [];
    }
    assert js[..|js| - 1] == [];
    assert PromoteAll(st, []) == st;
    assert PromoteAll(st, js) == Promote(st, j);
  }

  lemma QueuedMore(s: System, t: System, j: JobId, max: int, backlog: seq<nat>, a: nat)
    requires Postponed(s, j, max, backlog, a) && t.store == Promote(s.store, j) && t.workers == s.workers
    ensures Stocked(t, j, max, backlog + [a])
  {
    var more := backlog + [a];
    forall i | 0 <= i < |more| ensures Waits(t, j, max, t.store.cursor + i, more[i]) {
      if i < |backlog| { assert Waits(s, j, max, s.store.cursor + i, backlog[i]); }
    }
  }

  lemma Awake(c: Config, j: JobId, max: int, s: System, backlog: seq<nat>, a: nat)
    returns (acts: seq<Action>, t: System)
    requires Postponed(s, j, max, backlog, a)
    ensures Runs(c, j, max, s, acts, t) && Stocked(t, j, max, backlog + [a]) && Grows(s, t)
    ensures t.workers == s.workers && t.reapers == s.reapers
  {
    var wait := s.store.delayed[j] - s.clock;
    var s1 := Step(c, s, Tick(wait));
    RunsOne(c, j, max, s, Tick(wait));
    Then(c, j, max, s, [Tick(wait)], s1, Move(s1.clock, 1));
    acts, t := [Tick(wait)] + [Move(s1.clock, 1)], Step(c, s1, Move(s1.clock, 1));
    SoleMove(s1.store, j, s1.clock);
    QueuedMore(s, t, j, max, backlog, a);
  }

  lemma RetryByWorker(c: Config, j: JobId, max: int, s: System, backlog: seq<nat>, a: nat, e: EntryId)
    returns (acts: seq<Action>, t: System)
    requires Stocked(s, j, max, backlog) && Delivered(s, j, max, a, e) && Running(s, e) && a + 1 < max
    ensures Runs(c, j, max, s, acts, t) && Stocked(t, j, max, backlog + [a + 1]) && Grows(s, t)
    ensures t.reapers == s.reapers
  {
    var retry := WriteRetry(e, s.clock, 0.0);
    var mid := Step(c, s, retry);
    RunAtLater(Settling(s, e), s.clock);
    PostponedBy(s, mid, j, max, backlog, a, e, RunAt(Settling(s, e), s.clock, 0.0));
    RunsOne(c, j, max, s, retry);
    var xs: seq<Action>;
    xs, t := Awake(c, j, max, mid, backlog, a + 1);
    RunsThen(c, j, max, s, [retry], mid, xs, t);
    acts := [retry] + xs;
  }

  lemma RetryByReaper(c: Config, j: JobId, max: int, s: System, backlog: seq<nat>, a: nat, e: EntryId, r: nat)
    returns (acts: seq<Action>, t: System)
    requires Stocked(s, j, max, backlog) && Delivered(s, j, max, a, e) && a + 1 < max
    requires r in s.reapers && s.reapers[r] == Handling(e, Phase.Running)
    ensures Runs(c, j, max, s, acts, t) && Stocked(t, j, max, backlog + [a + 1]) && Grows(s, t)
    ensures t.reapers == s.reapers - {r}
  {
    var retry := ReaperWriteRetry(r, s.clock, 0.0);
    var mid := Step(c, s, retry);
    RunAtLater(Settling(s, e), s.clock);
    PostponedBy(s, mid, j, max, backlog, a, e, RunAt(Settling(s, e), s.clock, 0.0));
    RunsOne(c, j, max, s, retry);
    var xs: seq<Action>;
    xs, t := Awake(c, j, max, mid, backlog, a + 1);
    RunsThen(c, j, max, s, [retry], mid, xs, t);
    acts := [retry] + xs;
  }

  ghost function Copies(a: nat, n: nat): seq<nat> {
    if n == 0 then [] else [a] + Copies(a, n - 1)
  }

  lemma {:induction false} RetryAll(c: Config, j: JobId, max: int, s: System, backlog: seq<nat>, a: nat, e: EntryId,
                                    k: nat)
    returns (acts: seq<Action>, t: System)
    requires Stocked(s, j, max, backlog) && Delivered(s, j, max, a, e) && a + 1 < max && s.reapers == Holding(e, k)
    ensures Runs(c, j, max, s, acts, t) && Stocked(t, j, max, backlog + Copies(a + 1, k)) && Grows(s, t)
    ensures t.reapers == map[]
    decreases k
  {
    if k == 0 {
      acts, t := [], s;
      assert backlog + [] == backlog;
    } else {
      var xs, mid := RetryByReaper(c, j, max, s, backlog, a, e, k - 1);
      assert mid.reapers == Holding(e, k - 1);
      var ys: seq<Action>;
      ys, t := RetryAll(c, j, max, mid, backlog + [a + 1], a, e, k - 1);
      RunsThen(c, j, max, s, xs, mid, ys, t);
      acts := xs + ys;
      assert backlog + [a + 1] + Copies(a + 1, k - 1) == backlog + ([a + 1] + Copies(a + 1, k - 1));
    }
  }

  // ---- one entry ----

  // A worker runs the first entry, and every reaper claims it.
  lemma HandOut(c: Config, j: JobId, max: int, s: System, backlog: seq<nat>) returns (acts: seq<Action>, t: System)
    requires Stocked(s, j, max, backlog) && s.reapers == map[] && backlog != []
    ensures Runs(c, j, max, s, acts, t) && Stocked(t, j, max, backlog[1..])
    ensures Delivered(t, j, max, backlog[0], s.store.cursor) && Running(t, s.store.cursor)
    ensures t.reapers == Holding(s.store.cursor, c.reapers) && t.invoked[j] == s.invoked[j] + 1
  {
    var xs, mid := Deliver(c, j, max, s, backlog);
    var ys: seq<Action>;
    ys, t := ClaimAll(c, j, max, mid, s.store.cursor, c.reapers);
    RunsThen(c, j, max, s, xs, mid, ys, t);
    acts := xs + ys;
    StockedSame(mid, t, j, max, backlog[1..]);
  }

  // Then the worker and every reaper retry it.
  lemma TakeBack(c: Config, j: JobId, max: int, s: System, backlog: seq<nat>, a: nat, e: EntryId)
    returns (acts: seq<Action>, t: System)
    requires Stocked(s, j, max, backlog) && Delivered(s, j, max, a, e) && Running(s, e) && a + 1 < max
    requires s.reapers == Holding(e, c.reapers)
    ensures Runs(c, j, max, s, acts, t) && Stocked(t, j, max, backlog + Copies(a + 1, 1 + c.reapers))
    ensures t.reapers == map[] && t.invoked == s.invoked
  {
    var xs, mid := RetryByWorker(c, j, max, s, backlog, a, e);
    var ys: seq<Action>;
    ys, t := RetryAll(c, j, max, mid, backlog + [a + 1], a, e, c.reapers);
    RunsThen(c, j, max, s, xs, mid, ys, t);
    acts := xs + ys;
    assert backlog + [a + 1] + Copies(a + 1, c.reapers) == backlog + ([a + 1] + Copies(a + 1, c.reapers));
  }

  // An entry with attempts left costs one run and comes back once for its worker and once for each reaper.
  lemma Branch(c: Config, j: JobId, max: int, s: System, backlog: seq<nat>) returns (acts: seq<Action>, t: System)
    requires Stocked(s, j, max, backlog) && s.reapers == map[] && backlog != [] && backlog[0] + 1 < max
    ensures Runs(c, j, max, s, acts, t)
    ensures Stocked(t, j, max, backlog[1..] + Copies(backlog[0] + 1, 1 + c.reapers)) && t.reapers == map[]
    ensures t.invoked[j] == s.invoked[j] + 1
  {
    var xs, mid := HandOut(c, j, max, s, backlog);
    var ys: seq<Action>;
    ys, t := TakeBack(c, j, max, mid, backlog[1..], backlog[0], s.store.cursor);
    RunsThen(c, j, max, s, xs, mid, ys, t);
    acts := xs + ys;
  }

  // One without costs a run and is dead-lettered.
  lemma LastRun(c: Config, j: JobId, max: int, s: System, backlog: seq<nat>) returns (acts: seq<Action>, t: System)
    requires Stocked(s, j, max, backlog) && s.reapers == map[] && backlog != [] && backlog[0] + 1 >= max
    ensures Runs(c, j, max, s, acts, t) && Stocked(t, j, max, backlog[1..]) && t.reapers == map[]
    ensures t.invoked[j] == s.invoked[j] + 1
  {
    var e, rest := s.store.cursor, backlog[1..];
    var xs, mid := Deliver(c, j, max, s, backlog);
    Then(c, j, max, s, xs, mid, Die(e));
    acts, t := xs + [Die(e)], Step(c, mid, Die(e));
    forall i | 0 <= i < |rest| ensures Waits(t, j, max, t.store.cursor + i, rest[i]) {
      assert Waits(mid, j, max, mid.store.cursor + i, rest[i]);
    }
  }

  // ---- the whole backlog ----

  // The runs a backlog is worth.
  ghost function Load(r: nat, n: nat, backlog: seq<nat>): nat {
    if backlog == [] then 0
    else (if backlog[0] < n then Geometric(1 + r, n - backlog[0]) else 0) + Load(r, n, backlog[1..])
  }

  lemma {:induction false} LoadConcat(r: nat, n: nat, xs: seq<nat>, ys: seq<nat>)
    ensures Load(r, n, xs + ys) == Load(r, n, xs) + Load(r, n, ys)
    decreases |xs|
  {
    if xs == [] {
      assert xs + ys == ys;
    } else {
      assert (xs + ys)[1..] == xs[1..] + ys;
      LoadConcat(r, n, xs[1..], ys);
    }
  }

  lemma {:induction false} LoadCopies(r: nat, n: nat, a: nat, k: nat)
    requires a < n
    ensures Load(r, n, Copies(a, k)) == k * Geometric(1 + r, n - a)
  {
    if k > 0 {
      assert Copies(a, k)[1..] == Copies(a, k - 1);
      LoadCopies(r, n, a, k - 1);
      assert k * Geometric(1 + r, n - a) == Geometric(1 + r, n - a) + (k - 1) * Geometric(1 + r, n - a);
    }
  }

  lemma LoadBranches(r: nat, n: nat, backlog: seq<nat>)
    requires backlog != [] && backlog[0] + 1 < n
    ensures Load(r, n, backlog) == 1 + Load(r, n, backlog[1..] + Copies(backlog[0] + 1, 1 + r))
  {
    LoadConcat(r, n, backlog[1..], Copies(backlog[0] + 1, 1 + r));
    LoadCopies(r, n, backlog[0] + 1, 1 + r);
  }

  lemma LoadLast(r: nat, n: nat, backlog: seq<nat>)
    requires backlog != [] && backlog[0] + 1 == n
    ensures Load(r, n, backlog) == 1 + Load(r, n, backlog[1..])
  {
    assert Geometric(1 + r, 1) == 1 + (1 + r) * Geometric(1 + r, 0);
  }

  lemma {:induction false} Exhaust(c: Config, j: JobId, max: int, s: System, backlog: seq<nat>)
    returns (acts: seq<Action>, t: System)
    requires Stocked(s, j, max, backlog) && s.reapers == map[]
    ensures Runs(c, j, max, s, acts, t)
    ensures t.invoked[j] == s.invoked[j] + Load(c.reapers, AtLeastOne(max), backlog)
    decreases Load(c.reapers, AtLeastOne(max), backlog)
  {
    if backlog == [] {
      acts, t := [], s;
    } else {
      assert Waits(s, j, max, s.store.cursor + 0, backlog[0]);
      var xs: seq<Action>, mid: System, rest: seq<nat>;
      if backlog[0] + 1 < max {
        rest := backlog[1..] + Copies(backlog[0] + 1, 1 + c.reapers);
        LoadBranches(c.reapers, AtLeastOne(max), backlog);
        xs, mid := Branch(c, j, max, s, backlog);
      } else {
        rest := backlog[1..];
        LoadLast(c.reapers, AtLeastOne(max), backlog);
        xs, mid := LastRun(c, j, max, s, backlog);
      }
      var ys: seq<Action>;
      ys, t := Exhaust(c, j, max, mid, rest);
      RunsThen(c, j, max, s, xs, mid, ys, t);
      acts := xs + ys;
    }
  }

  lemma FirstStocked(c: Config, j: JobId, max: int, backoff: Backoff.Options, s: System)
    requires Backoff.Sane(backoff) && IsNew(NewJob(j, max, backoff, None, 0.0))
    requires s == Step(c, INIT, Add(NewJob(j, max, backoff, None, 0.0)))
    ensures Stocked(s, j, max, [0]) && s.reapers == map[] && s.invoked[j] == 0
  {
    assert Waits(s, j, max, 0, 0);
  }

  lemma WorstRun(c: Config, j: JobId, max: int, backoff: Backoff.Options) returns (acts: seq<Action>, t: System)
    requires Backoff.Sane(backoff)
    ensures Runs(c, j, max, INIT, acts, t)
    ensures t.invoked[j] == Geometric(1 + c.reapers, AtLeastOne(max))
    ensures c.reapers == 1 ==> t.invoked[j] == Power(2, AtLeastOne(max)) - 1
  {
    var job := NewJob(j, max, backoff, None, 0.0);
    assert IsNew(job);
    var s := Step(c, INIT, Add(job));
    RunsOne(c, j, max, INIT, Add(job));
    FirstStocked(c, j, max, backoff, s);
    var xs: seq<Action>;
    xs, t := Exhaust(c, j, max, s, [0]);
    RunsThen(c, j, max, INIT, [Add(job)], s, xs, t);
    acts := [Add(job)] + xs;
    assert Load(c.reapers, AtLeastOne(max), [0][1..]) == 0;
    GeometricOfTwo(AtLeastOne(max));
  }

  /** For every number of reapers and every attempt limit the bound is met with equality by a run of one job under one
      clock. */
  lemma BoundAttained(c: Config, j: JobId, max: int, backoff: Backoff.Options)
    requires Backoff.Sane(backoff)
    ensures exists acts, t ::
              Runs(c, j, max, INIT, acts, t) && t.invoked[j] == Geometric(1 + c.reapers, AtLeastOne(max))
  {
    var acts, t := WorstRun(c, j, max, backoff);
  }

  // ---- when the attempt limit is kept ----

  lemma {:induction false} GeometricExceeds(q: nat, n: nat)
    requires q >= 2
    ensures Geometric(q, n) >= n && (n >= 2 ==> Geometric(q, n) > n)
  {
    if n > 0 {
      GeometricExceeds(q, n - 1);
      AtLeastTwice(q, Geometric(q, n - 1));
    }
  }

  lemma AtLeastTwice(q: nat, x: nat)
    requires q >= 2
    ensures q * x >= 2 * x
  {
  }

  // Some run in which the job is added once and its retries are atomic ends in t.
  ghost predicate Reaches(c: Config, j: JobId, max: int, t: System) {
    exists acts :: RunsOnce(c, j, max, acts, t)
  }

  ghost predicate RunsOnce(c: Config, j: JobId, max: int, acts: seq<Action>, t: System) {
    Exec(c, (x, a) => OnceAtomic(j, max, x, a), INIT, acts, t)
  }

  lemma FairReaches(c: Config, j: JobId, max: int, acts: seq<Action>, t: System)
    requires Runs(c, j, max, INIT, acts, t)
    ensures Reaches(c, j, max, t)
  {
    ExecWeaken(c, (x, a) => Fair(j, max, x, a), x => true, (x, a) => OnceAtomic(j, max, x, a), INIT, acts, t);
    assert RunsOnce(c, j, max, acts, t);
  }

  /** A job's handler never runs more often than its attempt limit allows (or once, where the limit is below one) if and
      only if there is no reaper or the limit is at most one. */
  lemma LimitHoldsIff(c: Config, j: JobId, max: int)
    ensures (forall t | Reaches(c, j, max, t) :: t.invoked[j] <= AtLeastOne(max)) <==> c.reapers == 0 || max <= 1
  {
    if c.reapers == 0 || max <= 1 {
      forall t | Reaches(c, j, max, t) ensures t.invoked[j] <= AtLeastOne(max) {
        var acts :| RunsOnce(c, j, max, acts, t);
        BoundedWork(c, max, j, acts, t);
        GeometricOfOne(AtLeastOne(max));
        assert Geometric(1 + c.reapers, 1) == 1 + (1 + c.reapers) * Geometric(1 + c.reapers, 0);
      }
    } else {
      var acts, t := WorstRun(c, j, max, Backoff.Options(Backoff.Fixed, 0.0, None, None));
      FairReaches(c, j, max, acts, t);
      GeometricExceeds(1 + c.reapers, max);
    }
  }
}
