/** How often one job's handler can run. */
module JobBound {
  // A slow worker and every reaper can each settle the same entry, so the attempt limit does not bound the invocations;
  // a weight on everything that can still lead to one does.

  import opened JobStore
  import opened JobProtocol

  // ---- weights ----

  // What an outcome carrying b attempts can still cost when r reapers run and max attempts are allowed.
  ghost function Outcome(r: nat, max: int, b: nat): nat
    decreases max - b
  {
    if b >= max then 0 else 1 + (1 + r) * Outcome(r, max, b + 1)
  }

  // What an entry carrying a attempts can cost: its own run, then one outcome by its worker and one by each reaper.
  ghost function Total(r: nat, max: int, a: nat): nat {
    1 + (1 + r) * Outcome(r, max, a + 1)
  }

  ghost function Geometric(q: nat, n: nat): nat {
    if n == 0 then 0 else 1 + q * Geometric(q, n - 1)
  }

  ghost function Power(q: nat, n: nat): nat {
    if n == 0 then 1 else q * Power(q, n - 1)
  }

  ghost function AtLeastOne(max: int): nat {
    if max < 1 then 1 else max
  }

  lemma {:induction false} OutcomeIsGeometric(r: nat, max: int, b: nat)
    requires b <= max
    ensures Outcome(r, max, b) == Geometric(1 + r, max - b)
    decreases max - b
  {
    if b < max {
      OutcomeIsGeometric(r, max, b + 1);
    }
  }

  lemma TotalIsGeometric(r: nat, max: int)
    ensures Total(r, max, 0) == Geometric(1 + r, AtLeastOne(max))
  {
    if max >= 1 {
      OutcomeIsGeometric(r, max, 1);
    } else {
      assert Outcome(r, max, 1) == 0;
      assert Geometric(1 + r, 1) == 1 + (1 + r) * Geometric(1 + r, 0);
    }
  }

  lemma {:induction false} GeometricOfTwo(n: nat)
    ensures Geometric(2, n) == Power(2, n) - 1
  {
    if n > 0 {
      GeometricOfTwo(n - 1);
    }
  }

  lemma {:induction false} GeometricOfOne(n: nat)
    ensures Geometric(1, n) == n
  {
    if n > 0 {
      GeometricOfOne(n - 1);
    }
  }

  // ---- the weight of a state ----

  ghost function Holders(s: System, i: EntryId): set<nat> {
    set r | r in s.reapers && s.reapers[r].entry == i
  }

  // Reapers that can still settle entry i: any of them while it exists, those already holding it afterwards.
  ghost function Reapings(c: Config, s: System, i: EntryId): nat {
    if i in s.store.live then c.reapers else |Holders(s, i)|
  }

  ghost function WorkerWeight(s: System, i: EntryId, outcome: nat): nat {
    if i in s.store.live && s.store.cursor <= i then 1 + outcome
    else if i in s.workers then (if s.workers[i] == Fetched then 1 + outcome else outcome)
    else 0
  }

  ghost function Weight(c: Config, max: int, s: System, j: JobId, i: EntryId): nat
    requires i < |s.store.issued|
  {
    if s.store.issued[i].id != j then 0
    else
      var o := Outcome(c.reapers, max, s.store.issued[i].attempts + 1);
      Reapings(c, s, i) * o + WorkerWeight(s, i, o)
  }

  ghost function Weights(c: Config, max: int, s: System, j: JobId, n: nat): nat
    requires n <= |s.store.issued|
  {
    if n == 0 then 0 else Weights(c, max, s, j, n - 1) + Weight(c, max, s, j, n - 1)
  }

  ghost function DelayedWeight(c: Config, max: int, s: System, j: JobId): nat {
    if j in s.store.delayed && HasData(s.store, j)
    then Total(c.reapers, max, s.store.hashes[j].data.value.attempts)
    else 0
  }

  ghost function Potential(c: Config, max: int, s: System, j: JobId): nat {
    Weights(c, max, s, j, |s.store.issued|) + DelayedWeight(c, max, s, j)
  }

  lemma {:induction false} WeightsDrop(c: Config, max: int, s: System, s1: System, j: JobId, n: nat, i: nat, drop: nat)
    requires n <= |s.store.issued| && n <= |s1.store.issued|
    requires forall k | 0 <= k < n && k != i :: Weight(c, max, s1, j, k) <= Weight(c, max, s, j, k)
    requires i < n ==> Weight(c, max, s1, j, i) + drop <= Weight(c, max, s, j, i)
    ensures Weights(c, max, s1, j, n) + (if i < n then drop else 0) <= Weights(c, max, s, j, n)
  {
    if n > 0 {
      WeightsDrop(c, max, s, s1, j, n - 1, i, drop);
    }
  }

  // ---- the invariant ----

  ghost predicate Shape(c: Config, s: System) {
    && s.store.cursor <= |s.store.issued|
    && (forall e | e in s.store.live :: e < |s.store.issued|)
    && (forall e | e in s.workers :: e < s.store.cursor && !s.workers[e].Wrote?)
    && (forall r | r in s.reapers ::
        r < c.reapers && s.reapers[r].entry < |s.store.issued| && !s.reapers[r].phase.Wrote?)
    && (forall k | HasData(s.store, k) :: s.store.hashes[k].data.value.id == k)
  }

  ghost predicate Limit(max: int, s: System, j: JobId) {
    && (forall i | 0 <= i < |s.store.issued| && s.store.issued[i].id == j :: s.store.issued[i].maxAttempts == max)
    && (HasData(s.store, j) ==> s.store.hashes[j].data.value.maxAttempts == max)
  }

  ghost predicate Untouched(s: System, j: JobId) {
    && (forall i | 0 <= i < |s.store.issued| :: s.store.issued[i].id != j)
    && j !in s.store.delayed && !HasData(s.store, j) && s.invoked[j] == 0
  }

  ghost predicate Bounded(c: Config, max: int, s: System, j: JobId) {
    && Shape(c, s) && Limit(max, s, j)
    && (j !in s.added ==> Untouched(s, j))
    && s.invoked[j] + Potential(c, max, s, j) <= (if j in s.added then Total(c.reapers, max, 0) else 0)
  }

  /** Runs in which job j is added at most once, with attempt limit max, is never requeued, and every retry outcome
      (its HSET and its script) is one step. */
  ghost predicate OnceAtomic(j: JobId, max: int, s: System, a: Action) {
    && !a.Write? && !a.ReaperWrite?
    && (a.Add? && a.job.id == j ==> j !in s.added && a.job.maxAttempts == max)
    && a != Action.Requeue(j)
  }

  // Every step that leaves the potential and invocation count of j no larger in total.
  ghost predicate Follows(c: Config, max: int, s: System, s1: System, j: JobId) {
    && Shape(c, s1) && Limit(max, s1, j)
    && (j !in s1.added ==> Untouched(s1, j))
    && s1.added == s.added
    && s1.invoked[j] + Potential(c, max, s1, j) <= s.invoked[j] + Potential(c, max, s, j)
  }

  lemma HoldersBelow(c: Config, s: System, i: EntryId)
    requires Shape(c, s)
    ensures |Holders(s, i)| <= c.reapers
  {
    BelowCount(Holders(s, i), c.reapers);
  }

  lemma {:induction false} BelowCount(x: set<nat>, n: nat)
    requires forall r | r in x :: r < n
    ensures |x| <= n
  {
    if n > 0 {
      BelowCount(x - {n - 1}, n - 1);
    } else {
      assert x == {};
    }
  }

  lemma TimesMonotone(a: nat, b: nat, o: nat)
    requires a <= b
    ensures a * o <= b * o
  {
  }

  // The same store and the same reapers: only the worker of i moved.
  lemma WorkerMoves(c: Config, max: int, s: System, s1: System, j: JobId, i: EntryId, drop: nat)
    requires i < |s.store.issued|
    requires s1.store == s.store && s1.reapers == s.reapers
    requires forall k | k != i ::
        (k in s.workers <==> k in s1.workers) && (k in s.workers ==> s.workers[k] == s1.workers[k])
    requires forall o: nat :: s.store.issued[i].id == j ==> WorkerWeight(s1, i, o) + drop <= WorkerWeight(s, i, o)
    requires s.store.issued[i].id != j ==> drop == 0
    ensures Potential(c, max, s1, j) + drop <= Potential(c, max, s, j)
  {
    forall k | 0 <= k < |s.store.issued|
      ensures Weight(c, max, s1, j, k) + (if k == i then drop else 0) <= Weight(c, max, s, j, k)
    {
      assert Holders(s1, k) == Holders(s, k);
      var o := Outcome(c.reapers, max, s.store.issued[k].attempts + 1);
      if k != i { assert WorkerWeight(s1, k, o) == WorkerWeight(s, k, o); }
    }
    WeightsDrop(c, max, s, s1, j, |s.store.issued|, i, drop);
  }

  lemma BoundedStart(c: Config, max: int, s: System, j: JobId, e: EntryId)
    requires Bounded(c, max, s, j) && Enabled(c, s, Start(e))
    ensures Follows(c, max, s, Step(c, s, Start(e)), j)
  {
    WorkerMoves(c, max, s, Step(c, s, Start(e)), j, e, if s.store.issued[e].id == j then 1 else 0);
  }

  lemma BoundedCrash(c: Config, max: int, s: System, j: JobId, e: EntryId)
    requires Bounded(c, max, s, j) && Enabled(c, s, Crash(e))
    ensures Follows(c, max, s, Step(c, s, Crash(e)), j)
  {
    WorkerMoves(c, max, s, Step(c, s, Crash(e)), j, e, 0);
  }

  lemma BoundedReaperCrash(c: Config, max: int, s: System, j: JobId, r: nat)
    requires Bounded(c, max, s, j) && Enabled(c, s, ReaperCrash(r))
    ensures Follows(c, max, s, Step(c, s, ReaperCrash(r)), j)
  {
    var s1 := Step(c, s, ReaperCrash(r));
    forall k | 0 <= k < |s.store.issued| ensures Weight(c, max, s1, j, k) <= Weight(c, max, s, j, k) {
      assert Holders(s1, k) == Holders(s, k) - {r};
      HoldersBelow(c, s, k);
      TimesMonotone(Reapings(c, s1, k), Reapings(c, s, k), Outcome(c.reapers, max, s.store.issued[k].attempts + 1));
    }
    WeightsDrop(c, max, s, s1, j, |s.store.issued|, 0, 0);
  }

  lemma BoundedFetch(c: Config, max: int, s: System, j: JobId)
    requires Bounded(c, max, s, j)
    ensures Follows(c, max, s, Fetch(s), j)
  {
    var s1 := Fetch(s);
    forall k | 0 <= k < |s.store.issued| ensures Weight(c, max, s1, j, k) <= Weight(c, max, s, j, k) {
      assert Holders(s1, k) == Holders(s, k);
      var o := Outcome(c.reapers, max, s.store.issued[k].attempts + 1);
      assert WorkerWeight(s1, k, o) == WorkerWeight(s, k, o);
    }
    WeightsDrop(c, max, s, s1, j, |s.store.issued|, 0, 0);
  }

  lemma BoundedClaimed(c: Config, max: int, s: System, j: JobId, r: nat, e: EntryId)
    requires Bounded(c, max, s, j) && Enabled(c, s, ReaperClaim(r, e))
    ensures Follows(c, max, s, Claimed(s, r, e, c.visibility), j)
  {
    var s1 := Claimed(s, r, e, c.visibility);
    forall k | 0 <= k < |s.store.issued| ensures Weight(c, max, s1, j, k) <= Weight(c, max, s, j, k) {
      if k !in s.store.live {
        assert Holders(s1, k) == Holders(s, k);
      }
    }
    WeightsDrop(c, max, s, s1, j, |s.store.issued|, 0, 0);
  }

  // When entry k's job is j, d fewer reapings and w less worker weight weigh d outcomes and w less.
  lemma WeightBy(c: Config, max: int, s: System, s1: System, j: JobId, k: nat, d: nat, w: nat)
    requires k < |s.store.issued| && k < |s1.store.issued| && s1.store.issued[k] == s.store.issued[k]
    requires Reapings(c, s1, k) + d <= Reapings(c, s, k)
    requires s.store.issued[k].id == j ==>
               var o := Outcome(c.reapers, max, s.store.issued[k].attempts + 1);
               WorkerWeight(s1, k, o) + w <= WorkerWeight(s, k, o)
    ensures s.store.issued[k].id == j ==>
              Weight(c, max, s1, j, k) + d * Outcome(c.reapers, max, s.store.issued[k].attempts + 1) + w
                  <= Weight(c, max, s, j, k)
    ensures s.store.issued[k].id != j ==> Weight(c, max, s1, j, k) == Weight(c, max, s, j, k)
  {
    var o := Outcome(c.reapers, max, s.store.issued[k].attempts + 1);
    TimesMonotone(Reapings(c, s1, k) + d, Reapings(c, s, k), o);
    Distribute(Reapings(c, s1, k), d, o);
  }

  lemma Distribute(a: nat, b: nat, o: nat)
    ensures (a + b) * o == a * o + b * o
  {
  }

  // Deleting entry e, its worker having let go of it: the worker's outcome is spent.
  lemma WorkerSpends(c: Config, max: int, s: System, s1: System, j: JobId, e: EntryId)
    requires Shape(c, s) && e in s.workers && s.workers[e] == Running
    requires s1.store.issued == s.store.issued && s1.store.cursor == s.store.cursor
    requires s1.store.live == s.store.live - {e} && s1.workers == s.workers - {e} && s1.reapers == s.reapers
    ensures var drop := if s.store.issued[e].id == j then Outcome(c.reapers, max, s.store.issued[e].attempts + 1)
        else 0;
            Weights(c, max, s1, j, |s.store.issued|) + drop <= Weights(c, max, s, j, |s.store.issued|)
  {
    var drop := if s.store.issued[e].id == j then Outcome(c.reapers, max, s.store.issued[e].attempts + 1) else 0;
    forall k | 0 <= k < |s.store.issued|
      ensures Weight(c, max, s1, j, k) + (if k == e then drop else 0) <= Weight(c, max, s, j, k)
    {
      assert Holders(s1, k) == Holders(s, k);
      HoldersBelow(c, s, k);
      WeightBy(c, max, s, s1, j, k, 0, if k == e then drop else 0);
    }
    WeightsDrop(c, max, s, s1, j, |s.store.issued|, e, drop);
  }

  lemma ReaperLetsGo(c: Config, s: System, s1: System, r: nat, e: EntryId, k: nat)
    requires Shape(c, s) && r in s.reapers && s.reapers[r].entry == e && k < |s.store.issued|
    requires s1.store.live == s.store.live - {e} && s1.reapers == s.reapers - {r}
    ensures Reapings(c, s1, k) + (if k == e then 1 else 0) <= Reapings(c, s, k)
  {
    HoldersBelow(c, s, k);
    if k == e {
      assert r in Holders(s, k);
      assert Holders(s1, k) == Holders(s, k) - {r};
    } else {
      assert Holders(s1, k) == Holders(s, k);
    }
  }

  // Deleting the entry reaper r holds, the reaper having let go of it.
  lemma ReaperSpends(c: Config, max: int, s: System, s1: System, j: JobId, r: nat, e: EntryId)
    requires Shape(c, s) && r in s.reapers && s.reapers[r].entry == e
    requires s1.store.issued == s.store.issued && s1.store.cursor == s.store.cursor
    requires s1.store.live == s.store.live - {e} && s1.workers == s.workers && s1.reapers == s.reapers - {r}
    ensures var drop := if s.store.issued[e].id == j then Outcome(c.reapers, max, s.store.issued[e].attempts + 1)
        else 0;
            Weights(c, max, s1, j, |s.store.issued|) + drop <= Weights(c, max, s, j, |s.store.issued|)
  {
    var drop := if s.store.issued[e].id == j then Outcome(c.reapers, max, s.store.issued[e].attempts + 1) else 0;
    forall k | 0 <= k < |s.store.issued|
      ensures Weight(c, max, s1, j, k) + (if k == e then drop else 0) <= Weight(c, max, s, j, k)
    {
      ReaperLetsGo(c, s, s1, r, e, k);
      var d := if k == e then 1 else 0;
      WeightBy(c, max, s, s1, j, k, d, 0);
    }
    WeightsDrop(c, max, s, s1, j, |s.store.issued|, e, drop);
  }

  // The outcome of a retry is exactly what the delayed job then weighs.
  lemma PostponeWeighs(c: Config, max: int, s: System, j: JobId, e: EntryId, runAt: real)
    requires Shape(c, s) && Limit(max, s, j) && e < |s.store.issued| && !Exhausted(Settling(s, e))
    ensures var s1 := Postpone(Note(s, e, runAt), e, runAt);
            if s.store.issued[e].id == j
            then DelayedWeight(c, max, s1, j) == Outcome(c.reapers, max, s.store.issued[e].attempts + 1)
            else DelayedWeight(c, max, s1, j) == DelayedWeight(c, max, s, j)
  {
  }

  lemma BoundedComplete(c: Config, max: int, s: System, j: JobId, e: EntryId, s1: System)
    requires Bounded(c, max, s, j) && e in s.workers && s.workers[e] == Running
    requires s1 == DropWorker(Finish(s, e), e)
    ensures Follows(c, max, s, s1, j)
  {
    WorkerSpends(c, max, s, s1, j, e);
  }

  lemma BoundedDie(c: Config, max: int, s: System, j: JobId, e: EntryId, s1: System)
    requires Bounded(c, max, s, j) && e in s.workers && s.workers[e] == Running
    requires s1 == DropWorker(Bury(s, e), e)
    ensures Follows(c, max, s, s1, j)
  {
    WorkerSpends(c, max, s, s1, j, e);
  }

  lemma BoundedWorkerRetry(c: Config, max: int, s: System, j: JobId, e: EntryId, runAt: real)
    requires Bounded(c, max, s, j) && e in s.workers && s.workers[e] == Running && !Exhausted(Settling(s, e))
    ensures Follows(c, max, s, DropWorker(Postpone(Note(s, e, runAt), e, runAt), e), j)
  {
    WorkerSpends(c, max, s, DropWorker(Postpone(Note(s, e, runAt), e, runAt), e), j, e);
    PostponeWeighs(c, max, s, j, e, runAt);
  }

  lemma BoundedReaperDie(c: Config, max: int, s: System, j: JobId, r: nat)
    requires Bounded(c, max, s, j) && r in s.reapers
    ensures Follows(c, max, s, DropReaper(Bury(s, s.reapers[r].entry), r), j)
  {
    var e := s.reapers[r].entry;
    ReaperSpends(c, max, s, DropReaper(Bury(s, e), r), j, r, e);
  }

  lemma BoundedReaperRetry(c: Config, max: int, s: System, j: JobId, r: nat, runAt: real)
    requires Bounded(c, max, s, j) && r in s.reapers && !Exhausted(Settling(s, s.reapers[r].entry))
    ensures var e := s.reapers[r].entry; Follows(c, max, s, DropReaper(Postpone(Note(s, e, runAt), e, runAt), r), j)
  {
    var e := s.reapers[r].entry;
    ReaperSpends(c, max, s, DropReaper(Postpone(Note(s, e, runAt), e, runAt), r), j, r, e);
    PostponeWeighs(c, max, s, j, e, runAt);
  }

  // A new entry weighs its total when it is the job's, nothing otherwise.
  lemma Appended(c: Config, max: int, s: System, s1: System, j: JobId, job: Job)
    requires Shape(c, s) && s1.store.issued == s.store.issued + [job] && s1.store.cursor == s.store.cursor
    requires s1.store.live == s.store.live + {|s.store.issued|} && s1.workers == s.workers && s1.reapers == s.reapers
    ensures Weights(c, max, s1, j, |s1.store.issued|)
         <= Weights(c, max, s, j, |s.store.issued|) + (if job.id == j then Total(c.reapers, max, job.attempts) else 0)
  {
    var n := |s.store.issued|;
    forall k | 0 <= k < n ensures Weight(c, max, s1, j, k) <= Weight(c, max, s, j, k) {
      assert Holders(s1, k) == Holders(s, k);
      WeightBy(c, max, s, s1, j, k, 0, 0);
    }
    WeightsDrop(c, max, s, s1, j, n, 0, 0);
    assert s1.store.issued[n] == job;
    Distribute(1, c.reapers, Outcome(c.reapers, max, job.attempts + 1));
  }

  lemma BoundedPromote(c: Config, max: int, s: System, j: JobId, k: JobId)
    requires Bounded(c, max, s, j) && k in s.store.delayed
    ensures Follows(c, max, s, s.(store := Promote(s.store, k)), j)
  {
    var s1 := s.(store := Promote(s.store, k));
    if HasData(s.store, k) {
      Appended(c, max, s, s1, j, s.store.hashes[k].data.value);
    } else {
      SameEntries(c, max, s, s1, j);
    }
  }

  lemma SameEntries(c: Config, max: int, s: System, s1: System, j: JobId)
    requires s1.store.issued == s.store.issued && s1.store.cursor == s.store.cursor && s1.store.live == s.store.live
    requires s1.workers == s.workers && s1.reapers == s.reapers
    ensures Weights(c, max, s1, j, |s1.store.issued|) <= Weights(c, max, s, j, |s.store.issued|)
  {
    forall k | 0 <= k < |s.store.issued| ensures Weight(c, max, s1, j, k) <= Weight(c, max, s, j, k) {
      assert Holders(s1, k) == Holders(s, k);
    }
    WeightsDrop(c, max, s, s1, j, |s.store.issued|, 0, 0);
  }

  lemma {:induction false} BoundedMove(c: Config, max: int, s: System, j: JobId, js: seq<JobId>)
    requires Bounded(c, max, s, j)
    requires Distinct(js) && forall k | k in js :: k in s.store.delayed
    ensures Follows(c, max, s, s.(store := PromoteAll(s.store, js)), j)
    decreases |js|
  {
    if js == [] {
      assert s.(store := PromoteAll(s.store, js)) == s;
    } else {
      var mid := s.(store := PromoteAll(s.store, js[..|js| - 1]));
      BoundedMove(c, max, s, j, js[..|js| - 1]);
      PromoteAllRemoves(s.store, js[..|js| - 1]);
      BoundedPromote(c, max, mid, j, js[|js| - 1]);
    }
  }

  lemma BoundedRequeue(c: Config, max: int, s: System, j: JobId, k: JobId)
    requires Bounded(c, max, s, j) && k != j
    ensures Bounded(c, max, Step(c, s, Action.Requeue(k)), j)
  {
    if HasData(s.store, k) {
      Appended(c, max, s, Step(c, s, Action.Requeue(k)), j, Requeued(s.store.hashes[k].data.value));
    }
  }

  lemma BoundedAdd(c: Config, max: int, s: System, j: JobId, job: Job)
    requires Bounded(c, max, s, j) && Enabled(c, s, Add(job)) && OnceAtomic(j, max, s, Add(job))
    ensures Bounded(c, max, Step(c, s, Add(job)), j)
  {
    var s1 := Step(c, s, Add(job));
    if IsScheduled(job) {
      SameEntries(c, max, s, s1, j);
    } else {
      Appended(c, max, s, s1, j, job);
    }
  }

  lemma BoundedExpire(c: Config, max: int, s: System, j: JobId, k: JobId)
    requires Bounded(c, max, s, j)
    ensures Bounded(c, max, Step(c, s, Expire(k)), j)
  {
    SameEntries(c, max, s, Step(c, s, Expire(k)), j);
  }

  lemma BoundedWorker(c: Config, max: int, s: System, j: JobId, e: EntryId, a: Action, s1: System)
    requires Bounded(c, max, s, j) && Enabled(c, s, a) && OnceAtomic(j, max, s, a) && s1 == Step(c, s, a)
    requires ByWorker(a) && a.e == e
    ensures Bounded(c, max, s1, j)
  {
    match a
    case Start(_) => BoundedStart(c, max, s, j, e);
    case Complete(_) => BoundedComplete(c, max, s, j, e, s1);
    case Die(_) => BoundedDie(c, max, s, j, e, s1);
    case WriteRetry(_, now, random) => BoundedWorkerRetry(c, max, s, j, e, RunAt(Settling(s, e), now, random));
    case Crash(_) => BoundedCrash(c, max, s, j, e);
    case _ =>
  }

  lemma BoundedReaper(c: Config, max: int, s: System, j: JobId, r: nat, a: Action, s1: System)
    requires Bounded(c, max, s, j) && Enabled(c, s, a) && OnceAtomic(j, max, s, a) && s1 == Step(c, s, a)
    requires ByReaper(a) && a.r == r
    ensures Bounded(c, max, s1, j)
  {
    match a
    case ReaperDie(_) => BoundedReaperDie(c, max, s, j, r);
    case ReaperWriteRetry(_, now, random) =>
      BoundedReaperRetry(c, max, s, j, r, RunAt(Settling(s, s.reapers[r].entry), now, random));
    case ReaperCrash(_) => BoundedReaperCrash(c, max, s, j, r);
    case _ =>
  }

  lemma BoundedStep(c: Config, max: int, s: System, j: JobId, a: Action)
    requires Bounded(c, max, s, j) && Enabled(c, s, a) && OnceAtomic(j, max, s, a)
    ensures Bounded(c, max, Step(c, s, a), j)
  {
    var s1 := Step(c, s, a);
    if ByWorker(a) {
      BoundedWorker(c, max, s, j, a.e, a, s1);
    } else if ByReaper(a) {
      BoundedReaper(c, max, s, j, a.r, a, s1);
    } else if a.Move? {
      DueMembers(s.store.delayed, a.now, a.limit);
      BoundedMove(c, max, s, j, Due(s.store.delayed, a.now, a.limit));
    } else if a.Add? {
      BoundedAdd(c, max, s, j, a.job);
    } else if a.Read? {
      BoundedFetch(c, max, s, j);
    } else if a.ReaperClaim? {
      BoundedClaimed(c, max, s, j, a.r, a.e);
    } else if a.Requeue? {
      BoundedRequeue(c, max, s, j, a.j);
    } else if a.Expire? {
      BoundedExpire(c, max, s, j, a.j);
    } else {
      SameEntries(c, max, s, s1, j);
    }
  }

  lemma BoundedInit(c: Config, max: int, s: System, j: JobId)
    requires s == INIT
    ensures Bounded(c, max, s, j)
  {
  }

  /** With R reapers the handler of a job added once runs at most 1 + (1+R) + ... + (1+R)^(n-1) times, n being the
      attempt limit (or 1 where the limit is below 1: the first run happens regardless). */
  lemma BoundedWork(c: Config, max: int, j: JobId, acts: seq<Action>, t: System)
    requires Exec(c, (x, a) => OnceAtomic(j, max, x, a), INIT, acts, t)
    ensures t.invoked[j] <= Geometric(1 + c.reapers, AtLeastOne(max))
  {
    BoundedInit(c, max, INIT, j);
    forall x, a | Enabled(c, x, a) && OnceAtomic(j, max, x, a) && Bounded(c, max, x, j)
      ensures Bounded(c, max, Step(c, x, a), j)
    {
      BoundedStep(c, max, x, j, a);
    }
    ExecKeeps(c, (x, a) => OnceAtomic(j, max, x, a), x => Bounded(c, max, x, j), INIT, acts, t);
    TotalIsGeometric(c.reapers, max);
  }

  /** One reaper: at most 2^n - 1 runs. */
  lemma BoundedWorkOneReaper(c: Config, max: int, j: JobId, acts: seq<Action>, t: System)
    requires c.reapers == 1
    requires Exec(c, (x, a) => OnceAtomic(j, max, x, a), INIT, acts, t)
    ensures t.invoked[j] <= Power(2, AtLeastOne(max)) - 1
  {
    BoundedWork(c, max, j, acts, t);
    GeometricOfTwo(AtLeastOne(max));
  }

  /** No reaper: at most n runs. */
  lemma BoundedWorkNoReaper(c: Config, max: int, j: JobId, acts: seq<Action>, t: System)
    requires c.reapers == 0
    requires Exec(c, (x, a) => OnceAtomic(j, max, x, a), INIT, acts, t)
    ensures t.invoked[j] <= AtLeastOne(max)
  {
    BoundedWork(c, max, j, acts, t);
    GeometricOfOne(AtLeastOne(max));
  }
}
