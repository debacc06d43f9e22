/** The two calls of a retry taken apart. A stale HSET can now lower the attempt count another process's script will
    promote, so no fixed weight bounds the runs; a rank that is lexicographic over attempt levels still shows that,
    when no process dies between the two calls, a job's handler runs only finitely often. */
module JobSplit {
  import opened Wrappers
  import opened JobStore
  import opened JobProtocol
  import opened JobBound
  import opened Descent

  // ---- sums ----

  ghost function Sum(f: nat -> nat, n: nat): nat {
    if n == 0 then 0 else Sum(f, n - 1) + f(n - 1)
  }

  lemma {:induction false} SumDrop(f: nat -> nat, g: nat -> nat, n: nat, i: nat, drop: nat)
    requires forall k | 0 <= k < n && k != i :: g(k) <= f(k)
    requires i < n ==> g(i) + drop <= f(i)
    ensures Sum(g, n) + (if i < n then drop else 0) <= Sum(f, n)
  {
    if n > 0 {
      SumDrop(f, g, n - 1, i, drop);
    }
  }

  // ---- the rank ----

  ghost predicate IsOf(s: System, i: EntryId, j: JobId, a: nat) {
    i < |s.store.issued| && s.store.issued[i].id == j && s.store.issued[i].attempts == a
  }

  ghost function Wrote(s: System, i: EntryId): set<nat> {
    set r | r in s.reapers && s.reapers[r].entry == i && s.reapers[r].phase.Wrote?
  }

  ghost function Unwritten(s: System, i: EntryId): set<nat> {
    set r | r in s.reapers && s.reapers[r].entry == i && !s.reapers[r].phase.Wrote?
  }

  // Processes that may still issue the HSET of a retry of entry i.
  ghost function ReaperWrites(c: Config, s: System, i: EntryId): int {
    if i in s.store.live then c.reapers - |Wrote(s, i)| else |Unwritten(s, i)|
  }

  ghost function WorkerWrites(s: System, i: EntryId): nat {
    if (i in s.store.live && s.store.cursor <= i) || (i in s.workers && !s.workers[i].Wrote?) then 1 else 0
  }

  ghost function EntryWrites(c: Config, s: System, j: JobId, b: nat, i: EntryId): nat {
    if i < |s.store.issued| && s.store.issued[i].id == j && s.store.issued[i].attempts + 1 == b
        && ReaperWrites(c, s, i) >= 0
    then ReaperWrites(c, s, i) + WorkerWrites(s, i) else 0
  }

  ghost function EntryStarts(s: System, j: JobId, b: nat, i: EntryId): nat {
    if IsOf(s, i, j, b) && ((i in s.store.live && s.store.cursor <= i) || (i in s.workers && s.workers[i] == Fetched))
        then 1 else 0
  }

  ghost function EntryScripts(s: System, j: JobId, i: EntryId): nat {
    if i < |s.store.issued| && s.store.issued[i].id == j
    then |Wrote(s, i)| + (if i in s.workers && s.workers[i].Wrote? then 1 else 0) else 0
  }

  // HSETs of attempt count b still possible.
  ghost function Writes(c: Config, s: System, j: JobId, b: nat): nat {
    Sum(i => EntryWrites(c, s, j, b, i), |s.store.issued|)
  }

  ghost function Starts(s: System, j: JobId, b: nat): nat {
    Sum(i => EntryStarts(s, j, b, i), |s.store.issued|)
  }

  // Scripts whose HSET has been issued.
  ghost function Scripts(s: System, j: JobId): nat {
    Sum(i => EntryScripts(s, j, i), |s.store.issued|)
  }

  ghost predicate AtLevel(s: System, j: JobId, b: nat) {
    HasData(s.store, j) && s.store.hashes[j].data.value.attempts == b
  }

  // Handler runs at attempt count b still possible before the next HSET: each needs a start, each start a promotion,
  // each promotion a zset member, each zset member a script.
  ghost function Runs(s: System, j: JobId, b: nat): nat {
    Starts(s, j, b)
    + (if AtLevel(s, j, b) then 3 * Scripts(s, j) + (if j in s.store.delayed then 2 else 0) else 0)
  }

  // ---- steps compared ----

  ghost predicate NoHigher(c: Config, j: JobId, s: System, s1: System) {
    forall b :: Writes(c, s1, j, b) <= Writes(c, s, j, b) && Runs(s1, j, b) <= Runs(s, j, b)
  }

  ghost predicate LowerWrites(c: Config, j: JobId, s: System, s1: System, b: nat) {
    && Writes(c, s1, j, b) < Writes(c, s, j, b)
    && forall i: nat | i < b :: Writes(c, s1, j, i) <= Writes(c, s, j, i) && Runs(s1, j, i) <= Runs(s, j, i)
  }

  ghost predicate LowerRuns(c: Config, j: JobId, s: System, s1: System, b: nat) {
    && Runs(s1, j, b) < Runs(s, j, b) && Writes(c, s1, j, b) <= Writes(c, s, j, b)
    && forall i: nat | i < b :: Writes(c, s1, j, i) <= Writes(c, s, j, i) && Runs(s1, j, i) <= Runs(s, j, i)
  }

  ghost predicate LowerAt(c: Config, j: JobId, s: System, s1: System, b: nat) {
    LowerWrites(c, j, s, s1, b) || LowerRuns(c, j, s, s1, b)
  }

  ghost predicate Lower(c: Config, max: int, j: JobId, s: System, s1: System) {
    exists b: nat :: b < AtLeastOne(max) && LowerAt(c, j, s, s1, b)
  }

  // ---- the invariant ----

  ghost predicate Allowed(max: int, j: JobId, job: Job) {
    job.id == j ==> job.maxAttempts == max && job.attempts < AtLeastOne(max)
  }

  ghost predicate Formed(c: Config, max: int, s: System, j: JobId) {
    && s.store.cursor <= |s.store.issued|
    && (forall e | e in s.store.live :: e < |s.store.issued|)
    && (forall e | e in s.workers :: e < s.store.cursor)
    && (forall r | r in s.reapers :: r < c.reapers && s.reapers[r].entry < |s.store.issued|)
    && (forall k | HasData(s.store, k) :: s.store.hashes[k].data.value.id == k)
    && (forall i | 0 <= i < |s.store.issued| :: Allowed(max, j, s.store.issued[i]))
    && (HasData(s.store, j) ==> Allowed(max, j, s.store.hashes[j].data.value))
  }

  ghost predicate LimitedTo(j: JobId, max: int, a: Action) {
    a.Add? && a.job.id == j ==> a.job.maxAttempts == max
  }

  lemma FormedPromote(c: Config, max: int, s: System, j: JobId, k: JobId)
    requires Formed(c, max, s, j)
    ensures Formed(c, max, s.(store := Promote(s.store, k)), j)
  {
  }

  lemma {:induction false} FormedMove(c: Config, max: int, s: System, j: JobId, js: seq<JobId>)
    requires Formed(c, max, s, j)
    ensures Formed(c, max, s.(store := PromoteAll(s.store, js)), j)
    decreases |js|
  {
    if js == [] {
      assert s.(store := PromoteAll(s.store, js)) == s;
    } else {
      FormedMove(c, max, s, j, js[..|js| - 1]);
      FormedPromote(c, max, s.(store := PromoteAll(s.store, js[..|js| - 1])), j, js[|js| - 1]);
    }
  }

  lemma FormedSettle(c: Config, max: int, s: System, j: JobId, e: EntryId, s1: System)
    requires Formed(c, max, s, j) && e < |s.store.issued|
    requires s1.store.issued == s.store.issued && s1.store.live == s.store.live - {e}
        && s1.store.cursor == s.store.cursor
    requires s1.workers == s.workers && s1.reapers == s.reapers
    requires forall k | HasData(s1.store, k) :: HasData(s.store, k) && s1.store.hashes[k].data == s.store.hashes[k].data
    ensures Formed(c, max, s1, j)
  {
  }

  lemma FormedFetch(c: Config, max: int, s: System, j: JobId)
    requires Formed(c, max, s, j)
    ensures Formed(c, max, Fetch(s), j)
  {
  }

  lemma FormedClaimed(c: Config, max: int, s: System, j: JobId, r: nat, e: EntryId)
    requires Formed(c, max, s, j) && r < c.reapers
    ensures Formed(c, max, Claimed(s, r, e, c.visibility), j)
  {
  }

  // No entry appended, no new holder, and no hash with data it could not have had.
  lemma FormedFrame(c: Config, max: int, s: System, j: JobId, s1: System)
    requires Formed(c, max, s, j)
    requires s1.store.issued == s.store.issued && s1.store.live <= s.store.live && s1.store.cursor == s.store.cursor
    requires s1.workers.Keys <= s.workers.Keys && s1.reapers.Keys <= s.reapers.Keys
    requires forall r | r in s1.reapers :: s1.reapers[r].entry == s.reapers[r].entry
    requires forall k | HasData(s1.store, k) ::
               s1.store.hashes[k].data.value.id == k && (k == j ==> Allowed(max, j, s1.store.hashes[k].data.value))
    ensures Formed(c, max, s1, j)
  {
  }

  lemma FormedAdd(c: Config, max: int, s: System, j: JobId, job: Job, s1: System)
    requires Formed(c, max, s, j) && IsNew(job) && LimitedTo(j, max, Add(job))
    requires s1.store == Enqueue(s.store, job) && s1.workers == s.workers && s1.reapers == s.reapers
    ensures Formed(c, max, s1, j)
  {
  }

  lemma FormedRequeue(c: Config, max: int, s: System, j: JobId, k: JobId, s1: System)
    requires Formed(c, max, s, j)
    requires s1.store == JobStore.Requeue(s.store, k) && s1.workers == s.workers && s1.reapers == s.reapers
    ensures Formed(c, max, s1, j)
  {
  }

  lemma FormedWorker(c: Config, max: int, s: System, j: JobId, a: Action, s1: System)
    requires Formed(c, max, s, j) && Enabled(c, s, a) && ByWorker(a) && s1 == Step(c, s, a)
    ensures Formed(c, max, s1, j)
  {
    FormedFrame(c, max, s, j, s1);
  }

  lemma FormedReaper(c: Config, max: int, s: System, j: JobId, a: Action, s1: System)
    requires Formed(c, max, s, j) && Enabled(c, s, a) && ByReaper(a) && s1 == Step(c, s, a)
    ensures Formed(c, max, s1, j)
  {
    FormedFrame(c, max, s, j, s1);
  }

  lemma FormedStep(c: Config, max: int, s: System, j: JobId, a: Action)
    requires Formed(c, max, s, j) && Enabled(c, s, a) && LimitedTo(j, max, a)
    ensures Formed(c, max, Step(c, s, a), j)
  {
    if ByWorker(a) {
      FormedWorker(c, max, s, j, a, Step(c, s, a));
    } else if ByReaper(a) {
      FormedReaper(c, max, s, j, a, Step(c, s, a));
    } else if a.Read? {
      FormedFetch(c, max, s, j);
    } else if a.ReaperClaim? {
      FormedClaimed(c, max, s, j, a.r, a.e);
    } else if a.Move? {
      FormedMove(c, max, s, j, Due(s.store.delayed, a.now, a.limit));
    } else if a.Add? {
      FormedAdd(c, max, s, j, a.job, Step(c, s, a));
    } else if a.Requeue? {
      FormedRequeue(c, max, s, j, a.j, Step(c, s, a));
    } else {
      FormedFrame(c, max, s, j, Step(c, s, a));
    }
  }

  lemma FormedFromInit(c: Config, max: int, j: JobId, acts: seq<Action>, t: System)
    requires Exec(c, (x, a) => LimitedTo(j, max, a), INIT, acts, t)
    ensures Formed(c, max, t, j)
  {
    forall x, a | Enabled(c, x, a) && LimitedTo(j, max, a) && Formed(c, max, x, j)
        ensures Formed(c, max, Step(c, x, a), j) {
      FormedStep(c, max, x, j, a);
    }
    ExecKeeps(c, (x, a) => LimitedTo(j, max, a), x => Formed(c, max, x, j), INIT, acts, t);
  }

  // ---- how each step moves the rank ----

  ghost predicate Dominated(c: Config, j: JobId, s: System, s1: System, i: EntryId) {
    forall b :: EntryWrites(c, s1, j, b, i) <= EntryWrites(c, s, j, b, i)
        && EntryStarts(s1, j, b, i) <= EntryStarts(s, j, b, i)
  }

  lemma Sums(c: Config, j: JobId, s: System, s1: System)
    requires s1.store.issued == s.store.issued
    requires forall i | 0 <= i < |s.store.issued| :: Dominated(c, j, s, s1, i)
    ensures forall b :: Writes(c, s1, j, b) <= Writes(c, s, j, b) && Starts(s1, j, b) <= Starts(s, j, b)
  {
    forall b ensures Writes(c, s1, j, b) <= Writes(c, s, j, b) && Starts(s1, j, b) <= Starts(s, j, b) {
      forall i: nat | i < |s.store.issued|
        ensures EntryWrites(c, s1, j, b, i) <= EntryWrites(c, s, j, b, i)
            && EntryStarts(s1, j, b, i) <= EntryStarts(s, j, b, i)
      {
        assert Dominated(c, j, s, s1, i);
      }
      SumDrop(i => EntryWrites(c, s, j, b, i), i => EntryWrites(c, s1, j, b, i), |s.store.issued|, 0, 0);
      SumDrop(i => EntryStarts(s, j, b, i), i => EntryStarts(s1, j, b, i), |s.store.issued|, 0, 0);
    }
  }

  lemma ScriptsDrop(j: JobId, s: System, s1: System, e: EntryId, drop: nat)
    requires s1.store.issued == s.store.issued && e < |s.store.issued|
    requires forall i | 0 <= i < |s.store.issued| && i != e :: EntryScripts(s1, j, i) <= EntryScripts(s, j, i)
    requires EntryScripts(s1, j, e) + drop <= EntryScripts(s, j, e)
    ensures Scripts(s1, j) + drop <= Scripts(s, j)
  {
    SumDrop(i => EntryScripts(s, j, i), i => EntryScripts(s1, j, i), |s.store.issued|, e, drop);
  }

  lemma ScriptsKept(j: JobId, s: System, s1: System)
    requires s1.store.issued == s.store.issued
    requires forall i | 0 <= i < |s.store.issued| :: EntryScripts(s1, j, i) <= EntryScripts(s, j, i)
    ensures Scripts(s1, j) <= Scripts(s, j)
  {
    SumDrop(i => EntryScripts(s, j, i), i => EntryScripts(s1, j, i), |s.store.issued|, 0, 0);
  }

  // No HSET, no promotion, no new zset member.
  lemma Keeps(c: Config, j: JobId, s: System, s1: System)
    requires s1.store.issued == s.store.issued
    requires forall i | 0 <= i < |s.store.issued| :: Dominated(c, j, s, s1, i)
    requires forall i | 0 <= i < |s.store.issued| :: EntryScripts(s1, j, i) <= EntryScripts(s, j, i)
    requires forall b :: AtLevel(s1, j, b) ==> AtLevel(s, j, b)
    requires j in s1.store.delayed ==> j in s.store.delayed
    ensures NoHigher(c, j, s, s1)
  {
    Sums(c, j, s, s1);
    ScriptsKept(j, s, s1);
  }

  lemma HoldersFit(c: Config, s: System, i: EntryId)
    requires forall r | r in s.reapers :: r < c.reapers
    ensures |Wrote(s, i)| + |Unwritten(s, i)| <= c.reapers
  {
    assert Wrote(s, i) !! Unwritten(s, i);
    assert |Wrote(s, i) + Unwritten(s, i)| == |Wrote(s, i)| + |Unwritten(s, i)|;
    BelowCount(Wrote(s, i) + Unwritten(s, i), c.reapers);
  }

  lemma RankStart(c: Config, max: int, s: System, j: JobId, e: EntryId)
    requires Formed(c, max, s, j) && Enabled(c, s, Start(e))
    ensures var s1 := Step(c, s, Start(e));
            if s.store.issued[e].id == j then LowerRuns(c, j, s, s1, s.store.issued[e].attempts)
                else NoHigher(c, j, s, s1)
  {
    var s1 := Step(c, s, Start(e));
    forall i | 0 <= i < |s.store.issued|
      ensures Dominated(c, j, s, s1, i) && EntryScripts(s1, j, i) <= EntryScripts(s, j, i)
    {
      assert Wrote(s1, i) == Wrote(s, i) && Unwritten(s1, i) == Unwritten(s, i);
    }
    Keeps(c, j, s, s1);
    if s.store.issued[e].id == j {
      var b := s.store.issued[e].attempts;
      ScriptsKept(j, s, s1);
      SumDrop(i => EntryStarts(s, j, b, i), i => EntryStarts(s1, j, b, i), |s.store.issued|, e, 1);
    }
  }

  lemma RankFetch(c: Config, max: int, s: System, j: JobId)
    requires Formed(c, max, s, j)
    ensures NoHigher(c, j, s, Fetch(s))
  {
    var s1 := Fetch(s);
    forall i | 0 <= i < |s.store.issued|
      ensures Dominated(c, j, s, s1, i) && EntryScripts(s1, j, i) <= EntryScripts(s, j, i)
    {
      assert Wrote(s1, i) == Wrote(s, i) && Unwritten(s1, i) == Unwritten(s, i);
    }
    Keeps(c, j, s, s1);
  }

  lemma RankClaimed(c: Config, max: int, s: System, j: JobId, r: nat, e: EntryId)
    requires Formed(c, max, s, j) && r !in s.reapers
    ensures NoHigher(c, j, s, Claimed(s, r, e, c.visibility))
  {
    var s1 := Claimed(s, r, e, c.visibility);
    forall i | 0 <= i < |s.store.issued|
      ensures Dominated(c, j, s, s1, i) && EntryScripts(s1, j, i) <= EntryScripts(s, j, i)
    {
      assert Wrote(s1, i) == Wrote(s, i);
      assert i !in s.store.live ==> Unwritten(s1, i) == Unwritten(s, i);
    }
    Keeps(c, j, s, s1);
  }

  lemma RankCrash(c: Config, max: int, s: System, j: JobId, e: EntryId)
    requires Formed(c, max, s, j)
    ensures NoHigher(c, j, s, DropWorker(s, e))
  {
    var s1 := DropWorker(s, e);
    forall i | 0 <= i < |s.store.issued|
      ensures Dominated(c, j, s, s1, i) && EntryScripts(s1, j, i) <= EntryScripts(s, j, i)
    {
      assert Wrote(s1, i) == Wrote(s, i) && Unwritten(s1, i) == Unwritten(s, i);
    }
    Keeps(c, j, s, s1);
  }

  lemma RankReaperCrash(c: Config, max: int, s: System, j: JobId, r: nat)
    requires Formed(c, max, s, j) && r in s.reapers && !s.reapers[r].phase.Wrote?
    ensures NoHigher(c, j, s, DropReaper(s, r))
  {
    var s1 := DropReaper(s, r);
    forall i | 0 <= i < |s.store.issued|
      ensures Dominated(c, j, s, s1, i) && EntryScripts(s1, j, i) <= EntryScripts(s, j, i)
    {
      assert Wrote(s1, i) == Wrote(s, i);
      assert Unwritten(s1, i) <= Unwritten(s, i);
      SubsetSize(Unwritten(s1, i), Unwritten(s, i));
    }
    Keeps(c, j, s, s1);
  }

  // An entry deleted from the stream, its holders unchanged.
  lemma RankDelete(c: Config, max: int, s: System, j: JobId, e: EntryId, s1: System)
    requires Formed(c, max, s, j)
    requires s1.store.issued == s.store.issued && s1.store.live == s.store.live - {e}
        && s1.store.cursor == s.store.cursor
    requires s1.workers == s.workers && s1.reapers == s.reapers
    ensures forall i | 0 <= i < |s.store.issued| :: Dominated(c, j, s, s1, i)
    ensures forall i | 0 <= i < |s.store.issued| :: EntryScripts(s1, j, i) == EntryScripts(s, j, i)
  {
    forall i | 0 <= i < |s.store.issued|
      ensures Dominated(c, j, s, s1, i) && EntryScripts(s1, j, i) == EntryScripts(s, j, i)
    {
      assert Wrote(s1, i) == Wrote(s, i) && Unwritten(s1, i) == Unwritten(s, i);
      HoldersFit(c, s, i);
    }
  }

  // Finish and Bury: the hash keeps its data and the zset its members.
  lemma RankEnd(c: Config, max: int, s: System, j: JobId, e: EntryId, s1: System)
    requires Formed(c, max, s, j)
    requires s1.store.issued == s.store.issued && s1.store.live == s.store.live - {e}
        && s1.store.cursor == s.store.cursor
    requires s1.workers == s.workers && s1.reapers == s.reapers && s1.store.delayed == s.store.delayed
    requires HasData(s1.store, j) ==> HasData(s.store, j) && s1.store.hashes[j].data == s.store.hashes[j].data
    ensures NoHigher(c, j, s, s1)
  {
    RankDelete(c, max, s, j, e, s1);
    Keeps(c, j, s, s1);
  }

  lemma NoHigherThen(c: Config, j: JobId, s: System, s1: System, s2: System)
    requires NoHigher(c, j, s, s1) && NoHigher(c, j, s1, s2)
    ensures NoHigher(c, j, s, s2)
  {
  }

  // ---- the HSET of a retry ----

  // s1 is s with entry e's record written to the hash by the worker, or by reaper r, now in its Wrote phase.
  ghost predicate WroteBy(s: System, s1: System, e: EntryId, runAt: real, byWorker: bool, r: nat) {
    && e < |s.store.issued| && s1.store == Note(s, e, runAt).store
    && (if byWorker
        then e in s.workers && s.workers[e] == Running && s1.workers == s.workers[e := Phase.Wrote(runAt)]
            && s1.reapers == s.reapers
        else r in s.reapers && s.reapers[r] == Handling(e, Running) && s1.workers == s.workers
             && s1.reapers == s.reapers[r := Handling(e, Phase.Wrote(runAt))])
  }

  lemma WriteHolders(s: System, s1: System, e: EntryId, runAt: real, byWorker: bool, r: nat, i: EntryId)
    requires WroteBy(s, s1, e, runAt, byWorker, r)
    ensures var moved := if !byWorker && i == e then 1 else 0;
            |Wrote(s1, i)| == |Wrote(s, i)| + moved && |Unwritten(s1, i)| == |Unwritten(s, i)| - moved
  {
    if byWorker || i != e {
      assert Wrote(s1, i) == Wrote(s, i) && Unwritten(s1, i) == Unwritten(s, i);
    } else {
      assert r in Unwritten(s, e) && r !in Wrote(s, e);
      assert Wrote(s1, e) == Wrote(s, e) + {r} && Unwritten(s1, e) == Unwritten(s, e) - {r};
    }
  }

  lemma WriteWorker(s: System, s1: System, e: EntryId, runAt: real, byWorker: bool, r: nat, i: EntryId)
    requires WroteBy(s, s1, e, runAt, byWorker, r) && (e in s.workers ==> e < s.store.cursor)
    ensures WorkerWrites(s1, i) + (if byWorker && i == e then 1 else 0) == WorkerWrites(s, i)
  {
  }

  lemma WriteEntry(c: Config, max: int, s: System, j: JobId, s1: System, e: EntryId, runAt: real, byWorker: bool,
                   r: nat, i: EntryId)
    requires Formed(c, max, s, j) && WroteBy(s, s1, e, runAt, byWorker, r) && i < |s.store.issued|
    ensures Dominated(c, j, s, s1, i)
    ensures i == e && s.store.issued[e].id == j ==>
              var b := s.store.issued[e].attempts + 1;
              EntryWrites(c, s1, j, b, e) + 1 <= EntryWrites(c, s, j, b, e)
    ensures s.store.issued[e].id != j ==> EntryScripts(s1, j, i) == EntryScripts(s, j, i)
  {
    HoldersFit(c, s, i);
    HoldersFit(c, s1, i);
    WriteHolders(s, s1, e, runAt, byWorker, r, i);
    WriteWorker(s, s1, e, runAt, byWorker, r, i);
    assert ReaperWrites(c, s1, i) + (if !byWorker && i == e then 1 else 0) == ReaperWrites(c, s, i);
  }

  lemma RankWriteOwn(c: Config, max: int, s: System, j: JobId, s1: System, e: EntryId, runAt: real, byWorker: bool,
                     r: nat, b: nat)
    requires Formed(c, max, s, j) && WroteBy(s, s1, e, runAt, byWorker, r)
    requires s.store.issued[e].id == j && b == s.store.issued[e].attempts + 1
    requires forall i | 0 <= i < |s.store.issued| :: Dominated(c, j, s, s1, i)
    ensures LowerWrites(c, j, s, s1, b)
  {
    Sums(c, j, s, s1);
    forall i: nat | i < |s.store.issued| ensures EntryWrites(c, s1, j, b, i) <= EntryWrites(c, s, j, b, i) {
      assert Dominated(c, j, s, s1, i);
    }
    WriteEntry(c, max, s, j, s1, e, runAt, byWorker, r, e);
    SumDrop(i => EntryWrites(c, s, j, b, i), i => EntryWrites(c, s1, j, b, i), |s.store.issued|, e, 1);
    assert forall i: nat | i < b :: !AtLevel(s1, j, i);
  }

  lemma RankWrite(c: Config, max: int, s: System, j: JobId, s1: System, e: EntryId, runAt: real, byWorker: bool, r: nat)
    requires Formed(c, max, s, j) && WroteBy(s, s1, e, runAt, byWorker, r)
    ensures if s.store.issued[e].id == j then LowerWrites(c, j, s, s1, s.store.issued[e].attempts + 1)
        else NoHigher(c, j, s, s1)
  {
    forall i | 0 <= i < |s.store.issued|
      ensures Dominated(c, j, s, s1, i)
      ensures s.store.issued[e].id != j ==> EntryScripts(s1, j, i) == EntryScripts(s, j, i)
    {
      WriteEntry(c, max, s, j, s1, e, runAt, byWorker, r, i);
    }
    if s.store.issued[e].id == j {
      RankWriteOwn(c, max, s, j, s1, e, runAt, byWorker, r, s.store.issued[e].attempts + 1);
    } else {
      Keeps(c, j, s, s1);
    }
  }

  // ---- the script of a retry ----

  ghost predicate ScriptBy(s: System, s1: System, e: EntryId, runAt: real, byWorker: bool, r: nat) {
    && e < |s.store.issued| && s1.store == Postpone(s, e, runAt).store
    && (if byWorker
        then e in s.workers && s.workers[e].Wrote? && s1.workers == s.workers - {e} && s1.reapers == s.reapers
        else r in s.reapers && s.reapers[r].entry == e && s.reapers[r].phase.Wrote? && s1.workers == s.workers
             && s1.reapers == s.reapers - {r})
  }

  lemma ScriptHolders(s: System, s1: System, e: EntryId, runAt: real, byWorker: bool, r: nat, i: EntryId)
    requires ScriptBy(s, s1, e, runAt, byWorker, r)
    ensures |Wrote(s1, i)| + (if !byWorker && i == e then 1 else 0) == |Wrote(s, i)|
        && |Unwritten(s1, i)| == |Unwritten(s, i)|
  {
    assert Unwritten(s1, i) == Unwritten(s, i);
    if byWorker || i != e {
      assert Wrote(s1, i) == Wrote(s, i);
    } else {
      assert r in Wrote(s, e);
      assert Wrote(s1, e) == Wrote(s, e) - {r};
    }
  }

  lemma ScriptEntry(c: Config, max: int, s: System, j: JobId, s1: System, e: EntryId, runAt: real, byWorker: bool,
                    r: nat, i: EntryId)
    requires Formed(c, max, s, j) && ScriptBy(s, s1, e, runAt, byWorker, r) && i < |s.store.issued|
    ensures Dominated(c, j, s, s1, i)
    ensures EntryScripts(s1, j, i) + (if i == e && s.store.issued[e].id == j then 1 else 0) <= EntryScripts(s, j, i)
  {
    HoldersFit(c, s, i);
    ScriptHolders(s, s1, e, runAt, byWorker, r, i);
    assert ReaperWrites(c, s1, i) <= ReaperWrites(c, s, i);
    assert WorkerWrites(s1, i) <= WorkerWrites(s, i);
  }

  lemma RankScript(c: Config, max: int, s: System, j: JobId, s1: System, e: EntryId, runAt: real, byWorker: bool,
                   r: nat)
    requires Formed(c, max, s, j) && ScriptBy(s, s1, e, runAt, byWorker, r)
    ensures NoHigher(c, j, s, s1)
  {
    forall i | 0 <= i < |s.store.issued|
      ensures Dominated(c, j, s, s1, i) && EntryScripts(s1, j, i) <= EntryScripts(s, j, i)
    {
      ScriptEntry(c, max, s, j, s1, e, runAt, byWorker, r, i);
    }
    ScriptEntry(c, max, s, j, s1, e, runAt, byWorker, r, e);
    if s.store.issued[e].id == j {
      Sums(c, j, s, s1);
      ScriptsDrop(j, s, s1, e, 1);
      assert forall b :: AtLevel(s1, j, b) ==> AtLevel(s, j, b);
    } else {
      Keeps(c, j, s, s1);
    }
  }

  // ---- promotion ----

  // Every earlier entry is as it was, and the new one has been delivered to nobody.
  ghost predicate Appends(s: System, s1: System, job: Job) {
    && s1.store.issued == s.store.issued + [job] && s1.store.live == s.store.live + {|s.store.issued|}
    && s1.store.cursor == s.store.cursor && s1.workers == s.workers && s1.reapers == s.reapers
  }

  lemma AppendOld(c: Config, max: int, s: System, j: JobId, s1: System, job: Job, i: nat)
    requires Formed(c, max, s, j) && Appends(s, s1, job) && i < |s.store.issued|
    ensures EntryScripts(s1, j, i) <= EntryScripts(s, j, i) && Dominated(c, j, s, s1, i)
  {
    assert Wrote(s1, i) == Wrote(s, i) && Unwritten(s1, i) == Unwritten(s, i);
  }

  lemma AppendNew(c: Config, max: int, s: System, j: JobId, s1: System, job: Job, b: nat)
    requires Formed(c, max, s, j) && Appends(s, s1, job)
    ensures var n := |s.store.issued|;
            && EntryScripts(s1, j, n) == 0
            && EntryStarts(s1, j, b, n) <= (if job.id == j && job.attempts == b then 1 else 0)
            && ((job.id == j && job.attempts + 1 == b) || EntryWrites(c, s1, j, b, n) == 0)
  {
    assert Wrote(s1, |s.store.issued|) == {};
  }

  lemma AppendLevel(c: Config, max: int, s: System, j: JobId, s1: System, job: Job, b: nat)
    requires Formed(c, max, s, j) && Appends(s, s1, job)
    ensures Starts(s1, j, b) <= Starts(s, j, b) + (if job.id == j && job.attempts == b then 1 else 0)
    ensures (job.id == j && job.attempts + 1 == b) || Writes(c, s1, j, b) <= Writes(c, s, j, b)
  {
    var n := |s.store.issued|;
    forall i: nat | i < n
      ensures EntryWrites(c, s1, j, b, i) <= EntryWrites(c, s, j, b, i)
      ensures EntryStarts(s1, j, b, i) <= EntryStarts(s, j, b, i)
    {
      AppendOld(c, max, s, j, s1, job, i);
    }
    AppendNew(c, max, s, j, s1, job, b);
    SumDrop(i => EntryStarts(s, j, b, i), i => EntryStarts(s1, j, b, i), n, 0, 0);
    SumDrop(i => EntryWrites(c, s, j, b, i), i => EntryWrites(c, s1, j, b, i), n, 0, 0);
  }

  lemma AppendSums(c: Config, max: int, s: System, j: JobId, s1: System, job: Job)
    requires Formed(c, max, s, j) && Appends(s, s1, job)
    ensures Scripts(s1, j) <= Scripts(s, j)
    ensures forall b :: Starts(s1, j, b) <= Starts(s, j, b) + (if job.id == j && job.attempts == b then 1 else 0)
    ensures forall b :: (job.id == j && job.attempts + 1 == b) || Writes(c, s1, j, b) <= Writes(c, s, j, b)
  {
    var n := |s.store.issued|;
    forall i: nat | i < n ensures EntryScripts(s1, j, i) <= EntryScripts(s, j, i) {
      AppendOld(c, max, s, j, s1, job, i);
    }
    AppendNew(c, max, s, j, s1, job, 0);
    SumDrop(i => EntryScripts(s, j, i), i => EntryScripts(s1, j, i), n, 0, 0);
    forall b
      ensures Starts(s1, j, b) <= Starts(s, j, b) + (if job.id == j && job.attempts == b then 1 else 0)
      ensures (job.id == j && job.attempts + 1 == b) || Writes(c, s1, j, b) <= Writes(c, s, j, b)
    {
      AppendLevel(c, max, s, j, s1, job, b);
    }
  }

  lemma RankPromote(c: Config, max: int, s: System, j: JobId, k: JobId)
    requires Formed(c, max, s, j) && k in s.store.delayed
    ensures var s1 := s.(store := Promote(s.store, k));
            NoHigher(c, j, s, s1) || Lower(c, max, j, s, s1)
  {
    var s1 := s.(store := Promote(s.store, k));
    if HasData(s.store, k) {
      var job := s.store.hashes[k].data.value;
      AppendSums(c, max, s, j, s1, job);
      if k == j {
        assert LowerAt(c, j, s, s1, job.attempts);
      }
    } else {
      forall i | 0 <= i < |s.store.issued|
        ensures Dominated(c, j, s, s1, i) && EntryScripts(s1, j, i) <= EntryScripts(s, j, i)
      {
        assert Wrote(s1, i) == Wrote(s, i) && Unwritten(s1, i) == Unwritten(s, i);
      }
      Keeps(c, j, s, s1);
    }
  }

  // ---- runs ----

  ghost predicate Weakly(c: Config, max: int, j: JobId, s: System, s1: System) {
    NoHigher(c, j, s, s1) || Lower(c, max, j, s, s1)
  }

  lemma LowerThenKept(c: Config, j: JobId, s: System, s1: System, s2: System, b: nat)
    requires LowerAt(c, j, s, s1, b) && NoHigher(c, j, s1, s2)
    ensures LowerAt(c, j, s, s2, b)
  {
  }

  lemma KeptThenLower(c: Config, j: JobId, s: System, s1: System, s2: System, b: nat)
    requires NoHigher(c, j, s, s1) && LowerAt(c, j, s1, s2, b)
    ensures LowerAt(c, j, s, s2, b)
  {
  }

  lemma LowerThenLower(c: Config, j: JobId, s: System, s1: System, s2: System, b: nat, d: nat)
    requires LowerAt(c, j, s, s1, b) && LowerAt(c, j, s1, s2, d)
    ensures LowerAt(c, j, s, s2, if b < d then b else d)
  {
  }

  lemma WeaklyThen(c: Config, max: int, j: JobId, s: System, s1: System, s2: System)
    requires Weakly(c, max, j, s, s1) && Weakly(c, max, j, s1, s2)
    ensures Weakly(c, max, j, s, s2)
  {
    if NoHigher(c, j, s, s1) && NoHigher(c, j, s1, s2) {
    } else if NoHigher(c, j, s1, s2) {
      var b: nat :| b < AtLeastOne(max) && LowerAt(c, j, s, s1, b);
      LowerThenKept(c, j, s, s1, s2, b);
    } else if NoHigher(c, j, s, s1) {
      var b: nat :| b < AtLeastOne(max) && LowerAt(c, j, s1, s2, b);
      KeptThenLower(c, j, s, s1, s2, b);
    } else {
      var b: nat :| b < AtLeastOne(max) && LowerAt(c, j, s, s1, b);
      var d: nat :| d < AtLeastOne(max) && LowerAt(c, j, s1, s2, d);
      LowerThenLower(c, j, s, s1, s2, b, d);
    }
  }

  lemma {:induction false} WeaklyMove(c: Config, max: int, s: System, j: JobId, js: seq<JobId>)
    requires Formed(c, max, s, j)
    requires Distinct(js) && forall k | k in js :: k in s.store.delayed
    ensures Weakly(c, max, j, s, s.(store := PromoteAll(s.store, js)))
    decreases |js|
  {
    if js == [] {
      assert s.(store := PromoteAll(s.store, js)) == s;
    } else {
      var mid := s.(store := PromoteAll(s.store, js[..|js| - 1]));
      WeaklyMove(c, max, s, j, js[..|js| - 1]);
      FormedMove(c, max, s, j, js[..|js| - 1]);
      PromoteAllRemoves(s.store, js[..|js| - 1]);
      RankPromote(c, max, mid, j, js[|js| - 1]);
      WeaklyThen(c, max, j, s, mid, s.(store := PromoteAll(s.store, js)));
    }
  }

  /** Nobody dies between the two calls of a retry, and job j is neither added nor requeued. */
  ghost predicate Untorn(j: JobId, s: System, a: Action) {
    && (a.Crash? && a.e in s.workers ==> !s.workers[a.e].Wrote?)
    && (a.ReaperCrash? && a.r in s.reapers ==> !s.reapers[a.r].phase.Wrote?)
    && (a.Add? ==> a.job.id != j) && a != Action.Requeue(j)
  }

  lemma WeaklyWrite(c: Config, max: int, s: System, j: JobId, s1: System, e: EntryId, runAt: real, byWorker: bool,
                    r: nat)
    requires Formed(c, max, s, j) && WroteBy(s, s1, e, runAt, byWorker, r) && !Exhausted(Settling(s, e))
    ensures Weakly(c, max, j, s, s1)
  {
    RankWrite(c, max, s, j, s1, e, runAt, byWorker, r);
    assert s.store.issued[e].id == j ==> LowerAt(c, j, s, s1, s.store.issued[e].attempts + 1);
  }

  lemma WeaklyWorker(c: Config, max: int, s: System, j: JobId, e: EntryId, a: Action)
    requires Formed(c, max, s, j) && Enabled(c, s, a) && Untorn(j, s, a)
    requires ByWorker(a) && !a.WriteRetry? && a.e == e
    ensures Weakly(c, max, j, s, Step(c, s, a))
  {
    var s1 := Step(c, s, a);
    if a.Start? {
      RankStart(c, max, s, j, e);
      assert s.store.issued[e].id == j ==> LowerAt(c, j, s, s1, s.store.issued[e].attempts);
    } else if a.Write? {
      WeaklyWrite(c, max, s, j, s1, e, RunAt(Settling(s, e), a.now, a.random), true, 0);
    } else if a.Retry? {
      RankScript(c, max, s, j, s1, e, s.workers[e].runAt, true, 0);
    } else if a.Crash? {
      RankCrash(c, max, s, j, e);
    } else {
      var end := if a.Complete? then Finish(s, e) else Bury(s, e);
      RankEnd(c, max, s, j, e, end);
      FormedSettle(c, max, s, j, e, end);
      RankCrash(c, max, end, j, e);
      NoHigherThen(c, j, s, end, s1);
    }
  }

  lemma WeaklyReaper(c: Config, max: int, s: System, j: JobId, r: nat, a: Action)
    requires Formed(c, max, s, j) && Enabled(c, s, a) && Untorn(j, s, a)
    requires ByReaper(a) && !a.ReaperWriteRetry? && a.r == r
    ensures Weakly(c, max, j, s, Step(c, s, a))
  {
    var s1 := Step(c, s, a);
    var e := s.reapers[r].entry;
    if a.ReaperWrite? {
      WeaklyWrite(c, max, s, j, s1, e, RunAt(Settling(s, e), a.now, a.random), false, r);
    } else if a.ReaperRetry? {
      RankScript(c, max, s, j, s1, e, s.reapers[r].phase.runAt, false, r);
    } else if a.ReaperCrash? {
      RankReaperCrash(c, max, s, j, r);
    } else {
      var end := Bury(s, e);
      RankEnd(c, max, s, j, e, end);
      FormedSettle(c, max, s, j, e, end);
      RankReaperCrash(c, max, end, j, r);
      NoHigherThen(c, j, s, end, s1);
    }
  }

  // No entry appended, no holder moved.
  lemma WeaklyKept(c: Config, max: int, s: System, j: JobId, s1: System)
    requires Formed(c, max, s, j)
    requires s1.store.issued == s.store.issued && s1.store.live == s.store.live && s1.store.cursor == s.store.cursor
    requires s1.workers == s.workers && s1.reapers == s.reapers
    requires forall b :: AtLevel(s1, j, b) ==> AtLevel(s, j, b)
    requires j in s1.store.delayed ==> j in s.store.delayed
    ensures NoHigher(c, j, s, s1)
  {
    forall i | 0 <= i < |s.store.issued|
      ensures Dominated(c, j, s, s1, i) && EntryScripts(s1, j, i) <= EntryScripts(s, j, i)
    {
      assert Wrote(s1, i) == Wrote(s, i) && Unwritten(s1, i) == Unwritten(s, i);
    }
    Keeps(c, j, s, s1);
  }

  lemma WeaklyEnter(c: Config, max: int, s: System, j: JobId, a: Action)
    requires Formed(c, max, s, j) && Enabled(c, s, a) && Untorn(j, s, a)
        && (a.Add? || a.Requeue? || a.Expire? || a.Tick?)
    ensures NoHigher(c, j, s, Step(c, s, a))
  {
    var s1 := Step(c, s, a);
    if s1.store.issued == s.store.issued {
      WeaklyKept(c, max, s, j, s1);
    } else {
      WeaklyAppend(c, max, s, j, s1, if a.Add? then a.job else Requeued(s.store.hashes[a.j].data.value));
    }
  }

  // An entry of another job is appended.
  lemma WeaklyAppend(c: Config, max: int, s: System, j: JobId, s1: System, job: Job)
    requires Formed(c, max, s, j) && job.id != j
    requires s1.store.issued == s.store.issued + [job] && s1.store.live == s.store.live + {|s.store.issued|}
    requires s1.store.cursor == s.store.cursor && s1.workers == s.workers && s1.reapers == s.reapers
    requires s1.store.delayed == s.store.delayed && forall b :: AtLevel(s1, j, b) ==> AtLevel(s, j, b)
    ensures NoHigher(c, j, s, s1)
  {
    AppendSums(c, max, s, j, s1, job);
  }

  lemma WeaklyStep(c: Config, max: int, s: System, j: JobId, a: Action)
    requires Formed(c, max, s, j) && Enabled(c, s, a) && Untorn(j, s, a)
    ensures Weakly(c, max, j, s, Step(c, s, a))
  {
    if a.WriteRetry? {
      WeaklyWriteRetry(c, max, s, j, a);
    } else if a.ReaperWriteRetry? {
      WeaklyReaperWriteRetry(c, max, s, j, a);
    } else if ByWorker(a) {
      WeaklyWorker(c, max, s, j, a.e, a);
    } else if ByReaper(a) {
      WeaklyReaper(c, max, s, j, a.r, a);
    } else if a.Read? {
      RankFetch(c, max, s, j);
    } else if a.ReaperClaim? {
      RankClaimed(c, max, s, j, a.r, a.e);
    } else if a.Move? {
      DueMembers(s.store.delayed, a.now, a.limit);
      WeaklyMove(c, max, s, j, Due(s.store.delayed, a.now, a.limit));
    } else {
      WeaklyEnter(c, max, s, j, a);
    }
  }

  lemma WeaklyWriteRetry(c: Config, max: int, s: System, j: JobId, a: Action)
    requires Formed(c, max, s, j) && Enabled(c, s, a) && a.WriteRetry?
    ensures Weakly(c, max, j, s, Step(c, s, a))
  {
    var write := Write(a.e, a.now, a.random);
    RetryIsTwoCalls(c, s, a.e, a.now, a.random);
    var mid := Step(c, s, write);
    WeaklyWorker(c, max, s, j, a.e, write);
    FormedStep(c, max, s, j, write);
    WeaklyWorker(c, max, mid, j, a.e, Retry(a.e));
    WeaklyThen(c, max, j, s, mid, Step(c, s, a));
  }

  lemma WeaklyReaperWriteRetry(c: Config, max: int, s: System, j: JobId, a: Action)
    requires Formed(c, max, s, j) && Enabled(c, s, a) && a.ReaperWriteRetry?
    ensures Weakly(c, max, j, s, Step(c, s, a))
  {
    var write := ReaperWrite(a.r, a.now, a.random);
    ReaperRetryIsTwoCalls(c, s, a.r, a.now, a.random);
    var mid := Step(c, s, write);
    WeaklyReaper(c, max, s, j, a.r, write);
    FormedStep(c, max, s, j, write);
    WeaklyReaper(c, max, mid, j, a.r, ReaperRetry(a.r));
    WeaklyThen(c, max, j, s, mid, Step(c, s, a));
  }

  // ---- the rank as a vector, most significant component first ----

  ghost function Rank(c: Config, max: int, j: JobId, s: System): seq<nat> {
    seq(2 * AtLeastOne(max), p requires 0 <= p => if p % 2 == 0 then Writes(c, s, j, p / 2) else Runs(s, j, p / 2))
  }

  lemma RankAt(c: Config, max: int, j: JobId, s: System, b: nat)
    requires b < AtLeastOne(max)
    ensures Rank(c, max, j, s)[2 * b] == Writes(c, s, j, b) && Rank(c, max, j, s)[2 * b + 1] == Runs(s, j, b)
  {
    assert 2 * b / 2 == b && (2 * b + 1) / 2 == b;
  }

  lemma Halves(i: nat, b: nat) returns (d: nat)
    requires i < 2 * b
    ensures d < b && (i == 2 * d || i == 2 * d + 1)
  {
    d := i / 2;
  }

  ghost predicate NotAboveUpTo(c: Config, j: JobId, s: System, s1: System, b: nat) {
    forall d: nat | d < b :: Writes(c, s1, j, d) <= Writes(c, s, j, d) && Runs(s1, j, d) <= Runs(s, j, d)
  }

  lemma RankUpTo(c: Config, max: int, j: JobId, s: System, s1: System, b: nat, i: nat)
    requires b < AtLeastOne(max) && i < 2 * b && NotAboveUpTo(c, j, s, s1, b)
    ensures Rank(c, max, j, s1)[i] <= Rank(c, max, j, s)[i]
  {
    var d := Halves(i, b);
    RankAt(c, max, j, s, d);
    RankAt(c, max, j, s1, d);
  }

  lemma LowerWritesBelow(c: Config, max: int, j: JobId, s: System, s1: System, b: nat, x: seq<nat>, y: seq<nat>)
    requires b < AtLeastOne(max) && LowerWrites(c, j, s, s1, b)
    requires x == Rank(c, max, j, s1) && y == Rank(c, max, j, s)
    ensures Below(x, y)
  {
    RankAt(c, max, j, s, b);
    RankAt(c, max, j, s1, b);
    forall i | 0 <= i < 2 * b ensures x[i] <= y[i] {
      RankUpTo(c, max, j, s, s1, b, i);
    }
  }

  lemma LowerRunsBelow(c: Config, max: int, j: JobId, s: System, s1: System, b: nat, x: seq<nat>, y: seq<nat>)
    requires b < AtLeastOne(max) && LowerRuns(c, j, s, s1, b)
    requires x == Rank(c, max, j, s1) && y == Rank(c, max, j, s)
    ensures Below(x, y)
  {
    RankAt(c, max, j, s, b);
    RankAt(c, max, j, s1, b);
    forall i | 0 <= i < 2 * b + 1 ensures x[i] <= y[i] {
      if i < 2 * b { RankUpTo(c, max, j, s, s1, b, i); }
    }
  }

  lemma LowerIsBelow(c: Config, max: int, j: JobId, s: System, s1: System)
    requires Lower(c, max, j, s, s1)
    ensures Below(Rank(c, max, j, s1), Rank(c, max, j, s))
  {
    var b: nat :| b < AtLeastOne(max) && LowerAt(c, j, s, s1, b);
    if LowerWrites(c, j, s, s1, b) {
      LowerWritesBelow(c, max, j, s, s1, b, Rank(c, max, j, s1), Rank(c, max, j, s));
    } else {
      LowerRunsBelow(c, max, j, s, s1, b, Rank(c, max, j, s1), Rank(c, max, j, s));
    }
  }

  lemma WeaklyIsNotAbove(c: Config, max: int, j: JobId, s: System, s1: System)
    requires Weakly(c, max, j, s, s1)
    ensures NotAbove(Rank(c, max, j, s1), Rank(c, max, j, s))
  {
    if Lower(c, max, j, s, s1) {
      LowerIsBelow(c, max, j, s, s1);
    }
  }

  ghost predicate Moves(c: Config, j: JobId, run: nat -> System, acts: nat -> Action, n: nat) {
    Enabled(c, run(n), acts(n)) && Untorn(j, run(n), acts(n)) && run(n + 1) == Step(c, run(n), acts(n))
  }

  ghost predicate InfiniteRun(c: Config, j: JobId, run: nat -> System, acts: nat -> Action) {
    forall n: nat :: Moves(c, j, run, acts, n)
  }

  lemma {:induction false} FormedAlways(c: Config, max: int, j: JobId, run: nat -> System, acts: nat -> Action, n: nat)
    requires InfiniteRun(c, j, run, acts) && Formed(c, max, run(0), j)
    ensures Formed(c, max, run(n), j)
    decreases n
  {
    if n > 0 {
      assert Moves(c, j, run, acts, n - 1);
      FormedAlways(c, max, j, run, acts, n - 1);
      FormedStep(c, max, run(n - 1), j, acts(n - 1));
    }
  }

  /** Once job j is no longer added or requeued, an infinite run in which nobody dies between the two calls of a retry
      invokes its handler only finitely often, whatever the number of reapers and however stale the workers. */
  lemma FinitelyManyRuns(c: Config, max: int, j: JobId, prefix: seq<Action>, run: nat -> System, acts: nat -> Action)
    requires Exec(c, (x, a) => LimitedTo(j, max, a), INIT, prefix, run(0))
    requires InfiniteRun(c, j, run, acts)
    ensures exists n: nat :: forall k: nat | k >= n :: run(k).invoked[j] == run(n).invoked[j]
  {
    FormedFromInit(c, max, j, prefix, run(0));
    var v := (n: nat) => Rank(c, max, j, run(n));
    forall n: nat ensures NotRising(v, n) {
      assert Moves(c, j, run, acts, n);
      FormedAlways(c, max, j, run, acts, n);
      WeaklyStep(c, max, run(n), j, acts(n));
      WeaklyIsNotAbove(c, max, j, run(n), run(n + 1));
    }
    forall n: nat ensures |v(n)| == 2 * AtLeastOne(max) {
      assert v(n) == Rank(c, max, j, run(n));
    }
    var n := Settles(v, 2 * AtLeastOne(max), 2 * AtLeastOne(max));
    forall k: nat | k >= n ensures Rank(c, max, j, run(k)) == Rank(c, max, j, run(n)) {
      assert forall i | 0 <= i < |v(k)| :: v(k)[i] == v(n)[i];
    }
    forall k: nat | k >= n ensures run(k).invoked[j] == run(n).invoked[j] {
      StaysInvoked(c, max, j, run, acts, n, k);
    }
  }

  lemma SameRank(c: Config, max: int, j: JobId, s: System, a: Action, s1: System)
    requires Formed(c, max, s, j) && Enabled(c, s, a) && s1 == Step(c, s, a)
    requires Rank(c, max, j, s1) == Rank(c, max, j, s)
    ensures s1.invoked[j] == s.invoked[j]
  {
    if a.Start? && s.store.issued[a.e].id == j {
      RankStart(c, max, s, j, a.e);
      assert LowerAt(c, j, s, s1, s.store.issued[a.e].attempts);
      LowerIsBelow(c, max, j, s, s1);
    }
  }

  lemma {:induction false} StaysInvoked(c: Config, max: int, j: JobId, run: nat -> System, acts: nat -> Action, n: nat,
                                        k: nat)
    requires InfiniteRun(c, j, run, acts) && Formed(c, max, run(0), j) && n <= k
    requires forall m: nat | m >= n :: Rank(c, max, j, run(m)) == Rank(c, max, j, run(n))
    ensures run(k).invoked[j] == run(n).invoked[j]
    decreases k
  {
    if k > n {
      StaysInvoked(c, max, j, run, acts, n, k - 1);
      FormedAlways(c, max, j, run, acts, k - 1);
      assert Moves(c, j, run, acts, k - 1);
      assert Rank(c, max, j, run(k - 1)) == Rank(c, max, j, run(n)) == Rank(c, max, j, run(k));
      SameRank(c, max, j, run(k - 1), acts(k - 1), run(k));
    }
  }
}
