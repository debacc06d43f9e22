/** The attempt limit in runs in which no reaper claims an entry somebody is still working on: one run or as many as the
    limit says, whichever is more, with the two calls of a retry apart. Invocations made and runs left never add up to
    more. */
module JobLimit {
  import opened Wrappers
  import opened JobStore
  import opened JobProtocol
  import opened JobPlaces
  import opened JobBound

  // Runs still allowed after the one at attempt count a.
  ghost function After(max: int, a: nat): nat {
    if max - a - 1 < 0 then 0 else max - a - 1
  }

  ghost predicate Unstarted(s: System, e: EntryId) {
    s.store.cursor <= e || (e in s.workers && s.workers[e] == Fetched)
  }

  ghost function EntryRest(max: int, s: System, e: EntryId): nat
    requires e < |s.store.issued|
  {
    var a := s.store.issued[e].attempts;
    if Unstarted(s, e) then AtLeastOne(max - a) else After(max, a)
  }

  ghost predicate EntryFits(max: int, s: System, e: EntryId, j: JobId)
    requires e < |s.store.issued|
  {
    s.store.issued[e].maxAttempts == max && s.invoked[j] + EntryRest(max, s, e) <= AtLeastOne(max)
  }

  ghost predicate DataFits(max: int, s: System, j: JobId) {
    HasData(s.store, j) ==>
      var job := s.store.hashes[j].data.value;
      job.maxAttempts == max
          && (j in s.store.delayed ==> s.invoked[j] + AtLeastOne(max - job.attempts) <= AtLeastOne(max))
  }

  // Between the two calls the hash already carries the attempt count the script will leave behind.
  ghost predicate WrittenFits(s: System, j: JobId) {
    && (forall e | e in s.workers && s.workers[e].Wrote? && EntryOf(s, e, j) && HasData(s.store, j) ::
          s.store.hashes[j].data.value.attempts == s.store.issued[e].attempts + 1 < s.store.issued[e].maxAttempts)
    && (forall r | r in s.reapers && s.reapers[r].phase.Wrote? && EntryOf(s, s.reapers[r].entry, j)
        && HasData(s.store, j) ::
          s.store.hashes[j].data.value.attempts == s.store.issued[s.reapers[r].entry].attempts + 1
          < s.store.issued[s.reapers[r].entry].maxAttempts)
  }

  ghost predicate Fits(max: int, s: System, j: JobId) {
    && (forall e: EntryId | EntryOf(s, e, j) :: EntryFits(max, s, e, j))
    && DataFits(max, s, j) && WrittenFits(s, j)
    && s.invoked[j] <= AtLeastOne(max) && (j !in s.added ==> s.invoked[j] == 0)
  }

  ghost predicate UndisturbedOnce(j: JobId, max: int, s: System, a: Action) {
    && Undisturbed(s, a)
    && (a.Add? && a.job.id == j ==> a.job.maxAttempts == max)
    && a != Action.Requeue(j)
  }

  // A step that leaves job j's entries, its data and its place in the zset alone.
  ghost predicate Aside(s: System, s1: System, j: JobId) {
    && (forall e: EntryId | EntryOf(s1, e, j) :: EntryOf(s, e, j) && s1.store.issued[e] == s.store.issued[e]
          && (Unstarted(s1, e) ==> Unstarted(s, e)))
    && (HasData(s1.store, j) ==> HasData(s.store, j) && s1.store.hashes[j].data == s.store.hashes[j].data)
    && (j in s1.store.delayed ==> j in s.store.delayed)
    && s1.invoked[j] == s.invoked[j]
    && (forall e | e in s1.workers && s1.workers[e].Wrote? && EntryOf(s1, e, j) ::
        e in s.workers && s.workers[e].Wrote?)
    && (forall r | r in s1.reapers && s1.reapers[r].phase.Wrote? && EntryOf(s1, s1.reapers[r].entry, j) ::
          r in s.reapers && s.reapers[r].phase.Wrote? && s.reapers[r].entry == s1.reapers[r].entry)
    && (j !in s1.added ==> j !in s.added)
  }

  lemma FitsFrame(max: int, s: System, s1: System, j: JobId)
    requires Fits(max, s, j) && Aside(s, s1, j)
    ensures Fits(max, s1, j)
  {
    forall e: EntryId | EntryOf(s1, e, j) ensures EntryFits(max, s1, e, j) {
      assert EntryFits(max, s, e, j);
    }
  }

  // What order buys: a job's entry is its only one, and it is not delayed.
  lemma OnlyEntry(s: System, e: EntryId, j: JobId)
    requires Orderly(s) && EntryOf(s, e, j)
    ensures forall f: EntryId | EntryOf(s, f, j) :: f == e
    ensures j !in s.store.delayed
  {
    assert InStream(s, j);
  }

  lemma NoEntry(s: System, j: JobId)
    requires Orderly(s) && (j in s.store.delayed || j !in s.added)
    ensures forall f: EntryId :: !EntryOf(s, f, j)
  {
    assert !InStream(s, j);
  }

  lemma FitsStart(max: int, s: System, j: JobId, e: EntryId)
    requires Fits(max, s, j) && s.store.cursor <= |s.store.issued| && e < s.store.cursor
    requires e in s.workers && s.workers[e] == Fetched && e in s.store.live && s.store.issued[e].id in s.added
    requires forall f: EntryId | EntryOf(s, f, s.store.issued[e].id) :: f == e
    requires s.store.issued[e].id !in s.store.delayed
    ensures Fits(max, s.(workers := s.workers[e := Running], invoked := s.invoked + multiset{s.store.issued[e].id}), j)
  {
    var s1 := s.(workers := s.workers[e := Running], invoked := s.invoked + multiset{s.store.issued[e].id});
    assert EntryOf(s, e, s.store.issued[e].id);
    if s.store.issued[e].id == j {
      assert EntryFits(max, s, e, j);
      forall f: EntryId | EntryOf(s1, f, j) ensures EntryFits(max, s1, f, j) {
        assert EntryOf(s, f, j);
      }
    } else {
      assert Aside(s, s1, j);
      FitsFrame(max, s, s1, j);
    }
  }

  // The HSET of a retry: s1 is s with the data written and the writer, if any, in its Wrote phase.
  lemma FitsWrite(max: int, s: System, s1: System, j: JobId, e: EntryId, runAt: real)
    requires Fits(max, s, j) && e in s.store.live && e < |s.store.issued| && !Exhausted(Settling(s, e))
        && !Unstarted(s, e)
    requires forall f: EntryId | EntryOf(s, f, s.store.issued[e].id) :: f == e
    requires s.store.issued[e].id !in s.store.delayed
    requires s1.store == Note(s, e, runAt).store && s1.invoked == s.invoked && s1.added == s.added
    requires forall f | f in s1.workers :: f in s.workers && (f != e ==> s1.workers[f] == s.workers[f])
    requires e in s1.workers ==> s1.workers[e] != Fetched
    requires forall r | r in s1.reapers :: r in s.reapers && s1.reapers[r].entry == s.reapers[r].entry
               && (s.reapers[r].entry != e ==> s1.reapers[r] == s.reapers[r])
    ensures Fits(max, s1, j)
  {
    if s.store.issued[e].id == j {
      assert EntryOf(s, e, j);
      assert EntryFits(max, s, e, j);
      forall f: EntryId | EntryOf(s1, f, j) ensures f == e && EntryFits(max, s1, f, j) {
        assert EntryOf(s, f, j);
      }
    } else {
      assert Aside(s, s1, j);
      FitsFrame(max, s, s1, j);
    }
  }

  // The script of a retry: the data it leaves behind fits because the HSET before it did.
  lemma FitsPostpone(max: int, s: System, s1: System, j: JobId, e: EntryId, runAt: real)
    requires Fits(max, s, j) && e in s.store.live && e < |s.store.issued| && Released(s, s1, e) && !Unstarted(s, e)
    requires forall f: EntryId | EntryOf(s, f, s.store.issued[e].id) :: f == e
    requires s1.store == Postpone(s, e, runAt).store && s1.invoked == s.invoked
    requires s.store.issued[e].id == j && HasData(s.store, j) ==>
               s.store.hashes[j].data.value.attempts == s.store.issued[e].attempts + 1 < s.store.issued[e].maxAttempts
    requires forall f | f in s1.workers :: s1.workers[f] == s.workers[f]
    requires forall r | r in s1.reapers :: s1.reapers[r] == s.reapers[r]
    ensures Fits(max, s1, j)
  {
    if s.store.issued[e].id == j {
      assert EntryOf(s, e, j);
      assert EntryFits(max, s, e, j);
      forall f: EntryId | EntryOf(s1, f, j) ensures false {
        assert EntryOf(s, f, j);
      }
    } else {
      assert Aside(s, s1, j);
      FitsFrame(max, s, s1, j);
    }
  }

  lemma FitsPromoteOther(max: int, s: System, s1: System, j: JobId, k: JobId)
    requires Fits(max, s, j) && s.store.cursor <= |s.store.issued|
    requires forall e | e in s.workers :: e < |s.store.issued|
    requires s1 == s.(store := Promote(s.store, k)) && (k != j || !HasData(s.store, j))
    requires HasData(s.store, k) ==> s.store.hashes[k].data.value.id == k
    ensures Fits(max, s1, j)
  {
    assert Aside(s, s1, j);
    FitsFrame(max, s, s1, j);
  }

  lemma FitsPromote(max: int, s: System, j: JobId, k: JobId)
    requires Fits(max, s, j) && Orderly(s) && k in s.store.delayed
    ensures Fits(max, s.(store := Promote(s.store, k)), j)
  {
    var s1 := s.(store := Promote(s.store, k));
    NoEntry(s, k);
    if k == j && HasData(s.store, j) {
      FitsSole(max, s, s1, j, s.store.hashes[j].data.value);
    } else {
      FitsPromoteOther(max, s, s1, j, k);
    }
  }

  // Job j, in the stream nowhere before, gets one entry carrying `job`.
  lemma FitsSole(max: int, s: System, s1: System, j: JobId, job: Job)
    requires forall f: EntryId :: !EntryOf(s, f, j)
    requires s1.store.issued == s.store.issued + [job] && s1.store.live == s.store.live + {|s.store.issued|}
    requires s1.workers == s.workers && s1.reapers == s.reapers && s1.invoked == s.invoked
    requires forall e | e in s.workers :: e < |s.store.issued|
    requires forall r | r in s.reapers :: s.reapers[r].entry < |s.store.issued|
    requires job.maxAttempts == max && j in s1.added && j !in s1.store.delayed
    requires s.invoked[j] + AtLeastOne(max - job.attempts) <= AtLeastOne(max)
    requires HasData(s1.store, j) ==> s1.store.hashes[j].data == Some(job)
    ensures Fits(max, s1, j)
  {
    forall e: EntryId | EntryOf(s1, e, j) ensures e == |s.store.issued| {
      if e < |s.store.issued| { assert EntryOf(s, e, j); }
    }
  }

  lemma {:induction false} FitsMove(max: int, s: System, j: JobId, js: seq<JobId>)
    requires Fits(max, s, j) && Orderly(s)
    requires Distinct(js) && forall k | k in js :: k in s.store.delayed
    ensures Fits(max, s.(store := PromoteAll(s.store, js)), j)
    decreases |js|
  {
    if js == [] {
      assert s.(store := PromoteAll(s.store, js)) == s;
    } else {
      var mid := s.(store := PromoteAll(s.store, js[..|js| - 1]));
      FitsMove(max, s, j, js[..|js| - 1]);
      PromoteAllRemoves(s.store, js[..|js| - 1]);
      OrderlyMove(s, js[..|js| - 1], mid);
      FitsPromote(max, mid, j, js[|js| - 1]);
    }
  }

  // A new job and nothing else: it is scheduled or enqueued.
  lemma FitsNew(max: int, s: System, s1: System, j: JobId, job: Job)
    requires Fits(max, s, j) && AddedAs(s, s1, job) && s1.invoked == s.invoked && job.id == j && IsNew(job)
    requires job.maxAttempts == max && j !in s.added && forall e: EntryId :: !EntryOf(s, e, j)
    requires forall e | e in s.workers :: e < |s.store.issued|
    requires forall r | r in s.reapers :: s.reapers[r].entry < |s.store.issued|
    requires j !in s.store.delayed
    ensures Fits(max, s1, j)
  {
    if IsScheduled(job) {
      forall e: EntryId ensures !EntryOf(s1, e, j) {
        assert !EntryOf(s, e, j);
      }
    } else {
      FitsSole(max, s, s1, j, job);
    }
  }

  lemma FitsOther(max: int, s: System, s1: System, j: JobId, job: Job)
    requires Fits(max, s, j) && AddedAs(s, s1, job) && s1.invoked == s.invoked && job.id != j
    requires forall e | e in s.workers :: e < |s.store.issued|
    requires s.store.cursor <= |s.store.issued|
    ensures Fits(max, s1, j)
  {
    assert Aside(s, s1, j);
    FitsFrame(max, s, s1, j);
  }

  lemma FitsAdd(c: Config, max: int, s: System, j: JobId, job: Job, s1: System)
    requires Fits(max, s, j) && Orderly(s) && Enabled(c, s, Add(job)) && UndisturbedOnce(j, max, s, Add(job))
    requires s1 == Step(c, s, Add(job))
    ensures Fits(max, s1, j)
  {
    if job.id == j {
      NoEntry(s, j);
      FitsNew(max, s, s1, j, job);
    } else {
      FitsOther(max, s, s1, j, job);
    }
  }

  lemma FitsWriteRetry(max: int, s: System, s1: System, j: JobId, e: EntryId, r: nat, runAt: real)
    requires Fits(max, s, j) && Orderly(s) && e in s.store.pel && !Exhausted(Settling(s, e)) && !Unstarted(s, e)
    requires LetGo(Postpone(Note(s, e, runAt), e, runAt), s1, e, r)
    ensures Fits(max, s1, j)
  {
    var mid := Note(s, e, runAt);
    assert EntryOf(s, e, s.store.issued[e].id);
    OnlyEntry(s, e, s.store.issued[e].id);
    FitsWrite(max, s, mid, j, e, runAt);
    FitsPostpone(max, mid, s1, j, e, runAt);
  }

  // s1 is s with entry e's record noted by its holder, the worker or reaper r.
  ghost predicate NotedBy(s: System, s1: System, e: EntryId, r: nat, runAt: real) {
    && e < |s.store.issued| && s1 == Note(s, e, runAt).(workers := s1.workers, reapers := s1.reapers)
    && ((s1.reapers == s.reapers && s1.workers == s.workers[e := Phase.Wrote(runAt)] && e in s.workers)
        || (s1.workers == s.workers && s1.reapers == s.reapers[r := Handling(e, Phase.Wrote(runAt))]
            && r in s.reapers && s.reapers[r].entry == e))
  }

  lemma FitsNoted(max: int, s: System, s1: System, j: JobId, e: EntryId, r: nat, runAt: real)
    requires Fits(max, s, j) && Orderly(s) && e in s.store.pel && !Exhausted(Settling(s, e)) && !Unstarted(s, e)
    requires NotedBy(s, s1, e, r, runAt)
    ensures Fits(max, s1, j)
  {
    assert EntryOf(s, e, s.store.issued[e].id);
    OnlyEntry(s, e, s.store.issued[e].id);
    FitsWrite(max, s, s1, j, e, runAt);
  }

  lemma FitsScript(max: int, s: System, s1: System, j: JobId, e: EntryId, r: nat, runAt: real)
    requires Fits(max, s, j) && Orderly(s) && e in s.store.pel && !Unstarted(s, e)
    requires LetGo(Postpone(s, e, runAt), s1, e, r)
    requires (e in s.workers && s.workers[e].Wrote?)
        || (r in s.reapers && s.reapers[r].entry == e && s.reapers[r].phase.Wrote?)
    ensures Fits(max, s1, j)
  {
    assert EntryOf(s, e, s.store.issued[e].id);
    OnlyEntry(s, e, s.store.issued[e].id);
    FitsPostpone(max, s, s1, j, e, runAt);
  }

  lemma FitsBegun(c: Config, max: int, s: System, j: JobId, e: EntryId)
    requires Fits(max, s, j) && Orderly(s) && Enabled(c, s, Start(e))
    ensures Fits(max, Step(c, s, Start(e)), j)
  {
    assert EntryOf(s, e, s.store.issued[e].id);
    OnlyEntry(s, e, s.store.issued[e].id);
    assert InStream(s, s.store.issued[e].id);
    FitsStart(max, s, j, e);
  }

  // A process ends the entry it holds or dies: nothing is left to run that was not before.
  lemma FitsGone(max: int, s: System, s1: System, j: JobId)
    requires Fits(max, s, j)
    requires s1.store.issued == s.store.issued && s1.store.live <= s.store.live && s1.store.cursor == s.store.cursor
    requires s1.store.delayed == s.store.delayed && s1.invoked == s.invoked && s1.added == s.added
    requires HasData(s1.store, j) ==> HasData(s.store, j) && s1.store.hashes[j].data == s.store.hashes[j].data
    requires forall e | e in s1.workers :: e in s.workers && s1.workers[e] == s.workers[e]
    requires forall r | r in s1.reapers :: r in s.reapers && s1.reapers[r] == s.reapers[r]
    ensures Fits(max, s1, j)
  {
    assert Aside(s, s1, j);
    FitsFrame(max, s, s1, j);
  }

  lemma FitsWorkerStep(c: Config, max: int, s: System, j: JobId, e: EntryId, a: Action, s1: System)
    requires Fits(max, s, j) && Orderly(s) && Enabled(c, s, a)
    requires ByWorker(a) && a.e == e && s1 == Step(c, s, a)
    ensures Fits(max, s1, j)
  {
    if a.Start? {
      FitsBegun(c, max, s, j, e);
    } else if a.Write? {
      FitsNoted(max, s, s1, j, e, 0, RunAt(Settling(s, e), a.now, a.random));
    } else if a.WriteRetry? {
      FitsWriteRetry(max, s, s1, j, e, 0, RunAt(Settling(s, e), a.now, a.random));
    } else if a.Retry? {
      FitsScript(max, s, s1, j, e, 0, s.workers[e].runAt);
    } else {
      FitsGone(max, s, s1, j);
    }
  }

  lemma FitsReaperRetry(c: Config, max: int, s: System, j: JobId, r: nat, e: EntryId, a: Action, s1: System)
    requires Fits(max, s, j) && Orderly(s) && Enabled(c, s, a) && s1 == Step(c, s, a)
    requires (a.ReaperWrite? || a.ReaperWriteRetry? || a.ReaperRetry?) && a.r == r && s.reapers[r].entry == e
    ensures Fits(max, s1, j)
  {
    if a.ReaperWrite? {
      FitsNoted(max, s, s1, j, e, r, RunAt(Settling(s, e), a.now, a.random));
    } else if a.ReaperWriteRetry? {
      FitsWriteRetry(max, s, s1, j, e, r, RunAt(Settling(s, e), a.now, a.random));
    } else {
      FitsScript(max, s, s1, j, e, r, s.reapers[r].phase.runAt);
    }
  }

  lemma FitsReaperStep(c: Config, max: int, s: System, j: JobId, r: nat, a: Action, s1: System)
    requires Fits(max, s, j) && Orderly(s) && Enabled(c, s, a)
    requires ByReaper(a) && a.r == r && s1 == Step(c, s, a)
    ensures Fits(max, s1, j)
  {
    if a.ReaperDie? || a.ReaperCrash? {
      FitsGone(max, s, s1, j);
    } else {
      FitsReaperRetry(c, max, s, j, r, s.reapers[r].entry, a, s1);
    }
  }

  lemma FitsFetch(max: int, s: System, s1: System, j: JobId)
    requires Fits(max, s, j) && s1 == Fetch(s)
    ensures Fits(max, s1, j)
  {
    assert Aside(s, s1, j);
    FitsFrame(max, s, s1, j);
  }

  lemma FitsClaimed(c: Config, max: int, s: System, s1: System, j: JobId, r: nat, e: EntryId)
    requires Fits(max, s, j) && s1 == Claimed(s, r, e, c.visibility)
    ensures Fits(max, s1, j)
  {
    assert Aside(s, s1, j);
    FitsFrame(max, s, s1, j);
  }

  // Other jobs' requeues leave job j alone.
  lemma FitsRequeue(max: int, s: System, s1: System, j: JobId, k: JobId)
    requires Fits(max, s, j) && k != j
    requires s.store.cursor <= |s.store.issued| && forall i | HasData(s.store, i) ::
        s.store.hashes[i].data.value.id == i
    requires forall e | e in s.workers :: e < |s.store.issued|
    requires s1.store == JobStore.Requeue(s.store, k) && s1.workers == s.workers && s1.reapers == s.reapers
    requires s1.invoked == s.invoked && s1.added == s.added
    ensures Fits(max, s1, j)
  {
    assert Aside(s, s1, j);
    FitsFrame(max, s, s1, j);
  }

  lemma FitsBystander(c: Config, max: int, s: System, s1: System, j: JobId, a: Action)
    requires Fits(max, s, j) && Orderly(s) && Enabled(c, s, a) && s1 == Step(c, s, a)
    requires (a.Requeue? && a.j != j) || a.Expire? || a.Tick?
    ensures Fits(max, s1, j)
  {
    if a.Requeue? {
      FitsRequeue(max, s, s1, j, a.j);
    } else {
      FitsGone(max, s, s1, j);
    }
  }

  lemma FitsStep(c: Config, max: int, s: System, j: JobId, a: Action)
    requires Fits(max, s, j) && Orderly(s) && Enabled(c, s, a) && UndisturbedOnce(j, max, s, a)
    ensures Fits(max, Step(c, s, a), j)
  {
    if ByWorker(a) {
      FitsWorkerStep(c, max, s, j, a.e, a, Step(c, s, a));
    } else if ByReaper(a) {
      FitsReaperStep(c, max, s, j, a.r, a, Step(c, s, a));
    } else if a.Add? {
      FitsAdd(c, max, s, j, a.job, Step(c, s, a));
    } else if a.Move? {
      DueMembers(s.store.delayed, a.now, a.limit);
      FitsMove(max, s, j, Due(s.store.delayed, a.now, a.limit));
    } else if a.Read? {
      FitsFetch(max, s, Step(c, s, a), j);
    } else if a.ReaperClaim? {
      FitsClaimed(c, max, s, Step(c, s, a), j, a.r, a.e);
    } else {
      FitsBystander(c, max, s, Step(c, s, a), j, a);
    }
  }

  lemma LimitKept(c: Config, max: int, j: JobId, acts: seq<Action>, t: System)
    requires Exec(c, (x, a) => UndisturbedOnce(j, max, x, a), INIT, acts, t)
    ensures t.invoked[j] <= AtLeastOne(max)
  {
    OrderlyInit();
    assert forall e: EntryId :: !EntryOf(INIT, e, j);
    forall x, a | Enabled(c, x, a) && UndisturbedOnce(j, max, x, a) && Orderly(x) && Fits(max, x, j)
      ensures Orderly(Step(c, x, a)) && Fits(max, Step(c, x, a), j)
    {
      FitsStep(c, max, x, j, a);
      OrderlyStep(c, x, a);
    }
    ExecKeeps(c, (x, a) => UndisturbedOnce(j, max, x, a), x => Orderly(x) && Fits(max, x, j), INIT, acts, t);
  }
}
