/** Runs in which no reaper claims an entry somebody is still working on: every job is in exactly one place and its hash
    names that place, after every step and also in the middle of a retry. A holder may be as slow as it likes; only a
    claim of what it holds would do harm. */
module JobPlaces {
  import opened Wrappers
  import opened JobStore
  import opened JobProtocol

  // Some process is working on entry e.
  ghost predicate Held(s: System, e: EntryId) {
    e in s.workers || exists r :: r in s.reapers && s.reapers[r].entry == e
  }

  /** A reaper claims only entries nobody is working on; job ids are fresh; only dead jobs are requeued. */
  ghost predicate Undisturbed(s: System, a: Action) {
    && (a.ReaperClaim? ==> !Held(s, a.e))
    && (a.Add? ==> a.job.id !in s.added)
    && (a.Requeue? ==> a.j in s.ending && s.ending[a.j] == EndedDead)
  }

  ghost predicate EntryOf(s: System, e: EntryId, j: JobId) {
    e in s.store.live && e < |s.store.issued| && s.store.issued[e].id == j
  }

  ghost predicate InStream(s: System, j: JobId) {
    exists e :: EntryOf(s, e, j)
  }

  // Who may hold what: pending entries are the delivered live ones, and each has at most one holder.
  ghost predicate Owned(s: System) {
    && s.store.cursor <= |s.store.issued|
    && (forall e | e in s.store.live :: e < |s.store.issued| && (e < s.store.cursor ==> e in s.store.pel))
    && (forall e | e in s.store.pel :: e in s.store.live && e < s.store.cursor)
    && (forall e | e in s.workers :: e in s.store.pel)
    && (forall r | r in s.reapers :: s.reapers[r].entry in s.store.pel)
    && (forall r | r in s.reapers :: s.reapers[r].entry !in s.workers)
    && (forall r, q | r in s.reapers && q in s.reapers && r != q :: s.reapers[r].entry != s.reapers[q].entry)
  }

  // At most one place for each job.
  ghost predicate Single(s: System) {
    && (forall e, f | e in s.store.live && f in s.store.live && e < |s.store.issued| && f < |s.store.issued|
        && e != f ::
          s.store.issued[e].id != s.store.issued[f].id)
    && (forall j | InStream(s, j) :: j in s.added && j !in s.store.delayed && j !in s.ending)
    && (forall j | j in s.store.delayed :: j in s.added && j !in s.ending)
    && (forall j | j in s.ending :: j in s.added)
    && (forall j | HasData(s.store, j) :: j in s.added && s.store.hashes[j].data.value.id == j)
  }

  ghost predicate Logged(s: System, j: JobId) {
    exists k :: 0 <= k < |s.store.dlq| && s.store.dlq[k].id == j
  }

  // The place of a job whose hash has not expired, and the state its hash shows.
  ghost predicate Placed(s: System, j: JobId) {
    && HasData(s.store, j)
    && (InStream(s, j) || j in s.store.delayed || j in s.ending)
    && (InStream(s, j) ==> s.store.hashes[j].state == Some(Waiting))
    && (j in s.store.delayed ==> s.store.hashes[j].state == Some(Delayed))
    && (j in s.ending ==> s.store.hashes[j].state == Some(if s.ending[j].EndedCompleted? then Completed else Dead))
    && (j in s.ending && s.ending[j].EndedDead? ==> Logged(s, j))
  }

  ghost predicate Orderly(s: System) {
    && Owned(s) && Single(s)
    && forall j | j in s.added && j !in s.expired :: Placed(s, j)
  }

  // ---- steps ----

  lemma SameStream(s: System, s1: System)
    requires s1.store.issued == s.store.issued && s1.store.live == s.store.live
    ensures forall j :: InStream(s1, j) <==> InStream(s, j)
  {
    assert forall e, j :: EntryOf(s1, e, j) <==> EntryOf(s, e, j);
  }

  // A step that keeps the store but for pending times, and gives out no new holds.
  lemma OrderlyFrame(s: System, s1: System)
    requires Orderly(s) && Owned(s1)
    requires s1.store.issued == s.store.issued && s1.store.live == s.store.live && s1.store.delayed == s.store.delayed
    requires s1.store.hashes == s.store.hashes && s1.store.dlq == s.store.dlq
    requires s1.ending == s.ending && s1.added == s.added && s1.expired == s.expired
    ensures Orderly(s1)
  {
    SameStream(s, s1);
    forall j | j in s1.added && j !in s1.expired ensures Placed(s1, j) {
      assert Placed(s, j);
    }
  }

  lemma OwnedFetch(s: System)
    requires Owned(s)
    ensures Owned(Fetch(s))
  {
  }

  lemma OrderlyFetch(s: System, s1: System)
    requires Orderly(s) && s1 == Fetch(s)
    ensures Orderly(s1)
  {
    OwnedFetch(s);
    OrderlyFrame(s, s1);
  }

  lemma OrderlyClaimed(c: Config, s: System, r: nat, e: EntryId)
    requires Orderly(s) && Enabled(c, s, ReaperClaim(r, e)) && !Held(s, e)
    ensures Orderly(Claimed(s, r, e, c.visibility))
  {
    OrderlyFrame(s, Claimed(s, r, e, c.visibility));
  }

  lemma OrderlyTick(c: Config, s: System, dt: real)
    requires Orderly(s) && Enabled(c, s, Tick(dt))
    ensures Orderly(Step(c, s, Tick(dt)))
  {
    OrderlyFrame(s, Step(c, s, Tick(dt)));
  }

  // The HSET of the retry path changes neither a place nor the state naming it.
  lemma OrderlyNote(s: System, e: EntryId, runAt: real)
    requires Orderly(s) && e in s.store.pel
    ensures Orderly(Note(s, e, runAt))
  {
    var s1 := Note(s, e, runAt);
    SameStream(s, s1);
    assert EntryOf(s, e, s.store.issued[e].id);
    forall j | j in s1.added && j !in s1.expired ensures Placed(s1, j) {
      assert Placed(s, j);
    }
  }

  // s1 is s with entry e gone from the stream and from everybody's hands.
  ghost predicate Released(s: System, s1: System, e: EntryId) {
    && e in s.store.pel
    && s1.clock == s.clock && s1.store.issued == s.store.issued && s1.store.cursor == s.store.cursor
    && s1.store.live == s.store.live - {e} && s1.store.pel == s.store.pel - {e}
    && (forall f | f in s1.workers :: f in s.workers && f != e)
    && (forall r | r in s1.reapers :: r in s.reapers && s1.reapers[r].entry == s.reapers[r].entry != e)
    && s1.added == s.added && s1.expired == s.expired
  }

  lemma Leaves(s: System, s1: System, e: EntryId)
    requires Orderly(s) && Released(s, s1, e)
    ensures InStream(s, s.store.issued[e].id)
    ensures !InStream(s1, s.store.issued[e].id)
    ensures forall j | j != s.store.issued[e].id :: InStream(s1, j) <==> InStream(s, j)
  {
    var j := s.store.issued[e].id;
    assert EntryOf(s, e, j);
    forall f, k | EntryOf(s1, f, k) ensures EntryOf(s, f, k) && k != j {
      assert f != e;
    }
    forall k | k != j && InStream(s, k) ensures InStream(s1, k) {
      var f :| EntryOf(s, f, k);
      assert EntryOf(s1, f, k);
    }
  }

  // s1 is s with the job of entry e ended.
  ghost predicate EndedAs(s: System, s1: System, e: EntryId, how: Ending, attempts: Option<nat>) {
    && Released(s, s1, e) && e < |s.store.issued|
    && var j := s.store.issued[e].id;
    && s1.ending == s.ending[j := how] && s1.store.delayed == s.store.delayed
    && s1.store.dlq == (if how.EndedDead? then s.store.dlq + [Settling(s, e).(state := Dead)] else s.store.dlq)
    && s1.store.hashes == s.store.hashes[j := HashOf(s.store.hashes, j).(
         state := Some(if how.EndedCompleted? then Completed else Dead), attempts := attempts)]
  }

  lemma LoggedEnd(s: System, s1: System, e: EntryId, how: Ending, attempts: Option<nat>, k: JobId)
    requires EndedAs(s, s1, e, how, attempts)
    ensures Logged(s, k) ==> Logged(s1, k)
    ensures how.EndedDead? ==> Logged(s1, s.store.issued[e].id)
  {
    if i :| 0 <= i < |s.store.dlq| && s.store.dlq[i].id == k {
      assert s1.store.dlq[i].id == k;
    }
    if how.EndedDead? {
      assert s1.store.dlq[|s.store.dlq|].id == s.store.issued[e].id;
    }
  }

  lemma SingleEnd(s: System, s1: System, e: EntryId, how: Ending, attempts: Option<nat>)
    requires Orderly(s) && EndedAs(s, s1, e, how, attempts)
    ensures Single(s1)
  {
    Leaves(s, s1, e);
  }

  lemma OrderlyEnd(s: System, s1: System, e: EntryId, how: Ending, attempts: Option<nat>)
    requires Orderly(s) && EndedAs(s, s1, e, how, attempts)
    ensures Orderly(s1)
  {
    SingleEnd(s, s1, e, how, attempts);
    forall k | k in s1.added && k !in s1.expired ensures Placed(s1, k) {
      PlacedEnd(s, s1, e, how, attempts, k);
    }
  }

  lemma PlacedEnd(s: System, s1: System, e: EntryId, how: Ending, attempts: Option<nat>, k: JobId)
    requires Orderly(s) && EndedAs(s, s1, e, how, attempts) && k in s1.added && k !in s1.expired
    ensures Placed(s1, k)
  {
    assert Placed(s, k);
    Leaves(s, s1, e);
    LoggedEnd(s, s1, e, how, attempts, k);
  }

  ghost predicate PostponedAs(s: System, s1: System, e: EntryId, runAt: real) {
    Released(s, s1, e) && e < |s.store.issued| && s1.store == Postpone(s, e, runAt).store && s1.ending == s.ending
  }

  lemma SinglePostpone(s: System, s1: System, e: EntryId, runAt: real)
    requires Orderly(s) && PostponedAs(s, s1, e, runAt)
    ensures Single(s1)
  {
    Leaves(s, s1, e);
  }

  lemma PlacedPostpone(s: System, s1: System, e: EntryId, runAt: real, k: JobId)
    requires Orderly(s) && PostponedAs(s, s1, e, runAt) && k in s1.added && k !in s1.expired
    ensures Placed(s1, k)
  {
    assert Placed(s, k);
    Leaves(s, s1, e);
    assert Logged(s, k) ==> Logged(s1, k);
  }

  lemma OrderlyPostpone(s: System, s1: System, e: EntryId, runAt: real)
    requires Orderly(s) && PostponedAs(s, s1, e, runAt)
    ensures Orderly(s1)
  {
    SinglePostpone(s, s1, e, runAt);
    forall k | k in s1.added && k !in s1.expired ensures Placed(s1, k) {
      PlacedPostpone(s, s1, e, runAt, k);
    }
  }

  // Appending the only entry of job j.
  lemma OrderlyAppend(s: System, s1: System, job: Job)
    requires Orderly(s) && !InStream(s, job.id)
    requires s1.store.issued == s.store.issued + [job] && s1.store.live == s.store.live + {|s.store.issued|}
    requires s1.store.cursor == s.store.cursor && s1.store.pel == s.store.pel && s1.clock == s.clock
    requires s1.workers == s.workers && s1.reapers == s.reapers
    ensures Owned(s1)
    ensures InStream(s1, job.id)
    ensures forall j | j != job.id :: InStream(s1, j) <==> InStream(s, j)
    ensures forall e, f | e in s1.store.live && f in s1.store.live && e < |s1.store.issued| && f < |s1.store.issued|
        && e != f ::
              s1.store.issued[e].id != s1.store.issued[f].id
  {
    var n := |s.store.issued|;
    assert EntryOf(s1, n, job.id);
    assert forall e: EntryId, j: JobId | e < n :: EntryOf(s1, e, j) <==> EntryOf(s, e, j);
    assert forall e: EntryId, j: JobId | EntryOf(s1, e, j) && e >= n :: j == job.id;
    forall j | j != job.id && InStream(s, j) ensures InStream(s1, j) {
      var e :| EntryOf(s, e, j);
      assert EntryOf(s1, e, j);
    }
    forall e | e in s.store.live ensures s.store.issued[e].id != job.id {
      assert EntryOf(s, e, s.store.issued[e].id);
    }
  }

  lemma OrderlyPromoteLive(s: System, j: JobId)
    requires Orderly(s) && j in s.store.delayed && HasData(s.store, j)
    ensures Orderly(s.(store := Promote(s.store, j)))
  {
    var s1 := s.(store := Promote(s.store, j));
    OrderlyAppend(s, s1, s.store.hashes[j].data.value);
    forall k | k in s1.added && k !in s1.expired ensures Placed(s1, k) {
      assert Placed(s, k);
      assert Logged(s, k) ==> Logged(s1, k);
    }
  }

  lemma OrderlyPromoteGone(s: System, j: JobId)
    requires Orderly(s) && j in s.store.delayed && !HasData(s.store, j)
    ensures Orderly(s.(store := Promote(s.store, j)))
  {
    var s1 := s.(store := Promote(s.store, j));
    SameStream(s, s1);
    forall k | k in s1.added && k !in s1.expired ensures Placed(s1, k) {
      assert Placed(s, k);
      assert Logged(s, k) ==> Logged(s1, k);
    }
  }

  lemma {:induction false} OrderlyMove(s: System, js: seq<JobId>, s1: System)
    requires Orderly(s)
    requires Distinct(js) && forall j | j in js :: j in s.store.delayed
    requires s1 == s.(store := PromoteAll(s.store, js))
    ensures Orderly(s1)
    decreases |js|
  {
    if js == [] {
      assert s1 == s;
    } else {
      var mid := s.(store := PromoteAll(s.store, js[..|js| - 1]));
      OrderlyMove(s, js[..|js| - 1], mid);
      PromoteAllRemoves(s.store, js[..|js| - 1]);
      if HasData(mid.store, js[|js| - 1]) {
        OrderlyPromoteLive(mid, js[|js| - 1]);
      } else {
        OrderlyPromoteGone(mid, js[|js| - 1]);
      }
      assert s1 == mid.(store := Promote(mid.store, js[|js| - 1]));
    }
  }

  // A new job and nothing else: it is scheduled or enqueued.
  ghost predicate AddedAs(s: System, s1: System, job: Job) {
    && s1.store == Enqueue(s.store, job) && s1.clock == s.clock && s1.workers == s.workers && s1.reapers == s.reapers
    && s1.added == s.added + {job.id} && s1.expired == s.expired - {job.id} && s1.ending == s.ending - {job.id}
  }

  lemma PlacedBefore(s: System, s1: System, job: Job, k: JobId)
    requires AddedAs(s, s1, job) && Placed(s, k) && k != job.id && (InStream(s1, k) <==> InStream(s, k))
    ensures Placed(s1, k)
  {
    assert Logged(s, k) ==> Logged(s1, k);
  }

  // The fresh job's own place.
  lemma PlacedNew(s: System, s1: System, job: Job)
    requires Orderly(s) && AddedAs(s, s1, job) && job.id !in s.added
    requires job.state == if IsScheduled(job) then Delayed else Waiting
    requires InStream(s1, job.id) <==> !IsScheduled(job)
    ensures Placed(s1, job.id)
  {
  }

  lemma OrderlySchedule(s: System, s1: System, job: Job)
    requires Orderly(s) && AddedAs(s, s1, job) && IsScheduled(job) && job.state == Delayed && job.id !in s.added
    ensures Orderly(s1)
  {
    SameStream(s, s1);
    PlacedNew(s, s1, job);
    forall k | k in s1.added && k !in s1.expired && k != job.id ensures Placed(s1, k) {
      PlacedBefore(s, s1, job, k);
    }
  }

  lemma OrderlyEnqueue(s: System, s1: System, job: Job)
    requires Orderly(s) && AddedAs(s, s1, job) && !IsScheduled(job) && job.state == Waiting && job.id !in s.added
    ensures Orderly(s1)
  {
    OrderlyAppend(s, s1, job);
    PlacedNew(s, s1, job);
    forall k | k in s1.added && k !in s1.expired && k != job.id ensures Placed(s1, k) {
      PlacedBefore(s, s1, job, k);
    }
  }

  lemma OrderlyAdd(c: Config, s: System, job: Job, s1: System)
    requires Orderly(s) && Enabled(c, s, Add(job)) && job.id !in s.added && s1 == Step(c, s, Add(job))
    ensures Orderly(s1)
  {
    if IsScheduled(job) {
      OrderlySchedule(s, s1, job);
    } else {
      OrderlyEnqueue(s, s1, job);
    }
  }

  lemma OrderlyRequeue(c: Config, s: System, j: JobId)
    requires Orderly(s) && j in s.ending
    ensures Orderly(Step(c, s, Action.Requeue(j)))
  {
    if HasData(s.store, j) {
      var s1 := Step(c, s, Action.Requeue(j));
      OrderlyAppend(s, s1, Requeued(s.store.hashes[j].data.value));
      forall k | k in s1.added && k !in s1.expired ensures Placed(s1, k) {
        assert Placed(s, k);
        assert Logged(s, k) ==> Logged(s1, k);
      }
    }
  }

  lemma OrderlyExpire(c: Config, s: System, j: JobId)
    requires Orderly(s)
    ensures Orderly(Step(c, s, Expire(j)))
  {
    var s1 := Step(c, s, Expire(j));
    SameStream(s, s1);
    forall k | k in s1.added && k !in s1.expired ensures Placed(s1, k) {
      assert Placed(s, k);
      assert Logged(s, k) ==> Logged(s1, k);
    }
  }

  // s1 is s with the holder of entry e, the worker or reaper r, done with it.
  ghost predicate LetGo(s: System, s1: System, e: EntryId, r: nat) {
    || (e in s.workers && s1 == DropWorker(s, e))
    || (r in s.reapers && s.reapers[r].entry == e && s1 == DropReaper(s, r))
  }

  lemma OrderlyWriteRetry(s: System, s1: System, e: EntryId, r: nat, runAt: real)
    requires Orderly(s) && e in s.store.pel
    requires LetGo(Postpone(Note(s, e, runAt), e, runAt), s1, e, r)
    ensures Orderly(s1)
  {
    OrderlyNote(s, e, runAt);
    OrderlyPostpone(Note(s, e, runAt), s1, e, runAt);
  }

  lemma OrderlyWrite(s: System, s1: System, e: EntryId, runAt: real)
    requires Orderly(s) && e in s.store.pel
    requires s1 == Note(s, e, runAt).(workers := s1.workers, reapers := s1.reapers)
    requires s1.workers.Keys <= s.workers.Keys && s1.reapers.Keys <= s.reapers.Keys
    requires forall r | r in s1.reapers :: s1.reapers[r].entry == s.reapers[r].entry
    ensures Orderly(s1)
  {
    OrderlyNote(s, e, runAt);
    OrderlyFrame(Note(s, e, runAt), s1);
  }

  lemma OrderlyWorkerRetry(c: Config, s: System, e: EntryId, a: Action, s1: System)
    requires Orderly(s) && Enabled(c, s, a) && s1 == Step(c, s, a)
    requires (a.Write? || a.WriteRetry? || a.Retry?) && a.e == e
    ensures Orderly(s1)
  {
    if a.Write? {
      OrderlyWrite(s, s1, e, RunAt(Settling(s, e), a.now, a.random));
    } else if a.WriteRetry? {
      OrderlyWriteRetry(s, s1, e, 0, RunAt(Settling(s, e), a.now, a.random));
    } else {
      OrderlyPostpone(s, s1, e, s.workers[e].runAt);
    }
  }

  lemma OrderlyWorkerEnd(c: Config, s: System, e: EntryId, a: Action, s1: System)
    requires Orderly(s) && Enabled(c, s, a) && s1 == Step(c, s, a)
    requires (a.Start? || a.Complete? || a.Die? || a.Crash?) && a.e == e
    ensures Orderly(s1)
  {
    if a.Complete? {
      OrderlyEnd(s, s1, e, EndedCompleted, HashOf(s.store.hashes, s.store.issued[e].id).attempts);
    } else if a.Die? {
      OrderlyEnd(s, s1, e, EndedDead, Some(Settling(s, e).attempts));
    } else {
      OrderlyFrame(s, s1);
    }
  }

  lemma OrderlyReaperRetry(c: Config, s: System, r: nat, e: EntryId, a: Action, s1: System)
    requires Orderly(s) && Enabled(c, s, a) && s1 == Step(c, s, a)
    requires (a.ReaperWrite? || a.ReaperWriteRetry? || a.ReaperRetry?) && a.r == r && s.reapers[r].entry == e
    ensures Orderly(s1)
  {
    if a.ReaperWrite? {
      OrderlyWrite(s, s1, e, RunAt(Settling(s, e), a.now, a.random));
    } else if a.ReaperWriteRetry? {
      OrderlyWriteRetry(s, s1, e, r, RunAt(Settling(s, e), a.now, a.random));
    } else {
      OrderlyPostpone(s, s1, e, s.reapers[r].phase.runAt);
    }
  }

  lemma OrderlyReaperEnd(c: Config, s: System, r: nat, e: EntryId, a: Action, s1: System)
    requires Orderly(s) && Enabled(c, s, a) && s1 == Step(c, s, a)
    requires (a.ReaperDie? || a.ReaperCrash?) && a.r == r && s.reapers[r].entry == e
    ensures Orderly(s1)
  {
    if a.ReaperDie? {
      OrderlyEnd(s, s1, e, EndedDead, Some(Settling(s, e).attempts));
    } else {
      OrderlyFrame(s, s1);
    }
  }

  lemma OrderlyStep(c: Config, s: System, a: Action)
    requires Orderly(s) && Enabled(c, s, a) && Undisturbed(s, a)
    ensures Orderly(Step(c, s, a))
  {
    var s1 := Step(c, s, a);
    if a.Write? || a.WriteRetry? || a.Retry? {
      OrderlyWorkerRetry(c, s, a.e, a, s1);
    } else if ByWorker(a) {
      OrderlyWorkerEnd(c, s, a.e, a, s1);
    } else if a.ReaperWrite? || a.ReaperWriteRetry? || a.ReaperRetry? {
      OrderlyReaperRetry(c, s, a.r, s.reapers[a.r].entry, a, s1);
    } else if ByReaper(a) {
      OrderlyReaperEnd(c, s, a.r, s.reapers[a.r].entry, a, s1);
    } else if a.Add? {
      OrderlyAdd(c, s, a.job, s1);
    } else if a.Read? {
      OrderlyFetch(s, Step(c, s, a));
    } else if a.ReaperClaim? {
      OrderlyClaimed(c, s, a.r, a.e);
    } else if a.Move? {
      DueMembers(s.store.delayed, a.now, a.limit);
      OrderlyMove(s, Due(s.store.delayed, a.now, a.limit), Step(c, s, a));
    } else if a.Requeue? {
      OrderlyRequeue(c, s, a.j);
    } else if a.Expire? {
      OrderlyExpire(c, s, a.j);
    } else {
      OrderlyTick(c, s, a.dt);
    }
  }

  // ---- exactly one place ----

  ghost function EntriesOf(s: System, j: JobId): set<EntryId> {
    set e: EntryId | e in s.store.live && EntryOf(s, e, j)
  }

  ghost function PlaceCount(s: System, j: JobId): nat {
    |EntriesOf(s, j)| + (if j in s.store.delayed then 1 else 0) + (if j in s.ending then 1 else 0)
  }

  lemma OneEntry(s: System, j: JobId)
    requires Orderly(s)
    ensures |EntriesOf(s, j)| == if InStream(s, j) then 1 else 0
  {
    if InStream(s, j) {
      var e: EntryId :| EntryOf(s, e, j);
      assert forall f | f in EntriesOf(s, j) :: f == e;
      assert EntriesOf(s, j) == {e};
    } else {
      assert EntriesOf(s, j) == {};
    }
  }

  ghost predicate NamesPlace(s: System, j: JobId, state: JobState) {
    match state
    case Waiting => InStream(s, j)
    case Delayed => j in s.store.delayed
    case Completed => j in s.ending && s.ending[j] == EndedCompleted
    case Dead => j in s.ending && s.ending[j] == EndedDead && Logged(s, j)
    case Active => false
  }

  lemma OrderlyPlace(t: System, j: JobId)
    requires Orderly(t) && j in t.added && j !in t.expired
    ensures PlaceCount(t, j) == 1
    ensures HasData(t.store, j) && t.store.hashes[j].state.Some?
    ensures forall state :: NamesPlace(t, j, state) <==> t.store.hashes[j].state == Some(state)
  {
    assert Placed(t, j);
    OneEntry(t, j);
  }

  lemma OrderlyInit()
    ensures Orderly(INIT)
  {
    assert forall e: EntryId, j: JobId :: !EntryOf(INIT, e, j);
  }

  /** After every step of an undisturbed run, even in the middle of a retry: one place, and the hash names it. */
  lemma ExactlyOnePlace(c: Config, acts: seq<Action>, t: System, j: JobId)
    requires Exec(c, (x, a) => Undisturbed(x, a), INIT, acts, t)
    requires j in t.added && j !in t.expired
    ensures PlaceCount(t, j) == 1
    ensures HasData(t.store, j) && t.store.hashes[j].state.Some?
    ensures forall state :: NamesPlace(t, j, state) <==> t.store.hashes[j].state == Some(state)
  {
    OrderlyInit();
    forall x, a | Enabled(c, x, a) && Undisturbed(x, a) && Orderly(x) ensures Orderly(Step(c, x, a)) {
      OrderlyStep(c, x, a);
    }
    ExecKeeps(c, (x, a) => Undisturbed(x, a), x => Orderly(x), INIT, acts, t);
    OrderlyPlace(t, j);
  }
}
