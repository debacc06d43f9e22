/** No job is lost. */
module JobNoLoss {
  // Whatever the interleaving of slow workers, crashes, reapers and schedulers, a job whose hash has not expired is in
  // the stream, is in the delayed zset, or has been completed or dead-lettered since it was last added or requeued.

  import opened Wrappers
  import opened JobStore
  import opened JobProtocol

  // An entry that will still be worked on: not yet delivered, or pending so that a reaper can claim it.
  ghost predicate EntryFor(st: Store, e: EntryId, j: JobId) {
    e in st.live && e < |st.issued| && st.issued[e].id == j && (st.cursor <= e || e in st.pel)
  }

  ghost predicate InStream(st: Store, j: JobId) {
    exists e :: EntryFor(st, e, j)
  }

  ghost predicate Kept(s: System, j: JobId) {
    HasData(s.store, j) && (InStream(s.store, j) || j in s.store.delayed || j in s.ending)
  }

  ghost predicate Sound(st: Store) {
    && st.cursor <= |st.issued|
    && forall j | HasData(st, j) :: st.hashes[j].data.value.id == j
  }

  ghost predicate Safe(s: System) {
    && Sound(s.store)
    && forall j | j in s.added && j !in s.expired :: Kept(s, j)
  }

  lemma XAddKeeps(st: Store, job: Job)
    requires st.cursor <= |st.issued|
    ensures EntryFor(XAdd(st, job), |st.issued|, job.id)
    ensures forall e, j :: EntryFor(st, e, j) ==> EntryFor(XAdd(st, job), e, j)
    ensures forall j :: InStream(st, j) ==> InStream(XAdd(st, job), j)
  {
    forall j | InStream(st, j) ensures InStream(XAdd(st, job), j) {
      var e :| EntryFor(st, e, j);
      assert EntryFor(XAdd(st, job), e, j);
    }
  }

  // Deleting an entry can only take its own job out of the stream.
  lemma DeleteKeeps(st: Store, st1: Store, e: EntryId, j: JobId)
    requires e < |st.issued| && st1.issued == st.issued && st1.live == st.live - {e}
    requires st1.cursor == st.cursor && st1.pel == st.pel - {e}
    requires InStream(st, j) && st.issued[e].id != j
    ensures InStream(st1, j)
  {
    var i :| EntryFor(st, i, j);
    assert EntryFor(st1, i, j);
  }

  lemma SafePromote(s: System, j: JobId)
    requires Safe(s)
    ensures Safe(s.(store := Promote(s.store, j)))
  {
    var s1 := s.(store := Promote(s.store, j));
    if HasData(s.store, j) {
      var data := s.store.hashes[j].data.value;
      var st1 := s.store.(delayed := s.store.delayed - {j},
                          hashes := s.store.hashes[j := s.store.hashes[j].(state := Some(Waiting))]);
      assert s1.store == XAdd(st1, data);
      XAddKeeps(st1, data);
      assert forall k :: InStream(s.store, k) ==> InStream(st1, k) by {
        forall k | InStream(s.store, k) ensures InStream(st1, k) {
          var e :| EntryFor(s.store, e, k);
          assert EntryFor(st1, e, k);
        }
      }
      assert InStream(s1.store, j);
    } else {
      assert forall e, k :: EntryFor(s.store, e, k) <==> EntryFor(s1.store, e, k);
    }
  }

  lemma {:induction false} SafePromoteAll(s: System, js: seq<JobId>)
    requires Safe(s)
    ensures Safe(s.(store := PromoteAll(s.store, js)))
    decreases |js|
  {
    if js == [] {
      assert s.(store := PromoteAll(s.store, js)) == s;
    } else {
      var s1 := s.(store := PromoteAll(s.store, js[..|js| - 1]));
      SafePromoteAll(s, js[..|js| - 1]);
      SafePromote(s1, js[|js| - 1]);
    }
  }

  // Settling entry e: the job it belongs to ends or is delayed, every other job keeps what it had.
  lemma SafeSettle(s: System, s1: System, e: EntryId)
    requires Safe(s) && Sound(s1.store)
    requires e < |s.store.issued| && s1.store.issued == s.store.issued && s1.store.live == s.store.live - {e}
    requires s1.store.cursor == s.store.cursor && s1.store.pel == s.store.pel - {e}
    requires s.store.delayed.Keys <= s1.store.delayed.Keys && s.ending.Keys <= s1.ending.Keys
    requires s1.added == s.added && s1.expired == s.expired
    requires forall j | HasData(s.store, j) :: HasData(s1.store, j)
    requires s.store.issued[e].id in s1.ending || s.store.issued[e].id in s1.store.delayed
    ensures Safe(s1)
  {
    forall j | j in s1.added && j !in s1.expired ensures Kept(s1, j) {
      assert Kept(s, j);
      if j != s.store.issued[e].id && InStream(s.store, j) {
        DeleteKeeps(s.store, s1.store, e, j);
      }
    }
  }

  // A step that keeps the stream, the zset and the data of every live hash.
  lemma SafeFrame(s: System, s1: System)
    requires Safe(s) && Sound(s1.store)
    requires forall e, j | EntryFor(s.store, e, j) :: EntryFor(s1.store, e, j)
    requires s1.store.delayed == s.store.delayed && s1.ending == s.ending && s1.added == s.added
    requires s.expired <= s1.expired
    requires forall j | HasData(s.store, j) && j !in s1.expired :: HasData(s1.store, j)
    ensures Safe(s1)
  {
    forall j | j in s1.added && j !in s1.expired ensures Kept(s1, j) {
      assert Kept(s, j);
      if InStream(s.store, j) {
        var e :| EntryFor(s.store, e, j);
        assert EntryFor(s1.store, e, j);
      }
    }
  }

  lemma SafeAdd(c: Config, s: System, job: Job)
    requires Safe(s) && Enabled(c, s, Add(job))
    ensures Safe(Step(c, s, Add(job)))
  {
    var s1 := Step(c, s, Add(job));
    var st1 := s.store.(hashes := s.store.hashes[job.id := Hash(Some(job.state), Some(job.attempts), Some(job))]);
    assert forall e, j :: EntryFor(s.store, e, j) <==> EntryFor(st1, e, j);
    XAddKeeps(st1, job);
    if IsScheduled(job) {
      assert forall e, j :: EntryFor(s.store, e, j) <==> EntryFor(s1.store, e, j);
    }
    forall j | j in s1.added && j !in s1.expired ensures Kept(s1, j) {
      if j != job.id {
        assert Kept(s, j);
        if InStream(s.store, j) {
          var e :| EntryFor(s.store, e, j);
          assert EntryFor(s1.store, e, j);
        }
      }
    }
  }

  lemma SafeRequeue(c: Config, s: System, j: JobId)
    requires Safe(s)
    ensures Safe(Step(c, s, Action.Requeue(j)))
  {
    if HasData(s.store, j) {
      var s1 := Step(c, s, Action.Requeue(j));
      assert EntryFor(s1.store, |s.store.issued|, j);
      forall k | k in s1.added && k !in s1.expired ensures Kept(s1, k) {
        assert Kept(s, k);
        if InStream(s.store, k) {
          var e :| EntryFor(s.store, e, k);
          assert EntryFor(s1.store, e, k);
        }
      }
    }
  }

  lemma SafeFetch(s: System)
    requires Safe(s)
    ensures Safe(Fetch(s))
  {
    SafeFrame(s, Fetch(s));
  }

  lemma SafeClaimed(s: System, r: nat, e: EntryId, minIdle: real)
    requires Safe(s)
    ensures Safe(Claimed(s, r, e, minIdle))
  {
    SafeFrame(s, Claimed(s, r, e, minIdle));
  }

  lemma SafeNote(s: System, e: EntryId, runAt: real)
    requires Safe(s) && e < |s.store.issued|
    ensures Safe(Note(s, e, runAt))
  {
    SafeFrame(s, Note(s, e, runAt));
  }

  lemma SafePostpone(s: System, e: EntryId, runAt: real)
    requires Safe(s) && e < |s.store.issued|
    ensures Safe(Postpone(s, e, runAt))
  {
    SafeSettle(s, Postpone(s, e, runAt), e);
  }

  lemma SafeBury(s: System, e: EntryId)
    requires Safe(s) && e < |s.store.issued|
    ensures Safe(Bury(s, e))
  {
    SafeSettle(s, Bury(s, e), e);
  }

  lemma SafeFinish(s: System, e: EntryId)
    requires Safe(s) && e < |s.store.issued|
    ensures Safe(Finish(s, e))
  {
    SafeSettle(s, Finish(s, e), e);
  }

  lemma SafeExpire(s: System, j: JobId)
    requires Safe(s)
    ensures Safe(s.(store := JobStore.Expire(s.store, j), expired := s.expired + {j}))
  {
    SafeFrame(s, s.(store := JobStore.Expire(s.store, j), expired := s.expired + {j}));
  }

  lemma SafeStep(c: Config, s: System, a: Action)
    requires Safe(s) && Enabled(c, s, a)
    ensures Safe(Step(c, s, a))
  {
    match a
    case Add(job) => SafeAdd(c, s, job);
    case Read => SafeFetch(s);
    case Complete(e) => SafeFinish(s, e);
    case Die(e) => SafeBury(s, e);
    case Write(e, now, random) => SafeNote(s, e, RunAt(Settling(s, e), now, random));
    case Retry(e) => SafePostpone(s, e, s.workers[e].runAt);
    case WriteRetry(e, now, random) =>
      var runAt := RunAt(Settling(s, e), now, random);
      SafeNote(s, e, runAt);
      SafePostpone(Note(s, e, runAt), e, runAt);
    case ReaperClaim(r, e) => SafeClaimed(s, r, e, c.visibility);
    case ReaperDie(r) => SafeBury(s, s.reapers[r].entry);
    case ReaperWrite(r, now, random) =>
      var e := s.reapers[r].entry;
      SafeNote(s, e, RunAt(Settling(s, e), now, random));
    case ReaperRetry(r) => SafePostpone(s, s.reapers[r].entry, s.reapers[r].phase.runAt);
    case ReaperWriteRetry(r, now, random) =>
      var e := s.reapers[r].entry;
      var runAt := RunAt(Settling(s, e), now, random);
      SafeNote(s, e, runAt);
      SafePostpone(Note(s, e, runAt), e, runAt);
    case Move(now, limit) => SafePromoteAll(s, Due(s.store.delayed, now, limit));
    case Requeue(j) => SafeRequeue(c, s, j);
    case Expire(j) => SafeExpire(s, j);
    case _ =>
  }

  /** In every reachable state of every run. A requeue, like an add, forgets an earlier ending. */
  lemma NoJobLost(c: Config, rule: (System, Action) -> bool, acts: seq<Action>, t: System, j: JobId)
    requires Exec(c, rule, INIT, acts, t)
    requires j in t.added && j !in t.expired
    ensures InStream(t.store, j) || j in t.store.delayed || j in t.ending
  {
    forall x, a | Enabled(c, x, a) && rule(x, a) && Safe(x) ensures Safe(Step(c, x, a)) {
      SafeStep(c, x, a);
    }
    ExecKeeps(c, rule, x => Safe(x), INIT, acts, t);
  }
}
