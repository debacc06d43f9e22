/** What one attempt at a job leaves behind, whoever makes it, and what the dead-letter log is made of. */
module JobEffects {
  import opened Wrappers
  import opened JobStore
  import opened JobProtocol
  import JobScripts
  import Backoff

  // ---- one attempt ----

  // A store in which entry e is settled: off the stream and the pending list, its job's hash as given.
  ghost function Without(st: Store, e: EntryId, j: JobId, h: Hash): Store {
    Store(st.issued, st.live - {e}, st.cursor, st.pel - {e}, st.delayed, st.dlq, st.hashes[j := h])
  }

  /** A job completed keeps the record and the attempt count its hash had. */
  lemma Completes(c: Config, s: System, e: EntryId, t: System)
    requires Enabled(c, s, Complete(e)) && t == Step(c, s, Complete(e))
    ensures var j := s.store.issued[e].id;
            var h := HashOf(s.store.hashes, j);
            && t.store == Without(s.store, e, j, Hash(Some(Completed), h.attempts, h.data))
            && t.ending == s.ending[j := EndedCompleted] && t.workers == s.workers - {e} && t.reapers == s.reapers
  {
  }

  // The dead-letter log gains the entry's record with one more attempt, marked dead; the hash keeps its own record.
  ghost predicate Buries(s: System, e: EntryId, t: System)
    requires e < |s.store.issued|
  {
    var was := s.store.issued[e];
    && was.attempts + 1 >= was.maxAttempts
    && t.store == Without(s.store, e, was.id,
                          Hash(Some(Dead), Some(was.attempts + 1), HashOf(s.store.hashes, was.id).data)).(
                            dlq := s.store.dlq + [Job(was.id, was.attempts + 1, was.maxAttempts, was.backoff, Dead,
                                                      was.scheduledFor)])
    && t.ending == s.ending[was.id := EndedDead]
  }

  // The job waits in the delayed set until the backoff after `now` is over, with one more attempt on its record.
  ghost predicate Postpones(s: System, e: EntryId, now: real, random: real, t: System)
    requires e < |s.store.issued|
  {
    var was := s.store.issued[e];
    var runAt := now + Backoff.Compute(was.attempts + 1, was.backoff, random);
    && was.attempts + 1 < was.maxAttempts
    && t.store == Without(s.store, e, was.id,
                          Hash(Some(Delayed), Some(was.attempts + 1),
                               Some(Job(was.id, was.attempts + 1, was.maxAttempts, was.backoff, Delayed,
                                        Some(runAt))))).(
                            delayed := s.store.delayed[was.id := runAt])
    && t.ending == s.ending
  }

  /** A failed attempt is the last one or is retried, by its worker and by a reaper alike. */
  lemma WorkerSettles(c: Config, s: System, e: EntryId, a: Action, t: System)
    requires Enabled(c, s, a) && t == Step(c, s, a) && (a == Die(e) || (a.WriteRetry? && a.e == e))
    ensures if a.Die? then Buries(s, e, t) else Postpones(s, e, a.now, a.random, t)
    ensures t.workers == s.workers - {e} && t.reapers == s.reapers && t.invoked == s.invoked
  {
  }

  lemma ReaperSettles(c: Config, s: System, r: nat, a: Action, t: System)
    requires Enabled(c, s, a) && t == Step(c, s, a) && (a == ReaperDie(r) || (a.ReaperWriteRetry? && a.r == r))
    ensures if a.ReaperDie? then Buries(s, s.reapers[r].entry, t)
            else Postpones(s, s.reapers[r].entry, a.now, a.random, t)
    ensures t.reapers == s.reapers - {r} && t.workers == s.workers && t.invoked == s.invoked
  {
  }

  /** A claim takes over an entry idle for long enough and starts its idle time again, and only forgets one that is
      deleted already. */
  lemma Claims(c: Config, s: System, r: nat, e: EntryId, t: System)
    requires Enabled(c, s, ReaperClaim(r, e)) && t == Step(c, s, ReaperClaim(r, e))
    ensures s.clock - s.store.pel[e] >= c.visibility
    ensures if e in s.store.live
            then t == s.(store := s.store.(pel := s.store.pel[e := s.clock]),
                         reapers := s.reapers[r := Handling(e, Running)])
            else t == s.(store := s.store.(pel := s.store.pel - {e}))
  {
  }

  /** A reaper not at work can claim exactly the pending entries not delivered or claimed within the visibility time. */
  lemma ClaimableIff(c: Config, s: System, r: nat, e: EntryId)
    requires r < c.reapers && r !in s.reapers
    ensures Enabled(c, s, ReaperClaim(r, e)) <==> e in s.store.pel && s.store.pel[e] + c.visibility <= s.clock
  {
  }

  /** A read delivers the first entry not delivered and not deleted, pending from now on, and nothing when there is
      none. */
  lemma Reads(c: Config, s: System, t: System)
    requires t == Step(c, s, Read)
    ensures (t == s && forall e | s.store.cursor <= e < |s.store.issued| :: e !in s.store.live)
            || exists e ::
                 && s.store.cursor <= e < |s.store.issued| && e in s.store.live
                 && (forall i | s.store.cursor <= i < e :: i !in s.store.live)
                 && t == s.(store := s.store.(cursor := e + 1, pel := s.store.pel[e := s.clock]),
                            workers := s.workers[e := Fetched])
  {
    var e := FirstLive(s.store.live, s.store.cursor, |s.store.issued|);
    if e < |s.store.issued| {
      assert e in s.store.live;
    }
  }

  /** An expired job's hash is gone, and nothing else of the store. */
  lemma Expires(c: Config, s: System, j: JobId, t: System)
    requires t == Step(c, s, Action.Expire(j))
    ensures t.store.hashes.Keys == s.store.hashes.Keys - {j}
    ensures forall k | k in t.store.hashes :: t.store.hashes[k] == s.store.hashes[k]
    ensures t == s.(store := s.store.(hashes := t.store.hashes), expired := s.expired + {j})
  {
  }

  /** Run without interference, a reaper's handling of an entry it can claim is a claim and one step more. */
  lemma ReapedIsTwoSteps(c: Config, s: System, r: nat, e: EntryId, random: real)
    requires Enabled(c, s, ReaperClaim(r, e)) && e in s.store.live
    requires forall i | i in s.store.live :: i < |s.store.issued|
    ensures var mid := Step(c, s, ReaperClaim(r, e));
            var was := s.store.issued[e];
            var a := if was.attempts + 1 >= was.maxAttempts then ReaperDie(r)
                     else ReaperWriteRetry(r, s.clock, random);
            Enabled(c, mid, a)
            && Step(c, mid, a).store == JobScripts.Reaped(s.store, e, s.clock, c.visibility, random)
  {
  }

  // ---- the dead-letter log ----

  // A record an entry's last attempt left: the entry's own with that attempt counted, marked dead.
  ghost predicate LastAttemptOf(st: Store, job: Job, e: EntryId) {
    && e < |st.issued|
    && job == st.issued[e].(attempts := st.issued[e].attempts + 1, state := Dead)
    && job.attempts >= job.maxAttempts
    && e !in st.live
  }

  ghost predicate IsSpent(st: Store, job: Job) {
    exists e :: LastAttemptOf(st, job, e)
  }

  ghost predicate LogIsSpent(st: Store) {
    && (forall i | i in st.live :: i < |st.issued|)
    && forall i | 0 <= i < |st.dlq| :: IsSpent(st, st.dlq[i])
  }

  // Entries are only added and deleted, and the log stays.
  ghost predicate Grows(st: Store, st1: Store) {
    && |st.issued| <= |st1.issued|
    && (forall e | 0 <= e < |st.issued| :: st1.issued[e] == st.issued[e] && (e in st1.live ==> e in st.live))
    && (forall i | i in st1.live :: i < |st1.issued|)
    && st1.dlq == st.dlq
  }

  lemma SpentStays(st: Store, st1: Store, job: Job)
    requires Grows(st, st1) && IsSpent(st, job)
    ensures IsSpent(st1, job)
  {
    var e :| LastAttemptOf(st, job, e);
    assert LastAttemptOf(st1, job, e);
  }

  lemma LogStays(st: Store, st1: Store)
    requires LogIsSpent(st) && Grows(st, st1)
    ensures LogIsSpent(st1)
  {
    forall i | 0 <= i < |st1.dlq| ensures IsSpent(st1, st1.dlq[i]) {
      SpentStays(st, st1, st.dlq[i]);
    }
  }

  lemma {:induction false} PromotedGrows(st: Store, js: seq<JobId>)
    requires forall i | i in st.live :: i < |st.issued|
    ensures Grows(st, PromoteAll(st, js))
    decreases |js|
  {
    if js != [] {
      PromotedGrows(st, js[..|js| - 1]);
    }
  }

  lemma BuriedSpent(s: System, e: EntryId, st1: Store)
    requires LogIsSpent(s.store) && e < |s.store.issued| && Exhausted(Settling(s, e)) && st1 == Bury(s, e).store
    ensures LogIsSpent(st1)
  {
    var st0 := st1.(dlq := s.store.dlq);
    LogStays(s.store, st0);
    assert LastAttemptOf(st1, st1.dlq[|s.store.dlq|], e);
    forall i | 0 <= i < |st1.dlq| ensures IsSpent(st1, st1.dlq[i]) {
      if i < |s.store.dlq| {
        assert IsSpent(st0, st0.dlq[i]);
        var d :| LastAttemptOf(st0, st0.dlq[i], d);
        assert LastAttemptOf(st1, st1.dlq[i], d);
      }
    }
  }

  // No other step writes the log.
  lemma WorkerGrows(c: Config, s: System, a: Action, t: System)
    requires Enabled(c, s, a) && LogIsSpent(s.store) && ByWorker(a) && !a.Die? && t == Step(c, s, a)
    ensures Grows(s.store, t.store)
  {
  }

  lemma ReaperGrows(c: Config, s: System, a: Action, t: System)
    requires Enabled(c, s, a) && LogIsSpent(s.store) && ByReaper(a) && !a.ReaperDie? && t == Step(c, s, a)
    ensures Grows(s.store, t.store)
  {
  }

  lemma OtherGrows(c: Config, s: System, a: Action, t: System)
    requires Enabled(c, s, a) && LogIsSpent(s.store) && !ByWorker(a) && !ByReaper(a) && t == Step(c, s, a)
    ensures Grows(s.store, t.store)
  {
    if a.Move? {
      PromotedGrows(s.store, Due(s.store.delayed, a.now, a.limit));
    }
  }

  lemma SpentStep(c: Config, s: System, a: Action, t: System)
    requires Enabled(c, s, a) && LogIsSpent(s.store) && t == Step(c, s, a)
    ensures LogIsSpent(t.store)
  {
    if a.Die? {
      BuriedSpent(s, a.e, t.store);
    } else if a.ReaperDie? {
      BuriedSpent(s, s.reapers[a.r].entry, t.store);
    } else {
      if ByWorker(a) {
        WorkerGrows(c, s, a, t);
      } else if ByReaper(a) {
        ReaperGrows(c, s, a, t);
      } else {
        OtherGrows(c, s, a, t);
      }
      LogStays(s.store, t.store);
    }
  }

  /** Over every interleaving each record in the dead-letter log is that of an entry of the stream with one more
      attempt, the last one its job is allowed, and that entry is gone. */
  lemma DeadLettersAreSpent(c: Config, rule: (System, Action) -> bool, acts: seq<Action>, t: System)
    requires Exec(c, rule, INIT, acts, t)
    ensures forall i | 0 <= i < |t.store.dlq| :: IsSpent(t.store, t.store.dlq[i])
  {
    forall x: System, a | Enabled(c, x, a) && rule(x, a) && LogIsSpent(x.store)
        ensures LogIsSpent(Step(c, x, a).store) {
      SpentStep(c, x, a, Step(c, x, a));
    }
    ExecKeeps(c, rule, (x: System) => LogIsSpent(x.store), INIT, acts, t);
  }
}
