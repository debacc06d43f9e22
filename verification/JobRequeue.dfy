/** What requeuing a dead job gives it: a fresh record, and as many runs as a new job has. */
module JobRequeue {
  import opened Wrappers
  import opened JobStore
  import opened JobProtocol
  import opened JobBound
  import opened JobPlaces
  import opened JobLimit
  import opened JobDelayed
  import JobClaims

  // ---- the record ----

  /** Requeuing a job with data appends one entry for it: nothing attempted, waiting, not scheduled, with the limit and
      backoff the hash has. The hash says the same, and nothing else changes. */
  lemma StartsAfresh(c: Config, s: System, j: JobId, t: System)
    requires HasData(s.store, j) && s.store.hashes[j].data.value.id == j && t == Step(c, s, Action.Requeue(j))
    ensures var was, n := s.store.hashes[j].data.value, |s.store.issued|;
            var job := Job(j, 0, was.maxAttempts, was.backoff, Waiting, None);
            && t.store == s.store.(issued := s.store.issued + [job], live := s.store.live + {n},
                                   hashes := s.store.hashes[j := Hash(Some(Waiting), Some(0), Some(job))])
            && t.workers == s.workers && t.reapers == s.reapers && t.invoked == s.invoked && t.clock == s.clock
            && t.added == s.added && t.expired == s.expired && t.ending == s.ending - {j}
  {
  }

  // ---- continuations ----

  // Runs in which no reaper claims an entry somebody is working on, and job j is not requeued once more.
  ghost predicate Continues(c: Config, j: JobId, max: int, s: System, acts: seq<Action>, t: System) {
    Exec(c, (x, a) => UndisturbedOnce(j, max, x, a), s, acts, t)
  }

  ghost predicate Later(c: Config, j: JobId, max: int, s: System, t: System) {
    exists acts :: Continues(c, j, max, s, acts, t)
  }

  lemma LaterOn(c: Config, j: JobId, max: int, s: System, t: System, a: Action, u: System)
    requires Later(c, j, max, s, t) && Enabled(c, t, a) && UndisturbedOnce(j, max, t, a) && u == Step(c, t, a)
    ensures Later(c, j, max, s, u)
  {
    var acts :| Continues(c, j, max, s, acts, t);
    ExecSnoc(c, (x, b) => UndisturbedOnce(j, max, x, b), s, acts, t, a);
    assert Continues(c, j, max, s, acts + [a], u);
  }

  lemma LaterOne(c: Config, j: JobId, max: int, s: System, a: Action, u: System)
    requires Enabled(c, s, a) && UndisturbedOnce(j, max, s, a) && u == Step(c, s, a)
    ensures Later(c, j, max, s, u)
  {
    assert Continues(c, j, max, s, [], s);
    LaterOn(c, j, max, s, s, a, u);
  }

  lemma LaterThen(c: Config, j: JobId, max: int, s: System, t: System, u: System)
    requires Later(c, j, max, s, t) && Later(c, j, max, t, u)
    ensures Later(c, j, max, s, u)
  {
    var xs :| Continues(c, j, max, s, xs, t);
    var ys :| Continues(c, j, max, t, ys, u);
    ExecConcat(c, (x, a) => UndisturbedOnce(j, max, x, a), s, xs, t, ys, u);
    assert Continues(c, j, max, s, xs + ys, u);
  }

  // ---- no more runs than that ----

  // The same state with n runs of job j forgotten.
  ghost function Forget(s: System, j: JobId, n: nat): System
    requires n <= s.invoked[j]
  {
    s.(invoked := s.invoked[j := s.invoked[j] - n])
  }

  lemma ForgetWorker(c: Config, s: System, m: multiset<JobId>, a: Action, t: System)
    requires Enabled(c, s, a) && ByWorker(a) && !a.Start? && t == Step(c, s, a)
    ensures Enabled(c, s.(invoked := m), a) && t.invoked == s.invoked
    ensures Step(c, s.(invoked := m), a) == t.(invoked := m)
  {
  }

  lemma ForgetReaper(c: Config, s: System, m: multiset<JobId>, a: Action, t: System)
    requires Enabled(c, s, a) && ByReaper(a) && t == Step(c, s, a)
    ensures Enabled(c, s.(invoked := m), a) && t.invoked == s.invoked
    ensures Step(c, s.(invoked := m), a) == t.(invoked := m)
  {
  }

  lemma ForgetOther(c: Config, s: System, m: multiset<JobId>, a: Action, t: System)
    requires Enabled(c, s, a) && !ByWorker(a) && !ByReaper(a) && t == Step(c, s, a)
    ensures Enabled(c, s.(invoked := m), a) && t.invoked == s.invoked
    ensures Step(c, s.(invoked := m), a) == t.(invoked := m)
  {
  }

  lemma ForgetStart(c: Config, s: System, j: JobId, n: nat, e: EntryId, t: System)
    requires n <= s.invoked[j] && Enabled(c, s, Start(e)) && t == Step(c, s, Start(e))
    ensures Enabled(c, Forget(s, j, n), Start(e)) && n <= t.invoked[j]
    ensures Step(c, Forget(s, j, n), Start(e)) == Forget(t, j, n)
  {
    var k := s.store.issued[e].id;
    assert s.invoked[j := s.invoked[j] - n] + multiset{k} == t.invoked[j := t.invoked[j] - n];
  }

  lemma ForgetRest(c: Config, s: System, m: multiset<JobId>, a: Action, t: System)
    requires Enabled(c, s, a) && !a.Start? && t == Step(c, s, a)
    ensures Enabled(c, s.(invoked := m), a) && t.invoked == s.invoked
    ensures Step(c, s.(invoked := m), a) == t.(invoked := m)
  {
    if ByWorker(a) {
      ForgetWorker(c, s, m, a, t);
    } else if ByReaper(a) {
      ForgetReaper(c, s, m, a, t);
    } else {
      ForgetOther(c, s, m, a, t);
    }
  }

  lemma ForgetStep(c: Config, s: System, j: JobId, n: nat, a: Action, t: System)
    requires n <= s.invoked[j] && Enabled(c, s, a) && t == Step(c, s, a)
    ensures Enabled(c, Forget(s, j, n), a) && n <= t.invoked[j]
    ensures Step(c, Forget(s, j, n), a) == Forget(t, j, n)
  {
    if a.Start? {
      ForgetStart(c, s, j, n, a.e, t);
    } else {
      ForgetRest(c, s, Forget(s, j, n).invoked, a, t);
    }
  }

  ghost predicate FitsAgain(max: int, s: System, j: JobId, n: nat) {
    Orderly(s) && n <= s.invoked[j] && Fits(max, Forget(s, j, n), j)
  }

  lemma FitsAgainStep(c: Config, max: int, s: System, j: JobId, n: nat, a: Action)
    requires FitsAgain(max, s, j, n) && Enabled(c, s, a) && UndisturbedOnce(j, max, s, a)
    ensures FitsAgain(max, Step(c, s, a), j, n)
  {
    OrderlyStep(c, s, a);
    ForgetStep(c, s, j, n, a, Step(c, s, a));
    OrderlyFrame(s, Forget(s, j, n));
    FitsStep(c, max, Forget(s, j, n), j, a);
  }

  // A dead job that is requeued has one entry, held by nobody.
  lemma FitsAfresh(c: Config, max: int, s: System, j: JobId, s1: System)
    requires Orderly(s) && j in s.ending && HasData(s.store, j) && max == s.store.hashes[j].data.value.maxAttempts
    requires s1 == Step(c, s, Action.Requeue(j))
    ensures Fits(max, Forget(s1, j, s1.invoked[j]), j)
  {
    StartsAfresh(c, s, j, s1);
    forall f: EntryId ensures !EntryOf(Forget(s, j, s.invoked[j]), f, j) {
      if EntryOf(s, f, j) { assert InStream(s, j); }
    }
    var job := s1.store.issued[|s.store.issued|];
    FitsSole(max, Forget(s, j, s.invoked[j]), Forget(s1, j, s1.invoked[j]), j, job);
  }

  lemma AtMostAgain(c: Config, max: int, s: System, j: JobId, n: nat, acts: seq<Action>, t: System)
    requires FitsAgain(max, s, j, n) && Continues(c, j, max, s, acts, t)
    ensures t.invoked[j] <= n + AtLeastOne(max)
  {
    forall x, a | Enabled(c, x, a) && UndisturbedOnce(j, max, x, a) && FitsAgain(max, x, j, n)
      ensures FitsAgain(max, Step(c, x, a), j, n)
    {
      FitsAgainStep(c, max, x, j, n, a);
    }
    ExecKeeps(c, (x, a) => UndisturbedOnce(j, max, x, a), x => FitsAgain(max, x, j, n), s, acts, t);
  }

  // ---- and as many as that ----

  // The entries before entry n are read, and then it is.
  lemma {:induction false} ReadUpTo(c: Config, s: System, j: JobId, max: int, n: EntryId) returns (t: System)
    requires Orderly(s) && n in s.store.live && s.store.cursor <= n
    ensures Later(c, j, max, s, t) && Orderly(t) && n in t.workers && t.workers[n] == Fetched
    ensures t.store == s.store.(cursor := n + 1, pel := t.store.pel) && t.invoked == s.invoked
    decreases n - s.store.cursor
  {
    var e := FirstLive(s.store.live, s.store.cursor, |s.store.issued|);
    t := Step(c, s, Read);
    LaterOne(c, j, max, s, Read, t);
    OrderlyStep(c, s, Read);
    if e < n {
      var u := ReadUpTo(c, t, j, max, n);
      LaterThen(c, j, max, s, t, u);
      t := u;
    }
  }

  // Promoting a list of members appends each one's data.
  lemma {:induction false} PromotedData(st: Store, js: seq<JobId>, j: JobId) returns (n: EntryId)
    requires j in js && HasData(st, j)
    ensures |st.issued| <= n < |PromoteAll(st, js).issued| && n in PromoteAll(st, js).live
    ensures PromoteAll(st, js).issued[n] == st.hashes[j].data.value && PromoteAll(st, js).cursor == st.cursor
    decreases |js|
  {
    var init, last := js[..|js| - 1], js[|js| - 1];
    var mid := PromoteAll(st, init);
    PromoteAllAppends(st, init);
    CursorStays(st, init);
    if j in init {
      n := PromotedData(st, init, j);
    } else {
      assert j == last;
      n := |mid.issued|;
    }
  }

  lemma {:induction false} CursorStays(st: Store, js: seq<JobId>)
    ensures PromoteAll(st, js).cursor == st.cursor
    decreases |js|
  {
    if js != [] {
      CursorStays(st, js[..|js| - 1]);
    }
  }

  // One move puts a delayed job's data back on the stream.
  lemma MovedBack(c: Config, s: System, j: JobId, max: int) returns (t: System, n: EntryId)
    requires Orderly(s) && j in s.store.delayed && HasData(s.store, j)
    ensures Later(c, j, max, s, t) && Orderly(t) && t.invoked == s.invoked
    ensures n in t.store.live && t.store.cursor <= n < |t.store.issued|
    ensures t.store.issued[n] == s.store.hashes[j].data.value
  {
    var now := s.store.delayed[j];
    var limit := |DueSet(s.store.delayed, now)|;
    var js := Due(s.store.delayed, now, limit);
    BacklogDrained(s.store, now, limit, 1);
    assert j in DueSet(s.store.delayed, now);
    assert j in js;
    t := Step(c, s, Move(now, limit));
    LaterOne(c, j, max, s, Move(now, limit), t);
    OrderlyStep(c, s, Move(now, limit));
    n := PromotedData(s.store, js, j);
  }

  // A worker retries its entry.
  lemma RetriedOnce(c: Config, s: System, j: JobId, max: int, n: EntryId, t: System)
    requires Orderly(s) && n in s.workers && s.workers[n] == Running && n < |s.store.issued|
    requires s.store.issued[n].id == j && s.store.issued[n].maxAttempts == max && s.store.issued[n].attempts + 1 < max
    requires t == Step(c, s, WriteRetry(n, 0.0, 0.0))
    ensures Later(c, j, max, s, t) && Orderly(t) && t.invoked == s.invoked && j in t.store.delayed
    ensures HasData(t.store, j)
    ensures var job := t.store.hashes[j].data.value;
            job.id == j && job.maxAttempts == max && job.attempts == s.store.issued[n].attempts + 1
  {
    LaterOne(c, j, max, s, WriteRetry(n, 0.0, 0.0), t);
    OrderlyStep(c, s, WriteRetry(n, 0.0, 0.0));
  }

  // A worker reads entry n and runs it.
  lemma RunEntry(c: Config, s: System, j: JobId, max: int, n: EntryId) returns (t: System)
    requires Orderly(s) && EntryOf(s, n, j) && s.store.cursor <= n
    ensures Later(c, j, max, s, t) && Orderly(t) && t.invoked[j] == s.invoked[j] + 1
    ensures n in t.workers && t.workers[n] == Running && t.store.issued == s.store.issued
  {
    var mid := ReadUpTo(c, s, j, max, n);
    t := Step(c, mid, Start(n));
    LaterOn(c, j, max, s, mid, Start(n), t);
    OrderlyStep(c, mid, Start(n));
  }

  // Its entry read and run, a job that has attempts left is retried and promoted.
  lemma RunAndBack(c: Config, s: System, j: JobId, max: int, n: EntryId, a: nat) returns (t: System, m: EntryId)
    requires Orderly(s) && EntryOf(s, n, j) && s.store.cursor <= n && a + 1 < max
    requires s.store.issued[n].attempts == a && s.store.issued[n].maxAttempts == max
    ensures Later(c, j, max, s, t) && Orderly(t) && t.invoked[j] == s.invoked[j] + 1
    ensures EntryOf(t, m, j) && t.store.cursor <= m
    ensures t.store.issued[m].attempts == a + 1 && t.store.issued[m].maxAttempts == max
  {
    var s1 := RunEntry(c, s, j, max, n);
    var s2 := Step(c, s1, WriteRetry(n, 0.0, 0.0));
    RetriedOnce(c, s1, j, max, n, s2);
    LaterThen(c, j, max, s, s1, s2);
    t, m := MovedBack(c, s2, j, max);
    LaterThen(c, j, max, s, s2, t);
  }

  lemma {:induction false} RunOut(c: Config, s: System, j: JobId, max: int, n: EntryId, a: nat) returns (t: System)
    requires Orderly(s) && EntryOf(s, n, j) && s.store.cursor <= n && a < AtLeastOne(max)
    requires s.store.issued[n].attempts == a && s.store.issued[n].maxAttempts == max
    ensures Later(c, j, max, s, t) && t.invoked[j] == s.invoked[j] + AtLeastOne(max) - a
    decreases AtLeastOne(max) - a
  {
    if a + 1 < AtLeastOne(max) {
      var mid, m := RunAndBack(c, s, j, max, n, a);
      t := RunOut(c, mid, j, max, m, a + 1);
      LaterThen(c, j, max, s, mid, t);
    } else {
      t := RunEntry(c, s, j, max, n);
    }
  }

  /** A dead job that is requeued, wherever an undisturbed run has come to, can have its handler run max(1, maxAttempts)
      more times, and in no undisturbed continuation more often than that. */
  lemma RequeueGivesAllRuns(c: Config, prefix: seq<Action>, s: System, j: JobId, max: int, s1: System)
    requires JobClaims.Run(c, INIT, prefix, s) && j in s.ending && s.ending[j] == EndedDead && HasData(s.store, j)
    requires max == s.store.hashes[j].data.value.maxAttempts && s1 == Step(c, s, Action.Requeue(j))
    ensures exists t :: Later(c, j, max, s1, t) && t.invoked[j] == s1.invoked[j] + AtLeastOne(max)
    ensures forall t | Later(c, j, max, s1, t) :: t.invoked[j] <= s1.invoked[j] + AtLeastOne(max)
  {
    JobClaims.ReachedIsPhased(c, prefix, s);
    OrderlyStep(c, s, Action.Requeue(j));
    StartsAfresh(c, s, j, s1);
    var t := RunOut(c, s1, j, max, |s.store.issued|, 0);
    FitsAfresh(c, max, s, j, s1);
    forall u | Later(c, j, max, s1, u) ensures u.invoked[j] <= s1.invoked[j] + AtLeastOne(max) {
      var acts :| Continues(c, j, max, s1, acts, u);
      AtMostAgain(c, max, s1, j, s1.invoked[j], acts, u);
    }
  }
}
