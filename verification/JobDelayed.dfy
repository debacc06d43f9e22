/** Delayed jobs: what a scheduler tick promotes, in which order, how many ticks a backlog takes, and that an insertion
    into the zset is promoted at most once by any number of schedulers. */
module JobDelayed {
  import opened Wrappers
  import opened JobStore
  import opened JobProtocol
  import Backoff

  // ---- one tick ----

  ghost function DueSet(z: map<JobId, real>, now: real): set<JobId> {
    set j | j in z && z[j] <= now
  }

  ghost predicate InOrder(z: map<JobId, real>, js: seq<JobId>) {
    && (forall j | j in js :: j in z)
    && forall a, b | 0 <= a < b < |js| :: Before(z, js[a], js[b]) && js[a] != js[b]
  }

  lemma InOrderFrom(z: map<JobId, real>, first: JobId, tail: seq<JobId>)
    requires IsLeast(z, first) && InOrder(z - {first}, tail)
    ensures InOrder(z, [first] + tail)
  {
    var js := [first] + tail;
    assert forall j | j in js :: j == first || j in tail;
    forall a, b | 0 <= a < b < |js|
      ensures js[a] in z && js[b] in z && Before(z, js[a], js[b]) && js[a] != js[b]
    {
      assert js[b] == tail[b - 1] && tail[b - 1] in z - {first};
      if a > 0 { assert js[a] == tail[a - 1]; }
    }
  }

  lemma {:induction false} DueInOrder(z: map<JobId, real>, now: real, limit: nat)
    ensures InOrder(z, Due(z, now, limit)) && Members(Due(z, now, limit)) <= DueSet(z, now)
    decreases |z|
  {
    DueMembers(z, now, limit);
    if limit > 0 && z != map[] && z[Least(z)] <= now {
      DueInOrder(z - {Least(z)}, now, limit - 1);
      InOrderFrom(z, Least(z), Due(z - {Least(z)}, now, limit - 1));
    }
  }

  lemma {:induction false} DueSize(z: map<JobId, real>, now: real, limit: nat)
    ensures |Due(z, now, limit)| == if |DueSet(z, now)| < limit then |DueSet(z, now)| else limit
    decreases |z|
  {
    if limit > 0 && z != map[] {
      var m := Least(z);
      if z[m] > now {
        assert DueSet(z, now) == {};
      } else {
        DueSize(z - {m}, now, limit - 1);
        assert DueSet(z, now) == DueSet(z - {m}, now) + {m};
      }
    } else if z == map[] {
      assert DueSet(z, now) == {};
    }
  }

  lemma {:induction false} DueSkipsNone(z: map<JobId, real>, now: real, limit: nat, j: JobId, k: JobId)
    requires j in Due(z, now, limit) && k in z && k !in Due(z, now, limit)
    ensures j in z && Before(z, j, k)
    decreases |z|
  {
    DueMembers(z, now, limit);
    var m := Least(z);
    assert Due(z, now, limit) == [m] + Due(z - {m}, now, limit - 1);
    if j != m {
      DueSkipsNone(z - {m}, now, limit - 1, j, k);
    }
  }

  /** ZRANGEBYSCORE with LIMIT: the due members by ascending score, ties by id, cut after `limit`, none skipped. */
  lemma DueIsLeastFirst(z: map<JobId, real>, now: real, limit: nat)
    ensures var js := Due(z, now, limit);
            && (forall j | j in js :: j in z && z[j] <= now)
            && |js| == (if |DueSet(z, now)| < limit then |DueSet(z, now)| else limit)
            && (forall a, b | 0 <= a < b < |js| ::
                  z[js[a]] < z[js[b]] || (z[js[a]] == z[js[b]] && js[a] < js[b]))
            && forall j, k | j in js && k in z && k !in js :: z[j] < z[k] || (z[j] == z[k] && j < k)
    ensures InOrder(z, Due(z, now, limit)) && Members(Due(z, now, limit)) <= DueSet(z, now)
  {
    DueInOrder(z, now, limit);
    DueSize(z, now, limit);
    forall j, k | j in Due(z, now, limit) && k in z && k !in Due(z, now, limit)
      ensures z[j] < z[k] || (z[j] == z[k] && j < k)
    {
      DueSkipsNone(z, now, limit, j, k);
    }
  }

  // The records a list of promotions appends to the stream: those whose hash still has data.
  ghost function Live(st: Store, js: seq<JobId>): seq<Job> {
    if js == [] then []
    else
      var j := js[|js| - 1];
      Live(st, js[..|js| - 1]) + (if HasData(st, j) then [st.hashes[j].data.value] else [])
  }

  lemma {:induction false} PromoteAllAppends(st: Store, js: seq<JobId>)
    ensures PromoteAll(st, js).issued == st.issued + Live(st, js)
    ensures forall j :: HasData(PromoteAll(st, js), j) <==> HasData(st, j)
    ensures forall j | HasData(st, j) ::
        HasData(PromoteAll(st, js), j) && PromoteAll(st, js).hashes[j].data == st.hashes[j].data
    decreases |js|
  {
    if js != [] {
      PromoteAllAppends(st, js[..|js| - 1]);
    }
  }

  // ---- a backlog ----

  ghost function Ticks(st: Store, now: real, batch: nat, n: nat): Store {
    if n == 0 then st else MoveDelayed(Ticks(st, now, batch, n - 1), now, batch)
  }

  lemma DueStep(z: map<JobId, real>, now: real, limit: nat)
    requires limit > 0 && z != map[] && z[Least(z)] <= now
    ensures Due(z, now, limit) == [Least(z)] + Due(z - {Least(z)}, now, limit - 1)
    ensures Members(Due(z, now, limit)) == {Least(z)} + Members(Due(z - {Least(z)}, now, limit - 1))
  {
  }

  lemma {:induction false} DueSplits(z: map<JobId, real>, now: real, m: nat, n: nat)
    ensures Due(z, now, m + n) == Due(z, now, m) + Due(z - Members(Due(z, now, m)), now, n)
    decreases m
  {
    if m == 0 || z == map[] || z[Least(z)] > now {
      RemoveNone(z);
      assert Due(z, now, m) == [];
    } else {
      var least := Least(z);
      DueSplits(z - {least}, now, m - 1, n);
      SplitAfter(z, now, m, n, least);
    }
  }

  lemma SplitAfter(z: map<JobId, real>, now: real, m: nat, n: nat, least: JobId)
    requires m > 0 && z != map[] && least == Least(z) && z[least] <= now
    requires Due(z - {least}, now, m - 1 + n)
          == Due(z - {least}, now, m - 1) + Due(z - {least} - Members(Due(z - {least}, now, m - 1)), now, n)
    ensures Due(z, now, m + n) == Due(z, now, m) + Due(z - Members(Due(z, now, m)), now, n)
  {
    var tail := Due(z - {least}, now, m - 1);
    calc {
      Due(z, now, m + n);
      { DueStep(z, now, m + n); }
      [least] + (tail + Due(z - {least} - Members(tail), now, n));
      ([least] + tail) + Due(z - {least} - Members(tail), now, n);
      { RemoveInTurn(z, least, Members(tail)); DueStep(z, now, m); }
      Due(z, now, m) + Due(z - Members(Due(z, now, m)), now, n);
    }
  }

  lemma RemoveNone(z: map<JobId, real>)
    ensures z - Members([]) == z
  {
    assert Members([]) == {};
  }

  lemma RemoveInTurn(z: map<JobId, real>, j: JobId, js: set<JobId>)
    ensures z - ({j} + js) == (z - {j}) - js
  {
  }

  lemma {:induction false} PromoteAllConcat(st: Store, xs: seq<JobId>, ys: seq<JobId>)
    ensures PromoteAll(st, xs + ys) == PromoteAll(PromoteAll(st, xs), ys)
    decreases |ys|
  {
    if ys == [] {
      assert xs + ys == xs;
    } else {
      assert (xs + ys)[..|xs + ys| - 1] == xs + ys[..|ys| - 1];
      PromoteAllConcat(st, xs, ys[..|ys| - 1]);
    }
  }

  // n ticks of one batch do exactly what one tick of n batches would.
  lemma {:induction false} TicksAddUp(st: Store, now: real, batch: nat, n: nat)
    ensures Ticks(st, now, batch, n) == MoveDelayed(st, now, n * batch)
  {
    if n == 0 {
      assert Due(st.delayed, now, 0) == [];
    } else {
      TicksAddUp(st, now, batch, n - 1);
      var first := Due(st.delayed, now, (n - 1) * batch);
      PromoteAllRemoves(st, first);
      DueSplits(st.delayed, now, (n - 1) * batch, batch);
      assert n * batch == (n - 1) * batch + batch;
      PromoteAllConcat(st, first, Due(st.delayed - Members(first), now, batch));
    }
  }

  /** ceil(k / batch) ticks empty a backlog of k due members: none is left, those not due stay, and the stream gains
      exactly the live ones, in score order. */
  lemma BacklogDrained(st: Store, now: real, batch: nat, n: nat)
    requires n * batch >= |DueSet(st.delayed, now)|
    ensures var js := Due(st.delayed, now, n * batch);
            && InOrder(st.delayed, js) && Members(js) == DueSet(st.delayed, now)
            && Ticks(st, now, batch, n).delayed == st.delayed - DueSet(st.delayed, now)
            && Ticks(st, now, batch, n).issued == st.issued + Live(st, js)
  {
    var js := Due(st.delayed, now, n * batch);
    TicksAddUp(st, now, batch, n);
    DueIsLeastFirst(st.delayed, now, n * batch);
    PromoteAllRemoves(st, js);
    PromoteAllAppends(st, js);
    DistinctSize(js);
    SubsetFull(Members(js), DueSet(st.delayed, now));
  }

  lemma {:induction false} DistinctSize(js: seq<JobId>)
    requires Distinct(js)
    ensures |Members(js)| == |js|
  {
    if js != [] {
      var init := js[..|js| - 1];
      DistinctSize(init);
      assert Members(js) == Members(init) + {js[|js| - 1]};
      assert js[|js| - 1] !in init;
    }
  }

  lemma SubsetFull(x: set<JobId>, y: set<JobId>)
    requires x <= y && |x| >= |y|
    ensures x == y
  {
    assert |y| == |x| + |y - x| by {
      assert y == x + (y - x);
    }
  }

  // ---- at most one entry per insertion ----

  ghost function Promotions(s: System, a: Action, j: JobId): nat {
    if a.Move? && j in Due(s.store.delayed, a.now, a.limit) then 1 else 0
  }

  // Steps that write job j into the zset.
  ghost function Insertions(c: Config, s: System, a: Action, j: JobId): nat
    requires Enabled(c, s, a)
  {
    match a
    case Add(job) => if job.id == j && IsScheduled(job) then 1 else 0
    case Retry(e) => if s.store.issued[e].id == j then 1 else 0
    case WriteRetry(e, _, _) => if s.store.issued[e].id == j then 1 else 0
    case ReaperRetry(r) => if s.store.issued[s.reapers[r].entry].id == j then 1 else 0
    case ReaperWriteRetry(r, _, _) => if s.store.issued[s.reapers[r].entry].id == j then 1 else 0
    case _ => 0
  }

  ghost function AllPromotions(c: Config, rule: (System, Action) -> bool, s: System, acts: seq<Action>, t: System,
                               j: JobId): nat
    requires Exec(c, rule, s, acts, t)
    decreases |acts|
  {
    if acts == [] then 0
    else Promotions(s, acts[0], j) + AllPromotions(c, rule, Step(c, s, acts[0]), acts[1..], t, j)
  }

  ghost function AllInsertions(c: Config, rule: (System, Action) -> bool, s: System, acts: seq<Action>, t: System,
                               j: JobId): nat
    requires Exec(c, rule, s, acts, t)
    decreases |acts|
  {
    if acts == [] then 0
    else Insertions(c, s, acts[0], j) + AllInsertions(c, rule, Step(c, s, acts[0]), acts[1..], t, j)
  }

  ghost function Member(s: System, j: JobId): nat {
    if j in s.store.delayed then 1 else 0
  }

  lemma PromotionSpends(c: Config, s: System, a: Action, j: JobId)
    requires Enabled(c, s, a)
    ensures Promotions(s, a, j) + Member(Step(c, s, a), j) <= Member(s, j) + Insertions(c, s, a, j)
  {
    if a.Move? {
      DueMembers(s.store.delayed, a.now, a.limit);
      PromoteAllRemoves(s.store, Due(s.store.delayed, a.now, a.limit));
    }
  }

  lemma {:induction false} PromotionsWithin(c: Config, rule: (System, Action) -> bool, s: System, acts: seq<Action>,
                                            t: System, j: JobId)
    requires Exec(c, rule, s, acts, t)
    ensures AllPromotions(c, rule, s, acts, t, j) + Member(t, j) <= Member(s, j) + AllInsertions(c, rule, s, acts, t, j)
    decreases |acts|
  {
    if acts != [] {
      PromotionSpends(c, s, acts[0], j);
      PromotionsWithin(c, rule, Step(c, s, acts[0]), acts[1..], t, j);
    }
  }

  /** Over any run, with any number of schedulers, a job is promoted at most once per insertion into the zset. */
  lemma PromotedAtMostOnce(c: Config, rule: (System, Action) -> bool, acts: seq<Action>, t: System, j: JobId)
    requires Exec(c, rule, INIT, acts, t)
    ensures AllPromotions(c, rule, INIT, acts, t, j) + Member(t, j) <= AllInsertions(c, rule, INIT, acts, t, j)
  {
    PromotionsWithin(c, rule, INIT, acts, t, j);
  }

  // ---- when a retry is due ----

  /** The score a retry is given lies in [now, now + cap], for every declared backoff kind and every attempt. */
  lemma RetryScoreWithinCap(job: Job, now: real, random: real)
    requires Backoff.Sane(job.backoff) && job.backoff.kind != Backoff.Other && 0.0 <= random < 1.0
    ensures now <= RunAt(job, now, random) <= now + Backoff.Cap(job.backoff)
  {
    Backoff.DelayWithinCapIff(job.attempts, job.backoff, random);
  }

  // ---- what an add schedules ----

  /** A job added with a delay is in the delayed set from then on, due when the delay has passed and not before, and not
      on the stream; without one it is at the end of the stream at once. The hash carries its record either way. */
  lemma AddSchedules(c: Config, s: System, id: JobId, max: int, backoff: Backoff.Options, delay: Option<real>,
                     now: real,
                     t: System)
    requires 0.0 <= now && t == Step(c, s, Add(NewJob(id, max, backoff, delay, now)))
    requires Enabled(c, s, Add(NewJob(id, max, backoff, delay, now)))
    ensures var waits := delay.Some? && delay.value > 0.0;
            var job := Job(id, 0, max, backoff, if waits then Delayed else Waiting,
                           if waits then Some(now + delay.value) else None);
            && t.store.hashes == s.store.hashes[id := Hash(Some(job.state), Some(0), Some(job))]
            && t.store.delayed == (if waits then s.store.delayed[id := now + delay.value] else s.store.delayed)
            && t.store.issued == s.store.issued + (if waits then [] else [job])
            && t.store.live == s.store.live + (if waits then {} else {|s.store.issued|})
            && t.store.pel == s.store.pel && t.store.cursor == s.store.cursor && t.store.dlq == s.store.dlq
            && t.added == s.added + {id} && t.expired == s.expired - {id} && t.ending == s.ending - {id}
    ensures delay.Some? && delay.value > 0.0 ==>
              forall at, limit :: id in Due(t.store.delayed, at, limit) ==> at >= now + delay.value
  {
    if delay.Some? && delay.value > 0.0 {
      forall at, limit | id in Due(t.store.delayed, at, limit) ensures at >= now + delay.value {
        DueMembers(t.store.delayed, at, limit);
      }
    }
  }
}
