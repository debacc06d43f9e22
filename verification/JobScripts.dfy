/** The queue's code as it runs. */
module JobScripts {
  // The Redis structures updated in place by the scripts, and the worker, reaper and scheduler that call them. Each
  // method is tied to the function of JobStore the transition system is made of.

  import opened Wrappers
  import opened JobStore
  import JobDelayed
  import P = JobProtocol
  import Backoff

  class Redis {
    var issued: seq<Job>
    var live: set<EntryId>
    var cursor: EntryId
    var pel: map<EntryId, real>
    var delayed: map<JobId, real>
    var dlq: seq<Job>
    var hashes: map<JobId, Hash>

    function Contents(): Store
      reads this
    {
      Store(issued, live, cursor, pel, delayed, dlq, hashes)
    }

    constructor ()
      ensures Contents() == EMPTY_STORE
    {
      issued, live, cursor, pel, delayed, dlq, hashes := [], {}, 0, map[], map[], [], map[];
    }

    method XAdd(job: Job)
      modifies this
      ensures Contents() == JobStore.XAdd(old(Contents()), job)
    {
      live := live + {|issued|};
      issued := issued + [job];
    }

    method AckDelete(e: EntryId)
      modifies this
      ensures Contents() == JobStore.AckDelete(old(Contents()), e)
    {
      pel := pel - {e};
      live := live - {e};
    }

    // queue.ts: the hash and either the zset or the stream, in one MULTI.
    method Add(id: JobId, maxAttempts: int, backoff: Backoff.Options, delayMs: Option<real>, now: real)
      returns (record: Job)
      modifies this
      ensures record == NewJob(id, maxAttempts, backoff, delayMs, now)
      ensures Contents() == Enqueue(old(Contents()), record)
    {
      record := Job(id, 0, maxAttempts, backoff, Waiting, None);
      if delayMs.Some? && delayMs.value > 0.0 {
        record := record.(state := Delayed, scheduledFor := Some(now + delayMs.value));
      }
      hashes := hashes[id := Hash(Some(record.state), Some(record.attempts), Some(record))];
      if IsScheduled(record) {
        delayed := delayed[id := record.scheduledFor.value];
      } else {
        XAdd(record);
      }
    }

    method SetState(j: JobId, state: JobState, attempts: Option<nat>)
      modifies this`hashes
      ensures hashes == old(hashes)[j := HashOf(old(hashes), j).(
                state := Some(state), attempts := if attempts.Some? then attempts else HashOf(old(hashes), j).attempts)]
    {
      var h := HashOf(hashes, j).(state := Some(state));
      if attempts.Some? {
        h := h.(attempts := attempts);
      }
      hashes := hashes[j := h];
    }

    method AckAndComplete(e: EntryId, j: JobId)
      modifies this
      ensures Contents() == JobStore.AckAndComplete(old(Contents()), e, j)
    {
      AckDelete(e);
      SetState(j, Completed, None);
    }

    method AckAndRetry(e: EntryId, j: JobId, runAt: real, attempts: nat)
      modifies this
      ensures Contents() == JobStore.AckAndRetry(old(Contents()), e, j, runAt, attempts)
    {
      AckDelete(e);
      SetState(j, Delayed, Some(attempts));
      delayed := delayed[j := runAt];
    }

    method AckAndDead(e: EntryId, job: Job)
      modifies this
      ensures Contents() == JobStore.AckAndDead(old(Contents()), e, job)
    {
      AckDelete(e);
      SetState(job.id, Dead, Some(job.attempts));
      dlq := dlq + [job];
    }

    method SetData(job: Job)
      modifies this
      ensures Contents() == JobStore.SetData(old(Contents()), job)
    {
      hashes := hashes[job.id := HashOf(hashes, job.id).(data := Some(job))];
    }

    // lua.ts, ATOMIC_MOVE_DELAYED.
    method MoveDelayed(now: real, limit: nat) returns (moved: nat)
      modifies this
      ensures Contents() == JobStore.MoveDelayed(old(Contents()), now, limit)
      ensures moved == |JobDelayed.Live(old(Contents()), Due(old(delayed), now, limit))|
    {
      var due := Due(delayed, now, limit);
      moved := 0;
      for i := 0 to |due|
        invariant Contents() == PromoteAll(old(Contents()), due[..i])
        invariant moved == |JobDelayed.Live(old(Contents()), due[..i])|
      {
        ghost var before := Contents();
        JobDelayed.PromoteAllAppends(old(Contents()), due[..i]);
        assert due[..i + 1][..i] == due[..i];
        var j := due[i];
        if j in hashes && hashes[j].data.Some? {
          XAdd(hashes[j].data.value);
          SetState(j, Waiting, None);
          delayed := delayed - {j};
          moved := moved + 1;
        } else {
          delayed := delayed - {j};
        }
        assert Contents() == Promote(before, j);
      }
      assert due[..|due|] == due;
    }

    // One entry of XREADGROUP.
    method ReadOne(now: real) returns (got: Option<(EntryId, Job)>)
      modifies this
      ensures Contents() == JobStore.ReadOne(old(Contents()), now)
      ensures var e := FirstLive(old(live), old(cursor), |old(issued)|);
              got == if e < |old(issued)| then Some((e, old(issued)[e])) else None
    {
      var e := FirstLive(live, cursor, |issued|);
      if e < |issued| {
        cursor, pel := e + 1, pel[e := now];
        got := Some((e, issued[e]));
      } else {
        got := None;
      }
    }

    method Claim(e: EntryId, now: real, minIdle: real) returns (data: Option<Job>)
      requires forall i | i in live :: i < |issued|
      modifies this
      ensures Contents() == JobStore.Claim(old(Contents()), e, now, minIdle)
      ensures data == if CanClaim(old(Contents()), e, now, minIdle) && e in old(live) then Some(old(issued)[e])
          else None
    {
      data := None;
      if e in pel && now - pel[e] >= minIdle {
        if e in live {
          pel := pel[e := now];
          data := Some(issued[e]);
        } else {
          pel := pel - {e};
        }
      }
    }

    // dlq.ts, requeue.
    method Requeue(j: JobId) returns (ok: bool)
      modifies this
      ensures Contents() == JobStore.Requeue(old(Contents()), j) && ok == HasData(old(Contents()), j)
    {
      ok := j in hashes && hashes[j].data.Some?;
      if ok {
        var job := Requeued(hashes[j].data.value);
        SetState(job.id, Waiting, Some(0));
        SetData(job);
        XAdd(job);
      }
    }
  }

  // ---- worker.ts ----

  // What a finished attempt does to the store: complete, dead-letter, or write the data and delay.
  function Settled(st: Store, e: EntryId, data: Job, ok: bool, now: real, random: real): Store {
    var job := Attempted(data);
    if ok then JobStore.AckAndComplete(st, e, job.id)
    else if Exhausted(job) then JobStore.AckAndDead(st, e, job.(state := Dead))
    else
      var runAt := P.RunAt(job, now, random);
      JobStore.AckAndRetry(JobStore.SetData(st, Rescheduled(job, runAt)), e, job.id, runAt, job.attempts)
  }

  class Worker {
    var completed: nat
    var dead: nat
    var retried: nat

    // One claimed entry, from the handler's verdict on. `finishedAt` is the worker's clock.
    method ProcessOne(redis: Redis, e: EntryId, data: Job, ok: bool, finishedAt: real, random: real)
      modifies this, redis
      ensures redis.Contents() == Settled(old(redis.Contents()), e, data, ok, finishedAt, random)
      ensures completed + dead + retried == old(completed + dead + retried) + 1
      ensures completed > old(completed) <==> ok
      ensures dead > old(dead) <==> !ok && data.attempts + 1 >= data.maxAttempts
    {
      var job := data.(attempts := data.attempts + 1);
      if ok {
        redis.AckAndComplete(e, job.id);
        completed := completed + 1;
        return;
      }
      if job.attempts >= job.maxAttempts {
        job := job.(state := Dead);
        redis.AckAndDead(e, job);
        dead := dead + 1;
        return;
      }
      var delay := Backoff.Compute(job.attempts, job.backoff, random);
      var runAt := finishedAt + delay;
      job := job.(state := Delayed, scheduledFor := Some(runAt));
      redis.SetData(job);
      redis.AckAndRetry(e, job.id, runAt, job.attempts);
      retried := retried + 1;
    }
  }

  /** Run without interference, processing an entry is one step of the transition system. */
  lemma ProcessOneIsAStep(c: P.Config, s: P.System, e: EntryId, ok: bool, now: real, random: real)
    requires e in s.workers && e < |s.store.issued| && s.workers[e] == P.Running
    ensures var a := if ok then P.Complete(e)
                     else if Exhausted(Attempted(s.store.issued[e])) then P.Die(e)
                     else P.WriteRetry(e, now, random);
            P.Enabled(c, s, a) && P.Step(c, s, a).store == Settled(s.store, e, s.store.issued[e], ok, now, random)
  {
  }

  // ---- reaper.ts ----

  // XPENDING IDLE: pending entries at least minIdle old, oldest id first, at most `count`.
  function Stale(pel: map<EntryId, real>, i: EntryId, end: EntryId, now: real, minIdle: real,
                 count: nat): (es: seq<EntryId>)
    ensures |es| <= count
    ensures forall a | 0 <= a < |es| :: i <= es[a] < end && es[a] in pel && now - pel[es[a]] >= minIdle
    ensures forall a, b | 0 <= a < b < |es| :: es[a] < es[b]
    ensures |es| < count ==> forall e | i <= e < end && e in pel && now - pel[e] >= minIdle :: e in es
    decreases end - i
  {
    if i >= end || count == 0 then []
    else if i in pel && now - pel[i] >= minIdle then [i] + Stale(pel, i + 1, end, now, minIdle, count - 1)
    else Stale(pel, i + 1, end, now, minIdle, count)
  }

  ghost predicate Sound(st: Store) {
    && (forall i | i in st.live :: i < |st.issued|)
    && (forall e | e in st.pel :: e in st.live && e < st.cursor)
  }

  function Reaped(st: Store, e: EntryId, now: real, minIdle: real, random: real): (r: Store)
    requires forall i | i in st.live :: i < |st.issued|
    ensures r.issued == st.issued && r.live <= st.live
  {
    var st1 := JobStore.Claim(st, e, now, minIdle);
    if CanClaim(st, e, now, minIdle) && e in st.live then Settled(st1, e, st.issued[e], false, now, random) else st1
  }

  function Sweep(st: Store, es: seq<EntryId>, now: real, minIdle: real, random: real): (r: Store)
    requires forall i | i in st.live :: i < |st.issued|
    ensures r.issued == st.issued && r.live <= st.live
  {
    if es == [] then st else Reaped(Sweep(st, es[..|es| - 1], now, minIdle, random), es[|es| - 1], now, minIdle, random)
  }

  function Ids(es: seq<EntryId>): set<EntryId> {
    set e | e in es
  }

  ghost predicate Claimable(st: Store, es: seq<EntryId>, now: real, minIdle: real) {
    && (forall a | 0 <= a < |es| :: CanClaim(st, es[a], now, minIdle) && es[a] < |st.issued|)
    && (forall a, b | 0 <= a < b < |es| :: es[a] != es[b])
  }

  // st1 is st without the entries.
  ghost predicate Swept(st: Store, st1: Store, es: set<EntryId>) {
    Sound(st1) && st1.live == st.live - es && st1.pel == st.pel - es && st1.cursor == st.cursor
  }

  lemma SweptOneMore(st: Store, mid: Store, st1: Store, es: set<EntryId>, e: EntryId)
    requires Swept(st, mid, es) && st1.issued == mid.issued
    requires st1.live == mid.live - {e} && st1.pel == mid.pel - {e} && st1.cursor == mid.cursor
    ensures Swept(st, st1, es + {e})
  {
  }

  lemma {:induction false} SweepRemoves(st: Store, es: seq<EntryId>, now: real, minIdle: real, random: real)
    requires Sound(st) && Claimable(st, es, now, minIdle)
    ensures Swept(st, Sweep(st, es, now, minIdle, random), Ids(es))
    decreases |es|
  {
    if es == [] {
      assert Ids(es) == {};
    } else {
      var init, last := es[..|es| - 1], es[|es| - 1];
      var mid := Sweep(st, init, now, minIdle, random);
      assert es == init + [last];
      SweepRemoves(st, init, now, minIdle, random);
      assert last !in init;
      assert Ids(es) == Ids(init) + {last};
      SweepOne(mid, last, now, minIdle, random);
      SweptOneMore(st, mid, Sweep(st, es, now, minIdle, random), Ids(init), last);
    }
  }

  // The next claimable entry of a sweep is still there to be claimed.
  lemma SweepNext(st: Store, es: seq<EntryId>, i: nat, now: real, minIdle: real, random: real)
    requires Sound(st) && Claimable(st, es, now, minIdle) && i < |es|
    ensures var before := Sweep(st, es[..i], now, minIdle, random);
            && Sound(before) && before.issued == st.issued && es[i] in before.live
                && CanClaim(before, es[i], now, minIdle)
            && Sweep(st, es[..i + 1], now, minIdle, random) == Reaped(before, es[i], now, minIdle, random)
            && |Sweep(st, es[..i + 1], now, minIdle, random).dlq|
               == |before.dlq| + (if Exhausted(Attempted(st.issued[es[i]])) then 1 else 0)
  {
    SweepRemoves(st, es[..i], now, minIdle, random);
    assert es[i] !in es[..i];
    assert es[..i + 1][..i] == es[..i];
    SweepOne(Sweep(st, es[..i], now, minIdle, random), es[i], now, minIdle, random);
  }

  ghost predicate Routed(st: Store, r: Store, e: EntryId)
    requires e < |st.issued|
  {
    if Exhausted(Attempted(st.issued[e])) then Attempted(st.issued[e]).(state := Dead) in r.dlq
        else st.issued[e].id in r.delayed
  }

  /** What a sweep over claimable entries leaves: all of them gone from the stream and the pending list, each job
      delayed or, its attempts used up, in the dead-letter log. */
  lemma {:induction false} SweepRoutes(st: Store, es: seq<EntryId>, now: real, minIdle: real, random: real)
    requires Sound(st) && Claimable(st, es, now, minIdle)
    ensures var r := Sweep(st, es, now, minIdle, random);
            && r.live == st.live - Ids(es) && r.pel == st.pel - Ids(es)
            && forall a | 0 <= a < |es| :: Routed(st, r, es[a])
    decreases |es|
  {
    SweepRemoves(st, es, now, minIdle, random);
    if es != [] {
      var init, last := es[..|es| - 1], es[|es| - 1];
      SweepRoutes(st, init, now, minIdle, random);
      var mid, r := Sweep(st, init, now, minIdle, random), Sweep(st, es, now, minIdle, random);
      assert last !in init;
      SweepOne(mid, last, now, minIdle, random);
      forall a | 0 <= a < |es| ensures Routed(st, r, es[a]) {
        if a < |init| { assert Routed(st, mid, init[a]); }
      }
    }
  }

  lemma SweepOne(st: Store, e: EntryId, now: real, minIdle: real, random: real)
    requires Sound(st) && CanClaim(st, e, now, minIdle) && e < |st.issued|
    ensures var r := Reaped(st, e, now, minIdle, random);
            && r.live == st.live - {e} && r.pel == st.pel - {e} && r.cursor == st.cursor
            && (forall j | j in st.delayed :: j in r.delayed)
            && (forall job | job in st.dlq :: job in r.dlq)
            && |r.dlq| == |st.dlq| + (if Exhausted(Attempted(st.issued[e])) then 1 else 0)
            && (if Exhausted(Attempted(st.issued[e]))
                then Attempted(st.issued[e]).(state := Dead) in r.dlq else st.issued[e].id in r.delayed)
  {
    if Exhausted(Attempted(st.issued[e])) {
      assert Reaped(st, e, now, minIdle, random).dlq[|st.dlq|] == Attempted(st.issued[e]).(state := Dead);
    }
  }

  class Reaper {
    var reclaimed: nat
    var killed: nat

    // One pending entry; `random` is the jitter draw of its backoff.
    method HandlePending(redis: Redis, e: EntryId, now: real, minIdle: real, random: real)
      returns (dead: bool, done: bool)
      requires forall i | i in redis.live :: i < |redis.issued|
      modifies redis
      ensures redis.Contents() == Reaped(old(redis.Contents()), e, now, minIdle, random)
      ensures done == (CanClaim(old(redis.Contents()), e, now, minIdle) && e in old(redis.live))
      ensures dead == (done && Exhausted(Attempted(old(redis.issued)[e])))
    {
      var data := redis.Claim(e, now, minIdle);
      dead, done := false, data.Some?;
      if done {
        var job := data.value.(attempts := data.value.attempts + 1);
        if job.attempts >= job.maxAttempts {
          redis.AckAndDead(e, job.(state := Dead));
          dead := true;
        } else {
          var runAt := now + Backoff.Compute(job.attempts, job.backoff, random);
          redis.SetData(job.(state := Delayed, scheduledFor := Some(runAt)));
          redis.AckAndRetry(e, job.id, runAt, job.attempts);
        }
      }
    }

    /** A tick without interference sweeps the listed entries and counts each as reclaimed or killed, the killed being
        those the dead-letter log gains. */
    method Tick(redis: Redis, now: real, minIdle: real, batch: nat, random: real)
      requires Sound(redis.Contents())
      modifies this, redis
      ensures var es := Stale(old(redis.pel), 0, old(redis.cursor), now, minIdle, batch);
              && redis.Contents() == Sweep(old(redis.Contents()), es, now, minIdle, random)
              && reclaimed + killed == old(reclaimed + killed) + |es|
      ensures |redis.dlq| - |old(redis.dlq)| == killed - old(killed)
    {
      var es := Stale(redis.pel, 0, redis.cursor, now, minIdle, batch);
      var k, r := 0, 0;
      assert Claimable(old(redis.Contents()), es, now, minIdle);
      for i := 0 to |es|
        invariant redis.Contents() == Sweep(old(redis.Contents()), es[..i], now, minIdle, random)
        invariant reclaimed == old(reclaimed) && killed == old(killed)
        invariant r + k == i && |redis.dlq| == |old(redis.dlq)| + k
      {
        SweepNext(old(redis.Contents()), es, i, now, minIdle, random);
        var dead, done := HandlePending(redis, es[i], now, minIdle, random);
        if dead {
          k := k + 1;
        } else if done {
          r := r + 1;
        }
      }
      assert es[..|es|] == es;
      reclaimed, killed := reclaimed + r, killed + k;
    }
  }

  // ---- scheduler.ts ----

  class Scheduler {
    method Tick(redis: Redis, now: real, batch: nat) returns (moved: nat)
      modifies redis
      ensures redis.Contents() == JobStore.MoveDelayed(old(redis.Contents()), now, batch)
      ensures moved == |JobDelayed.Live(old(redis.Contents()), Due(old(redis.delayed), now, batch))|
    {
      moved := redis.MoveDelayed(now, batch);
    }
  }
}
