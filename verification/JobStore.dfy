/** The Redis state one job queue lives in, and each script, transaction and command the queue issues on it
    as a function on that state (apps/job-queue/src: lua.ts, queue.ts, dlq.ts, worker.ts, reaper.ts). */
module JobStore {
  import opened Wrappers
  import Backoff

  // Job ids are numbered in the order Redis compares members of equal score; entry ids in the order XADD hands them
  // out.
  type JobId = nat
  type EntryId = nat

  datatype JobState = Waiting | Active | Completed | Delayed | Dead

  datatype Job = Job(id: JobId, attempts: nat, maxAttempts: int, backoff: Backoff.Options,
                     state: JobState, scheduledFor: Option<real>)

  // A job hash; HSET on a missing key creates it with only the fields written.
  datatype Hash = Hash(state: Option<JobState>, attempts: Option<nat>, data: Option<Job>)

  // The stream is append-only: `issued` lists every entry ever added (an entry's id is its position) and
  // `live` the ids not yet deleted.
  datatype Store = Store(
    issued: seq<Job>,
    live: set<EntryId>,
    cursor: EntryId,               // everything below it has been delivered to the group
    pel: map<EntryId, real>,       // pending entries: when last delivered or claimed
    delayed: map<JobId, real>,     // the zset of run-at times
    dlq: seq<Job>,
    hashes: map<JobId, Hash>)

  const EMPTY_STORE := Store([], {}, 0, map[], map[], [], map[])

  function HashOf(hashes: map<JobId, Hash>, j: JobId): Hash {
    if j in hashes then hashes[j] else Hash(None, None, None)
  }

  // ---- records (queue.ts, worker.ts, reaper.ts) ----

  function NewJob(id: JobId, maxAttempts: int, backoff: Backoff.Options, delayMs: Option<real>, now: real): Job {
    if delayMs.Some? && delayMs.value > 0.0
    then Job(id, 0, maxAttempts, backoff, Delayed, Some(now + delayMs.value))
    else Job(id, 0, maxAttempts, backoff, Waiting, None)
  }

  // A scheduled time of zero is falsy.
  predicate IsScheduled(job: Job) {
    job.scheduledFor.Some? && job.scheduledFor.value != 0.0
  }

  function Attempted(job: Job): Job {
    job.(attempts := job.attempts + 1)
  }

  predicate Exhausted(job: Job) {
    job.attempts >= job.maxAttempts
  }

  function Rescheduled(job: Job, runAt: real): Job {
    job.(state := Delayed, scheduledFor := Some(runAt))
  }

  function Requeued(job: Job): Job {
    job.(attempts := 0, state := Waiting, scheduledFor := None)
  }

  // ---- atomic operations ----

  function XAdd(st: Store, job: Job): Store {
    st.(issued := st.issued + [job], live := st.live + {|st.issued|})
  }

  function Enqueue(st: Store, job: Job): Store {
    var st1 := st.(hashes := st.hashes[job.id := Hash(Some(job.state), Some(job.attempts), Some(job))]);
    if IsScheduled(job)
    then st1.(delayed := st1.delayed[job.id := job.scheduledFor.value])
    else XAdd(st1, job)
  }

  // The first entry at or after c that has not been deleted, or the end of the stream.
  function FirstLive(live: set<EntryId>, c: EntryId, end: EntryId): (e: EntryId)
    ensures c <= e
    ensures e < end ==> e in live
    ensures forall i :: c <= i < e ==> i !in live
    decreases end - c
  {
    if c >= end || c in live then c else FirstLive(live, c + 1, end)
  }

  // XREADGROUP with COUNT 1: the next undelivered entry, if any, becomes pending.
  function ReadOne(st: Store, now: real): Store {
    var e := FirstLive(st.live, st.cursor, |st.issued|);
    if e < |st.issued| then st.(cursor := e + 1, pel := st.pel[e := now]) else st
  }

  // XCLAIM with a minimum idle time; an entry deleted under a pending record only loses the record.
  predicate CanClaim(st: Store, e: EntryId, now: real, minIdle: real) {
    e in st.pel && now - st.pel[e] >= minIdle
  }

  function Claim(st: Store, e: EntryId, now: real, minIdle: real): Store {
    if !CanClaim(st, e, now, minIdle) then st
    else if e in st.live then st.(pel := st.pel[e := now])
    else st.(pel := st.pel - {e})
  }

  function AckDelete(st: Store, e: EntryId): Store {
    st.(pel := st.pel - {e}, live := st.live - {e})
  }

  function SetData(st: Store, job: Job): Store {
    st.(hashes := st.hashes[job.id := HashOf(st.hashes, job.id).(data := Some(job))])
  }

  function AckAndComplete(st: Store, e: EntryId, j: JobId): Store {
    var st1 := AckDelete(st, e);
    st1.(hashes := st1.hashes[j := HashOf(st1.hashes, j).(state := Some(Completed))])
  }

  function AckAndRetry(st: Store, e: EntryId, j: JobId, runAt: real, attempts: nat): Store {
    var st1 := AckDelete(st, e);
    st1.(hashes := st1.hashes[j := HashOf(st1.hashes, j).(state := Some(Delayed), attempts := Some(attempts))],
         delayed := st1.delayed[j := runAt])
  }

  function AckAndDead(st: Store, e: EntryId, job: Job): Store {
    var st1 := AckDelete(st, e);
    st1.(hashes := st1.hashes[job.id :=
           HashOf(st1.hashes, job.id).(state := Some(Dead), attempts := Some(job.attempts))],
         dlq := st1.dlq + [job])
  }

  predicate HasData(st: Store, j: JobId) {
    j in st.hashes && st.hashes[j].data.Some?
  }

  function Promote(st: Store, j: JobId): Store {
    var st1 := st.(delayed := st.delayed - {j});
    if HasData(st, j)
    then XAdd(st1.(hashes := st1.hashes[j := st1.hashes[j].(state := Some(Waiting))]), st.hashes[j].data.value)
    else st1
  }

  function PromoteAll(st: Store, js: seq<JobId>): Store {
    if js == [] then st else Promote(PromoteAll(st, js[..|js| - 1]), js[|js| - 1])
  }

  function Requeue(st: Store, j: JobId): Store {
    if !HasData(st, j) then st
    else
      var job := Requeued(st.hashes[j].data.value);
      XAdd(st.(hashes := st.hashes[job.id :=
             HashOf(st.hashes, job.id).(state := Some(Waiting), attempts := Some(0), data := Some(job))]), job)
  }

  function Expire(st: Store, j: JobId): Store {
    st.(hashes := st.hashes - {j})
  }

  // ---- ZRANGEBYSCORE key -inf now LIMIT 0 limit ----

  predicate Before(z: map<JobId, real>, a: JobId, b: JobId)
    requires a in z && b in z
  {
    z[a] < z[b] || (z[a] == z[b] && a <= b)
  }

  predicate IsLeast(z: map<JobId, real>, j: JobId) {
    j in z && forall k | k in z :: Before(z, j, k)
  }

  lemma HasLeast(z: map<JobId, real>)
    requires z != map[]
    ensures exists j :: IsLeast(z, j)
    decreases |z|
  {
    var j :| j in z;
    var rest := z - {j};
    if rest == map[] {
      assert forall k | k in z :: k == j || k in rest;
      assert IsLeast(z, j);
    } else {
      HasLeast(rest);
      var m :| IsLeast(rest, m);
      var least := if Before(z, j, m) then j else m;
      forall k | k in z ensures Before(z, least, k) {
        if k != j { assert k in rest; }
      }
      assert IsLeast(z, least);
    }
  }

  function Least(z: map<JobId, real>): (j: JobId)
    requires z != map[]
    ensures IsLeast(z, j)
  {
    HasLeast(z);
    assert forall a, b | IsLeast(z, a) && IsLeast(z, b) :: Before(z, a, b) && Before(z, b, a);
    var j :| IsLeast(z, j);
    j
  }

  function Due(z: map<JobId, real>, now: real, limit: nat): seq<JobId>
    decreases |z|
  {
    if limit == 0 || z == map[] then []
    else
      var j := Least(z);
      if z[j] > now then [] else [j] + Due(z - {j}, now, limit - 1)
  }

  ghost predicate Distinct(js: seq<JobId>) {
    forall a, b | 0 <= a < b < |js| :: js[a] != js[b]
  }

  lemma {:induction false} DueMembers(z: map<JobId, real>, now: real, limit: nat)
    ensures Distinct(Due(z, now, limit))
    ensures forall j | j in Due(z, now, limit) :: j in z && z[j] <= now
    decreases |z|
  {
    if limit > 0 && z != map[] && z[Least(z)] <= now {
      DueMembers(z - {Least(z)}, now, limit - 1);
    }
  }

  function Members(js: seq<JobId>): set<JobId> {
    set j | j in js
  }

  lemma {:induction false} PromoteAllRemoves(st: Store, js: seq<JobId>)
    ensures PromoteAll(st, js).delayed == st.delayed - Members(js)
    ensures PromoteAll(st, js).pel == st.pel
    decreases |js|
  {
    if js != [] {
      PromoteAllRemoves(st, js[..|js| - 1]);
      assert Members(js) == Members(js[..|js| - 1]) + {js[|js| - 1]};
    }
  }

  function MoveDelayed(st: Store, now: real, limit: nat): Store {
    PromoteAll(st, Due(st.delayed, now, limit))
  }
}
