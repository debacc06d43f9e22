/** Runs in which no process outlives the visibility timeout are undisturbed, and keep what undisturbed runs keep. */
module JobTimely {
  import opened Wrappers
  import opened JobStore
  import opened JobProtocol
  import opened JobPlaces
  import opened JobBound
  import opened JobLimit

  // Every process working on a pending entry is within the visibility timeout of the entry's last delivery or claim,
  // and will be dt later.
  ghost predicate InTime(c: Config, s: System, dt: real) {
    0.0 < c.visibility && forall e | Held(s, e) && e in s.store.pel :: s.clock + dt - s.store.pel[e] < c.visibility
  }

  /** Time passes only as far as every process stays in time; job ids are fresh; only dead jobs are requeued. */
  ghost predicate Timely(c: Config, s: System, a: Action) {
    && (a.Tick? ==> InTime(c, s, a.dt))
    && (a.Add? ==> a.job.id !in s.added)
    && (a.Requeue? ==> a.j in s.ending && s.ending[a.j] == EndedDead)
  }

  // Nothing is held for longer than before, but what is freshly delivered or claimed.
  ghost predicate NoLonger(s: System, s1: System) {
    s1.clock == s.clock && forall e | Held(s1, e) && e in s1.store.pel ::
      s1.store.pel[e] == s.clock || (Held(s, e) && e in s.store.pel && s1.store.pel[e] == s.store.pel[e])
  }

  lemma InTimeKept(c: Config, s: System, s1: System)
    requires InTime(c, s, 0.0) && NoLonger(s, s1)
    ensures InTime(c, s1, 0.0)
  {
  }

  // The same holders, the same pending times.
  lemma InTimeStill(c: Config, s: System, s1: System, dt: real)
    requires InTime(c, s, dt) && s1.clock == s.clock + dt
    requires s1.workers == s.workers && s1.reapers == s.reapers && s1.store.pel == s.store.pel
    ensures InTime(c, s1, 0.0)
  {
    assert forall e :: Held(s1, e) <==> Held(s, e);
  }

  lemma InTimeWorker(c: Config, s: System, a: Action, s1: System)
    requires InTime(c, s, 0.0) && Enabled(c, s, a) && ByWorker(a) && s1 == Step(c, s, a)
    ensures InTime(c, s1, 0.0)
  {
    InTimeKept(c, s, s1);
  }

  lemma InTimeReaper(c: Config, s: System, a: Action, s1: System)
    requires InTime(c, s, 0.0) && Enabled(c, s, a) && ByReaper(a) && s1 == Step(c, s, a)
    ensures InTime(c, s1, 0.0)
  {
    InTimeKept(c, s, s1);
  }

  lemma InTimeFetch(c: Config, s: System, s1: System)
    requires InTime(c, s, 0.0) && s1 == Fetch(s)
    ensures InTime(c, s1, 0.0)
  {
    InTimeKept(c, s, s1);
  }

  lemma InTimeClaimed(c: Config, s: System, r: nat, e: EntryId, s1: System)
    requires InTime(c, s, 0.0) && CanClaim(s.store, e, s.clock, c.visibility) && s1 == Claimed(s, r, e, c.visibility)
    ensures !Held(s, e) && InTime(c, s1, 0.0)
  {
    InTimeKept(c, s, s1);
  }

  lemma TimelyStep(c: Config, s: System, a: Action, s1: System)
    requires InTime(c, s, 0.0) && Enabled(c, s, a) && Timely(c, s, a) && s1 == Step(c, s, a)
    ensures Undisturbed(s, a) && InTime(c, s1, 0.0)
  {
    if ByWorker(a) {
      InTimeWorker(c, s, a, s1);
    } else if ByReaper(a) {
      InTimeReaper(c, s, a, s1);
    } else if a.Read? {
      InTimeFetch(c, s, s1);
    } else if a.ReaperClaim? {
      InTimeClaimed(c, s, a.r, a.e, s1);
    } else if a.Tick? {
      InTimeStill(c, s, s1, a.dt);
    } else {
      PromoteAllRemoves(s.store, if a.Move? then Due(s.store.delayed, a.now, a.limit) else []);
      InTimeStill(c, s, s1, 0.0);
    }
  }

  lemma TimelyIsUndisturbed(c: Config, acts: seq<Action>, t: System)
    requires 0.0 < c.visibility && Exec(c, (x, a) => Timely(c, x, a), INIT, acts, t)
    ensures Exec(c, (x, a) => Undisturbed(x, a), INIT, acts, t)
  {
    forall x, a | Enabled(c, x, a) && Timely(c, x, a) && InTime(c, x, 0.0)
      ensures Undisturbed(x, a) && InTime(c, Step(c, x, a), 0.0)
    {
      TimelyStep(c, x, a, Step(c, x, a));
    }
    ExecWeaken(c, (x, a) => Timely(c, x, a), x => InTime(c, x, 0.0), (x, a) => Undisturbed(x, a), INIT, acts, t);
  }

  /** Within the visibility timeout every unexpired job is in exactly one place and its hash names it. */
  lemma OnePlaceInTime(c: Config, acts: seq<Action>, t: System, j: JobId)
    requires 0.0 < c.visibility && Exec(c, (x, a) => Timely(c, x, a), INIT, acts, t)
    requires j in t.added && j !in t.expired
    ensures PlaceCount(t, j) == 1
    ensures HasData(t.store, j) && t.store.hashes[j].state.Some?
    ensures forall state :: NamesPlace(t, j, state) <==> t.store.hashes[j].state == Some(state)
  {
    TimelyIsUndisturbed(c, acts, t);
    ExactlyOnePlace(c, acts, t, j);
  }

  ghost predicate TimelyOnce(c: Config, j: JobId, max: int, s: System, a: Action) {
    && Timely(c, s, a)
    && (a.Add? && a.job.id == j ==> a.job.maxAttempts == max)
    && a != Action.Requeue(j)
  }

  /** Within the visibility timeout a handler runs at most max(1, maxAttempts) times. */
  lemma LimitKeptInTime(c: Config, max: int, j: JobId, acts: seq<Action>, t: System)
    requires 0.0 < c.visibility && Exec(c, (x, a) => TimelyOnce(c, j, max, x, a), INIT, acts, t)
    ensures t.invoked[j] <= AtLeastOne(max)
  {
    forall x, a | Enabled(c, x, a) && TimelyOnce(c, j, max, x, a) && InTime(c, x, 0.0)
      ensures UndisturbedOnce(j, max, x, a) && InTime(c, Step(c, x, a), 0.0)
    {
      TimelyStep(c, x, a, Step(c, x, a));
    }
    ExecWeaken(c, (x, a) => TimelyOnce(c, j, max, x, a), x => InTime(c, x, 0.0),
               (x, a) => UndisturbedOnce(j, max, x, a),
               INIT, acts, t);
    LimitKept(c, max, j, acts, t);
  }
}
