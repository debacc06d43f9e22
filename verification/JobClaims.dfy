/** What a claim of an entry somebody is still working on leads to: it is exactly such a claim that lets a job be in two
    places. */
module JobClaims {
  import opened JobStore
  import opened JobProtocol
  import opened JobPlaces
  import opened JobDelayed

  ghost predicate Run(c: Config, s: System, acts: seq<Action>, t: System) {
    Exec(c, (x, a) => Undisturbed(x, a), s, acts, t)
  }

  ghost predicate Leads(c: Config, s: System, t: System) {
    exists acts :: Run(c, s, acts, t)
  }

  lemma LeadsNowhere(c: Config, s: System)
    ensures Leads(c, s, s)
  {
    assert Run(c, s, [], s);
  }

  lemma LeadsOn(c: Config, s: System, t: System, a: Action)
    requires Leads(c, s, t) && Enabled(c, t, a) && Undisturbed(t, a)
    ensures Leads(c, s, Step(c, t, a))
  {
    var acts :| Run(c, s, acts, t);
    ExecSnoc(c, (x, b) => Undisturbed(x, b), s, acts, t, a);
    assert Run(c, s, acts + [a], Step(c, t, a));
  }

  // ---- what phases tell ----

  // Only a process that may retry has written, and a reaper is never between a delivery and a handler.
  ghost predicate Phased(s: System) {
    && (forall e | e in s.workers :: e < |s.store.issued| && (s.workers[e].Wrote? ==> !Exhausted(Settling(s, e))))
    && (forall r | r in s.reapers :: s.reapers[r].entry < |s.store.issued| && s.reapers[r].phase != Fetched
          && (s.reapers[r].phase.Wrote? ==> !Exhausted(Settling(s, s.reapers[r].entry))))
  }

  // The stream has only grown, and the holders are at most those before.
  lemma PhasedGrows(s: System, s1: System)
    requires Phased(s) && s.store.issued <= s1.store.issued
    requires forall e | e in s1.workers :: e in s.workers && s1.workers[e] == s.workers[e]
    requires forall r | r in s1.reapers :: r in s.reapers && s1.reapers[r] == s.reapers[r]
    ensures Phased(s1)
  {
  }

  lemma PhasedWorker(c: Config, s: System, a: Action, s1: System)
    requires Phased(s) && Enabled(c, s, a) && ByWorker(a) && s1 == Step(c, s, a)
    ensures Phased(s1)
  {
  }

  lemma PhasedReaper(c: Config, s: System, a: Action, s1: System)
    requires Phased(s) && Enabled(c, s, a) && ByReaper(a) && s1 == Step(c, s, a)
    ensures Phased(s1)
  {
  }

  lemma PhasedFetch(s: System, s1: System)
    requires Phased(s) && s1 == Fetch(s)
    ensures Phased(s1)
  {
  }

  lemma PhasedClaimed(c: Config, s: System, r: nat, e: EntryId, s1: System)
    requires Phased(s) && Orderly(s) && Enabled(c, s, ReaperClaim(r, e)) && s1 == Claimed(s, r, e, c.visibility)
    ensures Phased(s1)
  {
  }

  lemma PhasedMove(s: System, js: seq<JobId>, s1: System)
    requires Phased(s) && s1 == s.(store := PromoteAll(s.store, js))
    ensures Phased(s1)
  {
    PromoteAllAppends(s.store, js);
    PhasedGrows(s, s1);
  }

  lemma PhasedStep(c: Config, s: System, a: Action, s1: System)
    requires Phased(s) && Orderly(s) && Enabled(c, s, a) && s1 == Step(c, s, a)
    ensures Phased(s1)
  {
    if ByWorker(a) {
      PhasedWorker(c, s, a, s1);
    } else if ByReaper(a) {
      PhasedReaper(c, s, a, s1);
    } else if a.Move? {
      PhasedMove(s, Due(s.store.delayed, a.now, a.limit), s1);
    } else if a.Read? {
      PhasedFetch(s, s1);
    } else if a.ReaperClaim? {
      PhasedClaimed(c, s, a.r, a.e, s1);
    } else {
      PhasedGrows(s, s1);
    }
  }

  lemma ReachedIsPhased(c: Config, acts: seq<Action>, s: System)
    requires Run(c, INIT, acts, s)
    ensures Orderly(s) && Phased(s)
  {
    OrderlyInit();
    forall x, a | Enabled(c, x, a) && Undisturbed(x, a) && Orderly(x) && Phased(x)
      ensures Orderly(Step(c, x, a)) && Phased(Step(c, x, a))
    {
      OrderlyStep(c, x, a);
      PhasedStep(c, x, a, Step(c, x, a));
    }
    ExecKeeps(c, (x, a) => Undisturbed(x, a), x => Orderly(x) && Phased(x), INIT, acts, s);
  }

  // ---- two places ----

  lemma TwoPlaces(s: System, n: EntryId, j: JobId)
    requires EntryOf(s, n, j) && (j in s.store.delayed || j in s.ending)
    ensures PlaceCount(s, j) >= 2
  {
    assert n in EntriesOf(s, j);
    assert EntriesOf(s, j) != {};
  }

  // t is s without reaper r, which has settled its entry e; the job is back in the stream under another entry.
  ghost predicate Moved(s: System, t: System, r: nat, e: EntryId, n: EntryId) {
    && e < |s.store.issued| && s.store.issued <= t.store.issued
    && t.workers == s.workers && t.reapers == s.reapers - {r} && t.expired == s.expired
    && n != e && EntryOf(t, n, s.store.issued[e].id)
  }

  // Promoting a list of members appends an entry for each that has data.
  lemma {:induction false} PromotedEntry(st: Store, js: seq<JobId>, j: JobId) returns (n: EntryId)
    requires j in js && HasData(st, j) && st.hashes[j].data.value.id == j
    ensures st.issued <= PromoteAll(st, js).issued
    ensures |st.issued| <= n < |PromoteAll(st, js).issued| && n in PromoteAll(st, js).live
    ensures PromoteAll(st, js).issued[n].id == j
    decreases |js|
  {
    var init, last := js[..|js| - 1], js[|js| - 1];
    var mid := PromoteAll(st, init);
    PromoteAllAppends(st, init);
    if j in init {
      n := PromotedEntry(st, init, j);
    } else {
      assert j == last;
      n := |mid.issued|;
    }
  }

  // One move can promote a given delayed member.
  lemma PromotedAway(c: Config, s: System, j: JobId) returns (move: Action, n: EntryId)
    requires j in s.store.delayed && HasData(s.store, j) && s.store.hashes[j].data.value.id == j
    ensures move.Move? && Enabled(c, s, move) && Undisturbed(s, move)
    ensures var t := Step(c, s, move);
            && s.store.issued <= t.store.issued && n >= |s.store.issued| && EntryOf(t, n, j)
            && t.workers == s.workers && t.reapers == s.reapers && t.expired == s.expired
  {
    var now := s.store.delayed[j];
    var limit := |DueSet(s.store.delayed, now)|;
    move := Move(now, limit);
    var js := Due(s.store.delayed, now, limit);
    BacklogDrained(s.store, now, limit, 1);
    assert j in DueSet(s.store.delayed, now);
    assert j in js;
    n := PromotedEntry(s.store, js, j);
  }

  // The reaper retries, and the scheduler promotes.
  lemma RetriedAway(c: Config, s: System, r: nat) returns (t: System, n: EntryId)
    requires r in s.reapers && s.reapers[r].phase == Running && s.reapers[r].entry < |s.store.issued|
    requires !Exhausted(Settling(s, s.reapers[r].entry))
    ensures Leads(c, s, t) && Moved(s, t, r, s.reapers[r].entry, n)
  {
    var retry := ReaperWriteRetry(r, 0.0, 0.0);
    var s1 := Step(c, s, retry);
    LeadsNowhere(c, s);
    LeadsOn(c, s, s, retry);
    var move: Action;
    move, n := PromotedAway(c, s1, s.store.issued[s.reapers[r].entry].id);
    LeadsOn(c, s, s1, move);
    t := Step(c, s1, move);
  }

  // The reaper dead-letters the job, and it is requeued.
  lemma DiedAway(c: Config, s: System, r: nat) returns (t: System, n: EntryId)
    requires r in s.reapers && s.reapers[r].phase == Running && s.reapers[r].entry < |s.store.issued|
    requires Exhausted(Settling(s, s.reapers[r].entry))
    requires var j := s.store.issued[s.reapers[r].entry].id; HasData(s.store, j) && s.store.hashes[j].data.value.id == j
    ensures Leads(c, s, t) && Moved(s, t, r, s.reapers[r].entry, n)
  {
    var e := s.reapers[r].entry;
    var j := s.store.issued[e].id;
    LeadsNowhere(c, s);
    LeadsOn(c, s, s, ReaperDie(r));
    var s1 := Step(c, s, ReaperDie(r));
    LeadsOn(c, s, s1, Action.Requeue(j));
    t := Step(c, s1, Action.Requeue(j));
    n := |s1.store.issued|;
    assert EntryOf(t, n, j);
  }

  // One step that leaves the job where it is and puts it in a second place.
  lemma StepSpoils(c: Config, s: System, a: Action, t: System, n: EntryId, j: JobId)
    requires Enabled(c, s, a) && Undisturbed(s, a) && t == Step(c, s, a) && t.expired == s.expired
    requires EntryOf(t, n, j) && (j in t.store.delayed || j in t.ending)
    ensures Leads(c, s, t) && t.expired == s.expired && PlaceCount(t, j) >= 2
  {
    LeadsNowhere(c, s);
    LeadsOn(c, s, s, a);
    TwoPlaces(t, n, j);
  }

  // Whoever still works on entry e then puts the job in a second place.
  lemma RunningSpoils(c: Config, s: System, e: EntryId, n: EntryId, j: JobId, t: System)
    requires e in s.workers && e < |s.store.issued| && s.store.issued[e].id == j && n != e && EntryOf(s, n, j)
    requires s.workers[e] == Running && t == Step(c, s, Complete(e))
    ensures Leads(c, s, t) && t.expired == s.expired && PlaceCount(t, j) >= 2
  {
    assert EntryOf(t, n, j);
    StepSpoils(c, s, Complete(e), t, n, j);
  }

  lemma WroteSpoils(c: Config, s: System, e: EntryId, n: EntryId, j: JobId, t: System)
    requires e in s.workers && e < |s.store.issued| && s.store.issued[e].id == j && n != e && EntryOf(s, n, j)
    requires s.workers[e].Wrote? && t == Step(c, s, Retry(e))
    ensures Leads(c, s, t) && t.expired == s.expired && PlaceCount(t, j) >= 2
  {
    assert EntryOf(t, n, j);
    StepSpoils(c, s, Retry(e), t, n, j);
  }

  lemma WorkerSpoils(c: Config, s: System, e: EntryId, n: EntryId, j: JobId) returns (t: System)
    requires e in s.workers && e < |s.store.issued| && s.store.issued[e].id == j && n != e && EntryOf(s, n, j)
    ensures Leads(c, s, t) && t.expired == s.expired && PlaceCount(t, j) >= 2
  {
    if s.workers[e].Wrote? {
      t := Step(c, s, Retry(e));
      WroteSpoils(c, s, e, n, j, t);
    } else if s.workers[e] == Running {
      t := Step(c, s, Complete(e));
      RunningSpoils(c, s, e, n, j, t);
    } else {
      var s1 := Step(c, s, Start(e));
      t := Step(c, s1, Complete(e));
      LeadsNowhere(c, s);
      LeadsOn(c, s, s, Start(e));
      assert EntryOf(s1, n, j);
      RunningSpoils(c, s1, e, n, j, t);
      LeadsThen(c, s, s1, t);
    }
  }

  // So does another reaper that works on it.
  lemma ReaperStepSpoils(c: Config, s: System, q: nat, a: Action, n: EntryId, j: JobId, t: System)
    requires q in s.reapers && s.reapers[q].entry < |s.store.issued| && s.store.issued[s.reapers[q].entry].id == j
    requires n != s.reapers[q].entry && EntryOf(s, n, j)
    requires a == ReaperRetry(q) || a == ReaperDie(q) || a == ReaperWriteRetry(q, 0.0, 0.0)
    requires Enabled(c, s, a) && t == Step(c, s, a)
    ensures Leads(c, s, t) && t.expired == s.expired && PlaceCount(t, j) >= 2
  {
    assert EntryOf(t, n, j);
    StepSpoils(c, s, a, t, n, j);
  }

  lemma ReaperSpoils(c: Config, s: System, q: nat, n: EntryId, j: JobId) returns (t: System)
    requires Phased(s) && q in s.reapers
    requires s.store.issued[s.reapers[q].entry].id == j && n != s.reapers[q].entry && EntryOf(s, n, j)
    ensures Leads(c, s, t) && t.expired == s.expired && PlaceCount(t, j) >= 2
  {
    var a := if s.reapers[q].phase.Wrote? then ReaperRetry(q)
             else if Exhausted(Settling(s, s.reapers[q].entry)) then ReaperDie(q)
             else ReaperWriteRetry(q, 0.0, 0.0);
    t := Step(c, s, a);
    ReaperStepSpoils(c, s, q, a, n, j, t);
  }

  lemma LeadsThen(c: Config, s: System, t: System, u: System)
    requires Leads(c, s, t) && Leads(c, t, u)
    ensures Leads(c, s, u)
  {
    var xs :| Run(c, s, xs, t);
    var ys :| Run(c, t, ys, u);
    ExecConcat(c, (x, a) => Undisturbed(x, a), s, xs, t, ys, u);
    assert Run(c, s, xs + ys, u);
  }

  // What the claim of a live entry leaves.
  ghost predicate ClaimedBy(s: System, s1: System, r: nat, e: EntryId, j: JobId) {
    && e < |s1.store.issued| && s1.store.issued == s.store.issued && s1.store.issued[e].id == j
    && r !in s.reapers && s1.reapers == s.reapers[r := Handling(e, Running)] && s1.workers == s.workers
    && s1.expired == s.expired && HasData(s1.store, j) && s1.store.hashes[j].data.value.id == j
  }

  lemma ClaimTakes(c: Config, s: System, r: nat, e: EntryId, s1: System)
    requires Orderly(s) && Enabled(c, s, ReaperClaim(r, e)) && s1 == Step(c, s, ReaperClaim(r, e))
    requires e < |s.store.issued| && s.store.issued[e].id !in s.expired
    ensures ClaimedBy(s, s1, r, e, s.store.issued[e].id)
  {
    var j := s.store.issued[e].id;
    assert EntryOf(s, e, j);
    assert InStream(s, j);
    assert Placed(s, j);
  }

  lemma ClaimMovesOn(c: Config, s: System, s1: System, r: nat, e: EntryId, j: JobId) returns (t: System, n: EntryId)
    requires ClaimedBy(s, s1, r, e, j)
    ensures Leads(c, s1, t) && Moved(s1, t, r, e, n)
  {
    if Exhausted(Settling(s1, e)) {
      t, n := DiedAway(c, s1, r);
    } else {
      t, n := RetriedAway(c, s1, r);
    }
  }

  // The earlier holder of entry e is still there.
  lemma HolderSpoils(c: Config, s: System, s1: System, mid: System, r: nat, e: EntryId, n: EntryId, j: JobId)
    returns (t: System)
    requires Phased(s) && Held(s, e) && ClaimedBy(s, s1, r, e, j) && Moved(s1, mid, r, e, n)
    ensures Leads(c, mid, t) && t.expired == mid.expired && PlaceCount(t, j) >= 2
  {
    if e in s.workers {
      t := WorkerSpoils(c, mid, e, n, j);
    } else {
      var q :| q in s.reapers && s.reapers[q].entry == e;
      PhasedGrows(s, mid);
      t := ReaperSpoils(c, mid, q, n, j);
    }
  }

  /** After a claim of a held entry there is a run, undisturbed from there on, that ends with the job in two places. */
  lemma HeldClaimBreaks(c: Config, s: System, r: nat, e: EntryId) returns (t: System)
    requires Orderly(s) && Phased(s) && Enabled(c, s, ReaperClaim(r, e)) && Held(s, e)
    requires s.store.issued[e].id !in s.expired
    ensures Leads(c, Step(c, s, ReaperClaim(r, e)), t) && t.expired == s.expired
    ensures PlaceCount(t, s.store.issued[e].id) >= 2
  {
    var j := s.store.issued[e].id;
    var s1 := Step(c, s, ReaperClaim(r, e));
    ClaimTakes(c, s, r, e, s1);
    var mid, n := ClaimMovesOn(c, s, s1, r, e, j);
    t := HolderSpoils(c, s, s1, mid, r, e, n, j);
    LeadsThen(c, s1, mid, t);
  }

  /** A claim, in any state reached without disturbance, leaves the job in exactly one place for ever after if and only
      if nobody is working on the entry claimed. */
  lemma ClaimKeepsIff(c: Config, prefix: seq<Action>, s: System, r: nat, e: EntryId)
    requires Run(c, INIT, prefix, s)
    requires Enabled(c, s, ReaperClaim(r, e)) && e < |s.store.issued| && s.store.issued[e].id !in s.expired
    ensures !Held(s, e) <==>
              forall t | Leads(c, Step(c, s, ReaperClaim(r, e)), t) && s.store.issued[e].id !in t.expired ::
                PlaceCount(t, s.store.issued[e].id) == 1
  {
    var j := s.store.issued[e].id;
    var claim := ReaperClaim(r, e);
    ReachedIsPhased(c, prefix, s);
    if Held(s, e) {
      var t := HeldClaimBreaks(c, s, r, e);
    } else {
      ExecSnoc(c, (x, a) => Undisturbed(x, a), INIT, prefix, s, claim);
      assert EntryOf(s, e, j);
      forall t | Leads(c, Step(c, s, claim), t) && j !in t.expired ensures PlaceCount(t, j) == 1 {
        var acts :| Run(c, Step(c, s, claim), acts, t);
        ExecConcat(c, (x, a) => Undisturbed(x, a), INIT, prefix + [claim], Step(c, s, claim), acts, t);
        AddedStays(c, Step(c, s, claim), acts, t, j);
        ExactlyOnePlace(c, prefix + [claim] + acts, t, j);
      }
    }
  }

  lemma AddedStays(c: Config, s: System, acts: seq<Action>, t: System, j: JobId)
    requires Run(c, s, acts, t) && j in s.added
    ensures j in t.added
  {
    ExecKeeps(c, (x, a) => Undisturbed(x, a), (x: System) => j in x.added, s, acts, t);
  }
}
