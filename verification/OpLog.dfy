/** The collaborative op log: optimistic sequence numbers, two-read hydration and snapshots that may be stale
    (apps/workflow-builder/src: repo/ops.ts, repo/workflows.ts, socket/gateway.ts). */
module OpLog {
  import opened Wrappers
  import opened Document

  datatype Envelope = Envelope(seqNo: int, op: Op)

  // ---- the queries on the ops collection (one workflow), listed in insertion order ----

  function MaxSeq(log: seq<Envelope>): int {
    if log == [] then 0
    else
      var m := MaxSeq(log[..|log| - 1]);
      if log[|log| - 1].seqNo > m then log[|log| - 1].seqNo else m
  }

  // sort({ seq: -1 }).limit(1), plus one. The sequence numbers stored are positive.
  function NextSeq(log: seq<Envelope>): int {
    MaxSeq(log) + 1
  }

  predicate Taken(log: seq<Envelope>, n: int) {
    exists i :: 0 <= i < |log| && log[i].seqNo == n
  }

  // find({ seq: { $gt: n } }).sort({ seq: 1 }): an insertion sort of the matches.
  function InsertBySeq(xs: seq<Envelope>, e: Envelope): seq<Envelope> {
    if xs == [] || e.seqNo <= xs[0].seqNo then [e] + xs else [xs[0]] + InsertBySeq(xs[1..], e)
  }

  function Since(log: seq<Envelope>, n: int): seq<Envelope> {
    if log == [] then []
    else
      var rest := Since(log[1..], n);
      if log[0].seqNo > n then InsertBySeq(rest, log[0]) else rest
  }

  function Ops(log: seq<Envelope>): seq<Op> {
    seq(|log|, i requires 0 <= i < |log| => log[i].op)
  }

  // The log holds exactly the numbers 1..n, in insertion order.
  ghost predicate Numbered(log: seq<Envelope>) {
    forall i | 0 <= i < |log| :: log[i].seqNo == i + 1
  }

  lemma {:induction false} NumberedMax(log: seq<Envelope>)
    requires Numbered(log)
    ensures MaxSeq(log) == |log|
  {
    if log != [] {
      NumberedMax(log[..|log| - 1]);
    }
  }

  // A tail of a numbered log.
  lemma {:induction false} SinceOfRun(log: seq<Envelope>, base: int, n: int)
    requires forall i | 0 <= i < |log| :: log[i].seqNo == base + i + 1
    ensures Since(log, n) == if n <= base then log else if n - base >= |log| then [] else log[n - base..]
    decreases |log|
  {
    if log != [] {
      SinceOfRun(log[1..], base + 1, n);
      if n <= base {
        assert Since(log[1..], n) == log[1..];
        assert InsertBySeq(log[1..], log[0]) == log;
      }
    }
  }

  lemma SinceIsSuffix(log: seq<Envelope>, n: nat)
    requires Numbered(log) && n <= |log|
    ensures Since(log, n) == log[n..]
  {
    SinceOfRun(log, 0, n);
  }

  // ---- the protocol ----

  const MAX_ATTEMPTS := 5

  // What a client handler is in the middle of.
  datatype Activity =
    | Reading(op: Op, attempt: nat)              // about to read the next number
    | Inserting(op: Op, attempt: nat, n: int)    // about to insert under number n
    | Hydrating(base: Doc, from: int)            // has read the workflow record
    | Hydrated(doc: Doc, at: int)                // has read the ops after it

  datatype State = State(log: seq<Envelope>, snapshot: Doc, snapshotSeq: int, busy: map<nat, Activity>, failed: nat)

  const FRESH := State([], EMPTY_DOC, 0, map[], 0)

  datatype Action =
    | Submit(c: nat, op: Op)
    | ReadNext(c: nat)
    | InsertOp(c: nat)
    | ReadRecord(c: nat)
    | ReadOps(c: nat)
    | WriteSnapshot(c: nat)
    | Leave(c: nat)          // a handler ends or its process crashes

  predicate Enabled(s: State, a: Action) {
    match a
    case Submit(c, _) => c !in s.busy
    case ReadNext(c) => c in s.busy && s.busy[c].Reading?
    case InsertOp(c) => c in s.busy && s.busy[c].Inserting?
    case ReadRecord(c) => c !in s.busy
    case ReadOps(c) => c in s.busy && s.busy[c].Hydrating?
    case WriteSnapshot(c) => c in s.busy && s.busy[c].Hydrated?
    case Leave(c) => c in s.busy
  }

  function Hydrate(log: seq<Envelope>, base: Doc, from: int): Activity {
    var ops := Since(log, from);
    Hydrated(Fold(base, Ops(ops)), if |ops| > 0 then ops[|ops| - 1].seqNo else from)
  }

  function Step(s: State, a: Action): State
    requires Enabled(s, a)
  {
    match a
    case Submit(c, op) => s.(busy := s.busy[c := Reading(op, 0)])
    case ReadNext(c) => s.(busy := s.busy[c := Inserting(s.busy[c].op, s.busy[c].attempt, NextSeq(s.log))])
    case InsertOp(c) =>
      var w := s.busy[c];
      if !Taken(s.log, w.n) then s.(log := s.log + [Envelope(w.n, w.op)], busy := s.busy - {c})
      else if w.attempt + 1 < MAX_ATTEMPTS then s.(busy := s.busy[c := Reading(w.op, w.attempt + 1)])
      else s.(busy := s.busy - {c}, failed := s.failed + 1)
    case ReadRecord(c) => s.(busy := s.busy[c := Hydrating(s.snapshot, s.snapshotSeq)])
    case ReadOps(c) => s.(busy := s.busy[c := Hydrate(s.log, s.busy[c].base, s.busy[c].from)])
    case WriteSnapshot(c) => s.(snapshot := s.busy[c].doc, snapshotSeq := s.busy[c].at)
    case Leave(c) => s.(busy := s.busy - {c})
  }

  ghost predicate Exec(s: State, acts: seq<Action>, t: State)
    decreases |acts|
  {
    if acts == [] then s == t else Enabled(s, acts[0]) && Exec(Step(s, acts[0]), acts[1..], t)
  }

  // doc is the fold of the first n operations of the log.
  ghost predicate FoldOfPrefix(log: seq<Envelope>, doc: Doc, n: int) {
    0 <= n <= |log| && doc == Fold(EMPTY_DOC, Ops(log[..n]))
  }

  ghost predicate Sound(s: State, w: Activity) {
    match w
    case Reading(_, _) => true
    case Inserting(_, _, n) => 1 <= n <= |s.log| + 1
    case Hydrating(base, from) => FoldOfPrefix(s.log, base, from)
    case Hydrated(doc, at) => FoldOfPrefix(s.log, doc, at)
  }

  ghost predicate Consistent(s: State) {
    && Numbered(s.log)
    && FoldOfPrefix(s.log, s.snapshot, s.snapshotSeq)
    && forall c | c in s.busy :: Sound(s, s.busy[c])
  }

  lemma PrefixStable(log: seq<Envelope>, e: Envelope, doc: Doc, n: int)
    requires FoldOfPrefix(log, doc, n)
    ensures FoldOfPrefix(log + [e], doc, n)
  {
    assert (log + [e])[..n] == log[..n];
  }

  lemma OpsSplit(log: seq<Envelope>, n: nat)
    requires n <= |log|
    ensures Ops(log) == Ops(log[..n]) + Ops(log[n..])
  {
  }

  // Hydrating from any prefix reaches the whole log as it stands at the second read.
  lemma HydrateReachesEnd(log: seq<Envelope>, base: Doc, from: int)
    requires Numbered(log) && FoldOfPrefix(log, base, from)
    ensures Hydrate(log, base, from) == Hydrated(Fold(EMPTY_DOC, Ops(log)), |log|)
  {
    SinceIsSuffix(log, from);
    OpsSplit(log, from);
    FoldConcat(EMPTY_DOC, Ops(log[..from]), Ops(log[from..]));
  }

  lemma ConsistentInsert(s: State, c: nat)
    requires Consistent(s) && Enabled(s, InsertOp(c))
    ensures Consistent(Step(s, InsertOp(c)))
  {
    var w := s.busy[c];
    var t := Step(s, InsertOp(c));
    assert Sound(s, w);
    if w.n <= |s.log| {
      assert s.log[w.n - 1].seqNo == w.n;
    }
    if !Taken(s.log, w.n) {
      var e := Envelope(w.n, w.op);
      PrefixStable(s.log, e, s.snapshot, s.snapshotSeq);
      forall d | d in t.busy ensures Sound(t, t.busy[d]) {
        assert Sound(s, s.busy[d]);
        match s.busy[d] {
          case Hydrating(base, from) => PrefixStable(s.log, e, base, from);
          case Hydrated(doc, at) => PrefixStable(s.log, e, doc, at);
          case _ =>
        }
      }
    } else {
      forall d | d in t.busy ensures Sound(t, t.busy[d]) {
        assert d in s.busy && Sound(s, s.busy[d]);
      }
    }
  }

  // Only what client c is doing changes.
  lemma ConsistentClient(s: State, c: nat, t: State)
    requires Consistent(s) && t.log == s.log && t.snapshot == s.snapshot && t.snapshotSeq == s.snapshotSeq
    requires forall d | d in t.busy && d != c :: d in s.busy && t.busy[d] == s.busy[d]
    requires c in t.busy ==> Sound(s, t.busy[c])
    ensures Consistent(t)
  {
    forall d | d in t.busy ensures Sound(t, t.busy[d]) {
      if d != c { assert Sound(s, s.busy[d]); }
    }
  }

  lemma ConsistentReadOps(s: State, c: nat)
    requires Consistent(s) && Enabled(s, ReadOps(c))
    ensures Consistent(Step(s, ReadOps(c)))
  {
    assert Sound(s, s.busy[c]);
    HydrateReachesEnd(s.log, s.busy[c].base, s.busy[c].from);
    assert s.log[..|s.log|] == s.log;
    ConsistentClient(s, c, Step(s, ReadOps(c)));
  }

  lemma ConsistentSnapshot(s: State, c: nat)
    requires Consistent(s) && Enabled(s, WriteSnapshot(c))
    ensures Consistent(Step(s, WriteSnapshot(c)))
  {
    assert Sound(s, s.busy[c]);
    forall d | d in s.busy ensures Sound(Step(s, WriteSnapshot(c)), s.busy[d]) {
      assert Sound(s, s.busy[d]);
    }
  }

  lemma ConsistentStep(s: State, a: Action)
    requires Consistent(s) && Enabled(s, a)
    ensures Consistent(Step(s, a))
  {
    match a
    case InsertOp(c) => ConsistentInsert(s, c);
    case ReadOps(c) => ConsistentReadOps(s, c);
    case WriteSnapshot(c) => ConsistentSnapshot(s, c);
    case ReadNext(c) =>
      NumberedMax(s.log);
      ConsistentClient(s, c, Step(s, a));
    case _ => ConsistentClient(s, a.c, Step(s, a));
  }

  lemma {:induction false} ConsistentRun(s: State, acts: seq<Action>, t: State)
    requires Consistent(s) && Exec(s, acts, t)
    ensures Consistent(t)
    decreases |acts|
  {
    if acts != [] {
      ConsistentStep(s, acts[0]);
      ConsistentRun(Step(s, acts[0]), acts[1..], t);
    }
  }

  /** Over every interleaving of appends, hydrations and snapshot writes: the stored numbers are 1..n in insertion
      order, the stored snapshot is the fold of exactly its first snapshotSeq operations, and what a hydration returns
      is the fold of the log up to the number it reports. */
  lemma SnapshotEquivalence(acts: seq<Action>, t: State)
    requires Exec(FRESH, acts, t)
    ensures forall i | 0 <= i < |t.log| :: t.log[i].seqNo == i + 1
    ensures 0 <= t.snapshotSeq <= |t.log| && t.snapshot == Fold(EMPTY_DOC, Ops(t.log[..t.snapshotSeq]))
    ensures forall c | c in t.busy && t.busy[c].Hydrated? ::
              0 <= t.busy[c].at <= |t.log| && t.busy[c].doc == Fold(EMPTY_DOC, Ops(t.log[..t.busy[c].at]))
  {
    ConsistentRun(FRESH, acts, t);
    forall c | c in t.busy && t.busy[c].Hydrated?
      ensures 0 <= t.busy[c].at <= |t.log| && t.busy[c].doc == Fold(EMPTY_DOC, Ops(t.log[..t.busy[c].at]))
    {
      assert Sound(t, t.busy[c]);
    }
  }

  /** A hydration that finds no further writer returns the whole log, however stale the snapshot it started from. */
  lemma HydrationIsCurrent(acts: seq<Action>, t: State, c: nat)
    requires Exec(FRESH, acts, t) && c in t.busy && t.busy[c].Hydrating?
    ensures Step(t, ReadOps(c)).busy[c] == Hydrated(Fold(EMPTY_DOC, Ops(t.log)), |t.log|)
  {
    ConsistentRun(FRESH, acts, t);
    assert Sound(t, t.busy[c]);
    HydrateReachesEnd(t.log, t.busy[c].base, t.busy[c].from);
  }

  /** A hydration nothing interrupts brings the stored snapshot up to the end of the log. */
  lemma SnapshotCatchesUp(acts: seq<Action>, t: State, c: nat)
    requires Exec(FRESH, acts, t) && c !in t.busy
    ensures var read := Step(t, ReadRecord(c));
            var hydrated := Step(read, ReadOps(c));
            && Enabled(hydrated, WriteSnapshot(c))
            && Step(hydrated, WriteSnapshot(c))
               == hydrated.(snapshot := Fold(EMPTY_DOC, Ops(t.log)), snapshotSeq := |t.log|)
            && hydrated.log == t.log && hydrated.failed == t.failed
  {
    ConsistentRun(FRESH, acts, t);
    HydrateReachesEnd(t.log, t.snapshot, t.snapshotSeq);
  }

  // What a client last submitted and how often it has tried to insert since.
  function Pending(acts: seq<Action>, c: nat): Option<(Op, nat)> {
    if acts == [] then None
    else
      var before, last := Pending(acts[..|acts| - 1], c), acts[|acts| - 1];
      if last.Submit? && last.c == c then Some((last.op, 0))
      else if last == InsertOp(c) && before.Some? then Some((before.value.0, before.value.1 + 1))
      else before
  }

  ghost predicate Tracked(acts: seq<Action>, s: State) {
    forall c | c in s.busy ::
        match s.busy[c]
        case Reading(op, attempt) => Pending(acts, c) == Some((op, attempt)) && attempt < 5
        case Inserting(op, attempt, _) => Pending(acts, c) == Some((op, attempt)) && attempt < 5
        case _ => true
  }

  lemma PendingSnoc(acts: seq<Action>, a: Action, c: nat)
    ensures Pending(acts + [a], c) ==
              if a.Submit? && a.c == c then Some((a.op, 0))
              else if a == InsertOp(c) && Pending(acts, c).Some?
                   then Some((Pending(acts, c).value.0, Pending(acts, c).value.1 + 1))
              else Pending(acts, c)
  {
    assert (acts + [a])[..|acts|] == acts;
  }

  lemma TrackedStep(done: seq<Action>, s: State, a: Action)
    requires Tracked(done, s) && Enabled(s, a)
    ensures Tracked(done + [a], Step(s, a))
  {
    forall c { PendingSnoc(done, a, c); }
  }

  lemma {:induction false} TrackedRun(done: seq<Action>, s: State, acts: seq<Action>, t: State)
    requires Tracked(done, s) && Exec(s, acts, t)
    ensures Tracked(done + acts, t)
    decreases |acts|
  {
    if acts == [] {
      assert done + acts == done;
    } else {
      TrackedStep(done, s, acts[0]);
      TrackedRun(done + [acts[0]], Step(s, acts[0]), acts[1..], t);
      assert done + [acts[0]] + acts[1..] == done + acts;
    }
  }

  /** In every interleaving an insert stores the operation last submitted under the number read, unless that number is
      taken by then; the client then reads again, and gives up on its fifth such insert. */
  lemma InsertsOrGivesUp(acts: seq<Action>, t: State, c: nat)
    requires Exec(FRESH, acts, t) && c in t.busy && t.busy[c].Inserting?
    ensures Pending(acts, c).Some?
    ensures var (op, inserts) := Pending(acts, c).value;
            var n := t.busy[c].n;
            Step(t, InsertOp(c)) ==
              if forall i | 0 <= i < |t.log| :: t.log[i].seqNo != n
              then t.(log := t.log + [Envelope(n, op)], busy := t.busy - {c})
              else if inserts < 4 then t.(busy := t.busy[c := Reading(op, inserts + 1)])
              else t.(busy := t.busy - {c}, failed := t.failed + 1)
  {
    TrackedRun([], FRESH, acts, t);
    assert [] + acts == acts;
  }

  /** An append nothing interrupts stores its operation under the next number, and leaves the client as idle as one
      that has left. */
  lemma AppendsWhenAlone(acts: seq<Action>, t: State, c: nat, op: Op)
    requires Exec(FRESH, acts, t) && c !in t.busy
    ensures Enabled(t, Submit(c, op)) && Enabled(Step(t, Submit(c, op)), ReadNext(c))
    ensures var read := Step(Step(t, Submit(c, op)), ReadNext(c));
            && Enabled(read, InsertOp(c)) && Enabled(read, Leave(c)) && Step(read, Leave(c)) == t
            && Step(read, InsertOp(c)) == t.(log := t.log + [Envelope(|t.log| + 1, op)])
  {
    ConsistentRun(FRESH, acts, t);
    NumberedMax(t.log);
    var read := Step(Step(t, Submit(c, op)), ReadNext(c));
    assert read.busy - {c} == t.busy;
  }

  // ---- append without interleaving its own steps: the retry loop ----

  // The envelopes rivals store when they append `ops` one after another.
  function Numbering(start: int, ops: seq<Op>): seq<Envelope> {
    seq(|ops|, i requires 0 <= i < |ops| => Envelope(start + i, ops[i]))
  }

  // What rivals store before a round reads the log, and between its read and its insert.
  datatype Rivals = Rivals(before: seq<Op>, between: seq<Op>)

  // What they have stored by the insert that succeeds: the first with no rival since its read.
  function Lost(rounds: seq<Rivals>): seq<Op> {
    if rounds == [] then []
    else if rounds[0].between == [] then rounds[0].before
    else rounds[0].before + rounds[0].between + Lost(rounds[1..])
  }

  ghost predicate Wins(rounds: seq<Rivals>) {
    exists k :: 0 <= k < |rounds| && rounds[k].between == []
  }

  // A numbered log once `ops` have been stored after it.
  function Stored(log: seq<Envelope>, ops: seq<Op>): seq<Envelope> {
    log + Numbering(|log| + 1, ops)
  }

  lemma StoredGrows(log: seq<Envelope>, xs: seq<Op>, ys: seq<Op>)
    requires Numbered(log)
    ensures Numbered(Stored(log, xs))
    ensures Stored(Stored(log, xs), ys) == Stored(log, xs + ys)
  {
  }

  // After k rounds, all lost to rivals, `lost` is what they have stored.
  ghost predicate LostSoFar(rounds: seq<Rivals>, k: nat, lost: seq<Op>) {
    && k <= |rounds|
    && (forall i | 0 <= i < k :: rounds[i].between != [])
    && lost + Lost(rounds[k..]) == Lost(rounds)
  }

  lemma LostAll(rounds: seq<Rivals>, lost: seq<Op>)
    requires LostSoFar(rounds, |rounds|, lost)
    ensures lost == Lost(rounds) && !Wins(rounds)
  {
    assert lost + [] == lost;
  }

  lemma LostToWin(rounds: seq<Rivals>, k: nat, lost: seq<Op>)
    requires LostSoFar(rounds, k, lost) && k < |rounds| && rounds[k].between == []
    ensures lost + rounds[k].before == Lost(rounds) && Wins(rounds)
  {
    assert rounds[k..][0] == rounds[k];
  }

  lemma LostMore(rounds: seq<Rivals>, k: nat, lost: seq<Op>)
    requires LostSoFar(rounds, k, lost) && k < |rounds| && rounds[k].between != []
    ensures LostSoFar(rounds, k + 1, lost + rounds[k].before + rounds[k].between)
  {
    assert rounds[k..][1..] == rounds[k + 1..];
    Regroup(lost, rounds[k].before, rounds[k].between, Lost(rounds[k + 1..]));
  }

  lemma Regroup(a: seq<Op>, b: seq<Op>, c: seq<Op>, d: seq<Op>)
    ensures a + (b + c + d) == a + b + c + d
  {
  }

  // The number read from `seen` is free there and gone once rivals have stored.
  lemma NumberIsGone(seen: seq<Envelope>, ops: seq<Op>)
    requires Numbered(seen)
    ensures NextSeq(seen) == |seen| + 1 && !Taken(seen, |seen| + 1)
    ensures ops != [] ==> Taken(Stored(seen, ops), |seen| + 1)
    ensures Stored(seen, []) == seen
  {
    NumberedMax(seen);
    assert ops != [] ==> Stored(seen, ops)[|seen|].seqNo == |seen| + 1;
  }

  class OpRepo {
    var log: seq<Envelope>

    constructor ()
      ensures log == []
    {
      log := [];
    }

    method InsertOne(e: Envelope) returns (duplicate: bool)
      modifies this
      ensures duplicate == Taken(old(log), e.seqNo)
      ensures log == if duplicate then old(log) else old(log) + [e]
    {
      duplicate := exists i :: 0 <= i < |log| && log[i].seqNo == e.seqNo;
      if !duplicate {
        log := log + [e];
      }
    }

    // One round of append: rivals may store, it reads the next number, rivals may store again, it tries to insert.
    method Round(op: Op, rivals: Rivals) returns (r: Option<Envelope>)
      requires Numbered(log)
      modifies this
      ensures var seen := Stored(old(log), rivals.before);
              if rivals.between == [] then r == Some(Envelope(|seen| + 1, op)) && log == seen + [r.value]
              else r == None && log == Stored(seen, rivals.between)
    {
      ghost var seen := Stored(log, rivals.before);
      StoredGrows(log, rivals.before, []);
      NumberIsGone(seen, rivals.between);
      log := Stored(log, rivals.before);
      var n := NextSeq(log);
      log := Stored(log, rivals.between);
      var duplicate := InsertOne(Envelope(n, op));
      r := if duplicate then None else Some(Envelope(n, op));
    }

    /** append: rounds[k] is what other clients store around this call's k-th read. It succeeds exactly when in one of
        the five rounds nobody stores between read and insert, under the number after everything stored by then. */
    method Append(op: Op, rounds: seq<Rivals>) returns (r: Option<Envelope>)
      requires Numbered(log) && |rounds| == 5
      modifies this
      ensures r.Some? <==> Wins(rounds)
      ensures var lost := Stored(old(log), Lost(rounds));
              && (r.Some? ==> r.value == Envelope(|lost| + 1, op) && log == lost + [r.value])
              && (r.None? ==> log == lost)
    {
      r := None;
      ghost var lost: seq<Op> := [];
      var attempt := 0;
      while attempt < MAX_ATTEMPTS
        invariant 0 <= attempt <= MAX_ATTEMPTS && r == None
        invariant LostSoFar(rounds, attempt, lost)
        invariant log == Stored(old(log), lost)
      {
        StoredGrows(old(log), lost, rounds[attempt].before);
        StoredGrows(old(log), lost + rounds[attempt].before, rounds[attempt].between);
        r := Round(op, rounds[attempt]);
        if r.Some? {
          LostToWin(rounds, attempt, lost);
          return;
        }
        LostMore(rounds, attempt, lost);
        lost := lost + rounds[attempt].before + rounds[attempt].between;
        attempt := attempt + 1;
      }
      LostAll(rounds, lost);
    }
  }

  // ---- catching up ----

  const PAGE_SIZE := 500

  function Page(log: seq<Envelope>, since: int): seq<Envelope> {
    var all := Since(log, since);
    if |all| <= PAGE_SIZE then all else all[..PAGE_SIZE]
  }

  // A client asking again from the last number it received, n times.
  function Pages(log: seq<Envelope>, since: int, n: nat): seq<Envelope>
    decreases n
  {
    if n == 0 then []
    else
      var page := Page(log, since);
      if page == [] then [] else page + Pages(log, page[|page| - 1].seqNo, n - 1)
  }

  // How far n pages reach.
  function Reach(log: seq<Envelope>, since: int, n: nat): int {
    if |log| - since <= n * PAGE_SIZE then |log| else since + n * PAGE_SIZE
  }

  lemma PageIsSlice(log: seq<Envelope>, since: nat)
    requires Numbered(log) && since <= |log|
    ensures Page(log, since) == log[since..Reach(log, since, 1)]
    ensures Page(log, since) != [] ==> Page(log, since)[|Page(log, since)| - 1].seqNo == Reach(log, since, 1)
    ensures Page(log, since) == [] ==> since == |log|
  {
    SinceIsSuffix(log, since);
  }

  lemma ReachThen(log: seq<Envelope>, since: nat, n: nat)
    requires since <= |log| && n > 0
    ensures since <= Reach(log, since, 1) <= Reach(log, since, n) <= |log|
    ensures Reach(log, Reach(log, since, 1), n - 1) == Reach(log, since, n)
  {
  }

  lemma SliceThen(log: seq<Envelope>, a: nat, b: nat, c: nat)
    requires a <= b <= c <= |log|
    ensures log[a..b] + log[b..c] == log[a..c]
  {
  }

  /** Catch-up by pages misses nothing and repeats nothing: n requests deliver the next n pages' worth of the log, or
      all that is left of it. */
  lemma {:induction false} CatchUpComplete(log: seq<Envelope>, since: nat, n: nat)
    requires Numbered(log) && since <= |log|
    ensures since <= Reach(log, since, n) <= |log| && Pages(log, since, n) == log[since..Reach(log, since, n)]
    ensures Reach(log, since, n) == if |log| - since <= n * 500 then |log| else since + n * 500
    decreases n
  {
    if n > 0 {
      var next := Reach(log, since, 1);
      PageIsSlice(log, since);
      ReachThen(log, since, n);
      if Page(log, since) != [] {
        CatchUpComplete(log, next, n - 1);
        SliceThen(log, since, next, Reach(log, since, n));
      }
    }
  }
}
