/** The worker's fetch loop and the semaphore that bounds it (apps/job-queue/src: semaphore.ts, worker.ts). */
module WorkerLoop {
  // The semaphore as a value. Waiters are resumed later than they are woken, so their decrements can lag.
  datatype Sem = Sem(capacity: int, available: int, waiters: nat, woken: nat)

  function Acquired(s: Sem): Sem {
    if s.available > 0 then s.(available := s.available - 1) else s.(waiters := s.waiters + 1)
  }

  function Released(s: Sem): Sem {
    if s.waiters > 0
    then s.(available := s.available + 1, waiters := s.waiters - 1, woken := s.woken + 1)
    else s.(available := s.available + 1)
  }

  function Resumed(s: Sem): Sem
    requires s.woken > 0
  {
    s.(available := s.available - 1, woken := s.woken - 1)
  }

  class Semaphore {
    const capacity: int
    var available: int
    var waiters: nat   // promises not yet resolved
    var woken: nat     // promises resolved whose continuation has not run yet

    function Value(): Sem
      reads this
    {
      Sem(capacity, available, waiters, woken)
    }

    constructor (capacity: int)
      ensures Value() == Sem(capacity, capacity, 0, 0)
    {
      this.capacity := capacity;
      available, waiters, woken := capacity, 0, 0;
    }

    // A capacity below one is refused.
    static method Create(capacity: int) returns (r: Semaphore?)
      ensures r == null <==> capacity < 1
      ensures r != null ==> fresh(r) && r.Value() == Sem(capacity, capacity, 0, 0)
    {
      r := null;
      if capacity >= 1 {
        r := new Semaphore(capacity);
      }
    }

    method Acquire() returns (waits: bool)
      modifies this
      ensures Value() == Acquired(old(Value())) && waits == (old(available) <= 0)
    {
      waits := available <= 0;
      if !waits {
        available := available - 1;
      } else {
        waiters := waiters + 1;
      }
    }

    method Release()
      modifies this
      ensures Value() == Released(old(Value()))
    {
      available := available + 1;
      if waiters > 0 {
        waiters, woken := waiters - 1, woken + 1;
      }
    }

    method Resume()
      requires woken > 0
      modifies this
      ensures Value() == Resumed(old(Value()))
    {
      available, woken := available - 1, woken - 1;
    }
  }

  // ---- the loop ----

  // Fetching: XREADGROUP is out with a count. Dispatching: entries claimed and not yet handed to a handler.
  datatype Phase = Idle | Fetching(want: int) | Dispatching(left: int)

  datatype Loop = Loop(sem: Sem, batch: int, running: nat, phase: Phase)

  datatype Event =
    | Look               // read the free slots and ask for that many entries
    | Fetched(got: int)  // the read returns, with at most the count asked for
    | Failed             // the read throws
    | Dispatch           // acquire and start the next claimed entry
    | Finish             // some handler ends: release

  function Min(a: int, b: int): int {
    if a <= b then a else b
  }

  predicate Possible(l: Loop, e: Event) {
    match e
    case Look => l.phase == Idle
    case Fetched(got) => l.phase.Fetching? && 0 <= got <= l.phase.want
    case Failed => l.phase.Fetching?
    case Dispatch => l.phase.Dispatching? && l.phase.left > 0
    case Finish => l.running > 0
  }

  function Settle(left: int): Phase {
    if left > 0 then Dispatching(left) else Idle
  }

  function After(l: Loop, e: Event): Loop
    requires Possible(l, e)
  {
    match e
    case Look => if l.sem.available == 0 then l else l.(phase := Fetching(Min(l.sem.available, l.batch)))
    case Fetched(got) => l.(phase := Settle(got))
    case Failed => l.(phase := Idle)
    case Dispatch => l.(sem := Acquired(l.sem), running := l.running + 1, phase := Settle(l.phase.left - 1))
    case Finish => l.(sem := Released(l.sem), running := l.running - 1)
  }

  ghost predicate Course(l: Loop, es: seq<Event>, m: Loop)
    decreases |es|
  {
    if es == [] then l == m else Possible(l, es[0]) && Course(After(l, es[0]), es[1..], m)
  }

  function Start(capacity: int, batch: int): Loop {
    Loop(Sem(capacity, capacity, 0, 0), batch, 0, Idle)
  }

  ghost predicate Bounded(l: Loop) {
    && l.sem.available + l.running == l.sem.capacity && 0 <= l.sem.available
    && l.sem.waiters == 0 && l.sem.woken == 0
    && (l.phase.Fetching? ==> l.phase.want <= l.sem.available && l.phase.want <= l.batch)
    && (l.phase.Dispatching? ==> 0 < l.phase.left <= l.sem.available)
  }

  lemma {:induction false} BoundedCourse(l: Loop, es: seq<Event>, m: Loop)
    requires Bounded(l) && Course(l, es, m)
    ensures Bounded(m) && m.sem.capacity == l.sem.capacity && m.batch == l.batch
    decreases |es|
  {
    if es != [] {
      BoundedCourse(After(l, es[0]), es[1..], m);
    }
  }

  /** For every interleaving of completions with the fetch loop: the handlers running never exceed the concurrency, the
      free slots are exactly the rest of it, and the acquire of a dispatch finds a free slot at once. A read asks for no
      more entries than that, nor than the batch size, and for as many as that when no handler ends meanwhile. */
  lemma NeverWaits(capacity: int, batch: int, es: seq<Event>, l: Loop)
    requires capacity >= 1 && Course(Start(capacity, batch), es, l)
    ensures l.running <= capacity && l.sem.available == capacity - l.running
    ensures Possible(l, Dispatch) ==> l.sem.available > 0 && After(l, Dispatch).sem.waiters == 0
    ensures l.phase.Fetching? ==> l.phase.want <= batch && l.phase.want <= capacity - l.running
    ensures Possible(l, Look) && After(l, Look).phase.Fetching? ==>
              After(l, Look).phase.want == batch || After(l, Look).phase.want == capacity - l.running
    ensures Possible(l, Look) && l.running < capacity ==> After(l, Look).phase.Fetching?
  {
    BoundedCourse(Start(capacity, batch), es, l);
  }

  /** The loop always has a next move: it looks while idle, takes any read result up to the count asked for, is idle
      again after a failed or empty read, and dispatches while it holds entries; a running handler can end at any
      time. */
  lemma GoesOn(capacity: int, batch: int, es: seq<Event>, l: Loop)
    requires capacity >= 1 && Course(Start(capacity, batch), es, l)
    ensures l.phase == Idle ==> Possible(l, Look)
    ensures l.phase.Fetching? ==> Possible(l, Failed) && After(l, Failed) == l.(phase := Idle)
    ensures forall got | l.phase.Fetching? && 0 <= got <= l.phase.want ::
              Possible(l, Fetched(got)) && After(l, Fetched(got)).sem == l.sem
              && After(l, Fetched(got)).phase == if got == 0 then Idle else Dispatching(got)
    ensures Possible(l, Dispatch) <==> l.phase.Dispatching?
    ensures Possible(l, Finish) <==> l.running > 0
  {
    BoundedCourse(Start(capacity, batch), es, l);
  }

  // The entries the reads of a course return, the handlers it starts and those that end in it.
  ghost function Claims(es: seq<Event>): int {
    if es == [] then 0 else (if es[0].Fetched? then es[0].got else 0) + Claims(es[1..])
  }

  ghost function Starts(es: seq<Event>): nat {
    if es == [] then 0 else (if es[0].Dispatch? then 1 else 0) + Starts(es[1..])
  }

  ghost function Ends(es: seq<Event>): nat {
    if es == [] then 0 else (if es[0].Finish? then 1 else 0) + Ends(es[1..])
  }

  ghost function Unhandled(l: Loop): int {
    if l.phase.Dispatching? then l.phase.left else 0
  }

  lemma {:induction false} HandledCourse(l: Loop, es: seq<Event>, m: Loop)
    requires Bounded(l) && Course(l, es, m)
    ensures Unhandled(l) + Claims(es) == Starts(es) + Unhandled(m)
    ensures l.running as int + Starts(es) == m.running + Ends(es)
    decreases |es|
  {
    if es != [] {
      BoundedCourse(l, [es[0]], After(l, es[0]));
      HandledCourse(After(l, es[0]), es[1..], m);
    }
  }

  /** Every entry a read returns is given to one handler: between reads as many have been started as entries returned,
      and before that the difference is what the loop still holds. */
  lemma EachEntryHandledOnce(capacity: int, batch: int, es: seq<Event>, l: Loop)
    requires capacity >= 1 && Course(Start(capacity, batch), es, l)
    ensures Claims(es) == Starts(es) + Unhandled(l) && Starts(es) == l.running + Ends(es)
    ensures Possible(l, Look) ==> Claims(es) == Starts(es)
  {
    HandledCourse(Start(capacity, batch), es, l);
  }

  // The semaphore after this many acquires.
  function Taken(s: Sem, acquires: nat): Sem {
    if acquires == 0 then s else Acquired(Taken(s, acquires - 1))
  }

  lemma {:induction false} TakenLeaves(capacity: nat, acquires: nat)
    requires acquires <= capacity
    ensures Taken(Sem(capacity, capacity, 0, 0), acquires) == Sem(capacity, capacity - acquires, 0, 0)
  {
    if acquires > 0 {
      TakenLeaves(capacity, acquires - 1);
    }
  }

  /** With a second acquirer the bound fails at every capacity: with all slots taken and a waiter queued, a release
      wakes the waiter, another acquire gets the slot at once, and the waiter then takes one too many. */
  lemma SecondAcquirerOverruns(capacity: nat)
    requires capacity >= 1
    ensures var freed := Released(Taken(Sem(capacity, capacity, 0, 0), capacity + 1));
            && Taken(Sem(capacity, capacity, 0, 0), capacity + 1) == Sem(capacity, 0, 1, 0)
            && freed == Sem(capacity, 1, 0, 1)
            && Resumed(Acquired(freed)) == Sem(capacity, -1, 0, 0)
  {
    TakenLeaves(capacity, capacity);
  }
}
