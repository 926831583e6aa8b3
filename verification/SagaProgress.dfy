/** Deadlock freedom and termination of the saga, for any finite set of Return, Borrow,
    Reserve, Start, Stop and membership calls, while reservations keep arriving. */
module SagaProgress {
  import opened Domain
  import opened ReservationQueue
  import opened SagaMachine
  import opened SagaInvariant

  ghost predicate AllDone(s: State) {
    forall t | 0 <= t < |s.threads| :: s.threads[t].Done?
  }

  /** Whoever blocks a thread can itself move: the short locks are held only by threads
      about to release them, and a handler inside its critical section never waits. */
  lemma NoDeadlock(s: State) returns (t: Tid)
    requires Inv(s) && !AllDone(s)
    ensures Enabled(s, t)
  {
    t :| 0 <= t < |s.threads| && !s.threads[t].Done?;
    match s.threads[t]
    case Allocate(_) => if s.allocHolder.Some? { t := s.allocHolder.value; }
    case AwaitLock(job) => if job.mutex in s.held { t := s.held[job.mutex]; }
    case LifecycleLock(_) => if s.lifecycleHolder.Some? { t := s.lifecycleHolder.value; }
    case _ =>
  }

  // ---------------------------------------------------------------- the measure

  function Reservers(threads: seq<Pc>): nat {
    if threads == [] then 0
    else Reservers(threads[..|threads| - 1]) + if MayEnqueue(threads[|threads| - 1]) then 1 else 0
  }

  predicate MayEnqueue(pc: Pc) {
    pc.Reserving? && !pc.q.AnnounceQueued?
  }

  /** No queue will ever be longer than this. */
  function QueueBound(s: State): nat {
    |s.w.reservations| + Reservers(s.threads)
  }

  function BorrowRank(b: BorrowStep): nat {
    match b
    case Authorize(_, _, _) => 7
    case Qualify(_, _) => 6
    case FindCopy(_, _) => 5
    case OpenLoan(_, _) => 4
    case AnnounceOpened(_) => 3
    case FindLent(_) => 2
    case MarkUnavailable(_, _) => 1
  }

  function HandlerRank(h: HandlerStep, bound: nat): nat {
    match h
    case List => 15 + bound
    case Walk(queue) => 14 + |queue|
    case Claim(_) => 13
    case Claimed(_) => 12
    case Succeeded(_, _) => 2
    case Unfulfil(_, _) => 4
    case Unfulfilled(_, _) => 3
    case Failed(_, _, _) => 2
    case Unlock(_) => 1
  }

  function ReturnRank(r: ReturnStep): nat {
    match r
    case Find(_) => 5
    case CloseLoan(_) => 4
    case FindReturned(_) => 3
    case MarkAvailable(_, _) => 2
    case AnnounceReturned(_) => 1
  }

  /** How many steps the thread may still take. */
  function Rank(pc: Pc, bound: nat): nat {
    match pc
    case Returning(r) => 18 + bound + ReturnRank(r)
    case Allocate(_) => 18 + bound
    case Allocated(_) => 17 + bound
    case AwaitLock(_) => 16 + bound
    case Handling(_, h) => HandlerRank(h, bound)
    case Borrowing(Client, b) => BorrowRank(b)
    case Borrowing(Saga(_, _), b) => 4 + BorrowRank(b)
    case Reserving(q) => if q.QualifyReserver? then 3 else if q.Enqueue? then 2 else 1
    case LifecycleLock(_) => 3
    case LifecycleAct(_) => 2
    case LifecycleUnlock => 1
    case ChangeStatus(_, _) => 1
    case Done(_) => 0
  }

  function TotalRank(threads: seq<Pc>, bound: nat): nat {
    if threads == [] then 0
    else TotalRank(threads[..|threads| - 1], bound) + Rank(threads[|threads| - 1], bound)
  }

  function Measure(s: State): nat {
    TotalRank(s.threads, QueueBound(s))
  }

  lemma {:induction false} ReserversAfter(threads: seq<Pc>, t: Tid, next: Pc)
    requires t < |threads|
    ensures Reservers(threads[t := next]) + (if MayEnqueue(threads[t]) then 1 else 0)
         == Reservers(threads) + (if MayEnqueue(next) then 1 else 0)
  {
    var n := |threads| - 1;
    if t == n {
      assert threads[t := next][..n] == threads[..n];
    } else {
      assert threads[t := next][..n] == threads[..n][t := next];
      ReserversAfter(threads[..n], t, next);
    }
  }

  lemma {:induction false} TotalRankAfter(threads: seq<Pc>, t: Tid, next: Pc, bound: nat)
    requires t < |threads|
    ensures TotalRank(threads[t := next], bound) + Rank(threads[t], bound)
         == TotalRank(threads, bound) + Rank(next, bound)
  {
    var n := |threads| - 1;
    if t == n {
      assert threads[t := next][..n] == threads[..n];
    } else {
      assert threads[t := next][..n] == threads[..n][t := next];
      TotalRankAfter(threads[..n], t, next, bound);
    }
  }

  lemma {:induction false} TotalRankMonotone(threads: seq<Pc>, low: nat, high: nat)
    requires low <= high
    ensures TotalRank(threads, low) <= TotalRank(threads, high)
  {
    if threads != [] { TotalRankMonotone(threads[..|threads| - 1], low, high); }
  }

  /** A reserver that queues stops being one that may: the bound never grows. */
  lemma BoundNeverGrows(s: State, t: Tid, c: Choice)
    requires Enabled(s, t) && Fresh(s.w, c) && Inv(s)
    ensures QueueBound(Step(s, t, c)) <= QueueBound(s)
  {
    var (e, next) := Move(s, t, c);
    ReserversAfter(s.threads, t, next);
    PutsGrowOnlyWhenEnqueuing(s, t, c);
    ApplyTable(s, t, e);
  }

  lemma PutsGrowOnlyWhenEnqueuing(s: State, t: Tid, c: Choice)
    requires Enabled(s, t) && WellKeyed(s.w) && Informed(s.w.reservations, s.threads[t])
    ensures var (e, next) := Move(s, t, c);
            && (MayEnqueue(next) ==> MayEnqueue(s.threads[t]))
            && (e.PutReservation? && e.reservation.id !in s.w.reservations ==>
                  MayEnqueue(s.threads[t]) && !MayEnqueue(next))
  {
  }

  lemma BorrowRankFalls(w: World, caller: Caller, b: BorrowStep, c: Choice, bound: nat)
    ensures Rank(BorrowMove(w, caller, b, c).1, bound) < Rank(Borrowing(caller, b), bound)
  {
  }

  lemma ReturnRankFalls(w: World, subscribed: bool, r: ReturnStep, c: Choice, bound: nat)
    ensures Rank(ReturnMove(w, subscribed, r, c).1, bound) < Rank(Returning(r), bound)
  {
  }

  lemma RankFalls(s: State, t: Tid, c: Choice)
    requires Enabled(s, t) && WellKeyed(s.w)
    ensures Rank(Move(s, t, c).1, QueueBound(s)) < Rank(s.threads[t], QueueBound(s))
  {
    match s.threads[t]
    case Returning(r) => ReturnRankFalls(s.w, s.subscribed, r, c, QueueBound(s));
    case Handling(job, h) => HandlerRankFalls(s.w, job, h, c, QueueBound(s));
    case Borrowing(caller, b) => BorrowRankFalls(s.w, caller, b, c, QueueBound(s));
    case Reserving(q) =>
    case _ =>
  }

  lemma HandlerRankFalls(w: World, job: Job, h: HandlerStep, c: Choice, bound: nat)
    requires WellKeyed(w) && |w.reservations| <= bound
    ensures Rank(HandlerMove(w, job, h, c).1, bound) < HandlerRank(h, bound)
  {
  }

  /** The measure decreases on every step, also when the step queues a reservation. */
  lemma MeasureFalls(s: State, t: Tid, c: Choice)
    requires Enabled(s, t) && Fresh(s.w, c) && Inv(s)
    ensures Measure(Step(s, t, c)) < Measure(s)
  {
    var s' := Step(s, t, c);
    var next := Move(s, t, c).1;
    BoundNeverGrows(s, t, c);
    RankFalls(s, t, c);
    TotalRankAfter(s.threads, t, next, QueueBound(s));
    TotalRankMonotone(s'.threads, QueueBound(s'), QueueBound(s));
  }

  /** No run is longer than the measure of the state it starts in. */
  lemma {:induction false} RunsAreBounded(s: State, run: Schedule)
    requires Inv(s) && CanRun(s, run)
    ensures |run| + Measure(Run(s, run)) <= Measure(s)
    decreases |run|
  {
    if run != [] {
      MeasureFalls(s, run[0].0, run[0].1);
      InvKept(s, run[0].0, run[0].1);
      RunsAreBounded(Step(s, run[0].0, run[0].1), run[1..]);
    }
  }

  /** A run that cannot be extended has finished every call. */
  lemma MaximalRunsFinish(s0: State, run: Schedule)
    requires Init(s0) && CanRun(s0, run)
    requires forall t :: !Enabled(Run(s0, run), t)
    ensures AllDone(Run(s0, run)) && |run| <= Measure(s0)
  {
    InitInv(s0);
    RunKeepsInv(s0, run);
    RunsAreBounded(s0, run);
    if !AllDone(Run(s0, run)) { var t := NoDeadlock(Run(s0, run)); }
  }

  lemma {:induction false} FreshId(used: set<nat>) returns (id: nat)
    ensures forall x | x in used :: x < id
    decreases |used|
  {
    if used == {} { return 0; }
    var x :| x in used;
    id := FreshId(used - {x});
    if id <= x { id := x + 1; }
    assert forall y | y in used :: y == x || y in used - {x};
  }

  /** From every reachable state some schedule finishes every call. */
  lemma {:induction false} CanAlwaysFinish(s: State) returns (run: Schedule)
    requires Inv(s)
    ensures CanRun(s, run) && AllDone(Run(s, run))
    decreases Measure(s)
  {
    if AllDone(s) { return []; }
    var t := NoDeadlock(s);
    var id := FreshId(s.w.loans.Keys + s.w.reservations.Keys);
    var c := Choice(false, id, 0);
    MeasureFalls(s, t, c);
    InvKept(s, t, c);
    var rest := CanAlwaysFinish(Step(s, t, c));
    run := [(t, c)] + rest;
    assert run[1..] == rest;
  }
}
