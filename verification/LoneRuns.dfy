/** Every operation can run alone to its end, whatever its fate: the theorems about
    uninterrupted runs are about something. */
module LoneRuns {
  import opened Domain
  import opened SagaMachine
  import opened SagaInvariant
  import opened SagaProgress
  import opened SequentialRuns

  /** The thread may still mint an identifier. */
  predicate NeedsId(pc: Pc) {
    match pc
    case Handling(_, h) => h.List? || h.Walk? || h.Claim? || h.Claimed?
    case Borrowing(_, b) => b.Authorize? || b.Qualify? || b.FindCopy? || b.OpenLoan?
    case Reserving(q) => !q.AnnounceQueued?
    case Done(_) => false
    case _ => true
  }

  /** Nobody else holds what t is going to need. */
  ghost predicate Unhindered(s: State, t: Tid)
    requires t < |s.threads|
  {
    && s.held == (if JobOf(s.threads[t]).Some? then map[JobOf(s.threads[t]).value.mutex := t] else map[])
    && (s.threads[t].Allocated? || s.allocHolder.None?)
  }

  /** The identifier is free while it is needed; a loan about to be closed exists. */
  predicate IdFree(w: World, pc: Pc, id: nat) {
    && (NeedsId(pc) ==> id !in w.loans && id !in w.reservations)
    && (pc.Returning? && pc.r.CloseLoan? ==> pc.r.loan.id in w.loans)
  }

  ghost predicate Ready(s: State, t: Tid, fate: Fate) {
    t < |s.threads| && IsOperation(s.threads[t]) && Unhindered(s, t) && IdFree(s.w, s.threads[t], fate.id)
  }

  lemma ReturnKeepsIdFree(w: World, subscribed: bool, r: ReturnStep, c: Choice, id: nat)
    requires WellKeyed(w) && IdFree(w, Returning(r), id)
    ensures var (e, next) := ReturnMove(w, subscribed, r, c); IdFree(Written(w, e), next, id)
  {
  }

  lemma BorrowKeepsIdFree(w: World, caller: Caller, b: BorrowStep, c: Choice, id: nat)
    requires IdFree(w, Borrowing(caller, b), id)
    ensures var (e, next) := BorrowMove(w, caller, b, c); IdFree(Written(w, e), next, id)
  {
  }

  lemma HandlerKeepsIdFree(w: World, job: Job, h: HandlerStep, c: Choice, id: nat)
    requires WellKeyed(w) && Informed(w.reservations, Handling(job, h)) && IdFree(w, Handling(job, h), id)
    ensures var (e, next) := HandlerMove(w, job, h, c); IdFree(Written(w, e), next, id)
  {
  }

  lemma IdStaysFree(s: State, t: Tid, c: Choice, id: nat)
    requires Enabled(s, t) && WellKeyed(s.w) && Informed(s.w.reservations, s.threads[t])
    requires IsOperation(s.threads[t]) && IdFree(s.w, s.threads[t], id)
    ensures var (e, next) := Move(s, t, c); IdFree(Written(s.w, e), next, id)
  {
    match s.threads[t]
    case Returning(r) => ReturnKeepsIdFree(s.w, s.subscribed, r, c, id);
    case Borrowing(caller, b) => BorrowKeepsIdFree(s.w, caller, b, c, id);
    case Handling(job, h) => HandlerKeepsIdFree(s.w, job, h, c, id);
    case _ =>
  }

  lemma LocksStayFree(s: State, t: Tid, e: Effect, next: Pc)
    requires t < |s.threads| && IsOperation(s.threads[t]) && IsOperation(next)
    requires Unhindered(s, t) && LockMove(s, s.threads[t], e, next)
    ensures Unhindered(Continue(s, t, e, next), t)
  {
    ApplyTreatsLocks(s, t, e);
  }

  lemma StaysReady(s: State, t: Tid, c: Choice, fate: Fate)
    requires Inv(s) && Enabled(s, t) && Ready(s, t, fate) && Follows(s.threads[t], c, fate)
    ensures Ready(Step(s, t, c), t, fate)
  {
    var (e, next) := Move(s, t, c);
    MoveStaysInOperation(s, t, c);
    ContinueWrites(s, t, e, next);
    IdStaysFree(s, t, c, fate.id);
    MoveTreatsLocks(s, t, c);
    LocksStayFree(s, t, e, next);
  }

  /** The choice this fate makes at s, with a new identifier wherever one is minted. */
  lemma Chosen(s: State, t: Tid, fate: Fate) returns (c: Choice)
    requires Ready(s, t, fate) && !s.threads[t].Done?
    ensures Enabled(s, t) && Fresh(s.w, c) && Follows(s.threads[t], c, fate)
  {
    var id := FreshId(s.w.loans.Keys + s.w.reservations.Keys);
    c := Choice(FaultAt(s.threads[t], fate.faults), if NeedsId(s.threads[t]) then fate.id else id, fate.now);
  }

  /** From every state of the invariant a thread nobody hinders can run its operation alone to
      the end, for every pattern of faults. */
  lemma {:induction false} CanRunAlone(s: State, t: Tid, fate: Fate) returns (run: Schedule)
    requires Inv(s) && Ready(s, t, fate)
    ensures CanRun(s, run) && RunsAlone(s, t, run, fate)
    ensures t < |Run(s, run).threads| && Run(s, run).threads[t].Done?
    decreases Measure(s)
  {
    run := [];
    if !s.threads[t].Done? {
      var c := Chosen(s, t, fate);
      StaysReady(s, t, c, fate);
      MeasureFalls(s, t, c);
      InvKept(s, t, c);
      var rest := CanRunAlone(Step(s, t, c), t, fate);
      run := [(t, c)] + rest;
      assert run[1..] == rest;
    }
  }
}
