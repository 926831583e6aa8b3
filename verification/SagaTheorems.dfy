/** The whole-run theorems about the saga. Each starts from any finite set of calls over
    any tables and speaks about every schedule and every pattern of faults. */
module SagaTheorems {
  import opened Domain
  import opened ReservationQueue
  import opened SagaMachine
  import opened SagaInvariant
  import opened SagaReplay

  lemma InitChronicle(s0: State)
    requires Init(s0)
    ensures Chronicle(s0.w, s0)
  {
  }

  lemma {:induction false} RunKeepsChronicle(origin: World, s: State, run: Schedule)
    requires Inv(s) && Chronicle(origin, s) && CanRun(s, run)
    ensures Inv(Run(s, run)) && Chronicle(origin, Run(s, run))
    decreases |run|
  {
    if run != [] {
      InvKept(s, run[0].0, run[0].1);
      ChronicleKept(origin, s, run[0].0, run[0].1);
      RunKeepsChronicle(origin, Step(s, run[0].0, run[0].1), run[1..]);
    }
  }

  lemma Reached(s0: State, run: Schedule)
    requires Init(s0) && CanRun(s0, run)
    ensures Inv(Run(s0, run)) && Chronicle(s0.w, Run(s0, run))
  {
    InitInv(s0);
    InitChronicle(s0);
    RunKeepsChronicle(s0.w, s0, run);
  }

  // ---------------------------------------------------------------- event replay

  /** No handler has a claim open and no committed announcement is still to come. */
  predicate AtRest(threads: seq<Pc>) {
    forall t | 0 <= t < |threads| :: ClaimOf(threads[t]).None? && Owes(threads[t]).None?
  }

  function QueuedIds(log: seq<Event>): set<ReservationId> {
    set e | e in log && e.ReservationQueued? :: e.reservationId
  }

  function AsQueued(birth: Option<Event>): Reservation {
    match birth
    case Some(ReservationQueued(id, member, book, at)) => Reservation(id, member, book, at, None)
    case _ => Reservation(0, 0, 0, 0, None)
  }

  /** The reservation table as the log alone determines it: the rows there from the start
      and the rows queued since, each fulfilled at the instant of its last fulfilment not
      undone. */
  function Rebuild(origin: Table, log: seq<Event>): Table {
    map id | id in origin.Keys + QueuedIds(log) ::
      (if id in origin then origin[id] else AsQueued(LoggedBirth(log, Res(id)))).(fulfilledAt := LedgerOf(log, id).at)
  }

  lemma {:induction false} LoggedBirthIsQueued(log: seq<Event>, id: ReservationId)
    ensures LoggedBirth(log, Res(id)).Some? <==> id in QueuedIds(log)
    ensures LoggedBirth(log, Res(id)).Some? ==>
      LoggedBirth(log, Res(id)).value.ReservationQueued? && LoggedBirth(log, Res(id)).value.reservationId == id
  {
    if log != [] {
      var last, rest := log[|log| - 1], log[..|log| - 1];
      LoggedBirthIsQueued(rest, id);
      assert forall e :: e in log <==> e in rest || e == last;
    }
  }

  lemma RowRebuilt(origin: World, s: State, id: ReservationId)
    requires Inv(s) && Chronicle(origin, s) && AtRest(s.threads)
    ensures var rebuilt := Rebuild(origin.reservations, s.w.log);
            (id in s.w.reservations <==> id in rebuilt) &&
            (id in s.w.reservations ==> s.w.reservations[id] == rebuilt[id])
  {
    assert NobodyOwes(s.threads, Res(id)) && Documented(origin, s.w, Res(id));
    assert Unclaimed(s.threads, id) && Balanced(AccountOf(s.w, s.errors, id), Idle);
    LoggedBirthIsQueued(s.w.log, id);
  }

  lemma TableRebuilt(origin: World, s: State)
    requires Inv(s) && Chronicle(origin, s) && AtRest(s.threads)
    ensures s.w.reservations == Rebuild(origin.reservations, s.w.log)
  {
    var table, rebuilt := s.w.reservations, Rebuild(origin.reservations, s.w.log);
    forall id
      ensures id in table <==> id in rebuilt
      ensures id in table ==> table[id] == rebuilt[id]
    {
      RowRebuilt(origin, s, id);
    }
  }

  /** Event replay: whenever no handler is midway the reservation table is the fold of the
      event log, record by record. */
  lemma EventReplay(s0: State, run: Schedule)
    requires Init(s0) && CanRun(s0, run) && AtRest(Run(s0, run).threads)
    ensures Run(s0, run).w.reservations == Rebuild(s0.w.reservations, Run(s0, run).w.log)
  {
    Reached(s0, run);
    TableRebuilt(s0.w, Run(s0, run));
  }

  /** Fulfilments exceed un-fulfilments by one exactly when the reservation is fulfilled,
      and each was answered by AutoLoanOpened or AutoLoanFailed. */
  predicate Tallied(w: World, id: ReservationId) {
    id in w.reservations ==>
      var l := LedgerOf(w.log, id);
      && l.fulfilled == l.unfulfilled + (if w.reservations[id].fulfilledAt.Some? then 1 else 0)
      && l.fulfilled == l.loaned + l.failed
  }

  lemma TalliesBalance(s: State, id: ReservationId)
    requires Inv(s) && Unclaimed(s.threads, id)
    ensures Tallied(s.w, id)
  {
  }

  /** The tally of every reservation no handler is working on, whatever else is running. */
  lemma SagaTallies(s0: State, run: Schedule)
    requires Init(s0) && CanRun(s0, run)
    ensures forall id | Unclaimed(Run(s0, run).threads, id) :: Tallied(Run(s0, run).w, id)
  {
    Reached(s0, run);
    var s := Run(s0, run);
    forall id | Unclaimed(s.threads, id) ensures Tallied(s.w, id) {
      TalliesBalance(s, id);
    }
  }

  // ---------------------------------------------------------------- no double fulfilment

  lemma AccountBalanced(s: State, id: ReservationId)
    requires Inv(s)
    ensures exists stage :: Balanced(AccountOf(s.w, s.errors, id), stage)
  {
    if Unclaimed(s.threads, id) {
      assert Balanced(AccountOf(s.w, s.errors, id), Idle);
    } else {
      var t :| 0 <= t < |s.threads| && Claims(s.threads[t], id);
      assert Balanced(AccountOf(s.w, s.errors, id), StageOf(s.threads[t]));
    }
  }

  lemma ApplyForgetsNothing(s: State, t: Tid, e: Effect, id: ReservationId)
    ensures LedgerOf(s.w.log, id).loaned <= LedgerOf(Apply(s, t, e).w.log, id).loaned
  {
    AccountFollows(s, t, e, id);
  }

  lemma StepForgetsNothing(s: State, t: Tid, c: Choice, id: ReservationId)
    requires Enabled(s, t) && WellKeyed(s.w)
    ensures LedgerOf(s.w.log, id).loaned <= LedgerOf(Step(s, t, c).w.log, id).loaned
  {
    var (e, next) := Move(s, t, c);
    ApplyForgetsNothing(s, t, e, id);
    assert Step(s, t, c) == Continue(s, t, e, next);
  }

  lemma {:induction false} LedgerNeverForgets(s: State, run: Schedule, id: ReservationId)
    requires Inv(s) && CanRun(s, run)
    ensures LedgerOf(s.w.log, id).loaned <= LedgerOf(Run(s, run).w.log, id).loaned
    decreases |run|
  {
    if run != [] {
      StepForgetsNothing(s, run[0].0, run[0].1, id);
      InvKept(s, run[0].0, run[0].1);
      LedgerNeverForgets(Step(s, run[0].0, run[0].1), run[1..], id);
    }
  }

  lemma LoanedIsFinal(s: State, id: ReservationId)
    requires Inv(s)
    ensures LedgerOf(s.w.log, id).loaned <= 1
    ensures LedgerOf(s.w.log, id).loaned == 1 ==> id in s.w.reservations && s.w.reservations[id].fulfilledAt.Some?
  {
    AccountBalanced(s, id);
  }

  /** A reservation is claimed by at most one handler at a time, gets at most one
      AutoLoanOpened, and once it has it is never pending again. */
  lemma NoDoubleFulfilment(s0: State, run: Schedule, more: Schedule, id: ReservationId)
    requires Init(s0) && CanRun(s0, run) && CanRun(Run(s0, run), more)
    ensures var s := Run(s0, run);
            forall t, u | 0 <= t < |s.threads| && 0 <= u < |s.threads| &&
              Engages(s.threads[t], id) && Engages(s.threads[u], id) :: t == u
    ensures LedgerOf(Run(s0, run).w.log, id).loaned <= 1
    ensures LedgerOf(Run(s0, run).w.log, id).loaned == 1 ==>
      var later := Run(Run(s0, run), more).w;
      id in later.reservations && later.reservations[id].fulfilledAt.Some? && LedgerOf(later.log, id).loaned == 1
  {
    Reached(s0, run);
    var s := Run(s0, run);
    LoanedIsFinal(s, id);
    LedgerNeverForgets(s, more, id);
    RunKeepsInv(s, more);
    LoanedIsFinal(Run(s, more), id);
    forall t, u | 0 <= t < |s.threads| && 0 <= u < |s.threads| && Engages(s.threads[t], id) && Engages(s.threads[u], id)
      ensures t == u
    {
      EngagementIsExclusive(s, t, u, id);
    }
  }

  /** At rest a reservation is fulfilled without a loan exactly when un-fulfilling it
      failed, and that happens at most once. */
  lemma StuckIffUnfulfilFailed(s0: State, run: Schedule, id: ReservationId)
    requires Init(s0) && CanRun(s0, run) && Unclaimed(Run(s0, run).threads, id)
    ensures var s := Run(s0, run);
            && Occurrences(s.errors, id) <= 1
            && ((id in s.w.reservations && s.w.reservations[id].fulfilledAt.Some? && LedgerOf(s.w.log, id).loaned == 0)
                <==> Occurrences(s.errors, id) == 1)
  {
    Reached(s0, run);
    assert Balanced(AccountOf(Run(s0, run).w, Run(s0, run).errors, id), Idle);
  }

  // ---------------------------------------------------------------- loans

  lemma {:induction false} LoggedBirthIsOpened(log: seq<Event>, id: LoanId)
    ensures LoggedBirth(log, Ln(id)).Some? <==> id in OpenedIds(log)
  {
    if log != [] {
      var last, rest := log[|log| - 1], log[..|log| - 1];
      LoggedBirthIsOpened(rest, id);
      assert forall e :: e in log <==> e in rest || e == last;
    }
  }

  lemma LoansDocumented(origin: World, s: State)
    requires Chronicle(origin, s) && AtRest(s.threads)
    ensures s.w.loans.Keys == origin.loans.Keys + OpenedIds(s.w.log)
  {
    forall id ensures id in s.w.loans <==> id in origin.loans || id in OpenedIds(s.w.log) {
      assert NobodyOwes(s.threads, Ln(id)) && Documented(origin, s.w, Ln(id));
      LoggedBirthIsOpened(s.w.log, id);
    }
  }

  /** At rest the persisted loans are the original ones and the ones LoanOpened announced.
      At any moment LoanReturned names only closed loans, and AutoLoanOpened a persisted
      loan of the reserver. */
  lemma LogTellsTheLoans(s0: State, run: Schedule)
    requires Init(s0) && CanRun(s0, run)
    ensures var s := Run(s0, run);
            && (AtRest(s.threads) ==> s.w.loans.Keys == s0.w.loans.Keys + OpenedIds(s.w.log))
            && (forall e | e in s.w.log :: Truthful(s.w, e))
  {
    Reached(s0, run);
    if AtRest(Run(s0, run).threads) { LoansDocumented(s0.w, Run(s0, run)); }
  }
}
