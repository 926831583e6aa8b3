/** The log as the record of the tables: whatever the interleaving and the faults, the
    reservation table at rest is a fold of the event log, and every persisted loan was
    announced. */
module SagaReplay {
  import opened Domain
  import opened ReservationQueue
  import opened SagaMachine
  import opened SagaInvariant

  // ---------------------------------------------------------------- births

  /** A row that an event announces. */
  datatype Entity = Res(rid: ReservationId) | Ln(lid: LoanId)

  function Announced(e: Event): Option<Entity> {
    match e
    case ReservationQueued(id, _, _, _) => Some(Res(id))
    case LoanOpened(id, _, _, _, _, _) => Some(Ln(id))
    case _ => None
  }

  /** The event announcing a stored row; it holds every field of the row that never
      changes. */
  function Birth(w: World, x: Entity): Option<Event> {
    match x
    case Res(id) => if id in w.reservations then Some(ReservationQueuedEvent(w.reservations[id])) else None
    case Ln(id) => if id in w.loans then Some(LoanOpenedEvent(w.loans[id])) else None
  }

  /** The last announcement of x in the log. */
  function LoggedBirth(log: seq<Event>, x: Entity): Option<Event> {
    if log == [] then None
    else if Announced(log[|log| - 1]) == Some(x) then Some(log[|log| - 1])
    else LoggedBirth(log[..|log| - 1], x)
  }

  /** The announcement a thread has committed to and is about to publish. */
  function Owes(pc: Pc): Option<Event> {
    match pc
    case Reserving(AnnounceQueued(r)) => Some(ReservationQueuedEvent(r))
    case Borrowing(_, AnnounceOpened(lent)) => Some(LoanOpenedEvent(lent))
    case _ => None
  }

  predicate OwesFor(pc: Pc, x: Entity) {
    Owes(pc).Some? && Announced(Owes(pc).value) == Some(x)
  }

  predicate NobodyOwes(threads: seq<Pc>, x: Entity) {
    forall t | 0 <= t < |threads| :: !OwesFor(threads[t], x)
  }

  /** A row is there from the start, or was announced exactly as it is stored. */
  predicate Documented(origin: World, w: World, x: Entity) {
    Birth(w, x) == (if Birth(origin, x).Some? then Birth(origin, x) else LoggedBirth(w.log, x))
  }

  /** A row about to be announced is stored, new, and not yet in the log. */
  predicate Undocumented(origin: World, w: World, e: Event)
    requires Announced(e).Some?
  {
    var x := Announced(e).value;
    Birth(origin, x).None? && LoggedBirth(w.log, x).None? && Birth(w, x) == Some(e)
  }

  ghost predicate Births(origin: World, threads: seq<Pc>, w: World) {
    && (forall x | NobodyOwes(threads, x) :: Documented(origin, w, x))
    && (forall t | 0 <= t < |threads| && Owes(threads[t]).Some? :: Undocumented(origin, w, Owes(threads[t]).value))
    && (forall t, u | 0 <= t < u < |threads| && Owes(threads[t]).Some? && Owes(threads[u]).Some? ::
          Announced(Owes(threads[t]).value) != Announced(Owes(threads[u]).value))
  }

  /** The loan a thread carries a copy of. */
  function CarriedLoan(pc: Pc): Option<Loan> {
    match pc
    case Returning(CloseLoan(loan)) => Some(loan)
    case Returning(FindReturned(loan)) => Some(loan)
    case Returning(MarkAvailable(loan, _)) => Some(loan)
    case Returning(AnnounceReturned(loan)) => Some(loan)
    case Borrowing(_, AnnounceOpened(lent)) => Some(lent)
    case Borrowing(_, FindLent(lent)) => Some(lent)
    case Borrowing(_, MarkUnavailable(lent, _)) => Some(lent)
    case Handling(_, Succeeded(_, lent)) => Some(lent)
    case _ => None
  }

  /** Past its commit, a return carries a closed loan. */
  predicate HasClosed(pc: Pc) {
    pc.Returning? && !pc.r.Find? && !pc.r.CloseLoan?
  }

  /** The member the saga borrows for. */
  function BorrowsFor(pc: Pc): Option<MemberId> {
    match pc
    case Borrowing(Saga(_, _), Authorize(_, member, _)) => Some(member)
    case Borrowing(Saga(_, _), Qualify(member, _)) => Some(member)
    case Borrowing(Saga(_, _), FindCopy(member, _)) => Some(member)
    case Borrowing(Saga(_, _), OpenLoan(member, _)) => Some(member)
    case Borrowing(Saga(_, _), AnnounceOpened(lent)) => Some(lent.member)
    case Borrowing(Saga(_, _), FindLent(lent)) => Some(lent.member)
    case Borrowing(Saga(_, _), MarkUnavailable(lent, _)) => Some(lent.member)
    case Handling(_, Succeeded(_, lent)) => Some(lent.member)
    case _ => None
  }

  predicate Carries(w: World, pc: Pc) {
    && (CarriedLoan(pc).Some? ==>
          var loan := CarriedLoan(pc).value;
          Birth(w, Ln(loan.id)) == Some(LoanOpenedEvent(loan)) &&
          (HasClosed(pc) ==> w.loans[loan.id].returnedAt.Some?))
    && (BorrowsFor(pc).Some? ==> BorrowsFor(pc).value == ClaimOf(pc).value.member)
  }

  /** What an event in the log says is so. */
  predicate Truthful(w: World, e: Event) {
    match e
    case LoanReturned(id, _, _, _, _) => id in w.loans && w.loans[id].returnedAt.Some?
    case AutoLoanOpened(book, loanId, member, rid, _) =>
      loanId in w.loans && w.loans[loanId].member == member && w.loans[loanId].book == book &&
      rid in w.reservations && w.reservations[rid].member == member
    case _ => true
  }

  ghost predicate Chronicle(origin: World, s: State) {
    && Births(origin, s.threads, s.w)
    && (forall t | 0 <= t < |s.threads| :: Carries(s.w, s.threads[t]))
    && (forall e | e in s.w.log :: Truthful(s.w, e))
  }

  // ---------------------------------------------------------------- rows never change their birth

  predicate Grows(w: World, w': World) {
    && (forall id | id in w.reservations ::
          id in w'.reservations &&
          w'.reservations[id] == w.reservations[id].(fulfilledAt := w'.reservations[id].fulfilledAt))
    && (forall id | id in w.loans ::
          id in w'.loans &&
          (|| w'.loans[id] == w.loans[id]
           || (w'.loans[id] == w.loans[id].(returnedAt := w'.loans[id].returnedAt) &&
               w'.loans[id].returnedAt.Some?)))
  }

  /** The effect adds a new row, or rewrites a row without changing its birth or
      reopening it. */
  predicate RowEffect(w: World, e: Effect) {
    match e
    case PutReservation(r) =>
      r.id !in w.reservations || r == w.reservations[r.id].(fulfilledAt := r.fulfilledAt)
    case PutLoan(l) =>
      l.id !in w.loans || (l == w.loans[l.id].(returnedAt := l.returnedAt) && l.returnedAt.Some?)
    case _ => true
  }

  lemma MoveRows(s: State, t: Tid, c: Choice)
    requires Enabled(s, t) && Fresh(s.w, c) && WellKeyed(s.w)
    requires Informed(s.w.reservations, s.threads[t]) && Carries(s.w, s.threads[t])
    ensures RowEffect(s.w, Move(s, t, c).0)
  {
  }

  /** A row, once stored, keeps every field but its fulfilment or return instant, and a
      closed loan stays closed. */
  lemma RowsOnlyGrow(s: State, t: Tid, e: Effect)
    requires RowEffect(s.w, e)
    ensures Grows(s.w, Apply(s, t, e).w)
  {
  }

  lemma GrowthKeepsCarries(w: World, w': World, pc: Pc)
    requires Grows(w, w') && Carries(w, pc)
    ensures Carries(w', pc)
  {
  }

  lemma GrowthKeepsTruth(w: World, w': World, e: Event)
    requires Grows(w, w') && Truthful(w, e)
    ensures Truthful(w', e)
  {
  }

  // ---------------------------------------------------------------- what a mover carries on

  predicate EmitsTruth(w: World, e: Effect) {
    e.Emit? ==> Truthful(w, e.event)
  }

  lemma ReturnCarries(s: State, t: Tid, r: ReturnStep, c: Choice)
    requires WellKeyed(s.w) && Carries(s.w, Returning(r))
    ensures var (e, next) := ReturnMove(s.w, s.subscribed, r, c);
            Carries(Apply(s, t, e).w, next) && EmitsTruth(s.w, e)
  {
  }

  lemma BorrowCarries(s: State, t: Tid, caller: Caller, b: BorrowStep, c: Choice)
    requires WellKeyed(s.w) && Carries(s.w, Borrowing(caller, b)) && Fresh(s.w, c)
    ensures var (e, next) := BorrowMove(s.w, caller, b, c);
            Carries(Apply(s, t, e).w, next) && EmitsTruth(s.w, e)
  {
  }

  lemma HandlerCarries(s: State, t: Tid, job: Job, h: HandlerStep, c: Choice)
    requires WellKeyed(s.w) && Carries(s.w, Handling(job, h)) && Informed(s.w.reservations, Handling(job, h))
    ensures var (e, next) := HandlerMove(s.w, job, h, c);
            Carries(Apply(s, t, e).w, next) && EmitsTruth(s.w, e)
  {
  }

  lemma MoverCarries(s: State, t: Tid, c: Choice)
    requires Enabled(s, t) && Fresh(s.w, c) && WellKeyed(s.w)
    requires Informed(s.w.reservations, s.threads[t]) && Carries(s.w, s.threads[t])
    ensures var (e, next) := Move(s, t, c); Carries(Apply(s, t, e).w, next) && EmitsTruth(s.w, e)
  {
    match s.threads[t]
    case Handling(job, h) => HandlerCarries(s, t, job, h, c);
    case Borrowing(caller, b) => BorrowCarries(s, t, caller, b, c);
    case Returning(r) => ReturnCarries(s, t, r, c);
    case Reserving(q) =>
    case _ =>
  }

  // ---------------------------------------------------------------- births through a step

  /** A move pays the announcement its thread owes, takes on a new one together with the
      new row, or leaves every birth as it is. */
  predicate OweMove(w: World, pc: Pc, e: Effect, next: Pc) {
    if Owes(pc).Some? then e == Emit(Owes(pc).value) && Owes(next).None?
    else
      && (e.Emit? ==> Announced(e.event).None?)
      && (if Owes(next).Some? then
            match e
            case PutReservation(r) => r.id !in w.reservations && Owes(next) == Some(ReservationQueuedEvent(r))
            case PutLoan(l) => l.id !in w.loans && Owes(next) == Some(LoanOpenedEvent(l))
            case _ => false
          else
            && (e.PutReservation? ==> Birth(w, Res(e.reservation.id)) == Some(ReservationQueuedEvent(e.reservation)))
            && (e.PutLoan? ==> Birth(w, Ln(e.loan.id)) == Some(LoanOpenedEvent(e.loan))))
  }

  lemma HandlerOwes(w: World, job: Job, h: HandlerStep, c: Choice)
    requires WellKeyed(w) && Informed(w.reservations, Handling(job, h))
    ensures var (e, next) := HandlerMove(w, job, h, c); OweMove(w, Handling(job, h), e, next)
  {
  }

  lemma BorrowOwes(w: World, caller: Caller, b: BorrowStep, c: Choice)
    requires Fresh(w, c)
    ensures var (e, next) := BorrowMove(w, caller, b, c); OweMove(w, Borrowing(caller, b), e, next)
  {
  }

  lemma ReturnOwes(w: World, subscribed: bool, r: ReturnStep, c: Choice)
    requires Carries(w, Returning(r))
    ensures var (e, next) := ReturnMove(w, subscribed, r, c); OweMove(w, Returning(r), e, next)
  {
  }

  lemma MoveOwes(s: State, t: Tid, c: Choice)
    requires Enabled(s, t) && Fresh(s.w, c) && WellKeyed(s.w)
    requires Informed(s.w.reservations, s.threads[t]) && Carries(s.w, s.threads[t])
    ensures OweMove(s.w, s.threads[t], Move(s, t, c).0, Move(s, t, c).1)
  {
    match s.threads[t]
    case Handling(job, h) => HandlerOwes(s.w, job, h, c);
    case Borrowing(caller, b) => BorrowOwes(s.w, caller, b, c);
    case Returning(r) => ReturnOwes(s.w, s.subscribed, r, c);
    case Reserving(q) =>
    case _ =>
  }

  lemma BirthFollows(s: State, t: Tid, e: Effect, x: Entity)
    ensures Birth(Apply(s, t, e).w, x) ==
      if e.PutReservation? && x == Res(e.reservation.id) then Some(ReservationQueuedEvent(e.reservation))
      else if e.PutLoan? && x == Ln(e.loan.id) then Some(LoanOpenedEvent(e.loan))
      else Birth(s.w, x)
    ensures LoggedBirth(Apply(s, t, e).w.log, x) ==
      if e.Emit? && Announced(e.event) == Some(x) then Some(e.event) else LoggedBirth(s.w.log, x)
  {
  }

  /** Whether x is documented, or the one announcement owed for it is by pc. */
  predicate Settled(origin: World, w: World, pc: Pc, x: Entity) {
    if OwesFor(pc, x) then Undocumented(origin, w, Owes(pc).value) else Documented(origin, w, x)
  }

  lemma SettledKept(origin: World, s: State, t: Tid, e: Effect, next: Pc, x: Entity)
    requires t < |s.threads| && OweMove(s.w, s.threads[t], e, next) && Settled(origin, s.w, s.threads[t], x)
    ensures Settled(origin, Apply(s, t, e).w, next, x)
  {
    BirthFollows(s, t, e, x);
  }

  /** The announcement another thread owes is for a row this move does not make. */
  lemma OwedElsewhereKept(origin: World, s: State, t: Tid, e: Effect, next: Pc, u: Tid)
    requires t < |s.threads| && u < |s.threads| && u != t && Births(origin, s.threads, s.w)
    requires OweMove(s.w, s.threads[t], e, next) && Owes(s.threads[u]).Some?
    ensures Undocumented(origin, Apply(s, t, e).w, Owes(s.threads[u]).value)
    ensures !OwesFor(next, Announced(Owes(s.threads[u]).value).value)
  {
    BirthFollows(s, t, e, Announced(Owes(s.threads[u]).value).value);
  }

  predicate OwedElsewhere(threads: seq<Pc>, t: Tid, x: Entity) {
    exists u :: 0 <= u < |threads| && u != t && OwesFor(threads[u], x)
  }

  lemma SettledHere(origin: World, s: State, t: Tid, e: Effect, next: Pc, x: Entity)
    requires t < |s.threads| && Births(origin, s.threads, s.w) && OweMove(s.w, s.threads[t], e, next)
    requires !OwedElsewhere(s.threads, t, x)
    ensures Settled(origin, Apply(s, t, e).w, next, x)
  {
    if !OwesFor(s.threads[t], x) { assert NobodyOwes(s.threads, x); }
    SettledKept(origin, s, t, e, next, x);
  }

  lemma BirthsKept(origin: World, s: State, t: Tid, e: Effect, next: Pc)
    requires t < |s.threads| && Births(origin, s.threads, s.w) && OweMove(s.w, s.threads[t], e, next)
    ensures Births(origin, s.threads[t := next], Apply(s, t, e).w)
  {
    var threads', w' := s.threads[t := next], Apply(s, t, e).w;
    forall u | 0 <= u < |s.threads| && u != t && Owes(s.threads[u]).Some?
      ensures Undocumented(origin, w', Owes(s.threads[u]).value)
      ensures !OwesFor(next, Announced(Owes(s.threads[u]).value).value)
    {
      OwedElsewhereKept(origin, s, t, e, next, u);
    }
    forall x | NobodyOwes(threads', x) ensures Documented(origin, w', x) {
      assert !OwesFor(threads'[t], x);
      assert forall u | 0 <= u < |s.threads| && u != t :: s.threads[u] == threads'[u] && !OwesFor(threads'[u], x);
      SettledHere(origin, s, t, e, next, x);
    }
    forall u | 0 <= u < |threads'| && Owes(threads'[u]).Some?
      ensures Undocumented(origin, w', Owes(threads'[u]).value)
    {
      if u == t {
        var x := Announced(Owes(next).value).value;
        assert OwesFor(next, x);
        SettledHere(origin, s, t, e, next, x);
      }
    }
  }

  lemma ChronicleKept(origin: World, s: State, t: Tid, c: Choice)
    requires Enabled(s, t) && Fresh(s.w, c) && Inv(s) && Chronicle(origin, s)
    ensures Chronicle(origin, Step(s, t, c))
  {
    var s' := Step(s, t, c);
    var (e, next) := Move(s, t, c);
    MoveRows(s, t, c);
    RowsOnlyGrow(s, t, e);
    MoverCarries(s, t, c);
    MoveOwes(s, t, c);
    BirthsKept(origin, s, t, e, next);
    assert s'.threads == s.threads[t := next] && s'.w == Apply(s, t, e).w;
    forall u | 0 <= u < |s'.threads| ensures Carries(s'.w, s'.threads[u]) {
      if u != t { GrowthKeepsCarries(s.w, s'.w, s.threads[u]); }
    }
    forall x | x in s'.w.log ensures Truthful(s'.w, x) {
      assert x in s.w.log || (e.Emit? && x == e.event);
      GrowthKeepsTruth(s.w, s'.w, x);
    }
  }
}
