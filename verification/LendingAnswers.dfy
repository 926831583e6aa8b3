/** What each lending operation answers and leaves, field by field: which call is refused and
    why, what is stored, what is published, and who is served next. */
module LendingAnswers {
  import opened Domain
  import opened ReservationQueue
  import opened LendingSpec
  import opened LendingTheorems
  import opened LendingGuarantees

  // ---------------------------------------------------------------- borrowing

  /** Nothing stands in the way of a loan up to its save. */
  predicate CanLend(w: World, role: Role, m: MemberId, c: CopyId, f: BorrowFaults) {
    && role == RoleMember && !f.eligibility && m in w.members && w.members[m] == Active
    && !f.findCopy && c in w.copies && w.copies[c].status == Available && !f.saveLoan
  }

  /** The refusals of a borrow, in the order in which they take precedence; a refused borrow
      changes nothing. */
  lemma BorrowRefuses(lib: Library, role: Role, m: MemberId, c: CopyId, f: BorrowFaults, id: LoanId, now: int)
    ensures var (after, answer) := Borrow(lib, role, m, c, f, id, now);
      var w := lib.w;
      && (!CanLend(w, role, m, c, f) ==> after == lib && answer.Err?)
      && (answer == Err(UnauthorizedRole) <==> role != RoleMember)
      && (answer == Err(MemberLookupFailed) <==> role == RoleMember && (f.eligibility || m !in w.members))
      && (answer == Err(MemberIneligible) <==>
            role == RoleMember && !f.eligibility && m in w.members && w.members[m] == Suspended)
      && (answer == Err(CopyLookupFailed) <==>
            && role == RoleMember && !f.eligibility && m in w.members && w.members[m] == Active
            && (f.findCopy || c !in w.copies))
      && (answer == Err(CopyUnavailable) <==>
            && role == RoleMember && !f.eligibility && m in w.members && w.members[m] == Active
            && !f.findCopy && c in w.copies && w.copies[c].status == Unavailable)
      && (answer == Err(LoanSaveFailed) <==>
            && role == RoleMember && !f.eligibility && m in w.members && w.members[m] == Active
            && !f.findCopy && c in w.copies && w.copies[c].status == Available && f.saveLoan)
  {
  }

  /** A borrow that is not refused: one open loan of that copy to that member for 14 days from
      now, stored and announced with the same fields. It succeeds, with the copy off the shelf,
      unless marking the copy fails. */
  lemma BorrowLends(lib: Library, role: Role, m: MemberId, c: CopyId, f: BorrowFaults, id: LoanId, now: int)
    requires WellKeyed(lib.w) && CanLend(lib.w, role, m, c, f)
    ensures var (after, answer) := Borrow(lib, role, m, c, f, id, now);
      var w, book := lib.w, lib.w.copies[c].book;
      var due := now + 14 * 24 * 60 * 60 * 1_000_000_000;
      var marked := !f.markFind && !f.markSave;
      && answer == (if marked then Ok(Loan(id, m, c, book, now, due, None)) else Err(MarkUnavailableFailed))
      && after.w.loans == w.loans[id := Loan(id, m, c, book, now, due, None)]
      && after.w.log == w.log + [LoanOpened(id, m, c, book, now, due)]
      && after.w.copies == (if marked then w.copies[c := Copy(c, book, Unavailable)] else w.copies)
      && after.tainted == (if marked then lib.tainted else lib.tainted + {c})
      && after.w.members == w.members && after.w.reservations == w.reservations && after.subscribed == lib.subscribed
  {
  }

  // ---------------------------------------------------------------- reserving

  lemma ReserveAnswers(lib: Library, m: MemberId, book: BookId, checkFault: bool, saveFault: bool,
                       id: ReservationId, now: int)
    ensures var (after, answer) := Reserve(lib, m, book, checkFault, saveFault, id, now);
      var w := lib.w;
      && (answer == Err(ReserverLookupFailed) <==> checkFault || m !in w.members)
      && (answer == Err(ReserverIneligible) <==> !checkFault && m in w.members && w.members[m] == Suspended)
      && (answer == Err(ReservationSaveFailed) <==>
            !checkFault && m in w.members && w.members[m] == Active && saveFault)
      && (answer.Err? ==> after == lib)
      && (answer.Ok? ==>
            && answer.value == Reservation(id, m, book, now, None)
            && after.w.reservations == w.reservations[id := Reservation(id, m, book, now, None)]
            && after.w.log == w.log + [ReservationQueued(id, m, book, now)]
            && after == lib.(w := w.(reservations := after.w.reservations, log := after.w.log)))
  {
  }

  /** Of two reservations of a book the one made earlier stands first, whatever happened in
      between, for as long as it is pending. */
  lemma EarlierReserverStandsFirst(first: Library, between: seq<Op>, m: MemberId, n: MemberId, book: BookId,
                                   id: ReservationId, later: ReservationId, now: int, at: int)
    requires WellKeyed(first.w) && id != later && (now < at || (now == at && id < later))
    requires Reserve(first, m, book, false, false, id, now).1.Ok?
    requires var mid := Reserve(first, m, book, false, false, id, now).0; WellKeyed(mid.w) && CanPerform(mid, between)
    requires var last := After(Reserve(first, m, book, false, false, id, now).0, between);
      && id in last.w.reservations && last.w.reservations[id] == Reservation(id, m, book, now, None)
      && Reserve(last, n, book, false, false, later, at).1.Ok?
    ensures var last := After(Reserve(first, m, book, false, false, id, now).0, between);
      var table := Reserve(last, n, book, false, false, later, at).0.w.reservations;
      Keyed(table) && var q := PendingQueue(table, book);
      exists i, j :: 0 <= i < j < |q| && q[i].id == id && q[j].id == later
  {
    var last := After(Reserve(first, m, book, false, false, id, now).0, between);
    var table := Reserve(last, n, book, false, false, later, at).0.w.reservations;
    EarlierStandsFirst(table, book, id, later);
  }

  // ---------------------------------------------------------------- standing

  predicate SetsStatusOf(op: Op, m: MemberId) { op.StatusOp? && op.member == m }

  lemma {:induction false} StandingStays(lib: Library, ops: seq<Op>, m: MemberId)
    requires WellKeyed(lib.w) && CanPerform(lib, ops) && m in lib.w.members
    requires forall i | 0 <= i < |ops| :: !SetsStatusOf(ops[i], m)
    ensures m in After(lib, ops).w.members && After(lib, ops).w.members[m] == lib.w.members[m]
    decreases |ops|
  {
    if ops != [] {
      PerformKeepsKeys(lib, ops[0]);
      assert !SetsStatusOf(ops[0], m);
      OnlyStatusOpReactivates(lib, ops[0], m);
      StandingStays(Perform(lib, ops[0]), ops[1..], m);
    }
  }

  /** The last standing set decides: whatever else happened since, a member may reserve, and
      borrow an available copy, if it was Active, and is refused both as ineligible if it was
      Suspended. */
  lemma StandingDecides(lib: Library, m: MemberId, status: MembershipStatus, ops: seq<Op>, c: CopyId, book: BookId,
                        id: nat, now: int)
    requires WellKeyed(lib.w) && m in lib.w.members && CanPerform(SetStatus(lib, m, status, false).0, ops)
    requires forall i | 0 <= i < |ops| :: !SetsStatusOf(ops[i], m)
    ensures var last := After(SetStatus(lib, m, status, false).0, ops);
      var lent, queued :=
        Borrow(last, RoleMember, m, c, NO_BORROW_FAULTS, id, now).1, Reserve(last, m, book, false, false, id, now).1;
      && (status == Active ==> queued.Ok?)
      && (status == Active && c in last.w.copies && last.w.copies[c].status == Available ==> lent.Ok?)
      && (status == Suspended ==> lent == Err(MemberIneligible) && queued == Err(ReserverIneligible))
  {
    StandingStays(SetStatus(lib, m, status, false).0, ops, m);
  }

  /** A standing is changed for a registered member only, and for nobody else. */
  lemma StatusAnswers(lib: Library, m: MemberId, status: MembershipStatus, fault: bool)
    ensures var (after, ok) := SetStatus(lib, m, status, fault);
      && (ok <==> !fault && m in lib.w.members) && (!ok ==> after == lib)
      && after.w.members.Keys == lib.w.members.Keys && (ok ==> after.w.members[m] == status)
      && (forall k | k in lib.w.members && k != m :: after.w.members[k] == lib.w.members[k])
      && after == lib.(w := lib.w.(members := after.w.members))
  {
  }

  // ---------------------------------------------------------------- returning

  /** Why a return stops before the consumer hears of it. */
  lemma ReturnStops(lib: Library, l: LoanId, f: ReturnFaults, id: LoanId, now: int)
    requires WellKeyed(lib.w)
    ensures var (after, answer) := ReturnLoan(lib, l, f, id, now);
      var w := lib.w;
      && (answer == Err(LoanLookupFailed) <==> f.find)
      && (answer == Err(LoanNotFound) <==> !f.find && l !in w.loans)
      && (answer == Err(LoanCommitFailed) <==> !f.find && l in w.loans && f.save)
      && (f.find || l !in w.loans || f.save ==> after == lib)
      && (!f.find && l in w.loans && !f.save ==>
            var closed, c := w.loans[l].(returnedAt := Some(now)), w.loans[l].copyId;
            if f.markFind || f.markSave || c !in w.copies
            then answer == Err(MarkAvailableFailed) &&
                 after == lib.(w := w.(loans := w.loans[l := closed]), tainted := lib.tainted + {c})
            else answer == Ok(closed))
  {
  }

  /** Nothing stops the return of l before the consumer hears of it. */
  predicate Shelves(lib: Library, l: LoanId, f: ReturnFaults) {
    !f.find && l in lib.w.loans && !f.save && !f.markFind && !f.markSave && lib.w.loans[l].copyId in lib.w.copies
  }

  /** The world after the return's own part: the loan closed, its copy on the shelf, both said. */
  function Shelved(w: World, l: LoanId, now: int): World
    requires l in w.loans && w.loans[l].copyId in w.copies
  {
    var loan := w.loans[l];
    w.(loans := w.loans[l := loan.(returnedAt := Some(now))],
       copies := w.copies[loan.copyId := Copy(loan.copyId, w.copies[loan.copyId].book, Available)],
       log := w.log + [LoanReturned(l, loan.member, loan.copyId, loan.book, now)])
  }

  /** The reservation waits for the book and its reserver's check succeeds. */
  predicate MayBeServed(w: World, book: BookId, faulty: set<ReservationId>, id: ReservationId) {
    && id in w.reservations && w.reservations[id].book == book && w.reservations[id].fulfilledAt == None
    && id !in faulty && w.reservations[id].member in w.members && w.members[w.reservations[id].member] == Active
  }

  /** ... and nobody who may be served reserved earlier. */
  predicate IsNext(w: World, book: BookId, faulty: set<ReservationId>, id: ReservationId) {
    MayBeServed(w, book, faulty, id) &&
    forall k | k in w.reservations && k != id && MayBeServed(w, book, faulty, k) ::
      w.reservations[id].reservedAt < w.reservations[k].reservedAt ||
      (w.reservations[id].reservedAt == w.reservations[k].reservedAt && id < k)
  }

  /** Nobody of the queue stands before the one the walk attempts. */
  lemma NobodyBefore(w: World, book: BookId, faulty: set<ReservationId>, k: ReservationId)
    requires WellKeyed(w) && MayBeServed(w, book, faulty, k)
    requires FirstEligible(w.members, PendingQueue(w.reservations, book), faulty).Some?
    ensures var r := FirstEligible(w.members, PendingQueue(w.reservations, book), faulty).value;
      r.id == k || r.reservedAt < w.reservations[k].reservedAt ||
      (r.reservedAt == w.reservations[k].reservedAt && r.id < k)
  {
    var q := PendingQueue(w.reservations, book);
    var next := FirstEligible(w.members, q, faulty);
    QueueOrder(w.reservations, book);
    FirstComeFirstServed(w.members, q, faulty);
    var i: nat :| Chosen(w.members, q, faulty, i) && q[i] == next.value;
    assert w.reservations[k] in q;
    var j :| 0 <= j < |q| && q[j] == w.reservations[k];
    assert j >= i;
  }

  /** Whom the walk attempts, in the fields. */
  lemma FirstEligibleIsNext(w: World, book: BookId, faulty: set<ReservationId>)
    requires WellKeyed(w)
    ensures var next := FirstEligible(w.members, PendingQueue(w.reservations, book), faulty);
      && (next.Some? ==> next.value.id in w.reservations && w.reservations[next.value.id] == next.value)
      && (forall id :: IsNext(w, book, faulty, id) <==> next.Some? && next.value.id == id)
  {
    var q := PendingQueue(w.reservations, book);
    var next := FirstEligible(w.members, q, faulty);
    QueueOrder(w.reservations, book);
    if next.Some? {
      FirstEligibleIsQueued(w.members, q, faulty);
      assert MayBeServed(w, book, faulty, next.value.id);
      forall k | MayBeServed(w, book, faulty, k)
        ensures next.value.id == k || next.value.reservedAt < w.reservations[k].reservedAt ||
                (next.value.reservedAt == w.reservations[k].reservedAt && next.value.id < k)
      {
        NobodyBefore(w, book, faulty, k);
      }
    } else {
      forall k ensures !MayBeServed(w, book, faulty, k) {
        if MayBeServed(w, book, faulty, k) { SomebodyIsChosen(w.members, q, faulty, w.reservations[k]); }
      }
    }
  }

  lemma {:induction false} SomebodyIsChosen(
    members: map<MemberId, MembershipStatus>, q: seq<Reservation>, faulty: set<ReservationId>, r: Reservation)
    requires r in q && r.id !in faulty && r.member in members && members[r.member] == Active
    ensures FirstEligible(members, q, faulty).Some?
  {
    if r != q[0] { SomebodyIsChosen(members, q[1..], faulty, r); }
  }

  /** The return's own part. */
  lemma OwnPart(lib: Library, l: LoanId, f: ReturnFaults, now: int)
    requires WellKeyed(lib.w) && Shelves(lib, l, f)
    ensures Returned(lib, lib.w.loans[l], f, now) == (lib.(w := Shelved(lib.w, l, now)), true)
    ensures WellKeyed(Shelved(lib.w, l, now))
  {
  }

  /** Nobody is served: the return leaves its own part. */
  lemma ReturnServesNobody(lib: Library, l: LoanId, f: ReturnFaults, id: LoanId, now: int)
    requires WellKeyed(lib.w) && Shelves(lib, l, f)
    requires !lib.subscribed || f.handler.list || f.handler.claim
             || forall r :: !IsNext(lib.w, lib.w.loans[l].book, f.handler.eligibility, r)
    ensures ReturnLoan(lib, l, f, id, now).0 == lib.(w := Shelved(lib.w, l, now))
  {
    var book, faulty := lib.w.loans[l].book, f.handler.eligibility;
    OwnPart(lib, l, f, now);
    FirstEligibleIsNext(lib.w, book, faulty);
    var next := FirstEligible(lib.w.members, PendingQueue(lib.w.reservations, book), faulty);
    assert next.Some? ==> IsNext(lib.w, book, faulty, next.value.id);
  }

  /** Why the auto-loan of a returned copy to an eligible reserver is refused, if it is. */
  function Reason(f: BorrowFaults): Option<BorrowError> {
    if f.eligibility then Some(MemberLookupFailed)
    else if f.findCopy then Some(CopyLookupFailed)
    else if f.saveLoan then Some(LoanSaveFailed)
    else if f.markFind || f.markSave then Some(MarkUnavailableFailed)
    else None
  }

  /** What an attempt for r leaves of a world with copy c on the shelf: the reservation
      fulfilled unless a refusal was undone, the loan stored unless refused before its save,
      and every step announced. */
  function Attempted(w: World, r: Reservation, c: CopyId, f: HandlerFaults, id: LoanId, now: int): World
    requires c in w.copies
  {
    var reason, book, due := Reason(f.borrow), w.copies[c].book, now + 14 * 24 * 60 * 60 * 1_000_000_000;
    var stored := reason == None || reason == Some(MarkUnavailableFailed);
    var fulfilledAt := if reason == None || f.unfulfil then Some(now) else None;
    World(
      w.members,
      if reason == None then w.copies[c := Copy(c, book, Unavailable)] else w.copies,
      if stored then w.loans[id := Loan(id, r.member, c, book, now, due, None)] else w.loans,
      w.reservations[r.id := Reservation(r.id, r.member, r.book, r.reservedAt, fulfilledAt)],
      w.log
      + [ReservationFulfilled(r.id, r.member, r.book, now)]
      + (if stored then [LoanOpened(id, r.member, c, book, now, due)] else [])
      + (if reason == None then [AutoLoanOpened(book, id, r.member, r.id, now)]
         else (if f.unfulfil then [] else [ReservationUnfulfilled(r.id, r.member, r.book, now)])
              + [AutoLoanFailed(r.book, r.id, r.member, reason.value, now)]))
  }

  lemma AttemptAnswers(lib: Library, r: Reservation, c: CopyId, f: HandlerFaults, id: LoanId, now: int)
    requires WellKeyed(lib.w) && !f.claim && c in lib.w.copies && lib.w.copies[c].status == Available
    requires r.member in lib.w.members && lib.w.members[r.member] == Active
    ensures Attempt(lib, r, c, f, id, now).w == Attempted(lib.w, r, c, f, id, now)
  {
    var claimed := Claimed(lib, r, now);
    var (lent, answer) := Borrow(claimed, RoleMember, r.member, c, f.borrow, id, now);
    BorrowRefuses(claimed, RoleMember, r.member, c, f.borrow, id, now);
    if CanLend(claimed.w, RoleMember, r.member, c, f.borrow) {
      BorrowLends(claimed, RoleMember, r.member, c, f.borrow, id, now);
    }
  }

  /** First reserved, first served: a return hands its copy to the earliest reservation of the
      book whose reserver may be served, and leaves exactly this. */
  lemma ReturnServesTheNext(lib: Library, l: LoanId, f: ReturnFaults, id: LoanId, now: int, r: ReservationId)
    requires WellKeyed(lib.w) && Shelves(lib, l, f)
    requires lib.subscribed && !f.handler.list && !f.handler.claim
    requires IsNext(lib.w, lib.w.loans[l].book, f.handler.eligibility, r)
    ensures ReturnLoan(lib, l, f, id, now).0.w ==
      Attempted(Shelved(lib.w, l, now), lib.w.reservations[r], lib.w.loans[l].copyId, f.handler, id, now)
  {
    OwnPart(lib, l, f, now);
    FirstEligibleIsNext(lib.w, lib.w.loans[l].book, f.handler.eligibility);
    AttemptAnswers(lib.(w := Shelved(lib.w, l, now)), lib.w.reservations[r], lib.w.loans[l].copyId, f.handler, id, now);
  }
}
