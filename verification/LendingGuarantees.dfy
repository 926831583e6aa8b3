/** Guarantees of single lending operations that runs inherit: suspended members get
    nothing, the queue is served first come first served, a failed auto-loan leaves the
    queue as it was, and exactly when a second return of a loan does harm. */
module LendingGuarantees {
  import opened Domain
  import opened ReservationQueue
  import opened LendingSpec
  import opened LendingTheorems

  // ---------------------------------------------------------------- suspension

  predicate IsSuspended(lib: Library, m: MemberId) {
    m in lib.w.members && lib.w.members[m].Suspended?
  }

  /** The event gives m a loan, a place in a queue, or a claimed reservation. */
  predicate Favours(e: Event, m: MemberId) {
    match e
    case LoanOpened(_, member, _, _, _, _) => member == m
    case ReservationQueued(_, member, _, _) => member == m
    case ReservationFulfilled(_, member, _, _) => member == m
    case _ => false
  }

  /** Between a and b the member got no loan, joined no queue and had nothing claimed. */
  ghost predicate GotNothing(a: Library, b: Library, m: MemberId) {
    && |a.w.log| <= |b.w.log| && b.w.log[..|a.w.log|] == a.w.log
    && (forall i | |a.w.log| <= i < |b.w.log| :: !Favours(b.w.log[i], m))
    && (forall l | l in b.w.loans && b.w.loans[l].member == m :: l in a.w.loans && a.w.loans[l].member == m)
    && (forall r | r in b.w.reservations && b.w.reservations[r].member == m ::
          r in a.w.reservations && a.w.reservations[r] == b.w.reservations[r])
  }

  lemma GotNothingTransitive(a: Library, b: Library, c: Library, m: MemberId)
    requires GotNothing(a, b, m) && GotNothing(b, c, m)
    ensures GotNothing(a, c, m)
  {
  }

  lemma BorrowForOthers(
    lib: Library, role: Role, n: MemberId, c: CopyId, f: BorrowFaults, id: LoanId, now: int, m: MemberId)
    requires WellKeyed(lib.w) && id !in lib.w.loans && (n != m || IsSuspended(lib, m))
    ensures GotNothing(lib, Borrow(lib, role, n, c, f, id, now).0, m)
    ensures Borrow(lib, role, n, c, f, id, now).0.w.members == lib.w.members
  {
  }

  lemma BorrowTouchesNoReservation(
    lib: Library, role: Role, n: MemberId, c: CopyId, f: BorrowFaults, id: LoanId, now: int)
    ensures var after := Borrow(lib, role, n, c, f, id, now).0;
            after.w.reservations == lib.w.reservations && after.w.members == lib.w.members
  {
  }

  /** Un-fulfilling another member's claim. */
  lemma UndoForOthers(lib: Library, claim: Reservation, fault: bool, now: int, m: MemberId)
    requires claim.member != m && claim.id in lib.w.reservations && lib.w.reservations[claim.id].member != m
    ensures GotNothing(lib, TryUnfulfil(lib, claim, fault, now), m)
  {
  }

  lemma AttemptForOthers(lib: Library, r: Reservation, c: CopyId, f: HandlerFaults, id: LoanId, now: int, m: MemberId)
    requires WellKeyed(lib.w) && id !in lib.w.loans && r.member != m
    requires r.id in lib.w.reservations && lib.w.reservations[r.id] == r
    ensures GotNothing(lib, Attempt(lib, r, c, f, id, now), m)
  {
    if !f.claim {
      var claim := r.(fulfilledAt := Some(now));
      var claimed := Claimed(lib, r, now);
      assert GotNothing(lib, claimed, m);
      var (lent, result) := Borrow(claimed, RoleMember, r.member, c, f.borrow, id, now);
      BorrowForOthers(claimed, RoleMember, r.member, c, f.borrow, id, now, m);
      BorrowTouchesNoReservation(claimed, RoleMember, r.member, c, f.borrow, id, now);
      GotNothingTransitive(lib, claimed, lent, m);
      match result
      case Ok(loan) =>
        GotNothingTransitive(lib, lent, Attempt(lib, r, c, f, id, now), m);
      case Err(e) =>
        UndoForOthers(lent, claim, f.unfulfil, now, m);
        var undone := TryUnfulfil(lent, claim, f.unfulfil, now);
        GotNothingTransitive(lib, lent, undone, m);
        GotNothingTransitive(lib, undone, Attempt(lib, r, c, f, id, now), m);
    }
  }

  lemma ReturnGivesSuspendedNothing(lib: Library, l: LoanId, f: ReturnFaults, id: LoanId, now: int, m: MemberId)
    requires WellKeyed(lib.w) && id !in lib.w.loans && IsSuspended(lib, m)
    ensures GotNothing(lib, ReturnLoan(lib, l, f, id, now).0, m)
  {
    if l in lib.w.loans && !f.find && !f.save {
      var loan := lib.w.loans[l];
      var (own, ok) := Returned(lib, loan, f, now);
      ReturnedKeepsKeys(lib, loan, f, now);
      assert GotNothing(lib, own, m);
      if ok && lib.subscribed && !f.handler.list {
        var q := PendingQueue(own.w.reservations, loan.book);
        FirstEligibleIsQueued(own.w.members, q, f.handler.eligibility);
        var next := FirstEligible(own.w.members, q, f.handler.eligibility);
        if next.Some? {
          AttemptForOthers(own, next.value, loan.copyId, f.handler, id, now, m);
          GotNothingTransitive(lib, own, Attempt(own, next.value, loan.copyId, f.handler, id, now), m);
        }
      }
    }
  }

  lemma PerformGivesSuspendedNothing(lib: Library, op: Op, m: MemberId)
    requires WellKeyed(lib.w) && Allowed(lib, op) && IsSuspended(lib, m)
    ensures GotNothing(lib, Perform(lib, op), m)
  {
    match op
    case BorrowOp(role, n, c, f, id, now) => BorrowForOthers(lib, role, n, c, f, id, now, m);
    case ReserveOp(n, b, cf, sf, id, now) =>
    case ReturnOp(l, f, id, now) => ReturnGivesSuspendedNothing(lib, l, f, id, now, m);
    case _ =>
  }

  /** Only StatusOp changes the standing of a registered member. */
  lemma OnlyStatusOpReactivates(lib: Library, op: Op, m: MemberId)
    requires WellKeyed(lib.w) && Allowed(lib, op) && m in lib.w.members
    requires !(op.StatusOp? && op.member == m)
    ensures m in Perform(lib, op).w.members && Perform(lib, op).w.members[m] == lib.w.members[m]
  {
    match op
    case BorrowOp(role, n, c, f, id, now) => BorrowTouchesNoReservation(lib, role, n, c, f, id, now);
    case ReturnOp(l, f, id, now) => ReturnKeepsMembers(lib, l, f, id, now);
    case _ =>
  }

  lemma AttemptKeepsMembers(lib: Library, r: Reservation, c: CopyId, f: HandlerFaults, id: LoanId, now: int)
    ensures Attempt(lib, r, c, f, id, now).w.members == lib.w.members
  {
    BorrowTouchesNoReservation(Claimed(lib, r, now), RoleMember, r.member, c, f.borrow, id, now);
  }

  lemma ReturnKeepsMembers(lib: Library, l: LoanId, f: ReturnFaults, id: LoanId, now: int)
    requires WellKeyed(lib.w)
    ensures ReturnLoan(lib, l, f, id, now).0.w.members == lib.w.members
  {
    ReturnInTwoParts(lib, l, f, id, now);
    if l in lib.w.loans {
      ReturnedKeepsKeys(lib, lib.w.loans[l], f, now);
      var own := Returned(lib, lib.w.loans[l], f, now).0;
      var after := ReturnLoan(lib, l, f, id, now).0;
      if AttemptedOne(own, after, lib.w.loans[l], f.handler, id, now) {
        var r :| r in PendingQueue(own.w.reservations, lib.w.loans[l].book) &&
          after == Attempt(own, r, lib.w.loans[l].copyId, f.handler, id, now);
        AttemptKeepsMembers(own, r, lib.w.loans[l].copyId, f.handler, id, now);
      }
    }
  }

  /** Reactivation of m: the one operation that ends a suspension. */
  predicate Reactivates(op: Op, m: MemberId) {
    op.StatusOp? && op.member == m && op.status.Active?
  }

  /** Suspension safety: over every run with no reactivation of a suspended member, with or
      without the saga and whatever fails, the member gets no loan, joins no queue and has
      no reservation claimed. */
  lemma {:induction false} SuspensionHolds(lib: Library, ops: seq<Op>, m: MemberId)
    requires WellKeyed(lib.w) && CanPerform(lib, ops) && IsSuspended(lib, m)
    requires forall i | 0 <= i < |ops| :: !Reactivates(ops[i], m)
    ensures IsSuspended(After(lib, ops), m) && GotNothing(lib, After(lib, ops), m)
    decreases |ops|
  {
    if ops != [] {
      var next := Perform(lib, ops[0]);
      PerformKeepsKeys(lib, ops[0]);
      PerformGivesSuspendedNothing(lib, ops[0], m);
      assert !Reactivates(ops[0], m);
      if !(ops[0].StatusOp? && ops[0].member == m) { OnlyStatusOpReactivates(lib, ops[0], m); }
      SuspensionHolds(next, ops[1..], m);
      GotNothingTransitive(lib, next, After(next, ops[1..]), m);
    }
  }

  // ---------------------------------------------------------------- FIFO choice

  predicate Chosen(members: map<MemberId, MembershipStatus>, q: seq<Reservation>, faulty: set<ReservationId>, i: nat) {
    i < |q| && CheckEligibility(members, q[i].member, q[i].id in faulty).Eligible? &&
    forall j | 0 <= j < i :: !CheckEligibility(members, q[j].member, q[j].id in faulty).Eligible?
  }

  /** The attempted reservation is the first of the queue whose check succeeds as eligible;
      nobody is attempted exactly when no check does. */
  lemma {:induction false} FirstComeFirstServed(
    members: map<MemberId, MembershipStatus>, q: seq<Reservation>, faulty: set<ReservationId>)
    ensures var choice := FirstEligible(members, q, faulty);
            (forall r :: choice == Some(r) <==> exists i: nat :: Chosen(members, q, faulty, i) && q[i] == r)
  {
    if q != [] {
      FirstComeFirstServed(members, q[1..], faulty);
      var choice := FirstEligible(members, q, faulty);
      if CheckEligibility(members, q[0].member, q[0].id in faulty).Eligible? {
        assert Chosen(members, q, faulty, 0);
      } else {
        forall i: nat ensures Chosen(members, q, faulty, i + 1) <==> Chosen(members, q[1..], faulty, i) {
          assert i + 1 < |q| ==> q[i + 1] == q[1..][i];
          assert forall j | 0 <= j < i && i < |q| - 1 :: q[1..][j] == q[j + 1];
          ChosenShift(members, q, faulty, i);
        }
        assert !Chosen(members, q, faulty, 0);
        forall r ensures choice == Some(r) <==> exists i: nat :: Chosen(members, q, faulty, i) && q[i] == r {
          if i: nat :| Chosen(members, q, faulty, i) && q[i] == r {
            assert Chosen(members, q[1..], faulty, i - 1) && q[1..][i - 1] == r;
          }
          if i: nat :| Chosen(members, q[1..], faulty, i) && q[1..][i] == r {
            assert Chosen(members, q, faulty, i + 1) && q[i + 1] == r;
          }
        }
      }
    }
  }

  lemma ChosenShift(members: map<MemberId, MembershipStatus>, q: seq<Reservation>, faulty: set<ReservationId>, i: nat)
    requires q != [] && !CheckEligibility(members, q[0].member, q[0].id in faulty).Eligible?
    ensures Chosen(members, q, faulty, i + 1) <==> Chosen(members, q[1..], faulty, i)
  {
  }

  // ---------------------------------------------------------------- compensation

  /** What an attempt leaves in the table: the reservation fulfilled exactly when the claim
      committed and was not undone, and everything else, including the queue order, as it
      was. */
  lemma AttemptCompensates(lib: Library, r: Reservation, c: CopyId, f: HandlerFaults, id: LoanId, now: int)
    requires WellKeyed(lib.w) && IsPending(lib.w.reservations, r.book, r)
    ensures var result := Borrow(Claimed(lib, r, now), RoleMember, r.member, c, f.borrow, id, now).1;
            var table := Attempt(lib, r, c, f, id, now).w.reservations;
            table == if !f.claim && (result.Ok? || f.unfulfil)
                     then lib.w.reservations[r.id := r.(fulfilledAt := Some(now))]
                     else lib.w.reservations
  {
    BorrowTouchesNoReservation(Claimed(lib, r, now), RoleMember, r.member, c, f.borrow, id, now);
    assert r.(fulfilledAt := Some(now)).(fulfilledAt := None) == r;
    var table := lib.w.reservations;
    var claimed: Table := table[r.id := r.(fulfilledAt := Some(now))];
    assert claimed[r.id := r] == table;
  }

  // ---------------------------------------------------------------- returning twice

  /** A copy on the shelf although somebody has it. */
  ghost predicate Misled(lib: Library, c: CopyId, holder: LoanId) {
    c in lib.w.copies && lib.w.copies[c].status == Available && OpenOn(lib.w.loans, holder, c)
  }

  /** Such a copy is out of agreement, and lending it once more does not mend that. */
  lemma MisledStays(lib: Library, r: Reservation, c: CopyId, f: HandlerFaults, id: LoanId, now: int, holder: LoanId)
    requires WellKeyed(lib.w) && id !in lib.w.loans && Misled(lib, c, holder) && c !in lib.tainted
    requires c !in Attempt(lib, r, c, f, id, now).tainted
    ensures var after := Attempt(lib, r, c, f, id, now);
      c in after.w.copies && !StatusFits(after.w.loans, c, after.w.copies[c].status)
  {
    AttemptBorrows(lib, r, c, f, id, now);
    var claimed := Claimed(lib, r, now);
    BorrowIsOneLoan(claimed, RoleMember, r.member, c, f.borrow, id, now);
    var after := Attempt(lib, r, c, f, id, now);
    if SameLoans(after, lib) {
      assert OpenOn(after.w.loans, holder, c);
    } else {
      assert OpenOn(after.w.loans, holder, c) && OpenOn(after.w.loans, id, c) && holder != id;
    }
  }

  /** The return's own part: the copy goes to the shelf whoever has it. */
  lemma OwnPartOfSecondReturn(lib: Library, l: LoanId, f: ReturnFaults, now: int)
    requires Agrees(lib) && l in lib.w.loans && !Open(lib.w.loans[l]) && lib.w.loans[l].copyId !in lib.tainted
    requires lib.w.loans[l].copyId !in Returned(lib, lib.w.loans[l], f, now).0.tainted
    ensures var c, own := lib.w.loans[l].copyId, Returned(lib, lib.w.loans[l], f, now).0;
      && own.w.copies == lib.w.copies[c := lib.w.copies[c].(status := Available)] && own.tainted == lib.tainted
      && (forall k, d :: OpenOn(own.w.loans, k, d) <==> OpenOn(lib.w.loans, k, d))
  {
  }

  /** What follows the own part of the return is one attempt, if anything. */
  ghost predicate Continued(own: Library, after: Library, loan: Loan, f: HandlerFaults, id: LoanId, now: int)
    requires WellKeyed(own.w)
  {
    after == own || AttemptedOne(own, after, loan, f, id, now)
  }

  lemma ContinuedAgrees(own: Library, after: Library, loan: Loan, f: HandlerFaults, id: LoanId, now: int)
    requires Agrees(own) && id !in own.w.loans && loan.copyId in own.w.copies && Continued(own, after, loan, f, id, now)
    requires loan.copyId !in after.tainted
    ensures var c := loan.copyId; c in after.w.copies && StatusFits(after.w.loans, c, after.w.copies[c].status)
  {
    if after != own {
      var r :| r in PendingQueue(own.w.reservations, loan.book) && after == Attempt(own, r, loan.copyId, f, id, now);
      AttemptAgrees(own, r, loan.copyId, f, id, now);
      AttemptKeepsCopies(own, r, loan.copyId, f, id, now);
    }
  }

  lemma ContinuedMisled(
    own: Library, after: Library, loan: Loan, f: HandlerFaults, id: LoanId, now: int, holder: LoanId)
    requires WellKeyed(own.w) && id !in own.w.loans && Misled(own, loan.copyId, holder) && loan.copyId !in own.tainted
    requires Continued(own, after, loan, f, id, now) && loan.copyId !in after.tainted
    ensures var c := loan.copyId; c in after.w.copies && !StatusFits(after.w.loans, c, after.w.copies[c].status)
  {
    if after != own {
      var r :| r in PendingQueue(own.w.reservations, loan.book) && after == Attempt(own, r, loan.copyId, f, id, now);
      MisledStays(own, r, loan.copyId, f, id, now, holder);
    } else {
      assert OpenOn(after.w.loans, holder, loan.copyId);
    }
  }

  lemma SecondReturnContinues(lib: Library, l: LoanId, f: ReturnFaults, id: LoanId, now: int)
    requires WellKeyed(lib.w) && l in lib.w.loans && !f.find && !f.save
    requires lib.w.loans[l].copyId !in ReturnLoan(lib, l, f, id, now).0.tainted
    ensures var own := Returned(lib, lib.w.loans[l], f, now).0;
      && WellKeyed(own.w) && lib.w.loans[l].copyId !in own.tainted
      && Continued(own, ReturnLoan(lib, l, f, id, now).0, lib.w.loans[l], f.handler, id, now)
  {
    ReturnInTwoParts(lib, l, f, id, now);
    ReturnedKeepsKeys(lib, lib.w.loans[l], f, now);
    ReturnTaints(lib, l, f, id, now);
  }

  /** Returning a loan that is closed already, with or without the saga and somebody waiting:
      if no Mark call on its copy fails, the copy ends in agreement with the open loans
      exactly when it was on the shelf before, that is, had not been lent again. */
  lemma ReturningTwice(lib: Library, l: LoanId, f: ReturnFaults, id: LoanId, now: int)
    requires Agrees(lib) && l in lib.w.loans && !Open(lib.w.loans[l]) && lib.w.loans[l].copyId !in lib.tainted
    requires !f.find && !f.save && id !in lib.w.loans
    requires lib.w.loans[l].copyId !in ReturnLoan(lib, l, f, id, now).0.tainted
    ensures var c, after := lib.w.loans[l].copyId, ReturnLoan(lib, l, f, id, now).0;
      c in after.w.copies &&
      (StatusFits(after.w.loans, c, after.w.copies[c].status) <==> lib.w.copies[c].status == Available)
  {
    var loan, after := lib.w.loans[l], ReturnLoan(lib, l, f, id, now).0;
    var c, own := loan.copyId, Returned(lib, loan, f, now).0;
    assert StatusFits(lib.w.loans, c, lib.w.copies[c].status);
    SecondReturnContinues(lib, l, f, id, now);
    OwnPartOfSecondReturn(lib, l, f, now);
    if lib.w.copies[c].status == Available {
      ShelvedAgain(lib, own, c);
      ContinuedAgrees(own, after, loan, f.handler, id, now);
    } else {
      var holder :| OpenOn(lib.w.loans, holder, c);
      assert OpenOn(own.w.loans, holder, c) && Misled(own, c, holder);
      ContinuedMisled(own, after, loan, f.handler, id, now, holder);
    }
  }

  /** Putting a copy back that was on the shelf. */
  lemma ShelvedAgain(lib: Library, own: Library, c: CopyId)
    requires Agrees(lib) && c in lib.w.copies && lib.w.copies[c].status == Available && WellKeyed(own.w)
    requires own.w.copies == lib.w.copies[c := lib.w.copies[c].(status := Available)] && own.tainted == lib.tainted
    requires own.w.loans.Keys == lib.w.loans.Keys
    requires forall k | k in own.w.loans :: own.w.loans[k].copyId == lib.w.loans[k].copyId
    requires forall k, d :: OpenOn(own.w.loans, k, d) <==> OpenOn(lib.w.loans, k, d)
    ensures Agrees(own)
  {
  }

  lemma AttemptKeepsCopies(lib: Library, r: Reservation, c: CopyId, f: HandlerFaults, id: LoanId, now: int)
    ensures Attempt(lib, r, c, f, id, now).w.copies.Keys == lib.w.copies.Keys
    ensures lib.tainted <= Attempt(lib, r, c, f, id, now).tainted
  {
    AttemptBorrows(lib, r, c, f, id, now);
  }

  /** A copy the whole return leaves untainted, its own part leaves untainted. */
  lemma ReturnTaints(lib: Library, l: LoanId, f: ReturnFaults, id: LoanId, now: int)
    requires WellKeyed(lib.w) && l in lib.w.loans && !f.find && !f.save
    ensures var own := Returned(lib, lib.w.loans[l], f, now);
      && own.0.tainted <= ReturnLoan(lib, l, f, id, now).0.tainted
      && (!own.1 ==> ReturnLoan(lib, l, f, id, now).0 == own.0)
  {
  }

  const NO_BORROW_FAULTS := BorrowFaults(false, false, false, false, false)
  const NO_FAULTS := ReturnFaults(false, false, false, false, HandlerFaults(false, {}, false, NO_BORROW_FAULTS, false))

  lemma Unrolled(lib: Library, op: Op, rest: seq<Op>)
    requires WellKeyed(lib.w) && Allowed(lib, op) && WellKeyed(Perform(lib, op).w) && CanPerform(Perform(lib, op), rest)
    ensures CanPerform(lib, [op] + rest) && After(lib, [op] + rest) == After(Perform(lib, op), rest)
  {
  }

  function LendingAgain(m: MemberId, c: CopyId, book: BookId, first: LoanId, second: LoanId): seq<Op> {
    [RegisterMemberOp(m)] + ([RegisterCopyOp(c, book)] + ([BorrowOp(RoleMember, m, c, NO_BORROW_FAULTS, first, 0)] +
      ([ReturnOp(first, NO_FAULTS, second, 1)] + ([BorrowOp(RoleMember, m, c, NO_BORROW_FAULTS, second, 2)] + []))))
  }

  lemma LentAgain(m: MemberId, c: CopyId, book: BookId, first: LoanId, second: LoanId)
    requires first != second
    ensures CanPerform(EMPTY, LendingAgain(m, c, book, first, second))
    ensures var lib := After(EMPTY, LendingAgain(m, c, book, first, second));
      && lib.w.loans.Keys == {first, second} && lib.w.loans[first].copyId == c && OpenOn(lib.w.loans, second, c)
      && lib.w.copies == map[c := Copy(c, book, Unavailable)] && !lib.subscribed
  {
    var o0, o1 := RegisterMemberOp(m), RegisterCopyOp(c, book);
    var o2, o3 := BorrowOp(RoleMember, m, c, NO_BORROW_FAULTS, first, 0), ReturnOp(first, NO_FAULTS, second, 1);
    var o4 := BorrowOp(RoleMember, m, c, NO_BORROW_FAULTS, second, 2);
    var l1 := Perform(EMPTY, o0);
    var l2 := Perform(l1, o1);
    var l3 := Perform(l2, o2);
    assert l3.w.loans == map[first := BuildLoan(first, m, Copy(c, book, Available), 0)];
    assert l3.w.copies == map[c := Copy(c, book, Unavailable)];
    var l4 := Perform(l3, o3);
    assert l4.w.loans.Keys == {first} && l4.w.loans[first].copyId == c;
    assert l4.w.copies == map[c := Copy(c, book, Available)];
    var l5 := Perform(l4, o4);
    assert CanPerform(l5, []);
    Unrolled(l4, o4, []);
    Unrolled(l3, o3, [o4] + []);
    Unrolled(l2, o2, [o3] + ([o4] + []));
    Unrolled(l1, o1, [o2] + ([o3] + ([o4] + [])));
    Unrolled(EMPTY, o0, [o1] + ([o2] + ([o3] + ([o4] + []))));
  }

  /** It happens: lend a copy, take it back, lend it again, and return the first loan once
      more. Nothing fails, and the copy is on the shelf while the second loan is open. */
  lemma ReturningTwiceMisleads(m: MemberId, c: CopyId, book: BookId, first: LoanId, second: LoanId)
    requires first != second
    ensures CanPerform(EMPTY, LendingAgain(m, c, book, first, second))
    ensures var lib := After(EMPTY, LendingAgain(m, c, book, first, second));
      Misled(ReturnLoan(lib, first, NO_FAULTS, first + second + 1, 3).0, c, second)
  {
    LentAgain(m, c, book, first, second);
    var lib := After(EMPTY, LendingAgain(m, c, book, first, second));
    assert OpenOn(ReturnLoan(lib, first, NO_FAULTS, first + second + 1, 3).0.w.loans, second, c);
  }
}
