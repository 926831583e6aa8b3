/** The fines table: sums that do not depend on iteration order, and what every operation
    on it keeps. */
module FineTables {
  import opened Domain
  import opened FineMoney

  type FineId = nat

  datatype Fine = Fine(id: FineId, member: MemberId, loanId: LoanId, amount: int, assessedAt: int, paidAt: Option<int>)

  type Fines = map<FineId, Fine>

  // ---------------------------------------------------------------- sums over the map

  ghost function Sum(t: Fines, ids: set<FineId>): int
    requires ids <= t.Keys
    decreases |ids|
  {
    if ids == {} then 0 else var x :| x in ids; t[x].amount + Sum(t, ids - {x})
  }

  /** The sum may be taken in any order. */
  lemma {:induction false} SumTakesAny(t: Fines, ids: set<FineId>, x: FineId)
    requires ids <= t.Keys && x in ids
    ensures Sum(t, ids) == t[x].amount + Sum(t, ids - {x})
    decreases |ids|
  {
    var y :| y in ids && Sum(t, ids) == t[y].amount + Sum(t, ids - {y});
    if y != x {
      SumTakesAny(t, ids - {y}, x);
      SumTakesAny(t, ids - {x}, y);
      assert ids - {y} - {x} == ids - {x} - {y};
    }
  }

  lemma {:induction false} SumAgrees(t: Fines, t': Fines, ids: set<FineId>)
    requires ids <= t.Keys && ids <= t'.Keys && forall x | x in ids :: t'[x].amount == t[x].amount
    ensures Sum(t', ids) == Sum(t, ids)
    decreases |ids|
  {
    if ids != {} {
      var x :| x in ids;
      SumTakesAny(t, ids, x);
      SumTakesAny(t', ids, x);
      SumAgrees(t, t', ids - {x});
    }
  }

  lemma {:induction false} SumSplits(t: Fines, a: set<FineId>, b: set<FineId>)
    requires a <= t.Keys && b <= t.Keys && a !! b
    ensures Sum(t, a + b) == Sum(t, a) + Sum(t, b)
    decreases |a|
  {
    if a == {} {
      assert a + b == b;
    } else {
      var x :| x in a;
      SumTakesAny(t, a, x);
      SumTakesAny(t, a + b, x);
      SumSplits(t, a - {x}, b);
      assert a + b - {x} == (a - {x}) + b;
    }
  }

  // ---------------------------------------------------------------- a member's balance

  function FinesOf(t: Fines, m: MemberId): set<FineId> { set id | id in t && t[id].member == m }
  function PaidBy(t: Fines, m: MemberId): set<FineId> { set id | id in t && t[id].member == m && t[id].paidAt.Some? }
  function OwedBy(t: Fines, m: MemberId): set<FineId> { set id | id in t && t[id].member == m && t[id].paidAt.None? }

  ghost function Assessed(t: Fines, m: MemberId): int { Sum(t, FinesOf(t, m)) }
  ghost function Paid(t: Fines, m: MemberId): int { Sum(t, PaidBy(t, m)) }
  ghost function Owed(t: Fines, m: MemberId): int { Sum(t, OwedBy(t, m)) }

  /** Conservation: everything assessed is either paid or owed. */
  lemma MoneyIsConserved(t: Fines, m: MemberId)
    ensures Assessed(t, m) == Paid(t, m) + Owed(t, m)
  {
    SumSplits(t, PaidBy(t, m), OwedBy(t, m));
    assert FinesOf(t, m) == PaidBy(t, m) + OwedBy(t, m);
  }

  predicate PaysFine(t: Fines, t': Fines, id: FineId, at: int) {
    id in t && t[id].paidAt.None? && t' == t[id := t[id].(paidAt := Some(at))]
  }

  /** Paying a fine moves exactly its amount from owed to paid, for its member only. */
  lemma PaymentMovesTheAmount(t: Fines, t': Fines, id: FineId, at: int, m: MemberId)
    requires PaysFine(t, t', id, at)
    ensures Assessed(t', m) == Assessed(t, m)
    ensures Paid(t', m) == Paid(t, m) + (if t[id].member == m then t[id].amount else 0)
    ensures Owed(t', m) == Owed(t, m) - (if t[id].member == m then t[id].amount else 0)
  {
    assert FinesOf(t', m) == FinesOf(t, m);
    SumAgrees(t, t', FinesOf(t, m));
    if t[id].member == m {
      assert PaidBy(t', m) == PaidBy(t, m) + {id};
      SumTakesAny(t', PaidBy(t', m), id);
      assert PaidBy(t', m) - {id} == PaidBy(t, m);
    } else {
      assert PaidBy(t', m) == PaidBy(t, m);
    }
    SumAgrees(t, t', PaidBy(t, m));
    MoneyIsConserved(t, m);
    MoneyIsConserved(t', m);
  }

  // ---------------------------------------------------------------- assessing

  predicate FinedIn(t: Fines, l: LoanId) {
    exists id :: id in t && t[id].loanId == l
  }

  ghost predicate OnePerLoan(t: Fines) {
    && (forall id | id in t :: t[id].id == id)
    && (forall i, j | i in t && j in t && t[i].loanId == t[j].loanId :: i == j)
  }

  predicate Overdue(loan: Loan, now: int) {
    loan.returnedAt.None? && loan.dueDate < now
  }

  predicate FinesLoan(f: Fine, loan: Loan, now: int, rate: int) {
    f.member == loan.member && f.loanId == loan.id && f.assessedAt == now && f.paidAt.None? &&
    f.amount == FineAmount(loan.dueDate, now, rate)
  }

  /** t' is t with one proper new fine for each loan of scope that had none, no other fine
      touched. */
  ghost predicate Fined(t: Fines, t': Fines, loans: map<LoanId, Loan>, scope: set<LoanId>, now: int, rate: int) {
    && scope <= loans.Keys
    && (forall id | id in t :: id in t' && t'[id] == t[id])
    && (forall l | l in scope :: FinedIn(t', l))
    && (forall id | id in t' && id !in t ::
          t'[id].loanId in scope && !FinedIn(t, t'[id].loanId) && FinesLoan(t'[id], loans[t'[id].loanId], now, rate))
    && (OnePerLoan(t) ==> OnePerLoan(t'))
  }

  lemma OnePerLoanExtends(t: Fines, f: Fine)
    requires OnePerLoan(t) && !FinedIn(t, f.loanId)
    ensures OnePerLoan(t[f.id := f])
  {
  }

  lemma FinedOneMore(t: Fines, t': Fines, loans: map<LoanId, Loan>, scope: set<LoanId>, f: Fine, now: int, rate: int)
    requires Fined(t, t', loans, scope, now, rate) && f.loanId in loans && !FinedIn(t', f.loanId) && f.id !in t'
    requires FinesLoan(f, loans[f.loanId], now, rate)
    ensures Fined(t, t'[f.id := f], loans, scope + {f.loanId}, now, rate)
  {
    var t'' := t'[f.id := f];
    assert t''[f.id].loanId == f.loanId;
    forall l | l in scope ensures FinedIn(t'', l) {
      var id :| id in t' && t'[id].loanId == l;
      assert t''[id].loanId == l;
    }
    if OnePerLoan(t) { OnePerLoanExtends(t', f); }
  }

  lemma FinedThenFined(
    a: Fines, b: Fines, c: Fines, loans: map<LoanId, Loan>, s1: set<LoanId>, s2: set<LoanId>, now: int, rate: int)
    requires Fined(a, b, loans, s1, now, rate) && Fined(b, c, loans, s2, now, rate)
    ensures Fined(a, c, loans, s1 + s2, now, rate)
  {
  }

  /** Members without a loan in scope owe and have paid what they did. */
  lemma OthersUnaffected(
    t: Fines, t': Fines, loans: map<LoanId, Loan>, scope: set<LoanId>, now: int, rate: int, m: MemberId)
    requires Fined(t, t', loans, scope, now, rate)
    requires forall l | l in scope :: loans[l].member != m
    ensures OwedBy(t', m) == OwedBy(t, m) && Owed(t', m) == Owed(t, m)
  {
    assert OwedBy(t', m) == OwedBy(t, m);
    SumAgrees(t, t', OwedBy(t, m));
  }

  /** Fining loans that all have a fine changes nothing. */
  lemma FiningAgain(t: Fines, t': Fines, loans: map<LoanId, Loan>, scope: set<LoanId>, now: int, rate: int)
    requires Fined(t, t', loans, scope, now, rate) && forall l | l in scope :: FinedIn(t, l)
    ensures t' == t
  {
  }

  // ---------------------------------------------------------------- over runs

  /** No fine ever disappears or changes its member, loan or amount, and paid is absorbing. */
  predicate Evolves(t: Fines, t': Fines) {
    forall id | id in t ::
      id in t' && (t'[id] == t[id] || (t[id].paidAt.None? && t'[id] == t[id].(paidAt := t'[id].paidAt)))
  }

  lemma EvolvesTransitive(a: Fines, b: Fines, c: Fines)
    requires Evolves(a, b) && Evolves(b, c)
    ensures Evolves(a, c)
  {
  }
}
