/** What each loan operation does to tables and chips, and what it keeps
    (app/loans.py). */
module LoanSteps {
  import opened Common
  import opened Accrual
  import opened LoanHistory
  import opened Chips
  import opened ChipStore
  import opened LoanDesk

  /** What a replayed answer leaves behind: the loan refreshed, nothing else. */
  ghost predicate OnlyRefreshed(d: Desk, e: Desk, id: string, now: int) {
    id in d.loans && e == d.(loans := d.loans[id := Refreshed(d.loans[id], now)])
  }

  /** The chips of an acceptance: the principal, lender to borrower. */
  function Lent(b: Books, id: string, l: Loan, principal: int): Books {
    HandedOver(b, l.lender, l.borrower, principal, LoanPrincipalOut, LoanPrincipalIn,
      LoanPrincipalKey(id, l.currentRevision), None)
  }

  /** The chips of a repayment: the amount, borrower to lender. */
  function Returned(b: Books, id: string, l: Loan, amount: int, key: string): Books {
    HandedOver(b, l.borrower, l.lender, amount, LoanRepaymentOut, LoanRepaymentIn,
      LoanRepaymentKey(id, l.borrower, key), None)
  }

  /** An acceptance that went through: exactly the answered revision's terms. */
  ghost predicate Agrees(d: Desk, b: Books, e: Desk, c: Books, id: string, actor: Subject, revision: nat,
      key: string, now: int)
  {
    && id in d.loans && (id, revision) in d.revisions && revision == d.loans[id].currentRevision
    && var l, t := d.loans[id], d.revisions[(id, revision)].terms;
       && e == Agreed(d, id, l, actor, t, Balance(b, l.borrower), key, now)
       && c == Lent(b, id, l, t.principal)
  }

  /** Why a refreshed row refuses a repayment, wallets aside. */
  function RepaymentRefusal(row: Loan, amount: int): Option<Refusal> {
    if !Running(row.status) then Some(NotRunning)
    else if amount > row.remainingPrincipal + row.accruedInterest then Some(MoreThanDue)
    else if row.interestPaid + Min(amount, row.accruedInterest) > MAX_SQLITE_INTEGER then Some(InterestOverflow)
    else None
  }

  /** Both wallets can carry a repayment. */
  predicate CanPay(b: Books, row: Loan, amount: int) {
    amount <= Balance(b, row.borrower) && Balance(b, row.lender) <= MAX_SQLITE_INTEGER - amount
  }

  /** The row with one repayment taken off, interest first. */
  function Reduced(row: Loan, amount: int, now: int): Loan {
    var interest := Min(amount, row.accruedInterest);
    var principal := amount - interest;
    var settled := interest == row.accruedInterest && principal == row.remainingPrincipal;
    row.(status := if settled then Status.Repaid else row.status,
         remainingPrincipal := row.remainingPrincipal - principal, accruedInterest := row.accruedInterest - interest,
         interestPaid := row.interestPaid + interest, principalPaid := row.principalPaid + principal,
         repaidAt := if settled then Some(now) else row.repaidAt)
  }

  /** A repayment of a refreshed row: the row, the recorded split, the chips. */
  ghost predicate PaidOff(d: Desk, b: Books, e: Desk, c: Books, id: string, row: Loan, amount: int, key: string,
      now: int)
  {
    var interest := Min(amount, row.accruedInterest);
    && e == PaidBack(d, id, Reduced(row, amount, now), row.borrower, amount, interest, amount - interest, key)
    && c == Returned(b, id, row, amount, key)
  }

  /** A repayment that went through: the loan row, the recorded split, the chips. */
  ghost predicate Settles(d: Desk, b: Books, e: Desk, c: Books, id: string, actor: Subject, amount: int, key: string,
      now: int)
  {
    && id in d.loans && d.loans[id].borrower == actor && Payback(d, b, id, amount, now).Applied?
    && var l, out := d.loans[id], Payback(d, b, id, amount, now);
       && e == PaidBack(d, id, out.loan, actor, amount, out.interest, out.principal, key)
       && c == Returned(b, id, l, amount, key)
  }

  lemma FreeKey(d: Desk, rows: seq<Row>, s: Subject, key: LedgerKey)
    requires Stands(d, rows) && !Explained(d, key)
    ensures !Taken(rows, s, key)
  {
    UnexplainedIsFree(d, rows, s, key);
  }

  lemma Opposites(d: Desk, rows: seq<Row>, id: string)
    requires Stands(d, rows) && id in d.loans
    ensures d.loans[id].borrower != d.loans[id].lender
    ensures var k := (id, d.loans[id].currentRevision); k in d.revisions && TermsStorable(d.revisions[k].terms)
    ensures Running(d.loans[id].status) ==> LifeCycle(d.loans[id])
  {
    assert Consented(id, d.loans[id], d.revisions);
  }

  /** An acceptance moves exactly the agreed principal and creates no chips. */
  lemma AgreesConserves(d: Desk, b: Books, e: Desk, c: Books, id: string, actor: Subject, revision: nat, key: string,
      now: int)
    requires Stands(d, b.rows) && Replays(b)
    requires Agrees(d, b, e, c, id, actor, revision, key, now) && d.loans[id].status == Negotiating
    ensures Replays(c)
    ensures var l, t := d.loans[id], d.revisions[(id, revision)].terms;
      && Balance(c, l.lender) == Balance(b, l.lender) - t.principal
      && Balance(c, l.borrower) == Balance(b, l.borrower) + t.principal
      && (forall s :: s != l.lender && s != l.borrower ==> Balance(c, s) == Balance(b, s))
      && Beyond(c) == Beyond(b)
  {
    hide Stands, Replays;
    var l := d.loans[id];
    Opposites(d, b.rows, id);
    FreeKey(d, b.rows, l.lender, LoanPrincipalKey(id, revision));
    FreeKey(d, b.rows, l.borrower, LoanPrincipalKey(id, revision));
    MoveConserves(b, l.lender, l.borrower, d.revisions[(id, revision)].terms.principal,
                  LoanPrincipalOut, LoanPrincipalIn, LoanPrincipalKey(id, revision), None);
  }

  /** A repayment moves exactly the amount and creates no chips. */
  lemma SettlesConserves(d: Desk, b: Books, e: Desk, c: Books, id: string, actor: Subject, amount: int, key: string,
      now: int)
    requires Stands(d, b.rows) && Replays(b)
    requires Settles(d, b, e, c, id, actor, amount, key, now) && (actor, key) !in d.operations
    ensures Replays(c)
    ensures var l := d.loans[id];
      && Balance(c, l.borrower) == Balance(b, l.borrower) - amount
      && Balance(c, l.lender) == Balance(b, l.lender) + amount
      && (forall s :: s != l.lender && s != l.borrower ==> Balance(c, s) == Balance(b, s))
      && Beyond(c) == Beyond(b)
  {
    hide Stands, Replays, Payback;
    var l := d.loans[id];
    Opposites(d, b.rows, id);
    FreeKey(d, b.rows, l.lender, LoanRepaymentKey(id, actor, key));
    FreeKey(d, b.rows, l.borrower, LoanRepaymentKey(id, actor, key));
    MoveConserves(b, l.borrower, l.lender, amount, LoanRepaymentOut, LoanRepaymentIn, LoanRepaymentKey(id, actor,
      key), None);
  }

  /** One loan replaced by a row that still consents and opens nothing. */
  lemma ReplaceStands(d: Desk, e: Desk, rows: seq<Row>, id: string, actor: Subject, key: string)
    requires Stands(d, rows) && id in d.loans && e.revisions == d.revisions
    requires id in e.loans && e.loans == d.loans[id := e.loans[id]] && Consented(id, e.loans[id], d.revisions)
    requires (actor, key) in e.operations && e.operations == d.operations[(actor, key) := e.operations[(actor, key)]]
    requires e.operations[(actor, key)].loan == id
    requires e.loans[id].borrower == d.loans[id].borrower
    requires Open(e.loans[id].status) ==> Open(d.loans[id].status)
    requires Accepted(d.loans[id].status) ==> Accepted(e.loans[id].status)
    ensures Stands(e, rows)
  {
    hide Consented;
    ReplaceKeeps(d, e, id, actor, key);
    SameBorrowerFewerOpen(d.loans, e.loans);
    StillExplained(d, e, rows);
  }

  /** Acceptance starts the life cycle with the agreed terms, and starts it afresh. */
  lemma ActivatedIsFresh(id: string, l: Loan, revisions: map<(string, nat), Revision>, t: Terms, borrowerBefore: int,
      now: int)
    requires Consented(id, l, revisions) && l.status == Negotiating && t == revisions[(id, l.currentRevision)].terms
    ensures Fresh(Activated(l, t, borrowerBefore, now)) && Activated(l, t, borrowerBefore, now).lastAccrualAt == now
    ensures Consented(id, Activated(l, t, borrowerBefore, now), revisions)
  {
    var a := Activated(l, t, borrowerBefore, now);
    assert l.capReachedAt.None?;
    assert LifeCycle(a);
    assert HasRevisions(id, a, revisions);
  }

  /** An accepted loan stands. */
  lemma AcceptStands(d: Desk, b: Books, id: string, l: Loan, actor: Subject, t: Terms, borrowerBefore: int,
      key: string, now: int)
    requires Stands(d, b.rows) && id in d.loans && d.loans[id] == l && l.status == Negotiating
    requires (id, l.currentRevision) in d.revisions && t == d.revisions[(id, l.currentRevision)].terms
    ensures Stands(Agreed(d, id, l, actor, t, borrowerBefore, key, now), Lent(b, id, l, t.principal).rows)
  {
    hide LifeCycle;
    var e := Agreed(d, id, l, actor, t, borrowerBefore, key, now);
    assert Consented(id, l, d.revisions);
    ActivatedIsFresh(id, l, d.revisions, t, borrowerBefore, now);
    ReplaceStands(d, e, b.rows, id, actor, key);
    MovedExplained(e, b, l.lender, l.borrower, t.principal, LoanPrincipalOut, LoanPrincipalIn, LoanPrincipalKey(id,
      l.currentRevision));
  }

  lemma OneRefreshKeeps(d: Desk, id: string, now: int)
    requires AllConsented(d) && WithinLimit(d.loans) && id in d.loans && !OverLimit(d.loans[id], now)
    ensures var e := d.(loans := d.loans[id := Refreshed(d.loans[id], now)]);
      && AllConsented(e) && WithinLimit(e.loans)
      && (forall o :: o in d.loans ==> Accepted(e.loans[o].status) == Accepted(d.loans[o].status))
  {
    hide LifeCycle, Consented, Refreshed;
    RefreshConsents(id, d.loans[id], d.revisions, now);
    SameBorrowerFewerOpen(d.loans, d.loans[id := Refreshed(d.loans[id], now)]);
  }

  lemma RefreshStands(d: Desk, rows: seq<Row>, id: string, now: int)
    requires Stands(d, rows) && id in d.loans
    ensures Accepted(d.loans[id].status) ==> LifeCycle(d.loans[id])
    ensures !OverLimit(d.loans[id], now) ==> Stands(d.(loans := d.loans[id := Refreshed(d.loans[id], now)]), rows)
  {
    hide LifeCycle;
    assert Consented(id, d.loans[id], d.revisions);
    if !OverLimit(d.loans[id], now) {
      OneRefreshKeeps(d, id, now);
      StillExplained(d, d.(loans := d.loans[id := Refreshed(d.loans[id], now)]), rows);
    }
  }

  lemma RefreshedForConsents(d: Desk, id: string, borrower: Subject, now: int)
    requires AllConsented(d) && id in d.loans
    requires id in OpenLoans(d.loans, borrower) ==> !OverLimit(d.loans[id], now)
    ensures var l := RefreshedFor(d.loans, borrower, now)[id];
      && Consented(id, l, d.revisions) && l.borrower == d.loans[id].borrower
      && (Open(l.status) ==> Open(d.loans[id].status)) && Accepted(l.status) == Accepted(d.loans[id].status)
  {
    assert Consented(id, d.loans[id], d.revisions);
    if id in OpenLoans(d.loans, borrower) {
      RefreshConsents(id, d.loans[id], d.revisions, now);
    }
  }

  lemma BorrowerRefreshKeeps(d: Desk, borrower: Subject, now: int)
    requires AllConsented(d) && WithinLimit(d.loans)
    requires forall id :: id in OpenLoans(d.loans, borrower) ==> !OverLimit(d.loans[id], now)
    ensures var e := d.(loans := RefreshedFor(d.loans, borrower, now));
      && AllConsented(e) && WithinLimit(e.loans)
      && (forall o :: o in d.loans ==> Accepted(e.loans[o].status) == Accepted(d.loans[o].status))
  {
    hide Consented;
    forall id | id in d.loans
      ensures var l := RefreshedFor(d.loans, borrower, now)[id];
        && Consented(id, l, d.revisions) && l.borrower == d.loans[id].borrower
        && (Open(l.status) ==> Open(d.loans[id].status)) && Accepted(l.status) == Accepted(d.loans[id].status)
    {
      RefreshedForConsents(d, id, borrower, now);
    }
    SameBorrowerFewerOpen(d.loans, RefreshedFor(d.loans, borrower, now));
  }

  lemma BorrowerRefreshStands(d: Desk, rows: seq<Row>, borrower: Subject, now: int)
    requires Stands(d, rows)
    ensures forall id :: id in d.loans && Accepted(d.loans[id].status) ==> LifeCycle(d.loans[id])
    ensures (forall id :: id in OpenLoans(d.loans, borrower) ==> !OverLimit(d.loans[id], now)) ==>
      Stands(d.(loans := RefreshedFor(d.loans, borrower, now)), rows)
  {
    hide LifeCycle;
    forall id | id in d.loans && Accepted(d.loans[id].status) ensures LifeCycle(d.loans[id]) {
      assert Consented(id, d.loans[id], d.revisions);
    }
    if forall id :: id in OpenLoans(d.loans, borrower) ==> !OverLimit(d.loans[id], now) {
      BorrowerRefreshKeeps(d, borrower, now);
      StillExplained(d, d.(loans := RefreshedFor(d.loans, borrower, now)), rows);
    }
  }

  lemma ClosedConsents(id: string, l: Loan, revisions: map<(string, nat), Revision>, action: Action)
    requires Consented(id, l, revisions) && l.status == Negotiating
    ensures Consented(id, l.(status := if action == Reject then Rejected else Withdrawn, awaiting := None), revisions)
  {
    assert HasRevisions(id, l.(status := if action == Reject then Rejected else Withdrawn, awaiting := None),
      revisions);
  }

  lemma CloseStands(d: Desk, rows: seq<Row>, id: string, actor: Subject, action: Action, key: string)
    requires Stands(d, rows) && id in d.loans && d.loans[id].status == Negotiating
    ensures Stands(Closed(d, id, d.loans[id], actor, action, key), rows)
  {
    assert Consented(id, d.loans[id], d.revisions);
    ClosedConsents(id, d.loans[id], d.revisions, action);
    ReplaceStands(d, Closed(d, id, d.loans[id], actor, action, key), rows, id, actor, key);
  }

  /** A running loan after a repayment is still what was agreed. */
  lemma ReducedConsents(id: string, row: Loan, revisions: map<(string, nat), Revision>, amount: int, now: int)
    requires Consented(id, row, revisions) && Running(row.status) && 0 < amount <= TotalDue(row)
    ensures Consented(id, Reduced(row, amount, now), revisions)
  {
    assert LifeCycle(Reduced(row, amount, now));
    assert HasRevisions(id, Reduced(row, amount, now), revisions);
  }

  /** The refreshed row decides a repayment, and loses exactly the split. */
  lemma PaybackIsReduction(d: Desk, b: Books, id: string, amount: int, now: int)
    requires id in d.loans && !OverLimit(d.loans[id], now) && amount > 0
    requires var row := Refreshed(d.loans[id], now); Running(row.status) ==> LifeCycle(row)
    ensures var row := Refreshed(d.loans[id], now); var out := Payback(d, b, id, amount, now);
      var interest := Min(amount, row.accruedInterest);
      && (out.Applied? <==> RepaymentRefusal(row, amount).None? && CanPay(b, row, amount))
      && (out.Applied? ==> out == Applied(Reduced(row, amount, now), interest, amount - interest))
  {
  }

  lemma PaybackStands(d: Desk, b: Books, e: Desk, c: Books, id: string, row: Loan, amount: int, key: string, now: int)
    requires Stands(d, b.rows) && id in d.loans && row == d.loans[id] && Running(row.status)
    requires 0 < amount <= TotalDue(row) && PaidOff(d, b, e, c, id, row, amount, key, now)
    ensures Stands(e, c.rows)
  {
    hide HandedOver;
    assert Consented(id, row, d.revisions);
    ReducedConsents(id, row, d.revisions, amount, now);
    ReplaceStands(d, e, b.rows, id, row.borrower, key);
    MovedExplained(e, b, row.borrower, row.lender, amount, LoanRepaymentOut, LoanRepaymentIn, LoanRepaymentKey(id,
      row.borrower, key));
  }

  /** A repayment at any instant: the refresh it begins with, then the split. */
  lemma SettleStands(d: Desk, b: Books, e: Desk, c: Books, id: string, actor: Subject, amount: int, key: string,
      now: int)
    requires Stands(d, b.rows) && amount > 0 && Settles(d, b, e, c, id, actor, amount, key, now)
    ensures Stands(e, c.rows)
  {
    hide Stands, LifeCycle, HandedOver, Reduced;
    var row := Refreshed(d.loans[id], now);
    var f := d.(loans := d.loans[id := row]);
    RefreshStands(d, b.rows, id, now);
    Opposites(f, b.rows, id);
    PaybackIsReduction(d, b, id, amount, now);
    assert e.loans == f.loans[id := Reduced(row, amount, now)];
    PaybackStands(f, b, e, c, id, row, amount, key, now);
  }

  /** A new proposal of a borrower whose loans were brought up to date. */
  lemma CreateStands(d: Desk, rows: seq<Row>, borrower: Subject, lender: Subject, t: Terms, key: string,
      newId: string, now: int)
    requires Stands(d, rows) && TermsStorable(t) && Admits(d.loans, borrower, now) && newId !in d.loans
    requires borrower.Human? != lender.Human?
    ensures Stands(Created(d.(loans := RefreshedFor(d.loans, borrower, now)), newId, borrower, lender, t, key, now),
      rows)
  {
    hide AllConsented, WithinLimit, KeysExplained, LifeCycle, Refreshed;
    var f := d.(loans := RefreshedFor(d.loans, borrower, now));
    BorrowerRefreshStands(d, rows, borrower, now);
    CreateKeeps(f, newId, borrower, lender, t, key, now);
    LimitAfterCreate(f.loans, newId, NewLoan(borrower, lender, now));
    StillExplained(f, Created(f, newId, borrower, lender, t, key, now), rows);
  }

  lemma CounterStands(d: Desk, rows: seq<Row>, id: string, l: Loan, actor: Subject, t: Terms, key: string, now: int)
    requires Stands(d, rows) && id in d.loans && l == d.loans[id]
    requires l.status == Negotiating && l.awaiting == Some(actor) && TermsStorable(t)
    ensures Stands(Countered(d, id, l, actor, t, key, now), rows)
  {
    hide Consented;
    var e := Countered(d, id, l, actor, t, key, now);
    CounterKeeps(d, id, l, actor, t, key, now);
    SameBorrowerFewerOpen(d.loans, e.loans);
    StillExplained(d, e, rows);
  }

  /** The carry arithmetic of one segment equals one division of the exact interest. */
  lemma SegmentIsExact(l: Loan, now: int, charged: int, remainder: int, capReachedNow: bool)
    requires LifeCycle(l) && Elapsed(l, now) > 0
    requires var numerator := Growth(l, Elapsed(l, now)) + l.interestRemainder;
      var c := numerator / DENOMINATOR;
      var available := l.originalPrincipal - (l.interestPaid + l.accruedInterest);
      if l.capEnabled && c >= available then
        charged == available && remainder == 0 && capReachedNow == l.capReachedAt.None?
      else charged == c && remainder == numerator % DENOMINATOR && !capReachedNow
    ensures var r := Accrued(l, now);
      && r.accruedInterest == l.accruedInterest + charged
      && r.interestRemainder == remainder
      && r.capReachedAt == (if capReachedNow then Some(now) else l.capReachedAt)
  {
    var numerator := Growth(l, Elapsed(l, now)) + l.interestRemainder;
    var life := l.interestPaid + l.accruedInterest;
    DivideShifted(life, numerator);
    DivideShifted(l.originalPrincipal, 0);
    if l.capEnabled {
      var available := l.originalPrincipal - life;
      if numerator / DENOMINATOR >= available {
        assert numerator >= available * DENOMINATOR;
        assert life * DENOMINATOR + numerator >= l.originalPrincipal * DENOMINATOR;
      } else {
        assert numerator < available * DENOMINATOR;
      }
    }
  }
}

/** The loan operations, one write transaction each (app/loans.py). */
module LoanBook {
  import opened Common
  import opened Accrual
  import opened LoanHistory
  import opened Chips
  import opened ChipStore
  import opened LoanDesk
  import opened LoanSteps

  datatype LoanError =
    | InvalidTerms | InvalidDueDate | InvalidAmount | KeyReused | NoSuchLoan | NotParty | NotBound
    | StaleRevision | NotNegotiating | NotYourTurn | UnchangedTerms | NotInitiator | NotBorrower
    | OverdueDebt | TooManyLoans | LenderTooPoor | BorrowerOverflow
    | Declined(why: Refusal)

  datatype Reply = Done | Replayed | Failed(error: LoanError)

  class Book {
    const store: Store
    var loans: map<string, Loan>
    var revisions: map<(string, nat), Revision>
    var operations: map<(Subject, string), Operation>

    ghost function Tables(): Desk reads this {
      Desk(loans, revisions, operations)
    }

    ghost predicate Valid() reads this, store {
      && store.Valid()
      && Stands(Tables(), store.rows)
    }

    constructor (store: Store)
      requires store.Valid() && store.rows == []
      ensures Valid() && this.store == store && Tables() == Desk(map[], map[], map[])
    {
      this.store := store;
      loans, revisions, operations := map[], map[], map[];
      new;
      forall b: Subject ensures |OpenLoans(loans, b)| <= MAX_OPEN_LOANS {
        assert OpenLoans(loans, b) == {};
      }
    }

    /** One segment: whole chips charged, the rest carried, the cap cutting both. */
    method AccrueInterest(id: string, now: int, next: Status) returns (ok: bool)
      requires id in loans && LifeCycle(loans[id])
      modifies this`loans
      ensures var due := Accrued(old(loans)[id], now);
        ok <==> due.accruedInterest <= MAX_SQLITE_INTEGER
      ensures loans == if ok then old(loans)[id := Accrued(old(loans)[id], now).(status := next)] else old(loans)
    {
      var row := loans[id];
      var elapsed := Max(0, now - row.lastAccrualAt);
      if elapsed == 0 {
        if next != row.status {
          loans := loans[id := row.(status := next)];
        }
        return true;
      }
      var numerator := (row.remainingPrincipal * row.dailyRate) * elapsed + row.interestRemainder;
      var charged, remainder := numerator / DENOMINATOR, numerator % DENOMINATOR;
      var lifetimeBefore := row.interestPaid + row.accruedInterest;
      var capReachedNow := false;
      if row.capEnabled {
        var available := Max(0, row.originalPrincipal - lifetimeBefore);
        if charged >= available && (charged > 0 || available == 0) {
          charged, remainder := available, 0;
          capReachedNow := row.capReachedAt.None?;
        }
      }
      SegmentIsExact(row, now, charged, remainder, capReachedNow);
      if row.accruedInterest + charged > MAX_SQLITE_INTEGER {
        return false;
      }
      loans := loans[id := row.(status := next, accruedInterest := row.accruedInterest + charged,
                                interestRemainder := remainder, lastAccrualAt := now,
                                capReachedAt := if capReachedNow then Some(now) else row.capReachedAt)];
      ok := true;
    }

    /** Expire a stale proposal, or bring a running loan up to date. */
    method RefreshOne(id: string, now: int) returns (ok: bool)
      requires id in loans && (Accepted(loans[id].status) ==> LifeCycle(loans[id]))
      modifies this`loans
      ensures ok <==> !OverLimit(old(loans)[id], now)
      ensures loans == if ok then old(loans)[id := Refreshed(old(loans)[id], now)] else old(loans)
    {
      var row := loans[id];
      if row.status == Negotiating && row.proposalExpiresAt <= now {
        loans := loans[id := row.(status := Expired, awaiting := None)];
        return true;
      }
      if !Running(row.status) {
        return true;
      }
      var becameOverdue := row.status == Active && ShanghaiDay(now) > row.dueDate;
      ok := AccrueInterest(id, now, if becameOverdue then Overdue else row.status);
    }

    /** Refresh every open loan of a borrower; the caller rolls back on failure. */
    method RefreshBorrowerLoans(borrower: Subject, now: int) returns (ok: bool)
      requires forall id :: id in loans && Accepted(loans[id].status) ==> LifeCycle(loans[id])
      modifies this`loans
      ensures ok ==> loans == RefreshedFor(old(loans), borrower, now)
      ensures ok <==> forall id :: id in OpenLoans(old(loans), borrower) ==> !OverLimit(old(loans)[id], now)
    {
      var todo := OpenLoans(loans, borrower);
      while todo != {}
        invariant todo <= OpenLoans(old(loans), borrower) && loans.Keys == old(loans).Keys
        invariant forall id :: id in loans ==>
          (loans[id] ==
            if id in OpenLoans(old(loans), borrower) && id !in todo then Refreshed(old(loans)[id], now)
            else old(loans)[id])
        invariant forall id :: id in OpenLoans(old(loans), borrower) && id !in todo ==> !OverLimit(old(loans)[id], now)
        decreases todo
      {
        var id :| id in todo;
        ok := RefreshOne(id, now);
        if !ok {
          return;
        }
        todo := todo - {id};
      }
      ok := true;
    }

    /** Bring the borrower's loans up to date and see whether one more is allowed. */
    method AdmitBorrower(borrower: Subject, now: int) returns (refused: Option<LoanError>)
      requires Valid()
      modifies this`loans
      ensures Valid()
      ensures refused.Some? ==> loans == old(loans)
      ensures refused.None? <==> Admits(old(loans), borrower, now)
      ensures refused.None? ==> loans == RefreshedFor(old(loans), borrower, now)
    {
      hide Stands, Replays, LifeCycle;
      var saved := loans;
      BorrowerRefreshStands(Tables(), store.rows, borrower, now);
      var ok := RefreshBorrowerLoans(borrower, now);
      if !ok {
        loans := saved;
        return Some(Declined(AccrualOverflow));
      }
      var overdue := exists id :: id in loans && loans[id].borrower == borrower && loans[id].status == Overdue;
      var count := |OpenLoans(loans, borrower)|;
      if overdue || count >= MAX_OPEN_LOANS {
        loans := saved;
        return Some(if overdue then OverdueDebt else TooManyLoans);
      }
      refused := None;
    }

    method InsertProposal(newId: string, borrower: Subject, lender: Subject, terms: Terms, key: string, now: int)
      requires newId !in loans
      requires store.Valid() && KeysExplained(Tables(), store.rows)
      requires AllConsented(Created(Tables(), newId, borrower, lender, terms, key, now))
      requires WithinLimit(loans[newId := NewLoan(borrower, lender, now)])
      modifies this
      ensures Valid() && Tables() == Created(old(Tables()), newId, borrower, lender, terms, key, now)
    {
      hide Replays;
      ghost var d := Tables();
      loans := loans[newId := NewLoan(borrower, lender, now)];
      revisions := revisions[(newId, 1) := Revision(borrower, lender, terms)];
      operations := operations[(borrower, key) := Operation(Create, newId, Some(1), 0, 0, 0)];
      StillExplained(d, Tables(), store.rows);
    }

    /** The reply to a repeated key: at most a refresh. */
    method Replay(id: string, now: int) returns (r: Reply)
      requires Valid() && id in loans
      modifies this
      ensures Valid()
      ensures r == if OverLimit(old(loans)[id], now) then Failed(Declined(AccrualOverflow)) else Replayed
      ensures r.Failed? ==> Tables() == old(Tables())
      ensures r == Replayed ==> Tables() == old(Tables()).(loans := old(loans)[id := Refreshed(old(loans)[id], now)])
    {
      hide Stands, Replays, LifeCycle;
      RefreshStands(Tables(), store.rows, id, now);
      var ok := RefreshOne(id, now);
      r := if ok then Replayed else Failed(Declined(AccrualOverflow));
    }

    /** A borrower proposes revision 1; `newId` is the newly drawn loan id. */
    method CreateLoan(borrower: Subject, lenderId: string, terms: Terms, key: string, pairIsBound: bool,
        newId: string, now: int)
      returns (r: Reply)
      requires Valid() && newId !in loans
      modifies this
      ensures Valid()
      ensures r.Failed? ==> Tables() == old(Tables())
      ensures r == Done <==> MayCreate(old(Tables()), borrower, terms, key, pairIsBound, now)
      ensures r == Done ==> (
        Tables() == Created(old(Tables()).(loans := RefreshedFor(old(loans), borrower, now)), newId, borrower,
                            if borrower.Human? then Ai(lenderId) else Human(lenderId), terms, key, now))
      ensures (borrower, key) in old(operations) && old(operations)[(borrower, key)].action != Create ==> r.Failed?
      ensures r == Replayed <==>
        && pairIsBound && TermsStorable(terms) && DueDateAllowed(terms.dueDate, now)
        && (borrower, key) in old(operations)
        && Answerable(old(Tables()), old(operations)[(borrower, key)].loan, borrower, key, Create, now)
      ensures r == Replayed ==> OnlyRefreshed(old(Tables()), Tables(), old(operations)[(borrower, key)].loan, now)
    {
      hide Replays;
      var lender := if borrower.Human? then Ai(lenderId) else Human(lenderId);
      if !pairIsBound {
        return Failed(NotBound);
      }
      if !TermsStorable(terms) {
        return Failed(InvalidTerms);
      }
      if !DueDateAllowed(terms.dueDate, now) {
        return Failed(InvalidDueDate);
      }
      if (borrower, key) in operations {
        var op := operations[(borrower, key)];
        if op.action != Create {
          return Failed(KeyReused);
        }
        r := Replay(op.loan, now);
        return;
      }
      var refused := AdmitBorrower(borrower, now);
      if refused.Some? {
        return Failed(refused.value);
      }
      CreateKeeps(Tables(), newId, borrower, lender, terms, key, now);
      LimitAfterCreate(loans, newId, NewLoan(borrower, lender, now));
      InsertProposal(newId, borrower, lender, terms, key, now);
      r := Done;
    }

    method RecordCounter(id: string, l: Loan, actor: Subject, terms: Terms, key: string, now: int)
      requires store.Valid()
      requires Stands(Countered(Tables(), id, l, actor, terms, key, now), store.rows)
      modifies this
      ensures Valid() && Tables() == Countered(old(Tables()), id, l, actor, terms, key, now)
    {
      hide Stands, Replays;
      var other := Other(l, actor);
      var next := l.currentRevision + 1;
      revisions := revisions[(id, next) := Revision(actor, other, terms)];
      loans := loans[id := l.(currentRevision := next, awaiting := Some(other), counterCount := l.counterCount + 1,
                              proposalExpiresAt := now + PROPOSAL_LIFETIME)];
      operations := operations[(actor, key) := Operation(Counter, id, Some(next), 0, 0, 0)];
    }

    /** Why an answer to a proposal is refused, if it is; the loan as it stands. */
    method CannotAnswer(id: string, actor: Subject, revision: nat, boundTo: Option<string>, now: int)
      returns (why: Option<LoanError>)
      requires Valid()
      ensures why.None? <==> id in loans && var l := Refreshed(loans[id], now);
        && Party(l, actor) && Bound(l, boundTo) && revision == l.currentRevision
        && l.status == Negotiating && l.awaiting == Some(actor)
      ensures why.None? ==> Refreshed(loans[id], now) == loans[id] && (id, revision) in revisions
    {
      if id !in loans {
        return Some(NoSuchLoan);
      }
      assert Consented(id, loans[id], revisions);
      if OverLimit(loans[id], now) {
        return Some(Declined(AccrualOverflow));
      }
      var l := Refreshed(loans[id], now);
      if !Party(l, actor) {
        return Some(NotParty);
      }
      if !Bound(l, boundTo) {
        return Some(NotBound);
      }
      if revision != l.currentRevision {
        return Some(StaleRevision);
      }
      if l.status != Negotiating {
        return Some(NotNegotiating);
      }
      if l.awaiting != Some(actor) {
        return Some(NotYourTurn);
      }
      why := None;
    }

    /** A key this actor used before: the same request is replayed, another refused. */
    method Existing(id: string, actor: Subject, key: string, action: Action, now: int) returns (r: Reply)
      requires Valid() && (actor, key) in operations
      modifies this
      ensures Valid() && r != Done
      ensures var op := old(operations)[(actor, key)]; r == Failed(KeyReused) <==> op.action != action || op.loan != id
      ensures r.Failed? ==> Tables() == old(Tables())
      ensures r == Replayed <==> Answerable(old(Tables()), id, actor, key, action, now)
      ensures r == Replayed ==> OnlyRefreshed(old(Tables()), Tables(), id, now)
    {
      var op := operations[(actor, key)];
      if op.action != action || op.loan != id {
        return Failed(KeyReused);
      }
      r := Replay(id, now);
    }

    /** The awaited party answers with changed terms, as the next revision. */
    method CounterLoan(id: string, actor: Subject, revision: nat, terms: Terms, key: string, boundTo: Option<string>,
        now: int)
      returns (r: Reply)
      requires Valid()
      modifies this
      ensures Valid()
      ensures r == Done <==> MayCounter(old(Tables()), id, actor, revision, terms, key, boundTo, now)
      ensures r == Done ==> Tables() == Countered(old(Tables()), id, old(loans)[id], actor, terms, key, now)
      ensures r.Failed? ==> Tables() == old(Tables())
      ensures r == Replayed <==>
        TermsStorable(terms) && DueDateAllowed(terms.dueDate, now)
          && Answerable(old(Tables()), id, actor, key, Counter, now)
      ensures r == Replayed ==> OnlyRefreshed(old(Tables()), Tables(), id, now)
    {
      hide Stands, Replays;
      if !TermsStorable(terms) {
        return Failed(InvalidTerms);
      }
      if !DueDateAllowed(terms.dueDate, now) {
        return Failed(InvalidDueDate);
      }
      if (actor, key) in operations {
        r := Existing(id, actor, key, Counter, now);
        return;
      }
      var blocked := CannotAnswer(id, actor, revision, boundTo, now);
      if blocked.Some? {
        return Failed(blocked.value);
      }
      var l := loans[id];
      if terms == revisions[(id, revision)].terms {
        return Failed(UnchangedTerms);
      }
      CounterStands(Tables(), store.rows, id, l, actor, terms, key, now);
      RecordCounter(id, l, actor, terms, key, now);
      r := Done;
    }

    method RecordAcceptance(id: string, l: Loan, actor: Subject, terms: Terms, borrowerBefore: int, key: string,
        now: int)
      requires store.Valid() && Stands(Agreed(Tables(), id, l, actor, terms, borrowerBefore, key, now), store.rows)
      modifies this
      ensures Valid() && Tables() == Agreed(old(Tables()), id, l, actor, terms, borrowerBefore, key, now)
    {
      hide Stands, Replays;
      loans := loans[id := l.(status := Active, acceptedRevision := Some(l.currentRevision), awaiting := None,
                              originalPrincipal := terms.principal, remainingPrincipal := terms.principal,
                              dailyRate := terms.dailyRate, capEnabled := terms.capEnabled, dueDate := terms.dueDate,
                              accruedInterest := 0, interestRemainder := 0, interestPaid := 0, principalPaid := 0,
                              borrowerBalanceAtAccept := borrowerBefore, lastAccrualAt := now)];
      operations := operations[(actor, key) := Operation(Accept, id, Some(l.currentRevision), 0, 0, 0)];
    }

    method SettleAcceptance(id: string, l: Loan, actor: Subject, terms: Terms, key: string, now: int) returns (r: Reply)
      requires Valid() && id in loans && loans[id] == l && l.status == Negotiating
      requires (id, l.currentRevision) in revisions && terms == revisions[(id, l.currentRevision)].terms
      modifies this, store
      ensures Valid()
      ensures var b := old(store.Tables());
        r == Done <==> 0 < Balance(b, l.lender) && terms.principal <= Balance(b, l.lender)
                       && Balance(b, l.borrower) + terms.principal <= MAX_SQLITE_INTEGER
      ensures r == Done ==>
        Agrees(old(Tables()), old(store.Tables()), Tables(), store.Tables(), id, actor, l.currentRevision, key, now)
      ensures r != Done ==> r.Failed? && store.Tables() == old(store.Tables()) && Tables() == old(Tables())
    {
      hide Stands, Replays;
      ghost var b := store.Tables();
      Opposites(Tables(), b.rows, id);
      var ledgerKey := LoanPrincipalKey(id, l.currentRevision);
      FreeKey(Tables(), b.rows, l.lender, ledgerKey);
      FreeKey(Tables(), b.rows, l.borrower, ledgerKey);
      var moved, borrowerBefore :=
        store.MoveChips(l.lender, l.borrower, terms.principal, Some(MAX_SQLITE_INTEGER - terms.principal),
                                                   LoanPrincipalOut, LoanPrincipalIn, ledgerKey, None);
      match moved {
        case PayerShort => r := Failed(LenderTooPoor);
        case PayeeFull => r := Failed(BorrowerOverflow);
        case Moved =>
          AcceptStands(Tables(), b, id, l, actor, terms, borrowerBefore, key, now);
          RecordAcceptance(id, l, actor, terms, borrowerBefore, key, now);
          r := Done;
      }
    }

    /** The awaited party accepts the current revision and the principal moves. */
    method AcceptLoan(id: string, actor: Subject, revision: nat, key: string, boundTo: Option<string>, now: int)
      returns (r: Reply)
      requires Valid()
      modifies this, store
      ensures Valid()
      ensures r == Done <==> MayAccept(old(Tables()), old(store.Tables()), id, actor, revision, key, boundTo, now)
      ensures r == Done ==>
        Agrees(old(Tables()), old(store.Tables()), Tables(), store.Tables(), id, actor, revision, key, now)
      ensures r != Done ==> store.Tables() == old(store.Tables())
      ensures r.Failed? ==> Tables() == old(Tables())
      ensures r == Replayed <==> Answerable(old(Tables()), id, actor, key, Accept, now)
      ensures r == Replayed ==> OnlyRefreshed(old(Tables()), Tables(), id, now)
    {
      hide Stands, Replays;
      if (actor, key) in operations {
        r := Existing(id, actor, key, Accept, now);
        return;
      }
      var blocked := CannotAnswer(id, actor, revision, boundTo, now);
      if blocked.Some? {
        return Failed(blocked.value);
      }
      var l, terms := loans[id], revisions[(id, revision)].terms;
      assert MayAnswer(Tables(), id, actor, revision, key, boundTo, now);
      if !DueDateAllowed(terms.dueDate, now) {
        return Failed(InvalidDueDate);
      }
      r := SettleAcceptance(id, l, actor, terms, key, now);
    }

    method RecordClose(id: string, l: Loan, status: Status, actor: Subject, action: Action, key: string)
      requires store.Valid() && Stands(Closed(Tables(), id, l, actor, action, key), store.rows)
      requires status == if action == Reject then Rejected else Withdrawn
      modifies this
      ensures Valid() && Tables() == Closed(old(Tables()), id, l, actor, action, key)
    {
      hide Stands, Replays;
      loans := loans[id := l.(status := status, awaiting := None)];
      operations := operations[(actor, key) := Operation(action, id, Some(l.currentRevision), 0, 0, 0)];
    }

    /** The awaited party rejects, or the borrower withdraws, the current revision. */
    method CloseProposal(id: string, actor: Subject, action: Action, revision: nat, key: string, now: int)
      returns (r: Reply)
      requires Valid() && action in {Reject, Withdraw}
      modifies this
      ensures Valid()
      ensures r == Done <==> MayClose(old(Tables()), id, actor, action, revision, key, now)
      ensures r == Done ==> Tables() == Closed(old(Tables()), id, old(loans)[id], actor, action, key)
      ensures r != Done ==> Tables() == old(Tables())
      ensures r == Replayed <==> Repeats(old(Tables()), id, actor, key, action)
      ensures (actor, key) in old(operations) ==>
        var op := old(operations)[(actor, key)];
        r == if op.action == action && op.loan == id then Replayed else Failed(KeyReused)
    {
      hide Stands, Replays;
      if (actor, key) in operations {
        var op := operations[(actor, key)];
        return if op.action == action && op.loan == id then Replayed else Failed(KeyReused);
      }
      if id !in loans {
        return Failed(NoSuchLoan);
      }
      var l := Refreshed(loans[id], now);
      if !Party(l, actor) {
        return Failed(NotParty);
      }
      if revision != l.currentRevision {
        return Failed(StaleRevision);
      }
      if l.status != Negotiating {
        return Failed(NotNegotiating);
      }
      var status;
      if action == Reject {
        if l.awaiting != Some(actor) {
          return Failed(NotYourTurn);
        }
        status := Rejected;
      } else {
        if l.borrower != actor {
          return Failed(NotInitiator);
        }
        status := Withdrawn;
      }
      CloseStands(Tables(), store.rows, id, actor, action, key);
      RecordClose(id, l, status, actor, action, key);
      r := Done;
    }

    method RecordRepayment(id: string, row: Loan, amount: int, key: string, now: int, ghost b: Books)
      requires id in loans && loans[id] == row && Running(row.status) && 0 < amount <= TotalDue(row)
      requires store.Valid() && Stands(Tables(), b.rows) && store.Tables() == Returned(b, id, row, amount, key)
      modifies this
      ensures Valid() && PaidOff(old(Tables()), b, Tables(), store.Tables(), id, row, amount, key, now)
    {
      hide Stands, Replays, Returned;
      ghost var d := Tables();
      var interest := Min(amount, row.accruedInterest);
      var principal := amount - interest;
      var remainingInterest := row.accruedInterest - interest;
      var remainingPrincipal := row.remainingPrincipal - principal;
      var fullyRepaid := remainingInterest == 0 && remainingPrincipal == 0;
      loans := loans[id := row.(status := if fullyRepaid then Status.Repaid else row.status,
                                remainingPrincipal := remainingPrincipal, accruedInterest := remainingInterest,
                                interestPaid := row.interestPaid + interest,
                                principalPaid := row.principalPaid + principal,
                                repaidAt := if fullyRepaid then Some(now) else row.repaidAt)];
      operations := operations[(row.borrower, key) :=
        Operation(Action.RepayLoan, id, row.acceptedRevision, amount, interest, principal)];
      PaybackStands(d, b, Tables(), store.Tables(), id, row, amount, key, now);
    }

    /** On a refreshed loan: check, split, move the chips, write the row. */
    method SettleRepayment(id: string, row: Loan, amount: int, key: string, now: int) returns (r: Reply)
      requires Valid() && id in loans && loans[id] == row && row.borrower != row.lender && amount > 0
      requires (row.borrower, key) !in operations
      modifies this, store
      ensures Valid()
      ensures r == Done <==> RepaymentRefusal(row, amount).None? && CanPay(old(store.Tables()), row, amount)
      ensures r == Done ==>
        PaidOff(old(Tables()), old(store.Tables()), Tables(), store.Tables(), id, row, amount, key, now)
      ensures r != Done ==> r.Failed? && store.Tables() == old(store.Tables()) && Tables() == old(Tables())
    {
      hide Stands, Replays, Reduced, PaidOff;
      var refused := RepaymentRefusal(row, amount);
      if refused.Some? {
        return Failed(Declined(refused.value));
      }
      ghost var b := store.Tables();
      var ledgerKey := LoanRepaymentKey(id, row.borrower, key);
      FreeKey(Tables(), b.rows, row.borrower, ledgerKey);
      FreeKey(Tables(), b.rows, row.lender, ledgerKey);
      var moved, lenderBefore := store.MoveChips(row.borrower, row.lender, amount, Some(MAX_SQLITE_INTEGER - amount),
                                                 LoanRepaymentOut, LoanRepaymentIn, ledgerKey, None);
      match moved {
        case PayerShort => r := Failed(Declined(WalletTooSmall));
        case PayeeFull => r := Failed(Declined(LenderOverflow));
        case Moved =>
          RecordRepayment(id, row, amount, key, now, b);
          r := Done;
      }
    }

    /** Refresh, then settle; a refusal rolls the refresh back. */
    method RepayNow(id: string, actor: Subject, amount: int, key: string, now: int) returns (r: Reply)
      requires Valid() && id in loans && loans[id].borrower == actor && amount > 0 && (actor, key) !in operations
      modifies this, store
      ensures Valid()
      ensures r == Done <==> Payback(old(Tables()), old(store.Tables()), id, amount, now).Applied?
      ensures r == Done ==>
        Settles(old(Tables()), old(store.Tables()), Tables(), store.Tables(), id, actor, amount, key, now)
      ensures r != Done ==> r.Failed? && store.Tables() == old(store.Tables()) && Tables() == old(Tables())
    {
      hide Stands, Replays, LifeCycle, RepaymentRefusal, Reduced, HandedOver;
      ghost var d, b := Tables(), store.Tables();
      var saved := loans;
      r := Replay(id, now);
      if r.Failed? {
        return;
      }
      Opposites(Tables(), store.rows, id);
      PaybackIsReduction(d, b, id, amount, now);
      r := SettleRepayment(id, loans[id], amount, key, now);
      if r.Failed? {
        loans := saved;
        assert Tables() == d;
        return;
      }
      assert Tables().loans == d.loans[id := Payback(d, b, id, amount, now).loan];
    }

    /** The borrower pays back: interest first, then principal. */
    method RepayLoan(id: string, actor: Subject, amount: int, key: string, now: int) returns (r: Reply)
      requires Valid()
      modifies this, store
      ensures Valid()
      ensures r == Done <==> MayRepay(old(Tables()), old(store.Tables()), id, actor, amount, key, now)
      ensures r == Done ==>
        Settles(old(Tables()), old(store.Tables()), Tables(), store.Tables(), id, actor, amount, key, now)
      ensures r != Done ==> store.Tables() == old(store.Tables())
      ensures r.Failed? ==> Tables() == old(Tables())
      ensures r == Replayed <==>
        0 < amount <= MAX_SQLITE_INTEGER && Answerable(old(Tables()), id, actor, key, Action.RepayLoan, now)
      ensures r == Replayed ==> OnlyRefreshed(old(Tables()), Tables(), id, now)
    {
      hide Stands, Replays;
      if amount <= 0 || amount > MAX_SQLITE_INTEGER {
        return Failed(InvalidAmount);
      }
      if (actor, key) in operations {
        r := Existing(id, actor, key, Action.RepayLoan, now);
        return;
      }
      if id !in loans {
        return Failed(NoSuchLoan);
      }
      if loans[id].borrower != actor {
        return Failed(NotBorrower);
      }
      r := RepayNow(id, actor, amount, key, now);
    }

    /** get_loan and list_loans: a refresh and nothing else. */
    method Look(id: string, actor: Subject, now: int) returns (r: Reply)
      requires Valid()
      modifies this
      ensures Valid()
      ensures r == Replayed <==> id in old(loans) && Party(old(loans)[id], actor) && !OverLimit(old(loans)[id], now)
      ensures r == Replayed ==> Tables() == old(Tables()).(loans := old(loans)[id := Refreshed(old(loans)[id], now)])
      ensures r != Replayed ==> r.Failed? && Tables() == old(Tables())
    {
      if id !in loans {
        return Failed(NoSuchLoan);
      }
      if !Party(loans[id], actor) {
        return Failed(NotParty);
      }
      r := Replay(id, now);
    }
  }
}
