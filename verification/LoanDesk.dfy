/** The negotiated loan tables and what holds between any two operations
    (app/loans.py). */
module LoanDesk {
  import opened Common
  import opened Accrual
  import opened LoanHistory
  import opened Chips
  const MAX_OPEN_LOANS := 3
  const PROPOSAL_LIFETIME := 3 * 86_400
  const LONGEST_TERM_DAYS := 30

  datatype Terms = Terms(principal: int, dailyRate: int, capEnabled: bool, dueDate: int)

  datatype Revision = Revision(proposer: Subject, recipient: Subject, terms: Terms)

  datatype Action = Create | Counter | Accept | Reject | Withdraw | RepayLoan

  /** One recorded idempotency key of one actor. */
  datatype Operation = Operation(action: Action, loan: string, revision: Option<nat>, amount: int, interest: int,
    principal: int)

  datatype Desk = Desk(
    loans: map<string, Loan>,
    revisions: map<(string, nat), Revision>,
    operations: map<(Subject, string), Operation>)

  predicate Open(status: Status) {
    status == Negotiating || Running(status)
  }

  function OpenLoans(loans: map<string, Loan>, borrower: Subject): set<string> {
    set id | id in loans && loans[id].borrower == borrower && Open(loans[id].status)
  }

  predicate TermsStorable(t: Terms) {
    0 < t.principal <= MAX_SQLITE_INTEGER && 0 <= t.dailyRate <= MAX_SQLITE_INTEGER
  }

  /** Due tomorrow at the earliest, thirty days from now at the latest. */
  predicate DueDateAllowed(dueDate: int, now: int) {
    ShanghaiDay(now) + 1 <= dueDate <= ShanghaiDay(now) + LONGEST_TERM_DAYS
  }

  function Other(l: Loan, s: Subject): Subject {
    if s == l.borrower then l.lender else l.borrower
  }

  predicate Party(l: Loan, s: Subject) {
    s == l.borrower || s == l.lender
  }

  /** The borrower proposes odd revisions, the lender even ones. */
  function Proposer(l: Loan, revision: nat): Subject {
    if revision % 2 == 1 then l.borrower else l.lender
  }

  ghost predicate HasRevisions(id: string, l: Loan, revisions: map<(string, nat), Revision>) {
    forall r: nat ::
      ((id, r) in revisions <==> 1 <= r <= l.currentRevision) &&
      ((id, r) in revisions ==>
        && revisions[(id, r)].proposer == Proposer(l, r)
        && revisions[(id, r)].recipient == Other(l, Proposer(l, r))
        && TermsStorable(revisions[(id, r)].terms))
  }

  ghost predicate CarriesTerms(l: Loan, t: Terms) {
    && l.originalPrincipal == t.principal && l.dailyRate == t.dailyRate
    && l.capEnabled == t.capEnabled && l.dueDate == t.dueDate
  }

  /** One loan: who may answer, what was agreed, and by whom. */
  ghost predicate Consented(id: string, l: Loan, revisions: map<(string, nat), Revision>) {
    && l.borrower.Human? != l.lender.Human?
    && l.currentRevision >= 1 && l.counterCount == l.currentRevision - 1
    && HasRevisions(id, l, revisions)
    && (id, l.currentRevision) in revisions
    && (l.status == Negotiating ==>
          l.awaiting == Some(revisions[(id, l.currentRevision)].recipient))
    && (l.status != Negotiating ==> l.awaiting.None?)
    && (!Accepted(l.status) ==> l.capReachedAt.None?)
    && (Accepted(l.status) <==> l.acceptedRevision.Some?)
    && (Accepted(l.status) ==>
          && LifeCycle(l) && l.acceptedRevision == Some(l.currentRevision)
          && CarriesTerms(l, revisions[(id, l.currentRevision)].terms))
  }

  /** A ledger key of a loan has an accepted loan, or a recorded operation, behind it. */
  predicate Explained(d: Desk, key: LedgerKey) {
    match key
    case LoanPrincipalKey(id, _) => id in d.loans && Accepted(d.loans[id].status)
    case LoanRepaymentKey(_, payer, k) => (payer, k) in d.operations
    case _ => true
  }

  ghost predicate KeysExplained(d: Desk, rows: seq<Row>) {
    forall r :: r in rows && r.key.Some? ==> Explained(d, r.key.value)
  }

  ghost predicate AllConsented(d: Desk) {
    && (forall id :: id in d.loans ==> Consented(id, d.loans[id], d.revisions))
    && (forall k :: k in d.revisions ==> k.0 in d.loans)
    && (forall k :: k in d.operations ==> d.operations[k].loan in d.loans)
  }

  ghost predicate WithinLimit(loans: map<string, Loan>) {
    forall b: Subject :: |OpenLoans(loans, b)| <= MAX_OPEN_LOANS
  }

  /** What holds of the loan tables, next to the ledger, between operations. */
  ghost predicate Stands(d: Desk, rows: seq<Row>) {
    AllConsented(d) && WithinLimit(d.loans) && KeysExplained(d, rows)
  }

  // ----- the effect of each operation on the tables -----

  function NewLoan(borrower: Subject, lender: Subject, now: int): Loan {
    Loan(borrower, lender, Negotiating, 1, None, Some(lender), 0, now + PROPOSAL_LIFETIME,
         0, 0, 0, false, 0, 0, 0, 0, 0, 0, 0, None, None)
  }

  function Created(d: Desk, id: string, borrower: Subject, lender: Subject, t: Terms, key: string, now: int): Desk {
    Desk(d.loans[id := NewLoan(borrower, lender, now)],
         d.revisions[(id, 1) := Revision(borrower, lender, t)],
         d.operations[(borrower, key) := Operation(Create, id, Some(1), 0, 0, 0)])
  }

  function Countered(d: Desk, id: string, l: Loan, actor: Subject, t: Terms, key: string, now: int): Desk {
    var next := l.currentRevision + 1;
    Desk(d.loans[id := l.(currentRevision := next, awaiting := Some(Other(l, actor)),
                          counterCount := l.counterCount + 1, proposalExpiresAt := now + PROPOSAL_LIFETIME)],
         d.revisions[(id, next) := Revision(actor, Other(l, actor), t)],
         d.operations[(actor, key) := Operation(Counter, id, Some(next), 0, 0, 0)])
  }

  function Activated(l: Loan, t: Terms, borrowerBefore: int, now: int): Loan {
    l.(status := Active, acceptedRevision := Some(l.currentRevision), awaiting := None,
       originalPrincipal := t.principal, remainingPrincipal := t.principal, dailyRate := t.dailyRate,
       capEnabled := t.capEnabled, dueDate := t.dueDate,
       accruedInterest := 0, interestRemainder := 0, interestPaid := 0, principalPaid := 0,
       borrowerBalanceAtAccept := borrowerBefore, lastAccrualAt := now)
  }

  function Agreed(d: Desk, id: string, l: Loan, actor: Subject, t: Terms, borrowerBefore: int, key: string,
      now: int): Desk
  {
    d.(loans := d.loans[id := Activated(l, t, borrowerBefore, now)],
       operations := d.operations[(actor, key) := Operation(Accept, id, Some(l.currentRevision), 0, 0, 0)])
  }

  function Closed(d: Desk, id: string, l: Loan, actor: Subject, action: Action, key: string): Desk {
    d.(loans := d.loans[id := l.(status := if action == Reject then Rejected else Withdrawn, awaiting := None)],
       operations := d.operations[(actor, key) := Operation(action, id, Some(l.currentRevision), 0, 0, 0)])
  }

  function PaidBack(d: Desk, id: string, l: Loan, actor: Subject, amount: int, interest: int, principal: int,
      key: string): Desk
  {
    d.(loans := d.loans[id := l],
       operations := d.operations[(actor, key) :=
         Operation(RepayLoan, id, l.acceptedRevision, amount, interest, principal)])
  }

  /** Every open loan of a borrower refreshed, all others untouched. */
  function RefreshedFor(loans: map<string, Loan>, borrower: Subject, now: int): map<string, Loan> {
    map id | id in loans ::
      if loans[id].borrower == borrower && Open(loans[id].status) then Refreshed(loans[id], now) else loans[id]
  }

  // ----- what refreshing keeps -----

  lemma RefreshAnyTime(l: Loan, now: int)
    requires LifeCycle(l) && !OverLimit(l, now)
    ensures LifeCycle(Refreshed(l, now))
  {
    if l.lastAccrualAt <= now {
      RefreshKeeps(l, now);
    }
  }

  lemma RefreshConsents(id: string, l: Loan, revisions: map<(string, nat), Revision>, now: int)
    requires Consented(id, l, revisions) && !OverLimit(l, now)
    ensures Consented(id, Refreshed(l, now), revisions)
    ensures Refreshed(l, now).borrower == l.borrower
    ensures Open(Refreshed(l, now).status) ==> Open(l.status)
    ensures Accepted(Refreshed(l, now).status) == Accepted(l.status)
  {
    if Accepted(l.status) {
      RefreshAnyTime(l, now);
    }
  }

  lemma SameBorrowerFewerOpen(before: map<string, Loan>, after: map<string, Loan>)
    requires WithinLimit(before) && after.Keys == before.Keys
    requires forall id :: id in before ==>
      after[id].borrower == before[id].borrower && (Open(after[id].status) ==> Open(before[id].status))
    ensures WithinLimit(after)
  {
    forall b: Subject ensures |OpenLoans(after, b)| <= MAX_OPEN_LOANS {
      assert OpenLoans(after, b) <= OpenLoans(before, b);
      SubsetSmaller(OpenLoans(after, b), OpenLoans(before, b));
    }
  }

  // ----- what each operation keeps -----

  lemma NewLoanConsents(d: Desk, id: string, borrower: Subject, lender: Subject, t: Terms, key: string, now: int)
    requires forall k :: k in d.revisions ==> k.0 != id
    requires TermsStorable(t) && borrower.Human? != lender.Human?
    ensures var e := Created(d, id, borrower, lender, t, key, now); Consented(id, e.loans[id], e.revisions)
  {
    var e := Created(d, id, borrower, lender, t, key, now);
    var l := e.loans[id];
    forall r: nat
      ensures (id, r) in e.revisions <==> 1 <= r <= l.currentRevision
      ensures (id, r) in e.revisions ==> e.revisions[(id, r)] == Revision(borrower, lender, t) && r == 1
    {
    }
    assert Proposer(l, 1) == borrower && Other(l, borrower) == lender;
    assert HasRevisions(id, l, e.revisions);
  }

  lemma OneMoreLoan(loans: map<string, Loan>, id: string, l: Loan, b: Subject)
    requires id !in loans
    ensures OpenLoans(loans[id := l], b) == OpenLoans(loans, b) + if b == l.borrower && Open(l.status) then {id} else {}
  {
  }

  lemma LimitAfterCreate(loans: map<string, Loan>, id: string, l: Loan)
    requires WithinLimit(loans) && id !in loans
    requires |OpenLoans(loans, l.borrower)| < MAX_OPEN_LOANS
    ensures WithinLimit(loans[id := l])
  {
    hide Open;
    var after := loans[id := l];
    forall b: Subject ensures |OpenLoans(after, b)| <= MAX_OPEN_LOANS {
      OneMoreLoan(loans, id, l, b);
    }
  }

  /** A new revision of one loan is nothing to another. */
  lemma RevisionsElsewhere(o: string, l: Loan, revisions: map<(string, nat), Revision>, k: (string, nat), v: Revision)
    requires Consented(o, l, revisions) && k.0 != o
    ensures Consented(o, l, revisions[k := v])
  {
    var rs := revisions[k := v];
    forall r: nat
      ensures (o, r) in rs <==> (o, r) in revisions
      ensures (o, r) in revisions ==> rs[(o, r)] == revisions[(o, r)]
    {
    }
  }

  lemma OthersConsent(d: Desk, e: Desk, id: string, k: (string, nat))
    requires AllConsented(d) && k.0 == id && k in e.revisions && e.revisions == d.revisions[k := e.revisions[k]]
    requires id in e.loans && e.loans == d.loans[id := e.loans[id]]
    ensures forall o :: o in e.loans && o != id ==> Consented(o, e.loans[o], e.revisions)
  {
    forall o | o in e.loans && o != id ensures Consented(o, e.loans[o], e.revisions) {
      RevisionsElsewhere(o, d.loans[o], d.revisions, k, e.revisions[k]);
    }
  }

  lemma CreateKeeps(d: Desk, id: string, borrower: Subject, lender: Subject, t: Terms, key: string, now: int)
    requires AllConsented(d) && id !in d.loans
    requires TermsStorable(t) && borrower.Human? != lender.Human?
    ensures AllConsented(Created(d, id, borrower, lender, t, key, now))
  {
    var e := Created(d, id, borrower, lender, t, key, now);
    NewLoanConsents(d, id, borrower, lender, t, key, now);
    OthersConsent(d, e, id, (id, 1));
  }

  lemma CounteredConsents(d: Desk, id: string, l: Loan, actor: Subject, t: Terms, key: string, now: int)
    requires Consented(id, l, d.revisions)
    requires l.status == Negotiating && l.awaiting == Some(actor) && TermsStorable(t)
    ensures var e := Countered(d, id, l, actor, t, key, now); Consented(id, e.loans[id], e.revisions)
  {
    var e := Countered(d, id, l, actor, t, key, now);
    var m := e.loans[id];
    assert actor == Proposer(m, m.currentRevision);
    forall r: nat
      ensures (id, r) in e.revisions <==> 1 <= r <= m.currentRevision
      ensures r <= l.currentRevision && (id, r) in e.revisions ==> e.revisions[(id, r)] == d.revisions[(id, r)]
      ensures Proposer(m, r) == Proposer(l, r)
    {
      assert (id, r) in d.revisions <==> 1 <= r <= l.currentRevision;
    }
    assert HasRevisions(id, m, e.revisions);
  }

  lemma CounterKeeps(d: Desk, id: string, l: Loan, actor: Subject, t: Terms, key: string, now: int)
    requires AllConsented(d) && id in d.loans && Consented(id, l, d.revisions)
    requires l.status == Negotiating && l.awaiting == Some(actor) && TermsStorable(t)
    ensures AllConsented(Countered(d, id, l, actor, t, key, now))
  {
    CounteredConsents(d, id, l, actor, t, key, now);
    OthersConsent(d, Countered(d, id, l, actor, t, key, now), id, (id, l.currentRevision + 1));
  }

  lemma ReplaceKeeps(d: Desk, e: Desk, id: string, actor: Subject, key: string)
    requires AllConsented(d) && id in d.loans && e.revisions == d.revisions
    requires id in e.loans && e.loans == d.loans[id := e.loans[id]] && Consented(id, e.loans[id], d.revisions)
    requires (actor, key) in e.operations && e.operations == d.operations[(actor, key) := e.operations[(actor, key)]]
    requires e.operations[(actor, key)].loan == id
    ensures AllConsented(e)
  {
  }

  /** Keys stay explained while operations are only added and accepted loans stay accepted. */
  lemma StillExplained(d: Desk, e: Desk, rows: seq<Row>)
    requires KeysExplained(d, rows) && d.operations.Keys <= e.operations.Keys
    requires forall id :: id in d.loans && Accepted(d.loans[id].status) ==>
      id in e.loans && Accepted(e.loans[id].status)
    ensures KeysExplained(e, rows)
  {
  }

  /** Ledger rows of other components are neutral to loans. */
  lemma OtherRowStands(d: Desk, rows: seq<Row>, row: Row)
    requires Stands(d, rows)
    requires row.key.Some? ==> !row.key.value.LoanPrincipalKey? && !row.key.value.LoanRepaymentKey?
    ensures Stands(d, rows + [row])
  {
    hide AllConsented, WithinLimit;
    forall r | r in rows + [row] && r.key.Some? ensures Explained(d, r.key.value) {
      assert r in rows || r == row;
    }
  }

  lemma UnexplainedIsFree(d: Desk, rows: seq<Row>, s: Subject, key: LedgerKey)
    requires KeysExplained(d, rows) && !Explained(d, key)
    ensures !Taken(rows, s, key)
  {
  }

  /** Money moved under an explained key between two opened wallets. */
  lemma MovedExplained(d: Desk, b: Books, s: Subject, o: Subject, amount: int, kindOut: Kind, kindIn: Kind,
      key: LedgerKey)
    requires KeysExplained(d, b.rows) && Explained(d, key)
    ensures KeysExplained(d, HandedOver(b, s, o, amount, kindOut, kindIn, key, None).rows)
  {
  }

  // ----- when an operation goes through -----

  predicate Bound(l: Loan, boundTo: Option<string>) {
    boundTo.Some? && boundTo.value in {l.borrower.id, l.lender.id}
  }

  /** A borrower with no overdue debt and fewer than three open loans, once its
      loans are brought up to date, may ask for another. */
  predicate Admits(loans: map<string, Loan>, borrower: Subject, now: int) {
    && (forall id :: id in OpenLoans(loans, borrower) ==> !OverLimit(loans[id], now))
    && var refreshed := RefreshedFor(loans, borrower, now);
       && |OpenLoans(refreshed, borrower)| < MAX_OPEN_LOANS
       && forall id :: id in refreshed && refreshed[id].borrower == borrower ==> refreshed[id].status != Overdue
  }

  predicate MayCreate(d: Desk, borrower: Subject, t: Terms, key: string, pairIsBound: bool, now: int) {
    && pairIsBound && TermsStorable(t) && DueDateAllowed(t.dueDate, now)
    && (borrower, key) !in d.operations
    && Admits(d.loans, borrower, now)
  }

  /** The actor used this key before, for this action on this loan. */
  predicate Repeats(d: Desk, id: string, actor: Subject, key: string, action: Action) {
    (actor, key) in d.operations && d.operations[(actor, key)].action == action && d.operations[(actor, key)].loan == id
  }

  /** A repeated request is answered as long as its loan can be refreshed. */
  predicate Answerable(d: Desk, id: string, actor: Subject, key: string, action: Action, now: int) {
    Repeats(d, id, actor, key, action) && id in d.loans && !OverLimit(d.loans[id], now)
  }

  /** The answer of the awaited party to exactly the current revision. */
  predicate MayAnswer(d: Desk, id: string, actor: Subject, revision: nat, key: string, boundTo: Option<string>,
      now: int)
  {
    && (actor, key) !in d.operations && id in d.loans
    && var l := Refreshed(d.loans[id], now);
       && Party(l, actor) && Bound(l, boundTo) && revision == l.currentRevision
       && l.status == Negotiating && l.awaiting == Some(actor)
  }

  predicate MayCounter(d: Desk, id: string, actor: Subject, revision: nat, t: Terms, key: string,
      boundTo: Option<string>, now: int)
  {
    && TermsStorable(t) && DueDateAllowed(t.dueDate, now)
    && MayAnswer(d, id, actor, revision, key, boundTo, now)
    && (id, revision) in d.revisions && t != d.revisions[(id, revision)].terms
  }

  /** The lender must cover the principal and the borrower's wallet must hold it. */
  predicate MayAccept(d: Desk, b: Books, id: string, actor: Subject, revision: nat, key: string,
      boundTo: Option<string>, now: int)
  {
    && MayAnswer(d, id, actor, revision, key, boundTo, now) && (id, revision) in d.revisions
    && var l, t := d.loans[id], d.revisions[(id, revision)].terms;
       && DueDateAllowed(t.dueDate, now)
       && 0 < Balance(b, l.lender) && t.principal <= Balance(b, l.lender)
       && Balance(b, l.borrower) + t.principal <= MAX_SQLITE_INTEGER
  }

  /** The awaited party rejects; the borrower, who started it, withdraws. */
  predicate MayClose(d: Desk, id: string, actor: Subject, action: Action, revision: nat, key: string, now: int) {
    && (actor, key) !in d.operations && id in d.loans
    && var l := Refreshed(d.loans[id], now);
       && Party(l, actor) && revision == l.currentRevision && l.status == Negotiating
       && (if action == Reject then l.awaiting == Some(actor) else l.borrower == actor)
  }

  /** The borrower pays back part or all of what a running loan shows as due. */
  function Payback(d: Desk, b: Books, id: string, amount: int, now: int): Repayment
    requires id in d.loans
  {
    Repay(d.loans[id], now, amount, Balance(b, d.loans[id].borrower), Balance(b, d.loans[id].lender))
  }

  predicate MayRepay(d: Desk, b: Books, id: string, actor: Subject, amount: int, key: string, now: int) {
    && 0 < amount <= MAX_SQLITE_INTEGER && (actor, key) !in d.operations
    && id in d.loans && d.loans[id].borrower == actor
    && Payback(d, b, id, amount, now).Applied?
  }
}
