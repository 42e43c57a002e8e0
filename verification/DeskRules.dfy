/** When an operation on the shared ledger goes through, and what a reader of the
    tables sees then: over the columns of the rows, and over numbers. */
module DeskRules {
  import opened Common
  import opened Accrual
  import opened LoanHistory
  import opened Chips
  import opened ChipStore
  import opened SharedLedger
  import L = LoanDesk
  import B = LoanSteps
  import X = ExchangeDesk

  /** The ledger ends in one amount out of one wallet and into another, under one key. */
  ghost predicate EndsInTransfer(rows: seq<Row>, from: Subject, to: Subject, amount: int, kindOut: Kind, kindIn: Kind,
      key: LedgerKey, day: Option<int>)
  {
    && |rows| >= 2
    && var o, i := rows[|rows| - 2], rows[|rows| - 1];
       && o.(balanceAfter := 0) == Row(from, kindOut, -amount, 0, Some(key), day)
       && i.(balanceAfter := 0) == Row(to, kindIn, amount, 0, Some(key), day)
  }

  lemma TransferEnds(b: Books, from: Subject, to: Subject, amount: int, kindOut: Kind, kindIn: Kind, key: LedgerKey,
      day: Option<int>)
    ensures EndsInTransfer(HandedOver(b, from, to, amount, kindOut, kindIn, key, day).rows, from, to, amount, kindOut,
      kindIn, key, day)
  {
    hide HandedOver, Opened;
    HandedOverRows(b, from, to, amount, kindOut, kindIn, key, day);
  }

  /** The loans that count against a borrower now: running, or proposed less than
      their time ago. */
  function OpenNow(loans: map<string, Loan>, borrower: Subject, now: int): set<string> {
    set id | id in loans && loans[id].borrower == borrower
      && (loans[id].status in {Active, Overdue}
        || (loans[id].status == Negotiating && now < loans[id].proposalExpiresAt))
  }

  lemma RefreshedOpen(loans: map<string, Loan>, borrower: Subject, now: int)
    ensures L.OpenLoans(L.RefreshedFor(loans, borrower, now), borrower) == OpenNow(loans, borrower, now)
  {
  }

  lemma RefreshedStatus(l: Loan, now: int)
    ensures Refreshed(l, now).borrower == l.borrower && Refreshed(l, now).currentRevision == l.currentRevision
    ensures Refreshed(l, now).status == Negotiating ==> Refreshed(l, now) == l
    ensures var s := Refreshed(l, now).status;
      && (l.status in {Active, Overdue} ==>
            s == if l.status == Overdue || (now + 28_800) / 86_400 > l.dueDate then Overdue else Active)
      && (l.status == Negotiating ==> s == if now < l.proposalExpiresAt then Negotiating else Status.Expired)
      && (l.status !in {Active, Overdue, Negotiating} ==> s == l.status)
  {
  }

  /** Neither overdue nor, once brought up to date, beyond the interest column. */
  predicate InGoodStanding(l: Loan, now: int) {
    && l.status != Overdue
    && (l.status == Active ==>
          (now + 28_800) / 86_400 <= l.dueDate && Refreshed(l, now).accruedInterest <= 9_223_372_036_854_775_807)
  }

  lemma AdmitsExactly(loans: map<string, Loan>, borrower: Subject, now: int)
    ensures L.Admits(loans, borrower, now) <==>
      && |OpenNow(loans, borrower, now)| < 3
      && forall id :: id in loans && loans[id].borrower == borrower ==> InGoodStanding(loans[id], now)
  {
    hide Refreshed;
    RefreshedOpen(loans, borrower, now);
    var refreshed := L.RefreshedFor(loans, borrower, now);
    forall id | id in loans && loans[id].borrower == borrower
      ensures id in refreshed && refreshed[id].borrower == borrower
      ensures refreshed[id].status != Overdue && (id in L.OpenLoans(loans, borrower) ==> !OverLimit(loans[id], now))
        <==> InGoodStanding(loans[id], now)
    {
      RefreshedStatus(loans[id], now);
    }
    forall id | id in refreshed && refreshed[id].borrower == borrower ensures loans[id].borrower == borrower {
      RefreshedStatus(loans[id], now);
    }
  }

  /** A proposal is filed exactly when the pair is bound, the terms can be stored and
      fall due in one to thirty days, the key is new, and the borrower has fewer than
      three open loans, none of them past its due day or beyond the interest column. */
  lemma CreationExactly(w: World, now: int, borrower: Subject, lenderId: string, t: L.Terms, key: string,
      bound: bool, newId: string)
    requires newId !in w.loans.loans
    ensures var v := Do(w, now, CreateLoan(borrower, lenderId, t, key, bound, newId));
      var day, open := (now + 28_800) / 86_400, OpenNow(w.loans.loans, borrower, now);
      && (newId in v.loans.loans <==>
            && bound && (borrower, key) !in w.loans.operations
            && 0 < t.principal <= 9_223_372_036_854_775_807 && 0 <= t.dailyRate <= 9_223_372_036_854_775_807
            && day + 1 <= t.dueDate <= day + 30
            && |open| < 3
            && (forall id :: id in w.loans.loans && w.loans.loans[id].borrower == borrower ==>
                  InGoodStanding(w.loans.loans[id], now)))
      && v.books == w.books && v.exchanges == w.exchanges
  {
    AdmitsExactly(w.loans.loans, borrower, now);
  }

  /** What a filed proposal is: revision 1 by the borrower, awaiting the lender of the
      other type for three days. */
  lemma CreationLeaves(w: World, now: int, borrower: Subject, lenderId: string, t: L.Terms, key: string,
      bound: bool, newId: string)
    requires newId !in w.loans.loans
    requires newId in Do(w, now, CreateLoan(borrower, lenderId, t, key, bound, newId)).loans.loans
    ensures var v := Do(w, now, CreateLoan(borrower, lenderId, t, key, bound, newId)).loans;
      var lender := if borrower.Human? then Ai(lenderId) else Human(lenderId);
      && newId in v.loans && (newId, 1) in v.revisions
      && v.revisions[(newId, 1)] == L.Revision(borrower, lender, t)
      && v.operations == w.loans.operations[(borrower, key) := L.Operation(L.Create, newId, Some(1), 0, 0, 0)]
      && var l := v.loans[newId];
         && l.borrower == borrower && l.lender == lender && l.status == Negotiating && l.currentRevision == 1
         && l.awaiting == Some(lender) && l.proposalExpiresAt == now + 259_200
  {
    hide L.Admits, Refreshed, OverLimit;
  }

  lemma RefreshedOwes(l: Loan, now: int)
    ensures var r := Refreshed(l, now);
      r.remainingPrincipal == l.remainingPrincipal && r.dueDate == l.dueDate && r.acceptedRevision == l.acceptedRevision
  {
  }

  lemma AcceptedOwes(w: World, id: string)
    requires Together(w) && id in w.loans.loans && w.loans.loans[id].acceptedRevision.Some?
    ensures var l := w.loans.loans[id];
      l.status in {Active, Overdue} || (l.status == Status.Repaid && l.remainingPrincipal == 0)
  {
    assert L.Consented(id, w.loans.loans[id], w.loans.revisions);
  }

  /** Whoever gets a new proposal filed owes on nothing past its due day. */
  lemma NothingOverdueAfterCreation(w: World, now: int, borrower: Subject, lenderId: string, t: L.Terms, key: string,
      bound: bool, newId: string)
    requires Together(w) && newId !in w.loans.loans
    ensures var v := Do(w, now, CreateLoan(borrower, lenderId, t, key, bound, newId)).loans.loans;
      newId in v ==>
        forall id :: id in v && v[id].borrower == borrower && v[id].acceptedRevision.Some? ==>
          v[id].remainingPrincipal > 0 ==> (now + 28_800) / 86_400 <= v[id].dueDate
  {
    hide Together, L.Admits, Refreshed, OverLimit;
    var v := Do(w, now, CreateLoan(borrower, lenderId, t, key, bound, newId)).loans.loans;
    CreationExactly(w, now, borrower, lenderId, t, key, bound, newId);
    forall id | newId in v && id in v && v[id].borrower == borrower && v[id].acceptedRevision.Some?
      && v[id].remainingPrincipal > 0
      ensures (now + 28_800) / 86_400 <= v[id].dueDate
    {
      RefreshedStatus(w.loans.loans[id], now);
      RefreshedOwes(w.loans.loans[id], now);
      AcceptedOwes(w, id);
      assert InGoodStanding(w.loans.loans[id], now);
    }
  }

  /** Only a party is ever awaited, under a revision that is on file. */
  lemma AwaitedIsParty(w: World, id: string)
    requires Together(w) && id in w.loans.loans
    ensures var l := w.loans.loans[id];
      && (id, l.currentRevision) in w.loans.revisions
      && l.currentRevision >= 1 && l.counterCount == l.currentRevision - 1 && l.borrower != l.lender
      && (l.status == Negotiating ==> l.awaiting in {Some(l.borrower), Some(l.lender)})
      && w.loans.revisions[(id, l.currentRevision)].terms.principal > 0
  {
    assert L.Consented(id, w.loans.loans[id], w.loans.revisions);
  }

  /** A counter-offer goes through exactly when the awaited party of a proposal still
      open answers its current revision with other terms that can be stored, while the
      pair is bound. */
  lemma CounterExactly(w: World, now: int, id: string, actor: Subject, revision: nat, t: L.Terms, key: string,
      boundTo: Option<string>)
    requires Together(w) && id in w.loans.loans
    ensures var l, v := w.loans.loans[id], Do(w, now, CounterLoan(id, actor, revision, t, key, boundTo));
      var day := (now + 28_800) / 86_400;
      && id in v.loans.loans && v.books == w.books && v.exchanges == w.exchanges
      && (v.loans.loans[id].currentRevision != l.currentRevision <==>
            && (actor, key) !in w.loans.operations && boundTo in {Some(l.borrower.id), Some(l.lender.id)}
            && l.status == Negotiating && now < l.proposalExpiresAt
            && l.awaiting == Some(actor) && revision == l.currentRevision
            && 0 < t.principal <= 9_223_372_036_854_775_807 && 0 <= t.dailyRate <= 9_223_372_036_854_775_807
            && day + 1 <= t.dueDate <= day + 30
            && (id, revision) in w.loans.revisions && t != w.loans.revisions[(id, revision)].terms)
  {
    hide Together, Refreshed;
    AwaitedIsParty(w, id);
    RefreshedStatus(w.loans.loans[id], now);
  }

  /** What a counter-offer leaves: the next revision, awaiting the other side for three
      days, beside all earlier ones. */
  lemma CounterLeaves(w: World, now: int, id: string, actor: Subject, revision: nat, t: L.Terms, key: string,
      boundTo: Option<string>)
    requires Together(w) && id in w.loans.loans
    requires var v := Do(w, now, CounterLoan(id, actor, revision, t, key, boundTo)).loans.loans;
      id in v && v[id].currentRevision != w.loans.loans[id].currentRevision
    ensures var l, v := w.loans.loans[id], Do(w, now, CounterLoan(id, actor, revision, t, key, boundTo)).loans;
      var other := if actor == l.borrower then l.lender else l.borrower;
      && v.loans[id] == l.(currentRevision := revision + 1, awaiting := Some(other), counterCount := revision,
                           proposalExpiresAt := now + 259_200)
      && v.revisions == w.loans.revisions[(id, revision + 1) := L.Revision(actor, other, t)]
      && v.operations == w.loans.operations[(actor, key) := L.Operation(L.Counter, id, Some(revision + 1), 0, 0, 0)]
  {
    hide Together, Refreshed;
    CounterExactly(w, now, id, actor, revision, t, key, boundTo);
    AwaitedIsParty(w, id);
    RefreshedStatus(w.loans.loans[id], now);
  }

  /** A proposal is accepted exactly when the awaited party of a proposal still open
      answers its current revision while the pair is bound, the due day is still one to
      thirty days off, the lender holds the principal and the borrower's wallet has
      room for it. */
  lemma AcceptanceExactly(w: World, now: int, id: string, actor: Subject, revision: nat, key: string,
      boundTo: Option<string>)
    requires Together(w) && id in w.loans.loans && w.loans.loans[id].status == Negotiating
    ensures var l, v := w.loans.loans[id], Do(w, now, AcceptLoan(id, actor, revision, key, boundTo));
      var day, k := (now + 28_800) / 86_400, (id, l.currentRevision);
      && id in v.loans.loans && k in w.loans.revisions
      && var t := w.loans.revisions[k].terms;
         (v.loans.loans[id].status == Active <==>
            && (actor, key) !in w.loans.operations && boundTo in {Some(l.borrower.id), Some(l.lender.id)}
            && now < l.proposalExpiresAt && l.awaiting == Some(actor) && revision == l.currentRevision
            && day + 1 <= t.dueDate <= day + 30
            && t.principal <= Balance(w.books, l.lender)
            && Balance(w.books, l.borrower) + t.principal <= 9_223_372_036_854_775_807)
  {
    hide Together, Refreshed, Balance, HandedOver;
    AwaitedIsParty(w, id);
    RefreshedStatus(w.loans.loans[id], now);
  }

  /** What an acceptance leaves: the loan under the revision's terms, starting to earn
      interest now, and the principal moved once. */
  lemma AcceptanceLeaves(w: World, now: int, id: string, actor: Subject, revision: nat, key: string,
      boundTo: Option<string>)
    requires Together(w) && id in w.loans.loans && w.loans.loans[id].status == Negotiating
    requires var v := Do(w, now, AcceptLoan(id, actor, revision, key, boundTo)).loans.loans;
      id in v && v[id].status == Active
    ensures var l, v := w.loans.loans[id], Do(w, now, AcceptLoan(id, actor, revision, key, boundTo));
      && (id, revision) in w.loans.revisions && v.loans.revisions == w.loans.revisions
      && var t := w.loans.revisions[(id, revision)].terms;
         && v.loans.loans[id] == l.(
              status := Active, awaiting := None, acceptedRevision := Some(revision),
              originalPrincipal := t.principal, remainingPrincipal := t.principal, principalPaid := 0,
              dailyRate := t.dailyRate, capEnabled := t.capEnabled, dueDate := t.dueDate,
              accruedInterest := 0, interestRemainder := 0, interestPaid := 0,
              borrowerBalanceAtAccept := Balance(w.books, l.borrower), lastAccrualAt := now)
         && v.loans.operations
              == w.loans.operations[(actor, key) := L.Operation(L.Accept, id, Some(revision), 0, 0, 0)]
         && EndsInTransfer(v.books.rows, l.lender, l.borrower, t.principal, LoanPrincipalOut, LoanPrincipalIn,
              LoanPrincipalKey(id, revision), None)
         && Balance(v.books, l.lender) == Balance(w.books, l.lender) - t.principal
         && Balance(v.books, l.borrower) == Balance(w.books, l.borrower) + t.principal
         && (forall s :: s != l.lender && s != l.borrower ==> Balance(v.books, s) == Balance(w.books, s))
  {
    hide Replays, X.Stands, HandedOver, Balance, EndsInTransfer;
    AcceptanceExactly(w, now, id, actor, revision, key, boundTo);
    var v := Do(w, now, AcceptLoan(id, actor, revision, key, boundTo));
    RefreshedStatus(w.loans.loans[id], now);
    var l := w.loans.loans[id];
    TransferEnds(w.books, l.lender, l.borrower, w.loans.revisions[(id, revision)].terms.principal, LoanPrincipalOut,
      LoanPrincipalIn, LoanPrincipalKey(id, revision), None);
    B.AgreesConserves(w.loans, w.books, v.loans, v.books, id, actor, revision, key, now);
  }

  /** A proposal is closed by hand exactly when the awaited party rejects, or the
      borrower withdraws, its current revision while it is still open. */
  lemma CloseExactly(w: World, now: int, id: string, actor: Subject, action: L.Action, revision: nat, key: string)
    requires Together(w) && id in w.loans.loans && action in {L.Reject, L.Withdraw}
    requires w.loans.loans[id].status == Negotiating
    ensures var l, v := w.loans.loans[id], Do(w, now, CloseProposal(id, actor, action, revision, key));
      && id in v.loans.loans && v.books == w.books
      && (v.loans.loans[id].status != Negotiating <==>
            && (actor, key) !in w.loans.operations && revision == l.currentRevision && now < l.proposalExpiresAt
            && (if action == L.Reject then l.awaiting == Some(actor) else actor == l.borrower))
      && (v.loans.loans[id].status != Negotiating ==>
            v.loans.loans[id] == l.(status := if action == L.Reject then Rejected else Status.Withdrawn,
                                    awaiting := None))
  {
    hide Together, Refreshed;
    AwaitedIsParty(w, id);
    RefreshedStatus(w.loans.loans[id], now);
  }

  lemma RunningRow(w: World, id: string, now: int)
    requires Together(w) && id in w.loans.loans && w.loans.loans[id].status in {Active, Overdue}
    ensures LifeCycle(w.loans.loans[id]) && w.loans.loans[id].borrower != w.loans.loans[id].lender
    ensures var r := Refreshed(w.loans.loans[id], now);
      && r.status in {Active, Overdue} && r.borrower == w.loans.loans[id].borrower
      && r.lender == w.loans.loans[id].lender && r.acceptedRevision == w.loans.loans[id].acceptedRevision
      && (r.accruedInterest <= 9_223_372_036_854_775_807 ==> LifeCycle(r))
  {
    assert L.Consented(id, w.loans.loans[id], w.loans.revisions);
    if Refreshed(w.loans.loans[id], now).accruedInterest <= 9_223_372_036_854_775_807 {
      L.RefreshAnyTime(w.loans.loans[id], now);
    }
  }

  /** A repayment of a running loan goes through exactly when the borrower asks for at
      most what the row shows as due today, holds it, and the lender's wallet and the
      interest column have room for it. */
  lemma RepaymentExactly(w: World, now: int, id: string, actor: Subject, amount: int, key: string)
    requires Together(w) && id in w.loans.loans && w.loans.loans[id].status in {Active, Overdue}
    ensures var v, r := Do(w, now, RepayLoan(id, actor, amount, key)), Refreshed(w.loans.loans[id], now);
      v.books.rows != w.books.rows <==>
        && actor == r.borrower && (actor, key) !in w.loans.operations
        && 0 < amount <= r.remainingPrincipal + r.accruedInterest && amount <= 9_223_372_036_854_775_807
        && r.accruedInterest <= 9_223_372_036_854_775_807
        && amount <= Balance(w.books, r.borrower)
        && Balance(w.books, r.lender) + amount <= 9_223_372_036_854_775_807
        && r.interestPaid + (if amount <= r.accruedInterest then amount else r.accruedInterest)
             <= 9_223_372_036_854_775_807
  {
    hide Together, Replays, LifeCycle, Refreshed;
    RunningRow(w, id, now);
    var v := Do(w, now, RepayLoan(id, actor, amount, key));
    if L.MayRepay(w.loans, w.books, id, actor, amount, key, now) {
      HandedOverRows(w.books, actor, w.loans.loans[id].lender, amount, LoanRepaymentOut, LoanRepaymentIn,
        LoanRepaymentKey(id, actor, key), None);
    }
  }

  /** What a repayment leaves: interest paid first, principal with the rest, the loan
      repaid exactly when nothing is left, and the amount moved once. */
  lemma RepaymentLeaves(w: World, now: int, id: string, actor: Subject, amount: int, key: string)
    requires Together(w) && id in w.loans.loans && w.loans.loans[id].status in {Active, Overdue}
    requires Do(w, now, RepayLoan(id, actor, amount, key)).books.rows != w.books.rows
    ensures var v, r := Do(w, now, RepayLoan(id, actor, amount, key)), Refreshed(w.loans.loans[id], now);
      var interest := if amount <= r.accruedInterest then amount else r.accruedInterest;
      var left := r.remainingPrincipal + r.accruedInterest - amount;
      && id in v.loans.loans
      && v.loans.loans[id] == r.(
           accruedInterest := r.accruedInterest - interest, interestPaid := r.interestPaid + interest,
           remainingPrincipal := r.remainingPrincipal - (amount - interest),
           principalPaid := r.principalPaid + (amount - interest),
           status := if left == 0 then Status.Repaid else r.status,
           repaidAt := if left == 0 then Some(now) else r.repaidAt)
      && v.loans.operations == w.loans.operations[(actor, key) :=
           L.Operation(L.Action.RepayLoan, id, r.acceptedRevision, amount, interest, amount - interest)]
      && EndsInTransfer(v.books.rows, r.borrower, r.lender, amount, LoanRepaymentOut, LoanRepaymentIn,
           LoanRepaymentKey(id, actor, key), None)
      && Balance(v.books, r.borrower) == Balance(w.books, r.borrower) - amount
      && Balance(v.books, r.lender) == Balance(w.books, r.lender) + amount
      && (forall s :: s != r.borrower && s != r.lender ==> Balance(v.books, s) == Balance(w.books, s))
  {
    hide Replays, LifeCycle, Refreshed, HandedOver, Balance, L.Stands, X.Stands, EndsInTransfer;
    var v := Do(w, now, RepayLoan(id, actor, amount, key));
    RunningRow(w, id, now);
    B.PaybackIsReduction(w.loans, w.books, id, amount, now);
    TransferEnds(w.books, w.loans.loans[id].borrower, w.loans.loans[id].lender, amount, LoanRepaymentOut,
      LoanRepaymentIn, LoanRepaymentKey(id, w.loans.loans[id].borrower, key), None);
    B.SettlesConserves(w.loans, w.books, v.loans, v.books, id, actor, amount, key, now);
  }

  /** Requests of a pair that still wait for an answer now. */
  function PendingNow(requests: map<string, X.Request>, human: string, ai: string, now: int): set<string> {
    set id | id in requests && requests[id].human == human && requests[id].ai == ai
      && requests[id].status == X.Pending && now < requests[id].expiresAt
  }

  /** An exchange request is filed exactly when the pair is bound, the amount is one
      to a hundred, the key is new and fewer than three requests of the pair wait;
      it then waits 72 hours for the other side. */
  lemma AskExactly(w: World, now: int, initiator: Subject, counterpart: string, amount: int, key: string, bound: bool,
      newId: string)
    requires newId !in w.exchanges.requests
    ensures var v := Do(w, now, Ask(initiator, counterpart, amount, key, bound, newId));
      var (human, ai) := if initiator.Human? then (initiator.id, counterpart) else (counterpart, initiator.id);
      && v.books == w.books && v.loans == w.loans
      && (newId in v.exchanges.requests <==>
            && bound && 1 <= amount <= 100 && (initiator, key) !in w.exchanges.operations
            && |PendingNow(w.exchanges.requests, human, ai, now)| < 3)
      && (newId in v.exchanges.requests ==>
            v.exchanges.requests[newId] == X.Request(human, ai, initiator, amount, X.Pending, now + 259_200))
  {
    var (human, ai) := if initiator.Human? then (initiator.id, counterpart) else (counterpart, initiator.id);
    assert X.PendingOf(X.Expired(w.exchanges.requests, now), (human, ai))
      == PendingNow(w.exchanges.requests, human, ai, now);
  }

  /** The answer to a waiting request by the side that did not ask, under a new key:
      bound to the other side it pays, if the payer holds the amount and stays within
      100 chips that day; under any other binding the request lapses and no chip moves. */
  lemma ConfirmationExactly(w: World, now: int, id: string, actor: Subject, key: string, boundTo: Option<string>,
      day: int)
    requires Together(w) && id in w.exchanges.requests
    ensures var q, v := w.exchanges.requests[id], Do(w, now, Confirm(id, actor, key, boundTo, day));
      var answered := q.status == X.Pending && now < q.expiresAt && (actor, key) !in w.exchanges.operations
        && (actor == Human(q.human) || actor == Ai(q.ai)) && actor != q.initiator;
      var other := if actor == Human(q.human) then q.ai else q.human;
      && id in v.exchanges.requests && v.loans == w.loans
      && (v.exchanges.requests[id].status == X.Completed && q.status != X.Completed <==>
            && answered && boundTo == Some(other) && q.amount <= Balance(w.books, actor)
            && X.Spent(w.books.rows, actor, day) + q.amount <= 100)
      && (answered && boundTo != Some(other) ==> v.exchanges.requests[id] == q.(status := X.Lapsed))
      && (!(v.exchanges.requests[id].status == X.Completed && q.status != X.Completed) ==> v.books == w.books)
  {
    hide Replays, L.Stands, HandedOver, X.Spent, Balance;
    assert X.WellFormed(w.exchanges.requests[id]);
  }

  /** What a confirmation leaves: the amount moved once, from the payer to whoever
      asked, never below zero. */
  lemma ConfirmationLeaves(w: World, now: int, id: string, actor: Subject, key: string, boundTo: Option<string>,
      day: int)
    requires Together(w) && id in w.exchanges.requests && w.exchanges.requests[id].status != X.Completed
    requires var v := Do(w, now, Confirm(id, actor, key, boundTo, day)).exchanges.requests;
      id in v && v[id].status == X.Completed
    ensures Do(w, now, Confirm(id, actor, key, boundTo, day)).exchanges.operations
      == w.exchanges.operations[(actor, key) := X.Operation(X.Action.Confirm, id)]
    ensures var q, v := w.exchanges.requests[id], Do(w, now, Confirm(id, actor, key, boundTo, day)).books;
      && EndsInTransfer(v.rows, actor, q.initiator, q.amount, ExchangeOut, ExchangeIn, ExchangeKey(id), Some(day))
      && 0 <= Balance(v, actor) == Balance(w.books, actor) - q.amount
      && Balance(v, q.initiator) == Balance(w.books, q.initiator) + q.amount
      && (forall s :: s != actor && s != q.initiator ==> Balance(v, s) == Balance(w.books, s))
  {
    hide Replays, L.Stands, X.Stands, HandedOver, X.Spent, Balance, EndsInTransfer;
    var v, q := Do(w, now, Confirm(id, actor, key, boundTo, day)), w.exchanges.requests[id];
    TransferEnds(w.books, actor, q.initiator, q.amount, ExchangeOut, ExchangeIn, ExchangeKey(id), Some(day));
    X.PaysConserves(w.exchanges, w.books, v.exchanges, v.books, id, actor, key, boundTo, day, now);
  }

  /** A waiting request is closed by hand exactly when the payer rejects or the
      initiator withdraws it under a new key: closed as asked while the pair is bound,
      lapsed otherwise.  No chip moves. */
  lemma RefusalExactly(w: World, now: int, id: string, actor: Subject, action: X.Action, key: string,
      boundTo: Option<string>)
    requires Together(w) && id in w.exchanges.requests && w.exchanges.requests[id].status == X.Pending
    requires action in {X.Reject, X.Action.Withdraw} && now < w.exchanges.requests[id].expiresAt
    ensures var q, v := w.exchanges.requests[id], Do(w, now, Close(id, actor, action, key, boundTo));
      var other := if actor == Human(q.human) then q.ai else q.human;
      && id in v.exchanges.requests && v.books == w.books && v.loans == w.loans
      && (v.exchanges.requests[id].status != X.Pending <==>
            && (actor, key) !in w.exchanges.operations && (actor == Human(q.human) || actor == Ai(q.ai))
            && (action == X.Reject <==> actor != q.initiator))
      && (v.exchanges.requests[id].status != X.Pending ==>
            v.exchanges.requests[id] == q.(status := if boundTo != Some(other) then X.Lapsed
                                                    else if action == X.Reject then X.Declined else X.Status.Withdrawn))
  {
    hide Replays, L.Stands;
    assert X.WellFormed(w.exchanges.requests[id]);
  }
}
