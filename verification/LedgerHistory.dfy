/** What the ledger says after a run, told from the operations of the run. */
module LedgerHistory {
  import opened Common
  import opened Accrual
  import opened LoanHistory
  import opened Chips
  import opened ChipStore
  import opened SharedLedger
  import opened DeskRules
  import L = LoanDesk
  import B = LoanSteps
  import X = ExchangeDesk

  lemma OpenedRows(b: Books, s: Subject)
    ensures Opened(b, s).rows == b.rows
      || Opened(b, s).rows == b.rows + [Row(s, WalletOpened, INITIAL_BALANCE, INITIAL_BALANCE, Some(OpeningKey), None)]
  {
  }

  // ----- badges -----

  lemma BadgeStep(w: World, now: int, op: Op)
    requires Together(w) && BadgesTold(w.books)
    ensures BadgesTold(Do(w, now, op).books)
  {
    hide BadgesTold, Replays, L.Stands, X.Stands, HandedOver;
    match op
    case AcceptLoan(id, actor, revision, key, boundTo) =>
      if L.MayAccept(w.loans, w.books, id, actor, revision, key, boundTo, now) {
        var l := w.loans.loans[id];
        HandedOverTold(w.books, l.lender, l.borrower, w.loans.revisions[(id, revision)].terms.principal,
          LoanPrincipalOut, LoanPrincipalIn, LoanPrincipalKey(id, l.currentRevision), None);
      }
    case RepayLoan(id, actor, amount, key) =>
      if L.MayRepay(w.loans, w.books, id, actor, amount, key, now) {
        var l := w.loans.loans[id];
        HandedOverTold(w.books, l.borrower, l.lender, amount, LoanRepaymentOut, LoanRepaymentIn,
          LoanRepaymentKey(id, l.borrower, key), None);
      }
    case Confirm(id, actor, key, boundTo, day) =>
      if X.MayConfirm(w.exchanges, w.books, id, actor, key, boundTo, day, now) {
        var q := w.exchanges.requests[id];
        HandedOverTold(w.books, X.Payer(q), q.initiator, q.amount, ExchangeOut, ExchangeIn, ExchangeKey(id), Some(day));
      }
    case Open(owner) => OpenedTold(w.books, owner);
    case Change(owner, amount, kind, key, day) =>
      OpenedTold(w.books, owner);
      OpenedReplays(w.books, owner);
      if Ordinary(kind, key) {
        ChangedTold(Opened(w.books, owner), owner, amount, kind, key, day);
      }
    case GoBankrupt(owner, today) =>
      if owner in w.books.wallets {
        BankruptedTold(w.books, owner, today);
      }
    case _ =>
  }

  /** In every run a wallet wears its badge exactly from a reset until its ledger
      shows 200 chips again, and counts its resets. */
  lemma {:induction false} BadgesOfRun(w: World, ops: Script)
    requires Together(w) && BadgesTold(w.books)
    ensures BadgesTold(Run(w, ops).books)
  {
    hide Together, BadgesTold, Do;
    if ops != [] {
      var front, last := ops[..|ops| - 1], ops[|ops| - 1];
      BadgesOfRun(w, front);
      RunsStayTogether(w, front);
      BadgeStep(Run(w, front), last.0, last.1);
    }
  }

  // ----- what a payer spends on exchanges in one day -----

  /** The operation is this payer's confirmation on this day, and completes a request. */
  predicate Completes(w: World, now: int, op: Op, payer: Subject, day: int) {
    && op.Confirm? && op.actor == payer && op.day == day
    && op.id in w.exchanges.requests && w.exchanges.requests[op.id].status != X.Completed
    && var v := Do(w, now, op).exchanges.requests; op.id in v && v[op.id].status == X.Completed
  }

  /** Amounts of the requests a payer confirmed on one day of the run. */
  function Confirmed(w: World, ops: Script, payer: Subject, day: int): int {
    if ops == [] then 0
    else
      var front, last := ops[..|ops| - 1], ops[|ops| - 1];
      var v := Run(w, front);
      Confirmed(w, front, payer, day)
        + (if Completes(v, last.0, last.1, payer, day) then v.exchanges.requests[last.1.id].amount else 0)
  }

  lemma TransferSpends(d: X.Desk, b: Books, from: Subject, to: Subject, amount: int, kindOut: Kind, kindIn: Kind,
      key: LedgerKey, day: Option<int>, s: Subject, on: int)
    requires X.Stands(d, b.rows) && kindIn != ExchangeOut
    ensures X.Spent(HandedOver(b, from, to, amount, kindOut, kindIn, key, day).rows, s, on)
      == X.Spent(b.rows, s, on) + (if kindOut == ExchangeOut && s == from && day == Some(on) then amount else 0)
  {
    hide X.Stands, X.Spent, HandedOver;
    HandedOverRows(b, from, to, amount, kindOut, kindIn, key, day);
    X.OpenedStands(d, b, from);
    X.OpenedStands(d, Opened(b, from), to);
    var open, c := Opened(Opened(b, from), to), HandedOver(b, from, to, amount, kindOut, kindIn, key, day);
    var n := |open.rows|;
    X.AppendSpent(open.rows, c.rows[n], s, on);
    X.AppendSpent(open.rows + [c.rows[n]], c.rows[n + 1], s, on);
  }

  lemma LoanOpsSpendNothing(w: World, now: int, op: Op, s: Subject, on: int)
    requires Together(w) && (op.AcceptLoan? || op.RepayLoan?)
    ensures X.Spent(Do(w, now, op).books.rows, s, on) == X.Spent(w.books.rows, s, on)
  {
    hide Replays, L.Stands, X.Stands, HandedOver, X.Spent, Balance, Refreshed, OverLimit;
    if op.id in w.loans.loans {
      var l := w.loans.loans[op.id];
      if op.RepayLoan? {
        TransferSpends(w.exchanges, w.books, l.borrower, l.lender, op.amount, LoanRepaymentOut, LoanRepaymentIn,
          LoanRepaymentKey(op.id, l.borrower, op.key), None, s, on);
      } else if (op.id, op.revision) in w.loans.revisions {
        TransferSpends(w.exchanges, w.books, l.lender, l.borrower,
          w.loans.revisions[(op.id, op.revision)].terms.principal,
          LoanPrincipalOut, LoanPrincipalIn, LoanPrincipalKey(op.id, l.currentRevision), None, s, on);
      }
    }
  }

  lemma ConfirmationSpends(w: World, now: int, op: Op, s: Subject, on: int)
    requires Together(w) && op.Confirm?
    ensures X.Spent(Do(w, now, op).books.rows, s, on) == X.Spent(w.books.rows, s, on)
      + (if Completes(w, now, op, s, on) then w.exchanges.requests[op.id].amount else 0)
  {
    hide Replays, L.Stands, X.Stands, HandedOver, X.Spent, Balance;
    if op.id in w.exchanges.requests {
      ConfirmationExactly(w, now, op.id, op.actor, op.key, op.boundTo, op.day);
      var q := w.exchanges.requests[op.id];
      TransferSpends(w.exchanges, w.books, X.Payer(q), q.initiator, q.amount, ExchangeOut, ExchangeIn,
        ExchangeKey(op.id), Some(op.day), s, on);
    }
  }

  lemma OtherOpsSpendNothing(w: World, now: int, op: Op, s: Subject, on: int)
    requires Together(w) && !op.AcceptLoan? && !op.RepayLoan? && !op.Confirm?
    ensures X.Spent(Do(w, now, op).books.rows, s, on) == X.Spent(w.books.rows, s, on)
  {
    hide Replays, L.Stands, X.Stands, HandedOver, X.Spent, Refreshed, OverLimit;
    match op
    case Open(owner) => X.OpenedStands(w.exchanges, w.books, owner);
    case Change(owner, amount, kind, key, day) =>
      var open := Opened(w.books, owner);
      X.OpenedStands(w.exchanges, w.books, owner);
      if Ordinary(kind, key) && amount != 0 {
        var c := Changed(open, owner, amount, kind, key, day);
        X.AppendSpent(open.rows, c.rows[|open.rows|], s, on);
      }
    case GoBankrupt(owner, today) =>
      if owner in w.books.wallets {
        var c := Bankrupted(w.books, owner, today);
        X.AppendSpent(w.books.rows, c.rows[|w.books.rows|], s, on);
      }
    case _ =>
  }

  lemma SpentStep(w: World, now: int, op: Op, s: Subject, on: int)
    requires Together(w)
    ensures X.Spent(Do(w, now, op).books.rows, s, on) == X.Spent(w.books.rows, s, on)
      + (if Completes(w, now, op, s, on) then w.exchanges.requests[op.id].amount else 0)
  {
    hide Together, Do, X.Spent;
    if op.AcceptLoan? || op.RepayLoan? {
      LoanOpsSpendNothing(w, now, op, s, on);
    } else if op.Confirm? {
      ConfirmationSpends(w, now, op, s, on);
    } else {
      OtherOpsSpendNothing(w, now, op, s, on);
    }
  }

  lemma WithinTheDay(w: World, payer: Subject, day: int)
    requires Together(w)
    ensures X.Spent(w.books.rows, payer, day) <= 100
  {
  }

  /** The daily limit counts exactly what the payer confirmed that day, whatever else
      happens on the ledger, and holds it to 100 chips. */
  lemma {:induction false} DailySpendOfRun(w: World, ops: Script, payer: Subject, day: int)
    requires Together(w)
    ensures X.Spent(Run(w, ops).books.rows, payer, day)
      == X.Spent(w.books.rows, payer, day) + Confirmed(w, ops, payer, day)
    ensures X.Spent(w.books.rows, payer, day) + Confirmed(w, ops, payer, day) <= 100
  {
    hide Together, Do, X.Spent, Completes;
    RunsStayTogether(w, ops);
    WithinTheDay(Run(w, ops), payer, day);
    if ops != [] {
      var front, last := ops[..|ops| - 1], ops[|ops| - 1];
      DailySpendOfRun(w, front, payer, day);
      RunsStayTogether(w, front);
      SpentStep(Run(w, front), last.0, last.1, payer, day);
    }
  }

  predicate Tagged(key: Option<LedgerKey>, id: string, repaid: bool) {
    key.Some? && match key.value
      case LoanPrincipalKey(loan, _) => loan == id && !repaid
      case LoanRepaymentKey(loan, _, _) => loan == id && repaid
      case _ => false
  }

  // ----- what loans moved -----

  /** Sum of one wallet's rows that belong to a loan: its principal, or what was repaid. */
  function Flow(rows: seq<Row>, id: string, s: Subject, repaid: bool): int {
    if rows == [] then 0
    else
      var last := rows[|rows| - 1];
      Flow(rows[..|rows| - 1], id, s, repaid)
        + (if last.owner == s && Tagged(last.key, id, repaid) then last.amount else 0)
  }

  /** What a wallet should have received for a loan, judging by the loan's row. */
  function Owed(loans: map<string, Loan>, id: string, s: Subject, repaid: bool): int {
    if id !in loans || loans[id].status !in {Active, Overdue, Status.Repaid} then 0
    else
      var l := loans[id];
      var amount := if repaid then -(l.interestPaid + l.principalPaid) else l.originalPrincipal;
      (if s == l.borrower then amount else 0) - (if s == l.lender then amount else 0)
  }

  ghost predicate LoansMatch(w: World) {
    forall id: string, s: Subject, repaid: bool ::
      Flow(w.books.rows, id, s, repaid) == Owed(w.loans.loans, id, s, repaid)
  }

  lemma AppendFlow(rows: seq<Row>, row: Row, id: string, s: Subject, repaid: bool)
    ensures Flow(rows + [row], id, s, repaid)
      == Flow(rows, id, s, repaid) + (if row.owner == s && Tagged(row.key, id, repaid) then row.amount else 0)
  {
    assert (rows + [row])[..|rows|] == rows;
  }

  lemma OpenedFlow(b: Books, owner: Subject, id: string, s: Subject, repaid: bool)
    ensures Flow(Opened(b, owner).rows, id, s, repaid) == Flow(b.rows, id, s, repaid)
  {
    OpenedRows(b, owner);
    AppendFlow(b.rows, Row(owner, WalletOpened, INITIAL_BALANCE, INITIAL_BALANCE, Some(OpeningKey), None), id, s,
      repaid);
  }

  lemma TransferFlows(b: Books, from: Subject, to: Subject, amount: int, kindOut: Kind, kindIn: Kind, key: LedgerKey,
      day: Option<int>, id: string, s: Subject, repaid: bool)
    ensures Flow(HandedOver(b, from, to, amount, kindOut, kindIn, key, day).rows, id, s, repaid)
      == Flow(b.rows, id, s, repaid) + if Tagged(Some(key), id, repaid)
           then (if s == to then amount else 0) - (if s == from then amount else 0) else 0
  {
    hide Flow, HandedOver, Opened;
    HandedOverRows(b, from, to, amount, kindOut, kindIn, key, day);
    OpenedFlow(b, from, id, s, repaid);
    OpenedFlow(Opened(b, from), to, id, s, repaid);
    var open, c := Opened(Opened(b, from), to), HandedOver(b, from, to, amount, kindOut, kindIn, key, day);
    var n := |open.rows|;
    AppendFlow(open.rows, c.rows[n], id, s, repaid);
    AppendFlow(open.rows + [c.rows[n]], c.rows[n + 1], id, s, repaid);
  }

  lemma RefreshOwes(l: Loan, now: int)
    ensures var r := Refreshed(l, now);
      && r.borrower == l.borrower && r.lender == l.lender && r.originalPrincipal == l.originalPrincipal
      && r.interestPaid == l.interestPaid && r.principalPaid == l.principalPaid
      && (r.status in {Active, Overdue, Status.Repaid} <==> l.status in {Active, Overdue, Status.Repaid})
  {
  }

  lemma CounterOwesNothing(w: World, now: int, op: Op, id: string, s: Subject, repaid: bool)
    requires op.CounterLoan?
    ensures Owed(Do(w, now, op).loans.loans, id, s, repaid) == Owed(w.loans.loans, id, s, repaid)
  {
    hide Refreshed, OverLimit;
    if op.id in w.loans.loans {
      RefreshOwes(w.loans.loans[op.id], now);
      RefreshedStatus(w.loans.loans[op.id], now);
    }
  }

  lemma CloseOwesNothing(w: World, now: int, op: Op, id: string, s: Subject, repaid: bool)
    requires op.CloseProposal?
    ensures Owed(Do(w, now, op).loans.loans, id, s, repaid) == Owed(w.loans.loans, id, s, repaid)
  {
    hide Refreshed, OverLimit;
    if op.id in w.loans.loans {
      RefreshedStatus(w.loans.loans[op.id], now);
    }
  }

  lemma CreationOwesNothing(w: World, now: int, op: Op, id: string, s: Subject, repaid: bool)
    requires op.CreateLoan?
    ensures Owed(Do(w, now, op).loans.loans, id, s, repaid) == Owed(w.loans.loans, id, s, repaid)
  {
    hide Refreshed, OverLimit, L.Admits;
    if id in w.loans.loans {
      RefreshOwes(w.loans.loans[id], now);
    }
  }

  /** Operations that move no chips for a loan leave what it owes in the ledger. */
  lemma QuietOps(w: World, now: int, op: Op, id: string, s: Subject, repaid: bool)
    requires !op.AcceptLoan? && !op.RepayLoan?
    ensures Owed(Do(w, now, op).loans.loans, id, s, repaid) == Owed(w.loans.loans, id, s, repaid)
  {
    hide Refreshed, OverLimit, Creating, Countering, Closing;
    if op.CreateLoan? {
      CreationOwesNothing(w, now, op, id, s, repaid);
    } else if op.CounterLoan? {
      CounterOwesNothing(w, now, op, id, s, repaid);
    } else if op.CloseProposal? {
      CloseOwesNothing(w, now, op, id, s, repaid);
    } else if op.Look? {
      if op.id in w.loans.loans {
        RefreshOwes(w.loans.loans[op.id], now);
      }
    } else {
      OtherOpsSpareLoans(w, now, op);
    }
  }

  lemma Matching(w: World, id: string, s: Subject, repaid: bool)
    requires LoansMatch(w)
    ensures Flow(w.books.rows, id, s, repaid) == Owed(w.loans.loans, id, s, repaid)
  {
  }

  lemma AcceptOwes(w: World, now: int, op: Op, id: string, s: Subject, repaid: bool)
    requires LoansMatch(w) && op.AcceptLoan?
    ensures var v := Do(w, now, op);
      Flow(v.books.rows, id, s, repaid) == Owed(v.loans.loans, id, s, repaid)
  {
    hide Flow, Refreshed, HandedOver, LoansMatch, OverLimit, Balance;
    Matching(w, id, s, repaid);
    if op.id in w.loans.loans {
      var l := w.loans.loans[op.id];
      RefreshOwes(l, now);
      RefreshedStatus(l, now);
      if L.MayAccept(w.loans, w.books, op.id, op.actor, op.revision, op.key, op.boundTo, now) {
        assert l.status == Negotiating;
        TransferFlows(w.books, l.lender, l.borrower, w.loans.revisions[(op.id, op.revision)].terms.principal,
          LoanPrincipalOut, LoanPrincipalIn, LoanPrincipalKey(op.id, l.currentRevision), None, id, s, repaid);
      }
    }
  }

  lemma RepayOwes(w: World, now: int, op: Op, id: string, s: Subject, repaid: bool)
    requires Together(w) && LoansMatch(w) && op.RepayLoan?
    ensures var v := Do(w, now, op);
      Flow(v.books.rows, id, s, repaid) == Owed(v.loans.loans, id, s, repaid)
  {
    hide Flow, Refreshed, Replays, L.Stands, X.Stands, HandedOver, LoansMatch;
    Matching(w, id, s, repaid);
    if op.id in w.loans.loans {
      var l := w.loans.loans[op.id];
      RefreshOwes(l, now);
      if L.MayRepay(w.loans, w.books, op.id, op.actor, op.amount, op.key, now) {
        TransferFlows(w.books, l.borrower, l.lender, op.amount, LoanRepaymentOut, LoanRepaymentIn,
          LoanRepaymentKey(op.id, l.borrower, op.key), None, id, s, repaid);
      }
    }
  }

  lemma OtherFlows(w: World, now: int, op: Op, id: string, s: Subject, repaid: bool)
    requires !op.AcceptLoan? && !op.RepayLoan?
    ensures Flow(Do(w, now, op).books.rows, id, s, repaid) == Flow(w.books.rows, id, s, repaid)
  {
    hide Flow, Refreshed, Replays, L.Stands, X.Stands, HandedOver;
    match op
    case Confirm(o, actor, key, boundTo, day) =>
      if X.MayConfirm(w.exchanges, w.books, o, actor, key, boundTo, day, now) {
        var q := w.exchanges.requests[o];
        TransferFlows(w.books, X.Payer(q), q.initiator, q.amount, ExchangeOut, ExchangeIn, ExchangeKey(o), Some(day),
          id, s, repaid);
      }
    case Open(owner) => OpenedFlow(w.books, owner, id, s, repaid);
    case Change(owner, amount, kind, key, day) =>
      OpenedFlow(w.books, owner, id, s, repaid);
      var open := Opened(w.books, owner);
      if Ordinary(kind, key) && amount != 0 && owner in open.wallets {
        var c := Changed(open, owner, amount, kind, key, day);
        AppendFlow(open.rows, c.rows[|open.rows|], id, s, repaid);
      }
    case GoBankrupt(owner, today) =>
      if owner in w.books.wallets {
        var c := Bankrupted(w.books, owner, today);
        AppendFlow(w.books.rows, c.rows[|w.books.rows|], id, s, repaid);
      }
    case _ =>
  }

  lemma MatchStep(w: World, now: int, op: Op)
    requires Together(w) && LoansMatch(w)
    ensures LoansMatch(Do(w, now, op))
  {
    hide Together, Do, Flow, Owed;
    forall id: string, s: Subject, repaid: bool
      ensures Flow(Do(w, now, op).books.rows, id, s, repaid) == Owed(Do(w, now, op).loans.loans, id, s, repaid)
    {
      if op.AcceptLoan? {
        AcceptOwes(w, now, op, id, s, repaid);
      } else if op.RepayLoan? {
        RepayOwes(w, now, op, id, s, repaid);
      } else {
        QuietOps(w, now, op, id, s, repaid);
        OtherFlows(w, now, op, id, s, repaid);
      }
    }
  }

  lemma {:induction false} RunMatches(w: World, ops: Script)
    requires Together(w) && LoansMatch(w)
    ensures LoansMatch(Run(w, ops))
  {
    hide Together, Do, LoansMatch;
    if ops != [] {
      var front, last := ops[..|ops| - 1], ops[|ops| - 1];
      RunMatches(w, front);
      RunsStayTogether(w, front);
      MatchStep(Run(w, front), last.0, last.1);
    }
  }

  lemma NothingOwedYet()
    ensures LoansMatch(Nothing())
  {
  }

  lemma TwoParties(w: World, id: string)
    requires Together(w) && id in w.loans.loans
    ensures w.loans.loans[id].borrower != w.loans.loans[id].lender
  {
    assert L.Consented(id, w.loans.loans[id], w.loans.revisions);
  }

  /** After any run the rows of a loan in the ledger are its books: the principal once
      out of the lender's wallet into the borrower's, and from the borrower to the
      lender exactly what the loan counts as interest and principal paid. */
  lemma LoansMatchLedger(ops: Script, id: string)
    requires id in Run(Nothing(), ops).loans.loans
    ensures var l, rows := Run(Nothing(), ops).loans.loans[id], Run(Nothing(), ops).books.rows;
      && (l.status in {Active, Overdue, Status.Repaid} ==>
            && Flow(rows, id, l.borrower, false) == l.originalPrincipal == -Flow(rows, id, l.lender, false)
            && Flow(rows, id, l.lender, true) == l.interestPaid + l.principalPaid == -Flow(rows, id, l.borrower, true))
      && (l.status !in {Active, Overdue, Status.Repaid} ==>
            forall s: Subject, repaid: bool :: Flow(rows, id, s, repaid) == 0)
  {
    hide Together, Do, LoansMatch, Run, Flow, L.Consented;
    NothingOwedYet();
    EmptyStandsTogether();
    RunMatches(Nothing(), ops);
    RunsStayTogether(Nothing(), ops);
    var v := Run(Nothing(), ops);
    TwoParties(v, id);
    forall s: Subject, repaid: bool ensures Flow(v.books.rows, id, s, repaid) == Owed(v.loans.loans, id, s, repaid) {
      Matching(v, id, s, repaid);
    }
  }

  // ----- repeated requests -----

  /** Two requests under one key: both of loans, or both confirmations. */
  predicate SameKeyed(a: Op, b: Op) {
    && (((a.AcceptLoan? || a.RepayLoan?) && (b.AcceptLoan? || b.RepayLoan?)) || (a.Confirm? && b.Confirm?))
    && a.actor == b.actor && a.key == b.key
  }

  predicate Recorded(w: World, op: Op)
    requires op.AcceptLoan? || op.RepayLoan? || op.Confirm?
  {
    if op.Confirm? then (op.actor, op.key) in w.exchanges.operations else (op.actor, op.key) in w.loans.operations
  }

  lemma MovingIsRecorded(w: World, now: int, op: Op)
    requires op.AcceptLoan? || op.RepayLoan? || op.Confirm?
    ensures Do(w, now, op).books != w.books ==> Recorded(Do(w, now, op), op)
    ensures Recorded(w, op) ==> Do(w, now, op).books == w.books
  {
    hide HandedOver, Refreshed, OverLimit, Balance, X.Spent;
  }

  lemma RecordsStay(w: World, now: int, op: Op)
    ensures w.loans.operations.Keys <= Do(w, now, op).loans.operations.Keys
    ensures w.exchanges.operations.Keys <= Do(w, now, op).exchanges.operations.Keys
  {
    hide HandedOver, Refreshed, OverLimit, Balance, X.Spent, L.Admits, X.PendingOf, Taken;
  }

  lemma {:induction false} RecordedSince(w: World, ops: Script, i: nat, n: nat, op: Op)
    requires i <= n <= |ops| && (op.AcceptLoan? || op.RepayLoan? || op.Confirm?)
    requires Recorded(Run(w, ops[..i]), op)
    ensures Recorded(Run(w, ops[..n]), op)
    decreases n
  {
    hide Do;
    if i < n {
      RecordedSince(w, ops, i, n - 1, op);
      assert ops[..n][..n - 1] == ops[..n - 1];
      RecordsStay(Run(w, ops[..n - 1]), ops[n - 1].0, ops[n - 1].1);
    }
  }

  /** A request repeated under its key, however often and whatever happens in between,
      moves chips at most once. */
  lemma SameKeyMovesOnce(w: World, ops: Script, i: nat, j: nat)
    requires i < j < |ops| && SameKeyed(ops[i].1, ops[j].1)
    requires Run(w, ops[..i + 1]).books != Run(w, ops[..i]).books
    ensures Run(w, ops[..j + 1]).books == Run(w, ops[..j]).books
  {
    hide Do;
    assert ops[..i + 1][..i] == ops[..i] && ops[..j + 1][..j] == ops[..j];
    MovingIsRecorded(Run(w, ops[..i]), ops[i].0, ops[i].1);
    RecordedSince(w, ops, i + 1, j, ops[i].1);
    MovingIsRecorded(Run(w, ops[..j]), ops[j].0, ops[j].1);
  }
}
