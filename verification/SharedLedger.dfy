/** Chips, loans and exchanges over one ledger: each desk's promises survive the
    other desk's operations, and a loan's history is what the operations make it. */
module SharedLedger {
  import opened Common
  import opened Accrual
  import opened LoanHistory
  import opened Chips
  import opened ChipStore
  import L = LoanDesk
  import B = LoanSteps
  import X = ExchangeDesk

  datatype World = World(loans: L.Desk, exchanges: X.Desk, books: Books)

  /** Every operation that changes one of the three; a settlement batch is one
      `Change` for every wallet it charges. */
  datatype Op =
    | CreateLoan(borrower: Subject, lenderId: string, terms: L.Terms, key: string, pairIsBound: bool, newId: string)
    | CounterLoan(id: string, actor: Subject, revision: nat, terms: L.Terms, key: string, boundTo: Option<string>)
    | AcceptLoan(id: string, actor: Subject, revision: nat, key: string, boundTo: Option<string>)
    | CloseProposal(id: string, actor: Subject, action: L.Action, revision: nat, key: string)
    | RepayLoan(id: string, actor: Subject, amount: int, key: string)
    | Look(id: string, actor: Subject)
    | Ask(initiator: Subject, counterpart: string, amount: int, key: string, pairIsBound: bool, newId: string)
    | Confirm(id: string, actor: Subject, key: string, boundTo: Option<string>, day: int)
    | Close(id: string, actor: Subject, answer: X.Action, key: string, boundTo: Option<string>)
    | Expire
    | Open(owner: Subject)
    | Change(owner: Subject, amount: int, kind: Kind, ledgerKey: Option<LedgerKey>, ledgerDay: Option<int>)
    | GoBankrupt(owner: Subject, today: int)

  // ----- one operation -----

  /** A repeated request, or a look: the loan is brought up to date. */
  function LoanRefreshed(w: World, id: string, now: int): World
    requires id in w.loans.loans
  {
    w.(loans := w.loans.(loans := w.loans.loans[id := Refreshed(w.loans.loans[id], now)]))
  }

  function Creating(w: World, now: int, borrower: Subject, lenderId: string, terms: L.Terms, key: string,
      bound: bool, newId: string): World
  {
    if L.MayCreate(w.loans, borrower, terms, key, bound, now) && newId !in w.loans.loans then
      w.(loans := L.Created(w.loans.(loans := L.RefreshedFor(w.loans.loans, borrower, now)), newId, borrower,
                            if borrower.Human? then Ai(lenderId) else Human(lenderId), terms, key, now))
    else if bound && L.TermsStorable(terms) && L.DueDateAllowed(terms.dueDate, now)
      && (borrower, key) in w.loans.operations
            && L.Answerable(w.loans, w.loans.operations[(borrower, key)].loan, borrower, key, L.Create, now) then
      LoanRefreshed(w, w.loans.operations[(borrower, key)].loan, now)
    else w
  }

  function Countering(w: World, now: int, id: string, actor: Subject, revision: nat, terms: L.Terms, key: string,
      boundTo: Option<string>): World
  {
    if L.MayCounter(w.loans, id, actor, revision, terms, key, boundTo, now) then
      w.(loans := L.Countered(w.loans, id, w.loans.loans[id], actor, terms, key, now))
    else if L.TermsStorable(terms) && L.DueDateAllowed(terms.dueDate, now)
            && L.Answerable(w.loans, id, actor, key, L.Counter, now) then
      LoanRefreshed(w, id, now)
    else w
  }

  function Accepting(w: World, now: int, id: string, actor: Subject, revision: nat, key: string,
      boundTo: Option<string>): World
  {
    if L.MayAccept(w.loans, w.books, id, actor, revision, key, boundTo, now) then
      var l, t := w.loans.loans[id], w.loans.revisions[(id, revision)].terms;
      w.(loans := L.Agreed(w.loans, id, l, actor, t, Balance(w.books, l.borrower), key, now),
         books := B.Lent(w.books, id, l, t.principal))
    else if L.Answerable(w.loans, id, actor, key, L.Accept, now) then LoanRefreshed(w, id, now)
    else w
  }

  function Closing(w: World, now: int, id: string, actor: Subject, action: L.Action, revision: nat, key: string): World
  {
    if action in {L.Reject, L.Withdraw} && L.MayClose(w.loans, id, actor, action, revision, key, now) then
      w.(loans := L.Closed(w.loans, id, w.loans.loans[id], actor, action, key))
    else w
  }

  function Repaying(w: World, now: int, id: string, actor: Subject, amount: int, key: string): World {
    if L.MayRepay(w.loans, w.books, id, actor, amount, key, now) then
      var out := L.Payback(w.loans, w.books, id, amount, now);
      w.(loans := L.PaidBack(w.loans, id, out.loan, actor, amount, out.interest, out.principal, key),
         books := B.Returned(w.books, id, w.loans.loans[id], amount, key))
    else if 0 < amount <= MAX_SQLITE_INTEGER && L.Answerable(w.loans, id, actor, key, L.Action.RepayLoan, now) then
      LoanRefreshed(w, id, now)
    else w
  }

  function Looking(w: World, now: int, id: string, actor: Subject): World {
    if id in w.loans.loans && L.Party(w.loans.loans[id], actor) && !OverLimit(w.loans.loans[id], now) then
      LoanRefreshed(w, id, now)
    else w
  }

  function Expiring(w: World, now: int): World {
    w.(exchanges := w.exchanges.(requests := X.Expired(w.exchanges.requests, now)))
  }

  function Asking(w: World, now: int, initiator: Subject, counterpart: string, amount: int, key: string, bound: bool,
      newId: string): World
  {
    if X.MayCreate(w.exchanges, initiator, counterpart, amount, key, bound, now) && newId !in w.exchanges.requests then
      var requests := X.Expired(w.exchanges.requests, now)[newId := X.Asked(initiator, counterpart, amount, now)];
      w.(exchanges := X.Recorded(w.exchanges.(requests := requests), initiator, key,
        X.Operation(X.CreateRequest, newId)))
    else if bound && 1 <= amount <= X.MAX_EXCHANGE_AMOUNT && (initiator, key) in w.exchanges.operations
            && w.exchanges.operations[(initiator, key)].action == X.CreateRequest then
      Expiring(w, now)
    else w
  }

  function Confirming(w: World, now: int, id: string, actor: Subject, key: string, boundTo: Option<string>,
      day: int): World
  {
    if X.MayConfirm(w.exchanges, w.books, id, actor, key, boundTo, day, now) then
      w.(exchanges := X.Recorded(X.WithStatus(w.exchanges, id, X.Completed, now), actor, key,
        X.Operation(X.Action.Confirm, id)),
         books := X.Payout(w.books, w.exchanges.requests[id], id, day))
    else if X.MaySettle(w.exchanges, id, actor, key, now) && !X.Tied(w.exchanges.requests[id], actor, boundTo) then
      w.(exchanges := X.WithStatus(w.exchanges, id, X.Lapsed, now))
    else if X.Repeats(w.exchanges, id, actor, X.Action.Confirm, key, X.Completed)
      && actor == X.Payer(w.exchanges.requests[id]) then
      Expiring(w, now)
    else w
  }

  function ClosingAsk(w: World, now: int, id: string, actor: Subject, action: X.Action, key: string,
      boundTo: Option<string>): World
  {
    if action !in {X.Reject, X.Action.Withdraw} then w
    else if X.MayClose(w.exchanges, id, actor, action, key, now) then
      if X.Tied(w.exchanges.requests[id], actor, boundTo) then
        w.(exchanges := X.Recorded(X.WithStatus(w.exchanges, id, X.ClosedAs(action), now), actor, key,
          X.Operation(action, id)))
      else w.(exchanges := X.WithStatus(w.exchanges, id, X.Lapsed, now))
    else if X.Repeats(w.exchanges, id, actor, action, key, X.ClosedAs(action))
            && actor == X.Closer(w.exchanges.requests[id], action) then
      Expiring(w, now)
    else w
  }

  /** Keys and kinds that belong to neither desk. */
  predicate Ordinary(kind: Kind, key: Option<LedgerKey>) {
    && kind in {DailyCheckIn, DuelWin, DuelLoss, AchievementReward}
    && (key.Some? ==> key.value.CheckInKey? || key.value.SettlementKey? || key.value.RewardKey?)
  }

  function Changing(w: World, owner: Subject, amount: int, kind: Kind, key: Option<LedgerKey>, day: Option<int>): World
  {
    var open := Opened(w.books, owner);
    if !Ordinary(kind, key) then w
    else if key.Some? && Taken(open.rows, owner, key.value) then w.(books := open)
    else if amount == 0 then w
    else w.(books := Changed(open, owner, amount, kind, key, day))
  }

  function Failing(w: World, owner: Subject, today: int): World {
    if Balance(w.books, owner) <= BANKRUPTCY_THRESHOLD && owner in w.books.wallets then
      w.(books := Bankrupted(w.books, owner, today))
    else w
  }

  /** One write transaction at one instant. */
  function Do(w: World, now: int, op: Op): World {
    match op
    case CreateLoan(borrower, lenderId, terms, key, bound, newId) =>
      Creating(w, now, borrower, lenderId, terms, key, bound, newId)
    case CounterLoan(id, actor, revision, terms, key, boundTo) =>
      Countering(w, now, id, actor, revision, terms, key, boundTo)
    case AcceptLoan(id, actor, revision, key, boundTo) => Accepting(w, now, id, actor, revision, key, boundTo)
    case CloseProposal(id, actor, action, revision, key) => Closing(w, now, id, actor, action, revision, key)
    case RepayLoan(id, actor, amount, key) => Repaying(w, now, id, actor, amount, key)
    case Look(id, actor) => Looking(w, now, id, actor)
    case Ask(initiator, counterpart, amount, key, bound, newId) =>
      Asking(w, now, initiator, counterpart, amount, key, bound, newId)
    case Confirm(id, actor, key, boundTo, day) => Confirming(w, now, id, actor, key, boundTo, day)
    case Close(id, actor, action, key, boundTo) => ClosingAsk(w, now, id, actor, action, key, boundTo)
    case Expire => Expiring(w, now)
    case Open(owner) => w.(books := Opened(w.books, owner))
    case Change(owner, amount, kind, key, day) => Changing(w, owner, amount, kind, key, day)
    case GoBankrupt(owner, today) => Failing(w, owner, today)
  }

  /** Operations with the instants they run at. */
  type Script = seq<(int, Op)>

  function Run(w: World, ops: Script): World {
    if ops == [] then w else
      var last := ops[|ops| - 1];
      Do(Run(w, ops[..|ops| - 1]), last.0, last.1)
  }

  // ----- what one operation keeps -----

  /** The ledger replays and both desks stand on it. */
  ghost predicate Together(w: World) {
    Replays(w.books) && L.Stands(w.loans, w.books.rows) && X.Stands(w.exchanges, w.books.rows)
  }

  /** A transfer adds at most two opening rows, one row out and one row in. */
  lemma HandedOverRows(b: Books, from: Subject, to: Subject, amount: int, kindOut: Kind, kindIn: Kind,
      key: LedgerKey, day: Option<int>)
    ensures var open, c := Opened(Opened(b, from), to), HandedOver(b, from, to, amount, kindOut, kindIn, key, day);
      var n := |open.rows|;
      && n >= |b.rows| && |c.rows| == n + 2 && c.rows == open.rows + [c.rows[n]] + [c.rows[n + 1]]
      && c.rows[n] == Row(from, kindOut, -amount, c.rows[n].balanceAfter, Some(key), day)
      && c.rows[n + 1] == Row(to, kindIn, amount, c.rows[n + 1].balanceAfter, Some(key), day)
  {
  }

  lemma LoansSeeOpening(d: L.Desk, b: Books, s: Subject)
    requires L.Stands(d, b.rows)
    ensures L.Stands(d, Opened(b, s).rows)
  {
    hide L.Stands;
    if s !in b.wallets {
      L.OtherRowStands(d, b.rows, Opened(b, s).rows[|b.rows|]);
    }
  }

  /** A transfer of another component leaves what stands of loans. */
  lemma LoansSeeTransfer(d: L.Desk, b: Books, from: Subject, to: Subject, amount: int, kindOut: Kind, kindIn: Kind,
      key: LedgerKey, day: Option<int>)
    requires L.Stands(d, b.rows) && !key.LoanPrincipalKey? && !key.LoanRepaymentKey?
    ensures L.Stands(d, HandedOver(b, from, to, amount, kindOut, kindIn, key, day).rows)
  {
    hide L.Stands, HandedOver, Opened;
    var c := HandedOver(b, from, to, amount, kindOut, kindIn, key, day);
    var open := Opened(Opened(b, from), to);
    var n := |open.rows|;
    HandedOverRows(b, from, to, amount, kindOut, kindIn, key, day);
    LoansSeeOpening(d, b, from);
    LoansSeeOpening(d, Opened(b, from), to);
    L.OtherRowStands(d, open.rows, c.rows[n]);
    L.OtherRowStands(d, open.rows + [c.rows[n]], c.rows[n + 1]);
  }

  /** A transfer of another component leaves what stands of exchanges. */
  lemma ExchangesSeeTransfer(d: X.Desk, b: Books, from: Subject, to: Subject, amount: int, kindOut: Kind,
      kindIn: Kind, key: LedgerKey, day: Option<int>)
    requires X.Stands(d, b.rows) && !key.ExchangeKey? && kindOut != ExchangeOut && kindIn != ExchangeOut
    ensures X.Stands(d, HandedOver(b, from, to, amount, kindOut, kindIn, key, day).rows)
  {
    hide X.Stands, X.Spent, HandedOver, Opened;
    var c := HandedOver(b, from, to, amount, kindOut, kindIn, key, day);
    var open := Opened(Opened(b, from), to);
    var n := |open.rows|;
    HandedOverRows(b, from, to, amount, kindOut, kindIn, key, day);
    X.OpenedStands(d, b, from);
    X.OpenedStands(d, Opened(b, from), to);
    X.OtherRowStands(d, open.rows, c.rows[n]);
    X.OtherRowStands(d, open.rows + [c.rows[n]], c.rows[n + 1]);
  }

  /** An acceptance or a repayment of a loan leaves what stands of exchanges. */
  lemma LoansSpareExchanges(x: X.Desk, b: Books, id: string, l: Loan, amount: int, key: string)
    requires X.Stands(x, b.rows)
    ensures X.Stands(x, B.Lent(b, id, l, amount).rows) && X.Stands(x, B.Returned(b, id, l, amount, key).rows)
  {
    ExchangesSeeTransfer(x, b, l.lender, l.borrower, amount, LoanPrincipalOut, LoanPrincipalIn, LoanPrincipalKey(id,
      l.currentRevision), None);
    ExchangesSeeTransfer(x, b, l.borrower, l.lender, amount, LoanRepaymentOut, LoanRepaymentIn, LoanRepaymentKey(id,
      l.borrower, key), None);
  }

  /** A confirmed exchange leaves what stands of loans. */
  lemma ExchangesSpareLoans(d: L.Desk, b: Books, q: X.Request, id: string, day: int)
    requires L.Stands(d, b.rows)
    ensures L.Stands(d, X.Payout(b, q, id, day).rows)
  {
    LoansSeeTransfer(d, b, X.Payer(q), q.initiator, q.amount, ExchangeOut, ExchangeIn, ExchangeKey(id), Some(day));
  }

  lemma RefreshKeeps(w: World, id: string, now: int)
    requires Together(w) && id in w.loans.loans && !OverLimit(w.loans.loans[id], now)
    ensures Together(LoanRefreshed(w, id, now))
  {
    hide L.Stands, X.Stands, Replays;
    B.RefreshStands(w.loans, w.books.rows, id, now);
  }

  lemma CreatingKeeps(w: World, now: int, borrower: Subject, lenderId: string, terms: L.Terms, key: string,
      bound: bool, newId: string)
    requires Together(w)
    ensures Together(Creating(w, now, borrower, lenderId, terms, key, bound, newId))
  {
    hide L.Stands, X.Stands, Replays, L.Admits;
    if L.MayCreate(w.loans, borrower, terms, key, bound, now) && newId !in w.loans.loans {
      B.CreateStands(w.loans, w.books.rows, borrower, if borrower.Human? then Ai(lenderId) else Human(lenderId),
        terms, key, newId, now);
    } else if (borrower, key) in w.loans.operations {
      var id := w.loans.operations[(borrower, key)].loan;
      if L.Answerable(w.loans, id, borrower, key, L.Create, now) {
        RefreshKeeps(w, id, now);
      }
    }
  }

  lemma CounteringKeeps(w: World, now: int, id: string, actor: Subject, revision: nat, terms: L.Terms, key: string,
      boundTo: Option<string>)
    requires Together(w)
    ensures Together(Countering(w, now, id, actor, revision, terms, key, boundTo))
  {
    hide L.Stands, X.Stands, Replays;
    if L.MayCounter(w.loans, id, actor, revision, terms, key, boundTo, now) {
      B.CounterStands(w.loans, w.books.rows, id, w.loans.loans[id], actor, terms, key, now);
    } else if L.Answerable(w.loans, id, actor, key, L.Counter, now) {
      RefreshKeeps(w, id, now);
    }
  }

  lemma AcceptingKeeps(w: World, now: int, id: string, actor: Subject, revision: nat, key: string,
      boundTo: Option<string>)
    requires Together(w)
    ensures Together(Accepting(w, now, id, actor, revision, key, boundTo))
    ensures Beyond(Accepting(w, now, id, actor, revision, key, boundTo).books) == Beyond(w.books)
  {
    hide L.Stands, X.Stands, Replays, B.Lent, Beyond;
    if L.MayAccept(w.loans, w.books, id, actor, revision, key, boundTo, now) {
      var l, t := w.loans.loans[id], w.loans.revisions[(id, revision)].terms;
      var v := Accepting(w, now, id, actor, revision, key, boundTo);
      B.AcceptStands(w.loans, w.books, id, l, actor, t, Balance(w.books, l.borrower), key, now);
      B.AgreesConserves(w.loans, w.books, v.loans, v.books, id, actor, revision, key, now);
      LoansSpareExchanges(w.exchanges, w.books, id, l, t.principal, key);
    } else if L.Answerable(w.loans, id, actor, key, L.Accept, now) {
      RefreshKeeps(w, id, now);
    }
  }

  lemma ClosingKeeps(w: World, now: int, id: string, actor: Subject, action: L.Action, revision: nat, key: string)
    requires Together(w)
    ensures Together(Closing(w, now, id, actor, action, revision, key))
  {
    hide L.Stands, X.Stands, Replays;
    if L.MayClose(w.loans, id, actor, action, revision, key, now) {
      B.CloseStands(w.loans, w.books.rows, id, actor, action, key);
    }
  }

  lemma RepayingKeeps(w: World, now: int, id: string, actor: Subject, amount: int, key: string)
    requires Together(w)
    ensures Together(Repaying(w, now, id, actor, amount, key))
    ensures Beyond(Repaying(w, now, id, actor, amount, key).books) == Beyond(w.books)
  {
    hide L.Stands, X.Stands, Replays, B.Returned, L.Payback, Beyond;
    if L.MayRepay(w.loans, w.books, id, actor, amount, key, now) {
      var v := Repaying(w, now, id, actor, amount, key);
      B.SettleStands(w.loans, w.books, v.loans, v.books, id, actor, amount, key, now);
      B.SettlesConserves(w.loans, w.books, v.loans, v.books, id, actor, amount, key, now);
      LoansSpareExchanges(w.exchanges, w.books, id, w.loans.loans[id], amount, key);
    } else if L.Answerable(w.loans, id, actor, key, L.Action.RepayLoan, now) {
      RefreshKeeps(w, id, now);
    }
  }

  lemma ExpiringKeeps(w: World, now: int)
    requires Together(w)
    ensures Together(Expiring(w, now))
  {
    hide L.Stands, X.Stands, Replays;
    X.ExpiryStands(w.exchanges, w.books.rows, now);
  }

  lemma AskingKeeps(w: World, now: int, initiator: Subject, counterpart: string, amount: int, key: string,
      bound: bool, newId: string)
    requires Together(w)
    ensures Together(Asking(w, now, initiator, counterpart, amount, key, bound, newId))
  {
    hide L.Stands, X.Stands, Replays, X.PendingOf;
    ExpiringKeeps(w, now);
    if X.MayCreate(w.exchanges, initiator, counterpart, amount, key, bound, now) && newId !in w.exchanges.requests {
      var d, q := Expiring(w, now).exchanges, X.Asked(initiator, counterpart, amount, now);
      X.CreatedStands(d, w.books.rows, newId, q);
      X.OperationsDoNotMatter(d.(requests := d.requests[newId := q]), w.books.rows,
                              d.operations[(initiator, key) := X.Operation(X.CreateRequest, newId)]);
    }
  }

  lemma ConfirmingKeeps(w: World, now: int, id: string, actor: Subject, key: string, boundTo: Option<string>, day: int)
    requires Together(w)
    ensures Together(Confirming(w, now, id, actor, key, boundTo, day))
    ensures Beyond(Confirming(w, now, id, actor, key, boundTo, day).books) == Beyond(w.books)
  {
    hide L.Stands, X.Stands, Replays, X.Payout, X.Spent, Beyond;
    var v := Confirming(w, now, id, actor, key, boundTo, day);
    if X.MayConfirm(w.exchanges, w.books, id, actor, key, boundTo, day, now) {
      X.PaysStands(w.exchanges, w.books, id, actor, key, day, now);
      X.PaysConserves(w.exchanges, w.books, v.exchanges, v.books, id, actor, key, boundTo, day, now);
      ExchangesSpareLoans(w.loans, w.books, w.exchanges.requests[id], id, day);
    } else if X.MaySettle(w.exchanges, id, actor, key, now) {
      X.CloseStands(w.exchanges, w.books.rows, id, X.Lapsed, now);
    }
    ExpiringKeeps(w, now);
  }

  lemma ClosingAskKeeps(w: World, now: int, id: string, actor: Subject, action: X.Action, key: string,
      boundTo: Option<string>)
    requires Together(w)
    ensures Together(ClosingAsk(w, now, id, actor, action, key, boundTo))
  {
    hide L.Stands, X.Stands, Replays, X.Expired;
    if X.MayClose(w.exchanges, id, actor, action, key, now) {
      X.CloseStands(w.exchanges, w.books.rows, id, X.Lapsed, now);
      X.CloseStands(w.exchanges, w.books.rows, id, X.ClosedAs(action), now);
      X.OperationsDoNotMatter(X.WithStatus(w.exchanges, id, X.ClosedAs(action), now), w.books.rows,
                              w.exchanges.operations[(actor, key) := X.Operation(action, id)]);
    }
    ExpiringKeeps(w, now);
  }

  lemma OpeningKeeps(w: World, owner: Subject)
    requires Together(w)
    ensures Together(w.(books := Opened(w.books, owner))) && Beyond(Opened(w.books, owner)) == Beyond(w.books)
  {
    hide L.Stands, X.Stands, X.Spent, Replays, SumBalances;
    OpenedReplays(w.books, owner);
    OpeningAddsInitialBalance(w.books, owner);
    LoansSeeOpening(w.loans, w.books, owner);
    X.OpenedStands(w.exchanges, w.books, owner);
  }

  /** One row that belongs to neither desk. */
  lemma OrdinaryRowKeeps(w: World, c: Books, row: Row)
    requires Together(w) && Replays(c) && c.rows == w.books.rows + [row] && c.wallets.Keys == w.books.wallets.Keys
    requires row.owner in w.books.wallets && row.kind != ExchangeOut
    requires row.key.Some? ==>
      !row.key.value.ExchangeKey? && !row.key.value.LoanPrincipalKey? && !row.key.value.LoanRepaymentKey?
    ensures Together(w.(books := c)) && Beyond(c) == Beyond(w.books) + row.amount
  {
    hide L.Stands, X.Stands, Replays, SumBalances;
    PostedAdds(w.books, c, row);
    L.OtherRowStands(w.loans, w.books.rows, row);
    X.OtherRowStands(w.exchanges, w.books.rows, row);
  }

  /** Chips an operation brings into existence, opening balances aside. */
  function Minted(w: World, op: Op): int {
    match op
    case Change(owner, amount, kind, key, _) =>
      if Ordinary(kind, key) && !(key.Some? && Taken(Opened(w.books, owner).rows, owner, key.value)) then amount else 0
    case GoBankrupt(owner, _) =>
      if Balance(w.books, owner) <= BANKRUPTCY_THRESHOLD && owner in w.books.wallets
      then BANKRUPTCY_RESET_BALANCE - Balance(w.books, owner) else 0
    case _ => 0
  }

  lemma ChangingKeeps(w: World, owner: Subject, amount: int, kind: Kind, key: Option<LedgerKey>, day: Option<int>)
    requires Together(w)
    ensures var v := Changing(w, owner, amount, kind, key, day);
      Together(v) && Beyond(v.books) == Beyond(w.books) + Minted(w, Change(owner, amount, kind, key, day))
  {
    hide L.Stands, X.Stands, Replays, Taken, Beyond, Opened;
    OpeningKeeps(w, owner);
    OpenedReplays(w.books, owner);
    var open := Opened(w.books, owner);
    if Ordinary(kind, key) && !(key.Some? && Taken(open.rows, owner, key.value)) && amount != 0 {
      var c := Changed(open, owner, amount, kind, key, day);
      ChangedReplays(open, owner, amount, kind, key, day);
      OrdinaryRowKeeps(w.(books := open), c, c.rows[|open.rows|]);
    }
  }

  lemma FailingKeeps(w: World, owner: Subject, today: int)
    requires Together(w)
    ensures var v := Failing(w, owner, today);
      Together(v) && Beyond(v.books) == Beyond(w.books) + Minted(w, GoBankrupt(owner, today))
  {
    hide L.Stands, X.Stands, Replays, Beyond;
    if Balance(w.books, owner) <= BANKRUPTCY_THRESHOLD && owner in w.books.wallets {
      var c := Bankrupted(w.books, owner, today);
      BankruptedReplays(w.books, owner, today);
      OrdinaryRowKeeps(w, c, c.rows[|w.books.rows|]);
    }
  }

  lemma BooksUntouched(w: World, now: int, op: Op)
    requires op.CreateLoan? || op.CounterLoan? || op.CloseProposal? || op.Ask? || op.Close?
    ensures Do(w, now, op).books == w.books
  {
  }

  /** Whatever the operation and whoever it belongs to: the ledger still replays,
      loans and exchanges both stand, and only earnings and resets make chips. */
  lemma DoKeeps(w: World, now: int, op: Op)
    requires Together(w)
    ensures Together(Do(w, now, op)) && Beyond(Do(w, now, op).books) == Beyond(w.books) + Minted(w, op)
  {
    hide Together, Beyond, Creating, Countering, Accepting, Closing, Repaying, Asking, Confirming, ClosingAsk, Changing,
      Failing;
    match op
    case CreateLoan(borrower, lenderId, terms, key, bound, newId) =>
      CreatingKeeps(w, now, borrower, lenderId, terms, key, bound, newId);
      BooksUntouched(w, now, op);
    case CounterLoan(id, actor, revision, terms, key, boundTo) =>
      CounteringKeeps(w, now, id, actor, revision, terms, key, boundTo);
      BooksUntouched(w, now, op);
    case AcceptLoan(id, actor, revision, key, boundTo) => AcceptingKeeps(w, now, id, actor, revision, key, boundTo);
    case CloseProposal(id, actor, action, revision, key) =>
      ClosingKeeps(w, now, id, actor, action, revision, key);
      BooksUntouched(w, now, op);
    case RepayLoan(id, actor, amount, key) => RepayingKeeps(w, now, id, actor, amount, key);
    case Look(id, actor) =>
      if id in w.loans.loans && !OverLimit(w.loans.loans[id], now) {
        RefreshKeeps(w, id, now);
      }
    case Ask(initiator, counterpart, amount, key, bound, newId) =>
      AskingKeeps(w, now, initiator, counterpart, amount, key, bound, newId);
      BooksUntouched(w, now, op);
    case Confirm(id, actor, key, boundTo, day) => ConfirmingKeeps(w, now, id, actor, key, boundTo, day);
    case Close(id, actor, action, key, boundTo) =>
      ClosingAskKeeps(w, now, id, actor, action, key, boundTo);
      BooksUntouched(w, now, op);
    case Expire => ExpiringKeeps(w, now);
    case Open(owner) => OpeningKeeps(w, owner);
    case Change(owner, amount, kind, key, day) => ChangingKeeps(w, owner, amount, kind, key, day);
    case GoBankrupt(owner, today) => FailingKeeps(w, owner, today);
  }

  // ----- runs -----

  function MintedBy(w: World, ops: Script): int {
    if ops == [] then 0
    else MintedBy(w, ops[..|ops| - 1]) + Minted(Run(w, ops[..|ops| - 1]), ops[|ops| - 1].1)
  }

  /** Over every run of chip, loan and exchange operations together: the ledger
      replays, every loan and every request stands, and the chips beyond opening
      balances are those the faucets made. */
  lemma {:induction false} RunsStayTogether(w: World, ops: Script)
    requires Together(w)
    ensures Together(Run(w, ops)) && Beyond(Run(w, ops).books) == Beyond(w.books) + MintedBy(w, ops)
  {
    hide Together, Beyond, Minted, Do;
    if ops != [] {
      var front, last := ops[..|ops| - 1], ops[|ops| - 1];
      RunsStayTogether(w, front);
      DoKeeps(Run(w, front), last.0, last.1);
    }
  }

  /** The tables before anything happened. */
  function Nothing(): World {
    World(L.Desk(map[], map[], map[]), X.Desk(map[], map[]), Books(map[], [], {}))
  }

  lemma EmptyStandsTogether()
    ensures Together(Nothing())
  {
    forall b: Subject ensures |L.OpenLoans(map[], b)| <= L.MAX_OPEN_LOANS {
      assert L.OpenLoans(map[], b) == {};
    }
    forall pair: (string, string) ensures |X.PendingOf(map[], pair)| <= X.MAX_PENDING_PER_PAIR {
      assert X.PendingOf(map[], pair) == {};
    }
  }

  /** From nothing on, the chips in existence are 200 for every wallet and what the
      faucets made. */
  lemma ChipsInExistence(ops: Script)
    ensures var books := Run(Nothing(), ops).books;
      SumBalances(books.wallets) == 200 * |books.wallets| + MintedBy(Nothing(), ops)
  {
    EmptyStandsTogether();
    RunsStayTogether(Nothing(), ops);
  }

  predicate SameKey(a: Row, b: Row) {
    a.key.Some? && a.key == b.key
  }

  lemma KeysAreUsedOnce(rows: seq<Row>, i: nat, j: nat)
    requires Audited(rows) && i < j < |rows| && SameKey(rows[i], rows[j])
    ensures rows[i].owner != rows[j].owner
  {
    hide Audited;
    RowsShowPrefixSums(rows, j);
    assert rows[..j][i] == rows[i];
  }

  /** What anyone may rely on after any run: a request is paid exactly when it is
      completed, no wallet ever uses a ledger key twice, nobody pays more than 100
      chips a day for exchanges or has more than three loans open, no pair has more
      than three requests waiting, and every balance is the sum of its ledger rows. */
  lemma LedgerPromises(w: World, ops: Script)
    requires Together(w)
    ensures var v := Run(w, ops);
      && (forall id :: id in v.exchanges.requests ==>
            var q := v.exchanges.requests[id];
            (Taken(v.books.rows, if q.initiator.Human? then Ai(q.ai) else Human(q.human), ExchangeKey(id)) <==>
             q.status == X.Completed))
      && (forall i, j :: 0 <= i < j < |v.books.rows| && SameKey(v.books.rows[i], v.books.rows[j]) ==>
            v.books.rows[i].owner != v.books.rows[j].owner)
      && (forall s: Subject, day: int :: X.Spent(v.books.rows, s, day) <= 100)
      && (forall b: Subject :: |L.OpenLoans(v.loans.loans, b)| <= 3)
      && (forall human, ai :: |X.PendingOf(v.exchanges.requests, (human, ai))| <= 3)
      && (forall s :: s in v.books.wallets ==> v.books.wallets[s].balance == SumWithin(v.books.rows, {s}))
  {
    hide Run, Taken, X.Spent, L.OpenLoans, X.PendingOf, SumWithin, Audited;
    RunsStayTogether(w, ops);
    var v := Run(w, ops);
    forall id | id in v.exchanges.requests
      ensures Taken(v.books.rows, X.Payer(v.exchanges.requests[id]), ExchangeKey(id)) <==>
              v.exchanges.requests[id].status == X.Completed
    {
      X.PaidExactlyWhenCompleted(v.exchanges, v.books.rows, id);
    }
    forall i, j | 0 <= i < j < |v.books.rows| && SameKey(v.books.rows[i], v.books.rows[j])
      ensures v.books.rows[i].owner != v.books.rows[j].owner
    {
      KeysAreUsedOnce(v.books.rows, i, j);
    }
  }

  // ----- one loan inside a run -----

  /** A settlement batch of another component, all its rows at once. */
  lemma {:induction false} SettlementSparesDesks(w: World, rows: seq<Row>, room: string)
    requires L.Stands(w.loans, w.books.rows) && X.Stands(w.exchanges, w.books.rows)
    requires SettledOnly(w.books.rows, rows, room)
    ensures L.Stands(w.loans, rows) && X.Stands(w.exchanges, rows)
    decreases |rows|
  {
    hide L.Stands, X.Stands;
    if |rows| == |w.books.rows| {
      assert rows == w.books.rows;
    } else {
      var front, last := rows[..|rows| - 1], rows[|rows| - 1];
      SettlementSparesDesks(w, front, room);
      assert SettlementRow(rows[|rows| - 1], room) && rows == front + [last];
      L.OtherRowStands(w.loans, front, last);
      X.OtherRowStands(w.exchanges, front, last);
    }
  }

  /** What an operation is to one accepted loan: nothing, a look, or a payment. */
  function Felt(w: World, now: int, op: Op, id: string): seq<Event>
    requires id in w.loans.loans
  {
    match op
    case CreateLoan(borrower, _, terms, key, bound, newId) =>
      if L.MayCreate(w.loans, borrower, terms, key, bound, now) && newId !in w.loans.loans then
        if w.loans.loans[id].borrower == borrower then [Event.Look(now)] else []
      else if bound && L.TermsStorable(terms) && L.DueDateAllowed(terms.dueDate, now)
        && (borrower, key) in w.loans.operations
              && w.loans.operations[(borrower, key)].loan == id
                && L.Answerable(w.loans, id, borrower, key, L.Create, now) then
        [Event.Look(now)]
      else []
    case CounterLoan(loan, actor, _, terms, key, _) =>
      if loan == id && L.TermsStorable(terms) && L.DueDateAllowed(terms.dueDate, now)
         && L.Answerable(w.loans, id, actor, key, L.Counter, now) then [Event.Look(now)]
      else []
    case AcceptLoan(loan, actor, _, key, _) =>
      if loan == id && L.Answerable(w.loans, id, actor, key, L.Accept, now) then [Event.Look(now)] else []
    case RepayLoan(loan, actor, amount, key) =>
      if loan != id then []
      else if L.MayRepay(w.loans, w.books, id, actor, amount, key, now) then
        [Pay(now, amount, Balance(w.books, w.loans.loans[id].borrower), Balance(w.books, w.loans.loans[id].lender))]
      else if 0 < amount <= MAX_SQLITE_INTEGER && L.Answerable(w.loans, id, actor, key, L.Action.RepayLoan, now) then
        [Event.Look(now)]
      else []
    case Look(loan, actor) =>
      if loan == id && L.Party(w.loans.loans[id], actor) then [Event.Look(now)] else []
    case _ => []
  }

  lemma OneEvent(l: Loan, e: Event)
    ensures Play(l, [e]) == After(l, e) && Play(l, []) == l
  {
    assert [e][..0] == [];
  }

  lemma CreatingPlays(w: World, now: int, op: Op, id: string)
    requires op.CreateLoan? && id in w.loans.loans && Accepted(w.loans.loans[id].status)
    ensures var v := Do(w, now, op).loans.loans;
      id in v && Accepted(v[id].status) && v[id] == Play(w.loans.loans[id], Felt(w, now, op, id))
  {
    OneEvent(w.loans.loans[id], Event.Look(now));
  }

  lemma AnsweringPlays(w: World, now: int, op: Op, id: string)
    requires (op.CounterLoan? || op.AcceptLoan? || op.CloseProposal?) && id in w.loans.loans
      && Accepted(w.loans.loans[id].status)
    ensures var v := Do(w, now, op).loans.loans;
      id in v && Accepted(v[id].status) && v[id] == Play(w.loans.loans[id], Felt(w, now, op, id))
  {
    hide HandedOver;
    OneEvent(w.loans.loans[id], Event.Look(now));
  }

  lemma RepayingPlays(w: World, now: int, op: Op, id: string)
    requires op.RepayLoan? && id in w.loans.loans && Accepted(w.loans.loans[id].status)
    ensures var v := Do(w, now, op).loans.loans;
      id in v && Accepted(v[id].status) && v[id] == Play(w.loans.loans[id], Felt(w, now, op, id))
  {
    hide HandedOver;
    var l := w.loans.loans[id];
    OneEvent(l, Event.Look(now));
    OneEvent(l, Pay(now, op.amount, Balance(w.books, l.borrower), Balance(w.books, l.lender)));
  }

  lemma LookingPlays(w: World, now: int, op: Op, id: string)
    requires op.Look? && id in w.loans.loans && Accepted(w.loans.loans[id].status)
    ensures var v := Do(w, now, op).loans.loans;
      id in v && Accepted(v[id].status) && v[id] == Play(w.loans.loans[id], Felt(w, now, op, id))
  {
    OneEvent(w.loans.loans[id], Event.Look(now));
  }

  lemma OtherOpsSpareLoans(w: World, now: int, op: Op)
    requires op.Ask? || op.Confirm? || op.Close? || op.Expire? || op.Open? || op.Change? || op.GoBankrupt?
    ensures Do(w, now, op).loans == w.loans
  {
  }

  /** An accepted loan changes by what the operation is to it, and by nothing else. */
  lemma OneLoanPlays(w: World, now: int, op: Op, id: string)
    requires id in w.loans.loans && Accepted(w.loans.loans[id].status)
    ensures id in Do(w, now, op).loans.loans
    ensures Accepted(Do(w, now, op).loans.loans[id].status)
    ensures Do(w, now, op).loans.loans[id] == Play(w.loans.loans[id], Felt(w, now, op, id))
  {
    hide Creating, Countering, Accepting, Closing, Repaying, Looking, Asking, Confirming, ClosingAsk, Changing, Failing;
    match op
    case CreateLoan(borrower, lenderId, terms, key, bound, newId) => CreatingPlays(w, now, op, id);
    case CounterLoan(_, _, _, _, _, _) => AnsweringPlays(w, now, op, id);
    case AcceptLoan(_, _, _, _, _) => AnsweringPlays(w, now, op, id);
    case CloseProposal(_, _, _, _, _) => AnsweringPlays(w, now, op, id);
    case RepayLoan(_, _, _, _) => RepayingPlays(w, now, op, id);
    case Look(_, _) => LookingPlays(w, now, op, id);
    case _ => OtherOpsSpareLoans(w, now, op);
  }

  /** All of that, over a run. */
  function FeltBy(w: World, ops: Script, id: string): seq<Event> {
    if ops == [] then []
    else
      var front, last := ops[..|ops| - 1], ops[|ops| - 1];
      var v := Run(w, front);
      FeltBy(w, front, id) + (if id in v.loans.loans then Felt(v, last.0, last.1, id) else [])
  }

  ghost predicate Forward(start: int, ops: Script) {
    && (forall i :: 0 <= i < |ops| ==> start <= ops[i].0)
    && (forall i, j :: 0 <= i < j < |ops| ==> ops[i].0 <= ops[j].0)
  }

  function Later(start: int, ops: Script): int {
    if ops == [] then start else ops[|ops| - 1].0
  }

  lemma FeltIsOneEvent(w: World, now: int, op: Op, id: string)
    requires id in w.loans.loans
    ensures var es := Felt(w, now, op, id);
      |es| <= 1 && forall i :: 0 <= i < |es| ==> es[i].at == now && (es[i].Pay? ==> es[i].amount > 0)
  {
  }

  lemma PlayOneMore(l: Loan, es: seq<Event>, more: seq<Event>, start: int, now: int)
    requires InOrder(start, es) && EndTime(start, es) <= now && start <= now
    requires |more| <= 1 && forall i :: 0 <= i < |more| ==> more[i].at == now && (more[i].Pay? ==> more[i].amount > 0)
    ensures Play(l, es + more) == Play(Play(l, es), more)
    ensures InOrder(start, es + more) && EndTime(start, es + more) <= now
  {
    if more == [] {
      assert es + more == es;
    } else {
      assert (es + more)[..|es|] == es && more[..0] == [];
      assert Play(Play(l, es), more) == After(Play(l, es), more[0]);
      assert forall i :: 0 <= i < |es| ==> es[i].at <= es[|es| - 1].at;
    }
  }

  /** The history of an accepted loan inside a run of everything is exactly a
      history of looks and payments, in time order. */
  lemma {:induction false} LoanHistoryOfRun(w: World, ops: Script, id: string, start: int)
    requires id in w.loans.loans && Accepted(w.loans.loans[id].status) && Forward(start, ops)
    ensures var v, es := Run(w, ops), FeltBy(w, ops, id);
      && id in v.loans.loans && Accepted(v.loans.loans[id].status)
      && v.loans.loans[id] == Play(w.loans.loans[id], es)
      && InOrder(start, es) && EndTime(start, es) <= Later(start, ops)
  {
    hide Do, Felt;
    if ops != [] {
      var front, last := ops[..|ops| - 1], ops[|ops| - 1];
      LoanHistoryOfRun(w, front, id, start);
      var v := Run(w, front);
      OneLoanPlays(v, last.0, last.1, id);
      FeltIsOneEvent(v, last.0, last.1, id);
      PlayOneMore(w.loans.loans[id], FeltBy(w, front, id), Felt(v, last.0, last.1, id), start, last.0);
    }
  }

  lemma FreshFromAcceptance(w: World, at: int, id: string, actor: Subject, revision: nat, key: string,
      boundTo: Option<string>)
    requires Together(w) && L.MayAccept(w.loans, w.books, id, actor, revision, key, boundTo, at)
    ensures var v := Do(w, at, AcceptLoan(id, actor, revision, key, boundTo));
      && id in v.loans.loans && Fresh(v.loans.loans[id]) && Accepted(v.loans.loans[id].status)
      && v.loans.loans[id].lastAccrualAt == at
      && L.CarriesTerms(v.loans.loans[id], w.loans.revisions[(id, revision)].terms)
  {
    hide Replays, X.Stands, B.Lent, L.WithinLimit, L.KeysExplained;
    var l, t := w.loans.loans[id], w.loans.revisions[(id, revision)].terms;
    assert L.Consented(id, l, w.loans.revisions);
    B.ActivatedIsFresh(id, l, w.loans.revisions, t, Balance(w.books, l.borrower), at);
  }

  /** From acceptance on, whatever chip, loan and exchange operations follow: the
      lifetime interest of the loan is the floor of principal * rate * seconds
      summed over its segments, at most the principal when capped. */
  lemma AgreedLoansOweExactly(w: World, at: int, id: string, actor: Subject, revision: nat, key: string,
      boundTo: Option<string>, ops: Script, now: int)
    requires Together(w) && L.MayAccept(w.loans, w.books, id, actor, revision, key, boundTo, at)
    requires Forward(at, ops) && Later(at, ops) <= now
    ensures var v := Do(w, at, AcceptLoan(id, actor, revision, key, boundTo)); var end := Run(v, ops);
      && id in v.loans.loans && id in end.loans.loans
      && var l, shown := v.loans.loans[id], Refreshed(end.loans.loans[id], now);
         var work, t := Work(l, FeltBy(v, ops, id), now), w.loans.revisions[(id, revision)].terms;
         && l.remainingPrincipal == l.originalPrincipal == t.principal && l.dailyRate == t.dailyRate
         && l.capEnabled == t.capEnabled && l.dueDate == t.dueDate
         && shown.interestPaid + shown.accruedInterest
              == (if t.capEnabled then Min(t.principal, work / 8_640_000_000_000) else work / 8_640_000_000_000)
         && shown.interestRemainder
              == (if t.capEnabled && work >= t.principal * 8_640_000_000_000 then 0 else work % 8_640_000_000_000)
  {
    hide Do, Run, FeltBy, Work, Play;
    var v := Do(w, at, AcceptLoan(id, actor, revision, key, boundTo));
    FreshFromAcceptance(w, at, id, actor, revision, key, boundTo);
    LoanHistoryOfRun(v, ops, id, at);
    LifetimeInterestIsExact(v.loans.loans[id], FeltBy(v, ops, id), now);
  }
}
