/** One accepted loan: interest accrual, refresh and repayment (app/loans.py).

    Interest is counted in integer micro-percent per day.  A refresh charges
    whole chips and carries what is left over, in units of 1/DENOMINATOR chip,
    to the next refresh.  The specification below never mentions that carry:
    it is written over `Exact`, the lifetime interest of the loan as one exact
    fraction, and the row-level code is proved to follow it. */
module Accrual {
  import opened Common
  const DENOMINATOR: int := 100_000_000 * 86_400

  datatype Status = Negotiating | Active | Overdue | Repaid | Rejected | Withdrawn | Expired

  /** A row of the loans table.  Money columns are 0 until the loan is accepted. */
  datatype Loan = Loan(
    borrower: Subject, lender: Subject, status: Status,
    currentRevision: nat, acceptedRevision: Option<nat>,
    awaiting: Option<Subject>, counterCount: nat, proposalExpiresAt: int,
    originalPrincipal: int, remainingPrincipal: int, dailyRate: int,
    capEnabled: bool, dueDate: int,
    accruedInterest: int, interestRemainder: int,
    interestPaid: int, principalPaid: int, borrowerBalanceAtAccept: int,
    lastAccrualAt: int, capReachedAt: Option<int>, repaidAt: Option<int>)

  predicate Accepted(status: Status) {
    status in {Active, Overdue, Repaid}
  }

  predicate Running(status: Status) {
    status in {Active, Overdue}
  }

  /** What holds of every accepted loan between operations. */
  ghost predicate LifeCycle(l: Loan) {
    && Accepted(l.status)
    && l.originalPrincipal > 0 && l.dailyRate >= 0
    && l.principalPaid >= 0 && l.remainingPrincipal >= 0
    && l.principalPaid + l.remainingPrincipal == l.originalPrincipal
    && (Running(l.status) <==> l.remainingPrincipal > 0)
    && 0 <= l.accruedInterest <= MAX_SQLITE_INTEGER
    && 0 <= l.interestPaid
    && 0 <= l.interestRemainder < DENOMINATOR
    && (l.remainingPrincipal == 0 ==> l.accruedInterest == 0)
    && (l.capEnabled ==>
          && l.interestPaid + l.accruedInterest <= l.originalPrincipal
          && (l.capReachedAt.Some? <==> l.interestPaid + l.accruedInterest == l.originalPrincipal)
          && (l.capReachedAt.Some? ==> l.interestRemainder == 0))
    && (!l.capEnabled ==> l.capReachedAt.None?)
  }

  function Elapsed(l: Loan, now: int): int {
    Max(0, now - l.lastAccrualAt)
  }

  /** Interest earned by the current principal over some seconds, in fractions. */
  function Growth(l: Loan, seconds: int): int {
    (l.remainingPrincipal * l.dailyRate) * seconds
  }

  function Capped(l: Loan, fractions: int): int {
    if l.capEnabled then Min(fractions, l.originalPrincipal * DENOMINATOR) else fractions
  }

  /** Lifetime interest at `now`, exact, in units of 1/DENOMINATOR chip. */
  function Exact(l: Loan, now: int): int {
    Capped(l, (l.interestPaid + l.accruedInterest) * DENOMINATOR + l.interestRemainder + Growth(l, Elapsed(l, now)))
  }

  /** The row after interest was brought up to `now`: one division of `Exact`. */
  function Accrued(l: Loan, now: int): Loan {
    if Elapsed(l, now) == 0 then l
    else
      var exact := Exact(l, now);
      l.(accruedInterest := exact / DENOMINATOR - l.interestPaid,
         interestRemainder := exact % DENOMINATOR,
         lastAccrualAt := now,
         capReachedAt := if l.capEnabled && l.capReachedAt.None? && exact == l.originalPrincipal * DENOMINATOR
                         then Some(now) else l.capReachedAt)
  }

  /** The row `_refresh_one` leaves, storage limit aside. */
  function Refreshed(l: Loan, now: int): Loan {
    if l.status == Negotiating then
      if l.proposalExpiresAt <= now then l.(status := Expired, awaiting := None) else l
    else if !Running(l.status) then l
    else Accrued(l, now).(status := if ShanghaiDay(now) > l.dueDate then Overdue else l.status)
  }

  /** Uncapped interest beyond the integer column refuses the whole operation. */
  predicate OverLimit(l: Loan, now: int) {
    Running(l.status) && Refreshed(l, now).accruedInterest > MAX_SQLITE_INTEGER
  }

  // ----- arithmetic -----

  lemma DivideShifted(k: int, x: int)
    ensures (k * DENOMINATOR + x) / DENOMINATOR == k + x / DENOMINATOR
    ensures (k * DENOMINATOR + x) % DENOMINATOR == x % DENOMINATOR
  {
  }

  lemma DivideMonotone(x: int, y: int)
    requires x <= y
    ensures x / DENOMINATOR <= y / DENOMINATOR
  {
  }

  lemma GrowthSplits(l: Loan, a: int, b: int)
    ensures Growth(l, a + b) == Growth(l, a) + Growth(l, b)
  {
    var k := l.remainingPrincipal * l.dailyRate;
    assert k * (a + b) == k * a + k * b;
  }

  lemma GrowthNonNegative(l: Loan, seconds: int)
    requires l.remainingPrincipal >= 0 && l.dailyRate >= 0 && seconds >= 0
    ensures Growth(l, seconds) >= 0
  {
    assert l.remainingPrincipal * l.dailyRate >= 0;
  }

  /** Later interest is earlier interest plus principal * rate * seconds in
      between, cut at the principal when capped. */
  lemma ExactAdvances(l: Loan, t0: int, t1: int)
    requires LifeCycle(l) && l.lastAccrualAt <= t0 <= t1
    ensures Exact(l, t1) == Capped(l, Exact(l, t0) + l.remainingPrincipal * l.dailyRate * (t1 - t0))
    ensures Exact(l, t0) <= Exact(l, t1)
  {
    GrowthSplits(l, t0 - l.lastAccrualAt, t1 - t0);
    GrowthNonNegative(l, t1 - t0);
  }

  /** At the last accrual the exact interest is what the columns hold: the cap
      has already been cut off there. */
  lemma ExactAtRest(l: Loan)
    requires LifeCycle(l)
    ensures Exact(l, l.lastAccrualAt) == (l.interestPaid + l.accruedInterest) * DENOMINATOR + l.interestRemainder
  {
    if l.capEnabled {
      var life := l.interestPaid + l.accruedInterest;
      if life < l.originalPrincipal {
        assert (life + 1) * DENOMINATOR <= l.originalPrincipal * DENOMINATOR;
      }
    }
  }

  /** What a refresh at `now` shows: whole chips, carry, cap and untouched columns. */
  lemma AccruedShows(l: Loan, now: int)
    requires LifeCycle(l) && l.lastAccrualAt <= now
    ensures var r := Accrued(l, now);
      && r.interestPaid + r.accruedInterest == Exact(l, now) / DENOMINATOR
      && r.interestRemainder == Exact(l, now) % DENOMINATOR
      && r.lastAccrualAt == now
      && r.accruedInterest >= l.accruedInterest
      && (r.accruedInterest <= MAX_SQLITE_INTEGER && Running(l.status) ==> LifeCycle(r))
  {
    ExactAtRest(l);
    DivideShifted(l.interestPaid + l.accruedInterest, l.interestRemainder);
    ExactAdvances(l, l.lastAccrualAt, now);
    DivideMonotone(Exact(l, l.lastAccrualAt), Exact(l, now));
    if l.capEnabled {
      DivideMonotone(Exact(l, now), l.originalPrincipal * DENOMINATOR);
      DivideShifted(l.originalPrincipal, 0);
    }
  }

  /** What a refresh charges, to the last fraction: the lifetime interest in units
      of 1/8,640,000,000,000 chip grows by principal * micro-percent * seconds, up
      to the principal when capped; past the due day in Shanghai the loan is overdue. */
  lemma RefreshCharges(l: Loan, now: int)
    requires LifeCycle(l) && Running(l.status) && l.lastAccrualAt <= now
    ensures var r := Refreshed(l, now);
      var before := (l.interestPaid + l.accruedInterest) * 8_640_000_000_000 + l.interestRemainder;
      var earned := before + l.remainingPrincipal * l.dailyRate * (now - l.lastAccrualAt);
      var ceiling := l.originalPrincipal * 8_640_000_000_000;
      && (r.interestPaid + r.accruedInterest) * 8_640_000_000_000 + r.interestRemainder
           == (if l.capEnabled && earned > ceiling then ceiling else earned)
      && 0 <= r.interestRemainder < 8_640_000_000_000
      && (r.status == Overdue <==> l.status == Overdue || (now + 28_800) / 86_400 > l.dueDate)
      && (r.capReachedAt.Some? <==> l.capEnabled && earned >= ceiling)
      && r == l.(status := r.status, accruedInterest := r.accruedInterest, interestRemainder := r.interestRemainder,
                 capReachedAt := r.capReachedAt, lastAccrualAt := now)
  {
    AccruedShows(l, now);
    ExactAtRest(l);
  }
}

/** Repayment, and what any history of refreshes and repayments amounts to. */
module LoanHistory {
  import opened Common
  import opened Accrual

  datatype Refusal = NotRunning | MoreThanDue | WalletTooSmall | LenderOverflow | InterestOverflow | AccrualOverflow

  datatype Repayment = Refused(why: Refusal) | Applied(loan: Loan, interest: int, principal: int)

  function TotalDue(l: Loan): int {
    l.remainingPrincipal + l.accruedInterest
  }

  /** A repayment on a refreshed row, given what the two wallets hold. */
  function RepayRow(r: Loan, now: int, amount: int, borrowerBalance: int, lenderBalance: int): Repayment {
    if !Running(r.status) then Refused(NotRunning)
    else if amount > TotalDue(r) then Refused(MoreThanDue)
    else if borrowerBalance < amount then Refused(WalletTooSmall)
    else if lenderBalance + amount > MAX_SQLITE_INTEGER then Refused(LenderOverflow)
    else
      var interest := Min(amount, r.accruedInterest);
      if r.interestPaid + interest > MAX_SQLITE_INTEGER then Refused(InterestOverflow)
      else
        var settled := amount == TotalDue(r);
        Applied(
          r.(remainingPrincipal := Min(r.remainingPrincipal, TotalDue(r) - amount),
             accruedInterest := r.accruedInterest - interest,
             interestPaid := r.interestPaid + interest,
             principalPaid := r.principalPaid + (amount - interest),
             status := if settled then Status.Repaid else r.status,
             repaidAt := if settled then Some(now) else r.repaidAt),
          interest, amount - interest)
  }

  /** A repayment refreshes the loan first, in the same transaction. */
  function Repay(l: Loan, now: int, amount: int, borrowerBalance: int, lenderBalance: int): Repayment {
    if OverLimit(l, now) then Refused(AccrualOverflow)
    else RepayRow(Refreshed(l, now), now, amount, borrowerBalance, lenderBalance)
  }

  datatype Event =
    | Look(at: int)  // any refresh: get, list, an idempotent replay
    | Pay(at: int, amount: int, borrowerBalance: int, lenderBalance: int)

  function After(l: Loan, e: Event): Loan {
    match e
    case Look(at) => if OverLimit(l, at) then l else Refreshed(l, at)
    case Pay(at, amount, b, s) =>
      var out := Repay(l, at, amount, b, s);
      if out.Applied? then out.loan else l
  }

  function Play(l: Loan, es: seq<Event>): Loan {
    if es == [] then l else After(Play(l, es[..|es| - 1]), es[|es| - 1])
  }

  ghost predicate InOrder(start: int, es: seq<Event>) {
    && (forall i :: 0 <= i < |es| ==> start <= es[i].at)
    && (forall i, j :: 0 <= i < j < |es| ==> es[i].at <= es[j].at)
    && (forall i :: 0 <= i < |es| && es[i].Pay? ==> es[i].amount > 0)
  }

  function EndTime(start: int, es: seq<Event>): int {
    if es == [] then start else es[|es| - 1].at
  }

  // ----- the life cycle holds in every reachable state -----

  lemma RefreshKeeps(l: Loan, now: int)
    requires LifeCycle(l) && l.lastAccrualAt <= now && !OverLimit(l, now)
    ensures LifeCycle(Refreshed(l, now))
    ensures Refreshed(l, now).lastAccrualAt <= now
    ensures TotalDue(Refreshed(l, now)) >= TotalDue(l)
  {
    if Running(l.status) {
      AccruedShows(l, now);
    }
  }

  /** Interest goes first, the split adds up, and the life cycle survives. */
  lemma RepayKeeps(l: Loan, now: int, amount: int, b: int, s: int)
    requires LifeCycle(l) && l.lastAccrualAt <= now && amount > 0
    requires Repay(l, now, amount, b, s).Applied?
    ensures var out := Repay(l, now, amount, b, s); var r := Refreshed(l, now);
      && LifeCycle(out.loan)
      && out.loan.lastAccrualAt == r.lastAccrualAt <= now
      && out.interest + out.principal == amount
      && out.interest >= 0 && out.principal >= 0
      && (out.principal > 0 ==> out.loan.accruedInterest == 0)
      && out.loan.interestPaid + out.loan.accruedInterest == r.interestPaid + r.accruedInterest
      && out.loan.remainingPrincipal + out.loan.accruedInterest == r.remainingPrincipal + r.accruedInterest - amount
      && out.loan.remainingPrincipal == r.remainingPrincipal - out.principal
      && (out.loan.status == Status.Repaid <==> out.loan.remainingPrincipal + out.loan.accruedInterest == 0)
      && (out.loan.status != Status.Repaid ==> out.loan.status == r.status)
  {
    RefreshKeeps(l, now);
  }

  lemma StepKeeps(l: Loan, e: Event)
    requires LifeCycle(l) && l.lastAccrualAt <= e.at && (e.Pay? ==> e.amount > 0)
    ensures var r := After(l, e);
      && LifeCycle(r) && l.lastAccrualAt <= r.lastAccrualAt <= e.at
      && r.originalPrincipal == l.originalPrincipal && r.dailyRate == l.dailyRate
      && r.capEnabled == l.capEnabled && r.dueDate == l.dueDate
  {
    if After(l, e) != l {
      RefreshKeeps(l, e.at);
      if e.Pay? {
        RepayKeeps(l, e.at, e.amount, e.borrowerBalance, e.lenderBalance);
      }
    }
  }

  lemma {:induction false} PlayKeeps(l: Loan, es: seq<Event>)
    requires LifeCycle(l) && InOrder(l.lastAccrualAt, es)
    ensures LifeCycle(Play(l, es))
    ensures l.lastAccrualAt <= Play(l, es).lastAccrualAt <= EndTime(l.lastAccrualAt, es)
    ensures var p := Play(l, es);
      && p.originalPrincipal == l.originalPrincipal && p.dailyRate == l.dailyRate
      && p.capEnabled == l.capEnabled && p.dueDate == l.dueDate
  {
    if es != [] {
      var before, e := es[..|es| - 1], es[|es| - 1];
      PlayKeeps(l, before);
      StepKeeps(Play(l, before), e);
    }
  }

  /** A repaid loan is final: no later event changes anything. */
  lemma {:induction false} RepaidIsFinal(l: Loan, es: seq<Event>)
    requires l.status == Status.Repaid
    ensures Play(l, es) == l
  {
    if es != [] {
      RepaidIsFinal(l, es[..|es| - 1]);
    }
  }

  // ----- exact accrual -----

  /** Sum of principal * rate * seconds over all segments up to `now`. */
  function Work(l: Loan, es: seq<Event>, now: int): int {
    if es == [] then l.remainingPrincipal * l.dailyRate * (now - l.lastAccrualAt)
    else
      var e, p := es[|es| - 1], Play(l, es);
      Work(l, es[..|es| - 1], e.at) + p.remainingPrincipal * p.dailyRate * (now - e.at)
  }

  ghost predicate Fresh(l: Loan) {
    && LifeCycle(l) && l.accruedInterest == 0 && l.interestRemainder == 0
    && l.interestPaid == 0 && l.principalPaid == 0
  }

  lemma RefreshedKeepsExact(l: Loan, at: int)
    requires LifeCycle(l) && l.lastAccrualAt <= at && !OverLimit(l, at)
    ensures Exact(Refreshed(l, at), at) == Exact(l, at)
    ensures Running(l.status) ==> Refreshed(l, at).lastAccrualAt == at
  {
    RefreshKeeps(l, at);
    if Running(l.status) {
      AccruedShows(l, at);
      ExactAtRest(Refreshed(l, at));
    }
  }

  lemma AfterKeepsInstant(l: Loan, e: Event)
    requires LifeCycle(l) && l.lastAccrualAt <= e.at && (e.Pay? ==> e.amount > 0)
    ensures var r := After(l, e);
      && LifeCycle(r) && l.lastAccrualAt <= r.lastAccrualAt <= e.at
      && r.originalPrincipal == l.originalPrincipal && r.capEnabled == l.capEnabled
      && Exact(r, e.at) == Exact(l, e.at)
  {
    var r := After(l, e);
    StepKeeps(l, e);
    if r != l {
      RefreshedKeepsExact(l, e.at);
      if e.Pay? {
        RepayKeeps(l, e.at, e.amount, e.borrowerBalance, e.lenderBalance);
        if r.lastAccrualAt == e.at {
          ExactAtRest(r);
        }
      } else {
        RefreshKeeps(l, e.at);
      }
    }
  }

  /** Reading or repaying at `at` leaves the exact interest as it was. */
  lemma AfterKeepsExact(l: Loan, e: Event, now: int)
    requires LifeCycle(l) && l.lastAccrualAt <= e.at <= now
    requires e.Pay? ==> e.amount > 0
    ensures var r := After(l, e);
      && LifeCycle(r) && l.lastAccrualAt <= r.lastAccrualAt <= e.at
      && Exact(r, e.at) == Exact(l, e.at)
      && Exact(r, now) == Capped(l, Exact(l, e.at) + r.remainingPrincipal * r.dailyRate * (now - e.at))
  {
    hide After, LifeCycle, Exact;
    AfterKeepsInstant(l, e);
    ExactAdvances(After(l, e), e.at, now);
  }

  lemma CapTwice(l: Loan, x: int, y: int)
    requires y >= 0
    ensures Capped(l, Capped(l, x) + y) == Capped(l, x + y)
  {
  }

  lemma LastSegment(l: Loan, es: seq<Event>, now: int)
    requires InOrder(l.lastAccrualAt, es) && es != []
    ensures var before, e := es[..|es| - 1], es[|es| - 1];
      && InOrder(l.lastAccrualAt, before) && EndTime(l.lastAccrualAt, before) <= e.at && (e.Pay? ==> e.amount > 0)
      && Play(l, es) == After(Play(l, before), e)
      && Work(l, es, now) == Work(l, before, e.at) + Growth(Play(l, es), now - e.at)
  {
    hide After;
  }

  /** Whatever was read or repaid on the way, the interest a loan has earned by
      `now` is the sum of its segments, capped once: nothing is lost to rounding. */
  lemma {:induction false} ExactIsWork(l: Loan, es: seq<Event>, now: int)
    requires Fresh(l) && InOrder(l.lastAccrualAt, es) && EndTime(l.lastAccrualAt, es) <= now
    ensures Exact(Play(l, es), now) == Capped(l, Work(l, es, now))
  {
    if es == [] {
    } else {
      hide LifeCycle, After, Exact, Play, Work, InOrder, Growth;
      var before, e := es[..|es| - 1], es[|es| - 1];
      LastSegment(l, es, now);
      PlayKeeps(l, before);
      ExactIsWork(l, before, e.at);
      var p := Play(l, before);
      AfterKeepsExact(p, e, now);
      GrowthNonNegative(Play(l, es), now - e.at);
      CapTwice(l, Work(l, before, e.at), Growth(Play(l, es), now - e.at));
    }
  }

  /** What any accepted loan shows once brought up to date, running or repaid. */
  lemma RefreshedShows(l: Loan, now: int)
    requires LifeCycle(l) && l.lastAccrualAt <= now
    ensures var r := Refreshed(l, now);
      r.interestPaid + r.accruedInterest == Exact(l, now) / DENOMINATOR
        && r.interestRemainder == Exact(l, now) % DENOMINATOR
  {
    if Running(l.status) {
      AccruedShows(l, now);
    } else {
      assert Growth(l, Elapsed(l, now)) == 0 == Growth(l, 0);
      ExactAtRest(l);
      DivideShifted(l.interestPaid + l.accruedInterest, l.interestRemainder);
    }
  }

  /** The published rounding rule: lifetime interest is the floor of the exact
      sum, at most the principal when capped, and the carry is its remainder.
      For a repaid loan this is what it has cost in all. */
  lemma LifetimeInterestIsExact(l: Loan, es: seq<Event>, now: int)
    requires Fresh(l) && InOrder(l.lastAccrualAt, es) && EndTime(l.lastAccrualAt, es) <= now
    ensures var shown := Refreshed(Play(l, es), now); var w := Work(l, es, now);
      && shown.interestPaid + shown.accruedInterest
           == (if l.capEnabled then Min(l.originalPrincipal, w / 8_640_000_000_000) else w / 8_640_000_000_000)
      && shown.interestRemainder
           == (if l.capEnabled && w >= l.originalPrincipal * 8_640_000_000_000 then 0 else w % 8_640_000_000_000)
  {
    hide Play, Work, InOrder, Exact, Refreshed;
    PlayKeeps(l, es);
    ExactIsWork(l, es, now);
    RefreshedShows(Play(l, es), now);
    var w := Work(l, es, now);
    if l.capEnabled {
      DivideShifted(l.originalPrincipal, 0);
      if w >= l.originalPrincipal * DENOMINATOR {
        DivideMonotone(l.originalPrincipal * DENOMINATOR, w);
      } else {
        DivideMonotone(w, l.originalPrincipal * DENOMINATOR);
      }
    }
  }

  // ----- refresh transparency -----

  /** Equal rows, except for the instant at which the cap was first noticed. */
  ghost predicate Alike(a: Loan, b: Loan) {
    a.(capReachedAt := None) == b.(capReachedAt := None) && a.capReachedAt.Some? == b.capReachedAt.Some?
  }

  /** The rows show the same thing to every reader from `at` on. */
  ghost predicate SameFrom(a: Loan, b: Loan, at: int) {
    && LifeCycle(a) && LifeCycle(b) && a.lastAccrualAt <= at && b.lastAccrualAt <= at
    && Alike(Refreshed(a, at), Refreshed(b, at))
    && Running(a.status) == Running(b.status)
  }

  /** A refresh at `t0` is invisible to a refresh at `t1`. */
  lemma RefreshTwice(l: Loan, t0: int, t1: int)
    requires LifeCycle(l) && l.lastAccrualAt <= t0 <= t1 && !OverLimit(l, t0)
    ensures Alike(Refreshed(Refreshed(l, t0), t1), Refreshed(l, t1))
  {
    if Running(l.status) {
      var m := Refreshed(l, t0);
      AfterKeepsExact(l, Look(t0), t1);
      ExactAdvances(l, t0, t1);
      RefreshKeeps(l, t0);
      AccruedShows(l, t1);
      AccruedShows(m, t1);
      AccruedShows(l, t0);
    }
  }

  lemma ExactFromShown(l: Loan, now: int)
    requires LifeCycle(l) && l.lastAccrualAt <= now
    ensures var r := Accrued(l, now);
      Exact(l, now) == (r.interestPaid + r.accruedInterest) * DENOMINATOR + r.interestRemainder
  {
    AccruedShows(l, now);
  }

  lemma SameLater(a: Loan, b: Loan, t0: int, t1: int)
    requires SameFrom(a, b, t0) && t0 <= t1
    ensures SameFrom(a, b, t1)
  {
    if Running(a.status) {
      AccruedShows(a, t0); AccruedShows(b, t0);
      AccruedShows(a, t1); AccruedShows(b, t1);
      ExactAdvances(a, t0, t1); ExactAdvances(b, t0, t1);
      ExactFromShown(a, t0); ExactFromShown(b, t0);
    }
  }

  /** What a caller sees of an event. */
  datatype Seen = SeenLoan | SeenSplit(interest: int, principal: int) | SeenRefusal(why: Refusal)

  function Outcome(l: Loan, e: Event): Seen {
    match e
    case Look(_) => SeenLoan
    case Pay(at, amount, b, s) =>
      match Repay(l, at, amount, b, s)
      case Applied(_, i, p) => SeenSplit(i, p)
      case Refused(why) => SeenRefusal(why)
  }

  /** The outcomes of the repayments of a history, in order. */
  function Outcomes(l: Loan, es: seq<Event>): seq<Seen> {
    if es == [] then []
    else
      var before, e := es[..|es| - 1], es[|es| - 1];
      Outcomes(l, before) + (if e.Pay? then [Outcome(Play(l, before), e)] else [])
  }

  function Payments(es: seq<Event>): seq<Event> {
    if es == [] then []
    else Payments(es[..|es| - 1]) + (if es[|es| - 1].Pay? then [es[|es| - 1]] else [])
  }

  lemma LookIsInvisible(a: Loan, b: Loan, at: int)
    requires SameFrom(a, b, at)
    ensures SameFrom(After(a, Look(at)), b, at)
  {
    if !OverLimit(a, at) {
      RefreshKeeps(a, at);
      RefreshTwice(a, at, at);
    }
  }

  /** Rows that look alike answer a repayment alike. */
  lemma AlikeRepay(a: Loan, b: Loan, now: int, amount: int, x: int, y: int)
    requires Alike(a, b)
    ensures var p, q := RepayRow(a, now, amount, x, y), RepayRow(b, now, amount, x, y);
      && p.Applied? == q.Applied?
      && (p.Applied? ==>
            && p.interest == q.interest && p.principal == q.principal && Alike(p.loan, q.loan)
            && p.loan.lastAccrualAt == a.lastAccrualAt)
      && (p.Refused? ==> p == q)
  {
  }

  /** A row refreshed at `at`, or closed, is left alone by a refresh at `at`. */
  lemma RefreshAgain(l: Loan, at: int)
    requires LifeCycle(l)
    requires Running(l.status) ==> l.lastAccrualAt == at && (ShanghaiDay(at) > l.dueDate ==> l.status == Overdue)
    ensures Refreshed(l, at) == l
  {
  }

  lemma OverdueShown(l: Loan, at: int)
    requires LifeCycle(l) && l.lastAccrualAt <= at
    ensures var r := Refreshed(l, at);
      Running(r.status) ==> r.lastAccrualAt == at && (ShanghaiDay(at) > r.dueDate ==> r.status == Overdue)
  {
    AccruedShows(l, at);
  }

  lemma PaySeesTheSame(a: Loan, b: Loan, e: Event)
    requires e.Pay? && e.amount > 0 && SameFrom(a, b, e.at)
    ensures Outcome(a, e) == Outcome(b, e)
    ensures SameFrom(After(a, e), After(b, e), e.at)
  {
    OverdueShown(a, e.at);
    OverdueShown(b, e.at);
    hide Refreshed, LifeCycle;
    AlikeRepay(Refreshed(a, e.at), Refreshed(b, e.at), e.at, e.amount, e.borrowerBalance, e.lenderBalance);
    if Repay(a, e.at, e.amount, e.borrowerBalance, e.lenderBalance).Applied? {
      RepayKeeps(a, e.at, e.amount, e.borrowerBalance, e.lenderBalance);
      RepayKeeps(b, e.at, e.amount, e.borrowerBalance, e.lenderBalance);
      RefreshAgain(After(a, e), e.at);
      RefreshAgain(After(b, e), e.at);
    }
  }

  lemma {:induction false} PaymentsAlone(l: Loan, es: seq<Event>)
    requires LifeCycle(l) && InOrder(l.lastAccrualAt, es)
    ensures Outcomes(l, es) == Outcomes(l, Payments(es))
    ensures SameFrom(Play(l, es), Play(l, Payments(es)), EndTime(l.lastAccrualAt, es))
  {
    if es != [] {
      var before, e := es[..|es| - 1], es[|es| - 1];
      PaymentsAlone(l, before);
      var a, b := Play(l, before), Play(l, Payments(before));
      SameLater(a, b, EndTime(l.lastAccrualAt, before), e.at);
      if e.Look? {
        LookIsInvisible(a, b, e.at);
        assert Payments(es) == Payments(before) && Outcomes(l, es) == Outcomes(l, before);
      } else {
        PaySeesTheSame(a, b, e);
        var ps := Payments(es);
        assert ps[..|ps| - 1] == Payments(before) && ps[|ps| - 1] == e;
      }
    }
  }

  /** Refresh transparency: two histories with the same repayments have the same
      repayment outcomes and show the same loan from then on, however many
      refreshes each contains and wherever they fall. */
  lemma RefreshesAreInvisible(l: Loan, es: seq<Event>, fs: seq<Event>, now: int)
    requires LifeCycle(l) && InOrder(l.lastAccrualAt, es) && InOrder(l.lastAccrualAt, fs)
    requires Payments(es) == Payments(fs)
    requires EndTime(l.lastAccrualAt, es) <= now && EndTime(l.lastAccrualAt, fs) <= now
    ensures Outcomes(l, es) == Outcomes(l, fs)
    ensures Alike(Refreshed(Play(l, es), now), Refreshed(Play(l, fs), now))
    ensures OverLimit(Play(l, es), now) == OverLimit(Play(l, fs), now)
  {
    PaymentsAlone(l, es);
    PaymentsAlone(l, fs);
    var ps := Play(l, Payments(es));
    SameLater(Play(l, es), ps, EndTime(l.lastAccrualAt, es), now);
    SameLater(Play(l, fs), ps, EndTime(l.lastAccrualAt, fs), now);
  }
}
