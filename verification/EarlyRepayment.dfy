/** Two runs of one loan that differ only in when money is paid back
    (app/loans.py).  Paying earlier never costs more. */
module EarlyRepayment {
  import opened Common
  import opened Accrual
  import opened LoanHistory

  /** What each of the two runs pays at one instant; 0 is no repayment. */
  datatype Round = Round(at: int, early: nat, late: nat)

  datatype Side = Early | Late

  function Amount(r: Round, side: Side): nat {
    if side == Early then r.early else r.late
  }

  /** The loan after all rounds, or None once a repayment is refused.  The
      borrower is taken to hold the amount and the lender nothing: any repayment
      accepted with other wallets is also accepted with these. */
  function Pay(l: Loan, rounds: seq<Round>, side: Side): Option<Loan> {
    if rounds == [] then Some(l)
    else
      var n := |rounds| - 1;
      match Pay(l, rounds[..n], side)
      case None => None
      case Some(before) =>
        var amount := Amount(rounds[n], side);
        if amount == 0 then Some(before)
        else
          match Repay(before, rounds[n].at, amount, amount, 0)
          case Applied(after, _, _) => Some(after)
          case Refused(_) => None
  }

  function Paid(rounds: seq<Round>, side: Side): nat {
    if rounds == [] then 0
    else Paid(rounds[..|rounds| - 1], side) + Amount(rounds[|rounds| - 1], side)
  }

  ghost predicate Rounds(start: int, rounds: seq<Round>) {
    && (forall i :: 0 <= i < |rounds| ==> start <= rounds[i].at)
    && (forall i, j :: 0 <= i < j < |rounds| ==> rounds[i].at <= rounds[j].at)
  }

  /** At every point the early run has paid at least as much as the late one. */
  ghost predicate PaysAhead(rounds: seq<Round>) {
    forall k :: 0 <= k <= |rounds| ==> Paid(rounds[..k], Late) <= Paid(rounds[..k], Early)
  }

  function LastAt(start: int, rounds: seq<Round>): int {
    if rounds == [] then start else rounds[|rounds| - 1].at
  }

  /** Everything owed at `now`, straight from the exact interest. */
  function DueAt(l: Loan, now: int): int {
    l.originalPrincipal - l.principalPaid - l.interestPaid + Exact(l, now) / DENOMINATOR
  }

  /** Terms that no event changes. */
  ghost predicate SameTerms(a: Loan, b: Loan) {
    && a.originalPrincipal == b.originalPrincipal && a.dailyRate == b.dailyRate && a.capEnabled == b.capEnabled
  }

  lemma DueIsShown(l: Loan, now: int)
    requires LifeCycle(l) && l.lastAccrualAt <= now
    ensures TotalDue(Accrued(l, now)) == DueAt(l, now)
    ensures l.remainingPrincipal <= DueAt(l, now)
  {
    AccruedShows(l, now);
  }

  /** One accepted repayment in exact terms: principal becomes the smaller of
      itself and what is still due. */
  lemma PaymentExactly(l: Loan, at: int, amount: nat)
    requires LifeCycle(l) && l.lastAccrualAt <= at && amount > 0
    requires Repay(l, at, amount, amount, 0).Applied?
    ensures var r := Repay(l, at, amount, amount, 0).loan;
      && LifeCycle(r) && r.lastAccrualAt <= at && SameTerms(l, r)
      && r.principalPaid + r.interestPaid == l.principalPaid + l.interestPaid + amount
      && Exact(r, at) == Exact(l, at)
      && DueAt(r, at) == DueAt(l, at) - amount
      && r.remainingPrincipal == Min(l.remainingPrincipal, DueAt(r, at))
  {
    var e := Event.Pay(at, amount, amount, 0);
    AfterKeepsExact(l, e, at);
    RepayKeeps(l, at, amount, amount, 0);
    DueIsShown(l, at);
  }

  /** Each run keeps its own books straight. */
  lemma {:induction false} RunExactly(l: Loan, rounds: seq<Round>, side: Side)
    requires LifeCycle(l) && Rounds(l.lastAccrualAt, rounds) && Pay(l, rounds, side).Some?
    ensures var r := Pay(l, rounds, side).value;
      && LifeCycle(r) && r.lastAccrualAt <= LastAt(l.lastAccrualAt, rounds) && SameTerms(l, r)
      && r.principalPaid + r.interestPaid == l.principalPaid + l.interestPaid + Paid(rounds, side)
  {
    if rounds != [] {
      var n := |rounds| - 1;
      RunExactly(l, rounds[..n], side);
      if Amount(rounds[n], side) > 0 {
        PaymentExactly(Pay(l, rounds[..n], side).value, rounds[n].at, Amount(rounds[n], side));
      }
    }
  }

  ghost predicate NoWorse(a: Loan, b: Loan, at: int) {
    && a.remainingPrincipal <= b.remainingPrincipal
    && Exact(a, at) <= Exact(b, at)
  }

  lemma MultiplyMonotone(x: int, y: int, k: int)
    requires x <= y && 0 <= k
    ensures x * k <= y * k
  {
  }

  lemma GrowthMonotone(a: Loan, b: Loan, seconds: int)
    requires a.remainingPrincipal <= b.remainingPrincipal && a.dailyRate == b.dailyRate >= 0 && seconds >= 0
    ensures Growth(a, seconds) <= Growth(b, seconds)
  {
    MultiplyMonotone(a.remainingPrincipal, b.remainingPrincipal, a.dailyRate);
    MultiplyMonotone(a.remainingPrincipal * a.dailyRate, b.remainingPrincipal * b.dailyRate, seconds);
  }

  lemma NoWorseLater(a: Loan, b: Loan, t0: int, t1: int)
    requires LifeCycle(a) && LifeCycle(b) && SameTerms(a, b) && NoWorse(a, b, t0)
    requires a.lastAccrualAt <= t0 <= t1 && b.lastAccrualAt <= t0
    ensures NoWorse(a, b, t1)
  {
    ExactAdvances(a, t0, t1);
    ExactAdvances(b, t0, t1);
    GrowthMonotone(a, b, t1 - t0);
  }

  /** One round on one side, accepted or skipped. */
  lemma RoundExactly(l: Loan, rounds: seq<Round>, side: Side)
    requires LifeCycle(l) && Rounds(l.lastAccrualAt, rounds) && rounds != [] && Pay(l, rounds, side).Some?
    ensures var n := |rounds| - 1; var at := rounds[n].at;
      var p, r := Pay(l, rounds[..n], side).value, Pay(l, rounds, side).value;
      && LifeCycle(p) && LifeCycle(r) && SameTerms(l, p) && SameTerms(l, r)
      && p.lastAccrualAt <= LastAt(l.lastAccrualAt, rounds[..n]) <= at && r.lastAccrualAt <= at
      && Exact(r, at) == Exact(p, at)
      && r.remainingPrincipal == Min(p.remainingPrincipal, DueAt(r, at))
      && DueAt(r, at) == l.originalPrincipal - l.principalPaid - l.interestPaid - Paid(rounds, side)
        + Exact(p, at) / DENOMINATOR
  {
    var n := |rounds| - 1;
    RunExactly(l, rounds[..n], side);
    RunExactly(l, rounds, side);
    var p := Pay(l, rounds[..n], side).value;
    if Amount(rounds[n], side) > 0 {
      PaymentExactly(p, rounds[n].at, Amount(rounds[n], side));
    } else {
      DueIsShown(p, rounds[n].at);
    }
  }

  lemma {:induction false} StaysAhead(l: Loan, rounds: seq<Round>)
    requires LifeCycle(l) && Rounds(l.lastAccrualAt, rounds) && PaysAhead(rounds)
    requires Pay(l, rounds, Early).Some? && Pay(l, rounds, Late).Some?
    ensures NoWorse(Pay(l, rounds, Early).value, Pay(l, rounds, Late).value, LastAt(l.lastAccrualAt, rounds))
  {
    if rounds != [] {
      var n := |rounds| - 1;
      var before, at := rounds[..n], rounds[n].at;
      assert forall k :: 0 <= k <= n ==> before[..k] == rounds[..k];
      StaysAhead(l, before);
      RoundExactly(l, rounds, Early);
      RoundExactly(l, rounds, Late);
      var a, b := Pay(l, before, Early).value, Pay(l, before, Late).value;
      NoWorseLater(a, b, LastAt(l.lastAccrualAt, before), at);
      DivideMonotone(Exact(a, at), Exact(b, at));
      assert rounds[..n + 1] == rounds;
    }
  }

  /** Early repayment dominance: if one run is never behind in what it has paid,
      then at every later instant it owes no more principal, has been charged no
      more interest in total, and has no more left to pay.  Capped or not. */
  lemma PayingEarlierNeverCostsMore(l: Loan, rounds: seq<Round>, now: int)
    requires LifeCycle(l) && Rounds(l.lastAccrualAt, rounds) && PaysAhead(rounds)
    requires Pay(l, rounds, Early).Some? && Pay(l, rounds, Late).Some?
    requires LastAt(l.lastAccrualAt, rounds) <= now
    ensures var a, b := Accrued(Pay(l, rounds, Early).value, now), Accrued(Pay(l, rounds, Late).value, now);
      && a.remainingPrincipal <= b.remainingPrincipal
      && a.interestPaid + a.accruedInterest <= b.interestPaid + b.accruedInterest
      && a.remainingPrincipal + a.accruedInterest <= b.remainingPrincipal + b.accruedInterest
  {
    RunExactly(l, rounds, Early);
    RunExactly(l, rounds, Late);
    StaysAhead(l, rounds);
    var a, b := Pay(l, rounds, Early).value, Pay(l, rounds, Late).value;
    NoWorseLater(a, b, LastAt(l.lastAccrualAt, rounds), now);
    DivideMonotone(Exact(a, now), Exact(b, now));
    DueIsShown(a, now); DueIsShown(b, now);
    AccruedShows(a, now); AccruedShows(b, now);
    assert rounds[..|rounds|] == rounds;
  }
}
