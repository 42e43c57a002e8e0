/** Where every agreement comes from: each running loan and each completed exchange
    of a run goes back to a proposal and an answer in that run. */
module Provenance {
  import opened Common
  import opened Accrual
  import opened LoanHistory
  import opened Chips
  import opened ChipStore
  import opened SharedLedger
  import opened DeskRules
  import L = LoanDesk
  import X = ExchangeDesk

  /** The operation puts these terms forward for a loan. */
  predicate Proposes(op: Op, id: string, proposer: Subject, t: L.Terms) {
    match op
    case CreateLoan(borrower, _, terms, _, _, newId) => newId == id && borrower == proposer && terms == t
    case CounterLoan(o, actor, _, terms, _, _) => o == id && actor == proposer && terms == t
    case _ => false
  }

  /** Terms put forward at some instant of the script. */
  ghost predicate ProposedAt(ops: Script, j: nat, id: string, r: L.Revision) {
    j < |ops| && Proposes(ops[j].1, id, r.proposer, r.terms)
  }

  /** The i-th operation is the other side's acceptance of a revision, put forward less
      than three days before, and due one to thirty days on. */
  ghost predicate AgreedAt(ops: Script, i: nat, id: string, r: L.Revision, revision: nat) {
    && i < |ops| && ops[i].1.AcceptLoan? && ops[i].1.id == id
    && ops[i].1.actor == r.recipient && ops[i].1.revision == revision
    && (ops[i].0 + 28_800) / 86_400 + 1 <= r.terms.dueDate <= (ops[i].0 + 28_800) / 86_400 + 30
    && exists j: nat :: j < i && ProposedAt(ops, j, id, r) && ops[i].0 < ops[j].0 + 259_200
  }

  /** The operation is the awaited party's acceptance of an open proposal. */
  predicate Answers(now: int, op: Op, id: string, l: Loan, r: L.Revision) {
    && op.AcceptLoan? && op.id == id && op.actor == r.recipient && op.revision == l.currentRevision
    && l.status == Negotiating && now < l.proposalExpiresAt
    && (now + 28_800) / 86_400 + 1 <= r.terms.dueDate <= (now + 28_800) / 86_400 + 30
  }

  /** How one operation changes one loan: it puts a new revision forward, or accepts
      the current one, or neither. */
  ghost predicate Moves(w: World, now: int, op: Op, v: World, id: string) {
    && id in v.loans.loans
    && var m := v.loans.loans[id]; var k := (id, m.currentRevision);
       && k in v.loans.revisions
       && if id !in w.loans.loans || m.currentRevision != w.loans.loans[id].currentRevision
          then
            && m.status == Negotiating && m.proposalExpiresAt == now + 259_200
            && Proposes(op, id, v.loans.revisions[k].proposer, v.loans.revisions[k].terms)
          else
            var l := w.loans.loans[id];
            && k in w.loans.revisions && v.loans.revisions[k] == w.loans.revisions[k]
            && m.proposalExpiresAt == l.proposalExpiresAt
            && (m.status == Negotiating ==> l.status == Negotiating)
            && (m.status in {Active, Overdue, Status.Repaid} && l.status !in {Active, Overdue, Status.Repaid} ==>
                  Answers(now, op, id, l, w.loans.revisions[k]))
  }

  lemma CurrentRevision(w: World, id: string)
    requires Together(w) && id in w.loans.loans
    ensures (id, w.loans.loans[id].currentRevision) in w.loans.revisions
    ensures w.loans.loans[id].status == Negotiating ==>
      w.loans.loans[id].awaiting == Some(w.loans.revisions[(id, w.loans.loans[id].currentRevision)].recipient)
  {
    assert L.Consented(id, w.loans.loans[id], w.loans.revisions);
  }

  lemma RefreshMoves(l: Loan, now: int)
    ensures var r := Refreshed(l, now);
      && r.currentRevision == l.currentRevision && r.proposalExpiresAt == l.proposalExpiresAt
      && (r.status == Negotiating ==> l.status == Negotiating)
      && (r.status in {Active, Overdue, Status.Repaid} ==> l.status in {Active, Overdue, Status.Repaid})
  {
  }

  lemma CreateMoves(w: World, now: int, op: Op, id: string)
    requires Together(w) && op.CreateLoan?
    ensures id in Do(w, now, op).loans.loans ==> Moves(w, now, op, Do(w, now, op), id)
  {
    hide Together, Refreshed, OverLimit, L.Admits;
    if id in w.loans.loans {
      CurrentRevision(w, id);
      RefreshMoves(w.loans.loans[id], now);
    }
  }

  lemma CounterMoves(w: World, now: int, op: Op, id: string)
    requires Together(w) && op.CounterLoan? && id in Do(w, now, op).loans.loans
    ensures Moves(w, now, op, Do(w, now, op), id)
  {
    hide Together, Refreshed, OverLimit;
    CurrentRevision(w, id);
    RefreshMoves(w.loans.loans[id], now);
    if op.id in w.loans.loans {
      CounterExactly(w, now, op.id, op.actor, op.revision, op.terms, op.key, op.boundTo);
    }
  }

  lemma AcceptMoves(w: World, now: int, op: Op, id: string)
    requires Together(w) && op.AcceptLoan? && id in Do(w, now, op).loans.loans
    ensures Moves(w, now, op, Do(w, now, op), id)
  {
    hide Together, Refreshed, OverLimit, Balance;
    CurrentRevision(w, id);
    RefreshMoves(w.loans.loans[id], now);
    if op.id in w.loans.loans {
      RefreshedStatus(w.loans.loans[op.id], now);
      if w.loans.loans[op.id].status == Negotiating {
        AcceptanceExactly(w, now, op.id, op.actor, op.revision, op.key, op.boundTo);
      }
    }
  }

  lemma CloseMoves(w: World, now: int, op: Op, id: string)
    requires Together(w) && op.CloseProposal? && id in Do(w, now, op).loans.loans
    ensures Moves(w, now, op, Do(w, now, op), id)
  {
    hide Together, Refreshed, OverLimit;
    CurrentRevision(w, id);
    if op.id in w.loans.loans {
      RefreshedStatus(w.loans.loans[op.id], now);
    }
  }

  lemma RepayMoves(w: World, now: int, op: Op, id: string)
    requires Together(w) && (op.RepayLoan? || op.Look?) && id in Do(w, now, op).loans.loans
    ensures Moves(w, now, op, Do(w, now, op), id)
  {
    hide Together, Refreshed, OverLimit, HandedOver, Balance;
    CurrentRevision(w, id);
    RefreshMoves(w.loans.loans[id], now);
  }

  lemma OtherMoves(w: World, now: int, op: Op, id: string)
    requires Together(w) && !op.CreateLoan? && !op.CounterLoan? && !op.AcceptLoan?
    requires id in Do(w, now, op).loans.loans
    ensures Moves(w, now, op, Do(w, now, op), id)
  {
    if op.CloseProposal? {
      CloseMoves(w, now, op, id);
    } else if op.RepayLoan? || op.Look? {
      RepayMoves(w, now, op, id);
    } else {
      hide Together, Do;
      OtherOpsSpareLoans(w, now, op);
      CurrentRevision(w, id);
    }
  }

  /** A loan's present standing, traced back to operations of the script. */
  ghost predicate Traced(w: World, ops: Script, id: string)
    requires id in w.loans.loans
  {
    var l := w.loans.loans[id];
    var k := (id, l.currentRevision);
    && k in w.loans.revisions
    && (l.status == Negotiating ==>
          exists j: nat :: ProposedAt(ops, j, id, w.loans.revisions[k]) && l.proposalExpiresAt == ops[j].0 + 259_200)
    && (l.status in {Active, Overdue, Status.Repaid} ==>
          exists i: nat :: AgreedAt(ops, i, id, w.loans.revisions[k], l.currentRevision))
  }

  lemma AgreedLater(ops: Script, last: (int, Op), i: nat, id: string, r: L.Revision, revision: nat)
    requires AgreedAt(ops, i, id, r, revision)
    ensures AgreedAt(ops + [last], i, id, r, revision)
  {
    var j: nat :| j < i && ProposedAt(ops, j, id, r) && ops[i].0 < ops[j].0 + 259_200;
    assert ProposedAt(ops + [last], j, id, r);
  }

  lemma AgreedNow(ops: Script, last: (int, Op), j: nat, id: string, l: Loan, r: L.Revision)
    requires ProposedAt(ops, j, id, r) && l.proposalExpiresAt == ops[j].0 + 259_200
    requires Answers(last.0, last.1, id, l, r)
    ensures AgreedAt(ops + [last], |ops|, id, r, l.currentRevision)
  {
    assert ProposedAt(ops + [last], j, id, r);
  }

  lemma TracedStep(w: World, ops: Script, last: (int, Op), v: World, id: string)
    requires Moves(w, last.0, last.1, v, id) && (id in w.loans.loans ==> Traced(w, ops, id))
    ensures Traced(v, ops + [last], id)
  {
    hide AgreedAt, Proposes;
    var m := v.loans.loans[id];
    var r := v.loans.revisions[(id, m.currentRevision)];
    if id !in w.loans.loans || m.currentRevision != w.loans.loans[id].currentRevision {
      assert (ops + [last])[|ops|] == last;
      assert ProposedAt(ops + [last], |ops|, id, r);
    } else {
      var l := w.loans.loans[id];
      if l.status == Negotiating {
        var j: nat :| ProposedAt(ops, j, id, r) && l.proposalExpiresAt == ops[j].0 + 259_200;
        assert ProposedAt(ops + [last], j, id, r);
        if m.status in {Active, Overdue, Status.Repaid} {
          AgreedNow(ops, last, j, id, l, r);
        }
      } else if l.status in {Active, Overdue, Status.Repaid} {
        var i: nat :| AgreedAt(ops, i, id, r, l.currentRevision);
        AgreedLater(ops, last, i, id, r, l.currentRevision);
      }
    }
  }

  lemma OneLoanMoves(w: World, now: int, op: Op, id: string)
    requires Together(w) && id in Do(w, now, op).loans.loans
    ensures Moves(w, now, op, Do(w, now, op), id)
  {
    hide Together, Do, Moves;
    if op.CreateLoan? {
      CreateMoves(w, now, op, id);
    } else if op.CounterLoan? {
      CounterMoves(w, now, op, id);
    } else if op.AcceptLoan? {
      AcceptMoves(w, now, op, id);
    } else {
      OtherMoves(w, now, op, id);
    }
  }

  lemma {:induction false} LoansAreTraced(ops: Script, id: string)
    requires id in Run(Nothing(), ops).loans.loans
    ensures Traced(Run(Nothing(), ops), ops, id)
  {
    hide Together, Do, Traced, Moves;
    EmptyStandsTogether();
    if ops != [] {
      var front, last := ops[..|ops| - 1], ops[|ops| - 1];
      var w := Run(Nothing(), front);
      RunsStayTogether(Nothing(), front);
      OneLoanMoves(w, last.0, last.1, id);
      if id in w.loans.loans {
        LoansAreTraced(front, id);
      }
      TracedStep(w, front, last, Run(Nothing(), ops), id);
      assert ops == front + [last];
    }
  }

  lemma PartiesOf(w: World, id: string)
    requires Together(w) && id in w.loans.loans && w.loans.loans[id].status in {Active, Overdue, Status.Repaid}
    ensures var l := w.loans.loans[id]; var k := (id, l.currentRevision);
      && l.acceptedRevision == Some(l.currentRevision) && k in w.loans.revisions
      && w.loans.revisions[k].terms == L.Terms(l.originalPrincipal, l.dailyRate, l.capEnabled, l.dueDate)
      && {w.loans.revisions[k].proposer, w.loans.revisions[k].recipient} == {l.borrower, l.lender}
      && w.loans.revisions[k].proposer != w.loans.revisions[k].recipient
  {
    assert L.Consented(id, w.loans.loans[id], w.loans.revisions);
  }

  /** No loan without consent: an accepted loan of any run carries terms that one party
      put forward and the other accepted less than three days later, one to thirty days
      before the due day. */
  lemma LoansWereAgreed(ops: Script, id: string)
    requires id in Run(Nothing(), ops).loans.loans
    requires Run(Nothing(), ops).loans.loans[id].status in {Active, Overdue, Status.Repaid}
    ensures var l, revisions := Run(Nothing(), ops).loans.loans[id], Run(Nothing(), ops).loans.revisions;
      && l.acceptedRevision == Some(l.currentRevision) && (id, l.currentRevision) in revisions
      && var r := revisions[(id, l.currentRevision)];
         && r.terms == L.Terms(l.originalPrincipal, l.dailyRate, l.capEnabled, l.dueDate)
         && {r.proposer, r.recipient} == {l.borrower, l.lender} && r.proposer != r.recipient
         && exists i: nat :: AgreedAt(ops, i, id, r, l.currentRevision)
  {
    hide Together, Do, Run, AgreedAt;
    EmptyStandsTogether();
    RunsStayTogether(Nothing(), ops);
    LoansAreTraced(ops, id);
    PartiesOf(Run(Nothing(), ops), id);
  }

  // ----- exchanges -----

  /** A request filed at some instant of the script. */
  ghost predicate AskedAt(ops: Script, j: nat, id: string, q: X.Request) {
    j < |ops| && ops[j].1.Ask? && ops[j].1.newId == id
    && ops[j].1.initiator == q.initiator && ops[j].1.amount == q.amount
    && ops[j].1.counterpart == (if q.initiator.Human? then q.ai else q.human)
  }

  /** The i-th operation is the other side's confirmation, bound to whoever asked, less
      than 72 hours after the request. */
  ghost predicate ConfirmedAt(ops: Script, i: nat, id: string, q: X.Request) {
    && i < |ops| && ops[i].1.Confirm? && ops[i].1.id == id
    && ops[i].1.actor == (if q.initiator.Human? then Ai(q.ai) else Human(q.human))
    && ops[i].1.boundTo == Some(q.initiator.id)
    && exists j: nat :: j < i && AskedAt(ops, j, id, q) && ops[i].0 < ops[j].0 + 259_200
  }

  /** How one operation changes one request. */
  ghost predicate RequestMoves(w: World, now: int, op: Op, v: World, id: string) {
    && id in v.exchanges.requests
    && var p := v.exchanges.requests[id];
       if id !in w.exchanges.requests then
         && op.Ask? && op.newId == id && op.initiator == p.initiator && op.amount == p.amount
         && op.counterpart == (if p.initiator.Human? then p.ai else p.human)
         && p.status == X.Pending && p.expiresAt == now + 259_200
       else
         var q := w.exchanges.requests[id];
         && p == q.(status := p.status) && (p.status == X.Pending ==> q.status == X.Pending)
         && (p.status == X.Completed && q.status != X.Completed ==>
               && op.Confirm? && op.id == id && q.status == X.Pending && now < q.expiresAt
               && op.actor == (if q.initiator.Human? then Ai(q.ai) else Human(q.human))
               && op.boundTo == Some(q.initiator.id))
  }

  lemma SidesOf(w: World, id: string)
    requires Together(w) && id in w.exchanges.requests
    ensures var q := w.exchanges.requests[id]; q.initiator == Human(q.human) || q.initiator == Ai(q.ai)
  {
    assert X.WellFormed(w.exchanges.requests[id]);
  }

  lemma AskMoves(w: World, now: int, op: Op, id: string)
    requires op.Ask? && id in Do(w, now, op).exchanges.requests
    ensures RequestMoves(w, now, op, Do(w, now, op), id)
  {
    hide X.PendingOf;
  }

  lemma ConfirmMoves(w: World, now: int, op: Op, id: string)
    requires Together(w) && op.Confirm? && id in Do(w, now, op).exchanges.requests
    ensures RequestMoves(w, now, op, Do(w, now, op), id)
  {
    hide Together, HandedOver, Balance, X.Spent;
    SidesOf(w, id);
    if op.id in w.exchanges.requests {
      ConfirmationExactly(w, now, op.id, op.actor, op.key, op.boundTo, op.day);
    }
  }

  lemma OtherRequestMoves(w: World, now: int, op: Op, id: string)
    requires !op.Ask? && !op.Confirm? && id in Do(w, now, op).exchanges.requests
    ensures RequestMoves(w, now, op, Do(w, now, op), id)
  {
    hide HandedOver, Balance, Refreshed, OverLimit, L.Admits;
  }

  ghost predicate RequestTraced(w: World, ops: Script, id: string)
    requires id in w.exchanges.requests
  {
    var q := w.exchanges.requests[id];
    && (q.status == X.Pending ==> exists j: nat :: AskedAt(ops, j, id, q) && q.expiresAt == ops[j].0 + 259_200)
    && (q.status == X.Completed ==> exists i: nat :: ConfirmedAt(ops, i, id, q))
  }

  lemma RequestTracedStep(w: World, ops: Script, last: (int, Op), v: World, id: string)
    requires RequestMoves(w, last.0, last.1, v, id) && (id in w.exchanges.requests ==> RequestTraced(w, ops, id))
    ensures RequestTraced(v, ops + [last], id)
  {
    var p, all := v.exchanges.requests[id], ops + [last];
    if id !in w.exchanges.requests {
      assert AskedAt(all, |ops|, id, p);
    } else {
      var q := w.exchanges.requests[id];
      if q.status == X.Pending {
        var j: nat :| AskedAt(ops, j, id, q) && q.expiresAt == ops[j].0 + 259_200;
        assert AskedAt(all, j, id, p);
        if p.status == X.Completed {
          assert ConfirmedAt(all, |ops|, id, p);
        }
      } else if q.status == X.Completed {
        var i: nat :| ConfirmedAt(ops, i, id, q);
        var j: nat :| j < i && AskedAt(ops, j, id, q) && ops[i].0 < ops[j].0 + 259_200;
        assert AskedAt(all, j, id, p);
        assert p.status == X.Completed ==> ConfirmedAt(all, i, id, p);
      }
    }
  }

  lemma {:induction false} RequestsAreTraced(ops: Script, id: string)
    requires id in Run(Nothing(), ops).exchanges.requests
    ensures RequestTraced(Run(Nothing(), ops), ops, id)
  {
    hide Together, Do, RequestTraced, RequestMoves;
    EmptyStandsTogether();
    if ops != [] {
      var front, last := ops[..|ops| - 1], ops[|ops| - 1];
      var w := Run(Nothing(), front);
      RunsStayTogether(Nothing(), front);
      if last.1.Ask? {
        AskMoves(w, last.0, last.1, id);
      } else if last.1.Confirm? {
        ConfirmMoves(w, last.0, last.1, id);
      } else {
        OtherRequestMoves(w, last.0, last.1, id);
      }
      if id in w.exchanges.requests {
        RequestsAreTraced(front, id);
      }
      RequestTracedStep(w, front, last, Run(Nothing(), ops), id);
      assert ops == front + [last];
    }
  }

  /** No payment without a request: a completed exchange of any run was asked for by one
      side and confirmed by the other, still bound to it, less than 72 hours later. */
  lemma ExchangesWereConfirmed(ops: Script, id: string)
    requires id in Run(Nothing(), ops).exchanges.requests
    requires Run(Nothing(), ops).exchanges.requests[id].status == X.Completed
    ensures exists i: nat :: ConfirmedAt(ops, i, id, Run(Nothing(), ops).exchanges.requests[id])
  {
    hide Run;
    RequestsAreTraced(ops, id);
  }
}
