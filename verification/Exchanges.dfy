/** Exchange requests: who pays, how often, and how much a day (app/exchanges.py). */
module ExchangeDesk {
  import opened Common
  import opened Chips
  import opened ChipStore
  const REQUEST_LIFETIME := 72 * 3600
  const MAX_PENDING_PER_PAIR := 3
  const MAX_EXCHANGE_AMOUNT := 100
  const MAX_DAILY_PAYER_SPEND := 100

  datatype Status = Pending | Completed | Declined | Withdrawn | Lapsed

  datatype Request = Request(human: string, ai: string, initiator: Subject, amount: int, status: Status, expiresAt: int)

  datatype Action = CreateRequest | Confirm | Reject | Withdraw

  datatype Operation = Operation(action: Action, request: string)

  datatype Desk = Desk(requests: map<string, Request>, operations: map<(Subject, string), Operation>)

  /** Whoever did not ask pays. */
  function Payer(q: Request): Subject {
    if q.initiator.Human? then Ai(q.ai) else Human(q.human)
  }

  /** Who may close a request without payment: the payer rejects, the initiator
      withdraws. */
  function Closer(q: Request, action: Action): Subject {
    if action == Reject then Payer(q) else q.initiator
  }

  function Pair(q: Request): (string, string) {
    (q.human, q.ai)
  }

  function PendingOf(requests: map<string, Request>, pair: (string, string)): set<string> {
    set id | id in requests && Pair(requests[id]) == pair && requests[id].status == Pending
  }

  /** Chips a wallet has paid for exchanges on one day. */
  function Spent(rows: seq<Row>, s: Subject, day: int): int {
    if rows == [] then 0
    else
      var last := rows[|rows| - 1];
      Spent(rows[..|rows| - 1], s, day)
        + (if last.owner == s && last.kind == ExchangeOut && last.day == Some(day) then -last.amount else 0)
  }

  ghost predicate WellFormed(q: Request) {
    && (q.initiator == Human(q.human) || q.initiator == Ai(q.ai))
    && 1 <= q.amount <= MAX_EXCHANGE_AMOUNT
  }

  /** A settlement row exists for exactly the completed requests. */
  ghost predicate PaidOnce(requests: map<string, Request>, rows: seq<Row>) {
    && (forall r :: r in rows && r.key.Some? && r.key.value.ExchangeKey? ==>
          r.key.value.request in requests && requests[r.key.value.request].status == Completed)
    && (forall id :: id in requests && requests[id].status == Completed ==>
          Taken(rows, Payer(requests[id]), ExchangeKey(id)) && Taken(rows, requests[id].initiator, ExchangeKey(id)))
  }

  ghost predicate WithinDailyLimit(rows: seq<Row>) {
    forall s: Subject, day: int :: Spent(rows, s, day) <= MAX_DAILY_PAYER_SPEND
  }

  ghost predicate WithinPendingLimit(requests: map<string, Request>) {
    forall pair: (string, string) :: |PendingOf(requests, pair)| <= MAX_PENDING_PER_PAIR
  }

  /** What holds of requests and ledger between operations. */
  ghost predicate Stands(d: Desk, rows: seq<Row>) {
    && (forall id :: id in d.requests ==> WellFormed(d.requests[id]))
    && WithinPendingLimit(d.requests)
    && PaidOnce(d.requests, rows)
    && WithinDailyLimit(rows)
  }

  /** Requests only ever leave `Pending`, once, and keep everything else. */
  ghost predicate OnlyForward(before: map<string, Request>, after: map<string, Request>) {
    forall id :: id in before ==>
      id in after && after[id] == before[id].(status := after[id].status) &&
      (before[id].status != Pending ==> after[id] == before[id])
  }

  /** Every overdue pending request lapsed. */
  function Expired(requests: map<string, Request>, now: int): map<string, Request> {
    map id | id in requests ::
      if requests[id].status == Pending && requests[id].expiresAt <= now then requests[id].(status := Lapsed)
      else requests[id]
  }

  predicate Involved(q: Request, s: Subject) {
    s == q.initiator || s == Payer(q)
  }

  /** The caller still proves its tie to the other side of the request. */
  predicate Tied(q: Request, actor: Subject, boundTo: Option<string>) {
    boundTo == Some(if actor.Human? then q.ai else q.human)
  }

  // ----- what the operations keep -----

  lemma FewerPending(before: map<string, Request>, after: map<string, Request>)
    requires WithinPendingLimit(before) && after.Keys == before.Keys
    requires forall id :: id in before ==>
      Pair(after[id]) == Pair(before[id]) && (after[id].status == Pending ==> before[id].status == Pending)
    ensures WithinPendingLimit(after)
  {
    forall pair: (string, string) ensures |PendingOf(after, pair)| <= MAX_PENDING_PER_PAIR {
      SubsetSmaller(PendingOf(after, pair), PendingOf(before, pair));
    }
  }

  lemma NothingMoves(requests: map<string, Request>)
    ensures OnlyForward(requests, requests)
  {
  }

  lemma ExpiryStands(d: Desk, rows: seq<Row>, now: int)
    requires Stands(d, rows)
    ensures Stands(d.(requests := Expired(d.requests, now)), rows)
    ensures OnlyForward(d.requests, Expired(d.requests, now))
  {
    FewerPending(d.requests, Expired(d.requests, now));
  }

  /** One pending request closed without payment. */
  lemma ClosedStands(d: Desk, rows: seq<Row>, id: string, status: Status)
    requires Stands(d, rows) && id in d.requests && d.requests[id].status == Pending && status !in {Pending, Completed}
    ensures Stands(d.(requests := d.requests[id := d.requests[id].(status := status)]), rows)
  {
    FewerPending(d.requests, d.requests[id := d.requests[id].(status := status)]);
  }

  lemma OneMorePending(requests: map<string, Request>, id: string, q: Request, pair: (string, string))
    requires id !in requests && q.status == Pending
    ensures PendingOf(requests[id := q], pair) == PendingOf(requests, pair) + if pair == Pair(q) then {id} else {}
  {
  }

  lemma PendingAfterCreate(requests: map<string, Request>, id: string, q: Request)
    requires WithinPendingLimit(requests) && id !in requests && q.status == Pending
    requires |PendingOf(requests, Pair(q))| < MAX_PENDING_PER_PAIR
    ensures WithinPendingLimit(requests[id := q])
  {
    var after := requests[id := q];
    forall pair: (string, string) ensures |PendingOf(after, pair)| <= MAX_PENDING_PER_PAIR {
      OneMorePending(requests, id, q, pair);
    }
  }

  lemma CreatedStands(d: Desk, rows: seq<Row>, id: string, q: Request)
    requires Stands(d, rows) && id !in d.requests && WellFormed(q) && q.status == Pending
    requires |PendingOf(d.requests, Pair(q))| < MAX_PENDING_PER_PAIR
    ensures Stands(d.(requests := d.requests[id := q]), rows)
  {
    PendingAfterCreate(d.requests, id, q);
  }

  /** A request nobody paid yet has no settlement row. */
  lemma UnpaidIsFree(d: Desk, rows: seq<Row>, id: string, s: Subject)
    requires Stands(d, rows) && (id in d.requests ==> d.requests[id].status != Completed)
    ensures !Taken(rows, s, ExchangeKey(id))
  {
  }

  lemma AppendSpent(rows: seq<Row>, row: Row, s: Subject, day: int)
    ensures Spent(rows + [row], s, day)
      == Spent(rows, s, day)
        + (if row.owner == s && row.kind == ExchangeOut && row.day == Some(day) then -row.amount else 0)
  {
    assert (rows + [row])[..|rows|] == rows;
  }

  /** Ledger rows of other components are neutral to exchanges. */
  lemma OtherRowStands(d: Desk, rows: seq<Row>, row: Row)
    requires Stands(d, rows) && row.kind != ExchangeOut && (row.key.Some? ==> !row.key.value.ExchangeKey?)
    ensures Stands(d, rows + [row])
  {
    forall s, day ensures Spent(rows + [row], s, day) <= MAX_DAILY_PAYER_SPEND {
      AppendSpent(rows, row, s, day);
    }
    forall id | id in d.requests && d.requests[id].status == Completed
      ensures Taken(rows + [row], Payer(d.requests[id]), ExchangeKey(id))
        && Taken(rows + [row], d.requests[id].initiator, ExchangeKey(id))
    {
      AppendTakes(rows, row, Payer(d.requests[id]), ExchangeKey(id));
      AppendTakes(rows, row, d.requests[id].initiator, ExchangeKey(id));
    }
  }

  lemma OpenedStands(d: Desk, b: Books, s: Subject)
    requires Stands(d, b.rows)
    ensures Stands(d, Opened(b, s).rows)
    ensures forall o, day :: Spent(Opened(b, s).rows, o, day) == Spent(b.rows, o, day)
  {
    if s !in b.wallets {
      var row := Opened(b, s).rows[|b.rows|];
      OtherRowStands(d, b.rows, row);
      forall o, day ensures Spent(Opened(b, s).rows, o, day) == Spent(b.rows, o, day) {
        AppendSpent(b.rows, row, o, day);
      }
    }
  }

  /** The two rows of a settlement, seen by the daily limit and by `PaidOnce`. */
  lemma SettledRows(rows: seq<Row>, outRow: Row, inRow: Row, id: string, day: int)
    requires WithinDailyLimit(rows)
    requires outRow.kind == ExchangeOut && inRow.kind == ExchangeIn && outRow.day == Some(day)
    requires outRow.key == inRow.key == Some(ExchangeKey(id))
    requires Spent(rows, outRow.owner, day) - outRow.amount <= MAX_DAILY_PAYER_SPEND
    ensures var all := rows + [outRow] + [inRow];
      && WithinDailyLimit(all)
      && Taken(all, outRow.owner, ExchangeKey(id)) && Taken(all, inRow.owner, ExchangeKey(id))
      && (forall s, k :: Taken(rows, s, k) ==> Taken(all, s, k))
  {
    var all := rows + [outRow] + [inRow];
    forall s, d ensures Spent(all, s, d) <= MAX_DAILY_PAYER_SPEND {
      AppendSpent(rows, outRow, s, d);
      AppendSpent(rows + [outRow], inRow, s, d);
    }
    assert all[|rows|] == outRow && all[|rows| + 1] == inRow;
    forall s, k | Taken(rows, s, k) ensures Taken(all, s, k) {
      AppendTakes(rows, outRow, s, k);
      AppendTakes(rows + [outRow], inRow, s, k);
    }
  }

  /** A confirmed request: two rows in the ledger, one request completed. */
  lemma ConfirmedStands(d: Desk, rows: seq<Row>, outRow: Row, inRow: Row, id: string, day: int)
    requires Stands(d, rows) && id in d.requests && d.requests[id].status == Pending
    requires outRow.kind == ExchangeOut && inRow.kind == ExchangeIn && outRow.day == Some(day)
    requires outRow.key == inRow.key == Some(ExchangeKey(id))
    requires outRow.owner == Payer(d.requests[id]) && inRow.owner == d.requests[id].initiator
    requires Spent(rows, outRow.owner, day) - outRow.amount <= MAX_DAILY_PAYER_SPEND
    ensures Stands(d.(requests := d.requests[id := d.requests[id].(status := Completed)]), rows + [outRow] + [inRow])
  {
    var after := d.requests[id := d.requests[id].(status := Completed)];
    SettledRows(rows, outRow, inRow, id, day);
    FewerPending(d.requests, after);
    var all := rows + [outRow] + [inRow];
    forall r | r in all && r.key.Some? && r.key.value.ExchangeKey?
      ensures r.key.value.request in after && after[r.key.value.request].status == Completed
    {
      assert r in rows || r == outRow || r == inRow;
    }
  }

  lemma Sides(d: Desk, rows: seq<Row>, id: string)
    requires Stands(d, rows) && id in d.requests
    ensures Payer(d.requests[id]) != d.requests[id].initiator && d.requests[id].amount > 0
  {
  }

  /** Operations recorded beside the requests do not matter to what stands. */
  lemma OperationsDoNotMatter(d: Desk, rows: seq<Row>, operations: map<(Subject, string), Operation>)
    requires Stands(d, rows)
    ensures Stands(d.(operations := operations), rows)
  {
  }

  /** Expiry only ever changes the status of a request. */
  lemma ExpiryKeepsTerms(requests: map<string, Request>, now: int)
    ensures Expired(requests, now).Keys == requests.Keys
    ensures forall id :: id in requests ==>
      Expired(requests, now)[id].(status := requests[id].status) == requests[id] &&
      (Expired(requests, now)[id] == requests[id]
        || (requests[id].status == Pending && Expired(requests, now)[id].status == Lapsed))
    ensures OnlyForward(requests, Expired(requests, now))
  {
  }

  // ----- when an operation goes through -----

  /** The request an initiator files with a counterpart of the other type. */
  function Asked(initiator: Subject, counterpart: string, amount: int, now: int): Request {
    var (human, ai) := if initiator.Human? then (initiator.id, counterpart) else (counterpart, initiator.id);
    Request(human, ai, initiator, amount, Pending, now + REQUEST_LIFETIME)
  }

  predicate MayCreate(d: Desk, initiator: Subject, counterpart: string, amount: int, key: string, pairIsBound: bool,
      now: int)
  {
    && pairIsBound && 1 <= amount <= MAX_EXCHANGE_AMOUNT && (initiator, key) !in d.operations
    && |PendingOf(Expired(d.requests, now), Pair(Asked(initiator, counterpart, amount, now)))| < MAX_PENDING_PER_PAIR
  }

  /** The payer of a still pending request approves it, tied to the other side. */
  predicate MaySettle(d: Desk, id: string, actor: Subject, key: string, now: int) {
    && id in d.requests && actor == Payer(d.requests[id]) && (actor, key) !in d.operations
    && Expired(d.requests, now)[id].status == Pending
  }

  predicate MayConfirm(d: Desk, b: Books, id: string, actor: Subject, key: string, boundTo: Option<string>, day: int,
      now: int)
  {
    && MaySettle(d, id, actor, key, now) && Tied(d.requests[id], actor, boundTo)
    && d.requests[id].amount <= Balance(b, actor)
    && Spent(b.rows, actor, day) + d.requests[id].amount <= MAX_DAILY_PAYER_SPEND
  }

  /** The same request was made before, or what it asks for is already so. */
  predicate Repeats(d: Desk, id: string, actor: Subject, action: Action, key: string, target: Status) {
    id in d.requests && Involved(d.requests[id], actor) &&
    if (actor, key) in d.operations then d.operations[(actor, key)] == Operation(action, id)
    else d.requests[id].status == target
  }

  predicate MayClose(d: Desk, id: string, actor: Subject, action: Action, key: string, now: int) {
    && id in d.requests && (actor, key) !in d.operations
    && actor == Closer(d.requests[id], action)
    && Expired(d.requests, now)[id].status == Pending
  }

  function ClosedAs(action: Action): Status {
    if action == Reject then Declined else Withdrawn
  }

  function WithStatus(d: Desk, id: string, status: Status, now: int): Desk
    requires id in d.requests
  {
    var expired := Expired(d.requests, now);
    d.(requests := expired[id := expired[id].(status := status)])
  }

  function Recorded(d: Desk, actor: Subject, key: string, op: Operation): Desk {
    d.(operations := d.operations[(actor, key) := op])
  }

  /** The chips of one confirmed request. */
  function Payout(b: Books, q: Request, id: string, day: int): Books {
    HandedOver(b, Payer(q), q.initiator, q.amount, ExchangeOut, ExchangeIn, ExchangeKey(id), Some(day))
  }

  /** A confirmation that went through: status, recorded key, and the chips. */
  ghost predicate Pays(d: Desk, b: Books, e: Desk, c: Books, id: string, actor: Subject, key: string, day: int,
      now: int)
  {
    && id in d.requests
    && e == Recorded(WithStatus(d, id, Completed, now), actor, key, Operation(Confirm, id))
    && c == Payout(b, d.requests[id], id, day)
  }

  lemma StatusMovesForward(d: Desk, id: string, status: Status, now: int)
    requires id in d.requests && Expired(d.requests, now)[id].status == Pending
    ensures OnlyForward(d.requests, WithStatus(d, id, status, now).requests)
  {
  }

  lemma PaysStands(d: Desk, b: Books, id: string, actor: Subject, key: string, day: int, now: int)
    requires Stands(d, b.rows) && MaySettle(d, id, actor, key, now)
    requires Spent(b.rows, actor, day) + d.requests[id].amount <= MAX_DAILY_PAYER_SPEND
    ensures Stands(Recorded(WithStatus(d, id, Completed, now), actor, key, Operation(Confirm, id)),
                   Payout(b, d.requests[id], id, day).rows)
    ensures OnlyForward(d.requests, WithStatus(d, id, Completed, now).requests)
  {
    hide Stands, OnlyForward, Expired, Spent;
    ExpiryKeepsTerms(d.requests, now);
    StatusMovesForward(d, id, Completed, now);
    var q := d.requests[id];
    var e := d.(requests := Expired(d.requests, now));
    ExpiryStands(d, b.rows, now);
    OpenedStands(e, b, Payer(q));
    OpenedStands(e, Opened(b, Payer(q)), q.initiator);
    var open := Opened(Opened(b, Payer(q)), q.initiator);
    var c := Payout(b, q, id, day);
    var n := |open.rows|;
    assert c.rows == open.rows + [c.rows[n]] + [c.rows[n + 1]];
    ConfirmedStands(e, open.rows, c.rows[n], c.rows[n + 1], id, day);
    var done := e.(requests := e.requests[id := e.requests[id].(status := Completed)]);
    OperationsDoNotMatter(done, c.rows, d.operations[(actor, key) := Operation(Confirm, id)]);
  }

  lemma PaysFacts(d: Desk, b: Books, id: string, actor: Subject, key: string, now: int)
    requires Stands(d, b.rows) && MaySettle(d, id, actor, key, now)
    ensures !Taken(b.rows, actor, ExchangeKey(id)) && !Taken(b.rows, d.requests[id].initiator, ExchangeKey(id))
    ensures actor != d.requests[id].initiator
  {
    UnpaidIsFree(d, b.rows, id, actor);
    UnpaidIsFree(d, b.rows, id, d.requests[id].initiator);
  }

  lemma PaysSpends(d: Desk, b: Books, q: Request, id: string, day: int)
    requires Stands(d, b.rows) && WellFormed(q)
    ensures Spent(Payout(b, q, id, day).rows, Payer(q), day) == Spent(b.rows, Payer(q), day) + q.amount
  {
    hide Spent, Stands;
    OpenedStands(d, b, Payer(q));
    OpenedStands(d, Opened(b, Payer(q)), q.initiator);
    var open := Opened(Opened(b, Payer(q)), q.initiator);
    var c := Payout(b, q, id, day);
    var n := |open.rows|;
    AppendSpent(open.rows, c.rows[n], Payer(q), day);
    AppendSpent(open.rows + [c.rows[n]], c.rows[n + 1], Payer(q), day);
    assert c.rows == open.rows + [c.rows[n]] + [c.rows[n + 1]];
  }

  /** A confirmation moves exactly the amount, never below zero, and creates no chips. */
  lemma PaysConserves(d: Desk, b: Books, e: Desk, c: Books, id: string, actor: Subject, key: string,
      boundTo: Option<string>, day: int, now: int)
    requires Stands(d, b.rows) && Replays(b)
    requires MayConfirm(d, b, id, actor, key, boundTo, day, now) && Pays(d, b, e, c, id, actor, key, day, now)
    ensures Replays(c)
    ensures var q := d.requests[id];
      && 0 <= Balance(c, actor) == Balance(b, actor) - q.amount
      && Balance(c, q.initiator) == Balance(b, q.initiator) + q.amount
      && (forall s :: s != actor && s != q.initiator ==> Balance(c, s) == Balance(b, s))
      && Beyond(c) == Beyond(b)
      && Spent(c.rows, actor, day) == Spent(b.rows, actor, day) + q.amount
  {
    var q := d.requests[id];
    PaysFacts(d, b, id, actor, key, now);
    MoveConserves(b, actor, q.initiator, q.amount, ExchangeOut, ExchangeIn, ExchangeKey(id), Some(day));
    PaysSpends(d, b, q, id, day);
  }

  lemma CloseStands(d: Desk, rows: seq<Row>, id: string, status: Status, now: int)
    requires Stands(d, rows) && id in d.requests && Expired(d.requests, now)[id].status == Pending
    requires status !in {Pending, Completed}
    ensures Stands(WithStatus(d, id, status, now), rows)
    ensures OnlyForward(d.requests, WithStatus(d, id, status, now).requests)
  {
    hide Stands;
    ExpiryStands(d, rows, now);
    ClosedStands(d.(requests := Expired(d.requests, now)), rows, id, status);
  }

  /** What `PaidOnce` says of one request: paid if and only if completed. */
  lemma PaidExactlyWhenCompleted(d: Desk, rows: seq<Row>, id: string)
    requires Stands(d, rows) && id in d.requests
    ensures Taken(rows, Payer(d.requests[id]), ExchangeKey(id)) <==> d.requests[id].status == Completed
  {
  }
}

/** The exchange operations, one write transaction each. */
module ExchangeBook {
  import opened Common
  import opened Chips
  import opened ChipStore
  import opened ExchangeDesk

  datatype ExchangeError =
    | NotBound | InvalidAmount | KeyReused | TooManyPending | NoSuchRequest | NotInvolved | NotPayer | NotInitiator
    | NotPending | PayerTooPoor | DailyLimit

  /** `Unbound` refuses too, but commits the expiry it found. */
  datatype Reply = Done | Replayed | Unbound | Failed(error: ExchangeError)

  class Book {
    const store: Store
    var requests: map<string, Request>
    var operations: map<(Subject, string), Operation>

    ghost function Tables(): Desk reads this {
      Desk(requests, operations)
    }

    ghost predicate Valid() reads this, store {
      store.Valid() && Stands(Tables(), store.rows)
    }

    constructor (store: Store)
      requires store.Valid() && store.rows == []
      ensures Valid() && this.store == store && Tables() == Desk(map[], map[])
    {
      this.store := store;
      requests, operations := map[], map[];
      new;
      forall pair: (string, string) ensures |PendingOf(requests, pair)| <= MAX_PENDING_PER_PAIR {
        assert PendingOf(requests, pair) == {};
      }
    }

    /** Lapse every pending request whose time is up. */
    method ExpireDue(now: int)
      requires Valid()
      modifies this`requests
      ensures Valid() && requests == Expired(old(requests), now)
      ensures OnlyForward(old(requests), requests)
    {
      hide Stands, Replays, OnlyForward;
      ghost var d := Tables();
      ExpiryStands(d, store.rows, now);
      var due := set id | id in requests && requests[id].status == Pending && requests[id].expiresAt <= now;
      var todo := due;
      while todo != {}
        invariant todo <= due && requests.Keys == old(requests).Keys
        invariant forall id :: id in requests ==>
          requests[id] == if id in due - todo then old(requests)[id].(status := Lapsed) else old(requests)[id]
        decreases todo
      {
        var id :| id in todo;
        requests := requests[id := requests[id].(status := Lapsed)];
        todo := todo - {id};
      }
      assert requests == Expired(old(requests), now);
    }

    method Create(initiator: Subject, counterpart: string, amount: int, key: string, pairIsBound: bool,
        newId: string, now: int)
      returns (r: Reply)
      requires Valid() && newId !in requests
      modifies this
      ensures Valid() && OnlyForward(old(requests), requests)
      ensures r == Done <==> MayCreate(old(Tables()), initiator, counterpart, amount, key, pairIsBound, now)
      ensures r == Done ==> Tables() == Recorded(
        old(Tables()).(requests := Expired(old(requests), now)[newId := Asked(initiator, counterpart, amount, now)]),
        initiator, key, Operation(CreateRequest, newId))
      ensures r == Replayed <==>
        && pairIsBound && 1 <= amount <= MAX_EXCHANGE_AMOUNT
        && (initiator, key) in old(operations) && old(operations)[(initiator, key)].action == CreateRequest
      ensures r == Replayed ==> Tables() == old(Tables()).(requests := Expired(old(requests), now))
      ensures r.Failed? ==> Tables() == old(Tables())
      ensures r != Unbound
    {
      hide Stands, Replays;
      if !pairIsBound {
        return Failed(NotBound);
      }
      if amount < 1 || amount > MAX_EXCHANGE_AMOUNT {
        return Failed(InvalidAmount);
      }
      var q := Asked(initiator, counterpart, amount, now);
      var saved := requests;
      ExpireDue(now);
      if (initiator, key) in operations {
        if operations[(initiator, key)].action != CreateRequest {
          requests := saved;
          return Failed(KeyReused);
        }
        return Replayed;
      }
      if |PendingOf(requests, Pair(q))| >= MAX_PENDING_PER_PAIR {
        requests := saved;
        return Failed(TooManyPending);
      }
      CreatedStands(Tables(), store.rows, newId, q);
      requests := requests[newId := q];
      OperationsDoNotMatter(Tables(), store.rows, operations[(initiator, key) := Operation(CreateRequest, newId)]);
      operations := operations[(initiator, key) := Operation(CreateRequest, newId)];
      r := Done;
    }

    /** The checks before money is touched, on requests already expired. */
    method CannotSettle(id: string, actor: Subject, key: string) returns (r: Reply)
      ensures r == Done <==>
        id in requests && actor == Payer(requests[id]) && (actor, key) !in operations && requests[id].status == Pending
      ensures r == Replayed <==>
        Repeats(Tables(), id, actor, Action.Confirm, key, Completed) && actor == Payer(requests[id])
      ensures (actor, key) in operations && operations[(actor, key)] != Operation(Action.Confirm, id) ==> r.Failed?
      ensures r != Unbound
    {
      if id !in requests {
        return Failed(NoSuchRequest);
      }
      var q := requests[id];
      if !Involved(q, actor) {
        return Failed(NotInvolved);
      }
      if actor != Payer(q) {
        return Failed(NotPayer);
      }
      if (actor, key) in operations {
        return if operations[(actor, key)] == Operation(Action.Confirm, id) then Replayed else Failed(KeyReused);
      }
      if q.status == Completed {
        return Replayed;
      }
      return if q.status == Pending then Done else Failed(NotPending);
    }

    method Settle(id: string, actor: Subject, key: string, day: int, now: int, ghost d: Desk) returns (r: Reply)
      requires store.Valid() && Stands(d, store.rows) && Tables() == d.(requests := Expired(d.requests, now))
      requires MaySettle(d, id, actor, key, now)
      modifies this, store
      ensures r == Done <==>
        && d.requests[id].amount <= Balance(old(store.Tables()), actor)
        && Spent(old(store.rows), actor, day) + d.requests[id].amount <= MAX_DAILY_PAYER_SPEND
      ensures r == Done ==> Valid() && OnlyForward(d.requests, requests)
      ensures r == Done ==>
        Pays(d, old(store.Tables()), Tables(), store.Tables(), id, actor, key, day, now)
      ensures r != Done ==>
        r.Failed? && store.Tables() == old(store.Tables()) && store.Valid() && operations == old(operations)
    {
      hide Stands, Replays, OnlyForward, Expired, Spent, HandedOver;
      ExpiryKeepsTerms(d.requests, now);
      var q := requests[id];
      ghost var b := store.Tables();
      assert q.status == Pending && Payer(q) == actor == Payer(d.requests[id]) && d.requests[id].status == Pending;
      Sides(d, b.rows, id);
      UnpaidIsFree(d, b.rows, id, actor);
      UnpaidIsFree(d, b.rows, id, q.initiator);
      var held := if actor in store.wallets then store.wallets[actor].balance else INITIAL_BALANCE;
      if held <= 0 || held < q.amount {
        return Failed(PayerTooPoor);
      }
      var spent := Spent(store.rows, actor, day);
      if spent + q.amount > MAX_DAILY_PAYER_SPEND {
        return Failed(DailyLimit);
      }
      PaysStands(d, b, id, actor, key, day, now);
      var moved, received := store.MoveChips(actor, q.initiator, q.amount, None, ExchangeOut, ExchangeIn,
        ExchangeKey(id), Some(day));
      assert moved == Moved;
      requests := requests[id := q.(status := Completed)];
      operations := operations[(actor, key) := Operation(Action.Confirm, id)];
      r := Done;
    }

    /** The payer approves; the amount moves to the initiator, once. */
    method Confirm(id: string, actor: Subject, key: string, boundTo: Option<string>, day: int, now: int)
      returns (r: Reply)
      requires Valid()
      modifies this, store
      ensures Valid() && OnlyForward(old(requests), requests)
      ensures r == Done <==> MayConfirm(old(Tables()), old(store.Tables()), id, actor, key, boundTo, day, now)
      ensures r == Done ==> Pays(old(Tables()), old(store.Tables()), Tables(), store.Tables(), id, actor, key, day, now)
      ensures r != Done ==> store.Tables() == old(store.Tables())
      ensures r == Unbound <==>
        MaySettle(old(Tables()), id, actor, key, now) && !Tied(old(requests)[id], actor, boundTo)
      ensures r == Replayed <==>
        Repeats(old(Tables()), id, actor, Action.Confirm, key, Completed) && actor == Payer(old(requests)[id])
      ensures r == Unbound ==> Tables() == WithStatus(old(Tables()), id, Lapsed, now)
      ensures r == Replayed ==> Tables() == old(Tables()).(requests := Expired(old(requests), now))
      ensures r.Failed? ==> Tables() == old(Tables())
    {
      hide Stands, Replays, OnlyForward, Expired, Pays, Spent, Balance;
      ghost var d := Tables();
      var saved := requests;
      ExpiryKeepsTerms(requests, now);
      NothingMoves(requests);
      ExpireDue(now);
      var blocked := CannotSettle(id, actor, key);
      if blocked.Failed? {
        requests := saved;
        assert Tables() == d;
        return blocked;
      }
      if blocked == Replayed {
        return Replayed;
      }
      if !Tied(requests[id], actor, boundTo) {
        CloseStands(d, store.rows, id, Lapsed, now);
        requests := requests[id := requests[id].(status := Lapsed)];
        return Unbound;
      }
      r := Settle(id, actor, key, day, now, d);
      if r.Failed? {
        requests := saved;
        assert Tables() == d;
      }
    }

    method CannotClose(id: string, actor: Subject, action: Action, target: Status, key: string) returns (r: Reply)
      requires target != Pending
      ensures r == Done <==>
        && id in requests && (actor, key) !in operations && requests[id].status == Pending
        && actor == Closer(requests[id], action)
      ensures r == Replayed <==>
        && Repeats(Tables(), id, actor, action, key, target)
        && actor == Closer(requests[id], action)
      ensures (actor, key) in operations && operations[(actor, key)] != Operation(action, id) ==> r.Failed?
      ensures r != Unbound
    {
      if id !in requests {
        return Failed(NoSuchRequest);
      }
      var q := requests[id];
      if !Involved(q, actor) {
        return Failed(NotInvolved);
      }
      if actor != (if action == Reject then Payer(q) else q.initiator) {
        return Failed(if action == Reject then NotPayer else NotInitiator);
      }
      if (actor, key) in operations {
        return if operations[(actor, key)] == Operation(action, id) then Replayed else Failed(KeyReused);
      }
      if q.status == target {
        return Replayed;
      }
      return if q.status == Pending then Done else Failed(NotPending);
    }

    /** The payer rejects, or the initiator withdraws; wallets stay untouched. */
    method Close(id: string, actor: Subject, action: Action, key: string, boundTo: Option<string>, now: int)
      returns (r: Reply)
      requires Valid() && action in {Reject, Action.Withdraw}
      modifies this
      ensures Valid() && OnlyForward(old(requests), requests)
      ensures r == Done <==>
        MayClose(old(Tables()), id, actor, action, key, now) && Tied(old(requests)[id], actor, boundTo)
      ensures r == Done ==> (
        Tables() == Recorded(WithStatus(old(Tables()), id, ClosedAs(action), now), actor, key, Operation(action, id)))
      ensures r == Unbound <==>
        MayClose(old(Tables()), id, actor, action, key, now) && !Tied(old(requests)[id], actor, boundTo)
      ensures r == Replayed <==>
        && Repeats(old(Tables()), id, actor, action, key, ClosedAs(action))
        && actor == Closer(old(requests)[id], action)
      ensures r == Unbound ==> Tables() == WithStatus(old(Tables()), id, Lapsed, now)
      ensures r == Replayed ==> Tables() == old(Tables()).(requests := Expired(old(requests), now))
      ensures r.Failed? ==> Tables() == old(Tables())
    {
      hide Stands, Replays, OnlyForward, Expired, Pays, Spent, Balance;
      ghost var d := Tables();
      var saved := requests;
      ExpiryKeepsTerms(requests, now);
      NothingMoves(requests);
      ExpireDue(now);
      var target := ClosedAs(action);
      var blocked := CannotClose(id, actor, action, target, key);
      if blocked.Failed? {
        requests := saved;
        assert Tables() == d;
        return blocked;
      }
      if blocked == Replayed {
        return Replayed;
      }
      if !Tied(requests[id], actor, boundTo) {
        CloseStands(d, store.rows, id, Lapsed, now);
        requests := requests[id := requests[id].(status := Lapsed)];
        return Unbound;
      }
      CloseStands(d, store.rows, id, target, now);
      requests := requests[id := requests[id].(status := target)];
      OperationsDoNotMatter(Tables(), store.rows, operations[(actor, key) := Operation(action, id)]);
      operations := operations[(actor, key) := Operation(action, id)];
      r := Done;
    }
  }
}
