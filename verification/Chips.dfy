/** Wallets and their append-only ledger (app/chips.py). */
module Chips {
  import opened Common
  const INITIAL_BALANCE: int := 200
  const DAILY_CHECK_IN_AMOUNT: int := 20
  const BANKRUPTCY_THRESHOLD: int := -500
  const BANKRUPTCY_RESET_BALANCE: int := 50

  datatype Kind =
    | WalletOpened | DailyCheckIn | BankruptcyReset | DuelWin | DuelLoss | AchievementReward
    | LoanPrincipalOut | LoanPrincipalIn | LoanRepaymentOut | LoanRepaymentIn | ExchangeOut | ExchangeIn

  /** The idempotency keys of ledger rows, one constructor per key format. */
  datatype LedgerKey =
    | OpeningKey
    | CheckInKey(day: int)
    | SettlementKey(room: string)
    | RewardKey(achievement: string)
    | LoanPrincipalKey(loan: string, revision: nat)
    | LoanRepaymentKey(loan: string, payer: Subject, key: string)
    | ExchangeKey(request: string)

  datatype Wallet = Wallet(balance: int, bankruptcies: nat, badge: bool)

  datatype Row = Row(owner: Subject, kind: Kind, amount: int, balanceAfter: int, key: Option<LedgerKey>,
    day: Option<int>)

  datatype Books = Books(wallets: map<Subject, Wallet>, rows: seq<Row>, batches: set<string>)

  datatype ChipError = ZeroAmount | KeyTaken | NotBankrupt | NoDeltas | UnknownPlayer | NotZeroSum | PartlySettled

  datatype Result<+T> = Ok(value: T) | Err(error: ChipError)

  // ----- what the tables mean -----

  /** Ledger total of the rows that belong to a group of owners. */
  function SumWithin(rows: seq<Row>, owners: set<Subject>): int {
    if rows == [] then 0
    else
      var last := rows[|rows| - 1];
      SumWithin(rows[..|rows| - 1], owners) + (if last.owner in owners then last.amount else 0)
  }

  predicate Taken(rows: seq<Row>, s: Subject, key: LedgerKey) {
    exists i :: 0 <= i < |rows| && rows[i].owner == s && rows[i].key == Some(key)
  }

  /** Every row shows the running sum of its wallet, under a key new to it. */
  ghost predicate Audited(rows: seq<Row>) {
    rows == [] ||
    var front, last := rows[..|rows| - 1], rows[|rows| - 1];
    && Audited(front)
    && last.balanceAfter == SumWithin(rows, {last.owner})
    && (last.key.Some? ==> !Taken(front, last.owner, last.key.value))
  }

  /** The tables replay: rows are audited and belong to wallets, every balance
      is the sum of its ledger, a bankruptcy badge means a poor wallet. */
  ghost predicate Replays(b: Books) {
    && Audited(b.rows)
    && (forall r :: r in b.rows ==> r.owner in b.wallets)
    && (forall s :: s in b.wallets ==> b.wallets[s].balance == SumWithin(b.rows, {s}))
    && (forall s :: s in b.wallets && b.wallets[s].badge ==> b.wallets[s].balance < INITIAL_BALANCE)
  }

  /** A wallet that was never opened counts as the opening balance. */
  function Balance(b: Books, s: Subject): int {
    if s in b.wallets then b.wallets[s].balance else INITIAL_BALANCE
  }

  function Opened(b: Books, s: Subject): Books {
    if s in b.wallets then b
    else b.(wallets := b.wallets[s := Wallet(INITIAL_BALANCE, 0, false)],
            rows := b.rows + [Row(s, WalletOpened, INITIAL_BALANCE, INITIAL_BALANCE, Some(OpeningKey), None)])
  }

  /** The tables after one change computed from the wallet row `seen`. */
  function Posted(b: Books, s: Subject, seen: Wallet, amount: int, kind: Kind, key: Option<LedgerKey>,
      day: Option<int>): Books
  {
    var balance := seen.balance + amount;
    b.(wallets := b.wallets[s := seen.(balance := balance, badge := seen.badge && balance < INITIAL_BALANCE)],
       rows := b.rows + [Row(s, kind, amount, balance, key, day)])
  }

  function Changed(b: Books, s: Subject, amount: int, kind: Kind, key: Option<LedgerKey>, day: Option<int>): Books
    requires s in b.wallets
  {
    Posted(b, s, b.wallets[s], amount, kind, key, day)
  }

  /** A bankruptcy: reset balance, one more on record, badge on, one ledger row. */
  function Bankrupted(b: Books, s: Subject, today: int): Books
    requires s in b.wallets
  {
    b.(wallets := b.wallets[s := Wallet(BANKRUPTCY_RESET_BALANCE, b.wallets[s].bankruptcies + 1, true)],
       rows := b.rows + [Row(s, BankruptcyReset, BANKRUPTCY_RESET_BALANCE - b.wallets[s].balance,
                             BANKRUPTCY_RESET_BALANCE, None, Some(today))])
  }

  /** One amount out of one wallet and into another, under one key. */
  function Transfer(b: Books, from: Subject, to: Subject, amount: int, kindOut: Kind, kindIn: Kind, key: LedgerKey,
      day: Option<int>): Books
    requires from in b.wallets && to in b.wallets
  {
    Changed(Changed(b, from, -amount, kindOut, Some(key), day), to, amount, kindIn, Some(key), day)
  }

  /** The money step of loans and exchanges: both wallets opened, one amount moved. */
  function HandedOver(b: Books, from: Subject, to: Subject, amount: int, kindOut: Kind, kindIn: Kind, key: LedgerKey,
      day: Option<int>): Books
  {
    Transfer(Opened(Opened(b, from), to), from, to, amount, kindOut, kindIn, key, day)
  }

  // ----- ledger replay -----

  /** What an audited ledger says row by row. */
  lemma {:induction false} RowsShowPrefixSums(rows: seq<Row>, i: nat)
    requires Audited(rows) && i < |rows|
    ensures rows[i].balanceAfter == SumWithin(rows[..i + 1], {rows[i].owner})
    ensures rows[i].key.Some? ==> !Taken(rows[..i], rows[i].owner, rows[i].key.value)
  {
    if i == |rows| - 1 {
      assert rows[..i + 1] == rows;
    } else {
      var front := rows[..|rows| - 1];
      RowsShowPrefixSums(front, i);
      assert front[..i + 1] == rows[..i + 1] && front[..i] == rows[..i];
    }
  }

  lemma AppendSum(rows: seq<Row>, row: Row, owners: set<Subject>)
    ensures SumWithin(rows + [row], owners) == SumWithin(rows, owners) + (if row.owner in owners then row.amount else 0)
  {
    assert (rows + [row])[..|rows|] == rows;
  }

  lemma AuditedAppends(rows: seq<Row>, row: Row)
    requires Audited(rows) && row.balanceAfter == SumWithin(rows, {row.owner}) + row.amount
    requires row.key.Some? ==> !Taken(rows, row.owner, row.key.value)
    ensures Audited(rows + [row])
  {
    hide Taken;
    assert (rows + [row])[..|rows|] == rows;
    AppendSum(rows, row, {row.owner});
  }

  lemma AppendReplays(b: Books, c: Books, row: Row)
    requires Replays(b) && c.rows == b.rows + [row] && row.owner in c.wallets
    requires c.wallets.Keys == b.wallets.Keys + {row.owner}
    requires forall s :: s in b.wallets && s != row.owner ==> c.wallets[s] == b.wallets[s]
    requires row.owner !in b.wallets ==> SumWithin(b.rows, {row.owner}) == 0
    requires c.wallets[row.owner].balance == SumWithin(b.rows, {row.owner}) + row.amount == row.balanceAfter
    requires c.wallets[row.owner].badge ==> row.balanceAfter < INITIAL_BALANCE
    requires row.key.Some? ==> !Taken(b.rows, row.owner, row.key.value)
    ensures Replays(c)
  {
    hide SumWithin, Audited, Taken;
    AuditedAppends(b.rows, row);
    forall s | s in c.wallets ensures c.wallets[s].balance == SumWithin(c.rows, {s}) {
      AppendSum(b.rows, row, {s});
    }
  }

  lemma {:induction false} NoRowsNoSum(rows: seq<Row>, s: Subject)
    requires forall i :: 0 <= i < |rows| ==> rows[i].owner != s
    ensures SumWithin(rows, {s}) == 0
  {
    if rows != [] {
      NoRowsNoSum(rows[..|rows| - 1], s);
    }
  }

  lemma OpenedReplays(b: Books, s: Subject)
    requires Replays(b)
    ensures Replays(Opened(b, s)) && s in Opened(b, s).wallets
    ensures forall o :: Balance(Opened(b, s), o) == Balance(b, o)
  {
    if s !in b.wallets {
      assert !Taken(b.rows, s, OpeningKey);
      NoRowsNoSum(b.rows, s);
      var c := Opened(b, s);
      AppendReplays(b, c, c.rows[|b.rows|]);
    }
  }

  lemma ChangedReplays(b: Books, s: Subject, amount: int, kind: Kind, key: Option<LedgerKey>, day: Option<int>)
    requires Replays(b) && s in b.wallets && (key.Some? ==> !Taken(b.rows, s, key.value))
    ensures Replays(Changed(b, s, amount, kind, key, day))
  {
    var c := Changed(b, s, amount, kind, key, day);
    AppendReplays(b, c, c.rows[|b.rows|]);
  }

  lemma BankruptedReplays(b: Books, s: Subject, today: int)
    requires Replays(b) && s in b.wallets
    ensures Replays(Bankrupted(b, s, today))
  {
    var c := Bankrupted(b, s, today);
    AppendReplays(b, c, c.rows[|b.rows|]);
  }

  // ----- badges and bankruptcies, read off the ledger -----

  /** A badge is earned by a reset and lost once the wallet shows 200 or more. */
  predicate BadgeIn(rows: seq<Row>, s: Subject) {
    rows != [] &&
    var front, last := rows[..|rows| - 1], rows[|rows| - 1];
    if last.owner != s then BadgeIn(front, s)
    else last.kind == BankruptcyReset || (BadgeIn(front, s) && last.balanceAfter < 200)
  }

  function ResetsIn(rows: seq<Row>, s: Subject): nat {
    if rows == [] then 0
    else
      var last := rows[|rows| - 1];
      ResetsIn(rows[..|rows| - 1], s) + if last.owner == s && last.kind == BankruptcyReset then 1 else 0
  }

  /** Every wallet carries the badge and the count its ledger rows tell of. */
  ghost predicate BadgesTold(b: Books) {
    forall s :: s in b.wallets ==>
      b.wallets[s].badge == BadgeIn(b.rows, s) && b.wallets[s].bankruptcies == ResetsIn(b.rows, s)
  }

  lemma TellsOneMore(rows: seq<Row>, row: Row, s: Subject)
    ensures BadgeIn(rows + [row], s) ==
      if row.owner != s then BadgeIn(rows, s)
      else row.kind == BankruptcyReset || (BadgeIn(rows, s) && row.balanceAfter < 200)
    ensures ResetsIn(rows + [row], s)
      == ResetsIn(rows, s) + if row.owner == s && row.kind == BankruptcyReset then 1 else 0
  {
    assert (rows + [row])[..|rows|] == rows;
  }

  lemma {:induction false} NothingToldOf(rows: seq<Row>, s: Subject)
    requires forall i :: 0 <= i < |rows| ==> rows[i].owner != s
    ensures !BadgeIn(rows, s) && ResetsIn(rows, s) == 0
  {
    if rows != [] {
      NothingToldOf(rows[..|rows| - 1], s);
    }
  }

  lemma RowTold(b: Books, c: Books, row: Row)
    requires BadgesTold(b) && c.rows == b.rows + [row] && row.owner in c.wallets
    requires c.wallets.Keys == b.wallets.Keys + {row.owner}
    requires forall s :: s in b.wallets && s != row.owner ==> c.wallets[s] == b.wallets[s]
    requires row.owner in b.wallets || (!BadgeIn(b.rows, row.owner) && ResetsIn(b.rows, row.owner) == 0)
    requires var badge := row.owner in b.wallets && b.wallets[row.owner].badge;
      var count := if row.owner in b.wallets then b.wallets[row.owner].bankruptcies else 0;
      c.wallets[row.owner] == if row.kind == BankruptcyReset then Wallet(row.balanceAfter, count + 1, true)
                              else Wallet(row.balanceAfter, count, badge && row.balanceAfter < 200)
    ensures BadgesTold(c)
  {
    hide BadgeIn, ResetsIn;
    forall s | s in c.wallets
      ensures c.wallets[s].badge == BadgeIn(c.rows, s) && c.wallets[s].bankruptcies == ResetsIn(c.rows, s)
    {
      TellsOneMore(b.rows, row, s);
    }
  }

  lemma OpenedTold(b: Books, s: Subject)
    requires Replays(b) && BadgesTold(b)
    ensures BadgesTold(Opened(b, s))
  {
    hide BadgesTold, Audited, SumWithin;
    if s !in b.wallets {
      NothingToldOf(b.rows, s);
      RowTold(b, Opened(b, s), Opened(b, s).rows[|b.rows|]);
    }
  }

  lemma ChangedTold(b: Books, s: Subject, amount: int, kind: Kind, key: Option<LedgerKey>, day: Option<int>)
    requires BadgesTold(b) && s in b.wallets && kind != BankruptcyReset
    ensures BadgesTold(Changed(b, s, amount, kind, key, day))
  {
    hide BadgesTold;
    var c := Changed(b, s, amount, kind, key, day);
    RowTold(b, c, c.rows[|b.rows|]);
  }

  lemma BankruptedTold(b: Books, s: Subject, today: int)
    requires BadgesTold(b) && s in b.wallets
    ensures BadgesTold(Bankrupted(b, s, today))
  {
    hide BadgesTold;
    var c := Bankrupted(b, s, today);
    RowTold(b, c, c.rows[|b.rows|]);
  }

  lemma HandedOverTold(b: Books, from: Subject, to: Subject, amount: int, kindOut: Kind, kindIn: Kind,
      key: LedgerKey, day: Option<int>)
    requires Replays(b) && BadgesTold(b) && kindOut != BankruptcyReset && kindIn != BankruptcyReset
    ensures BadgesTold(HandedOver(b, from, to, amount, kindOut, kindIn, key, day))
  {
    hide BadgesTold, Replays;
    OpenedTold(b, from);
    OpenedReplays(b, from);
    OpenedTold(Opened(b, from), to);
    var open := Opened(Opened(b, from), to);
    ChangedTold(open, from, -amount, kindOut, Some(key), day);
    ChangedTold(Changed(open, from, -amount, kindOut, Some(key), day), to, amount, kindIn, Some(key), day);
  }

  // ----- conservation -----

  ghost function SumBalances(wallets: map<Subject, Wallet>): int {
    if wallets == map[] then 0
    else
      var s :| s in wallets;
      wallets[s].balance + SumBalances(wallets - {s})
  }

  lemma {:induction false} SumSplits(rows: seq<Row>, owners: set<Subject>, s: Subject)
    requires s in owners
    ensures SumWithin(rows, owners) == SumWithin(rows, {s}) + SumWithin(rows, owners - {s})
  {
    if rows != [] {
      SumSplits(rows[..|rows| - 1], owners, s);
    }
  }

  lemma {:induction false} NoOwnersNoSum(rows: seq<Row>)
    ensures SumWithin(rows, {}) == 0
  {
    if rows != [] {
      NoOwnersNoSum(rows[..|rows| - 1]);
    }
  }

  lemma {:induction false} BalancesAreLedgerSums(rows: seq<Row>, wallets: map<Subject, Wallet>)
    requires forall s :: s in wallets ==> wallets[s].balance == SumWithin(rows, {s})
    ensures SumBalances(wallets) == SumWithin(rows, wallets.Keys)
    decreases |wallets|
  {
    if wallets == map[] {
      NoOwnersNoSum(rows);
    } else {
      var s :| s in wallets && SumBalances(wallets) == wallets[s].balance + SumBalances(wallets - {s});
      assert (wallets - {s}).Keys == wallets.Keys - {s};
      BalancesAreLedgerSums(rows, wallets - {s});
      SumSplits(rows, wallets.Keys, s);
    }
  }

  lemma StillFree(rows: seq<Row>, row: Row, s: Subject, key: LedgerKey)
    requires !Taken(rows, s, key) && (row.owner != s || row.key != Some(key))
    ensures !Taken(rows + [row], s, key)
  {
  }

  lemma TransferReplays(b: Books, from: Subject, to: Subject, amount: int, kindOut: Kind, kindIn: Kind,
      key: LedgerKey, day: Option<int>)
    requires Replays(b) && from in b.wallets && to in b.wallets && from != to
    requires !Taken(b.rows, from, key) && !Taken(b.rows, to, key)
    ensures Replays(Transfer(b, from, to, amount, kindOut, kindIn, key, day))
  {
    ChangedReplays(b, from, -amount, kindOut, Some(key), day);
    StillFree(b.rows, Row(from, kindOut, -amount, b.wallets[from].balance - amount, Some(key), day), to, key);
    ChangedReplays(Changed(b, from, -amount, kindOut, Some(key), day), to, amount, kindIn, Some(key), day);
  }

  /** A transfer keeps the ledger replayable and moves value between two wallets
      only: the total of all balances is the same before and after. */
  lemma TransferConserves(b: Books, from: Subject, to: Subject, amount: int, kindOut: Kind, kindIn: Kind,
      key: LedgerKey, day: Option<int>)
    requires Replays(b) && from in b.wallets && to in b.wallets && from != to
    requires !Taken(b.rows, from, key) && !Taken(b.rows, to, key)
    ensures var c := Transfer(b, from, to, amount, kindOut, kindIn, key, day);
      && Replays(c) && c.wallets.Keys == b.wallets.Keys
      && SumBalances(c.wallets) == SumBalances(b.wallets)
      && Balance(c, from) == Balance(b, from) - amount
      && Balance(c, to) == Balance(b, to) + amount
      && (forall s :: s != from && s != to ==> Balance(c, s) == Balance(b, s))
  {
    var m := Changed(b, from, -amount, kindOut, Some(key), day);
    var c := Transfer(b, from, to, amount, kindOut, kindIn, key, day);
    TransferReplays(b, from, to, amount, kindOut, kindIn, key, day);
    assert c.wallets.Keys == b.wallets.Keys;
    assert SumBalances(c.wallets) == SumBalances(b.wallets) by {
      BalancesAreLedgerSums(b.rows, b.wallets);
      BalancesAreLedgerSums(c.rows, c.wallets);
      AppendSum(b.rows, m.rows[|b.rows|], b.wallets.Keys);
      AppendSum(m.rows, c.rows[|m.rows|], b.wallets.Keys);
    }
  }

  /** Opening a wallet adds exactly its opening balance to the total. */
  lemma OpeningAddsInitialBalance(b: Books, s: Subject)
    requires Replays(b)
    ensures SumBalances(Opened(b, s).wallets) - INITIAL_BALANCE * |Opened(b, s).wallets|
         == SumBalances(b.wallets) - INITIAL_BALANCE * |b.wallets|
  {
    hide SumWithin, SumBalances, Audited;
    if s !in b.wallets {
      var c := Opened(b, s);
      OpenedReplays(b, s);
      BalancesAreLedgerSums(b.rows, b.wallets);
      BalancesAreLedgerSums(c.rows, c.wallets);
      AppendSum(b.rows, c.rows[|b.rows|], c.wallets.Keys);
      SumSplits(b.rows, c.wallets.Keys, s);
      NoRowsNoSum(b.rows, s);
      assert c.wallets.Keys - {s} == b.wallets.Keys;
    }
  }

  /** One row of a known wallet adds its amount to the total. */
  lemma PostedAdds(b: Books, c: Books, row: Row)
    requires Replays(b) && Replays(c) && c.rows == b.rows + [row] && c.wallets.Keys == b.wallets.Keys
    requires row.owner in b.wallets
    ensures SumBalances(c.wallets) == SumBalances(b.wallets) + row.amount && |c.wallets| == |b.wallets|
  {
    hide Audited, SumWithin, SumBalances;
    BalancesAreLedgerSums(b.rows, b.wallets);
    BalancesAreLedgerSums(c.rows, c.wallets);
    AppendSum(b.rows, row, b.wallets.Keys);
    assert |c.wallets| == |c.wallets.Keys| && |b.wallets| == |b.wallets.Keys|;
  }
}
