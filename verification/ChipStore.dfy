/** The chip tables as the code updates them, one statement after another
    (app/chips.py).  An operation that fails leaves the tables as it found them:
    the surrounding write transaction is rolled back. */
module ChipStore {
  import opened Common
  import opened Chips
  import opened Seating

  /** One entry of a settlement: player id and change. */
  type Delta = (string, int)

  function DeltaSum(ds: seq<Delta>): int {
    if ds == [] then 0 else DeltaSum(ds[..|ds| - 1]) + ds[|ds| - 1].1
  }

  /** The wallet owner a player's delta is charged to; system NPCs have none. */
  function Payee(ps: seq<Participant>, player: string): Option<Subject> {
    if ps == [] then None
    else if ps[|ps| - 1].player == player then
      if ps[|ps| - 1].systemNpc then None else Some(Owner(ps[|ps| - 1]))
    else Payee(ps[..|ps| - 1], player)
  }

  /** What a settlement changes in one wallet, all its entries together. */
  function Due(ps: seq<Participant>, ds: seq<Delta>, s: Subject): int {
    if ds == [] then 0
    else Due(ps, ds[..|ds| - 1], s) + (if Payee(ps, ds[|ds| - 1].0) == Some(s) then ds[|ds| - 1].1 else 0)
  }

  /** The keys of the dictionary of deltas. */
  ghost predicate DistinctDeltas(ds: seq<Delta>) {
    forall i, j :: 0 <= i < j < |ds| ==> ds[i].0 != ds[j].0
  }

  predicate Charged(ps: seq<Participant>, d: Delta) {
    Payee(ps, d.0).Some? && d.1 != 0
  }

  function ChargedIn(ps: seq<Participant>, ds: seq<Delta>): set<int> {
    set i | 0 <= i < |ds| && Charged(ps, ds[i])
  }

  /** Entries whose settlement row is already in the ledger. */
  function SettledIn(ps: seq<Participant>, ds: seq<Delta>, rows: seq<Row>, room: string): set<int> {
    set i | 0 <= i < |ds| && Charged(ps, ds[i]) && Taken(rows, Payee(ps, ds[i].0).value, SettlementKey(room))
  }

  /** The rows a settlement may write: openings, wins and losses of its room. */
  predicate SettlementRow(r: Row, room: string) {
    || (r.kind == WalletOpened && r.key == Some(OpeningKey))
    || (r.amount != 0 && r.kind == (if r.amount > 0 then DuelWin else DuelLoss) && r.key == Some(SettlementKey(room)))
  }

  ghost predicate SettledOnly(before: seq<Row>, after: seq<Row>, room: string) {
    before <= after && forall i :: |before| <= i < |after| ==> SettlementRow(after[i], room)
  }

  lemma NothingSettled(rows: seq<Row>, room: string)
    ensures SettledOnly(rows, rows, room)
  {
  }

  lemma SettledTwice(a: seq<Row>, b: seq<Row>, c: seq<Row>, room: string)
    requires SettledOnly(a, b, room) && SettledOnly(b, c, room)
    ensures SettledOnly(a, c, room)
  {
    forall i | |a| <= i < |c| ensures SettlementRow(c[i], room) {
      assert i < |b| ==> b[i] == c[i];
    }
  }

  predicate Acceptable(ps: seq<Participant>, ds: seq<Delta>, requireZeroSum: bool) {
    && ds != [] && (forall d :: d in ds ==> d.0 in Players(ps))
    && (requireZeroSum ==> DeltaSum(ds) == 0)
  }

  lemma {:induction false} PayeeNamesPlayer(ps: seq<Participant>, player: string)
    ensures Payee(ps, player).Some? ==> Payee(ps, player).value.id == player
  {
    if ps != [] {
      PayeeNamesPlayer(ps[..|ps| - 1], player);
    }
  }

  lemma {:induction false} DueNobody(ps: seq<Participant>, ds: seq<Delta>, s: Subject)
    requires forall i :: 0 <= i < |ds| ==> Payee(ps, ds[i].0) != Some(s)
    ensures Due(ps, ds, s) == 0
  {
    if ds != [] {
      DueNobody(ps, ds[..|ds| - 1], s);
    }
  }

  /** The wallet a listed player is paid from, by the fields of its seat. */
  lemma {:induction false} PayeeOfSeat(ps: seq<Participant>, i: nat)
    requires Distinct(ps) && i < |ps|
    ensures Payee(ps, ps[i].player) ==
      if ps[i].systemNpc then None else Some(if ps[i].human then Human(ps[i].player) else Ai(ps[i].player))
  {
    if i < |ps| - 1 {
      PayeeOfSeat(ps[..|ps| - 1], i);
    }
  }

  lemma {:induction false} PayeeHasSeat(ps: seq<Participant>, player: string)
    ensures Payee(ps, player).Some? ==> exists i :: 0 <= i < |ps| && ps[i].player == player && !ps[i].systemNpc
  {
    if ps != [] && ps[|ps| - 1].player != player {
      PayeeHasSeat(ps[..|ps| - 1], player);
    }
  }

  /** Of distinct entries at most one is due in a wallet. */
  lemma {:induction false} DueOfEntry(ps: seq<Participant>, ds: seq<Delta>, s: Subject, k: nat)
    requires DistinctDeltas(ds) && k < |ds| && Payee(ps, ds[k].0) == Some(s)
    ensures Due(ps, ds, s) == ds[k].1
  {
    var front := ds[..|ds| - 1];
    if k == |ds| - 1 {
      forall i | 0 <= i < |front| ensures Payee(ps, front[i].0) != Some(s) {
        PayeeNamesPlayer(ps, front[i].0);
        PayeeNamesPlayer(ps, ds[k].0);
      }
      DueNobody(ps, front, s);
    } else {
      DueOfEntry(ps, front, s, k);
      PayeeNamesPlayer(ps, ds[k].0);
      PayeeNamesPlayer(ps, ds[|ds| - 1].0);
    }
  }

  /** What a settlement does to balances, by seat: every listed player that is no
      system NPC gets its entry into its own wallet, and nobody else is touched. */
  ghost predicate PaidBySeat(ps: seq<Participant>, ds: seq<Delta>, before: Books, after: Books) {
    && (forall i, k :: 0 <= i < |ps| && 0 <= k < |ds| && ds[k].0 == ps[i].player && !ps[i].systemNpc ==>
          var s := if ps[i].human then Human(ps[i].player) else Ai(ps[i].player);
          Balance(after, s) == Balance(before, s) + ds[k].1)
    && (forall s ::
          (forall i, k :: 0 <= i < |ps| && 0 <= k < |ds| && ds[k].0 == ps[i].player && !ps[i].systemNpc ==>
             s != if ps[i].human then Human(ps[i].player) else Ai(ps[i].player)) ==>
          Balance(after, s) == Balance(before, s))
  }

  lemma DuesBySeat(ps: seq<Participant>, ds: seq<Delta>, before: Books, after: Books)
    requires Distinct(ps) && DistinctDeltas(ds)
    requires forall s :: Balance(after, s) == Balance(before, s) + Due(ps, ds, s)
    ensures PaidBySeat(ps, ds, before, after)
  {
    hide Balance, Due, Payee;
    forall i, k | 0 <= i < |ps| && 0 <= k < |ds| && ds[k].0 == ps[i].player && !ps[i].systemNpc
      ensures var s := if ps[i].human then Human(ps[i].player) else Ai(ps[i].player); Due(ps, ds, s) == ds[k].1
    {
      PayeeOfSeat(ps, i);
      DueOfEntry(ps, ds, if ps[i].human then Human(ps[i].player) else Ai(ps[i].player), k);
    }
    forall s | forall i, k :: 0 <= i < |ps| && 0 <= k < |ds| && ds[k].0 == ps[i].player && !ps[i].systemNpc ==>
      s != if ps[i].human then Human(ps[i].player) else Ai(ps[i].player)
      ensures Due(ps, ds, s) == 0
    {
      forall k | 0 <= k < |ds| ensures Payee(ps, ds[k].0) != Some(s) {
        PayeeHasSeat(ps, ds[k].0);
        if Payee(ps, ds[k].0).Some? {
          var i :| 0 <= i < |ps| && ps[i].player == ds[k].0 && !ps[i].systemNpc;
          PayeeOfSeat(ps, i);
        }
      }
      DueNobody(ps, ds, s);
    }
  }

  lemma BatchesDoNotMatter(b: Books, batches: set<string>)
    requires Replays(b)
    ensures Replays(b.(batches := batches))
  {
  }

  lemma AppendTakes(rows: seq<Row>, row: Row, s: Subject, key: LedgerKey)
    ensures Taken(rows + [row], s, key) <==> Taken(rows, s, key) || (row.owner == s && row.key == Some(key))
  {
    if Taken(rows, s, key) {
      var i :| 0 <= i < |rows| && rows[i].owner == s && rows[i].key == Some(key);
      assert (rows + [row])[i] == rows[i];
    }
    if row.owner == s && row.key == Some(key) {
      assert (rows + [row])[|rows|] == row;
    }
  }

  lemma OpeningTakesNothing(b: Books, s: Subject, o: Subject, key: LedgerKey)
    requires key != OpeningKey
    ensures forall w :: Taken(Opened(Opened(b, s), o).rows, w, key) ==> Taken(b.rows, w, key)
  {
    var c := Opened(b, s);
    forall w | Taken(Opened(c, o).rows, w, key) ensures Taken(b.rows, w, key) {
      if o !in c.wallets {
        AppendTakes(c.rows, Opened(c, o).rows[|c.rows|], w, key);
      }
      if s !in b.wallets {
        AppendTakes(b.rows, c.rows[|b.rows|], w, key);
      }
    }
  }

  lemma OpeningSettlesNothing(b: Books, s: Subject)
    ensures forall o, k :: k != OpeningKey ==> (Taken(Opened(b, s).rows, o, k) <==> Taken(b.rows, o, k))
  {
    if s !in b.wallets {
      forall o, k | k != OpeningKey ensures Taken(Opened(b, s).rows, o, k) <==> Taken(b.rows, o, k) {
        AppendTakes(b.rows, Opened(b, s).rows[|b.rows|], o, k);
      }
    }
  }

  lemma SameSettled(ps: seq<Participant>, ds: seq<Delta>, before: seq<Row>, after: seq<Row>, room: string)
    requires forall s, k :: k != OpeningKey ==> (Taken(after, s, k) <==> Taken(before, s, k))
    ensures SettledIn(ps, ds, after, room) == SettledIn(ps, ds, before, room)
  {
    hide Taken;
  }

  lemma NoneSettled(ps: seq<Participant>, ds: seq<Delta>, rows: seq<Row>, room: string)
    requires SettledIn(ps, ds, rows, room) == {}
    ensures forall i :: 0 <= i < |ds| && Charged(ps, ds[i]) ==>
      !Taken(rows, Payee(ps, ds[i].0).value, SettlementKey(room))
  {
    hide Taken;
    forall i | 0 <= i < |ds| && Charged(ps, ds[i]) ensures !Taken(rows, Payee(ps, ds[i].0).value, SettlementKey(room)) {
      assert i !in SettledIn(ps, ds, rows, room);
    }
  }

  lemma AllSettled(ps: seq<Participant>, ds: seq<Delta>, rows: seq<Row>, room: string)
    requires forall i :: 0 <= i < |ds| && Charged(ps, ds[i]) ==>
      Taken(rows, Payee(ps, ds[i].0).value, SettlementKey(room))
    ensures SettledIn(ps, ds, rows, room) == ChargedIn(ps, ds)
  {
    hide Taken;
  }

  lemma SameBalances(b: Books, batches: set<string>)
    ensures forall s :: Balance(b.(batches := batches), s) == Balance(b, s)
  {
  }

  /** Chips in existence beyond the opening balances of the wallets. */
  ghost function Beyond(b: Books): int {
    SumBalances(b.wallets) - INITIAL_BALANCE * |b.wallets|
  }

  // ----- a settlement neither makes nor loses chips -----

  /** What a group of owners holds beyond one opening balance each. */
  ghost function Excess(b: Books, owners: set<Subject>): int {
    if owners == {} then 0
    else
      var s :| s in owners;
      Balance(b, s) - INITIAL_BALANCE + Excess(b, owners - {s})
  }

  lemma {:induction false} ExcessSplits(b: Books, owners: set<Subject>, s: Subject)
    requires s in owners
    ensures Excess(b, owners) == Balance(b, s) - INITIAL_BALANCE + Excess(b, owners - {s})
    decreases owners
  {
    var o :| o in owners && Excess(b, owners) == Balance(b, o) - INITIAL_BALANCE + Excess(b, owners - {o});
    if o != s {
      ExcessSplits(b, owners - {o}, s);
      ExcessSplits(b, owners - {s}, o);
      assert owners - {o} - {s} == owners - {s} - {o};
    }
  }

  lemma {:induction false} BeyondIsExcess(b: Books, wallets: map<Subject, Wallet>)
    requires forall s :: s in wallets ==> s in b.wallets && b.wallets[s] == wallets[s]
    ensures SumBalances(wallets) == Excess(b, wallets.Keys) + INITIAL_BALANCE * |wallets|
    decreases |wallets|
  {
    if wallets != map[] {
      var s :| s in wallets && SumBalances(wallets) == wallets[s].balance + SumBalances(wallets - {s});
      assert (wallets - {s}).Keys == wallets.Keys - {s};
      BeyondIsExcess(b, wallets - {s});
      ExcessSplits(b, wallets.Keys, s);
      assert |wallets - {s}| == |(wallets - {s}).Keys| == |wallets.Keys| - 1 == |wallets| - 1;
    }
  }

  lemma {:induction false} UnopenedAddNothing(b: Books, owners: set<Subject>, more: set<Subject>)
    requires more !! owners && more !! b.wallets.Keys
    ensures Excess(b, owners + more) == Excess(b, owners)
    decreases more
  {
    if more == {} {
      assert owners + more == owners;
    } else {
      var s :| s in more;
      UnopenedAddNothing(b, owners, more - {s});
      ExcessSplits(b, owners + more, s);
      assert owners + more - {s} == owners + (more - {s});
    }
  }

  lemma BeyondWithin(b: Books, owners: set<Subject>)
    requires b.wallets.Keys <= owners
    ensures Beyond(b) == Excess(b, owners)
  {
    BeyondIsExcess(b, b.wallets);
    UnopenedAddNothing(b, b.wallets.Keys, owners - b.wallets.Keys);
    assert b.wallets.Keys + (owners - b.wallets.Keys) == owners;
  }

  /** Sum of the entries that are charged to a wallet of a group. */
  function DueWithin(ps: seq<Participant>, ds: seq<Delta>, owners: set<Subject>): int {
    if ds == [] then 0
    else
      var payee := Payee(ps, ds[|ds| - 1].0);
      DueWithin(ps, ds[..|ds| - 1], owners)
        + (if payee.Some? && payee.value in owners then ds[|ds| - 1].1 else 0)
  }

  lemma {:induction false} DueSplits(ps: seq<Participant>, ds: seq<Delta>, owners: set<Subject>, s: Subject)
    requires s in owners
    ensures DueWithin(ps, ds, owners) == Due(ps, ds, s) + DueWithin(ps, ds, owners - {s})
  {
    if ds != [] {
      DueSplits(ps, ds[..|ds| - 1], owners, s);
    }
  }

  lemma {:induction false} DueWithinNone(ps: seq<Participant>, ds: seq<Delta>)
    ensures DueWithin(ps, ds, {}) == 0
  {
    if ds != [] {
      DueWithinNone(ps, ds[..|ds| - 1]);
    }
  }

  lemma {:induction false} ExcessMoves(ps: seq<Participant>, ds: seq<Delta>, before: Books, after: Books,
      owners: set<Subject>)
    requires forall s :: Balance(after, s) == Balance(before, s) + Due(ps, ds, s)
    ensures Excess(after, owners) == Excess(before, owners) + DueWithin(ps, ds, owners)
    decreases owners
  {
    hide Balance, Due;
    if owners == {} {
      DueWithinNone(ps, ds);
    } else {
      var s :| s in owners;
      ExcessMoves(ps, ds, before, after, owners - {s});
      ExcessSplits(before, owners, s);
      ExcessSplits(after, owners, s);
      DueSplits(ps, ds, owners, s);
    }
  }

  lemma {:induction false} EveryoneIsDue(ps: seq<Participant>, ds: seq<Delta>, owners: set<Subject>)
    requires Distinct(ps) && (forall p :: p in ps ==> !p.systemNpc) && (forall d :: d in ds ==> d.0 in Players(ps))
    requires forall d :: d in ds && Payee(ps, d.0).Some? ==> Payee(ps, d.0).value in owners
    ensures DueWithin(ps, ds, owners) == DeltaSum(ds)
  {
    if ds != [] {
      var last := ds[|ds| - 1];
      assert forall d :: d in ds[..|ds| - 1] ==> d in ds;
      EveryoneIsDue(ps, ds[..|ds| - 1], owners);
      assert last in ds;
      var p :| p in ps && p.player == last.0;
      var i :| 0 <= i < |ps| && ps[i] == p;
      PayeeOfSeat(ps, i);
    }
  }

  /** A zero-sum settlement between wallets neither makes nor loses a chip. */
  lemma SettlementConserves(ps: seq<Participant>, ds: seq<Delta>, before: Books, after: Books)
    requires Distinct(ps) && (forall p :: p in ps ==> !p.systemNpc) && (forall d :: d in ds ==> d.0 in Players(ps))
    requires forall s :: Balance(after, s) == Balance(before, s) + Due(ps, ds, s)
    ensures Beyond(after) == Beyond(before) + DeltaSum(ds)
  {
    hide Balance, Due, Beyond, Payee;
    var payees := set d | d in ds && Payee(ps, d.0).Some? :: Payee(ps, d.0).value;
    var owners := before.wallets.Keys + after.wallets.Keys + payees;
    BeyondWithin(before, owners);
    BeyondWithin(after, owners);
    ExcessMoves(ps, ds, before, after, owners);
    EveryoneIsDue(ps, ds, owners);
  }

  lemma SameSize(a: map<Subject, Wallet>, b: map<Subject, Wallet>)
    requires a.Keys == b.Keys
    ensures |a| == |b|
  {
    assert |a| == |a.Keys| && |b| == |b.Keys|;
  }

  /** The money step of loans and exchanges, wallets opened where missing: one
      balance falls by the amount, one rises by it, all others stay, and what
      exists beyond the opening balances stays the same. */
  lemma MoveConserves(b: Books, from: Subject, to: Subject, amount: int, kindOut: Kind, kindIn: Kind, key: LedgerKey,
      day: Option<int>)
    requires Replays(b) && from != to && key != OpeningKey
    requires !Taken(b.rows, from, key) && !Taken(b.rows, to, key)
    ensures var c := HandedOver(b, from, to, amount, kindOut, kindIn, key, day);
      && Replays(c)
      && Balance(c, from) == Balance(b, from) - amount
      && Balance(c, to) == Balance(b, to) + amount
      && (forall s :: s != from && s != to ==> Balance(c, s) == Balance(b, s))
      && Beyond(c) == Beyond(b)
  {
    hide Replays, Taken, SumBalances, Transfer;
    var once := Opened(b, from);
    OpenedReplays(b, from);
    OpenedReplays(once, to);
    OpeningTakesNothing(b, from, to, key);
    OpeningAddsInitialBalance(b, from);
    OpeningAddsInitialBalance(once, to);
    TransferConserves(Opened(once, to), from, to, amount, kindOut, kindIn, key, day);
    assert |Transfer(Opened(once, to), from, to, amount, kindOut, kindIn, key, day).wallets|
      == |Opened(once, to).wallets| by {
      SameSize(Transfer(Opened(once, to), from, to, amount, kindOut, kindIn, key, day).wallets, Opened(once,
        to).wallets);
    }
  }

  lemma Handed(b: Books, from: Subject, to: Subject, amount: int, kindOut: Kind, kindIn: Kind, key: LedgerKey,
      day: Option<int>)
    ensures var open := Opened(Opened(b, from), to);
      && from in open.wallets && to in open.wallets
      && HandedOver(b, from, to, amount, kindOut, kindIn, key, day)
        == Transfer(open, from, to, amount, kindOut, kindIn, key, day)
  {
    hide Transfer;
  }

  datatype Move = Moved | PayerShort | PayeeFull

  class Store {
    var wallets: map<Subject, Wallet>
    var rows: seq<Row>
    var batches: set<string>

    ghost function Tables(): Books reads this {
      Books(wallets, rows, batches)
    }

    ghost predicate Valid() reads this {
      Replays(Tables())
    }

    constructor ()
      ensures Valid() && Tables() == Books(map[], [], {})
    {
      wallets, rows, batches := map[], [], {};
    }

    method EnsureWallet(s: Subject) returns (w: Wallet)
      requires Valid()
      modifies this
      ensures Valid() && Tables() == Opened(old(Tables()), s)
      ensures s in wallets && w == wallets[s]
      ensures s in old(wallets) ==> wallets == old(wallets) && rows == old(rows)
      ensures s !in old(wallets) ==>
        && w == Wallet(200, 0, false) && wallets == old(wallets)[s := w]
        && rows == old(rows) + [Row(s, WalletOpened, 200, 200, Some(OpeningKey), None)]
    {
      OpenedReplays(Tables(), s);
      if s !in wallets {
        wallets := wallets[s := Wallet(INITIAL_BALANCE, 0, false)];
        rows := rows + [Row(s, WalletOpened, INITIAL_BALANCE, INITIAL_BALANCE, Some(OpeningKey), None)];
      }
      w := wallets[s];
    }

    /** The new balance comes from the row the caller read, as in the source; the
        ledger replays afterwards when that row was still current. */
    method ApplyBalanceChange(s: Subject, seen: Wallet, amount: int, kind: Kind, key: Option<LedgerKey>,
        day: Option<int>)
      returns (r: Result<Wallet>)
      requires s in wallets
      modifies this
      ensures amount == 0 ==> r == Err(ZeroAmount)
      ensures amount != 0 && key.Some? && Taken(old(rows), s, key.value) ==> r == Err(KeyTaken)
      ensures amount != 0 && !(key.Some? && Taken(old(rows), s, key.value)) ==>
        Tables() == Posted(old(Tables()), s, seen, amount, kind, key, day) && r == Ok(wallets[s])
      ensures r.Ok? ==>
        && r.value == Wallet(seen.balance + amount, seen.bankruptcies, seen.badge && seen.balance + amount < 200)
        && rows == old(rows) + [Row(s, kind, amount, seen.balance + amount, key, day)]
      ensures r.Err? ==> Tables() == old(Tables())
      ensures r.Ok? && old(Valid()) && seen == old(wallets)[s] ==> Valid()
    {
      if amount == 0 {
        return Err(ZeroAmount);
      }
      if key.Some? && Taken(rows, s, key.value) {
        return Err(KeyTaken);  // UNIQUE (wallet_id, idempotency_key)
      }
      if Valid() && seen == wallets[s] {
        ChangedReplays(Tables(), s, amount, kind, key, day);
      }
      var balanceAfter := seen.balance + amount;
      var badgeAfter := if balanceAfter >= INITIAL_BALANCE then false else seen.badge;
      wallets := wallets[s := seen.(balance := balanceAfter, badge := badgeAfter)];
      rows := rows + [Row(s, kind, amount, balanceAfter, key, day)];
      r := Ok(wallets[s]);
    }

    /** The transaction is rolled back: tables as they were. */
    method Rollback(savedWallets: map<Subject, Wallet>, savedRows: seq<Row>)
      modifies this`wallets, this`rows
      ensures Tables() == Books(savedWallets, savedRows, batches)
    {
      wallets, rows := savedWallets, savedRows;
    }

    /** Both wallet rows of a transfer, opened where missing. */
    method OpenPair(payer: Subject, payee: Subject) returns (payerWallet: Wallet, payeeWallet: Wallet)
      requires Valid() && payer != payee
      modifies this
      ensures Valid() && Tables() == Opened(Opened(old(Tables()), payer), payee) && batches == old(batches)
      ensures payer in wallets && payerWallet == wallets[payer] && payerWallet.balance == Balance(old(Tables()), payer)
      ensures payee in wallets && payeeWallet == wallets[payee] && payeeWallet.balance == Balance(old(Tables()), payee)
    {
      hide Replays;
      payerWallet := EnsureWallet(payer);
      payeeWallet := EnsureWallet(payee);
    }

    method PostPair(payer: Subject, payerWallet: Wallet, payee: Subject, payeeWallet: Wallet, amount: int,
        kindOut: Kind, kindIn: Kind, key: LedgerKey, day: Option<int>)
      requires Valid() && payer != payee && amount > 0
      requires payer in wallets && payee in wallets
      requires payerWallet == wallets[payer] && payeeWallet == wallets[payee]
      requires !Taken(rows, payer, key) && !Taken(rows, payee, key)
      modifies this
      ensures Valid()
      ensures Tables() == Transfer(old(Tables()), payer, payee, amount, kindOut, kindIn, key, day)
    {
      hide Replays;
      ghost var was := rows;
      var _ := ApplyBalanceChange(payer, payerWallet, -amount, kindOut, Some(key), day);
      AppendTakes(was, rows[|was|], payee, key);
      var _ := ApplyBalanceChange(payee, payeeWallet, amount, kindIn, Some(key), day);
    }

    /** The two-wallet step of loans and exchanges: both wallets are read, the
        payer must hold the amount, the payee must have room for it; then one row
        out and one row in.  `seen` is the payee's balance before. */
    method MoveChips(payer: Subject, payee: Subject, amount: int, payeeMax: Option<int>, kindOut: Kind, kindIn: Kind,
        key: LedgerKey, day: Option<int>)
      returns (moved: Move, seen: int)
      requires Valid() && payer != payee && amount > 0
      requires !Taken(rows, payer, key) && !Taken(rows, payee, key) && key != OpeningKey
      modifies this
      ensures Valid() && seen == Balance(old(Tables()), payee)
      ensures moved == Moved <==> amount <= Balance(old(Tables()), payer) && (payeeMax.Some? ==> seen <= payeeMax.value)
      ensures moved != Moved ==> Tables() == old(Tables())
      ensures moved == Moved ==> Tables() == HandedOver(old(Tables()), payer, payee, amount, kindOut, kindIn, key, day)
    {
      hide Replays, Taken, Transfer, Opened, Balance, HandedOver;
      var savedWallets, savedRows := wallets, rows;
      ghost var b := Tables();
      OpeningTakesNothing(b, payer, payee, key);
      var payerWallet, payeeWallet := OpenPair(payer, payee);
      seen := payeeWallet.balance;
      var short := payerWallet.balance <= 0 || payerWallet.balance < amount;
      if short || (payeeMax.Some? && payeeWallet.balance > payeeMax.value) {
        Rollback(savedWallets, savedRows);
        return if short then PayerShort else PayeeFull, seen;
      }
      PostPair(payer, payerWallet, payee, payeeWallet, amount, kindOut, kindIn, key, day);
      Handed(b, payer, payee, amount, kindOut, kindIn, key, day);
      moved := Moved;
    }

    /** change_balance: a key that was used before for this wallet changes nothing. */
    method ChangeBalance(s: Subject, amount: int, kind: Kind, key: Option<LedgerKey>, day: Option<int>)
      returns (r: Result<Wallet>)
      requires Valid()
      modifies this
      ensures Valid()
      ensures var open := Opened(old(Tables()), s);
        if key.Some? && Taken(open.rows, s, key.value) then r.Ok? && Tables() == open
        else if amount == 0 then r == Err(ZeroAmount) && Tables() == old(Tables())
        else r.Ok? && Tables() == Changed(open, s, amount, kind, key, day)
    {
      hide Replays;
      var before := (wallets, rows);
      var wallet := EnsureWallet(s);
      if key.Some? && Taken(rows, s, key.value) {
        return Ok(wallet);
      }
      r := ApplyBalanceChange(s, wallet, amount, kind, key, day);
      if r.Err? {
        Rollback(before.0, before.1);
      }
    }

    /** One grant per wallet and Shanghai day. */
    method ClaimDailyCheckIn(s: Subject, today: int) returns (claimed: bool)
      requires Valid()
      modifies this
      ensures Valid()
      ensures claimed <==> !Taken(old(rows), s, CheckInKey(today))
      ensures Taken(rows, s, CheckInKey(today))
      ensures Balance(Tables(), s) == Balance(old(Tables()), s) + if claimed then 20 else 0
      ensures var open := Opened(old(Tables()), s);
        Tables() ==
          if claimed then Changed(open, s, DAILY_CHECK_IN_AMOUNT, DailyCheckIn, Some(CheckInKey(today)), Some(today))
          else open
    {
      hide Replays;
      ghost var was := rows;
      var wallet := EnsureWallet(s);
      if |rows| > |was| {
        AppendTakes(was, rows[|was|], s, CheckInKey(today));
      }
      claimed := !Taken(rows, s, CheckInKey(today));
      if claimed {
        ghost var mid := rows;
        var _ := ApplyBalanceChange(s, wallet, DAILY_CHECK_IN_AMOUNT, DailyCheckIn, Some(CheckInKey(today)),
          Some(today));
        AppendTakes(mid, rows[|mid|], s, CheckInKey(today));
      }
    }

    method WriteBankruptcy(s: Subject, wallet: Wallet, today: int) returns (updated: Wallet)
      requires s in wallets && wallet == wallets[s]
      modifies this
      ensures Tables() == Bankrupted(old(Tables()), s, today) && updated == wallets[s]
    {
      hide Replays;
      var amount := BANKRUPTCY_RESET_BALANCE - wallet.balance;
      wallets := wallets[s := Wallet(BANKRUPTCY_RESET_BALANCE, wallet.bankruptcies + 1, true)];
      rows := rows + [Row(s, BankruptcyReset, amount, BANKRUPTCY_RESET_BALANCE, None, Some(today))];
      updated := wallets[s];
    }

    /** Reset a wallet at or below the threshold, write the difference as one row. */
    method DeclareBankruptcy(s: Subject, today: int) returns (r: Result<Wallet>)
      requires Valid()
      modifies this
      ensures Valid()
      ensures r.Ok? <==> s in old(wallets) && old(wallets)[s].balance <= -500
      ensures r.Err? ==> Tables() == old(Tables())
      ensures r.Ok? ==>
        s in wallets && r.value == wallets[s] == Wallet(50, old(wallets)[s].bankruptcies + 1, true)
      ensures r.Ok? ==> s in old(wallets) && Tables() == Bankrupted(old(Tables()), s, today)
    {
      hide Replays;
      var before := (wallets, rows);
      var wallet := EnsureWallet(s);
      if wallet.balance > BANKRUPTCY_THRESHOLD {
        Rollback(before.0, before.1);
        return Err(NotBankrupt);
      }
      BankruptedReplays(Tables(), s, today);
      var updated := WriteBankruptcy(s, wallet, today);
      r := Ok(updated);
    }

    /** The wallet rows of everyone in the batch, opened where missing. */
    method OpenWallets(ps: seq<Participant>, ds: seq<Delta>, ghost room: string) returns (seen: map<string, Wallet>)
      requires Valid()
      modifies this
      ensures Valid() && batches == old(batches) && SettledOnly(old(rows), rows, room)
      ensures forall s, k :: k != OpeningKey ==> (Taken(rows, s, k) <==> Taken(old(rows), s, k))
      ensures forall s :: Balance(Tables(), s) == Balance(old(Tables()), s)
      ensures forall i :: 0 <= i < |ds| && Payee(ps, ds[i].0).Some? ==>
        && Payee(ps, ds[i].0).value in wallets && ds[i].0 in seen
        && seen[ds[i].0] == wallets[Payee(ps, ds[i].0).value]
    {
      hide Replays, Taken;
      seen := map[];
      for i := 0 to |ds|
        invariant Valid() && batches == old(batches) && SettledOnly(old(rows), rows, room)
        invariant forall s, k :: k != OpeningKey ==> (Taken(rows, s, k) <==> Taken(old(rows), s, k))
        invariant forall s :: Balance(Tables(), s) == Balance(old(Tables()), s)
        invariant forall k :: 0 <= k < i && Payee(ps, ds[k].0).Some? ==>
          && Payee(ps, ds[k].0).value in wallets && ds[k].0 in seen
          && seen[ds[k].0] == wallets[Payee(ps, ds[k].0).value]
      {
        var s := Payee(ps, ds[i].0);
        if s.Some? {
          OpenedReplays(Tables(), s.value);
          OpeningSettlesNothing(Tables(), s.value);
          var wallet := EnsureWallet(s.value);
          seen := seen[ds[i].0 := wallet];
        }
      }
    }

    /** Post every non-zero delta from the wallet rows read before the loop. */
    method PostDeltas(ps: seq<Participant>, ds: seq<Delta>, room: string, seen: map<string, Wallet>)
      requires Valid() && DistinctDeltas(ds)
      requires forall i :: 0 <= i < |ds| && Payee(ps, ds[i].0).Some? ==>
        && Payee(ps, ds[i].0).value in wallets && ds[i].0 in seen
        && seen[ds[i].0] == wallets[Payee(ps, ds[i].0).value]
      requires forall i :: 0 <= i < |ds| && Charged(ps, ds[i]) ==>
        !Taken(rows, Payee(ps, ds[i].0).value, SettlementKey(room))
      modifies this
      ensures Valid() && batches == old(batches) && SettledOnly(old(rows), rows, room)
      ensures forall s :: Balance(Tables(), s) == Balance(old(Tables()), s) + Due(ps, ds, s)
      ensures forall i :: 0 <= i < |ds| && Charged(ps, ds[i]) ==>
        Taken(rows, Payee(ps, ds[i].0).value, SettlementKey(room))
    {
      hide Replays;
      for i := 0 to |ds|
        invariant Valid() && batches == old(batches) && SettledOnly(old(rows), rows, room)
        invariant wallets.Keys == old(wallets).Keys
        invariant forall k :: i <= k < |ds| && Payee(ps, ds[k].0).Some? ==>
          && seen[ds[k].0] == wallets[Payee(ps, ds[k].0).value]
          && (Charged(ps, ds[k]) ==> !Taken(rows, Payee(ps, ds[k].0).value, SettlementKey(room)))
        invariant forall s :: Balance(Tables(), s) == Balance(old(Tables()), s) + Due(ps, ds[..i], s)
        invariant forall k :: 0 <= k < i && Charged(ps, ds[k]) ==>
          Taken(rows, Payee(ps, ds[k].0).value, SettlementKey(room))
      {
        var s := Payee(ps, ds[i].0);
        assert ds[..i + 1][..i] == ds[..i];
        forall k | i <= k < |ds| ensures Payee(ps, ds[k].0).Some? ==> Payee(ps, ds[k].0).value.id == ds[k].0 {
          PayeeNamesPlayer(ps, ds[k].0);
        }
        if s.Some? && ds[i].1 != 0 {
          ghost var was := rows;
          var _ := ApplyBalanceChange(s.value, seen[ds[i].0], ds[i].1,
                                      if ds[i].1 > 0 then DuelWin else DuelLoss, Some(SettlementKey(room)), None);
          forall k | 0 <= k < |ds| && Charged(ps, ds[k])
            ensures i < k ==> !Taken(rows, Payee(ps, ds[k].0).value, SettlementKey(room))
            ensures k <= i ==> Taken(rows, Payee(ps, ds[k].0).value, SettlementKey(room))
          {
            AppendTakes(was, rows[|was|], Payee(ps, ds[k].0).value, SettlementKey(room));
          }
        }
      }
      assert ds[..|ds|] == ds;
    }

    /** Open the wallets, then post the batch unless the ledger already holds it. */
    method SettleBatch(ps: seq<Participant>, ds: seq<Delta>, room: string) returns (r: Result<bool>)
      requires Valid() && DistinctDeltas(ds)
      modifies this
      ensures Valid()
      ensures r == Ok(true) <==> SettledIn(ps, ds, old(rows), room) == {}
      ensures r == Ok(false) <==> {} != SettledIn(ps, ds, old(rows), room) == ChargedIn(ps, ds)
      ensures r.Err? ==> Tables() == old(Tables())
      ensures r.Ok? ==> batches == old(batches) + {room} && SettledOnly(old(rows), rows, room)
      ensures r == Ok(false) ==> forall s :: Balance(Tables(), s) == Balance(old(Tables()), s)
      ensures r == Ok(true) ==>
        && (forall s :: Balance(Tables(), s) == Balance(old(Tables()), s) + Due(ps, ds, s))
        && SettledIn(ps, ds, rows, room) == ChargedIn(ps, ds)
    {
      hide Replays, SettledIn, ChargedIn, Due, Balance, SettledOnly;
      var before := (wallets, rows);
      var seen := OpenWallets(ps, ds, room);
      SameSettled(ps, ds, before.1, rows, room);
      var present := SettledIn(ps, ds, rows, room);
      if present != {} {
        if present == ChargedIn(ps, ds) {
          BatchesDoNotMatter(Tables(), batches + {room});
          SameBalances(Tables(), batches + {room});
          batches := batches + {room};
          return Ok(false);
        }
        Rollback(before.0, before.1);
        return Err(PartlySettled);
      }
      NoneSettled(ps, ds, rows, room);
      ghost var mid := rows;
      PostDeltas(ps, ds, room, seen);
      SettledTwice(before.1, mid, rows, room);
      AllSettled(ps, ds, rows, room);
      BatchesDoNotMatter(Tables(), batches + {room});
      SameBalances(Tables(), batches + {room});
      batches := batches + {room};
      r := Ok(true);
    }

    /** One idempotent batch for all participants of a room.  A repeated key
        changes nothing; otherwise every wallet moves by what the batch says. */
    method ApplyParticipantDeltas(ps: seq<Participant>, ds: seq<Delta>, room: string, requireZeroSum: bool)
      returns (r: Result<bool>)
      requires Valid() && DistinctDeltas(ds)
      modifies this
      ensures Valid()
      ensures room in old(batches) ==> r == Ok(false) && Tables() == old(Tables())
      ensures room !in old(batches) ==>
        (r == Ok(true) <==> Acceptable(ps, ds, requireZeroSum) && SettledIn(ps, ds, old(rows), room) == {})
      ensures room !in old(batches) ==>
        (r == Ok(false) <==>
          Acceptable(ps, ds, requireZeroSum) && {} != SettledIn(ps, ds, old(rows), room) == ChargedIn(ps, ds))
      ensures r.Err? ==> Tables() == old(Tables())
      ensures r.Ok? ==> batches == old(batches) + {room} && SettledOnly(old(rows), rows, room)
      ensures r == Ok(false) ==> forall s :: Balance(Tables(), s) == Balance(old(Tables()), s)
      ensures r == Ok(true) ==>
        && (forall s :: Balance(Tables(), s) == Balance(old(Tables()), s) + Due(ps, ds, s))
        && SettledIn(ps, ds, rows, room) == ChargedIn(ps, ds)
      ensures r == Ok(true) && Distinct(ps) ==> PaidBySeat(ps, ds, old(Tables()), Tables())
      ensures r == Ok(true) && Distinct(ps) && requireZeroSum && (forall p :: p in ps ==> !p.systemNpc) ==>
        Beyond(Tables()) == Beyond(old(Tables()))
    {
      ghost var b := Tables();
      hide Replays, SettledIn, ChargedIn, SettledOnly, PaidBySeat, Distinct, Beyond, Due;
      if room in batches {
        NothingSettled(rows, room);
        return Ok(false);
      }
      if ds == [] {
        return Err(NoDeltas);
      }
      if exists d :: d in ds && d.0 !in Players(ps) {
        return Err(UnknownPlayer);
      }
      if requireZeroSum && DeltaSum(ds) != 0 {
        return Err(NotZeroSum);
      }
      r := SettleBatch(ps, ds, room);
      if r == Ok(true) && Distinct(ps) {
        DuesBySeat(ps, ds, b, Tables());
        if forall p :: p in ps ==> !p.systemNpc {
          SettlementConserves(ps, ds, b, Tables());
        }
      }
    }
  }
}
