/** The three components as objects on one store. */
module Bank {
  import opened Common
  import opened Chips
  import opened ChipStore
  import opened Seating
  import opened SharedLedger
  import L = LoanDesk
  import X = ExchangeDesk
  import LoanBook
  import ExchangeBook

  class Bank {
    const store: Store
    const loans: LoanBook.Book
    const exchanges: ExchangeBook.Book

    ghost function View(): World reads loans, exchanges, store {
      World(loans.Tables(), exchanges.Tables(), store.Tables())
    }

    ghost predicate Valid() reads loans, exchanges, store {
      loans.store == store && exchanges.store == store && Together(View())
    }

    constructor ()
      ensures Valid() && fresh(store) && fresh(loans) && fresh(exchanges)
      ensures View() == Nothing()
    {
      var s := new Store();
      var l := new LoanBook.Book(s);
      var x := new ExchangeBook.Book(s);
      store, loans, exchanges := s, l, x;
      new;
      EmptyStandsTogether();
    }

    method CreateLoan(now: int, borrower: Subject, lenderId: string, terms: L.Terms, key: string, pairIsBound: bool,
        newId: string)
      returns (r: LoanBook.Reply)
      requires Valid() && newId !in loans.loans
      modifies loans
      ensures Valid() && View()
        == Do(old(View()), now, Op.CreateLoan(borrower, lenderId, terms, key, pairIsBound, newId))
    {
      hide Replays, L.Stands, X.Stands, L.Admits, L.Answerable;
      DoKeeps(View(), now, Op.CreateLoan(borrower, lenderId, terms, key, pairIsBound, newId));
      r := loans.CreateLoan(borrower, lenderId, terms, key, pairIsBound, newId, now);
    }

    method CounterLoan(now: int, id: string, actor: Subject, revision: nat, terms: L.Terms, key: string,
        boundTo: Option<string>)
      returns (r: LoanBook.Reply)
      requires Valid()
      modifies loans
      ensures Valid() && View() == Do(old(View()), now, Op.CounterLoan(id, actor, revision, terms, key, boundTo))
    {
      hide Replays, L.Stands, X.Stands, L.MayCounter, L.Answerable;
      DoKeeps(View(), now, Op.CounterLoan(id, actor, revision, terms, key, boundTo));
      r := loans.CounterLoan(id, actor, revision, terms, key, boundTo, now);
    }

    method AcceptLoan(now: int, id: string, actor: Subject, revision: nat, key: string, boundTo: Option<string>)
      returns (r: LoanBook.Reply)
      requires Valid()
      modifies loans, store
      ensures Valid() && View() == Do(old(View()), now, Op.AcceptLoan(id, actor, revision, key, boundTo))
    {
      hide Replays, L.Stands, X.Stands, L.Answerable, HandedOver;
      DoKeeps(View(), now, Op.AcceptLoan(id, actor, revision, key, boundTo));
      r := loans.AcceptLoan(id, actor, revision, key, boundTo, now);
    }

    method CloseProposal(now: int, id: string, actor: Subject, action: L.Action, revision: nat, key: string)
      returns (r: LoanBook.Reply)
      requires Valid() && action in {L.Reject, L.Withdraw}
      modifies loans
      ensures Valid() && View() == Do(old(View()), now, Op.CloseProposal(id, actor, action, revision, key))
    {
      hide Replays, L.Stands, X.Stands;
      DoKeeps(View(), now, Op.CloseProposal(id, actor, action, revision, key));
      r := loans.CloseProposal(id, actor, action, revision, key, now);
    }

    method RepayLoan(now: int, id: string, actor: Subject, amount: int, key: string) returns (r: LoanBook.Reply)
      requires Valid()
      modifies loans, store
      ensures Valid() && View() == Do(old(View()), now, Op.RepayLoan(id, actor, amount, key))
    {
      hide Replays, L.Stands, X.Stands, L.Answerable, HandedOver, L.Payback;
      DoKeeps(View(), now, Op.RepayLoan(id, actor, amount, key));
      r := loans.RepayLoan(id, actor, amount, key, now);
    }

    method Look(now: int, id: string, actor: Subject) returns (r: LoanBook.Reply)
      requires Valid()
      modifies loans
      ensures Valid() && View() == Do(old(View()), now, Op.Look(id, actor))
    {
      hide Replays, L.Stands, X.Stands;
      DoKeeps(View(), now, Op.Look(id, actor));
      r := loans.Look(id, actor, now);
    }

    method Ask(now: int, initiator: Subject, counterpart: string, amount: int, key: string, pairIsBound: bool,
        newId: string)
      returns (r: ExchangeBook.Reply)
      requires Valid() && newId !in exchanges.requests
      modifies exchanges
      ensures Valid() && View() == Do(old(View()), now, Op.Ask(initiator, counterpart, amount, key, pairIsBound, newId))
    {
      hide Replays, L.Stands, X.Stands, X.Expired;
      DoKeeps(View(), now, Op.Ask(initiator, counterpart, amount, key, pairIsBound, newId));
      r := exchanges.Create(initiator, counterpart, amount, key, pairIsBound, newId, now);
    }

    method Confirm(now: int, id: string, actor: Subject, key: string, boundTo: Option<string>, day: int)
      returns (r: ExchangeBook.Reply)
      requires Valid()
      modifies exchanges, store
      ensures Valid() && View() == Do(old(View()), now, Op.Confirm(id, actor, key, boundTo, day))
    {
      hide Replays, L.Stands, X.Stands, X.Expired, X.Spent, HandedOver;
      DoKeeps(View(), now, Op.Confirm(id, actor, key, boundTo, day));
      r := exchanges.Confirm(id, actor, key, boundTo, day, now);
    }

    method Close(now: int, id: string, actor: Subject, action: X.Action, key: string, boundTo: Option<string>)
      returns (r: ExchangeBook.Reply)
      requires Valid() && action in {X.Reject, X.Action.Withdraw}
      modifies exchanges
      ensures Valid() && View() == Do(old(View()), now, Op.Close(id, actor, action, key, boundTo))
    {
      hide Replays, L.Stands, X.Stands, X.Expired;
      DoKeeps(View(), now, Op.Close(id, actor, action, key, boundTo));
      r := exchanges.Close(id, actor, action, key, boundTo, now);
    }

    /** Listing exchanges lapses what is overdue. */
    method Expire(now: int)
      requires Valid()
      modifies exchanges
      ensures Valid() && View() == Do(old(View()), now, Op.Expire)
    {
      hide Replays, L.Stands, X.Stands, X.Expired;
      DoKeeps(View(), now, Op.Expire);
      exchanges.ExpireDue(now);
    }

    method OpenWallet(owner: Subject) returns (w: Wallet)
      requires Valid()
      modifies store
      ensures Valid() && View() == Do(old(View()), 0, Op.Open(owner))
    {
      hide Replays, L.Stands, X.Stands;
      DoKeeps(View(), 0, Op.Open(owner));
      w := store.EnsureWallet(owner);
    }

    /** Duel results and achievement rewards. */
    method ChangeBalance(owner: Subject, amount: int, kind: Kind, key: Option<LedgerKey>, day: Option<int>)
      requires Valid() && Ordinary(kind, key)
      modifies store
      ensures Valid() && View() == Do(old(View()), 0, Op.Change(owner, amount, kind, key, day))
    {
      hide Replays, L.Stands, X.Stands;
      DoKeeps(View(), 0, Op.Change(owner, amount, kind, key, day));
      var _ := store.ChangeBalance(owner, amount, kind, key, day);
    }

    method CheckIn(owner: Subject, today: int) returns (claimed: bool)
      requires Valid()
      modifies store
      ensures Valid() && View() ==
        Do(old(View()), 0, Op.Change(owner, DAILY_CHECK_IN_AMOUNT, DailyCheckIn, Some(CheckInKey(today)), Some(today)))
    {
      hide Replays, L.Stands, X.Stands, Taken;
      DoKeeps(View(), 0, Op.Change(owner, DAILY_CHECK_IN_AMOUNT, DailyCheckIn, Some(CheckInKey(today)), Some(today)));
      OpeningSettlesNothing(store.Tables(), owner);
      claimed := store.ClaimDailyCheckIn(owner, today);
    }

    /** A room's settlement batch. */
    method SettleRoom(ps: seq<Participant>, ds: seq<Delta>, room: string, requireZeroSum: bool)
      returns (r: Result<bool>)
      requires Valid() && DistinctDeltas(ds)
      modifies store
      ensures Valid() && View().loans == old(View()).loans && View().exchanges == old(View()).exchanges
      ensures r.Ok? && r.value ==>
        forall s :: Balance(View().books, s) == Balance(old(View()).books, s) + Due(ps, ds, s)
      ensures r.Ok? && r.value && Distinct(ps) ==> PaidBySeat(ps, ds, old(View()).books, View().books)
      ensures r.Ok? && r.value && Distinct(ps) && requireZeroSum && (forall p :: p in ps ==> !p.systemNpc) ==>
        Beyond(View().books) == Beyond(old(View()).books)
      ensures r.Err? || !r.value ==> forall s :: Balance(View().books, s) == Balance(old(View()).books, s)
    {
      hide Replays, L.Stands, X.Stands, Due, SettledOnly, SettledIn, ChargedIn, PaidBySeat, Beyond;
      ghost var w := View();
      r := store.ApplyParticipantDeltas(ps, ds, room, requireZeroSum);
      if r.Ok? {
        SettlementSparesDesks(w, store.rows, room);
        assert if r.value then r == Ok(true) else r == Ok(false);
      }
    }

    method DeclareBankruptcy(owner: Subject, today: int)
      requires Valid()
      modifies store
      ensures Valid() && View() == Do(old(View()), 0, Op.GoBankrupt(owner, today))
    {
      hide Replays, L.Stands, X.Stands;
      DoKeeps(View(), 0, Op.GoBankrupt(owner, today));
      var _ := store.DeclareBankruptcy(owner, today);
    }
  }
}
