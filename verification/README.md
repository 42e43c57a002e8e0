# Rooms, chips and waiting: a verified model

This project models the authoritative state behind CedarDuet's rooms in Dafny 4.11 and proves what the
program relies on between and across its write transactions. Every public operation of the repository runs in
one `BEGIN IMMEDIATE` transaction, so each is one atomic step over explicit tables here; an operation that
fails leaves the tables as it found them. Time enters as a parameter.

How the files fit together:

| file | what it holds |
|---|---|
| `Common.dfy` | options, wallet owners, the Shanghai day of an instant |
| `Accrual.dfy` | one loan row: the exact interest it owes, what a refresh shows, whole histories of looks and payments |
| `EarlyRepayment.dfy` | two runs of one loan compared: paying earlier never costs more |
| `Chips.dfy`, `ChipStore.dfy` | wallets, the append-only ledger, and the statements that change them |
| `Seating.dfy` | seats in stable seat order |
| `LossCap.dfy` | the proportional zero-sum loss cap |
| `LoanDesk.dfy`, `LoanBook.dfy` | negotiation, acceptance, repayment: what stands between operations, what each one keeps, and the operations |
| `Exchanges.dfy` | exchange requests, their settlement, daily and pending limits |
| `SharedLedger.dfy`, `Bank.dfy` | chips, loans and exchanges on one ledger: runs of all of them together, and the objects on one store |
| `DeskRules.dfy` | when each loan and exchange operation goes through and what it leaves, over columns and numbers |
| `LedgerHistory.dfy`, `Provenance.dfy` | what the ledger says after a run, and which proposal and answer every agreement goes back to |
| `Delivery.dfy`, `Mailbox.dfy` | a viewer's cursor and snapshot watermark as a state machine, and the loops that build replies |
| `WaitControl.dfy` | wait leases: the generation table, and the lease objects callers hold |
| `NpcTickets.dfy`, `NpcSpeech.dfy` | racing decision workers; silent turns and speech claims |
| `Unattended.dfy` | presence leases, timeout takeovers and the NPC fuse |
| `TurnRotation.dfy`, `Shortlist.dfy` | whose turn is next; which legal actions an NPC is shown |

Three shapes recur. Code that updates rows is a class whose methods repeat its statements and tie the new
tables to a function of the old ones (`Posted`, `Agreed`, `Responded`, `Step`, …). What the program promises is
then proved about those functions: as an invariant (`Replays`, `Stands`, `Valid`), as a theorem over every run,
or against an independent definition. For loans the independent definition is `Work`, the plain sum of
principal × rate × seconds; for a reply it is `Picked`, the ids of the selected rows between two cursors; for the
ledger it is the sum of its rows.

Definitions shared by code and specification (`Growth`, `Selects`, `Refuses`, `Owner`, …) are pinned from outside:
the main theorems speak of the columns of rows, of the calls and replies of a history and of numbers written out,
not of those definitions.

A `hide` statement at the head of a proof keeps definitions it does not need out of the solver's way; it changes
nothing that is proved.

Findings about the code itself:

- `_accrue_interest` tests `charged > 0 or available == 0` beside `charged >= available`; given the life-cycle
  invariant the extra test never changes the outcome (`LoanSteps.SegmentIsExact` proves the branch equal to the
  one without it).
- Refreshing more or less often never changes an amount, but `cap_reached_at` records when a cap was first
  noticed, so it alone depends on when somebody looked.
- The final raise of `advance_turn` and the early `break` of `_shortlist_indices` cannot be reached.
- At most one timeout takeover per presence holds with whole-second stamps because the liveness test is strict
  (`>`): a stamp equal to the cutoff must not count.
- The stored mark `speech_pending` never decides anything: in every run words are owed exactly when three silent
  turns are counted (`NpcSpeech.PendingDecidesNothing`).
- A reclaim protects the present turn only while the room's timer is in step with its revision
  (`Unattended.ReclaimProtects`, `ReclaimSurvivesSync`): a reclaim that falls between a forfeit and the next
  synchronisation is forgotten by it, and the reclaimed turn can then be taken over
  (`Unattended.ReclaimCanBeForgotten` gives the instants).
- A word that accompanies a move is owed to the reader even when a snapshot already contains the move; the
  cursor therefore stays behind the snapshot watermark, and both are needed.

## Model

| member | source | states |
|---|---|---|
| Accrual.ExactAdvances | app/loans.py:412-431 | interest owed exactly at a later instant is the earlier amount plus principal × rate × seconds in between, cut at the principal when capped |
| LoanHistory.AfterKeepsExact | app/loans.py:411-431 | reading or repaying at an instant leaves the exact interest at that instant as it was, and every later amount grows from it with the principal that then remains |
| Accrual.AccruedShows | app/loans.py:402-445 | a refreshed row shows the whole chips of the exact interest, its remainder, and sets the cap mark exactly when lifetime interest equals the principal |
| Accrual.RefreshCharges | app/loans.py:402-485 | a refresh adds exactly principal × micro-percent × seconds to the lifetime interest counted in 1/8,640,000,000,000 chips, up to the principal when capped, and marks the loan overdue exactly past its due day in Shanghai; nothing else changes |
| LoanHistory.RepayKeeps | app/loans.py:854-899 | a repayment takes interest first, its two parts add up to it, and principal paid + remaining stays the original principal, with the loan running exactly while principal remains |
| LoanHistory.PlayKeeps | app/loans.py:424-434 | the life-cycle invariant (principal split, status against remaining principal, interest under the cap, cap mark) holds after every history of looks and payments |
| LoanHistory.RepaidIsFinal | app/loans.py:477-478 | a repaid loan is unchanged by any later history |
| LoanHistory.LifetimeInterestIsExact | app/loans.py:412-431 | after any history since acceptance, of a running or a repaid loan, lifetime interest is W / 8,640,000,000,000 (at most the principal when capped) and the carried remainder is the rest of that division, where W sums remaining principal × rate × seconds over all segments |
| LoanHistory.ExactIsWork | app/loans.py:412-417 | the exact interest after any history is the plain sum of its segments, capped once |
| LoanHistory.RefreshesAreInvisible | app/loans.py:458-509 | two histories with the same payments answer every payment alike and show the same amounts, remainder and status afterwards, whatever refreshes each contains |
| LoanHistory.PaymentsAlone | app/loans.py:826-899 | a history may be replaced by its payments alone: same outcomes, same row up to a refresh |
| EarlyRepayment.PayingEarlierNeverCostsMore | app/loans.py:420-431 | of two runs that accept their payments, the one whose payments are never later and never smaller in total so far has no more principal left, no more lifetime interest and no more total due at any later instant, capped or not |
| EarlyRepayment.RunExactly | app/loans.py:854-899 | along a run of payments, what went to principal plus what went to interest grows by exactly what was paid, terms and life cycle kept |
| LoanSteps.SegmentIsExact | app/loans.py:412-428 | the divmod carry of one segment with its cap test equals one division of the exact lifetime interest |
| LoanBook.Book.AccrueInterest | app/loans.py:402-445 | the statements leave exactly the row the exact interest prescribes, or refuse exactly when the stored interest would overflow |
| LoanBook.Book.RefreshOne | app/loans.py:458-485 | a stale proposal expires, a running loan is brought up to date and turns overdue after its due day, every other row stays |
| LoanBook.Book.RefreshBorrowerLoans | app/loans.py:512-519 | exactly the borrower's open loans are refreshed, and it fails exactly when one of them overflows |
| LoanBook.Book.CreateLoan | app/loans.py:530-604 | goes through exactly when terms, binding, key, overdue debt and the three-loan limit allow, then files revision 1 awaiting the lender; a repeated key is answered exactly while its loan can be refreshed and only refreshes it; a failure changes nothing |
| LoanBook.Book.CounterLoan | app/loans.py:607-680 | goes through exactly for the awaited party answering the current revision with changed terms, and files the next revision awaiting the other party |
| LoanBook.Book.AcceptLoan | app/loans.py:683-776 | goes through exactly for the awaited party answering the current revision with wallets able to carry it; the loan then carries that revision's terms and the principal moves once |
| LoanBook.Book.CloseProposal | app/loans.py:779-823 | rejecting is for the awaited party, withdrawing for the borrower, of the current revision of a proposal still open; nothing else changes |
| LoanBook.Book.RepayLoan | app/loans.py:826-945 | goes through exactly when the refreshed loan runs, the amount is due and both wallets can carry it; loan row, recorded split and ledger move together; a repeated key only refreshes |
| LoanBook.Book.SettleRepayment | app/loans.py:854-932 | on a refreshed row: interest first, the rest principal, repaid exactly when nothing is left, one ledger row on each side |
| LoanBook.Book.Look | app/loans.py:948-953 | reading a loan refreshes that loan and nothing else |
| LoanDesk.CreateKeeps | app/loans.py:566-604 | a new proposal keeps every loan consented: borrower proposes odd revisions, lender even ones, and the awaited party is the recipient of the current one |
| LoanDesk.LimitAfterCreate | app/loans.py:569-573 | the limit of three open loans a borrower survives a new proposal |
| LoanDesk.CounterKeeps | app/loans.py:647-677 | a counter-offer keeps the alternation of proposers and the awaited party, for this loan and all others |
| LoanDesk.StillExplained | app/loans.py:727-736 | every loan key in the ledger keeps an accepted loan or a recorded operation behind it |
| LoanDesk.OtherRowStands | app/chips.py:217-251 | ledger rows of other components never disturb what stands of loans |
| LoanSteps.AcceptStands | app/loans.py:727-766 | an acceptance keeps consent, limit and ledger keys: an active loan carries exactly the latest revision, proposed by one party and accepted by the other |
| LoanSteps.SettleStands | app/loans.py:854-932 | a repayment, the refresh it begins with included, keeps consent, limit and ledger keys |
| LoanSteps.ActivatedIsFresh | app/loans.py:737-766 | the row an acceptance writes carries the agreed revision and starts its interest afresh, so the exact-interest theorems apply to it |
| LoanSteps.RefreshStands | app/loans.py:458-509 | a refresh keeps everything that stands of the loan tables |
| LoanSteps.PaybackIsReduction | app/loans.py:854-899 | the two ways of stating a repayment agree: accepted exactly when the refreshed row and both wallets allow, and then only the split is taken off |
| LoanSteps.AgreesConserves | app/loans.py:727-736 | an acceptance moves exactly the principal from lender to borrower and creates no chips |
| LoanSteps.SettlesConserves | app/loans.py:878-887 | a repayment moves exactly the amount from borrower to lender and creates no chips |
| SharedLedger.DoKeeps | app/database.py:992-1003 | whichever component an operation belongs to, the ledger replays and loans and exchanges both still stand on it; only earnings and bankruptcy resets bring chips into existence |
| SharedLedger.RunsStayTogether | app/database.py:992-1003 | the same over every run of chip, loan and exchange operations together, the chips beyond opening balances being exactly those the faucets made |
| SharedLedger.LedgerPromises | app/chips.py:217-251 | after any such run a request is paid exactly when completed, no wallet uses a ledger key twice, nobody exceeds 100 chips a day for exchanges, three open loans or three waiting requests a pair, and every balance is the sum of its rows |
| SharedLedger.LoansSpareExchanges | app/loans.py:727-736 | an acceptance or repayment of a loan leaves what stands of exchanges |
| SharedLedger.ExchangesSpareLoans | app/exchanges.py:648-663 | a confirmed exchange leaves what stands of loans |
| SharedLedger.SettlementSparesDesks | app/chips.py:440-466 | a settlement batch leaves what stands of loans and exchanges |
| SharedLedger.LoanHistoryOfRun | app/loans.py:458-509 | inside any run of everything, an accepted loan's row is exactly its history of looks and payments, in time order |
| SharedLedger.AgreedLoansOweExactly | app/loans.py:402-455 | from an acceptance on, whatever operations follow, the loan's lifetime interest and remainder are those of principal × rate × seconds summed over its segments |
| SharedLedger.ChipsInExistence | app/chips.py:136-171 | from nothing on, all balances together are 200 for every wallet plus what earnings and resets made |
| DeskRules.CreationExactly | app/loans.py:530-604 | a proposal is filed exactly when the pair is bound, the terms fit, the due day is one to thirty days off, the key is new and the borrower has fewer than three open loans, none overdue |
| DeskRules.CreationLeaves | app/loans.py:578-604 | a filed proposal is revision 1 by the borrower, awaiting the lender of the other type for three days, under the recorded key |
| DeskRules.NothingOverdueAfterCreation | app/loans.py:556-560 | whoever gets a proposal filed has no loan with principal left that is past its due day |
| DeskRules.CounterExactly | app/loans.py:607-645 | a counter-offer goes through exactly for the awaited party, on the current revision of a proposal still open, with changed terms that fit |
| DeskRules.CounterLeaves | app/loans.py:647-680 | the next revision then awaits the other side for three days, beside all earlier ones |
| DeskRules.AcceptanceExactly | app/loans.py:683-726 | an acceptance goes through exactly for the awaited party, on the current revision of a proposal still open, with the due day one to thirty days off, the principal in the lender's wallet and room for it in the borrower's |
| DeskRules.AcceptanceLeaves | app/loans.py:727-776 | the loan then runs under the revision's terms from that instant; the ledger ends in the principal out of the lender's wallet and into the borrower's, and no other balance changes |
| DeskRules.CloseExactly | app/loans.py:779-823 | the awaited party rejects, or the borrower withdraws, exactly the current revision of a proposal still open |
| DeskRules.RepaymentExactly | app/loans.py:826-880 | a repayment goes through exactly when the borrower asks for at most what is due today, holds it, and the lender's wallet and the interest column have room |
| DeskRules.RepaymentLeaves | app/loans.py:854-945 | interest is taken first, principal with the rest, the loan is repaid exactly when nothing is left, the split is recorded and the amount moves once |
| DeskRules.AskExactly | app/exchanges.py:487-577 | a request is filed exactly for a bound pair, 1 to 100 chips, a new key and fewer than three requests waiting; it waits 72 hours |
| DeskRules.ConfirmationExactly | app/exchanges.py:595-640 | the side that did not ask pays exactly when bound to the other side's id, holding the amount and within 100 chips that day; under any other binding the request lapses and no chip moves |
| DeskRules.ConfirmationLeaves | app/exchanges.py:648-682 | the amount then moves once from the payer, never below zero, to whoever asked |
| DeskRules.RefusalExactly | app/exchanges.py:685-745 | a waiting request is closed exactly by the payer rejecting or the initiator withdrawing it; unbound it lapses; no chip moves |
| LedgerHistory.LoansMatchLedger | app/loans.py:727-736 | after any run a loan's rows in the ledger are its books: the principal once from lender to borrower, and from borrower to lender exactly what it counts as interest and principal paid |
| LedgerHistory.DailySpendOfRun | app/exchanges.py:580-592 | the daily limit counts exactly the amounts of the requests the payer confirmed that day, whatever else is on the ledger, and holds them to 100 |
| LedgerHistory.SameKeyMovesOnce | app/loans.py:258-274 | a request repeated under its key moves chips at most once, whatever happens in between |
| LedgerHistory.BadgesOfRun | app/chips.py:618-665 | in every run a wallet wears its badge exactly from a reset until its ledger shows 200 chips again, and counts its resets |
| Provenance.LoansWereAgreed | app/loans.py:683-766 | every accepted loan of any run carries terms one party put forward and the other accepted less than three days later, one to thirty days before the due day |
| Provenance.ExchangesWereConfirmed | app/exchanges.py:595-682 | every completed exchange of any run was asked for by one side and confirmed by the other, still bound to it, less than 72 hours later |
| Bank.Bank.AcceptLoan | app/loans.py:683-776 | on the shared store, an acceptance is the one step of the run model and keeps all three components' promises |
| Bank.Bank.RepayLoan | app/loans.py:826-945 | the same for a repayment |
| Bank.Bank.CreateLoan | app/loans.py:530-604 | the same for a proposal |
| Bank.Bank.CounterLoan | app/loans.py:607-680 | the same for a counter-offer |
| Bank.Bank.Confirm | app/exchanges.py:595-682 | the same for a confirmed exchange |
| Bank.Bank.Ask | app/exchanges.py:487-577 | the same for a new request |
| Bank.Bank.SettleRoom | app/chips.py:362-466 | a settlement batch pays what it says and keeps all three components' promises |
| Chips.RowsShowPrefixSums | app/chips.py:254-304 | every ledger row's `balance_after` is the sum of its wallet's rows up to it, under a key that wallet had not used |
| Chips.TransferConserves | app/chips.py:254-304 | a two-wallet transfer keeps the ledger replayable, moves exactly the amount, and leaves the total of all balances as it was |
| Chips.OpeningAddsInitialBalance | app/chips.py:136-171 | opening a wallet adds exactly its opening balance to the total |
| Chips.BalancesAreLedgerSums | app/chips.py:254-304 | the total of all balances is the sum of their ledger rows |
| ChipStore.MoveConserves | app/loans.py:727-736 | the money step of loans and exchanges, wallets opened on demand, keeps all chips beyond the opening balances |
| ChipStore.Store.EnsureWallet | app/chips.py:136-171 | a missing wallet is opened once with 200 chips and its ledger row; an existing one is left alone |
| ChipStore.Store.ApplyBalanceChange | app/chips.py:254-304 | balance, badge and one ledger row change together; a zero change or a key already used by the wallet is refused |
| ChipStore.Store.ChangeBalance | app/chips.py:307-359 | a key the wallet used before changes nothing; otherwise exactly one change is posted |
| ChipStore.Store.ClaimDailyCheckIn | app/chips.py:569-615 | one grant of 20 chips a wallet and Shanghai day: claimed exactly when the day's key was free |
| ChipStore.Store.DeclareBankruptcy | app/chips.py:618-665 | granted exactly to an opened wallet at -500 or below; the reset to 50 keeps the ledger replayable and the badge below 200 |
| ChipStore.Store.ApplyParticipantDeltas | app/chips.py:362-466 | applied exactly for an acceptable batch with no settlement row yet, recorded without effect when all rows exist, refused when some do; every listed player that is no system NPC gets its entry into the wallet of its own id and type, and nobody else is touched |
| ChipStore.SettlementConserves | app/chips.py:440-466 | the chips beyond opening balances change by exactly the sum of the batch, so a zero-sum settlement between wallets makes and loses none |
| Shares.LeftoverIsSmall | app/chips.py:484-490 | rounding down proportional shares loses less than one chip a share, so one extra chip to the first few uses it up |
| Shares.ShareFits | app/chips.py:484-490 | a rounded share with its extra chip never exceeds what was asked for |
| LossCap.CapAvailableZeroSumDeltas | app/chips.py:469-491 | the two loops leave capped losses, floors of pool × requested / total, and the leftover chips in seat order |
| LossCap.CappedSettlement | app/chips.py:469-491 | for zero-sum requests the result sums to zero; a losing wallet pays the smaller of the request and what it holds (200 when never opened), a losing system NPC what was asked, and no winner gets more than it asked for |
| LossCap.WinnersBounded | app/chips.py:484-490 | every winner gets the floor of its share or one more, never more than it asked for, and the leftover is smaller than the number of winners |
| LossCap.ExtraChipsInSeatOrder | app/chips.py:487-490 | leftover chips go round from the lowest seat: a winner that gets one leaves no winner on a lower seat without |
| LossCap.AffordableIsUncapped | app/chips.py:469-491 | where every losing wallet holds what was asked of it, the result is the request itself |
| LossCap.PoolIsPaidOut | app/chips.py:482-490 | what winners receive is exactly what losers pay |
| Seating.SortedIsSeatOrder | app/framework.py:519 | the seat order is a permutation of the table in non-decreasing seats |
| ExchangeBook.Book.ExpireDue | app/exchanges.py:365-372 | exactly the overdue pending requests lapse |
| ExchangeBook.Book.Create | app/exchanges.py:487-577 | goes through exactly when pair, amount, key and the pending limit allow, and files one pending request payable by the other side |
| ExchangeBook.Book.Confirm | app/exchanges.py:595-682 | goes through exactly for the payer of a request still pending, tied to the other side, able to pay and within the day's limit; then one transfer and one completion; an unbound pair lapses it; requests only leave pending once |
| ExchangeBook.Book.Close | app/exchanges.py:685-745 | reject is for the payer, withdraw for the initiator, of a request still pending; wallets stay untouched |
| ExchangeDesk.PaysStands | app/exchanges.py:628-663 | a confirmation keeps: a settlement row exactly for completed requests, at most 100 a wallet and day, at most three pending a pair |
| ExchangeDesk.PaysConserves | app/exchanges.py:622-663 | a confirmation moves exactly the amount, leaves the payer at or above zero, adds it to the day's spending and creates no chips |
| ExchangeDesk.PendingAfterCreate | app/exchanges.py:534-542 | the limit of three pending requests a pair survives a new request |
| ExchangeDesk.ExpiryStands | app/exchanges.py:344-372 | expiry keeps every limit and only moves requests out of pending |
| ExchangeDesk.OtherRowStands | app/chips.py:217-251 | ledger rows of other components never disturb what stands of exchanges |
| Delivery.WordsExactlyOnce | app/mcp_minimal.py:202-293 | from whatever cursor a viewer starts, and over any interleaving of posts, ordinary, full-state, bootstrap and old-protocol reads, a row's words were delivered if and only if they are visible text of somebody else, no result notice, between the start and the cursor; each once, in log order |
| Delivery.CursorOnlyMovesForward | app/mcp_minimal.py:281-285 | no read ever moves the cursor back |
| Delivery.NothingOwed | app/mcp_minimal.py:202-235 | after an ordinary response that consumes, every visible text of others since the start was said, the cursor is past every row and no watermark is left |
| Delivery.FullStateSkipsNoWord | app/mcp_minimal.py:225-287 | a full state says nothing and loses nothing: the cursor stops just before the first words not yet said, and everything the state contains is covered |
| Delivery.ActionsAtMostOnce | app/mcp_minimal.py:231-259 | actions are told in order and at most once, only public results with a delta and visible moves that are no private setup; each of those up to what was seen was told or is on the board last sent |
| Delivery.NoReplayedAction | app/mcp_minimal.py:228-259 | an action a response adds was never told before and is on no board sent before |
| Delivery.NoActionOwed | app/mcp_minimal.py:202-259 | after an ordinary response that consumes, every such action was told or is on the last board sent |
| Delivery.SharedCursorReaders | app/framework.py:1205-1286 | interleaving the two old readers delivers every visible text of another sender, result notices included, exactly once |
| Delivery.FullTextConsumesItsPrefix | app/full_state.py:90-125 | a full-state read leaves nothing of its snapshot unread and everything newer unread |
| Delivery.PrefixIsExact | app/full_state.py:105-109 | because stamped revisions never fall, the loop's stopping point separates rows up to the snapshot's revision from newer ones |
| Mailbox.Act | app/mcp_minimal.py:233-256 | one row's action is told exactly once: a result replaces the listed action of its own revision when both are public, otherwise stands alone; what was listed stays in order |
| Mailbox.Collect | app/mcp_minimal.py:215-259 | the loop lists the unread words and actions exactly, in log order, pairs a result only with an action of its revision, and finds the first unread words of a full state |
| Mailbox.CollectNew | app/framework.py:1228-1246 | the old reader's rows are exactly the texts of others after the cursor |
| Mailbox.CollectPrefix | app/full_state.py:101-118 | the full-state loop returns exactly the texts of others in its prefix and stops at the prefix's end |
| Mailbox.Mailbox.Post | app/framework.py:596-636 | one new row, at the revision its transaction commits, keeps the log ordered |
| Mailbox.Mailbox.Respond | app/mcp_minimal.py:184-293 | one response moves cursor, watermark and context as the state machine says; row by row it lists exactly the unread visible text of others and tells exactly the unseen actions once; a result names the action it belongs to and stands in its place |
| Mailbox.Mailbox.ReadNew | app/framework.py:1205-1286 | one read of the old reader is the state machine's step |
| Mailbox.Mailbox.ReadFullText | app/full_state.py:90-125 | one full-state read is the state machine's step |
| WaitTable.NoRevival | app/wait_control.py:44-79 | once a generation is superseded or cancelled, no waiting call with it or an older one is ever granted a lease, however late and whatever was purged meanwhile |
| WaitTable.WhatBars | app/wait_control.py:58-88 | a newer call that went through, an ordinary call or a finished wait of the generation itself bar it |
| WaitTable.ServedExactly | app/wait_control.py:57-79 | which calls naming a generation get through: a wait needs one newer than the stored one, a heartbeat exactly the stored one, live and at rest, an ordinary call none older; all inside the lease time of 3720 seconds, with 10,000 entries at most |
| WaitTable.RestedLeaseResumes | app/wait_control.py:59-66 | a lease granted and rested, its key untouched since, goes to a waiting call of its generation if and only if that call is a heartbeat |
| WaitTable.NoReplayedRequest | app/wait_control.py:59-63 | no wait that is no heartbeat is ever granted under a generation its key was granted before |
| WaitTable.StoppedForGood | app/wait_control.py:58-85 | after an ordinary call, a newer wait or its own end, a granted generation and all older ones are never granted again |
| WaitTable.FreshGenerationsAreNew | app/wait_control.py:54-56 | a wait without a generation gets one newer than every generation granted before, to whatever key |
| WaitTable.GenerationsNeverDecrease | app/wait_control.py:47-58 | a key's stored generation never goes back, not even across a purge |
| WaitTable.BoundedTable | app/wait_control.py:69-71 | no history takes the table over its capacity |
| WaitTable.FreshWaitsInRuns | app/wait_control.py:54-79 | in any history since the start, a wait without a generation of its own is refused exactly when 10,000 entries of other keys are inside their lease time |
| WaitTable.OneCallPerLease | app/wait_control.py:59-66 | over any history, a granted lease is granted again only after the call that held it has rested it |
| WaitControl.Control.Apply | app/wait_control.py:44-79 | every lease ever issued is cancelled unless stored for its own key; the reply is the table's; a resumed lease is the stored object, a created one is new; no lease is ever uncancelled |
| WaitControl.Control.Purge | app/wait_control.py:46-51 | exactly the entries past their lease go, their leases cancelled |
| WaitControl.Control.Finish | app/wait_control.py:81-85 | only the stored lease leaves a tombstone, and afterwards the lease is cancelled |
| WaitControl.Control.Rest | app/main.py:2341-2342 | resting a lease frees it for a heartbeat and cancels nothing |
| NpcTickets.OneLegalDecision | app/npc_controller.py:554-704 | whatever interleaving of reservations, recoveries, failures, completions, crashes and plays: at most one action commits at the revision, it is the stored and a legal one, and providers are asked at most once more than decisions failed |
| NpcTickets.DecisionIsFinal | app/npc_runtime.py:184-231 | a completed decision is never altered again |
| NpcTickets.BeatenWorkerPlaysTheWinner | app/npc_controller.py:679-691 | a worker whose completion came second changes nothing, reads the stored action at the revision and plays that |
| NpcTickets.OneWorkerPerLease | app/npc_runtime.py:74-168 | two workers are put to work at one decision only 130 seconds apart, unless the first attempt failed in between |
| NpcTickets.CrashedWorkIsRecovered | app/npc_runtime.py:150-168 | a reservation nobody completed or failed is taken over by the first worker that comes 130 seconds later, deciding without a provider; an earlier one is sent away |
| NpcTickets.FailureIsRetried | app/npc_runtime.py:141-149 | the first attempt asks a provider, and so does the next one after a failure |
| NpcTickets.DecisionIsPlayed | app/npc_controller.py:673-691 | a worker that decided in time sees its own action stored and committed at the revision |
| NpcDecisions.Decisions.Reserve | app/npc_runtime.py:96-181 | only the current system NPC at the room's revision may reserve; a new or failed row, or one reserved 130 seconds ago or more, is taken, and the ticket says which |
| NpcDecisions.Decisions.Complete | app/npc_runtime.py:184-231 | only an offered action is stored, only over a reservation; the second completion is told so and changes nothing |
| NpcDecisions.Decisions.Fail | app/npc_runtime.py:234-245 | only a reservation can fail |
| NpcSpeech.RunsAreConsistent | app/npc_runtime.py:321-507 | over every run, completion revisions, claims and landed messages each grow strictly: a completion is counted once and a claim lands at most one message |
| NpcSpeech.AtMostOneCanLand | app/npc_runtime.py:429-450 | at most one issued claim can still land, and it has not landed before |
| NpcSpeech.DeadClaimsNeverLand | app/npc_runtime.py:386-426 | a claim that was replaced, superseded, failed or sent never lands afterwards |
| NpcSpeech.ThirdSilentTurnIsAnswered | app/npc_runtime.py:388-405 | with speech allowed, the third silent turn in a row takes a new claim or finds one taken less than a lease ago in flight |
| NpcSpeech.SilenceIsAnswered | app/npc_runtime.py:386-426 | over every run, after a counted turn that allows speech a claim is in flight (130 seconds) if and only if the history ends in three silent turns or more; it is new exactly when none was in flight before |
| NpcSpeech.PendingDecidesNothing | app/npc_runtime.py:389-390 | over every run the stored pending mark never decides whether words are owed: the count of silent turns alone does |
| NpcSpeech.TurnsAreNoted | app/npc_runtime.py:366-389 | a turn is counted exactly when newer than every one counted, and noted as spoken exactly when a word lies after the revision it began at and up to its completion, inclusive |
| NpcSpeech.ClaimStandsMeanwhile | app/npc_runtime.py:429-486 | a claim in flight stands until it fails, lands or a turn is counted; words of 1 to 500 characters then land once and settle the silence |
| NpcSpeech.NothingLandsAfter | app/npc_runtime.py:401-402 | a turn in which the NPC spoke, or may not speak, leaves no claim to land; a failure neither, and the silence stays on record |
| NpcSpeechState.Speech.Begin | app/npc_runtime.py:248-304 | only the current system NPC of a running room at that revision begins a turn, and the first revision of a continuous turn is kept |
| NpcSpeechState.Speech.Complete | app/npc_runtime.py:321-426 | the row after a counted turn, and a claim exactly when the room exists, words are owed and none is in flight |
| NpcSpeechState.Speech.Land | app/npc_runtime.py:429-486 | a claim lands exactly while it is the reserved attempt, once, and settles the debt |
| NpcSpeechState.Speech.FailSpeech | app/npc_runtime.py:489-507 | only the reserved attempt can fail, and the debt stays |
| Unattended.OneTakeoverPerPresence | app/framework.py:1183-1202 | with whole-second stamps and whatever client moves, NPC moves, forfeits, reaction windows, timer syncs and racing workers interleave, at most one takeover commits between two presences |
| Unattended.NobodyOutlivesTheTurn | app/takeover.py:25-37 | after a takeover no presence lease reaches the next turn's timeout |
| Unattended.SilentRoomsStop | app/npc_limits.py:10-30 | once clients fall silent, at most one takeover and at most (2 × seats + 1) × 512 NPC moves follow |
| Unattended.FromTheStart | app/invites.py:236-258 | the same from the room's start: at most one takeover between presences, and a room nobody touches again stops after a bounded number of NPC moves |
| Unattended.ClientsRefillTheFuse | app/npc_limits.py:10-30 | after a client's move or forfeit NPCs get exactly two completed turns for every active seat, or 512 actions within one turn |
| Unattended.TakeoverExactly | app/takeover.py:25-37 | a worker's takeover commits exactly when the turn was seen due at its revision, unreclaimed, and somebody eligible is inside the lease at the commit; it renews no presence and no budget |
| Unattended.NobodyIsHurried | app/framework.py:3267-3278 | whatever follows a client's move, no takeover commits before the whole timeout has passed since its stored second |
| Unattended.TouchKeepsAlive | app/framework.py:1165-1180 | a touch, move or reclaim keeps the room alive for its timeout; nothing the server does by itself moves a stamp |
| Unattended.ReclaimProtects | app/invites.py:261-275 | a reclaimed turn whose timer is in step is never taken over until somebody moves |
| Unattended.ReclaimSurvivesSync | app/takeover.py:145-154 | a reclaim survives the timer synchronisation if and only if the timer was in step |
| Unattended.ReclaimCanBeForgotten | app/takeover.py:145-154 | four instants at which a reclaimed turn is taken over, because the synchronisation forgot the reclaim |
| Unattended.SideActionsKeepTimer | app/framework.py:3267-3271 | side actions leave the turn's timer and reclaim alone and keep the timer in step |
| Unattended.NpcRunsEnd | app/npc_limits.py:10-23 | a run of system-NPC moves has at most 2 × seats × 512 of them, seats coming and going included |
| Unattended.ActKeepsTimers | app/takeover.py:145-154 | every step keeps stamps and timers in the past, every worker still at the room's revision due, and at most one takeover since the last presence |
| InviteRoom.InviteRoom.PlayMove | app/framework.py:2925-3278 | a move commits exactly when it is accepted at its expected revision, with fuse left for an NPC, and with somebody present and nothing reclaimed for a takeover; revision, budget, presence and timer then change as the state machine says |
| InviteRoom.InviteRoom.HasLiveParticipant | app/framework.py:1183-1202 | true exactly when an eligible cursor's stamp is inside its lease |
| InviteRoom.InviteRoom.ObserveTimeout | app/takeover.py:73-85 | a worker records the revision exactly when the turn is due |
| InviteRoom.InviteRoom.SyncTimer | app/takeover.py:145-154 | a stale timer restarts at the room's last update, another is left alone |
| InviteRoom.InviteRoom.ReclaimTurn | app/invites.py:261-275 | reclaiming touches presence and protects exactly the present revision |
| InviteRoom.InviteRoom.Forfeit | app/framework.py:3339-3484 | a forfeit makes a new revision without touching the timer, and only a person's resets the fuse |
| InviteRoom.InviteRoom.ExpireWindow | app/liars_dice_rush.py:22-33 | a closed reaction window makes a revision whose timer starts now and carries a reclaim over |
| InviteRoom.InviteRoom.TouchPresence | app/framework.py:1165-1174 | only an existing cursor of an eligible person is touched |
| TurnRotation.AdvanceTurn | app/framework.py:505-548 | the answer is a participant that is joined, active, playing and not skipped; nominee and retained seat win; otherwise it is the first such seat after the current one; it fails exactly when there is none or the nominee is not one |
| TurnRotation.FollowsIsUnique | app/framework.py:534-547 | with nobody nominated or retained there is exactly one player the turn can go to |
| TurnRotation.TurnGoesToNextSeat | app/framework.py:534-547 | by seat numbers: the turn goes to the eligible player with the lowest seat above the current one, or the lowest eligible seat of all |
| TurnRotation.NextIsNextInSeatOrder | app/framework.py:534-547 | one call moves the turn to the cyclically next eligible seat |
| TurnRotation.FullRound | app/framework.py:505-548 | k successive calls visit each of the k eligible players exactly once, in seat order, and return to the start |
| Shortlist.ShortlistIndices | app/npc_controller.py:233-251 | exactly `limit` strictly increasing indices with both ends, no gap wider than twice any other plus one; the loop never breaks early; small totals are listed whole |
| Shortlist.ShortlistIsSpread | app/npc_controller.py:238-251 | every shortlist reached by bisecting widest gaps is evenly spread |
| Shortlist.LongerContainsShorter | app/npc_controller.py:238-240 | every longer shortlist contains every shorter one |
| Shortlist.FirstBisections | app/npc_controller.py:238-251 | in numbers: the third index is the middle rounded down, the fourth halves the left half on a tie and the wider right half otherwise |
| Shortlist.UnitGapsAreFull | app/npc_controller.py:248-249 | a list whose gaps are all one is full, so a list with room left has a gap to bisect |

## Left out

- LoanHistory.RefreshesAreInvisible: leaves out the instant stored in `cap_reached_at`, which does depend on when a reached cap is first noticed.
- LoanBook.Book.RefreshOne: leaves out the achievement rewards and notifications a refresh may add; rewards are ledger rows of another component, for which LoanDesk.OtherRowStands and ExchangeDesk.OtherRowStands hold.
- LoanBook.Book.Look: models one loan; the list query refreshes several loans one after another.
- ChipStore.Store.ApplyParticipantDeltas: takes integer deltas with distinct players; the type checks on them and an empty key are left out.
- ExchangeBook.Book.Create: leaves out catalogue items, titles and notes.
- Mailbox.Collect: leaves out what a board delta contains; an encoded result names the rows it stands for.
- NpcTickets.OneLegalDecision: leaves out the short message stored and sent with the action, which may differ in surrounding blanks.
- InviteRoom.InviteRoom.PlayMove: takes the game's judgement, its turn-completion flag and side-action status as inputs; the turn holder itself is modelled in TurnRotation.
- Unattended.OneTakeoverPerPresence: the timeout of a room is fixed once play starts, as the setup code has it.
- Time: loan instants are whole seconds, which is exact because every stored stamp is whole; presence stamps are whole seconds under a microsecond clock.
- Visibility projection: whether and how an event is shown to a viewer is an input fixed per row.
- The separate liar's-dice reader of the minimal protocol (`app/liars_dice_mcp.py`).
- Stake validation, `settle_duel_room`'s choice of deltas, and wallet and ledger listings.
- HTTP routes, request models, gateway, launcher, schema migrations, notifications, achievements catalogue, rule plugins and provider calls.
