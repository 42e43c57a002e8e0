/** The readers themselves: loops over the room's rows that build a reply. */
module Mailbox {
  import opened Common
  import opened Delivery

  /** One element of the `events` list: words, an action's wire, or an encoded
      board change, which names the action before it when that action was of the
      same revision, and stands in that action's place when it was listed. */
  datatype Item = Said(id: nat) | Acted(id: nat) | Board(id: nat, named: Option<nat>, replaced: bool)

  /** The last action without a result yet, and where its wire is listed. */
  datatype Pending = Pending(row: Row, slot: Option<nat>)

  function SaidIds(items: seq<Item>): seq<nat> {
    if items == [] then []
    else SaidIds(items[..|items| - 1]) + (if items[|items| - 1].Said? then [items[|items| - 1].id] else [])
  }

  /** Actions an item tells about. */
  function Tells(item: Item): multiset<nat> {
    match item
    case Said(_) => multiset{}
    case Acted(id) => multiset{id}
    case Board(id, named, replaced) => if replaced && named.Some? then multiset{named.value, id} else multiset{id}
  }

  function Told(items: seq<Item>): multiset<nat> {
    if items == [] then multiset{} else Told(items[..|items| - 1]) + Tells(items[|items| - 1])
  }

  /** The row an item stands for in the order of the reply. */
  function Head(item: Item): nat {
    if item.Board? && item.replaced && item.named.Some? then item.named.value else item.id
  }

  ghost predicate InOrder(items: seq<Item>) {
    forall i, j :: 0 <= i < j < |items| ==> Head(items[i]) <= Head(items[j])
  }

  /** At most the one id, as a multiset. */
  function Once(told: bool, id: nat): multiset<nat> {
    if told then multiset{id} else multiset{}
  }

  lemma ToldAppend(items: seq<Item>, item: Item)
    requires item.Board? ==> !item.replaced
    ensures Told(items + [item]) == Told(items) + Once(!item.Said?, item.id)
    ensures SaidIds(items + [item]) == SaidIds(items) + (if item.Said? then [item.id] else [])
  {
    assert (items + [item])[..|items|] == items;
  }

  lemma ToldLast(items: seq<Item>)
    requires items != []
    ensures var front, last := items[..|items| - 1], items[|items| - 1];
      && Told(items) == Told(front) + Tells(last)
      && SaidIds(items) == SaidIds(front) + (if last.Said? then [last.id] else [])
  {
  }

  lemma RewriteTells(told: multiset<nat>, action: Item, id: nat)
    requires action.Acted?
    ensures told + Tells(Board(id, Some(action.id), true)) == told + Tells(action) + Once(true, id)
  {
    assert Tells(Board(id, Some(action.id), true)) == multiset{action.id} + multiset{id};
  }

  lemma Swap(a: multiset<nat>, b: multiset<nat>, c: multiset<nat>)
    ensures a + b + c == a + c + b
  {
  }

  /** Rewriting an action's wire in place tells one thing more. */
  lemma {:induction false} ToldReplace(items: seq<Item>, k: nat, id: nat)
    requires k < |items| && items[k].Acted?
    ensures var after := items[k := Board(id, Some(items[k].id), true)];
      SaidIds(after) == SaidIds(items) && Told(after) == Told(items) + Once(true, id)
  {
    hide Told, SaidIds, Tells, Once;
    var front, last, item := items[..|items| - 1], items[|items| - 1], Board(id, Some(items[k].id), true);
    var after := items[k := item];
    ToldLast(items);
    ToldLast(after);
    if k == |items| - 1 {
      assert after[..k] == front;
      RewriteTells(Told(front), items[k], id);
    } else {
      ToldReplace(front, k, id);
      assert after[..|items| - 1] == front[k := item];
      Swap(Told(front), Once(true, id), Tells(last));
    }
  }

  /** No item stands for a row after `id`. */
  ghost predicate AllUpTo(items: seq<Item>, id: nat) {
    forall k :: 0 <= k < |items| ==> Head(items[k]) <= id
  }

  lemma InOrderAppend(items: seq<Item>, item: Item)
    requires InOrder(items) && AllUpTo(items, Head(item))
    ensures InOrder(items + [item]) && AllUpTo(items + [item], Head(item))
  {
  }

  lemma InOrderReplace(items: seq<Item>, k: nat, item: Item)
    requires InOrder(items) && k < |items| && Head(items[k]) == Head(item)
    ensures InOrder(items[k := item])
    ensures forall id: nat :: AllUpTo(items, id) ==> AllUpTo(items[k := item], id)
  {
  }

  lemma UpToFurther(items: seq<Item>, id: nat, later: nat)
    requires AllUpTo(items, id) && id <= later
    ensures AllUpTo(items, later)
  {
  }

  ghost predicate Listed(pending: Option<Pending>, items: seq<Item>) {
    pending.Some? && pending.value.slot.Some? ==>
      pending.value.slot.value < |items| && items[pending.value.slot.value] == Acted(pending.value.row.id)
  }

  lemma NothingToTell(told: multiset<nat>, id: nat)
    ensures told + Once(false, id) == told
  {
  }

  /** The waiting action a result belongs to: same revision, both public. */
  function Names(pending: Option<Pending>, row: Row): Option<nat> {
    if pending.Some? && pending.value.row.revision == row.revision && pending.value.row.open
    then Some(pending.value.row.id)
    else None
  }

  function WaitingRow(pending: Option<Pending>): Option<Row> {
    if pending.Some? then Some(pending.value.row) else None
  }

  /** The wire of a waiting action is listed unless it is a private setup. */
  ghost predicate Slotted(pending: Option<Pending>) {
    pending.Some? ==> (pending.value.slot.None? <==> pending.value.row.quiet)
  }

  /** The action that waits for its result after some rows: the last one the reader
      sees and has not seen before, unless a result came since. */
  function Waiting(log: seq<Row>, seen: nat): Option<Row> {
    if log == [] then None
    else
      var last := log[|log| - 1];
      if !last.shown || last.id <= seen then Waiting(log[..|log| - 1], seen)
      else if last.kind == Result && last.open && last.keyed then None
      else if last.kind in {Move, Resign, Leave} then Some(last)
      else Waiting(log[..|log| - 1], seen)
  }

  /** The action part of one row. */
  method Act(events: seq<Item>, pending: Option<Pending>, row: Row) returns (after: seq<Item>, next: Option<Pending>)
    requires row.shown && InOrder(events) && AllUpTo(events, row.id) && Listed(pending, events) && Slotted(pending)
    ensures SaidIds(after) == SaidIds(events)
    ensures Told(after) == Told(events) + Once(Selects(Action, row), row.id)
    ensures InOrder(after) && AllUpTo(after, row.id) && Listed(next, after)
    ensures forall item :: item in after ==>
      item in events || (item.Board? ==>
        row.kind == Result && row.open && item.id == row.id && item.named == Names(pending, row))
    ensures row.kind == Result && row.open && row.keyed ==>
      var named := Names(pending, row); Board(row.id, named, named.Some? && !pending.value.row.quiet) in after
    ensures forall item :: item in events && item.Board? ==> item in after
    ensures Slotted(next) && WaitingRow(next) ==
      if row.kind == Result && row.open && row.keyed then None
      else if row.kind in {Move, Resign, Leave} then Some(row) else WaitingRow(pending)
    ensures next.Some? ==> next == pending || (next.value.row == row && row.kind in {Move, Resign, Leave})
  {
    hide SaidIds, Told, Tells, Once, InOrder, AllUpTo;
    NothingToTell(Told(events), row.id);
    after, next := events, pending;
    if row.kind == Result && row.open && row.keyed {
      var matching := pending.Some? && pending.value.row.revision == row.revision && pending.value.row.open;
      var named := if matching then Some(pending.value.row.id) else None;
      assert named == Names(pending, row);
      if matching && pending.value.slot.Some? {
        var k, item := pending.value.slot.value, Board(row.id, named, true);
        ToldReplace(events, k, row.id);
        InOrderReplace(events, k, item);
        after := events[k := item];
        assert after[k] == item;
        assert forall i :: 0 <= i < |events| && i != k ==> after[i] == events[i];
      } else {
        ToldAppend(events, Board(row.id, named, false));
        InOrderAppend(events, Board(row.id, named, false));
        after := events + [Board(row.id, named, false)];
        assert after[|events|] == Board(row.id, named, false);
      }
      next := None;
    } else if row.kind in {Move, Resign, Leave} {
      if !row.quiet {
        ToldAppend(events, Acted(row.id));
        InOrderAppend(events, Acted(row.id));
        after := events + [Acted(row.id)];
        next := Some(Pending(row, Some(|events|)));
      } else {
        next := Some(Pending(row, None));
      }
    }
  }

  /** A board change that names an action: both rows exist, in this order, at
      one revision, and everyone may see them. */
  ghost predicate Paired(log: seq<Row>, item: Item) {
    item.Board? && item.named.Some? ==>
      exists a, r :: a in log && r in log && a.id == item.named.value && r.id == item.id
        && a.kind in {Move, Resign, Leave} && r.kind == Result
        && a.id < r.id && a.revision == r.revision && a.open && r.open
  }

  ghost predicate AllPaired(log: seq<Row>, items: seq<Item>) {
    forall item :: item in items ==> Paired(log, item)
  }

  ghost predicate PendingFrom(log: seq<Row>, i: nat, pending: Option<Pending>)
    requires i <= |log|
  {
    pending.Some? ==>
      pending.value.row.kind in {Move, Resign, Leave} && exists k :: 0 <= k < i && log[k] == pending.value.row
  }

  lemma PairingKept(log: seq<Row>, i: nat, before: seq<Item>, pending: Option<Pending>, after: seq<Item>,
      next: Option<Pending>)
    requires Ordered(log) && i < |log| && AllPaired(log, before) && PendingFrom(log, i, pending)
    requires next.Some? ==> next == pending || (next.value.row == log[i] && log[i].kind in {Move, Resign, Leave})
    requires forall item :: item in after ==> item in before || (item.Board? ==>
      log[i].kind == Result && log[i].open && item.id == log[i].id && item.named == Names(pending, log[i]))
    ensures AllPaired(log, after) && PendingFrom(log, i + 1, next)
  {
    forall item | item in after ensures Paired(log, item) {
      if item !in before && item.Board? && item.named.Some? {
        var k :| 0 <= k < i && log[k] == pending.value.row;
        assert log[k] in log && log[i] in log;
      }
    }
  }

  lemma Empty(pending: Option<Pending>)
    requires pending.None?
    ensures SaidIds([]) == [] && Told([]) == multiset{} && InOrder([]) && AllUpTo([], 0) && Listed(pending, [])
    ensures forall sort: Sort, lo: nat, hi: nat :: Picked([], sort, lo, hi) == []
  {
  }

  /** A result and the action it belongs to: the nearest one before it that this
      reply shows, of the same revision and open to everyone. */
  ghost predicate Belongs(log: seq<Row>, seen: nat, i: nat, j: nat) {
    && i < j < |log| && log[i].id > seen && log[i].shown && log[j].shown
    && log[i].kind in {Move, Resign, Leave} && log[i].open && log[i].revision == log[j].revision
    && log[j].kind == Result && log[j].open && log[j].keyed
    && forall k :: i < k < j && log[k].shown ==>
         log[k].kind !in {Move, Resign, Leave} && !(log[k].kind == Result && log[k].open && log[k].keyed)
  }

  /** Every result up to row `n` names its action, in whose place it stands unless
      the action itself is not listed. */
  ghost predicate ResultsNameActions(log: seq<Row>, seen: nat, n: int, items: seq<Item>) {
    forall i: nat, j: nat :: Belongs(log, seen, i, j) && j < n ==>
      Board(log[j].id, Some(log[i].id), !log[i].quiet) in items
  }

  lemma NothingNamed(log: seq<Row>, seen: nat, pending: Option<Pending>)
    requires pending.None?
    ensures ResultsNameActions(log, seen, 0, []) && Waiting([], seen) == WaitingRow(pending)
  {
  }

  lemma SaidIsPaired(log: seq<Row>, items: seq<Item>, id: nat)
    requires AllPaired(log, items)
    ensures AllPaired(log, items + [Said(id)])
  {
  }

  lemma StillListed(pending: Option<Pending>, items: seq<Item>, item: Item)
    requires Listed(pending, items)
    ensures Listed(pending, items + [item])
  {
  }

  lemma PickedTake(log: seq<Row>, sort: Sort, lo: nat, i: nat)
    requires Ordered(log) && i < |log|
    ensures Picked(log[..i + 1], sort, lo, Newest(log))
      == Picked(log[..i], sort, lo, Newest(log)) + (if lo < log[i].id && Selects(sort, log[i]) then [log[i].id] else [])
    ensures Newest(log[..i]) <= Newest(log[..i + 1]) == log[i].id
  {
    assert log[..i + 1][..i] == log[..i];
    NewestBounds(log);
    assert i > 0 ==> log[..i][i - 1] == log[i - 1];
  }

  lemma PickedTakeSet(log: seq<Row>, lo: nat, i: nat)
    requires Ordered(log) && i < |log|
    ensures multiset(Picked(log[..i + 1], Action, lo, Newest(log)))
      == multiset(Picked(log[..i], Action, lo, Newest(log)))
        + Once(lo < log[i].id && Selects(Action, log[i]), log[i].id)
  {
    hide Picked, Selects;
    PickedTake(log, Action, lo, i);
  }

  lemma {:induction false} WaitingBelongs(log: seq<Row>, seen: nat, i: nat, j: nat, n: nat)
    requires Ordered(log) && Belongs(log, seen, i, j) && i < n <= j
    ensures Waiting(log[..n], seen) == Some(log[i])
  {
    assert log[..n][..n - 1] == log[..n - 1];
    if i + 1 < n {
      WaitingBelongs(log, seen, i, j, n - 1);
    }
  }

  /** One more row: the action waiting, and the results named so far. */
  lemma NamingKept(log: seq<Row>, seen: nat, i: nat, before: seq<Item>, pending: Option<Pending>, after: seq<Item>)
    requires Ordered(log) && i < |log| && ResultsNameActions(log, seen, i, before)
    requires WaitingRow(pending) == Waiting(log[..i], seen)
    requires forall item :: item in before && item.Board? ==> item in after
    requires log[i].id > seen && log[i].shown && log[i].kind == Result && log[i].open && log[i].keyed ==>
      var named := Names(pending, log[i]); Board(log[i].id, named, named.Some? && !pending.value.row.quiet) in after
    ensures ResultsNameActions(log, seen, i + 1, after)
    ensures Waiting(log[..i + 1], seen) ==
      if !log[i].shown || log[i].id <= seen then WaitingRow(pending)
      else if log[i].kind == Result && log[i].open && log[i].keyed then None
      else if log[i].kind in {Move, Resign, Leave} then Some(log[i]) else WaitingRow(pending)
  {
    assert log[..i + 1][..i] == log[..i];
    forall a: nat, b: nat | Belongs(log, seen, a, b) && b < i + 1
      ensures Board(log[b].id, Some(log[a].id), !log[a].quiet) in after
    {
      if b == i {
        WaitingBelongs(log, seen, a, b, i);
      }
    }
  }

  function FirstOf(ids: seq<nat>): Option<nat> {
    if ids == [] then None else Some(ids[0])
  }

  /** The loop of `response`; `whole` is a bootstrap or a full state. */
  method Collect(log: seq<Row>, cursor: nat, covered: nat, full: bool, whole: bool)
    returns (events: seq<Item>, firstUnread: Option<nat>)
    requires Ordered(log) && (full ==> whole)
    ensures SaidIds(events) == if full then [] else Picked(log, Chat, cursor, Newest(log))
    ensures Told(events) == multiset(if whole then [] else Picked(log, Action, Max(cursor, covered), Newest(log)))
    ensures InOrder(events) && AllPaired(log, events)
    ensures !whole ==> ResultsNameActions(log, Max(cursor, covered), |log|, events)
    ensures firstUnread == if full then FirstOf(Picked(log, Chat, cursor, Newest(log))) else None
  {
    hide SaidIds, Told, Tells, Once, InOrder, AllUpTo, Picked, Ordered, Listed, Paired, Names,
      ResultsNameActions, Waiting;
    events, firstUnread := [], None;
    var pending: Option<Pending> := None;
    ghost var newest := Newest(log);
    Empty(pending);
    NothingNamed(log, Max(cursor, covered), pending);
    assert log[..0] == [];
    for i := 0 to |log|
      invariant !whole ==> ResultsNameActions(log, Max(cursor, covered), i, events)
      invariant !whole ==> WaitingRow(pending) == Waiting(log[..i], Max(cursor, covered))
      invariant Slotted(pending)
      invariant SaidIds(events) == if full then [] else Picked(log[..i], Chat, cursor, newest)
      invariant Told(events) == multiset(if whole then [] else Picked(log[..i], Action, Max(cursor, covered), newest))
      invariant InOrder(events) && AllUpTo(events, Newest(log[..i])) && Listed(pending, events)
      invariant AllPaired(log, events) && PendingFrom(log, i, pending)
      invariant firstUnread == if full then FirstOf(Picked(log[..i], Chat, cursor, newest)) else None
    {
      var row := log[i];
      PickedTake(log, Chat, cursor, i);
      PickedTakeSet(log, Max(cursor, covered), i);
      NothingToTell(Told(events), row.id);
      UpToFurther(events, Newest(log[..i]), row.id);
      ghost var listed, waits := events, pending;
      if row.id > cursor && row.shown {
        if Selects(Chat, row) && full && firstUnread.None? {
          firstUnread := Some(row.id);
        }
        if row.id > covered && !whole {
          ghost var before, waiting := events, pending;
          events, pending := Act(events, pending, row);
          PairingKept(log, i, before, waiting, events, pending);
        }
        if Selects(Chat, row) && !full {
          ToldAppend(events, Said(row.id));
          NothingToTell(Told(events), row.id);
          InOrderAppend(events, Said(row.id));
          StillListed(pending, events, Said(row.id));
          SaidIsPaired(log, events, row.id);
          events := events + [Said(row.id)];
        }
      }
      if !whole {
        NamingKept(log, Max(cursor, covered), i, listed, waits, events);
      }
    }
    assert log[..|log|] == log;
  }

  /** The loop of read_new_room_events: everything of others after the cursor. */
  method CollectNew(log: seq<Row>, cursor: nat) returns (texts: seq<nat>)
    requires Ordered(log)
    ensures texts == Picked(log, Heard, cursor, Newest(log))
  {
    hide Picked, Ordered;
    texts := [];
    Empty(None);
    assert log[..0] == [];
    for i := 0 to |log|
      invariant texts == Picked(log[..i], Heard, cursor, Newest(log))
    {
      PickedTake(log, Heard, cursor, i);
      if log[i].id > cursor && !log[i].mine && log[i].shown && log[i].text {
        texts := texts + [log[i].id];
      }
    }
    assert log[..|log|] == log;
  }

  lemma EmptyPrefix(snapshot: nat)
    ensures Prefix([], snapshot) == 0
  {
  }

  lemma {:induction false} SameBelow(log: seq<Row>, lo: nat, hi: nat, other: nat)
    requires forall r :: r in log ==> r.id <= hi && r.id <= other
    ensures Picked(log, Heard, lo, hi) == Picked(log, Heard, lo, other)
  {
    if log != [] {
      SameBelow(log[..|log| - 1], lo, hi, other);
    }
  }

  /** Taking one more row into a prefix moves its upper end, and nothing else. */
  lemma PickedFurther(log: seq<Row>, i: nat, lo: nat, hi: nat, snapshot: nat)
    requires Ordered(log) && i < |log| && lo < log[i].id && log[i].revision <= snapshot
    requires hi == Max(lo, Prefix(log[..i], snapshot)) && Newest(log[..i]) <= hi
    ensures Picked(log[..i + 1], Heard, lo, log[i].id)
      == Picked(log[..i], Heard, lo, hi) + (if Selects(Heard, log[i]) then [log[i].id] else [])
    ensures Prefix(log[..i + 1], snapshot) == log[i].id
  {
    assert log[..i + 1][..i] == log[..i];
    forall r | r in log[..i] ensures r.id <= hi && r.id <= log[i].id {
      NewestBounds(log[..i]);
    }
    SameBelow(log[..i], lo, hi, log[i].id);
  }

  lemma OldRow(log: seq<Row>, i: nat, lo: nat, hi: nat, snapshot: nat)
    requires Ordered(log) && i < |log| && log[i].id <= lo
    ensures Picked(log[..i + 1], Heard, lo, hi) == Picked(log[..i], Heard, lo, hi)
    ensures Max(lo, Prefix(log[..i + 1], snapshot)) == Max(lo, Prefix(log[..i], snapshot))
    ensures Newest(log[..i + 1]) <= lo
  {
    assert log[..i + 1][..i] == log[..i];
    PrefixBounds(log[..i], snapshot);
  }

  lemma LaterIsNewer(log: seq<Row>, i: nat)
    requires Ordered(log) && i < |log|
    ensures Ordered(log[..i]) && Newest(log[..i]) < log[i].id <= Newest(log)
    ensures log[i].revision <= log[|log| - 1].revision
  {
  }

  /** Where the loop stopped, the rest of the log is newer than the snapshot. */
  lemma {:induction false} RestIsNewer(log: seq<Row>, i: nat, lo: nat, hi: nat, snapshot: nat)
    requires Ordered(log) && i <= |log|
    requires i < |log| ==> log[i].id > lo && log[i].revision > snapshot
    requires hi == Max(lo, Prefix(log[..i], snapshot))
    ensures Prefix(log, snapshot) == Prefix(log[..i], snapshot)
    ensures Picked(log, Heard, lo, hi) == Picked(log[..i], Heard, lo, hi)
  {
    hide Selects, Ordered;
    if i == |log| {
      assert log[..i] == log;
    } else {
      var front := log[..|log| - 1];
      assert front[..i] == log[..i];
      OrderedFront(log);
      LaterIsNewer(log, i);
      PrefixBounds(log[..i], snapshot);
      RestIsNewer(front, i, lo, hi, snapshot);
    }
  }

  /** The loop of read_full_state_text: the prefix a snapshot covers, then stop. */
  method CollectPrefix(log: seq<Row>, cursor: nat, snapshot: nat) returns (texts: seq<nat>, lastId: nat)
    requires Ordered(log)
    ensures lastId == Max(cursor, Prefix(log, snapshot))
    ensures texts == Picked(log, Heard, cursor, lastId)
  {
    hide Picked, Ordered, Prefix;
    texts, lastId := [], cursor;
    var i := 0;
    EmptyPrefix(snapshot);
    Empty(None);
    assert log[..0] == [];
    while i < |log|
      invariant i <= |log|
      invariant lastId == Max(cursor, Prefix(log[..i], snapshot))
      invariant Newest(log[..i]) <= lastId
      invariant texts == Picked(log[..i], Heard, cursor, lastId)
    {
      PickedTake(log, Heard, cursor, i);
      if log[i].id > cursor {
        if log[i].revision > snapshot {
          break;
        }
        PickedFurther(log, i, cursor, lastId, snapshot);
        lastId := log[i].id;
        if !log[i].mine && log[i].shown && log[i].text {
          texts := texts + [log[i].id];
        }
      } else {
        OldRow(log, i, cursor, lastId, snapshot);
      }
      i := i + 1;
    }
    RestIsNewer(log, i, cursor, lastId, snapshot);
  }

  lemma {:induction false} CountedOnce(ids: seq<nat>, x: nat)
    requires Increasing(ids)
    ensures multiset(ids)[x] == if x in ids then 1 else 0
  {
    if ids != [] {
      var front, last := ids[..|ids| - 1], ids[|ids| - 1];
      CountedOnce(front, x);
      assert ids == front + [last];
      assert last !in front;
    }
  }

  lemma NothingIncreases()
    ensures Increasing([])
  {
  }

  /** What becomes of one row in a reply that goes up to the newest row. */
  lemma RowInReply(log: seq<Row>, cursor: nat, seen: nat, r: Row)
    requires Ordered(log) && r in log
    ensures r.id <= Newest(log) && Increasing(Picked(log, Chat, cursor, Newest(log)))
    ensures r.id in Picked(log, Chat, cursor, Newest(log)) <==>
      r.shown && r.text && r.kind != Result && !r.mine && cursor < r.id
    ensures multiset(Picked(log, Action, seen, Newest(log)))[r.id] ==
      if r.shown && r.id > seen
         && (if r.kind == Result then r.open && r.keyed else r.kind in {Move, Resign, Leave} && !r.quiet)
      then 1 else 0
  {
    hide Picked, Ordered, Increasing;
    NewestBounds(log);
    PickedIncreasing(log, Chat, cursor, Newest(log));
    PickedIncreasing(log, Action, seen, Newest(log));
    WordsArePicked(log, cursor, Newest(log), r);
    ActionsArePicked(log, seen, Newest(log), r);
    CountedOnce(Picked(log, Action, seen, Newest(log)), r.id);
  }

  /** Row by row, what a reply to a reader in this state must contain: visible text
      of others after the cursor, and public results or visible moves the reader has
      not seen; nothing of a reply that consumes nothing, no words of a full state,
      no actions beside a board. */
  ghost predicate RepliesRowByRow(b: Box, consume: bool, full: bool, events: seq<Item>) {
    var consumes := consume || full || !b.booted || b.covered > 0;
    && Increasing(SaidIds(events))
    && forall r :: r in b.log ==>
      && (r.id in SaidIds(events) <==>
            consumes && !full && r.shown && r.text && r.kind != Result && !r.mine && b.cursor < r.id)
      && (Told(events)[r.id] ==
            if consumes && !full && b.booted && r.shown && r.id > Max(b.cursor, b.covered)
               && (if r.kind == Result then r.open && r.keyed else r.kind in {Move, Resign, Leave} && !r.quiet)
            then 1 else 0)
  }

  lemma RowsInReply(b: Box, consume: bool, full: bool, events: seq<Item>)
    requires SaidSoFar(b)
    requires var consumes := consume || full || !b.booted || b.covered > 0;
      && SaidIds(events) == (if consumes && !full then Picked(b.log, Chat, b.cursor, Newest(b.log)) else [])
      && Told(events) == multiset(if consumes && !full && b.booted
                                  then Picked(b.log, Action, Max(b.cursor, b.covered), Newest(b.log)) else [])
    ensures RepliesRowByRow(b, consume, full, events)
  {
    hide Picked, Ordered, SaidIds, Told, Increasing;
    PickedIncreasing(b.log, Chat, b.cursor, Newest(b.log));
    NothingIncreases();
    forall r | r in b.log
      ensures r.id in Picked(b.log, Chat, b.cursor, Newest(b.log)) <==>
        r.shown && r.text && r.kind != Result && !r.mine && b.cursor < r.id
      ensures multiset(Picked(b.log, Action, Max(b.cursor, b.covered), Newest(b.log)))[r.id] ==
        if r.shown && r.id > Max(b.cursor, b.covered)
           && (if r.kind == Result then r.open && r.keyed else r.kind in {Move, Resign, Leave} && !r.quiet)
        then 1 else 0
    {
      RowInReply(b.log, b.cursor, Max(b.cursor, b.covered), r);
    }
  }

  /** What a response does to cursor, watermark and context. */
  lemma AfterResponse(b: Box, consume: bool, full: bool, newest: nat, whole: bool, unread: Option<nat>)
    requires newest == Newest(b.log) && whole == (!b.booted || full)
    requires unread == if full then FirstOf(Picked(b.log, Chat, b.cursor, newest)) else None
    ensures unread.Some? ==> unread.value > 0
    ensures Step(b, Event.Respond(consume, full)) ==
      if !(consume || full || !b.booted || b.covered > 0) then b
      else
        b.(said := b.said + (if full then [] else Picked(b.log, Chat, b.cursor, newest)),
           acted := b.acted + (if whole then [] else Picked(b.log, Action, Max(b.cursor, b.covered), newest)),
           board := if whole then newest else b.board,
           cursor := if unread.Some? then unread.value - 1 else newest,
           covered := if unread.Some? then newest else 0,
           booted := true)
  {
    hide Picked;
    var ids := Picked(b.log, Chat, b.cursor, newest);
    assert ids != [] ==> ids[0] in ids;
    assert b.said + [] == b.said && b.acted + [] == b.acted;
  }

  /** One viewer's cursor and context over the room's log. */
  class Mailbox {
    var log: seq<Row>
    var revision: nat
    var cursor: nat
    var covered: nat
    var booted: bool
    ghost const from: nat
    ghost var said: seq<nat>
    ghost var heard: seq<nat>
    ghost var acted: seq<nat>
    ghost var board: nat

    ghost function View(): Box reads this {
      Box(log, revision, cursor, covered, booted, from, said, heard, acted, board)
    }

    ghost predicate Valid() reads this {
      SaidSoFar(View())
    }

    /** A viewer of a room with a history, behind some event of it. */
    constructor (log: seq<Row>, revision: nat, cursor: nat)
      requires Starts(Box(log, revision, cursor, 0, false, cursor, [], [], [], 0))
      ensures Valid() && View() == Box(log, revision, cursor, 0, false, cursor, [], [], [], 0)
    {
      NothingBetween(log, cursor);
      this.log, this.revision, this.cursor, covered, booted := log, revision, cursor, 0, false;
      from, said, heard, acted, board := cursor, [], [], [], 0;
    }

    /** _record_event: one row at the revision its transaction commits. */
    method Post(bump: nat, gap: nat, row: Row)
      requires Valid()
      modifies this
      ensures Valid() && View() == Step(old(View()), Event.Post(bump, gap, row))
    {
      hide SaidSoFar;
      SaidStep(View(), Event.Post(bump, gap, row));
      revision := revision + bump;
      log := log + [row.(id := Newest(log) + 1 + gap, revision := revision)];
    }

    method ReadNew() returns (texts: seq<nat>)
      requires Valid()
      modifies this
      ensures Valid() && View() == Step(old(View()), Event.ReadNew)
      ensures heard == old(heard) + texts
    {
      hide Picked, Ordered;
      SaidStep(View(), Event.ReadNew);
      texts := CollectNew(log, cursor);
      said := said + Picked(log, Chat, cursor, Newest(log));
      heard := heard + texts;
      cursor := Newest(log);
    }

    method ReadFullText(snapshot: nat) returns (texts: seq<nat>)
      requires Valid()
      modifies this
      ensures Valid() && View() == Step(old(View()), Event.ReadFullText(snapshot))
      ensures heard == old(heard) + texts
    {
      hide Picked, Ordered, Prefix;
      var lastId;
      SaidStep(View(), Event.ReadFullText(snapshot));
      texts, lastId := CollectPrefix(log, cursor, snapshot);
      said := said + Picked(log, Chat, cursor, lastId);
      heard := heard + texts;
      cursor := lastId;
    }

    method Respond(consume: bool, full: bool) returns (events: seq<Item>)
      requires Valid()
      modifies this
      ensures Valid() && View() == Step(old(View()), Event.Respond(consume, full))
      ensures said == old(said) + SaidIds(events)
      ensures multiset(acted) == multiset(old(acted)) + Told(events)
      ensures InOrder(events) && AllPaired(log, events)
      ensures RepliesRowByRow(old(View()), consume, full, events)
      ensures (consume || old(covered) > 0) && !full && old(booted) ==>
        ResultsNameActions(log, Max(old(cursor), old(covered)), |log|, events)
    {
      hide SaidIds, Told, InOrder, Picked, Ordered, Paired, Increasing, RepliesRowByRow,
        ResultsNameActions, Step;
      ghost var b := View();
      events := [];
      Empty(None);
      SaidStep(View(), Event.Respond(consume, full));
      if !(consume || full || !booted || covered > 0) {
        RowsInReply(b, consume, full, events);
        AfterResponse(b, consume, full, Newest(log), !booted || full,
          if full then FirstOf(Picked(log, Chat, cursor, Newest(log))) else None);
        return;
      }
      var newest := Newest(log);
      var whole := !booted || full;
      var firstUnread;
      events, firstUnread := Collect(log, cursor, covered, full, whole);
      AfterResponse(b, consume, full, newest, whole, firstUnread);
      RowsInReply(b, consume, full, events);
      said := said + (if full then [] else Picked(log, Chat, cursor, newest));
      acted := acted + (if whole then [] else Picked(log, Action, Max(cursor, covered), newest));
      board := if whole then newest else board;
      cursor := if firstUnread.Some? then firstUnread.value - 1 else newest;
      covered := if firstUnread.Some? then newest else 0;
      booted := true;
    }
  }
}
