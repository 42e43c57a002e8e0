/** Delivering one room's events to one participant, exactly once
    (app/mcp_minimal.py, app/full_state.py, app/framework.py). */
module Delivery {
  import opened Common

  datatype Kind = Message | Move | Resign | Leave | Result

  /** A stored event as the viewer's projection shows it: `shown` when it is
      visible and projected, `mine` when the viewer sent it, `open` when it is
      visible to everyone, `keyed` when it carries the game's public delta,
      `quiet` when it is a private setup action. */
  datatype Row = Row(
    id: nat, revision: nat, mine: bool, kind: Kind, text: bool,
    shown: bool, open: bool, keyed: bool, quiet: bool)

  datatype Sort = Chat | Heard | Action

  predicate Selects(sort: Sort, r: Row) {
    r.shown &&
    match sort
    case Chat => r.text && r.kind != Result && !r.mine
    case Heard => r.text && !r.mine
    case Action => if r.kind == Result then r.open && r.keyed else r.kind in {Move, Resign, Leave} && !r.quiet
  }

  /** Ids of the selected rows after `lo` and up to `hi`, in log order. */
  function Picked(log: seq<Row>, sort: Sort, lo: nat, hi: nat): (ids: seq<nat>)
    ensures forall x :: x in ids ==> lo < x <= hi
  {
    if log == [] then []
    else
      var last := log[|log| - 1];
      Picked(log[..|log| - 1], sort, lo, hi) + (if lo < last.id <= hi && Selects(sort, last) then [last.id] else [])
  }

  function Newest(log: seq<Row>): nat {
    if log == [] then 0 else log[|log| - 1].id
  }

  /** Event ids grow; so do the revisions stamped on the events. */
  ghost predicate Ordered(log: seq<Row>) {
    && (forall r :: r in log ==> r.id > 0)
    && (forall i, j :: 0 <= i < j < |log| ==> log[i].id < log[j].id && log[i].revision <= log[j].revision)
  }

  /** The room, one reader's cursor and context, and what the reader was told
      since it started behind the event `from`: words (`said`; `heard` counts
      result notices too), actions, and the newest event contained in the last
      board it was sent. */
  datatype Box = Box(
    log: seq<Row>, revision: nat, cursor: nat, covered: nat, booted: bool,
    from: nat, said: seq<nat>, heard: seq<nat>, acted: seq<nat>, board: nat)

  datatype Event =
    | Post(bump: nat, gap: nat, row: Row)
    | Respond(consume: bool, full: bool)
    | ReadNew
    | ReadFullText(snapshot: nat)
    | Upgrade

  /** A reader starts with no context and some cursor: 0 when it has none yet,
      the newest event when it joins a room that already has a history. */
  ghost predicate Starts(b: Box) {
    && Ordered(b.log) && (forall r :: r in b.log ==> r.revision <= b.revision)
    && b.from <= Newest(b.log)
    && b == Box(b.log, b.revision, b.from, 0, false, b.from, [], [], [], 0)
  }

  function FirstUnread(b: Box): (first: Option<nat>)
    ensures first.Some? ==> b.cursor < first.value
  {
    var unread := Picked(b.log, Chat, b.cursor, Newest(b.log));
    if unread == [] then None
    else
      assert unread[0] in unread;
      Some(unread[0])
  }

  predicate Consumes(b: Box, consume: bool, full: bool) {
    consume || full || !b.booted || b.covered > 0
  }

  /** mcp_minimal.response. */
  function Responded(b: Box, consume: bool, full: bool): Box {
    if !Consumes(b, consume, full) then b
    else
      var newest := Newest(b.log);
      var unread := if full then FirstUnread(b) else None;
      var whole := !b.booted || full;
      b.(said := if full then b.said else b.said + Picked(b.log, Chat, b.cursor, newest),
         acted := if whole then b.acted else b.acted + Picked(b.log, Action, Max(b.cursor, b.covered), newest),
         board := if whole then newest else b.board,
         cursor := if unread.Some? then unread.value - 1 else newest,
         covered := if unread.Some? then newest else 0,
         booted := true)
  }

  /** Newest row of the prefix a snapshot of that revision covers. */
  function Prefix(log: seq<Row>, snapshot: nat): nat {
    if log == [] then 0
    else if log[|log| - 1].revision <= snapshot then log[|log| - 1].id
    else Prefix(log[..|log| - 1], snapshot)
  }

  function TextRead(b: Box, to: nat): Box {
    b.(said := b.said + Picked(b.log, Chat, b.cursor, to),
       heard := b.heard + Picked(b.log, Heard, b.cursor, to),
       cursor := to)
  }

  function Step(b: Box, e: Event): Box {
    match e
    case Post(bump, gap, row) =>
      b.(revision := b.revision + bump,
         log := b.log + [row.(id := Newest(b.log) + 1 + gap, revision := b.revision + bump)])
    case Respond(consume, full) => Responded(b, consume, full)
    case ReadNew => TextRead(b, Newest(b.log))
    case ReadFullText(snapshot) => TextRead(b, Max(b.cursor, Prefix(b.log, snapshot)))
    case Upgrade => b.(booted := false)
  }

  function Run(b: Box, events: seq<Event>): Box {
    if events == [] then b else Step(Run(b, events[..|events| - 1]), events[|events| - 1])
  }

  lemma RunEnds(start: Box, events: seq<Event>)
    ensures events != [] ==> Run(start, events) == Step(Run(start, events[..|events| - 1]), events[|events| - 1])
    ensures events == [] ==> Run(start, events) == start
  {
  }

  // ----- rows between two ids -----

  lemma {:induction false} PickedNone(log: seq<Row>, sort: Sort, lo: nat, hi: nat)
    requires forall r :: r in log ==> r.id <= lo || r.id > hi
    ensures Picked(log, sort, lo, hi) == []
  {
    if log != [] {
      PickedNone(log[..|log| - 1], sort, lo, hi);
    }
  }

  lemma NothingBetween(log: seq<Row>, id: nat)
    ensures forall sort: Sort :: Picked(log, sort, id, id) == []
  {
    forall sort: Sort ensures Picked(log, sort, id, id) == [] {
      PickedNone(log, sort, id, id);
    }
  }

  lemma OrderedFront(log: seq<Row>)
    requires Ordered(log) && log != []
    ensures Ordered(log[..|log| - 1])
    ensures forall r :: r in log[..|log| - 1] ==> r.id < Newest(log) && r.revision <= log[|log| - 1].revision
  {
  }

  lemma {:induction false} PickedJoin(log: seq<Row>, sort: Sort, lo: nat, mid: nat, hi: nat)
    requires Ordered(log) && lo <= mid <= hi
    ensures Picked(log, sort, lo, mid) + Picked(log, sort, mid, hi) == Picked(log, sort, lo, hi)
  {
    hide Selects, Ordered;
    if log != [] {
      OrderedFront(log);
      PickedJoin(log[..|log| - 1], sort, lo, mid, hi);
      if Newest(log) <= mid {
        PickedNone(log[..|log| - 1], sort, mid, hi);
      }
    }
  }

  lemma {:induction false} PickedMember(log: seq<Row>, sort: Sort, lo: nat, hi: nat, x: nat)
    ensures x in Picked(log, sort, lo, hi) <==> exists r :: r in log && r.id == x && Selects(sort, r) && lo < x <= hi
  {
    if log != [] {
      var front, last := log[..|log| - 1], log[|log| - 1];
      PickedMember(front, sort, lo, hi, x);
      assert log == front + [last];
    }
  }

  lemma OneRowPerId(log: seq<Row>, r: Row)
    requires Ordered(log) && r in log
    ensures forall q :: q in log && q.id == r.id ==> q == r
  {
  }

  /** The words picked between two ids, row by row: visible text of somebody else,
      result notices aside. */
  lemma WordsArePicked(log: seq<Row>, lo: nat, hi: nat, r: Row)
    requires Ordered(log) && r in log
    ensures r.id in Picked(log, Chat, lo, hi) <==>
      r.shown && r.text && r.kind != Result && !r.mine && lo < r.id <= hi
  {
    hide Ordered, Picked;
    PickedMember(log, Chat, lo, hi, r.id);
    OneRowPerId(log, r);
  }

  /** The same for the old readers, who hear result notices too. */
  lemma TextsArePicked(log: seq<Row>, lo: nat, hi: nat, r: Row)
    requires Ordered(log) && r in log
    ensures r.id in Picked(log, Heard, lo, hi) <==> r.shown && r.text && !r.mine && lo < r.id <= hi
  {
    hide Ordered, Picked;
    PickedMember(log, Heard, lo, hi, r.id);
    OneRowPerId(log, r);
  }

  /** The actions picked between two ids: public results with a delta, and visible
      moves, resignations and departures that are no private setup. */
  lemma ActionsArePicked(log: seq<Row>, lo: nat, hi: nat, r: Row)
    requires Ordered(log) && r in log
    ensures r.id in Picked(log, Action, lo, hi) <==>
      && r.shown && lo < r.id <= hi
      && (r.kind == Result ==> r.open && r.keyed)
      && (r.kind != Result ==> r.kind in {Move, Resign, Leave} && !r.quiet)
  {
    hide Ordered, Picked;
    PickedMember(log, Action, lo, hi, r.id);
    OneRowPerId(log, r);
  }

  lemma IncreasingConcat(a: seq<nat>, b: seq<nat>, mid: nat)
    requires Increasing(a) && Increasing(b)
    requires (forall x :: x in a ==> x <= mid) && (forall x :: x in b ==> mid < x)
    ensures Increasing(a + b)
  {
    assert forall i :: 0 <= i < |a| ==> a[i] in a;
    assert forall i :: 0 <= i < |b| ==> b[i] in b;
  }

  lemma {:induction false} PickedIncreasing(log: seq<Row>, sort: Sort, lo: nat, hi: nat)
    requires Ordered(log)
    ensures Increasing(Picked(log, sort, lo, hi))
    ensures forall x :: x in Picked(log, sort, lo, hi) ==> lo < x <= hi && x <= Newest(log)
  {
    if log != [] {
      var front, last := log[..|log| - 1], log[|log| - 1];
      OrderedFront(log);
      PickedIncreasing(front, sort, lo, hi);
      assert front != [] ==> front[|front| - 1] in front;
      if lo < last.id <= hi && Selects(sort, last) {
        IncreasingConcat(Picked(front, sort, lo, hi), [last.id], last.id - 1);
      }
    }
  }

  lemma PositiveIds(log: seq<Row>)
    requires Ordered(log)
    ensures forall r :: r in log ==> r.id > 0
  {
  }

  lemma NewestBounds(log: seq<Row>)
    requires Ordered(log)
    ensures forall r :: r in log ==> r.id <= Newest(log)
  {
  }

  lemma HeadOfConcat(a: seq<nat>, b: seq<nat>)
    ensures a != [] ==> (a + b)[0] == a[0] && a[0] in a
  {
  }

  /** Up to the first unread words there is nothing to say. */
  lemma NothingBeforeFirst(b: Box)
    requires Ordered(b.log) && FirstUnread(b).Some?
    ensures b.cursor < FirstUnread(b).value <= Newest(b.log)
    ensures Picked(b.log, Chat, b.cursor, FirstUnread(b).value - 1) == []
  {
    var newest, first := Newest(b.log), FirstUnread(b).value;
    PickedIncreasing(b.log, Chat, b.cursor, newest);
    assert first in Picked(b.log, Chat, b.cursor, newest);
    PickedJoin(b.log, Chat, b.cursor, first - 1, newest);
    PickedIncreasing(b.log, Chat, b.cursor, first - 1);
    HeadOfConcat(Picked(b.log, Chat, b.cursor, first - 1), Picked(b.log, Chat, first - 1, newest));
  }

  /** A new row does not change what lies at or before an older id. */
  lemma PickedPost(log: seq<Row>, row: Row, sort: Sort, lo: nat, hi: nat)
    requires row.id > hi
    ensures Picked(log + [row], sort, lo, hi) == Picked(log, sort, lo, hi)
  {
    assert (log + [row])[..|log|] == log;
  }

  // ----- words -----

  /** The cursor splits the log: everything before it was said, once, in order. */
  ghost predicate SaidSoFar(b: Box) {
    && Ordered(b.log) && (forall r :: r in b.log ==> r.revision <= b.revision)
    && b.cursor <= Newest(b.log)
    && b.from <= b.cursor && b.said == Picked(b.log, Chat, b.from, b.cursor)
  }

  lemma PostKeeps(b: Box, bump: nat, gap: nat, row: Row)
    requires SaidSoFar(b)
    ensures SaidSoFar(Step(b, Post(bump, gap, row)))
  {
    hide Picked, Selects;
    var c := Step(b, Post(bump, gap, row));
    NewestBounds(b.log);
    PickedPost(b.log, c.log[|b.log|], Chat, b.from, b.cursor);
  }

  lemma PrefixBounds(log: seq<Row>, snapshot: nat)
    requires Ordered(log)
    ensures Prefix(log, snapshot) <= Newest(log)
  {
    if log != [] {
      PrefixBounds(log[..|log| - 1], snapshot);
    }
  }

  lemma SaidRespond(b: Box, consume: bool, full: bool)
    requires SaidSoFar(b)
    ensures SaidSoFar(Responded(b, consume, full)) && b.cursor <= Responded(b, consume, full).cursor
    ensures Responded(b, consume, full).from == b.from
  {
    hide Picked, Ordered;
    PickedJoin(b.log, Chat, b.from, b.cursor, Newest(b.log));
    if full && FirstUnread(b).Some? {
      NothingBeforeFirst(b);
      PickedJoin(b.log, Chat, b.from, b.cursor, FirstUnread(b).value - 1);
    }
  }

  lemma SaidStep(b: Box, e: Event)
    requires SaidSoFar(b)
    ensures SaidSoFar(Step(b, e)) && b.cursor <= Step(b, e).cursor && Step(b, e).from == b.from
  {
    hide Picked, Prefix, Ordered, Responded;
    match e
    case Post(bump, gap, row) =>
      PostKeeps(b, bump, gap, row);
    case Respond(consume, full) => SaidRespond(b, consume, full);
    case ReadNew => PickedJoin(b.log, Chat, b.from, b.cursor, Newest(b.log));
    case ReadFullText(snapshot) =>
      PrefixBounds(b.log, snapshot);
      PickedJoin(b.log, Chat, b.from, b.cursor, Max(b.cursor, Prefix(b.log, snapshot)));
    case Upgrade =>
  }

  lemma {:induction false} RunSaysSoFar(start: Box, events: seq<Event>)
    requires Starts(start)
    ensures SaidSoFar(Run(start, events)) && Run(start, events).from == start.from
  {
    NothingBetween(start.log, start.from);
    if events != [] {
      RunSaysSoFar(start, events[..|events| - 1]);
      SaidStep(Run(start, events[..|events| - 1]), events[|events| - 1]);
    }
  }

  /** Exactly-once words: whatever reads, resyncs, upgrades and posts interleave,
      a row's words were delivered if and only if they are visible text of somebody
      else, no result notice, between the start and the cursor; each once, and in
      log order. */
  lemma WordsExactlyOnce(start: Box, events: seq<Event>)
    requires Starts(start)
    ensures var b := Run(start, events);
      && Increasing(b.said)
      && (forall x :: x in b.said ==> exists r :: r in b.log && r.id == x)
      && (forall r :: r in b.log ==> (r.id in b.said <==>
            r.shown && r.text && r.kind != Result && !r.mine && start.from < r.id <= b.cursor))
  {
    hide Picked, Ordered, Run;
    var b := Run(start, events);
    RunSaysSoFar(start, events);
    PickedIncreasing(b.log, Chat, b.from, b.cursor);
    forall r | r in b.log
      ensures r.id in b.said <==>
        r.shown && r.text && r.kind != Result && !r.mine && start.from < r.id <= b.cursor
    {
      WordsArePicked(b.log, b.from, b.cursor, r);
    }
    forall x | x in b.said ensures exists r :: r in b.log && r.id == x {
      PickedMember(b.log, Chat, b.from, b.cursor, x);
    }
  }

  lemma {:induction false} CursorOnlyMovesForward(start: Box, events: seq<Event>, i: nat)
    requires Starts(start)
    requires i <= |events|
    ensures Run(start, events[..i]).cursor <= Run(start, events).cursor
  {
    if i < |events| {
      var front := events[..|events| - 1];
      CursorOnlyMovesForward(start, front, i);
      assert front[..i] == events[..i];
      RunSaysSoFar(start, front);
      SaidStep(Run(start, front), events[|events| - 1]);
    } else {
      assert events[..i] == events;
    }
  }

  /** After an ordinary response that consumes, no word is owed: whatever visible
      text of others follows the start was said. */
  lemma NothingOwed(start: Box, events: seq<Event>, consume: bool)
    requires Starts(start)
    requires var b := Run(start, events); consume || !b.booted || b.covered > 0
    ensures var c := Step(Run(start, events), Respond(consume, false));
      && c.covered == 0 && (forall r :: r in c.log ==> r.id <= c.cursor)
      && (forall r :: r in c.log && r.shown && r.text && r.kind != Result && !r.mine && start.from < r.id ==>
            r.id in c.said)
  {
    hide Picked, Ordered, Run;
    var b := Run(start, events);
    RunSaysSoFar(start, events);
    SaidStep(b, Respond(consume, false));
    var c := Step(b, Respond(consume, false));
    NewestBounds(c.log);
    forall r | r in c.log && r.shown && r.text && r.kind != Result && !r.mine && start.from < r.id
      ensures r.id in c.said
    {
      WordsArePicked(c.log, c.from, c.cursor, r);
    }
  }

  /** Looking without consuming, once the context is there and nothing is covered,
      changes nothing. */
  lemma LookingOnlyChangesNothing(b: Box)
    requires b.booted && b.covered == 0
    ensures Step(b, Respond(false, false)) == b
  {
  }

  /** A full state says nothing and loses nothing: the cursor moves up to the first
      words not yet said, or to the newest event when there are none, and everything
      the state contains is marked as covered. */
  lemma FullStateSkipsNoWord(start: Box, events: seq<Event>, consume: bool)
    requires Starts(start)
    ensures var b := Run(start, events); var c := Step(b, Respond(consume, true));
      && c.said == b.said && c.booted && c.log == b.log
      && (forall r :: r in c.log ==> r.id <= c.board && r.id <= Max(c.cursor, c.covered))
      && (forall r :: r in c.log && r.shown && r.text && r.kind != Result && !r.mine && start.from < r.id ==>
            (r.id > b.cursor <==> r.id > c.cursor))
      && (c.covered > 0 ==>
            exists r :: r in c.log && r.id == c.cursor + 1 && r.shown && r.text && r.kind != Result && !r.mine)
  {
    hide Picked, Ordered, Run;
    var b := Run(start, events);
    RunSaysSoFar(start, events);
    SaidStep(b, Respond(consume, true));
    var c := Step(b, Respond(consume, true));
    NewestBounds(c.log);
    forall r | r in c.log && r.shown && r.text && r.kind != Result && !r.mine && start.from < r.id
      ensures r.id > b.cursor <==> r.id > c.cursor
    {
      WordsArePicked(c.log, c.from, c.cursor, r);
      WordsArePicked(c.log, c.from, b.cursor, r);
    }
    if FirstUnread(b).Some? {
      var first := FirstUnread(b).value;
      PickedMember(b.log, Chat, b.cursor, Newest(b.log), first);
      assert first in Picked(b.log, Chat, b.cursor, Newest(b.log));
    }
  }

  // ----- actions -----

  /** Old readers only run before the room switches to the new protocol. */
  ghost predicate Routed(events: seq<Event>) {
    forall i, j :: 0 <= i < j < |events| && events[i].Respond? ==> !events[j].ReadNew? && !events[j].ReadFullText?
  }

  function Seen(b: Box): nat {
    Max(b.cursor, b.covered)
  }

  /** Actions told so far: distinct, in order; once the context exists, every
      action up to what was seen was told or is on the board that was sent. */
  ghost predicate ActedSoFar(b: Box) {
    && SaidSoFar(b)
    && Increasing(b.acted) && (forall x :: x in b.acted ==> x <= Seen(b))
    && b.covered <= Newest(b.log)
    && (forall x :: x in b.acted ==> x in Picked(b.log, Action, 0, Seen(b)))
    && (b.booted ==> b.board <= Seen(b))
    && (b.booted ==> forall x :: x in Picked(b.log, Action, 0, Seen(b)) ==> x in b.acted || x <= b.board)
  }

  lemma ActedRespond(b: Box, consume: bool, full: bool)
    requires ActedSoFar(b)
    ensures ActedSoFar(Step(b, Respond(consume, full)))
  {
    SaidStep(b, Respond(consume, full));
    var newest := Newest(b.log);
    if Consumes(b, consume, full) {
      if full && FirstUnread(b).Some? {
        NothingBeforeFirst(b);
      }
      PickedIncreasing(b.log, Action, Seen(b), newest);
      PickedIncreasing(b.log, Action, 0, newest);
      PickedJoin(b.log, Action, 0, Seen(b), newest);
      IncreasingConcat(b.acted, Picked(b.log, Action, Seen(b), newest), Seen(b));
    }
  }

  lemma ActedPost(b: Box, bump: nat, gap: nat, row: Row)
    requires ActedSoFar(b)
    ensures ActedSoFar(Step(b, Post(bump, gap, row)))
  {
    var c := Step(b, Post(bump, gap, row));
    PostKeeps(b, bump, gap, row);
    PickedPost(b.log, c.log[|b.log|], Action, 0, Seen(b));
  }

  /** Before the new protocol's first response there is no context at all. */
  lemma {:induction false} LegacyPhase(start: Box, events: seq<Event>)
    requires Starts(start)
    requires forall e :: e in events ==> !e.Respond?
    ensures var b := Run(start, events); !b.booted && b.covered == 0 && b.acted == [] && b.board == 0
  {
    if events != [] {
      LegacyPhase(start, events[..|events| - 1]);
    }
  }

  lemma NothingActed(start: Box)
    requires Starts(start)
    ensures ActedSoFar(start)
  {
    NothingBetween(start.log, start.from);
  }

  lemma ActedUpgrade(b: Box)
    requires ActedSoFar(b)
    ensures ActedSoFar(Step(b, Upgrade))
  {
  }

  lemma RoutedFront(events: seq<Event>)
    requires Routed(events) && events != []
    ensures Routed(events[..|events| - 1])
    ensures events == events[..|events| - 1] + [events[|events| - 1]]
  {
  }

  lemma LegacyRead(start: Box, front: seq<Event>, last: Event)
    requires Starts(start)
    requires Routed(front + [last]) && (last.ReadNew? || last.ReadFullText?)
    ensures ActedSoFar(Step(Run(start, front), last))
  {
    forall e | e in front ensures !e.Respond? {
      var i :| 0 <= i < |front| && front[i] == e;
      assert (front + [last])[i] == e && (front + [last])[|front|] == last;
    }
    LegacyPhase(start, front);
    RunSaysSoFar(start, front);
    SaidStep(Run(start, front), last);
  }

  lemma {:induction false} RunActsSoFar(start: Box, events: seq<Event>)
    requires Starts(start)
    requires Routed(events)
    ensures ActedSoFar(Run(start, events))
  {
    hide ActedSoFar, Routed;
    NothingActed(start);
    if events != [] {
      var front, last := events[..|events| - 1], events[|events| - 1];
      RoutedFront(events);
      RunActsSoFar(start, front);
      var b := Run(start, front);
      match last
      case Post(bump, gap, row) => ActedPost(b, bump, gap, row);
      case Respond(consume, full) => ActedRespond(b, consume, full);
      case Upgrade => ActedUpgrade(b);
      case ReadNew => LegacyRead(start, front, last);
      case ReadFullText(snapshot) => LegacyRead(start, front, last);
    }
  }

  /** Actions under any routed interleaving: told at most once and in order, only
      public results with a delta and visible moves that are no private setup; and
      each of those up to what the reader has seen was told or is on the board. */
  lemma ActionsAtMostOnce(start: Box, events: seq<Event>)
    requires Starts(start)
    requires Routed(events)
    ensures var b := Run(start, events);
      && Increasing(b.acted)
      && (forall r :: r in b.log && r.id in b.acted ==>
            && r.shown && r.id <= Max(b.cursor, b.covered)
            && if r.kind == Result then r.open && r.keyed else r.kind in {Move, Resign, Leave} && !r.quiet)
      && (forall r :: r in b.log && b.booted && r.shown && r.id <= Max(b.cursor, b.covered) ==>
            (if r.kind == Result then r.open && r.keyed else r.kind in {Move, Resign, Leave} && !r.quiet) ==>
            r.id in b.acted || r.id <= b.board)
  {
    hide Picked, Ordered, Run;
    var b := Run(start, events);
    RunActsSoFar(start, events);
    forall r | r in b.log
      ensures r.id > 0
      ensures r.id in Picked(b.log, Action, 0, Max(b.cursor, b.covered)) <==>
        && r.shown && 0 < r.id <= Max(b.cursor, b.covered)
        && if r.kind == Result then r.open && r.keyed else r.kind in {Move, Resign, Leave} && !r.quiet
    {
      ActionsArePicked(b.log, 0, Max(b.cursor, b.covered), r);
      PositiveIds(b.log);
    }
  }

  /** What one response adds was on no board before, and was not told before. */
  lemma NoReplayedAction(start: Box, events: seq<Event>, consume: bool, full: bool, x: nat)
    requires Starts(start)
    requires Routed(events)
    requires var b := Run(start, events);
      b.acted <= Step(b, Respond(consume, full)).acted && x in Step(b, Respond(consume, full)).acted[|b.acted|..]
    ensures var b := Run(start, events); x > b.board && x !in b.acted && b.booted && !full
  {
    var b := Run(start, events);
    RunActsSoFar(start, events);
    PickedIncreasing(b.log, Action, Seen(b), Newest(b.log));
    assert x in Picked(b.log, Action, Seen(b), Newest(b.log));
  }

  /** After an ordinary response that consumes, every action was told or is on
      the last board sent. */
  lemma NoActionOwed(start: Box, events: seq<Event>, consume: bool)
    requires Starts(start)
    requires Routed(events)
    requires var b := Run(start, events); consume || !b.booted || b.covered > 0
    ensures var c := Step(Run(start, events), Respond(consume, false));
      forall r :: r in c.log && r.shown ==>
        (if r.kind == Result then r.open && r.keyed else r.kind in {Move, Resign, Leave} && !r.quiet) ==>
        r.id in c.acted || r.id <= c.board
  {
    hide Picked, Ordered, Run;
    RunActsSoFar(start, events);
    ActedRespond(Run(start, events), consume, false);
    var c := Step(Run(start, events), Respond(consume, false));
    NewestBounds(c.log);
    PositiveIds(c.log);
    forall r | r in c.log && r.shown
      && (if r.kind == Result then r.open && r.keyed else r.kind in {Move, Resign, Leave} && !r.quiet)
      ensures r.id in c.acted || r.id <= c.board
    {
      ActionsArePicked(c.log, 0, Max(c.cursor, c.covered), r);
    }
  }

  // ----- the old protocol's two readers -----

  lemma {:induction false} RunHears(start: Box, events: seq<Event>)
    requires Starts(start)
    requires forall e :: e in events ==> !e.Respond?
    ensures var b := Run(start, events); b.heard == Picked(b.log, Heard, b.from, b.cursor)
  {
    hide Picked, Prefix, Ordered, Run;
    RunEnds(start, events);
    NothingBetween(start.log, start.from);
    if events != [] {
      var front, last := events[..|events| - 1], events[|events| - 1];
      RunHears(start, front);
      RunSaysSoFar(start, front);
      var b := Run(start, front);
      match last
      case Post(bump, gap, row) =>
        PickedPost(b.log, Step(b, last).log[|b.log|], Heard, b.from, b.cursor);
      case ReadNew => PickedJoin(b.log, Heard, b.from, b.cursor, Newest(b.log));
      case ReadFullText(snapshot) =>
        PickedJoin(b.log, Heard, b.from, b.cursor, Max(b.cursor, Prefix(b.log, snapshot)));
      case Upgrade =>
    }
  }

  /** With old readers alone, every visible text of somebody else, result notices
      included, is delivered exactly once, in log order. */
  lemma SharedCursorReaders(start: Box, events: seq<Event>)
    requires Starts(start)
    requires forall e :: e in events ==> !e.Respond?
    ensures var b := Run(start, events);
      && Increasing(b.heard)
      && (forall x :: x in b.heard ==> exists r :: r in b.log && r.id == x)
      && (forall r :: r in b.log ==>
            (r.id in b.heard <==> r.shown && r.text && !r.mine && start.from < r.id <= b.cursor))
  {
    hide Picked, Ordered, Run;
    var b := Run(start, events);
    RunHears(start, events);
    RunSaysSoFar(start, events);
    PickedIncreasing(b.log, Heard, b.from, b.cursor);
    forall r | r in b.log
      ensures r.id in b.heard <==> r.shown && r.text && !r.mine && start.from < r.id <= b.cursor
    {
      TextsArePicked(b.log, b.from, b.cursor, r);
    }
    forall x | x in b.heard ensures exists r :: r in b.log && r.id == x {
      PickedMember(b.log, Heard, b.from, b.cursor, x);
    }
  }

  /** A full-state read consumes exactly the rows of its snapshot: everything
      up to the snapshot's revision is behind the cursor, and what it newly
      passed over is no newer than the snapshot. */
  lemma {:induction false} PrefixIsExact(log: seq<Row>, snapshot: nat, r: Row)
    requires Ordered(log) && r in log
    ensures r.id <= Prefix(log, snapshot) <==> r.revision <= snapshot
  {
    var front, last := log[..|log| - 1], log[|log| - 1];
    if last.revision <= snapshot {
      NewestBounds(log);
      assert exists i :: 0 <= i < |log| && log[i] == r;
    } else if r in front {
      OrderedFront(log);
      PrefixIsExact(front, snapshot, r);
    } else {
      assert log == front + [last];
      OrderedFront(log);
      PrefixBounds(front, snapshot);
      assert front != [] ==> front[|front| - 1] in front;
    }
  }

  lemma FullTextConsumesItsPrefix(start: Box, events: seq<Event>, snapshot: nat, r: Row)
    requires Starts(start)
    requires r in Run(start, events).log
    ensures var b := Run(start, events); var c := Step(b, ReadFullText(snapshot));
      && (r.revision <= snapshot ==> r.id <= c.cursor)
      && (r.revision > snapshot && r.id > b.cursor ==> r.id > c.cursor)
  {
    hide Picked, Ordered, Prefix, Run;
    RunSaysSoFar(start, events);
    PrefixIsExact(Run(start, events).log, snapshot, r);
  }
}
