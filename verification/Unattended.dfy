/** What a room may do while its people are away: takeovers bounded by presence
    leases, NPC play bounded by a persisted fuse (app/takeover.py,
    app/framework.py, app/npc_limits.py, app/liars_dice_rush.py). */
module Unattended {
  import opened Common
  const MICRO := 1_000_000
  const NPC_UNATTENDED_ROUNDS := 2
  const MAX_NPC_ACTIONS_PER_TURN := 512

  /** Stored stamps are whole seconds; the clock and `startedAt` are in
      microseconds.  `stamps` are the presence stamps of the cursors that exist,
      `eligible` the people who are seated and active, `active` counts every
      active seat.  `since` counts takeovers since somebody's last presence. */
  datatype Room = Room(
    seconds: nat, seats: nat, now: nat,
    revision: nat, updatedAt: nat, turnRevision: nat, startedAt: nat, reclaim: Option<nat>,
    stamps: map<string, nat>, eligible: set<string>, active: nat,
    unattended: nat, turnActions: nat,
    workers: map<nat, nat>, takeovers: nat, npcMoves: nat, since: nat)

  datatype Event =
    | Observe(w: nat, humanTurn: bool)
    | Takeover(w: nat, accepted: bool, completed: bool)
    | NpcMove(side: bool, completed: bool)
    | ClientMove(player: string, side: bool)
    | Forfeit(client: bool)
    | Sync
    | RushExpiry
    | Touch(player: string)
    | Reclaim(player: string)
    | Visit(player: string)
    | Activity(eligible: set<string>, active: nat)

  /** datetime.now(...).isoformat(timespec="seconds"). */
  function Stamp(now: nat): nat {
    now / MICRO
  }

  ghost predicate Live(r: Room) {
    r.seconds > 0 && exists p :: p in r.stamps && p in r.eligible && r.stamps[p] * MICRO > r.now - r.seconds * MICRO
  }

  /** takeover.is_due, for a turn that belongs to a person. */
  ghost predicate IsDue(r: Room) {
    && r.reclaim != Some(r.revision) && r.turnRevision == r.revision
    && r.seconds > 0 && r.now - r.startedAt >= r.seconds * MICRO
    && Live(r)
  }

  function UnattendedLimit(active: nat): nat {
    NPC_UNATTENDED_ROUNDS * active
  }

  predicate BudgetExhausted(r: Room) {
    r.unattended >= UnattendedLimit(r.active) || r.turnActions >= MAX_NPC_ACTIONS_PER_TURN
  }

  predicate CanTouch(r: Room, player: string) {
    player in r.stamps && player in r.eligible
  }

  function Touched(r: Room, player: string): Room {
    if CanTouch(r, player) then r.(stamps := r.stamps[player := Stamp(r.now)], since := 0) else r
  }

  /** The revision and timer part of a committed move. */
  function Moved(r: Room, side: bool): Room {
    if side then r.(revision := r.revision + 1, updatedAt := Stamp(r.now), turnRevision := r.revision + 1)
    else
      r.(revision := r.revision + 1, updatedAt := Stamp(r.now), turnRevision := r.revision + 1,
         startedAt := Stamp(r.now) * MICRO, reclaim := None)
  }

  ghost predicate TakesOver(r: Room, w: nat, accepted: bool) {
    w in r.workers && r.workers[w] == r.revision && r.reclaim != Some(r.revision) && Live(r) && accepted
  }

  ghost function TookOver(r: Room, w: nat, accepted: bool, completed: bool): Room {
    var done := r.(workers := r.workers - {w});
    if TakesOver(r, w, accepted) then
      Moved(done, false).(turnActions := if completed then 0 else r.turnActions,
                          takeovers := r.takeovers + 1, since := r.since + 1)
    else done
  }

  function NpcMoved(r: Room, side: bool, completed: bool): Room {
    if BudgetExhausted(r) then r
    else
      var finished := completed && !side;
      Moved(r, side).(unattended := r.unattended + (if finished then 1 else 0),
                      turnActions := if finished then 0 else r.turnActions + 1,
                      npcMoves := r.npcMoves + 1)
  }

  function BudgetReset(r: Room): Room {
    r.(unattended := 0, turnActions := 0)
  }

  ghost function Act(r: Room, e: Event): Room {
    match e
    case Observe(w, humanTurn) => if humanTurn && IsDue(r) then r.(workers := r.workers[w := r.revision]) else r
    case Takeover(w, accepted, completed) => TookOver(r, w, accepted, completed)
    case NpcMove(side, completed) => NpcMoved(r, side, completed)
    case ClientMove(player, side) => Moved(Touched(BudgetReset(r), player), side)
    case Forfeit(client) =>
      (if client then BudgetReset(r) else r).(revision := r.revision + 1, updatedAt := Stamp(r.now))
    case Sync =>
      if r.turnRevision == r.revision then r
      else r.(startedAt := r.updatedAt * MICRO, turnRevision := r.revision, reclaim := None)
    case RushExpiry =>
      r.(revision := r.revision + 1, turnRevision := r.revision + 1, startedAt := r.now,
         reclaim := if r.reclaim == Some(r.revision) then Some(r.revision + 1) else r.reclaim)
    case Touch(player) => Touched(r, player)
    case Reclaim(player) => Touched(r, player).(reclaim := Some(r.revision))
    case Visit(player) => if player in r.stamps then r else r.(stamps := r.stamps[player := 0])
    case Activity(eligible, active) => if active <= r.seats then r.(eligible := eligible, active := active) else r
  }

  /** Events carry the clock, which never goes back. */
  ghost function Step(r: Room, e: (nat, Event)): Room {
    Act(r.(now := Max(r.now, e.0)), e.1)
  }

  ghost function Run(r: Room, events: seq<(nat, Event)>): Room {
    if events == [] then r else Step(Run(r, events[..|events| - 1]), events[|events| - 1])
  }

  // ----- what every step keeps -----

  /** Nobody's presence is newer than a bound in seconds. */
  ghost predicate PresenceUpTo(r: Room, bound: nat) {
    forall p :: p in r.stamps ==> r.stamps[p] <= bound
  }

  /** A worker still at the room's revision saw it due, so it is due since. */
  ghost predicate WorkersDue(r: Room) {
    forall w :: w in r.workers ==>
      && r.workers[w] <= r.revision
      && (r.workers[w] == r.revision ==> r.turnRevision == r.revision && r.now - r.startedAt >= r.seconds * MICRO)
  }

  ghost predicate TimersSound(r: Room) {
    && PresenceUpTo(r, Stamp(r.now)) && r.updatedAt <= Stamp(r.now) && r.startedAt <= r.now
    && WorkersDue(r)
    && r.since <= 1
    && (r.since == 1 ==> PresenceUpTo(r, r.updatedAt) && PresenceUpTo(r, Stamp(r.startedAt)))
  }

  ghost predicate BudgetSound(r: Room) {
    && r.active <= r.seats && r.unattended <= UnattendedLimit(r.seats)
    && r.turnActions <= MAX_NPC_ACTIONS_PER_TURN
    && (r.unattended == UnattendedLimit(r.seats) ==> r.turnActions == 0)
  }

  lemma StampFacts(a: nat, b: nat)
    requires a <= b
    ensures Stamp(a) <= Stamp(b) && Stamp(a) * MICRO <= a < (Stamp(a) + 1) * MICRO
      && Stamp(Stamp(a) * MICRO) == Stamp(a)
  {
  }

  lemma TimeKeeps(r: Room, now: nat)
    requires TimersSound(r)
    ensures TimersSound(r.(now := Max(r.now, now)))
  {
    StampFacts(r.now, Max(r.now, now));
  }

  /** After a takeover nobody's lease outlives the new turn's timeout. */
  lemma NobodyOutlivesTheTurn(r: Room)
    requires TimersSound(r) && r.since == 1 && r.now - r.startedAt >= r.seconds * MICRO
    ensures !Live(r)
  {
    StampFacts(r.startedAt, r.now);
    forall p | p in r.stamps ensures r.stamps[p] * MICRO <= r.now - r.seconds * MICRO {
      assert r.stamps[p] <= Stamp(r.startedAt);
    }
  }

  lemma SecondTakeoverNeedsPresence(r: Room, w: nat, accepted: bool)
    requires TimersSound(r) && TakesOver(r, w, accepted)
    ensures r.since == 0
  {
    if r.since == 1 {
      NobodyOutlivesTheTurn(r);
    }
  }

  lemma MovedKeeps(r: Room, side: bool)
    requires TimersSound(r)
    ensures TimersSound(Moved(r, side))
    ensures !side ==> PresenceUpTo(Moved(r, side), Moved(r, side).updatedAt)
    ensures !side ==> PresenceUpTo(Moved(r, side), Stamp(Moved(r, side).startedAt))
  {
    StampFacts(r.now, r.now);
  }

  lemma TouchedKeeps(r: Room, player: string)
    requires TimersSound(r)
    ensures TimersSound(Touched(r, player))
  {
  }

  lemma TookOverKeeps(r: Room, w: nat, accepted: bool, completed: bool)
    requires TimersSound(r)
    ensures TimersSound(TookOver(r, w, accepted, completed))
  {
    var done := r.(workers := r.workers - {w});
    if TakesOver(r, w, accepted) {
      SecondTakeoverNeedsPresence(r, w, accepted);
      MovedKeeps(done, false);
    }
  }

  lemma ActKeepsTimers(r: Room, e: Event)
    requires TimersSound(r)
    ensures TimersSound(Act(r, e))
  {
    StampFacts(r.now, r.now);
    StampFacts(r.startedAt, r.now);
    match e
    case Takeover(w, accepted, completed) => TookOverKeeps(r, w, accepted, completed);
    case NpcMove(side, completed) =>
      if !BudgetExhausted(r) {
        MovedKeeps(r, side);
      }
    case ClientMove(player, side) =>
      TouchedKeeps(BudgetReset(r), player);
      MovedKeeps(Touched(BudgetReset(r), player), side);
    case Touch(player) => TouchedKeeps(r, player);
    case Reclaim(player) => TouchedKeeps(r, player);
    case Sync => StampFacts(r.updatedAt * MICRO, r.now);
    case Observe(w, humanTurn) =>
    case Forfeit(client) =>
    case RushExpiry =>
    case Visit(player) =>
    case Activity(eligible, active) =>
  }

  lemma ActKeepsBudget(r: Room, e: Event)
    requires BudgetSound(r)
    ensures BudgetSound(Act(r, e)) && Act(r, e).seats == r.seats
  {
  }

  /** Whatever clients, NPCs, forfeits, reaction windows, timer syncs and racing
      workers do: at most one takeover commits between two presences. */
  lemma {:induction false} OneTakeoverPerPresence(r: Room, events: seq<(nat, Event)>)
    requires TimersSound(r) && BudgetSound(r)
    ensures TimersSound(Run(r, events)) && BudgetSound(Run(r, events)) && Run(r, events).seats == r.seats
    ensures Run(r, events).since <= 1
  {
    if events != [] {
      var before, e := Run(r, events[..|events| - 1]), events[|events| - 1];
      OneTakeoverPerPresence(r, events[..|events| - 1]);
      TimeKeeps(before, e.0);
      ActKeepsTimers(before.(now := Max(before.now, e.0)), e.1);
      ActKeepsBudget(before.(now := Max(before.now, e.0)), e.1);
    }
  }

  // ----- nobody there -----

  /** Steps the server takes by itself. */
  predicate Automatic(e: Event) {
    !e.ClientMove? && !e.Touch? && !e.Reclaim? && !(e.Forfeit? && e.client)
  }

  /** NPC moves the fuse and a takeover may still add. */
  function Fuel(r: Room): int {
    (UnattendedLimit(r.seats) - r.unattended + 1 - r.since) * MAX_NPC_ACTIONS_PER_TURN - r.turnActions
  }

  /** Every NPC move burns the fuse, also when seats come and go meanwhile. */
  lemma FuseBurns(r: Room, side: bool, completed: bool)
    requires BudgetSound(r) && !BudgetExhausted(r)
    ensures Fuel(NpcMoved(r, side, completed)) < Fuel(r)
    ensures NpcMoved(r, side, completed).npcMoves == r.npcMoves + 1
  {
  }

  lemma AutomaticBurns(r: Room, e: Event)
    requires TimersSound(r) && BudgetSound(r) && Automatic(e)
    ensures Act(r, e).npcMoves + Fuel(Act(r, e)) <= r.npcMoves + Fuel(r)
    ensures Act(r, e).takeovers - Act(r, e).since == r.takeovers - r.since
  {
    match e
    case NpcMove(side, completed) =>
      if !BudgetExhausted(r) {
        FuseBurns(r, side, completed);
      }
    case _ =>
  }

  lemma FuelBounds(r: Room)
    requires TimersSound(r) && BudgetSound(r)
    ensures 0 <= Fuel(r) <= (UnattendedLimit(r.seats) + 1) * MAX_NPC_ACTIONS_PER_TURN
  {
    if r.unattended < UnattendedLimit(r.seats) {
      assert (UnattendedLimit(r.seats) - r.unattended + 1 - r.since) >= 1;
    }
  }

  lemma {:induction false} AutomaticRunBurns(r: Room, events: seq<(nat, Event)>)
    requires TimersSound(r) && BudgetSound(r)
    requires forall i :: 0 <= i < |events| ==> Automatic(events[i].1)
    ensures Run(r, events).npcMoves + Fuel(Run(r, events)) <= r.npcMoves + Fuel(r)
    ensures Run(r, events).takeovers - Run(r, events).since == r.takeovers - r.since
  {
    if events != [] {
      var front, e := events[..|events| - 1], events[|events| - 1];
      AutomaticRunBurns(r, front);
      OneTakeoverPerPresence(r, front);
      TimeKeeps(Run(r, front), e.0);
      AutomaticBurns(Run(r, front).(now := Max(Run(r, front).now, e.0)), e.1);
    }
  }

  /** Once clients fall silent a room stops by itself: at most one takeover, and
      at most 512 NPC moves for each of two rounds of every seat, and for that
      takeover. */
  lemma SilentRoomsStop(r: Room, events: seq<(nat, Event)>)
    requires TimersSound(r) && BudgetSound(r)
    requires forall i :: 0 <= i < |events| ==> Automatic(events[i].1)
    ensures var end := Run(r, events);
      && end.takeovers <= r.takeovers + 1
      && end.npcMoves <= r.npcMoves + (2 * r.seats + 1) * 512
  {
    AutomaticRunBurns(r, events);
    OneTakeoverPerPresence(r, events);
    FuelBounds(r);
    FuelBounds(Run(r, events));
  }

  lemma {:induction false} NpcMovesKeepSince(r: Room, events: seq<(nat, Event)>)
    requires forall i :: 0 <= i < |events| ==> events[i].1.NpcMove? || events[i].1.Activity?
    ensures Run(r, events).since == r.since
  {
    if events != [] {
      NpcMovesKeepSince(r, events[..|events| - 1]);
    }
  }

  /** With system NPC moves alone the fuse is shorter still. */
  lemma {:induction false} NpcRunsEnd(r: Room, events: seq<(nat, Event)>)
    requires TimersSound(r) && BudgetSound(r)
    requires forall i :: 0 <= i < |events| ==> events[i].1.NpcMove? || events[i].1.Activity?
    ensures Run(r, events).npcMoves <= r.npcMoves + 2 * r.seats * 512
  {
    AutomaticRunBurns(r, events);
    OneTakeoverPerPresence(r, events);
    NpcMovesKeepSince(r, events);
    FuelBounds(Run(r, events));
    var end := Run(r, events);
    assert Fuel(r) <= 2 * r.seats * 512 + (1 - r.since) * 512;
    assert Fuel(end) >= (1 - end.since) * 512;
  }

  /** A room as start() leaves it. */
  function Opened(seconds: nat, seats: nat, now: nat, eligible: set<string>, starter: string): Room {
    Room(seconds, seats, now, 1, Stamp(now), 1, Stamp(now) * MICRO, None,
         map[starter := Stamp(now)], eligible, seats, 0, 0, map[], 0, 0, 0)
  }

  lemma OpenedIsSound(seconds: nat, seats: nat, now: nat, eligible: set<string>, starter: string)
    ensures var r := Opened(seconds, seats, now, eligible, starter); TimersSound(r) && BudgetSound(r)
  {
    StampFacts(now, now);
  }

  /** From the start of a room on: one takeover between presences, and a room
      nobody ever touches again stops after a bounded number of NPC moves. */
  lemma FromTheStart(seconds: nat, seats: nat, now: nat, eligible: set<string>, starter: string, events: seq<(nat,
      Event)>)
    ensures var end := Run(Opened(seconds, seats, now, eligible, starter), events);
      && end.since <= 1
      && ((forall i :: 0 <= i < |events| ==> Automatic(events[i].1)) ==>
            end.takeovers <= 1 && end.npcMoves <= (2 * seats + 1) * 512)
  {
    var r := Opened(seconds, seats, now, eligible, starter);
    OpenedIsSound(seconds, seats, now, eligible, starter);
    OneTakeoverPerPresence(r, events);
    if forall i :: 0 <= i < |events| ==> Automatic(events[i].1) {
      SilentRoomsStop(r, events);
    }
  }

  // ----- what clients may rely on -----

  lemma {:induction false} TurnsAllowed(r: Room, events: seq<(nat, Event)>)
    requires r.unattended == 0 && r.turnActions == 0
    requires forall i :: 0 <= i < |events| ==> events[i].1 == NpcMove(false, true)
    ensures var end, played := Run(r, events), Min(|events|, 2 * r.active);
      && end.npcMoves == r.npcMoves + played && end.revision == r.revision + played
      && end.unattended == played && end.turnActions == 0 && end.active == r.active
  {
    if events != [] {
      TurnsAllowed(r, events[..|events| - 1]);
    }
  }

  lemma {:induction false} ActionsAllowed(r: Room, events: seq<(nat, Event)>)
    requires r.unattended == 0 && r.turnActions == 0 && r.active > 0
    requires forall i :: 0 <= i < |events| ==> events[i].1.NpcMove? && (events[i].1.side || !events[i].1.completed)
    ensures var end, played := Run(r, events), Min(|events|, 512);
      && end.npcMoves == r.npcMoves + played && end.revision == r.revision + played
      && end.unattended == 0 && end.turnActions == played && end.active == r.active
  {
    if events != [] {
      ActionsAllowed(r, events[..|events| - 1]);
    }
  }

  lemma {:induction false} NoSeatNoMove(r: Room, events: seq<(nat, Event)>)
    requires r.active == 0 && forall i :: 0 <= i < |events| ==> events[i].1.NpcMove?
    ensures Run(r, events).npcMoves == r.npcMoves && Run(r, events).active == 0
  {
    if events != [] {
      NoSeatNoMove(r, events[..|events| - 1]);
    }
  }

  /** A client's move or forfeit gives NPCs their full allowance back: two turns for
      every active seat, or 512 actions that complete no turn (side actions never do),
      and not one more. */
  lemma ClientsRefillTheFuse(r: Room, e: Event, events: seq<(nat, Event)>, turns: bool)
    requires e.ClientMove? || e == Forfeit(true)
    requires forall i :: 0 <= i < |events| ==> events[i].1.NpcMove?
    requires forall i :: 0 <= i < |events| ==>
      if turns then events[i].1 == NpcMove(false, true) else events[i].1.side || !events[i].1.completed
    ensures var after := Act(r, e);
      Run(after, events).npcMoves == after.npcMoves
        + Min(|events|, if turns then 2 * r.active else if r.active > 0 then 512 else 0)
  {
    var after := Act(r, e);
    if turns {
      TurnsAllowed(after, events);
    } else if r.active > 0 {
      ActionsAllowed(after, events);
    } else {
      NoSeatNoMove(after, events);
    }
  }

  lemma LiveMeans(r: Room)
    ensures Live(r) <==>
      && r.seconds > 0
      && exists p :: p in r.stamps && p in r.eligible && r.stamps[p] * 1_000_000 > r.now - r.seconds * 1_000_000
  {
  }

  lemma TakesOverMeans(r: Room, w: nat, accepted: bool)
    ensures TakesOver(r, w, accepted) <==>
      w in r.workers && r.workers[w] == r.revision && r.reclaim != Some(r.revision) && Live(r) && accepted
  {
  }

  /** What a worker needs to move for a person: seen at this revision with its timer
      running out and nobody having reclaimed the turn, a legal action, and somebody
      eligible whose stamp is still inside the lease when it commits. */
  lemma TakeoverExactly(r: Room, w: nat, at: nat, accepted: bool, completed: bool)
    requires w !in r.workers && at >= r.now
    ensures var seen := Act(r, Observe(w, true));
      var after := Act(seen.(now := at), Takeover(w, accepted, completed));
      var present := exists p ::
        p in r.stamps && p in r.eligible && r.stamps[p] * 1_000_000 > at - r.seconds * 1_000_000;
      var commits := accepted && present && r.reclaim != Some(r.revision) && r.turnRevision == r.revision
        && r.seconds > 0 && r.now - r.startedAt >= r.seconds * 1_000_000;
      && after.takeovers == r.takeovers + (if commits then 1 else 0)
      && after.revision == r.revision + (if commits then 1 else 0)
      && after.stamps == r.stamps && after.unattended == r.unattended
      && after.turnActions == (if commits && completed then 0 else r.turnActions)
      && (commits ==> after.turnRevision == after.revision && after.startedAt == at / 1_000_000 * 1_000_000)
  {
    hide TakesOver;
    var later := Act(r, Observe(w, true)).(now := at);
    LiveMeans(r);
    LiveMeans(later);
    TakesOverMeans(later, w, accepted);
    assert Live(later) ==> Live(r);
  }

  /** The timer never starts before some instant. */
  ghost predicate TimerSince(r: Room, bound: nat) {
    bound <= r.startedAt / MICRO && bound <= r.updatedAt && bound <= Stamp(r.now) && bound * MICRO <= r.startedAt
  }

  lemma TimerStays(r: Room, e: Event, bound: nat)
    requires TimersSound(r) && TimerSince(r, bound)
    ensures TimerSince(Act(r, e), bound)
  {
    StampFacts(r.now, r.now);
  }

  lemma TimePasses(r: Room, now: nat, bound: nat)
    requires TimerSince(r, bound) && r.now <= now
    ensures TimerSince(r.(now := now), bound)
  {
    StampFacts(r.now, now);
  }

  lemma SameTimeout(r: Room, e: Event)
    ensures Act(r, e).seconds == r.seconds
  {
  }

  lemma {:induction false} TimerSinceThen(r: Room, events: seq<(nat, Event)>, bound: nat)
    requires TimersSound(r) && BudgetSound(r) && TimerSince(r, bound)
    ensures TimerSince(Run(r, events), bound) && TimersSound(Run(r, events)) && Run(r, events).seconds == r.seconds
  {
    hide TimersSound, TimerSince, BudgetSound;
    OneTakeoverPerPresence(r, events);
    if events != [] {
      var before, e := Run(r, events[..|events| - 1]), events[|events| - 1];
      TimerSinceThen(r, events[..|events| - 1], bound);
      TimeKeeps(before, e.0);
      TimePasses(before, Max(before.now, e.0), bound);
      TimerStays(before.(now := Max(before.now, e.0)), e.1, bound);
      SameTimeout(before.(now := Max(before.now, e.0)), e.1);
    }
  }

  lemma MoveRestartsTimer(r: Room, player: string)
    requires TimersSound(r)
    ensures TimerSince(Act(r, ClientMove(player, false)), Stamp(r.now))
    ensures Act(r, ClientMove(player, false)).seconds == r.seconds
  {
    StampFacts(r.now, r.now);
  }

  lemma TakeoverIsDue(r: Room, e: Event)
    requires TimersSound(r) && Act(r, e).takeovers > r.takeovers
    ensures r.now - r.startedAt >= r.seconds * MICRO
  {
  }

  /** Everybody gets the whole timeout: whatever happens after a client's move, no
      takeover commits before the timeout has passed since, counted from the stored
      second of that move. */
  lemma NobodyIsHurried(r: Room, player: string, events: seq<(nat, Event)>, e: (nat, Event))
    requires TimersSound(r) && BudgetSound(r)
    ensures var before := Run(Act(r, ClientMove(player, false)), events);
      Step(before, e).takeovers > before.takeovers ==>
        Max(before.now, e.0) >= r.now / 1_000_000 * 1_000_000 + r.seconds * 1_000_000
  {
    hide TimersSound, BudgetSound, Moved, Touched;
    var moved := Act(r, ClientMove(player, false));
    ActKeepsTimers(r, ClientMove(player, false));
    ActKeepsBudget(r, ClientMove(player, false));
    MoveRestartsTimer(r, player);
    TimerSinceThen(moved, events, Stamp(r.now));
    var before := Run(moved, events);
    TimeKeeps(before, e.0);
    if Step(before, e).takeovers > before.takeovers {
      TakeoverIsDue(before.(now := Max(before.now, e.0)), e.1);
    }
  }

  /** Steps that leave the turn with whoever has it. */
  predicate KeepsTurn(e: Event) {
    e.Observe? || e.Takeover? || e.Sync? || e.RushExpiry? || e.Touch? || e.Visit? || e.Activity? || e.Reclaim?
  }

  /** A reclaimed turn whose timer is in step is never taken over, until somebody moves. */
  lemma {:induction false} ReclaimProtects(r: Room, player: string, events: seq<(nat, Event)>)
    requires r.turnRevision == r.revision
    requires forall i :: 0 <= i < |events| ==> KeepsTurn(events[i].1)
    ensures var end := Run(Act(r, Reclaim(player)), events);
      end.takeovers == r.takeovers && end.reclaim == Some(end.revision) && end.turnRevision == end.revision
  {
    hide Live;
    if events != [] {
      ReclaimProtects(r, player, events[..|events| - 1]);
    }
  }

  /** Protection needs the timer in step: after a forfeit, and before the scheduler has
      caught up with it, a reclaim is forgotten by the next synchronisation. */
  lemma ReclaimSurvivesSync(r: Room, player: string)
    ensures Act(Act(r, Reclaim(player)), Sync).reclaim == Some(r.revision) <==> r.turnRevision == r.revision
  {
  }

  lemma RunTwo(r: Room, a: (nat, Event), b: (nat, Event))
    ensures Run(r, [a, b]) == Step(Step(r, a), b)
  {
    hide Act;
    assert [a][..0] == [] && Run(r, [a]) == Step(r, a);
    assert [a, b][..1] == [a];
  }

  lemma RunThree(r: Room, a: (nat, Event), b: (nat, Event), c: (nat, Event))
    ensures Run(r, [a, b, c]) == Step(Step(Step(r, a), b), c)
  {
    hide Act;
    assert [a, b, c][..2] == [a, b];
    RunTwo(r, a, b);
  }

  /** A room of two whose reclaim was forgotten at second 2. */
  function Forgotten(): Room {
    Room(90, 2, 2_000_000, 2, 0, 2, 0, None, map["a" := 1], {"a"}, 2, 0, 0, map[], 0, 0, 0)
  }

  lemma ForfeitReclaimSync()
    ensures var forfeited := Step(Opened(90, 2, 0, {"a"}, "a"), (0, Forfeit(false)));
      var reclaimed := Step(forfeited, (1_000_000, Reclaim("a")));
      reclaimed.reclaim == Some(2) && reclaimed.revision == 2 && Step(reclaimed, (2_000_000, Sync)) == Forgotten()
  {
  }

  lemma ForgottenIsTaken()
    ensures var observed := Step(Forgotten(), (90_000_000, Observe(7, true)));
      var end := Step(observed, (90_000_000, Takeover(7, true, true)));
      end.takeovers == 1 && end.revision == 3
  {
    hide Live, TakesOver;
    var late := Forgotten().(now := 90_000_000);
    LiveMeans(late);
    assert "a" in late.stamps && "a" in late.eligible;
    var observed := Act(late, Observe(7, true));
    assert observed == late.(workers := map[7 := 2]);
    LiveMeans(observed);
    TakesOverMeans(observed, 7, true);
  }

  /** So the turn just reclaimed can be taken over: a forfeit at second 0, a reclaim at
      second 1, the synchronisation at second 2, and a takeover at second 90. */
  lemma ReclaimCanBeForgotten()
    ensures var r := Opened(90, 2, 0, {"a"}, "a");
      var reclaimed := Run(r, [(0, Forfeit(false)), (1_000_000, Reclaim("a"))]);
      var late := 90_000_000;
      var end := Run(reclaimed, [(2_000_000, Sync), (late, Observe(7, true)), (late, Takeover(7, true, true))]);
      && reclaimed.reclaim == Some(reclaimed.revision)
      && end.takeovers == 1 && end.revision == reclaimed.revision + 1
  {
    hide Step, Opened, Forgotten, Run;
    var r := Opened(90, 2, 0, {"a"}, "a");
    var e0, e1 := (0, Forfeit(false)), (1_000_000, Reclaim("a"));
    RunTwo(r, e0, e1);
    RunThree(Step(Step(r, e0), e1), (2_000_000, Sync), (90_000_000, Observe(7, true)),
      (90_000_000, Takeover(7, true, true)));
    ForfeitReclaimSync();
    ForgottenIsTaken();
  }

  /** Side actions leave the turn holder's timer and reclaim alone, and keep the timer
      in step with the room. */
  lemma {:induction false} SideActionsKeepTimer(r: Room, events: seq<(nat, Event)>)
    requires r.turnRevision == r.revision
    requires forall i :: 0 <= i < |events| ==>
      (events[i].1.ClientMove? && events[i].1.side) || (events[i].1.NpcMove? && events[i].1.side)
    ensures var end := Run(r, events);
      end.startedAt == r.startedAt && end.reclaim == r.reclaim && end.turnRevision == end.revision
  {
    if events != [] {
      SideActionsKeepTimer(r, events[..|events| - 1]);
    }
  }

  /** A touch, move or reclaim by an eligible person with a cursor keeps the room alive
      for its timeout, counted from the stored second; nothing the server does by itself
      moves a stamp. */
  lemma {:induction false} TouchKeepsAlive(r: Room, player: string, e: Event, events: seq<(nat, Event)>)
    requires player in r.stamps && player in r.eligible && r.seconds > 0
    requires e == Touch(player) || e == Reclaim(player) || (e.ClientMove? && e.player == player)
    requires forall i :: 0 <= i < |events| ==> Automatic(events[i].1) && !events[i].1.Activity?
    ensures var end := Run(Act(r, e), events);
      && player in end.stamps && end.stamps[player] == r.now / 1_000_000
      && player in end.eligible && end.seconds == r.seconds
      && (end.now < (r.now / 1_000_000 + r.seconds) * 1_000_000 ==> Live(end))
  {
    hide Live;
    if events != [] {
      TouchKeepsAlive(r, player, e, events[..|events| - 1]);
    }
    LiveMeans(Run(Act(r, e), events));
  }
}

/** The room's tables, updated step by step. */
module InviteRoom {
  import opened Common
  import opened Unattended

  /** Who moves: a person (or their agent), a system NPC, or the timeout worker. */
  datatype Mover = Client(player: string) | Npc | Timeout(worker: nat)

  datatype Verdict = Done | StaleRevision | NobodyThere | Paused | Rejected

  /** What a move does to the fuse, by who made it. */
  function Accounted(r: Room, mover: Mover, side: bool, completed: bool): Room {
    var done := completed && !side;
    match mover
    case Client(_) => BudgetReset(r)
    case Npc =>
      r.(unattended := r.unattended + (if done then 1 else 0),
         turnActions := if done then 0 else r.turnActions + 1, npcMoves := r.npcMoves + 1)
    case Timeout(_) =>
      r.(turnActions := if done then 0 else r.turnActions, takeovers := r.takeovers + 1, since := r.since + 1)
  }

  /** All writes of a move that passed every check. */
  function Committed(r: Room, mover: Mover, side: bool, completed: bool): Room {
    var accounted := Accounted(r, mover, side, completed);
    Moved(if mover.Client? then Touched(accounted, mover.player) else accounted, side)
  }

  /** The writes commute with each other: order inside the transaction is free. */
  lemma CommitIsAct(r: Room, mover: Mover, side: bool, completed: bool)
    requires mover.Npc? ==> !BudgetExhausted(r)
    requires mover.Timeout? ==> !side
    ensures var c := Committed(r, mover, side, completed);
      && (mover.Client? ==> c == Act(r, Event.ClientMove(mover.player, side)))
      && (mover.Npc? ==> c == Act(r, Event.NpcMove(side, completed)))
      && (mover.Timeout? ==> forall b: Room, w: nat, accepted: bool ::
            TakesOver(b, w, accepted) && r == b.(workers := b.workers - {w}) ==>
              c == TookOver(b, w, accepted, completed))
  {
  }

  lemma Judgement(r: Room, mover: Mover)
    ensures mover.Timeout? ==> forall accepted: bool, completed: bool ::
      Act(r, Event.Takeover(mover.worker, accepted, completed)) == TookOver(r, mover.worker, accepted, completed)
  {
  }

  lemma StaysSound(r: Room, e: Event)
    requires TimersSound(r) && BudgetSound(r)
    ensures TimersSound(Act(r, e)) && BudgetSound(Act(r, e))
  {
    hide TimersSound, BudgetSound, Act;
    ActKeepsTimers(r, e);
    ActKeepsBudget(r, e);
  }

  lemma SameLive(a: Room, b: Room)
    requires b == a.(workers := b.workers)
    ensures Live(a) == Live(b)
  {
  }

  class InviteRoom {
    const seconds: nat
    const seats: nat
    var now: nat
    var revision: nat
    var updatedAt: nat
    var turnRevision: nat
    var startedAt: nat
    var reclaim: Option<nat>
    var stamps: map<string, nat>
    var eligible: set<string>
    var active: nat
    var unattended: nat
    var turnActions: nat
    var workers: map<nat, nat>
    ghost var takeovers: nat
    ghost var npcMoves: nat
    ghost var since: nat

    ghost function View(): Room reads this {
      Room(seconds, seats, now, revision, updatedAt, turnRevision, startedAt, reclaim, stamps, eligible, active,
           unattended, turnActions, workers, takeovers, npcMoves, since)
    }

    /** What OneTakeoverPerPresence and SilentRoomsStop ask of a room. */
    ghost predicate Valid() reads this {
      TimersSound(View()) && BudgetSound(View())
    }

    constructor (seconds: nat, seats: nat, now: nat, eligible: set<string>, starter: string)
      ensures Valid() && View() == Opened(seconds, seats, now, eligible, starter)
    {
      OpenedIsSound(seconds, seats, now, eligible, starter);
      this.seconds, this.seats, this.now := seconds, seats, now;
      revision, updatedAt, turnRevision, startedAt, reclaim := 1, Stamp(now), 1, Stamp(now) * MICRO, None;
      stamps, this.eligible, active := map[starter := Stamp(now)], eligible, seats;
      unattended, turnActions, workers := 0, 0, map[];
      takeovers, npcMoves, since := 0, 0, 0;
    }

    /** The clock of the next transaction. */
    method Tick(at: nat)
      requires Valid()
      modifies this`now
      ensures Valid() && View() == old(View()).(now := Max(old(now), at))
    {
      hide TimersSound;
      TimeKeeps(View(), at);
      now := Max(now, at);
    }

    /** has_live_room_participant: some eligible cursor inside its lease. */
    method HasLiveParticipant() returns (live: bool)
      ensures live == Live(View())
    {
      var cutoff := now as int - seconds * MICRO;
      var rows := stamps.Keys * eligible;
      live := false;
      while rows != {} && !live
        invariant rows <= stamps.Keys * eligible
        invariant live ==> exists p :: p in stamps && p in eligible && stamps[p] * MICRO > cutoff
        invariant !live ==> forall p :: p in stamps && p in eligible && p !in rows ==> stamps[p] * MICRO <= cutoff
        decreases rows
      {
        var p :| p in rows;
        rows := rows - {p};
        live := stamps[p] * MICRO > cutoff;
      }
      live := seconds > 0 && live;
    }

    method TouchPresence(player: string)
      modifies this`stamps, this`since
      ensures View() == Touched(old(View()), player) && revision == old(revision)
      ensures player in old(stamps) && player in eligible ==> stamps == old(stamps)[player := now / 1_000_000]
      ensures player !in old(stamps) || player !in eligible ==> stamps == old(stamps)
    {
      if player in stamps && player in eligible {
        stamps := stamps[player := Stamp(now)];
        since := 0;
      }
    }

    /** touch_room_presence: an authenticated state or wait call. */
    method Touch(player: string)
      requires Valid()
      modifies this`stamps, this`since
      ensures Valid() && View() == Act(old(View()), Event.Touch(player))
    {
      hide TimersSound, BudgetSound, Touched;
      StaysSound(View(), Event.Touch(player));
      TouchPresence(player);
    }

    method ReclaimTurn(player: string)
      requires Valid()
      modifies this
      ensures Valid() && View() == Act(old(View()), Event.Reclaim(player))
      ensures reclaim == Some(revision) && revision == old(revision) && startedAt == old(startedAt)
    {
      hide TimersSound, BudgetSound;
      StaysSound(View(), Event.Reclaim(player));
      TouchPresence(player);
      reclaim := Some(revision);
    }

    /** The scheduler's timer synchronisation. */
    method SyncTimer()
      requires Valid()
      modifies this
      ensures Valid() && View() == Act(old(View()), Event.Sync)
      ensures turnRevision == revision == old(revision) && updatedAt == old(updatedAt)
      ensures old(turnRevision) != revision ==> startedAt == updatedAt * 1_000_000 && reclaim == None
      ensures old(turnRevision) == revision ==> startedAt == old(startedAt) && reclaim == old(reclaim)
    {
      hide TimersSound, BudgetSound;
      StaysSound(View(), Event.Sync);
      if turnRevision != revision {
        startedAt, turnRevision, reclaim := updatedAt * MICRO, revision, None;
      }
    }

    /** The reaction window closed: a revision of its own, the turn's timer starts
        now, and a reclaim carries over. */
    method ExpireWindow()
      requires Valid()
      modifies this
      ensures Valid() && View() == Act(old(View()), Event.RushExpiry)
      ensures turnRevision == revision == old(revision) + 1 && startedAt == now && updatedAt == old(updatedAt)
      ensures stamps == old(stamps) && (reclaim == Some(revision) <== old(reclaim) == Some(old(revision)))
    {
      hide TimersSound, BudgetSound;
      StaysSound(View(), Event.RushExpiry);
      if reclaim == Some(revision) {
        reclaim := Some(revision + 1);
      }
      revision := revision + 1;
      turnRevision, startedAt := revision, now;
    }

    /** A participant gives up its seat; only a person's forfeit resets the fuse. */
    method Forfeit(client: bool)
      requires Valid()
      modifies this
      ensures Valid() && View() == Act(old(View()), Event.Forfeit(client))
      ensures revision == old(revision) + 1 && updatedAt == now / 1_000_000
      ensures turnRevision == old(turnRevision) && startedAt == old(startedAt) && stamps == old(stamps)
      ensures client ==> unattended == turnActions == 0
      ensures !client ==> unattended == old(unattended) && turnActions == old(turnActions)
    {
      hide TimersSound, BudgetSound;
      StaysSound(View(), Event.Forfeit(client));
      if client {
        unattended, turnActions := 0, 0;
      }
      revision, updatedAt := revision + 1, Stamp(now);
    }

    /** run_timeout_turn up to the decision: remember the revision seen due. */
    method ObserveTimeout(w: nat, humanTurn: bool) returns (due: bool)
      requires Valid()
      modifies this`workers
      ensures Valid()
      ensures due == (humanTurn && IsDue(old(View())))
      ensures due ==>
        turnRevision == revision && reclaim != Some(revision) && now as int - startedAt >= seconds * 1_000_000
      ensures View() == Act(old(View()), Event.Observe(w, humanTurn))
    {
      hide TimersSound, BudgetSound;
      StaysSound(View(), Event.Observe(w, humanTurn));
      if reclaim == Some(revision) || turnRevision != revision || !humanTurn {
        return false;
      }
      var live := HasLiveParticipant();
      due := seconds > 0 && now as int - startedAt >= seconds * MICRO && live;
      if due {
        workers := workers[w := revision];
      }
    }

    /** New revision and room time; the turn's timer restarts unless the move was
        a side action. */
    method NextRevision(side: bool)
      modifies this
      ensures View() == Moved(old(View()), side) && revision == old(revision) + 1
    {
      revision, updatedAt := revision + 1, Stamp(now);
      if side {
        turnRevision := revision;
      } else {
        turnRevision, startedAt, reclaim := revision, Stamp(now) * MICRO, None;
      }
    }

    /** Budget accounting commits with the move. */
    method Account(mover: Mover, side: bool, completed: bool)
      modifies this`unattended, this`turnActions, this`takeovers, this`npcMoves, this`since
      ensures View() == Accounted(old(View()), mover, side, completed)
    {
      var done := completed && !side;
      match mover
      case Npc =>
        unattended := unattended + if done then 1 else 0;
        turnActions := if done then 0 else turnActions + 1;
        npcMoves := npcMoves + 1;
      case Client(_) => unattended, turnActions := 0, 0;
      case Timeout(_) =>
        if done {
          turnActions := 0;
        }
        takeovers, since := takeovers + 1, since + 1;
    }

    /** The writes of a move that passed every check. */
    method Commit(mover: Mover, side: bool, completed: bool)
      modifies this
      ensures View() == Committed(old(View()), mover, side, completed)
      ensures revision == old(revision) + 1
    {
      hide Accounted, Touched, Moved;
      Account(mover, side, completed);
      if mover.Client? {
        TouchPresence(mover.player);
      }
      NextRevision(side);
    }

    /** The revision, budget, presence and timer part of play_move.  `expected`
        is the revision the caller acts on, `accepted` the game's judgement. */
    method PlayMove(mover: Mover, expected: Option<nat>, side: bool, completed: bool, accepted: bool)
      returns (r: Verdict)
      requires Valid()
      requires mover.Timeout? ==> !side && mover.worker in workers && expected == Some(workers[mover.worker])
      modifies this
      ensures Valid()
      ensures mover.Timeout? ==> View() == Act(old(View()), Event.Takeover(mover.worker, accepted, completed))
      ensures mover.Timeout? ==> (r == Done <==> TakesOver(old(View()), mover.worker, accepted))
      ensures !mover.Timeout? && r != Done ==> View() == old(View())
      ensures r == Done && mover.Client? ==> View() == Act(old(View()), Event.ClientMove(mover.player, side))
      ensures r == Done && mover.Npc? ==>
        && old(unattended) < 2 * old(active) && old(turnActions) < 512
        && View() == Act(old(View()), Event.NpcMove(side, completed))
      ensures expected.Some? && expected.value != old(revision) ==> r == StaleRevision
      ensures !mover.Timeout? ==>
        (r == Done <==>
          && accepted && (expected.Some? ==> expected.value == old(revision))
          && (mover.Npc? ==> old(unattended) < 2 * old(active) && old(turnActions) < 512))
      ensures r == Done ==> revision == old(revision) + 1
    {
      hide Moved, Touched, Act, Accounted, Committed, Live, TimersSound, BudgetSound;
      ghost var was := View();
      match mover {
        case Timeout(w) => StaysSound(was, Event.Takeover(w, accepted, completed));
        case Npc => StaysSound(was, Event.NpcMove(side, completed));
        case Client(player) => StaysSound(was, Event.ClientMove(player, side));
      }
      Judgement(was, mover);
      if mover.Timeout? {
        workers := workers - {mover.worker};
      }
      if expected.Some? && expected.value != revision {
        return StaleRevision;
      }
      if mover.Timeout? {
        var live := HasLiveParticipant();
        SameLive(was, View());
        if !live || reclaim == Some(revision) {
          return NobodyThere;
        }
      }
      if mover.Npc? && (unattended >= NPC_UNATTENDED_ROUNDS * active || turnActions >= MAX_NPC_ACTIONS_PER_TURN) {
        return Paused;
      }
      if !accepted {
        return Rejected;
      }
      CommitIsAct(View(), mover, side, completed);
      Commit(mover, side, completed);
      r := Done;
    }
  }
}
