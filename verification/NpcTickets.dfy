/** The room as the NPC tables see it. */
module NpcTurns {
  datatype Room = Room(id: string, playing: bool, revision: nat, current: string, npcs: set<string>)
}

/** Decision tickets of one NPC turn under concurrent workers
    (app/npc_runtime.py, app/npc_controller.py). */
module NpcTickets {
  import opened Common
  const DECISION_LEASE := 130

  /** An action in canonical JSON. */
  type Action = string

  datatype Row = Absent | Reserved(at: int) | Failed | Completed(action: Action)

  /** What reserve_npc_decision hands out, beside the row it left. */
  datatype Ticket = Ticket(created: bool, stale: bool)

  predicate Stale(row: Row, now: int) {
    row.Reserved? && now - row.at >= DECISION_LEASE
  }

  function AfterReserve(row: Row, now: int): Row {
    if row.Absent? || row.Failed? || Stale(row, now) then Reserved(now) else row
  }

  function TicketFor(row: Row, now: int): Ticket {
    Ticket(row.Absent? || row.Failed? || Stale(row, now), Stale(row, now))
  }

  /** The row after a completion attempt; only a reservation can be completed. */
  function AfterComplete(row: Row, choice: Action): Row {
    if row.Reserved? then Completed(choice) else row
  }

  function AfterFail(row: Row): Row {
    if row.Reserved? then Failed else row
  }

  // ----- workers racing on one room, revision and NPC -----

  /** A worker decides (with or without asking a provider), holds a recorded
      action to play, or found its completion beaten and must read the winner. */
  datatype Phase = Idle | Deciding(consult: bool) | Ready(action: Action) | Beaten

  datatype State = State(row: Row, revision: nat, phases: map<nat, Phase>, commits: seq<Action>, consults: nat,
    fails: nat)

  datatype Event =
    | Reserve(w: nat, now: int)
    | Complete(w: nat, choice: Action, offered: set<Action>)
    | Fail(w: nat)
    | Play(w: nat, accepted: bool)
    | Crash(w: nat)
    | OtherCommit

  function PhaseOf(s: State, w: nat): Phase {
    if w in s.phases then s.phases[w] else Idle
  }

  function At(s: State, w: nat, phase: Phase): State {
    s.(phases := s.phases[w := phase])
  }

  /** reserve_npc_decision as run_current_npc_turn uses it, for a fresh worker
      and for one whose completion came second. */
  function ReserveStep(rev: nat, s: State, w: nat, now: int): State {
    if s.revision != rev then At(s, w, Idle)
    else
      var ticket := TicketFor(s.row, now);
      var after := s.(row := AfterReserve(s.row, now));
      if s.row.Completed? then At(after, w, Ready(s.row.action))
      else if !ticket.created || PhaseOf(s, w).Beaten? then At(after, w, Idle)
      else if ticket.stale then At(after, w, Deciding(false))
      else At(after.(consults := s.consults + 1), w, Deciding(true))
  }

  function CompleteStep(s: State, w: nat, choice: Action, offered: set<Action>): State {
    if choice !in offered then At(s, w, Idle)
    else
      At(s.(row := AfterComplete(s.row, choice)), w,
         match s.row
         case Completed(_) => Beaten
         case Reserved(_) => Ready(choice)
         case _ => Idle)
  }

  /** play_move with expected_revision: it commits only at that revision. */
  function PlayStep(rev: nat, s: State, w: nat, action: Action, accepted: bool): State {
    var idle := At(s, w, Idle);
    if s.revision == rev && accepted then idle.(revision := s.revision + 1, commits := s.commits + [action])
    else idle
  }

  function Step(rev: nat, s: State, e: Event): State {
    match e
    case Reserve(w, now) => if PhaseOf(s, w) in {Idle, Beaten} then ReserveStep(rev, s, w, now) else s
    case Complete(w, choice, offered) => if PhaseOf(s, w).Deciding? then CompleteStep(s, w, choice, offered) else s
    case Fail(w) =>
      if PhaseOf(s, w).Deciding? then
        At(s.(row := AfterFail(s.row), fails := s.fails + if s.row.Reserved? then 1 else 0), w, Idle)
      else s
    case Play(w, accepted) => if PhaseOf(s, w).Ready? then PlayStep(rev, s, w, PhaseOf(s, w).action, accepted) else s
    case Crash(w) => At(s, w, Idle)
    case OtherCommit => s.(revision := s.revision + 1)
  }

  function Run(rev: nat, s: State, events: seq<Event>): State {
    if events == [] then s else Step(rev, Run(rev, s, events[..|events| - 1]), events[|events| - 1])
  }

  function Start(rev: nat): State {
    State(Absent, rev, map[], [], 0, 0)
  }

  /** Completions only offer actions the rule engine calls legal. */
  ghost predicate Honest(legal: set<Action>, events: seq<Event>) {
    forall e :: e in events && e.Complete? ==> e.offered <= legal
  }

  ghost predicate Consistent(rev: nat, legal: set<Action>, s: State) {
    && s.revision >= rev
    && (s.row.Completed? ==> s.row.action in legal)
    && (forall w :: w in s.phases ==>
          match s.phases[w]
          case Ready(action) => s.row == Completed(action)
          case Beaten => s.row.Completed?
          case _ => true)
    && (s.commits != [] ==> s.revision > rev && s.row == Completed(s.commits[0]) && |s.commits| == 1)
    && s.consults + (if s.row.Failed? then 1 else 0) == s.fails + (if s.row.Absent? then 0 else 1)
  }

  lemma StepKeeps(rev: nat, legal: set<Action>, s: State, e: Event)
    requires Consistent(rev, legal, s) && Honest(legal, [e])
    ensures Consistent(rev, legal, Step(rev, s, e))
    ensures s.row.Completed? ==> Step(rev, s, e).row == s.row
    ensures s.commits <= Step(rev, s, e).commits
  {
    assert e in [e];
  }

  /** Whatever interleaving of reservations, recoveries, failures, completions,
      crashes and plays: at most one action commits at the revision, it is the
      stored one and it is legal; and the provider is asked at most once more
      than a decision failed. */
  lemma {:induction false} OneLegalDecision(rev: nat, legal: set<Action>, events: seq<Event>)
    requires Honest(legal, events)
    ensures var s := Run(rev, Start(rev), events);
      && Consistent(rev, legal, s)
      && |s.commits| <= 1
      && (forall a :: a in s.commits ==> s.row == Completed(a) && a in legal)
      && s.consults <= 1 + s.fails
  {
    if events != [] {
      var front, last := events[..|events| - 1], events[|events| - 1];
      OneLegalDecision(rev, legal, front);
      StepKeeps(rev, legal, Run(rev, Start(rev), front), last);
    }
  }

  /** A completed decision is never altered again. */
  lemma {:induction false} DecisionIsFinal(rev: nat, legal: set<Action>, events: seq<Event>, i: nat)
    requires Honest(legal, events) && i <= |events|
    requires Run(rev, Start(rev), events[..i]).row.Completed?
    ensures Run(rev, Start(rev), events).row == Run(rev, Start(rev), events[..i]).row
    decreases |events| - i
  {
    if i == |events| {
      assert events[..i] == events;
    } else {
      var s := Run(rev, Start(rev), events[..i]);
      OneLegalDecision(rev, legal, events[..i]);
      assert events[..i + 1][..i] == events[..i];
      StepKeeps(rev, legal, s, events[i]);
      DecisionIsFinal(rev, legal, events, i + 1);
    }
  }

  /** A worker whose completion came second changes nothing, reads the winner's action
      at the revision, and plays that. */
  lemma BeatenWorkerPlaysTheWinner(rev: nat, events: seq<Event>, w: nat, choice: Action, offered: set<Action>, now: int)
    requires var s := Run(rev, Start(rev), events); PhaseOf(s, w).Deciding? && s.row.Completed? && s.revision == rev
    requires choice in offered
    ensures var s := Run(rev, Start(rev), events);
      var beaten := Step(rev, s, Event.Complete(w, choice, offered));
      var read := Step(rev, beaten, Event.Reserve(w, now));
      && beaten.row == read.row == s.row && read.consults == s.consults
      && PhaseOf(read, w) == Ready(s.row.action)
      && Step(rev, read, Play(w, true)).commits == s.commits + [s.row.action]
  {
  }

  // ----- who may take over a reservation, and when -----

  /** The i-th event is a reservation that puts an idle worker to work. */
  ghost predicate PutsToWork(rev: nat, events: seq<Event>, i: nat) {
    && i < |events| && events[i].Reserve?
    && var before, after := Run(rev, Start(rev), events[..i]), Run(rev, Start(rev), events[..i + 1]);
       !PhaseOf(before, events[i].w).Deciding? && PhaseOf(after, events[i].w).Deciding?
  }

  lemma RunOneMore(rev: nat, s: State, events: seq<Event>, i: nat)
    requires i < |events|
    ensures Run(rev, s, events[..i + 1]) == Step(rev, Run(rev, s, events[..i]), events[i])
  {
    assert events[..i + 1][..i] == events[..i];
  }

  /** While nothing fails, a reservation made at some instant is only ever renewed
      later, or completed. */
  lemma {:induction false} NoEarlierReservation(rev: nat, events: seq<Event>, i: nat, n: nat)
    requires PutsToWork(rev, events, i) && i < n <= |events|
    requires forall k :: i < k < n ==> !events[k].Fail?
    ensures var row := Run(rev, Start(rev), events[..n]).row;
      row.Completed? || (row.Reserved? && row.at >= events[i].now)
    decreases n
  {
    hide Run;
    RunOneMore(rev, Start(rev), events, n - 1);
    if n > i + 1 {
      NoEarlierReservation(rev, events, i, n - 1);
    }
  }

  /** Two workers are put to work at one decision only 130 seconds apart, unless the
      first attempt failed in between. */
  lemma OneWorkerPerLease(rev: nat, events: seq<Event>, i: nat, j: nat)
    requires i < j && PutsToWork(rev, events, i) && PutsToWork(rev, events, j)
    requires forall k :: i < k < j ==> !events[k].Fail?
    ensures events[j].now - events[i].now >= 130
  {
    hide Run;
    NoEarlierReservation(rev, events, i, j);
    RunOneMore(rev, Start(rev), events, j);
  }

  lemma {:induction false} StaysReserved(rev: nat, events: seq<Event>, i: nat, n: nat)
    requires PutsToWork(rev, events, i) && i < n <= |events|
    requires forall k :: i < k < n ==> !events[k].Fail? && !events[k].Complete?
    requires forall k :: i < k < n && events[k].Reserve? ==> events[k].now - events[i].now < 130
    ensures Run(rev, Start(rev), events[..n]).row == Reserved(events[i].now)
    decreases n
  {
    hide Run;
    RunOneMore(rev, Start(rev), events, n - 1);
    if n > i + 1 {
      StaysReserved(rev, events, i, n - 1);
    }
  }

  /** Whatever became of the worker: a reservation nobody completed or failed is
      taken over by the first worker that comes 130 seconds later, which then decides
      without asking a provider; one that comes earlier is sent away. */
  lemma CrashedWorkIsRecovered(rev: nat, events: seq<Event>, i: nat, w: nat, now: int)
    requires PutsToWork(rev, events, i)
    requires forall k :: i < k < |events| ==> !events[k].Fail? && !events[k].Complete?
    requires forall k :: i < k < |events| && events[k].Reserve? ==> events[k].now - events[i].now < 130
    requires var s := Run(rev, Start(rev), events); PhaseOf(s, w).Idle? && s.revision == rev
    ensures var after := Step(rev, Run(rev, Start(rev), events), Event.Reserve(w, now));
      && PhaseOf(after, w) == (if now - events[i].now >= 130 then Deciding(false) else Idle)
      && after.row == Reserved(if now - events[i].now >= 130 then now else events[i].now)
      && after.consults == Run(rev, Start(rev), events).consults
  {
    hide Run;
    StaysReserved(rev, events, i, |events|);
    assert events[..|events|] == events;
  }

  lemma {:induction false} AbsentUntilReserved(rev: nat, events: seq<Event>)
    requires forall e :: e in events ==> !e.Reserve?
    ensures var s := Run(rev, Start(rev), events); s.row == Absent && forall w :: PhaseOf(s, w).Idle?
  {
    if events != [] {
      var front := events[..|events| - 1];
      assert forall e :: e in front ==> e in events;
      AbsentUntilReserved(rev, front);
      var before, e := Run(rev, Start(rev), front), events[|events| - 1];
      assert e in events;
      assert !e.OtherCommit? ==> PhaseOf(before, e.w).Idle?;
      forall w ensures PhaseOf(Step(rev, before, e), w).Idle? {
        assert PhaseOf(before, w).Idle?;
      }
    }
  }

  /** The first attempt asks its provider, and so does the next one after a failure. */
  lemma FailureIsRetried(rev: nat, events: seq<Event>, w: nat, now: int)
    requires var s := Run(rev, Start(rev), events); PhaseOf(s, w).Idle? && s.revision == rev
    requires (forall e :: e in events ==> !e.Reserve?) || (events != [] && events[|events| - 1].Fail?
      && Run(rev, Start(rev), events).fails > Run(rev, Start(rev), events[..|events| - 1]).fails)
    ensures var s := Run(rev, Start(rev), events); var after := Step(rev, s, Event.Reserve(w, now));
      PhaseOf(after, w) == Deciding(true) && after.row == Reserved(now) && after.consults == s.consults + 1
  {
    if forall e :: e in events ==> !e.Reserve? {
      AbsentUntilReserved(rev, events);
    }
  }

  /** A worker that decided in time sees its action played at the revision. */
  lemma DecisionIsPlayed(rev: nat, events: seq<Event>, w: nat, choice: Action, offered: set<Action>)
    requires var s := Run(rev, Start(rev), events); PhaseOf(s, w).Deciding? && s.row.Reserved? && s.revision == rev
    requires choice in offered
    ensures var s := Run(rev, Start(rev), events);
      var after := Step(rev, Step(rev, s, Event.Complete(w, choice, offered)), Play(w, true));
      after.commits == s.commits + [choice] && after.row == Completed(choice) && after.revision == rev + 1
  {
  }
}

/** The npc_decisions table and its guarded updates. */
module NpcDecisions {
  import opened Common
  import opened NpcTickets
  import opened NpcTurns

  datatype Key = Key(room: string, revision: nat, npc: string)

  datatype DecisionError = NotPlaying | StaleRevision | NotCurrent | NotAnNpc | Illegal | NoReservation | AlreadyFailed

  datatype Result<+T> = Ok(value: T) | Err(error: DecisionError)

  function RowOf(rows: map<Key, Row>, key: Key): Row {
    if key in rows then rows[key] else Absent
  }

  class Decisions {
    var rows: map<Key, Row>

    ghost predicate Valid() reads this {
      forall k :: k in rows ==> !rows[k].Absent?
    }

    constructor ()
      ensures Valid() && rows == map[]
    {
      rows := map[];
    }

    method Reserve(room: Room, revision: nat, npc: string, now: int) returns (r: Result<(Ticket, Row)>)
      requires Valid()
      modifies this
      ensures Valid()
      ensures r.Ok? <==> room.playing && room.revision == revision && room.current == npc && npc in room.npcs
      ensures r.Err? ==> rows == old(rows)
      ensures r.Ok? ==>
        var key := Key(room.id, revision, npc);
        && rows == old(rows)[key := AfterReserve(RowOf(old(rows), key), now)]
        && r.value == (TicketFor(RowOf(old(rows), key), now), rows[key])
        && (r.value.0.stale <==> key in old(rows) && old(rows)[key].Reserved? && now - old(rows)[key].at >= 130)
        && (r.value.0.created <==> key !in old(rows) || old(rows)[key].Failed? || r.value.0.stale)
        && rows[key] == (if r.value.0.created then Reserved(now) else old(rows)[key])
    {
      if !room.playing {
        return Err(NotPlaying);
      }
      if room.revision != revision {
        return Err(StaleRevision);
      }
      if room.current != npc {
        return Err(NotCurrent);
      }
      if npc !in room.npcs {
        return Err(NotAnNpc);
      }
      var key := Key(room.id, revision, npc);
      var created := key !in rows;
      if created {
        rows := rows[key := Reserved(now)];
      }
      var stored := rows[key];
      var staleRecovery := false;
      if !created && stored.Failed? {
        rows := rows[key := Reserved(now)];
        created := true;
      } else if !created && stored.Reserved? && now - stored.at >= DECISION_LEASE {
        rows := rows[key := Reserved(now)];
        created, staleRecovery := true, true;
      }
      r := Ok((Ticket(created, staleRecovery), rows[key]));
    }

    /** False when another worker completed first. */
    method Complete(key: Key, choice: Action, offered: set<Action>) returns (r: Result<bool>)
      requires Valid()
      modifies this
      ensures Valid()
      ensures r.Ok? <==> choice in offered && (RowOf(old(rows), key).Reserved? || RowOf(old(rows), key).Completed?)
      ensures r.Ok? ==> r.value == RowOf(old(rows), key).Reserved?
      ensures rows == if r == Ok(true) then old(rows)[key := Completed(choice)] else old(rows)
      ensures r.Ok? ==> RowOf(rows, key) == AfterComplete(RowOf(old(rows), key), choice)
    {
      if choice !in offered {
        return Err(Illegal);
      }
      if key !in rows {
        return Err(NoReservation);
      }
      if rows[key].Completed? {
        return Ok(false);
      }
      if !rows[key].Reserved? {
        return Err(AlreadyFailed);
      }
      rows := rows[key := Completed(choice)];
      r := Ok(true);
    }

    method Fail(key: Key) returns (changed: bool)
      requires Valid()
      modifies this
      ensures Valid()
      ensures changed == RowOf(old(rows), key).Reserved?
      ensures rows == if changed then old(rows)[key := Failed] else old(rows)
      ensures RowOf(rows, key) == AfterFail(RowOf(old(rows), key))
    {
      changed := key in rows && rows[key].Reserved?;
      if changed {
        rows := rows[key := Failed];
      }
    }
  }
}
