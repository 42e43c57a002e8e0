/** Counting an NPC's silent turns and claiming its overdue words
    (app/npc_runtime.py, the npc_speech_states row of one room and NPC). */
module NpcSpeech {
  import opened Common
  const SPEECH_LEASE := 130
  const MAX_MESSAGE_LENGTH := 500
  const SILENT_TURNS_ALLOWED := 3

  datatype Status = Unused | Reserved | Superseded | Sent | Failed

  datatype Row = Row(
    silent: nat, pending: bool, start: Option<nat>, lastCompleted: Option<nat>,
    attempt: Option<nat>, status: Status, attemptedAt: Option<int>)

  const FRESH := Row(0, false, None, None, None, Unused, None)

  /** A claim, named by the completion revision that earned it, can still land. */
  predicate CanLand(row: Option<Row>, claim: nat) {
    row.Some? && row.value.attempt == Some(claim) && row.value.status == Reserved
  }

  predicate InFlight(row: Row, now: int) {
    row.status == Reserved && row.attemptedAt.Some? && now - row.attemptedAt.value < SPEECH_LEASE
  }

  predicate SpokeBetween(spoken: seq<nat>, from: nat, to: nat) {
    exists i :: 0 <= i < |spoken| && from < spoken[i] <= to
  }

  function AfterBegin(row: Option<Row>, revision: nat): Row {
    var r := if row.Some? then row.value else FRESH;
    if r.start.Some? then r else r.(start := Some(revision))
  }

  predicate Counts(row: Option<Row>, revision: nat) {
    row.None? || row.value.lastCompleted.None? || row.value.lastCompleted.value < revision
  }

  /** Revision after which words count for the turn that ends now. */
  function StartOf(row: Option<Row>, revision: nat): nat {
    if row.Some? && row.value.start.Some? then row.value.start.value else Max(0, revision - 1)
  }

  function Spoke(row: Option<Row>, spoken: seq<nat>, revision: nat): bool {
    SpokeBetween(spoken, StartOf(row, revision), revision)
  }

  predicate Due(row: Row, spoke: bool, allow: bool) {
    allow && !spoke && (row.pending || row.silent + 1 >= SILENT_TURNS_ALLOWED)
  }

  function AfterTurn(row: Option<Row>, spoken: seq<nat>, revision: nat, allow: bool, now: int): Row
    requires Counts(row, revision)
  {
    var r := if row.Some? then row.value else FRESH;
    var spoke := Spoke(row, spoken, revision);
    var due := Due(r, spoke, allow);
    var claim := due && !InFlight(r, now);
    Row(if spoke then 0 else r.silent + 1, due, None, Some(revision),
        if claim then Some(revision) else r.attempt,
        if claim then Reserved else if (spoke || !allow) && r.status == Reserved then Superseded else r.status,
        if claim then Some(now) else r.attemptedAt)
  }

  function Claims(row: Option<Row>, spoken: seq<nat>, revision: nat, allow: bool, now: int): bool {
    var r := if row.Some? then row.value else FRESH;
    Counts(row, revision) && Due(r, Spoke(row, spoken, revision), allow) && !InFlight(r, now)
  }

  // ----- runs -----

  /** What happened: a turn was counted, or claimed words landed. */
  datatype Note = Turn(revision: nat, spoke: bool, allow: bool) | Landed(claim: nat)

  datatype World = World(row: Option<Row>, spoken: seq<nat>, claims: seq<nat>, notes: seq<Note>)

  datatype Event =
    | Begin(revision: nat)
    | Speak(revision: nat)
    | Complete(revision: nat, allow: bool, now: int)
    | Land(claim: nat, length: nat, stillNpc: bool, roomRevision: nat)
    | FailSpeech(claim: nat)

  predicate Lands(w: World, claim: nat, length: nat, stillNpc: bool) {
    1 <= length <= MAX_MESSAGE_LENGTH && CanLand(w.row, claim) && stillNpc
  }

  function Step(w: World, e: Event): World {
    match e
    case Begin(revision) => w.(row := Some(AfterBegin(w.row, revision)))
    case Speak(revision) => w.(spoken := w.spoken + [revision])
    case Complete(revision, allow, now) =>
      if !Counts(w.row, revision) then w
      else
        w.(row := Some(AfterTurn(w.row, w.spoken, revision, allow, now)),
           claims := if Claims(w.row, w.spoken, revision, allow, now) then w.claims + [revision] else w.claims,
           notes := w.notes + [Turn(revision, Spoke(w.row, w.spoken, revision), allow)])
    case Land(claim, length, stillNpc, roomRevision) =>
      if !Lands(w, claim, length, stillNpc) then w
      else
        w.(row := Some(w.row.value.(silent := 0, pending := false, status := Sent)),
           spoken := w.spoken + [roomRevision],
           notes := w.notes + [Landed(claim)])
    case FailSpeech(claim) =>
      if CanLand(w.row, claim) then w.(row := Some(w.row.value.(pending := true, status := Failed))) else w
  }

  function Run(events: seq<Event>): World {
    if events == [] then World(None, [], [], []) else Step(Run(events[..|events| - 1]), events[|events| - 1])
  }

  /** Silent turns at the end of the history. */
  function TrailingSilence(notes: seq<Note>): nat {
    if notes == [] || notes[|notes| - 1].Landed? || notes[|notes| - 1].spoke then 0
    else 1 + TrailingSilence(notes[..|notes| - 1])
  }

  function TurnsOf(notes: seq<Note>): seq<nat> {
    if notes == [] then []
    else
      var last := notes[|notes| - 1];
      TurnsOf(notes[..|notes| - 1]) + (if last.Turn? then [last.revision] else [])
  }

  function LandingsOf(notes: seq<Note>): seq<nat> {
    if notes == [] then []
    else
      var last := notes[|notes| - 1];
      LandingsOf(notes[..|notes| - 1]) + (if last.Landed? then [last.claim] else [])
  }

  ghost predicate UpTo(ids: seq<nat>, bound: Option<nat>) {
    forall i :: 0 <= i < |ids| ==> bound.Some? && ids[i] <= bound.value
  }

  ghost predicate NotAmong(ids: seq<nat>, id: Option<nat>) {
    forall i :: 0 <= i < |ids| ==> Some(ids[i]) != id
  }

  function LastOf(ids: seq<nat>): Option<nat> {
    if ids == [] then None else Some(ids[|ids| - 1])
  }

  /** The row in terms of the history: turns, claims and landings each grow
      strictly, the newest claim is the row's attempt, and one that landed can
      land no more. */
  ghost predicate Consistent(w: World) {
    var turns, landings := TurnsOf(w.notes), LandingsOf(w.notes);
    && Increasing(turns) && Increasing(w.claims) && Increasing(landings)
    && (w.row.None? ==> w.notes == [] && w.claims == [])
    && (w.row.Some? ==>
          && w.row.value.lastCompleted == LastOf(turns)
          && w.row.value.attempt == LastOf(w.claims)
          && (w.row.value.status == Unused <==> w.claims == [])
          && w.row.value.silent == TrailingSilence(w.notes)
          && UpTo(turns, w.row.value.lastCompleted) && UpTo(w.claims, w.row.value.lastCompleted)
          && UpTo(landings, w.row.value.attempt)
          && ((w.row.value.pending || w.row.value.status == Reserved) ==> w.row.value.silent >= SILENT_TURNS_ALLOWED)
          && (w.row.value.status == Reserved ==>
            w.row.value.attemptedAt.Some? && NotAmong(landings, w.row.value.attempt)))
  }

  lemma AppendIncreasing(ids: seq<nat>, bound: Option<nat>, next: nat)
    requires Increasing(ids) && UpTo(ids, bound) && (bound.Some? ==> bound.value < next)
    ensures Increasing(ids + [next]) && UpTo(ids + [next], Some(next)) && UpTo(ids, Some(next))
  {
  }

  lemma LandingsStayBehind(landings: seq<nat>, attempt: Option<nat>, claims: seq<nat>, bound: Option<nat>, next: nat)
    requires UpTo(landings, attempt) && attempt == LastOf(claims) && UpTo(claims, bound)
      && (bound.Some? ==> bound.value < next)
    ensures UpTo(landings, Some(next)) && NotAmong(landings, Some(next))
  {
    forall i | 0 <= i < |landings| ensures landings[i] < next {
      var landing := landings[i];
      assert attempt.Some? && landing <= attempt.value;
      assert claims[|claims| - 1] <= bound.value;
    }
  }

  lemma NoteAppend(notes: seq<Note>, note: Note)
    ensures TurnsOf(notes + [note]) == if note.Turn? then TurnsOf(notes) + [note.revision] else TurnsOf(notes)
    ensures LandingsOf(notes + [note]) == if note.Landed? then LandingsOf(notes) + [note.claim] else LandingsOf(notes)
    ensures TrailingSilence(notes + [note]) == if note.Landed? || note.spoke then 0 else 1 + TrailingSilence(notes)
  {
    assert (notes + [note])[..|notes|] == notes;
  }

  lemma NothingYet()
    ensures TurnsOf([]) == [] && LandingsOf([]) == [] && TrailingSilence([]) == 0
    ensures Increasing([]) && forall bound: Option<nat> :: UpTo([], bound) && NotAmong([], bound)
  {
  }

  lemma TurnKeeps(w: World, revision: nat, allow: bool, now: int)
    requires Consistent(w) && Counts(w.row, revision)
    ensures Consistent(Step(w, Complete(revision, allow, now)))
  {
    hide Increasing, UpTo, NotAmong, TurnsOf, LandingsOf, TrailingSilence, Spoke;
    var turns := TurnsOf(w.notes);
    NothingYet();
    var last := if w.row.Some? then w.row.value.lastCompleted else None;
    NoteAppend(w.notes, Turn(revision, Spoke(w.row, w.spoken, revision), allow));
    AppendIncreasing(turns, last, revision);
    AppendIncreasing(w.claims, last, revision);
    LandingsStayBehind(LandingsOf(w.notes), LastOf(w.claims), w.claims, last, revision);
  }

  lemma LandingAppends(landings: seq<nat>, claim: nat)
    requires Increasing(landings) && UpTo(landings, Some(claim)) && NotAmong(landings, Some(claim))
    ensures Increasing(landings + [claim]) && UpTo(landings + [claim], Some(claim))
  {
    assert forall i :: 0 <= i < |landings| ==> landings[i] < claim;
  }

  lemma LandKeeps(w: World, claim: nat, length: nat, stillNpc: bool, roomRevision: nat)
    requires Consistent(w) && Lands(w, claim, length, stillNpc)
    ensures Consistent(Step(w, Land(claim, length, stillNpc, roomRevision)))
  {
    hide Increasing, UpTo, NotAmong, TurnsOf, LandingsOf, TrailingSilence;
    NoteAppend(w.notes, Landed(claim));
    LandingAppends(LandingsOf(w.notes), claim);
  }

  lemma StepKeeps(w: World, e: Event)
    requires Consistent(w)
    ensures Consistent(Step(w, e))
  {
    match e
    case Complete(revision, allow, now) =>
      if Counts(w.row, revision) {
        TurnKeeps(w, revision, allow, now);
      }
    case Land(claim, length, stillNpc, roomRevision) =>
      if Lands(w, claim, length, stillNpc) {
        LandKeeps(w, claim, length, stillNpc, roomRevision);
      }
    case Begin(revision) =>
    case Speak(revision) =>
    case FailSpeech(claim) =>
  }

  // ----- the same, told from the events -----

  /** The last revision a turn was counted at. */
  function LastCounted(events: seq<Event>): Option<nat> {
    if events == [] then None
    else
      var before, e := LastCounted(events[..|events| - 1]), events[|events| - 1];
      if e.Complete? && (before.None? || before.value < e.revision) then Some(e.revision) else before
  }

  /** The revision at which the turn that is still running began. */
  function TurnStart(events: seq<Event>): Option<nat> {
    if events == [] then None
    else
      var front, e := events[..|events| - 1], events[|events| - 1];
      if e.Begin? then (if TurnStart(front).Some? then TurnStart(front) else Some(e.revision))
      else if e.Complete? && LastCounted(events) != LastCounted(front) then None
      else TurnStart(front)
  }

  lemma {:induction false} RowRemembersTurn(events: seq<Event>)
    ensures var row := Run(events).row;
      && (row.None? ==> TurnStart(events).None? && LastCounted(events).None?)
      && (row.Some? ==> row.value.start == TurnStart(events) && row.value.lastCompleted == LastCounted(events))
  {
    hide Spoke, Claims, Due, InFlight;
    if events != [] {
      RowRemembersTurn(events[..|events| - 1]);
    }
  }

  lemma RunAppends(events: seq<Event>, e: Event)
    ensures Run(events + [e]) == Step(Run(events), e)
  {
    assert (events + [e])[..|events|] == events;
  }

  /** A turn is counted exactly when its revision is newer than every turn counted
      before, and noted as spoken exactly when some word lies after the revision it
      began at and up to its completion, inclusive. */
  lemma TurnsAreNoted(events: seq<Event>, revision: nat, allow: bool, now: int)
    ensures var w, after := Run(events), Run(events + [Complete(revision, allow, now)]);
      var start := if TurnStart(events).Some? then TurnStart(events).value
                   else if revision == 0 then 0 else revision - 1;
      var spoke := exists i :: 0 <= i < |w.spoken| && start < w.spoken[i] <= revision;
      && after.spoken == w.spoken
      && (if LastCounted(events).None? || LastCounted(events).value < revision
          then after.notes == w.notes + [Turn(revision, spoke, allow)]
          else after == w)
  {
    hide Run, Claims, AfterTurn;
    RowRemembersTurn(events);
    RunAppends(events, Complete(revision, allow, now));
  }

  /** Every completion revision is counted once, every claim lands at most one
      message, and only issued claims land. */
  lemma {:induction false} RunsAreConsistent(events: seq<Event>)
    ensures Consistent(Run(events))
  {
    if events != [] {
      RunsAreConsistent(events[..|events| - 1]);
      StepKeeps(Run(events[..|events| - 1]), events[|events| - 1]);
    }
  }

  /** A claim in flight stands through begun turns and other words until it fails, its
      own words land or a turn is counted; its words then land once, at the present
      revision, if they are 1 to 500 long and their NPC is still one, and settle the
      silence. */
  lemma {:induction false} ClaimStandsMeanwhile(events: seq<Event>, more: seq<Event>, claim: nat, length: nat,
      stillNpc: bool, at: nat)
    requires CanLand(Run(events).row, claim)
    requires forall e :: e in more ==> e.Begin? || e.Speak?
    ensures var w := Run(events + more); var after := Step(w, Land(claim, length, stillNpc, at));
      && CanLand(w.row, claim)
      && (if 1 <= length <= 500 && stillNpc
          then
            && after.spoken == w.spoken + [at] && after.notes == w.notes + [Landed(claim)]
            && !CanLand(after.row, claim) && after.row.Some? && after.row.value.silent == 0
          else after == w)
  {
    if more == [] {
      assert events + more == events;
    } else {
      var front, e := more[..|more| - 1], more[|more| - 1];
      assert forall o :: o in front ==> o in more;
      ClaimStandsMeanwhile(events, front, claim, length, stillNpc, at);
      assert e in more;
      RunAppends(events + front, e);
      assert events + more == events + front + [e];
    }
  }

  /** A turn in which the NPC spoke, or may not speak, leaves no claim to land; a
      failed attempt neither, and the silence stays on record. */
  lemma NothingLandsAfter(events: seq<Event>, revision: nat, allow: bool, now: int, claim: nat)
    requires var after := Run(events + [Complete(revision, allow, now)]);
      after.notes == Run(events).notes + [Turn(revision, true, allow)]
        || (!allow && after.notes == Run(events).notes + [Turn(revision, false, allow)])
    ensures !CanLand(Run(events + [Complete(revision, allow, now)]).row, claim)
    ensures var w, failed := Run(events), Step(Run(events), FailSpeech(claim));
      !CanLand(failed.row, claim) && failed.notes == w.notes && failed.spoken == w.spoken
  {
    hide Run, Spoke;
    RunAppends(events, Complete(revision, allow, now));
    var w, after := Run(events), Run(events + [Complete(revision, allow, now)]);
    assert after.notes[|w.notes|].revision == revision;
    assert Counts(w.row, revision) ==>
      after.notes[|w.notes|] == Turn(revision, Spoke(w.row, w.spoken, revision), allow);
  }

  lemma AtMostOneCanLand(events: seq<Event>, a: nat, b: nat)
    requires CanLand(Run(events).row, a) && CanLand(Run(events).row, b)
    ensures a == b && a in Run(events).claims && a !in LandingsOf(Run(events).notes)
  {
    RunsAreConsistent(events);
  }

  /** A claim that was replaced, superseded, failed or sent never lands again. */
  lemma DeadStep(w: World, e: Event, claim: nat)
    requires Consistent(w) && claim in w.claims && !CanLand(w.row, claim)
    ensures !CanLand(Step(w, e).row, claim) && claim in Step(w, e).claims
  {
  }

  lemma {:induction false} DeadClaimsNeverLand(events: seq<Event>, i: nat, claim: nat)
    requires i <= |events|
    requires claim in Run(events[..i]).claims && !CanLand(Run(events[..i]).row, claim)
    ensures !CanLand(Run(events).row, claim) && claim in Run(events).claims
    decreases |events| - i
  {
    if i == |events| {
      assert events[..i] == events;
    } else {
      RunsAreConsistent(events[..i]);
      assert events[..i + 1][..i] == events[..i];
      DeadStep(Run(events[..i]), events[i], claim);
      DeadClaimsNeverLand(events, i + 1, claim);
    }
  }

  /** Speech is owed exactly after three silent turns: the pending mark in the row
      never decides anything by itself. */
  lemma PendingDecidesNothing(events: seq<Event>, spoke: bool, allow: bool)
    requires Run(events).row.Some?
    ensures Due(Run(events).row.value, spoke, allow) <==>
      allow && !spoke && TrailingSilence(Run(events).notes) + 1 >= 3
  {
    RunsAreConsistent(events);
  }

  /** After a counted turn that allows speech, a claim is in flight if and only if
      the history ends in three silent turns or more; it was taken now, or less
      than a lease ago.  So words stay owed, whatever fails, until they are said. */
  lemma SilenceIsAnswered(events: seq<Event>, revision: nat, now: int)
    requires Counts(Run(events).row, revision)
    ensures var w := Run(events); var after := Step(w, Complete(revision, true, now));
      && after.row.Some?
      && var r := after.row.value;
         var inFlight := r.status == Reserved && r.attemptedAt.Some? && now - r.attemptedAt.value < 130;
         && (inFlight <==> TrailingSilence(after.notes) >= 3)
         && (inFlight ==>
               || (after.claims == w.claims + [revision] && r.attempt == Some(revision) && r.attemptedAt == Some(now))
               || (after.claims == w.claims && w.row.Some? && r.attempt == w.row.value.attempt
                   && r.attemptedAt == w.row.value.attemptedAt))
         && (w.row.Some? && w.row.value.status == Reserved && w.row.value.attemptedAt.Some? ==>
               now - w.row.value.attemptedAt.value < 130 ==> after.claims == w.claims)
  {
    hide Increasing, UpTo, NotAmong, TurnsOf, LandingsOf, Spoke, Run;
    var w := Run(events);
    RunsAreConsistent(events);
    NothingYet();
    NoteAppend(w.notes, Turn(revision, Spoke(w.row, w.spoken, revision), true));
  }

  /** Three silent turns at the end of a history, seen one by one. */
  lemma ThreeInARow(notes: seq<Note>)
    requires |notes| >= 3 && forall i :: |notes| - 3 <= i < |notes| ==> notes[i].Turn? && !notes[i].spoke
    ensures TrailingSilence(notes) >= SILENT_TURNS_ALLOWED
  {
    var n := |notes|;
    assert notes[..n - 1][..n - 2] == notes[..n - 2];
    assert TrailingSilence(notes[..n - 2]) >= 1;
    assert TrailingSilence(notes[..n - 1]) >= 2;
  }

  /** The third silent turn in a row is never let pass: where speech is allowed
      it takes a new claim, or one taken less than a lease ago is in flight. */
  lemma ThirdSilentTurnIsAnswered(events: seq<Event>, revision: nat, now: int)
    requires Counts(Run(events).row, revision)
    requires var notes := Step(Run(events), Complete(revision, true, now)).notes;
      |notes| >= 3 && forall i :: |notes| - 3 <= i < |notes| ==> notes[i].Turn? && !notes[i].spoke
    ensures var after := Step(Run(events), Complete(revision, true, now));
      && after.row.Some? && after.row.value.status == Reserved
      && after.row.value.attemptedAt.Some? && now - after.row.value.attemptedAt.value < 130
  {
    SilenceIsAnswered(events, revision, now);
    ThreeInARow(Step(Run(events), Complete(revision, true, now)).notes);
  }
}

/** The row's guarded updates, one write transaction each. */
module NpcSpeechState {
  import opened Common
  import opened NpcSpeech
  import opened NpcTurns

  class Speech {
    var row: Option<Row>
    var spoken: seq<nat>

    constructor ()
      ensures row == None && spoken == []
    {
      row, spoken := None, [];
    }

    /** Remember the first revision of one continuous turn of a system NPC. */
    method Begin(room: Room, revision: nat, npc: string) returns (start: Option<nat>)
      modifies this`row
      ensures start.Some? <==>
        room.playing && room.revision == revision && room.current == npc && npc in room.npcs
      ensures row == if start.Some? then Some(AfterBegin(old(row), revision)) else old(row)
      ensures start.Some? ==> row.value.start == start
    {
      if !room.playing || room.revision != revision || room.current != npc {
        return None;
      }
      if npc !in room.npcs {
        return None;
      }
      if row.None? {
        row := Some(FRESH.(start := Some(revision)));
      }
      if row.value.start.None? {
        row := Some(row.value.(start := Some(revision)));
      }
      start := row.value.start;
    }

    /** Count one finished turn; claim words when they are owed. */
    method Complete(roomExists: bool, revision: nat, allow: bool, now: int) returns (claim: Option<nat>)
      modifies this`row
      ensures claim == if roomExists && Claims(old(row), spoken, revision, allow, now) then Some(revision) else None
      ensures row ==
        if roomExists && Counts(old(row), revision) then Some(AfterTurn(old(row), spoken, revision, allow, now))
        else old(row)
    {
      if !roomExists {
        return None;
      }
      if row.None? {
        row := Some(FRESH.(start := Some(Max(0, revision - 1))));
      }
      var r := row.value;
      if r.lastCompleted.Some? && r.lastCompleted.value >= revision {
        return None;
      }
      var start := if r.start.Some? then r.start.value else Max(0, revision - 1);
      var spoke := exists i :: 0 <= i < |spoken| && start < spoken[i] <= revision;
      var due := allow && !spoke && (r.pending || r.silent + 1 >= SILENT_TURNS_ALLOWED);
      var reserved := r.status == Reserved && !(r.attemptedAt.None? || now - r.attemptedAt.value >= SPEECH_LEASE);
      var attempt, status, attemptedAt := r.attempt, r.status, r.attemptedAt;
      if (spoke || !allow) && status == Reserved {
        status := Superseded;
      }
      if due && !reserved {
        attempt, status, attemptedAt := Some(revision), Reserved, Some(now);
      }
      row := Some(Row(if spoke then 0 else r.silent + 1, due, None, Some(revision), attempt, status, attemptedAt));
      claim := if due && !reserved then Some(revision) else None;
    }

    /** Land the claimed words, at the room's present revision. */
    method Land(claim: nat, length: nat, stillNpc: bool, roomRevision: nat) returns (landed: bool)
      modifies this
      ensures landed <==>
        && 1 <= length <= 500 && stillNpc
        && old(row).Some? && old(row).value.attempt == Some(claim) && old(row).value.status == Reserved
      ensures landed ==> spoken == old(spoken) + [roomRevision]
      ensures forall claims, notes ::
        var w := Step(World(old(row), old(spoken), claims, notes), Event.Land(claim, length, stillNpc, roomRevision));
        row == w.row && spoken == w.spoken
    {
      if length == 0 || length > MAX_MESSAGE_LENGTH {
        return false;
      }
      if row.None? || row.value.attempt != Some(claim) || row.value.status != Reserved {
        return false;
      }
      if !stillNpc {
        return false;
      }
      spoken := spoken + [roomRevision];
      row := Some(row.value.(silent := 0, pending := false, status := Sent));
      landed := true;
    }

    method FailSpeech(claim: nat) returns (changed: bool)
      modifies this`row
      ensures changed == CanLand(old(row), claim)
      ensures row == if changed then Some(old(row).value.(pending := true, status := Failed)) else old(row)
    {
      changed := row.Some? && row.value.attempt == Some(claim) && row.value.status == Reserved;
      if changed {
        row := Some(row.value.(pending := true, status := Failed));
      }
    }
  }
}
