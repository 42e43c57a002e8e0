/** The table behind the wait leases, as values (app/wait_control.py). */
module WaitTable {
  import opened Common
  const LEASE: int := 3720 * 1_000_000_000
  const CAPACITY := 10000

  /** Player and room. */
  datatype Key = Key(player: string, room: string)

  /** A stored generation; without a live lease it is a tombstone. */
  datatype Slot = Slot(generation: int, live: bool, running: bool)

  datatype Table = Table(slots: map<Key, Slot>, last: int, startedAt: int)

  datatype Call =
    | Apply(key: Key, generation: Option<int>, waiting: bool, resume: bool)
    | Finish(key: Key, lease: int)
    | Rest(key: Key, lease: int)

  datatype Reply = Refused | NoLease | Created(generation: int) | Resumed(generation: int) | Silent

  function Purged(slots: map<Key, Slot>, cutoff: int): map<Key, Slot> {
    map k | k in slots && slots[k].generation >= cutoff :: slots[k]
  }

  function Previous(slots: map<Key, Slot>, key: Key): int {
    if key in slots then slots[key].generation else 0
  }

  /** The generation a call runs under: its own, or one newer than everything seen. */
  function Chosen(slots: map<Key, Slot>, last: int, key: Key, generation: Option<int>, now: int): int {
    if generation.Some? then generation.value else Max(now, Max(last + 1, Previous(slots, key) + 1))
  }

  /** A waiting call that names the stored generation continues its lease. */
  predicate Continues(slots: map<Key, Slot>, key: Key, g: int, waiting: bool) {
    waiting && g == Previous(slots, key)
  }

  predicate Live(slots: map<Key, Slot>, key: Key) {
    key in slots && slots[key].live
  }

  /** Whether `apply` answers with a cancellation, on the purged table. */
  predicate Refuses(slots: map<Key, Slot>, startedAt: int, key: Key, g: int, waiting: bool, resume: bool, now: int) {
    || g < Max(now - LEASE, startedAt)
    || g < Previous(slots, key)
    || (if Continues(slots, key, g, waiting) then !Live(slots, key) || !resume || slots[key].running
        else
          || (resume && (g != Previous(slots, key) || !Live(slots, key)))
          || (key !in slots && |slots| >= CAPACITY))
  }

  function ApplyStep(t: Table, now: int, key: Key, generation: Option<int>, waiting: bool, resume: bool): (Table, Reply)
  {
    var slots := Purged(t.slots, now - LEASE);
    var g := Chosen(slots, t.last, key, generation, now);
    var last := Max(g, t.last);
    if Refuses(slots, t.startedAt, key, g, waiting, resume, now) then (t.(slots := slots, last := last), Refused)
    else if Continues(slots, key, g, waiting) then
      (t.(slots := slots[key := Slot(g, true, true)], last := last), Resumed(g))
    else (t.(slots := slots[key := Slot(g, waiting, waiting)], last := last), if waiting then Created(g) else NoLease)
  }

  predicate Holds(slots: map<Key, Slot>, key: Key, generation: int) {
    Live(slots, key) && slots[key].generation == generation
  }

  function Step(t: Table, now: int, call: Call): (Table, Reply) {
    match call
    case Apply(key, generation, waiting, resume) => ApplyStep(t, now, key, generation, waiting, resume)
    case Finish(key, generation) =>
      if !Holds(t.slots, key, generation) then (t, Silent)
      else (t.(slots := t.slots[key := Slot(generation, false, false)]), Silent)
    case Rest(key, generation) =>
      if !Holds(t.slots, key, generation) then (t, Silent)
      else (t.(slots := t.slots[key := t.slots[key].(running := false)]), Silent)
  }

  // ----- runs -----

  /** Calls with the clock they read. */
  type History = seq<(int, Call)>

  predicate Forward(now: int, calls: History) {
    && (calls != [] ==> now <= calls[0].0)
    && forall i, j :: 0 <= i < j < |calls| ==> calls[i].0 <= calls[j].0
  }

  function Run(t: Table, calls: History): Table
    decreases calls
  {
    if calls == [] then t else Run(Step(t, calls[0].0, calls[0].1).0, calls[1..])
  }

  function Replies(t: Table, calls: History): seq<Reply>
    decreases calls
  {
    if calls == [] then []
    else
      var (after, reply) := Step(t, calls[0].0, calls[0].1);
      [reply] + Replies(after, calls[1..])
  }

  /** Time at the end of a history. */
  function Later(now: int, calls: History): int {
    if calls == [] then now else calls[|calls| - 1].0
  }

  lemma {:induction false} RepliesLength(t: Table, calls: History)
    ensures |Replies(t, calls)| == |calls|
    decreases calls
  {
    if calls != [] {
      RepliesLength(Step(t, calls[0].0, calls[0].1).0, calls[1..]);
    }
  }

  /** A generation no wait of the key may use again: superseded, cancelled, or
      older than any lease may be. */
  predicate Barred(t: Table, key: Key, g: int, now: int) {
    || (key in t.slots && (g < t.slots[key].generation || (g == t.slots[key].generation && !t.slots[key].live)))
    || g < now - LEASE
  }

  lemma BarredStays(t: Table, key: Key, g: int, now: int, later: int, call: Call)
    requires Barred(t, key, g, now) && now <= later
    ensures Barred(Step(t, later, call).0, key, g, later)
  {
  }

  /** The table after a run, and the last reply, taken from the end. */
  lemma {:induction false} RunSplits(t: Table, calls: History, i: nat)
    requires i < |calls|
    ensures |Replies(t, calls)| == |calls|
    ensures Replies(t, calls)[i] == Step(Run(t, calls[..i]), calls[i].0, calls[i].1).1
    ensures Run(t, calls[..i + 1]) == Step(Run(t, calls[..i]), calls[i].0, calls[i].1).0
    decreases calls
  {
    RepliesLength(t, calls);
    if i == 0 {
      assert calls[..0] == [] && calls[..1] == [calls[0]] && calls[..1][1..] == [];
    } else {
      var next := Step(t, calls[0].0, calls[0].1).0;
      RunSplits(next, calls[1..], i - 1);
      assert calls[..i][1..] == calls[1..][..i - 1] && calls[..i + 1][1..] == calls[1..][..i];
    }
  }

  lemma {:induction false} BarredForever(t: Table, now: int, calls: History, key: Key, g: int, i: nat)
    requires Barred(t, key, g, now) && Forward(now, calls) && i <= |calls|
    ensures Barred(Run(t, calls[..i]), key, g, Later(now, calls[..i]))
  {
    if i == 0 {
      assert calls[..0] == [];
    } else {
      BarredForever(t, now, calls, key, g, i - 1);
      RunSplits(t, calls, i - 1);
      BarredStays(Run(t, calls[..i - 1]), key, g, Later(now, calls[..i - 1]), calls[i - 1].0, calls[i - 1].1);
    }
  }

  /** No revival: once a generation is superseded or cancelled, no waiting call
      with it or an older one is ever granted a lease, however late it arrives
      and whatever was purged in between. */
  lemma NoRevival(t: Table, now: int, calls: History, key: Key, g: int, i: nat)
    requires Barred(t, key, g, now) && Forward(now, calls) && i < |calls|
    requires calls[i].1.Apply? && calls[i].1.key == key && calls[i].1.waiting
    requires calls[i].1.generation.Some? && calls[i].1.generation.value <= g
    ensures |Replies(t, calls)| == |calls| && Replies(t, calls)[i] == Refused
  {
    RunSplits(t, calls, i);
    BarredForever(t, now, calls, key, g, i);
  }

  /** What bars a generation: any newer call that went through, and an ordinary
      call or a finished wait of the generation itself. */
  lemma WhatBars(t: Table, now: int, call: Call, g: int)
    requires call.Apply? ==> Step(t, now, call).1 != Refused
    requires call.Apply? ==>
      g <= Chosen(Purged(t.slots, now - LEASE), t.last, call.key, call.generation, now)
    requires call.Apply? && call.waiting ==>
      g < Chosen(Purged(t.slots, now - LEASE), t.last, call.key, call.generation, now)
    requires call.Finish? ==> call.lease == g && Holds(t.slots, call.key, g)
    requires !call.Rest?
    ensures Barred(Step(t, now, call).0, call.key, g, now)
  {
  }

  /** The generation of a key is at least g, or it was purged and g is past its time. */
  predicate AtLeast(t: Table, key: Key, g: int, now: int) {
    if key in t.slots then g <= t.slots[key].generation else g < now - LEASE
  }

  lemma AtLeastStays(t: Table, key: Key, g: int, now: int, later: int, call: Call)
    requires AtLeast(t, key, g, now) && now <= later
    ensures AtLeast(Step(t, later, call).0, key, g, later)
  {
  }

  lemma {:induction false} NoNewBelow(t: Table, now: int, calls: History, key: Key, g: int, i: nat)
    requires Forward(now, calls) && i <= |calls|
    requires AtLeast(t, key, g, now)
    ensures AtLeast(Run(t, calls[..i]), key, g, Later(now, calls[..i]))
  {
    hide Step;
    if i == 0 {
      assert calls[..0] == [];
    } else {
      NoNewBelow(t, now, calls, key, g, i - 1);
      RunSplits(t, calls, i - 1);
      AtLeastStays(Run(t, calls[..i - 1]), key, g, Later(now, calls[..i - 1]), calls[i - 1].0, calls[i - 1].1);
    }
  }

  /** Stored generations never go back, not even across a purge. */
  lemma {:induction false} GenerationsNeverDecrease(t: Table, now: int, calls: History, key: Key)
    requires Forward(now, calls) && key in t.slots && key in Run(t, calls).slots
    ensures t.slots[key].generation <= Run(t, calls).slots[key].generation
  {
    var g := t.slots[key].generation;
    NoNewBelow(t, now, calls, key, g, |calls|);
    assert calls[..|calls|] == calls;
  }

  lemma PurgeShrinks(slots: map<Key, Slot>, cutoff: int)
    ensures |Purged(slots, cutoff)| <= |slots|
  {
    var kept := Purged(slots, cutoff).Keys;
    assert slots.Keys == kept + (slots.Keys - kept);
  }

  /** A purge keeps exactly the entries inside their lease time of 3720 seconds. */
  lemma PurgeKeeps(slots: map<Key, Slot>, now: int)
    ensures var kept := set k | k in slots && slots[k].generation >= now - 3_720_000_000_000;
      && Purged(slots, now - LEASE).Keys == kept && |Purged(slots, now - LEASE)| == |kept|
      && (forall k :: k in kept ==> Purged(slots, now - LEASE)[k] == slots[k])
  {
    var kept := set k | k in slots && slots[k].generation >= now - 3_720_000_000_000;
    assert Purged(slots, now - LEASE).Keys == kept;
    assert |Purged(slots, now - LEASE)| == |Purged(slots, now - LEASE).Keys|;
  }

  lemma BoundedStep(t: Table, now: int, call: Call)
    requires |t.slots| <= CAPACITY
    ensures |Step(t, now, call).0.slots| <= CAPACITY
  {
    PurgeShrinks(t.slots, now - LEASE);
  }

  /** The table never outgrows its capacity. */
  lemma {:induction false} BoundedTable(t: Table, calls: History)
    requires |t.slots| <= 10_000
    ensures |Run(t, calls).slots| <= 10_000
    decreases calls
  {
    if calls != [] {
      BoundedStep(t, calls[0].0, calls[0].1);
      BoundedTable(Step(t, calls[0].0, calls[0].1).0, calls[1..]);
    }
  }

  /** A wait that brings no generation of its own is never stale: it is refused
      only when the table is full. */
  lemma FreshWaitsAreServed(t: Table, now: int, key: Key)
    requires t.startedAt <= now
    ensures var slots := Purged(t.slots, now - LEASE);
      (Step(t, now, Apply(key, None, true, false)).1 == Refused <==> key !in slots && |slots| >= CAPACITY)
  {
  }

  /** A generation's lease is in use, or the generation is barred for good. */
  predicate Held(t: Table, key: Key, g: int, now: int) {
    Barred(t, key, g, now) || (key in t.slots && t.slots[key] == Slot(g, true, true))
  }

  predicate Grants(reply: Reply, g: int) {
    reply == Created(g) || reply == Resumed(g)
  }

  lemma HeldStays(t: Table, key: Key, g: int, now: int, later: int, call: Call)
    requires Held(t, key, g, now) && now <= later
    ensures call != Rest(key, g) ==> Held(Step(t, later, call).0, key, g, later)
    ensures call.key == key ==> !Grants(Step(t, later, call).1, g)
  {
  }

  lemma GrantedIsHeld(t: Table, now: int, call: Call, g: int)
    requires Grants(Step(t, now, call).1, g)
    ensures Held(Step(t, now, call).0, call.key, g, now)
  {
  }

  lemma {:induction false} HeldSince(t: Table, calls: History, key: Key, g: int, i: nat, n: nat)
    requires i < n <= |calls| && Forward(calls[0].0, calls) && calls[i].1.key == key
    requires |Replies(t, calls)| == |calls| && Grants(Replies(t, calls)[i], g)
    requires forall m :: i < m < n ==> calls[m].1 != Rest(key, g)
    ensures Held(Run(t, calls[..n]), key, g, calls[n - 1].0)
    decreases n
  {
    hide Step, Held, Grants, Run, Replies;
    RunSplits(t, calls, n - 1);
    var before, last := Run(t, calls[..n - 1]), calls[n - 1];
    if n == i + 1 {
      GrantedIsHeld(before, last.0, last.1, g);
    } else {
      HeldSince(t, calls, key, g, i, n - 1);
      HeldStays(before, key, g, calls[n - 2].0, last.0, last.1);
    }
  }

  lemma {:induction false} StartIsKept(t: Table, calls: History)
    ensures Run(t, calls).startedAt == t.startedAt
    decreases calls
  {
    if calls != [] {
      StartIsKept(Step(t, calls[0].0, calls[0].1).0, calls[1..]);
    }
  }

  /** In any history since the start, a wait that brings no generation of its own
      is never taken for a stale one: it is refused exactly when 10,000 entries of
      other keys are inside their lease time and its own key has none. */
  lemma FreshWaitsInRuns(t: Table, calls: History, key: Key, i: nat)
    requires Forward(t.startedAt, calls) && i < |calls| && calls[i].1 == Apply(key, None, true, false)
    ensures var before, now := Run(t, calls[..i]).slots, calls[i].0;
      var kept := set k | k in before && before[k].generation >= now - 3_720_000_000_000;
      && |Replies(t, calls)| == |calls|
      && (Replies(t, calls)[i] == Refused <==> key !in kept && |kept| >= 10_000)
  {
    hide Step, Run, Replies, Purged;
    RunSplits(t, calls, i);
    StartIsKept(t, calls[..i]);
    assert t.startedAt <= calls[0].0 <= calls[i].0;
    FreshWaitsAreServed(Run(t, calls[..i]), calls[i].0, key);
    PurgeKeeps(Run(t, calls[..i]).slots, calls[i].0);
  }

  /** Which calls naming a generation get through, from the entries inside their
      lease time: a wait needs a newer generation than the stored one, a heartbeat
      exactly the stored one, live and at rest; an ordinary call must not be older. */
  lemma ServedExactly(t: Table, now: int, key: Key, g: int, resume: bool)
    ensures var kept := set k | k in t.slots && t.slots[k].generation >= now - 3_720_000_000_000;
      var inTime := g >= now - 3_720_000_000_000 && g >= t.startedAt;
      var newest := if key in kept then t.slots[key].generation else 0;
      var room := key in kept || |kept| < 10_000;
      && (Step(t, now, Apply(key, Some(g), true, resume)).1 ==
            if !inTime then Refused
            else if resume then (if key in kept && t.slots[key] == Slot(g, true, false) then Resumed(g) else Refused)
            else if g > newest && room then Created(g) else Refused)
      && (Step(t, now, Apply(key, Some(g), false, false)).1 ==
            if inTime && g >= newest && room then NoLease else Refused)
  {
    PurgeKeeps(t.slots, now);
  }

  lemma GrantedIsStored(t: Table, now: int, call: Call, g: int)
    requires Step(t, now, call).1 in {Created(g), Resumed(g)}
    ensures var after := Step(t, now, call).0;
      && call.key in after.slots && after.slots[call.key] == Slot(g, true, true) && g >= after.startedAt
      && g <= after.last
  {
  }

  lemma ParkedStays(t: Table, key: Key, g: int, now: int, call: Call)
    requires key in t.slots && t.slots[key].generation == g && t.slots[key].live && g >= t.startedAt
    requires g >= now - 3_720_000_000_000 && (call.key == key ==> call == Rest(key, g))
    ensures var after := Step(t, now, call).0;
      && key in after.slots && after.slots[key].generation == g && after.slots[key].live && g >= after.startedAt
      && (call == Rest(key, g) || !t.slots[key].running ==> !after.slots[key].running)
  {
  }

  /** What is left of a granted lease while its key is only ever put to rest. */
  lemma {:induction false} Parked(t: Table, calls: History, key: Key, g: int, i: nat, r: nat, n: nat)
    requires i < n <= |calls| && i < r < |calls| && Forward(calls[0].0, calls) && calls[i].1.key == key
    requires |Replies(t, calls)| == |calls| && Replies(t, calls)[i] in {Created(g), Resumed(g)}
    requires calls[r].1 == Rest(key, g)
    requires forall m :: i < m < n && calls[m].1.key == key ==> calls[m].1 == Rest(key, g)
    requires g >= calls[n - 1].0 - 3_720_000_000_000
    ensures var end := Run(t, calls[..n]);
      && key in end.slots && end.slots[key].generation == g && end.slots[key].live && g >= end.startedAt
      && (r < n ==> !end.slots[key].running)
    decreases n
  {
    hide Step, Run, Replies;
    RunSplits(t, calls, n - 1);
    var before, last := Run(t, calls[..n - 1]), calls[n - 1];
    if n == i + 1 {
      GrantedIsStored(before, last.0, last.1, g);
    } else {
      Parked(t, calls, key, g, i, r, n - 1);
      ParkedStays(before, key, g, last.0, last.1);
    }
  }

  /** A lease that was granted and rested, with no other call of its key since and
      still inside its lease time, goes to a waiting call of its generation if and
      only if that call is a heartbeat. */
  lemma RestedLeaseResumes(t: Table, calls: History, key: Key, g: int, i: nat, r: nat, j: nat, resume: bool)
    requires i < r < j < |calls| && Forward(calls[0].0, calls) && calls[i].1.key == key
    requires |Replies(t, calls)| == |calls| && Replies(t, calls)[i] in {Created(g), Resumed(g)}
    requires calls[r].1 == Rest(key, g)
    requires forall m :: i < m < j && calls[m].1.key == key ==> calls[m].1 == Rest(key, g)
    requires calls[j].1 == Apply(key, Some(g), true, resume) && g >= calls[j].0 - 3_720_000_000_000
    ensures Replies(t, calls)[j] == if resume then Resumed(g) else Refused
  {
    hide Step, Run, Replies;
    Parked(t, calls, key, g, i, r, j);
    RunSplits(t, calls, j);
    ServedExactly(Run(t, calls[..j]), calls[j].0, key, g, resume);
  }

  lemma LastGrows(t: Table, now: int, call: Call)
    ensures Step(t, now, call).0.last >= t.last
  {
  }

  /** After a grant of g its key never forgets g, but by outliving its lease time. */
  lemma {:induction false} GrantedSince(t: Table, calls: History, key: Key, g: int, i: nat, n: nat)
    requires i < n <= |calls| && Forward(calls[0].0, calls) && calls[i].1.key == key
    requires |Replies(t, calls)| == |calls| && Replies(t, calls)[i] in {Created(g), Resumed(g)}
    ensures AtLeast(Run(t, calls[..n]), key, g, calls[n - 1].0) && Run(t, calls[..n]).last >= g
    decreases n
  {
    hide Step, Run, Replies;
    RunSplits(t, calls, n - 1);
    var before, last := Run(t, calls[..n - 1]), calls[n - 1];
    if n == i + 1 {
      GrantedIsStored(before, last.0, last.1, g);
    } else {
      GrantedSince(t, calls, key, g, i, n - 1);
      AtLeastStays(before, key, g, calls[n - 2].0, last.0, last.1);
      LastGrows(before, last.0, last.1);
    }
  }

  /** A repeated first request is never served: no wait that is no heartbeat is
      granted under a generation its key was granted before. */
  lemma NoReplayedRequest(t: Table, calls: History, key: Key, g: int, i: nat, j: nat)
    requires i < j < |calls| && Forward(calls[0].0, calls) && calls[i].1.key == key
    requires |Replies(t, calls)| == |calls| && Replies(t, calls)[i] in {Created(g), Resumed(g)}
    requires calls[j].1.Apply? && calls[j].1.key == key && !calls[j].1.resume
    ensures Replies(t, calls)[j] !in {Created(g), Resumed(g)}
  {
    hide Run, Replies;
    GrantedSince(t, calls, key, g, i, j);
    RunSplits(t, calls, j);
  }

  lemma StoppingBars(t: Table, now: int, earlier: int, call: Call, g: int)
    requires AtLeast(t, call.key, g, earlier) && t.last >= g && earlier <= now
    requires Step(t, now, call).1.NoLease? || Step(t, now, call).1.Created? || call == Finish(call.key, g)
    ensures Barred(Step(t, now, call).0, call.key, g, now)
  {
  }

  lemma {:induction false} BarredSince(t: Table, calls: History, key: Key, g: int, k: nat, n: nat)
    requires k < n <= |calls| && Forward(calls[0].0, calls)
    requires Barred(Run(t, calls[..k + 1]), key, g, calls[k].0)
    ensures Barred(Run(t, calls[..n]), key, g, calls[n - 1].0)
    decreases n
  {
    hide Step, Run, Barred;
    if n > k + 1 {
      BarredSince(t, calls, key, g, k, n - 1);
      RunSplits(t, calls, n - 1);
      BarredStays(Run(t, calls[..n - 1]), key, g, calls[n - 2].0, calls[n - 1].0, calls[n - 1].1);
    }
  }

  lemma BarredIsRefused(t: Table, key: Key, g: int, h: int, now: int, later: int, call: Call)
    requires Barred(t, key, g, now) && now <= later && call.key == key && h <= g
    ensures Step(t, later, call).1 !in {Created(h), Resumed(h)}
  {
  }

  /** Stopped for good: once an ordinary call, a newer wait or the end of the wait
      itself came through after a grant, neither its generation nor an older one is
      ever granted again. */
  lemma StoppedForGood(t: Table, calls: History, key: Key, g: int, i: nat, k: nat, j: nat, h: int)
    requires i < k < j < |calls| && Forward(calls[0].0, calls)
    requires calls[i].1.key == calls[k].1.key == calls[j].1.key == key
    requires |Replies(t, calls)| == |calls| && Replies(t, calls)[i] in {Created(g), Resumed(g)}
    requires Replies(t, calls)[k].NoLease? || Replies(t, calls)[k].Created? || calls[k].1 == Finish(key, g)
    requires h <= g
    ensures Replies(t, calls)[j] !in {Created(h), Resumed(h)}
  {
    hide Step, Run, Replies, Barred;
    GrantedSince(t, calls, key, g, i, k);
    RunSplits(t, calls, k);
    StoppingBars(Run(t, calls[..k]), calls[k].0, calls[k - 1].0, calls[k].1, g);
    BarredSince(t, calls, key, g, k, j);
    RunSplits(t, calls, j);
    BarredIsRefused(Run(t, calls[..j]), key, g, h, calls[j - 1].0, calls[j].0, calls[j].1);
  }

  /** A wait that brings no generation gets one newer than every generation granted
      before, to whatever key, and no older than the clock. */
  lemma FreshGenerationsAreNew(t: Table, calls: History, g: int, h: int, i: nat, j: nat)
    requires i < j < |calls| && Forward(calls[0].0, calls)
    requires |Replies(t, calls)| == |calls| && Replies(t, calls)[i] in {Created(g), Resumed(g)}
    requires calls[j].1.Apply? && calls[j].1.generation.None? && Replies(t, calls)[j] in {Created(h), Resumed(h)}
    ensures g < h && calls[j].0 <= h
  {
    hide Run, Replies;
    GrantedSince(t, calls, calls[i].1.key, g, i, j);
    RunSplits(t, calls, j);
  }

  /** One call at a time: a lease that was granted is granted again only after the
      call that holds it has rested it. */
  lemma OneCallPerLease(t: Table, calls: History, key: Key, g: int, i: nat, j: nat)
    requires i < j < |calls| && Forward(calls[0].0, calls) && calls[i].1.key == calls[j].1.key == key
    requires |Replies(t, calls)| == |calls| && Grants(Replies(t, calls)[i], g)
    requires forall m :: i < m < j ==> calls[m].1 != Rest(key, g)
    ensures !Grants(Replies(t, calls)[j], g)
  {
    hide Step, Held, Grants, Run, Replies;
    HeldSince(t, calls, key, g, i, j);
    RunSplits(t, calls, j);
    HeldStays(Run(t, calls[..j]), key, g, calls[j - 1].0, calls[j].0, calls[j].1);
  }
}

/** The leases themselves: objects the callers keep and look at. */
module WaitControl {
  import opened Common
  import opened WaitTable

  class Lease {
    const generation: int
    ghost const key: Key
    var cancelled: bool
    var running: bool

    constructor (key: Key, generation: int)
      ensures this.key == key && this.generation == generation && !cancelled && running
    {
      this.key, this.generation := key, generation;
      cancelled, running := false, true;
    }
  }

  datatype Entry = Entry(generation: int, lease: Lease?)

  datatype Answer = Cancelled | NoLease | Granted(lease: Lease)

  class Control {
    var entries: map<Key, Entry>
    var lastGeneration: int
    const startedAt: int
    ghost var slots: map<Key, Slot>
    ghost var issued: set<Lease>

    ghost predicate Known(e: Entry) reads this`issued {
      e.lease == null || e.lease in issued
    }

    /** A slot tells the truth about an entry, whose lease is live and its own. */
    static ghost predicate Shows(slot: Slot, e: Entry, k: Key) reads e.lease {
      && slot.generation == e.generation && slot.live == (e.lease != null)
      && (if e.lease == null then !slot.running
          else !e.lease.cancelled && e.lease.key == k
               && e.lease.generation == e.generation && e.lease.running == slot.running)
    }

    /** Every lease ever issued is cancelled unless it is the one stored now. */
    ghost predicate Bound(l: Lease) reads this`entries, l {
      l.cancelled || (l.key in entries && entries[l.key] == Entry(l.generation, l))
    }

    ghost predicate Valid() reads this`entries, this`slots, this`issued, issued {
      && |entries| <= CAPACITY && slots.Keys == entries.Keys
      && (forall k :: k in entries ==> Known(entries[k]) && Shows(slots[k], entries[k], k))
      && (forall l :: l in issued ==> Bound(l))
    }

    ghost function View(): Table reads this {
      Table(slots, lastGeneration, startedAt)
    }

    constructor (now: int)
      ensures Valid() && View() == Table(map[], 0, now) && issued == {}
    {
      entries, lastGeneration, startedAt := map[], 0, now;
      slots, issued := map[], {};
    }

    lemma Generations()
      requires Valid()
      ensures forall k :: k in entries ==> entries[k].generation == slots[k].generation
    {
    }

    /** Valid but for one key, whose leases are all cancelled. */
    ghost predicate ValidBut(key: Key) reads this`entries, this`slots, this`issued, issued {
      && |entries| <= CAPACITY && slots.Keys == entries.Keys
      && (forall k :: k in entries && k != key ==> Known(entries[k]) && Shows(slots[k], entries[k], k))
      && (forall l :: l in issued ==> if l.key == key then l.cancelled else Bound(l))
    }

    /** Cancel the lease of an entry, if it has one. */
    method Wake(k: Key)
      requires Valid() && k in entries
      modifies issued
      ensures ValidBut(k)
      ensures forall l :: l in issued && old(l.cancelled) ==> l.cancelled
    {
      var lease := entries[k].lease;
      if lease != null {
        lease.cancelled := true;
      }
    }

    method Remove(k: Key)
      requires ValidBut(k) && k in entries
      modifies this`entries, this`slots
      ensures Valid() && slots == old(slots) - {k} && entries == old(entries) - {k}
    {
      assert entries.Keys == (entries.Keys - {k}) + {k};
      entries, slots := entries - {k}, slots - {k};
    }

    method Drop(k: Key)
      requires Valid() && k in entries
      modifies this`entries, this`slots, issued
      ensures Valid() && slots == old(slots) - {k} && entries == old(entries) - {k}
      ensures forall l :: l in issued && old(l.cancelled) ==> l.cancelled
    {
      hide Valid, ValidBut;
      Wake(k);
      Remove(k);
    }

    /** Drop entries past their lease, waking their waiters. */
    method Purge(cutoff: int)
      requires Valid()
      modifies this`entries, this`slots, issued
      ensures Valid() && slots == Purged(old(slots), cutoff)
      ensures forall k :: k in entries ==> k in old(entries) && entries[k] == old(entries)[k]
      ensures forall l :: l in issued && old(l.cancelled) ==> l.cancelled
    {
      hide Shows, Bound, ValidBut;
      ghost var was := slots;
      assert forall k :: k in entries ==> entries[k].generation == slots[k].generation by { Generations(); }
      var stale := set k | k in entries && entries[k].generation < cutoff;
      while stale != {}
        invariant Valid() && stale <= entries.Keys
        invariant forall k :: k in slots ==> (k in stale <==> slots[k].generation < cutoff)
        invariant forall k :: k in was && was[k].generation >= cutoff ==> k in slots
        invariant forall k :: k in slots ==> k in was && slots[k] == was[k]
        invariant forall k :: k in entries ==> k in old(entries) && entries[k] == old(entries)[k]
        invariant forall l :: l in issued && old(l.cancelled) ==> l.cancelled
        decreases stale
      {
        var k :| k in stale;
        Drop(k);
        stale := stale - {k};
      }
      assert slots == Purged(was, cutoff);
    }

    lemma EntryFacts(key: Key)
      requires Valid()
      ensures |slots| == |entries| && (key in slots <==> key in entries)
      ensures key in entries ==> Known(entries[key]) && Shows(slots[key], entries[key], key)
    {
      assert |slots| == |slots.Keys|;
    }

    /** What a caller gets: an uncancelled lease of its own key, marked in use. */
    ghost predicate Handed(l: Lease, key: Key, g: int) reads this`issued, l {
      l in issued && !l.cancelled && l.running && l.key == key && l.generation == g
    }

    method Continue(key: Key)
      requires Valid() && key in entries && entries[key].lease != null
      modifies this`slots, issued
      ensures Valid() && slots == old(slots)[key := Slot(entries[key].generation, true, true)]
      ensures entries[key].lease in issued && Handed(entries[key].lease, key, entries[key].generation)
      ensures forall l :: l in issued ==> l.cancelled == old(l.cancelled)
    {
      slots := slots[key := Slot(entries[key].generation, true, true)];
      entries[key].lease.running := true;
    }

    lemma NothingToWake(key: Key)
      requires Valid() && (key in entries ==> entries[key].lease == null)
      ensures ValidBut(key)
    {
    }

    method PutLease(key: Key, lease: Lease)
      requires ValidBut(key) && (key in entries || |entries| < CAPACITY)
      requires lease !in issued && lease.key == key && !lease.cancelled && lease.running
      modifies this`entries, this`slots, this`issued
      ensures Valid() && slots == old(slots)[key := Slot(lease.generation, true, true)]
      ensures issued == old(issued) + {lease}
    {
      ghost var before := entries.Keys;
      issued := issued + {lease};
      entries, slots := entries[key := Entry(lease.generation, lease)],
        slots[key := Slot(lease.generation, true, true)];
      assert entries.Keys == before + {key};
    }

    method PutTombstone(key: Key, g: int)
      requires ValidBut(key) && (key in entries || |entries| < CAPACITY)
      modifies this`entries, this`slots
      ensures Valid() && slots == old(slots)[key := Slot(g, false, false)]
    {
      ghost var before := entries.Keys;
      entries, slots := entries[key := Entry(g, null)], slots[key := Slot(g, false, false)];
      assert entries.Keys == before + {key};
    }

    /** Replace the stored entry of a key, whose old lease was cancelled. */
    method Store(key: Key, g: int, waiting: bool) returns (r: Answer)
      requires ValidBut(key) && (key in entries || |entries| < CAPACITY)
      modifies this`entries, this`slots, this`issued
      ensures Valid() && old(issued) <= issued
      ensures slots == old(slots)[key := Slot(g, waiting, waiting)]
      ensures if waiting then r.Granted? && fresh(r.lease) && Handed(r.lease, key, g) else r == Answer.NoLease
      ensures issued == old(issued) + if waiting then {r.lease} else {}
    {
      hide Valid, ValidBut;
      if waiting {
        var l := new Lease(key, g);
        PutLease(key, l);
        r := Granted(l);
      } else {
        PutTombstone(key, g);
        r := Answer.NoLease;
      }
    }

    /** The decision on the purged table. */
    method Admit(key: Key, g: int, waiting: bool, resume: bool, now: int) returns (r: Answer)
      requires Valid()
      modifies this`entries, this`slots, this`issued, issued
      ensures Valid() && old(issued) <= issued
      ensures r == Cancelled <==> Refuses(old(slots), startedAt, key, g, waiting, resume, now)
      ensures slots == if r == Cancelled then old(slots) else old(slots)[key := Slot(g, waiting, waiting)]
      ensures r != Cancelled ==> r.Granted? == waiting
      ensures r.Granted? ==> Handed(r.lease, key, g)
      ensures r.Granted? ==>
        (if Continues(old(slots), key, g, waiting) then key in old(entries) && r.lease == old(entries)[key].lease
         else fresh(r.lease))
      ensures forall l :: l in old(issued) && old(l.cancelled) ==> l.cancelled
      ensures forall l :: l in issued && l !in old(issued) ==> r == Granted(l)
    {
      hide Valid, ValidBut;
      EntryFacts(key);
      var entry := if key in entries then entries[key] else Entry(0, null);
      var previous, lease := entry.generation, entry.lease;
      if g < Max(now - LEASE, startedAt) || g < previous {
        return Cancelled;
      }
      if waiting && g == previous {
        if lease == null || !resume || lease.running {
          return Cancelled;
        }
        Continue(key);
        return Granted(lease);
      }
      if resume && (g != previous || lease == null) {
        return Cancelled;
      }
      if key !in entries && |entries| >= CAPACITY {
        return Cancelled;
      }
      if lease != null {
        Wake(key);
      } else {
        NothingToWake(key);
      }
      r := Store(key, g, waiting);
    }

    ghost predicate Matches(r: Answer, reply: Reply, key: Key) reads this`issued, issued {
      match r
      case Cancelled => reply == Refused
      case NoLease => reply == Reply.NoLease
      case Granted(l) =>
        && l in issued && Handed(l, key, l.generation)
        && reply in {Created(l.generation), Resumed(l.generation)}
    }

    method Apply(key: Key, generation: Option<int>, waiting: bool, resume: bool, now: int) returns (r: Answer)
      requires Valid()
      modifies this, issued
      ensures Valid() && old(issued) <= issued
      ensures View() == Step(old(View()), now, Call.Apply(key, generation, waiting, resume)).0
      ensures Matches(r, Step(old(View()), now, Call.Apply(key, generation, waiting, resume)).1, key)
      ensures r.Granted? ==>
        (if Step(old(View()), now, Call.Apply(key, generation, waiting, resume)).1.Resumed?
         then key in old(entries) && r.lease == old(entries)[key].lease else fresh(r.lease))
      ensures forall l :: l in old(issued) && old(l.cancelled) ==> l.cancelled
      ensures forall l :: l in issued && l !in old(issued) ==> r == Granted(l)
    {
      hide Valid, Shows, Refuses, Purged;
      var cutoff := now - LEASE;
      Purge(cutoff);
      var previous := 0;
      if key in entries {
        previous := entries[key].generation;
      }
      assert previous == Previous(slots, key) by { EntryFacts(key); }
      var g := if generation.Some? then generation.value else Max(now, Max(lastGeneration + 1, previous + 1));
      lastGeneration := Max(g, lastGeneration);
      r := Admit(key, g, waiting, resume, now);
    }

    /** A wait ends: only the stored lease leaves a tombstone. */
    method Finish(key: Key, lease: Lease)
      requires Valid() && lease in issued && lease.key == key
      modifies this`entries, this`slots, lease
      ensures Valid() && lease.cancelled
      ensures View() ==
        if old(lease.cancelled) then old(View()) else Step(old(View()), 0, Call.Finish(key, lease.generation)).0
    {
      if key in entries && entries[key] == Entry(lease.generation, lease) {
        entries, slots := entries[key := Entry(lease.generation, null)],
          slots[key := Slot(lease.generation, false, false)];
        lease.cancelled := true;
      }
    }

    /** The call that used the lease is over; a heartbeat may pick it up again. */
    method Rest(lease: Lease)
      requires Valid() && lease in issued
      modifies this`slots, lease
      ensures Valid() && lease.cancelled == old(lease.cancelled)
      ensures View() ==
        if lease.cancelled then old(View()) else Step(old(View()), 0, Call.Rest(lease.key, lease.generation)).0
    {
      if !lease.cancelled {
        slots := slots[lease.key := slots[lease.key].(running := false)];
      }
      lease.running := false;
    }
  }
}
