/** Whose turn comes next (app/framework.py, advance_turn). */
module TurnRotation {
  import opened Common
  import opened Seating

  datatype TurnError = NobodyEligible | NomineeNotEligible

  datatype Outcome = Turn(player: string) | Refused(error: TurnError)

  predicate Eligible(p: Participant, skipped: set<string>) {
    p.active && p.activity == Playing && p.join == Joined && p.player !in skipped
  }

  /** Eligible seats, in order. */
  function Eligibles(seats: seq<Participant>, skipped: set<string>): seq<Participant> {
    if seats == [] then []
    else
      var last := seats[|seats| - 1];
      Eligibles(seats[..|seats| - 1], skipped) + (if Eligible(last, skipped) then [last] else [])
  }

  function EligibleIds(ps: seq<Participant>, skipped: set<string>): set<string> {
    set p | p in ps && Eligible(p, skipped) :: p.player
  }

  /** First seat of a player, or -1. */
  function SeatOf(seats: seq<Participant>, player: string): (i: int)
    ensures -1 <= i < |seats|
    ensures i == -1 <==> player !in Players(seats)
    ensures i >= 0 ==> seats[i].player == player
  {
    if seats == [] then -1
    else if seats[0].player == player then 0
    else
      var i := SeatOf(seats[1..], player);
      assert seats == [seats[0]] + seats[1..];
      if i == -1 then -1 else i + 1
  }

  lemma Wraps(i: nat, n: nat)
    requires i < n
    ensures i % n == i && (i + n) % n == i
  {
  }

  /** k % n, for a k less than two rounds on. */
  function Around(k: nat, n: nat): (i: nat)
    requires k < 2 * n
    ensures i == if k < n then k else k - n
  {
    Wraps(if k < n then k else k - n, n);
    k % n
  }

  /** The seat `offset` places after `from`, round the table. */
  function SeatAfter(seats: seq<Participant>, from: int, offset: int): Participant
    requires -1 <= from < |seats| && 1 <= offset <= |seats|
  {
    seats[Around(from + offset, |seats|)]
  }

  /** `offset` seats on from `from`, and every seat between them is passed over. */
  ghost predicate FirstEligible(seats: seq<Participant>, ids: set<string>, from: int, offset: int) {
    && -1 <= from < |seats| && 1 <= offset <= |seats|
    && SeatAfter(seats, from, offset).player in ids
    && forall o :: 1 <= o < offset ==> SeatAfter(seats, from, o).player !in ids
  }

  /** Some offset always reaches an eligible seat. */
  lemma SomeoneIsReached(seats: seq<Participant>, ids: set<string>, from: int, i: nat)
    requires -1 <= from < |seats| && i < |seats| && seats[i].player in ids
    ensures exists o :: 1 <= o <= |seats| && SeatAfter(seats, from, o).player in ids
  {
    var o := if i > from then i - from else i - from + |seats|;
    assert SeatAfter(seats, from, o) == seats[i];
  }

  lemma FirstIsUnique(seats: seq<Participant>, ids: set<string>, from: int, a: int, b: int)
    requires FirstEligible(seats, ids, from, a) && FirstEligible(seats, ids, from, b)
    ensures a == b
  {
  }

  lemma IdsOfTable(ps: seq<Participant>, skipped: set<string>)
    ensures EligibleIds(Sorted(ps), skipped) == EligibleIds(ps, skipped)
  {
    SortedMembers(ps);
  }

  /** The eligible players, by the columns of their rows. */
  lemma IdsMean(ps: seq<Participant>, skipped: set<string>)
    ensures forall id :: id in EligibleIds(ps, skipped) <==> exists p ::
      && p in ps && p.player == id
      && p.active && p.activity == Playing && p.join == Joined && p.player !in skipped
    ensures EligibleIds(ps, skipped) == {} <==>
      forall p :: p in ps && p.active && p.activity == Playing && p.join == Joined ==> p.player in skipped
  {
    forall p | p in ps && p.active && p.activity == Playing && p.join == Joined && p.player !in skipped
      ensures p.player in EligibleIds(ps, skipped)
    {
    }
  }

  /** Whose turn follows when nobody is nominated and the turn is not retained. */
  ghost predicate Follows(ps: seq<Participant>, current: string, skipped: set<string>, next: string) {
    var seats := Sorted(ps);
    exists o :: FirstEligible(seats, EligibleIds(ps, skipped), SeatOf(seats, current), o)
                && next == SeatAfter(seats, SeatOf(seats, current), o).player
  }

  /** The player that follows is the only one. */
  lemma FollowsIsUnique(ps: seq<Participant>, current: string, skipped: set<string>, a: string, b: string)
    requires Follows(ps, current, skipped, a) && Follows(ps, current, skipped, b)
    ensures a == b
  {
    hide EligibleIds, Sorted, SeatOf;
    var seats, ids := Sorted(ps), EligibleIds(ps, skipped);
    var from := SeatOf(seats, current);
    var o :| FirstEligible(seats, ids, from, o) && a == SeatAfter(seats, from, o).player;
    var q :| FirstEligible(seats, ids, from, q) && b == SeatAfter(seats, from, q).player;
    FirstIsUnique(seats, ids, from, o, q);
  }

  method AdvanceTurn(ps: seq<Participant>, current: string, retain: bool, skipped: set<string>, nominee: Option<string>)
    returns (r: Outcome)
    ensures r.Turn? <==> EligibleIds(ps, skipped) != {} && (nominee.None? || nominee.value in EligibleIds(ps, skipped))
    ensures r == Refused(NobodyEligible) <==> EligibleIds(ps, skipped) == {}
    ensures r == Refused(NomineeNotEligible) <==>
      EligibleIds(ps, skipped) != {} && nominee.Some? && nominee.value !in EligibleIds(ps, skipped)
    ensures r.Turn? ==> exists p ::
      && p in ps && p.player == r.player
      && p.active && p.activity == Playing && p.join == Joined && p.player !in skipped
    ensures r == Refused(NobodyEligible) <==>
      forall p :: p in ps && p.active && p.activity == Playing && p.join == Joined ==> p.player in skipped
    ensures r.Turn? && nominee.Some? ==> r.player == nominee.value
    ensures r.Turn? && nominee.None? && retain && current in EligibleIds(ps, skipped) ==> r.player == current
    ensures r.Turn? && nominee.None? && !(retain && current in EligibleIds(ps, skipped)) ==>
      Follows(ps, current, skipped, r.player)
  {
    hide Eligible, Sorted, Around, Players;
    var seats := Sorted(ps);
    IdsOfTable(ps, skipped);
    IdsMean(ps, skipped);
    var ids := set p | p in seats && Eligible(p, skipped) :: p.player;
    if ids == {} {
      return Refused(NobodyEligible);
    }
    if nominee.Some? {
      if nominee.value !in ids {
        return Refused(NomineeNotEligible);
      }
      return Turn(nominee.value);
    }
    if retain && current in ids {
      return Turn(current);
    }
    var from := SeatOf(seats, current);
    assert exists i :: 0 <= i < |seats| && seats[i].player in ids by {
      var id :| id in ids;
      var p :| p in seats && Eligible(p, skipped) && p.player == id;
    }
    var offset := 1;
    while offset <= |seats|
      invariant 1 <= offset <= |seats| + 1
      invariant forall o :: 1 <= o < offset ==> SeatAfter(seats, from, o).player !in ids
    {
      var candidate := SeatAfter(seats, from, offset);
      if candidate.player in ids {
        assert FirstEligible(seats, ids, from, offset);
        return Turn(candidate.player);
      }
      offset := offset + 1;
    }
    var i :| 0 <= i < |seats| && seats[i].player in ids;
    SomeoneIsReached(seats, ids, from, i);
    assert false;
  }

  // ----- rotation -----

  lemma {:induction false} EligiblesSplit(seats: seq<Participant>, skipped: set<string>, i: nat)
    requires i < |seats|
    ensures var rank := |Eligibles(seats[..i], skipped)|;
      && rank <= |Eligibles(seats, skipped)|
      && Eligibles(seats, skipped)[..rank] == Eligibles(seats[..i], skipped)
      && (Eligible(seats[i], skipped) ==>
        rank < |Eligibles(seats, skipped)| && Eligibles(seats, skipped)[rank] == seats[i])
  {
    var front := seats[..|seats| - 1];
    if i == |front| {
    } else {
      EligiblesSplit(front, skipped, i);
      assert front[..i] == seats[..i];
    }
  }

  /** Nothing eligible in a stretch of seats: the rank does not move over it. */
  lemma {:induction false} QuietStretch(seats: seq<Participant>, skipped: set<string>, i: nat, k: nat)
    requires i <= k <= |seats|
    requires forall m :: i <= m < k ==> !Eligible(seats[m], skipped)
    ensures Eligibles(seats[..k], skipped) == Eligibles(seats[..i], skipped)
  {
    if i < k {
      QuietStretch(seats, skipped, i, k - 1);
      assert seats[..k][..k - 1] == seats[..k - 1];
    }
  }

  lemma {:induction false} EligiblesMembers(seats: seq<Participant>, skipped: set<string>)
    ensures forall p :: p in Eligibles(seats, skipped) <==> p in seats && Eligible(p, skipped)
  {
    if seats != [] {
      var front, last := seats[..|seats| - 1], seats[|seats| - 1];
      EligiblesMembers(front, skipped);
      assert seats == front + [last];
    }
  }

  /** Distinct players: eligibility by id is eligibility of the seat. */
  lemma IdsAreSeats(seats: seq<Participant>, skipped: set<string>, i: nat)
    requires Distinct(seats) && i < |seats|
    ensures seats[i].player in EligibleIds(seats, skipped) <==> Eligible(seats[i], skipped)
  {
    if seats[i].player in EligibleIds(seats, skipped) {
      var p :| p in seats && Eligible(p, skipped) && p.player == seats[i].player;
      var j :| 0 <= j < |seats| && seats[j] == p;
      assert i == j;
    }
  }

  /** The seats strictly between a seat and the one its turn goes to are idle. */
  lemma PassedOver(seats: seq<Participant>, skipped: set<string>, from: nat, o: int, m: nat)
    requires Distinct(seats) && m < |seats|
    requires FirstEligible(seats, EligibleIds(seats, skipped), from, o)
    requires if from + o < |seats| then from < m < from + o else from < m || m < from + o - |seats|
    ensures !Eligible(seats[m], skipped)
  {
    hide Distinct;
    IdsAreSeats(seats, skipped, m);
    var offset := if m > from then m - from else m + |seats| - from;
    assert SeatAfter(seats, from, offset) == seats[m];
  }

  lemma RankAfter(seats: seq<Participant>, skipped: set<string>, i: nat)
    requires i < |seats| && Eligible(seats[i], skipped)
    ensures |Eligibles(seats[..i + 1], skipped)| == |Eligibles(seats[..i], skipped)| + 1
    ensures Eligibles(seats[..0], skipped) == []
  {
    assert seats[..i + 1][..i] == seats[..i];
  }

  /** One call moves the turn to the cyclically next eligible seat. */
  lemma NextIsNextInSeatOrder(seats: seq<Participant>, skipped: set<string>, from: nat, o: int)
    requires Distinct(seats) && from < |seats| && Eligible(seats[from], skipped)
    requires FirstEligible(seats, EligibleIds(seats, skipped), from, o)
    ensures var all := Eligibles(seats, skipped); var rank := |Eligibles(seats[..from], skipped)|;
      && rank < |all| && all[rank] == seats[from]
      && all[Around(rank + 1, |all|)] == SeatAfter(seats, from, o)
  {
    hide Eligible, Distinct, EligibleIds;
    var n := |seats|;
    var to := Around(from + o, n);
    EligiblesSplit(seats, skipped, from);
    EligiblesSplit(seats, skipped, to);
    IdsAreSeats(seats, skipped, to);
    RankAfter(seats, skipped, from);
    if from + o < n {
      forall m: nat | from < m < to ensures !Eligible(seats[m], skipped) {
        PassedOver(seats, skipped, from, o, m);
      }
      QuietStretch(seats, skipped, from + 1, to);
    } else {
      forall m: nat | m < n && (from < m || m < to) ensures !Eligible(seats[m], skipped) {
        PassedOver(seats, skipped, from, o, m);
      }
      QuietStretch(seats, skipped, from + 1, n);
      assert seats[..n] == seats;
      QuietStretch(seats, skipped, 0, to);
    }
  }

  lemma SeatOfPlayer(seats: seq<Participant>, i: nat)
    requires Distinct(seats) && i < |seats|
    ensures SeatOf(seats, seats[i].player) == i
  {
    assert seats[i].player in Players(seats);
  }

  /** Everybody has a seat of their own. */
  ghost predicate OwnSeats(ps: seq<Participant>) {
    forall p, q :: p in ps && q in ps && p.seatIndex == q.seatIndex ==> p == q
  }

  lemma SeatsGrow(ps: seq<Participant>)
    requires Distinct(ps) && OwnSeats(ps)
    ensures var seats := Sorted(ps);
      && Distinct(seats) && (forall p :: p in seats <==> p in ps)
      && (forall i, j :: 0 <= i < j < |seats| ==> seats[i].seatIndex < seats[j].seatIndex)
  {
    SortedIsSeatOrder(ps);
    SortedMembers(ps);
    SortedDistinct(ps);
  }

  lemma EligibleMeans(ps: seq<Participant>, skipped: set<string>)
    ensures forall p :: Eligible(p, skipped) <==>
      p.active && p.activity == Playing && p.join == Joined && p.player !in skipped
  {
  }

  lemma SeatCount(seats: seq<Participant>, ids: set<string>, from: nat, o: int)
    requires FirstEligible(seats, ids, from, o)
    ensures from < |seats| && 1 <= o <= |seats|
    ensures Around(from + o, |seats|) == if from + o < |seats| then from + o else from + o - |seats|
    ensures SeatAfter(seats, from, o) == seats[Around(from + o, |seats|)] && SeatAfter(seats, from, o).player in ids
  {
  }

  /** An eligible seat is not passed over, whichever way round the table one counts. */
  lemma NotPassedOver(seats: seq<Participant>, skipped: set<string>, from: nat, o: int, m: nat)
    requires Distinct(seats) && m < |seats| && Eligible(seats[m], skipped)
    requires FirstEligible(seats, EligibleIds(seats, skipped), from, o)
    requires forall i, j :: 0 <= i < j < |seats| ==> seats[i].seatIndex < seats[j].seatIndex
    ensures var current, q, p := seats[from].seatIndex, SeatAfter(seats, from, o).seatIndex, seats[m].seatIndex;
      if q > current then p <= current || p >= q else q <= p <= current
  {
    hide Eligible, Distinct, EligibleIds, Around;
    SeatCount(seats, EligibleIds(seats, skipped), from, o);
    if (if from + o < |seats| then from < m < from + o else from < m || m < from + o - |seats|) {
      PassedOver(seats, skipped, from, o, m);
      assert false;
    }
  }

  lemma OffsetOf(ps: seq<Participant>, current: string, skipped: set<string>, next: string, from: nat)
    returns (o: int)
    requires Follows(ps, current, skipped, next) && SeatOf(Sorted(ps), current) == from
    ensures from < |Sorted(ps)| && 1 <= o <= |Sorted(ps)|
    ensures FirstEligible(Sorted(ps), EligibleIds(ps, skipped), from, o)
    ensures next == SeatAfter(Sorted(ps), from, o).player
  {
    var seats := Sorted(ps);
    o :| FirstEligible(seats, EligibleIds(ps, skipped), from, o) && next == SeatAfter(seats, from, o).player;
  }

  /** By seat numbers: the turn goes to the eligible player with the lowest seat above
      the current one, and to the lowest eligible seat when there is none. */
  lemma TurnGoesToNextSeat(ps: seq<Participant>, current: Participant, skipped: set<string>, next: string)
    requires Distinct(ps) && OwnSeats(ps) && current in ps && Follows(ps, current.player, skipped, next)
    ensures exists q ::
      && q in ps && q.player == next
      && q.active && q.activity == Playing && q.join == Joined && q.player !in skipped
      && forall p :: p in ps && p.active && p.activity == Playing && p.join == Joined && p.player !in skipped ==>
           if q.seatIndex > current.seatIndex
           then p.seatIndex <= current.seatIndex || p.seatIndex >= q.seatIndex
           else q.seatIndex <= p.seatIndex <= current.seatIndex
  {
    hide Eligible, Distinct, EligibleIds, Sorted, OwnSeats, Around, FirstEligible, SeatAfter, SeatOf;
    SeatsGrow(ps);
    var seats := Sorted(ps);
    IdsOfTable(ps, skipped);
    var from :| 0 <= from < |seats| && seats[from] == current;
    SeatOfPlayer(seats, from);
    var o := OffsetOf(ps, current.player, skipped, next, from);
    SeatCount(seats, EligibleIds(ps, skipped), from, o);
    var q := SeatAfter(seats, from, o);
    IdsAreSeats(seats, skipped, Around(from + o, |seats|));
    EligibleMeans(ps, skipped);
    assert q in ps && Eligible(q, skipped);
    forall p | p in ps && Eligible(p, skipped)
      ensures if q.seatIndex > current.seatIndex
              then p.seatIndex <= current.seatIndex || p.seatIndex >= q.seatIndex
              else q.seatIndex <= p.seatIndex <= current.seatIndex
    {
      var m :| 0 <= m < |seats| && seats[m] == p;
      NotPassedOver(seats, skipped, from, o, m);
    }
  }

  /** A line of calls, each starting where the previous one ended. */
  ghost predicate Rotates(ps: seq<Participant>, current: string, turns: seq<string>)
    decreases turns
  {
    turns == [] ||
    (Follows(ps, current, {}, turns[0]) && Rotates(ps, turns[0], turns[1..]))
  }

  method NextTurn(ps: seq<Participant>, current: string) returns (next: string)
    requires EligibleIds(ps, {}) != {}
    ensures Follows(ps, current, {}, next)
  {
    hide FirstEligible, Eligible, Sorted;
    var r := AdvanceTurn(ps, current, false, {}, None);
    next := r.player;
  }

  lemma SamePlace(ps: seq<Participant>, i: nat, j: nat)
    requires Distinct(ps) && i < |ps| && j < |ps| && ps[i] == ps[j]
    ensures i == j
  {
  }

  lemma {:induction false} EligiblesDistinct(seats: seq<Participant>, skipped: set<string>)
    requires Distinct(seats)
    ensures Distinct(Eligibles(seats, skipped))
  {
    if seats != [] {
      var front, last := seats[..|seats| - 1], seats[|seats| - 1];
      EligiblesDistinct(front, skipped);
      EligiblesMembers(front, skipped);
      var r := Eligibles(front, skipped);
      forall i | 0 <= i < |r| ensures r[i].player != last.player {
        assert r[i] in front;
        var j :| 0 <= j < |front| && front[j] == r[i];
        assert seats[j].player != seats[|seats| - 1].player;
      }
    }
  }

  lemma OneTurn(ps: seq<Participant>, j: nat, next: string)
    requires Distinct(ps) && j < |Eligibles(Sorted(ps), {})|
    requires Follows(ps, Eligibles(Sorted(ps), {})[j].player, {}, next)
    ensures var all := Eligibles(Sorted(ps), {}); next == all[Around(j + 1, |all|)].player
  {
    hide Eligible, Distinct, Eligibles, Sorted, EligibleIds, Players, Around;
    var seats := Sorted(ps);
    var all := Eligibles(seats, {});
    SortedDistinct(ps);
    IdsOfTable(ps, {});
    EligiblesMembers(seats, {});
    assert all[j] in seats;
    var i :| 0 <= i < |seats| && seats[i] == all[j];
    SeatOfPlayer(seats, i);
    var o :| FirstEligible(seats, EligibleIds(ps, {}), i, o) && next == SeatAfter(seats, i, o).player;
    NextIsNextInSeatOrder(seats, {}, i, o);
    EligiblesSplit(seats, {}, i);
    EligiblesDistinct(seats, {});
    SamePlace(all, |Eligibles(seats[..i], {})|, j);
  }

  /** Successive calls walk the eligible players in cyclic seat order. */
  lemma {:induction false} RotationFollowsSeats(ps: seq<Participant>, j: nat, turns: seq<string>, i: nat)
    requires Distinct(ps) && j < |Eligibles(Sorted(ps), {})|
    requires Rotates(ps, Eligibles(Sorted(ps), {})[j].player, turns) && i < |turns| && i < |Eligibles(Sorted(ps), {})|
    ensures var all := Eligibles(Sorted(ps), {}); turns[i] == all[Around(j + 1 + i, |all|)].player
    decreases i
  {
    hide Follows, Distinct, Sorted, Eligibles;
    OneTurn(ps, j, turns[0]);
    if i > 0 {
      RotationFollowsSeats(ps, Around(j + 1, |Eligibles(Sorted(ps), {})|), turns[1..], i - 1);
    }
  }

  lemma RoundDistinct(all: seq<Participant>, j: nat, turns: seq<string>)
    requires Distinct(all) && j < |all| == |turns|
    requires forall i :: 0 <= i < |turns| ==> turns[i] == (all[j + 1..] + all[..j + 1])[i].player
    ensures forall a, b :: 0 <= a < b < |turns| ==> turns[a] != turns[b]
  {
  }

  lemma RoundVisitsAll(ps: seq<Participant>, j: nat, turns: seq<string>)
    requires j < |Eligibles(Sorted(ps), {})| == |turns|
    requires var all := Eligibles(Sorted(ps), {}); forall i :: 0 <= i < |turns| ==>
      turns[i] == (all[j + 1..] + all[..j + 1])[i].player
    ensures forall id :: id in turns <==> id in EligibleIds(ps, {})
  {
    hide Eligibles, Eligible, Sorted, Players, Around;
    var all := Eligibles(Sorted(ps), {});
    var round := all[j + 1..] + all[..j + 1];
    EligiblesMembers(Sorted(ps), {});
    SortedMembers(ps);
    assert all == all[..j + 1] + all[j + 1..];
    forall id | id in turns ensures id in EligibleIds(ps, {}) {
      var i :| 0 <= i < |turns| && turns[i] == id;
      assert round[i] in all;
    }
    forall id | id in EligibleIds(ps, {}) ensures id in turns {
      var p :| p in ps && Eligible(p, {}) && p.player == id;
      assert p in all;
      assert p in round;
      var i :| 0 <= i < |round| && round[i] == p;
      assert turns[i] == id;
    }
  }

  /** A full round visits every eligible player exactly once, in seat order
      from the next one on, and ends where it began. */
  lemma FullRound(ps: seq<Participant>, j: nat, turns: seq<string>)
    requires Distinct(ps) && j < |Eligibles(Sorted(ps), {})|
    requires |turns| == |Eligibles(Sorted(ps), {})|
    requires Rotates(ps, Eligibles(Sorted(ps), {})[j].player, turns)
    ensures var all := Eligibles(Sorted(ps), {});
      && (forall i :: 0 <= i < |turns| ==> turns[i] == (all[j + 1..] + all[..j + 1])[i].player)
      && turns[|turns| - 1] == all[j].player
      && (forall a, b :: 0 <= a < b < |turns| ==> turns[a] != turns[b])
      && (forall id :: id in turns <==> id in EligibleIds(ps, {}))
  {
    hide Eligible, Distinct, Eligibles, Sorted, Rotates;
    var all := Eligibles(Sorted(ps), {});
    var round := all[j + 1..] + all[..j + 1];
    forall i: nat | i < |turns| ensures turns[i] == round[i].player {
      RotationFollowsSeats(ps, j, turns, i);
    }
    SortedDistinct(ps);
    EligiblesDistinct(Sorted(ps), {});
    RoundVisitsAll(ps, j, turns);
    RoundDistinct(all, j, turns);
  }
}
