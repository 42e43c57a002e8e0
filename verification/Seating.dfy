/** Seats of a room, as the framework and the settlement code read them. */
module Seating {
  import opened Common

  datatype Activity = Playing | Inactive | Eliminated | Skipped

  datatype Join = Joined | Left | Invited

  datatype Participant = Participant(
    player: string, seatIndex: int, human: bool, systemNpc: bool,
    active: bool, activity: Activity, join: Join)

  /** The wallet owner behind a seat: the player id under the seat's role. */
  function Owner(p: Participant): Subject {
    if p.human then Human(p.player) else Ai(p.player)
  }

  ghost predicate Distinct(ps: seq<Participant>) {
    forall i, j :: 0 <= i < j < |ps| ==> ps[i].player != ps[j].player
  }

  function Players(ps: seq<Participant>): set<string> {
    set p | p in ps :: p.player
  }

  ghost predicate BySeat(ps: seq<Participant>) {
    forall i, j :: 0 <= i < j < |ps| ==> ps[i].seatIndex <= ps[j].seatIndex
  }

  /** Stable insertion behind every participant of the same or a lower seat. */
  function Seated(ps: seq<Participant>, p: Participant): seq<Participant> {
    if ps == [] || ps[|ps| - 1].seatIndex <= p.seatIndex then ps + [p]
    else Seated(ps[..|ps| - 1], p) + [ps[|ps| - 1]]
  }

  /** sorted(participants, key=seat_index). */
  function Sorted(ps: seq<Participant>): seq<Participant> {
    if ps == [] then [] else Seated(Sorted(ps[..|ps| - 1]), ps[|ps| - 1])
  }

  lemma {:induction false} SeatedIsInsertion(ps: seq<Participant>, p: Participant)
    ensures multiset(Seated(ps, p)) == multiset(ps) + multiset{p}
  {
    if ps == [] || ps[|ps| - 1].seatIndex <= p.seatIndex {
    } else {
      SeatedIsInsertion(ps[..|ps| - 1], p);
      assert ps == ps[..|ps| - 1] + [ps[|ps| - 1]];
    }
  }

  lemma SeatedMembers(ps: seq<Participant>, p: Participant)
    ensures forall q :: q in Seated(ps, p) ==> q in ps || q == p
  {
    SeatedIsInsertion(ps, p);
    forall q | q in Seated(ps, p) ensures q in ps || q == p {
      assert q in multiset(Seated(ps, p));
    }
  }

  lemma {:induction false} SeatedInOrder(ps: seq<Participant>, p: Participant)
    requires BySeat(ps)
    ensures BySeat(Seated(ps, p))
  {
    if ps == [] || ps[|ps| - 1].seatIndex <= p.seatIndex {
    } else {
      var front, last := ps[..|ps| - 1], ps[|ps| - 1];
      SeatedInOrder(front, p);
      SeatedMembers(front, p);
      var r := Seated(front, p);
      forall i | 0 <= i < |r| ensures r[i].seatIndex <= last.seatIndex {
        assert r[i] in front || r[i] == p;
      }
    }
  }

  /** The seat order is a permutation of the table, in non-decreasing seats. */
  lemma {:induction false} SortedIsSeatOrder(ps: seq<Participant>)
    ensures BySeat(Sorted(ps)) && multiset(Sorted(ps)) == multiset(ps) && |Sorted(ps)| == |ps|
  {
    if ps != [] {
      var front, last := ps[..|ps| - 1], ps[|ps| - 1];
      SortedIsSeatOrder(front);
      SeatedIsInsertion(Sorted(front), last);
      SeatedInOrder(Sorted(front), last);
      assert ps == front + [last];
    }
    assert |multiset(Sorted(ps))| == |multiset(ps)|;
  }

  lemma SortedMembers(ps: seq<Participant>)
    ensures forall p :: p in Sorted(ps) <==> p in ps
    ensures Players(Sorted(ps)) == Players(ps)
  {
    SortedIsSeatOrder(ps);
    forall p ensures p in Sorted(ps) <==> p in ps {
      assert p in Sorted(ps) <==> p in multiset(Sorted(ps));
      assert p in ps <==> p in multiset(ps);
    }
  }

  lemma {:induction false} SeatedDistinct(ps: seq<Participant>, p: Participant)
    requires BySeat(ps) && Distinct(ps) && p.player !in Players(ps)
    ensures Distinct(Seated(ps, p))
  {
    if ps == [] || ps[|ps| - 1].seatIndex <= p.seatIndex {
      forall i | 0 <= i < |ps| ensures ps[i].player != p.player {
        assert ps[i].player in Players(ps);
      }
    } else {
      var front, last := ps[..|ps| - 1], ps[|ps| - 1];
      assert forall q :: q in front ==> q in ps;
      SeatedDistinct(front, p);
      SeatedMembers(front, p);
      var r := Seated(front, p);
      forall i | 0 <= i < |r| ensures r[i].player != last.player {
        assert r[i] in front || r[i] == p;
        assert last.player in Players(ps);
      }
    }
  }

  lemma {:induction false} SortedDistinct(ps: seq<Participant>)
    requires Distinct(ps)
    ensures Distinct(Sorted(ps))
  {
    if ps != [] {
      var front, last := ps[..|ps| - 1], ps[|ps| - 1];
      SortedDistinct(front);
      SortedIsSeatOrder(front);
      SortedMembers(front);
      SeatedDistinct(Sorted(front), last);
    }
  }
}
