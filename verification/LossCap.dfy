/** Proportional shares of a pool in whole chips. */
module Shares {
  function Sum(a: seq<int>): int {
    if a == [] then 0 else Sum(a[..|a| - 1]) + a[|a| - 1]
  }

  function Floors(a: seq<int>, pool: int, total: int): (r: seq<int>)
    requires total > 0
    ensures |r| == |a|
  {
    if a == [] then []
    else Floors(a[..|a| - 1], pool, total) + [pool * a[|a| - 1] / total]
  }

  lemma {:induction false} FloorAt(a: seq<int>, pool: int, total: int, i: nat)
    requires total > 0 && i < |a|
    ensures Floors(a, pool, total)[i] == pool * a[i] / total
  {
    if i < |a| - 1 {
      FloorAt(a[..|a| - 1], pool, total, i);
    }
  }

  lemma NonNegativeQuotient(x: int, total: int)
    requires x >= 0 && total > 0
    ensures x / total >= 0
  {
  }

  lemma FloorBounds(x: int, total: int)
    requires total > 0
    ensures x - total < total * (x / total) <= x
  {
  }

  lemma SumAppends(a: seq<int>, x: int)
    ensures Sum(a + [x]) == Sum(a) + x
  {
    assert (a + [x])[..|a|] == a;
  }

  /** One more for each of the first few adds as many to the sum. */
  lemma {:induction false} BumpedSum(a: seq<int>, b: seq<int>, left: int)
    requires |a| == |b| && left >= 0
    requires forall k :: 0 <= k < |a| ==> b[k] == a[k] + (if k < left then 1 else 0)
    ensures Sum(b) == Sum(a) + if left <= |a| then left else |a|
  {
    if a != [] {
      BumpedSum(a[..|a| - 1], b[..|b| - 1], left);
    }
  }

  lemma FillStep(total: int, pool: int, filled: int, asked: int, count: int, floor: int, ask: int)
    requires total * filled <= pool * asked && pool * asked - total * count <= total * filled
    requires pool * ask - total < total * floor <= pool * ask
    ensures total * (filled + floor) <= pool * (asked + ask)
    ensures pool * (asked + ask) - total * (count + 1) < total * (filled + floor)
  {
    assert total * (filled + floor) == total * filled + total * floor;
    assert pool * (asked + ask) == pool * asked + pool * ask;
    assert total * (count + 1) == total * count + total;
  }

  /** Rounding down loses less than one chip a share. */
  lemma {:induction false} FloorsAlmostFill(a: seq<int>, pool: int, total: int)
    requires total > 0
    ensures total * Sum(Floors(a, pool, total)) <= pool * Sum(a)
    ensures pool * Sum(a) - total * |a| <= total * Sum(Floors(a, pool, total))
    ensures a != [] ==> pool * Sum(a) - total * |a| < total * Sum(Floors(a, pool, total))
  {
    if a == [] {
      assert Sum(a) == 0 && Sum(Floors(a, pool, total)) == 0;
    } else {
      var front, last := a[..|a| - 1], a[|a| - 1];
      FloorsAlmostFill(front, pool, total);
      FloorBounds(pool * last, total);
      SumAppends(Floors(front, pool, total), pool * last / total);
      FillStep(total, pool, Sum(Floors(front, pool, total)), Sum(front), |front|, pool * last / total, last);
    }
  }

  lemma CancelFactor(total: int, x: int, y: int)
    requires total > 0
    ensures total * x <= total * y ==> x <= y
    ensures total * x < total * y ==> x < y
  {
  }

  /** What is left after rounding down is smaller than the number of shares, so
      one extra chip to the first few shares uses it up exactly. */
  lemma LeftoverIsSmall(a: seq<int>, pool: int)
    requires Sum(a) > 0
    ensures 0 <= pool - Sum(Floors(a, pool, Sum(a))) < |a|
  {
    var total := Sum(a);
    var filled := Sum(Floors(a, pool, total));
    FloorsAlmostFill(a, pool, total);
    CancelFactor(total, filled, pool);
    assert total * (pool - |a|) == pool * total - total * |a|;
    CancelFactor(total, pool - |a|, filled);
  }

  /** A share with its extra chip never exceeds what was asked for. */
  lemma ShareFits(ask: int, pool: int, total: int)
    requires ask > 0 && 0 <= pool <= total && 0 < total
    ensures 0 <= pool * ask / total <= ask
    ensures pool < total ==> pool * ask / total + 1 <= ask
    ensures pool == total ==> pool * ask / total == ask
  {
    FloorBounds(pool * ask, total);
    assert pool * ask >= 0;
    assert (total - pool) * ask >= 0;
    assert (total - pool) * ask == total * ask - pool * ask;
    NonNegativeQuotient(pool * ask, total);
    CancelFactor(total, pool * ask / total, ask);
    if pool == total {
      CancelFactor(total, ask - 1, pool * ask / total);
    } else {
      assert (total - pool) * ask > 0;
    }
  }
}

/** Settlement limited to what the losers can pay (app/chips.py,
    cap_available_zero_sum_deltas). */
module LossCap {
  import opened Common
  import opened Chips
  import opened Seating
  import opened Shares

  type Deltas = map<string, int>

  function At(deltas: Deltas, p: Participant): int {
    if p.player in deltas then deltas[p.player] else 0
  }

  function Total(ps: seq<Participant>, deltas: Deltas): int {
    if ps == [] then 0 else Total(ps[..|ps| - 1], deltas) + At(deltas, ps[|ps| - 1])
  }

  function Gains(ps: seq<Participant>, deltas: Deltas): int {
    if ps == [] then 0 else Gains(ps[..|ps| - 1], deltas) + Max(0, At(deltas, ps[|ps| - 1]))
  }

  function Losses(ps: seq<Participant>, deltas: Deltas): int {
    if ps == [] then 0 else Losses(ps[..|ps| - 1], deltas) + Max(0, -At(deltas, ps[|ps| - 1]))
  }

  function Winners(ps: seq<Participant>, requested: Deltas): seq<Participant> {
    if ps == [] then []
    else Winners(ps[..|ps| - 1], requested) + (if At(requested, ps[|ps| - 1]) > 0 then [ps[|ps| - 1]] else [])
  }

  function Asks(ws: seq<Participant>, requested: Deltas): (a: seq<int>)
    ensures |a| == |ws|
  {
    if ws == [] then [] else Asks(ws[..|ws| - 1], requested) + [At(requested, ws[|ws| - 1])]
  }

  lemma {:induction false} AskAt(ws: seq<Participant>, requested: Deltas, i: nat)
    requires i < |ws|
    ensures Asks(ws, requested)[i] == At(requested, ws[i])
  {
    if i < |ws| - 1 {
      AskAt(ws[..|ws| - 1], requested, i);
    }
  }

  lemma AsksAppend(ws: seq<Participant>, p: Participant, requested: Deltas)
    ensures Asks(ws + [p], requested) == Asks(ws, requested) + [At(requested, p)]
    ensures Sum(Asks(ws + [p], requested)) == Sum(Asks(ws, requested)) + At(requested, p)
  {
    assert (ws + [p])[..|ws|] == ws;
    SumAppends(Asks(ws, requested), At(requested, p));
  }

  /** The largest part of a loss a seat can bear; system NPCs lose on paper only. */
  function Bearable(wallets: map<Subject, Wallet>, p: Participant, loss: int): int {
    if p.systemNpc then loss
    else Min(loss, Max(0, if Owner(p) in wallets then wallets[Owner(p)].balance else INITIAL_BALANCE))
  }

  ghost predicate LossesCapped(ps: seq<Participant>, wallets: map<Subject, Wallet>, requested: Deltas, deltas: Deltas) {
    forall i :: 0 <= i < |ps| && At(requested, ps[i]) <= 0 ==>
      At(deltas, ps[i]) == -Bearable(wallets, ps[i], -At(requested, ps[i]))
  }

  lemma {:induction false} Nets(ps: seq<Participant>, deltas: Deltas)
    ensures Total(ps, deltas) == Gains(ps, deltas) - Losses(ps, deltas)
    ensures Gains(ps, deltas) >= 0 && Losses(ps, deltas) >= 0
  {
    if ps != [] {
      Nets(ps[..|ps| - 1], deltas);
    }
  }

  lemma {:induction false} TotalSplits(xs: seq<Participant>, ys: seq<Participant>, deltas: Deltas)
    ensures Total(xs + ys, deltas) == Total(xs, deltas) + Total(ys, deltas)
  {
    if ys == [] {
      assert xs + ys == xs;
    } else {
      assert (xs + ys)[..|xs + ys| - 1] == xs + ys[..|ys| - 1];
      TotalSplits(xs, ys[..|ys| - 1], deltas);
    }
  }

  lemma WithoutOne(qs: seq<Participant>, i: nat, deltas: Deltas)
    requires i < |qs|
    ensures multiset(qs[..i] + qs[i + 1..]) == multiset(qs) - multiset{qs[i]}
    ensures Total(qs[..i] + qs[i + 1..], deltas) + At(deltas, qs[i]) == Total(qs, deltas)
  {
    assert qs == qs[..i] + [qs[i]] + qs[i + 1..];
    TotalSplits(qs[..i], qs[i + 1..], deltas);
    TotalSplits(qs[..i] + [qs[i]], qs[i + 1..], deltas);
    assert (qs[..i] + [qs[i]])[..i] == qs[..i];
  }

  lemma {:induction false} TotalPermutes(ps: seq<Participant>, qs: seq<Participant>, deltas: Deltas)
    requires multiset(ps) == multiset(qs)
    ensures Total(ps, deltas) == Total(qs, deltas)
    decreases |ps|
  {
    if ps == [] {
      assert |multiset(qs)| == 0;
    } else {
      var n := |ps| - 1;
      assert ps[n] in multiset(qs);
      var i :| 0 <= i < |qs| && qs[i] == ps[n];
      WithoutOne(qs, i, deltas);
      WithoutOne(ps, n, deltas);
      assert ps[..n] + ps[n + 1..] == ps[..n];
      TotalPermutes(ps[..n], qs[..i] + qs[i + 1..], deltas);
    }
  }

  lemma WinnersStep(ps: seq<Participant>, requested: Deltas, deltas: Deltas)
    requires ps != []
    ensures var front, last := ps[..|ps| - 1], ps[|ps| - 1];
      Sum(Asks(Winners(ps, requested), deltas))
        == Sum(Asks(Winners(front, requested), deltas)) + (if At(requested, last) > 0 then At(deltas, last) else 0)
  {
    var front, last := ps[..|ps| - 1], ps[|ps| - 1];
    AsksAppend(Winners(front, requested), last, deltas);
    if At(requested, last) <= 0 {
      assert Winners(ps, requested) == Winners(front, requested);
    }
  }

  /** Whoever asked for something shares in what all of them asked for. */
  lemma {:induction false} WinnersAsk(ps: seq<Participant>, requested: Deltas)
    ensures Sum(Asks(Winners(ps, requested), requested)) == Gains(ps, requested)
  {
    if ps != [] {
      WinnersAsk(ps[..|ps| - 1], requested);
      WinnersStep(ps, requested, requested);
    }
  }

  lemma {:induction false} WinnersAre(ps: seq<Participant>, requested: Deltas)
    ensures forall p :: p in Winners(ps, requested) <==> p in ps && At(requested, p) > 0
  {
    if ps != [] {
      WinnersAre(ps[..|ps| - 1], requested);
      assert forall p :: p in ps <==> p in ps[..|ps| - 1] || p == ps[|ps| - 1];
    }
  }

  lemma {:induction false} WinnersDistinct(ps: seq<Participant>, requested: Deltas)
    requires Distinct(ps)
    ensures Distinct(Winners(ps, requested))
  {
    if ps != [] {
      var front, last := ps[..|ps| - 1], ps[|ps| - 1];
      WinnersDistinct(front, requested);
      WinnersAre(front, requested);
      var vs := Winners(front, requested);
      forall i | 0 <= i < |vs| ensures vs[i].player != last.player {
        assert vs[i] in front;
      }
    }
  }

  lemma {:induction false} CappedLossesShrink(ps: seq<Participant>, wallets: map<Subject, Wallet>, requested: Deltas,
      deltas: Deltas)
    requires LossesCapped(ps, wallets, requested, deltas)
    requires forall i :: 0 <= i < |ps| && At(requested, ps[i]) > 0 ==> At(deltas, ps[i]) >= 0
    ensures 0 <= Losses(ps, deltas) <= Losses(ps, requested)
  {
    if ps != [] {
      CappedLossesShrink(ps[..|ps| - 1], wallets, requested, deltas);
    }
  }

  lemma {:induction false} GainsOfWinners(ps: seq<Participant>, requested: Deltas, deltas: Deltas)
    requires forall i :: 0 <= i < |ps| ==>
      (if At(requested, ps[i]) > 0 then At(deltas, ps[i]) >= 0 else At(deltas, ps[i]) <= 0)
    ensures Gains(ps, deltas) == Sum(Asks(Winners(ps, requested), deltas))
  {
    if ps != [] {
      GainsOfWinners(ps[..|ps| - 1], requested, deltas);
      WinnersStep(ps, requested, deltas);
    }
  }

  /** Chips still to hand out once every share was rounded down. */
  function Leftover(ws: seq<Participant>, requested: Deltas, pool: int): int {
    var asks := Asks(ws, requested);
    if Sum(asks) > 0 then pool - Sum(Floors(asks, pool, Sum(asks))) else pool
  }

  ghost predicate Share(ws: seq<Participant>, requested: Deltas, deltas: Deltas, pool: int, k: nat)
    requires k < |ws|
  {
    var total := Sum(Asks(ws, requested));
    total > 0 && At(deltas, ws[k])
      == pool * At(requested, ws[k]) / total + (if k < Leftover(ws, requested, pool) then 1 else 0)
  }

  /** The k-th winner in seat order gets its proportional floor, and one chip
      more while the leftover lasts. */
  ghost predicate SharedOut(ws: seq<Participant>, requested: Deltas, deltas: Deltas, pool: int) {
    forall k :: 0 <= k < |ws| ==> Share(ws, requested, deltas, pool, k)
  }

  lemma {:induction false} WinnersPositive(ps: seq<Participant>, requested: Deltas)
    ensures Sum(Asks(Winners(ps, requested), requested)) >= |Winners(ps, requested)|
  {
    if ps != [] {
      WinnersPositive(ps[..|ps| - 1], requested);
      WinnersStep(ps, requested, requested);
    }
  }

  /** Shares and extra chips together are the pool. */
  lemma SharesSum(ws: seq<Participant>, requested: Deltas, deltas: Deltas, pool: int, total: int,
      left: int)
    requires total > 0 && left >= 0
    requires forall k :: 0 <= k < |ws| ==>
      At(deltas, ws[k]) == pool * At(requested, ws[k]) / total + (if k < left then 1 else 0)
    ensures Sum(Asks(ws, deltas)) == Sum(Floors(Asks(ws, requested), pool, total)) + Min(left, |ws|)
  {
    hide Sum, Floors, Asks, At;
    var shares, given := Floors(Asks(ws, requested), pool, total), Asks(ws, deltas);
    forall k | 0 <= k < |ws| ensures given[k] == shares[k] + (if k < left then 1 else 0) {
      AskAt(ws, deltas, k);
      AskAt(ws, requested, k);
      FloorAt(Asks(ws, requested), pool, total, k);
    }
    BumpedSum(shares, given, left);
  }

  lemma SameLosses(ps: seq<Participant>, deltas: Deltas)
    ensures Total(Sorted(ps), deltas) == Total(ps, deltas)
  {
    SortedIsSeatOrder(ps);
    TotalPermutes(Sorted(ps), ps, deltas);
  }

  lemma WholeShare(total: int, x: int)
    requires total > 0
    ensures total * x / total == x
  {
    FloorBounds(total * x, total);
    CancelFactor(total, total * x / total, x);
    assert total * (x - 1) == total * x - total;
    CancelFactor(total, x - 1, total * x / total);
  }

  lemma {:induction false} ExactFloors(a: seq<int>, total: int)
    requires total > 0
    ensures Sum(Floors(a, total, total)) == Sum(a)
  {
    if a != [] {
      ExactFloors(a[..|a| - 1], total);
      SumAppends(Floors(a[..|a| - 1], total, total), total * a[|a| - 1] / total);
      WholeShare(total, a[|a| - 1]);
    }
  }

  lemma FullPoolNoLeftover(asks: seq<int>)
    requires Sum(asks) > 0
    ensures Sum(asks) - Sum(Floors(asks, Sum(asks), Sum(asks))) == 0
  {
    ExactFloors(asks, Sum(asks));
  }

  /** A winner's share, extra chip included, lies between its proportional floor
      and what it asked for. */
  lemma WinnerBounded(ws: seq<Participant>, requested: Deltas, deltas: Deltas, pool: int, k: nat)
    requires k < |ws| && Share(ws, requested, deltas, pool, k) && At(requested, ws[k]) > 0
    requires 0 <= pool <= Sum(Asks(ws, requested))
    ensures var floor := pool * At(requested, ws[k]) / Sum(Asks(ws, requested));
      && 0 <= floor <= At(deltas, ws[k]) <= floor + 1
      && At(deltas, ws[k]) <= At(requested, ws[k])
  {
    var asks := Asks(ws, requested);
    ShareFits(At(requested, ws[k]), pool, Sum(asks));
    LeftoverIsSmall(asks, pool);
    if pool == Sum(asks) {
      FullPoolNoLeftover(asks);
    }
  }

  /** What all losers can bear together. */
  function CappedPool(ps: seq<Participant>, wallets: map<Subject, Wallet>, requested: Deltas): int {
    if ps == [] then 0
    else
      var last := ps[|ps| - 1];
      CappedPool(ps[..|ps| - 1], wallets, requested)
        + (if At(requested, last) < 0 then Bearable(wallets, last, -At(requested, last)) else 0)
  }

  lemma {:induction false} PoolFits(ps: seq<Participant>, wallets: map<Subject, Wallet>, requested: Deltas)
    ensures 0 <= CappedPool(ps, wallets, requested) <= Losses(ps, requested)
  {
    if ps != [] {
      PoolFits(ps[..|ps| - 1], wallets, requested);
    }
  }

  lemma {:induction false} PoolIsLosses(ps: seq<Participant>, wallets: map<Subject, Wallet>, requested: Deltas,
      deltas: Deltas)
    requires LossesCapped(ps, wallets, requested, deltas)
    requires forall i :: 0 <= i < |ps| && At(requested, ps[i]) > 0 ==> At(deltas, ps[i]) >= 0
    ensures Losses(ps, deltas) == CappedPool(ps, wallets, requested)
  {
    if ps != [] {
      PoolIsLosses(ps[..|ps| - 1], wallets, requested, deltas);
    }
  }

  function Positives(deltas: Deltas): Deltas {
    map k | k in deltas :: Max(0, deltas[k])
  }

  lemma {:induction false} GainsAreTotals(ps: seq<Participant>, deltas: Deltas)
    ensures Gains(ps, deltas) == Total(ps, Positives(deltas))
  {
    if ps != [] {
      GainsAreTotals(ps[..|ps| - 1], deltas);
    }
  }

  lemma GainsPermute(ps: seq<Participant>, deltas: Deltas)
    ensures Gains(Sorted(ps), deltas) == Gains(ps, deltas)
  {
    GainsAreTotals(ps, deltas);
    GainsAreTotals(Sorted(ps), deltas);
    SameLosses(ps, Positives(deltas));
  }

  /** In seat order the winners together ask for what the losers were asked to lose. */
  lemma WinnersInOrder(ps: seq<Participant>, wallets: map<Subject, Wallet>, requested: Deltas)
    requires Total(ps, requested) == 0
    ensures var ws := Winners(Sorted(ps), requested);
      && (forall p :: p in ws <==> p in ps && At(requested, p) > 0)
      && Sum(Asks(ws, requested)) >= |ws|
      && Sum(Asks(ws, requested)) == Gains(ps, requested)
      && 0 <= CappedPool(ps, wallets, requested) <= Sum(Asks(ws, requested))
  {
    SortedMembers(ps);
    WinnersAre(Sorted(ps), requested);
    WinnersAsk(Sorted(ps), requested);
    WinnersPositive(Sorted(ps), requested);
    GainsPermute(ps, requested);
    Nets(ps, requested);
    PoolFits(ps, wallets, requested);
  }

  /** Each winner gets its proportional floor or one chip more, never more than
      it asked for, and the leftover is smaller than the number of winners. */
  lemma WinnersBounded(ps: seq<Participant>, wallets: map<Subject, Wallet>, requested: Deltas, deltas: Deltas,
      p: Participant)
    requires Total(ps, requested) == 0 && p in ps && At(requested, p) > 0
    requires SharedOut(Winners(Sorted(ps), requested), requested, deltas, CappedPool(ps, wallets, requested))
    ensures var pool := CappedPool(ps, wallets, requested); var ws := Winners(Sorted(ps), requested);
      && Gains(ps, requested) > 0
      && 0 <= pool * At(requested, p) / Gains(ps, requested) <= At(deltas, p)
      && At(deltas, p) <= pool * At(requested, p) / Gains(ps, requested) + 1
      && At(deltas, p) <= At(requested, p)
      && 0 <= Leftover(ws, requested, pool) < |ws|
  {
    WinnersInOrder(ps, wallets, requested);
    var pool, ws := CappedPool(ps, wallets, requested), Winners(Sorted(ps), requested);
    assert p in ws;
    var k :| 0 <= k < |ws| && ws[k] == p;
    assert Share(ws, requested, deltas, pool, k);
    WinnerBounded(ws, requested, deltas, pool, k);
    LeftoverIsSmall(Asks(ws, requested), pool);
  }

  /** What winners receive is the whole pool. */
  lemma PoolIsPaidOut(ps: seq<Participant>, wallets: map<Subject, Wallet>, requested: Deltas, deltas: Deltas)
    requires Total(ps, requested) == 0
    requires SharedOut(Winners(Sorted(ps), requested), requested, deltas, CappedPool(ps, wallets, requested))
    ensures Sum(Asks(Winners(Sorted(ps), requested), deltas)) == CappedPool(ps, wallets, requested)
  {
    var ws, pool := Winners(Sorted(ps), requested), CappedPool(ps, wallets, requested);
    WinnersInOrder(ps, wallets, requested);
    var asks := Asks(ws, requested);
    if ws != [] {
      LeftoverIsSmall(asks, pool);
      forall k | 0 <= k < |ws|
        ensures At(deltas, ws[k])
          == pool * At(requested, ws[k]) / Sum(asks) + (if k < Leftover(ws, requested, pool) then 1 else 0)
      {
        assert Share(ws, requested, deltas, pool, k);
      }
      SharesSum(ws, requested, deltas, pool, Sum(asks), Leftover(ws, requested, pool));
    }
  }

  /** What the capped settlement guarantees when the game asked for a zero sum:
      it still sums to zero, nobody loses more than asked or than it holds. */
  lemma CappedSettlement(ps: seq<Participant>, wallets: map<Subject, Wallet>, requested: Deltas, deltas: Deltas)
    requires Total(ps, requested) == 0
    requires LossesCapped(ps, wallets, requested, deltas)
    requires SharedOut(Winners(Sorted(ps), requested), requested, deltas, CappedPool(ps, wallets, requested))
    ensures Total(ps, deltas) == 0
    ensures forall i :: 0 <= i < |ps| && ps[i].player in requested && ps[i].player in deltas ==>
      var asked, given := requested[ps[i].player], deltas[ps[i].player];
      var wallet := if ps[i].human then Human(ps[i].player) else Ai(ps[i].player);
      var holds := if wallet in wallets then wallets[wallet].balance else 200;
      && (asked == 0 ==> given == 0)
      && (asked < 0 && ps[i].systemNpc ==> given == asked)
      && (asked < 0 && !ps[i].systemNpc ==> given == -Min(-asked, Max(0, holds)))
      && (asked > 0 ==> 0 <= given <= asked)
  {
    hide SharedOut, Winners, CappedPool, Gains, Total, Losses, Sorted, Sum, Asks;
    forall i | 0 <= i < |ps| && At(requested, ps[i]) > 0 ensures At(deltas, ps[i]) >= 0 {
      WinnersBounded(ps, wallets, requested, deltas, ps[i]);
    }
    forall i | 0 <= i < |ps| && At(requested, ps[i]) > 0 ensures At(deltas, ps[i]) <= At(requested, ps[i]) {
      WinnersBounded(ps, wallets, requested, deltas, ps[i]);
    }
    PoolIsLosses(ps, wallets, requested, deltas);
    PoolIsPaidOut(ps, wallets, requested, deltas);
    SortedMembers(ps);
    var order := Sorted(ps);
    forall i | 0 <= i < |order|
      ensures if At(requested, order[i]) > 0 then At(deltas, order[i]) >= 0 else At(deltas, order[i]) <= 0
    {
      assert order[i] in ps;
    }
    GainsOfWinners(order, requested, deltas);
    GainsPermute(ps, deltas);
    Nets(ps, deltas);
  }

  lemma {:induction false} WinnersBySeat(ps: seq<Participant>, requested: Deltas)
    requires BySeat(ps)
    ensures BySeat(Winners(ps, requested))
  {
    if ps != [] {
      var front, last := ps[..|ps| - 1], ps[|ps| - 1];
      WinnersBySeat(front, requested);
      WinnersAre(front, requested);
      var ws := Winners(front, requested);
      forall i | 0 <= i < |ws| ensures ws[i].seatIndex <= last.seatIndex {
        assert ws[i] in front;
      }
    }
  }

  /** Leftover chips go round from the lowest seat: a winner that gets one leaves
      no winner on a lower seat without. */
  lemma ExtraChipsInSeatOrder(ps: seq<Participant>, wallets: map<Subject, Wallet>, requested: Deltas, deltas: Deltas,
      p: Participant, q: Participant)
    requires Total(ps, requested) == 0 && p in ps && q in ps && p.seatIndex < q.seatIndex
    requires At(requested, p) > 0 && At(requested, q) > 0
    requires SharedOut(Winners(Sorted(ps), requested), requested, deltas, CappedPool(ps, wallets, requested))
    ensures var pool, total := CappedPool(ps, wallets, requested), Gains(ps, requested);
      && total > 0
      && (At(deltas, q) > pool * At(requested, q) / total ==> At(deltas, p) == pool * At(requested, p) / total + 1)
  {
    hide Sum, Asks, Winners, CappedPool, Gains, Sorted;
    WinnersBounded(ps, wallets, requested, deltas, p);
    WinnersInOrder(ps, wallets, requested);
    SortedIsSeatOrder(ps);
    WinnersBySeat(Sorted(ps), requested);
    var ws := Winners(Sorted(ps), requested);
    var i :| 0 <= i < |ws| && ws[i] == p;
    var j :| 0 <= j < |ws| && ws[j] == q;
    assert Share(ws, requested, deltas, CappedPool(ps, wallets, requested), i);
    assert Share(ws, requested, deltas, CappedPool(ps, wallets, requested), j);
  }

  lemma {:induction false} EverythingBearable(ps: seq<Participant>, wallets: map<Subject, Wallet>, requested: Deltas)
    requires forall p :: p in ps && At(requested, p) < 0 ==>
      Bearable(wallets, p, -At(requested, p)) == -At(requested, p)
    ensures CappedPool(ps, wallets, requested) == Losses(ps, requested)
  {
    if ps != [] {
      EverythingBearable(ps[..|ps| - 1], wallets, requested);
    }
  }

  /** Where every loser holds what it was asked for, the cap changes nothing. */
  lemma AffordableIsUncapped(ps: seq<Participant>, wallets: map<Subject, Wallet>, requested: Deltas, deltas: Deltas,
      p: Participant)
    requires Total(ps, requested) == 0 && p in ps
    requires LossesCapped(ps, wallets, requested, deltas)
    requires SharedOut(Winners(Sorted(ps), requested), requested, deltas, CappedPool(ps, wallets, requested))
    requires forall q :: q in ps && At(requested, q) < 0 && !q.systemNpc ==>
      var wallet := if q.human then Human(q.player) else Ai(q.player);
      -At(requested, q) <= (if wallet in wallets then wallets[wallet].balance else 200)
    ensures At(deltas, p) == At(requested, p)
  {
    hide SharedOut, Winners, Sorted, Sum, Asks;
    EverythingBearable(ps, wallets, requested);
    Nets(ps, requested);
    if At(requested, p) > 0 {
      WinnersBounded(ps, wallets, requested, deltas, p);
      WholeShare(Gains(ps, requested), At(requested, p));
    } else {
      var i :| 0 <= i < |ps| && ps[i] == p;
    }
  }

  /** Rounded shares with one chip more for the first `remainder` winners. */
  lemma FloorsToppedUp(ws: seq<Participant>, requested: Deltas, shared: Deltas, deltas: Deltas, pool: int)
    requires Sum(Asks(ws, requested)) >= |ws|
    requires forall k :: 0 <= k < |ws| ==> At(shared, ws[k]) == pool * At(requested, ws[k]) / Sum(Asks(ws, requested))
    requires var remainder := pool - Sum(Asks(ws, shared));
      forall k :: 0 <= k < |ws| ==> At(deltas, ws[k]) == At(shared, ws[k]) + (if k < remainder then 1 else 0)
    ensures SharedOut(ws, requested, deltas, pool)
  {
    hide Sum, Asks, Floors, At;
    if ws != [] {
      var total := Sum(Asks(ws, requested));
      SharesSum(ws, requested, shared, pool, total, 0);
      assert pool - Sum(Asks(ws, shared)) == Leftover(ws, requested, pool);
    }
  }

  lemma SeatOrderWinners(ps: seq<Participant>, requested: Deltas)
    requires Distinct(ps) && requested.Keys == Players(ps)
    ensures var ws := Winners(Sorted(ps), requested);
      && Distinct(ws) && Players(ws) <= requested.Keys
      && (forall p :: p in ws <==> p in ps && At(requested, p) > 0)
      && Sum(Asks(ws, requested)) == Gains(ps, requested) >= |ws|
  {
    SortedMembers(ps);
    SortedDistinct(ps);
    WinnersAre(Sorted(ps), requested);
    WinnersDistinct(Sorted(ps), requested);
    WinnersAsk(Sorted(ps), requested);
    WinnersPositive(Sorted(ps), requested);
    GainsPermute(ps, requested);
  }

  lemma LosersUntouched(ps: seq<Participant>, wallets: map<Subject, Wallet>, requested: Deltas, capped: Deltas,
      deltas: Deltas, winners: seq<Participant>)
    requires LossesCapped(ps, wallets, requested, capped) && deltas.Keys == capped.Keys == Players(ps) && Distinct(ps)
    requires forall p :: p in winners ==> p in ps && At(requested, p) > 0
    requires forall k :: k in capped && k !in Players(winners) ==> deltas[k] == capped[k]
    ensures LossesCapped(ps, wallets, requested, deltas)
  {
    forall i | 0 <= i < |ps| && At(requested, ps[i]) <= 0 ensures At(deltas, ps[i]) == At(capped, ps[i]) {
      assert ps[i].player !in Players(winners);
      assert ps[i].player in Players(ps);
    }
  }

  function AfterCap(wallets: map<Subject, Wallet>, requested: Deltas, p: Participant): int {
    if At(requested, p) <= 0 then -Bearable(wallets, p, -At(requested, p)) else At(requested, p)
  }

  lemma AllPlayers(ps: seq<Participant>)
    ensures forall k :: 0 <= k < |ps| ==> ps[k].player in Players(ps)
  {
  }

  method CapLosses(ps: seq<Participant>, wallets: map<Subject, Wallet>, requested: Deltas) returns (deltas: Deltas)
    requires Distinct(ps) && requested.Keys == Players(ps)
    ensures deltas.Keys == requested.Keys
    ensures LossesCapped(ps, wallets, requested, deltas)
    ensures forall k :: 0 <= k < |ps| && At(requested, ps[k]) > 0 ==> At(deltas, ps[k]) == At(requested, ps[k])
  {
    hide Players;
    deltas := requested;
    AllPlayers(ps);
    for i := 0 to |ps|
      invariant deltas.Keys == requested.Keys
      invariant forall k :: 0 <= k < |ps| ==>
        At(deltas, ps[k]) == if k < i then AfterCap(wallets, requested, ps[k]) else At(requested, ps[k])
    {
      var p := ps[i];
      if deltas[p.player] < 0 && !p.systemNpc {
        var available := Max(0, if Owner(p) in wallets then wallets[Owner(p)].balance else INITIAL_BALANCE);
        var loss := -Min(-deltas[p.player], available);
        deltas := deltas[p.player := loss];
      }
    }
  }

  method SetShares(winners: seq<Participant>, requested: Deltas, before: Deltas, pool: int, total: int)
    returns (deltas: Deltas)
    requires Distinct(winners) && (winners != [] ==> total > 0)
    requires Players(winners) <= requested.Keys == before.Keys
    ensures deltas.Keys == before.Keys
    ensures forall k :: 0 <= k < |winners| ==> At(deltas, winners[k]) == pool * At(requested, winners[k]) / total
    ensures forall k :: k in before && k !in Players(winners) ==> deltas[k] == before[k]
  {
    deltas := before;
    for i := 0 to |winners|
      invariant deltas.Keys == before.Keys
      invariant forall k :: 0 <= k < i ==> At(deltas, winners[k]) == pool * At(requested, winners[k]) / total
      invariant forall k :: k in before && k !in Players(winners) ==> deltas[k] == before[k]
    {
      var pid := winners[i].player;
      assert pid in Players(winners);
      var share := pool * requested[pid] / total;
      deltas := deltas[pid := share];
    }
  }

  method TopUp(winners: seq<Participant>, before: Deltas, remainder: int) returns (deltas: Deltas)
    requires Distinct(winners) && Players(winners) <= before.Keys
    ensures deltas.Keys == before.Keys
    ensures forall k :: 0 <= k < |winners| ==>
      At(deltas, winners[k]) == At(before, winners[k]) + (if k < remainder then 1 else 0)
    ensures forall k :: k in before && k !in Players(winners) ==> deltas[k] == before[k]
  {
    deltas := before;
    var i := 0;
    while i < |winners| && i < remainder
      invariant 0 <= i <= |winners| && (i <= remainder || i == 0)
      invariant deltas.Keys == before.Keys
      invariant forall k :: 0 <= k < |winners| ==>
        At(deltas, winners[k]) == At(before, winners[k]) + (if k < i then 1 else 0)
      invariant forall k :: k in before && k !in Players(winners) ==> deltas[k] == before[k]
    {
      var pid := winners[i].player;
      assert pid in Players(winners);
      deltas := deltas[pid := deltas[pid] + 1];
      i := i + 1;
    }
  }

  /** The dictionary is rewritten in three passes: losses cut to what wallets
      hold, winners set to their rounded share, leftover chips in seat order. */
  method CapAvailableZeroSumDeltas(ps: seq<Participant>, wallets: map<Subject, Wallet>, requested: Deltas)
    returns (deltas: Deltas)
    requires Distinct(ps) && requested.Keys == Players(ps)
    ensures deltas.Keys == requested.Keys
    ensures LossesCapped(ps, wallets, requested, deltas)
    ensures SharedOut(Winners(Sorted(ps), requested), requested, deltas, CappedPool(ps, wallets, requested))
  {
    hide Winners, Sorted, Sum, Gains, Losses, Players, Distinct, LossesCapped, SharedOut, CappedPool, Asks;
    var capped := CapLosses(ps, wallets, requested);
    PoolIsLosses(ps, wallets, requested, capped);
    var pool := Losses(ps, capped);
    var total := Gains(ps, requested);
    var winners := Winners(Sorted(ps), requested);
    SeatOrderWinners(ps, requested);
    var shared := SetShares(winners, requested, capped, pool, total);
    var remainder := pool - Sum(Asks(winners, shared));
    deltas := TopUp(winners, shared, remainder);
    FloorsToppedUp(winners, requested, shared, deltas, pool);
    LosersUntouched(ps, wallets, requested, capped, deltas, winners);
  }
}
