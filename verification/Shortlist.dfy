/** Which of many legal actions an NPC is shown (app/npc_controller.py, _shortlist_indices). */
module Shortlist {
  import opened Common

  // The chosen indices are kept as the sorted list the source sorts them into.

  function Gap(s: seq<int>, i: nat): int
    requires i + 1 < |s|
  {
    s[i + 1] - s[i]
  }

  /** The leftmost of the widest gaps. */
  ghost predicate Widest(s: seq<int>, w: nat) {
    && w + 1 < |s|
    && (forall i: nat :: i + 1 < |s| ==> Gap(s, i) <= Gap(s, w))
    && (forall i: nat :: i < w ==> Gap(s, i) < Gap(s, w))
  }

  function Midpoint(s: seq<int>, w: nat): int
    requires w + 1 < |s|
  {
    (s[w] + s[w + 1]) / 2
  }

  function Bisected(s: seq<int>, w: nat): seq<int>
    requires w + 1 < |s|
  {
    s[..w + 1] + [Midpoint(s, w)] + s[w + 1..]
  }

  /** `list` is the shortlist of `limit` out of `total`: two ends, then one
      bisection of the widest gap for every further place. */
  ghost predicate IsShortlist(total: nat, limit: nat, list: seq<int>)
    decreases limit
  {
    if limit <= 2 then list == [0, total - 1]
    else exists shorter, w ::
      IsShortlist(total, limit - 1, shorter) && Widest(shorter, w) && Gap(shorter, w) >= 2
        && list == Bisected(shorter, w)
  }

  /** No gap is wider than twice any other plus one. */
  ghost predicate Even(s: seq<int>) {
    forall i: nat, j: nat :: i + 1 < |s| && j + 1 < |s| ==> Gap(s, i) <= 2 * Gap(s, j) + 1
  }

  /** What the bisection keeps at every length. */
  ghost predicate Spread(total: nat, limit: nat, list: seq<int>) {
    && |list| == limit && limit >= 2 && Increasing(list)
    && list[0] == 0 && list[limit - 1] == total - 1
    && Even(list)
  }

  lemma WidestIsUnique(s: seq<int>, a: nat, b: nat)
    requires Widest(s, a) && Widest(s, b)
    ensures a == b
  {
    assert Gap(s, a) <= Gap(s, b) <= Gap(s, a);
  }

  lemma BisectionGaps(s: seq<int>, w: nat)
    requires w + 1 < |s| && Increasing(s) && Gap(s, w) >= 2
    ensures var t := Bisected(s, w);
      && (forall i: nat :: i < w ==> Gap(t, i) == Gap(s, i))
      && Gap(t, w) == Gap(s, w) / 2 && Gap(t, w + 1) == Gap(s, w) - Gap(s, w) / 2
      && (forall i: nat :: w + 1 < i && i + 1 < |t| ==> Gap(t, i) == Gap(s, i - 1))
  {
  }

  /** A gap after the bisection: at most the widest, and at least half of it. */
  lemma BisectedGap(s: seq<int>, w: nat, i: nat)
    requires Increasing(s) && Even(s) && Widest(s, w) && Gap(s, w) >= 2 && i < |s|
    ensures Gap(Bisected(s, w), i) <= Gap(s, w) <= 2 * Gap(Bisected(s, w), i) + 1
  {
    hide Gap, Increasing;
    BisectionGaps(s, w);
    if i < w {
      assert Gap(s, w) <= 2 * Gap(s, i) + 1;
    } else if i > w + 1 {
      assert Gap(s, w) <= 2 * Gap(s, i - 1) + 1;
    }
  }

  lemma BisectionIsEven(s: seq<int>, w: nat)
    requires Increasing(s) && Even(s) && Widest(s, w) && Gap(s, w) >= 2
    ensures Even(Bisected(s, w))
  {
    var t := Bisected(s, w);
    BisectionGaps(s, w);
    forall i: nat, j: nat | i + 1 < |t| && j + 1 < |t| ensures Gap(t, i) <= 2 * Gap(t, j) + 1 {
      BisectedGap(s, w, i);
      BisectedGap(s, w, j);
    }
  }

  lemma BisectionSpreads(total: nat, s: seq<int>, w: nat)
    requires |s| >= 2 && Spread(total, |s|, s) && Widest(s, w) && Gap(s, w) >= 2
    ensures Spread(total, |s| + 1, Bisected(s, w))
  {
    BisectionIsEven(s, w);
  }

  /** A list with room left has a gap to bisect: the loop never gives up early. */
  lemma {:induction false} UnitGapsAreFull(s: seq<int>, i: nat)
    requires i < |s| && s[0] == 0 && Increasing(s)
    requires forall k: nat :: k + 1 < |s| ==> Gap(s, k) <= 1
    ensures s[i] == i
  {
    if i > 0 {
      UnitGapsAreFull(s, i - 1);
      assert Gap(s, i - 1) <= 1;
    }
  }

  lemma RoomMeansAGap(total: nat, s: seq<int>, w: nat)
    requires |s| >= 2 && Spread(total, |s|, s) && |s| < total && Widest(s, w)
    ensures Gap(s, w) >= 2
  {
    if Gap(s, w) <= 1 {
      UnitGapsAreFull(s, |s| - 1);
      assert false;
    }
  }

  lemma {:induction false} ShortlistIsSpread(total: nat, limit: nat, list: seq<int>)
    requires 2 <= limit <= total && IsShortlist(total, limit, list)
    ensures Spread(total, limit, list)
    decreases limit
  {
    if limit > 2 {
      var shorter, w :| IsShortlist(total, limit - 1, shorter) && Widest(shorter, w) && Gap(shorter, w) >= 2
        && list == Bisected(shorter, w);
      ShortlistIsSpread(total, limit - 1, shorter);
      BisectionSpreads(total, shorter, w);
    }
  }

  lemma {:induction false} ShortlistIsUnique(total: nat, limit: nat, a: seq<int>, b: seq<int>)
    requires IsShortlist(total, limit, a) && IsShortlist(total, limit, b)
    ensures a == b
    decreases limit
  {
    if limit > 2 {
      var s, v :| IsShortlist(total, limit - 1, s) && Widest(s, v) && Gap(s, v) >= 2 && a == Bisected(s, v);
      var t, w :| IsShortlist(total, limit - 1, t) && Widest(t, w) && Gap(t, w) >= 2 && b == Bisected(t, w);
      ShortlistIsUnique(total, limit - 1, s, t);
      WidestIsUnique(s, v, w);
    }
  }

  /** Every longer shortlist contains every shorter one. */
  lemma {:induction false} LongerContainsShorter(total: nat, few: nat, many: nat, short: seq<int>, long: seq<int>)
    requires 2 <= few <= many && IsShortlist(total, few, short) && IsShortlist(total, many, long)
    ensures forall x :: x in short ==> x in long
    decreases many
  {
    if few == many {
      ShortlistIsUnique(total, few, short, long);
    } else {
      var s, w :| IsShortlist(total, many - 1, s) && Widest(s, w) && Gap(s, w) >= 2 && long == Bisected(s, w);
      LongerContainsShorter(total, few, many - 1, short, s);
      assert s == s[..w + 1] + s[w + 1..];
    }
  }

  lemma OnlyGap(total: nat, three: seq<int>)
    requires total > 4 && IsShortlist(total, 3, three)
    ensures three == [0, (total - 1) / 2, total - 1]
  {
    var s, w :| IsShortlist(total, 2, s) && Widest(s, w) && Gap(s, w) >= 2 && three == Bisected(s, w);
    assert s == [0, total - 1] && w == 0;
  }

  lemma LastBisection(total: nat, limit: nat, list: seq<int>) returns (shorter: seq<int>, w: nat)
    requires limit > 2 && IsShortlist(total, limit, list)
    ensures IsShortlist(total, limit - 1, shorter) && Widest(shorter, w) && w + 1 < |shorter|
    ensures list == Bisected(shorter, w)
  {
    shorter, w :| IsShortlist(total, limit - 1, shorter) && Widest(shorter, w) && Gap(shorter, w) >= 2
      && list == Bisected(shorter, w);
  }

  lemma WiderHalf(end: nat, s: seq<int>, w: nat)
    requires s == [0, end / 2, end] && Widest(s, w)
    ensures w == if end % 2 == 0 then 0 else 1
  {
    assert Gap(s, 0) == end / 2 && Gap(s, 1) == end - end / 2;
  }

  lemma HalfBisected(end: nat, s: seq<int>)
    requires s == [0, end / 2, end]
    ensures Bisected(s, 0) == [0, end / 2 / 2, end / 2, end]
    ensures Bisected(s, 1) == [0, end / 2, (end / 2 + end) / 2, end]
  {
    assert s[..1] == [0] && s[1..] == [end / 2, end];
    assert s[..2] == [0, end / 2] && s[2..] == [end];
  }

  /** The first two bisections in numbers: the middle rounded down, and then the left
      half when both are as wide, the right half when it is wider. */
  lemma FirstBisections(total: nat, three: seq<int>, four: seq<int>)
    requires total > 4 && IsShortlist(total, 3, three) && IsShortlist(total, 4, four)
    ensures var end := total - 1; var middle := end / 2;
      && three == [0, middle, end]
      && four == if end % 2 == 0 then [0, middle / 2, middle, end] else [0, middle, (middle + end) / 2, end]
  {
    hide IsShortlist, Widest, Bisected, Gap;
    OnlyGap(total, three);
    var s, w := LastBisection(total, 4, four);
    OnlyGap(total, s);
    WiderHalf(total - 1, s, w);
    HalfBisected(total - 1, s);
  }

  /** max over the gaps, the smallest left end winning ties. */
  method WidestGap(s: seq<int>) returns (w: nat)
    requires |s| >= 2
    ensures Widest(s, w)
  {
    w := 0;
    for i := 1 to |s| - 1
      invariant w < i
      invariant forall k: nat :: k < i ==> Gap(s, k) <= Gap(s, w)
      invariant forall k: nat :: k < w ==> Gap(s, k) < Gap(s, w)
    {
      if Gap(s, i) > Gap(s, w) {
        w := i;
      }
    }
  }

  method ShortlistIndices(total: nat, limit: int) returns (list: seq<int>)
    ensures total <= limit ==> |list| == total && forall i :: 0 <= i < total ==> list[i] == i
    ensures limit < total && limit <= 1 ==> list == [0]
    ensures 2 <= limit < total ==> IsShortlist(total, limit, list) && Spread(total, limit, list)
  {
    if total <= limit {
      return seq(total, i => i);
    }
    if limit <= 1 {
      return [0];
    }
    list := [0, total - 1];
    while |list| < limit
      invariant 2 <= |list| <= limit
      invariant IsShortlist(total, |list|, list) && Spread(total, |list|, list)
    {
      var w := WidestGap(list);
      RoomMeansAGap(total, list, w);
      if Gap(list, w) <= 1 {
        assert false;
        break;
      }
      BisectionSpreads(total, list, w);
      list := Bisected(list, w);
    }
  }
}
