/** Variant A's post-motion spacing pass (`resolveLaneGaps`): the lane's actors are
    sorted along the direction of travel and each one is pushed forward until it
    clears the one before it by `gap`. */
module LaneGaps {
  import opened Geometry
  import opened Actors
  import opened Spacing

  /** The positions of the actors, as values. */
  ghost function Xs(s: seq<Actor>): (r: seq<real>)
    reads set a | a in s
    ensures |r| == |s| && forall i :: 0 <= i < |s| ==> r[i] == s[i].x
  {
    if s == [] then [] else [s[0].x] + Xs(s[1..])
  }

  /** The widths of the actors. */
  function Ws(s: seq<Actor>): (r: seq<int>)
    ensures |r| == |s| && forall i :: 0 <= i < |s| ==> r[i] == s[i].w
  {
    if s == [] then [] else [s[0].w] + Ws(s[1..])
  }

  /** One push as the source writes it: the follower is moved by the distance between
      the target and its TRUNCATED position. It always moves forward, but it may land
      one pixel short of the target. */
  function PushAsWritten(prevX: real, prevW: int, currX: real, currW: int, gap: int, right: bool): (r: real)
    ensures right ==> currX <= r && Trunc(r) >= Trunc(prevX) + prevW + gap - 1
    ensures !right ==> r <= currX && Trunc(r) + currW + gap <= Trunc(prevX) + 1
  {
    if right then
      var minX := Trunc(prevX) + prevW + gap;
      if Trunc(currX) < minX then currX + (minX - Trunc(currX)) as real else currX
    else
      var maxX := Trunc(prevX) - gap - currW;
      if Trunc(currX) > maxX then currX - (Trunc(currX) - maxX) as real else currX
  }

  /** A rightward follower at x = -50.5 behind a predecessor at x = -100 (width 80,
      gap 40) must reach x = 20, but the push as written leaves it at 19.5, whose
      bounds start at 19: one pixel inside the predecessor's widened rectangle. */
  lemma PushAsWrittenFallsShort()
    ensures Trunc(PushAsWritten(-100.0, 80, -50.5, 80, 40, true)) == 19
    ensures Trunc(-100.0) + 80 + 40 == 20
    ensures Intersects(Expanded(Rect(-100, 244, 80, 30), 40), Rect(19, 244, 80, 30))
  {
    assert Trunc(-50.5) == -50;
    assert PushAsWritten(-100.0, 80, -50.5, 80, 40, true) == 19.5;
  }

  /** A rightward push that truncation left short by a pixel lands once it takes one
      more pixel; either way the follower has moved by whole pixels. */
  lemma RightPushLands(currX: real, minX: int)
    requires Trunc(currX) < minX
    ensures var p := currX + (minX - Trunc(currX)) as real;
            var r := if Trunc(p) < minX then p + 1.0 else p;
            currX <= r && Trunc(r) >= minX && (r - currX).Floor as real == r - currX
  {
    var k := minX - Trunc(currX);
    var p := currX + k as real;
    if Trunc(p) < minX {
      WholeFloor(k + 1);
      assert p + 1.0 >= minX as real;
    } else {
      WholeFloor(k);
    }
  }

  /** The same for a leftward push, one pixel further left. */
  lemma LeftPushLands(currX: real, maxX: int)
    requires Trunc(currX) > maxX
    ensures var p := currX - (Trunc(currX) - maxX) as real;
            var r := if Trunc(p) > maxX then p - 1.0 else p;
            r <= currX && Trunc(r) <= maxX && (r - currX).Floor as real == r - currX
  {
    var k := Trunc(currX) - maxX;
    var p := currX - k as real;
    if Trunc(p) > maxX {
      WholeFloor(-k - 1);
      assert p - 1.0 <= maxX as real;
    } else {
      WholeFloor(-k);
    }
  }

  /** One push, corrected: the push as written, then one more pixel in the case where
      truncation toward zero left the follower short of the target. The follower moves
      by whole pixels, so it keeps its fraction; it differs from the push as written
      only where that one falls short. */
  function Push(prevX: real, prevW: int, currX: real, currW: int, gap: int, right: bool): (r: real)
    ensures right ==> currX <= r && Trunc(r) >= Trunc(prevX) + prevW + gap
    ensures !right ==> r <= currX && Trunc(r) + currW + gap <= Trunc(prevX)
    ensures right && Trunc(currX) >= Trunc(prevX) + prevW + gap ==> r == currX
    ensures !right && Trunc(currX) + currW + gap <= Trunc(prevX) ==> r == currX
  {
    var p := PushAsWritten(prevX, prevW, currX, currW, gap, right);
    if right then
      var minX := Trunc(prevX) + prevW + gap;
      if Trunc(currX) < minX then
        RightPushLands(currX, minX);
        if Trunc(p) < minX then p + 1.0 else p
      else p
    else
      var maxX := Trunc(prevX) - gap - currW;
      if Trunc(currX) > maxX then
        LeftPushLands(currX, maxX);
        if Trunc(p) > maxX then p - 1.0 else p
      else p
  }

  /** The corrected push moves the follower by whole pixels, so it keeps its fraction,
      and it agrees with the push as written wherever that one reaches the target. */
  lemma PushKeepsFraction(prevX: real, prevW: int, currX: real, currW: int, gap: int, right: bool)
    ensures var r := Push(prevX, prevW, currX, currW, gap, right);
            (r - currX).Floor as real == r - currX
    ensures var p := PushAsWritten(prevX, prevW, currX, currW, gap, right);
            ((right && Trunc(p) >= Trunc(prevX) + prevW + gap) ||
             (!right && Trunc(p) + currW + gap <= Trunc(prevX))) ==>
              Push(prevX, prevW, currX, currW, gap, right) == p
  {
    if right && Trunc(currX) < Trunc(prevX) + prevW + gap {
      RightPushLands(currX, Trunc(prevX) + prevW + gap);
    } else if !right && Trunc(currX) > Trunc(prevX) - gap - currW {
      LeftPushLands(currX, Trunc(prevX) - gap - currW);
    } else {
      WholeFloor(0);
    }
  }

  /** Worked pushes: an ordinary follower keeps its fraction in either direction, and
      the follower that the push as written leaves at 19.5 goes on to 20.5. */
  lemma PushExamples()
    ensures Push(0.0, 80, 100.7, 80, 40, true) == 120.7
    ensures Push(200.0, 80, 150.3, 80, 40, false) == 80.3
    ensures Push(-100.0, 80, -50.5, 80, 40, true) == 20.5
  {
    assert Trunc(100.7) == 100 && Trunc(120.7) == 120;
    assert Trunc(150.3) == 150 && Trunc(80.3) == 80;
    assert Trunc(-50.5) == -50 && Trunc(19.5) == 19;
  }

  /** The position of the `i`-th actor (in sort order) once the pass is over: the first
      stays put and each later one is pushed against its resolved predecessor. */
  function ResolvedAt(xs: seq<real>, ws: seq<int>, gap: int, right: bool, i: nat): (r: real)
    requires |xs| == |ws| && i < |xs|
    ensures i == 0 ==> r == xs[0]
    ensures right ==> r >= xs[i]
    ensures !right ==> r <= xs[i]
  {
    if i == 0 then xs[0]
    else Push(ResolvedAt(xs, ws, gap, right, i - 1), ws[i - 1], xs[i], ws[i], gap, right)
  }

  /** Every actor ends clear of EVERY actor ahead of it in sort order, not only of its
      neighbour: along a rightward lane the truncated positions climb by at least the
      width plus the gap, along a leftward lane they fall by as much. */
  lemma {:induction false} ResolvedSeparated(xs: seq<real>, ws: seq<int>, gap: int, right: bool, i: nat, j: nat)
    requires |xs| == |ws| && i < j < |xs|
    requires gap >= 0 && forall k :: 0 <= k < |ws| ==> ws[k] >= 0
    ensures right ==> Trunc(ResolvedAt(xs, ws, gap, right, j)) >= Trunc(ResolvedAt(xs, ws, gap, right, i)) + ws[i] + gap
    ensures !right ==> Trunc(ResolvedAt(xs, ws, gap, right, j)) + ws[j] + gap <= Trunc(ResolvedAt(xs, ws, gap, right, i))
  {
    if j > i + 1 {
      ResolvedSeparated(xs, ws, gap, right, i, j - 1);
    }
  }

  /** Every pair of actors placed at their resolved positions is clear by `gap`. */
  lemma ResolvedChainClear(s: seq<Actor>, xs: seq<real>, gap: int, right: bool)
    requires |xs| == |s| && gap >= 0 && forall a | a in s :: a.w >= 0
    requires forall k :: 0 <= k < |s| ==> s[k].x == ResolvedAt(xs, Ws(s), gap, right, k)
    ensures forall i, j | 0 <= i < j < |s| :: HorizontallyClear(s[i].Bounds(), s[j].Bounds(), gap)
  {
    var ws := Ws(s);
    forall i, j | 0 <= i < j < |s| ensures HorizontallyClear(s[i].Bounds(), s[j].Bounds(), gap) {
      ResolvedSeparated(xs, ws, gap, right, i, j);
    }
  }

  /** One step of the walk: `curr` is pushed against `prev` (the loop body of
      `resolveLaneGaps`, followed by the one-pixel correction of `Push`). */
  method PushFollower(prev: Actor, curr: Actor, right: bool, gap: int)
    requires prev != curr
    modifies curr
    ensures curr.x == Push(prev.x, prev.w, old(curr.x), curr.w, gap, right)
  {
    var pr := prev.Bounds();
    var cr := curr.Bounds();
    if right {
      var minX := pr.x + pr.width + gap;
      if cr.x < minX {
        curr.AddX((minX - cr.x) as real);
        if curr.Bounds().x < minX {
          curr.AddX(1.0);
        }
      }
    } else {
      var maxX := pr.x - gap - cr.width;
      if cr.x > maxX {
        curr.AddX(-(cr.x - maxX) as real);
        if curr.Bounds().x > maxX {
          curr.AddX(-1.0);
        }
      }
    }
  }

  /** The first `i` actors of `s`, which started at `xs`, stand at their resolved
      positions and the rest have not moved yet. */
  ghost predicate Followed(s: seq<Actor>, xs: seq<real>, ws: seq<int>, gap: int, right: bool, i: nat)
    reads set a | a in s
  {
    && |xs| == |s| && ws == Ws(s) && 1 <= i <= |s|
    && (forall k :: 0 <= k < i ==> s[k].x == ResolvedAt(xs, ws, gap, right, k))
    && (forall k :: i <= k < |s| ==> s[k].x == xs[k])
  }

  /** One turn of the walk: the `i`-th actor is pushed against its resolved predecessor. */
  method PushNext(s: seq<Actor>, i: nat, right: bool, gap: int, ghost xs: seq<real>, ghost ws: seq<int>)
    requires Distinct(s) && i < |s| && Followed(s, xs, ws, gap, right, i)
    modifies s[i]
    ensures Followed(s, xs, ws, gap, right, i + 1)
  {
    ghost var r := ResolvedAt(xs, ws, gap, right, i - 1);
    assert s[i - 1].x == r && s[i].x == xs[i] && ws[i - 1] == s[i - 1].w && ws[i] == s[i].w;
    PushFollower(s[i - 1], s[i], right, gap);
    assert s[i].x == ResolvedAt(xs, ws, gap, right, i);
    forall k | 0 <= k < |s| && k != i
      ensures s[k].x == old(s[k].x)
    {
      assert s[k] != s[i];
    }
  }

  /** The walk of `resolveLaneGaps` over an already sorted list: `prev` starts at the
      first actor and each later actor is pushed against it, then becomes `prev`. */
  method WalkFollowers(s: seq<Actor>, right: bool, gap: int, ghost xs: seq<real>, ghost ws: seq<int>)
    requires Distinct(s) && Followed(s, xs, ws, gap, right, 1)
    modifies set a | a in s
    ensures Followed(s, xs, ws, gap, right, |s|)
  {
    var prev := s[0];
    var i := 1;
    while i < |s|
      invariant 1 <= i <= |s| && prev == s[i - 1]
      invariant Followed(s, xs, ws, gap, right, i)
    {
      var curr := s[i];
      PushNext(s, i, right, gap, xs, ws);
      prev := curr;
      i := i + 1;
    }
  }

  /** The walk over a sorted list, with what it achieves for each actor: it ends where
      `ResolvedAt` puts it, having only moved forward, and clear of every other actor. */
  method WalkSorted(s: seq<Actor>, right: bool, gap: int)
    requires |s| > 0 && Distinct(s)
    modifies set a | a in s
    ensures forall i | 0 <= i < |s| :: s[i].x == ResolvedAt(old(Xs(s)), Ws(s), gap, right, i)
    ensures forall a | a in s :: if right then old(a.x) <= a.x else a.x <= old(a.x)
    ensures gap >= 0 && (forall a | a in s :: a.w >= 0) ==>
              forall i, j | 0 <= i < j < |s| :: HorizontallyClear(s[i].Bounds(), s[j].Bounds(), gap)
    ensures gap >= 0 && (forall a | a in s :: a.w >= 0) ==>
              forall a, b | a in s && b in s && a != b :: HorizontallyClear(a.Bounds(), b.Bounds(), gap)
  {
    ghost var xs := Xs(s);
    WalkFollowers(s, right, gap, xs, Ws(s));
    forall a | a in s
      ensures if right then old(a.x) <= a.x else a.x <= old(a.x)
    {
      var i :| 0 <= i < |s| && s[i] == a;
      assert a.x == ResolvedAt(xs, Ws(s), gap, right, i);
    }
    if gap >= 0 && forall a | a in s :: a.w >= 0 {
      ResolvedChainClear(s, xs, gap, right);
      forall a, b | a in s && b in s && a != b
        ensures HorizontallyClear(a.Bounds(), b.Bounds(), gap)
      {
        var i :| 0 <= i < |s| && s[i] == a;
        var j :| 0 <= j < |s| && s[j] == b;
        if i < j {
          assert HorizontallyClear(s[i].Bounds(), s[j].Bounds(), gap);
        } else {
          assert HorizontallyClear(s[j].Bounds(), s[i].Bounds(), gap);
        }
      }
    }
  }

  /** `resolveLaneGaps` (with the corrected push). Returns the order in which the
      actors were walked: the list itself when it has fewer than two actors, the
      list sorted along the lane otherwise. Each actor ends where `ResolvedAt` puts it,
      so the first never moves, the others only move forward, and every pair ends
      clear by `gap`. */
  method ResolveLaneGaps(list: seq<Actor>, right: bool, gap: int) returns (ghost order: seq<Actor>)
    requires Distinct(list)
    modifies set a | a in list
    ensures order == if |list| < 2 then list else old(SortByX(list, right))
    ensures multiset(order) == multiset(list) && Distinct(order)
    ensures forall a | a in order :: a in list
    ensures forall i | 0 <= i < |order| :: order[i].x == ResolvedAt(old(Xs(order)), Ws(order), gap, right, i)
    ensures forall a | a in list :: if right then old(a.x) <= a.x else a.x <= old(a.x)
    ensures gap >= 0 && (forall a | a in list :: a.w >= 0) ==>
              forall i, j | 0 <= i < j < |order| :: HorizontallyClear(order[i].Bounds(), order[j].Bounds(), gap)
    ensures gap >= 0 && (forall a | a in list :: a.w >= 0) ==>
              forall a, b | a in list && b in list && a != b :: HorizontallyClear(a.Bounds(), b.Bounds(), gap)
  {
    if |list| < 2 {
      order := list;
      if gap >= 0 && forall a | a in list :: a.w >= 0 {
        ResolvedChainClear(list, Xs(list), gap, right);
      }
      return;
    }
    var s := SortByX(list, right);
    PermutationFacts(list, s);
    order := s;
    WalkSorted(s, right, gap);
  }
}
