/** Placing a new actor: the space checks (`laneHasSpaceFor`, `logLaneHasSpaceFor`,
    `critterLaneHasSpaceFor`) and the "build it and add it if there is room" step that
    both copies of GamePanel use when seeding a level and when spawning. */
module Placement {
  import opened Geometry
  import opened Actors
  import opened Spacing

  /** How a spawn step walked a table of lanes, one entry per lane boundary: before lane k
      the draws consumed stood at `pos[k]` and the lane kind's lists held `firsts[k]` and
      `seconds[k]` actors (a river has one list, counted in `firsts`). */
  datatype Walk = Walk(pos: seq<nat>, firsts: seq<nat>, seconds: seq<nat>)
  {
    /** The walk one lane further on: after that lane the draws stood at `p` and the
        lists held `first` and `second` actors. */
    function Then(p: nat, first: nat, second: nat): Walk {
      Walk(pos + [p], firsts + [first], seconds + [second])
    }

    /** The same for a lane kind with a single list. */
    function ThenOne(p: nat, first: nat): Walk {
      Walk(pos + [p], firsts + [first], seconds)
    }
  }

  /** The space check over the one or two lists a lane's actors live in: no co-lane actor's
      bounds, widened by `gap`, meet the candidate. */
  function HasSpaceFor(first: seq<Actor>, second: seq<Actor>, cand: Rect, laneY: int, band: int, gap: int): (ok: bool)
    reads set a | a in first, set a | a in second
    ensures ok <==> && (forall a | a in first && InLane(a, laneY, band) :: !Intersects(Expanded(a.Bounds(), gap), cand))
                    && (forall a | a in second && InLane(a, laneY, band) :: !Intersects(Expanded(a.Bounds(), gap), cand))
  {
    Clear(first, laneY, band, cand, gap) && Clear(second, laneY, band, cand, gap)
  }

  /** Builds the actor at (x, y) and appends it to `list` when the check of `cand` against
      `list` and `others` passes; otherwise nothing changes. */
  method AddIfSpace(kind: Kind, x: int, y: int, w: int, h: int, speed: real, cand: Rect,
                    list: seq<Actor>, others: seq<Actor>, laneY: int, band: int, gap: int)
    returns (list': seq<Actor>, added: bool)
    ensures added == HasSpaceFor(list, others, cand, laneY, band, gap)
    ensures added ==>
              |list'| == |list| + 1 && list'[..|list|] == list && fresh(list'[|list|])
              && list'[|list|].kind == kind && list'[|list|].x == x as real && list'[|list|].y == y
              && list'[|list|].w == w && list'[|list|].h == h && list'[|list|].speed == speed
    ensures !added ==> list' == list
    ensures Distinct(list) ==> Distinct(list')
  {
    added := HasSpaceFor(list, others, cand, laneY, band, gap);
    if added {
      var a := new Actor(kind, x, y, w, h, speed);
      list' := list + [a];
      assert list'[..|list|] == list;
    } else {
      list' := list;
    }
  }

  /** The space check does not depend on which of the lane's two lists comes first. */
  lemma SpaceSymmetric(first: seq<Actor>, second: seq<Actor>, cand: Rect, laneY: int, band: int, gap: int)
    ensures HasSpaceFor(first, second, cand, laneY, band, gap) == HasSpaceFor(second, first, cand, laneY, band, gap)
  {
  }

  lemma ElemsAppend(s: seq<Actor>, a: Actor)
    ensures Elems(s + [a]) == Elems(s) + {a}
  {
    assert forall o | o in s + [a] :: o in s || o == a;
  }

  /** Builds an actor at (x, y) and appends it to `list` if the space check of its
      rectangle against `list` and `others` (the lane's one or two lists) passes in the
      lane whose track is `laneY`; the lane stays spaced. */
  method PlaceInLane(kind: Kind, x: int, y: int, w: int, h: int, speed: real, laneY: int, band: int, gap: int,
                     list: seq<Actor>, others: seq<Actor>)
    returns (list': seq<Actor>, placed: bool)
    requires w > 0 && h > 0 && gap >= 0 && Distinct(list)
    requires forall a | a in Elems(list) + Elems(others) :: a.w > 0 && a.h > 0
    requires LaneSpaced(Elems(list) + Elems(others), laneY, band, gap)
    ensures Distinct(list') && list <= list' && |list'| == |list| + (if placed then 1 else 0)
    ensures placed == HasSpaceFor(list, others, Rect(x, y, w, h), laneY, band, gap)
    ensures !Occupied(Elems(list) + Elems(others), laneY, band) ==> placed
    ensures forall a | a in Elems(list') + Elems(others) :: a.w > 0 && a.h > 0
    ensures placed ==>
              && fresh(list'[|list|]) && list'[|list|].kind == kind && list'[|list|].x == x as real
              && list'[|list|].y == y && list'[|list|].w == w && list'[|list|].h == h
              && list'[|list|].speed == speed && list'[|list|].Bounds() == Rect(x, y, w, h)
    ensures LaneSpaced(Elems(list') + Elems(others), laneY, band, gap)
  {
    TruncOfInt(x);
    list', placed := AddIfSpace(kind, x, y, w, h, speed, Rect(x, y, w, h),
                                list, others, laneY, band, gap);
    if placed {
      var a := list'[|list|];
      assert list' == list + [a];
      ElemsAppend(list, a);
      assert Elems(list') + Elems(others) == (Elems(list) + Elems(others)) + {a};
      Admit(Elems(list) + Elems(others), a, laneY, band, gap);
    }
  }
}
