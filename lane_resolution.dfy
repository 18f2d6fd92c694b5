/** The lane-wide spacing pass after motion: for every lane of a table in turn, the
    actors of the lane's one or two lists that lie in its band are gathered and handed
    to the lane resolver in the lane's direction. Variant A runs it over road and
    critter lanes (`resolveVehicleGaps`, `resolveCritterGaps`: band TILE/2 around the
    lane's y); variant B over road lanes only (band |y - (lane.y + 5)| <= 2). */
module LaneResolution {
  import opened Board
  import opened Geometry
  import opened Actors
  import opened Spacing
  import opened Lanes
  import opened LaneGaps

  /** The state after the first `j` lanes are resolved, against the positions `x0` before
      any of them: those lanes are spaced, their actors have only moved forward, and
      actors in none of them are where they were. */
  ghost predicate ResolvedUpTo(lanes: seq<Lane>, j: int, pool: set<Actor>, x0: map<Actor, real>,
                               off: int, band: int, gap: int)
    requires 0 <= j <= |lanes| && forall a | a in pool :: a in x0
    reads pool
  {
    SpacedUpTo(lanes, j, pool, off, band, gap) && ForwardUpTo(lanes, j, pool, x0, off, band)
    && UnmovedBeyond(lanes, j, pool, x0, off, band)
  }

  /** Lanes 0..j-1 are spaced. */
  ghost predicate SpacedUpTo(lanes: seq<Lane>, j: int, pool: set<Actor>, off: int, band: int, gap: int)
    requires 0 <= j <= |lanes|
    reads pool
  {
    forall k | 0 <= k < j :: LaneSpaced(pool, lanes[k].y + off, band, gap)
  }

  /** The actors of lanes 0..j-1 have only moved forward from `x0`. */
  ghost predicate ForwardUpTo(lanes: seq<Lane>, j: int, pool: set<Actor>, x0: map<Actor, real>, off: int, band: int)
    requires 0 <= j <= |lanes| && forall a | a in pool :: a in x0
    reads pool
  {
    forall k, a | 0 <= k < j && a in pool && InLane(a, lanes[k].y + off, band) ::
      if lanes[k].Rightward() then x0[a] <= a.x else a.x <= x0[a]
  }

  /** The actors in none of lanes 0..j-1 stand at `x0`. */
  ghost predicate UnmovedBeyond(lanes: seq<Lane>, j: int, pool: set<Actor>, x0: map<Actor, real>, off: int, band: int)
    requires 0 <= j <= |lanes| && forall a | a in pool :: a in x0
    reads pool
  {
    forall a | a in pool && (forall k | 0 <= k < j :: !InLane(a, lanes[k].y + off, band)) :: a.x == x0[a]
  }

  /** The lane's actors in the order the resolver walks them: those of `first` in the
      lane, then those of `second`, sorted along the lane's direction by their positions
      in `x0` once there are two or more. */
  ghost function SortedLane(first: seq<Actor>, second: seq<Actor>, laneY: int, band: int, right: bool,
                            x0: map<Actor, real>): seq<Actor>
    requires Keyed(first, x0) && Keyed(second, x0)
  {
    var list := InLaneOf(first, laneY, band) + InLaneOf(second, laneY, band);
    if |list| < 2 then list else SortAt(list, x0, right)
  }

  /** The positions `x0` records for the actors of `s`, in order. */
  function StartsIn(s: seq<Actor>, x0: map<Actor, real>): (r: seq<real>)
    requires forall a | a in s :: a in x0
    ensures |r| == |s| && forall i | 0 <= i < |s| :: r[i] == x0[s[i]]
  {
    seq(|s|, i requires 0 <= i < |s| => x0[s[i]])
  }

  /** Lane `k` was walked in `order`: its actors are the lane's, and each stands where
      the walk over their positions in `x0` puts it. */
  ghost predicate LaneWalked(lanes: seq<Lane>, k: int, pool: set<Actor>, x0: map<Actor, real>,
                             off: int, band: int, gap: int, order: seq<Actor>)
    requires 0 <= k < |lanes|
    reads set a | a in order
  {
    && (forall a | a in order :: a in pool && a in x0 && InLane(a, lanes[k].y + off, band))
    && forall i | 0 <= i < |order| ::
         order[i].x == ResolvedAt(StartsIn(order, x0), Ws(order), gap, lanes[k].Rightward(), i)
  }

  /** Each of the first `|orders|` lanes was walked in its entry of `orders`, which is
      its entry of `sorted`. */
  ghost predicate LanesWalked(lanes: seq<Lane>, pool: set<Actor>, x0: map<Actor, real>,
                              off: int, band: int, gap: int, orders: seq<seq<Actor>>, sorted: seq<seq<Actor>>)
    requires |orders| <= |lanes| && |orders| <= |sorted|
    reads set o, a | o in orders && a in o :: a
  {
    forall k | 0 <= k < |orders| :: orders[k] == sorted[k] && LaneWalked(lanes, k, pool, x0, off, band, gap, orders[k])
  }

  /** One turn of the pass, as the lemmas about it take it: the table, the turn `j`, the
      actors and their starting positions, the track offset, band and gap, the walks so
      far, every lane's sorted order and the order lane `j` was walked in. */
  datatype Turn = Turn(lanes: seq<Lane>, j: int, pool: set<Actor>, x0: map<Actor, real>, off: int, band: int,
                       gap: int, orders: seq<seq<Actor>>, sorted: seq<seq<Actor>>, order: seq<Actor>)

  /** When only lane `j`'s actors moved, each only forward, and the lane ends spaced, the
      pass has resolved one lane more. */
  twostate lemma ResolvedOneMore(t: Turn)
    requires Apart(t.lanes) && 0 <= t.j < |t.lanes| && 2 * t.band <= TILE && forall a | a in t.pool :: a in t.x0
    requires old(ResolvedUpTo(t.lanes, t.j, t.pool, t.x0, t.off, t.band, t.gap))
    requires forall a | a in t.pool && !InLane(a, t.lanes[t.j].y + t.off, t.band) :: unchanged(a)
    requires LaneSpaced(t.pool, t.lanes[t.j].y + t.off, t.band, t.gap)
    requires forall a | a in t.pool && InLane(a, t.lanes[t.j].y + t.off, t.band) ::
               if t.lanes[t.j].Rightward() then old(a.x) <= a.x else a.x <= old(a.x)
    ensures ResolvedUpTo(t.lanes, t.j + 1, t.pool, t.x0, t.off, t.band, t.gap)
  {
    EarlierStaySpaced(t);
    ForwardSinceStart(t);
    RestUnmoved(t);
  }

  /** The lanes resolved before lane `j` did not move while it was, so they stay spaced. */
  twostate lemma EarlierStaySpaced(t: Turn)
    requires Apart(t.lanes) && 0 <= t.j < |t.lanes| && 2 * t.band <= TILE && forall a | a in t.pool :: a in t.x0
    requires old(ResolvedUpTo(t.lanes, t.j, t.pool, t.x0, t.off, t.band, t.gap))
    requires forall a | a in t.pool && !InLane(a, t.lanes[t.j].y + t.off, t.band) :: unchanged(a)
    requires LaneSpaced(t.pool, t.lanes[t.j].y + t.off, t.band, t.gap)
    ensures SpacedUpTo(t.lanes, t.j + 1, t.pool, t.off, t.band, t.gap)
  {
    var lanes, j, pool, x0, off, band, gap := t.lanes, t.j, t.pool, t.x0, t.off, t.band, t.gap;
    LanesShareNothing(lanes, j, pool, off, band);
    forall k | 0 <= k < j
      ensures LaneSpaced(pool, lanes[k].y + off, band, gap)
    {
      assert old(LaneSpaced(pool, lanes[k].y + off, band, gap));
      forall a | a in pool && InLane(a, lanes[k].y + off, band)
        ensures unchanged(a)
      {
      }
    }
  }

  /** Every actor of lanes 0..j has only moved forward since the pass started. */
  twostate lemma ForwardSinceStart(t: Turn)
    requires Apart(t.lanes) && 0 <= t.j < |t.lanes| && 2 * t.band <= TILE && forall a | a in t.pool :: a in t.x0
    requires old(ResolvedUpTo(t.lanes, t.j, t.pool, t.x0, t.off, t.band, t.gap))
    requires forall a | a in t.pool && !InLane(a, t.lanes[t.j].y + t.off, t.band) :: unchanged(a)
    requires forall a | a in t.pool && InLane(a, t.lanes[t.j].y + t.off, t.band) ::
               if t.lanes[t.j].Rightward() then old(a.x) <= a.x else a.x <= old(a.x)
    ensures ForwardUpTo(t.lanes, t.j + 1, t.pool, t.x0, t.off, t.band)
  {
    var lanes, j, pool, x0, off, band, gap := t.lanes, t.j, t.pool, t.x0, t.off, t.band, t.gap;
    LanesShareNothing(lanes, j, pool, off, band);
    forall k, a | 0 <= k < j + 1 && a in pool && InLane(a, lanes[k].y + off, band)
      ensures if lanes[k].Rightward() then x0[a] <= a.x else a.x <= x0[a]
    {
      if k < j {
        assert unchanged(a);
        assert old(if lanes[k].Rightward() then x0[a] <= a.x else a.x <= x0[a]);
      } else {
        assert forall m | 0 <= m < j :: !InLane(a, lanes[m].y + off, band);
        assert old(a.x) == x0[a];
      }
    }
  }

  /** Actors in none of lanes 0..j still stand where the pass found them. */
  twostate lemma RestUnmoved(t: Turn)
    requires Apart(t.lanes) && 0 <= t.j < |t.lanes| && 2 * t.band <= TILE && forall a | a in t.pool :: a in t.x0
    requires old(ResolvedUpTo(t.lanes, t.j, t.pool, t.x0, t.off, t.band, t.gap))
    requires forall a | a in t.pool && !InLane(a, t.lanes[t.j].y + t.off, t.band) :: unchanged(a)
    ensures UnmovedBeyond(t.lanes, t.j + 1, t.pool, t.x0, t.off, t.band)
  {
    var lanes, j, pool, x0, off, band, gap := t.lanes, t.j, t.pool, t.x0, t.off, t.band, t.gap;
    forall a | a in pool && (forall k | 0 <= k < j + 1 :: !InLane(a, lanes[k].y + off, band))
      ensures a.x == x0[a]
    {
      assert !InLane(a, lanes[j].y + off, band);
      assert unchanged(a);
      assert forall k | 0 <= k < j :: !InLane(a, lanes[k].y + off, band);
    }
  }

  /** One turn of the pass: lane `j` is resolved in `order`, its sorted order at the
      start of the pass, and its walk is recorded after those of the lanes before it,
      which stay walked. */
  method WalkLane(lanes: seq<Lane>, j: int, first: seq<Actor>, second: seq<Actor>,
                  off: int, band: int, gap: int, ghost pool: set<Actor>, ghost x0: map<Actor, real>,
                  ghost orders: seq<seq<Actor>>, ghost sorted: seq<seq<Actor>>)
      returns (ghost order: seq<Actor>)
    requires Apart(lanes) && 0 <= j < |lanes| && 2 * band <= TILE && gap >= 0
    requires Distinct(first) && Distinct(second) && forall a | a in first :: a !in second
    requires pool == Elems(first) + Elems(second) && forall a | a in pool :: a.w >= 0 && a in x0
    requires ResolvedUpTo(lanes, j, pool, x0, off, band, gap)
    requires |orders| == j && |sorted| == |lanes| && LanesWalked(lanes, pool, x0, off, band, gap, orders, sorted)
    requires sorted[j] == SortedLane(first, second, lanes[j].y + off, band, lanes[j].Rightward(), x0)
    modifies set a | a in pool && InLane(a, lanes[j].y + off, band)
    ensures ResolvedUpTo(lanes, j + 1, pool, x0, off, band, gap)
    ensures LanesWalked(lanes, pool, x0, off, band, gap, orders + [order], sorted)
  {
    LaneAsFound(lanes, j, pool, x0, off, band, gap);
    order := ResolveLane(lanes, j, first, second, off, band, gap, pool, x0);
    LaneWalkAppended(Turn(lanes, j, pool, x0, off, band, gap, orders, sorted, order));
  }

  /** Lane `j` of the pass, its actors still where the pass found them: it is walked in
      its sorted order by those positions; only actors in its band move, each only
      forward, and it ends spaced. */
  method ResolveLane(lanes: seq<Lane>, j: int, first: seq<Actor>, second: seq<Actor>,
                     off: int, band: int, gap: int, ghost pool: set<Actor>, ghost x0: map<Actor, real>)
      returns (ghost order: seq<Actor>)
    requires Apart(lanes) && 0 <= j < |lanes| && 2 * band <= TILE && gap >= 0
    requires Distinct(first) && Distinct(second) && forall a | a in first :: a !in second
    requires pool == Elems(first) + Elems(second) && forall a | a in pool :: a.w >= 0 && a in x0
    requires forall a | a in pool && InLane(a, lanes[j].y + off, band) :: x0[a] == a.x
    modifies set a | a in pool && InLane(a, lanes[j].y + off, band)
    ensures order == SortedLane(first, second, lanes[j].y + off, band, lanes[j].Rightward(), x0)
    ensures LaneWalked(lanes, j, pool, x0, off, band, gap, order)
    ensures LaneSpaced(pool, lanes[j].y + off, band, gap)
    ensures forall a | a in pool && InLane(a, lanes[j].y + off, band) ::
              if lanes[j].Rightward() then old(a.x) <= a.x else a.x <= old(a.x)
  {
    order := ResolveOneLane(lanes[j].y + off, lanes[j].Rightward(), first, second, band, gap, pool, x0);
    assert forall a | a in order :: a in pool && a in x0 && InLane(a, lanes[j].y + off, band);
  }

  /** Before lane `j`'s turn its actors still stand where the pass found them. */
  lemma LaneAsFound(lanes: seq<Lane>, j: int, pool: set<Actor>, x0: map<Actor, real>, off: int, band: int, gap: int)
    requires Apart(lanes) && 0 <= j < |lanes| && 2 * band <= TILE && forall a | a in pool :: a in x0
    requires ResolvedUpTo(lanes, j, pool, x0, off, band, gap)
    ensures forall a | a in pool && InLane(a, lanes[j].y + off, band) :: x0[a] == a.x
  {
    LanesShareNothing(lanes, j, pool, off, band);
    forall a | a in pool && InLane(a, lanes[j].y + off, band)
      ensures x0[a] == a.x
    {
      assert forall k | 0 <= k < j :: !InLane(a, lanes[k].y + off, band);
    }
  }

  /** Once lane `j` is walked in `order`, spaced, and only its actors have moved, each
      only forward, the pass has resolved one lane more, the lanes walked before it are
      still walked and lane `j` joins them. */
  twostate lemma LaneWalkAppended(t: Turn)
    requires Apart(t.lanes) && 0 <= t.j < |t.lanes| && 2 * t.band <= TILE && |t.orders| == t.j && |t.sorted| == |t.lanes|
    requires forall a | a in t.pool :: a in t.x0
    requires old(ResolvedUpTo(t.lanes, t.j, t.pool, t.x0, t.off, t.band, t.gap))
    requires old(LanesWalked(t.lanes, t.pool, t.x0, t.off, t.band, t.gap, t.orders, t.sorted))
    requires forall a | a in t.pool && !InLane(a, t.lanes[t.j].y + t.off, t.band) :: unchanged(a)
    requires LaneSpaced(t.pool, t.lanes[t.j].y + t.off, t.band, t.gap)
    requires forall a | a in t.pool && InLane(a, t.lanes[t.j].y + t.off, t.band) ::
               if t.lanes[t.j].Rightward() then old(a.x) <= a.x else a.x <= old(a.x)
    requires t.order == t.sorted[t.j] && LaneWalked(t.lanes, t.j, t.pool, t.x0, t.off, t.band, t.gap, t.order)
    ensures ResolvedUpTo(t.lanes, t.j + 1, t.pool, t.x0, t.off, t.band, t.gap)
    ensures LanesWalked(t.lanes, t.pool, t.x0, t.off, t.band, t.gap, t.orders + [t.order], t.sorted)
  {
    ResolvedOneMore(t);
    LanesShareNothing(t.lanes, t.j, t.pool, t.off, t.band);
    forall k, a | 0 <= k < t.j && a in t.orders[k]
      ensures unchanged(a)
    {
      assert old(LaneWalked(t.lanes, k, t.pool, t.x0, t.off, t.band, t.gap, t.orders[k]));
    }
    assert LanesWalked(t.lanes, t.pool, t.x0, t.off, t.band, t.gap, t.orders, t.sorted);
    WalkedExtended(t.lanes, t.pool, t.x0, t.off, t.band, t.gap, t.orders, t.sorted, t.order);
  }

  /** Appending the walk of the next lane keeps every lane walked. */
  lemma WalkedExtended(lanes: seq<Lane>, pool: set<Actor>, x0: map<Actor, real>, off: int, band: int, gap: int,
                       orders: seq<seq<Actor>>, sorted: seq<seq<Actor>>, order: seq<Actor>)
    requires |orders| < |lanes| && |orders| < |sorted| && LanesWalked(lanes, pool, x0, off, band, gap, orders, sorted)
    requires order == sorted[|orders|] && LaneWalked(lanes, |orders|, pool, x0, off, band, gap, order)
    ensures LanesWalked(lanes, pool, x0, off, band, gap, orders + [order], sorted)
  {
    forall k | 0 <= k <= |orders|
      ensures (orders + [order])[k] == sorted[k]
      ensures LaneWalked(lanes, k, pool, x0, off, band, gap, (orders + [order])[k])
    {
      if k < |orders| {
        assert (orders + [order])[k] == orders[k];
        assert LaneWalked(lanes, k, pool, x0, off, band, gap, orders[k]);
      }
    }
  }

  /** One lane: its actors from both lists (the first list's, then the second's) are
      resolved together in `order`, the lane's sorted order by their positions `x0`, and
      each ends at the position the walk over those positions gives it. Only they move,
      each only forward, and the lane ends spaced. */
  method ResolveOneLane(laneY: int, right: bool, first: seq<Actor>, second: seq<Actor>, band: int, gap: int,
                        ghost pool: set<Actor>, ghost x0: map<Actor, real>)
      returns (ghost order: seq<Actor>)
    requires gap >= 0 && Distinct(first) && Distinct(second) && forall a | a in first :: a !in second
    requires pool == Elems(first) + Elems(second) && forall a | a in pool :: a.w >= 0 && a in x0
    requires forall a | a in pool && InLane(a, laneY, band) :: x0[a] == a.x
    modifies set a | a in pool && InLane(a, laneY, band)
    ensures order == SortedLane(first, second, laneY, band, right, x0)
    ensures forall a :: a in order <==> a in pool && InLane(a, laneY, band)
    ensures forall i | 0 <= i < |order| :: order[i].x == ResolvedAt(StartsIn(order, x0), Ws(order), gap, right, i)
    ensures LaneSpaced(pool, laneY, band, gap)
    ensures forall a | a in pool && InLane(a, laneY, band) :: if right then old(a.x) <= a.x else a.x <= old(a.x)
  {
    var inFirst := InLaneOf(first, laneY, band);
    var inSecond := InLaneOf(second, laneY, band);
    DistinctConcat(inFirst, inSecond);
    var list := inFirst + inSecond;
    assert forall a | a in pool && InLane(a, laneY, band) :: a in list;
    assert forall a | a in list :: a in pool && InLane(a, laneY, band);
    LaneAsSorted(first, second, laneY, band, right, x0);
    order := ResolveLaneGaps(list, right, gap);
    PermutationFacts(list, order);
    ClearIsSpaced(pool, laneY, band, gap);
  }

  /** While the lane's actors stand at their positions in `x0`, the resolver's order of
      the lane is its sorted order by `x0`, and their positions in that order are the
      ones `x0` records. */
  lemma LaneAsSorted(first: seq<Actor>, second: seq<Actor>, laneY: int, band: int, right: bool, x0: map<Actor, real>)
    requires Keyed(first, x0) && Keyed(second, x0)
    requires forall a | (a in first || a in second) && InLane(a, laneY, band) :: x0[a] == a.x
    ensures var list := InLaneOf(first, laneY, band) + InLaneOf(second, laneY, band);
            SortedLane(first, second, laneY, band, right, x0) == if |list| < 2 then list else SortByX(list, right)
    ensures Xs(SortedLane(first, second, laneY, band, right, x0)) == StartsIn(SortedLane(first, second, laneY, band, right, x0), x0)
  {
    var list := InLaneOf(first, laneY, band) + InLaneOf(second, laneY, band);
    if |list| >= 2 {
      SortAtAgree(list, XMap(list), x0, right);
    }
    var sorted := SortedLane(first, second, laneY, band, right, x0);
    PermutationFacts(list, sorted);
    StartsAreNow(sorted, x0);
  }

  /** Actors standing at their recorded positions: those are their positions. */
  lemma StartsAreNow(s: seq<Actor>, x0: map<Actor, real>)
    requires forall a | a in s :: a in x0 && x0[a] == a.x
    ensures Xs(s) == StartsIn(s, x0)
  {
    assert forall i | 0 <= i < |s| :: s[i] in s;
  }

  /** The loop of the pass: lane after lane is resolved, against the positions `x0` the
      actors stand at when it starts. */
  method WalkLanes(lanes: seq<Lane>, first: seq<Actor>, second: seq<Actor>, off: int, band: int, gap: int,
                   ghost pool: set<Actor>, ghost x0: map<Actor, real>)
      returns (ghost orders: seq<seq<Actor>>)
    requires Apart(lanes) && 2 * band <= TILE && gap >= 0
    requires Distinct(first) && Distinct(second) && forall a | a in first :: a !in second
    requires pool == Elems(first) + Elems(second) && forall a | a in pool :: a.w >= 0 && a in x0 && x0[a] == a.x
    modifies set a | a in first, set a | a in second
    ensures |orders| == |lanes|
    ensures ResolvedUpTo(lanes, |lanes|, pool, x0, off, band, gap)
    ensures LanesWalked(lanes, pool, x0, off, band, gap, orders, SortedLanes(lanes, first, second, off, band, x0))
  {
    ghost var sorted := SortedLanes(lanes, first, second, off, band, x0);
    orders := [];
    var j := 0;
    while j < |lanes|
      invariant 0 <= j <= |lanes| && |orders| == j
      invariant ResolvedUpTo(lanes, j, pool, x0, off, band, gap)
      invariant LanesWalked(lanes, pool, x0, off, band, gap, orders, sorted)
    {
      ghost var order := WalkLane(lanes, j, first, second, off, band, gap, pool, x0, orders, sorted);
      orders := orders + [order];
      j := j + 1;
    }
  }

  /** The sorted order of every lane of the table, by the positions `x0`. */
  ghost function SortedLanes(lanes: seq<Lane>, first: seq<Actor>, second: seq<Actor>, off: int, band: int,
                             x0: map<Actor, real>): (r: seq<seq<Actor>>)
    requires Keyed(first, x0) && Keyed(second, x0)
    ensures |r| == |lanes|
    ensures forall k | 0 <= k < |lanes| :: r[k] == SortedLane(first, second, lanes[k].y + off, band, lanes[k].Rightward(), x0)
  {
    seq(|lanes|, k requires 0 <= k < |lanes| => SortedLane(first, second, lanes[k].y + off, band, lanes[k].Rightward(), x0))
  }

  /** Every lane in turn, against the positions `x0` the actors stand at when the pass
      starts. Afterwards every lane is spaced, every actor in a lane has only moved
      forward along it, and actors in no lane have not moved. Lane `k` was walked in
      `orders[k]`, its sorted order by those positions, and each of its actors stands
      where the walk over them puts it. */
  method ResolveLanes(lanes: seq<Lane>, first: seq<Actor>, second: seq<Actor>, off: int, band: int, gap: int,
                      ghost x0: map<Actor, real>)
      returns (ghost orders: seq<seq<Actor>>)
    requires Apart(lanes) && 2 * band <= TILE && gap >= 0
    requires Distinct(first) && Distinct(second) && forall a | a in first :: a !in second
    requires forall a | a in Elems(first) + Elems(second) :: a.w >= 0 && a in x0 && x0[a] == a.x
    modifies set a | a in first, set a | a in second
    ensures forall k | 0 <= k < |lanes| :: LaneSpaced(Elems(first) + Elems(second), lanes[k].y + off, band, gap)
    ensures forall k, a | 0 <= k < |lanes| && a in Elems(first) + Elems(second) && InLane(a, lanes[k].y + off, band) ::
              if lanes[k].Rightward() then x0[a] <= a.x else a.x <= x0[a]
    ensures forall a | a in Elems(first) + Elems(second) && (forall k | 0 <= k < |lanes| :: !InLane(a, lanes[k].y + off, band)) ::
              a.x == x0[a]
    ensures |orders| == |lanes|
    ensures forall k, a | 0 <= k < |lanes| && a in orders[k] :: a in first || a in second
    ensures forall k | 0 <= k < |lanes| ::
              orders[k] == SortedLane(first, second, lanes[k].y + off, band, lanes[k].Rightward(), x0)
    ensures forall k, i | 0 <= k < |lanes| && 0 <= i < |orders[k]| ::
              orders[k][i].x == ResolvedAt(StartsIn(orders[k], x0), Ws(orders[k]), gap, lanes[k].Rightward(), i)
  {
    ghost var pool := Elems(first) + Elems(second);
    orders := WalkLanes(lanes, first, second, off, band, gap, pool, x0);
    ghost var sorted := SortedLanes(lanes, first, second, off, band, x0);
    forall k | 0 <= k < |lanes|
      ensures forall a | a in orders[k] :: a in first || a in second
      ensures orders[k] == SortedLane(first, second, lanes[k].y + off, band, lanes[k].Rightward(), x0)
      ensures forall i | 0 <= i < |orders[k]| ::
                orders[k][i].x == ResolvedAt(StartsIn(orders[k], x0), Ws(orders[k]), gap, lanes[k].Rightward(), i)
    {
      assert orders[k] == sorted[k] && LaneWalked(lanes, k, pool, x0, off, band, gap, orders[k]);
    }
  }
}
