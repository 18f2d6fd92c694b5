/** Variant B's post-motion spacing pass for one road lane, as the source writes it
    (`resolveVehicleGapsSingleTrack`): the lane's vehicles are sorted by ascending x and
    each adjacent pair (A, B) whose gap is short is fixed by moving one or both of them,
    depending on the signs of their speeds. */
module SingleTrack {
  import opened Board
  import opened Geometry
  import opened Actors
  import opened Spacing
  import opened LaneGaps
  import opened Lanes

  /** `Math.signum` on speeds. */
  function Sign(r: real): int {
    if r > 0.0 then 1 else if r < 0.0 then -1 else 0
  }

  /** `needed`: how far B's bounds fall short of A's right edge plus the gap. */
  function Needed(ax: real, aw: int, bx: real, gap: int): int {
    Trunc(ax) + aw + gap - Trunc(bx)
  }

  datatype Pair = Pair(a: real, b: real)

  /** The new positions of A and B after their pair is handled. Whenever the gap is
      short, the distance from A to B grows by exactly the deficit; otherwise neither moves. */
  function PairMoved(ax: real, aw: int, sa: real, bx: real, sb: real, gap: int): (r: Pair)
    ensures Needed(ax, aw, bx, gap) <= 0 ==> r == Pair(ax, bx)
    ensures Needed(ax, aw, bx, gap) > 0 ==> r.b - r.a == bx - ax + Needed(ax, aw, bx, gap) as real
  {
    var needed := Needed(ax, aw, bx, gap);
    if needed > 0 then
      if Sign(sa) == Sign(sb) then
        if sa > 0.0 then Pair(ax, bx + needed as real) else Pair(ax - needed as real, bx)
      else Pair(ax - needed as real / 2.0, bx + needed as real / 2.0)
    else Pair(ax, bx)
  }

  /** Which of the pair moves, and how far, when the gap is short: with equal signs the
      one ahead in the direction of travel (B when A moves right, A otherwise) is pushed
      by the whole deficit and the other stays; with different signs each takes half. */
  lemma PairMoves(ax: real, aw: int, sa: real, bx: real, sb: real, gap: int)
    requires Needed(ax, aw, bx, gap) > 0
    ensures var n := Needed(ax, aw, bx, gap) as real;
            var r := PairMoved(ax, aw, sa, bx, sb, gap);
            && (Sign(sa) == Sign(sb) && sa > 0.0 ==> r.a == ax && r.b == bx + n)
            && (Sign(sa) == Sign(sb) && sa <= 0.0 ==> r.a == ax - n && r.b == bx)
            && (Sign(sa) != Sign(sb) ==> r.a == ax - n / 2.0 && r.b == bx + n / 2.0)
  {
  }

  /** The positions after the first `k` adjacent pairs have been handled, in order. */
  function PassAt(xs: seq<real>, ws: seq<int>, ss: seq<real>, gap: int, k: nat): (p: seq<real>)
    requires |xs| == |ws| == |ss| && (k == 0 || k < |xs|)
    ensures |p| == |xs|
    ensures forall j :: k < j < |xs| ==> p[j] == xs[j]
  {
    if k == 0 then xs
    else
      var p := PassAt(xs, ws, ss, gap, k - 1);
      var m := PairMoved(p[k - 1], ws[k - 1], ss[k - 1], p[k], ss[k], gap);
      p[k - 1 := m.a][k := m.b]
  }

  /** The positions once the whole pass is over. */
  function Pass(xs: seq<real>, ws: seq<int>, ss: seq<real>, gap: int): (p: seq<real>)
    requires |xs| == |ws| == |ss|
    ensures |p| == |xs|
  {
    PassAt(xs, ws, ss, gap, if |xs| == 0 then 0 else |xs| - 1)
  }

  /** The pass does not keep every pair apart: on a leftward lane with cars at x = 0, 100
      and 150 (width 80, gap 40), the first pair is fixed by moving the first car to -20,
      then the second pair by moving the second car to 30, back onto the first. */
  lemma LeftwardPassLeavesOverlap()
    ensures var p := Pass([0.0, 100.0, 150.0], [80, 80, 80], [-1.5, -1.5, -1.5], 40);
            && p == [-20.0, 30.0, 150.0]
            && Intersects(Rect(Trunc(p[0]), 245, 80, 30), Rect(Trunc(p[1]), 245, 80, 30))
  {
    var xs, ws, ss := [0.0, 100.0, 150.0], [80, 80, 80], [-1.5, -1.5, -1.5];
    assert Trunc(0.0) == 0 && Trunc(100.0) == 100 && Trunc(150.0) == 150;
    assert PassAt(xs, ws, ss, 40, 1) == [-20.0, 100.0, 150.0];
    assert Trunc(-20.0) == -20 && Trunc(30.0) == 30;
    assert PassAt(xs, ws, ss, 40, 2) == [-20.0, 30.0, 150.0];
  }

  /** The speeds of the actors. */
  function Speeds(s: seq<Actor>): (r: seq<real>)
    ensures |r| == |s| && forall i :: 0 <= i < |s| ==> r[i] == s[i].speed
  {
    if s == [] then [] else [s[0].speed] + Speeds(s[1..])
  }

  /** The loop body: handle the pair (A, B). */
  method FixPair(a: Actor, b: Actor, gap: int)
    requires a != b
    modifies a, b
    ensures Pair(a.x, b.x) == PairMoved(old(a.x), a.w, a.speed, old(b.x), b.speed, gap)
  {
    var ra, rb := a.Bounds(), b.Bounds();
    var needed := (ra.x + ra.width + gap) - rb.x;
    if needed > 0 {
      var sa, sb := a.speed, b.speed;
      if Sign(sa) == Sign(sb) {
        if sa > 0.0 {
          b.SetX(b.x + needed as real);
        } else {
          a.SetX(a.x - needed as real);
        }
      } else {
        a.SetX(a.x - needed as real / 2.0);
        b.SetX(b.x + needed as real / 2.0);
      }
    }
  }

  /** The actors of `s`, which started at `xs`, stand where the first `i` pairs of the
      pass leave them. */
  ghost predicate Walked(s: seq<Actor>, gap: int, xs: seq<real>, ws: seq<int>, ss: seq<real>, i: nat)
    reads set a | a in s
  {
    && |xs| == |s| == |ws| == |ss| && (i == 0 || i < |s|)
    && forall k :: 0 <= k < |s| ==> s[k].x == PassAt(xs, ws, ss, gap, i)[k]
  }

  /** The walk over adjacent pairs of an ascending list whose positions are `xs`: it
      ends where the whole pass does. */
  method WalkPairs(s: seq<Actor>, gap: int, ghost xs: seq<real>, ghost ws: seq<int>, ghost ss: seq<real>)
      returns (ghost last: nat)
    requires Distinct(s) && ws == Ws(s) && ss == Speeds(s) && Walked(s, gap, xs, ws, ss, 0)
    modifies set a | a in s
    ensures Walked(s, gap, xs, ws, ss, last)
    ensures |s| > 0 ==> last == |s| - 1
  {
    if |s| == 0 {
      return 0;
    }
    var i := 0;
    while i < |s| - 1
      invariant 0 <= i <= |s| - 1
      invariant Walked(s, gap, xs, ws, ss, i)
    {
      StepPair(s, i, gap, xs, ws, ss);
      i := i + 1;
    }
    last := i;
  }

  /** One turn of the walk: handling pair i moves the positions from the first i pairs'
      result to the first i + 1 pairs' result. */
  method StepPair(s: seq<Actor>, i: nat, gap: int, ghost xs: seq<real>, ghost ws: seq<int>, ghost ss: seq<real>)
    requires Distinct(s) && ws == Ws(s) && ss == Speeds(s) && i + 1 < |s| && Walked(s, gap, xs, ws, ss, i)
    modifies set a | a in s
    ensures Walked(s, gap, xs, ws, ss, i + 1)
  {
    ghost var p := PassAt(xs, ws, ss, gap, i);
    ghost var m := PairMoved(p[i], ws[i], ss[i], p[i + 1], ss[i + 1], gap);
    assert PassAt(xs, ws, ss, gap, i + 1) == p[i := m.a][i + 1 := m.b];
    FixPair(s[i], s[i + 1], gap);
    forall k | 0 <= k < |s| && k != i && k != i + 1
      ensures s[k].x == p[k]
    {
      assert s[k] != s[i] && s[k] != s[i + 1];
    }
  }

  /** The vehicles gathered for the lane whose track is `laneY`: the cars in its band,
      then the trucks in its band, each in list order. */
  function TrackVehicles(cars: seq<Actor>, trucks: seq<Actor>, laneY: int, band: int): (r: seq<Actor>)
    ensures forall a | a in r :: (a in cars || a in trucks) && InLane(a, laneY, band)
    ensures forall a | a in cars && InLane(a, laneY, band) :: a in r
    ensures forall a | a in trucks && InLane(a, laneY, band) :: a in r
  {
    InLaneOf(cars, laneY, band) + InLaneOf(trucks, laneY, band)
  }

  /** `order` holds exactly the vehicles gathered for the lane whose track is `laneY`. */
  predicate Gathered(order: seq<Actor>, cars: seq<Actor>, trucks: seq<Actor>, laneY: int, band: int) {
    multiset(order) == multiset(TrackVehicles(cars, trucks, laneY, band))
  }

  /** The vehicles of `order`, which started at `xs`, stand where the pass puts them. */
  ghost predicate TrackWalked(order: seq<Actor>, xs: seq<real>, gap: int)
    reads set a | a in order
  {
    |xs| == |order| && forall i | 0 <= i < |order| :: order[i].x == Pass(xs, Ws(order), Speeds(order), gap)[i]
  }

  /** Where the pass puts the vehicles depends on their positions alone: with every
      position as it was, a walked lane is still walked. The arguments come as one triple. */
  twostate lemma TrackWalkedUnmoved(p: (seq<Actor>, seq<real>, int))
    requires old(TrackWalked(p.0, p.1, p.2)) && forall i | 0 <= i < |p.0| :: p.0[i].x == old(p.0[i].x)
    ensures TrackWalked(p.0, p.1, p.2)
  {
  }

  /** Positions in ascending order. */
  predicate Ascending(xs: seq<real>) {
    forall i, k | 0 <= i < k < |xs| :: xs[i] <= xs[k]
  }

  /** The positions along a list sorted by ascending x are ascending. */
  lemma SortedAscending(s: seq<Actor>)
    requires SortedAlong(s, true)
    ensures Ascending(Xs(s))
  {
    var xs := Xs(s);
    forall i, k | 0 <= i < k < |xs|
      ensures xs[i] <= xs[k]
    {
      SortedChain(s, i, k);
    }
  }

  /** In a list sorted by ascending x, every actor stands at or left of those after it. */
  lemma {:induction false} SortedChain(s: seq<Actor>, i: int, k: int)
    requires SortedAlong(s, true) && 0 <= i <= k < |s|
    ensures s[i].x <= s[k].x
    decreases k - i
  {
    if i < k {
      SortedChain(s, i, k - 1);
      assert Before(s[k - 1], s[k], true);
    }
  }

  /** One lane of `resolveVehicleGapsSingleTrack`, as written: fewer than two vehicles
      are left alone; otherwise they are sorted by ascending x and the pairs walked.
      `order` is the walk order, `xs` the positions before the walk, ascending, and
      every vehicle ends where the pass over `xs` puts it. */
  method ResolveSingleTrack(objs: seq<Actor>, gap: int) returns (ghost order: seq<Actor>, ghost xs: seq<real>)
    requires Distinct(objs)
    modifies set a | a in objs
    ensures order == if |objs| < 2 then objs else old(SortByX(objs, true))
    ensures multiset(order) == multiset(objs) && Distinct(order)
    ensures forall a | a in order :: a in objs
    ensures xs == old(Xs(order)) && Ascending(xs)
    ensures TrackWalked(order, xs, gap)
  {
    if |objs| < 2 {
      order, xs := objs, Xs(objs);
      return;
    }
    var s := SortByX(objs, true);
    PermutationFacts(objs, s);
    order, xs := s, Xs(s);
    SortedAscending(s);
    ghost var last := WalkPairs(s, gap, xs, Ws(s), Speeds(s));
  }

  /** Lane `j` of the walk: its vehicles, taken in walk order, started at ascending
      positions `xs`, their positions in `x0`, and end where the pass over `xs` puts them.
      Only they move; the vehicles of every other lane lie outside lane `j`'s band. */
  method ResolveTrack(lanes: seq<Lane>, j: int, cars: seq<Actor>, trucks: seq<Actor>, off: int, band: int, gap: int,
                      ghost x0: map<Actor, real>)
      returns (ghost order: seq<Actor>, ghost xs: seq<real>)
    requires Apart(lanes) && 2 * band <= TILE && 0 <= j < |lanes|
    requires Distinct(cars) && Distinct(trucks) && forall a | a in cars :: a !in trucks
    requires forall a | a in cars && InLane(a, lanes[j].y + off, band) :: a in x0 && a.x == x0[a]
    requires forall a | a in trucks && InLane(a, lanes[j].y + off, band) :: a in x0 && a.x == x0[a]
    modifies set a | a in cars && InLane(a, lanes[j].y + off, band), set a | a in trucks && InLane(a, lanes[j].y + off, band)
    ensures LaneOrder(order, xs, cars, trucks, lanes[j].y + off, band, x0)
    ensures TrackWalked(order, xs, gap)
  {
    var laneY := lanes[j].y + off;
    var objs := TrackVehicles(cars, trucks, laneY, band);
    DistinctConcat(InLaneOf(cars, laneY, band), InLaneOf(trucks, laneY, band));
    order, xs := ResolveSingleTrack(objs, gap);
    forall i | 0 <= i < |order|
      ensures (order[i] in cars || order[i] in trucks) && InLane(order[i], laneY, band)
      ensures order[i] in x0 && xs[i] == x0[order[i]]
    {
      assert order[i] in order;
    }
  }

  /** The positions of the road vehicles, as they stand. */
  ghost function Positions(cars: seq<Actor>, trucks: seq<Actor>): (x0: map<Actor, real>)
    reads set a | a in cars, set a | a in trucks
    ensures forall a | a in cars :: a in x0 && x0[a] == a.x
    ensures forall a | a in trucks :: a in x0 && x0[a] == a.x
  {
    map a | a in Elems(cars) + Elems(trucks) :: a.x
  }

  /** The walk order of lane `laneY`: `order` holds exactly its vehicles and `xs` their
      positions in `x0`, ascending. */
  predicate LaneOrder(order: seq<Actor>, xs: seq<real>, cars: seq<Actor>, trucks: seq<Actor>,
                      laneY: int, band: int, x0: map<Actor, real>)
  {
    && Gathered(order, cars, trucks, laneY, band) && |xs| == |order|
    && (forall i | 0 <= i < |order| ::
          && (order[i] in cars || order[i] in trucks) && InLane(order[i], laneY, band)
          && order[i] in x0 && xs[i] == x0[order[i]])
    && Ascending(xs)
  }

  /** Vehicles in none of the first `j` lanes stand at their positions in `x0`. */
  ghost predicate UnmovedOutside(lanes: seq<Lane>, j: int, cars: seq<Actor>, trucks: seq<Actor>,
                                 off: int, band: int, x0: map<Actor, real>)
    requires 0 <= j <= |lanes|
    reads set a | a in cars, set a | a in trucks
  {
    && (forall a | a in cars && (forall k | 0 <= k < j :: !InLane(a, lanes[k].y + off, band)) :: a in x0 && a.x == x0[a])
    && (forall a | a in trucks && (forall k | 0 <= k < j :: !InLane(a, lanes[k].y + off, band)) :: a in x0 && a.x == x0[a])
  }

  /** The lanes walked so far, one per lane from lane 0: each lane's order and starting
      positions as `LaneOrder` describes them. */
  predicate LanesOrdered(lanes: seq<Lane>, cars: seq<Actor>, trucks: seq<Actor>, off: int, band: int,
                         x0: map<Actor, real>, orders: seq<seq<Actor>>, starts: seq<seq<real>>)
  {
    && |orders| == |starts| <= |lanes|
    && forall k | 0 <= k < |orders| :: LaneOrder(orders[k], starts[k], cars, trucks, lanes[k].y + off, band, x0)
  }

  /** Every walked lane's vehicles stand where the pass over their starts puts them. */
  ghost predicate LanesWalked(orders: seq<seq<Actor>>, starts: seq<seq<real>>, gap: int)
    reads set s, a | s in orders && a in s :: a
  {
    && |orders| == |starts|
    && forall k | 0 <= k < |orders| :: TrackWalked(orders[k], starts[k], gap)
  }

  /** One turn of the walk over the lanes: lane `j` is walked, the lanes before it stay
      walked, and vehicles outside lanes 0..j stay where they started. */
  method WalkLane(lanes: seq<Lane>, j: int, cars: seq<Actor>, trucks: seq<Actor>, off: int, band: int, gap: int,
                  ghost x0: map<Actor, real>, ghost orders: seq<seq<Actor>>, ghost starts: seq<seq<real>>)
      returns (ghost orders': seq<seq<Actor>>, ghost starts': seq<seq<real>>)
    requires Apart(lanes) && 2 * band <= TILE && 0 <= j < |lanes| && |orders| == j
    requires Distinct(cars) && Distinct(trucks) && forall a | a in cars :: a !in trucks
    requires LanesOrdered(lanes, cars, trucks, off, band, x0, orders, starts)
    requires LanesWalked(orders, starts, gap)
    requires UnmovedOutside(lanes, j, cars, trucks, off, band, x0)
    modifies set a | a in cars, set a | a in trucks
    ensures |orders'| == j + 1
    ensures LanesOrdered(lanes, cars, trucks, off, band, x0, orders', starts')
    ensures LanesWalked(orders', starts', gap)
    ensures UnmovedOutside(lanes, j + 1, cars, trucks, off, band, x0)
  {
    var laneY := lanes[j].y + off;
    LaneStartsKnown(lanes, j, cars, trucks, off, band, x0);
    ghost var order, xs := ResolveTrack(lanes, j, cars, trucks, off, band, gap, x0);
    forall a | a in cars && !InLane(a, laneY, band)
      ensures a.x == old(a.x)
    {
    }
    forall a | a in trucks && !InLane(a, laneY, band)
      ensures a.x == old(a.x)
    {
    }
    ghost var w := Walk(lanes, j, cars, trucks, off, band, x0, orders, starts, gap);
    EarlierLanesKept(w);
    orders', starts' := orders + [order], starts + [xs];
    OrdersExtended(lanes, cars, trucks, off, band, x0, orders, starts, j, order, xs);
    WalksExtended(orders, starts, order, xs, gap);
  }

  /** The walk over lanes 0..j-1 so far: the lanes, the vehicles, the track offset and
      band, the starting positions, and each walked lane's order and starts. */
  datatype Walk = Walk(lanes: seq<Lane>, j: int, cars: seq<Actor>, trucks: seq<Actor>, off: int, band: int,
                       x0: map<Actor, real>, orders: seq<seq<Actor>>, starts: seq<seq<real>>, gap: int)

  /** Before lane `j` is walked, its vehicles still stand at their starting positions. */
  lemma LaneStartsKnown(lanes: seq<Lane>, j: int, cars: seq<Actor>, trucks: seq<Actor>, off: int, band: int,
                        x0: map<Actor, real>)
    requires Apart(lanes) && 2 * band <= TILE && 0 <= j < |lanes|
    requires UnmovedOutside(lanes, j, cars, trucks, off, band, x0)
    ensures forall a | a in cars && InLane(a, lanes[j].y + off, band) :: a in x0 && a.x == x0[a]
    ensures forall a | a in trucks && InLane(a, lanes[j].y + off, band) :: a in x0 && a.x == x0[a]
  {
    forall a, k | (a in cars || a in trucks) && InLane(a, lanes[j].y + off, band) && 0 <= k < j
      ensures !InLane(a, lanes[k].y + off, band)
    {
      OneLane(a, lanes, j, k, off, band);
    }
  }

  /** Walking lane j moves only vehicles in lane j: the lanes walked before stay walked and
      vehicles in none of lanes 0..j stay where they started. */
  twostate lemma EarlierLanesKept(w: Walk)
    requires Apart(w.lanes) && 2 * w.band <= TILE && 0 <= w.j < |w.lanes| && |w.orders| == w.j
    requires LanesOrdered(w.lanes, w.cars, w.trucks, w.off, w.band, w.x0, w.orders, w.starts)
    requires old(LanesWalked(w.orders, w.starts, w.gap))
    requires old(UnmovedOutside(w.lanes, w.j, w.cars, w.trucks, w.off, w.band, w.x0))
    requires forall a | a in w.cars && !InLane(a, w.lanes[w.j].y + w.off, w.band) :: a.x == old(a.x)
    requires forall a | a in w.trucks && !InLane(a, w.lanes[w.j].y + w.off, w.band) :: a.x == old(a.x)
    ensures LanesWalked(w.orders, w.starts, w.gap)
    ensures UnmovedOutside(w.lanes, w.j + 1, w.cars, w.trucks, w.off, w.band, w.x0)
  {
    forall k | 0 <= k < w.j
      ensures TrackWalked(w.orders[k], w.starts[k], w.gap)
    {
      forall i | 0 <= i < |w.orders[k]|
        ensures w.orders[k][i].x == old(w.orders[k][i].x)
      {
        OneLane(w.orders[k][i], w.lanes, k, w.j, w.off, w.band);
      }
      TrackWalkedUnmoved((w.orders[k], w.starts[k], w.gap));
    }
    forall a | a in w.cars && (forall k | 0 <= k < w.j + 1 :: !InLane(a, w.lanes[k].y + w.off, w.band))
      ensures a in w.x0 && a.x == w.x0[a]
    {
      assert forall k | 0 <= k < w.j :: !InLane(a, w.lanes[k].y + w.off, w.band);
    }
    forall a | a in w.trucks && (forall k | 0 <= k < w.j + 1 :: !InLane(a, w.lanes[k].y + w.off, w.band))
      ensures a in w.x0 && a.x == w.x0[a]
    {
      assert forall k | 0 <= k < w.j :: !InLane(a, w.lanes[k].y + w.off, w.band);
    }
  }

  /** Appending the next lane's order keeps every lane's order. */
  lemma OrdersExtended(lanes: seq<Lane>, cars: seq<Actor>, trucks: seq<Actor>, off: int, band: int,
                       x0: map<Actor, real>, orders: seq<seq<Actor>>, starts: seq<seq<real>>,
                       j: int, order: seq<Actor>, xs: seq<real>)
    requires LanesOrdered(lanes, cars, trucks, off, band, x0, orders, starts) && |orders| == j < |lanes|
    requires LaneOrder(order, xs, cars, trucks, lanes[j].y + off, band, x0)
    ensures LanesOrdered(lanes, cars, trucks, off, band, x0, orders + [order], starts + [xs])
  {
    forall k | 0 <= k <= |orders|
      ensures LaneOrder((orders + [order])[k], (starts + [xs])[k], cars, trucks, lanes[k].y + off, band, x0)
    {
      if k < |orders| {
        assert (orders + [order])[k] == orders[k] && (starts + [xs])[k] == starts[k];
      }
    }
  }

  /** Appending the next lane's walk keeps every lane walked. */
  lemma WalksExtended(orders: seq<seq<Actor>>, starts: seq<seq<real>>, order: seq<Actor>, xs: seq<real>, gap: int)
    requires LanesWalked(orders, starts, gap) && TrackWalked(order, xs, gap)
    ensures LanesWalked(orders + [order], starts + [xs], gap)
  {
    forall k | 0 <= k <= |orders|
      ensures TrackWalked((orders + [order])[k], (starts + [xs])[k], gap)
    {
      if k < |orders| {
        assert (orders + [order])[k] == orders[k] && (starts + [xs])[k] == starts[k];
      }
    }
  }

  /** `resolveVehicleGapsSingleTrack`: every lane in turn gathers the vehicles within
      its band, sorts them by ascending x and walks their adjacent pairs. For each lane,
      `orders` holds its vehicles in walk order and `starts` their starting positions,
      ascending; each ends where the pass over those positions puts it, and vehicles in
      no lane do not move. */
  method ResolveTracks(lanes: seq<Lane>, cars: seq<Actor>, trucks: seq<Actor>, off: int, band: int, gap: int)
      returns (ghost orders: seq<seq<Actor>>, ghost starts: seq<seq<real>>)
    requires Apart(lanes) && 2 * band <= TILE
    requires Distinct(cars) && Distinct(trucks) && forall a | a in cars :: a !in trucks
    modifies set a | a in cars, set a | a in trucks
    ensures |orders| == |starts| == |lanes|
    ensures forall k | 0 <= k < |lanes| ::
              LaneOrder(orders[k], starts[k], cars, trucks, lanes[k].y + off, band, old(Positions(cars, trucks)))
    ensures forall k | 0 <= k < |lanes| :: TrackWalked(orders[k], starts[k], gap)
    ensures UnmovedOutside(lanes, |lanes|, cars, trucks, off, band, old(Positions(cars, trucks)))
  {
    ghost var x0 := Positions(cars, trucks);
    orders, starts := [], [];
    var j := 0;
    while j < |lanes|
      invariant 0 <= j <= |lanes| && |orders| == j
      invariant LanesOrdered(lanes, cars, trucks, off, band, x0, orders, starts)
      invariant LanesWalked(orders, starts, gap)
      invariant UnmovedOutside(lanes, j, cars, trucks, off, band, x0)
    {
      orders, starts := WalkLane(lanes, j, cars, trucks, off, band, gap, x0, orders, starts);
      j := j + 1;
    }
  }
}
