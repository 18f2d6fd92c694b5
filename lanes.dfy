/** Facts about a table of lanes a tile apart that both copies of GamePanel rely on:
    an actor near one lane's track is in no other lane's band, so seeding or resolving
    one lane leaves the others as they were. A lane's track is `lane.y + off` and an
    actor is in it when its y is less than `band` away. */
module Lanes {
  import opened Board
  import opened Actors
  import opened Spacing

  /** Lanes a whole tile apart. */
  ghost predicate Apart(lanes: seq<Lane>) {
    forall i, j :: 0 <= i < j < |lanes| ==> Abs(lanes[i].y - lanes[j].y) >= TILE
  }

  /** An actor in one lane's band is in no other lane's band when two bands fit in a tile. */
  lemma OneLane(a: Actor, lanes: seq<Lane>, k: int, m: int, off: int, band: int)
    requires Apart(lanes) && 0 <= k < |lanes| && 0 <= m < |lanes| && k != m && 2 * band <= TILE
    requires InLane(a, lanes[k].y + off, band)
    ensures !InLane(a, lanes[m].y + off, band)
  {
    if k < m {
      assert Abs(lanes[k].y - lanes[m].y) >= TILE;
    } else {
      assert Abs(lanes[m].y - lanes[k].y) >= TILE;
    }
  }

  /** No actor of `pool` is both in lane `j` and in another lane. */
  lemma LanesShareNothing(lanes: seq<Lane>, j: int, pool: set<Actor>, off: int, band: int)
    requires Apart(lanes) && 0 <= j < |lanes| && 2 * band <= TILE
    ensures forall k, a | 0 <= k < |lanes| && k != j && a in pool && InLane(a, lanes[k].y + off, band) ::
              !InLane(a, lanes[j].y + off, band)
  {
    forall k, a | 0 <= k < |lanes| && k != j && a in pool && InLane(a, lanes[k].y + off, band)
      ensures !InLane(a, lanes[j].y + off, band)
    {
      OneLane(a, lanes, k, j, off, band);
    }
  }

  /** A lane whose band holds none of `pool` is trivially spaced. */
  lemma EmptyLaneSpaced(pool: set<Actor>, laneY: int, band: int, gap: int)
    requires forall a | a in pool :: !InLane(a, laneY, band)
    ensures LaneSpaced(pool, laneY, band, gap)
  {
  }

  /** Seeding lane `j` adds actors only within `reach` of its track, so the lanes seeded
      before stay spaced and the lanes still to come stay empty. */
  lemma SpacedAcrossLanes(lanes: seq<Lane>, j: int, pool: set<Actor>, added: set<Actor>,
                          off: int, band: int, reach: int, gap: int)
    requires Apart(lanes) && 0 <= j < |lanes| && reach + band <= TILE
    requires forall k | 0 <= k < j :: LaneSpaced(pool, lanes[k].y + off, band, gap)
    requires forall a, m | a in pool && j <= m < |lanes| :: !InLane(a, lanes[m].y + off, band)
    requires forall a | a in added :: Abs(a.y - (lanes[j].y + off)) <= reach
    requires LaneSpaced(pool + added, lanes[j].y + off, band, gap)
    ensures forall k | 0 <= k <= j :: LaneSpaced(pool + added, lanes[k].y + off, band, gap)
    ensures forall a, m | a in pool + added && j < m < |lanes| :: !InLane(a, lanes[m].y + off, band)
  {
    forall k | 0 <= k < j
      ensures LaneSpaced(pool + added, lanes[k].y + off, band, gap)
    {
      assert Abs(lanes[k].y - lanes[j].y) >= TILE;
      AddOutsideLane(pool, added, lanes[k].y + off, band, gap);
    }
    forall a, m | a in added && j < m < |lanes|
      ensures !InLane(a, lanes[m].y + off, band)
    {
      assert Abs(lanes[j].y - lanes[m].y) >= TILE;
    }
  }

  /** Adding actors keeps the lanes before `j` occupied, and an added actor in lane `j`
      occupies it too. */
  lemma OccupiedAcross(lanes: seq<Lane>, j: int, pool: set<Actor>, added: set<Actor>, off: int, band: int)
    requires 0 <= j < |lanes|
    requires forall k | 0 <= k < j :: Occupied(pool, lanes[k].y + off, band)
    requires Occupied(added, lanes[j].y + off, band)
    ensures forall k | 0 <= k <= j :: Occupied(pool + added, lanes[k].y + off, band)
  {
    forall k | 0 <= k <= j
      ensures Occupied(pool + added, lanes[k].y + off, band)
    {
      if k < j {
        assert Occupied(pool, lanes[k].y + off, band);
        var a :| a in pool && InLane(a, lanes[k].y + off, band);
        assert a in pool + added;
      } else {
        var a :| a in added && InLane(a, lanes[j].y + off, band);
        assert a in pool + added;
      }
    }
  }

  /** The members of `s'` beyond its prefix `s`. */
  lemma BeyondPrefix(s: seq<Actor>, s': seq<Actor>, a: Actor) returns (i: int)
    requires s <= s' && a in s' && a !in s
    ensures |s| <= i < |s'| && s'[i] == a
  {
    i :| 0 <= i < |s'| && s'[i] == a;
  }
}
