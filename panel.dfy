/** What the two GamePanels share above the actor lists: how a tick ends, the keys they
    react to, the facts their lists keep, lane spacing over a table of lanes, the frog's
    hazard test and the off-board cleanup. */
module Panel {
  import opened Geometry
  import opened Actors
  import opened Spacing

  /** How a tick ended. */
  datatype Outcome = Paused | Died | Advanced | Continued

  /** The keys a panel reacts to; every other key is `OtherKey`. */
  datatype Key = KeyLeft | KeyRight | KeyUp | KeyDown | KeyP | KeyH | OtherKey

  /** Each list holds distinct actors of its own kind with positive sizes. */
  ghost predicate Stocked(cars: seq<Actor>, trucks: seq<Actor>, logs: seq<Actor>, birds: seq<Actor>, snakes: seq<Actor>) {
    && RoadReady(cars, trucks) && AllOfKind(cars, Car) && AllOfKind(trucks, Truck)
    && Sized(logs, Log) && Distinct(logs)
    && CritterReady(birds, snakes) && AllOfKind(birds, Bird) && AllOfKind(snakes, Snake)
  }

  /** Logs and critters are neither cars nor trucks: their kinds differ. */
  lemma OffRoad(cars: seq<Actor>, trucks: seq<Actor>, logs: seq<Actor>, birds: seq<Actor>, snakes: seq<Actor>)
    requires Stocked(cars, trucks, logs, birds, snakes)
    ensures forall a | a in Elems(logs) + Elems(birds) + Elems(snakes) :: a !in cars && a !in trucks
  {
  }

  /** Every lane of `lanes` keeps the actors of the two lists in its band (`band` around
      `lane.y + off`) `gap` apart. */
  ghost predicate Spaced(first: seq<Actor>, second: seq<Actor>, lanes: seq<Lane>, off: int, band: int, gap: int)
    reads set a | a in first, set a | a in second
  {
    forall k | 0 <= k < |lanes| :: LaneSpaced(Elems(first) + Elems(second), lanes[k].y + off, band, gap)
  }

  /** Spacing over a band implies spacing over any narrower band around the same track. */
  lemma SpacedNarrower(first: seq<Actor>, second: seq<Actor>, lanes: seq<Lane>, off: int, band: int, band': int, gap: int)
    requires band' <= band && Spaced(first, second, lanes, off, band, gap)
    ensures Spaced(first, second, lanes, off, band', gap)
  {
    forall k | 0 <= k < |lanes|
      ensures LaneSpaced(Elems(first) + Elems(second), lanes[k].y + off, band', gap)
    {
      assert LaneSpaced(Elems(first) + Elems(second), lanes[k].y + off, band, gap);
    }
  }

  /** Some hazard (car, truck, bird or snake) meets the frog's rectangle `fr`. */
  predicate Hazard(cars: seq<Actor>, trucks: seq<Actor>, birds: seq<Actor>, snakes: seq<Actor>, fr: Rect)
    reads set a | a in cars, set a | a in trucks, set a | a in birds, set a | a in snakes
  {
    HitsAny(cars, fr) || HitsAny(trucks, fr) || HitsAny(birds, fr) || HitsAny(snakes, fr)
  }

  /** `kept` holds exactly those actors of `s` that are within the cull margin. */
  ghost predicate KeptOnBoard(kept: seq<Actor>, s: seq<Actor>)
    reads set a | a in kept, set a | a in s
  {
    && (forall a | a in kept :: a in s && OnBoard(a))
    && (forall a | a in s && OnBoard(a) :: a in kept)
  }

  /** Culling both lists of a lane kind keeps every lane spaced. */
  lemma CulledSpaced(first: seq<Actor>, second: seq<Actor>, first': seq<Actor>, second': seq<Actor>,
                     lanes: seq<Lane>, off: int, band: int, gap: int)
    requires Spaced(first, second, lanes, off, band, gap)
    requires forall a | a in first' :: a in first
    requires forall a | a in second' :: a in second
    ensures Spaced(first', second', lanes, off, band, gap)
  {
    forall k | 0 <= k < |lanes|
      ensures LaneSpaced(Elems(first') + Elems(second'), lanes[k].y + off, band, gap)
    {
      SpacedSubset(Elems(first) + Elems(second), Elems(first') + Elems(second'), lanes[k].y + off, band, gap);
    }
  }
}
