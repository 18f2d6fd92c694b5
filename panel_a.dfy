/** Variant A's GamePanel (FroggerExample/src): the game state, level setup, the
    frog's reset and death, the phases of one timer tick, and key commands. */
module PanelA {
  import opened Board
  import opened Geometry
  import opened Actors
  import opened Spacing
  import opened LevelA
  import opened TrafficA
  import Placement
  import opened Lanes
  import opened LaneResolution
  import opened LaneGaps
  import opened Motion
  import opened Scoring
  import opened Panel
  import ImpulseFrog
  import Random

  /** The frog lies where `clampToBoard(WIDTH)` leaves it. */
  predicate FrogPlaced(x: int, y: int) {
    0 <= x <= WIDTH - ImpulseFrog.SIZE && TILE <= y <= START_Y
  }

  /** Every road, river and critter lane holds at least one actor of its kind. */
  ghost predicate Filled(road: seq<Lane>, river: seq<Lane>, critter: seq<Lane>,
                         cars: seq<Actor>, trucks: seq<Actor>, logs: seq<Actor>, birds: seq<Actor>, snakes: seq<Actor>)
  {
    && (forall k | 0 <= k < |road| :: Occupied(Elems(cars) + Elems(trucks), road[k].y, LANE_BAND))
    && (forall k | 0 <= k < |river| :: Occupied(Elems(logs), river[k].y, LANE_BAND))
    && (forall k | 0 <= k < |critter| :: Occupied(Elems(birds) + Elems(snakes), critter[k].y, LANE_BAND))
  }

  class GamePanel {
    const frog: ImpulseFrog.Frog
    const rng: Random.Rng
    var cars: seq<Actor>
    var trucks: seq<Actor>
    var logs: seq<Actor>
    var birds: seq<Actor>
    var snakes: seq<Actor>
    var roadLanes: seq<Lane>
    var riverLanes: seq<Lane>
    var critterLanes: seq<Lane>
    var level: int
    var lives: int
    var ticks: nat
    var score: int
    var bestRowY: int
    var paused: bool

    /** Every actor on the board. */
    ghost function Movers(): set<Actor>
      reads this
    {
      Elems(cars) + Elems(trucks) + Elems(logs) + Elems(birds) + Elems(snakes)
    }

    /** The session, the lane tables of the current level, the lists and the frog's
        position are as `setupLevel` and the tick leave them. */
    ghost predicate Settled()
      reads this, frog
    {
      && level >= 1 && lives >= 1 && score >= 0
      && roadLanes == RoadLanes(level) && riverLanes == RiverLanes(level) && critterLanes == CritterLanes(level)
      && Stocked(cars, trucks, logs, birds, snakes)
      && FrogPlaced(frog.x, frog.y) && TILE <= bestRowY <= START_Y
    }

    /** Every road lane's vehicles and every critter lane's critters keep their gaps. */
    ghost predicate LanesSpaced()
      reads this, Movers()
    {
      Spaced(cars, trucks, roadLanes, 0, LANE_BAND, VEHICLE_MIN_GAP) && Spaced(birds, snakes, critterLanes, 0, LANE_BAND, CRITTER_MIN_GAP)
    }

    /** Every lane holds at least one actor of its kind, as `setupLevel` leaves it. */
    ghost predicate LanesFilled()
      reads this
    {
      Filled(roadLanes, riverLanes, critterLanes, cars, trucks, logs, birds, snakes)
    }

    /** What holds between ticks. */
    ghost predicate Valid()
      reads this, frog, Movers()
    {
      Settled() && LanesSpaced() && frog.alive
    }

    /** A new game: level 1, three lives, no score, the frog on the start tile and the
        first level built. `draw` is the stream of the game's random draws. */
    constructor (draw: nat -> Random.Unit)
      ensures Valid() && fresh(frog) && fresh(rng)
      ensures level == 1 && lives == 3 && score == 0 && ticks == 0 && !paused
      ensures frog.x == START_X && frog.y == START_Y && bestRowY == START_Y
      ensures LanesFilled()
    {
      frog := new ImpulseFrog.Frog(START_X, START_Y);
      rng := new Random.Rng(draw);
      cars, trucks, logs, birds, snakes := [], [], [], [], [];
      roadLanes, riverLanes, critterLanes := [], [], [];
      level, lives, ticks, score, paused := 1, 3, 0, 0, false;
      bestRowY := START_Y;
      new;
      SetupLevel();
    }

    /** Rebuilds the level: the lane tables for `level`, freshly seeded lanes, then the
        frog back on the start tile with the row bonus reset. */
    method SetupLevel()
      requires level >= 1 && lives >= 1 && score >= 0
      modifies this, frog, rng
      ensures Valid() && LanesFilled()
      ensures level == old(level) && lives == old(lives) && score == old(score)
      ensures ticks == old(ticks) && paused == old(paused)
      ensures frog.x == START_X && frog.y == START_Y && bestRowY == START_Y
      ensures frog.vx == old(frog.vx) && frog.vy == old(frog.vy)
      ensures forall a | a in Movers() :: fresh(a)
      ensures |cars| + |trucks| <= 12 && |logs| <= 6 && |birds| + |snakes| <= 6
    {
      var road, river, critter, c, t, l, b, sn := BuildLevel(rng, level);
      Install(road, river, critter, c, t, l, b, sn);
      assert LanesSpaced();
      ResetFrog(false);
    }

    /** Installs a level's lane tables and actor lists; nothing else changes. */
    method Install(road: seq<Lane>, river: seq<Lane>, critter: seq<Lane>,
                   c: seq<Actor>, t: seq<Actor>, l: seq<Actor>, b: seq<Actor>, sn: seq<Actor>)
      modifies this
      ensures roadLanes == road && riverLanes == river && critterLanes == critter
      ensures cars == c && trucks == t && logs == l && birds == b && snakes == sn
      ensures level == old(level) && lives == old(lives) && score == old(score) && bestRowY == old(bestRowY)
      ensures ticks == old(ticks) && paused == old(paused)
    {
      roadLanes, riverLanes, critterLanes := road, river, critter;
      cars, trucks, logs, birds, snakes := c, t, l, b, sn;
    }

    /** Replaces the five actor lists; nothing else changes. */
    method SetActors(c: seq<Actor>, t: seq<Actor>, l: seq<Actor>, b: seq<Actor>, sn: seq<Actor>)
      modifies this
      ensures cars == c && trucks == t && logs == l && birds == b && snakes == sn
      ensures roadLanes == old(roadLanes) && riverLanes == old(riverLanes) && critterLanes == old(critterLanes)
      ensures level == old(level) && lives == old(lives) && score == old(score) && bestRowY == old(bestRowY)
      ensures ticks == old(ticks) && paused == old(paused)
    {
      cars, trucks, logs, birds, snakes := c, t, l, b, sn;
    }

    /** Puts the frog back on the start tile, alive; unless `keepRowBonus`, the row
        high-water mark goes back to the start row. */
    method ResetFrog(keepRowBonus: bool)
      modifies this, frog
      ensures frog.x == START_X && frog.y == START_Y && frog.alive
      ensures frog.vx == old(frog.vx) && frog.vy == old(frog.vy)
      ensures bestRowY == if keepRowBonus then old(bestRowY) else START_Y
      ensures cars == old(cars) && trucks == old(trucks) && logs == old(logs)
      ensures birds == old(birds) && snakes == old(snakes)
      ensures roadLanes == old(roadLanes) && riverLanes == old(riverLanes) && critterLanes == old(critterLanes)
      ensures level == old(level) && lives == old(lives) && score == old(score)
      ensures ticks == old(ticks) && paused == old(paused)
    {
      if !keepRowBonus {
        bestRowY := START_Y;
      }
      frog.x := START_X;
      frog.y := START_Y;
      frog.alive := true;
    }

    /** A death: nothing happens if the frog is already dead; otherwise the session
        moves on as `AfterDeath` says (a life and up to 25 points lost, or a new game
        after the last life) and the level is rebuilt. */
    method Die()
      requires level >= 1 && lives >= 1 && score >= 0
      modifies this, frog, rng
      ensures !old(frog.alive) ==> unchanged(this) && unchanged(frog) && unchanged(rng)
      ensures old(frog.alive) ==>
                && Valid()
                && Session(level, lives, score) == AfterDeath(Session(old(level), old(lives), old(score)))
                && frog.x == START_X && frog.y == START_Y && bestRowY == START_Y
                && ticks == old(ticks) && paused == old(paused)
                && forall a | a in Movers() :: fresh(a)
    {
      if !frog.alive {
        return;
      }
      frog.alive := false;
      lives := lives - 1;
      score := Scoring.Max(0, score - 25);
      if lives <= 0 {
        level, lives, score := 1, 3, 0;
      }
      SetupLevel();
    }

    /** The spawn step of a tick: road, river and critter lanes in turn. New actors are
        appended, fresh, wholly off the board, and came from a lane due at `ticks`; lane by
        lane, `road`, `river` and `critter` trace what each spawn drew and added, the river
        lanes drawing from `p1` on and the critter lanes from `p2` on. */
    method SpawnPhase() returns (ghost p1: nat, ghost p2: nat, ghost road: Placement.Walk, ghost river: Placement.Walk, ghost critter: Placement.Walk)
      requires Settled()
      modifies this, rng
      ensures Settled()
      ensures level == old(level) && lives == old(lives) && score == old(score) && bestRowY == old(bestRowY)
      ensures ticks == old(ticks) && paused == old(paused)
      ensures old(cars) <= cars && old(trucks) <= trucks && old(logs) <= logs
      ensures old(birds) <= birds && old(snakes) <= snakes
      ensures forall i | |old(cars)| <= i < |cars| :: fresh(cars[i]) && OffBoard(cars[i]) && SpawnedOn(cars[i], roadLanes, ticks)
      ensures forall i | |old(trucks)| <= i < |trucks| :: fresh(trucks[i]) && OffBoard(trucks[i]) && SpawnedOn(trucks[i], roadLanes, ticks)
      ensures forall i | |old(logs)| <= i < |logs| :: fresh(logs[i]) && OffBoard(logs[i]) && SpawnedOn(logs[i], riverLanes, ticks)
      ensures forall i | |old(birds)| <= i < |birds| :: fresh(birds[i]) && OffBoard(birds[i]) && SpawnedOn(birds[i], critterLanes, ticks)
      ensures forall i | |old(snakes)| <= i < |snakes| :: fresh(snakes[i]) && OffBoard(snakes[i]) && SpawnedOn(snakes[i], critterLanes, ticks)
      ensures RoadSpawned(roadLanes, |roadLanes|, ticks, rng.draw, old(rng.pos), p1, old(cars), old(trucks), cars, trucks, road)
      ensures RiverSpawned(riverLanes, |riverLanes|, ticks, rng.draw, p1, p2, old(logs), logs, river)
      ensures CrittersSpawned(critterLanes, |critterLanes|, ticks, rng.draw, p2, rng.pos, old(birds), old(snakes), birds, snakes, critter)
    {
      var c, t, l, b, sn;
      c, t, l, b, sn, p1, p2, road, river, critter :=
        SpawnLanes(rng, roadLanes, riverLanes, critterLanes, ticks, cars, trucks, logs, birds, snakes);
      SetActors(c, t, l, b, sn);
    }

    /** The Euler step of a tick: every actor of every list advances by its speed. */
    method MovePhase()
      requires Stocked(cars, trucks, logs, birds, snakes)
      modifies Movers()
      ensures forall a | a in Movers() :: a.x == old(a.x) + a.speed
    {
      StepAll(cars);
      StepAll(trucks);
      StepAll(logs);
      StepAll(birds);
      StepAll(snakes);
    }

    /** `resolveVehicleGaps` then `resolveCritterGaps`: afterwards every road and critter
        lane keeps its gap, actors in a lane have only moved forward along it, and
        everything else is where it was. `starts` records where each road and critter actor
        stood before the phase; lane `k` of each table was walked in the order of those
        positions (`roadOrders[k]`, `critterOrders[k]`), each actor ending where the
        resolver's walk from them puts it. */
    method ResolvePhase()
        returns (ghost starts: map<Actor, real>, ghost roadOrders: seq<seq<Actor>>, ghost critterOrders: seq<seq<Actor>>)
      requires Settled()
      modifies Movers()
      ensures LanesSpaced()
      ensures forall a | a in Elems(cars) + Elems(trucks) + Elems(birds) + Elems(snakes) :: a in starts && starts[a] == old(a.x)
      ensures TableResolved(roadLanes, cars, trucks, VEHICLE_MIN_GAP, starts, roadOrders)
      ensures TableResolved(critterLanes, birds, snakes, CRITTER_MIN_GAP, starts, critterOrders)
      ensures forall a | a in Elems(logs) :: a.x == old(a.x)
    {
      TablesApart(level);
      starts := map a | a in Elems(cars) + Elems(trucks) + Elems(birds) + Elems(snakes) :: a.x;
      roadOrders, critterOrders := ResolveTables(roadLanes, critterLanes, cars, trucks, logs, birds, snakes, starts);
    }

    /** The off-board cleanup: each list keeps exactly those of its actors within the
        cull margin; the lanes stay spaced. */
    method CullPhase()
      requires Settled() && LanesSpaced()
      modifies this
      ensures Settled() && LanesSpaced()
      ensures cars == old(Culled(cars)) && trucks == old(Culled(trucks)) && logs == old(Culled(logs))
      ensures birds == old(Culled(birds)) && snakes == old(Culled(snakes))
      ensures level == old(level) && lives == old(lives) && score == old(score) && bestRowY == old(bestRowY)
      ensures ticks == old(ticks) && paused == old(paused)
    {
      var c, t, l, b, sn := CullAll(cars, trucks, logs, birds, snakes, roadLanes, critterLanes);
      SetActors(c, t, l, b, sn);
    }

    /** The frog applies its impulse, then rows climbed past the high-water mark are
        scored as `RowScored` says. */
    method FrogPhase()
      requires Settled()
      modifies this, frog
      ensures Settled()
      ensures old(frog.vx) != 0 || old(frog.vy) != 0 ==>
                (frog.x, frog.y) == ImpulseFrog.Clamped(old(frog.x) + old(frog.vx), old(frog.y) + old(frog.vy), WIDTH)
      ensures old(frog.vx) == 0 && old(frog.vy) == 0 ==> frog.x == old(frog.x) && frog.y == old(frog.y)
      ensures frog.vx == 0 && frog.vy == 0 && frog.alive == old(frog.alive)
      ensures Progress(score, bestRowY) == RowScored(Progress(old(score), old(bestRowY)), frog.y)
      ensures cars == old(cars) && trucks == old(trucks) && logs == old(logs)
      ensures birds == old(birds) && snakes == old(snakes)
      ensures roadLanes == old(roadLanes) && riverLanes == old(riverLanes) && critterLanes == old(critterLanes)
      ensures level == old(level) && lives == old(lives) && ticks == old(ticks) && paused == old(paused)
    {
      frog.Update();
      if frog.y < bestRowY {
        var rowsUp := (bestRowY - frog.y) / TILE;
        if rowsUp > 0 {
          score := score + rowsUp * 10;
          bestRowY := frog.y;
        }
      }
    }

    /** The checks that end a tick. A hazard under the frog kills it; otherwise a frog in
        the river dies unless a log carries it (by the first log's speed, then clamped);
        otherwise a frog on the goal row scores 100 and the next level is built. */
    method Judge() returns (outcome: Outcome)
      requires Valid()
      modifies this, frog, rng
      ensures Valid() && outcome != Paused
      ensures ticks == old(ticks) && paused == old(paused)
      ensures old(Hazard(cars, trucks, birds, snakes, frog.Bounds())) ==> outcome == Died
      ensures !old(Hazard(cars, trucks, birds, snakes, frog.Bounds())) && InRiver(old(frog.y)) && old(FirstCarrier(logs, frog.Bounds())).None? ==> outcome == Died
      ensures !old(Hazard(cars, trucks, birds, snakes, frog.Bounds())) && InRiver(old(frog.y)) && old(FirstCarrier(logs, frog.Bounds())).Some? ==>
                && outcome == Continued
                && frog.x == ImpulseFrog.Clamped(Trunc(old(frog.x) as real + old(FirstCarrier(logs, frog.Bounds())).value),
                                                 old(frog.y), WIDTH).0
      ensures !old(Hazard(cars, trucks, birds, snakes, frog.Bounds())) && !InRiver(old(frog.y)) ==> outcome == (if AtGoal(old(frog.y)) then Advanced else Continued)
      ensures outcome == Died ==>
                && Session(level, lives, score) == AfterDeath(Session(old(level), old(lives), old(score)))
                && frog.x == START_X && frog.y == START_Y && bestRowY == START_Y
                && forall a | a in Movers() :: fresh(a)
      ensures outcome == Advanced ==>
                && level == old(level) + 1 && lives == old(lives) && score == old(score) + 100
                && frog.x == START_X && frog.y == START_Y && bestRowY == START_Y
                && forall a | a in Movers() :: fresh(a)
      ensures outcome == Continued ==>
                && level == old(level) && lives == old(lives) && score == old(score) && bestRowY == old(bestRowY)
                && cars == old(cars) && trucks == old(trucks) && logs == old(logs)
                && birds == old(birds) && snakes == old(snakes)
                && frog.y == old(frog.y) && (!InRiver(frog.y) ==> frog.x == old(frog.x))
    {
      if Hazard(cars, trucks, birds, snakes, frog.Bounds()) {
        Die();
        return Died;
      }
      outcome := RiverAndGoal();
    }

    /** The checks after the hazard check: a frog in the river dies unless a log carries
        it; otherwise a frog on the goal row advances the level. */
    method RiverAndGoal() returns (outcome: Outcome)
      requires Valid()
      modifies this, frog, rng
      ensures Valid() && outcome != Paused
      ensures ticks == old(ticks) && paused == old(paused)
      ensures InRiver(old(frog.y)) && old(FirstCarrier(logs, frog.Bounds())).None? ==> outcome == Died
      ensures InRiver(old(frog.y)) && old(FirstCarrier(logs, frog.Bounds())).Some? ==>
                && outcome == Continued
                && frog.x == ImpulseFrog.Clamped(Trunc(old(frog.x) as real + old(FirstCarrier(logs, frog.Bounds())).value),
                                                 old(frog.y), WIDTH).0
      ensures !InRiver(old(frog.y)) ==> outcome == (if AtGoal(old(frog.y)) then Advanced else Continued)
      ensures outcome == Died ==>
                && Session(level, lives, score) == AfterDeath(Session(old(level), old(lives), old(score)))
                && frog.x == START_X && frog.y == START_Y && bestRowY == START_Y
                && forall a | a in Movers() :: fresh(a)
      ensures outcome == Advanced ==>
                && level == old(level) + 1 && lives == old(lives) && score == old(score) + 100
                && frog.x == START_X && frog.y == START_Y && bestRowY == START_Y
                && forall a | a in Movers() :: fresh(a)
      ensures outcome == Continued ==>
                && level == old(level) && lives == old(lives) && score == old(score) && bestRowY == old(bestRowY)
                && cars == old(cars) && trucks == old(trucks) && logs == old(logs)
                && birds == old(birds) && snakes == old(snakes)
                && frog.y == old(frog.y) && (!InRiver(frog.y) ==> frog.x == old(frog.x))
    {
      if InRiver(frog.y) {
        var drowned := CrossRiver();
        if drowned {
          return Died;
        }
      }
      if AtGoal(frog.y) {
        Advance();
        return Advanced;
      }
      return Continued;
    }

    /** The river check for a frog in the river band: with no log under it the frog
        dies; otherwise the first log under it carries it by its speed, then the frog is
        clamped. */
    method CrossRiver() returns (drowned: bool)
      requires Valid() && InRiver(frog.y)
      modifies this, frog, rng
      ensures Valid()
      ensures ticks == old(ticks) && paused == old(paused)
      ensures drowned == old(FirstCarrier(logs, frog.Bounds())).None?
      ensures drowned ==>
                && Session(level, lives, score) == AfterDeath(Session(old(level), old(lives), old(score)))
                && frog.x == START_X && frog.y == START_Y && bestRowY == START_Y
                && forall a | a in Movers() :: fresh(a)
      ensures !drowned ==>
                && level == old(level) && lives == old(lives) && score == old(score) && bestRowY == old(bestRowY)
                && cars == old(cars) && trucks == old(trucks) && logs == old(logs)
                && birds == old(birds) && snakes == old(snakes)
                && frog.y == old(frog.y)
                && frog.x == ImpulseFrog.Clamped(Trunc(old(frog.x) as real + old(FirstCarrier(logs, frog.Bounds())).value),
                                                 old(frog.y), WIDTH).0
    {
      var carry := FirstCarrier(logs, frog.Bounds());
      if carry.None? {
        Die();
        return true;
      }
      Ride(carry.value);
      return false;
    }

    /** The goal row is reached: 100 points, the next level, and the level rebuilt. */
    method Advance()
      requires Valid()
      modifies this, frog, rng
      ensures Valid()
      ensures level == old(level) + 1 && lives == old(lives) && score == old(score) + 100
      ensures frog.x == START_X && frog.y == START_Y && bestRowY == START_Y
      ensures ticks == old(ticks) && paused == old(paused)
      ensures forall a | a in Movers() :: fresh(a)
    {
      score := score + 100;
      level := level + 1;
      SetupLevel();
    }

    /** The frog rides a log: its x moves by the log's speed, truncated as the
        `int += double` assignment does, and it is clamped to the board. */
    method Ride(carry: real)
      requires Valid()
      modifies frog
      ensures Valid()
      ensures (frog.x, frog.y) == ImpulseFrog.Clamped(Trunc(old(frog.x) as real + carry), old(frog.y), WIDTH)
      ensures frog.vx == old(frog.vx) && frog.vy == old(frog.vy) && frog.alive == old(frog.alive)
    {
      frog.x := Trunc(frog.x as real + carry);
      frog.ClampToBoard(WIDTH);
    }

    /** The actor phases of a tick, in order: spawn, move, resolve gaps, cull. */
    method TrafficPhases()
      requires Valid()
      modifies this, rng, Movers()
      ensures Valid()
      ensures level == old(level) && lives == old(lives) && score == old(score) && bestRowY == old(bestRowY)
      ensures ticks == old(ticks) && paused == old(paused)
    {
      ghost var p1, p2, road, river, critter := SpawnPhase();
      SettlePhases();
    }

    /** The actor phases after spawning: move, resolve gaps, cull. */
    method SettlePhases()
      requires Settled()
      modifies this, Movers()
      ensures Settled() && LanesSpaced()
      ensures level == old(level) && lives == old(lives) && score == old(score) && bestRowY == old(bestRowY)
      ensures ticks == old(ticks) && paused == old(paused)
    {
      MovePhase();
      ghost var starts, roadOrders, critterOrders := ResolvePhase();
      CullPhase();
    }

    /** One timer tick (`actionPerformed`). A paused game changes nothing. Otherwise the
        tick counter advances and the phases run in order: spawn, move, resolve gaps,
        cull, frog and scoring, then the hazard, river and goal checks. */
    method Tick() returns (outcome: Outcome, ghost row: int)
      requires Valid()
      modifies this, frog, rng, Movers()
      ensures Valid()
      ensures old(paused) ==>
                outcome == Paused && unchanged(this) && unchanged(frog) && unchanged(rng)
                && forall a | a in old(Movers()) :: unchanged(a)
      ensures !old(paused) ==> outcome != Paused && ticks == old(ticks) + 1 && !paused
      ensures !old(paused) ==> row == ImpulseFrog.RowAfter(old(frog.x), old(frog.y), old(frog.vx), old(frog.vy))
      ensures outcome == Continued ==> level == old(level) && lives == old(lives) && score >= old(score)
      ensures outcome == Advanced ==> level == old(level) + 1 && lives == old(lives)
      ensures outcome == Died ==> if old(lives) > 1 then level == old(level) && lives == old(lives) - 1
                                 else level == 1 && lives == 3 && score == 0
      ensures var scored := RowScored(Progress(old(score), old(bestRowY)), row).score;
              && (outcome == Continued ==> score == scored)
              && (outcome == Advanced ==> score == scored + 100)
              && (outcome == Died ==> Session(level, lives, score) == AfterDeath(Session(old(level), old(lives), scored)))
    {
      if paused {
        return Paused, frog.y;
      }
      outcome, row := Step();
    }

    /** An unpaused tick: the counter advances, then the actor phases, the frog phase
        and the checks that end the tick run in order. */
    method Step() returns (outcome: Outcome, ghost row: int)
      requires Valid() && !paused
      modifies this, frog, rng, Movers()
      ensures Valid() && outcome != Paused && ticks == old(ticks) + 1 && !paused
      ensures row == ImpulseFrog.RowAfter(old(frog.x), old(frog.y), old(frog.vx), old(frog.vy))
      ensures outcome == Continued ==> level == old(level) && lives == old(lives) && score >= old(score)
      ensures outcome == Advanced ==> level == old(level) + 1 && lives == old(lives)
      ensures outcome == Died ==> if old(lives) > 1 then level == old(level) && lives == old(lives) - 1
                                 else level == 1 && lives == 3 && score == 0
      ensures var scored := RowScored(Progress(old(score), old(bestRowY)), row).score;
              && (outcome == Continued ==> score == scored)
              && (outcome == Advanced ==> score == scored + 100)
              && (outcome == Died ==> Session(level, lives, score) == AfterDeath(Session(old(level), old(lives), scored)))
    {
      ticks := ticks + 1;
      TrafficPhases();
      FrogPhase();
      row := frog.y;
      outcome := Judge();
    }

    /** A key press: an arrow key records a one-tile impulse, P toggles the pause, and
        every other key (H only toggles the help overlay) leaves the game as it is. */
    method KeyPressed(key: Key)
      modifies this, frog
      ensures frog.x == old(frog.x) && frog.y == old(frog.y) && frog.alive == old(frog.alive)
      ensures key == KeyLeft ==> frog.vx == -TILE && frog.vy == 0
      ensures key == KeyRight ==> frog.vx == TILE && frog.vy == 0
      ensures key == KeyUp ==> frog.vx == 0 && frog.vy == -TILE
      ensures key == KeyDown ==> frog.vx == 0 && frog.vy == TILE
      ensures key !in {KeyLeft, KeyRight, KeyUp, KeyDown} ==> unchanged(frog)
      ensures paused == (if key == KeyP then !old(paused) else old(paused))
      ensures key != KeyP ==> unchanged(this)
      ensures key == KeyP ==>
                && cars == old(cars) && trucks == old(trucks) && logs == old(logs)
                && birds == old(birds) && snakes == old(snakes)
                && level == old(level) && lives == old(lives) && score == old(score)
                && bestRowY == old(bestRowY) && ticks == old(ticks)
                && roadLanes == old(roadLanes) && riverLanes == old(riverLanes) && critterLanes == old(critterLanes)
    {
      match key
      case KeyLeft => frog.Nudge(-TILE, 0);
      case KeyRight => frog.Nudge(TILE, 0);
      case KeyUp => frog.Nudge(0, -TILE);
      case KeyDown => frog.Nudge(0, TILE);
      case KeyP => paused := !paused;
      case KeyH =>
      case OtherKey =>
    }
  }

  /** The lane tables of `level` and freshly seeded lanes: every list stocked, every
      road and critter lane spaced, every lane holding at least one actor. */
  method BuildLevel(rng: Random.Rng, level: int)
    returns (road: seq<Lane>, river: seq<Lane>, critter: seq<Lane>,
             cars: seq<Actor>, trucks: seq<Actor>, logs: seq<Actor>, birds: seq<Actor>, snakes: seq<Actor>)
    requires level >= 1
    modifies rng
    ensures road == RoadLanes(level) && river == RiverLanes(level) && critter == CritterLanes(level)
    ensures Stocked(cars, trucks, logs, birds, snakes)
    ensures Spaced(cars, trucks, road, 0, LANE_BAND, VEHICLE_MIN_GAP) && Spaced(birds, snakes, critter, 0, LANE_BAND, CRITTER_MIN_GAP)
    ensures forall a | a in Elems(cars) + Elems(trucks) + Elems(logs) + Elems(birds) + Elems(snakes) :: fresh(a)
    ensures |cars| + |trucks| <= 12 && |logs| <= 6 && |birds| + |snakes| <= 6
    ensures Filled(road, river, critter, cars, trucks, logs, birds, snakes)
  {
    road, river, critter := RoadLanes(level), RiverLanes(level), CritterLanes(level);
    TablesApart(level);
    cars, trucks, logs, birds, snakes := SeedTables(rng, road, river, critter);
  }

  /** The seeding passes of `setupLevel` over given lane tables, road then river then
      critters. */
  method SeedTables(rng: Random.Rng, road: seq<Lane>, river: seq<Lane>, critter: seq<Lane>)
    returns (cars: seq<Actor>, trucks: seq<Actor>, logs: seq<Actor>, birds: seq<Actor>, snakes: seq<Actor>)
    requires Apart(road) && Apart(river) && Apart(critter)
    requires |road| == 6 && |river| == 3 && |critter| == 3
    modifies rng
    ensures Stocked(cars, trucks, logs, birds, snakes)
    ensures Spaced(cars, trucks, road, 0, LANE_BAND, VEHICLE_MIN_GAP) && Spaced(birds, snakes, critter, 0, LANE_BAND, CRITTER_MIN_GAP)
    ensures forall a | a in Elems(cars) + Elems(trucks) + Elems(logs) + Elems(birds) + Elems(snakes) :: fresh(a)
    ensures |cars| + |trucks| <= 12 && |logs| <= 6 && |birds| + |snakes| <= 6
    ensures forall k | 0 <= k < |road| :: Occupied(Elems(cars) + Elems(trucks), road[k].y, LANE_BAND)
    ensures forall k | 0 <= k < |river| :: Occupied(Elems(logs), river[k].y, LANE_BAND)
    ensures forall k | 0 <= k < |critter| :: Occupied(Elems(birds) + Elems(snakes), critter[k].y, LANE_BAND)
  {
    cars, trucks := SeedRoad(rng, road);
    assert Spaced(cars, trucks, road, 0, LANE_BAND, VEHICLE_MIN_GAP);
    logs := SeedRiver(rng, river);
    birds, snakes := SeedCritters(rng, critter);
    forall a | a in Elems(cars) + Elems(trucks) + Elems(logs) + Elems(birds) + Elems(snakes)
      ensures fresh(a)
    {
      if a in Elems(cars) + Elems(trucks) {
      } else if a in Elems(logs) {
      } else {
        assert a in Elems(birds) + Elems(snakes);
      }
    }
  }

  /** One lane table after its pass, against the positions `starts` before it: every
      lane keeps `gap`, an actor in a lane has only moved forward from its start, and lane
      `k` was walked in `orders[k]`, its actors in the order of their starts, each ending
      where the resolver's walk from those starts puts it. */
  ghost predicate TableResolved(lanes: seq<Lane>, first: seq<Actor>, second: seq<Actor>, gap: int,
                                starts: map<Actor, real>, orders: seq<seq<Actor>>)
    reads set a | a in first, set a | a in second
  {
    && Keyed(first, starts) && Keyed(second, starts)
    && Spaced(first, second, lanes, 0, LANE_BAND, gap)
    && (forall k, a | 0 <= k < |lanes| && a in Elems(first) + Elems(second) && InLane(a, lanes[k].y, LANE_BAND) ::
          if lanes[k].Rightward() then starts[a] <= a.x else a.x <= starts[a])
    && |orders| == |lanes|
    && (forall k, a | 0 <= k < |lanes| && a in orders[k] :: a in first || a in second)
    && (forall k | 0 <= k < |lanes| :: orders[k] == SortedLane(first, second, lanes[k].y, LANE_BAND, lanes[k].Rightward(), starts))
    && (forall k, i | 0 <= k < |lanes| && 0 <= i < |orders[k]| ::
          orders[k][i].x == ResolvedAt(StartsIn(orders[k], starts), Ws(orders[k]), gap, lanes[k].Rightward(), i))
  }

  /** The lane-wide passes of one tick over the road and critter tables, as
      `GamePanel.ResolvePhase` states them; `starts` holds every road and critter actor's
      position before the passes. */
  method ResolveTables(road: seq<Lane>, critter: seq<Lane>, cars: seq<Actor>, trucks: seq<Actor>,
                       logs: seq<Actor>, birds: seq<Actor>, snakes: seq<Actor>, ghost starts: map<Actor, real>)
      returns (ghost roadOrders: seq<seq<Actor>>, ghost critterOrders: seq<seq<Actor>>)
    requires Apart(road) && Apart(critter) && Stocked(cars, trucks, logs, birds, snakes)
    requires forall a | a in Elems(cars) + Elems(trucks) + Elems(birds) + Elems(snakes) :: a in starts && starts[a] == a.x
    modifies set a | a in cars, set a | a in trucks, set a | a in birds, set a | a in snakes
    ensures TableResolved(road, cars, trucks, VEHICLE_MIN_GAP, starts, roadOrders)
    ensures TableResolved(critter, birds, snakes, CRITTER_MIN_GAP, starts, critterOrders)
    ensures forall a | a in Elems(logs) :: a.x == old(a.x)
  {
    OffRoad(cars, trucks, logs, birds, snakes);
    roadOrders := ResolveTable(road, cars, trucks, VEHICLE_MIN_GAP, starts);
    assert forall a | a in Elems(birds) + Elems(snakes) :: a.x == starts[a];
    critterOrders := ResolveTable(critter, birds, snakes, CRITTER_MIN_GAP, starts);
  }

  /** The pass over one lane table, each lane on its own track (`resolveVehicleGaps` or
      `resolveCritterGaps`). */
  method ResolveTable(lanes: seq<Lane>, first: seq<Actor>, second: seq<Actor>, gap: int, ghost starts: map<Actor, real>)
      returns (ghost orders: seq<seq<Actor>>)
    requires Apart(lanes) && gap >= 0
    requires Distinct(first) && Distinct(second) && forall a | a in first :: a !in second
    requires forall a | a in Elems(first) + Elems(second) :: a.w >= 0 && a in starts && starts[a] == a.x
    modifies set a | a in first, set a | a in second
    ensures TableResolved(lanes, first, second, gap, starts, orders)
  {
    orders := ResolveLanes(lanes, first, second, 0, LANE_BAND, gap, starts);
  }

  /** The spawn step over the lane tables `road`, `river` and `critter`, in that order:
      each list only grows, by fresh actors wholly off the board that came from a lane due
      at `ticks`, and `wr`, `wv` and `wc` trace each lane's spawn, the river lanes drawing
      from `p1` on and the critter lanes from `p2` on. */
  method SpawnLanes(rng: Random.Rng, road: seq<Lane>, river: seq<Lane>, critter: seq<Lane>, ticks: nat,
                    cars: seq<Actor>, trucks: seq<Actor>, logs: seq<Actor>, birds: seq<Actor>, snakes: seq<Actor>)
    returns (cars': seq<Actor>, trucks': seq<Actor>, logs': seq<Actor>, birds': seq<Actor>, snakes': seq<Actor>,
             ghost p1: nat, ghost p2: nat, ghost wr: Placement.Walk, ghost wv: Placement.Walk, ghost wc: Placement.Walk)
    requires forall k | 0 <= k < |road| :: road[k].spawnEvery > 0
    requires forall k | 0 <= k < |river| :: river[k].spawnEvery > 0
    requires forall k | 0 <= k < |critter| :: critter[k].spawnEvery > 0
    requires Stocked(cars, trucks, logs, birds, snakes)
    modifies rng
    ensures Stocked(cars', trucks', logs', birds', snakes')
    ensures cars <= cars' && trucks <= trucks' && logs <= logs' && birds <= birds' && snakes <= snakes'
    ensures forall i | |cars| <= i < |cars'| :: fresh(cars'[i]) && OffBoard(cars'[i]) && SpawnedOn(cars'[i], road, ticks)
    ensures forall i | |trucks| <= i < |trucks'| :: fresh(trucks'[i]) && OffBoard(trucks'[i]) && SpawnedOn(trucks'[i], road, ticks)
    ensures forall i | |logs| <= i < |logs'| :: fresh(logs'[i]) && OffBoard(logs'[i]) && SpawnedOn(logs'[i], river, ticks)
    ensures forall i | |birds| <= i < |birds'| :: fresh(birds'[i]) && OffBoard(birds'[i]) && SpawnedOn(birds'[i], critter, ticks)
    ensures forall i | |snakes| <= i < |snakes'| :: fresh(snakes'[i]) && OffBoard(snakes'[i]) && SpawnedOn(snakes'[i], critter, ticks)
    ensures RoadSpawned(road, |road|, ticks, rng.draw, old(rng.pos), p1, cars, trucks, cars', trucks', wr)
    ensures RiverSpawned(river, |river|, ticks, rng.draw, p1, p2, logs, logs', wv)
    ensures CrittersSpawned(critter, |critter|, ticks, rng.draw, p2, rng.pos, birds, snakes, birds', snakes', wc)
  {
    cars', trucks', wr := SpawnRoad(rng, road, ticks, cars, trucks);
    p1 := rng.pos;
    logs', wv := SpawnRiver(rng, river, ticks, logs);
    p2 := rng.pos;
    birds', snakes', wc := SpawnCritters(rng, critter, ticks, birds, snakes);
  }

  method CullAll(cars: seq<Actor>, trucks: seq<Actor>, logs: seq<Actor>, birds: seq<Actor>, snakes: seq<Actor>,
                 road: seq<Lane>, critter: seq<Lane>)
    returns (cars': seq<Actor>, trucks': seq<Actor>, logs': seq<Actor>, birds': seq<Actor>, snakes': seq<Actor>)
    requires Stocked(cars, trucks, logs, birds, snakes)
    requires Spaced(cars, trucks, road, 0, LANE_BAND, VEHICLE_MIN_GAP) && Spaced(birds, snakes, critter, 0, LANE_BAND, CRITTER_MIN_GAP)
    ensures Stocked(cars', trucks', logs', birds', snakes')
    ensures Spaced(cars', trucks', road, 0, LANE_BAND, VEHICLE_MIN_GAP) && Spaced(birds', snakes', critter, 0, LANE_BAND, CRITTER_MIN_GAP)
    ensures KeptOnBoard(cars', cars) && KeptOnBoard(trucks', trucks) && KeptOnBoard(logs', logs)
    ensures KeptOnBoard(birds', birds) && KeptOnBoard(snakes', snakes)
    ensures cars' == Culled(cars) && trucks' == Culled(trucks) && logs' == Culled(logs)
    ensures birds' == Culled(birds) && snakes' == Culled(snakes)
  {
    cars', trucks', logs', birds', snakes' := Culled(cars), Culled(trucks), Culled(logs), Culled(birds), Culled(snakes);
    CulledSpaced(cars, trucks, cars', trucks', road, 0, LANE_BAND, VEHICLE_MIN_GAP);
    CulledSpaced(birds, snakes, birds', snakes', critter, 0, LANE_BAND, CRITTER_MIN_GAP);
  }
}
