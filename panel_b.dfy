/** Variant B's GamePanel (FroggerExample/FroggerExample/src): level 1 is the regular
    game; reaching the goal switches to level 2, a blank free-play board with no lanes,
    no actors, no scoring and no deaths, where the frog moves freely. */
module PanelB {
  import opened Board
  import opened Geometry
  import opened Actors
  import opened Spacing
  import opened LevelB
  import opened TrafficB
  import Placement
  import opened Lanes
  import SingleTrack
  import opened Motion
  import opened Scoring
  import opened Panel
  import LevelA
  import FacingFrog
  import Random

  /** Every road, river and critter lane holds at least one actor of its kind: a vehicle
      on the road lane's track, a log or a critter within the lane's band. */
  ghost predicate Filled(road: seq<Lane>, river: seq<Lane>, critter: seq<Lane>,
                         cars: seq<Actor>, trucks: seq<Actor>, logs: seq<Actor>, birds: seq<Actor>, snakes: seq<Actor>)
  {
    && (forall k | 0 <= k < |road| :: Occupied(Elems(cars) + Elems(trucks), road[k].y + ROAD_TRACK, ROAD_BAND))
    && (forall k | 0 <= k < |river| :: Occupied(Elems(logs), river[k].y, LevelB.LANE_BAND))
    && (forall k | 0 <= k < |critter| :: Occupied(Elems(birds) + Elems(snakes), critter[k].y, LevelB.LANE_BAND))
  }

  class GamePanel {
    const frog: FacingFrog.Frog
    const rng: Random.Rng
    var cars: seq<Actor>
    var trucks: seq<Actor>
    var logs: seq<Actor>
    var birds: seq<Actor>
    var snakes: seq<Actor>
    var roadLanes: seq<Lane>
    var riverLanes: seq<Lane>
    var critterLanes: seq<Lane>
    var level: int
    var freePlay: bool
    var lives: int
    var ticks: nat
    var score: int
    var bestRowY: int
    var paused: bool

    /** Every actor on the board. */
    ghost function Movers(): set<Actor>
      reads this
    {
      Elems(cars) + Elems(trucks) + Elems(logs) + Elems(birds) + Elems(snakes)
    }

    /** The free-play board: no lanes and no actors. */
    ghost predicate Blank()
      reads this
    {
      && cars == [] && trucks == [] && logs == [] && birds == [] && snakes == []
      && roadLanes == [] && riverLanes == [] && critterLanes == []
    }

    /** The session and the board are as `setupLevel` and the tick leave them: free play
        exactly from level 2 on, with a blank board; otherwise the level's lane tables. */
    ghost predicate Settled()
      reads this
    {
      && level >= 1 && lives >= 1 && score >= 0 && bestRowY <= START_Y
      && freePlay == (level >= 2)
      && (freePlay ==> Blank())
      && (!freePlay ==> roadLanes == RoadLanes(level) && riverLanes == LevelA.RiverLanes(level)
                        && critterLanes == CritterLanes(level))
      && Stocked(cars, trucks, logs, birds, snakes)
    }

    /** Every lane holds at least one actor of its kind, as `setupLevel` leaves it. */
    ghost predicate LanesFilled()
      reads this
    {
      Filled(roadLanes, riverLanes, critterLanes, cars, trucks, logs, birds, snakes)
    }

    /** What holds between ticks. */
    ghost predicate Valid()
      reads this, frog, Movers()
    {
      Settled() && frog.alive
    }

    /** A new game: level 1, three lives, no score, the frog on the start tile and the
        first level built. `draw` is the stream of the game's random draws. */
    constructor (draw: nat -> Random.Unit)
      ensures Valid() && fresh(frog) && fresh(rng)
      ensures level == 1 && !freePlay && lives == 3 && score == 0 && ticks == 0 && !paused
      ensures frog.x == START_X && frog.y == START_Y && bestRowY == START_Y
    {
      frog := new FacingFrog.Frog(START_X, START_Y);
      rng := new Random.Rng(draw);
      cars, trucks, logs, birds, snakes := [], [], [], [], [];
      roadLanes, riverLanes, critterLanes := [], [], [];
      level, freePlay, lives, ticks, score, paused := 1, false, 3, 0, 0, false;
      bestRowY := START_Y;
      new;
      SetupLevel();
    }

    /** Rebuilds the level: from level 2 on a blank free-play board, otherwise the lane
        tables and freshly seeded lanes; then the frog goes back to the start tile with
        the row bonus reset. */
    method SetupLevel()
      requires level >= 1 && lives >= 1 && score >= 0
      modifies this, frog, rng
      ensures Valid() && LanesFilled() && freePlay == (level >= 2)
      ensures level == old(level) && lives == old(lives) && score == old(score)
      ensures ticks == old(ticks) && paused == old(paused)
      ensures freePlay ==> rng.pos == old(rng.pos)
      ensures frog.x == START_X && frog.y == START_Y && bestRowY == START_Y && frog.facing == old(frog.facing)
      ensures forall a | a in Movers() :: fresh(a)
      ensures |cars| + |trucks| <= 12 && |logs| <= 6 && |birds| + |snakes| <= 6
    {
      if level >= 2 {
        SetupBlank();
      } else {
        SetupRegular();
      }
    }

    /** The free-play branch of `setupLevel`: everything cleared, no lanes. */
    method SetupBlank()
      requires level >= 2 && lives >= 1 && score >= 0
      modifies this, frog
      ensures Valid() && Blank() && freePlay
      ensures level == old(level) && lives == old(lives) && score == old(score)
      ensures ticks == old(ticks) && paused == old(paused)
      ensures frog.x == START_X && frog.y == START_Y && bestRowY == START_Y && frog.facing == old(frog.facing)
    {
      SetLanes(true, [], [], []);
      SetActors([], [], [], [], []);
      ResetFrog(false);
    }

    /** The regular branch of `setupLevel`: the lane tables and freshly seeded lanes. */
    method SetupRegular()
      requires 1 <= level < 2 && lives >= 1 && score >= 0
      modifies this, frog, rng
      ensures Valid() && LanesFilled() && !freePlay
      ensures level == old(level) && lives == old(lives) && score == old(score)
      ensures ticks == old(ticks) && paused == old(paused)
      ensures frog.x == START_X && frog.y == START_Y && bestRowY == START_Y && frog.facing == old(frog.facing)
      ensures forall a | a in Movers() :: fresh(a)
      ensures |cars| + |trucks| <= 12 && |logs| <= 6 && |birds| + |snakes| <= 6
    {
      var road, river, critter, c, t, l, b, sn := BuildLevel(rng, level);
      ResetFrog(false);
      Install(road, river, critter, c, t, l, b, sn);
    }

    /** Installs a regular level's lane tables and seeded lists, leaving the session and
        the frog as they are. */
    method Install(road: seq<Lane>, river: seq<Lane>, critter: seq<Lane>,
                   c: seq<Actor>, t: seq<Actor>, l: seq<Actor>, b: seq<Actor>, sn: seq<Actor>)
      requires 1 <= level < 2 && lives >= 1 && score >= 0 && bestRowY <= START_Y && frog.alive
      requires road == RoadLanes(level) && river == LevelA.RiverLanes(level) && critter == CritterLanes(level)
      requires Stocked(c, t, l, b, sn)
      modifies this
      ensures Valid() && !freePlay
      ensures roadLanes == road && riverLanes == river && critterLanes == critter
      ensures cars == c && trucks == t && logs == l && birds == b && snakes == sn
      ensures level == old(level) && lives == old(lives) && score == old(score) && bestRowY == old(bestRowY)
      ensures ticks == old(ticks) && paused == old(paused)
    {
      SetLanes(false, road, river, critter);
      SetActors(c, t, l, b, sn);
    }

    /** Installs the mode and a level's lane tables; nothing else changes. */
    method SetLanes(fp: bool, road: seq<Lane>, river: seq<Lane>, critter: seq<Lane>)
      modifies this
      ensures freePlay == fp && roadLanes == road && riverLanes == river && critterLanes == critter
      ensures cars == old(cars) && trucks == old(trucks) && logs == old(logs) && birds == old(birds) && snakes == old(snakes)
      ensures level == old(level) && lives == old(lives) && score == old(score) && bestRowY == old(bestRowY)
      ensures ticks == old(ticks) && paused == old(paused)
    {
      freePlay := fp;
      roadLanes, riverLanes, critterLanes := road, river, critter;
    }

    /** Replaces the five actor lists; nothing else changes. */
    method SetActors(c: seq<Actor>, t: seq<Actor>, l: seq<Actor>, b: seq<Actor>, sn: seq<Actor>)
      modifies this
      ensures cars == c && trucks == t && logs == l && birds == b && snakes == sn
      ensures roadLanes == old(roadLanes) && riverLanes == old(riverLanes) && critterLanes == old(critterLanes)
      ensures level == old(level) && freePlay == old(freePlay) && lives == old(lives) && score == old(score)
      ensures bestRowY == old(bestRowY) && ticks == old(ticks) && paused == old(paused)
    {
      cars, trucks, logs, birds, snakes := c, t, l, b, sn;
    }

    /** Puts the frog back on the start tile, alive and facing as before; unless
        `keepRowBonus`, the row high-water mark goes back to the start row. */
    method ResetFrog(keepRowBonus: bool)
      modifies this, frog
      ensures frog.x == START_X && frog.y == START_Y && frog.alive && frog.facing == old(frog.facing)
      ensures bestRowY == if keepRowBonus then old(bestRowY) else START_Y
      ensures cars == old(cars) && trucks == old(trucks) && logs == old(logs)
      ensures birds == old(birds) && snakes == old(snakes)
      ensures roadLanes == old(roadLanes) && riverLanes == old(riverLanes) && critterLanes == old(critterLanes)
      ensures level == old(level) && freePlay == old(freePlay) && lives == old(lives) && score == old(score)
      ensures ticks == old(ticks) && paused == old(paused)
    {
      if !keepRowBonus {
        bestRowY := START_Y;
      }
      frog.x := START_X;
      frog.y := START_Y;
      frog.alive := true;
    }

    /** A death: nothing happens if the frog is already dead; otherwise the session
        moves on as `AfterDeath` says and the level is rebuilt. */
    method Die()
      requires level >= 1 && lives >= 1 && score >= 0
      modifies this, frog, rng
      ensures !old(frog.alive) ==> unchanged(this) && unchanged(frog) && unchanged(rng)
      ensures old(frog.alive) ==>
                && Valid()
                && Session(level, lives, score) == AfterDeath(Session(old(level), old(lives), old(score)))
                && frog.x == START_X && frog.y == START_Y && bestRowY == START_Y
                && ticks == old(ticks) && paused == old(paused)
                && forall a | a in Movers() :: fresh(a)
    {
      if !frog.alive {
        return;
      }
      frog.alive := false;
      lives := lives - 1;
      score := Scoring.Max(0, score - 25);
      if lives <= 0 {
        level, lives, score := 1, 3, 0;
      }
      SetupLevel();
    }

    /** The spawn step of a regular tick: road, river and critter lanes in turn. New
        actors are appended, fresh, wholly off the board, and came from a lane due at
        `ticks`; lane by lane, `road`, `river` and `critter` trace what each spawn drew and
        added, the river lanes drawing from `p1` on and the critter lanes from `p2` on. */
    method SpawnPhase() returns (ghost p1: nat, ghost p2: nat, ghost road: Placement.Walk, ghost river: Placement.Walk, ghost critter: Placement.Walk)
      requires Settled() && !freePlay
      modifies this, rng
      ensures Settled()
      ensures level == old(level) && freePlay == old(freePlay) && lives == old(lives) && score == old(score)
      ensures bestRowY == old(bestRowY) && ticks == old(ticks) && paused == old(paused)
      ensures old(cars) <= cars && old(trucks) <= trucks && old(logs) <= logs
      ensures old(birds) <= birds && old(snakes) <= snakes
      ensures forall i | |old(cars)| <= i < |cars| ::
                fresh(cars[i]) && OffBoard(cars[i]) && SpawnedOn(cars[i], roadLanes, ticks, VEHICLE_MARGIN)
      ensures forall i | |old(trucks)| <= i < |trucks| ::
                fresh(trucks[i]) && OffBoard(trucks[i]) && SpawnedOn(trucks[i], roadLanes, ticks, VEHICLE_MARGIN)
      ensures forall i | |old(logs)| <= i < |logs| ::
                fresh(logs[i]) && OffBoard(logs[i]) && SpawnedOn(logs[i], riverLanes, ticks, ENTRY_MARGIN)
      ensures forall i | |old(birds)| <= i < |birds| ::
                fresh(birds[i]) && OffBoard(birds[i]) && SpawnedOn(birds[i], critterLanes, ticks, ENTRY_MARGIN)
      ensures forall i | |old(snakes)| <= i < |snakes| ::
                fresh(snakes[i]) && OffBoard(snakes[i]) && SpawnedOn(snakes[i], critterLanes, ticks, ENTRY_MARGIN)
      ensures RoadSpawned(roadLanes, |roadLanes|, ticks, rng.draw, old(rng.pos), p1, old(cars), old(trucks), cars, trucks, road)
      ensures RiverSpawned(riverLanes, |riverLanes|, ticks, rng.draw, p1, p2, old(logs), logs, river)
      ensures CrittersSpawned(critterLanes, |critterLanes|, ticks, rng.draw, p2, rng.pos, old(birds), old(snakes), birds, snakes, critter)
    {
      var c, t, l, b, sn;
      c, t, l, b, sn, p1, p2, road, river, critter := SpawnLanes(rng, level, ticks, cars, trucks, logs, birds, snakes);
      SetActors(c, t, l, b, sn);
    }

    /** The Euler step of a tick: every actor of every list advances by its speed. */
    method MovePhase()
      requires Stocked(cars, trucks, logs, birds, snakes)
      modifies Movers()
      ensures forall a | a in Movers() :: a.x == old(a.x) + a.speed
    {
      StepAll(cars);
      StepAll(trucks);
      StepAll(logs);
      StepAll(birds);
      StepAll(snakes);
    }

    /** The road's gap resolution of a regular tick, the single-track walk as written:
        each road lane's vehicles within its band, in ascending order of their starting
        positions, end where the pass over those positions puts them; vehicles in no
        road lane, logs and critters are where they were. */
    method ResolvePhase() returns (ghost orders: seq<seq<Actor>>, ghost starts: seq<seq<real>>)
      requires Settled() && !freePlay
      modifies set a | a in cars, set a | a in trucks
      ensures |orders| == |starts| == |roadLanes|
      ensures forall k | 0 <= k < |roadLanes| ::
                SingleTrack.LaneOrder(orders[k], starts[k], cars, trucks, roadLanes[k].y + ROAD_TRACK, RESOLVE_BAND,
                                      old(SingleTrack.Positions(cars, trucks)))
      ensures forall k | 0 <= k < |roadLanes| :: SingleTrack.TrackWalked(orders[k], starts[k], VEHICLE_MIN_GAP)
      ensures SingleTrack.UnmovedOutside(roadLanes, |roadLanes|, cars, trucks, ROAD_TRACK, RESOLVE_BAND,
                                         old(SingleTrack.Positions(cars, trucks)))
      ensures forall a | a in Elems(logs) + Elems(birds) + Elems(snakes) :: a.x == old(a.x)
    {
      TablesApart(level);
      orders, starts := ResolveRoad(roadLanes, cars, trucks, logs, birds, snakes);
    }

    /** The off-board cleanup: each list keeps exactly those of its actors within the
        cull margin; road lanes that were spaced stay spaced. */
    method CullPhase()
      requires Settled()
      modifies this
      ensures Settled()
      ensures old(Spaced(cars, trucks, roadLanes, ROAD_TRACK, ROAD_BAND, VEHICLE_MIN_GAP)) ==>
                Spaced(cars, trucks, roadLanes, ROAD_TRACK, ROAD_BAND, VEHICLE_MIN_GAP)
      ensures cars == old(Culled(cars)) && trucks == old(Culled(trucks)) && logs == old(Culled(logs))
      ensures birds == old(Culled(birds)) && snakes == old(Culled(snakes))
      ensures level == old(level) && freePlay == old(freePlay) && lives == old(lives) && score == old(score)
      ensures bestRowY == old(bestRowY) && ticks == old(ticks) && paused == old(paused)
    {
      var c, t, l, b, sn := CullAll(cars, trucks, logs, birds, snakes, roadLanes);
      SetActors(c, t, l, b, sn);
    }

    /** The frog's update (which does nothing), then, outside free play, rows climbed past
        the high-water mark are scored as `RowScored` says. */
    method FrogPhase()
      requires Settled()
      modifies this
      ensures Settled()
      ensures !freePlay ==> Progress(score, bestRowY) == RowScored(Progress(old(score), old(bestRowY)), frog.y)
      ensures freePlay ==> score == old(score) && bestRowY == old(bestRowY)
      ensures cars == old(cars) && trucks == old(trucks) && logs == old(logs)
      ensures birds == old(birds) && snakes == old(snakes)
      ensures roadLanes == old(roadLanes) && riverLanes == old(riverLanes) && critterLanes == old(critterLanes)
      ensures level == old(level) && freePlay == old(freePlay) && lives == old(lives)
      ensures ticks == old(ticks) && paused == old(paused)
    {
      frog.Update();
      if !freePlay && frog.y < bestRowY {
        var rowsUp := (bestRowY - frog.y) / TILE;
        if rowsUp > 0 {
          score := score + rowsUp * 10;
          bestRowY := frog.y;
        }
      }
    }

    /** The checks that end a regular tick. A hazard under the frog kills it; otherwise a
        frog in the river dies unless a log carries it (by the first log's speed, then
        clamped); otherwise a frog on the goal row scores 100 and free play begins. */
    method Judge() returns (outcome: Outcome)
      requires Valid() && !freePlay
      modifies this, frog, rng
      ensures Valid() && outcome != Paused
      ensures ticks == old(ticks) && paused == old(paused)
      ensures old(Hazard(cars, trucks, birds, snakes, frog.Bounds())) ==> outcome == Died
      ensures !old(Hazard(cars, trucks, birds, snakes, frog.Bounds())) && InRiver(old(frog.y)) && old(FirstCarrier(logs, frog.Bounds())).None? ==> outcome == Died
      ensures !old(Hazard(cars, trucks, birds, snakes, frog.Bounds())) && InRiver(old(frog.y)) && old(FirstCarrier(logs, frog.Bounds())).Some? ==>
                && outcome == Continued
                && frog.x == FacingFrog.Clamped(Trunc(old(frog.x) as real + old(FirstCarrier(logs, frog.Bounds())).value),
                                                old(frog.y), WIDTH).0
      ensures !old(Hazard(cars, trucks, birds, snakes, frog.Bounds())) && !InRiver(old(frog.y)) ==> outcome == (if AtGoal(old(frog.y)) then Advanced else Continued)
      ensures outcome == Died ==>
                && !freePlay && Session(level, lives, score) == AfterDeath(Session(old(level), old(lives), old(score)))
                && frog.x == START_X && frog.y == START_Y && bestRowY == START_Y
                && forall a | a in Movers() :: fresh(a)
      ensures outcome == Advanced ==>
                && level == 2 && freePlay && lives == old(lives) && score == old(score) + 100
                && frog.x == START_X && frog.y == START_Y && bestRowY == START_Y
      ensures outcome == Continued ==>
                && level == old(level) && lives == old(lives) && score == old(score) && bestRowY == old(bestRowY)
                && cars == old(cars) && trucks == old(trucks) && logs == old(logs)
                && birds == old(birds) && snakes == old(snakes)
                && frog.y == old(frog.y) && (!InRiver(frog.y) ==> frog.x == old(frog.x))
    {
      if Hazard(cars, trucks, birds, snakes, frog.Bounds()) {
        Die();
        return Died;
      }
      outcome := RiverAndGoal();
    }

    /** The checks after the hazard check: a frog in the river dies unless a log carries
        it; otherwise a frog on the goal row starts free play. */
    method RiverAndGoal() returns (outcome: Outcome)
      requires Valid() && !freePlay
      modifies this, frog, rng
      ensures Valid() && outcome != Paused
      ensures ticks == old(ticks) && paused == old(paused)
      ensures InRiver(old(frog.y)) && old(FirstCarrier(logs, frog.Bounds())).None? ==> outcome == Died
      ensures InRiver(old(frog.y)) && old(FirstCarrier(logs, frog.Bounds())).Some? ==>
                && outcome == Continued
                && frog.x == FacingFrog.Clamped(Trunc(old(frog.x) as real + old(FirstCarrier(logs, frog.Bounds())).value),
                                                old(frog.y), WIDTH).0
      ensures !InRiver(old(frog.y)) ==> outcome == (if AtGoal(old(frog.y)) then Advanced else Continued)
      ensures outcome == Died ==>
                && !freePlay && Session(level, lives, score) == AfterDeath(Session(old(level), old(lives), old(score)))
                && frog.x == START_X && frog.y == START_Y && bestRowY == START_Y
                && forall a | a in Movers() :: fresh(a)
      ensures outcome == Advanced ==>
                && level == 2 && freePlay && lives == old(lives) && score == old(score) + 100
                && frog.x == START_X && frog.y == START_Y && bestRowY == START_Y
      ensures outcome == Continued ==>
                && level == old(level) && lives == old(lives) && score == old(score) && bestRowY == old(bestRowY)
                && cars == old(cars) && trucks == old(trucks) && logs == old(logs)
                && birds == old(birds) && snakes == old(snakes)
                && frog.y == old(frog.y) && (!InRiver(frog.y) ==> frog.x == old(frog.x))
    {
      if InRiver(frog.y) {
        var carry := FirstCarrier(logs, frog.Bounds());
        if carry.None? {
          Die();
          return Died;
        }
        Ride(carry.value);
      }
      if AtGoal(frog.y) {
        Advance();
        return Advanced;
      }
      return Continued;
    }

    /** The goal row is reached: 100 points and level 2, the blank free-play board. */
    method Advance()
      requires Valid()
      modifies this, frog, rng
      ensures Valid() && Blank()
      ensures level == 2 && freePlay && lives == old(lives) && score == old(score) + 100
      ensures frog.x == START_X && frog.y == START_Y && bestRowY == START_Y
      ensures ticks == old(ticks) && paused == old(paused) && rng.pos == old(rng.pos)
    {
      score := score + 100;
      level := 2;
      SetupLevel();
    }

    /** The frog rides a log: its x moves by the log's speed, truncated as the
        `int += double` assignment does, and it is clamped to the board. */
    method Ride(carry: real)
      requires Valid() && InRiver(frog.y)
      modifies frog
      ensures Valid()
      ensures frog.x == FacingFrog.Clamped(Trunc(old(frog.x) as real + carry), old(frog.y), WIDTH).0
      ensures frog.y == old(frog.y) && frog.alive == old(frog.alive) && frog.facing == old(frog.facing)
    {
      frog.x := Trunc(frog.x as real + carry);
      frog.ClampToBoard(WIDTH);
    }

    /** `ticks++`; nothing else changes. */
    method CountTick()
      requires Valid()
      modifies this
      ensures Valid() && ticks == old(ticks) + 1
      ensures cars == old(cars) && trucks == old(trucks) && logs == old(logs) && birds == old(birds) && snakes == old(snakes)
      ensures level == old(level) && freePlay == old(freePlay) && lives == old(lives) && score == old(score)
      ensures bestRowY == old(bestRowY) && paused == old(paused)
    {
      ticks := ticks + 1;
    }

    /** The actor phases of a tick, in order: outside free play spawn, then move, then
        outside free play the road's gap resolution, then cull. On the blank board they
        change nothing and draw nothing. */
    method TrafficPhases()
      requires Valid()
      modifies this, rng, Movers()
      ensures Valid()
      ensures level == old(level) && freePlay == old(freePlay) && lives == old(lives) && score == old(score)
      ensures bestRowY == old(bestRowY) && ticks == old(ticks) && paused == old(paused)
      ensures old(freePlay) ==> rng.pos == old(rng.pos)
    {
      if !freePlay {
        ghost var p1, p2, road, river, critter := SpawnPhase();
      }
      MovePhase();
      if !freePlay {
        ghost var orders, starts := ResolvePhase();
      }
      CullPhase();
    }

    /** One timer tick (`actionPerformed`). A paused game changes nothing. Otherwise the
        tick counter advances and the phases run in order; outside free play the hazard,
        river and goal checks end the tick. In free play nothing can end the level. */
    method Tick() returns (outcome: Outcome)
      requires Valid()
      modifies this, frog, rng, Movers()
      ensures Valid()
      ensures old(paused) ==>
                outcome == Paused && unchanged(this) && unchanged(frog) && unchanged(rng)
                && forall a | a in old(Movers()) :: unchanged(a)
      ensures !old(paused) ==> outcome != Paused && ticks == old(ticks) + 1 && !paused
      ensures !old(paused) && old(freePlay) ==>
                && outcome == Continued && freePlay && level == old(level) && lives == old(lives)
                && score == old(score) && rng.pos == old(rng.pos)
                && frog.x == old(frog.x) && frog.y == old(frog.y)
      ensures outcome == Continued ==> level == old(level) && lives == old(lives) && score >= old(score)
      ensures outcome == Advanced ==> old(level) == 1 && level == 2 && freePlay && lives == old(lives)
      ensures outcome == Died ==>
                && !freePlay
                && if old(lives) > 1 then level == old(level) && lives == old(lives) - 1
                   else level == 1 && lives == 3 && score == 0
      ensures !old(freePlay) ==>
                var scored := RowScored(Progress(old(score), old(bestRowY)), old(frog.y)).score;
                && (outcome == Continued ==> score == scored)
                && (outcome == Advanced ==> score == scored + 100)
                && (outcome == Died ==> Session(level, lives, score) == AfterDeath(Session(old(level), old(lives), scored)))
    {
      if paused {
        return Paused;
      }
      CountTick();
      TrafficPhases();
      FrogPhase();
      if freePlay {
        return Continued;
      }
      outcome := Judge();
    }

    /** A key press: an arrow key moves a live frog one tile at once and turns it (the
        up key, a negative dy, leaves it facing `Down`, as the frog names it); P toggles
        the pause; every other key (H only toggles the help overlay) changes nothing. */
    method KeyPressed(key: Key)
      modifies this, frog
      ensures frog.alive == old(frog.alive)
      ensures key == KeyLeft && old(frog.alive) ==>
                frog.x == old(frog.x) - TILE && frog.y == old(frog.y) && frog.facing == FacingFrog.Left
      ensures key == KeyRight && old(frog.alive) ==>
                frog.x == old(frog.x) + TILE && frog.y == old(frog.y) && frog.facing == FacingFrog.Right
      ensures key == KeyUp && old(frog.alive) ==>
                frog.x == old(frog.x) && frog.y == old(frog.y) - TILE && frog.facing == FacingFrog.Down
      ensures key == KeyDown && old(frog.alive) ==>
                frog.x == old(frog.x) && frog.y == old(frog.y) + TILE && frog.facing == FacingFrog.Up
      ensures !old(frog.alive) ==> frog.x == old(frog.x) && frog.y == old(frog.y) && frog.facing == old(frog.facing)
      ensures key !in {KeyLeft, KeyRight, KeyUp, KeyDown} ==> unchanged(frog)
      ensures paused == (if key == KeyP then !old(paused) else old(paused))
      ensures key != KeyP ==> unchanged(this)
      ensures key == KeyP ==>
                && cars == old(cars) && trucks == old(trucks) && logs == old(logs)
                && birds == old(birds) && snakes == old(snakes)
                && level == old(level) && freePlay == old(freePlay) && lives == old(lives) && score == old(score)
                && bestRowY == old(bestRowY) && ticks == old(ticks)
                && roadLanes == old(roadLanes) && riverLanes == old(riverLanes) && critterLanes == old(critterLanes)
    {
      match key
      case KeyLeft => frog.Nudge(-TILE, 0);
      case KeyRight => frog.Nudge(TILE, 0);
      case KeyUp => frog.Nudge(0, -TILE);
      case KeyDown => frog.Nudge(0, TILE);
      case KeyP => paused := !paused;
      case KeyH =>
      case OtherKey =>
    }
  }

  /** The single-track walk over the road lanes `road`: each lane's vehicles within its
      band, in ascending order of their starting positions, end where the pass over those
      positions puts them; vehicles in no road lane, logs and critters stay put. */
  method ResolveRoad(road: seq<Lane>, cars: seq<Actor>, trucks: seq<Actor>, logs: seq<Actor>, birds: seq<Actor>, snakes: seq<Actor>)
    returns (ghost orders: seq<seq<Actor>>, ghost starts: seq<seq<real>>)
    requires Apart(road) && Stocked(cars, trucks, logs, birds, snakes)
    modifies set a | a in cars, set a | a in trucks
    ensures |orders| == |starts| == |road|
    ensures forall k | 0 <= k < |road| ::
              SingleTrack.LaneOrder(orders[k], starts[k], cars, trucks, road[k].y + ROAD_TRACK, RESOLVE_BAND,
                                    old(SingleTrack.Positions(cars, trucks)))
    ensures forall k | 0 <= k < |road| :: SingleTrack.TrackWalked(orders[k], starts[k], VEHICLE_MIN_GAP)
    ensures SingleTrack.UnmovedOutside(road, |road|, cars, trucks, ROAD_TRACK, RESOLVE_BAND,
                                       old(SingleTrack.Positions(cars, trucks)))
    ensures forall a | a in Elems(logs) + Elems(birds) + Elems(snakes) :: a.x == old(a.x)
  {
    OffRoad(cars, trucks, logs, birds, snakes);
    orders, starts := SingleTrack.ResolveTracks(road, cars, trucks, ROAD_TRACK, RESOLVE_BAND, VEHICLE_MIN_GAP);
  }

  /** The spawn step over the lane tables of `level`: road, river and critter lanes in
      turn, each list only growing, by fresh actors wholly off the board that came from
      a lane due at `ticks`. */
  method SpawnLanes(rng: Random.Rng, level: int, ticks: nat,
                    cars: seq<Actor>, trucks: seq<Actor>, logs: seq<Actor>, birds: seq<Actor>, snakes: seq<Actor>)
    returns (cars': seq<Actor>, trucks': seq<Actor>, logs': seq<Actor>, birds': seq<Actor>, snakes': seq<Actor>,
             ghost p1: nat, ghost p2: nat, ghost wr: Placement.Walk, ghost wv: Placement.Walk, ghost wc: Placement.Walk)
    requires level >= 1 && Stocked(cars, trucks, logs, birds, snakes)
    modifies rng
    ensures Stocked(cars', trucks', logs', birds', snakes')
    ensures cars <= cars' && trucks <= trucks' && logs <= logs' && birds <= birds' && snakes <= snakes'
    ensures forall i | |cars| <= i < |cars'| ::
              fresh(cars'[i]) && OffBoard(cars'[i]) && SpawnedOn(cars'[i], RoadLanes(level), ticks, VEHICLE_MARGIN)
    ensures forall i | |trucks| <= i < |trucks'| ::
              fresh(trucks'[i]) && OffBoard(trucks'[i]) && SpawnedOn(trucks'[i], RoadLanes(level), ticks, VEHICLE_MARGIN)
    ensures forall i | |logs| <= i < |logs'| ::
              fresh(logs'[i]) && OffBoard(logs'[i]) && SpawnedOn(logs'[i], LevelA.RiverLanes(level), ticks, ENTRY_MARGIN)
    ensures forall i | |birds| <= i < |birds'| ::
              fresh(birds'[i]) && OffBoard(birds'[i]) && SpawnedOn(birds'[i], CritterLanes(level), ticks, ENTRY_MARGIN)
    ensures forall i | |snakes| <= i < |snakes'| ::
              fresh(snakes'[i]) && OffBoard(snakes'[i]) && SpawnedOn(snakes'[i], CritterLanes(level), ticks, ENTRY_MARGIN)
    ensures RoadSpawned(RoadLanes(level), |RoadLanes(level)|, ticks, rng.draw, old(rng.pos), p1, cars, trucks, cars', trucks', wr)
    ensures RiverSpawned(LevelA.RiverLanes(level), |LevelA.RiverLanes(level)|, ticks, rng.draw, p1, p2, logs, logs', wv)
    ensures CrittersSpawned(CritterLanes(level), |CritterLanes(level)|, ticks, rng.draw, p2, rng.pos, birds, snakes, birds', snakes', wc)
  {
    TablesPeriodic(level);
    cars', trucks', wr := SpawnRoad(rng, RoadLanes(level), ticks, cars, trucks);
    p1 := rng.pos;
    logs', wv := SpawnRiver(rng, LevelA.RiverLanes(level), ticks, logs);
    p2 := rng.pos;
    birds', snakes', wc := SpawnCritters(rng, CritterLanes(level), ticks, birds, snakes);
  }

  /** The lane tables of `level` and freshly seeded lanes: every list stocked, every
      seeded actor wholly on the board, and every lane spaced by its own gap and holding
      at least one actor. */
  method BuildLevel(rng: Random.Rng, level: int)
    returns (road: seq<Lane>, river: seq<Lane>, critter: seq<Lane>,
             cars: seq<Actor>, trucks: seq<Actor>, logs: seq<Actor>, birds: seq<Actor>, snakes: seq<Actor>)
    requires level >= 1
    modifies rng
    ensures road == RoadLanes(level) && river == LevelA.RiverLanes(level) && critter == CritterLanes(level)
    ensures Stocked(cars, trucks, logs, birds, snakes)
    ensures Spaced(cars, trucks, road, ROAD_TRACK, ROAD_BAND, VEHICLE_MIN_GAP)
    ensures Spaced(logs, [], river, 0, LevelB.LANE_BAND, TILE / 2)
    ensures Spaced(birds, snakes, critter, 0, LevelB.LANE_BAND, CRITTER_MIN_GAP)
    ensures forall a | a in Elems(cars) + Elems(trucks) :: fresh(a) && OnScreen(a)
    ensures forall a | a in Elems(logs) :: fresh(a) && OnScreen(a)
    ensures forall a | a in Elems(birds) + Elems(snakes) :: fresh(a) && OnScreen(a)
    ensures forall a | a in Elems(cars) + Elems(trucks) + Elems(logs) + Elems(birds) + Elems(snakes) :: fresh(a)
    ensures |cars| + |trucks| <= 12 && |logs| <= 6 && |birds| + |snakes| <= 6
    ensures Filled(road, river, critter, cars, trucks, logs, birds, snakes)
  {
    road, river, critter := RoadLanes(level), LevelA.RiverLanes(level), CritterLanes(level);
    TablesApart(level);
    cars, trucks, logs, birds, snakes := SeedTables(rng, road, river, critter);
  }

  /** The seeding passes of `setupLevel` over given lane tables, road then river then
      critters. */
  method SeedTables(rng: Random.Rng, road: seq<Lane>, river: seq<Lane>, critter: seq<Lane>)
    returns (cars: seq<Actor>, trucks: seq<Actor>, logs: seq<Actor>, birds: seq<Actor>, snakes: seq<Actor>)
    requires Apart(road) && Apart(river) && Apart(critter)
    requires |road| == 6 && |river| == 3 && |critter| == 3
    modifies rng
    ensures Stocked(cars, trucks, logs, birds, snakes)
    ensures Spaced(cars, trucks, road, ROAD_TRACK, ROAD_BAND, VEHICLE_MIN_GAP)
    ensures Spaced(logs, [], river, 0, LevelB.LANE_BAND, TILE / 2)
    ensures Spaced(birds, snakes, critter, 0, LevelB.LANE_BAND, CRITTER_MIN_GAP)
    ensures forall a | a in Elems(cars) + Elems(trucks) :: fresh(a) && OnScreen(a)
    ensures forall a | a in Elems(logs) :: fresh(a) && OnScreen(a)
    ensures forall a | a in Elems(birds) + Elems(snakes) :: fresh(a) && OnScreen(a)
    ensures forall a | a in Elems(cars) + Elems(trucks) + Elems(logs) + Elems(birds) + Elems(snakes) :: fresh(a)
    ensures |cars| + |trucks| <= 12 && |logs| <= 6 && |birds| + |snakes| <= 6
    ensures forall k | 0 <= k < |road| :: Occupied(Elems(cars) + Elems(trucks), road[k].y + ROAD_TRACK, ROAD_BAND)
    ensures forall k | 0 <= k < |river| :: Occupied(Elems(logs), river[k].y, LevelB.LANE_BAND)
    ensures forall k | 0 <= k < |critter| :: Occupied(Elems(birds) + Elems(snakes), critter[k].y, LevelB.LANE_BAND)
  {
    cars, trucks := SeedRoad(rng, road);
    logs := SeedRiver(rng, river);
    assert Elems(logs) + Elems([]) == Elems(logs);
    birds, snakes := SeedCritters(rng, critter);
    forall a | a in Elems(cars) + Elems(trucks) + Elems(logs) + Elems(birds) + Elems(snakes)
      ensures fresh(a)
    {
      if a in Elems(cars) + Elems(trucks) {
      } else if a in Elems(logs) {
      } else {
        assert a in Elems(birds) + Elems(snakes);
      }
    }
  }

  /** `removeIf` on every list with the off-board test: each list keeps exactly its
      actors within the cull margin, the lists stay stocked and spaced road lanes stay
      spaced. */
  method CullAll(cars: seq<Actor>, trucks: seq<Actor>, logs: seq<Actor>, birds: seq<Actor>, snakes: seq<Actor>,
                 road: seq<Lane>)
    returns (cars': seq<Actor>, trucks': seq<Actor>, logs': seq<Actor>, birds': seq<Actor>, snakes': seq<Actor>)
    requires Stocked(cars, trucks, logs, birds, snakes)
    ensures Stocked(cars', trucks', logs', birds', snakes')
    ensures Spaced(cars, trucks, road, ROAD_TRACK, ROAD_BAND, VEHICLE_MIN_GAP) ==>
              Spaced(cars', trucks', road, ROAD_TRACK, ROAD_BAND, VEHICLE_MIN_GAP)
    ensures KeptOnBoard(cars', cars) && KeptOnBoard(trucks', trucks) && KeptOnBoard(logs', logs)
    ensures KeptOnBoard(birds', birds) && KeptOnBoard(snakes', snakes)
    ensures cars' == Culled(cars) && trucks' == Culled(trucks) && logs' == Culled(logs)
    ensures birds' == Culled(birds) && snakes' == Culled(snakes)
  {
    cars', trucks', logs', birds', snakes' := Culled(cars), Culled(trucks), Culled(logs), Culled(birds), Culled(snakes);
    if Spaced(cars, trucks, road, ROAD_TRACK, ROAD_BAND, VEHICLE_MIN_GAP) {
      CulledSpaced(cars, trucks, cars', trucks', road, ROAD_TRACK, ROAD_BAND, VEHICLE_MIN_GAP);
    }
  }
}
