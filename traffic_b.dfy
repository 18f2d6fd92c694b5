/** The per-tick spawn step of the second GamePanel (FroggerExample/FroggerExample/src),
    run only outside free play: each lane that is due tries one new actor at its entry
    point. Unlike the first GamePanel, a vehicle enters 12 pixels off the board but its
    space check looks at the board's edge, and its speed is varied. */
module TrafficB {
  import opened Board
  import opened Geometry
  import opened Actors
  import opened Spacing
  import opened Placement
  import opened LevelB
  import LevelA
  import Random

  /** Vehicles appear this far off the board. */
  const VEHICLE_MARGIN: int := 12
  /** Logs and critters appear this far off the board. */
  const ENTRY_MARGIN: int := 10

  /** An actor just spawned on `lane`, `margin` pixels off the board on the entry side. */
  ghost predicate EntersAt(a: Actor, lane: Lane, margin: int)
    reads a
  {
    a.w >= 0 && margin >= 0 && a.x == EntryX(lane, a.w, margin) as real
  }

  /** The rectangle the road space check tests for a vehicle of size w x h: at the board's
      edge on the lane's entry side, on the lane's track. */
  function EdgeRect(lane: Lane, w: int, h: int): (r: Rect)
    requires w >= 0
    ensures r.y == lane.y + ROAD_TRACK && r.width == w && r.height == h
    ensures if lane.Rightward() then r.x + w == 0 else r.x == WIDTH
  {
    Rect(EntryX(lane, w, 0), lane.y + ROAD_TRACK, w, h)
  }

  /** The rectangle a log or critter of size w x h occupies when it enters `lane`:
      ENTRY_MARGIN pixels off the board on the entry side, `dy` below the lane's top. */
  function EntryRect(lane: Lane, dy: int, w: int, h: int): Rect
    requires w >= 0
  {
    Rect(EntryX(lane, w, ENTRY_MARGIN), lane.y + dy, w, h)
  }

  /** Builds a log or critter of `kind` where it enters `lane`, `dy` below the lane's top,
      and appends it to `list` exactly when its entry rectangle passes the space check
      against the lane's lists `list` and `others`. */
  method Enter(kind: Kind, lane: Lane, dy: int, w: int, h: int, speed: real, gap: int,
               list: seq<Actor>, others: seq<Actor>) returns (list': seq<Actor>)
    requires w > 0 && h > 0
    ensures list <= list' && |list'| <= |list| + 1
    ensures |list'| > |list| <==> HasSpaceFor(list, others, EntryRect(lane, dy, w, h), lane.y, LevelB.LANE_BAND, gap)
    ensures |list'| > |list| ==>
              && list' == list + [list'[|list|]] && fresh(list'[|list|])
              && list'[|list|].kind == kind && list'[|list|].y == lane.y + dy && list'[|list|].w == w
              && list'[|list|].h == h && list'[|list|].speed == speed && EntersAt(list'[|list|], lane, ENTRY_MARGIN)
              && list'[|list|].Bounds() == EntryRect(lane, dy, w, h)
  {
    var x := EntryX(lane, w, ENTRY_MARGIN);
    TruncOfInt(x);
    var added;
    list', added := AddIfSpace(kind, x, lane.y + dy, w, h, speed, EntryRect(lane, dy, w, h),
                               list, others, lane.y, LevelB.LANE_BAND, gap);
    if added {
      assert list' == list + [list'[|list|]];
    }
  }

  /** What the spawn on one road lane does, the draws running from `p` to `p'` and the
      lists going from `cars` and `trucks` to `cars'` and `trucks'`. A lane that is not due
      draws nothing and changes nothing. A due lane draws the roll, then a truck draws its
      speed and a car its colour and speed; a truck is added exactly when the roll is
      below 0.33 and the truck passes the road space check at the board's edge, and a car
      exactly when the roll is not and the car passes it. */
  ghost predicate RoadLaneSpawned(lane: Lane, ticks: nat, draw: nat -> Random.Unit, p: nat, p': nat,
                                  cars: seq<Actor>, trucks: seq<Actor>, cars': seq<Actor>, trucks': seq<Actor>)
    requires lane.spawnEvery > 0
    reads set a | a in cars, set a | a in trucks
  {
    if ticks % lane.spawnEvery != 0 then p' == p && cars' == cars && trucks' == trucks
    else
      && p' == p + (if draw(p) < 0.33 then 2 else 3)
      && (|trucks'| > |trucks| <==>
            && draw(p) < 0.33
            && HasSpaceFor(cars, trucks, EdgeRect(lane, TRUCK_W, TRUCK_H), lane.y + ROAD_TRACK, ROAD_BAND, VEHICLE_MIN_GAP))
      && (|cars'| > |cars| <==>
            && draw(p) >= 0.33
            && HasSpaceFor(cars, trucks, EdgeRect(lane, CAR_W, CAR_H), lane.y + ROAD_TRACK, ROAD_BAND, VEHICLE_MIN_GAP))
  }

  /** What the spawn on one river lane does: a due lane draws the roll and adds a log
      exactly when the roll is below 0.75 and the log passes the log space check (gap
      TILE/3) where it enters. */
  ghost predicate LogLaneSpawned(lane: Lane, ticks: nat, draw: nat -> Random.Unit, p: nat, p': nat,
                                 logs: seq<Actor>, logs': seq<Actor>)
    requires lane.spawnEvery > 0
    reads set a | a in logs
  {
    if ticks % lane.spawnEvery != 0 then p' == p && logs' == logs
    else
      && p' == p + 1
      && (|logs'| > |logs| <==>
            && draw(p) < 0.75
            && HasSpaceFor(logs, [], EntryRect(lane, 6, LOG_W, LOG_H), lane.y, LevelB.LANE_BAND, TILE / 3))
  }

  /** What the spawn on one critter lane does: a due lane draws the roll, and the coin when
      the roll is below 0.65; a bird is added exactly when the roll is below 0.65, the coin
      comes up bird and the bird passes the critter space check where it enters, and a
      snake likewise when the coin comes up snake. */
  ghost predicate CritterLaneSpawned(lane: Lane, ticks: nat, draw: nat -> Random.Unit, p: nat, p': nat,
                                     birds: seq<Actor>, snakes: seq<Actor>, birds': seq<Actor>, snakes': seq<Actor>)
    requires lane.spawnEvery > 0
    reads set a | a in birds, set a | a in snakes
  {
    if ticks % lane.spawnEvery != 0 then p' == p && birds' == birds && snakes' == snakes
    else
      && p' == p + (if draw(p) < 0.65 then 2 else 1)
      && (|birds'| > |birds| <==>
            && draw(p) < 0.65 && draw(p + 1) < 0.5
            && HasSpaceFor(birds, snakes, EntryRect(lane, 7, BIRD_W, BIRD_H), lane.y, LevelB.LANE_BAND, LevelB.CRITTER_MIN_GAP))
      && (|snakes'| > |snakes| <==>
            && draw(p) < 0.65 && draw(p + 1) >= 0.5
            && HasSpaceFor(birds, snakes, EntryRect(lane, 6, SNAKE_W, SNAKE_H), lane.y, LevelB.LANE_BAND, LevelB.CRITTER_MIN_GAP))
  }

  /** The spawn on one road lane. When the tick is a multiple of the lane's period, one
      roll decides: below 0.33 a truck, otherwise a car; the vehicle is added only if the
      road space check passes at the board's edge. A lane that is not due draws nothing
      and changes nothing. */
  method SpawnRoadLane(rng: Random.Rng, lane: Lane, ticks: nat, cars: seq<Actor>, trucks: seq<Actor>)
    returns (cars': seq<Actor>, trucks': seq<Actor>)
    requires lane.spawnEvery > 0 && RoadReady(cars, trucks)
    modifies rng
    ensures RoadReady(cars', trucks') && cars <= cars' && trucks <= trucks'
    ensures |cars'| + |trucks'| <= |cars| + |trucks| + 1
    ensures RoadLaneSpawned(lane, ticks, rng.draw, old(rng.pos), rng.pos, cars, trucks, cars', trucks')
    ensures forall i | |cars| <= i < |cars'| ::
              && fresh(cars'[i]) && RoadCar(cars'[i], lane) && EntersAt(cars'[i], lane, VEHICLE_MARGIN)
              && HasSpaceFor(cars, trucks, EdgeRect(lane, CAR_W, CAR_H), lane.y + ROAD_TRACK, ROAD_BAND, VEHICLE_MIN_GAP)
    ensures forall i | |trucks| <= i < |trucks'| ::
              && fresh(trucks'[i]) && RoadTruck(trucks'[i], lane) && EntersAt(trucks'[i], lane, VEHICLE_MARGIN)
              && HasSpaceFor(cars, trucks, EdgeRect(lane, TRUCK_W, TRUCK_H), lane.y + ROAD_TRACK, ROAD_BAND, VEHICLE_MIN_GAP)
  {
    cars', trucks' := cars, trucks;
    if ticks % lane.spawnEvery == 0 {
      var roll := rng.NextDouble();
      if roll < 0.33 {
        trucks' := SpawnTruck(rng, lane, cars, trucks);
      } else {
        cars' := SpawnCar(rng, lane, cars, trucks);
      }
    }
  }

  /** The truck branch: its speed is a varied 0.85 of the lane's. */
  method SpawnTruck(rng: Random.Rng, lane: Lane, cars: seq<Actor>, trucks: seq<Actor>) returns (trucks': seq<Actor>)
    requires RoadReady(cars, trucks)
    modifies rng
    ensures RoadReady(cars, trucks') && trucks <= trucks' && |trucks'| <= |trucks| + 1
    ensures rng.pos == old(rng.pos) + 1
    ensures |trucks'| > |trucks| <==>
              HasSpaceFor(cars, trucks, EdgeRect(lane, TRUCK_W, TRUCK_H), lane.y + ROAD_TRACK, ROAD_BAND, VEHICLE_MIN_GAP)
    ensures |trucks'| > |trucks| ==>
              && fresh(trucks'[|trucks|]) && RoadTruck(trucks'[|trucks|], lane) && EntersAt(trucks'[|trucks|], lane, VEHICLE_MARGIN)
  {
    var y := lane.y + ROAD_TRACK;
    var x := EntryX(lane, TRUCK_W, VEHICLE_MARGIN);
    TruckBase(lane.speed);
    var sp := Vary(rng, CopySign(AbsR(lane.speed * 0.85), lane.speed), 0.25);
    var cand := EdgeRect(lane, TRUCK_W, TRUCK_H);
    var added;
    trucks', added := AddIfSpace(Truck, x, y, TRUCK_W, TRUCK_H, sp, cand, trucks, cars, y, ROAD_BAND, VEHICLE_MIN_GAP);
    SpaceSymmetric(trucks, cars, cand, y, ROAD_BAND, VEHICLE_MIN_GAP);
    if added {
      ElemsAppend(trucks, trucks'[|trucks|]);
      assert trucks' == trucks + [trucks'[|trucks|]];
    }
  }

  /** The car branch: the sprite colour is drawn first, then the varied speed. */
  method SpawnCar(rng: Random.Rng, lane: Lane, cars: seq<Actor>, trucks: seq<Actor>) returns (cars': seq<Actor>)
    requires RoadReady(cars, trucks)
    modifies rng
    ensures RoadReady(cars', trucks) && cars <= cars' && |cars'| <= |cars| + 1
    ensures rng.pos == old(rng.pos) + 2
    ensures |cars'| > |cars| <==>
              HasSpaceFor(cars, trucks, EdgeRect(lane, CAR_W, CAR_H), lane.y + ROAD_TRACK, ROAD_BAND, VEHICLE_MIN_GAP)
    ensures |cars'| > |cars| ==>
              && fresh(cars'[|cars|]) && RoadCar(cars'[|cars|], lane) && EntersAt(cars'[|cars|], lane, VEHICLE_MARGIN)
  {
    var y := lane.y + ROAD_TRACK;
    var x := EntryX(lane, CAR_W, VEHICLE_MARGIN);
    var colour := rng.NextDouble();
    var sp := Vary(rng, lane.speed, 0.25);
    var cand := EdgeRect(lane, CAR_W, CAR_H);
    var added;
    cars', added := AddIfSpace(Car, x, y, CAR_W, CAR_H, sp, cand, cars, trucks, y, ROAD_BAND, VEHICLE_MIN_GAP);
    if added {
      ElemsAppend(cars, cars'[|cars|]);
      assert cars' == cars + [cars'[|cars|]];
    }
  }

  /** The spawn on one river lane: when due, a roll below 0.75 tries a log at the entry
      point, kept if the log space check (gap TILE/3) passes there. The roll is drawn only
      when the lane is due. */
  method SpawnLogLane(rng: Random.Rng, lane: Lane, ticks: nat, logs: seq<Actor>) returns (logs': seq<Actor>)
    requires lane.spawnEvery > 0 && Distinct(logs) && forall a | a in Elems(logs) :: a.w > 0 && a.h > 0
    modifies rng
    ensures Distinct(logs') && (forall a | a in Elems(logs') :: a.w > 0 && a.h > 0) && logs <= logs'
    ensures |logs'| <= |logs| + 1
    ensures LogLaneSpawned(lane, ticks, rng.draw, old(rng.pos), rng.pos, logs, logs')
    ensures forall i | |logs| <= i < |logs'| ::
              && fresh(logs'[i]) && RiverLog(logs'[i], lane) && EntersAt(logs'[i], lane, ENTRY_MARGIN)
              && HasSpaceFor(logs, [], logs'[i].Bounds(), lane.y, LevelB.LANE_BAND, TILE / 3)
  {
    logs' := logs;
    if ticks % lane.spawnEvery == 0 {
      var roll := rng.NextDouble();
      if roll < 0.75 {
        logs' := Enter(Log, lane, 6, LOG_W, LOG_H, lane.speed, TILE / 3, logs, []);
        if |logs'| > |logs| {
          ElemsAppend(logs, logs'[|logs|]);
        }
      }
    }
  }

  /** The spawn on one critter lane: when due, a roll below 0.65 spawns, and a coin flip
      picks a bird or a snake at the entry point, kept if the critter space check passes
      there. */
  method SpawnCritterLane(rng: Random.Rng, lane: Lane, ticks: nat, birds: seq<Actor>, snakes: seq<Actor>)
    returns (birds': seq<Actor>, snakes': seq<Actor>)
    requires lane.spawnEvery > 0 && CritterReady(birds, snakes)
    modifies rng
    ensures CritterReady(birds', snakes') && birds <= birds' && snakes <= snakes'
    ensures |birds'| + |snakes'| <= |birds| + |snakes| + 1
    ensures CritterLaneSpawned(lane, ticks, rng.draw, old(rng.pos), rng.pos, birds, snakes, birds', snakes')
    ensures forall i | |birds| <= i < |birds'| ::
              && fresh(birds'[i]) && LevelA.LaneBird(birds'[i], lane) && EntersAt(birds'[i], lane, ENTRY_MARGIN)
              && HasSpaceFor(birds, snakes, birds'[i].Bounds(), lane.y, LevelB.LANE_BAND, LevelB.CRITTER_MIN_GAP)
    ensures forall i | |snakes| <= i < |snakes'| ::
              && fresh(snakes'[i]) && LevelA.LaneSnake(snakes'[i], lane) && EntersAt(snakes'[i], lane, ENTRY_MARGIN)
              && HasSpaceFor(birds, snakes, snakes'[i].Bounds(), lane.y, LevelB.LANE_BAND, LevelB.CRITTER_MIN_GAP)
  {
    birds', snakes' := birds, snakes;
    if ticks % lane.spawnEvery == 0 {
      var roll := rng.NextDouble();
      if roll < 0.65 {
        var bird := rng.NextBoolean();
        if bird {
          birds' := Enter(Bird, lane, 7, BIRD_W, BIRD_H, lane.speed * 1.1, LevelB.CRITTER_MIN_GAP, birds, snakes);
          if |birds'| > |birds| {
            ElemsAppend(birds, birds'[|birds|]);
          }
        } else {
          snakes' := Enter(Snake, lane, 6, SNAKE_W, SNAKE_H, lane.speed * 0.9, LevelB.CRITTER_MIN_GAP, snakes, birds);
          SpaceSymmetric(snakes, birds, EntryRect(lane, 6, SNAKE_W, SNAKE_H), lane.y, LevelB.LANE_BAND, LevelB.CRITTER_MIN_GAP);
          if |snakes'| > |snakes| {
            ElemsAppend(snakes, snakes'[|snakes|]);
          }
        }
      }
    }
  }

  /** A new actor came from one of `lanes` that was due at `ticks`, and entered there
      `margin` pixels off the board. */
  ghost predicate SpawnedOn(a: Actor, lanes: seq<Lane>, ticks: nat, margin: int)
    reads a
  {
    exists k :: 0 <= k < |lanes| && lanes[k].spawnEvery > 0 && ticks % lanes[k].spawnEvery == 0
                && a.y - lanes[k].y in {5, 6, 7} && EntersAt(a, lanes[k], margin)
  }

  /** An actor entering at a positive margin starts wholly off the board. */
  lemma EntryIsOffBoard(a: Actor, lane: Lane, margin: int)
    requires a.w > 0 && margin > 0 && EntersAt(a, lane, margin)
    ensures OffBoard(a)
  {
    var x := EntryX(lane, a.w, margin);
  }

  /** Lane `k` of a road walk: it took the lists from their first `w.firsts[k]` cars and
      `w.seconds[k]` trucks to their first `w.firsts[k + 1]` and `w.seconds[k + 1]`, and
      the draws from `w.pos[k]` to `w.pos[k + 1]`, as RoadLaneSpawned says. */
  ghost predicate RoadLaneAt(lanes: seq<Lane>, k: int, ticks: nat, draw: nat -> Random.Unit,
                             cars': seq<Actor>, trucks': seq<Actor>, w: Walk)
    reads set a | a in cars', set a | a in trucks'
  {
    && 0 <= k < |lanes| && lanes[k].spawnEvery > 0
    && k + 1 < |w.pos| && k + 1 < |w.firsts| && k + 1 < |w.seconds|
    && w.firsts[k] <= w.firsts[k + 1] && w.firsts[k + 1] <= |cars'|
    && w.seconds[k] <= w.seconds[k + 1] && w.seconds[k + 1] <= |trucks'|
    && RoadLaneSpawned(lanes[k], ticks, draw, w.pos[k], w.pos[k + 1],
                       cars'[..w.firsts[k]], trucks'[..w.seconds[k]],
                       cars'[..w.firsts[k + 1]], trucks'[..w.seconds[k + 1]])
  }

  /** The road spawn step over the first `n` of `lanes`, from draw `p` to draw `p'`: the
      lists grow from `cars` and `trucks` to `cars'` and `trucks'`, and `w` marks, lane by
      lane, where the draws and the lists stood, each lane doing what RoadLaneSpawned
      says. */
  ghost predicate RoadSpawned(lanes: seq<Lane>, n: int, ticks: nat, draw: nat -> Random.Unit, p: nat, p': nat,
                              cars: seq<Actor>, trucks: seq<Actor>, cars': seq<Actor>, trucks': seq<Actor>, w: Walk)
    requires 0 <= n <= |lanes|
    reads set a | a in cars', set a | a in trucks'
  {
    && |w.pos| == n + 1 && |w.firsts| == n + 1 && |w.seconds| == n + 1
    && cars <= cars' && trucks <= trucks'
    && w.pos[0] == p && w.firsts[0] == |cars| && w.seconds[0] == |trucks|
    && w.pos[n] == p' && w.firsts[n] == |cars'| && w.seconds[n] == |trucks'|
    && forall k | 0 <= k < n :: RoadLaneAt(lanes, k, ticks, draw, cars', trucks', w)
  }

  /** A walk over the first `j` road lanes followed by lane `j`'s spawn is a walk over the
      first `j + 1`. */
  lemma RoadSpawnedStep(lanes: seq<Lane>, j: int, ticks: nat, draw: nat -> Random.Unit, p: nat, q: nat, q': nat,
                        cars: seq<Actor>, trucks: seq<Actor>, c: seq<Actor>, t: seq<Actor>,
                        c': seq<Actor>, t': seq<Actor>, w: Walk)
    requires forall k | 0 <= k < |lanes| :: lanes[k].spawnEvery > 0
    requires 0 <= j < |lanes| && c <= c' && t <= t'
    requires RoadSpawned(lanes, j, ticks, draw, p, q, cars, trucks, c, t, w)
    requires RoadLaneSpawned(lanes[j], ticks, draw, q, q', c, t, c', t')
    ensures RoadSpawned(lanes, j + 1, ticks, draw, p, q', cars, trucks, c', t',
                        w.Then(q', |c'|, |t'|))
  {
    var w' := w.Then(q', |c'|, |t'|);
    forall k | 0 <= k < j + 1
      ensures RoadLaneAt(lanes, k, ticks, draw, c', t', w')
    {
      if k < j {
        assert RoadLaneAt(lanes, k, ticks, draw, c, t, w);
        assert c'[..w.firsts[k]] == c[..w.firsts[k]] && c'[..w.firsts[k + 1]] == c[..w.firsts[k + 1]];
        assert t'[..w.seconds[k]] == t[..w.seconds[k]] && t'[..w.seconds[k + 1]] == t[..w.seconds[k + 1]];
      } else {
        assert c'[..|c|] == c && t'[..|t|] == t && c'[..|c'|] == c' && t'[..|t'|] == t';
      }
    }
  }

  /** Lane `k` of a river walk: it took the list from its first `w.firsts[k]` logs to its
      first `w.firsts[k + 1]`, and the draws from `w.pos[k]` to `w.pos[k + 1]`, as
      LogLaneSpawned says. */
  ghost predicate LogLaneAt(lanes: seq<Lane>, k: int, ticks: nat, draw: nat -> Random.Unit,
                            logs': seq<Actor>, w: Walk)
    reads set a | a in logs'
  {
    && 0 <= k < |lanes| && lanes[k].spawnEvery > 0
    && k + 1 < |w.pos| && k + 1 < |w.firsts|
    && w.firsts[k] <= w.firsts[k + 1] && w.firsts[k + 1] <= |logs'|
    && LogLaneSpawned(lanes[k], ticks, draw, w.pos[k], w.pos[k + 1], logs'[..w.firsts[k]], logs'[..w.firsts[k + 1]])
  }

  /** The river spawn step over the first `n` of `lanes`, from draw `p` to draw `p'`: the
      list grows from `logs` to `logs'`, and `w` marks, lane by lane, where the draws and
      the list stood, each lane doing what LogLaneSpawned says. */
  ghost predicate RiverSpawned(lanes: seq<Lane>, n: int, ticks: nat, draw: nat -> Random.Unit, p: nat, p': nat,
                               logs: seq<Actor>, logs': seq<Actor>, w: Walk)
    requires 0 <= n <= |lanes|
    reads set a | a in logs'
  {
    && |w.pos| == n + 1 && |w.firsts| == n + 1 && logs <= logs'
    && w.pos[0] == p && w.firsts[0] == |logs|
    && w.pos[n] == p' && w.firsts[n] == |logs'|
    && forall k | 0 <= k < n :: LogLaneAt(lanes, k, ticks, draw, logs', w)
  }

  lemma RiverSpawnedStep(lanes: seq<Lane>, j: int, ticks: nat, draw: nat -> Random.Unit, p: nat, q: nat, q': nat,
                         logs: seq<Actor>, l: seq<Actor>, l': seq<Actor>, w: Walk)
    requires forall k | 0 <= k < |lanes| :: lanes[k].spawnEvery > 0
    requires 0 <= j < |lanes| && l <= l'
    requires RiverSpawned(lanes, j, ticks, draw, p, q, logs, l, w)
    requires LogLaneSpawned(lanes[j], ticks, draw, q, q', l, l')
    ensures RiverSpawned(lanes, j + 1, ticks, draw, p, q', logs, l', w.ThenOne(q', |l'|))
  {
    var w' := w.ThenOne(q', |l'|);
    forall k | 0 <= k < j + 1
      ensures LogLaneAt(lanes, k, ticks, draw, l', w')
    {
      if k < j {
        assert LogLaneAt(lanes, k, ticks, draw, l, w);
        assert l'[..w.firsts[k]] == l[..w.firsts[k]] && l'[..w.firsts[k + 1]] == l[..w.firsts[k + 1]];
      } else {
        assert l'[..|l|] == l && l'[..|l'|] == l';
      }
    }
  }

  /** Lane `k` of a critter walk: it took the lists from their first `w.firsts[k]` birds
      and `w.seconds[k]` snakes to their first `w.firsts[k + 1]` and `w.seconds[k + 1]`,
      and the draws from `w.pos[k]` to `w.pos[k + 1]`, as CritterLaneSpawned says. */
  ghost predicate CritterLaneAt(lanes: seq<Lane>, k: int, ticks: nat, draw: nat -> Random.Unit,
                                birds': seq<Actor>, snakes': seq<Actor>, w: Walk)
    reads set a | a in birds', set a | a in snakes'
  {
    && 0 <= k < |lanes| && lanes[k].spawnEvery > 0
    && k + 1 < |w.pos| && k + 1 < |w.firsts| && k + 1 < |w.seconds|
    && w.firsts[k] <= w.firsts[k + 1] && w.firsts[k + 1] <= |birds'|
    && w.seconds[k] <= w.seconds[k + 1] && w.seconds[k + 1] <= |snakes'|
    && CritterLaneSpawned(lanes[k], ticks, draw, w.pos[k], w.pos[k + 1],
                          birds'[..w.firsts[k]], snakes'[..w.seconds[k]],
                          birds'[..w.firsts[k + 1]], snakes'[..w.seconds[k + 1]])
  }

  /** The critter spawn step over the first `n` of `lanes`, from draw `p` to draw `p'`: the
      lists grow from `birds` and `snakes` to `birds'` and `snakes'`, and `w` marks, lane by
      lane, where the draws and the lists stood, each lane doing what CritterLaneSpawned
      says. */
  ghost predicate CrittersSpawned(lanes: seq<Lane>, n: int, ticks: nat, draw: nat -> Random.Unit, p: nat, p': nat,
                                  birds: seq<Actor>, snakes: seq<Actor>, birds': seq<Actor>, snakes': seq<Actor>, w: Walk)
    requires 0 <= n <= |lanes|
    reads set a | a in birds', set a | a in snakes'
  {
    && |w.pos| == n + 1 && |w.firsts| == n + 1 && |w.seconds| == n + 1
    && birds <= birds' && snakes <= snakes'
    && w.pos[0] == p && w.firsts[0] == |birds| && w.seconds[0] == |snakes|
    && w.pos[n] == p' && w.firsts[n] == |birds'| && w.seconds[n] == |snakes'|
    && forall k | 0 <= k < n :: CritterLaneAt(lanes, k, ticks, draw, birds', snakes', w)
  }

  lemma CrittersSpawnedStep(lanes: seq<Lane>, j: int, ticks: nat, draw: nat -> Random.Unit, p: nat, q: nat, q': nat,
                            birds: seq<Actor>, snakes: seq<Actor>, b: seq<Actor>, s: seq<Actor>,
                            b': seq<Actor>, s': seq<Actor>, w: Walk)
    requires forall k | 0 <= k < |lanes| :: lanes[k].spawnEvery > 0
    requires 0 <= j < |lanes| && b <= b' && s <= s'
    requires CrittersSpawned(lanes, j, ticks, draw, p, q, birds, snakes, b, s, w)
    requires CritterLaneSpawned(lanes[j], ticks, draw, q, q', b, s, b', s')
    ensures CrittersSpawned(lanes, j + 1, ticks, draw, p, q', birds, snakes, b', s',
                            w.Then(q', |b'|, |s'|))
  {
    var w' := w.Then(q', |b'|, |s'|);
    forall k | 0 <= k < j + 1
      ensures CritterLaneAt(lanes, k, ticks, draw, b', s', w')
    {
      if k < j {
        assert CritterLaneAt(lanes, k, ticks, draw, b, s, w);
        assert b'[..w.firsts[k]] == b[..w.firsts[k]] && b'[..w.firsts[k + 1]] == b[..w.firsts[k + 1]];
        assert s'[..w.seconds[k]] == s[..w.seconds[k]] && s'[..w.seconds[k + 1]] == s[..w.seconds[k + 1]];
      } else {
        assert b'[..|b|] == b && s'[..|s|] == s && b'[..|b'|] == b' && s'[..|s'|] == s';
      }
    }
  }

  /** The road spawn step of a tick: every road lane in order. */
  method SpawnRoad(rng: Random.Rng, lanes: seq<Lane>, ticks: nat, cars: seq<Actor>, trucks: seq<Actor>)
    returns (cars': seq<Actor>, trucks': seq<Actor>, ghost w: Walk)
    requires forall k | 0 <= k < |lanes| :: lanes[k].spawnEvery > 0
    requires RoadReady(cars, trucks) && AllOfKind(cars, Car) && AllOfKind(trucks, Truck)
    modifies rng
    ensures RoadReady(cars', trucks') && AllOfKind(cars', Car) && AllOfKind(trucks', Truck)
    ensures cars <= cars' && trucks <= trucks' && |cars'| + |trucks'| <= |cars| + |trucks| + |lanes|
    ensures (forall k | 0 <= k < |lanes| :: ticks % lanes[k].spawnEvery != 0) ==>
              cars' == cars && trucks' == trucks && rng.pos == old(rng.pos)
    ensures forall i | |cars| <= i < |cars'| ::
              fresh(cars'[i]) && OffBoard(cars'[i]) && SpawnedOn(cars'[i], lanes, ticks, VEHICLE_MARGIN)
    ensures forall i | |trucks| <= i < |trucks'| ::
              fresh(trucks'[i]) && OffBoard(trucks'[i]) && SpawnedOn(trucks'[i], lanes, ticks, VEHICLE_MARGIN)
    ensures RoadSpawned(lanes, |lanes|, ticks, rng.draw, old(rng.pos), rng.pos, cars, trucks, cars', trucks', w)
  {
    cars', trucks' := cars, trucks;
    w := Walk([rng.pos], [|cars|], [|trucks|]);
    var j := 0;
    while j < |lanes|
      invariant 0 <= j <= |lanes|
      invariant RoadReady(cars', trucks') && AllOfKind(cars', Car) && AllOfKind(trucks', Truck)
      invariant cars <= cars' && trucks <= trucks' && |cars'| + |trucks'| <= |cars| + |trucks| + j
      invariant (forall k | 0 <= k < j :: ticks % lanes[k].spawnEvery != 0) ==>
                  cars' == cars && trucks' == trucks && rng.pos == old(rng.pos)
      invariant forall i | |cars| <= i < |cars'| ::
                  fresh(cars'[i]) && OffBoard(cars'[i]) && SpawnedOn(cars'[i], lanes, ticks, VEHICLE_MARGIN)
      invariant forall i | |trucks| <= i < |trucks'| ::
                  fresh(trucks'[i]) && OffBoard(trucks'[i]) && SpawnedOn(trucks'[i], lanes, ticks, VEHICLE_MARGIN)
      invariant RoadSpawned(lanes, j, ticks, rng.draw, old(rng.pos), rng.pos, cars, trucks, cars', trucks', w)
    {
      cars', trucks', w := SpawnRoadNext(rng, lanes, j, ticks, old(rng.pos), cars, trucks, cars', trucks', w);
      j := j + 1;
    }
  }

  /** Lane `j` of the road spawn step: the walk over the lanes before it, from draw
      `p`, becomes one over the lanes up to it. */
  method SpawnRoadNext(rng: Random.Rng, lanes: seq<Lane>, j: int, ticks: nat, ghost p: nat,
                    cars: seq<Actor>, trucks: seq<Actor>, c: seq<Actor>, t: seq<Actor>, ghost w: Walk)
    returns (c': seq<Actor>, t': seq<Actor>, ghost w': Walk)
    requires forall k | 0 <= k < |lanes| :: lanes[k].spawnEvery > 0
    requires 0 <= j < |lanes|
    requires RoadSpawned(lanes, j, ticks, rng.draw, p, rng.pos, cars, trucks, c, t, w)
    requires RoadReady(c, t) && AllOfKind(c, Car) && AllOfKind(t, Truck)
    modifies rng
    ensures RoadSpawned(lanes, j + 1, ticks, rng.draw, p, rng.pos, cars, trucks, c', t', w')
    ensures RoadReady(c', t') && AllOfKind(c', Car) && AllOfKind(t', Truck)
    ensures c <= c' && t <= t' && |c'| + |t'| <= |c| + |t| + 1
    ensures ticks % lanes[j].spawnEvery != 0 ==> c' == c && t' == t && rng.pos == old(rng.pos)
    ensures forall i | |c| <= i < |c'| :: fresh(c'[i]) && OffBoard(c'[i]) && SpawnedOn(c'[i], lanes, ticks, VEHICLE_MARGIN)
    ensures forall i | |t| <= i < |t'| :: fresh(t'[i]) && OffBoard(t'[i]) && SpawnedOn(t'[i], lanes, ticks, VEHICLE_MARGIN)
  {
    ghost var q := rng.pos;
    c', t' := SpawnRoadLane(rng, lanes[j], ticks, c, t);
    RoadSpawnedStep(lanes, j, ticks, rng.draw, p, q, rng.pos, cars, trucks, c, t, c', t', w);
    w' := w.Then(rng.pos, |c'|, |t'|);
    forall i | |c| <= i < |c'| ensures OffBoard(c'[i]) && SpawnedOn(c'[i], lanes, ticks, VEHICLE_MARGIN) {
      EntryIsOffBoard(c'[i], lanes[j], VEHICLE_MARGIN);
    }
    forall i | |t| <= i < |t'| ensures OffBoard(t'[i]) && SpawnedOn(t'[i], lanes, ticks, VEHICLE_MARGIN) {
      EntryIsOffBoard(t'[i], lanes[j], VEHICLE_MARGIN);
    }
  }

  /** The river spawn step of a tick: every river lane in order. */
  method SpawnRiver(rng: Random.Rng, lanes: seq<Lane>, ticks: nat, logs: seq<Actor>) returns (logs': seq<Actor>, ghost w: Walk)
    requires forall k | 0 <= k < |lanes| :: lanes[k].spawnEvery > 0
    requires Sized(logs, Log) && Distinct(logs)
    modifies rng
    ensures Sized(logs', Log) && Distinct(logs') && logs <= logs' && |logs'| <= |logs| + |lanes|
    ensures (forall k | 0 <= k < |lanes| :: ticks % lanes[k].spawnEvery != 0) ==> logs' == logs && rng.pos == old(rng.pos)
    ensures forall i | |logs| <= i < |logs'| ::
              fresh(logs'[i]) && OffBoard(logs'[i]) && SpawnedOn(logs'[i], lanes, ticks, ENTRY_MARGIN)
    ensures RiverSpawned(lanes, |lanes|, ticks, rng.draw, old(rng.pos), rng.pos, logs, logs', w)
  {
    logs' := logs;
    w := Walk([rng.pos], [|logs|], []);
    var j := 0;
    while j < |lanes|
      invariant 0 <= j <= |lanes|
      invariant Sized(logs', Log) && Distinct(logs') && logs <= logs' && |logs'| <= |logs| + j
      invariant (forall k | 0 <= k < j :: ticks % lanes[k].spawnEvery != 0) ==> logs' == logs && rng.pos == old(rng.pos)
      invariant forall i | |logs| <= i < |logs'| ::
                  fresh(logs'[i]) && OffBoard(logs'[i]) && SpawnedOn(logs'[i], lanes, ticks, ENTRY_MARGIN)
      invariant RiverSpawned(lanes, j, ticks, rng.draw, old(rng.pos), rng.pos, logs, logs', w)
    {
      ghost var q := rng.pos;
      var l := SpawnLogLane(rng, lanes[j], ticks, logs');
      RiverSpawnedStep(lanes, j, ticks, rng.draw, old(rng.pos), q, rng.pos, logs, logs', l, w);
      w := w.ThenOne(rng.pos, |l|);
      forall i | |logs'| <= i < |l| ensures OffBoard(l[i]) && SpawnedOn(l[i], lanes, ticks, ENTRY_MARGIN) {
        EntryIsOffBoard(l[i], lanes[j], ENTRY_MARGIN);
      }
      logs' := l;
      j := j + 1;
    }
  }

  /** The critter spawn step of a tick: every critter lane in order. */
  method SpawnCritters(rng: Random.Rng, lanes: seq<Lane>, ticks: nat, birds: seq<Actor>, snakes: seq<Actor>)
    returns (birds': seq<Actor>, snakes': seq<Actor>, ghost w: Walk)
    requires forall k | 0 <= k < |lanes| :: lanes[k].spawnEvery > 0
    requires CritterReady(birds, snakes) && AllOfKind(birds, Bird) && AllOfKind(snakes, Snake)
    modifies rng
    ensures CritterReady(birds', snakes') && AllOfKind(birds', Bird) && AllOfKind(snakes', Snake)
    ensures birds <= birds' && snakes <= snakes' && |birds'| + |snakes'| <= |birds| + |snakes| + |lanes|
    ensures (forall k | 0 <= k < |lanes| :: ticks % lanes[k].spawnEvery != 0) ==>
              birds' == birds && snakes' == snakes && rng.pos == old(rng.pos)
    ensures forall i | |birds| <= i < |birds'| ::
              fresh(birds'[i]) && OffBoard(birds'[i]) && SpawnedOn(birds'[i], lanes, ticks, ENTRY_MARGIN)
    ensures forall i | |snakes| <= i < |snakes'| ::
              fresh(snakes'[i]) && OffBoard(snakes'[i]) && SpawnedOn(snakes'[i], lanes, ticks, ENTRY_MARGIN)
    ensures CrittersSpawned(lanes, |lanes|, ticks, rng.draw, old(rng.pos), rng.pos, birds, snakes, birds', snakes', w)
  {
    birds', snakes' := birds, snakes;
    w := Walk([rng.pos], [|birds|], [|snakes|]);
    var j := 0;
    while j < |lanes|
      invariant 0 <= j <= |lanes|
      invariant CritterReady(birds', snakes') && AllOfKind(birds', Bird) && AllOfKind(snakes', Snake)
      invariant birds <= birds' && snakes <= snakes' && |birds'| + |snakes'| <= |birds| + |snakes| + j
      invariant (forall k | 0 <= k < j :: ticks % lanes[k].spawnEvery != 0) ==>
                  birds' == birds && snakes' == snakes && rng.pos == old(rng.pos)
      invariant forall i | |birds| <= i < |birds'| ::
                  fresh(birds'[i]) && OffBoard(birds'[i]) && SpawnedOn(birds'[i], lanes, ticks, ENTRY_MARGIN)
      invariant forall i | |snakes| <= i < |snakes'| ::
                  fresh(snakes'[i]) && OffBoard(snakes'[i]) && SpawnedOn(snakes'[i], lanes, ticks, ENTRY_MARGIN)
      invariant CrittersSpawned(lanes, j, ticks, rng.draw, old(rng.pos), rng.pos, birds, snakes, birds', snakes', w)
    {
      birds', snakes', w := SpawnCrittersNext(rng, lanes, j, ticks, old(rng.pos), birds, snakes, birds', snakes', w);
      j := j + 1;
    }
  }

  /** Lane `j` of the critter spawn step: the walk over the lanes before it, from draw
      `p`, becomes one over the lanes up to it. */
  method SpawnCrittersNext(rng: Random.Rng, lanes: seq<Lane>, j: int, ticks: nat, ghost p: nat,
                    birds: seq<Actor>, snakes: seq<Actor>, b: seq<Actor>, sn: seq<Actor>, ghost w: Walk)
    returns (b': seq<Actor>, sn': seq<Actor>, ghost w': Walk)
    requires forall k | 0 <= k < |lanes| :: lanes[k].spawnEvery > 0
    requires 0 <= j < |lanes|
    requires CrittersSpawned(lanes, j, ticks, rng.draw, p, rng.pos, birds, snakes, b, sn, w)
    requires CritterReady(b, sn) && AllOfKind(b, Bird) && AllOfKind(sn, Snake)
    modifies rng
    ensures CrittersSpawned(lanes, j + 1, ticks, rng.draw, p, rng.pos, birds, snakes, b', sn', w')
    ensures CritterReady(b', sn') && AllOfKind(b', Bird) && AllOfKind(sn', Snake)
    ensures b <= b' && sn <= sn' && |b'| + |sn'| <= |b| + |sn| + 1
    ensures ticks % lanes[j].spawnEvery != 0 ==> b' == b && sn' == sn && rng.pos == old(rng.pos)
    ensures forall i | |b| <= i < |b'| :: fresh(b'[i]) && OffBoard(b'[i]) && SpawnedOn(b'[i], lanes, ticks, ENTRY_MARGIN)
    ensures forall i | |sn| <= i < |sn'| :: fresh(sn'[i]) && OffBoard(sn'[i]) && SpawnedOn(sn'[i], lanes, ticks, ENTRY_MARGIN)
  {
    ghost var q := rng.pos;
    b', sn' := SpawnCritterLane(rng, lanes[j], ticks, b, sn);
    CrittersSpawnedStep(lanes, j, ticks, rng.draw, p, q, rng.pos, birds, snakes, b, sn, b', sn', w);
    w' := w.Then(rng.pos, |b'|, |sn'|);
    forall i | |b| <= i < |b'| ensures OffBoard(b'[i]) && SpawnedOn(b'[i], lanes, ticks, ENTRY_MARGIN) {
      EntryIsOffBoard(b'[i], lanes[j], ENTRY_MARGIN);
    }
    forall i | |sn| <= i < |sn'| ensures OffBoard(sn'[i]) && SpawnedOn(sn'[i], lanes, ticks, ENTRY_MARGIN) {
      EntryIsOffBoard(sn'[i], lanes[j], ENTRY_MARGIN);
    }
  }
}
