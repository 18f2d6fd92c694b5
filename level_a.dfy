/** How variant A (FroggerExample/src) builds a level and spawns actors: the lane tables
    of `setupLevel`, the seeding loops with their bounded retries, and the spawners of
    `actionPerformed`. Random draws come from the game's `Rng`. */
module LevelA {
  import opened Board
  import opened Geometry
  import opened Actors
  import opened Spacing
  import opened Placement
  import opened Lanes
  import Random

  const VEHICLE_MIN_GAP: int := TILE
  const CRITTER_MIN_GAP: int := TILE / 2
  /** Co-lane test of the space checks and resolvers: |a.y - lane.y| < TILE/2. */
  const LANE_BAND: int := TILE / 2

  /** `Math.round` on a non-negative value. */
  function Round(r: real): int {
    (r + 0.5).Floor
  }

  lemma RoundMonotone(a: real, b: real)
    requires a <= b
    ensures Round(a) <= Round(b)
  {
  }

  function Max(a: int, b: int): int { if a >= b then a else b }

  // ---------- lane tables ----------

  /** River lane `i` (board rows 4, 3, 2): alternating direction, rightward first. */
  function RiverLane(level: int, i: int): (l: Lane)
    requires level >= 1 && 0 <= i < 3
    ensures l.y == (4 - i) * TILE && (l.Rightward() <==> i % 2 == 0) && l.spawnEvery >= 25
  {
    var base := 1.25 + 0.2 * i as real + (level - 1) as real * 0.15;
    var every := Round(Max(48 - level * 2 - i * 2, 18) as real * 1.4);
    Lane((4 - i) * TILE, if i % 2 == 0 then base else -base, every)
  }

  /** Road lane `i` (board rows 11 down to 6). */
  function RoadLane(level: int, i: int): (l: Lane)
    requires level >= 1 && 0 <= i < 6
    ensures l.y == (11 - i) * TILE && (l.Rightward() <==> i % 2 == 0) && l.spawnEvery >= 26
  {
    var base := 1.5 + 0.25 * i as real + (level - 1) as real * 0.25;
    var every := Round(Max(35 - level * 2 - i * 2, 15) as real * 1.7);
    Lane((11 - i) * TILE, if i % 2 == 0 then base else -base, every)
  }

  /** Critter lane `i` (board rows 16, 15, 14). */
  function CritterLane(level: int, i: int): (l: Lane)
    requires level >= 1 && 0 <= i < 3
    ensures l.y == (16 - i) * TILE && (l.Rightward() <==> i % 2 == 0) && l.spawnEvery >= 26
  {
    var base := 1.4 + 0.2 * i as real + (level - 1) as real * 0.15;
    var every := Round(Max(40 - level * 2 - i, 16) as real * 1.6);
    Lane((16 - i) * TILE, if i % 2 == 0 then base else -base, every)
  }

  function Speed(l: Lane): real { if l.speed >= 0.0 then l.speed else -l.speed }

  /** Each level is harder in every lane: actors move strictly faster and spawn attempts
      come at least as often. */
  lemma HarderEachLevel(level: int, i: int)
    requires level >= 1 && 0 <= i < 6
    ensures Speed(RoadLane(level + 1, i)) > Speed(RoadLane(level, i))
    ensures RoadLane(level + 1, i).spawnEvery <= RoadLane(level, i).spawnEvery
    ensures i < 3 ==> Speed(RiverLane(level + 1, i)) > Speed(RiverLane(level, i))
    ensures i < 3 ==> RiverLane(level + 1, i).spawnEvery <= RiverLane(level, i).spawnEvery
    ensures i < 3 ==> Speed(CritterLane(level + 1, i)) > Speed(CritterLane(level, i))
    ensures i < 3 ==> CritterLane(level + 1, i).spawnEvery <= CritterLane(level, i).spawnEvery
  {
    RoundMonotone(Max(35 - (level + 1) * 2 - i * 2, 15) as real * 1.7, Max(35 - level * 2 - i * 2, 15) as real * 1.7);
    if i < 3 {
      RoundMonotone(Max(48 - (level + 1) * 2 - i * 2, 18) as real * 1.4, Max(48 - level * 2 - i * 2, 18) as real * 1.4);
      RoundMonotone(Max(40 - (level + 1) * 2 - i, 16) as real * 1.6, Max(40 - level * 2 - i, 16) as real * 1.6);
    }
  }

  function RiverLanes(level: int): (r: seq<Lane>)
    requires level >= 1
    ensures |r| == 3 && forall i :: 0 <= i < 3 ==> r[i] == RiverLane(level, i)
  {
    [RiverLane(level, 0), RiverLane(level, 1), RiverLane(level, 2)]
  }

  function RoadLanes(level: int): (r: seq<Lane>)
    requires level >= 1
    ensures |r| == 6 && forall i :: 0 <= i < 6 ==> r[i] == RoadLane(level, i)
  {
    [RoadLane(level, 0), RoadLane(level, 1), RoadLane(level, 2),
     RoadLane(level, 3), RoadLane(level, 4), RoadLane(level, 5)]
  }

  function CritterLanes(level: int): (r: seq<Lane>)
    requires level >= 1
    ensures |r| == 3 && forall i :: 0 <= i < 3 ==> r[i] == CritterLane(level, i)
  {
    [CritterLane(level, 0), CritterLane(level, 1), CritterLane(level, 2)]
  }

  // ---------- actor shapes ----------

  predicate RoadCar(a: Actor, lane: Lane) {
    a.kind == Car && a.y == lane.y + 5 && a.h == TILE - 10 && (a.w == 2 * TILE || a.w == 3 * TILE)
    && a.speed == lane.speed
  }

  predicate RoadTruck(a: Actor, lane: Lane) {
    a.kind == Truck && a.y == lane.y + 4 && a.h == TILE - 8 && (a.w == 3 * TILE || a.w == 4 * TILE)
    && a.speed == lane.speed * 0.85
  }

  predicate RiverLog(a: Actor, lane: Lane) {
    a.kind == Log && a.y == lane.y + 6 && a.h == TILE - 12 && (a.w == 3 * TILE || a.w == 4 * TILE)
    && a.speed == lane.speed
  }

  predicate LaneBird(a: Actor, lane: Lane) {
    a.kind == Bird && a.y == lane.y + 7 && a.w == TILE - 8 && a.h == TILE - 14 && a.speed == lane.speed * 1.1
  }

  predicate LaneSnake(a: Actor, lane: Lane) {
    a.kind == Snake && a.y == lane.y + 6 && a.w == 64 && a.h == TILE - 12 && a.speed == lane.speed * 0.9
  }

  // ---------- seeding ----------

  /** A length of `tiles` or `tiles + 1` tiles, as `TILE * (tiles + nextInt(2))` draws it
      from `u`. */
  function Length(tiles: int, u: Random.Unit): int {
    TILE * (tiles + Random.IntOf(u, 2))
  }

  /** The rectangle a seeding attempt tests: `w` x `h` on row `y`, at the x that
      `nextInt(WIDTH)` draws from `u`. */
  function SeedRect(u: Random.Unit, y: int, w: int, h: int): Rect {
    Rect(Random.IntOf(u, WIDTH), y, w, h)
  }

  /** Draws the rectangle a seeding attempt tests, in the source's order: the length
      `TILE * (tiles + nextInt(2))` first, then the x `nextInt(WIDTH)`. */
  method DrawSeedRect(rng: Random.Rng, tiles: int, y: int, h: int) returns (r: Rect)
    modifies rng
    ensures rng.pos == old(rng.pos) + 2
    ensures r == SeedRect(rng.draw(old(rng.pos) + 1), y, Length(tiles, rng.draw(old(rng.pos))), h)
    ensures 0 <= r.x < WIDTH && r.y == y && r.height == h && (r.width == TILE * tiles || r.width == TILE * (tiles + 1))
  {
    var k := rng.NextInt(2);
    var x := rng.NextInt(WIDTH);
    r := Rect(x, y, TILE * (tiles + k), h);
  }

  /** One seeding attempt on a road lane: roll truck (below 0.45) or car, draw its length
      and an x in [0, WIDTH), and keep it only if the space check passes. */
  method TryRoadVehicle(rng: Random.Rng, lane: Lane, cars: seq<Actor>, trucks: seq<Actor>)
    returns (cars': seq<Actor>, trucks': seq<Actor>, placed: bool)
    requires RoadReady(cars, trucks)
    requires LaneSpaced(Elems(cars) + Elems(trucks), lane.y, LANE_BAND, VEHICLE_MIN_GAP)
    modifies rng
    ensures RoadReady(cars', trucks') && cars <= cars' && trucks <= trucks'
    ensures |cars'| + |trucks'| == |cars| + |trucks| + (if placed then 1 else 0)
    ensures rng.pos == old(rng.pos) + 3
    ensures |trucks'| > |trucks| ==> rng.draw(old(rng.pos)) < 0.45
    ensures |cars'| > |cars| ==> rng.draw(old(rng.pos)) >= 0.45
    ensures placed == if rng.draw(old(rng.pos)) < 0.45
                      then HasSpaceFor(cars, trucks, SeedRect(rng.draw(old(rng.pos) + 2), lane.y + 4,
                                                              Length(3, rng.draw(old(rng.pos) + 1)), TILE - 8),
                                       lane.y, LANE_BAND, VEHICLE_MIN_GAP)
                      else HasSpaceFor(cars, trucks, SeedRect(rng.draw(old(rng.pos) + 2), lane.y + 5,
                                                              Length(2, rng.draw(old(rng.pos) + 1)), TILE - 10),
                                       lane.y, LANE_BAND, VEHICLE_MIN_GAP)
    ensures !Occupied(Elems(cars) + Elems(trucks), lane.y, LANE_BAND) ==> placed
    ensures forall i | |cars| <= i < |cars'| ::
              fresh(cars'[i]) && RoadCar(cars'[i], lane) && 0.0 <= cars'[i].x < WIDTH as real
    ensures forall i | |trucks| <= i < |trucks'| ::
              fresh(trucks'[i]) && RoadTruck(trucks'[i], lane) && 0.0 <= trucks'[i].x < WIDTH as real
    ensures |trucks'| > |trucks| ==>
              trucks'[|trucks|].Bounds() == SeedRect(rng.draw(old(rng.pos) + 2), lane.y + 4,
                                                     Length(3, rng.draw(old(rng.pos) + 1)), TILE - 8)
    ensures |cars'| > |cars| ==>
              cars'[|cars|].Bounds() == SeedRect(rng.draw(old(rng.pos) + 2), lane.y + 5,
                                                 Length(2, rng.draw(old(rng.pos) + 1)), TILE - 10)
    ensures LaneSpaced(Elems(cars') + Elems(trucks'), lane.y, LANE_BAND, VEHICLE_MIN_GAP)
  {
    var roll := rng.NextDouble();
    if roll < 0.45 {
      cars' := cars;
      trucks', placed := TryTruck(rng, lane, cars, trucks);
    } else {
      trucks' := trucks;
      cars', placed := TryCar(rng, lane, cars, trucks);
    }
  }

  /** The truck branch of a road seeding attempt: a length of 3 or 4 tiles, an x in
      [0, WIDTH), kept if the space check passes. */
  method TryTruck(rng: Random.Rng, lane: Lane, cars: seq<Actor>, trucks: seq<Actor>)
    returns (trucks': seq<Actor>, placed: bool)
    requires RoadReady(cars, trucks)
    requires LaneSpaced(Elems(cars) + Elems(trucks), lane.y, LANE_BAND, VEHICLE_MIN_GAP)
    modifies rng
    ensures RoadReady(cars, trucks') && trucks <= trucks'
    ensures |trucks'| == |trucks| + (if placed then 1 else 0)
    ensures rng.pos == old(rng.pos) + 2
    ensures placed == HasSpaceFor(cars, trucks, SeedRect(rng.draw(old(rng.pos) + 1), lane.y + 4,
                                                         Length(3, rng.draw(old(rng.pos))), TILE - 8),
                                  lane.y, LANE_BAND, VEHICLE_MIN_GAP)
    ensures placed ==> trucks'[|trucks|].Bounds() == SeedRect(rng.draw(old(rng.pos) + 1), lane.y + 4,
                                                             Length(3, rng.draw(old(rng.pos))), TILE - 8)
    ensures !Occupied(Elems(cars) + Elems(trucks), lane.y, LANE_BAND) ==> placed
    ensures forall i | |trucks| <= i < |trucks'| ::
              fresh(trucks'[i]) && RoadTruck(trucks'[i], lane) && 0.0 <= trucks'[i].x < WIDTH as real
    ensures LaneSpaced(Elems(cars) + Elems(trucks'), lane.y, LANE_BAND, VEHICLE_MIN_GAP)
  {
    var r := DrawSeedRect(rng, 3, lane.y + 4, TILE - 8);
    assert r == SeedRect(rng.draw(old(rng.pos) + 1), lane.y + 4, Length(3, rng.draw(old(rng.pos))), TILE - 8);
    assert Elems(trucks) + Elems(cars) == Elems(cars) + Elems(trucks);
    SpaceSymmetric(trucks, cars, r, lane.y, LANE_BAND, VEHICLE_MIN_GAP);
    trucks', placed := PlaceInLane(Truck, r.x, r.y, r.width, r.height, lane.speed * 0.85, lane.y, LANE_BAND, VEHICLE_MIN_GAP, trucks, cars);
    assert Elems(trucks') + Elems(cars) == Elems(cars) + Elems(trucks');
  }

  /** The car branch of a road seeding attempt: a length of 2 or 3 tiles, an x in
      [0, WIDTH), kept if the space check passes. */
  method TryCar(rng: Random.Rng, lane: Lane, cars: seq<Actor>, trucks: seq<Actor>)
    returns (cars': seq<Actor>, placed: bool)
    requires RoadReady(cars, trucks)
    requires LaneSpaced(Elems(cars) + Elems(trucks), lane.y, LANE_BAND, VEHICLE_MIN_GAP)
    modifies rng
    ensures RoadReady(cars', trucks) && cars <= cars'
    ensures |cars'| == |cars| + (if placed then 1 else 0)
    ensures rng.pos == old(rng.pos) + 2
    ensures placed == HasSpaceFor(cars, trucks, SeedRect(rng.draw(old(rng.pos) + 1), lane.y + 5,
                                                         Length(2, rng.draw(old(rng.pos))), TILE - 10),
                                  lane.y, LANE_BAND, VEHICLE_MIN_GAP)
    ensures placed ==> cars'[|cars|].Bounds() == SeedRect(rng.draw(old(rng.pos) + 1), lane.y + 5,
                                                         Length(2, rng.draw(old(rng.pos))), TILE - 10)
    ensures !Occupied(Elems(cars) + Elems(trucks), lane.y, LANE_BAND) ==> placed
    ensures forall i | |cars| <= i < |cars'| ::
              fresh(cars'[i]) && RoadCar(cars'[i], lane) && 0.0 <= cars'[i].x < WIDTH as real
    ensures LaneSpaced(Elems(cars') + Elems(trucks), lane.y, LANE_BAND, VEHICLE_MIN_GAP)
  {
    var r := DrawSeedRect(rng, 2, lane.y + 5, TILE - 10);
    assert r == SeedRect(rng.draw(old(rng.pos) + 1), lane.y + 5, Length(2, rng.draw(old(rng.pos))), TILE - 10);
    cars', placed := PlaceInLane(Car, r.x, r.y, r.width, r.height, lane.speed, lane.y, LANE_BAND, VEHICLE_MIN_GAP, cars, trucks);
  }

  /** Seeds one road lane: 1 or 2 vehicles, at most 12 attempts. Every vehicle placed is
      spaced from every other one in the lane. */
  method SeedRoadLane(rng: Random.Rng, lane: Lane, cars: seq<Actor>, trucks: seq<Actor>)
    returns (cars': seq<Actor>, trucks': seq<Actor>)
    requires RoadReady(cars, trucks)
    requires LaneSpaced(Elems(cars) + Elems(trucks), lane.y, LANE_BAND, VEHICLE_MIN_GAP)
    modifies rng
    ensures RoadReady(cars', trucks') && cars <= cars' && trucks <= trucks'
    ensures |cars'| + |trucks'| <= |cars| + |trucks| + 2
    ensures !Occupied(Elems(cars) + Elems(trucks), lane.y, LANE_BAND) ==> |cars'| + |trucks'| > |cars| + |trucks|
    ensures forall i | |cars| <= i < |cars'| ::
              fresh(cars'[i]) && RoadCar(cars'[i], lane) && 0.0 <= cars'[i].x < WIDTH as real
    ensures forall i | |trucks| <= i < |trucks'| ::
              fresh(trucks'[i]) && RoadTruck(trucks'[i], lane) && 0.0 <= trucks'[i].x < WIDTH as real
    ensures LaneSpaced(Elems(cars') + Elems(trucks'), lane.y, LANE_BAND, VEHICLE_MIN_GAP)
  {
    cars', trucks' := cars, trucks;
    var extra := rng.NextInt(2);
    var toPlace := 1 + extra;
    var attempts := 0;
    while toPlace > 0 && attempts < 12
      invariant 0 <= toPlace && |cars'| - |cars| + |trucks'| - |trucks| + toPlace <= 2
      invariant attempts == 0 ==> toPlace > 0 && cars' == cars && trucks' == trucks
      invariant attempts > 0 && !Occupied(Elems(cars) + Elems(trucks), lane.y, LANE_BAND) ==>
                  |cars'| + |trucks'| > |cars| + |trucks|
      invariant RoadReady(cars', trucks') && cars <= cars' && trucks <= trucks'
      invariant forall i | |cars| <= i < |cars'| ::
                  fresh(cars'[i]) && RoadCar(cars'[i], lane) && 0.0 <= cars'[i].x < WIDTH as real
      invariant forall i | |trucks| <= i < |trucks'| ::
                  fresh(trucks'[i]) && RoadTruck(trucks'[i], lane) && 0.0 <= trucks'[i].x < WIDTH as real
      invariant LaneSpaced(Elems(cars') + Elems(trucks'), lane.y, LANE_BAND, VEHICLE_MIN_GAP)
      decreases 12 - attempts
    {
      attempts := attempts + 1;
      var c, t, placed := TryRoadVehicle(rng, lane, cars', trucks');
      cars', trucks' := c, t;
      if placed {
        toPlace := toPlace - 1;
      }
    }
  }

  /** One seeding attempt on a river lane: a log 3 or 4 tiles long at an x in [0, WIDTH),
      kept if the log space check (gap TILE/2) passes. */
  method TryLog(rng: Random.Rng, lane: Lane, logs: seq<Actor>) returns (logs': seq<Actor>, placed: bool)
    requires Distinct(logs) && forall a | a in Elems(logs) :: a.w > 0 && a.h > 0
    requires LaneSpaced(Elems(logs), lane.y, LANE_BAND, TILE / 2)
    modifies rng
    ensures Distinct(logs') && (forall a | a in Elems(logs') :: a.w > 0 && a.h > 0) && logs <= logs'
    ensures |logs'| == |logs| + (if placed then 1 else 0)
    ensures rng.pos == old(rng.pos) + 2
    ensures placed == HasSpaceFor(logs, [], SeedRect(rng.draw(old(rng.pos) + 1), lane.y + 6,
                                                     Length(3, rng.draw(old(rng.pos))), TILE - 12),
                                  lane.y, LANE_BAND, TILE / 2)
    ensures placed ==> logs'[|logs|].Bounds() == SeedRect(rng.draw(old(rng.pos) + 1), lane.y + 6,
                                                         Length(3, rng.draw(old(rng.pos))), TILE - 12)
    ensures !Occupied(Elems(logs), lane.y, LANE_BAND) ==> placed
    ensures forall i | |logs| <= i < |logs'| ::
              fresh(logs'[i]) && RiverLog(logs'[i], lane) && 0.0 <= logs'[i].x < WIDTH as real
    ensures LaneSpaced(Elems(logs'), lane.y, LANE_BAND, TILE / 2)
  {
    var r := DrawSeedRect(rng, 3, lane.y + 6, TILE - 12);
    assert r == SeedRect(rng.draw(old(rng.pos) + 1), lane.y + 6, Length(3, rng.draw(old(rng.pos))), TILE - 12);
    assert Elems(logs) + Elems([]) == Elems(logs);
    logs', placed := PlaceInLane(Log, r.x, r.y, r.width, r.height, lane.speed, lane.y, LANE_BAND, TILE / 2, logs, []);
    assert Elems(logs') + Elems([]) == Elems(logs');
  }

  /** Seeds one river lane: 1 or 2 logs (a coin flip), at most 10 attempts. */
  method SeedLogLane(rng: Random.Rng, lane: Lane, logs: seq<Actor>) returns (logs': seq<Actor>)
    requires Distinct(logs) && forall a | a in Elems(logs) :: a.w > 0 && a.h > 0
    requires LaneSpaced(Elems(logs), lane.y, LANE_BAND, TILE / 2)
    modifies rng
    ensures Distinct(logs') && (forall a | a in Elems(logs') :: a.w > 0 && a.h > 0) && logs <= logs'
    ensures |logs'| <= |logs| + 2
    ensures !Occupied(Elems(logs), lane.y, LANE_BAND) ==> |logs'| > |logs|
    ensures forall i | |logs| <= i < |logs'| ::
              fresh(logs'[i]) && RiverLog(logs'[i], lane) && 0.0 <= logs'[i].x < WIDTH as real
    ensures LaneSpaced(Elems(logs'), lane.y, LANE_BAND, TILE / 2)
  {
    logs' := logs;
    var two := rng.NextBoolean();
    var toPlace := 1 + (if two then 1 else 0);
    var attempts := 0;
    while toPlace > 0 && attempts < 10
      invariant 0 <= toPlace && |logs'| - |logs| + toPlace <= 2
      invariant attempts == 0 ==> toPlace > 0 && logs' == logs
      invariant attempts > 0 && !Occupied(Elems(logs), lane.y, LANE_BAND) ==> |logs'| > |logs|
      invariant Distinct(logs') && (forall a | a in Elems(logs') :: a.w > 0 && a.h > 0) && logs <= logs'
      invariant forall i | |logs| <= i < |logs'| ::
                  fresh(logs'[i]) && RiverLog(logs'[i], lane) && 0.0 <= logs'[i].x < WIDTH as real
      invariant LaneSpaced(Elems(logs'), lane.y, LANE_BAND, TILE / 2)
      decreases 10 - attempts
    {
      attempts := attempts + 1;
      var l, placed := TryLog(rng, lane, logs');
      logs' := l;
      if placed {
        toPlace := toPlace - 1;
      }
    }
  }

  /** One seeding attempt on a critter lane: a coin flip picks bird or snake, then an x in
      [0, WIDTH), kept if the critter space check passes. */
  method TryCritter(rng: Random.Rng, lane: Lane, birds: seq<Actor>, snakes: seq<Actor>)
    returns (birds': seq<Actor>, snakes': seq<Actor>, placed: bool)
    requires CritterReady(birds, snakes)
    requires LaneSpaced(Elems(birds) + Elems(snakes), lane.y, LANE_BAND, CRITTER_MIN_GAP)
    modifies rng
    ensures CritterReady(birds', snakes') && birds <= birds' && snakes <= snakes'
    ensures |birds'| + |snakes'| == |birds| + |snakes| + (if placed then 1 else 0)
    ensures rng.pos == old(rng.pos) + 2
    ensures |birds'| > |birds| ==> rng.draw(old(rng.pos)) < 0.5
    ensures |snakes'| > |snakes| ==> rng.draw(old(rng.pos)) >= 0.5
    ensures placed == if rng.draw(old(rng.pos)) < 0.5
                      then HasSpaceFor(birds, snakes, SeedRect(rng.draw(old(rng.pos) + 1), lane.y + 7, TILE - 8, TILE - 14),
                                       lane.y, LANE_BAND, CRITTER_MIN_GAP)
                      else HasSpaceFor(birds, snakes, SeedRect(rng.draw(old(rng.pos) + 1), lane.y + 6, 64, TILE - 12),
                                       lane.y, LANE_BAND, CRITTER_MIN_GAP)
    ensures |birds'| > |birds| ==>
              birds'[|birds|].Bounds() == SeedRect(rng.draw(old(rng.pos) + 1), lane.y + 7, TILE - 8, TILE - 14)
    ensures |snakes'| > |snakes| ==>
              snakes'[|snakes|].Bounds() == SeedRect(rng.draw(old(rng.pos) + 1), lane.y + 6, 64, TILE - 12)
    ensures !Occupied(Elems(birds) + Elems(snakes), lane.y, LANE_BAND) ==> placed
    ensures forall i | |birds| <= i < |birds'| ::
              fresh(birds'[i]) && LaneBird(birds'[i], lane) && 0.0 <= birds'[i].x < WIDTH as real
    ensures forall i | |snakes| <= i < |snakes'| ::
              fresh(snakes'[i]) && LaneSnake(snakes'[i], lane) && 0.0 <= snakes'[i].x < WIDTH as real
    ensures LaneSpaced(Elems(birds') + Elems(snakes'), lane.y, LANE_BAND, CRITTER_MIN_GAP)
  {
    var bird := rng.NextBoolean();
    if bird {
      snakes' := snakes;
      birds', placed := TryBird(rng, lane, birds, snakes);
    } else {
      birds' := birds;
      snakes', placed := TrySnake(rng, lane, birds, snakes);
    }
  }

  /** The bird branch of a critter seeding attempt: an x in [0, WIDTH), kept if the
      space check passes. */
  method TryBird(rng: Random.Rng, lane: Lane, birds: seq<Actor>, snakes: seq<Actor>)
    returns (birds': seq<Actor>, placed: bool)
    requires CritterReady(birds, snakes)
    requires LaneSpaced(Elems(birds) + Elems(snakes), lane.y, LANE_BAND, CRITTER_MIN_GAP)
    modifies rng
    ensures CritterReady(birds', snakes) && birds <= birds'
    ensures |birds'| == |birds| + (if placed then 1 else 0)
    ensures rng.pos == old(rng.pos) + 1
    ensures placed == HasSpaceFor(birds, snakes, SeedRect(rng.draw(old(rng.pos)), lane.y + 7, TILE - 8, TILE - 14),
                                  lane.y, LANE_BAND, CRITTER_MIN_GAP)
    ensures placed ==> birds'[|birds|].Bounds() == SeedRect(rng.draw(old(rng.pos)), lane.y + 7, TILE - 8, TILE - 14)
    ensures !Occupied(Elems(birds) + Elems(snakes), lane.y, LANE_BAND) ==> placed
    ensures forall i | |birds| <= i < |birds'| ::
              fresh(birds'[i]) && LaneBird(birds'[i], lane) && 0.0 <= birds'[i].x < WIDTH as real
    ensures LaneSpaced(Elems(birds') + Elems(snakes), lane.y, LANE_BAND, CRITTER_MIN_GAP)
  {
    var w, h, y := TILE - 8, TILE - 14, lane.y + 7;
    var x := rng.NextInt(WIDTH);
    assert Rect(x, y, w, h) == SeedRect(rng.draw(old(rng.pos)), lane.y + 7, TILE - 8, TILE - 14);
    birds', placed := PlaceInLane(Bird, x, y, w, h, lane.speed * 1.1, lane.y, LANE_BAND, CRITTER_MIN_GAP, birds, snakes);
  }

  /** The snake branch of a critter seeding attempt: an x in [0, WIDTH), kept if the
      space check passes. */
  method TrySnake(rng: Random.Rng, lane: Lane, birds: seq<Actor>, snakes: seq<Actor>)
    returns (snakes': seq<Actor>, placed: bool)
    requires CritterReady(birds, snakes)
    requires LaneSpaced(Elems(birds) + Elems(snakes), lane.y, LANE_BAND, CRITTER_MIN_GAP)
    modifies rng
    ensures CritterReady(birds, snakes') && snakes <= snakes'
    ensures |snakes'| == |snakes| + (if placed then 1 else 0)
    ensures rng.pos == old(rng.pos) + 1
    ensures placed == HasSpaceFor(birds, snakes, SeedRect(rng.draw(old(rng.pos)), lane.y + 6, 64, TILE - 12),
                                  lane.y, LANE_BAND, CRITTER_MIN_GAP)
    ensures placed ==> snakes'[|snakes|].Bounds() == SeedRect(rng.draw(old(rng.pos)), lane.y + 6, 64, TILE - 12)
    ensures !Occupied(Elems(birds) + Elems(snakes), lane.y, LANE_BAND) ==> placed
    ensures forall i | |snakes| <= i < |snakes'| ::
              fresh(snakes'[i]) && LaneSnake(snakes'[i], lane) && 0.0 <= snakes'[i].x < WIDTH as real
    ensures LaneSpaced(Elems(birds) + Elems(snakes'), lane.y, LANE_BAND, CRITTER_MIN_GAP)
  {
    var w, h, y := 64, TILE - 12, lane.y + 6;
    var x := rng.NextInt(WIDTH);
    assert Rect(x, y, w, h) == SeedRect(rng.draw(old(rng.pos)), lane.y + 6, 64, TILE - 12);
    assert Elems(snakes) + Elems(birds) == Elems(birds) + Elems(snakes);
    SpaceSymmetric(snakes, birds, Rect(x, y, w, h), lane.y, LANE_BAND, CRITTER_MIN_GAP);
    snakes', placed := PlaceInLane(Snake, x, y, w, h, lane.speed * 0.9, lane.y, LANE_BAND, CRITTER_MIN_GAP, snakes, birds);
    assert Elems(snakes') + Elems(birds) == Elems(birds) + Elems(snakes');
  }

  /** Seeds one critter lane: 1 or 2 critters, at most 12 attempts. */
  method SeedCritterLane(rng: Random.Rng, lane: Lane, birds: seq<Actor>, snakes: seq<Actor>)
    returns (birds': seq<Actor>, snakes': seq<Actor>)
    requires CritterReady(birds, snakes)
    requires LaneSpaced(Elems(birds) + Elems(snakes), lane.y, LANE_BAND, CRITTER_MIN_GAP)
    modifies rng
    ensures CritterReady(birds', snakes') && birds <= birds' && snakes <= snakes'
    ensures |birds'| + |snakes'| <= |birds| + |snakes| + 2
    ensures !Occupied(Elems(birds) + Elems(snakes), lane.y, LANE_BAND) ==> |birds'| + |snakes'| > |birds| + |snakes|
    ensures forall i | |birds| <= i < |birds'| ::
              fresh(birds'[i]) && LaneBird(birds'[i], lane) && 0.0 <= birds'[i].x < WIDTH as real
    ensures forall i | |snakes| <= i < |snakes'| ::
              fresh(snakes'[i]) && LaneSnake(snakes'[i], lane) && 0.0 <= snakes'[i].x < WIDTH as real
    ensures LaneSpaced(Elems(birds') + Elems(snakes'), lane.y, LANE_BAND, CRITTER_MIN_GAP)
  {
    birds', snakes' := birds, snakes;
    var extra := rng.NextInt(2);
    var toPlace := 1 + extra;
    var attempts := 0;
    while toPlace > 0 && attempts < 12
      invariant 0 <= toPlace && |birds'| - |birds| + |snakes'| - |snakes| + toPlace <= 2
      invariant attempts == 0 ==> toPlace > 0 && birds' == birds && snakes' == snakes
      invariant attempts > 0 && !Occupied(Elems(birds) + Elems(snakes), lane.y, LANE_BAND) ==>
                  |birds'| + |snakes'| > |birds| + |snakes|
      invariant CritterReady(birds', snakes') && birds <= birds' && snakes <= snakes'
      invariant forall i | |birds| <= i < |birds'| ::
                  fresh(birds'[i]) && LaneBird(birds'[i], lane) && 0.0 <= birds'[i].x < WIDTH as real
      invariant forall i | |snakes| <= i < |snakes'| ::
                  fresh(snakes'[i]) && LaneSnake(snakes'[i], lane) && 0.0 <= snakes'[i].x < WIDTH as real
      invariant LaneSpaced(Elems(birds') + Elems(snakes'), lane.y, LANE_BAND, CRITTER_MIN_GAP)
      decreases 12 - attempts
    {
      attempts := attempts + 1;
      var b, sn, placed := TryCritter(rng, lane, birds', snakes');
      birds', snakes' := b, sn;
      if placed {
        toPlace := toPlace - 1;
      }
    }
  }

  // ---------- whole-level seeding ----------

  /** The road after its first `j` lanes are seeded: those lanes spaced by
      VEHICLE_MIN_GAP and the lanes still to come empty; each seeded lane holds a vehicle. */
  ghost predicate RoadSeeded(lanes: seq<Lane>, j: int, cars: seq<Actor>, trucks: seq<Actor>)
    requires 0 <= j <= |lanes|
    reads set a | a in cars, set a | a in trucks
  {
    && RoadReady(cars, trucks) && AllOfKind(cars, Car) && AllOfKind(trucks, Truck)
    && (forall k | 0 <= k < j :: LaneSpaced(Elems(cars) + Elems(trucks), lanes[k].y, LANE_BAND, VEHICLE_MIN_GAP))
    && (forall k | 0 <= k < j :: Occupied(Elems(cars) + Elems(trucks), lanes[k].y, LANE_BAND))
    && (forall a, m | a in Elems(cars) + Elems(trucks) && j <= m < |lanes| :: !InLane(a, lanes[m].y, LANE_BAND))
  }

  /** Seeding lane `j` within 7 pixels of its top keeps the lanes before it spaced and
      occupied and the lanes after it empty; an added actor in lane `j` occupies it. */
  lemma SeededAcross(lanes: seq<Lane>, j: int, pool: set<Actor>, added: set<Actor>, gap: int)
    requires Apart(lanes) && 0 <= j < |lanes|
    requires forall k | 0 <= k < j :: LaneSpaced(pool, lanes[k].y, LANE_BAND, gap)
    requires forall a, m | a in pool && j <= m < |lanes| :: !InLane(a, lanes[m].y, LANE_BAND)
    requires forall a | a in added :: Abs(a.y - lanes[j].y) <= 7
    requires LaneSpaced(pool + added, lanes[j].y, LANE_BAND, gap)
    requires forall k | 0 <= k < j :: Occupied(pool, lanes[k].y, LANE_BAND)
    requires Occupied(added, lanes[j].y, LANE_BAND)
    ensures forall k | 0 <= k < j + 1 :: LaneSpaced(pool + added, lanes[k].y, LANE_BAND, gap)
    ensures forall k | 0 <= k < j + 1 :: Occupied(pool + added, lanes[k].y, LANE_BAND)
    ensures forall a, m | a in pool + added && j + 1 <= m < |lanes| :: !InLane(a, lanes[m].y, LANE_BAND)
  {
    SpacedAcrossLanes(lanes, j, pool, added, 0, LANE_BAND, 7, gap);
    OccupiedAcross(lanes, j, pool, added, 0, LANE_BAND);
  }

  /** Seeds road lane `j`, leaving the lanes before it as they were. */
  method SeedRoadStep(rng: Random.Rng, lanes: seq<Lane>, j: int, cars: seq<Actor>, trucks: seq<Actor>)
    returns (cars': seq<Actor>, trucks': seq<Actor>)
    requires Apart(lanes) && 0 <= j < |lanes| && RoadSeeded(lanes, j, cars, trucks)
    modifies rng
    ensures RoadSeeded(lanes, j + 1, cars', trucks')
    ensures forall a | a in Elems(cars') + Elems(trucks') :: a in Elems(cars) + Elems(trucks) || fresh(a)
    ensures |cars'| + |trucks'| <= |cars| + |trucks| + 2
  {
    ghost var pool := Elems(cars) + Elems(trucks);
    EmptyLaneSpaced(pool, lanes[j].y, LANE_BAND, VEHICLE_MIN_GAP);
    assert !Occupied(pool, lanes[j].y, LANE_BAND);
    cars', trucks' := SeedRoadLane(rng, lanes[j], cars, trucks);
    ghost var added := (Elems(cars') + Elems(trucks')) - pool;
    forall a | a in added
      ensures Abs(a.y - lanes[j].y) <= 7 && fresh(a)
    {
      if a in cars' {
        var i := BeyondPrefix(cars, cars', a);
      } else {
        var i := BeyondPrefix(trucks, trucks', a);
      }
    }
    if |cars'| > |cars| {
      assert cars'[|cars|] in added && InLane(cars'[|cars|], lanes[j].y, LANE_BAND);
    } else {
      assert trucks'[|trucks|] in added && InLane(trucks'[|trucks|], lanes[j].y, LANE_BAND);
    }
    assert Elems(cars') + Elems(trucks') == pool + added;
    SeededAcross(lanes, j, pool, added, VEHICLE_MIN_GAP);
  }

  /** Seeds every road lane in turn. Every lane ends spaced by VEHICLE_MIN_GAP
      and holding at least one vehicle. */
  method SeedRoad(rng: Random.Rng, lanes: seq<Lane>) returns (cars: seq<Actor>, trucks: seq<Actor>)
    requires Apart(lanes)
    modifies rng
    ensures RoadReady(cars, trucks) && AllOfKind(cars, Car) && AllOfKind(trucks, Truck)
    ensures forall a | a in Elems(cars) + Elems(trucks) :: fresh(a)
    ensures |cars| + |trucks| <= 2 * |lanes|
    ensures forall k | 0 <= k < |lanes| :: LaneSpaced(Elems(cars) + Elems(trucks), lanes[k].y, LANE_BAND, VEHICLE_MIN_GAP)
    ensures forall k | 0 <= k < |lanes| :: Occupied(Elems(cars) + Elems(trucks), lanes[k].y, LANE_BAND)
  {
    cars, trucks := [], [];
    var j := 0;
    while j < |lanes|
      invariant 0 <= j <= |lanes| && |cars| + |trucks| <= 2 * j
      invariant RoadSeeded(lanes, j, cars, trucks)
      invariant forall a | a in Elems(cars) + Elems(trucks) :: fresh(a)
    {
      cars, trucks := SeedRoadStep(rng, lanes, j, cars, trucks);
      j := j + 1;
    }
  }

  /** The river after its first `j` lanes are seeded: those lanes spaced by TILE/2 and
      holding a log, the lanes still to come empty. */
  ghost predicate RiverSeeded(lanes: seq<Lane>, j: int, logs: seq<Actor>)
    requires 0 <= j <= |lanes|
    reads set a | a in logs
  {
    && Distinct(logs) && AllOfKind(logs, Log) && (forall a | a in Elems(logs) :: a.w > 0 && a.h > 0)
    && (forall k | 0 <= k < j :: LaneSpaced(Elems(logs), lanes[k].y, LANE_BAND, TILE / 2))
    && (forall k | 0 <= k < j :: Occupied(Elems(logs), lanes[k].y, LANE_BAND))
    && (forall a, m | a in Elems(logs) && j <= m < |lanes| :: !InLane(a, lanes[m].y, LANE_BAND))
  }

  /** Seeds river lane `j`, leaving the lanes before it as they were. */
  method SeedRiverStep(rng: Random.Rng, lanes: seq<Lane>, j: int, logs: seq<Actor>) returns (logs': seq<Actor>)
    requires Apart(lanes) && 0 <= j < |lanes| && RiverSeeded(lanes, j, logs)
    modifies rng
    ensures RiverSeeded(lanes, j + 1, logs')
    ensures forall a | a in Elems(logs') :: a in Elems(logs) || fresh(a)
    ensures |logs'| <= |logs| + 2
  {
    ghost var pool := Elems(logs);
    EmptyLaneSpaced(pool, lanes[j].y, LANE_BAND, TILE / 2);
    assert !Occupied(pool, lanes[j].y, LANE_BAND);
    logs' := SeedLogLane(rng, lanes[j], logs);
    ghost var added := Elems(logs') - pool;
    forall a | a in added
      ensures Abs(a.y - lanes[j].y) <= 7 && fresh(a)
    {
      var i := BeyondPrefix(logs, logs', a);
    }
    assert logs'[|logs|] in added && InLane(logs'[|logs|], lanes[j].y, LANE_BAND);
    assert Elems(logs') == pool + added;
    SeededAcross(lanes, j, pool, added, TILE / 2);
  }

  /** Seeds every river lane in turn. Every lane ends spaced by TILE/2 and
      holding at least one log. */
  method SeedRiver(rng: Random.Rng, lanes: seq<Lane>) returns (logs: seq<Actor>)
    requires Apart(lanes)
    modifies rng
    ensures Distinct(logs) && AllOfKind(logs, Log) && (forall a | a in Elems(logs) :: a.w > 0 && a.h > 0)
    ensures forall a | a in Elems(logs) :: fresh(a)
    ensures |logs| <= 2 * |lanes|
    ensures forall k | 0 <= k < |lanes| :: LaneSpaced(Elems(logs), lanes[k].y, LANE_BAND, TILE / 2)
    ensures forall k | 0 <= k < |lanes| :: Occupied(Elems(logs), lanes[k].y, LANE_BAND)
  {
    logs := [];
    var j := 0;
    while j < |lanes|
      invariant 0 <= j <= |lanes| && |logs| <= 2 * j
      invariant RiverSeeded(lanes, j, logs)
      invariant forall a | a in Elems(logs) :: fresh(a)
    {
      logs := SeedRiverStep(rng, lanes, j, logs);
      j := j + 1;
    }
  }

  /** The critter lanes after the first `j` are seeded: those lanes spaced by
      CRITTER_MIN_GAP and holding a critter, the lanes still to come empty. */
  ghost predicate CrittersSeeded(lanes: seq<Lane>, j: int, birds: seq<Actor>, snakes: seq<Actor>)
    requires 0 <= j <= |lanes|
    reads set a | a in birds, set a | a in snakes
  {
    && CritterReady(birds, snakes) && AllOfKind(birds, Bird) && AllOfKind(snakes, Snake)
    && (forall k | 0 <= k < j :: LaneSpaced(Elems(birds) + Elems(snakes), lanes[k].y, LANE_BAND, CRITTER_MIN_GAP))
    && (forall k | 0 <= k < j :: Occupied(Elems(birds) + Elems(snakes), lanes[k].y, LANE_BAND))
    && (forall a, m | a in Elems(birds) + Elems(snakes) && j <= m < |lanes| :: !InLane(a, lanes[m].y, LANE_BAND))
  }

  /** Seeds critter lane `j`, leaving the lanes before it as they were. */
  method SeedCritterStep(rng: Random.Rng, lanes: seq<Lane>, j: int, birds: seq<Actor>, snakes: seq<Actor>)
    returns (birds': seq<Actor>, snakes': seq<Actor>)
    requires Apart(lanes) && 0 <= j < |lanes| && CrittersSeeded(lanes, j, birds, snakes)
    modifies rng
    ensures CrittersSeeded(lanes, j + 1, birds', snakes')
    ensures forall a | a in Elems(birds') + Elems(snakes') :: a in Elems(birds) + Elems(snakes) || fresh(a)
    ensures |birds'| + |snakes'| <= |birds| + |snakes| + 2
  {
    ghost var pool := Elems(birds) + Elems(snakes);
    EmptyLaneSpaced(pool, lanes[j].y, LANE_BAND, CRITTER_MIN_GAP);
    assert !Occupied(pool, lanes[j].y, LANE_BAND);
    birds', snakes' := SeedCritterLane(rng, lanes[j], birds, snakes);
    ghost var added := (Elems(birds') + Elems(snakes')) - pool;
    forall a | a in added
      ensures Abs(a.y - lanes[j].y) <= 7 && fresh(a)
    {
      if a in birds' {
        var i := BeyondPrefix(birds, birds', a);
      } else {
        var i := BeyondPrefix(snakes, snakes', a);
      }
    }
    if |birds'| > |birds| {
      assert birds'[|birds|] in added && InLane(birds'[|birds|], lanes[j].y, LANE_BAND);
    } else {
      assert snakes'[|snakes|] in added && InLane(snakes'[|snakes|], lanes[j].y, LANE_BAND);
    }
    assert Elems(birds') + Elems(snakes') == pool + added;
    SeededAcross(lanes, j, pool, added, CRITTER_MIN_GAP);
  }

  /** Seeds every critter lane in turn. Every lane ends spaced by
      CRITTER_MIN_GAP and holding at least one critter. */
  method SeedCritters(rng: Random.Rng, lanes: seq<Lane>) returns (birds: seq<Actor>, snakes: seq<Actor>)
    requires Apart(lanes)
    modifies rng
    ensures CritterReady(birds, snakes) && AllOfKind(birds, Bird) && AllOfKind(snakes, Snake)
    ensures forall a | a in Elems(birds) + Elems(snakes) :: fresh(a)
    ensures |birds| + |snakes| <= 2 * |lanes|
    ensures forall k | 0 <= k < |lanes| :: LaneSpaced(Elems(birds) + Elems(snakes), lanes[k].y, LANE_BAND, CRITTER_MIN_GAP)
    ensures forall k | 0 <= k < |lanes| :: Occupied(Elems(birds) + Elems(snakes), lanes[k].y, LANE_BAND)
  {
    birds, snakes := [], [];
    var j := 0;
    while j < |lanes|
      invariant 0 <= j <= |lanes| && |birds| + |snakes| <= 2 * j
      invariant CrittersSeeded(lanes, j, birds, snakes)
      invariant forall a | a in Elems(birds) + Elems(snakes) :: fresh(a)
    {
      birds, snakes := SeedCritterStep(rng, lanes, j, birds, snakes);
      j := j + 1;
    }
  }

  /** The lane tables keep their lanes a tile apart. */
  lemma TablesApart(level: int)
    requires level >= 1
    ensures Apart(RoadLanes(level)) && Apart(RiverLanes(level)) && Apart(CritterLanes(level))
  {
  }
}
