/** How variant B (FroggerExample/FroggerExample/src) builds a regular level: the lane
    tables of `setupLevel`, the speed variation `vary`, and the seeding loops with their
    bounded retries. B builds lanes only while it is not in free play, that is at level 1.
    Its river table is variant A's, and its birds and snakes have A's shapes. */
module LevelB {
  import opened Board
  import opened Geometry
  import opened Actors
  import opened Spacing
  import opened Placement
  import opened Lanes
  import LevelA
  import Random

  const CAR_W: int := TILE * 2
  const CAR_H: int := TILE - 10
  const TRUCK_W: int := TILE * 3
  const TRUCK_H: int := TILE - 8
  const LOG_W: int := TILE * 3
  const LOG_H: int := TILE - 12
  const BIRD_W: int := TILE - 8
  const BIRD_H: int := TILE - 14
  /** `(int)(TILE * 1.6)`. */
  const SNAKE_W: int := Trunc(TILE as real * 1.6)
  const SNAKE_H: int := TILE - 12

  const VEHICLE_MIN_GAP: int := TILE
  const CRITTER_MIN_GAP: int := TILE / 2
  /** Every vehicle rides this many pixels below its lane's top y. */
  const ROAD_TRACK: int := 5
  /** The road space check: a vehicle is co-lane when |y - (lane.y + 5)| < 2. */
  const ROAD_BAND: int := 2
  /** The road resolver: a vehicle is in the lane when |y - (lane.y + 5)| <= 2. */
  const RESOLVE_BAND: int := 3
  /** The log and critter space checks: co-lane when |y - lane.y| < TILE/2. */
  const LANE_BAND: int := TILE / 2

  // ---------- speeds ----------

  /** `vary(base, factor)` for the uniform draw `u`: `base` times 1 + (2u - 1) * factor. */
  function Varied(base: real, factor: real, u: real): real {
    base * (1.0 + (u * 2.0 - 1.0) * factor)
  }

  /** `sp` runs the way `base` does and is within `factor` of it, as a fraction of
      |base|: the slow end included, the fast end excluded. */
  predicate Near(sp: real, base: real, factor: real) {
    if base > 0.0 then base * (1.0 - factor) <= sp < base * (1.0 + factor)
    else if base < 0.0 then base * (1.0 + factor) < sp <= base * (1.0 - factor)
    else sp == 0.0
  }

  /** Multiplying by a positive number keeps order, by a negative one reverses it. */
  lemma Scale(c: real, x: real, y: real)
    requires x <= y
    ensures c > 0.0 ==> c * x <= c * y && (x < y ==> c * x < c * y)
    ensures c < 0.0 ==> c * y <= c * x && (x < y ==> c * y < c * x)
  {
    assert c * y - c * x == c * (y - x);
  }

  /** The multiplier of a varied speed lies within `factor` of 1, the low end included. */
  lemma Multiplier(factor: real, u: real)
    requires 0.0 <= u < 1.0 && 0.0 < factor < 1.0
    ensures 0.0 < 1.0 - factor <= 1.0 + (u * 2.0 - 1.0) * factor < 1.0 + factor
  {
    var t := u * 2.0 - 1.0;
    Scale(factor, -1.0, t);
    Scale(factor, t, 1.0);
  }

  /** A varied speed keeps the direction of its base and stays within `factor` of it. */
  lemma VariedNear(base: real, factor: real, u: real)
    requires 0.0 <= u < 1.0 && 0.0 < factor < 1.0
    ensures Near(Varied(base, factor, u), base, factor)
    ensures base > 0.0 ==> Varied(base, factor, u) > 0.0
    ensures base < 0.0 ==> Varied(base, factor, u) < 0.0
  {
    var m := 1.0 + (u * 2.0 - 1.0) * factor;
    Multiplier(factor, u);
    var sp := base * m;
    assert Varied(base, factor, u) == sp;
    if base > 0.0 {
      Scale(base, 1.0 - factor, m);
      Scale(base, m, 1.0 + factor);
      Scale(base, 0.0, 1.0 - factor);
      assert base * (1.0 - factor) <= sp < base * (1.0 + factor);
    } else if base < 0.0 {
      Scale(base, 1.0 - factor, m);
      Scale(base, m, 1.0 + factor);
      Scale(base, 0.0, 1.0 - factor);
      assert base * (1.0 + factor) < sp <= base * (1.0 - factor);
    }
  }

  /** `vary`: one draw from the game's random source scales `base`. */
  method Vary(rng: Random.Rng, base: real, factor: real) returns (sp: real)
    modifies rng
    ensures sp == Varied(base, factor, rng.draw(old(rng.pos))) && rng.pos == old(rng.pos) + 1
    ensures 0.0 < factor < 1.0 ==> Near(sp, base, factor)
  {
    var u := rng.NextDouble();
    sp := base * (1.0 + (u * 2.0 - 1.0) * factor);
    if 0.0 < factor < 1.0 {
      VariedNear(base, factor, u);
    }
  }

  function AbsR(r: real): real { if r < 0.0 then -r else r }

  /** `Math.copySign(m, s)`: the magnitude of `m` with the sign of `s` (the sign of a
      negative zero is not modelled). */
  function CopySign(m: real, s: real): (r: real)
    ensures AbsR(r) == AbsR(m) && (s < 0.0 ==> r <= 0.0) && (s >= 0.0 ==> r >= 0.0)
  {
    if s < 0.0 then -AbsR(m) else AbsR(m)
  }

  /** A truck's base speed, `copySign(|0.85 s|, s)`, is plain 0.85 s. */
  lemma TruckBase(s: real)
    ensures CopySign(AbsR(s * 0.85), s) == s * 0.85
  {
    if s < 0.0 {
      assert s * 0.85 < 0.0;
    }
  }

  // ---------- lane tables ----------

  /** Road lane `i` (board rows 6 to 11, top down): lanes 0, 2, 4 run right. */
  function RoadLane(level: int, i: int): (l: Lane)
    requires level >= 1 && 0 <= i < 6
    ensures l.y == (6 + i) * TILE && (l.Rightward() <==> i % 2 == 0) && l.spawnEvery >= 22
  {
    var base := 1.5 + 0.12 * i as real;
    var every := LevelA.Round(LevelA.Max(34 - level * 2 - i * 2, 14) as real * 1.6);
    Lane((6 + i) * TILE, if i % 2 == 0 then base else -base, every)
  }

  /** Critter lane `i` (board rows 16, 15, 14). */
  function CritterLane(level: int, i: int): (l: Lane)
    requires level >= 1 && 0 <= i < 3
    ensures l.y == (16 - i) * TILE && (l.Rightward() <==> i % 2 == 0) && l.spawnEvery >= 24
  {
    var base := 1.4 + 0.2 * i as real;
    var every := LevelA.Round(LevelA.Max(40 - level * 2 - i, 16) as real * 1.5);
    Lane((16 - i) * TILE, if i % 2 == 0 then base else -base, every)
  }

  function RoadLanes(level: int): (r: seq<Lane>)
    requires level >= 1
    ensures |r| == 6 && forall i :: 0 <= i < 6 ==> r[i] == RoadLane(level, i)
  {
    [RoadLane(level, 0), RoadLane(level, 1), RoadLane(level, 2),
     RoadLane(level, 3), RoadLane(level, 4), RoadLane(level, 5)]
  }

  function CritterLanes(level: int): (r: seq<Lane>)
    requires level >= 1
    ensures |r| == 3 && forall i :: 0 <= i < 3 ==> r[i] == CritterLane(level, i)
  {
    [CritterLane(level, 0), CritterLane(level, 1), CritterLane(level, 2)]
  }

  /** Unlike variant A, a higher level does not speed up B's road and critter lanes: the
      speeds stay the same and only the spawn period can shrink. */
  lemma SameSpeedsEachLevel(level: int, i: int)
    requires level >= 1 && 0 <= i < 6
    ensures RoadLane(level + 1, i).speed == RoadLane(level, i).speed
    ensures RoadLane(level + 1, i).spawnEvery <= RoadLane(level, i).spawnEvery
    ensures i < 3 ==> CritterLane(level + 1, i).speed == CritterLane(level, i).speed
    ensures i < 3 ==> CritterLane(level + 1, i).spawnEvery <= CritterLane(level, i).spawnEvery
  {
    LevelA.RoundMonotone(LevelA.Max(34 - (level + 1) * 2 - i * 2, 14) as real * 1.6,
                         LevelA.Max(34 - level * 2 - i * 2, 14) as real * 1.6);
    LevelA.RoundMonotone(LevelA.Max(40 - (level + 1) * 2 - i, 16) as real * 1.5,
                         LevelA.Max(40 - level * 2 - i, 16) as real * 1.5);
  }

  /** The lane tables keep their lanes a tile apart. */
  lemma TablesApart(level: int)
    requires level >= 1
    ensures Apart(RoadLanes(level)) && Apart(LevelA.RiverLanes(level)) && Apart(CritterLanes(level))
  {
    LevelA.TablesApart(level);
  }

  /** Every lane of the tables spawns on a positive period. */
  lemma TablesPeriodic(level: int)
    requires level >= 1
    ensures forall k | 0 <= k < 6 :: RoadLanes(level)[k].spawnEvery > 0
    ensures forall k | 0 <= k < 3 :: LevelA.RiverLanes(level)[k].spawnEvery > 0
    ensures forall k | 0 <= k < 3 :: CritterLanes(level)[k].spawnEvery > 0
  {
  }

  // ---------- actor shapes ----------

  predicate RoadCar(a: Actor, lane: Lane) {
    && a.kind == Car && a.y == lane.y + ROAD_TRACK && a.w == CAR_W && a.h == CAR_H
    && Near(a.speed, lane.speed, 0.25)
  }

  predicate RoadTruck(a: Actor, lane: Lane) {
    && a.kind == Truck && a.y == lane.y + ROAD_TRACK && a.w == TRUCK_W && a.h == TRUCK_H
    && Near(a.speed, lane.speed * 0.85, 0.25)
  }

  predicate RiverLog(a: Actor, lane: Lane) {
    a.kind == Log && a.y == lane.y + 6 && a.w == LOG_W && a.h == LOG_H && a.speed == lane.speed
  }

  /** Wholly on the board horizontally, where seeding puts every actor. */
  predicate OnScreen(a: Actor)
    reads a
  {
    0.0 <= a.x && a.x + a.w as real < WIDTH as real
  }

  // ---------- seeding ----------

  /** The rectangle a seeding attempt tests: `w` x `h` on row `y`, at the x that
      `nextInt(WIDTH - w)` draws from `u`, which keeps it on the board. */
  function SeedRect(u: Random.Unit, y: int, w: int, h: int): Rect
    requires w < WIDTH
  {
    Rect(Random.IntOf(u, WIDTH - w), y, w, h)
  }

  /** Draws the rectangle a seeding attempt tests: the x `nextInt(WIDTH - w)`. */
  method DrawSeedRect(rng: Random.Rng, y: int, w: int, h: int) returns (r: Rect)
    requires w < WIDTH
    modifies rng
    ensures rng.pos == old(rng.pos) + 1 && r == SeedRect(rng.draw(old(rng.pos)), y, w, h)
    ensures 0 <= r.x < WIDTH - w && r.y == y && r.width == w && r.height == h
  {
    var x := rng.NextInt(WIDTH - w);
    r := Rect(x, y, w, h);
  }

  /** One seeding attempt on a road lane: a roll below 0.33 makes it a truck, otherwise a
      car; then an x in [0, WIDTH - w) and a varied speed are drawn, and the vehicle is
      kept only if the road space check passes. */
  method TryRoadVehicle(rng: Random.Rng, lane: Lane, cars: seq<Actor>, trucks: seq<Actor>)
    returns (cars': seq<Actor>, trucks': seq<Actor>, placed: bool)
    requires RoadReady(cars, trucks)
    requires LaneSpaced(Elems(cars) + Elems(trucks), lane.y + ROAD_TRACK, ROAD_BAND, VEHICLE_MIN_GAP)
    modifies rng
    ensures RoadReady(cars', trucks') && cars <= cars' && trucks <= trucks'
    ensures |cars'| + |trucks'| == |cars| + |trucks| + (if placed then 1 else 0)
    ensures rng.pos == old(rng.pos) + (if placed && rng.draw(old(rng.pos)) >= 0.33 then 4 else 3)
    ensures |trucks'| > |trucks| ==> rng.draw(old(rng.pos)) < 0.33
    ensures |cars'| > |cars| ==> rng.draw(old(rng.pos)) >= 0.33
    ensures placed == if rng.draw(old(rng.pos)) < 0.33
                      then HasSpaceFor(cars, trucks, SeedRect(rng.draw(old(rng.pos) + 1), lane.y + ROAD_TRACK, TRUCK_W, TRUCK_H),
                                       lane.y + ROAD_TRACK, ROAD_BAND, VEHICLE_MIN_GAP)
                      else HasSpaceFor(cars, trucks, SeedRect(rng.draw(old(rng.pos) + 1), lane.y + ROAD_TRACK, CAR_W, CAR_H),
                                       lane.y + ROAD_TRACK, ROAD_BAND, VEHICLE_MIN_GAP)
    ensures |trucks'| > |trucks| ==>
              trucks'[|trucks|].Bounds() == SeedRect(rng.draw(old(rng.pos) + 1), lane.y + ROAD_TRACK, TRUCK_W, TRUCK_H)
    ensures |cars'| > |cars| ==>
              cars'[|cars|].Bounds() == SeedRect(rng.draw(old(rng.pos) + 1), lane.y + ROAD_TRACK, CAR_W, CAR_H)
    ensures !Occupied(Elems(cars) + Elems(trucks), lane.y + ROAD_TRACK, ROAD_BAND) ==> placed
    ensures forall i | |cars| <= i < |cars'| :: fresh(cars'[i]) && RoadCar(cars'[i], lane) && OnScreen(cars'[i])
    ensures forall i | |trucks| <= i < |trucks'| :: fresh(trucks'[i]) && RoadTruck(trucks'[i], lane) && OnScreen(trucks'[i])
    ensures LaneSpaced(Elems(cars') + Elems(trucks'), lane.y + ROAD_TRACK, ROAD_BAND, VEHICLE_MIN_GAP)
  {
    var roll := rng.NextDouble();
    if roll < 0.33 {
      cars' := cars;
      trucks', placed := TryTruck(rng, lane, cars, trucks);
    } else {
      trucks' := trucks;
      cars', placed := TryCar(rng, lane, cars, trucks);
    }
  }

  /** A truck's speed: `vary(copySign(|0.85 s|, s), 0.25)` for its lane's speed `s`. */
  method TruckSpeed(rng: Random.Rng, lane: Lane) returns (sp: real)
    modifies rng
    ensures rng.pos == old(rng.pos) + 1 && Near(sp, lane.speed * 0.85, 0.25)
  {
    TruckBase(lane.speed);
    sp := Vary(rng, CopySign(AbsR(lane.speed * 0.85), lane.speed), 0.25);
  }

  /** The truck branch of a road seeding attempt. */
  method TryTruck(rng: Random.Rng, lane: Lane, cars: seq<Actor>, trucks: seq<Actor>)
    returns (trucks': seq<Actor>, placed: bool)
    requires RoadReady(cars, trucks)
    requires LaneSpaced(Elems(cars) + Elems(trucks), lane.y + ROAD_TRACK, ROAD_BAND, VEHICLE_MIN_GAP)
    modifies rng
    ensures RoadReady(cars, trucks') && trucks <= trucks'
    ensures |trucks'| == |trucks| + (if placed then 1 else 0)
    ensures rng.pos == old(rng.pos) + 2
    ensures placed == HasSpaceFor(cars, trucks, SeedRect(rng.draw(old(rng.pos)), lane.y + ROAD_TRACK, TRUCK_W, TRUCK_H),
                                  lane.y + ROAD_TRACK, ROAD_BAND, VEHICLE_MIN_GAP)
    ensures placed ==>
              trucks'[|trucks|].Bounds() == SeedRect(rng.draw(old(rng.pos)), lane.y + ROAD_TRACK, TRUCK_W, TRUCK_H)
    ensures !Occupied(Elems(cars) + Elems(trucks), lane.y + ROAD_TRACK, ROAD_BAND) ==> placed
    ensures forall i | |trucks| <= i < |trucks'| :: fresh(trucks'[i]) && RoadTruck(trucks'[i], lane) && OnScreen(trucks'[i])
    ensures LaneSpaced(Elems(cars) + Elems(trucks'), lane.y + ROAD_TRACK, ROAD_BAND, VEHICLE_MIN_GAP)
  {
    var r := DrawSeedRect(rng, lane.y + ROAD_TRACK, TRUCK_W, TRUCK_H);
    var sp := TruckSpeed(rng, lane);
    trucks', placed := PlaceTruck(r, sp, lane, cars, trucks);
  }

  /** Keeps a drawn truck `r` with speed `sp` if the road space check passes. */
  method PlaceTruck(r: Rect, sp: real, lane: Lane, cars: seq<Actor>, trucks: seq<Actor>)
    returns (trucks': seq<Actor>, placed: bool)
    requires RoadReady(cars, trucks)
    requires LaneSpaced(Elems(cars) + Elems(trucks), lane.y + ROAD_TRACK, ROAD_BAND, VEHICLE_MIN_GAP)
    requires r == Rect(r.x, lane.y + ROAD_TRACK, TRUCK_W, TRUCK_H) && 0 <= r.x < WIDTH - TRUCK_W
    requires Near(sp, lane.speed * 0.85, 0.25)
    ensures RoadReady(cars, trucks') && trucks <= trucks'
    ensures |trucks'| == |trucks| + (if placed then 1 else 0)
    ensures placed == HasSpaceFor(cars, trucks, r, lane.y + ROAD_TRACK, ROAD_BAND, VEHICLE_MIN_GAP)
    ensures placed ==> trucks'[|trucks|].Bounds() == r && trucks'[|trucks|].speed == sp
    ensures !Occupied(Elems(cars) + Elems(trucks), lane.y + ROAD_TRACK, ROAD_BAND) ==> placed
    ensures forall i | |trucks| <= i < |trucks'| :: fresh(trucks'[i]) && RoadTruck(trucks'[i], lane) && OnScreen(trucks'[i])
    ensures LaneSpaced(Elems(cars) + Elems(trucks'), lane.y + ROAD_TRACK, ROAD_BAND, VEHICLE_MIN_GAP)
  {
    var y := lane.y + ROAD_TRACK;
    assert Elems(trucks) + Elems(cars) == Elems(cars) + Elems(trucks);
    SpaceSymmetric(trucks, cars, r, y, ROAD_BAND, VEHICLE_MIN_GAP);
    trucks', placed := PlaceInLane(Truck, r.x, y, TRUCK_W, TRUCK_H, sp, y, ROAD_BAND, VEHICLE_MIN_GAP, trucks, cars);
    assert Elems(trucks') + Elems(cars) == Elems(cars) + Elems(trucks');
  }

  /** The car branch of a road seeding attempt; a car that is kept draws one more value,
      for its sprite colour. */
  method TryCar(rng: Random.Rng, lane: Lane, cars: seq<Actor>, trucks: seq<Actor>)
    returns (cars': seq<Actor>, placed: bool)
    requires RoadReady(cars, trucks)
    requires LaneSpaced(Elems(cars) + Elems(trucks), lane.y + ROAD_TRACK, ROAD_BAND, VEHICLE_MIN_GAP)
    modifies rng
    ensures RoadReady(cars', trucks) && cars <= cars'
    ensures |cars'| == |cars| + (if placed then 1 else 0)
    ensures rng.pos == old(rng.pos) + (if placed then 3 else 2)
    ensures placed == HasSpaceFor(cars, trucks, SeedRect(rng.draw(old(rng.pos)), lane.y + ROAD_TRACK, CAR_W, CAR_H),
                                  lane.y + ROAD_TRACK, ROAD_BAND, VEHICLE_MIN_GAP)
    ensures placed ==> cars'[|cars|].Bounds() == SeedRect(rng.draw(old(rng.pos)), lane.y + ROAD_TRACK, CAR_W, CAR_H)
    ensures !Occupied(Elems(cars) + Elems(trucks), lane.y + ROAD_TRACK, ROAD_BAND) ==> placed
    ensures forall i | |cars| <= i < |cars'| :: fresh(cars'[i]) && RoadCar(cars'[i], lane) && OnScreen(cars'[i])
    ensures LaneSpaced(Elems(cars') + Elems(trucks), lane.y + ROAD_TRACK, ROAD_BAND, VEHICLE_MIN_GAP)
  {
    var r := DrawSeedRect(rng, lane.y + ROAD_TRACK, CAR_W, CAR_H);
    var sp := Vary(rng, lane.speed, 0.25);
    cars', placed := PlaceCar(r, sp, lane, cars, trucks);
    if placed {
      var colour := rng.NextDouble();
    }
  }

  /** Keeps a drawn car `r` with speed `sp` if the road space check passes. */
  method PlaceCar(r: Rect, sp: real, lane: Lane, cars: seq<Actor>, trucks: seq<Actor>)
    returns (cars': seq<Actor>, placed: bool)
    requires RoadReady(cars, trucks)
    requires LaneSpaced(Elems(cars) + Elems(trucks), lane.y + ROAD_TRACK, ROAD_BAND, VEHICLE_MIN_GAP)
    requires r == Rect(r.x, lane.y + ROAD_TRACK, CAR_W, CAR_H) && 0 <= r.x < WIDTH - CAR_W
    requires Near(sp, lane.speed, 0.25)
    ensures RoadReady(cars', trucks) && cars <= cars'
    ensures |cars'| == |cars| + (if placed then 1 else 0)
    ensures placed == HasSpaceFor(cars, trucks, r, lane.y + ROAD_TRACK, ROAD_BAND, VEHICLE_MIN_GAP)
    ensures placed ==> cars'[|cars|].Bounds() == r && cars'[|cars|].speed == sp
    ensures !Occupied(Elems(cars) + Elems(trucks), lane.y + ROAD_TRACK, ROAD_BAND) ==> placed
    ensures forall i | |cars| <= i < |cars'| :: fresh(cars'[i]) && RoadCar(cars'[i], lane) && OnScreen(cars'[i])
    ensures LaneSpaced(Elems(cars') + Elems(trucks), lane.y + ROAD_TRACK, ROAD_BAND, VEHICLE_MIN_GAP)
  {
    var y := lane.y + ROAD_TRACK;
    cars', placed := PlaceInLane(Car, r.x, y, CAR_W, CAR_H, sp, y, ROAD_BAND, VEHICLE_MIN_GAP, cars, trucks);
  }

  /** Seeds one road lane: attempts go on while fewer than 2 vehicles are placed, 40 at
      most. */
  method SeedRoadLane(rng: Random.Rng, lane: Lane, cars: seq<Actor>, trucks: seq<Actor>)
    returns (cars': seq<Actor>, trucks': seq<Actor>)
    requires RoadReady(cars, trucks)
    requires LaneSpaced(Elems(cars) + Elems(trucks), lane.y + ROAD_TRACK, ROAD_BAND, VEHICLE_MIN_GAP)
    modifies rng
    ensures RoadReady(cars', trucks') && cars <= cars' && trucks <= trucks'
    ensures |cars'| + |trucks'| <= |cars| + |trucks| + 2
    ensures !Occupied(Elems(cars) + Elems(trucks), lane.y + ROAD_TRACK, ROAD_BAND) ==>
              |cars'| + |trucks'| > |cars| + |trucks|
    ensures forall i | |cars| <= i < |cars'| :: fresh(cars'[i]) && RoadCar(cars'[i], lane) && OnScreen(cars'[i])
    ensures forall i | |trucks| <= i < |trucks'| :: fresh(trucks'[i]) && RoadTruck(trucks'[i], lane) && OnScreen(trucks'[i])
    ensures LaneSpaced(Elems(cars') + Elems(trucks'), lane.y + ROAD_TRACK, ROAD_BAND, VEHICLE_MIN_GAP)
  {
    cars', trucks' := cars, trucks;
    var seeded, attempts := 0, 0;
    while seeded < 2 && attempts < 40
      invariant seeded == |cars'| - |cars| + |trucks'| - |trucks| <= 2
      invariant attempts == 0 ==> cars' == cars && trucks' == trucks
      invariant attempts > 0 && !Occupied(Elems(cars) + Elems(trucks), lane.y + ROAD_TRACK, ROAD_BAND) ==> seeded > 0
      invariant RoadReady(cars', trucks') && cars <= cars' && trucks <= trucks'
      invariant forall i | |cars| <= i < |cars'| :: fresh(cars'[i]) && RoadCar(cars'[i], lane) && OnScreen(cars'[i])
      invariant forall i | |trucks| <= i < |trucks'| :: fresh(trucks'[i]) && RoadTruck(trucks'[i], lane) && OnScreen(trucks'[i])
      invariant LaneSpaced(Elems(cars') + Elems(trucks'), lane.y + ROAD_TRACK, ROAD_BAND, VEHICLE_MIN_GAP)
      decreases 40 - attempts
    {
      attempts := attempts + 1;
      var c, t, placed := TryRoadVehicle(rng, lane, cars', trucks');
      cars', trucks' := c, t;
      if placed {
        seeded := seeded + 1;
      }
    }
  }

  /** One seeding attempt on a river lane: a log at an x in [0, WIDTH - LOG_W), kept if
      the log space check (gap TILE/2) passes. */
  method TryLog(rng: Random.Rng, lane: Lane, logs: seq<Actor>) returns (logs': seq<Actor>, placed: bool)
    requires Distinct(logs) && forall a | a in Elems(logs) :: a.w > 0 && a.h > 0
    requires LaneSpaced(Elems(logs), lane.y, LANE_BAND, TILE / 2)
    modifies rng
    ensures Distinct(logs') && (forall a | a in Elems(logs') :: a.w > 0 && a.h > 0) && logs <= logs'
    ensures |logs'| == |logs| + (if placed then 1 else 0)
    ensures rng.pos == old(rng.pos) + 1
    ensures placed == HasSpaceFor(logs, [], SeedRect(rng.draw(old(rng.pos)), lane.y + 6, LOG_W, LOG_H), lane.y, LANE_BAND, TILE / 2)
    ensures placed ==> logs'[|logs|].Bounds() == SeedRect(rng.draw(old(rng.pos)), lane.y + 6, LOG_W, LOG_H)
    ensures !Occupied(Elems(logs), lane.y, LANE_BAND) ==> placed
    ensures forall i | |logs| <= i < |logs'| :: fresh(logs'[i]) && RiverLog(logs'[i], lane) && OnScreen(logs'[i])
    ensures LaneSpaced(Elems(logs'), lane.y, LANE_BAND, TILE / 2)
  {
    var x := rng.NextInt(WIDTH - LOG_W);
    assert Elems(logs) + Elems([]) == Elems(logs);
    logs', placed := PlaceInLane(Log, x, lane.y + 6, LOG_W, LOG_H, lane.speed, lane.y, LANE_BAND, TILE / 2, logs, []);
    assert Elems(logs') + Elems([]) == Elems(logs');
  }

  /** Seeds one river lane: attempts go on while fewer than 2 logs are placed, 20 at most. */
  method SeedLogLane(rng: Random.Rng, lane: Lane, logs: seq<Actor>) returns (logs': seq<Actor>)
    requires Distinct(logs) && forall a | a in Elems(logs) :: a.w > 0 && a.h > 0
    requires LaneSpaced(Elems(logs), lane.y, LANE_BAND, TILE / 2)
    modifies rng
    ensures Distinct(logs') && (forall a | a in Elems(logs') :: a.w > 0 && a.h > 0) && logs <= logs'
    ensures |logs'| <= |logs| + 2
    ensures !Occupied(Elems(logs), lane.y, LANE_BAND) ==> |logs'| > |logs|
    ensures forall i | |logs| <= i < |logs'| :: fresh(logs'[i]) && RiverLog(logs'[i], lane) && OnScreen(logs'[i])
    ensures LaneSpaced(Elems(logs'), lane.y, LANE_BAND, TILE / 2)
  {
    logs' := logs;
    var toPlace, attempts := 2, 0;
    while toPlace > 0 && attempts < 20
      invariant 0 <= toPlace && |logs'| - |logs| + toPlace == 2
      invariant attempts == 0 ==> logs' == logs
      invariant attempts > 0 && !Occupied(Elems(logs), lane.y, LANE_BAND) ==> |logs'| > |logs|
      invariant Distinct(logs') && (forall a | a in Elems(logs') :: a.w > 0 && a.h > 0) && logs <= logs'
      invariant forall i | |logs| <= i < |logs'| :: fresh(logs'[i]) && RiverLog(logs'[i], lane) && OnScreen(logs'[i])
      invariant LaneSpaced(Elems(logs'), lane.y, LANE_BAND, TILE / 2)
      decreases 20 - attempts
    {
      attempts := attempts + 1;
      var l, placed := TryLog(rng, lane, logs');
      logs' := l;
      if placed {
        toPlace := toPlace - 1;
      }
    }
  }

  /** One seeding attempt on a critter lane: a coin flip picks bird or snake, then an x
      that keeps it on the board, kept if the critter space check passes. */
  method TryCritter(rng: Random.Rng, lane: Lane, birds: seq<Actor>, snakes: seq<Actor>)
    returns (birds': seq<Actor>, snakes': seq<Actor>, placed: bool)
    requires CritterReady(birds, snakes)
    requires LaneSpaced(Elems(birds) + Elems(snakes), lane.y, LANE_BAND, CRITTER_MIN_GAP)
    modifies rng
    ensures CritterReady(birds', snakes') && birds <= birds' && snakes <= snakes'
    ensures |birds'| + |snakes'| == |birds| + |snakes| + (if placed then 1 else 0)
    ensures rng.pos == old(rng.pos) + 2
    ensures |birds'| > |birds| ==> rng.draw(old(rng.pos)) < 0.5
    ensures |snakes'| > |snakes| ==> rng.draw(old(rng.pos)) >= 0.5
    ensures placed == if rng.draw(old(rng.pos)) < 0.5
                      then HasSpaceFor(birds, snakes, SeedRect(rng.draw(old(rng.pos) + 1), lane.y + 7, BIRD_W, BIRD_H),
                                       lane.y, LANE_BAND, CRITTER_MIN_GAP)
                      else HasSpaceFor(birds, snakes, SeedRect(rng.draw(old(rng.pos) + 1), lane.y + 6, SNAKE_W, SNAKE_H),
                                       lane.y, LANE_BAND, CRITTER_MIN_GAP)
    ensures |birds'| > |birds| ==>
              birds'[|birds|].Bounds() == SeedRect(rng.draw(old(rng.pos) + 1), lane.y + 7, BIRD_W, BIRD_H)
    ensures |snakes'| > |snakes| ==>
              snakes'[|snakes|].Bounds() == SeedRect(rng.draw(old(rng.pos) + 1), lane.y + 6, SNAKE_W, SNAKE_H)
    ensures !Occupied(Elems(birds) + Elems(snakes), lane.y, LANE_BAND) ==> placed
    ensures forall i | |birds| <= i < |birds'| :: fresh(birds'[i]) && LevelA.LaneBird(birds'[i], lane) && OnScreen(birds'[i])
    ensures forall i | |snakes| <= i < |snakes'| :: fresh(snakes'[i]) && LevelA.LaneSnake(snakes'[i], lane) && OnScreen(snakes'[i])
    ensures LaneSpaced(Elems(birds') + Elems(snakes'), lane.y, LANE_BAND, CRITTER_MIN_GAP)
  {
    var bird := rng.NextBoolean();
    if bird {
      snakes' := snakes;
      birds', placed := TryBird(rng, lane, birds, snakes);
    } else {
      birds' := birds;
      snakes', placed := TrySnake(rng, lane, birds, snakes);
    }
  }

  /** The bird branch of a critter seeding attempt. */
  method TryBird(rng: Random.Rng, lane: Lane, birds: seq<Actor>, snakes: seq<Actor>)
    returns (birds': seq<Actor>, placed: bool)
    requires CritterReady(birds, snakes)
    requires LaneSpaced(Elems(birds) + Elems(snakes), lane.y, LANE_BAND, CRITTER_MIN_GAP)
    modifies rng
    ensures CritterReady(birds', snakes) && birds <= birds'
    ensures |birds'| == |birds| + (if placed then 1 else 0)
    ensures rng.pos == old(rng.pos) + 1
    ensures placed == HasSpaceFor(birds, snakes, SeedRect(rng.draw(old(rng.pos)), lane.y + 7, BIRD_W, BIRD_H),
                                  lane.y, LANE_BAND, CRITTER_MIN_GAP)
    ensures placed ==> birds'[|birds|].Bounds() == SeedRect(rng.draw(old(rng.pos)), lane.y + 7, BIRD_W, BIRD_H)
    ensures !Occupied(Elems(birds) + Elems(snakes), lane.y, LANE_BAND) ==> placed
    ensures forall i | |birds| <= i < |birds'| :: fresh(birds'[i]) && LevelA.LaneBird(birds'[i], lane) && OnScreen(birds'[i])
    ensures LaneSpaced(Elems(birds') + Elems(snakes), lane.y, LANE_BAND, CRITTER_MIN_GAP)
  {
    var x := rng.NextInt(WIDTH - BIRD_W);
    assert Rect(x, lane.y + 7, BIRD_W, BIRD_H) == SeedRect(rng.draw(old(rng.pos)), lane.y + 7, BIRD_W, BIRD_H);
    birds', placed := PlaceInLane(Bird, x, lane.y + 7, BIRD_W, BIRD_H, lane.speed * 1.1, lane.y, LANE_BAND,
                                  CRITTER_MIN_GAP, birds, snakes);
  }

  /** The snake branch of a critter seeding attempt. */
  method TrySnake(rng: Random.Rng, lane: Lane, birds: seq<Actor>, snakes: seq<Actor>)
    returns (snakes': seq<Actor>, placed: bool)
    requires CritterReady(birds, snakes)
    requires LaneSpaced(Elems(birds) + Elems(snakes), lane.y, LANE_BAND, CRITTER_MIN_GAP)
    modifies rng
    ensures CritterReady(birds, snakes') && snakes <= snakes'
    ensures |snakes'| == |snakes| + (if placed then 1 else 0)
    ensures rng.pos == old(rng.pos) + 1
    ensures placed == HasSpaceFor(birds, snakes, SeedRect(rng.draw(old(rng.pos)), lane.y + 6, SNAKE_W, SNAKE_H),
                                  lane.y, LANE_BAND, CRITTER_MIN_GAP)
    ensures placed ==> snakes'[|snakes|].Bounds() == SeedRect(rng.draw(old(rng.pos)), lane.y + 6, SNAKE_W, SNAKE_H)
    ensures !Occupied(Elems(birds) + Elems(snakes), lane.y, LANE_BAND) ==> placed
    ensures forall i | |snakes| <= i < |snakes'| :: fresh(snakes'[i]) && LevelA.LaneSnake(snakes'[i], lane) && OnScreen(snakes'[i])
    ensures LaneSpaced(Elems(birds) + Elems(snakes'), lane.y, LANE_BAND, CRITTER_MIN_GAP)
  {
    assert SNAKE_W == 64;
    var x := rng.NextInt(WIDTH - SNAKE_W);
    assert Rect(x, lane.y + 6, SNAKE_W, SNAKE_H) == SeedRect(rng.draw(old(rng.pos)), lane.y + 6, SNAKE_W, SNAKE_H);
    assert Elems(snakes) + Elems(birds) == Elems(birds) + Elems(snakes);
    SpaceSymmetric(snakes, birds, Rect(x, lane.y + 6, SNAKE_W, SNAKE_H), lane.y, LANE_BAND, CRITTER_MIN_GAP);
    snakes', placed := PlaceInLane(Snake, x, lane.y + 6, SNAKE_W, SNAKE_H, lane.speed * 0.9, lane.y, LANE_BAND,
                                   CRITTER_MIN_GAP, snakes, birds);
    assert Elems(snakes') + Elems(birds) == Elems(birds) + Elems(snakes');
  }

  /** Seeds one critter lane: attempts go on while fewer than 2 critters are placed, 20
      at most. */
  method SeedCritterLane(rng: Random.Rng, lane: Lane, birds: seq<Actor>, snakes: seq<Actor>)
    returns (birds': seq<Actor>, snakes': seq<Actor>)
    requires CritterReady(birds, snakes)
    requires LaneSpaced(Elems(birds) + Elems(snakes), lane.y, LANE_BAND, CRITTER_MIN_GAP)
    modifies rng
    ensures CritterReady(birds', snakes') && birds <= birds' && snakes <= snakes'
    ensures |birds'| + |snakes'| <= |birds| + |snakes| + 2
    ensures !Occupied(Elems(birds) + Elems(snakes), lane.y, LANE_BAND) ==> |birds'| + |snakes'| > |birds| + |snakes|
    ensures forall i | |birds| <= i < |birds'| :: fresh(birds'[i]) && LevelA.LaneBird(birds'[i], lane) && OnScreen(birds'[i])
    ensures forall i | |snakes| <= i < |snakes'| :: fresh(snakes'[i]) && LevelA.LaneSnake(snakes'[i], lane) && OnScreen(snakes'[i])
    ensures LaneSpaced(Elems(birds') + Elems(snakes'), lane.y, LANE_BAND, CRITTER_MIN_GAP)
  {
    birds', snakes' := birds, snakes;
    var toPlace, attempts := 2, 0;
    while toPlace > 0 && attempts < 20
      invariant 0 <= toPlace && |birds'| - |birds| + |snakes'| - |snakes| + toPlace == 2
      invariant attempts == 0 ==> birds' == birds && snakes' == snakes
      invariant attempts > 0 && !Occupied(Elems(birds) + Elems(snakes), lane.y, LANE_BAND) ==>
                  |birds'| + |snakes'| > |birds| + |snakes|
      invariant CritterReady(birds', snakes') && birds <= birds' && snakes <= snakes'
      invariant forall i | |birds| <= i < |birds'| :: fresh(birds'[i]) && LevelA.LaneBird(birds'[i], lane) && OnScreen(birds'[i])
      invariant forall i | |snakes| <= i < |snakes'| :: fresh(snakes'[i]) && LevelA.LaneSnake(snakes'[i], lane) && OnScreen(snakes'[i])
      invariant LaneSpaced(Elems(birds') + Elems(snakes'), lane.y, LANE_BAND, CRITTER_MIN_GAP)
      decreases 20 - attempts
    {
      attempts := attempts + 1;
      var b, sn, placed := TryCritter(rng, lane, birds', snakes');
      birds', snakes' := b, sn;
      if placed {
        toPlace := toPlace - 1;
      }
    }
  }

  // ---------- whole-level seeding ----------

  /** The road after its first `j` lanes are seeded: those lanes spaced by
      VEHICLE_MIN_GAP and holding a vehicle, the lanes still to come empty, every vehicle
      on the board. */
  ghost predicate RoadSeeded(lanes: seq<Lane>, j: int, cars: seq<Actor>, trucks: seq<Actor>)
    requires 0 <= j <= |lanes|
    reads set a | a in cars, set a | a in trucks
  {
    && RoadReady(cars, trucks) && AllOfKind(cars, Car) && AllOfKind(trucks, Truck)
    && (forall a | a in Elems(cars) + Elems(trucks) :: OnScreen(a))
    && (forall k | 0 <= k < j ::
          LaneSpaced(Elems(cars) + Elems(trucks), lanes[k].y + ROAD_TRACK, ROAD_BAND, VEHICLE_MIN_GAP))
    && (forall k | 0 <= k < j :: Occupied(Elems(cars) + Elems(trucks), lanes[k].y + ROAD_TRACK, ROAD_BAND))
    && (forall a, m | a in Elems(cars) + Elems(trucks) && j <= m < |lanes| ::
          !InLane(a, lanes[m].y + ROAD_TRACK, ROAD_BAND))
  }

  /** Seeding road lane `j` on its track keeps the road lanes before it spaced and
      occupied and the lanes after it empty; an added vehicle on its track occupies it. */
  lemma RoadSeededAcross(lanes: seq<Lane>, j: int, pool: set<Actor>, added: set<Actor>)
    requires Apart(lanes) && 0 <= j < |lanes|
    requires forall k | 0 <= k < j :: LaneSpaced(pool, lanes[k].y + ROAD_TRACK, ROAD_BAND, VEHICLE_MIN_GAP)
    requires forall a, m | a in pool && j <= m < |lanes| :: !InLane(a, lanes[m].y + ROAD_TRACK, ROAD_BAND)
    requires forall a | a in added :: a.y == lanes[j].y + ROAD_TRACK
    requires LaneSpaced(pool + added, lanes[j].y + ROAD_TRACK, ROAD_BAND, VEHICLE_MIN_GAP)
    requires forall k | 0 <= k < j :: Occupied(pool, lanes[k].y + ROAD_TRACK, ROAD_BAND)
    requires Occupied(added, lanes[j].y + ROAD_TRACK, ROAD_BAND)
    ensures forall k | 0 <= k < j + 1 :: LaneSpaced(pool + added, lanes[k].y + ROAD_TRACK, ROAD_BAND, VEHICLE_MIN_GAP)
    ensures forall k | 0 <= k < j + 1 :: Occupied(pool + added, lanes[k].y + ROAD_TRACK, ROAD_BAND)
    ensures forall a, m | a in pool + added && j + 1 <= m < |lanes| :: !InLane(a, lanes[m].y + ROAD_TRACK, ROAD_BAND)
  {
    SpacedAcrossLanes(lanes, j, pool, added, ROAD_TRACK, ROAD_BAND, 0, VEHICLE_MIN_GAP);
    OccupiedAcross(lanes, j, pool, added, ROAD_TRACK, ROAD_BAND);
  }

  /** Seeds road lane `j`, leaving the lanes before it as they were. */
  method SeedRoadStep(rng: Random.Rng, lanes: seq<Lane>, j: int, cars: seq<Actor>, trucks: seq<Actor>)
    returns (cars': seq<Actor>, trucks': seq<Actor>)
    requires Apart(lanes) && 0 <= j < |lanes| && RoadSeeded(lanes, j, cars, trucks)
    modifies rng
    ensures RoadSeeded(lanes, j + 1, cars', trucks')
    ensures forall a | a in Elems(cars') + Elems(trucks') :: a in Elems(cars) + Elems(trucks) || fresh(a)
    ensures |cars'| + |trucks'| <= |cars| + |trucks| + 2
  {
    ghost var pool := Elems(cars) + Elems(trucks);
    EmptyLaneSpaced(pool, lanes[j].y + ROAD_TRACK, ROAD_BAND, VEHICLE_MIN_GAP);
    assert !Occupied(pool, lanes[j].y + ROAD_TRACK, ROAD_BAND);
    cars', trucks' := SeedRoadLane(rng, lanes[j], cars, trucks);
    ghost var added := (Elems(cars') + Elems(trucks')) - pool;
    forall a | a in added
      ensures a.y == lanes[j].y + ROAD_TRACK && fresh(a) && OnScreen(a)
    {
      if a in cars' {
        var i := BeyondPrefix(cars, cars', a);
      } else {
        var i := BeyondPrefix(trucks, trucks', a);
      }
    }
    if |cars'| > |cars| {
      assert cars'[|cars|] in added && InLane(cars'[|cars|], lanes[j].y + ROAD_TRACK, ROAD_BAND);
    } else {
      assert trucks'[|trucks|] in added && InLane(trucks'[|trucks|], lanes[j].y + ROAD_TRACK, ROAD_BAND);
    }
    assert Elems(cars') + Elems(trucks') == pool + added;
    RoadSeededAcross(lanes, j, pool, added);
  }

  /** Seeds every road lane in turn. Every vehicle lies on the board and every lane ends
      spaced by VEHICLE_MIN_GAP and holding at least one vehicle. */
  method SeedRoad(rng: Random.Rng, lanes: seq<Lane>) returns (cars: seq<Actor>, trucks: seq<Actor>)
    requires Apart(lanes)
    modifies rng
    ensures RoadReady(cars, trucks) && AllOfKind(cars, Car) && AllOfKind(trucks, Truck)
    ensures forall a | a in Elems(cars) + Elems(trucks) :: fresh(a) && OnScreen(a)
    ensures |cars| + |trucks| <= 2 * |lanes|
    ensures forall k | 0 <= k < |lanes| ::
              LaneSpaced(Elems(cars) + Elems(trucks), lanes[k].y + ROAD_TRACK, ROAD_BAND, VEHICLE_MIN_GAP)
    ensures forall k | 0 <= k < |lanes| :: Occupied(Elems(cars) + Elems(trucks), lanes[k].y + ROAD_TRACK, ROAD_BAND)
  {
    cars, trucks := [], [];
    var j := 0;
    while j < |lanes|
      invariant 0 <= j <= |lanes| && |cars| + |trucks| <= 2 * j
      invariant RoadSeeded(lanes, j, cars, trucks)
      invariant forall a | a in Elems(cars) + Elems(trucks) :: fresh(a)
    {
      cars, trucks := SeedRoadStep(rng, lanes, j, cars, trucks);
      j := j + 1;
    }
  }

  /** Seeding lane `j` within `reach` of its top keeps the lanes before it spaced and
      occupied and the lanes after it empty; an added actor in lane `j` occupies it. */
  lemma SeededAcross(lanes: seq<Lane>, j: int, pool: set<Actor>, added: set<Actor>, reach: int, gap: int)
    requires Apart(lanes) && 0 <= j < |lanes| && reach <= 7
    requires forall k | 0 <= k < j :: LaneSpaced(pool, lanes[k].y, LANE_BAND, gap)
    requires forall a, m | a in pool && j <= m < |lanes| :: !InLane(a, lanes[m].y, LANE_BAND)
    requires forall a | a in added :: Abs(a.y - lanes[j].y) <= reach
    requires LaneSpaced(pool + added, lanes[j].y, LANE_BAND, gap)
    requires forall k | 0 <= k < j :: Occupied(pool, lanes[k].y, LANE_BAND)
    requires Occupied(added, lanes[j].y, LANE_BAND)
    ensures forall k | 0 <= k < j + 1 :: LaneSpaced(pool + added, lanes[k].y, LANE_BAND, gap)
    ensures forall k | 0 <= k < j + 1 :: Occupied(pool + added, lanes[k].y, LANE_BAND)
    ensures forall a, m | a in pool + added && j + 1 <= m < |lanes| :: !InLane(a, lanes[m].y, LANE_BAND)
  {
    SpacedAcrossLanes(lanes, j, pool, added, 0, LANE_BAND, reach, gap);
    OccupiedAcross(lanes, j, pool, added, 0, LANE_BAND);
  }

  /** The river after its first `j` lanes are seeded: those lanes spaced by TILE/2 and
      holding a log, the lanes still to come empty, every log on the board. */
  ghost predicate RiverSeeded(lanes: seq<Lane>, j: int, logs: seq<Actor>)
    requires 0 <= j <= |lanes|
    reads set a | a in logs
  {
    && Distinct(logs) && Sized(logs, Log)
    && (forall a | a in Elems(logs) :: OnScreen(a))
    && (forall k | 0 <= k < j :: LaneSpaced(Elems(logs), lanes[k].y, LANE_BAND, TILE / 2))
    && (forall k | 0 <= k < j :: Occupied(Elems(logs), lanes[k].y, LANE_BAND))
    && (forall a, m | a in Elems(logs) && j <= m < |lanes| :: !InLane(a, lanes[m].y, LANE_BAND))
  }

  /** Seeds river lane `j`, leaving the lanes before it as they were. */
  method SeedRiverStep(rng: Random.Rng, lanes: seq<Lane>, j: int, logs: seq<Actor>) returns (logs': seq<Actor>)
    requires Apart(lanes) && 0 <= j < |lanes| && RiverSeeded(lanes, j, logs)
    modifies rng
    ensures RiverSeeded(lanes, j + 1, logs')
    ensures forall a | a in Elems(logs') :: a in Elems(logs) || fresh(a)
    ensures |logs'| <= |logs| + 2
  {
    ghost var pool := Elems(logs);
    EmptyLaneSpaced(pool, lanes[j].y, LANE_BAND, TILE / 2);
    assert !Occupied(pool, lanes[j].y, LANE_BAND);
    logs' := SeedLogLane(rng, lanes[j], logs);
    ghost var added := Elems(logs') - pool;
    forall a | a in added
      ensures Abs(a.y - lanes[j].y) <= 6 && fresh(a) && OnScreen(a)
    {
      var i := BeyondPrefix(logs, logs', a);
    }
    assert logs'[|logs|] in added && InLane(logs'[|logs|], lanes[j].y, LANE_BAND);
    assert Elems(logs') == pool + added;
    SeededAcross(lanes, j, pool, added, 6, TILE / 2);
  }

  /** Seeds every river lane in turn. Every log lies on the board and every lane ends
      spaced by TILE/2 and holding at least one log. */
  method SeedRiver(rng: Random.Rng, lanes: seq<Lane>) returns (logs: seq<Actor>)
    requires Apart(lanes)
    modifies rng
    ensures Distinct(logs) && Sized(logs, Log)
    ensures forall a | a in Elems(logs) :: fresh(a) && OnScreen(a)
    ensures |logs| <= 2 * |lanes|
    ensures forall k | 0 <= k < |lanes| :: LaneSpaced(Elems(logs), lanes[k].y, LANE_BAND, TILE / 2)
    ensures forall k | 0 <= k < |lanes| :: Occupied(Elems(logs), lanes[k].y, LANE_BAND)
  {
    logs := [];
    var j := 0;
    while j < |lanes|
      invariant 0 <= j <= |lanes| && |logs| <= 2 * j
      invariant RiverSeeded(lanes, j, logs)
      invariant forall a | a in Elems(logs) :: fresh(a)
    {
      logs := SeedRiverStep(rng, lanes, j, logs);
      j := j + 1;
    }
  }

  /** The critter lanes after the first `j` are seeded: those lanes spaced by
      CRITTER_MIN_GAP and holding a critter, the lanes still to come empty, every critter
      on the board. */
  ghost predicate CrittersSeeded(lanes: seq<Lane>, j: int, birds: seq<Actor>, snakes: seq<Actor>)
    requires 0 <= j <= |lanes|
    reads set a | a in birds, set a | a in snakes
  {
    && CritterReady(birds, snakes) && AllOfKind(birds, Bird) && AllOfKind(snakes, Snake)
    && (forall a | a in Elems(birds) + Elems(snakes) :: OnScreen(a))
    && (forall k | 0 <= k < j :: LaneSpaced(Elems(birds) + Elems(snakes), lanes[k].y, LANE_BAND, CRITTER_MIN_GAP))
    && (forall k | 0 <= k < j :: Occupied(Elems(birds) + Elems(snakes), lanes[k].y, LANE_BAND))
    && (forall a, m | a in Elems(birds) + Elems(snakes) && j <= m < |lanes| :: !InLane(a, lanes[m].y, LANE_BAND))
  }

  /** Seeds critter lane `j`, leaving the lanes before it as they were. */
  method SeedCritterStep(rng: Random.Rng, lanes: seq<Lane>, j: int, birds: seq<Actor>, snakes: seq<Actor>)
    returns (birds': seq<Actor>, snakes': seq<Actor>)
    requires Apart(lanes) && 0 <= j < |lanes| && CrittersSeeded(lanes, j, birds, snakes)
    modifies rng
    ensures CrittersSeeded(lanes, j + 1, birds', snakes')
    ensures forall a | a in Elems(birds') + Elems(snakes') :: a in Elems(birds) + Elems(snakes) || fresh(a)
    ensures |birds'| + |snakes'| <= |birds| + |snakes| + 2
  {
    ghost var pool := Elems(birds) + Elems(snakes);
    EmptyLaneSpaced(pool, lanes[j].y, LANE_BAND, CRITTER_MIN_GAP);
    assert !Occupied(pool, lanes[j].y, LANE_BAND);
    birds', snakes' := SeedCritterLane(rng, lanes[j], birds, snakes);
    ghost var added := (Elems(birds') + Elems(snakes')) - pool;
    forall a | a in added
      ensures Abs(a.y - lanes[j].y) <= 7 && fresh(a) && OnScreen(a)
    {
      if a in birds' {
        var i := BeyondPrefix(birds, birds', a);
      } else {
        var i := BeyondPrefix(snakes, snakes', a);
      }
    }
    if |birds'| > |birds| {
      assert birds'[|birds|] in added && InLane(birds'[|birds|], lanes[j].y, LANE_BAND);
    } else {
      assert snakes'[|snakes|] in added && InLane(snakes'[|snakes|], lanes[j].y, LANE_BAND);
    }
    assert Elems(birds') + Elems(snakes') == pool + added;
    SeededAcross(lanes, j, pool, added, 7, CRITTER_MIN_GAP);
  }

  /** Seeds every critter lane in turn. Every critter lies on the board and every lane
      ends spaced by CRITTER_MIN_GAP and holding at least one critter. */
  method SeedCritters(rng: Random.Rng, lanes: seq<Lane>) returns (birds: seq<Actor>, snakes: seq<Actor>)
    requires Apart(lanes)
    modifies rng
    ensures CritterReady(birds, snakes) && AllOfKind(birds, Bird) && AllOfKind(snakes, Snake)
    ensures forall a | a in Elems(birds) + Elems(snakes) :: fresh(a) && OnScreen(a)
    ensures |birds| + |snakes| <= 2 * |lanes|
    ensures forall k | 0 <= k < |lanes| :: LaneSpaced(Elems(birds) + Elems(snakes), lanes[k].y, LANE_BAND, CRITTER_MIN_GAP)
    ensures forall k | 0 <= k < |lanes| :: Occupied(Elems(birds) + Elems(snakes), lanes[k].y, LANE_BAND)
  {
    birds, snakes := [], [];
    var j := 0;
    while j < |lanes|
      invariant 0 <= j <= |lanes| && |birds| + |snakes| <= 2 * j
      invariant CrittersSeeded(lanes, j, birds, snakes)
      invariant forall a | a in Elems(birds) + Elems(snakes) :: fresh(a)
    {
      birds, snakes := SeedCritterStep(rng, lanes, j, birds, snakes);
      j := j + 1;
    }
  }
}
