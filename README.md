# Frogger core in Dafny

This project models the game core of a small Swing Frogger in two variants of the same
`GamePanel`. The frog crosses six road lanes of cars and trucks. It then crosses three
river lanes, where it must ride a log. Three critter lanes of birds and snakes lie just
above its start row.

- **Variant A** is `FroggerExample/src`. It has an impulse frog: a key stores a step, and
  the next tick applies it. Its levels get faster and denser each time. It keeps both
  vehicles and critters apart with a sort-and-push resolver.
- **Variant B** is `FroggerExample/FroggerExample/src`. It has a facing frog that moves the
  moment a key is pressed, and only while it is alive. Its speeds are varied per vehicle.
  Its space check is at the lane edge. Each tick it walks every road lane's vehicles in
  ascending order and pushes each overlapping pair apart once, which can leave vehicles
  overlapping. After level 1, level 2 is a blank free-play board.

Where the two variants differ they are modelled side by side, never merged:

- the frogs are `ImpulseFrog` and `FacingFrog`;
- the lane tables and seeding are `LevelA` and `LevelB`;
- the per-tick spawning is `TrafficA` and `TrafficB`;
- the panels themselves are `PanelA.GamePanel` and `PanelB.GamePanel`.

What they share is modelled once:

- `Board` holds the constants;
- `Geometry` models `java.awt.Rectangle` intersection and the `(int)` cast, which
  truncates toward zero;
- `Actors` is one class for car, truck, log, bird and snake, told apart by a kind tag;
- `Random` is the random stream;
- `Spacing` and `Placement` are the lane space checks;
- `Lanes` covers the geometry of a lane table;
- `LaneGaps`, `LaneResolution` and `SingleTrack` are the two resolvers;
- `Motion` moves every actor;
- `Scoring` covers row points, death and lives;
- `Panel` holds what both panels keep invariant.

The panels are classes whose fields the methods update in place, just as in the source:

- the five actor lists, the three lane lists;
- level, lives, score, `bestRowY`, ticks, the pause flag and B's `freePlay`.

Actors are objects whose `x` the methods move. Each step of `actionPerformed` is its own
method, so the tick is the composition of those steps:

- spawn;
- move;
- resolve;
- cull;
- frog update and scoring;
- hazards;
- river;
- goal.

Each panel's `Valid` bundles the invariants every tick keeps:

- every list holds distinct actors of its own kind with positive sizes;
- in A, with the corrected push (see "## Findings"), every road lane and every critter
  lane keeps the minimum gap (B's pair walk does not keep it: see "## Findings");
- in A, the frog stays on the board (B's frog is not held to the board);
- `bestRowY` never lies below the start row;
- lives and score stay in range.

Java `double` is modelled by `real`. `Math.round(v)` is `floor(v + 0.5)`. `(int)` is
truncation toward zero. `java.util.Random` is a stream of draws in [0, 1) handed to the
panel's constructor: `nextDouble` returns the next draw, `nextInt(n)` scales it, and
`nextBoolean` compares it with 0.5.

Details where the model follows the code literally:

- B's frog is clamped vertically to `HEIGHT - h`, not to the start row.
- A gives road vehicles no speed jitter.
- The truck odds are the literal thresholds:
  - A seeds trucks at 0.45 and spawns them at 0.25;
  - B uses 0.33 for both.
- B's up key sets the frog's facing to `Down`, because B's `Frog.nudge` names the
  direction of positive `dy` "UP". The model keeps the source's naming.

## Model

| member | source | states |
|---|---|---|
| Actors.Actor.constructor | FroggerExample/src/Car.java:8-10 | a new car, truck, log, bird or snake holds exactly the given position, size and speed |
| Actors.Actor.Update | FroggerExample/src/Car.java:12 | one update moves the actor by exactly its speed and changes nothing else of it |
| Actors.AdvancedLinear | FroggerExample/src/Truck.java:15 | k updates move an actor by k times its speed |
| Actors.Actor.AddX | FroggerExample/src/GamePanel.java:392-397 | the carrier's push moves the wrapped actor by exactly dx |
| Actors.Actor.SetX | FroggerExample/FroggerExample/src/GamePanel.java:376 | the single-track resolver's setter puts the actor at exactly v |
| Actors.Actor.Bounds | FroggerExample/src/Car.java:14 | the actor's rectangle has its y, w and h, and its x is the position truncated toward zero |
| Actors.EntryX | FroggerExample/src/GamePanel.java:168 | a rightward lane's entry x leaves the whole vehicle and the margin left of the board; a leftward one is the margin past its right edge |
| Geometry.ExpandedIntersectsIff | FroggerExample/src/GamePanel.java:270 | a rectangle widened by gap meets another exactly when they overlap vertically and are less than gap apart horizontally |
| Geometry.ExpandedSymmetric | FroggerExample/src/GamePanel.java:253-258 | the gap test gives the same answer whichever of the two actors is widened |
| Geometry.ClearNeverIntersects | FroggerExample/FroggerExample/src/GamePanel.java:341 | two rectangles at least gap apart horizontally pass the widened test both ways |
| Geometry.Trunc | FroggerExample/src/Car.java:14 | the `(int)` cast lies within 1 of its argument, on the side toward zero |
| Geometry.TruncShift | FroggerExample/src/GamePanel.java:298 | an integer push shifts the truncated x by the same amount only while the sign does not change |
| Geometry.TruncOfInt | FroggerExample/src/Car.java:8-10 | an actor built at integer x reports that x in its bounds |
| Geometry.WholeFloor | FroggerExample/src/GamePanel.java:98 | flooring a whole number gives it back |
| Random.Rng.constructor | FroggerExample/src/GamePanel.java:23 | a new generator starts at the first draw of its stream |
| Random.Rng.NextDouble | FroggerExample/src/GamePanel.java:165 | `nextDouble` returns the next draw, in [0, 1), and consumes exactly one |
| Random.Rng.NextInt | FroggerExample/src/GamePanel.java:98 | `nextInt(n)` returns the index its draw gives, `IntOf(draw, n)`, which lies in [0, n), and consumes exactly that one draw |
| Random.Rng.NextBoolean | FroggerExample/src/GamePanel.java:135 | `nextBoolean` is true exactly when the next draw is below one half, and consumes it |
| Random.ScaledDrawInRange | FroggerExample/src/GamePanel.java:106 | a draw in [0, 1) scaled by n and floored is a valid index below n |
| Random.IntOf | FroggerExample/src/GamePanel.java:98 | the index `nextInt(n)` takes from a draw lies in [0, n) |
| Motion.StepAll | FroggerExample/src/GamePanel.java:199-204 | every actor of a list advances by exactly its own speed, each once |
| Scoring.RowScored | FroggerExample/src/GamePanel.java:219 | a frog a whole tile or more above its best row earns 10 points per whole tile and becomes the best row; otherwise nothing changes |
| Scoring.DivSuperadditive | FroggerExample/src/GamePanel.java:219 | whole tiles of two runs add up to at most the whole tiles of their sum, so scoring in steps never beats scoring at once |
| Scoring.NoRowRewardedTwice | FroggerExample/src/GamePanel.java:219 | along any run of frog positions, the score never falls and totals at most 10 per tile of best-row progress, so no row pays twice |
| Scoring.AfterDeath | FroggerExample/src/GamePanel.java:243-250 | a death costs one life and 25 points, never below 0; the last life resets level 1, 3 lives and score 0 |
| Scoring.LivesCountDown | FroggerExample/src/GamePanel.java:246-247 | k deaths before the last life leave the level, lives minus k, and the score less 25k floored at 0 |
| Scoring.GameOverOnLastLife | FroggerExample/src/GamePanel.java:247 | losing every life returns the session to level 1, 3 lives, score 0 |
| Spacing.Clear | FroggerExample/src/GamePanel.java:255 | one list's loop in the space check passes exactly when no co-lane actor's widened bounds meet the candidate |
| Spacing.Admit | FroggerExample/src/GamePanel.java:107 | adding an actor that passed the space check keeps its lane spaced |
| Spacing.AddOutsideLane | FroggerExample/src/GamePanel.java:97-115 | actors added in other lanes leave a lane's spacing intact |
| Spacing.ClearIsSpaced | FroggerExample/src/GamePanel.java:288-305 | pairwise horizontal clearance of the co-lane actors is lane spacing |
| Spacing.SpacedSubset | FroggerExample/src/GamePanel.java:210-215 | removing actors keeps a lane spaced |
| Spacing.InLaneOf | FroggerExample/src/GamePanel.java:274-276 | the per-lane list holds exactly the actors within the band of the lane, without repeats |
| Spacing.DistinctConcat | FroggerExample/src/GamePanel.java:274-276 | joining two repeat-free lists with no actor in common gives a repeat-free list |
| Spacing.DistinctKinds | FroggerExample/src/GamePanel.java:275-276 | cars followed by trucks (or birds followed by snakes) hold no actor twice |
| Spacing.SortedCons | FroggerExample/src/GamePanel.java:290 | putting an actor first keeps the list ordered when it belongs first |
| Spacing.InsertSorted | FroggerExample/src/GamePanel.java:290 | inserting into an ordered list keeps it ordered |
| Spacing.SortByX | FroggerExample/src/GamePanel.java:290 | the sorted list is ordered by x along the lane and is a permutation of the input |
| Spacing.XMap | FroggerExample/src/GamePanel.java:290 | the record of positions gives every actor of the list its x |
| Spacing.InsertAt | FroggerExample/src/GamePanel.java:290 | one insertion step, by recorded positions, adds exactly the inserted actor, and the head is it or the old head |
| Spacing.SortAt | FroggerExample/src/GamePanel.java:290 | sorting by recorded positions gives a permutation ordered by those positions |
| Spacing.InsertAgree | FroggerExample/src/GamePanel.java:290 | inserting by two records that agree on the actors involved gives the same list |
| Spacing.SortAtAgree | FroggerExample/src/GamePanel.java:290 | the sorted order depends only on the recorded positions of the sorted actors |
| Spacing.PermutationFacts | FroggerExample/FroggerExample/src/GamePanel.java:351 | a permutation has the same length and the same actors, and keeps a repeat-free list repeat-free |
| Spacing.DistinctCounts | FroggerExample/src/GamePanel.java:290 | a repeat-free list counts each actor at most once |
| Spacing.TwiceCounted | FroggerExample/src/GamePanel.java:290 | an actor at two indices is counted twice |
| Spacing.Culled | FroggerExample/src/GamePanel.java:211-215 | `removeIf` keeps exactly the actors within 60 px of the board, in their order (a subsequence of the list), no actor twice, and never grows the list |
| Spacing.HitsAny | FroggerExample/src/GamePanel.java:223 | the hazard loop fires exactly when some actor's bounds meet the frog |
| Spacing.FirstCarrier | FroggerExample/src/GamePanel.java:231-232 | there is a carrying log exactly when some log meets the frog |
| Placement.HasSpaceFor | FroggerExample/src/GamePanel.java:253-258 | the space check passes exactly when no co-lane actor of either list, widened by gap, meets the candidate |
| Placement.AddIfSpace | FroggerExample/src/GamePanel.java:169 | the actor is appended exactly when the space check passes, as a fresh actor with the given fields; otherwise the list is unchanged |
| Placement.ElemsAppend | FroggerExample/src/GamePanel.java:107 | appending adds exactly that actor to the set of actors |
| Placement.PlaceInLane | FroggerExample/src/GamePanel.java:107 | a seeding attempt appends one fresh actor with the given fields exactly when the space check of its rectangle passes, and nothing otherwise; the new actor's bounds are exactly that rectangle; a lane with no actor in its band always takes it; the lane stays spaced |
| Placement.SpaceSymmetric | FroggerExample/src/GamePanel.java:253-258 | the space check's answer does not depend on which of the lane's two lists is searched first |
| Lanes.OneLane | FroggerExample/src/GamePanel.java:74-83 | lanes a tile apart share no actor when the band is at most half a tile |
| Lanes.LanesShareNothing | FroggerExample/src/GamePanel.java:272-279 | an actor co-lane with another lane is not co-lane with this one |
| Lanes.EmptyLaneSpaced | FroggerExample/src/GamePanel.java:96-97 | a lane with no actor in its band is spaced |
| Lanes.SpacedAcrossLanes | FroggerExample/src/GamePanel.java:96-115 | seeding lane j keeps earlier lanes spaced and leaves later lanes empty |
| Lanes.BeyondPrefix | FroggerExample/src/GamePanel.java:107 | an actor in the extended list but not the original sits past the original's end |
| Lanes.OccupiedAcross | FroggerExample/src/GamePanel.java:96-144 | lanes that held an actor keep holding one as actors are added, and lane j holds one once it gains one |
| LaneGaps.PushAsWritten | FroggerExample/src/GamePanel.java:296-302 | the source's push moves the follower forward but can leave it 1 px short of the gap |
| LaneGaps.PushAsWrittenFallsShort | FroggerExample/src/GamePanel.java:297-298 | the concrete input where the follower ends 1 px short and still meets the widened leader |
| LaneGaps.Push | FroggerExample/src/GamePanel.java:296-302 | the corrected push: the source's push, plus one pixel where truncation toward zero leaves the follower short; the follower moves only forward, ends at least gap clear of its leader, and stays put when already clear |
| LaneGaps.RightPushLands | FroggerExample/src/GamePanel.java:296-297 | a rightward push left a pixel short lands with one pixel more, and either way moves the follower forward by whole pixels |
| LaneGaps.LeftPushLands | FroggerExample/src/GamePanel.java:299-300 | the same for a leftward push, one pixel further left |
| LaneGaps.PushKeepsFraction | FroggerExample/src/GamePanel.java:296-302 | the corrected push moves the follower by a whole number of pixels, so it keeps its fraction, and equals the source's push wherever that one reaches the target |
| LaneGaps.PushExamples | FroggerExample/src/GamePanel.java:296-302 | followers at 100.7 (rightward) and 150.3 (leftward) land at 120.7 and 80.3 as in the source; the follower the source leaves at 19.5 goes on to 20.5 |
| LaneGaps.ResolvedAt | FroggerExample/src/GamePanel.java:291-304 | with the corrected push: the first actor stays put, and every follower moves only in the lane's direction |
| LaneGaps.ResolvedSeparated | FroggerExample/src/GamePanel.java:291-304 | after the walk, every earlier actor is gap clear of every later one, not only of its neighbour |
| LaneGaps.ResolvedChainClear | FroggerExample/src/GamePanel.java:288-305 | actors at the walk's positions are pairwise horizontally clear |
| LaneGaps.Xs | FroggerExample/src/GamePanel.java:290 | helper: the positions of a list's actors, in order |
| LaneGaps.Ws | FroggerExample/src/GamePanel.java:290 | helper: the widths of a list's actors, in order |
| LaneGaps.PushFollower | FroggerExample/src/GamePanel.java:293-302 | one loop step sets the follower's x to the corrected push of it behind its leader |
| LaneGaps.PushNext | FroggerExample/src/GamePanel.java:292-304 | one loop step advances the walk by one follower, pushed with the corrected push, and leaves the rest unchanged |
| LaneGaps.WalkFollowers | FroggerExample/src/GamePanel.java:292-304 | the loop leaves every actor at its walk position under the corrected push |
| LaneGaps.WalkSorted | FroggerExample/src/GamePanel.java:291-304 | on a sorted list, the walk with the corrected push puts each actor at its resolved position, moving it only forward, and makes the actors pairwise clear |
| LaneGaps.ResolveLaneGaps | FroggerExample/src/GamePanel.java:288-305 | the resolver sorts along the lane, then pushes each actor forward with the corrected push only, leaving all pairwise gap clear |
| LaneResolution.ResolveLane | FroggerExample/src/GamePanel.java:273-278 | lane j, its actors still at their starting positions, is walked in its order sorted by those positions; each ends where the walk with the corrected push over them puts it; only actors in its band move, each only forward, and it ends spaced |
| LaneResolution.ResolveOneLane | FroggerExample/src/GamePanel.java:274-277 | with the corrected push: the order holds exactly the lane's actors (the first list's, then the second's) sorted along the lane by their starting positions; each ends where the walk over those positions puts it, moving only forward; the lane ends spaced |
| LaneResolution.ResolveLanes | FroggerExample/src/GamePanel.java:272-287 | after `resolveVehicleGaps` (or the critter twin) with the corrected push: every lane is spaced; lane k's actors are walked in their order sorted by starting positions, each ending at the walk's position, so only forward; actors in no lane do not move |
| LaneResolution.StartsIn | FroggerExample/src/GamePanel.java:288-291 | the starting positions of a lane's actors, in walk order |
| LaneResolution.SortedLanes | FroggerExample/src/GamePanel.java:272-287 | every lane's sorted order by starting positions, one entry per lane |
| LaneResolution.WalkLanes | FroggerExample/src/GamePanel.java:272-287 | the lane loop: afterwards every lane is resolved, and lane k was walked in its sorted order with each actor at its walk position |
| LaneResolution.WalkLane | FroggerExample/src/GamePanel.java:273-278 | one turn of the lane loop: lane j is walked in its sorted order and joins the resolved and walked lanes |
| LaneResolution.LaneAsFound | FroggerExample/src/GamePanel.java:272-278 | before lane j's turn its actors still stand where the pass found them, since no earlier lane's band holds them |
| LaneResolution.LaneAsSorted | FroggerExample/src/GamePanel.java:290 | while a lane's actors stand at their starting positions, sorting by those positions is sorting by x, and their x are those positions |
| LaneResolution.StartsAreNow | FroggerExample/src/GamePanel.java:290 | actors standing at their recorded positions have those positions as their x |
| LaneResolution.ResolvedOneMore | FroggerExample/src/GamePanel.java:272-287 | when only lane j's actors moved, each forward, and the lane is spaced, one more lane is resolved |
| LaneResolution.EarlierStaySpaced | FroggerExample/src/GamePanel.java:272-287 | lanes resolved before lane j do not move during its turn, so they stay spaced |
| LaneResolution.ForwardSinceStart | FroggerExample/src/GamePanel.java:272-287 | every actor of lanes 0..j has moved only forward since the pass began |
| LaneResolution.RestUnmoved | FroggerExample/src/GamePanel.java:272-287 | actors in none of lanes 0..j still stand where the pass found them |
| LaneResolution.LaneWalkAppended | FroggerExample/src/GamePanel.java:272-287 | after lane j's turn, the lanes walked before it are still walked and lane j joins them |
| LaneResolution.WalkedExtended | FroggerExample/src/GamePanel.java:272-287 | appending the next lane's walk keeps every lane walked |
| SingleTrack.PairMoved | FroggerExample/FroggerExample/src/GamePanel.java:358-368 | an overlapping pair is separated by exactly `needed`; a clear pair is left alone |
| SingleTrack.PairMoves | FroggerExample/FroggerExample/src/GamePanel.java:362-368 | same-sign pairs move only the actor ahead in the direction of travel (B when A moves right, A otherwise) by `needed`; opposite-sign pairs move A back and B forward by half each |
| SingleTrack.PassAt | FroggerExample/FroggerExample/src/GamePanel.java:353-370 | the ascending pair walk up to pair k leaves later actors unmoved |
| SingleTrack.Pass | FroggerExample/FroggerExample/src/GamePanel.java:353-370 | the whole pair walk keeps the number of actors |
| SingleTrack.Speeds | FroggerExample/FroggerExample/src/GamePanel.java:362-368 | helper: the speeds of a list's actors, in order |
| SingleTrack.LeftwardPassLeavesOverlap | FroggerExample/FroggerExample/src/GamePanel.java:351-370 | on a leftward lane the ascending walk re-breaks a pair it already fixed |
| SingleTrack.FixPair | FroggerExample/FroggerExample/src/GamePanel.java:354-369 | one loop step moves the pair to the positions `PairMoved` gives |
| SingleTrack.StepPair | FroggerExample/FroggerExample/src/GamePanel.java:353-370 | one loop step advances the pair walk by one pair |
| SingleTrack.WalkPairs | FroggerExample/FroggerExample/src/GamePanel.java:353-370 | the loop leaves the actors where the pair walk puts them |
| SingleTrack.TrackWalkedUnmoved | FroggerExample/FroggerExample/src/GamePanel.java:353-370 | a walked lane whose actors did not move stays walked |
| SingleTrack.ResolveSingleTrack | FroggerExample/FroggerExample/src/GamePanel.java:343-372 | as written: one lane's vehicles, sorted by ascending x, end at the pair walk's positions |
| SingleTrack.TrackVehicles | FroggerExample/FroggerExample/src/GamePanel.java:344-348 | the gathered list holds exactly the cars, then the trucks, within the band of the lane's track |
| SingleTrack.SortedAscending | FroggerExample/FroggerExample/src/GamePanel.java:351 | a list sorted by ascending x has ascending positions |
| SingleTrack.SortedChain | FroggerExample/FroggerExample/src/GamePanel.java:351 | in a list sorted by ascending x, each actor stands at or left of every later one |
| SingleTrack.ResolveTrack | FroggerExample/FroggerExample/src/GamePanel.java:344-371 | one lane of the walk: its order holds exactly the lane's vehicles, their starting positions ascending, and each ends where the pair walk puts it |
| SingleTrack.LaneStartsKnown | FroggerExample/FroggerExample/src/GamePanel.java:343-348 | before lane j is walked its vehicles still stand where the walk started, since no earlier lane's band holds them |
| SingleTrack.EarlierLanesKept | FroggerExample/FroggerExample/src/GamePanel.java:343-372 | walking lane j moves no vehicle of another lane, so earlier lanes stay walked and vehicles in no lane stay put |
| SingleTrack.OrdersExtended | FroggerExample/FroggerExample/src/GamePanel.java:343-372 | adding lane j's order keeps every walked lane's order |
| SingleTrack.WalksExtended | FroggerExample/FroggerExample/src/GamePanel.java:343-372 | adding lane j's walk keeps every walked lane walked |
| SingleTrack.WalkLane | FroggerExample/FroggerExample/src/GamePanel.java:343-372 | one turn of the lane loop: lane j is walked, earlier lanes stay walked, vehicles in none of lanes 0..j stay put |
| SingleTrack.ResolveTracks | FroggerExample/FroggerExample/src/GamePanel.java:343-372 | `resolveVehicleGapsSingleTrack`: each lane's vehicles, in ascending order of their starting positions, end where the pair walk over those positions puts them; vehicles in no lane do not move |
| SingleTrack.Positions | FroggerExample/FroggerExample/src/GamePanel.java:343-348 | the record of positions holds every car's and truck's x |
| ImpulseFrog.RowAfter | FroggerExample/src/Frog.java:13-25 | an update leaves the frog on its row without an impulse; with one, on the row it aims at when that is on the board, and always between the goal row and the start row |
| ImpulseFrog.Clamped | FroggerExample/src/Frog.java:22-25 | the clamp lands within [0, width - size] and [TILE, start row], and leaves a position already inside unchanged |
| ImpulseFrog.ClampIdempotent | FroggerExample/src/Frog.java:22-25 | clamping twice is clamping once |
| ImpulseFrog.ClampedOnBoard | FroggerExample/src/Frog.java:22-27 | a clamped frog's bounds lie inside the board |
| ImpulseFrog.Frog.constructor | FroggerExample/src/Frog.java:9 | a new frog is alive at the given position with no pending step |
| ImpulseFrog.Frog.Nudge | FroggerExample/src/Frog.java:11 | a key stores the step, replacing any earlier one, and does not move the frog |
| ImpulseFrog.Frog.Update | FroggerExample/src/Frog.java:13-20 | a pending step is applied and clamped; no step, no move; the step is spent either way |
| ImpulseFrog.Frog.ClampToBoard | FroggerExample/src/Frog.java:22-25 | the frog's position becomes its clamp; the step and alive flag are kept |
| ImpulseFrog.Frog.Bounds | FroggerExample/src/Frog.java:27 | the frog's rectangle is its position with side TILE - 8 |
| FacingFrog.FacingAfter | FroggerExample/FroggerExample/src/Frog.java:45-49 | x steps set Left or Right; a pure y step sets the source's Up (positive dy) or Down; no step keeps the facing |
| FacingFrog.Clamped | FroggerExample/FroggerExample/src/Frog.java:52-58 | the clamp lands within [0, width - w] and [TILE, HEIGHT - h], and leaves a position already inside unchanged |
| FacingFrog.ClampIdempotent | FroggerExample/FroggerExample/src/Frog.java:52-58 | clamping twice is clamping once |
| FacingFrog.Frog.constructor | FroggerExample/FroggerExample/src/Frog.java:23-32 | a new frog is alive at the given position, facing the goal |
| FacingFrog.Frog.Nudge | FroggerExample/FroggerExample/src/Frog.java:38-50 | a live frog moves at once by the step and turns; a dead frog ignores keys |
| FacingFrog.Frog.Update | FroggerExample/FroggerExample/src/Frog.java:34-36 | the tick update changes nothing |
| FacingFrog.Frog.ClampToBoard | FroggerExample/FroggerExample/src/Frog.java:52-58 | the frog's position becomes its clamp; facing and alive flag are kept |
| FacingFrog.Frog.Bounds | FroggerExample/FroggerExample/src/Frog.java:60 | the frog's rectangle is its position with side TILE - 4 |
| LevelA.RoundMonotone | FroggerExample/src/GamePanel.java:70 | `Math.round` never turns a smaller interval into a larger one |
| LevelA.RiverLane | FroggerExample/src/GamePanel.java:64-71 | river lane i sits on row 4 - i, alternates direction starting rightward, and spawns at most every 25 ticks |
| LevelA.RoadLane | FroggerExample/src/GamePanel.java:75-82 | road lane i sits on row 11 - i, alternates direction, and spawns at most every 26 ticks |
| LevelA.CritterLane | FroggerExample/src/GamePanel.java:86-93 | critter lane i sits on row 16 - i, alternates direction, and spawns at most every 26 ticks |
| LevelA.HarderEachLevel | FroggerExample/src/GamePanel.java:68-92 | one level up, each of the six road lanes and each of the three river and critter lanes runs strictly faster and spawns no less often |
| LevelA.RiverLanes | FroggerExample/src/GamePanel.java:63-72 | the river table is the three river lanes in order |
| LevelA.RoadLanes | FroggerExample/src/GamePanel.java:74-83 | the road table is the six road lanes in order |
| LevelA.CritterLanes | FroggerExample/src/GamePanel.java:85-94 | the critter table is the three critter lanes in order |
| LevelA.TablesApart | FroggerExample/src/GamePanel.java:64-86 | in each table, lanes are whole tiles apart |
| LevelA.TryRoadVehicle | FroggerExample/src/GamePanel.java:101-113 | one attempt draws the kind, the length and x, and adds a truck (roll below 0.45, at y + 4) or a car (otherwise, at y + 5) exactly when the space check of the drawn rectangle passes; the vehicle added has exactly that rectangle as its bounds; a lane with no vehicle always gains one; the new vehicle is fresh and on the board, and the lane stays spaced |
| LevelA.DrawSeedRect | FroggerExample/src/GamePanel.java:104-106 | two draws, the length then x, give exactly the seed rectangle of those draws: x in [0, WIDTH), `tiles` or `tiles + 1` tiles long |
| LevelA.TryTruck | FroggerExample/src/GamePanel.java:103-107 | the truck branch adds one fresh truck at 0.85 of the lane's speed exactly when the space check of the drawn rectangle (3 or 4 tiles long, at y + 4) passes; the actor added has exactly that rectangle as its bounds; an empty lane always gains it; the lane stays spaced |
| LevelA.TryCar | FroggerExample/src/GamePanel.java:108-112 | the car branch adds one fresh car at the lane's speed exactly when the space check of the drawn rectangle (2 or 3 tiles long, at y + 5) passes; the actor added has exactly that rectangle as its bounds; an empty lane always gains it; the lane stays spaced |
| LevelA.SeedRoadLane | FroggerExample/src/GamePanel.java:97-115 | seeding a road lane adds at most two fresh vehicles of the lane, a lane with no vehicle gains at least one, and it stays spaced |
| LevelA.TryLog | FroggerExample/src/GamePanel.java:122-125 | one attempt adds one fresh log of the lane exactly when the log space check (gap TILE/2) of the drawn rectangle passes; the actor added has exactly that rectangle as its bounds; an empty river lane always gains it; the lane stays spaced |
| LevelA.SeedLogLane | FroggerExample/src/GamePanel.java:118-127 | seeding a river lane adds at most two logs, a lane with no log gains at least one, and it stays spaced |
| LevelA.TryCritter | FroggerExample/src/GamePanel.java:133-143 | one attempt adds a bird (coin below 0.5, at y + 7) or a snake (otherwise, at y + 6) exactly when the critter space check of the drawn rectangle passes; the actor added has exactly that rectangle as its bounds; an empty lane always gains one; the lane stays spaced |
| LevelA.TryBird | FroggerExample/src/GamePanel.java:136-138 | the bird branch adds one bird at 1.1 of the lane's speed exactly when the space check of the drawn rectangle passes; the actor added has exactly that rectangle as its bounds; an empty lane always gains it; the lane stays spaced |
| LevelA.TrySnake | FroggerExample/src/GamePanel.java:139-141 | the snake branch adds one snake at 0.9 of the lane's speed exactly when the space check of the drawn rectangle passes; the actor added has exactly that rectangle as its bounds; an empty lane always gains it; the lane stays spaced |
| LevelA.SeedCritterLane | FroggerExample/src/GamePanel.java:130-144 | seeding a critter lane adds at most two critters, a lane with no critter gains at least one, and it stays spaced |
| LevelA.SeededAcross | FroggerExample/src/GamePanel.java:96-144 | a lane seeded within 7 pixels of its top leaves the lanes seeded before it spaced and the lanes after it empty |
| LevelA.SeedRoadStep | FroggerExample/src/GamePanel.java:97-115 | seeding road lane j extends the seeded prefix of the road by one lane |
| LevelA.SeedRiverStep | FroggerExample/src/GamePanel.java:118-127 | seeding river lane j extends the seeded prefix of the river by one lane |
| LevelA.SeedCritterStep | FroggerExample/src/GamePanel.java:130-144 | seeding critter lane j extends the seeded prefix of the critter lanes by one |
| LevelA.SeedRoad | FroggerExample/src/GamePanel.java:96-115 | the seeded vehicles are fresh and number at most twice the lanes in all; every lane keeps the vehicle gap and holds at least one vehicle |
| LevelA.SeedRiver | FroggerExample/src/GamePanel.java:117-127 | the seeded logs are fresh and number at most twice the lanes in all; every lane keeps TILE/2 and holds at least one log |
| LevelA.SeedCritters | FroggerExample/src/GamePanel.java:129-144 | the seeded critters are fresh and number at most twice the lanes in all; every lane keeps the critter gap and holds at least one critter |
| LevelB.VariedNear | FroggerExample/FroggerExample/src/GamePanel.java:80-83 | a varied speed keeps its base's direction and lies within the factor of it |
| LevelB.Scale | FroggerExample/FroggerExample/src/GamePanel.java:80-83 | scaling by a positive factor keeps the order of two speeds and a negative one reverses it |
| LevelB.Multiplier | FroggerExample/FroggerExample/src/GamePanel.java:80-83 | the speed multiplier lies in [1 - factor, 1 + factor) and stays positive |
| LevelB.Vary | FroggerExample/FroggerExample/src/GamePanel.java:80-83 | `vary` consumes one draw and returns a speed within 25% of its base |
| LevelB.CopySign | FroggerExample/FroggerExample/src/GamePanel.java:145 | the result has the magnitude of the first argument and the sign of the second |
| LevelB.TruckBase | FroggerExample/FroggerExample/src/GamePanel.java:145 | the truck's base speed is exactly 0.85 of the lane's, sign included |
| LevelB.RoadLane | FroggerExample/FroggerExample/src/GamePanel.java:113-121 | road lane i sits on row 6 + i, alternates direction starting rightward, and spawns at most every 22 ticks |
| LevelB.CritterLane | FroggerExample/FroggerExample/src/GamePanel.java:125-132 | critter lane i sits on row 16 - i, alternates direction, and spawns at most every 24 ticks |
| LevelB.RoadLanes | FroggerExample/FroggerExample/src/GamePanel.java:111-122 | the road table is the six road lanes in order |
| LevelB.CritterLanes | FroggerExample/FroggerExample/src/GamePanel.java:124-133 | the critter table is the three critter lanes in order |
| LevelB.SameSpeedsEachLevel | FroggerExample/FroggerExample/src/GamePanel.java:117-130 | B's road and critter speeds do not depend on the level; only the intervals shrink |
| LevelB.TablesApart | FroggerExample/FroggerExample/src/GamePanel.java:101-125 | in each table, lanes are whole tiles apart |
| LevelB.TablesPeriodic | FroggerExample/FroggerExample/src/GamePanel.java:113-132 | every lane of the road, river and critter tables spawns on a positive period |
| LevelB.TryRoadVehicle | FroggerExample/FroggerExample/src/GamePanel.java:139-155 | one attempt adds a truck (roll below 0.33) or a car (otherwise) exactly when the space check of the drawn rectangle on the lane's track passes; the actor added has exactly that rectangle as its bounds; a lane with no vehicle always gains one; a placed car draws its colour too; the new vehicle is fresh and on screen, and the lane stays spaced |
| LevelB.DrawSeedRect | FroggerExample/FroggerExample/src/GamePanel.java:143 | one draw gives exactly the seed rectangle of that draw, at x in [0, WIDTH - w) |
| LevelB.TruckSpeed | FroggerExample/FroggerExample/src/GamePanel.java:144-145 | one draw gives a truck speed within 25% of 0.85 of the lane's speed |
| LevelB.TryTruck | FroggerExample/FroggerExample/src/GamePanel.java:140-149 | the truck branch draws x and the speed and adds one fresh on-screen truck exactly when the space check of the drawn rectangle passes; the actor added has exactly that rectangle as its bounds; an empty track always gains it; the lane stays spaced |
| LevelB.PlaceTruck | FroggerExample/FroggerExample/src/GamePanel.java:148-149 | the truck is appended exactly when the space check of its rectangle passes, with bounds exactly that rectangle and the given speed; an empty track always takes it; the lane stays spaced |
| LevelB.TryCar | FroggerExample/FroggerExample/src/GamePanel.java:140-153 | the car branch draws x and the speed, adds one fresh on-screen car exactly when the space check of the drawn rectangle passes, and then draws its colour; the actor added has exactly that rectangle as its bounds; an empty track always gains it; the lane stays spaced |
| LevelB.PlaceCar | FroggerExample/FroggerExample/src/GamePanel.java:148-153 | the car is appended exactly when the space check of its rectangle passes, with bounds exactly that rectangle and the given speed; an empty track always takes it; the lane stays spaced |
| LevelB.SeedRoadLane | FroggerExample/FroggerExample/src/GamePanel.java:136-157 | seeding a road lane adds at most two fresh on-screen vehicles, a track with no vehicle gains at least one, and it stays spaced |
| LevelB.RoadSeededAcross | FroggerExample/FroggerExample/src/GamePanel.java:136-157 | a road lane seeded on its track leaves the road lanes seeded before it spaced and those after it empty |
| LevelB.SeedRoadStep | FroggerExample/FroggerExample/src/GamePanel.java:136-157 | seeding lane j extends the seeded prefix of the road by one lane |
| LevelB.SeedRoad | FroggerExample/FroggerExample/src/GamePanel.java:135-157 | the seeded on-screen vehicles are fresh and number at most twice the lanes in all; every lane keeps the vehicle gap and holds at least one vehicle |
| LevelB.TryLog | FroggerExample/FroggerExample/src/GamePanel.java:163-167 | one attempt adds one fresh on-screen log exactly when the log space check of the drawn rectangle passes; the actor added has exactly that rectangle as its bounds; an empty lane always gains it; the lane stays spaced |
| LevelB.SeedLogLane | FroggerExample/FroggerExample/src/GamePanel.java:160-169 | seeding a river lane adds at most two logs, a lane with no log gains at least one, and it stays spaced |
| LevelB.SeededAcross | FroggerExample/FroggerExample/src/GamePanel.java:159-190 | a river or critter lane seeded within 7 pixels of its top leaves the lanes seeded before it spaced and those after it empty |
| LevelB.SeedRiverStep | FroggerExample/FroggerExample/src/GamePanel.java:160-169 | seeding river lane j extends the seeded prefix of the river by one lane |
| LevelB.SeedRiver | FroggerExample/FroggerExample/src/GamePanel.java:159-169 | the seeded on-screen logs are fresh and number at most twice the lanes in all; every lane keeps TILE/2 and holds at least one log |
| LevelB.TryCritter | FroggerExample/FroggerExample/src/GamePanel.java:175-188 | one attempt adds an on-screen bird (coin below 0.5) or snake (otherwise) exactly when the critter space check of the drawn rectangle passes; the actor added has exactly that rectangle as its bounds; an empty lane always gains one; the lane stays spaced |
| LevelB.TryBird | FroggerExample/FroggerExample/src/GamePanel.java:176-181 | the bird branch adds one bird exactly when the space check of the drawn rectangle passes; the actor added has exactly that rectangle as its bounds; an empty lane always gains it; the lane stays spaced |
| LevelB.TrySnake | FroggerExample/FroggerExample/src/GamePanel.java:182-187 | the snake branch adds one snake exactly when the space check of the drawn rectangle passes; the actor added has exactly that rectangle as its bounds; an empty lane always gains it; the lane stays spaced |
| LevelB.SeedCritterLane | FroggerExample/FroggerExample/src/GamePanel.java:172-190 | seeding a critter lane adds at most two critters, a lane with no critter gains at least one, and it stays spaced |
| LevelB.SeedCritterStep | FroggerExample/FroggerExample/src/GamePanel.java:172-190 | seeding lane j extends the seeded prefix of the critter lanes by one |
| LevelB.SeedCritters | FroggerExample/FroggerExample/src/GamePanel.java:171-190 | the seeded on-screen critters are fresh and number at most twice the lanes in all; every lane keeps the critter gap and holds at least one critter |
| TrafficA.SpawnRoadLane | FroggerExample/src/GamePanel.java:164-175 | a lane not due draws nothing and adds nothing; a due lane adds a truck exactly when the roll is below 0.25 and the truck's entry rectangle passes the space check, and a car exactly when the roll is in [0.25, 0.65) and the car's does; the new vehicle's bounds are exactly the entry rectangle checked, with the length drawn after the roll; each new vehicle is fresh and enters off the board |
| TrafficA.DrawLength | FroggerExample/src/GamePanel.java:167 | one draw gives a length of `tiles` or `tiles + 1` tiles, exactly the length of that draw |
| TrafficA.Enter | FroggerExample/src/GamePanel.java:168-169 | the actor is appended at its entry point exactly when the space check of its entry rectangle passes, and its bounds are that rectangle |
| TrafficA.SpawnLogLane | FroggerExample/src/GamePanel.java:178-182 | a log is added exactly when the lane is due, the roll is below 0.75 and the log's entry rectangle passes the log space check (gap TILE/3); the new log's bounds are exactly that entry rectangle, with the length drawn after the roll; a lane not due draws nothing |
| TrafficA.SpawnCritterLane | FroggerExample/src/GamePanel.java:185-196 | a bird is added exactly when the lane is due, the roll is below 0.65, the coin is heads and the bird's entry rectangle passes the critter space check; a snake likewise on tails; a lane not due draws nothing |
| TrafficA.EntryIsOffBoard | FroggerExample/src/GamePanel.java:168 | an actor at its entry point is entirely off the board |
| TrafficA.SpawnRoad | FroggerExample/src/GamePanel.java:163-176 | lane by lane, each road lane spawns as `SpawnRoadLane` states, from the draws the lanes before it left; so at most one new vehicle per lane, each fresh, off the board and from a due lane; no lane due, no draw and no vehicle |
| TrafficA.SpawnRoadNext | FroggerExample/src/GamePanel.java:163-176 | one turn of the road loop records lane j's spawn after those of the lanes before it, adding at most one fresh, off-board vehicle from a due lane |
| TrafficA.RoadSpawnedStep | FroggerExample/src/GamePanel.java:163-176 | a record of the first j road lanes followed by lane j's spawn is a record of the first j + 1 |
| TrafficA.SpawnRiver | FroggerExample/src/GamePanel.java:177-183 | lane by lane, each river lane spawns as `SpawnLogLane` states, from the draws the lanes before it left; at most one new log per lane, each fresh, off the board and from a due lane |
| TrafficA.RiverSpawnedStep | FroggerExample/src/GamePanel.java:177-183 | a record of the first j river lanes followed by lane j's spawn is a record of the first j + 1 |
| TrafficA.SpawnCritters | FroggerExample/src/GamePanel.java:184-197 | lane by lane, each critter lane spawns as `SpawnCritterLane` states, from the draws the lanes before it left; at most one new critter per lane, each fresh, off the board and from a due lane |
| TrafficA.SpawnCrittersNext | FroggerExample/src/GamePanel.java:184-197 | one turn of the critter loop records lane j's spawn after those of the lanes before it, adding at most one fresh, off-board critter from a due lane |
| TrafficA.CrittersSpawnedStep | FroggerExample/src/GamePanel.java:184-197 | a record of the first j critter lanes followed by lane j's spawn is a record of the first j + 1 |
| TrafficB.EdgeRect | FroggerExample/FroggerExample/src/GamePanel.java:219-220 | B checks space at the rectangle touching the board's edge on the lane's side |
| TrafficB.Enter | FroggerExample/FroggerExample/src/GamePanel.java:237-240 | the actor is appended at its entry point exactly when the space check of its entry rectangle passes, and its bounds are that rectangle |
| TrafficB.SpawnRoadLane | FroggerExample/FroggerExample/src/GamePanel.java:209-232 | a lane not due draws nothing and adds nothing; a due lane adds a truck exactly when the roll is below 0.33 and the truck's edge rectangle passes the space check, and a car exactly when the roll is not and the car's does; a truck takes two draws, a car three |
| TrafficB.SpawnTruck | FroggerExample/FroggerExample/src/GamePanel.java:214-221 | a truck is added exactly when its edge rectangle passes the space check; it is fresh and enters 12 px off the board; its speed takes one draw |
| TrafficB.SpawnCar | FroggerExample/FroggerExample/src/GamePanel.java:222-231 | a car is added exactly when its edge rectangle passes the space check; it is fresh and enters 12 px off the board; its colour and speed take two draws |
| TrafficB.SpawnLogLane | FroggerExample/FroggerExample/src/GamePanel.java:236-241 | a log is added exactly when the lane is due, the roll is below 0.75 and the log passes the log space check (gap TILE/3) where it enters |
| TrafficB.SpawnCritterLane | FroggerExample/FroggerExample/src/GamePanel.java:245-258 | a bird is added exactly when the lane is due, the roll is below 0.65, the coin comes up bird and the bird passes the critter space check where it enters; a snake likewise |
| TrafficB.EntryIsOffBoard | FroggerExample/FroggerExample/src/GamePanel.java:217 | an actor at its entry point is entirely off the board |
| TrafficB.SpawnRoad | FroggerExample/FroggerExample/src/GamePanel.java:209-233 | lane by lane, each road lane spawns as `SpawnRoadLane` states, from the draws the lanes before it left; at most one new vehicle per lane, each fresh and off the board; no lane due, no draw and no vehicle |
| TrafficB.SpawnRoadNext | FroggerExample/FroggerExample/src/GamePanel.java:209-233 | one turn of the road loop records lane j's spawn after those of the lanes before it, adding at most one fresh, off-board vehicle from a due lane |
| TrafficB.RoadSpawnedStep | FroggerExample/FroggerExample/src/GamePanel.java:209-233 | a record of the first j road lanes followed by lane j's spawn is a record of the first j + 1 |
| TrafficB.SpawnRiver | FroggerExample/FroggerExample/src/GamePanel.java:235-242 | lane by lane, each river lane spawns as `SpawnLogLane` states; at most one new log per lane, each fresh and off the board |
| TrafficB.RiverSpawnedStep | FroggerExample/FroggerExample/src/GamePanel.java:235-242 | a record of the first j river lanes followed by lane j's spawn is a record of the first j + 1 |
| TrafficB.SpawnCritters | FroggerExample/FroggerExample/src/GamePanel.java:244-259 | lane by lane, each critter lane spawns as `SpawnCritterLane` states; at most one new critter per lane, each fresh and off the board |
| TrafficB.SpawnCrittersNext | FroggerExample/FroggerExample/src/GamePanel.java:244-259 | one turn of the critter loop records lane j's spawn after those of the lanes before it, adding at most one fresh, off-board critter from a due lane |
| TrafficB.CrittersSpawnedStep | FroggerExample/FroggerExample/src/GamePanel.java:244-259 | a record of the first j critter lanes followed by lane j's spawn is a record of the first j + 1 |
| Panel.SpacedNarrower | FroggerExample/FroggerExample/src/GamePanel.java:326-347 | vehicles spaced over the resolver's band (at most 2 px) are spaced over the space check's band (under 2 px) |
| Panel.CulledSpaced | FroggerExample/src/GamePanel.java:210-215 | culling keeps every lane spaced |
| Panel.OffRoad | FroggerExample/FroggerExample/src/GamePanel.java:269 | logs, birds and snakes are never cars or trucks, so the road walk cannot move them |
| PanelA.GamePanel.constructor | FroggerExample/src/GamePanel.java:43-53 | a new panel is at level 1 with 3 lives, score 0, the frog at the start, and every invariant established |
| PanelA.GamePanel.SetupLevel | FroggerExample/src/GamePanel.java:59-148 | the level is rebuilt with fresh, spaced actors, at most 12 vehicles, 6 logs and 6 critters, every lane holding at least one actor, and the frog is reset without touching level, lives or score |
| PanelA.BuildLevel | FroggerExample/src/GamePanel.java:60-144 | the three lane tables of the level, and seeded lists that are stocked, spaced, and hold at least one actor in every lane |
| PanelA.SeedTables | FroggerExample/src/GamePanel.java:96-144 | seeding the road, river and critter tables gives fresh, stocked lists, road and critter lanes spaced, every lane holding at least one actor, and at most 12 vehicles, 6 logs and 6 critters in all |
| PanelA.GamePanel.Install | FroggerExample/src/GamePanel.java:60-61 | the built lanes and lists replace the old ones, and nothing else changes |
| PanelA.GamePanel.SetActors | FroggerExample/src/GamePanel.java:60 | the five lists are replaced, and nothing else changes |
| PanelA.GamePanel.ResetFrog | FroggerExample/src/GamePanel.java:150-156 | the frog is back at the start and alive; the row bonus resets unless kept |
| PanelA.GamePanel.Die | FroggerExample/src/GamePanel.java:243-250 | a dead frog ignores death; a live one costs a life and 25 points (or resets the game) and rebuilds the level |
| PanelA.GamePanel.SpawnPhase | FroggerExample/src/GamePanel.java:162-197 | each list only grows; the road, river and critter loops spawn, in that order over one stream of draws, lane by lane as `TrafficA.SpawnRoad`, `SpawnRiver` and `SpawnCritters` state; every new actor is fresh, off the board and from a lane due this tick |
| PanelA.SpawnLanes | FroggerExample/src/GamePanel.java:162-197 | the road, river and critter spawns run in that order over one stream of draws, each lane by lane as `TrafficA` states; each list only grows, by fresh actors off the board from a lane due this tick |
| PanelA.GamePanel.MovePhase | FroggerExample/src/GamePanel.java:199-204 | every actor advances by its own speed |
| PanelA.GamePanel.ResolvePhase | FroggerExample/src/GamePanel.java:206-208 | with the corrected push: every road and critter lane is spaced; each lane's actors are walked in the lane's order sorted by their positions before the phase, each ending where the walk over those positions puts it, so only forward; logs untouched |
| PanelA.ResolveTables | FroggerExample/src/GamePanel.java:206-208 | with the corrected push: the road table and the critter table are each resolved as `ResolveTable` states, from the same starting positions; logs do not move |
| PanelA.ResolveTable | FroggerExample/src/GamePanel.java:272-287 | with the corrected push: every lane of the table is spaced, its actors moved only forward, and lane k walked in its order sorted by starting positions, each actor at the walk's position |
| PanelA.GamePanel.CullPhase | FroggerExample/src/GamePanel.java:210-215 | each list becomes its own cull, exactly its on-board actors, and the lanes stay spaced |
| PanelA.GamePanel.SettlePhases | FroggerExample/src/GamePanel.java:199-215 | move, resolve and cull keep every invariant, leave every lane spaced, and touch no counter |
| PanelA.CullAll | FroggerExample/src/GamePanel.java:210-215 | the five culled lists are stocked, spaced and exactly the on-board actors |
| PanelA.GamePanel.FrogPhase | FroggerExample/src/GamePanel.java:217-219 | the frog applies its step, and the score and best row follow the row rule |
| PanelA.GamePanel.Judge | FroggerExample/src/GamePanel.java:221-238 | a hazard hit, or a river row without a log, is a death; a log carries the frog; the goal row advances the level; otherwise the tick continues |
| PanelA.GamePanel.RiverAndGoal | FroggerExample/src/GamePanel.java:228-238 | in the river the frog dies or is carried by the first log; at the goal the level advances |
| PanelA.GamePanel.CrossRiver | FroggerExample/src/GamePanel.java:228-235 | a river frog with no log under it dies with the death bookkeeping; otherwise it keeps its row and its x is the clamp of its truncated x plus the first log's speed |
| PanelA.GamePanel.Advance | FroggerExample/src/GamePanel.java:238 | reaching the goal scores 100, raises the level and rebuilds it |
| PanelA.GamePanel.Ride | FroggerExample/src/GamePanel.java:234 | the frog's x becomes the clamp of its truncated x plus the log's speed |
| PanelA.GamePanel.TrafficPhases | FroggerExample/src/GamePanel.java:162-215 | spawn, move, resolve and cull keep every invariant and touch no counter |
| PanelA.GamePanel.Tick | FroggerExample/src/GamePanel.java:158-241 | a paused tick changes nothing; otherwise ticks grow by one and the frog's row is the one its impulse lands on; with the row scored as `RowScored` says, a tick that continues keeps that score, a goal adds 100 and the next level, and a death applies `AfterDeath` to that score, level and lives |
| PanelA.GamePanel.Step | FroggerExample/src/GamePanel.java:160-241 | an unpaused tick counts one more tick and keeps every invariant; the frog lands on the row its impulse gives; with that row scored as `RowScored` says, Continued keeps that score, Advanced adds 100 and one level, and Died applies `AfterDeath` to that score, level and lives |
| PanelA.GamePanel.KeyPressed | FroggerExample/src/GamePanel.java:360-369 | arrow keys store a one-tile step; P toggles the pause; other keys change nothing |
| PanelB.GamePanel.constructor | FroggerExample/FroggerExample/src/GamePanel.java:60-74 | a new panel is at level 1, not in free play, with 3 lives, score 0, the frog at the start, and every invariant established |
| PanelB.GamePanel.SetupLevel | FroggerExample/FroggerExample/src/GamePanel.java:85-193 | free play is on exactly from level 2; free play is a blank board without draws; otherwise the level is rebuilt; the frog is reset |
| PanelB.GamePanel.SetupBlank | FroggerExample/FroggerExample/src/GamePanel.java:89-96 | the free-play board has no lanes and no actors, and the frog is at the start |
| PanelB.GamePanel.SetupRegular | FroggerExample/FroggerExample/src/GamePanel.java:98-192 | level 1 is rebuilt with fresh actors, at most 12 vehicles, 6 logs and 6 critters, every lane holding at least one actor, and the frog is reset |
| PanelB.BuildLevel | FroggerExample/FroggerExample/src/GamePanel.java:100-190 | the three lane tables, and seeded lists that are stocked, spaced, on screen, and hold at least one actor in every lane |
| PanelB.SeedTables | FroggerExample/FroggerExample/src/GamePanel.java:135-190 | seeding the road, river and critter tables gives fresh, stocked, on-screen lists, each lane spaced by its own gap and holding at least one actor, and at most 12 vehicles, 6 logs and 6 critters in all |
| PanelB.GamePanel.Install | FroggerExample/FroggerExample/src/GamePanel.java:86-87 | the built lanes and lists replace the old ones and establish the invariant |
| PanelB.GamePanel.SetLanes | FroggerExample/FroggerExample/src/GamePanel.java:87-89 | the lane tables and the free-play flag are replaced, and nothing else changes |
| PanelB.GamePanel.SetActors | FroggerExample/FroggerExample/src/GamePanel.java:86 | the five lists are replaced, and nothing else changes |
| PanelB.GamePanel.ResetFrog | FroggerExample/FroggerExample/src/GamePanel.java:195-201 | the frog is back at the start and alive, facing unchanged; the row bonus resets unless kept |
| PanelB.GamePanel.Die | FroggerExample/FroggerExample/src/GamePanel.java:316-321 | a dead frog ignores death; a live one costs a life and 25 points (or resets the game) and rebuilds the level |
| PanelB.GamePanel.SpawnPhase | FroggerExample/FroggerExample/src/GamePanel.java:207-260 | each list only grows; the road, river and critter loops spawn, in that order over one stream of draws, lane by lane as `TrafficB.SpawnRoad`, `SpawnRiver` and `SpawnCritters` state; every new actor is fresh, off the board and from a due lane |
| PanelB.GamePanel.MovePhase | FroggerExample/FroggerExample/src/GamePanel.java:262-267 | every actor advances by its own speed |
| PanelB.GamePanel.ResolvePhase | FroggerExample/FroggerExample/src/GamePanel.java:269 | the road runs B's single-track walk: each road lane's vehicles end where the pair walk over their ascending starting positions puts them; other vehicles, logs and critters stay put |
| PanelB.ResolveRoad | FroggerExample/FroggerExample/src/GamePanel.java:269 | the walk over the road table moves only cars and trucks: each lane walked as `SingleTrack.ResolveTracks` states, logs and critters unmoved |
| PanelB.SpawnLanes | FroggerExample/FroggerExample/src/GamePanel.java:207-260 | over the level's tables, the road, river and critter spawns run in that order over one stream of draws, each lane by lane as `TrafficB` states; each list only grows, by fresh actors off the board from a lane due this tick |
| PanelB.GamePanel.CullPhase | FroggerExample/FroggerExample/src/GamePanel.java:271-276 | each list becomes its own cull, exactly its on-board actors in order, and road lanes that were spaced stay spaced |
| PanelB.CullAll | FroggerExample/FroggerExample/src/GamePanel.java:271-276 | the five culled lists are stocked and exactly the on-board actors, and culling keeps spaced road lanes spaced |
| PanelB.GamePanel.FrogPhase | FroggerExample/FroggerExample/src/GamePanel.java:278-284 | rows score only outside free play; free play leaves score and best row alone |
| PanelB.GamePanel.Judge | FroggerExample/FroggerExample/src/GamePanel.java:286-310 | a hazard hit, or a river row without a log, is a death; a log carries the frog; the goal row advances; otherwise the tick continues |
| PanelB.GamePanel.RiverAndGoal | FroggerExample/FroggerExample/src/GamePanel.java:294-310 | in the river the frog dies or is carried by the first log; at the goal the game moves on |
| PanelB.GamePanel.Advance | FroggerExample/FroggerExample/src/GamePanel.java:304-309 | reaching the goal scores 100 and moves to the blank level 2 without drawing |
| PanelB.GamePanel.Ride | FroggerExample/FroggerExample/src/GamePanel.java:300 | the frog's x becomes the clamp of its truncated x plus the log's speed; y and facing are kept |
| PanelB.GamePanel.CountTick | FroggerExample/FroggerExample/src/GamePanel.java:205 | a running tick counts one more tick and changes nothing else |
| PanelB.GamePanel.TrafficPhases | FroggerExample/FroggerExample/src/GamePanel.java:207-276 | spawn, move, the single-track walk and cull keep the invariant; free play draws nothing |
| PanelB.GamePanel.Tick | FroggerExample/FroggerExample/src/GamePanel.java:203-314 | a paused tick changes nothing; a free-play tick never dies, scores or advances; otherwise, with the frog's row scored as `RowScored` says, Continued keeps that score, Advanced adds 100 and moves to the blank level 2, and Died applies `AfterDeath` to that score, level and lives |
| PanelB.GamePanel.KeyPressed | FroggerExample/FroggerExample/src/GamePanel.java:465-474 | arrow keys move a live frog one tile at once and turn it; P toggles the pause; other keys change nothing |

## Left out

- Rendering is not modelled: `paintComponent`, every `draw`, sprites and `Assets`, the HUD, the help overlay and `repaint`.
- The Swing plumbing is not modelled: the window in `App`, the timer, `addNotify`, `start`, `keyReleased` and `keyTyped`.
- The H key's help flag only affects drawing, so `KeyPressed` leaves it out.
- Random draws come from the stream the panel is built with. Their distribution is not modelled, and only their range and order are.
- Java `int` overflow is not modelled. Every quantity in the game stays far below 2^31.
- IEEE `double` rounding is not modelled: speeds and positions are exact reals. `copySign` ignores negative zero.
- Java's `List.sort` is modelled by its result. `SortByX` is a stable order along the lane, as TimSort's is, and the sorting algorithm is not modelled.
- Variant B's `Car.java`, `Truck.java`, `Log.java` and `Lane.java` are not part of this model.
  - They are modelled with variant A's shape, as `GamePanel` uses them.
  - B's sprite colour (`Car.Kind`) is not modelled. The draw that picks it is consumed.
- Variant B keeps no critter spacing invariant, because B never resolves critter gaps.
- Variant B's spawn space check is at the board edge, while the vehicle enters 12 px beyond it. A newly spawned vehicle is therefore not claimed to be gap clear.
- SingleTrack.ResolveSingleTrack: proves only where the as-written pair walk puts the actors. It does not prove spacing, because the walk does not guarantee spacing (see Findings).
- LaneGaps.Push: adds the one pixel the source's push can fall short by. It keeps the follower's fraction, as the source does.
- LaneGaps.PushFollower: uses the corrected push, so it differs from the source only where the source's push stops a pixel short (see Findings).
- LaneGaps.ResolvedAt: uses the corrected push, so it differs from the source only where the source's push stops a pixel short (see Findings).
- LaneGaps.PushNext: uses the corrected push, so it differs from the source only where the source's push stops a pixel short (see Findings).
- LaneGaps.WalkFollowers: uses the corrected push, so it differs from the source only where the source's push stops a pixel short (see Findings).
- LaneGaps.WalkSorted: uses the corrected push, so it differs from the source only where the source's push stops a pixel short (see Findings).
- LaneGaps.ResolveLaneGaps: uses the corrected push, so it differs from the source only where the source's push stops a pixel short (see Findings).
- LaneResolution.ResolveLane: uses the corrected push, so it differs from the source only where the source's push stops a pixel short (see Findings).
- LaneResolution.ResolveOneLane: uses the corrected push, so it differs from the source only where the source's push stops a pixel short (see Findings).
- LaneResolution.ResolveLanes: uses the corrected push, so it differs from the source only where the source's push stops a pixel short (see Findings).
- LaneResolution.WalkLanes: uses the corrected push, so it differs from the source only where the source's push stops a pixel short (see Findings).
- LaneResolution.WalkLane: uses the corrected push, so it differs from the source only where the source's push stops a pixel short (see Findings).
- PanelA.ResolveTables: uses the corrected push, so it differs from the source only where the source's push stops a pixel short (see Findings).
- PanelA.ResolveTable: uses the corrected push, so it differs from the source only where the source's push stops a pixel short (see Findings).
- PanelA.GamePanel.SettlePhases: uses the corrected push, so it differs from the source only where the source's push stops a pixel short (see Findings).
- PanelA.GamePanel.ResolvePhase: uses the corrected push, so it differs from the source only where the source's push stops a pixel short (see Findings).
- PanelA.GamePanel.TrafficPhases: uses the corrected push, so it differs from the source only where the source's push stops a pixel short (see Findings).
- PanelA.GamePanel.Tick: uses the corrected push, so it differs from the source only where the source's push stops a pixel short (see Findings).
- PanelA.GamePanel.Step: uses the corrected push, so it differs from the source only where the source's push stops a pixel short (see Findings).
- SingleTrack.ResolveTracks: states each lane's walk order as the lane's vehicles with ascending starting positions. It does not state which of two vehicles at the same x comes first; `SingleTrack.ResolveSingleTrack` states the exact stable order for one lane.
- PanelB.GamePanel.Valid: keeps no road spacing, because B's single-track walk does not keep it (see Findings). Only culling is shown to keep spaced lanes spaced.
- LevelA.SeedRoad: bounds the number seeded over all lanes by twice the number of lanes. It does not state the source's bound of two per lane.
- LevelA.SeedRiver: bounds the number seeded over all lanes by twice the number of lanes. It does not state the source's bound of two per lane.
- LevelA.SeedCritters: bounds the number seeded over all lanes by twice the number of lanes. It does not state the source's bound of two per lane.
- LevelB.SeedRoad: bounds the number seeded over all lanes by twice the number of lanes. It does not state the source's bound of two per lane.
- LevelB.SeedRiver: bounds the number seeded over all lanes by twice the number of lanes. It does not state the source's bound of two per lane.
- LevelB.SeedCritters: bounds the number seeded over all lanes by twice the number of lanes. It does not state the source's bound of two per lane.
- PanelA.GamePanel.SetupLevel: bounds the seeded lists by 12 vehicles, 6 logs and 6 critters in all. It does not state the bound of two per lane.
- PanelB.GamePanel.SetupRegular: bounds the seeded lists by 12 vehicles, 6 logs and 6 critters in all. It does not state the bound of two per lane.
- PanelB.SeedTables: bounds the seeded lists by 12 vehicles, 6 logs and 6 critters in all. It does not state the bound of two per lane.
- PanelA.BuildLevel: bounds the seeded lists by 12 vehicles, 6 logs and 6 critters in all. It does not state the bound of two per lane.
- PanelA.SeedTables: bounds the seeded lists by 12 vehicles, 6 logs and 6 critters in all. It does not state the bound of two per lane.
- PanelB.BuildLevel: bounds the seeded lists by 12 vehicles, 6 logs and 6 critters in all. It does not state the bound of two per lane.

## Findings

| source | as written | input that shows it | evidently intended | confidence | as-written member | corrected member |
|---|---|---|---|---|---|---|
| FroggerExample/src/GamePanel.java:296-298 | the follower is pushed by `minX - cr.x`, where `cr.x` is its x truncated toward zero, but the push is added to the untruncated x | leader at x = -100 (width 80), follower at x = -50.5, gap 40, rightward lane: the follower ends at 19.5, whose bounds start at 19, 1 px short of 20, so the widened leader still meets it | after the push the follower's bounds start at least `gap` past the leader | not executed | LaneGaps.PushAsWrittenFallsShort | LaneGaps.Push |
| FroggerExample/FroggerExample/src/GamePanel.java:351-368 | vehicles are sorted by ascending x and fixed pair by pair; on a leftward lane the fix moves the earlier vehicle left, which can break the pair just fixed | three vehicles at x = 0, 100, 150, width 80, speed -1.5, gap 40: the walk leaves them at -20, 30, 150, and the first two overlap | every pair of vehicles in a lane ends at least the gap apart | not executed | SingleTrack.LeftwardPassLeavesOverlap | LaneResolution.ResolveLanes |
