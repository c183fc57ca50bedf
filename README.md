# Pong with power blocks: a verified model of the simulation step

This project models the game-state core of a single-player Pong game with power blocks
(`PongMode`). It covers the following:

- the state record, with its court, paddle, ball and block half-extents, its paddles, three
  co-indexed ball collections, scores, AI timer, blocks, spawn timer and trail window;
- the constructor's entity setup;
- one call of `update(elapsed)`, in the source's order:
  1. the block spawner;
  2. the right-hand AI paddle;
  3. the paddle clamp;
  4. ball motion at the capped speed factor;
  5. `obj_vs_balls` against both paddles;
  6. the forward block scan, which runs `do_effect` on each struck block and erases the block in place;
  7. the court walls, with scoring and the shrink-on-score rule;
  8. the ball trails;
- `do_effect` and `get_color`.

Layout:

- `vectors.dfy` (`Vectors`): `glm::vec2` over the reals, `min`/`max`/`abs`/`mix`, and the 32-bit draw type.
- `blocks.dfy` (`Blocks`): `BLOCK_TYPE`, `Block`, the `HEX_TO_U8VEC4` packing and `get_color`.
- `trails.dfy` (`Trails`): trail samples, the per-ball trail update as a function and as a loop, and its ordering and eviction properties.
- `state.dfy` (`PongState`): the state as a value (`World`), the reachable geometries, the invariant `Consistent`, and the initial state.
- `collision.dfy` (`Collision`): one ball against one obstacle.
- `scan.dfy` (`BlockScan`): `obj_vs_balls` over all balls, and the block scan with its erase-and-step-back index.
- `effects.dfy` (`Effects`): `do_effect`.
- `walls.dfy` (`Walls`): the court walls and the shrink on a score.
- `spawner.dfy` (`Spawner`): the block spawner.
- `paddles.dfy` (`Paddles`): the AI and the paddle clamp.
- `tick.dfy` (`Simulation`): the whole of `update` as a function of the old state.
- `pong_mode.dfy` (`Pong`): class `PongMode`. It has the source's fields, and its methods change them in place. Each method is proved to leave `Model()` equal to the matching function of the old state, and `Update` to keep `Valid()`.

Random draws, which are outputs of the `std::mt19937` generator, are parameters (`Draws`).
The value `2^((left_score + right_score) / 4)` is the parameter `growth`.
Coordinates are reals.

Where the code behaves differently from what its comments or a first reading suggest, the model follows the code:

- After a score shrink a paddle can lie outside the clamp range until the next tick. The clamp runs before the walls, and the shrink moves the limits without clamping again (`Walls.ScoreShrinkLeavesPaddleOutside`). The range is restored by the next tick's clamp (`Simulation.PaddlesClamped`).
- The AI draws divide by `mt.max()`. The new timer therefore lies in [0.5, 1], not the [0.5, 1.0) of the comment at PongMode.cpp:190, and the offset in [-1.25, 1.25]: both endpoints can be reached.
- A state with no balls cannot be reached. Delete keeps n − ⌊n/2⌋ ≥ 1 balls (`Effects.DeleteFacts`), and the AI reads `balls[0]` unconditionally. So `Consistent` demands at least one ball, and the tick keeps that.
- Blocks spawn on an asymmetric grid. It runs from −0.8 to +0.6 of the half-extent, not over a centred 80 %.
- The score shrink moves the left paddle 0.65 right and the right paddle 0.75 left.
- The horizontal push to the left uses `paddle_radius.x`, even for blocks.
- The spawn comparison is strict. An accumulator that reaches the interval exactly does not spawn.
- The constructor places an expand block at the centre, where the ball starts.

## Model

| member | source | states |
|---|---|---|
| Blocks.Tag | PongMode.hpp:16-24 | every enumerator carries a value in 1..7; that the values are distinct and invert is in Blocks.TypeOfTag and Blocks.TagsDistinct |
| Blocks.TypeOfTag | PongMode.hpp:16-24 | the enumerator values are exactly 1..7 and each value names the enumerator carrying it |
| Blocks.TagsDistinct | PongMode.hpp:16-24 | the seven enumerators carry seven distinct values, and value-to-enumerator inverts enumerator-to-value |
| Blocks.HexRoundTrip | PongMode.cpp:641 | HEX_TO_U8VEC4 splits 0xRRGGBBAA into four bytes without loss: packing them gives the value back |
| Blocks.BlockColor | PongMode.cpp:639-651 | no contract of its own; its table is checked by Blocks.ColorsDistinct and its byte split by Blocks.HexRoundTrip |
| Blocks.ColorsDistinct | PongMode.cpp:639-651 | get_color gives every block kind its own colour |
| Trails.Aged | PongMode.cpp:342-344 | ageing keeps the trail's length and every sample's position, and adds elapsed to every sample's age |
| Trails.NextTrail | PongMode.cpp:341-354 | no contract of its own; facts in Trails.NextTrailFacts and Trails.NextTrailEnds |
| Trails.Evicted | PongMode.cpp:351-353 | the eviction loop pops at most all but one sample of a non-empty trail |
| Trails.EvictedExactly | PongMode.cpp:351-353 | each pop happened because the sample behind the front was older than the window, and the loop stops at the first front whose successor is inside it |
| Trails.AgedKeepsOrder | PongMode.cpp:342-347 | ageing every sample by elapsed ≥ 0 and appending (pos, 0) keeps the trail oldest-first with non-negative ages |
| Trails.SuffixKeepsOrder | PongMode.cpp:351-353 | popping from the front keeps the trail oldest-first |
| Trails.NextTrailFacts | PongMode.cpp:341-354 | after one tick a trail is a suffix of the aged samples plus the fresh one: never empty, newest sample (pos, 0), second sample inside the window, an over-age sample kept whenever one existed, a non-empty trail keeps at least two samples when the window is non-negative, oldest-first order kept |
| Trails.CopiedKeepsOrder | PongMode.hpp:74 | a ball collection made only of copies of oldest-first trails is oldest-first |
| Trails.StepTrail | PongMode.cpp:342-353 | the in-place age, push-back and pop-front loops compute the trail update |
| PongState.GeometryBounds | PongMode.cpp:301-312 | in every reachable geometry the court stays within (3.5, 2.5)..(7, 5), all half-extents are positive, a paddle fits in the court, and the trail window is at least 0.65 |
| PongState.LevelPresets | PongMode.cpp:615-631 | the expand preset is the unshrunk geometry and the shrink preset is the geometry after five score shrinks |
| PongState.Initial | PongMode.hpp:50-74 | no contract of its own; facts in PongState.InitialFacts (the one ball, its velocity, its trail and the expand block come from the constructor, PongMode.cpp:11-27) |
| PongState.InitialFacts | PongMode.hpp:50-74 | the initial state is consistent; paddles sit 0.5 inside the walls, mirror-symmetric at y = 0; scores, AI offset, AI timer and spawn accumulator are 0, the spawn interval is 3; each ball's trail is [(pos, trail_length), (pos, 0)], so every trail starts out oldest-first |
| Collision.Bounce | PongMode.cpp:221-252 | no contract of its own; facts in Collision.HitIffTouching, MissLeavesBall, VerticalBounce, HorizontalBounce and SpinBounded |
| Collision.HitIffTouching | PongMode.cpp:225-229 | a ball collides exactly when the closed rectangles meet, so touching edges count |
| Collision.MissLeavesBall | PongMode.cpp:228-229 | a ball that does not overlap keeps its position and velocity |
| Collision.VerticalBounce | PongMode.cpp:231-239 | overlap wider than tall: the ball sits flush on the obstacle's top or bottom face, moves away from it at its old vertical speed, and keeps x and vx |
| Collision.HorizontalBounce | PongMode.cpp:240-251 | otherwise: y is kept, vx points away at its old speed, the ball sits flush on the right face or paddle_radius.x + ball_radius.x to the left, and vy becomes 0.25·vy + 0.75·(ball.y − obj.y)/(obj_r.y + ball_r.y) |
| Collision.SpinBounded | PongMode.cpp:249-251 | the steering term lies in [-1, 1], so after a sideways bounce the absolute vy is at most a quarter of the old one plus 0.75 |
| BlockScan.Collide | PongMode.cpp:221-258 | obj_vs_balls changes only ball positions and velocities, and keeps the ball count |
| BlockScan.CollideFacts | PongMode.cpp:221-258 | obj_vs_balls returns true iff some ball touches the obstacle; untouched balls are unchanged; every ball gets its per-ball bounce |
| BlockScan.ScanFrom | PongMode.cpp:265-277 | the block loop keeps the state consistent and never lowers a score; which effects run is stated in ScanScores and ScanStops, which verdicts are hits in ScanFirstVerdict |
| BlockScan.ScanOutcome | PongMode.cpp:265-277 | every block is visited once, in order, and none is skipped after an erase; run to the end, exactly the missed blocks survive in their original order; stopped early, the list is empty and the last block visited was a struck shrink or expand block |
| BlockScan.ScanFirstVerdict | PongMode.cpp:265-266 | a scan's verdict on the block at counter is the touching test: hit iff some ball's rectangle touches that block's in the state the scan starts from |
| BlockScan.ScanScores | PongMode.cpp:265-277 | each struck block's effect runs once, in scan order, and missed blocks have none: each score rises by the number of struck score blocks of its side, and the ball count is the struck split and delete effects applied in order |
| BlockScan.ScanStops | PongMode.cpp:265-277 | a struck shrink or expand block is always the last block visited and stops the scan, which ends in that block's preset court, paddle, ball and trail geometry |
| BlockScan.ScanCopiesTrails | PongMode.cpp:265-277 | every trail after the block scan is one the balls had before it |
| Effects.Doubled | PongMode.cpp:579-590 | entries 2i and 2i+1 of the doubled list both equal entry i |
| Effects.WithMirrors | PongMode.cpp:585-586 | velocity 2i is velocity i and velocity 2i+1 is its mirror image in y |
| Effects.Effect | PongMode.cpp:571-637 | do_effect keeps the three ball collections co-indexed, keeps a consistent state consistent, only shrink and expand touch the blocks (emptying them), and scores never decrease |
| Effects.SplitBalls | PongMode.cpp:574-597 | no contract of its own; facts in Effects.SplitFacts |
| Effects.DeleteBalls | PongMode.cpp:598-606 | no contract of its own; facts in Effects.DeleteFacts |
| Effects.ShrinkPreset | PongMode.cpp:615-624 | no contract of its own; facts in Effects.PresetFacts |
| Effects.ExpandPreset | PongMode.cpp:625-634 | no contract of its own; facts in Effects.PresetFacts |
| Effects.SplitFacts | PongMode.cpp:574-597 | split turns n balls into 2n, copies ball i's position and trail to 2i and 2i+1, keeps velocity 2i and mirrors velocity 2i+1, and changes nothing else |
| Effects.DeleteFacts | PongMode.cpp:598-606 | delete keeps the first n − ⌊n/2⌋ entries of all three collections unchanged, one ball stays one ball, and nothing else changes |
| Effects.ScoreFacts | PongMode.cpp:607-614 | leftScore and rightScore add exactly one to their counter and regular changes nothing |
| Effects.PresetFacts | PongMode.cpp:615-634 | shrink sets the smallest geometry with paddles at ∓3.25; expand restores exactly the constructor's geometry, paddles and trail window; both empty the blocks and touch nothing else |
| Effects.EffectCopiesTrails | PongMode.cpp:574-606 | every trail after an effect is one the balls had before: split copies trails and delete drops some |
| Effects.SplitCopies | PongMode.cpp:575-595 | the split loop builds the doubled positions and trails and the mirrored velocities |
| Walls.WallTop | PongMode.cpp:281-286 | keeps the number of balls and velocities; the rest is in Walls.WallTopFacts |
| Walls.WallBottom | PongMode.cpp:287-292 | keeps the number of balls and velocities; the rest is in Walls.WallBottomFacts |
| Walls.WallRight | PongMode.cpp:294-314 | keeps the number of balls and velocities and leaves the trails alone; the rest is in Walls.WallRightFacts |
| Walls.WallLeft | PongMode.cpp:315-335 | keeps the number of balls and velocities and leaves the trails alone; the rest is in Walls.WallLeftFacts |
| Walls.ShrinkCourt | PongMode.cpp:303-311 | no contract of its own; Walls.WallRightFacts and Walls.WallLeftFacts state when it applies, Walls.AfterScoreConsistent that it keeps the state consistent |
| Walls.AfterScore | PongMode.cpp:301-312 | no contract of its own; facts in Walls.AfterScoreConsistent and the wall lemmas |
| Walls.WallTopFacts | PongMode.cpp:281-286 | the top wall clamps y to at most court.y − ball.y, a clamped ball ends moving down at the same vertical speed, and nothing else changes |
| Walls.WallBottomFacts | PongMode.cpp:287-292 | the bottom wall clamps y to at least −court.y + ball.y, a clamped ball ends moving up, and nothing else changes |
| Walls.VerticalClamp | PongMode.cpp:281-292 | after both vertical walls the ball lies vertically inside the court |
| Walls.ShrinkCourtFacts | PongMode.cpp:301-312 | the shrink guard fails exactly at the floor (3.5, 2.5), and a shrink moves the geometry one level down so it stays reachable |
| Walls.WallRightFacts | PongMode.cpp:294-314 | the right wall clamps x; the left player scores iff the ball was moving right, which flips vx; the court shrinks iff it also passes the guard, and then the result is exactly one shrink step of the state with the new ball, velocity and score; no other ball or velocity changes, the right score never does, and without a shrink nothing but the ball, its velocity and the left score changes |
| Walls.WallLeftFacts | PongMode.cpp:315-335 | the left wall mirrors the right one, scoring for the right player, with the same frame: no other ball or velocity changes, the left score never does, and only a passing guard changes the geometry, by one shrink step |
| Walls.WallBall | PongMode.cpp:280-336 | the four walls against one ball keep the collections' lengths and the trails, and never lower a score |
| Walls.WallsFrom | PongMode.cpp:280-336 | the wall loop keeps the collections' lengths and the trails, and never lowers a score |
| Walls.AfterScoreConsistent | PongMode.cpp:301-312 | a score, with the shrink it may cause, keeps the state consistent |
| Walls.WallBallConsistent | PongMode.cpp:280-336 | the four walls against one ball keep the state consistent |
| Walls.WallsFromConsistent | PongMode.cpp:280-336 | the whole wall loop keeps the state consistent |
| Walls.ScoreShrinkLeavesPaddleOutside | PongMode.cpp:301-312 | a score shrink can leave a clamped paddle outside the new clamp range |
| Spawner.SpawnKind | PongMode.cpp:161-183 | no contract of its own; facts in Spawner.SpawnKindBuckets |
| Spawner.SpawnCoord | PongMode.cpp:158-159 | no contract of its own; facts in Spawner.SpawnCoordRange |
| Spawner.SpawnStep | PongMode.cpp:150-184 | no contract of its own; facts in Spawner.SpawnFacts and Spawner.SpawnOnFourthSecond |
| Spawner.SpawnKindBuckets | PongMode.cpp:161-183 | buckets 1..6 give the six special kinds, bucket b the kind with value b + 1, each from one bucket only; buckets 0, 7, 8 and 9 give regular blocks |
| Spawner.SpawnCoordRange | PongMode.cpp:158-159 | the spawn grid runs from −0.8 to +0.6 of the half-extent in steps of a fifth |
| Spawner.SpawnFacts | PongMode.cpp:150-184 | a block is added iff accumulator + elapsed strictly exceeds the interval, then one block, at the end, of the kind the type draw picks and at the grid point the two coordinate draws pick, inside the band from −0.8 to +0.6 of the half-extents; one interval is subtracted; nothing else changes |
| Spawner.SpawnOnFourthSecond | PongMode.cpp:150-152 | with a 3 s interval and 1 s ticks, the third tick reaches exactly 3 without spawning and the fourth spawns, leaving 1 |
| Paddles.UnitDraw | PongMode.cpp:191-192 | a draw divided by mt.max() lies in [0, 1], and reaches 0 and 1 exactly at the smallest and largest draw |
| Paddles.ChaseY | PongMode.cpp:194-198 | no contract of its own; facts in Paddles.ChaseFacts |
| Paddles.AiStep | PongMode.cpp:187-199 | no contract of its own; facts in Paddles.AiFacts |
| Paddles.ChaseFacts | PongMode.cpp:194-198 | the AI paddle never overshoots its target, moves at most 2·elapsed, reaches a target within that distance, and otherwise covers exactly 2·elapsed toward it |
| Paddles.AiFacts | PongMode.cpp:187-199 | the timer is redrawn iff it counts down below elapsed, and the redraws land in [0.5, 1] and [-1.25, 1.25]; the right paddle chases balls[0].y plus the offset; nothing else changes |
| Paddles.ClampFacts | PongMode.cpp:202-203 | max-then-min lands in [lo, hi] when that is non-empty and leaves a value already inside alone |
| Paddles.ClampStep | PongMode.cpp:201-206 | no contract of its own; facts in Paddles.ClampStepFacts |
| Paddles.ClampStepFacts | PongMode.cpp:201-206 | after the clamp both paddles lie in the court whenever a paddle fits in it, paddles already inside do not move, and nothing else changes |
| Simulation.SpeedMultiplier | PongMode.cpp:211-214 | the speed factor is 4·growth capped at 10 |
| Simulation.Moved | PongMode.cpp:217 | no contract of its own; one ball's step, applied to every ball by Simulation.MoveStep and Pong.PongMode.MoveBalls |
| Simulation.MoveStep | PongMode.cpp:216-218 | ball motion changes only the ball positions and keeps their number |
| Simulation.TrailStep | PongMode.cpp:341-354 | the trail pass changes only the trails, one per ball |
| Simulation.PaddlePhase | PongMode.cpp:148-206 | spawner, AI and clamp keep the state consistent and leave the scores alone |
| Simulation.PaddleBounces | PongMode.cpp:210-262 | moving the balls and bouncing them off both paddles keeps the state consistent and leaves the scores alone |
| Simulation.Tick | PongMode.cpp:144-355 | one update keeps balls, velocities and trails co-indexed, at least one ball, the geometry reachable (court never below (3.5, 2.5)), and never lowers a score |
| Simulation.TickTrails | PongMode.cpp:341-354 | after an update every ball has a trail whose newest sample is its position at age 0 and whose second sample lies inside the window |
| Simulation.TrailStepOrder | PongMode.cpp:341-354 | the trail pass turns non-empty oldest-first trails into oldest-first trails of at least two samples |
| Simulation.TickTrailOrder | PongMode.cpp:144-355 | trails stay oldest-first from tick to tick: after an update on non-empty oldest-first trails with elapsed ≥ 0, every trail is oldest-first with at least two samples |
| Simulation.PaddlesClamped | PongMode.cpp:201-206 | after the paddle phase both paddles lie inside the court |
| Pong.PongMode.constructor | PongMode.cpp:11-27 | the constructor builds the initial state, with one trail per ball set up as if the ball had been there forever |
| Pong.PongMode.DoEffect | PongMode.cpp:571-637 | do_effect on the fields computes Effect |
| Pong.PongMode.SplitAll | PongMode.cpp:574-597 | the split case replaces the three collections by their doubled and mirrored versions |
| Pong.PongMode.PopHalf | PongMode.cpp:598-606 | the pop_back loop leaves the first n − ⌊n/2⌋ entries of the three collections |
| Pong.PongMode.ShrinkGeometry | PongMode.cpp:615-624 | the shrink case sets the shrink preset |
| Pong.PongMode.ExpandGeometry | PongMode.cpp:625-634 | the expand case sets the expand preset |
| Pong.PongMode.ObjVsBalls | PongMode.cpp:221-258 | the in-place loop over the balls computes Collide, and its result is the hit verdict |
| Pong.PongMode.CollideBlocks | PongMode.cpp:265-277 | the erase-and-decrement loop computes ScanFrom and keeps the state valid |
| Pong.PongMode.ShrinkOnScore | PongMode.cpp:301-312 | the guarded shrink on a score |
| Pong.PongMode.VerticalWalls | PongMode.cpp:281-292 | the top and bottom walls against one ball |
| Pong.PongMode.RightWall | PongMode.cpp:294-314 | the right wall against one ball |
| Pong.PongMode.LeftWall | PongMode.cpp:315-335 | the left wall against one ball |
| Pong.PongMode.WallsForBall | PongMode.cpp:280-336 | the loop body over one ball advances the wall loop by one ball |
| Pong.PongMode.CollideWalls | PongMode.cpp:280-336 | the wall loop computes WallsFrom and keeps the state valid |
| Pong.PongMode.UpdateTrails | PongMode.cpp:341-354 | the trail loop computes TrailStep |
| Pong.PongMode.MoveBalls | PongMode.cpp:216-218 | the motion loop computes MoveStep |
| Pong.PongMode.SpawnBlock | PongMode.cpp:150-184 | the spawner computes SpawnStep |
| Pong.PongMode.MoveAi | PongMode.cpp:187-199 | the AI computes AiStep |
| Pong.PongMode.ClampPaddles | PongMode.cpp:201-206 | the clamp computes ClampStep |
| Pong.PongMode.PaddleUpdate | PongMode.cpp:148-206 | the paddle part of update keeps the state valid |
| Pong.PongMode.BallUpdate | PongMode.cpp:210-262 | motion and paddle bounces keep the state valid |
| Pong.PongMode.Update | PongMode.cpp:144-355 | update keeps the state valid and computes Tick |

## Left out

- OpenGL setup and teardown, `draw`, `handle_event` and the `Mode` base class: these are rendering and input, not simulation state. Because `handle_event` is left out, nothing moves the left paddle.
- `std::mt19937`: each tick's outputs are the parameter `Draws`. Which outputs a tick actually consumes is not modelled: a spawn uses three and an AI redraw two. The generator's sequence across ticks is not modelled either.
- `std::pow`: the value `2^((left_score + right_score) / 4)` is the parameter `growth`.
- Simulation.SpeedMultiplier: it does not state that `growth` is at least 1 or that it grows with the scores, because `pow` is not modelled.
- IEEE float rounding: all coordinates are exact reals, while the program rounds every float operation to single precision. So any computed value can differ slightly, and so can the branch taken at any comparison that lands near its threshold. Examples: with elapsed the float nearest 0.1 (about 0.1000000015, taken as an exact real), the model's spawn accumulator reaches about 3.0000000447 on tick 30 and spawns, while the rounded float sum after 30 ticks is about 2.9999993, so the program spawns on tick 31 (PongMode.cpp:150-151); a trail sample's age against the window (PongMode.cpp:351); the touching test of a collision (PongMode.cpp:229); the wall clamps and scores (PongMode.cpp:281-315); a draw near `mt.max()`, which rounds the unit draw; and the half-extents, which drift from the level values (court_radius.x is about 3.5000007 after five shrinks, not 3.5). The shrink guard still stops after exactly five shrinks, as in the model, because its y test decides it and the y values 5.0, 4.5, 4.0, 3.5, 3.0 and 2.5 are exact in float.
- Paddles.UnitDraw: the exact real quotient of the draw by 2^32 − 1, not the float division. In single precision both `float(mt.max())` and the largest draws round to 2^32, so the float quotient also reaches 1, but at more than one draw.
- `std::cout` logging in `do_effect`.
- 32-bit score wrap-around: scores are unbounded naturals, because 2^32 scores cannot occur in play.
- Collision.Bounce requires `obj_radius.y + ball_radius.y != 0`. In float arithmetic a zero would divide to infinity or NaN. Every reachable geometry has positive half-extents (`PongState.GeometryBounds`), so every call in the model meets the requirement.
- `Block`'s constructor: it stores exactly its two arguments, which is what the datatype does.
- The renderer's use of `trail_length` and `get_color` in `draw`.
