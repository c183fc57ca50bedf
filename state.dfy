/**
 * The game state of PongMode as a value: the half-extents, paddles, the three co-indexed ball
 * collections, scores, AI timer, blocks, spawn timer and trail window. The class in Pong keeps
 * the same fields and is proved against functions of this value.
 */
module PongState {
  import opened Vectors
  import opened Blocks
  import opened Trails

  datatype World = World(
    courtRadius: Vec2,
    paddleRadius: Vec2,
    blockRadius: Vec2,
    ballRadius: Vec2,
    leftPaddle: Vec2,
    rightPaddle: Vec2,
    balls: seq<Vec2>,
    ballVelocities: seq<Vec2>,
    leftScore: nat,
    rightScore: nat,
    aiOffset: real,
    aiOffsetUpdate: real,
    blocks: seq<Block>,
    blockSpawn: real,
    blockUpdate: real,
    trailLength: real,
    ballTrails: seq<Trail>)

  /** How many times a score can shrink the court before the floor (3.5, 2.5) stops it. */
  const MAX_SHRINKS: nat := 5

  /**
   * The geometry after k score shrinks from the full-size court: every shrink takes
   * (0.7, 0.5) off the court, (0.02, 0.1) off the paddles, (0.02, 0.02) off the balls and 0.13
   * off the trail window; blocks never change size.
   */
  ghost predicate AtLevel(courtRadius: Vec2, paddleRadius: Vec2, ballRadius: Vec2, blockRadius: Vec2, trailLength: real, k: nat)
  {
    var s := k as real;
    && courtRadius == Vec2(7.0 - 0.7 * s, 5.0 - 0.5 * s)
    && paddleRadius == Vec2(0.2 - 0.02 * s, 1.0 - 0.1 * s)
    && ballRadius == Vec2(0.2 - 0.02 * s, 0.2 - 0.02 * s)
    && blockRadius == Vec2(0.2, 0.2)
    && trailLength == 1.3 - 0.13 * s
  }

  /** A geometry that some sequence of score shrinks and shrink/expand effects can produce. */
  ghost predicate Reachable(courtRadius: Vec2, paddleRadius: Vec2, ballRadius: Vec2, blockRadius: Vec2, trailLength: real)
  {
    exists k: nat :: k <= MAX_SHRINKS && AtLevel(courtRadius, paddleRadius, ballRadius, blockRadius, trailLength, k)
  }

  /**
   * The invariant every tick keeps: balls, ball_velocities and ball_trails have the same length,
   * there is at least one ball, and the geometry is reachable.
   */
  ghost predicate Consistent(w: World)
  {
    && |w.balls| >= 1
    && |w.ballVelocities| == |w.balls|
    && |w.ballTrails| == |w.balls|
    && Reachable(w.courtRadius, w.paddleRadius, w.ballRadius, w.blockRadius, w.trailLength)
  }

  /**
   * What a reachable geometry guarantees: the court never drops below (3.5, 2.5), every
   * half-extent is positive, a paddle fits in the court, and the trail window is positive.
   */
  lemma GeometryBounds(w: World)
    requires Consistent(w)
    ensures 3.5 <= w.courtRadius.x <= 7.0 && 2.5 <= w.courtRadius.y <= 5.0
    ensures w.paddleRadius.x > 0.0 && w.paddleRadius.y > 0.0
    ensures w.ballRadius.x > 0.0 && w.ballRadius.y > 0.0
    ensures w.blockRadius.x > 0.0 && w.blockRadius.y > 0.0
    ensures w.paddleRadius.y < w.courtRadius.y
    ensures w.trailLength >= 0.65
  {
    var k: nat :| k <= MAX_SHRINKS && AtLevel(w.courtRadius, w.paddleRadius, w.ballRadius, w.blockRadius, w.trailLength, k);
  }

  /** The full-size geometry (level 0) and the smallest one (level 5). */
  lemma LevelPresets()
    ensures AtLevel(Vec2(7.0, 5.0), Vec2(0.2, 1.0), Vec2(0.2, 0.2), Vec2(0.2, 0.2), 1.3, 0)
    ensures AtLevel(Vec2(3.5, 2.5), Vec2(0.1, 0.5), Vec2(0.1, 0.1), Vec2(0.2, 0.2), 0.65, MAX_SHRINKS)
  {
  }

  /** The state the constructor builds: one ball at the centre moving left, and one expand block. */
  function Initial(): World
  {
    var courtRadius := Vec2(7.0, 5.0);
    World(
      courtRadius, Vec2(0.2, 1.0), Vec2(0.2, 0.2), Vec2(0.2, 0.2),
      Vec2(-courtRadius.x + 0.5, 0.0), Vec2(courtRadius.x - 0.5, 0.0),
      [Vec2(0.0, 0.0)], [Vec2(-1.0, 0.0)],
      0, 0, 0.0, 0.0,
      [Block(Vec2(0.0, 0.0), Expand)], 3.0, 0.0,
      1.3, [InitialTrail(Vec2(0.0, 0.0), 1.3)])
  }

  /**
   * The initial state is consistent; the paddles sit 0.5 inside the walls, mirror-symmetric at
   * y = 0; scores, AI offset, AI timer and spawn accumulator are 0 and the spawn interval is 3;
   * and each ball's trail holds two samples at its position, aged trail_length and 0, so every
   * trail starts out oldest-first.
   */
  lemma InitialFacts()
    ensures Consistent(Initial())
    ensures var w := Initial();
      && w.leftPaddle == Vec2(-(w.courtRadius.x - 0.5), 0.0)
      && w.rightPaddle == Vec2(w.courtRadius.x - 0.5, 0.0)
      && w.leftPaddle.x == -w.rightPaddle.x
      && w.leftScore == 0 && w.rightScore == 0
      && w.aiOffset == 0.0 && w.aiOffsetUpdate == 0.0
      && w.blockUpdate == 0.0 && w.blockSpawn == 3.0
      && (forall i :: 0 <= i < |w.balls| ==>
           w.ballTrails[i] == [Sample(w.balls[i], w.trailLength), Sample(w.balls[i], 0.0)])
      && AllOldestFirst(w.ballTrails)
  {
    var w := Initial();
    assert AtLevel(w.courtRadius, w.paddleRadius, w.ballRadius, w.blockRadius, w.trailLength, 0);
  }
}
