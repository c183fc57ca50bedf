/** One call of PongMode::update as a function of the state, the random draws and the speed growth factor. */
module Simulation {
  import opened Vectors
  import opened Trails
  import opened PongState
  import opened BlockScan
  import opened Walls
  import opened Spawner
  import opened Paddles

  /** The five mt19937 outputs one tick may consume, in the order the source draws them. */
  datatype Draws = Draws(blockType: U32, blockX: U32, blockY: U32, aiTimer: U32, aiOffset: U32)

  /**
   * The ball speed factor: four times the growth factor 2^((left + right) / 4), capped at 10 so
   * a ball cannot pass through a paddle in one tick.
   */
  function SpeedMultiplier(growth: real): (s: real)
    ensures s <= 10.0 && s <= 4.0 * growth
    ensures s == 10.0 || s == 4.0 * growth
  {
    Min(4.0 * growth, 10.0)
  }

  /** A ball's position after travelling for elapsed seconds at its velocity scaled by the speed factor. */
  function Moved(ball: Vec2, vel: Vec2, elapsed: real, speed: real): Vec2
  {
    Vec2(ball.x + elapsed * speed * vel.x, ball.y + elapsed * speed * vel.y)
  }

  /** Every ball moves by elapsed times the speed factor times its velocity. */
  function MoveStep(w: World, elapsed: real, speed: real): (r: World)
    requires |w.ballVelocities| == |w.balls|
    ensures |r.balls| == |w.balls| && r.(balls := w.balls) == w
  {
    w.(balls := seq(|w.balls|, i requires 0 <= i < |w.balls| => Moved(w.balls[i], w.ballVelocities[i], elapsed, speed)))
  }

  /** Every ball's trail advanced by one tick, with the ball's current position as its fresh sample. */
  function TrailStep(w: World, elapsed: real): (r: World)
    requires |w.ballTrails| == |w.balls|
    ensures |r.ballTrails| == |w.balls| && r.(ballTrails := w.ballTrails) == w
  {
    w.(ballTrails := seq(|w.balls|, i requires 0 <= i < |w.balls| =>
         NextTrail(w.ballTrails[i], w.balls[i], elapsed, w.trailLength)))
  }

  /** The state after the paddle phase: spawner, AI, clamp. */
  function PaddlePhase(w: World, elapsed: real, d: Draws): (r: World)
    requires Consistent(w)
    ensures Consistent(r) && r.leftScore == w.leftScore && r.rightScore == w.rightScore
  {
    ClampStep(AiStep(SpawnStep(w, elapsed, d.blockType, d.blockX, d.blockY), elapsed, d.aiTimer, d.aiOffset))
  }

  /** The state after moving the balls and bouncing them off both paddles. */
  function PaddleBounces(w: World, elapsed: real, speed: real): (r: World)
    requires Consistent(w)
    ensures Consistent(r) && r.leftScore == w.leftScore && r.rightScore == w.rightScore
  {
    var m := MoveStep(w, elapsed, speed);
    GeometryBounds(m);
    var l := Collide(m, m.leftPaddle, m.paddleRadius).world;
    Collide(l, l.rightPaddle, l.paddleRadius).world
  }

  /**
   * update(elapsed): spawner, AI, paddle clamp, ball motion at the capped speed, both paddles,
   * the block scan, the court walls and finally the trails.
   */
  function Tick(w: World, elapsed: real, d: Draws, growth: real): (r: World)
    requires Consistent(w)
    ensures Consistent(r)
    ensures r.leftScore >= w.leftScore && r.rightScore >= w.rightScore
  {
    var p := PaddlePhase(w, elapsed, d);
    var b := PaddleBounces(p, elapsed, SpeedMultiplier(growth));
    var s := ScanFrom(b, 0).world;
    WallsFromConsistent(s, 0);
    TrailStep(WallsFrom(s, 0), elapsed)
  }

  /** A tick is its phases run one after another. */
  lemma TickPhases(w: World, elapsed: real, d: Draws, growth: real)
    requires Consistent(w)
    ensures var b := PaddleBounces(PaddlePhase(w, elapsed, d), elapsed, SpeedMultiplier(growth));
      Tick(w, elapsed, d, growth) == TrailStep(WallsFrom(ScanFrom(b, 0).world, 0), elapsed)
  {
  }

  /** The trail pass gives every ball a trail ending in its current position at age 0. */
  lemma TrailStepEnds(v: World, elapsed: real)
    requires |v.ballTrails| == |v.balls|
    ensures forall i :: 0 <= i < |v.balls| ==>
      var t := TrailStep(v, elapsed).ballTrails[i];
      && |t| >= 1 && t[|t| - 1] == Sample(v.balls[i], 0.0)
      && (|t| >= 2 ==> t[1].age <= v.trailLength)
  {
    forall i | 0 <= i < |v.balls|
      ensures var t := TrailStep(v, elapsed).ballTrails[i];
        && |t| >= 1 && t[|t| - 1] == Sample(v.balls[i], 0.0)
        && (|t| >= 2 ==> t[1].age <= v.trailLength)
    {
      assert TrailStep(v, elapsed).ballTrails[i] == NextTrail(v.ballTrails[i], v.balls[i], elapsed, v.trailLength);
      NextTrailEnds(v.ballTrails[i], v.balls[i], elapsed, v.trailLength);
    }
  }

  /**
   * With a non-negative window and elapsed time, the trail pass turns non-empty oldest-first
   * trails into oldest-first trails of at least two samples.
   */
  lemma TrailStepOrder(v: World, elapsed: real)
    requires |v.ballTrails| == |v.balls| && elapsed >= 0.0 && v.trailLength >= 0.0
    requires AllOldestFirst(v.ballTrails)
    ensures forall i :: 0 <= i < |v.balls| ==>
      var t := TrailStep(v, elapsed).ballTrails[i];
      |t| >= 2 && OldestFirst(t)
  {
    forall i | 0 <= i < |v.balls|
      ensures var t := TrailStep(v, elapsed).ballTrails[i];
        |t| >= 2 && OldestFirst(t)
    {
      assert TrailStep(v, elapsed).ballTrails[i] == NextTrail(v.ballTrails[i], v.balls[i], elapsed, v.trailLength);
      NextTrailFacts(v.ballTrails[i], v.balls[i], elapsed, v.trailLength);
    }
  }

  /**
   * After a tick every ball still has a trail, whose newest sample is the ball's position at age
   * 0 and whose second sample, if any, lies inside the trail window.
   */
  lemma TickTrails(w: World, elapsed: real, d: Draws, growth: real)
    requires Consistent(w)
    ensures var r := Tick(w, elapsed, d, growth);
      forall i :: 0 <= i < |r.balls| ==>
        var t := r.ballTrails[i];
        && |t| >= 1 && t[|t| - 1] == Sample(r.balls[i], 0.0)
        && (|t| >= 2 ==> t[1].age <= r.trailLength)
  {
    var b := PaddleBounces(PaddlePhase(w, elapsed, d), elapsed, SpeedMultiplier(growth));
    var s := ScanFrom(b, 0).world;
    WallsFromConsistent(s, 0);
    TickPhases(w, elapsed, d, growth);
    TrailStepEnds(WallsFrom(s, 0), elapsed);
  }

  /**
   * Trails stay oldest-first from tick to tick: if every trail is non-empty and oldest-first
   * before a tick with elapsed >= 0, every trail after it is oldest-first with at least two
   * samples. Nothing between the trail passes invents a trail; balls only move and bounce, and
   * the effects copy or drop trails.
   */
  lemma TickTrailOrder(w: World, elapsed: real, d: Draws, growth: real)
    requires Consistent(w) && elapsed >= 0.0 && AllOldestFirst(w.ballTrails)
    ensures var r := Tick(w, elapsed, d, growth);
      forall i :: 0 <= i < |r.ballTrails| ==> |r.ballTrails[i]| >= 2 && OldestFirst(r.ballTrails[i])
  {
    var p := PaddlePhase(w, elapsed, d);
    assert p.ballTrails == w.ballTrails;
    var b := PaddleBounces(p, elapsed, SpeedMultiplier(growth));
    assert b.ballTrails == p.ballTrails by {
      var m := MoveStep(p, elapsed, SpeedMultiplier(growth));
      GeometryBounds(m);
      var l := Collide(m, m.leftPaddle, m.paddleRadius).world;
      assert l.ballTrails == m.ballTrails;
    }
    var s := ScanFrom(b, 0).world;
    ScanCopiesTrails(b, 0);
    CopiedKeepsOrder(s.ballTrails, b.ballTrails);
    var v := WallsFrom(s, 0);
    WallsFromConsistent(s, 0);
    GeometryBounds(v);
    TickPhases(w, elapsed, d, growth);
    TrailStepOrder(v, elapsed);
  }

  /**
   * Right after the paddle phase both paddles lie inside the court, whatever the AI did.
   */
  lemma PaddlesClamped(w: World, elapsed: real, d: Draws)
    requires Consistent(w)
    ensures var r := PaddlePhase(w, elapsed, d);
      && -r.courtRadius.y + r.paddleRadius.y <= r.leftPaddle.y <= r.courtRadius.y - r.paddleRadius.y
      && -r.courtRadius.y + r.paddleRadius.y <= r.rightPaddle.y <= r.courtRadius.y - r.paddleRadius.y
  {
    var a := AiStep(SpawnStep(w, elapsed, d.blockType, d.blockX, d.blockY), elapsed, d.aiTimer, d.aiOffset);
    GeometryBounds(w);
    ClampStepFacts(a);
  }
}
