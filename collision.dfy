/**
 * The per-ball body of obj_vs_balls: an axis-aligned overlap test between a ball and an
 * obstacle (a paddle or a block), then a push out of the obstacle and a bounce.
 */
module Collision {
  import opened Vectors

  /** The ball after the test: whether it overlapped, and its new position and velocity. */
  datatype BallHit = BallHit(hit: bool, pos: Vec2, vel: Vec2)

  /** Width of the overlap rectangle (negative when the rectangles are apart in x). */
  function OverlapWidth(ball: Vec2, ballR: Vec2, obj: Vec2, objR: Vec2): real
  {
    Min(obj.x + objR.x, ball.x + ballR.x) - Max(obj.x - objR.x, ball.x - ballR.x)
  }

  /** Height of the overlap rectangle (negative when the rectangles are apart in y). */
  function OverlapHeight(ball: Vec2, ballR: Vec2, obj: Vec2, objR: Vec2): real
  {
    Min(obj.y + objR.y, ball.y + ballR.y) - Max(obj.y - objR.y, ball.y - ballR.y)
  }

  /** The two closed rectangles share at least one point: centres no farther apart than the half-extents' sum. */
  predicate Touching(ball: Vec2, ballR: Vec2, obj: Vec2, objR: Vec2)
  {
    Abs(ball.x - obj.x) <= objR.x + ballR.x && Abs(ball.y - obj.y) <= objR.y + ballR.y
  }

  /**
   * One ball against one obstacle. paddleR is the paddle half-extent, which the source uses
   * (instead of the obstacle's) for the push to the left.
   */
  function Bounce(ball: Vec2, vel: Vec2, obj: Vec2, objR: Vec2, ballR: Vec2, paddleR: Vec2): BallHit
    requires objR.y + ballR.y != 0.0
  {
    var lo := Vec2(Max(obj.x - objR.x, ball.x - ballR.x), Max(obj.y - objR.y, ball.y - ballR.y));
    var hi := Vec2(Min(obj.x + objR.x, ball.x + ballR.x), Min(obj.y + objR.y, ball.y + ballR.y));
    if lo.x > hi.x || lo.y > hi.y then
      BallHit(false, ball, vel)
    else if hi.x - lo.x > hi.y - lo.y then
      // wider overlap in x: bounce in y
      if ball.y > obj.y then
        BallHit(true, Vec2(ball.x, obj.y + objR.y + ballR.y), Vec2(vel.x, Abs(vel.y)))
      else
        BallHit(true, Vec2(ball.x, obj.y - objR.y - ballR.y), Vec2(vel.x, -Abs(vel.y)))
    else
      // wider overlap in y: bounce in x, and steer by the offset from the obstacle's centre
      var pos := if ball.x > obj.x then Vec2(obj.x + objR.x + ballR.x, ball.y)
                 else Vec2(obj.x - paddleR.x - ballR.x, ball.y);
      var vx := if ball.x > obj.x then Abs(vel.x) else -Abs(vel.x);
      var spin := (pos.y - obj.y) / (objR.y + ballR.y);
      BallHit(true, pos, Vec2(vx, Mix(vel.y, spin, 0.75)))
  }

  /**
   * The overlap test is the touching test: with non-negative half-extents a ball is hit exactly
   * when the closed rectangles meet, so rectangles that only share an edge collide.
   */
  lemma HitIffTouching(ball: Vec2, vel: Vec2, obj: Vec2, objR: Vec2, ballR: Vec2, paddleR: Vec2)
    requires objR.x >= 0.0 && objR.y >= 0.0 && ballR.x >= 0.0 && ballR.y >= 0.0
    requires objR.y + ballR.y != 0.0
    ensures Bounce(ball, vel, obj, objR, ballR, paddleR).hit <==> Touching(ball, ballR, obj, objR)
  {
  }

  /** A ball that does not overlap the obstacle is left exactly as it was. */
  lemma MissLeavesBall(ball: Vec2, vel: Vec2, obj: Vec2, objR: Vec2, ballR: Vec2, paddleR: Vec2)
    requires objR.y + ballR.y != 0.0
    ensures var h := Bounce(ball, vel, obj, objR, ballR, paddleR);
      !h.hit ==> h.pos == ball && h.vel == vel
  {
  }

  /**
   * Overlap wider than tall: the ball is put flush against the obstacle's top face (when its
   * centre is above the obstacle's) or bottom face (otherwise), moves away from that face at
   * its old vertical speed, and keeps its x and horizontal velocity.
   */
  lemma VerticalBounce(ball: Vec2, vel: Vec2, obj: Vec2, objR: Vec2, ballR: Vec2, paddleR: Vec2)
    requires objR.y + ballR.y != 0.0
    requires OverlapWidth(ball, ballR, obj, objR) >= 0.0 && OverlapHeight(ball, ballR, obj, objR) >= 0.0
    requires OverlapWidth(ball, ballR, obj, objR) > OverlapHeight(ball, ballR, obj, objR)
    ensures var h := Bounce(ball, vel, obj, objR, ballR, paddleR);
      && h.hit
      && h.pos.x == ball.x && h.vel.x == vel.x
      && Abs(h.vel.y) == Abs(vel.y)
      && (ball.y > obj.y ==> h.pos.y - obj.y == objR.y + ballR.y && h.vel.y >= 0.0)
      && (ball.y <= obj.y ==> obj.y - h.pos.y == objR.y + ballR.y && h.vel.y <= 0.0)
  {
  }

  /**
   * Overlap at least as tall as wide: the ball keeps its y, moves away from the obstacle in x at
   * its old horizontal speed, is put flush against the right face (centre right of the
   * obstacle's) or at the paddle-sized distance to the left, and its vertical velocity becomes
   * the 1:3 blend of the old one with the offset from the obstacle's centre, normalised by the
   * half-heights' sum.
   */
  lemma HorizontalBounce(ball: Vec2, vel: Vec2, obj: Vec2, objR: Vec2, ballR: Vec2, paddleR: Vec2)
    requires objR.y + ballR.y != 0.0
    requires OverlapWidth(ball, ballR, obj, objR) >= 0.0 && OverlapHeight(ball, ballR, obj, objR) >= 0.0
    requires OverlapWidth(ball, ballR, obj, objR) <= OverlapHeight(ball, ballR, obj, objR)
    ensures var h := Bounce(ball, vel, obj, objR, ballR, paddleR);
      && h.hit
      && h.pos.y == ball.y
      && Abs(h.vel.x) == Abs(vel.x)
      && (ball.x > obj.x ==> h.pos.x - obj.x == objR.x + ballR.x && h.vel.x >= 0.0)
      && (ball.x <= obj.x ==> obj.x - h.pos.x == paddleR.x + ballR.x && h.vel.x <= 0.0)
      && h.vel.y == 0.25 * vel.y + 0.75 * ((ball.y - obj.y) / (objR.y + ballR.y))
  {
  }

  /** An offset no larger than the normaliser divides to a value in [-1, 1]. */
  lemma NormalisedOffset(off: real, d: real)
    requires d > 0.0 && -d <= off <= d
    ensures -1.0 <= off / d <= 1.0
  {
    assert (off / d) * d == off;
  }

  /**
   * The steering term is bounded: for a touching ball the normalised offset lies in [-1, 1],
   * so a sideways bounce leaves a vertical speed of at most a quarter of the old one plus 0.75.
   */
  lemma SpinBounded(ball: Vec2, vel: Vec2, obj: Vec2, objR: Vec2, ballR: Vec2, paddleR: Vec2)
    requires objR.x >= 0.0 && ballR.x >= 0.0 && objR.y >= 0.0 && ballR.y >= 0.0
    requires objR.y + ballR.y > 0.0
    requires OverlapWidth(ball, ballR, obj, objR) >= 0.0 && OverlapHeight(ball, ballR, obj, objR) >= 0.0
    requires OverlapWidth(ball, ballR, obj, objR) <= OverlapHeight(ball, ballR, obj, objR)
    ensures Abs(Bounce(ball, vel, obj, objR, ballR, paddleR).vel.y) <= 0.25 * Abs(vel.y) + 0.75
  {
    HitIffTouching(ball, vel, obj, objR, ballR, paddleR);
    NormalisedOffset(ball.y - obj.y, objR.y + ballR.y);
    HorizontalBounce(ball, vel, obj, objR, ballR, paddleR);
  }
}
