/**
 * The court-wall pass of update: each ball is clamped against the top, bottom, right and left
 * walls in turn; a ball leaving through a side wall scores for the opposite player and, while
 * the court is above its floor, shrinks the court.
 */
module Walls {
  import opened Vectors
  import opened PongState

  /** The top wall: clamp y to the wall, and turn an upward vertical velocity downward. */
  function WallTop(w: World, i: nat): (r: World)
    requires i < |w.balls| && |w.ballVelocities| == |w.balls|
    ensures |r.balls| == |w.balls| && |r.ballVelocities| == |w.balls|
  {
    var edge := w.courtRadius.y - w.ballRadius.y;
    var b, v := w.balls[i], w.ballVelocities[i];
    if b.y > edge then
      w.(balls := w.balls[i := Vec2(b.x, edge)],
         ballVelocities := if v.y > 0.0 then w.ballVelocities[i := Vec2(v.x, -v.y)] else w.ballVelocities)
    else w
  }

  /** The bottom wall: clamp y to the wall, and turn a downward vertical velocity upward. */
  function WallBottom(w: World, i: nat): (r: World)
    requires i < |w.balls| && |w.ballVelocities| == |w.balls|
    ensures |r.balls| == |w.balls| && |r.ballVelocities| == |w.balls|
  {
    var edge := -w.courtRadius.y + w.ballRadius.y;
    var b, v := w.balls[i], w.ballVelocities[i];
    if b.y < edge then
      w.(balls := w.balls[i := Vec2(b.x, edge)],
         ballVelocities := if v.y < 0.0 then w.ballVelocities[i := Vec2(v.x, -v.y)] else w.ballVelocities)
    else w
  }

  /** The guard on the score shrink: the court is still larger than (3.5, 2.5) in both directions. */
  predicate ShrinkAllowed(w: World)
  {
    w.courtRadius.x > 3.5 && w.courtRadius.y > 2.5
  }

  /**
   * One score shrink: court, paddles and balls get smaller, the left paddle moves 0.65 right,
   * the right paddle 0.75 left, the trail window shortens by 0.13 and every block is removed.
   */
  function ShrinkCourt(w: World): World
  {
    w.(courtRadius := Vec2(w.courtRadius.x - 0.7, w.courtRadius.y - 0.5),
       paddleRadius := Vec2(w.paddleRadius.x - 0.02, w.paddleRadius.y - 0.1),
       ballRadius := Vec2(w.ballRadius.x - 0.02, w.ballRadius.y - 0.02),
       leftPaddle := Vec2(w.leftPaddle.x + (0.7 - 0.05), w.leftPaddle.y + 0.0),
       rightPaddle := Vec2(w.rightPaddle.x - (0.7 + 0.05), w.rightPaddle.y - 0.0),
       trailLength := w.trailLength - 0.13,
       blocks := [])
  }

  /**
   * On a reachable geometry the guard fails exactly at the floor: the court can shrink unless it
   * is already (3.5, 2.5), and a shrink moves the geometry one level down, so it stays reachable.
   */
  lemma ShrinkCourtFacts(w: World)
    requires Consistent(w)
    ensures !ShrinkAllowed(w) <==> w.courtRadius == Vec2(3.5, 2.5)
    ensures ShrinkAllowed(w) ==> Consistent(ShrinkCourt(w))
  {
    var k: nat :| k <= MAX_SHRINKS && AtLevel(w.courtRadius, w.paddleRadius, w.ballRadius, w.blockRadius, w.trailLength, k);
    if ShrinkAllowed(w) {
      var r := ShrinkCourt(w);
      assert AtLevel(r.courtRadius, r.paddleRadius, r.ballRadius, r.blockRadius, r.trailLength, k + 1);
    }
  }

  /** What a score does to the geometry: one shrink if the guard allows it, nothing otherwise. */
  function AfterScore(w: World): World
  {
    if ShrinkAllowed(w) then ShrinkCourt(w) else w
  }

  /** The right wall: clamp x; a ball moving right flips, scores for the left player and may shrink the court. */
  function WallRight(w: World, i: nat): (r: World)
    requires i < |w.balls| && |w.ballVelocities| == |w.balls|
    ensures |r.balls| == |w.balls| && |r.ballVelocities| == |w.balls| && r.ballTrails == w.ballTrails
  {
    var edge := w.courtRadius.x - w.ballRadius.x;
    var b, v := w.balls[i], w.ballVelocities[i];
    if b.x > edge then
      var clamped := w.(balls := w.balls[i := Vec2(edge, b.y)]);
      if v.x > 0.0 then
        AfterScore(clamped.(ballVelocities := w.ballVelocities[i := Vec2(-v.x, v.y)], leftScore := w.leftScore + 1))
      else clamped
    else w
  }

  /** The left wall: clamp x; a ball moving left flips, scores for the right player and may shrink the court. */
  function WallLeft(w: World, i: nat): (r: World)
    requires i < |w.balls| && |w.ballVelocities| == |w.balls|
    ensures |r.balls| == |w.balls| && |r.ballVelocities| == |w.balls| && r.ballTrails == w.ballTrails
  {
    var edge := -w.courtRadius.x + w.ballRadius.x;
    var b, v := w.balls[i], w.ballVelocities[i];
    if b.x < edge then
      var clamped := w.(balls := w.balls[i := Vec2(edge, b.y)]);
      if v.x < 0.0 then
        AfterScore(clamped.(ballVelocities := w.ballVelocities[i := Vec2(-v.x, v.y)], rightScore := w.rightScore + 1))
      else clamped
    else w
  }

  /** The four walls against ball i, in the source's order; each sees the previous one's result. */
  function WallBall(w: World, i: nat): (r: World)
    requires i < |w.balls| && |w.ballVelocities| == |w.balls|
    ensures |r.balls| == |w.balls| && |r.ballVelocities| == |w.balls| && r.ballTrails == w.ballTrails
    ensures r.leftScore >= w.leftScore && r.rightScore >= w.rightScore
  {
    WallLeft(WallRight(WallBottom(WallTop(w, i), i), i), i)
  }

  /** The wall loop from ball i on. */
  function WallsFrom(w: World, i: nat): (r: World)
    requires i <= |w.balls| && |w.ballVelocities| == |w.balls|
    ensures |r.balls| == |w.balls| && |r.ballVelocities| == |w.balls| && r.ballTrails == w.ballTrails
    ensures r.leftScore >= w.leftScore && r.rightScore >= w.rightScore
    decreases |w.balls| - i
  {
    if i == |w.balls| then w else WallsFrom(WallBall(w, i), i + 1)
  }

  /** One more ball of the wall loop. */
  lemma WallsFromStep(w: World, i: nat)
    requires i < |w.balls| && |w.ballVelocities| == |w.balls|
    ensures WallsFrom(w, i) == WallsFrom(WallBall(w, i), i + 1)
  {
  }

  /** A score keeps the state consistent: the shrink it may cause stays within the reachable geometries. */
  lemma AfterScoreConsistent(w: World)
    requires Consistent(w)
    ensures Consistent(AfterScore(w))
  {
    if ShrinkAllowed(w) {
      ShrinkCourtFacts(w);
    }
  }

  /** The four walls against one ball keep the state consistent. */
  lemma WallBallConsistent(w: World, i: nat)
    requires Consistent(w) && i < |w.balls|
    ensures Consistent(WallBall(w, i))
  {
    var t := WallBottom(WallTop(w, i), i);
    assert Consistent(t);
    var edge := t.courtRadius.x - t.ballRadius.x;
    var b, v := t.balls[i], t.ballVelocities[i];
    if b.x > edge && v.x > 0.0 {
      AfterScoreConsistent(t.(balls := t.balls[i := Vec2(edge, b.y)],
        ballVelocities := t.ballVelocities[i := Vec2(-v.x, v.y)], leftScore := t.leftScore + 1));
    }
    var u := WallRight(t, i);
    assert Consistent(u);
    var edge2 := -u.courtRadius.x + u.ballRadius.x;
    var b2, v2 := u.balls[i], u.ballVelocities[i];
    if b2.x < edge2 && v2.x < 0.0 {
      AfterScoreConsistent(u.(balls := u.balls[i := Vec2(edge2, b2.y)],
        ballVelocities := u.ballVelocities[i := Vec2(-v2.x, v2.y)], rightScore := u.rightScore + 1));
    }
  }

  /** The whole wall loop keeps the state consistent. */
  lemma {:induction false} WallsFromConsistent(w: World, i: nat)
    requires Consistent(w) && i <= |w.balls|
    ensures Consistent(WallsFrom(w, i))
    decreases |w.balls| - i
  {
    if i < |w.balls| {
      WallBallConsistent(w, i);
      WallsFromConsistent(WallBall(w, i), i + 1);
    }
  }

  /**
   * The top wall clamps y to at most court.y - ball.y; a clamped ball ends with a non-positive
   * vertical velocity of the same speed, an unclamped one is left alone, and no other ball and
   * no other field changes.
   */
  lemma WallTopFacts(w: World, i: nat)
    requires i < |w.balls| && |w.ballVelocities| == |w.balls|
    ensures var r := WallTop(w, i); var edge := w.courtRadius.y - w.ballRadius.y;
      var b, v := w.balls[i], w.ballVelocities[i];
      && r.balls[i] == Vec2(b.x, Min(b.y, edge))
      && (b.y > edge ==> r.ballVelocities[i] == Vec2(v.x, -Abs(v.y)))
      && (b.y <= edge ==> r.ballVelocities[i] == v)
      && (forall j :: 0 <= j < |w.balls| && j != i ==> r.balls[j] == w.balls[j] && r.ballVelocities[j] == w.ballVelocities[j])
      && r.(balls := w.balls, ballVelocities := w.ballVelocities) == w
  {
  }

  /** The bottom wall, mirrored: y at least -court.y + ball.y, a clamped ball moves up. */
  lemma WallBottomFacts(w: World, i: nat)
    requires i < |w.balls| && |w.ballVelocities| == |w.balls|
    ensures var r := WallBottom(w, i); var edge := -w.courtRadius.y + w.ballRadius.y;
      var b, v := w.balls[i], w.ballVelocities[i];
      && r.balls[i] == Vec2(b.x, Max(b.y, edge))
      && (b.y < edge ==> r.ballVelocities[i] == Vec2(v.x, Abs(v.y)))
      && (b.y >= edge ==> r.ballVelocities[i] == v)
      && (forall j :: 0 <= j < |w.balls| && j != i ==> r.balls[j] == w.balls[j] && r.ballVelocities[j] == w.ballVelocities[j])
      && r.(balls := w.balls, ballVelocities := w.ballVelocities) == w
  {
  }

  /** After the top and the bottom wall a ball lies vertically inside the court. */
  lemma VerticalClamp(w: World, i: nat)
    requires Consistent(w) && i < |w.balls|
    ensures var r := WallBottom(WallTop(w, i), i);
      -w.courtRadius.y + w.ballRadius.y <= r.balls[i].y <= w.courtRadius.y - w.ballRadius.y
  {
    GeometryBounds(w);
    WallTopFacts(w, i);
    WallBottomFacts(WallTop(w, i), i);
  }

  /**
   * The right wall: a ball beyond it is put on it; the left player scores exactly when that ball
   * was moving right, which flips its horizontal velocity and shrinks the court exactly when the
   * guard holds, by exactly one shrink step. No other ball moves; apart from the shrink, only this
   * ball, its velocity and the left score change, and the right score never does.
   */
  lemma WallRightFacts(w: World, i: nat)
    requires i < |w.balls| && |w.ballVelocities| == |w.balls|
    ensures var r := WallRight(w, i); var edge := w.courtRadius.x - w.ballRadius.x;
      var b, v := w.balls[i], w.ballVelocities[i];
      var scored := b.x > edge && v.x > 0.0;
      && r.balls[i] == Vec2(Min(b.x, edge), b.y)
      && r.rightScore == w.rightScore
      && (scored ==> r.leftScore == w.leftScore + 1 && r.ballVelocities[i] == Vec2(-v.x, v.y))
      && (!scored ==> r.leftScore == w.leftScore && r.ballVelocities == w.ballVelocities)
      && (scored && ShrinkAllowed(w) <==> r.courtRadius != w.courtRadius)
      && (forall j :: 0 <= j < |w.balls| && j != i ==> r.balls[j] == w.balls[j] && r.ballVelocities[j] == w.ballVelocities[j])
      && (scored && ShrinkAllowed(w) ==>
            r == ShrinkCourt(w.(balls := r.balls, ballVelocities := r.ballVelocities, leftScore := r.leftScore)))
      && (!(scored && ShrinkAllowed(w)) ==>
            r == w.(balls := r.balls, ballVelocities := r.ballVelocities, leftScore := r.leftScore))
  {
  }

  /** The left wall, mirrored: a ball leaving while moving left scores for the right player. */
  lemma WallLeftFacts(w: World, i: nat)
    requires i < |w.balls| && |w.ballVelocities| == |w.balls|
    ensures var r := WallLeft(w, i); var edge := -w.courtRadius.x + w.ballRadius.x;
      var b, v := w.balls[i], w.ballVelocities[i];
      var scored := b.x < edge && v.x < 0.0;
      && r.balls[i] == Vec2(Max(b.x, edge), b.y)
      && r.leftScore == w.leftScore
      && (scored ==> r.rightScore == w.rightScore + 1 && r.ballVelocities[i] == Vec2(-v.x, v.y))
      && (!scored ==> r.rightScore == w.rightScore && r.ballVelocities == w.ballVelocities)
      && (scored && ShrinkAllowed(w) <==> r.courtRadius != w.courtRadius)
      && (forall j :: 0 <= j < |w.balls| && j != i ==> r.balls[j] == w.balls[j] && r.ballVelocities[j] == w.ballVelocities[j])
      && (scored && ShrinkAllowed(w) ==>
            r == ShrinkCourt(w.(balls := r.balls, ballVelocities := r.ballVelocities, rightScore := r.rightScore)))
      && (!(scored && ShrinkAllowed(w)) ==>
            r == w.(balls := r.balls, ballVelocities := r.ballVelocities, rightScore := r.rightScore))
  {
  }

  /**
   * A score can leave a paddle outside the clamp range: the paddles were clamped before the
   * walls ran, and the shrink that follows the score reduces the range without clamping again.
   */
  lemma ScoreShrinkLeavesPaddleOutside()
    ensures var w := Initial().(leftPaddle := Vec2(-6.5, 4.0), balls := [Vec2(7.0, 0.0)], ballVelocities := [Vec2(1.0, 0.0)]);
      var r := WallRight(w, 0);
      && w.courtRadius.y - w.paddleRadius.y >= w.leftPaddle.y
      && r.leftPaddle.y > r.courtRadius.y - r.paddleRadius.y
  {
  }
}
