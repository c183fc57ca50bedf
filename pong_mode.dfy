/**
 * PongMode as an object whose fields update changes in place. Every method is proved to leave
 * the object in the state that the matching function of PongState, Effects, BlockScan, Walls,
 * Spawner, Paddles and Tick computes from the old state.
 */
module Pong {
  import opened Vectors
  import opened Blocks
  import opened Trails
  import opened PongState
  import opened Collision
  import opened Effects
  import opened BlockScan
  import opened Walls
  import opened Spawner
  import opened Paddles
  import opened Simulation

  class PongMode {
    var courtRadius: Vec2
    var paddleRadius: Vec2
    var blockRadius: Vec2
    var ballRadius: Vec2
    var leftPaddle: Vec2
    var rightPaddle: Vec2
    var balls: seq<Vec2>
    var ballVelocities: seq<Vec2>
    var leftScore: nat
    var rightScore: nat
    var aiOffset: real
    var aiOffsetUpdate: real
    var blocks: seq<Block>
    var blockSpawn: real
    var blockUpdate: real
    var trailLength: real
    var ballTrails: seq<Trail>

    /** The game state held by the fields. */
    function Model(): World
      reads this
    {
      World(courtRadius, paddleRadius, blockRadius, ballRadius, leftPaddle, rightPaddle,
        balls, ballVelocities, leftScore, rightScore, aiOffset, aiOffsetUpdate,
        blocks, blockSpawn, blockUpdate, trailLength, ballTrails)
    }

    ghost predicate Valid()
      reads this
    {
      Consistent(Model())
    }

    /** The game-state part of the constructor: one ball, one expand block, two-sample trails. */
    constructor()
      ensures Model() == Initial() && Valid()
    {
      var court := Vec2(7.0, 5.0);
      courtRadius := court;
      paddleRadius := Vec2(0.2, 1.0);
      blockRadius := Vec2(0.2, 0.2);
      ballRadius := Vec2(0.2, 0.2);
      leftPaddle := Vec2(-court.x + 0.5, 0.0);
      rightPaddle := Vec2(court.x - 0.5, 0.0);
      leftScore, rightScore := 0, 0;
      aiOffset, aiOffsetUpdate := 0.0, 0.0;
      blockSpawn, blockUpdate := 3.0, 0.0;
      trailLength := 1.3;
      balls := [Vec2(0.0, 0.0)];
      ballVelocities := [Vec2(-1.0, 0.0)];
      ballTrails := [[]];
      blocks := [Block(Vec2(0.0, 0.0), Expand)];
      new;
      var i := 0;
      while i < |balls|
        invariant 0 <= i <= |balls| == |ballTrails| == 1
        invariant Model() == Initial().(ballTrails := ballTrails)
        invariant forall j :: 0 <= j < i ==> ballTrails[j] == InitialTrail(balls[j], trailLength)
      {
        var t: Trail := [];
        t := t + [Sample(balls[i], trailLength)];
        t := t + [Sample(balls[i], 0.0)];
        ballTrails := ballTrails[i := t];
        i := i + 1;
      }
      assert ballTrails == [InitialTrail(Vec2(0.0, 0.0), 1.3)];
      InitialFacts();
    }

    /** do_effect: run the effect of a block of the given kind on the fields. */
    method DoEffect(kind: BlockType)
      modifies this
      requires |ballVelocities| == |balls| && |ballTrails| == |balls|
      ensures Model() == Effect(old(Model()), kind)
    {
      match kind
      case Split => SplitAll();
      case Del => PopHalf();
      case LeftScore => leftScore := leftScore + 1;
      case RightScore => rightScore := rightScore + 1;
      case Shrink => ShrinkGeometry();
      case Expand => ExpandGeometry();
      case Regular =>
    }

    /** The split effect: rebuild the three collections with every ball doubled. */
    method SplitAll()
      modifies this
      requires |ballVelocities| == |balls| && |ballTrails| == |balls|
      ensures Model() == SplitBalls(old(Model()))
    {
      var newBalls, newVelocities, newTrails := SplitCopies(balls, ballVelocities, ballTrails);
      balls, ballVelocities, ballTrails := newBalls, newVelocities, newTrails;
    }

    /** Set the court, paddle and ball half-extents. */
    method SetRadii(court: Vec2, paddle: Vec2, ball: Vec2)
      modifies this
      ensures Model() == old(Model()).(courtRadius := court, paddleRadius := paddle, ballRadius := ball)
    {
      courtRadius := court;
      paddleRadius := paddle;
      ballRadius := ball;
    }

    /** Place both paddles. */
    method SetPaddles(left: Vec2, right: Vec2)
      modifies this
      ensures Model() == old(Model()).(leftPaddle := left, rightPaddle := right)
    {
      leftPaddle := left;
      rightPaddle := right;
    }

    /** The shrink effect: the smallest geometry, and no blocks. */
    method ShrinkGeometry()
      modifies this
      ensures Model() == ShrinkPreset(old(Model()))
    {
      SetRadii(Vec2(3.5, 2.5), Vec2(0.1, 0.5), Vec2(0.1, 0.1));
      SetPaddles(Vec2(-3.25, 0.0), Vec2(3.25, 0.0));
      trailLength := 0.65;
      blocks := [];
    }

    /** The expand effect: the full-size geometry, and no blocks. */
    method ExpandGeometry()
      modifies this
      ensures Model() == ExpandPreset(old(Model()))
    {
      SetRadii(Vec2(7.0, 5.0), Vec2(0.2, 1.0), Vec2(0.2, 0.2));
      SetPaddles(Vec2(-courtRadius.x + 0.5, 0.0), Vec2(courtRadius.x - 0.5, 0.0));
      trailLength := 1.3;
      blocks := [];
    }

    /** The delete effect: pop the last floor(n/2) entries of the three ball collections. */
    method PopHalf()
      modifies this
      requires |ballVelocities| == |balls| && |ballTrails| == |balls|
      ensures Model() == DeleteBalls(old(Model()))
    {
      var halfSize := |balls| / 2;
      var newBalls, newVelocities, newTrails := balls, ballVelocities, ballTrails;
      var i := 0;
      while i < halfSize
        invariant 0 <= i <= halfSize
        invariant |newBalls| == |balls| - i == |newVelocities| == |newTrails|
        invariant newBalls == balls[..|newBalls|]
        invariant newVelocities == ballVelocities[..|newBalls|]
        invariant newTrails == ballTrails[..|newBalls|]
      {
        newBalls := newBalls[..|newBalls| - 1];
        newVelocities := newVelocities[..|newVelocities| - 1];
        newTrails := newTrails[..|newTrails| - 1];
        i := i + 1;
      }
      balls, ballVelocities, ballTrails := newBalls, newVelocities, newTrails;
    }

    /** obj_vs_balls: bounce every ball off the obstacle in place; report whether any was hit. */
    method ObjVsBalls(obj: Vec2, objRadius: Vec2) returns (hitSomething: bool)
      modifies this
      requires |ballVelocities| == |balls| && objRadius.y + ballRadius.y != 0.0
      ensures Collided(hitSomething, Model()) == Collide(old(Model()), obj, objRadius)
    {
      ghost var hs := Hits(Model(), obj, objRadius);
      var newBalls, newVelocities := balls, ballVelocities;
      hitSomething := false;
      var i := 0;
      while i < |newBalls|
        invariant 0 <= i <= |newBalls| == |hs| == |newVelocities|
        invariant forall j :: 0 <= j < i ==> newBalls[j] == hs[j].pos && newVelocities[j] == hs[j].vel
        invariant forall j :: i <= j < |newBalls| ==> newBalls[j] == balls[j] && newVelocities[j] == ballVelocities[j]
        invariant hitSomething <==> exists j :: 0 <= j < i && hs[j].hit
      {
        var h := Bounce(newBalls[i], newVelocities[i], obj, objRadius, ballRadius, paddleRadius);
        newBalls := newBalls[i := h.pos];
        newVelocities := newVelocities[i := h.vel];
        assert h == hs[i];
        if h.hit {
          hitSomething := true;
        }
        i := i + 1;
      }
      ghost var c := Collide(Model(), obj, objRadius);
      assert c.world.balls == newBalls && c.world.ballVelocities == newVelocities && c.hit == hitSomething;
      balls, ballVelocities := newBalls, newVelocities;
    }

    /** The block loop: a struck block's effect runs, then the block is erased and the index steps back. */
    method CollideBlocks()
      modifies this
      requires Valid()
      ensures Valid() && Model() == ScanFrom(old(Model()), 0).world
    {
      var counter: int := 0;
      while counter < |blocks|
        invariant Valid() && 0 <= counter <= |blocks|
        invariant ScanFrom(Model(), counter).world == ScanFrom(old(Model()), 0).world
        decreases |blocks| - counter
      {
        ghost var before := Model();
        GeometryBounds(before);
        var hit := ObjVsBalls(blocks[counter].pos, blockRadius);
        if hit {
          DoEffect(blocks[counter].kind);
          if |blocks| != 0 {
            blocks := blocks[..counter] + blocks[counter + 1..];
            counter := counter - 1;
          } else {
            break;
          }
        }
        counter := counter + 1;
      }
    }

    /** A score shrinks the court, unless it is already at its floor. */
    method ShrinkOnScore()
      modifies this
      ensures Model() == AfterScore(old(Model()))
    {
      if courtRadius.x > 3.5 && courtRadius.y > 2.5 {
        SetRadii(Vec2(courtRadius.x - 0.7, courtRadius.y - 0.5), Vec2(paddleRadius.x - 0.02, paddleRadius.y - 0.1),
          Vec2(ballRadius.x - 0.02, ballRadius.y - 0.02));
        SetPaddles(Vec2(leftPaddle.x + (0.7 - 0.05), leftPaddle.y + 0.0), Vec2(rightPaddle.x - (0.7 + 0.05), rightPaddle.y - 0.0));
        trailLength := trailLength - 0.13;
        blocks := [];
      }
    }

    /** The top and bottom walls against ball i. */
    method VerticalWalls(i: nat)
      modifies this
      requires i < |balls| && |ballVelocities| == |balls|
      ensures Model() == WallBottom(WallTop(old(Model()), i), i)
    {
      if balls[i].y > courtRadius.y - ballRadius.y {
        balls := balls[i := Vec2(balls[i].x, courtRadius.y - ballRadius.y)];
        if ballVelocities[i].y > 0.0 {
          ballVelocities := ballVelocities[i := Vec2(ballVelocities[i].x, -ballVelocities[i].y)];
        }
      }
      if balls[i].y < -courtRadius.y + ballRadius.y {
        balls := balls[i := Vec2(balls[i].x, -courtRadius.y + ballRadius.y)];
        if ballVelocities[i].y < 0.0 {
          ballVelocities := ballVelocities[i := Vec2(ballVelocities[i].x, -ballVelocities[i].y)];
        }
      }
    }

    /** The right wall against ball i. */
    method RightWall(i: nat)
      modifies this
      requires i < |balls| && |ballVelocities| == |balls|
      ensures Model() == WallRight(old(Model()), i)
    {
      if balls[i].x > courtRadius.x - ballRadius.x {
        balls := balls[i := Vec2(courtRadius.x - ballRadius.x, balls[i].y)];
        if ballVelocities[i].x > 0.0 {
          ballVelocities := ballVelocities[i := Vec2(-ballVelocities[i].x, ballVelocities[i].y)];
          leftScore := leftScore + 1;
          ShrinkOnScore();
        }
      }
    }

    /** The left wall against ball i. */
    method LeftWall(i: nat)
      modifies this
      requires i < |balls| && |ballVelocities| == |balls|
      ensures Model() == WallLeft(old(Model()), i)
    {
      if balls[i].x < -courtRadius.x + ballRadius.x {
        balls := balls[i := Vec2(-courtRadius.x + ballRadius.x, balls[i].y)];
        if ballVelocities[i].x < 0.0 {
          ballVelocities := ballVelocities[i := Vec2(-ballVelocities[i].x, ballVelocities[i].y)];
          rightScore := rightScore + 1;
          ShrinkOnScore();
        }
      }
    }

    /** The four walls against ball i. */
    method WallsForBall(i: nat)
      modifies this
      requires i < |balls| && |ballVelocities| == |balls|
      ensures Model() == WallBall(old(Model()), i)
      ensures |balls| == old(|balls|) && |ballVelocities| == |balls|
      ensures WallsFrom(old(Model()), i) == WallsFrom(Model(), i + 1)
    {
      VerticalWalls(i);
      RightWall(i);
      LeftWall(i);
      WallsFromStep(old(Model()), i);
    }

    /** The court-wall loop over every ball. */
    method CollideWalls()
      modifies this
      requires Valid()
      ensures Valid() && Model() == WallsFrom(old(Model()), 0)
    {
      var i := 0;
      while i < |balls|
        invariant 0 <= i <= |balls| && |ballVelocities| == |balls|
        invariant WallsFrom(Model(), i) == WallsFrom(old(Model()), 0)
        decreases |balls| - i
      {
        WallsForBall(i);
        i := i + 1;
      }
      WallsFromConsistent(old(Model()), 0);
    }

    /** Age every trail, append each ball's fresh position and evict too-old samples. */
    method UpdateTrails(elapsed: real)
      modifies this
      requires |ballTrails| == |balls|
      ensures Model() == TrailStep(old(Model()), elapsed)
    {
      var i := 0;
      while i < |balls|
        invariant 0 <= i <= |balls| == |ballTrails|
        invariant Model() == old(Model()).(ballTrails := ballTrails)
        invariant forall j :: 0 <= j < i ==> ballTrails[j] == NextTrail(old(ballTrails)[j], balls[j], elapsed, trailLength)
        invariant forall j :: i <= j < |balls| ==> ballTrails[j] == old(ballTrails)[j]
      {
        var t := StepTrail(ballTrails[i], balls[i], elapsed, trailLength);
        ballTrails := ballTrails[i := t];
        i := i + 1;
      }
      assert ballTrails == TrailStep(old(Model()), elapsed).ballTrails;
    }

    /** Move every ball by elapsed times the speed factor times its velocity. */
    method MoveBalls(elapsed: real, speed: real)
      modifies this
      requires |ballVelocities| == |balls|
      ensures Model() == MoveStep(old(Model()), elapsed, speed)
    {
      var i := 0;
      while i < |balls|
        invariant 0 <= i <= |balls| == |ballVelocities|
        invariant Model() == old(Model()).(balls := balls)
        invariant forall j :: 0 <= j < i ==> balls[j] == Moved(old(balls)[j], ballVelocities[j], elapsed, speed)
        invariant forall j :: i <= j < |balls| ==> balls[j] == old(balls)[j]
      {
        balls := balls[i := Moved(balls[i], ballVelocities[i], elapsed, speed)];
        i := i + 1;
      }
      assert balls == MoveStep(old(Model()), elapsed, speed).balls;
    }

    /** The spawner: accumulate elapsed and add at most one block. */
    method SpawnBlock(elapsed: real, typeDraw: U32, xDraw: U32, yDraw: U32)
      modifies this
      ensures Model() == SpawnStep(old(Model()), elapsed, typeDraw, xDraw, yDraw)
    {
      blockUpdate := blockUpdate + elapsed;
      if blockUpdate > blockSpawn {
        blockUpdate := blockUpdate - blockSpawn;
        var randType := typeDraw % 10;
        var randX := SpawnCoord(xDraw % 8, courtRadius.x);
        var randY := SpawnCoord(yDraw % 8, courtRadius.y);
        blocks := blocks + [Block(Vec2(randX, randY), SpawnKind(randType))];
      }
    }

    /** The right player's AI. */
    method MoveAi(elapsed: real, timerDraw: U32, offsetDraw: U32)
      modifies this
      requires |balls| >= 1
      ensures Model() == AiStep(old(Model()), elapsed, timerDraw, offsetDraw)
    {
      aiOffsetUpdate := aiOffsetUpdate - elapsed;
      if aiOffsetUpdate < elapsed {
        aiOffsetUpdate := UnitDraw(timerDraw) * 0.5 + 0.5;
        aiOffset := UnitDraw(offsetDraw) * 2.5 - 1.25;
      }
      if rightPaddle.y < balls[0].y + aiOffset {
        rightPaddle := Vec2(rightPaddle.x, Min(balls[0].y + aiOffset, rightPaddle.y + 2.0 * elapsed));
      } else {
        rightPaddle := Vec2(rightPaddle.x, Max(balls[0].y + aiOffset, rightPaddle.y - 2.0 * elapsed));
      }
    }

    /** Clamp both paddles vertically to the court. */
    method ClampPaddles()
      modifies this
      ensures Model() == ClampStep(old(Model()))
    {
      rightPaddle := Vec2(rightPaddle.x, Max(rightPaddle.y, -courtRadius.y + paddleRadius.y));
      rightPaddle := Vec2(rightPaddle.x, Min(rightPaddle.y, courtRadius.y - paddleRadius.y));
      leftPaddle := Vec2(leftPaddle.x, Max(leftPaddle.y, -courtRadius.y + paddleRadius.y));
      leftPaddle := Vec2(leftPaddle.x, Min(leftPaddle.y, courtRadius.y - paddleRadius.y));
    }

    /** The paddle part of update: spawner, AI, clamp. */
    method PaddleUpdate(elapsed: real, draws: Draws)
      modifies this
      requires Valid()
      ensures Valid() && Model() == PaddlePhase(old(Model()), elapsed, draws)
    {
      SpawnBlock(elapsed, draws.blockType, draws.blockX, draws.blockY);
      MoveAi(elapsed, draws.aiTimer, draws.aiOffset);
      ClampPaddles();
    }

    /** Move the balls and bounce them off both paddles. */
    method BallUpdate(elapsed: real, speed: real)
      modifies this
      requires Valid()
      ensures Valid() && Model() == PaddleBounces(old(Model()), elapsed, speed)
    {
      MoveBalls(elapsed, speed);
      GeometryBounds(Model());
      var hitLeft := ObjVsBalls(leftPaddle, paddleRadius);
      var hitRight := ObjVsBalls(rightPaddle, paddleRadius);
    }

    /**
     * update(elapsed); draws supplies the generator's outputs and growth the value of
     * 2^((left_score + right_score) / 4).
     */
    method Update(elapsed: real, draws: Draws, growth: real)
      modifies this
      requires Valid()
      ensures Valid() && Model() == Tick(old(Model()), elapsed, draws, growth)
    {
      ghost var w := Model();
      PaddleUpdate(elapsed, draws);
      var speedMultiplier := SpeedMultiplier(growth);
      BallUpdate(elapsed, speedMultiplier);
      CollideBlocks();
      CollideWalls();
      UpdateTrails(elapsed);
      TickPhases(w, elapsed, draws, growth);
    }
  }
}
