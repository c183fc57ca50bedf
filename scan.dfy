/**
 * obj_vs_balls over the whole ball list, and the forward scan over the blocks that runs each
 * struck block's effect and erases it in place.
 */
module BlockScan {
  import opened Vectors
  import opened Blocks
  import opened Collision
  import opened PongState
  import opened Effects

  /** What obj_vs_balls returns, with the state it leaves behind. */
  datatype Collided = Collided(hit: bool, world: World)

  /** Every ball tested against the obstacle, in index order. */
  function Hits(w: World, obj: Vec2, objRadius: Vec2): (hs: seq<BallHit>)
    requires |w.ballVelocities| == |w.balls| && objRadius.y + w.ballRadius.y != 0.0
    ensures |hs| == |w.balls|
  {
    seq(|w.balls|, i requires 0 <= i < |w.balls| =>
      Bounce(w.balls[i], w.ballVelocities[i], obj, objRadius, w.ballRadius, w.paddleRadius))
  }

  /** obj_vs_balls: bounce every ball off the obstacle; report whether any ball was hit. */
  function Collide(w: World, obj: Vec2, objRadius: Vec2): (c: Collided)
    requires |w.ballVelocities| == |w.balls| && objRadius.y + w.ballRadius.y != 0.0
    ensures |c.world.balls| == |w.balls| && |c.world.ballVelocities| == |w.balls|
    ensures c.world.(balls := w.balls, ballVelocities := w.ballVelocities) == w
  {
    var hs := Hits(w, obj, objRadius);
    Collided(
      exists i :: 0 <= i < |hs| && hs[i].hit,
      w.(balls := seq(|hs|, i requires 0 <= i < |hs| => hs[i].pos),
         ballVelocities := seq(|hs|, i requires 0 <= i < |hs| => hs[i].vel)))
  }

  /**
   * obj_vs_balls reports a hit exactly when some ball's rectangle touches the obstacle's; a ball
   * that does not touch it keeps its position and velocity, and every other ball gets the
   * response that Bounce describes. Nothing but positions and velocities changes.
   */
  lemma CollideFacts(w: World, obj: Vec2, objRadius: Vec2)
    requires |w.ballVelocities| == |w.balls|
    requires objRadius.x >= 0.0 && objRadius.y >= 0.0 && w.ballRadius.x >= 0.0 && w.ballRadius.y >= 0.0
    requires objRadius.y + w.ballRadius.y != 0.0
    ensures var c := Collide(w, obj, objRadius);
      && (c.hit <==> exists i :: 0 <= i < |w.balls| && Touching(w.balls[i], w.ballRadius, obj, objRadius))
      && (forall i :: 0 <= i < |w.balls| && !Touching(w.balls[i], w.ballRadius, obj, objRadius) ==>
            c.world.balls[i] == w.balls[i] && c.world.ballVelocities[i] == w.ballVelocities[i])
      && (forall i :: 0 <= i < |w.balls| ==>
            var h := Bounce(w.balls[i], w.ballVelocities[i], obj, objRadius, w.ballRadius, w.paddleRadius);
            c.world.balls[i] == h.pos && c.world.ballVelocities[i] == h.vel)
  {
    var hs := Hits(w, obj, objRadius);
    forall i | 0 <= i < |w.balls|
      ensures hs[i].hit <==> Touching(w.balls[i], w.ballRadius, obj, objRadius)
      ensures !hs[i].hit ==> hs[i].pos == w.balls[i] && hs[i].vel == w.ballVelocities[i]
    {
      HitIffTouching(w.balls[i], w.ballVelocities[i], obj, objRadius, w.ballRadius, w.paddleRadius);
      MissLeavesBall(w.balls[i], w.ballVelocities[i], obj, objRadius, w.ballRadius, w.paddleRadius);
    }
  }

  /** The result of a block scan: the final state, the hit verdict of every block visited, in the
   *  blocks' original order, and whether the scan stopped because an effect emptied the list. */
  datatype Scan = Scan(world: World, verdicts: seq<bool>, stopped: bool)

  /** The blocks whose verdict is false, in their original order. */
  function Kept(bs: seq<Block>, verdicts: seq<bool>): (r: seq<Block>)
    requires |verdicts| == |bs|
    ensures |r| <= |bs|
  {
    if bs == [] then []
    else (if verdicts[0] then [] else [bs[0]]) + Kept(bs[1..], verdicts[1..])
  }

  /**
   * The block loop from index counter on: test the block against every ball; on a hit run its
   * effect, then erase it and test the block that slid into its place, or stop if the effect
   * emptied the list.
   */
  function ScanFrom(w: World, counter: nat): (r: Scan)
    requires Consistent(w) && counter <= |w.blocks|
    ensures Consistent(r.world)
    ensures r.world.leftScore >= w.leftScore && r.world.rightScore >= w.rightScore
    decreases |w.blocks| - counter
  {
    if counter == |w.blocks| then Scan(w, [], false)
    else
      GeometryBounds(w);
      var c := Collide(w, w.blocks[counter].pos, w.blockRadius);
      if !c.hit then
        var r := ScanFrom(c.world, counter + 1);
        Scan(r.world, [false] + r.verdicts, r.stopped)
      else
        var after := Effect(c.world, c.world.blocks[counter].kind);
        if |after.blocks| != 0 then
          var r := ScanFrom(after.(blocks := after.blocks[..counter] + after.blocks[counter + 1..]), counter);
          Scan(r.world, [true] + r.verdicts, r.stopped)
        else
          Scan(after, [true], true)
  }

  /** Dropping the first block and its verdict: the first block survives exactly when it was missed. */
  lemma KeptFront(bs: seq<Block>, v: bool, vs: seq<bool>)
    requires |bs| == |vs| + 1
    ensures Kept(bs, [v] + vs) == (if v then [] else [bs[0]]) + Kept(bs[1..], vs)
  {
    assert ([v] + vs)[1..] == vs;
  }

  /** What ScanOutcome promises about one scan. */
  ghost predicate Outcome(w: World, counter: nat, r: Scan)
    requires counter <= |w.blocks|
  {
    && |r.verdicts| <= |w.blocks| - counter
    && (!r.stopped ==>
          && |r.verdicts| == |w.blocks| - counter
          && r.world.blocks == w.blocks[..counter] + Kept(w.blocks[counter..], r.verdicts))
    && (r.stopped ==>
          && r.world.blocks == []
          && |r.verdicts| >= 1 && r.verdicts[|r.verdicts| - 1]
          && w.blocks[counter + |r.verdicts| - 1].kind in {Shrink, Expand})
  }

  /** A missed block: the outcome from the next index extends to this one. */
  lemma MissStep(w: World, v: World, counter: nat, r: Scan)
    requires counter < |w.blocks| && v.blocks == w.blocks
    requires Outcome(v, counter + 1, r)
    ensures Outcome(w, counter, Scan(r.world, [false] + r.verdicts, r.stopped))
  {
    if !r.stopped {
      KeptFront(w.blocks[counter..], false, r.verdicts);
      assert w.blocks[counter..][1..] == w.blocks[counter + 1..];
      assert w.blocks[..counter + 1] == w.blocks[..counter] + [w.blocks[counter]];
    }
  }

  /** A struck and erased block: the outcome over the shortened list extends to the old one. */
  lemma HitStep(w: World, next: World, counter: nat, r: Scan)
    requires counter < |w.blocks|
    requires next.blocks == w.blocks[..counter] + w.blocks[counter + 1..]
    requires Outcome(next, counter, r)
    ensures Outcome(w, counter, Scan(r.world, [true] + r.verdicts, r.stopped))
  {
    assert next.blocks[..counter] == w.blocks[..counter];
    assert next.blocks[counter..] == w.blocks[counter + 1..];
    if !r.stopped {
      KeptFront(w.blocks[counter..], true, r.verdicts);
      assert w.blocks[counter..][1..] == w.blocks[counter + 1..];
    } else {
      assert next.blocks[counter + |r.verdicts| - 1] == w.blocks[counter + |r.verdicts|];
    }
  }

  /**
   * The scan visits every block once, in order, and none is skipped after an erase: when it
   * runs to the end there is one verdict per block from counter on, the blocks before counter
   * are untouched, and exactly the blocks that were not hit survive, in their original relative
   * order. When it stops early, the block list is empty and the last block visited, which was
   * hit, was a shrink or an expand block.
   */
  lemma {:induction false} ScanOutcome(w: World, counter: nat)
    requires Consistent(w) && counter <= |w.blocks|
    ensures Outcome(w, counter, ScanFrom(w, counter))
    decreases |w.blocks| - counter
  {
    if counter < |w.blocks| {
      GeometryBounds(w);
      var c := Collide(w, w.blocks[counter].pos, w.blockRadius);
      if !c.hit {
        ScanOutcome(c.world, counter + 1);
        MissStep(w, c.world, counter, ScanFrom(c.world, counter + 1));
      } else {
        var kind := c.world.blocks[counter].kind;
        var after := Effect(c.world, kind);
        if |after.blocks| != 0 {
          var next := after.(blocks := after.blocks[..counter] + after.blocks[counter + 1..]);
          ScanOutcome(next, counter);
          HitStep(w, next, counter, ScanFrom(next, counter));
        } else {
          assert kind == Shrink || kind == Expand;
        }
      }
    }
  }

  /**
   * The first verdict of a scan is the touching test: the block at counter is reported hit
   * exactly when some ball's rectangle touches the block's, in the state the scan starts from.
   */
  lemma ScanFirstVerdict(w: World, counter: nat)
    requires Consistent(w) && counter < |w.blocks|
    ensures var r := ScanFrom(w, counter);
      && |r.verdicts| >= 1
      && (r.verdicts[0] <==>
            exists i :: 0 <= i < |w.balls| && Touching(w.balls[i], w.ballRadius, w.blocks[counter].pos, w.blockRadius))
  {
    GeometryBounds(w);
    CollideFacts(w, w.blocks[counter].pos, w.blockRadius);
  }

  /** The verdict count of a scan: at most one per block from counter on, and at least one if it stopped. */
  lemma ScanLength(w: World, counter: nat)
    requires Consistent(w) && counter <= |w.blocks|
    ensures var r := ScanFrom(w, counter);
      && |r.verdicts| <= |w.blocks| - counter
      && (r.stopped ==> |r.verdicts| >= 1)
  {
    ScanOutcome(w, counter);
  }

  /** How many of the visited blocks were struck and are of kind k. */
  function StruckOfKind(bs: seq<Block>, verdicts: seq<bool>, k: BlockType): (n: nat)
    requires |verdicts| <= |bs|
    ensures n <= |verdicts|
  {
    if verdicts == [] then 0
    else (if verdicts[0] && bs[0].kind == k then 1 else 0) + StruckOfKind(bs[1..], verdicts[1..], k)
  }

  /** The ball count after one visited block: split doubles it, delete keeps n - floor(n/2). */
  function BallsAfterBlock(n: nat, hit: bool, kind: BlockType): nat
  {
    if !hit then n
    else match kind
      case Split => 2 * n
      case Del => n - n / 2
      case _ => n
  }

  /** The ball count after the struck blocks' effects, applied in scan order. */
  function BallsAfter(n: nat, bs: seq<Block>, verdicts: seq<bool>): nat
    requires |verdicts| <= |bs|
    decreases |verdicts|
  {
    if verdicts == [] then n
    else BallsAfter(BallsAfterBlock(n, verdicts[0], bs[0].kind), bs[1..], verdicts[1..])
  }

  /** Prepending one visited block to the folds. */
  lemma StruckFront(bs: seq<Block>, v: bool, vs: seq<bool>, k: BlockType, n: nat)
    requires |vs| < |bs|
    ensures StruckOfKind(bs, [v] + vs, k) == (if v && bs[0].kind == k then 1 else 0) + StruckOfKind(bs[1..], vs, k)
    ensures BallsAfter(n, bs, [v] + vs) == BallsAfter(BallsAfterBlock(n, v, bs[0].kind), bs[1..], vs)
  {
    assert ([v] + vs)[1..] == vs;
  }

  /** What ScanScores promises about one scan. */
  ghost predicate EffectsCounted(w: World, counter: nat, r: Scan)
    requires counter <= |w.blocks| && |r.verdicts| <= |w.blocks| - counter
  {
    var bs := w.blocks[counter..];
    && r.world.leftScore == w.leftScore + StruckOfKind(bs, r.verdicts, LeftScore)
    && r.world.rightScore == w.rightScore + StruckOfKind(bs, r.verdicts, RightScore)
    && |r.world.balls| == BallsAfter(|w.balls|, bs, r.verdicts)
  }

  /** A missed block: EffectsCounted from the next index extends to this one. */
  lemma CountedMissStep(w: World, v: World, counter: nat, r: Scan)
    requires counter < |w.blocks| && v.blocks == w.blocks
    requires v.leftScore == w.leftScore && v.rightScore == w.rightScore && |v.balls| == |w.balls|
    requires |r.verdicts| <= |v.blocks| - (counter + 1) && EffectsCounted(v, counter + 1, r)
    ensures EffectsCounted(w, counter, Scan(r.world, [false] + r.verdicts, r.stopped))
  {
    var bs := w.blocks[counter..];
    assert bs[1..] == v.blocks[counter + 1..];
    StruckFront(bs, false, r.verdicts, LeftScore, |w.balls|);
    StruckFront(bs, false, r.verdicts, RightScore, |w.balls|);
  }

  /** A struck block: EffectsCounted from the state after its effect and erase extends to this one. */
  lemma CountedHitStep(w: World, next: World, counter: nat, r: Scan)
    requires counter < |w.blocks| && next.blocks == w.blocks[..counter] + w.blocks[counter + 1..]
    requires var k := w.blocks[counter].kind;
      && next.leftScore == w.leftScore + (if k == LeftScore then 1 else 0)
      && next.rightScore == w.rightScore + (if k == RightScore then 1 else 0)
      && |next.balls| == BallsAfterBlock(|w.balls|, true, k)
    requires |r.verdicts| <= |next.blocks| - counter && EffectsCounted(next, counter, r)
    ensures EffectsCounted(w, counter, Scan(r.world, [true] + r.verdicts, r.stopped))
  {
    var bs := w.blocks[counter..];
    assert next.blocks[counter..] == bs[1..];
    StruckFront(bs, true, r.verdicts, LeftScore, |w.balls|);
    StruckFront(bs, true, r.verdicts, RightScore, |w.balls|);
  }

  /**
   * Every struck block has its effect run exactly once, in scan order, and missed blocks have
   * none: each score rises by the number of struck score blocks of its side, and the ball count
   * is the struck split and delete effects applied in order.
   */
  lemma {:induction false} ScanScores(w: World, counter: nat)
    requires Consistent(w) && counter <= |w.blocks|
    ensures var r := ScanFrom(w, counter);
      && |r.verdicts| <= |w.blocks| - counter
      && EffectsCounted(w, counter, r)
    decreases |w.blocks| - counter
  {
    ScanLength(w, counter);
    if counter < |w.blocks| {
      GeometryBounds(w);
      var c := Collide(w, w.blocks[counter].pos, w.blockRadius);
      if !c.hit {
        ScanScores(c.world, counter + 1);
        CountedMissStep(w, c.world, counter, ScanFrom(c.world, counter + 1));
      } else {
        var kind := c.world.blocks[counter].kind;
        var after := Effect(c.world, kind);
        ScoreFacts(c.world);
        if |after.blocks| != 0 {
          var next := after.(blocks := after.blocks[..counter] + after.blocks[counter + 1..]);
          ScanScores(next, counter);
          CountedHitStep(w, next, counter, ScanFrom(next, counter));
        } else {
          StruckFront(w.blocks[counter..], true, [], LeftScore, |w.balls|);
          StruckFront(w.blocks[counter..], true, [], RightScore, |w.balls|);
        }
      }
    }
  }

  /** What ScanStops promises about one scan. */
  ghost predicate PresetsStop(w: World, counter: nat, r: Scan)
    requires counter <= |w.blocks| && |r.verdicts| <= |w.blocks| - counter
  {
    var bs := w.blocks[counter..];
    && (forall j :: 0 <= j < |r.verdicts| && r.verdicts[j] && bs[j].kind in {Shrink, Expand} ==>
          r.stopped && j == |r.verdicts| - 1)
    && (r.stopped && |r.verdicts| >= 1 && bs[|r.verdicts| - 1].kind == Shrink ==>
          && r.world.courtRadius == Vec2(3.5, 2.5) && r.world.paddleRadius == Vec2(0.1, 0.5)
          && r.world.ballRadius == Vec2(0.1, 0.1) && r.world.trailLength == 0.65
          && r.world.leftPaddle == Vec2(-3.25, 0.0) && r.world.rightPaddle == Vec2(3.25, 0.0))
    && (r.stopped && |r.verdicts| >= 1 && bs[|r.verdicts| - 1].kind == Expand ==>
          && r.world.courtRadius == Vec2(7.0, 5.0) && r.world.paddleRadius == Vec2(0.2, 1.0)
          && r.world.ballRadius == Vec2(0.2, 0.2) && r.world.trailLength == 1.3
          && r.world.leftPaddle == Vec2(-6.5, 0.0) && r.world.rightPaddle == Vec2(6.5, 0.0))
  }

  /** A missed block: PresetsStop from the next index extends to this one. */
  lemma PresetsMissStep(w: World, v: World, counter: nat, r: Scan)
    requires counter < |w.blocks| && v.blocks == w.blocks
    requires |r.verdicts| <= |v.blocks| - (counter + 1) && PresetsStop(v, counter + 1, r)
    requires r.stopped ==> |r.verdicts| >= 1
    ensures PresetsStop(w, counter, Scan(r.world, [false] + r.verdicts, r.stopped))
  {
    var bs := w.blocks[counter..];
    var vs := [false] + r.verdicts;
    forall j | 0 <= j < |vs| && vs[j] && bs[j].kind in {Shrink, Expand}
      ensures r.stopped && j == |vs| - 1
    {
      assert bs[j] == v.blocks[counter + 1..][j - 1];
    }
    if r.stopped && |r.verdicts| >= 1 {
      assert bs[|vs| - 1] == v.blocks[counter + 1..][|r.verdicts| - 1];
    }
  }

  /** A struck block that leaves blocks behind: PresetsStop over the shortened list extends to the old one. */
  lemma PresetsHitStep(w: World, next: World, counter: nat, r: Scan)
    requires counter < |w.blocks| && w.blocks[counter].kind !in {Shrink, Expand}
    requires next.blocks == w.blocks[..counter] + w.blocks[counter + 1..]
    requires |r.verdicts| <= |next.blocks| - counter && PresetsStop(next, counter, r)
    requires r.stopped ==> |r.verdicts| >= 1
    ensures PresetsStop(w, counter, Scan(r.world, [true] + r.verdicts, r.stopped))
  {
    var bs := w.blocks[counter..];
    var vs := [true] + r.verdicts;
    assert next.blocks[counter..] == bs[1..];
    forall j | 0 <= j < |vs| && vs[j] && bs[j].kind in {Shrink, Expand}
      ensures r.stopped && j == |vs| - 1
    {
      assert bs[j] == next.blocks[counter..][j - 1];
    }
    if r.stopped && |r.verdicts| >= 1 {
      assert bs[|vs| - 1] == next.blocks[counter..][|r.verdicts| - 1];
    }
  }

  /** A struck block whose effect empties the list: the scan stops there in the block's preset geometry. */
  lemma PresetsLast(w: World, c: World, counter: nat)
    requires counter < |w.blocks| && c.blocks == w.blocks
    requires |c.ballVelocities| == |c.balls| && |c.ballTrails| == |c.balls|
    requires |Effect(c, w.blocks[counter].kind).blocks| == 0
    ensures PresetsStop(w, counter, Scan(Effect(c, w.blocks[counter].kind), [true], true))
  {
    PresetFacts(c);
    assert w.blocks[counter..][0] == w.blocks[counter];
  }

  /**
   * A struck shrink or expand block is always the last block the scan visits: its effect
   * empties the list and the scan stops, ending in that block's preset geometry.
   */
  lemma {:induction false} ScanStops(w: World, counter: nat)
    requires Consistent(w) && counter <= |w.blocks|
    ensures var r := ScanFrom(w, counter);
      && |r.verdicts| <= |w.blocks| - counter
      && PresetsStop(w, counter, r)
    decreases |w.blocks| - counter
  {
    ScanLength(w, counter);
    if counter < |w.blocks| {
      GeometryBounds(w);
      var c := Collide(w, w.blocks[counter].pos, w.blockRadius);
      if !c.hit {
        ScanStops(c.world, counter + 1);
        ScanLength(c.world, counter + 1);
        PresetsMissStep(w, c.world, counter, ScanFrom(c.world, counter + 1));
      } else {
        var kind := c.world.blocks[counter].kind;
        var after := Effect(c.world, kind);
        if |after.blocks| != 0 {
          var next := after.(blocks := after.blocks[..counter] + after.blocks[counter + 1..]);
          ScanStops(next, counter);
          ScanLength(next, counter);
          PresetsHitStep(w, next, counter, ScanFrom(next, counter));
        } else {
          PresetsLast(w, c.world, counter);
        }
      }
    }
  }

  /**
   * The block scan never invents a trail: balls only bounce, and the effects only copy or drop
   * trails, so every trail after the scan is one the balls had before it.
   */
  lemma {:induction false} ScanCopiesTrails(w: World, counter: nat)
    requires Consistent(w) && counter <= |w.blocks|
    ensures forall t :: t in ScanFrom(w, counter).world.ballTrails ==> t in w.ballTrails
    decreases |w.blocks| - counter
  {
    if counter < |w.blocks| {
      GeometryBounds(w);
      var c := Collide(w, w.blocks[counter].pos, w.blockRadius);
      assert c.world.ballTrails == w.ballTrails;
      if !c.hit {
        ScanCopiesTrails(c.world, counter + 1);
      } else {
        var after := Effect(c.world, c.world.blocks[counter].kind);
        EffectCopiesTrails(c.world, c.world.blocks[counter].kind);
        if |after.blocks| != 0 {
          var next := after.(blocks := after.blocks[..counter] + after.blocks[counter + 1..]);
          ScanCopiesTrails(next, counter);
        }
      }
    }
  }
}
