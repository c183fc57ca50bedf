/** do_effect: what striking a block of each kind does to the game state. */
module Effects {
  import opened Vectors
  import opened Blocks
  import opened Trails
  import opened PongState

  /** Every entry of s twice in a row: entries 2i and 2i+1 are s[i]. */
  function Doubled<T>(s: seq<T>): (r: seq<T>)
    ensures |r| == 2 * |s|
    ensures forall i :: 0 <= i < |s| ==> r[2 * i] == s[i] && r[2 * i + 1] == s[i]
  {
    seq(2 * |s|, j requires 0 <= j < 2 * |s| => s[j / 2])
  }

  /** A velocity with its y-component negated (multiplied by vec2(1, -1)). */
  function Mirrored(v: Vec2): Vec2
  {
    Vec2(v.x * 1.0, v.y * -1.0)
  }

  /** Every velocity followed by its mirror image: entry 2i is vels[i], entry 2i+1 its mirror. */
  function WithMirrors(vels: seq<Vec2>): (r: seq<Vec2>)
    ensures |r| == 2 * |vels|
    ensures forall i :: 0 <= i < |vels| ==> r[2 * i] == vels[i] && r[2 * i + 1] == Mirrored(vels[i])
  {
    seq(2 * |vels|, j requires 0 <= j < 2 * |vels| => if j % 2 == 0 then vels[j / 2] else Mirrored(vels[j / 2]))
  }

  /** Doubling one more entry appends it twice. */
  lemma DoubledSnoc<T>(s: seq<T>, x: T)
    ensures Doubled(s + [x]) == Doubled(s) + [x, x]
  {
    var a, b := Doubled(s + [x]), Doubled(s) + [x, x];
    assert |a| == |b|;
    forall j | 0 <= j < |a|
      ensures a[j] == b[j]
    {
      if j < 2 * |s| {
        assert a[j] == (s + [x])[j / 2] == s[j / 2];
      }
    }
  }

  /** Mirroring one more velocity appends it and its mirror. */
  lemma WithMirrorsSnoc(vels: seq<Vec2>, v: Vec2)
    ensures WithMirrors(vels + [v]) == WithMirrors(vels) + [v, Mirrored(v)]
  {
    var a, b := WithMirrors(vels + [v]), WithMirrors(vels) + [v, Mirrored(v)];
    assert |a| == |b|;
    forall j | 0 <= j < |a|
      ensures a[j] == b[j]
    {
      if j < 2 * |vels| {
        assert (vels + [v])[j / 2] == vels[j / 2];
      }
    }
  }

  /** The split effect: every ball is duplicated, the copy flying with its vertical velocity mirrored. */
  function SplitBalls(w: World): World
  {
    w.(balls := Doubled(w.balls), ballVelocities := WithMirrors(w.ballVelocities), ballTrails := Doubled(w.ballTrails))
  }

  /** The delete effect: the last floor(n/2) balls are popped from all three collections. */
  function DeleteBalls(w: World): World
    requires |w.ballVelocities| == |w.balls| && |w.ballTrails| == |w.balls|
  {
    var keep := |w.balls| - |w.balls| / 2;
    w.(balls := w.balls[..keep], ballVelocities := w.ballVelocities[..keep], ballTrails := w.ballTrails[..keep])
  }

  /** The shrink preset: the smallest court, paddles at x = -3.25 and 3.25, no blocks. */
  function ShrinkPreset(w: World): World
  {
    w.(courtRadius := Vec2(3.5, 2.5), paddleRadius := Vec2(0.1, 0.5), ballRadius := Vec2(0.1, 0.1),
       leftPaddle := Vec2(-3.25, 0.0), rightPaddle := Vec2(3.25, 0.0), trailLength := 0.65, blocks := [])
  }

  /** The expand preset: the full-size court, paddles 0.5 inside the walls, no blocks. */
  function ExpandPreset(w: World): World
  {
    var courtRadius := Vec2(7.0, 5.0);
    w.(courtRadius := courtRadius, paddleRadius := Vec2(0.2, 1.0), ballRadius := Vec2(0.2, 0.2),
       leftPaddle := Vec2(-courtRadius.x + 0.5, 0.0), rightPaddle := Vec2(courtRadius.x - 0.5, 0.0),
       trailLength := 1.3, blocks := [])
  }

  /** do_effect on a block of the given kind. */
  function Effect(w: World, kind: BlockType): (r: World)
    requires |w.ballVelocities| == |w.balls| && |w.ballTrails| == |w.balls|
    ensures |r.ballVelocities| == |r.balls| && |r.ballTrails| == |r.balls|
    ensures Consistent(w) ==> Consistent(r)
    ensures r.blocks == w.blocks || r.blocks == []
    ensures kind != Shrink && kind != Expand ==> r.blocks == w.blocks
    ensures r.leftScore >= w.leftScore && r.rightScore >= w.rightScore
  {
    LevelPresets();
    match kind
    case Split => SplitBalls(w)
    case Del => DeleteBalls(w)
    case LeftScore => w.(leftScore := w.leftScore + 1)
    case RightScore => w.(rightScore := w.rightScore + 1)
    case Shrink => ShrinkPreset(w)
    case Expand => ExpandPreset(w)
    case Regular => w
  }

  /**
   * Split turns n balls into 2n: entries 2i and 2i+1 are ball i's position and trail, velocity
   * 2i is ball i's and velocity 2i+1 its mirror; nothing else changes.
   */
  lemma SplitFacts(w: World)
    requires |w.ballVelocities| == |w.balls| && |w.ballTrails| == |w.balls|
    ensures var r := Effect(w, Split);
      && |r.balls| == 2 * |w.balls| && |r.ballVelocities| == |r.balls| && |r.ballTrails| == |r.balls|
      && (forall i :: 0 <= i < |w.balls| ==>
            && r.balls[2 * i] == w.balls[i] && r.balls[2 * i + 1] == w.balls[i]
            && r.ballTrails[2 * i] == w.ballTrails[i] && r.ballTrails[2 * i + 1] == w.ballTrails[i]
            && r.ballVelocities[2 * i] == w.ballVelocities[i]
            && r.ballVelocities[2 * i + 1] == Vec2(w.ballVelocities[i].x, -w.ballVelocities[i].y))
      && r.(balls := w.balls, ballVelocities := w.ballVelocities, ballTrails := w.ballTrails) == w
  {
  }

  /**
   * Delete keeps the first n - floor(n/2) entries of all three collections unchanged and drops
   * the rest; one ball stays one ball, and nothing else changes.
   */
  lemma DeleteFacts(w: World)
    requires |w.ballVelocities| == |w.balls| && |w.ballTrails| == |w.balls|
    ensures var r := Effect(w, Del);
      && |r.balls| == |w.balls| - |w.balls| / 2
      && r.balls == w.balls[..|r.balls|]
      && r.ballVelocities == w.ballVelocities[..|r.balls|]
      && r.ballTrails == w.ballTrails[..|r.balls|]
      && (|w.balls| >= 1 ==> |r.balls| >= 1)
      && r.(balls := w.balls, ballVelocities := w.ballVelocities, ballTrails := w.ballTrails) == w
  {
  }

  /** The score effects add exactly one to their counter, regular blocks change nothing. */
  lemma ScoreFacts(w: World)
    requires |w.ballVelocities| == |w.balls| && |w.ballTrails| == |w.balls|
    ensures Effect(w, LeftScore) == w.(leftScore := w.leftScore + 1)
    ensures Effect(w, RightScore) == w.(rightScore := w.rightScore + 1)
    ensures Effect(w, Regular) == w
  {
  }

  /**
   * Shrink and expand empty the block list and jump to the smallest and the full-size
   * geometry; expand restores exactly the constructor's geometry, paddles and trail window.
   * Neither touches balls, scores or timers.
   */
  lemma PresetFacts(w: World)
    requires |w.ballVelocities| == |w.balls| && |w.ballTrails| == |w.balls|
    ensures var r := Effect(w, Shrink);
      && r.blocks == []
      && AtLevel(r.courtRadius, r.paddleRadius, r.ballRadius, Vec2(0.2, 0.2), r.trailLength, MAX_SHRINKS)
      && r.leftPaddle == Vec2(-3.25, 0.0) && r.rightPaddle == Vec2(3.25, 0.0)
    ensures var r := Effect(w, Expand);
      && r.blocks == []
      && r.courtRadius == Initial().courtRadius && r.paddleRadius == Initial().paddleRadius
      && r.ballRadius == Initial().ballRadius && r.trailLength == Initial().trailLength
      && r.leftPaddle == Initial().leftPaddle && r.rightPaddle == Initial().rightPaddle
    ensures Effect(w, Shrink).(courtRadius := w.courtRadius, paddleRadius := w.paddleRadius,
      ballRadius := w.ballRadius, leftPaddle := w.leftPaddle, rightPaddle := w.rightPaddle,
      trailLength := w.trailLength, blocks := w.blocks) == w
    ensures Effect(w, Expand).(courtRadius := w.courtRadius, paddleRadius := w.paddleRadius,
      ballRadius := w.ballRadius, leftPaddle := w.leftPaddle, rightPaddle := w.rightPaddle,
      trailLength := w.trailLength, blocks := w.blocks) == w
  {
  }

  /** Doubling only repeats entries. */
  lemma DoubledCopies<T>(s: seq<T>)
    ensures forall x :: x in Doubled(s) ==> x in s
  {
    var d := Doubled(s);
    forall x | x in d
      ensures x in s
    {
      var j :| 0 <= j < |d| && d[j] == x;
      var i := j / 2;
      assert j == 2 * i || j == 2 * i + 1;
      assert s[i] == x;
    }
  }

  /** A prefix only keeps entries. */
  lemma PrefixCopies<T>(s: seq<T>, k: nat)
    requires k <= |s|
    ensures forall x :: x in s[..k] ==> x in s
  {
    forall x | x in s[..k]
      ensures x in s
    {
      var j :| 0 <= j < k && s[..k][j] == x;
      assert s[j] == x;
    }
  }

  /**
   * No effect invents a trail: split copies trails and delete drops some, so every trail after
   * an effect is one the balls had before.
   */
  lemma EffectCopiesTrails(w: World, kind: BlockType)
    requires |w.ballVelocities| == |w.balls| && |w.ballTrails| == |w.balls|
    ensures forall t :: t in Effect(w, kind).ballTrails ==> t in w.ballTrails
  {
    match kind
    case Split =>
      assert Effect(w, kind).ballTrails == Doubled(w.ballTrails);
      DoubledCopies(w.ballTrails);
    case Del =>
      var keep := |w.balls| - |w.balls| / 2;
      assert Effect(w, kind).ballTrails == w.ballTrails[..keep];
      PrefixCopies(w.ballTrails, keep);
    case _ =>
      assert Effect(w, kind).ballTrails == w.ballTrails;
  }

  /**
   * The split effect's loop: build the doubled collections entry by entry, each ball pushed
   * twice, its velocity and then its mirror, its trail twice.
   */
  method SplitCopies(balls: seq<Vec2>, velocities: seq<Vec2>, trails: seq<Trail>)
    returns (newBalls: seq<Vec2>, newVelocities: seq<Vec2>, newTrails: seq<Trail>)
    requires |velocities| == |balls| && |trails| == |balls|
    ensures newBalls == Doubled(balls)
    ensures newVelocities == WithMirrors(velocities)
    ensures newTrails == Doubled(trails)
  {
    newBalls, newVelocities, newTrails := [], [], [];
    var i := 0;
    while i < |balls|
      invariant 0 <= i <= |balls|
      invariant newBalls == Doubled(balls[..i])
      invariant newVelocities == WithMirrors(velocities[..i])
      invariant newTrails == Doubled(trails[..i])
    {
      assert balls[..i + 1] == balls[..i] + [balls[i]];
      assert velocities[..i + 1] == velocities[..i] + [velocities[i]];
      assert trails[..i + 1] == trails[..i] + [trails[i]];
      DoubledSnoc(balls[..i], balls[i]);
      WithMirrorsSnoc(velocities[..i], velocities[i]);
      DoubledSnoc(trails[..i], trails[i]);
      newBalls := newBalls + [balls[i], balls[i]];
      newVelocities := newVelocities + [velocities[i], Mirrored(velocities[i])];
      newTrails := newTrails + [trails[i], trails[i]];
      i := i + 1;
    }
    assert balls[..i] == balls && velocities[..i] == velocities && trails[..i] == trails;
  }
}
