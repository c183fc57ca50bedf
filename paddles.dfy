/** The right player's AI and the clamp of both paddles to the court. */
module Paddles {
  import opened Vectors
  import opened PongState

  /** mt() / float(mt.max()): a 32-bit draw divided by the largest one, so 0 and 1 are both reachable. */
  function UnitDraw(r: U32): (u: real)
    ensures 0.0 <= u <= 1.0
    ensures u == 0.0 <==> r == 0
    ensures u == 1.0 <==> r == 0xffff_ffff
  {
    r as real / 4294967295.0
  }

  /** Move y toward target by at most 2 * elapsed, stopping at the target. */
  function ChaseY(y: real, target: real, elapsed: real): real
  {
    if y < target then Min(target, y + 2.0 * elapsed) else Max(target, y - 2.0 * elapsed)
  }

  /**
   * The chase never overshoots, moves at most 2 * elapsed, reaches a target within that
   * distance, and otherwise covers the full 2 * elapsed toward it.
   */
  lemma ChaseFacts(y: real, target: real, elapsed: real)
    requires elapsed >= 0.0
    ensures var r := ChaseY(y, target, elapsed);
      && Min(y, target) <= r <= Max(y, target)
      && Abs(r - y) <= 2.0 * elapsed
      && (Abs(target - y) <= 2.0 * elapsed ==> r == target)
      && (Abs(target - y) > 2.0 * elapsed ==> Abs(r - y) == 2.0 * elapsed && Abs(target - r) == Abs(target - y) - 2.0 * elapsed)
  {
  }

  /**
   * The AI step: count the offset timer down; when it falls below elapsed, draw a new timer in
   * [0.5, 1] and a new offset in [-1.25, 1.25]; then chase the first ball's y plus the offset.
   */
  function AiStep(w: World, elapsed: real, timerDraw: U32, offsetDraw: U32): World
    requires |w.balls| >= 1
  {
    var timer := w.aiOffsetUpdate - elapsed;
    var w1 := if timer < elapsed then
                w.(aiOffsetUpdate := UnitDraw(timerDraw) * 0.5 + 0.5, aiOffset := UnitDraw(offsetDraw) * 2.5 - 1.25)
              else w.(aiOffsetUpdate := timer);
    w1.(rightPaddle := Vec2(w1.rightPaddle.x, ChaseY(w1.rightPaddle.y, w1.balls[0].y + w1.aiOffset, elapsed)))
  }

  /**
   * The timer is redrawn exactly when it has run below elapsed, and the draws land in
   * [0.5, 1] and [-1.25, 1.25]; otherwise the timer just counts down. The right paddle chases
   * balls[0].y plus the (possibly new) offset; nothing else changes.
   */
  lemma AiFacts(w: World, elapsed: real, timerDraw: U32, offsetDraw: U32)
    requires |w.balls| >= 1
    ensures var r := AiStep(w, elapsed, timerDraw, offsetDraw);
      var redraw := w.aiOffsetUpdate - elapsed < elapsed;
      && (redraw ==> 0.5 <= r.aiOffsetUpdate <= 1.0 && -1.25 <= r.aiOffset <= 1.25)
      && (!redraw ==> r.aiOffsetUpdate == w.aiOffsetUpdate - elapsed && r.aiOffset == w.aiOffset)
      && r.rightPaddle == Vec2(w.rightPaddle.x, ChaseY(w.rightPaddle.y, w.balls[0].y + r.aiOffset, elapsed))
      && r.(aiOffset := w.aiOffset, aiOffsetUpdate := w.aiOffsetUpdate, rightPaddle := w.rightPaddle) == w
  {
  }

  /** std::min(std::max(y, lo), hi) */
  function ClampY(y: real, lo: real, hi: real): real
  {
    Min(Max(y, lo), hi)
  }

  /** Clamping lands in [lo, hi] when that range is not empty, and leaves a value already in it alone. */
  lemma ClampFacts(y: real, lo: real, hi: real)
    ensures lo <= hi ==> lo <= ClampY(y, lo, hi) <= hi
    ensures lo <= y <= hi ==> ClampY(y, lo, hi) == y
    ensures hi < lo ==> ClampY(y, lo, hi) == hi
  {
  }

  /** Both paddles clamped vertically to the court, right then left. */
  function ClampStep(w: World): World
  {
    var lo, hi := -w.courtRadius.y + w.paddleRadius.y, w.courtRadius.y - w.paddleRadius.y;
    w.(rightPaddle := Vec2(w.rightPaddle.x, ClampY(w.rightPaddle.y, lo, hi)),
       leftPaddle := Vec2(w.leftPaddle.x, ClampY(w.leftPaddle.y, lo, hi)))
  }

  /**
   * After the clamp both paddles lie in the court whenever a paddle fits in it; a paddle that
   * already did is not moved; x coordinates and every other field are unchanged.
   */
  lemma ClampStepFacts(w: World)
    ensures var r := ClampStep(w); var lo, hi := -w.courtRadius.y + w.paddleRadius.y, w.courtRadius.y - w.paddleRadius.y;
      && (w.courtRadius.y >= w.paddleRadius.y ==>
            lo <= r.leftPaddle.y <= hi && lo <= r.rightPaddle.y <= hi)
      && (lo <= w.leftPaddle.y <= hi ==> r.leftPaddle == w.leftPaddle)
      && (lo <= w.rightPaddle.y <= hi ==> r.rightPaddle == w.rightPaddle)
      && r.leftPaddle.x == w.leftPaddle.x && r.rightPaddle.x == w.rightPaddle.x
      && r.(leftPaddle := w.leftPaddle, rightPaddle := w.rightPaddle) == w
  {
    var lo, hi := -w.courtRadius.y + w.paddleRadius.y, w.courtRadius.y - w.paddleRadius.y;
    ClampFacts(w.leftPaddle.y, lo, hi);
    ClampFacts(w.rightPaddle.y, lo, hi);
  }
}
