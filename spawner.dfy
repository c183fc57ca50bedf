/** The block spawner at the top of update: a timer that adds at most one random block per tick. */
module Spawner {
  import opened Vectors
  import opened Blocks
  import opened PongState

  /** The switch over r % 10: buckets 1 to 6 name the six special kinds, every other bucket a regular block. */
  function SpawnKind(bucket: nat): BlockType
    requires bucket < 10
  {
    if bucket == 1 then Split
    else if bucket == 2 then Del
    else if bucket == 3 then LeftScore
    else if bucket == 4 then RightScore
    else if bucket == 5 then Shrink
    else if bucket == 6 then Expand
    else Regular
  }

  /**
   * Bucket b in 1..6 spawns the kind whose enumerator value is b + 1, so each special kind comes
   * from exactly one bucket; the four buckets 0, 7, 8 and 9 spawn regular blocks.
   */
  lemma SpawnKindBuckets(bucket: nat)
    requires bucket < 10
    ensures SpawnKind(bucket) != Regular <==> 1 <= bucket <= 6
    ensures SpawnKind(bucket) != Regular ==> Tag(SpawnKind(bucket)) == bucket + 1
    ensures forall other: nat :: other < 10 && other != bucket && SpawnKind(other) == SpawnKind(bucket) ==>
      SpawnKind(bucket) == Regular
  {
  }

  /** One spawn coordinate: grid step k of the 8 steps court/5 apart, starting at -4/5 of the half-extent. */
  function SpawnCoord(step: nat, half: real): real
    requires step < 8
  {
    step as real * (half / 5.0) - 4.0 / 5.0 * half
  }

  /**
   * The spawn grid runs from -0.8 to +0.6 of the half-extent in steps of a fifth: a block never
   * spawns in the outer 0.2 on the negative side nor the outer 0.4 on the positive side.
   */
  lemma SpawnCoordRange(step: nat, half: real)
    requires step < 8 && half >= 0.0
    ensures -0.8 * half <= SpawnCoord(step, half) <= 0.6 * half
    ensures SpawnCoord(0, half) == -0.8 * half && SpawnCoord(7, half) == 0.6 * half
    ensures step < 7 ==> SpawnCoord(step + 1, half) - SpawnCoord(step, half) == half / 5.0
  {
    assert step as real * (half / 5.0) <= 7.0 * (half / 5.0);
  }

  /** The spawner: add elapsed; once the accumulator is strictly past the interval, take one interval off and add one block. */
  function SpawnStep(w: World, elapsed: real, typeDraw: U32, xDraw: U32, yDraw: U32): World
  {
    var acc := w.blockUpdate + elapsed;
    if acc > w.blockSpawn then
      var pos := Vec2(SpawnCoord(xDraw % 8, w.courtRadius.x), SpawnCoord(yDraw % 8, w.courtRadius.y));
      w.(blockUpdate := acc - w.blockSpawn, blocks := w.blocks + [Block(pos, SpawnKind(typeDraw % 10))])
    else
      w.(blockUpdate := acc)
  }

  /**
   * A block is added exactly when the accumulator plus elapsed strictly exceeds the interval, and
   * then only one, at the end of the list, of the drawn kind, at the grid point the two coordinate
   * draws pick, which lies inside the spawn band; one interval is taken off the accumulator.
   * Nothing else changes.
   */
  lemma SpawnFacts(w: World, elapsed: real, typeDraw: U32, xDraw: U32, yDraw: U32)
    requires w.courtRadius.x >= 0.0 && w.courtRadius.y >= 0.0
    ensures var r := SpawnStep(w, elapsed, typeDraw, xDraw, yDraw);
      var acc := w.blockUpdate + elapsed;
      && (acc > w.blockSpawn ==>
            && |r.blocks| == |w.blocks| + 1 && r.blocks[..|w.blocks|] == w.blocks
            && r.blockUpdate == acc - w.blockSpawn
            && var b := r.blocks[|w.blocks|];
               && b.kind == SpawnKind(typeDraw % 10)
               && b.pos == Vec2(SpawnCoord(xDraw % 8, w.courtRadius.x), SpawnCoord(yDraw % 8, w.courtRadius.y))
               && -0.8 * w.courtRadius.x <= b.pos.x <= 0.6 * w.courtRadius.x
               && -0.8 * w.courtRadius.y <= b.pos.y <= 0.6 * w.courtRadius.y)
      && (acc <= w.blockSpawn ==> r.blocks == w.blocks && r.blockUpdate == acc)
      && r.(blocks := w.blocks, blockUpdate := w.blockUpdate) == w
  {
    SpawnCoordRange(xDraw % 8, w.courtRadius.x);
    SpawnCoordRange(yDraw % 8, w.courtRadius.y);
  }

  /**
   * The comparison is strict: with a 3-second interval and 1-second ticks from an empty
   * accumulator, the third tick reaches exactly 3 and spawns nothing; the fourth spawns and
   * leaves 1 in the accumulator.
   */
  lemma SpawnOnFourthSecond(w: World, d: U32)
    requires w.blockUpdate == 0.0 && w.blockSpawn == 3.0
    ensures var w3 := SpawnStep(SpawnStep(SpawnStep(w, 1.0, d, d, d), 1.0, d, d, d), 1.0, d, d, d);
      var w4 := SpawnStep(w3, 1.0, d, d, d);
      && w3.blocks == w.blocks && w3.blockUpdate == 3.0
      && |w4.blocks| == |w.blocks| + 1 && w4.blockUpdate == 1.0
  {
  }
}
