/** The small part of glm's float vector algebra that the simulation uses, over the reals. */
module Vectors {

  /** glm::vec2 */
  datatype Vec2 = Vec2(x: real, y: real)

  /** The output of the Mersenne twister: an unsigned 32-bit value. */
  type U32 = r: nat | r < 0x1_0000_0000

  /** std::min / glm::min on one component */
  function Min(a: real, b: real): (r: real)
    ensures r <= a && r <= b
    ensures r == a || r == b
  {
    if b < a then b else a
  }

  /** std::max / glm::max on one component */
  function Max(a: real, b: real): (r: real)
    ensures r >= a && r >= b
    ensures r == a || r == b
  {
    if a < b then b else a
  }

  /** std::abs */
  function Abs(a: real): (r: real)
    ensures r >= 0.0
    ensures r == a || r == -a
  {
    if a < 0.0 then -a else a
  }

  /** glm::mix: linear interpolation from a (t = 0) to b (t = 1) */
  function Mix(a: real, b: real, t: real): real
  {
    a * (1.0 - t) + b * t
  }
}
