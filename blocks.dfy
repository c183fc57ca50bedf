/** Power blocks: the BLOCK_TYPE enumeration, the Block record and the colour of each kind. */
module Blocks {
  import opened Vectors

  datatype Option<T> = None | Some(value: T)

  /** BLOCK_TYPE; the constructor order follows the enumerator values 1 to 7. */
  datatype BlockType = Regular | Split | Del | LeftScore | RightScore | Shrink | Expand

  /** A block is an immutable value: its centre and its kind. */
  datatype Block = Block(pos: Vec2, kind: BlockType)

  /** The integer value of each enumerator. */
  function Tag(t: BlockType): (n: int)
    ensures 1 <= n <= 7
  {
    match t
    case Regular => 1
    case Split => 2
    case Del => 3
    case LeftScore => 4
    case RightScore => 5
    case Shrink => 6
    case Expand => 7
  }

  /** The enumerator with a given value, if there is one. */
  function TypeOfTag(n: int): (r: Option<BlockType>)
    ensures r.Some? <==> 1 <= n <= 7
    ensures r.Some? ==> Tag(r.value) == n
  {
    if n == 1 then Some(Regular)
    else if n == 2 then Some(Split)
    else if n == 3 then Some(Del)
    else if n == 4 then Some(LeftScore)
    else if n == 5 then Some(RightScore)
    else if n == 6 then Some(Shrink)
    else if n == 7 then Some(Expand)
    else None
  }

  /** The seven enumerators carry seven distinct values, and each value names its enumerator back. */
  lemma TagsDistinct(s: BlockType, t: BlockType)
    ensures TypeOfTag(Tag(t)) == Some(t)
    ensures Tag(s) == Tag(t) ==> s == t
  {
  }

  /** glm::u8vec4 */
  datatype Rgba = Rgba(r: bv8, g: bv8, b: bv8, a: bv8)

  /** HEX_TO_U8VEC4: the four bytes of 0xRRGGBBAA, most significant first. */
  function HexToRgba(hx: bv32): Rgba
  {
    Rgba(((hx >> 24) & 0xff) as bv8, ((hx >> 16) & 0xff) as bv8, ((hx >> 8) & 0xff) as bv8, (hx & 0xff) as bv8)
  }

  /** The inverse packing of four bytes into 0xRRGGBBAA. */
  function RgbaToHex(c: Rgba): bv32
  {
    (c.r as bv32 << 24) | (c.g as bv32 << 16) | (c.b as bv32 << 8) | c.a as bv32
  }

  /** HEX_TO_U8VEC4 loses nothing: packing its bytes gives the hex value back. */
  lemma HexRoundTrip(hx: bv32)
    ensures RgbaToHex(HexToRgba(hx)) == hx
  {
  }

  /** get_color: the fill colour of each block kind. */
  function BlockColor(t: BlockType): Rgba
  {
    match t
    case Split => HexToRgba(0xffff00ee)
    case Del => HexToRgba(0x000000ff)
    case LeftScore => HexToRgba(0x55ea46ee)
    case RightScore => HexToRgba(0xdc143cee)
    case Shrink => HexToRgba(0x555555ff)
    case Expand => HexToRgba(0x5514eeee)
    case Regular => HexToRgba(0xf2d2b6ff)
  }

  /** Every kind is drawn in its own colour. */
  lemma ColorsDistinct(s: BlockType, t: BlockType)
    requires s != t
    ensures BlockColor(s) != BlockColor(t)
  {
    assert RgbaToHex(BlockColor(s)) != RgbaToHex(BlockColor(t)) by {
      HexRoundTrip(0xffff00ee);
      HexRoundTrip(0x000000ff);
      HexRoundTrip(0x55ea46ee);
      HexRoundTrip(0xdc143cee);
      HexRoundTrip(0x555555ff);
      HexRoundTrip(0x5514eeee);
      HexRoundTrip(0xf2d2b6ff);
    }
  }
}
