/**
 * `Color` and `Frame` of renderer_types.h / renderer_types.cpp.
 *
 * A colour is three channels. Adding colours saturates each channel at 1;
 * scaling does not clamp. A frame is a fixed-size, row-major buffer of
 * WIDTH x HEIGHT colours that the ray tracer overwrites pixel by pixel.
 */
module Colors {
  import opened RealMath

  /**
   * The frame size. The real values come from a header that is not part of
   * this model; any positive sizes do.
   */
  const WIDTH: nat := 800
  const HEIGHT: nat := 600

  datatype Color = Color(r: real, g: real, b: real)

  /** The default constructor `Color()`. */
  function Black(): Color { Color(0.0, 0.0, 0.0) }

  function White(): Color { Color(1.0, 1.0, 1.0) }

  /** `operator+`: each channel is `min(a + b, 1)`. */
  function Add(p: Color, q: Color): Color
  {
    Color(Min(p.r + q.r, 1.0), Min(p.g + q.g, 1.0), Min(p.b + q.b, 1.0))
  }

  /** `Color * float`. */
  function ScaleRight(p: Color, f: real): Color { Color(p.r * f, p.g * f, p.b * f) }

  /** `float * Color`; the source computes it channel by channel in the same order. */
  function ScaleLeft(f: real, p: Color): Color { Color(p.r * f, p.g * f, p.b * f) }

  /** Every channel lies in [0, 1]. */
  predicate InUnitRange(c: Color)
  {
    0.0 <= c.r <= 1.0 && 0.0 <= c.g <= 1.0 && 0.0 <= c.b <= 1.0
  }

  /** The user-defined literal `_c`: red, green and blue bytes, each divided by 255. */
  function FromHex(inc: bv64): Color
  {
    var r := (inc & 0xFF0000) >> 16;
    var g := (inc & 0x00FF00) >> 8;
    var b := inc & 0x0000FF;
    Color(r as nat as real / 255.0, g as nat as real / 255.0, b as nat as real / 255.0)
  }

  /** The literal whose bytes are `r`, `g`, `b`. */
  function Pack(r: bv8, g: bv8, b: bv8): bv64
  {
    ((r as bv64) << 16) | ((g as bv64) << 8) | (b as bv64)
  }

  // ---------------------------------------------------------------- lemmas

  /** Saturating addition: commutative, never above 1, exact when the sum fits, black is neutral in range. */
  lemma AddProperties(p: Color, q: Color)
    ensures Add(p, q) == Add(q, p)
    ensures Add(p, q).r <= 1.0 && Add(p, q).g <= 1.0 && Add(p, q).b <= 1.0
    ensures p.r + q.r <= 1.0 ==> Add(p, q).r == p.r + q.r
    ensures p.r + q.r > 1.0 ==> Add(p, q).r == 1.0
    ensures InUnitRange(p) && InUnitRange(q) ==> InUnitRange(Add(p, q))
    ensures InUnitRange(p) ==> Add(p, Black()) == p
  {
  }

  /** On colours with nonnegative channels, saturating addition is associative. */
  lemma AddAssociative(p: Color, q: Color, s: Color)
    requires p.r >= 0.0 && p.g >= 0.0 && p.b >= 0.0
    requires q.r >= 0.0 && q.g >= 0.0 && q.b >= 0.0
    requires s.r >= 0.0 && s.g >= 0.0 && s.b >= 0.0
    ensures Add(Add(p, q), s) == Add(p, Add(q, s))
  {
  }

  /** Both scaling operators agree, scale every channel, and do not clamp. */
  lemma ScaleProperties(p: Color, f: real)
    ensures ScaleLeft(f, p) == ScaleRight(p, f)
    ensures ScaleRight(p, f) == Color(p.r * f, p.g * f, p.b * f)
    ensures ScaleRight(p, 1.0) == p && ScaleRight(p, 0.0) == Black()
    ensures ScaleRight(White(), 2.0).r == 2.0
  {
  }

  /** Every decoded channel lies in [0, 1]. */
  lemma FromHexInRange(inc: bv64)
    ensures InUnitRange(FromHex(inc))
  {
    assert (inc & 0xFF0000) >> 16 <= 255 && (inc & 0x00FF00) >> 8 <= 255 && inc & 0x0000FF <= 255;
  }

  /** Only the low 24 bits of the literal matter. */
  lemma FromHexIgnoresHighBits(inc: bv64)
    ensures FromHex(inc) == FromHex(inc & 0xFFFFFF)
  {
    var low := inc & 0xFFFFFF;
    assert low & 0xFF0000 == inc & 0xFF0000;
    assert low & 0x00FF00 == inc & 0x00FF00;
    assert low & 0x0000FF == inc & 0x0000FF;
  }

  /** Decoding a packed literal gives back its three bytes over 255. */
  lemma FromHexPack(r: bv8, g: bv8, b: bv8)
    ensures FromHex(Pack(r, g, b)) == Color(r as nat as real / 255.0, g as nat as real / 255.0, b as nat as real / 255.0)
  {
    PackBytes(r, g, b);
    assert (r as bv64) as nat == r as nat && (g as bv64) as nat == g as nat && (b as bv64) as nat == b as nat;
  }

  /** The masks and shifts of `_c` recover the packed bytes. */
  lemma PackBytes(r: bv8, g: bv8, b: bv8)
    ensures (Pack(r, g, b) & 0xFF0000) >> 16 == r as bv64
    ensures (Pack(r, g, b) & 0x00FF00) >> 8 == g as bv64
    ensures Pack(r, g, b) & 0x0000FF == b as bv64
  {
  }

  /** `0xFFFFFF_c` is white and `0_c` is black. */
  lemma FromHexWhiteBlack()
    ensures FromHex(0xFFFFFF) == White()
    ensures FromHex(0) == Black()
  {
    FromHexPack(255, 255, 255);
    assert Pack(255, 255, 255) == 0xFFFFFF;
    FromHexPack(0, 0, 0);
    assert Pack(0, 0, 0) == 0;
  }

  // ---------------------------------------------------------------- the frame

  /** The buffer position of pixel `(x, y)`: row-major, `y * WIDTH + x`. */
  function Index(x: int, y: int): int { y * WIDTH + x }

  /** In-range pixels map one-to-one onto the buffer positions `0 .. WIDTH * HEIGHT - 1`. */
  lemma IndexBijective(x: int, y: int, x': int, y': int)
    requires 0 <= x < WIDTH && 0 <= y < HEIGHT && 0 <= x' < WIDTH && 0 <= y' < HEIGHT
    ensures 0 <= Index(x, y) < WIDTH * HEIGHT
    ensures Index(x, y) == Index(x', y') <==> x == x' && y == y'
    ensures Index(x, y) / WIDTH == y && Index(x, y) % WIDTH == x
  {
    if y < y' {
      assert Index(x, y) < (y + 1) * WIDTH <= Index(x', y');
    } else if y' < y {
      assert Index(x', y') < (y' + 1) * WIDTH <= Index(x, y);
    }
  }

  class Frame {
    var colors: array<Color>

    ghost predicate Valid()
      reads this
    {
      colors.Length == WIDTH * HEIGHT
    }

    /** `Frame()`: WIDTH x HEIGHT pixels, all black. */
    constructor ()
      ensures Valid() && fresh(colors)
      ensures forall i :: 0 <= i < colors.Length ==> colors[i] == Black()
    {
      colors := new Color[WIDTH * HEIGHT](_ => Black());
    }

    /** `getColor(x, y)`. */
    function GetColor(x: int, y: int): Color
      requires Valid() && 0 <= x < WIDTH && 0 <= y < HEIGHT
      reads this, colors
    {
      IndexBijective(x, y, x, y);
      colors[Index(x, y)]
    }

    /** `setColor(x, y, p)`: pixel `(x, y)` becomes `p`, every other pixel keeps its colour. */
    method SetColor(x: int, y: int, p: Color)
      requires Valid() && 0 <= x < WIDTH && 0 <= y < HEIGHT
      modifies colors
      ensures Valid()
      ensures GetColor(x, y) == p
      ensures forall x', y' :: 0 <= x' < WIDTH && 0 <= y' < HEIGHT && (x', y') != (x, y) ==>
        GetColor(x', y') == old(GetColor(x', y'))
    {
      IndexBijective(x, y, x, y);
      colors[Index(x, y)] := p;
      forall x', y' | 0 <= x' < WIDTH && 0 <= y' < HEIGHT && (x', y') != (x, y)
        ensures GetColor(x', y') == old(GetColor(x', y'))
      {
        IndexBijective(x, y, x', y');
      }
    }

    /** `clear()`: a fresh buffer of the same size, all black. */
    method Clear()
      modifies this
      ensures Valid() && fresh(colors)
      ensures forall x, y :: 0 <= x < WIDTH && 0 <= y < HEIGHT ==> GetColor(x, y) == Black()
    {
      colors := new Color[WIDTH * HEIGHT](_ => Black());
      forall x, y | 0 <= x < WIDTH && 0 <= y < HEIGHT
        ensures GetColor(x, y) == Black()
      {
        IndexBijective(x, y, x, y);
      }
    }
  }
}
