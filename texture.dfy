/**
 * `Renderer::getTextureData` of renderer.cpp: the frame flattened, row by
 * row, into the RGBA float array that is uploaded as a texture.
 */
module Texture {
  import opened Colors

  /** The RGBA values of `cs` in order: red, green, blue and an alpha of 1 per colour. */
  function Flatten(cs: seq<Color>): seq<real>
  {
    if |cs| == 0 then []
    else Flatten(cs[..|cs| - 1]) + [cs[|cs| - 1].r, cs[|cs| - 1].g, cs[|cs| - 1].b, 1.0]
  }

  /** Colour `i` occupies positions `4 i` to `4 i + 3`. */
  lemma {:induction false} FlattenLayout(cs: seq<Color>)
    ensures |Flatten(cs)| == 4 * |cs|
    ensures forall i :: 0 <= i < |cs| ==>
      Flatten(cs)[4 * i] == cs[i].r && Flatten(cs)[4 * i + 1] == cs[i].g &&
      Flatten(cs)[4 * i + 2] == cs[i].b && Flatten(cs)[4 * i + 3] == 1.0
  {
    if |cs| > 0 {
      var init := cs[..|cs| - 1];
      FlattenLayout(init);
      forall i | 0 <= i < |cs| - 1
        ensures Flatten(cs)[4 * i] == cs[i].r && Flatten(cs)[4 * i + 1] == cs[i].g
        ensures Flatten(cs)[4 * i + 2] == cs[i].b && Flatten(cs)[4 * i + 3] == 1.0
      {
        assert cs[i] == init[i];
      }
    }
  }

  /** One more pixel appends its four values. */
  lemma FlattenSnoc(cs: seq<Color>, n: nat)
    requires n < |cs|
    ensures Flatten(cs[..n + 1]) == Flatten(cs[..n]) + [cs[n].r, cs[n].g, cs[n].b, 1.0]
  {
    assert cs[..n + 1][..n] == cs[..n];
  }

  /**
   * `getTextureData(frame)`: for every row `y` and every column `x`, the
   * colour of pixel `(x, y)` pushed as four floats. The frame is only read.
   */
  method GetTextureData(frame: Frame) returns (tex: seq<real>)
    requires frame.Valid()
    ensures tex == Flatten(frame.colors[..])
    ensures |tex| == 4 * WIDTH * HEIGHT
    ensures forall x, y :: 0 <= x < WIDTH && 0 <= y < HEIGHT ==>
      var c := frame.GetColor(x, y);
      tex[4 * Index(x, y)] == c.r && tex[4 * Index(x, y) + 1] == c.g &&
      tex[4 * Index(x, y) + 2] == c.b && tex[4 * Index(x, y) + 3] == 1.0
  {
    tex := [];
    var y := 0;
    while y < HEIGHT
      invariant 0 <= y <= HEIGHT
      invariant tex == Flatten(frame.colors[..y * WIDTH])
    {
      var x := 0;
      while x < WIDTH
        invariant 0 <= x <= WIDTH
        invariant tex == Flatten(frame.colors[..y * WIDTH + x])
      {
        var c := frame.GetColor(x, y);
        FlattenSnoc(frame.colors[..], Index(x, y));
        assert frame.colors[..][..Index(x, y)] == frame.colors[..y * WIDTH + x];
        assert frame.colors[..][..Index(x, y) + 1] == frame.colors[..y * WIDTH + x + 1];
        tex := tex + [c.r];
        tex := tex + [c.g];
        tex := tex + [c.b];
        tex := tex + [1.0];
        x := x + 1;
      }
      y := y + 1;
    }
    assert frame.colors[..HEIGHT * WIDTH] == frame.colors[..];
    FlattenLayout(frame.colors[..]);
    forall x, y | 0 <= x < WIDTH && 0 <= y < HEIGHT
      ensures var c := frame.GetColor(x, y);
        tex[4 * Index(x, y)] == c.r && tex[4 * Index(x, y) + 1] == c.g &&
        tex[4 * Index(x, y) + 2] == c.b && tex[4 * Index(x, y) + 3] == 1.0
    {
      IndexBijective(x, y, x, y);
    }
  }
}
