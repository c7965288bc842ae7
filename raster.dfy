/**
 * image.NewRGBA and the two fill loops, createSolidImage and createGradientImage. The image is
 * a grid of colours over a rectangle whose top-left corner is (minX, minY); pixel (x, y) is
 * stored at pix[y - minY, x - minX], row by row as Go's Pix slice lays it out.
 */
module Raster {
  import opened Colours

  function Min(a: int, b: int): int { if a <= b then a else b }

  function Abs(a: int): nat { if a < 0 then -a else a }

  class Canvas {
    const minX: int
    const minY: int
    const width: nat
    const height: nat
    const pix: array2<RGBA>

    ghost predicate Valid()
    {
      pix.Length0 == height && pix.Length1 == width
    }

    /** Point{x, y}.In(Rect). */
    predicate Contains(x: int, y: int)
    {
      minX <= x < minX + width && minY <= y < minY + height
    }

    /** RGBAAt(x, y) for a point of the rectangle. */
    function At(x: int, y: int): RGBA
      reads pix
      requires Valid() && Contains(x, y)
    {
      pix[y - minY, x - minX]
    }

    /**
     * image.NewRGBA(image.Rect(x0, y0, x1, y1)): Rect swaps the coordinates into order, and every
     * pixel starts as the zero colour.
     */
    constructor (x0: int, y0: int, x1: int, y1: int)
      ensures Valid() && fresh(pix)
      ensures minX == Min(x0, x1) && minY == Min(y0, y1)
      ensures width == Abs(x1 - x0) && height == Abs(y1 - y0)
      ensures forall x, y :: Contains(x, y) ==> At(x, y) == Transparent
    {
      minX, minY := Min(x0, x1), Min(y0, y1);
      width, height := Abs(x1 - x0), Abs(y1 - y0);
      pix := new RGBA[Abs(y1 - y0), Abs(x1 - x0)]((_, _) => Transparent);
    }

    /** Set(x, y, c): writes the one pixel when (x, y) lies in the rectangle, and nothing otherwise. */
    method Set(x: int, y: int, c: RGBA)
      requires Valid()
      modifies pix
      ensures forall u, v :: Contains(u, v) ==> At(u, v) == if u == x && v == y then c else old(At(u, v))
    {
      if Contains(x, y) {
        pix[y - minY, x - minX] := c;
      }
    }
  }

  /**
   * createSolidImage(w, h, c): a w x h image in which every pixel of [0, w) x [0, h) is c. For
   * w <= 0 or h <= 0 the loops do not run and the image keeps its zero pixels.
   */
  method CreateSolidImage(w: int, h: int, c: RGBA) returns (img: Canvas)
    ensures fresh(img) && fresh(img.pix) && img.Valid()
    ensures img.minX == Min(0, w) && img.minY == Min(0, h) && img.width == Abs(w) && img.height == Abs(h)
    ensures forall x, y :: img.Contains(x, y) ==>
      img.At(x, y) == if 0 <= x < w && 0 <= y < h then c else Transparent
  {
    img := new Canvas(0, 0, w, h);
    var y := 0;
    while y < h
      invariant 0 <= y && (h >= 0 ==> y <= h)
      invariant forall u, v :: img.Contains(u, v) ==>
        img.At(u, v) == if 0 <= u < w && 0 <= v < y then c else Transparent
    {
      var x := 0;
      while x < w
        invariant 0 <= x && (w >= 0 ==> x <= w)
        invariant forall u, v :: img.Contains(u, v) ==>
          img.At(u, v) == if 0 <= u < w && (0 <= v < y || (v == y && u < x)) then c else Transparent
      {
        img.Set(x, y, c);
        x := x + 1;
      }
      y := y + 1;
    }
  }

  /**
   * createGradientImage(w, h, grad): pixel (x, y) of [0, w) x [0, h) takes the gradient's colour
   * for column x, `g(x)`, which stands for grad.At(float64(x) / float64(w)) converted to RGBA.
   */
  method CreateGradientImage(w: int, h: int, g: int -> RGBA) returns (img: Canvas)
    ensures fresh(img) && fresh(img.pix) && img.Valid()
    ensures img.minX == Min(0, w) && img.minY == Min(0, h) && img.width == Abs(w) && img.height == Abs(h)
    ensures forall x, y :: img.Contains(x, y) ==>
      img.At(x, y) == if 0 <= x < w && 0 <= y < h then g(x) else Transparent
    ensures forall x, y0, y1 :: 0 <= x < w && 0 <= y0 < h && 0 <= y1 < h ==> img.At(x, y0) == img.At(x, y1)
  {
    img := new Canvas(0, 0, w, h);
    var y := 0;
    while y < h
      invariant 0 <= y && (h >= 0 ==> y <= h)
      invariant forall u, v :: img.Contains(u, v) ==>
        img.At(u, v) == if 0 <= u < w && 0 <= v < y then g(u) else Transparent
    {
      var x := 0;
      while x < w
        invariant 0 <= x && (w >= 0 ==> x <= w)
        invariant forall u, v :: img.Contains(u, v) ==>
          img.At(u, v) == if 0 <= u < w && (0 <= v < y || (v == y && u < x)) then g(u) else Transparent
      {
        var colour := g(x);
        img.Set(x, y, colour);
        x := x + 1;
      }
      y := y + 1;
    }
  }
}
