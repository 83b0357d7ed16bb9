/**
 * The image texture of include/Texture.hpp: a named `width x height` grid
 * of RGB values stored row by row. Widths and heights are natural numbers
 * here; the scene reader only ever fills them from digit strings.
 */
module Textures {
  import opened Wrappers
  import opened Vectors
  import opened Globals

  datatype Texture = Texture(name: string, width: nat, height: nat, isActivated: bool, rgb: seq<Vector3f>)

  /** A default-constructed texture: no name, no size, no pixels. */
  function EmptyTexture(): Texture
  {
    Texture("", 0, 0, false, [])
  }

  /**
   * Row-major pixel numbering, shared by the texture lookup, the camera and
   * the image writer: pixel `(x, y)` of a `w x h` grid is `y * w + x`, which
   * lies in `[0, w * h)` and gives back `x` and `y` by remainder and quotient.
   */
  lemma RowMajor(x: int, y: int, w: int, h: int)
    requires 0 <= x < w && 0 <= y < h
    ensures 0 <= y * w + x < w * h
    ensures (y * w + x) % w == x && (y * w + x) / w == y
  {
    MulNonNeg(y, w);
    MulNonNeg(h - 1 - y, w);
    assert w * h == y * w + (h - 1 - y) * w + w;
    DivisionUnique(y * w + x, w, y, x);
  }

  lemma MulNonNeg(a: int, b: int)
    requires a >= 0 && b >= 0
    ensures a * b >= 0
  {
  }

  /** A quotient and remainder that fit are Dafny's quotient and remainder. */
  lemma DivisionUnique(n: int, w: int, q: int, r: int)
    requires w > 0 && 0 <= r < w && n == q * w + r
    ensures n / w == q && n % w == r
  {
    var q', r' := n / w, n % w;
    assert n == q' * w + r' && 0 <= r' < w;
    var d := q - q';
    assert d * w == r' - r by {
      assert d * w == q * w - q' * w;
    }
    SmallMultiple(d, w);
  }

  /** The only multiple of `w` strictly between `-w` and `w` is 0. */
  lemma SmallMultiple(d: int, w: int)
    requires w > 0
    ensures -w < d * w < w ==> d == 0
  {
    if d >= 1 {
      MulNonNeg(d - 1, w);
      assert d * w == (d - 1) * w + w;
    } else if d <= -1 {
      MulNonNeg(-d - 1, w);
      assert -d * w == (-d - 1) * w + w;
    }
  }

  /** Truncating a number of `[0, n)` gives an integer of `[0, n)`. */
  lemma TruncBelow(a: real, n: int)
    requires 0.0 <= a < n as real
    ensures 0 <= Trunc(a) < n
  {
  }

  /** A fraction in `[0,1)` of a positive size lies in `[0, size)`. */
  lemma FractionBelow(u: real, w: real)
    requires 0.0 <= u < 1.0 && w > 0.0
    ensures 0.0 <= u * w < w
  {
    assert w - u * w == (1.0 - u) * w;
    ProductSign(w, 1.0 - u);
    ProductNonNeg(u, w);
  }

  /** The grid cell `((int)(u*w), (int)(v*h))` that texture coordinates `(u, v)` fall in. */
  function Cell(t: Texture, u: real, v: real): (int, int)
  {
    (Trunc(u * t.width as real), Trunc(v * t.height as real))
  }

  /** `y * width + x`, the row-major index of grid cell `(x, y)`. */
  function GridIndex(x: int, y: int, width: int): int
  {
    y * width + x
  }

  /** An index raised to 0 when negative, then lowered to `size - 1` when at or past `size`. */
  function ClampIndex(index: int, size: int): (r: int)
    ensures 0 <= index < size ==> r == index
    ensures size > 0 ==> 0 <= r < size
    ensures size <= 0 ==> r == size - 1
  {
    var index := if index < 0 then 0 else index;
    if index >= size then size - 1 else index
  }

  /**
   * The index `getRGBat` reads: the cell's row-major index, raised to 0
   * when negative and lowered to `size - 1` when past the end. With no
   * pixels that last step gives -1.
   */
  function LookupIndex(t: Texture, u: real, v: real): int
  {
    var (x, y) := Cell(t, u, v);
    ClampIndex(GridIndex(x, y, t.width), |t.rgb|)
  }

  /**
   * `getRGBat(u, v)`: the zero colour for a texture with no size, otherwise
   * the pixel at the clamped index, or the out-of-bound error `getEleIn`
   * throws when there are no pixels.
   */
  function GetRGBAt(t: Texture, u: real, v: real): (r: Result<Vector3f, Fault>)
    ensures t.width == 0 && t.height == 0 ==> r == Ok(Zero())
    ensures !(t.width == 0 && t.height == 0) && |t.rgb| > 0 ==> r.Ok? && r.value in t.rgb
    ensures !(t.width == 0 && t.height == 0) && |t.rgb| == 0 ==> r == Err(OutOfBound(-1, 0))
  {
    if t.width == 0 && t.height == 0 then Ok(Zero())
    else GetEleIn(t.rgb, LookupIndex(t, u, v))
  }

  /** A coordinate in `[0,1)` of a positive size truncates into `[0, size)`. */
  lemma CoordInside(u: real, n: int)
    requires 0.0 <= u < 1.0 && n > 0
    ensures 0 <= Trunc(u * n as real) < n
  {
    FractionBelow(u, n as real);
    TruncBelow(u * n as real, n);
  }

  /** Coordinates in `[0,1)` fall in a cell of the grid. */
  lemma CellInside(t: Texture, u: real, v: real)
    requires 0.0 <= u < 1.0 && 0.0 <= v < 1.0 && t.width > 0 && t.height > 0
    ensures 0 <= Cell(t, u, v).0 < t.width && 0 <= Cell(t, u, v).1 < t.height
  {
    CoordInside(u, t.width);
    CoordInside(v, t.height);
  }

  /** A lookup whose cell lies in a grid of one pixel per cell reads that cell's pixel, unclamped. */
  lemma LookupCell(t: Texture, u: real, v: real, x: int, y: int)
    requires t.width > 0 && t.height > 0 && |t.rgb| == t.width * t.height
    requires Cell(t, u, v) == (x, y) && 0 <= x < t.width && 0 <= y < t.height
    ensures 0 <= GridIndex(x, y, t.width) < |t.rgb|
    ensures GetRGBAt(t, u, v) == Ok(t.rgb[GridIndex(x, y, t.width)])
  {
    RowMajor(x, y, t.width, t.height);
  }

  /**
   * Inside the texture (`u, v` in `[0,1)`) and with one pixel per grid cell,
   * no clamping happens: the lookup reads exactly the pixel of the cell
   * `(u, v)` falls in.
   */
  lemma GetRGBAtInside(t: Texture, u: real, v: real)
    requires 0.0 <= u < 1.0 && 0.0 <= v < 1.0 && t.width > 0 && t.height > 0
    requires |t.rgb| == t.width * t.height
    ensures var (x, y) := Cell(t, u, v);
            0 <= x < t.width && 0 <= y < t.height && 0 <= GridIndex(x, y, t.width) < |t.rgb|
            && GetRGBAt(t, u, v) == Ok(t.rgb[GridIndex(x, y, t.width)])
  {
    CellInside(t, u, v);
    var (x, y) := Cell(t, u, v);
    LookupCell(t, u, v, x, y);
  }

  /** Texture `(u, v)` of pixel `(x, y)` in a `w x h` grid: `(x / w, y / h)`. */
  function PixelUV(x: nat, y: nat, w: nat, h: nat): (real, real)
    requires w > 0 && h > 0
  {
    (x as real / w as real, y as real / h as real)
  }

  /** Dividing by a nonzero number and multiplying back gives the number. */
  lemma DivTimes(a: real, b: real)
    requires b != 0.0
    ensures a / b * b == a
  {
  }

  /** Pixel `(x, y)`'s own coordinates fall in its cell. */
  lemma CellOfPixel(t: Texture, x: nat, y: nat, u: real, v: real)
    requires t.width > 0 && t.height > 0
    requires u == x as real / t.width as real && v == y as real / t.height as real
    ensures Cell(t, u, v) == (x, y)
  {
    DivTimes(x as real, t.width as real);
    DivTimes(y as real, t.height as real);
    assert u * t.width as real == x as real;
    assert v * t.height as real == y as real;
    TruncWhole(x);
    TruncWhole(y);
    assert Trunc(u * t.width as real) == x;
    assert Trunc(v * t.height as real) == y;
    assert Cell(t, u, v).0 == Trunc(u * t.width as real);
    assert Cell(t, u, v).1 == Trunc(v * t.height as real);
  }

  /** Looking a pixel up by its own `(x / w, y / h)` finds that pixel. */
  lemma PixelLookup(t: Texture, x: nat, y: nat)
    requires t.width > 0 && t.height > 0 && x < t.width && y < t.height
    requires |t.rgb| == t.width * t.height
    ensures 0 <= GridIndex(x, y, t.width) < |t.rgb|
    ensures GetRGBAt(t, PixelUV(x, y, t.width, t.height).0, PixelUV(x, y, t.width, t.height).1)
            == Ok(t.rgb[GridIndex(x, y, t.width)])
  {
    var (u, v) := PixelUV(x, y, t.width, t.height);
    CellOfPixel(t, x, y, u, v);
    LookupCell(t, u, v, x, y);
  }
}
