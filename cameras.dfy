/**
 * The pinhole camera of include/Camera.hpp: its orthonormal frame, the
 * frame buffer it renders into, the area constants the integrators use,
 * and the mapping from raster positions to frame-buffer indices. The
 * projection matrices (`world2Raster` and the ones it is built from) are
 * outside the model: the projected raster position of a world point is a
 * parameter, as are the square roots behind `normalized` and the tangent
 * behind `imagePlaneDist`.
 */
module Cameras {
  import opened Vectors
  import opened Globals
  import opened Textures

  /**
   * The camera frame `initialize` builds: the forward direction normalised,
   * `right = normalized(fwd x up)`, then `up = normalized(right x fwd)`.
   * `fm`, `rm` and `um` are the three magnitudes.
   */
  function CameraFrame(fwd: Vector3f, up: Vector3f, fm: real, rm: real, um: real): (Vector3f, Vector3f, Vector3f)
    requires fm >= 0.0 && fm * fm == Norm2(fwd)
    requires rm >= 0.0 && rm * rm == Norm2(Cross(Normalized(fwd, fm), up))
    requires um >= 0.0 && um * um == Norm2(Cross(Normalized(Cross(Normalized(fwd, fm), up), rm), Normalized(fwd, fm)))
  {
    var f := Normalized(fwd, fm);
    var rt := Normalized(Cross(f, up), rm);
    (f, rt, Normalized(Cross(rt, f), um))
  }

  /** The three directions of the camera frame are pairwise orthogonal, and of unit length when no magnitude is 0. */
  lemma CameraFrameOrthonormal(fwd: Vector3f, up: Vector3f, fm: real, rm: real, um: real)
    requires fm >= 0.0 && fm * fm == Norm2(fwd)
    requires rm >= 0.0 && rm * rm == Norm2(Cross(Normalized(fwd, fm), up))
    requires um >= 0.0 && um * um == Norm2(Cross(Normalized(Cross(Normalized(fwd, fm), up), rm), Normalized(fwd, fm)))
    ensures var (f, rt, u) := CameraFrame(fwd, up, fm, rm, um); Dot(rt, f) == 0.0 && Dot(u, f) == 0.0 && Dot(u, rt) == 0.0
    ensures var (f, rt, u) := CameraFrame(fwd, up, fm, rm, um);
      fm > 0.0 && rm > 0.0 && um > 0.0 ==> Norm2(f) == 1.0 && Norm2(rt) == 1.0 && Norm2(u) == 1.0
  {
    var f := Normalized(fwd, fm);
    var c1 := Cross(f, up);
    var rt := Normalized(c1, rm);
    var c2 := Cross(rt, f);
    var u := Normalized(c2, um);
    assert CameraFrame(fwd, up, fm, rm, um) == (f, rt, u);
    CrossOrthogonal(f, up);
    CrossOrthogonal(rt, f);
    NormalizedOrthogonal(c1, rm, f);
    NormalizedOrthogonal(c2, um, f);
    NormalizedOrthogonal(c2, um, rt);
  }

  /** `1 / (w * h)`, the reciprocal of a film area of `w x h` pixels. */
  function AreaInv(w: int, h: int): (r: real)
    requires w > 0 && h > 0
    ensures r > 0.0 && r * (w * h) as real == 1.0
  {
    MulNonNeg(w - 1, h);
    Reciprocal((w * h) as real);
    1.0 / (w * h) as real
  }

  class Camera {
    var fwdDir: Vector3f
    var upDir: Vector3f
    var rightDir: Vector3f
    var position: Vector3f
    var frameBuffer: Texture
    var width: int
    var height: int
    var hfov: int
    var imagePlaneDist: real
    var filmPlaneAreaInv: real
    var lensAreaInv: real

    /**
     * A camera whose public fields hold what the scene setup assigns before
     * `initialize`: view direction, up direction, position, size and field
     * of view. The rest starts at zero and an empty frame buffer.
     */
    constructor (fwdDir: Vector3f, upDir: Vector3f, position: Vector3f, width: int, height: int, hfov: int)
      ensures this.fwdDir == fwdDir && this.upDir == upDir && this.position == position
      ensures this.width == width && this.height == height && this.hfov == hfov
      ensures rightDir == Zero() && frameBuffer == EmptyTexture()
      ensures imagePlaneDist == 0.0 && filmPlaneAreaInv == 0.0 && lensAreaInv == 0.0
    {
      this.fwdDir := fwdDir;
      this.upDir := upDir;
      this.position := position;
      this.width := width;
      this.height := height;
      this.hfov := hfov;
      rightDir := Zero();
      frameBuffer := EmptyTexture();
      imagePlaneDist := 0.0;
      filmPlaneAreaInv := 0.0;
      lensAreaInv := 0.0;
    }

    /**
     * `initialize(bkgcolor)`: the orthonormal frame of `CameraFrame`, a frame
     * buffer of `width x height` pixels all set to the background colour,
     * `imagePlaneDist = width / (2 tan(hfov / 2))` (the tangent is
     * `tanHalfHfov`), `filmPlaneAreaInv = 1 / (width * height)` and
     * `lensAreaInv = 1`. The position, size and field of view stay.
     */
    method Initialize(bkgcolor: Vector3f, fm: real, rm: real, um: real, tanHalfHfov: real)
      requires width > 0 && height > 0 && tanHalfHfov != 0.0
      requires fm >= 0.0 && fm * fm == Norm2(fwdDir)
      requires rm >= 0.0 && rm * rm == Norm2(Cross(Normalized(fwdDir, fm), upDir))
      requires um >= 0.0 && um * um == Norm2(Cross(Normalized(Cross(Normalized(fwdDir, fm), upDir), rm), Normalized(fwdDir, fm)))
      modifies this
      ensures position == old(position) && width == old(width) && height == old(height) && hfov == old(hfov)
      ensures (fwdDir, rightDir, upDir) == CameraFrame(old(fwdDir), old(upDir), fm, rm, um)
      ensures frameBuffer == old(frameBuffer).(width := width, height := height, rgb := seq(width * height, _ => bkgcolor))
      ensures imagePlaneDist == width as real / (2.0 * tanHalfHfov)
      ensures filmPlaneAreaInv == AreaInv(width, height) && lensAreaInv == 1.0
    {
      fwdDir := Normalized(fwdDir, fm);
      rightDir := Cross(fwdDir, upDir);
      rightDir := Normalized(rightDir, rm);
      upDir := Cross(rightDir, fwdDir);
      upDir := Normalized(upDir, um);

      frameBuffer := frameBuffer.(rgb := seq(width * height, _ => bkgcolor));
      frameBuffer := frameBuffer.(width := width, height := height);

      imagePlaneDist := width as real / (2.0 * tanHalfHfov);
      filmPlaneAreaInv := AreaInv(width, height);
      lensAreaInv := 1.0;
    }

    /**
     * `raster2pxlIndex`: the raster position truncated toward zero names a
     * pixel; -1 when it lies outside the `width x height` grid, its
     * row-major index `x + width * y` otherwise.
     */
    function Raster2PxlIndex(rx: real, ry: real): (r: int)
      reads this
      ensures r == -1 <==> !(0 <= Trunc(rx) < width && 0 <= Trunc(ry) < height)
      ensures r != -1 ==> 0 <= r < width * height && r % width == Trunc(rx) && r / width == Trunc(ry)
    {
      var x := Trunc(rx);
      var y := Trunc(ry);
      if x < 0 || x >= width || y < 0 || y >= height then -1
      else
        RowMajor(x, y, width, height);
        x + width * y
    }

    /**
     * `worldPos2PixelIndex`: the world point's raster position (the
     * projection, given as `raster`) shifted by half a pixel down both
     * axes, then mapped by `raster2pxlIndex`. The result is -1 or an index
     * of the frame buffer.
     */
    function WorldPos2PixelIndex(pos: Vector3f, raster: Vector3f -> (real, real)): (r: int)
      reads this
      ensures r == -1 || 0 <= r < width * height
      ensures r == -1 <==> !(0 <= Trunc(raster(pos).0 - 0.5) < width && 0 <= Trunc(raster(pos).1 - 0.5) < height)
    {
      var (rx, ry) := raster(pos);
      Raster2PxlIndex(rx - 0.5, ry - 0.5)
    }
  }

  /**
   * Truncation toward zero: a raster position within one unit of the
   * origin, even a negative one, lands on pixel 0 of a non-empty grid
   * rather than off the grid.
   */
  lemma RasterNearOrigin(c: Camera, rx: real, ry: real)
    requires c.width > 0 && c.height > 0 && -1.0 < rx < 1.0 && -1.0 < ry < 1.0
    ensures c.Raster2PxlIndex(rx, ry) == 0
  {
  }

  /**
   * The half-pixel shift: pixel `(px, py)` collects the raster positions
   * `(px + 0.5 + a, py + 0.5 + b)` with `a, b` in `[0, 1)`. In column 0 `a`
   * may lie anywhere in `(-1, 1)`, so that column collects a band twice as
   * wide as the others; row 0 likewise.
   */
  lemma WorldPosPixel(c: Camera, pos: Vector3f, raster: Vector3f -> (real, real), px: int, py: int, a: real, b: real)
    requires 0 <= px < c.width && 0 <= py < c.height
    requires (px == 0 ==> -1.0 < a < 1.0) && (px > 0 ==> 0.0 <= a < 1.0)
    requires (py == 0 ==> -1.0 < b < 1.0) && (py > 0 ==> 0.0 <= b < 1.0)
    requires raster(pos) == (px as real + 0.5 + a, py as real + 0.5 + b)
    ensures c.WorldPos2PixelIndex(pos, raster) == GridIndex(px, py, c.width)
  {
    var rx := px as real + 0.5 + a - 0.5;
    var ry := py as real + 0.5 + b - 0.5;
    assert Trunc(rx) == px && Trunc(ry) == py;
  }
}
