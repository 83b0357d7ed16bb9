/**
 * The bloom post-process of include/Postprocessor.hpp: extract the bright
 * pixels of the rendered image, blur them three times, and add the result
 * back onto the image. The Gaussian kernel is floating-point arithmetic
 * outside the model: each blur pass takes, as a parameter, the function
 * giving the kernel-weighted colour of pixel `(x, y)` of its source.
 */
module Postprocessing {
  import opened Wrappers
  import opened Vectors
  import opened Globals
  import opened Textures

  /**
   * Whether pixel `(x', y')` comes before `(x, y)` in the sweep
   * `for x < w { for y < h { ... } }`: an earlier column, or the same
   * column higher up.
   */
  predicate Before(x': int, y': int, x: int, y: int)
  {
    x' < x || (x' == x && y' < y)
  }

  /** Whether buffer entry `i` is the index of a pixel the sweep now at `(x, y)` has visited. */
  predicate Written(i: int, x: int, y: int, w: int, h: int)
  {
    exists x', y' :: 0 <= x' < w && 0 <= y' < h && Before(x', y', x, y) && GridIndex(x', y', w) == i
  }

  /** Distinct pixels of a grid have distinct row-major indices. */
  lemma GridIndexInjective(x: int, y: int, x': int, y': int, w: int, h: int)
    requires 0 <= x < w && 0 <= y < h && 0 <= x' < w && 0 <= y' < h
    ensures GridIndex(x, y, w) == GridIndex(x', y', w) ==> x == x' && y == y'
  {
    RowMajor(x, y, w, h);
    RowMajor(x', y', w, h);
  }

  /** Every index of a `w x h` grid is the row-major index of pixel `(i % w, i / w)`. */
  lemma GridCovers(i: int, w: nat, h: nat)
    requires 0 <= i < w * h
    ensures w > 0 && 0 <= i % w < w && 0 <= i / w < h && GridIndex(i % w, i / w, w) == i
  {
    assert i == (i / w) * w + i % w;
    if i / w >= h {
      MulNonNeg(i / w - h, w);
    }
  }

  /**
   * The buffer of a sweep now at `(x, y)`: every visited pixel lies in the
   * buffer, its `pixel` value succeeded and was stored at its index, and
   * every entry no visited pixel maps to still holds its initial value.
   */
  predicate Filled(buf: seq<Vector3f>, buf0: seq<Vector3f>, w: nat, h: nat, x: int, y: int,
                   pixel: (int, int) -> Result<Vector3f, Fault>)
  {
    && |buf| == |buf0|
    && (forall x', y' :: 0 <= x' < w && 0 <= y' < h && Before(x', y', x, y) ==>
          GridIndex(x', y', w) < |buf0| && pixel(x', y').Ok? && buf[GridIndex(x', y', w)] == pixel(x', y').value)
    && (forall i :: 0 <= i < |buf0| && !Written(i, x, y, w, h) ==> buf[i] == buf0[i])
  }

  /** Storing pixel `(x, y)` at its index moves the sweep one row down. */
  lemma FillStep(buf: seq<Vector3f>, buf0: seq<Vector3f>, w: nat, h: nat, x: int, y: int,
                 pixel: (int, int) -> Result<Vector3f, Fault>)
    requires 0 <= x < w && 0 <= y < h && Filled(buf, buf0, w, h, x, y, pixel)
    requires GridIndex(x, y, w) < |buf0| && pixel(x, y).Ok?
    ensures Filled(buf[GridIndex(x, y, w) := pixel(x, y).value], buf0, w, h, x, y + 1, pixel)
  {
    var k := GridIndex(x, y, w);
    var buf' := buf[k := pixel(x, y).value];
    RowMajor(x, y, w, h);
    forall x', y' | 0 <= x' < w && 0 <= y' < h && Before(x', y', x, y + 1)
      ensures GridIndex(x', y', w) < |buf0| && pixel(x', y').Ok? && buf'[GridIndex(x', y', w)] == pixel(x', y').value
    {
      GridIndexInjective(x, y, x', y', w, h);
    }
    forall i | 0 <= i < |buf0| && !Written(i, x, y + 1, w, h)
      ensures buf'[i] == buf0[i]
    {
      assert i != k;
    }
  }

  /** A finished column is the start of the next one. */
  lemma FillColumn(buf: seq<Vector3f>, buf0: seq<Vector3f>, w: nat, h: nat, x: int,
                   pixel: (int, int) -> Result<Vector3f, Fault>)
    requires 0 <= x < w && Filled(buf, buf0, w, h, x, h, pixel)
    ensures Filled(buf, buf0, w, h, x + 1, 0, pixel)
  {
    assert forall i :: 0 <= i < |buf0| && !Written(i, x + 1, 0, w, h) ==> !Written(i, x, h, w, h);
  }

  /** After the last column every pixel of the grid is stored and succeeded, and nothing else changed. */
  lemma FillDone(buf: seq<Vector3f>, buf0: seq<Vector3f>, w: nat, h: nat,
                 pixel: (int, int) -> Result<Vector3f, Fault>)
    requires Filled(buf, buf0, w, h, w, 0, pixel)
    ensures w * h <= |buf0|
    ensures forall x, y :: 0 <= x < w && 0 <= y < h ==>
              GridIndex(x, y, w) < |buf| && pixel(x, y).Ok? && buf[GridIndex(x, y, w)] == pixel(x, y).value
    ensures forall i :: w * h <= i < |buf0| ==> buf[i] == buf0[i]
  {
    assert forall x, y :: 0 <= x < w && 0 <= y < h ==> Before(x, y, w, 0);
    if w > 0 && h > 0 {
      RowMajor(w - 1, h - 1, w, h);
      assert Before(w - 1, h - 1, w, 0);
    }
    forall i | w * h <= i < |buf0|
      ensures buf[i] == buf0[i]
    {
      if Written(i, w, 0, w, h) {
        var x', y' :| 0 <= x' < w && 0 <= y' < h && Before(x', y', w, 0) && GridIndex(x', y', w) == i;
        RowMajor(x', y', w, h);
      }
    }
  }

  /**
   * The nested loop every pass of the post-process runs: sweep the `w x h`
   * grid column by column and overwrite entry `y * w + x` of the buffer
   * with `pixel(x, y)`. A buffer entry past the end is the `out_of_range`
   * that `std::vector::at` throws, and an error of `pixel` (a failing
   * texture lookup) ends the sweep with that error. On success exactly the
   * entries of the grid's pixels are replaced.
   */
  method FillGrid(buf0: seq<Vector3f>, w: nat, h: nat, pixel: (int, int) -> Result<Vector3f, Fault>)
    returns (r: Result<seq<Vector3f>, Fault>)
    ensures r.Ok? <==> w * h <= |buf0| && forall x, y :: 0 <= x < w && 0 <= y < h ==> pixel(x, y).Ok?
    ensures r.Ok? ==> |r.value| == |buf0|
    ensures r.Ok? ==> forall x, y :: 0 <= x < w && 0 <= y < h ==>
              GridIndex(x, y, w) < |r.value| && r.value[GridIndex(x, y, w)] == pixel(x, y).value
    ensures r.Ok? ==> forall i :: w * h <= i < |buf0| ==> r.value[i] == buf0[i]
    ensures r.Err? ==> (exists x, y :: 0 <= x < w && 0 <= y < h && pixel(x, y) == Err(r.error))
                       || (w * h > |buf0| && r.error == AccessOutOfRange)
  {
    var buf := buf0;
    var x := 0;
    while x < w
      invariant 0 <= x <= w && Filled(buf, buf0, w, h, x, 0, pixel)
    {
      var y := 0;
      while y < h
        invariant 0 <= y <= h && Filled(buf, buf0, w, h, x, y, pixel)
      {
        var index := y * w + x;
        RowMajor(x, y, w, h);
        if index >= |buf| {
          return Err(AccessOutOfRange);
        }
        var c := pixel(x, y);
        if c.Err? {
          return Err(c.error);
        }
        FillStep(buf, buf0, w, h, x, y, pixel);
        buf := buf[index := c.value];
        y := y + 1;
      }
      FillColumn(buf, buf0, w, h, x, pixel);
      x := x + 1;
    }
    FillDone(buf, buf0, w, h, pixel);
    return Ok(buf);
  }

  /**
   * The `w x h` image whose pixel `(x, y)` is `f(x, y)`, stored row by
   * row: entry `i` is pixel `(i % w, i / w)`.
   */
  function GridOf(w: nat, h: nat, f: (int, int) -> Vector3f): (r: seq<Vector3f>)
    ensures |r| == w * h
  {
    seq(w * h, i => if w > 0 then f(i % w, i / w) else Zero())
  }

  /** Pixel `(x, y)` of `GridOf(w, h, f)` sits at its row-major index and is `f(x, y)`. */
  lemma GridOfAt(w: nat, h: nat, f: (int, int) -> Vector3f, x: int, y: int)
    requires 0 <= x < w && 0 <= y < h
    ensures 0 <= GridIndex(x, y, w) < w * h && GridOf(w, h, f)[GridIndex(x, y, w)] == f(x, y)
  {
    RowMajor(x, y, w, h);
  }

  /** An image of `w * h` entries holding `f(x, y)` at the index of every pixel `(x, y)` is `GridOf(w, h, f)`. */
  lemma GridOfUnique(s: seq<Vector3f>, w: nat, h: nat, f: (int, int) -> Vector3f)
    requires |s| == w * h
    requires forall x, y :: 0 <= x < w && 0 <= y < h ==> GridIndex(x, y, w) < |s| && s[GridIndex(x, y, w)] == f(x, y)
    ensures s == GridOf(w, h, f)
  {
    forall i | 0 <= i < w * h
      ensures s[i] == GridOf(w, h, f)[i]
    {
      GridCovers(i, w, h);
    }
  }

  /** A pixel brighter than 3 (squared norm above 9) is kept; any other becomes black. */
  function Bright(c: Vector3f): Vector3f
  {
    if Norm2(c) > 9.0 then c else Zero()
  }

  /**
   * Pixel `(x, y)` of the emissive texture: the source read at
   * `(clamp(0, 1, x / w), clamp(0, 1, y / h))`, kept if bright. Only asked
   * for inside a grid of positive size.
   */
  function EmissivePixel(img: Texture, x: int, y: int): Result<Vector3f, Fault>
  {
    if img.width == 0 || img.height == 0 then Ok(Zero())
    else
      var u := Clamp(0.0, 1.0, x as real / img.width as real);
      var v := Clamp(0.0, 1.0, y as real / img.height as real);
      match GetRGBAt(img, u, v)
      case Ok(c) => Ok(Bright(c))
      case Err(e) => Err(e)
  }

  /** The colour `EmissivePixel` stores when the lookup succeeds. */
  function EmissiveColor(img: Texture, x: int, y: int): Vector3f
  {
    match EmissivePixel(img, x, y)
    case Ok(c) => c
    case Err(_) => Zero()
  }

  /**
   * The texture `getEmmisiveTexture` returns: unnamed, of the source's size,
   * with `width * height` pixels, each the bright part of the source pixel
   * it reads. A source of positive size without pixels makes the lookup throw.
   */
  function EmissiveOf(img: Texture): (r: Result<Texture, Fault>)
    ensures r.Err? <==> img.width > 0 && img.height > 0 && |img.rgb| == 0
    ensures r.Err? ==> r.error == OutOfBound(-1, 0)
    ensures r.Ok? ==> r.value.width == img.width && r.value.height == img.height
                      && |r.value.rgb| == img.width * img.height
  {
    var w, h := img.width, img.height;
    if w > 0 && h > 0 && |img.rgb| == 0 then Err(OutOfBound(-1, 0))
    else Ok(Texture("", w, h, false, GridOf(w, h, (x, y) => EmissiveColor(img, x, y))))
  }

  /** `getEmmisiveTexture`: a zero-filled buffer of `w * h` pixels swept by `EmissivePixel`. */
  method GetEmmisiveTexture(img: Texture) returns (r: Result<Texture, Fault>)
    ensures r == EmissiveOf(img)
  {
    var w, h := img.width, img.height;
    var pixels := FillGrid(seq(w * h, _ => Zero()), w, h, (x, y) => EmissivePixel(img, x, y));
    if pixels.Err? {
      var x, y :| 0 <= x < w && 0 <= y < h && EmissivePixel(img, x, y) == Err(pixels.error);
      return Err(pixels.error);
    }
    if w > 0 && h > 0 {
      assert EmissivePixel(img, 0, 0).Ok?;
    }
    GridOfUnique(pixels.value, w, h, (x, y) => EmissiveColor(img, x, y));
    r := Ok(Texture("", w, h, false, pixels.value));
  }

  /** `k / n` of a natural `k < n` lies in `[0, 1)`. */
  lemma FractionOf(k: nat, n: nat)
    requires k < n
    ensures 0.0 <= k as real / n as real < 1.0
  {
  }

  /** With one source pixel per grid cell, emissive pixel `(x, y)` is the bright part of source pixel `(x, y)`. */
  lemma EmissiveColorAt(img: Texture, x: nat, y: nat)
    requires x < img.width && y < img.height && |img.rgb| == img.width * img.height
    ensures 0 <= GridIndex(x, y, img.width) < |img.rgb|
    ensures EmissiveColor(img, x, y) == Bright(img.rgb[GridIndex(x, y, img.width)])
  {
    PixelLookup(img, x, y);
    FractionOf(x, img.width);
    FractionOf(y, img.height);
  }

  /**
   * On an image with one pixel per grid cell, the emissive texture keeps
   * exactly the pixels brighter than 3, in place, and blacks out the rest.
   */
  lemma EmissiveKeepsBright(img: Texture)
    requires |img.rgb| == img.width * img.height
    ensures EmissiveOf(img).Ok?
    ensures forall i :: 0 <= i < |img.rgb| ==> EmissiveOf(img).value.rgb[i] == Bright(img.rgb[i])
  {
    var w, h := img.width, img.height;
    var f := (x, y) => EmissiveColor(img, x, y);
    forall i | 0 <= i < |img.rgb|
      ensures GridOf(w, h, f)[i] == Bright(img.rgb[i])
    {
      GridCovers(i, w, h);
      EmissiveColorAt(img, i % w, i / w);
    }
  }

  /**
   * The texture a blur pass produces from `src`: unnamed, of `src`'s size,
   * pixel `(x, y)` being `kernel(src, x, y)`.
   */
  function BlurPass(src: Texture, kernel: (Texture, int, int) -> Vector3f): (r: Texture)
    ensures r.width == src.width && r.height == src.height && |r.rgb| == src.width * src.height
  {
    Texture("", src.width, src.height, false, GridOf(src.width, src.height, (x, y) => kernel(src, x, y)))
  }

  /**
   * `getGaussianBlurTexture`: the vertical pass on the input, then the
   * horizontal pass on its result. The output has the input's width and
   * height and `width * height` pixels.
   */
  function BlurOf(img: Texture, vertical: (Texture, int, int) -> Vector3f,
                  horizontal: (Texture, int, int) -> Vector3f): (r: Texture)
    ensures r.width == img.width && r.height == img.height && |r.rgb| == img.width * img.height
  {
    BlurPass(BlurPass(img, vertical), horizontal)
  }

  /** One blur pass as the source runs it: a zero-filled buffer of `w * h` pixels swept by the kernel. */
  method RunBlurPass(src: Texture, kernel: (Texture, int, int) -> Vector3f) returns (res: Texture)
    ensures res == BlurPass(src, kernel)
  {
    var w, h := src.width, src.height;
    var pixels := FillGrid(seq(w * h, _ => Zero()), w, h, (x, y) => Ok(kernel(src, x, y)));
    GridOfUnique(pixels.value, w, h, (x, y) => kernel(src, x, y));
    res := Texture("", w, h, false, pixels.value);
  }

  /** `getGaussianBlurTexture`: a vertical pass, then a horizontal pass reading a copy of its result. */
  method GetGaussianBlurTexture(img: Texture, vertical: (Texture, int, int) -> Vector3f,
                                horizontal: (Texture, int, int) -> Vector3f) returns (res: Texture)
    ensures res == BlurOf(img, vertical, horizontal)
  {
    var src := RunBlurPass(img, vertical);
    res := RunBlurPass(src, horizontal);
  }

  /** Pixel `i` of the sum: both pixels read with `at`, which throws past either end. */
  function SumPixel(img1: Texture, img2: Texture, i: int): Result<Vector3f, Fault>
  {
    if 0 <= i < |img1.rgb| && i < |img2.rgb| then Ok(Add(img1.rgb[i], img2.rgb[i]))
    else Err(AccessOutOfRange)
  }

  /**
   * What `add(img1, img2)` returns: `img1` with each of its first
   * `width * height` pixels increased by `img2`'s pixel of the same index,
   * or the `out_of_range` error when either image has fewer pixels.
   */
  function AddOf(img1: Texture, img2: Texture): (r: Result<Texture, Fault>)
    ensures r.Err? <==> img1.width * img1.height > |img1.rgb| || img1.width * img1.height > |img2.rgb|
    ensures r.Ok? ==> r.value.name == img1.name && r.value.width == img1.width
                      && r.value.height == img1.height && r.value.isActivated == img1.isActivated
                      && |r.value.rgb| == |img1.rgb|
    ensures r.Ok? ==> forall i :: 0 <= i < img1.width * img1.height ==>
                        Sub(r.value.rgb[i], img2.rgb[i]) == img1.rgb[i]
    ensures r.Ok? ==> forall i :: img1.width * img1.height <= i < |img1.rgb| ==> r.value.rgb[i] == img1.rgb[i]
  {
    var n := img1.width * img1.height;
    if n > |img1.rgb| || n > |img2.rgb| then Err(AccessOutOfRange)
    else Ok(img1.(rgb := seq(|img1.rgb|, i requires 0 <= i < |img1.rgb| =>
                               if i < n then Add(img1.rgb[i], img2.rgb[i]) else img1.rgb[i])))
  }

  /** The sweep of `add` fails exactly when `AddOf` does. */
  lemma AddSweepFails(img1: Texture, img2: Texture, x: int, y: int)
    requires 0 <= x < img1.width && 0 <= y < img1.height
    requires !SumPixel(img1, img2, GridIndex(x, y, img1.width)).Ok?
    ensures AddOf(img1, img2).Err?
  {
    RowMajor(x, y, img1.width, img1.height);
  }

  /** A sweep of `add` in which every pixel succeeded produced `AddOf`'s image. */
  lemma AddSweepResult(img1: Texture, img2: Texture, s: seq<Vector3f>)
    requires img1.width * img1.height <= |img1.rgb| == |s|
    requires forall x, y :: 0 <= x < img1.width && 0 <= y < img1.height ==>
               SumPixel(img1, img2, GridIndex(x, y, img1.width)).Ok?
               && GridIndex(x, y, img1.width) < |s|
               && s[GridIndex(x, y, img1.width)] == SumPixel(img1, img2, GridIndex(x, y, img1.width)).value
    requires forall i :: img1.width * img1.height <= i < |s| ==> s[i] == img1.rgb[i]
    ensures AddOf(img1, img2) == Ok(img1.(rgb := s))
  {
    var w, h := img1.width, img1.height;
    if w > 0 && h > 0 {
      RowMajor(w - 1, h - 1, w, h);
      assert SumPixel(img1, img2, GridIndex(w - 1, h - 1, w)).Ok?;
    }
    assert AddOf(img1, img2).Ok?;
    forall i | 0 <= i < |s|
      ensures s[i] == AddOf(img1, img2).value.rgb[i]
    {
      if i < w * h {
        GridCovers(i, w, h);
      }
    }
    assert s == AddOf(img1, img2).value.rgb;
  }

  /** `add`: `img1`'s pixels swept in place, each increased by `img2`'s pixel of the same index. */
  method AddTextures(img1: Texture, img2: Texture) returns (r: Result<Texture, Fault>)
    ensures r == AddOf(img1, img2)
  {
    var w, h := img1.width, img1.height;
    var pixels := FillGrid(img1.rgb, w, h, (x, y) => SumPixel(img1, img2, GridIndex(x, y, w)));
    if pixels.Err? {
      if exists x, y :: 0 <= x < w && 0 <= y < h && SumPixel(img1, img2, GridIndex(x, y, w)) == Err(pixels.error) {
        var x, y :| 0 <= x < w && 0 <= y < h && SumPixel(img1, img2, GridIndex(x, y, w)) == Err(pixels.error);
        AddSweepFails(img1, img2, x, y);
      }
      return Err(AccessOutOfRange);
    }
    AddSweepResult(img1, img2, pixels.value);
    r := Ok(img1.(rgb := pixels.value));
  }

  /**
   * The post-process object: four render textures, `[0]` the image, `[1]`
   * its emissive part and `[2]`, `[3]` the two blur buffers used in turn.
   */
  class Postprocessor {
    var source: Texture
    var renderTextures: seq<Texture>

    predicate Valid()
      reads this
    {
      |renderTextures| == 4
    }

    /** Four render textures, `[0]` a copy of the source and the others default. */
    constructor (source: Texture)
      ensures Valid() && this.source == source
      ensures renderTextures == [source, EmptyTexture(), EmptyTexture(), EmptyTexture()]
    {
      this.source := source;
      renderTextures := [source, EmptyTexture(), EmptyTexture(), EmptyTexture()];
    }

    /**
     * `performPostProcess`: `[1]` becomes the emissive texture of `[0]`, then
     * the blur writes `[2]`, `[3]` and `[2]` again, each pass reading the
     * previous one, and the result is `[0]` plus the last buffer written,
     * `[2]`. A failing emissive extraction leaves every buffer as it was.
     */
    method PerformPostProcess(vertical: (Texture, int, int) -> Vector3f,
                              horizontal: (Texture, int, int) -> Vector3f) returns (r: Result<Texture, Fault>)
      requires Valid()
      modifies this
      ensures Valid() && source == old(source)
      ensures var e := EmissiveOf(old(renderTextures[0]));
              e.Err? ==> r == Err(e.error) && renderTextures == old(renderTextures)
      ensures var e := EmissiveOf(old(renderTextures[0]));
              e.Ok? ==>
                var b1 := BlurOf(e.value, vertical, horizontal);
                var b2 := BlurOf(b1, vertical, horizontal);
                var b3 := BlurOf(b2, vertical, horizontal);
                renderTextures == [old(renderTextures[0]), e.value, b3, b2]
                && r == AddOf(old(renderTextures[0]), b3)
    {
      var e := GetEmmisiveTexture(renderTextures[0]);
      if e.Err? {
        return Err(e.error);
      }
      renderTextures := renderTextures[1 := e.value];
      var index := 2;
      var b := GetGaussianBlurTexture(renderTextures[1], vertical, horizontal);
      renderTextures := renderTextures[index := b];
      index := 3;
      ghost var b1 := BlurOf(e.value, vertical, horizontal);
      ghost var b2 := BlurOf(b1, vertical, horizontal);
      ghost var b3 := BlurOf(b2, vertical, horizontal);
      ghost var t0, t3 := renderTextures[0], renderTextures[3];
      for i := 0 to 2
        invariant |renderTextures| == 4 && source == old(source)
        invariant i == 0 ==> index == 3 && renderTextures == [t0, e.value, b1, t3]
        invariant i == 1 ==> index == 2 && renderTextures == [t0, e.value, b1, b2]
        invariant i == 2 ==> index == 3 && renderTextures == [t0, e.value, b3, b2]
      {
        b := GetGaussianBlurTexture(renderTextures[if index == 2 then 3 else 2], vertical, horizontal);
        renderTextures := renderTextures[index := b];
        index := if index == 2 then 3 else 2;
      }
      index := if index == 2 then 3 else 2;
      r := AddTextures(renderTextures[0], renderTextures[index]);
    }
  }

  /**
   * On an image with one pixel per grid cell the whole post-process
   * succeeds and keeps the image's size: the emissive texture and every
   * blur have `width * height` pixels, so `add` never reads past an end.
   */
  lemma PostProcessSucceeds(img: Texture, vertical: (Texture, int, int) -> Vector3f,
                            horizontal: (Texture, int, int) -> Vector3f)
    requires |img.rgb| == img.width * img.height
    ensures EmissiveOf(img).Ok?
    ensures var b3 := BlurOf(BlurOf(BlurOf(EmissiveOf(img).value, vertical, horizontal), vertical, horizontal),
                             vertical, horizontal);
            AddOf(img, b3).Ok? && AddOf(img, b3).value.width == img.width
            && AddOf(img, b3).value.height == img.height
  {
    if img.width > 0 && img.height > 0 {
      MulNonNeg(img.width - 1, img.height);
      assert img.width * img.height >= img.height;
    }
  }
}
