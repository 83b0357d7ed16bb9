/**
 * The scene reader of include/PPMGenerator.hpp: the state it accumulates
 * while reading a scene description (view settings, vertex, normal and
 * texture-coordinate lists, the four texture-map lists and their "current"
 * indices, and the object list), the parsing of face tokens, the four
 * `process*` routines that fill a triangle, the de-duplicating texture
 * loader, and the pure helpers `getIndex` and the output-file naming of
 * `generate`.
 *
 * Reading the input stream is outside the model: each reader method receives
 * the tokens `fin >>` produced. `std::stof` of a validated token is the
 * parameter `stof`, the square root behind `normalized` is the parameter
 * `sqrt`, and what reading a texture file yields is the parameter `contents`.
 */
module SceneReader {
  import opened Wrappers
  import opened Vectors
  import opened Globals
  import opened Materials
  import opened Textures
  import opened Spheres
  import opened Triangles
  import Postprocessing

  // ---------------------------------------------------------------------
  // Render settings

  /** `SPP`: samples per pixel. */
  const SPP: nat := 16

  /** `SPP_inv`, the weight of one sample in a pixel's average. */
  const SPP_INV: real := 1.0 / 16.0

  /** `MIN_DIVISOR`: the smallest density the integrators divide a throughput by. */
  const MIN_DIVISOR: real := 0.03

  // ---------------------------------------------------------------------
  // Output naming

  /** Whether `pat` occurs in `s` at position `k`. */
  predicate At(s: string, pat: string, k: int)
  {
    0 <= k && k + |pat| <= |s| && s[k..k + |pat|] == pat
  }

  /** Whether `pat` occurs anywhere in `s`. */
  ghost predicate Occurs(s: string, pat: string)
  {
    exists k :: At(s, pat, k)
  }

  /**
   * `std::string::find(pat, from)`: the first position at or after `from`
   * where `pat` occurs, or -1 for `npos`.
   */
  function Find(s: string, pat: string, from: nat): (r: int)
    decreases |s| - from
    ensures r == -1 || (from <= r && At(s, pat, r))
    ensures forall k :: from <= k && (r == -1 || k < r) ==> !At(s, pat, k)
  {
    if from + |pat| > |s| then -1
    else if s[from..from + |pat|] == pat then from
    else Find(s, pat, from + 1)
  }

  /**
   * The name `generate` writes to: the input name up to its first ".txt"
   * followed by ".ppm"; the whole input name followed by ".ppm" when it holds
   * no ".txt". The result always ends in ".ppm", and its stem is a prefix of
   * the input free of ".txt" that is either the whole input or followed in
   * it by ".txt".
   */
  function OutputName(input: string): (r: string)
    ensures |r| >= 4 && r[|r| - 4..] == ".ppm"
    ensures var stem := r[..|r| - 4];
            |stem| <= |input| && stem == input[..|stem|] && !Occurs(stem, ".txt")
            && (stem == input || At(input, ".txt", |stem|))
  {
    var pos := Find(input, ".txt", 0);
    var r := if pos == -1 || pos == 0 then
               (if pos == 0 then ".ppm" else input + ".ppm")
             else input[..pos] + ".ppm";
    var stem := r[..|r| - 4];
    assert stem == if pos == -1 then input else input[..pos];
    assert !Occurs(stem, ".txt") by {
      forall k | At(stem, ".txt", k)
        ensures false
      {
        assert stem[k..k + 4] == input[k..k + 4];
        assert At(input, ".txt", k);
      }
    }
    r
  }

  /**
   * The usual case: a scene file `base.txt` whose base name holds no ".txt"
   * renders to `base.ppm`.
   */
  lemma OutputNameOfTxt(base: string)
    requires !Occurs(base, ".txt")
    ensures OutputName(base + ".txt") == base + ".ppm"
  {
    var input := base + ".txt";
    assert At(input, ".txt", |base|) by {
      assert input[|base|..|base| + 4] == ".txt";
    }
    var pos := Find(input, ".txt", 0);
    assert pos == |base| by {
      if pos != -1 && pos < |base| {
        NoTxtBefore(base, pos);
      }
    }
    assert input[..pos] == base;
  }

  /** Appending ".txt" to a name free of ".txt" creates no earlier occurrence. */
  lemma NoTxtBefore(base: string, k: int)
    requires !Occurs(base, ".txt") && 0 <= k < |base|
    ensures !At(base + ".txt", ".txt", k)
  {
    var input := base + ".txt";
    if k + 4 <= |base| {
      assert input[k..k + 4] == base[k..k + 4];
      assert !At(base, ".txt", k);
    } else if k + 4 <= |input| {
      var d := |base| - k;
      assert input[k..k + 4][d] == input[|base|] == '.';
      assert ".txt"[d] != '.';
    }
  }

  // ---------------------------------------------------------------------
  // Face tokens

  /** A token cut at every '/': `"1/2/3"` gives `["1", "2", "3"]`, `"1//3"` gives `["1", "", "3"]`. */
  function Split(s: string): (r: seq<string>)
    decreases |s|
    ensures |r| >= 1
    ensures forall i :: 0 <= i < |r| ==> '/' !in r[i]
  {
    if |s| == 0 then [""]
    else
      var rest := Split(s[1..]);
      if s[0] == '/' then [""] + rest
      else [[s[0]] + rest[0]] + rest[1..]
  }

  /** The fields put back together with '/' between them. */
  function Join(parts: seq<string>): string
    requires |parts| >= 1
  {
    if |parts| == 1 then parts[0] else parts[0] + "/" + Join(parts[1..])
  }

  /** Splitting and joining again gives the token back. */
  lemma {:induction false} JoinSplit(s: string)
    ensures Join(Split(s)) == s
  {
    if |s| > 0 {
      JoinSplit(s[1..]);
      var rest := Split(s[1..]);
      if s[0] == '/' {
        assert ([""] + rest)[1..] == rest;
        assert s == "" + "/" + s[1..];
      } else {
        var r := [[s[0]] + rest[0]] + rest[1..];
        if |rest| == 1 {
          assert s == [s[0]] + s[1..];
        } else {
          assert r[1..] == rest[1..];
          assert Join(rest) == rest[0] + "/" + Join(rest[1..]);
          assert s == [s[0]] + s[1..];
        }
      }
    }
  }

  /** A '/'-free head is the first field of what it starts. */
  lemma {:induction false} SplitFreeHead(a: string, tail: string)
    requires '/' !in a
    ensures Split(a + tail) == [a + Split(tail)[0]] + Split(tail)[1..]
    decreases |a|
  {
    if |a| > 0 {
      var a' := a[1..];
      SplitFreeHead(a', tail);
      assert (a + tail)[1..] == a' + tail;
      assert (a + tail)[0] == a[0] && a[0] != '/';
      assert [a[0]] + (a' + Split(tail)[0]) == a + Split(tail)[0];
    } else {
      assert a + tail == tail;
      assert a + Split(tail)[0] == Split(tail)[0];
      assert [a + Split(tail)[0]] + Split(tail)[1..] == Split(tail);
    }
  }

  /** Joining '/'-free fields and splitting again gives the fields back. */
  lemma {:induction false} SplitJoin(parts: seq<string>)
    requires |parts| >= 1 && forall i :: 0 <= i < |parts| ==> '/' !in parts[i]
    ensures Split(Join(parts)) == parts
  {
    if |parts| == 1 {
      SplitFreeHead(parts[0], "");
      assert parts[0] + "" == parts[0];
    } else {
      var tail := Join(parts[1..]);
      SplitJoin(parts[1..]);
      SplitFreeHead(parts[0], "/" + tail);
      assert parts[0] + "/" + tail == parts[0] + ("/" + tail);
      assert Split("/" + tail) == [""] + Split(tail) by {
        assert ("/" + tail)[1..] == tail;
      }
      assert parts[0] + "" == parts[0];
      assert [parts[0]] + parts[1..] == parts;
    }
  }

  /** `[0-9]+`. */
  predicate Number(s: string)
  {
    |s| > 0 && AllDigits(s)
  }

  /** The four face forms, in the order the reader tries them is flat, smooth, smooth-textured, flat-textured. */
  datatype FaceForm = Flat | Smooth | FlatText | SmoothText

  /** Whether the form carries a per-vertex normal (`vn`) reference. */
  predicate HasNormal(form: FaceForm)
  {
    form == Smooth || form == SmoothText
  }

  /** Whether the form carries a texture-coordinate (`vt`) reference. */
  predicate HasTex(form: FaceForm)
  {
    form == FlatText || form == SmoothText
  }

  /**
   * The fields of a token of each form: `[0-9]+` is one number,
   * `[0-9]+//[0-9]+` a number, an empty field and a number,
   * `[0-9]+/[0-9]+` two numbers and `[0-9]+/[0-9]+/[0-9]+` three.
   */
  predicate Shaped(f: seq<string>, form: FaceForm)
  {
    match form
    case Flat => |f| == 1 && Number(f[0])
    case Smooth => |f| == 3 && Number(f[0]) && f[1] == "" && Number(f[2])
    case FlatText => |f| == 2 && Number(f[0]) && Number(f[1])
    case SmoothText => |f| == 3 && Number(f[0]) && Number(f[1]) && Number(f[2])
  }

  /** `std::regex_match(tok, <form's pattern>)`. */
  predicate Matches(tok: string, form: FaceForm)
  {
    Shaped(Split(tok), form)
  }

  /**
   * `Matches` is the regular expression: a token matches a form exactly when
   * it is the form's fields joined by '/' (so `[0-9]+//[0-9]+` is
   * `a + "//" + b`).
   */
  lemma MatchesPattern(tok: string, form: FaceForm)
    ensures Matches(tok, form) <==> exists f :: Shaped(f, form) && Join(f) == tok
  {
    if Matches(tok, form) {
      JoinSplit(tok);
    }
    if exists f :: Shaped(f, form) && Join(f) == tok {
      var f :| Shaped(f, form) && Join(f) == tok;
      SplitJoin(f);
    }
  }

  /** No token matches two forms, so the order the reader tries them in does not matter. */
  lemma FormsExclusive(tok: string, a: FaceForm, b: FaceForm)
    requires Matches(tok, a) && Matches(tok, b)
    ensures a == b
  {
  }

  /**
   * The form of face `f t0 t1 t2`: the first of flat, smooth,
   * smooth-textured and flat-textured that all three tokens match, else the
   * "face information is not valid" error.
   */
  function Classify(t0: string, t1: string, t2: string): (r: Result<FaceForm, Fault>)
    ensures r.Ok? ==> Matches(t0, r.value) && Matches(t1, r.value) && Matches(t2, r.value)
    ensures r.Err? <==> forall form :: !(Matches(t0, form) && Matches(t1, form) && Matches(t2, form))
    ensures r.Err? ==> r.error == BadFaceFormat
  {
    if Matches(t0, Flat) && Matches(t1, Flat) && Matches(t2, Flat) then Ok(Flat)
    else if Matches(t0, Smooth) && Matches(t1, Smooth) && Matches(t2, Smooth) then Ok(Smooth)
    else if Matches(t0, SmoothText) && Matches(t1, SmoothText) && Matches(t2, SmoothText) then Ok(SmoothText)
    else if Matches(t0, FlatText) && Matches(t1, FlatText) && Matches(t2, FlatText) then Ok(FlatText)
    else Err(BadFaceFormat)
  }

  /** `std::stoi` of a digit string: its decimal value (32-bit overflow is not modelled). */
  function Stoi(s: string): nat
    requires AllDigits(s)
  {
    if |s| == 0 then 0 else Stoi(s[..|s| - 1]) * 10 + (s[|s| - 1] as int - '0' as int)
  }

  /** The decimal digits of `n`, the text `stoi` reads back. */
  function DecimalText(n: nat): (r: string)
    ensures |r| > 0 && AllDigits(r)
  {
    var d := ['0' + (n % 10) as char];
    if n < 10 then d else DecimalText(n / 10) + d
  }

  /** `stoi` reads back every number written in decimal. */
  lemma {:induction false} StoiDecimal(n: nat)
    ensures Stoi(DecimalText(n)) == n
  {
    var s := DecimalText(n);
    if n >= 10 {
      StoiDecimal(n / 10);
      assert s[..|s| - 1] == DecimalText(n / 10);
    }
  }

  /** The 0-based index a token's field refers to: `stoi(field) - 1`. */
  function Ref(tok: string, field: nat): int
  {
    var f := Split(tok);
    if field < |f| && AllDigits(f[field]) then Stoi(f[field]) - 1 else -1
  }

  /**
   * The three 0-based indices a face token refers to: its vertex, its
   * texture coordinates and its normal, each `stoi(field) - 1`, and -1 for
   * a field the token does not have (or leaves empty).
   */
  datatype VertexRef = VertexRef(v: int, vt: int, vn: int)

  /** The references of one face token. */
  function TokenRef(tok: string): VertexRef
  {
    VertexRef(Ref(tok, 0), Ref(tok, 1), Ref(tok, 2))
  }

  /** The references of every token of a face, in order. */
  function FaceRefs(toks: seq<string>): (r: seq<VertexRef>)
    ensures |r| == |toks| && forall j :: 0 <= j < |toks| ==> r[j] == TokenRef(toks[j])
  {
    if |toks| == 0 then [] else [TokenRef(toks[0])] + FaceRefs(toks[1..])
  }

  /** The corner `j` of a triangle: its vertex, normal and texture coordinates. */
  function Corner(t: Triangle, j: int): (Vector3f, Vector3f, Vector2f)
    reads t`v0, t`v1, t`v2, t`n0, t`n1, t`n2, t`uv0, t`uv1, t`uv2
  {
    if j == 0 then (t.v0, t.n0, t.uv0)
    else if j == 1 then (t.v1, t.n1, t.uv1)
    else (t.v2, t.n2, t.uv2)
  }

  /** A triangle's material, light flag, texture flag, texture index and bump-map index. */
  function Settings(t: Triangle): (Material, bool, bool, int, int)
    reads t`mtlcolor, t`isLight, t`isTextureActivated, t`textureIndex, t`normalMapIndex
  {
    (t.mtlcolor, t.isLight, t.isTextureActivated, t.textureIndex, t.normalMapIndex)
  }

  /** The three corners of a triangle. */
  function Corners(t: Triangle): (r: seq<(Vector3f, Vector3f, Vector2f)>)
    reads t`v0, t`v1, t`v2, t`n0, t`n1, t`n2, t`uv0, t`uv1, t`uv2
    ensures |r| == 3 && forall j :: 0 <= j < 3 ==> r[j] == Corner(t, j)
  {
    [Corner(t, 0), Corner(t, 1), Corner(t, 2)]
  }

  /** Sets corner `j` of `t`; nothing else changes. */
  method SetCorner(t: Triangle, j: int, c: (Vector3f, Vector3f, Vector2f))
    requires 0 <= j < 3
    modifies t`v0, t`v1, t`v2, t`n0, t`n1, t`n2, t`uv0, t`uv1, t`uv2
    ensures Corner(t, j) == c
    ensures forall k :: 0 <= k < 3 && k != j ==> Corner(t, k) == old(Corner(t, k))
  {
    if j == 0 {
      t.v0, t.n0, t.uv0 := c.0, c.1, c.2;
    } else if j == 1 {
      t.v1, t.n1, t.uv1 := c.0, c.1, c.2;
    } else {
      t.v2, t.n2, t.uv2 := c.0, c.1, c.2;
    }
  }

  // ---------------------------------------------------------------------
  // Normals

  /**
   * The normal a flat face gives all three corners: `normalized(E1 x E2)`
   * with `E1 = v1 - v0` and `E2 = v2 - v0`.
   */
  function FlatNormal(a: Vector3f, b: Vector3f, c: Vector3f, sqrt: real -> real): Vector3f
  {
    Unit(Cross(Sub(b, a), Sub(c, a)), sqrt)
  }

  /** The flat normal is perpendicular to both edges, whatever the square root. */
  lemma FlatNormalOrthogonal(a: Vector3f, b: Vector3f, c: Vector3f, sqrt: real -> real)
    ensures Dot(FlatNormal(a, b, c, sqrt), Sub(b, a)) == 0.0 && Dot(FlatNormal(a, b, c, sqrt), Sub(c, a)) == 0.0
  {
    var n := Cross(Sub(b, a), Sub(c, a));
    CrossOrthogonal(Sub(b, a), Sub(c, a));
    var k := if sqrt(Norm2(n)) > 0.0 then 1.0 / sqrt(Norm2(n)) else 1.0;
    DotSymmetricLinear(n, Sub(b, a), k);
    DotSymmetricLinear(n, Sub(c, a), k);
  }

  /** With a true square root the flat normal has unit length unless the triangle is degenerate. */
  lemma FlatNormalUnit(a: Vector3f, b: Vector3f, c: Vector3f, sqrt: real -> real)
    requires IsSqrt(sqrt)
    ensures Cross(Sub(b, a), Sub(c, a)) != Zero() ==> Norm2(FlatNormal(a, b, c, sqrt)) == 1.0
  {
    UnitLength(Cross(Sub(b, a), Sub(c, a)), sqrt);
  }

  // ---------------------------------------------------------------------
  // Textures

  /** The index of the first texture called `name`, or -1. */
  function FirstNamed(list: seq<Texture>, name: string): (r: int)
    ensures -1 <= r < |list|
    ensures r == -1 <==> forall i :: 0 <= i < |list| ==> list[i].name != name
    ensures r >= 0 ==> list[r].name == name && forall i :: 0 <= i < r ==> list[i].name != name
  {
    if |list| == 0 then -1
    else if list[0].name == name then 0
    else
      var k := FirstNamed(list[1..], name);
      if k == -1 then -1 else k + 1
  }

  /** No two textures of the list share a name. */
  predicate DistinctNames(list: seq<Texture>)
  {
    forall i, j :: 0 <= i < j < |list| ==> list[i].name != list[j].name
  }

  /**
   * `loadTexture(name, textList)`: nothing happens when a texture called
   * `name` is already in the list; otherwise the file's texture, named
   * `name`, is appended. `contents` is what reading the file gives: a
   * texture, or the fault that stops the reader (a missing file or a
   * missing `P3` ends the program, a bad number throws).
   */
  method LoadTexture(name: string, textList: seq<Texture>, contents: Result<Texture, Fault>) returns (r: Result<seq<Texture>, Fault>)
    ensures FirstNamed(textList, name) >= 0 ==> r == Ok(textList)
    ensures FirstNamed(textList, name) == -1 && contents.Err? ==> r == Err(contents.error)
    ensures FirstNamed(textList, name) == -1 && contents.Ok? ==> r == Ok(textList + [contents.value.(name := name)])
    ensures r.Ok? ==> FirstNamed(r.value, name) >= 0
    ensures r.Ok? && DistinctNames(textList) ==> DistinctNames(r.value)
  {
    for i := 0 to |textList|
      invariant forall k :: 0 <= k < i ==> textList[k].name != name
    {
      if textList[i].name == name {
        return Ok(textList);
      }
    }
    if contents.Err? {
      return Err(contents.error);
    }
    var loaded := contents.value.(name := name);
    r := Ok(textList + [loaded]);
    assert r.value[|textList|].name == name;
  }

  /** The search loop of the map keywords: the index of the first texture called `name`, or -1. */
  method FindNamed(list: seq<Texture>, name: string) returns (i: int)
    ensures i == FirstNamed(list, name)
  {
    for k := 0 to |list|
      invariant forall j :: 0 <= j < k ==> list[j].name != name
    {
      if list[k].name == name {
        return k;
      }
    }
    return -1;
  }

  /** The per-channel remapping of a freshly loaded normal map: `c * 2 - 1`. */
  function Remap(c: Vector3f): Vector3f
  {
    var d := Scale(c, 2.0);
    Vector3f(d.x - 1.0, d.y - 1.0, d.z - 1.0)
  }

  /** Stored colours in `[0,1]` become tangent-space components in `[-1,1]`, and `(c + 1) / 2` undoes the remap. */
  lemma RemapRange(c: Vector3f)
    ensures var r := Remap(c);
            (0.0 <= c.x <= 1.0 ==> -1.0 <= r.x <= 1.0) && (0.0 <= c.y <= 1.0 ==> -1.0 <= r.y <= 1.0)
            && (0.0 <= c.z <= 1.0 ==> -1.0 <= r.z <= 1.0)
    ensures var r := Remap(c); Vector3f((r.x + 1.0) / 2.0, (r.y + 1.0) / 2.0, (r.z + 1.0) / 2.0) == c
  {
  }

  /** The loop of the `bump` keyword over a new map's pixels. */
  method RemapAll(rgb: seq<Vector3f>) returns (out: seq<Vector3f>)
    ensures |out| == |rgb| && forall i :: 0 <= i < |rgb| ==> out[i] == Remap(rgb[i])
  {
    out := rgb;
    for i := 0 to |out|
      invariant |out| == |rgb|
      invariant forall k :: 0 <= k < i ==> out[k] == Remap(rgb[k])
      invariant forall k :: i <= k < |out| ==> out[k] == rgb[k]
    {
      out := out[i := Remap(out[i])];
    }
  }

  /** `checkFloat` on every token, in order: whether all are float literals. */
  method CheckFloats(toks: seq<string>) returns (ok: bool)
    ensures ok <==> forall i :: 0 <= i < |toks| ==> IsFloatLiteral(toks[i])
  {
    for i := 0 to |toks|
      invariant forall k :: 0 <= k < i ==> IsFloatLiteral(toks[k])
    {
      ok := CheckFloat(toks[i]);
      if !ok {
        return;
      }
    }
    return true;
  }

  /**
   * An object consuming a "current" map index: when the index is set (not
   * -1) the object's slot takes it and the index goes back to -1; otherwise
   * both stay. Returns the new slot and the new index.
   */
  function Take(index: int, slot: int): (r: (int, int))
    ensures r.1 == -1
    ensures slot == -1 ==> r.0 == index
  {
    if index != -1 then (index, -1) else (slot, index)
  }

  /** The four texture-map keywords: `texture`, `bump`, `roughnessTexture`, `metallicTexture`. */
  datatype MapKind = Diffuse | Bump | Roughness | Metallic

  /** The three view vectors the keywords `eye`, `viewdir` and `updir` set. */
  datatype ViewVector = Eye | ViewDir | UpDir

  /** A scene object as the scene's list holds it. */
  datatype Shape = SphereShape(sphere: Sphere) | TriangleShape(triangle: Triangle)

  class PPMGenerator {
    var width: int
    var height: int
    var eyePos: Vector3f
    var viewdir: Vector3f
    var updir: Vector3f
    var bkgcolor: Vector3f
    var hfov: int
    var vertices: seq<Vector3f>
    var normals: seq<Vector3f>
    var textCoords: seq<Vector2f>
    var isTextureOn: bool
    var textIndex: int
    var bumpIndex: int
    var roughnessIndex: int
    var metallicIndex: int
    var mtlcolor: Material
    var diffuseMaps: seq<Texture>
    var normalMaps: seq<Texture>
    var roughnessMaps: seq<Texture>
    var metallicMaps: seq<Texture>
    var objList: seq<Shape>
    /** The scene's index of refraction; the source gives it no initial value. */
    var eta: real
    /** 0 for a perspective camera, 1 for an orthographic one. */
    var parallelProjection: int
    var depthCueing: bool
    var dc: Vector3f
    var amin: real
    var amax: real
    var distmin: real
    var distmax: real

    /**
     * The reader before any keyword: the sentinel values (-1 sizes and field
     * of view, `(FLT_MAX, 0, 0)` vectors), empty lists, texturing off and
     * every map index -1.
     */
    constructor ()
      ensures width == -1 && height == -1 && hfov == -1
      ensures eyePos == viewdir == updir == bkgcolor == Vector3f(FLT_MAX, 0.0, 0.0)
      ensures vertices == [] && normals == [] && textCoords == [] && objList == []
      ensures !isTextureOn && textIndex == -1 && bumpIndex == -1 && roughnessIndex == -1 && metallicIndex == -1
      ensures diffuseMaps == [] && normalMaps == [] && roughnessMaps == [] && metallicMaps == []
      ensures mtlcolor == DefaultMaterial()
      ensures parallelProjection == 0 && !depthCueing
      ensures !IsInitialized()
    {
      width, height, hfov := -1, -1, -1;
      eyePos := Vector3f(FLT_MAX, 0.0, 0.0);
      viewdir, updir, bkgcolor := eyePos, eyePos, eyePos;
      vertices, normals, textCoords, objList := [], [], [], [];
      isTextureOn := false;
      textIndex, bumpIndex, roughnessIndex, metallicIndex := -1, -1, -1, -1;
      diffuseMaps, normalMaps, roughnessMaps, metallicMaps := [], [], [], [];
      mtlcolor := DefaultMaterial();
      parallelProjection, depthCueing := 0, false;
    }

    /**
     * `isInitialized`: false while the size, the eye, the view and up
     * directions, the field of view or the background colour still holds its
     * sentinel (a vector's `x` within 0.00001 of `FLT_MAX`).
     */
    predicate IsInitialized()
      reads this
    {
      width != -1 && height != -1 && !FloatEqual(eyePos.x, FLT_MAX) && !FloatEqual(viewdir.x, FLT_MAX)
      && hfov != -1 && !FloatEqual(updir.x, FLT_MAX) && !FloatEqual(bkgcolor.x, FLT_MAX)
    }

    /**
     * Any setting the keywords can give (non-negative sizes and field of
     * view, `x` components at least 1 below `FLT_MAX`) makes the reader
     * initialised; a sentinel left anywhere keeps it uninitialised.
     */
    lemma InitializedBySettings()
      ensures (width >= 0 && height >= 0 && hfov >= 0 && eyePos.x <= FLT_MAX - 1.0 && viewdir.x <= FLT_MAX - 1.0
               && updir.x <= FLT_MAX - 1.0 && bkgcolor.x <= FLT_MAX - 1.0) ==> IsInitialized()
      ensures (width == -1 || height == -1 || hfov == -1 || eyePos.x == FLT_MAX || viewdir.x == FLT_MAX
               || updir.x == FLT_MAX || bkgcolor.x == FLT_MAX) ==> !IsInitialized()
    {
    }

    /** `getIndex(x, y)`: the row-major index `y * width + x` of pixel `(x, y)`. */
    function GetIndex(x: int, y: int): (r: int)
      reads this
      ensures 0 <= x < width && 0 <= y < height ==> 0 <= r < width * height && r % width == x && r / width == y
    {
      if 0 <= x < width && 0 <= y < height then RowMajor(x, y, width, height); y * width + x
      else y * width + x
    }

    /**
     * `writePixel` visits rows, then columns, through `getIndex`: every index
     * of the image comes from exactly one pixel.
     */
    lemma GetIndexBijective(i: int)
      requires width >= 0 && height >= 0 && 0 <= i < width * height
      ensures exists x, y :: 0 <= x < width && 0 <= y < height && GetIndex(x, y) == i
      ensures forall x, y, x', y' :: (0 <= x < width && 0 <= y < height && 0 <= x' < width && 0 <= y' < height
                && GetIndex(x, y) == i && GetIndex(x', y') == i) ==> x == x' && y == y'
    {
      Postprocessing.GridCovers(i, width, height);
      assert GetIndex(i % width, i / width) == i;
      forall x, y, x', y' | 0 <= x < width && 0 <= y < height && 0 <= x' < width && 0 <= y' < height
                && GetIndex(x, y) == i && GetIndex(x', y') == i
        ensures x == x' && y == y'
      {
        Postprocessing.GridIndexInjective(x, y, x', y', width, height);
      }
    }

    /** The texture list of a map kind. */
    function MapsOf(kind: MapKind): seq<Texture>
      reads this
    {
      match kind
      case Diffuse => diffuseMaps
      case Bump => normalMaps
      case Roughness => roughnessMaps
      case Metallic => metallicMaps
    }

    /** The "current" index of a map kind. */
    function IndexOf(kind: MapKind): int
      reads this
    {
      match kind
      case Diffuse => textIndex
      case Bump => bumpIndex
      case Roughness => roughnessIndex
      case Metallic => metallicIndex
    }

    /** Every reference of a token of the given form lies in its list. */
    predicate RefsInRange(form: FaceForm, ref: VertexRef)
      reads this`vertices, this`normals, this`textCoords
    {
      0 <= ref.v < |vertices|
      && (HasNormal(form) ==> 0 <= ref.vn < |normals|)
      && (HasTex(form) ==> 0 <= ref.vt < |textCoords|)
    }

    /**
     * A corner filled from a reference: the reference is in range and the
     * corner holds its vertex and, when the form has them, its normal and
     * its texture coordinates.
     */
    ghost predicate CornerFilled(form: FaceForm, ref: VertexRef, c: (Vector3f, Vector3f, Vector2f))
      reads this`vertices, this`normals, this`textCoords
    {
      RefsInRange(form, ref)
      && c.0 == vertices[ref.v]
      && (HasNormal(form) ==> c.1 == normals[ref.vn])
      && (HasTex(form) ==> c.2 == textCoords[ref.vt])
    }

    /**
     * The triangle a face of the given form fills in: corner `j` is filled
     * from the `j`-th reference, and a form without normals gives all three
     * corners the flat normal.
     */
    ghost predicate FaceFilled(form: FaceForm, refs: seq<VertexRef>, cs: seq<(Vector3f, Vector3f, Vector2f)>, sqrt: real -> real)
      requires |refs| == 3 && |cs| == 3
      reads this`vertices, this`normals, this`textCoords
    {
      CornerFilled(form, refs[0], cs[0]) && CornerFilled(form, refs[1], cs[1]) && CornerFilled(form, refs[2], cs[2])
      && (!HasNormal(form) ==> cs[0].1 == cs[1].1 == cs[2].1 == FlatNormal(cs[0].0, cs[1].0, cs[2].0, sqrt))
    }

    /**
     * One corner of a `process*` loop: fetch the vertex, then (when the form
     * has them) the normal and the texture coordinates through `getEleIn`,
     * keeping `prev`'s normal and texture coordinates otherwise. The first
     * reference out of range is `getEleIn`'s error.
     */
    method FetchCorner(form: FaceForm, ref: VertexRef, prev: (Vector3f, Vector3f, Vector2f))
      returns (r: Result<(Vector3f, Vector3f, Vector2f), Fault>)
      ensures r.Ok? <==> RefsInRange(form, ref)
      ensures r.Err? ==> r.error.OutOfBound?
      ensures r.Ok? ==> r.value.0 == vertices[ref.v]
      ensures r.Ok? ==> r.value.1 == if HasNormal(form) then normals[ref.vn] else prev.1
      ensures r.Ok? ==> r.value.2 == if HasTex(form) then textCoords[ref.vt] else prev.2
    {
      var (v, n, uv) := prev;
      var fv := GetEleIn(vertices, ref.v);
      if fv.Err? {
        return Err(fv.error);
      }
      v := fv.value;
      if HasNormal(form) {
        var fn := GetEleIn(normals, ref.vn);
        if fn.Err? {
          return Err(fn.error);
        }
        n := fn.value;
      }
      if HasTex(form) {
        var ft := GetEleIn(textCoords, ref.vt);
        if ft.Err? {
          return Err(ft.error);
        }
        uv := ft.value;
      }
      return Ok((v, n, uv));
    }

    /**
     * The corner loop of the `process*` functions: corner by corner, fetch
     * the vertex, then the normal, then the texture coordinates through
     * `getEleIn`. The first reference out of range throws `getEleIn`'s
     * error, at the first corner holding one.
     */
    method FillCorners(form: FaceForm, refs: seq<VertexRef>, t: Triangle) returns (r: Result<(), Fault>)
      requires |refs| == 3
      modifies t`v0, t`v1, t`v2, t`n0, t`n1, t`n2, t`uv0, t`uv1, t`uv2
      ensures r.Ok? <==> forall j :: 0 <= j < 3 ==> RefsInRange(form, refs[j])
      ensures r.Ok? ==> forall j :: 0 <= j < 3 ==> Corner(t, j).0 == vertices[refs[j].v]
      ensures r.Ok? && HasNormal(form) ==> forall j :: 0 <= j < 3 ==> Corner(t, j).1 == normals[refs[j].vn]
      ensures r.Ok? && HasTex(form) ==> forall j :: 0 <= j < 3 ==> Corner(t, j).2 == textCoords[refs[j].vt]
      ensures !HasTex(form) ==> forall j :: 0 <= j < 3 ==> Corner(t, j).2 == old(Corner(t, j).2)
      ensures r.Err? ==> r.error.OutOfBound? && exists j :: (0 <= j < 3 && !RefsInRange(form, refs[j])
                           && forall k :: 0 <= k < j ==> RefsInRange(form, refs[k]))
    {
      for i := 0 to 3
        invariant forall j :: 0 <= j < i ==> RefsInRange(form, refs[j])
        invariant forall j :: 0 <= j < i ==> Corner(t, j).0 == vertices[refs[j].v]
        invariant HasNormal(form) ==> forall j :: 0 <= j < i ==> Corner(t, j).1 == normals[refs[j].vn]
        invariant HasTex(form) ==> forall j :: 0 <= j < i ==> Corner(t, j).2 == textCoords[refs[j].vt]
        invariant !HasTex(form) ==> forall j :: 0 <= j < 3 ==> Corner(t, j).2 == old(Corner(t, j).2)
      {
        var c := FetchCorner(form, refs[i], Corner(t, i));
        if c.Err? {
          return Err(c.error);
        }
        SetCorner(t, i, c.value);
      }
      return Ok(());
    }

    /**
     * `processFlat`, `processSmooth`, `processFlatText` and
     * `processSmoothText`: the corner loop, after which a flat form gives
     * every corner the flat normal. Forms without texture coordinates leave
     * them as they were.
     */
    method ProcessFace(form: FaceForm, refs: seq<VertexRef>, t: Triangle, sqrt: real -> real) returns (r: Result<(), Fault>)
      requires |refs| == 3
      modifies t`v0, t`v1, t`v2, t`n0, t`n1, t`n2, t`uv0, t`uv1, t`uv2
      ensures r.Ok? <==> forall j :: 0 <= j < 3 ==> RefsInRange(form, refs[j])
      ensures r.Ok? ==> FaceFilled(form, refs, Corners(t), sqrt)
      ensures r.Ok? && !HasTex(form) ==> t.uv0 == old(t.uv0) && t.uv1 == old(t.uv1) && t.uv2 == old(t.uv2)
      ensures r.Err? ==> r.error.OutOfBound? && exists j :: (0 <= j < 3 && !RefsInRange(form, refs[j])
                           && forall k :: 0 <= k < j ==> RefsInRange(form, refs[k]))
    {
      r := FillCorners(form, refs, t);
      if r.Err? {
        return;
      }
      assert !HasTex(form) ==> t.uv0 == old(t.uv0) && t.uv1 == old(t.uv1) && t.uv2 == old(t.uv2) by {
        if !HasTex(form) {
          assert Corner(t, 0).2 == old(Corner(t, 0).2);
          assert Corner(t, 1).2 == old(Corner(t, 1).2);
          assert Corner(t, 2).2 == old(Corner(t, 2).2);
        }
      }
      if !HasNormal(form) {
        var normal := FlatNormal(t.v0, t.v1, t.v2, sqrt);
        t.n0, t.n1, t.n2 := normal, normal, normal;
      }
    }

    /**
     * The triangle of a face of a given form before the texture settings
     * apply: a fresh triangle of the current material, filled by the form's
     * `process*` function. A reference out of range is an error.
     */
    method MakeTriangle(form: FaceForm, refs: seq<VertexRef>, sqrt: real -> real) returns (r: Result<Triangle, Fault>)
      requires |refs| == 3
      ensures r.Ok? <==> forall j :: 0 <= j < 3 ==> RefsInRange(form, refs[j])
      ensures r.Err? ==> r.error.OutOfBound?
      ensures r.Ok? ==> fresh(r.value)
      ensures r.Ok? ==> FaceFilled(form, refs, Corners(r.value), sqrt)
      ensures r.Ok? ==> Settings(r.value) == (mtlcolor, false, false, -1, -1)
    {
      var t := new Triangle(Zero(), Zero(), Zero(), Zero(), Zero(), Zero());
      t.mtlcolor := mtlcolor;
      ghost var settings := Settings(t);
      var p := ProcessFace(form, refs, t, sqrt);
      if p.Err? {
        return Err(p.error);
      }
      assert Settings(t) == settings;
      return Ok(t);
    }

    /**
     * With texturing on, a new triangle gets the current texture and takes
     * the current bump map, whose index goes back to -1.
     */
    method AttachTriangleMaps(t: Triangle)
      requires t.normalMapIndex == -1
      modifies this`bumpIndex, t`isTextureActivated, t`textureIndex, t`normalMapIndex
      ensures t.isTextureActivated == (old(t.isTextureActivated) || isTextureOn)
      ensures t.textureIndex == (if isTextureOn then textIndex else old(t.textureIndex))
      ensures t.normalMapIndex == (if isTextureOn then old(bumpIndex) else -1)
      ensures bumpIndex == (if isTextureOn then -1 else old(bumpIndex))
    {
      if isTextureOn {
        t.isTextureActivated := true;
        t.textureIndex := textIndex;
        var (bumpSlot, bumpLeft) := Take(bumpIndex, t.normalMapIndex);
        t.normalMapIndex, bumpIndex := bumpSlot, bumpLeft;
      }
    }

    /**
     * A face `f t0 t1 t2`: the triangle of `MakeTriangle`, which with
     * texturing on gets the current texture and consumes the current bump
     * map (its index goes back to -1). The bounded triangle is appended to
     * the object list. On an error the reader changes nothing.
     */
    method ReadFace(toks: seq<string>, sqrt: real -> real) returns (r: Result<Triangle, Fault>)
      requires |toks| == 3
      modifies this`bumpIndex, this`objList
      ensures Classify(toks[0], toks[1], toks[2]).Err? ==> r == Err(BadFaceFormat)
      ensures r.Ok? <==> Classify(toks[0], toks[1], toks[2]).Ok?
                         && forall j :: 0 <= j < 3 ==> RefsInRange(Classify(toks[0], toks[1], toks[2]).value, TokenRef(toks[j]))
      ensures r.Err? ==> objList == old(objList) && bumpIndex == old(bumpIndex)
      ensures r.Ok? ==> fresh(r.value) && objList == old(objList) + [TriangleShape(r.value)]
      ensures r.Ok? ==> FaceFilled(Classify(toks[0], toks[1], toks[2]).value, FaceRefs(toks), Corners(r.value), sqrt)
      ensures r.Ok? ==> Settings(r.value) == FaceSettings(old(bumpIndex))
                        && bumpIndex == (if isTextureOn then -1 else old(bumpIndex))
      ensures r.Ok? ==> r.value.bound == TriangleBound(r.value.v0, r.value.v1, r.value.v2)
    {
      var form := Classify(toks[0], toks[1], toks[2]);
      if form.Err? {
        return Err(form.error);
      }
      r := AddFace(form.value, FaceRefs(toks), sqrt);
    }

    /** A face of a known form and references: `MakeTriangle`, then `AddTriangle`. */
    method AddFace(form: FaceForm, refs: seq<VertexRef>, sqrt: real -> real) returns (r: Result<Triangle, Fault>)
      requires |refs| == 3
      modifies this`bumpIndex, this`objList
      ensures r.Ok? <==> forall j :: 0 <= j < 3 ==> RefsInRange(form, refs[j])
      ensures r.Err? ==> r.error.OutOfBound? && objList == old(objList) && bumpIndex == old(bumpIndex)
      ensures r.Ok? ==> fresh(r.value) && objList == old(objList) + [TriangleShape(r.value)]
      ensures r.Ok? ==> FaceFilled(form, refs, Corners(r.value), sqrt)
      ensures r.Ok? ==> Settings(r.value) == FaceSettings(old(bumpIndex))
                        && bumpIndex == (if isTextureOn then -1 else old(bumpIndex))
      ensures r.Ok? ==> r.value.bound == TriangleBound(r.value.v0, r.value.v1, r.value.v2)
    {
      r := MakeTriangle(form, refs, sqrt);
      if r.Err? {
        return;
      }
      AddTriangle(r.value, form, refs, sqrt);
    }

    /**
     * The settings a new face gets when the bump index was `bump`: the
     * current material, no light, and with texturing on the current texture
     * and the bump map `bump` (else no texture and no bump map).
     */
    function FaceSettings(bump: int): (Material, bool, bool, int, int)
      reads this`mtlcolor, this`isTextureOn, this`textIndex
    {
      (mtlcolor, false, isTextureOn, if isTextureOn then textIndex else -1, if isTextureOn then bump else -1)
    }

    /**
     * The texture settings, the bound and the append that finish a face: a
     * filled triangle of the current material and no texture settings gets
     * the face settings and its bound, stays filled, and is appended.
     */
    method AddTriangle(t: Triangle, ghost form: FaceForm, ghost refs: seq<VertexRef>, ghost sqrt: real -> real)
      requires |refs| == 3 && FaceFilled(form, refs, Corners(t), sqrt)
      requires Settings(t) == (mtlcolor, false, false, -1, -1)
      modifies this`bumpIndex, this`objList, t`isTextureActivated, t`textureIndex, t`normalMapIndex, t`bound
      ensures objList == old(objList) + [TriangleShape(t)]
      ensures FaceFilled(form, refs, Corners(t), sqrt)
      ensures Settings(t) == FaceSettings(old(bumpIndex))
      ensures bumpIndex == (if isTextureOn then -1 else old(bumpIndex))
      ensures t.bound == TriangleBound(t.v0, t.v1, t.v2)
    {
      ghost var cs := Corners(t);
      AttachTriangleMaps(t);
      t.InitializeBound();
      objList := objList + [TriangleShape(t)];
      assert Corners(t) == cs;
    }

    /**
     * The sphere of `sphere x y z r` before the texture settings apply:
     * every token must be a float literal, else `checkFloat` throws; the
     * sphere gets the parsed center and radius and the current material.
     */
    method MakeSphere(toks: seq<string>, stof: string -> real) returns (r: Result<Sphere, Fault>)
      requires |toks| == 4
      ensures r.Err? <==> exists i :: 0 <= i < 4 && !IsFloatLiteral(toks[i])
      ensures r.Err? ==> r.error == NotAFloat
      ensures r.Ok? ==> fresh(r.value)
      ensures r.Ok? ==> r.value.centerPos == Vector3f(stof(toks[0]), stof(toks[1]), stof(toks[2]))
                        && r.value.radius == stof(toks[3])
      ensures r.Ok? ==> r.value.mtlcolor == mtlcolor && !r.value.isLight && !r.value.isTextureActivated
                        && r.value.textureIndex == -1 && r.value.normalMapIndex == -1
                        && r.value.roughnessMapIndex == -1 && r.value.metallicMapIndex == -1
    {
      var s := new Sphere();
      s.mtlcolor := mtlcolor;
      var ok := CheckFloats(toks);
      if !ok {
        return Err(NotAFloat);
      }
      s.centerPos := Vector3f(stof(toks[0]), stof(toks[1]), stof(toks[2]));
      s.radius := stof(toks[3]);
      return Ok(s);
    }

    /**
     * With texturing on, a new sphere gets the current texture and takes the
     * current bump, roughness and metallic maps, whose indices go back to -1.
     */
    method AttachSphereMaps(s: Sphere)
      requires s.normalMapIndex == -1 && s.roughnessMapIndex == -1 && s.metallicMapIndex == -1
      modifies this`bumpIndex, this`roughnessIndex, this`metallicIndex
      modifies s`isTextureActivated, s`textureIndex, s`normalMapIndex, s`roughnessMapIndex, s`metallicMapIndex
      ensures s.isTextureActivated == (old(s.isTextureActivated) || isTextureOn)
      ensures s.textureIndex == (if isTextureOn then textIndex else old(s.textureIndex))
      ensures s.normalMapIndex == (if isTextureOn then old(bumpIndex) else -1)
      ensures s.roughnessMapIndex == (if isTextureOn then old(roughnessIndex) else -1)
      ensures s.metallicMapIndex == (if isTextureOn then old(metallicIndex) else -1)
      ensures bumpIndex == (if isTextureOn then -1 else old(bumpIndex))
      ensures roughnessIndex == (if isTextureOn then -1 else old(roughnessIndex))
      ensures metallicIndex == (if isTextureOn then -1 else old(metallicIndex))
    {
      if isTextureOn {
        s.isTextureActivated := true;
        s.textureIndex := textIndex;
        var (bumpSlot, bumpLeft) := Take(bumpIndex, s.normalMapIndex);
        s.normalMapIndex, bumpIndex := bumpSlot, bumpLeft;
        var (roughnessSlot, roughnessLeft) := Take(roughnessIndex, s.roughnessMapIndex);
        s.roughnessMapIndex, roughnessIndex := roughnessSlot, roughnessLeft;
        var (metallicSlot, metallicLeft) := Take(metallicIndex, s.metallicMapIndex);
        s.metallicMapIndex, metallicIndex := metallicSlot, metallicLeft;
      }
    }

    /**
     * A sphere `sphere x y z r`: the sphere of `MakeSphere`, which with
     * texturing on gets the current texture and the current bump, roughness
     * and metallic maps, each of which is consumed (its index goes back to
     * -1). The bounded sphere is appended to the object list. On an error
     * the reader changes nothing.
     */
    method ReadSphere(toks: seq<string>, stof: string -> real) returns (r: Result<Sphere, Fault>)
      requires |toks| == 4
      modifies this`bumpIndex, this`roughnessIndex, this`metallicIndex, this`objList
      ensures r.Err? <==> exists i :: 0 <= i < 4 && !IsFloatLiteral(toks[i])
      ensures r.Err? ==> r.error == NotAFloat && objList == old(objList)
                         && bumpIndex == old(bumpIndex) && roughnessIndex == old(roughnessIndex)
                         && metallicIndex == old(metallicIndex)
      ensures r.Ok? ==> fresh(r.value) && objList == old(objList) + [SphereShape(r.value)]
      ensures r.Ok? ==> r.value.centerPos == Vector3f(stof(toks[0]), stof(toks[1]), stof(toks[2]))
                        && r.value.radius == stof(toks[3])
      ensures r.Ok? ==> r.value.mtlcolor == mtlcolor && !r.value.isLight
      ensures r.Ok? ==> r.value.isTextureActivated == isTextureOn
                        && r.value.textureIndex == (if isTextureOn then textIndex else -1)
                        && r.value.normalMapIndex == (if isTextureOn then old(bumpIndex) else -1)
                        && r.value.roughnessMapIndex == (if isTextureOn then old(roughnessIndex) else -1)
                        && r.value.metallicMapIndex == (if isTextureOn then old(metallicIndex) else -1)
                        && bumpIndex == (if isTextureOn then -1 else old(bumpIndex))
                        && roughnessIndex == (if isTextureOn then -1 else old(roughnessIndex))
                        && metallicIndex == (if isTextureOn then -1 else old(metallicIndex))
      ensures r.Ok? ==> r.value.bound == SphereBound(r.value.centerPos, r.value.radius)
    {
      r := MakeSphere(toks, stof);
      if r.Err? {
        return;
      }
      var s := r.value;
      AttachSphereMaps(s);
      s.InitializeBound();
      objList := objList + [SphereShape(s)];
    }

    /**
     * `v x y z`: the vertex is appended. Unlike `sphere`, `vn` and `vt`, this
     * keyword does not run `checkFloat` on its tokens.
     */
    method ReadVertex(toks: seq<string>, stof: string -> real)
      requires |toks| == 3
      modifies this`vertices
      ensures vertices == old(vertices) + [Vector3f(stof(toks[0]), stof(toks[1]), stof(toks[2]))]
    {
      vertices := vertices + [Vector3f(stof(toks[0]), stof(toks[1]), stof(toks[2]))];
    }

    /** `vn x y z`: the normalised normal is appended; a token that is no float literal throws. */
    method ReadNormal(toks: seq<string>, stof: string -> real, sqrt: real -> real) returns (r: Result<(), Fault>)
      requires |toks| == 3
      modifies this`normals
      ensures r.Err? <==> exists i :: 0 <= i < 3 && !IsFloatLiteral(toks[i])
      ensures r.Ok? ==> normals == old(normals) + [Unit(Vector3f(stof(toks[0]), stof(toks[1]), stof(toks[2])), sqrt)]
      ensures r.Err? ==> r.error == NotAFloat && normals == old(normals)
    {
      var ok := CheckFloats(toks);
      if !ok {
        return Err(NotAFloat);
      }
      normals := normals + [Unit(Vector3f(stof(toks[0]), stof(toks[1]), stof(toks[2])), sqrt)];
      return Ok(());
    }

    /** `vt u v`: the texture coordinates are appended; a token that is no float literal throws. */
    method ReadTextCoord(toks: seq<string>, stof: string -> real) returns (r: Result<(), Fault>)
      requires |toks| == 2
      modifies this`textCoords
      ensures r.Err? <==> exists i :: 0 <= i < 2 && !IsFloatLiteral(toks[i])
      ensures r.Ok? ==> textCoords == old(textCoords) + [Vector2f(stof(toks[0]), stof(toks[1]))]
      ensures r.Err? ==> r.error == NotAFloat && textCoords == old(textCoords)
    {
      var ok := CheckFloats(toks);
      if !ok {
        return Err(NotAFloat);
      }
      textCoords := textCoords + [Vector2f(stof(toks[0]), stof(toks[1]))];
      return Ok(());
    }

    /**
     * `imsize w h`: each token must be a digit string (`checkPosInt`) and
     * becomes the width, then the height. The width is stored before the
     * height is checked, so a bad height leaves the new width in place.
     * Tokens read with `>>` are never empty.
     */
    method ReadImsize(a: string, b: string) returns (r: Result<(), Fault>)
      requires |a| > 0 && |b| > 0
      modifies this`width, this`height
      ensures r.Err? <==> !AllDigits(a) || !AllDigits(b)
      ensures r.Err? ==> r.error == NotAPositiveNumber
      ensures !AllDigits(a) ==> width == old(width) && height == old(height)
      ensures AllDigits(a) ==> width == Stoi(a) && width >= 0
      ensures AllDigits(a) && AllDigits(b) ==> height == Stoi(b) && height >= 0
      ensures AllDigits(a) && !AllDigits(b) ==> height == old(height)
    {
      var ok := CheckPosInt(a);
      if !ok {
        return Err(NotAPositiveNumber);
      }
      width := Stoi(a);
      ok := CheckPosInt(b);
      if !ok {
        return Err(NotAPositiveNumber);
      }
      height := Stoi(b);
      return Ok(());
    }

    /** `hfov h`: the token must be a digit string and becomes the field of view. */
    method ReadHfov(a: string) returns (r: Result<(), Fault>)
      requires |a| > 0
      modifies this`hfov
      ensures r.Err? <==> !AllDigits(a)
      ensures r.Err? ==> r.error == NotAPositiveNumber && hfov == old(hfov)
      ensures r.Ok? ==> hfov == Stoi(a) && hfov >= 0
    {
      var ok := CheckPosInt(a);
      if !ok {
        return Err(NotAPositiveNumber);
      }
      hfov := Stoi(a);
      return Ok(());
    }

    /** The view vector a keyword sets. */
    function ViewVectorOf(key: ViewVector): Vector3f
      reads this
    {
      match key
      case Eye => eyePos
      case ViewDir => viewdir
      case UpDir => updir
    }

    /**
     * `eye`, `viewdir` and `updir`: three float literals (`checkFloat`
     * throws on any other token) become the vector; the other two are kept.
     */
    method ReadViewVector(key: ViewVector, toks: seq<string>, stof: string -> real) returns (r: Result<(), Fault>)
      requires |toks| == 3
      modifies this`eyePos, this`viewdir, this`updir
      ensures r.Err? <==> exists i :: 0 <= i < 3 && !IsFloatLiteral(toks[i])
      ensures r.Err? ==> r.error == NotAFloat
      ensures r.Ok? ==> ViewVectorOf(key) == Vector3f(stof(toks[0]), stof(toks[1]), stof(toks[2]))
      ensures forall k :: k != key || r.Err? ==> ViewVectorOf(k) == old(ViewVectorOf(k))
    {
      var ok := CheckFloats(toks);
      if !ok {
        return Err(NotAFloat);
      }
      var v := Vector3f(stof(toks[0]), stof(toks[1]), stof(toks[2]));
      match key {
        case Eye => eyePos := v;
        case ViewDir => viewdir := v;
        case UpDir => updir := v;
      }
      return Ok(());
    }

    /**
     * `bkgcolor r g b eta`: the first three float literals become the
     * background colour, then the fourth becomes the scene's `eta`. The
     * colour is stored before the fourth token is checked.
     */
    method ReadBkgColor(toks: seq<string>, stof: string -> real) returns (r: Result<(), Fault>)
      requires |toks| == 4
      modifies this`bkgcolor, this`eta
      ensures r.Err? <==> exists i :: 0 <= i < 4 && !IsFloatLiteral(toks[i])
      ensures r.Err? ==> r.error == NotAFloat && eta == old(eta)
      ensures (forall i :: 0 <= i < 3 ==> IsFloatLiteral(toks[i])) ==>
                bkgcolor == Vector3f(stof(toks[0]), stof(toks[1]), stof(toks[2]))
      ensures (exists i :: 0 <= i < 3 && !IsFloatLiteral(toks[i])) ==> bkgcolor == old(bkgcolor)
      ensures r.Ok? ==> eta == stof(toks[3])
    {
      var ok := CheckFloats(toks[..3]);
      if !ok {
        assert exists i :: 0 <= i < 3 && !IsFloatLiteral(toks[..3][i]);
        return Err(NotAFloat);
      }
      assert forall i :: 0 <= i < 3 ==> IsFloatLiteral(toks[..3][i]);
      bkgcolor := Vector3f(stof(toks[0]), stof(toks[1]), stof(toks[2]));
      ok := CheckFloat(toks[3]);
      if !ok {
        return Err(NotAFloat);
      }
      eta := stof(toks[3]);
      return Ok(());
    }

    /** `projection p`: the word `parallel` switches to an orthographic camera; any other word changes nothing. */
    method ReadProjection(a: string)
      modifies this`parallelProjection
      ensures parallelProjection == if a == "parallel" then 1 else old(parallelProjection)
    {
      if a == "parallel" {
        parallelProjection := 1;
      }
    }

    /**
     * `light` (7 numbers) and `attlight` (10 numbers): the tokens are only
     * checked to be float literals; no light is recorded.
     */
    method ReadLight(toks: seq<string>) returns (r: Result<(), Fault>)
      requires |toks| == 7 || |toks| == 10
      ensures r.Err? <==> exists i :: 0 <= i < |toks| && !IsFloatLiteral(toks[i])
      ensures r.Err? ==> r.error == NotAFloat
    {
      var ok := CheckFloats(toks);
      if !ok {
        return Err(NotAFloat);
      }
      return Ok(());
    }

    /**
     * `mtlcolor Odr Odg Odb Osr Osg Osb ka kd ks n alpha eta`: twelve float
     * literals set the current material's diffuse and specular colours, its
     * four Phong coefficients, `alpha` and `eta`, and texturing is switched
     * off so that the material's own diffuse colour is used again.
     */
    method ReadMtlColor(toks: seq<string>, stof: string -> real) returns (r: Result<(), Fault>)
      requires |toks| == 12
      modifies this`mtlcolor, this`isTextureOn
      ensures r.Err? <==> exists i :: 0 <= i < 12 && !IsFloatLiteral(toks[i])
      ensures r.Err? ==> r.error == NotAFloat && mtlcolor == old(mtlcolor) && isTextureOn == old(isTextureOn)
      ensures r.Ok? ==> !isTextureOn
      ensures r.Ok? ==> mtlcolor == old(mtlcolor).(
                diffuse := Vector3f(stof(toks[0]), stof(toks[1]), stof(toks[2])),
                specular := Vector3f(stof(toks[3]), stof(toks[4]), stof(toks[5])),
                ka := stof(toks[6]), kd := stof(toks[7]), ks := stof(toks[8]), n := stof(toks[9]),
                alpha := stof(toks[10]), eta := stof(toks[11]))
    {
      var ok := CheckFloats(toks);
      if !ok {
        return Err(NotAFloat);
      }
      mtlcolor := mtlcolor.(
        diffuse := Vector3f(stof(toks[0]), stof(toks[1]), stof(toks[2])),
        specular := Vector3f(stof(toks[3]), stof(toks[4]), stof(toks[5])),
        ka := stof(toks[6]), kd := stof(toks[7]), ks := stof(toks[8]), n := stof(toks[9]),
        alpha := stof(toks[10]), eta := stof(toks[11]));
      isTextureOn := false;
      return Ok(());
    }

    /**
     * `MICROFACET Odr Odg Odb alpha eta roughness metallic`: seven float
     * literals make the current material a microfacet one with that diffuse
     * colour, `alpha`, `eta`, roughness and metallic; texturing is unchanged.
     */
    method ReadMicrofacet(toks: seq<string>, stof: string -> real) returns (r: Result<(), Fault>)
      requires |toks| == 7
      modifies this`mtlcolor
      ensures r.Err? <==> exists i :: 0 <= i < 7 && !IsFloatLiteral(toks[i])
      ensures r.Err? ==> r.error == NotAFloat && mtlcolor == old(mtlcolor)
      ensures r.Ok? ==> mtlcolor == old(mtlcolor).(
                mType := MICROFACET,
                diffuse := Vector3f(stof(toks[0]), stof(toks[1]), stof(toks[2])),
                alpha := stof(toks[3]), eta := stof(toks[4]),
                roughness := stof(toks[5]), metallic := stof(toks[6]))
    {
      var ok := CheckFloats(toks);
      if !ok {
        return Err(NotAFloat);
      }
      mtlcolor := mtlcolor.(
        mType := MICROFACET,
        diffuse := Vector3f(stof(toks[0]), stof(toks[1]), stof(toks[2])),
        alpha := stof(toks[3]), eta := stof(toks[4]),
        roughness := stof(toks[5]), metallic := stof(toks[6]));
      return Ok(());
    }

    /** `SPECULAR_REFLECTIVE`: only the current material's type changes. */
    method ReadSpecularReflective()
      modifies this`mtlcolor
      ensures mtlcolor == old(mtlcolor).(mType := SPECULAR_REFLECTIVE)
    {
      mtlcolor := mtlcolor.(mType := SPECULAR_REFLECTIVE);
    }

    /**
     * `PERFECT_REFRACTIVE eta`: the current material becomes refractive
     * with that index; the token is not checked with `checkFloat`.
     */
    method ReadPerfectRefractive(t0: string, stof: string -> real)
      modifies this`mtlcolor
      ensures mtlcolor == old(mtlcolor).(mType := PERFECT_REFRACTIVE, eta := stof(t0))
    {
      mtlcolor := mtlcolor.(mType := PERFECT_REFRACTIVE, eta := stof(t0));
    }

    /**
     * `depthcueing r g b amax amin distmax distmin`: the flag is raised
     * before the seven tokens are checked, so it stays raised when one of
     * them is no float literal; otherwise they set the cueing colour and
     * the four limits.
     */
    method ReadDepthCueing(toks: seq<string>, stof: string -> real) returns (r: Result<(), Fault>)
      requires |toks| == 7
      modifies this`depthCueing, this`dc, this`amax, this`amin, this`distmax, this`distmin
      ensures depthCueing
      ensures r.Err? <==> exists i :: 0 <= i < 7 && !IsFloatLiteral(toks[i])
      ensures r.Err? ==> r.error == NotAFloat && dc == old(dc) && amax == old(amax) && amin == old(amin)
                           && distmax == old(distmax) && distmin == old(distmin)
      ensures r.Ok? ==> dc == Vector3f(stof(toks[0]), stof(toks[1]), stof(toks[2]))
                        && amax == stof(toks[3]) && amin == stof(toks[4])
                        && distmax == stof(toks[5]) && distmin == stof(toks[6])
    {
      depthCueing := true;
      var ok := CheckFloats(toks);
      if !ok {
        return Err(NotAFloat);
      }
      dc := Vector3f(stof(toks[0]), stof(toks[1]), stof(toks[2]));
      amax, amin, distmax, distmin := stof(toks[3]), stof(toks[4]), stof(toks[5]), stof(toks[6]);
      return Ok(());
    }

    /** Replaces the list and the index of one map kind. */
    method SetMaps(kind: MapKind, list: seq<Texture>, index: int)
      modifies this`diffuseMaps, this`normalMaps, this`roughnessMaps, this`metallicMaps,
              this`textIndex, this`bumpIndex, this`roughnessIndex, this`metallicIndex
      ensures MapsOf(kind) == list && IndexOf(kind) == index
      ensures forall k :: k != kind ==> MapsOf(k) == old(MapsOf(k)) && IndexOf(k) == old(IndexOf(k))
    {
      match kind {
        case Diffuse => diffuseMaps, textIndex := list, index;
        case Bump => normalMaps, bumpIndex := list, index;
        case Roughness => roughnessMaps, roughnessIndex := list, index;
        case Metallic => metallicMaps, metallicIndex := list, index;
      }
    }

    /**
     * The keywords `texture`, `bump`, `roughnessTexture` and
     * `metallicTexture`: load the named map (once), switch texturing on, and
     * point the kind's index at the map: the first one of that name when it
     * was loaded before, the new last entry otherwise. A newly loaded bump
     * map has every channel remapped by `c * 2 - 1`; a reused one is left as
     * it is. A failed load changes nothing.
     */
    method ReadMapKeyword(kind: MapKind, name: string, contents: Result<Texture, Fault>) returns (r: Result<(), Fault>)
      modifies this`isTextureOn, this`diffuseMaps, this`normalMaps, this`roughnessMaps, this`metallicMaps,
              this`textIndex, this`bumpIndex, this`roughnessIndex, this`metallicIndex
      ensures r.Err? <==> FirstNamed(old(MapsOf(kind)), name) == -1 && contents.Err?
      ensures r.Err? ==> r.error == contents.error && isTextureOn == old(isTextureOn)
                         && forall k :: MapsOf(k) == old(MapsOf(k)) && IndexOf(k) == old(IndexOf(k))
      ensures r.Ok? ==> isTextureOn
      ensures r.Ok? ==> 0 <= IndexOf(kind) < |MapsOf(kind)| && MapsOf(kind)[IndexOf(kind)].name == name
      ensures r.Ok? && FirstNamed(old(MapsOf(kind)), name) >= 0 ==>
                MapsOf(kind) == old(MapsOf(kind)) && IndexOf(kind) == FirstNamed(old(MapsOf(kind)), name)
      ensures r.Ok? && FirstNamed(old(MapsOf(kind)), name) == -1 ==>
                var loaded := contents.value.(name := name);
                IndexOf(kind) == |old(MapsOf(kind))|
                && MapsOf(kind) == old(MapsOf(kind)) + [if kind == Bump then loaded.(rgb := MapSeq(loaded.rgb)) else loaded]
      ensures forall k :: k != kind ==> MapsOf(k) == old(MapsOf(k)) && IndexOf(k) == old(IndexOf(k))
    {
      var list0 := MapsOf(kind);
      var size0 := |list0|;
      var loaded := LoadTexture(name, list0, contents);
      if loaded.Err? {
        return Err(loaded.error);
      }
      var list := loaded.value;
      isTextureOn := true;
      var size1 := |list|;
      var index := IndexOf(kind);
      if size0 == size1 {
        var i := FindNamed(list, name);
        if i >= 0 {
          index := i;
        }
      } else {
        index := size1 - 1;
        if kind == Bump {
          var rgb := RemapAll(list[index].rgb);
          assert rgb == MapSeq(list[index].rgb);
          list := list[index := list[index].(rgb := rgb)];
        }
      }
      SetMaps(kind, list, index);
      return Ok(());
    }
  }

  /** `Remap` applied to every pixel. */
  function MapSeq(rgb: seq<Vector3f>): (r: seq<Vector3f>)
    ensures |r| == |rgb| && forall i :: 0 <= i < |rgb| ==> r[i] == Remap(rgb[i])
  {
    seq(|rgb|, i requires 0 <= i < |rgb| => Remap(rgb[i]))
  }
}
