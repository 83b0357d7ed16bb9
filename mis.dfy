/**
 * The multiple-importance-sampling weight `BDPT::MISweight` of
 * include/BDPT.hpp: the weight of the strategy that joins `s` light
 * vertices with `t` eye vertices, by the power heuristic.
 *
 * The full path has `s + t` vertices x0 (on the light) .. xk (on the
 * camera), `k = s + t - 1`. Node `i` stores two area densities:
 * `towardLight`, the density of x(i-1) generated from x(i) (for x0: the
 * density of picking x0 on the light), and `towardEye`, the density of
 * x(i+1) generated from x(i) (for xk: the density of the camera point).
 * Two loops then walk away from the joint, multiplying ratios of these
 * densities, and sum their squares; a strategy next to a delta vertex
 * keeps its ratio but is left out of the sum.
 */
module MisWeights {
  import opened Vectors
  import opened Globals
  import opened Intersections
  import opened SceneObjects
  import opened Cameras
  import opened Sampling
  import opened Integrators
  import opened BdptPaths
  import SceneReader

  /** `bdpt::misNode`. */
  datatype MisNode = MisNode(towardLight: real, towardEye: real, isDelta: bool)

  /**
   * The densities `MISweight` re-evaluates at the joint: forward and
   * reverse densities at the eye end `tEnd` and the light end `sEnd`, and
   * the geometry term `gConnect` of the connecting edge (0 when `s == 0`,
   * where the source leaves it unset and never reads it).
   */
  datatype Cut = Cut(tEndFwd: real, tEndRev: real, sEndFwd: real, sEndRev: real, gConnect: real)

  // ---------------------------------------------------------------------
  // The joint

  /**
   * The joint densities, by the four cases of the source:
   * - `s == 0`: the eye end lies on a light; its forward density is the
   *   light-picking density `getLightPdf`, its reverse density the cosine
   *   density over the cosine;
   * - `t == 1`: the eye end is the camera; its forward density is the
   *   pinhole importance density `filmPlaneAreaInv * d^2 / cos^2` with
   *   `d = imagePlaneDist / cos` (signed cosine), its reverse density
   *   `lensAreaInv`; the light end's densities are the material densities
   *   between the camera direction and its predecessor;
   * - `s == 1`: the light end is the light point; its forward density is
   *   the cosine density over the cosine, its reverse density the stored
   *   pick density; the eye end's are the material densities;
   * - otherwise both ends take the material densities, each divided by the
   *   cosine of the outgoing direction at that end.
   */
  function CutDensities(sh: Shading, ep: seq<PathVert>, lp: seq<PathVert>, s: nat, t: nat,
                        cam: Camera, objs: seq<SceneObject>, lights: seq<int>): (c: Cut)
    reads cam
    requires 1 <= t <= |ep| && s <= |lp| && s + t > 2
    requires s == 0 && ep[t - 1].inter.intersected && |lights| > 0 ==> 0 <= ep[t - 1].inter.obj < |objs|
    ensures s == 0 ==> c.tEndFwd == GetLightPdf(ep[t - 1].inter, objs, lights)
    ensures t == 1 ==> c.tEndRev == cam.lensAreaInv
    ensures s == 1 ==> c.sEndRev == lp[0].revPdf
    ensures s > 0 ==> c.gConnect == Geo(lp[s - 1].inter.pos, lp[s - 1].inter.Ng, ep[t - 1].inter.pos, ep[t - 1].inter.Ng, sh.sqrt)
  {
    if s == 0 then
      var lightPrev, lightVert := ep[t - 2].inter, ep[t - 1].inter;
      var wo := Unit(Sub(lightPrev.pos, lightVert.pos), sh.sqrt);
      var cos := Abs(Dot(lightVert.Ng, wo));
      Cut(GetLightPdf(lightVert, objs, lights), Quotient(cos / M_PI, cos), 0.0, 0.0, 0.0)
    else
      var sEnd, tEnd := lp[s - 1].inter, ep[t - 1].inter;
      var gConnect := Geo(sEnd.pos, sEnd.Ng, tEnd.pos, tEnd.Ng, sh.sqrt);
      if t == 1 then
        var cam2sEnd := Unit(Sub(sEnd.pos, tEnd.pos), sh.sqrt);
        var camcos := Dot(tEnd.Ng, cam2sEnd);
        var d := Quotient(cam.imagePlaneDist, camcos);
        var s2prev := Unit(Sub(lp[s - 2].inter.pos, sEnd.pos), sh.sqrt);
        Cut(Quotient(Quotient(cam.filmPlaneAreaInv * d * d, camcos), camcos),
            cam.lensAreaInv,
            Quotient(DirPdf(sh, sEnd, Neg(cam2sEnd), s2prev, sEnd.Ns), Abs(Dot(Neg(cam2sEnd), sEnd.Ng))),
            Quotient(DirPdf(sh, sEnd, s2prev, Neg(cam2sEnd), sEnd.Ns), Abs(Dot(s2prev, sEnd.Ng))),
            gConnect)
      else if s == 1 then
        var light2tEnd := Unit(Sub(tEnd.pos, sEnd.pos), sh.sqrt);
        var cos := Dot(sEnd.Ng, light2tEnd);
        var t2prev := Unit(Sub(ep[t - 2].inter.pos, tEnd.pos), sh.sqrt);
        Cut(Quotient(DirPdf(sh, tEnd, Neg(light2tEnd), t2prev, tEnd.Ns), Abs(Dot(Neg(light2tEnd), tEnd.Ng))),
            Quotient(DirPdf(sh, tEnd, t2prev, Neg(light2tEnd), tEnd.Ns), Abs(Dot(t2prev, tEnd.Ng))),
            Quotient(cos / M_PI, cos),
            lp[0].revPdf,
            gConnect)
      else
        var s2t := Unit(Sub(tEnd.pos, sEnd.pos), sh.sqrt);
        var s2prev := Unit(Sub(lp[s - 2].inter.pos, sEnd.pos), sh.sqrt);
        var t2prev := Unit(Sub(ep[t - 2].inter.pos, tEnd.pos), sh.sqrt);
        Cut(Quotient(DirPdf(sh, tEnd, Neg(s2t), t2prev, tEnd.Ns), Abs(Dot(Neg(s2t), tEnd.Ng))),
            Quotient(DirPdf(sh, tEnd, t2prev, Neg(s2t), tEnd.Ns), Abs(Dot(t2prev, tEnd.Ng))),
            Quotient(DirPdf(sh, sEnd, s2t, s2prev, sEnd.Ns), Abs(Dot(s2t, sEnd.Ng))),
            Quotient(DirPdf(sh, sEnd, s2prev, s2t, sEnd.Ns), Abs(Dot(s2prev, sEnd.Ng))),
            gConnect)
  }

  // ---------------------------------------------------------------------
  // The nodes

  /**
   * Node `i` of the strategy `(s, t)`: light vertex `i` for `i < s`, eye
   * vertex `ti` at index `s + t - 1 - ti`. A vertex away from the joint
   * carries its stored reverse density times its `G` toward its own
   * subpath's start (the bare density at the start vertex) and its forward
   * density times the next vertex's `G` toward the joint; the two joint
   * vertices carry the re-evaluated `Cut` densities, times their own `G`
   * and `gConnect` (bare at a subpath's start, and toward the light when
   * the eye end is the light point).
   */
  function NodeAt(ep: seq<PathVert>, lp: seq<PathVert>, s: nat, t: nat, c: Cut, i: nat): MisNode
    requires 1 <= t <= |ep| && s <= |lp| && i < s + t
  {
    var k := s + t - 1;
    if i + 1 < s then
      MisNode(if i == 0 then lp[0].revPdf else lp[i].revPdf * lp[i].G, lp[i].fwdPdf * lp[i + 1].G, lp[i].isDelta)
    else if i + 1 == s then
      MisNode(if s == 1 then c.sEndRev else c.sEndRev * lp[s - 1].G, c.sEndFwd * c.gConnect, lp[s - 1].isDelta)
    else if i == s then
      MisNode(if s == 0 then c.tEndFwd else c.tEndFwd * c.gConnect,
              if t == 1 then c.tEndRev else c.tEndRev * ep[t - 1].G, ep[t - 1].isDelta)
    else
      var ti := k - i;
      MisNode(ep[ti].fwdPdf * ep[ti + 1].G, if ti == 0 then ep[0].revPdf else ep[ti].revPdf * ep[ti].G, ep[ti].isDelta)
  }

  /** All `s + t` nodes. */
  function Nodes(ep: seq<PathVert>, lp: seq<PathVert>, s: nat, t: nat, c: Cut): (n: seq<MisNode>)
    requires 1 <= t <= |ep| && s <= |lp|
    ensures |n| == s + t && forall i :: 0 <= i < s + t ==> n[i] == NodeAt(ep, lp, s, t, c, i)
  {
    seq(s + t, i requires 0 <= i < s + t => NodeAt(ep, lp, s, t, c, i))
  }

  /**
   * The node initialisation of `MISweight` into a fresh buffer of `s + t`
   * default nodes: the light vertices before the joint, the light end, the
   * eye vertices before the joint (from the camera inward), the eye end.
   * `writes` counts the writes to each index: every index is written
   * exactly once, and the buffer ends up holding `Nodes`.
   */
  method FillNodes(ep: seq<PathVert>, lp: seq<PathVert>, s: nat, t: nat, c: Cut)
    returns (nodes: array<MisNode>, ghost writes: seq<nat>)
    requires 1 <= t <= |ep| && s <= |lp|
    ensures fresh(nodes) && nodes[..] == Nodes(ep, lp, s, t, c)
    ensures |writes| == s + t && forall i :: 0 <= i < s + t ==> writes[i] == 1
  {
    nodes := new MisNode[s + t](_ => MisNode(0.0, 0.0, false));
    writes := seq(s + t, _ => 0);
    writes := FillLightNodes(nodes, ep, lp, s, t, c, writes);
    writes := FillEyeNodes(nodes, ep, lp, s, t, c, writes);
    assert forall j :: 0 <= j < s + t ==> nodes[j] == NodeAt(ep, lp, s, t, c, j);
  }

  /** The light part: the light vertices before the joint, then the light end. */
  method FillLightNodes(nodes: array<MisNode>, ep: seq<PathVert>, lp: seq<PathVert>, s: nat, t: nat, c: Cut, ghost w0: seq<nat>)
    returns (ghost writes: seq<nat>)
    requires 1 <= t <= |ep| && s <= |lp| && nodes.Length == s + t
    requires |w0| == s + t && forall j :: 0 <= j < s + t ==> w0[j] == 0
    modifies nodes
    ensures |writes| == s + t
    ensures forall j :: 0 <= j < s ==> writes[j] == 1 && nodes[j] == NodeAt(ep, lp, s, t, c, j)
    ensures forall j :: s <= j < s + t ==> writes[j] == 0
  {
    writes := w0;
    var i := 0;
    while i < s - 1
      invariant 0 <= i <= s && (s > 0 ==> i <= s - 1) && |writes| == s + t
      invariant forall j :: 0 <= j < i ==> writes[j] == 1 && nodes[j] == NodeAt(ep, lp, s, t, c, j)
      invariant forall j :: i <= j < s + t ==> writes[j] == 0
    {
      nodes[i] := MisNode(if i == 0 then lp[0].revPdf else lp[i].revPdf * lp[i].G, lp[i].fwdPdf * lp[i + 1].G, lp[i].isDelta);
      assert nodes[i] == NodeAt(ep, lp, s, t, c, i);
      writes := writes[i := writes[i] + 1];
      i := i + 1;
    }
    if s > 0 {
      nodes[s - 1] := MisNode(if s == 1 then c.sEndRev else c.sEndRev * lp[s - 1].G, c.sEndFwd * c.gConnect, lp[s - 1].isDelta);
      assert nodes[s - 1] == NodeAt(ep, lp, s, t, c, s - 1);
      writes := writes[s - 1 := writes[s - 1] + 1];
    }
  }

  /** The eye part: the eye vertices before the joint from the camera inward, then the eye end. */
  method FillEyeNodes(nodes: array<MisNode>, ep: seq<PathVert>, lp: seq<PathVert>, s: nat, t: nat, c: Cut, ghost w0: seq<nat>)
    returns (ghost writes: seq<nat>)
    requires 1 <= t <= |ep| && s <= |lp| && nodes.Length == s + t && |w0| == s + t
    requires forall j :: 0 <= j < s ==> w0[j] == 1 && nodes[j] == NodeAt(ep, lp, s, t, c, j)
    requires forall j :: s <= j < s + t ==> w0[j] == 0
    modifies nodes
    ensures |writes| == s + t
    ensures forall j :: 0 <= j < s + t ==> writes[j] == 1 && nodes[j] == NodeAt(ep, lp, s, t, c, j)
  {
    writes := w0;
    var k := s + t - 1;
    var ti := 0;
    while ti < t - 1
      invariant 0 <= ti <= t - 1 && |writes| == s + t
      invariant forall j :: 0 <= j < s ==> writes[j] == 1 && nodes[j] == NodeAt(ep, lp, s, t, c, j)
      invariant forall j :: s <= j <= k - ti ==> writes[j] == 0
      invariant forall j :: k - ti < j < s + t ==> writes[j] == 1 && nodes[j] == NodeAt(ep, lp, s, t, c, j)
    {
      nodes[k - ti] := MisNode(ep[ti].fwdPdf * ep[ti + 1].G, if ti == 0 then ep[0].revPdf else ep[ti].revPdf * ep[ti].G, ep[ti].isDelta);
      assert nodes[k - ti] == NodeAt(ep, lp, s, t, c, k - ti);
      writes := writes[k - ti := writes[k - ti] + 1];
      ti := ti + 1;
    }
    nodes[k - (t - 1)] := MisNode(if s == 0 then c.tEndFwd else c.tEndFwd * c.gConnect,
                                  if t == 1 then c.tEndRev else c.tEndRev * ep[t - 1].G, ep[t - 1].isDelta);
    assert nodes[s] == NodeAt(ep, lp, s, t, c, s);
    writes := writes[k - (t - 1) := writes[k - (t - 1)] + 1];
  }

  // ---------------------------------------------------------------------
  // The two loops, as functions of the nodes

  /** Forward step at `i`: the ratio `p(i+1) / p(i)` of the strategies' path densities. */
  function FwdRatio(n: seq<MisNode>, i: nat): real
    requires i + 1 < |n|
  {
    if i == 0 then Quotient(n[0].towardLight, n[1].towardLight)
    else Quotient(n[i - 1].towardEye, n[i + 1].towardLight)
  }

  /** The forward step at `i` leaves its strategy out when it touches a delta vertex. */
  predicate FwdSkip(n: seq<MisNode>, i: nat)
    requires i + 1 < |n|
  {
    if i == 0 then n[1].isDelta else n[i].isDelta || n[i + 1].isDelta
  }

  /** `p_i_plus_1` once the forward loop has reached `j`: the product of the ratios at `s .. j - 1`. */
  function FwdP(n: seq<MisNode>, s: nat, j: nat): real
    requires s <= j < |n|
    decreases j
  {
    if j == s then 1.0 else FwdP(n, s, j - 1) * FwdRatio(n, j - 1)
  }

  /** What the forward loop has added to the denominator once it reaches `j`. */
  function FwdSum(n: seq<MisNode>, s: nat, j: nat): (r: real)
    requires s <= j < |n|
    ensures r >= 0.0
    decreases j
  {
    if j == s then 0.0
    else
      var p := FwdP(n, s, j);
      FwdSum(n, s, j - 1) + if FwdSkip(n, j - 1) then 0.0 else Sq(p)
  }

  /** The power heuristic's square. */
  function Sq(x: real): (r: real)
    ensures r >= 0.0
  {
    x * x
  }

  /** Backward step at `i`: the ratio `p(i-1) / p(i)`. */
  function BwdRatio(n: seq<MisNode>, i: nat): real
    requires 1 <= i < |n|
  {
    if i == 1 then Quotient(n[1].towardLight, n[0].towardLight)
    else Quotient(n[i].towardLight, n[i - 2].towardEye)
  }

  /** The backward step at `i` leaves its strategy out when it touches a delta vertex. */
  predicate BwdSkip(n: seq<MisNode>, i: nat)
    requires 1 <= i < |n|
  {
    if i == 1 then n[0].isDelta else n[i - 1].isDelta || n[i - 2].isDelta
  }

  /** `p_i_minus_1` once the backward loop has come down to `j`: the product of the ratios at `s .. j + 1`. */
  function BwdP(n: seq<MisNode>, s: nat, j: nat): real
    requires j <= s < |n|
    decreases s - j
  {
    if j == s then 1.0 else BwdP(n, s, j + 1) * BwdRatio(n, j + 1)
  }

  /** What the backward loop has added to the denominator once it comes down to `j`. */
  function BwdSum(n: seq<MisNode>, s: nat, j: nat): (r: real)
    requires j <= s < |n|
    ensures r >= 0.0
    decreases s - j
  {
    if j == s then 0.0
    else
      var p := BwdP(n, s, j);
      BwdSum(n, s, j + 1) + if BwdSkip(n, j + 1) then 0.0 else Sq(p)
  }

  /** The denominator: 1 for the strategy itself plus both loops' sums. */
  function Denominator(n: seq<MisNode>, s: nat): (den: real)
    requires s < |n|
    ensures den >= 1.0
  {
    1.0 + FwdSum(n, s, |n| - 1) + BwdSum(n, s, 0)
  }

  /**
   * The weight from the denominator: `1 / den`, or 0 when that is below
   * `MIN_DIVISOR`. For a denominator of at least 1 it lies in [0, 1], and
   * it is either 0 or at least `MIN_DIVISOR`.
   */
  function WeightOf(den: real): (w: real)
    ensures den >= 1.0 ==> 0.0 <= w <= 1.0
    ensures w == 0.0 || w >= SceneReader.MIN_DIVISOR
    ensures w != 0.0 ==> w * den == 1.0
  {
    var res := Quotient(1.0, den);
    if res < SceneReader.MIN_DIVISOR then 0.0 else res
  }

  /**
   * `MISweight(epverts, lpverts, s, t, cam)`: 1 for a path of two
   * vertices, the weight of the nodes' denominator otherwise.
   */
  function MisWeightOf(sh: Shading, ep: seq<PathVert>, lp: seq<PathVert>, s: nat, t: nat,
                       cam: Camera, objs: seq<SceneObject>, lights: seq<int>): (w: real)
    reads cam
    requires 1 <= t <= |ep| && s <= |lp| && s + t >= 2
    requires s == 0 && ep[t - 1].inter.intersected && |lights| > 0 ==> 0 <= ep[t - 1].inter.obj < |objs|
    ensures s + t == 2 ==> w == 1.0
    ensures 0.0 <= w <= 1.0 && (w == 0.0 || w >= SceneReader.MIN_DIVISOR)
  {
    if s + t == 2 then 1.0
    else WeightOf(Denominator(Nodes(ep, lp, s, t, CutDensities(sh, ep, lp, s, t, cam, objs, lights)), s))
  }

  // ---------------------------------------------------------------------
  // The method

  /**
   * `MISweight`: re-evaluate the joint, fill the nodes, run the forward
   * loop (`t - 1` turns) and the backward loop (`s` turns) and invert the
   * denominator.
   */
  method MisWeight(sh: Shading, ep: seq<PathVert>, lp: seq<PathVert>, s: nat, t: nat,
                   cam: Camera, objs: seq<SceneObject>, lights: seq<int>)
    returns (w: real, ghost fwdTurns: nat, ghost bwdTurns: nat)
    requires 1 <= t <= |ep| && s <= |lp| && s + t >= 2
    requires s == 0 && ep[t - 1].inter.intersected && |lights| > 0 ==> 0 <= ep[t - 1].inter.obj < |objs|
    ensures w == MisWeightOf(sh, ep, lp, s, t, cam, objs, lights)
    ensures s + t > 2 ==> fwdTurns == t - 1 && bwdTurns == s
  {
    fwdTurns, bwdTurns := 0, 0;
    if s + t == 2 {
      return 1.0, 0, 0;
    }
    var c := CutDensities(sh, ep, lp, s, t, cam, objs, lights);
    var nodes, writes := FillNodes(ep, lp, s, t, c);
    var den;
    den, fwdTurns, bwdTurns := SumRatios(nodes, s);
    var res := 1.0 / den;
    if res < SceneReader.MIN_DIVISOR {
      return 0.0, fwdTurns, bwdTurns;
    }
    w := 1.0 / den;
  }

  /**
   * The two loops of `MISweight` over the nodes: the forward loop from the
   * joint toward the camera, then the backward loop from the joint toward
   * the light.
   */
  method SumRatios(nodes: array<MisNode>, s: nat) returns (den: real, ghost fwdTurns: nat, ghost bwdTurns: nat)
    requires s < nodes.Length && nodes.Length >= 2
    ensures den == Denominator(nodes[..], s)
    ensures fwdTurns == nodes.Length - 1 - s && bwdTurns == s
  {
    var fwd;
    fwd, fwdTurns := ForwardLoop(nodes, s);
    den, bwdTurns := BackwardLoop(nodes, s, fwd);
  }

  /**
   * `for (i = s; i < k; ++i)`: multiply `p` by the ratio at `i` and, unless
   * node `i + 1` (or, past the light point, node `i`) is delta, add `p^2`.
   * The loop runs `k - s = t - 1` times.
   */
  method ForwardLoop(nodes: array<MisNode>, s: nat) returns (den: real, ghost turns: nat)
    requires s < nodes.Length && nodes.Length >= 2
    ensures den == 1.0 + FwdSum(nodes[..], s, nodes.Length - 1)
    ensures turns == nodes.Length - 1 - s
  {
    ghost var n := nodes[..];
    var k := nodes.Length - 1;
    var p := 1.0;
    den := 1.0;
    turns := 0;
    for i := s to k
      invariant p == FwdP(n, s, i) && den == 1.0 + FwdSum(n, s, i)
      invariant turns == i - s
    {
      turns := turns + 1;
      if i == 0 {
        p := p * Quotient(nodes[0].towardLight, nodes[1].towardLight);
        assert p == FwdP(n, s, i + 1);
        assert FwdSum(n, s, i + 1) == FwdSum(n, s, i) + if FwdSkip(n, i) then 0.0 else Sq(p);
        if nodes[1].isDelta {
          assert den == 1.0 + FwdSum(n, s, i + 1);
          continue;
        }
      } else {
        p := p * Quotient(nodes[i - 1].towardEye, nodes[i + 1].towardLight);
        assert p == FwdP(n, s, i + 1);
        assert FwdSum(n, s, i + 1) == FwdSum(n, s, i) + if FwdSkip(n, i) then 0.0 else Sq(p);
        if nodes[i].isDelta || nodes[i + 1].isDelta {
          assert den == 1.0 + FwdSum(n, s, i + 1);
          continue;
        }
      }
      den := den + Sq(p);
      assert den == 1.0 + FwdSum(n, s, i + 1);
    }
  }

  /**
   * `for (i = s; i > 0; --i)`: multiply `p` by the ratio at `i` and, unless
   * node `i - 1` (or, before the light point, node `i - 2`) is delta, add
   * `p^2`. The loop runs `s` times; its `i == k + 1` branch, the strategy
   * `t == 0`, cannot be reached.
   */
  method BackwardLoop(nodes: array<MisNode>, s: nat, fwd: real) returns (den: real, ghost turns: nat)
    requires s < nodes.Length && nodes.Length >= 2
    ensures den == fwd + BwdSum(nodes[..], s, 0)
    ensures turns == s
  {
    ghost var n := nodes[..];
    var k := nodes.Length - 1;
    var p := 1.0;
    den := fwd;
    turns := 0;
    for i := s + 1 downto 1
      invariant p == BwdP(n, s, i - 1) && den == fwd + BwdSum(n, s, i - 1)
      invariant turns == s + 1 - i
    {
      turns := turns + 1;
      if i == k + 1 {
        assert false;
      } else if i == 1 {
        p := p * Quotient(nodes[1].towardLight, nodes[0].towardLight);
        assert p == BwdP(n, s, i - 1);
        assert BwdSum(n, s, i - 1) == BwdSum(n, s, i) + if BwdSkip(n, i) then 0.0 else Sq(p);
        if nodes[0].isDelta {
          assert den == fwd + BwdSum(n, s, i - 1);
          continue;
        }
      } else {
        p := p * Quotient(nodes[i].towardLight, nodes[i - 2].towardEye);
        assert p == BwdP(n, s, i - 1);
        assert BwdSum(n, s, i - 1) == BwdSum(n, s, i) + if BwdSkip(n, i) then 0.0 else Sq(p);
        if nodes[i - 1].isDelta || nodes[i - 2].isDelta {
          assert den == fwd + BwdSum(n, s, i - 1);
          continue;
        }
      }
      den := den + Sq(p);
      assert den == fwd + BwdSum(n, s, i - 1);
    }
  }

  // ---------------------------------------------------------------------
  // The power heuristic
  //
  // Vertex `i` of the path can be generated from the light side (picked on
  // a light when `i == 0`, sampled from vertex `i - 1` otherwise) or from
  // the eye side (the camera point when `i == k`, sampled from vertex
  // `i + 1` otherwise). The strategy with `j` light vertices generates
  // vertices `0 .. j - 1` from the light side and the rest from the eye
  // side; its path density is the product of those densities. The loops'
  // running products are ratios of such path densities, so the denominator
  // is the power heuristic's sum of squared ratios.

  /** Every entry is positive. */
  predicate AllPositive(xs: seq<real>)
  {
    forall i :: 0 <= i < |xs| ==> xs[i] > 0.0
  }

  /** The light-side densities `ls[0] * .. * ls[j - 1]`. */
  function LightProd(ls: seq<real>, j: nat): real
    requires j <= |ls|
  {
    if j == 0 then 1.0 else LightProd(ls, j - 1) * ls[j - 1]
  }

  /** The eye-side densities `es[j] * .. * es[|es| - 1]`. */
  function EyeProd(es: seq<real>, j: nat): real
    requires j <= |es|
    decreases |es| - j
  {
    if j == |es| then 1.0 else es[j] * EyeProd(es, j + 1)
  }

  /** The path density of the strategy with `j` light vertices. */
  function Density(ls: seq<real>, es: seq<real>, j: nat): real
    requires |ls| == |es| && j <= |ls|
  {
    LightProd(ls, j) * EyeProd(es, j)
  }

  /** The product of the ratios `ls[i] / es[i]` for `i` in `s .. j - 1`. */
  function UpRatio(ls: seq<real>, es: seq<real>, s: nat, j: nat): real
    requires |ls| == |es| && s <= j <= |ls|
    decreases j
  {
    if j == s then 1.0 else UpRatio(ls, es, s, j - 1) * Quotient(ls[j - 1], es[j - 1])
  }

  /** The product of the ratios `es[i] / ls[i]` for `i` in `j .. s - 1`. */
  function DownRatio(ls: seq<real>, es: seq<real>, s: nat, j: nat): real
    requires |ls| == |es| && j <= s <= |ls|
    decreases s - j
  {
    if j == s then 1.0 else DownRatio(ls, es, s, j + 1) * Quotient(es[j], ls[j])
  }

  /** Moving vertex `i` from the eye side to the light side trades `es[i]` for `ls[i]`. */
  lemma DensityStep(ls: seq<real>, es: seq<real>, i: nat)
    requires |ls| == |es| && i < |ls|
    ensures Density(ls, es, i + 1) * es[i] == Density(ls, es, i) * ls[i]
  {
    var a, e := LightProd(ls, i), EyeProd(es, i + 1);
    assert Density(ls, es, i + 1) == (a * ls[i]) * e;
    assert Density(ls, es, i) == a * (es[i] * e);
    assert (a * ls[i]) * e * es[i] == a * (es[i] * e) * ls[i];
  }

  /**
   * One telescoping step: from `f == f1 * r`, `f1 * p == q1`,
   * `q * e == q1 * l` and `r * e == l` with `e != 0`, `f * p == q`.
   */
  lemma Telescope(f: real, f1: real, r: real, p: real, q: real, q1: real, e: real, l: real)
    requires e != 0.0 && f == f1 * r && f1 * p == q1 && q * e == q1 * l && r * e == l
    ensures f * p == q
  {
    assert q * e == q1 * r * e;
    assert (q - q1 * r) * e == 0.0;
    assert f * p == q1 * r;
  }

  lemma {:induction false} UpTelescopes(ls: seq<real>, es: seq<real>, s: nat, j: nat)
    requires |ls| == |es| && AllPositive(es) && s <= j <= |ls|
    ensures UpRatio(ls, es, s, j) * Density(ls, es, s) == Density(ls, es, j)
    decreases j
  {
    if j > s {
      var i := j - 1;
      UpTelescopes(ls, es, s, i);
      DensityStep(ls, es, i);
      Telescope(UpRatio(ls, es, s, j), UpRatio(ls, es, s, i), Quotient(ls[i], es[i]),
        Density(ls, es, s), Density(ls, es, j), Density(ls, es, i), es[i], ls[i]);
    }
  }

  lemma {:induction false} DownTelescopes(ls: seq<real>, es: seq<real>, s: nat, j: nat)
    requires |ls| == |es| && AllPositive(ls) && j <= s <= |ls|
    ensures DownRatio(ls, es, s, j) * Density(ls, es, s) == Density(ls, es, j)
    decreases s - j
  {
    if j < s {
      DownTelescopes(ls, es, s, j + 1);
      DensityStep(ls, es, j);
      Telescope(DownRatio(ls, es, s, j), DownRatio(ls, es, s, j + 1), Quotient(es[j], ls[j]),
        Density(ls, es, s), Density(ls, es, j), Density(ls, es, j + 1), ls[j], es[j]);
    }
  }

  lemma {:induction false} LightProdPositive(ls: seq<real>, j: nat)
    requires AllPositive(ls) && j <= |ls|
    ensures LightProd(ls, j) > 0.0
  {
    if j > 0 {
      LightProdPositive(ls, j - 1);
      ProductSign(LightProd(ls, j - 1), ls[j - 1]);
    }
  }

  lemma {:induction false} EyeProdPositive(es: seq<real>, j: nat)
    requires AllPositive(es) && j <= |es|
    ensures EyeProd(es, j) > 0.0
    decreases |es| - j
  {
    if j < |es| {
      EyeProdPositive(es, j + 1);
      ProductSign(es[j], EyeProd(es, j + 1));
    }
  }

  /** With positive densities every strategy's path density is positive. */
  lemma DensityPositive(ls: seq<real>, es: seq<real>, j: nat)
    requires |ls| == |es| && AllPositive(ls) && AllPositive(es) && j <= |ls|
    ensures Density(ls, es, j) > 0.0
  {
    LightProdPositive(ls, j);
    EyeProdPositive(es, j);
    ProductSign(LightProd(ls, j), EyeProd(es, j));
  }

  /** From `f * p == q` with `p > 0`, `f` is the quotient `q / p`. */
  lemma QuotientOf(f: real, p: real, q: real)
    requires p > 0.0 && f * p == q
    ensures f == Quotient(q, p)
  {
    var r := Quotient(q, p);
    assert (f - r) * p == 0.0;
  }

  /** The product of the forward ratios is the ratio of the two strategies' path densities. */
  lemma UpIsDensityRatio(ls: seq<real>, es: seq<real>, s: nat, j: nat)
    requires |ls| == |es| && AllPositive(ls) && AllPositive(es) && s <= j <= |ls|
    ensures UpRatio(ls, es, s, j) == Quotient(Density(ls, es, j), Density(ls, es, s))
  {
    UpTelescopes(ls, es, s, j);
    DensityPositive(ls, es, s);
    QuotientOf(UpRatio(ls, es, s, j), Density(ls, es, s), Density(ls, es, j));
  }

  /** Likewise for the backward ratios. */
  lemma DownIsDensityRatio(ls: seq<real>, es: seq<real>, s: nat, j: nat)
    requires |ls| == |es| && AllPositive(ls) && AllPositive(es) && j <= s <= |ls|
    ensures DownRatio(ls, es, s, j) == Quotient(Density(ls, es, j), Density(ls, es, s))
  {
    DownTelescopes(ls, es, s, j);
    DensityPositive(ls, es, s);
    QuotientOf(DownRatio(ls, es, s, j), Density(ls, es, s), Density(ls, es, j));
  }

  /** The density of vertex `i` generated from the light side. */
  function LightSide(n: seq<MisNode>, i: nat): real
    requires i < |n|
  {
    if i == 0 then n[0].towardLight else n[i - 1].towardEye
  }

  /** The density of vertex `i` generated from the eye side. */
  function EyeSide(n: seq<MisNode>, i: nat): real
    requires i < |n|
  {
    if i == |n| - 1 then n[i].towardEye else n[i + 1].towardLight
  }

  function LightSides(n: seq<MisNode>): (ls: seq<real>)
    ensures |ls| == |n|
  {
    seq(|n|, i requires 0 <= i < |n| => LightSide(n, i))
  }

  function EyeSides(n: seq<MisNode>): (es: seq<real>)
    ensures |es| == |n|
  {
    seq(|n|, i requires 0 <= i < |n| => EyeSide(n, i))
  }

  /** Every node density is positive. */
  predicate Positive(n: seq<MisNode>)
  {
    forall i :: 0 <= i < |n| ==> n[i].towardLight > 0.0 && n[i].towardEye > 0.0
  }

  lemma SidesPositive(n: seq<MisNode>)
    requires Positive(n)
    ensures AllPositive(LightSides(n)) && AllPositive(EyeSides(n))
  {
  }

  /** The forward loop's ratio at `i` is vertex `i`'s light-side density over its eye-side density. */
  lemma FwdRatioIsSideRatio(n: seq<MisNode>, i: nat)
    requires i + 1 < |n|
    ensures FwdRatio(n, i) == Quotient(LightSides(n)[i], EyeSides(n)[i])
  {
  }

  /** The backward loop's ratio at `i` is vertex `i - 1`'s eye-side density over its light-side density. */
  lemma BwdRatioIsSideRatio(n: seq<MisNode>, i: nat)
    requires 1 <= i < |n|
    ensures BwdRatio(n, i) == Quotient(EyeSides(n)[i - 1], LightSides(n)[i - 1])
  {
  }

  lemma {:induction false} FwdPIsUpRatio(n: seq<MisNode>, s: nat, j: nat)
    requires s <= j < |n|
    ensures FwdP(n, s, j) == UpRatio(LightSides(n), EyeSides(n), s, j)
    decreases j
  {
    if j > s {
      FwdPIsUpRatio(n, s, j - 1);
      FwdRatioIsSideRatio(n, j - 1);
    }
  }

  lemma {:induction false} BwdPIsDownRatio(n: seq<MisNode>, s: nat, j: nat)
    requires j <= s < |n|
    ensures BwdP(n, s, j) == DownRatio(LightSides(n), EyeSides(n), s, j)
    decreases s - j
  {
    if j < s {
      BwdPIsDownRatio(n, s, j + 1);
      BwdRatioIsSideRatio(n, j + 1);
    }
  }

  /** The path density of the strategy with `j` light vertices. */
  function PathPdf(n: seq<MisNode>, j: nat): real
    requires j <= |n|
  {
    Density(LightSides(n), EyeSides(n), j)
  }

  /** The path density of strategy `j` relative to that of strategy `s`. */
  function PathRatio(n: seq<MisNode>, s: nat, j: nat): real
    requires s <= |n| && j <= |n|
  {
    Quotient(PathPdf(n, j), PathPdf(n, s))
  }

  /** Once the forward loop reaches `j`, its `p_i_plus_1` is `PathPdf(j) / PathPdf(s)`. */
  lemma FwdPIsPathRatio(n: seq<MisNode>, s: nat, j: nat)
    requires Positive(n) && s <= j < |n|
    ensures FwdP(n, s, j) == PathRatio(n, s, j)
  {
    SidesPositive(n);
    FwdPIsUpRatio(n, s, j);
    UpIsDensityRatio(LightSides(n), EyeSides(n), s, j);
  }

  /** Once the backward loop comes down to `j`, its `p_i_minus_1` is `PathPdf(j) / PathPdf(s)`. */
  lemma BwdPIsPathRatio(n: seq<MisNode>, s: nat, j: nat)
    requires Positive(n) && j <= s < |n|
    ensures BwdP(n, s, j) == PathRatio(n, s, j)
  {
    SidesPositive(n);
    BwdPIsDownRatio(n, s, j);
    DownIsDensityRatio(LightSides(n), EyeSides(n), s, j);
  }

  /** Whether the loops count the strategy with `j` light vertices, seen from the strategy `s`. */
  predicate Counted(n: seq<MisNode>, s: nat, j: nat)
    requires s < |n| && j < |n|
  {
    j == s || (s < j && !FwdSkip(n, j - 1)) || (j < s && !BwdSkip(n, j + 1))
  }

  /** The power heuristic's term for strategy `j`: its squared path-density ratio, if counted. */
  function PowerTerm(n: seq<MisNode>, s: nat, j: nat): (r: real)
    requires s < |n| && j < |n|
    ensures r >= 0.0
  {
    if Counted(n, s, j) then Sq(PathRatio(n, s, j)) else 0.0
  }

  /** `PowerTerm` summed over the strategies `lo .. hi - 1`. */
  function RangeSum(n: seq<MisNode>, s: nat, lo: nat, hi: nat): (r: real)
    requires s < |n| && hi <= |n|
    ensures r >= 0.0
    decreases hi
  {
    if hi <= lo then 0.0 else RangeSum(n, s, lo, hi - 1) + PowerTerm(n, s, hi - 1)
  }

  /** The power heuristic's sum over every strategy with `t >= 1`. */
  function PowerSum(n: seq<MisNode>, s: nat): real
    requires s < |n|
  {
    RangeSum(n, s, 0, |n|)
  }

  lemma {:induction false} RangeSumLow(n: seq<MisNode>, s: nat, lo: nat, hi: nat)
    requires s < |n| && lo < hi <= |n|
    ensures RangeSum(n, s, lo, hi) == PowerTerm(n, s, lo) + RangeSum(n, s, lo + 1, hi)
    decreases hi
  {
    if lo + 1 < hi {
      RangeSumLow(n, s, lo, hi - 1);
    }
  }

  lemma {:induction false} RangeSumSplit(n: seq<MisNode>, s: nat, lo: nat, mid: nat, hi: nat)
    requires s < |n| && lo <= mid <= hi <= |n|
    ensures RangeSum(n, s, lo, hi) == RangeSum(n, s, lo, mid) + RangeSum(n, s, mid, hi)
    decreases hi
  {
    if mid < hi {
      RangeSumSplit(n, s, lo, mid, hi - 1);
    }
  }

  /** What the forward loop adds is the power heuristic's sum over the strategies above `s`. */
  lemma {:induction false} FwdSumIsRangeSum(n: seq<MisNode>, s: nat, j: nat)
    requires Positive(n) && s <= j < |n|
    ensures FwdSum(n, s, j) == RangeSum(n, s, s + 1, j + 1)
    decreases j
  {
    if j > s {
      FwdSumIsRangeSum(n, s, j - 1);
      FwdPIsPathRatio(n, s, j);
      assert Counted(n, s, j) == !FwdSkip(n, j - 1);
    }
  }

  /** What the backward loop adds is the power heuristic's sum over the strategies below `s`. */
  lemma {:induction false} BwdSumIsRangeSum(n: seq<MisNode>, s: nat, j: nat)
    requires Positive(n) && j <= s < |n|
    ensures BwdSum(n, s, j) == RangeSum(n, s, j, s)
    decreases s - j
  {
    if j < s {
      BwdSumIsRangeSum(n, s, j + 1);
      BwdPIsPathRatio(n, s, j);
      assert Counted(n, s, j) == !BwdSkip(n, j + 1);
      RangeSumLow(n, s, j, s);
    }
  }

  /** The strategy itself contributes 1. */
  lemma SelfTerm(n: seq<MisNode>, s: nat)
    requires Positive(n) && s < |n|
    ensures PowerTerm(n, s, s) == 1.0
  {
    SidesPositive(n);
    DensityPositive(LightSides(n), EyeSides(n), s);
    QuotientOf(1.0, PathPdf(n, s), PathPdf(n, s));
  }

  /**
   * The denominator is the power heuristic's: with positive densities it
   * is the sum of `(PathPdf(j) / PathPdf(s))^2` over the strategies `j`
   * (with `t >= 1`) that the delta rules do not leave out.
   */
  lemma PowerHeuristic(n: seq<MisNode>, s: nat)
    requires Positive(n) && s < |n|
    ensures Denominator(n, s) == PowerSum(n, s)
  {
    FwdSumIsRangeSum(n, s, |n| - 1);
    BwdSumIsRangeSum(n, s, 0);
    SelfTerm(n, s);
    RangeSumSplit(n, s, 0, s, |n|);
    RangeSumLow(n, s, s, |n|);
  }

  /**
   * Hence the weight of a path with positive node densities is the power
   * heuristic's `1 / sum (PathPdf(j) / PathPdf(s))^2`, cut to 0 below
   * `MIN_DIVISOR`.
   */
  lemma MisWeightIsPowerHeuristic(sh: Shading, ep: seq<PathVert>, lp: seq<PathVert>, s: nat, t: nat,
                                  cam: Camera, objs: seq<SceneObject>, lights: seq<int>)
    requires 1 <= t <= |ep| && s <= |lp| && s + t > 2
    requires s == 0 && ep[t - 1].inter.intersected && |lights| > 0 ==> 0 <= ep[t - 1].inter.obj < |objs|
    requires Positive(Nodes(ep, lp, s, t, CutDensities(sh, ep, lp, s, t, cam, objs, lights)))
    ensures MisWeightOf(sh, ep, lp, s, t, cam, objs, lights)
         == WeightOf(PowerSum(Nodes(ep, lp, s, t, CutDensities(sh, ep, lp, s, t, cam, objs, lights)), s))
  {
    PowerHeuristic(Nodes(ep, lp, s, t, CutDensities(sh, ep, lp, s, t, cam, objs, lights)), s);
  }

  /** Two node sequences with the same densities. */
  predicate SameDensities(n: seq<MisNode>, m: seq<MisNode>)
  {
    |n| == |m| && forall i :: 0 <= i < |n| ==> n[i].towardLight == m[i].towardLight && n[i].towardEye == m[i].towardEye
  }

  /**
   * The delta flags decide only which squares the forward loop adds: its
   * running ratio is the same for any two node sequences with the same
   * densities.
   */
  lemma {:induction false} DeltaKeepsFwdRatio(n: seq<MisNode>, m: seq<MisNode>, s: nat, j: nat)
    requires SameDensities(n, m) && s <= j < |n|
    ensures FwdP(n, s, j) == FwdP(m, s, j)
    decreases j
  {
    if j > s {
      DeltaKeepsFwdRatio(n, m, s, j - 1);
      assert FwdRatio(n, j - 1) == FwdRatio(m, j - 1);
    }
  }

  /** Likewise for the backward loop's running ratio. */
  lemma {:induction false} DeltaKeepsBwdRatio(n: seq<MisNode>, m: seq<MisNode>, s: nat, j: nat)
    requires SameDensities(n, m) && j <= s < |n|
    ensures BwdP(n, s, j) == BwdP(m, s, j)
    decreases s - j
  {
    if j < s {
      DeltaKeepsBwdRatio(n, m, s, j + 1);
      assert BwdRatio(n, j + 1) == BwdRatio(m, j + 1);
    }
  }

  /**
   * The end nodes hold the densities of the path's end points: node 0's
   * `towardLight` is the density of picking x0 on a light (the light
   * vertex's stored `pickpdf`, or `getLightPdf` of the eye end when
   * `s == 0`), and node `k`'s `towardEye` that of the camera point
   * (`lensAreaInv` when `t == 1`, the camera vertex's `revPdf` otherwise).
   */
  lemma NodeEnds(sh: Shading, ep: seq<PathVert>, lp: seq<PathVert>, s: nat, t: nat,
                 cam: Camera, objs: seq<SceneObject>, lights: seq<int>)
    requires 1 <= t <= |ep| && s <= |lp| && s + t > 2
    requires s == 0 && ep[t - 1].inter.intersected && |lights| > 0 ==> 0 <= ep[t - 1].inter.obj < |objs|
    ensures var n := Nodes(ep, lp, s, t, CutDensities(sh, ep, lp, s, t, cam, objs, lights));
      && (s > 0 ==> n[0].towardLight == lp[0].revPdf)
      && (s == 0 ==> n[0].towardLight == GetLightPdf(ep[t - 1].inter, objs, lights))
      && (t == 1 ==> n[s + t - 1].towardEye == cam.lensAreaInv)
      && (t > 1 ==> n[s + t - 1].towardEye == ep[0].revPdf)
  {
    var c := CutDensities(sh, ep, lp, s, t, cam, objs, lights);
    var n := Nodes(ep, lp, s, t, c);
    assert n[0] == NodeAt(ep, lp, s, t, c, 0);
    assert n[s + t - 1] == NodeAt(ep, lp, s, t, c, s + t - 1);
  }

  /** Whatever the joint densities, light vertex `i` sits at index `i` and eye vertex `ti` at `k - ti`. */
  lemma NodeDeltas(ep: seq<PathVert>, lp: seq<PathVert>, s: nat, t: nat, c: Cut)
    requires 1 <= t <= |ep| && s <= |lp|
    ensures var n := Nodes(ep, lp, s, t, c);
      && (forall i :: 0 <= i < s ==> n[i].isDelta == lp[i].isDelta)
      && (forall ti :: 0 <= ti < t ==> n[s + t - 1 - ti].isDelta == ep[ti].isDelta)
  {
    var n := Nodes(ep, lp, s, t, c);
    forall ti | 0 <= ti < t
      ensures n[s + t - 1 - ti].isDelta == ep[ti].isDelta
    {
      assert n[s + t - 1 - ti] == NodeAt(ep, lp, s, t, c, s + t - 1 - ti);
    }
  }
}
