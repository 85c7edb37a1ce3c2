// The ADVANTG settings of ADVANTG/ADVANTG_Utilities.py: the defaults of
// `ADVANTG_Settings`, its keyword file reader `read_settings`, and the mesh
// that `Print_ADVANTG_Input` lays over the ETA: the plane positions along each
// axis, the number of mesh intervals between consecutive planes, and the
// Denovo block decomposition used on a cluster.
module Advantg {
  import opened Wrappers
  import opened PyMath
  import opened KeywordFile
  import EtaUtilities

  /** The attributes of `ADVANTG_Settings`. */
  datatype AdvantgKey =
    | Library | SolutionMethod | Outputs | TallyNumber | PointSource | MixTolerance
    | ScatteringOrder | EtaX | EtaY | EtaZ | FoilX | FoilY | FoilZ | External

  function KindOf(k: AdvantgKey): Kind
  {
    match k
    case Library | SolutionMethod | Outputs | PointSource => TextKind
    case TallyNumber | ScatteringOrder => IntKind
    case _ => RealKind
  }

  /** The keywords of the settings file, lower-cased, in the order the reader
      tests them. */
  const AdvantgTable: seq<(string, AdvantgKey)> := [
    ("library", Library), ("method", SolutionMethod), ("outputs", Outputs),
    ("tally number", TallyNumber), ("point source", PointSource),
    ("material mix tolerance", MixTolerance), ("scattering order", ScatteringOrder),
    ("eta x spacing interval", EtaX), ("eta y spacing interval", EtaY),
    ("eta z spacing interval", EtaZ), ("foil x spacing interval", FoilX),
    ("foil y spacing interval", FoilY), ("foil z spacing interval", FoilZ),
    ("external spacing interval", External)]

  /** The constructor's default arguments. */
  function DefaultValue(k: AdvantgKey): (v: Value)
    ensures HasKind(v, KindOf(k))
  {
    match k
    case Library => TextV("dplus")
    case SolutionMethod => TextV("cadis")
    case Outputs => TextV("mcnp silo")
    case TallyNumber => IntV(24)
    case PointSource => TextV("True")
    case MixTolerance => RealV(0.01)
    case ScatteringOrder => IntV(1)
    case EtaX => RealV(0.5)
    case EtaY => RealV(0.5)
    case EtaZ => RealV(0.5)
    case FoilX => RealV(0.25)
    case FoilY => RealV(0.25)
    case FoilZ => RealV(0.05)
    case External => RealV(1.0)
  }

  /** Settings for every keyword, each of its keyword's kind. */
  predicate Complete(attrs: map<AdvantgKey, Value>)
  {
    (forall k :: k in attrs) && Typed(KindOf, attrs)
  }

  function Defaults(): (attrs: map<AdvantgKey, Value>)
    ensures Complete(attrs)
    ensures forall k :: attrs[k] == DefaultValue(k)
  {
    map k: AdvantgKey | true :: DefaultValue(k)
  }

  /** Every attribute request of a settings file names a setting with a value
      of its kind, so reading keeps the settings complete. */
  lemma ReadKeepsComplete(attrs: map<AdvantgKey, Value>, lines: seq<string>)
    requires Complete(attrs)
    ensures Complete(Reached(attrs, Requests(AdvantgTable, PythonConversions, KindOf, lines), 0))
  {
    var reqs := Requests(AdvantgTable, PythonConversions, KindOf, lines);
    RequestsSound(AdvantgTable, PythonConversions, KindOf, lines);
    ReachedTyped(KindOf, attrs, reqs, 0);
  }

  class AdvantgSettings {
    var attrs: map<AdvantgKey, Value>

    predicate Valid()
      reads this
    {
      Complete(attrs)
    }

    constructor ()
      ensures attrs == Defaults() && Valid()
    {
      attrs := Defaults();
    }

    /** `read_settings` over the lines of the file: each line's request in
        turn; a value that does not convert stops the reading with the
        conversion's error. */
    method ReadSettings(lines: seq<string>) returns (r: Result<()>)
      requires Valid()
      modifies this
      ensures var reqs := Requests(AdvantgTable, PythonConversions, KindOf, lines);
        var read := ApplyFrom(old(attrs), reqs, 0);
        (r.Err? <==> read.Err?) && (r.Err? ==> r.error == read.error) &&
        attrs == Reached(old(attrs), reqs, 0)
      ensures Valid()
    {
      ReadKeepsComplete(attrs, lines);
      var read, reached := ApplyLines(AdvantgTable, PythonConversions, KindOf, attrs, lines);
      attrs := reached;
      if read.Err? {
        return Err(read.error);
      }
      return Ok(());
    }
  }

  // ---------------------------------------------------------------------------
  // Mesh of Print_ADVANTG_Input

  /** The radial planes along x (and y): the outer edge of the external
      region, the cone's outer radius and the TOAD foil radius, on both sides. */
  function RadialPlanes(rO: real, rToad: real, ext: real): (b: seq<real>)
    ensures |b| == 6
    ensures forall k :: 0 <= k < 6 ==> b[5 - k] == -b[k]
  {
    [-(rO + 2.0 * ext), -rO, -rToad, rToad, rO, rO + 2.0 * ext]
  }

  /** The spacings between consecutive radial planes: external, ETA, foil,
      ETA, external. */
  function RadialSpacings(ext: real, eta: real, foil: real): seq<real>
  {
    [ext, eta, foil, eta, ext]
  }

  /** The axial planes: below the target chamber centre, the ETA face, either
      side of the TOAD foil surface at vz, the snout mount and beyond it. */
  function AxialPlanes(ext: real, tccDist: real, toadZ: real, snoutDist: real, tM: real): (b: seq<real>)
    ensures |b| == 6 && b[0] == -ext && b[5] - b[4] == 2.0 * ext && b[3] - b[2] == 0.7003
  {
    [-ext, tccDist, toadZ - 0.25, toadZ + 0.4503, snoutDist + tM, snoutDist + tM + 2.0 * ext]
  }

  predicate Increasing(b: seq<real>)
  {
    forall k :: 0 < k < |b| ==> b[k - 1] < b[k]
  }

  lemma RadialPlanesIncreasing(rO: real, rToad: real, ext: real)
    requires 0.0 < rToad < rO && ext > 0.0
    ensures Increasing(RadialPlanes(rO, rToad, ext))
  {
  }

  /** `int(ceil((b[k+1] - b[k]) / spacing[k]))` for every pair of
      consecutive planes; a zero spacing raises ZeroDivisionError. */
  function Intervals(b: seq<real>, spacing: seq<real>): (r: Result<seq<int>>)
    requires |spacing| == |b| - 1
    ensures r.Ok? <==> forall k :: 0 <= k < |spacing| ==> spacing[k] != 0.0
    ensures r.Ok? ==> |r.value| == |spacing|
  {
    if exists k :: 0 <= k < |spacing| && spacing[k] == 0.0 then Err(ZeroDivisionError)
    else Ok(seq(|spacing|, k requires 0 <= k < |spacing| => Count(b[k + 1] - b[k], spacing[k])))
  }

  /** The number of mesh intervals of the given spacing across a gap. */
  function Count(gap: real, spacing: real): int
    requires spacing != 0.0
  {
    Ceil(gap / spacing)
  }

  lemma MulLess(x: real, y: real, s: real)
    requires x < y && s > 0.0
    ensures x * s < y * s
  {
  }

  lemma MulAtMost(x: real, y: real, s: real)
    requires x <= y && s > 0.0
    ensures x * s <= y * s
  {
  }

  /** `ceil(w / s)` intervals of width s are the fewest that cover w. */
  lemma CeilCover(w: real, s: real, n: int)
    requires w > 0.0 && s > 0.0 && n == Ceil(w / s)
    ensures n >= 1
    ensures (n as real - 1.0) * s < w
    ensures w <= n as real * s
  {
    var q := w / s;
    assert q * s == w;
    MulLess(n as real - 1.0, q, s);
    MulAtMost(q, n as real, s);
  }

  /** With positive spacings, each count is the least number of intervals of
      that spacing that cover the gap between the two planes, and is at least
      one when the planes increase. */
  lemma IntervalsCover(b: seq<real>, spacing: seq<real>, k: nat)
    requires |spacing| == |b| - 1 && k < |spacing| && Increasing(b)
    requires forall j :: 0 <= j < |spacing| ==> spacing[j] > 0.0
    ensures Intervals(b, spacing).Ok?
    ensures var n := Intervals(b, spacing).value[k];
      n >= 1 && (n as real - 1.0) * spacing[k] < b[k + 1] - b[k] <= n as real * spacing[k]
  {
    var n := Intervals(b, spacing).value;
    assert n[k] == Count(b[k + 1] - b[k], spacing[k]);
    assert b[k] < b[k + 1];
    CeilCover(b[k + 1] - b[k], spacing[k], n[k]);
  }

  /** The surface the z mesh is placed around: the first one commented
      "TOAD", else Python's index -1, the last surface. */
  function ToadSurface(surfaces: seq<(string, real)>, toad: string): (r: Result<nat>)
    ensures r.Err? <==> surfaces == []
    ensures r.Ok? ==> r.value < |surfaces|
    ensures r.Ok? && surfaces[r.value].0 != toad ==>
      r.value == |surfaces| - 1 && forall j :: 0 <= j < |surfaces| ==> surfaces[j].0 != toad
    ensures r.Ok? && surfaces[r.value].0 == toad ==> forall j :: 0 <= j < r.value ==> surfaces[j].0 != toad
  {
    if surfaces == [] then Err(IndexError("list index out of range"))
    else if surfaces[0].0 == toad then Ok(0)
    else if |surfaces| == 1 then Ok(0)
    else
      var r := ToadSurface(surfaces[1..], toad);
      Ok(r.value + 1)
  }

  /** The largest integer whose square is at most n: `floor(sqrt(n))`. */
  function FloorSqrt(n: nat): (r: nat)
    ensures r * r <= n < (r + 1) * (r + 1)
  {
    if n == 0 then 0
    else
      var s := FloorSqrt(n - 1);
      if (s + 1) * (s + 1) <= n then s + 1 else s
  }

  /** `ceil(sqrt(n))`. */
  function CeilSqrt(n: nat): (r: nat)
    ensures n <= r * r
    ensures r > 0 ==> (r - 1) * (r - 1) < n
  {
    var s := FloorSqrt(n);
    if s * s == n then s else s + 1
  }

  /** The Denovo x and y block counts differ by at most one and are equal
      exactly when the core count is a perfect square; their product never
      falls below the square of the x count nor exceeds the square of y. */
  lemma BlocksNearSquare(cores: nat)
    ensures var x := FloorSqrt(cores); var y := CeilSqrt(cores);
      x <= y <= x + 1 && (x == y <==> x * x == cores) && x * x <= cores <= y * y
  {
  }

  /** The mesh of one input deck. */
  datatype Mesh = Mesh(xPlanes: seq<real>, xInts: seq<int>, yPlanes: seq<real>, yInts: seq<int>,
                       zPlanes: seq<real>, zInts: seq<int>, blocks: Option<(nat, nat)>)

  function Real(attrs: map<AdvantgKey, Value>, k: AdvantgKey): real
    requires Complete(attrs) && KindOf(k) == RealKind
  {
    attrs[k].r
  }

  /** The mesh written by `Print_ADVANTG_Input` for the ETA parameters, the
      design's surfaces (comment and vz) and, on a cluster, the core count. */
  function MeshOf(eta: map<EtaUtilities.EtaKey, Value>, s: map<AdvantgKey, Value>,
                  surfaces: seq<(string, real)>, cores: Option<nat>): (r: Result<Mesh>)
    requires EtaUtilities.Complete(eta) && Complete(s)
    ensures r.Ok? ==> |r.value.xPlanes| == |r.value.yPlanes| == |r.value.zPlanes| == 6
    ensures r.Ok? ==> |r.value.xInts| == |r.value.yInts| == |r.value.zInts| == 5
    ensures r.Ok? ==> r.value.xPlanes == r.value.yPlanes
    ensures r.Ok? ==> (r.value.blocks.Some? <==> cores.Some?)
  {
    var ext := Real(s, External);
    var xb := RadialPlanes(eta[EtaUtilities.RO].r, eta[EtaUtilities.RToad].r, ext);
    var xi := Intervals(xb, RadialSpacings(ext, Real(s, EtaX), Real(s, FoilX)));
    var yi := Intervals(xb, RadialSpacings(ext, Real(s, EtaY), Real(s, FoilY)));
    var toad := ToadSurface(surfaces, "TOAD");
    if xi.Err? then Err(xi.error)
    else if yi.Err? then Err(yi.error)
    else if toad.Err? then Err(toad.error)
    else
      var zb := AxialPlanes(ext, eta[EtaUtilities.TccDist].r, surfaces[toad.value].1,
                            eta[EtaUtilities.SnoutDist].r, eta[EtaUtilities.TM].r);
      var zi := Intervals(zb, RadialSpacings(ext, Real(s, EtaZ), Real(s, FoilZ)));
      if zi.Err? then Err(zi.error)
      else
        var blocks := if cores.Some? then Some((FloorSqrt(cores.value), CeilSqrt(cores.value))) else None;
        Ok(Mesh(xb, xi.value, xb, yi.value, zb, zi.value, blocks))
  }

  /** The default spacings divide the x axis into 2 external cells of 1 cm
      on each side of the ETA, with the same number of 0.5 cm cells in the
      cone wall on both sides. */
  lemma DefaultRadialIntervals(rO: real, rToad: real)
    requires 0.0 < rToad < rO
    ensures Intervals(RadialPlanes(rO, rToad, 1.0), RadialSpacings(1.0, 0.5, 0.25)).Ok?
    ensures var n := Intervals(RadialPlanes(rO, rToad, 1.0), RadialSpacings(1.0, 0.5, 0.25)).value;
      n[0] == 2 && n[4] == 2 && n[1] == n[3]
  {
    var b := RadialPlanes(rO, rToad, 1.0);
    var n := Intervals(b, RadialSpacings(1.0, 0.5, 0.25)).value;
    assert n[0] == Ceil((b[1] - b[0]) / 1.0);
    assert (b[1] - b[0]) / 1.0 == 2.0;
    assert n[4] == Ceil((b[5] - b[4]) / 1.0);
    assert (b[5] - b[4]) / 1.0 == 2.0;
    assert b[2] - b[1] == b[4] - b[3];
  }
}
