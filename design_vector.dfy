// The design-variable vector that `Cell_Levy_Flights` and `Mutate` of
// Code/Metaheuristics.py build from a design's surfaces,
// [foil z, per vertical cell (z, dz, r1, r2), per horizontal cell (dz)],
// the bounds they put on it, and the write-back of a moved vector into the
// surfaces.
module DesignVector {
  import opened Wrappers
  import opened PyMath
  import opened Design

  /** The ETA dimensions the two operators read. */
  datatype Eta = Eta(tccDist: real, tW: real, tNas: real, tNasF: seq<real>, rNas: real, rF: real,
                     snoutDist: real, tM: real, tC: real, tDs: real, tH: real, rO: real,
                     maxVert: int, maxHoriz: int)
  {
    /** `tcc_dist + t_ds`: the plane the horizontal cells start from. */
    function Base(): real
    {
      tccDist + tDs
    }

    /** `snout_dist - t_c`: the highest plane a horizontal cell may reach. */
    function Ceiling(): real
    {
      snoutDist - tC
    }
  }

  const Epsilon: real := 0.0000001
  const OutOfRange: string := "index out of bounds"
  const PrevZUnbound: string := "local variable 'prev_z' referenced before assignment"
  const NasVzUnbound: string := "local variable 'nas_vz' referenced before assignment"

  // ---------------------------------------------------------------------------
  // Building the vector

  /** The state of the scan over the surfaces: the vector so far, the number
      of NAS surfaces seen (each adds a foil bound), the comment of the last
      vertical surface and the last horizontal plane (`prev_z`, which is not
      reset between designs). */
  datatype Scan = Scan(v: seq<real>, nas: nat, prevVert: Option<Role>, prevZ: Option<real>)

  /** What one surface adds: NAS its z; the first surface of a vertical cell
      its z, dz and r1, the second its r2; "horiz #1" its distance from the
      base plane and every other "horiz #k" its distance from the previous
      plane. `foilDiv` says that the foil bound computed at each NAS divides
      by zero (`Cell_Levy_Flights` computes it there, `Mutate` does not). */
  function Pick(s: Surface, st: Scan, base: real, foilDiv: bool): Result<Scan>
  {
    match s.role
    case NasRole =>
      if foilDiv then Err(ZeroDivisionError) else Ok(st.(v := st.v + [s.vz], nas := st.nas + 1))
    case VertRole(_) =>
      if st.prevVert == Some(s.role) then Ok(st.(v := st.v + [s.r]))
      else Ok(st.(v := st.v + [s.vz, s.hz, s.r], prevVert := Some(s.role)))
    case HorizRole(k) =>
      if k == 1 then Ok(st.(v := st.v + [s.d - base], prevZ := Some(s.d)))
      else if st.prevZ.None? then Err(UnboundLocalError(PrevZUnbound))
      else Ok(st.(v := st.v + [s.d - st.prevZ.value], prevZ := Some(s.d)))
    case _ => Ok(st)
  }

  /** The scan over all the surfaces, in order. */
  function PickAll(ss: seq<Surface>, st: Scan, base: real, foilDiv: bool): (r: Result<Scan>)
    ensures r.Ok? ==> |r.value.v| >= |st.v| && r.value.v[..|st.v|] == st.v
    ensures r.Ok? && foilDiv ==> r.value.nas == st.nas
  {
    if ss == [] then Ok(st)
    else match Pick(ss[0], st, base, foilDiv)
      case Err(e) => Err(e)
      case Ok(st1) => PickAll(ss[1..], st1, base, foilDiv)
  }

  /** The loop that builds `cur_d` for one design. */
  method BuildVector(ss: seq<Surface>, base: real, prevZ: Option<real>, foilDiv: bool) returns (r: Result<Scan>)
    ensures r == PickAll(ss, Scan([], 0, None, prevZ), base, foilDiv)
  {
    var st := Scan([], 0, None, prevZ);
    for i := 0 to |ss|
      invariant PickAll(ss, Scan([], 0, None, prevZ), base, foilDiv) == PickAll(ss[i..], st, base, foilDiv)
    {
      assert ss[i..][1..] == ss[i + 1..];
      var next := Pick(ss[i], st, base, foilDiv);
      if next.Err? {
        return Err(next.error);
      }
      st := next.value;
    }
    assert ss[|ss|..] == [];
    return Ok(st);
  }

  /** The horizontal planes of a list of surfaces, in order. */
  function Planes(ss: seq<Surface>): (p: seq<real>)
    ensures |p| <= |ss|
  {
    if ss == [] then []
    else if ss[0].role.HorizRole? then [ss[0].d] + Planes(ss[1..])
    else Planes(ss[1..])
  }

  /** Each plane's distance from the one before it, the first from b. */
  function Deltas(p: seq<real>, b: real): (r: seq<real>)
    ensures |r| == |p|
  {
    seq(|p|, k requires 0 <= k < |p| => p[k] - (if k == 0 then b else p[k - 1]))
  }

  /** The planes that the distances x put above b: each is b plus the sum of
      the distances up to and including its own. */
  function Absolute(x: seq<real>, b: real): (r: seq<real>)
    ensures |r| == |x|
  {
    seq(|x|, k requires 0 <= k < |x| => b + Sum(x[..k + 1]))
  }

  /** Reading the planes that `Absolute` builds gives the distances back. */
  lemma DeltasOfAbsolute(x: seq<real>, b: real)
    ensures Deltas(Absolute(x, b), b) == x
  {
    var a := Absolute(x, b);
    forall k | 0 <= k < |x| ensures Deltas(a, b)[k] == x[k] {
      assert x[..k + 1][..k] == x[..k];
      assert Sum(x[..k + 1]) == Sum(x[..k]) + x[k];
      if k == 0 {
        assert x[..k] == [];
      } else {
        assert a[k - 1] == b + Sum(x[..k]);
      }
    }
  }

  lemma {:induction false} AbsoluteOfDeltasAt(p: seq<real>, b: real, k: nat)
    requires k < |p|
    ensures b + Sum(Deltas(p, b)[..k + 1]) == p[k]
  {
    var d := Deltas(p, b);
    assert d[..k + 1][..k] == d[..k];
    if k == 0 {
      assert d[..k] == [];
    } else {
      AbsoluteOfDeltasAt(p, b, k - 1);
    }
  }

  /** Rebuilding planes from their distances gives the planes back. */
  lemma AbsoluteOfDeltas(p: seq<real>, b: real)
    ensures Absolute(Deltas(p, b), b) == p
  {
    forall k | 0 <= k < |p| ensures Absolute(Deltas(p, b), b)[k] == p[k] {
      AbsoluteOfDeltasAt(p, b, k);
    }
  }

  /** Horizontal planes after "horiz #1", none of them "horiz #1" again. */
  predicate LaterPlanes(hs: seq<Surface>)
  {
    forall k :: 0 <= k < |hs| ==> hs[k].role.HorizRole? && hs[k].role.k != 1
  }

  /** The horizontal planes of a design as `Parent` numbers them. */
  predicate HorizontalLayout(hs: seq<Surface>)
  {
    hs != [] && hs[0].role == HorizRole(1) && LaterPlanes(hs[1..])
  }

  lemma {:induction false} PickLater(hs: seq<Surface>, st: Scan, base: real, foilDiv: bool, z: real)
    requires LaterPlanes(hs) && st.prevZ == Some(z)
    ensures PickAll(hs, st, base, foilDiv).Ok?
    ensures PickAll(hs, st, base, foilDiv).value.v == st.v + Deltas(Planes(hs), z)
  {
    if hs != [] {
      var st1 := st.(v := st.v + [hs[0].d - z], prevZ := Some(hs[0].d));
      assert Pick(hs[0], st, base, foilDiv) == Ok(st1);
      assert Planes(hs) == [hs[0].d] + Planes(hs[1..]);
      assert Deltas(Planes(hs), z) == [hs[0].d - z] + Deltas(Planes(hs[1..]), hs[0].d);
      assert LaterPlanes(hs[1..]) by {
        forall k | 0 <= k < |hs[1..]| ensures hs[1..][k].role.HorizRole? && hs[1..][k].role.k != 1 {
          assert hs[1..][k] == hs[k + 1];
        }
      }
      PickLater(hs[1..], st1, base, foilDiv, hs[0].d);
    }
  }

  /** The horizontal part of the vector holds the distances between
      successive planes, the first measured from the base plane. */
  lemma PickHorizontal(hs: seq<Surface>, st: Scan, base: real, foilDiv: bool)
    requires HorizontalLayout(hs)
    ensures PickAll(hs, st, base, foilDiv).Ok?
    ensures PickAll(hs, st, base, foilDiv).value.v == st.v + Deltas(Planes(hs), base)
  {
    var st1 := st.(v := st.v + [hs[0].d - base], prevZ := Some(hs[0].d));
    PickLater(hs[1..], st1, base, foilDiv, hs[0].d);
  }

  // ---------------------------------------------------------------------------
  // Writing a vector back

  /** The state of the write-back: the entries still to be written, the
      comment of the last vertical surface, the last horizontal plane written
      (`prev_z`, 0 at the start) and the NAS z (`nas_vz`, which is not reset
      between designs). */
  datatype Writer = Writer(d: seq<real>, prevVert: Option<Role>, prevZ: real, nasVz: Option<real>)

  /** A horizontal plane below the previous one is raised to 0.1 above it
      when that stays under the ceiling, and to the previous one otherwise. */
  function RiseStep(x: real, prev: real, ceiling: real): (z: real)
    ensures z >= prev
    ensures x >= prev ==> z == x
    ensures x < prev && prev + 0.1 < ceiling ==> z == prev + 0.1
  {
    if x < prev then (if prev + 0.1 < ceiling then prev + 0.1 else prev) else x
  }

  predicate NonNeg(d: seq<real>)
  {
    forall k :: 0 <= k < |d| ==> d[k] >= 0.0
  }

  /** The NAS z and the z, dz and radius of a vertical surface are not negative. */
  predicate Placed(s: Surface)
  {
    (s.role.NasRole? ==> s.vz >= 0.0) && (s.role.VertRole? ==> s.vz >= 0.0 && s.hz >= 0.0 && s.r >= 0.0)
  }

  /** What the write-back does to one surface. A foil or the TOAD moves with
      the first entry (the NAS z) by its distance from z0; the NAS takes that
      entry; the holder and its fill follow the NAS; the first surface of a
      vertical cell takes z, dz, r1 and the second z, dz, r2, consuming the
      four; a horizontal plane takes its entry, raised if below the last. */
  function WriteOne(s: Surface, w: Writer, z0: real, tH: real, ceiling: real): (r: Result<(Surface, Writer)>)
    ensures r.Ok? ==> r.value.0.name == s.name && r.value.0.role == s.role
    ensures r.Ok? && !s.role.HorizRole? ==> r.value.0.d == s.d && r.value.1.prevZ == w.prevZ
    ensures r.Ok? && s.role.HorizRole? ==> r.value.0.d == r.value.1.prevZ >= w.prevZ
    ensures r.Ok? && NonNeg(w.d) ==> NonNeg(r.value.1.d) && Placed(r.value.0)
  {
    match s.role
    case FoilRole | ToadRole =>
      if w.d == [] then Err(IndexError(OutOfRange)) else Ok((s.(vz := s.vz + w.d[0] - z0), w))
    case NasRole =>
      if w.d == [] then Err(IndexError(OutOfRange))
      else Ok((s.(vz := w.d[0]), w.(d := w.d[1..], nasVz := Some(w.d[0]))))
    case HolderRole =>
      if w.nasVz.None? then Err(UnboundLocalError(NasVzUnbound)) else Ok((s.(vz := w.nasVz.value - tH), w))
    case HolderFillRole =>
      if w.nasVz.None? then Err(UnboundLocalError(NasVzUnbound)) else Ok((s.(vz := w.nasVz.value), w))
    case VertRole(_) =>
      if w.prevVert == Some(s.role) then
        if |w.d| < 4 then Err(IndexError(OutOfRange))
        else Ok((s.(vz := w.d[0], hz := w.d[1], r := w.d[3]), w.(d := w.d[4..])))
      else if |w.d| < 3 then Err(IndexError(OutOfRange))
      else Ok((s.(vz := w.d[0], hz := w.d[1], r := w.d[2]), w.(prevVert := Some(s.role))))
    case HorizRole(_) =>
      if w.d == [] then Err(IndexError(OutOfRange))
      else
        var z := RiseStep(w.d[0], w.prevZ, ceiling);
        Ok((s.(d := z), w.(d := w.d[1..], prevZ := z)))
    case _ => Ok((s, w))
  }

  /** The horizontal planes of ss are non-decreasing and none is below lo. */
  predicate PlanesRise(ss: seq<Surface>, lo: real)
  {
    (forall a :: 0 <= a < |ss| && ss[a].role.HorizRole? ==> lo <= ss[a].d)
    && forall a, b :: 0 <= a < b < |ss| && ss[a].role.HorizRole? && ss[b].role.HorizRole? ==> ss[a].d <= ss[b].d
  }

  /** The write-back over all the surfaces: every surface keeps its number
      and comment, the others are untouched, and the horizontal planes come
      out non-decreasing from the starting `prev_z`. */
  function WriteAll(ss: seq<Surface>, w: Writer, z0: real, tH: real, ceiling: real): (r: Result<(seq<Surface>, Writer)>)
    ensures r.Ok? ==> |r.value.0| == |ss|
    ensures r.Ok? ==> forall k :: 0 <= k < |ss| ==>
      r.value.0[k].name == ss[k].name && r.value.0[k].role == ss[k].role
      && (ss[k].role.OtherRole? || ss[k].role.HorizStartRole? ==> r.value.0[k] == ss[k])
    ensures r.Ok? ==> PlanesRise(r.value.0, w.prevZ) && r.value.1.prevZ >= w.prevZ
    ensures r.Ok? ==> forall a :: 0 <= a < |ss| && ss[a].role.HorizRole? ==> r.value.0[a].d <= r.value.1.prevZ
    ensures r.Ok? && NonNeg(w.d) ==> forall k :: 0 <= k < |ss| ==> Placed(r.value.0[k])
  {
    if ss == [] then Ok(([], w))
    else match WriteOne(ss[0], w, z0, tH, ceiling)
      case Err(e) => Err(e)
      case Ok(one) =>
        match WriteAll(ss[1..], one.1, z0, tH, ceiling)
        case Err(e) => Err(e)
        case Ok(rest) => Ok(([one.0] + rest.0, rest.1))
  }

  /** `r` with `out` written before the surfaces it holds. */
  ghost function After(out: seq<Surface>, r: Result<(seq<Surface>, Writer)>): Result<(seq<Surface>, Writer)>
  {
    if r.Err? then r else Ok((out + r.value.0, r.value.1))
  }

  /** The loop that writes a moved vector back into one design's surfaces. */
  method WriteBack(ss: seq<Surface>, w0: Writer, z0: real, tH: real, ceiling: real)
    returns (r: Result<(seq<Surface>, Writer)>)
    ensures r == WriteAll(ss, w0, z0, tH, ceiling)
  {
    var out: seq<Surface> := [];
    var w := w0;
    assert After(out, WriteAll(ss, w, z0, tH, ceiling)) == WriteAll(ss, w0, z0, tH, ceiling) by {
      if WriteAll(ss, w, z0, tH, ceiling).Ok? {
        assert [] + WriteAll(ss, w, z0, tH, ceiling).value.0 == WriteAll(ss, w, z0, tH, ceiling).value.0;
      }
    }
    for i := 0 to |ss|
      invariant WriteAll(ss, w0, z0, tH, ceiling) == After(out, WriteAll(ss[i..], w, z0, tH, ceiling))
    {
      assert ss[i..][1..] == ss[i + 1..];
      var one := WriteOne(ss[i], w, z0, tH, ceiling);
      if one.Err? {
        return Err(one.error);
      }
      var rest := WriteAll(ss[i + 1..], one.value.1, z0, tH, ceiling);
      if rest.Ok? {
        assert out + ([one.value.0] + rest.value.0) == (out + [one.value.0]) + rest.value.0;
      }
      out, w := out + [one.value.0], one.value.1;
    }
    assert ss[|ss|..] == [];
    assert out + [] == out;
    return Ok((out, w));
  }

  /** Planes that never fall below the previous one are written as they are. */
  predicate RisingFrom(p: seq<real>, lo: real)
  {
    (|p| > 0 ==> lo <= p[0]) && forall k :: 1 <= k < |p| ==> p[k - 1] <= p[k]
  }

  /** Rising planes are none of them below the plane they rise from. */
  lemma {:induction false} RisingAbove(p: seq<real>, lo: real, k: nat)
    requires RisingFrom(p, lo) && k < |p|
    ensures lo <= p[k]
  {
    if k > 0 {
      RisingAbove(p, lo, k - 1);
    }
  }

  lemma {:induction false} WritePlanes(hs: seq<Surface>, w: Writer, z0: real, tH: real, ceiling: real)
    requires forall k :: 0 <= k < |hs| ==> hs[k].role.HorizRole?
    requires |w.d| >= |hs| && RisingFrom(w.d[..|hs|], w.prevZ)
    ensures WriteAll(hs, w, z0, tH, ceiling).Ok?
    ensures var out := WriteAll(hs, w, z0, tH, ceiling).value.0;
      forall k :: 0 <= k < |hs| ==> out[k] == hs[k].(d := w.d[k])
  {
    if hs != [] {
      var w1 := w.(d := w.d[1..], prevZ := w.d[0]);
      assert w.d[..|hs|][0] == w.d[0];
      assert w.prevZ <= w.d[..|hs|][0];
      assert RiseStep(w.d[0], w.prevZ, ceiling) == w.d[0];
      assert WriteOne(hs[0], w, z0, tH, ceiling) == Ok((hs[0].(d := w.d[0]), w1));
      assert w1.d[..|hs[1..]|] == w.d[1..|hs|];
      assert RisingFrom(w1.d[..|hs[1..]|], w1.prevZ) by {
        forall k | 0 <= k < |hs| - 1
          ensures (if k == 0 then w1.prevZ else w1.d[k - 1]) <= w1.d[k]
        {
          assert w.d[..|hs|][k + 1] == w1.d[k] && w.d[..|hs|][k] == w.d[k];
        }
      }
      WritePlanes(hs[1..], w1, z0, tH, ceiling);
    }
  }

  /** Entries in [lo, ceiling] reaching horizontal surfaces with prev_z at
      most the ceiling are all written, and every plane written lies in
      [lo, ceiling]: the rise step never lifts a plane over the ceiling. */
  lemma {:induction false} WritePlanesWithin(hs: seq<Surface>, w: Writer, z0: real, tH: real, ceiling: real, lo: real)
    requires forall k :: 0 <= k < |hs| ==> hs[k].role.HorizRole?
    requires |w.d| >= |hs| && w.prevZ <= ceiling
    requires forall k :: 0 <= k < |hs| ==> lo <= w.d[k] <= ceiling
    ensures WriteAll(hs, w, z0, tH, ceiling).Ok?
    ensures var out := WriteAll(hs, w, z0, tH, ceiling).value.0;
      forall k :: 0 <= k < |hs| ==> lo <= out[k].d <= ceiling
  {
    if hs != [] {
      var z := RiseStep(w.d[0], w.prevZ, ceiling);
      var w1 := w.(d := w.d[1..], prevZ := z);
      assert lo <= z <= ceiling;
      assert WriteOne(hs[0], w, z0, tH, ceiling) == Ok((hs[0].(d := z), w1));
      forall k | 0 <= k < |hs| - 1 ensures lo <= w1.d[k] <= ceiling {
        assert w1.d[k] == w.d[k + 1];
      }
      WritePlanesWithin(hs[1..], w1, z0, tH, ceiling, lo);
    }
  }

  /** The planes of horizontal surfaces are their positions, one each. */
  lemma PlanesOfHorizontal(hs: seq<Surface>)
    requires forall k :: 0 <= k < |hs| ==> hs[k].role.HorizRole?
    ensures |Planes(hs)| == |hs| && forall k :: 0 <= k < |hs| ==> Planes(hs)[k] == hs[k].d
  {
    PlanesOfWritten(hs, hs, seq(|hs|, k requires 0 <= k < |hs| => hs[k].d));
  }

  /** Horizontal surfaces handed back their own rising planes are left as
      they are. */
  lemma WriteKeepsPlanes(hs: seq<Surface>, w: Writer, z0: real, tH: real, ceiling: real)
    requires forall k :: 0 <= k < |hs| ==> hs[k].role.HorizRole?
    requires |w.d| >= |hs| && w.d[..|hs|] == Planes(hs) && RisingFrom(Planes(hs), w.prevZ)
    ensures WriteAll(hs, w, z0, tH, ceiling).Ok?
    ensures WriteAll(hs, w, z0, tH, ceiling).value.0 == hs
  {
    PlanesOfHorizontal(hs);
    WritePlanes(hs, w, z0, tH, ceiling);
    assert WriteAll(hs, w, z0, tH, ceiling).value.0 == hs;
  }

  /** The planes `Absolute` builds from non-negative distances rise from b. */
  lemma AbsoluteRises(x: seq<real>, b: real)
    requires forall k :: 0 <= k < |x| ==> x[k] >= 0.0
    ensures RisingFrom(Absolute(x, b), b)
  {
    var a := Absolute(x, b);
    if |x| > 0 {
      assert x[..1][..0] == [];
      assert a[0] == b + Sum(x[..1]) == b + x[0];
    }
    forall k | 1 <= k < |x| ensures a[k - 1] <= a[k] {
      assert x[..k + 1][..k] == x[..k];
      assert a[k] == b + Sum(x[..k + 1]) == b + Sum(x[..k]) + x[k];
      assert a[k - 1] == b + Sum(x[..k]);
    }
  }

  /** Writing the planes that non-negative distances x put above the base
      plane into a design's horizontal surfaces, and building the vector
      again, gives x back: the write-back and the build are inverse. */
  lemma PlanesRoundTrip(hs: seq<Surface>, x: seq<real>, w: Writer, z0: real, tH: real, ceiling: real,
                        st: Scan, base: real, foilDiv: bool)
    requires HorizontalLayout(hs) && |x| == |hs|
    requires forall k :: 0 <= k < |x| ==> x[k] >= 0.0
    requires w.d == Absolute(x, base) && w.prevZ <= base
    ensures WriteAll(hs, w, z0, tH, ceiling).Ok?
    ensures var out := WriteAll(hs, w, z0, tH, ceiling).value.0;
      PickAll(out, st, base, foilDiv).Ok? && PickAll(out, st, base, foilDiv).value.v == st.v + x
  {
    AbsoluteRises(x, base);
    assert w.d[..|hs|] == w.d;
    assert RisingFrom(w.d, w.prevZ) by {
      if |w.d| > 0 {
        assert base <= w.d[0];
      }
    }
    WritePlanes(hs, w, z0, tH, ceiling);
    var out := WriteAll(hs, w, z0, tH, ceiling).value.0;
    assert HorizontalLayout(out) by {
      assert out[0].role == hs[0].role;
      forall k | 0 <= k < |out| - 1 ensures out[1..][k].role.HorizRole? && out[1..][k].role.k != 1 {
        assert out[1..][k] == out[k + 1] && hs[1..][k] == hs[k + 1];
      }
    }
    PickHorizontal(out, st, base, foilDiv);
    PlanesOfWritten(hs, out, w.d);
    DeltasOfAbsolute(x, base);
  }

  lemma {:induction false} PlanesOfWritten(hs: seq<Surface>, out: seq<Surface>, p: seq<real>)
    requires |out| == |hs| == |p|
    requires forall k :: 0 <= k < |hs| ==> hs[k].role.HorizRole? && out[k] == hs[k].(d := p[k])
    ensures Planes(out) == p
  {
    if hs != [] {
      PlanesOfWritten(hs[1..], out[1..], p[1..]);
    }
  }

  /** Written back as they are, the distances a design vector holds for its
      horizontal cells become plane positions: distances 16.0 and 5.0 over a
      base plane at 15.54 are written as planes at 16.0 and 16.1 (the second
      raised above the first), which read back as 0.46 and 0.1. */
  lemma DeltasWrittenAsPlanes()
    ensures var hs := [Surface(1, HorizRole(1), 0.0, 0.0, 0.0, 20.0), Surface(2, HorizRole(2), 0.0, 0.0, 0.0, 25.0)];
      var out := WriteAll(hs, Writer([16.0, 5.0], None, 0.0, None), 0.0, 0.0, 30.0);
      out.Ok? && PickAll(out.value.0, Scan([], 0, None, None), 15.54, false).Ok?
      && PickAll(out.value.0, Scan([], 0, None, None), 15.54, false).value.v == [0.46, 0.1]
  {
    var hs := [Surface(1, HorizRole(1), 0.0, 0.0, 0.0, 20.0), Surface(2, HorizRole(2), 0.0, 0.0, 0.0, 25.0)];
    var out := [hs[0].(d := 16.0), hs[1].(d := 16.1)];
    assert WriteOne(hs[0], Writer([16.0, 5.0], None, 0.0, None), 0.0, 0.0, 30.0)
      == Ok((out[0], Writer([5.0], None, 16.0, None)));
    assert [16.0, 5.0][1..] == [5.0] && [5.0][1..] == [];
    assert RiseStep(5.0, 16.0, 30.0) == 16.1;
    assert WriteOne(hs[1], Writer([5.0], None, 16.0, None), 0.0, 0.0, 30.0)
      == Ok((out[1], Writer([], None, 16.1, None)));
    assert hs[1..][1..] == [] && hs[1..][0] == hs[1];
    assert WriteAll(hs[1..][1..], Writer([], None, 16.1, None), 0.0, 0.0, 30.0) == Ok(([], Writer([], None, 16.1, None)));
    assert [out[1]] + [] == [out[1]];
    assert WriteAll(hs[1..], Writer([5.0], None, 16.0, None), 0.0, 0.0, 30.0) == Ok(([out[1]], Writer([], None, 16.1, None)));
    assert WriteAll(hs, Writer([16.0, 5.0], None, 0.0, None), 0.0, 0.0, 30.0).value.0 == out;
    assert out[1..][1..] == [] && out[1..][0] == out[1];
    assert PickAll(out[1..][1..], Scan([0.46, 0.1], 0, None, Some(16.1)), 15.54, false) == Ok(Scan([0.46, 0.1], 0, None, Some(16.1)));
    assert [] + [16.0 - 15.54] == [0.46] && [0.46] + [16.1 - 16.0] == [0.46, 0.1];
    assert Pick(out[0], Scan([], 0, None, None), 15.54, false) == Ok(Scan([0.46], 0, None, Some(16.0)));
    assert Pick(out[1], Scan([0.46], 0, None, Some(16.0)), 15.54, false) == Ok(Scan([0.46, 0.1], 0, None, Some(16.1)));
  }

  // ---------------------------------------------------------------------------
  // In-place steps on the moved vector

  /** Swapping the pair at j and j + 1 into order. */
  function SortPairAt(t: seq<real>, j: nat): (r: seq<real>)
    requires j + 1 < |t|
    ensures |r| == |t|
  {
    if t[j] > t[j + 1] then t[j := t[j + 1]][j + 1 := t[j]] else t
  }

  /** The vector after the radii (r1, r2) of the first i vertical cells, at
      4c + 3 and 4c + 4, have been put in order. */
  function OrderedRadii(t: seq<real>, i: nat): (r: seq<real>)
    requires i == 0 || 4 * i < |t|
    ensures |r| == |t|
  {
    if i == 0 then t else SortPairAt(OrderedRadii(t, i - 1), 4 * i - 1)
  }

  lemma {:induction false} OrderedRadiiKeeps(t: seq<real>, i: nat, k: nat)
    requires (i == 0 || 4 * i < |t|) && k < |t| && (k < 3 || k > 4 * i)
    ensures OrderedRadii(t, i)[k] == t[k]
  {
    if i > 0 {
      OrderedRadiiKeeps(t, i - 1, k);
    }
  }

  lemma {:induction false} OrderedRadiiPair(t: seq<real>, i: nat, c: nat)
    requires 4 * i < |t| && c < i
    ensures var r := OrderedRadii(t, i);
      r[4 * c + 3] <= r[4 * c + 4] && multiset{r[4 * c + 3], r[4 * c + 4]} == multiset{t[4 * c + 3], t[4 * c + 4]}
  {
    if c == i - 1 {
      OrderedRadiiKeeps(t, i - 1, 4 * c + 3);
      OrderedRadiiKeeps(t, i - 1, 4 * c + 4);
    } else {
      OrderedRadiiPair(t, i - 1, c);
    }
  }

  /** After the ordering every pair is in order and holds the same two
      values, and no entry outside the pairs has changed. */
  lemma OrderedRadiiSorted(t: seq<real>, i: nat)
    requires i == 0 || 4 * i < |t|
    ensures var r := OrderedRadii(t, i);
      (forall c :: 0 <= c < i ==>
         r[4 * c + 3] <= r[4 * c + 4] && multiset{r[4 * c + 3], r[4 * c + 4]} == multiset{t[4 * c + 3], t[4 * c + 4]})
      && forall k :: 0 <= k < |t| && (k < 3 || k > 4 * i) ==> r[k] == t[k]
  {
    var r := OrderedRadii(t, i);
    forall c | 0 <= c < i
      ensures r[4 * c + 3] <= r[4 * c + 4] && multiset{r[4 * c + 3], r[4 * c + 4]} == multiset{t[4 * c + 3], t[4 * c + 4]}
    {
      OrderedRadiiPair(t, i, c);
    }
    forall k | 0 <= k < |t| && (k < 3 || k > 4 * i) ensures r[k] == t[k] {
      OrderedRadiiKeeps(t, i, k);
    }
  }

  /** The ordering loop of `Cell_Levy_Flights` and `Mutate`: an r1 larger
      than its r2 swaps with it. */
  method OrderRadii(a: array<real>, maxVert: int) returns (r: Result<()>)
    modifies a
    ensures r.Ok? <==> maxVert <= 0 || 4 * maxVert < a.Length
    ensures r.Err? ==> r.error == IndexError(OutOfRange)
    ensures r.Ok? ==> a[..] == OrderedRadii(old(a[..]), if maxVert > 0 then maxVert else 0)
  {
    if maxVert > 0 && 4 * maxVert >= a.Length {
      return Err(IndexError(OutOfRange));
    }
    var n := if maxVert > 0 then maxVert else 0;
    for i := 0 to n
      invariant a[..] == OrderedRadii(old(a[..]), i)
    {
      var j := 4 * i + 3;
      if a[j] > a[j + 1] {
        a[j], a[j + 1] := a[j + 1], a[j];
      }
    }
    return Ok(());
  }

  /** The horizontal entries after `new_d[-h] += base` and the running sum
      over the last h entries: for h >= 1 the last h distances become the
      planes `Absolute` builds over the base plane; for h <= 0 the loop is
      empty and only entry -h moves. */
  function Cumulated(t: seq<real>, h: int, base: real): (r: Result<seq<real>>)
    ensures r.Ok? <==> (h <= 0 && -h < |t|) || (1 <= h <= |t|)
    ensures r.Ok? ==> |r.value| == |t|
    ensures r.Err? ==> r.error == IndexError(OutOfRange)
  {
    if h <= 0 then
      if -h < |t| then Ok(t[-h := t[-h] + base]) else Err(IndexError(OutOfRange))
    else if h > |t| then Err(IndexError(OutOfRange))
    else Ok(t[..|t| - h] + Absolute(t[|t| - h..], base))
  }

  /** The in-place loop that `Cell_Levy_Flights` runs over the moved vector. */
  method Cumulate(a: array<real>, h: int, base: real) returns (r: Result<()>)
    modifies a
    ensures r.Ok? <==> Cumulated(old(a[..]), h, base).Ok?
    ensures r.Err? ==> r.error == IndexError(OutOfRange)
    ensures r.Ok? ==> a[..] == Cumulated(old(a[..]), h, base).value
  {
    if h <= 0 {
      if -h >= a.Length {
        return Err(IndexError(OutOfRange));
      }
      a[-h] := a[-h] + base;
      return Ok(());
    }
    if h > a.Length {
      return Err(IndexError(OutOfRange));
    }
    CumulateTail(a, a.Length - h, base);
    return Ok(());
  }

  /** The running sum from position m on, after entry m has taken the base. */
  method CumulateTail(a: array<real>, m: nat, base: real)
    requires m < a.Length
    modifies a
    ensures a[..] == old(a[..])[..m] + Absolute(old(a[..])[m..], base)
  {
    ghost var t := a[..];
    a[m] := a[m] + base;
    SumLast(t, m, m);
    for k := m + 1 to a.Length
      invariant forall j :: 0 <= j < m ==> a[j] == t[j]
      invariant forall j :: k <= j < a.Length ==> a[j] == t[j]
      invariant forall j :: m <= j < k ==> a[j] == base + Sum(t[m..j + 1])
    {
      SumLast(t, m, k);
      a[k] := a[k] + a[k - 1];
    }
    AbsoluteTail(t, a[..], m, base);
  }

  lemma SumLast(t: seq<real>, m: nat, k: nat)
    requires m <= k < |t|
    ensures Sum(t[m..k + 1]) == Sum(t[m..k]) + t[k]
  {
    assert t[m..k + 1][..k - m] == t[m..k];
  }

  lemma AbsoluteTail(t: seq<real>, a: seq<real>, m: nat, base: real)
    requires m <= |t| == |a|
    requires forall j :: 0 <= j < m ==> a[j] == t[j]
    requires forall j :: m <= j < |a| ==> a[j] == base + Sum(t[m..j + 1])
    ensures a == t[..m] + Absolute(t[m..], base)
  {
    forall j | m <= j < |a| ensures a[j] == Absolute(t[m..], base)[j - m] {
      assert t[m..][..j - m + 1] == t[m..j + 1];
    }
  }

  // ---------------------------------------------------------------------------
  // The bounds of the moved vector

  /** The lower bound of a foil's z: clear of the NAS wall and foils, and
      inside the detector cone (`coneTan` is tan(90 - theta) in radians). */
  function FoilLower(e: Eta, coneTan: real): real
    requires coneTan != 0.0
  {
    var wall := e.tccDist + e.tW + 2.0 * e.tNas + Sum(e.tNasF) + 0.203;
    var cone := e.tccDist + e.tW + (e.rNas - e.rF + e.tW) / coneTan;
    if wall >= cone then wall else cone
  }

  /** The upper bound of a foil's z: clear of the moderator and the NAS. */
  function FoilUpper(e: Eta): real
  {
    e.snoutDist - e.tM - 2.0 * e.tNas - Sum(e.tNasF) - 0.203
  }

  /** The lower bounds of the first i vertical cells (z, dz, r1, r2): the
      base plane, Epsilon, Epsilon, and r1 when it is positive. */
  function VertLower(t: seq<real>, e: Eta, i: nat): (r: seq<real>)
    requires i == 0 || 4 * i < |t|
    ensures |r| == 4 * i
  {
    if i == 0 then []
    else VertLower(t, e, i - 1) + [e.Base(), Epsilon, Epsilon, if t[4 * i - 1] > 0.0 then t[4 * i - 1] else Epsilon]
  }

  /** The upper bounds of the first i vertical cells: just under the
      ceiling, the room left above z, and the outer radius twice. */
  function VertUpper(t: seq<real>, e: Eta, i: nat): (r: seq<real>)
    requires i == 0 || 4 * i < |t|
    ensures |r| == 4 * i
  {
    if i == 0 then []
    else VertUpper(t, e, i - 1) + [e.Ceiling() - 0.00001, e.Ceiling() - t[4 * i - 3], e.rO, e.rO]
  }

  /** Once the radii are ordered, every r2 of at least Epsilon lies on or
      above its lower bound: the reason for the ordering. */
  lemma {:induction false} OrderedRadiiMeetLower(t: seq<real>, e: Eta, i: nat)
    requires i == 0 || 4 * i < |t|
    ensures var r := OrderedRadii(t, i);
      forall c :: 0 <= c < i && r[4 * c + 4] >= Epsilon ==> VertLower(r, e, i)[4 * c + 3] <= r[4 * c + 4]
  {
    var r := OrderedRadii(t, i);
    OrderedRadiiSorted(t, i);
    forall c | 0 <= c < i && r[4 * c + 4] >= Epsilon
      ensures VertLower(r, e, i)[4 * c + 3] <= r[4 * c + 4]
    {
      VertLowerAt(r, e, i, c);
    }
  }

  lemma {:induction false} VertLowerAt(t: seq<real>, e: Eta, i: nat, c: nat)
    requires 4 * i < |t| && c < i
    ensures VertLower(t, e, i)[4 * c + 3] == if t[4 * c + 3] > 0.0 then t[4 * c + 3] else Epsilon
  {
    if c < i - 1 {
      VertLowerAt(t, e, i - 1, c);
    }
  }

  /** The number of horizontal bounds: one per horizontal cell, and one
      when there is none. */
  function HorizCount(h: int): nat
  {
    if h >= 1 then h else 1
  }

  /** The lower bounds of the horizontal entries: the base plane, then Epsilon. */
  function HorizLower(h: int, base: real): (r: seq<real>)
    ensures |r| == HorizCount(h) && r[0] == base
    ensures forall k :: 1 <= k < |r| ==> r[k] == Epsilon
  {
    [base] + seq(HorizCount(h) - 1, _ => Epsilon)
  }

  /** `Cell_Levy_Flights`' upper bounds of its horizontal planes: the
      ceiling, then the ceiling less the plane below. */
  function LevyHorizUpper(t: seq<real>, h: int, ceiling: real): (r: seq<real>)
    requires h <= |t|
    ensures |r| == HorizCount(h) && r[0] == ceiling
    ensures forall k :: 1 <= k < |r| ==> r[k] == ceiling - t[|t| - h + k - 1]
  {
    [ceiling] + seq(HorizCount(h) - 1, k requires 0 <= k < HorizCount(h) - 1 => ceiling - t[|t| - h + k])
  }

  /** `Mutate`'s upper bounds of its horizontal distances: the ceiling,
      then the ceiling less the sum of the distances before. */
  function MutateHorizUpper(t: seq<real>, h: int, ceiling: real): (r: seq<real>)
    requires h <= |t|
    ensures |r| == HorizCount(h) && r[0] == ceiling
    ensures forall k :: 1 <= k < |r| ==> r[k] == ceiling - Sum(t[|t| - h..|t| - h + k])
  {
    [ceiling] + seq(HorizCount(h) - 1, k requires 0 <= k < HorizCount(h) - 1 => ceiling - Sum(t[|t| - h..|t| - h + k + 1]))
  }

  /** Over the same distances, a plane's bound in `Cell_Levy_Flights` is the
      bound of its distance in `Mutate` less the base plane. */
  lemma HorizUppersDifferByBase(t: seq<real>, h: int, base: real, ceiling: real)
    requires 1 <= h <= |t|
    ensures var c := Cumulated(t, h, base).value;
      forall k :: 1 <= k < h ==>
        LevyHorizUpper(c, h, ceiling)[k] == MutateHorizUpper(t, h, ceiling)[k] - base
  {
    var c := Cumulated(t, h, base).value;
    var m := |t| - h;
    forall k | 1 <= k < h
      ensures LevyHorizUpper(c, h, ceiling)[k] == MutateHorizUpper(t, h, ceiling)[k] - base
    {
      assert c[m + k - 1] == Absolute(t[m..], base)[k - 1];
      assert t[m..][..k] == t[m..m + k];
    }
  }
}
