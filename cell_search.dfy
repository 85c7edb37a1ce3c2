// The two operators of Code/Metaheuristics.py that move the geometry of a
// design through its design vector: `Cell_Levy_Flights` (a Levy step from
// a distinct random parent, bounded by `Rejection_Bounds`) and `Mutate` (a
// biased random walk on a coordinate mask, bounded by `Simple_Bounds`).
module CellSearch {
  import opened Wrappers
  import opened PyMath
  import opened Design
  import opened DesignVector
  import Bounds
  import LevyFlight

  const FlRange: string := "The probability that a parent is used for global Levy search must exist on [0,1]"
  const Broadcast: string := "operands could not be broadcast together"
  const TooManyIndices: string := "too many indices for array"

  /** The number of iterations `range(int(S.f * S.p))` runs. */
  function Draws(f: real, p: int): nat
  {
    if Trunc(f * p as real) > 0 then Trunc(f * p as real) else 0
  }

  /** The surfaces keep their numbers and comments. */
  predicate SameSurfaces(old_: seq<Surface>, new_: seq<Surface>)
  {
    |new_| == |old_| && forall k :: 0 <= k < |old_| ==> new_[k].name == old_[k].name && new_[k].role == old_[k].role
  }

  /** A design the operator produced from q by moving its surfaces only:
      the horizontal planes rise from 0. */
  predicate MovedFrom(q: Parent, r: Parent)
  {
    r == q.(surfaces := r.surfaces) && SameSurfaces(q.surfaces, r.surfaces) && PlanesRise(r.surfaces, 0.0)
  }

  /** An array holding s. */
  method ToArray(s: seq<real>) returns (a: array<real>)
    ensures fresh(a) && a[..] == s
  {
    a := new real[|s|](k requires 0 <= k < |s| => s[k]);
  }

  /** The number of vertical cells the bound loops visit, `range(0, max_vert)`. */
  function Mv(e: Eta): nat
  {
    if e.maxVert > 0 then e.maxVert else 0
  }

  /** Whether the vertical loops stay inside a vector of length n. */
  predicate VertFits(e: Eta, n: nat)
  {
    e.maxVert <= 0 || 4 * e.maxVert < n
  }

  /** The lower bounds both operators build: one foil bound per NAS
      surface, the vertical bounds over the ordered vector o, then the
      horizontal ones. */
  function LowerBounds(o: seq<real>, nas: nat, e: Eta, coneTan: real): (r: seq<real>)
    requires VertFits(e, |o|) && (nas > 0 ==> coneTan != 0.0)
    ensures |r| == nas + 4 * Mv(e) + HorizCount(e.maxHoriz)
  {
    seq(nas, _ requires nas > 0 => FoilLower(e, coneTan)) + VertLower(o, e, Mv(e)) + HorizLower(e.maxHoriz, e.Base())
  }

  /** The upper bounds up to the horizontal part, which differs between
      the two operators. */
  function UpperStart(o: seq<real>, nas: nat, e: Eta): (r: seq<real>)
    requires VertFits(e, |o|)
    ensures |r| == nas + 4 * Mv(e)
  {
    seq(nas, _ => FoilUpper(e)) + VertUpper(o, e, Mv(e))
  }

  /** The moved vector of `Cell_Levy_Flights` for the parent's vector cur
      and the step: their sum with the radii ordered and the horizontal
      distances made planes, then `Rejection_Bounds` against the foil,
      vertical and horizontal bounds. */
  function LevyMoved(cur: seq<real>, stepsize: seq<real>, nas: nat, e: Eta, coneTan: real): (r: Result<seq<real>>)
    requires |stepsize| == |cur| && (nas > 0 ==> coneTan != 0.0)
    ensures r.Ok? ==> |r.value| == |cur| > 0
  {
    var a := seq(|cur|, k requires 0 <= k < |cur| => cur[k] + stepsize[k]);
    if !VertFits(e, |a|) then Err(IndexError(OutOfRange))
    else
      var o := OrderedRadii(a, Mv(e));
      match Cumulated(o, e.maxHoriz, e.Base())
      case Err(err) => Err(err)
      case Ok(c) =>
        var lb := LowerBounds(o, nas, e, coneTan);
        var ub := UpperStart(o, nas, e) + LevyHorizUpper(c, e.maxHoriz, e.Ceiling());
        if |c| != |lb| then Err(AssertionError(Bounds.ChildMismatch))
        else match Bounds.Rejected(cur, Bounds.Vectors(c, stepsize, lb, ub), 0)
          case Err(err) => Err(err)
          case Ok(v) => Ok(v.child)
  }

  /** A moved vector that already lies inside its bounds passes
      `Rejection_Bounds` untouched when it is not negative, and makes it
      exit otherwise. */
  lemma LevyMovedInBounds(cur: seq<real>, stepsize: seq<real>, nas: nat, e: Eta, coneTan: real)
    requires |stepsize| == |cur| && (nas > 0 ==> coneTan != 0.0)
    requires VertFits(e, |cur|)
    requires var o := OrderedRadii(seq(|cur|, k requires 0 <= k < |cur| => cur[k] + stepsize[k]), Mv(e));
      var c := Cumulated(o, e.maxHoriz, e.Base());
      var lb := LowerBounds(o, nas, e, coneTan);
      && c.Ok? && |c.value| == |lb|
      && var ub := UpperStart(o, nas, e) + LevyHorizUpper(c.value, e.maxHoriz, e.Ceiling());
      forall k :: 0 <= k < |lb| ==> lb[k] <= c.value[k] <= ub[k]
    ensures var o := OrderedRadii(seq(|cur|, k requires 0 <= k < |cur| => cur[k] + stepsize[k]), Mv(e));
      var c := Cumulated(o, e.maxHoriz, e.Base()).value;
      var r := LevyMoved(cur, stepsize, nas, e, coneTan);
      && (r.Ok? <==> forall k :: 0 <= k < |c| ==> c[k] >= 0.0)
      && (r.Err? ==> r.error == SystemExit(Bounds.NegativeChild))
      && (r.Ok? ==> r.value == c)
  {
    var a := seq(|cur|, k requires 0 <= k < |cur| => cur[k] + stepsize[k]);
    var o := OrderedRadii(a, Mv(e));
    var c := Cumulated(o, e.maxHoriz, e.Base()).value;
    var lb := LowerBounds(o, nas, e, coneTan);
    var ub := UpperStart(o, nas, e) + LevyHorizUpper(c, e.maxHoriz, e.Ceiling());
    forall k | 0 <= k < |c| ensures Bounds.RetreatFrom(c[k], stepsize[k], cur[k], lb[k], ub[k], 0) == Bounds.Settled(c[k], stepsize[k]) {
      Bounds.RetreatInBounds(c[k], stepsize[k], cur[k], lb[k], ub[k]);
    }
    Bounds.RejectedAllSettle(cur, c, stepsize, lb, ub);
    assert Bounds.SettledValues(c, stepsize, cur, lb, ub) == c;
  }

  /** The moved vector of `Cell_Levy_Flights`, computed in place as the
      source does: whatever comes out is not negative. */
  method LevyMove(cur: seq<real>, stepsize: seq<real>, nas: nat, e: Eta, coneTan: real)
    returns (r: Result<seq<real>>)
    requires |stepsize| == |cur| && (nas > 0 ==> coneTan != 0.0)
    ensures r == LevyMoved(cur, stepsize, nas, e, coneTan)
    ensures r.Ok? ==> NonNeg(r.value)
  {
    var a := ToArray(seq(|cur|, k requires 0 <= k < |cur| => cur[k] + stepsize[k]));
    var ordered := OrderRadii(a, e.maxVert);
    if ordered.Err? {
      return Err(ordered.error);
    }
    var lbs := LowerBounds(a[..], nas, e, coneTan);
    var vertUb := UpperStart(a[..], nas, e);
    var planes := Cumulate(a, e.maxHoriz, e.Base());
    if planes.Err? {
      return Err(planes.error);
    }
    var lb := ToArray(lbs);
    var ub := ToArray(vertUb + LevyHorizUpper(a[..], e.maxHoriz, e.Ceiling()));
    var parent := ToArray(cur);
    var steps := ToArray(stepsize);
    var bounded := Bounds.RejectionBounds(parent, a, steps, lb, ub);
    if bounded.Err? {
      return Err(bounded.error);
    }
    return Ok(a[..]);
  }

  /** The steps of one iteration: `1.0/S.sf*step[r,:]`. */
  function Scaled(row: seq<real>, sf: real): (r: seq<real>)
    requires sf != 0.0
    ensures |r| == |row|
  {
    seq(|row|, k requires 0 <= k < |row| => (1.0 / sf) * row[k])
  }

  /** r is q with the vector v written back into its surfaces, z0 being
      the foil z before the move and nasVz the NAS z carried in. */
  predicate WrittenWith(q: Parent, v: seq<real>, z0: real, e: Eta, nasVz: Option<real>, r: Parent)
  {
    var w := WriteAll(q.surfaces, Writer(v, None, 0.0, nasVz), z0, e.tH, e.Ceiling());
    w.Ok? && r == q.(surfaces := w.value.0)
  }

  /** What one iteration of `Cell_Levy_Flights` makes of the copy q: its
      vector, scanned with prev_z carried in, moved by the scaled step row
      as `LevyMoved` says and written back; `carry` is the prev_z and nas_vz
      the write-back leaves for the next iteration (its prev_z starts again
      at 0.0 and ends on the last horizontal plane written). */
  predicate LevyWritten(q: Parent, e: Eta, coneTan: real, sf: real, row: seq<real>,
                        prevZ: Option<real>, nasVz: Option<real>, r: Parent,
                        carry: (Option<real>, Option<real>))
  {
    var scan := PickAll(q.surfaces, Scan([], 0, None, prevZ), e.Base(), coneTan == 0.0);
    && scan.Ok? && sf != 0.0 && |row| == |scan.value.v|
    && var moved := LevyMoved(scan.value.v, Scaled(row, sf), scan.value.nas, e, coneTan);
    && moved.Ok?
    && var w := WriteAll(q.surfaces, Writer(moved.value, None, 0.0, nasVz), scan.value.v[0], e.tH, e.Ceiling());
    && w.Ok? && r == q.(surfaces := w.value.0)
    && carry == (Some(w.value.1.prevZ), w.value.1.nasVz)
  }

  /** One iteration of `Cell_Levy_Flights` on the copy q of the chosen
      parent, with `row` the step matrix's row for that parent. `prevZ` and
      `nasVz` are the function's `prev_z` and `nas_vz` as the iteration
      before left them (None before the first); the result carries on the
      values its own write-back leaves: prev_z reset to 0.0 and then set to
      each horizontal plane written, so the last of them. */
  method CellLevyOne(q: Parent, e: Eta, coneTan: real, sf: real, row: seq<real>,
                     prevZ: Option<real>, nasVz: Option<real>)
    returns (r: Result<(Parent, Option<real>, Option<real>)>)
    ensures PickAll(q.surfaces, Scan([], 0, None, prevZ), e.Base(), coneTan == 0.0).Err? ==>
      r == Err(PickAll(q.surfaces, Scan([], 0, None, prevZ), e.Base(), coneTan == 0.0).error)
    ensures r.Ok? ==> MovedFrom(q, r.value.0) && forall k :: 0 <= k < |q.surfaces| ==> Placed(r.value.0.surfaces[k])
    ensures r.Ok? ==> r.value.1.Some? && r.value.1.value >= 0.0
    ensures r.Ok? ==> forall a :: 0 <= a < |q.surfaces| && q.surfaces[a].role.HorizRole? ==>
      r.value.0.surfaces[a].d <= r.value.1.value
    ensures r.Ok? ==> LevyWritten(q, e, coneTan, sf, row, prevZ, nasVz, r.value.0, (r.value.1, r.value.2))
  {
    var scan := BuildVector(q.surfaces, e.Base(), prevZ, coneTan == 0.0);
    if scan.Err? {
      return Err(scan.error);
    }
    var cur := scan.value.v;
    if sf == 0.0 {
      return Err(ZeroDivisionError);
    }
    if |row| != |cur| {
      return Err(ValueError(Broadcast));
    }
    var moved := LevyMove(cur, Scaled(row, sf), scan.value.nas, e, coneTan);
    if moved.Err? {
      return Err(moved.error);
    }
    var written := WriteBack(q.surfaces, Writer(moved.value, None, 0.0, nasVz), cur[0], e.tH, e.Ceiling());
    if written.Err? {
      return Err(written.error);
    }
    return Ok((q.(surfaces := written.value.0), Some(written.value.1.prevZ), written.value.1.nasVz));
  }

  /** The iteration of `Cell_Levy_Flights` that found prev_z and nas_vz as
      `found` made r of q and left them as `left`. (The witness keeps the
      verifier from unfolding `LevyWritten` wherever `Flew` is mentioned.) */
  ghost predicate Flew(q: Parent, e: Eta, coneTan: real, sf: real, row: seq<real>,
                       found: (Option<real>, Option<real>), r: Parent, left: (Option<real>, Option<real>))
  {
    exists carried :: carried == left && LevyWritten(q, e, coneTan, sf, row, found.0, found.1, r, carried)
  }

  /** out[k] is what iteration k of `Cell_Levy_Flights` made of parent
      used[k], for every k, with carry[k] the prev_z and nas_vz that
      iteration found (unbound, None, before the first) and carry[k + 1] the
      ones it left: a prefix-recursive form that a loop can extend one
      iteration at a time. */
  ghost predicate Flown(x: seq<Parent>, e: Eta, coneTan: real, sf: real, steps: seq<seq<seq<real>>>,
                        used: seq<int>, out: seq<Parent>, carry: seq<(Option<real>, Option<real>)>)
    decreases |out|, 0
  {
    && |used| == |out| <= |steps| && |carry| == |out| + 1 && carry[0] == (None, None)
    && (|out| > 0 ==> FlownLast(x, e, coneTan, sf, steps, used, out, carry))
  }

  /** The last iteration of a `Flown` run drew a valid parent and a step
      matrix of the population's size. */
  ghost predicate FlownLast(x: seq<Parent>, e: Eta, coneTan: real, sf: real, steps: seq<seq<seq<real>>>,
                            used: seq<int>, out: seq<Parent>, carry: seq<(Option<real>, Option<real>)>)
    requires |used| == |out| <= |steps| && |carry| == |out| + 1 && |out| > 0
    decreases |out| - 1, 2
  {
    && ValidIndex(used[|out| - 1], |x|) && |steps[|out| - 1]| == |x|
    && FlownMoved(x, e, coneTan, sf, steps, used, out, carry)
  }

  /** The run before the last iteration, and what that iteration made of
      its parent with the prev_z and nas_vz the run left it. */
  ghost predicate FlownMoved(x: seq<Parent>, e: Eta, coneTan: real, sf: real, steps: seq<seq<seq<real>>>,
                             used: seq<int>, out: seq<Parent>, carry: seq<(Option<real>, Option<real>)>)
    requires |used| == |out| <= |steps| && |carry| == |out| + 1 && |out| > 0
    requires ValidIndex(used[|out| - 1], |x|) && |steps[|out| - 1]| == |x|
    decreases |out| - 1, 1
  {
    var n := |out| - 1;
    && Flown(x, e, coneTan, sf, steps, used[..n], out[..n], carry[..n + 1])
    && Flew(x[PyIdx(used[n], |x|)], e, coneTan, sf, steps[n][PyIdx(used[n], |x|)], carry[n], out[n], carry[n + 1])
  }

  /** `Flown`, read at iteration k. */
  lemma {:induction false} FlownAt(x: seq<Parent>, e: Eta, coneTan: real, sf: real, steps: seq<seq<seq<real>>>,
                                   used: seq<int>, out: seq<Parent>, carry: seq<(Option<real>, Option<real>)>, k: nat)
    requires Flown(x, e, coneTan, sf, steps, used, out, carry) && k < |out|
    ensures k < |used| && ValidIndex(used[k], |x|) && k < |steps| && |steps[k]| == |x| && k + 1 < |carry|
    ensures Flew(x[PyIdx(used[k], |x|)], e, coneTan, sf, steps[k][PyIdx(used[k], |x|)], carry[k], out[k], carry[k + 1])
    decreases |out|
  {
    var n := |out| - 1;
    assert FlownLast(x, e, coneTan, sf, steps, used, out, carry);
    assert FlownMoved(x, e, coneTan, sf, steps, used, out, carry);
    if k < n {
      var u, o, c := used[..n], out[..n], carry[..n + 1];
      FlownAt(x, e, coneTan, sf, steps, u, o, c, k);
      assert u[k] == used[k] && o[k] == out[k] && c[k] == carry[k] && c[k + 1] == carry[k + 1];
    }
  }

  /** A `Flown` run extended by one more iteration. */
  lemma FlownExtend(x: seq<Parent>, e: Eta, coneTan: real, sf: real, steps: seq<seq<seq<real>>>,
                    used: seq<int>, tmp: seq<Parent>, carry: seq<(Option<real>, Option<real>)>,
                    r: Parent, left: (Option<real>, Option<real>))
    requires |used| == |tmp| + 1 && |tmp| < |steps| && |steps[|tmp|]| == |x|
    requires ValidIndex(used[|tmp|], |x|) && Flown(x, e, coneTan, sf, steps, used[..|tmp|], tmp, carry)
    requires Flew(x[PyIdx(used[|tmp|], |x|)], e, coneTan, sf, steps[|tmp|][PyIdx(used[|tmp|], |x|)], carry[|tmp|], r, left)
    ensures Flown(x, e, coneTan, sf, steps, used, tmp + [r], carry + [left])
  {
    var i, out, carry' := |tmp|, tmp + [r], carry + [left];
    assert out[..i] == tmp && carry'[..i + 1] == carry;
    assert FlownMoved(x, e, coneTan, sf, steps, used, out, carry');
  }

  /** The end of iteration |tmp| of `Cell_Levy_Flights`, whose parent is
      the last of `used` and whose prev_z and nas_vz are the last of
      `carry`: the copy is moved and appended to tmp, and the values its
      write-back leaves are returned for the next iteration. */
  method FlightAppend(x: seq<Parent>, e: Eta, coneTan: real, sf: real, steps: seq<seq<seq<real>>>,
                      used: seq<int>, tmp: seq<Parent>, ghost carry: seq<(Option<real>, Option<real>)>,
                      prevZ: Option<real>, nasVz: Option<real>)
    returns (r: Result<(seq<Parent>, Option<real>, Option<real>)>)
    requires |used| == |tmp| + 1 && |tmp| < |steps| && |steps[|tmp|]| == |x|
    requires ValidIndex(used[|tmp|], |x|) && Flown(x, e, coneTan, sf, steps, used[..|tmp|], tmp, carry)
    requires carry[|tmp|] == (prevZ, nasVz)
    ensures r.Ok? ==> |r.value.0| == |used| && r.value.0[..|tmp|] == tmp
    ensures r.Ok? ==> MovedFrom(x[PyIdx(used[|tmp|], |x|)], r.value.0[|tmp|])
    ensures r.Ok? ==> Flown(x, e, coneTan, sf, steps, used, r.value.0, carry + [(r.value.1, r.value.2)])
  {
    var i := |tmp|;
    var q := x[PyIdx(used[i], |x|)];
    var one := CellLevyOne(q, e, coneTan, sf, steps[i][PyIdx(used[i], |x|)], prevZ, nasVz);
    if one.Err? {
      return Err(one.error);
    }
    var out := tmp + [one.value.0];
    assert Flew(q, e, coneTan, sf, steps[i][PyIdx(used[i], |x|)], (prevZ, nasVz), one.value.0, (one.value.1, one.value.2));
    FlownExtend(x, e, coneTan, sf, steps, used, tmp, carry, one.value.0, (one.value.1, one.value.2));
    return Ok((out, one.value.1, one.value.2));
  }

  /** The distinct parent indexes of `used`. */
  predicate Distinct(used: seq<int>)
  {
    forall a, b :: 0 <= a < b < |used| ==> used[a] != used[b]
  }

  /** The parent index `int(np.random.rand() * S.p)`, redrawn while it is
      in `used`: the first draw of `picks` from `next` on that gives an index
      not yet used, and the position after it. */
  method PickParent(p: int, used: seq<int>, picks: seq<real>, next: nat) returns (r: Result<(int, nat)>)
    ensures r.Ok? ==> r.value.0 !in used && next < r.value.1 <= |picks|
    ensures r.Ok? ==> r.value.0 == Trunc(picks[r.value.1 - 1] * p as real)
    ensures r.Err? ==> r.error.DrawsExhausted?
  {
    if next >= |picks| {
      return Err(DrawsExhausted);
    }
    var k := next;
    var ri := Trunc(picks[k] * p as real);
    while ri in used
      invariant next <= k < |picks| && ri == Trunc(picks[k] * p as real)
      decreases |picks| - k
    {
      if k + 1 == |picks| {
        return Err(DrawsExhausted);
      }
      k := k + 1;
      ri := Trunc(picks[k] * p as real);
    }
    return Ok((ri, k + 1));
  }

  /** `Cell_Levy_Flights(x, eta, S)` for int(fl * p) distinct random parents.
      `picks` are the draws that choose them, `steps[i]` is the Levy step
      matrix drawn in iteration i (one row per parent) and `coneTan` is
      tan(90 - theta). Each result is the chosen parent with only its
      surfaces moved. */
  method CellLevyFlights(x: seq<Parent>, e: Eta, fl: real, p: int, sf: real, coneTan: real,
                         alpha: real, gamma: real, n: int, picks: seq<real>, steps: seq<seq<seq<real>>>)
    returns (r: Result<seq<Parent>>, used: seq<int>, ghost carry: seq<(Option<real>, Option<real>)>)
    requires forall i :: 0 <= i < |steps| ==> |steps[i]| == |x|
    ensures !(0.0 <= fl <= 1.0) ==> r.Err? && r.error.AssertionError?
    ensures r.Ok? ==> |r.value| == |used| == Draws(fl, p) && Distinct(used)
    ensures r.Ok? ==> forall k :: 0 <= k < |used| ==>
      ValidIndex(used[k], |x|) && MovedFrom(x[PyIdx(used[k], |x|)], r.value[k])
    ensures r.Ok? ==> Flown(x, e, coneTan, sf, steps, used, r.value, carry)
  {
    used, carry := [], [(None, None)];
    if !(0.0 <= fl <= 1.0) {
      return Err(AssertionError(FlRange)), used, carry;
    }
    var tmp: seq<Parent> := [];
    var next := 0;
    var prevZ: Option<real> := None;
    var nasVz: Option<real> := None;
    var count := Draws(fl, p);
    for i := 0 to count
      invariant |tmp| == |used| == i && Distinct(used)
      invariant forall k :: 0 <= k < i ==> ValidIndex(used[k], |x|) && MovedFrom(x[PyIdx(used[k], |x|)], tmp[k])
      invariant Flown(x, e, coneTan, sf, steps, used, tmp, carry) && carry[i] == (prevZ, nasVz)
    {
      var pick := PickParent(p, used, picks, next);
      if pick.Err? {
        return Err(pick.error), used, carry;
      }
      var ri := pick.value.0;
      next := pick.value.1;
      ghost var old_used := used;
      used := used + [ri];
      if !ValidIndex(ri, |x|) {
        return Err(IndexError(OutOfRange)), used, carry;
      }
      var q := x[PyIdx(ri, |x|)];
      var shape := LevyFlight.LevyShape(1 + 4 * e.maxVert + e.maxHoriz, |x|, alpha, gamma, n);
      if shape.Err? {
        return Err(shape.error), used, carry;
      }
      if i >= |steps| {
        return Err(DrawsExhausted), used, carry;
      }
      assert used[..i] == old_used;
      var one := FlightAppend(x, e, coneTan, sf, steps, used, tmp, carry, prevZ, nasVz);
      if one.Err? {
        return Err(one.error), used, carry;
      }
      tmp := one.value.0;
      prevZ, nasVz := one.value.1, one.value.2;
      carry := carry + [(prevZ, nasVz)];
    }
    return Ok(tmp), used, carry;
  }

  /** The list index the write-back of `Cell_Levy_Flights` uses for iteration
      i: the loops that build the bounds reuse the name `i`, so after them
      `tmp[i]` is `tmp[-1]` when there are two or more horizontal cells, else
      `tmp[max_vert - 1]` when there is a vertical cell, else `tmp[i]`. */
  function WriteBackIndex(maxVert: int, maxHoriz: int, i: int): int
  {
    if maxHoriz >= 2 then -1 else if maxVert >= 1 then maxVert - 1 else i
  }

  /** With two or more horizontal cells the write-back reaches the copy made
      in the same iteration; with one horizontal and one vertical cell, the
      second iteration writes into the first copy and leaves its own copy
      unmoved. */
  lemma WriteBackIndexShadowed(i: nat)
    ensures PyIdx(WriteBackIndex(0, 2, i), i + 1) == i
    ensures ValidIndex(WriteBackIndex(1, 1, 1), 2) && PyIdx(WriteBackIndex(1, 1, 1), 2) == 0 != 1
  {
  }

  // ---------------------------------------------------------------------------
  // Mutate

  /** The design vectors of the first n parents and the `prev_z` the last
      scan leaves, each scan starting from the one before it. */
  function RowsOf(x: seq<Parent>, n: nat, base: real): (r: Result<(seq<seq<real>>, Option<real>)>)
    ensures r.Ok? ==> n <= |x| && |r.value.0| == n
  {
    if n == 0 then Ok(([], None))
    else match RowsOf(x, n - 1, base)
      case Err(err) => Err(err)
      case Ok((rows, prevZ)) =>
        if n - 1 >= |x| then Err(IndexError(OutOfRange))
        else match PickAll(x[n - 1].surfaces, Scan([], 0, None, prevZ), base, false)
          case Err(err) => Err(err)
          case Ok(sc) => Ok((rows + [sc.v], sc.prevZ))
  }

  /** Once a scan fails, every longer run fails the same way. */
  lemma {:induction false} RowsErr(x: seq<Parent>, i: nat, n: nat, base: real)
    requires i <= n && RowsOf(x, i, base).Err?
    ensures RowsOf(x, n, base) == RowsOf(x, i, base)
    decreases n - i
  {
    if i < n {
      RowsErr(x, i, n - 1, base);
    }
  }

  /** The design vectors of the first p parents, `prev_z` carried from one
      parent to the next. */
  method BuildRows(x: seq<Parent>, p: int, base: real) returns (r: Result<seq<seq<real>>>)
    ensures r.Ok? ==> p <= |x| && |r.value| == (if p > 0 then p else 0)
    ensures var want := RowsOf(x, if p > 0 then p else 0, base);
      && (r.Ok? <==> want.Ok?) && (r.Err? ==> r.error == want.error)
      && (r.Ok? ==> r.value == want.value.0)
  {
    var rows: seq<seq<real>> := [];
    var prevZ: Option<real> := None;
    var n := if p > 0 then p else 0;
    for i := 0 to n
      invariant |rows| == i <= |x|
      invariant RowsOf(x, i, base) == Ok((rows, prevZ))
    {
      if i >= |x| {
        RowsErr(x, i + 1, n, base);
        return Err(IndexError(OutOfRange));
      }
      var scan := BuildVector(x[i].surfaces, base, prevZ, false);
      if scan.Err? {
        RowsErr(x, i + 1, n, base);
        return Err(scan.error);
      }
      rows := rows + [scan.value.v];
      prevZ := scan.value.prevZ;
    }
    return Ok(rows);
  }

  /** Rows of one common length, as `np.asarray` needs to make a matrix. */
  predicate Rectangular(rows: seq<seq<real>>, m: nat)
  {
    forall i :: 0 <= i < |rows| ==> |rows[i]| == m
  }

  /** Row j of the new designs before bounding: where the discovery draw
      exceeds fd the coordinate moves by the shared factor rr times the
      difference of the two permuted rows, elsewhere it stays. */
  function MutatedRow(rows: seq<seq<real>>, j: nat, c1: nat, c2: nat, rr: real, kd: seq<real>, fd: real): (row: seq<real>)
    requires j < |rows| && c1 < |rows| && c2 < |rows|
    requires |rows[c1]| == |rows[c2]| == |rows[j]| == |kd|
    ensures |row| == |rows[j]|
    ensures forall k :: 0 <= k < |row| ==>
      (kd[k] <= fd ==> row[k] == rows[j][k]) && (kd[k] > fd ==> row[k] == rows[j][k] + rr * (rows[c1][k] - rows[c2][k]))
  {
    seq(|rows[j]|, k requires 0 <= k < |rows[j]| =>
      rows[j][k] + rr * (rows[c1][k] - rows[c2][k]) * (if kd[k] > fd then 1.0 else 0.0))
  }

  /** A permutation draw: indexes into the p rows. */
  predicate RowIndexes(perm: seq<int>, p: nat)
  {
    |perm| == p && forall k :: 0 <= k < p ==> 0 <= perm[k] < p
  }

  /** The bounding of one mutated row: the radii ordered, one foil bound,
      the vertical bounds and `Simple_Bounds`. The horizontal entries hold
      distances, but `Mutate`'s horizontal bounds are those of planes (the
      first in [base, ceiling], each later one below the ceiling). So the
      distances are first made planes over the base plane, as
      `Cell_Levy_Flights` does, and each plane is then bounded to
      [base, ceiling]; the write-back receives planes. */
  function MutateBounded(row: seq<real>, e: Eta, coneTan: real): (r: Result<seq<real>>)
    ensures r.Ok? ==> |r.value| == |row| > 0
    ensures r.Ok? ==>
      && coneTan != 0.0 && VertFits(e, |row|)
      && ((e.maxHoriz <= 0 && -e.maxHoriz < |row|) || (1 <= e.maxHoriz <= |row|))
      && |row| == 1 + 4 * Mv(e) + HorizCount(e.maxHoriz)
  {
    if coneTan == 0.0 then Err(ZeroDivisionError)
    else if !VertFits(e, |row|) then Err(IndexError(OutOfRange))
    else
      var o := OrderedRadii(row, Mv(e));
      var h := e.maxHoriz;
      if !((h <= 0 && -h < |o|) || (1 <= h <= |o|)) then Err(IndexError(OutOfRange))
      else
        var lb := LowerBounds(o, 1, e, coneTan);
        var ub := UpperStart(o, 1, e) + MutateHorizUpper(o, h, e.Ceiling());
        if |o| != |lb| then Err(AssertionError(Bounds.TmpMismatch))
        else if h >= 1 then Ok(PlanesBounded(o, lb, ub, h, e.Base(), e.Ceiling()))
        else Ok(Bounds.Bounded(o, lb, ub))
  }

  /** The bounding of a row whose last h entries are distances: these are
      cumulated into planes over the base plane and each plane is held in
      [base, ceiling]; the coordinates before them keep their bounds. */
  function PlanesBounded(o: seq<real>, lb: seq<real>, ub: seq<real>, h: nat, base: real, ceiling: real): (v: seq<real>)
    requires 1 <= h <= |o| && |o| == |lb| == |ub|
    ensures |v| == |o|
  {
    var n := |o| - h;
    Bounds.Bounded(Cumulated(o, h, base).value, lb[..n] + seq(h, _ => base), ub[..n] + seq(h, _ => ceiling))
  }

  /** Cumulated distances whose planes p lie in [base, ceiling] are
      bounded to exactly p. */
  lemma PlanesBoundedKeeps(o: seq<real>, lb: seq<real>, ub: seq<real>, h: nat, base: real, ceiling: real, p: seq<real>)
    requires 1 <= h <= |o| && |o| == |lb| == |ub|
    requires 0.0 <= base <= ceiling
    requires o[|o| - h..] == Deltas(p, base)
    requires forall k :: 0 <= k < |p| ==> base <= p[k] <= ceiling
    ensures PlanesBounded(o, lb, ub, h, base, ceiling)[|o| - h..] == p
  {
    var n := |o| - h;
    var v := PlanesBounded(o, lb, ub, h, base, ceiling);
    assert Absolute(o[n..], base) == p by {
      AbsoluteOfDeltas(p, base);
    }
    forall k | n <= k < |v| ensures v[k] == p[k - n] {
      PlanesBoundedAt(o, lb, ub, h, base, ceiling, k);
    }
  }

  /** Before the planes, the bounding is the plain one. */
  lemma PlanesBoundedBefore(o: seq<real>, lb: seq<real>, ub: seq<real>, h: nat, base: real, ceiling: real, k: nat)
    requires 1 <= h <= |o| && |o| == |lb| == |ub| && k < |o| - h
    ensures var lo, hi := Bounds.NormLo(lb[k], ub[k]), Bounds.NormHi(lb[k], ub[k]);
      var v := PlanesBounded(o, lb, ub, h, base, ceiling);
      && (lo <= hi ==> lo <= v[k] <= hi)
      && (lo <= o[k] <= hi ==> v[k] == o[k])
  {
    var n := |o| - h;
    var c := Cumulated(o, h, base).value;
    var lb', ub' := lb[..n] + seq(h, _ => base), ub[..n] + seq(h, _ => ceiling);
    assert c[k] == o[k] && lb'[k] == lb[k] && ub'[k] == ub[k];
    Bounds.BoundedInRange(c, lb', ub', k);
  }

  /** With 0 <= base <= ceiling every plane lies in [base, ceiling], and a
      cumulated plane already there is kept. */
  lemma PlanesBoundedAt(o: seq<real>, lb: seq<real>, ub: seq<real>, h: nat, base: real, ceiling: real, k: nat)
    requires 1 <= h <= |o| && |o| == |lb| == |ub| && |o| - h <= k < |o|
    requires 0.0 <= base <= ceiling
    ensures var v := PlanesBounded(o, lb, ub, h, base, ceiling);
      var p := Absolute(o[|o| - h..], base);
      && base <= v[k] <= ceiling
      && (base <= p[k - (|o| - h)] <= ceiling ==> v[k] == p[k - (|o| - h)])
  {
    var n := |o| - h;
    var c := Cumulated(o, h, base).value;
    var lb', ub' := lb[..n] + seq(h, _ => base), ub[..n] + seq(h, _ => ceiling);
    assert c[k] == Absolute(o[n..], base)[k - n];
    assert lb'[k] == base && ub'[k] == ceiling;
    Bounds.BoundedInRange(c, lb', ub', k);
  }

  /** Every coordinate of a bounded row before the horizontal planes lies
      within its normalised bounds when these are ordered, and an ordered
      coordinate already within them is kept. */
  lemma MutateBoundedInRange(row: seq<real>, e: Eta, coneTan: real, k: nat)
    requires MutateBounded(row, e, coneTan).Ok?
    requires k < |row| - (if e.maxHoriz >= 1 then e.maxHoriz else 0)
    ensures var o := OrderedRadii(row, Mv(e));
      var lb := LowerBounds(o, 1, e, coneTan);
      var ub := UpperStart(o, 1, e) + MutateHorizUpper(o, e.maxHoriz, e.Ceiling());
      var lo, hi := Bounds.NormLo(lb[k], ub[k]), Bounds.NormHi(lb[k], ub[k]);
      var v := MutateBounded(row, e, coneTan).value;
      && (lo <= hi ==> lo <= v[k] <= hi)
      && (lo <= o[k] <= hi ==> v[k] == o[k])
  {
    var o := OrderedRadii(row, Mv(e));
    var lb := LowerBounds(o, 1, e, coneTan);
    var ub := UpperStart(o, 1, e) + MutateHorizUpper(o, e.maxHoriz, e.Ceiling());
    MutateBoundedIs(row, e, coneTan);
    if e.maxHoriz >= 1 {
      PlanesBoundedBefore(o, lb, ub, e.maxHoriz, e.Base(), e.Ceiling(), k);
    } else {
      Bounds.BoundedInRange(o, lb, ub, k);
    }
  }

  /** A bounded row is its ordered radii held in their bounds, with the
      planes first cumulated when there are any. */
  lemma MutateBoundedIs(row: seq<real>, e: Eta, coneTan: real)
    requires MutateBounded(row, e, coneTan).Ok?
    ensures var o := OrderedRadii(row, Mv(e));
      var lb := LowerBounds(o, 1, e, coneTan);
      var ub := UpperStart(o, 1, e) + MutateHorizUpper(o, e.maxHoriz, e.Ceiling());
      && |o| == |lb| == |ub|
      && MutateBounded(row, e, coneTan).value
         == if e.maxHoriz >= 1 then PlanesBounded(o, lb, ub, e.maxHoriz, e.Base(), e.Ceiling()) else Bounds.Bounded(o, lb, ub)
  {
  }

  /** With the base plane at or above 0 and below the ceiling, every plane of
      a bounded row lies in [base, ceiling]. */
  lemma MutateBoundedPlaneAt(row: seq<real>, e: Eta, coneTan: real, k: nat)
    requires MutateBounded(row, e, coneTan).Ok? && e.maxHoriz >= 1
    requires 0.0 <= e.Base() <= e.Ceiling()
    requires |row| - e.maxHoriz <= k < |row|
    ensures e.Base() <= MutateBounded(row, e, coneTan).value[k] <= e.Ceiling()
  {
    var o := OrderedRadii(row, Mv(e));
    var lb := LowerBounds(o, 1, e, coneTan);
    var ub := UpperStart(o, 1, e) + MutateHorizUpper(o, e.maxHoriz, e.Ceiling());
    MutateBoundedIs(row, e, coneTan);
    PlanesBoundedAt(o, lb, ub, e.maxHoriz, e.Base(), e.Ceiling(), k);
  }

  /** A row whose horizontal entries are the distances of planes p that
      lie in [base, ceiling] comes out of the bounding with exactly those
      planes: an unmoved design's planes are not moved. */
  lemma MutateBoundedKeepsPlanes(row: seq<real>, e: Eta, coneTan: real, p: seq<real>)
    requires MutateBounded(row, e, coneTan).Ok? && e.maxHoriz >= 1
    requires 0.0 <= e.Base() <= e.Ceiling()
    requires row[|row| - e.maxHoriz..] == Deltas(p, e.Base())
    requires forall k :: 0 <= k < |p| ==> e.Base() <= p[k] <= e.Ceiling()
    ensures MutateBounded(row, e, coneTan).value[|row| - e.maxHoriz..] == p
  {
    var o := OrderedRadii(row, Mv(e));
    var lb := LowerBounds(o, 1, e, coneTan);
    var ub := UpperStart(o, 1, e) + MutateHorizUpper(o, e.maxHoriz, e.Ceiling());
    var n := |row| - e.maxHoriz;
    MutateBoundedIs(row, e, coneTan);
    assert o[n..] == row[n..] by {
      forall k | n <= k < |o| ensures o[k] == row[k] {
        OrderedRadiiKeeps(row, Mv(e), k);
      }
    }
    PlanesBoundedKeeps(o, lb, ub, e.maxHoriz, e.Base(), e.Ceiling(), p);
  }

  /** The write-back of a bounded row into horizontal cells: reaching the
      cells with prev_z at most the base plane and the row's planes still to
      write, every plane written lies in [base, ceiling] and they rise. */
  lemma MutatePlanesWritten(row: seq<real>, e: Eta, coneTan: real, hs: seq<Surface>, w: Writer, z0: real)
    requires MutateBounded(row, e, coneTan).Ok? && e.maxHoriz >= 1
    requires 0.0 <= e.Base() <= e.Ceiling()
    requires |hs| == e.maxHoriz && forall k :: 0 <= k < |hs| ==> hs[k].role.HorizRole?
    requires w.d == MutateBounded(row, e, coneTan).value[|row| - e.maxHoriz..] && w.prevZ <= e.Base()
    ensures WriteAll(hs, w, z0, e.tH, e.Ceiling()).Ok?
    ensures var out := WriteAll(hs, w, z0, e.tH, e.Ceiling()).value.0;
      && PlanesRise(out, w.prevZ)
      && forall k :: 0 <= k < |out| ==> e.Base() <= out[k].d <= e.Ceiling()
  {
    var v := MutateBounded(row, e, coneTan).value;
    var n := |row| - e.maxHoriz;
    forall k | 0 <= k < |hs| ensures e.Base() <= w.d[k] <= e.Ceiling() {
      assert w.d[k] == v[n + k];
      MutateBoundedPlaneAt(row, e, coneTan, n + k);
    }
    WritePlanesWithin(hs, w, z0, e.tH, e.Ceiling(), e.Base());
  }

  /** An unmoved row of a design whose rising planes lie in [base, ceiling]
      writes those planes back unchanged. */
  lemma MutateKeepsPlanes(row: seq<real>, e: Eta, coneTan: real, hs: seq<Surface>, w: Writer, z0: real)
    requires MutateBounded(row, e, coneTan).Ok? && e.maxHoriz >= 1
    requires 0.0 <= e.Base() <= e.Ceiling()
    requires |hs| == e.maxHoriz && forall k :: 0 <= k < |hs| ==> hs[k].role.HorizRole?
    requires RisingFrom(Planes(hs), e.Base()) && forall k :: 0 <= k < |hs| ==> hs[k].d <= e.Ceiling()
    requires row[|row| - e.maxHoriz..] == Deltas(Planes(hs), e.Base())
    requires w.d == MutateBounded(row, e, coneTan).value[|row| - e.maxHoriz..] && w.prevZ <= e.Base()
    ensures WriteAll(hs, w, z0, e.tH, e.Ceiling()).Ok?
    ensures WriteAll(hs, w, z0, e.tH, e.Ceiling()).value.0 == hs
  {
    var p := Planes(hs);
    PlanesOfHorizontal(hs);
    forall k | 0 <= k < |p| ensures e.Base() <= p[k] <= e.Ceiling() {
      RisingAbove(p, e.Base(), k);
    }
    MutateBoundedKeepsPlanes(row, e, coneTan, p);
    assert w.d[..|hs|] == p && RisingFrom(p, w.prevZ);
    WriteKeepsPlanes(hs, w, z0, e.tH, e.Ceiling());
  }

  /** The bounding of one mutated row, in place as the source does it. */
  method MutateBound(row: seq<real>, e: Eta, coneTan: real) returns (r: Result<seq<real>>)
    ensures r == MutateBounded(row, e, coneTan)
  {
    if coneTan == 0.0 {
      return Err(ZeroDivisionError);
    }
    var a := ToArray(row);
    var ordered := OrderRadii(a, e.maxVert);
    if ordered.Err? {
      return Err(ordered.error);
    }
    var h := e.maxHoriz;
    if !((h <= 0 && -h < a.Length) || (1 <= h <= a.Length)) {
      return Err(IndexError(OutOfRange));
    }
    var lbs := LowerBounds(a[..], 1, e, coneTan);
    var ubs := UpperStart(a[..], 1, e) + MutateHorizUpper(a[..], h, e.Ceiling());
    if h >= 1 && a.Length == |lbs| {
      var n := a.Length - h;
      lbs, ubs := lbs[..n] + seq(h, _ => e.Base()), ubs[..n] + seq(h, _ => e.Ceiling());
      var planes := Cumulate(a, h, e.Base());
    }
    var lb := ToArray(lbs);
    var ub := ToArray(ubs);
    var bounded := Bounds.SimpleBounds(a, lb, ub);
    if bounded.Err? {
      return Err(bounded.error);
    }
    return Ok(a[..]);
  }

  /** r is what `Mutate` makes of the parent q in row j: the row moved by
      the walk, bounded as `MutateBounded` says and written back, with
      whatever nas_vz the rows before it left behind. */
  ghost predicate MutatedFrom(q: Parent, rows: seq<seq<real>>, j: nat, c1: int, c2: int, rr: real,
                              kd: seq<real>, fd: real, e: Eta, coneTan: real, r: Parent)
  {
    && j < |rows| && 0 <= c1 < |rows| && 0 <= c2 < |rows|
    && |rows[c1]| == |rows[c2]| == |rows[j]| == |kd| > 0
    && var b := MutateBounded(MutatedRow(rows, j, c1, c2, rr, kd, fd), e, coneTan);
    && b.Ok?
    && exists nasVz: Option<real> :: WrittenWith(q, b.value, rows[j][0], e, nasVz, r)
  }

  /** ys[k] is what `Mutate` made of parent k, for every k of the prefix
      ys: a prefix-recursive form that a loop can extend one row at a
      time. */
  ghost predicate Mutated(x: seq<Parent>, rows: seq<seq<real>>, perm1: seq<int>, perm2: seq<int>, rr: real,
                          kDraws: seq<seq<real>>, fd: real, e: Eta, coneTan: real, ys: seq<Parent>)
    decreases |ys|, 0
  {
    |ys| <= |x| && (|ys| > 0 ==> MutatedLast(x, rows, perm1, perm2, rr, kDraws, fd, e, coneTan, ys))
  }

  /** The last row of a `Mutated` prefix has its draws. */
  ghost predicate MutatedLast(x: seq<Parent>, rows: seq<seq<real>>, perm1: seq<int>, perm2: seq<int>, rr: real,
                              kDraws: seq<seq<real>>, fd: real, e: Eta, coneTan: real, ys: seq<Parent>)
    requires 0 < |ys| <= |x|
    decreases |ys| - 1, 2
  {
    |ys| <= |perm1| && |ys| <= |perm2| && |ys| <= |kDraws| && MutatedMoved(x, rows, perm1, perm2, rr, kDraws, fd, e, coneTan, ys)
  }

  /** The rows before the last, and what `Mutate` made of the last one. */
  ghost predicate MutatedMoved(x: seq<Parent>, rows: seq<seq<real>>, perm1: seq<int>, perm2: seq<int>, rr: real,
                               kDraws: seq<seq<real>>, fd: real, e: Eta, coneTan: real, ys: seq<Parent>)
    requires 0 < |ys| <= |x| && |ys| <= |perm1| && |ys| <= |perm2| && |ys| <= |kDraws|
    decreases |ys| - 1, 1
  {
    var n := |ys| - 1;
    && Mutated(x, rows, perm1, perm2, rr, kDraws, fd, e, coneTan, ys[..n])
    && MutatedFrom(x[n], rows, n, perm1[n], perm2[n], rr, kDraws[n], fd, e, coneTan, ys[n])
  }

  /** `Mutated`, read at row k. */
  lemma {:induction false} MutatedAt(x: seq<Parent>, rows: seq<seq<real>>, perm1: seq<int>, perm2: seq<int>, rr: real,
                                     kDraws: seq<seq<real>>, fd: real, e: Eta, coneTan: real, ys: seq<Parent>, k: nat)
    requires Mutated(x, rows, perm1, perm2, rr, kDraws, fd, e, coneTan, ys) && k < |ys|
    ensures k < |x| && k < |perm1| && k < |perm2| && k < |kDraws|
    ensures MutatedFrom(x[k], rows, k, perm1[k], perm2[k], rr, kDraws[k], fd, e, coneTan, ys[k])
    decreases |ys|
  {
    var n := |ys| - 1;
    assert MutatedLast(x, rows, perm1, perm2, rr, kDraws, fd, e, coneTan, ys);
    assert MutatedMoved(x, rows, perm1, perm2, rr, kDraws, fd, e, coneTan, ys);
    if k < n {
      MutatedAt(x, rows, perm1, perm2, rr, kDraws, fd, e, coneTan, ys[..n], k);
    }
  }

  /** Row j of `Mutate`: moved, bounded and written back into y[j]. */
  method MutateRow(x: seq<Parent>, rows: seq<seq<real>>, perm1: seq<int>, perm2: seq<int>, rr: real,
                   kDraws: seq<seq<real>>, fd: real, e: Eta, coneTan: real, y: seq<Parent>, j: nat, nasVz: Option<real>)
    returns (r: Result<(seq<Parent>, Option<real>)>)
    requires |y| == |x| && j < |rows| <= |x| && y[j] == x[j]
    requires RowIndexes(perm1, |rows|) && RowIndexes(perm2, |rows|) && |kDraws| == |rows|
    requires Rectangular(rows, |rows[0]|) && Rectangular(kDraws, |rows[0]|)
    requires Mutated(x, rows, perm1, perm2, rr, kDraws, fd, e, coneTan, y[..j])
    ensures r.Ok? ==> |r.value.0| == |x| && r.value.0 == y[j := r.value.0[j]]
    ensures r.Ok? ==> MovedFrom(x[j], r.value.0[j])
    ensures r.Ok? ==> Mutated(x, rows, perm1, perm2, rr, kDraws, fd, e, coneTan, r.value.0[..j + 1])
  {
    var row := MutatedRow(rows, j, perm1[j], perm2[j], rr, kDraws[j], fd);
    var bounded := MutateBound(row, e, coneTan);
    if bounded.Err? {
      return Err(bounded.error);
    }
    var written := WriteBack(y[j].surfaces, Writer(bounded.value, None, 0.0, nasVz), rows[j][0], e.tH, e.Ceiling());
    if written.Err? {
      return Err(written.error);
    }
    var y' := y[j := y[j].(surfaces := written.value.0)];
    assert WrittenWith(x[j], bounded.value, rows[j][0], e, nasVz, y'[j]);
    assert y'[..j + 1][..j] == y[..j];
    assert MutatedMoved(x, rows, perm1, perm2, rr, kDraws, fd, e, coneTan, y'[..j + 1]);
    return Ok((y', written.value.1.nasVz));
  }

  /** `Mutate(x, eta, S)`: the first p parents' design vectors are moved by
      one random walk step (`kDraws` the discovery matrix, `perm1` and
      `perm2` the two row permutations, `rr` the shared factor), bounded and
      written back into a copy of the whole population. numpy draws these
      in the shape it is asked for; `DrawsExhausted` stands for draws of the
      wrong shape, which the source cannot be given. */
  method Mutate(x: seq<Parent>, e: Eta, fd: real, p: int, coneTan: real,
                kDraws: seq<seq<real>>, perm1: seq<int>, perm2: seq<int>, rr: real)
    returns (r: Result<seq<Parent>>)
    ensures r.Ok? ==> |r.value| == |x| && 1 <= p <= |x|
    ensures r.Ok? ==> forall k :: p <= k < |x| ==> r.value[k] == x[k]
    ensures r.Ok? ==> forall k :: 0 <= k < p ==> MovedFrom(x[k], r.value[k])
    ensures r.Ok? ==>
      && p >= 1 && RowsOf(x, p, e.Base()).Ok?
      && Mutated(x, RowsOf(x, p, e.Base()).value.0, perm1, perm2, rr, kDraws, fd, e, coneTan, r.value[..p])
  {
    var built := BuildRows(x, p, e.Base());
    if built.Err? {
      return Err(built.error);
    }
    var rows := built.value;
    if rows == [] || !Rectangular(rows, |rows[0]|) {
      return Err(IndexError(TooManyIndices));
    }
    var m := |rows[0]|;
    if |kDraws| != |rows| || !Rectangular(kDraws, m) || !RowIndexes(perm1, |rows|) || !RowIndexes(perm2, |rows|) {
      return Err(DrawsExhausted);
    }
    var y := x;
    var nasVz: Option<real> := None;
    for j := 0 to |rows|
      invariant |y| == |x|
      invariant forall k :: j <= k < |x| ==> y[k] == x[k]
      invariant forall k :: 0 <= k < j ==> MovedFrom(x[k], y[k])
      invariant Mutated(x, rows, perm1, perm2, rr, kDraws, fd, e, coneTan, y[..j])
    {
      var one := MutateRow(x, rows, perm1, perm2, rr, kDraws, fd, e, coneTan, y, j, nasVz);
      if one.Err? {
        return Err(one.error);
      }
      y, nasVz := one.value.0, one.value.1;
    }
    return Ok(y);
  }
}
