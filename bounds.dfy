// Bounds enforcement shared by the search operators (Code/Gnowee_Utilities.py):
// `Simple_Bounds` normalises each bound pair and clamps, `Rejection_Bounds`
// runs a per-coordinate retry ladder (halve and retreat, revert to the parent,
// clamp, abort). Both overwrite their numpy arguments in place, so both are
// methods over arrays.
module Bounds {
  import opened Wrappers

  /** The small positive floor a negative lower bound is raised to. */
  const Epsilon: real := 0.0000001

  /** The pair is swapped when lb > ub and both are positive. */
  predicate Swaps(l: real, u: real)
  {
    l > u && l > 0.0 && u > 0.0
  }

  /** The lower bound after normalisation: swap, then a negative lb becomes Epsilon. */
  function NormLo(l: real, u: real): real
  {
    if Swaps(l, u) then u else if l < 0.0 then Epsilon else l
  }

  /** The upper bound after normalisation: swap, then a negative ub becomes the
      (not yet floored) lb. */
  function NormHi(l: real, u: real): real
  {
    if Swaps(l, u) then l else if u < 0.0 then l else u
  }

  /** Clamping one coordinate: below lo becomes lo, otherwise above hi becomes hi. */
  function Clamp(x: real, lo: real, hi: real): real
  {
    if x < lo then lo else if x > hi then hi else x
  }

  function NormLos(lb: seq<real>, ub: seq<real>): (r: seq<real>)
    requires |lb| == |ub|
    ensures |r| == |lb| && forall k :: 0 <= k < |lb| ==> r[k] == NormLo(lb[k], ub[k])
  {
    seq(|lb|, k requires 0 <= k < |lb| => NormLo(lb[k], ub[k]))
  }

  function NormHis(lb: seq<real>, ub: seq<real>): (r: seq<real>)
    requires |lb| == |ub|
    ensures |r| == |lb| && forall k :: 0 <= k < |lb| ==> r[k] == NormHi(lb[k], ub[k])
  {
    seq(|lb|, k requires 0 <= k < |lb| => NormHi(lb[k], ub[k]))
  }

  function ClampAll(x: seq<real>, lo: seq<real>, hi: seq<real>): (r: seq<real>)
    requires |x| == |lo| == |hi|
    ensures |r| == |x| && forall k :: 0 <= k < |x| ==> r[k] == Clamp(x[k], lo[k], hi[k])
  {
    seq(|x|, k requires 0 <= k < |x| => Clamp(x[k], lo[k], hi[k]))
  }

  /** What `Simple_Bounds(x, lb, ub)` returns: x clamped into the normalised bounds. */
  function Bounded(x: seq<real>, lb: seq<real>, ub: seq<real>): (r: seq<real>)
    requires |x| == |lb| == |ub|
    ensures |r| == |x|
  {
    ClampAll(x, NormLos(lb, ub), NormHis(lb, ub))
  }

  /** The normalised pair is ordered exactly when the original pair is neither
      (lb < 0 and ub < Epsilon) nor (lb > 0 and ub == 0); in particular two
      negative bounds stay disordered (lb becomes Epsilon, ub the negative lb). */
  lemma NormalisedOrdered(l: real, u: real)
    ensures NormLo(l, u) <= NormHi(l, u) <==> !((l < 0.0 && u < Epsilon) || (l > 0.0 && u == 0.0))
  {
  }

  /** The normalised lower bound is never negative; the normalised upper bound
      is not negative when the original upper bound was not. */
  lemma NormalisedSigns(l: real, u: real)
    ensures NormLo(l, u) >= 0.0
    ensures u >= 0.0 ==> NormHi(l, u) >= 0.0
  {
  }

  /** Normalising an ordered, already normalised pair changes nothing. */
  lemma NormaliseIdempotent(l: real, u: real)
    requires 0.0 <= l <= u
    ensures NormLo(l, u) == l && NormHi(l, u) == u
  {
  }

  /** Clamping lands in [lo, hi] when lo <= hi and leaves in-range values alone. */
  lemma ClampInRange(x: real, lo: real, hi: real)
    ensures lo <= hi ==> lo <= Clamp(x, lo, hi) <= hi
    ensures lo <= x <= hi ==> Clamp(x, lo, hi) == x
    ensures x < lo ==> Clamp(x, lo, hi) == lo
    ensures lo <= x && x > hi ==> Clamp(x, lo, hi) == hi
  {
  }

  /** Every coordinate of `Simple_Bounds`' result lies within its normalised
      bounds whenever those are ordered, and in-range coordinates are kept. */
  lemma BoundedInRange(x: seq<real>, lb: seq<real>, ub: seq<real>, k: nat)
    requires |x| == |lb| == |ub| && k < |x|
    ensures var lo, hi := NormLo(lb[k], ub[k]), NormHi(lb[k], ub[k]);
      (lo <= hi ==> lo <= Bounded(x, lb, ub)[k] <= hi)
      && (lo <= x[k] <= hi ==> Bounded(x, lb, ub)[k] == x[k])
  {
    ClampInRange(x[k], NormLo(lb[k], ub[k]), NormHi(lb[k], ub[k]));
  }

  /** With an upper bound that is not negative, the result is not negative. */
  lemma BoundedNonNegative(x: real, l: real, u: real)
    requires u >= 0.0
    ensures Clamp(x, NormLo(l, u), NormHi(l, u)) >= 0.0
  {
    NormalisedSigns(l, u);
  }

  // The messages of the errors the bound handlers raise.
  const TmpMismatch: string := "Tmp and lb best have different # of design variables in Simple_Bounds function."
  const SimpleBoundsMismatch: string := "Boundaries best have different # of design variables in Simple_Bounds function."
  const ChildMismatch: string := "Child and lb best have different # of design variables in Rejection_Bounds function."
  const RejectionBoundsMismatch: string := "Boundaries best have different # of design variables in Rejection_Bounds function."
  const NegativeChild: string := "Negative Child"
  const Stubborn: string := "Stubborn Child"

  /** `Simple_Bounds(tmp, lb, ub)`: asserts equal lengths, normalises every
      bound pair in place, then clamps every coordinate of tmp in place. */
  method SimpleBounds(tmp: array<real>, lb: array<real>, ub: array<real>) returns (r: Result<()>)
    requires tmp != lb && tmp != ub && lb != ub
    modifies tmp, lb, ub
    ensures r.Ok? <==> tmp.Length == lb.Length && ub.Length == lb.Length
    ensures r.Err? ==> r.error.AssertionError? && unchanged(tmp) && unchanged(lb) && unchanged(ub)
    ensures tmp.Length != lb.Length ==> r == Err(AssertionError(TmpMismatch))
    ensures r.Ok? ==> lb[..] == NormLos(old(lb[..]), old(ub[..]))
    ensures r.Ok? ==> ub[..] == NormHis(old(lb[..]), old(ub[..]))
    ensures r.Ok? ==> tmp[..] == Bounded(old(tmp[..]), old(lb[..]), old(ub[..]))
  {
    if tmp.Length != lb.Length {
      return Err(AssertionError(TmpMismatch));
    }
    if ub.Length != lb.Length {
      return Err(AssertionError(SimpleBoundsMismatch));
    }
    for i := 0 to lb.Length
      invariant forall k :: 0 <= k < i ==> lb[k] == NormLo(old(lb[k]), old(ub[k])) && ub[k] == NormHi(old(lb[k]), old(ub[k]))
      invariant forall k :: i <= k < lb.Length ==> lb[k] == old(lb[k]) && ub[k] == old(ub[k])
      invariant tmp[..] == old(tmp[..])
    {
      if lb[i] > ub[i] && lb[i] > 0.0 && ub[i] > 0.0 {
        lb[i], ub[i] := ub[i], lb[i];
      }
      if ub[i] < 0.0 {
        ub[i] := lb[i];
      }
      if lb[i] < 0.0 {
        lb[i] := Epsilon;
      }
    }
    for i := 0 to tmp.Length
      invariant forall k :: 0 <= k < i ==> tmp[k] == Clamp(old(tmp[k]), lb[k], ub[k])
      invariant forall k :: i <= k < tmp.Length ==> tmp[k] == old(tmp[k])
      invariant lb[..] == NormLos(old(lb[..]), old(ub[..])) && ub[..] == NormHis(old(lb[..]), old(ub[..]))
    {
      if tmp[i] < lb[i] {
        tmp[i] := lb[i];
      } else if tmp[i] > ub[i] {
        tmp[i] := ub[i];
      }
    }
    return Ok(());
  }

  // ---------------------------------------------------------------------------
  // Rejection_Bounds

  /** Where the first six rungs of the ladder leave one coordinate: settled on a
      value in [lb, ub] with the step it then has, or still out of bounds when
      the clamping rungs start. */
  datatype Retreat = Settled(value: real, step: real) | Unsettled(step: real)

  /** Rungs n..5 of the ladder for one coordinate: rungs 0-4 halve the step and
      retreat by it, rung 5 reverts to the parent's value. */
  function RetreatFrom(c: real, s: real, p: real, l: real, u: real, n: nat): (r: Retreat)
    requires n <= 6
    ensures r.Settled? ==> l <= r.value <= u
    decreases 6 - n
  {
    if l <= c <= u then Settled(c, s)
    else if n == 6 then Unsettled(s)
    else if n == 5 then RetreatFrom(p, s, p, l, u, 6)
    else RetreatFrom(c - s / 2.0, s / 2.0, p, l, u, n + 1)
  }

  /** A coordinate already in bounds settles at once, untouched. */
  lemma RetreatInBounds(c: real, s: real, p: real, l: real, u: real)
    requires l <= c <= u
    ensures RetreatFrom(c, s, p, l, u, 0) == Settled(c, s)
  {
  }

  /** When every coordinate settles within the first six rungs: its outcome. */
  predicate AllSettle(c: seq<real>, s: seq<real>, p: seq<real>, lb: seq<real>, ub: seq<real>)
  {
    |c| == |lb| == |ub| && |s| >= |c| && |p| >= |c|
    && forall k :: 0 <= k < |c| ==> RetreatFrom(c[k], s[k], p[k], lb[k], ub[k], 0).Settled?
  }

  function SettledValues(c: seq<real>, s: seq<real>, p: seq<real>, lb: seq<real>, ub: seq<real>): (r: seq<real>)
    requires AllSettle(c, s, p, lb, ub)
    ensures |r| == |c|
  {
    seq(|c|, k requires 0 <= k < |c| => RetreatFrom(c[k], s[k], p[k], lb[k], ub[k], 0).value)
  }

  function SettledSteps(c: seq<real>, s: seq<real>, p: seq<real>, lb: seq<real>, ub: seq<real>): (r: seq<real>)
    requires AllSettle(c, s, p, lb, ub)
    ensures |r| == |s|
  {
    seq(|s|, k requires 0 <= k < |s| =>
      if k < |c| then RetreatFrom(c[k], s[k], p[k], lb[k], ub[k], 0).step else s[k])
  }

  /** The rungs a coordinate still has, seen from rung n, are the rungs it had. */
  lemma RetreatStep(c: real, s: real, p: real, l: real, u: real, n: nat)
    requires n < 5 && !(l <= c <= u)
    ensures RetreatFrom(c, s, p, l, u, n) == RetreatFrom(c - s / 2.0, s / 2.0, p, l, u, n + 1)
  {
  }

  /** Rung 5 moves to the parent's value. */
  lemma RevertStep(c: real, s: real, p: real, l: real, u: real)
    requires !(l <= c <= u)
    ensures RetreatFrom(c, s, p, l, u, 5) == RetreatFrom(p, s, p, l, u, 6)
  {
  }

  /** The four arrays `Rejection_Bounds` updates in place. */
  datatype Vectors = Vectors(child: seq<real>, step: seq<real>, lb: seq<real>, ub: seq<real>)

  /** The arrays' lengths as `Rejection_Bounds` needs them to index each
      coordinate of child in all of them. */
  predicate Fits(v: Vectors, p: seq<real>)
  {
    |v.child| == |v.lb| == |v.ub| <= |v.step| && |v.child| <= |p|
  }

  /** Rung 6's first half: `ub[i] = abs(ub[i])` when it is negative. */
  function AbsAt(u: seq<real>, i: nat): (r: seq<real>)
    requires i < |u|
    ensures |r| == |u| && r[i] >= 0.0 && forall k :: 0 <= k < |u| && k != i ==> r[k] == u[k]
  {
    if u[i] < 0.0 then u[i := -u[i]] else u
  }

  /** Rungs n..8 of the ladder for coordinate i, from the state v: while
      child[i] is out of bounds, a negative ub[i] is made positive and
      `Simple_Bounds` normalises every bound pair and clamps every
      coordinate; a coordinate still out of bounds after rung 8 exits. */
  function Rungs(v: Vectors, i: nat, n: nat): (r: Result<Vectors>)
    requires |v.child| == |v.lb| == |v.ub| && i < |v.child| && n <= 9
    ensures r.Ok? ==> |r.value.child| == |v.child| == |r.value.lb| == |r.value.ub| && r.value.step == v.step
    ensures r.Ok? ==> r.value.lb[i] <= r.value.child[i] <= r.value.ub[i]
    ensures r.Err? ==> r.error == SystemExit(Stubborn)
    decreases 9 - n
  {
    if v.lb[i] <= v.child[i] <= v.ub[i] then Ok(v)
    else if n > 8 then Err(SystemExit(Stubborn))
    else
      var u := AbsAt(v.ub, i);
      Rungs(Vectors(Bounded(v.child, v.lb, u), v.step, NormLos(v.lb, u), NormHis(v.lb, u)), i, n + 1)
  }

  /** The whole ladder for coordinate i with parent p: rungs 0-5 as
      `RetreatFrom` gives them, then the clamping rungs. */
  function LadderOf(p: seq<real>, v: Vectors, i: nat): (r: Result<Vectors>)
    requires Fits(v, p) && i < |v.child|
    ensures r.Ok? ==> Fits(r.value, p) && |r.value.child| == |v.child| && |r.value.step| == |v.step|
    ensures r.Ok? ==> r.value.lb[i] <= r.value.child[i] <= r.value.ub[i]
    ensures r.Err? ==> r.error == SystemExit(Stubborn)
  {
    match RetreatFrom(v.child[i], v.step[i], p[i], v.lb[i], v.ub[i], 0)
    case Settled(c, st) => Ok(v.(child := v.child[i := c], step := v.step[i := st]))
    case Unsettled(st) => Rungs(v.(child := v.child[i := p[i]], step := v.step[i := st]), i, 6)
  }

  /** What `Rejection_Bounds` does from coordinate i on: each coordinate
      climbs its ladder, and one that ends negative exits. */
  function Rejected(p: seq<real>, v: Vectors, i: nat): (r: Result<Vectors>)
    requires Fits(v, p) && i <= |v.child|
    ensures r.Ok? ==> Fits(r.value, p) && |r.value.child| == |v.child| && |r.value.step| == |v.step|
    ensures r.Err? ==> r.error == SystemExit(Stubborn) || r.error == SystemExit(NegativeChild)
    decreases |v.child| - i
  {
    if i == |v.child| then Ok(v)
    else match Step(p, v, i)
      case Err(e) => Err(e)
      case Ok(w) => Rejected(p, w, i + 1)
  }

  /** One pass of the outer loop: the ladder for coordinate i, then the
      exit when it settled negative. */
  function Step(p: seq<real>, v: Vectors, i: nat): (r: Result<Vectors>)
    requires Fits(v, p) && i < |v.child|
    ensures r.Ok? ==> Fits(r.value, p) && |r.value.child| == |v.child| && |r.value.step| == |v.step|
    ensures r.Ok? ==> r.value.child[i] >= 0.0
  {
    match LadderOf(p, v, i)
    case Err(e) => Err(e)
    case Ok(w) => if w.child[i] < 0.0 then Err(SystemExit(NegativeChild)) else Ok(w)
  }

  /** The same run seen from the front: the state after the first i
      coordinates. */
  function RejectedTo(p: seq<real>, v: Vectors, i: nat): (r: Result<Vectors>)
    requires Fits(v, p) && i <= |v.child|
    ensures r.Ok? ==> Fits(r.value, p) && |r.value.child| == |v.child| && |r.value.step| == |v.step|
    decreases i, 0
  {
    if i == 0 then Ok(v) else RejectedAfter(p, v, i - 1)
  }

  function RejectedAfter(p: seq<real>, v: Vectors, j: nat): (r: Result<Vectors>)
    requires Fits(v, p) && j < |v.child|
    ensures r.Ok? ==> Fits(r.value, p) && |r.value.child| == |v.child| && |r.value.step| == |v.step|
    decreases j, 1
  {
    match RejectedTo(p, v, j)
    case Err(e) => Err(e)
    case Ok(w) => Step(p, w, j)
  }

  /** Running the first i coordinates and then the rest is the whole run. */
  lemma {:induction false} RejectedSplit(p: seq<real>, v: Vectors, i: nat)
    requires Fits(v, p) && i <= |v.child|
    ensures RejectedTo(p, v, i).Err? ==> Rejected(p, v, 0) == RejectedTo(p, v, i)
    ensures RejectedTo(p, v, i).Ok? ==> Rejected(p, v, 0) == Rejected(p, RejectedTo(p, v, i).value, i)
  {
    if i > 0 {
      RejectedSplit(p, v, i - 1);
      if RejectedTo(p, v, i - 1).Ok? {
        RejectedSplitStep(p, v, i - 1);
      } else {
        assert RejectedTo(p, v, i) == RejectedAfter(p, v, i - 1);
      }
    }
  }

  lemma RejectedSplitStep(p: seq<real>, v: Vectors, j: nat)
    requires Fits(v, p) && j < |v.child| && RejectedTo(p, v, j).Ok?
    ensures var w := RejectedTo(p, v, j).value; var n := RejectedTo(p, v, j + 1);
      && (n.Err? ==> Rejected(p, w, j) == n)
      && (n.Ok? ==> Rejected(p, w, j) == Rejected(p, n.value, j + 1))
  {
    var w := RejectedTo(p, v, j).value;
    assert RejectedTo(p, v, j + 1) == Step(p, w, j);
  }

  /** Each rung from 6 on clamps every coordinate into bounds normalised
      from non-negative upper bounds, so whatever `Rejection_Bounds`
      accepts is not negative. */
  lemma {:induction false} RejectedNonNegative(p: seq<real>, v: Vectors, i: nat)
    requires Fits(v, p) && i <= |v.child| && Rejected(p, v, i).Ok?
    requires forall k :: 0 <= k < i ==> v.child[k] >= 0.0 && v.ub[k] >= 0.0
    ensures forall k :: 0 <= k < |v.child| ==> Rejected(p, v, i).value.child[k] >= 0.0
    decreases |v.child| - i
  {
    if i < |v.child| {
      var w := Step(p, v, i).value;
      LadderKeepsSigns(p, v, i);
      RejectedNonNegative(p, w, i + 1);
    }
  }

  /** The ladder for coordinate i keeps the earlier coordinates and their
      upper bounds non-negative. */
  lemma LadderKeepsSigns(p: seq<real>, v: Vectors, i: nat)
    requires Fits(v, p) && i < |v.child| && LadderOf(p, v, i).Ok?
    requires forall k :: 0 <= k < i ==> v.child[k] >= 0.0 && v.ub[k] >= 0.0
    ensures var w := LadderOf(p, v, i).value;
      forall k :: 0 <= k < i ==> w.child[k] >= 0.0 && w.ub[k] >= 0.0
  {
    match RetreatFrom(v.child[i], v.step[i], p[i], v.lb[i], v.ub[i], 0)
    case Settled(c, st) =>
    case Unsettled(st) =>
      RungsKeepSigns(v.(child := v.child[i := p[i]], step := v.step[i := st]), i, 6);
  }

  lemma {:induction false} RungsKeepSigns(v: Vectors, i: nat, n: nat)
    requires |v.child| == |v.lb| == |v.ub| && i < |v.child| && n <= 9 && Rungs(v, i, n).Ok?
    requires forall k :: 0 <= k < i ==> v.child[k] >= 0.0 && v.ub[k] >= 0.0
    ensures var w := Rungs(v, i, n).value;
      forall k :: 0 <= k < i ==> w.child[k] >= 0.0 && w.ub[k] >= 0.0
    decreases 9 - n
  {
    if !(v.lb[i] <= v.child[i] <= v.ub[i]) {
      var u := AbsAt(v.ub, i);
      var next := Vectors(Bounded(v.child, v.lb, u), v.step, NormLos(v.lb, u), NormHis(v.lb, u));
      forall k | 0 <= k < i
        ensures next.child[k] >= 0.0 && next.ub[k] >= 0.0
      {
        NormalisedSigns(v.lb[k], u[k]);
        BoundedNonNegative(v.child[k], v.lb[k], u[k]);
      }
      RungsKeepSigns(next, i, n + 1);
    }
  }

  /** When every coordinate settles within the first six rungs, the
      coordinates take their settled values and steps, the bounds are left
      alone, and the run exits exactly when a settled value is negative. */
  lemma {:induction false} RejectedSettles(p: seq<real>, v: Vectors, i: nat)
    requires Fits(v, p) && i <= |v.child|
    requires forall k :: i <= k < |v.child| ==> RetreatFrom(v.child[k], v.step[k], p[k], v.lb[k], v.ub[k], 0).Settled?
    ensures Rejected(p, v, i).Ok? <==>
      forall k :: i <= k < |v.child| ==> RetreatFrom(v.child[k], v.step[k], p[k], v.lb[k], v.ub[k], 0).value >= 0.0
    ensures Rejected(p, v, i).Err? ==> Rejected(p, v, i).error == SystemExit(NegativeChild)
    ensures Rejected(p, v, i).Ok? ==> var w := Rejected(p, v, i).value;
      && w.lb == v.lb && w.ub == v.ub && |w.step| == |v.step|
      && (forall k :: 0 <= k < i || |v.child| <= k < |v.step| ==> w.step[k] == v.step[k])
      && (forall k :: 0 <= k < i ==> w.child[k] == v.child[k])
      && (forall k :: i <= k < |v.child| ==>
            Settled(w.child[k], w.step[k]) == RetreatFrom(v.child[k], v.step[k], p[k], v.lb[k], v.ub[k], 0))
    decreases |v.child| - i
  {
    if i < |v.child| {
      var t := RetreatFrom(v.child[i], v.step[i], p[i], v.lb[i], v.ub[i], 0);
      var w := v.(child := v.child[i := t.value], step := v.step[i := t.step]);
      assert LadderOf(p, v, i) == Ok(w);
      if t.value >= 0.0 {
        assert Step(p, v, i) == Ok(w);
        RejectedSettles(p, w, i + 1);
        assert forall k :: i < k < |v.child| ==>
          RetreatFrom(w.child[k], w.step[k], p[k], w.lb[k], w.ub[k], 0) == RetreatFrom(v.child[k], v.step[k], p[k], v.lb[k], v.ub[k], 0);
      }
    }
  }

  /** The same, from the first coordinate, with the settled outcomes as
      vectors. */
  lemma RejectedAllSettle(p: seq<real>, c: seq<real>, s: seq<real>, lb: seq<real>, ub: seq<real>)
    requires AllSettle(c, s, p, lb, ub)
    ensures Fits(Vectors(c, s, lb, ub), p)
    ensures var want, v := Rejected(p, Vectors(c, s, lb, ub), 0), SettledValues(c, s, p, lb, ub);
      && (want.Ok? <==> forall k :: 0 <= k < |v| ==> v[k] >= 0.0)
      && (want.Err? ==> want.error == SystemExit(NegativeChild))
      && (want.Ok? ==> want.value == Vectors(v, SettledSteps(c, s, p, lb, ub), lb, ub))
  {
    var v0 := Vectors(c, s, lb, ub);
    RejectedSettles(p, v0, 0);
    var want, v := Rejected(p, v0, 0), SettledValues(c, s, p, lb, ub);
    assert forall k :: 0 <= k < |v| ==> v[k] == RetreatFrom(c[k], s[k], p[k], lb[k], ub[k], 0).value;
    if want.Ok? {
      assert want.value.child == SettledValues(c, s, p, lb, ub);
      assert want.value.step == SettledSteps(c, s, p, lb, ub);
    }
  }

  /** Rungs 6-8 of the ladder: a negative ub[i] is made positive, then
      `Simple_Bounds` runs over the whole vector; coordinates before i that were
      not negative stay so. */
  method ClampRung(child: array<real>, lb: array<real>, ub: array<real>, i: nat)
    requires child != lb && child != ub && lb != ub
    requires child.Length == lb.Length == ub.Length && i < child.Length
    requires forall k :: 0 <= k < i ==> child[k] >= 0.0 && ub[k] >= 0.0
    modifies child, lb, ub
    ensures forall k :: 0 <= k < i ==> child[k] >= 0.0 && ub[k] >= 0.0
    ensures ub[i] >= 0.0 && child[i] >= 0.0
    ensures var u := AbsAt(old(ub[..]), i);
      && child[..] == Bounded(old(child[..]), old(lb[..]), u)
      && lb[..] == NormLos(old(lb[..]), u) && ub[..] == NormHis(old(lb[..]), u)
  {
    if ub[i] < 0.0 {
      ub[i] := -ub[i];
    }
    ghost var lb0, ub0 := lb[..], ub[..];
    ghost var child0 := child[..];
    assert ub0 == AbsAt(old(ub[..]), i);
    var _ := SimpleBounds(child, lb, ub);
    forall k | 0 <= k <= i ensures child[k] >= 0.0 && ub[k] >= 0.0 {
      NormalisedSigns(lb0[k], ub0[k]);
      BoundedNonNegative(child0[k], lb0[k], ub0[k]);
    }
  }

  /** Rungs 0-4 for a coordinate i out of bounds: halve its step and retreat
      by it, leaving the rungs to come as they were. */
  method HalveAndRetreat(parent: array<real>, child: array<real>, stepsize: array<real>,
                         lb: array<real>, ub: array<real>, i: nat, n: nat)
    requires child != lb && child != ub && stepsize != child && stepsize != lb && stepsize != ub
    requires parent != child && parent != stepsize
    requires i < child.Length && i < stepsize.Length && i < lb.Length && i < ub.Length
    requires n < 5 && !(lb[i] <= child[i] <= ub[i])
    modifies child, stepsize
    ensures forall k :: 0 <= k < child.Length && k != i ==> child[k] == old(child[k])
    ensures forall k :: 0 <= k < stepsize.Length && k != i ==> stepsize[k] == old(stepsize[k])
    ensures i < parent.Length ==>
      RetreatFrom(child[i], stepsize[i], parent[i], lb[i], ub[i], n + 1) ==
      RetreatFrom(old(child[i]), old(stepsize[i]), parent[i], lb[i], ub[i], n)
  {
    if i < parent.Length {
      RetreatStep(child[i], stepsize[i], parent[i], lb[i], ub[i], n);
    }
    stepsize[i] := stepsize[i] / 2.0;
    child[i] := child[i] - stepsize[i];
  }

  /** Rung 5 for a coordinate i out of bounds: revert to the parent's value. */
  method Revert(parent: array<real>, child: array<real>, stepsize: array<real>,
                lb: array<real>, ub: array<real>, i: nat)
    requires child != lb && child != ub && stepsize != child && parent != child
    requires i < child.Length && i < parent.Length && i < lb.Length && i < ub.Length
    requires !(lb[i] <= child[i] <= ub[i])
    modifies child
    ensures child[i] == parent[i]
    ensures forall k :: 0 <= k < child.Length && k != i ==> child[k] == old(child[k])
    ensures i < stepsize.Length ==>
      RetreatFrom(child[i], stepsize[i], parent[i], lb[i], ub[i], 6) ==
      RetreatFrom(old(child[i]), stepsize[i], parent[i], lb[i], ub[i], 5)
  {
    if i < stepsize.Length {
      RevertStep(child[i], stepsize[i], parent[i], lb[i], ub[i]);
    }
    child[i] := parent[i];
  }

  /** Rungs 0-5 of the inner loop of `Rejection_Bounds` for coordinate i,
      which touch only child[i] and stepsize[i]: the loop stops when child[i]
      is within [lb[i], ub[i]] or the count reaches 6. Returns that count. */
  method Retreats(parent: array<real>, child: array<real>, stepsize: array<real>,
                  lb: array<real>, ub: array<real>, i: nat) returns (r: Result<nat>)
    requires child != lb && child != ub && stepsize != child && stepsize != lb && stepsize != ub
    requires parent != child && parent != stepsize
    requires child.Length == lb.Length == ub.Length && i < child.Length
    modifies child, stepsize
    ensures r.Ok? ==> r.value <= 6 && (r.value < 6 ==> lb[i] <= child[i] <= ub[i])
    ensures forall k :: 0 <= k < child.Length && k != i ==> child[k] == old(child[k])
    ensures forall k :: 0 <= k < stepsize.Length && k != i ==> stepsize[k] == old(stepsize[k])
    ensures i < stepsize.Length && i < parent.Length ==>
      r.Ok? && RetreatFrom(old(child[i]), old(stepsize[i]), parent[i], lb[i], ub[i], 0) ==
        (if lb[i] <= child[i] <= ub[i] then Settled(child[i], stepsize[i]) else Unsettled(stepsize[i]))
    ensures r.Ok? && !(lb[i] <= child[i] <= ub[i]) ==> r.value == 6 && i < parent.Length && child[i] == parent[i]
  {
    var changeCount := 0;
    while (child[i] < lb[i] || child[i] > ub[i]) && changeCount < 6
      invariant 0 <= changeCount <= 6
      invariant forall k :: 0 <= k < child.Length && k != i ==> child[k] == old(child[k])
      invariant forall k :: 0 <= k < stepsize.Length && k != i ==> stepsize[k] == old(stepsize[k])
      invariant i < stepsize.Length && i < parent.Length ==>
        RetreatFrom(child[i], stepsize[i], parent[i], lb[i], ub[i], changeCount)
        == RetreatFrom(old(child[i]), old(stepsize[i]), parent[i], lb[i], ub[i], 0)
      invariant changeCount == 6 ==> i < parent.Length && child[i] == parent[i]
      decreases 6 - changeCount
    {
      if changeCount == 5 {
        if i >= parent.Length {
          return Err(IndexError("index out of bounds"));
        }
        Revert(parent, child, stepsize, lb, ub, i);
      } else {
        if i >= stepsize.Length {
          return Err(IndexError("index out of bounds"));
        }
        HalveAndRetreat(parent, child, stepsize, lb, ub, i, changeCount);
      }
      changeCount := changeCount + 1;
    }
    return Ok(changeCount);
  }

  /** The inner loop of `Rejection_Bounds` for coordinate i: climbs the ladder
      until child[i] is within [lb[i], ub[i]]. Rungs 6-8 run `Simple_Bounds`
      over the whole vector, which keeps the coordinates before i non-negative. */
  method Ladder(parent: array<real>, child: array<real>, stepsize: array<real>,
                lb: array<real>, ub: array<real>, i: nat) returns (r: Result<()>)
    requires child != lb && child != ub && lb != ub && stepsize != child && stepsize != lb && stepsize != ub
    requires parent != child && parent != lb && parent != ub && parent != stepsize
    requires child.Length == lb.Length == ub.Length && i < child.Length
    requires forall k :: 0 <= k < i ==> child[k] >= 0.0 && ub[k] >= 0.0
    modifies child, stepsize, lb, ub
    ensures forall k :: 0 <= k < i ==> child[k] >= 0.0 && ub[k] >= 0.0
    ensures r.Ok? ==> lb[i] <= child[i] <= ub[i]
    ensures i < stepsize.Length && i < parent.Length
            && RetreatFrom(old(child[i]), old(stepsize[i]), parent[i], old(lb[i]), old(ub[i]), 0).Settled? ==>
      var t := RetreatFrom(old(child[i]), old(stepsize[i]), parent[i], old(lb[i]), old(ub[i]), 0);
      r.Ok? && child[..] == old(child[..])[i := t.value] && stepsize[..] == old(stepsize[..])[i := t.step]
      && lb[..] == old(lb[..]) && ub[..] == old(ub[..])
    ensures Fits(Vectors(old(child[..]), old(stepsize[..]), old(lb[..]), old(ub[..])), parent[..]) ==>
      var want := LadderOf(parent[..], Vectors(old(child[..]), old(stepsize[..]), old(lb[..]), old(ub[..])), i);
      && (r.Ok? <==> want.Ok?) && (r.Err? ==> r.error == want.error)
      && (r.Ok? ==> want.value == Vectors(child[..], stepsize[..], lb[..], ub[..]))
  {
    ghost var v0 := Vectors(child[..], stepsize[..], lb[..], ub[..]);
    ghost var fits := Fits(v0, parent[..]);
    var n := Retreats(parent, child, stepsize, lb, ub, i);
    if n.Err? {
      return Err(n.error);
    }
    ghost var c1, s1 := child[..], stepsize[..];
    assert c1 == old(child[..])[i := child[i]];
    if i < stepsize.Length {
      assert s1 == old(stepsize[..])[i := stepsize[i]];
    }
    ghost var settles := i < stepsize.Length && i < parent.Length && lb[i] <= child[i] <= ub[i];
    ghost var want := if fits then LadderOf(parent[..], v0, i) else Ok(v0);
    if fits && !settles {
      assert want == Rungs(Vectors(c1, s1, lb[..], ub[..]), i, 6);
    }
    var changeCount := n.value;
    while child[i] < lb[i] || child[i] > ub[i]
      invariant changeCount <= 9 && (changeCount < 6 ==> lb[i] <= child[i] <= ub[i])
      invariant forall k :: 0 <= k < i ==> child[k] >= 0.0 && ub[k] >= 0.0
      invariant settles ==> child[..] == c1 && stepsize[..] == s1 && lb[..] == old(lb[..]) && ub[..] == old(ub[..])
      invariant stepsize[..] == s1
      invariant fits && !settles ==> 6 <= changeCount && Rungs(Vectors(child[..], s1, lb[..], ub[..]), i, changeCount) == want
      decreases 9 - changeCount
    {
      if changeCount > 8 {
        return Err(SystemExit(Stubborn));
      }
      ClampRung(child, lb, ub, i);
      changeCount := changeCount + 1;
    }
    return Ok(());
  }


  /** One pass of the outer loop of `Rejection_Bounds`: the ladder for
      coordinate i, then the exit when it settled negative. */
  method Coordinate(parent: array<real>, child: array<real>, stepsize: array<real>,
                    lb: array<real>, ub: array<real>, i: nat) returns (r: Result<()>)
    requires child != lb && child != ub && lb != ub && stepsize != child && stepsize != lb && stepsize != ub
    requires parent != child && parent != lb && parent != ub && parent != stepsize
    requires child.Length == lb.Length == ub.Length && i < child.Length
    requires forall k :: 0 <= k < i ==> child[k] >= 0.0 && ub[k] >= 0.0
    modifies child, stepsize, lb, ub
    ensures r.Ok? ==> forall k :: 0 <= k <= i ==> child[k] >= 0.0 && ub[k] >= 0.0
    ensures Fits(Vectors(old(child[..]), old(stepsize[..]), old(lb[..]), old(ub[..])), parent[..]) ==>
      var want := Step(parent[..], Vectors(old(child[..]), old(stepsize[..]), old(lb[..]), old(ub[..])), i);
      && (r.Ok? <==> want.Ok?) && (r.Err? ==> r.error == want.error)
      && (r.Ok? ==> want.value == Vectors(child[..], stepsize[..], lb[..], ub[..]))
  {
    r := Ladder(parent, child, stepsize, lb, ub, i);
    if r.Err? {
      return;
    }
    if child[i] < 0.0 {
      return Err(SystemExit(NegativeChild));
    }
    assert ub[i] >= 0.0 by {
      assert lb[i] <= child[i] <= ub[i];
    }
  }

  /** `Rejection_Bounds(parent, child, stepsize, lb, ub)`. Each coordinate of
      child that lies outside [lb, ub] climbs a ladder: five times halve its step
      and retreat by it, then revert to the parent's value, then up to three
      `Simple_Bounds` passes over the whole vector (after making a negative ub
      positive), and a ninth failure exits. A settled coordinate that is
      negative also exits. Only coordinates the loop reaches are read. */
  method RejectionBounds(parent: array<real>, child: array<real>, stepsize: array<real>,
                         lb: array<real>, ub: array<real>) returns (r: Result<()>)
    requires child != lb && child != ub && lb != ub && stepsize != child && stepsize != lb && stepsize != ub
    requires parent != child && parent != lb && parent != ub && parent != stepsize
    modifies child, stepsize, lb, ub
    ensures child.Length != lb.Length || ub.Length != lb.Length ==> r.Err? && r.error.AssertionError?
    ensures child.Length != lb.Length ==> r == Err(AssertionError(ChildMismatch))
    ensures r.Ok? ==> forall k :: 0 <= k < child.Length ==> child[k] >= 0.0
    ensures r.Ok? ==> forall k :: 0 <= k < ub.Length ==> ub[k] >= 0.0
    ensures Fits(Vectors(old(child[..]), old(stepsize[..]), old(lb[..]), old(ub[..])), parent[..]) ==>
      var want := Rejected(parent[..], Vectors(old(child[..]), old(stepsize[..]), old(lb[..]), old(ub[..])), 0);
      && (r.Ok? <==> want.Ok?) && (r.Err? ==> r.error == want.error)
      && (r.Ok? ==> want.value == Vectors(child[..], stepsize[..], lb[..], ub[..]))
  {
    if child.Length != lb.Length {
      return Err(AssertionError(ChildMismatch));
    }
    if ub.Length != lb.Length {
      return Err(AssertionError(RejectionBoundsMismatch));
    }
    ghost var v0 := Vectors(child[..], stepsize[..], lb[..], ub[..]);
    ghost var fits := Fits(v0, parent[..]);
    r := Ok(());
    var i := 0;
    while i < child.Length && r.Ok?
      invariant i <= child.Length
      invariant r.Ok? ==> forall k :: 0 <= k < i ==> child[k] >= 0.0 && ub[k] >= 0.0
      invariant fits && r.Ok? ==> RejectedTo(parent[..], v0, i) == Ok(Vectors(child[..], stepsize[..], lb[..], ub[..]))
      invariant fits && r.Err? ==> RejectedTo(parent[..], v0, i) == Err(r.error)
    {
      r := Coordinate(parent, child, stepsize, lb, ub, i);
      i := i + 1;
    }
    if fits {
      RejectedSplit(parent[..], v0, i);
    }
  }

}
