// General utilities of the optimizer (Code/Utilities.py): the `Switch` case
// matcher, the scoring functions over spectra, the `Event` record, the weighted
// index sampler, the per-operator statistics and the tier rule for transport jobs used when
// batching transport runs.
module Utilities {
  import opened Wrappers
  import opened PyMath

  // ---------------------------------------------------------------------------
  // Switch

  /** The `for case in Switch(v)` matcher: `fall` latches after the first match. */
  class Switch {
    var value: string
    var fall: bool

    constructor (value: string)
      ensures this.value == value && !fall
    {
      this.value := value;
      fall := false;
    }

    /** `match(*args)`: True for the default case (no args), for a listed value
        and for every call after a match. */
    method Match(args: seq<string>) returns (r: bool)
      modifies this`fall
      ensures r == (old(fall) || args == [] || value in args)
      ensures fall == (old(fall) || (args != [] && value in args))
    {
      if fall || args == [] {
        r := true;
      } else if value in args {
        fall := true;
        r := true;
      } else {
        r := false;
      }
    }
  }

  /** The case a `Switch` statement whose every case ends in `break` runs:
      the index of the first case that lists `value` or has no arguments,
      or |cases| when none does. */
  method Dispatch(value: string, cases: seq<seq<string>>) returns (r: nat)
    ensures r <= |cases|
    ensures forall k :: 0 <= k < r ==> cases[k] != [] && value !in cases[k]
    ensures r < |cases| ==> cases[r] == [] || value in cases[r]
  {
    var sw := new Switch(value);
    r := 0;
    while r < |cases|
      invariant r <= |cases|
      invariant !sw.fall && sw.value == value
      invariant forall k :: 0 <= k < r ==> cases[k] != [] && value !in cases[k]
    {
      var hit := sw.Match(cases[r]);
      if hit {
        return;
      }
      r := r + 1;
    }
  }

  // ---------------------------------------------------------------------------
  // Spectra and scoring

  /** One row of a tally spectrum: (upper bin energy, bin value). */
  type Bin = (real, real)

  /** The differential value of bin i: its value over its energy width. */
  function DiffAt(spectrum: seq<Bin>, i: nat): real
    requires i < |spectrum| && NonZeroWidths(spectrum)
  {
    if i == 0 then spectrum[0].1 / spectrum[0].0
    else spectrum[i].1 / (spectrum[i].0 - spectrum[i - 1].0)
  }

  function Diffs(spectrum: seq<Bin>): seq<real>
    requires NonZeroWidths(spectrum)
  {
    seq(|spectrum|, i requires 0 <= i < |spectrum| => DiffAt(spectrum, i))
  }

  /** Every bin has a non-zero energy width (numpy would give inf or nan). */
  predicate NonZeroWidths(spectrum: seq<Bin>)
  {
    (|spectrum| > 0 ==> spectrum[0].0 != 0.0)
    && forall i :: 1 <= i < |spectrum| ==> spectrum[i].0 != spectrum[i - 1].0
  }

  /** `to_NormDiff`: the differential spectrum divided by its sum. */
  method ToNormDiff(spectrum: seq<Bin>) returns (r: Result<seq<real>>)
    requires NonZeroWidths(spectrum)
    requires spectrum != [] ==> Sum(Diffs(spectrum)) != 0.0
    ensures spectrum == [] <==> r == Err(IndexError("index 0 is out of bounds"))
    ensures r.Ok? ==> |r.value| == |spectrum|
    ensures r.Ok? ==> forall i :: 0 <= i < |spectrum| ==>
      r.value[i] == DiffAt(spectrum, i) / Sum(Diffs(spectrum))
    ensures r.Ok? ==> Sum(r.value) == 1.0
  {
    if spectrum == [] {
      return Err(IndexError("index 0 is out of bounds"));
    }
    var diff := [spectrum[0].1 / spectrum[0].0];
    var i := 1;
    while i < |spectrum|
      invariant 1 <= i <= |spectrum|
      invariant diff == Diffs(spectrum)[..i]
    {
      diff := diff + [spectrum[i].1 / (spectrum[i].0 - spectrum[i - 1].0)];
      i := i + 1;
    }
    assert diff == Diffs(spectrum);
    var total := Sum(diff);
    var result := seq(|diff|, k requires 0 <= k < |diff| => diff[k] / total);
    SumScaled(diff, result, total);
    assert Sum(diff) / total == 1.0;
    return Ok(result);
  }

  function AbsDiffs(c: seq<real>, d: seq<real>): (r: seq<real>)
    requires |c| == |d|
    ensures |r| == |c| && forall k :: 0 <= k < |c| ==> r[k] == Abs(d[k] - c[k])
  {
    seq(|c|, k requires 0 <= k < |c| => Abs(d[k] - c[k]))
  }

  function SquaredDiffs(c: seq<real>, d: seq<real>): (r: seq<real>)
    requires |c| == |d|
    ensures |r| == |c| && forall k :: 0 <= k < |c| ==> r[k] == (d[k] - c[k]) * (d[k] - c[k])
  {
    seq(|c|, k requires 0 <= k < |c| => (d[k] - c[k]) * (d[k] - c[k]))
  }

  /** `Uopt`: the length assertion, then the summed absolute deviation,
      zero exactly when c == d. */
  function Uopt(c: seq<real>, d: seq<real>): (r: Result<real>)
    ensures r.Err? <==> |c| != |d|
    ensures r.Err? ==> r.error == AssertionError(UoptLengths)
    ensures r.Ok? ==> r.value >= 0.0
    ensures r.Ok? ==> (r.value == 0.0 <==> c == d)
  {
    if |c| != |d| then Err(AssertionError(UoptLengths))
    else
      var t := AbsDiffs(c, d);
      SumZeroIff(t);
      SumNonNegative(t);
      assert (forall k :: 0 <= k < |t| ==> t[k] == 0.0) ==> c == d;
      Ok(Sum(t))
  }

  const UoptLengths := "The length of the candidate and objective design must be equal in Uopt."

  lemma MulPositive(a: real, b: real)
    requires a > 0.0 && b > 0.0
    ensures a * b > 0.0
  {
  }

  lemma SquarePositive(x: real, y: real)
    requires x != 0.0 && y == x * x
    ensures y > 0.0
  {
    if x > 0.0 {
      calc { y; == x * x; > 0.0 * x; == 0.0; }
    } else {
      calc { y; == x * x; == (-x) * (-x); > 0.0 * (-x); == 0.0; }
    }
  }

  lemma SquareNonNegative(x: real, y: real)
    requires y == x * x
    ensures y >= 0.0
  {
    if x != 0.0 {
      SquarePositive(x, y);
    } else {
      calc { y; == x * x; == 0.0 * x; == 0.0; }
    }
  }

  /** `LeastSquares`: the length assertion, then the summed squared
      deviation, zero exactly when c == d. */
  function LeastSquares(c: seq<real>, d: seq<real>): (r: Result<real>)
    ensures r.Err? <==> |c| != |d|
    ensures r.Err? ==> r.error == AssertionError(LeastSquaresLengths)
    ensures r.Ok? ==> r.value >= 0.0
    ensures r.Ok? ==> (r.value == 0.0 <==> c == d)
  {
    if |c| != |d| then Err(AssertionError(LeastSquaresLengths))
    else
    var t := SquaredDiffs(c, d);
    forall k | 0 <= k < |t| ensures t[k] >= 0.0 && (t[k] == 0.0 ==> c[k] == d[k]) {
      SquareNonNegative(d[k] - c[k], t[k]);
      if c[k] != d[k] {
        SquarePositive(d[k] - c[k], t[k]);
      }
    }
    SumZeroIff(t);
    SumNonNegative(t);
    assert (forall k :: 0 <= k < |t| ==> t[k] == 0.0) ==> c == d;
    Ok(Sum(t))
  }

  const LeastSquaresLengths := "The length of the candidate and objective design must be equal in LeastSquares."

  /** The observations have no zero entry. */
  predicate NonZero(o: seq<real>)
  {
    forall k :: 0 <= k < |o| ==> o[k] != 0.0
  }

  /** The per-bin relative squared errors (o - c)^2 / o. */
  function RlsTerms(c: seq<real>, o: seq<real>): (r: seq<real>)
    requires |c| == |o| && NonZero(o)
    ensures |r| == |c|
  {
    seq(|c|, k requires 0 <= k < |c| => (o[k] - c[k]) * (o[k] - c[k]) / o[k])
  }

  /** The highest index j <= k with c[j] == 0, or -1 when there is none. */
  function LastZeroAtOrBelow(c: seq<real>, k: int): (j: int)
    requires -1 <= k < |c|
    ensures -1 <= j <= k
    ensures j >= 0 ==> c[j] == 0.0
    ensures forall i :: j < i <= k ==> c[i] != 0.0
    decreases k + 1
  {
    if k < 0 then -1 else if c[k] == 0.0 then k else LastZeroAtOrBelow(c, k - 1)
  }

  /** The scan `while c[loc] != 0.0: loc -= 1; if loc == -1: break` started
      at `loc`, with Python's negative indexes: where it stops, or the
      IndexError of running off the front of the list. */
  function ZeroScan(c: seq<real>, loc: int): (r: Result<int>)
    requires loc < |c|
    ensures r.Ok? ==> r.value <= loc
    ensures r.Ok? ==> r.value == -1 || (ValidIndex(r.value, |c|) && c[PyIdx(r.value, |c|)] == 0.0)
    ensures r.Err? ==> r.error == IndexError(RlsIndex)
    decreases loc + |c| + 1
  {
    if !ValidIndex(loc, |c|) then Err(IndexError(RlsIndex))
    else if c[PyIdx(loc, |c|)] == 0.0 then Ok(loc)
    else if loc - 1 == -1 then Ok(-1)
    else ZeroScan(c, loc - 1)
  }

  const RlsIndex := "index out of bounds in RelativeLeastSquares"
  const RlsLengths := "The length of the candidate and objective design must be equal in RelativeLeastSquares."
  const RlsBroadcast := "could not broadcast input array from shape (0,)"

  /** From a non-negative start the scan never wraps round: it finds the
      highest zero bin at or below the start, or -1. */
  lemma {:induction false} ZeroScanFindsLastZero(c: seq<real>, loc: int)
    requires loc < |c|
    ensures 0 <= loc ==> ZeroScan(c, loc) == Ok(LastZeroAtOrBelow(c, loc))
    decreases loc
  {
    if 0 < loc && c[loc] != 0.0 {
      ZeroScanFindsLastZero(c, loc - 1);
    }
  }

  /** The relative-error terms with bins 0..loc replaced by the mean of the
      three terms after loc. */
  function ProjectedAt(c: seq<real>, o: seq<real>, loc: int): (r: seq<real>)
    requires |c| == |o| && NonZero(o) && -1 <= loc && loc + 3 < |c|
    ensures |r| == |c|
  {
    var rls := RlsTerms(c, o);
    var avg := (rls[loc + 1] + rls[loc + 2] + rls[loc + 3]) / 3.0;
    seq(|c|, k requires 0 <= k < |c| => if k <= loc then avg else rls[k])
  }

  /** The relative-error terms after the zero-bin projection of a list of at
      least six bins. */
  function ProjectedRls(c: seq<real>, o: seq<real>): (r: seq<real>)
    requires |c| == |o| >= 6 && NonZero(o)
    ensures |r| == |c|
  {
    ProjectedAt(c, o, LastZeroAtOrBelow(c, |c| - 6))
  }

  /** What `RelativeLeastSquares` returns or raises: AssertionError on a
      length mismatch, IndexError when the scan runs off the list, ValueError
      when it stops below -1 (an empty array cannot fill the slice), and
      otherwise the sum of the projected terms. */
  function RelativeLeastSquaresOf(c: seq<real>, o: seq<real>): (r: Result<real>)
    requires |c| == |o| ==> NonZero(o)
    ensures (r.Err? && r.error.AssertionError?) <==> |c| != |o|
    ensures |c| == |o| >= 6 ==> r == Ok(Sum(ProjectedRls(c, o)))
    ensures |c| == |o| < 3 ==> r == Err(IndexError(RlsIndex))
  {
    if |c| != |o| then Err(AssertionError(RlsLengths))
    else
      ZeroScanFindsLastZero(c, |c| - 6);
      match ZeroScan(c, |c| - 6)
      case Err(e) => Err(e)
      case Ok(loc) =>
        if loc >= -1 then Ok(Sum(ProjectedAt(c, o, loc)))
        else Err(ValueError(RlsBroadcast))
  }

  /** `RelativeLeastSquares`: scans down from bin len-6 for the highest zero
      candidate bin and sums the projected relative errors. */
  method RelativeLeastSquares(c: seq<real>, o: seq<real>) returns (r: Result<real>)
    requires |c| == |o| ==> NonZero(o)
    ensures r == RelativeLeastSquaresOf(c, o)
  {
    if |c| != |o| {
      return Err(AssertionError(RlsLengths));
    }
    var rls := RlsTerms(c, o);
    var loc := |c| - 6;
    while true
      invariant loc <= |c| - 6
      invariant ZeroScan(c, loc) == ZeroScan(c, |c| - 6)
      decreases loc + |c| + 1
    {
      if !ValidIndex(loc, |c|) {
        return Err(IndexError(RlsIndex));
      }
      if c[PyIdx(loc, |c|)] == 0.0 {
        break;
      }
      loc := loc - 1;
      if loc == -1 {
        assert ZeroScan(c, |c| - 6) == Ok(-1);
        break;
      }
    }
    assert ZeroScan(c, |c| - 6) == Ok(loc);
    if loc < -1 {
      return Err(ValueError(RlsBroadcast));
    }
    var avg := (rls[loc + 1] + rls[loc + 2] + rls[loc + 3]) / 3.0;
    var projected := seq(|c|, k requires 0 <= k < |c| => if k <= loc then avg else rls[k]);
    r := Ok(Sum(projected));
  }

  /** Without a zero bin at or below len-6 the projection changes nothing. */
  lemma RelativeLeastSquaresPlain(c: seq<real>, o: seq<real>)
    requires |c| == |o| >= 6 && NonZero(o)
    requires forall k :: 0 <= k <= |c| - 6 ==> c[k] != 0.0
    ensures ProjectedRls(c, o) == RlsTerms(c, o)
  {
    assert LastZeroAtOrBelow(c, |c| - 6) == -1;
  }

  /** For positive observations the score is never negative. */
  lemma RelativeLeastSquaresNonNegative(c: seq<real>, o: seq<real>)
    requires |c| == |o| >= 6 && forall k :: 0 <= k < |o| ==> o[k] > 0.0
    ensures Sum(ProjectedRls(c, o)) >= 0.0
  {
    var rls := RlsTerms(c, o);
    forall k | 0 <= k < |c| ensures rls[k] >= 0.0 {
      var sq := (o[k] - c[k]) * (o[k] - c[k]);
      SquareNonNegative(o[k] - c[k], sq);
      assert rls[k] == sq / o[k];
    }
    SumNonNegative(ProjectedRls(c, o));
  }

  /** A candidate equal to the observations, with no zero bins, scores 0. */
  lemma RelativeLeastSquaresExact(c: seq<real>)
    requires |c| >= 6 && NonZero(c)
    ensures Sum(ProjectedRls(c, c)) == 0.0
  {
    RelativeLeastSquaresPlain(c, c);
    var rls := RlsTerms(c, c);
    assert forall k :: 0 <= k < |c| ==> rls[k] == 0.0;
    SumConstant(rls, 0.0);
  }

  /** A list of five bins whose last bin is zero stops the scan at -1 at
      once and scores the unprojected sum; one that scans below -1 without
      running off raises ValueError. */
  lemma RelativeLeastSquaresFive(c: seq<real>, o: seq<real>)
    requires |c| == |o| == 5 && NonZero(o)
    ensures c[4] == 0.0 ==> RelativeLeastSquaresOf(c, o) == Ok(Sum(RlsTerms(c, o)))
    ensures c[4] != 0.0 && c[3] == 0.0 ==> RelativeLeastSquaresOf(c, o) == Err(ValueError(RlsBroadcast))
  {
    if c[4] == 0.0 {
      assert ProjectedAt(c, o, -1) == RlsTerms(c, o);
    } else if c[3] == 0.0 {
      assert ZeroScan(c, -2) == Ok(-2);
      assert ZeroScan(c, -1) == Ok(-2);
    }
  }

  // ---------------------------------------------------------------------------
  // Event

  /** One entry of the optimization history. */
  datatype Event = Event(g: int, e: int, f: real, n: real, i: int)

  /** The `Event` constructor with its argument assertions. */
  function MakeEvent(g: int, e: int, f: real, n: real, i: int): (r: Result<Event>)
    ensures r.Ok? <==> g >= 0 && e >= 0
    ensures r.Ok? ==> r.value.g == g && r.value.e == e && r.value.f == f && r.value.n == n && r.value.i == i
    ensures g < 0 ==> r.Err? && r.error.AssertionError?
  {
    if g < 0 then Err(AssertionError("The number of generations cannot be negative."))
    else if e < 0 then Err(AssertionError("The number of evaluations cannot be negative."))
    else Ok(Event(g, e, f, n, i))
  }

  // ---------------------------------------------------------------------------
  // WeightedRandomGenerator

  /** The running sums of `w`: element k is w[0] + ... + w[k]. */
  function PrefixSums(w: seq<real>): (t: seq<real>)
    ensures |t| == |w|
    ensures forall k :: 0 <= k < |w| ==> t[k] == Sum(w[..k + 1])
  {
    seq(|w|, k requires 0 <= k < |w| => Sum(w[..k + 1]))
  }

  predicate NonDecreasing(t: seq<real>)
  {
    forall a, b :: 0 <= a < b < |t| ==> t[a] <= t[b]
  }

  lemma {:induction false} PrefixSumsStep(w: seq<real>, k: nat)
    requires 0 < k < |w|
    ensures Sum(w[..k + 1]) == Sum(w[..k]) + w[k]
  {
    assert w[..k + 1][..k] == w[..k];
  }

  lemma {:induction false} PrefixSumsMonotone(w: seq<real>)
    requires forall k :: 0 <= k < |w| ==> w[k] >= 0.0
    ensures NonDecreasing(PrefixSums(w))
  {
    var t := PrefixSums(w);
    forall a, b | 0 <= a < b < |t| ensures t[a] <= t[b] {
      var k := a;
      while k < b
        invariant a <= k <= b
        invariant t[a] <= t[k]
      {
        PrefixSumsStep(w, k + 1);
        k := k + 1;
      }
    }
  }

  /** Samples index i with probability proportional to weights[i]. */
  class WeightedRandomGenerator {
    var totals: seq<real>
    ghost var weights: seq<real>

    ghost predicate Valid()
      reads this
    {
      totals == PrefixSums(weights)
    }

    constructor (weights: seq<real>)
      ensures Valid() && this.weights == weights
    {
      this.weights := weights;
      var t: seq<real> := [];
      var running := 0.0;
      var k := 0;
      while k < |weights|
        invariant k <= |weights| && |t| == k
        invariant forall j :: 0 <= j < k ==> t[j] == Sum(weights[..j + 1])
        invariant running == Sum(weights[..k])
      {
        running := running + weights[k];
        assert weights[..k + 1][..k] == weights[..k];
        t := t + [running];
        k := k + 1;
      }
      totals := t;
    }

    /** `next(u)`: `bisect_right(totals, u * totals[-1])` for a draw u. */
    method Next(u: real) returns (r: Result<nat>)
      requires Valid()
      ensures totals == [] <==> r.Err?
      ensures r.Err? ==> r.error == IndexError("list index out of range")
      ensures r.Ok? && NonDecreasing(totals) ==> r.value == BisectRight(totals, Scaled(totals, u))
    {
      if totals == [] {
        return Err(IndexError("list index out of range"));
      }
      var x := Scaled(totals, u);
      var lo, hi := 0, |totals|;
      while lo < hi
        invariant 0 <= lo <= hi <= |totals|
        invariant NonDecreasing(totals) ==> forall k :: 0 <= k < lo ==> totals[k] <= x
        invariant NonDecreasing(totals) ==> forall k :: hi <= k < |totals| ==> x < totals[k]
      {
        var mid := (lo + hi) / 2;
        if x < totals[mid] {
          hi := mid;
        } else {
          lo := mid + 1;
        }
      }
      BisectFound(totals, x, lo);
      return Ok(lo);
    }
  }

  /** `random() * self.totals[-1]`: a draw u scaled to the last total. */
  function Scaled(t: seq<real>, u: real): real
    requires |t| > 0
  {
    u * t[|t| - 1]
  }

  /** `bisect.bisect_right(t, v)` on a sorted list: the number of leading
      entries at most v. */
  function BisectRight(t: seq<real>, v: real): (r: nat)
    ensures r <= |t|
  {
    if t == [] || v < t[0] then 0 else 1 + BisectRight(t[1..], v)
  }

  /** On a non-decreasing list, bisect_right splits it into the entries at
      most v and the entries above v. */
  lemma {:induction false} BisectRightSplits(t: seq<real>, v: real)
    requires NonDecreasing(t)
    ensures var r := BisectRight(t, v);
      && (forall k :: 0 <= k < r ==> t[k] <= v)
      && (forall k :: r <= k < |t| ==> v < t[k])
  {
    if t != [] && v >= t[0] {
      assert NonDecreasing(t[1..]);
      BisectRightSplits(t[1..], v);
      var r := BisectRight(t, v);
      forall k | 1 <= k < r
        ensures t[k] <= v
      {
        assert t[k] == t[1..][k - 1];
      }
      forall k | r <= k < |t|
        ensures v < t[k]
      {
        assert t[k] == t[1..][k - 1];
      }
    }
  }

  /** Where the binary search of `next` stops on a non-decreasing list is
      the index bisect_right returns. */
  lemma BisectFound(t: seq<real>, v: real, lo: nat)
    requires lo <= |t|
    requires NonDecreasing(t) ==> forall k :: 0 <= k < lo ==> t[k] <= v
    requires NonDecreasing(t) ==> forall k :: lo <= k < |t| ==> v < t[k]
    ensures NonDecreasing(t) ==> lo == BisectRight(t, v)
  {
    if NonDecreasing(t) {
      SplitUnique(t, v, lo);
    }
  }

  /** Such a split point is unique: any index that splits t at v is the one
      bisect_right returns. */
  lemma SplitUnique(t: seq<real>, v: real, i: nat)
    requires NonDecreasing(t) && i <= |t|
    requires forall k :: 0 <= k < i ==> t[k] <= v
    requires forall k :: i <= k < |t| ==> v < t[k]
    ensures i == BisectRight(t, v)
  {
    BisectRightSplits(t, v);
    var r := BisectRight(t, v);
    assert i < |t| ==> v < t[i];
    assert r < |t| ==> v < t[r];
  }


  /** Consecutive running sums differ by the next weight. */
  lemma PrefixSumsSteps(w: seq<real>)
    requires w != []
    ensures PrefixSums(w)[0] == w[0]
    ensures forall k :: 1 <= k < |w| ==> PrefixSums(w)[k] == PrefixSums(w)[k - 1] + w[k]
  {
    assert w[..1] == [w[0]];
    assert [w[0]][..0] == [];
    assert Sum([w[0]]) == Sum([]) + w[0];
    forall k | 1 <= k < |w| ensures PrefixSums(w)[k] == PrefixSums(w)[k - 1] + w[k] {
      PrefixSumsStep(w, k);
    }
  }

  /** For non-negative weights with a positive total and a draw u in [0, 1),
      the index bisect_right returns is in range and never one with weight zero. */
  lemma WeightedIndexInRange(w: seq<real>, t: seq<real>, u: real, i: nat)
    requires |t| == |w| > 0 && forall k :: 0 <= k < |w| ==> w[k] >= 0.0
    requires t[0] == w[0] && forall k :: 1 <= k < |w| ==> t[k] == t[k - 1] + w[k]
    requires t[|t| - 1] > 0.0 && 0.0 <= u < 1.0
    requires i <= |t| && (forall k :: 0 <= k < i ==> t[k] <= u * t[|t| - 1])
    requires forall k :: i <= k < |t| ==> u * t[|t| - 1] < t[k]
    ensures i < |w| && w[i] > 0.0
  {
    var n := |w|;
    ScaleBelow(u, t[n - 1]);
    if i == n {
      assert false;
    }
    if i > 0 {
      assert t[i - 1] <= u * t[n - 1] < t[i];
    }
  }

  /** A draw in [0, 1) scales a positive total to somewhere in [0, total). */
  lemma ScaleBelow(u: real, total: real)
    requires 0.0 <= u < 1.0 && total > 0.0
    ensures 0.0 <= u * total < total
  {
    MulPositive(1.0 - u, total);
    assert total - u * total == (1.0 - u) * total;
  }

  /** `int(v)` of a value in [0, n) is an index below n. */
  lemma TruncIndex(v: real, n: int)
    requires 0.0 <= v < n as real
    ensures 0 <= Trunc(v) < n
  {
    var k := Trunc(v);
    assert k as real <= v < k as real + 1.0;
  }

  /** `int(random() * n)` is an index below n. */
  lemma TruncBelow(u: real, n: nat)
    requires 0.0 <= u < 1.0 && n > 0
    ensures 0 <= Trunc(u * n as real) < n
  {
    ScaleBelow(u, n as real);
    TruncIndex(u * n as real, n);
  }

  // ---------------------------------------------------------------------------
  // Meta_Stats

  /** The nine operator names the statistics table is keyed by. */
  const Algorithms: set<string> :=
    {"mat_levy", "cell_levy", "elite_cross", "part_inv", "mutate",
     "two_opt", "crossover", "three_op", "discard"}

  /** Per-operator (replacements, evaluations) counters. */
  class MetaStats {
    var algorithms: map<string, (int, int)>

    constructor ()
      ensures algorithms.Keys == Algorithms
      ensures forall a :: a in algorithms ==> algorithms[a] == (0, 0)
    {
      algorithms := map a | a in Algorithms :: (0, 0);
    }

    /** `update(alg, val)`: adds val componentwise to alg's pair; an unknown
        name raises KeyError and changes nothing. */
    method Update(alg: string, val: (int, int)) returns (r: Result<()>)
      modifies this
      ensures alg in old(algorithms) <==> r.Ok?
      ensures r.Ok? ==> algorithms == old(algorithms)[alg := (old(algorithms)[alg].0 + val.0, old(algorithms)[alg].1 + val.1)]
      ensures r.Err? ==> algorithms == old(algorithms)
    {
      if alg !in algorithms {
        return Err(KeyError(alg));
      }
      algorithms := algorithms[alg := (algorithms[alg].0 + val.0, algorithms[alg].1 + val.1)];
      return Ok(());
    }
  }

  // ---------------------------------------------------------------------------
  // Task tiers and batch split (Run_Transport, MCNP6 branch)

  /** Number of MPI tasks for a run of `nps` particles on `cores` cores. */
  function TaskTier(nps: real, cores: nat): (t: nat)
    ensures nps <= 1000000.0 ==> t == cores
    ensures 1000000.0 < nps <= 10000000.0 ==> t == 4 * cores
    ensures 10000000.0 < nps <= 100000000.0 ==> t == 12 * cores
    ensures 100000000.0 < nps ==> t == 14 * cores
  {
    if nps <= 1000000.0 then cores
    else if nps <= 10000000.0 then cores * 4
    else if nps <= 100000000.0 then cores * 12
    else cores * 14
  }

  /** More particles never get fewer tasks. */
  lemma TaskTierMonotone(a: real, b: real, cores: nat)
    requires a <= b
    ensures TaskTier(a, cores) <= TaskTier(b, cores)
  {
  }

  /** The batches one task group is run in: a group with fewer than 20 tasks
      and an odd number of runs is split into all-but-last and the last one. */
  function BatchSplit<T>(sub: seq<T>, t: int): (r: seq<seq<T>>)
    requires sub != []
  {
    if (t < 20 && |sub| % 2 == 0) || t >= 20 then [sub]
    else [sub[..|sub| - 1], [sub[|sub| - 1]]]
  }

  /** Splitting loses no run, and a split group leaves an even first batch. */
  lemma BatchSplitProperties<T>(sub: seq<T>, t: int)
    requires sub != []
    ensures |BatchSplit(sub, t)| == 2 <==> t < 20 && |sub| % 2 == 1
    ensures |BatchSplit(sub, t)| == 1 ==> BatchSplit(sub, t)[0] == sub
    ensures |BatchSplit(sub, t)| == 2 ==>
      BatchSplit(sub, t)[0] + BatchSplit(sub, t)[1] == sub && |BatchSplit(sub, t)[0]| % 2 == 0
  {
  }
}
