// The contracts of the Levy samplers of Code/SamplingMethods.py: `Levy`
// (Mantegna's algorithm) is reduced to its argument checks and the shape it
// returns, and `TLF` to its resampling loop. The Levy values themselves come
// from Gamma functions and normal draws and are parameters here.
module LevyFlight {
  import opened Wrappers
  import opened PyMath

  /** The shape `Levy(nc, nr)` reshapes its result to: (nr, nc) when nr is
      positive, (nc,) otherwise. */
  datatype Shape = Rows(nr: nat, nc: nat) | Flat(nc: nat)
  {
    function Size(): nat
    {
      match this
      case Rows(nr, nc) => nr * nc
      case Flat(nc) => nc
    }
  }

  /** The checks `Levy` makes on its arguments: the index alpha strictly
      inside (0.3, 1.99), a non-negative scale gamma and at least one draw. */
  predicate LevyArgs(alpha: real, gamma: real, n: int)
  {
    0.3 < alpha < 1.99 && gamma >= 0.0 && n >= 1
  }

  /** `Levy(nc, nr, alpha, gamma, n)` without its numerics: the assertions
      fail first, then a negative column count is refused by numpy. */
  function LevyShape(nc: int, nr: int, alpha: real, gamma: real, n: int): (r: Result<Shape>)
    ensures r.Ok? <==> LevyArgs(alpha, gamma, n) && nc >= 0
    ensures !LevyArgs(alpha, gamma, n) ==> r.Err? && r.error.AssertionError?
    ensures r.Ok? ==> (nr > 0 <==> r.value.Rows?) && r.value.nc == nc
    ensures r.Ok? && nr > 0 ==> r.value.nr == nr && r.value.Size() == nr * nc
    ensures r.Ok? && nr <= 0 ==> r.value.Size() == nc
  {
    if !(0.3 < alpha < 1.99) then Err(AssertionError("Valid range for alpha is [0.3:1.99]."))
    else if !(gamma >= 0.0) then Err(AssertionError("Gamma must be positive"))
    else if !(n >= 1) then Err(AssertionError("n Must be positive"))
    else if nc < 0 then Err(ValueError("negative dimensions are not allowed"))
    else if nr > 0 then Ok(Rows(nr, nc))
    else Ok(Flat(nc))
  }

  /** The number of values `TLF` returns for numSamp: `Levy(1, numSamp)` has
      numSamp values when numSamp is positive and one otherwise, and
      `reshape(numSamp)` accepts that size, or -1. */
  function TlfCount(numSamp: int): (c: Result<nat>)
    ensures c.Ok? <==> numSamp >= 1 || numSamp == -1
    ensures c.Ok? && numSamp >= 1 ==> c.value == numSamp
    ensures c.Ok? && numSamp == -1 ==> c.value == 1
  {
    if numSamp >= 1 then Ok(numSamp)
    else if numSamp == -1 then Ok(1)
    else Err(ValueError("cannot reshape array"))
  }

  /** The size of the first Levy draw of `TLF`. */
  function TlfDrawSize(numSamp: int): nat
  {
    if numSamp > 0 then numSamp else 1
  }

  /** A value of `TLF`: the magnitude of a Levy value over the cut point. */
  function Cut(v: real, cutPoint: real): (x: real)
    requires cutPoint != 0.0
    ensures x >= 0.0
  {
    Abs(v / cutPoint)
  }

  /** `TLF(alpha, gamma, numSamp, cutPoint)`: `first` holds the values of the
      first Levy draw and `redraws` those of the single-value draws, in the
      order the loop takes them. Every value above 1 is replaced by the next
      redraw until it is not. */
  method Tlf(alpha: real, gamma: real, numSamp: int, cutPoint: real, first: seq<real>, redraws: seq<real>)
    returns (r: Result<seq<real>>)
    requires |first| == TlfDrawSize(numSamp)
    requires cutPoint != 0.0
    ensures !LevyArgs(alpha, gamma, 1) ==> r.Err? && r.error.AssertionError?
    ensures LevyArgs(alpha, gamma, 1) && TlfCount(numSamp).Err? ==> r.Err? && r.error.ValueError?
    ensures r.Ok? ==> TlfCount(numSamp).Ok? && |r.value| == TlfCount(numSamp).value
    ensures r.Ok? ==> forall k :: 0 <= k < |r.value| ==> 0.0 <= r.value[k] <= 1.0
    ensures r.Ok? ==> forall k :: 0 <= k < |r.value| ==>
      (Cut(first[k], cutPoint) <= 1.0 ==> r.value[k] == Cut(first[k], cutPoint))
      && (r.value[k] == Cut(first[k], cutPoint) || exists j :: 0 <= j < |redraws| && r.value[k] == Cut(redraws[j], cutPoint))
  {
    var shape := LevyShape(1, numSamp, alpha, gamma, 1);
    if shape.Err? {
      return Err(shape.error);
    }
    var count := TlfCount(numSamp);
    if count.Err? {
      return Err(count.error);
    }
    var levy := seq(count.value, k requires 0 <= k < count.value => Cut(first[k], cutPoint));
    var next := 0;
    for i := 0 to |levy|
      invariant |levy| == count.value && next <= |redraws|
      invariant forall k :: 0 <= k < i ==> levy[k] <= 1.0
      invariant forall k :: 0 <= k < |levy| ==> levy[k] >= 0.0
      invariant forall k :: 0 <= k < |levy| ==>
        (Cut(first[k], cutPoint) <= 1.0 ==> levy[k] == Cut(first[k], cutPoint))
        && (levy[k] == Cut(first[k], cutPoint) || exists j :: 0 <= j < |redraws| && levy[k] == Cut(redraws[j], cutPoint))
    {
      while levy[i] > 1.0
        invariant next <= |redraws| && |levy| == count.value
        invariant forall k :: 0 <= k < i ==> levy[k] <= 1.0
        invariant forall k :: 0 <= k < |levy| ==> levy[k] >= 0.0
        invariant forall k :: 0 <= k < |levy| ==>
          (Cut(first[k], cutPoint) <= 1.0 ==> levy[k] == Cut(first[k], cutPoint))
          && (levy[k] == Cut(first[k], cutPoint) || exists j :: 0 <= j < |redraws| && levy[k] == Cut(redraws[j], cutPoint))
        decreases |redraws| - next
      {
        if next == |redraws| {
          return Err(DrawsExhausted);
        }
        levy := levy[i := Cut(redraws[next], cutPoint)];
        next := next + 1;
      }
    }
    return Ok(levy);
  }
}
