// Code/SamplingMethods.py `Initial_Samples`: the first population of a search,
// drawn uniformly at random, from a nearly orthogonal Latin hypercube (standard,
// with random permutations, or with the Cioppa and De Rainville tables) or from
// a Latin hypercube. The random draws are parameters.
module InitialSampling {
  import opened Wrappers
  import opened PyMath
  import Sampling
  import Nolh

  /** The method names `Initial_Samples` accepts, and any other name. */
  datatype Method = Random | StandardNolh | PermutedNolh | CdrNolh | LatinHypercube | Unlisted

  /** The draws a call consumes: `uniform[i]` is the i-th
      `np.random.rand(len(lb))`, `rpConf` and `rpRemove` the two
      `random.sample` results of nolh-rp, and `lhs` the array
      `lhs(len(lb), samples=n, criterion="center")` returns. */
  datatype Draws = Draws(uniform: seq<seq<real>>, rpConf: seq<int>, rpRemove: seq<int>, lhs: seq<seq<real>>)

  /** The messages of the errors `Initial_Samples` raises itself. */
  const BoundsMismatch: string := "Boundaries best have different # of design variables in Initial_Samples function."
  const DimensionRange: string := "The Phase space dimensions are outside of the bounds for Initial_Samples."
  const MethodUnlisted: string := "An invalid method was specified for the initial sampling."
  const NegativeRows: string := "negative dimensions are not allowed"

  /** The assertions at the head of `Initial_Samples`. */
  predicate Admissible(lb: seq<real>, ub: seq<real>, kind: Method)
  {
    |ub| == |lb| && (kind != Random ==> 2 <= |ub| <= 29) && kind != Unlisted
  }

  /** `range(lo, hi)`. */
  function Range(lo: int, hi: int): (r: seq<int>)
    ensures |r| == if hi > lo then hi - lo else 0
    ensures forall t :: 0 <= t < |r| ==> r[t] == lo + t
  {
    if hi > lo then seq(hi - lo, t requires 0 <= t < hi - lo => lo + t) else []
  }

  /** `lb + (ub - lb) * u` for a point u of the unit box. */
  function Scale(lb: seq<real>, ub: seq<real>, u: seq<real>): (x: seq<real>)
    requires |lb| == |ub| == |u|
    ensures |x| == |lb|
  {
    seq(|lb|, c requires 0 <= c < |lb| => lb[c] + (ub[c] - lb[c]) * u[c])
  }

  /** numpy accepts `lb + (ub - lb) * u` when the lengths agree or one is 1. */
  predicate Broadcastable(d: nat, n: nat)
  {
    d == n || n == 1 || d == 1
  }

  /** `lb + (ub - lb) * u` under numpy broadcasting. */
  function Broadcast(lb: seq<real>, ub: seq<real>, u: seq<real>): (x: seq<real>)
    requires |lb| == |ub| && Broadcastable(|lb|, |u|)
  {
    if |u| == |lb| then Scale(lb, ub, u)
    else if |u| == 1 then seq(|lb|, c requires 0 <= c < |lb| => lb[c] + (ub[c] - lb[c]) * u[0])
    else seq(|u|, c requires 0 <= c < |u| => lb[0] + (ub[0] - lb[0]) * u[c])
  }

  /** The rows of a design mapped into the box: `design[:, 0]` needs a
      column, and every row must broadcast against the bounds. */
  function Scaled(lb: seq<real>, ub: seq<real>, design: seq<seq<real>>): (r: Result<seq<seq<real>>>)
    requires |lb| == |ub|
    ensures r.Err? ==> r.error.IndexError? || r.error.ValueError?
  {
    if |design| > 0 && |design[0]| == 0 then Err(IndexError("index 0 is out of bounds for axis 1 with size 0"))
    else if exists t :: 0 <= t < |design| && !Broadcastable(|lb|, |design[t]|) then
      Err(ValueError("operands could not be broadcast together"))
    else Ok(seq(|design|, t requires 0 <= t < |design| => Broadcast(lb, ub, design[t])))
  }

  /** A hypercube, or the error that building it raised, mapped into the box. */
  function Sampled(lb: seq<real>, ub: seq<real>, nolh: Result<seq<seq<real>>>): (r: Result<seq<seq<real>>>)
    requires |lb| == |ub|
    ensures r.Err? && !r.error.IndexError? && !r.error.ValueError? ==> nolh.Err? && r.error == nolh.error
  {
    match nolh
    case Err(e) => Err(e)
    case Ok(design) => Scaled(lb, ub, design)
  }

  /** The removal vector of nolh-rp: the draw when columns are to be removed. */
  function RpRemove(r: int, draw: seq<int>): seq<int>
  {
    if r != 0 then draw else []
  }

  /** The methods that build a nearly orthogonal Latin hypercube. */
  predicate IsNolh(kind: Method)
  {
    kind == StandardNolh || kind == PermutedNolh || kind == CdrNolh
  }

  /** The hypercube a nolh method builds for dimension dim: the standard
      configuration range(q) without the last r columns, the drawn
      permutation and removal, or the Cioppa and De Rainville tables. */
  function HypercubeOf(kind: Method, dim: int, draws: Draws): Result<seq<seq<real>>>
    requires IsNolh(kind) && 2 <= dim <= 29
  {
    var (conf, remove) := NolhArgs(kind, dim, draws);
    Nolh.NolhOf(conf, remove)
  }

  /** The configuration and removal list handed to `NOLH`. */
  function NolhArgs(kind: Method, dim: int, draws: Draws): (seq<int>, seq<int>)
    requires IsNolh(kind) && 2 <= dim <= 29
  {
    var p := Sampling.ParamsOf(dim);
    if kind == StandardNolh then (Range(0, p.1), Range(dim - p.2, dim))
    else if kind == PermutedNolh then (draws.rpConf, RpRemove(p.2, draws.rpRemove))
    else Sampling.CdrPermutations(dim).value
  }

  /** The random method: n rows of scaled uniform draws. */
  function RandomSamplesOf(lb: seq<real>, ub: seq<real>, n: int, uniform: seq<seq<real>>)
    : Result<seq<seq<real>>>
    requires |lb| == |ub| && forall i :: 0 <= i < |uniform| ==> |uniform[i]| == |lb|
  {
    if n < 0 then Err(ValueError(NegativeRows))
    else if |uniform| < n then Err(DrawsExhausted)
    else Ok(seq(n, i requires 0 <= i < n => Scale(lb, ub, uniform[i])))
  }

  /** `Initial_Samples(lb, ub, method, n)`. */
  function InitialSamplesOf(lb: seq<real>, ub: seq<real>, kind: Method, n: int, draws: Draws)
    : (r: Result<seq<seq<real>>>)
    requires forall i :: 0 <= i < |draws.uniform| ==> |draws.uniform[i]| == |lb|
  {
    if |ub| != |lb| then
      Err(AssertionError(BoundsMismatch))
    else if kind != Random && !(2 <= |ub| <= 29) then
      Err(AssertionError(DimensionRange))
    else if kind == Unlisted then
      Err(AssertionError(MethodUnlisted))
    else if kind == Random then RandomSamplesOf(lb, ub, n, draws.uniform)
    else if kind == LatinHypercube then Scaled(lb, ub, draws.lhs)
    else Sampled(lb, ub, HypercubeOf(kind, |ub|, draws))
  }

  /** The random method's loop filling the rows of `np.zeros((n, len(lb)))`. */
  method RandomRows(lb: seq<real>, ub: seq<real>, n: int, uniform: seq<seq<real>>)
    returns (r: Result<seq<seq<real>>>)
    requires |lb| == |ub| && forall i :: 0 <= i < |uniform| ==> |uniform[i]| == |lb|
    ensures r == RandomSamplesOf(lb, ub, n, uniform)
  {
    if n < 0 {
      return Err(ValueError(NegativeRows));
    }
    var s := seq(n, i => seq(|lb|, c => 0.0));
    for i := 0 to n
      invariant |s| == n && i <= |uniform|
      invariant forall k :: 0 <= k < i ==> s[k] == Scale(lb, ub, uniform[k])
    {
      if i == |uniform| {
        return Err(DrawsExhausted);
      }
      s := s[i := Scale(lb, ub, uniform[i])];
    }
    assert s == seq(n, i requires 0 <= i < n => Scale(lb, ub, uniform[i]));
    return Ok(s);
  }

  /** The hypercube of a nolh method, with `params` and `NOLH` as their loops
      compute them. */
  method Hypercube(kind: Method, dim: int, draws: Draws) returns (r: Result<seq<seq<real>>>)
    requires IsNolh(kind) && 2 <= dim <= 29
    ensures r == HypercubeOf(kind, dim, draws)
  {
    var m, q, rm := Sampling.Params(dim);
    var conf: seq<int>, remove: seq<int>;
    if kind == StandardNolh {
      conf, remove := Range(0, q), Range(dim - rm, dim);
    } else if kind == PermutedNolh {
      conf := draws.rpConf;
      remove := if rm != 0 then draws.rpRemove else [];
    } else {
      conf, remove := Sampling.CdrPermutations(dim).value.0, Sampling.CdrPermutations(dim).value.1;
    }
    assert (conf, remove) == NolhArgs(kind, dim, draws);
    r := Nolh.Nolh(conf, remove);
  }

  /** `Initial_Samples`. */
  method InitialSamples(lb: seq<real>, ub: seq<real>, kind: Method, n: int, draws: Draws)
    returns (r: Result<seq<seq<real>>>)
    requires forall i :: 0 <= i < |draws.uniform| ==> |draws.uniform[i]| == |lb|
    ensures r == InitialSamplesOf(lb, ub, kind, n, draws)
  {
    if |ub| != |lb| {
      return Err(AssertionError(BoundsMismatch));
    }
    if kind != Random && !(2 <= |ub| <= 29) {
      return Err(AssertionError(DimensionRange));
    }
    if kind == Unlisted {
      return Err(AssertionError(MethodUnlisted));
    }
    if kind == Random {
      r := RandomRows(lb, ub, n, draws.uniform);
    } else if kind == LatinHypercube {
      r := Scaled(lb, ub, draws.lhs);
    } else {
      var nolh := Hypercube(kind, |ub|, draws);
      r := Sampled(lb, ub, nolh);
    }
  }

  // ---------------------------------------------------------------------------
  // Properties

  /** Lower bounds not above the upper bounds. */
  predicate Bounds(lb: seq<real>, ub: seq<real>)
  {
    |lb| == |ub| && forall c :: 0 <= c < |lb| ==> lb[c] <= ub[c]
  }

  /** x lies in the box [lb, ub]. */
  predicate InBox(lb: seq<real>, ub: seq<real>, x: seq<real>)
    requires |lb| == |ub|
  {
    |x| == |lb| && forall c :: 0 <= c < |x| ==> lb[c] <= x[c] <= ub[c]
  }

  /** A point of the unit box. */
  predicate Unit(u: seq<real>)
  {
    forall c :: 0 <= c < |u| ==> 0.0 <= u[c] <= 1.0
  }

  lemma MulUnit(w: real, u: real)
    requires w >= 0.0 && 0.0 <= u <= 1.0
    ensures 0.0 <= w * u <= w
  {
    assert w * u <= w * 1.0;
  }

  /** A point of the unit box scales into the box. */
  lemma ScaleInBox(lb: seq<real>, ub: seq<real>, u: seq<real>)
    requires Bounds(lb, ub) && |u| == |lb| && Unit(u)
    ensures InBox(lb, ub, Scale(lb, ub, u))
  {
    forall c | 0 <= c < |lb|
      ensures lb[c] <= Scale(lb, ub, u)[c] <= ub[c]
    {
      MulUnit(ub[c] - lb[c], u[c]);
    }
  }

  /** `Initial_Samples` raises an AssertionError exactly when the bounds
      differ in length, the dimension is outside [2, 29] for a hypercube
      method, or the method is not listed. */
  lemma InitialSamplesAsserts(lb: seq<real>, ub: seq<real>, kind: Method, n: int, draws: Draws)
    requires forall i :: 0 <= i < |draws.uniform| ==> |draws.uniform[i]| == |lb|
    ensures var r := InitialSamplesOf(lb, ub, kind, n, draws);
      r.Err? && r.error.AssertionError? <==> !Admissible(lb, ub, kind)
  {
    if Admissible(lb, ub, kind) && IsNolh(kind) {
      HypercubeErrors(kind, |ub|, draws);
    }
  }

  /** A nolh method fails only as `NOLH` does, with a ValueError or an
      IndexError. */
  lemma HypercubeErrors(kind: Method, dim: int, draws: Draws)
    requires IsNolh(kind) && 2 <= dim <= 29
    ensures HypercubeOf(kind, dim, draws).Err? ==>
      HypercubeOf(kind, dim, draws).error.ValueError? || HypercubeOf(kind, dim, draws).error.IndexError?
  {
    var (m, q, rm) := Sampling.ParamsOf(dim);
    if kind == StandardNolh {
      Nolh.NolhErrors(Range(0, q), Range(dim - rm, dim));
    } else if kind == PermutedNolh {
      Nolh.NolhErrors(draws.rpConf, RpRemove(rm, draws.rpRemove));
    } else {
      var (conf, remove) := Sampling.CdrPermutations(dim).value;
      Nolh.NolhErrors(conf, remove);
    }
  }

  /** Random sampling gives n points, each the scaled draw of its row, all in
      the box. */
  lemma RandomSamplesInBox(lb: seq<real>, ub: seq<real>, n: int, draws: Draws)
    requires forall i :: 0 <= i < |draws.uniform| ==> |draws.uniform[i]| == |lb|
    requires Bounds(lb, ub) && n >= 0 && |draws.uniform| >= n
    requires forall i :: 0 <= i < |draws.uniform| ==> Unit(draws.uniform[i])
    ensures var r := InitialSamplesOf(lb, ub, Random, n, draws);
      r.Ok? && |r.value| == n
      && forall i :: 0 <= i < n ==>
        r.value[i] == Scale(lb, ub, draws.uniform[i]) && InBox(lb, ub, r.value[i])
  {
    forall i | 0 <= i < n
      ensures InBox(lb, ub, Scale(lb, ub, draws.uniform[i]))
    {
      ScaleInBox(lb, ub, draws.uniform[i]);
    }
  }

  /** Points x and y placed symmetrically about the centre of the box. */
  predicate Mirrored(lb: seq<real>, ub: seq<real>, x: seq<real>, y: seq<real>)
    requires |lb| == |ub|
  {
    |x| == |y| == |lb| && forall c :: 0 <= c < |lb| ==> x[c] + y[c] == lb[c] + ub[c]
  }

  /** The shape every hypercube sample has: 2q + 1 points in the box, the
      centre of the box in the middle, and point k mirrored by point
      q + 1 + k. */
  predicate HypercubeSamples(lb: seq<real>, ub: seq<real>, q: nat, S: seq<seq<real>>)
    requires |lb| == |ub|
  {
    |S| == 2 * q + 1
    && (forall t :: 0 <= t < |S| ==> InBox(lb, ub, S[t]))
    && (forall c :: 0 <= c < |lb| ==> S[q][c] == (lb[c] + ub[c]) / 2.0)
    && (forall k, j :: 0 <= k < q && j == q + 1 + k ==> Mirrored(lb, ub, S[k], S[j]))
  }

  lemma ScaleCentre(lo: real, hi: real)
    ensures lo + (hi - lo) * 0.5 == (lo + hi) / 2.0
  {
  }

  lemma ScaleMirror(lo: real, hi: real, x: real, y: real)
    requires x + y == 1.0
    ensures (lo + (hi - lo) * x) + (lo + (hi - lo) * y) == lo + hi
  {
    assert (hi - lo) * x + (hi - lo) * y == (hi - lo) * (x + y);
  }

  /** Rows of the bounds' length scale one by one. */
  lemma ScaledRows(lb: seq<real>, ub: seq<real>, design: seq<seq<real>>)
    requires |lb| == |ub| && |lb| >= 1
    requires forall t :: 0 <= t < |design| ==> |design[t]| == |lb|
    ensures Scaled(lb, ub, design).Ok?
    ensures |Scaled(lb, ub, design).value| == |design|
    ensures forall t :: 0 <= t < |design| ==> Scaled(lb, ub, design).value[t] == Scale(lb, ub, design[t])
  {
  }

  /** A unit hypercube of d columns scales to hypercube samples of the box. */
  lemma ScaledHypercube(lb: seq<real>, ub: seq<real>, q: nat, design: seq<seq<real>>)
    requires Bounds(lb, ub) && |lb| >= 1 && Nolh.UnitHypercube(q, |lb|, design)
    ensures Scaled(lb, ub, design).Ok?
    ensures HypercubeSamples(lb, ub, q, Scaled(lb, ub, design).value)
  {
    ScaledRows(lb, ub, design);
    var S := Scaled(lb, ub, design).value;
    forall t | 0 <= t < |S|
      ensures InBox(lb, ub, S[t])
    {
        ScaleInBox(lb, ub, design[t]);
    }
    forall c | 0 <= c < |lb|
      ensures S[q][c] == (lb[c] + ub[c]) / 2.0
    {
      ScaleCentre(lb[c], ub[c]);
    }
    forall k, j | 0 <= k < q && j == q + 1 + k
      ensures Mirrored(lb, ub, S[k], S[j])
    {
      forall c | 0 <= c < |lb|
        ensures S[k][c] + S[j][c] == lb[c] + ub[c]
      {
        ScaleMirror(lb[c], ub[c], design[k][c], design[j][c]);
      }
    }
  }

  /** The order of a hypercube method's dimension gives a configuration
      length whose order is m. */
  lemma OrderOfParams(dim: int)
    requires 2 <= dim <= 29
    ensures var (m, q, r) := Sampling.ParamsOf(dim);
      q > 0 && Nolh.Order(q) == Some(m) && r >= 0 && Sampling.Columns(m) == dim + r
  {
    Sampling.ParamsMinimal(dim);
    var (m, q, r) := Sampling.ParamsOf(dim);
    Nolh.Log2OfPow2(m - 1);
  }

  /** The parameters params gives for dim: q rows of order m, whose
      columns cover dim plus the rm surplus ones. */
  predicate StandardParams(dim: int, m: int, q: int, rm: int)
  {
    2 <= dim && q > 0 && Nolh.Order(q) == Some(m) && rm >= 0 && Sampling.Columns(m) == dim + rm
  }

  /** The last rm column numbers, moved up with the configuration range(q),
      name rm distinct columns among the s, leaving dim. */
  lemma StandardRemoval(dim: int, m: int, q: int, rm: int)
    requires StandardParams(dim, m, q, rm)
    ensures var s := Sampling.Columns(m);
      var remove := Nolh.Normalised(Range(0, q), Range(dim - rm, dim));
      Nolh.ValidRemoval(remove, s)
      && (forall a, b :: 0 <= a < b < |remove| ==> Nolh.Positions(remove, s)[a] != Nolh.Positions(remove, s)[b])
      && s - |remove| == dim
  {
    var s := Sampling.Columns(m);
    var conf, remove := Range(0, q), Range(dim - rm, dim);
    assert conf[0] == 0;
    var remove' := Nolh.Normalised(conf, remove);
    assert forall t :: 0 <= t < |remove'| ==> remove'[t] == dim - rm + t + 1;
    RunRemoval(remove', dim - rm, s);
  }

  /** Column numbers lo + 1, lo + 2, ... within [-s, s] name distinct
      columns among the s. */
  lemma RunRemoval(remove: seq<int>, lo: int, s: nat)
    requires -(s as int) <= lo && lo + |remove| <= s && |remove| <= s
    requires forall t :: 0 <= t < |remove| ==> remove[t] == lo + t + 1
    ensures Nolh.ValidRemoval(remove, s)
    ensures forall a, b :: 0 <= a < b < |remove| ==>
      Nolh.Positions(remove, s)[a] != Nolh.Positions(remove, s)[b]
  {
    assert Nolh.ValidRemoval(remove, s);
    var positions := Nolh.Positions(remove, s);
    assert forall t :: 0 <= t < |remove| ==> positions[t] == PyIdx(lo + t, s);
  }

  /** The standard configuration range(q) without the last rm of the s
      columns leaves a unit hypercube of dim columns. */
  lemma StandardDesign(dim: int, m: int, q: int, rm: int, conf: seq<int>, remove: seq<int>)
    requires StandardParams(dim, m, q, rm)
    requires conf == Range(0, q) && remove == Range(dim - rm, dim)
    ensures Nolh.NolhOf(conf, remove).Ok?
    ensures Nolh.UnitHypercube(q, dim, Nolh.NolhOf(conf, remove).value)
  {
    StandardRemoval(dim, m, q, rm);
    assert Sampling.Within(conf, 0, |conf| - 1) && |conf| == q;
    RemovalHypercube(conf, remove, dim);
  }

  /** params gives standard parameters for every dimension from 2 to 29. */
  lemma StandardParamsOf(dim: int)
    requires 2 <= dim <= 29
    ensures StandardParams(dim, Sampling.ParamsOf(dim).0, Sampling.ParamsOf(dim).1, Sampling.ParamsOf(dim).2)
  {
    OrderOfParams(dim);
  }

  /** A configuration of 0..q-1 whose removal list is valid, with distinct
      positions, and leaves dim columns gives a unit hypercube. */
  lemma RemovalHypercube(conf: seq<int>, remove: seq<int>, dim: nat)
    requires Nolh.Order(|conf|).Some? && Sampling.Within(conf, 0, |conf| - 1)
    requires var s := Sampling.Columns(Nolh.Order(|conf|).value);
      var nr := Nolh.Normalised(conf, remove);
      Nolh.ValidRemoval(nr, s)
      && (forall a, b :: 0 <= a < b < |nr| ==> Nolh.Positions(nr, s)[a] != Nolh.Positions(nr, s)[b])
      && s - |nr| == dim
    ensures Nolh.NolhOf(conf, remove).Ok?
    ensures Nolh.UnitHypercube(|conf|, dim, Nolh.NolhOf(conf, remove).value)
  {
    Nolh.NolhErrors(conf, remove);
    Nolh.NolhColumns(conf, remove);
    Nolh.NolhHypercube(conf, remove, dim);
  }

  /** The standard method hands `NOLH` range(q) and the last r column numbers. */
  lemma StandardArgsAre(dim: int, draws: Draws)
    requires 2 <= dim <= 29
    ensures NolhArgs(StandardNolh, dim, draws)
      == (Range(0, Sampling.ParamsOf(dim).1), Range(dim - Sampling.ParamsOf(dim).2, dim))
  {
  }

  /** A nolh method whose hypercube is a unit hypercube of one column per
      design variable samples the box as a hypercube. */
  lemma NolhMethodSamples(lb: seq<real>, ub: seq<real>, kind: Method, n: int, draws: Draws, q: nat,
                          design: seq<seq<real>>)
    requires forall i :: 0 <= i < |draws.uniform| ==> |draws.uniform[i]| == |lb|
    requires Bounds(lb, ub) && 2 <= |lb| <= 29 && IsNolh(kind)
    requires HypercubeOf(kind, |lb|, draws) == Ok(design)
    requires Nolh.UnitHypercube(q, |lb|, design)
    ensures var r := InitialSamplesOf(lb, ub, kind, n, draws);
      r.Ok? && HypercubeSamples(lb, ub, q, r.value)
  {
    assert InitialSamplesOf(lb, ub, kind, n, draws) == Scaled(lb, ub, design);
    ScaledHypercube(lb, ub, q, design);
  }

  /** Standard nolh: 2q + 1 hypercube samples of the box with one column per
      design variable. */
  lemma StandardNolhSamples(lb: seq<real>, ub: seq<real>, n: int, draws: Draws)
    requires forall i :: 0 <= i < |draws.uniform| ==> |draws.uniform[i]| == |lb|
    requires Bounds(lb, ub) && 2 <= |lb| <= 29
    ensures var r := InitialSamplesOf(lb, ub, StandardNolh, n, draws);
      r.Ok? && HypercubeSamples(lb, ub, Sampling.ParamsOf(|lb|).1, r.value)
  {
    var design := StandardHypercube(|lb|, draws);
    NolhMethodSamples(lb, ub, StandardNolh, n, draws, Sampling.ParamsOf(|lb|).1, design);
  }

  /** The standard method's hypercube: a unit hypercube of dim columns. */
  lemma StandardHypercube(dim: int, draws: Draws) returns (design: seq<seq<real>>)
    requires 2 <= dim <= 29
    ensures HypercubeOf(StandardNolh, dim, draws) == Ok(design)
    ensures Nolh.UnitHypercube(Sampling.ParamsOf(dim).1, dim, design)
  {
    var conf, remove := Range(0, Sampling.ParamsOf(dim).1), Range(dim - Sampling.ParamsOf(dim).2, dim);
    StandardArgsAre(dim, draws);
    StandardDesignOf(dim, conf, remove);
    design := Nolh.NolhOf(conf, remove).value;
  }

  /** StandardDesign for the parameters params gives. */
  lemma StandardDesignOf(dim: int, conf: seq<int>, remove: seq<int>)
    requires 2 <= dim <= 29
    requires conf == Range(0, Sampling.ParamsOf(dim).1) && remove == Range(dim - Sampling.ParamsOf(dim).2, dim)
    ensures Nolh.NolhOf(conf, remove).Ok?
    ensures Nolh.UnitHypercube(Sampling.ParamsOf(dim).1, dim, Nolh.NolhOf(conf, remove).value)
  {
    StandardParamsOf(dim);
    StandardDesign(dim, Sampling.ParamsOf(dim).0, Sampling.ParamsOf(dim).1, Sampling.ParamsOf(dim).2, conf, remove);
  }

  /** Cioppa and De Rainville: each corrected table with its removal list
      leaves a unit hypercube of dim columns. */
  lemma CdrDesign(dim: int)
    requires 2 <= dim <= 29
    ensures var design := Nolh.NolhOf(Sampling.Conf(dim), Sampling.Removal(dim));
      design.Ok? && Nolh.UnitHypercube(Sampling.ParamsOf(dim).1, dim, design.value)
  {
    var (m, q, rm) := Sampling.ParamsOf(dim);
    var conf, remove := Sampling.Conf(dim), Sampling.Removal(dim);
    OrderOfParams(dim);
    Sampling.CdrConf(dim);
    Sampling.CdrRemoval(dim);
    var s := Sampling.Columns(m);
    assert 0 !in conf;
    assert Nolh.Normalised(conf, remove) == remove;
    assert Nolh.ValidRemoval(remove, s);
    var positions := Nolh.Positions(remove, s);
    assert forall t :: 0 <= t < |remove| ==> positions[t] == remove[t] - 1;
    Nolh.NolhErrors(conf, remove);
    Nolh.NolhColumns(conf, remove);
    Nolh.NolhHypercube(conf, remove, dim);
  }

  lemma CdrHypercube(dim: int, draws: Draws)
    requires 2 <= dim <= 29
    ensures HypercubeOf(CdrNolh, dim, draws) == Nolh.NolhOf(Sampling.Conf(dim), Sampling.Removal(dim))
  {
  }

  /** nolh-cdr: 2q + 1 hypercube samples of the box. */
  lemma CdrNolhSamples(lb: seq<real>, ub: seq<real>, n: int, draws: Draws)
    requires forall i :: 0 <= i < |draws.uniform| ==> |draws.uniform[i]| == |lb|
    requires Bounds(lb, ub) && 2 <= |lb| <= 29
    ensures var r := InitialSamplesOf(lb, ub, CdrNolh, n, draws);
      r.Ok? && HypercubeSamples(lb, ub, Sampling.ParamsOf(|lb|).1, r.value)
  {
    CdrDesign(|lb|);
    CdrHypercube(|lb|, draws);
    var design := Nolh.NolhOf(Sampling.Conf(|lb|), Sampling.Removal(|lb|)).value;
    NolhMethodSamples(lb, ub, CdrNolh, n, draws, Sampling.ParamsOf(|lb|).1, design);
  }

  /** A result of `random.sample(range(pool), k)`: k distinct values of
      range(pool). */
  predicate Sample(v: seq<int>, k: nat, pool: int)
  {
    |v| == k && Sampling.Distinct(v) && Sampling.Within(v, 0, pool - 1)
  }

  /** nolh-rp with its removal drawn from the s columns of the hypercube:
      a unit hypercube of dim columns. */
  lemma PermutedDesign(dim: int, conf: seq<int>, remove: seq<int>)
    requires 2 <= dim <= 29
    requires var (m, q, r) := Sampling.ParamsOf(dim);
      Sample(conf, q, q) && Sample(remove, r, Sampling.Columns(m))
    ensures var (m, q, r) := Sampling.ParamsOf(dim);
      var design := Nolh.NolhOf(conf, RpRemove(r, remove));
      design.Ok? && Nolh.UnitHypercube(q, dim, design.value)
  {
    var (m, q, rm) := Sampling.ParamsOf(dim);
    OrderOfParams(dim);
    var s := Sampling.Columns(m);
    var remove0 := RpRemove(rm, remove);
    Sampling.SampleCovers(conf, q);
    var remove' := Nolh.Normalised(conf, remove0);
    assert forall t :: 0 <= t < |remove'| ==> remove'[t] - 1 == remove0[t];
    assert Nolh.ValidRemoval(remove', s);
    var positions := Nolh.Positions(remove', s);
    assert forall t :: 0 <= t < |remove0| ==> positions[t] == remove0[t];
    Nolh.NolhErrors(conf, remove0);
    Nolh.NolhColumns(conf, remove0);
    Nolh.NolhHypercube(conf, remove0, dim);
  }

  lemma PermutedHypercube(dim: int, draws: Draws)
    requires 2 <= dim <= 29
    ensures HypercubeOf(PermutedNolh, dim, draws)
      == Nolh.NolhOf(draws.rpConf, RpRemove(Sampling.ParamsOf(dim).2, draws.rpRemove))
  {
  }

  /** nolh-rp, with the columns to remove drawn from range(s): 2q + 1
      hypercube samples of the box. */
  lemma PermutedNolhSamples(lb: seq<real>, ub: seq<real>, n: int, draws: Draws)
    requires forall i :: 0 <= i < |draws.uniform| ==> |draws.uniform[i]| == |lb|
    requires Bounds(lb, ub) && 2 <= |lb| <= 29
    requires var (m, q, r) := Sampling.ParamsOf(|lb|);
      Sample(draws.rpConf, q, q) && Sample(draws.rpRemove, r, Sampling.Columns(m))
    ensures var r := InitialSamplesOf(lb, ub, PermutedNolh, n, draws);
      r.Ok? && HypercubeSamples(lb, ub, Sampling.ParamsOf(|lb|).1, r.value)
  {
    PermutedDesign(|lb|, draws.rpConf, draws.rpRemove);
    PermutedHypercube(|lb|, draws);
    var design := Nolh.NolhOf(draws.rpConf, RpRemove(Sampling.ParamsOf(|lb|).2, draws.rpRemove)).value;
    NolhMethodSamples(lb, ub, PermutedNolh, n, draws, Sampling.ParamsOf(|lb|).1, design);
  }

  /** The as-written draws of nolh-rp for dimension dim: a permutation of
      range(q) and r distinct columns from range(q - 1), the t-th of which is
      not below s. */
  predicate BeyondColumns(dim: int, draws: Draws, t: nat)
    requires 2 <= dim <= 29
  {
    var (m, q, r) := Sampling.ParamsOf(dim);
    r > 0 && Sample(draws.rpConf, q, q) && Sample(draws.rpRemove, r, q - 1)
    && t < r && draws.rpRemove[t] >= Sampling.Columns(m)
  }

  /** nolh-rp as written draws the columns to remove from range(q - 1): a
      draw holding a column number of at least s makes `NOLH` raise an
      IndexError. */
  lemma PermutedAsWrittenFails(lb: seq<real>, ub: seq<real>, n: int, draws: Draws, t: nat)
    requires forall i :: 0 <= i < |draws.uniform| ==> |draws.uniform[i]| == |lb|
    requires |lb| == |ub| && 2 <= |lb| <= 29 && BeyondColumns(|lb|, draws, t)
    ensures var r := InitialSamplesOf(lb, ub, PermutedNolh, n, draws);
      r.Err? && r.error.IndexError?
  {
    var dim := |lb|;
    var (m, q, rm) := Sampling.ParamsOf(dim);
    OrderOfParams(dim);
    var s := Sampling.Columns(m);
    Sampling.SampleCovers(draws.rpConf, q);
    var remove' := Nolh.Normalised(draws.rpConf, draws.rpRemove);
    assert !ValidIndex(remove'[t] - 1, s);
    Nolh.NolhErrors(draws.rpConf, draws.rpRemove);
    PermutedHypercube(dim, draws);
  }

  /** Dimension 8 (q = 16, s = 11): the permutation range(16) with the
      as-written draw [14, 0, 1] from range(15). */
  lemma PermutedAsWrittenExample(lb: seq<real>, ub: seq<real>, n: int, draws: Draws)
    requires forall i :: 0 <= i < |draws.uniform| ==> |draws.uniform[i]| == |lb|
    requires |lb| == |ub| == 8 && draws.rpConf == Range(0, 16) && draws.rpRemove == [14, 0, 1]
    ensures Sample(draws.rpRemove, 3, 16 - 1)
    ensures var r := InitialSamplesOf(lb, ub, PermutedNolh, n, draws);
      r.Err? && r.error.IndexError?
  {
    Sampling.ParamsRanges(8);
    Sampling.ColumnsTable();
    PermutedAsWrittenFails(lb, ub, n, draws, 0);
  }

  /** The 128-run table as written puts 141 in row 96 of column 0, so the
      hypercube for dimension 29 leaves [0, 1] there. */
  lemma CdrAsWrittenAboveOne()
    ensures var design := Nolh.NolhOf(Sampling.ConfAsWritten(29), Sampling.Removal(29));
      design.Ok? && |design.value[96]| > 0 && design.value[96][0] > 1.0
  {
    var conf := Sampling.Conf128AsWritten;
    var remove: seq<int> := [];
    assert Sampling.ConfAsWritten(29) == conf && Sampling.Removal(29) == remove;
    Sampling.Conf128AsWrittenRepeats();
    Nolh.Log2OfPow2(7);
    assert Pow2(7) == 128;
    assert Nolh.Order(128) == Some(8);
    CdrAsWrittenFirstColumn();
    Nolh.LevelAbove(Nolh.Normalised(conf, conf)[96], 128);
  }

  lemma CdrAsWrittenFirstColumn()
    requires |Sampling.Conf128AsWritten| == 128 && Nolh.Order(128) == Some(8)
    ensures var conf := Sampling.Conf128AsWritten;
      var design := Nolh.NolhOf(conf, []);
      design.Ok? && |design.value[96]| > 0
      && design.value[96][0] == Nolh.Level(Nolh.Normalised(conf, conf)[96], 128)
  {
    var conf := Sampling.Conf128AsWritten;
    Nolh.NolhErrors(conf, []);
    Nolh.NolhFirstColumn(conf, [], 96);
  }

  /** The list given for dimension 27 has 126 entries, not a power of two,
      so `NOLH` raises a ValueError. */
  lemma CdrAsWrittenDim27Fails()
    ensures var design := Nolh.NolhOf(Sampling.ConfAsWritten(27), Sampling.Removal(27));
      design.Err? && design.error.ValueError?
  {
    Sampling.Conf128AsWrittenRepeats();
    assert |Sampling.ConfAsWritten(27)| == 126;
    assert Nolh.Log2(126) == None by {
      assert Nolh.Log2(63) == None;
    }
    Nolh.NolhErrors(Sampling.ConfAsWritten(27), Sampling.Removal(27));
  }

  /** lhc: each row of the hypercube `lhs` returns scales into the box. */
  lemma LatinHypercubeSamples(lb: seq<real>, ub: seq<real>, n: int, draws: Draws)
    requires forall i :: 0 <= i < |draws.uniform| ==> |draws.uniform[i]| == |lb|
    requires Bounds(lb, ub) && 2 <= |lb| <= 29
    requires forall t :: 0 <= t < |draws.lhs| ==> |draws.lhs[t]| == |lb| && Unit(draws.lhs[t])
    ensures var r := InitialSamplesOf(lb, ub, LatinHypercube, n, draws);
      r.Ok? && |r.value| == |draws.lhs|
      && forall t :: 0 <= t < |r.value| ==>
        r.value[t] == Scale(lb, ub, draws.lhs[t]) && InBox(lb, ub, r.value[t])
  {
    ScaledRows(lb, ub, draws.lhs);
    forall t | 0 <= t < |draws.lhs|
      ensures InBox(lb, ub, Scale(lb, ub, draws.lhs[t]))
    {
      ScaleInBox(lb, ub, draws.lhs[t]);
    }
  }
}
