// The objective-function object (Code/ObjectiveFunction.py): a named fitness
// function over a candidate tally compared with a stored objective spectrum,
// including the in-place projection of zero bins used by the relative least
// squares measure.
module ObjectiveFunction {
  import opened Wrappers
  import opened PyMath
  import Utilities

  /** The three entries of `_FUNC_DICT`. */
  datatype FuncKind = RelativeLeastSquaresFn | LeastSquaresFn | UOptFn

  function FuncName(f: FuncKind): string
  {
    match f
    case RelativeLeastSquaresFn => "relative_least_squares"
    case LeastSquaresFn => "least_squares"
    case UOptFn => "u_opt"
  }

  /** The `_FUNC_DICT` lookup: a known name gives its function, any other name
      raises KeyError. */
  function LookupFunc(name: string): (r: Result<FuncKind>)
    ensures r.Ok? ==> FuncName(r.value) == name
    ensures r.Err? <==> name !in {"relative_least_squares", "least_squares", "u_opt"}
    ensures r.Err? ==> r.error == KeyError(name)
  {
    if name == "relative_least_squares" then Ok(RelativeLeastSquaresFn)
    else if name == "least_squares" then Ok(LeastSquaresFn)
    else if name == "u_opt" then Ok(UOptFn)
    else Err(KeyError(name))
  }

  /** Every function is found again under its own name. */
  lemma LookupFuncName(f: FuncKind)
    ensures LookupFunc(FuncName(f)) == Ok(f)
  {
  }

  const UOptLengths := "The length of the candidate and objective  must be equal in u_opt."
  const LeastSquaresLengths := "The length of the candidate and objective  must be equal in least_squares."
  const RlsLengths := "The length of the candidate and objective must be equal in relative_least_squares."

  class ObjectiveFunction {
    var func: Option<FuncKind>
    var funcTally: string
    var objType: string
    var objForm: string
    /** Rows of (energy, value); the second column is what candidates match. */
    var objective: seq<(real, real)>

    /** The constructor for a method name already known to be in `_FUNC_DICT`;
        `New` is the constructor as called, with the KeyError of other names. */
    constructor (methodName: Option<string>, tallyNum: string, objType: string, objForm: string,
                 objective: seq<(real, real)>)
      requires methodName.Some? ==> LookupFunc(methodName.value).Ok?
      ensures methodName.None? ==> func.None?
      ensures methodName.Some? ==> func == Some(LookupFunc(methodName.value).value)
      ensures funcTally == tallyNum && this.objType == objType && this.objForm == objForm
      ensures this.objective == objective
    {
      if methodName.Some? {
        func := Some(LookupFunc(methodName.value).value);
      } else {
        func := None;
      }
      funcTally := tallyNum;
      this.objType := objType;
      this.objForm := objForm;
      this.objective := objective;
    }

    /** `ObjectiveFunction(...)`: an unknown method name raises KeyError from
        `set_obj_func` and no object results; otherwise the fields are stored. */
    static method New(methodName: Option<string>, tallyNum: string, objType: string, objForm: string,
                      objective: seq<(real, real)>) returns (r: Result<ObjectiveFunction>)
      ensures r.Err? <==> methodName.Some? && LookupFunc(methodName.value).Err?
      ensures r.Err? ==> r.error == KeyError(methodName.value)
      ensures r.Ok? ==> fresh(r.value)
      ensures r.Ok? && methodName.None? ==> r.value.func.None?
      ensures r.Ok? && methodName.Some? ==> r.value.func.Some? && FuncName(r.value.func.value) == methodName.value
      ensures r.Ok? ==> r.value.funcTally == tallyNum && r.value.objType == objType
      ensures r.Ok? ==> r.value.objForm == objForm && r.value.objective == objective
    {
      if methodName.Some? && LookupFunc(methodName.value).Err? {
        return Err(KeyError(methodName.value));
      }
      var o := new ObjectiveFunction(methodName, tallyNum, objType, objForm, objective);
      return Ok(o);
    }

    /** `set_obj_func`: stores the named function; an unknown name raises
        KeyError and leaves the handle as it was. */
    method SetObjFunc(name: string) returns (r: Result<()>)
      modifies this`func
      ensures r.Ok? <==> LookupFunc(name).Ok?
      ensures r.Ok? ==> func == Some(LookupFunc(name).value) && FuncName(func.value) == name
      ensures r.Err? ==> func == old(func)
    {
      var f := LookupFunc(name);
      if f.Err? {
        return Err(f.error);
      }
      func := Some(f.value);
      return Ok(());
    }

    /** The objective's value column, `objective[:, 1]`. */
    function Observed(): (o: seq<real>)
      reads this
      ensures |o| == |objective|
    {
      var obj := objective;
      seq(|obj|, k requires 0 <= k < |obj| => obj[k].1)
    }

    /** `u_opt`: summed absolute deviation from the objective. */
    function UOpt(c: seq<real>): (r: Result<real>)
      reads this
      ensures r.Err? <==> |c| != |objective|
      ensures r.Err? ==> r.error == AssertionError(UOptLengths)
      ensures r.Ok? ==> r.value >= 0.0
      ensures r.Ok? ==> (r.value == 0.0 <==> c == Observed())
    {
      if |c| != |objective| then Err(AssertionError(UOptLengths))
      else Utilities.Uopt(c, Observed())
    }

    /** `least_squares`: summed squared deviation from the objective. */
    function LeastSquares(c: seq<real>): (r: Result<real>)
      reads this
      ensures r.Err? <==> |c| != |objective|
      ensures r.Err? ==> r.error == AssertionError(LeastSquaresLengths)
      ensures r.Ok? ==> r.value >= 0.0
      ensures r.Ok? ==> (r.value == 0.0 <==> c == Observed())
    {
      if |c| != |objective| then Err(AssertionError(LeastSquaresLengths))
      else Utilities.LeastSquares(c, Observed())
    }

    /** `relative_least_squares`: with `project`, overwrites each zero bin of c
        in place, left to right, by linear extrapolation, then returns the
        objective-weighted relative squared error. */
    method RelativeLeastSquares(c: array<real>, project: bool) returns (r: Result<real>)
      requires forall k :: 0 <= k < |Observed()| ==> Observed()[k] != 0.0
      requires |Observed()| > 0 ==> Sum(Observed()) != 0.0
      modifies c
      ensures r.Err? && r.error.AssertionError? <==> c.Length != |objective|
      ensures c.Length == |objective| ==> (project && c.Length == 1 && old(c[0]) == 0.0 <==> r.Err?)
      ensures r.Err? ==> c[..] == old(c[..])
      ensures r.Err? && c.Length == |objective| ==> r.error.IndexError?
      ensures r.Ok? && project ==> c[..] == Projected(old(c[..]), c.Length)
      ensures r.Ok? && !project ==> c[..] == old(c[..])
      ensures r.Ok? ==> r.value == WeightedRelativeError(c[..], Observed())
      ensures c.Length == |objective| == 0 ==> r == Ok(0.0)
    {
      if c.Length != |objective| {
        return Err(AssertionError(RlsLengths));
      }
      if project {
        if c.Length == 1 && c[0] == 0.0 {
          return Err(IndexError("index -2 is out of bounds"));
        }
        ProjectZeros(c);
      }
      r := Ok(WeightedRelativeError(c[..], Observed()));
    }
  }

  /** The projection loop of `relative_least_squares`: each zero bin, left
      to right, is replaced by the line through the next (or previous) pair
      of non-zero bins. */
  method ProjectZeros(c: array<real>)
    requires Projectable(c[..])
    modifies c
    ensures c[..] == Projected(old(c[..]), c.Length)
  {
    var i := 0;
    while i < c.Length
      invariant 0 <= i <= c.Length
      invariant c[..] == Projected(old(c[..]), i)
    {
      ProjectedLength(old(c[..]), i);
      if c[i] == 0.0 {
        var e1, e2 := FindExtrapIndices(c, i);
        var n := c.Length;
        var v := c[PyIdx(e1, n)] - (e1 - i) as real * (c[PyIdx(e2, n)] - c[PyIdx(e1, n)] / (e2 - e1) as real);
        assert v == ExtrapValue(c[..], i);
        c[i] := v;
      }
      i := i + 1;
    }
  }

  /** One bin's share of the score: ((o-c)/o)^2 * o / total. */
  function RelTerm(ck: real, ok: real, total: real): real
    requires ok != 0.0 && total != 0.0
  {
    ((ok - ck) / ok) * ((ok - ck) / ok) * ok / total
  }

  /** The index search of `relative_least_squares` for zero bin i. */
  method FindExtrapIndices(c: array<real>, i: nat) returns (e1: int, e2: int)
    requires i < c.Length && c.Length >= 2
    ensures (e1, e2) == ExtrapIndices(c[..], i)
  {
    e1, e2 := i + 1, i + 2;
    if e2 < c.Length {
      while c[e1] == 0.0 || c[e2] == 0.0
        invariant i + 1 <= e1 && e2 == e1 + 1 && e2 < c.Length
        invariant ForwardSearch(c[..], i, i + 1) == ForwardSearch(c[..], i, e1)
        decreases c.Length - e1
      {
        e1, e2 := e1 + 1, e2 + 1;
        if e2 >= c.Length {
          e1, e2 := i - 2, i - 1;
          break;
        }
      }
    } else {
      e1, e2 := i - 2, i - 1;
    }
  }

  /** The return value of `relative_least_squares`: sum of ((o-c)/o)^2 * o / sum(o). */
  function WeightedRelativeError(c: seq<real>, o: seq<real>): real
    requires |c| == |o| && forall k :: 0 <= k < |o| ==> o[k] != 0.0
    requires |o| > 0 ==> Sum(o) != 0.0
  {
    Sum(seq(|c|, k requires 0 <= k < |c| => RelTerm(c[k], o[k], Sum(o))))
  }

  /** The forward search for the first pair of adjacent non-zero bins at or
      after e1; when it runs off the end it falls back to (i-2, i-1). */
  function ForwardSearch(c: seq<real>, i: nat, e1: nat): (r: (int, int))
    requires i < e1 && e1 + 1 < |c|
    ensures r.1 == r.0 + 1
    ensures r.0 == i - 2 || (e1 <= r.0 && r.1 < |c| && c[r.0] != 0.0 && c[r.1] != 0.0)
    decreases |c| - e1
  {
    if c[e1] != 0.0 && c[e1 + 1] != 0.0 then (e1, e1 + 1)
    else if e1 + 2 >= |c| then (i - 2, i - 1)
    else ForwardSearch(c, i, e1 + 1)
  }

  /** The two bins a zero bin i is extrapolated from. */
  function ExtrapIndices(c: seq<real>, i: nat): (r: (int, int))
    requires i < |c| && |c| >= 2
    ensures r.1 == r.0 + 1
    ensures ValidIndex(r.0, |c|) && ValidIndex(r.1, |c|)
    ensures r.0 != i - 2 ==> i < r.0 && r.1 < |c| && c[r.0] != 0.0 && c[r.1] != 0.0
  {
    if i + 2 < |c| then ForwardSearch(c, i, i + 1) else (i - 2, i - 1)
  }

  /** The extrapolated value for zero bin i, written as the source writes it. */
  function ExtrapValue(c: seq<real>, i: nat): real
    requires i < |c| && |c| >= 2
  {
    var (e1, e2) := ExtrapIndices(c, i);
    var n := |c|;
    c[PyIdx(e1, n)] - (e1 - i) as real * (c[PyIdx(e2, n)] - c[PyIdx(e1, n)] / (e2 - e1) as real)
  }

  /** The divisor (e2 - e1) is always 1, so the value is the plain linear
      extrapolation c[e1] - (e1 - i) * (c[e2] - c[e1]). */
  lemma ExtrapIsLinear(c: seq<real>, i: nat)
    requires i < |c| && |c| >= 2
    ensures var (e1, e2) := ExtrapIndices(c, i);
      ExtrapValue(c, i) == c[PyIdx(e1, |c|)] - (e1 - i) as real * (c[PyIdx(e2, |c|)] - c[PyIdx(e1, |c|)])
  {
  }

  /** A projection that can run: every candidate but a single zero bin. */
  predicate Projectable(c: seq<real>)
  {
    !(|c| == 1 && c[0] == 0.0)
  }

  /** The candidate after bins 0..n-1 have been visited. */
  function Projected(c: seq<real>, n: nat): (r: seq<real>)
    requires n <= |c| && Projectable(c)
    ensures |r| == |c|
  {
    if n == 0 then c
    else
      var prev := Projected(c, n - 1);
      if prev[n - 1] == 0.0 then prev[n - 1 := ExtrapValue(prev, n - 1)] else prev
  }

  lemma ProjectedLength(c: seq<real>, n: nat)
    requires n <= |c| && Projectable(c)
    ensures |Projected(c, n)| == |c|
  {
  }

  /** Only bins that were zero change, and bins not yet visited are untouched. */
  lemma {:induction false} ProjectedChangesOnlyZeroBins(c: seq<real>, n: nat)
    requires n <= |c| && Projectable(c)
    ensures forall k :: 0 <= k < |c| && c[k] != 0.0 ==> Projected(c, n)[k] == c[k]
    ensures forall k :: n <= k < |c| ==> Projected(c, n)[k] == c[k]
  {
    if n > 0 {
      ProjectedChangesOnlyZeroBins(c, n - 1);
    }
  }

  /** With no zero bins the projection changes nothing. */
  lemma {:induction false} ProjectedNoZeros(c: seq<real>, n: nat)
    requires n <= |c| && forall k :: 0 <= k < |c| ==> c[k] != 0.0
    ensures Projected(c, n) == c
  {
    if n > 0 {
      ProjectedNoZeros(c, n - 1);
    }
  }

  lemma RelTermNonNegative(ck: real, ok: real, total: real)
    requires ok > 0.0 && total > 0.0
    ensures RelTerm(ck, ok, total) >= 0.0
  {
    var q := (ok - ck) / ok;
    Utilities.SquareNonNegative(q, q * q);
    var w := q * q * ok;
    calc { w; == (q * q) * ok; >= 0.0 * ok; == 0.0; }
  }

  lemma RelTermExact(ok: real, total: real)
    requires ok != 0.0 && total != 0.0
    ensures RelTerm(ok, ok, total) == 0.0
  {
    var q := (ok - ok) / ok;
    assert q == 0.0;
    calc { RelTerm(ok, ok, total); == q * q * ok / total; == 0.0 * q * ok / total; == 0.0; }
  }

  /** The score is never negative when the objective values are positive. */
  lemma WeightedRelativeErrorNonNegative(c: seq<real>, o: seq<real>)
    requires |c| == |o| && forall k :: 0 <= k < |o| ==> o[k] > 0.0
    requires Sum(o) != 0.0
    ensures Sum(o) > 0.0
    ensures WeightedRelativeError(c, o) >= 0.0
  {
    SumNonNegative(o);
    var t := seq(|c|, k requires 0 <= k < |c| => RelTerm(c[k], o[k], Sum(o)));
    forall k | 0 <= k < |c| ensures t[k] >= 0.0 {
      RelTermNonNegative(c[k], o[k], Sum(o));
    }
    SumNonNegative(t);
  }

  /** A candidate equal to the objective, with no zero bins, scores 0. */
  lemma WeightedRelativeErrorExact(o: seq<real>)
    requires forall k :: 0 <= k < |o| ==> o[k] != 0.0
    requires Sum(o) != 0.0
    ensures Projected(o, |o|) == o
    ensures WeightedRelativeError(o, o) == 0.0
  {
    ProjectedNoZeros(o, |o|);
    WeightedRelativeErrorSelf(o);
  }

  lemma WeightedRelativeErrorSelf(o: seq<real>)
    requires forall k :: 0 <= k < |o| ==> o[k] != 0.0
    requires Sum(o) != 0.0
    ensures WeightedRelativeError(o, o) == 0.0
  {
    var t := seq(|o|, k requires 0 <= k < |o| => RelTerm(o[k], o[k], Sum(o)));
    forall k | 0 <= k < |o| ensures t[k] == 0.0 {
      RelTermExact(o[k], Sum(o));
    }
    SumConstant(t, 0.0);
  }
}
