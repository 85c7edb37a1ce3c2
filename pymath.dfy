// Python arithmetic that differs from Dafny's: truncating int(), math.ceil,
// Python 2 round(), negative list indexes and sums over lists of floats.
module PyMath {

  /** A Python number whose int/float type the code checks with isinstance. */
  datatype PyNum = PyInt(i: int) | PyFloat(f: real)
  {
    /** The numeric value, as Python compares it (`-1 == -1.0`). */
    function Value(): real
    {
      if PyInt? then i as real else f
    }
  }

  /** Python `int(v)` on a float: truncation toward zero. */
  function Trunc(v: real): (r: int)
    ensures v >= 0.0 ==> r as real <= v < r as real + 1.0
    ensures v < 0.0 ==> r as real - 1.0 < v <= r as real
  {
    if v >= 0.0 then v.Floor else -((-v).Floor)
  }

  /** `math.ceil(v)`: the least integer not below v. */
  function Ceil(v: real): (r: int)
    ensures r as real - 1.0 < v <= r as real
  {
    -((-v).Floor)
  }

  /** Python 2 `round(v)`: to the nearest integer, halves away from zero. */
  function Round(v: real): (r: int)
    ensures v >= 0.0 ==> r as real - 0.5 <= v < r as real + 0.5
    ensures v < 0.0 ==> r as real - 0.5 < v <= r as real + 0.5
  {
    if v >= 0.0 then (v + 0.5).Floor else -((-v + 0.5).Floor)
  }

  function Abs(v: real): (r: real)
    ensures r >= 0.0 && (r == v || r == -v)
  {
    if v < 0.0 then -v else v
  }

  /** Draws of `random.random()`, which lie in [0, 1). */
  predicate UnitDraws(draws: seq<real>)
  {
    forall j :: 0 <= j < |draws| ==> 0.0 <= draws[j] < 1.0
  }

  /** A Python list index `k` that is valid for a list of length n. */
  predicate ValidIndex(k: int, n: nat)
  {
    -(n as int) <= k < n
  }

  /** The position a valid Python index `k` denotes in a list of length n. */
  function PyIdx(k: int, n: nat): (r: nat)
    requires ValidIndex(k, n)
    ensures r < n
    ensures k >= 0 ==> r == k
    ensures k < 0 ==> r == n + k
  {
    if k < 0 then n + k else k
  }

  /** Dropping the last element of a + b drops it from b. */
  lemma DropLast<T>(a: seq<T>, b: seq<T>)
    requires b != []
    ensures (a + b)[..|a + b| - 1] == a + b[..|b| - 1]
  {
  }

  function Sum(s: seq<real>): real
  {
    if s == [] then 0.0 else Sum(s[..|s| - 1]) + s[|s| - 1]
  }

  lemma {:induction false} SumAppend(s: seq<real>, t: seq<real>)
    ensures Sum(s + t) == Sum(s) + Sum(t)
    decreases |t|
  {
    if t == [] {
      assert s + t == s;
    } else {
      assert (s + t)[..|s + t| - 1] == s + t[..|t| - 1];
      SumAppend(s, t[..|t| - 1]);
    }
  }

  lemma {:induction false} SumNonNegative(s: seq<real>)
    requires forall k :: 0 <= k < |s| ==> s[k] >= 0.0
    ensures Sum(s) >= 0.0
  {
    if s != [] {
      SumNonNegative(s[..|s| - 1]);
    }
  }

  /** A sum of non-negative terms is zero exactly when every term is. */
  lemma {:induction false} SumZeroIff(s: seq<real>)
    requires forall k :: 0 <= k < |s| ==> s[k] >= 0.0
    ensures Sum(s) == 0.0 <==> forall k :: 0 <= k < |s| ==> s[k] == 0.0
  {
    if s != [] {
      SumNonNegative(s[..|s| - 1]);
      SumZeroIff(s[..|s| - 1]);
      if Sum(s) == 0.0 {
        forall k | 0 <= k < |s| ensures s[k] == 0.0 {
          if k < |s| - 1 {
            assert s[k] == s[..|s| - 1][k];
          }
        }
      }
    }
  }

  /** Dividing every element by q divides the sum by q. */
  lemma {:induction false} SumScaled(s: seq<real>, t: seq<real>, q: real)
    requires q != 0.0 && |t| == |s|
    requires forall k :: 0 <= k < |s| ==> t[k] == s[k] / q
    ensures Sum(t) == Sum(s) / q
  {
    if s != [] {
      SumScaled(s[..|s| - 1], t[..|t| - 1], q);
    }
  }

  /** Python `sum` over a constant list. */
  lemma {:induction false} SumConstant(s: seq<real>, v: real)
    requires forall k :: 0 <= k < |s| ==> s[k] == v
    ensures Sum(s) == |s| as real * v
  {
    if s != [] {
      SumConstant(s[..|s| - 1], v);
    }
  }

  function Pow2(n: nat): (r: nat)
    ensures r >= 1
  {
    if n == 0 then 1 else 2 * Pow2(n - 1)
  }
}
