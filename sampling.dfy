// Code/SamplingMethods.py: the order and size of a nearly orthogonal Latin
// hypercube (`params`), the Cioppa and De Rainville configuration tables
// (`Get_CDR_Permutations`), the hypercube construction (`NOLH`), the scaling
// and checks of `Initial_Samples`, and the contracts of `Levy` and `TLF`.
module Sampling {
  import opened Wrappers
  import opened PyMath

  // ---------------------------------------------------------------------------
  // params

  function Factorial(n: nat): (r: nat)
    ensures r >= 1
  {
    if n == 0 then 1 else n * Factorial(n - 1)
  }

  /** 0 + 1 + ... + (n - 1): the number of pairs drawn from n items. */
  function Tri(n: nat): nat
  {
    if n == 0 then 0 else Tri(n - 1) + (n - 1)
  }

  lemma {:induction false} TriClosedForm(n: nat)
    ensures 2 * Tri(n) == n * (n - 1)
  {
    if n > 0 {
      TriClosedForm(n - 1);
    }
  }

  /** The number of columns of a hypercube of order m,
      `m + factorial(m - 1) / (2 * factorial(m - 3))`. */
  function Columns(m: nat): int
    requires m >= 3
  {
    m + Factorial(m - 1) / (2 * Factorial(m - 3))
  }

  /** The factorial quotient counts the pairs among m - 1 items. */
  lemma ColumnsPairs(m: nat)
    requires m >= 3
    ensures Columns(m) == m + Tri(m - 1)
  {
    var f := Factorial(m - 3);
    assert Factorial(m - 1) == (m - 1) * ((m - 2) * f);
    TriClosedForm(m - 1);
    assert Factorial(m - 1) == Tri(m - 1) * (2 * f);
    DivExact(Tri(m - 1), 2 * f);
  }

  lemma DivExact(k: int, d: int)
    requires d > 0
    ensures (k * d) / d == k
  {
    DivUnique(k * d, d, k);
  }

  /** Integer division by a positive d is fixed by its bracket. */
  lemma DivUnique(x: int, d: int, y: int)
    requires d > 0 && d * y <= x < d * y + d
    ensures x / d == y
  {
    var z := x / d;
    assert x == d * z + x % d;
    assert d * (z - y) == d * z - d * y;
    MulSign(d, z - y);
  }

  lemma MulSign(d: int, t: int)
    requires d > 0
    ensures t >= 1 ==> d * t >= d
    ensures t <= -1 ==> d * t <= -d
  {
  }

  lemma ColumnsGrow(m: nat)
    requires m >= 3
    ensures Columns(m + 1) > Columns(m)
  {
    ColumnsPairs(m);
    ColumnsPairs(m + 1);
  }

  /** The least order from m on whose column count reaches dim. */
  function OrderFrom(m: nat, dim: int): (r: nat)
    requires m >= 3
    ensures r >= m && Columns(r) >= dim
    ensures forall k :: m <= k < r ==> Columns(k) < dim
    decreases dim - Columns(m)
  {
    ColumnsGrow(m);
    if Columns(m) >= dim then m else OrderFrom(m + 1, dim)
  }

  /** `params(dim)`: the order m, the configuration length q = 2^(m-1) and the
      number of columns r to remove. The search starts from m = 3 with s = 1,
      so a dimension of at most 1 gives (3, 4, 1 - dim). */
  function ParamsOf(dim: int): (r: (int, int, int))
    ensures r.0 >= 3 && r.1 == Pow2(r.0 - 1) && r.2 >= 0
  {
    if dim <= 1 then (3, 4, 1 - dim)
    else
      var m := OrderFrom(4, dim);
      (m, Pow2(m - 1), Columns(m) - dim)
  }

  method Params(dim: int) returns (m: int, q: int, r: int)
    ensures (m, q, r) == ParamsOf(dim)
  {
    m := 3;
    var s := 1;
    q := Pow2(m - 1);
    while s < dim
      invariant m >= 3 && q == Pow2(m - 1)
      invariant m == 3 ==> s == 1
      invariant dim <= 1 ==> m == 3
      invariant m > 3 ==> s == Columns(m) && OrderFrom(4, dim) >= m
      decreases dim - s
    {
      ColumnsGrow(m);
      m := m + 1;
      s := m + Factorial(m - 1) / (2 * Factorial(m - 3));
      q := Pow2(m - 1);
    }
    r := s - dim;
  }

  /** For a dimension of at least 2 the order is the least m >= 4 with enough
      columns, q is 2^(m-1), and the number of columns to remove is not
      negative. */
  lemma ParamsMinimal(dim: int)
    requires dim >= 2
    ensures var (m, q, r) := ParamsOf(dim);
      m >= 4 && Columns(m) >= dim && (m == 4 || Columns(m - 1) < dim)
      && q == Pow2(m - 1) && r >= 0 && r == Columns(m) - dim
  {
  }

  /** The orders the tables below are written for. */
  lemma {:induction false} ParamsRanges(dim: int)
    requires 2 <= dim <= 29
    ensures 2 <= dim <= 7 ==> ParamsOf(dim) == (4, 8, 7 - dim)
    ensures 8 <= dim <= 11 ==> ParamsOf(dim) == (5, 16, 11 - dim)
    ensures 12 <= dim <= 16 ==> ParamsOf(dim) == (6, 32, 16 - dim)
    ensures 17 <= dim <= 22 ==> ParamsOf(dim) == (7, 64, 22 - dim)
    ensures 23 <= dim <= 29 ==> ParamsOf(dim) == (8, 128, 29 - dim)
  {
    ColumnsTable();
  }

  lemma ColumnsTable()
    ensures Columns(4) == 7 && Columns(5) == 11 && Columns(6) == 16
    ensures Columns(7) == 22 && Columns(8) == 29
  {
    ColumnsPairs(4);
    ColumnsPairs(5);
    ColumnsPairs(6);
    ColumnsPairs(7);
    ColumnsPairs(8);
  }
  // ---------------------------------------------------------------------------
  // Get_CDR_Permutations

  /** Cioppa's configuration for 8 runs (dimensions 2 to 7). */
  const Conf8: seq<int> :=
    [1, 2, 8, 4, 5, 6, 7, 3]

  /** De Rainville et al.'s configuration for 16 runs (dimensions 8 to 11). */
  const Conf16: seq<int> :=
    [4, 14, 1, 2, 16, 13, 5, 8, 12, 9, 6, 7, 11, 3, 15, 10]

  /** The configuration for 32 runs (dimensions 12 to 16). */
  const Conf32: seq<int> :=
    [5, 13, 19, 23, 28, 10, 12, 32, 17, 2, 30, 15, 6, 31, 21, 8, 24, 29, 9, 14, 11, 22, 18, 25,
     3, 1, 20, 7, 27, 16, 26, 4]

  /** The configuration for 64 runs (dimensions 17 to 22) as the source lists
      it: 2 appears at positions 16 and 50, and 32 does not appear. */
  const Conf64AsWritten: seq<int> := Conf64Rows[0] + Conf64Rows[1] + Conf64Rows[2] + Conf64Rows[3]

  /** The rows of 16 entries the list above is made of. */
  const Conf64Rows: seq<seq<int>> :=
    [
     [7, 8, 51, 3, 40, 44, 29, 19, 61, 43, 26, 48, 20, 52, 4, 49],
     [2, 57, 31, 30, 24, 23, 56, 50, 18, 59, 63, 37, 38, 21, 54, 9],
     [46, 27, 36, 1, 10, 42, 13, 55, 15, 25, 22, 45, 41, 39, 53, 34],
     [6, 5, 2, 58, 16, 28, 64, 14, 47, 33, 12, 35, 62, 17, 11, 60]
    ]

  /** The configuration for 128 runs (dimensions 23 to 29 but 27) as the
      source lists it: 141 at position 96, 6 at positions 39 and 126, and
      neither 41 nor 67. */
  const Conf128AsWritten: seq<int> :=
    Conf128Rows[0] + Conf128Rows[1] + Conf128Rows[2] + Conf128Rows[3]
    + Conf128Rows[4] + Conf128Rows[5] + Conf128Rows[6] + Conf128Rows[7]

  /** The rows of 16 entries the list above is made of. */
  const Conf128Rows: seq<seq<int>> :=
    [
     [9, 108, 39, 107, 62, 86, 110, 119, 46, 43, 103, 71, 123, 91, 10, 13],
     [126, 63, 83, 47, 100, 54, 23, 16, 124, 45, 27, 4, 93, 74, 76, 90],
     [30, 81, 77, 53, 116, 49, 104, 6, 70, 82, 26, 118, 55, 79, 32, 109],
     [57, 31, 22, 101, 44, 87, 121, 7, 37, 56, 89, 115, 25, 92, 85, 20],
     [58, 52, 3, 11, 106, 17, 117, 38, 78, 28, 59, 96, 18, 97, 50, 114],
     [112, 60, 84, 1, 12, 61, 98, 128, 14, 42, 64, 105, 68, 75, 111, 34],
     [141, 65, 99, 2, 19, 33, 35, 94, 51, 122, 127, 36, 125, 80, 73, 8],
     [24, 21, 88, 48, 69, 66, 40, 15, 29, 113, 72, 5, 95, 120, 6, 102]
    ]

  /** The list given for dimension 27: the 128-run list without its entries at
      positions 60 and 61 (25 and 92), 126 values in all. */
  const Conf126AsWritten: seq<int> := Conf128AsWritten[..60] + Conf128AsWritten[62..]

  /** The 64-run configuration with the second 2 replaced by the missing 32. */
  const Conf64: seq<int> := Conf64AsWritten[50 := 32]

  /** The 128-run configuration with 141 replaced by 41 and the second 6 by 67. */
  const Conf128: seq<int> := Conf128AsWritten[96 := 41][126 := 67]

  /** The columns to remove for each dimension. */
  function Removal(dim: int): seq<int>
    requires 2 <= dim <= 29
  {
    if dim == 2 then [1, 3, 4, 6, 7]
    else if dim == 3 then [1, 2, 3, 6]
    else if dim == 4 then [1, 3, 6]
    else if dim == 5 then [1, 6]
    else if dim == 6 then [1]
    else if dim == 7 then []
    else if dim == 8 then [1, 3, 10]
    else if dim == 9 then [6, 10]
    else if dim == 10 then [10]
    else if dim == 11 then []
    else if dim == 12 then [2, 4, 5, 11]
    else if dim == 13 then [3, 6, 14]
    else if dim == 14 then [4, 5]
    else if dim == 15 then [6]
    else if dim == 16 then []
    else if dim == 17 then [8, 11, 12, 14, 17]
    else if dim == 18 then [8, 11, 12, 17]
    else if dim == 19 then [10, 15, 22]
    else if dim == 20 then [8, 12]
    else if dim == 21 then [15]
    else if dim == 22 then []
    else if dim == 23 then [18, 20, 21, 24, 27, 29]
    else if dim == 24 then [4, 15, 18, 24, 27]
    else if dim == 25 then [21, 26, 27, 29]
    else if dim == 26 then [26, 27, 29]
    else if dim == 27 then [27, 29]
    else if dim == 28 then [20]
    else []
  }

  /** The configuration the source gives for each dimension. */
  function ConfAsWritten(dim: int): seq<int>
    requires 2 <= dim <= 29
  {
    if dim <= 7 then Conf8
    else if dim <= 11 then Conf16
    else if dim <= 16 then Conf32
    else if dim <= 22 then Conf64AsWritten
    else if dim == 27 then Conf126AsWritten
    else Conf128AsWritten
  }

  /** The configuration for each dimension with the 64- and 128-run tables
      corrected, and dimension 27 given the whole 128-run table. */
  function Conf(dim: int): seq<int>
    requires 2 <= dim <= 29
  {
    if dim <= 7 then Conf8
    else if dim <= 11 then Conf16
    else if dim <= 16 then Conf32
    else if dim <= 22 then Conf64
    else Conf128
  }

  /** `Get_CDR_Permutations(dim)` as written. */
  function CdrPermutationsAsWritten(dim: int): (r: Result<(seq<int>, seq<int>)>)
    ensures r.Err? <==> !(2 <= dim <= 29)
    ensures r.Ok? ==> r.value == (ConfAsWritten(dim), Removal(dim))
  {
    if 2 <= dim <= 29 then Ok((ConfAsWritten(dim), Removal(dim)))
    else Err(AssertionError("The Phase space dimensions are outside of the bounds for CDR Permutations."))
  }

  /** `Get_CDR_Permutations(dim)` with the corrected tables. */
  function CdrPermutations(dim: int): (r: Result<(seq<int>, seq<int>)>)
    ensures r.Err? <==> !(2 <= dim <= 29)
    ensures r.Ok? ==> r.value == (Conf(dim), Removal(dim))
  {
    if 2 <= dim <= 29 then Ok((Conf(dim), Removal(dim)))
    else Err(AssertionError("The Phase space dimensions are outside of the bounds for CDR Permutations."))
  }

  /** Every entry of s lies in [lo, hi]. */
  predicate Within(s: seq<int>, lo: int, hi: int)
  {
    forall k :: 0 <= k < |s| ==> lo <= s[k] <= hi
  }

  /** No value occurs twice. */
  predicate Distinct(s: seq<int>)
  {
    forall a, b :: 0 <= a < b < |s| ==> s[a] != s[b]
  }

  /** s has q entries and uses every level 1..q: a column of a Latin
      hypercube with q runs. */
  predicate Levels(s: seq<int>, q: nat)
  {
    |s| == q && forall v :: 1 <= v <= q ==> v in s
  }

  /** The integers lo..hi in order. */
  function Span(lo: int, hi: int): (r: seq<int>)
    ensures |r| == if hi >= lo then hi - lo + 1 else 0
    ensures forall i :: 0 <= i < |r| ==> r[i] == lo + i
  {
    if hi >= lo then seq(hi - lo + 1, i requires 0 <= i <= hi - lo => lo + i) else []
  }

  lemma {:induction false} ValuesCard(s: seq<int>)
    ensures |set x: int | x in s| <= |s|
  {
    if s != [] {
      var w := s[..|s| - 1];
      ValuesCard(w);
      assert (set x: int | x in s) == (set x: int | x in w) + {s[|s| - 1]};
    }
  }

  lemma {:induction false} DistinctValuesCard(s: seq<int>)
    requires Distinct(s)
    ensures |set x: int | x in s| == |s|
  {
    if s != [] {
      var w := s[..|s| - 1];
      DistinctValuesCard(w);
      assert s[|s| - 1] !in w by {
        forall a | 0 <= a < |w|
          ensures w[a] != s[|s| - 1]
        {
          assert w[a] == s[a];
        }
      }
      assert (set x: int | x in s) == (set x: int | x in w) + {s[|s| - 1]};
    }
  }

  /** The levels 1..q, q of them. */
  lemma LevelSet(q: nat)
    ensures |set x: int | x in Span(1, q)| == q
    ensures forall x :: x in Span(1, q) <==> 1 <= x <= q
  {
    DistinctValuesCard(Span(1, q));
    forall x | 1 <= x <= q
      ensures x in Span(1, q)
    {
      assert Span(1, q)[x - 1] == x;
    }
  }

  /** q distinct values drawn from range(q) include 0. */
  lemma SampleCovers(s: seq<int>, q: nat)
    requires q > 0 && |s| == q && Distinct(s) && Within(s, 0, q - 1)
    ensures 0 in s
  {
    if 0 !in s {
      var values := set x: int | x in s;
      var span := Span(1, q - 1);
      var levels := set x: int | x in span;
      DistinctValuesCard(s);
      LevelSet(q - 1);
      forall x | x in values
        ensures x in levels
      {
        var k :| 0 <= k < |s| && s[k] == x;
      }
      SubsetCard(values, levels);
    }
  }

  lemma SubsetCard(a: set<int>, b: set<int>)
    requires a <= b
    ensures |a| <= |b|
  {
    assert |b - a| == |b| - |a|;
  }

  /** Dropping a repeated entry leaves the values as they were. */
  lemma RepeatCard(s: seq<int>, a: nat, b: nat)
    requires a < b < |s| && s[a] == s[b]
    ensures |set x: int | x in s| < |s|
  {
    var t := s[..b] + s[b + 1..];
    assert (set x: int | x in s) == (set x: int | x in t) by {
      forall x | x in s
        ensures x in t
      {
        var k :| 0 <= k < |s| && s[k] == x;
        if k < b {
          assert t[k] == x;
        } else if k == b {
          assert t[a] == x;
        } else {
          assert t[k - 1] == x;
        }
      }
    }
    ValuesCard(t);
  }

  /** A sequence of q entries that uses every level 1..q uses each exactly
      once. */
  lemma LevelsDistinct(s: seq<int>, q: nat)
    requires Levels(s, q)
    ensures Distinct(s)
  {
    var levels := set x: int | x in Span(1, q);
    var values := set x: int | x in s;
    LevelSet(q);
    assert levels <= values;
    forall a, b | 0 <= a < b < |s|
      ensures s[a] != s[b]
    {
      if s[a] == s[b] {
        RepeatCard(s, a, b);
        SubsetCard(levels, values);
      }
    }
  }

  /** A sequence of q entries that uses every level 1..q uses nothing else:
      with no room left for another value, every entry is a level. */
  lemma LevelsWithin(s: seq<int>, q: nat)
    requires Levels(s, q)
    ensures Within(s, 1, q)
  {
    var levels := set x: int | x in Span(1, q);
    var values := set x: int | x in s;
    LevelSet(q);
    ValuesCard(s);
    assert levels <= values;
    assert |values - levels| == |values| - |levels|;
    assert values == levels;
    forall k | 0 <= k < |s|
      ensures 1 <= s[k] <= q
    {
      assert s[k] in values;
    }
  }

  lemma Conf8Levels()
    ensures Levels(Conf8, 8)
  {
    forall v | 1 <= v <= 8
      ensures v in Conf8
    {
      if v == 1 { assert Conf8[0] == 1; } else
      if v == 2 { assert Conf8[1] == 2; } else
      if v == 3 { assert Conf8[7] == 3; } else
      if v == 4 { assert Conf8[3] == 4; } else
      if v == 5 { assert Conf8[4] == 5; } else
      if v == 6 { assert Conf8[5] == 6; } else
      if v == 7 { assert Conf8[6] == 7; } else
      { assert Conf8[2] == 8; }
    }
  }

  lemma Conf16Levels()
    ensures Levels(Conf16, 16)
  {
    forall v | 1 <= v <= 16
      ensures v in Conf16
    {
      if v == 1 { assert Conf16[2] == 1; } else
      if v == 2 { assert Conf16[3] == 2; } else
      if v == 3 { assert Conf16[13] == 3; } else
      if v == 4 { assert Conf16[0] == 4; } else
      if v == 5 { assert Conf16[6] == 5; } else
      if v == 6 { assert Conf16[10] == 6; } else
      if v == 7 { assert Conf16[11] == 7; } else
      if v == 8 { assert Conf16[7] == 8; } else
      if v == 9 { assert Conf16[9] == 9; } else
      if v == 10 { assert Conf16[15] == 10; } else
      if v == 11 { assert Conf16[12] == 11; } else
      if v == 12 { assert Conf16[8] == 12; } else
      if v == 13 { assert Conf16[5] == 13; } else
      if v == 14 { assert Conf16[1] == 14; } else
      if v == 15 { assert Conf16[14] == 15; } else
      { assert Conf16[4] == 16; }
    }
  }

  lemma Conf32Levels()
    ensures Levels(Conf32, 32)
  {
    forall v | 1 <= v <= 32
      ensures v in Conf32
    {
      if v == 1 { assert Conf32[25] == 1; } else
      if v == 2 { assert Conf32[9] == 2; } else
      if v == 3 { assert Conf32[24] == 3; } else
      if v == 4 { assert Conf32[31] == 4; } else
      if v == 5 { assert Conf32[0] == 5; } else
      if v == 6 { assert Conf32[12] == 6; } else
      if v == 7 { assert Conf32[27] == 7; } else
      if v == 8 { assert Conf32[15] == 8; } else
      if v == 9 { assert Conf32[18] == 9; } else
      if v == 10 { assert Conf32[5] == 10; } else
      if v == 11 { assert Conf32[20] == 11; } else
      if v == 12 { assert Conf32[6] == 12; } else
      if v == 13 { assert Conf32[1] == 13; } else
      if v == 14 { assert Conf32[19] == 14; } else
      if v == 15 { assert Conf32[11] == 15; } else
      if v == 16 { assert Conf32[29] == 16; } else
      if v == 17 { assert Conf32[8] == 17; } else
      if v == 18 { assert Conf32[22] == 18; } else
      if v == 19 { assert Conf32[2] == 19; } else
      if v == 20 { assert Conf32[26] == 20; } else
      if v == 21 { assert Conf32[14] == 21; } else
      if v == 22 { assert Conf32[21] == 22; } else
      if v == 23 { assert Conf32[3] == 23; } else
      if v == 24 { assert Conf32[16] == 24; } else
      if v == 25 { assert Conf32[23] == 25; } else
      if v == 26 { assert Conf32[30] == 26; } else
      if v == 27 { assert Conf32[28] == 27; } else
      if v == 28 { assert Conf32[4] == 28; } else
      if v == 29 { assert Conf32[17] == 29; } else
      if v == 30 { assert Conf32[10] == 30; } else
      if v == 31 { assert Conf32[13] == 31; } else
      { assert Conf32[7] == 32; }
    }
  }

  lemma Conf64Holds1()
    ensures forall v :: 1 <= v <= 32 ==> v in Conf64
  {
    forall v | 1 <= v <= 32
      ensures v in Conf64
    {
      if v == 1 { assert Conf64[35] == 1; } else
      if v == 2 { assert Conf64[16] == 2; } else
      if v == 3 { assert Conf64[3] == 3; } else
      if v == 4 { assert Conf64[14] == 4; } else
      if v == 5 { assert Conf64[49] == 5; } else
      if v == 6 { assert Conf64[48] == 6; } else
      if v == 7 { assert Conf64[0] == 7; } else
      if v == 8 { assert Conf64[1] == 8; } else
      if v == 9 { assert Conf64[31] == 9; } else
      if v == 10 { assert Conf64[36] == 10; } else
      if v == 11 { assert Conf64[62] == 11; } else
      if v == 12 { assert Conf64[58] == 12; } else
      if v == 13 { assert Conf64[38] == 13; } else
      if v == 14 { assert Conf64[55] == 14; } else
      if v == 15 { assert Conf64[40] == 15; } else
      if v == 16 { assert Conf64[52] == 16; } else
      if v == 17 { assert Conf64[61] == 17; } else
      if v == 18 { assert Conf64[24] == 18; } else
      if v == 19 { assert Conf64[7] == 19; } else
      if v == 20 { assert Conf64[12] == 20; } else
      if v == 21 { assert Conf64[29] == 21; } else
      if v == 22 { assert Conf64[42] == 22; } else
      if v == 23 { assert Conf64[21] == 23; } else
      if v == 24 { assert Conf64[20] == 24; } else
      if v == 25 { assert Conf64[41] == 25; } else
      if v == 26 { assert Conf64[10] == 26; } else
      if v == 27 { assert Conf64[33] == 27; } else
      if v == 28 { assert Conf64[53] == 28; } else
      if v == 29 { assert Conf64[6] == 29; } else
      if v == 30 { assert Conf64[19] == 30; } else
      if v == 31 { assert Conf64[18] == 31; } else
      { assert Conf64[50] == 32; }
    }
  }

  lemma Conf64Holds33()
    ensures forall v :: 33 <= v <= 64 ==> v in Conf64
  {
    forall v | 33 <= v <= 64
      ensures v in Conf64
    {
      if v == 33 { assert Conf64[57] == 33; } else
      if v == 34 { assert Conf64[47] == 34; } else
      if v == 35 { assert Conf64[59] == 35; } else
      if v == 36 { assert Conf64[34] == 36; } else
      if v == 37 { assert Conf64[27] == 37; } else
      if v == 38 { assert Conf64[28] == 38; } else
      if v == 39 { assert Conf64[45] == 39; } else
      if v == 40 { assert Conf64[4] == 40; } else
      if v == 41 { assert Conf64[44] == 41; } else
      if v == 42 { assert Conf64[37] == 42; } else
      if v == 43 { assert Conf64[9] == 43; } else
      if v == 44 { assert Conf64[5] == 44; } else
      if v == 45 { assert Conf64[43] == 45; } else
      if v == 46 { assert Conf64[32] == 46; } else
      if v == 47 { assert Conf64[56] == 47; } else
      if v == 48 { assert Conf64[11] == 48; } else
      if v == 49 { assert Conf64[15] == 49; } else
      if v == 50 { assert Conf64[23] == 50; } else
      if v == 51 { assert Conf64[2] == 51; } else
      if v == 52 { assert Conf64[13] == 52; } else
      if v == 53 { assert Conf64[46] == 53; } else
      if v == 54 { assert Conf64[30] == 54; } else
      if v == 55 { assert Conf64[39] == 55; } else
      if v == 56 { assert Conf64[22] == 56; } else
      if v == 57 { assert Conf64[17] == 57; } else
      if v == 58 { assert Conf64[51] == 58; } else
      if v == 59 { assert Conf64[25] == 59; } else
      if v == 60 { assert Conf64[63] == 60; } else
      if v == 61 { assert Conf64[8] == 61; } else
      if v == 62 { assert Conf64[60] == 62; } else
      if v == 63 { assert Conf64[26] == 63; } else
      { assert Conf64[54] == 64; }
    }
  }

  lemma Conf64Levels()
    ensures Levels(Conf64, 64)
  {
    Conf64Holds1();
    Conf64Holds33();
  }

  lemma Conf128Holds1()
    ensures forall v :: 1 <= v <= 16 ==> v in Conf128
  {
    forall v | 1 <= v <= 16
      ensures v in Conf128
    {
      if v == 1 { assert Conf128[83] == 1; } else
      if v == 2 { assert Conf128[99] == 2; } else
      if v == 3 { assert Conf128[66] == 3; } else
      if v == 4 { assert Conf128[27] == 4; } else
      if v == 5 { assert Conf128[123] == 5; } else
      if v == 6 { assert Conf128[39] == 6; } else
      if v == 7 { assert Conf128[55] == 7; } else
      if v == 8 { assert Conf128[111] == 8; } else
      if v == 9 { assert Conf128[0] == 9; } else
      if v == 10 { assert Conf128[14] == 10; } else
      if v == 11 { assert Conf128[67] == 11; } else
      if v == 12 { assert Conf128[84] == 12; } else
      if v == 13 { assert Conf128[15] == 13; } else
      if v == 14 { assert Conf128[88] == 14; } else
      if v == 15 { assert Conf128[119] == 15; } else
      { assert Conf128[23] == 16; }
    }
  }

  lemma Conf128Holds17()
    ensures forall v :: 17 <= v <= 32 ==> v in Conf128
  {
    forall v | 17 <= v <= 32
      ensures v in Conf128
    {
      if v == 17 { assert Conf128[69] == 17; } else
      if v == 18 { assert Conf128[76] == 18; } else
      if v == 19 { assert Conf128[100] == 19; } else
      if v == 20 { assert Conf128[63] == 20; } else
      if v == 21 { assert Conf128[113] == 21; } else
      if v == 22 { assert Conf128[50] == 22; } else
      if v == 23 { assert Conf128[22] == 23; } else
      if v == 24 { assert Conf128[112] == 24; } else
      if v == 25 { assert Conf128[60] == 25; } else
      if v == 26 { assert Conf128[42] == 26; } else
      if v == 27 { assert Conf128[26] == 27; } else
      if v == 28 { assert Conf128[73] == 28; } else
      if v == 29 { assert Conf128[120] == 29; } else
      if v == 30 { assert Conf128[32] == 30; } else
      if v == 31 { assert Conf128[49] == 31; } else
      { assert Conf128[46] == 32; }
    }
  }

  lemma Conf128Holds33()
    ensures forall v :: 33 <= v <= 48 ==> v in Conf128
  {
    forall v | 33 <= v <= 48
      ensures v in Conf128
    {
      if v == 33 { assert Conf128[101] == 33; } else
      if v == 34 { assert Conf128[95] == 34; } else
      if v == 35 { assert Conf128[102] == 35; } else
      if v == 36 { assert Conf128[107] == 36; } else
      if v == 37 { assert Conf128[56] == 37; } else
      if v == 38 { assert Conf128[71] == 38; } else
      if v == 39 { assert Conf128[2] == 39; } else
      if v == 40 { assert Conf128[118] == 40; } else
      if v == 41 { assert Conf128[96] == 41; } else
      if v == 42 { assert Conf128[89] == 42; } else
      if v == 43 { assert Conf128[9] == 43; } else
      if v == 44 { assert Conf128[52] == 44; } else
      if v == 45 { assert Conf128[25] == 45; } else
      if v == 46 { assert Conf128[8] == 46; } else
      if v == 47 { assert Conf128[19] == 47; } else
      { assert Conf128[115] == 48; }
    }
  }

  lemma Conf128Holds49()
    ensures forall v :: 49 <= v <= 64 ==> v in Conf128
  {
    forall v | 49 <= v <= 64
      ensures v in Conf128
    {
      if v == 49 { assert Conf128[37] == 49; } else
      if v == 50 { assert Conf128[78] == 50; } else
      if v == 51 { assert Conf128[104] == 51; } else
      if v == 52 { assert Conf128[65] == 52; } else
      if v == 53 { assert Conf128[35] == 53; } else
      if v == 54 { assert Conf128[21] == 54; } else
      if v == 55 { assert Conf128[44] == 55; } else
      if v == 56 { assert Conf128[57] == 56; } else
      if v == 57 { assert Conf128[48] == 57; } else
      if v == 58 { assert Conf128[64] == 58; } else
      if v == 59 { assert Conf128[74] == 59; } else
      if v == 60 { assert Conf128[81] == 60; } else
      if v == 61 { assert Conf128[85] == 61; } else
      if v == 62 { assert Conf128[4] == 62; } else
      if v == 63 { assert Conf128[17] == 63; } else
      { assert Conf128[90] == 64; }
    }
  }

  lemma Conf128Holds65()
    ensures forall v :: 65 <= v <= 80 ==> v in Conf128
  {
    forall v | 65 <= v <= 80
      ensures v in Conf128
    {
      if v == 65 { assert Conf128[97] == 65; } else
      if v == 66 { assert Conf128[117] == 66; } else
      if v == 67 { assert Conf128[126] == 67; } else
      if v == 68 { assert Conf128[92] == 68; } else
      if v == 69 { assert Conf128[116] == 69; } else
      if v == 70 { assert Conf128[40] == 70; } else
      if v == 71 { assert Conf128[11] == 71; } else
      if v == 72 { assert Conf128[122] == 72; } else
      if v == 73 { assert Conf128[110] == 73; } else
      if v == 74 { assert Conf128[29] == 74; } else
      if v == 75 { assert Conf128[93] == 75; } else
      if v == 76 { assert Conf128[30] == 76; } else
      if v == 77 { assert Conf128[34] == 77; } else
      if v == 78 { assert Conf128[72] == 78; } else
      if v == 79 { assert Conf128[45] == 79; } else
      { assert Conf128[109] == 80; }
    }
  }

  lemma Conf128Holds81()
    ensures forall v :: 81 <= v <= 96 ==> v in Conf128
  {
    forall v | 81 <= v <= 96
      ensures v in Conf128
    {
      if v == 81 { assert Conf128[33] == 81; } else
      if v == 82 { assert Conf128[41] == 82; } else
      if v == 83 { assert Conf128[18] == 83; } else
      if v == 84 { assert Conf128[82] == 84; } else
      if v == 85 { assert Conf128[62] == 85; } else
      if v == 86 { assert Conf128[5] == 86; } else
      if v == 87 { assert Conf128[53] == 87; } else
      if v == 88 { assert Conf128[114] == 88; } else
      if v == 89 { assert Conf128[58] == 89; } else
      if v == 90 { assert Conf128[31] == 90; } else
      if v == 91 { assert Conf128[13] == 91; } else
      if v == 92 { assert Conf128[61] == 92; } else
      if v == 93 { assert Conf128[28] == 93; } else
      if v == 94 { assert Conf128[103] == 94; } else
      if v == 95 { assert Conf128[124] == 95; } else
      { assert Conf128[75] == 96; }
    }
  }

  lemma Conf128Holds97()
    ensures forall v :: 97 <= v <= 112 ==> v in Conf128
  {
    forall v | 97 <= v <= 112
      ensures v in Conf128
    {
      if v == 97 { assert Conf128[77] == 97; } else
      if v == 98 { assert Conf128[86] == 98; } else
      if v == 99 { assert Conf128[98] == 99; } else
      if v == 100 { assert Conf128[20] == 100; } else
      if v == 101 { assert Conf128[51] == 101; } else
      if v == 102 { assert Conf128[127] == 102; } else
      if v == 103 { assert Conf128[10] == 103; } else
      if v == 104 { assert Conf128[38] == 104; } else
      if v == 105 { assert Conf128[91] == 105; } else
      if v == 106 { assert Conf128[68] == 106; } else
      if v == 107 { assert Conf128[3] == 107; } else
      if v == 108 { assert Conf128[1] == 108; } else
      if v == 109 { assert Conf128[47] == 109; } else
      if v == 110 { assert Conf128[6] == 110; } else
      if v == 111 { assert Conf128[94] == 111; } else
      { assert Conf128[80] == 112; }
    }
  }

  lemma Conf128Holds113()
    ensures forall v :: 113 <= v <= 128 ==> v in Conf128
  {
    forall v | 113 <= v <= 128
      ensures v in Conf128
    {
      if v == 113 { assert Conf128[121] == 113; } else
      if v == 114 { assert Conf128[79] == 114; } else
      if v == 115 { assert Conf128[59] == 115; } else
      if v == 116 { assert Conf128[36] == 116; } else
      if v == 117 { assert Conf128[70] == 117; } else
      if v == 118 { assert Conf128[43] == 118; } else
      if v == 119 { assert Conf128[7] == 119; } else
      if v == 120 { assert Conf128[125] == 120; } else
      if v == 121 { assert Conf128[54] == 121; } else
      if v == 122 { assert Conf128[105] == 122; } else
      if v == 123 { assert Conf128[12] == 123; } else
      if v == 124 { assert Conf128[24] == 124; } else
      if v == 125 { assert Conf128[108] == 125; } else
      if v == 126 { assert Conf128[16] == 126; } else
      if v == 127 { assert Conf128[106] == 127; } else
      { assert Conf128[87] == 128; }
    }
  }

  lemma Conf128Levels()
    ensures Levels(Conf128, 128)
  {
    Conf128Holds1();
    Conf128Holds17();
    Conf128Holds33();
    Conf128Holds49();
    Conf128Holds65();
    Conf128Holds81();
    Conf128Holds97();
    Conf128Holds113();
  }

  /** As written, the 64-run table gives level 2 twice (at positions 16 and
      50), so it cannot hold all 64 levels. */
  lemma Conf64AsWrittenRepeats()
    ensures |Conf64AsWritten| == 64
    ensures Conf64AsWritten[16] == Conf64AsWritten[50] == 2
    ensures !Levels(Conf64AsWritten, 64)
  {
    if Levels(Conf64AsWritten, 64) {
      LevelsDistinct(Conf64AsWritten, 64);
    }
  }

  /** As written, the 128-run table holds 141, above its 128 levels, and
      gives level 6 twice. */
  lemma Conf128AsWrittenRepeats()
    ensures |Conf128AsWritten| == 128
    ensures Conf128AsWritten[96] == 141
    ensures Conf128AsWritten[39] == Conf128AsWritten[126] == 6
    ensures !Levels(Conf128AsWritten, 128)
  {
    if Levels(Conf128AsWritten, 128) {
      LevelsWithin(Conf128AsWritten, 128);
    }
  }

  /** For every dimension the corrected configuration is a Latin hypercube
      column of q levels. */
  lemma {:induction false} CdrConf(dim: int)
    requires 2 <= dim <= 29
    ensures var q := ParamsOf(dim).1; Levels(Conf(dim), q) && Within(Conf(dim), 1, q)
  {
    ParamsRanges(dim);
    if dim <= 7 {
      Conf8Levels();
    } else if dim <= 11 {
      Conf16Levels();
    } else if dim <= 16 {
      Conf32Levels();
    } else if dim <= 22 {
      Conf64Levels();
    } else {
      Conf128Levels();
    }
    LevelsWithin(Conf(dim), ParamsOf(dim).1);
  }

  lemma RemovalFrom2(dim: int)
    requires 2 <= dim <= 7
    ensures |Removal(dim)| == 7 - dim && Within(Removal(dim), 1, 7) && Distinct(Removal(dim))
  {
  }

  lemma RemovalFrom8(dim: int)
    requires 8 <= dim <= 11
    ensures |Removal(dim)| == 11 - dim && Within(Removal(dim), 1, 11) && Distinct(Removal(dim))
  {
  }

  lemma RemovalFrom12(dim: int)
    requires 12 <= dim <= 16
    ensures |Removal(dim)| == 16 - dim && Within(Removal(dim), 1, 16) && Distinct(Removal(dim))
  {
  }

  lemma RemovalFrom17(dim: int)
    requires 17 <= dim <= 22
    ensures |Removal(dim)| == 22 - dim && Within(Removal(dim), 1, 22) && Distinct(Removal(dim))
  {
  }

  lemma RemovalFrom23(dim: int)
    requires 23 <= dim <= 29
    ensures |Removal(dim)| == 29 - dim && Within(Removal(dim), 1, 29) && Distinct(Removal(dim))
  {
  }

  /** For every dimension the removal list names r distinct columns among the
      s the order offers, counted from 1. */
  lemma {:induction false} CdrRemoval(dim: int)
    requires 2 <= dim <= 29
    ensures var (m, q, r) := ParamsOf(dim);
      |Removal(dim)| == r && Within(Removal(dim), 1, Columns(m)) && Distinct(Removal(dim))
  {
    ParamsRanges(dim);
    ColumnsTable();
    if dim <= 7 {
      RemovalFrom2(dim);
    } else if dim <= 11 {
      RemovalFrom8(dim);
    } else if dim <= 16 {
      RemovalFrom12(dim);
    } else if dim <= 22 {
      RemovalFrom17(dim);
    } else {
      RemovalFrom23(dim);
    }
  }
}
