// Code/SamplingMethods.py, `NOLH`: the nearly orthogonal Latin hypercube of
// Cioppa (2007) and De Rainville et al. (2012) built from a configuration
// vector. The permutation matrices A_i of the `np.kron` loop are modelled by
// the row-to-column map they perform, the sign matrix S by its carried-sign
// loop, and the result by the stacking [T; 0; -T] scaled into [0, 1].
module Nolh {
  import opened Wrappers
  import opened PyMath
  import Sampling

  // ---------------------------------------------------------------------------
  // The permutation matrices A_i

  /** Row k of A_b has its single 1 in column Flip(k, b): the low b bits of k
      inverted. */
  function Flip(k: nat, b: nat): nat
  {
    if b == 0 then k else 2 * Flip(k / 2, b - 1) + (1 - k % 2)
  }

  /** The column of the 1 in row k of the product of the first j factors of
      the `np.kron` loop that builds A_i from n = m - 1 factors of size 2: the
      factor with 1-based index j is the identity I while j < m - i (that is
      j + i <= n) and the exchange matrix R after. `np.kron(P, X)` sends row
      2a + b to column 2 f(a) + x(b), where f is P's map and x is X's. */
  function KronColumn(j: nat, n: nat, i: nat, k: nat): nat
  {
    if j == 0 then k
    else 2 * KronColumn(j - 1, n, i, k / 2) + (if j + i > n then 1 - k % 2 else k % 2)
  }

  lemma {:induction false} KronPrefix(j: nat, n: nat, i: nat, k: nat)
    requires i <= n
    ensures KronColumn(j, n, i, k) == Flip(k, if j + i > n then j + i - n else 0)
  {
    if j > 0 {
      KronPrefix(j - 1, n, i, k / 2);
      assert KronColumn(j, n, i, k) == 2 * KronColumn(j - 1, n, i, k / 2) + (if j + i > n then 1 - k % 2 else k % 2);
      if j + i > n {
        var b: nat := j + i - n;
        assert (if j - 1 + i > n then j - 1 + i - n else 0) == b - 1;
        assert Flip(k, b) == 2 * Flip(k / 2, b - 1) + (1 - k % 2);
      } else {
        assert Flip(k / 2, 0) == k / 2;
      }
    }
  }

  /** The whole `np.kron` product for A_i inverts the low i bits of the row. */
  lemma KronIsFlip(n: nat, i: nat, k: nat)
    requires i <= n
    ensures KronColumn(n, n, i, k) == Flip(k, i)
  {
    KronPrefix(n, n, i, k);
  }

  lemma {:induction false} FlipRange(k: nat, b: nat, n: nat)
    requires b <= n && k < Pow2(n)
    ensures Flip(k, b) < Pow2(n)
  {
    if b > 0 {
      FlipRange(k / 2, b - 1, n - 1);
    }
  }

  /** Each A_b is its own inverse. */
  lemma {:induction false} FlipInvolution(k: nat, b: nat)
    ensures Flip(Flip(k, b), b) == k
  {
    if b > 0 {
      var f := Flip(k / 2, b - 1);
      assert Flip(k, b) / 2 == f && Flip(k, b) % 2 == 1 - k % 2;
      FlipInvolution(k / 2, b - 1);
    }
  }

  /** `np.dot(A_b, v)` at row k, for a vector v of length 2^(m-1). */
  function Apply(v: seq<int>, m: nat, b: nat, k: nat): (r: int)
    requires 1 <= m && |v| == Pow2(m - 1) && k < |v| && b < m
    ensures Flip(k, b) < |v| && r == v[Flip(k, b)]
  {
    KronIsFlip(m - 1, b, k);
    FlipRange(k, b, m - 1);
    v[KronColumn(m - 1, m - 1, b, k)]
  }

  // ---------------------------------------------------------------------------
  // Column pairs

  /** The pairs (i, j), j from j0 up to m - 1. */
  function PairRow(i: nat, j: nat, m: nat): seq<(nat, nat)>
    decreases m - j
  {
    if j >= m then [] else [(i, j)] + PairRow(i, j + 1, m)
  }

  /** The pairs i < j < m for i from i0 on, in the order of the column loops. */
  function PairsFrom(i: nat, m: nat): seq<(nat, nat)>
    decreases m - i
  {
    if i >= m then [] else PairRow(i, i + 1, m) + PairsFrom(i + 1, m)
  }

  /** The pair of A indices behind each column of M and of S: (0, 0) for the
      configuration itself, then every i < j < m, ordered by i then j. */
  function Pairs(m: nat): (r: seq<(nat, nat)>)
    ensures m >= 1 ==> forall c :: 0 <= c < |r| ==> r[c].0 <= r[c].1 < m
  {
    PairsFromShape(0, m);
    [(0, 0)] + PairsFrom(0, m)
  }

  lemma {:induction false} PairRowShape(i: nat, j: nat, m: nat)
    requires j <= m
    ensures |PairRow(i, j, m)| == m - j
    ensures forall c :: 0 <= c < m - j ==> PairRow(i, j, m)[c] == (i, j + c)
    decreases m - j
  {
    if j < m {
      PairRowShape(i, j + 1, m);
    }
  }

  lemma {:induction false} PairsFromShape(i: nat, m: nat)
    requires i <= m
    ensures |PairsFrom(i, m)| == Sampling.Tri(m - i)
    ensures forall c :: 0 <= c < |PairsFrom(i, m)| ==>
      i <= PairsFrom(i, m)[c].0 < PairsFrom(i, m)[c].1 < m
    decreases m - i
  {
    if i < m {
      PairRowShape(i, i + 1, m);
      PairsFromShape(i + 1, m);
      var row, rest := PairRow(i, i + 1, m), PairsFrom(i + 1, m);
      assert PairsFrom(i, m) == row + rest;
      assert forall c :: |row| <= c < |row| + |rest| ==> (row + rest)[c] == rest[c - |row|];
    }
  }

  /** There are as many pairs as the hypercube has columns; the first m are
      (0, 0), (0, 1), ..., (0, m - 1). */
  lemma PairsShape(m: nat)
    requires m >= 3
    ensures |Pairs(m)| == Sampling.Columns(m)
    ensures Pairs(m)[0] == (0, 0)
    ensures forall c :: 1 <= c < m ==> Pairs(m)[c] == (0, c)
    ensures forall c :: 1 <= c < |Pairs(m)| ==> Pairs(m)[c].0 < Pairs(m)[c].1 < m
  {
    PairsFromShape(0, m);
    PairRowShape(0, 1, m);
    assert PairsFrom(0, m) == PairRow(0, 1, m) + PairsFrom(1, m);
    Sampling.ColumnsPairs(m);
  }

  /** The pairs from i on are the tail of all pairs. */
  lemma {:induction false} PairsSuffix(i: nat, m: nat)
    requires i <= m
    ensures |PairsFrom(i, m)| < |Pairs(m)|
    ensures forall t :: 0 <= t < |PairsFrom(i, m)| ==>
      Pairs(m)[|Pairs(m)| - |PairsFrom(i, m)| + t] == PairsFrom(i, m)[t]
  {
    if i == 0 {
      assert Pairs(m) == [(0, 0)] + PairsFrom(0, m);
    } else {
      PairsSuffix(i - 1, m);
      var row, rest := PairRow(i - 1, i, m), PairsFrom(i, m);
      var all := Pairs(m);
      assert PairsFrom(i - 1, m) == row + rest;
      forall t | 0 <= t < |rest|
        ensures all[|all| - |rest| + t] == rest[t]
      {
        assert rest[t] == (row + rest)[|row| + t];
        assert |all| - |rest| + t == |all| - |PairsFrom(i - 1, m)| + (|row| + t);
      }
    }
  }

  /** The column the loops of `NOLH` fill for the pair (i, j). */
  lemma PairAt(m: nat, i: nat, j: nat)
    requires i < j < m
    ensures |PairsFrom(i, m)| < |Pairs(m)|
    ensures |Pairs(m)| - |PairsFrom(i, m)| + (j - i - 1) < |Pairs(m)|
    ensures Pairs(m)[|Pairs(m)| - |PairsFrom(i, m)| + (j - i - 1)] == (i, j)
    ensures |PairsFrom(i, m)| == (m - i - 1) + |PairsFrom(i + 1, m)|
  {
    PairsSuffix(i, m);
    PairRowShape(i, i + 1, m);
    var row, rest := PairRow(i, i + 1, m), PairsFrom(i + 1, m);
    assert PairsFrom(i, m) == row + rest;
    assert PairsFrom(i, m)[j - i - 1] == row[j - i - 1];
  }

  // ---------------------------------------------------------------------------
  // The matrices M and S

  /** Column p of M at row k: conf permuted by A_i and then by A_j. */
  function MEntry(conf: seq<int>, m: nat, k: nat, p: (nat, nat)): int
    requires 1 <= m && |conf| == Pow2(m - 1) && k < |conf| && p.0 < m && p.1 < m
  {
    FlipRange(k, p.0, m - 1);
    FlipRange(Flip(k, p.0), p.1, m - 1);
    conf[Flip(Flip(k, p.0), p.1)]
  }

  /** +1 for an even count, -1 for an odd one. */
  function Parity(n: int): (r: int)
    ensures r == 1 || r == -1
  {
    if n % 2 == 0 then 1 else -1
  }

  /** Column i of S at row k: column 0 is all ones; in column i >= 1 the sign
      has flipped once at every multiple of 2^(i-1) up to k. */
  function Sign(k: nat, i: nat): (r: int)
    ensures r == 1 || r == -1
  {
    if i == 0 then 1 else Parity(k / Pow2(i - 1) + 1)
  }

  /** Column p of S at row k. */
  function SignOf(k: nat, p: (nat, nat)): (r: int)
    ensures r == 1 || r == -1
  {
    Sign(k, p.0) * Sign(k, p.1)
  }

  lemma {:induction false} Pow2Add(a: nat, b: nat)
    ensures Pow2(a + b) == Pow2(a) * Pow2(b)
  {
    if a > 0 {
      Pow2Add(a - 1, b);
    }
  }

  lemma DivStep(j: nat, d: nat)
    requires j >= 1 && d >= 1
    ensures j % d == 0 ==> (j - 1) / d + 1 == j / d
    ensures j % d != 0 ==> (j - 1) / d == j / d
  {
    var y := j / d;
    assert j == d * y + j % d;
    if j % d == 0 {
      assert d * (y - 1) == d * y - d;
      Sampling.DivUnique(j - 1, d, y - 1);
    } else {
      Sampling.DivUnique(j - 1, d, y);
    }
  }

  /** A column of S has an even number of sign flips, so the carried sign is
      back to +1 when the next column starts. */
  lemma ColumnFlipsEven(m: nat, i: nat)
    requires 1 <= i < m
    ensures Pow2(m - 1) % Pow2(i - 1) == 0
    ensures (Pow2(m - 1) - 1) / Pow2(i - 1) + 1 == Pow2(m - 1) / Pow2(i - 1)
    ensures Parity(Pow2(m - 1) / Pow2(i - 1)) == 1
  {
    var d, t, q := Pow2(i - 1), Pow2(m - i), Pow2(m - 1);
    Pow2Add(i - 1, m - i);
    assert q == d * t;
    Multiple(d, t);
    DivStep(q, d);
    Pow2Even(m - i);
  }

  /** A multiple of d leaves no remainder and divides back. */
  lemma Multiple(d: nat, t: nat)
    requires d >= 1
    ensures (d * t) % d == 0 && (d * t) / d == t
  {
    Sampling.DivUnique(d * t, d, t);
  }

  /** A positive power of two is even. */
  lemma Pow2Even(e: nat)
    requires e >= 1
    ensures Pow2(e) % 2 == 0
  {
    assert Pow2(e) == 2 * Pow2(e - 1);
  }

  /** Fill column i of S: v flips at every row that is a multiple of 2^(i-1). */
  method SignColumn(S: array2<int>, i: nat, m: nat)
    requires 1 <= i < m && S.Length0 == Pow2(m - 1) && i < S.Length1
    modifies S
    ensures forall k, c :: 0 <= k < S.Length0 && 0 <= c < S.Length1 ==>
      S[k, c] == if c == i then Sign(k, i) else old(S[k, c])
  {
    var q := S.Length0;
    var d := Pow2(i - 1);
    var v := 1;
    for j := 0 to q
      invariant v == if j == 0 then 1 else Parity((j - 1) / d + 1)
      invariant forall k, c :: 0 <= k < q && 0 <= c < S.Length1 ==>
        S[k, c] == if c == i && k < j then Sign(k, i) else old(S[k, c])
    {
      if j > 0 {
        DivStep(j, d);
      }
      if j % d == 0 {
        v := -v;
      }
      S[j, i] := v;
    }
    ColumnFlipsEven(m, i);
  }

  /** `S[:, col] = S[:, i] * S[:, j]`, once the first m columns hold their
      signs: column col takes the sign of the pair (i, j). */
  method ProductColumn(S: array2<int>, m: nat, i: nat, j: nat, col: nat)
    requires i < j < m <= col < S.Length1
    requires forall k, c :: 0 <= k < S.Length0 && 0 <= c < m ==> S[k, c] == Sign(k, c)
    modifies S
    ensures forall k, c :: 0 <= k < S.Length0 && 0 <= c < S.Length1 && c != col ==> S[k, c] == old(S[k, c])
    ensures forall k :: 0 <= k < S.Length0 ==> S[k, col] == SignOf(k, (i, j))
  {
    forall k | 0 <= k < S.Length0 {
      S[k, col] := S[k, i] * S[k, j];
    }
  }

  /** The sign matrix S of `NOLH`: ones, then the carried-sign columns 1 to
      m - 1, then the product of columns i and j for every 1 <= i < j < m. */
  method SignMatrix(m: nat) returns (S: array2<int>)
    requires m >= 3
    ensures fresh(S) && S.Length0 == Pow2(m - 1) && S.Length1 == |Pairs(m)|
    ensures forall k, c :: 0 <= k < S.Length0 && 0 <= c < S.Length1 ==>
      S[k, c] == SignOf(k, Pairs(m)[c])
  {
    S := SignColumns(m);
    ProductColumns(S, m);
  }

  /** A new matrix of ones with the carried-sign columns 1 to m - 1 filled. */
  method SignColumns(m: nat) returns (S: array2<int>)
    requires m >= 3
    ensures fresh(S) && S.Length0 == Pow2(m - 1) && m <= S.Length1 == |Pairs(m)|
    ensures forall k, c :: 0 <= k < S.Length0 && 0 <= c < S.Length1 ==>
      S[k, c] == if c < m then Sign(k, c) else 1
  {
    PairsShape(m);
    Sampling.ColumnsPairs(m);
    S := new int[Pow2(m - 1), |Pairs(m)|]((_, _) => 1);
    for i := 1 to m
      invariant forall k, c :: 0 <= k < S.Length0 && 0 <= c < S.Length1 ==>
        S[k, c] == if c < i then Sign(k, c) else 1
    {
      SignColumn(S, i, m);
    }
  }

  /** The product columns of S, for every 1 <= i < j < m in the order of
      the column loops, once the first m columns are in place. */
  method ProductColumns(S: array2<int>, m: nat)
    requires 3 <= m <= S.Length1 == |Pairs(m)|
    requires forall k, c :: 0 <= k < S.Length0 && 0 <= c < m ==> S[k, c] == Sign(k, c)
    modifies S
    ensures forall k, c :: 0 <= k < S.Length0 && 0 <= c < S.Length1 ==>
      S[k, c] == SignOf(k, Pairs(m)[c])
  {
    PairsShape(m);
    var col := m;
    PairAt(m, 0, 1);
    for i := 1 to m - 1
      invariant m <= col == |Pairs(m)| - |PairsFrom(i, m)| <= |Pairs(m)|
      invariant forall k, c :: 0 <= k < S.Length0 && 0 <= c < m ==> S[k, c] == Sign(k, c)
      invariant forall k, c :: 0 <= k < S.Length0 && 0 <= c < col ==> S[k, c] == SignOf(k, Pairs(m)[c])
    {
      col := ProductRow(S, m, i, col);
    }
    assert PairsFrom(m - 1, m) == [];
  }

  /** The inner loop of the product columns for one i: the columns of the
      pairs (i, j), i < j < m, from column col0 on. */
  method ProductRow(S: array2<int>, m: nat, i: nat, col0: nat) returns (col: nat)
    requires 1 <= i < m - 1 && 3 <= m <= S.Length1 == |Pairs(m)|
    requires m <= col0 == |Pairs(m)| - |PairsFrom(i, m)| <= |Pairs(m)|
    requires forall k, c :: 0 <= k < S.Length0 && 0 <= c < m ==> S[k, c] == Sign(k, c)
    requires forall k, c :: 0 <= k < S.Length0 && 0 <= c < col0 ==> S[k, c] == SignOf(k, Pairs(m)[c])
    modifies S
    ensures m <= col == |Pairs(m)| - |PairsFrom(i + 1, m)| <= |Pairs(m)|
    ensures forall k, c :: 0 <= k < S.Length0 && 0 <= c < m ==> S[k, c] == Sign(k, c)
    ensures forall k, c :: 0 <= k < S.Length0 && 0 <= c < col ==> S[k, c] == SignOf(k, Pairs(m)[c])
  {
    col := col0;
    for j := i + 1 to m
      invariant col == col0 + (j - i - 1) <= |Pairs(m)|
      invariant forall k, c :: 0 <= k < S.Length0 && 0 <= c < m ==> S[k, c] == Sign(k, c)
      invariant forall k, c :: 0 <= k < S.Length0 && 0 <= c < col ==> S[k, c] == SignOf(k, Pairs(m)[c])
    {
      PairAt(m, i, j);
      assert Pairs(m)[col] == (i, j);
      label Before:
      ProductColumn(S, m, i, j, col);
      forall k, c | 0 <= k < S.Length0 && 0 <= c <= col
        ensures S[k, c] == SignOf(k, Pairs(m)[c])
      {
        if c < col {
          assert S[k, c] == old@Before(S[k, c]);
        }
      }
      col := col + 1;
    }
    PairAt(m, i, m - 1);
  }

  /** `M[:, col] = np.dot(A_j, conf)` when i is 0, and
      `np.dot(A_i, np.dot(A_j, conf))` otherwise. */
  method PermutedColumn(M: array2<int>, conf: seq<int>, m: nat, i: nat, j: nat, col: nat)
    requires 1 <= m && |conf| == Pow2(m - 1) && M.Length0 == |conf| && col < M.Length1 && i < j < m
    modifies M
    ensures forall k, c :: 0 <= k < M.Length0 && 0 <= c < M.Length1 ==>
      M[k, c] == if c == col then MEntry(conf, m, k, (i, j)) else old(M[k, c])
  {
    var q := |conf|;
    if i == 0 {
      forall k | 0 <= k < q {
        M[k, col] := Apply(conf, m, j, k);
      }
    } else {
      var permuted := seq(q, t requires 0 <= t < q => Apply(conf, m, j, t));
      forall k | 0 <= k < q {
        M[k, col] := Apply(permuted, m, i, k);
      }
    }
  }

  /** The matrix M of `NOLH`: conf, then one permuted copy of conf for every
      i < j < m. */
  method ConfMatrix(conf: seq<int>, m: nat) returns (M: array2<int>)
    requires m >= 3 && |conf| == Pow2(m - 1)
    ensures fresh(M) && M.Length0 == |conf| && M.Length1 == |Pairs(m)|
    ensures forall k, c :: 0 <= k < M.Length0 && 0 <= c < M.Length1 ==>
      M[k, c] == MEntry(conf, m, k, Pairs(m)[c])
  {
    PairsShape(m);
    var q := |conf|;
    var s := |Pairs(m)|;
    M := new int[q, s];
    forall k | 0 <= k < q {
      M[k, 0] := conf[k];
    }
    var col := 1;
    for i := 0 to m - 1
      invariant col == |Pairs(m)| - |PairsFrom(i, m)| <= |Pairs(m)|
      invariant forall k, c :: 0 <= k < q && 0 <= c < col ==> M[k, c] == MEntry(conf, m, k, Pairs(m)[c])
    {
      for j := i + 1 to m
        invariant col == |Pairs(m)| - |PairsFrom(i, m)| + (j - i - 1) <= |Pairs(m)|
        invariant forall k, c :: 0 <= k < q && 0 <= c < col ==> M[k, c] == MEntry(conf, m, k, Pairs(m)[c])
      {
        PairAt(m, i, j);
        PermutedColumn(M, conf, m, i, j, col);
        col := col + 1;
      }
      PairAt(m, i, m - 1);
    }
    assert PairsFrom(m - 1, m) == [];
  }

  // ---------------------------------------------------------------------------
  // The hypercube

  /** log2 n when n is a power of two. */
  function Log2(n: nat): (r: Option<nat>)
    ensures r.Some? ==> Pow2(r.value) == n
  {
    if n == 1 then Some(0)
    else if n >= 2 && n % 2 == 0 then
      match Log2(n / 2)
      case Some(k) => Some(k + 1)
      case None => None
    else None
  }

  lemma {:induction false} Log2OfPow2(k: nat)
    ensures Log2(Pow2(k)) == Some(k)
  {
    if k > 0 {
      Log2OfPow2(k - 1);
      assert Pow2(k) / 2 == Pow2(k - 1);
    }
  }

  /** The order m = log2 q + 1 for a configuration of length q, when the
      factorials of m - 1 and m - 3 exist, that is when q is 2^k with k >= 2. */
  function Order(q: nat): (r: Option<nat>)
    ensures r.Some? ==> r.value >= 3 && q == Pow2(r.value - 1)
  {
    match Log2(q)
    case Some(k) => if k >= 2 then Some(k + 1) else None
    case None => None
  }

  /** v moved up by one. */
  function Shift(v: seq<int>): (r: seq<int>)
    ensures |r| == |v| && forall t :: 0 <= t < |v| ==> r[t] == v[t] + 1
  {
    seq(|v|, t requires 0 <= t < |v| => v[t] + 1)
  }

  /** The configuration and removal vectors are moved from [0, q - 1] to
      [1, q] when the configuration holds a 0. */
  function Normalised(conf: seq<int>, v: seq<int>): (r: seq<int>)
    ensures |r| == |v|
  {
    if 0 in conf then Shift(v) else v
  }

  /** Every column number (1-based) of remove is a valid numpy index after
      subtracting 1. */
  predicate ValidRemoval(remove: seq<int>, s: nat)
  {
    forall t :: 0 <= t < |remove| ==> ValidIndex(remove[t] - 1, s)
  }

  /** The column positions `keep[np.array(remove) - 1] = False` clears. */
  function Positions(remove: seq<int>, s: nat): (r: seq<nat>)
    requires ValidRemoval(remove, s)
    ensures |r| == |remove| && forall t :: 0 <= t < |r| ==> r[t] < s
  {
    seq(|remove|, t requires 0 <= t < |remove| => PyIdx(remove[t] - 1, s))
  }

  /** The columns below n whose position is not removed, in order. */
  function KeptUpTo(n: nat, removed: set<nat>): (r: seq<nat>)
    ensures forall c :: 0 <= c < |r| ==> r[c] < n && r[c] !in removed
    ensures forall c, d :: 0 <= c < d < |r| ==> r[c] < r[d]
  {
    if n == 0 then []
    else KeptUpTo(n - 1, removed) + (if n - 1 in removed then [] else [n - 1])
  }

  /** The columns `keep` selects. */
  function Kept(remove: seq<int>, s: nat): (r: seq<nat>)
    requires ValidRemoval(remove, s)
    ensures forall c :: 0 <= c < |r| ==> r[c] < s
  {
    KeptUpTo(s, set x: nat | x in Positions(remove, s))
  }

  /** T = M * S at row k, column p. */
  function TEntry(conf: seq<int>, m: nat, k: nat, p: (nat, nat)): int
    requires 1 <= m && |conf| == Pow2(m - 1) && k < |conf| && p.0 < m && p.1 < m
  {
    MEntry(conf, m, k, p) * SignOf(k, p)
  }

  /** The matrix T, q rows of s columns. */
  function TMatrix(conf: seq<int>, m: nat): (r: seq<seq<int>>)
    requires m >= 3 && |conf| == Pow2(m - 1)
    ensures |r| == |conf| && forall k :: 0 <= k < |r| ==> |r[k]| == Sampling.Columns(m)
  {
    PairsShape(m);
    seq(|conf|, k requires 0 <= k < |conf| =>
      seq(|Pairs(m)|, c requires 0 <= c < |Pairs(m)| => TEntry(conf, m, k, Pairs(m)[c])))
  }

  /** With conf in [1, q], T lies in [-q, q]. */
  lemma TMatrixBounded(conf: seq<int>, m: nat)
    requires m >= 3 && |conf| == Pow2(m - 1) && Sampling.Within(conf, 1, |conf|)
    ensures forall k, c :: 0 <= k < |conf| && 0 <= c < Sampling.Columns(m) ==>
      -(|conf| as int) <= TMatrix(conf, m)[k][c] <= |conf|
  {
    PairsShape(m);
    forall k, c | 0 <= k < |conf| && 0 <= c < Sampling.Columns(m)
      ensures -(|conf| as int) <= TMatrix(conf, m)[k][c] <= |conf|
    {
      var p := Pairs(m)[c];
      FlipRange(k, p.0, m - 1);
      FlipRange(Flip(k, p.0), p.1, m - 1);
      assert TMatrix(conf, m)[k][c] == conf[Flip(Flip(k, p.0), p.1)] * SignOf(k, p);
    }
  }

  /** A value x of the stacked matrix mapped to (x + q) / (2q). */
  function Level(x: int, q: nat): real
    requires q > 0
  {
    (x + q) as real / (2 * q) as real
  }

  lemma LevelMiddle(q: nat)
    requires q > 0
    ensures Level(0, q) == 0.5
  {
    var d := (2 * q) as real;
    DivOfMultiple(q as real, d, 0.5);
  }

  lemma DivOfMultiple(u: real, d: real, c: real)
    requires d > 0.0 && u == c * d
    ensures u / d == c
  {
  }

  /** x and -x map to values summing to 1. */
  lemma LevelMirror(x: int, q: nat)
    requires q > 0
    ensures Level(x, q) + Level(-x, q) == 1.0
  {
    var d := (2 * q) as real;
    var u, v := (x + q) as real, (-x + q) as real;
    assert u + v == d;
    DivSum(u, v, d);
  }

  lemma DivSum(u: real, v: real, d: real)
    requires d > 0.0
    ensures u / d + v / d == (u + v) / d
  {
  }

  /** [-q, q] maps into [0, 1]. */
  lemma LevelRange(x: int, q: nat)
    requires q > 0 && -(q as int) <= x <= q
    ensures 0.0 <= Level(x, q) <= 1.0
  {
    var d := (2 * q) as real;
    var u := (x + q) as real;
    assert 0.0 <= u <= d;
    DivMonotone(u, d);
  }

  lemma DivMonotone(u: real, d: real)
    requires d > 0.0 && 0.0 <= u <= d
    ensures 0.0 <= u / d <= 1.0
  {
  }

  /** Row t of [T; 0; -T], at column c. */
  function Stacked(T: seq<seq<int>>, t: nat, c: nat): int
    requires t <= 2 * |T| && forall k :: 0 <= k < |T| ==> c < |T[k]|
  {
    if t < |T| then T[t][c] else if t == |T| then 0 else -T[t - |T| - 1][c]
  }

  /** The kept columns of [T; 0; -T], each value mapped into [0, 1]. */
  function Assemble(T: seq<seq<int>>, kept: seq<nat>, s: nat): (r: seq<seq<real>>)
    requires |T| > 0 && forall k :: 0 <= k < |T| ==> |T[k]| == s
    requires forall c :: 0 <= c < |kept| ==> kept[c] < s
    ensures |r| == 2 * |T| + 1 && forall t :: 0 <= t < |r| ==> |r[t]| == |kept|
  {
    seq(2 * |T| + 1, t requires 0 <= t < 2 * |T| + 1 =>
      seq(|kept|, c requires 0 <= c < |kept| => Level(Stacked(T, t, kept[c]), |T|)))
  }

  /** `NOLH(conf, remove)`; an empty remove stands for None. */
  function NolhOf(conf: seq<int>, remove: seq<int>): (r: Result<seq<seq<real>>>)
    ensures r.Ok? ==> |r.value| == 2 * |conf| + 1
  {
    match Order(|conf|)
    case None => Err(ValueError("factorial() not defined for this configuration length"))
    case Some(m) =>
      var s := Sampling.Columns(m);
      var remove' := Normalised(conf, remove);
      if !ValidRemoval(remove', s) then Err(IndexError("column to remove out of range"))
      else Ok(Assemble(TMatrix(Normalised(conf, conf), m), Kept(remove', s), s))
  }

  /** `NOLH` as its loops compute it. */
  method Nolh(conf: seq<int>, remove: seq<int>) returns (r: Result<seq<seq<real>>>)
    ensures r == NolhOf(conf, remove)
  {
    var conf', remove' := conf, remove;
    if 0 in conf {
      conf' := Shift(conf);
      remove' := Shift(remove);
    }
    var q := |conf'|;
    var order := Order(q);
    if order.None? {
      return Err(ValueError("factorial() not defined for this configuration length"));
    }
    var m := order.value;
    var s := Sampling.Columns(m);
    PairsShape(m);
    var M := ConfMatrix(conf', m);
    var S := SignMatrix(m);
    var T := seq(q, k requires 0 <= k < q reads M, S =>
      seq(s, c requires 0 <= c < s reads M, S => M[k, c] * S[k, c]));
    assert T == TMatrix(conf', m) by {
      forall k | 0 <= k < q
        ensures T[k] == TMatrix(conf', m)[k]
      {
        assert forall c :: 0 <= c < s ==> T[k][c] == TMatrix(conf', m)[k][c];
      }
    }
    if !ValidRemoval(remove', s) {
      return Err(IndexError("column to remove out of range"));
    }
    return Ok(Assemble(T, Kept(remove', s), s));
  }

  // ---------------------------------------------------------------------------
  // Properties

  /** `NOLH` fails with a ValueError exactly when the configuration length is
      not 2^k with k >= 2, and otherwise with an IndexError exactly when a
      column to remove is out of range. */
  lemma NolhErrors(conf: seq<int>, remove: seq<int>)
    ensures Order(|conf|).None? <==> NolhOf(conf, remove).Err? && NolhOf(conf, remove).error.ValueError?
    ensures Order(|conf|).Some? ==>
      (NolhOf(conf, remove).Err? <==>
        !ValidRemoval(Normalised(conf, remove), Sampling.Columns(Order(|conf|).value)))
    ensures NolhOf(conf, remove).Err? && !NolhOf(conf, remove).error.ValueError? ==>
      NolhOf(conf, remove).error.IndexError?
  {
  }

  /** Where `NOLH` succeeds, its result is the assembled design. */
  lemma NolhDesign(conf: seq<int>, remove: seq<int>)
    requires NolhOf(conf, remove).Ok?
    ensures var m := Order(|conf|).value; var s := Sampling.Columns(m);
      ValidRemoval(Normalised(conf, remove), s)
      && NolhOf(conf, remove).value
         == Assemble(TMatrix(Normalised(conf, conf), m), Kept(Normalised(conf, remove), s), s)
  {
  }

  /** The middle row of [T; 0; -T] maps to 0.5 everywhere. */
  lemma AssembleMiddle(T: seq<seq<int>>, kept: seq<nat>, s: nat)
    requires |T| > 0 && forall k :: 0 <= k < |T| ==> |T[k]| == s
    requires forall c :: 0 <= c < |kept| ==> kept[c] < s
    ensures forall c :: 0 <= c < |kept| ==> Assemble(T, kept, s)[|T|][c] == 0.5
  {
    LevelMiddle(|T|);
  }

  /** Rows k and q + 1 + k of the design sum to 1. */
  lemma AssembleFoldover(T: seq<seq<int>>, kept: seq<nat>, s: nat, d: seq<seq<real>>, q: nat, k: nat, c: nat)
    requires |T| == q > 0 && forall k :: 0 <= k < |T| ==> |T[k]| == s
    requires forall c :: 0 <= c < |kept| ==> kept[c] < s
    requires d == Assemble(T, kept, s) && k < q && c < |kept|
    ensures q + 1 + k < |d| && c < |d[k]| && c < |d[q + 1 + k]|
    ensures d[k][c] + d[q + 1 + k][c] == 1.0
  {
    LevelMirror(T[k][kept[c]], |T|);
  }

  /** A matrix T within [-q, q] gives a design within [0, 1]. */
  lemma AssembleWithin(T: seq<seq<int>>, kept: seq<nat>, s: nat)
    requires |T| > 0 && forall k :: 0 <= k < |T| ==> |T[k]| == s
    requires forall c :: 0 <= c < |kept| ==> kept[c] < s
    requires forall k, c :: 0 <= k < |T| && 0 <= c < s ==> -(|T| as int) <= T[k][c] <= |T|
    ensures forall t, c :: 0 <= t < 2 * |T| + 1 && 0 <= c < |kept| ==>
      0.0 <= Assemble(T, kept, s)[t][c] <= 1.0
  {
    forall t, c | 0 <= t < 2 * |T| + 1 && 0 <= c < |kept|
      ensures 0.0 <= Assemble(T, kept, s)[t][c] <= 1.0
    {
      LevelRange(Stacked(T, t, kept[c]), |T|);
    }
  }

  /** The middle row of the hypercube is all 0.5. */
  lemma NolhMiddleRow(conf: seq<int>, remove: seq<int>)
    requires NolhOf(conf, remove).Ok?
    ensures forall c :: 0 <= c < |NolhOf(conf, remove).value[|conf|]| ==>
      NolhOf(conf, remove).value[|conf|][c] == 0.5
  {
    NolhDesign(conf, remove);
    var m := Order(|conf|).value;
    var s := Sampling.Columns(m);
    AssembleMiddle(TMatrix(Normalised(conf, conf), m), Kept(Normalised(conf, remove), s), s);
  }

  /** The pieces NolhOf assembles its design from, as opaque values. */
  lemma NolhParts(conf: seq<int>, remove: seq<int>) returns (T: seq<seq<int>>, kept: seq<nat>, s: nat)
    requires NolhOf(conf, remove).Ok?
    ensures |T| == |conf| > 0 && forall k :: 0 <= k < |T| ==> |T[k]| == s
    ensures forall c :: 0 <= c < |kept| ==> kept[c] < s
    ensures NolhOf(conf, remove).value == Assemble(T, kept, s)
  {
    NolhDesign(conf, remove);
    var m := Order(|conf|).value;
    s := Sampling.Columns(m);
    T, kept := TMatrix(Normalised(conf, conf), m), Kept(Normalised(conf, remove), s);
  }

  /** Row k and row q + 1 + k are mirror images: their entries sum to 1. */
  lemma NolhFoldover(conf: seq<int>, remove: seq<int>, design: seq<seq<real>>, k: nat, c: nat)
    requires NolhOf(conf, remove) == Ok(design)
    requires k < |conf| && c < |design[k]|
    ensures |conf| + 1 + k < |design| && c < |design[|conf| + 1 + k]|
    ensures design[k][c] + design[|conf| + 1 + k][c] == 1.0
  {
    var T, kept, s := NolhParts(conf, remove);
    AssembleFoldover(T, kept, s, design, |conf|, k, c);
  }

  /** With a configuration in [1, q] (or, when it holds a 0, in [0, q - 1])
      every entry lies in [0, 1]. */
  lemma NolhWithinUnit(conf: seq<int>, remove: seq<int>)
    requires NolhOf(conf, remove).Ok?
    requires Sampling.Within(conf, 1, |conf|) || Sampling.Within(conf, 0, |conf| - 1)
    ensures forall t, c :: 0 <= t < |NolhOf(conf, remove).value| && 0 <= c < |NolhOf(conf, remove).value[t]| ==>
      0.0 <= NolhOf(conf, remove).value[t][c] <= 1.0
  {
    NolhDesign(conf, remove);
    var m := Order(|conf|).value;
    var s := Sampling.Columns(m);
    var conf' := Normalised(conf, conf);
    if 0 in conf {
      var z :| 0 <= z < |conf| && conf[z] == 0;
      assert !Sampling.Within(conf, 1, |conf|);
    }
    assert Sampling.Within(conf', 1, |conf|);
    TMatrixBounded(conf', m);
    AssembleWithin(TMatrix(conf', m), Kept(Normalised(conf, remove), s), s);
  }

  lemma {:induction false} KeptIgnoresAbove(n: nat, a: set<nat>, b: set<nat>)
    requires forall c :: 0 <= c < n ==> (c in a <==> c in b)
    ensures KeptUpTo(n, a) == KeptUpTo(n, b)
  {
    if n > 0 {
      KeptIgnoresAbove(n - 1, a, b);
    }
  }

  /** Removing a set of columns below n keeps the other n - |removed|. */
  lemma {:induction false} KeptCount(n: nat, removed: set<nat>)
    requires forall x :: x in removed ==> x < n
    ensures |KeptUpTo(n, removed)| == n - |removed|
  {
    if n > 0 {
      var below := removed - {n - 1};
      KeptIgnoresAbove(n - 1, removed, below);
      KeptCount(n - 1, below);
      if n - 1 in removed {
        assert removed == below + {n - 1};
      } else {
        assert removed == below;
      }
    }
  }

  /** A sequence without repetitions has as many distinct elements as entries. */
  lemma {:induction false} DistinctCard(v: seq<nat>)
    requires forall a, b :: 0 <= a < b < |v| ==> v[a] != v[b]
    ensures |set x: nat | x in v| == |v|
  {
    if |v| > 0 {
      var w, last := v[..|v| - 1], v[|v| - 1];
      DistinctCard(w);
      assert v == w + [last];
      assert last !in (set x: nat | x in w) by {
        forall a | 0 <= a < |w|
          ensures w[a] != last
        {
          assert w[a] == v[a];
        }
      }
      assert (set x: nat | x in v) == (set x: nat | x in w) + {last};
    }
  }

  /** Removing columns at distinct positions leaves s - len(remove) columns. */
  lemma KeptColumns(remove: seq<int>, s: nat)
    requires ValidRemoval(remove, s)
    requires forall a, b :: 0 <= a < b < |remove| ==> Positions(remove, s)[a] != Positions(remove, s)[b]
    ensures |Kept(remove, s)| == s - |remove|
  {
    var positions := Positions(remove, s);
    DistinctCard(positions);
    KeptCount(s, set x: nat | x in positions);
  }

  /** The hypercube has s - len(remove) columns when the removed positions are
      all different. */
  lemma NolhColumns(conf: seq<int>, remove: seq<int>)
    requires NolhOf(conf, remove).Ok?
    requires var s := Sampling.Columns(Order(|conf|).value);
      ValidRemoval(Normalised(conf, remove), s)
      && forall a, b :: 0 <= a < b < |remove| ==>
        Positions(Normalised(conf, remove), s)[a] != Positions(Normalised(conf, remove), s)[b]
    ensures forall t :: 0 <= t < |NolhOf(conf, remove).value| ==>
      |NolhOf(conf, remove).value[t]| == Sampling.Columns(Order(|conf|).value) - |remove|
  {
    NolhDesign(conf, remove);
    KeptColumns(Normalised(conf, remove), Sampling.Columns(Order(|conf|).value));
  }

  lemma {:induction false} KeptFirst(n: nat, removed: set<nat>)
    requires n > 0 && 0 !in removed
    ensures |KeptUpTo(n, removed)| > 0 && KeptUpTo(n, removed)[0] == 0
  {
    if n > 1 {
      KeptFirst(n - 1, removed);
    }
  }

  /** Column 0 of T, for the pair (0, 0), is the configuration itself. */
  lemma TColumnZero(conf: seq<int>, m: nat, k: nat)
    requires m >= 3 && |conf| == Pow2(m - 1) && k < |conf|
    ensures Sampling.Columns(m) > 0 && TMatrix(conf, m)[k][0] == conf[k]
  {
    PairsShape(m);
    assert Pairs(m)[0] == (0, 0);
    assert SignOf(k, (0, 0)) == 1;
  }

  /** When column 1 is kept, the first column of the first q rows is the
      (normalised) configuration mapped into [0, 1]. */
  lemma NolhFirstColumn(conf: seq<int>, remove: seq<int>, k: nat)
    requires NolhOf(conf, remove).Ok? && Order(|conf|).Some? && k < |conf|
    requires var s := Sampling.Columns(Order(|conf|).value);
      ValidRemoval(Normalised(conf, remove), s) && 0 !in Positions(Normalised(conf, remove), s)
    ensures |NolhOf(conf, remove).value[k]| > 0
    ensures NolhOf(conf, remove).value[k][0] == Level(Normalised(conf, conf)[k], |conf|)
  {
    NolhDesign(conf, remove);
    var m := Order(|conf|).value;
    var s := Sampling.Columns(m);
    var positions := Positions(Normalised(conf, remove), s);
    TColumnZero(Normalised(conf, conf), m, k);
    KeptFirst(s, set x: nat | x in positions);
  }

  /** A value above q maps above 1. */
  lemma LevelAbove(x: int, q: nat)
    requires q > 0 && x > q
    ensures Level(x, q) > 1.0
  {
    var d := (2 * q) as real;
    var u := (x + q) as real;
    assert u > d;
    DivAbove(u, d);
  }

  lemma DivAbove(u: real, d: real)
    requires d > 0.0 && u > d
    ensures u / d > 1.0
  {
  }

  /** A design of 2q + 1 rows of d values in [0, 1], with 0.5 throughout the
      middle row and rows k and q + 1 + k mirrored about 0.5. */
  predicate UnitHypercube(q: nat, d: nat, design: seq<seq<real>>)
  {
    |design| == 2 * q + 1
    && (forall t :: 0 <= t < |design| ==> |design[t]| == d)
    && (forall t, c :: 0 <= t < |design| && 0 <= c < |design[t]| ==> 0.0 <= design[t][c] <= 1.0)
    && (forall c :: 0 <= c < d ==> design[q][c] == 0.5)
    && (forall k, j, c :: 0 <= k < q && j == q + 1 + k && 0 <= c < d ==> design[k][c] + design[j][c] == 1.0)
  }

  /** `NOLH` with d columns and a configuration in [1, q] (or [0, q - 1])
      builds a unit hypercube. */
  lemma NolhHypercube(conf: seq<int>, remove: seq<int>, d: nat)
    requires NolhOf(conf, remove).Ok?
    requires Sampling.Within(conf, 1, |conf|) || Sampling.Within(conf, 0, |conf| - 1)
    requires forall t :: 0 <= t < |NolhOf(conf, remove).value| ==> |NolhOf(conf, remove).value[t]| == d
    ensures UnitHypercube(|conf|, d, NolhOf(conf, remove).value)
  {
    var design := NolhOf(conf, remove).value;
    NolhWithinUnit(conf, remove);
    NolhMiddleRow(conf, remove);
    forall k, j, c | 0 <= k < |conf| && j == |conf| + 1 + k && 0 <= c < d
      ensures design[k][c] + design[j][c] == 1.0
    {
      NolhFoldover(conf, remove, design, k, c);
    }
  }
}
