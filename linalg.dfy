/** Vectors, matrices and the numpy reductions the analysis is built from
    (sum, dot product, column selection, fancy indexing, division by the
    total), idealised to exact reals. */
module LinAlg {

  /** A 1-D float array, idealised to exact reals. */
  type Vector = seq<real>

  /** A 2-D float array as a sequence of rows. */
  type Matrix = seq<seq<real>>

  /** m has the given number of rows, each of the given width. */
  predicate IsMatrix(m: Matrix, rows: nat, cols: nat) {
    |m| == rows && forall i :: 0 <= i < rows ==> |m[i]| == cols
  }

  /** a * b, with the sign rules of a product. */
  function Product(a: real, b: real): (r: real)
    ensures a > 0.0 && b > 0.0 ==> r > 0.0
    ensures a < 0.0 && b < 0.0 ==> r > 0.0
    ensures a == 0.0 || b == 0.0 ==> r == 0.0
  {
    a * b
  }

  /** x ** 2: never negative, and zero only at zero. */
  function Square(x: real): (r: real)
    ensures r >= 0.0
    ensures r == 0.0 <==> x == 0.0
  {
    Product(x, x)
  }

  /** abs(x) */
  function Abs(x: real): (r: real)
    ensures r >= 0.0 && (r == x || r == -x)
  {
    if x < 0.0 then -x else x
  }

  /** s.sum() */
  function Sum(s: Vector): real {
    if s == [] then 0.0 else s[0] + Sum(s[1..])
  }

  /** u @ v for two vectors of the same length. */
  function Dot(u: Vector, v: Vector): real
    requires |u| == |v|
  {
    if u == [] then 0.0 else u[0] * v[0] + Dot(u[1..], v[1..])
  }

  /** m[:, j] */
  function Column(m: Matrix, j: nat): Vector
    requires forall i :: 0 <= i < |m| ==> j < |m[i]|
  {
    seq(|m|, i requires 0 <= i < |m| => m[i][j])
  }

  /** x @ w for a row vector x and a |x|-by-cols matrix w (cols is explicit
      because a matrix without rows does not carry its width). */
  function VecMat(x: Vector, w: Matrix, cols: nat): Vector
    requires IsMatrix(w, |x|, cols)
  {
    seq(cols, c requires 0 <= c < cols => Dot(x, Column(w, c)))
  }

  /** w @ y for a matrix w whose rows have the length of y. */
  function MatVec(w: Matrix, y: Vector): Vector
    requires forall r :: 0 <= r < |w| ==> |w[r]| == |y|
  {
    seq(|w|, r requires 0 <= r < |w| => Dot(w[r], y))
  }

  /** a * u + v */
  function AddScaled(a: real, u: Vector, v: Vector): (r: Vector)
    requires |u| == |v|
    ensures |r| == |u|
  {
    seq(|u|, c requires 0 <= c < |u| => a * u[c] + v[c])
  }

  /** Every entry of s is at least the entry after it. */
  predicate NonIncreasing(s: Vector) {
    forall i, j :: 0 <= i < j < |s| ==> s[i] >= s[j]
  }

  /** s / s.sum(): each entry's share of the total. numpy divides even when
      the total is zero; here the total must be non-zero unless there is
      nothing to divide. */
  function Proportions(s: Vector): (r: Vector)
    requires |s| == 0 || Sum(s) != 0.0
    ensures |r| == |s|
    ensures forall i :: 0 <= i < |s| ==> r[i] * Sum(s) == s[i]
  {
    seq(|s|, i requires 0 <= i < |s| => s[i] / Sum(s))
  }

  // ---------------------------------------------------------------------
  // Index sequences: numpy's arange and fancy indexing
  // ---------------------------------------------------------------------

  /** np.arange(n) */
  function Range(n: nat): seq<nat> {
    seq(n, i requires 0 <= i < n => i as nat)
  }

  /** Every index in idx is below n. */
  predicate InBounds(idx: seq<nat>, n: nat) {
    forall k :: 0 <= k < |idx| ==> idx[k] < n
  }

  /** idx holds each of 0, 1, ..., n-1 exactly once. */
  predicate IsPermutation(idx: seq<nat>, n: nat) {
    multiset(idx) == multiset(Range(n))
  }

  /** v[idx] */
  function Gather(v: Vector, idx: seq<nat>): (r: Vector)
    requires InBounds(idx, |v|)
    ensures |r| == |idx|
    ensures forall k :: 0 <= k < |idx| ==> r[k] == v[idx[k]]
  {
    seq(|idx|, k requires 0 <= k < |idx| => v[idx[k]])
  }

  // ---------------------------------------------------------------------
  // Lemmas about sums
  // ---------------------------------------------------------------------

  lemma {:induction false} SumAppend(a: Vector, b: Vector)
    ensures Sum(a + b) == Sum(a) + Sum(b)
    decreases |a|
  {
    if a == [] {
      assert a + b == b;
    } else {
      assert (a + b)[1..] == a[1..] + b;
      SumAppend(a[1..], b);
    }
  }

  /** A sum of non-negative entries is non-negative, and it is zero only
      when every entry is. */
  lemma {:induction false} SumNonNegative(s: Vector)
    requires forall i :: 0 <= i < |s| ==> s[i] >= 0.0
    ensures Sum(s) >= 0.0
    ensures Sum(s) == 0.0 ==> forall i :: 0 <= i < |s| ==> s[i] == 0.0
    decreases |s|
  {
    if s != [] {
      SumNonNegative(s[1..]);
      assert forall i :: 1 <= i < |s| ==> s[i] == s[1..][i - 1];
    }
  }

  /** Summing n copies of c gives n times c. */
  lemma {:induction false} SumConstant(s: Vector, c: real)
    requires forall i :: 0 <= i < |s| ==> s[i] == c
    ensures Sum(s) == |s| as real * c
    decreases |s|
  {
    if s != [] {
      SumConstant(s[1..], c);
    }
  }

  /** Subtracting c from every entry lowers the sum by |s| times c. */
  lemma {:induction false} SumShift(s: Vector, t: Vector, c: real)
    requires |t| == |s|
    requires forall i :: 0 <= i < |s| ==> t[i] == s[i] - c
    ensures Sum(t) == Sum(s) - |s| as real * c
    decreases |s|
  {
    if s != [] {
      SumShift(s[1..], t[1..], c);
    }
  }

  /** Dividing every entry by t divides the sum by t. */
  lemma {:induction false} SumDivide(s: Vector, r: Vector, t: real)
    requires t != 0.0 && |r| == |s|
    requires forall i :: 0 <= i < |s| ==> r[i] == s[i] / t
    ensures Sum(r) == Sum(s) / t
    decreases |s|
  {
    if s != [] {
      SumDivide(s[1..], r[1..], t);
      assert r[0] + Sum(s[1..]) / t == (s[0] + Sum(s[1..])) / t;
    }
  }

  /** Multiplying every entry by c multiplies the sum by c. */
  lemma {:induction false} SumScale(s: Vector, r: Vector, c: real)
    requires |r| == |s|
    requires forall i :: 0 <= i < |s| ==> r[i] == s[i] * c
    ensures Sum(r) == Sum(s) * c
    decreases |s|
  {
    if s != [] {
      SumScale(s[1..], r[1..], c);
      assert r[0] + Sum(s[1..]) * c == (s[0] + Sum(s[1..])) * c;
    }
  }

  /** A prefix of non-negative entries sums to at most the whole. */
  lemma {:induction false} PrefixSumAtMost(s: Vector, m: nat)
    requires m <= |s|
    requires forall i :: 0 <= i < |s| ==> s[i] >= 0.0
    ensures Sum(s[..m]) <= Sum(s)
  {
    assert s == s[..m] + s[m..];
    SumAppend(s[..m], s[m..]);
    SumNonNegative(s[m..]);
  }

  // ---------------------------------------------------------------------
  // Lemmas about proportions
  // ---------------------------------------------------------------------

  /** The shares of a non-empty sequence add up to one. */
  lemma {:induction false} ProportionsSumToOne(s: Vector)
    requires |s| > 0 && Sum(s) != 0.0
    ensures Sum(Proportions(s)) == 1.0
  {
    var r, t := Proportions(s), Sum(s);
    assert forall i :: 0 <= i < |s| ==> r[i] == s[i] / t;
    SumDivide(s, r, t);
    DivideSelf(t);
  }

  /** The first m shares of non-negative entries add up to at most one. */
  lemma {:induction false} ProportionsPrefixAtMostOne(s: Vector, m: nat)
    requires |s| > 0 && Sum(s) != 0.0 && m <= |s|
    requires forall i :: 0 <= i < |s| ==> s[i] >= 0.0
    ensures 0.0 <= Sum(Proportions(s)[..m]) <= 1.0
  {
    var r, t := Proportions(s), Sum(s);
    SumNonNegative(s);
    forall i | 0 <= i < |r| ensures r[i] >= 0.0 {
      DivideNonNegative(s[i], t);
    }
    ProportionsSumToOne(s);
    PrefixSumAtMost(r, m);
    SumNonNegative(r[..m]);
  }

  /** Dividing by a positive total keeps a non-increasing order. */
  lemma {:induction false} ProportionsNonIncreasing(s: Vector)
    requires Sum(s) > 0.0 && NonIncreasing(s)
    ensures NonIncreasing(Proportions(s))
  {
    var r, t := Proportions(s), Sum(s);
    forall i, j | 0 <= i < j < |r| ensures r[i] >= r[j] {
      DivideMonotone(s[j], s[i], t);
    }
  }

  lemma {:induction false} DivideNonNegative(a: real, t: real)
    requires a >= 0.0 && t > 0.0
    ensures a / t >= 0.0
  {
  }

  lemma {:induction false} DivideTimes(a: real, t: real)
    requires t != 0.0
    ensures a / t * t == a
  {
  }

  lemma {:induction false} DivideTimesBack(n: real, c: real)
    requires n > 0.0
    ensures n * c / n == c
  {
  }

  lemma {:induction false} DivideSelf(t: real)
    requires t != 0.0
    ensures t / t == 1.0
  {
  }

  lemma {:induction false} DivideBelow(a: real, b: real, c: real)
    requires b > 0.0
    ensures a / b < c <==> a < c * b
  {
  }

  lemma {:induction false} DivideMonotone(a: real, b: real, t: real)
    requires t > 0.0 && a <= b
    ensures a / t <= b / t
  {
    assert b / t - a / t == (b - a) / t;
  }

  // ---------------------------------------------------------------------
  // Lemmas about dot products
  // ---------------------------------------------------------------------

  lemma {:induction false} DotSelfNonNegative(u: Vector)
    ensures Dot(u, u) >= 0.0
    decreases |u|
  {
    if u != [] {
      DotSelfNonNegative(u[1..]);
    }
  }

  lemma {:induction false} DotSymmetric(u: Vector, v: Vector)
    requires |u| == |v|
    ensures Dot(u, v) == Dot(v, u)
    decreases |u|
  {
    if u != [] {
      DotSymmetric(u[1..], v[1..]);
    }
  }

  lemma {:induction false} DotZeroRight(x: Vector, z: Vector)
    requires |z| == |x|
    requires forall r :: 0 <= r < |z| ==> z[r] == 0.0
    ensures Dot(x, z) == 0.0
    decreases |x|
  {
    if x != [] {
      DotZeroRight(x[1..], z[1..]);
    }
  }

  /** Dotting with the j-th unit vector picks entry j. */
  lemma {:induction false} DotUnit(x: Vector, e: Vector, j: nat)
    requires |e| == |x| && j < |x|
    requires forall r :: 0 <= r < |e| ==> e[r] == if r == j then 1.0 else 0.0
    ensures Dot(x, e) == x[j]
    decreases |x|
  {
    if j == 0 {
      DotZeroRight(x[1..], e[1..]);
    } else {
      DotUnit(x[1..], e[1..], j - 1);
    }
  }

  /** The dot product is linear in its left argument:
      (a * u + v) . y == a * (u . y) + v . y */
  lemma {:induction false} DotAddScaled(a: real, u: Vector, v: Vector, y: Vector)
    requires |u| == |v| == |y|
    ensures Dot(AddScaled(a, u, v), y) == a * Dot(u, y) + Dot(v, y)
    decreases |u|
  {
    if u == [] {
      LinearBase(a, Dot(AddScaled(a, u, v), y), Dot(u, y), Dot(v, y));
    } else {
      DotAddScaled(a, u[1..], v[1..], y[1..]);
      DotAddScaledStep(a, u, v, y);
    }
  }

  /** The step of DotAddScaled: the first entries add the same amount to
      both sides. */
  lemma {:induction false} DotAddScaledStep(a: real, u: Vector, v: Vector, y: Vector)
    requires |u| == |v| == |y| && u != []
    requires Dot(AddScaled(a, u[1..], v[1..]), y[1..]) == a * Dot(u[1..], y[1..]) + Dot(v[1..], y[1..])
    ensures Dot(AddScaled(a, u, v), y) == a * Dot(u, y) + Dot(v, y)
  {
    AddScaledDrop(a, u, v);
    DotFirst(AddScaled(a, u, v), y[0], y, y[1..]);
    DotFirst(u, y[0], y, y[1..]);
    DotFirst(v, y[0], y, y[1..]);
    LinearStep(a, AddScaled(a, u, v)[0], u[0], v[0], y[0],
               Dot(AddScaled(a, u, v), y), Dot(u, y), Dot(v, y),
               Dot(AddScaled(a, u[1..], v[1..]), y[1..]), Dot(u[1..], y[1..]), Dot(v[1..], y[1..]));
  }

  lemma {:induction false} LinearBase(a: real, s: real, p: real, q: real)
    requires s == 0.0 && p == 0.0 && q == 0.0
    ensures s == a * p + q
  {
  }

  /** One entry's contribution to DotAddScaled: s0 = a * u0 + v0 adds
      s0 * y0 on the left and a * (u0 * y0) + v0 * y0 on the right. */
  lemma {:induction false} LinearStep(a: real, s0: real, u0: real, v0: real, y0: real,
                   s: real, p: real, q: real, s1: real, p1: real, q1: real)
    requires s0 == a * u0 + v0
    requires s == s0 * y0 + s1 && p == u0 * y0 + p1 && q == v0 * y0 + q1
    requires s1 == a * p1 + q1
    ensures s == a * p + q
  {
  }

  /** Dropping the first entry of a * u + v drops it from u and v. */
  lemma {:induction false} AddScaledDrop(a: real, u: Vector, v: Vector)
    requires |u| == |v| && u != []
    ensures AddScaled(a, u, v)[1..] == AddScaled(a, u[1..], v[1..])
  {
    forall c | 0 <= c < |u| - 1
      ensures AddScaled(a, u, v)[1..][c] == AddScaled(a, u[1..], v[1..])[c]
    {
    }
  }

  /** (x @ w) . y == x . (w @ y): the two orders of a double sum agree. */
  lemma {:induction false} DotInterchange(x: Vector, w: Matrix, cols: nat, y: Vector)
    requires IsMatrix(w, |x|, cols) && |y| == cols
    ensures Dot(VecMat(x, w, cols), y) == Dot(x, MatVec(w, y))
    decreases |x|
  {
    if x == [] {
      var left := VecMat(x, w, cols);
      VecMatEmpty(x, w, cols);
      DotZeroRight(y, left);
      DotSymmetric(left, y);
    } else {
      DotInterchange(x[1..], w[1..], cols, y);
      DotInterchangeStep(x, w, cols, y);
    }
  }

  /** The step of DotInterchange: the first row of w adds the same term to
      both sides. */
  lemma {:induction false} DotInterchangeStep(x: Vector, w: Matrix, cols: nat, y: Vector)
    requires IsMatrix(w, |x|, cols) && |y| == cols && x != []
    requires Dot(VecMat(x[1..], w[1..], cols), y) == Dot(x[1..], MatVec(w[1..], y))
    ensures Dot(VecMat(x, w, cols), y) == Dot(x, MatVec(w, y))
  {
    var m := MatVec(w, y);
    MatVecStep(w, y);
    DotFirst(x, m[0], m, MatVec(w[1..], y));
    VecMatFirstRow(x, w, cols, y, m[0], Dot(x, m), Dot(x[1..], MatVec(w[1..], y)));
  }

  /** (x @ w) . y == x[0] * h + t when h is the first row's dot product with
      y and t what the remaining rows contribute. */
  lemma {:induction false} VecMatFirstRow(x: Vector, w: Matrix, cols: nat, y: Vector, h: real, d: real, t: real)
    requires IsMatrix(w, |x|, cols) && |y| == cols && x != []
    requires h == Dot(w[0], y) && d == x[0] * h + t
    requires t == Dot(VecMat(x[1..], w[1..], cols), y)
    ensures Dot(VecMat(x, w, cols), y) == d
  {
    VecMatStep(x, w, cols);
    DotAddScaled(x[0], w[0], VecMat(x[1..], w[1..], cols), y);
  }

  /** x . m when m starts with h and continues with rest. */
  lemma {:induction false} DotFirst(x: Vector, h: real, m: Vector, rest: Vector)
    requires x != [] && |m| == |x| && m[0] == h && m[1..] == rest
    ensures Dot(x, m) == x[0] * h + Dot(x[1..], rest)
  {
  }

  /** An empty row vector times a matrix without rows is all zeros. */
  lemma {:induction false} VecMatEmpty(x: Vector, w: Matrix, cols: nat)
    requires IsMatrix(w, |x|, cols) && x == []
    ensures forall c :: 0 <= c < cols ==> VecMat(x, w, cols)[c] == 0.0
  {
  }

  /** x @ w is the first row scaled by x[0] plus x[1..] @ w[1..]. */
  lemma {:induction false} VecMatStep(x: Vector, w: Matrix, cols: nat)
    requires IsMatrix(w, |x|, cols) && x != []
    ensures VecMat(x, w, cols) == AddScaled(x[0], w[0], VecMat(x[1..], w[1..], cols))
  {
    VecMatEntries(x, w, cols);
    assert |w[0]| == cols;
    forall c | 0 <= c < cols
      ensures VecMat(x, w, cols)[c] == AddScaled(x[0], w[0], VecMat(x[1..], w[1..], cols))[c]
    {
    }
  }

  lemma {:induction false} VecMatEntries(x: Vector, w: Matrix, cols: nat)
    requires IsMatrix(w, |x|, cols) && x != []
    ensures forall c :: 0 <= c < cols ==>
      VecMat(x, w, cols)[c] == x[0] * w[0][c] + VecMat(x[1..], w[1..], cols)[c]
  {
    forall c | 0 <= c < cols
      ensures VecMat(x, w, cols)[c] == x[0] * w[0][c] + VecMat(x[1..], w[1..], cols)[c]
    {
      assert Column(w, c)[1..] == Column(w[1..], c);
    }
  }

  /** w @ y splits into the first row's dot product and the rest. */
  lemma {:induction false} MatVecStep(w: Matrix, y: Vector)
    requires forall r :: 0 <= r < |w| ==> |w[r]| == |y|
    requires w != []
    ensures MatVec(w, y)[0] == Dot(w[0], y)
    ensures MatVec(w, y)[1..] == MatVec(w[1..], y)
  {
    MatVecDrop(w, y);
  }

  lemma {:induction false} MatVecDrop(w: Matrix, y: Vector)
    requires forall r :: 0 <= r < |w| ==> |w[r]| == |y|
    requires w != []
    ensures MatVec(w, y)[1..] == MatVec(w[1..], y)
  {
    forall r | 0 <= r < |w| - 1 ensures MatVec(w, y)[1..][r] == MatVec(w[1..], y)[r] {
      assert w[1..][r] == w[r + 1];
    }
  }

  // ---------------------------------------------------------------------
  // Lemmas about fancy indexing
  // ---------------------------------------------------------------------

  /** Gathering through two index sequences that hold the same indices
      gives the same values, each as often. */
  lemma {:induction false} GatherSameIndices(v: Vector, a: seq<nat>, b: seq<nat>)
    requires InBounds(a, |v|) && InBounds(b, |v|) && multiset(a) == multiset(b)
    ensures multiset(Gather(v, a)) == multiset(Gather(v, b))
    decreases |a|
  {
    if a == [] {
      assert |b| == |multiset(b)| == 0;
    } else {
      assert a[0] in multiset(b);
      var p :| 0 <= p < |b| && b[p] == a[0];
      RemoveFirst(a);
      RemoveAt(b, p);
      GatherSameIndices(v, a[1..], b[..p] + b[p + 1..]);
      GatherSameIndicesStep(v, a, b, p);
    }
  }

  /** The inductive step: a[0] and b[p] are the same index, and what is
      left of a and b already gathers to the same values. */
  lemma {:induction false} GatherSameIndicesStep(v: Vector, a: seq<nat>, b: seq<nat>, p: nat)
    requires InBounds(a, |v|) && InBounds(b, |v|) && |a| > 0 && p < |b| && b[p] == a[0]
    requires multiset(Gather(v, a[1..])) == multiset(Gather(v, b[..p] + b[p + 1..]))
    ensures multiset(Gather(v, a)) == multiset(Gather(v, b))
  {
    GatherFirst(v, a);
    GatherRemoveAt(v, b, p);
  }

  /** Dropping the first entry of a sequence drops one copy of it from the
      multiset. */
  lemma {:induction false} RemoveFirst(a: seq<nat>)
    requires |a| > 0
    ensures multiset(a[1..]) == multiset(a) - multiset{a[0]}
  {
    assert a == [a[0]] + a[1..];
  }

  /** Dropping the first index before gathering drops one copy of its value. */
  lemma {:induction false} GatherFirst(v: Vector, a: seq<nat>)
    requires InBounds(a, |v|) && |a| > 0
    ensures multiset(Gather(v, a)) == multiset(Gather(v, a[1..])) + multiset{v[a[0]]}
  {
    assert Gather(v, a) == [v[a[0]]] + Gather(v, a[1..]);
  }

  /** Dropping entry p of a sequence drops one copy of it from the multiset. */
  lemma {:induction false} RemoveAt(b: seq<nat>, p: nat)
    requires p < |b|
    ensures multiset(b[..p] + b[p + 1..]) == multiset(b) - multiset{b[p]}
  {
    assert b == b[..p] + [b[p]] + b[p + 1..];
  }

  /** Dropping index p before gathering drops one copy of its value. */
  lemma {:induction false} GatherRemoveAt(v: Vector, b: seq<nat>, p: nat)
    requires InBounds(b, |v|) && p < |b|
    ensures multiset(Gather(v, b)) == multiset(Gather(v, b[..p] + b[p + 1..])) + multiset{v[b[p]]}
  {
    assert Gather(v, b) == Gather(v, b[..p]) + [v[b[p]]] + Gather(v, b[p + 1..]);
    assert Gather(v, b[..p] + b[p + 1..]) == Gather(v, b[..p]) + Gather(v, b[p + 1..]);
  }

  /** Gathering through a permutation of the indices of v rearranges v:
      every value is kept, as often as it occurs. */
  lemma {:induction false} GatherPermutation(v: Vector, idx: seq<nat>)
    requires InBounds(idx, |v|) && IsPermutation(idx, |v|)
    ensures multiset(Gather(v, idx)) == multiset(v)
  {
    GatherSameIndices(v, idx, Range(|v|));
    assert Gather(v, Range(|v|)) == v;
  }

  /** m[:, idx] for a matrix whose rows have n entries. */
  function GatherColumns(m: Matrix, idx: seq<nat>, n: nat): (r: Matrix)
    requires forall row :: 0 <= row < |m| ==> |m[row]| == n
    requires InBounds(idx, n)
    ensures |r| == |m| && forall row :: 0 <= row < |m| ==> |r[row]| == |idx|
    ensures forall row, k :: 0 <= row < |m| && 0 <= k < |idx| ==> r[row][k] == m[row][idx[k]]
  {
    seq(|m|, row requires 0 <= row < |m| => Gather(m[row], idx))
  }

  /** Column i of m[:, idx] is column idx[i] of m. */
  lemma {:induction false} ColumnOfGather(m: Matrix, idx: seq<nat>, n: nat, i: nat)
    requires forall row :: 0 <= row < |m| ==> |m[row]| == n
    requires InBounds(idx, n) && i < |idx|
    ensures Column(GatherColumns(m, idx, n), i) == Column(m, idx[i])
  {
  }
}
