/** The statistics and PCA pipeline: column means, centering, the sample
    covariance, the descending sort of an eigendecomposition, explained
    variance, top-k projection, reconstruction and its error metrics.
    numpy's float arithmetic is idealised to exact reals; the eigen-solver
    is a parameter standing for `np.linalg.eig`. */
module Eigenanalysis {
  import opened LinAlg
  import opened Sorting

  // ---------------------------------------------------------------------
  // compute_covariance
  // ---------------------------------------------------------------------

  /** A data matrix of n_samples rows and n_features columns with at least
      two rows. With a single row np.cov (rowvar=False) reads that row as
      one variable and returns a 0-d scalar, which np.linalg.eig rejects. */
  predicate IsSampleMatrix(data: Matrix) {
    |data| >= 2 && IsMatrix(data, |data|, |data[0]|)
  }

  /** The number of features (columns) of a sample matrix. */
  function Features(data: Matrix): nat
    requires |data| > 0
  {
    |data[0]|
  }

  /** np.mean(data, axis=0): one mean per column. */
  function ColumnMeans(data: Matrix, d: nat): (mean: Vector)
    requires |data| > 0 && IsMatrix(data, |data|, d)
    ensures |mean| == d
    ensures forall j :: 0 <= j < d ==> mean[j] * |data| as real == Sum(Column(data, j))
  {
    seq(d, j requires 0 <= j < d => Sum(Column(data, j)) / |data| as real)
  }

  /** data - mean: the mean is broadcast over every row. */
  function Center(data: Matrix, mean: Vector): (centered: Matrix)
    requires forall i :: 0 <= i < |data| ==> |data[i]| == |mean|
    ensures IsMatrix(centered, |data|, |mean|)
    ensures forall i, j :: 0 <= i < |data| && 0 <= j < |mean| ==>
      centered[i][j] + mean[j] == data[i][j]
  {
    seq(|data|, i requires 0 <= i < |data| =>
      seq(|mean|, j requires 0 <= j < |mean| => data[i][j] - mean[j]))
  }

  /** np.cov(x, rowvar=False): numpy subtracts the column means of x itself
      and divides the cross products by n - 1 (ddof = 1). With one feature
      numpy squeezes the 1-by-1 result to a scalar; the model keeps it as
      the 1-by-1 matrix, and CanAnalyze excludes that case where eig would
      reject the scalar. */
  function SampleCovariance(x: Matrix, d: nat): (cov: Matrix)
    requires |x| >= 2 && IsMatrix(x, |x|, d)
    ensures IsMatrix(cov, d, d)
  {
    var c := Center(x, ColumnMeans(x, d));
    seq(d, j requires 0 <= j < d =>
      seq(d, k requires 0 <= k < d =>
        Dot(Column(c, j), Column(c, k)) / (|x| - 1) as real))
  }

  /** The three arrays compute_covariance returns. */
  datatype Covariance = Covariance(mean: Vector, centered: Matrix, covariance: Matrix)

  /** compute_covariance: the centroid, the data moved to it, and the
      sample covariance of the moved data. */
  function ComputeCovariance(data: Matrix): (r: Covariance)
    requires IsSampleMatrix(data)
    ensures |r.mean| == Features(data)
    ensures forall j :: 0 <= j < Features(data) ==>
      r.mean[j] * |data| as real == Sum(Column(data, j))
    ensures IsMatrix(r.centered, |data|, Features(data))
    ensures forall i, j :: 0 <= i < |data| && 0 <= j < Features(data) ==>
      r.centered[i][j] == data[i][j] - r.mean[j]
    ensures IsMatrix(r.covariance, Features(data), Features(data))
  {
    var mean := ColumnMeans(data, Features(data));
    var centered := Center(data, mean);
    Covariance(mean, centered, SampleCovariance(centered, Features(data)))
  }

  /** Every column of the centered data sums to zero. */
  lemma {:induction false} CenteredColumnsSumToZero(data: Matrix)
    requires IsSampleMatrix(data)
    ensures forall j :: 0 <= j < Features(data) ==>
      Sum(Column(ComputeCovariance(data).centered, j)) == 0.0
  {
    var r := ComputeCovariance(data);
    forall j | 0 <= j < Features(data)
      ensures Sum(Column(r.centered, j)) == 0.0
    {
      SumShift(Column(data, j), Column(r.centered, j), r.mean[j]);
    }
  }

  /** Centering data whose columns already sum to zero changes nothing, so
      np.cov's own re-centering is the identity on compute_covariance's
      centered matrix. */
  lemma {:induction false} RecenterIsIdentity(c: Matrix, d: nat)
    requires |c| > 0 && IsMatrix(c, |c|, d)
    requires forall j :: 0 <= j < d ==> Sum(Column(c, j)) == 0.0
    ensures Center(c, ColumnMeans(c, d)) == c
  {
    var mean := ColumnMeans(c, d);
    var c' := Center(c, mean);
    assert forall j :: 0 <= j < d ==> mean[j] == 0.0;
    forall i | 0 <= i < |c| ensures c'[i] == c[i] { }
  }

  /** Entry (j, k) of the covariance is the sum over samples of the product
      of centered features j and k, divided by n - 1. */
  lemma {:induction false} CovarianceEntries(data: Matrix)
    requires IsSampleMatrix(data)
    ensures var r := ComputeCovariance(data);
      forall j, k :: 0 <= j < Features(data) && 0 <= k < Features(data) ==>
        r.covariance[j][k]
          == Dot(Column(r.centered, j), Column(r.centered, k)) / (|data| - 1) as real
  {
    var r := ComputeCovariance(data);
    CenteredColumnsSumToZero(data);
    RecenterIsIdentity(r.centered, Features(data));
  }

  /** The covariance matrix is symmetric. */
  lemma {:induction false} CovarianceSymmetric(data: Matrix)
    requires IsSampleMatrix(data)
    ensures var cov := ComputeCovariance(data).covariance;
      forall j, k :: 0 <= j < Features(data) && 0 <= k < Features(data) ==>
        cov[j][k] == cov[k][j]
  {
    var r := ComputeCovariance(data);
    CovarianceEntries(data);
    forall j, k | 0 <= j < Features(data) && 0 <= k < Features(data)
      ensures r.covariance[j][k] == r.covariance[k][j]
    {
      DotSymmetric(Column(r.centered, j), Column(r.centered, k));
    }
  }

  /** Every variance on the diagonal is non-negative. */
  lemma {:induction false} CovarianceDiagonalNonNegative(data: Matrix)
    requires IsSampleMatrix(data)
    ensures var cov := ComputeCovariance(data).covariance;
      forall j :: 0 <= j < Features(data) ==> cov[j][j] >= 0.0
  {
    var r := ComputeCovariance(data);
    CovarianceEntries(data);
    forall j | 0 <= j < Features(data)
      ensures r.covariance[j][j] >= 0.0
    {
      DotSelfNonNegative(Column(r.centered, j));
    }
  }

  // ---------------------------------------------------------------------
  // eigendecompose: the sort that follows np.linalg.eig
  // ---------------------------------------------------------------------

  /** What eig returns: eigenvalues and a matrix whose COLUMNS are the
      eigenvectors, column i belonging to eigenvalue i. */
  datatype EigenPair = EigenPair(values: Vector, vectors: Matrix)

  /** Every row of the eigenvector matrix has one entry per eigenvalue. */
  predicate HasColumnPerValue(e: EigenPair) {
    forall row :: 0 <= row < |e.vectors| ==> |e.vectors[row]| == |e.values|
  }

  /** The order eigendecompose puts the eigenpairs in: idx = argsort()[::-1]. */
  function SortOrder(e: EigenPair): (idx: seq<nat>)
    ensures IsPermutation(idx, |e.values|) && InBounds(idx, |e.values|)
  {
    DescendingOrder(e.values)
  }

  /** eigenvalues[idx], eigenvectors[:, idx]: one index sequence permutes
      the values and the eigenvector columns together, so the values come
      out largest first and each column still sits beside its value. */
  function Eigendecompose(e: EigenPair): (r: EigenPair)
    requires HasColumnPerValue(e)
    ensures HasColumnPerValue(r)
    ensures |r.values| == |e.values| && |r.vectors| == |e.vectors|
    ensures NonIncreasing(r.values)
    ensures multiset(r.values) == multiset(e.values)
    ensures forall i :: 0 <= i < |r.values| ==> r.values[i] == e.values[SortOrder(e)[i]]
    ensures forall i :: 0 <= i < |r.values| ==>
      Column(r.vectors, i) == Column(e.vectors, SortOrder(e)[i])
  {
    var idx := SortOrder(e);
    var values := Gather(e.values, idx);
    var vectors := GatherColumns(e.vectors, idx, |e.values|);
    assert multiset(values) == multiset(e.values) by {
      GatherPermutation(e.values, idx);
    }
    assert NonIncreasing(values) by {
      assert DescendingBy(e.values, idx);
    }
    assert forall i :: 0 <= i < |idx| ==> Column(vectors, i) == Column(e.vectors, idx[i]) by {
      forall i | 0 <= i < |idx| ensures Column(vectors, i) == Column(e.vectors, idx[i]) {
        ColumnOfGather(e.vectors, idx, |e.values|, i);
      }
    }
    EigenPair(values, vectors)
  }

  /** A scaled copy of a vector. */
  function Scale(a: real, v: Vector): (r: Vector)
    ensures |r| == |v|
  {
    seq(|v|, i requires 0 <= i < |v| => a * v[i])
  }

  /** Column i of e.vectors is an eigenvector of the square matrix m for
      the eigenvalue e.values[i], for every i. */
  predicate AreEigenpairs(m: Matrix, e: EigenPair)
    requires HasColumnPerValue(e) && IsMatrix(m, |e.vectors|, |e.vectors|)
  {
    forall i :: 0 <= i < |e.values| ==>
      MatVec(m, Column(e.vectors, i)) == Scale(e.values[i], Column(e.vectors, i))
  }

  /** Sorting keeps every eigenvector with its eigenvalue: whatever pairs
      eig returned for m, the sorted pairs are eigenpairs of m too. */
  lemma {:induction false} EigendecomposeKeepsEigenpairs(m: Matrix, e: EigenPair)
    requires HasColumnPerValue(e) && IsMatrix(m, |e.vectors|, |e.vectors|)
    requires AreEigenpairs(m, e)
    ensures AreEigenpairs(m, Eigendecompose(e))
  {
    var r, idx := Eigendecompose(e), SortOrder(e);
    forall i | 0 <= i < |r.values|
      ensures MatVec(m, Column(r.vectors, i)) == Scale(r.values[i], Column(r.vectors, i))
    {
      assert Column(r.vectors, i) == Column(e.vectors, idx[i]);
    }
  }

  // ---------------------------------------------------------------------
  // analyze_eigenstructure
  // ---------------------------------------------------------------------

  /** The dictionary analyze_eigenstructure returns. */
  datatype EigenAnalysis = EigenAnalysis(
    mean: Vector,
    centered: Matrix,
    covariance: Matrix,
    eigenvalues: Vector,
    eigenvectors: Matrix,
    explainedVariance: Vector)

  /** eig returns, for the d-by-d covariance of data, d eigenvalues and a
      d-by-d matrix of eigenvector columns. */
  predicate EigShaped(data: Matrix, eig: Matrix -> EigenPair)
    requires IsSampleMatrix(data)
  {
    var d, e := Features(data), eig(ComputeCovariance(data).covariance);
    |e.values| == d && IsMatrix(e.vectors, d, d)
  }

  /** The eigenpairs of the covariance of data, sorted by eigendecompose. */
  function Spectrum(data: Matrix, eig: Matrix -> EigenPair): (e: EigenPair)
    requires IsSampleMatrix(data) && EigShaped(data, eig)
    ensures |e.values| == Features(data) && NonIncreasing(e.values)
    ensures IsMatrix(e.vectors, Features(data), Features(data))
  {
    Eigendecompose(eig(ComputeCovariance(data).covariance))
  }

  /** The inputs on which analyze_eigenstructure produces finite numbers:
      at least two samples, other than exactly one feature (np.cov then
      returns a scalar, which np.linalg.eig rejects), an eig of the
      expected shape, and a non-zero sum of eigenvalues to divide by (numpy
      would divide by zero without complaint). */
  predicate CanAnalyze(data: Matrix, eig: Matrix -> EigenPair) {
    IsSampleMatrix(data) && Features(data) != 1 && EigShaped(data, eig) &&
    (Features(data) == 0 || Sum(Spectrum(data, eig).values) != 0.0)
  }

  /** analyze_eigenstructure: covariance, sorted eigenpairs and the share
      of the total variance each eigenvalue explains. */
  function AnalyzeEigenstructure(data: Matrix, eig: Matrix -> EigenPair): (r: EigenAnalysis)
    requires CanAnalyze(data, eig)
    ensures var c := ComputeCovariance(data);
      r.mean == c.mean && r.centered == c.centered && r.covariance == c.covariance
    ensures r.eigenvalues == Spectrum(data, eig).values
    ensures r.eigenvectors == Spectrum(data, eig).vectors
    ensures r.explainedVariance == Proportions(r.eigenvalues)
  {
    var c := ComputeCovariance(data);
    var e := Spectrum(data, eig);
    EigenAnalysis(c.mean, c.centered, c.covariance, e.values, e.vectors, Proportions(e.values))
  }

  /** The explained-variance ratios add up to one, and they keep the
      eigenvalues' non-increasing order when the total is positive. */
  lemma {:induction false} ExplainedVarianceRatios(data: Matrix, eig: Matrix -> EigenPair)
    requires CanAnalyze(data, eig)
    ensures var r := AnalyzeEigenstructure(data, eig);
      Features(data) > 0 ==> Sum(r.explainedVariance) == 1.0
    ensures var r := AnalyzeEigenstructure(data, eig);
      Sum(r.eigenvalues) > 0.0 ==> NonIncreasing(r.explainedVariance)
  {
    var r := AnalyzeEigenstructure(data, eig);
    if Features(data) > 0 {
      ProportionsSumToOne(r.eigenvalues);
    }
    if Sum(r.eigenvalues) > 0.0 {
      ProportionsNonIncreasing(r.eigenvalues);
    }
  }

  // ---------------------------------------------------------------------
  // pca_transform
  // ---------------------------------------------------------------------

  /** The stop index Python uses for the slice [:k] of a sequence of length
      n: a stop past the end is cut to n, a negative one counts from the
      end and stops at 0. */
  function SliceStop(k: int, n: nat): (m: nat)
    ensures m <= n
    ensures 0 <= k <= n ==> m == k
    ensures k > n ==> m == n
    ensures k < 0 ==> m as int == if n + k > 0 then n + k else 0
  {
    if k >= 0 then (if k <= n then k else n)
    else if n + k > 0 then n + k else 0
  }

  /** w[:, :m]: the first m columns of w. */
  function LeadingColumns(w: Matrix, m: nat): (r: Matrix)
    requires forall row :: 0 <= row < |w| ==> m <= |w[row]|
    ensures IsMatrix(r, |w|, m)
    ensures forall row, c :: 0 <= row < |w| && 0 <= c < m ==> r[row][c] == w[row][c]
  {
    seq(|w|, row requires 0 <= row < |w| => w[row][..m])
  }

  /** x @ w for an n-by-d matrix x and a d-by-m matrix w. */
  function Project(x: Matrix, w: Matrix, m: nat): (p: Matrix)
    requires IsMatrix(w, |w|, m)
    requires forall i :: 0 <= i < |x| ==> |x[i]| == |w|
    ensures IsMatrix(p, |x|, m)
    ensures forall i, j :: 0 <= i < |x| && 0 <= j < m ==> p[i][j] == Dot(x[i], Column(w, j))
  {
    seq(|x|, i requires 0 <= i < |x| => VecMat(x[i], w, m))
  }

  /** The three arrays pca_transform returns. */
  datatype Pca = Pca(projected: Matrix, explainedVariance: Vector, components: Matrix)

  /** pca_transform: keep the eigenvectors of the n_components largest
      eigenvalues and project the centered data onto them. A request for
      more components than there are features keeps them all. */
  function PcaTransform(data: Matrix, nComponents: int, eig: Matrix -> EigenPair): (r: Pca)
    requires CanAnalyze(data, eig)
    ensures var a, m := AnalyzeEigenstructure(data, eig), SliceStop(nComponents, Features(data));
      r.components == LeadingColumns(a.eigenvectors, m)
    ensures var a, m := AnalyzeEigenstructure(data, eig), SliceStop(nComponents, Features(data));
      r.projected == Project(a.centered, r.components, m)
    ensures var a, m := AnalyzeEigenstructure(data, eig), SliceStop(nComponents, Features(data));
      r.explainedVariance == a.explainedVariance[..m]
  {
    var a := AnalyzeEigenstructure(data, eig);
    var m := SliceStop(nComponents, Features(data));
    var w := LeadingColumns(a.eigenvectors, m);
    Pca(Project(a.centered, w, m), a.explainedVariance[..m], w)
  }

  /** pca_transform's default number of components. */
  const DefaultComponents: int := 2

  /** pca_transform(data) with n_components left at its default: the two
      leading components, or every component when there are fewer. */
  function PcaTransformDefault(data: Matrix, eig: Matrix -> EigenPair): (r: Pca)
    requires CanAnalyze(data, eig)
    ensures r == PcaTransform(data, DefaultComponents, eig)
    ensures var m := if Features(data) < 2 then Features(data) else 2;
      |r.explainedVariance| == m && IsMatrix(r.components, Features(data), m)
  {
    PcaTransform(data, DefaultComponents, eig)
  }

  /** The kept components are those of the largest eigenvalues: every kept
      eigenvalue is at least every dropped one, and so is its share when
      the total is positive. */
  lemma {:induction false} KeptComponentsDominate(data: Matrix, nComponents: int, eig: Matrix -> EigenPair)
    requires CanAnalyze(data, eig)
    ensures var a, m := AnalyzeEigenstructure(data, eig), SliceStop(nComponents, Features(data));
      forall i, j :: 0 <= i < m <= j < Features(data) ==> a.eigenvalues[i] >= a.eigenvalues[j]
    ensures var a, m := AnalyzeEigenstructure(data, eig), SliceStop(nComponents, Features(data));
      Sum(a.eigenvalues) > 0.0 ==>
        forall i, j :: 0 <= i < m <= j < Features(data) ==>
          a.explainedVariance[i] >= a.explainedVariance[j]
  {
    ExplainedVarianceRatios(data, eig);
  }

  /** When no eigenvalue is negative, the kept components explain a share
      of the variance between zero and one. */
  lemma {:induction false} RetainedVarianceAtMostOne(data: Matrix, nComponents: int, eig: Matrix -> EigenPair)
    requires CanAnalyze(data, eig)
    requires forall i :: 0 <= i < Features(data) ==> Spectrum(data, eig).values[i] >= 0.0
    ensures var kept := PcaTransform(data, nComponents, eig).explainedVariance;
      0.0 <= Sum(kept) <= 1.0
  {
    var a := AnalyzeEigenstructure(data, eig);
    var m := SliceStop(nComponents, Features(data));
    if Features(data) > 0 {
      ProportionsPrefixAtMostOne(a.eigenvalues, m);
    }
  }

  // ---------------------------------------------------------------------
  // reconstruct_data
  // ---------------------------------------------------------------------

  /** projected @ components.T + mean: entry (i, j) is the dot product of
      projected row i with components row j, plus mean j. */
  function ReconstructData(projected: Matrix, components: Matrix, mean: Vector): (r: Matrix)
    requires |components| == |mean|
    requires forall i, j :: 0 <= i < |projected| && 0 <= j < |components| ==>
      |projected[i]| == |components[j]|
    ensures IsMatrix(r, |projected|, |mean|)
    ensures forall i, j :: 0 <= i < |projected| && 0 <= j < |mean| ==>
      r[i][j] - mean[j] == Dot(projected[i], components[j])
  {
    seq(|projected|, i requires 0 <= i < |projected| =>
      seq(|mean|, j requires 0 <= j < |mean| => Dot(projected[i], components[j]) + mean[j]))
  }

  /** w is an n-by-n matrix with w @ w.T == I: its rows are orthonormal. */
  predicate RowsOrthonormal(w: Matrix, n: nat) {
    IsMatrix(w, n, n) &&
    forall a, b :: 0 <= a < n && 0 <= b < n ==>
      Dot(w[a], w[b]) == if a == b then 1.0 else 0.0
  }

  /** Projecting a row onto orthonormal rows and back gives each entry back. */
  lemma {:induction false} ProjectBack(x: Vector, w: Matrix, j: nat)
    requires RowsOrthonormal(w, |x|) && j < |x|
    ensures Dot(VecMat(x, w, |x|), w[j]) == x[j]
  {
    DotInterchange(x, w, |x|, w[j]);
    var e := MatVec(w, w[j]);
    assert forall r :: 0 <= r < |e| ==> e[r] == Dot(w[r], w[j]);
    DotUnit(x, e, j);
  }

  /** With w @ w.T == I, reconstructing the projection of centered data
      gives the data back exactly. */
  lemma {:induction false} ReconstructInvertsProjection(data: Matrix, mean: Vector, w: Matrix)
    requires IsMatrix(data, |data|, |mean|) && RowsOrthonormal(w, |mean|)
    ensures ReconstructData(Project(Center(data, mean), w, |mean|), w, mean) == data
  {
    var d := |mean|;
    var c := Center(data, mean);
    var p := Project(c, w, d);
    var out := ReconstructData(p, w, mean);
    forall i | 0 <= i < |data| ensures out[i] == data[i] {
      forall j | 0 <= j < d ensures out[i][j] == data[i][j] {
        assert p[i] == VecMat(c[i], w, d);
        ProjectBack(c[i], w, j);
      }
    }
  }

  /** Keeping every component of an orthogonal eigenvector matrix loses
      nothing: reconstruct_data gives back the data pca_transform got. */
  lemma {:induction false} PcaRoundTrip(data: Matrix, nComponents: int, eig: Matrix -> EigenPair)
    requires CanAnalyze(data, eig) && nComponents >= Features(data)
    requires RowsOrthonormal(Spectrum(data, eig).vectors, Features(data))
    ensures var a, p := AnalyzeEigenstructure(data, eig), PcaTransform(data, nComponents, eig);
      ReconstructData(p.projected, p.components, a.mean) == data
  {
    var a := AnalyzeEigenstructure(data, eig);
    var p := PcaTransform(data, nComponents, eig);
    var d := Features(data);
    var w := a.eigenvectors;
    assert p.components == w by {
      forall row | 0 <= row < d ensures p.components[row] == w[row] {
        assert w[row][..d] == w[row];
      }
    }
    assert a.centered == Center(data, a.mean);
    ReconstructInvertsProjection(data, a.mean, w);
  }

  // ---------------------------------------------------------------------
  // compute_reconstruction_error
  // ---------------------------------------------------------------------

  /** The sum of every entry of a matrix, row by row. */
  function SumAll(m: Matrix): real {
    Sum(seq(|m|, i requires 0 <= i < |m| => Sum(m[i])))
  }

  /** np.mean over every entry of an n-by-d matrix with n, d > 0. */
  function MeanAll(m: Matrix, d: nat): (mu: real)
    requires |m| > 0 && d > 0 && IsMatrix(m, |m|, d)
    ensures mu * (|m| * d) as real == SumAll(m)
  {
    SumAll(m) / (|m| * d) as real
  }

  /** (a - b) ** 2, entry by entry. */
  function SquaredDifferences(a: Matrix, b: Matrix, d: nat): (sq: Matrix)
    requires IsMatrix(a, |a|, d) && IsMatrix(b, |a|, d)
    ensures IsMatrix(sq, |a|, d)
    ensures forall i, j {:trigger a[i][j], b[i][j]} :: 0 <= i < |a| && 0 <= j < d ==> sq[i][j] == Square(a[i][j] - b[i][j])
  {
    seq(|a|, i requires 0 <= i < |a| =>
      seq(d, j requires 0 <= j < d => Square(a[i][j] - b[i][j])))
  }

  /** An n-by-d matrix every entry of which is c. */
  function Fill(n: nat, d: nat, c: real): (f: Matrix)
    ensures IsMatrix(f, n, d)
    ensures forall i, j :: 0 <= i < n && 0 <= j < d ==> f[i][j] == c
  {
    seq(n, i requires 0 <= i < n => seq(d, j requires 0 <= j < d => c))
  }

  /** The mean of the squared differences is never negative, and it is
      zero exactly when the two matrices are equal. */
  lemma {:induction false} MeanSquaredDifferenceZeroIff(a: Matrix, b: Matrix, d: nat)
    requires |a| > 0 && d > 0 && IsMatrix(a, |a|, d) && IsMatrix(b, |a|, d)
    ensures MeanAll(SquaredDifferences(a, b, d), d) >= 0.0
    ensures MeanAll(SquaredDifferences(a, b, d), d) == 0.0 <==> a == b
  {
    SquaredDifferencesZeroIff(a, b, d);
    MeanAllZeroIff(SquaredDifferences(a, b, d), d);
  }

  /** A matrix equals the filled one exactly when every entry is c. */
  lemma {:induction false} FillIff(m: Matrix, d: nat, c: real)
    requires IsMatrix(m, |m|, d)
    ensures m == Fill(|m|, d, c) <==> forall i, j :: 0 <= i < |m| && 0 <= j < d ==> m[i][j] == c
  {
    var f := Fill(|m|, d, c);
    if forall i, j :: 0 <= i < |m| && 0 <= j < d ==> m[i][j] == c {
      forall i | 0 <= i < |m| ensures m[i] == f[i] { }
    }
  }

  /** np.var(m): the population variance (ddof = 0) of every entry, the
      sum of the squared distances from the overall mean divided by the
      number of entries. It is never negative, and it is zero exactly when
      every entry equals the mean. */
  function PopulationVariance(m: Matrix, d: nat): (v: real)
    requires |m| > 0 && d > 0 && IsMatrix(m, |m|, d)
    ensures v == SumAll(SquaredDifferences(m, Fill(|m|, d, MeanAll(m, d)), d)) / (|m| * d) as real
    ensures v >= 0.0
    ensures v == 0.0 <==> forall i, j :: 0 <= i < |m| && 0 <= j < d ==> m[i][j] == MeanAll(m, d)
  {
    var mu := Fill(|m|, d, MeanAll(m, d));
    var sq := SquaredDifferences(m, mu, d);
    var v := MeanAll(sq, d);
    assert |sq| == |m|;
    assert v >= 0.0 && (v == 0.0 <==> m == mu) by {
      MeanSquaredDifferenceZeroIff(m, mu, d);
    }
    assert m == mu <==> forall i, j :: 0 <= i < |m| && 0 <= j < d ==> m[i][j] == MeanAll(m, d) by {
      FillIff(m, d, MeanAll(m, d));
    }
    v
  }

  /** The divisor is the number of entries, not one less: the two values
      0 and 2 have mean 1 and variance 1 (a ddof = 1 variance would be 2). */
  lemma {:induction false} PopulationVarianceExample()
    ensures PopulationVariance([[0.0, 2.0]], 2) == 1.0
  {
    var m: Matrix := [[0.0, 2.0]];
    assert Sum(m[0]) == 2.0 by {
      assert m[0][1..] == [2.0];
      assert m[0][1..][1..] == [];
    }
    var rows := seq(1, i requires 0 <= i < 1 => Sum(m[i]));
    assert rows[1..] == [];
    assert MeanAll(m, 2) == 1.0;
    var sq := SquaredDifferences(m, Fill(1, 2, 1.0), 2);
    assert sq[0] == [1.0, 1.0];
    assert Sum(sq[0]) == 2.0 by {
      assert sq[0][1..] == [1.0];
      assert sq[0][1..][1..] == [];
    }
    var sqRows := seq(1, i requires 0 <= i < 1 => Sum(sq[i]));
    assert sqRows[1..] == [];
    assert SumAll(sq) == 2.0;
  }

  /** The dictionary compute_reconstruction_error returns. */
  datatype ErrorMetrics = ErrorMetrics(mse: real, rmse: real, relativeError: real, relativePercent: real)

  /** The inputs on which compute_reconstruction_error produces finite
      numbers: two matrices of the same non-empty shape. */
  predicate SameShape(original: Matrix, reconstructed: Matrix) {
    |original| > 0 && |original[0]| > 0 &&
    IsMatrix(original, |original|, |original[0]|) &&
    IsMatrix(reconstructed, |original|, |original[0]|)
  }

  /** compute_reconstruction_error. np.sqrt is the parameter sqrt. The
      relative error is guarded: it is zero unless the original data varies. */
  function ReconstructionError(original: Matrix, reconstructed: Matrix, sqrt: real -> real): (r: ErrorMetrics)
    requires SameShape(original, reconstructed)
    ensures r.mse == MeanAll(SquaredDifferences(original, reconstructed, |original[0]|), |original[0]|)
    ensures r.rmse == sqrt(r.mse)
    ensures var v := PopulationVariance(original, |original[0]|);
      (v > 0.0 ==> r.relativeError * v == r.mse) && (v <= 0.0 ==> r.relativeError == 0.0)
    ensures r.relativePercent == r.relativeError * 100.0
  {
    var d := |original[0]|;
    var mse := MeanAll(SquaredDifferences(original, reconstructed, d), d);
    var v := PopulationVariance(original, d);
    var relative := if v > 0.0 then mse / v else 0.0;
    assert v > 0.0 ==> relative * v == mse by {
      if v > 0.0 { DivideTimes(mse, v); }
    }
    ErrorMetrics(mse, sqrt(mse), relative, relative * 100.0)
  }

  /** A sum over a matrix of non-negative entries is non-negative, and it is
      zero only when every entry is. */
  lemma {:induction false} SumAllNonNegative(m: Matrix)
    requires forall i, j :: 0 <= i < |m| && 0 <= j < |m[i]| ==> m[i][j] >= 0.0
    ensures SumAll(m) >= 0.0
    ensures SumAll(m) == 0.0 ==> forall i, j :: 0 <= i < |m| && 0 <= j < |m[i]| ==> m[i][j] == 0.0
  {
    var rows := seq(|m|, i requires 0 <= i < |m| => Sum(m[i]));
    forall i | 0 <= i < |m| ensures rows[i] >= 0.0 && (rows[i] == 0.0 ==> forall j :: 0 <= j < |m[i]| ==> m[i][j] == 0.0) {
      SumNonNegative(m[i]);
    }
    SumNonNegative(rows);
  }

  /** A matrix of zeros sums to zero. */
  lemma {:induction false} SumAllZero(m: Matrix)
    requires forall i, j :: 0 <= i < |m| && 0 <= j < |m[i]| ==> m[i][j] == 0.0
    ensures SumAll(m) == 0.0
  {
    var rows := seq(|m|, i requires 0 <= i < |m| => Sum(m[i]));
    forall i | 0 <= i < |m| ensures rows[i] == 0.0 {
      SumConstant(m[i], 0.0);
    }
    SumConstant(rows, 0.0);
  }

  /** The mean of non-negative entries is non-negative, and zero exactly
      when every entry is zero. */
  lemma {:induction false} MeanAllZeroIff(m: Matrix, d: nat)
    requires |m| > 0 && d > 0 && IsMatrix(m, |m|, d)
    requires forall i, j :: 0 <= i < |m| && 0 <= j < d ==> m[i][j] >= 0.0
    ensures MeanAll(m, d) >= 0.0
    ensures MeanAll(m, d) == 0.0 <==> forall i, j :: 0 <= i < |m| && 0 <= j < d ==> m[i][j] == 0.0
  {
    var n := (|m| * d) as real;
    SumAllNonNegative(m);
    DivideNonNegative(SumAll(m), n);
    DivideTimes(SumAll(m), n);
    if forall i, j :: 0 <= i < |m| && 0 <= j < d ==> m[i][j] == 0.0 {
      SumAllZero(m);
    }
  }

  /** Every squared difference is non-negative, and all of them are zero
      exactly when the two matrices are equal. */
  lemma {:induction false} SquaredDifferencesZeroIff(a: Matrix, b: Matrix, d: nat)
    requires IsMatrix(a, |a|, d) && IsMatrix(b, |a|, d)
    ensures var sq := SquaredDifferences(a, b, d);
      forall i, j :: 0 <= i < |a| && 0 <= j < d ==> sq[i][j] >= 0.0
    ensures var sq := SquaredDifferences(a, b, d);
      (forall i, j :: 0 <= i < |a| && 0 <= j < d ==> sq[i][j] == 0.0) <==> a == b
  {
    var sq := SquaredDifferences(a, b, d);
    forall i, j | 0 <= i < |a| && 0 <= j < d
      ensures sq[i][j] >= 0.0 && (sq[i][j] == 0.0 <==> a[i][j] == b[i][j])
    {
      assert sq[i][j] == Square(a[i][j] - b[i][j]);
    }
    if forall i, j :: 0 <= i < |a| && 0 <= j < d ==> sq[i][j] == 0.0 {
      forall i | 0 <= i < |a| ensures a[i] == b[i] {
        assert forall j :: 0 <= j < d ==> a[i][j] == b[i][j];
      }
    }
  }

  /** The mean squared error is never negative, and it is zero exactly when
      the reconstruction equals the original. */
  lemma {:induction false} MseZeroIffExact(original: Matrix, reconstructed: Matrix, sqrt: real -> real)
    requires SameShape(original, reconstructed)
    ensures ReconstructionError(original, reconstructed, sqrt).mse >= 0.0
    ensures ReconstructionError(original, reconstructed, sqrt).mse == 0.0 <==> original == reconstructed
  {
    var d := |original[0]|;
    SquaredDifferencesZeroIff(original, reconstructed, d);
    MeanAllZeroIff(SquaredDifferences(original, reconstructed, d), d);
  }

  /** With np.sqrt the non-negative square root, rmse is non-negative and
      squares to mse. */
  lemma {:induction false} RmseSquaresToMse(original: Matrix, reconstructed: Matrix, sqrt: real -> real)
    requires SameShape(original, reconstructed)
    requires forall x :: x >= 0.0 ==> sqrt(x) >= 0.0 && sqrt(x) * sqrt(x) == x
    ensures var r := ReconstructionError(original, reconstructed, sqrt);
      r.rmse >= 0.0 && r.rmse * r.rmse == r.mse
  {
    var r := ReconstructionError(original, reconstructed, sqrt);
    assert r.mse >= 0.0 by {
      MseZeroIffExact(original, reconstructed, sqrt);
    }
    RootSquares(r.rmse, r.mse, sqrt);
  }

  /** A non-negative square root of a non-negative number squares to it. */
  lemma {:induction false} RootSquares(root: real, x: real, sqrt: real -> real)
    requires x >= 0.0 && root == sqrt(x)
    requires forall y :: y >= 0.0 ==> sqrt(y) >= 0.0 && sqrt(y) * sqrt(y) == y
    ensures root >= 0.0 && root * root == x
  {
  }

  /** The mean of a matrix whose entries all equal c is c. */
  lemma {:induction false} MeanAllConstant(m: Matrix, d: nat, c: real)
    requires |m| > 0 && d > 0 && IsMatrix(m, |m|, d)
    requires forall i, j :: 0 <= i < |m| && 0 <= j < d ==> m[i][j] == c
    ensures MeanAll(m, d) == c
  {
    SumAllConstant(m, d, c);
    DivideTimesBack((|m| * d) as real, c);
  }

  lemma {:induction false} SumAllConstant(m: Matrix, d: nat, c: real)
    requires IsMatrix(m, |m|, d)
    requires forall i, j :: 0 <= i < |m| && 0 <= j < d ==> m[i][j] == c
    ensures SumAll(m) == (|m| * d) as real * c
  {
    var rows := seq(|m|, i requires 0 <= i < |m| => Sum(m[i]));
    forall i | 0 <= i < |m| ensures rows[i] == d as real * c {
      SumConstant(m[i], c);
    }
    SumConstant(rows, d as real * c);
  }

  /** Original data whose entries are all equal has no variance, so its
      relative error is zero whatever the reconstruction. */
  lemma {:induction false} ConstantDataZeroRelativeError(original: Matrix, reconstructed: Matrix, sqrt: real -> real, c: real)
    requires SameShape(original, reconstructed)
    requires forall i, j :: 0 <= i < |original| && 0 <= j < |original[i]| ==> original[i][j] == c
    ensures PopulationVariance(original, |original[0]|) == 0.0
    ensures ReconstructionError(original, reconstructed, sqrt).relativeError == 0.0
    ensures ReconstructionError(original, reconstructed, sqrt).relativePercent == 0.0
  {
    var d := |original[0]|;
    MeanAllConstant(original, d, c);
    var mu := seq(|original|, i requires 0 <= i < |original| => seq(d, j requires 0 <= j < d => MeanAll(original, d)));
    var sq := SquaredDifferences(original, mu, d);
    MeanAllConstant(sq, d, 0.0);
  }
}
