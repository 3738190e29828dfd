# Drone flight-direction eigenanalysis, modelled in Dafny

This project models the analysis core of a drone flight-direction estimator.
A cloud of 3-D positions is centred on its mean, and its sample covariance is
decomposed into eigenpairs. The pairs are sorted from the largest eigenvalue
down. The leading eigenvector gives the direction of flight, and the
eigenvalues are read as shares of the motion.

Two source files are modelled:

- `src/eigenanalysis.py`: the statistics and PCA pipeline. It covers
  `compute_covariance`, the sort in `eigendecompose`, `analyze_eigenstructure`,
  `pca_transform`, `reconstruct_data` and `compute_reconstruction_error`.
- `src/interpretation.py`: the interpretation rules. It covers
  `interpret_eigenvalues`, the degeneracy check of `analyze_flight_direction`,
  `compare_with_ground_truth`, and `compute_heading_pitch` as an application of
  an abstract atan2.

numpy's float arithmetic is idealised to exact `real` arithmetic. Vectors are
`seq<real>` and matrices are `seq<seq<real>>` (a sequence of rows). Several
numpy pieces are not modelled and are passed in as function parameters:

- the eigen-solver `np.linalg.eig` is `eig: Matrix -> EigenPair`;
- `np.degrees(np.arctan2(y, x))` is `atan2Deg`;
- `np.sqrt` is `sqrt`.

Properties that depend on what these functions return are stated under
explicit hypotheses about them.

Files:

- `linalg.dfy` (module `LinAlg`): vectors, matrices, sums, dot products,
  columns, fancy indexing (`Gather`), shares of a total (`Proportions`), and
  the lemmas about them. These include the interchange
  `(x @ W) @ y == x @ (W @ y)` behind the reconstruction round trip.
- `sorting.dfy` (module `Sorting`): `argsort()` as an insertion sort on
  indices, and the reversal `[::-1]`.
- `eigenanalysis.dfy` (module `Eigenanalysis`): the PCA pipeline.
- `interpretation.dfy` (module `Interpretation`): the interpretation rules.
  `interpret_eigenvalues` is a method with a loop that appends records, proved
  against the function `EigenInterpretationOf`. `compare_with_ground_truth` is a
  method that reassigns the heading error and extends the result record.

## Model

| member | source | states |
|---|---|---|
| Eigenanalysis.ColumnMeans | src/eigenanalysis.py:31 | one mean per column; each mean times the number of rows is that column's sum |
| Eigenanalysis.Center | src/eigenanalysis.py:32 | the centered matrix has the data's shape, and centered entry plus column mean gives the data entry back |
| Eigenanalysis.SampleCovariance | src/eigenanalysis.py:33 | np.cov of an n-by-d matrix is d-by-d (at d = 1 numpy squeezes this to a scalar, kept here as the 1-by-1 matrix) |
| Eigenanalysis.ComputeCovariance | src/eigenanalysis.py:31-35 | mean has one entry per feature, equal to the column sum over N; centered is data minus mean; covariance is d-by-d |
| Eigenanalysis.CenteredColumnsSumToZero | src/eigenanalysis.py:31-32 | every column of the centered data sums to 0 |
| Eigenanalysis.RecenterIsIdentity | src/eigenanalysis.py:33 | np.cov's own re-centering leaves data with zero column sums unchanged |
| Eigenanalysis.CovarianceEntries | src/eigenanalysis.py:31-33 | covariance entry (j,k) is the sum over rows of centered[i][j]·centered[i][k], divided by N−1 |
| Eigenanalysis.CovarianceSymmetric | src/eigenanalysis.py:33 | the covariance matrix is symmetric |
| Eigenanalysis.CovarianceDiagonalNonNegative | src/eigenanalysis.py:33 | every variance on the diagonal is ≥ 0 |
| Sorting.InsertIndex | src/eigenanalysis.py:60 | inserting an index adds exactly that index to the multiset and keeps every index in bounds |
| Sorting.InsertIndexAscending | src/eigenanalysis.py:60 | insertion keeps the indices in ascending order of value |
| Sorting.ArgsortPrefix | src/eigenanalysis.py:60 | the partial argsort of the first n indices holds each of 0..n−1 exactly once |
| Sorting.ArgsortPrefixAscending | src/eigenanalysis.py:60 | the partial argsort lists its indices in ascending order of value |
| Sorting.Argsort | src/eigenanalysis.py:60 | argsort() is a permutation of the indices that lists the values in ascending order |
| Sorting.Reverse | src/eigenanalysis.py:60 | [::-1] has the same length, and entry k is entry n−1−k of the input |
| Sorting.ReverseMultiset | src/eigenanalysis.py:60 | [::-1] keeps the same elements |
| Sorting.DescendingOrder | src/eigenanalysis.py:60 | argsort()[::-1] is a permutation of the indices that lists the values in non-increasing order; no order among ties is promised |
| Eigenanalysis.SortOrder | src/eigenanalysis.py:60 | the index array is a permutation of 0..n−1 |
| Eigenanalysis.Eigendecompose | src/eigenanalysis.py:57-64 | values come out non-increasing and are a permutation of eig's values; output value i is input value idx[i], and output column i is input column idx[i] for the same idx; the shapes are kept |
| Eigenanalysis.EigendecomposeKeepsEigenpairs | src/eigenanalysis.py:57-62 | if eig returned eigenpairs of the matrix, the sorted pairs are still eigenpairs (each column moved with its value) |
| Eigenanalysis.Spectrum | src/eigenanalysis.py:88 | the eigenvalues of the covariance come out non-increasing, one per feature, with a d-by-d eigenvector matrix |
| Eigenanalysis.AnalyzeEigenstructure | src/eigenanalysis.py:87-100 | the record carries compute_covariance's three arrays, the sorted eigenpairs, and each eigenvalue divided by their sum |
| Eigenanalysis.ExplainedVarianceRatios | src/eigenanalysis.py:90-91 | the explained-variance ratios sum to 1, and they are non-increasing when the total is positive |
| Eigenanalysis.SliceStop | src/eigenanalysis.py:126 | Python's stop for [:k]: k when 0 ≤ k ≤ d, d when k > d, max(d+k, 0) when k < 0 |
| Eigenanalysis.LeadingColumns | src/eigenanalysis.py:126 | W keeps every row and exactly the first m entries of each |
| Eigenanalysis.Project | src/eigenanalysis.py:127 | projected[i][j] is the dot product of row i with column j of W |
| Eigenanalysis.PcaTransformDefault | src/eigenanalysis.py:103-131 | with n_components left at its default 2, the result keeps min(2, d) components and min(2, d) ratios |
| Eigenanalysis.PcaTransform | src/eigenanalysis.py:123-131 | components are the first min(k,d) eigenvector columns; projected is centered @ W; explained variance is the matching prefix of the ratios |
| Eigenanalysis.KeptComponentsDominate | src/eigenanalysis.py:126-129 | every kept eigenvalue is ≥ every dropped one, and so is its ratio when the total is positive |
| Eigenanalysis.RetainedVarianceAtMostOne | src/eigenanalysis.py:129 | with no negative eigenvalue, the kept ratios sum to between 0 and 1 |
| Eigenanalysis.ReconstructData | src/eigenanalysis.py:152 | out[i][j] − mean[j] is the dot product of projected row i with component row j |
| Eigenanalysis.ProjectBack | src/eigenanalysis.py:152 | projecting a row onto orthonormal rows and multiplying back gives every entry back |
| Eigenanalysis.ReconstructInvertsProjection | src/eigenanalysis.py:152 | with W·Wᵀ = I, reconstructing (data − mean) @ W gives the data exactly |
| Eigenanalysis.PcaRoundTrip | src/eigenanalysis.py:123-131 | keeping all components of an orthonormal eigenvector matrix, reconstruct_data(pca_transform(data)) gives the data back |
| Eigenanalysis.SquaredDifferences | src/eigenanalysis.py:171-172 | the squared differences have the shape of the inputs, and entry (i,j) is (a[i][j] − b[i][j])² |
| Eigenanalysis.ReconstructionError | src/eigenanalysis.py:171-183 | mse is the mean of the squared differences; rmse is sqrt(mse); relative error times the population variance is mse when the variance is > 0, and otherwise 0; the percentage is 100 times the relative error |
| Eigenanalysis.MeanAll | src/eigenanalysis.py:172 | np.mean over all entries: the mean times the number of entries is their sum |
| Eigenanalysis.PopulationVariance | src/eigenanalysis.py:175 | np.var (ddof = 0): the variance times the number of entries is the sum of the squared distances from the overall mean; it is ≥ 0, and it is 0 exactly when every entry equals the overall mean |
| Eigenanalysis.FillIff | src/eigenanalysis.py:175 | a matrix equals the constant matrix of c exactly when every entry is c |
| Eigenanalysis.PopulationVarianceExample | src/eigenanalysis.py:175 | the entries 0 and 2 have variance 1, the population value (a ddof = 1 variance would be 2) |
| Eigenanalysis.SumAllNonNegative | src/eigenanalysis.py:172 | a sum of non-negative entries is ≥ 0, and is 0 only if every entry is |
| Eigenanalysis.SumAllZero | src/eigenanalysis.py:172 | a matrix of zeros sums to 0 |
| Eigenanalysis.MeanAllZeroIff | src/eigenanalysis.py:172 | the mean of non-negative entries is ≥ 0, and is 0 exactly when every entry is 0 |
| Eigenanalysis.SquaredDifferencesZeroIff | src/eigenanalysis.py:171-172 | squared differences are ≥ 0, and all of them are 0 exactly when the matrices are equal |
| Eigenanalysis.MseZeroIffExact | src/eigenanalysis.py:171-172 | mse ≥ 0, and mse = 0 exactly when the reconstruction equals the original |
| Eigenanalysis.RmseSquaresToMse | src/eigenanalysis.py:173 | if sqrt is the non-negative square root, rmse ≥ 0 and rmse² = mse |
| Eigenanalysis.MeanAllConstant | src/eigenanalysis.py:175 | the mean of a constant matrix is that constant |
| Eigenanalysis.SumAllConstant | src/eigenanalysis.py:175 | a constant n-by-d matrix sums to n·d times the constant |
| Eigenanalysis.ConstantDataZeroRelativeError | src/eigenanalysis.py:175-176 | constant original data has zero variance, so the guard makes the relative error and percentage 0 |
| LinAlg.Proportions | src/eigenanalysis.py:91 | one share per entry; each share times the total gives the entry back |
| LinAlg.Gather | src/eigenanalysis.py:61 | v[idx] has one entry per index, entry k being v[idx[k]] |
| LinAlg.GatherSameIndices | src/eigenanalysis.py:61 | two index sequences holding the same indices gather the same values, each as often |
| LinAlg.GatherPermutation | src/eigenanalysis.py:61 | gathering through a permutation of the indices keeps every value, as often as it occurs |
| LinAlg.GatherColumns | src/eigenanalysis.py:62 | m[:, idx] keeps every row, and entry (row, k) is m[row][idx[k]] |
| LinAlg.ProportionsSumToOne | src/eigenanalysis.py:90-91 | the shares of a non-empty vector with a non-zero total sum to 1 |
| LinAlg.ProportionsPrefixAtMostOne | src/eigenanalysis.py:129 | the first m shares of non-negative entries sum to between 0 and 1 |
| LinAlg.ProportionsNonIncreasing | src/eigenanalysis.py:91 | dividing by a positive total keeps a non-increasing order |
| LinAlg.DotInterchange | src/eigenanalysis.py:152 | (x @ W) @ y equals x @ (W @ y) |
| LinAlg.ColumnOfGather | src/eigenanalysis.py:62 | column i of m[:, idx] is column idx[i] of m |
| LinAlg.Square | src/eigenanalysis.py:172 | a square is ≥ 0, and is 0 exactly at 0 |
| Interpretation.Decimal | src/interpretation.py:68 | f"{n}" is a non-empty string of digits with no leading zero |
| Interpretation.DecimalRoundTrip | src/interpretation.py:68 | parsing the digits of n gives n back |
| Interpretation.Label | src/interpretation.py:60-68 | record i < 3 gets the i-th of the three fixed labels (initials P, L, V); a later record i gets "Component " followed by f"{i+1}": decimal digits with no leading zero that read back as i + 1 |
| Interpretation.LabelsDistinct | src/interpretation.py:60-68 | no two records share a label |
| Interpretation.Describe | src/interpretation.py:67-75 | record i is numbered i + 1 and carries eigenvalue i; its ratio times the total is the eigenvalue; its percentage is 100 times the ratio; its label is Label(i) |
| Interpretation.EigenInterpretationOf | src/interpretation.py:57-81 | the total is the sum of the eigenvalues; there is one record per eigenvalue, record i being Describe(ev, i); dominant_ratio is the first record's ratio, or 0 when there are none |
| Interpretation.InterpretEigenvalues | src/interpretation.py:57-81 | the appending loop yields the record EigenInterpretationOf(ev): the total, one record per eigenvalue, and the dominant ratio |
| Interpretation.RecordsFollowEigenvalues | src/interpretation.py:66-75 | one record per eigenvalue, in input order, numbered 1..n; ratio = eigenvalue / total; percent = 100 × ratio; label per Label(i) |
| Interpretation.PercentagesSumToHundred | src/interpretation.py:57-73 | the ratios sum to 1 and the percentages to 100 |
| Interpretation.DominantRatioIsLargest | src/interpretation.py:80 | on a sorted spectrum with a positive total, dominant_ratio is ≥ every ratio |
| Interpretation.RatiosAreExplainedVariance | src/interpretation.py:57-58 | on analyze_eigenstructure's eigenvalues, the record ratios are its explained-variance ratios |
| Interpretation.LeadingRatio | src/interpretation.py:108-112 | the ratio is +∞ exactly when there are fewer than two eigenvalues or λ2 ≤ 0; a finite ratio times λ2 is λ1 |
| Interpretation.IsDegenerate | src/interpretation.py:108-113 | degenerate exactly when λ2 > 0 and λ1 < 1.5·λ2; +∞ is never degenerate |
| Interpretation.DegeneracyExamples | src/interpretation.py:108-113 | [10, 6.7] is degenerate; [10, 6] is not; [10] and [10, 0] give +∞ and are not degenerate |
| Interpretation.DegenerateSortedSpectrum | src/interpretation.py:108-110 | a degenerate sorted spectrum has 0 < λ2 ≤ λ1 < 1.5·λ2 |
| Interpretation.HeadingPitch | src/interpretation.py:29-40 | the heading is atan2 of (v[1], v[0]); the pitch is atan2 of v[2] over the horizontal magnitude sqrt(v[0]² + v[1]²) |
| Interpretation.ReversedDirectionPitch | src/interpretation.py:29-40 | if atan2 is odd in y for x ≥ 0 and sqrt is non-negative, the eigenvector −v has the opposite pitch |
| Interpretation.ReversedDirectionHeading | src/interpretation.py:29-40 | if atan2 turns by 180° under reflection through the origin, the heading of −v is 180° from that of v |
| Interpretation.AnalyzeFlightDirection | src/interpretation.py:100-123 | the primary direction is eigenvector column 0; heading and pitch are atan2 of it; ratio_1_2 is LeadingRatio; is_degenerate is IsDegenerate, that is λ2 > 0 and λ1 < 1.5·λ2; the warning is present exactly when degenerate |
| Interpretation.HeadingError | src/interpretation.py:147-150 | the error is ≤ 180; it is the absolute difference or 360 minus it; it is ≥ 0 exactly when the headings are at most 360° apart |
| Interpretation.HeadingErrorSymmetric | src/interpretation.py:147-150 | the heading error does not depend on the order of its arguments |
| Interpretation.HeadingErrorIsAngularDistance | src/interpretation.py:147-150 | within a full turn, no shift of the difference by whole turns is closer to zero than the error |
| Interpretation.HeadingErrorAttained | src/interpretation.py:147-150 | within a full turn, a shift of −1, 0 or 1 turns attains the error |
| Interpretation.HeadingErrorExamples | src/interpretation.py:147-150 | (170, −170) and (−170, 170) give 20; (45, 45) gives 0; (600, 0) gives −240 |
| Interpretation.TurnRemainder | src/interpretation.py:147-150 | what is left of a after whole turns lies in [0, 360) |
| Interpretation.WrappedHeadingError | src/interpretation.py:147-150 | the intended fold: the difference reduced modulo 360 and then folded gives an error in [0, 180] for every pair of headings |
| Interpretation.WrappedHeadingErrorIsAngularDistance | src/interpretation.py:147-150 | no shift of the difference by whole turns is closer to zero than the intended fold |
| Interpretation.WrappedHeadingErrorAttained | src/interpretation.py:147-150 | some shift by whole turns attains the intended fold |
| Interpretation.WrappedHeadingErrorAgrees | src/interpretation.py:147-150 | within a full turn, the intended fold equals the code's |
| Interpretation.WrappedHeadingErrorExample | src/interpretation.py:147-150 | at (600, 0) the intended fold gives 120 where the code gives −240 |
| Interpretation.CompareWithGroundTruth | src/interpretation.py:147-166 | the heading fields are always present and the error is the code's single fold, which equals the intended WrappedHeadingError within a full turn; pitch fields are present exactly when both pitches are given; the pitch error is the plain absolute difference |

## Left out

- `np.linalg.eig` (src/eigenanalysis.py:57) is a foreign numerical routine. It is the parameter `eig`, and nothing is proved about eigen-equations or the trace. `EigendecomposeKeepsEigenpairs` assumes eig returned true eigenpairs.
- `.real` (src/eigenanalysis.py:61-62): the model works over reals only, so complex eigenvalues do not arise.
- `np.arctan2`, `np.degrees` and `np.sqrt` are transcendental. They are the parameters `atan2Deg` and `sqrt`. The heading at the pole (v[0] = v[1] = 0) is whatever `atan2Deg` returns.
- Eigenanalysis.IsSampleMatrix requires at least two samples. With one sample, np.cov with rowvar=False does not transpose its input. It reads the single centered row as one variable with d observations and returns a 0-d scalar. np.linalg.eig (src/eigenanalysis.py:57) then raises LinAlgError on that scalar. The model does not represent that exception.
- Float rounding, NaN and infinity are not modelled. Where numpy would divide by zero, the model requires the divisor to be non-zero:
  - a non-zero eigenvalue total (`CanAnalyze`, `HasTotal`);
  - a non-empty matrix for np.mean and np.var (`SameShape`).
- Sorting.Argsort: the order among equal eigenvalues is not promised. `argsort()[::-1]` is not stable, and no contract depends on how ties come out.
- Interpretation.CompareWithGroundTruth keeps the code's single fold. Its heading error is negative for headings more than 360° apart (see "## Findings"). The intended fold is `WrappedHeadingError`, and `WrappedHeadingErrorAgrees` shows the two agree within a full turn.
- Eigenanalysis.CanAnalyze excludes data with exactly one feature. There np.cov squeezes its 1-by-1 result to a scalar, and np.linalg.eig raises LinAlgError on it. The model does not represent that exception.
- Interpretation.AnalyzeFlightDirection requires an eigenvector matrix with at least three rows and at least one column. With fewer rows compute_heading_pitch raises IndexError, and with no column `eigenvectors[:, 0]` does. The model does not represent these exceptions.
- Python's default argument `n_components=2` has no counterpart in Dafny. `PcaTransformDefault` stands for the call that leaves it out.
- Eigenanalysis.SampleCovariance: its own ensures gives only the shape. The entries, symmetry and non-negative diagonal are proved for the covariance of centered data in `CovarianceEntries`, `CovarianceSymmetric` and `CovarianceDiagonalNonNegative`.
- Eigenanalysis.PcaRoundTrip needs all components kept and an orthonormal eigenvector matrix (W·Wᵀ = I). Reconstruction from fewer components is modelled by `ReconstructData` but not bounded.
- `print_analysis_report` (src/interpretation.py:169-203) is console output.
- `src/data_generation.py` uses a seeded random generator and trigonometric rotations, and is not part of this model.
- `src/visualization.py` does plotting and file output, and is not part of this model.
- `src/main.py` is orchestration and console output, and is not part of this model.
- `src/drone_simulation.py` is a re-export module, and is not part of this model.

## Findings

| source | as written | input that shows it | evidently intended | confidence | as-written member | corrected member |
|---|---|---|---|---|---|---|
| src/interpretation.py:147-150 | the difference is folded by 360 once, so for headings more than 360° apart the error goes below 0 | estimated 600, true 0 gives −240 | reduce the difference modulo 360 before folding, giving an error in [0, 180] for all inputs | not executed; the callers pass atan2 headings in (−180, 180], so the case needs a true heading outside that range | Interpretation.HeadingErrorExamples | Interpretation.WrappedHeadingError |
