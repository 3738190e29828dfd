/** The reading of an eigen-analysis in terms of a drone's flight: one
    labelled record per eigenvalue, the flag for a spectrum whose two
    leading eigenvalues are too close to give a direction, and the
    comparison of estimated angles with the true ones.
    np.degrees(np.arctan2(y, x)) and np.sqrt are transcendental; they are
    the parameters atan2Deg and sqrt. */
module Interpretation {
  import opened LinAlg
  import Eigenanalysis

  datatype Option<T> = None | Some(value: T)

  // ---------------------------------------------------------------------
  // Labels
  // ---------------------------------------------------------------------

  /** The names given to the first three components. */
  const FixedLabels: seq<string> := [
    "Primary motion (forward flight)",
    "Lateral drift (wind/turbulence)",
    "Vertical oscillation (altitude noise)"
  ]

  /** The character of a decimal digit. */
  function DigitChar(d: nat): (c: char)
    requires d < 10
    ensures '0' <= c <= '9'
  {
    ('0' as int + d) as char
  }

  /** The value of a decimal digit character. */
  function DigitValue(c: char): (d: nat)
    requires '0' <= c <= '9'
    ensures d < 10
  {
    (c as int - '0' as int) as nat
  }

  predicate IsDecimal(s: string) {
    |s| > 0 && forall k :: 0 <= k < |s| ==> '0' <= s[k] <= '9'
  }

  /** f"{n}": the decimal digits of n, without leading zeros. */
  function Decimal(n: nat): (s: string)
    ensures IsDecimal(s)
    ensures s[0] != '0' || n == 0
    decreases n
  {
    if n < 10 then [DigitChar(n)] else Decimal(n / 10) + [DigitChar(n % 10)]
  }

  /** int(s) for a string of decimal digits: the partner of Decimal. */
  function ParseDecimal(s: string): (n: nat)
    requires forall k :: 0 <= k < |s| ==> '0' <= s[k] <= '9'
    decreases |s|
  {
    if s == [] then 0 else 10 * ParseDecimal(s[..|s| - 1]) + DigitValue(s[|s| - 1])
  }

  /** Reading back the digits of n gives n. */
  lemma {:induction false} DecimalRoundTrip(n: nat)
    ensures ParseDecimal(Decimal(n)) == n
    decreases n
  {
    var s := Decimal(n);
    if n < 10 {
      assert s[..0] == [];
    } else {
      DecimalRoundTrip(n / 10);
      assert s[..|s| - 1] == Decimal(n / 10);
    }
  }

  /** What precedes the number in the label of a record past the third. */
  const NumberedPrefix: string := "Component "

  /** The label of record i: one of the three fixed names, then
      "Component 4", "Component 5", ... The first letter tells the fixed
      labels apart from each other and from the numbered ones, and the
      number in a numbered label is f"{i + 1}": it reads back as i + 1
      and has no leading zero. */
  function Label(i: nat): (s: string)
    ensures i < |FixedLabels| ==> s == FixedLabels[i]
    ensures i >= |FixedLabels| ==> s == NumberedPrefix + Decimal(i + 1)
    ensures |s| > 0
    ensures s[0] == if i == 0 then 'P' else if i == 1 then 'L' else if i == 2 then 'V' else 'C'
    ensures i >= |FixedLabels| ==>
      |s| > |NumberedPrefix| && s[..|NumberedPrefix|] == NumberedPrefix &&
      IsDecimal(s[|NumberedPrefix|..]) && s[|NumberedPrefix|] != '0' &&
      ParseDecimal(s[|NumberedPrefix|..]) == i + 1
  {
    if i < |FixedLabels| then FixedLabels[i]
    else
      var s := NumberedPrefix + Decimal(i + 1);
      assert s[|NumberedPrefix|..] == Decimal(i + 1);
      DecimalRoundTrip(i + 1);
      s
  }

  /** No two records share a label. */
  lemma {:induction false} LabelsDistinct(i: nat, j: nat)
    requires i != j
    ensures Label(i) != Label(j)
  {
  }

  // ---------------------------------------------------------------------
  // interpret_eigenvalues
  // ---------------------------------------------------------------------

  /** One entry of the 'components' list. */
  datatype ComponentInfo = ComponentInfo(
    component: nat,
    eigenvalue: real,
    varianceRatio: real,
    variancePercent: real,
    interpretation: string)

  /** The dictionary interpret_eigenvalues returns. */
  datatype EigenInterpretation = EigenInterpretation(
    totalVariance: real,
    components: seq<ComponentInfo>,
    dominantRatio: real)

  /** The eigenvalues can be divided by their total: they are empty (numpy
      then divides an empty array) or they do not sum to zero. */
  predicate HasTotal(ev: Vector) {
    |ev| == 0 || Sum(ev) != 0.0
  }

  /** The record interpret_eigenvalues appends for eigenvalue i. */
  function Describe(ev: Vector, i: nat): (c: ComponentInfo)
    requires HasTotal(ev) && i < |ev|
    ensures c.component == i + 1 && c.eigenvalue == ev[i] && c.interpretation == Label(i)
    ensures c.varianceRatio * Sum(ev) == ev[i]
    ensures c.variancePercent == 100.0 * c.varianceRatio
  {
    var ratio := Proportions(ev)[i];
    ComponentInfo(i + 1, ev[i], ratio, ratio * 100.0, Label(i))
  }

  /** What interpret_eigenvalues returns, as a value. */
  function EigenInterpretationOf(ev: Vector): (r: EigenInterpretation)
    requires HasTotal(ev)
    ensures r.totalVariance == Sum(ev) && |r.components| == |ev|
    ensures forall i :: 0 <= i < |ev| ==> r.components[i] == Describe(ev, i)
    ensures r.dominantRatio == if |ev| > 0 then r.components[0].varianceRatio else 0.0
  {
    EigenInterpretation(
      Sum(ev),
      seq(|ev|, i requires 0 <= i < |ev| => Describe(ev, i)),
      if |ev| > 0 then Proportions(ev)[0] else 0.0)
  }

  /** interpret_eigenvalues: the list of records is built by appending one
      record per eigenvalue. */
  method InterpretEigenvalues(ev: Vector) returns (r: EigenInterpretation)
    requires HasTotal(ev)
    ensures r == EigenInterpretationOf(ev)
  {
    var total := Sum(ev);
    var ratios := Proportions(ev);
    var results: seq<ComponentInfo> := [];
    var i := 0;
    while i < |ev|
      invariant 0 <= i <= |ev|
      invariant |results| == i
      invariant forall k :: 0 <= k < i ==> results[k] == Describe(ev, k)
    {
      var name := if i < |FixedLabels| then FixedLabels[i] else NumberedPrefix + Decimal(i + 1);
      results := results + [ComponentInfo(i + 1, ev[i], ratios[i], ratios[i] * 100.0, name)];
      i := i + 1;
    }
    assert results == EigenInterpretationOf(ev).components;
    r := EigenInterpretation(total, results, if |ratios| > 0 then ratios[0] else 0.0);
  }

  /** One record per eigenvalue, in input order, numbered from 1; each
      ratio is that eigenvalue over the total and each percentage is a
      hundred times the ratio. */
  lemma {:induction false} RecordsFollowEigenvalues(ev: Vector)
    requires HasTotal(ev)
    ensures var r := EigenInterpretationOf(ev);
      r.totalVariance == Sum(ev) && |r.components| == |ev| &&
      forall i :: 0 <= i < |ev| ==>
        r.components[i].component == i + 1 &&
        r.components[i].eigenvalue == ev[i] &&
        r.components[i].varianceRatio == ev[i] / r.totalVariance &&
        r.components[i].variancePercent == 100.0 * r.components[i].varianceRatio &&
        r.components[i].interpretation == Label(i)
  {
  }

  /** The ratios add up to one and the percentages to a hundred. */
  lemma {:induction false} PercentagesSumToHundred(ev: Vector)
    requires |ev| > 0 && Sum(ev) != 0.0
    ensures var c := EigenInterpretationOf(ev).components;
      Sum(seq(|c|, i requires 0 <= i < |c| => c[i].varianceRatio)) == 1.0 &&
      Sum(seq(|c|, i requires 0 <= i < |c| => c[i].variancePercent)) == 100.0
  {
    var c := EigenInterpretationOf(ev).components;
    var ratios := seq(|c|, i requires 0 <= i < |c| => c[i].varianceRatio);
    var percents := seq(|c|, i requires 0 <= i < |c| => c[i].variancePercent);
    assert ratios == Proportions(ev);
    ProportionsSumToOne(ev);
    SumScale(ratios, percents, 100.0);
  }

  /** On a spectrum sorted from the largest eigenvalue down with a positive
      total, the dominant ratio is the largest of the ratios. */
  lemma {:induction false} DominantRatioIsLargest(ev: Vector)
    requires |ev| > 0 && Sum(ev) > 0.0 && NonIncreasing(ev)
    ensures var r := EigenInterpretationOf(ev);
      forall i :: 0 <= i < |ev| ==> r.dominantRatio >= r.components[i].varianceRatio
  {
    var r := EigenInterpretationOf(ev);
    var p := Proportions(ev);
    ProportionsNonIncreasing(ev);
    forall i | 0 <= i < |ev| ensures r.dominantRatio >= r.components[i].varianceRatio {
      assert r.components[i].varianceRatio == p[i];
      assert r.dominantRatio == p[0];
      assert i == 0 || p[0] >= p[i];
    }
  }

  /** On the output of analyze_eigenstructure the ratios are its explained
      variance ratios. */
  lemma {:induction false} RatiosAreExplainedVariance(data: Matrix, eig: Matrix -> Eigenanalysis.EigenPair)
    requires Eigenanalysis.CanAnalyze(data, eig)
    ensures var a := Eigenanalysis.AnalyzeEigenstructure(data, eig);
      HasTotal(a.eigenvalues) &&
      |EigenInterpretationOf(a.eigenvalues).components| == |a.explainedVariance| &&
      forall i :: 0 <= i < |a.explainedVariance| ==>
        EigenInterpretationOf(a.eigenvalues).components[i].varianceRatio == a.explainedVariance[i]
  {
  }

  // ---------------------------------------------------------------------
  // The degeneracy check of analyze_flight_direction
  // ---------------------------------------------------------------------

  /** A ratio of eigenvalues, or np.inf. */
  datatype Ratio = Finite(value: real) | Infinite

  /** Below this ratio the two leading eigenvalues count as nearly equal. */
  const DegeneracyThreshold: real := 1.5

  const DegeneracyWarning: string := "Eigenvalues nearly equal - no unique direction"

  /** eigenvalue_ratio_1_2: ev[0] / ev[1] when there are two eigenvalues and
      the second is positive, np.inf otherwise. */
  function LeadingRatio(ev: Vector): (q: Ratio)
    ensures q == Infinite <==> |ev| < 2 || ev[1] <= 0.0
    ensures q.Finite? ==> q.value * ev[1] == ev[0]
  {
    if |ev| >= 2 && ev[1] > 0.0 then Finite(ev[0] / ev[1]) else Infinite
  }

  /** is_degenerate: np.inf is never below the threshold, so the spectrum
      is degenerate exactly when the first eigenvalue is below 1.5 times a
      positive second one. */
  predicate IsDegenerate(ev: Vector)
    ensures IsDegenerate(ev) <==> |ev| >= 2 && ev[1] > 0.0 && ev[0] < DegeneracyThreshold * ev[1]
  {
    match LeadingRatio(ev)
    case Finite(q) =>
      DivideBelow(ev[0], ev[1], DegeneracyThreshold);
      q < DegeneracyThreshold
    case Infinite => false
  }

  /** Worked cases: 10 / 6.7 is below 1.5, 10 / 6 is not, and a single
      eigenvalue or a non-positive second one gives np.inf. */
  lemma {:induction false} DegeneracyExamples()
    ensures IsDegenerate([10.0, 6.7])
    ensures !IsDegenerate([10.0, 6.0])
    ensures LeadingRatio([10.0]) == Infinite && !IsDegenerate([10.0])
    ensures LeadingRatio([10.0, 0.0]) == Infinite && !IsDegenerate([10.0, 0.0])
  {
  }

  /** A degenerate spectrum sorted from the largest eigenvalue down has its
      two leading eigenvalues within a factor 1.5 of each other. */
  lemma {:induction false} DegenerateSortedSpectrum(ev: Vector)
    requires NonIncreasing(ev) && IsDegenerate(ev)
    ensures 0.0 < ev[1] <= ev[0] < DegeneracyThreshold * ev[1]
  {
  }

  // ---------------------------------------------------------------------
  // compute_heading_pitch and analyze_flight_direction
  // ---------------------------------------------------------------------

  /** compute_heading_pitch: the heading is the angle of (v[0], v[1]) in the
      horizontal plane, the pitch the angle of v[2] over the horizontal
      magnitude, both through atan2 in degrees. */
  function HeadingPitch(v: Vector, atan2Deg: (real, real) -> real, sqrt: real -> real): (hp: (real, real))
    requires |v| >= 3
    ensures hp.0 == atan2Deg(v[1], v[0])
    ensures hp.1 == atan2Deg(v[2], sqrt(Square(v[0]) + Square(v[1])))
  {
    (atan2Deg(v[1], v[0]), atan2Deg(v[2], sqrt(Square(v[0]) + Square(v[1]))))
  }

  /** -v */
  function Negate(v: Vector): (r: Vector)
    ensures |r| == |v|
  {
    seq(|v|, i requires 0 <= i < |v| => -v[i])
  }

  /** The solver may return -v instead of v. atan2 is odd in its first
      argument on the right half-plane, where the horizontal magnitude lies
      (a non-negative square root), so the pitch of -v is the opposite of
      the pitch of v. */
  lemma {:induction false} ReversedDirectionPitch(v: Vector, atan2Deg: (real, real) -> real, sqrt: real -> real)
    requires |v| >= 3
    requires forall y, x :: x >= 0.0 ==> atan2Deg(-y, x) == -atan2Deg(y, x)
    requires forall z :: z >= 0.0 ==> sqrt(z) >= 0.0
    ensures HeadingPitch(Negate(v), atan2Deg, sqrt).1 == -HeadingPitch(v, atan2Deg, sqrt).1
  {
    var w := Negate(v);
    SquareOfNegation(v[0]);
    SquareOfNegation(v[1]);
    assert Square(w[0]) + Square(w[1]) == Square(v[0]) + Square(v[1]);
    var h := sqrt(Square(v[0]) + Square(v[1]));
    assert h >= 0.0;
    assert w[2] == -v[2];
    assert atan2Deg(-v[2], h) == -atan2Deg(v[2], h);
  }

  lemma {:induction false} SquareOfNegation(x: real)
    ensures Square(-x) == Square(x)
  {
    assert Product(-x, -x) == Product(x, x);
  }

  /** When atan2 turns by half a circle as its point is reflected through
      the origin, the heading of -v is 180 degrees away from that of v:
      the largest error compare_with_ground_truth can report. */
  lemma {:induction false} ReversedDirectionHeading(v: Vector, atan2Deg: (real, real) -> real, sqrt: real -> real)
    requires |v| >= 3 && (v[0] != 0.0 || v[1] != 0.0)
    requires forall y, x :: y != 0.0 || x != 0.0 ==> Abs(atan2Deg(-y, -x) - atan2Deg(y, x)) == 180.0
    ensures HeadingError(HeadingPitch(Negate(v), atan2Deg, sqrt).0, HeadingPitch(v, atan2Deg, sqrt).0) == 180.0
  {
    var w := Negate(v);
    assert w[0] == -v[0] && w[1] == -v[1];
    assert Abs(atan2Deg(-v[1], -v[0]) - atan2Deg(v[1], v[0])) == 180.0;
  }

  /** The dictionary analyze_flight_direction returns. */
  datatype FlightAnalysis = FlightAnalysis(
    headingDeg: real,
    pitchDeg: real,
    primaryDirection: Vector,
    eigenvalueAnalysis: EigenInterpretation,
    eigenvalueRatio12: Ratio,
    isDegenerate: bool,
    degeneracyWarning: Option<string>)

  /** analyze_flight_direction: the primary direction is the first
      eigenvector column; the warning is present exactly when the spectrum
      is degenerate. */
  method AnalyzeFlightDirection(vectors: Matrix, ev: Vector, atan2Deg: (real, real) -> real, sqrt: real -> real)
    returns (r: FlightAnalysis)
    requires |vectors| >= 3 && forall i :: 0 <= i < |vectors| ==> |vectors[i]| > 0
    requires HasTotal(ev)
    ensures r.primaryDirection == Column(vectors, 0)
    ensures (r.headingDeg, r.pitchDeg) == HeadingPitch(Column(vectors, 0), atan2Deg, sqrt)
    ensures r.eigenvalueAnalysis == EigenInterpretationOf(ev)
    ensures r.eigenvalueRatio12 == LeadingRatio(ev)
    ensures r.isDegenerate == IsDegenerate(ev)
    ensures r.isDegenerate <==> |ev| >= 2 && ev[1] > 0.0 && ev[0] < DegeneracyThreshold * ev[1]
    ensures r.degeneracyWarning.Some? <==> r.isDegenerate
    ensures r.degeneracyWarning.Some? ==> r.degeneracyWarning.value == DegeneracyWarning
  {
    var v1 := Column(vectors, 0);
    var hp := HeadingPitch(v1, atan2Deg, sqrt);
    var interp := InterpretEigenvalues(ev);
    var ratio: Ratio;
    var degenerate: bool;
    if |ev| >= 2 {
      ratio := if ev[1] > 0.0 then Finite(ev[0] / ev[1]) else Infinite;
      degenerate := ratio.Finite? && ratio.value < DegeneracyThreshold;
    } else {
      ratio := Infinite;
      degenerate := false;
    }
    assert degenerate == IsDegenerate(ev);
    r := FlightAnalysis(hp.0, hp.1, v1, interp, ratio, degenerate,
      if degenerate then Some(DegeneracyWarning) else None);
  }

  // ---------------------------------------------------------------------
  // compare_with_ground_truth
  // ---------------------------------------------------------------------

  /** heading_error: the absolute difference, folded once by 360 degrees
      when it exceeds 180. It never exceeds 180, and it is non-negative
      exactly when the two headings are at most a full turn apart (a single
      fold cannot undo more). */
  function HeadingError(est: real, tru: real): (e: real)
    ensures e <= 180.0
    ensures e == Abs(est - tru) || e == 360.0 - Abs(est - tru)
    ensures e >= 0.0 <==> Abs(est - tru) <= 360.0
  {
    var e := Abs(est - tru);
    if e > 180.0 then 360.0 - e else e
  }

  /** The error does not depend on the order of its arguments. */
  lemma {:induction false} HeadingErrorSymmetric(est: real, tru: real)
    ensures HeadingError(est, tru) == HeadingError(tru, est)
  {
    assert Abs(est - tru) == Abs(tru - est);
  }

  /** |est - tru - 360 k|: the difference shifted by k whole turns. */
  function Shifted(est: real, tru: real, k: int): real {
    Abs(est - tru - 360.0 * k as real)
  }

  /** Within a full turn the error is the angular distance: no shift of the
      difference by a whole number of turns comes closer to zero. */
  lemma {:induction false} HeadingErrorIsAngularDistance(est: real, tru: real, k: int)
    requires Abs(est - tru) <= 360.0
    ensures HeadingError(est, tru) <= Shifted(est, tru, k)
  {
    var d := est - tru;
    if k >= 1 {
      assert 360.0 * k as real >= 360.0;
    } else if k <= -1 {
      assert 360.0 * k as real <= -360.0;
    }
  }

  /** ... and one of the shifts by -1, 0 or 1 turns attains it. */
  lemma {:induction false} HeadingErrorAttained(est: real, tru: real)
    requires Abs(est - tru) <= 360.0
    ensures exists k: int :: -1 <= k <= 1 && HeadingError(est, tru) == Shifted(est, tru, k)
  {
    var d := est - tru;
    if d > 180.0 {
      assert HeadingError(est, tru) == Shifted(est, tru, 1);
    } else if d < -180.0 {
      assert HeadingError(est, tru) == Shifted(est, tru, -1);
    } else {
      assert HeadingError(est, tru) == Shifted(est, tru, 0);
    }
  }

  /** Worked cases: 170 and -170 are 20 degrees apart; headings more than a
      full turn apart come out negative. */
  lemma {:induction false} HeadingErrorExamples()
    ensures HeadingError(170.0, -170.0) == 20.0
    ensures HeadingError(-170.0, 170.0) == 20.0
    ensures HeadingError(45.0, 45.0) == 0.0
    ensures HeadingError(600.0, 0.0) == -240.0
  {
  }

  /** The wraparound fold as intended: the difference is first reduced to a
      remainder in [0, 360), then folded, so every pair of headings gets an
      error in [0, 180]. */
  function WrappedHeadingError(est: real, tru: real): (e: real)
    ensures 0.0 <= e <= 180.0
  {
    var r := TurnRemainder(Abs(est - tru));
    if r > 180.0 then 360.0 - r else r
  }

  /** a - 360 * floor(a / 360): what is left of a after whole turns. */
  function TurnRemainder(a: real): (r: real)
    ensures 0.0 <= r < 360.0
    ensures r == a - 360.0 * (a / 360.0).Floor as real
  {
    var f := (a / 360.0).Floor as real;
    assert f <= a / 360.0 < f + 1.0;
    a - 360.0 * f
  }

  /** The intended fold is the angular distance for every pair of headings:
      no shift by whole turns comes closer to zero ... */
  lemma {:induction false} WrappedHeadingErrorIsAngularDistance(est: real, tru: real, k: int)
    ensures WrappedHeadingError(est, tru) <= Shifted(est, tru, k)
  {
    var d := est - tru;
    var a := Abs(d);
    var f := (a / 360.0).Floor;
    var r := TurnRemainder(a);
    // a shift of k turns of d is a shift of j turns of |d|
    var j := if d >= 0.0 then k else -k;
    assert Shifted(est, tru, k) == Abs(a - 360.0 * j as real);
    var m := f - j;
    assert a - 360.0 * j as real == r + 360.0 * m as real;
    if m >= 1 {
      assert 360.0 * m as real >= 360.0;
    } else if m <= -1 {
      assert 360.0 * m as real <= -360.0;
    }
  }

  /** ... and a shift attains it. */
  lemma {:induction false} WrappedHeadingErrorAttained(est: real, tru: real)
    ensures exists k: int :: WrappedHeadingError(est, tru) == Shifted(est, tru, k)
  {
    var d := est - tru;
    var a := Abs(d);
    var f := (a / 360.0).Floor;
    var r := TurnRemainder(a);
    var j := if r > 180.0 then f + 1 else f;
    var k := if d >= 0.0 then j else -j;
    assert Shifted(est, tru, k) == Abs(a - 360.0 * j as real);
    assert WrappedHeadingError(est, tru) == Shifted(est, tru, k);
  }

  /** Within a full turn the intended fold agrees with the code, and beyond
      it they differ: 600 and 0 are 120 degrees apart, not -240. */
  lemma {:induction false} WrappedHeadingErrorAgrees(est: real, tru: real)
    requires Abs(est - tru) <= 360.0
    ensures WrappedHeadingError(est, tru) == HeadingError(est, tru)
  {
    var a := Abs(est - tru);
    if a < 360.0 {
      assert (a / 360.0).Floor == 0;
    } else {
      assert (a / 360.0).Floor == 1;
    }
  }

  lemma {:induction false} WrappedHeadingErrorExample()
    ensures WrappedHeadingError(600.0, 0.0) == 120.0 && HeadingError(600.0, 0.0) == -240.0
  {
    assert (600.0 / 360.0).Floor == 1;
  }

  /** The pitch entries compare_with_ground_truth adds. */
  datatype PitchComparison = PitchComparison(estimated: real, truth: real, error: real)

  /** The dictionary compare_with_ground_truth returns; pitch is None when
      the pitch keys are absent. */
  datatype Comparison = Comparison(
    headingEstimated: real,
    headingTrue: real,
    headingError: real,
    pitch: Option<PitchComparison>)

  /** compare_with_ground_truth: the heading error is folded through the
      wraparound, the pitch error is the plain absolute difference, and the
      pitch entries are present exactly when both pitches are given. */
  method CompareWithGroundTruth(estHeading: real, trueHeading: real,
                                estPitch: Option<real>, truePitch: Option<real>)
    returns (result: Comparison)
    ensures result.headingEstimated == estHeading && result.headingTrue == trueHeading
    ensures result.headingError == HeadingError(estHeading, trueHeading)
    ensures Abs(estHeading - trueHeading) <= 360.0 ==>
      result.headingError == WrappedHeadingError(estHeading, trueHeading)
    ensures result.pitch.Some? <==> estPitch.Some? && truePitch.Some?
    ensures result.pitch.Some? ==>
      result.pitch.value.estimated == estPitch.value &&
      result.pitch.value.truth == truePitch.value &&
      result.pitch.value.error >= 0.0 &&
      (result.pitch.value.error == estPitch.value - truePitch.value ||
       result.pitch.value.error == truePitch.value - estPitch.value)
  {
    var headingError := Abs(estHeading - trueHeading);
    if headingError > 180.0 {
      headingError := 360.0 - headingError;
    }
    if Abs(estHeading - trueHeading) <= 360.0 {
      WrappedHeadingErrorAgrees(estHeading, trueHeading);
    }
    result := Comparison(estHeading, trueHeading, headingError, None);
    if estPitch.Some? && truePitch.Some? {
      var pitchError := Abs(estPitch.value - truePitch.value);
      result := result.(pitch := Some(PitchComparison(estPitch.value, truePitch.value, pitchError)));
    }
  }
}
