/**
 * Calibrating a judge against human labels (src/calibrate.rs), over the reals: the affine
 * correction, the error measures, the correlation and the verdict.
 */
module Calibration {
  import opened Wrappers

  /** One target scored by both: the judge's score and the human's. */
  datatype Pair = Pair(judge: real, human: real) {
    function Diff(): real { judge - human }
  }

  datatype PearsonNote = Defined | Degenerate

  datatype Calibrated = Calibrated(
    n: nat,
    bias: real,
    mae: real,
    rmse: real,
    note: PearsonNote,
    pearson: real,
    slope: real,
    intercept: real,
    ciLow: real,
    ciHigh: real,
    biasSignificant: bool,
    recalibrate: bool)

  function Abs(x: real): real { if x < 0.0 then -x else x }

  function Squared(x: real): real { x * x }

  function Clamp(x: real, low: real, high: real): real {
    if x < low then low else if x > high then high else x
  }

  // ----- Sums over the pairs -----

  function Sum(ps: seq<Pair>, f: Pair -> real): real {
    if ps == [] then 0.0 else Sum(ps[..|ps| - 1], f) + f(ps[|ps| - 1])
  }

  function JudgeScore(): Pair -> real { (p: Pair) => p.judge }

  function HumanScore(): Pair -> real { (p: Pair) => p.human }

  function AbsDiff(): Pair -> real { (p: Pair) => Abs(p.Diff()) }

  /** The squared difference, taken from `centre`. */
  function SquaredDiff(centre: real): Pair -> real { (p: Pair) => Squared(p.Diff() - centre) }

  /** What the affine map `human = intercept + slope * judge` leaves of one pair. */
  function Residual(p: Pair, intercept: real, slope: real): real {
    p.human - intercept - slope * p.judge
  }

  function SquaredResidual(intercept: real, slope: real): Pair -> real {
    (p: Pair) => Squared(Residual(p, intercept, slope))
  }

  function Mean(ps: seq<Pair>, f: Pair -> real): real
    requires ps != []
  {
    Sum(ps, f) / |ps| as real
  }

  function Bias(ps: seq<Pair>): real
    requires ps != []
  {
    Mean(ps, JudgeScore()) - Mean(ps, HumanScore())
  }

  function Residuals(ps: seq<Pair>, intercept: real, slope: real): real {
    Sum(ps, SquaredResidual(intercept, slope))
  }

  /** Count, first and second moments about a centre. */
  datatype Moments = Moments(n: real, devJ: real, devH: real, cov: real, ssJ: real, ssH: real) {
    function Plus(dj: real, dh: real): Moments {
      Moments(n + 1.0, devJ + dj, devH + dh, cov + dj * dh, ssJ + dj * dj, ssH + dh * dh)
    }
  }

  const NOTHING := Moments(0.0, 0.0, 0.0, 0.0, 0.0, 0.0)

  function MomentsOf(ps: seq<Pair>, cj: real, ch: real): Moments {
    if ps == [] then NOTHING
    else MomentsOf(ps[..|ps| - 1], cj, ch).Plus(ps[|ps| - 1].judge - cj, ps[|ps| - 1].human - ch)
  }

  /** The moments about the two means. */
  function Centred(ps: seq<Pair>): Moments
    requires ps != []
  {
    MomentsOf(ps, Mean(ps, JudgeScore()), Mean(ps, HumanScore()))
  }

  // ----- Arithmetic -----

  lemma ProductNonNegative(x: real, y: real)
    requires x >= 0.0 && y >= 0.0
    ensures x * y >= 0.0
    ensures x * y == 0.0 <==> x == 0.0 || y == 0.0
  {
  }

  lemma SquareNonNegative(x: real)
    ensures Squared(x) >= 0.0
    ensures Squared(x) == 0.0 <==> x == 0.0
  {
    ProductNonNegative(Abs(x), Abs(x));
    assert Squared(x) == Abs(x) * Abs(x);
  }

  lemma NoDeviationFromMean(sum: real, n: real, mean: real, dev: real)
    requires n > 0.0 && mean == sum / n && sum == dev + n * mean
    ensures dev == 0.0
  {
  }

  // ----- Sums in general -----

  lemma {:induction false} SumNonNegative(ps: seq<Pair>, f: Pair -> real)
    requires forall p :: f(p) >= 0.0
    ensures Sum(ps, f) >= 0.0
  {
    if ps != [] {
      SumNonNegative(ps[..|ps| - 1], f);
    }
  }

  /** A sum is any reading of the moments that grows by one term with each pair. */
  lemma {:induction false} SumByMoments(ps: seq<Pair>, f: Pair -> real, cj: real, ch: real, reading: Moments -> real)
    requires reading(NOTHING) == 0.0
    requires forall m: Moments, p: Pair :: reading(m.Plus(p.judge - cj, p.human - ch)) == reading(m) + f(p)
    ensures Sum(ps, f) == reading(MomentsOf(ps, cj, ch))
  {
    if ps != [] {
      SumByMoments(ps[..|ps| - 1], f, cj, ch, reading);
    }
  }

  lemma {:induction false} MomentsCount(ps: seq<Pair>, cj: real, ch: real)
    ensures MomentsOf(ps, cj, ch).n == |ps| as real
  {
    if ps != [] {
      MomentsCount(ps[..|ps| - 1], cj, ch);
    }
  }

  /** Spreads are never negative, and without spread there is no covariance. */
  lemma {:induction false} Spreads(ps: seq<Pair>, cj: real, ch: real)
    ensures MomentsOf(ps, cj, ch).ssJ >= 0.0 && MomentsOf(ps, cj, ch).ssH >= 0.0
    ensures MomentsOf(ps, cj, ch).ssJ == 0.0 ==> MomentsOf(ps, cj, ch).cov == 0.0
  {
    if ps != [] {
      var rest, p := ps[..|ps| - 1], ps[|ps| - 1];
      Spreads(rest, cj, ch);
      SpreadsStep(MomentsOf(rest, cj, ch), p.judge - cj, p.human - ch);
    }
  }

  lemma SpreadsStep(m: Moments, dj: real, dh: real)
    requires m.ssJ >= 0.0 && m.ssH >= 0.0 && (m.ssJ == 0.0 ==> m.cov == 0.0)
    ensures m.Plus(dj, dh).ssJ >= 0.0 && m.Plus(dj, dh).ssH >= 0.0
    ensures m.Plus(dj, dh).ssJ == 0.0 ==> m.Plus(dj, dh).cov == 0.0
  {
    SquareNonNegative(dj);
    SquareNonNegative(dh);
  }

  lemma DeviationsByMoments(ps: seq<Pair>, cj: real, ch: real)
    ensures Sum(ps, JudgeScore()) == MomentsOf(ps, cj, ch).devJ + MomentsOf(ps, cj, ch).n * cj
    ensures Sum(ps, HumanScore()) == MomentsOf(ps, cj, ch).devH + MomentsOf(ps, cj, ch).n * ch
  {
    var readJ, readH := (m: Moments) => m.devJ + m.n * cj, (m: Moments) => m.devH + m.n * ch;
    hide MomentsOf, Sum;
    assert Sum(ps, JudgeScore()) == readJ(MomentsOf(ps, cj, ch)) by {
      SumByMoments(ps, JudgeScore(), cj, ch, readJ);
    }
    assert Sum(ps, HumanScore()) == readH(MomentsOf(ps, cj, ch)) by {
      SumByMoments(ps, HumanScore(), cj, ch, readH);
    }
  }

  /** About the means the first moments vanish. */
  lemma CentredMoments(ps: seq<Pair>)
    requires ps != []
    ensures Centred(ps).n == |ps| as real && Centred(ps).devJ == 0.0 && Centred(ps).devH == 0.0
    ensures Centred(ps).ssJ >= 0.0 && Centred(ps).ssH >= 0.0
    ensures Centred(ps).ssJ == 0.0 ==> Centred(ps).cov == 0.0
  {
    var mj, mh := Mean(ps, JudgeScore()), Mean(ps, HumanScore());
    MomentsCount(ps, mj, mh);
    Spreads(ps, mj, mh);
    DeviationsByMoments(ps, mj, mh);
    NoDeviationFromMean(Sum(ps, JudgeScore()), |ps| as real, mj, Centred(ps).devJ);
    NoDeviationFromMean(Sum(ps, HumanScore()), |ps| as real, mh, Centred(ps).devH);
  }

  // ----- Least squares -----

  /** The slope of the correction: zero when the judge has no spread. */
  function Slope(ps: seq<Pair>): real
    requires ps != []
  {
    var m := Centred(ps);
    if m.ssJ > 0.0 then m.cov / m.ssJ else 0.0
  }

  function Intercept(ps: seq<Pair>): real
    requires ps != []
  {
    Mean(ps, HumanScore()) - Slope(ps) * Mean(ps, JudgeScore())
  }

  /** The squared residuals of a map that misses the centre by `e`, read off the moments. */
  ghost function ByMoments(m: Moments, e: real, slope: real): real {
    m.ssH - 2.0 * slope * m.cov + slope * slope * m.ssJ + 2.0 * e * (m.devH - slope * m.devJ) + m.n * e * e
  }

  ghost function Reading(e: real, slope: real): Moments -> real {
    (m: Moments) => ByMoments(m, e, slope)
  }

  /** How far the map `(intercept, slope)` misses the centre. */
  function Miss(cj: real, ch: real, intercept: real, slope: real): real {
    ch - intercept - slope * cj
  }

  lemma ByMomentsStep(m: Moments, e: real, slope: real, dj: real, dh: real)
    ensures ByMoments(m.Plus(dj, dh), e, slope) == ByMoments(m, e, slope) + Squared(dh - slope * dj + e)
  {
  }

  lemma ResidualFromCentre(p: Pair, cj: real, ch: real, intercept: real, slope: real)
    ensures Residual(p, intercept, slope) == (p.human - ch) - slope * (p.judge - cj) + Miss(cj, ch, intercept, slope)
  {
  }

  lemma ReadingStep(m: Moments, p: Pair, cj: real, ch: real, intercept: real, slope: real)
    ensures var reading := Reading(Miss(cj, ch, intercept, slope), slope);
            reading(m.Plus(p.judge - cj, p.human - ch)) == reading(m) + SquaredResidual(intercept, slope)(p)
  {
    hide ByMoments;
    ByMomentsStep(m, Miss(cj, ch, intercept, slope), slope, p.judge - cj, p.human - ch);
    ResidualFromCentre(p, cj, ch, intercept, slope);
  }

  /** The residuals of any affine map, in terms of moments about any centre. */
  lemma ResidualsByMoments(ps: seq<Pair>, cj: real, ch: real, intercept: real, slope: real)
    ensures Residuals(ps, intercept, slope) == Reading(Miss(cj, ch, intercept, slope), slope)(MomentsOf(ps, cj, ch))
  {
    var reading, f := Reading(Miss(cj, ch, intercept, slope), slope), SquaredResidual(intercept, slope);
    forall m: Moments, p: Pair
      ensures reading(m.Plus(p.judge - cj, p.human - ch)) == reading(m) + f(p)
    {
      ReadingStep(m, p, cj, ch, intercept, slope);
    }
    SumByMoments(ps, f, cj, ch, reading);
  }

  /** `s` is the least-squares slope for moments about the means. */
  ghost predicate IsFit(m: Moments, s: real) {
    m.devJ == 0.0 && m.devH == 0.0 && s * m.ssJ == m.cov
  }

  /** The cost of a map of slope `b` that misses the means by `e`, from what the fit `s` costs. */
  ghost function CostFromFit(m: Moments, s: real, b: real, e: real): real {
    m.ssH - s * m.cov + m.ssJ * Squared(b - s) + m.n * Squared(e)
  }

  lemma CompleteTheSquare(m: Moments, e: real, s: real, b: real)
    requires IsFit(m, s)
    ensures Reading(e, b)(m) == CostFromFit(m, s, b, e)
  {
    assert m.ssJ * Squared(b - s) == b * b * m.ssJ - 2.0 * b * (s * m.ssJ) + s * (s * m.ssJ);
  }

  lemma SlopeFits(ps: seq<Pair>)
    requires ps != []
    ensures IsFit(Centred(ps), Slope(ps))
  {
    CentredMoments(ps);
  }

  /** How far a map misses the pair of means. */
  function MissOfMeans(ps: seq<Pair>, intercept: real, slope: real): real
    requires ps != []
  {
    Miss(Mean(ps, JudgeScore()), Mean(ps, HumanScore()), intercept, slope)
  }

  lemma ResidualsFromFit(ps: seq<Pair>, intercept: real, slope: real)
    requires ps != []
    ensures Residuals(ps, intercept, slope) ==
            CostFromFit(Centred(ps), Slope(ps), slope, MissOfMeans(ps, intercept, slope))
  {
    hide Residuals, Reading, CostFromFit, IsFit, Slope, Mean, MomentsOf, Miss;
    ResidualsByMoments(ps, Mean(ps, JudgeScore()), Mean(ps, HumanScore()), intercept, slope);
    SlopeFits(ps);
    CompleteTheSquare(Centred(ps), MissOfMeans(ps, intercept, slope), Slope(ps), slope);
  }

  lemma ResidualsOfFit(ps: seq<Pair>)
    requires ps != []
    ensures Residuals(ps, Intercept(ps), Slope(ps)) == Centred(ps).ssH - Slope(ps) * Centred(ps).cov
  {
    ResidualsFromFit(ps, Intercept(ps), Slope(ps));
    assert MissOfMeans(ps, Intercept(ps), Slope(ps)) == 0.0;
  }

  /** What a map costs over the fitted one is a sum of two terms that are never negative. */
  lemma ExcessOverFit(ps: seq<Pair>, intercept: real, slope: real) returns (tilt: real, shift: real)
    requires ps != []
    ensures Residuals(ps, intercept, slope) == Residuals(ps, Intercept(ps), Slope(ps)) + tilt + shift
    ensures tilt >= 0.0 && (tilt == 0.0 <==> Centred(ps).ssJ == 0.0 || slope == Slope(ps))
    ensures shift >= 0.0
    ensures shift == 0.0 <==> MissOfMeans(ps, intercept, slope) == 0.0
  {
    var e := MissOfMeans(ps, intercept, slope);
    var d := slope - Slope(ps);
    tilt, shift := Centred(ps).ssJ * Squared(d), |ps| as real * Squared(e);
    CentredMoments(ps);
    ResidualsFromFit(ps, intercept, slope);
    ResidualsOfFit(ps);
    SquareNonNegative(d);
    SquareNonNegative(e);
    ProductNonNegative(Centred(ps).ssJ, Squared(d));
    ProductNonNegative(|ps| as real, Squared(e));
  }

  /** No affine map of the judge's score is closer to the human's than the fitted one. */
  lemma LeastSquares(ps: seq<Pair>, intercept: real, slope: real)
    requires ps != []
    ensures Residuals(ps, Intercept(ps), Slope(ps)) <= Residuals(ps, intercept, slope)
  {
    hide *;
    var _, _ := ExcessOverFit(ps, intercept, slope);
  }

  /** The fitted map is the only best one exactly when the judge's scores have some spread. */
  lemma FitIsUniqueIffSpread(ps: seq<Pair>)
    requires ps != []
    ensures Centred(ps).ssJ > 0.0 <==>
            forall intercept, slope ::
              Residuals(ps, intercept, slope) == Residuals(ps, Intercept(ps), Slope(ps))
              ==> intercept == Intercept(ps) && slope == Slope(ps)
  {
    hide Residuals, Centred, Slope;
    CentredMoments(ps);
    if Centred(ps).ssJ > 0.0 {
      forall intercept, slope | Residuals(ps, intercept, slope) == Residuals(ps, Intercept(ps), Slope(ps))
        ensures intercept == Intercept(ps) && slope == Slope(ps)
      {
        var tilt, shift := ExcessOverFit(ps, intercept, slope);
      }
    } else {
      var slope := Slope(ps) + 1.0;
      var intercept := Mean(ps, HumanScore()) - slope * Mean(ps, JudgeScore());
      var tilt, shift := ExcessOverFit(ps, intercept, slope);
      assert Residuals(ps, intercept, slope) == Residuals(ps, Intercept(ps), Slope(ps));
    }
  }

  // ----- Correlation -----

  lemma ResidualsNonNegative(ps: seq<Pair>, intercept: real, slope: real)
    ensures Residuals(ps, intercept, slope) >= 0.0
  {
    var f := SquaredResidual(intercept, slope);
    forall p: Pair
      ensures f(p) >= 0.0
    {
      SquareNonNegative(Residual(p, intercept, slope));
    }
    SumNonNegative(ps, f);
  }

  /** The spread the fit leaves unexplained, without division. */
  lemma UnexplainedSpread(ps: seq<Pair>)
    requires ps != []
    ensures Centred(ps).ssJ * Residuals(ps, Intercept(ps), Slope(ps))
            == Centred(ps).ssJ * Centred(ps).ssH - Squared(Centred(ps).cov)
  {
    hide Residuals, Slope, Centred, Intercept;
    var m, s := Centred(ps), Slope(ps);
    ResidualsOfFit(ps);
    SlopeFits(ps);
    assert m.ssJ * (m.ssH - s * m.cov) == m.ssJ * m.ssH - (s * m.ssJ) * m.cov;
  }

  lemma CauchySchwarz(ps: seq<Pair>)
    requires ps != []
    ensures Squared(Centred(ps).cov) <= Centred(ps).ssJ * Centred(ps).ssH
  {
    hide *;
    CentredMoments(ps);
    ResidualsNonNegative(ps, Intercept(ps), Slope(ps));
    UnexplainedSpread(ps);
    ProductNonNegative(Centred(ps).ssJ, Residuals(ps, Intercept(ps), Slope(ps)));
  }

  /** The reals' square root, which Dafny does not have: it is handed in. */
  ghost predicate IsSqrt(sqrt: real -> real) {
    forall x :: x >= 0.0 ==> sqrt(x) >= 0.0 && Squared(sqrt(x)) == x
  }

  lemma SquaresOrder(x: real, y: real)
    requires x >= 0.0 && y >= 0.0
    ensures Squared(x) <= Squared(y) <==> x <= y
  {
    if x <= y {
      ProductNonNegative(y - x, x + y);
    } else {
      ProductNonNegative(x - y, x + y);
    }
    assert Squared(y) - Squared(x) == (y - x) * (x + y);
  }

  /** The clamp on the correlation never bites. */
  lemma CorrelationInRange(cov: real, a: real, b: real)
    requires a > 0.0 && b > 0.0 && Squared(cov) <= Squared(a) * Squared(b)
    ensures a * b > 0.0 && -1.0 <= cov / (a * b) <= 1.0
    ensures Squared(cov / (a * b)) * (Squared(a) * Squared(b)) == Squared(cov)
    ensures cov / (a * b) >= 0.0 <==> cov >= 0.0
  {
    ProductNonNegative(a, b);
    var w := a * b;
    assert Squared(w) == Squared(a) * Squared(b);
    assert Squared(Abs(cov)) == Squared(cov);
    SquaresOrder(Abs(cov), w);
    QuotientInRange(cov, w, cov / w);
  }

  lemma QuotientInRange(cov: real, w: real, r: real)
    requires w > 0.0 && Abs(cov) <= w && r == cov / w
    ensures -1.0 <= r <= 1.0 && Squared(r) * Squared(w) == Squared(cov)
    ensures r >= 0.0 <==> cov >= 0.0
  {
    assert r * w == cov;
    assert Squared(r) * Squared(w) == (r * w) * (r * w);
    if r > 1.0 { ProductNonNegative(r - 1.0, w); }
    if r < -1.0 { ProductNonNegative(-1.0 - r, w); }
    if r >= 0.0 { ProductNonNegative(r, w); } else { ProductNonNegative(-r, w); }
  }

  // ----- Error measures -----

  lemma {:induction false} SumsAgree(ps: seq<Pair>, f: Pair -> real, g: Pair -> real)
    requires forall p :: f(p) == g(p)
    ensures Sum(ps, f) == Sum(ps, g)
  {
    if ps != [] {
      SumsAgree(ps[..|ps| - 1], f, g);
    }
  }

  /** Leaving the judge's scale alone and shifting it by `-centre` is one of the affine maps. */
  lemma DiffsAreResiduals(ps: seq<Pair>, centre: real)
    ensures Sum(ps, SquaredDiff(centre)) == Residuals(ps, -centre, 1.0)
  {
    var f, g := SquaredDiff(centre), SquaredResidual(-centre, 1.0);
    forall p: Pair
      ensures f(p) == g(p)
    {
      SquareOfNegation(p.Diff() - centre);
      assert Residual(p, -centre, 1.0) == -(p.Diff() - centre);
    }
    SumsAgree(ps, f, g);
  }

  lemma SquareOfNegation(x: real)
    ensures Squared(x) == Squared(-x)
  {
  }

  /** The squares about `t` of any quantity whose squares `sq` sums. */
  lemma {:induction false} SquaresAbout(ps: seq<Pair>, f: Pair -> real, sq: Pair -> real, about: Pair -> real, t: real)
    requires forall p :: about(p) == sq(p) - 2.0 * t * f(p) + t * t
    ensures Sum(ps, about) == Sum(ps, sq) - 2.0 * t * Sum(ps, f) + |ps| as real * (t * t)
  {
    if ps != [] {
      SquaresAbout(ps[..|ps| - 1], f, sq, about, t);
      SquaresAboutStep(Sum(ps[..|ps| - 1], f), f(ps[|ps| - 1]), t, (|ps| - 1) as real);
    }
  }

  lemma SquaresAboutStep(s: real, x: real, t: real, n: real)
    ensures 2.0 * t * (s + x) == 2.0 * t * s + 2.0 * t * x
    ensures (n + 1.0) * (t * t) == n * (t * t) + t * t
  {
  }

  function Diff(): Pair -> real { (p: Pair) => p.Diff() }

  lemma {:induction false} SumOfDiff(ps: seq<Pair>)
    ensures Sum(ps, Diff()) == Sum(ps, JudgeScore()) - Sum(ps, HumanScore())
  {
    if ps != [] {
      SumOfDiff(ps[..|ps| - 1]);
    }
  }

  lemma QuotientOfDifference(x: real, y: real, n: real)
    requires n > 0.0
    ensures (x - y) / n == x / n - y / n
  {
  }

  lemma BiasIsMeanDiff(ps: seq<Pair>)
    requires ps != []
    ensures Bias(ps) == Mean(ps, Diff())
  {
    SumOfDiff(ps);
    QuotientOfDifference(Sum(ps, JudgeScore()), Sum(ps, HumanScore()), |ps| as real);
  }

  lemma SquaredDiffAbout(t: real)
    ensures forall p :: SquaredDiff(t)(p) == SquaredDiff(0.0)(p) - 2.0 * t * Diff()(p) + t * t
  {
  }

  lemma SquaredDiffsAbout(ps: seq<Pair>, t: real)
    ensures Sum(ps, SquaredDiff(t)) ==
            Sum(ps, SquaredDiff(0.0)) - 2.0 * t * Sum(ps, Diff()) + |ps| as real * (t * t)
  {
    hide *;
    SquaredDiffAbout(t);
    SquaresAbout(ps, Diff(), SquaredDiff(0.0), SquaredDiff(t), t);
  }

  lemma CrossTerm(sq: real, s: real, about: real, n: real, b: real)
    requires n > 0.0 && b == s / n && about == sq - 2.0 * b * s + n * (b * b)
    ensures sq == about + b * s
  {
    assert n * b == s;
    assert b * s == b * (n * b);
  }

  lemma SquaredDiffsAboutMean(ps: seq<Pair>, b: real)
    requires ps != [] && b == Mean(ps, Diff())
    ensures Sum(ps, SquaredDiff(0.0)) == Sum(ps, SquaredDiff(b)) + b * Sum(ps, Diff())
  {
    hide Squared, Sum, Diff, SquaredDiff;
    SquaredDiffsAbout(ps, b);
    CrossTerm(Sum(ps, SquaredDiff(0.0)), Sum(ps, Diff()), Sum(ps, SquaredDiff(b)), |ps| as real, b);
  }

  lemma DivideCrossTerm(sq: real, s: real, about: real, n: real, b: real)
    requires n > 0.0 && b == s / n && sq == about + b * s
    ensures sq / n == about / n + Squared(b)
  {
    assert n * b == s;
    assert b * s == n * Squared(b);
  }

  lemma MeanSquaresAboutMean(ps: seq<Pair>, b: real)
    requires ps != [] && b == Mean(ps, Diff())
    ensures Mean(ps, SquaredDiff(0.0)) == Mean(ps, SquaredDiff(b)) + Squared(b)
  {
    hide Squared, Sum, Diff, SquaredDiff;
    SquaredDiffsAboutMean(ps, b);
    DivideCrossTerm(Sum(ps, SquaredDiff(0.0)), Sum(ps, Diff()), Sum(ps, SquaredDiff(b)), |ps| as real, b);
  }

  /** The mean square error is the squared bias plus the spread of the differences about the bias. */
  lemma SquaredErrorSplits(ps: seq<Pair>)
    requires ps != []
    ensures Mean(ps, SquaredDiff(0.0)) == Mean(ps, SquaredDiff(Bias(ps))) + Squared(Bias(ps))
  {
    hide *;
    BiasIsMeanDiff(ps);
    MeanSquaresAboutMean(ps, Bias(ps));
  }

  /** Correcting the judge's scores never raises the square error. */
  lemma CorrectionNeverHurts(ps: seq<Pair>)
    requires ps != []
    ensures Residuals(ps, Intercept(ps), Slope(ps)) <= Sum(ps, SquaredDiff(0.0))
  {
    DiffsAreResiduals(ps, 0.0);
    LeastSquares(ps, -0.0, 1.0);
  }

  lemma {:induction false} DiffsWithinAbs(ps: seq<Pair>)
    ensures Abs(Sum(ps, Diff())) <= Sum(ps, AbsDiff())
  {
    if ps != [] {
      DiffsWithinAbs(ps[..|ps| - 1]);
    }
  }

  lemma AbsOfQuotient(x: real, y: real, n: real)
    requires Abs(x) <= y && n > 0.0
    ensures Abs(x / n) <= y / n
  {
    var q, r := x / n, y / n;
    assert q * n == x && r * n == y;
    ProductNonNegative(Abs(q), n);
  }

  /** The bias never exceeds the mean absolute error. */
  lemma BiasWithinMae(ps: seq<Pair>)
    requires ps != []
    ensures Abs(Bias(ps)) <= Mean(ps, AbsDiff())
  {
    hide Sum, Bias, Abs;
    BiasIsMeanDiff(ps);
    DiffsWithinAbs(ps);
    AbsOfQuotient(Sum(ps, Diff()), Sum(ps, AbsDiff()), |ps| as real);
  }

  function SquaredAbsDiffAbout(t: real): Pair -> real { (p: Pair) => Squared(AbsDiff()(p) - t) }

  lemma SquareAbout(p: Pair, t: real)
    ensures SquaredAbsDiffAbout(t)(p) >= 0.0
    ensures SquaredAbsDiffAbout(t)(p) == SquaredDiff(0.0)(p) - 2.0 * t * AbsDiff()(p) + t * t
  {
    SquareNonNegative(AbsDiff()(p) - t);
  }

  /** The mean absolute error never exceeds the root mean square error. */
  lemma MaeWithinRms(ps: seq<Pair>, mae: real)
    requires ps != [] && mae == Mean(ps, AbsDiff())
    ensures Squared(mae) <= Mean(ps, SquaredDiff(0.0))
  {
    hide Squared, Sum, AbsDiff, SquaredDiff, SquaredAbsDiffAbout;
    var f, sq, about := AbsDiff(), SquaredDiff(0.0), SquaredAbsDiffAbout(mae);
    forall p: Pair
      ensures about(p) >= 0.0 && about(p) == sq(p) - 2.0 * mae * f(p) + mae * mae
    {
      SquareAbout(p, mae);
    }
    SumNonNegative(ps, about);
    SquaresAbout(ps, f, sq, about, mae);
    MeanSquareStep(Sum(ps, sq), Sum(ps, f), |ps| as real, mae);
  }

  lemma MeanSquareStep(sq: real, s: real, n: real, t: real)
    requires n > 0.0 && t == s / n && sq - 2.0 * t * s + n * (t * t) >= 0.0
    ensures Squared(t) <= sq / n
  {
    assert n * t == s;
    assert t * s == t * (n * t);
    assert n * Squared(t) <= sq;
    SmallerShare(Squared(t), sq, n);
  }

  lemma SmallerShare(x: real, y: real, n: real)
    requires n > 0.0 && n * x <= y
    ensures x <= y / n
  {
  }

  // ----- The calibration -----

  /** The running totals of the accumulation loop. */
  datatype Totals = Totals(cov: real, ssJ: real, ssH: real, sumAbs: real, sumSq: real, ssD: real)

  ghost predicate AreTotals(t: Totals, ps: seq<Pair>, meanJ: real, meanH: real, bias: real) {
    && t.cov == MomentsOf(ps, meanJ, meanH).cov
    && t.ssJ == MomentsOf(ps, meanJ, meanH).ssJ
    && t.ssH == MomentsOf(ps, meanJ, meanH).ssH
    && t.sumAbs == Sum(ps, AbsDiff())
    && t.sumSq == Sum(ps, SquaredDiff(0.0))
    && t.ssD == Sum(ps, SquaredDiff(bias))
  }

  function AddPair(t: Totals, p: Pair, meanJ: real, meanH: real, bias: real): Totals {
    var dj, dh, d := p.judge - meanJ, p.human - meanH, p.judge - p.human;
    Totals(t.cov + dj * dh, t.ssJ + dj * dj, t.ssH + dh * dh, t.sumAbs + Abs(d), t.sumSq + Squared(d),
           t.ssD + Squared(d - bias))
  }

  lemma OneMoreTerm(ps: seq<Pair>, i: nat, f: Pair -> real)
    requires i < |ps|
    ensures Sum(ps[..i + 1], f) == Sum(ps[..i], f) + f(ps[i])
  {
    var more := ps[..i + 1];
    assert more[..|more| - 1] == ps[..i] && more[|more| - 1] == ps[i];
  }

  lemma OneMoreMoment(ps: seq<Pair>, i: nat, cj: real, ch: real)
    requires i < |ps|
    ensures MomentsOf(ps[..i + 1], cj, ch) == MomentsOf(ps[..i], cj, ch).Plus(ps[i].judge - cj, ps[i].human - ch)
  {
    var more := ps[..i + 1];
    assert more[..|more| - 1] == ps[..i] && more[|more| - 1] == ps[i];
  }

  lemma TotalsStep(t: Totals, ps: seq<Pair>, i: nat, meanJ: real, meanH: real, bias: real)
    requires i < |ps| && AreTotals(t, ps[..i], meanJ, meanH, bias)
    ensures AreTotals(AddPair(t, ps[i], meanJ, meanH, bias), ps[..i + 1], meanJ, meanH, bias)
  {
    hide Sum, MomentsOf, Squared, Abs;
    OneMoreMoment(ps, i, meanJ, meanH);
    OneMoreTerm(ps, i, AbsDiff());
    OneMoreTerm(ps, i, SquaredDiff(0.0));
    OneMoreTerm(ps, i, SquaredDiff(bias));
    var next, more := AddPair(t, ps[i], meanJ, meanH, bias), ps[..i + 1];
    assert ps[i].Diff() - 0.0 == ps[i].judge - ps[i].human;
    assert next.sumAbs == Sum(more, AbsDiff());
    assert next.sumSq == Sum(more, SquaredDiff(0.0));
    assert next.ssD == Sum(more, SquaredDiff(bias));
    assert next.cov == MomentsOf(more, meanJ, meanH).cov;
    assert next.ssJ == MomentsOf(more, meanJ, meanH).ssJ;
    assert next.ssH == MomentsOf(more, meanJ, meanH).ssH;
  }

  /** The sums the loop ends with, in the order src/calibrate.rs declares them. */
  method Accumulate(ps: seq<Pair>, meanJ: real, meanH: real, bias: real) returns (t: Totals)
    ensures AreTotals(t, ps, meanJ, meanH, bias)
  {
    t := Totals(0.0, 0.0, 0.0, 0.0, 0.0, 0.0);
    for i := 0 to |ps|
      invariant AreTotals(t, ps[..i], meanJ, meanH, bias)
    {
      TotalsStep(t, ps, i, meanJ, meanH, bias);
      t := AddPair(t, ps[i], meanJ, meanH, bias);
    }
    assert ps[..|ps|] == ps;
  }

  /** `low..high` is centred on the bias, `q` standard errors wide on either side. */
  ghost predicate IsBiasInterval(low: real, high: real, bias: real, ssD: real, n: nat, q: real)
    requires n >= 2
  {
    exists se ::
      se >= 0.0 && Squared(se) == ssD / (n - 1) as real / n as real && high - bias == bias - low == q * se
  }

  ghost predicate IsCorrelation(r: real, note: PearsonNote, cov: real, ssJ: real, ssH: real) {
    if ssJ > 0.0 && ssH > 0.0 then
      note == Defined && -1.0 <= r <= 1.0 && Squared(r) * (ssJ * ssH) == Squared(cov) && (r >= 0.0 <==> cov >= 0.0)
    else
      note == Degenerate && r == 0.0
  }

  /** What a calibration says about the pairs it was computed from. */
  ghost predicate Calibrates(c: Calibrated, ps: seq<Pair>, alpha: real, threshold: real, quantile: (real, real) -> real)
    requires |ps| >= 2
  {
    && c.n == |ps|
    && c.bias == Bias(ps)
    && c.mae == Mean(ps, AbsDiff())
    && c.rmse >= 0.0 && Squared(c.rmse) == Mean(ps, SquaredDiff(0.0))
    && c.slope == Slope(ps) && c.intercept == Intercept(ps)
    && IsCorrelation(c.pearson, c.note, Centred(ps).cov, Centred(ps).ssJ, Centred(ps).ssH)
    && IsBiasInterval(c.ciLow, c.ciHigh, c.bias, Sum(ps, SquaredDiff(c.bias)), |ps|,
                      quantile(1.0 - alpha / 2.0, (|ps| - 1) as real))
    && (c.biasSignificant <==> c.ciLow > 0.0 || c.ciHigh < 0.0)
    && (c.recalibrate <==> c.mae > threshold)
  }

  method Pearson(cov: real, ssJ: real, ssH: real, sqrt: real -> real) returns (r: real, note: PearsonNote)
    requires IsSqrt(sqrt) && Squared(cov) <= ssJ * ssH
    ensures IsCorrelation(r, note, cov, ssJ, ssH)
  {
    if ssJ > 0.0 && ssH > 0.0 {
      var a, b := sqrt(ssJ), sqrt(ssH);
      assert a > 0.0 && Squared(a) == ssJ by { RootIsPositive(ssJ, sqrt); }
      assert b > 0.0 && Squared(b) == ssH by { RootIsPositive(ssH, sqrt); }
      CorrelationInRange(cov, a, b);
      r, note := Clamp(cov / (a * b), -1.0, 1.0), Defined;
    } else {
      r, note := 0.0, Degenerate;
    }
  }

  lemma RootIsPositive(x: real, sqrt: real -> real)
    requires IsSqrt(sqrt) && x > 0.0
    ensures sqrt(x) > 0.0 && Squared(sqrt(x)) == x
  {
  }

  lemma SquaredDiffsNonNegative(ps: seq<Pair>, centre: real)
    ensures Sum(ps, SquaredDiff(centre)) >= 0.0
  {
    forall p: Pair
      ensures SquaredDiff(centre)(p) >= 0.0
    {
      SquareNonNegative(p.Diff() - centre);
    }
    SumNonNegative(ps, SquaredDiff(centre));
  }

  lemma QuotientNonNegative(x: real, n: real)
    requires x >= 0.0 && n > 0.0
    ensures x / n >= 0.0
  {
  }

  method BiasInterval(bias: real, ssD: real, n: nat, q: real, sqrt: real -> real) returns (low: real, high: real)
    requires IsSqrt(sqrt) && n >= 2 && ssD >= 0.0
    ensures IsBiasInterval(low, high, bias, ssD, n, q)
  {
    var varD := ssD / (n - 1) as real;
    QuotientNonNegative(ssD, (n - 1) as real);
    QuotientNonNegative(varD, n as real);
    var se := sqrt(varD / n as real);
    low, high := bias - q * se, bias + q * se;
    assert high - bias == bias - low == q * se;
  }

  method RootMeanSquare(sumSq: real, n: nat, sqrt: real -> real) returns (rmse: real)
    requires IsSqrt(sqrt) && n > 0 && sumSq >= 0.0
    ensures rmse >= 0.0 && Squared(rmse) == sumSq / n as real
  {
    QuotientNonNegative(sumSq, n as real);
    rmse := sqrt(sumSq / n as real);
  }

  /** Only the size of the error decides: whatever the significance test says, the bias is within it. */
  lemma SignificanceNeverDecides(ps: seq<Pair>, threshold: real, significant: bool)
    requires ps != []
    ensures Mean(ps, AbsDiff()) > threshold || (Abs(Bias(ps)) > threshold && significant)
            <==> Mean(ps, AbsDiff()) > threshold
  {
    hide *;
    BiasWithinMae(ps);
  }

  /** `None` for fewer than two pairs. */
  method Calibrate(ps: seq<Pair>, alpha: real, threshold: real, sqrt: real -> real, quantile: (real, real) -> real)
    returns (r: Option<Calibrated>)
    requires IsSqrt(sqrt)
    ensures r.None? <==> |ps| < 2
    ensures r.Some? ==> Calibrates(r.value, ps, alpha, threshold, quantile)
  {
    hide Squared, Sum, MomentsOf, IsSqrt, IsCorrelation, IsBiasInterval, Abs, Clamp, SquaredDiff, AbsDiff, JudgeScore, HumanScore;
    var n := |ps|;
    if n < 2 {
      return None;
    }
    var nf := n as real;
    var meanJ, meanH := Sum(ps, JudgeScore()) / nf, Sum(ps, HumanScore()) / nf;
    var bias := meanJ - meanH;
    var t := Accumulate(ps, meanJ, meanH, bias);
    SquaredDiffsNonNegative(ps, 0.0);
    SquaredDiffsNonNegative(ps, bias);
    CauchySchwarz(ps);
    SignificanceNeverDecides(ps, threshold, true);
    var mae := t.sumAbs / nf;
    var rmse := RootMeanSquare(t.sumSq, n, sqrt);
    var pearson, note := Pearson(t.cov, t.ssJ, t.ssH, sqrt);
    var slope := if t.ssJ > 0.0 then t.cov / t.ssJ else 0.0;
    var intercept := meanH - slope * meanJ;
    var tcrit := quantile(1.0 - alpha / 2.0, (n - 1) as real);
    var ciLow, ciHigh := BiasInterval(bias, t.ssD, n, tcrit, sqrt);
    var significant := ciLow > 0.0 || ciHigh < 0.0;
    var recalibrate := mae > threshold || (Abs(bias) > threshold && significant);
    r := Some(Calibrated(n, bias, mae, rmse, note, pearson, slope, intercept, ciLow, ciHigh, significant, recalibrate));
  }

  // ----- What a calibration means -----

  lemma ErrorsAreOrdered(c: Calibrated, ps: seq<Pair>, alpha: real, threshold: real, quantile: (real, real) -> real)
    requires |ps| >= 2 && Calibrates(c, ps, alpha, threshold, quantile)
    ensures Abs(c.bias) <= c.mae <= c.rmse
    ensures Squared(c.rmse) == Squared(c.bias) + Mean(ps, SquaredDiff(c.bias))
  {
    hide Squared, Sum, Mean, Abs, Bias, IsCorrelation, IsBiasInterval;
    BiasWithinMae(ps);
    SquaredErrorSplits(ps);
    MaeWithinRms(ps, c.mae);
    assert c.mae >= 0.0 by { AbsNonNegative(c.bias); }
    SquaresOrder(c.mae, c.rmse);
  }

  lemma AbsNonNegative(x: real)
    ensures Abs(x) >= 0.0
  {
  }

  /** The squared correlation is the share of the human's spread that the correction explains. */
  lemma CorrelationIsExplainedShare(c: Calibrated, ps: seq<Pair>, alpha: real, threshold: real,
                                    quantile: (real, real) -> real)
    requires |ps| >= 2 && Calibrates(c, ps, alpha, threshold, quantile)
    ensures c.note == Defined ==>
              Residuals(ps, c.intercept, c.slope) == (1.0 - Squared(c.pearson)) * Centred(ps).ssH
  {
    hide Squared, Residuals, Centred, Slope, Intercept, IsBiasInterval;
    UnexplainedSpread(ps);
    var m := Centred(ps);
    if c.note == Defined {
      CancelSpread(m.ssJ, m.ssH, Squared(m.cov), Squared(c.pearson), Residuals(ps, c.intercept, c.slope));
    }
  }

  lemma CancelSpread(ssJ: real, ssH: real, covSq: real, rSq: real, left: real)
    requires ssJ > 0.0 && rSq * (ssJ * ssH) == covSq && ssJ * left == ssJ * ssH - covSq
    ensures left == (1.0 - rSq) * ssH
  {
    assert ssJ * left == ssJ * ((1.0 - rSq) * ssH);
    assert ssJ * (left - (1.0 - rSq) * ssH) == 0.0;
  }
}
