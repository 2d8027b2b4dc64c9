/** Calibrating a curve of horizons with one shared method. */
module Curve {
  import opened RealSums
  import opened Results
  import opened Logistic
  import Isotonic

  datatype Method =
    | Platt(slope: real, intercept: real)
    | Beta(a: real, b: real, c: real)
    | Blocks(calibrator: Isotonic.Calibrator)

  predicate ValidMethod(m: Method) {
    match m
    case Platt(slope, _) => slope >= 0.0
    case Beta(a, b, _) => a >= 0.0 && b >= 0.0
    case Blocks(calibrator) => Isotonic.ValidCalibrator(calibrator)
  }

  /** The exact sigmoid and softplus: strictly rising probabilities, and a convex softplus they are the slope of. */
  ghost predicate SigmoidLike(link: Link) {
    && Convex(link)
    && (forall x :: 0.0 < link.sigmoid(x) < 1.0)
    && (forall x, y :: x < y ==> link.sigmoid(x) < link.sigmoid(y))
  }

  function Calibrate(link: Link, m: Method, x: real): (p: real)
    requires ValidMethod(m)
  {
    match m
    case Platt(slope, intercept) => link.sigmoid(Times(slope, x) + intercept)
    case Beta(a, b, c) => link.sigmoid(Times(a, -link.softplus(-x)) + (Times(b, link.softplus(x)) + c))
    case Blocks(calibrator) => Isotonic.CalibrateLogit(calibrator, x)
  }

  lemma SoftplusRises(link: Link, x: real, y: real)
    requires SigmoidLike(link) && x <= y
    ensures link.softplus(x) <= link.softplus(y)
  {
    hide Times;
    assert link.softplus(y) >= link.softplus(x) + Times(link.sigmoid(x), y - x);
    ProductNonNegative(link.sigmoid(x), y - x);
  }

  lemma SigmoidRises(link: Link, x: real, y: real)
    requires SigmoidLike(link) && x <= y
    ensures link.sigmoid(x) <= link.sigmoid(y)
  {}

  lemma TimesRises(k: real, x: real, y: real)
    requires k >= 0.0 && x <= y
    ensures Times(k, x) <= Times(k, y)
  {
    ProductNonNegative(k, y - x);
  }

  /** A valid method of any kind is a nondecreasing map into the probabilities. */
  lemma MethodMonotone(link: Link, m: Method, x: real, y: real)
    requires SigmoidLike(link) && ValidMethod(m) && x <= y
    ensures 0.0 < Calibrate(link, m, x) <= Calibrate(link, m, y) < 1.0
  {
    hide Times, SigmoidLike, Isotonic.CalibrateLogit, Isotonic.ValidCalibrator;
    match m
    case Platt(slope, intercept) =>
      TimesRises(slope, x, y);
      SigmoidBetween(link, Times(slope, x) + intercept, Times(slope, y) + intercept);
    case Beta(a, b, c) =>
      SoftplusRises(link, x, y);
      SoftplusRises(link, -y, -x);
      TimesRises(a, -link.softplus(-x), -link.softplus(-y));
      TimesRises(b, link.softplus(x), link.softplus(y));
      SigmoidBetween(link, Times(a, -link.softplus(-x)) + (Times(b, link.softplus(x)) + c),
                     Times(a, -link.softplus(-y)) + (Times(b, link.softplus(y)) + c));
    case Blocks(calibrator) =>
      Isotonic.CalibrateMonotone(calibrator, x, y);
  }

  lemma SigmoidBetween(link: Link, x: real, y: real)
    requires SigmoidLike(link) && x <= y
    ensures 0.0 < link.sigmoid(x) <= link.sigmoid(y) < 1.0
  {
    SigmoidRises(link, x, y);
  }

  // ----- Curves -----

  /** One score of a curve; `origin` stands for the curve evidence, the origin time and the entity. */
  datatype Score = Score(horizon: nat, origin: string, logit: real)

  datatype CurveError = HorizonIncoherence | IncompatibleArtifact

  const SLACK: real := 0.000000000000001

  /** The scores line up with the artifacts' horizons and come from one prediction. */
  ghost predicate LinesUp(horizons: seq<nat>, scores: seq<Score>) {
    && |scores| == |horizons|
    && forall i :: 0 <= i < |scores| ==> scores[i].horizon == horizons[i] && scores[i].origin == scores[0].origin
  }

  ghost predicate Rising(ps: seq<real>, slack: real) { forall i :: 0 < i < |ps| ==> ps[i - 1] <= ps[i] + slack }

  function RawOf(link: Link, scores: seq<Score>): (ps: seq<real>)
    ensures |ps| == |scores| && forall i :: 0 <= i < |ps| ==> ps[i] == link.sigmoid(scores[i].logit)
  {
    seq(|scores|, i requires 0 <= i < |scores| => link.sigmoid(scores[i].logit))
  }

  function CalibratedOf(link: Link, m: Method, scores: seq<Score>): (ps: seq<real>)
    requires ValidMethod(m)
    ensures |ps| == |scores| && forall i :: 0 <= i < |ps| ==> ps[i] == Calibrate(link, m, scores[i].logit)
  {
    seq(|scores|, i requires 0 <= i < |scores| => Calibrate(link, m, scores[i].logit))
  }

  /**
   The loop accepts exactly the curves whose raw and calibrated values both rise
   up to the slack and whose every score its artifact accepts.
   */
  method CalibrateCurve(link: Link, m: Method, horizons: seq<nat>, scores: seq<Score>, accepts: (nat, Score) -> bool)
    returns (r: Result<seq<real>, CurveError>)
    requires ValidMethod(m) && |horizons| >= 2
    ensures r.Ok? <==> LinesUp(horizons, scores) && Rising(RawOf(link, scores), SLACK)
                       && (forall i :: 0 <= i < |scores| ==> accepts(i, scores[i]))
                       && Rising(CalibratedOf(link, m, scores), SLACK)
    ensures LinesUp(horizons, scores) && Rising(RawOf(link, scores), SLACK)
            && Rising(CalibratedOf(link, m, scores), SLACK) && (exists i :: 0 <= i < |scores| && !accepts(i, scores[i]))
            ==> r == Err(IncompatibleArtifact)
    ensures r == Err(IncompatibleArtifact) ==> exists i :: 0 <= i < |scores| && !accepts(i, scores[i])
    ensures r.Ok? ==> r.value == CalibratedOf(link, m, scores)
  {
    hide Calibrate, ValidMethod, Rising, LinesUp;
    if |scores| != |horizons| {
      LinedUpLengths(horizons, scores);
      return Err(HorizonIncoherence);
    }
    ghost var raws, calibrateds := RawOf(link, scores), CalibratedOf(link, m, scores);
    var previousRaw: Option<real>, previousCalibrated: Option<real> := None, None;
    var outputs: seq<real> := [];
    NothingYet(horizons, scores, raws, calibrateds);
    for i := 0 to |scores|
      invariant outputs == calibrateds[..i]
      invariant previousRaw == if i == 0 then None else Some(raws[i - 1])
      invariant previousCalibrated == if i == 0 then None else Some(calibrateds[i - 1])
      invariant LinesUp(horizons[..i], scores[..i])
      invariant forall k :: 0 <= k < i ==> accepts(k, scores[k])
      invariant Rising(raws[..i], SLACK) && Rising(calibrateds[..i], SLACK)
    {
      OneMore(horizons, scores, raws, calibrateds, i);
      var raw := link.sigmoid(scores[i].logit);
      if scores[i].horizon != horizons[i] || scores[i].origin != scores[0].origin
         || (previousRaw.Some? && raw + SLACK < previousRaw.value) {
        return Err(HorizonIncoherence);
      }
      if !accepts(i, scores[i]) {
        return Err(IncompatibleArtifact);
      }
      var output := Calibrate(link, m, scores[i].logit);
      if previousCalibrated.Some? && output + SLACK < previousCalibrated.value {
        return Err(HorizonIncoherence);
      }
      previousRaw, previousCalibrated := Some(raw), Some(output);
      outputs := outputs + [output];
    }
    assert horizons[..|scores|] == horizons && scores[..|scores|] == scores;
    assert raws[..|scores|] == raws && calibrateds[..|scores|] == calibrateds;
    return Ok(outputs);
  }

  lemma LinedUpLengths(horizons: seq<nat>, scores: seq<Score>)
    requires |scores| != |horizons|
    ensures !LinesUp(horizons, scores)
  {}

  lemma NothingYet(horizons: seq<nat>, scores: seq<Score>, raws: seq<real>, calibrateds: seq<real>)
    ensures LinesUp(horizons[..0], scores[..0]) && Rising(raws[..0], SLACK) && Rising(calibrateds[..0], SLACK)
  {}

  /** What one more score needs, and what the whole curve then needs. */
  lemma OneMore(horizons: seq<nat>, scores: seq<Score>, raws: seq<real>, calibrateds: seq<real>, i: nat)
    requires i < |horizons| == |scores| == |raws| == |calibrateds|
    requires LinesUp(horizons[..i], scores[..i]) && Rising(raws[..i], SLACK) && Rising(calibrateds[..i], SLACK)
    ensures var fits := scores[i].horizon == horizons[i] && scores[i].origin == scores[0].origin;
            (fits ==> LinesUp(horizons[..i + 1], scores[..i + 1])) && (!fits ==> !LinesUp(horizons, scores))
    ensures RisesAt(raws, i) ==> Rising(raws[..i + 1], SLACK)
    ensures !RisesAt(raws, i) ==> !Rising(raws, SLACK)
    ensures RisesAt(calibrateds, i) ==> Rising(calibrateds[..i + 1], SLACK)
    ensures !RisesAt(calibrateds, i) ==> !Rising(calibrateds, SLACK)
  {
    OneMoreLinesUp(horizons, scores, i);
    OneMoreRises(raws, i);
    OneMoreRises(calibrateds, i);
  }

  predicate RisesAt(ps: seq<real>, i: nat)
    requires i < |ps|
  {
    i == 0 || ps[i - 1] <= ps[i] + SLACK
  }

  lemma OneMoreRises(ps: seq<real>, i: nat)
    requires i < |ps| && Rising(ps[..i], SLACK)
    ensures RisesAt(ps, i) <==> Rising(ps[..i + 1], SLACK)
    ensures !RisesAt(ps, i) ==> !Rising(ps, SLACK)
  {
    forall k | 0 < k < i ensures ps[k - 1] <= ps[k] + SLACK {
      assert ps[..i][k - 1] <= ps[..i][k] + SLACK;
    }
  }

  lemma OneMoreLinesUp(horizons: seq<nat>, scores: seq<Score>, i: nat)
    requires i < |horizons| == |scores| && LinesUp(horizons[..i], scores[..i])
    ensures var fits := scores[i].horizon == horizons[i] && scores[i].origin == scores[0].origin;
            (fits ==> LinesUp(horizons[..i + 1], scores[..i + 1])) && (!fits ==> !LinesUp(horizons, scores))
  {
    forall k | 0 <= k < i ensures scores[k].horizon == horizons[k] && scores[k].origin == scores[0].origin {
      assert scores[..i][k].horizon == horizons[..i][k];
    }
  }

  /** Calibration preserves order, so a curve whose raw scores never fall is refused only for not lining up. */
  lemma RisingRawIsEnough(link: Link, m: Method, scores: seq<Score>)
    requires SigmoidLike(link) && ValidMethod(m) && Rising(RawOf(link, scores), 0.0)
    ensures Rising(CalibratedOf(link, m, scores), 0.0)
    ensures Rising(RawOf(link, scores), SLACK) && Rising(CalibratedOf(link, m, scores), SLACK)
  {
    hide Calibrate, ValidMethod;
    var raws, calibrateds := RawOf(link, scores), CalibratedOf(link, m, scores);
    forall i | 0 < i < |scores| ensures calibrateds[i - 1] <= calibrateds[i] {
      assert raws[i - 1] <= raws[i] + 0.0;
      assert scores[i - 1].logit <= scores[i].logit;
      MethodMonotone(link, m, scores[i - 1].logit, scores[i].logit);
    }
  }

  /** The calibrated order can only break at a raw dip: the check is decided at the dips the slack lets pass. */
  lemma DipsDecide(link: Link, m: Method, scores: seq<Score>)
    requires SigmoidLike(link) && ValidMethod(m)
    ensures Rising(CalibratedOf(link, m, scores), SLACK) <==>
              forall i :: 0 < i < |scores| && scores[i].logit < scores[i - 1].logit ==>
                Calibrate(link, m, scores[i - 1].logit) <= Calibrate(link, m, scores[i].logit) + SLACK
  {
    hide Calibrate, ValidMethod, SigmoidLike;
    var ps := CalibratedOf(link, m, scores);
    forall i | 0 < i < |scores|
      ensures scores[i - 1].logit <= scores[i].logit ==> ps[i - 1] <= ps[i] + SLACK
    {
      if scores[i - 1].logit <= scores[i].logit {
        MethodMonotone(link, m, scores[i - 1].logit, scores[i].logit);
      }
    }
  }
}
