/** The anomaly scorer: per-dimension z-scores, the sigmoid of the largest, and the verdict. */
module Detector {
  import opened Wrappers
  import opened Stats
  import opened Baseline

  datatype Verdict = Normal | Anomalous | InsufficientData

  datatype Explanation = Explanation(dimension: string, mean: real, stddev: real, observed: real, sigma: real, contributing: bool)

  datatype Result = Result(score: real, verdict: Verdict, explanations: seq<Explanation>, coldStartFallback: bool, observations: nat)

  /** A negative hour or count means "not provided". */
  datatype ScoreInput = ScoreInput(action: string, resource: string, hour: int, count: real)

  datatype Mode = Alert | Block

  datatype Config = Config(enabled: bool, mode: Mode, sensitivity: string, minActions: int, coldStartFallback: bool)

  /** math.Exp, as a parameter: positive, strictly increasing, above its tangent at zero. */
  type Exp = real -> real

  ghost predicate IsExp(exp: Exp) {
    && (forall x: real :: exp(x) > 0.0)
    && (forall x: real :: exp(x) >= 1.0 + x)
    && (forall x: real, y: real :: x < y ==> exp(x) < exp(y))
  }

  /** An unknown sensitivity falls back to medium. */
  function SigmaThreshold(cfg: Config): (sigma: real)
    ensures cfg.sensitivity == "low" ==> sigma == 3.0
    ensures cfg.sensitivity == "high" ==> sigma == 1.5
    ensures cfg.sensitivity != "low" && cfg.sensitivity != "high" ==> sigma == 2.0
  {
    if cfg.sensitivity == "low" then 3.0
    else if cfg.sensitivity == "high" then 1.5
    else 2.0
  }

  // --------------------------------------------------------------------- z-scores

  function Abs(x: real): real {
    if x < 0.0 then -x else x
  }

  function ZScore(d: DimensionStats, observed: real): (z: real)
    ensures z >= 0.0
  {
    var sd := if d.stddev < EPSILON then EPSILON else d.stddev;
    Abs(observed - d.mean) / sd
  }

  /** The distance from the mean, in spreads; the spread counts as EPSILON at least. */
  lemma ZScoreMeans(d: DimensionStats, observed: real)
    ensures ZScore(d, observed) * MaxReal(d.stddev, EPSILON)
         == if observed >= d.mean then observed - d.mean else d.mean - observed
  {
    var distance := Abs(observed - d.mean);
    var spread := if d.stddev < EPSILON then EPSILON else d.stddev;
    QuotientTimes(distance, spread);
  }

  lemma QuotientTimes(x: real, y: real)
    requires y > 0.0
    ensures x / y * y == x
  {
  }

  lemma AtLeastTimes(z: real, sigma: real, spread: real)
    requires spread > 0.0
    ensures z >= sigma <==> z * spread >= sigma * spread
  {
  }

  /** The observation lies `sigma` spreads or more from the mean. */
  predicate Far(d: DimensionStats, observed: real, sigma: real) {
    var bound := sigma * (if d.stddev < EPSILON then EPSILON else d.stddev);
    observed - d.mean >= bound || d.mean - observed >= bound
  }

  lemma FarIffZScore(d: DimensionStats, observed: real, sigma: real)
    requires sigma > 0.0
    ensures ZScore(d, observed) >= sigma <==> Far(d, observed, sigma)
  {
    hide ZScore;
    ZScoreMeans(d, observed);
    AtLeastTimes(ZScore(d, observed), sigma, MaxReal(d.stddev, EPSILON));
    Positive(sigma, MaxReal(d.stddev, EPSILON));
  }

  lemma Positive(x: real, y: real)
    requires x > 0.0 && y > 0.0
    ensures x * y > 0.0
  {
  }

  predicate Contains(s: string, part: string) {
    (|s| >= |part| && s[..|part|] == part) || (s != "" && Contains(s[1..], part))
  }

  predicate OccursAt(part: string, s: string, k: nat) {
    k + |part| <= |s| && s[k..k + |part|] == part
  }

  /** `part` stands somewhere in `s`. */
  ghost predicate Occurs(part: string, s: string) {
    exists k: nat :: OccursAt(part, s, k)
  }

  lemma SliceOfTail(s: string, k: nat, n: nat)
    requires k + 1 + n <= |s|
    ensures s[1..][k..k + n] == s[k + 1..k + 1 + n]
  {
  }

  lemma {:induction false} ContainsMeans(s: string, part: string)
    ensures Contains(s, part) <==> Occurs(part, s)
  {
    if |s| >= |part| && s[..|part|] == part {
      assert OccursAt(part, s, 0);
    } else if s != "" {
      ContainsMeans(s[1..], part);
      if k: nat :| OccursAt(part, s, k) {
        assert k > 0;
        SliceOfTail(s, k - 1, |part|);
        assert OccursAt(part, s[1..], k - 1);
      }
      if k: nat :| OccursAt(part, s[1..], k) {
        SliceOfTail(s, k, |part|);
        assert OccursAt(part, s, k + 1);
      }
    } else {
      assert forall k: nat | OccursAt(part, s, k) :: k == 0;
    }
  }

  /** The explanation of one dimension; none for an unknown dimension or an hour that was not provided. */
  function Explain(name: string, d: DimensionStats, input: ScoreInput, sigma: real): Option<Explanation> {
    if Contains(name, ACTION_FREQUENCY) then
      var observed := if input.count >= 0.0 then input.count else d.mean;
      var z := ZScore(d, observed);
      Some(Explanation(name, d.mean, d.stddev, observed, z, z >= sigma))
    else if Contains(name, HOUR_OF_DAY) && input.hour >= 0 then
      var z := ZScore(d, input.hour as real);
      Some(Explanation(name, d.mean, d.stddev, input.hour as real, z, z >= sigma))
    else
      None
  }

  /** What contributes, without scores: the provided observation of a known dimension lies far from its mean. */
  ghost predicate Strays(name: string, d: DimensionStats, input: ScoreInput, sigma: real) {
    if Occurs("action_frequency", name) then Far(d, if input.count >= 0.0 then input.count else d.mean, sigma)
    else Occurs("hour_of_day", name) && input.hour >= 0 && Far(d, input.hour as real, sigma)
  }

  lemma ContributesIffStrays(name: string, d: DimensionStats, input: ScoreInput, sigma: real)
    requires sigma > 0.0
    ensures Explain(name, d, input, sigma).Some? && Explain(name, d, input, sigma).value.contributing
       <==> Strays(name, d, input, sigma)
  {
    hide Contains, Occurs, ZScore, Far;
    ContainsMeans(name, "action_frequency");
    ContainsMeans(name, "hour_of_day");
    FarIffZScore(d, if input.count >= 0.0 then input.count else d.mean, sigma);
    FarIffZScore(d, input.hour as real, sigma);
  }

  /** One explanation per explainable dimension, in whatever order the map is walked. */
  method PerDimensionZ(dims: map<string, DimensionStats>, input: ScoreInput, sigma: real) returns (exps: seq<Explanation>)
    ensures forall n | n in dims && Explain(n, dims[n], input, sigma).Some? :: Explain(n, dims[n], input, sigma).value in exps
    ensures forall e | e in exps :: e.dimension in dims && Explain(e.dimension, dims[e.dimension], input, sigma) == Some(e)
  {
    hide Contains, ZScore;
    exps := [];
    var left := dims.Keys;
    while left != {}
      invariant left <= dims.Keys
      invariant forall n | n in dims.Keys - left && Explain(n, dims[n], input, sigma).Some? :: Explain(n, dims[n], input, sigma).value in exps
      invariant forall e | e in exps :: e.dimension in dims && Explain(e.dimension, dims[e.dimension], input, sigma) == Some(e)
      decreases |left|
    {
      var name :| name in left;
      left := left - {name};
      var e := Explain(name, dims[name], input, sigma);
      if e.Some? {
        exps := exps + [e.value];
      }
    }
  }

  // ---------------------------------------------------------------------- sigmoid

  function Sigmoid(exp: Exp, x: real): real
    requires exp(-(x - 2.0) * 0.8) > 0.0
  {
    1.0 / (1.0 + exp(-(x - 2.0) * 0.8))
  }

  lemma ReciprocalOrder(a: real, b: real)
    requires a > 0.0 && b > 0.0
    ensures 1.0 / a >= 1.0 / b <==> a <= b
  {
  }

  lemma SigmoidOrder(exp: Exp, x: real, y: real)
    requires IsExp(exp)
    ensures Sigmoid(exp, x) >= Sigmoid(exp, y) <==> x >= y
    ensures 0.0 < Sigmoid(exp, x) < 1.0
  {
    var a, b := -(x - 2.0) * 0.8, -(y - 2.0) * 0.8;
    assert a < b <==> x > y;
    assert exp(a) <= exp(b) <==> a <= b;
    ReciprocalOrder(1.0 + exp(a), 1.0 + exp(b));
  }

  /** The score 0.9 of the backstop clears the band of every preset. */
  lemma BackstopClearsBand(exp: Exp, cfg: Config)
    requires IsExp(exp)
    ensures Sigmoid(exp, SigmaThreshold(cfg)) < 0.9
  {
    var sigma := SigmaThreshold(cfg);
    SigmoidOrder(exp, 3.0, sigma);
    var e := exp(-0.8);
    assert -(3.0 - 2.0) * 0.8 == -0.8 && e >= 0.2;
    ReciprocalOrder(1.2, 1.0 + e);
    assert Sigmoid(exp, 3.0) <= 1.0 / 1.2;
  }

  method MaxSigma(exps: seq<Explanation>) returns (top: real)
    requires exps != []
    ensures forall e | e in exps :: e.sigma <= top
    ensures exists e :: e in exps && e.sigma == top
  {
    top := exps[0].sigma;
    ghost var best := exps[0];
    for i := 1 to |exps|
      invariant forall j | 0 <= j < i :: exps[j].sigma <= top
      invariant best in exps && best.sigma == top
    {
      if exps[i].sigma > top {
        top := exps[i].sigma;
        best := exps[i];
      }
    }
  }

  /** The logistic value of the largest z-score, 0 when nothing was explained. */
  ghost predicate IsZPart(exp: Exp, exps: seq<Explanation>, z: real) {
    if exps == [] then z == 0.0
    else
      exists e :: e in exps && (forall o | o in exps :: o.sigma <= e.sigma) && z * (1.0 + exp(-(e.sigma - 2.0) * 0.8)) == 1.0
  }

  method AggregateZ(exp: Exp, exps: seq<Explanation>) returns (score: real)
    requires IsExp(exp)
    ensures 0.0 <= score < 1.0
    ensures forall sigma: real :: score >= Sigmoid(exp, sigma) <==> exists e :: e in exps && e.sigma >= sigma
    ensures IsZPart(exp, exps, score)
  {
    hide IsZPart;
    if |exps| == 0 {
      NoZPart(exp);
      forall sigma: real ensures 0.0 < Sigmoid(exp, sigma) {
        SigmoidOrder(exp, sigma, sigma);
      }
      return 0.0;
    }
    var top := MaxSigma(exps);
    score := Sigmoid(exp, top);
    forall sigma: real ensures score >= Sigmoid(exp, sigma) <==> exists e :: e in exps && e.sigma >= sigma {
      SigmoidOrder(exp, top, sigma);
    }
    SigmoidOrder(exp, top, top);
    TopIsZPart(exp, exps, top);
  }

  lemma NoZPart(exp: Exp)
    ensures IsZPart(exp, [], 0.0)
  {
  }

  lemma TopIsZPart(exp: Exp, exps: seq<Explanation>, top: real)
    requires IsExp(exp)
    requires (forall e | e in exps :: e.sigma <= top) && exists e :: e in exps && e.sigma == top
    ensures IsZPart(exp, exps, Sigmoid(exp, top))
  {
    SigmoidOrder(exp, top, top);
    hide IsExp;
    QuotientTimes(1.0, 1.0 + exp(-(top - 2.0) * 0.8));
  }

  // --------------------------------------------------------------------- backstop

  const KNOWN_ADVERSARIAL: seq<string> := [
    "deletetrail", "stoplogging", "deleteloggroup", "putbucketpolicy",
    "deletebucketpolicy", "deletedetector", "disable", "createaccesskey",
    "createloginprofile", "attachrolepolicy", "putuserpolicy",
    "deletecluster", "deletenamespace", "drop ", "drop table", "drop database",
    "truncate", "grant all", "delete from"]

  /** unicode.ToLower, as a parameter: strings.ToLower maps rune by rune. */
  type Lowering = char -> char

  function AsciiLower(c: char): char {
    if 'A' <= c <= 'Z' then (c as int + 32) as char else c
  }

  /** The law used: on ASCII it is the ASCII mapping. */
  ghost predicate IsLowering(lower: Lowering) {
    forall c: char | c as int < 0x80 :: lower(c) == AsciiLower(c)
  }

  function Lower(lower: Lowering, s: string): string {
    seq(|s|, i requires 0 <= i < |s| => lower(s[i]))
  }

  ghost predicate Adversarial(lower: Lowering, action: string, resource: string) {
    exists i :: 0 <= i < |KNOWN_ADVERSARIAL| && Occurs(KNOWN_ADVERSARIAL[i], Lower(lower, action + " " + resource))
  }

  /** An action that spells a known verb in any mixture of cases is adversarial on every resource. */
  lemma AnyCaseIsAdversarial(lower: Lowering, i: nat, action: string, resource: string)
    requires IsLowering(lower) && i < |KNOWN_ADVERSARIAL| && |action| == |KNOWN_ADVERSARIAL[i]|
    requires forall k | 0 <= k < |action| :: action[k] as int < 0x80 && AsciiLower(action[k]) == KNOWN_ADVERSARIAL[i][k]
    ensures Adversarial(lower, action, resource)
  {
    var verb := KNOWN_ADVERSARIAL[i];
    hide AsciiLower;
    var hay := Lower(lower, action + " " + resource);
    assert hay[..|verb|] == verb by {
      assert forall k | 0 <= k < |verb| :: hay[k] == lower(action[k]);
    }
    assert OccursAt(verb, hay, 0);
  }

  method ColdStartBackstop(lower: Lowering, action: string, resource: string, cfg: Config) returns (fired: bool, score: real)
    ensures fired <==> cfg.coldStartFallback && Adversarial(lower, action, resource)
    ensures score == if fired then 0.9 else 0.0
  {
    hide Contains, Lower, Occurs;
    if !cfg.coldStartFallback {
      return false, 0.0;
    }
    var hay := Lower(lower, action + " " + resource);
    for i := 0 to |KNOWN_ADVERSARIAL|
      invariant forall j | 0 <= j < i :: !Occurs(KNOWN_ADVERSARIAL[j], hay)
    {
      ContainsMeans(hay, KNOWN_ADVERSARIAL[i]);
      if Contains(hay, KNOWN_ADVERSARIAL[i]) {
        return true, 0.9;
      }
    }
    return false, 0.0;
  }

  // ---------------------------------------------------------------------- verdict

  /** Whether some dimension deviates by at least `sigma` standard deviations. */
  ghost predicate Deviates(dims: map<string, DimensionStats>, input: ScoreInput, sigma: real) {
    exists n :: n in dims && Explain(n, dims[n], input, sigma).Some? && Explain(n, dims[n], input, sigma).value.contributing
  }

  /** The verdict in terms of the observed deviations, without scores or bands. */
  ghost function VerdictOf(lower: Lowering, input: ScoreInput, summary: Summary, cfg: Config): Verdict {
    if summary.rolling < cfg.minActions then
      if cfg.coldStartFallback && Adversarial(lower, input.action, input.resource) then Anomalous else InsufficientData
    else if Deviates(summary.dimensions, input, SigmaThreshold(cfg)) then Anomalous
    else Normal
  }

  method ScoreAnomaly(exp: Exp, lower: Lowering, input: ScoreInput, summary: Summary, cfg: Config) returns (r: Result)
    requires IsExp(exp)
    ensures r.verdict == VerdictOf(lower, input, summary, cfg)
    ensures 0.0 <= r.score < 1.0
    ensures summary.rolling >= cfg.minActions ==> (r.verdict == Anomalous <==> exists e :: e in r.explanations && e.contributing)
    ensures r.coldStartFallback <==> summary.rolling < cfg.minActions && r.verdict == Anomalous
    ensures r.observations == summary.rolling
    ensures summary.rolling >= cfg.minActions ==>
              r.verdict == if exists n :: n in summary.dimensions && Strays(n, summary.dimensions[n], input, SigmaThreshold(cfg))
                           then Anomalous else Normal
    ensures summary.rolling < cfg.minActions ==>
              r.verdict == if cfg.coldStartFallback && Adversarial(lower, input.action, input.resource)
                           then Anomalous else InsufficientData
    ensures exists z :: IsZPart(exp, r.explanations, z) && r.score == if r.coldStartFallback && z < 0.9 then 0.9 else z
  {
    hide Adversarial, Contains, IsExp, IsZPart, Strays, Explain;
    var sigma := SigmaThreshold(cfg);
    var exps := PerDimensionZ(summary.dimensions, input, sigma);
    var zScore := AggregateZ(exp, exps);
    var isColdStart := summary.rolling < cfg.minActions;
    var fired, fallback := false, 0.0;
    if isColdStart {
      fired, fallback := ColdStartBackstop(lower, input.action, input.resource, cfg);
    }
    var combined := MaxReal(zScore, fallback);
    var band := Band(exp, sigma);
    BackstopClearsBand(exp, cfg);
    ContributingMeansDeviates(summary.dimensions, input, sigma, exps);
    var verdict: Verdict;
    if isColdStart && !fired {
      verdict := InsufficientData;
    } else if combined >= band {
      verdict := Anomalous;
    } else {
      verdict := Normal;
    }
    r := Result(combined, verdict, exps, fired, summary.rolling);
    assert IsZPart(exp, r.explanations, zScore);
    DeviatesMeansStrays(summary.dimensions, input, sigma);
  }

  lemma DeviatesMeansStrays(dims: map<string, DimensionStats>, input: ScoreInput, sigma: real)
    requires sigma > 0.0
    ensures Deviates(dims, input, sigma) <==> exists n :: n in dims && Strays(n, dims[n], input, sigma)
  {
    hide Explain, Strays;
    forall n | n in dims
      ensures Explain(n, dims[n], input, sigma).Some? && Explain(n, dims[n], input, sigma).value.contributing
         <==> Strays(n, dims[n], input, sigma)
    {
      ContributesIffStrays(n, dims[n], input, sigma);
    }
  }

  method Band(exp: Exp, sigma: real) returns (band: real)
    requires IsExp(exp)
    ensures exp(-(sigma - 2.0) * 0.8) > 0.0 && band == Sigmoid(exp, sigma)
  {
    band := Sigmoid(exp, sigma);
  }

  lemma ContributingMeansDeviates(dims: map<string, DimensionStats>, input: ScoreInput, sigma: real, exps: seq<Explanation>)
    requires forall n | n in dims && Explain(n, dims[n], input, sigma).Some? :: Explain(n, dims[n], input, sigma).value in exps
    requires forall e | e in exps :: e.dimension in dims && Explain(e.dimension, dims[e.dimension], input, sigma) == Some(e)
    ensures Deviates(dims, input, sigma) <==> exists e :: e in exps && e.contributing
    ensures forall e | e in exps :: e.contributing <==> e.sigma >= sigma
  {
    hide Contains, ZScore;
  }
}
